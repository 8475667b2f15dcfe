/** The two renderers, `set_color` and `pulse_color`, as functions from their
    arguments to the trace of writes and sleeps they perform and the value
    they return. */
module Renderer {
  import opened Optional
  import opened Pwm
  import opened Colors
  import opened PyRange

  /** `power_percentage` when the caller passes None. */
  const DefaultPower: int := 100
  /** `delay` of `pulse_color` when the caller passes None. */
  const DefaultDelay: real := 0.5
  /** Levels per half of a pulse, counted as increments. */
  const NumberOfSteps: int := 10
  /** Return value for a colour found in the table. */
  const Found: int := 0
  /** Return value for a colour missing from the table. */
  const NotFound: int := -1

  /** The exception `xrange` raises for a zero step. */
  datatype PyError = ValueError

  /** How a renderer call ends: it returns a code after performing `trace`, or
      it raises before performing anything. */
  datatype Outcome = Returned(code: int, trace: seq<Event>) | Raised(error: PyError)

  /** The three writes of one brightness level: channels 0, 1, 2 in that
      order, each at the colour's intensity for that channel times `level`. */
  function Shade(rgb: Rgb, level: real): (t: seq<Event>)
    ensures |t| == 3
    ensures forall ch: Channel :: t[ch].Write? && t[ch].channel == ch && t[ch].duty == Duty(rgb.At(ch) * level)
  {
    var t := [SetDutyCycle(0, rgb.At(0) * level), SetDutyCycle(1, rgb.At(1) * level), SetDutyCycle(2, rgb.At(2) * level)];
    assert forall ch: Channel :: t[ch] == SetDutyCycle(ch, rgb.At(ch) * level) by {
      forall ch: Channel
        ensures t[ch] == SetDutyCycle(ch, rgb.At(ch) * level)
      {
        if ch == 0 {
        } else if ch == 1 {
        } else {
          assert ch == 2;
        }
      }
    }
    t
  }

  lemma ShadeCounts(rgb: Rgb, level: real)
    ensures Writes(Shade(rgb, level)) == 3 && Sleeps(Shade(rgb, level)) == 0
  {
    OnlyWrites(Shade(rgb, level));
  }

  /** The body of one `for brightness in ...` loop of `pulse_color`: for each
      level its shade, then one sleep of `pause`. */
  function Ramp(rgb: Rgb, levels: seq<int>, pause: real): (t: seq<Event>)
    ensures |t| == 4 * |levels|
  {
    if levels == [] then []
    else Shade(rgb, levels[0] as real) + [Sleep(pause)] + Ramp(rgb, levels[1..], pause)
  }

  /** Block k of a ramp is the shade at level k followed by one sleep. */
  lemma {:induction false} RampBlock(rgb: Rgb, levels: seq<int>, pause: real, k: int)
    requires 0 <= k < |levels|
    ensures Ramp(rgb, levels, pause)[4 * k .. 4 * k + 4] == Shade(rgb, levels[k] as real) + [Sleep(pause)]
  {
    var block := Shade(rgb, levels[0] as real) + [Sleep(pause)];
    var rest := Ramp(rgb, levels[1..], pause);
    assert Ramp(rgb, levels, pause) == block + rest;
    if k == 0 {
      assert (block + rest)[0 .. 4] == block;
    } else {
      RampBlock(rgb, levels[1..], pause, k - 1);
      assert (block + rest)[4 * k .. 4 * k + 4] == rest[4 * (k - 1) .. 4 * (k - 1) + 4];
    }
  }

  /** A ramp over two runs of levels is the two ramps one after the other. */
  lemma {:induction false} RampAppend(rgb: Rgb, a: seq<int>, b: seq<int>, pause: real)
    ensures Ramp(rgb, a + b, pause) == Ramp(rgb, a, pause) + Ramp(rgb, b, pause)
  {
    if a == [] {
      assert a + b == b;
    } else {
      assert (a + b)[0] == a[0];
      assert (a + b)[1..] == a[1..] + b;
      RampAppend(rgb, a[1..], b, pause);
    }
  }

  /** Each level costs exactly three writes and one sleep. */
  lemma {:induction false} RampCounts(rgb: Rgb, levels: seq<int>, pause: real)
    ensures Sleeps(Ramp(rgb, levels, pause)) == |levels|
    ensures Writes(Ramp(rgb, levels, pause)) == 3 * |levels|
  {
    if levels != [] {
      var block := Shade(rgb, levels[0] as real) + [Sleep(pause)];
      ShadeCounts(rgb, levels[0] as real);
      CountsAppend(Shade(rgb, levels[0] as real), [Sleep(pause)]);
      CountsAppend(block, Ramp(rgb, levels[1..], pause));
      RampCounts(rgb, levels[1..], pause);
    }
  }

  /** Two ramps one after the other: the counts add up. */
  lemma RampPairCounts(rgb: Rgb, up: seq<int>, down: seq<int>, pause: real)
    ensures Sleeps(Ramp(rgb, up, pause) + Ramp(rgb, down, pause)) == |up| + |down|
    ensures Writes(Ramp(rgb, up, pause) + Ramp(rgb, down, pause)) == 3 * (|up| + |down|)
  {
    RampCounts(rgb, up, pause);
    RampCounts(rgb, down, pause);
    CountsAppend(Ramp(rgb, up, pause), Ramp(rgb, down, pause));
  }

  /** Block k of two ramps one after the other is the shade at level k of the
      two runs of levels joined, followed by one sleep. */
  lemma RampPairBlock(rgb: Rgb, up: seq<int>, down: seq<int>, pause: real, k: int)
    requires 0 <= k < |up| + |down|
    ensures (Ramp(rgb, up, pause) + Ramp(rgb, down, pause))[4 * k .. 4 * k + 4]
      == Shade(rgb, (up + down)[k] as real) + [Sleep(pause)]
  {
    RampAppend(rgb, up, down, pause);
    RampBlock(rgb, up + down, pause, k);
  }

  /** Every write of `t` stays within one PWM period. */
  ghost predicate WithinPeriod(t: seq<Event>)
  {
    forall i :: 0 <= i < |t| && t[i].Write? ==> 0 <= t[i].duty <= Period
  }

  /** Two traces that keep within the period keep within it together. */
  lemma WithinPeriodAppend(a: seq<Event>, b: seq<Event>)
    requires WithinPeriod(a) && WithinPeriod(b)
    ensures WithinPeriod(a + b)
  {
    forall i | 0 <= i < |a + b| && (a + b)[i].Write?
      ensures 0 <= (a + b)[i].duty <= Period
    {
      if i >= |a| {
        assert (a + b)[i] == b[i - |a|];
      }
    }
  }

  /** An intensity in [0, 1] at a level in [0, 100] is a percentage in
      [0, 100]. */
  lemma ChannelInRange(a: real, x: real)
    requires 0.0 <= a <= 1.0 && 0.0 <= x <= 100.0
    ensures 0.0 <= a * x <= 100.0
  {
    assert 0.0 <= a * x;
    assert a * x <= x by {
      assert x - a * x == (1.0 - a) * x;
      assert 0.0 <= (1.0 - a) * x;
    }
  }

  /** One block of a ramp, written out: three writes and a sleep. */
  lemma ShadeBlock(rgb: Rgb, x: real, pause: real)
    ensures Shade(rgb, x) + [Sleep(pause)]
      == [SetDutyCycle(0, rgb.red * x), SetDutyCycle(1, rgb.green * x), SetDutyCycle(2, rgb.blue * x), Sleep(pause)]
  {
    var t := Shade(rgb, x) + [Sleep(pause)];
    assert t[0] == SetDutyCycle(0, rgb.red * x);
    assert t[1] == SetDutyCycle(1, rgb.green * x);
    assert t[2] == SetDutyCycle(2, rgb.blue * x);
    assert t[3] == Sleep(pause) && |t| == 4;
  }

  /** Three percentages in [0, 100] and a sleep keep within the period. */
  lemma BlockWithinPeriod(p0: real, p1: real, p2: real, pause: real)
    requires 0.0 <= p0 <= 100.0 && 0.0 <= p1 <= 100.0 && 0.0 <= p2 <= 100.0
    ensures WithinPeriod([SetDutyCycle(0, p0), SetDutyCycle(1, p1), SetDutyCycle(2, p2), Sleep(pause)])
  {
    DutyInRange(p0);
    DutyInRange(p1);
    DutyInRange(p2);
  }

  /** A level whose three channel percentages lie in [0, 100] stays within
      the period. */
  lemma ShadePercentagesWithinPeriod(rgb: Rgb, x: real, pause: real)
    requires 0.0 <= rgb.red * x <= 100.0
    requires 0.0 <= rgb.green * x <= 100.0
    requires 0.0 <= rgb.blue * x <= 100.0
    ensures WithinPeriod(Shade(rgb, x) + [Sleep(pause)])
  {
    BlockWithinPeriod(rgb.red * x, rgb.green * x, rgb.blue * x, pause);
    ShadeBlock(rgb, x, pause);
  }

  /** One level of a colour of the table, in [0, 100], stays within the
      period. */
  lemma ShadeWithinPeriod(rgb: Rgb, level: int, pause: real)
    requires rgb.InUnitCube() && 0 <= level <= 100
    ensures WithinPeriod(Shade(rgb, level as real) + [Sleep(pause)])
  {
    var x := level as real;
    ChannelInRange(rgb.red, x);
    ChannelInRange(rgb.green, x);
    ChannelInRange(rgb.blue, x);
    ShadePercentagesWithinPeriod(rgb, x, pause);
  }

  /** A colour of the table at levels in [0, 100] never leaves the period. */
  lemma {:induction false} RampWithinPeriod(rgb: Rgb, levels: seq<int>, pause: real)
    requires rgb.InUnitCube()
    requires forall k :: 0 <= k < |levels| ==> 0 <= levels[k] <= 100
    ensures WithinPeriod(Ramp(rgb, levels, pause))
  {
    if levels != [] {
      ShadeWithinPeriod(rgb, levels[0], pause);
      RampWithinPeriod(rgb, levels[1..], pause);
      WithinPeriodAppend(Shade(rgb, levels[0] as real) + [Sleep(pause)], Ramp(rgb, levels[1..], pause));
    }
  }

  /** Two ramps over levels in [0, 100] of a colour of the table never leave
      the period. */
  lemma RampPairWithinPeriod(rgb: Rgb, up: seq<int>, down: seq<int>, pause: real)
    requires rgb.InUnitCube()
    requires forall k :: 0 <= k < |up| ==> 0 <= up[k] <= 100
    requires forall k :: 0 <= k < |down| ==> 0 <= down[k] <= 100
    ensures WithinPeriod(Ramp(rgb, up, pause) + Ramp(rgb, down, pause))
  {
    RampWithinPeriod(rgb, up, pause);
    RampWithinPeriod(rgb, down, pause);
    WithinPeriodAppend(Ramp(rgb, up, pause), Ramp(rgb, down, pause));
  }

  /** Two ramps, the first starting at level 0 and the second ending at
      level 0, begin and end with a dark block. */
  lemma RampPairEnds(rgb: Rgb, up: seq<int>, down: seq<int>, pause: real)
    requires |up| > 0 && up[0] == 0
    requires |down| > 0 && down[|down| - 1] == 0
    ensures var t := Ramp(rgb, up, pause) + Ramp(rgb, down, pause);
      && |t| >= 8
      && t[0 .. 4] == Shade(rgb, 0.0) + [Sleep(pause)]
      && t[|t| - 4 ..] == Shade(rgb, 0.0) + [Sleep(pause)]
  {
    var a := Ramp(rgb, up, pause);
    var b := Ramp(rgb, down, pause);
    RampBlock(rgb, up, pause, 0);
    assert (a + b)[0 .. 4] == a[0 .. 4];
    var k := |down| - 1;
    RampBlock(rgb, down, pause, k);
    assert (a + b)[|a + b| - 4 ..] == b[4 * k .. 4 * k + 4];
  }

  /** `set_color(color, power_percentage)`: one write per channel for a known
      colour, nothing at all for an unknown one. It never sleeps. */
  function SetColor(name: string, power: Option<real>): (r: Outcome)
    ensures r.Returned?
    ensures name !in Table ==> r == Returned(NotFound, [])
    ensures name in Table ==> r.code == Found && |r.trace| == 3
    ensures name in Table ==> forall ch: Channel ::
      && r.trace[ch].Write? && r.trace[ch].channel == ch
      && r.trace[ch].duty == Duty(Table[name].At(ch) * power.ValueOr(DefaultPower as real))
  {
    var p := power.ValueOr(DefaultPower as real);
    if name in Table then Returned(Found, Shade(Table[name], p)) else Returned(NotFound, [])
  }

  /** The length of one ramp step. Python 2 `/` on integers floors; for the
      positive divisor 10 Dafny's Euclidean `/` is the same. */
  function StepOf(power: int): (step: int)
    ensures NumberOfSteps * step <= power < NumberOfSteps * step + NumberOfSteps
  {
    power / NumberOfSteps
  }

  /** The pause after each level: half the delay spread over ten steps. */
  function PauseOf(delay: real): (pause: real)
    ensures NumberOfSteps as real * pause == delay * 0.5
  {
    delay * 0.5 / NumberOfSteps as real
  }

  /** The known-colour branch of `pulse_color`: a ramp up over
      `xrange(0, power + step, step)` and a ramp down over
      `xrange(power, 0 - step, -step)`. */
  function PulseRgb(rgb: Rgb, power: int, pause: real): (r: Outcome)
    ensures r.Raised? <==> 0 <= power < NumberOfSteps
    ensures r.Raised? ==> r.error == ValueError
    ensures r.Returned? ==> r.code == Found && Sleeps(r.trace) > 0 && Writes(r.trace) == 3 * Sleeps(r.trace)
  {
    var step := StepOf(power);
    match XRange(0, power + step, step)
    case None => Raised(ValueError)
    case Some(up) =>
      match XRange(power, 0 - step, -step)
      case None => Raised(ValueError)
      case Some(down) =>
        RampPairCounts(rgb, up, down, pause);
        Returned(Found, Ramp(rgb, up, pause) + Ramp(rgb, down, pause))
  }

  /** `pulse_color(color, delay, power_percentage)`: -1 and nothing else for
      an unknown colour, whatever the power; for a known colour, ValueError
      exactly when the step is zero, otherwise both ramps and 0. */
  function PulseColor(name: string, delay: Option<real>, power: Option<int>): (r: Outcome)
    ensures name !in Table ==> r == Returned(NotFound, [])
    ensures name in Table ==> (r.Raised? <==> 0 <= power.ValueOr(DefaultPower) < NumberOfSteps)
    ensures r.Raised? ==> r.error == ValueError
    ensures r.Returned? && name in Table ==> r.code == Found && Sleeps(r.trace) > 0
  {
    var p := power.ValueOr(DefaultPower);
    var pause := PauseOf(delay.ValueOr(DefaultDelay));
    if name in Table then PulseRgb(Table[name], p, pause) else Returned(NotFound, [])
  }

  /** The levels of the way up, `xrange(0, power + step, step)`, for a
      non-zero step: they start at 0. */
  function Up(power: int): (levels: seq<int>)
    requires StepOf(power) != 0
    ensures |levels| > 0 && levels[0] == 0
  {
    ProgressionCons(0, power + StepOf(power), StepOf(power));
    Progression(0, power + StepOf(power), StepOf(power))
  }

  /** The levels of the way down, `xrange(power, 0 - step, -step)`, for a
      non-zero step: they start at the power. */
  function Down(power: int): (levels: seq<int>)
    requires StepOf(power) != 0
    ensures |levels| > 0 && levels[0] == power
  {
    ProgressionCons(power, 0 - StepOf(power), -StepOf(power));
    Progression(power, 0 - StepOf(power), -StepOf(power))
  }

  /** A known colour with a non-zero step renders both ramps. */
  lemma PulseKnown(name: string, delay: Option<real>, power: Option<int>)
    requires name in Table
    requires StepOf(power.ValueOr(DefaultPower)) != 0
    ensures var p := power.ValueOr(DefaultPower);
      var pause := PauseOf(delay.ValueOr(DefaultDelay));
      PulseColor(name, delay, power) == Returned(Found, Ramp(Table[name], Up(p), pause) + Ramp(Table[name], Down(p), pause))
  {
  }

  /** Level k of the way up is `k * step`, for exactly those k with
      `k * step < power + step`. */
  lemma UpLevels(p: int)
    requires p >= NumberOfSteps
    ensures var step := StepOf(p);
      && (forall k :: 0 <= k ==> (k < |Up(p)| <==> k * step < p + step))
      && (forall k :: 0 <= k < |Up(p)| ==> Up(p)[k] == k * step)
  {
    var step := StepOf(p);
    ProgressionIsXRange(0, p + step, step);
    XRangeIndices(Up(p), 0, p + step, step);
  }

  /** Level k of the way down is `power - k * step`, for exactly those k with
      `power - k * step > -step`. */
  lemma DownLevels(p: int)
    requires p >= NumberOfSteps
    ensures var step := StepOf(p);
      && (forall k :: 0 <= k ==> (k < |Down(p)| <==> p - k * step > -step))
      && (forall k :: 0 <= k < |Down(p)| ==> Down(p)[k] == p - k * step)
  {
    var step := StepOf(p);
    var d := Down(p);
    ProgressionIsXRange(p, 0 - step, -step);
    XRangeIndices(d, p, 0 - step, -step);
    forall k | 0 <= k
      ensures p + k * -step == p - k * step
    {
      assert k * -step == -(k * step);
    }
  }

  /** The levels of the two ramps for a power of at least 10, with Python's
      range semantics: level k of the way up is `k * step` for exactly those
      k with `k * step < power + step`, and level k of the way down is
      `power - k * step` for exactly those k with `power - k * step > -step`. */
  lemma RampLevels(p: int)
    requires p >= NumberOfSteps
    ensures var step := StepOf(p);
      && (forall k :: 0 <= k ==> (k < |Up(p)| <==> k * step < p + step))
      && (forall k :: 0 <= k < |Up(p)| ==> Up(p)[k] == k * step)
      && (forall k :: 0 <= k ==> (k < |Down(p)| <==> p - k * step > -step))
      && (forall k :: 0 <= k < |Down(p)| ==> Down(p)[k] == p - k * step)
  {
    UpLevels(p);
    DownLevels(p);
  }

  /** Whatever the power, a pulse that does not raise performs three writes
      and one sleep per level of the two ranges. */
  lemma PulseCounts(name: string, delay: Option<real>, power: Option<int>)
    requires name in Table
    requires StepOf(power.ValueOr(DefaultPower)) != 0
    ensures var p := power.ValueOr(DefaultPower);
      && Sleeps(PulseColor(name, delay, power).trace) == |Up(p)| + |Down(p)|
      && Writes(PulseColor(name, delay, power).trace) == 3 * (|Up(p)| + |Down(p)|)
  {
    var p := power.ValueOr(DefaultPower);
    PulseKnown(name, delay, power);
    RampPairCounts(Table[name], Up(p), Down(p), PauseOf(delay.ValueOr(DefaultDelay)));
  }

  /** Every sleep of a ramp is the one pause. */
  lemma {:induction false} RampPauses(rgb: Rgb, levels: seq<int>, pause: real)
    ensures SleepsLast(Ramp(rgb, levels, pause), pause)
  {
    if levels != [] {
      var shade := Shade(rgb, levels[0] as real);
      RampPauses(rgb, levels[1..], pause);
      assert SleepsLast(shade, pause) by {
        forall i | 0 <= i < |shade|
          ensures shade[i].Write?
        {
          var ch: Channel := i;
          assert shade[ch].Write?;
        }
      }
      SleepsLastAppend(shade, [Sleep(pause)], pause);
      SleepsLastAppend(shade + [Sleep(pause)], Ramp(rgb, levels[1..], pause), pause);
    }
  }

  /** Every sleep of a pulse lasts a twentieth of the delay: half the delay
      spread over ten steps. */
  lemma PulseSleeps(name: string, delay: real, power: Option<int>)
    ensures var r := PulseColor(name, Some(delay), power);
      r.Returned? ==> SleepsLast(r.trace, delay / 20.0)
  {
    var p := power.ValueOr(DefaultPower);
    var pause := PauseOf(delay);
    assert pause == delay / 20.0;
    if name in Table && StepOf(p) != 0 {
      PulseKnown(name, Some(delay), power);
      RampPauses(Table[name], Up(p), pause);
      RampPauses(Table[name], Down(p), pause);
      SleepsLastAppend(Ramp(Table[name], Up(p), pause), Ramp(Table[name], Down(p), pause), pause);
    }
  }

  /** Every sleep of two ramps one after the other is the one pause. */
  lemma RampPairPauses(rgb: Rgb, up: seq<int>, down: seq<int>, pause: real)
    ensures SleepsLast(Ramp(rgb, up, pause) + Ramp(rgb, down, pause), pause)
  {
    RampPauses(rgb, up, pause);
    RampPauses(rgb, down, pause);
    SleepsLastAppend(Ramp(rgb, up, pause), Ramp(rgb, down, pause), pause);
  }

  /** A pulse that does not raise sleeps a twentieth of the delay once per
      level of the two ranges. */
  lemma PulseDuration(name: string, delay: real, power: Option<int>)
    requires name in Table
    requires StepOf(power.ValueOr(DefaultPower)) != 0
    ensures var p := power.ValueOr(DefaultPower);
      SleepTime(PulseColor(name, Some(delay), power).trace) == Scale(|Up(p)| + |Down(p)|, delay / 20.0)
  {
    var p := power.ValueOr(DefaultPower);
    var pause := PauseOf(delay);
    assert pause == delay / 20.0;
    PulseKnown(name, Some(delay), power);
    RampPairPauses(Table[name], Up(p), Down(p), pause);
    RampPairCounts(Table[name], Up(p), Down(p), pause);
    UniformSleepTime(Ramp(Table[name], Up(p), pause) + Ramp(Table[name], Down(p), pause), pause);
  }

  /** The levels of a full-power pulse on the way up: 0, 10, ..., 100. */
  function FullPowerUp(): seq<int>
  {
    seq(11, k => 10 * k)
  }

  /** The levels of a full-power pulse on the way down: 100, 90, ..., 0. */
  function FullPowerDown(): seq<int>
  {
    seq(11, k => 100 - 10 * k)
  }

  /** `xrange(0, 110, 10)` and `xrange(100, -10, -10)`. */
  lemma FullPowerLevels()
    ensures Up(100) == FullPowerUp()
    ensures Down(100) == FullPowerDown()
  {
    ProgressionIsXRange(0, 110, 10);
    ProgressionIsXRange(100, -10, -10);
    XRangeUnique(Up(100), FullPowerUp(), 0, 110, 10);
    XRangeUnique(Down(100), FullPowerDown(), 100, -10, -10);
  }

  /** The full-power ramp pair for any colour of the table: 22 levels,
      starting and ending dark, peaking at full brightness, never leaving
      the PWM period. */
  lemma FullPowerRamp(rgb: Rgb, pause: real)
    requires rgb.InUnitCube()
    ensures var t := Ramp(rgb, FullPowerUp(), pause) + Ramp(rgb, FullPowerDown(), pause);
      && Sleeps(t) == 22 && Writes(t) == 66 && |t| == 88
      && t[0 .. 4] == Shade(rgb, 0.0) + [Sleep(pause)]
      && t[40 .. 44] == Shade(rgb, 100.0) + [Sleep(pause)]
      && t[84 .. 88] == Shade(rgb, 0.0) + [Sleep(pause)]
      && WithinPeriod(t)
  {
    var a := Ramp(rgb, FullPowerUp(), pause);
    var b := Ramp(rgb, FullPowerDown(), pause);
    RampPairCounts(rgb, FullPowerUp(), FullPowerDown(), pause);
    RampPairEnds(rgb, FullPowerUp(), FullPowerDown(), pause);
    RampBlock(rgb, FullPowerUp(), pause, 10);
    assert (a + b)[40 .. 44] == a[40 .. 44];
    RampPairWithinPeriod(rgb, FullPowerUp(), FullPowerDown(), pause);
  }

  /** At the default power of 100 a known colour gets 11 levels up,
      0, 10, ..., 100, and 11 down, 100, ..., 0: 22 sleeps and 66 writes,
      starting and ending dark, peaking at full brightness, never leaving the
      PWM period. */
  lemma PulseAtFullPower(name: string, delay: Option<real>, power: Option<int>)
    requires name in Table
    requires power.ValueOr(DefaultPower) == 100
    ensures var r := PulseColor(name, delay, power);
      var t := r.trace;
      var pause := PauseOf(delay.ValueOr(DefaultDelay));
      && r == Returned(Found, Ramp(Table[name], FullPowerUp(), pause) + Ramp(Table[name], FullPowerDown(), pause))
      && Sleeps(t) == 22 && Writes(t) == 66 && |t| == 88
      && t[0 .. 4] == Shade(Table[name], 0.0) + [Sleep(pause)]
      && t[40 .. 44] == Shade(Table[name], 100.0) + [Sleep(pause)]
      && t[84 .. 88] == Shade(Table[name], 0.0) + [Sleep(pause)]
      && WithinPeriod(t)
  {
    FullPowerLevels();
    PulseKnown(name, delay, power);
    TableInUnitCube(name);
    FullPowerRamp(Table[name], PauseOf(delay.ValueOr(DefaultDelay)));
  }

  /** At the default power a pulse sleeps 22 twentieths of the delay: 1.1
      times the delay, and 0.55 seconds at the default delay. */
  lemma FullPulseDuration(name: string, delay: real)
    requires name in Table
    ensures SleepTime(PulseColor(name, Some(delay), None).trace) == 1.1 * delay
    ensures SleepTime(PulseColor(name, None, None).trace) == 0.55
  {
    FullPowerLevels();
    PulseDuration(name, delay, None);
    PulseDuration(name, DefaultDelay, None);
    ScaleIsProduct(22, delay / 20.0);
    ScaleIsProduct(22, DefaultDelay / 20.0);
    assert PulseColor(name, None, None) == PulseColor(name, Some(DefaultDelay), None);
  }

  // The ramps as written overshoot when the step does not divide the power:
  // for power 25 the step is 2, the way up ends at 26 and the way down at -1.
  // The definitions below are the evidently intended ramps: up in steps to
  // exactly `power`, down in steps to exactly 0.

  /** Intended way up from `level`: `level`, `level + step`, ... while below
      `power`, then `power` itself. */
  function IntendedUp(level: int, power: int, step: int): (r: seq<int>)
    requires step > 0 && 0 <= level <= power
    ensures |r| > 0 && r[0] == level && r[|r| - 1] == power
    ensures forall k :: 0 <= k < |r| ==> level <= r[k] <= power
    ensures forall k :: 0 < k < |r| ==> r[k - 1] < r[k]
    decreases power - level
  {
    if level == power then [power]
    else if level + step >= power then [level, power]
    else [level] + IntendedUp(level + step, power, step)
  }

  /** Intended way down from `level`: `level`, `level - step`, ... while
      above 0, then 0 itself. */
  function IntendedDown(level: int, step: int): (r: seq<int>)
    requires step > 0 && 0 <= level
    ensures |r| > 0 && r[0] == level && r[|r| - 1] == 0
    ensures forall k :: 0 <= k < |r| ==> 0 <= r[k] <= level
    ensures forall k :: 0 < k < |r| ==> r[k - 1] > r[k]
    decreases level
  {
    if level == 0 then [0]
    else if level - step <= 0 then [level, 0]
    else [level] + IntendedDown(level - step, step)
  }

  /** The known-colour branch with the intended ramps, for a non-zero step. */
  function IntendedPulseRgb(rgb: Rgb, power: int, pause: real): (r: Outcome)
    requires power >= 0
    ensures r.Raised? <==> power < NumberOfSteps
    ensures r.Returned? ==>
      && r.code == Found
      && |r.trace| >= 8
      && r.trace[0 .. 4] == Shade(rgb, 0.0) + [Sleep(pause)]
      && r.trace[|r.trace| - 4 ..] == Shade(rgb, 0.0) + [Sleep(pause)]
      && (rgb.InUnitCube() && power <= 100 ==> WithinPeriod(r.trace))
  {
    var step := StepOf(power);
    if step == 0 then Raised(ValueError)
    else
      var up := IntendedUp(0, power, step);
      var down := IntendedDown(power, step);
      RampPairEnds(rgb, up, down, pause);
      if rgb.InUnitCube() && power <= 100 then
        RampPairWithinPeriod(rgb, up, down, pause);
        Returned(Found, Ramp(rgb, up, pause) + Ramp(rgb, down, pause))
      else
        Returned(Found, Ramp(rgb, up, pause) + Ramp(rgb, down, pause))
  }

  /** `pulse_color` with the intended ramps; it keeps the source's behaviour
      for unknown colours and for a zero step. */
  function PulseColorIntended(name: string, delay: Option<real>, power: Option<int>): (r: Outcome)
    requires power.ValueOr(DefaultPower) >= 0
    ensures name !in Table ==> r == Returned(NotFound, [])
    ensures name in Table ==> (r.Raised? <==> power.ValueOr(DefaultPower) < NumberOfSteps)
    ensures r.Returned? && name in Table ==>
      var pause := PauseOf(delay.ValueOr(DefaultDelay));
      var t := r.trace;
      && r.code == Found
      && |t| >= 8
      && t[0 .. 4] == Shade(Table[name], 0.0) + [Sleep(pause)]
      && t[|t| - 4 ..] == Shade(Table[name], 0.0) + [Sleep(pause)]
      && (power.ValueOr(DefaultPower) <= 100 ==> WithinPeriod(t))
  {
    var p := power.ValueOr(DefaultPower);
    var pause := PauseOf(delay.ValueOr(DefaultDelay));
    if name in Table then
      TableInUnitCube(name);
      IntendedPulseRgb(Table[name], p, pause)
    else
      Returned(NotFound, [])
  }

  /** When the step divides the distance `m * step` to the peak, the
      as-written way up is the intended one. */
  lemma {:induction false} UpAgrees(level: int, p: int, step: int, m: nat)
    requires step > 0 && 0 <= level <= p && p - level == Times(m, step)
    ensures Progression(level, p + step, step) == IntendedUp(level, p, step)
    decreases m
  {
    ProgressionCons(level, p + step, step);
    if m == 0 {
      assert level == p;
      ProgressionDone(level + step, p + step, step);
    } else {
      var next := level + step;
      assert p - next == Times(m - 1, step);
      assert Times(m - 1, step) >= 0;
      UpAgrees(next, p, step, m - 1);
      if next == p {
        ProgressionCons(p, p + step, step);
        ProgressionDone(p + step, p + step, step);
        assert IntendedUp(level, p, step) == [level, p];
      } else {
        assert IntendedUp(level, p, step) == [level] + IntendedUp(next, p, step);
      }
    }
  }

  /** When the step divides the level `m * step`, the as-written way down is
      the intended one. */
  lemma {:induction false} DownAgrees(level: int, step: int, m: nat)
    requires step > 0 && level == Times(m, step)
    ensures Progression(level, 0 - step, -step) == IntendedDown(level, step)
    decreases m
  {
    if m == 0 {
      assert Progression(0, 0 - step, -step) == [0] + Progression(-step, 0 - step, -step);
      assert Progression(-step, 0 - step, -step) == [];
    } else {
      assert Times(m, step) == Times(m - 1, step) + step;
      assert Progression(level, 0 - step, -step) == [level] + Progression(level - step, 0 - step, -step);
      DownAgrees(level - step, step, m - 1);
      if level - step == 0 {
        assert Progression(-step, 0 - step, -step) == [];
      }
    }
  }

  /** The ranges for a power that is `m` whole steps. */
  lemma LevelsAgreeTimes(p: int, step: int, m: nat)
    requires p >= NumberOfSteps && step == StepOf(p) && p == Times(m, step)
    ensures Up(p) == IntendedUp(0, p, step)
    ensures Down(p) == IntendedDown(p, step)
  {
    assert Up(p) == Progression(0, p + step, step);
    UpAgrees(0, p, step, m);
    assert Down(p) == Progression(p, 0 - step, -step);
    DownAgrees(p, step, m);
  }

  /** When the step divides the power, the as-written ranges are the
      intended ones. */
  lemma LevelsAgree(p: int)
    requires p >= NumberOfSteps && p % StepOf(p) == 0
    ensures Up(p) == IntendedUp(0, p, StepOf(p))
    ensures Down(p) == IntendedDown(p, StepOf(p))
  {
    DivTimes(p, StepOf(p));
    LevelsAgreeTimes(p, StepOf(p), p / StepOf(p));
  }

  /** With a non-zero step the intended branch renders both intended ramps. */
  lemma IntendedRamps(rgb: Rgb, p: int, pause: real)
    requires p >= NumberOfSteps
    ensures var step := StepOf(p);
      IntendedPulseRgb(rgb, p, pause)
        == Returned(Found, Ramp(rgb, IntendedUp(0, p, step), pause) + Ramp(rgb, IntendedDown(p, step), pause))
  {
  }

  /** With a non-zero step the as-written branch renders both ramps. */
  lemma WrittenRamps(rgb: Rgb, p: int, pause: real)
    requires p >= NumberOfSteps
    ensures PulseRgb(rgb, p, pause) == Returned(Found, Ramp(rgb, Up(p), pause) + Ramp(rgb, Down(p), pause))
  {
  }

  /** When the step divides the power, the known-colour branch as written
      renders the intended ramps. */
  lemma PulseRgbAgrees(rgb: Rgb, p: int, pause: real)
    requires p >= NumberOfSteps && p % StepOf(p) == 0
    ensures PulseRgb(rgb, p, pause) == IntendedPulseRgb(rgb, p, pause)
  {
    LevelsAgree(p);
    WrittenRamps(rgb, p, pause);
    IntendedRamps(rgb, p, pause);
  }

  /** Whenever the step divides the power, in particular at the default power
      of 100, `pulse_color` as written renders the intended pulse. */
  lemma PulseAgreesWhenStepDivides(name: string, delay: Option<real>, power: Option<int>)
    requires power.ValueOr(DefaultPower) >= NumberOfSteps
    requires power.ValueOr(DefaultPower) % StepOf(power.ValueOr(DefaultPower)) == 0
    ensures PulseColor(name, delay, power) == PulseColorIntended(name, delay, power)
  {
    if name in Table {
      PulseRgbAgrees(Table[name], power.ValueOr(DefaultPower), PauseOf(delay.ValueOr(DefaultDelay)));
    }
  }

  /** The default power is one where the step divides the power. */
  lemma DefaultPulseIsIntended(name: string, delay: Option<real>)
    ensures PulseColor(name, delay, None) == PulseColorIntended(name, delay, None)
  {
    PulseAgreesWhenStepDivides(name, delay, None);
  }

  /** At power 25 the step is 2: `xrange(0, 27, 2)` climbs to 26 and
      `xrange(25, -2, -2)` ends at -1. */
  lemma Power25Levels()
    ensures StepOf(25) == 2
    ensures |Up(25)| == 14 && Up(25)[13] == 26
    ensures |Down(25)| == 14 && Down(25)[13] == -1
  {
    ProgressionIsXRange(0, 27, 2);
    ProgressionIsXRange(25, -2, -2);
    XRangeIndices(Up(25), 0, 27, 2);
    XRangeIndices(Down(25), 25, -2, -2);
  }

  /** The as-written ramps at power 25, for any colour: 28 levels, the 14th
      at 26 and the last at -1. */
  lemma Power25Ramps(rgb: Rgb, pause: real)
    ensures var t := Ramp(rgb, Up(25), pause) + Ramp(rgb, Down(25), pause);
      && |t| == 112
      && t[52 .. 56] == Shade(rgb, 26.0) + [Sleep(pause)]
      && t[108 .. 112] == Shade(rgb, -1.0) + [Sleep(pause)]
  {
    Power25Levels();
    var levels := Up(25) + Down(25);
    assert levels[13] == 26 && levels[27] == -1;
    RampPairBlock(rgb, Up(25), Down(25), pause, 13);
    RampPairBlock(rgb, Up(25), Down(25), pause, 27);
  }

  /** Counterexample: white at power 25 climbs to 26 and ends at -1, whose
      register value 1010000 is beyond the PWM period; the intended pulse
      stays within it. */
  lemma PulseOvershootsAtPower25()
    ensures var pause := PauseOf(DefaultDelay);
      var t := PulseColor("white", None, Some(25)).trace;
      && |t| == 112
      && t[52 .. 56] == Shade(Table["white"], 26.0) + [Sleep(pause)]
      && t[108 .. 112] == Shade(Table["white"], -1.0) + [Sleep(pause)]
      && t[108] == Write(0, 1010000)
      && !WithinPeriod(t)
      && WithinPeriod(PulseColorIntended("white", None, Some(25)).trace)
  {
    var pause := PauseOf(DefaultDelay);
    var rgb := Table["white"];
    assert rgb == Rgb(1.0, 1.0, 1.0);
    assert StepOf(25) == 2;
    PulseKnown("white", None, Some(25));
    Power25Ramps(rgb, pause);
    var t := PulseColor("white", None, Some(25)).trace;
    assert t[108] == (t[108 .. 112])[0] == Shade(rgb, -1.0)[0];
    assert Duty(-1.0) == 1010000;
  }
}
