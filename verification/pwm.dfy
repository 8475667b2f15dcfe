/** The PWM channel driver: the duty-cycle formula of `set_duty_cycle` and the
    event that stands for its sysfs write. */
module Pwm {

  /** The fixed PWM period written to every channel at start-up. */
  const Period: int := 1000000

  /** The three PWM channels: 0 = red, 1 = green, 2 = blue. */
  type Channel = c: int | 0 <= c < 3

  /** What the LED engine does to the outside world: a write of a duty value
      to one channel's `duty_cycle` file, or a `time.sleep`. */
  datatype Event = Write(channel: Channel, duty: int) | Sleep(seconds: real)

  /** Python's `int()` on a number: truncation toward zero. */
  function Trunc(x: real): (n: int)
    ensures 0.0 <= x ==> n as real <= x < n as real + 1.0
    ensures x < 0.0 ==> n as real - 1.0 < x <= n as real
  {
    if x >= 0.0 then x.Floor else -((-x).Floor)
  }

  /** The register value for a brightness percentage: 0% is the full period
      (LED off), 100% is 0 (LED fully on). No clamping is applied. */
  function Duty(percentage: real): (d: int)
    ensures percentage <= 100.0 ==> 0 <= d
    ensures 0.0 <= percentage ==> d <= Period
  {
    Trunc((100.0 - percentage) * 10000.0)
  }

  /** The brightness percentage a register value stands for (inverse of Duty). */
  function BrightnessOf(duty: int): real
  {
    100.0 - duty as real / 10000.0
  }

  /** `set_duty_cycle(channel, percentage)` as the write it performs. */
  function SetDutyCycle(channel: Channel, percentage: real): (e: Event)
    ensures e.Write? && e.channel == channel
  {
    Write(channel, Duty(percentage))
  }

  /** Number of sleeps in a trace. */
  function Sleeps(t: seq<Event>): nat
  {
    if t == [] then 0 else (if t[0].Sleep? then 1 else 0) + Sleeps(t[1..])
  }

  /** Number of duty-cycle writes in a trace. */
  function Writes(t: seq<Event>): nat
  {
    if t == [] then 0 else (if t[0].Write? then 1 else 0) + Writes(t[1..])
  }

  /** Counting distributes over concatenation of traces. */
  lemma {:induction false} CountsAppend(a: seq<Event>, b: seq<Event>)
    ensures Sleeps(a + b) == Sleeps(a) + Sleeps(b)
    ensures Writes(a + b) == Writes(a) + Writes(b)
  {
    if a == [] {
      assert a + b == b;
    } else {
      assert (a + b)[0] == a[0];
      assert (a + b)[1..] == a[1..] + b;
      CountsAppend(a[1..], b);
    }
  }

  /** Total nominal seconds slept over a trace. */
  function SleepTime(t: seq<Event>): real
  {
    if t == [] then 0.0 else (if t[0].Sleep? then t[0].seconds else 0.0) + SleepTime(t[1..])
  }

  /** The time slept over two traces run one after the other adds up. */
  lemma {:induction false} SleepTimeAppend(a: seq<Event>, b: seq<Event>)
    ensures SleepTime(a + b) == SleepTime(a) + SleepTime(b)
  {
    if a == [] {
      assert a + b == b;
    } else {
      assert (a + b)[0] == a[0];
      assert (a + b)[1..] == a[1..] + b;
      SleepTimeAppend(a[1..], b);
    }
  }

  /** Every sleep of `t` lasts `pause`. */
  ghost predicate SleepsLast(t: seq<Event>, pause: real)
  {
    forall i :: 0 <= i < |t| && t[i].Sleep? ==> t[i].seconds == pause
  }

  /** Two traces whose sleeps all last `pause` keep that together. */
  lemma SleepsLastAppend(a: seq<Event>, b: seq<Event>, pause: real)
    requires SleepsLast(a, pause) && SleepsLast(b, pause)
    ensures SleepsLast(a + b, pause)
  {
    forall i | 0 <= i < |a + b| && (a + b)[i].Sleep?
      ensures (a + b)[i].seconds == pause
    {
      if i >= |a| {
        assert (a + b)[i] == b[i - |a|];
      }
    }
  }

  /** `n * x` as repeated addition, which keeps inductions over `n` linear. */
  function Scale(n: nat, x: real): real
  {
    if n == 0 then 0.0 else Scale(n - 1, x) + x
  }

  lemma {:induction false} ScaleIsProduct(n: nat, x: real)
    ensures Scale(n, x) == n as real * x
  {
    if n > 0 {
      ScaleIsProduct(n - 1, x);
      assert (n - 1) as real * x + x == n as real * x;
    }
  }

  /** A trace whose every sleep lasts `pause` sleeps `pause` once per sleep. */
  lemma {:induction false} UniformSleepTime(t: seq<Event>, pause: real)
    requires SleepsLast(t, pause)
    ensures SleepTime(t) == Scale(Sleeps(t), pause)
  {
    if t != [] {
      assert forall i :: 0 <= i < |t[1..]| ==> t[1..][i] == t[i + 1];
      UniformSleepTime(t[1..], pause);
    }
  }

  /** A trace made only of writes has no sleeps. */
  lemma {:induction false} OnlyWrites(t: seq<Event>)
    requires forall i :: 0 <= i < |t| ==> t[i].Write?
    ensures Writes(t) == |t| && Sleeps(t) == 0
  {
    if t != [] {
      OnlyWrites(t[1..]);
    }
  }

  lemma TruncMonotone(x: real, y: real)
    requires x <= y
    ensures Trunc(x) <= Trunc(y)
  {
  }

  /** The two calibration points in the driver's comments. */
  lemma DutyEndpoints()
    ensures Duty(0.0) == Period
    ensures Duty(100.0) == 0
  {
  }

  /** Inside [0, 100] the register value stays within one period. */
  lemma DutyInRange(p: real)
    requires 0.0 <= p <= 100.0
    ensures 0 <= Duty(p) <= Period
  {
  }

  /** A brighter percentage never gives a larger register value. */
  lemma DutyAntitone(p: real, q: real)
    requires p <= q
    ensures Duty(q) <= Duty(p)
  {
    TruncMonotone((100.0 - q) * 10000.0, (100.0 - p) * 10000.0);
  }

  /** On whole percentages the map is exact and strictly decreasing. */
  lemma DutyOnWholePercent(k: int, m: int)
    requires k < m
    ensures Duty(k as real) == (100 - k) * 10000
    ensures Duty(m as real) < Duty(k as real)
  {
  }

  /** Duty loses less than one register unit (1/10000 of a percent) inside
      [0, 100]. */
  lemma DutyRoundTrip(p: real)
    requires 0.0 <= p <= 100.0
    ensures p <= BrightnessOf(Duty(p)) < p + 0.0001
  {
    var x := (100.0 - p) * 10000.0;
    var d := Trunc(x);
    assert p == 100.0 - x / 10000.0;
    assert d as real <= x < d as real + 1.0;
  }

  /** On whole percentages Duty loses nothing. */
  lemma DutyRoundTripWhole(k: int)
    ensures BrightnessOf(Duty(k as real)) == k as real
  {
    var n := (100 - k) * 10000;
    assert (100.0 - k as real) * 10000.0 == n as real;
    if n >= 0 {
      assert (n as real).Floor == n;
    } else {
      assert (-n as real).Floor == -n;
    }
    assert Duty(k as real) == n;
  }
}
