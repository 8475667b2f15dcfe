/** `blink_pattern`: the pattern string is split on commas and every colour
    of it is rendered in order, once per pass of the blink loop. */
module Pattern {
  import opened Optional
  import opened Pwm
  import opened Colors
  import opened Renderer
  import opened PyRange

  /** The delimiter between colour names in a pattern. */
  const Separator: char := ','
  /** `delay` of `blink_pattern` when the caller passes None. */
  const DefaultBlinkDelay: real := 0.5

  /** Number of separators in `s`. */
  function Separators(s: string): nat
  {
    if s == [] then 0 else (if s[0] == Separator then 1 else 0) + Separators(s[1..])
  }

  /** `s.split(",")`: the pieces between separators, in order, empty pieces
      kept; there is always at least one piece. */
  function Split(s: string): (parts: seq<string>)
    ensures |parts| == Separators(s) + 1
    ensures forall i :: 0 <= i < |parts| ==> Separator !in parts[i]
  {
    if s == [] then [""]
    else if s[0] == Separator then [""] + Split(s[1..])
    else
      var rest := Split(s[1..]);
      [[s[0]] + rest[0]] + rest[1..]
  }

  /** `",".join(parts)`. */
  function Join(parts: seq<string>): string
  {
    if |parts| == 0 then ""
    else if |parts| == 1 then parts[0]
    else parts[0] + [Separator] + Join(parts[1..])
  }

  /** Joining the pieces of a split gives back the pattern. */
  lemma {:induction false} JoinSplit(s: string)
    ensures Join(Split(s)) == s
  {
    if s == [] {
    } else if s[0] == Separator {
      JoinSplit(s[1..]);
      var rest := Split(s[1..]);
      assert Split(s) == [""] + rest;
      assert ([""] + rest)[1..] == rest;
      assert s == [s[0]] + s[1..];
    } else {
      JoinSplit(s[1..]);
      var rest := Split(s[1..]);
      var parts := [[s[0]] + rest[0]] + rest[1..];
      assert parts[1..] == rest[1..];
      if |rest| == 1 {
        assert Join(rest) == rest[0];
      } else {
        assert Join(rest) == rest[0] + [Separator] + Join(rest[1..]);
      }
      assert s == [s[0]] + s[1..];
    }
  }

  /** A piece without separators, followed by a separator, splits off as one
      part. */
  lemma {:induction false} SplitWord(w: string, s: string)
    requires Separator !in w
    ensures Split(w + [Separator] + s) == [w] + Split(s)
    ensures Split(w) == [w]
  {
    if w == [] {
      assert w + [Separator] + s == [Separator] + s;
      assert ([Separator] + s)[1..] == s;
    } else {
      SplitWord(w[1..], s);
      assert (w + [Separator] + s)[1..] == w[1..] + [Separator] + s;
      assert [w[0]] + w[1..] == w;
    }
  }

  /** Splitting a join gives back the parts, provided there is at least one
      part and none contains the separator. */
  lemma {:induction false} SplitJoin(parts: seq<string>)
    requires |parts| >= 1
    requires forall i :: 0 <= i < |parts| ==> Separator !in parts[i]
    ensures Split(Join(parts)) == parts
  {
    if |parts| == 1 {
      SplitWord(parts[0], "");
    } else {
      SplitJoin(parts[1..]);
      SplitWord(parts[0], Join(parts[1..]));
    }
  }

  /** The example from the source's comment. */
  lemma SplitExample()
    ensures Split("red,blue,off") == ["red", "blue", "off"]
  {
    SplitJoin(["red", "blue", "off"]);
    assert Join(["red", "blue", "off"]) == "red,blue,off";
  }

  /** One colour of one pass: a pulse at the default power, or `set_color`
      at the default power followed by a sleep of `delay`. */
  function RenderOnce(color: string, delay: real, pulse: bool): (t: seq<Event>)
    ensures !pulse && color !in Table ==> t == [Sleep(delay)]
    ensures pulse && color !in Table ==> t == []
    ensures !pulse && color in Table ==> t == Shade(Table[color], DefaultPower as real) + [Sleep(delay)]
  {
    if pulse then PulseColor(color, Some(delay), None).trace
    else SetColor(color, None).trace + [Sleep(delay)]
  }

  /** One pass of the `for color in color_list` loop. */
  function BlinkPass(colors: seq<string>, delay: real, pulse: bool): (t: seq<Event>)
    ensures !pulse ==> |colors| <= |t| <= 4 * |colors|
  {
    if colors == [] then [] else RenderOnce(colors[0], delay, pulse) + BlinkPass(colors[1..], delay, pulse)
  }

  /** Number of colours of the list that the table knows. */
  function Known(colors: seq<string>): nat
  {
    if colors == [] then 0 else (if colors[0] in Table then 1 else 0) + Known(colors[1..])
  }

  /** A pass over two lists is the two passes one after the other. */
  lemma {:induction false} BlinkPassAppend(a: seq<string>, b: seq<string>, delay: real, pulse: bool)
    ensures BlinkPass(a + b, delay, pulse) == BlinkPass(a, delay, pulse) + BlinkPass(b, delay, pulse)
  {
    if a == [] {
      assert a + b == b;
    } else {
      assert (a + b)[0] == a[0];
      assert (a + b)[1..] == a[1..] + b;
      BlinkPassAppend(a[1..], b, delay, pulse);
    }
  }

  /** In hold mode every colour costs one sleep, and only a known colour
      writes: three writes each. */
  lemma {:induction false} HoldPassCounts(colors: seq<string>, delay: real)
    ensures Sleeps(BlinkPass(colors, delay, false)) == |colors|
    ensures Writes(BlinkPass(colors, delay, false)) == 3 * Known(colors)
  {
    if colors != [] {
      var c := colors[0];
      HoldPassCounts(colors[1..], delay);
      if c in Table {
        ShadeCounts(Table[c], DefaultPower as real);
        CountsAppend(Shade(Table[c], DefaultPower as real), [Sleep(delay)]);
      }
      CountsAppend(RenderOnce(c, delay, false), BlinkPass(colors[1..], delay, false));
    }
  }

  /** In pulse mode every known colour is a full-power pulse of 22 sleeps and
      66 writes; an unknown colour renders nothing. */
  lemma {:induction false} PulsePassCounts(colors: seq<string>, delay: real)
    ensures Sleeps(BlinkPass(colors, delay, true)) == 22 * Known(colors)
    ensures Writes(BlinkPass(colors, delay, true)) == 66 * Known(colors)
  {
    if colors != [] {
      var c := colors[0];
      PulsePassCounts(colors[1..], delay);
      if c in Table {
        PulseAtFullPower(c, Some(delay), None);
      }
      CountsAppend(RenderOnce(c, delay, true), BlinkPass(colors[1..], delay, true));
    }
  }

  /** In pulse mode each colour is rendered with the intended ramp. */
  lemma PulsePassIsIntended(color: string, delay: real)
    ensures RenderOnce(color, delay, true) == PulseColorIntended(color, Some(delay), None).trace
  {
    PulseAgreesWhenStepDivides(color, Some(delay), None);
  }

  /** The first `passes` passes of `blink_pattern(pattern, delay, pulse)`
      while the loop's flag stays set. */
  function BlinkPattern(pattern: string, delay: Option<real>, pulse: Option<bool>, passes: nat): (t: seq<Event>)
    ensures forall m :: 0 <= m < passes ==> BlinkPattern(pattern, delay, pulse, m) <= t
  {
    if passes == 0 then []
    else
      BlinkPattern(pattern, delay, pulse, passes - 1)
        + BlinkPass(Split(pattern), delay.ValueOr(DefaultBlinkDelay), pulse.ValueOr(false))
  }

  /** `n` hold-mode passes, counted by repeated addition. */
  lemma {:induction false} BlinkPatternSleepsTimes(pattern: string, delay: Option<real>, pulse: Option<bool>, n: nat)
    requires !pulse.ValueOr(false)
    ensures Sleeps(BlinkPattern(pattern, delay, pulse, n)) == Times(n, Separators(pattern) + 1)
  {
    if n > 0 {
      var before := BlinkPattern(pattern, delay, pulse, n - 1);
      var pass := BlinkPass(Split(pattern), delay.ValueOr(DefaultBlinkDelay), false);
      assert BlinkPattern(pattern, delay, pulse, n) == before + pass;
      BlinkPatternSleepsTimes(pattern, delay, pulse, n - 1);
      HoldPassCounts(Split(pattern), delay.ValueOr(DefaultBlinkDelay));
      CountsAppend(before, pass);
    }
  }

  /** In hold mode, `n` passes sleep once per listed colour per pass, pieces
      with unknown names included. */
  lemma BlinkPatternSleeps(pattern: string, delay: Option<real>, pulse: Option<bool>, n: nat)
    requires !pulse.ValueOr(false)
    ensures Sleeps(BlinkPattern(pattern, delay, pulse, n)) == n * (Separators(pattern) + 1)
  {
    BlinkPatternSleepsTimes(pattern, delay, pulse, n);
    TimesIsProduct(n, Separators(pattern) + 1);
  }

  /** One pass over a known colour in hold mode. */
  lemma HoldKnown(color: string, rgb: Rgb, rest: seq<string>, delay: real)
    requires color in Table && Table[color] == rgb
    ensures BlinkPass([color] + rest, delay, false) == Shade(rgb, 100.0) + [Sleep(delay)] + BlinkPass(rest, delay, false)
  {
    assert ([color] + rest)[1..] == rest;
  }

  /** The pieces of the example pattern in hold mode: red, blue and off at
      full power, each followed by the delay. */
  lemma HoldExample(delay: real)
    ensures BlinkPass(["red", "blue", "off"], delay, false)
      == Shade(Rgb(1.0, 0.0, 0.0), 100.0) + [Sleep(delay)]
       + Shade(Rgb(0.0, 0.0, 1.0), 100.0) + [Sleep(delay)]
       + Shade(Rgb(0.0, 0.0, 0.0), 100.0) + [Sleep(delay)]
  {
    HoldKnown("off", Rgb(0.0, 0.0, 0.0), [], delay);
    HoldKnown("blue", Rgb(0.0, 0.0, 1.0), ["off"], delay);
    HoldKnown("red", Rgb(1.0, 0.0, 0.0), ["blue", "off"], delay);
    assert ["red"] + ["blue", "off"] == ["red", "blue", "off"];
    assert ["blue"] + ["off"] == ["blue", "off"];
    assert ["off"] + [] == ["off"];
  }
}
