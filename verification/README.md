# ReachLED pattern engine in Dafny

This project models the LED pattern engine of ReachView's `ReachLED` class. The engine drives the three-channel (red, green, blue) PWM status LED. The modelled parts are:

- **Duty cycle** (`pwm.dfy`, module `Pwm`). The inverted map from a brightness percentage to the PWM register value is `int((100 - p) * 10000)`. Python's `int()` truncation toward zero is written out (`Trunc`). A sysfs write becomes a `Write(channel, duty)` event, and `time.sleep` becomes a `Sleep(seconds)` event.
- **Colour table** (`colors.dfy`, module `Colors`). This is the fixed `colors_dict`, held as an immutable map from name to an exact-real intensity triple.
- **Python 2 `xrange`** (`pyrange.dfy`, module `PyRange`). A zero step is an error (`ValueError`). For a non-zero step the values are the arithmetic progression that stays strictly before `stop`.
- **Renderers** (`renderer.dfy`, module `Renderer`). `set_color` and `pulse_color` are pure functions. Each returns either `Returned(code, trace)` or `Raised(ValueError)`. The return code is 0 for a known colour and -1 for an unknown one. `pulse_color` uses the integer step `power / 10` (Python 2 floor division) and the two `xrange` loops exactly as written.
- **Blink pattern** (`pattern.dfy`, module `Pattern`). This covers `pattern.split(",")` and one pass of the blink loop in hold mode or pulse mode, plus the first `n` passes of the loop.
- **Blinker bookkeeping** (`blinker.dfy`, module `Blinker`). `start_blinker` and `stop_blinker` act on the three fields `blinker_thread`, `blinker_not_interrupted` and `current_blink_pattern`. Spawning and joining the background process are recorded as `Spawn` and `Join` control actions.

Behaviour of the code worth knowing:
- At power 100 a pulse has 11 levels up (0, 10, …, 100) and 11 levels down (100, …, 0). So it sleeps 22 times, each for a twentieth of the delay: 1.1 times the delay in all, not the delay itself.
- `set_color` does not sleep. The hold-mode sleep comes from the blink loop.
- Percentages are not clamped. A level below 0 gives a register value above the period.
- Empty pieces of a pattern are kept, not rejected. They are unknown colours, so they render only the sleep in hold mode and nothing in pulse mode.
- Unknown colours do not raise. They return -1 after doing nothing.

## Model

| member | source | states |
|---|---|---|
| Pwm.Trunc | ReachLED.py:93 | `int()` on the duty value truncates toward zero: the result is within one below a non-negative value and within one above a negative value |
| Pwm.Duty | ReachLED.py:92-93 | the register value `int((100 - p) * 10000)`, never negative up to 100% and never above the period from 0% up; `Pwm.DutyEndpoints`, `Pwm.DutyInRange`, `Pwm.DutyAntitone` and `Pwm.DutyRoundTrip` specify it |
| Pwm.SetDutyCycle | ReachLED.py:88-96 | `set_duty_cycle(channel, percentage)` is one write, to that channel; by definition it carries the register value `Pwm.Duty` gives |
| Pwm.DutyEndpoints | ReachLED.py:88-93 | 0% gives 1000000 and 100% gives 0, as the driver's comments say |
| Pwm.DutyInRange | ReachLED.py:92-93 | for a percentage in [0, 100] the register value lies in [0, 1000000] |
| Pwm.DutyAntitone | ReachLED.py:92-93 | a larger percentage never gives a larger register value |
| Pwm.DutyOnWholePercent | ReachLED.py:92-93 | on whole percentages the value is exactly `(100 - k) * 10000` and strictly decreasing |
| Pwm.DutyRoundTrip | ReachLED.py:92-93 | reading a register value back as a percentage loses less than 1/10000 of a percent in [0, 100] |
| Pwm.DutyRoundTripWhole | ReachLED.py:92-93 | reading the register value back gives exactly the whole percentage that was written |
| Pwm.CountsAppend | ReachLED.py:112-114 | the writes and sleeps of two traces run one after the other add up |
| Pwm.SleepTimeAppend | ReachLED.py:114-118 | the time slept over two traces run one after the other adds up |
| Pwm.UniformSleepTime | ReachLED.py:114-118 | a trace whose every sleep lasts the same pause sleeps that pause once per sleep in all |
| Colors.TableShape | ReachLED.py:48-59 | `color in colors_dict` holds exactly for the ten distinct listed names |
| Colors.TableInUnitCube | ReachLED.py:48-59 | every entry of the table is a triple in [0, 1] |
| Colors.TableExamples | ReachLED.py:49-58 | off is (0,0,0), orange is (1,0.4,0) and weakred is (0.1,0,0); the match is exact and case-sensitive, so "bogus" and "Red" are not in the table |
| PyRange.ProgressionIsXRange | ReachLED.py:111 | for a non-zero step the values are `start + k*step`, all strictly before `stop`, and the next one would not be |
| PyRange.XRange | ReachLED.py:111 | `xrange` fails exactly when the step is zero; otherwise it yields the progression |
| PyRange.XRangeUnique | ReachLED.py:111 | the range's meaning determines the sequence uniquely |
| PyRange.XRangeIndices | ReachLED.py:111-115 | index k is in range exactly when `start + k*step` is strictly before `stop`, for either sign of step |
| Renderer.Shade | ReachLED.py:112-113 | one brightness level writes channels 0, 1, 2 in that order, each at `duty(intensity[i] * level)` |
| Renderer.Ramp | ReachLED.py:111-118 | one `for brightness in …` loop: four events per level, the shade then one sleep; `Renderer.RampBlock`, `Renderer.RampAppend` and `Renderer.RampCounts` specify it |
| Renderer.RampBlock | ReachLED.py:111-118 | block k of four events is the writes for level k followed by one sleep |
| Renderer.RampAppend | ReachLED.py:111-118 | a ramp over two runs of levels is the two ramps one after the other |
| Renderer.RampCounts | ReachLED.py:111-118 | each level costs three writes and one sleep |
| Renderer.ShadeWithinPeriod | ReachLED.py:112-114 | one level in [0, 100] of a unit-cube colour writes only values within the period |
| Renderer.RampWithinPeriod | ReachLED.py:111-118 | a table colour at levels in [0, 100] writes only values within the period |
| Renderer.SetColor | ReachLED.py:123-136 | an unknown colour returns -1 with no events; a known colour returns 0 after exactly three writes, to channels 0, 1, 2 at `duty(intensity[i] * power)` with power defaulting to 100; it never raises |
| Renderer.StepOf | ReachLED.py:106-107 | the step is the floor of power over 10 |
| Renderer.PauseOf | ReachLED.py:108 | the nominal duration every pulse `time.sleep` carries, `delay * 0.5 / 10`; `Renderer.PulseSleeps` and `Renderer.PulseDuration` state its effect on the trace |
| Renderer.Up | ReachLED.py:111 | the levels `xrange(0, power + step, step)` for a non-zero step, starting at 0; `Renderer.RampLevels` and `Renderer.FullPowerLevels` specify them |
| Renderer.Down | ReachLED.py:115 | the levels `xrange(power, 0 - step, -step)` for a non-zero step, starting at the power; `Renderer.RampLevels` and `Renderer.FullPowerLevels` specify them |
| Renderer.PulseRgb | ReachLED.py:106-119 | for a known colour, ValueError exactly when `0 <= power < 10` (zero step); otherwise code 0, at least one sleep and three writes per sleep |
| Renderer.PulseColor | ReachLED.py:98-121 | an unknown colour returns -1 with no events, whatever the power; a known colour raises ValueError exactly when `0 <= power < 10` (zero step); otherwise it returns 0 and sleeps at least once |
| Renderer.PulseKnown | ReachLED.py:110-119 | a known colour with a non-zero step is the up ramp over `xrange(0, power+step, step)` followed by the down ramp over `xrange(power, -step, -step)` |
| Renderer.RampLevels | ReachLED.py:106-118 | for a power of at least 10: up level k is `k*step` for exactly the k with `k*step < power+step`; down level k is `power - k*step` for exactly the k with `power - k*step > -step` |
| Renderer.PulseCounts | ReachLED.py:111-118 | a pulse that does not raise makes three writes and one sleep per level of the two ranges |
| Renderer.RampPauses | ReachLED.py:111-118 | every sleep of a ramp lasts the one pause |
| Renderer.PulseSleeps | ReachLED.py:108-118 | every sleep of a pulse that does not raise lasts a twentieth of the delay passed in |
| Renderer.PulseDuration | ReachLED.py:106-118 | a pulse that does not raise sleeps a twentieth of the delay once per level of the two ranges |
| Renderer.FullPowerLevels | ReachLED.py:103-115 | at power 100 the ranges are 0, 10, …, 100 and 100, 90, …, 0 |
| Renderer.FullPowerRamp | ReachLED.py:111-118 | the full-power ramps have 22 sleeps and 66 writes, start and end dark, peak at 100% and stay within the period |
| Renderer.PulseAtFullPower | ReachLED.py:103-119 | at the default power a known colour pulses through those 22 levels: it starts and ends at brightness 0, peaks at 100 and every write is within the period |
| Renderer.FullPulseDuration | ReachLED.py:100-118 | at the default power a pulse sleeps 1.1 times the delay in all, and 0.55 seconds at the default delay |
| Renderer.IntendedUp | ReachLED.py:111 | the corrected way up starts at the given level, ends exactly at the power, rises strictly and stays in between |
| Renderer.IntendedDown | ReachLED.py:115 | the corrected way down starts at the given level, ends exactly at 0, falls strictly and stays in between |
| Renderer.IntendedPulseRgb | ReachLED.py:106-119 | the corrected known-colour branch raises exactly for a zero step, and otherwise starts and ends with a dark level and stays within the period for a unit-cube colour and a power up to 100 |
| Renderer.PulseColorIntended | ReachLED.py:98-121 | the corrected pulse starts and ends with a dark level, never leaves the period for a power up to 100, and keeps the source's behaviour for unknown colours and for a zero step |
| Renderer.UpAgrees | ReachLED.py:111 | when the step divides the distance to the power, the as-written way up is the corrected one |
| Renderer.DownAgrees | ReachLED.py:115 | when the step divides the power, the as-written way down is the corrected one |
| Renderer.LevelsAgree | ReachLED.py:106-115 | whenever the step divides the power, both as-written ranges are the corrected ones |
| Renderer.PulseRgbAgrees | ReachLED.py:106-119 | whenever the step divides the power, the as-written known-colour branch equals the corrected one |
| Renderer.PulseAgreesWhenStepDivides | ReachLED.py:106-119 | whenever the step divides the power, the as-written pulse equals the corrected pulse |
| Renderer.DefaultPulseIsIntended | ReachLED.py:103-104 | at the default power the as-written pulse equals the corrected pulse |
| Renderer.Power25Levels | ReachLED.py:107-115 | at power 25 the step is 2, the way up reaches 26 and the way down ends at -1 |
| Renderer.PulseOvershootsAtPower25 | ReachLED.py:111-118 | white at power 25 writes level 26 and ends at level -1, whose register value 1010000 exceeds the period; the corrected pulse does not |
| Pattern.Split | ReachLED.py:171 | `split(",")` yields one more piece than there are commas, and no piece contains a comma |
| Pattern.JoinSplit | ReachLED.py:171 | joining the pieces with commas gives back the pattern |
| Pattern.SplitJoin | ReachLED.py:171 | splitting a comma-join of at least one comma-free piece gives back the pieces, in order |
| Pattern.SplitExample | ReachLED.py:163-171 | "red,blue,off" splits into red, blue, off |
| Pattern.RenderOnce | ReachLED.py:177-182 | in hold mode an unknown colour yields only the sleep and a known one yields its full-power writes then the sleep; in pulse mode an unknown colour yields nothing |
| Pattern.BlinkPass | ReachLED.py:177-182 | one pass of the `for color in color_list` loop; in hold mode each colour makes one to four events; `Pattern.BlinkPassAppend`, `Pattern.HoldPassCounts` and `Pattern.PulsePassCounts` specify it |
| Pattern.BlinkPassAppend | ReachLED.py:177-182 | a pass renders the colours in order: a pass over two lists is the two passes one after the other |
| Pattern.HoldPassCounts | ReachLED.py:177-182 | in hold mode a pass sleeps once per colour and writes three times per known colour |
| Pattern.PulsePassCounts | ReachLED.py:177-179 | in pulse mode a pass makes 22 sleeps and 66 writes per known colour and nothing for an unknown one |
| Pattern.PulsePassIsIntended | ReachLED.py:178-179 | in pulse mode each colour is rendered with the corrected pulse |
| Pattern.BlinkPattern | ReachLED.py:161-182 | the first `passes` passes of the blink loop over the split pattern; fewer passes are a prefix of more; `Pattern.BlinkPatternSleeps` specifies it |
| Pattern.BlinkPatternSleeps | ReachLED.py:161-182 | in hold mode, n passes sleep n times per piece of the pattern |
| Pattern.HoldKnown | ReachLED.py:180-182 | a known colour in hold mode writes at full power and then sleeps once before the rest of the pass |
| Pattern.HoldExample | ReachLED.py:163-182 | one hold pass over red, blue, off writes each colour at full power, each followed by the delay |
| Blinker.Stop | ReachLED.py:152-159 | stop clears the flag and always ends with no handle; it joins the running process if there is one and does nothing to processes otherwise; the pattern is kept |
| Blinker.Start | ReachLED.py:138-150 | start always records the pattern and ends running with the flag set and one handle for the new arguments; from idle it spawns once, and from running it joins the old process before spawning the new one |
| Blinker.ReplayAppend | ReachLED.py:138-159 | replaying actions in two parts is the same as replaying them together |
| Blinker.StopStartReplay | ReachLED.py:138-159 | the actions of one start or stop never spawn over a live process or join the wrong one, and end with the handle the parent keeps |
| Blinker.RunReplay | ReachLED.py:138-159 | over any sequence of starts and stops, at most one process is alive and it is the parent's handle |
| Blinker.RunConsistent | ReachLED.py:40-46 | from any consistent state, a running blinker always runs the current pattern with the flag set |
| Blinker.RunFromInitial | ReachLED.py:40-46 | the state `__init__` leaves is idle and consistent; after any sequence of calls from it, a running blinker runs the current pattern with the flag set and at most the parent's one process is alive |
| Blinker.StopIdempotent | ReachLED.py:152-159 | stopping an idle blinker does nothing to processes, and a second stop changes nothing |
| Blinker.RestartIsStopThenStart | ReachLED.py:147-150 | starting while running is exactly a stop followed by a start |

## Findings

| source | as written | input that shows it | evidently intended | confidence | as-written member | corrected member |
|---|---|---|---|---|---|---|
| ReachLED.py:111-118 | the up range `xrange(0, power + step, step)` and down range `xrange(power, 0 - step, -step)` step past the power and past 0 when the step does not divide the power | `pulse_color("white", power_percentage = 25)` with the default delay: step 2, the ramp climbs to 26 and ends at -1, and -1 gives duty 1010000, beyond the 1000000 period | ramp from 0 up to exactly the power and back down to exactly 0 | medium, not executed | Renderer.PulseOvershootsAtPower25 | Renderer.PulseColorIntended |

The corrected pulse equals the as-written one whenever the step divides the power (`Renderer.PulseAgreesWhenStepDivides`). The blink loop only pulses at the default power of 100, so the pattern model renders the corrected pulse there (`Pattern.PulsePassIsIntended`).

## Left out

- Sysfs bootstrap in `__init__`: exporting, enabling and setting the period of each channel is device I/O. The period appears only as the constant `Pwm.Period`.
- `GPIO` pin-mux set-up: the module is foreign and is not part of this model.
- The file write of `set_duty_cycle`, and any I/O error it might raise: it is replaced by the `Write` event.
- `time.sleep`: a sleep is an event carrying its nominal duration as an exact real (`delay * 0.5 / 10` for a pulse step). No wall-clock behaviour is claimed.
- Renderer.PulseColor and Pattern.RenderOnce: negative delays are not modelled. `time.sleep` raises for a negative duration (IOError in Python 2 on Linux). So `pulse_color` with a negative delay raises after its first three writes (ReachLED.py:114), and the hold-mode blink loop raises at its first sleep (ReachLED.py:182). The model instead records a `Sleep` with negative seconds and returns normally. The model is faithful for non-negative delays: `Renderer.PulseSleeps` shows every pulse sleep is a twentieth of the delay, so it is non-negative exactly when the delay is.
- PyRange.XRange: Python 2's `xrange` takes C `long` arguments, so a power beyond `sys.maxint` raises OverflowError. Integers here are unbounded, and that error is not modelled.
- Float rounding: intensities 0.4 and 0.1 are exact reals, so Python float rounding before `int()` is not modelled.
- Float powers for `pulse_color`: power is an integer. In Python 2, `xrange` rejects a float.
- `multiprocessing.Process`: spawning and joining are recorded as `Spawn` and `Join` actions, not run. The flag written by `stop_blinker` lives in the parent. The forked child keeps its own copy, which stays true, so in the real program the join waits forever. The model assumes every join returns: `Replay` treats `Join` as the end of that process, and `Start` spawns the new process after the join. So from a running state, `Blinker.Stop`, `Blinker.Start` and `Blinker.RunReplay` describe states that the real parent never reaches, because its `join()` blocks.
- Pattern.BlinkPattern: only the first `n` passes of the blink loop are modelled. The loop itself never ends.
- `test()` and the `__main__` command line: these are hardware smoke tests and printing.
