# StopWatch engine, modelled in Dafny

A model of the stopwatch component in
`ControlledANDUnControlledComp/src/components/StopWatch.jsx`. The component keeps an
elapsed-time record `{hr, min, sec, milisec}` and a `isRunning` flag. While running, a
repeating timer applies `updateTime`, which adds one hundredth and carries
hundredths → seconds → minutes → hours. The Start, Stop and Reset buttons overwrite the
state. The heading shows the record as `HH:MM:SS:CC`, with each field run through
`formatTime` (`String(value).padStart(2, "0")`).

The project has three modules:

- `ElapsedTime` (`time.dfy`): the `Time` record and the normalised-range predicate. It has
  the total in hundredths and its mixed-radix decomposition `FromTotal`, which is the
  reference the tick is checked against. It also has `UpdateTime`, written as the component
  writes it, and `Ticks`, which iterates it.
- `Display` (`display.dfy`): the decimal conversion, `padStart`, `FormatTime` and the
  rendered heading `Render`. Its partners are a decimal reader `ParseDecimal` and a display
  reader `ParseRender`, with round-trip lemmas for both.
- `Engine` (`engine.dfy`): the state machine as values (`State`, `Command`, `Step`, `Run`)
  and the class `StopWatch`. The class has fields `time` and `isRunning` and methods
  `Start`, `Stop`, `Reset` and `Tick`. The `ensures` of each method tie the new state to
  `Step` of the old state. The constructor and every method keep the invariant `Valid()`
  (a normalised time).

Notes on the modelling:

- The field name `milisec` is kept, but it counts hundredths (it carries at 100).
- `UpdateTime` tests each carry with equality (`=== 100`, `=== 60`), as the component
  does. It is total and has no precondition. On a record that is not normalised, a seconds
  or minutes field equal to 60 is still carried: `{0,0,60,0}` ticks to `{0,1,0,1}`. A field
  already past its modulus is never reduced: 150 hundredths become 151. In every case the
  total grows by exactly one hundredth. Normalisation is assumed only by the lemmas that
  need it, and every reachable state is normalised (`RunKeepsNormalised`,
  `StopWatch.Valid`). An overflow test (`>= 100`, `>= 60`) would agree with the equality
  test on every normalised record.
- In the component the interval timer exists only while `isRunning` holds, so a tick can
  only happen then. The model makes `Tick` a command that is always accepted and has no
  effect while stopped.
- In the JSX, the last `:` and `{formatTime(time.milisec)}` are on separate lines. JSX
  drops that line break, so the display has no space there.

## Model

| member | source | states |
|---|---|---|
| `ElapsedTime.UpdateTime` | ControlledANDUnControlledComp/src/components/StopWatch.jsx:13-31 | hours stay the same or go up by exactly one, never wrap; the total in hundredths is always one more; a normalised record stays normalised |
| `ElapsedTime.FromTotal` | ControlledANDUnControlledComp/src/components/StopWatch.jsx:13-31 | the reference decomposition of n hundredths is normalised and has total n |
| `ElapsedTime.FromTotalOfTotal` | ControlledANDUnControlledComp/src/components/StopWatch.jsx:4-9 | a normalised record is the decomposition of its own total |
| `ElapsedTime.NormalisedByTotal` | ControlledANDUnControlledComp/src/components/StopWatch.jsx:4-9 | two normalised records are equal exactly when their totals are equal |
| `ElapsedTime.UpdateTimeIsSuccessor` | ControlledANDUnControlledComp/src/components/StopWatch.jsx:13-31 | on a normalised record one tick gives the decomposition of the total plus one |
| `ElapsedTime.CarryCascade` | ControlledANDUnControlledComp/src/components/StopWatch.jsx:17-28 | the four cases of one tick: no carry, carry into seconds, cascade into minutes, cascade into hours with minutes, seconds and hundredths cleared |
| `ElapsedTime.UnnormalisedExamples` | ControlledANDUnControlledComp/src/components/StopWatch.jsx:17-28 | the equality tests on records that are not normalised: `{0,0,60,0}` ticks to `{0,1,0,1}`, `{0,60,0,5}` to `{1,0,0,6}`, and 150 hundredths only grow to 151 |
| `ElapsedTime.CarryExamples` | ControlledANDUnControlledComp/src/components/StopWatch.jsx:17-28 | `{0,0,59,99}` ticks to `{0,1,0,0}` and `{0,59,59,99}` to `{1,0,0,0}` |
| `ElapsedTime.TicksTotal` | ControlledANDUnControlledComp/src/components/StopWatch.jsx:13-31 | n ticks from a normalised record keep it normalised and add exactly n hundredths |
| `ElapsedTime.TicksIsDecomposition` | ControlledANDUnControlledComp/src/components/StopWatch.jsx:13-31 | n ticks from a normalised record give the decomposition of its total plus n |
| `ElapsedTime.TicksFromZero` | ControlledANDUnControlledComp/src/components/StopWatch.jsx:13-31 | n ticks from zero give the normalised decomposition of n hundredths |
| `ElapsedTime.OneSecond` | ControlledANDUnControlledComp/src/components/StopWatch.jsx:13-31 | 100 ticks from zero give `{0,0,1,0}` |
| `ElapsedTime.OneMinute` | ControlledANDUnControlledComp/src/components/StopWatch.jsx:13-31 | 6000 ticks from zero give `{0,1,0,0}` |
| `Display.NatToString` | ControlledANDUnControlledComp/src/components/StopWatch.jsx:58 | `String(value)`: a non-empty string of decimal digits; it starts with '0' only for zero and has one character exactly below ten |
| `Display.PadStart` | ControlledANDUnControlledComp/src/components/StopWatch.jsx:58 | `padStart`: the result is at least the target length; the input is its suffix; everything before it is the pad character |
| `Display.FormatTime` | ControlledANDUnControlledComp/src/components/StopWatch.jsx:58 | at least two digits; '0' then the digit below ten; the plain decimal from ten on; exactly two characters below 100 |
| `Display.ParseNatToString` | ControlledANDUnControlledComp/src/components/StopWatch.jsx:58 | reading back the decimal of n gives n |
| `Display.ParseLeadingZero` | ControlledANDUnControlledComp/src/components/StopWatch.jsx:58 | a leading '0' added by padding does not change the value of a digit string |
| `Display.FormatTimeRoundTrip` | ControlledANDUnControlledComp/src/components/StopWatch.jsx:58 | the padded field reads back as the field value |
| `Display.Render` | ControlledANDUnControlledComp/src/components/StopWatch.jsx:64-65 | the heading has at least 11 characters; for a normalised record its three ':' separators sit 3, 6 and 9 characters from the end |
| `Display.RenderExample` | ControlledANDUnControlledComp/src/components/StopWatch.jsx:64-65 | `{1,2,3,4}` is displayed as "01:02:03:04" |
| `Display.RenderLength` | ControlledANDUnControlledComp/src/components/StopWatch.jsx:64-65 | below 100 hours a normalised record is displayed in exactly 11 characters |
| `Display.ParseJoined` | ControlledANDUnControlledComp/src/components/StopWatch.jsx:64-65 | a heading joined from digit fields with ':' reads back field by field |
| `Display.RenderRoundTrip` | ControlledANDUnControlledComp/src/components/StopWatch.jsx:64-65 | the display of a normalised record reads back as that record |
| `Display.RenderInjective` | ControlledANDUnControlledComp/src/components/StopWatch.jsx:64-65 | two normalised records have the same display exactly when they are equal |
| `Engine.Step` | ControlledANDUnControlledComp/src/components/StopWatch.jsx:33-75 | Start and Stop set the flag and keep the time; Reset gives the initial state; a tick keeps the flag, changes nothing while stopped and adds one hundredth while running; every command keeps the time normalised |
| `Engine.RunKeepsNormalised` | ControlledANDUnControlledComp/src/components/StopWatch.jsx:4-56 | every state reachable from a normalised one has a normalised time |
| `Engine.ResetRestoresInitial` | ControlledANDUnControlledComp/src/components/StopWatch.jsx:53-56 | after any history, Reset gives zero time and not running |
| `Engine.StartStopIdempotent` | ControlledANDUnControlledComp/src/components/StopWatch.jsx:69-75 | Start twice is Start once, Stop twice is Stop once, and neither changes the time |
| `Engine.StoppedTicksInert` | ControlledANDUnControlledComp/src/components/StopWatch.jsx:44-48 | while stopped, any number of ticks leaves the state unchanged |
| `Engine.RunningTicks` | ControlledANDUnControlledComp/src/components/StopWatch.jsx:35-48 | while running, n ticks apply `updateTime` n times and keep the stopwatch running |
| `Engine.StopStartResumes` | ControlledANDUnControlledComp/src/components/StopWatch.jsx:69-75 | after Stop then Start, ticks continue from the preserved time, with no implicit reset |
| `Engine.ElapsedFromInitial` | ControlledANDUnControlledComp/src/components/StopWatch.jsx:4-48 | from the initial state, Start then n ticks shows the decomposition of n hundredths |
| `Engine.TotalMonotone` | ControlledANDUnControlledComp/src/components/StopWatch.jsx:13-75 | with no Reset, the elapsed total never decreases |
| `Engine.StopWatch.constructor` | ControlledANDUnControlledComp/src/components/StopWatch.jsx:4-10 | the component starts with zero time, not running, and valid |
| `Engine.StopWatch.Start` | ControlledANDUnControlledComp/src/components/StopWatch.jsx:69 | sets running and keeps the time |
| `Engine.StopWatch.Stop` | ControlledANDUnControlledComp/src/components/StopWatch.jsx:75 | clears running and keeps the time |
| `Engine.StopWatch.Reset` | ControlledANDUnControlledComp/src/components/StopWatch.jsx:53-56 | from any state, clears running and sets the time to zero |
| `Engine.StopWatch.Tick` | ControlledANDUnControlledComp/src/components/StopWatch.jsx:35-48 | while running, the time becomes `updateTime` of the old time, one hundredth more; while stopped, nothing changes; the invariant is kept |
| `Engine.StopStartTick` | ControlledANDUnControlledComp/src/components/StopWatch.jsx:69-75 | on the object, Stop, Start and a tick advance the preserved time by one hundredth |

## Left out

- The `setInterval` timer, its 10 ms period and real-time accuracy (lines 35-42) are host timer I/O. They appear only as the `Tick` command, which may happen at any time and has an effect only while running.
- The `useEffect` dependency and cleanup semantics are not modelled, and neither is `intervalRef` (lines 11, 33-51). This covers clearing the interval on unmount, and a callback that was already queued firing after Stop. These are React lifecycle and scheduling concerns.
- React batches the two `setState` calls in `handleReset`; the model applies them as one step, and does not model React's update queue itself.
- The JSX markup, the class names and the button wiring are not modelled beyond the state change each button makes (lines 61-88).
- `ControlledANDUnControlledComp/src/App.jsx` is page composition with no logic. `TimerPage` is not part of this model.
- JavaScript numbers are doubles, but the fields are modelled as unbounded `nat`. Only `hr` grows, and once it reaches 2^53, `hr += 1` leaves it unchanged: the source's hours stop advancing and the display repeats each hour. The model does not capture this, so `UpdateTime`'s hour increment and `TotalMonotone` describe the source only below that bound.
