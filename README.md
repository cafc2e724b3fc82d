# Minecraft animation controller: timeline and transport

A Dafny model of `video1/script.js`, the controller behind a fixed
ten-second animation: Good Steve enters, Evil Steve enters, his eyes turn,
a laser fires and Good Steve dies, with five captions along the way.

- `timeline.dfy` (module `Timeline`): what `updateAnimation` puts on the
  page at elapsed time `t`. The page is abstracted as one record, `Scene`.
  It holds the entrance flags, the four classes (`look-around`, `evil-eye`,
  `laser-fire`, `death-show`), the `style.opacity` values written (Good
  Steve, laser, five captions), the laser width, and the death particles'
  trajectories. `ResetAll` is `resetAllAnimations` and `ApplyRules` holds the
  rules that follow it. `Update` is the two together. `Shows` is the interval
  table the rules realise, and the lemmas relate updates to it. Scene dots are
  a `bool` array updated in place by `UpdateSceneDots`.
- `transport.dfy` (module `Transport`): the transport state machine as a
  class `Player` with `isPlaying`, `time` (`animationTime`), the frame loop's
  `startTime`, the progress percentage, the scene and the dots. A display
  frame is `Frame(now, draws)`, where `now` is the clock reading in
  milliseconds. Replay is `Reset` followed by `Play`.

Time is an exact `real` in seconds; clock readings are `real` milliseconds.
The two `Math.random()` readings per death particle are passed in as
`draws`, so every update is a function of its inputs.

The code re-rolls the particle trajectories on every update at or after
8 s, not only when 8 s is first crossed. The model follows the code, as
`Update`'s contract states. The code also never clamps the time from below,
and never checks that a slider value lies in [0, 100]. The range invariant
`InRange` is therefore stated conditionally: it holds under slider values in
[0, 100], dot times of at least 0 and a clock that does not run backwards.

## Model

| member | source | states |
|---|---|---|
| Timeline.ResetAll | video1/script.js:238-261 | the result is the baseline of the table at time 0 (no class, captions at opacity 0, Good Steve at opacity 1, laser zeroed); entrances and particles are untouched |
| Timeline.Scatter | video1/script.js:224-230 | one trajectory per particle; for readings in [0, 1), `--tx` lies in [-50, 50) and `--ty` in (-150, -50] |
| Timeline.Update | video1/script.js:140-235 | after an update the scene follows the interval table at `t` from any starting scene; Good Steve (Evil Steve) has entered iff he had or `t` ≥ 0.5 (3.5); particles are re-rolled iff `t` ≥ 8 |
| Timeline.UpdateIdempotent | video1/script.js:140-142 | a second update at the same time gives the same scene as one update with the second update's random readings |
| Timeline.UpdateDependsOnTimeAndEntrances | video1/script.js:238-261 | apart from particles, the scene after an update depends only on `t` and the two entrance fields |
| Timeline.SeekToStartIsReset | video1/script.js:140-261 | an update at time 0 is exactly the reset |
| Timeline.FlagsMonotone | video1/script.js:152-221 | the four class flags only switch on as time grows, and Good Steve's opacity only drops; between a time below a flag's threshold (2, 6.5, 7.5, 8) and one at or above it, the flag is off at the earlier and on at the later, so seeking back below a threshold clears it |
| Timeline.AtMostOneCaption | video1/script.js:157-213 | the caption intervals are disjoint: the caption opacities sum to at most 1 |
| Timeline.EntrancesSticky | video1/script.js:147-167 | after any run of updates Good Steve (Evil Steve) has entered iff he had before or some update ran at `t` ≥ 0.5 (3.5), even if later updates seek back to 0 |
| Timeline.UpdateAllShowsLast | video1/script.js:140-261 | after any run of updates, forward or backward, the scene follows the table at the last update's time |
| Timeline.DotsActive | video1/script.js:273-283 | one flag per dot; a dot is active iff `t` has reached its time |
| Timeline.UpdateSceneDots | video1/script.js:273-283 | the dot array afterwards holds exactly the active flags for `t` |
| Transport.SliderTime | video1/script.js:51-57 | a slider value in [0, 100] selects a time in [0, 10]; 0 and 100 select the start and the end |
| Transport.ProgressPercent | video1/script.js:264-267 | a time in [0, 10] shows a progress in [0, 100]; the end shows 100% |
| Transport.SliderProgressInverse | video1/script.js:264-267 | the progress display and the slider's time mapping are inverses |
| Transport.Elapsed | video1/script.js:93 | the elapsed time is non-negative iff the clock has not gone back before the start reference |
| Transport.StartReference | video1/script.js:87 | the recorded start reference makes the elapsed time at the play instant equal the current time, and no smaller later |
| Transport.FrameTime | video1/script.js:93-98 | the frame time is the elapsed time, clamped to exactly 10 once it reaches 10 |
| Transport.FrameAtPlayInstant | video1/script.js:87-98 | for any time up to 10 (including playing again after the stop at 10), a frame at the play instant leaves the time unchanged; later frames stay between it and 10 |
| Transport.Player.constructor | video1/script.js:32-41 | the page starts paused at time 0 with the reset scene, progress 0 and all state consistent |
| Transport.Player.Render | video1/script.js:100-101 | an update plus a progress refresh makes the scene, the dots and the progress agree with the time |
| Transport.Player.Play | video1/script.js:80-109 | a no-op while playing; otherwise playing starts with start reference `now - t·1000`, the time unchanged |
| Transport.Player.Frame | video1/script.js:89-106 | a no-op once paused; otherwise the time is the clamped elapsed time, playing continues iff it is below 10, and the scene is updated; with a clock that does not run backwards the time stays in [0, 10] |
| Transport.Player.Pause | video1/script.js:112-119 | playing stops; a no-op when not playing; the displayed state stays consistent |
| Transport.Player.Reset | video1/script.js:122-129 | always ends paused at time 0 with progress 0 and the reset scene |
| Transport.Player.Replay | video1/script.js:132-137 | ends playing from time 0 with start reference `now` |
| Transport.Player.Slide | video1/script.js:51-58 | ignored while playing; otherwise seeks to `v/100·10`, and a value in [0, 100] keeps the time in [0, 10] |
| Transport.Player.ClickDot | video1/script.js:61-76 | a dot past 10 s changes nothing; otherwise pauses, seeks to the dot's time and that dot becomes active |
| Transport.SeekHalfway | video1/script.js:51-57 | slider 50 gives time 5.0: both Steves entered, caption 3 not yet on, progress 50% |

## Left out

- Page access and wiring: element lookups, event-listener registration and
  the play/pause buttons' `disabled` toggles. The scene record stands for the
  page.
- Scheduling: `requestAnimationFrame`/`cancelAnimationFrame` and the real
  clock. A frame is a call of `Frame` with the clock reading as a parameter.
  A cancelled frame never runs, so `Frame` is only a guarded no-op after a
  pause.
- The delays: `init`'s one-second auto-play is left to the caller's `Play`,
  and `Replay` plays at once. Events arriving inside `replayAnimation`'s
  300 ms window are not modelled.
- Text formatting: the total and current time labels (`toFixed(1)`), the
  progress bar's `%` width string and the CSS animation strings. The model
  keeps the numeric percentage and the entrance flags.
- Parsing: `parseInt` of the slider value and `parseFloat` of a dot's
  `data-time` are taken as already-parsed numbers.
- Floating point: times and percentages are exact reals, so no JavaScript
  double rounding near a threshold.
- The empty rule for 5 s (lines 177-179) has no effect and is not modelled.
- The markup's state before the first update: `Initial` assumes both Steves
  start off stage and no particle trajectory is set.
- Evil Steve's eyes: every eye gets the same class, so one flag stands for all.
- The number of death-particle elements: the model does not fix it; the caller passes one random pair per particle, and the re-rolled list has that length.
