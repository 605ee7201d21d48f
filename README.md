# Pomodoro timer state machine in Dafny

This project models the core of a single-page Pomodoro timer. The timer counts down through
work, short-break and long-break phases. It counts completed work sessions ("pomodoros"). After
every `longBreakInterval` work sessions it takes a long break instead of a short one.

- `wrappers.dfy` (module `Wrappers`): an `Option` type. It models the fields of a
  `Partial<PomodoroSettings>` update, where a field may be absent.
- `pomodoro_context.dfy` (module `PomodoroContext`): the enums `TimerMode` and `TimerStatus`,
  the settings and state records, the defaults, and `pomodoroReducer` as the pure function
  `Reduce`. Lemmas state what each of the six actions does and what holds across all of them.
- `pomodoro_provider.dfy` (module `PomodoroProvider`): the provider that holds the state.
  - The class `Provider` has a state field, `Dispatch`, the auto-complete effect (`AutoComplete`),
    `Command` for the provider's command functions, and `Step`/`RunFor` for the once-a-second
    interval.
  - The pure functions `Settle`, `Perform`, `Second` and `Elapse` specify those methods.
  - Lemmas prove that a running countdown completes its session exactly once. They also prove the
    long-break cadence over whole work/break cycles.
- `timer.dfy` (module `Timer`): the pure helpers of the timer view.
  - `formatTime`, with a parser that reads the rendering back.
  - `getTotalDuration`, `getModeTitle` and the points formula.
  - The play/pause decision and the button label.

Modelling choices:

- Durations, `timeRemaining` and the session count are `nat`.
- The notification sound is modelled by the counter `notifications`, which goes up each time the
  sound would be played.
- The interval timer becomes "one `Step` per elapsed second". A step while the timer is not running
  changes nothing (`StoppedTimerStaysPut`), which is the effect of clearing the interval.
- The auto-complete effect runs after every dispatch. The source runs it only when `timeRemaining`
  or `status` changed. Both give the same result, because between dispatches the effect's
  condition is false (`Provider.Valid`, `PerformSettles`).

Two properties one might expect of the timer do not hold of the code, and the model follows the code:

- A `longBreakInterval` of 0 is not undefined behaviour. In JavaScript `n % 0` is `NaN`, and
  `NaN === 0` is false, so the timer always takes the short break (`CompleteSessionZeroInterval`).
  The reducer therefore has no precondition. The cadence lemmas assume an interval above 0.
- `timeRemaining` is not always bounded by the current phase's duration. A settings update while
  running or paused can lower the duration below the countdown (`UpdateWhileRunningBreaksBound`).
  Every other action keeps the bound (`WithinDurationPreserved`).

## Model

| member | source | states |
|---|---|---|
| `PomodoroContext.Reduce` | src/context/PomodoroContext.tsx:53-134 | The completed count never decreases, and it changes exactly on COMPLETE_SESSION from WORK; the mode changes only on COMPLETE_SESSION; the settings change only on UPDATE_SETTINGS |
| `PomodoroContext.DurationOf` | src/context/PomodoroContext.tsx:62-66 | The duration selected for WORK, SHORT_BREAK and LONG_BREAK is the matching configured field; the same choice is written out again at lines 98-102 and 118-122, and `Timer.GetTotalDuration` is proved to agree with it |
| `PomodoroContext.ShouldTakeLongBreak` | src/context/PomodoroContext.tsx:92 | The remainder test is never true with an interval of 0 (JavaScript's NaN), always true with an interval of 1, and false for counts strictly between 0 and the interval; `PomodoroProvider.LongBreakCadence` states the whole cadence |
| `PomodoroContext.MergeSettings` | src/context/PomodoroContext.tsx:113 | Each field present in the patch overwrites and each absent field keeps its old value; `PomodoroContext.MergeSettingsLaws` states its algebra |
| `PomodoroContext.NextMode` | src/context/PomodoroContext.tsx:89-95 | After WORK the next mode is a break, after either break it is WORK; the break is LONG_BREAK exactly when the interval is positive and divides the new count; `PomodoroContext.CompleteSessionAfterWork` and `PomodoroContext.CompleteSessionAfterBreak` give the whole resulting state |
| `PomodoroContext.StartTimerRuns` | src/context/PomodoroContext.tsx:55-56 | START_TIMER sets RUNNING and keeps mode, countdown, count and settings; applying it twice equals applying it once |
| `PomodoroContext.PauseTimerPauses` | src/context/PomodoroContext.tsx:58-59 | PAUSE_TIMER sets PAUSED and changes nothing else; it is a no-op on a paused timer and idempotent |
| `PomodoroContext.ResetTimerRestoresDuration` | src/context/PomodoroContext.tsx:61-72 | RESET_TIMER from any status gives IDLE with the current mode's configured duration; mode, count and settings are kept; reset is idempotent |
| `PomodoroContext.TickIsIdentityUnlessRunning` | src/context/PomodoroContext.tsx:74-75 | TICK returns the state unchanged when the timer is not running |
| `PomodoroContext.TickCountsDown` | src/context/PomodoroContext.tsx:77-83 | While running, TICK sets the countdown to max(0, t-1): down by exactly one from t > 0, stays at 0 from 0, and nothing else changes |
| `PomodoroContext.TickZeroBranchIsRedundant` | src/context/PomodoroContext.tsx:79-83 | The special return for reaching zero gives the same state as the general return |
| `PomodoroContext.CompleteSessionAfterWork` | src/context/PomodoroContext.tsx:85-110 | From WORK with a positive interval: the count goes up by exactly one, the next mode is LONG_BREAK iff the new count is a multiple of the interval and SHORT_BREAK otherwise, the status is IDLE and the countdown is the next mode's duration |
| `PomodoroContext.CompleteSessionZeroInterval` | src/context/PomodoroContext.tsx:92-93 | With an interval of 0 the remainder test is false, so a work session is always followed by the short break |
| `PomodoroContext.CompleteSessionAfterBreak` | src/context/PomodoroContext.tsx:85-110 | From either break: the next mode is WORK, the count is unchanged, the status is IDLE and the countdown is the work duration |
| `PomodoroContext.UpdateSettingsMerges` | src/context/PomodoroContext.tsx:112-129 | Present patch fields overwrite and absent ones keep their value; an idle timer's countdown becomes the current mode's new duration, a running or paused one is untouched; mode, status and count never change |
| `PomodoroContext.MergeSettingsLaws` | src/context/PomodoroContext.tsx:113 | The spread merge has the empty patch as unit, a full patch overwrites everything, merging the same patch twice equals once, and two merges equal one merge of the combined patch |
| `PomodoroContext.EmptyUpdateWhileIdleIsReset` | src/context/PomodoroContext.tsx:112-129 | An update with no fields on an idle timer has the same effect as RESET_TIMER |
| `PomodoroContext.PhaseChangeRestartsCountdown` | src/context/PomodoroContext.tsx:104-110 | Whenever an action changes the mode, the timer is IDLE with the new mode's full duration |
| `PomodoroContext.TimeDecreasesOnlyOn` | src/context/PomodoroContext.tsx:53-134 | The countdown goes down in four ways only: a TICK while running, RESET_TIMER, COMPLETE_SESSION, or UPDATE_SETTINGS while idle |
| `PomodoroContext.WithinDurationPreserved` | src/context/PomodoroContext.tsx:53-134 | Every action except a settings update while running or paused keeps the countdown at or below the current phase's duration |
| `PomodoroContext.UpdateWhileRunningBreaksBound` | src/context/PomodoroContext.tsx:114-123 | Lowering the work duration to 60 while the default timer runs leaves the countdown at 1500, above the new duration |
| `PomodoroContext.CompletedNeverDecreases` | src/context/PomodoroContext.tsx:86-88 | Over any history of actions the count never decreases, and a history without COMPLETE_SESSION leaves it unchanged |
| `PomodoroContext.ReduceAllAppend` | src/context/PomodoroContext.tsx:148 | Replaying a history of dispatches in two parts gives the same state as replaying it whole |
| `PomodoroContext.CompletedMonotoneAlongHistory` | src/context/PomodoroContext.tsx:86-88 | Along any history of dispatches, the count after a shorter prefix is at most the count after a longer one |
| `PomodoroProvider.Settle` | src/context/PomodoroContext.tsx:166-172 | After the effect it is never again due; when due it plays exactly one notification, otherwise it changes nothing |
| `PomodoroProvider.CompletionDue` | src/context/PomodoroContext.tsx:167 | The effect is due exactly when the timer is running and a further TICK would leave the state unchanged, that is when the countdown is at 0 |
| `PomodoroProvider.PerformSettles` | src/context/PomodoroContext.tsx:166-172 | After any dispatch and its effect, the zero check is not due, and at most one notification was played |
| `PomodoroProvider.Provider.constructor` | src/context/PomodoroContext.tsx:45-51 | The provider starts in WORK, IDLE, 1500 seconds, no sessions, default settings, with no notification played |
| `PomodoroProvider.Provider.Dispatch` | src/context/PomodoroContext.tsx:148 | The held state is replaced by the reducer's result; nothing else changes |
| `PomodoroProvider.Provider.AutoComplete` | src/context/PomodoroContext.tsx:166-172 | When the countdown is 0 while running, one notification is played and COMPLETE_SESSION dispatched; afterwards the check is not due |
| `PomodoroProvider.Provider.Command` | src/context/PomodoroContext.tsx:174-179 | A provider command dispatches its action and then runs the auto-complete effect |
| `PomodoroProvider.Provider.Step` | src/context/PomodoroContext.tsx:155-157 | One interval firing dispatches TICK and then runs the auto-complete effect |
| `PomodoroProvider.Provider.RunFor` | src/context/PomodoroContext.tsx:151-172 | n firings of the interval leave the provider in the state the elapse function gives for n seconds |
| `PomodoroProvider.StoppedTimerStaysPut` | src/context/PomodoroContext.tsx:151-163 | While the timer is not running, any number of seconds changes nothing |
| `PomodoroProvider.CountdownBeforeZero` | src/context/PomodoroContext.tsx:151-172 | For k seconds less than a running countdown t, the countdown is t-k and no notification has played |
| `PomodoroProvider.CountdownCompletesOnce` | src/context/PomodoroContext.tsx:151-172 | A running countdown of t > 0 seconds, after t or more seconds, has completed its session exactly once and played exactly one notification |
| `PomodoroProvider.WorkSessionOutcome` | src/context/PomodoroContext.tsx:85-110 | For any durations, 0 included, and a positive interval: starting a work phase and letting it run out yields the break the cadence selects, IDLE with its full duration, the count plus one, and one notification |
| `PomodoroProvider.CycleOutcome` | src/context/PomodoroContext.tsx:85-110 | A work session and the following break return the timer to an idle, full work phase with the count plus one and two notifications |
| `PomodoroProvider.CyclesOutcome` | src/context/PomodoroContext.tsx:85-110 | After k work/break cycles the timer is at an idle, full work phase with k more sessions and 2k more notifications |
| `PomodoroProvider.ConfiguredStart` | src/context/PomodoroContext.tsx:112-129 | Saving a full set of settings on the freshly started, idle provider gives an idle work phase at the configured work duration, with no notification |
| `PomodoroProvider.LongBreakCadence` | src/context/PomodoroContext.tsx:92-93 | For any durations, 0 included, and a positive interval: from the program's start with the settings saved, the k-th work session is followed by a long break iff k is a multiple of the interval and by a short break otherwise, IDLE at that break's full duration, with k sessions and 2k-1 notifications |
| `PomodoroProvider.FirstPomodoro` | src/context/PomodoroContext.tsx:38-51 | With default settings, START then 1500 or more seconds gives SHORT_BREAK, IDLE, 300 seconds, one session and exactly one notification; none plays before second 1500 |
| `PomodoroProvider.FourthPomodoroTakesLongBreak` | src/context/PomodoroContext.tsx:42 | With default settings the fourth work session is followed by the 900-second long break |
| `PomodoroProvider.FirstPomodoroOnProvider` | src/context/PomodoroContext.tsx:147-172 | Driving the provider object itself through the first pomodoro ends in SHORT_BREAK, IDLE, 300 seconds, one session and one notification |
| `Timer.FormatTime` | src/components/Timer.tsx:10-14 | The rendering ends in a colon and two digits and is exactly five characters long iff the input is below 6000 seconds; `Timer.FormatTimeRoundTrip` proves it reads back to the input |
| `Timer.NatToString` | src/components/Timer.tsx:13 | A number's decimal rendering is non-empty digits, a single digit exactly below 10, and no leading zero from 10 on |
| `Timer.PadStart` | src/components/Timer.tsx:13 | Padding never truncates: the result has the width or the original length, whichever is larger, ends with the original string, and is filled in front with the fill character |
| `Timer.PaddedValue` | src/components/Timer.tsx:13 | Zero-padding keeps the value read back and gives max(width, digits) characters |
| `Timer.FormatTimeFields` | src/components/Timer.tsx:10-13 | The rendering is minutes, a colon and seconds; the minutes field reads back as s / 60 with at least two digits, the seconds field as s % 60 with exactly two digits, from 00 to 59 |
| `Timer.FormatTimeShape` | src/components/Timer.tsx:10-14 | Below 6000 seconds the rendering has five characters, a colon at index 2 and digits elsewhere |
| `Timer.FormatTimeLong` | src/components/Timer.tsx:13 | From 6000 seconds on, the minutes field has three or more digits and the rendering is longer than five characters |
| `Timer.FormatTimeRoundTrip` | src/components/Timer.tsx:10-13 | Reading the rendering back as minutes times 60 plus seconds gives the seconds rendered |
| `Timer.GetTotalDuration` | src/components/Timer.tsx:16-27 | The view's duration for the current mode is the countdown RESET_TIMER restores |
| `Timer.PhaseStartsAtTotalDuration` | src/components/Timer.tsx:16-27 | After a reset, a completion or an idle settings update, the countdown equals the duration the view shows |
| `Timer.GetModeTitle` | src/components/Timer.tsx:34-45 | The title is "Focus Time", "Short Break" or "Long Break" exactly for WORK, SHORT_BREAK or LONG_BREAK respectively |
| `Timer.ModeTitleNamesMode` | src/components/Timer.tsx:34-45 | The three modes have three different titles |
| `Timer.TotalPoints` | src/components/Timer.tsx:59 | The points are a multiple of 25 whose quotient by 25 is the completed count; `Timer.PointsTrackSessions` relates them to the reducer |
| `Timer.PointsTrackSessions` | src/components/Timer.tsx:58-59 | Points never go down under any action, and go up by exactly 25 exactly when a work session completes |
| `Timer.PointsNeverDecrease` | src/components/Timer.tsx:59 | Over any history of actions the points never go down |
| `Timer.PlayPauseAction` | src/components/Timer.tsx:47-53 | The button dispatches PAUSE_TIMER iff the timer is running and START_TIMER otherwise; `Timer.PlayPauseToggles` gives the resulting state |
| `Timer.PlayPauseLabel` | src/components/Timer.tsx:149 | The label is "Pause" iff the timer is running and "Start" otherwise; `Timer.PlayPauseLabelMatchesAction` ties it to the action |
| `Timer.PlayPauseToggles` | src/components/Timer.tsx:47-53 | The action the button dispatches pauses a running timer and starts any other; the reducer step toggles the status and changes nothing else |
| `Timer.PressPlayPause` | src/components/Timer.tsx:47-53 | Pressing the button, including the auto-complete effect after the dispatch, toggles the status and changes nothing else, except that starting a stopped timer at 0 seconds completes the phase at once with one notification |
| `Timer.PlayPauseLabelMatchesAction` | src/components/Timer.tsx:149 | The label reads "Pause" iff the timer is running, that is iff pressing it pauses |

## Left out

- The interval timer (`setInterval`, `clearInterval`) and the dependency lists of the React effects
  are not modelled. They are replaced by one step per elapsed second, and a step does nothing when
  the timer is not running.
- The audio in `playNotificationSound` uses the Web Audio API and floating-point gains, so it is not
  modelled. Each call becomes one count in `notifications`. A failing audio backend cannot affect
  the state, so it is not modelled either.
- The React context, the provider's rendering and the error thrown by `usePomodoro` outside a
  provider are framework plumbing, so they are not modelled.
- `getProgress`, `circumference` and `strokeDashoffset` are floating-point arithmetic with `Math.PI`,
  and `getProgress` can divide by a zero duration, so they are not modelled.
- The JSX and SVG markup of the timer view is presentation, so it is not modelled.
- The settings form, the application shell and the styling configuration are not part of this model.
  - The form's only logic is minutes times 60.
  - Its 1-60, 1-30 and 2-10 bounds are HTML attributes that nothing enforces.
- Numbers above 2^53 are not modelled. There JavaScript arithmetic loses whole-number precision
  (a TICK can leave the countdown unchanged, and the session count can stop increasing), and
  `toString` switches to exponent notation from 1e21. Realistic settings stay far below that.
- Numbers that are negative, fractional or `NaN` are not modelled. `Number(...)` in the settings
  form could produce them. Durations, the countdown and the session count are `nat`.
- The `default` branches of the reducer and of the view's `switch` statements are not modelled.
  They cannot be reached with the closed action and mode types.
- `Timer.FormatTimeFields`: stated for non-negative whole seconds only. A negative countdown cannot
  arise from non-negative settings.
