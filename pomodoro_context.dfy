/**
 * The Pomodoro timer state machine: the modes and statuses of the timer,
 * its settings and state, and the reducer that maps a state and an action
 * to the next state (src/context/PomodoroContext.tsx).
 *
 * Every number of the source (`number` in TypeScript) that the reducer
 * handles is a whole, non-negative count of seconds or of sessions here, so
 * the fields are `nat`.
 */
module PomodoroContext {
  import opened Wrappers

  datatype TimerMode = Work | ShortBreak | LongBreak

  datatype TimerStatus = Idle | Running | Paused

  /** Phase durations in seconds, and how many work sessions make a long-break cycle. */
  datatype PomodoroSettings = PomodoroSettings(
    workDuration: nat,
    shortBreakDuration: nat,
    longBreakDuration: nat,
    longBreakInterval: nat)

  datatype PomodoroState = PomodoroState(
    mode: TimerMode,
    status: TimerStatus,
    timeRemaining: nat,
    completedPomodoros: nat,
    settings: PomodoroSettings)

  /** `Partial<PomodoroSettings>`: a field that is `None` is absent from the update. */
  datatype SettingsPatch = SettingsPatch(
    workDuration: Option<nat>,
    shortBreakDuration: Option<nat>,
    longBreakDuration: Option<nat>,
    longBreakInterval: Option<nat>)

  datatype PomodoroAction =
    | StartTimer
    | PauseTimer
    | ResetTimer
    | Tick
    | CompleteSession
    | UpdateSettings(payload: SettingsPatch)

  const DefaultSettings: PomodoroSettings :=
    PomodoroSettings(25 * 60, 5 * 60, 15 * 60, 4)

  const InitialState: PomodoroState :=
    PomodoroState(Work, Idle, DefaultSettings.workDuration, 0, DefaultSettings)

  /** The configured duration of a mode, as the reducer selects it. */
  function DurationOf(settings: PomodoroSettings, mode: TimerMode): (r: nat)
    ensures mode == Work ==> r == settings.workDuration
    ensures mode == ShortBreak ==> r == settings.shortBreakDuration
    ensures mode == LongBreak ==> r == settings.longBreakDuration
  {
    if mode == Work then settings.workDuration
    else if mode == ShortBreak then settings.shortBreakDuration
    else settings.longBreakDuration
  }

  function Max(a: int, b: int): int
  {
    if a < b then b else a
  }

  /**
   * `n % longBreakInterval === 0` as JavaScript evaluates it: with an
   * interval of 0 the remainder is NaN, which is equal to nothing, so the
   * test is false.
   */
  predicate ShouldTakeLongBreak(n: nat, longBreakInterval: nat)
    ensures longBreakInterval == 0 ==> !ShouldTakeLongBreak(n, longBreakInterval)
    ensures longBreakInterval == 1 ==> ShouldTakeLongBreak(n, longBreakInterval)
    ensures 0 < n < longBreakInterval ==> !ShouldTakeLongBreak(n, longBreakInterval)
  {
    longBreakInterval != 0 && n % longBreakInterval == 0
  }

  /** The object spread `{ ...settings, ...patch }`. */
  function MergeSettings(settings: PomodoroSettings, patch: SettingsPatch): (r: PomodoroSettings)
    ensures r.workDuration == if patch.workDuration.Some? then patch.workDuration.value else settings.workDuration
    ensures r.shortBreakDuration
         == if patch.shortBreakDuration.Some? then patch.shortBreakDuration.value else settings.shortBreakDuration
    ensures r.longBreakDuration
         == if patch.longBreakDuration.Some? then patch.longBreakDuration.value else settings.longBreakDuration
    ensures r.longBreakInterval
         == if patch.longBreakInterval.Some? then patch.longBreakInterval.value else settings.longBreakInterval
  {
    PomodoroSettings(
      patch.workDuration.GetOr(settings.workDuration),
      patch.shortBreakDuration.GetOr(settings.shortBreakDuration),
      patch.longBreakDuration.GetOr(settings.longBreakDuration),
      patch.longBreakInterval.GetOr(settings.longBreakInterval))
  }

  /** The mode that follows a completed session of `state.mode`. */
  function NextMode(state: PomodoroState, newCompletedPomodoros: nat): (r: TimerMode)
    ensures r == Work <==> state.mode != Work
    ensures r == LongBreak
        <==> state.mode == Work && state.settings.longBreakInterval > 0
             && newCompletedPomodoros % state.settings.longBreakInterval == 0
  {
    if state.mode == Work then
      if ShouldTakeLongBreak(newCompletedPomodoros, state.settings.longBreakInterval)
      then LongBreak else ShortBreak
    else Work
  }

  /** `pomodoroReducer`: the next state after one action. */
  function Reduce(state: PomodoroState, action: PomodoroAction): (r: PomodoroState)
    ensures r.completedPomodoros >= state.completedPomodoros
    ensures r.completedPomodoros != state.completedPomodoros
        <==> action.CompleteSession? && state.mode == Work
    ensures r.mode != state.mode ==> action.CompleteSession?
    ensures r.settings != state.settings ==> action.UpdateSettings?
  {
    match action
    case StartTimer =>
      state.(status := Running)
    case PauseTimer =>
      state.(status := Paused)
    case ResetTimer =>
      var duration := DurationOf(state.settings, state.mode);
      state.(status := Idle, timeRemaining := duration)
    case Tick =>
      if state.status != Running then state
      else
        var newTimeRemaining := Max(0, state.timeRemaining - 1);
        if newTimeRemaining == 0 then state.(timeRemaining := 0)
        else state.(timeRemaining := newTimeRemaining)
    case CompleteSession =>
      var newCompletedPomodoros :=
        if state.mode == Work then state.completedPomodoros + 1 else state.completedPomodoros;
      var nextMode := NextMode(state, newCompletedPomodoros);
      var nextDuration := DurationOf(state.settings, nextMode);
      state.(mode := nextMode, status := Idle, timeRemaining := nextDuration,
             completedPomodoros := newCompletedPomodoros)
    case UpdateSettings(payload) =>
      var newSettings := MergeSettings(state.settings, payload);
      var updatedTimeRemaining :=
        if state.status == Idle then DurationOf(newSettings, state.mode) else state.timeRemaining;
      state.(settings := newSettings, timeRemaining := updatedTimeRemaining)
  }

  /** The state after a whole history of dispatched actions, oldest first. */
  function ReduceAll(state: PomodoroState, actions: seq<PomodoroAction>): PomodoroState
    decreases |actions|
  {
    if actions == [] then state else ReduceAll(Reduce(state, actions[0]), actions[1..])
  }

  // ---------------------------------------------------------------------------
  // START_TIMER and PAUSE_TIMER

  lemma StartTimerRuns(state: PomodoroState)
    ensures Reduce(state, StartTimer).status == Running
    ensures Reduce(state, StartTimer).mode == state.mode
    ensures Reduce(state, StartTimer).timeRemaining == state.timeRemaining
    ensures Reduce(state, StartTimer).completedPomodoros == state.completedPomodoros
    ensures Reduce(state, StartTimer).settings == state.settings
    ensures Reduce(Reduce(state, StartTimer), StartTimer) == Reduce(state, StartTimer)
  {
  }

  lemma PauseTimerPauses(state: PomodoroState)
    ensures Reduce(state, PauseTimer) == state.(status := Paused)
    ensures state.status == Paused ==> Reduce(state, PauseTimer) == state
    ensures Reduce(Reduce(state, PauseTimer), PauseTimer) == Reduce(state, PauseTimer)
  {
  }

  // ---------------------------------------------------------------------------
  // RESET_TIMER

  lemma ResetTimerRestoresDuration(state: PomodoroState)
    ensures Reduce(state, ResetTimer).status == Idle
    ensures Reduce(state, ResetTimer).timeRemaining == DurationOf(state.settings, state.mode)
    ensures Reduce(state, ResetTimer).mode == state.mode
    ensures Reduce(state, ResetTimer).completedPomodoros == state.completedPomodoros
    ensures Reduce(state, ResetTimer).settings == state.settings
    ensures Reduce(Reduce(state, ResetTimer), ResetTimer) == Reduce(state, ResetTimer)
  {
  }

  // ---------------------------------------------------------------------------
  // TICK

  lemma TickIsIdentityUnlessRunning(state: PomodoroState)
    requires state.status != Running
    ensures Reduce(state, Tick) == state
  {
  }

  lemma TickCountsDown(state: PomodoroState)
    requires state.status == Running
    ensures Reduce(state, Tick).timeRemaining == Max(0, state.timeRemaining - 1)
    ensures state.timeRemaining > 0 ==> Reduce(state, Tick).timeRemaining == state.timeRemaining - 1
    ensures state.timeRemaining == 0 ==> Reduce(state, Tick).timeRemaining == 0
    ensures Reduce(state, Tick) == state.(timeRemaining := Reduce(state, Tick).timeRemaining)
  {
  }

  /** The special case for reaching zero gives the same state as the general one. */
  lemma TickZeroBranchIsRedundant(state: PomodoroState)
    ensures Reduce(state, Tick)
         == if state.status != Running then state
            else state.(timeRemaining := Max(0, state.timeRemaining - 1))
  {
  }

  // ---------------------------------------------------------------------------
  // COMPLETE_SESSION

  lemma CompleteSessionAfterWork(state: PomodoroState)
    requires state.mode == Work
    requires state.settings.longBreakInterval > 0
    ensures Reduce(state, CompleteSession).completedPomodoros == state.completedPomodoros + 1
    ensures Reduce(state, CompleteSession).mode
         == if (state.completedPomodoros + 1) % state.settings.longBreakInterval == 0
            then LongBreak else ShortBreak
    ensures Reduce(state, CompleteSession).status == Idle
    ensures Reduce(state, CompleteSession).timeRemaining
         == DurationOf(state.settings, Reduce(state, CompleteSession).mode)
    ensures Reduce(state, CompleteSession).settings == state.settings
  {
  }

  /** With an interval of 0 the long break is never taken. */
  lemma CompleteSessionZeroInterval(state: PomodoroState)
    requires state.mode == Work
    requires state.settings.longBreakInterval == 0
    ensures Reduce(state, CompleteSession).mode == ShortBreak
    ensures Reduce(state, CompleteSession).timeRemaining == state.settings.shortBreakDuration
  {
  }

  lemma CompleteSessionAfterBreak(state: PomodoroState)
    requires state.mode != Work
    ensures Reduce(state, CompleteSession).mode == Work
    ensures Reduce(state, CompleteSession).completedPomodoros == state.completedPomodoros
    ensures Reduce(state, CompleteSession).status == Idle
    ensures Reduce(state, CompleteSession).timeRemaining == state.settings.workDuration
    ensures Reduce(state, CompleteSession).settings == state.settings
  {
  }

  // ---------------------------------------------------------------------------
  // UPDATE_SETTINGS

  lemma UpdateSettingsMerges(state: PomodoroState, patch: SettingsPatch)
    ensures var r := Reduce(state, UpdateSettings(patch));
      && (patch.workDuration.Some? ==> r.settings.workDuration == patch.workDuration.value)
      && (patch.workDuration.None? ==> r.settings.workDuration == state.settings.workDuration)
      && (patch.shortBreakDuration.Some? ==> r.settings.shortBreakDuration == patch.shortBreakDuration.value)
      && (patch.shortBreakDuration.None? ==> r.settings.shortBreakDuration == state.settings.shortBreakDuration)
      && (patch.longBreakDuration.Some? ==> r.settings.longBreakDuration == patch.longBreakDuration.value)
      && (patch.longBreakDuration.None? ==> r.settings.longBreakDuration == state.settings.longBreakDuration)
      && (patch.longBreakInterval.Some? ==> r.settings.longBreakInterval == patch.longBreakInterval.value)
      && (patch.longBreakInterval.None? ==> r.settings.longBreakInterval == state.settings.longBreakInterval)
    ensures var r := Reduce(state, UpdateSettings(patch));
      && (state.status == Idle ==> r.timeRemaining == DurationOf(r.settings, state.mode))
      && (state.status != Idle ==> r.timeRemaining == state.timeRemaining)
      && r.mode == state.mode
      && r.status == state.status
      && r.completedPomodoros == state.completedPomodoros
  {
  }

  /** The patch with no field present. */
  const EmptyPatch: SettingsPatch := SettingsPatch(None, None, None, None)

  /** The patch with every field of `settings` present. */
  function FullPatch(settings: PomodoroSettings): SettingsPatch
  {
    SettingsPatch(Some(settings.workDuration), Some(settings.shortBreakDuration),
                  Some(settings.longBreakDuration), Some(settings.longBreakInterval))
  }

  /** Two successive patches as one: the later one's present fields win. */
  function CombinePatches(first: SettingsPatch, second: SettingsPatch): SettingsPatch
  {
    SettingsPatch(
      if second.workDuration.Some? then second.workDuration else first.workDuration,
      if second.shortBreakDuration.Some? then second.shortBreakDuration else first.shortBreakDuration,
      if second.longBreakDuration.Some? then second.longBreakDuration else first.longBreakDuration,
      if second.longBreakInterval.Some? then second.longBreakInterval else first.longBreakInterval)
  }

  /** The laws of the spread merge: unit, overwrite, idempotence and composition. */
  lemma MergeSettingsLaws(settings: PomodoroSettings, other: PomodoroSettings, p: SettingsPatch, q: SettingsPatch)
    ensures MergeSettings(settings, EmptyPatch) == settings
    ensures MergeSettings(settings, FullPatch(other)) == other
    ensures MergeSettings(MergeSettings(settings, p), p) == MergeSettings(settings, p)
    ensures MergeSettings(MergeSettings(settings, p), q) == MergeSettings(settings, CombinePatches(p, q))
  {
  }

  /** An empty update on an idle timer is the same as a reset. */
  lemma EmptyUpdateWhileIdleIsReset(state: PomodoroState)
    requires state.status == Idle
    ensures Reduce(state, UpdateSettings(EmptyPatch)) == Reduce(state, ResetTimer)
  {
  }

  // ---------------------------------------------------------------------------
  // Properties over all actions

  /** Whenever the phase changes, the new phase starts idle and full. */
  lemma PhaseChangeRestartsCountdown(state: PomodoroState, action: PomodoroAction)
    ensures var r := Reduce(state, action);
      r.mode != state.mode ==> r.status == Idle && r.timeRemaining == DurationOf(r.settings, r.mode)
  {
  }

  /**
   * The countdown goes down in four ways only: a TICK while running, a
   * RESET_TIMER, a COMPLETE_SESSION, or an UPDATE_SETTINGS while idle (the
   * last three set it to a configured duration, which may be smaller).
   */
  lemma TimeDecreasesOnlyOn(state: PomodoroState, action: PomodoroAction)
    ensures Reduce(state, action).timeRemaining < state.timeRemaining ==>
      || (action.Tick? && state.status == Running)
      || action.ResetTimer?
      || action.CompleteSession?
      || (action.UpdateSettings? && state.status == Idle)
  {
  }

  /** The countdown does not exceed the current phase's configured duration. */
  predicate WithinDuration(state: PomodoroState)
  {
    state.timeRemaining <= DurationOf(state.settings, state.mode)
  }

  /** Every action keeps the bound except a settings update while running or paused. */
  lemma WithinDurationPreserved(state: PomodoroState, action: PomodoroAction)
    requires WithinDuration(state)
    requires action.UpdateSettings? ==> state.status == Idle
    ensures WithinDuration(Reduce(state, action))
  {
  }

  /** A shorter work duration set while running leaves the countdown above it. */
  lemma UpdateWhileRunningBreaksBound()
    ensures var running := Reduce(InitialState, StartTimer);
      var r := Reduce(running, UpdateSettings(EmptyPatch.(workDuration := Some(60))));
      WithinDuration(running) && !WithinDuration(r) && r.timeRemaining == 1500
  {
  }

  /** The completed count never decreases over any history of actions. */
  lemma {:induction false} CompletedNeverDecreases(state: PomodoroState, actions: seq<PomodoroAction>)
    ensures ReduceAll(state, actions).completedPomodoros >= state.completedPomodoros
    ensures (forall i :: 0 <= i < |actions| ==> !actions[i].CompleteSession?) ==>
      ReduceAll(state, actions).completedPomodoros == state.completedPomodoros
    decreases |actions|
  {
    if actions != [] {
      CompletedNeverDecreases(Reduce(state, actions[0]), actions[1..]);
      assert forall i :: 0 <= i < |actions| - 1 ==> actions[1..][i] == actions[i + 1];
    }
  }

  /** Replaying a history in two parts is replaying it whole. */
  lemma {:induction false} ReduceAllAppend(state: PomodoroState, first: seq<PomodoroAction>, second: seq<PomodoroAction>)
    ensures ReduceAll(state, first + second) == ReduceAll(ReduceAll(state, first), second)
    decreases |first|
  {
    if first == [] {
      assert first + second == second;
    } else {
      assert (first + second)[0] == first[0];
      assert (first + second)[1..] == first[1..] + second;
      ReduceAllAppend(Reduce(state, first[0]), first[1..], second);
    }
  }

  /** Along any history, the count after a prefix is at most the count after a longer prefix. */
  lemma CompletedMonotoneAlongHistory(state: PomodoroState, actions: seq<PomodoroAction>, i: nat, j: nat)
    requires i <= j <= |actions|
    ensures ReduceAll(state, actions[..i]).completedPomodoros
         <= ReduceAll(state, actions[..j]).completedPomodoros
  {
    assert actions[..j] == actions[..i] + actions[i..j];
    ReduceAllAppend(state, actions[..i], actions[i..j]);
    CompletedNeverDecreases(ReduceAll(state, actions[..i]), actions[i..j]);
  }
}
