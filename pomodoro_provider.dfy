/**
 * The driver around the reducer in `PomodoroProvider`
 * (src/context/PomodoroContext.tsx): the state it holds, the once-a-second
 * tick while running, and the effect that completes the session and plays
 * the notification when the countdown reaches zero while running.
 *
 * The interval timer is abstracted to "one step per elapsed second"; a step
 * while the timer is not running changes nothing, which is what clearing
 * the interval achieves in the source. The notification sound is counted,
 * not played.
 */
module PomodoroProvider {
  import opened PomodoroContext

  /**
   * The condition of the auto-complete effect: the timer runs and a further
   * tick could not count down any more.
   */
  predicate CompletionDue(state: PomodoroState): (r: bool)
    ensures r <==> state.status == Running && Reduce(state, Tick) == state
  {
    state.timeRemaining == 0 && state.status == Running
  }

  /** What the provider holds: the state, and how many notifications it has played. */
  datatype Driver = Driver(state: PomodoroState, notifications: nat)

  /** The auto-complete effect: when due, notify and dispatch COMPLETE_SESSION. */
  function Settle(d: Driver): (r: Driver)
    ensures !CompletionDue(r.state)
    ensures CompletionDue(d.state) ==> r.notifications == d.notifications + 1
    ensures !CompletionDue(d.state) ==> r == d
  {
    if CompletionDue(d.state) then Driver(Reduce(d.state, CompleteSession), d.notifications + 1)
    else d
  }

  /** A dispatch followed by the effects it triggers. */
  function Perform(d: Driver, action: PomodoroAction): Driver
  {
    Settle(Driver(Reduce(d.state, action), d.notifications))
  }

  /** One elapsed second: the interval dispatches TICK. */
  function Second(d: Driver): Driver
  {
    Perform(d, Tick)
  }

  /** `seconds` elapsed seconds. */
  function Elapse(d: Driver, seconds: nat): Driver
  {
    if seconds == 0 then d else Second(Elapse(d, seconds - 1))
  }

  /** Start the timer and let the whole countdown of the current phase elapse. */
  function FullSession(d: Driver): Driver
  {
    Elapse(Perform(d, StartTimer), d.state.timeRemaining)
  }

  /** A work session followed by the break that comes after it. */
  function Cycle(d: Driver): Driver
  {
    FullSession(FullSession(d))
  }

  function Cycles(d: Driver, count: nat): Driver
  {
    if count == 0 then d else Cycle(Cycles(d, count - 1))
  }

  /** The provider as the source has it: the current state and the played notifications. */
  class Provider {
    var state: PomodoroState
    var notifications: nat

    /** Between dispatches the auto-complete effect has nothing left to do. */
    ghost predicate Valid()
      reads this
    {
      !CompletionDue(state)
    }

    function View(): Driver
      reads this
    {
      Driver(state, notifications)
    }

    constructor ()
      ensures Valid()
      ensures state == InitialState && notifications == 0
    {
      state := InitialState;
      notifications := 0;
    }

    /** `dispatch`: the reducer replaces the state. */
    method Dispatch(action: PomodoroAction)
      modifies this
      ensures state == Reduce(old(state), action)
      ensures notifications == old(notifications)
    {
      state := Reduce(state, action);
    }

    /** The effect on `timeRemaining` and `status`: notify and complete at zero while running. */
    method AutoComplete()
      modifies this
      ensures Valid()
      ensures View() == Settle(old(View()))
    {
      if state.timeRemaining == 0 && state.status == Running {
        notifications := notifications + 1;
        Dispatch(CompleteSession);
      }
    }

    /**
     * A command of the provider (`startTimer`, `pauseTimer`, `resetTimer`,
     * `completeSession`, `updateSettings`): dispatch, then run the effect.
     */
    method Command(action: PomodoroAction)
      modifies this
      ensures Valid()
      ensures View() == Perform(old(View()), action)
    {
      Dispatch(action);
      AutoComplete();
    }

    /** One firing of the interval. */
    method Step()
      modifies this
      ensures Valid()
      ensures View() == Second(old(View()))
    {
      Dispatch(Tick);
      AutoComplete();
    }

    /** The interval firing once a second for `seconds` seconds. */
    method RunFor(seconds: nat)
      requires Valid()
      modifies this
      ensures Valid()
      ensures View() == Elapse(old(View()), seconds)
    {
      var elapsed := 0;
      while elapsed < seconds
        invariant elapsed <= seconds
        invariant Valid()
        invariant View() == Elapse(old(View()), elapsed)
      {
        Step();
        elapsed := elapsed + 1;
      }
    }
  }

  // ---------------------------------------------------------------------------
  // Lemmas about the driver

  /** A dispatch never leaves the effect due, so it cannot fire twice for one zero. */
  lemma PerformSettles(d: Driver, action: PomodoroAction)
    ensures !CompletionDue(Perform(d, action).state)
    ensures Perform(d, action).notifications <= d.notifications + 1
  {
  }

  /** While the timer is not running, time passing changes nothing. */
  lemma {:induction false} StoppedTimerStaysPut(d: Driver, seconds: nat)
    requires d.state.status != Running
    ensures Elapse(d, seconds) == d
  {
    if seconds > 0 {
      StoppedTimerStaysPut(d, seconds - 1);
    }
  }

  /** Before the countdown of a running timer reaches zero, each second takes one off it. */
  lemma {:induction false} CountdownBeforeZero(d: Driver, seconds: nat)
    requires d.state.status == Running
    requires seconds < d.state.timeRemaining
    ensures Elapse(d, seconds)
         == Driver(d.state.(timeRemaining := d.state.timeRemaining - seconds), d.notifications)
  {
    if seconds > 0 {
      CountdownBeforeZero(d, seconds - 1);
    }
  }

  /**
   * A running countdown of t seconds completes the session exactly once: after
   * t seconds, and after any number of further seconds, the session has been
   * completed and one notification played.
   */
  lemma {:induction false} CountdownCompletesOnce(d: Driver, extra: nat)
    requires d.state.status == Running
    requires d.state.timeRemaining > 0
    ensures Elapse(d, d.state.timeRemaining + extra)
         == Driver(Reduce(d.state.(timeRemaining := 0), CompleteSession), d.notifications + 1)
  {
    var t := d.state.timeRemaining;
    var done := Driver(Reduce(d.state.(timeRemaining := 0), CompleteSession), d.notifications + 1);
    if extra == 0 {
      CountdownBeforeZero(d, t - 1);
    } else {
      CountdownCompletesOnce(d, extra - 1);
      StoppedTimerStaysPut(done, 1);
    }
  }

  /** An idle timer at the start of a work phase, after `count` work sessions. */
  predicate AtWorkStart(d: Driver, count: nat)
  {
    && d.state.mode == Work
    && d.state.status == Idle
    && d.state.timeRemaining == d.state.settings.workDuration
    && d.state.completedPomodoros == count
  }

  /**
   * A full work session ends in the break the cadence asks for. A phase of 0
   * seconds completes as soon as it is started, through the auto-complete
   * effect, so no duration needs to be positive.
   */
  lemma WorkSessionOutcome(d: Driver, count: nat)
    requires AtWorkStart(d, count)
    requires d.state.settings.longBreakInterval > 0
    ensures var r := FullSession(d);
      && r.state.mode == (if (count + 1) % d.state.settings.longBreakInterval == 0 then LongBreak else ShortBreak)
      && r.state.status == Idle
      && r.state.timeRemaining == DurationOf(d.state.settings, r.state.mode)
      && r.state.completedPomodoros == count + 1
      && r.state.settings == d.state.settings
      && r.notifications == d.notifications + 1
  {
    if d.state.timeRemaining > 0 {
      CountdownCompletesOnce(Perform(d, StartTimer), 0);
    }
  }

  /** A full work session and the break after it bring the timer back to the start of work. */
  lemma CycleOutcome(d: Driver, count: nat)
    requires AtWorkStart(d, count)
    requires d.state.settings.longBreakInterval > 0
    ensures AtWorkStart(Cycle(d), count + 1)
    ensures Cycle(d).state.settings == d.state.settings
    ensures Cycle(d).notifications == d.notifications + 2
  {
    WorkSessionOutcome(d, count);
    var b := FullSession(d);
    if b.state.timeRemaining > 0 {
      CountdownCompletesOnce(Perform(b, StartTimer), 0);
    }
  }

  /** After k cycles the timer is at the start of work with k more sessions done. */
  lemma {:induction false} CyclesOutcome(d: Driver, count: nat, k: nat)
    requires AtWorkStart(d, count)
    requires d.state.settings.longBreakInterval > 0
    ensures AtWorkStart(Cycles(d, k), count + k)
    ensures Cycles(d, k).state.settings == d.state.settings
    ensures Cycles(d, k).notifications == d.notifications + 2 * k
  {
    if k > 0 {
      CyclesOutcome(d, count, k - 1);
      CycleOutcome(Cycles(d, k - 1), count + k - 1);
    }
  }

  /**
   * The program's start, followed by saving `settings` in full while idle:
   * an idle work phase at the configured work duration.
   */
  lemma ConfiguredStart(settings: PomodoroSettings)
    ensures Perform(Driver(InitialState, 0), UpdateSettings(FullPatch(settings)))
         == Driver(InitialState.(timeRemaining := settings.workDuration, settings := settings), 0)
  {
  }

  /**
   * The long-break cadence: from the program's start with `settings` saved,
   * the k-th work session (k >= 1) is followed by a long break exactly when
   * k is a multiple of the interval and by a short break otherwise, idle and
   * at that break's configured duration.
   */
  lemma LongBreakCadence(settings: PomodoroSettings, k: nat)
    requires settings.longBreakInterval > 0
    requires k >= 1
    ensures var start := Perform(Driver(InitialState, 0), UpdateSettings(FullPatch(settings)));
      var r := FullSession(Cycles(start, k - 1));
      && r.state.mode == (if k % settings.longBreakInterval == 0 then LongBreak else ShortBreak)
      && r.state.status == Idle
      && r.state.timeRemaining == DurationOf(settings, r.state.mode)
      && r.state.completedPomodoros == k
      && r.notifications == 2 * k - 1
  {
    var start := Perform(Driver(InitialState, 0), UpdateSettings(FullPatch(settings)));
    ConfiguredStart(settings);
    var before := Cycles(start, k - 1);
    CyclesOutcome(start, 0, k - 1);
    assert AtWorkStart(before, k - 1) && before.notifications == 2 * (k - 1);
    WorkSessionOutcome(before, k - 1);
  }

  /**
   * The first pomodoro with the default settings: start, and 1500 seconds
   * later the timer is idle in a 300-second short break with one session
   * done and one notification played.
   */
  lemma FirstPomodoro(extra: nat)
    ensures var started := Perform(Driver(InitialState, 0), StartTimer);
      && started == Driver(InitialState.(status := Running), 0)
      && Elapse(started, 1500 + extra)
         == Driver(PomodoroState(ShortBreak, Idle, 300, 1, DefaultSettings), 1)
      && Elapse(started, 1499).notifications == 0
  {
    var started := Perform(Driver(InitialState, 0), StartTimer);
    CountdownCompletesOnce(started, extra);
    CountdownBeforeZero(started, 1499);
  }

  /** With the default settings the fourth work session is followed by the 900-second long break. */
  lemma FourthPomodoroTakesLongBreak()
    ensures var r := FullSession(Cycles(Driver(InitialState, 0), 3));
      r.state == PomodoroState(LongBreak, Idle, 900, 4, DefaultSettings) && r.notifications == 7
  {
    CyclesOutcome(Driver(InitialState, 0), 0, 3);
    WorkSessionOutcome(Cycles(Driver(InitialState, 0), 3), 3);
  }

  /** The first pomodoro on the provider object itself. */
  method FirstPomodoroOnProvider() returns (mode: TimerMode, status: TimerStatus, timeRemaining: nat, completed: nat, beeps: nat)
    ensures mode == ShortBreak && status == Idle && timeRemaining == 300
    ensures completed == 1 && beeps == 1
  {
    var provider := new Provider();
    provider.Command(StartTimer);
    provider.RunFor(1500);
    FirstPomodoro(0);
    mode, status, timeRemaining := provider.state.mode, provider.state.status, provider.state.timeRemaining;
    completed, beeps := provider.state.completedPomodoros, provider.notifications;
  }
}
