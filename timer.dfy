/**
 * The pure helpers of the Timer view (src/components/Timer.tsx): the mm:ss
 * rendering of the countdown, the duration of the current phase, the phase
 * title, the points shown, and the play/pause button.
 */
module Timer {
  import opened Wrappers
  import opened PomodoroContext
  import opened PomodoroProvider

  // ---------------------------------------------------------------------------
  // Decimal digits

  predicate IsDigit(c: char)
  {
    '0' <= c <= '9'
  }

  predicate AllDigits(s: string)
  {
    forall i :: 0 <= i < |s| ==> IsDigit(s[i])
  }

  function DigitChar(d: nat): (c: char)
    requires d < 10
    ensures IsDigit(c)
  {
    ('0' as int + d) as char
  }

  function DigitValue(c: char): nat
    requires IsDigit(c)
  {
    c as int - '0' as int
  }

  /** `n.toString()` for a whole non-negative number: its decimal digits, without leading zeros. */
  function NatToString(n: nat): (r: string)
    ensures |r| >= 1 && AllDigits(r)
    ensures |r| == 1 <==> n < 10
    ensures n >= 10 ==> r[0] != '0'
  {
    if n < 10 then [DigitChar(n)] else NatToString(n / 10) + [DigitChar(n % 10)]
  }

  /** `s.padStart(width, fill)` for a one-character fill: never shortens `s`. */
  function PadStart(s: string, width: nat, fill: char): (r: string)
    ensures |r| == if |s| >= width then |s| else width
    ensures r[|r| - |s|..] == s
    ensures r[..|r| - |s|] == seq(|r| - |s|, _ => fill)
  {
    if |s| >= width then s else seq(width - |s|, _ => fill) + s
  }

  /**
   * `formatTime`: whole minutes and remaining seconds, each padded to two
   * digits. The rendering ends in a colon and two digits, and it has exactly
   * five characters precisely below 100 minutes.
   */
  function FormatTime(seconds: nat): (r: string)
    ensures |r| >= 5 && r[|r| - 3] == ':'
    ensures IsDigit(r[|r| - 2]) && IsDigit(r[|r| - 1])
    ensures |r| == 5 <==> seconds < 6000
  {
    var minutes := seconds / 60;
    var remainingSeconds := seconds % 60;
    PaddedValue(minutes, 2);
    PaddedValue(remainingSeconds, 2);
    NatToStringWidth(minutes);
    NatToStringWidth(remainingSeconds);
    PadStart(NatToString(minutes), 2, '0') + ":" + PadStart(NatToString(remainingSeconds), 2, '0')
  }

  // ---------------------------------------------------------------------------
  // Reading the rendering back

  /** The value of a string of decimal digits; leading zeros add nothing. */
  function ParseDigits(s: string): nat
    requires AllDigits(s)
  {
    if s == [] then 0 else ParseDigits(s[..|s| - 1]) * 10 + DigitValue(s[|s| - 1])
  }

  /** The index of the first occurrence of `c` in `s`, if any. */
  function IndexOf(s: string, c: char): (r: Option<nat>)
    ensures r.Some? ==> r.value < |s| && s[r.value] == c && c !in s[..r.value]
    ensures r.None? ==> c !in s
  {
    if s == [] then None
    else if s[0] == c then Some(0)
    else match IndexOf(s[1..], c)
      case None => None
      case Some(i) =>
        assert s[..i + 1] == [s[0]] + s[1..][..i];
        Some(i + 1)
  }

  /** Reads "m:ss" back into seconds: minutes times 60 plus seconds, if both fields are digits. */
  function ParseTime(text: string): Option<nat>
  {
    match IndexOf(text, ':')
    case None => None
    case Some(i) =>
      var minutes, secs := text[..i], text[i + 1..];
      if minutes != [] && secs != [] && AllDigits(minutes) && AllDigits(secs)
      then Some(ParseDigits(minutes) * 60 + ParseDigits(secs))
      else None
  }

  lemma {:induction false} ParseNatToString(n: nat)
    ensures ParseDigits(NatToString(n)) == n
  {
    if n >= 10 {
      var s := NatToString(n);
      assert s[..|s| - 1] == NatToString(n / 10);
      ParseNatToString(n / 10);
    }
  }

  /** A string of zeros reads as 0. */
  lemma {:induction false} ParseZeros(k: nat)
    ensures AllDigits(seq(k, _ => '0'))
    ensures ParseDigits(seq(k, _ => '0')) == 0
  {
    if k > 0 {
      var z := seq(k, _ => '0');
      assert z[..k - 1] == seq(k - 1, _ => '0');
      ParseZeros(k - 1);
    }
  }

  /** Leading zeros do not change the value read. */
  lemma {:induction false} ParseLeadingZeros(k: nat, s: string)
    requires AllDigits(s)
    ensures AllDigits(seq(k, _ => '0') + s)
    ensures ParseDigits(seq(k, _ => '0') + s) == ParseDigits(s)
    decreases |s|
  {
    var z := seq(k, _ => '0');
    ParseZeros(k);
    if s == [] {
      assert z + s == z;
    } else {
      var t := z + s;
      assert t[..|t| - 1] == z + s[..|s| - 1];
      assert t[|t| - 1] == s[|s| - 1];
      ParseLeadingZeros(k, s[..|s| - 1]);
    }
  }

  /** Padding a number's digits with zeros keeps its value and gives at least `width` digits. */
  lemma PaddedValue(n: nat, width: nat)
    ensures AllDigits(PadStart(NatToString(n), width, '0'))
    ensures ParseDigits(PadStart(NatToString(n), width, '0')) == n
    ensures |PadStart(NatToString(n), width, '0')| == if |NatToString(n)| >= width then |NatToString(n)| else width
  {
    var s := NatToString(n);
    ParseNatToString(n);
    if |s| < width {
      ParseLeadingZeros(width - |s|, s);
    }
  }

  /** The two fields of the rendering: minutes at least two digits, seconds exactly two, 00 to 59. */
  lemma FormatTimeFields(seconds: nat)
    ensures var text := FormatTime(seconds);
      var minutes := PadStart(NatToString(seconds / 60), 2, '0');
      var secs := PadStart(NatToString(seconds % 60), 2, '0');
      && text == minutes + ":" + secs
      && |minutes| >= 2 && AllDigits(minutes) && ParseDigits(minutes) == seconds / 60
      && |secs| == 2 && AllDigits(secs) && ParseDigits(secs) == seconds % 60
      && ParseDigits(secs) <= 59
  {
    PaddedValue(seconds / 60, 2);
    PaddedValue(seconds % 60, 2);
    assert |NatToString(seconds % 60)| == 1 || |NatToString(seconds % 60)| == 2 by {
      NatToStringWidth(seconds % 60);
    }
  }

  /** A number has 2 digits from 10 to 99 and 3 or more from 100 on. */
  lemma {:induction false} NatToStringWidth(n: nat)
    ensures 10 <= n < 100 ==> |NatToString(n)| == 2
    ensures n >= 100 ==> |NatToString(n)| >= 3
  {
    if n >= 10 {
      NatToStringWidth(n / 10);
    }
  }

  /** Below 100 minutes the rendering is "mm:ss": five characters, a colon in the middle, digits around it. */
  lemma FormatTimeShape(seconds: nat)
    requires seconds < 6000
    ensures var text := FormatTime(seconds);
      && |text| == 5
      && text[2] == ':'
      && IsDigit(text[0]) && IsDigit(text[1]) && IsDigit(text[3]) && IsDigit(text[4])
  {
    FormatTimeFields(seconds);
    NatToStringWidth(seconds / 60);
  }

  /** From 100 minutes on the minutes field has three or more digits: nothing is cut off. */
  lemma FormatTimeLong(seconds: nat)
    requires seconds >= 6000
    ensures |NatToString(seconds / 60)| >= 3
    ensures |FormatTime(seconds)| > 5
  {
    FormatTimeFields(seconds);
    NatToStringWidth(seconds / 60);
  }

  /** In two fields joined by a colon, the first colon is the joining one when the first field is digits. */
  lemma IndexOfJoined(minutes: string, secs: string)
    requires AllDigits(minutes)
    ensures IndexOf(minutes + ":" + secs, ':') == Some(|minutes|)
  {
    var text := minutes + ":" + secs;
    assert text[|minutes|] == ':';
    assert ':' in text[..|minutes| + 1];
    assert forall j :: 0 <= j < |minutes| ==> text[j] == minutes[j] && IsDigit(text[j]);
  }

  /** Once the colon is found, the parser reads the two fields around it. */
  lemma ParseAt(text: string, i: nat, minutes: string, secs: string)
    requires IndexOf(text, ':') == Some(i)
    requires text[..i] == minutes && text[i + 1..] == secs
    requires minutes != [] && secs != [] && AllDigits(minutes) && AllDigits(secs)
    ensures ParseTime(text) == Some(ParseDigits(minutes) * 60 + ParseDigits(secs))
  {
  }

  /** Two digit fields joined by a colon read back as minutes times 60 plus seconds. */
  lemma ParseJoined(minutes: string, secs: string)
    requires minutes != [] && secs != [] && AllDigits(minutes) && AllDigits(secs)
    ensures ParseTime(minutes + ":" + secs) == Some(ParseDigits(minutes) * 60 + ParseDigits(secs))
  {
    var text := minutes + ":" + secs;
    IndexOfJoined(minutes, secs);
    assert text[..|minutes|] == minutes;
    assert text[|minutes| + 1..] == secs;
    ParseAt(text, |minutes|, minutes, secs);
  }

  /** Reading the rendering back gives the number of seconds rendered. */
  lemma FormatTimeRoundTrip(seconds: nat)
    ensures ParseTime(FormatTime(seconds)) == Some(seconds)
  {
    FormatTimeFields(seconds);
    ParseJoined(PadStart(NatToString(seconds / 60), 2, '0'), PadStart(NatToString(seconds % 60), 2, '0'));
  }

  // ---------------------------------------------------------------------------
  // The phase's duration, title and points

  /** `getTotalDuration`: the configured duration of the current mode. */
  function GetTotalDuration(state: PomodoroState): (r: nat)
    ensures r == Reduce(state, ResetTimer).timeRemaining
  {
    match state.mode
    case Work => state.settings.workDuration
    case ShortBreak => state.settings.shortBreakDuration
    case LongBreak => state.settings.longBreakDuration
  }

  /** Every action that starts a phase afresh fills the countdown to the duration the view shows. */
  lemma PhaseStartsAtTotalDuration(state: PomodoroState, action: PomodoroAction)
    requires action.ResetTimer? || action.CompleteSession? || (action.UpdateSettings? && state.status == Idle)
    ensures Reduce(state, action).timeRemaining == GetTotalDuration(Reduce(state, action))
  {
  }

  /** `getModeTitle`: the heading shown for each mode. */
  function GetModeTitle(mode: TimerMode): (r: string)
    ensures r == "Focus Time" <==> mode == Work
    ensures r == "Short Break" <==> mode == ShortBreak
    ensures r == "Long Break" <==> mode == LongBreak
  {
    match mode
    case Work => "Focus Time"
    case ShortBreak => "Short Break"
    case LongBreak => "Long Break"
  }

  /** Each title names one mode. */
  lemma ModeTitleNamesMode(m1: TimerMode, m2: TimerMode)
    ensures GetModeTitle(m1) == GetModeTitle(m2) <==> m1 == m2
  {
  }

  /** Each completed work session is worth 25 points. */
  function TotalPoints(state: PomodoroState): (r: nat)
    ensures r % 25 == 0 && r / 25 == state.completedPomodoros
  {
    state.completedPomodoros * 25
  }

  /** Points never go down, and go up by 25 exactly when a work session completes. */
  lemma PointsTrackSessions(state: PomodoroState, action: PomodoroAction)
    ensures TotalPoints(Reduce(state, action)) >= TotalPoints(state)
    ensures TotalPoints(Reduce(state, action)) != TotalPoints(state)
        <==> action.CompleteSession? && state.mode == Work
    ensures action.CompleteSession? && state.mode == Work ==>
      TotalPoints(Reduce(state, action)) == TotalPoints(state) + 25
  {
  }

  /** Over any history of actions the points never go down. */
  lemma PointsNeverDecrease(state: PomodoroState, actions: seq<PomodoroAction>)
    ensures TotalPoints(ReduceAll(state, actions)) >= TotalPoints(state)
  {
    CompletedNeverDecreases(state, actions);
  }

  // ---------------------------------------------------------------------------
  // The play/pause button

  /** `handlePlayPause`: pause a running timer, start it otherwise. */
  function PlayPauseAction(status: TimerStatus): (r: PomodoroAction)
    ensures r == PauseTimer <==> status == Running
    ensures r == StartTimer <==> status != Running
  {
    if status == Running then PauseTimer else StartTimer
  }

  /** The label of the play/pause button. */
  function PlayPauseLabel(status: TimerStatus): (r: string)
    ensures r == "Pause" <==> status == Running
    ensures r == "Start" <==> status != Running
  {
    if status == Running then "Pause" else "Start"
  }

  /**
   * The action the button dispatches pauses a running timer and starts any
   * other; the reducer step changes nothing but the status. The effect that
   * runs after it is `PressPlayPause`.
   */
  lemma PlayPauseToggles(state: PomodoroState)
    ensures PlayPauseAction(state.status) == PauseTimer <==> state.status == Running
    ensures Reduce(state, PlayPauseAction(state.status)).status
         == if state.status == Running then Paused else Running
    ensures Reduce(state, PlayPauseAction(state.status))
         == state.(status := Reduce(state, PlayPauseAction(state.status)).status)
  {
  }

  /** The label names what pressing the button does. */
  lemma PlayPauseLabelMatchesAction(status: TimerStatus)
    ensures PlayPauseLabel(status) == "Pause" <==> status == Running
    ensures PlayPauseLabel(status) == "Pause" <==> PlayPauseAction(status) == PauseTimer
    ensures PlayPauseLabel(status) == "Start" <==> PlayPauseAction(status) == StartTimer
  {
  }

  /**
   * Pressing the button, with the auto-complete effect that follows the
   * dispatch: the status toggles and nothing else changes, unless a stopped
   * timer at 0 seconds is started, which completes its phase at once and
   * plays the notification (see `PomodoroProvider.WorkSessionOutcome`).
   */
  lemma PressPlayPause(d: Driver)
    ensures var r := Perform(d, PlayPauseAction(d.state.status));
      && (d.state.timeRemaining > 0 || d.state.status == Running ==>
            r == Driver(d.state.(status := if d.state.status == Running then Paused else Running), d.notifications))
      && (d.state.timeRemaining == 0 && d.state.status != Running ==>
            r == Driver(Reduce(d.state.(status := Running), CompleteSession), d.notifications + 1))
  {
  }
}
