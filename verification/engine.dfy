/**
 * The countdown engine of the view model: every user verb and one iteration of the
 * tick loop, as pure functions of the published record. The wall clock is the
 * parameter `now`. `addCompletedTime` is kept abstract: a transition reports how
 * many seconds it hands to the daily total (`banked`, 0 when it makes no such
 * call) and the next record carries the total grown by exactly that amount.
 */
module Engine {
  import opened CountdownState
  import KotlinMath
  import TimeUtils
  import opened Wrappers

  /** The record a transition publishes and the seconds it banked on the way. */
  datatype Step = Step(next: State, banked: nat)

  /** The effect of `addCompletedTime(seconds)`: today's total grows by that much and nothing else changes. */
  function Bank(s: State, seconds: nat): (r: State)
    ensures r.todayCompletedSeconds == s.todayCompletedSeconds + seconds
    ensures r.(todayCompletedSeconds := s.todayCompletedSeconds) == s
  {
    s.(todayCompletedSeconds := s.todayCompletedSeconds + seconds)
  }

  /** Whole seconds of the configured duration used so far, truncated toward zero. */
  function SessionElapsedSeconds(s: State): int {
    KotlinMath.Div(ElapsedMillis(s), 1000)
  }

  /** The positive part of a number of seconds: what `if (elapsed > 0) addCompletedTime(elapsed)` banks. */
  function PositivePart(seconds: int): (r: nat)
    ensures r > 0 <==> seconds > 0
    ensures r > 0 ==> r == seconds
  {
    if seconds > 0 then seconds else 0
  }

  /** What reset and retarget bank: the session's whole elapsed seconds, when a session is active. */
  function SessionBank(s: State): (seconds: nat)
    ensures seconds > 0 <==> SessionActive(s) && SessionElapsedSeconds(s) > 0
    ensures seconds > 0 ==> seconds == SessionElapsedSeconds(s)
    ensures Valid(s) ==> seconds <= s.totalSeconds
  {
    if SessionActive(s) then PositivePart(SessionElapsedSeconds(s)) else 0
  }

  // ---------------------------------------------------------------- toggle

  /**
   * The pause transition shared by the user's pause and the background auto-pause:
   * the elapsed time is kept as the resume offset and the anchor is dropped.
   */
  function Suspend(s: State, auto: bool): (r: State)
    ensures !r.isRunning && r.startTime == 0 && r.autoPaused == auto
    ensures r.pausedTime == ElapsedMillis(r)
    ensures r.totalSeconds == s.totalSeconds && r.currentMillis == s.currentMillis
    ensures r.todayCompletedSeconds == s.todayCompletedSeconds && r.todayTimeOffset == s.todayTimeOffset
    ensures Valid(s) ==> Valid(r)
  {
    s.(isRunning := false, pausedTime := ElapsedMillis(s), startTime := 0, autoPaused := auto)
  }

  /** A pause the user asked for. */
  function Pause(s: State): (r: State)
    ensures !r.isRunning && !r.autoPaused && r.startTime == 0 && r.pausedTime == ElapsedMillis(s)
    ensures r.(isRunning := s.isRunning, pausedTime := s.pausedTime, startTime := s.startTime, autoPaused := s.autoPaused) == s
  {
    Suspend(s, false)
  }

  /** A start or resume: only the running flag, the anchor and the auto-pause flag change. */
  function Start(s: State): (r: State)
    ensures r.isRunning && r.startTime == 0 && !r.autoPaused
    ensures r.(isRunning := s.isRunning, startTime := s.startTime, autoPaused := s.autoPaused) == s
  {
    s.(isRunning := true, startTime := 0, autoPaused := false)
  }

  /** `toggleCountdown`: nothing when no time is left, otherwise pause a running countdown or start a stopped one. */
  function Toggle(s: State): (r: State)
    ensures s.currentMillis <= 0 ==> r == s
    ensures s.currentMillis > 0 ==> r.isRunning == !s.isRunning && r.startTime == 0 && !r.autoPaused
    ensures s.currentMillis > 0 && s.isRunning ==> r.pausedTime == ElapsedMillis(s)
    ensures s.currentMillis > 0 && !s.isRunning ==> r.pausedTime == s.pausedTime
    ensures r.totalSeconds == s.totalSeconds && r.currentMillis == s.currentMillis
    ensures r.todayCompletedSeconds == s.todayCompletedSeconds && r.todayTimeOffset == s.todayTimeOffset
    ensures Valid(s) ==> Valid(r)
  {
    if s.currentMillis <= 0 then s
    else if s.isRunning then Pause(s)
    else Start(s)
  }

  // ---------------------------------------------------------------- tick loop

  /** The loop's guard: it keeps iterating while the countdown runs and has time left. */
  predicate LoopActive(s: State) {
    s.isRunning && s.currentMillis > 0
  }

  /** Remaining milliseconds by the wall clock, from the anchor. */
  function Remaining(s: State, now: int): int {
    TotalMillis(s) - (now - s.startTime)
  }

  /**
   * One iteration of the tick loop at wall-clock time `now`. An unanchored run is
   * anchored so that `now - startTime` equals the elapsed time kept at the pause.
   * Otherwise the remaining time is recomputed from the anchor; once it is used up
   * the run finishes and banks the elapsed seconds of the last persisted record.
   */
  function Tick(s: State, now: int): (r: Step)
    requires LoopActive(s)
    ensures s.startTime == 0 ==>
      r.banked == 0 && now - r.next.startTime == s.pausedTime && r.next.(startTime := 0) == s
    ensures s.startTime != 0 && Remaining(s, now) > 0 ==>
      && r.banked == 0
      && r.next.(currentMillis := s.currentMillis) == s
      && r.next.currentMillis + (now - s.startTime) == TotalMillis(s)
    ensures s.startTime != 0 && Remaining(s, now) <= 0 ==>
      && !LoopActive(r.next) && !SessionActive(r.next)
      && r.next.currentMillis == 0 && r.next.startTime == 0 && r.next.pausedTime == 0
      && r.next.autoPaused == s.autoPaused
      && r.banked == PositivePart(SessionElapsedSeconds(s))
      && r.next.todayCompletedSeconds == s.todayCompletedSeconds + r.banked
      && r.next.totalSeconds == s.totalSeconds && r.next.todayTimeOffset == s.todayTimeOffset
  {
    if s.startTime == 0 then
      Step(s.(startTime := now - s.pausedTime), 0)
    else
      var remaining := Remaining(s, now);
      if remaining <= 0 then
        var banked := PositivePart(SessionElapsedSeconds(s));
        Step(Bank(s, banked).(currentMillis := 0, isRunning := false, startTime := 0, pausedTime := 0), banked)
      else
        Step(s.(currentMillis := remaining), 0)
  }

  // ---------------------------------------------------------------- reset and retarget

  /**
   * Bank the active session and arm a fresh, stopped countdown of `total` seconds:
   * the shared body of `resetCountdown` and `setNewTotalTime`.
   */
  function Rearm(s: State, total: int): (r: Step)
    ensures r.banked == SessionBank(s)
    ensures r.next.todayCompletedSeconds == s.todayCompletedSeconds + r.banked
    ensures r.next.totalSeconds == total && r.next.currentMillis == TotalMillis(r.next)
    ensures !r.next.isRunning && r.next.startTime == 0 && r.next.pausedTime == 0
    ensures r.next.todayTimeOffset == s.todayTimeOffset && r.next.autoPaused == s.autoPaused
  {
    var banked := SessionBank(s);
    Step(Bank(s, banked).(totalSeconds := total, currentMillis := total * 1000,
                          isRunning := false, startTime := 0, pausedTime := 0), banked)
  }

  /** `resetCountdown`: bank the session and refill the configured duration. */
  function Reset(s: State): (r: Step)
    ensures r.banked == SessionBank(s)
    ensures r.next.totalSeconds == s.totalSeconds && r.next.currentMillis == TotalMillis(s)
    ensures !r.next.isRunning && r.next.startTime == 0 && r.next.pausedTime == 0
    ensures r.next.todayCompletedSeconds == s.todayCompletedSeconds + r.banked
    ensures r.next.todayTimeOffset == s.todayTimeOffset && r.next.autoPaused == s.autoPaused
    ensures s.totalSeconds >= 0 ==> Valid(r.next)
  {
    Rearm(s, s.totalSeconds)
  }

  /** `setNewTotalTime`: ignored unless the new duration is positive; otherwise bank the session and arm the new duration. */
  function SetNewTotalTime(s: State, hours: int, minutes: int, seconds: int): (r: Step)
    ensures TimeUtils.ToTotalSeconds(hours, minutes, seconds) <= 0 ==> r == Step(s, 0)
    ensures TimeUtils.ToTotalSeconds(hours, minutes, seconds) > 0 ==>
      && r.banked == SessionBank(s)
      && r.next.totalSeconds == TimeUtils.ToTotalSeconds(hours, minutes, seconds)
      && r.next.currentMillis == TotalMillis(r.next)
      && !r.next.isRunning && r.next.startTime == 0 && r.next.pausedTime == 0 && Valid(r.next)
      && r.next.todayCompletedSeconds == s.todayCompletedSeconds + r.banked
      && r.next.todayTimeOffset == s.todayTimeOffset && r.next.autoPaused == s.autoPaused
  {
    var total := TimeUtils.ToTotalSeconds(hours, minutes, seconds);
    if total <= 0 then Step(s, 0) else Rearm(s, total)
  }

  // ---------------------------------------------------------------- rebase

  /**
   * `setCurrentAsMax`: while running with time left, the remaining whole seconds become
   * the new duration and the run is re-anchored; nothing is banked. A remaining time
   * under one second rebases to a zero duration that is still marked running.
   */
  function SetCurrentAsMax(s: State): (r: State)
    ensures !LoopActive(s) ==> r == s
    ensures LoopActive(s) ==>
      && r.totalSeconds == s.currentMillis / 1000
      && r.currentMillis == TotalMillis(r)
      && r.currentMillis <= s.currentMillis < r.currentMillis + 1000
      && r.isRunning && r.startTime == 0 && r.pausedTime == 0
    ensures r.todayCompletedSeconds == s.todayCompletedSeconds && r.todayTimeOffset == s.todayTimeOffset
    ensures r.autoPaused == s.autoPaused
    ensures Valid(s) ==> Valid(r)
  {
    if !s.isRunning || s.currentMillis <= 0 then s
    else
      var newMax := KotlinMath.Div(s.currentMillis, 1000);
      s.(totalSeconds := newMax, currentMillis := newMax * 1000, startTime := 0, pausedTime := 0)
  }

  // ---------------------------------------------------------------- save before suspension

  /**
   * `saveCurrentState`: for an anchored running countdown, write the remaining time by the
   * wall clock, but only while some remains. Nothing but the remaining time can change.
   */
  function SaveCurrentState(s: State, now: int): (r: State)
    ensures r.(currentMillis := s.currentMillis) == s
    ensures r != s ==> s.isRunning && s.startTime > 0 && r.currentMillis == Remaining(s, now) > 0
    ensures s.isRunning && s.startTime > 0 && Remaining(s, now) > 0 ==> r.currentMillis == Remaining(s, now)
  {
    if s.isRunning && s.startTime > 0 then
      var remaining := Remaining(s, now);
      if remaining > 0 then s.(currentMillis := remaining) else s
    else s
  }

  // ---------------------------------------------------------------- projections for the screen

  /** Today's total before clamping: banked seconds plus the live session's, less the soft-clear offset. */
  function RawTodayTotal(s: State): int {
    s.todayCompletedSeconds + (if SessionActive(s) then SessionElapsedSeconds(s) else 0) - s.todayTimeOffset
  }

  /** The "today" figure `updateUiState` shows: the raw total clamped at zero. */
  function TodayTotal(s: State): (seconds: int)
    ensures seconds >= 0 && seconds >= RawTodayTotal(s)
    ensures seconds == RawTodayTotal(s) || seconds == 0
  {
    if SessionActive(s) then
      var elapsedInSession := KotlinMath.Div(TotalMillis(s) - s.currentMillis, 1000);
      var totalElapsed := s.todayCompletedSeconds + elapsedInSession - s.todayTimeOffset;
      if 0 >= totalElapsed then 0 else totalElapsed
    else
      var totalElapsed := s.todayCompletedSeconds - s.todayTimeOffset;
      if 0 >= totalElapsed then 0 else totalElapsed
  }

  /** Whether the screen shows the picker rather than the running countdown. */
  function ShouldShowTimePicker(s: State): (show: bool)
    ensures show <==> !SessionActive(s)
  {
    if s.isRunning then false
    else if s.pausedTime > 0 then false
    else if s.currentMillis <= 0 then true
    else true
  }

  /** The screen state `updateUiState` derives from a record (the floating-point progress left out). */
  datatype UiState = UiState(
    totalSeconds: int,
    currentSeconds: int,
    currentMillis: int,
    isRunning: bool,
    formattedTime: string,
    formattedTotalTime: string,
    shouldShowTimePicker: bool,
    wasAutoPaused: bool)

  function Project(s: State): (u: UiState)
    ensures u.totalSeconds == s.totalSeconds && u.currentMillis == s.currentMillis && u.isRunning == s.isRunning
    ensures u.currentSeconds == KotlinMath.Div(s.currentMillis, 1000) && u.wasAutoPaused == s.autoPaused
    ensures u.shouldShowTimePicker <==> !SessionActive(s)
    ensures s.currentMillis >= 0 ==> TimeUtils.ParseClock(u.formattedTime) == Some(s.currentMillis / 1000)
    ensures TimeUtils.ParseClock(u.formattedTotalTime) == Some(TodayTotal(s))
  {
    var currentSeconds := KotlinMath.Div(s.currentMillis, 1000);
    assert s.currentMillis >= 0 ==> TimeUtils.ParseClock(TimeUtils.FormatTime(currentSeconds)) == Some(currentSeconds) by {
      if s.currentMillis >= 0 { TimeUtils.ParseClockOfFormatTime(currentSeconds); }
    }
    TimeUtils.ParseClockOfFormatTime(TodayTotal(s));
    UiState(s.totalSeconds, currentSeconds, s.currentMillis, s.isRunning,
            TimeUtils.FormatTime(currentSeconds), TimeUtils.FormatTime(TodayTotal(s)),
            ShouldShowTimePicker(s), s.autoPaused)
  }
}
