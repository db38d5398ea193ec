/**
 * Properties of the engine that span several transitions or several components:
 * the numeric invariant over every run of events, the pause/resume arithmetic,
 * the accounting of the daily total, and how the screen, the notification manager
 * and the picker read the engine's records.
 */
module EngineProperties {
  import opened CountdownState
  import opened Engine
  import KotlinMath
  import TimeUtils
  import Application
  import Notification
  import Repository
  import WheelPicker
  import opened Wrappers

  // ---------------------------------------------------------------- events

  /** Everything that can change the record: the user's verbs, a loop iteration, the lifecycle hooks. */
  datatype Event =
    | ToggleEvent
    | TickEvent(now: int)
    | ResetEvent
    | SetNewTotalTimeEvent(hours: int, minutes: int, seconds: int)
    | SetCurrentAsMaxEvent
    | SaveCurrentStateEvent(now: int)
    | BackgroundEvent
    | ForegroundEvent

  /**
   * One event's effect on the screen's record. A loop iteration happens only while the
   * loop's guard holds. The background event is the intended auto-pause of that record
   * (`Application.OnStopShared`); as wired, the hook pauses a different record and this
   * event changes nothing here (`Application.OnStopAsWired`).
   */
  function Apply(s: State, e: Event): (r: Step)
    ensures r.next.todayCompletedSeconds == s.todayCompletedSeconds + r.banked
    ensures r.next.todayTimeOffset == s.todayTimeOffset
  {
    match e
    case ToggleEvent => Step(Toggle(s), 0)
    case TickEvent(now) => if LoopActive(s) then Tick(s, now) else Step(s, 0)
    case ResetEvent => Reset(s)
    case SetNewTotalTimeEvent(h, m, sec) => SetNewTotalTime(s, h, m, sec)
    case SetCurrentAsMaxEvent => Step(SetCurrentAsMax(s), 0)
    case SaveCurrentStateEvent(now) => Step(SaveCurrentState(s, now), 0)
    case BackgroundEvent => Step(Application.OnStop(s), 0)
    case ForegroundEvent => Step(Application.OnStart(s), 0)
  }

  /** The wall clock after an event: events that read the clock move it to their time. */
  function ClockAfter(clock: int, e: Event): int {
    match e
    case TickEvent(now) => now
    case SaveCurrentStateEvent(now) => now
    case _ => clock
  }

  /** The wall clock never goes backwards. */
  predicate ClockForward(clock: int, e: Event) {
    clock <= ClockAfter(clock, e)
  }

  predicate ClockForwardAll(clock: int, events: seq<Event>)
    decreases |events|
  {
    events == [] ||
    (ClockForward(clock, events[0]) && ClockForwardAll(ClockAfter(clock, events[0]), events[1..]))
  }

  function Run(s: State, events: seq<Event>): State
    decreases |events|
  {
    if events == [] then s else Run(Apply(s, events[0]).next, events[1..])
  }

  /** Seconds banked along a run of events. */
  function BankedAlong(s: State, events: seq<Event>): nat
    decreases |events|
  {
    if events == [] then 0
    else Apply(s, events[0]).banked + BankedAlong(Apply(s, events[0]).next, events[1..])
  }

  // ---------------------------------------------------------------- the invariant

  /**
   * What holds of every record the engine reaches: the numeric invariant, a stopped
   * countdown with time left keeps exactly its elapsed time as the resume offset, and
   * the anchor is never later than the clock.
   */
  predicate Consistent(s: State, clock: int) {
    && Valid(s)
    && (!s.isRunning && s.currentMillis > 0 ==> s.pausedTime == ElapsedMillis(s))
    && s.startTime <= clock
    && clock >= 0
  }

  lemma ApplyKeepsConsistent(s: State, clock: int, e: Event)
    requires Consistent(s, clock) && ClockForward(clock, e)
    ensures Consistent(Apply(s, e).next, ClockAfter(clock, e))
  {
  }

  /** The invariant holds after any run of events whose clock goes forward; the daily total moves only by banking. */
  lemma {:induction false} RunKeepsConsistent(s: State, clock: int, events: seq<Event>)
    requires Consistent(s, clock) && ClockForwardAll(clock, events)
    ensures Valid(Run(s, events))
    ensures 0 <= Run(s, events).currentMillis <= TotalMillis(Run(s, events))
    ensures Run(s, events).todayCompletedSeconds == s.todayCompletedSeconds + BankedAlong(s, events)
    ensures Run(s, events).todayTimeOffset == s.todayTimeOffset
    decreases |events|
  {
    if events != [] {
      ApplyKeepsConsistent(s, clock, events[0]);
      RunKeepsConsistent(Apply(s, events[0]).next, ClockAfter(clock, events[0]), events[1..]);
    }
  }

  /** A record loaded from an empty file satisfies the invariant at any clock reading. */
  lemma LoadedDefaultConsistent(clock: int)
    requires clock >= 0
    ensures Repository.LoadState(map[]).Success?
    ensures Consistent(Repository.LoadState(map[]).value, clock)
  {
  }

  // ---------------------------------------------------------------- single iterations

  /** A loop iteration with the clock at or past the anchor keeps the remaining time within the duration. */
  lemma TickWithinDuration(s: State, now: int)
    requires Valid(s) && LoopActive(s) && s.startTime != 0 && now >= s.startTime
    ensures Valid(Tick(s, now).next)
    ensures Remaining(s, now) > 0 ==> 0 < Tick(s, now).next.currentMillis <= TotalMillis(s)
  {
  }

  /** Pausing then resuming gives back the running flag and leaves the remaining time alone; so does resuming then pausing. */
  lemma ToggleTwice(s: State)
    ensures Toggle(Toggle(s)).isRunning == s.isRunning
    ensures Toggle(Toggle(s)).currentMillis == s.currentMillis
    ensures Toggle(Toggle(s)).totalSeconds == s.totalSeconds
  {
  }

  /** A record built with its declared defaults has no time left, so toggling it does nothing. */
  lemma ToggleDefaultDoesNothing()
    ensures Toggle(Default()) == Default()
  {
  }

  /**
   * Resuming a stopped countdown whose offset is its elapsed time, anchoring at `now` and
   * ticking `d` milliseconds later leaves exactly `d` less on the clock. The anchor
   * `now - pausedTime` must not collide with 0, the "not anchored" marker.
   */
  lemma ResumeCountsDown(s: State, now: int, d: int)
    requires !s.isRunning && s.currentMillis > 0 && s.pausedTime == ElapsedMillis(s)
    requires now - s.pausedTime != 0
    requires 0 <= d < s.currentMillis
    ensures var anchored := Tick(Toggle(s), now);
            && anchored.next.startTime == now - s.pausedTime
            && var later := Tick(anchored.next, now + d);
            && later.next.currentMillis == s.currentMillis - d
            && later.next.isRunning && later.banked == 0
  {
  }

  /** Pause and resume in the middle of a run lose no time: the count continues from where it stopped. */
  lemma PauseResumeCountsDown(s: State, now: int, d: int)
    requires s.isRunning && s.currentMillis > 0
    requires now - ElapsedMillis(s) != 0
    requires 0 <= d < s.currentMillis
    ensures var resumed := Toggle(Toggle(s));
            && var anchored := Tick(resumed, now).next;
            && Tick(anchored, now + d).next.currentMillis == s.currentMillis - d
  {
    ResumeCountsDown(Toggle(s), now, d);
  }

  /** Resuming and letting the whole remaining time pass finishes the run. */
  lemma ResumeRunsOut(s: State, now: int, d: int)
    requires !s.isRunning && s.currentMillis > 0 && s.pausedTime == ElapsedMillis(s)
    requires now - s.pausedTime != 0
    requires d >= s.currentMillis
    ensures var finished := Tick(Tick(Toggle(s), now).next, now + d).next;
            !finished.isRunning && finished.currentMillis == 0 && !SessionActive(finished)
  {
  }

  // ---------------------------------------------------------------- the daily total

  /** Resetting banks exactly what the screen already counted for the session: the shown total does not move. */
  lemma ResetKeepsTodayTotal(s: State)
    requires Valid(s)
    ensures TodayTotal(Reset(s).next) == TodayTotal(s)
  {
    assert ElapsedMillis(s) >= 0;
  }

  /** Choosing a new duration banks the session the same way, so the shown total does not move either. */
  lemma SetNewTotalTimeKeepsTodayTotal(s: State, hours: int, minutes: int, seconds: int)
    requires Valid(s)
    ensures TodayTotal(SetNewTotalTime(s, hours, minutes, seconds).next) == TodayTotal(s)
  {
    assert ElapsedMillis(s) >= 0;
  }

  /** Pausing and resuming bank nothing and leave the shown total where it was. */
  lemma ToggleKeepsTodayTotal(s: State, clock: int)
    requires Consistent(s, clock)
    ensures TodayTotal(Toggle(s)) == TodayTotal(s)
  {
  }

  /** Natural completion banks the seconds the screen showed for the session: the shown total does not move. */
  lemma CompletionKeepsTodayTotal(s: State, now: int)
    requires Valid(s) && LoopActive(s) && s.startTime != 0 && Remaining(s, now) <= 0
    ensures TodayTotal(Tick(s, now).next) == TodayTotal(s)
  {
  }

  /** Rebasing on the remaining time banks nothing, so the session's elapsed seconds drop out of the shown total. */
  lemma SetCurrentAsMaxDropsSessionFromTotal(s: State)
    requires Valid(s) && LoopActive(s)
    ensures TodayTotal(SetCurrentAsMax(s)) == (if s.todayCompletedSeconds - s.todayTimeOffset > 0
                                                then s.todayCompletedSeconds - s.todayTimeOffset else 0)
  {
  }

  /**
   * Natural completion banks the elapsed seconds of the last persisted record, not the whole
   * duration: after any progress iteration (remaining time above zero) it banks less than
   * the configured duration.
   */
  lemma CompletionBanksLessThanDuration(s: State, now: int)
    requires Valid(s) && LoopActive(s) && s.startTime != 0 && Remaining(s, now) <= 0
    ensures Tick(s, now).banked < s.totalSeconds
  {
  }

  /** A 5-second countdown whose last iteration left 40 ms banks 4 seconds when it runs out. */
  lemma FiveSecondRunBanksFour()
    ensures var s := State(5, 40, true, 1000, 0, 0, 0, false);
            Tick(s, 6000).banked == 4 && Tick(s, 6000).next.todayCompletedSeconds == 4
  {
  }

  /**
   * Rebasing with less than one second left makes a zero duration that is still marked
   * running, with no time left: the loop stops, and toggling can no longer pause it.
   */
  lemma SetCurrentAsMaxUnderOneSecond(s: State)
    requires s.isRunning && 0 < s.currentMillis < 1000
    ensures var r := SetCurrentAsMax(s);
            && r.totalSeconds == 0 && r.currentMillis == 0 && r.isRunning
            && !LoopActive(r) && Toggle(r) == r && !ShouldShowTimePicker(r)
  {
  }

  // ---------------------------------------------------------------- observers

  /** The notification is wanted exactly when the screen hides the picker. */
  lemma NotificationWantedIffPickerHidden(s: State)
    ensures Notification.Wanted(Notification.KeyOf(s)) <==> !ShouldShowTimePicker(s)
  {
  }

  /**
   * A reset with time to refill is not a finish: a manager that saw the running countdown
   * keeps its service flag set and issues no command.
   */
  lemma ResetKeepsServiceFlag(m: Notification.Manager, s: State)
    requires s.totalSeconds >= 1
    requires m.serviceRunning && !m.cancelled && m.lastKey == Some(Notification.KeyOf(s)) && s.isRunning
    ensures Notification.Observe(m, Reset(s).next).command == None
    ensures Notification.Observe(m, Reset(s).next).manager.serviceRunning
  {
  }

  /** Natural completion is a finish: a manager with the service flag set stops the service. */
  lemma CompletionStopsService(m: Notification.Manager, s: State, now: int)
    requires LoopActive(s) && s.startTime != 0 && Remaining(s, now) <= 0
    requires m.serviceRunning && !m.cancelled && m.lastKey == Some(Notification.KeyOf(s))
    ensures Notification.Observe(m, Tick(s, now).next).command == Some(Notification.StopService)
    ensures !Notification.Observe(m, Tick(s, now).next).manager.serviceRunning
  {
  }

  /** The first screen state derived from an empty file matches the screen state's declared defaults. */
  lemma FirstScreenMatchesDefaults()
    ensures Repository.LoadState(map[]).Success?
    ensures Project(Repository.LoadState(map[]).value)
         == UiState(60, 60, 60000, false, "01:00", "00:00", true, false)
  {
    assert Repository.LoadState(map[]) == Success(FullMinute());
    ProjectFullMinute();
  }

  /** The record an empty file loads as: one full minute, stopped. */
  function FullMinute(): State {
    State(60, 60000, false, 0, 0, 0, 0, false)
  }

  lemma ProjectFullMinute()
    ensures Project(FullMinute()) == UiState(60, 60, 60000, false, "01:00", "00:00", true, false)
  {
    var s := FullMinute();
    assert KotlinMath.Div(60000, 1000) == 60;
    assert TodayTotal(s) == 0;
    TimeUtils.FormatTimeOfMinuteAndZero();
  }

  /** Any three values the hour, minute and second wheels can show form a reading that survives the conversion to seconds and back. */
  lemma PickedTimeRoundTrips(hourFirst: int, hourOffset: int, minuteFirst: int, minuteOffset: int,
                             secondFirst: int, secondOffset: int)
    ensures var t := TimeUtils.Hms(WheelPicker.CenterValue(WheelPicker.HourRange, hourFirst, hourOffset),
                                   WheelPicker.CenterValue(WheelPicker.MinuteRange, minuteFirst, minuteOffset),
                                   WheelPicker.CenterValue(WheelPicker.SecondRange, secondFirst, secondOffset));
            TimeUtils.FromTotalSeconds(TimeUtils.ToTotalSeconds(t.hours, t.minutes, t.seconds)) == t
  {
    var t := TimeUtils.Hms(WheelPicker.CenterValue(WheelPicker.HourRange, hourFirst, hourOffset),
                           WheelPicker.CenterValue(WheelPicker.MinuteRange, minuteFirst, minuteOffset),
                           WheelPicker.CenterValue(WheelPicker.SecondRange, secondFirst, secondOffset));
    TimeUtils.FromTotalSecondsOfClockReading(t);
  }

  /** A time picked on the wheels that is not all zero arms a countdown of exactly that many seconds. */
  lemma PickedTimeArmsCountdown(s: State, hours: int, minutes: int, seconds: int)
    requires 0 <= hours < 24 && 0 <= minutes < 60 && 0 <= seconds < 60
    requires hours + minutes + seconds > 0
    ensures var r := SetNewTotalTime(s, hours, minutes, seconds).next;
            && r.currentMillis == TimeUtils.ToTotalSeconds(hours, minutes, seconds) * 1000
            && !r.isRunning
            && TimeUtils.FromTotalSeconds(r.totalSeconds) == TimeUtils.Hms(hours, minutes, seconds)
  {
    TimeUtils.FromTotalSecondsOfClockReading(TimeUtils.Hms(hours, minutes, seconds));
  }
}
