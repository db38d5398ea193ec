/**
 * The one persisted countdown record. The record declares five fields; the view
 * model and the application also read and write the daily total, its display
 * offset and the auto-pause flag, so the model carries all eight.
 */
module CountdownState {

  datatype State = State(
    totalSeconds: int,           // configured duration, whole seconds
    currentMillis: int,          // remaining time
    isRunning: bool,
    startTime: int,              // wall-clock anchor of the run, 0 when not anchored
    pausedTime: int,             // milliseconds already elapsed when the run was last paused
    todayCompletedSeconds: int,  // seconds banked today
    todayTimeOffset: int,        // what a soft clear subtracts from the displayed total
    autoPaused: bool)            // the last pause came from backgrounding, not from the user

  const DefaultTotalSeconds := 60

  /** The record built with every field at its declared default. */
  function Default(): (s: State)
    ensures s.totalSeconds == DefaultTotalSeconds && s.currentMillis == 0
    ensures !s.isRunning && s.startTime == 0 && s.pausedTime == 0
    ensures s.todayCompletedSeconds == 0 && s.todayTimeOffset == 0 && !s.autoPaused
  {
    State(DefaultTotalSeconds, 0, false, 0, 0, 0, 0, false)
  }

  function TotalMillis(s: State): int {
    s.totalSeconds * 1000
  }

  /** Milliseconds of the configured duration already used up. */
  function ElapsedMillis(s: State): int {
    TotalMillis(s) - s.currentMillis
  }

  /** A session is in progress while the countdown runs or holds a paused elapsed time. */
  predicate SessionActive(s: State) {
    s.isRunning || s.pausedTime > 0
  }

  /** The numeric invariant of the engine: the remaining time lies within the configured duration. */
  predicate Valid(s: State) {
    && s.totalSeconds >= 0
    && 0 <= s.currentMillis <= TotalMillis(s)
    && s.pausedTime >= 0
  }

  /** Records compare field by field: copying a field's own value back yields an equal record. */
  lemma CopyWithSameValues(s: State)
    ensures s.(totalSeconds := s.totalSeconds, currentMillis := s.currentMillis, isRunning := s.isRunning,
               startTime := s.startTime, pausedTime := s.pausedTime) == s
  {
  }
}
