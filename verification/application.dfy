/**
 * The process lifecycle hooks of the application. `OnStop` is the record update the
 * background hook applies: a running countdown gets the user's pause, tagged as
 * automatic. Coming back to the foreground changes nothing.
 *
 * The application builds its own repository object, and the activity builds another
 * over the same preference file for the view model and the notification manager.
 * Each publishes its own record, so the hook sees the record the file held when the
 * process started, not the live one (`OnStopAsWired`). `OnStopShared` is the
 * evidently intended hook over the single repository the screen uses; the engine's
 * event model uses that one.
 */
module Application {
  import opened CountdownState
  import Engine
  import Repository
  import opened Wrappers

  /** `onStop`: auto-pause a running countdown; a stopped one is left alone. */
  function OnStop(s: State): (r: State)
    ensures !s.isRunning ==> r == s
    ensures s.isRunning ==> r == Engine.Pause(s).(autoPaused := true)
    ensures !r.isRunning
    ensures r.totalSeconds == s.totalSeconds && r.currentMillis == s.currentMillis
    ensures r.todayCompletedSeconds == s.todayCompletedSeconds && r.todayTimeOffset == s.todayTimeOffset
  {
    if s.isRunning then Engine.Suspend(s, true) else s
  }

  /** `onStart`: only logs. */
  function OnStart(s: State): (r: State)
    ensures r == s
  {
    s
  }

  /** Going to the background twice is the same as going once. */
  lemma OnStopIdempotent(s: State)
    ensures OnStop(OnStop(s)) == OnStop(s)
  {
  }

  /** Resuming after an automatic pause goes through the user's toggle and clears the flag. */
  lemma ResumeAfterAutoPause(s: State)
    requires s.isRunning && s.currentMillis > 0
    ensures OnStop(s).autoPaused
    ensures Engine.Toggle(OnStop(s)).isRunning && !Engine.Toggle(OnStop(s)).autoPaused
    ensures Engine.Toggle(OnStop(s)).pausedTime == ElapsedMillis(s)
  {
  }

  // ---------------------------------------------------------------- the two repository objects

  /**
   * The process as wired: one preference file, the record the application's repository
   * publishes, and the record the screen's repository publishes.
   */
  datatype Process = Process(prefs: Repository.Prefs, appRecord: State, screenRecord: State)

  /**
   * `onStop` as wired: it reads and updates the application's own repository. The file
   * gets the auto-paused copy of that record; the screen's record is never touched.
   */
  function OnStopAsWired(p: Process): (r: Process)
    ensures r.screenRecord == p.screenRecord
    ensures r.appRecord == OnStop(p.appRecord)
    ensures p.appRecord.isRunning ==> Repository.LoadState(r.prefs) == Success(Repository.Persisted(OnStop(p.appRecord)))
    ensures !p.appRecord.isRunning ==> r == p
  {
    if p.appRecord.isRunning then
      var store := Repository.UpdateState(Repository.Store(p.prefs, p.appRecord), OnStop);
      Process(store.prefs, store.published, p.screenRecord)
    else p
  }

  /**
   * A process launched from an empty file whose user then starts the countdown: going to
   * the background leaves the countdown the screen shows running.
   */
  lemma AutoPauseMissesLiveCountdown()
    ensures var launched := State(DefaultTotalSeconds, DefaultTotalSeconds * 1000, false, 0, 0, 0, 0, false);
            && Repository.LoadState(map[]) == Success(launched)
            && var p := Process(map[], launched, Engine.Toggle(launched));
            && p.screenRecord.isRunning
            && OnStopAsWired(p).screenRecord.isRunning
  {
  }

  /**
   * `onStop` over the one repository the screen also uses: the published record is the
   * auto-paused one, no countdown is left running, and the file holds what is published.
   */
  function OnStopShared(store: Repository.Store): (r: Repository.Store)
    ensures r.published == OnStop(store.published)
    ensures !r.published.isRunning
    ensures store.published.isRunning ==> r.published.autoPaused && Repository.InSync(r)
    ensures !store.published.isRunning ==> r == store
  {
    if store.published.isRunning then Repository.UpdateState(store, OnStop) else store
  }
}
