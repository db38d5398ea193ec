/**
 * The notification manager: it watches the published record and starts or stops
 * the foreground service. Only changes of the (running, paused, finished) triple
 * reach it; a flag remembers whether it believes the service is running.
 */
module Notification {
  import opened CountdownState
  import opened Wrappers

  datatype Command = StartService | StopService

  /** The triple the state stream is de-duplicated by. */
  datatype Key = Key(running: bool, paused: bool, finished: bool)

  function KeyOf(s: State): (k: Key)
    ensures k.running == s.isRunning && k.paused == (s.pausedTime > 0) && k.finished == (s.currentMillis <= 0)
  {
    Key(s.isRunning, s.pausedTime > 0, s.currentMillis <= 0)
  }

  /** The manager's state: the service flag, the last triple handled, and whether its scope was cancelled. */
  datatype Manager = Manager(serviceRunning: bool, lastKey: Option<Key>, cancelled: bool)

  /** A manager just created: no service, nothing seen yet. */
  function Initial(): Manager {
    Manager(false, None, false)
  }

  /** The flag after handling a triple, and the service command issued if any. */
  datatype Reaction = Reaction(serviceRunning: bool, command: Option<Command>)

  /** A notification is wanted while the countdown runs or is paused. */
  predicate Wanted(k: Key) {
    k.running || k.paused
  }

  /** `handleStateChange`: start the service when wanted and not running; stop it only once the countdown has finished. */
  function HandleStateChange(serviceRunning: bool, k: Key): (r: Reaction)
    ensures r.command == Some(StartService) <==> Wanted(k) && !serviceRunning
    ensures r.command == Some(StopService) <==> !Wanted(k) && serviceRunning && k.finished
    ensures r.command == None ==> r.serviceRunning == serviceRunning
    ensures r.command.Some? ==> r.serviceRunning == (r.command.value == StartService)
  {
    var wanted := k.running || k.paused;
    if wanted && !serviceRunning then Reaction(true, Some(StartService))
    else if !wanted && serviceRunning && k.finished then Reaction(false, Some(StopService))
    else Reaction(serviceRunning, None)
  }

  /** The manager after a state-stream event, and the command it issued. */
  datatype Outcome = Outcome(manager: Manager, command: Option<Command>)

  /** A newly published record: ignored after cancellation or when its triple equals the last one handled. */
  function Observe(m: Manager, s: State): (o: Outcome)
    ensures m.cancelled || m.lastKey == Some(KeyOf(s)) ==> o == Outcome(m, None)
    ensures !m.cancelled && m.lastKey != Some(KeyOf(s)) ==>
      && o.manager.lastKey == Some(KeyOf(s)) && o.manager.cancelled == m.cancelled
      && o.command == HandleStateChange(m.serviceRunning, KeyOf(s)).command
      && o.manager.serviceRunning == HandleStateChange(m.serviceRunning, KeyOf(s)).serviceRunning
  {
    var k := KeyOf(s);
    if m.cancelled || m.lastKey == Some(k) then Outcome(m, None)
    else
      var reaction := HandleStateChange(m.serviceRunning, k);
      Outcome(m.(serviceRunning := reaction.serviceRunning, lastKey := Some(k)), reaction.command)
  }

  /** `forceStopService`: stop the service if the flag says it runs, and clear the flag. */
  function ForceStop(m: Manager): (o: Outcome)
    ensures !o.manager.serviceRunning
    ensures o.command == (if m.serviceRunning then Some(StopService) else None)
    ensures o.manager.lastKey == m.lastKey && o.manager.cancelled == m.cancelled
  {
    if m.serviceRunning then Outcome(m.(serviceRunning := false), Some(StopService))
    else Outcome(m, None)
  }

  /** `onDestroy`: cancel the scope and stop a running service; the flag itself is not cleared. */
  function OnDestroy(m: Manager): (o: Outcome)
    ensures o.manager == m.(cancelled := true)
    ensures o.command == (if m.serviceRunning then Some(StopService) else None)
  {
    Outcome(m.(cancelled := true), if m.serviceRunning then Some(StopService) else None)
  }

  datatype Event = Published(s: State) | ForceStopRequested | Destroyed

  function React(m: Manager, e: Event): Outcome {
    match e
    case Published(s) => Observe(m, s)
    case ForceStopRequested => ForceStop(m)
    case Destroyed => OnDestroy(m)
  }

  /** The service commands a run of events issues, in order. */
  function Commands(m: Manager, events: seq<Event>): seq<Command>
    decreases |events|
  {
    if events == [] then []
    else
      var o := React(m, events[0]);
      (if o.command.Some? then [o.command.value] else []) + Commands(o.manager, events[1..])
  }

  /**
   * Commands in which every start comes while no earlier start is still unmatched by a stop;
   * `started` says whether the last command so far was a start.
   */
  predicate StartsSeparated(commands: seq<Command>, started: bool)
    decreases |commands|
  {
    commands == [] ||
    (match commands[0]
     case StartService => !started && StartsSeparated(commands[1..], true)
     case StopService => StartsSeparated(commands[1..], false))
  }

  /** One step issues a start only with the flag down, and leaves the flag up whenever it issues a start. */
  lemma ReactKeepsFlag(m: Manager, e: Event)
    ensures React(m, e).command == Some(StartService) ==> !m.serviceRunning && React(m, e).manager.serviceRunning
    ensures React(m, e).command.None? ==> React(m, e).manager.serviceRunning == m.serviceRunning
  {
  }

  /** No two service starts without a stop between them, from any manager whose flag reflects the last command. */
  lemma {:induction false} NoDoubleStart(m: Manager, events: seq<Event>, started: bool)
    requires started ==> m.serviceRunning
    ensures StartsSeparated(Commands(m, events), started)
    decreases |events|
  {
    if events != [] {
      var o := React(m, events[0]);
      ReactKeepsFlag(m, events[0]);
      var rest := Commands(o.manager, events[1..]);
      if o.command == Some(StartService) {
        NoDoubleStart(o.manager, events[1..], true);
        assert Commands(m, events) == [StartService] + rest;
      } else if o.command == Some(StopService) {
        NoDoubleStart(o.manager, events[1..], false);
        assert Commands(m, events) == [StopService] + rest;
      } else {
        NoDoubleStart(o.manager, events[1..], started);
        assert Commands(m, events) == rest;
      }
    }
  }

  /** From a fresh manager, starts and stops never stack two starts. */
  lemma FreshManagerNeverDoubleStarts(events: seq<Event>)
    ensures StartsSeparated(Commands(Initial(), events), false)
  {
    NoDoubleStart(Initial(), events, false);
  }
}
