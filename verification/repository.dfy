/**
 * The state store: a key-value preference file holding five fields of the record,
 * and the published value every observer sees. Saving writes the five fields and
 * then publishes the record; updating applies a function to the published record
 * and saves the result. The preference file is an abstract map.
 */
module Repository {
  import opened CountdownState
  import opened Wrappers

  /** A stored preference: the file keeps ints, longs and booleans apart. */
  datatype Pref = IntPref(i: int) | LongPref(l: int) | BoolPref(b: bool)

  type Prefs = map<string, Pref>

  /** Reading a key with the getter of another kind raises a ClassCastException. */
  datatype PrefError = ClassCast(key: string)

  const KeyTotalSeconds := "total_seconds"
  const KeyCurrentMillis := "current_millis"
  const KeyIsRunning := "is_running"
  const KeyStartTime := "start_time"
  const KeyPausedTime := "paused_time"

  function GetInt(p: Prefs, key: string, default: int): (r: Result<int, PrefError>)
    ensures key !in p ==> r == Success(default)
    ensures key in p && p[key].IntPref? ==> r == Success(p[key].i)
    ensures key in p && !p[key].IntPref? ==> r.Failure?
  {
    if key !in p then Success(default)
    else match p[key]
      case IntPref(i) => Success(i)
      case _ => Failure(ClassCast(key))
  }

  function GetLong(p: Prefs, key: string, default: int): (r: Result<int, PrefError>)
    ensures key !in p ==> r == Success(default)
    ensures key in p && p[key].LongPref? ==> r == Success(p[key].l)
    ensures key in p && !p[key].LongPref? ==> r.Failure?
  {
    if key !in p then Success(default)
    else match p[key]
      case LongPref(l) => Success(l)
      case _ => Failure(ClassCast(key))
  }

  function GetBoolean(p: Prefs, key: string, default: bool): (r: Result<bool, PrefError>)
    ensures key !in p ==> r == Success(default)
    ensures key in p && p[key].BoolPref? ==> r == Success(p[key].b)
    ensures key in p && !p[key].BoolPref? ==> r.Failure?
  {
    if key !in p then Success(default)
    else match p[key]
      case BoolPref(b) => Success(b)
      case _ => Failure(ClassCast(key))
  }

  /**
   * The record that survives a save and a load: the five stored fields, with the
   * daily total, its offset and the auto-pause flag back at their defaults.
   */
  function Persisted(s: State): (r: State)
    ensures r.totalSeconds == s.totalSeconds && r.currentMillis == s.currentMillis && r.isRunning == s.isRunning
    ensures r.startTime == s.startTime && r.pausedTime == s.pausedTime
    ensures r.todayCompletedSeconds == 0 && r.todayTimeOffset == 0 && !r.autoPaused
  {
    State(s.totalSeconds, s.currentMillis, s.isRunning, s.startTime, s.pausedTime, 0, 0, false)
  }

  /** The kind of value each stored key is read as: the duration an int, the flag a boolean, the rest longs. */
  predicate Fits(key: string, v: Pref) {
    if key == KeyTotalSeconds then v.IntPref?
    else if key == KeyIsRunning then v.BoolPref?
    else v.LongPref?
  }

  /** The stored key holds a value of another kind than it is read as. */
  predicate WrongKind(p: Prefs, key: string) {
    key in p && !Fits(key, p[key])
  }

  /**
   * `loadState`: each field read from its own key with its default; the remaining time
   * defaults to the full loaded duration. The read fails exactly when one of the five
   * keys holds a value of the wrong kind, and then names such a key.
   */
  function LoadState(p: Prefs): (r: Result<State, PrefError>)
    ensures r.Success? <==>
      && !WrongKind(p, KeyTotalSeconds) && !WrongKind(p, KeyCurrentMillis) && !WrongKind(p, KeyIsRunning)
      && !WrongKind(p, KeyStartTime) && !WrongKind(p, KeyPausedTime)
    ensures r.Failure? ==>
      r.error.key in {KeyTotalSeconds, KeyCurrentMillis, KeyIsRunning, KeyStartTime, KeyPausedTime}
      && WrongKind(p, r.error.key)
    ensures r.Success? ==>
      && GetInt(p, KeyTotalSeconds, DefaultTotalSeconds) == Success(r.value.totalSeconds)
      && GetLong(p, KeyCurrentMillis, r.value.totalSeconds * 1000) == Success(r.value.currentMillis)
      && GetBoolean(p, KeyIsRunning, false) == Success(r.value.isRunning)
      && GetLong(p, KeyStartTime, 0) == Success(r.value.startTime)
      && GetLong(p, KeyPausedTime, 0) == Success(r.value.pausedTime)
    ensures r.Success? ==> r.value == Persisted(r.value)
    ensures p == map[] ==> r == Success(Default().(currentMillis := DefaultTotalSeconds * 1000))
  {
    match GetInt(p, KeyTotalSeconds, DefaultTotalSeconds)
    case Failure(e) => Failure(e)
    case Success(totalSeconds) =>
      match GetLong(p, KeyCurrentMillis, totalSeconds * 1000)
      case Failure(e) => Failure(e)
      case Success(currentMillis) =>
        match GetBoolean(p, KeyIsRunning, false)
        case Failure(e) => Failure(e)
        case Success(isRunning) =>
          match GetLong(p, KeyStartTime, 0)
          case Failure(e) => Failure(e)
          case Success(startTime) =>
            match GetLong(p, KeyPausedTime, 0)
            case Failure(e) => Failure(e)
            case Success(pausedTime) =>
              Success(State(totalSeconds, currentMillis, isRunning, startTime, pausedTime, 0, 0, false))
  }

  /** Write the five fields of a record; every other key is left as it was. */
  function Write(p: Prefs, s: State): (q: Prefs)
    ensures q.Keys == p.Keys + {KeyTotalSeconds, KeyCurrentMillis, KeyIsRunning, KeyStartTime, KeyPausedTime}
    ensures forall k | k in p && k !in {KeyTotalSeconds, KeyCurrentMillis, KeyIsRunning, KeyStartTime, KeyPausedTime} :: q[k] == p[k]
  {
    p[KeyTotalSeconds := IntPref(s.totalSeconds)]
     [KeyCurrentMillis := LongPref(s.currentMillis)]
     [KeyIsRunning := BoolPref(s.isRunning)]
     [KeyStartTime := LongPref(s.startTime)]
     [KeyPausedTime := LongPref(s.pausedTime)]
  }

  /** The repository: the preference file and the value its state flow publishes. */
  datatype Store = Store(prefs: Prefs, published: State)

  /** Construction: the state flow starts at what the file holds, or construction fails as the read does. */
  function Open(p: Prefs): (r: Result<Store, PrefError>)
    ensures r.Success? <==> LoadState(p).Success?
    ensures r.Success? ==> r.value.prefs == p && Success(r.value.published) == LoadState(p)
  {
    match LoadState(p)
    case Failure(e) => Failure(e)
    case Success(s) => Success(Store(p, s))
  }

  /** `saveState`: persist the five fields, then publish the whole record. */
  function SaveState(store: Store, s: State): (r: Store)
    ensures r.published == s && r.prefs == Write(store.prefs, s)
    ensures LoadState(r.prefs) == Success(Persisted(s))
  {
    var q := Write(store.prefs, s);
    assert q[KeyTotalSeconds] == IntPref(s.totalSeconds);
    Store(q, s)
  }

  /** `updateState`: apply the function to the published record and save what it returns. */
  function UpdateState(store: Store, f: State -> State): (r: Store)
    ensures r.published == f(store.published) && r.prefs == Write(store.prefs, f(store.published))
    ensures LoadState(r.prefs) == Success(Persisted(f(store.published)))
  {
    SaveState(store, f(store.published))
  }

  /** The file and the published value agree on the five stored fields. */
  predicate InSync(store: Store) {
    LoadState(store.prefs) == Success(Persisted(store.published))
  }

  /** Opening a file gives a store in sync with it, and every update keeps the store in sync. */
  lemma UpdateKeepsInSync(p: Prefs, f: State -> State)
    requires Open(p).Success?
    ensures InSync(Open(p).value)
    ensures InSync(UpdateState(Open(p).value, f))
  {
  }

  /** The identity update publishes the value already published. */
  lemma UpdateIdentity(store: Store)
    ensures UpdateState(store, s => s).published == store.published
  {
  }

  /** A reopened file gives back the five fields last saved. */
  lemma SaveThenOpen(store: Store, s: State)
    ensures Open(SaveState(store, s).prefs) == Success(Store(SaveState(store, s).prefs, Persisted(s)))
  {
  }
}
