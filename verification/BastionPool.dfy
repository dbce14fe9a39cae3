/**
 * The shared bastion connections of a run, as a protocol of atomic steps: every section under the mutex,
 * every dial outcome, every opening of a latch or closing of a connection is one action, in any order of callers.
 */
module BastionPool {
  import opened Options

  /** The dial an entry stands for: in flight, failed, or a connection that is up or gone. */
  datatype Conn = Dialing | Failed | Open | Closed

  datatype Watch = Unwatched | Waiting | Finished

  /** A `pooled` value. Its identity is its index, and so is that of the connection it holds: neither is reused. */
  datatype Entry = Entry(
    key: string,
    owner: nat,      // the caller that dials
    conn: Conn,
    ready: bool,     // the channel `ready` has been closed: the result may be read
    watch: Watch,    // the goroutine that evicts the entry once its connection is closed
    condemned: Option<nat>) // the last caller of `broken` to take it out of service

  /** One call of `get`, and what its caller then does with the connection. */
  datatype Caller =
    | Entering(key: string)
    | Dialling(e: nat)
    | Dialled(e: nat)
    | Latching(e: nat)
    | Awaiting(e: nat)
    | Left                     // the context ended first
    | Got(e: nat, ok: bool)    // returned through the latch
    | Served(e: nat, ok: bool) // and has no further business with the pool
    | Breaking(e: nat)         // in `broken`, before the lock
    | Condemning(e: nat)       // in `broken`, unlocked again, about to close the connection
    | Broke(e: nat)
  {
    predicate OnEntry() {
      !Entering? && !Left?
    }

    predicate Settled() {
      Left? || Served? || Broke?
    }

    /** Still busy producing the result that others wait for. */
    predicate Producing() {
      Dialling? || Dialled? || Latching?
    }

    /** Returned with a connection. */
    predicate Holds() {
      ((Got? || Served?) && ok) || Breaking? || Condemning? || Broke?
    }
  }

  datatype State = State(conns: map<string, nat>, entries: seq<Entry>, callers: seq<Caller>, closed: bool)

  datatype Action =
    | Call(key: string)
    | Enter(i: nat)
    | DialEnds(i: nat, ok: bool)
    | AfterDial(i: nat)
    | OpenLatch(i: nat)
    | TakeResult(i: nat)
    | GiveUp(i: nat)
    | Leave(i: nat)
    | FindBroken(i: nat)
    | BrokenLocked(i: nat)
    | BrokenCloses(i: nat)
    | ConnectionDies(e: nat)
    | WatcherEvicts(e: nat)
    | ClosePool

  const INIT := State(map[], [], [], false)

  /** Deletes the key only if it still maps to this very value. */
  function Evicted<V(==)>(conns: map<string, V>, key: string, e: V): map<string, V> {
    if key in conns && conns[key] == e then conns - {key} else conns
  }

  /** Every index the code follows exists. */
  ghost predicate WellFormed(s: State) {
    && (forall k :: k in s.conns ==> s.conns[k] < |s.entries| && s.entries[s.conns[k]].key == k)
    && (forall i :: 0 <= i < |s.callers| && s.callers[i].OnEntry() ==> s.callers[i].e < |s.entries|)
  }

  predicate At(s: State, i: nat) {
    i < |s.callers| && s.callers[i].OnEntry() && s.callers[i].e < |s.entries|
  }

  function EntryOf(s: State, i: nat): Entry
    requires At(s, i)
  {
    s.entries[s.callers[i].e]
  }

  predicate Enabled(s: State, a: Action) {
    match a
    case Call(_) => true
    case Enter(i) => i < |s.callers| && s.callers[i].Entering?
    case DialEnds(i, _) => At(s, i) && s.callers[i].Dialling?
    case AfterDial(i) => At(s, i) && s.callers[i].Dialled?
    case OpenLatch(i) => At(s, i) && s.callers[i].Latching?
    case TakeResult(i) => At(s, i) && s.callers[i].Awaiting? && EntryOf(s, i).ready
    case GiveUp(i) => At(s, i) && s.callers[i].Awaiting?
    case Leave(i) => At(s, i) && s.callers[i].Got?
    case FindBroken(i) => At(s, i) && s.callers[i].Got? && s.callers[i].ok
    case BrokenLocked(i) => At(s, i) && s.callers[i].Breaking?
    case BrokenCloses(i) => At(s, i) && s.callers[i].Condemning?
    case ConnectionDies(e) => e < |s.entries| && s.entries[e].conn == Open
    case WatcherEvicts(e) => e < |s.entries| && s.entries[e].watch == Waiting && s.entries[e].conn == Closed
    case ClosePool => true
  }

  function Apply(s: State, a: Action): State
    requires Enabled(s, a)
  {
    match a
    case Call(key) => s.(callers := s.callers + [Entering(key)])
    case Enter(i) => Lookup(s, i)
    case DialEnds(i, ok) => Step(s, i, Dialled(s.callers[i].e), EntryOf(s, i).(conn := if ok then Open else Failed))
    case AfterDial(i) => Dispose(s, i)
    case OpenLatch(i) => Step(s, i, Awaiting(s.callers[i].e), EntryOf(s, i).(ready := true))
    case TakeResult(i) => s.(callers := s.callers[i := Got(s.callers[i].e, EntryOf(s, i).conn != Failed)])
    case GiveUp(i) => s.(callers := s.callers[i := Left])
    case Leave(i) => s.(callers := s.callers[i := Served(s.callers[i].e, s.callers[i].ok)])
    case FindBroken(i) => s.(callers := s.callers[i := Breaking(s.callers[i].e)])
    case BrokenLocked(i) =>
      Step(s, i, Condemning(s.callers[i].e), EntryOf(s, i).(condemned := Some(i)))
      .(conns := Evicted(s.conns, EntryOf(s, i).key, s.callers[i].e))
    case BrokenCloses(i) => Step(s, i, Broke(s.callers[i].e), EntryOf(s, i).(conn := Closed))
    case ConnectionDies(e) => s.(entries := s.entries[e := s.entries[e].(conn := Closed)])
    case WatcherEvicts(e) =>
      s.(entries := s.entries[e := s.entries[e].(watch := Finished)],
         conns := Evicted(s.conns, s.entries[e].key, e))
    case ClosePool =>
      s.(entries := seq(|s.entries|, e requires 0 <= e < |s.entries| => Shut(s, e)), conns := map[], closed := true)
  }

  /** Caller `i` moves on and changes the entry it is on. */
  function Step(s: State, i: nat, c: Caller, en: Entry): State
    requires At(s, i)
  {
    s.(callers := s.callers[i := c], entries := s.entries[s.callers[i].e := en])
  }

  /** The locked section of `get`: join the entry of the key, or make one and dial. */
  function Lookup(s: State, i: nat): State
    requires i < |s.callers| && s.callers[i].Entering?
  {
    var key := s.callers[i].key;
    if key in s.conns then s.(callers := s.callers[i := Awaiting(s.conns[key])])
    else
      var e := |s.entries|;
      s.(conns := s.conns[key := e],
         entries := s.entries + [Entry(key, i, Dialing, false, Unwatched, None)],
         callers := s.callers[i := Dialling(e)])
  }

  /** A failed dial is evicted before the latch opens; a connection gets its watcher. */
  function Dispose(s: State, i: nat): State
    requires At(s, i)
  {
    var e := s.callers[i].e;
    if EntryOf(s, i).conn == Failed then
      s.(callers := s.callers[i := Latching(e)], conns := Evicted(s.conns, EntryOf(s, i).key, e))
    else
      Step(s, i, Latching(e), EntryOf(s, i).(watch := Waiting))
  }

  /** `Close` closes what the map holds and is not still dialing. */
  function Shut(s: State, e: nat): Entry
    requires e < |s.entries|
  {
    var en := s.entries[e];
    if en.key in s.conns && s.conns[en.key] == e && en.ready && en.conn == Open then en.(conn := Closed) else en
  }

  /** Nothing in the pool keeps `Close` from coming early. What `Run` makes of it (module WholeRun): one `Close`,
      when every call has ended, and no call after it. */
  predicate Orderly(s: State, a: Action) {
    && Enabled(s, a)
    && (a.Call? ==> !s.closed)
    && (a == ClosePool ==> !s.closed && forall i :: 0 <= i < |s.callers| ==> s.callers[i].Settled())
  }

  /** Where a sequence of orderly actions leads. */
  function Exec(s: State, acts: seq<Action>): Option<State>
    decreases |acts|
  {
    if acts == [] then Some(s)
    else if Orderly(s, acts[0]) then Exec(Apply(s, acts[0]), acts[1..])
    else None
  }

  ghost predicate Reachable(s: State) {
    exists acts :: Exec(INIT, acts) == Some(s)
  }

  lemma {:induction false} ExecSnoc(s: State, acts: seq<Action>, t: State, a: Action)
    requires Exec(s, acts) == Some(t) && Orderly(t, a)
    ensures Exec(s, acts + [a]) == Some(Apply(t, a))
    decreases |acts|
  {
    if acts == [] {
      assert [] + [a] == [a] && [a][1..] == [];
    } else {
      ExecSnoc(Apply(s, acts[0]), acts[1..], t, a);
      assert (acts + [a])[1..] == acts[1..] + [a];
    }
  }

  lemma ReachableStep(s: State, a: Action)
    requires Reachable(s) && Orderly(s, a)
    ensures Reachable(Apply(s, a))
  {
    var acts :| Exec(INIT, acts) == Some(s);
    ExecSnoc(INIT, acts, s, a);
  }
}
