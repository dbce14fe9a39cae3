/**
 * Trust on first use: concurrent handshakes share one known_hosts file, a cached reading of it that may be
 * stale, and a mutex. Only this process writes the file, and only by appending.
 */
module KnownHosts {
  import opened Options

  type Key = string

  datatype Entry = Entry(host: string, key: Key)

  type File = seq<Entry>

  // The check a reading of the file performs.

  predicate Known(view: File, host: string) {
    exists i :: 0 <= i < |view| && view[i].host == host
  }

  datatype Check = Accepts | Mismatch | Unknown

  function StrictCheck(view: File, host: string, key: Key): Check {
    if Entry(host, key) in view then Accepts else if Known(view, host) then Mismatch else Unknown
  }

  /** One handshake. `view` is how much of the file the callback it got had read. */
  datatype Session =
    | Connecting(host: string)
    | Holding(host: string, view: nat)
    | Adding(host: string, key: Key) // found unknown, waiting for the lock
    | Accepted(host: string, key: Key)
    | Rejected(host: string)

  /** `cached` is how much of the file the shared callback has read; None forces a reading. */
  datatype State = State(file: File, cached: Option<nat>, sessions: seq<Session>)

  datatype Action =
    | Connect(host: string)
    | GetCallback(i: nat, reread: bool) // whether the modification time was seen to differ
    | Present(i: nat, key: Key)
    | Add(i: nat, wrote: bool)          // whether the file could be written

  function Init(file: File): State {
    State(file, None, [])
  }

  predicate Enabled(s: State, a: Action) {
    match a
    case Connect(_) => true
    case GetCallback(i, _) => i < |s.sessions| && s.sessions[i].Connecting?
    case Present(i, _) => i < |s.sessions| && s.sessions[i].Holding? && s.sessions[i].view <= |s.file|
    case Add(i, _) => i < |s.sessions| && s.sessions[i].Adding?
  }

  function Apply(acceptNew: bool, s: State, a: Action): State
    requires Enabled(s, a)
  {
    match a
    case Connect(host) => s.(sessions := s.sessions + [Connecting(host)])
    case GetCallback(i, reread) =>
      var view := if s.cached.None? || reread then |s.file| else s.cached.value;
      s.(cached := Some(view), sessions := s.sessions[i := Holding(s.sessions[i].host, view)])
    case Present(i, key) =>
      s.(sessions := s.sessions[i := Verified(acceptNew, s.file[..s.sessions[i].view], s.sessions[i].host, key)])
    case Add(i, wrote) => Added(s, i, wrote)
  }

  /** `verifier`: the strict check, except that an unknown host may be added. */
  function Verified(acceptNew: bool, view: File, host: string, key: Key): Session {
    match StrictCheck(view, host, key)
    case Accepts => Accepted(host, key)
    case Mismatch => Rejected(host)
    case Unknown => if acceptNew then Adding(host, key) else Rejected(host)
  }

  /** `add`, all of it under the lock: a fresh reading decides whether the key is still new. */
  function Added(s: State, i: nat, wrote: bool): State
    requires Enabled(s, Add(i, wrote))
  {
    var host, key := s.sessions[i].host, s.sessions[i].key;
    var t := s.(cached := Some(|s.file|));
    match StrictCheck(s.file, host, key)
    case Accepts => t.(sessions := s.sessions[i := Accepted(host, key)])
    case Mismatch => t.(sessions := s.sessions[i := Rejected(host)])
    case Unknown =>
      if wrote then State(s.file + [Entry(host, key)], None, s.sessions[i := Accepted(host, key)])
      else t.(sessions := s.sessions[i := Rejected(host)])
  }

  function Exec(acceptNew: bool, s: State, acts: seq<Action>): Option<State>
    decreases |acts|
  {
    if acts == [] then Some(s)
    else if Enabled(s, acts[0]) then Exec(acceptNew, Apply(acceptNew, s, acts[0]), acts[1..])
    else None
  }

  ghost predicate Reachable(acceptNew: bool, initial: File, s: State) {
    exists acts :: Exec(acceptNew, Init(initial), acts) == Some(s)
  }

  // The same sections as methods of the object they belong to.

  class HostKeys {
    const acceptNew: bool
    var file: File // what is on disk
    var cached: Option<nat>

    constructor (file: File, acceptNew: bool)
      ensures this.file == file && this.acceptNew == acceptNew && cached == None
    {
      this.file := file;
      this.acceptNew := acceptNew;
      cached := None;
    }

    /** `load`, with the lock held: a reading of the file, the cached one if the file looks unchanged. */
    method Load(changed: bool) returns (view: nat)
      modifies `cached
      ensures cached == Some(view)
      ensures old(cached).None? || changed ==> view == |file|
      ensures old(cached).Some? && !changed ==> view == old(cached).value
    {
      if cached.None? || changed {
        cached := Some(|file|);
      }
      view := cached.value;
    }

    /** `add`: the step that Added takes, for a session on its own. */
    method Add(host: string, key: Key, wrote: bool) returns (r: Session)
      modifies this
      ensures var t := Added(State(old(file), old(cached), [Adding(host, key)]), 0, wrote);
              file == t.file && cached == t.cached && r == t.sessions[0]
    {
      cached := None;
      var view := Load(false);
      match StrictCheck(file[..view], host, key) {
        case Accepts => return Accepted(host, key);
        case Mismatch => return Rejected(host);
        case Unknown =>
      }
      if !wrote {
        return Rejected(host);
      }
      file := file + [Entry(host, key)];
      cached := None;
      return Accepted(host, key);
    }
  }

  // Invariants.

  /** A host appended by the run was not in the file before, so it is there once. */
  ghost predicate Appended(initial: File, file: File) {
    && initial <= file
    && forall i, j :: 0 <= i < j < |file| && |initial| <= j ==> file[i].host != file[j].host
  }

  ghost predicate SessionOk(initial: File, file: File, c: Session) {
    && (c.Holding? ==> |initial| <= c.view <= |file|)
    && (c.Accepted? ==> Entry(c.host, c.key) in file)
  }

  ghost predicate Inv(acceptNew: bool, initial: File, s: State) {
    && Appended(initial, s.file)
    && (!acceptNew ==> s.file == initial && forall i :: 0 <= i < |s.sessions| ==> !s.sessions[i].Adding?)
    && (s.cached.Some? ==> |initial| <= s.cached.value <= |s.file|)
    && (forall i :: 0 <= i < |s.sessions| ==> SessionOk(initial, s.file, s.sessions[i]))
  }

  lemma InvKept(acceptNew: bool, initial: File, s: State, a: Action)
    requires Inv(acceptNew, initial, s) && Enabled(s, a)
    ensures Inv(acceptNew, initial, Apply(acceptNew, s, a))
  {
    var t := Apply(acceptNew, s, a);
    forall i | 0 <= i < |t.sessions|
      ensures SessionOk(initial, t.file, t.sessions[i])
    {
      if i < |s.sessions| {
        assert SessionOk(initial, s.file, s.sessions[i]);
      }
    }
  }

  lemma {:induction false} RunKeepsInv(acceptNew: bool, initial: File, s: State, acts: seq<Action>, t: State)
    requires Inv(acceptNew, initial, s) && Exec(acceptNew, s, acts) == Some(t)
    ensures Inv(acceptNew, initial, t)
    decreases |acts|
  {
    if acts != [] {
      InvKept(acceptNew, initial, s, acts[0]);
      RunKeepsInv(acceptNew, initial, Apply(acceptNew, s, acts[0]), acts[1..], t);
    }
  }

  lemma ReachableInv(acceptNew: bool, initial: File, s: State)
    requires Reachable(acceptNew, initial, s)
    ensures Inv(acceptNew, initial, s)
  {
    var acts :| Exec(acceptNew, Init(initial), acts) == Some(s);
    RunKeepsInv(acceptNew, initial, Init(initial), acts, s);
  }

  // Theorems.

  /** A cached reading that has fallen behind the file does no harm: it gives the verdict of the file as it is now,
      or finds the host unknown, which is decided again on a fresh reading. */
  lemma StaleReadingsAreSafe(acceptNew: bool, initial: File, s: State, i: nat, key: Key)
    requires Reachable(acceptNew, initial, s) && i < |s.sessions| && s.sessions[i].Holding?
    ensures s.sessions[i].view <= |s.file|
    ensures var stale := StrictCheck(s.file[..s.sessions[i].view], s.sessions[i].host, key);
            stale == StrictCheck(s.file, s.sessions[i].host, key) || stale == Unknown
  {
    ReachableInv(acceptNew, initial, s);
    var host, view := s.sessions[i].host, s.file[..s.sessions[i].view];
    if Known(view, host) {
      var p :| 0 <= p < |view| && view[p].host == host;
      assert s.file[p] == view[p];
      if Entry(host, key) in s.file {
        var q :| 0 <= q < |s.file| && s.file[q] == Entry(host, key);
        assert q < |view| && view[q] == s.file[q];
      }
    }
  }

  /** The file only grows at its end, and without AcceptNew it stays as it was. */
  lemma AppendOnly(acceptNew: bool, initial: File, s: State)
    requires Reachable(acceptNew, initial, s)
    ensures initial <= s.file
    ensures !acceptNew ==> s.file == initial
  {
    ReachableInv(acceptNew, initial, s);
  }

  /** A host with an entry never gains another one. */
  lemma KnownHostsGainNoKey(acceptNew: bool, initial: File, s: State, i: nat)
    requires Reachable(acceptNew, initial, s) && i < |s.file| && Known(initial, s.file[i].host)
    ensures i < |initial|
  {
    ReachableInv(acceptNew, initial, s);
    var j :| 0 <= j < |initial| && initial[j].host == s.file[i].host;
    assert s.file[j] == initial[j];
  }

  /** For a host that was unknown, at most one key is ever recorded. */
  lemma OneKeyPerNewHost(acceptNew: bool, initial: File, s: State, i: nat, j: nat)
    requires Reachable(acceptNew, initial, s) && i < |s.file| && j < |s.file|
    requires s.file[i].host == s.file[j].host && !Known(initial, s.file[i].host)
    ensures i == j
  {
    ReachableInv(acceptNew, initial, s);
    assert forall m :: 0 <= m < |initial| ==> initial[m] == s.file[m];
  }

  /** All connections accepted for a host that was unknown presented one and the same key, the recorded one. */
  lemma SameKeyForAll(acceptNew: bool, initial: File, s: State, i: nat, j: nat)
    requires Reachable(acceptNew, initial, s) && i < |s.sessions| && j < |s.sessions|
    requires s.sessions[i].Accepted? && s.sessions[j].Accepted? && s.sessions[i].host == s.sessions[j].host
    requires !Known(initial, s.sessions[i].host)
    ensures s.sessions[i].key == s.sessions[j].key
    ensures Entry(s.sessions[i].host, s.sessions[i].key) in s.file
  {
    ReachableInv(acceptNew, initial, s);
    assert SessionOk(initial, s.file, s.sessions[i]) && SessionOk(initial, s.file, s.sessions[j]);
    var m :| 0 <= m < |s.file| && s.file[m] == Entry(s.sessions[i].host, s.sessions[i].key);
    var n :| 0 <= n < |s.file| && s.file[n] == Entry(s.sessions[j].host, s.sessions[j].key);
    OneKeyPerNewHost(acceptNew, initial, s, m, n);
  }

  /** A key accepted for a host that was known is one of those known before. */
  lemma KnownHostNeedsItsKey(acceptNew: bool, initial: File, s: State, i: nat)
    requires Reachable(acceptNew, initial, s) && i < |s.sessions| && s.sessions[i].Accepted?
    requires Known(initial, s.sessions[i].host)
    ensures Entry(s.sessions[i].host, s.sessions[i].key) in initial
  {
    ReachableInv(acceptNew, initial, s);
    assert SessionOk(initial, s.file, s.sessions[i]);
    var m :| 0 <= m < |s.file| && s.file[m] == Entry(s.sessions[i].host, s.sessions[i].key);
    KnownHostsGainNoKey(acceptNew, initial, s, m);
    assert initial[m] == s.file[m];
  }
}
