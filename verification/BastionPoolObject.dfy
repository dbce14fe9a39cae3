/**
 * The pool as the object it is. `Shows` says which state of the protocol in module BastionPool an object stands
 * for; each method carries it to the state that the protocol's step leads to.
 */
module BastionPoolObject {
  import opened Options
  import opened BastionPool

  class Client {
    var open: bool

    constructor ()
      ensures open
    {
      open := true;
    }

    method Close()
      modifies this
      ensures !open
    {
      open := false;
    }
  }

  class Pooled {
    var ready: bool
    var c: Client?

    constructor ()
      ensures !ready && c == null
    {
      ready, c := false, null;
    }

    /** What can be seen of an entry. */
    ghost predicate Agrees(en: Entry)
      reads this, c
    {
      && ready == en.ready
      && (c != null <==> en.conn == Open || en.conn == Closed)
      && (c != null ==> (c.open <==> en.conn == Open))
    }
  }

  class Pool {
    var conns: map<string, Pooled>
    ghost var made: seq<Pooled> // every entry there ever was, in the order of their making

    constructor ()
      ensures Shows(INIT)
    {
      conns, made := map[], [];
    }

    ghost function Clients(): set<Client>
      reads this`made, made
    {
      set e | e in made && e.c != null :: e.c
    }

    /** Entries and clients are told apart by identity. */
    ghost predicate Apart()
      reads this`made, made
    {
      && (forall i, j :: 0 <= i < j < |made| ==> made[i] != made[j])
      && (forall i, j :: 0 <= i < j < |made| && made[i].c != null ==> made[i].c != made[j].c)
    }

    ghost predicate SameMap(m: map<string, nat>)
      reads this
    {
      conns.Keys == m.Keys && forall k :: k in conns ==> m[k] < |made| && conns[k] == made[m[k]]
    }

    ghost predicate SameEntries(entries: seq<Entry>)
      reads this`made, made, Clients()
    {
      && |made| == |entries|
      && Apart()
      && forall i :: 0 <= i < |made| ==> made[i].Agrees(entries[i])
    }

    /** The object stands for this state: entry by entry, the mapped ones under their keys. */
    ghost predicate Shows(s: State)
      reads this, made, Clients()
    {
      SameEntries(s.entries) && SameMap(s.conns)
    }

    /** Entries that differ in nothing that can be seen. */
    lemma SeenAlike(entries: seq<Entry>, others: seq<Entry>)
      requires SameEntries(entries) && |others| == |entries|
      requires forall i :: 0 <= i < |entries| ==> others[i].ready == entries[i].ready && others[i].conn == entries[i].conn
      ensures SameEntries(others)
    {
    }

    method Unmap(key: string, ghost m: map<string, nat>)
      requires SameMap(m) && key in conns
      modifies this`conns
      ensures conns == old(conns) - {key} && SameMap(m - {key})
    {
      conns := conns - {key};
    }

    /** The locked section of `get`, for caller `i`: it joins the entry of its bastion or makes the one others join. */
    method Lookup(key: string, ghost s: State, ghost i: nat) returns (e: Pooled, joined: bool)
      requires Shows(s) && Enabled(s, Enter(i)) && s.callers[i].key == key
      modifies this
      ensures Shows(Apply(s, Enter(i)))
      ensures var c := Apply(s, Enter(i)).callers[i];
              c.e < |made| && e == made[c.e] && (joined <==> c.Awaiting?)
    {
      if key in conns {
        return conns[key], true;
      }
      e := Make(key, s.conns, s.entries, i);
      joined := false;
    }

    method Make(key: string, ghost m: map<string, nat>, ghost entries: seq<Entry>, ghost i: nat) returns (e: Pooled)
      requires SameEntries(entries) && SameMap(m) && key !in conns
      modifies this
      ensures SameEntries(entries + [Entry(key, i, Dialing, false, Unwatched, None)]) && SameMap(m[key := |entries|])
      ensures e == made[|entries|]
    {
      e := new Pooled();
      conns := conns[key := e];
      made := made + [e];
    }

    /** The dial of caller `i` is over; a connection is one that no other entry has. */
    method SetResult(e: Pooled, c: Client?, ghost s: State, ghost i: nat)
      requires Shows(s) && Enabled(s, DialEnds(i, c != null)) && s.callers[i].e < |made| && made[s.callers[i].e] == e
      requires c != null ==> c.open && c !in Clients()
      requires s.entries[s.callers[i].e].conn == Dialing
      modifies e
      ensures Shows(Apply(s, DialEnds(i, c != null)))
    {
      e.c := c;
    }

    method OpenLatch(e: Pooled, ghost s: State, ghost i: nat)
      requires Shows(s) && Enabled(s, Action.OpenLatch(i)) && s.callers[i].e < |made| && made[s.callers[i].e] == e
      modifies e
      ensures Shows(Apply(s, Action.OpenLatch(i)))
    {
      e.ready := true;
    }

    /** For the caller whose dial failed, and for the watcher of a connection that closed. */
    method Evict(key: string, e: Pooled, ghost s: State, ghost a: Action, ghost x: nat)
      requires Shows(s) && Enabled(s, a) && x < |made| && made[x] == e && s.entries[x].key == key
      requires a == WatcherEvicts(x) || (a.AfterDial? && s.callers[a.i].e == x && s.entries[x].conn == Failed)
      modifies this`conns
      ensures Shows(Apply(s, a))
    {
      EvictsOne(s, a, x);
      SeenAlike(s.entries, Apply(s, a).entries);
      if key in conns && conns[key] == e {
        Unmap(key, s.conns);
      }
    }

    /** The locked section of `broken`. */
    method Condemn(key: string, c: Client, ghost s: State, ghost i: nat)
      requires Shows(s) && Enabled(s, BrokenLocked(i)) && EntryOf(s, i).key == key
      requires s.callers[i].e < |made| && made[s.callers[i].e].c == c
      modifies this`conns
      ensures Shows(Apply(s, BrokenLocked(i)))
    {
      SeenAlike(s.entries, Apply(s, BrokenLocked(i)).entries);
      if key in conns && conns[key].c == c {
        Unmap(key, s.conns);
      }
    }

    /** What `broken` does after unlocking; others may have come in between. */
    method CloseCondemned(c: Client, ghost s: State, ghost i: nat)
      requires Shows(s) && Enabled(s, BrokenCloses(i))
      requires s.callers[i].e < |made| && made[s.callers[i].e].c == c
      modifies c
      ensures Shows(Apply(s, BrokenCloses(i)))
    {
      c.Close();
    }

    /** Caller `i` reports its connection: under the lock it leaves the map, unless another has its place; then it
        is closed. A tunnel that was only refused changes nothing, and the caller leaves. */
    method Broken(key: string, c: Client, refused: bool, ghost s: State, ghost i: nat)
      requires Shows(s) && (if refused then Enabled(s, Leave(i)) else Enabled(s, BrokenLocked(i)))
      requires EntryOf(s, i).key == key && s.callers[i].e < |made| && made[s.callers[i].e].c == c
      modifies this`conns, c
      ensures refused ==> Shows(Apply(s, Leave(i)))
      ensures !refused ==>
                && Enabled(Apply(s, BrokenLocked(i)), BrokenCloses(i))
                && Shows(Apply(Apply(s, BrokenLocked(i)), BrokenCloses(i)))
    {
      if !refused {
        Condemn(key, c, s, i);
        CloseCondemned(c, Apply(s, BrokenLocked(i)), i);
      }
    }

    /** One entry of the map: a connection behind an open latch is closed, an entry still dialing only dropped. */
    method CloseOne(key: string, ghost s: State)
      requires Shows(s) && key in conns && s.conns[key] < |s.entries| && s.entries[s.conns[key]].key == key
      modifies this`conns, Clients()
      ensures Shows(ClosedOne(s, key))
      ensures conns == old(conns) - {key} && Clients() == old(Clients())
    {
      ghost var x := s.conns[key];
      ShutOne(conns[key], s, x);
      Unmap(key, s.conns);
      assert SameEntries(s.entries[x := Shut(s, x)]);
    }

    method ShutOne(e: Pooled, ghost s: State, ghost x: nat)
      requires Shows(s) && x < |made| && made[x] == e && s.entries[x].key in s.conns && s.conns[s.entries[x].key] == x
      modifies Clients()
      ensures SameEntries(s.entries[x := Shut(s, x)]) && SameMap(s.conns) && Clients() == old(Clients())
    {
      if e.ready && e.c != null {
        e.c.Close();
      }
    }

    /** All of them, in whatever order the map yields. */
    method Close(ghost s: State)
      requires Shows(s) && WellFormed(s)
      modifies this`conns, Clients()
      ensures Shows(Apply(s, ClosePool))
    {
      ghost var t := s;
      while conns != map[]
        invariant Shows(t) && HalfClosed(s, t) && Clients() == old(Clients())
        decreases conns.Keys
      {
        var k :| k in conns;
        CloseOne(k, t);
        OneMoreClosed(s, t, k);
        t := ClosedOne(t, k);
      }
      AllClosed(s, t);
    }
  }

  lemma EvictsOne(s: State, a: Action, x: nat)
    requires Enabled(s, a) && x < |s.entries|
    requires a == WatcherEvicts(x) || (a.AfterDial? && s.callers[a.i].e == x && s.entries[x].conn == Failed)
    ensures Apply(s, a).conns == Evicted(s.conns, s.entries[x].key, x)
    ensures var others := Apply(s, a).entries;
            && |others| == |s.entries|
            && forall e :: 0 <= e < |others| ==> others[e].ready == s.entries[e].ready && others[e].conn == s.entries[e].conn
  {
  }

  ghost function ClosedOne(s: State, key: string): State
    requires key in s.conns && s.conns[key] < |s.entries|
  {
    var e := s.conns[key];
    s.(entries := s.entries[e := Shut(s, e)], conns := s.conns - {key})
  }

  /** `Close` is under way: what has left the map is shut, the rest is as it was. */
  ghost predicate HalfClosed(s: State, t: State) {
    && |t.entries| == |s.entries| && t.callers == s.callers
    && t.conns.Keys <= s.conns.Keys && (forall k :: k in t.conns ==> t.conns[k] == s.conns[k])
    && WellFormed(t)
    && forall e :: 0 <= e < |s.entries| ==>
         t.entries[e] == if s.entries[e].key in t.conns then s.entries[e] else Shut(s, e)
  }

  lemma OneMoreClosed(s: State, t: State, key: string)
    requires WellFormed(s) && HalfClosed(s, t) && key in t.conns
    ensures HalfClosed(s, ClosedOne(t, key))
  {
    var u := ClosedOne(t, key);
    forall e | 0 <= e < |s.entries|
      ensures u.entries[e] == if s.entries[e].key in u.conns then s.entries[e] else Shut(s, e)
    {
      assert s.entries[e].key == key && e != s.conns[key] ==> Shut(s, e) == s.entries[e];
    }
  }

  lemma AllClosed(s: State, t: State)
    requires WellFormed(s) && HalfClosed(s, t) && t.conns == map[]
    ensures t.entries == Apply(s, ClosePool).entries && t.conns == Apply(s, ClosePool).conns
  {
  }
}
