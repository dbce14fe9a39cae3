/** What the shared bastion connections keep in every interleaving of callers, connection losses and evictions. */
module BastionSafety {
  import opened Options
  import opened BastionPool
  import opened Counting

  ghost predicate Mapped(s: State, e: nat)
    requires e < |s.entries|
  {
    s.entries[e].key in s.conns && s.conns[s.entries[e].key] == e
  }

  /** Dialing, or connected and not taken out of service. */
  predicate Live(en: Entry) {
    en.conn == Dialing || (en.conn == Open && en.condemned.None?)
  }

  /** An entry on its own: what its fields may say together, and that it is in the map if it is live. */
  ghost predicate EntryOk(s: State, e: nat)
    requires e < |s.entries|
  {
    var en := s.entries[e];
    && en.owner < |s.callers|
    && (!en.ready ==> s.callers[en.owner].Producing() && s.callers[en.owner].e == e)
    && (en.conn == Dialing ==> s.callers[en.owner].Dialling?)
    && (en.ready ==> en.conn != Dialing)
    && (en.watch != Unwatched ==> en.conn == Open || en.conn == Closed)
    && (en.condemned.Some? ==> en.ready && en.conn != Failed)
    && (Live(en) ==> Mapped(s, e))
    && (en.conn == Failed && Mapped(s, e) ==> s.callers[en.owner].Dialled? && !en.ready)
  }

  /** A caller on its own: what it knows about its entry. */
  ghost predicate CallerOk(s: State, i: nat)
    requires i < |s.callers|
  {
    var c := s.callers[i];
    c.OnEntry() ==>
      && c.e < |s.entries|
      && var en := s.entries[c.e];
         && (c.Producing() ==> en.owner == i && !en.ready)
         && (c.Producing() ==> (c.Dialling? <==> en.conn == Dialing))
         && (c.Got? || c.Served? ==> en.ready && (c.ok <==> en.conn != Failed))
         && (c.Holds() ==> en.ready && en.conn != Failed)
         && (c.Condemning? || c.Broke? ==> en.condemned.Some?)
  }

  /** A connection taken out of service but still open has someone about to close it. */
  ghost predicate BeingClosed(s: State, e: nat)
    requires e < |s.entries|
  {
    var en := s.entries[e];
    en.conn == Open && en.condemned.Some? ==>
      en.condemned.value < |s.callers| && s.callers[en.condemned.value] == Condemning(e)
  }

  ghost predicate Inv(s: State) {
    && WellFormed(s)
    && (forall e :: 0 <= e < |s.entries| ==> EntryOk(s, e))
    && (forall i :: 0 <= i < |s.callers| ==> CallerOk(s, i))
    && (forall e :: 0 <= e < |s.entries| ==> BeingClosed(s, e))
    && (s.closed ==> s.conns == map[] && forall i :: 0 <= i < |s.callers| ==> s.callers[i].Settled())
  }

  /** The caller whose step an action is. */
  function Actor(a: Action): Option<nat> {
    match a
    case Call(_) => None
    case ConnectionDies(_) => None
    case WatcherEvicts(_) => None
    case ClosePool => None
    case _ => Some(a.i)
  }

  /** What the invariant says about the caller that moves and the entry it is on. */
  ghost predicate ActorOk(s: State, a: Action) {
    Actor(a).Some? ==>
      var i := Actor(a).value;
      && i < |s.callers|
      && CallerOk(s, i)
      && (At(s, i) ==> EntryOk(s, s.callers[i].e) && BeingClosed(s, s.callers[i].e))
  }

  lemma ActorFacts(s: State, a: Action)
    requires Inv(s) && Orderly(s, a)
    ensures ActorOk(s, a)
  {
  }

  /** The steps that make an entry and its result. */
  predicate Producing(a: Action) {
    a.Enter? || a.DialEnds? || a.AfterDial? || a.OpenLatch?
  }

  /** The steps that can end an entry. */
  predicate Ending(a: Action) {
    a.BrokenLocked? || a.ConnectionDies? || a.WatcherEvicts?
  }

  /** The steps that close connections. */
  predicate Closing(a: Action) {
    a.BrokenCloses? || a == ClosePool
  }

  /** The steps that touch neither an entry nor the map. */
  predicate Moving(a: Action) {
    !Producing(a) && !Ending(a) && !Closing(a)
  }

  lemma WellFormedKept(s: State, a: Action)
    requires Inv(s) && Orderly(s, a)
    ensures WellFormed(Apply(s, a))
  {
    if Producing(a) {
      WellFormedKeptByProducing(s, a);
    } else if Ending(a) {
      WellFormedKeptByEnding(s, a);
    }
  }

  lemma WellFormedKeptByProducing(s: State, a: Action)
    requires Producing(a) && Inv(s) && Orderly(s, a)
    ensures WellFormed(Apply(s, a))
  {
  }

  lemma WellFormedKeptByEnding(s: State, a: Action)
    requires Ending(a) && Inv(s) && Orderly(s, a)
    ensures WellFormed(Apply(s, a))
  {
  }

  lemma EntryKept(s: State, a: Action, e: nat)
    requires WellFormed(s) && Orderly(s, a) && ActorOk(s, a)
    requires e < |s.entries| && EntryOk(s, e) && CallerOk(s, s.entries[e].owner)
    requires a == ClosePool ==> s.callers[s.entries[e].owner].Settled()
    ensures e < |Apply(s, a).entries| && EntryOk(Apply(s, a), e)
  {
    if Producing(a) {
      EntryKeptByProducing(s, a, e);
    } else if a.BrokenLocked? {
      EntryKeptByBroken(s, a.i, e);
    } else if Ending(a) {
      EntryKeptByLoss(s, a, e);
    } else if Closing(a) {
      EntryKeptByClosing(s, a, e);
    } else {
      EntryKeptByMoving(s, a, e);
    }
  }

  lemma EntryKeptByProducing(s: State, a: Action, e: nat)
    requires Producing(a) && WellFormed(s) && Orderly(s, a) && ActorOk(s, a)
    requires e < |s.entries| && EntryOk(s, e) && CallerOk(s, s.entries[e].owner)
    ensures e < |Apply(s, a).entries| && EntryOk(Apply(s, a), e)
  {
    if a.Enter? {
      EntryKeptByEnter(s, a.i, e);
    } else if a.AfterDial? {
      EntryKeptByAfterDial(s, a.i, e);
    }
  }

  lemma EntryKeptByEnter(s: State, i: nat, e: nat)
    requires WellFormed(s) && Orderly(s, Enter(i)) && ActorOk(s, Enter(i))
    requires e < |s.entries| && EntryOk(s, e) && CallerOk(s, s.entries[e].owner)
    ensures e < |Apply(s, Enter(i)).entries| && EntryOk(Apply(s, Enter(i)), e)
  {
  }

  lemma EntryKeptByAfterDial(s: State, i: nat, e: nat)
    requires WellFormed(s) && Orderly(s, AfterDial(i)) && ActorOk(s, AfterDial(i))
    requires e < |s.entries| && EntryOk(s, e) && CallerOk(s, s.entries[e].owner)
    ensures e < |Apply(s, AfterDial(i)).entries| && EntryOk(Apply(s, AfterDial(i)), e)
  {
    if EntryOf(s, i).conn == Failed {
      EntryKeptByFailedDial(s, i, e);
    }
  }

  lemma EntryKeptByFailedDial(s: State, i: nat, e: nat)
    requires WellFormed(s) && Orderly(s, AfterDial(i)) && ActorOk(s, AfterDial(i)) && EntryOf(s, i).conn == Failed
    requires e < |s.entries| && EntryOk(s, e) && CallerOk(s, s.entries[e].owner)
    ensures e < |Apply(s, AfterDial(i)).entries| && EntryOk(Apply(s, AfterDial(i)), e)
  {
  }

  lemma EntryKeptByBroken(s: State, i: nat, e: nat)
    requires WellFormed(s) && Orderly(s, BrokenLocked(i)) && ActorOk(s, BrokenLocked(i))
    requires e < |s.entries| && EntryOk(s, e) && CallerOk(s, s.entries[e].owner)
    ensures e < |Apply(s, BrokenLocked(i)).entries| && EntryOk(Apply(s, BrokenLocked(i)), e)
  {
  }

  lemma EntryKeptByLoss(s: State, a: Action, e: nat)
    requires a.ConnectionDies? || a.WatcherEvicts?
    requires WellFormed(s) && Orderly(s, a)
    requires e < |s.entries| && EntryOk(s, e) && CallerOk(s, s.entries[e].owner)
    ensures e < |Apply(s, a).entries| && EntryOk(Apply(s, a), e)
  {
  }

  lemma EntryKeptByClosing(s: State, a: Action, e: nat)
    requires Closing(a) && WellFormed(s) && Orderly(s, a) && ActorOk(s, a)
    requires e < |s.entries| && EntryOk(s, e) && CallerOk(s, s.entries[e].owner)
    requires a == ClosePool ==> s.callers[s.entries[e].owner].Settled()
    ensures e < |Apply(s, a).entries| && EntryOk(Apply(s, a), e)
  {
  }

  lemma EntryKeptByMoving(s: State, a: Action, e: nat)
    requires Moving(a) && WellFormed(s) && Orderly(s, a) && ActorOk(s, a)
    requires e < |s.entries| && EntryOk(s, e) && CallerOk(s, s.entries[e].owner)
    ensures e < |Apply(s, a).entries| && EntryOk(Apply(s, a), e)
  {
  }

  lemma NewEntryOk(s: State, a: Action)
    requires WellFormed(s) && Orderly(s, a) && |Apply(s, a).entries| > |s.entries|
    ensures |Apply(s, a).entries| == |s.entries| + 1 && EntryOk(Apply(s, a), |s.entries|)
    ensures BeingClosed(Apply(s, a), |s.entries|)
  {
  }

  lemma BeingClosedKept(s: State, a: Action, e: nat)
    requires WellFormed(s) && Orderly(s, a) && ActorOk(s, a)
    requires e < |s.entries| && EntryOk(s, e) && BeingClosed(s, e)
    ensures e < |Apply(s, a).entries| && BeingClosed(Apply(s, a), e)
  {
    if Producing(a) {
      BeingClosedKeptByProducing(s, a, e);
    } else if Ending(a) {
      BeingClosedKeptByEnding(s, a, e);
    } else if Closing(a) {
      BeingClosedKeptByClosing(s, a, e);
    } else {
      BeingClosedKeptByMoving(s, a, e);
    }
  }

  lemma BeingClosedKeptByProducing(s: State, a: Action, e: nat)
    requires Producing(a) && WellFormed(s) && Orderly(s, a) && ActorOk(s, a)
    requires e < |s.entries| && EntryOk(s, e) && BeingClosed(s, e)
    ensures e < |Apply(s, a).entries| && BeingClosed(Apply(s, a), e)
  {
  }

  lemma BeingClosedKeptByEnding(s: State, a: Action, e: nat)
    requires Ending(a) && WellFormed(s) && Orderly(s, a) && ActorOk(s, a)
    requires e < |s.entries| && EntryOk(s, e) && BeingClosed(s, e)
    ensures e < |Apply(s, a).entries| && BeingClosed(Apply(s, a), e)
  {
  }

  lemma BeingClosedKeptByClosing(s: State, a: Action, e: nat)
    requires Closing(a) && WellFormed(s) && Orderly(s, a) && ActorOk(s, a)
    requires e < |s.entries| && EntryOk(s, e) && BeingClosed(s, e)
    ensures e < |Apply(s, a).entries| && BeingClosed(Apply(s, a), e)
  {
  }

  lemma BeingClosedKeptByMoving(s: State, a: Action, e: nat)
    requires Moving(a) && WellFormed(s) && Orderly(s, a) && ActorOk(s, a)
    requires e < |s.entries| && EntryOk(s, e) && BeingClosed(s, e)
    ensures e < |Apply(s, a).entries| && BeingClosed(Apply(s, a), e)
  {
  }

  lemma CallerKept(s: State, a: Action, i: nat)
    requires WellFormed(s) && Orderly(s, a) && ActorOk(s, a)
    requires i < |s.callers| && CallerOk(s, i)
    requires s.callers[i].OnEntry() ==> s.callers[i].e < |s.entries| && EntryOk(s, s.callers[i].e)
    ensures i < |Apply(s, a).callers| && CallerOk(Apply(s, a), i)
  {
    if Producing(a) {
      CallerKeptByProducing(s, a, i);
    } else if Ending(a) {
      CallerKeptByEnding(s, a, i);
    } else if Closing(a) {
      CallerKeptByClosing(s, a, i);
    } else {
      CallerKeptByMoving(s, a, i);
    }
  }

  lemma CallerKeptByProducing(s: State, a: Action, i: nat)
    requires Producing(a) && WellFormed(s) && Orderly(s, a) && ActorOk(s, a)
    requires i < |s.callers| && CallerOk(s, i)
    requires s.callers[i].OnEntry() ==> s.callers[i].e < |s.entries| && EntryOk(s, s.callers[i].e)
    ensures i < |Apply(s, a).callers| && CallerOk(Apply(s, a), i)
  {
    if a.Enter? {
      CallerKeptByEnter(s, a.i, i);
    } else if a.AfterDial? {
      CallerKeptByAfterDial(s, a.i, i);
    }
  }

  lemma CallerKeptByEnter(s: State, j: nat, i: nat)
    requires WellFormed(s) && Orderly(s, Enter(j)) && ActorOk(s, Enter(j))
    requires i < |s.callers| && CallerOk(s, i)
    requires s.callers[i].OnEntry() ==> s.callers[i].e < |s.entries| && EntryOk(s, s.callers[i].e)
    ensures i < |Apply(s, Enter(j)).callers| && CallerOk(Apply(s, Enter(j)), i)
  {
  }

  lemma CallerKeptByAfterDial(s: State, j: nat, i: nat)
    requires WellFormed(s) && Orderly(s, AfterDial(j)) && ActorOk(s, AfterDial(j))
    requires i < |s.callers| && CallerOk(s, i)
    requires s.callers[i].OnEntry() ==> s.callers[i].e < |s.entries| && EntryOk(s, s.callers[i].e)
    ensures i < |Apply(s, AfterDial(j)).callers| && CallerOk(Apply(s, AfterDial(j)), i)
  {
  }

  lemma CallerKeptByEnding(s: State, a: Action, i: nat)
    requires Ending(a) && WellFormed(s) && Orderly(s, a) && ActorOk(s, a)
    requires i < |s.callers| && CallerOk(s, i)
    requires s.callers[i].OnEntry() ==> s.callers[i].e < |s.entries| && EntryOk(s, s.callers[i].e)
    ensures i < |Apply(s, a).callers| && CallerOk(Apply(s, a), i)
  {
  }

  lemma CallerKeptByClosing(s: State, a: Action, i: nat)
    requires Closing(a) && WellFormed(s) && Orderly(s, a) && ActorOk(s, a)
    requires i < |s.callers| && CallerOk(s, i)
    requires s.callers[i].OnEntry() ==> s.callers[i].e < |s.entries| && EntryOk(s, s.callers[i].e)
    ensures i < |Apply(s, a).callers| && CallerOk(Apply(s, a), i)
  {
  }

  lemma CallerKeptByMoving(s: State, a: Action, i: nat)
    requires Moving(a) && WellFormed(s) && Orderly(s, a) && ActorOk(s, a)
    requires i < |s.callers| && CallerOk(s, i)
    requires s.callers[i].OnEntry() ==> s.callers[i].e < |s.entries| && EntryOk(s, s.callers[i].e)
    ensures i < |Apply(s, a).callers| && CallerOk(Apply(s, a), i)
  {
  }

  lemma NewCallerOk(s: State, a: Action)
    requires Orderly(s, a) && |Apply(s, a).callers| > |s.callers|
    ensures |Apply(s, a).callers| == |s.callers| + 1 && CallerOk(Apply(s, a), |s.callers|)
  {
  }

  lemma InvKept(s: State, a: Action)
    requires Inv(s) && Orderly(s, a)
    ensures Inv(Apply(s, a))
  {
    var t := Apply(s, a);
    ActorFacts(s, a);
    WellFormedKept(s, a);
    forall e | 0 <= e < |t.entries|
      ensures EntryOk(t, e) && BeingClosed(t, e)
    {
      if e < |s.entries| {
        assert EntryOk(s, e) && BeingClosed(s, e) && CallerOk(s, s.entries[e].owner);
        EntryKept(s, a, e);
        BeingClosedKept(s, a, e);
      } else {
        NewEntryOk(s, a);
      }
    }
    forall i | 0 <= i < |t.callers|
      ensures CallerOk(t, i)
    {
      if i < |s.callers| {
        assert CallerOk(s, i);
        assert s.callers[i].OnEntry() ==> EntryOk(s, s.callers[i].e);
        CallerKept(s, a, i);
      } else {
        NewCallerOk(s, a);
      }
    }
    ClosedKept(s, a);
  }

  lemma ClosedKept(s: State, a: Action)
    requires Inv(s) && Orderly(s, a)
    ensures Apply(s, a).closed ==>
              && Apply(s, a).conns == map[]
              && forall i :: 0 <= i < |Apply(s, a).callers| ==> Apply(s, a).callers[i].Settled()
  {
  }

  lemma {:induction false} RunKeepsInv(s: State, acts: seq<Action>, t: State)
    requires Inv(s) && Exec(s, acts) == Some(t)
    ensures Inv(t)
    decreases |acts|
  {
    if acts != [] {
      InvKept(s, acts[0]);
      RunKeepsInv(Apply(s, acts[0]), acts[1..], t);
    }
  }

  lemma ReachableInv(s: State)
    requires Reachable(s)
    ensures Inv(s)
  {
    var acts :| Exec(INIT, acts) == Some(s);
    RunKeepsInv(INIT, acts, s);
  }

  lemma SettledStays(s: State, b: Action, c: nat)
    requires Enabled(s, b) && c < |s.callers| && s.callers[c].Settled()
    ensures c < |Apply(s, b).callers| && Apply(s, b).callers[c].Settled()
  {
  }

  lemma CallersStay(s: State, b: Action)
    requires Enabled(s, b)
    ensures |Apply(s, b).callers| == |s.callers| + if b.Call? then 1 else 0
  {
  }

  lemma ClosedOnlyByClose(s: State, b: Action)
    requires Enabled(s, b) && b != ClosePool
    ensures Apply(s, b).closed == s.closed
  {
  }

  // Theorems.

  /** Per bastion, at most one connection is being made or in service; it is the one the map holds. */
  lemma SingleFlight(s: State, d: nat, e: nat)
    requires Reachable(s) && d < |s.entries| && e < |s.entries|
    requires s.entries[d].key == s.entries[e].key && Live(s.entries[d]) && Live(s.entries[e])
    ensures d == e && Mapped(s, e)
  {
    ReachableInv(s);
    assert EntryOk(s, d) && EntryOk(s, e);
  }

  /** Whoever finds an entry whose latch is open finds a connection there, never an error. */
  lemma MapHoldsConnections(s: State, key: string)
    requires Reachable(s) && key in s.conns
    ensures s.conns[key] < |s.entries|
    ensures var en := s.entries[s.conns[key]]; en.ready ==> en.conn == Open || en.conn == Closed
  {
    ReachableInv(s);
    assert EntryOk(s, s.conns[key]);
  }

  /** All callers that return through one latch return the one result of its dial. */
  lemma ResultShared(s: State, i: nat, j: nat)
    requires Reachable(s) && i < |s.callers| && j < |s.callers|
    requires (s.callers[i].Got? || s.callers[i].Served?) && (s.callers[j].Got? || s.callers[j].Served?)
    requires s.callers[i].e == s.callers[j].e
    ensures s.callers[i].ok == s.callers[j].ok
    ensures s.callers[i].e < |s.entries| && (s.callers[i].ok <==> s.entries[s.callers[i].e].conn != Failed)
  {
    ReachableInv(s);
    assert CallerOk(s, i) && CallerOk(s, j);
  }

  /** A result comes from the entry's own caller, once: no other step ends a dial and none starts it again. */
  lemma DialedOnce(s: State, a: Action, e: nat)
    requires Reachable(s) && Orderly(s, a) && e < |s.entries|
    ensures e < |Apply(s, a).entries|
    ensures var before := s.entries[e].conn;
            var after := Apply(s, a).entries[e].conn;
            && (before == Dialing && after != Dialing ==>
                  a.DialEnds? && a.i == s.entries[e].owner && after == if a.ok then Open else Failed)
            && (before != Dialing ==> after == before || (before == Open && after == Closed))
  {
    ReachableInv(s);
    ActorFacts(s, a);
    assert EntryOk(s, e);
  }

  // How many dials a bastion costs.

  function ForKey(key: string): Entry -> nat {
    (en: Entry) => if en.key == key then 1 else 0
  }

  function Mapping(s: State, key: string): nat {
    if key in s.conns then 1 else 0
  }

  /** How often the key is taken out of the map in a run. */
  function Removals(s: State, acts: seq<Action>, key: string): nat
    requires Exec(s, acts).Some?
    decreases |acts|
  {
    if acts == [] then 0
    else
      var t := Apply(s, acts[0]);
      (if key in s.conns && key !in t.conns then 1 else 0) + Removals(t, acts[1..], key)
  }

  lemma EntriesCounted(s: State, a: Action, key: string)
    requires WellFormed(s) && Orderly(s, a)
    ensures Total(Apply(s, a).entries, ForKey(key)) == Total(s.entries, ForKey(key))
            + if a.Enter? && s.callers[a.i].key == key && key !in s.conns then 1 else 0
  {
    if a.Enter? && s.callers[a.i].key !in s.conns {
      OneMoreEntry(s.entries, Apply(s, a).entries[|s.entries|], key);
    } else {
      EntriesStay(s, a);
      TotalAlike(s.entries, ForKey(key), Apply(s, a).entries, ForKey(key));
    }
  }

  lemma OneMoreEntry(entries: seq<Entry>, en: Entry, key: string)
    ensures Total(entries + [en], ForKey(key)) == Total(entries, ForKey(key)) + if en.key == key then 1 else 0
  {
    TotalConcat(entries, [en], ForKey(key));
    assert [en][1..] == [];
  }

  lemma EntriesStay(s: State, a: Action)
    requires WellFormed(s) && Orderly(s, a) && !(a.Enter? && s.callers[a.i].key !in s.conns)
    ensures |Apply(s, a).entries| == |s.entries|
    ensures forall e :: 0 <= e < |s.entries| ==> Apply(s, a).entries[e].key == s.entries[e].key
  {
  }

  lemma MappedAfter(s: State, a: Action, key: string)
    requires WellFormed(s) && Orderly(s, a)
    ensures key in Apply(s, a).conns && key !in s.conns <==> a.Enter? && s.callers[a.i].key == key && key !in s.conns
  {
  }

  /** Every dial to a bastion but the first is paid for by the loss of the connection before: however many hosts
      ask, the dials are one for each time the key left the map, and one for the entry it maps to. */
  lemma {:induction false} OneDialPerLoss(s: State, acts: seq<Action>, t: State, key: string)
    requires Inv(s) && Exec(s, acts) == Some(t)
    ensures Total(t.entries, ForKey(key)) + Mapping(s, key)
            == Total(s.entries, ForKey(key)) + Removals(s, acts, key) + Mapping(t, key)
    decreases |acts|
  {
    if acts != [] {
      InvKept(s, acts[0]);
      EntriesCounted(s, acts[0], key);
      MappedAfter(s, acts[0], key);
      OneDialPerLoss(Apply(s, acts[0]), acts[1..], t, key);
    }
  }

  /** For whole runs: dials to a bastion are at most one more than the losses of its connection. */
  lemma DialsOfARun(acts: seq<Action>, t: State, key: string)
    requires Exec(INIT, acts) == Some(t)
    ensures Total(t.entries, ForKey(key)) <= Removals(INIT, acts, key) + 1
  {
    OneDialPerLoss(INIT, acts, t, key);
  }

  /** An entry leaves the map only by its own failed dial, its own watcher, a `broken` call on its own
      connection, or the end of the run: a stale caller never removes a newer entry. */
  lemma StaleCallersSpareNewer(s: State, a: Action, key: string)
    requires Reachable(s) && Orderly(s, a) && key in s.conns
    requires key !in Apply(s, a).conns || Apply(s, a).conns[key] != s.conns[key]
    ensures s.conns[key] < |s.entries|
    ensures var e := s.conns[key];
            || (a.AfterDial? && s.callers[a.i] == Dialled(e) && s.entries[e].conn == Failed)
            || (a.WatcherEvicts? && a.e == e && s.entries[e].conn == Closed)
            || (a.BrokenLocked? && s.callers[a.i] == Breaking(e))
            || a == ClosePool
  {
    ReachableInv(s);
  }

  /** When the pool is closed every dial has ended and every latch is open. */
  lemma NothingDialingAtClose(s: State, e: nat)
    requires Reachable(s) && Orderly(s, ClosePool) && e < |s.entries|
    ensures s.entries[e].ready && s.entries[e].conn != Dialing
  {
    ReachableInv(s);
    assert EntryOk(s, e);
  }

  /** Closing the pool leaves no connection open, whatever became of each before: none leaks. */
  lemma NoneLeaks(s: State, e: nat)
    requires Reachable(s) && s.closed && e < |s.entries|
    ensures s.entries[e].conn == Closed || s.entries[e].conn == Failed
  {
    ReachableInv(s);
    assert EntryOk(s, e) && BeingClosed(s, e);
  }

  /** As long as a caller has not finished, some caller can take a step without giving up:
      in particular nobody waits for a latch that no one is going to open. */
  lemma NobodyStranded(s: State, i: nat) returns (a: Action)
    requires Reachable(s) && i < |s.callers| && !s.callers[i].Settled()
    ensures Orderly(s, a) && Actor(a).Some? && !a.GiveUp?
  {
    ReachableInv(s);
    assert CallerOk(s, i);
    match s.callers[i] {
      case Entering(_) => a := Enter(i);
      case Awaiting(e) =>
        if s.entries[e].ready {
          a := TakeResult(i);
        } else {
          assert EntryOk(s, e);
          a := Produce(s, s.entries[e].owner);
        }
      case Got(_, _) => a := Leave(i);
      case Breaking(_) => a := BrokenLocked(i);
      case Condemning(_) => a := BrokenCloses(i);
      case _ => a := Produce(s, i);
    }
  }

  lemma Produce(s: State, i: nat) returns (a: Action)
    requires At(s, i) && s.callers[i].Producing()
    ensures Orderly(s, a) && Actor(a) == Some(i) && !a.GiveUp?
  {
    a := if s.callers[i].Dialling? then DialEnds(i, true)
         else if s.callers[i].Dialled? then AfterDial(i)
         else OpenLatch(i);
  }

  // Why the end has to be orderly.

  /** Closed while a dial is in flight, the pool forgets it: the next call dials the same bastion a second time. */
  lemma EarlyCloseDialsTwice(key: string) returns (s: State, t: State)
    ensures Reachable(s) && Enabled(s, ClosePool) && !Orderly(s, ClosePool)
    ensures t == Apply(s, ClosePool) && Enabled(t, Call(key)) && Enabled(Apply(t, Call(key)), Enter(1))
    ensures var u := Apply(Apply(t, Call(key)), Enter(1));
            && |u.entries| == 2 && u.entries[0].key == u.entries[1].key == key
            && Live(u.entries[0]) && Live(u.entries[1])
  {
    var a, b := Call(key), Enter(0);
    assert Exec(INIT, []) == Some(INIT);
    ReachableStep(INIT, a);
    ReachableStep(Apply(INIT, a), b);
    s := Apply(Apply(INIT, a), b);
    t := Apply(s, ClosePool);
    assert s.callers[0] == Dialling(0);
  }
}
