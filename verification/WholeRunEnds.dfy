/** From wherever the combined run has got to, it can return: nothing it asks of a host or of a call is impossible. */
module WholeRunEnds {
  import opened Counting
  import opened Network
  import opened WholeRun
  import HostRun
  import Report
  import HostTheorems
  import HostWitness
  import S = Scheduler
  import Safety = SchedulerSafety
  import Theorems = SchedulerTheorems
  import P = BastionPool
  import PoolSafety = BastionSafety

  ghost predicate Reaches(run: Setup, s: State, t: State) {
    exists acts :: Leads(run, s, acts, t)
  }

  lemma Stays(run: Setup, s: State)
    ensures Reaches(run, s, s)
  {
    assert Leads(run, s, [], s);
  }

  lemma StepThen(run: Setup, s: State, a: Action, t: State)
    requires Enabled(run, s, a) && Reaches(run, Apply(run, s, a), t)
    ensures Reaches(run, s, t)
  {
    var rest :| Leads(run, Apply(run, s, a), rest, t);
    assert ([a] + rest)[1..] == rest;
    assert Leads(run, s, [a] + rest, t);
  }

  lemma {:induction false} LeadsOn(run: Setup, s: State, acts: seq<Action>, t: State, u: State)
    requires Leads(run, s, acts, t) && Reaches(run, t, u)
    ensures Reaches(run, s, u)
    decreases |acts|
  {
    if acts != [] {
      LeadsOn(run, Apply(run, s, acts[0]), acts[1..], t, u);
      StepThen(run, s, acts[0], u);
    }
  }

  lemma Onwards(run: Setup, s: State, t: State, u: State)
    requires Reaches(run, s, t) && Reaches(run, t, u)
    ensures Reaches(run, s, u)
  {
    var acts :| Leads(run, s, acts, t);
    LeadsOn(run, s, acts, t, u);
  }

  lemma OneStep(run: Setup, s: State, a: Action)
    requires Inv(run, s) && Enabled(run, s, a)
    ensures Reaches(run, s, Apply(run, s, a)) && Inv(run, Apply(run, s, a))
  {
    Stays(run, Apply(run, s, a));
    StepThen(run, s, a, Apply(run, s, a));
    InvKept(run, s, a);
  }

  // Calls.

  /** How many steps a call has before it at most. */
  function Steps(c: P.Caller): nat {
    match c
    case Entering(_) => 8
    case Dialling(_) => 7
    case Dialled(_) => 6
    case Latching(_) => 5
    case Awaiting(_) => 4
    case Got(_, _) => 3
    case Breaking(_) => 2
    case Condemning(_) => 1
    case _ => 0
  }

  lemma CallerMoves(s: P.State, a: P.Action)
    requires P.Enabled(s, a) && PoolSafety.Actor(a).Some?
    ensures var i, t := PoolSafety.Actor(a).value, P.Apply(s, a);
            && i < |s.callers| == |t.callers|
            && t.callers == s.callers[i := t.callers[i]] && Steps(t.callers[i]) < Steps(s.callers[i])
  {
  }

  function Calls(s: State): nat {
    Total(s.pool.callers, Steps)
  }

  ghost predicate AllSettled(s: State) {
    forall c :: 0 <= c < |s.pool.callers| ==> s.pool.callers[c].Settled()
  }

  /** All calls in progress can return, while nothing else happens. */
  lemma {:induction false} CallsReturn(run: Setup, s: State) returns (t: State)
    requires Inv(run, s)
    ensures Reaches(run, s, t) && Inv(run, t) && AllSettled(t)
    ensures t.sched == s.sched && t.traces == s.traces
    decreases Calls(s)
  {
    t := s;
    Stays(run, s);
    if !AllSettled(s) {
      var c :| 0 <= c < |s.pool.callers| && !s.pool.callers[c].Settled();
      var a := PoolSafety.NobodyStranded(s.pool, c);
      CallerMoves(s.pool, a);
      OneStep(run, s, InPool(a));
      var u := Apply(run, s, InPool(a));
      var i := PoolSafety.Actor(a).value;
      TotalUpdate(s.pool.callers, i, u.pool.callers[i], Steps);
      t := CallsReturn(run, u);
      Onwards(run, s, u, t);
    }
  }

  // Host runs.

  /** A way for the host run to go on to its end. */
  lemma Rest(p: Plan, trace: seq<Event>) returns (events: seq<Event>, h: HostRun.HostResult)
    requires trace == [] || CanGoOn(p, trace)
    ensures trace <= events && CanGoOn(p, events) && Ends(p, events, h.status) && S.HostVerdict(h.status)
  {
    var r, connecting;
    if trace == [] {
      h, r, events := HostWitness.AllDone(p.actions);
      connecting := HostWitness.DIALED;
    } else {
      h, r, connecting, events :| HostRun.Outcome(p.actions, h, r, connecting, events) && trace <= events;
    }
    HostTheorems.HostCancelledIff(p.actions, h, r, connecting, events);
  }

  lemma PrefixGoesOn(p: Plan, events: seq<Event>, n: nat)
    requires CanGoOn(p, events) && n <= |events|
    ensures CanGoOn(p, events[..n])
  {
    var h, r, connecting, all :| HostRun.Outcome(p.actions, h, r, connecting, all) && events <= all;
    assert events[..n] <= all;
  }

  lemma {:induction false} HostGoesOn(run: Setup, s: State, i: nat, events: seq<Event>) returns (t: State)
    requires Inv(run, s) && i < |run.plans| && Running(s, i) && s.sched.cancelled
    requires s.traces[i] <= events && CanGoOn(run.plans[i], events)
    ensures Reaches(run, s, t) && Inv(run, t)
    ensures t.sched == s.sched && t.pool == s.pool && i < |t.traces| && t.traces[i] == events
    decreases |events| - |s.traces[i]|
  {
    var n := |s.traces[i]|;
    Stays(run, s);
    if n == |events| {
      t := s;
    } else {
      assert s.traces[i] + [events[n]] == events[..n + 1];
      PrefixGoesOn(run.plans[i], events, n + 1);
      var u := OneEvent(run, s, i, events[n]);
      t := HostGoesOn(run, u, i, events);
      Onwards(run, s, u, t);
    }
  }

  lemma OneEvent(run: Setup, s: State, i: nat, e: Event) returns (t: State)
    requires Inv(run, s) && i < |run.plans| && Running(s, i) && s.sched.cancelled
    requires CanGoOn(run.plans[i], s.traces[i] + [e])
    ensures Reaches(run, s, t) && Inv(run, t)
    ensures t == s.(traces := s.traces[i := s.traces[i] + [e]]) && Running(t, i)
  {
    OneStep(run, s, Acts(i, e));
    t := Apply(run, s, Acts(i, e));
  }

  lemma Cancelling(run: Setup, s: State) returns (t: State)
    requires Inv(run, s)
    ensures Reaches(run, s, t) && Inv(run, t) && t.sched.cancelled
    ensures t.pool == s.pool && t.traces == s.traces && t.sched == s.sched.(cancelled := true)
  {
    t := s;
    Stays(run, s);
    if !s.sched.cancelled {
      Safety.ReachableInv(run.Config(), s.sched);
      OneStep(run, s, Sched(S.Cancel));
      t := Apply(run, s, Sched(S.Cancel));
    }
  }

  /** A host run in progress can return. */
  lemma HostReturns(run: Setup, s: State, i: nat) returns (t: State)
    requires Inv(run, s) && i < |run.plans| && Running(s, i)
    ensures Reaches(run, s, t) && Inv(run, t)
    ensures Rank(run, t) < Rank(run, s)
  {
    var u := CallsReturn(run, s);
    var v := Cancelling(run, u);
    Onwards(run, s, u, v);
    assert TraceFits(run.plans[i], v.sched.phases[i], v.traces[i]);
    var events, h := Rest(run.plans[i], v.traces[i]);
    var w := HostGoesOn(run, v, i, events);
    Onwards(run, s, v, w);
    var a := S.HostReturns(i, h.status);
    MayReturn(run, w, i, h.status);
    OneStep(run, w, Sched(a));
    t := Apply(run, w, Sched(a));
    Onwards(run, s, w, t);
    RankAfter(run, s, w, a);
  }

  lemma MayReturn(run: Setup, s: State, i: nat, status: Report.Status)
    requires Inv(run, s) && i < |run.plans| && Running(s, i) && AllSettled(s) && s.sched.cancelled
    requires Ends(run.plans[i], s.traces[i], status) && S.HostVerdict(status)
    ensures Enabled(run, s, Sched(S.HostReturns(i, status)))
  {
    ConfigHosts(run);
    Safety.ReachableInv(run.Config(), s.sched);
  }

  // The whole.

  ghost function Rank(run: Setup, s: State): int {
    Theorems.Rank(run.Config(), s.sched)
  }

  lemma RankAfter(run: Setup, s: State, t: State, a: S.Action)
    requires Inv(run, t) && S.Enabled(run.Config(), t.sched, a)
    requires t.sched == s.sched || t.sched == s.sched.(cancelled := true)
    ensures Theorems.Rank(run.Config(), S.Apply(run.Config(), t.sched, a)) < Rank(run, s)
  {
    Safety.ReachableInv(run.Config(), t.sched);
    Theorems.StepsDown(run.Config(), t.sched, a);
  }

  lemma RankNotNegative(run: Setup, s: State)
    requires Inv(run, s)
    ensures Rank(run, s) >= 0
  {
    Safety.ReachableInv(run.Config(), s.sched);
  }

  /** The next thing the scheduler waits for can happen. */
  lemma Progress(run: Setup, s: State) returns (t: State)
    requires Inv(run, s) && s.sched.pc != S.Returned
    ensures Reaches(run, s, t) && Inv(run, t)
    ensures Rank(run, t) < Rank(run, s)
  {
    ConfigHosts(run);
    Safety.ReachableInv(run.Config(), s.sched);
    var b := Theorems.NeverStuck(run.Config(), s.sched);
    if b.HostReturns? {
      t := HostReturns(run, s, b.i);
    } else {
      var a := if b == S.ClosePool then Close else Sched(b);
      OneStep(run, s, a);
      t := Apply(run, s, a);
      RankAfter(run, s, s, b);
    }
  }

  lemma {:induction false} GoesToTheEnd(run: Setup, s: State) returns (t: State)
    requires Inv(run, s)
    ensures Reaches(run, s, t) && t.sched.pc == S.Returned
    decreases Rank(run, s)
  {
    RankNotNegative(run, s);
    if s.sched.pc == S.Returned {
      t := s;
      Stays(run, s);
    } else {
      var u := Progress(run, s);
      t := GoesToTheEnd(run, u);
      Onwards(run, s, u, t);
    }
  }

  /** From every state of every run, some continuation leads to the return of `Run`. */
  lemma RunCanReturn(run: Setup, s: State) returns (t: State)
    requires Reachable(run, s)
    ensures Reaches(run, s, t) && Reachable(run, t) && t.sched.pc == S.Returned
  {
    ReachableInv(run, s);
    t := GoesToTheEnd(run, s);
    Onwards(run, Init(run), s, t);
  }
}
