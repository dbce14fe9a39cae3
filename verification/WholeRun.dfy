/**
 * `Run` with everything it starts: the scheduler, the host runs, and the bastion pool they share. A host run
 * calls the pool and returns when its calls have; the pool is closed where `Run` defers it, with no guard of its own.
 */
module WholeRun {
  import opened Options
  import opened Domain
  import opened Network
  import Report
  import HostSteps
  import HostRun
  import S = Scheduler
  import Safety = SchedulerSafety
  import Theorems = SchedulerTheorems
  import P = BastionPool
  import PoolSafety = BastionSafety

  datatype Plan = Plan(host: string, actions: seq<HostSteps.Action>)

  datatype Setup = Setup(plans: seq<Plan>, concurrency: int, maxFailures: int) {
    function Config(): S.Config {
      S.Config(seq(|plans|, i requires 0 <= i < |plans| => plans[i].host), concurrency, maxFailures)
    }
  }

  /** `hostOf` is the plan whose host run made each call of the pool; `traces` is what each host run has done. */
  datatype State = State(sched: S.State, pool: P.State, hostOf: seq<nat>, traces: seq<seq<Event>>)

  datatype Action =
    | Sched(a: S.Action)             // the dispatcher, a goroutine, or the user who cancels
    | Acts(i: nat, e: Event)         // host run `i` dials, runs a command or hangs up
    | CallPool(i: nat, key: string)  // host run `i` calls the pool
    | InPool(b: P.Action)            // a call goes on, a connection dies, a watcher evicts
    | Close                          // the deferred Close of the pool, on the way out of `Run`

  function Init(run: Setup): State {
    State(S.Init(run.Config()), P.INIT, [], seq(|run.plans|, _ => []))
  }

  ghost predicate Running(s: State, i: nat) {
    i < |s.sched.phases| && i < |s.traces| && s.sched.phases[i] == S.Running
  }

  /** Every call that host run `i` made has returned. */
  ghost predicate CallsOver(s: State, i: nat) {
    |s.hostOf| == |s.pool.callers| && forall c :: 0 <= c < |s.hostOf| && s.hostOf[c] == i ==> s.pool.callers[c].Settled()
  }

  /** `RunHost` can end a host run that did this with that status. */
  ghost predicate Ends(p: Plan, trace: seq<Event>, status: Report.Status) {
    exists h, r, connecting :: HostRun.Outcome(p.actions, h, r, connecting, trace) && h.status == status
  }

  /** A host run can have done this so far: some way `RunHost` can end begins with it. */
  ghost predicate CanGoOn(p: Plan, trace: seq<Event>) {
    exists h, r, connecting, events :: HostRun.Outcome(p.actions, h, r, connecting, events) && trace <= events
  }

  /** Something ended because the run was cancelled. */
  predicate Reveals(e: Event) {
    (e.Ran? && e.reply.err == Some(Cancelled)) || e == DialFailed(Cancelled)
  }

  ghost predicate Enabled(run: Setup, s: State, a: Action) {
    match a
    case Sched(b) =>
      && b != S.ClosePool && S.Enabled(run.Config(), s.sched, b)
      && (b.HostReturns? ==>
            && b.i < |run.plans| && b.i < |s.traces|
            && CallsOver(s, b.i) && Ends(run.plans[b.i], s.traces[b.i], b.status)
            && (b.status == Report.Cancelled ==> s.sched.cancelled))
    case Acts(i, e) =>
      && Running(s, i) && i < |run.plans|
      && CanGoOn(run.plans[i], s.traces[i] + [e])
      && (Reveals(e) ==> s.sched.cancelled)
    case CallPool(i, _) => Running(s, i)
    case InPool(b) => !b.Call? && b != P.ClosePool && P.Enabled(s.pool, b)
    case Close => S.Enabled(run.Config(), s.sched, S.ClosePool)
  }

  ghost function Apply(run: Setup, s: State, a: Action): State
    requires Enabled(run, s, a)
  {
    match a
    case Sched(b) => s.(sched := S.Apply(run.Config(), s.sched, b))
    case Acts(i, e) => s.(traces := s.traces[i := s.traces[i] + [e]])
    case CallPool(i, key) => s.(pool := P.Apply(s.pool, P.Call(key)), hostOf := s.hostOf + [i])
    case InPool(b) => s.(pool := P.Apply(s.pool, b))
    case Close => s.(sched := S.Apply(run.Config(), s.sched, S.ClosePool), pool := P.Apply(s.pool, P.ClosePool))
  }

  ghost predicate Leads(run: Setup, s: State, acts: seq<Action>, t: State)
    decreases |acts|
  {
    if acts == [] then s == t
    else Enabled(run, s, acts[0]) && Leads(run, Apply(run, s, acts[0]), acts[1..], t)
  }

  ghost predicate Reachable(run: Setup, s: State) {
    exists acts :: Leads(run, Init(run), acts, s)
  }

  // Invariant.

  /** A call that has not returned belongs to a host run that has not either. */
  ghost predicate CallsHaveHosts(s: State) {
    && |s.hostOf| == |s.pool.callers|
    && forall c :: 0 <= c < |s.hostOf| && !s.pool.callers[c].Settled() ==> Running(s, s.hostOf[c])
  }

  /** What a plan's trace amounts to. */
  ghost predicate TraceFits(p: Plan, ph: S.Phase, trace: seq<Event>) {
    match ph
    case Idle => trace == []
    case Running => trace == [] || CanGoOn(p, trace)
    case Ending(_, status, launched) => if launched then Ends(p, trace, status) else trace == []
  }

  ghost predicate TracesFit(run: Setup, s: State) {
    && |s.traces| == |s.sched.phases| == |run.plans|
    && forall i :: 0 <= i < |run.plans| ==> TraceFits(run.plans[i], s.sched.phases[i], s.traces[i])
  }

  /** No host is CANCELLED unless the run is. */
  ghost predicate CancelFits(s: S.State) {
    forall i :: 0 <= i < |s.phases| && s.phases[i].Ending? && s.phases[i].status == Report.Cancelled ==> s.cancelled
  }

  ghost predicate Linked(run: Setup, s: State) {
    && CallsHaveHosts(s)
    && TracesFit(run, s)
    && CancelFits(s.sched)
    && (s.pool.closed <==> s.sched.pc == S.Returned)
  }

  ghost predicate Inv(run: Setup, s: State) {
    S.Reachable(run.Config(), s.sched) && P.Reachable(s.pool) && Linked(run, s)
  }

  lemma ConfigHosts(run: Setup)
    ensures |run.Config().hosts| == |run.plans|
    ensures forall i :: 0 <= i < |run.plans| ==> run.Config().hosts[i] == run.plans[i].host
  {
  }

  /** No host run is left when the pool is closed: this is what wg.Wait is for. */
  lemma NoneRunningAtClose(run: Setup, s: State, i: nat)
    requires Inv(run, s) && (s.sched.pc == S.Closing || s.sched.pc == S.Returned)
    ensures !Running(s, i)
  {
    ConfigHosts(run);
    if i < |s.sched.phases| {
      Safety.ReachableInv(run.Config(), s.sched);
      Theorems.QuietAfterJoin(run.Config(), s.sched, i);
    }
  }

  /** So the deferred Close finds every call returned. */
  lemma CloseIsOrderly(run: Setup, s: State)
    requires Inv(run, s) && Enabled(run, s, Close)
    ensures P.Orderly(s.pool, P.ClosePool)
  {
    forall c | 0 <= c < |s.pool.callers|
      ensures s.pool.callers[c].Settled()
    {
      NoneRunningAtClose(run, s, s.hostOf[c]);
    }
  }

  lemma CallIsOrderly(run: Setup, s: State, i: nat, key: string)
    requires Inv(run, s) && Enabled(run, s, CallPool(i, key))
    ensures P.Orderly(s.pool, P.Call(key))
  {
    if s.sched.pc == S.Returned {
      NoneRunningAtClose(run, s, i);
    }
  }

  /** The pool is only ever used as its own theorems suppose. */
  lemma PoolStaysReachable(run: Setup, s: State, a: Action)
    requires Inv(run, s) && Enabled(run, s, a)
    ensures P.Reachable(Apply(run, s, a).pool)
  {
    match a {
      case CallPool(i, key) =>
        CallIsOrderly(run, s, i, key);
        P.ReachableStep(s.pool, P.Call(key));
      case InPool(b) =>
        P.ReachableStep(s.pool, b);
      case Close =>
        CloseIsOrderly(run, s);
        P.ReachableStep(s.pool, P.ClosePool);
      case _ =>
    }
  }

  lemma SchedStaysReachable(run: Setup, s: State, a: Action)
    requires Inv(run, s) && Enabled(run, s, a)
    ensures S.Reachable(run.Config(), Apply(run, s, a).sched)
  {
    match a {
      case Sched(b) => S.ReachableStep(run.Config(), s.sched, b);
      case Close => S.ReachableStep(run.Config(), s.sched, S.ClosePool);
      case _ =>
    }
  }

  lemma CallsKept(run: Setup, s: State, a: Action)
    requires Inv(run, s) && Enabled(run, s, a)
    ensures CallsHaveHosts(Apply(run, s, a))
  {
    var t := Apply(run, s, a);
    match a {
      case Sched(b) => CallsKeptBySched(run, s, b);
      case InPool(b) =>
        PoolSafety.CallersStay(s.pool, b);
        forall c | 0 <= c < |t.hostOf| && !t.pool.callers[c].Settled()
          ensures Running(t, t.hostOf[c])
        {
          if s.pool.callers[c].Settled() {
            PoolSafety.SettledStays(s.pool, b, c);
          }
        }
      case CallPool(i, key) =>
      case Acts(i, e) =>
      case Close =>
        CloseIsOrderly(run, s);
    }
  }

  lemma CallsKeptBySched(run: Setup, s: State, b: S.Action)
    requires Inv(run, s) && Enabled(run, s, Sched(b))
    ensures CallsHaveHosts(Apply(run, s, Sched(b)))
  {
    var t := Apply(run, s, Sched(b));
    Safety.ReachableInv(run.Config(), s.sched);
    forall c | 0 <= c < |t.hostOf| && !t.pool.callers[c].Settled()
      ensures Running(t, t.hostOf[c])
    {
      Safety.RunningStays(run.Config(), s.sched, b, s.hostOf[c]);
    }
  }

  /** The step of the scheduler in an action, if there is one. */
  function SchedStep(a: Action): Option<S.Action> {
    match a
    case Sched(b) => Some(b)
    case Close => Some(S.ClosePool)
    case _ => None
  }

  lemma TraceKept(run: Setup, s: State, a: Action, i: nat)
    requires Safety.Shape(run.Config(), s.sched) && TracesFit(run, s) && Enabled(run, s, a) && i < |run.plans|
    ensures i < |Apply(run, s, a).sched.phases| && i < |Apply(run, s, a).traces|
    ensures TraceFits(run.plans[i], Apply(run, s, a).sched.phases[i], Apply(run, s, a).traces[i])
  {
    assert TraceFits(run.plans[i], s.sched.phases[i], s.traces[i]);
    if SchedStep(a).Some? {
      Safety.PhaseMoves(run.Config(), s.sched, SchedStep(a).value, i);
    }
  }

  lemma TracesKept(run: Setup, s: State, a: Action)
    requires Inv(run, s) && Enabled(run, s, a)
    ensures TracesFit(run, Apply(run, s, a))
  {
    Safety.ReachableInv(run.Config(), s.sched);
    if SchedStep(a).Some? {
      Safety.PhaseCountStays(run.Config(), s.sched, SchedStep(a).value);
    }
    forall i | 0 <= i < |run.plans|
      ensures TraceFits(run.plans[i], Apply(run, s, a).sched.phases[i], Apply(run, s, a).traces[i])
    {
      TraceKept(run, s, a, i);
    }
  }

  lemma InvKept(run: Setup, s: State, a: Action)
    requires Inv(run, s) && Enabled(run, s, a)
    ensures Inv(run, Apply(run, s, a))
  {
    SchedStaysReachable(run, s, a);
    PoolStaysReachable(run, s, a);
    CallsKept(run, s, a);
    TracesKept(run, s, a);
    CancelKept(run, s, a);
    ClosedKept(run, s, a);
  }

  lemma CancelKept(run: Setup, s: State, a: Action)
    requires Inv(run, s) && Enabled(run, s, a)
    ensures CancelFits(Apply(run, s, a).sched)
  {
    if SchedStep(a).Some? {
      Safety.ReachableInv(run.Config(), s.sched);
      var b, t := SchedStep(a).value, Apply(run, s, a).sched;
      Safety.PhaseCountStays(run.Config(), s.sched, b);
      Safety.CancelStays(run.Config(), s.sched, b);
      forall i | 0 <= i < |t.phases| && t.phases[i].Ending? && t.phases[i].status == Report.Cancelled
        ensures t.cancelled
      {
        Safety.CancelledPhase(run.Config(), s.sched, b, i);
      }
    }
  }

  lemma ClosedKept(run: Setup, s: State, a: Action)
    requires Inv(run, s) && Enabled(run, s, a)
    ensures var t := Apply(run, s, a); t.pool.closed <==> t.sched.pc == S.Returned
  {
    match a {
      case Sched(b) => Safety.ReturnedOnlyByClosing(run.Config(), s.sched, b);
      case InPool(b) => PoolSafety.ClosedOnlyByClose(s.pool, b);
      case CallPool(_, key) => PoolSafety.ClosedOnlyByClose(s.pool, P.Call(key));
      case _ =>
    }
  }

  lemma {:induction false} RunKeepsInv(run: Setup, s: State, acts: seq<Action>, t: State)
    requires Inv(run, s) && Leads(run, s, acts, t)
    ensures Inv(run, t)
    decreases |acts|
  {
    if acts != [] {
      InvKept(run, s, acts[0]);
      RunKeepsInv(run, Apply(run, s, acts[0]), acts[1..], t);
    }
  }

  lemma ReachableInv(run: Setup, s: State)
    requires Reachable(run, s)
    ensures Inv(run, s)
  {
    var acts :| Leads(run, Init(run), acts, s);
    assert S.Exec(run.Config(), S.Init(run.Config()), []) == Some(S.Init(run.Config()));
    assert P.Exec(P.INIT, []) == Some(P.INIT);
    ConfigHosts(run);
    RunKeepsInv(run, Init(run), acts, s);
  }

  // Theorems.

  /** In every run, each part only goes where its own module says it can: what is proved there holds here. */
  lemma PartsAreReachable(run: Setup, s: State)
    requires Reachable(run, s)
    ensures S.Reachable(run.Config(), s.sched) && P.Reachable(s.pool)
  {
    ReachableInv(run, s);
  }

  /** The deferred Close never meets a dial: every call has returned before it, because wg.Wait has. */
  lemma NothingDialingAtClose(run: Setup, s: State, e: nat)
    requires Reachable(run, s) && Enabled(run, s, Close) && e < |s.pool.entries|
    ensures s.pool.entries[e].ready && s.pool.entries[e].conn != P.Dialing
    ensures forall c :: 0 <= c < |s.pool.callers| ==> s.pool.callers[c].Settled()
  {
    ReachableInv(run, s);
    CloseIsOrderly(run, s);
    PoolSafety.NothingDialingAtClose(s.pool, e);
  }

  /** When `Run` returns, every bastion connection it ever made is closed. */
  lemma BastionsClosed(run: Setup, s: State, e: nat)
    requires Reachable(run, s) && s.sched.pc == S.Returned && e < |s.pool.entries|
    ensures s.pool.entries[e].conn == P.Closed || s.pool.entries[e].conn == P.Failed
  {
    ReachableInv(run, s);
    PoolSafety.NoneLeaks(s.pool, e);
  }

  /** And so is every connection to a target: each host run hung up what it had dialed, and had one at a time. */
  lemma TargetsClosed(run: Setup, s: State, i: nat)
    requires Reachable(run, s) && s.sched.pc == S.Returned && i < |run.plans|
    ensures i < |s.traces| && HeldAfter(s.traces[i]) == Nobody
    ensures forall j :: 0 <= j < |s.traces[i]| && s.traces[i][j].Dialed? ==>
                          exists k :: j < k < |s.traces[i]| && s.traces[i][k] == HungUp(s.traces[i][j].client)
  {
    ReachableInv(run, s);
    ConfigHosts(run);
    Theorems.QuietAfterJoin(run.Config(), s.sched, i);
    assert TraceFits(run.plans[i], s.sched.phases[i], s.traces[i]);
    forall j | 0 <= j < |s.traces[i]| && s.traces[i][j].Dialed?
      ensures exists k :: j < k < |s.traces[i]| && s.traces[i][k] == HungUp(s.traces[i][j].client)
    {
      var k := HungUpLater(s.traces[i], j);
    }
  }

  /** The report: each result is the one a run of that host's steps came to, or of a host that was never started. */
  lemma ResultsAreHostRuns(run: Setup, s: State, i: nat)
    requires Reachable(run, s) && s.sched.pc == S.Returned && i < |run.plans|
    ensures i < |s.sched.results| && i < |s.traces| && s.sched.results[i].host == run.plans[i].host
    ensures var status := s.sched.results[i].status;
            || Ends(run.plans[i], s.traces[i], status)
            || ((status == Report.Cancelled || status == Report.Skipped) && s.traces[i] == [])
  {
    ReachableInv(run, s);
    ConfigHosts(run);
    Theorems.ResultOfPhase(run.Config(), s.sched, i);
    assert TraceFits(run.plans[i], s.sched.phases[i], s.traces[i]);
  }

  /** A run that was never cancelled reports no host as CANCELLED. */
  lemma NoneCancelledUnlessTheRunIs(run: Setup, s: State, i: nat)
    requires Reachable(run, s) && s.sched.pc == S.Returned && i < |run.plans| && !s.sched.cancelled
    ensures i < |s.sched.results| && s.sched.results[i].status != Report.Cancelled
  {
    ReachableInv(run, s);
    ConfigHosts(run);
    Theorems.ResultOfPhase(run.Config(), s.sched, i);
  }
}
