/** What every reachable state of the scheduler keeps, in whatever order its steps interleave. */
module SchedulerSafety {
  import opened Options
  import opened Counting
  import opened Report
  import opened Scheduler

  // Weights: what one phase adds to each shared counter.

  function HoldsSlot(p: Phase): nat {
    if p.Launched() && !p.Past(Freed) then 1 else 0
  }

  function OnWaitGroup(p: Phase): nat {
    if p.Launched() && !p.Past(Over) then 1 else 0
  }

  function FailureCounted(p: Phase): nat {
    if p.Past(Counted) && p.status == Failed then 1 else 0
  }

  function DoneCounted(p: Phase): nat {
    if p.Past(Tallied) then 1 else 0
  }

  function CallMade(p: Phase): nat {
    if p.Past(Announced) then 1 else 0
  }

  /** Started, and able to add to `failed` yet. */
  function MayStillFail(p: Phase): nat {
    if p.Launched() && !p.Past(Counted) then 1 else 0
  }

  // Invariants.

  predicate InBody(pc: Pc) {
    pc == Check || pc == Start || pc == Drop || pc == Inline
  }

  predicate AfterLoop(pc: Pc) {
    pc == Join || pc == Totals || pc == Closing || pc == Returned
  }

  /** Each index is in the hands its position relative to the loop index allows. */
  ghost predicate Shape(cfg: Config, s: State) {
    var n := |cfg.hosts|;
    && |s.phases| == |s.results| == n
    && s.next <= n
    && (InBody(s.pc) ==> s.next < n)
    && (AfterLoop(s.pc) ==> s.next == n)
    && (forall i :: 0 <= i < s.next ==> s.phases[i].Launched() || s.phases[i].Past(Announced))
    && (forall i :: s.next < i < n ==> s.phases[i] == Idle)
    && (s.next < n ==> if s.pc == Inline then s.phases[s.next].Ending? && !s.phases[s.next].launched
                       else s.phases[s.next] == Idle)
    && (forall i :: 0 <= i < n && s.phases[i].Ending? ==> Verdict(s.phases[i]))
  }

  predicate Verdict(p: Phase)
    requires p.Ending?
  {
    if p.launched then HostVerdict(p.status)
    else (p.status == Cancelled || p.status == Skipped) && !p.Past(Freed)
  }

  /** Every token in the semaphore is held by a started host or by the dispatcher. */
  ghost predicate SlotsCounted(cfg: Config, s: State) {
    && s.slots == Total(s.phases, HoldsSlot) + (if s.pc == Check || s.pc == Start || s.pc == Drop then 1 else 0)
    && s.slots <= cfg.Slots()
  }

  /** Each atomic counter agrees with the phases. */
  ghost predicate Counters(s: State) {
    && s.live == Total(s.phases, OnWaitGroup)
    && s.failed == Total(s.phases, FailureCounted)
    && s.done == Total(s.phases, DoneCounted)
  }

  /** A stored result is that plan's. */
  ghost predicate Results(cfg: Config, s: State)
    requires |s.phases| == |s.results| == |cfg.hosts|
  {
    forall i :: 0 <= i < |s.phases| ==> s.results[i] == Slot(cfg.hosts[i], s.phases[i])
  }

  function Slot(host: string, p: Phase): HostResult {
    if p.Past(Stored) then HostResult(host, p.status) else BLANK
  }

  /** OnHostDone has been called once for each announced index, and for no other. */
  ghost predicate Calls(s: State) {
    && |s.calls| == Total(s.phases, CallMade)
    && CallsMatch(s.phases, s.calls)
  }

  ghost predicate CallsMatch(phases: seq<Phase>, calls: seq<nat>) {
    && (forall k :: 0 <= k < |calls| ==> calls[k] < |phases| && phases[calls[k]].Past(Announced))
    && (forall i :: 0 <= i < |phases| && phases[i].Past(Announced) ==> i in calls)
    && (forall j, k :: 0 <= j < k < |calls| ==> calls[j] != calls[k])
  }

  predicate IsSkipped(p: Phase) {
    p.Ending? && p.status == Skipped
  }

  /** A skip is final: the limit was reached, and no later index is ever started. */
  ghost predicate Stopping(cfg: Config, s: State) {
    && (s.pc == Drop ==> cfg.Stops(s.failed))
    && (forall i :: 0 <= i < |s.phases| && IsSkipped(s.phases[i]) ==> cfg.Stops(s.failed) && s.pc != Start)
    && (forall i, j :: 0 <= i < j < |s.phases| && IsSkipped(s.phases[i]) ==> !s.phases[j].Launched())
    && (forall i :: 0 <= i < |s.phases| && s.phases[i].Ending? && !s.phases[i].launched && s.phases[i].status == Cancelled
          ==> s.cancelled)
  }

  /** Failures counted, plus started hosts that may still fail, plus the one that passed the comparison. */
  ghost predicate Bounded(cfg: Config, s: State) {
    cfg.maxFailures > 0 ==>
      s.failed + Total(s.phases, MayStillFail) + (if s.pc == Start then 1 else 0)
      <= cfg.maxFailures - 1 + cfg.Slots()
  }

  ghost predicate Ended(s: State) {
    && (s.pc == Totals || s.pc == Closing || s.pc == Returned ==> s.live == 0)
    && (s.pc == Closing || s.pc == Returned ==> s.summary == Some(Tally(s.results)))
  }

  ghost predicate Inv(cfg: Config, s: State) {
    && Shape(cfg, s)
    && SlotsCounted(cfg, s)
    && Counters(s)
    && Results(cfg, s)
    && Calls(s)
    && Stopping(cfg, s)
    && Bounded(cfg, s)
    && Ended(s)
  }

  // Preservation, one invariant at a time.

  /** The one index whose phase an action changes, or the length of the list if there is none. */
  function Subject(s: State, a: Action): nat {
    match a
    case SeeCancel => s.next
    case GiveBack => s.next
    case Launch => s.next
    case HostReturns(i, _) => i
    case Advance(i) => i
    case _ => |s.phases|
  }

  lemma PhaseStep(cfg: Config, s: State, a: Action, w: Phase -> nat)
    requires Enabled(cfg, s, a)
    ensures var t := Apply(cfg, s, a);
            var i := Subject(s, a);
            if i < |s.phases| then
              && t.phases == s.phases[i := t.phases[i]]
              && Total(t.phases, w) + w(s.phases[i]) == Total(s.phases, w) + w(t.phases[i])
            else t.phases == s.phases
  {
    var i := Subject(s, a);
    if i < |s.phases| {
      TotalUpdate(s.phases, i, Apply(cfg, s, a).phases[i], w);
      TotalMember(s.phases, i, w);
    }
  }

  predicate MovesPhase(a: Action) {
    a.SeeCancel? || a.GiveBack? || a.Launch? || a.HostReturns?
  }

  lemma ShapeKept(cfg: Config, s: State, a: Action)
    requires Shape(cfg, s) && Enabled(cfg, s, a)
    ensures Shape(cfg, Apply(cfg, s, a))
  {
    if a.Advance? {
      ShapeKeptByAdvance(cfg, s, a.i);
    } else if MovesPhase(a) {
      ShapeKeptByMove(cfg, s, a);
    } else if a.Resume? {
      ShapeKeptByResume(cfg, s);
    } else {
      ShapeKeptByLoop(cfg, s, a);
    }
  }

  lemma ShapeKeptByResume(cfg: Config, s: State)
    requires Shape(cfg, s) && Enabled(cfg, s, Resume)
    ensures Shape(cfg, Apply(cfg, s, Resume))
  {
  }

  lemma ShapeKeptByLoop(cfg: Config, s: State, a: Action)
    requires !a.Advance? && !MovesPhase(a) && !a.Resume? && Shape(cfg, s) && Enabled(cfg, s, a)
    ensures Shape(cfg, Apply(cfg, s, a))
  {
  }

  lemma ShapeKeptByAdvance(cfg: Config, s: State, i: nat)
    requires Shape(cfg, s) && Enabled(cfg, s, Advance(i))
    ensures Shape(cfg, Apply(cfg, s, Advance(i)))
  {
    var t := Apply(cfg, s, Advance(i));
    assert t.phases == s.phases[i := t.phases[i]] && t.pc == s.pc && t.next == s.next;
    assert Verdict(s.phases[i]) && Verdict(t.phases[i]);
  }

  lemma ShapeKeptByMove(cfg: Config, s: State, a: Action)
    requires MovesPhase(a) && Shape(cfg, s) && Enabled(cfg, s, a)
    ensures Shape(cfg, Apply(cfg, s, a))
  {
  }

  lemma SlotsKept(cfg: Config, s: State, a: Action)
    requires Shape(cfg, s) && SlotsCounted(cfg, s) && Enabled(cfg, s, a)
    ensures SlotsCounted(cfg, Apply(cfg, s, a))
  {
    if a.Advance? {
      SlotsKeptByAdvance(cfg, s, a.i);
    } else if MovesPhase(a) {
      SlotsKeptByMove(cfg, s, a);
    }
  }

  lemma SlotsKeptByAdvance(cfg: Config, s: State, i: nat)
    requires Shape(cfg, s) && SlotsCounted(cfg, s) && Enabled(cfg, s, Advance(i))
    ensures SlotsCounted(cfg, Apply(cfg, s, Advance(i)))
  {
    AdvanceEffect(cfg, s, i);
    TotalUpdate(s.phases, i, Advanced(s.phases[i]), HoldsSlot);
  }

  function Advanced(p: Phase): Phase
    requires p.Ending?
  {
    p.(stage := p.stage.Next())
  }

  /** What one step of `finish`, or of the release after it, does to everything but the results and the summary. */
  lemma AdvanceEffect(cfg: Config, s: State, i: nat)
    requires Enabled(cfg, s, Advance(i))
    ensures i < |s.phases| && s.phases[i].Ending?
    ensures var p, t := s.phases[i], Apply(cfg, s, Advance(i));
            && t.phases == s.phases[i := Advanced(p)] && t.pc == s.pc && t.next == s.next && t.cancelled == s.cancelled
            && t.slots == s.slots - (if p.stage == Announced then 1 else 0) && (p.stage == Announced ==> p.launched)
            && t.live == s.live - (if p.stage == Freed then 1 else 0) && (p.stage == Freed ==> p.launched)
            && t.failed == s.failed + (if p.stage == Stored && p.status == Failed then 1 else 0)
            && t.done == s.done + (if p.stage == Counted then 1 else 0)
            && t.calls == (if p.stage == Tallied then s.calls + [i] else s.calls)
  {
  }

  lemma SlotsKeptByMove(cfg: Config, s: State, a: Action)
    requires MovesPhase(a) && Shape(cfg, s) && SlotsCounted(cfg, s) && Enabled(cfg, s, a)
    ensures SlotsCounted(cfg, Apply(cfg, s, a))
  {
    PhaseStep(cfg, s, a, HoldsSlot);
  }

  lemma CountersKept(cfg: Config, s: State, a: Action)
    requires Shape(cfg, s) && Counters(s) && Enabled(cfg, s, a)
    ensures Counters(Apply(cfg, s, a))
  {
    if a.Advance? {
      LiveKeptByAdvance(cfg, s, a.i);
      FailedKeptByAdvance(cfg, s, a.i);
      DoneKeptByAdvance(cfg, s, a.i);
    } else if MovesPhase(a) {
      CountersKeptByMove(cfg, s, a);
    }
  }

  lemma LiveKeptByAdvance(cfg: Config, s: State, i: nat)
    requires Shape(cfg, s) && s.live == Total(s.phases, OnWaitGroup) && Enabled(cfg, s, Advance(i))
    ensures var t := Apply(cfg, s, Advance(i)); t.live == Total(t.phases, OnWaitGroup)
  {
    AdvanceEffect(cfg, s, i);
    TotalUpdate(s.phases, i, Advanced(s.phases[i]), OnWaitGroup);
  }

  lemma FailedKeptByAdvance(cfg: Config, s: State, i: nat)
    requires Shape(cfg, s) && s.failed == Total(s.phases, FailureCounted) && Enabled(cfg, s, Advance(i))
    ensures var t := Apply(cfg, s, Advance(i)); t.failed == Total(t.phases, FailureCounted)
  {
    AdvanceEffect(cfg, s, i);
    TotalUpdate(s.phases, i, Advanced(s.phases[i]), FailureCounted);
  }

  lemma DoneKeptByAdvance(cfg: Config, s: State, i: nat)
    requires Shape(cfg, s) && s.done == Total(s.phases, DoneCounted) && Enabled(cfg, s, Advance(i))
    ensures var t := Apply(cfg, s, Advance(i)); t.done == Total(t.phases, DoneCounted)
  {
    AdvanceEffect(cfg, s, i);
    TotalUpdate(s.phases, i, Advanced(s.phases[i]), DoneCounted);
  }

  lemma CountersKeptByMove(cfg: Config, s: State, a: Action)
    requires MovesPhase(a) && Shape(cfg, s) && Counters(s) && Enabled(cfg, s, a)
    ensures Counters(Apply(cfg, s, a))
  {
    LiveKeptByMove(cfg, s, a);
    FailedKeptByMove(cfg, s, a);
    DoneKeptByMove(cfg, s, a);
  }

  lemma LiveKeptByMove(cfg: Config, s: State, a: Action)
    requires MovesPhase(a) && Shape(cfg, s) && s.live == Total(s.phases, OnWaitGroup) && Enabled(cfg, s, a)
    ensures var t := Apply(cfg, s, a); t.live == Total(t.phases, OnWaitGroup)
  {
    PhaseStep(cfg, s, a, OnWaitGroup);
  }

  lemma FailedKeptByMove(cfg: Config, s: State, a: Action)
    requires MovesPhase(a) && Shape(cfg, s) && s.failed == Total(s.phases, FailureCounted) && Enabled(cfg, s, a)
    ensures var t := Apply(cfg, s, a); t.failed == Total(t.phases, FailureCounted)
  {
    PhaseStep(cfg, s, a, FailureCounted);
  }

  lemma DoneKeptByMove(cfg: Config, s: State, a: Action)
    requires MovesPhase(a) && Shape(cfg, s) && s.done == Total(s.phases, DoneCounted) && Enabled(cfg, s, a)
    ensures var t := Apply(cfg, s, a); t.done == Total(t.phases, DoneCounted)
  {
    PhaseStep(cfg, s, a, DoneCounted);
  }

  lemma ResultsKept(cfg: Config, s: State, a: Action)
    requires Shape(cfg, s) && Results(cfg, s) && Enabled(cfg, s, a)
    ensures var t := Apply(cfg, s, a); |t.results| == |t.phases| == |cfg.hosts| && Results(cfg, t)
  {
    if a.Advance? {
      ResultsKeptByAdvance(cfg, s, a.i);
    } else if MovesPhase(a) {
      ResultsKeptByMove(cfg, s, a);
    }
  }

  lemma ResultsKeptByAdvance(cfg: Config, s: State, i: nat)
    requires Shape(cfg, s) && Results(cfg, s) && Enabled(cfg, s, Advance(i))
    ensures var t := Apply(cfg, s, Advance(i)); |t.results| == |t.phases| == |cfg.hosts| && Results(cfg, t)
  {
    AdvanceEffect(cfg, s, i);
    AdvanceStores(cfg, s, i);
    assert s.results[i] == Slot(cfg.hosts[i], s.phases[i]);
  }

  /** And to the results: the first step of `finish` stores that host's own. */
  lemma AdvanceStores(cfg: Config, s: State, i: nat)
    requires Enabled(cfg, s, Advance(i))
    ensures i < |s.phases| == |s.results| == |cfg.hosts| && s.phases[i].Ending?
    ensures Apply(cfg, s, Advance(i)).results
            == if s.phases[i].stage == Held then s.results[i := HostResult(cfg.hosts[i], s.phases[i].status)] else s.results
  {
  }

  lemma ResultsKeptByMove(cfg: Config, s: State, a: Action)
    requires MovesPhase(a) && Shape(cfg, s) && Results(cfg, s) && Enabled(cfg, s, a)
    ensures var t := Apply(cfg, s, a); |t.results| == |t.phases| == |cfg.hosts| && Results(cfg, t)
  {
    assert s.results[Subject(s, a)] == Slot(cfg.hosts[Subject(s, a)], s.phases[Subject(s, a)]);
  }

  lemma CallsKept(cfg: Config, s: State, a: Action)
    requires Shape(cfg, s) && Calls(s) && Enabled(cfg, s, a)
    ensures Calls(Apply(cfg, s, a))
  {
    if a.Advance? {
      CallsKeptByAdvance(cfg, s, a.i);
    } else if MovesPhase(a) {
      CallsKeptByMove(cfg, s, a);
    }
  }

  lemma CallsKeptByAdvance(cfg: Config, s: State, i: nat)
    requires Calls(s) && Enabled(cfg, s, Advance(i))
    ensures Calls(Apply(cfg, s, Advance(i)))
  {
    CallCountKept(cfg, s, i);
    AdvanceEffect(cfg, s, i);
    CallsMatchAfter(s.phases, s.calls, i);
  }

  lemma CallCountKept(cfg: Config, s: State, i: nat)
    requires |s.calls| == Total(s.phases, CallMade) && Enabled(cfg, s, Advance(i))
    ensures var t := Apply(cfg, s, Advance(i)); |t.calls| == Total(t.phases, CallMade)
  {
    AdvanceEffect(cfg, s, i);
    TotalUpdate(s.phases, i, Advanced(s.phases[i]), CallMade);
  }

  lemma CallsKeptByMove(cfg: Config, s: State, a: Action)
    requires MovesPhase(a) && Shape(cfg, s) && Calls(s) && Enabled(cfg, s, a)
    ensures Calls(Apply(cfg, s, a))
  {
    var t, i := Apply(cfg, s, a), Subject(s, a);
    PhaseStep(cfg, s, a, CallMade);
    SameCalls(s.phases, s.calls, i, t.phases[i]);
  }

  lemma CallsMatchAfter(phases: seq<Phase>, calls: seq<nat>, i: nat)
    requires CallsMatch(phases, calls) && i < |phases| && phases[i].Ending?
    ensures CallsMatch(phases[i := Advanced(phases[i])], if phases[i].stage == Tallied then calls + [i] else calls)
  {
    if phases[i].stage == Tallied {
      OneMoreCall(phases, calls, i, Advanced(phases[i]));
    } else {
      SameCalls(phases, calls, i, Advanced(phases[i]));
    }
  }

  lemma OneMoreCall(phases: seq<Phase>, calls: seq<nat>, i: nat, q: Phase)
    requires CallsMatch(phases, calls) && i < |phases| && !phases[i].Past(Announced) && q.Past(Announced)
    ensures CallsMatch(phases[i := q], calls + [i])
  {
    assert i !in calls;
    assert forall j :: j in calls ==> j in calls + [i];
  }

  /** A phase that changes on one side of the announcement. */
  lemma SameCalls(phases: seq<Phase>, calls: seq<nat>, i: nat, q: Phase)
    requires CallsMatch(phases, calls) && i < |phases| && (phases[i].Past(Announced) <==> q.Past(Announced))
    ensures CallsMatch(phases[i := q], calls)
  {
  }

  lemma StoppingKept(cfg: Config, s: State, a: Action)
    requires Shape(cfg, s) && Stopping(cfg, s) && Enabled(cfg, s, a)
    ensures Stopping(cfg, Apply(cfg, s, a))
  {
    if a.Advance? {
      StoppingKeptByAdvance(cfg, s, a.i);
    } else if MovesPhase(a) {
      StoppingKeptByMove(cfg, s, a);
    }
  }

  lemma StoppingKeptByAdvance(cfg: Config, s: State, i: nat)
    requires Shape(cfg, s) && Stopping(cfg, s) && Enabled(cfg, s, Advance(i))
    ensures Stopping(cfg, Apply(cfg, s, Advance(i)))
  {
    AdvanceKeeps(cfg, s, i);
  }

  /** `finish` moves on without changing what the host came to. */
  lemma AdvanceKeeps(cfg: Config, s: State, i: nat)
    requires Shape(cfg, s) && Enabled(cfg, s, Advance(i))
    ensures var t := Apply(cfg, s, Advance(i));
            && t.failed >= s.failed && t.pc == s.pc && t.cancelled == s.cancelled && |t.phases| == |s.phases|
            && forall k :: 0 <= k < |s.phases| ==>
                 && (IsSkipped(t.phases[k]) <==> IsSkipped(s.phases[k]))
                 && (t.phases[k].Launched() <==> s.phases[k].Launched())
  {
  }

  lemma StoppingKeptByMove(cfg: Config, s: State, a: Action)
    requires MovesPhase(a) && Shape(cfg, s) && Stopping(cfg, s) && Enabled(cfg, s, a)
    ensures Stopping(cfg, Apply(cfg, s, a))
  {
  }

  lemma BoundedKept(cfg: Config, s: State, a: Action)
    requires Shape(cfg, s) && SlotsCounted(cfg, s) && Bounded(cfg, s) && Enabled(cfg, s, a)
    ensures Bounded(cfg, Apply(cfg, s, a))
  {
    if a.Advance? {
      BoundedKeptByAdvance(cfg, s, a.i);
    } else if MovesPhase(a) {
      PhaseStep(cfg, s, a, MayStillFail);
    } else if a == PassCheck {
      TotalAtMost(s.phases, MayStillFail, HoldsSlot);
    }
  }

  lemma BoundedKeptByAdvance(cfg: Config, s: State, i: nat)
    requires Shape(cfg, s) && Bounded(cfg, s) && Enabled(cfg, s, Advance(i))
    ensures Bounded(cfg, Apply(cfg, s, Advance(i)))
  {
    assert Verdict(s.phases[i]);
    AdvanceEffect(cfg, s, i);
    TotalUpdate(s.phases, i, Advanced(s.phases[i]), MayStillFail);
  }

  /** Nothing is left to move once the wait group is empty. */
  lemma AllOver(cfg: Config, s: State, i: nat)
    requires Shape(cfg, s) && Counters(s) && s.live == 0 && AfterLoop(s.pc) && i < |cfg.hosts|
    ensures s.phases[i].Past(Announced) && (s.phases[i].launched ==> s.phases[i].Past(Over))
  {
    TotalMember(s.phases, i, OnWaitGroup);
  }

  lemma EndedKept(cfg: Config, s: State, a: Action)
    requires Shape(cfg, s) && Counters(s) && Ended(s) && Enabled(cfg, s, a)
    ensures Ended(Apply(cfg, s, a))
  {
    if a.Advance? || a.HostReturns? {
      if s.live == 0 && AfterLoop(s.pc) {
        AllOver(cfg, s, a.i);
      }
      EndedKeptByHost(cfg, s, a);
    }
  }

  /** A host that is not over keeps `Run` from getting that far. */
  lemma EndedKeptByHost(cfg: Config, s: State, a: Action)
    requires (a.Advance? || a.HostReturns?) && Ended(s) && Enabled(cfg, s, a)
    requires s.live == 0 && AfterLoop(s.pc) ==>
               s.phases[a.i].Past(Announced) && (s.phases[a.i].launched ==> s.phases[a.i].Past(Over))
    ensures Ended(Apply(cfg, s, a))
  {
  }

  lemma InvKept(cfg: Config, s: State, a: Action)
    requires Inv(cfg, s) && Enabled(cfg, s, a)
    ensures Inv(cfg, Apply(cfg, s, a))
  {
    ShapeKept(cfg, s, a);
    SlotsKept(cfg, s, a);
    CountersKept(cfg, s, a);
    ResultsKept(cfg, s, a);
    CallsKept(cfg, s, a);
    StoppingKept(cfg, s, a);
    BoundedKept(cfg, s, a);
    EndedKept(cfg, s, a);
  }

  lemma InitInv(cfg: Config)
    ensures Inv(cfg, Init(cfg))
  {
    var s := Init(cfg);
    TotalOf(s.phases, HoldsSlot, 0);
    TotalOf(s.phases, OnWaitGroup, 0);
    TotalOf(s.phases, FailureCounted, 0);
    TotalOf(s.phases, DoneCounted, 0);
    TotalOf(s.phases, CallMade, 0);
    TotalOf(s.phases, MayStillFail, 0);
  }

  lemma {:induction false} RunKeepsInv(cfg: Config, s: State, acts: seq<Action>, t: State)
    requires Inv(cfg, s) && Exec(cfg, s, acts) == Some(t)
    ensures Inv(cfg, t)
    decreases |acts|
  {
    if acts != [] {
      InvKept(cfg, s, acts[0]);
      RunKeepsInv(cfg, Apply(cfg, s, acts[0]), acts[1..], t);
    }
  }

  lemma ReachableInv(cfg: Config, s: State)
    requires Reachable(cfg, s)
    ensures Inv(cfg, s)
  {
    InitInv(cfg);
    var acts :| Exec(cfg, Init(cfg), acts) == Some(s);
    RunKeepsInv(cfg, Init(cfg), acts, s);
  }

  /** Only `HostReturns` ends a host run. */
  lemma RunningStays(cfg: Config, s: State, b: Action, i: nat)
    requires Shape(cfg, s) && Enabled(cfg, s, b) && i < |s.phases| && s.phases[i] == Running
    requires !(b.HostReturns? && b.i == i)
    ensures i < |Apply(cfg, s, b).phases| && Apply(cfg, s, b).phases[i] == Running
  {
  }

  /** What one step of the scheduler makes of one phase. */
  lemma PhaseMoves(cfg: Config, s: State, b: Action, i: nat)
    requires Shape(cfg, s) && Enabled(cfg, s, b) && i < |s.phases|
    ensures |Apply(cfg, s, b).phases| == |s.phases|
    ensures var p, q := s.phases[i], Apply(cfg, s, b).phases[i];
            || q == p
            || (p == Idle && (q == Running || (q.Ending? && !q.launched)))
            || (p == Running && b == HostReturns(i, q.status) && q == Ending(Held, q.status, true))
            || (p.Ending? && q.Ending? && q.status == p.status && q.launched == p.launched)
  {
    if b.Advance? {
      AdvanceEffect(cfg, s, b.i);
    }
  }

  lemma PhaseCountStays(cfg: Config, s: State, b: Action)
    requires Enabled(cfg, s, b)
    ensures |Apply(cfg, s, b).phases| == |s.phases|
  {
  }

  lemma ReturnedOnlyByClosing(cfg: Config, s: State, b: Action)
    requires Enabled(cfg, s, b) && b != ClosePool
    ensures Apply(cfg, s, b).pc == Returned <==> s.pc == Returned
  {
  }

  lemma CancelStays(cfg: Config, s: State, a: Action)
    requires Enabled(cfg, s, a)
    ensures s.cancelled ==> Apply(cfg, s, a).cancelled
  {
  }

  /** Where a CANCELLED host comes from: it was one, its run ended as one, or it was not started for that reason. */
  lemma CancelledPhase(cfg: Config, s: State, a: Action, i: nat)
    requires Shape(cfg, s) && Enabled(cfg, s, a) && i < |s.phases| == |Apply(cfg, s, a).phases|
    requires var q := Apply(cfg, s, a).phases[i]; q.Ending? && q.status == Cancelled
    ensures || (s.phases[i].Ending? && s.phases[i].status == Cancelled)
            || a == HostReturns(i, Cancelled)
            || (a == SeeCancel && s.cancelled)
  {
    if a.Advance? {
      AdvanceEffect(cfg, s, a.i);
    } else if a.HostReturns? {
      assert Apply(cfg, s, a).phases == s.phases[a.i := Ending(Held, a.status, true)];
    }
  }
}
