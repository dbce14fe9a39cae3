/** What a whole run guarantees: a bound on failures, an end, a complete report. */
module SchedulerTheorems {
  import opened Options
  import opened Counting
  import opened Report
  import opened Scheduler
  import opened SchedulerSafety

  // The failure limit.

  function StoredFailure(p: Phase): nat {
    if p.Past(Stored) && p.status == Failed then 1 else 0
  }

  function CountedOrOpen(p: Phase): nat {
    FailureCounted(p) + MayStillFail(p)
  }

  /** At no point of any run does the report hold more than MaxFailures + Concurrency - 1 failed hosts. */
  lemma FailuresBounded(cfg: Config, s: State)
    requires Reachable(cfg, s) && cfg.maxFailures > 0
    ensures Total(s.results, Has(Failed)) <= cfg.maxFailures - 1 + cfg.Slots()
  {
    ReachableInv(cfg, s);
    TotalAlike(s.results, Has(Failed), s.phases, StoredFailure);
    TotalAtMost(s.phases, StoredFailure, CountedOrOpen);
    TotalSum(s.phases, FailureCounted, MayStillFail, CountedOrOpen);
  }

  /** Hosts that are inside `runHost` or not yet reported never outnumber the slots. */
  lemma ConcurrencyBounded(cfg: Config, s: State)
    requires Reachable(cfg, s)
    ensures Total(s.phases, HoldsSlot) <= s.slots <= cfg.Slots()
  {
    ReachableInv(cfg, s);
  }

  /** Once a host is skipped the limit has been reached, and no later plan is running or was ever started. */
  lemma SkipIsFinal(cfg: Config, s: State, i: nat, j: nat)
    requires Reachable(cfg, s) && i < j < |cfg.hosts| == |s.phases|
    requires IsSkipped(s.phases[i])
    ensures cfg.maxFailures > 0 && s.failed >= cfg.maxFailures
    ensures !s.phases[j].Launched()
  {
    ReachableInv(cfg, s);
  }

  // Termination.

  function Fuel(p: Phase): nat {
    match p
    case Idle => 9
    case Running => 8
    case Ending(stage, _, _) => 7 - stage.Order()
  }

  function PcRank(pc: Pc): nat {
    match pc
    case Loop => 4
    case Check => 3
    case Start => 2
    case Drop => 2
    case Inline => 1
    case Join => 3
    case Totals => 2
    case Closing => 1
    case Returned => 0
  }

  ghost function Rank(cfg: Config, s: State): int {
    Total(s.phases, Fuel) + 5 * (|cfg.hosts| - s.next) + PcRank(s.pc) + if s.cancelled then 0 else 1
  }

  lemma StepsDown(cfg: Config, s: State, a: Action)
    requires Shape(cfg, s) && Enabled(cfg, s, a)
    ensures Rank(cfg, Apply(cfg, s, a)) < Rank(cfg, s)
  {
    if a.Advance? {
      StepsDownByAdvance(cfg, s, a.i);
    } else if MovesPhase(a) {
      StepsDownByMove(cfg, s, a);
    }
  }

  lemma StepsDownByAdvance(cfg: Config, s: State, i: nat)
    requires Enabled(cfg, s, Advance(i))
    ensures Rank(cfg, Apply(cfg, s, Advance(i))) < Rank(cfg, s)
  {
    AdvanceEffect(cfg, s, i);
    TotalUpdate(s.phases, i, Advanced(s.phases[i]), Fuel);
  }

  lemma StepsDownByMove(cfg: Config, s: State, a: Action)
    requires MovesPhase(a) && Shape(cfg, s) && Enabled(cfg, s, a)
    ensures Rank(cfg, Apply(cfg, s, a)) < Rank(cfg, s)
  {
    PhaseStep(cfg, s, a, Fuel);
  }

  lemma {:induction false} RunShortens(cfg: Config, s: State, acts: seq<Action>, t: State)
    requires Inv(cfg, s) && Exec(cfg, s, acts) == Some(t)
    ensures |acts| + Rank(cfg, t) <= Rank(cfg, s)
    decreases |acts|
  {
    if acts != [] {
      StepsDown(cfg, s, acts[0]);
      InvKept(cfg, s, acts[0]);
      RunShortens(cfg, Apply(cfg, s, acts[0]), acts[1..], t);
    }
  }

  /** No run is longer than 14 steps per host and five more, however its steps interleave. */
  lemma RunsAreFinite(cfg: Config, acts: seq<Action>)
    requires Exec(cfg, Init(cfg), acts).Some?
    ensures |acts| <= 14 * |cfg.hosts| + 5
  {
    var s := Init(cfg);
    InitInv(cfg);
    var t := Exec(cfg, s, acts).value;
    RunShortens(cfg, s, acts, t);
    RunKeepsInv(cfg, s, acts, t);
    TotalOf(s.phases, Fuel, 9);
  }

  /** A started host that still holds its slot, or is still awaited, has a step to take. */
  lemma HostMoves(cfg: Config, s: State, i: nat) returns (a: Action)
    requires Inv(cfg, s) && i < |s.phases| && OnWaitGroup(s.phases[i]) > 0
    ensures a != Cancel && Enabled(cfg, s, a)
  {
    match s.phases[i] {
      case Running => a := HostReturns(i, Success);
      case Ending(_, _, _) =>
        EndingMoves(cfg, s, i);
        a := Advance(i);
    }
  }

  lemma EndingMoves(cfg: Config, s: State, i: nat)
    requires Shape(cfg, s) && SlotsCounted(cfg, s) && Counters(s)
    requires i < |s.phases| && s.phases[i].Ending? && OnWaitGroup(s.phases[i]) > 0
    ensures Enabled(cfg, s, Advance(i))
  {
    TotalMember(s.phases, i, HoldsSlot);
    TotalMember(s.phases, i, OnWaitGroup);
  }

  /** With every slot taken, one of the hosts that hold them can move on. */
  lemma FullMoves(cfg: Config, s: State) returns (a: Action)
    requires Inv(cfg, s) && s.pc == Loop && s.slots >= cfg.Slots()
    ensures a != Cancel && Enabled(cfg, s, a)
  {
    var i := TotalWitness(s.phases, HoldsSlot);
    a := HostMoves(cfg, s, i);
  }

  /** While the dispatcher waits for the hosts, one of them can move on. */
  lemma JoinMoves(cfg: Config, s: State) returns (a: Action)
    requires Inv(cfg, s) && s.pc == Join
    ensures a != Cancel && Enabled(cfg, s, a)
  {
    if s.live == 0 {
      a := JoinAll;
    } else {
      var i := TotalWitness(s.phases, OnWaitGroup);
      a := HostMoves(cfg, s, i);
    }
  }

  lemma InlineMoves(cfg: Config, s: State) returns (a: Action)
    requires Inv(cfg, s) && s.pc == Inline
    ensures a != Cancel && Enabled(cfg, s, a)
  {
    a := if s.phases[s.next].Past(Announced) then Resume else Advance(s.next);
  }

  /** No reachable state is stuck: until `Run` has returned some step other than a cancellation is possible. */
  lemma NeverStuck(cfg: Config, s: State) returns (a: Action)
    requires Reachable(cfg, s) && s.pc != Returned
    ensures a != Cancel && Enabled(cfg, s, a)
  {
    ReachableInv(cfg, s);
    match s.pc {
      case Loop =>
        if s.next < |cfg.hosts| && s.slots >= cfg.Slots() {
          a := FullMoves(cfg, s);
        } else {
          a := if s.next == |cfg.hosts| then LeaveLoop else Acquire;
        }
      case Check => a := if cfg.Stops(s.failed) then FailCheck else PassCheck;
      case Start => a := Launch;
      case Drop => a := GiveBack;
      case Inline => a := InlineMoves(cfg, s);
      case Join => a := JoinMoves(cfg, s);
      case Totals => a := Summarise;
      case Closing => a := ClosePool;
    }
  }

  // The report.

  /** No host is running, and none will be, when the bastion connections are closed and when `Run` returns. */
  lemma QuietAfterJoin(cfg: Config, s: State, i: nat)
    requires Reachable(cfg, s) && (s.pc == Closing || s.pc == Returned) && i < |cfg.hosts| == |s.phases|
    ensures s.slots == 0 && s.live == 0
    ensures s.phases[i].Past(Announced) && (s.phases[i].launched ==> s.phases[i].Past(Over))
  {
    ReachableInv(cfg, s);
    AllOver(cfg, s, i);
    NoSlotHeld(cfg, s);
  }

  lemma NoSlotHeld(cfg: Config, s: State)
    requires SlotsCounted(cfg, s) && Counters(s) && s.live == 0 && (s.pc == Closing || s.pc == Returned)
    ensures s.slots == 0
  {
    TotalAtMost(s.phases, HoldsSlot, OnWaitGroup);
  }

  lemma AllAnnounced(cfg: Config, s: State)
    requires Shape(cfg, s) && Counters(s) && s.live == 0 && s.pc == Returned
    ensures forall i :: 0 <= i < |s.phases| ==> s.phases[i].Past(Announced)
  {
    forall i | 0 <= i < |s.phases|
      ensures s.phases[i].Past(Announced)
    {
      AllOver(cfg, s, i);
    }
  }

  ghost predicate CompleteReport(cfg: Config, s: State) {
    && |s.results| == |s.calls| == s.done == |cfg.hosts|
    && (forall i :: 0 <= i < |s.results| ==> s.results[i].host == cfg.hosts[i] && s.results[i].status != Unset)
    && (forall i :: 0 <= i < |cfg.hosts| ==> i in s.calls)
    && (forall j, k :: 0 <= j < k < |s.calls| ==> s.calls[j] != s.calls[k])
  }

  /** When `Run` returns, every plan has exactly one result, its own, and was announced exactly once. */
  lemma ReportComplete(cfg: Config, s: State)
    requires Reachable(cfg, s) && s.pc == Returned
    ensures CompleteReport(cfg, s)
  {
    ReachableInv(cfg, s);
    AllAnnounced(cfg, s);
    AllCounted(s);
    AllStored(cfg, s);
  }

  lemma AllStored(cfg: Config, s: State)
    requires Shape(cfg, s) && Results(cfg, s) && forall i :: 0 <= i < |s.phases| ==> s.phases[i].Past(Announced)
    ensures forall i :: 0 <= i < |s.results| ==> s.results[i].host == cfg.hosts[i] && s.results[i].status != Unset
  {
  }

  lemma AllCounted(s: State)
    requires Counters(s) && Calls(s) && forall i :: 0 <= i < |s.phases| ==> s.phases[i].Past(Announced)
    ensures |s.calls| == s.done == |s.phases|
  {
    TotalOf(s.phases, DoneCounted, 1);
    TotalOf(s.phases, CallMade, 1);
  }

  /** The summary of a finished run: the counts partition the hosts, and the failures are those the limit saw. */
  lemma SummaryExact(cfg: Config, s: State)
    requires Reachable(cfg, s) && s.pc == Returned
    ensures s.summary.Some?
    ensures var sum := s.summary.value;
            && sum.success + sum.failed + sum.cancelled + sum.skipped == sum.total == |cfg.hosts|
            && sum.failed == s.failed
            && (sum.skipped > 0 ==> cfg.maxFailures > 0 && sum.failed >= cfg.maxFailures)
            && (sum.OK() <==> forall i :: 0 <= i < |s.results| ==> s.results[i].status == Success)
  {
    ReachableInv(cfg, s);
    ReportComplete(cfg, s);
    CountsAddUp(s.results);
    OkIffAllSucceeded(s.results);
    AllAnnounced(cfg, s);
    FailuresTallied(cfg, s);
    if Tally(s.results).skipped > 0 {
      SkippedTallied(cfg, s);
    }
  }

  lemma FailuresTallied(cfg: Config, s: State)
    requires Shape(cfg, s) && Results(cfg, s) && Counters(s)
    requires forall i :: 0 <= i < |s.phases| ==> s.phases[i].Past(Announced)
    ensures Tally(s.results).failed == s.failed
  {
    TotalOf(s.results, Has(Unset), 0);
    TotalAlike(s.results, Has(Failed), s.phases, FailureCounted);
  }

  lemma SkippedTallied(cfg: Config, s: State)
    requires Shape(cfg, s) && Results(cfg, s) && Stopping(cfg, s) && Tally(s.results).skipped > 0
    ensures cfg.Stops(s.failed)
  {
    var i := TotalWitness(s.results, Has(Skipped));
    assert IsSkipped(s.phases[i]);
  }

  /** Without a cancellation, every plan after a skipped one is skipped as well. */
  lemma SkipsAreASuffix(cfg: Config, s: State, i: nat, j: nat)
    requires Reachable(cfg, s) && s.pc == Returned && !s.cancelled
    requires i < j < |s.results| && s.results[i].status == Skipped
    ensures s.results[j].status == Skipped
  {
    ReachableInv(cfg, s);
    AllOver(cfg, s, i);
    AllOver(cfg, s, j);
    SkipIsFinal(cfg, s, i, j);
  }

  lemma ResultOfPhase(cfg: Config, s: State, i: nat)
    requires Reachable(cfg, s) && s.pc == Returned && i < |cfg.hosts|
    ensures i < |s.phases| == |s.results| && s.phases[i].Ending? && Verdict(s.phases[i])
    ensures s.results[i] == HostResult(cfg.hosts[i], s.phases[i].status)
  {
    ReachableInv(cfg, s);
    QuietAfterJoin(cfg, s, i);
  }
}
