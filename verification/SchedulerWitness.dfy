/** Runs that exist: the failure bound is attained, not only kept. */
module SchedulerWitness {
  import opened Options
  import opened Counting
  import opened Report
  import opened Scheduler
  import opened SchedulerSafety

  ghost predicate Leads(cfg: Config, s: State, t: State) {
    exists acts :: Exec(cfg, s, acts) == Some(t)
  }

  lemma {:induction false} ExecConcat(cfg: Config, s: State, acts: seq<Action>, more: seq<Action>, t: State)
    requires Exec(cfg, s, acts) == Some(t)
    ensures Exec(cfg, s, acts + more) == Exec(cfg, t, more)
    decreases |acts|
  {
    if acts == [] {
      assert acts + more == more;
    } else {
      ExecConcat(cfg, Apply(cfg, s, acts[0]), acts[1..], more, t);
      assert (acts + more)[1..] == acts[1..] + more;
    }
  }

  lemma LeadsTrans(cfg: Config, s: State, t: State, u: State)
    requires Leads(cfg, s, t) && Leads(cfg, t, u)
    ensures Leads(cfg, s, u)
  {
    var a :| Exec(cfg, s, a) == Some(t);
    var b :| Exec(cfg, t, b) == Some(u);
    ExecConcat(cfg, s, a, b, t);
  }

  lemma LeadsSelf(cfg: Config, s: State)
    ensures Leads(cfg, s, s)
  {
    assert Exec(cfg, s, []) == Some(s);
  }

  lemma LeadsStep(cfg: Config, s: State, t: State, a: Action)
    requires Leads(cfg, s, t) && Enabled(cfg, t, a)
    ensures Leads(cfg, s, Apply(cfg, t, a))
  {
    assert Exec(cfg, t, [a]) == Some(Apply(cfg, t, a));
    LeadsTrans(cfg, s, t, Apply(cfg, t, a));
  }

  /** `over` hosts failed and gone, then `open` hosts at `front`, the rest untouched; the dispatcher is at its select. */
  function Snapshot(cfg: Config, over: nat, open: nat, front: Phase): seq<Phase> {
    seq(|cfg.hosts|, i => if i < over then Ending(Over, Failed, true) else if i < over + open then front else Idle)
  }

  /** Between hosts: nothing in flight but `open` hosts inside `runHost`. */
  ghost predicate Between(cfg: Config, s: State, over: nat, open: nat) {
    && over + open <= |cfg.hosts|
    && s.pc == Loop
    && s.next == over + open
    && s.slots == s.live == open
    && s.failed == over
    && s.phases == Snapshot(cfg, over, open, Running)
    && |s.results| == |cfg.hosts|
  }

  /** The next host is started. */
  lemma StartOne(cfg: Config, s: State, over: nat, open: nat) returns (t: State)
    requires Between(cfg, s, over, open) && over + open < |cfg.hosts|
    requires open < cfg.Slots() && !cfg.Stops(over)
    ensures Leads(cfg, s, t) && Between(cfg, t, over, open + 1)
  {
    LeadsSelf(cfg, s);
    LeadsStep(cfg, s, s, Acquire);
    var a := Apply(cfg, s, Acquire);
    LeadsStep(cfg, s, a, PassCheck);
    var b := Apply(cfg, a, PassCheck);
    LeadsStep(cfg, s, b, Launch);
    t := Apply(cfg, b, Launch);
    assert t.phases == Snapshot(cfg, over, open + 1, Running);
  }

  /** Host `i` fails and its goroutine runs to its end, while nothing else moves. */
  lemma {:induction false} Winds(cfg: Config, s: State, i: nat, stage: Stage) returns (t: State)
    requires |s.phases| == |s.results| == |cfg.hosts| && i < |s.phases|
    requires s.phases[i] == Ending(stage, Failed, true) && s.slots > 0 && s.live > 0 && stage.Order() <= 4
    ensures Leads(cfg, s, t)
    ensures t.phases == s.phases[i := Ending(Over, Failed, true)] && |t.results| == |s.results|
    ensures t.pc == s.pc && t.next == s.next && t.slots == s.slots - 1 && t.live == s.live - 1
    ensures t.failed == s.failed + if stage.Order() <= 1 then 1 else 0
    decreases 5 - stage.Order()
  {
    LeadsSelf(cfg, s);
    LeadsStep(cfg, s, s, Advance(i));
    AdvanceEffect(cfg, s, i);
    var u := Apply(cfg, s, Advance(i));
    if stage == Announced {
      AdvanceEffect(cfg, u, i);
      LeadsStep(cfg, s, u, Advance(i));
      t := Apply(cfg, u, Advance(i));
    } else {
      t := Winds(cfg, u, i, stage.Next());
      LeadsTrans(cfg, s, u, t);
    }
  }

  /** The first running host fails. */
  lemma FailFirst(cfg: Config, s: State, over: nat, open: nat) returns (t: State)
    requires Between(cfg, s, over, open) && open > 0
    ensures Leads(cfg, s, t) && Between(cfg, t, over + 1, open - 1)
  {
    var a := HostReturns(over, Failed);
    LeadsSelf(cfg, s);
    LeadsStep(cfg, s, s, a);
    var u := Apply(cfg, s, a);
    t := Winds(cfg, u, over, Held);
    LeadsTrans(cfg, s, u, t);
    assert t.phases == Snapshot(cfg, over + 1, open - 1, Running);
  }

  /** Hosts fail one after the other, up to the last before the limit. */
  lemma {:induction false} OneByOne(cfg: Config, count: nat) returns (t: State)
    requires count <= |cfg.hosts| && (cfg.maxFailures > 0 ==> count < cfg.maxFailures)
    ensures Leads(cfg, Init(cfg), t) && Between(cfg, t, count, 0)
  {
    if count == 0 {
      t := Init(cfg);
      LeadsSelf(cfg, t);
      assert t.phases == Snapshot(cfg, 0, 0, Running);
    } else {
      var s := OneByOne(cfg, count - 1);
      var u := StartOne(cfg, s, count - 1, 0);
      t := FailFirst(cfg, u, count - 1, 1);
      LeadsTrans(cfg, s, u, t);
      LeadsTrans(cfg, Init(cfg), s, t);
    }
  }

  /** All slots are filled below the limit. */
  lemma {:induction false} Fill(cfg: Config, s: State, over: nat, open: nat) returns (t: State)
    requires Between(cfg, s, over, 0) && !cfg.Stops(over)
    requires open <= cfg.Slots() && over + open <= |cfg.hosts|
    ensures Leads(cfg, s, t) && Between(cfg, t, over, open)
  {
    if open == 0 {
      t := s;
      LeadsSelf(cfg, s);
    } else {
      var u := Fill(cfg, s, over, open - 1);
      t := StartOne(cfg, u, over, open - 1);
      LeadsTrans(cfg, s, u, t);
    }
  }

  /** Everything that is running fails. */
  lemma {:induction false} Drain(cfg: Config, s: State, over: nat, open: nat) returns (t: State)
    requires Between(cfg, s, over, open)
    ensures Leads(cfg, s, t) && Between(cfg, t, over + open, 0)
    decreases open
  {
    if open == 0 {
      t := s;
      LeadsSelf(cfg, s);
    } else {
      var u := FailFirst(cfg, s, over, open);
      t := Drain(cfg, u, over + 1, open - 1);
      LeadsTrans(cfg, s, u, t);
    }
  }

  /** The bound of FailuresBounded is exact: given hosts enough, some run fails that many. */
  lemma BoundReached(cfg: Config) returns (t: State)
    requires cfg.maxFailures > 0 && |cfg.hosts| >= cfg.maxFailures - 1 + cfg.Slots()
    ensures Reachable(cfg, t)
    ensures Total(t.results, Has(Failed)) == cfg.maxFailures - 1 + cfg.Slots()
  {
    var m := cfg.maxFailures;
    var s := OneByOne(cfg, m - 1);
    var u := Fill(cfg, s, m - 1, cfg.Slots());
    t := Drain(cfg, u, m - 1, cfg.Slots());
    LeadsTrans(cfg, s, u, t);
    LeadsTrans(cfg, Init(cfg), s, t);
    ReachableInv(cfg, t);
    AllFailed(cfg, t, m - 1 + cfg.Slots());
  }

  lemma AllFailed(cfg: Config, t: State, n: nat)
    requires Inv(cfg, t) && Between(cfg, t, n, 0)
    ensures Total(t.results, Has(Failed)) == n
  {
    TotalAlike(t.results, Has(Failed), t.phases, FailureCounted);
  }

  // Goroutines.

  /** A successful host gives its slot back, and its goroutine is still there. */
  lemma {:induction false} Releases(cfg: Config, s: State, i: nat, stage: Stage) returns (t: State)
    requires |s.phases| == |s.results| == |cfg.hosts| && i < |s.phases|
    requires s.phases[i] == Ending(stage, Success, true) && s.slots > 0 && stage.Order() <= 4
    ensures Leads(cfg, s, t)
    ensures |t.phases| == |t.results| == |cfg.hosts|
    ensures t.pc == s.pc && t.next == s.next && t.slots == s.slots - 1 && t.live == s.live && t.failed == s.failed
    decreases 4 - stage.Order()
  {
    LeadsSelf(cfg, s);
    LeadsStep(cfg, s, s, Advance(i));
    t := Apply(cfg, s, Advance(i));
    if stage != Announced {
      var u := t;
      t := Releases(cfg, u, i, stage.Next());
      LeadsTrans(cfg, s, u, t);
    }
  }

  lemma StartsAnother(cfg: Config, s: State) returns (t: State)
    requires |s.phases| == |s.results| == |cfg.hosts| && s.pc == Loop && s.next < |cfg.hosts|
    requires s.slots < cfg.Slots() && !cfg.Stops(s.failed)
    ensures Leads(cfg, s, t) && t.live == s.live + 1
  {
    LeadsSelf(cfg, s);
    LeadsStep(cfg, s, s, Acquire);
    var a := Apply(cfg, s, Acquire);
    LeadsStep(cfg, s, a, PassCheck);
    var b := Apply(cfg, a, PassCheck);
    LeadsStep(cfg, s, b, Launch);
    t := Apply(cfg, b, Launch);
  }

  /** With one host more than slots, one goroutine more than slots can exist: the one that gave its slot back. */
  lemma OneTooMany(cfg: Config) returns (t: State)
    requires |cfg.hosts| > cfg.Slots()
    ensures Reachable(cfg, t) && t.live == cfg.Slots() + 1
  {
    var s := OneByOne(cfg, 0);
    var u := Fill(cfg, s, 0, cfg.Slots());
    LeadsTrans(cfg, Init(cfg), s, u);
    var v := Apply(cfg, u, HostReturns(0, Success));
    LeadsStep(cfg, Init(cfg), u, HostReturns(0, Success));
    var w := Releases(cfg, v, 0, Held);
    LeadsTrans(cfg, Init(cfg), v, w);
    t := StartsAnother(cfg, w);
    LeadsTrans(cfg, Init(cfg), w, t);
  }

  lemma {:induction false} AtMostOneEach(phases: seq<Phase>)
    ensures Total(phases, OnWaitGroup) <= |phases|
  {
    if phases != [] {
      AtMostOneEach(phases[1..]);
    }
  }

  /** "At most conc host goroutines exist" holds in every run exactly if there are no more hosts than slots. */
  lemma GoroutinesBoundedIff(cfg: Config)
    ensures (forall s :: Reachable(cfg, s) ==> s.live <= cfg.Slots()) <==> |cfg.hosts| <= cfg.Slots()
  {
    if |cfg.hosts| <= cfg.Slots() {
      forall s | Reachable(cfg, s)
        ensures s.live <= cfg.Slots()
      {
        ReachableInv(cfg, s);
        AtMostOneEach(s.phases);
      }
    } else {
      var t := OneTooMany(cfg);
    }
  }
}
