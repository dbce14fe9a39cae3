/** The reports that `Run` writes, as `--only-failed` reads them: the stream in order of completion and the final list. */
module RunReports {
  import opened Options
  import opened Report
  import opened Scheduler
  import opened SchedulerSafety
  import opened SchedulerTheorems
  import Inventory
  import Rerun

  /** What OnHostDone is called with in the course of a run. */
  function Announcements(cfg: Config, s: State, acts: seq<Action>): seq<HostResult>
    requires Exec(cfg, s, acts).Some?
    decreases |acts|
  {
    if acts == [] then []
    else
      (if Announces(s, acts[0]) then [HostResult(cfg.hosts[acts[0].i], s.phases[acts[0].i].status)] else [])
      + Announcements(cfg, Apply(cfg, s, acts[0]), acts[1..])
  }

  predicate Announces(s: State, a: Action) {
    a.Advance? && a.i < |s.phases| && s.phases[a.i].Ending? && s.phases[a.i].stage == Tallied
  }

  function ResultsAt(results: seq<HostResult>, calls: seq<nat>): seq<HostResult>
  {
    seq(|calls|, k requires 0 <= k < |calls| => if calls[k] < |results| then results[calls[k]] else BLANK)
  }

  /** Once a host has been announced, its slot is not written again. */
  lemma AnnouncedKeeps(cfg: Config, s: State, a: Action, i: nat)
    requires Shape(cfg, s) && Enabled(cfg, s, a) && i < |s.phases| && s.phases[i].Past(Announced)
    ensures |Apply(cfg, s, a).results| == |s.results| && Apply(cfg, s, a).results[i] == s.results[i]
    ensures |Apply(cfg, s, a).phases| == |s.phases| && Apply(cfg, s, a).phases[i].Past(Announced)
  {
    if a.Advance? {
      AnnouncedKeptByAdvance(cfg, s, a.i, i);
    }
  }

  lemma AnnouncedKeptByAdvance(cfg: Config, s: State, j: nat, i: nat)
    requires Enabled(cfg, s, Advance(j)) && i < |s.phases| && s.phases[i].Past(Announced)
    ensures var t := Apply(cfg, s, Advance(j));
            && |t.results| == |s.results| == |t.phases| == |s.phases|
            && t.results[i] == s.results[i] && t.phases[i].Past(Announced)
  {
    AdvanceEffect(cfg, s, j);
    AdvanceStores(cfg, s, j);
  }

  lemma {:induction false} AnnouncedIsFinal(cfg: Config, s: State, acts: seq<Action>, t: State, i: nat)
    requires Inv(cfg, s) && Exec(cfg, s, acts) == Some(t) && i < |s.phases| && s.phases[i].Past(Announced)
    ensures |t.results| == |s.results| && t.results[i] == s.results[i]
    decreases |acts|
  {
    if acts != [] {
      AnnouncedKeeps(cfg, s, acts[0], i);
      InvKept(cfg, s, acts[0]);
      AnnouncedIsFinal(cfg, Apply(cfg, s, acts[0]), acts[1..], t, i);
    }
  }

  lemma CallStep(cfg: Config, s: State, a: Action)
    requires Shape(cfg, s) && Results(cfg, s) && Enabled(cfg, s, a)
    ensures Apply(cfg, s, a).calls == if Announces(s, a) then s.calls + [a.i] else s.calls
    ensures Announces(s, a) ==> a.i < |s.phases| == |s.results| && Apply(cfg, s, a).phases[a.i].Past(Announced)
                                && Apply(cfg, s, a).results[a.i] == HostResult(cfg.hosts[a.i], s.phases[a.i].status)
  {
  }

  lemma ResultsFrom(results: seq<HostResult>, before: seq<nat>, i: nat, calls: seq<nat>)
    requires before + [i] <= calls && i < |results|
    ensures before <= calls
    ensures ResultsAt(results, calls[|before|..]) == [results[i]] + ResultsAt(results, calls[|before| + 1..])
  {
    assert calls[|before|] == (before + [i])[|before|] == i;
    assert calls[|before|..] == [i] + calls[|before| + 1..];
  }

  /** The lines of a run are the final results, in the order of the calls. */
  lemma {:induction false} AnnouncementsAreResults(cfg: Config, s: State, acts: seq<Action>, t: State)
    requires Inv(cfg, s) && Exec(cfg, s, acts) == Some(t)
    ensures s.calls <= t.calls
    ensures Announcements(cfg, s, acts) == ResultsAt(t.results, t.calls[|s.calls|..])
    decreases |acts|
  {
    if acts != [] {
      var next := Apply(cfg, s, acts[0]);
      InvKept(cfg, s, acts[0]);
      CallStep(cfg, s, acts[0]);
      AnnouncementsAreResults(cfg, next, acts[1..], t);
      if Announces(s, acts[0]) {
        AnnouncedIsFinal(cfg, next, acts[1..], t, acts[0].i);
        ResultsFrom(t.results, s.calls, acts[0].i, t.calls);
      }
    }
  }

  ghost predicate DistinctHosts(cfg: Config) {
    forall i, j :: 0 <= i < j < |cfg.hosts| ==> cfg.hosts[i] != cfg.hosts[j]
  }

  lemma SameEntries(cfg: Config, s: State, h: HostResult)
    requires CompleteReport(cfg, s) && CallsMatch(s.phases, s.calls) && |s.phases| == |s.results|
    ensures h in ResultsAt(s.results, s.calls) <==> h in s.results
  {
    if h in s.results {
      var i :| 0 <= i < |s.results| && s.results[i] == h;
      assert i in s.calls;
      var k :| 0 <= k < |s.calls| && s.calls[k] == i;
      assert ResultsAt(s.results, s.calls)[k] == h;
    }
  }

  lemma CompleteIsUnique(cfg: Config, s: State)
    requires CompleteReport(cfg, s) && CallsMatch(s.phases, s.calls) && |s.phases| == |s.results| && DistinctHosts(cfg)
    ensures Rerun.UniqueHosts(s.results) && Rerun.UniqueHosts(ResultsAt(s.results, s.calls))
    ensures forall h :: h in ResultsAt(s.results, s.calls) ==> h in s.results && h.host in cfg.hosts
  {
    forall h | h in ResultsAt(s.results, s.calls)
      ensures h in s.results && h.host in cfg.hosts
    {
      SameEntries(cfg, s, h);
    }
  }

  /** The lines of a finished run are its results, each once, in the order in which the hosts finished. */
  lemma StreamIsComplete(cfg: Config, acts: seq<Action>, s: State)
    requires Exec(cfg, Init(cfg), acts) == Some(s) && s.pc == Returned
    ensures CompleteReport(cfg, s) && CallsMatch(s.phases, s.calls) && |s.phases| == |s.results|
    ensures Announcements(cfg, Init(cfg), acts) == ResultsAt(s.results, s.calls)
  {
    InitInv(cfg);
    AnnouncementsAreResults(cfg, Init(cfg), acts, s);
    assert s.calls[0..] == s.calls;
    ReachableInv(cfg, s);
    ReportComplete(cfg, s);
  }

  /** Of a finished run over distinct named hosts, the .jsonl lines and the final list lead to the same rerun. */
  lemma StreamAndReportAgree(
    cfg: Config, acts: seq<Action>, s: State, job: string, targets: seq<Inventory.Target>)
    requires Exec(cfg, Init(cfg), acts) == Some(s) && s.pc == Returned
    requires DistinctHosts(cfg) && "" !in cfg.hosts
    ensures var lines := Rerun.LinesOf(Announcements(cfg, Init(cfg), acts)) + [Rerun.TotalsLine(job)];
            Rerun.Kept(Rerun.HostsIn(lines), targets) == Rerun.Kept(s.results, targets)
  {
    StreamIsComplete(cfg, acts, s);
    CompleteIsUnique(cfg, s);
    var stream := ResultsAt(s.results, s.calls);
    Rerun.StreamReadsBack(stream, job);
    forall h
      ensures h in stream <==> h in s.results
    {
      SameEntries(cfg, s, h);
    }
    Rerun.ReportOrderIrrelevant(stream, s.results, targets);
  }

  /** A finished run over targets with distinct names reports on them as the chain of reruns expects. */
  lemma FinishedRunReports(cfg: Config, s: State, targets: seq<Inventory.Target>)
    requires Reachable(cfg, s) && s.pc == Returned && DistinctHosts(cfg) && cfg.hosts == Inventory.Names(targets)
    ensures Rerun.Reports(s.results, targets)
  {
    ReportComplete(cfg, s);
    forall t | t in targets
      ensures Rerun.StatusIn(s.results, t.name).Some?
    {
      var i :| 0 <= i < |targets| && targets[i] == t;
      assert s.results[i].host == Inventory.Names(targets)[i] == t.name;
      Rerun.StatusOfEntry(s.results, t.name);
    }
    forall h | h in s.results
      ensures exists t :: t in targets && t.name == h.host
    {
      var i :| 0 <= i < |s.results| && s.results[i] == h;
      assert targets[i] in targets && targets[i].name == Inventory.Names(targets)[i];
    }
  }

  // Runs that are cut short.

  /** A run that is killed at any point leaves the lines of the hosts announced by then, and no totals. A rerun from
      that file has exactly the hosts among them that did not succeed: one that had not finished is left out. */
  lemma KilledRunRerun(cfg: Config, acts: seq<Action>, s: State, targets: seq<Inventory.Target>, t: Inventory.Target)
    requires Exec(cfg, Init(cfg), acts) == Some(s)
    requires DistinctHosts(cfg) && "" !in cfg.hosts
    ensures var prev := Rerun.HostsIn(Rerun.LinesOf(Announcements(cfg, Init(cfg), acts)));
            t in Rerun.Kept(prev, targets)
            <==> t in targets && exists i :: 0 <= i < |s.phases| && AnnouncedFailing(cfg, s, i, t.name)
  {
    InitInv(cfg);
    AnnouncementsAreResults(cfg, Init(cfg), acts, s);
    assert s.calls[0..] == s.calls;
    ReachableInv(cfg, s);
    var prev := ResultsAt(s.results, s.calls);
    CallsName(cfg, s);
    Rerun.HostLinesReadBack(prev);
    Rerun.KeptMembers(prev, targets, t);
    EntryOfCall(cfg, s, t.name);
  }

  /** Plan `i` is that host's, has been announced, and did not succeed. */
  ghost predicate AnnouncedFailing(cfg: Config, s: State, i: nat, host: string)
    requires i < |s.phases|
  {
    i < |cfg.hosts| && cfg.hosts[i] == host && s.phases[i].Past(Announced) && s.phases[i].status != Success
  }

  lemma CallsName(cfg: Config, s: State)
    requires |s.phases| == |s.results| == |cfg.hosts| && DistinctHosts(cfg) && "" !in cfg.hosts
    requires Results(cfg, s) && Calls(s)
    ensures var prev := ResultsAt(s.results, s.calls);
            && (forall k :: 0 <= k < |prev| ==> prev[k] == HostResult(cfg.hosts[s.calls[k]], s.phases[s.calls[k]].status))
            && (forall k :: 0 <= k < |prev| ==> prev[k].host != "")
            && Rerun.UniqueHosts(prev)
  {
    var prev := ResultsAt(s.results, s.calls);
    forall k | 0 <= k < |prev|
      ensures prev[k] == HostResult(cfg.hosts[s.calls[k]], s.phases[s.calls[k]].status) && prev[k].host != ""
    {
      assert s.phases[s.calls[k]].Past(Announced);
      assert cfg.hosts[s.calls[k]] in cfg.hosts;
    }
    forall i, k | 0 <= i < k < |prev|
      ensures prev[i].host != prev[k].host
    {
      assert s.calls[i] != s.calls[k];
    }
  }

  lemma EntryOfCall(cfg: Config, s: State, host: string)
    requires |s.phases| == |s.results| == |cfg.hosts| && DistinctHosts(cfg) && "" !in cfg.hosts
    requires Results(cfg, s) && Calls(s)
    ensures Rerun.DidNotSucceed(ResultsAt(s.results, s.calls), host)
            <==> exists i :: 0 <= i < |s.phases| && AnnouncedFailing(cfg, s, i, host)
  {
    var prev := ResultsAt(s.results, s.calls);
    CallsName(cfg, s);
    if exists i :: 0 <= i < |s.phases| && AnnouncedFailing(cfg, s, i, host) {
      var i :| 0 <= i < |s.phases| && AnnouncedFailing(cfg, s, i, host);
      assert i in s.calls;
      var k :| 0 <= k < |s.calls| && s.calls[k] == i;
      assert prev[k] == HostResult(host, s.phases[i].status);
      Rerun.StatusIffEntry(prev, host, s.phases[i].status);
    }
    if Rerun.DidNotSucceed(prev, host) {
      var st := Rerun.StatusIn(prev, host).value;
      Rerun.StatusIffEntry(prev, host, st);
      var k :| 0 <= k < |prev| && prev[k] == HostResult(host, st);
      assert AnnouncedFailing(cfg, s, s.calls[k], host);
    }
  }
}
