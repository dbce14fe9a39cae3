/** Saved reports and the selection that `--only-failed` makes from one. */
module Rerun {
  import opened Options
  import opened Report
  import opened Inventory

  /** A line of a .jsonl report: a host's result, or the totals that close the file. */
  datatype Line = HostLine(result: HostResult) | TotalsLine(job: string)

  /**
   * The .jsonl report while it is written. Each call runs under the stream's mutex. What marshalling and
   * writing come to is given with the call.
   */
  class JsonlStream {
    var lines: seq<Line>
    var err: Option<string>
    ghost var submitted: seq<Line>

    /** No error means that nothing is missing. */
    ghost predicate Valid()
      reads this
    {
      err.None? ==> lines == submitted
    }

    constructor ()
      ensures Valid() && submitted == [] && err.None?
    {
      lines, err, submitted := [], None, [];
    }

    /** The first error stays, whatever later lines come to. */
    method Put(l: Line, failure: Option<string>)
      requires Valid()
      modifies this
      ensures Valid()
      ensures submitted == old(submitted) + [l]
      ensures lines == if failure.None? then old(lines) + [l] else old(lines)
      ensures err == if old(err).Some? then old(err) else failure
    {
      submitted := submitted + [l];
      if failure.None? {
        lines := lines + [l];
      }
      if err.None? {
        err := failure;
      }
    }

    /** Closing without an error means that the file holds every line there was, and then the totals. */
    method Close(job: string, failure: Option<string>, closing: Option<string>) returns (e: Option<string>)
      requires Valid()
      modifies this
      ensures Valid()
      ensures e.None? <==> old(err).None? && failure.None? && closing.None?
      ensures e.None? ==> lines == old(submitted) + [TotalsLine(job)]
      ensures old(err).Some? ==> e == old(err)
    {
      Put(TotalsLine(job), failure);
      if err.None? {
        err := closing;
      }
      return err;
    }
  }

  // Reading a report.

  function HostsIn(lines: seq<Line>): seq<HostResult> {
    if lines == [] then []
    else
      var last := lines[|lines| - 1];
      HostsIn(lines[..|lines| - 1]) + if last.HostLine? && last.result.host != "" then [last.result] else []
  }

  method ReadStream(lines: seq<Line>) returns (prev: seq<HostResult>)
    ensures prev == HostsIn(lines)
  {
    prev := [];
    for i := 0 to |lines|
      invariant prev == HostsIn(lines[..i])
    {
      assert lines[..i + 1][..i] == lines[..i];
      if lines[i].HostLine? && lines[i].result.host != "" {
        prev := prev + [lines[i].result];
      }
    }
    assert lines[..|lines|] == lines;
  }

  /** The lines of a report of named hosts, with the totals at the end, give back its results. */
  lemma {:induction false} StreamReadsBack(hosts: seq<HostResult>, job: string)
    requires forall i :: 0 <= i < |hosts| ==> hosts[i].host != ""
    ensures HostsIn(LinesOf(hosts) + [TotalsLine(job)]) == hosts
  {
    assert (LinesOf(hosts) + [TotalsLine(job)])[..|hosts|] == LinesOf(hosts);
    HostLinesReadBack(hosts);
  }

  function LinesOf(hosts: seq<HostResult>): seq<Line> {
    seq(|hosts|, i requires 0 <= i < |hosts| => HostLine(hosts[i]))
  }

  lemma {:induction false} HostLinesReadBack(hosts: seq<HostResult>)
    requires forall i :: 0 <= i < |hosts| ==> hosts[i].host != ""
    ensures HostsIn(LinesOf(hosts)) == hosts
  {
    if hosts != [] {
      var n := |hosts| - 1;
      assert LinesOf(hosts)[..n] == LinesOf(hosts[..n]);
      HostLinesReadBack(hosts[..n]);
      assert hosts == hosts[..n] + [hosts[n]];
    }
  }

  // Choosing.

  /** The status a report gives a host; a later entry overrides an earlier one. */
  function StatusIn(prev: seq<HostResult>, host: string): Option<Status> {
    if prev == [] then None
    else if prev[|prev| - 1].host == host then Some(prev[|prev| - 1].status)
    else StatusIn(prev[..|prev| - 1], host)
  }

  predicate DidNotSucceed(prev: seq<HostResult>, host: string) {
    StatusIn(prev, host).Some? && StatusIn(prev, host).value != Success
  }

  /** The targets that are in the report and did not succeed, in the order they are given. */
  function Kept(prev: seq<HostResult>, targets: seq<Target>): seq<Target> {
    if targets == [] then []
    else
      var last := targets[|targets| - 1];
      Kept(prev, targets[..|targets| - 1]) + if DidNotSucceed(prev, last.name) then [last] else []
  }

  method OnlyFailed(prev: seq<HostResult>, targets: seq<Target>) returns (out: seq<Target>)
    ensures out == Kept(prev, targets)
  {
    var retry: map<string, bool> := map[];
    for i := 0 to |prev|
      invariant forall n :: n in retry <==> StatusIn(prev[..i], n).Some?
      invariant forall n :: n in retry ==> retry[n] == (StatusIn(prev[..i], n).value != Success)
    {
      assert prev[..i + 1][..i] == prev[..i];
      retry := retry[prev[i].host := prev[i].status != Success];
    }
    assert prev[..|prev|] == prev;
    out := [];
    for i := 0 to |targets|
      invariant out == Kept(prev, targets[..i])
    {
      assert targets[..i + 1][..i] == targets[..i];
      if targets[i].name in retry && retry[targets[i].name] {
        out := out + [targets[i]];
      }
    }
    assert targets[..|targets|] == targets;
  }

  /** From a .jsonl file to the targets of the rerun. */
  method OnlyFailedOfStream(lines: seq<Line>, targets: seq<Target>) returns (out: seq<Target>)
    ensures out == Kept(HostsIn(lines), targets)
  {
    var prev := ReadStream(lines);
    out := OnlyFailed(prev, targets);
  }

  ghost predicate UniqueHosts(prev: seq<HostResult>) {
    forall i, j :: 0 <= i < j < |prev| ==> prev[i].host != prev[j].host
  }

  lemma {:induction false} StatusOfEntry(prev: seq<HostResult>, host: string)
    ensures StatusIn(prev, host).Some? ==> HostResult(host, StatusIn(prev, host).value) in prev
    ensures forall i :: 0 <= i < |prev| && prev[i].host == host ==> StatusIn(prev, host).Some?
  {
    if prev != [] {
      StatusOfEntry(prev[..|prev| - 1], host);
      assert forall i :: 0 <= i < |prev| - 1 ==> prev[i] == prev[..|prev| - 1][i];
    }
  }

  /** With unique hosts, the status is that of the host's one entry, wherever it stands. */
  lemma StatusIffEntry(prev: seq<HostResult>, host: string, st: Status)
    requires UniqueHosts(prev)
    ensures StatusIn(prev, host) == Some(st) <==> HostResult(host, st) in prev
  {
    StatusOfEntry(prev, host);
    if HostResult(host, st) in prev {
      var i :| 0 <= i < |prev| && prev[i] == HostResult(host, st);
      var j :| 0 <= j < |prev| && prev[j] == HostResult(host, StatusIn(prev, host).value);
    }
  }

  /** The choice does not depend on the order of the report, which in a .jsonl is that of completion. */
  lemma {:induction false} ReportOrderIrrelevant(a: seq<HostResult>, b: seq<HostResult>, targets: seq<Target>)
    requires UniqueHosts(a) && UniqueHosts(b) && forall h :: h in a <==> h in b
    ensures Kept(a, targets) == Kept(b, targets)
  {
    if targets != [] {
      var host := targets[|targets| - 1].name;
      ReportOrderIrrelevant(a, b, targets[..|targets| - 1]);
      forall st
        ensures StatusIn(a, host) == Some(st) <==> StatusIn(b, host) == Some(st)
      {
        StatusIffEntry(a, host, st);
        StatusIffEntry(b, host, st);
      }
      assert StatusIn(a, host).Some? ==> StatusIn(b, host) == Some(StatusIn(a, host).value);
      assert StatusIn(b, host).Some? ==> StatusIn(a, host) == Some(StatusIn(b, host).value);
    }
  }

  lemma {:induction false} KeptMembers(prev: seq<HostResult>, targets: seq<Target>, t: Target)
    ensures t in Kept(prev, targets) <==> t in targets && DidNotSucceed(prev, t.name)
  {
    if targets != [] {
      var n := |targets| - 1;
      KeptMembers(prev, targets[..n], t);
      assert targets == targets[..n] + [targets[n]];
    }
  }

  // Chains of reruns.

  /** What `Run` reports for its targets: one result each, in whatever order. */
  ghost predicate Reports(rep: seq<HostResult>, targets: seq<Target>) {
    && UniqueHosts(rep)
    && (forall t :: t in targets ==> StatusIn(rep, t.name).Some?)
    && (forall h :: h in rep ==> exists t :: t in targets && t.name == h.host)
  }

  /** The targets of the k-th run of a chain: each run selects from an inventory of its own, and every run after
      the first one then drops what the report of the run before does not list as failed. */
  function RunTargets(selected: seq<seq<Target>>, reps: seq<seq<HostResult>>, k: nat): seq<Target>
    requires k < |selected| && k <= |reps|
  {
    if k == 0 then selected[0] else Kept(reps[k - 1], selected[k])
  }

  ghost predicate RunReported(selected: seq<seq<Target>>, reps: seq<seq<HostResult>>, k: nat)
    requires k < |selected| && k < |reps|
  {
    Reports(reps[k], RunTargets(selected, reps, k))
  }

  ghost predicate Chain(selected: seq<seq<Target>>, reps: seq<seq<HostResult>>) {
    && |reps| <= |selected|
    && forall k :: 0 <= k < |reps| ==> RunReported(selected, reps, k)
  }

  lemma ReportedWasTarget(selected: seq<seq<Target>>, reps: seq<seq<HostResult>>, k: nat, host: string) returns (u: Target)
    requires Chain(selected, reps) && k < |reps| && StatusIn(reps[k], host).Some?
    ensures u in RunTargets(selected, reps, k) && u.name == host
  {
    StatusOfEntry(reps[k], host);
    var h := HostResult(host, StatusIn(reps[k], host).value);
    assert h in reps[k] && RunReported(selected, reps, k);
    u :| u in RunTargets(selected, reps, k) && u.name == h.host;
  }

  lemma EarlierTarget(selected: seq<seq<Target>>, reps: seq<seq<HostResult>>, k: nat, t: Target) returns (u: Target)
    requires Chain(selected, reps) && 0 < k < |selected| && k <= |reps| && t in RunTargets(selected, reps, k)
    ensures DidNotSucceed(reps[k - 1], t.name)
    ensures u in RunTargets(selected, reps, k - 1) && u.name == t.name
  {
    KeptMembers(reps[k - 1], selected[k], t);
    u := ReportedWasTarget(selected, reps, k - 1, t.name);
  }

  lemma {:induction false} FailedBefore(selected: seq<seq<Target>>, reps: seq<seq<HostResult>>, k: nat, t: Target, j: nat)
    requires Chain(selected, reps) && j < k < |selected| && k <= |reps| && t in RunTargets(selected, reps, k)
    ensures DidNotSucceed(reps[j], t.name)
  {
    var u := EarlierTarget(selected, reps, k, t);
    if j < k - 1 {
      FailedBefore(selected, reps, k - 1, u, j);
    }
  }

  /** The first run has all selected targets, a later one exactly those that failed in every run before it. */
  lemma RetriedUntilSuccess(selected: seq<seq<Target>>, reps: seq<seq<HostResult>>, k: nat, t: Target)
    requires Chain(selected, reps) && k < |selected| && k <= |reps|
    ensures t in RunTargets(selected, reps, k)
            <==> t in selected[k] && forall j :: 0 <= j < k ==> DidNotSucceed(reps[j], t.name)
  {
    if k > 0 {
      KeptMembers(reps[k - 1], selected[k], t);
    }
    if t in RunTargets(selected, reps, k) {
      forall j | 0 <= j < k
        ensures DidNotSucceed(reps[j], t.name)
      {
        FailedBefore(selected, reps, k, t, j);
      }
    }
  }

  /** A host that succeeded is in no later report, so nothing runs on it again. */
  lemma SucceededIsLeftAlone(selected: seq<seq<Target>>, reps: seq<seq<HostResult>>, j: nat, k: nat, host: string)
    requires Chain(selected, reps) && j < k < |selected| && k <= |reps|
    requires StatusIn(reps[j], host) == Some(Success)
    ensures forall t :: t in RunTargets(selected, reps, k) ==> t.name != host
    ensures k < |reps| ==> StatusIn(reps[k], host).None?
  {
    forall t | t in RunTargets(selected, reps, k)
      ensures t.name != host
    {
      FailedBefore(selected, reps, k, t, j);
    }
    if k < |reps| && StatusIn(reps[k], host).Some? {
      var u := ReportedWasTarget(selected, reps, k, host);
      assert false;
    }
  }

  lemma {:induction false} KeptTwice(a: seq<HostResult>, b: seq<HostResult>, targets: seq<Target>)
    requires forall t :: t in targets && DidNotSucceed(b, t.name) ==> DidNotSucceed(a, t.name)
    ensures Kept(b, targets) == Kept(b, Kept(a, targets))
  {
    if targets != [] {
      var n := |targets| - 1;
      KeptTwice(a, b, targets[..n]);
      var front := Kept(a, targets[..n]);
      if DidNotSucceed(a, targets[n].name) {
        assert (front + [targets[n]])[..|front|] == front;
      } else {
        assert front + [] == front;
      }
    }
  }

  /** With one selection throughout, a rerun has the targets of the run before in their order, less those that
      succeeded in it. */
  lemma RerunNarrows(all: seq<Target>, selected: seq<seq<Target>>, reps: seq<seq<HostResult>>, k: nat)
    requires Chain(selected, reps) && 0 < k < |selected| && k <= |reps|
    requires forall j :: 0 <= j < |selected| ==> selected[j] == all
    ensures RunTargets(selected, reps, k) == Kept(reps[k - 1], RunTargets(selected, reps, k - 1))
  {
    if k > 1 {
      forall t | t in all && DidNotSucceed(reps[k - 1], t.name)
        ensures DidNotSucceed(reps[k - 2], t.name)
      {
        KeptMembers(reps[k - 1], all, t);
        FailedBefore(selected, reps, k, t, k - 2);
      }
      KeptTwice(reps[k - 2], reps[k - 1], all);
    }
  }
}
