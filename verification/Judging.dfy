/** How the output of a command becomes the verdict that a host run acts on. */
module Judging {
  import opened Options
  import opened OutputBuffer
  import opened Text
  import HostRun
  import HostSteps
  import HostTheorems
  import Network
  import Report

  /** The reply is that of a command with these complete outputs, judged by what was kept and found of them. */
  predicate Observed(r: Network.Reply, e: Expectation, stdout: string, stderr: string, matches: bool) {
    && r.err.None? && r.started
    && (r.exit == Some(e.exitCode) ==> (r.holds <==> ConditionsMet(e, stdout, stderr) && matches))
  }

  /** The text without the newlines at its end. */
  function Trimmed(s: string): (r: string)
    ensures r <= s && (r == "" || r[|r| - 1] != '\n')
    ensures forall i :: |r| <= i < |s| ==> s[i] == '\n'
  {
    if s != "" && s[|s| - 1] == '\n' then Trimmed(s[..|s| - 1]) else s
  }

  /** `Exec` of a command that ended, with its outputs in whatever chunks, and `check` of the result. */
  method Observe(e: Expectation, status: ExitStatus, out: seq<string>, err: seq<string>, limit: nat, matches: bool)
    returns (r: Network.Reply)
    ensures Observed(r, e, Concat(out), Concat(err), matches)
    ensures r.exit == (match status case NotReported => None case Reported(code) => Some(code))
    ensures r.stdout == Trimmed(Retained(Concat(out), limit))
  {
    var stdout := Filled(out, limit, e.contains + e.notContains);
    var stderr := Filled(err, limit, e.contains + e.notContains);
    var v := Check(e, status, stdout, stderr, matches);
    var text := stdout.String();
    var exit := match status case NotReported => None case Reported(code) => Some(code);
    return Network.Reply(None, exit, true, Trimmed(text), v.Holds?);
  }

  /** The verdict on the attempt is the one its complete outputs deserve. */
  lemma JudgedByCompleteOutput(
    a: HostSteps.Action, k: nat, r: Network.Reply, e: Expectation, stdout: string, stderr: string, matches: bool)
    requires Observed(r, e, stdout, stderr, matches) && a.exitCode == e.exitCode
    ensures HostSteps.Judge(a, Network.Body(k), r).None?
            <==> r.exit == Some(e.exitCode) && ConditionsMet(e, stdout, stderr) && matches
  {
  }

  /** In every host run: a plain step that is SUCCESS printed what it had to and nothing it must not, wherever in its
      output that was and however much of it was dropped. */
  lemma PlainSuccessPrinted(
    acts: seq<HostSteps.Action>, h: HostRun.HostResult, r: HostRun.StepsRecord, connecting: seq<Network.Event>,
    events: seq<Network.Event>, k: nat, e: Expectation, stdout: string, stderr: string, matches: bool)
    requires HostRun.HostRan(acts, h, r, connecting, events) && k < |acts| && !acts[k].disconnect && !acts[k].fireAndForget
    requires |h.steps| == |acts| && h.steps[k].status == Report.Success && k < |r.parts| && HostSteps.Ended(r.parts[k].tries)
    requires e.exitCode == acts[k].exitCode
    requires Observed(HostSteps.FinalEvent(r.parts[k].tries).reply, e, stdout, stderr, matches)
    ensures ConditionsMet(e, stdout, stderr) && matches
  {
    HostTheorems.PlainSuccessIsEarned(acts, h, r, connecting, events, k);
    JudgedByCompleteOutput(acts[k], k, HostSteps.FinalEvent(r.parts[k].tries).reply, e, stdout, stderr, matches);
  }
}
