/** What every host run guarantees, whatever the network did: its report, its retries, its connections. */
module HostTheorems {
  import opened Options
  import opened Counting
  import opened Domain
  import opened Network
  import opened HostConnection
  import opened HostSteps
  import opened HostRun
  import Report

  predicate Connected(connecting: seq<Event>) {
    connecting != [] && connecting[|connecting| - 1].Dialed?
  }

  // The report.

  /** What the result of a step that ran can look like. */
  lemma StepCoherent(a: Action, k: nat, c: nat, nc: Option<nat>, p: Parts, sr: StepResult, f: Option<Category>)
    requires StepRan(a, k, c, nc, p, sr, f)
    ensures sr.step == k && sr.category == f
    ensures sr.status == Report.Success <==> f.None?
    ensures sr.status == Report.Success || sr.status == Report.Failed || sr.status == Report.Cancelled
    ensures nc.None? ==> f.Some?
    ensures sr.attempts == |p.tries| <= a.retries + 1
    ensures sr.attempts == 0 <==> NoBootId(a, k, c, nc, p, sr, f) && a.disconnect
  {
    if a.disconnect && !NoBootId(a, k, c, nc, p, sr, f) {
      var id :| DisconnectRan(a, k, c, nc, p, sr, f, id);
    }
  }

  lemma RanFacts(acts: seq<Action>, h: HostResult, r: StepsRecord, k: nat)
    requires StepsRan(acts, |acts|, h.steps, r) && k < |acts|
    ensures k < r.stop ==> RanAt(acts, h.steps, r, k)
    ensures k >= r.stop ==> SkippedAt(h.steps, r, k)
    ensures h.steps[k].step == k && h.steps[k].category == r.fs[k]
    ensures h.steps[k].status == Report.Skipped <==> k >= r.stop
    ensures h.steps[k].status == Report.Success <==> k < r.stop && r.fs[k].None?
  {
    if k < r.stop {
      assert RanAt(acts, h.steps, r, k);
      StepCoherent(acts[k], k, r.clients[k].value, r.clients[k + 1], r.parts[k], h.steps[k], r.fs[k]);
    } else {
      assert SkippedAt(h.steps, r, k);
    }
  }

  /** One result per step, in the order of the steps. */
  lemma OneResultPerStep(
    acts: seq<Action>, h: HostResult, r: StepsRecord,
    connecting: seq<Event>, events: seq<Event>, k: nat)
    requires HostRan(acts, h, r, connecting, events) && k < |acts|
    ensures |h.steps| == |acts| && h.steps[k].step == k
  {
    if Connected(connecting) {
      RanFacts(acts, h, r, k);
    }
  }

  /** A host succeeded exactly if all its steps did. */
  lemma SuccessMeansAllSucceeded(
    acts: seq<Action>, h: HostResult, r: StepsRecord,
    connecting: seq<Event>, events: seq<Event>)
    requires HostRan(acts, h, r, connecting, events) && acts != []
    ensures h.status == Report.Success <==> forall k :: 0 <= k < |h.steps| ==> h.steps[k].status == Report.Success
    ensures h.status == Report.Success <==> h.category.None?
  {
    if Connected(connecting) {
      forall k | 0 <= k < |acts|
        ensures h.steps[k].status == Report.Success <==> k < r.stop && r.fs[k].None?
      {
        RanFacts(acts, h, r, k);
      }
      if r.stop < |acts| {
        RanFacts(acts, h, r, r.stop);
      }
    } else {
      assert h.steps[0] == SkippedStep(0);
    }
  }

  /** The host is reported by its first failing step: all before it succeeded, and its category is the host's. */
  lemma FirstFailureReported(
    acts: seq<Action>, h: HostResult, r: StepsRecord,
    connecting: seq<Event>, events: seq<Event>)
    requires HostRan(acts, h, r, connecting, events) && h.status != Report.Success
    ensures h.status == StatusFor(h.category)
    ensures h.failedStep.None? <==> !Connected(connecting)
    ensures h.failedStep.None? ==>
              && connecting != [] && LastOf(connecting).DialFailed?
              && (h.category == Some(LastOf(connecting).cat)
                  || (h.category == Some(Cancelled) && LastOf(connecting).cat.Retryable()))
    ensures h.failedStep.Some? ==>
              var j := h.failedStep.value;
              && j < |h.steps| == |acts|
              && (h.steps[j].status == Report.Failed || h.steps[j].status == Report.Cancelled)
              && h.steps[j].category == h.category
              && forall k :: 0 <= k < j ==> h.steps[k].status == Report.Success
  {
    if Connected(connecting) {
      forall k | 0 <= k < |acts|
        ensures h.steps[k].category == r.fs[k]
        ensures h.steps[k].status == Report.Skipped <==> k >= r.stop
        ensures h.steps[k].status == Report.Success <==> k < r.stop && r.fs[k].None?
      {
        RanFacts(acts, h, r, k);
      }
      var j := h.failedStep.value;
      RanFacts(acts, h, r, j);
      if j < r.stop {
        StepCoherent(acts[j], j, r.clients[j].value, r.clients[j + 1], r.parts[j], h.steps[j], r.fs[j]);
      }
    }
  }

  /** A step without `continue_on_error`, a cancellation or a dead session ends the host: all after it is skipped. */
  lemma FailureStops(
    acts: seq<Action>, h: HostResult, r: StepsRecord,
    connecting: seq<Event>, events: seq<Event>, k: nat, j: nat)
    requires HostRan(acts, h, r, connecting, events) && k < j < |acts|
    requires |h.steps| == |acts| && h.steps[k].category.Some?
    requires !acts[k].continueOnError || h.steps[k].category == Some(Cancelled) || h.steps[k].category == Some(SessionFailed)
    ensures h.steps[j].status == Report.Skipped
  {
    if Connected(connecting) {
      RanFacts(acts, h, r, k);
      RanFacts(acts, h, r, j);
    }
  }

  /** Skipped steps are a suffix, and start only after a failure. */
  lemma SkipsFollowAFailure(
    acts: seq<Action>, h: HostResult, r: StepsRecord,
    connecting: seq<Event>, events: seq<Event>, k: nat)
    requires HostRan(acts, h, r, connecting, events) && k < |acts| && Connected(connecting)
    requires |h.steps| == |acts| && h.steps[k].status == Report.Skipped
    ensures exists i :: 0 <= i < k && h.steps[i].category.Some?
    ensures forall j :: k <= j < |acts| ==> h.steps[j].status == Report.Skipped
  {
    RanFacts(acts, h, r, k);
    RanFacts(acts, h, r, r.stop - 1);
    assert h.steps[r.stop - 1].category.Some?;
    forall j | k <= j < |acts|
      ensures h.steps[j].status == Report.Skipped
    {
      RanFacts(acts, h, r, j);
    }
  }

  // Submissions.

  /** Counts the times the command of step `k` was handed to the host. */
  function Submits(k: nat): Event -> nat {
    (e: Event) => if e.Ran? && e.cmd == Body(k) then 1 else 0
  }

  lemma TrySubmits(a: Action, k: nat, c: nat, ev: seq<Event>, j: nat)
    requires TryEvents(a, k, c, ev)
    ensures Total(ev, Submits(j)) <= if j == k then 1 else 0
  {
    if |ev| == 2 {
      assert ev == [ev[0]] + [ev[1]];
      TotalConcat([ev[0]], [ev[1]], Submits(j));
    }
    Single(ev[0], j);
    Single(ev[|ev| - 1], j);
    assert |ev| == 1 ==> ev == [ev[0]];
  }

  lemma Single(e: Event, j: nat)
    ensures Total([e], Submits(j)) == Submits(j)(e)
  {
    assert [e][1..] == [];
  }

  lemma {:induction false} TriesSubmit(a: Action, k: nat, c: nat, tries: seq<seq<Event>>, j: nat)
    requires forall i :: 0 <= i < |tries| ==> TryEvents(a, k, c, tries[i])
    ensures Total(Flatten(tries), Submits(j)) <= if j == k then |tries| else 0
  {
    if tries != [] {
      var n := |tries| - 1;
      TriesSubmit(a, k, c, tries[..n], j);
      TrySubmits(a, k, c, tries[n], j);
      TotalConcat(Flatten(tries[..n]), tries[n], Submits(j));
    }
  }

  lemma {:induction false} NoneSubmit(ev: seq<Event>, j: nat)
    requires forall i :: 0 <= i < |ev| ==> !(ev[i].Ran? && ev[i].cmd == Body(j))
    ensures Total(ev, Submits(j)) == 0
  {
    if ev != [] {
      NoneSubmit(ev[1..], j);
    }
  }

  /** What surrounds the attempts of a step submits nothing. */
  lemma StepSubmits(a: Action, k: nat, c: nat, nc: Option<nat>, p: Parts, sr: StepResult, f: Option<Category>, j: nat)
    requires StepRan(a, k, c, nc, p, sr, f)
    ensures Total(p.Events(), Submits(j)) == Total(Flatten(p.tries), Submits(j))
    ensures Total(p.Events(), Submits(j)) <= if j == k then |p.tries| else 0
  {
    TotalConcat(p.boot + Flatten(p.tries), p.rest, Submits(j));
    TotalConcat(p.boot, Flatten(p.tries), Submits(j));
    TriesHere(a, k, c, nc, p, sr, f);
    TriesSubmit(a, k, c, p.tries, j);
    NoneSubmit(p.boot, j);
    RestIsReconnect(a, k, c, nc, p, sr, f);
    NoneSubmit(p.rest, j);
  }

  lemma TriesHere(a: Action, k: nat, c: nat, nc: Option<nat>, p: Parts, sr: StepResult, f: Option<Category>)
    requires StepRan(a, k, c, nc, p, sr, f)
    ensures forall i :: 0 <= i < |p.tries| ==> TryEvents(a, k, c, p.tries[i])
    ensures forall i :: 0 <= i < |p.boot| ==> RanHere(p.boot[i], c, BootId)
  {
    if a.disconnect && !NoBootId(a, k, c, nc, p, sr, f) {
      var id :| DisconnectRan(a, k, c, nc, p, sr, f, id);
    }
    forall i | 0 <= i < |p.tries|
      ensures TryEvents(a, k, c, p.tries[i])
    {
      assert i < |p.tries| - 1 ==> Repeated(a, k, c, p.tries[i]);
    }
  }

  lemma RestIsReconnect(a: Action, k: nat, c: nat, nc: Option<nat>, p: Parts, sr: StepResult, f: Option<Category>)
    requires StepRan(a, k, c, nc, p, sr, f)
    ensures forall i :: 0 <= i < |p.rest| && p.rest[i].Ran? ==> p.rest[i].cmd == BootId
  {
    if p.rest != [] {
      var id :| DisconnectRan(a, k, c, nc, p, sr, f, id);
      forall i | 0 <= i < |p.rest| && p.rest[i].Ran?
        ensures p.rest[i].cmd == BootId
      {
        assert i > 0 && p.rest[1..][i - 1] == p.rest[i];
      }
    }
  }

  /** If no other step submits the command of step `k`, all submissions of it are its own. */
  lemma {:induction false} SubmitsOfOne(parts: seq<Parts>, k: nat)
    requires forall m :: 0 <= m < |parts| && m != k ==> Total(parts[m].Events(), Submits(k)) == 0
    ensures Total(AllEvents(parts), Submits(k)) == if k < |parts| then Total(parts[k].Events(), Submits(k)) else 0
  {
    if parts != [] {
      var n := |parts| - 1;
      var front := parts[..n];
      SubmitsOfOne(front, k);
      LastSubmits(parts, k);
      assert k != n ==> Total(parts[n].Events(), Submits(k)) == 0;
      assert k < n ==> front[k] == parts[k];
    } else {
      assert AllEvents(parts) == [];
    }
  }

  lemma LastSubmits(parts: seq<Parts>, k: nat)
    requires parts != []
    ensures var n := |parts| - 1;
            Total(AllEvents(parts), Submits(k)) == Total(AllEvents(parts[..n]), Submits(k)) + Total(parts[n].Events(), Submits(k))
  {
    TotalConcat(AllEvents(parts[..|parts| - 1]), parts[|parts| - 1].Events(), Submits(k));
  }

  lemma OwnSubmits(acts: seq<Action>, h: HostResult, r: StepsRecord, m: nat, k: nat)
    requires StepsRan(acts, |acts|, h.steps, r) && m < |acts|
    ensures m != k ==> Total(r.parts[m].Events(), Submits(k)) == 0
    ensures Total(r.parts[m].Events(), Submits(k)) <= h.steps[m].attempts
  {
    RanFacts(acts, h, r, m);
    if m < r.stop {
      StepCoherent(acts[m], m, r.clients[m].value, r.clients[m + 1], r.parts[m], h.steps[m], r.fs[m]);
      StepSubmits(acts[m], m, r.clients[m].value, r.clients[m + 1], r.parts[m], h.steps[m], r.fs[m], k);
    } else {
      assert NO_PARTS.Events() == [];
    }
  }

  lemma SubmitsInSteps(acts: seq<Action>, h: HostResult, r: StepsRecord, k: nat)
    requires StepsRan(acts, |acts|, h.steps, r) && k < |acts|
    ensures Total(AllEvents(r.parts), Submits(k)) == Total(r.parts[k].Events(), Submits(k))
  {
    forall m | 0 <= m < |acts| && m != k
      ensures Total(r.parts[m].Events(), Submits(k)) == 0
    {
      OwnSubmits(acts, h, r, m, k);
    }
    SubmitsOfOne(r.parts, k);
  }

  /** All submissions of step `k` are its own. */
  lemma SubmitsInRun(
    acts: seq<Action>, h: HostResult, r: StepsRecord, connecting: seq<Event>, events: seq<Event>, k: nat)
    requires HostRan(acts, h, r, connecting, events) && k < |acts|
    ensures !Connected(connecting) ==> Total(events, Submits(k)) == 0
    ensures Connected(connecting) ==>
              |r.parts| == |acts| && Total(events, Submits(k)) == Total(r.parts[k].Events(), Submits(k))
  {
    ConnectingDials(acts, h, r, connecting, events);
    NoneSubmit(connecting, k);
    if Connected(connecting) {
      NoneSubmit(r.probe, k);
      NoneSubmit(Hangup(r.clients[|acts|]), k);
      FourParts(connecting, r.probe, AllEvents(r.parts), Hangup(r.clients[|acts|]), Submits(k));
      SubmitsInSteps(acts, h, r, k);
    }
  }

  lemma FourParts(a: seq<Event>, b: seq<Event>, c: seq<Event>, d: seq<Event>, w: Event -> nat)
    ensures Total(a + b + c + d, w) == Total(a, w) + Total(b, w) + Total(c, w) + Total(d, w)
  {
    TotalConcat(a + b + c, d, w);
    TotalConcat(a + b, c, w);
    TotalConcat(a, b, w);
  }

  /** Over the whole run of a host, reconnects included, the command of a step is submitted no more often
      than its reported attempts, and a step that was skipped never. */
  lemma SubmittedPerAttempt(
    acts: seq<Action>, h: HostResult, r: StepsRecord, connecting: seq<Event>, events: seq<Event>, k: nat)
    requires HostRan(acts, h, r, connecting, events) && k < |acts|
    ensures |h.steps| == |acts|
    ensures Total(events, Submits(k)) <= h.steps[k].attempts <= acts[k].retries + 1
    ensures h.steps[k].status == Report.Skipped ==> Total(events, Submits(k)) == 0
  {
    SubmitsInRun(acts, h, r, connecting, events, k);
    if Connected(connecting) {
      OwnSubmits(acts, h, r, k, k);
      RanFacts(acts, h, r, k);
      if k < r.stop {
        StepCoherent(acts[k], k, r.clients[k].value, r.clients[k + 1], r.parts[k], h.steps[k], r.fs[k]);
      }
    }
  }

  /** The command of a step built without retries, as every reboot, disconnect and fire-and-forget step is
      (module Building), is submitted at most once over the entire host run. */
  lemma SubmittedAtMostOnce(
    acts: seq<Action>, h: HostResult, r: StepsRecord,
    connecting: seq<Event>, events: seq<Event>, k: nat)
    requires HostRan(acts, h, r, connecting, events) && k < |acts| && acts[k].retries == 0
    ensures Total(events, Submits(k)) <= 1
  {
    SubmittedPerAttempt(acts, h, r, connecting, events, k);
  }

  /** A step that succeeded without any of its attempts submitting the command: its upload was cut off,
      and the cut was taken for the connection loss the step expects. */
  ghost predicate CutOff(a: Action, p: Parts) {
    && a.content && (a.disconnect || a.fireAndForget)
    && Ended(p.tries)
    && FinalEvent(p.tries).cmd.Upload?
    && FinalEvent(p.tries).reply.started
    && FinalEvent(p.tries).reply.exit.None?
  }

  /** A plain step is SUCCESS only on the expected exit code with all output conditions met. */
  lemma PlainSuccessIsEarned(
    acts: seq<Action>, h: HostResult, r: StepsRecord,
    connecting: seq<Event>, events: seq<Event>, k: nat)
    requires HostRan(acts, h, r, connecting, events) && k < |acts| && !acts[k].disconnect && !acts[k].fireAndForget
    requires |h.steps| == |acts| && h.steps[k].status == Report.Success
    ensures k < |r.parts| && Ended(r.parts[k].tries)
    ensures var e := FinalEvent(r.parts[k].tries);
            e.cmd == Body(k) && e.reply.err.None? && e.reply.exit == Some(acts[k].exitCode) && e.reply.holds
    ensures h.steps[k].exit == Some(acts[k].exitCode)
  {
    RanFacts(acts, h, r, k);
    var tries := r.parts[k].tries;
    assert TryEvents(acts[k], k, r.clients[k].value, tries[|tries| - 1]);
  }

  /** SUCCESS means the last attempt got as far as the command, unless the step was cut off during its upload. */
  lemma SuccessMeansSubmitted(
    acts: seq<Action>, h: HostResult, r: StepsRecord,
    connecting: seq<Event>, events: seq<Event>, k: nat)
    requires HostRan(acts, h, r, connecting, events) && k < |acts|
    requires |h.steps| == |acts| && h.steps[k].status == Report.Success
    ensures k < |r.parts| && Ended(r.parts[k].tries)
    ensures FinalEvent(r.parts[k].tries).cmd == Body(k) <==> !CutOff(acts[k], r.parts[k])
  {
    RanFacts(acts, h, r, k);
    SuccessEnds(acts[k], k, r.clients[k].value, r.clients[k + 1], r.parts[k], h.steps[k], r.fs[k]);
  }

  lemma SuccessEnds(a: Action, k: nat, c: nat, nc: Option<nat>, p: Parts, sr: StepResult, f: Option<Category>)
    requires StepRan(a, k, c, nc, p, sr, f) && sr.status == Report.Success
    ensures Ended(p.tries) && (FinalEvent(p.tries).cmd == Body(k) <==> !CutOff(a, p))
  {
    if a.disconnect {
      StepCoherent(a, k, c, nc, p, sr, f);
      var id :| DisconnectRan(a, k, c, nc, p, sr, f, id);
    }
    assert TryEvents(a, k, c, p.tries[|p.tries| - 1]);
  }

  // Cancellation.

  /** A step is reported as its category says, but for one case: the read of the boot ID was cancelled. */
  lemma StatusFitsCategory(a: Action, k: nat, c: nat, nc: Option<nat>, p: Parts, sr: StepResult, f: Option<Category>)
    requires StepRan(a, k, c, nc, p, sr, f)
    ensures sr.status == StatusFor(sr.category) <==> !(sr.attempts == 0 && f == Some(Cancelled))
    ensures sr.attempts == 0 && f == Some(Cancelled) ==>
              a.disconnect && a.reboot && sr.status == Report.Failed && p.boot[0].reply.err == Some(Cancelled)
  {
    if a.disconnect && !NoBootId(a, k, c, nc, p, sr, f) {
      var id :| DisconnectRan(a, k, c, nc, p, sr, f, id);
    }
  }

  /** A step that keeps its connection is CANCELLED exactly if its last command was; so it is not when the pause
      before another attempt was cut short. */
  lemma CancelledByLastReply(a: Action, k: nat, c: nat, nc: Option<nat>, p: Parts, sr: StepResult, f: Option<Category>)
    requires StepRan(a, k, c, nc, p, sr, f) && !a.disconnect
    ensures Ended(p.tries)
    ensures sr.status == Report.Cancelled <==> FinalEvent(p.tries).reply.err == Some(Cancelled)
    ensures Interrupted(a, p.tries) ==> sr.status != Report.Cancelled && (!a.fireAndForget ==> sr.status == Report.Failed)
  {
    assert TryEvents(a, k, c, p.tries[|p.tries| - 1]);
  }

  /** A host is CANCELLED exactly if the failure that decides it was a cancellation. */
  lemma HostCancelledIff(acts: seq<Action>, h: HostResult, r: StepsRecord, connecting: seq<Event>, events: seq<Event>)
    requires HostRan(acts, h, r, connecting, events)
    ensures h.status == Report.Cancelled <==> h.category == Some(Cancelled)
    ensures h.status == Report.Success || h.status == Report.Failed || h.status == Report.Cancelled
  {
  }

  // Reboots and connections.

  /** After a reboot step that succeeded, the next step gets another connection, on which a boot ID was read
      that differs from the one read on the old connection before the command. */
  lemma RebootVerified(
    acts: seq<Action>, h: HostResult, r: StepsRecord,
    connecting: seq<Event>, events: seq<Event>, k: nat)
    requires HostRan(acts, h, r, connecting, events) && k < |acts| && acts[k].reboot && acts[k].disconnect
    requires |h.steps| == |acts| && h.steps[k].status == Report.Success
    ensures |r.clients| == |acts| + 1 && r.clients[k].Some? && r.clients[k + 1].Some? && k < |r.parts|
    ensures var p, c, nc := r.parts[k], r.clients[k].value, r.clients[k + 1].value;
            && c != nc && |p.boot| == 1 && p.rest != []
            && RanHere(p.boot[0], c, BootId) && BootIdIn(p.boot[0].reply).Some?
            && NewBoot(p.rest[|p.rest| - 1], nc, BootIdIn(p.boot[0].reply).value)
  {
    RanFacts(acts, h, r, k);
    var a, c, nc, p := acts[k], r.clients[k].value, r.clients[k + 1], r.parts[k];
    StepCoherent(a, k, c, nc, p, h.steps[k], r.fs[k]);
    var id :| DisconnectRan(a, k, c, nc, p, h.steps[k], r.fs[k], id);
    assert p.rest[1..][|p.rest| - 2] == p.rest[|p.rest| - 1];
  }

  /** Until the next step that may disconnect, the connection stays the one that step `k` left behind. */
  lemma {:induction false} ConnectionStays(acts: seq<Action>, h: HostResult, r: StepsRecord, k: nat, j: nat)
    requires StepsRan(acts, |acts|, h.steps, r) && k < j <= |acts|
    requires forall i :: k < i < j ==> !acts[i].disconnect
    ensures r.clients[j] == r.clients[k + 1]
  {
    if k + 1 < j {
      ConnectionStays(acts, h, r, k, j - 1);
      RanFacts(acts, h, r, j - 1);
    }
  }

  /** So every attempt of a later step, up to and including the next that may disconnect, is made on the
      connection that showed the new boot ID. */
  lemma LaterStepsOnNewBoot(
    acts: seq<Action>, h: HostResult, r: StepsRecord, connecting: seq<Event>, events: seq<Event>,
    k: nat, j: nat, t: nat, i: nat)
    requires HostRan(acts, h, r, connecting, events) && k < j < |acts| && acts[k].reboot && acts[k].disconnect
    requires |h.steps| == |acts| && h.steps[k].status == Report.Success
    requires forall m :: k < m < j ==> !acts[m].disconnect
    requires |r.parts| == |acts| && t < |r.parts[j].tries| && i < |r.parts[j].tries[t]|
    ensures r.parts[j].tries[t][i].Ran?
    ensures |r.parts[k].boot| == 1 && r.parts[k].boot[0].Ran? && r.parts[k].rest != []
    ensures var p := r.parts[k];
            && BootIdIn(p.boot[0].reply).Some?
            && NewBoot(p.rest[|p.rest| - 1], r.parts[j].tries[t][i].client, BootIdIn(p.boot[0].reply).value)
  {
    RebootVerified(acts, h, r, connecting, events, k);
    ConnectionStays(acts, h, r, k, j);
    TriedOn(acts, h, r, j, t, i);
  }

  /** A command of a step runs on the connection that the step began with. */
  lemma TriedOn(acts: seq<Action>, h: HostResult, r: StepsRecord, j: nat, t: nat, i: nat)
    requires StepsRan(acts, |acts|, h.steps, r) && j < |acts|
    requires t < |r.parts[j].tries| && i < |r.parts[j].tries[t]|
    ensures r.clients[j].Some?
    ensures r.parts[j].tries[t][i].Ran? && r.parts[j].tries[t][i].client == r.clients[j].value
  {
    RanFacts(acts, h, r, j);
    TriesHere(acts[j], j, r.clients[j].value, r.clients[j + 1], r.parts[j], h.steps[j], r.fs[j]);
    assert TryEvents(acts[j], j, r.clients[j].value, r.parts[j].tries[t]);
  }
}
