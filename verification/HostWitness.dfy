/** Host runs that exist: what the exceptions of module HostTheorems look like from the first dial to the last event. */
module HostWitness {
  import opened Options
  import opened Counting
  import opened Domain
  import opened Network
  import opened HostSteps
  import opened HostRun
  import opened HostTheorems
  import Report

  // Steps.

  function Printed(text: string): Reply {
    Reply(None, Some(0), true, text, true)
  }

  function Answer(a: Action): Reply {
    Reply(None, Some(a.exitCode), true, "", true)
  }

  function Cut(err: Category): Reply
    requires err == SessionFailed || err == Cancelled
  {
    Reply(Some(err), None, true, "", false)
  }

  function Wrong(a: Action): Reply {
    Reply(None, Some(a.exitCode + 1), true, "", true)
  }

  /** One attempt whose command gets this reply. */
  function Attempted(a: Action, k: nat, c: nat, r: Reply): seq<Event> {
    if a.content then [Ran(c, Upload(k), Printed("/tmp/t")), Ran(c, Body(k), r)] else [Ran(c, Body(k), r)]
  }

  predicate Reboots(a: Action) {
    a.disconnect && a.reboot
  }

  function BootRead(a: Action, c: nat): seq<Event> {
    if Reboots(a) then [Ran(c, BootId, Printed("x"))] else []
  }

  /** The host is back, after a reboot with another boot ID. */
  function Return(a: Action, c: nat): seq<Event> {
    if Reboots(a) then [HungUp(c), Dialed(c + 1), Ran(c + 1, BootId, Printed("y"))]
    else [HungUp(c), Dialed(c + 1)]
  }

  /** A step on connection `c`, and the connection it leaves. */
  datatype Play = Play(parts: Parts, sr: StepResult, f: Option<Category>, nc: nat)

  ghost predicate Plays(a: Action, k: nat, c: nat, p: Play) {
    && StepRan(a, k, c, Some(p.nc), p.parts, p.sr, p.f)
    && HeldFrom(One(c), p.parts.Events()) == One(p.nc)
  }

  /** The step does what it is for. */
  function Done(a: Action, k: nat, c: nat): Play {
    Play(Parts(BootRead(a, c), [Attempted(a, k, c, Answer(a))], if Reboots(a) then Return(a, c) else []),
         StepResult(k, Report.Success, None, 1, Some(a.exitCode), true), None, if Reboots(a) then c + 1 else c)
  }

  /** The upload loses the connection, and the step is taken for done. */
  function CutShort(a: Action, k: nat, c: nat): Play
    requires a.content && (a.disconnect || a.fireAndForget)
  {
    Play(Parts(BootRead(a, c), [[Ran(c, Upload(k), Cut(SessionFailed))]], if a.disconnect then Return(a, c) else []),
         StepResult(k, Report.Success, None, 1, None, true), None, if a.disconnect then c + 1 else c)
  }

  /** The read of the boot ID before a reboot is cancelled. */
  function BootReadCancelled(a: Action, k: nat, c: nat): Play {
    Play(Parts([Ran(c, BootId, Cut(Cancelled))], [], []),
         StepResult(k, Report.Failed, Some(Cancelled), 0, None, false), Some(Cancelled), c)
  }

  /** One attempt with a wrong exit code; the pause before the next is cancelled. */
  function PauseCancelled(a: Action, k: nat, c: nat): Play {
    Play(Parts(BootRead(a, c), [Attempted(a, k, c, Wrong(a))], []),
         StepResult(k, Report.Failed, Some(CommandFailed), 1, Some(a.exitCode + 1), true), Some(CommandFailed), c)
  }

  lemma FlattenOne(ev: seq<Event>)
    ensures Flatten([ev]) == ev
  {
    assert [ev][..0] == [];
    assert [] + ev == ev;
  }

  lemma ReturnHeld(a: Action, c: nat)
    ensures HeldFrom(One(c), Return(a, c)) == One(c + 1)
  {
    var r := Return(a, c);
    HeldFromConcat(One(c), [HungUp(c)], r[1..]);
    HeldFromConcat(Nobody, [Dialed(c + 1)], r[2..]);
    assert r == [HungUp(c)] + r[1..] && r[1..] == [Dialed(c + 1)] + r[2..];
    HeldByRuns(c + 1, r[2..]);
  }

  lemma {:induction false} HeldFromConcat(h: Holding, a: seq<Event>, b: seq<Event>)
    ensures HeldFrom(h, a + b) == HeldFrom(HeldFrom(h, a), b)
    decreases |a|
  {
    if a == [] {
      assert a + b == b;
    } else {
      HeldFromConcat(Next(h, a[0]), a[1..], b);
      assert (a + b)[1..] == a[1..] + b;
    }
  }

  /** Commands on the connection one holds leave it held. */
  lemma {:induction false} HeldByRuns(c: nat, ev: seq<Event>)
    requires forall i :: 0 <= i < |ev| ==> ev[i].Ran? && ev[i].client == c
    ensures HeldFrom(One(c), ev) == One(c)
  {
    if ev != [] {
      HeldByRuns(c, ev[1..]);
    }
  }

  lemma PartsHeld(a: Action, c: nat, p: Parts, ev: seq<Event>)
    requires p.tries == [ev] || (p.tries == [] && ev == [])
    requires forall i :: 0 <= i < |p.boot| ==> p.boot[i].Ran? && p.boot[i].client == c
    requires forall i :: 0 <= i < |ev| ==> ev[i].Ran? && ev[i].client == c
    requires p.rest == [] || p.rest == Return(a, c)
    ensures HeldFrom(One(c), p.Events()) == One(if p.rest == [] then c else c + 1)
  {
    FlattenOne(ev);
    HeldFromConcat(One(c), p.boot + Flatten(p.tries), p.rest);
    HeldFromConcat(One(c), p.boot, Flatten(p.tries));
    HeldByRuns(c, p.boot);
    HeldByRuns(c, ev);
    ReturnHeld(a, c);
  }

  lemma ReturnMeans(a: Action, c: nat, id: string)
    requires id == if Reboots(a) then "x" else ""
    ensures Reconnected(c, Some(c + 1), Return(a, c), None, id)
  {
    var r := Return(a, c);
    assert r[1..] == if Reboots(a) then [Dialed(c + 1), Ran(c + 1, BootId, Printed("y"))] else [Dialed(c + 1)];
  }

  lemma DonePlays(a: Action, k: nat, c: nat)
    ensures Plays(a, k, c, Done(a, k, c))
  {
    var p, ev := Done(a, k, c), Attempted(a, k, c, Answer(a));
    PartsHeld(a, c, p.parts, ev);
    assert TryEvents(a, k, c, ev);
    if a.disconnect {
      var id := if Reboots(a) then "x" else "";
      ReturnMeans(a, c, id);
      assert DisconnectRan(a, k, c, Some(p.nc), p.parts, p.sr, None, id);
    }
  }

  lemma CutShortPlays(a: Action, k: nat, c: nat)
    requires a.content && (a.disconnect || a.fireAndForget)
    ensures Plays(a, k, c, CutShort(a, k, c))
  {
    var p, ev := CutShort(a, k, c), [Ran(c, Upload(k), Cut(SessionFailed))];
    PartsHeld(a, c, p.parts, ev);
    assert TryEvents(a, k, c, ev);
    if a.disconnect {
      CutShortDisconnects(a, k, c);
    } else {
      assert FireRan(a, k, c, Some(p.nc), p.parts, p.sr, None);
    }
  }

  lemma CutShortDisconnects(a: Action, k: nat, c: nat)
    requires a.content && a.disconnect
    ensures var p, id := CutShort(a, k, c), if Reboots(a) then "x" else "";
            DisconnectRan(a, k, c, Some(p.nc), p.parts, p.sr, None, id)
  {
    ReturnMeans(a, c, if Reboots(a) then "x" else "");
    assert TryEvents(a, k, c, [Ran(c, Upload(k), Cut(SessionFailed))]);
  }

  lemma CutShortSubmitsNothing(a: Action, k: nat, c: nat)
    requires a.content && (a.disconnect || a.fireAndForget)
    ensures Total(CutShort(a, k, c).parts.Events(), Submits(k)) == 0
  {
    FlattenOne([Ran(c, Upload(k), Cut(SessionFailed))]);
    NoneSubmit(CutShort(a, k, c).parts.Events(), k);
  }

  lemma BootReadCancelledPlays(a: Action, k: nat, c: nat)
    requires Reboots(a)
    ensures Plays(a, k, c, BootReadCancelled(a, k, c))
  {
    var p := BootReadCancelled(a, k, c);
    HeldByRuns(c, p.parts.boot);
    assert p.parts.Events() == p.parts.boot;
    assert NoBootId(a, k, c, Some(p.nc), p.parts, p.sr, p.f);
  }

  lemma PauseCancelledPlays(a: Action, k: nat, c: nat)
    requires a.retries > 0
    ensures Plays(a, k, c, PauseCancelled(a, k, c))
    ensures Ended(PauseCancelled(a, k, c).parts.tries) && Interrupted(a, PauseCancelled(a, k, c).parts.tries)
  {
    var p, ev := PauseCancelled(a, k, c), Attempted(a, k, c, Wrong(a));
    PartsHeld(a, c, p.parts, ev);
    assert TryEvents(a, k, c, ev);
    if a.disconnect {
      assert DisconnectRan(a, k, c, Some(p.nc), p.parts, p.sr, p.f, if Reboots(a) then "x" else "");
    }
  }

  // Whole runs.

  const DIALED := [Dialed(0)]

  /** The run so far, with what it holds. */
  datatype Stage = Stage(h: HostResult, r: StepsRecord, client: nat, stopped: bool)

  ghost predicate Reached(acts: seq<Action>, n: nat, t: Stage) {
    && Folded(acts, n, t.h, t.r, Some(t.client), t.stopped)
    && t.r.clients[0] == Some(0) && t.r.probe == []
    && HeldAfter(DIALED + AllEvents(t.r.parts)) == One(t.client)
  }

  lemma AtStart(acts: seq<Action>) returns (t: Stage)
    ensures Reached(acts, 0, t) && !t.stopped && t.h.status == Report.Success
  {
    t := Stage(HostResult(Report.Success, None, None, 1, []), StepsRecord([], 0, [], [], [Some(0)]), 0, false);
    HeldSnoc([], Dialed(0));
    assert [] + [Dialed(0)] == DIALED;
    assert DIALED + AllEvents([]) == DIALED;
  }

  /** One more step, played as given. */
  lemma Played(acts: seq<Action>, n: nat, s: Stage, p: Play) returns (t: Stage)
    requires n < |acts| && Reached(acts, n, s) && !s.stopped && Plays(acts[n], n, s.client, p)
    ensures Reached(acts, n + 1, t) && t.stopped == Stops(acts[n], p.f, Some(p.nc))
    ensures t.h.steps == s.h.steps + [p.sr] && t.r.parts == s.r.parts + [p.parts] && t.client == p.nc
    ensures p.f.None? ==> t.h.status == s.h.status
  {
    RunOne(acts, n, s.h, s.r, s.client, p.sr, p.f, p.parts, Some(p.nc));
    t := Stage(Noted(s.h, p.f, n).(steps := s.h.steps + [p.sr]), Extended(s.r, true, p.f, p.parts, Some(p.nc)), p.nc,
               Stops(acts[n], p.f, Some(p.nc)));
    HeldAfterPlay(s.r.parts, p.parts);
  }

  lemma HeldAfterPlay(parts: seq<Parts>, p: Parts)
    ensures HeldAfter(DIALED + AllEvents(parts + [p])) == HeldFrom(HeldAfter(DIALED + AllEvents(parts)), p.Events())
  {
    var before, events := AllEvents(parts), p.Events();
    AllEventsSnoc(parts, p);
    HeldConcat(DIALED + before, events);
    Regroup(DIALED, before, events);
  }

  lemma Regroup<T>(a: seq<T>, b: seq<T>, c: seq<T>)
    ensures a + (b + c) == a + b + c
  {
  }

  lemma Passed(acts: seq<Action>, n: nat, s: Stage) returns (t: Stage)
    requires n < |acts| && Reached(acts, n, s) && s.stopped
    ensures Reached(acts, n + 1, t) && t.stopped
    ensures t.h.steps == s.h.steps + [SkippedStep(n)] && t.r.parts == s.r.parts + [NO_PARTS]
  {
    SkipOne(acts, n, s.h, s.r, Some(s.client));
    t := Stage(s.h.(steps := s.h.steps + [SkippedStep(n)]), Extended(s.r, false, None, NO_PARTS, Some(s.client)), s.client, true);
    AllEventsSnoc(s.r.parts, NO_PARTS);
    assert NO_PARTS.Events() == [];
    assert AllEvents(t.r.parts) == AllEvents(s.r.parts);
  }

  lemma {:induction false} UpTo(acts: seq<Action>, n: nat) returns (t: Stage)
    requires n <= |acts|
    ensures Reached(acts, n, t) && !t.stopped && t.h.status == Report.Success
  {
    if n == 0 {
      t := AtStart(acts);
    } else {
      var s := UpTo(acts, n - 1);
      DonePlays(acts[n - 1], n - 1, s.client);
      t := Played(acts, n - 1, s, Done(acts[n - 1], n - 1, s.client));
    }
  }

  /** The rest of the steps, done or skipped. */
  lemma {:induction false} ToTheEnd(acts: seq<Action>, n: nat, s: Stage) returns (t: Stage)
    requires n <= |acts| && Reached(acts, n, s)
    ensures Reached(acts, |acts|, t)
    ensures s.h.steps <= t.h.steps && s.r.parts <= t.r.parts
    decreases |acts| - n
  {
    t := s;
    if n < |acts| {
      t := OneMore(acts, n, s);
      t := ToTheEnd(acts, n + 1, t);
    }
  }

  lemma OneMore(acts: seq<Action>, n: nat, s: Stage) returns (t: Stage)
    requires n < |acts| && Reached(acts, n, s)
    ensures Reached(acts, n + 1, t)
    ensures s.h.steps <= t.h.steps && s.r.parts <= t.r.parts
  {
    if s.stopped {
      t := Passed(acts, n, s);
    } else {
      DonePlays(acts[n], n, s.client);
      t := Played(acts, n, s, Done(acts[n], n, s.client));
    }
  }

  /** All events of a run that reached its end. */
  ghost function Whole(t: Stage): seq<Event> {
    DIALED + AllEvents(t.r.parts) + [HungUp(t.client)]
  }

  lemma Finished(acts: seq<Action>, t: Stage)
    requires Reached(acts, |acts|, t)
    ensures Outcome(acts, t.h, t.r, DIALED, Whole(t))
  {
    HeldSnoc(DIALED + AllEvents(t.r.parts), HungUp(t.client));
    assert DIALED[..0] == [];
    assert DIALED + t.r.probe == DIALED;
  }

  /** A whole run of any list of steps in which step `k` goes as given and those before it succeed. */
  lemma RunWith(acts: seq<Action>, k: nat, s: Stage, p: Play) returns (h: HostResult, r: StepsRecord, events: seq<Event>)
    requires k < |acts| && Reached(acts, k, s) && !s.stopped && Plays(acts[k], k, s.client, p)
    ensures Outcome(acts, h, r, DIALED, events)
    ensures |h.steps| == |r.parts| == |acts| && h.steps[k] == p.sr && r.parts[k] == p.parts
  {
    var t := Played(acts, k, s, p);
    assert |s.h.steps| == |s.r.parts| == k;
    var u := ToTheEnd(acts, k + 1, t);
    Finished(acts, u);
    AtPlace(t.h.steps, u.h.steps, k);
    AtPlace(t.r.parts, u.r.parts, k);
    h, r, events := u.h, u.r, Whole(u);
  }

  lemma AtPlace<T>(a: seq<T>, b: seq<T>, k: nat)
    requires a <= b && k < |a|
    ensures a[k] == b[k]
  {
  }

  /** Every list of steps has a run in which all of them succeed. */
  lemma AllDone(acts: seq<Action>) returns (h: HostResult, r: StepsRecord, events: seq<Event>)
    ensures Outcome(acts, h, r, DIALED, events) && h.status == Report.Success
  {
    var t := UpTo(acts, |acts|);
    Finished(acts, t);
    h, r, events := t.h, t.r, Whole(t);
  }

  // The exceptions, and exactly which steps they can happen to.

  ghost predicate SucceededAt(h: HostResult, k: nat) {
    k < |h.steps| && h.steps[k].status == Report.Success
  }

  /** In every run, a SUCCESS of step `k` means that its command was submitted. */
  ghost predicate SuccessSubmits(acts: seq<Action>, k: nat) {
    forall h, r, connecting, events :: Outcome(acts, h, r, connecting, events) && SucceededAt(h, k)
      ==> Total(events, Submits(k)) >= 1
  }

  /** A SUCCESS stands for a submitted command exactly for the steps that upload nothing or whose connection is
      meant to stay. */
  lemma SuccessSubmitsIff(acts: seq<Action>, k: nat)
    requires k < |acts|
    ensures SuccessSubmits(acts, k) <==> !(acts[k].content && (acts[k].disconnect || acts[k].fireAndForget))
  {
    if acts[k].content && (acts[k].disconnect || acts[k].fireAndForget) {
      var h, r, events := UnsentRun(acts, k);
      assert Outcome(acts, h, r, DIALED, events) && SucceededAt(h, k);
    } else {
      forall h, r, connecting, events | Outcome(acts, h, r, connecting, events) && SucceededAt(h, k)
        ensures Total(events, Submits(k)) >= 1
      {
        SubmittedIfNotCut(acts, h, r, connecting, events, k);
      }
    }
  }

  /** A run in which the upload of step `k` is cut off, the step is SUCCESS, and its command is never submitted. */
  lemma UnsentRun(acts: seq<Action>, k: nat) returns (h: HostResult, r: StepsRecord, events: seq<Event>)
    requires k < |acts| && acts[k].content && (acts[k].disconnect || acts[k].fireAndForget)
    ensures Outcome(acts, h, r, DIALED, events) && SucceededAt(h, k)
    ensures Total(events, Submits(k)) == 0
  {
    var s := UpTo(acts, k);
    CutShortPlays(acts[k], k, s.client);
    CutShortSubmitsNothing(acts[k], k, s.client);
    h, r, events := RunWith(acts, k, s, CutShort(acts[k], k, s.client));
    SubmitsInRun(acts, h, r, DIALED, events, k);
  }

  lemma SubmittedIfNotCut(
    acts: seq<Action>, h: HostResult, r: StepsRecord, connecting: seq<Event>, events: seq<Event>, k: nat)
    requires HostRan(acts, h, r, connecting, events) && k < |acts| && SucceededAt(h, k)
    requires !(acts[k].content && (acts[k].disconnect || acts[k].fireAndForget))
    ensures Total(events, Submits(k)) >= 1
  {
    OneResultPerStep(acts, h, r, connecting, events, k);
    SuccessMeansSubmitted(acts, h, r, connecting, events, k);
    SubmitsInRun(acts, h, r, connecting, events, k);
    RanFacts(acts, h, r, k);
    StepSubmits(acts[k], k, r.clients[k].value, r.clients[k + 1], r.parts[k], h.steps[k], r.fs[k], k);
    LastSubmits(r.parts[k].tries, k);
  }

  lemma LastSubmits(tries: seq<seq<Event>>, k: nat)
    requires Ended(tries) && FinalEvent(tries).cmd == Body(k)
    ensures Total(Flatten(tries), Submits(k)) >= 1
  {
    var last := tries[|tries| - 1];
    TotalConcat(Flatten(tries[..|tries| - 1]), last, Submits(k));
    TotalMember(last, |last| - 1, Submits(k));
  }

  /** In every run, step `k` is reported as CANCELLED if that is its category. */
  ghost predicate ReportsCancellation(acts: seq<Action>, k: nat) {
    forall h, r, connecting, events :: Outcome(acts, h, r, connecting, events) && CategoryAt(h, k) == Some(Cancelled)
      ==> h.steps[k].status == Report.Cancelled
  }

  function CategoryAt(h: HostResult, k: nat): (c: Option<Category>)
    ensures c.Some? ==> k < |h.steps|
  {
    if k < |h.steps| then h.steps[k].category else None
  }

  /** A cancelled step is reported as such exactly if it does not reboot. */
  lemma ReportsCancellationIff(acts: seq<Action>, k: nat)
    requires k < |acts|
    ensures ReportsCancellation(acts, k) <==> !Reboots(acts[k])
  {
    if Reboots(acts[k]) {
      var h, r, events := CancelledReadRun(acts, k);
      assert Outcome(acts, h, r, DIALED, events) && CategoryAt(h, k) == Some(Cancelled);
    } else {
      forall h, r, connecting, events | Outcome(acts, h, r, connecting, events) && CategoryAt(h, k) == Some(Cancelled)
        ensures h.steps[k].status == Report.Cancelled
      {
        CancelledIsReported(acts, h, r, connecting, events, k);
      }
    }
  }

  /** A run in which the read of the boot ID in step `k` is cancelled, and the step is reported as FAILED. */
  lemma CancelledReadRun(acts: seq<Action>, k: nat) returns (h: HostResult, r: StepsRecord, events: seq<Event>)
    requires k < |acts| && Reboots(acts[k])
    ensures Outcome(acts, h, r, DIALED, events)
    ensures CategoryAt(h, k) == Some(Cancelled) && h.steps[k].status == Report.Failed
  {
    var s := UpTo(acts, k);
    BootReadCancelledPlays(acts[k], k, s.client);
    h, r, events := RunWith(acts, k, s, BootReadCancelled(acts[k], k, s.client));
  }

  lemma CancelledIsReported(
    acts: seq<Action>, h: HostResult, r: StepsRecord, connecting: seq<Event>, events: seq<Event>, k: nat)
    requires HostRan(acts, h, r, connecting, events) && k < |acts| && !Reboots(acts[k])
    requires CategoryAt(h, k) == Some(Cancelled)
    ensures h.steps[k].status == Report.Cancelled
  {
    if Connected(connecting) {
      RanFacts(acts, h, r, k);
      StatusFitsCategory(acts[k], k, r.clients[k].value, r.clients[k + 1], r.parts[k], h.steps[k], r.fs[k]);
    }
  }

  /** Step `k` was cut short in the pause before another attempt, and is reported as FAILED. */
  ghost predicate FailedInPause(acts: seq<Action>, k: nat, h: HostResult, r: StepsRecord) {
    && k < |acts| && k < |h.steps| && k < |r.parts|
    && Ended(r.parts[k].tries) && Interrupted(acts[k], r.parts[k].tries)
    && h.steps[k].status == Report.Failed
  }

  lemma CancelledPauseRun(acts: seq<Action>, k: nat) returns (h: HostResult, r: StepsRecord, events: seq<Event>)
    requires k < |acts| && acts[k].retries > 0
    ensures Outcome(acts, h, r, DIALED, events) && FailedInPause(acts, k, h, r)
  {
    var s := UpTo(acts, k);
    PauseCancelledPlays(acts[k], k, s.client);
    h, r, events := RunWith(acts, k, s, PauseCancelled(acts[k], k, s.client));
  }

  /** This can happen exactly to a step with retries. */
  lemma FailedInPauseIff(acts: seq<Action>, k: nat)
    requires k < |acts|
    ensures (exists h, r, connecting, events :: Outcome(acts, h, r, connecting, events) && FailedInPause(acts, k, h, r))
            <==> acts[k].retries > 0
  {
    if acts[k].retries > 0 {
      var h, r, events := CancelledPauseRun(acts, k);
      assert Outcome(acts, h, r, DIALED, events) && FailedInPause(acts, k, h, r);
    }
  }
}
