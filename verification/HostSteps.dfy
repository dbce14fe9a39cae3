/** One step on one host: its attempts, and the variants that expect to lose the connection. */
module HostSteps {
  import opened Options
  import opened Domain
  import opened Network
  import opened HostConnection
  import Report

  /** What the runner needs of a rendered step. `content` tells that something is uploaded before the command runs. */
  datatype Action = Action(
    exitCode: int,
    content: bool,
    timeout: nat,
    retries: nat,
    retryDelay: nat,
    continueOnError: bool,
    reboot: bool,
    disconnect: bool,
    fireAndForget: bool,
    reconnectTimeout: nat)

  type Status = Report.Status

  datatype StepResult = StepResult(
    step: nat,
    status: Status,
    category: Option<Category>,
    attempts: nat,
    exit: Option<int>,
    started: bool)

  function StatusFor(f: Option<Category>): Status {
    match f
    case None => Report.Success
    case Some(c) => if c == Cancelled then Report.Cancelled else Report.Failed
  }

  // One attempt.

  predicate UploadOk(r: Reply) {
    r.err.None? && r.exit == Some(0) && r.stdout != ""
  }

  /** The verdict on an attempt that ended with this reply. */
  function Judge(a: Action, cmd: Command, r: Reply): Option<Category> {
    if r.err.Some? then r.err
    else if cmd.Body? && r.exit == Some(a.exitCode) && r.holds then None
    else Some(CommandFailed)
  }

  ghost predicate RanHere(e: Event, client: nat, cmd: Command) {
    e.Ran? && e.client == client && e.cmd == cmd && Possible(e.reply)
  }

  /** The events of one attempt: the command, after a successful upload if there is content; or a failed upload. */
  ghost predicate TryEvents(a: Action, k: nat, client: nat, ev: seq<Event>) {
    if !a.content then |ev| == 1 && RanHere(ev[0], client, Body(k))
    else
      && 1 <= |ev| <= 2
      && RanHere(ev[0], client, Upload(k))
      && (|ev| == 2 <==> UploadOk(ev[0].reply))
      && (|ev| == 2 ==> RanHere(ev[1], client, Body(k)))
  }

  ghost predicate TryEnded(a: Action, ev: seq<Event>, r: Reply, f: Option<Category>) {
    && ev != [] && ev[|ev| - 1].Ran?
    && r == ev[|ev| - 1].reply
    && f == Judge(a, ev[|ev| - 1].cmd, r)
  }

  method TryStep(net: Net, client: nat, a: Action, k: nat) returns (r: Reply, f: Option<Category>)
    requires net.Held() == One(client)
    modifies net
    ensures old(net.trace) <= net.trace && net.Held() == old(net.Held()) && net.dialed == old(net.dialed)
    ensures old(net.cancelled) ==> net.cancelled
    ensures old(net.now) <= net.now <= old(net.now) + 2 * a.timeout
    ensures TryEvents(a, k, client, Since(old(net.trace), net.trace))
    ensures TryEnded(a, Since(old(net.trace), net.trace), r, f)
    ensures f == Some(Cancelled) ==> net.cancelled
  {
    ghost var before, ev := net.trace, [];
    if a.content {
      r := net.Exec(client, Upload(k), a.timeout);
      ev := [Ran(client, Upload(k), r)];
      assert Since(before, net.trace) == ev && TryEnded(a, ev, r, Judge(a, Upload(k), r));
      if r.err.Some? {
        return r, r.err;
      }
      if r.exit.None? || r.exit.value != 0 || r.stdout == "" {
        return r, Some(CommandFailed);
      }
    }
    r := net.Exec(client, Body(k), a.timeout);
    ev := ev + [Ran(client, Body(k), r)];
    assert Since(before, net.trace) == ev && ev[|ev| - 1] == Ran(client, Body(k), r);
    assert TryEvents(a, k, client, ev) && TryEnded(a, ev, r, Judge(a, Body(k), r));
    if r.err.Some? {
      return r, r.err;
    }
    if r.exit.None? || r.exit.value != a.exitCode || !r.holds {
      return r, Some(CommandFailed);
    }
    return r, None;
  }

  // runStep

  /** The command itself came to nothing, and may not the next time. */
  predicate WorthRepeating(f: Option<Category>) {
    f == Some(CommandFailed) || f == Some(CommandTimeout)
  }

  function Flatten(tries: seq<seq<Event>>): seq<Event> {
    if tries == [] then [] else Flatten(tries[..|tries| - 1]) + tries[|tries| - 1]
  }

  lemma FlattenSnoc(tries: seq<seq<Event>>, last: seq<Event>)
    ensures Flatten(tries + [last]) == Flatten(tries) + last
  {
    assert (tries + [last])[..|tries|] == tries;
  }

  /** How an attempt ended. */
  ghost function Last(ev: seq<Event>): Event
    requires ev != []
  {
    ev[|ev| - 1]
  }

  ghost predicate Repeated(a: Action, k: nat, client: nat, ev: seq<Event>) {
    TryEvents(a, k, client, ev) && WorthRepeating(Judge(a, Last(ev).cmd, Last(ev).reply))
  }

  /** All attempts of a step: at least one, at most `retries` more, each but the last worth repeating. */
  ghost predicate Tries(a: Action, k: nat, client: nat, tries: seq<seq<Event>>) {
    && 1 <= |tries| <= a.retries + 1
    && TryEvents(a, k, client, tries[|tries| - 1])
    && (forall i :: 0 <= i < |tries| - 1 ==> Repeated(a, k, client, tries[i]))
  }

  ghost function FinalEvent(tries: seq<seq<Event>>): Event
    requires tries != [] && tries[|tries| - 1] != []
  {
    Last(tries[|tries| - 1])
  }

  /** The verdict of the last attempt. */
  ghost function Verdict(a: Action, tries: seq<seq<Event>>): Option<Category>
    requires tries != [] && tries[|tries| - 1] != [] && FinalEvent(tries).Ran?
  {
    Judge(a, FinalEvent(tries).cmd, FinalEvent(tries).reply)
  }

  ghost predicate Ended(tries: seq<seq<Event>>) {
    tries != [] && tries[|tries| - 1] != [] && FinalEvent(tries).Ran?
  }

  /** The result that reports `f` for these attempts. */
  ghost function ResultOf(k: nat, tries: seq<seq<Event>>, f: Option<Category>): StepResult
    requires Ended(tries)
  {
    StepResult(k, StatusFor(f), f, |tries|, FinalEvent(tries).reply.exit, FinalEvent(tries).reply.started)
  }

  /** The pause before a further attempt was cut short. */
  ghost predicate Interrupted(a: Action, tries: seq<seq<Event>>)
    requires Ended(tries)
  {
    WorthRepeating(Verdict(a, tries)) && |tries| <= a.retries
  }

  ghost predicate AllRepeated(a: Action, k: nat, client: nat, tries: seq<seq<Event>>) {
    forall i :: 0 <= i < |tries| ==> Repeated(a, k, client, tries[i])
  }

  /** The fields a further attempt overwrites. */
  ghost predicate Records(a: Action, tries: seq<seq<Event>>, sr: StepResult, f: Option<Category>) {
    && Ended(tries)
    && f == Verdict(a, tries)
    && sr.attempts == |tries| && sr.exit == FinalEvent(tries).reply.exit && sr.started == FinalEvent(tries).reply.started
  }

  lemma OneMoreTry(a: Action, k: nat, client: nat, tries: seq<seq<Event>>, ev: seq<Event>, r: Reply, f: Option<Category>)
    requires AllRepeated(a, k, client, tries) && |tries| <= a.retries
    requires TryEvents(a, k, client, ev) && TryEnded(a, ev, r, f)
    ensures Tries(a, k, client, tries + [ev])
    ensures Ended(tries + [ev]) && f == Verdict(a, tries + [ev]) && FinalEvent(tries + [ev]).reply == r
    ensures WorthRepeating(f) ==> AllRepeated(a, k, client, tries + [ev])
  {
  }

  /** The time that many attempts may take, with the pauses before them. */
  function AttemptsTime(n: nat, a: Action): nat {
    if n == 0 then 0 else AttemptsTime(n - 1, a) + 2 * a.timeout + a.retryDelay
  }

  lemma {:induction false} MoreAttemptsTime(n: nat, m: nat, a: Action)
    requires n <= m
    ensures AttemptsTime(n, a) <= AttemptsTime(m, a)
  {
    if n < m {
      MoreAttemptsTime(n, m - 1, a);
    }
  }

  /** A further attempt. */
  method NextTry(net: Net, client: nat, a: Action, k: nat, ghost tries: seq<seq<Event>>)
    returns (r: Reply, f: Option<Category>, ghost more: seq<seq<Event>>)
    requires net.Held() == One(client) && AllRepeated(a, k, client, tries) && |tries| <= a.retries
    modifies net
    ensures old(net.trace) <= net.trace && net.Held() == One(client) && net.dialed == old(net.dialed)
    ensures old(net.cancelled) || f == Some(Cancelled) ==> net.cancelled
    ensures old(net.now) <= net.now <= old(net.now) + 2 * a.timeout
    ensures |more| == |tries| + 1 && Flatten(more) == Flatten(tries) + Since(old(net.trace), net.trace)
    ensures Tries(a, k, client, more) && Ended(more) && f == Verdict(a, more) && FinalEvent(more).reply == r
    ensures WorthRepeating(f) ==> AllRepeated(a, k, client, more)
  {
    ghost var before := net.trace;
    r, f := TryStep(net, client, a, k);
    ghost var ev := Since(before, net.trace);
    FlattenSnoc(tries, ev);
    OneMoreTry(a, k, client, tries, ev, r, f);
    more := tries + [ev];
  }

  /** The attempts so far, each worth repeating, and what is reported of them. */
  ghost predicate Repeating(
    a: Action, k: nat, client: nat, tries: seq<seq<Event>>, sr: StepResult, f: Option<Category>)
  {
    && AllRepeated(a, k, client, tries)
    && sr.step == k
    && (tries != [] ==> Records(a, tries, sr, f) && WorthRepeating(f) && Tries(a, k, client, tries))
  }

  /** One turn of the loop: the pause before a further attempt, which may be cut short, and the attempt. */
  method OneTurn(
    net: Net, client: nat, a: Action, k: nat, attempt: nat, sr: StepResult, f: Option<Category>,
    ghost tries: seq<seq<Event>>)
    returns (sr': StepResult, f': Option<Category>, over: bool, ghost more: seq<seq<Event>>)
    requires net.Held() == One(client) && attempt == |tries| <= a.retries && Repeating(a, k, client, tries, sr, f)
    modifies net
    ensures old(net.trace) <= net.trace && net.Held() == One(client) && net.dialed == old(net.dialed)
    ensures old(net.cancelled) ==> net.cancelled
    ensures old(net.now) <= net.now <= old(net.now) + 2 * a.timeout + a.retryDelay
    ensures Flatten(more) == Flatten(tries) + Since(old(net.trace), net.trace)
    ensures Tries(a, k, client, more) && Records(a, more, sr', f') && sr'.step == k
    ensures (over && Interrupted(a, more)) || f' == Some(Cancelled) ==> net.cancelled
    ensures !over ==> |more| == attempt + 1 && Repeating(a, k, client, more, sr', f')
  {
    if attempt > 0 {
      var interrupted := net.Sleep(a.retryDelay);
      if interrupted {
        return sr, f, true, tries;
      }
    }
    var r;
    r, f', more := NextTry(net, client, a, k, tries);
    sr' := sr.(attempts := attempt + 1, exit := r.exit, started := r.started);
    over := !WorthRepeating(f');
  }

  method RunStep(net: Net, client: nat, a: Action, k: nat)
    returns (sr: StepResult, f: Option<Category>, ghost tries: seq<seq<Event>>)
    requires net.Held() == One(client)
    modifies net
    ensures old(net.trace) <= net.trace && net.Held() == old(net.Held()) && net.dialed == old(net.dialed)
    ensures old(net.cancelled) ==> net.cancelled
    ensures Tries(a, k, client, tries) && Ended(tries)
    ensures Since(old(net.trace), net.trace) == Flatten(tries)
    ensures f == Verdict(a, tries) && sr == ResultOf(k, tries, f)
    ensures Interrupted(a, tries) ==> net.cancelled
    ensures old(net.now) <= net.now <= old(net.now) + AttemptsTime(a.retries + 1, a)
    ensures f == Some(Cancelled) ==> net.cancelled
  {
    sr := StepResult(k, Report.Unset, None, 0, None, false);
    f := None;
    tries := [];
    var attempt, over := 0, false;
    ghost var start := net.trace;
    while attempt <= a.retries && !over
      invariant start <= net.trace && net.Held() == One(client) && net.dialed == old(net.dialed)
      invariant old(net.cancelled) ==> net.cancelled
      invariant attempt <= a.retries + 1
      invariant old(net.now) <= net.now <= old(net.now) + AttemptsTime(attempt, a)
      invariant Since(start, net.trace) == Flatten(tries)
      invariant !over ==> |tries| == attempt && Repeating(a, k, client, tries, sr, f)
      invariant over || attempt > 0 ==> Tries(a, k, client, tries) && Records(a, tries, sr, f) && sr.step == k
      invariant (over && Interrupted(a, tries)) || f == Some(Cancelled) ==> net.cancelled
      decreases a.retries + 1 - attempt
    {
      ghost var before := net.trace;
      sr, f, over, tries := OneTurn(net, client, a, k, attempt, sr, f, tries);
      assert Since(start, net.trace) == Since(start, before) + Since(before, net.trace);
      attempt := attempt + 1;
    }
    MoreAttemptsTime(attempt, a.retries + 1, a);
    sr := sr.(status := StatusFor(f), category := f);
  }

  // Steps that may lose the connection.

  /** The parts of a step's events: the boot-ID read before a reboot, the attempts, and the reconnect. */
  datatype Parts = Parts(boot: seq<Event>, tries: seq<seq<Event>>, rest: seq<Event>) {
    ghost function Events(): seq<Event> {
      boot + Flatten(tries) + rest
    }
  }

  const NO_PARTS := Parts([], [], [])

  /** The command, or the upload before it, was under way when the connection went. */
  predicate Lost(f: Option<Category>, started: bool, exit: Option<int>) {
    f.Some? && started && (f == Some(SessionFailed) || (f == Some(CommandFailed) && exit.None?))
  }

  /** What a fire-and-forget step does not hold against its command. */
  predicate Forgiven(f: Option<Category>, started: bool, exit: Option<int>) {
    f.Some? && started && f != Some(Cancelled) && (f == Some(SessionFailed) || exit.None?)
  }

  ghost predicate LostAt(a: Action, tries: seq<seq<Event>>)
    requires Ended(tries)
  {
    Lost(Verdict(a, tries), FinalEvent(tries).reply.started, FinalEvent(tries).reply.exit)
  }

  ghost predicate ForgivenAt(a: Action, tries: seq<seq<Event>>)
    requires Ended(tries)
  {
    Forgiven(Verdict(a, tries), FinalEvent(tries).reply.started, FinalEvent(tries).reply.exit)
  }

  ghost predicate PlainRan(a: Action, k: nat, c: nat, nc: Option<nat>, p: Parts, sr: StepResult, f: Option<Category>) {
    && p.boot == [] && p.rest == [] && nc == Some(c)
    && Tries(a, k, c, p.tries) && Ended(p.tries)
    && f == Verdict(a, p.tries) && sr == ResultOf(k, p.tries, f)
  }

  ghost predicate FireRan(a: Action, k: nat, c: nat, nc: Option<nat>, p: Parts, sr: StepResult, f: Option<Category>) {
    && p.boot == [] && p.rest == [] && nc == Some(c)
    && Tries(a, k, c, p.tries) && Ended(p.tries)
    && f == (if ForgivenAt(a, p.tries) then None else Verdict(a, p.tries))
    && sr == ResultOf(k, p.tries, f)
  }

  /** The boot ID could not be read before a reboot: FAILED whatever the reason, and nothing was submitted. */
  ghost predicate NoBootId(a: Action, k: nat, c: nat, nc: Option<nat>, p: Parts, sr: StepResult, f: Option<Category>) {
    && a.reboot && nc == Some(c) && p.tries == [] && p.rest == []
    && |p.boot| == 1 && RanHere(p.boot[0], c, BootId) && BootIdIn(p.boot[0].reply).None?
    && f == Some(ReadFailure(p.boot[0].reply)) && sr == StepResult(k, Report.Failed, f, 0, None, false)
  }

  /** The boot ID read first, or "" for a step that does not reboot. */
  ghost predicate OldBoot(a: Action, c: nat, boot: seq<Event>, id: string) {
    if a.reboot then |boot| == 1 && RanHere(boot[0], c, BootId) && BootIdIn(boot[0].reply) == Some(id) && id != ""
    else boot == [] && id == ""
  }

  /** The connection was given up and the host waited for. */
  ghost predicate Reconnected(c: nat, nc: Option<nat>, rest: seq<Event>, f: Option<Category>, id: string) {
    && rest != [] && rest[0] == HungUp(c)
    && OnlyReconnects(rest[1..])
    && (nc.Some? <==> f.None?)
    && (nc.Some? ==> nc.value != c && Back(rest[1..], nc.value, id))
    && (nc.None? ==> Grounds(rest[1..], f.value, id))
  }

  /** Why a wait may fail: cancelled, refused for good, out of time, or out of time with the old boot seen alive. */
  ghost predicate Grounds(ev: seq<Event>, cat: Category, id: string) {
    || cat == Cancelled
    || (cat.Fatal() && ev != [] && ev[|ev| - 1] == DialFailed(cat))
    || (cat == ConnectionTimeout && !SawBoot(ev, id))
    || (cat == CommandFailed && SawBoot(ev, id))
  }

  ghost predicate DisconnectRan(
    a: Action, k: nat, c: nat, nc: Option<nat>, p: Parts, sr: StepResult, f: Option<Category>, id: string)
  {
    && OldBoot(a, c, p.boot, id)
    && Tries(a, k, c, p.tries) && Ended(p.tries)
    && sr == ResultOf(k, p.tries, f)
    && (if Verdict(a, p.tries).Some? && !LostAt(a, p.tries) then
          p.rest == [] && nc == Some(c) && f == Verdict(a, p.tries) // a real failure on a sound connection
        else if p.rest == [] then
          !a.reboot && !LostAt(a, p.tries) && nc == Some(c) && f.None? // the connection survived
        else
          Reconnected(c, nc, p.rest, f, id))
  }

  ghost predicate StepRan(a: Action, k: nat, c: nat, nc: Option<nat>, p: Parts, sr: StepResult, f: Option<Category>) {
    if a.disconnect then
      NoBootId(a, k, c, nc, p, sr, f) || exists id :: DisconnectRan(a, k, c, nc, p, sr, f, id)
    else if a.fireAndForget then FireRan(a, k, c, nc, p, sr, f)
    else PlainRan(a, k, c, nc, p, sr, f)
  }

  /** The longest a step that may disconnect can take: boot ID, attempts, keepalive, and the wait for the host. */
  function DisconnectTime(a: Action, delay: nat): nat {
    EXEC_30S + AttemptsTime(a.retries + 1, a) + KEEPALIVE + WaitTime(a.reconnectTimeout, delay)
  }

  /** A wait dials no more often than its pauses fit into its timeout. */
  ghost predicate Paced(rest: seq<Event>, delay: nat, timeout: nat) {
    rest != [] ==> Dials(rest[1..]) * delay <= timeout
  }

  const KEEPALIVE := 5 * SECOND

  /** Gives the connection up and waits for the host. */
  method Reconnect(net: Net, c: nat, timeout: nat, delay: nat, id: string)
    returns (nc: Option<nat>, f: Option<Category>)
    requires net.Held() == One(c) && c < net.dialed && delay > 0
    modifies net
    ensures old(net.trace) <= net.trace && net.dialed >= old(net.dialed)
    ensures old(net.cancelled) ==> net.cancelled
    ensures if nc.Some? then net.Held() == One(nc.value) && nc.value < net.dialed else net.Held() == Nobody
    ensures Reconnected(c, nc, Since(old(net.trace), net.trace), f, id)
    ensures f == Some(Cancelled) ==> net.cancelled
    ensures old(net.now) <= net.now <= old(net.now) + WaitTime(timeout, delay)
    ensures Paced(Since(old(net.trace), net.trace), delay, timeout)
  {
    net.Close(c);
    ghost var before := net.trace;
    var why;
    nc, why := WaitForHost(net, timeout, delay, id);
    f := if nc.None? then Some(why) else None;
    assert Since(old(net.trace), net.trace)[1..] == Since(before, net.trace);
  }

  /** The step proper, the boot ID being known if it reboots. */
  method RunKnowingBoot(net: Net, c: nat, a: Action, k: nat, delay: nat, id: string, ghost boot: seq<Event>)
    returns (sr: StepResult, f: Option<Category>, nc: Option<nat>, ghost p: Parts)
    requires net.Held() == One(c) && c < net.dialed && delay > 0 && OldBoot(a, c, boot, id)
    modifies net
    ensures old(net.trace) <= net.trace && net.dialed >= old(net.dialed)
    ensures old(net.cancelled) ==> net.cancelled
    ensures if nc.Some? then net.Held() == One(nc.value) && nc.value < net.dialed else net.Held() == Nobody
    ensures p.boot == boot && Since(old(net.trace), net.trace) == Flatten(p.tries) + p.rest
    ensures DisconnectRan(a, k, c, nc, p, sr, f, id) && Paced(p.rest, delay, a.reconnectTimeout)
    ensures f == Some(Cancelled) ==> net.cancelled
    ensures old(net.now) <= net.now <= old(net.now) + DisconnectTime(a, delay) - EXEC_30S
  {
    ghost var start := net.trace;
    var first, g;
    ghost var tries;
    first, g, tries := RunStep(net, c, a, k);
    ghost var before := net.trace;
    sr, f, nc, p := AfterAttempts(net, c, a, k, delay, id, boot, tries, first, g);
    assert Since(start, net.trace) == Since(start, before) + Since(before, net.trace);
  }

  /** What a step that may disconnect does when its attempts are over. */
  method AfterAttempts(
    net: Net, c: nat, a: Action, k: nat, delay: nat, id: string, ghost boot: seq<Event>, ghost tries: seq<seq<Event>>,
    first: StepResult, g: Option<Category>)
    returns (sr: StepResult, f: Option<Category>, nc: Option<nat>, ghost p: Parts)
    requires net.Held() == One(c) && c < net.dialed && delay > 0 && OldBoot(a, c, boot, id)
    requires Tries(a, k, c, tries) && Ended(tries) && g == Verdict(a, tries) && first == ResultOf(k, tries, g)
    requires g == Some(Cancelled) ==> net.cancelled
    modifies net
    ensures old(net.trace) <= net.trace && net.dialed >= old(net.dialed)
    ensures old(net.cancelled) || f == Some(Cancelled) ==> net.cancelled
    ensures if nc.Some? then net.Held() == One(nc.value) && nc.value < net.dialed else net.Held() == Nobody
    ensures p == Parts(boot, tries, Since(old(net.trace), net.trace))
    ensures DisconnectRan(a, k, c, nc, p, sr, f, id) && Paced(p.rest, delay, a.reconnectTimeout)
    ensures old(net.now) <= net.now <= old(net.now) + KEEPALIVE + WaitTime(a.reconnectTimeout, delay)
  {
    sr, f, nc, p := first, g, Some(c), Parts(boot, tries, []);
    var lost := Lost(f, sr.started, sr.exit);
    if f.Some? && !lost {
      return;
    }
    if lost {
      f, sr := None, sr.(status := Report.Success, category := None);
    }
    if !a.reboot && !lost {
      var alive := net.Alive(c, KEEPALIVE);
      if alive {
        return;
      }
    }
    nc, f := Reconnect(net, c, a.reconnectTimeout, delay, id);
    p := p.(rest := Since(old(net.trace), net.trace));
    sr := sr.(status := StatusFor(f), category := f);
  }

  /** The boot ID to compare with, for a step that reboots. */
  method BootBefore(net: Net, c: nat, a: Action) returns (id: string, failure: Option<Category>, ghost boot: seq<Event>)
    requires net.Held() == One(c)
    modifies net
    ensures net.Held() == One(c) && net.dialed == old(net.dialed)
    ensures old(net.cancelled) || failure == Some(Cancelled) ==> net.cancelled
    ensures old(net.now) <= net.now <= old(net.now) + EXEC_30S
    ensures old(net.trace) <= net.trace && boot == Since(old(net.trace), net.trace)
    ensures failure.None? ==> OldBoot(a, c, boot, id)
    ensures failure.Some? ==>
              && a.reboot && |boot| == 1 && RanHere(boot[0], c, BootId) && BootIdIn(boot[0].reply).None?
              && failure.value == ReadFailure(boot[0].reply)
  {
    id, failure := "", None;
    if a.reboot {
      id, failure := ReadBootId(net, c);
    }
    boot := Since(old(net.trace), net.trace);
  }

  lemma SinceThen(a: seq<Event>, b: seq<Event>, c: seq<Event>)
    requires a <= b <= c
    ensures Since(a, c) == Since(a, b) + Since(b, c)
  {
  }

  lemma EventsInOrder(p: Parts)
    ensures p.Events() == p.boot + (Flatten(p.tries) + p.rest)
  {
  }

  /** A step that may drop the connection: a lost one is the expected outcome. Returns the connection to go on with. */
  method RunDisconnecting(net: Net, c: nat, a: Action, k: nat, delay: nat)
    returns (sr: StepResult, f: Option<Category>, nc: Option<nat>, ghost p: Parts)
    requires net.Held() == One(c) && c < net.dialed && delay > 0
    modifies net
    ensures old(net.trace) <= net.trace && net.dialed >= old(net.dialed)
    ensures old(net.cancelled) ==> net.cancelled
    ensures if nc.Some? then net.Held() == One(nc.value) && nc.value < net.dialed else net.Held() == Nobody
    ensures Since(old(net.trace), net.trace) == p.Events()
    ensures NoBootId(a, k, c, nc, p, sr, f) || exists id :: DisconnectRan(a, k, c, nc, p, sr, f, id)
    ensures Paced(p.rest, delay, a.reconnectTimeout)
    ensures f == Some(Cancelled) ==> net.cancelled
    ensures old(net.now) <= net.now <= old(net.now) + DisconnectTime(a, delay)
  {
    ghost var start := net.trace;
    var oldBoot, bf;
    ghost var boot;
    oldBoot, bf, boot := BootBefore(net, c, a);
    if bf.Some? {
      p := Parts(boot, [], []);
      EventsInOrder(p);
      return StepResult(k, Report.Failed, bf, 0, None, false), bf, Some(c), p;
    }
    ghost var before := net.trace;
    sr, f, nc, p := RunKnowingBoot(net, c, a, k, delay, oldBoot, boot);
    SinceThen(start, before, net.trace);
    EventsInOrder(p);
  }

  method RunFireAndForget(net: Net, c: nat, a: Action, k: nat)
    returns (sr: StepResult, f: Option<Category>, ghost p: Parts)
    requires net.Held() == One(c)
    modifies net
    ensures old(net.trace) <= net.trace && net.Held() == old(net.Held()) && net.dialed == old(net.dialed)
    ensures old(net.cancelled) ==> net.cancelled
    ensures Since(old(net.trace), net.trace) == p.Events()
    ensures FireRan(a, k, c, Some(c), p, sr, f)
    ensures f == Some(Cancelled) ==> net.cancelled
  {
    ghost var tries;
    sr, f, tries := RunStep(net, c, a, k);
    p := Parts([], tries, []);
    assert p.Events() == Flatten(tries);
    if Forgiven(f, sr.started, sr.exit) {
      f := None;
      sr := sr.(status := Report.Success, category := None);
    }
  }
}
