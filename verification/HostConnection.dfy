/** Making and remaking the connection to one host: `connect`, `bootID` and `waitForHost`. */
module HostConnection {
  import opened Options
  import opened Domain
  import opened Network
  import opened Backoff
  import opened Extremes

  const SECOND := 1_000_000_000
  const EXEC_30S := 30 * SECOND

  // Reading a trace.

  /** The events recorded since a trace was `before`. */
  function Since(before: seq<Event>, trace: seq<Event>): seq<Event>
    requires before <= trace
  {
    trace[|before|..]
  }

  predicate IsDial(e: Event) {
    e.Dialed? || e.DialFailed?
  }

  function Dials(ev: seq<Event>): nat {
    if ev == [] then 0 else Dials(ev[..|ev| - 1]) + if IsDial(ev[|ev| - 1]) then 1 else 0
  }

  // connect

  /** Failed dials, each but the last of a kind worth retrying. */
  ghost predicate RetriedDials(ev: seq<Event>) {
    forall i :: 0 <= i < |ev| ==> ev[i].DialFailed? && ev[i].cat.Retryable()
  }

  function Retries(connectRetries: int): nat {
    if connectRetries > 0 then connectRetries else 0
  }

  /** What `n` pauses of at most `d` come to. */
  function Pauses(n: nat, d: int): nat {
    if n == 0 then 0 else Pauses(n - 1, d) + Pause(d)
  }

  lemma {:induction false} PausesProduct(n: nat, d: int)
    ensures Pauses(n, d) == n * Pause(d)
  {
    if n > 0 {
      PausesProduct(n - 1, d);
    }
  }

  lemma {:induction false} MorePauses(n: nat, m: nat, d: int)
    requires n <= m
    ensures Pauses(n, d) <= Pauses(m, d)
  {
    if n < m {
      MorePauses(n, m - 1, d);
    }
  }

  method PauseBeforeRetry(net: Net, retryDelay: int, maxDelay: int, attempt: nat) returns (interrupted: bool, panicked: bool)
    requires -TWO_63 <= retryDelay < TWO_63 && -TWO_63 <= maxDelay < TWO_63 && attempt >= 1
    modifies net`now, net`cancelled, net`pauses
    ensures old(net.cancelled) || interrupted ==> net.cancelled
    ensures net.pauses <= old(net.pauses) + Pause(maxDelay)
    ensures panicked <==> maxDelay <= -2
    ensures panicked ==> net.pauses == old(net.pauses)
  {
    var d := Delay(retryDelay, maxDelay, attempt);
    interrupted, panicked := false, d.None?;
    if !panicked {
      interrupted := net.Sleep(d.value);
    }
  }

  /**
   * Dials until one succeeds, one fails for good, or the attempts are used up. Any settings: with a maximum
   * delay of -2 ns or less the first pause panics, and the process is gone.
   */
  method Connect(net: Net, connectRetries: int, retryDelay: int, maxDelay: int)
    returns (client: Option<nat>, cat: Category, attempts: nat, panicked: bool)
    requires net.Held() == Nobody
    requires -TWO_63 <= retryDelay < TWO_63 && -TWO_63 <= maxDelay < TWO_63
    modifies net
    ensures old(net.trace) <= net.trace && net.dialed >= old(net.dialed)
    ensures old(net.cancelled) ==> net.cancelled
    ensures attempts == |Since(old(net.trace), net.trace)|
    ensures 1 <= attempts <= Retries(connectRetries) + 1
    ensures net.pauses <= old(net.pauses) + Retries(connectRetries) * Pause(maxDelay)
    ensures var ev := Since(old(net.trace), net.trace); RetriedDials(ev[..attempts - 1])
    ensures client.Some? ==>
              && net.Held() == One(client.value) && client.value < net.dialed
              && Since(old(net.trace), net.trace)[attempts - 1] == Dialed(client.value)
    ensures client.None? ==> net.Held() == Nobody && Since(old(net.trace), net.trace)[attempts - 1].DialFailed?
    ensures client.None? && !panicked ==>
              var last := Since(old(net.trace), net.trace)[attempts - 1];
              && (cat == last.cat || (cat == Cancelled && last.cat.Retryable()))
              && (cat == Cancelled ==> net.cancelled)
              && (last.cat.Retryable() && attempts <= Retries(connectRetries) ==> net.cancelled)
    ensures panicked ==>
              && maxDelay <= -2 && client.None? && attempts == 1 <= connectRetries
              && Since(old(net.trace), net.trace)[0].cat.Retryable()
    ensures maxDelay <= -2 && !panicked ==> attempts == 1
  {
    PausesProduct(Retries(connectRetries), maxDelay);
    var attempt := 1;
    ghost var start := net.trace;
    while true
      invariant net.Held() == Nobody && start <= net.trace && net.dialed >= old(net.dialed)
      invariant old(net.cancelled) ==> net.cancelled
      invariant 1 <= attempt <= Retries(connectRetries) + 1
      invariant attempt == |Since(start, net.trace)| + 1
      invariant RetriedDials(Since(start, net.trace))
      invariant net.pauses <= old(net.pauses) + Pauses(attempt - 1, maxDelay)
      invariant maxDelay <= -2 ==> attempt == 1
      decreases Retries(connectRetries) + 1 - attempt
    {
      ghost var before := net.trace;
      client, cat := net.Dial(None);
      assert Since(start, net.trace) == Since(start, before) + [net.trace[|before|]];
      attempts, panicked := attempt, false;
      MorePauses(attempt - 1, Retries(connectRetries), maxDelay);
      if client.Some? || !cat.Retryable() || attempt > connectRetries || net.cancelled {
        return;
      }
      var interrupted;
      interrupted, panicked := PauseBeforeRetry(net, retryDelay, maxDelay, attempt);
      if panicked {
        return;
      }
      MorePauses(attempt, Retries(connectRetries), maxDelay);
      if interrupted {
        return None, Cancelled, attempt, false;
      }
      attempt := attempt + 1;
    }
  }

  lemma Multiply(a: nat, b: nat, c: nat)
    requires a <= b
    ensures a * c <= b * c
    ensures (a + 1) * c == a * c + c
  {
  }

  // bootID

  /** What `strings.TrimSpace` takes away. */
  predicate Trimmable(c: char) {
    c == ' ' || '\t' <= c <= '\r'
  }

  function TrimSpace(s: string): string {
    if s != "" && Trimmable(s[0]) then TrimSpace(s[1..])
    else if s != "" && Trimmable(s[|s| - 1]) then TrimSpace(s[..|s| - 1])
    else s
  }

  /** The boot ID a reply carries, if it carries one. */
  function BootIdIn(r: Reply): Option<string> {
    if r.err.None? && r.exit == Some(0) && TrimSpace(r.stdout) != "" then Some(TrimSpace(r.stdout)) else None
  }

  /** Why no boot ID could be read from a reply. */
  function ReadFailure(r: Reply): Category {
    if r.err.Some? then r.err.value else CommandFailed
  }

  /** The host told its boot ID on this connection. */
  ghost predicate ReadId(e: Event, client: nat, id: string) {
    e.Ran? && e.client == client && e.cmd == BootId && BootIdIn(e.reply) == Some(id)
  }

  method ReadBootId(net: Net, client: nat) returns (id: string, failure: Option<Category>)
    requires net.Held() == One(client)
    modifies net
    ensures net.Held() == old(net.Held()) && net.dialed == old(net.dialed) && net.pauses == old(net.pauses)
    ensures old(net.now) <= net.now <= old(net.now) + EXEC_30S && (old(net.cancelled) ==> net.cancelled)
    ensures |net.trace| == |old(net.trace)| + 1 && old(net.trace) <= net.trace
    ensures var e := net.trace[|old(net.trace)|];
            && e.Ran? && e.client == client && e.cmd == BootId && Possible(e.reply)
            && (failure.None? ==> id != "" && ReadId(e, client, id))
            && (failure.Some? ==> BootIdIn(e.reply).None? && failure.value == ReadFailure(e.reply))
    ensures failure == Some(Cancelled) ==> net.cancelled
  {
    var r := net.Exec(client, BootId, EXEC_30S);
    if r.err.Some? {
      return "", Some(r.err.value);
    }
    id := TrimSpace(r.stdout);
    if r.exit.None? || r.exit.value != 0 || id == "" {
      return "", Some(CommandFailed);
    }
    failure := None;
  }

  // waitForHost

  /** Nothing but dials, boot-ID reads and hang-ups. */
  ghost predicate OnlyReconnects(ev: seq<Event>) {
    forall i :: 0 <= i < |ev| ==> ev[i].Ran? ==> ev[i].cmd == BootId
  }

  ghost predicate NoFatalDial(ev: seq<Event>) {
    forall i :: 0 <= i < |ev| ==> ev[i].DialFailed? ==> !ev[i].cat.Fatal()
  }

  /** The old boot was still answering at some point. */
  ghost predicate SawBoot(ev: seq<Event>, id: string) {
    exists i :: 0 <= i < |ev| && ev[i].Ran? && ReadId(ev[i], ev[i].client, id)
  }

  /** This connection told a boot ID that is not `oldBoot`. */
  ghost predicate NewBoot(e: Event, client: nat, oldBoot: string) {
    e.Ran? && e.client == client && e.cmd == BootId && BootIdIn(e.reply).Some? && BootIdIn(e.reply).value != oldBoot
  }

  /** The wait is over: the last event shows the host is back. */
  ghost predicate Back(ev: seq<Event>, client: nat, oldBoot: string) {
    ev != [] && if oldBoot == "" then ev[|ev| - 1] == Dialed(client) else NewBoot(ev[|ev| - 1], client, oldBoot)
  }

  datatype Round = Returned(client: nat) | GivesUp(cat: Category) | Again(sawOldBoot: bool)

  /** The events of one attempt, for each way it can end. */
  ghost predicate RoundEvents(ev: seq<Event>, r: Round, oldBoot: string, cancelled: bool) {
    match r
    case Returned(c) =>
      if oldBoot == "" then ev == [Dialed(c)] else |ev| == 2 && ev[0] == Dialed(c) && NewBoot(ev[1], c, oldBoot)
    case GivesUp(cat) =>
      && |ev| == 1 && ev[0].DialFailed?
      && if cat == Cancelled then cancelled else cat.Fatal() && cat == ev[0].cat
    case Again(saw) =>
      if |ev| == 1 then ev[0].DialFailed? && !ev[0].cat.Fatal() && !saw
      else
        && |ev| == 3 && ev[0].Dialed? && ev[1].Ran? && ev[1].cmd == BootId && ev[2] == HungUp(ev[0].client)
        && ev[1].client == ev[0].client
        && (saw <==> ReadId(ev[1], ev[1].client, oldBoot))
        && !NewBoot(ev[1], ev[0].client, oldBoot)
  }

  /** One attempt of the wait. */
  method Attempt(net: Net, deadline: nat, oldBoot: string) returns (r: Round)
    requires net.Held() == Nobody && net.now <= deadline
    modifies net
    ensures old(net.trace) <= net.trace && net.dialed >= old(net.dialed)
    ensures old(net.cancelled) ==> net.cancelled
    ensures old(net.now) <= net.now <= deadline + EXEC_30S
    ensures RoundEvents(Since(old(net.trace), net.trace), r, oldBoot, net.cancelled)
    ensures if r.Returned? then net.Held() == One(r.client) && old(net.dialed) <= r.client < net.dialed else net.Held() == Nobody
  {
    var client, cat := net.Dial(Some(deadline));
    if client.None? {
      return if net.cancelled then GivesUp(Cancelled) else if cat.Fatal() then GivesUp(cat) else Again(false);
    }
    if oldBoot == "" {
      return Returned(client.value);
    }
    var id, failure := ReadBootId(net, client.value);
    if failure.None? && id != oldBoot {
      return Returned(client.value);
    }
    net.Close(client.value);
    return Again(failure.None?);
  }

  lemma OneDial(ev: seq<Event>)
    requires 1 <= |ev| <= 3 && IsDial(ev[0]) && forall i :: 1 <= i < |ev| ==> !IsDial(ev[i])
    ensures Dials(ev) == 1
  {
    assert [] + [ev[0]] == [ev[0]] == ev[..1];
    if |ev| >= 2 {
      assert ev[..1] + [ev[1]] == ev[..2];
    }
    if |ev| == 3 {
      assert ev[..2] + [ev[2]] == ev;
    }
    assert ev[..|ev|] == ev;
  }

  lemma RoundMeans(ev: seq<Event>, r: Round, oldBoot: string, cancelled: bool)
    requires RoundEvents(ev, r, oldBoot, cancelled)
    ensures ev != [] && OnlyReconnects(ev) && Dials(ev) == 1
    ensures !r.GivesUp? ==> NoFatalDial(ev)
    ensures r.Returned? ==> Back(ev, r.client, oldBoot)
    ensures r.Again? ==> (r.sawOldBoot <==> SawBoot(ev, oldBoot))
  {
    OneDial(ev);
  }

  lemma {:induction false} DialsConcat(ev: seq<Event>, more: seq<Event>)
    ensures Dials(ev + more) == Dials(ev) + Dials(more)
  {
    if more == [] {
      assert ev + more == ev;
    } else {
      var init := more[..|more| - 1];
      assert ev + more == (ev + init) + [more[|more| - 1]];
      DialsConcat(ev, init);
    }
  }

  /** What one more round adds to what the rounds so far have shown. */
  lemma RoundsJoin(ev: seq<Event>, more: seq<Event>, oldBoot: string)
    requires OnlyReconnects(ev) && NoFatalDial(ev) && OnlyReconnects(more)
    ensures OnlyReconnects(ev + more)
    ensures NoFatalDial(more) ==> NoFatalDial(ev + more)
    ensures |more| == 1 ==> (ev + more)[..|ev + more| - 1] == ev
    ensures more != [] ==> (ev + more)[|ev + more| - 1] == more[|more| - 1]
    ensures SawBoot(ev, oldBoot) || SawBoot(more, oldBoot) <==> SawBoot(ev + more, oldBoot)
  {
    if SawBoot(ev, oldBoot) {
      var i :| 0 <= i < |ev| && ev[i].Ran? && ReadId(ev[i], ev[i].client, oldBoot);
      assert (ev + more)[i] == ev[i];
    }
    if SawBoot(more, oldBoot) {
      var i :| 0 <= i < |more| && more[i].Ran? && ReadId(more[i], more[i].client, oldBoot);
      assert (ev + more)[|ev| + i] == more[i];
    }
  }

  /** What a wait that failed may report, and on what grounds. */
  ghost predicate FailedWait(ev: seq<Event>, cat: Category, oldBoot: string, cancelled: bool, late: bool) {
    || (cat == Cancelled && cancelled)
    || (cat.Fatal() && ev != [] && ev[|ev| - 1] == DialFailed(cat) && NoFatalDial(ev[..|ev| - 1]))
    || (cat == ConnectionTimeout && late && NoFatalDial(ev) && !SawBoot(ev, oldBoot))
    || (cat == CommandFailed && late && NoFatalDial(ev) && SawBoot(ev, oldBoot))
  }

  /** The longest a wait can take. */
  function WaitTime(timeout: nat, delay: nat): nat {
    timeout + EXEC_30S + delay
  }

  /** The attempts so far, none of which ended the wait. */
  ghost predicate Rounds(ev: seq<Event>, count: nat, sawOldBoot: bool, oldBoot: string) {
    && OnlyReconnects(ev)
    && NoFatalDial(ev)
    && Dials(ev) == count
    && (sawOldBoot <==> SawBoot(ev, oldBoot))
  }

  lemma RoundsGrow(ev: seq<Event>, count: nat, saw: bool, more: seq<Event>, r: Round, oldBoot: string, cancelled: bool)
    requires Rounds(ev, count, saw, oldBoot) && RoundEvents(more, r, oldBoot, cancelled)
    ensures OnlyReconnects(ev + more) && Dials(ev + more) == count + 1
    ensures r.Again? ==> Rounds(ev + more, count + 1, saw || r.sawOldBoot, oldBoot)
    ensures r.Returned? ==> NoFatalDial(ev + more) && Back(ev + more, r.client, oldBoot)
    ensures r.GivesUp? ==> FailedWait(ev + more, r.cat, oldBoot, cancelled, false)
  {
    RoundMeans(more, r, oldBoot, cancelled);
    RoundsJoin(ev, more, oldBoot);
    DialsConcat(ev, more);
  }

  /**
   * Rounds of pausing for `delay` and dialing, until one shows the host on a boot that is not `oldBoot` ("" asks for
   * none in particular), one makes further rounds pointless, or a pause ends after the deadline.
   */
  method WaitForHost(net: Net, timeout: nat, delay: nat, oldBoot: string) returns (client: Option<nat>, cat: Category)
    requires net.Held() == Nobody && delay > 0
    modifies net
    ensures old(net.trace) <= net.trace && net.dialed >= old(net.dialed)
    ensures old(net.cancelled) ==> net.cancelled
    ensures OnlyReconnects(Since(old(net.trace), net.trace))
    ensures Dials(Since(old(net.trace), net.trace)) * delay <= timeout
    ensures old(net.now) <= net.now <= old(net.now) + WaitTime(timeout, delay)
    ensures client.Some? ==>
              && net.Held() == One(client.value) && old(net.dialed) <= client.value < net.dialed
              && NoFatalDial(Since(old(net.trace), net.trace))
              && Back(Since(old(net.trace), net.trace), client.value, oldBoot)
    ensures client.None? ==>
              && net.Held() == Nobody
              && FailedWait(Since(old(net.trace), net.trace), cat, oldBoot, net.cancelled, net.now > old(net.now) + timeout)
  {
    var deadline := net.now + timeout;
    var sawOldBoot := false;
    cat := ConnectionTimeout;
    ghost var start, count, waited := net.trace, 0, 0;
    while true
      invariant net.Held() == Nobody && start <= net.trace && net.dialed >= old(net.dialed)
      invariant old(net.cancelled) ==> net.cancelled
      invariant Rounds(Since(start, net.trace), count, sawOldBoot, oldBoot)
      invariant count * delay == waited <= timeout
      invariant old(net.now) + waited <= net.now <= deadline + EXEC_30S
      decreases timeout - waited
    {
      var interrupted := net.Sleep(delay);
      if interrupted {
        return None, Cancelled;
      }
      if net.now > deadline {
        return None, if sawOldBoot then CommandFailed else ConnectionTimeout;
      }
      ghost var before := net.trace;
      var r := Attempt(net, deadline, oldBoot);
      assert Since(start, net.trace) == Since(start, before) + Since(before, net.trace);
      RoundsGrow(Since(start, before), count, sawOldBoot, Since(before, net.trace), r, oldBoot, net.cancelled);
      Multiply(count, count, delay);
      count, waited := count + 1, waited + delay;
      match r {
        case Returned(c) => return Some(c), cat;
        case GivesUp(why) => return None, why;
        case Again(saw) => sawOldBoot := sawOldBoot || saw;
      }
    }
  }
}
