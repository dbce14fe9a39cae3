/**
 * The world a host run acts on: connections, remote commands, time and the run's context. What comes back is
 * arbitrary within what the SSH layer can return; everything that happens is recorded in `trace`.
 */
module Network {
  import opened Options
  import opened Domain

  /** What is run on a host: the test for sudo without a password, the boot-ID read, or the upload and the command of
      a step. */
  datatype Command = SudoTest | BootId | Upload(step: nat) | Body(step: nat)

  /** What `Exec` returns; `holds` is the verdict of the output conditions (module OutputBuffer). */
  datatype Reply = Reply(err: Option<Category>, exit: Option<int>, started: bool, stdout: string, holds: bool)

  predicate Possible(r: Reply) {
    && (r.err.Some? ==> r.exit.None? && (r.err.value.CommandTimeout? || r.err.value.Cancelled? || r.err.value.SessionFailed?))
    && (r.err.None? ==> r.started)
  }

  datatype Event =
    | Dialed(client: nat)
    | DialFailed(cat: Category)
    | Ran(client: nat, cmd: Command, reply: Reply)
    | HungUp(client: nat)

  /** The connection a host owns. Misuse: it used, closed or made a connection at the wrong time. */
  datatype Holding = Nobody | One(client: nat) | Misuse

  /** Dial only without a connection, run and hang up only on the one there is. */
  function Next(h: Holding, e: Event): Holding {
    match e
    case Dialed(c) => if h == Nobody then One(c) else Misuse
    case DialFailed(_) => if h == Nobody then Nobody else Misuse
    case Ran(c, _, _) => if h == One(c) then h else Misuse
    case HungUp(c) => if h == One(c) then Nobody else Misuse
  }

  /** What a host owns after these events, none of them a misuse unless it says so. */
  function HeldAfter(trace: seq<Event>): Holding {
    if trace == [] then Nobody else Next(HeldAfter(trace[..|trace| - 1]), trace[|trace| - 1])
  }

  lemma HeldSnoc(trace: seq<Event>, e: Event)
    ensures HeldAfter(trace + [e]) == Next(HeldAfter(trace), e)
  {
    assert (trace + [e])[..|trace|] == trace;
  }

  function HeldFrom(h: Holding, events: seq<Event>): Holding
    decreases |events|
  {
    if events == [] then h else HeldFrom(Next(h, events[0]), events[1..])
  }

  lemma {:induction false} HeldConcat(a: seq<Event>, b: seq<Event>)
    ensures HeldAfter(a + b) == HeldFrom(HeldAfter(a), b)
    decreases |b|
  {
    if b == [] {
      assert a + b == a;
    } else {
      HeldSnoc(a, b[0]);
      HeldConcat(a + [b[0]], b[1..]);
      assert a + b == a + [b[0]] + b[1..];
    }
  }

  /** A misuse is never made good. */
  lemma {:induction false} MisuseStays(a: seq<Event>, b: seq<Event>)
    requires HeldAfter(a + b) != Misuse
    ensures HeldAfter(a) != Misuse
    decreases |b|
  {
    if b == [] {
      assert a + b == a;
    } else {
      var n := |b| - 1;
      assert (a + b)[..|a + b| - 1] == a + b[..n];
      MisuseStays(a, b[..n]);
    }
  }

  /** After nothing is held, history does not matter. */
  lemma HeldFromNobody(a: seq<Event>, b: seq<Event>)
    requires HeldAfter(a) == Nobody
    ensures HeldAfter(a + b) == HeldAfter(b)
  {
    HeldConcat(a, b);
    HeldConcat([], b);
    assert [] + b == b;
  }

  /** What is dialed and not held at the end was hung up in between. */
  lemma HungUpLater(trace: seq<Event>, j: nat) returns (k: nat)
    requires HeldAfter(trace) == Nobody && j < |trace| && trace[j].Dialed?
    ensures j < k < |trace| && trace[k] == HungUp(trace[j].client)
  {
    var n := j + 1;
    assert trace == trace[..n] + trace[n..] && trace[..n][..j] == trace[..j];
    MisuseStays(trace[..n], trace[n..]);
    k := ReleasedIn(trace, n, trace[j].client);
  }

  lemma {:induction false} ReleasedIn(trace: seq<Event>, n: nat, c: nat) returns (k: nat)
    requires HeldAfter(trace) == Nobody && n <= |trace| && HeldAfter(trace[..n]) == One(c)
    ensures n <= k < |trace| && trace[k] == HungUp(c)
    decreases |trace| - n
  {
    assert trace[..|trace|] == trace;
    assert trace[..n + 1][..n] == trace[..n];
    if trace[n] == HungUp(c) {
      k := n;
    } else {
      assert trace == trace[..n + 1] + trace[n + 1..];
      MisuseStays(trace[..n + 1], trace[n + 1..]);
      k := ReleasedIn(trace, n + 1, c);
    }
  }

  /** How long a sleep may take. */
  function Pause(d: int): nat {
    if d > 0 then d else 0
  }

  class Net {
    var now: nat
    var cancelled: bool
    var dialed: nat         // connections made so far; each has its own number
    ghost var trace: seq<Event>
    ghost var pauses: nat   // sum of the requested sleeps

    /** The connection this host owns. */
    ghost function Held(): Holding
      reads `trace
    {
      HeldAfter(trace)
    }

    ghost method Record(e: Event)
      modifies `trace
      ensures trace == old(trace) + [e] && Held() == Next(old(Held()), e)
    {
      HeldSnoc(trace, e);
      trace := trace + [e];
    }

    /** One connection attempt. A host that still owns a connection never makes one. */
    method Dial(deadline: Option<nat>) returns (client: Option<nat>, cat: Category)
      requires Held() == Nobody
      modifies this
      ensures now >= old(now) && (old(cancelled) ==> cancelled) && pauses == old(pauses)
      ensures deadline.Some? && old(now) <= deadline.value ==> now <= deadline.value
      ensures client.Some? ==>
                && client.value == old(dialed) && dialed == old(dialed) + 1
                && Held() == One(client.value) && trace == old(trace) + [Dialed(client.value)]
      ensures client.None? ==> dialed == old(dialed) && Held() == Nobody && trace == old(trace) + [DialFailed(cat)]
      ensures client.None? && cat == Cancelled ==> cancelled
    {
      var ok: bool := *;
      cat := *;
      Elapse(deadline);
      if cat == Cancelled && !cancelled {
        cat := InternalError;
      }
      if ok {
        client := Some(dialed);
        Record(Dialed(dialed));
        dialed := dialed + 1;
      } else {
        client := None;
        Record(DialFailed(cat));
      }
    }

    /** Time passes, not beyond a given end, and the run may be cancelled meanwhile. */
    method Elapse(end: Option<nat>)
      modifies `now, `cancelled
      ensures now >= old(now) && (old(cancelled) ==> cancelled)
      ensures end.Some? && old(now) <= end.value ==> now <= end.value
    {
      var took: int := *;
      var stop: bool := *;
      cancelled := cancelled || stop;
      if took > 0 && (end.None? || now + took <= end.value) {
        now := now + took;
      }
    }

    /** One command on an open connection, within its timeout. */
    method Exec(client: nat, cmd: Command, timeout: nat) returns (r: Reply)
      requires Held() == One(client)
      modifies `now, `cancelled, `trace
      ensures old(now) <= now <= old(now) + timeout && (old(cancelled) ==> cancelled)
      ensures Possible(r) && (r.err == Some(Cancelled) ==> cancelled)
      ensures trace == old(trace) + [Ran(client, cmd, r)] && Held() == One(client)
    {
      r := *;
      Elapse(Some(now + timeout));
      if !Possible(r) || (r.err == Some(Cancelled) && !cancelled) {
        r := Reply(Some(SessionFailed), None, false, "", false);
      }
      Record(Ran(client, cmd, r));
    }

    method Close(client: nat)
      requires Held() == One(client)
      modifies `trace
      ensures Held() == Nobody && trace == old(trace) + [HungUp(client)]
    {
      Record(HungUp(client));
    }

    /** A keepalive; it leaves no trace on the host. */
    method Alive(client: nat, timeout: nat) returns (ok: bool)
      requires Held() == One(client)
      modifies `now, `cancelled
      ensures old(now) <= now <= old(now) + timeout && (old(cancelled) ==> cancelled)
    {
      ok := *;
      Elapse(Some(now + timeout));
    }

    /** An interrupted sleep means the run was cancelled; with both at hand, either may win. */
    method Sleep(d: int) returns (interrupted: bool)
      modifies `now, `cancelled, `pauses
      ensures old(now) <= now <= old(now) + Pause(d) && (old(cancelled) ==> cancelled)
      ensures interrupted ==> cancelled
      ensures !interrupted ==> now == old(now) + Pause(d)
      ensures d <= 0 ==> (interrupted <==> cancelled)
      ensures pauses == old(pauses) + Pause(d)
    {
      pauses := pauses + Pause(d);
      if d <= 0 {
        return cancelled;
      }
      var end := now + d;
      Elapse(Some(end));
      interrupted := *;
      interrupted := interrupted && cancelled;
      if !interrupted {
        now := end;
      }
    }
  }
}
