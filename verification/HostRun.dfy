/** `runHost`: connect, run the steps in order, report; and what follows from it for every host run. */
module HostRun {
  import opened Options
  import opened Domain
  import opened Network
  import opened Extremes
  import opened HostConnection
  import opened HostSteps
  import Report

  /** The command line takes any delays; the pause between reconnects is the program's own. */
  datatype Settings = Settings(connectRetries: int, retryDelay: int, maxRetryDelay: int, reconnectDelay: nat)

  predicate ValidSettings(s: Settings) {
    -TWO_63 <= s.retryDelay < TWO_63 && -TWO_63 <= s.maxRetryDelay < TWO_63 && s.reconnectDelay > 0
  }

  /** `failedStep` is None, and `category` set, when the connection itself failed. */
  datatype HostResult = HostResult(
    status: Status,
    category: Option<Category>,
    failedStep: Option<nat>,
    connectAttempts: nat,
    steps: seq<StepResult>)

  function SkippedStep(k: nat): StepResult {
    StepResult(k, Report.Skipped, None, 0, None, false)
  }

  /** After this failure no further step is run. */
  predicate Stops(a: Action, f: Option<Category>, client: Option<nat>) {
    f.Some? && (!a.continueOnError || client.None? || f.value == Cancelled || f.value == SessionFailed)
  }

  /** How the steps went: the test for sudo before them, per step its failure and events, and the connection held
      before and after each. */
  datatype StepsRecord = StepsRecord(
    probe: seq<Event>, stop: nat, fs: seq<Option<Category>>, parts: seq<Parts>, clients: seq<Option<nat>>)

  ghost function AllEvents(parts: seq<Parts>): seq<Event> {
    if parts == [] then [] else AllEvents(parts[..|parts| - 1]) + parts[|parts| - 1].Events()
  }

  lemma AllEventsSnoc(parts: seq<Parts>, p: Parts)
    ensures AllEvents(parts + [p]) == AllEvents(parts) + p.Events()
  {
    assert (parts + [p])[..|parts|] == parts;
  }

  ghost predicate Sized(n: nat, steps: seq<StepResult>, r: StepsRecord) {
    |steps| == |r.fs| == |r.parts| == n && |r.clients| == n + 1 && r.stop <= n
  }

  /** Step `k` was run on the connection held before it. */
  ghost predicate RanAt(acts: seq<Action>, steps: seq<StepResult>, r: StepsRecord, k: nat)
    requires k < |acts| && k < |steps| == |r.fs| == |r.parts| && |r.clients| == |steps| + 1
  {
    && r.clients[k].Some?
    && StepRan(acts[k], k, r.clients[k].value, r.clients[k + 1], r.parts[k], steps[k], r.fs[k])
  }

  /** Step `k` was not run. */
  ghost predicate SkippedAt(steps: seq<StepResult>, r: StepsRecord, k: nat)
    requires k < |steps| == |r.fs| == |r.parts| && |r.clients| == |steps| + 1
  {
    steps[k] == SkippedStep(k) && r.fs[k].None? && r.parts[k] == NO_PARTS && r.clients[k + 1] == r.clients[k]
  }

  /** The first `n` steps: run up to the first failure that stops, skipped after it. */
  ghost predicate StepsRan(acts: seq<Action>, n: nat, steps: seq<StepResult>, r: StepsRecord) {
    && n <= |acts|
    && Sized(n, steps, r)
    && (forall k :: 0 <= k < r.stop ==> RanAt(acts, steps, r, k))
    && (forall k :: r.stop <= k < n ==> SkippedAt(steps, r, k))
    && (forall k :: 0 <= k < r.stop - 1 ==> !Stops(acts[k], r.fs[k], r.clients[k + 1]))
    && (r.stop < n ==> r.stop > 0 && Stops(acts[r.stop - 1], r.fs[r.stop - 1], r.clients[r.stop]))
  }

  /** The host's verdict is that of the first failing step. */
  ghost predicate FirstDecides(fs: seq<Option<Category>>, h: HostResult) {
    if h.failedStep.None? then
      h.category.None? && h.status == Report.Success && forall k :: 0 <= k < |fs| ==> fs[k].None?
    else
      var j := h.failedStep.value;
      && j < |fs| && fs[j].Some?
      && h.category == fs[j] && h.status == StatusFor(fs[j])
      && forall k :: 0 <= k < j ==> fs[k].None?
  }

  function Hangup(client: Option<nat>): seq<Event> {
    if client.Some? then [HungUp(client.value)] else []
  }

  /** The last connection attempt failed: its category is the host's, unless the pause after it was cut short. */
  ghost predicate ConnectFailed(acts: seq<Action>, h: HostResult, r: StepsRecord, connecting: seq<Event>) {
    && connecting != [] && LastOf(connecting).DialFailed?
    && (h.category == Some(LastOf(connecting).cat)
        || (h.category == Some(Cancelled) && LastOf(connecting).cat.Retryable()))
    && h.status == StatusFor(h.category) && h.failedStep.None?
    && |h.steps| == |acts| && Sized(|acts|, h.steps, r)
    && (forall k :: 0 <= k < |acts| ==> h.steps[k] == SkippedStep(k) && r.parts[k] == NO_PARTS)
  }

  /** At most one test whether sudo needs a password. */
  ghost predicate Probed(probe: seq<Event>, c: nat) {
    probe == [] || (|probe| == 1 && RanHere(probe[0], c, SudoTest))
  }

  ghost function LastOf(ev: seq<Event>): Event
    requires ev != []
  {
    ev[|ev| - 1]
  }

  /** A whole host run: `connecting` are its connection attempts, `events` everything. */
  ghost predicate HostRan(acts: seq<Action>, h: HostResult, r: StepsRecord, connecting: seq<Event>, events: seq<Event>) {
    && connecting != [] && RetriedDials(connecting[..|connecting| - 1])
    && if LastOf(connecting).Dialed? then
         && StepsRan(acts, |acts|, h.steps, r)
         && FirstDecides(r.fs, h)
         && r.clients[0] == Some(LastOf(connecting).client)
         && Probed(r.probe, LastOf(connecting).client)
         && events == connecting + r.probe + AllEvents(r.parts) + Hangup(r.clients[|acts|])
       else
         ConnectFailed(acts, h, r, connecting) && events == connecting
  }

  /** What `RunHost` can come to, for a host that starts with nothing. */
  ghost predicate Outcome(acts: seq<Action>, h: HostResult, r: StepsRecord, connecting: seq<Event>, events: seq<Event>) {
    HostRan(acts, h, r, connecting, events) && HeldAfter(events) == Nobody
  }

  /** The attempts to connect are dials and nothing else. */
  lemma ConnectingDials(acts: seq<Action>, h: HostResult, r: StepsRecord, connecting: seq<Event>, events: seq<Event>)
    requires HostRan(acts, h, r, connecting, events)
    ensures forall i :: 0 <= i < |connecting| ==> IsDial(connecting[i])
  {
    var n := |connecting| - 1;
    forall i | 0 <= i < |connecting|
      ensures IsDial(connecting[i])
    {
      if i < n {
        assert connecting[..n][i] == connecting[i];
      }
    }
  }

  /** The outcome folded so far. */
  ghost predicate Folded(acts: seq<Action>, n: nat, h: HostResult, r: StepsRecord, client: Option<nat>, stopped: bool) {
    && StepsRan(acts, n, h.steps, r)
    && FirstDecides(r.fs, h)
    && r.clients[n] == client
    && (!stopped ==> client.Some? && r.stop == n)
    && (!stopped && n > 0 ==> !Stops(acts[n - 1], r.fs[n - 1], r.clients[n]))
    && (stopped ==> r.stop > 0 && Stops(acts[r.stop - 1], r.fs[r.stop - 1], r.clients[r.stop]))
  }

  /** `fail`: the first failure decides the host result. */
  function Noted(h: HostResult, f: Option<Category>, k: nat): HostResult {
    if f.None? || h.category.Some? then h
    else h.(category := f, failedStep := Some(k), status := StatusFor(f))
  }

  function Extended(r: StepsRecord, ran: bool, f: Option<Category>, p: Parts, nc: Option<nat>): StepsRecord {
    StepsRecord(r.probe, if ran then r.stop + 1 else r.stop, r.fs + [f], r.parts + [p], r.clients + [nc])
  }

  /** What is recorded of earlier steps stays as it is. */
  lemma EarlierKept(
    acts: seq<Action>, n: nat, steps: seq<StepResult>, r: StepsRecord, ran: bool, sr: StepResult, f: Option<Category>, p: Parts, nc: Option<nat>)
    requires StepsRan(acts, n, steps, r)
    ensures forall k :: 0 <= k < r.stop ==> RanAt(acts, steps + [sr], Extended(r, ran, f, p, nc), k)
    ensures forall k :: r.stop <= k < n ==> SkippedAt(steps + [sr], Extended(r, ran, f, p, nc), k)
  {
    var t := Extended(r, ran, f, p, nc);
    forall k | 0 <= k < r.stop
      ensures RanAt(acts, steps + [sr], t, k)
    {
      assert RanAt(acts, steps, r, k);
    }
    forall k | r.stop <= k < n
      ensures SkippedAt(steps + [sr], t, k)
    {
      assert SkippedAt(steps, r, k);
    }
  }

  lemma SkipOne(acts: seq<Action>, n: nat, h: HostResult, r: StepsRecord, client: Option<nat>)
    requires n < |acts| && Folded(acts, n, h, r, client, true)
    ensures Folded(acts, n + 1, h.(steps := h.steps + [SkippedStep(n)]),
                   Extended(r, false, None, NO_PARTS, client), client, true)
  {
    EarlierKept(acts, n, h.steps, r, false, SkippedStep(n), None, NO_PARTS, client);
    assert SkippedAt(h.steps + [SkippedStep(n)], Extended(r, false, None, NO_PARTS, client), n);
  }

  lemma RunOne(
    acts: seq<Action>, n: nat, h: HostResult, r: StepsRecord, c: nat, sr: StepResult, f: Option<Category>, p: Parts, nc: Option<nat>)
    requires n < |acts| && Folded(acts, n, h, r, Some(c), false)
    requires StepRan(acts[n], n, c, nc, p, sr, f) && (nc.None? ==> f.Some?)
    ensures Folded(acts, n + 1, Noted(h, f, n).(steps := h.steps + [sr]),
                   Extended(r, true, f, p, nc), nc, Stops(acts[n], f, nc))
  {
    RunOneMore(acts, n, h.steps, r, c, sr, f, p, nc);
    NotedDecides(r.fs, h, f, n);
  }

  lemma RunOneMore(
    acts: seq<Action>, n: nat, steps: seq<StepResult>, r: StepsRecord, c: nat, sr: StepResult, f: Option<Category>, p: Parts,
    nc: Option<nat>)
    requires n < |acts| && StepsRan(acts, n, steps, r) && r.stop == n && r.clients[n] == Some(c)
    requires n > 0 ==> !Stops(acts[n - 1], r.fs[n - 1], r.clients[n])
    requires StepRan(acts[n], n, c, nc, p, sr, f)
    ensures StepsRan(acts, n + 1, steps + [sr], Extended(r, true, f, p, nc))
  {
    var t := Extended(r, true, f, p, nc);
    EarlierKept(acts, n, steps, r, true, sr, f, p, nc);
    assert RanAt(acts, steps + [sr], t, n);
    assert t.clients[n] == r.clients[n];
    forall k | 0 <= k < n
      ensures !Stops(acts[k], t.fs[k], t.clients[k + 1])
    {
      assert t.fs[k] == r.fs[k] && t.clients[k + 1] == r.clients[k + 1];
    }
  }

  lemma NotedDecides(fs: seq<Option<Category>>, h: HostResult, f: Option<Category>, n: nat)
    requires FirstDecides(fs, h) && n == |fs|
    ensures FirstDecides(fs + [f], Noted(h, f, n))
  {
  }

  /** No connection: every step is reported as skipped, and the host by the failed dial. */
  method SkipAll(acts: seq<Action>, h: HostResult, cat: Category, ghost connecting: seq<Event>)
    returns (t: HostResult, ghost r: StepsRecord)
    requires h.steps == [] && h.failedStep.None?
    requires connecting != [] && LastOf(connecting).DialFailed?
    requires cat == LastOf(connecting).cat || (cat == Cancelled && LastOf(connecting).cat.Retryable())
    ensures ConnectFailed(acts, t, r, connecting) && t.category == Some(cat) && t.connectAttempts == h.connectAttempts
  {
    t := h.(category := Some(cat), status := StatusFor(Some(cat)));
    for k := 0 to |acts|
      invariant t == h.(category := Some(cat), status := StatusFor(Some(cat)), steps := t.steps)
      invariant |t.steps| == k && forall j :: 0 <= j < k ==> t.steps[j] == SkippedStep(j)
    {
      t := t.(steps := t.steps + [SkippedStep(k)]);
    }
    r := StepsRecord([], 0, seq(|acts|, _ => None), seq(|acts|, _ => NO_PARTS), seq(|acts| + 1, _ => None));
  }

  /** One step, by its kind. */
  method RunOneStep(net: Net, c: nat, a: Action, k: nat, delay: nat)
    returns (sr: StepResult, f: Option<Category>, nc: Option<nat>, ghost p: Parts)
    requires net.Held() == One(c) && c < net.dialed && delay > 0
    modifies net
    ensures old(net.trace) <= net.trace && net.dialed >= old(net.dialed)
    ensures if nc.Some? then net.Held() == One(nc.value) && nc.value < net.dialed else net.Held() == Nobody
    ensures Since(old(net.trace), net.trace) == p.Events()
    ensures StepRan(a, k, c, nc, p, sr, f) && (nc.None? ==> f.Some?)
    ensures (old(net.cancelled) ==> net.cancelled) && (f == Some(Cancelled) ==> net.cancelled)
  {
    if a.disconnect {
      sr, f, nc, p := RunDisconnecting(net, c, a, k, delay);
    } else if a.fireAndForget {
      sr, f, p := RunFireAndForget(net, c, a, k);
      nc := Some(c);
    } else {
      ghost var tries;
      sr, f, tries := RunStep(net, c, a, k);
      nc, p := Some(c), Parts([], tries, []);
      assert p.Events() == Flatten(tries);
    }
  }

  /** The next step, and what it means for the host. */
  method RunNext(net: Net, acts: seq<Action>, k: nat, c: nat, delay: nat, h: HostResult, ghost r: StepsRecord)
    returns (t: HostResult, nc: Option<nat>, stopped: bool, ghost u: StepsRecord)
    requires net.Held() == One(c) && c < net.dialed && delay > 0
    requires k < |acts| && Folded(acts, k, h, r, Some(c), false) && (h.category == Some(Cancelled) ==> net.cancelled)
    modifies net
    ensures old(net.trace) <= net.trace
    ensures if nc.Some? then net.Held() == One(nc.value) && nc.value < net.dialed else net.Held() == Nobody
    ensures Folded(acts, k + 1, t, u, nc, stopped) && u.clients[0] == r.clients[0] && u.probe == r.probe
    ensures AllEvents(u.parts) == AllEvents(r.parts) + Since(old(net.trace), net.trace)
    ensures t.connectAttempts == h.connectAttempts && (t.category == Some(Cancelled) ==> net.cancelled)
  {
    var sr, f;
    ghost var p;
    sr, f, nc, p := RunOneStep(net, c, acts[k], k, delay);
    RunOne(acts, k, h, r, c, sr, f, p, nc);
    AllEventsSnoc(r.parts, p);
    u := Extended(r, true, f, p, nc);
    t := Noted(h, f, k).(steps := h.steps + [sr]);
    stopped := Stops(acts[k], f, nc);
  }

  /** The loop over the steps, `stopped` after the first failure that ends the host. */
  method RunSteps(net: Net, acts: seq<Action>, c: nat, delay: nat, start: HostResult, ghost probe: seq<Event>)
    returns (h: HostResult, client: Option<nat>, ghost r: StepsRecord)
    requires net.Held() == One(c) && c < net.dialed && delay > 0
    requires start.steps == [] && start.status == Report.Success && start.category.None? && start.failedStep.None?
    modifies net
    ensures old(net.trace) <= net.trace
    ensures if client.Some? then net.Held() == One(client.value) else net.Held() == Nobody
    ensures StepsRan(acts, |acts|, h.steps, r) && FirstDecides(r.fs, h)
    ensures r.clients[0] == Some(c) && r.clients[|acts|] == client && r.probe == probe
    ensures Since(old(net.trace), net.trace) == AllEvents(r.parts)
    ensures h.connectAttempts == start.connectAttempts
    ensures h.category == Some(Cancelled) ==> net.cancelled
  {
    h := start;
    client := Some(c);
    r := StepsRecord(probe, 0, [], [], [client]);
    var stopped := false;
    ghost var began := net.trace;
    for k := 0 to |acts|
      invariant client.Some? ==> client.value < net.dialed
      invariant if client.Some? then net.Held() == One(client.value) else net.Held() == Nobody
      invariant Folded(acts, k, h, r, client, stopped) && r.clients[0] == Some(c) && r.probe == probe
      invariant h.connectAttempts == start.connectAttempts
      invariant h.category == Some(Cancelled) ==> net.cancelled
      invariant began <= net.trace && Since(began, net.trace) == AllEvents(r.parts)
    {
      ghost var before := net.trace;
      if stopped {
        h, r := SkipNext(acts, k, client, h, r);
      } else {
        h, client, stopped, r := RunNext(net, acts, k, client.value, delay, h, r);
        SinceSplit(began, before, net.trace);
      }
    }
  }

  method SkipNext(acts: seq<Action>, k: nat, client: Option<nat>, h: HostResult, ghost r: StepsRecord)
    returns (t: HostResult, ghost u: StepsRecord)
    requires k < |acts| && Folded(acts, k, h, r, client, true)
    ensures Folded(acts, k + 1, t, u, client, true) && u.clients[0] == r.clients[0] && u.probe == r.probe
    ensures AllEvents(u.parts) == AllEvents(r.parts)
    ensures t.connectAttempts == h.connectAttempts && t.category == h.category
  {
    SkipOne(acts, k, h, r, client);
    AllEventsSnoc(r.parts, NO_PARTS);
    t := h.(steps := h.steps + [SkippedStep(k)]);
    u := Extended(r, false, None, NO_PARTS, client);
  }

  /** `needsSudoPassword`: asked once per host, and only if there is a password and a step to use it for. */
  method NeedsSudoPassword(net: Net, c: nat, asks: bool) returns (needed: bool, ghost probe: seq<Event>)
    requires net.Held() == One(c)
    modifies net`now, net`cancelled, net`trace
    ensures net.Held() == One(c) && old(net.trace) <= net.trace && (old(net.cancelled) ==> net.cancelled)
    ensures probe == Since(old(net.trace), net.trace) && Probed(probe, c) && (probe != [] <==> asks)
    ensures needed <==> asks && !(probe[0].reply.err.None? && probe[0].reply.exit == Some(0))
  {
    needed, probe := false, [];
    if asks {
      var r := net.Exec(c, SudoTest, EXEC_30S);
      needed := r.err.Some? || r.exit.None? || r.exit.value != 0;
      probe := [Ran(c, SudoTest, r)];
    }
  }

  /**
   * Runs one host; `asks` tells that a sudo password is known and some step uses sudo. When it returns, the host
   * owns no connection and never used one it did not own, and it is CANCELLED only if the run was cancelled. With
   * a negative maximum delay `connect` may panic instead.
   */
  method RunHost(net: Net, acts: seq<Action>, cfg: Settings, asks: bool)
    returns (h: HostResult, ghost r: StepsRecord, ghost connecting: seq<Event>, panicked: bool)
    requires net.Held() == Nobody && ValidSettings(cfg)
    modifies net
    ensures net.Held() == Nobody
    ensures old(net.trace) <= net.trace
    ensures panicked ==>
              cfg.maxRetryDelay <= -2 && cfg.connectRetries >= 1 && HeldAfter(Since(old(net.trace), net.trace)) == Nobody
    ensures !panicked ==>
              && Outcome(acts, h, r, connecting, Since(old(net.trace), net.trace))
              && h.connectAttempts == |connecting| <= Retries(cfg.connectRetries) + 1
              && (LastOf(connecting).Dialed? ==> (r.probe != [] <==> asks))
              && (h.status == Report.Cancelled ==> net.cancelled)
  {
    ghost var start := net.trace;
    var client, cat, attempts;
    client, cat, attempts, panicked := Connect(net, cfg.connectRetries, cfg.retryDelay, cfg.maxRetryDelay);
    h := HostResult(Report.Success, None, None, attempts, []);
    connecting := Since(start, net.trace);
    r := StepsRecord([], 0, [], [], []);
    if client.Some? {
      h, r := RunConnected(net, acts, client.value, cfg.reconnectDelay, asks, h, start, connecting);
    } else if !panicked {
      h, r := SkipAll(acts, h, cat, connecting);
    }
    HeldFromNobody(start, Since(start, net.trace));
    assert net.trace == start + Since(start, net.trace);
  }

  /** The run of a host that was reached, and the end of its connection. */
  method RunConnected(
    net: Net, acts: seq<Action>, c: nat, delay: nat, asks: bool, start: HostResult, ghost began: seq<Event>,
    ghost connecting: seq<Event>)
    returns (h: HostResult, ghost r: StepsRecord)
    requires net.Held() == One(c) && c < net.dialed && delay > 0
    requires start.steps == [] && start.status == Report.Success && start.category.None? && start.failedStep.None?
    requires began <= net.trace && connecting == Since(began, net.trace)
    requires connecting != [] && LastOf(connecting) == Dialed(c) && RetriedDials(connecting[..|connecting| - 1])
    modifies net
    ensures net.Held() == Nobody && old(net.trace) <= net.trace
    ensures HostRan(acts, h, r, connecting, Since(began, net.trace)) && (r.probe != [] <==> asks)
    ensures h.connectAttempts == start.connectAttempts && (h.status == Report.Cancelled ==> net.cancelled)
  {
    ghost var connected := net.trace;
    ghost var probe;
    var needed;
    needed, probe := NeedsSudoPassword(net, c, asks);
    ghost var probed := net.trace;
    var client;
    h, client, r := RunSteps(net, acts, c, delay, start, probe);
    ghost var ran := net.trace;
    if client.Some? {
      net.Close(client.value);
    }
    assert Since(ran, net.trace) == Hangup(client);
    JoinTraces(began, connected, probed, ran, net.trace);
  }

  lemma JoinTraces(a: seq<Event>, b: seq<Event>, c: seq<Event>, d: seq<Event>, e: seq<Event>)
    requires a <= b <= c <= d <= e
    ensures Since(a, e) == Since(a, b) + Since(b, c) + Since(c, d) + Since(d, e)
  {
    SinceSplit(a, d, e);
    SinceSplit(a, c, d);
    SinceSplit(a, b, c);
  }

  lemma SinceSplit(a: seq<Event>, b: seq<Event>, c: seq<Event>)
    requires a <= b <= c
    ensures a <= c && Since(a, c) == Since(a, b) + Since(b, c)
  {
  }
}
