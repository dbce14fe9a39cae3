/**
 * `Run` as an interleaved step system: one dispatcher loop and one goroutine per started host share a
 * counting semaphore, the `failed` and `done` counters, a cancellable context and the result slice.
 * An action is one atomic step of one of them; a run is any sequence of enabled actions.
 */
module Scheduler {
  import opened Options
  import opened Report

  /** The plans' hosts in order and the two settings the loop reads; a MaxFailures of 0 or less never stops. */
  datatype Config = Config(hosts: seq<string>, concurrency: int, maxFailures: int) {
    function Slots(): nat {
      if concurrency > 1 then concurrency else 1
    }

    predicate Stops(failed: nat) {
      maxFailures > 0 && failed >= maxFailures
    }
  }

  /** How far `finish`, and then the deferred release, got for one host. */
  datatype Stage = Held | Stored | Counted | Tallied | Announced | Freed | Over {
    function Order(): nat {
      match this
      case Held => 0
      case Stored => 1
      case Counted => 2
      case Tallied => 3
      case Announced => 4
      case Freed => 5
      case Over => 6
    }

    function Next(): Stage {
      match this
      case Held => Stored
      case Stored => Counted
      case Counted => Tallied
      case Tallied => Announced
      case Announced => Freed
      case Freed => Over
      case Over => Over
    }
  }

  /** One plan: not looked at yet, in `runHost`, or being finished by its goroutine or by the dispatcher. */
  datatype Phase =
    | Idle
    | Running
    | Ending(stage: Stage, status: Status, launched: bool)
  {
    predicate Launched() {
      Running? || (Ending? && launched)
    }

    predicate Past(st: Stage) {
      Ending? && st.Order() <= stage.Order()
    }
  }

  datatype Pc =
    | Loop     // at the select, or leaving the loop
    | Check    // slot taken, about to compare `failed` with MaxFailures
    | Start    // comparison passed, about to start the goroutine
    | Drop     // comparison failed, about to give the slot back
    | Inline   // finishing a host that is not started
    | Join     // wg.Wait
    | Totals   // rep.finish
    | Closing  // the deferred Bastions.Close
    | Returned

  datatype State = State(
    pc: Pc,
    next: nat,                // loop index
    slots: nat,               // tokens in the semaphore
    phases: seq<Phase>,
    failed: nat,
    done: nat,
    live: nat,                // wg counter
    cancelled: bool,
    results: seq<HostResult>, // rep.Hosts
    calls: seq<nat>,          // plan indices passed to OnHostDone, in order
    summary: Option<Summary>)

  datatype Action =
    | Acquire
    | SeeCancel
    | PassCheck
    | FailCheck
    | GiveBack
    | Launch
    | HostReturns(i: nat, status: Status)
    | Advance(i: nat)
    | Resume
    | LeaveLoop
    | JoinAll
    | Summarise
    | ClosePool
    | Cancel

  function Init(cfg: Config): State {
    State(Loop, 0, 0, seq(|cfg.hosts|, _ => Idle), 0, 0, 0, false, seq(|cfg.hosts|, _ => BLANK), [], None)
  }

  /** What `runHost` can hand to `finish`. */
  predicate HostVerdict(st: Status) {
    st == Success || st == Failed || st == Cancelled
  }

  predicate Enabled(cfg: Config, s: State, a: Action) {
    var n := |cfg.hosts|;
    && |s.phases| == |s.results| == n
    && match a
       case Acquire => s.pc == Loop && s.next < n && s.slots < cfg.Slots()
       case SeeCancel => s.pc == Loop && s.next < n && s.cancelled
       case PassCheck => s.pc == Check && !cfg.Stops(s.failed)
       case FailCheck => s.pc == Check && cfg.Stops(s.failed)
       case GiveBack => s.pc == Drop && s.next < n && s.slots > 0
       case Launch => s.pc == Start && s.next < n
       case HostReturns(i, st) => i < n && s.phases[i] == Running && HostVerdict(st)
       case Advance(i) => MayAdvance(s, i)
       case Resume => s.pc == Inline && s.next < n && s.phases[s.next].Past(Announced)
       case LeaveLoop => s.pc == Loop && s.next == n
       case JoinAll => s.pc == Join && s.live == 0
       case Summarise => s.pc == Totals
       case ClosePool => s.pc == Closing
       case Cancel => !s.cancelled
  }

  /** `finish` can take its next step, or the goroutine its next release; receiving from an empty semaphore blocks. */
  predicate MayAdvance(s: State, i: nat) {
    && i < |s.phases|
    && s.phases[i].Ending?
    && match s.phases[i].stage
       case Announced => s.phases[i].launched && s.slots > 0
       case Freed => s.phases[i].launched && s.live > 0
       case Over => false
       case _ => true
  }

  function Apply(cfg: Config, s: State, a: Action): State
    requires Enabled(cfg, s, a)
  {
    match a
    case Acquire => s.(slots := s.slots + 1, pc := Check)
    case SeeCancel => s.(phases := s.phases[s.next := Ending(Held, Cancelled, false)], pc := Inline)
    case PassCheck => s.(pc := Start)
    case FailCheck => s.(pc := Drop)
    case GiveBack => s.(slots := s.slots - 1, phases := s.phases[s.next := Ending(Held, Skipped, false)], pc := Inline)
    case Launch => s.(phases := s.phases[s.next := Running], live := s.live + 1, next := s.next + 1, pc := Loop)
    case HostReturns(i, st) => s.(phases := s.phases[i := Ending(Held, st, true)])
    case Advance(i) => FinishStep(cfg, s, i)
    case Resume => s.(next := s.next + 1, pc := Loop)
    case LeaveLoop => s.(pc := Join)
    case JoinAll => s.(pc := Totals)
    case Summarise => s.(summary := Some(Tally(s.results)), pc := Closing)
    case ClosePool => s.(pc := Returned)
    case Cancel => s.(cancelled := true)
  }

  /** One step of `finish(i, h)` or, for a goroutine, of `<-sem; wg.Done()` after it. */
  function FinishStep(cfg: Config, s: State, i: nat): State
    requires |s.phases| == |s.results| == |cfg.hosts| && MayAdvance(s, i)
  {
    var p := s.phases[i];
    var t := s.(phases := s.phases[i := p.(stage := p.stage.Next())]);
    match p.stage
    case Held => t.(results := s.results[i := HostResult(cfg.hosts[i], p.status)])
    case Stored => t.(failed := s.failed + if p.status == Failed then 1 else 0)
    case Counted => t.(done := s.done + 1)
    case Tallied => t.(calls := s.calls + [i])
    case Announced => t.(slots := s.slots - 1)
    case Freed => t.(live := s.live - 1)
  }

  /** Runs: where a sequence of actions leads, if each is enabled in turn. */
  function Exec(cfg: Config, s: State, acts: seq<Action>): Option<State>
    decreases |acts|
  {
    if acts == [] then Some(s)
    else if Enabled(cfg, s, acts[0]) then Exec(cfg, Apply(cfg, s, acts[0]), acts[1..])
    else None
  }

  ghost predicate Reachable(cfg: Config, s: State) {
    exists acts :: Exec(cfg, Init(cfg), acts) == Some(s)
  }

  lemma {:induction false} ExecSnoc(cfg: Config, s: State, acts: seq<Action>, t: State, a: Action)
    requires Exec(cfg, s, acts) == Some(t) && Enabled(cfg, t, a)
    ensures Exec(cfg, s, acts + [a]) == Some(Apply(cfg, t, a))
    decreases |acts|
  {
    if acts == [] {
      assert [] + [a] == [a] && [a][1..] == [];
    } else {
      ExecSnoc(cfg, Apply(cfg, s, acts[0]), acts[1..], t, a);
      assert (acts + [a])[1..] == acts[1..] + [a];
    }
  }

  lemma ReachableStep(cfg: Config, s: State, a: Action)
    requires Reachable(cfg, s) && Enabled(cfg, s, a)
    ensures Reachable(cfg, Apply(cfg, s, a))
  {
    var acts :| Exec(cfg, Init(cfg), acts) == Some(s);
    ExecSnoc(cfg, Init(cfg), acts, s, a);
  }
}
