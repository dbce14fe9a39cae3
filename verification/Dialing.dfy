/** `Dial`: the connections one attempt opens, directly or through a bastion of its own or a shared one. */
module Dialing {
  import opened Options
  import opened Domain

  // How an attempt can go.

  /** Why a leg of an attempt ended: the run was cancelled, a deadline passed, or something else, classified. */
  datatype Why = ByCancel | ByDeadline | ByPeer(cat: Category)

  datatype Leg = Passed | Ended(why: Why)

  /** `NoCallback`: known_hosts could not be used, which ends the handshake before it begins. */
  datatype Handshaking = Secured | NoCallback(cat: Category) | Broken(why: Why)

  /** `Refused`: the bastion answered that it cannot reach the target. */
  datatype Tunnel = Through | Refused(cat: Category) | Lost(why: Why)

  /** `get` of the pool: a shared connection, the failure of the dial for it, or the end of the caller's own context. */
  datatype Sharing = Shared | DialFailed(tcp: Leg, shake: Handshaking) | WaitEnded(cancelled: bool)

  /** The outcome of each leg, should the attempt come to it. */
  datatype Course = Course(sharing: Sharing, hop: Leg, hopShake: Handshaking, tunnel: Tunnel, tcp: Leg, shake: Handshaking)

  /** Only a cancellation is classified as one, and a shared dial failed if it did. */
  predicate Classified(k: Course) {
    && PeerOk(k.hop) && PeerOk(k.tcp) && ShakeOk(k.hopShake) && ShakeOk(k.shake)
    && (k.tunnel.Refused? ==> k.tunnel.cat != Cancelled)
    && (k.tunnel.Lost? ==> WhyOk(k.tunnel.why))
    && (k.sharing.DialFailed? ==>
          PeerOk(k.sharing.tcp) && ShakeOk(k.sharing.shake) && !(k.sharing.tcp.Passed? && k.sharing.shake.Secured?))
  }

  predicate WhyOk(w: Why) {
    w.ByPeer? ==> w.cat != Cancelled
  }

  predicate PeerOk(l: Leg) {
    l.Ended? ==> WhyOk(l.why)
  }

  predicate ShakeOk(h: Handshaking) {
    (h.NoCallback? ==> h.cat != Cancelled) && (h.Broken? ==> WhyOk(h.why))
  }

  /** `ClassifyDial`. */
  function DialCategory(w: Why): Category {
    match w
    case ByCancel => Cancelled
    case ByDeadline => ConnectionTimeout
    case ByPeer(cat) => cat
  }

  /** How a handshake that did not come about is reported. */
  function ShakeCategory(h: Handshaking): Category
    requires !h.Secured?
  {
    match h
    case NoCallback(cat) => cat
    case Broken(w) => if w.ByDeadline? then HandshakeFailed else DialCategory(w)
  }

  // Errors.

  /** A classified failure, or the bare error of a context. */
  datatype Error = Failure(cat: Category) | ContextError

  datatype Outcome = Conn(id: nat) | Error(err: Error)

  /** `AsFailure`: what has no category gets this one. */
  function CategoryOf(e: Error): Category {
    match e
    case Failure(cat) => cat
    case ContextError => InternalError
  }

  // What an attempt comes to.

  datatype Stage = PoolWait | BastionHop | TunnelToTarget | TargetDial | TargetHandshake

  /** Where an attempt ended, whether a cancellation ended it, and what it reports. */
  datatype End = Reached | Failed(stage: Stage, cancelled: bool, cat: Category)

  predicate CancelledShake(h: Handshaking) {
    h == Broken(ByCancel)
  }

  /** A hop to an endpoint, the handshake included. */
  function HopEnd(stage: Stage, tcp: Leg, shake: Handshaking): End {
    if tcp.Ended? then Failed(stage, tcp.why.ByCancel?, DialCategory(tcp.why))
    else if !shake.Secured? then Failed(stage, CancelledShake(shake), ShakeCategory(shake))
    else Reached
  }

  function BastionEnd(pooled: bool, k: Course): End {
    if !pooled then HopEnd(BastionHop, k.hop, k.hopShake)
    else
      match k.sharing
      case Shared => Reached
      case DialFailed(tcp, shake) => HopEnd(BastionHop, tcp, shake)
      case WaitEnded(cancelled) => Failed(PoolWait, cancelled, CategoryOf(ContextError))
  }

  function TunnelEnd(t: Tunnel): End {
    match t
    case Through => Reached
    case Refused(cat) => Failed(TunnelToTarget, false, cat)
    case Lost(why) => Failed(TunnelToTarget, why.ByCancel?, DialCategory(why))
  }

  function EndOf(bastion: bool, pooled: bool, k: Course): End {
    var first := if bastion then BastionEnd(pooled, k) else HopEnd(TargetDial, k.tcp, Secured);
    if first.Failed? then first
    else
      var second := if bastion then TunnelEnd(k.tunnel) else Reached;
      if second.Failed? then second
      else HopEnd(TargetHandshake, Passed, k.shake)
  }

  /** A cancelled attempt reports a cancellation exactly unless it was cancelled waiting for a shared connection. */
  lemma CancelledUnlessWaiting(bastion: bool, pooled: bool, k: Course)
    requires Classified(k) && EndOf(bastion, pooled, k).Failed?
    ensures var e := EndOf(bastion, pooled, k);
            && (e.cat == Cancelled <==> e.cancelled && e.stage != PoolWait)
            && (e.stage == PoolWait ==> e.cat == InternalError)
  {
  }

  /** Cancelled in the wait for a bastion connection that another host is dialing. */
  const CANCELLED_WAIT := Course(WaitEnded(true), Passed, Secured, Through, Passed, Secured)

  /** The configurations in which every cancelled attempt reports a cancellation: all but a shared bastion. */
  lemma CancellationReportedIff(bastion: bool, pooled: bool)
    ensures (forall k :: Classified(k) && EndOf(bastion, pooled, k).Failed? && EndOf(bastion, pooled, k).cancelled
               ==> EndOf(bastion, pooled, k).cat == Cancelled)
            <==> !(bastion && pooled)
  {
    if bastion && pooled {
      assert Classified(CANCELLED_WAIT);
      assert EndOf(true, true, CANCELLED_WAIT) == Failed(PoolWait, true, InternalError);
    } else {
      forall k | Classified(k) && EndOf(bastion, pooled, k).Failed? && EndOf(bastion, pooled, k).cancelled
        ensures EndOf(bastion, pooled, k).cat == Cancelled
      {
        CancelledUnlessWaiting(bastion, pooled, k);
      }
    }
  }

  // The connections.

  /** An established connection, with the bastion connection it owns, if any. */
  datatype Client = Client(conn: nat, bastion: Option<nat>) {
    function Connections(): set<nat> {
      if bastion.Some? then {conn, bastion.value} else {conn}
    }
  }

  class Wire {
    var next: nat
    ghost var open: set<nat>
    ghost var shared: set<nat>  // opened by the pool, and its to close
    ghost var broken: set<nat>  // reported to the pool as broken
    ghost var secured: set<nat> // went through a handshake

    ghost predicate Valid()
      reads this
    {
      (forall c :: c in open ==> c < next) && (forall c :: c in shared ==> c < next) && open !! shared
    }

    method DialTCP(leg: Leg) returns (r: Outcome)
      requires Valid()
      modifies `next, `open
      ensures Valid() && next >= old(next)
      ensures leg.Passed? ==> r.Conn? && r.id >= old(next) && open == old(open) + {r.id}
      ensures leg.Ended? ==> r == Error(Failure(DialCategory(leg.why))) && open == old(open)
    {
      if leg.Ended? {
        return Error(Failure(DialCategory(leg.why)));
      }
      open := open + {next};
      r := Conn(next);
      next := next + 1;
    }

    /** Whatever keeps the handshake from succeeding, the connection is closed. */
    method Handshake(conn: nat, shake: Handshaking) returns (failure: Option<Category>)
      requires Valid() && conn in open
      modifies `open, `secured
      ensures Valid()
      ensures open == if shake.Secured? then old(open) else old(open) - {conn}
      ensures secured == if shake.Secured? then old(secured) + {conn} else old(secured)
      ensures failure == if shake.Secured? then None else Some(ShakeCategory(shake))
    {
      match shake {
        case NoCallback(cat) =>
          Close(conn);
          return Some(cat);
        case Broken(why) =>
          Close(conn);
          return Some(if why.ByDeadline? then HandshakeFailed else DialCategory(why));
        case Secured =>
          secured := secured + {conn};
          return None;
      }
    }

    method Close(conn: nat)
      requires Valid()
      modifies `open
      ensures Valid() && open == old(open) - {conn}
    {
      open := open - {conn};
    }

    method CloseClient(c: Client)
      requires Valid()
      modifies `open
      ensures Valid() && open == old(open) - c.Connections()
    {
      Close(c.conn);
      if c.bastion.Some? {
        Close(c.bastion.value);
      }
    }

    method DialHop(leg: Leg, shake: Handshaking) returns (r: Outcome)
      requires Valid()
      modifies `next, `open, `secured
      ensures Valid() && next >= old(next) && old(secured) <= secured
      ensures r.Conn? <==> HopEnd(BastionHop, leg, shake).Reached?
      ensures r.Conn? ==> r.id in secured && r.id >= old(next) && open == old(open) + {r.id}
      ensures r.Error? ==> r.err == Failure(HopEnd(BastionHop, leg, shake).cat) && open == old(open)
    {
      var raw := DialTCP(leg);
      if raw.Error? {
        return raw;
      }
      var failure := Handshake(raw.id, shake);
      if failure.Some? {
        return Error(Failure(failure.value));
      }
      return raw;
    }

    /** What `get` returns to this caller; the dial may have been another caller's. */
    method PoolGet(s: Sharing) returns (r: Outcome)
      requires Valid() && (s.DialFailed? ==> HopEnd(BastionHop, s.tcp, s.shake).Failed?)
      modifies `next, `shared, `secured
      ensures Valid() && next >= old(next) && old(secured) <= secured
      ensures r.Conn? <==> s.Shared?
      ensures r.Conn? ==> r.id in secured && r.id in shared && shared == old(shared) + {r.id}
      ensures r.Error? ==> shared == old(shared)
      ensures s.WaitEnded? ==> r == Error(ContextError)
      ensures s.DialFailed? ==> r == Error(Failure(HopEnd(BastionHop, s.tcp, s.shake).cat))
    {
      match s {
        case WaitEnded(_) =>
          return Error(ContextError);
        case DialFailed(tcp, shake) =>
          return Error(Failure(if tcp.Ended? then DialCategory(tcp.why) else ShakeCategory(shake)));
        case Shared =>
          shared := shared + {next};
          secured := secured + {next};
          r := Conn(next);
          next := next + 1;
      }
    }

    /** The bastion connection of an attempt. */
    method DialBastion(pooled: bool, k: Course) returns (r: Outcome)
      requires Valid() && Classified(k)
      modifies `next, `open, `shared, `secured
      ensures Valid() && next >= old(next) && old(secured) <= secured
      ensures r.Conn? <==> BastionEnd(pooled, k).Reached?
      ensures r.Conn? ==> r.id in secured && r.id in if pooled then shared else open
      ensures r.Conn? && !pooled ==> r.id >= old(next)
      ensures r.Error? ==> CategoryOf(r.err) == BastionEnd(pooled, k).cat
      ensures open == if r.Conn? && !pooled then old(open) + {r.id} else old(open)
      ensures shared == if r.Conn? && pooled then old(shared) + {r.id} else old(shared)
    {
      if pooled {
        r := PoolGet(k.sharing);
      } else {
        r := DialHop(k.hop, k.hopShake);
      }
    }

    /** Through a bastion connection: the channel to the target, or what has to be cleaned up without one. */
    method DialThrough(via: nat, owned: bool, t: Tunnel) returns (r: Outcome)
      requires Valid() && (if owned then via in open else via in shared)
      modifies `next, `open, `broken
      ensures Valid() && next >= old(next)
      ensures t.Through? ==> r.Conn? && r.id >= old(next) && open == old(open) + {r.id}
      ensures !t.Through? ==>
                r == Error(Failure(TunnelEnd(t).cat)) && open == if owned then old(open) - {via} else old(open)
      ensures broken == if t.Lost? && !owned then old(broken) + {via} else old(broken)
    {
      match t {
        case Through =>
          open := open + {next};
          r := Conn(next);
          next := next + 1;
        case Refused(cat) =>
          if owned {
            Close(via);
          }
          return Error(Failure(cat));
        case Lost(why) =>
          if owned {
            Close(via);
          } else {
            broken := broken + {via};
          }
          return Error(Failure(DialCategory(why)));
      }
    }

    /**
     * One attempt, for every course it can take. A client owns its connection, and its bastion's unless that is
     * shared, and each of them went through its handshake. Without a client, nothing this attempt opened is left
     * open, and the category is that of the leg that failed. Only a shared bastion connection that failed, and did
     * not merely refuse the tunnel, is reported as broken.
     */
    method Dial(bastion: bool, pooled: bool, k: Course)
      returns (c: Option<Client>, cat: Category, ghost via: Option<nat>)
      requires Valid() && Classified(k)
      modifies this
      ensures Valid()
      ensures c.Some? <==> EndOf(bastion, pooled, k).Reached?
      ensures c.None? ==> cat == EndOf(bastion, pooled, k).cat && open == old(open)
      ensures c.Some? ==>
                && open == old(open) + c.value.Connections() && c.value.Connections() !! old(open)
                && c.value.bastion == (if bastion && !pooled then via else None)
                && c.value.Connections() <= secured
      ensures via.Some? <==> bastion && BastionEnd(pooled, k).Reached?
      ensures via.Some? ==> via.value in secured
      ensures via.Some? && pooled ==> via.value in shared
      ensures broken == if via.Some? && pooled && k.tunnel.Lost? then old(broken) + {via.value} else old(broken)
    {
      via, cat := None, InternalError;
      var owned: Option<nat> := None;
      var conn: nat;
      if bastion {
        var bc := DialBastion(pooled, k);
        if bc.Error? {
          return None, CategoryOf(bc.err), via;
        }
        via := Some(bc.id);
        owned := if pooled then None else Some(bc.id);
        var t := DialThrough(bc.id, !pooled, k.tunnel);
        if t.Error? {
          return None, CategoryOf(t.err), via;
        }
        conn := t.id;
      } else {
        var direct := DialTCP(k.tcp);
        if direct.Error? {
          return None, CategoryOf(direct.err), via;
        }
        conn := direct.id;
      }
      var failed := Handshake(conn, k.shake);
      if failed.Some? {
        if owned.Some? {
          Close(owned.value);
        }
        return None, failed.value, via;
      }
      return Some(Client(conn, owned)), cat, via;
    }
  }
}
