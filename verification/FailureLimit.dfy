/** What the failure limit of a job comes to in a run. */
module FailureLimit {
  import opened Options
  import opened Counting
  import opened Extremes
  import opened Limits
  import opened Report
  import opened Scheduler
  import opened SchedulerSafety
  import opened SchedulerTheorems

  lemma {:induction false} TotalBelow<T>(xs: seq<T>, i: nat, w: T -> nat)
    requires i < |xs| && w(xs[i]) == 0 && forall k :: 0 <= k < |xs| ==> w(xs[k]) <= 1
    ensures Total(xs, w) < |xs|
  {
    if i > 0 {
      TotalBelow(xs[1..], i - 1, w);
    } else {
      TotalCapped(xs[1..], w);
    }
  }

  /** A limit of at least the number of hosts never skips one. */
  lemma NoSkipBelowTheLimit(cfg: Config, s: State, i: nat)
    requires Reachable(cfg, s) && i < |s.phases| && cfg.maxFailures >= |cfg.hosts|
    ensures !IsSkipped(s.phases[i])
  {
    ReachableInv(cfg, s);
    if IsSkipped(s.phases[i]) {
      TotalBelow(s.phases, i, FailureCounted);
    }
  }

  /** Nor does a negative one. */
  lemma NoSkipBelowZero(cfg: Config, s: State, i: nat)
    requires Reachable(cfg, s) && i < |s.phases| && cfg.maxFailures <= 0
    ensures !IsSkipped(s.phases[i])
  {
    ReachableInv(cfg, s);
  }

  /** A number of hosts that is not below that of the run never skips one, also where the conversion fails it: a
      limit of 2^63 or more turns negative, and that never stops either. */
  lemma HighLimitNeverSkips(cfg: Config, s: State, n: nat, i: nat)
    requires Reachable(cfg, s) && i < |s.phases| && n >= 1 && n >= |cfg.hosts|
    requires Allowed(Hosts(n as real), |cfg.hosts|) == Some(cfg.maxFailures)
    ensures !IsSkipped(s.phases[i])
  {
    HostsLimitIff(n, |cfg.hosts|);
    if n < TWO_63 {
      NoSkipBelowTheLimit(cfg, s, i);
    } else {
      NoSkipBelowZero(cfg, s, i);
    }
  }

  /** "100%" means never to stop: the run has no skipped host, and however many fail. */
  lemma WholeShareNeverSkips(cfg: Config, s: State, i: nat)
    requires Reachable(cfg, s) && s.pc == Returned && i < |s.results|
    requires Allowed(Percent(100.0), |cfg.hosts|) == Some(cfg.maxFailures)
    ensures s.results[i].status != Skipped
  {
    ReportComplete(cfg, s);
    ReachableInv(cfg, s);
    NoSkipBelowTheLimit(cfg, s, i);
  }

  /** How a limit chosen as the least for some share bounds the failures of a run. */
  lemma FailuresWithin(cfg: Config, s: State, share: real)
    requires Reachable(cfg, s) && cfg.maxFailures >= 1 && share > 0.0
    requires cfg.maxFailures > 1 ==> 100.0 * (cfg.maxFailures - 1) as real < share
    ensures BelowShare(Total(s.results, Has(Failed)) - cfg.Slots(), share)
  {
    FailuresBounded(cfg, s);
  }

  predicate BelowShare(hosts: int, share: real) {
    100.0 * hosts as real < share
  }

  /** With a share of p percent, the failed hosts beyond the ones that run at once stay below that share. */
  lemma FailuresWithinShare(cfg: Config, s: State, p: real)
    requires Reachable(cfg, s) && |cfg.hosts| >= 1
    requires Allowed(Percent(p), |cfg.hosts|) == Some(cfg.maxFailures)
    ensures BelowShare(Total(s.results, Has(Failed)) - cfg.Slots(), Share(p, |cfg.hosts|))
  {
    PercentIsLeast(p, |cfg.hosts|, 1);
    FailuresWithin(cfg, s, Share(p, |cfg.hosts|));
  }

  /** With the limit as it is computed: the same, but for one host if that share is a whole number of them. */
  lemma FailuresWithinComputedShare(
    cfg: Config, s: State, fl: real -> real, a: nat, scale: nat, p: real, n: nat, m: nat)
    requires Reachable(cfg, s) && |cfg.hosts| >= 1 && cfg.maxFailures == Computed(fl, p, |cfg.hosts|)
    requires Rounding(fl) && 1 <= scale <= 1000000000000 && p * scale as real == a as real
    requires 0.000000000001 <= p <= 100.0
    requires n == a * |cfg.hosts| && m == 100 * scale && n <= 1125899906842624
    ensures BelowShare(Total(s.results, Has(Failed)) - cfg.Slots() - (if n % m == 0 then 1 else 0), Share(p, |cfg.hosts|))
  {
    DecimalPercent(fl, a, scale, |cfg.hosts|, p, n, m);
    PercentIsLeast(p, |cfg.hosts|, 1);
    FailuresBounded(cfg, s);
    SharePositive(p, |cfg.hosts|);
  }

  lemma SharePositive(p: real, total: nat)
    requires p > 0.0 && total >= 1
    ensures Share(p, total) > 0.0
  {
    Order(1.0, total as real, p);
  }
}
