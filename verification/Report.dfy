/** The report of a run: one result per host and the counts over them. */
module Report {
  import opened Counting

  /** `Unset` is the zero value of a slot that no host has filled yet. */
  datatype Status = Unset | Success | Failed | Skipped | Cancelled

  datatype HostResult = HostResult(host: string, status: Status)

  const BLANK := HostResult("", Unset)

  datatype Summary = Summary(total: nat, success: nat, failed: nat, cancelled: nat, skipped: nat) {
    predicate OK() {
      success == total
    }
  }

  function Has(st: Status): HostResult -> nat {
    (h: HostResult) => if h.status == st then 1 else 0
  }

  /** Whatever is neither a success, a cancellation nor a skip counts as a failure. */
  function Tally(hosts: seq<HostResult>): Summary {
    Summary(|hosts|, Total(hosts, Has(Success)), Total(hosts, Has(Failed)) + Total(hosts, Has(Unset)),
            Total(hosts, Has(Cancelled)), Total(hosts, Has(Skipped)))
  }

  method Finish(hosts: seq<HostResult>) returns (s: Summary)
    ensures s == Tally(hosts)
  {
    s := Summary(|hosts|, 0, 0, 0, 0);
    for i := 0 to |hosts|
      invariant s == Tally(hosts[..i]).(total := |hosts|)
    {
      assert hosts[..i + 1] == hosts[..i] + [hosts[i]];
      TallyAppend(hosts[..i], hosts[i]);
      match hosts[i].status {
        case Success => s := s.(success := s.success + 1);
        case Cancelled => s := s.(cancelled := s.cancelled + 1);
        case Skipped => s := s.(skipped := s.skipped + 1);
        case _ => s := s.(failed := s.failed + 1);
      }
    }
    assert hosts[..|hosts|] == hosts;
  }

  lemma TallyAppend(hosts: seq<HostResult>, h: HostResult)
    ensures forall st: Status :: Total(hosts + [h], Has(st)) == Total(hosts, Has(st)) + Has(st)(h)
  {
    forall st: Status
      ensures Total(hosts + [h], Has(st)) == Total(hosts, Has(st)) + Has(st)(h)
    {
      TotalConcat(hosts, [h], Has(st));
      assert [h][1..] == [];
    }
  }

  /** Every host is in exactly one count. */
  lemma {:induction false} CountsAddUp(hosts: seq<HostResult>)
    ensures var s := Tally(hosts); s.success + s.failed + s.cancelled + s.skipped == s.total
  {
    if hosts != [] {
      CountsAddUp(hosts[1..]);
    }
  }

  /** The exit code of a run hangs on this: one host that did not succeed is enough to fail it. */
  lemma {:induction false} OkIffAllSucceeded(hosts: seq<HostResult>)
    ensures Tally(hosts).OK() <==> forall i :: 0 <= i < |hosts| ==> hosts[i].status == Success
  {
    if hosts != [] {
      OkIffAllSucceeded(hosts[1..]);
      TotalCapped(hosts[1..], Has(Success));
      assert forall i :: 0 <= i < |hosts[1..]| ==> hosts[1..][i] == hosts[i + 1];
    }
  }
}
