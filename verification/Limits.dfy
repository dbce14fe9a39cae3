/** The failure limit of a job, `max_failures`: a number of hosts or a share of them. */
module Limits {
  import opened Extremes
  import opened Options

  /** A number of hosts or a share of them, once its digits have been read. */
  datatype Limit = Hosts(n: real) | Percent(n: real)

  function Ceil(x: real): (c: int)
    ensures x <= c as real < x + 1.0
  {
    -(-x).Floor
  }

  /** The conversion of a whole double to a 64-bit integer on amd64: what does not fit becomes the least one. */
  function ToInt(n: int): int {
    if -TWO_63 <= n < TWO_63 then n else -TWO_63
  }

  /** `ParseMaxFailures`, in exact arithmetic but for the conversion. */
  function Allowed(v: Limit, total: nat): Option<int> {
    if v.n <= 0.0 || (v.Percent? && v.n > 100.0) then None
    else if v.Percent? then Some(Hundredth(Share(v.n, total)))
    else if v.n != v.n.Floor as real then None
    else Some(ToInt(v.n.Floor))
  }

  /** In hundredths. */
  function Share(p: real, total: nat): real {
    p * total as real
  }

  /** That many hundredths of a host, rounded up, and at least one host. */
  function Hundredth(share: real): nat {
    AtLeastOne(Ceil(share / 100.0))
  }

  function AtLeastOne(k: int): nat {
    if k > 1 then k else 1
  }

  // A number of hosts.

  /** A whole number is taken for itself, and for a limit at all, exactly below 2^63. */
  lemma HostsLimitIff(n: nat, total: nat)
    requires n >= 1
    ensures Allowed(Hosts(n as real), total).Some?
    ensures Allowed(Hosts(n as real), total).value == n <==> n < TWO_63
    ensures Allowed(Hosts(n as real), total).value >= 1 <==> n < TWO_63
  {
    assert (n as real).Floor == n;
  }

  /** "1e19" is accepted, and is negative from then on. */
  lemma HugeLimitTurnsNegative(total: nat)
    ensures Allowed(Hosts(10000000000000000000.0), total) == Some(-TWO_63)
  {
    assert 10000000000000000000.0.Floor == 10000000000000000000;
  }

  // A share of the hosts.

  lemma HundredthIsLeast(share: real, k: nat)
    ensures 100.0 * Hundredth(share) as real >= share
    ensures k >= 1 && 100.0 * k as real >= share ==> Hundredth(share) <= k
    ensures Hundredth(share) > 1 ==> 100.0 * (Hundredth(share) - 1) as real < share
  {
    var x := share / 100.0;
    assert 100.0 * x == share;
    var c := Ceil(x);
    if k as real >= x {
      assert c <= k;
    }
  }

  lemma ShareAtMostAll(p: real, total: nat)
    requires p <= 100.0
    ensures Share(p, total) <= 100.0 * total as real
  {
    assert (100.0 - p) * total as real >= 0.0;
  }

  /** A percentage allows the least positive number of hosts that is at least that share of all: never more than
      there are. */
  lemma PercentIsLeast(p: real, total: nat, k: nat)
    requires Allowed(Percent(p), total).Some?
    ensures var m := Allowed(Percent(p), total).value;
            && m >= 1 && 100.0 * m as real >= Share(p, total)
            && (k >= 1 && 100.0 * k as real >= Share(p, total) ==> m <= k)
            && (total >= 1 ==> m <= total)
            && (m > 1 ==> 100.0 * (m - 1) as real < Share(p, total))
  {
    HundredthIsLeast(Share(p, total), k);
    ShareAtMostAll(p, total);
    HundredthIsLeast(Share(p, total), total);
  }

  // Floating point.

  const EXACT := 9007199254740992.0
  const TINY := 1.0 / 10000000000000000.0

  /** Rounding to the nearest double, as far as it is used: whole numbers up to 2^53 are kept, and any number from
      10^-16 to 2^53 is off by at most the unit roundoff of 2^-53 of itself. */
  ghost predicate Rounding(fl: real -> real) {
    && (forall x: real :: 0.0 <= x <= EXACT && x == x.Floor as real ==> fl(x) == x)
    && (forall x: real :: TINY <= x <= EXACT ==> Near(fl(x), x))
  }

  /** Off by at most one unit roundoff. */
  predicate Near(z: real, y: real) {
    y - y / 9007199254740992.0 <= z <= y + y / 9007199254740992.0
  }

  /** Off by at most four. */
  predicate Close(z: real, y: real) {
    y - y / 2251799813685248.0 <= z <= y + y / 2251799813685248.0
  }

  /** `ParseMaxFailures` of a percentage as it is computed: rounded as it is read, after the product, and after the
      quotient. */
  function Computed(fl: real -> real, p: real, total: nat): nat {
    AtLeastOne(Ceil(fl(fl(Share(fl(p), total)) / 100.0)))
  }

  lemma WholeKept(fl: real -> real, n: nat)
    requires Rounding(fl) && n as real <= EXACT
    ensures fl(n as real) == n as real
  {
    assert (n as real).Floor == n;
  }

  lemma Order(a: real, b: real, k: real)
    requires a <= b && k >= 0.0
    ensures a * k <= b * k
  {
  }

  lemma NearTimes(z: real, y: real, k: real)
    requires Near(z, y) && k >= 0.0
    ensures Near(z * k, y * k)
  {
    var e := y / 9007199254740992.0;
    Order(y - e, z, k);
    Order(z, y + e, k);
    assert e * k == (y * k) / 9007199254740992.0;
    assert (y - e) * k == y * k - e * k && (y + e) * k == y * k + e * k;
  }

  /** Where a quotient lies among the whole numbers. */
  lemma Parts(n: nat, m: nat, x: real)
    requires m > 0 && x * m as real == n as real
    ensures x * m as real == (n / m) as real * m as real + (n % m) as real
  {
    assert n == (n / m) * m + n % m;
    assert n as real == ((n / m) * m) as real + (n % m) as real;
    assert ((n / m) * m) as real == (n / m) as real * m as real;
  }

  /** A number close to n/m, by less than half of 1/m, rounds up as n/m does, unless that is whole. */
  lemma CloseCeil(n: nat, m: nat, x: real, y: real)
    requires m >= 2 && x * m as real == n as real
    requires -0.5 <= (y - x) * m as real <= 0.5
    ensures n % m != 0 ==> Ceil(y) == Ceil(x)
    ensures n % m == 0 ==> Ceil(x) <= Ceil(y) <= Ceil(x) + 1
  {
    var q, r, w := n / m, n % m, m as real;
    Parts(n, m, x);
    assert (x - q as real) * w == r as real;
    assert (y - q as real) * w == (y - x) * w + (x - q as real) * w;
    if r == 0 {
      Whole(x - q as real, w);
      Bound(y - q as real, w, 0.5);
      CeilAround(y, q);
    } else {
      Inside(x - q as real, w);
      Inside(y - q as real, w);
      CeilBetween(x, q);
      CeilBetween(y, q);
    }
  }

  lemma Whole(d: real, w: real)
    requires w > 0.0 && d * w == 0.0
    ensures d == 0.0
  {
  }

  lemma Bound(d: real, w: real, b: real)
    requires w >= 1.0 && b >= 0.0 && -b <= d * w <= b
    ensures -b <= d <= b
  {
    if d >= 0.0 {
      Order(1.0, w, d);
    } else {
      Order(1.0, w, -d);
      assert w * -d == -(d * w);
    }
  }

  lemma NotPositive(d: real, w: real)
    requires d <= 0.0 && w >= 0.0
    ensures d * w <= 0.0
  {
    Order(d, 0.0, w);
  }

  lemma Inside(d: real, w: real)
    requires w >= 2.0 && 0.5 <= d * w <= w - 0.5
    ensures 0.0 < d < 1.0
  {
    if d <= 0.0 {
      NotPositive(d, w);
    }
    if d >= 1.0 {
      Order(1.0, d, w);
    }
  }

  lemma CeilBetween(x: real, q: int)
    requires 0.0 < x - q as real < 1.0
    ensures Ceil(x) == q + 1
  {
  }

  lemma CeilAround(y: real, q: int)
    requires -0.5 <= y - q as real <= 0.5
    ensures q <= Ceil(y) <= q + 1
  {
  }

  /** A product that is one rounding off, rounded, divided by a hundred and rounded: four units are enough for all. */
  lemma ThreeRoundings(fl: real -> real, product: real, share: real)
    requires Rounding(fl) && Near(product, share) && 0.000000000001 <= share <= 1125899906842624.0
    ensures Close(fl(fl(product) / 100.0), share / 100.0)
  {
    assert TINY <= product <= EXACT;
    var rounded := fl(product);
    assert Near(rounded, product);
    assert TINY <= rounded / 100.0 <= EXACT;
    assert Near(fl(rounded / 100.0), rounded / 100.0);
  }

  /** The exact share, in units of a hundredth of the last digit. */
  lemma ExactShare(a: nat, scale: nat, total: nat, p: real, n: nat, m: nat)
    requires scale > 0 && p * scale as real == a as real && n == a * total && m == 100 * scale
    ensures (Share(p, total) / 100.0) * m as real == n as real
  {
    var k, w := total as real, scale as real;
    assert m as real == 100.0 * w;
    assert (p * k / 100.0) * (100.0 * w) == (p * w) * k;
    assert n as real == a as real * k;
  }

  lemma SmallEnough(x: real, y: real, n: nat, m: nat)
    requires m > 0 && x * m as real == n as real && n <= 1125899906842624 && Close(y, x)
    ensures -0.5 <= (y - x) * m as real <= 0.5
  {
    var w, e := m as real, x / 2251799813685248.0;
    Order(y - x, e, w);
    Order(-e, y - x, w);
    assert e * w == (x * w) / 2251799813685248.0;
    assert -e * w == -(e * w);
  }

  /** For every percentage a/scale with at most twelve decimals, up to 2^50 of `a` times hosts: the computed limit is
      the exact one if that share of the hosts, n/m, is no whole number, and otherwise at most one more. */
  lemma DecimalPercent(fl: real -> real, a: nat, scale: nat, total: nat, p: real, n: nat, m: nat)
    requires Rounding(fl) && 1 <= scale <= 1000000000000 && p * scale as real == a as real
    requires 0.000000000001 <= p <= 100.0 && total >= 1
    requires n == a * total && m == 100 * scale && n <= 1125899906842624
    ensures Allowed(Percent(p), total).Some?
    ensures var k := Allowed(Percent(p), total).value;
            && k <= Computed(fl, p, total) <= k + 1
            && (n % m != 0 ==> Computed(fl, p, total) == k)
  {
    ExactShare(a, scale, total, p, n, m);
    ShareBounded(p, total, n, m);
    ReadAndMultiplied(fl, p, total);
    RoundedShare(fl, Share(fl(p), total), Share(p, total), n, m);
  }

  lemma ReadAndMultiplied(fl: real -> real, p: real, total: nat)
    requires Rounding(fl) && 0.000000000001 <= p <= 100.0
    ensures Near(Share(fl(p), total), Share(p, total))
  {
    assert TINY <= p <= EXACT;
    NearTimes(fl(p), p, total as real);
  }

  /** The roundings after the product, for a share of n/m hundredths. */
  lemma RoundedShare(fl: real -> real, product: real, share: real, n: nat, m: nat)
    requires Rounding(fl) && Near(product, share) && 0.000000000001 <= share <= 1125899906842624.0
    requires m >= 2 && (share / 100.0) * m as real == n as real && n <= 1125899906842624
    ensures var k := AtLeastOne(Ceil(fl(fl(product) / 100.0)));
            && Hundredth(share) <= k <= Hundredth(share) + 1
            && (n % m != 0 ==> k == Hundredth(share))
  {
    ThreeRoundings(fl, product, share);
    CloseLimit(n, m, share / 100.0, fl(fl(product) / 100.0));
  }

  lemma CloseLimit(n: nat, m: nat, x: real, y: real)
    requires m >= 2 && x * m as real == n as real && n <= 1125899906842624 && Close(y, x)
    ensures AtLeastOne(Ceil(x)) <= AtLeastOne(Ceil(y)) <= AtLeastOne(Ceil(x)) + 1
    ensures n % m != 0 ==> AtLeastOne(Ceil(y)) == AtLeastOne(Ceil(x))
  {
    SmallEnough(x, y, n, m);
    CloseCeil(n, m, x, y);
  }

  lemma ShareBounded(p: real, total: nat, n: nat, m: nat)
    requires m >= 100 && (Share(p, total) / 100.0) * m as real == n as real && p >= 0.0 && total >= 1
    ensures p <= Share(p, total) <= n as real
  {
    var k := total as real;
    Order(1.0, k, p);
    assert Share(p, total) == p * k >= p;
    TimesAtLeast(Share(p, total), n, m);
  }

  lemma TimesAtLeast(share: real, n: nat, m: nat)
    requires m >= 100 && (share / 100.0) * m as real == n as real && share >= 0.0
    ensures share <= n as real
  {
    Order(100.0, m as real, share / 100.0);
  }

  /** For a whole-number percentage the computed limit is the exact one, up to 2^50 of percent times hosts. */
  lemma WholePercentIsExact(fl: real -> real, p: nat, total: nat, n: nat)
    requires Rounding(fl) && 1 <= p <= 100 && total >= 1 && n == p * total && n <= 1125899906842624
    ensures Allowed(Percent(p as real), total) == Some(Computed(fl, p as real, total))
  {
    DecimalPercent(fl, p, 1, total, p as real, n, 100);
    if n % 100 == 0 {
      WholeShare(fl, p, total, n);
    }
  }

  lemma WholeShare(fl: real -> real, p: nat, total: nat, n: nat)
    requires Rounding(fl) && n == p * total && p <= 100 && n <= 1125899906842624 && n % 100 == 0
    ensures Computed(fl, p as real, total) == Hundredth(Share(p as real, total))
  {
    ShareWhole(p, total, n);
    WholeKept(fl, p);
    WholeQuotient(fl, n);
  }

  lemma ShareWhole(p: nat, total: nat, n: nat)
    requires n == p * total
    ensures Share(p as real, total) == n as real
  {
  }

  lemma WholeQuotient(fl: real -> real, n: nat)
    requires Rounding(fl) && n <= 1125899906842624 && n % 100 == 0
    ensures fl(fl(n as real) / 100.0) == n as real / 100.0
  {
    WholeKept(fl, n);
    WholeKept(fl, n / 100);
    assert n == 100 * (n / 100);
    assert n as real / 100.0 == (n / 100) as real;
  }

  // The doubles that 1.1% of 3000 hosts goes through.
  const READ := 4953959590107546.0 / 4503599627370496.0
  const PRODUCT := 3300.0 + 1.0 / 2199023255552.0
  const QUOTIENT := 33.0 + 1.0 / 140737488355328.0

  function Distance(x: real, y: real): real {
    if x < y then y - x else x - y
  }

  /** A share that is whole can come to one host more: 34 of 3000 for 1.1%, where it is 33. The three values it is
      rounded to are the nearest there are, at spacings of 2^-52, 2^-41 and 2^-47. */
  lemma FractionsRoundUp(fl: real -> real)
    requires fl(1.1) == READ && fl(READ * 3000.0) == PRODUCT && fl(PRODUCT / 100.0) == QUOTIENT
    ensures Allowed(Percent(1.1), 3000) == Some(33) && Computed(fl, 1.1, 3000) == 34
    ensures Distance(1.1, READ) < 0.5 / 4503599627370496.0
    ensures Distance(READ * 3000.0, PRODUCT) < 0.5 / 2199023255552.0
    ensures Distance(PRODUCT / 100.0, QUOTIENT) < 0.5 / 140737488355328.0
  {
    assert Share(1.1, 3000) / 100.0 == 33.0;
    CeilBetween(QUOTIENT, 33);
  }

  /** With more digits than a double holds, a host can be lost as well: 1 of 100 where the share is above 1. */
  lemma FractionsRoundDown(fl: real -> real)
    requires Rounding(fl) && fl(1.00000000000000000001) == 1.0
    ensures Allowed(Percent(1.00000000000000000001), 100) == Some(2)
    ensures Computed(fl, 1.00000000000000000001, 100) == 1
  {
    WholeKept(fl, 100);
    WholeKept(fl, 1);
    CeilBetween(Share(1.00000000000000000001, 100) / 100.0, 1);
    assert Ceil(1.0) == 1;
  }
}
