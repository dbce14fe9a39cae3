/** The bytewise order of strings, and sorting by it. */
module Ordering {

  /** Go's `<` on strings. */
  predicate Less(a: string, b: string) {
    if b == "" then false
    else if a == "" then true
    else a[0] < b[0] || (a[0] == b[0] && Less(a[1..], b[1..]))
  }

  lemma {:induction false} LessTrans(a: string, b: string, c: string)
    requires Less(a, b) && Less(b, c)
    ensures Less(a, c)
  {
    if a != "" && a[0] == b[0] == c[0] {
      LessTrans(a[1..], b[1..], c[1..]);
    }
  }

  lemma {:induction false} LessTotal(a: string, b: string)
    ensures Less(a, b) || a == b || Less(b, a)
  {
    if a != "" && b != "" && a[0] == b[0] {
      LessTotal(a[1..], b[1..]);
      assert a == [a[0]] + a[1..] && b == [b[0]] + b[1..];
    }
  }

  lemma {:induction false} LessIrreflexive(a: string)
    ensures !Less(a, a)
  {
    if a != "" {
      LessIrreflexive(a[1..]);
    }
  }

  predicate Ascending(xs: seq<string>) {
    forall i, j :: 0 <= i < j < |xs| ==> Less(xs[i], xs[j])
  }

  /** A strictly ascending list is determined by its elements. */
  lemma {:induction false} AscendingUnique(xs: seq<string>, ys: seq<string>)
    requires Ascending(xs) && Ascending(ys)
    requires forall x :: x in xs <==> x in ys
    ensures xs == ys
  {
    assert |xs| > 0 ==> xs[0] in xs;
    assert |ys| > 0 ==> ys[0] in ys;
    if xs != [] {
      HeadsEqual(xs, ys);
      forall x
        ensures x in xs[1..] <==> x in ys[1..]
      {
        TailMember(xs, x);
        TailMember(ys, x);
      }
      AscendingUnique(xs[1..], ys[1..]);
    }
  }

  lemma HeadsEqual(xs: seq<string>, ys: seq<string>)
    requires Ascending(xs) && Ascending(ys) && xs != [] && ys != []
    requires xs[0] in ys && ys[0] in xs
    ensures xs[0] == ys[0]
  {
    if xs[0] != ys[0] {
      assert Less(ys[0], xs[0]) && Less(xs[0], ys[0]);
      LessTrans(xs[0], ys[0], xs[0]);
      LessIrreflexive(xs[0]);
    }
  }

  lemma TailMember(xs: seq<string>, x: string)
    requires Ascending(xs) && xs != []
    ensures x in xs[1..] <==> x in xs && x != xs[0]
  {
    LessIrreflexive(xs[0]);
    assert xs == [xs[0]] + xs[1..];
    assert forall j :: 0 <= j < |xs[1..]| ==> Less(xs[0], xs[1..][j]);
  }

  /** Where `x` belongs among ascending names. */
  function Position(xs: seq<string>, x: string): (p: nat)
    requires Ascending(xs)
    ensures p <= |xs|
    ensures forall i :: 0 <= i < p ==> Less(xs[i], x)
    ensures p < |xs| ==> !Less(xs[p], x)
  {
    if xs == [] || !Less(xs[0], x) then 0
    else
      var p := 1 + Position(xs[1..], x);
      assert forall i :: 0 < i < p ==> xs[i] == xs[1..][i - 1];
      p
  }

  function Insert(xs: seq<string>, x: string): (ys: seq<string>)
    requires Ascending(xs) && x !in xs
    ensures Ascending(ys)
    ensures forall y :: y in ys <==> y in xs || y == x
  {
    var p := Position(xs, x);
    var ys := xs[..p] + [x] + xs[p..];
    InsertAscends(xs, x, p);
    assert xs == xs[..p] + xs[p..];
    ys
  }

  lemma InsertAscends(xs: seq<string>, x: string, p: nat)
    requires Ascending(xs) && x !in xs && p <= |xs|
    requires forall i :: 0 <= i < p ==> Less(xs[i], x)
    requires p < |xs| ==> !Less(xs[p], x)
    ensures Ascending(xs[..p] + [x] + xs[p..])
  {
    if p < |xs| {
      LessTotal(xs[p], x);
    }
    forall i | p <= i < |xs|
      ensures Less(x, xs[i])
    {
      if i > p {
        LessTrans(x, xs[p], xs[i]);
      }
    }
  }
}
