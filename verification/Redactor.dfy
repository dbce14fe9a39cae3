/** The list of secrets, and the masking of every one of them in a text. */
module Redactor {
  import opened Text

  const MARKER := "[REDACTED]"
  const MIN_SECRET_LEN := 3

  // strings.ReplaceAll

  /** The first occurrence, or |s| if there is none. */
  function Index(s: string, t: string): (p: nat)
    ensures p <= |s|
    ensures forall q :: 0 <= q < p ==> !OccursAt(s, t, q)
    ensures p < |s| ==> OccursAt(s, t, p)
    ensures t != "" && !Contains(s, t) ==> p == |s|
  {
    IndexFrom(s, t, 0)
  }

  function IndexFrom(s: string, t: string, from: nat): (p: nat)
    requires from <= |s|
    ensures from <= p <= |s|
    ensures forall q :: from <= q < p ==> !OccursAt(s, t, q)
    ensures p < |s| ==> OccursAt(s, t, p)
    decreases |s| - from
  {
    if from == |s| || OccursAt(s, t, from) then from else IndexFrom(s, t, from + 1)
  }

  /** Every match found from the left, none overlapping another, becomes the marker. */
  function ReplaceAll(s: string, t: string): string
    requires t != ""
  {
    var p := Index(s, t);
    if p == |s| then s else s[..p] + MARKER + ReplaceAll(s[p + |t|..], t)
  }

  /** `Redactor.String`: one pass per secret, in the order of the list. */
  function Redact(secrets: seq<string>, s: string): string
    requires "" !in secrets
  {
    if secrets == [] then s else ReplaceAll(Redact(secrets[..|secrets| - 1], s), secrets[|secrets| - 1])
  }

  /** The pass for one secret, after those for the secrets before it. */
  lemma OnePass(secrets: seq<string>, i: nat, s: string)
    requires "" !in secrets && i < |secrets|
    ensures Redact(secrets[..i + 1], s) == ReplaceAll(Redact(secrets[..i], s), secrets[i])
  {
    assert secrets[..i + 1][..i] == secrets[..i];
  }

  // The list.

  predicate LongestFirst(secrets: seq<string>) {
    forall i, j :: 0 <= i < j < |secrets| ==> |secrets[i]| >= |secrets[j]|
  }

  predicate Distinct(secrets: seq<string>) {
    forall i, j :: 0 <= i < j < |secrets| ==> secrets[i] != secrets[j]
  }

  predicate Listed(secrets: seq<string>) {
    && LongestFirst(secrets)
    && Distinct(secrets)
    && forall t :: t in secrets ==> |t| >= MIN_SECRET_LEN
  }

  lemma NoneIsEmpty(secrets: seq<string>)
    requires Listed(secrets)
    ensures "" !in secrets
  {
  }

  class Redactor {
    var secrets: seq<string>

    constructor ()
      ensures secrets == []
    {
      secrets := [];
    }

    /** Registers secrets; values too short to mask, and values already known, are ignored. */
    method Add(more: seq<string>)
      requires Listed(secrets)
      modifies this
      ensures Listed(secrets)
      ensures forall t :: t in secrets <==> t in old(secrets) || (t in more && |t| >= MIN_SECRET_LEN)
    {
      for i := 0 to |more|
        invariant Distinct(secrets) && forall t :: t in secrets ==> |t| >= MIN_SECRET_LEN
        invariant forall t :: t in secrets <==> t in old(secrets) || (t in more[..i] && |t| >= MIN_SECRET_LEN)
      {
        assert more[..i + 1] == more[..i] + [more[i]];
        if |more[i]| >= MIN_SECRET_LEN && more[i] !in secrets {
          secrets := secrets + [more[i]];
        }
      }
      assert more[..|more|] == more;
      secrets := SortByLength(secrets);
    }

    method String(s: string) returns (r: string)
      requires Listed(secrets)
      ensures "" !in secrets && r == Redact(secrets, s)
    {
      r := s;
      NoneIsEmpty(secrets);
      for i := 0 to |secrets|
        invariant r == Redact(secrets[..i], s)
      {
        OnePass(secrets, i, s);
        r := ReplaceAll(r, secrets[i]);
      }
      assert secrets[..|secrets|] == secrets;
    }
  }

  /** A permutation with the longest first; the order of equally long ones is not promised. */
  method SortByLength(xs: seq<string>) returns (r: seq<string>)
    requires Distinct(xs)
    ensures LongestFirst(r) && Distinct(r)
    ensures forall t :: t in r <==> t in xs
  {
    r := [];
    for i := 0 to |xs|
      invariant LongestFirst(r) && Distinct(r)
      invariant forall t :: t in r <==> t in xs[..i]
    {
      var j := 0;
      while j < |r| && |r[j]| >= |xs[i]|
        invariant 0 <= j <= |r|
        invariant forall k :: 0 <= k < j ==> |r[k]| >= |xs[i]|
      {
        j := j + 1;
      }
      assert xs[..i + 1] == xs[..i] + [xs[i]];
      InsertedInOrder(r, j, xs[i]);
      r := Inserted(r, j, xs[i]);
    }
    assert xs[..|xs|] == xs;
  }

  function Inserted(r: seq<string>, j: nat, x: string): (t: seq<string>)
    requires j <= |r|
    ensures forall y :: y in t <==> y in r || y == x
  {
    var t := r[..j] + [x] + r[j..];
    assert r == r[..j] + r[j..];
    t
  }

  lemma InsertedInOrder(r: seq<string>, j: nat, x: string)
    requires j <= |r| && LongestFirst(r) && Distinct(r) && x !in r
    requires forall k :: 0 <= k < j ==> |r[k]| >= |x|
    requires j < |r| ==> |r[j]| < |x|
    ensures LongestFirst(Inserted(r, j, x)) && Distinct(Inserted(r, j, x))
  {
    var t := Inserted(r, j, x);
    assert forall k :: 0 <= k < |t| ==> t[k] == if k < j then r[k] else if k == j then x else r[k - 1];
  }

  // Masking.

  /** `t` can neither lie across an edge of a marker, nor within one, nor around one. */
  predicate ClearOfMarker(t: string) {
    && t != ""
    && !Contains(MARKER, t)
    && !Contains(t, MARKER)
    && (forall n :: 0 < n < |MARKER| && n <= |t| ==> MARKER[|MARKER| - n..] != t[..n])
    && (forall n :: 0 < n < |MARKER| && n <= |t| ==> MARKER[..n] != t[|t| - n..])
  }

  /** Markers keep stretches apart: what neither stretch contains, the joined text does not contain. */
  lemma MarkerSeparates(x: string, y: string, t: string)
    requires ClearOfMarker(t) && !Contains(x, t) && !Contains(y, t)
    ensures !Contains(x + MARKER + y, t)
  {
    var s := x + MARKER + y;
    forall i | 0 <= i <= |s| - |t|
      ensures !OccursAt(s, t, i)
    {
      NoOccurrence(x, y, t, i);
    }
  }

  lemma NoOccurrence(x: string, y: string, t: string, i: nat)
    requires ClearOfMarker(t) && !Contains(x, t) && !Contains(y, t) && i + |t| <= |x| + |MARKER| + |y|
    ensures !OccursAt(x + MARKER + y, t, i)
  {
    var s, m, e := x + MARKER + y, |x| + |MARKER|, i + |t|;
    if e <= |x| {
      OccursInPart(s, t, 0, |x|, i);
      assert s[0..|x|] == x && !OccursAt(x, t, i);
    } else if i >= m {
      OccursInPart(s, t, m, |s|, i);
      assert s[m..|s|] == y && !OccursAt(y, t, i - m);
    } else if i >= |x| && e <= m {
      OccursInPart(s, t, |x|, m, i);
      assert s[|x|..m] == MARKER && !OccursAt(MARKER, t, i - |x|);
    } else {
      NoOverlap(x, y, t, i);
    }
  }

  /** The occurrence would reach over an edge of the marker. */
  lemma NoOverlap(x: string, y: string, t: string, i: nat)
    requires ClearOfMarker(t) && i + |t| <= |x| + |MARKER| + |y|
    requires i < |x| + |MARKER| && i + |t| > |x| && (i < |x| || i + |t| > |x| + |MARKER|)
    ensures !OccursAt(x + MARKER + y, t, i)
  {
    var s, m, e := x + MARKER + y, |x| + |MARKER|, i + |t|;
    assert s[|x|..m] == MARKER;
    if i <= |x| && e >= m {
      SliceOfSlice(s, i, e, |x| - i, m - i);
      assert !OccursAt(t, MARKER, |x| - i);
    } else if i > |x| {
      SliceOfSlice(s, i, e, 0, m - i);
      SliceOfSlice(s, |x|, m, i - |x|, m - |x|);
      assert MARKER[i - |x|..] == s[i..m];
    } else {
      SliceOfSlice(s, i, e, |x| - i, e - i);
      SliceOfSlice(s, |x|, m, 0, e - |x|);
      assert MARKER[..e - |x|] == s[|x|..e];
    }
  }

  /** The stretch before the first match lacks the pattern. */
  lemma BeforeFirst(s: string, t: string)
    requires t != ""
    ensures !Contains(s[..Index(s, t)], t)
  {
    var p := Index(s, t);
    forall i | 0 <= i <= p - |t|
      ensures !OccursAt(s[..p], t, i)
    {
      OccursInPart(s, t, 0, p, i);
    }
  }

  /** A pass leaves no occurrence of its own secret, and none of a secret that was gone before. */
  lemma {:induction false} PassKeepsClean(s: string, t: string, u: string)
    requires t != "" && ClearOfMarker(u) && (u == t || !Contains(s, u))
    ensures !Contains(ReplaceAll(s, t), u)
    decreases |s|
  {
    var p := Index(s, t);
    BeforeFirst(s, t);
    if u != t {
      SubstringLacks(s, u, 0, p);
    }
    if p < |s| {
      var rest := s[p + |t|..];
      if u != t {
        SubstringLacks(s, u, p + |t|, |s|);
        assert s[p + |t|..|s|] == rest;
      }
      PassKeepsClean(rest, t, u);
      MarkerSeparates(s[..p], ReplaceAll(rest, t), u);
    } else {
      assert s[..p] == s;
    }
  }

  /** No secret survives, and no pass brings back one that an earlier pass removed. */
  lemma {:induction false} NoSecretSurvives(secrets: seq<string>, s: string, u: string)
    requires "" !in secrets && u in secrets && forall t :: t in secrets ==> ClearOfMarker(t)
    ensures !Contains(Redact(secrets, s), u)
  {
    var n := |secrets| - 1;
    assert secrets == secrets[..n] + [secrets[n]];
    if u in secrets[..n] {
      NoSecretSurvives(secrets[..n], s, u);
    }
    PassKeepsClean(Redact(secrets[..n], s), secrets[n], u);
  }

  lemma Untouched(s: string, t: string)
    requires t != "" && !Contains(s, t)
    ensures ReplaceAll(s, t) == s
  {
  }

  lemma {:induction false} NothingToMask(secrets: seq<string>, s: string)
    requires "" !in secrets && forall t :: t in secrets ==> !Contains(s, t)
    ensures Redact(secrets, s) == s
  {
    if secrets != [] {
      var n := |secrets| - 1;
      NothingToMask(secrets[..n], s);
      Untouched(s, secrets[n]);
    }
  }

  /** Masking twice is masking once. */
  lemma Idempotent(secrets: seq<string>, s: string)
    requires "" !in secrets && forall t :: t in secrets ==> ClearOfMarker(t)
    ensures Redact(secrets, Redact(secrets, s)) == Redact(secrets, s)
  {
    forall t | t in secrets
      ensures !Contains(Redact(secrets, s), t)
    {
      NoSecretSurvives(secrets, s, t);
    }
    NothingToMask(secrets, Redact(secrets, s));
  }

  // The order of the list.

  lemma ShorterLacks(s: string, t: string)
    requires |t| >= |s| && t != s
    ensures !Contains(s, t)
  {
    forall i | 0 <= i <= |s| - |t|
      ensures !OccursAt(s, t, i)
    {
      assert s[i..i + |t|] == s;
    }
  }

  /** A secret is still whole when its turn comes: no longer one can have taken a piece of it. */
  lemma {:induction false} WholeAtItsTurn(secrets: seq<string>, n: nat)
    requires Listed(secrets) && n < |secrets|
    ensures "" !in secrets && Redact(secrets[..n], secrets[n]) == secrets[n]
  {
    forall t | t in secrets[..n]
      ensures !Contains(secrets[n], t)
    {
      ShorterLacks(secrets[n], t);
    }
    NothingToMask(secrets[..n], secrets[n]);
  }

  lemma ReplaceWhole(t: string)
    requires t != ""
    ensures ReplaceAll(t, t) == MARKER
  {
    assert OccursAt(t, t, 0);
    assert Index(t, t) == 0;
    assert t[|t|..] == "";
    assert MARKER + "" == MARKER;
  }

  /** Passes that find nothing in a text leave it alone, wherever the text came from. */
  lemma {:induction false} RestLeaves(secrets: seq<string>, n: nat, s: string, r: string)
    requires "" !in secrets && n <= |secrets| && Redact(secrets[..n], s) == r
    requires forall k :: n <= k < |secrets| ==> !Contains(r, secrets[k])
    ensures Redact(secrets, s) == r
    decreases |secrets| - n
  {
    if n == |secrets| {
      assert secrets[..n] == secrets;
    } else {
      assert secrets[..n + 1][..n] == secrets[..n];
      Untouched(r, secrets[n]);
      RestLeaves(secrets, n + 1, s, r);
    }
  }

  lemma MarkerAfterItsPass(secrets: seq<string>, n: nat)
    requires Listed(secrets) && n < |secrets|
    ensures "" !in secrets && Redact(secrets[..n + 1], secrets[n]) == MARKER
  {
    WholeAtItsTurn(secrets, n);
    ReplaceWhole(secrets[n]);
    OnePass(secrets, n, secrets[n]);
  }

  /** A text that is a secret becomes the bare marker: longest first, nothing of it is left beside a shorter one's marker. */
  lemma SecretBecomesMarker(secrets: seq<string>, n: nat)
    requires Listed(secrets) && n < |secrets| && forall k :: n < k < |secrets| ==> !Contains(MARKER, secrets[k])
    ensures "" !in secrets && Redact(secrets, secrets[n]) == MARKER
  {
    MarkerAfterItsPass(secrets, n);
    RestLeaves(secrets, n + 1, secrets[n], MARKER);
  }

  // When masking is complete.

  ghost predicate MasksEverything(secrets: seq<string>)
    requires "" !in secrets
  {
    forall s: string, t: string :: t in secrets ==> !Contains(Redact(secrets, s), t)
  }

  /** The last listed secret that is part of the marker itself. */
  lemma {:induction false} LastInMarker(secrets: seq<string>, t: string) returns (n: nat)
    requires t in secrets && Contains(MARKER, t)
    ensures n < |secrets| && Contains(MARKER, secrets[n])
    ensures forall k :: n < k < |secrets| ==> !Contains(MARKER, secrets[k])
  {
    var last := |secrets| - 1;
    if Contains(MARKER, secrets[last]) {
      n := last;
    } else {
      assert secrets == secrets[..last] + [secrets[last]];
      n := LastInMarker(secrets[..last], t);
    }
  }

  /** A secret that is part of the marker is brought back by masking, whatever else is registered. */
  lemma MarkerSecretsSurvive(secrets: seq<string>, t: string)
    requires Listed(secrets) && t in secrets && Contains(MARKER, t)
    ensures "" !in secrets && !MasksEverything(secrets)
  {
    var n := LastInMarker(secrets, t);
    SecretBecomesMarker(secrets, n);
  }

  predicate WithoutBrackets(t: string) {
    '[' !in t && ']' !in t
  }

  lemma BracketFreeIsClear(t: string)
    requires t != "" && WithoutBrackets(t) && !Contains(MARKER, t)
    ensures ClearOfMarker(t)
  {
    forall i | 0 <= i <= |t| - |MARKER|
      ensures !OccursAt(t, MARKER, i)
    {
      assert t[i..i + |MARKER|][0] == t[i];
    }
    forall n | 0 < n < |MARKER| && n <= |t|
      ensures MARKER[|MARKER| - n..] != t[..n] && MARKER[..n] != t[|t| - n..]
    {
      assert MARKER[|MARKER| - n..][n - 1] == ']' && t[..n][n - 1] == t[n - 1];
      assert MARKER[..n][0] == '[' && t[|t| - n..][0] == t[|t| - n];
    }
  }

  /** For secrets without brackets, masking is complete for every text exactly if no secret is part of the marker. */
  lemma CompleteIffOutsideMarker(secrets: seq<string>)
    requires Listed(secrets) && forall t :: t in secrets ==> WithoutBrackets(t)
    ensures "" !in secrets
    ensures MasksEverything(secrets) <==> forall t :: t in secrets ==> !Contains(MARKER, t)
  {
    if forall t :: t in secrets ==> !Contains(MARKER, t) {
      forall t | t in secrets
        ensures ClearOfMarker(t)
      {
        BracketFreeIsClear(t);
      }
      forall s: string, t: string | t in secrets
        ensures !Contains(Redact(secrets, s), t)
      {
        NoSecretSurvives(secrets, s, t);
      }
    } else {
      var t :| t in secrets && Contains(MARKER, t);
      MarkerSecretsSurvive(secrets, t);
    }
  }

  /** A password that happens to be a piece of the marker is shown by masking it. */
  lemma PasswordActedSurvives()
    ensures Redact(["ACTED"], "ACTED") == MARKER && Contains(MARKER, "ACTED")
  {
    assert OccursAt(MARKER, "ACTED", 4);
    SecretBecomesMarker(["ACTED"], 0);
  }
}
