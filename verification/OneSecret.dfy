/** A redactor with a single secret: exactly which secrets it keeps out of every text, brackets or not. */
module OneSecret {
  import opened Redactor
  import opened Text

  /** An end of the marker begins the secret: what follows a masked one can complete it. */
  predicate GrowsBehind(t: string) {
    exists n :: 0 < n < |t| && EndsMarker(t, n)
  }

  predicate EndsMarker(t: string, n: nat) {
    n <= |t| && n <= |MARKER| && MARKER[|MARKER| - n..] == t[..n]
  }

  /** The secret goes on from its `m`-th character as the marker begins, or with the whole marker. */
  predicate FitsMarker(t: string, m: nat) {
    m <= |t| && (t[m..] <= MARKER || MARKER <= t[m..])
  }

  /** What precedes a masked secret can begin it: its first `m` characters can stand before a whole one without
      making an earlier match with it. */
  predicate GrowsBefore(t: string) {
    exists m :: 0 < m < |t| && FitsMarker(t, m) && Index(t[..m] + t, t) == m
  }

  /** The marker brings the secret back. */
  predicate Returns(t: string) {
    Contains(MARKER, t) || GrowsBehind(t) || GrowsBefore(t)
  }

  // A text that brings it back.

  lemma ShortStays(u: string, t: string)
    requires |u| < |t|
    ensures ReplaceAll(u, t) == u
  {
    var p := Index(u, t);
    assert p == |u|;
  }

  lemma OneMatch(a: string, t: string, u: string)
    requires t != "" && |u| < |t| && Index(a + t + u, t) == |a|
    ensures ReplaceAll(a + t + u, t) == a + MARKER + u
  {
    var s := a + t + u;
    ShortStays(u, t);
    assert s[..|a|] == a && s[|a| + |t|..] == u;
  }

  /** The end of one text and a whole other one. */
  lemma JoinedAt(a: string, t: string, n: nat)
    requires n <= |a| && n <= |t| && a[|a| - n..] == t[..n]
    ensures OccursAt(a + t[n..], t, |a| - n)
  {
    var r, i := a + t[n..], |a| - n;
    assert r[i..] == a[i..] + t[n..];
    assert t == t[..n] + t[n..];
    assert r[i..i + |t|] == r[i..];
  }

  lemma FirstMatch(t: string, u: string)
    requires |u| < |t|
    ensures ReplaceAll(t + u, t) == MARKER + u
  {
    var s := t + u;
    assert s[0..|t|] == t;
    assert OccursAt(s, t, 0);
    ShortStays(u, t);
    assert s[..0] == "" && s[0 + |t|..] == u;
  }

  lemma Behind(t: string, n: nat)
    requires 0 < n < |t| && EndsMarker(t, n)
    ensures Contains(MARKER + t[n..], t)
  {
    JoinedAt(MARKER, t, n);
    OccursContains(MARKER + t[n..], t, |MARKER| - n);
  }

  lemma OccursContains(s: string, t: string, i: nat)
    requires OccursAt(s, t, i)
    ensures Contains(s, t)
  {
  }

  /** Before the place of a match, what comes after it makes no difference. */
  lemma IndexExtends(a: string, t: string, u: string)
    requires t != "" && Index(a + t, t) == |a|
    ensures Index(a + t + u, t) == |a|
  {
    var s, x := a + t + u, a + t;
    assert s[|a|..|a| + |t|] == t;
    assert OccursAt(s, t, |a|);
    forall q | 0 <= q < |a|
      ensures !OccursAt(s, t, q)
    {
      assert !OccursAt(x, t, q);
      assert s[..|x|] == x;
      OccursInPart(s, t, 0, |x|, q);
    }
  }

  /** What follows the first `m` characters: the marker, and of the secret what is left after that. */
  function Left(t: string, m: nat): string
    requires m <= |t|
  {
    if m + |MARKER| < |t| then t[m + |MARKER|..] else ""
  }

  lemma BeginsWith(t: string, m: nat)
    requires FitsMarker(t, m)
    ensures OccursAt(t[..m] + MARKER + Left(t, m), t, 0)
  {
    var r := t[..m] + MARKER + Left(t, m);
    assert |t| <= |r|;
    forall k | 0 <= k < |t|
      ensures r[k] == t[k]
    {
      assert k >= m ==> t[k] == t[m..][k - m];
    }
    assert r[0..|t|] == t;
  }

  lemma Before(t: string, m: nat) returns (s: string)
    requires 0 < m < |t| && FitsMarker(t, m) && Index(t[..m] + t, t) == m
    ensures Contains(ReplaceAll(s, t), t)
  {
    s := t[..m] + t + Left(t, m);
    IndexExtends(t[..m], t, Left(t, m));
    OneMatch(t[..m], t, Left(t, m));
    BeginsWith(t, m);
    OccursContains(t[..m] + MARKER + Left(t, m), t, 0);
  }

  // A secret that is not brought back.

  /** `t` occurs at `i` in `x`, the marker, and `y`. */
  lemma InsideMarker(x: string, y: string, t: string, i: nat)
    requires |x| <= i && i + |t| <= |x| + |MARKER| && OccursAt(x + MARKER + y, t, i)
    ensures Contains(MARKER, t)
  {
    var s := x + MARKER + y;
    assert s[|x|..|x| + |MARKER|] == MARKER;
    OccursInPart(s, t, |x|, |x| + |MARKER|, i);
  }

  lemma OutOfMarker(x: string, y: string, t: string, i: nat)
    requires |x| <= i < |x| + |MARKER| < i + |t| && OccursAt(x + MARKER + y, t, i)
    ensures GrowsBehind(t)
  {
    var s, n := x + MARKER + y, |x| + |MARKER| - i;
    assert t[..n] == s[i..i + |t|][..n] == s[i..i + n];
    assert MARKER[|MARKER| - n..] == s[i..i + n];
    assert EndsMarker(t, n);
  }

  /** Begun before the marker, it goes on as the marker does. */
  lemma IntoMarker(x: string, y: string, t: string, i: nat)
    requires i < |x| < i + |t| && OccursAt(x + MARKER + y, t, i)
    ensures t[..|x| - i] == x[i..] && FitsMarker(t, |x| - i)
  {
    var s, m := x + MARKER + y, |x| - i;
    assert t == s[i..i + |t|];
    assert t[..m] == s[i..|x|] == x[i..];
    var rest := t[m..];
    assert forall k :: 0 <= k < |rest| ==> rest[k] == t[m + k] == s[|x| + k];
    assert forall k :: 0 <= k < |MARKER| ==> s[|x| + k] == MARKER[k];
  }

  /** And then there is a match further left. */
  lemma EarlierMatch(s: string, t: string, i: nat, p: nat)
    requires t != "" && !GrowsBefore(t)
    requires i < p && p - i < |t| && OccursAt(s, t, p)
    requires t[..p - i] == s[i..p] && FitsMarker(t, p - i)
    ensures exists q :: 0 <= q < p && OccursAt(s, t, q)
  {
    var j := EarlierStart(t, p - i);
    Overlaid(s, t, i, p);
    OccursInPart(s, t, i, p + |t|, i + j);
  }

  lemma EarlierStart(t: string, m: nat) returns (j: nat)
    requires !GrowsBefore(t) && 0 < m < |t| && FitsMarker(t, m)
    ensures j < m && OccursAt(t[..m] + t, t, j)
  {
    var w := t[..m] + t;
    assert w[m..m + |t|] == t;
    assert OccursAt(w, t, m);
    j := Index(w, t);
  }

  lemma Overlaid(s: string, t: string, i: nat, p: nat)
    requires i < p && p - i < |t| && OccursAt(s, t, p) && t[..p - i] == s[i..p]
    ensures s[i..p + |t|] == t[..p - i] + t
  {
    assert s[i..p + |t|] == s[i..p] + s[p..p + |t|];
  }

  /** The case of a match: the text before it, the marker, and the rest already masked. */
  lemma NoReturn(s: string, t: string, y: string, i: nat)
    requires t != "" && !Returns(t) && Index(s, t) < |s| && !Contains(y, t)
    ensures !OccursAt(s[..Index(s, t)] + MARKER + y, t, i)
  {
    var p := Index(s, t);
    var x := s[..p];
    var r := x + MARKER + y;
    if OccursAt(r, t, i) {
      if i >= |x| + |MARKER| {
        assert r[|x| + |MARKER|..|r|] == y;
        OccursInPart(r, t, |x| + |MARKER|, |r|, i);
      } else if i >= |x| && i + |t| <= |x| + |MARKER| {
        InsideMarker(x, y, t, i);
      } else if i >= |x| {
        OutOfMarker(x, y, t, i);
      } else if i + |t| <= |x| {
        BeforeFirst(s, t);
        assert r[0..|x|] == x;
        OccursInPart(r, t, 0, |x|, i);
      } else {
        IntoMarker(x, y, t, i);
        EarlierMatch(s, t, i, p);
      }
    }
  }

  lemma {:induction false} StaysOut(s: string, t: string)
    requires t != "" && !Returns(t)
    ensures !Contains(ReplaceAll(s, t), t)
    decreases |s|
  {
    var p := Index(s, t);
    if p == |s| {
      BeforeFirst(s, t);
      assert s[..p] == s;
    } else {
      StaysOut(s[p + |t|..], t);
      NoneReturns(s, t, ReplaceAll(s[p + |t|..], t));
    }
  }

  lemma NoneReturns(s: string, t: string, y: string)
    requires t != "" && !Returns(t) && Index(s, t) < |s| && !Contains(y, t)
    ensures !Contains(s[..Index(s, t)] + MARKER + y, t)
  {
    var r := s[..Index(s, t)] + MARKER + y;
    forall i | 0 <= i <= |r| - |t|
      ensures !OccursAt(r, t, i)
    {
      NoReturn(s, t, y, i);
    }
  }

  /** For every single secret: masking keeps it out of every text exactly unless the marker brings it back. */
  lemma OneSecretIff(t: string)
    requires |t| >= MIN_SECRET_LEN
    ensures MasksEverything([t]) <==> !Returns(t)
  {
    forall s
      ensures Redact([t], s) == ReplaceAll(s, t)
    {
      assert [t][..0] == [];
    }
    if !Returns(t) {
      forall s: string, u: string | u in [t]
        ensures !Contains(Redact([t], s), u)
      {
        StaysOut(s, t);
      }
    } else {
      var s := BroughtBack(t);
      assert t in [t] && Contains(Redact([t], s), t);
    }
  }

  lemma BroughtBack(t: string) returns (s: string)
    requires t != "" && Returns(t)
    ensures Contains(ReplaceAll(s, t), t)
  {
    if Contains(MARKER, t) {
      s := t;
      ReplaceWhole(t);
    } else if GrowsBehind(t) {
      var n :| 0 < n < |t| && EndsMarker(t, n);
      s := t + t[n..];
      FirstMatch(t, t[n..]);
      Behind(t, n);
    } else {
      var m :| 0 < m < |t| && FitsMarker(t, m) && Index(t[..m] + t, t) == m;
      s := Before(t, m);
    }
  }

  /** It takes more than meeting the marker: this secret meets its beginning and never comes back. */
  lemma MeetingIsNotEnough()
    ensures FitsMarker("[a[", 2) && MasksEverything(["[a["])
  {
    NotBefore("[a[");
    NotBehind("[a[");
    NotWithin("[a[");
    OneSecretIff("[a[");
  }

  lemma NotBefore(t: string)
    requires t == "[a["
    ensures FitsMarker(t, 2) && !GrowsBefore(t)
  {
    assert t[2..] == "[" && t[2..] <= MARKER;
    assert t[1..][0] != MARKER[0];
    assert !FitsMarker(t, 1);
    var w := t[..2] + t;
    assert w == "[a[a[" && w[0..3] == t;
    assert OccursAt(w, t, 0);
    assert Index(w, t) == 0;
  }

  lemma NotBehind(t: string)
    requires t == "[a["
    ensures !GrowsBehind(t)
  {
    assert t[..1][0] != MARKER[|MARKER| - 1..][0];
    assert t[..2][1] != MARKER[|MARKER| - 2..][1];
    assert !EndsMarker(t, 1) && !EndsMarker(t, 2);
  }

  lemma NotWithin(t: string)
    requires t == "[a["
    ensures !Contains(MARKER, t)
  {
    forall i | 0 <= i <= |MARKER| - 3
      ensures !OccursAt(MARKER, t, i)
    {
      assert MARKER[i..i + 3][2] == MARKER[i + 2];
    }
  }
}
