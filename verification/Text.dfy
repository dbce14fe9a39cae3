/** Byte strings, as Go's `strings` and `bytes` packages see them: a character is one byte. */
module Text {

  predicate OccursAt(s: string, t: string, i: int) {
    0 <= i && i + |t| <= |s| && s[i..i + |t|] == t
  }

  /** `strings.Contains` and `bytes.Contains`. */
  predicate Contains(s: string, t: string) {
    exists i :: 0 <= i <= |s| - |t| && OccursAt(s, t, i)
  }

  lemma SliceOfSlice<T>(s: seq<T>, lo: nat, hi: nat, a: nat, b: nat)
    requires lo <= hi <= |s| && a <= b <= hi - lo
    ensures s[lo..hi][a..b] == s[lo + a..lo + b]
  {
    forall k | 0 <= k < b - a
      ensures s[lo..hi][a..b][k] == s[lo + a..lo + b][k]
    {
    }
  }

  /** An occurrence inside a part is an occurrence in the whole, shifted. */
  lemma OccursInPart(s: string, t: string, lo: nat, hi: nat, i: int)
    requires lo <= i && i + |t| <= hi <= |s|
    ensures OccursAt(s[lo..hi], t, i - lo) <==> OccursAt(s, t, i)
  {
    SliceOfSlice(s, lo, hi, i - lo, i - lo + |t|);
  }

  /** A part of a string that lacks `t` lacks it too. */
  lemma SubstringLacks(s: string, t: string, lo: nat, hi: nat)
    requires lo <= hi <= |s|
    requires !Contains(s, t)
    ensures !Contains(s[lo..hi], t)
  {
    forall i | 0 <= i <= |s[lo..hi]| - |t|
      ensures !OccursAt(s[lo..hi], t, i)
    {
      OccursInPart(s, t, lo, hi, lo + i);
    }
  }

  function Concat(parts: seq<string>): string {
    if parts == [] then "" else parts[0] + Concat(parts[1..])
  }

  lemma {:induction false} ConcatAppend(parts: seq<string>, last: string)
    ensures Concat(parts + [last]) == Concat(parts) + last
  {
    if parts == [] {
      assert parts + [last] == [last];
      assert [last][1..] == [];
    } else {
      ConcatAppend(parts[1..], last);
      assert (parts + [last])[1..] == parts[1..] + [last];
    }
  }

  /** `%d` of a count. */
  function Decimal(n: nat): string {
    if n < 10 then [Digit(n)] else Decimal(n / 10) + [Digit(n % 10)]
  }

  function Digit(n: nat): char
    requires n < 10
  {
    "0123456789"[n]
  }
}
