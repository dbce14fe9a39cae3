/** The delay between connection attempts, in 64-bit signed arithmetic. */
module Backoff {
  import opened Options
  import opened Extremes

  function Pow2(n: nat): (p: nat)
    ensures p > 0
  {
    if n == 0 then 1 else 2 * Pow2(n - 1)
  }

  /** The value a signed 64-bit register holds for `n`. */
  function Wrap(n: int): (w: int)
    ensures -TWO_63 <= w < TWO_63
  {
    (n + TWO_63) % TWO_64 - TWO_63
  }

  /** `base << (attempt - 1)`. */
  function Shifted(base: int, attempt: nat): int
    requires attempt >= 1
  {
    Wrap(base * Pow2(attempt - 1))
  }

  /** The ceiling that the jitter works below. */
  function Ceiling(base: int, maxDelay: int, attempt: nat): int
    requires attempt >= 1
  {
    var d := Shifted(base, attempt);
    if d > maxDelay || d <= 0 then maxDelay else d
  }

  /** Go's division by two, which truncates towards zero. */
  function Half(n: int): (h: int)
    ensures n >= 0 ==> h == n / 2
    ensures n < 0 ==> h == -(-n / 2)
  {
    if n >= 0 then n / 2 else -(-n / 2)
  }

  /** The size of the range the jitter is drawn from; `rand.N` panics unless it is positive. */
  function Range(base: int, maxDelay: int, attempt: nat): int
    requires attempt >= 1
  {
    Half(Ceiling(base, maxDelay, attempt)) + 1
  }

  /** Any 64-bit settings. None is the panic. */
  method Delay(base: int, maxDelay: int, attempt: nat) returns (d: Option<int>)
    requires -TWO_63 <= base < TWO_63 && -TWO_63 <= maxDelay < TWO_63 && attempt >= 1
    ensures d.None? <==> maxDelay <= -2
    ensures d.Some? ==>
              var c := Ceiling(base, maxDelay, attempt);
              && Half(c) <= d.value <= 2 * Half(c)
              && 0 <= d.value && (d.value <= maxDelay || (d.value == 0 && maxDelay == -1))
  {
    PanicsIffNegativeMaximum(base, maxDelay, attempt);
    var c := Ceiling(base, maxDelay, attempt);
    var n := Half(c) + 1;
    if n <= 0 {
      return None;
    }
    var r := RandN(n);
    return Some(Half(c) + r);
  }

  method RandN(n: int) returns (r: int)
    requires n > 0
    ensures 0 <= r < n
  {
    r := *;
    if r < 0 || r >= n {
      r := 0;
    }
  }

  /** The range is positive exactly if the ceiling is -1 or more, whatever the base and the attempt: exactly if
      the configured maximum is. */
  lemma PanicsIffNegativeMaximum(base: int, maxDelay: int, attempt: nat)
    requires attempt >= 1
    ensures Range(base, maxDelay, attempt) > 0 <==> Ceiling(base, maxDelay, attempt) >= -1
    ensures Range(base, maxDelay, attempt) > 0 <==> maxDelay >= -1
  {
  }

  /** A maximum of two nanoseconds below zero is enough, with the default base at the first retry. */
  lemma NegativeMaximumPanics()
    ensures Range(2_000_000_000, -2, 1) == 0
  {
    assert Pow2(0) == 1;
  }

  /** The delay doubles up to the maximum exactly as long as the shift does not wrap into (0, maxDelay]. */
  lemma DoublesUpToMax(base: int, maxDelay: int, attempt: nat)
    requires 0 < base < TWO_63 && 0 < maxDelay < TWO_63 && attempt >= 1
    ensures Ceiling(base, maxDelay, attempt) == Min(base * Pow2(attempt - 1), maxDelay)
            <==> base * Pow2(attempt - 1) < TWO_63 || !(0 < Shifted(base, attempt) < maxDelay)
  {
    var d := base * Pow2(attempt - 1);
    assert d >= base by {
    }
    if d < TWO_63 {
      assert Wrap(d) == d;
    }
  }

  /** The doubling is lost for some settings: a base that is no multiple of the word size can wrap to a few ns. */
  lemma WrapCanShrinkTheDelay()
    ensures Ceiling(0x4000_0000_0000_0001, 60_000_000_000, 3) == 4
  {
    assert Pow2(2) == 4;
  }
}
