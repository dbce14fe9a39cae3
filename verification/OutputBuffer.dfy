/** What is kept and found of a command's output, against the whole of it, and the verdict taken on both streams. */
module OutputBuffer {
  import opened Extremes
  import opened Text

  function Prefix(s: string, n: nat): string {
    if n >= |s| then s else s[..n]
  }

  function Suffix(s: string, n: nat): string {
    if n >= |s| then s else s[|s| - n..]
  }

  /** What is kept of a whole output: all of it, or its two ends around a note of the dropped byte count. */
  function Retained(stream: string, limit: nat): string {
    if |stream| <= limit then stream
    else
      Prefix(stream, limit / 2)
      + "\n...[truncated " + Decimal(|stream| - 2 * (limit / 2)) + " bytes]...\n"
      + Suffix(stream, limit / 2)
  }

  /** Beyond the limit the kept ends do not overlap, and the note counts exactly the bytes between them. */
  lemma DroppedMiddle(stream: string, limit: nat)
    requires |stream| > limit
    ensures var half := limit / 2;
            var middle := stream[half..|stream| - half];
            && middle != ""
            && stream == Prefix(stream, half) + middle + Suffix(stream, half)
            && Retained(stream, limit)
               == Prefix(stream, half) + "\n...[truncated " + Decimal(|middle|) + " bytes]...\n" + Suffix(stream, half)
  {
  }

  /** A pattern counts once some byte arrived: the scan skips empty writes, so "" is not found in an empty output. */
  predicate Seen(stream: string, pattern: string) {
    stream != "" && Contains(stream, pattern)
  }

  lemma SeenMeansContains(stream: string, pattern: string)
    ensures Seen(stream, pattern) == Contains(stream, pattern) <==> pattern != "" || stream != ""
  {
    if pattern == "" {
      assert OccursAt(stream, pattern, 0);
    } else if stream == "" {
      assert !Contains(stream, pattern);
    }
  }

  lemma GrownSeen(stream: string, p: string, pattern: string)
    requires Contains(stream, pattern)
    ensures Contains(stream + p, pattern)
  {
    var i :| 0 <= i <= |stream| - |pattern| && OccursAt(stream, pattern, i);
    assert (stream + p)[i..i + |pattern|] == stream[i..i + |pattern|];
    assert OccursAt(stream + p, pattern, i);
  }

  /** The last `keep` bytes are enough: a match that needs the new bytes starts within them. */
  lemma CarrySuffices(stream: string, p: string, pattern: string, keep: nat)
    requires |pattern| <= keep + 1
    ensures Contains(stream + p, pattern) <==>
            Contains(stream, pattern) || Contains(Suffix(stream, keep) + p, pattern)
  {
    var carry := Suffix(stream, keep);
    var cut := |stream| - |carry|;
    assert (stream + p)[cut..] == carry + p;
    if Contains(stream + p, pattern) {
      var i :| 0 <= i <= |stream + p| - |pattern| && OccursAt(stream + p, pattern, i);
      if i + |pattern| <= |stream| {
        assert stream[i..i + |pattern|] == (stream + p)[i..i + |pattern|];
        assert OccursAt(stream, pattern, i);
      } else {
        OccursInPart(stream + p, pattern, cut, |stream + p|, i);
        assert (stream + p)[cut..|stream + p|] == carry + p;
        assert OccursAt(carry + p, pattern, i - cut);
      }
    }
    if Contains(stream, pattern) {
      GrownSeen(stream, p, pattern);
    }
    if Contains(carry + p, pattern) {
      var i :| 0 <= i <= |carry + p| - |pattern| && OccursAt(carry + p, pattern, i);
      OccursInPart(stream + p, pattern, cut, |stream + p|, i + cut);
      assert (stream + p)[cut..|stream + p|] == carry + p;
      assert OccursAt(stream + p, pattern, i + cut);
    }
  }

  /** The carry of the longer output can be cut from the old carry and the new bytes alone. */
  lemma CarryGrows(stream: string, p: string, keep: nat)
    ensures Suffix(Suffix(stream, keep) + p, keep) == Suffix(stream + p, keep)
  {
  }

  /** Memory that holds exactly the part of `stream` worth keeping, although never all of it at once. */
  ghost predicate Retains(limit: nat, stream: string, head: string, tail: string, truncated: bool, recopied: nat) {
    var half := limit / 2;
    && (truncated <==> |stream| > limit)
    && (!truncated ==> head == stream && tail == "" && recopied == 0)
    && (truncated ==>
          && head == Prefix(stream, half)
          && tail == Suffix(stream, |tail|)
          && half <= |tail| <= 2 * half
          && |head| + |tail| <= |stream|)
    && recopied + |tail| <= |stream|
  }

  /** The same before the trim that ends a write: the tail may be of any length. */
  ghost predicate RetainsUntrimmed(limit: nat, stream: string, head: string, tail: string, recopied: nat) {
    var half := limit / 2;
    && |stream| > limit
    && head == Prefix(stream, half)
    && tail == Suffix(stream, |tail|)
    && half <= |tail|
    && |head| + |tail| <= |stream|
    && recopied + |tail| <= |stream|
  }

  lemma Overflow(limit: nat, stream: string, p: string)
    requires |stream + p| > limit
    ensures RetainsUntrimmed(limit, stream + p, (stream + p)[..limit / 2], (stream + p)[limit / 2..], 0)
  {
  }

  lemma TailGrows(limit: nat, stream: string, head: string, tail: string, recopied: nat, p: string)
    requires Retains(limit, stream, head, tail, true, recopied)
    ensures RetainsUntrimmed(limit, stream + p, head, tail + p, recopied)
  {
    SuffixGrows(stream, p, |tail|);
    PrefixStays(stream, p, limit / 2);
  }

  lemma SuffixGrows(s: string, p: string, n: nat)
    requires n <= |s|
    ensures Suffix(s, n) + p == Suffix(s + p, n + |p|)
  {
  }

  lemma PrefixStays(s: string, p: string, n: nat)
    requires n <= |s|
    ensures Prefix(s + p, n) == Prefix(s, n)
  {
  }

  lemma Trim(limit: nat, stream: string, head: string, tail: string, recopied: nat)
    requires RetainsUntrimmed(limit, stream, head, tail, recopied)
    ensures |tail| <= 2 * (limit / 2) ==> Retains(limit, stream, head, tail, true, recopied)
    ensures |tail| > 2 * (limit / 2) ==>
              Retains(limit, stream, head, tail[|tail| - limit / 2..], true, recopied + limit / 2)
  {
    if |tail| > 2 * (limit / 2) {
      assert tail[|tail| - limit / 2..] == Suffix(stream, limit / 2);
    }
  }

  /** Each pattern is marked exactly when it occurred, and the carry is all a later match can reach back to. */
  ghost predicate Scanned(pats: seq<string>, keep: nat, stream: string, found: seq<bool>, carry: string) {
    && |found| == |pats|
    && (forall i :: 0 <= i < |pats| ==> |pats[i]| <= keep + 1)
    && (pats != [] ==> carry == Suffix(stream, keep))
    && (forall i :: 0 <= i < |pats| ==> (found[i] <==> Seen(stream, pats[i])))
  }

  lemma NothingRetained(limit: nat)
    ensures Retains(limit, "", "", "", false, 0)
  {
  }

  function Unfound(n: nat): (f: seq<bool>)
    ensures |f| == n && forall i :: 0 <= i < n ==> !f[i]
  {
    seq(n, _ => false)
  }

  lemma NothingSeen(pats: seq<string>, keep: nat, found: seq<bool>)
    requires forall i :: 0 <= i < |pats| ==> |pats[i]| <= keep + 1
    requires |found| == |pats| && forall i :: 0 <= i < |pats| ==> !found[i]
    ensures Scanned(pats, keep, "", found, "")
  {
  }

  /** What a write adds to the patterns seen is found in the carry and the new bytes. */
  lemma SeenNow(stream: string, p: string, pattern: string, keep: nat)
    requires |pattern| <= keep + 1 && p != ""
    ensures Seen(stream + p, pattern) <==> Seen(stream, pattern) || Contains(Suffix(stream, keep) + p, pattern)
  {
    CarrySuffices(stream, p, pattern, keep);
    if stream == "" {
      assert Suffix(stream, keep) + p == p == stream + p;
    }
  }

  class Buffer {
    const limit: nat
    const pats: seq<string>
    const keep: nat
    var head: string
    var tail: string
    var total: nat
    var truncated: bool
    var found: seq<bool>
    var carry: string
    ghost var stream: string // everything ever written
    ghost var recopied: nat  // bytes moved again by trimming the tail

    ghost predicate Valid()
      reads this
    {
      && total == |stream|
      && Retains(limit, stream, head, tail, truncated, recopied)
      && Scanned(pats, keep, stream, found, carry)
    }

    /** One less than the longest pattern. */
    static method Overlap(patterns: seq<string>) returns (k: nat)
      ensures forall i :: 0 <= i < |patterns| ==> |patterns[i]| <= k + 1
      ensures k == 0 || exists i :: 0 <= i < |patterns| && k == |patterns[i]| - 1
    {
      k := 0;
      for i := 0 to |patterns|
        invariant forall j :: 0 <= j < i ==> |patterns[j]| <= k + 1
        invariant k == 0 || exists j :: 0 <= j < i && k == |patterns[j]| - 1
      {
        k := Max(k, |patterns[i]| - 1);
      }
    }

    constructor (limit: nat, patterns: seq<string>)
      ensures Valid()
      ensures stream == "" && this.limit == limit && pats == patterns
    {
      var k := Overlap(patterns);
      this.limit := limit;
      pats := patterns;
      keep := k;
      head, tail, total, truncated := "", "", 0, false;
      found := Unfound(|patterns|);
      carry := "";
      stream := "";
      recopied := 0;
      new;
      NothingRetained(this.limit);
      NothingSeen(pats, keep, found);
      assert Valid();
    }

    /** Takes one chunk. What a caller can observe afterwards depends on `stream` only. */
    method Write(p: string)
      requires Valid()
      modifies this
      ensures Valid()
      ensures stream == old(stream) + p
      ensures |head| + |tail| <= Max(limit, 3 * (limit / 2))
      ensures recopied <= |stream|
    {
      total := total + |p|;
      Scan(p);
      Retain(p);
      stream := stream + p;
    }

    /** Appends to what is kept. */
    method Retain(p: string)
      requires Retains(limit, stream, head, tail, truncated, recopied)
      modifies `head, `tail, `truncated, `recopied
      ensures Retains(limit, stream + p, head, tail, truncated, recopied)
    {
      var half := limit / 2;
      if !truncated && |head| + |p| <= limit {
        head := head + p;
        return;
      } else if !truncated {
        truncated := true;
        var all := head + p;
        Overflow(limit, stream, p);
        head := all[..half];
        tail := all[half..];
      } else {
        TailGrows(limit, stream, head, tail, recopied, p);
        tail := tail + p;
      }
      TrimTail(stream + p);
    }

    /** The end of every write; an untruncated buffer has no tail to trim. */
    method TrimTail(ghost grown: string)
      requires truncated && RetainsUntrimmed(limit, grown, head, tail, recopied)
      modifies `tail, `recopied
      ensures Retains(limit, grown, head, tail, truncated, recopied)
    {
      var half := limit / 2;
      Trim(limit, grown, head, tail, recopied);
      if |tail| > 2 * half {
        tail := tail[|tail| - half..];
        recopied := recopied + half;
      }
    }

    method Scan(p: string)
      requires Scanned(pats, keep, stream, found, carry)
      modifies `found, `carry
      ensures Scanned(pats, keep, stream + p, found, carry)
    {
      if pats == [] || p == "" {
        assert stream + p == stream || pats == [];
        return;
      }
      var buf := carry + p;
      for i := 0 to |pats|
        invariant |found| == |pats|
        invariant carry == old(carry)
        invariant forall j :: 0 <= j < i ==> (found[j] <==> Seen(stream + p, pats[j]))
        invariant forall j :: i <= j < |pats| ==> found[j] == old(found[j])
      {
        SeenNow(stream, p, pats[i], keep);
        if !found[i] && Contains(buf, pats[i]) {
          found := found[i := true];
        }
      }
      CarryGrows(stream, p, keep);
      carry := buf[Max(0, |buf| - keep)..];
    }

    method Found(i: nat) returns (r: bool)
      requires Valid() && i < |pats|
      ensures r <==> Seen(stream, pats[i])
    {
      r := found[i];
    }

    method String() returns (s: string)
      requires Valid()
      ensures s == Retained(stream, limit)
    {
      if !truncated {
        return head;
      }
      var t := tail[Max(0, |tail| - limit / 2)..];
      var dropped := total - |head| - |t|;
      assert t == Suffix(stream, limit / 2);
      return head + "\n...[truncated " + Decimal(dropped) + " bytes]...\n" + t;
    }
  }

  /** One stream of a command: its chunks are written as they arrive. */
  method Filled(chunks: seq<string>, limit: nat, pats: seq<string>) returns (b: Buffer)
    ensures fresh(b) && b.Valid() && b.limit == limit && b.pats == pats && b.stream == Concat(chunks)
  {
    b := new Buffer(limit, pats);
    for i := 0 to |chunks|
      invariant b.Valid() && fresh(b) && b.limit == limit && b.pats == pats
      invariant b.stream == Concat(chunks[..i])
    {
      assert chunks[..i + 1] == chunks[..i] + [chunks[i]];
      ConcatAppend(chunks[..i], chunks[i]);
      b.Write(chunks[i]);
    }
    assert chunks[..|chunks|] == chunks;
  }

  /** What is read of a stream when the command has ended. */
  method Collect(chunks: seq<string>, limit: nat, pats: seq<string>)
    returns (text: string, found: seq<bool>, truncated: bool, total: nat)
    ensures text == Retained(Concat(chunks), limit)
    ensures |found| == |pats| && forall i :: 0 <= i < |pats| ==> (found[i] <==> Seen(Concat(chunks), pats[i]))
    ensures truncated <==> |Concat(chunks)| > limit
    ensures total == |Concat(chunks)|
  {
    var b := Filled(chunks, limit, pats);
    text := b.String();
    found, truncated, total := b.found, b.truncated, b.total;
  }

  /** The conditions a step puts on its command, and how they were judged. */
  datatype Expectation = Expectation(exitCode: int, contains: seq<string>, notContains: seq<string>)

  datatype ExitStatus = NotReported | Reported(code: int)

  datatype Verdict =
    | Holds
    | NoExitStatus
    | WrongExitCode(code: int)
    | Missing(index: nat)
    | Forbidden(index: nat)
    | RegexMismatch

  /** A pattern counts wherever it occurs in the two complete outputs, kept or dropped. */
  predicate Printed(stdout: string, stderr: string, pattern: string) {
    Seen(stdout, pattern) || Seen(stderr, pattern)
  }

  /** All that must be printed was, and nothing that must not be. */
  predicate ConditionsMet(e: Expectation, stdout: string, stderr: string) {
    && (forall i :: 0 <= i < |e.contains| ==> Printed(stdout, stderr, e.contains[i]))
    && (forall i :: 0 <= i < |e.notContains| ==> !Printed(stdout, stderr, e.notContains[i]))
  }

  method FoundInEither(stdout: Buffer?, stderr: Buffer?, i: nat) returns (r: bool)
    requires stdout != null ==> stderr != null && stdout.Valid() && stderr.Valid()
    requires stdout != null ==> i < |stdout.pats| && stdout.pats == stderr.pats
    ensures r <==> stdout != null && Printed(stdout.stream, stderr.stream, stdout.pats[i])
  {
    if stdout == null {
      return false;
    }
    var inOut := stdout.Found(i);
    var inErr := stderr.Found(i);
    return inOut || inErr;
  }

  /** The verdict on a command that ended: the one the complete outputs deserve. `matches` is the regex result. */
  method Check(e: Expectation, status: ExitStatus, stdout: Buffer, stderr: Buffer, matches: bool) returns (v: Verdict)
    requires stdout.Valid() && stderr.Valid()
    requires stdout.pats == stderr.pats == e.contains + e.notContains
    ensures v.Holds? <==> status == Reported(e.exitCode) && ConditionsMet(e, stdout.stream, stderr.stream) && matches
    ensures v.NoExitStatus? <==> status.NotReported?
    ensures v.WrongExitCode? <==> status.Reported? && status.code != e.exitCode
    ensures v.WrongExitCode? ==> v.code == status.code
    ensures v.Missing? ==>
              && v.index < |e.contains|
              && !Printed(stdout.stream, stderr.stream, e.contains[v.index])
              && forall i :: 0 <= i < v.index ==> Printed(stdout.stream, stderr.stream, e.contains[i])
    ensures v.Forbidden? || v.RegexMismatch? ==>
              forall i :: 0 <= i < |e.contains| ==> Printed(stdout.stream, stderr.stream, e.contains[i])
    ensures v.Forbidden? ==>
              && v.index < |e.notContains|
              && Printed(stdout.stream, stderr.stream, e.notContains[v.index])
              && forall i :: 0 <= i < v.index ==> !Printed(stdout.stream, stderr.stream, e.notContains[i])
    ensures v.RegexMismatch? ==> !matches
  {
    if status.NotReported? {
      return NoExitStatus;
    }
    if status.code != e.exitCode {
      return WrongExitCode(status.code);
    }
    for i := 0 to |e.contains|
      invariant forall j :: 0 <= j < i ==> Printed(stdout.stream, stderr.stream, e.contains[j])
    {
      var found := FoundInEither(stdout, stderr, i);
      if !found {
        return Missing(i);
      }
    }
    for i := 0 to |e.notContains|
      invariant forall j :: 0 <= j < i ==> !Printed(stdout.stream, stderr.stream, e.notContains[j])
    {
      assert stdout.pats[|e.contains| + i] == e.notContains[i];
      var found := FoundInEither(stdout, stderr, |e.contains| + i);
      if found {
        return Forbidden(i);
      }
    }
    if !matches {
      return RegexMismatch;
    }
    return Holds;
  }
}
