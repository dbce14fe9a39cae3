/** `{{ .name }}` references: the two scans that check a text, the one-pass grammar they amount to, and rendering. */
module Template {
  import opened Options

  // Characters.

  predicate Space(c: char) {
    c == ' ' || c == '\t' || c == '\n' || c == '\r' || c == 12 as char
  }

  predicate NameStart(c: char) {
    'A' <= c <= 'Z' || 'a' <= c <= 'z' || c == '_'
  }

  predicate NameChar(c: char) {
    NameStart(c) || '0' <= c <= '9'
  }

  function SkipSpaces(s: string, i: nat): (j: nat)
    requires i <= |s|
    ensures i <= j <= |s|
    ensures forall q :: i <= q < j ==> Space(s[q])
    ensures j < |s| ==> !Space(s[j])
    decreases |s| - i
  {
    if i < |s| && Space(s[i]) then SkipSpaces(s, i + 1) else i
  }

  function SkipName(s: string, i: nat): (j: nat)
    requires i <= |s|
    ensures i <= j <= |s|
    ensures forall q :: i <= q < j ==> NameChar(s[q])
    ensures j < |s| ==> !NameChar(s[j])
    decreases |s| - i
  {
    if i < |s| && NameChar(s[i]) then SkipName(s, i + 1) else i
  }

  /** `{{` at `i`. */
  predicate OpenAt(s: string, i: nat) {
    i + 2 <= |s| && s[i] == '{' && s[i + 1] == '{'
  }

  /** A match of the reference pattern: where it starts and ends, and the name between. */
  datatype Match = Match(start: nat, end: nat, name: string)

  /** The reference pattern tried at `i`. */
  function RefAt(s: string, i: nat): (m: Option<Match>)
    ensures m.Some? ==>
              && OpenAt(s, i) && m.value.start == i && i + 2 < m.value.end <= |s|
              && forall q :: i + 2 <= q < m.value.end ==> s[q] != '{'
  {
    if !OpenAt(s, i) then None
    else
      var dot := SkipSpaces(s, i + 2);
      if dot + 1 >= |s| || s[dot] != '.' || !NameStart(s[dot + 1]) then None
      else
        var nameEnd := SkipName(s, dot + 1);
        var close := SkipSpaces(s, nameEnd);
        if close + 2 <= |s| && s[close] == '}' && s[close + 1] == '}' then
          Some(Match(i, close + 2, s[dot + 1..nameEnd]))
        else None
  }

  // The two scans: all matches from the left, none overlapping another.

  function AllRefs(s: string, from: nat): seq<Match>
    requires from <= |s|
    decreases |s| - from
  {
    if from == |s| then []
    else
      match RefAt(s, from)
      case Some(m) => [m] + AllRefs(s, m.end)
      case None => AllRefs(s, from + 1)
  }

  function AllOpens(s: string, from: nat): seq<nat>
    requires from <= |s|
    decreases |s| - from
  {
    if from == |s| then []
    else if OpenAt(s, from) then [from] + AllOpens(s, from + 2)
    else AllOpens(s, from + 1)
  }

  // The grammar: one pass in which every `{{` must open a reference.

  datatype Piece = Lit(c: char) | Var(name: string, source: string)

  function Parse(s: string, from: nat): Option<seq<Piece>>
    requires from <= |s|
    decreases |s| - from
  {
    if from == |s| then Some([])
    else if OpenAt(s, from) then
      match RefAt(s, from)
      case None => None
      case Some(m) =>
        match Parse(s, m.end) {
          case None => None
          case Some(rest) => Some([Var(m.name, s[from..m.end])] + rest)
        }
    else
      match Parse(s, from + 1)
      case None => None
      case Some(rest) => Some([Lit(s[from])] + rest)
  }

  function Names(ps: seq<Piece>): seq<string> {
    if ps == [] then [] else (if ps[0].Var? then [ps[0].name] else []) + Names(ps[1..])
  }

  function Source(ps: seq<Piece>): string {
    if ps == [] then "" else (if ps[0].Var? then ps[0].source else [ps[0].c]) + Source(ps[1..])
  }

  /** The pieces are the text, nothing lost and nothing moved. */
  lemma {:induction false} ParseCoversText(s: string, from: nat)
    requires from <= |s| && Parse(s, from).Some?
    ensures Source(Parse(s, from).value) == s[from..]
    decreases |s| - from
  {
    if from < |s| {
      if OpenAt(s, from) {
        var m := RefAt(s, from).value;
        ParseCoversText(s, m.end);
        SourceCons(Var(m.name, s[from..m.end]), Parse(s, m.end).value);
        Joined(s, from, m.end);
      } else {
        ParseCoversText(s, from + 1);
        SourceCons(Lit(s[from]), Parse(s, from + 1).value);
        assert s[from..] == [s[from]] + s[from + 1..];
      }
    }
  }

  lemma Joined(s: string, i: nat, j: nat)
    requires i <= j <= |s|
    ensures s[i..] == s[i..j] + s[j..]
  {
  }

  lemma SourceCons(p: Piece, ps: seq<Piece>)
    ensures Source([p] + ps) == (if p.Var? then p.source else [p.c]) + Source(ps)
  {
    assert ([p] + ps)[1..] == ps;
  }

  // The scans agree with the grammar.

  function Starts(ms: seq<Match>): seq<nat> {
    if ms == [] then [] else [ms[0].start] + Starts(ms[1..])
  }

  function MatchNames(ms: seq<Match>): seq<string> {
    if ms == [] then [] else [ms[0].name] + MatchNames(ms[1..])
  }

  lemma {:induction false} RefsStartLater(s: string, from: nat)
    requires from <= |s|
    ensures AllRefs(s, from) != [] ==> AllRefs(s, from)[0].start >= from
    decreases |s| - from
  {
    if from < |s| && RefAt(s, from).None? {
      RefsStartLater(s, from + 1);
    }
  }

  /** Between the braces of a reference there is no other opening. */
  lemma {:induction false} OpensSkip(s: string, a: nat, b: nat)
    requires a <= b <= |s| && forall q :: a <= q < b ==> s[q] != '{'
    ensures AllOpens(s, a) == AllOpens(s, b)
    decreases b - a
  {
    if a < b {
      OpensSkip(s, a + 1, b);
    }
  }

  lemma SameAfterFirst(x: nat, xs: seq<nat>, ys: seq<nat>)
    ensures [x] + xs == [x] + ys <==> xs == ys
  {
    assert ([x] + xs)[1..] == xs && ([x] + ys)[1..] == ys;
  }

  predicate Agree(s: string, from: nat)
    requires from <= |s|
  {
    && (Parse(s, from).Some? <==> Starts(AllRefs(s, from)) == AllOpens(s, from))
    && (Parse(s, from).Some? ==> Names(Parse(s, from).value) == MatchNames(AllRefs(s, from)))
  }

  lemma AgreeAtReference(s: string, from: nat)
    requires from < |s| && RefAt(s, from).Some? && Agree(s, RefAt(s, from).value.end)
    ensures Agree(s, from)
  {
    var m := RefAt(s, from).value;
    var refs, parsed := AllRefs(s, m.end), Parse(s, m.end);
    OpensSkip(s, from + 2, m.end);
    assert AllOpens(s, from) == [from] + AllOpens(s, m.end);
    assert AllRefs(s, from) == [m] + refs && ([m] + refs)[1..] == refs;
    SameAfterFirst(from, Starts(refs), AllOpens(s, m.end));
    if parsed.Some? {
      NamesCons(Var(m.name, s[from..m.end]), parsed.value);
    }
  }

  lemma AgreeAtLiteral(s: string, from: nat)
    requires from < |s| && !OpenAt(s, from) && Agree(s, from + 1)
    ensures Agree(s, from)
  {
    if Parse(s, from + 1).Some? {
      NamesCons(Lit(s[from]), Parse(s, from + 1).value);
    }
  }

  /** The scan for braces finds this opening first, the scan for references a later one. */
  lemma AgreeAtBadOpening(s: string, from: nat)
    requires from < |s| && OpenAt(s, from) && RefAt(s, from).None?
    ensures Agree(s, from)
  {
    RefsStartLater(s, from + 1);
    assert AllOpens(s, from)[0] == from;
  }

  lemma {:induction false} ScansAgree(s: string, from: nat)
    requires from <= |s|
    ensures Parse(s, from).Some? <==> Starts(AllRefs(s, from)) == AllOpens(s, from)
    ensures Parse(s, from).Some? ==> Names(Parse(s, from).value) == MatchNames(AllRefs(s, from))
    decreases |s| - from
  {
    if from < |s| {
      if !OpenAt(s, from) {
        ScansAgree(s, from + 1);
        AgreeAtLiteral(s, from);
      } else if RefAt(s, from).Some? {
        ScansAgree(s, RefAt(s, from).value.end);
        AgreeAtReference(s, from);
      } else {
        AgreeAtBadOpening(s, from);
      }
    }
  }

  /** The comparison of the two scans, as the code makes it. */
  method References(s: string) returns (names: Option<seq<string>>)
    ensures names.Some? <==> Parse(s, 0).Some?
    ensures names.Some? ==> names.value == Names(Parse(s, 0).value)
  {
    var valid := AllRefs(s, 0);
    var opens := AllOpens(s, 0);
    ScansAgree(s, 0);
    SameStarts(valid, opens);
    if |opens| != |valid| {
      return None;
    }
    var out := [];
    for i := 0 to |valid|
      invariant out == MatchNames(valid[..i])
      invariant forall j :: 0 <= j < i ==> valid[j].start == opens[j]
    {
      if valid[i].start != opens[i] {
        return None;
      }
      MatchNamesSnoc(valid[..i], valid[i]);
      assert valid[..i + 1] == valid[..i] + [valid[i]];
      out := out + [valid[i].name];
    }
    assert valid[..|valid|] == valid;
    return Some(out);
  }

  lemma {:induction false} SameStarts(ms: seq<Match>, opens: seq<nat>)
    ensures Starts(ms) == opens <==> |ms| == |opens| && forall i :: 0 <= i < |ms| ==> ms[i].start == opens[i]
  {
    if ms != [] && opens != [] {
      SameStarts(ms[1..], opens[1..]);
      assert Starts(ms) == opens <==> ms[0].start == opens[0] && Starts(ms[1..]) == opens[1..] by {
        assert opens == [opens[0]] + opens[1..];
        assert Starts(ms)[1..] == Starts(ms[1..]);
      }
      assert forall i :: 0 < i < |ms| ==> ms[i] == ms[1..][i - 1];
      assert forall i :: 0 < i < |opens| ==> opens[i] == opens[1..][i - 1];
    }
  }

  lemma {:induction false} MatchNamesSnoc(ms: seq<Match>, m: Match)
    ensures MatchNames(ms + [m]) == MatchNames(ms) + [m.name]
  {
    if ms == [] {
      assert [m][1..] == [];
    } else {
      MatchNamesSnoc(ms[1..], m);
      assert (ms + [m])[1..] == ms[1..] + [m];
    }
  }

  // Rendering.

  lemma {:induction false} SkipsSpacesTo(s: string, i: nat, j: nat)
    requires i <= j < |s| && !Space(s[j]) && forall q :: i <= q < j ==> Space(s[q])
    ensures SkipSpaces(s, i) == j
    decreases j - i
  {
    if i < j {
      SkipsSpacesTo(s, i + 1, j);
    }
  }

  lemma {:induction false} SkipsNameTo(s: string, i: nat, j: nat)
    requires i <= j < |s| && !NameChar(s[j]) && forall q :: i <= q < j ==> NameChar(s[q])
    ensures SkipName(s, i) == j
    decreases j - i
  {
    if i < j {
      SkipsNameTo(s, i + 1, j);
    }
  }

  /** A reference spelled out: braces, spaces, dot, name, spaces, braces. */
  predicate Spelled(s: string, dot: nat, nameEnd: nat, close: nat) {
    && 2 <= dot < nameEnd <= close && |s| == close + 2
    && s[0] == '{' && s[1] == '{' && s[dot] == '.' && s[close] == '}' && s[close + 1] == '}'
    && dot + 1 < nameEnd && NameStart(s[dot + 1])
    && (forall q :: 2 <= q < dot ==> Space(s[q]))
    && (forall q :: dot < q < nameEnd ==> NameChar(s[q]))
    && (forall q :: nameEnd <= q < close ==> Space(s[q]))
  }

  lemma SpelledMatches(s: string, dot: nat, nameEnd: nat, close: nat)
    requires Spelled(s, dot, nameEnd, close)
    ensures RefAt(s, 0) == Some(Match(0, |s|, s[dot + 1..nameEnd]))
  {
    SkipsSpacesTo(s, 2, dot);
    SkipsNameTo(s, dot + 1, nameEnd);
    SkipsSpacesTo(s, nameEnd, close);
  }

  /** The same within a longer text. */
  predicate SpelledIn(s: string, i: nat, dot: nat, nameEnd: nat, close: nat) {
    && i + 2 <= dot && dot + 1 < nameEnd <= close && close + 2 <= |s|
    && s[i] == '{' && s[i + 1] == '{' && s[dot] == '.' && s[close] == '}' && s[close + 1] == '}'
    && NameStart(s[dot + 1])
    && (forall q :: i + 2 <= q < dot ==> Space(s[q]))
    && (forall q :: dot < q < nameEnd ==> NameChar(s[q]))
    && (forall q :: nameEnd <= q < close ==> Space(s[q]))
  }

  lemma CutOut(s: string, i: nat, dot: nat, nameEnd: nat, close: nat)
    requires SpelledIn(s, i, dot, nameEnd, close)
    ensures Spelled(s[i..close + 2], dot - i, nameEnd - i, close - i)
    ensures s[i..close + 2][dot - i + 1..nameEnd - i] == s[dot + 1..nameEnd]
  {
    var t := s[i..close + 2];
    assert forall q :: 2 <= q < dot - i ==> t[q] == s[i + q];
    assert forall q :: dot - i < q < nameEnd - i ==> t[q] == s[i + q];
    assert forall q :: nameEnd - i <= q < close - i ==> t[q] == s[i + q];
  }

  lemma MatchIsSpelled(s: string, i: nat) returns (dot: nat, nameEnd: nat, close: nat)
    requires RefAt(s, i).Some?
    ensures SpelledIn(s, i, dot, nameEnd, close)
    ensures RefAt(s, i) == Some(Match(i, close + 2, s[dot + 1..nameEnd]))
  {
    dot := SkipSpaces(s, i + 2);
    nameEnd := SkipName(s, dot + 1);
    close := SkipSpaces(s, nameEnd);
  }

  /** The pattern tried again on the matched text alone matches all of it, with the same name. */
  lemma MatchAlone(s: string, i: nat)
    requires RefAt(s, i).Some?
    ensures var m := RefAt(s, i).value; RefAt(s[i..m.end], 0) == Some(Match(0, m.end - i, m.name))
  {
    var dot, nameEnd, close := MatchIsSpelled(s, i);
    CutOutMatches(s, i, dot, nameEnd, close, RefAt(s, i).value);
  }

  lemma CutOutMatches(s: string, i: nat, dot: nat, nameEnd: nat, close: nat, m: Match)
    requires SpelledIn(s, i, dot, nameEnd, close) && m == Match(i, close + 2, s[dot + 1..nameEnd])
    ensures RefAt(s[i..m.end], 0) == Some(Match(0, m.end - i, m.name))
  {
    CutOut(s, i, dot, nameEnd, close);
    SpelledMatches(s[i..close + 2], dot - i, nameEnd - i, close - i);
  }

  type Vars = map<string, string>

  datatype Rendering = Rendering(out: string, missing: seq<string>)

  /** `ReplaceAllStringFunc` with the closure of `Render`, which finds the name again in the matched text. */
  function Substitute(s: string, from: nat, vars: Vars): Rendering
    requires from <= |s|
    decreases |s| - from
  {
    if from == |s| then Rendering("", [])
    else
      match RefAt(s, from)
      case Some(m) =>
        MatchAlone(s, from);
        var name := RefAt(s[from..m.end], 0).value.name;
        var rest := Substitute(s, m.end, vars);
        if name in vars then Rendering(vars[name] + rest.out, rest.missing)
        else Rendering(rest.out, [name] + rest.missing)
      case None =>
        var rest := Substitute(s, from + 1, vars);
        Rendering([s[from]] + rest.out, rest.missing)
  }

  datatype Result = Rendered(text: string) | SyntaxError | MissingVariables(names: seq<string>)

  /** Literals copied, references replaced by their values, in order; a value is never looked at again. */
  function Fill(ps: seq<Piece>, vars: Vars): string
    requires forall n :: n in Names(ps) ==> n in vars
  {
    if ps == [] then ""
    else
      assert forall n :: n in Names(ps[1..]) ==> n in Names(ps);
      (match ps[0]
       case Lit(c) => [c]
       case Var(name, _) =>
         assert name in Names(ps);
         vars[name])
      + Fill(ps[1..], vars)
  }

  function Without(names: seq<string>, vars: Vars): seq<string> {
    if names == [] then [] else (if names[0] in vars then [] else [names[0]]) + Without(names[1..], vars)
  }

  lemma {:induction false} WithoutNone(names: seq<string>, vars: Vars)
    ensures Without(names, vars) == [] <==> forall n :: n in names ==> n in vars
  {
    if names != [] {
      WithoutNone(names[1..], vars);
      assert forall n :: n in names <==> n == names[0] || n in names[1..];
    }
  }

  lemma NamesCons(p: Piece, ps: seq<Piece>)
    ensures Names([p] + ps) == if p.Var? then [p.name] + Names(ps) else Names(ps)
  {
    assert ([p] + ps)[1..] == ps;
    assert [] + Names(ps) == Names(ps);
  }

  lemma FillCons(p: Piece, ps: seq<Piece>, vars: Vars)
    requires forall n :: n in Names([p] + ps) ==> n in vars
    ensures forall n :: n in Names(ps) ==> n in vars
    ensures p.Var? ==> p.name in vars
    ensures Fill([p] + ps, vars) == (if p.Var? then vars[p.name] else [p.c]) + Fill(ps, vars)
  {
    NamesCons(p, ps);
    assert ([p] + ps)[1..] == ps;
    assert p.Var? ==> p.name in Names([p] + ps);
    assert forall n :: n in Names(ps) ==> n in Names([p] + ps);
  }

  ghost predicate Fills(r: Rendering, ps: seq<Piece>, vars: Vars) {
    && r.missing == Without(Names(ps), vars)
    && ((forall n :: n in Names(ps) ==> n in vars) ==> r.out == Fill(ps, vars))
  }

  lemma FillsLit(c: char, r: Rendering, ps: seq<Piece>, vars: Vars)
    requires Fills(r, ps, vars)
    ensures Fills(Rendering([c] + r.out, r.missing), [Lit(c)] + ps, vars)
  {
    NamesCons(Lit(c), ps);
    if forall n :: n in Names(ps) ==> n in vars {
      FillCons(Lit(c), ps, vars);
    }
  }

  lemma FillsVar(name: string, source: string, r: Rendering, ps: seq<Piece>, vars: Vars)
    requires Fills(r, ps, vars)
    ensures Fills(if name in vars then Rendering(vars[name] + r.out, r.missing) else Rendering(r.out, [name] + r.missing),
                  [Var(name, source)] + ps, vars)
  {
    var p := Var(name, source);
    NamesCons(p, ps);
    assert ([name] + Names(ps))[1..] == Names(ps);
    if forall n :: n in Names([p] + ps) ==> n in vars {
      FillCons(p, ps, vars);
    } else if name !in vars {
      assert name in Names([p] + ps);
    }
  }

  lemma {:induction false} SubstituteFills(s: string, from: nat, vars: Vars)
    requires from <= |s| && Parse(s, from).Some?
    ensures Fills(Substitute(s, from, vars), Parse(s, from).value, vars)
    decreases |s| - from
  {
    if from < |s| {
      if OpenAt(s, from) {
        var m := RefAt(s, from).value;
        SubstituteFills(s, m.end, vars);
        MatchAlone(s, from);
        FillsVar(m.name, s[from..m.end], Substitute(s, m.end, vars), Parse(s, m.end).value, vars);
      } else {
        SubstituteFills(s, from + 1, vars);
        FillsLit(s[from], Substitute(s, from + 1, vars), Parse(s, from + 1).value, vars);
      }
    }
  }

  method Render(s: string, vars: Vars) returns (r: Result)
    ensures r.SyntaxError? <==> Parse(s, 0).None?
    ensures Parse(s, 0).Some? ==>
              var names := Names(Parse(s, 0).value);
              if forall n :: n in names ==> n in vars then r == Rendered(Fill(Parse(s, 0).value, vars))
              else r == MissingVariables(Without(names, vars)) && r.names != []
  {
    var refs := References(s);
    if refs.None? {
      return SyntaxError;
    }
    SubstituteFills(s, 0, vars);
    WithoutNone(Names(Parse(s, 0).value), vars);
    var out := Substitute(s, 0, vars);
    if out.missing != [] {
      return MissingVariables(out.missing);
    }
    return Rendered(out.out);
  }

  /** A text that is one reference renders to the value itself, be it a template in its looks. */
  lemma ValueVerbatim(s: string, dot: nat, nameEnd: nat, close: nat, vars: Vars)
    requires Spelled(s, dot, nameEnd, close) && s[dot + 1..nameEnd] in vars
    ensures Parse(s, 0) == Some([Var(s[dot + 1..nameEnd], s)])
    ensures Substitute(s, 0, vars) == Rendering(vars[s[dot + 1..nameEnd]], [])
  {
    SpelledMatches(s, dot, nameEnd, close);
    assert s[0..|s|] == s;
    assert Parse(s, |s|) == Some([]);
    assert [Var(s[dot + 1..nameEnd], s)] + [] == [Var(s[dot + 1..nameEnd], s)];
    MatchAlone(s, 0);
  }
}
