/** `Quote` and the command lines built with it, against the shell that reads them. */
module Quoting {
  import opened Options
  import opened Shell
  import opened Ordering

  /** strings.ReplaceAll of each quote by the sequence that closes, escapes and reopens. */
  function Escaped(s: string): string {
    if s == "" then ""
    else (if s[0] == '\'' then "'\\''" else [s[0]]) + Escaped(s[1..])
  }

  /** `Quote`: one shell word. */
  function Quote(s: string): string {
    "'" + Escaped(s) + "'"
  }

  lemma {:induction false} FeedEscaped(tokens: seq<Token>, w: Word, s: string)
    ensures Feed(Lexer(tokens, Single, w), Escaped(s)) == Lexer(tokens, Single, w + Quoted(s))
    decreases |s|
  {
    var l := Lexer(tokens, Single, w);
    if s == "" {
      assert w + Quoted(s) == w;
    } else {
      var head := if s[0] == '\'' then "'\\''" else [s[0]];
      FeedConcat(l, head, Escaped(s[1..]));
      FeedHead(l, s[0]);
      FeedEscaped(tokens, w + [QChar(s[0], true)], s[1..]);
      assert w + Quoted(s) == (w + [QChar(s[0], true)]) + Quoted(s[1..]);
    }
  }

  /** Inside single quotes, one character of the text in its escaped form. */
  lemma FeedHead(l: Lexer, c: char)
    requires l.mode == Single
    ensures Feed(l, if c == '\'' then "'\\''" else [c]) == l.(word := l.word + [QChar(c, true)])
  {
    if c == '\'' {
      var a, b := Step(l, '\''), Step(Step(l, '\''), '\\');
      FeedConcat(l, "'", "\\''");
      FeedConcat(a, "\\", "''");
      FeedConcat(b, "'", "'");
      FeedOne(l, '\'');
      FeedOne(a, '\\');
      FeedOne(b, '\'');
      FeedOne(Step(b, '\''), '\'');
      assert "'\\''" == "'" + "\\''" && "\\''" == "\\" + "''" && "''" == "'" + "'";
    } else {
      FeedOne(l, c);
    }
  }

  /** Read anywhere outside quotes, at the start of a word or within one, `Quote(s)` adds exactly the
      characters of `s` to that word, all of them quoted, and leaves the reader where it was. */
  lemma FeedQuote(tokens: seq<Token>, mode: Mode, w: Word, s: string)
    requires mode == Between || mode == Bare
    ensures Feed(Lexer(tokens, mode, w), Quote(s)) == Lexer(tokens, Bare, w + Quoted(s))
  {
    var l := Lexer(tokens, mode, w);
    FeedConcat(l, "'" + Escaped(s), "'");
    FeedConcat(l, "'", Escaped(s));
    FeedOne(l, '\'');
    FeedEscaped(tokens, w, s);
    FeedOne(Lexer(tokens, Single, w + Quoted(s)), '\'');
  }

  /** On its own, `Quote(s)` is one word, and the command that gets it gets `s`. */
  lemma QuoteIsOneWord(s: string)
    ensures Read(Quote(s)) == Some([W(Quoted(s))])
    ensures Plain(Quoted(s)) == s
  {
    FeedQuote([], Between, [], s);
    assert [] + Quoted(s) == Quoted(s);
    assert [] + [W(Quoted(s))] == [W(Quoted(s))];
  }

  // Remote

  datatype Kind = Command | Script | Copy

  datatype Action = Action(
    kind: Kind, content: bool, shell: string, dest: string, mode: string, sudo: bool, fireAndForget: bool)

  /** sudo is never left to prompt: it gets the password on its input, or must do without one. */
  function Wrap(sudo: bool, password: bool, cmd: string): string {
    if !sudo then cmd else SudoPrefix(password) + Quote(cmd)
  }

  function SudoPrefix(password: bool): string {
    if password then "sudo -k -S -p '' -- sh -c " else "sudo -n -- sh -c "
  }

  function Cleanup(cmd: string, tmp: string): string {
    cmd + "; rc=$?; rm -f " + Quote(tmp) + "; exit $rc"
  }

  function CopyCommand(dest: string, mode: string, tmp: string): string {
    Around("p=$(mktemp \"$(dirname ", Quote(dest), CopyMiddle(mode, tmp), " || { rm -f \"$p\"; false; }; }")
  }

  function CopyMiddle(mode: string, tmp: string): string {
    ")/.rco-tmp.XXXXXX\") && { cp " + Quote(tmp) + " \"$p\" && chmod " + mode + " \"$p\" && mv -f \"$p\" "
  }

  /** A word in two places. */
  function Around(head: string, word: string, middle: string, tail: string): string {
    head + word + middle + word + tail
  }

  /** `Action.Remote`: what is sent, around the command that is to run. */
  function Remote(a: Action, tmp: string, password: bool): string {
    if a.kind == Script then Cleanup(Wrap(a.sudo, password, Inner(a, tmp)), tmp)
    else if a.kind == Command && a.content then Cleanup(Wrap(a.sudo, password, Inner(a, tmp)), tmp)
    else if a.fireAndForget then Wrap(a.sudo, password, Inner(a, tmp))
    else if a.kind == Copy then Cleanup(Wrap(a.sudo, password, Inner(a, tmp)), tmp)
    else Wrap(a.sudo, password, Inner(a, tmp))
  }

  function Inner(a: Action, tmp: string): string {
    if a.kind == Script then "bash " + Quote(tmp)
    else if a.kind == Command && a.content then "sh " + Quote(tmp)
    else if a.fireAndForget then "(trap '' HUP; " + a.shell + ") </dev/null >/dev/null 2>&1 &"
    else if a.kind == Copy then CopyCommand(a.dest, a.mode, tmp)
    else a.shell
  }

  const SUDO_N := ["sudo", "-n", "--", "sh", "-c"]
  const SUDO_S := ["sudo", "-k", "-S", "-p"]
  const SH_C := ["--", "sh", "-c"]

  /** The arguments of sudo, up to the command for `sh -c`. */
  function SudoWords(password: bool): seq<Token> {
    if password then Words(SUDO_S) + [W(Quoted(""))] + Words(SH_C) else Words(SUDO_N)
  }

  lemma SayCons(word: string, rest: seq<string>)
    ensures Say([word] + rest) == word + " " + Say(rest)
  {
    assert ([word] + rest)[1..] == rest;
  }

  lemma SudoNText()
    ensures Say(SUDO_N) == "sudo -n -- sh -c "
  {
    ShCWords();
    SayMore("-n", SH_C, "-- sh -c ");
    SayMore("sudo", ["-n"] + SH_C, "-n -- sh -c ");
    assert SUDO_N == ["sudo"] + (["-n"] + SH_C);
  }

  lemma SayMore(word: string, rest: seq<string>, said: string)
    requires Say(rest) == said
    ensures Say([word] + rest) == word + " " + said
  {
    SayCons(word, rest);
  }

  lemma SudoSText()
    ensures SudoPrefix(true) == Say(SUDO_S) + (Quote("") + " " + Say(SH_C))
  {
    SudoSWords();
    ShCWords();
    assert SudoPrefix(true) == "sudo -k -S -p " + (Quote("") + " " + "-- sh -c ");
  }

  lemma SudoSWords()
    ensures Say(SUDO_S) == "sudo -k -S -p "
  {
    SayMore("-p", [], "");
    SayMore("-S", ["-p"] + [], "-p ");
    SayMore("-k", ["-S"] + (["-p"] + []), "-S -p ");
    SayMore("sudo", ["-k"] + (["-S"] + (["-p"] + [])), "-k -S -p ");
    assert SUDO_S == ["sudo"] + (["-k"] + (["-S"] + (["-p"] + [])));
  }

  lemma ShCWords()
    ensures Say(SH_C) == "-- sh -c "
  {
    SayMore("-c", [], "");
    SayMore("sh", ["-c"] + [], "-c ");
    SayMore("--", ["sh"] + (["-c"] + []), "sh -c ");
    assert SH_C == ["--"] + (["sh"] + (["-c"] + []));
  }

  /** One more blank-terminated word, given by its quoted form. */
  lemma FeedQuotedWord(tokens: seq<Token>, s: string, rest: string)
    ensures Feed(Lexer(tokens, Between, []), Quote(s) + " " + rest)
            == Feed(Lexer(tokens + [W(Quoted(s))], Between, []), rest)
  {
    var l := Lexer(tokens, Between, []);
    FeedConcat(l, Quote(s) + " ", rest);
    FeedConcat(l, Quote(s), " ");
    FeedQuote(tokens, Between, [], s);
    assert [] + Quoted(s) == Quoted(s);
    FeedOne(Lexer(tokens, Bare, Quoted(s)), ' ');
  }

  /** The words before the command, as the shell reads them. */
  lemma FeedSudo(tokens: seq<Token>, password: bool)
    ensures Feed(Lexer(tokens, Between, []), SudoPrefix(password)) == Lexer(tokens + SudoWords(password), Between, [])
  {
    if password {
      FeedSudoS(tokens);
    } else {
      FeedSudoN(tokens);
    }
  }

  /** Plain words, a quoted one, plain words. */
  lemma FeedAround(tokens: seq<Token>, before: seq<string>, mid: string, after: seq<string>)
    requires forall i :: 0 <= i < |before| ==> PlainWord(before[i])
    requires forall i :: 0 <= i < |after| ==> PlainWord(after[i])
    ensures Feed(Lexer(tokens, Between, []), Say(before) + (Quote(mid) + " " + Say(after)))
            == Lexer(tokens + Words(before) + [W(Quoted(mid))] + Words(after), Between, [])
  {
    FeedConcat(Lexer(tokens, Between, []), Say(before), Quote(mid) + " " + Say(after));
    FeedSay(tokens, before);
    FeedQuotedWord(tokens + Words(before), mid, Say(after));
    FeedSay(tokens + Words(before) + [W(Quoted(mid))], after);
  }

  /** Plain words, the last not yet ended. */
  lemma FeedSayLast(tokens: seq<Token>, words: seq<string>, last: string)
    requires PlainWord(last) && forall i :: 0 <= i < |words| ==> PlainWord(words[i])
    ensures Feed(Lexer(tokens, Between, []), Say(words) + last) == Lexer(tokens + Words(words), Bare, Unquoted(last))
  {
    FeedConcat(Lexer(tokens, Between, []), Say(words), last);
    FeedSay(tokens, words);
    FeedWord(tokens + Words(words), last);
  }

  lemma SudoIsPlain()
    ensures forall i :: 0 <= i < |SUDO_N| ==> PlainWord(SUDO_N[i])
    ensures forall i :: 0 <= i < |SUDO_S| ==> PlainWord(SUDO_S[i])
    ensures forall i :: 0 <= i < |SH_C| ==> PlainWord(SH_C[i])
  {
  }

  lemma FeedSudoN(tokens: seq<Token>)
    ensures Feed(Lexer(tokens, Between, []), SudoPrefix(false)) == Lexer(tokens + SudoWords(false), Between, [])
  {
    SudoNText();
    SudoIsPlain();
    FeedSay(tokens, SUDO_N);
  }

  lemma FeedSudoS(tokens: seq<Token>)
    ensures Feed(Lexer(tokens, Between, []), SudoPrefix(true)) == Lexer(tokens + SudoWords(true), Between, [])
  {
    SudoSText();
    SudoIsPlain();
    FeedAround(tokens, SUDO_S, "", SH_C);
    assert tokens + Words(SUDO_S) + [W(Quoted(""))] + Words(SH_C) == tokens + SudoWords(true);
  }

  /** However quotes nest in it, the command behind sudo reaches `sh -c` as one argument, unchanged. */
  lemma FeedWrapped(tokens: seq<Token>, password: bool, cmd: string)
    ensures Feed(Lexer(tokens, Between, []), Wrap(true, password, cmd))
            == Lexer(tokens + SudoWords(password), Bare, Quoted(cmd))
  {
    FeedConcat(Lexer(tokens, Between, []), SudoPrefix(password), Quote(cmd));
    FeedSudo(tokens, password);
    FeedQuote(tokens + SudoWords(password), Between, [], cmd);
    assert [] + Quoted(cmd) == Quoted(cmd);
  }

  // The whole line.

  /** What the shell makes of the clean-up after a command. */
  function CleanupTokens(tmp: string): seq<Token> {
    [Op(';'), W(Unquoted("rc=$?")), Op(';'), W(Unquoted("rm")), W(Unquoted("-f")), W(Quoted(tmp)),
     Op(';'), W(Unquoted("exit")), W(Unquoted("$rc"))]
  }

  /** A `; ` ends the word in hand. */
  lemma FeedSemicolon(tokens: seq<Token>, w: Word, rest: string)
    ensures Feed(Lexer(tokens, Bare, w), "; " + rest) == Feed(Lexer(tokens + [W(w), Op(';')], Between, []), rest)
  {
    var l := Lexer(tokens, Bare, w);
    FeedConcat(l, "; ", rest);
    FeedConcat(l, ";", " ");
    FeedOne(l, ';');
    FeedOne(Step(l, ';'), ' ');
    assert "; " == ";" + " ";
    assert tokens + [W(w)] + [Op(';')] == tokens + [W(w), Op(';')];
  }

  /** `; a; w1 w2 ... 'tmp'; e1 ... last` after a word. */
  lemma FeedTail(tokens: seq<Token>, w: Word, a: string, ws: seq<string>, tmp: string, es: seq<string>, last: string)
    requires PlainWord(a) && PlainWord(last)
    requires forall i :: 0 <= i < |ws| ==> PlainWord(ws[i])
    requires forall i :: 0 <= i < |es| ==> PlainWord(es[i])
    ensures Feed(Lexer(tokens, Bare, w), "; " + (a + ("; " + (Say(ws) + (Quote(tmp) + ("; " + (Say(es) + last)))))))
            == Lexer(tokens + [W(w), Op(';')] + [W(Unquoted(a)), Op(';')] + Words(ws) + [W(Quoted(tmp)), Op(';')] + Words(es),
                     Bare, Unquoted(last))
  {
    var end := "; " + (Say(es) + last);
    var remove := Say(ws) + (Quote(tmp) + end);
    var t1 := tokens + [W(w), Op(';')];
    var t2 := t1 + [W(Unquoted(a)), Op(';')];
    var t3 := t2 + Words(ws);
    FeedSemicolon(tokens, w, a + ("; " + remove));
    FeedConcat(Lexer(t1, Between, []), a, "; " + remove);
    FeedWord(t1, a);
    FeedSemicolon(t1, Unquoted(a), remove);
    FeedConcat(Lexer(t2, Between, []), Say(ws), Quote(tmp) + end);
    FeedSay(t2, ws);
    FeedConcat(Lexer(t3, Between, []), Quote(tmp), end);
    FeedQuote(t3, Between, [], tmp);
    assert [] + Quoted(tmp) == Quoted(tmp);
    FeedSemicolon(t3, Quoted(tmp), Say(es) + last);
    FeedSayLast(t3 + [W(Quoted(tmp)), Op(';')], es, last);
  }

  lemma FeedCleanup(tokens: seq<Token>, w: Word, tmp: string)
    ensures Flush(Feed(Lexer(tokens, Bare, w), "; rc=$?; rm -f " + Quote(tmp) + "; exit $rc"))
            == tokens + [W(w)] + CleanupTokens(tmp)
    ensures Feed(Lexer(tokens, Bare, w), "; rc=$?; rm -f " + Quote(tmp) + "; exit $rc").mode == Bare
  {
    CleanupText(tmp);
    FeedTail(tokens, w, "rc=$?", ["rm", "-f"], tmp, ["exit"], "$rc");
    TokensOfCleanup(tokens, w, tmp);
  }

  lemma TokensOfCleanup(tokens: seq<Token>, w: Word, tmp: string)
    ensures tokens + [W(w), Op(';')] + [W(Unquoted("rc=$?")), Op(';')] + Words(["rm", "-f"]) + [W(Quoted(tmp)), Op(';')]
            + Words(["exit"]) + [W(Unquoted("$rc"))]
            == tokens + [W(w)] + CleanupTokens(tmp)
  {
    assert Words(["rm", "-f"]) == [W(Unquoted("rm")), W(Unquoted("-f"))];
    assert Words(["exit"]) == [W(Unquoted("exit"))];
  }

  lemma CleanupText(tmp: string)
    ensures "; rc=$?; rm -f " + Quote(tmp) + "; exit $rc"
            == "; " + ("rc=$?" + ("; " + (Say(["rm", "-f"]) + (Quote(tmp) + ("; " + (Say(["exit"]) + "$rc"))))))
  {
    SayCons("-f", []);
    SayCons("rm", ["-f"]);
    SayCons("exit", []);
    assert Say(["rm", "-f"]) == "rm -f " && Say(["exit"]) == "exit ";
  }

  predicate CleansUp(a: Action) {
    a.kind == Script || (a.kind == Command && a.content) || (a.kind == Copy && !a.fireAndForget)
  }

  lemma WrappedRead(password: bool, cmd: string)
    ensures Read(Wrap(true, password, cmd)) == Some(SudoWords(password) + [W(Quoted(cmd))])
  {
    FeedWrapped([], password, cmd);
    assert [] + SudoWords(password) == SudoWords(password);
  }

  /** Any command line with the clean-up behind it. */
  lemma CleanupRead(line: string, tokens: seq<Token>, w: Word, tmp: string)
    requires Feed(START, line) == Lexer(tokens, Bare, w)
    ensures Read(Cleanup(line, tmp)) == Some(tokens + [W(w)] + CleanupTokens(tmp))
  {
    var tail := "; rc=$?; rm -f " + Quote(tmp) + "; exit $rc";
    FeedConcat(START, line, tail);
    FeedCleanup(tokens, w, tmp);
    assert Cleanup(line, tmp) == line + tail;
  }

  lemma CleanedRead(password: bool, cmd: string, tmp: string)
    ensures Read(Cleanup(Wrap(true, password, cmd), tmp))
            == Some(SudoWords(password) + [W(Quoted(cmd))] + CleanupTokens(tmp))
  {
    FeedWrapped([], password, cmd);
    assert [] + SudoWords(password) == SudoWords(password);
    CleanupRead(Wrap(true, password, cmd), SudoWords(password), Quoted(cmd), tmp);
  }

  /** Every line sent under sudo, whatever its command: the shell hands that command to `sh -c` unchanged, and
      then removes the uploaded file. */
  lemma SudoLineRead(a: Action, tmp: string, password: bool)
    requires a.sudo
    ensures Read(Remote(a, tmp, password))
            == Some(SudoWords(password) + [W(Quoted(Inner(a, tmp)))] + if CleansUp(a) then CleanupTokens(tmp) else [])
    ensures Plain(Quoted(Inner(a, tmp))) == Inner(a, tmp)
  {
    var cmd := Inner(a, tmp);
    if CleansUp(a) {
      CleanedRead(password, cmd, tmp);
      assert Remote(a, tmp, password) == Cleanup(Wrap(true, password, cmd), tmp);
    } else {
      WrappedRead(password, cmd);
      assert Remote(a, tmp, password) == Wrap(true, password, cmd);
      assert SudoWords(password) + [W(Quoted(cmd))] + [] == SudoWords(password) + [W(Quoted(cmd))];
    }
  }

  /** The command of an uploaded script or sensitive command: the interpreter and, as one argument, the file. */
  lemma FileCommandRead(a: Action, tmp: string)
    requires a.kind == Script || (a.kind == Command && a.content)
    ensures Read(Inner(a, tmp)) == Some([W(Unquoted(Interpreter(a)))] + [W(Quoted(tmp))])
  {
    FeedFileCommand(Interpreter(a), tmp);
    assert Inner(a, tmp) == Interpreter(a) + " " + Quote(tmp);
  }

  function Interpreter(a: Action): string {
    if a.kind == Script then "bash" else "sh"
  }

  lemma FeedFileCommand(name: string, tmp: string)
    requires PlainWord(name)
    ensures Feed(START, name + " " + Quote(tmp)) == Lexer([W(Unquoted(name))], Bare, Quoted(tmp))
  {
    SayCons(name, []);
    assert Say([name]) == name + " ";
    FeedConcat(START, Say([name]), Quote(tmp));
    FeedSay([], [name]);
    assert [] + Words([name]) == [W(Unquoted(name))];
    FeedQuote([W(Unquoted(name))], Between, [], tmp);
    assert [] + Quoted(tmp) == Quoted(tmp);
  }

  /** The same without sudo. */
  lemma FileLineRead(a: Action, tmp: string, password: bool)
    requires !a.sudo && (a.kind == Script || (a.kind == Command && a.content))
    ensures Read(Remote(a, tmp, password))
            == Some([W(Unquoted(Interpreter(a)))] + [W(Quoted(tmp))] + CleanupTokens(tmp))
  {
    var name := Interpreter(a);
    FileLine(a, tmp, password);
    FeedFileCommand(name, tmp);
    CleanupRead(name + " " + Quote(tmp), [W(Unquoted(name))], Quoted(tmp), tmp);
  }

  lemma FileLine(a: Action, tmp: string, password: bool)
    requires !a.sudo && (a.kind == Script || (a.kind == Command && a.content))
    ensures Remote(a, tmp, password) == Cleanup(Interpreter(a) + " " + Quote(tmp), tmp)
    ensures PlainWord(Interpreter(a))
  {
    assert "bash" + " " == "bash " && "sh" + " " == "sh ";
    assert Inner(a, tmp) == Interpreter(a) + " " + Quote(tmp);
    assert Remote(a, tmp, password) == Cleanup(Inner(a, tmp), tmp);
  }

  // What a line gives away.

  lemma {:induction false} EscapedTells(s: string, t: string)
    requires Escaped(s) == Escaped(t)
    ensures s == t
    decreases |s|
  {
    if s != "" && t != "" {
      var a := if s[0] == '\'' then "'\\''" else [s[0]];
      var b := if t[0] == '\'' then "'\\''" else [t[0]];
      assert Escaped(s)[0] == a[0] && Escaped(t)[0] == b[0];
      assert a == b;
      assert Escaped(s[1..]) == Escaped(s)[|a|..] == Escaped(t)[|b|..] == Escaped(t[1..]);
      EscapedTells(s[1..], t[1..]);
      assert s == [s[0]] + s[1..] && t == [t[0]] + t[1..];
    }
  }

  lemma QuoteTells(s: string, t: string)
    requires Quote(s) == Quote(t)
    ensures s == t
  {
    assert Escaped(s) == Quote(s)[1..|Quote(s)| - 1] == Quote(t)[1..|Quote(t)| - 1] == Escaped(t);
    EscapedTells(s, t);
  }

  lemma AroundTells(a: string, x: string, y: string, m: string, z: string)
    requires Around(a, x, m, z) == Around(a, y, m, z)
    ensures x == y
  {
    assert |x| == |y|;
    assert x == Around(a, x, m, z)[|a|..|a| + |x|] && y == Around(a, y, m, z)[|a|..|a| + |y|];
  }

  lemma CopyTells(d: string, e: string, mode: string, tmp: string)
    requires CopyCommand(d, mode, tmp) == CopyCommand(e, mode, tmp)
    ensures d == e
  {
    AroundTells("p=$(mktemp \"$(dirname ", Quote(d), Quote(e), CopyMiddle(mode, tmp), " || { rm -f \"$p\"; false; }; }");
    QuoteTells(d, e);
  }

  lemma CleanupTells(c: string, d: string, tmp: string)
    requires Cleanup(c, tmp) == Cleanup(d, tmp)
    ensures c == d
  {
    var end := "; rc=$?; rm -f " + Quote(tmp) + "; exit $rc";
    assert Cleanup(c, tmp) == c + end && Cleanup(d, tmp) == d + end;
    assert |c| == |d|;
    assert c == (c + end)[..|c|] && d == (d + end)[..|d|];
  }

  lemma WrapTells(sudo: bool, password: bool, c: string, d: string)
    requires Wrap(sudo, password, c) == Wrap(sudo, password, d)
    ensures c == d
  {
    if sudo {
      var head := SudoPrefix(password);
      assert Quote(c) == (head + Quote(c))[|head|..] && Quote(d) == (head + Quote(d))[|head|..];
      QuoteTells(c, d);
    }
  }

  /** The line of a copy step tells its destination, under sudo or not. */
  lemma CopyLineTells(a: Action, b: Action, tmp: string, password: bool)
    requires a.kind == Copy && !a.fireAndForget && b == a.(dest := b.dest)
    requires Remote(a, tmp, password) == Remote(b, tmp, password)
    ensures a.dest == b.dest
  {
    var x, y := CopyCommand(a.dest, a.mode, tmp), CopyCommand(b.dest, a.mode, tmp);
    CleanupTells(Wrap(a.sudo, password, x), Wrap(a.sudo, password, y), tmp);
    WrapTells(a.sudo, password, x, y);
    CopyTells(a.dest, b.dest, a.mode, tmp);
  }

  // exports

  /** One line per variable at the top of a script. */
  function ExportLine(name: string, value: string): string {
    "export " + (name + ("=" + (Quote(value) + "\n")))
  }

  function ExportTokens(name: string, value: string): seq<Token> {
    [W(Unquoted("export")), W(Unquoted(name + "=") + Quoted(value)), Op('\n')]
  }

  function ExportLines(names: seq<string>, vars: map<string, string>): string
    requires forall n :: n in names ==> n in vars
  {
    if names == [] then "" else ExportLine(names[0], vars[names[0]]) + ExportLines(names[1..], vars)
  }

  function ExportsTokens(names: seq<string>, vars: map<string, string>): seq<Token>
    requires forall n :: n in names ==> n in vars
  {
    if names == [] then [] else ExportTokens(names[0], vars[names[0]]) + ExportsTokens(names[1..], vars)
  }

  lemma FeedExport(tokens: seq<Token>, name: string, value: string)
    requires PlainWord(name + "=")
    ensures Feed(Lexer(tokens, Between, []), ExportLine(name, value))
            == Lexer(tokens + ExportTokens(name, value), Between, [])
  {
    var t := tokens + [W(Unquoted("export"))];
    FeedExportWord(tokens, name + ("=" + (Quote(value) + "\n")));
    FeedOperand(t, name, value);
    assert t + [W(Unquoted(name + "=") + Quoted(value)), Op('\n')] == tokens + ExportTokens(name, value);
  }

  /** `name='value'` at the end of a line. */
  lemma FeedOperand(t: seq<Token>, name: string, value: string)
    requires PlainWord(name + "=")
    ensures Feed(Lexer(t, Between, []), name + ("=" + (Quote(value) + "\n")))
            == Lexer(t + [W(Unquoted(name + "=") + Quoted(value)), Op('\n')], Between, [])
  {
    assert name + ("=" + (Quote(value) + "\n")) == (name + "=") + (Quote(value) + "\n");
    FeedConcat(Lexer(t, Between, []), name + "=", Quote(value) + "\n");
    FeedWord(t, name + "=");
    FeedConcat(Lexer(t, Bare, Unquoted(name + "=")), Quote(value), "\n");
    FeedQuote(t, Bare, Unquoted(name + "="), value);
    FeedOne(Lexer(t, Bare, Unquoted(name + "=") + Quoted(value)), '\n');
    assert t + [W(Unquoted(name + "=") + Quoted(value))] + [Op('\n')] == t + [W(Unquoted(name + "=") + Quoted(value)), Op('\n')];
  }

  lemma FeedPlainThen(tokens: seq<Token>, word: string, rest: string)
    requires PlainWord(word)
    ensures Feed(Lexer(tokens, Between, []), word + " " + rest)
            == Feed(Lexer(tokens + [W(Unquoted(word))], Between, []), rest)
  {
    var l := Lexer(tokens, Between, []);
    FeedConcat(l, word + " ", rest);
    FeedConcat(l, word, " ");
    FeedWord(tokens, word);
    FeedOne(Lexer(tokens, Bare, Unquoted(word)), ' ');
  }

  lemma FeedExportWord(tokens: seq<Token>, rest: string)
    ensures Feed(Lexer(tokens, Between, []), "export " + rest)
            == Feed(Lexer(tokens + [W(Unquoted("export"))], Between, []), rest)
  {
    assert "export " == "export" + " ";
    FeedPlainThen(tokens, "export", rest);
  }

  lemma FeedExportAnd(tokens: seq<Token>, name: string, value: string, rest: string)
    requires Identifier(name)
    ensures Feed(Lexer(tokens, Between, []), ExportLine(name, value) + rest)
            == Feed(Lexer(tokens + ExportTokens(name, value), Between, []), rest)
  {
    FeedConcat(Lexer(tokens, Between, []), ExportLine(name, value), rest);
    IdentifierIsWord(name);
    FeedExport(tokens, name, value);
  }

  lemma {:induction false} FeedExports(tokens: seq<Token>, names: seq<string>, vars: map<string, string>)
    requires forall n :: n in names ==> n in vars && Identifier(n)
    ensures Feed(Lexer(tokens, Between, []), ExportLines(names, vars))
            == Lexer(tokens + ExportsTokens(names, vars), Between, [])
    decreases |names|
  {
    if names == [] {
      assert tokens + ExportsTokens(names, vars) == tokens;
    } else {
      var first := ExportTokens(names[0], vars[names[0]]);
      assert names[0] in names;
      FeedExportAnd(tokens, names[0], vars[names[0]], ExportLines(names[1..], vars));
      FeedExports(tokens + first, names[1..], vars);
      assert tokens + ExportsTokens(names, vars) == (tokens + first) + ExportsTokens(names[1..], vars);
    }
  }

  // What the script finds in its environment.

  /** A name in the sense of the shell, which `export` refuses anything else for. */
  predicate Identifier(name: string) {
    name != "" && !('0' <= name[0] <= '9') && forall i :: 0 <= i < |name| ==> IdentifierChar(name[i])
  }

  predicate IdentifierChar(c: char) {
    'A' <= c <= 'Z' || 'a' <= c <= 'z' || '0' <= c <= '9' || c == '_'
  }

  /** Unquoted, these make the shell put something else in place of the word. */
  predicate Expands(c: char) {
    c == '$' || c == '`' || c == '*' || c == '?' || c == '[' || c == '~' || c == '{'
  }

  predicate Literal(w: Word) {
    forall i :: 0 <= i < |w| ==> w[i].quoted || !Expands(w[i].c)
  }

  /** Where the first `=` is, or the length. */
  function EqualsIn(s: string): (i: nat)
    ensures i <= |s| && '=' !in s[..i]
    ensures i < |s| ==> s[i] == '='
  {
    if s == "" || s[0] == '=' then 0
    else
      var i := 1 + EqualsIn(s[1..]);
      assert s[..i] == [s[0]] + s[1..][..i - 1];
      i
  }

  /** What one operand of `export` sets. None: the shell refuses it, or what it sets is not in the text. */
  function Operand(w: Word): Option<map<string, string>> {
    var text := Plain(w);
    var i := EqualsIn(text);
    if !Literal(w) || !Identifier(text[..i]) then None
    else if i == |text| then Some(map[])
    else Some(map[text[..i] := text[i + 1..]])
  }

  /** The variables that lines of `export` and its operands set, later ones over earlier ones. None: some line is
      something else, or is refused, which ends a script. */
  function Environment(tokens: seq<Token>, first: bool): Option<map<string, string>> {
    if tokens == [] then Some(map[])
    else
      match tokens[0]
      case Op(c) => if c == '\n' then Environment(tokens[1..], true) else None
      case W(w) =>
        if first then if w == Unquoted("export") then Environment(tokens[1..], false) else None
        else
          var here, rest := Operand(w), Environment(tokens[1..], false);
          if here.Some? && rest.Some? then Some(here.value + rest.value) else None
  }

  /** What a script that begins with this text finds in its environment. */
  function ReadBack(text: string): Option<map<string, string>> {
    if Read(text).Some? then Environment(Read(text).value, true) else None
  }

  lemma {:induction false} OnlyIdentifiersAreSet(tokens: seq<Token>, first: bool)
    requires Environment(tokens, first).Some?
    ensures forall n :: n in Environment(tokens, first).value ==> Identifier(n)
  {
    if tokens != [] {
      match tokens[0]
      case Op(_) => OnlyIdentifiersAreSet(tokens[1..], true);
      case W(_) => OnlyIdentifiersAreSet(tokens[1..], false);
    }
  }

  lemma IdentifierIsWord(name: string)
    requires Identifier(name)
    ensures PlainWord(name + "=")
  {
    var w := name + "=";
    forall i | 0 <= i < |w|
      ensures Ordinary(w[i])
    {
      assert i < |name| ==> IdentifierChar(name[i]);
    }
    assert IdentifierChar(name[0]);
  }

  lemma {:induction false} EqualsAfter(name: string, rest: string)
    requires '=' !in name
    ensures EqualsIn(name + "=" + rest) == |name|
  {
    var s := name + "=" + rest;
    if name != "" {
      EqualsAfter(name[1..], rest);
      assert s[1..] == name[1..] + "=" + rest;
      assert s[0] == name[0] && name[0] in name;
    }
  }

  /** The word of an export line, taken as an operand. */
  lemma OperandOfExport(name: string, value: string)
    requires Identifier(name)
    ensures Operand(Unquoted(name + "=") + Quoted(value)) == Some(map[name := value])
  {
    var w, text := Unquoted(name + "=") + Quoted(value), name + "=" + value;
    assert Plain(w) == text;
    assert forall i :: 0 <= i < |name| ==> IdentifierChar(name[i]);
    EqualsAfter(name, value);
    assert text[..|name|] == name && text[|name| + 1..] == value;
    forall i | 0 <= i < |w|
      ensures w[i].quoted || !Expands(w[i].c)
    {
      assert i < |name| ==> w[i] == QChar(name[i], false);
    }
  }

  /** The settings of an operand, under those of the rest. */
  function Set(here: Option<map<string, string>>, rest: Option<map<string, string>>): Option<map<string, string>> {
    if here.Some? && rest.Some? then Some(here.value + rest.value) else None
  }

  lemma ExportFirst(rest: seq<Token>)
    ensures Environment([W(Unquoted("export"))] + rest, true) == Environment(rest, false)
  {
    assert ([W(Unquoted("export"))] + rest)[1..] == rest;
  }

  lemma OperandNext(w: Word, rest: seq<Token>)
    ensures Environment([W(w)] + rest, false) == Set(Operand(w), Environment(rest, false))
  {
    assert ([W(w)] + rest)[1..] == rest;
  }

  lemma NewlineNext(rest: seq<Token>)
    ensures Environment([Op('\n')] + rest, false) == Environment(rest, true)
  {
    assert ([Op('\n')] + rest)[1..] == rest;
  }

  lemma OneLine(name: string, value: string, rest: seq<Token>)
    ensures Environment(ExportTokens(name, value) + rest, true)
            == Set(Operand(Unquoted(name + "=") + Quoted(value)), Environment(rest, true))
  {
    var w := Unquoted(name + "=") + Quoted(value);
    assert ExportTokens(name, value) + rest == [W(Unquoted("export"))] + ([W(w)] + ([Op('\n')] + rest));
    ExportFirst([W(w)] + ([Op('\n')] + rest));
    OperandNext(w, [Op('\n')] + rest);
    NewlineNext(rest);
  }

  /** A line on its own. */
  lemma OnlyLine(name: string, value: string)
    requires PlainWord(name + "=")
    ensures ReadBack(ExportLine(name, value)) == Operand(Unquoted(name + "=") + Quoted(value))
  {
    FeedExport([], name, value);
    assert [] + ExportTokens(name, value) == ExportTokens(name, value);
    OneLine(name, value, []);
    assert ExportTokens(name, value) + [] == ExportTokens(name, value);
    NothingMore(Operand(Unquoted(name + "=") + Quoted(value)));
  }

  lemma NothingMore(here: Option<map<string, string>>)
    ensures Set(here, Some(map[])) == here
  {
    if here.Some? {
      assert here.value + map[] == here.value;
    }
  }

  lemma {:induction false} EnvironmentOfExports(names: seq<string>, vars: map<string, string>)
    requires Ascending(names) && forall n :: n in names ==> n in vars && Identifier(n)
    ensures Environment(ExportsTokens(names, vars), true) == Some(map n | n in names :: vars[n])
  {
    if names != [] {
      var n := names[0];
      EnvironmentOfExports(names[1..], vars);
      OperandOfExport(n, vars[n]);
      OneLine(n, vars[n], ExportsTokens(names[1..], vars));
      FirstAndLater(names, vars);
    }
  }

  lemma FirstAndLater(names: seq<string>, vars: map<string, string>)
    requires names != [] && Ascending(names) && forall n :: n in names ==> n in vars
    ensures map[names[0] := vars[names[0]]] + (map m | m in names[1..] :: vars[m]) == map m | m in names :: vars[m]
  {
    forall m
      ensures m in names[1..] <==> m in names && m != names[0]
    {
      TailMember(names, m);
    }
  }

  /** One line gives its variable its value exactly if the name is one to the shell: a letter or an underscore, then
      letters, digits and underscores. */
  lemma ExportReadBackIff(name: string, value: string)
    ensures ReadBack(ExportLine(name, value)) == Some(map[name := value]) <==> Identifier(name)
  {
    if Identifier(name) {
      IdentifierIsWord(name);
      OnlyLine(name, value);
      OperandOfExport(name, value);
    } else if ReadBack(ExportLine(name, value)) == Some(map[name := value]) {
      OnlyIdentifiersAreSet(Read(ExportLine(name, value)).value, true);
    }
  }

  /** All lines together give back the map exactly if every name in it is one. */
  lemma ExportsReadBackIff(names: seq<string>, vars: map<string, string>)
    requires Ascending(names) && forall n :: n in names <==> n in vars
    ensures ReadBack(ExportLines(names, vars)) == Some(vars) <==> forall n :: n in vars ==> Identifier(n)
  {
    if forall n :: n in vars ==> Identifier(n) {
      FeedExports([], names, vars);
      assert [] + ExportsTokens(names, vars) == ExportsTokens(names, vars);
      EnvironmentOfExports(names, vars);
      assert (map n | n in names :: vars[n]) == vars;
    } else if ReadBack(ExportLines(names, vars)) == Some(vars) {
      OnlyIdentifiersAreSet(Read(ExportLines(names, vars)).value, true);
    }
  }

  /** `exports`: names collected in whatever order the map yields them, sorted, one line each. */
  method Exports(vars: map<string, string>) returns (text: string, ghost names: seq<string>)
    ensures Ascending(names) && (forall n :: n in names <==> n in vars)
    ensures text == ExportLines(names, vars)
    ensures ReadBack(text) == Some(vars) <==> forall n :: n in vars ==> Identifier(n)
  {
    var sorted: seq<string> := [];
    var left := vars.Keys;
    while left != {}
      invariant Ascending(sorted)
      invariant forall n :: n in sorted <==> n in vars && n !in left
      invariant left <= vars.Keys
    {
      var k :| k in left;
      left := left - {k};
      sorted := Insert(sorted, k);
    }
    names := sorted;
    text := "";
    for i := 0 to |sorted|
      invariant forall n :: n in sorted[..i] ==> n in vars
      invariant text == ExportLines(sorted[..i], vars)
    {
      assert sorted[..i + 1] == sorted[..i] + [sorted[i]];
      ExportLinesSnoc(sorted[..i], sorted[i], vars);
      text := text + ExportLine(sorted[i], vars[sorted[i]]);
    }
    assert sorted[..|sorted|] == sorted;
    ExportsReadBackIff(sorted, vars);
  }

  lemma {:induction false} ExportLinesSnoc(names: seq<string>, n: string, vars: map<string, string>)
    requires n in vars && forall m :: m in names ==> m in vars
    ensures forall m :: m in names + [n] ==> m in vars
    ensures ExportLines(names + [n], vars) == ExportLines(names, vars) + ExportLine(n, vars[n])
    decreases |names|
  {
    if names == [] {
      assert [] + [n] == [n] && [n][1..] == [];
    } else {
      var first, rest, last := ExportLine(names[0], vars[names[0]]), names[1..], ExportLine(n, vars[n]);
      ExportLinesSnoc(rest, n, vars);
      assert (names + [n])[1..] == rest + [n];
      assert ExportLines(names + [n], vars) == first + ExportLines(rest + [n], vars);
      assert first + (ExportLines(rest, vars) + last) == (first + ExportLines(rest, vars)) + last;
    }
  }

  /** A variable of the inventory may have a name that is none: with an equals sign, another variable is set. */
  lemma EqualsInName(value: string)
    ensures ReadBack(ExportLine("a=b", value)) == Some(map["a" := "b=" + value])
  {
    var w := Unquoted("a=b=") + Quoted(value);
    assert "a=b" + "=" == "a=b=";
    OnlyLine("a=b", value);
    assert Plain(w) == "a" + "=" + ("b=" + value);
    EqualsAfter("a", "b=" + value);
    assert Plain(w)[..1] == "a" && Plain(w)[2..] == "b=" + value;
  }

  /** With a space, another one again. */
  lemma SpaceInName(value: string)
    ensures ReadBack(ExportLine("a b", value)) == Some(map["b" := value])
  {
    TwoWordsRead("a", "b", value);
    BareAndSet("a", "b", value);
    assert ExportLine("a b", value) == "export " + ("a" + " " + ("b" + ("=" + (Quote(value) + "\n"))));
  }

  function TwoOperands(bare: string, name: string, value: string): seq<Token> {
    [W(Unquoted("export")), W(Unquoted(bare))] + [W(Unquoted(name + "=") + Quoted(value)), Op('\n')]
  }

  lemma TwoWordsRead(bare: string, name: string, value: string)
    requires PlainWord(bare) && PlainWord(name + "=")
    ensures Read("export " + (bare + " " + (name + ("=" + (Quote(value) + "\n"))))) == Some(TwoOperands(bare, name, value))
  {
    var rest := name + ("=" + (Quote(value) + "\n"));
    FeedExportWord([], bare + " " + rest);
    FeedPlainThen([W(Unquoted("export"))], bare, rest);
    assert [] + [W(Unquoted("export"))] == [W(Unquoted("export"))];
    assert [W(Unquoted("export"))] + [W(Unquoted(bare))] == [W(Unquoted("export")), W(Unquoted(bare))];
    FeedOperand([W(Unquoted("export")), W(Unquoted(bare))], name, value);
  }

  lemma BareAndSet(bare: string, name: string, value: string)
    requires Identifier(bare) && Identifier(name)
    ensures Environment(TwoOperands(bare, name, value), true) == Some(map[name := value])
  {
    var b, end := Unquoted(name + "=") + Quoted(value), [Op('\n')] + [];
    assert TwoOperands(bare, name, value) == [W(Unquoted("export"))] + ([W(Unquoted(bare))] + ([W(b)] + end));
    ExportFirst([W(Unquoted(bare))] + ([W(b)] + end));
    OperandNext(Unquoted(bare), [W(b)] + end);
    OperandNext(b, end);
    NewlineNext([]);
    OperandOfExport(name, value);
    BareOperand(bare);
    NothingMore(Operand(b));
    assert map[] + map[name := value] == map[name := value];
  }

  /** A name alone sets nothing. */
  lemma BareOperand(name: string)
    requires Identifier(name)
    ensures Operand(Unquoted(name)) == Some(map[])
  {
    assert Plain(Unquoted(name)) == name;
    assert forall i :: 0 <= i < |name| ==> IdentifierChar(name[i]);
    assert EqualsIn(name) == |name| && name[..|name|] == name;
  }
}
