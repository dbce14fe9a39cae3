/**
 * How a POSIX shell cuts a line into words: sections 2.2.1 (backslash) and 2.2.2 (single quotes) of the
 * Shell Command Language of POSIX.1-2017, with blanks, operators and comments as far as section 2.3 needs
 * them to end a word. Double quotes are outside the model: a line that uses them is not read at all.
 */
module Shell {
  import opened Options

  /** A quoted character stands for itself; only unquoted ones are subject to expansion. */
  datatype QChar = QChar(c: char, quoted: bool)

  type Word = seq<QChar>

  datatype Token = W(word: Word) | Op(c: char)

  datatype Mode =
    | Between               // no word begun
    | Bare                  // in a word, outside quotes
    | Single                // inside single quotes
    | Escape(inWord: bool)  // after a backslash
    | Comment
    | Unread                // a construct outside the model

  datatype Lexer = Lexer(tokens: seq<Token>, mode: Mode, word: Word)

  const START := Lexer([], Between, [])

  predicate Blank(c: char) {
    c == ' ' || c == '\t'
  }

  predicate Operator(c: char) {
    c == ';' || c == '&' || c == '|' || c == '<' || c == '>' || c == '(' || c == ')' || c == '\n'
  }

  /** Part of a word as it is, when it stands outside quotes. */
  predicate Ordinary(c: char) {
    !Blank(c) && !Operator(c) && c != '\'' && c != '\\' && c != '"'
  }

  /** The tokens once the word in hand, if any, is ended. */
  function Flush(l: Lexer): seq<Token> {
    if l.mode == Bare then l.tokens + [W(l.word)] else l.tokens
  }

  function Step(l: Lexer, c: char): Lexer {
    match l.mode
    case Unread => l
    case Comment => if c == '\n' then Lexer(l.tokens + [Op(c)], Between, []) else l
    case Single => if c == '\'' then l.(mode := Bare) else l.(word := l.word + [QChar(c, true)])
    case Escape(inWord) =>
      if c == '\n' then l.(mode := if inWord then Bare else Between)
      else Lexer(l.tokens, Bare, l.word + [QChar(c, true)])
    case _ =>
      if Blank(c) then Lexer(Flush(l), Between, [])
      else if Operator(c) then Lexer(Flush(l) + [Op(c)], Between, [])
      else if c == '\'' then l.(mode := Single)
      else if c == '\\' then l.(mode := Escape(l.mode == Bare))
      else if c == '"' then l.(mode := Unread)
      else if c == '#' && l.mode == Between then l.(mode := Comment)
      else Lexer(l.tokens, Bare, l.word + [QChar(c, false)])
  }

  function Feed(l: Lexer, s: string): Lexer
    decreases |s|
  {
    if s == "" then l else Feed(Step(l, s[0]), s[1..])
  }

  /** The tokens of a complete line, unless a quote is left open or it is outside the model. */
  function Read(s: string): Option<seq<Token>> {
    var l := Feed(START, s);
    if l.mode == Between || l.mode == Bare || l.mode == Comment then Some(Flush(l)) else None
  }

  lemma {:induction false} FeedConcat(l: Lexer, a: string, b: string)
    ensures Feed(l, a + b) == Feed(Feed(l, a), b)
    decreases |a|
  {
    if a == "" {
      assert a + b == b;
    } else {
      FeedConcat(Step(l, a[0]), a[1..], b);
      assert (a + b)[1..] == a[1..] + b;
    }
  }

  // Words made of ordinary characters, and of quoted ones.

  function Unquoted(s: string): Word {
    seq(|s|, i requires 0 <= i < |s| => QChar(s[i], false))
  }

  function Quoted(s: string): Word {
    seq(|s|, i requires 0 <= i < |s| => QChar(s[i], true))
  }

  /** What the command gets as an argument. */
  function Plain(w: Word): string {
    seq(|w|, i requires 0 <= i < |w| => w[i].c)
  }

  predicate AllOrdinary(s: string) {
    forall i :: 0 <= i < |s| ==> Ordinary(s[i])
  }

  /** Begins a word wherever one can begin. */
  predicate PlainWord(s: string) {
    s != "" && AllOrdinary(s) && s[0] != '#'
  }

  lemma {:induction false} FeedBare(tokens: seq<Token>, w: Word, s: string)
    requires AllOrdinary(s)
    ensures Feed(Lexer(tokens, Bare, w), s) == Lexer(tokens, Bare, w + Unquoted(s))
    decreases |s|
  {
    if s == "" {
      assert w + Unquoted(s) == w;
    } else {
      FeedBare(tokens, w + [QChar(s[0], false)], s[1..]);
      assert w + Unquoted(s) == (w + [QChar(s[0], false)]) + Unquoted(s[1..]);
    }
  }

  lemma FeedWord(tokens: seq<Token>, s: string)
    requires PlainWord(s)
    ensures Feed(Lexer(tokens, Between, []), s) == Lexer(tokens, Bare, Unquoted(s))
  {
    FeedBare(tokens, [QChar(s[0], false)], s[1..]);
    assert [] + [QChar(s[0], false)] == [QChar(s[0], false)];
    assert Unquoted(s) == [QChar(s[0], false)] + Unquoted(s[1..]);
  }

  lemma FeedOne(l: Lexer, c: char)
    ensures Feed(l, [c]) == Step(l, c)
  {
    assert [c][1..] == "";
  }

  /** Words with a blank after each. */
  function Say(words: seq<string>): string {
    if words == [] then "" else words[0] + " " + Say(words[1..])
  }

  function Words(words: seq<string>): seq<Token> {
    seq(|words|, i requires 0 <= i < |words| => W(Unquoted(words[i])))
  }

  lemma {:induction false} FeedSay(tokens: seq<Token>, words: seq<string>)
    requires forall i :: 0 <= i < |words| ==> PlainWord(words[i])
    ensures Feed(Lexer(tokens, Between, []), Say(words)) == Lexer(tokens + Words(words), Between, [])
    decreases |words|
  {
    var l := Lexer(tokens, Between, []);
    if words == [] {
      assert tokens + Words(words) == tokens;
    } else {
      var first := W(Unquoted(words[0]));
      FeedConcat(l, words[0] + " ", Say(words[1..]));
      FeedConcat(l, words[0], " ");
      FeedWord(tokens, words[0]);
      FeedOne(Lexer(tokens, Bare, Unquoted(words[0])), ' ');
      FeedSay(tokens + [first], words[1..]);
      assert tokens + Words(words) == (tokens + [first]) + Words(words[1..]);
    }
  }
}
