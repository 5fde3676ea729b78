/** secret/secret.go's quoteArg against the parser it writes for: one line of
    `security -i`, split into arguments. */
module Quoting {
  import opened Basics

  /** strings.ReplaceAll of a single character. */
  function ReplaceAll(s: string, c: char, to: string): string {
    if s == "" then "" else ReplaceAll(s[..|s| - 1], c, to) + if s[|s| - 1] == c then to else [s[|s| - 1]]
  }

  /** Backslashes first, then quotes. */
  function Escape(v: string): string {
    ReplaceAll(ReplaceAll(v, '\\', "\\\\"), '"', "\\\"")
  }

  function QuoteArg(v: string): string {
    "\"" + Escape(v) + "\""
  }

  // ---- The reader ------------------------------------------------------------------

  datatype Mode = Between | Bare | BareEscape | Quoted(mark: char) | QuotedEscape(mark: char)

  /** Finished arguments, the one being read, and how it is being read. */
  datatype Lexer = Lexer(done: seq<string>, word: string, mode: Mode)

  predicate Blank(c: char) {
    c == ' ' || c == '\t'
  }

  predicate Mark(c: char) {
    c == '"' || c == '\''
  }

  /** One character on.  Whether text may go on right behind a closing quote is
      left open: both readings are covered. */
  function Feed(x: Lexer, c: char, joins: bool): Lexer {
    match x.mode
    case Between =>
      if Blank(c) then x
      else if Mark(c) then x.(mode := Quoted(c))
      else if c == '\\' then x.(mode := BareEscape)
      else x.(word := [c], mode := Bare)
    case Bare =>
      if Blank(c) then Lexer(x.done + [x.word], "", Between)
      else if Mark(c) && joins then x.(mode := Quoted(c))
      else if c == '\\' then x.(mode := BareEscape)
      else x.(word := x.word + [c])
    case BareEscape => x.(word := x.word + [c], mode := Bare)
    case Quoted(mark) =>
      if c == '\\' then x.(mode := QuotedEscape(mark))
      else if c != mark then x.(word := x.word + [c])
      else if joins then x.(mode := Bare)
      else Lexer(x.done + [x.word], "", Between)
    case QuotedEscape(mark) => x.(word := x.word + [c], mode := Quoted(mark))
  }

  function FeedAll(x: Lexer, s: string, joins: bool): Lexer {
    if s == "" then x else Feed(FeedAll(x, s[..|s| - 1], joins), s[|s| - 1], joins)
  }

  /** The arguments of a line; none when a quote or an escape is left open. */
  function Arguments(line: string, joins: bool): Option<seq<string>> {
    var x := FeedAll(Lexer([], "", Between), line, joins);
    match x.mode
    case Between => Some(x.done)
    case Bare => Some(x.done + [x.word])
    case _ => None
  }

  lemma {:induction false} FeedSplits(x: Lexer, s: string, t: string, joins: bool)
    ensures FeedAll(x, s + t, joins) == FeedAll(FeedAll(x, s, joins), t, joins)
  {
    if t == "" {
      assert s + t == s;
    } else {
      assert (s + t)[..|s + t| - 1] == s + t[..|t| - 1];
      FeedSplits(x, s, t[..|t| - 1], joins);
    }
  }

  lemma FeedOne(x: Lexer, c: char, joins: bool)
    ensures FeedAll(x, [c], joins) == Feed(x, c, joins)
  {
    assert [c][..0] == "";
  }

  /** The two passes together escape one character at a time. */
  function Escaped(c: char): string {
    if c == '\\' then "\\\\" else if c == '"' then "\\\"" else [c]
  }

  lemma ReplaceLast(s: string, d: char, c: char, to: string)
    ensures ReplaceAll(s + [d], c, to) == ReplaceAll(s, c, to) + if d == c then to else [d]
  {
    assert (s + [d])[..|s|] == s;
  }

  lemma {:induction false} ReplaceSplits(s: string, t: string, c: char, to: string)
    ensures ReplaceAll(s + t, c, to) == ReplaceAll(s, c, to) + ReplaceAll(t, c, to)
  {
    if t == "" {
      assert s + t == s;
    } else {
      var front, d := t[..|t| - 1], t[|t| - 1];
      ReplaceSplits(s, front, c, to);
      ReplaceLast(s + front, d, c, to);
      assert s + front + [d] == s + t;
    }
  }

  lemma ReplaceOne(d: char, c: char, to: string)
    ensures ReplaceAll([d], c, to) == if d == c then to else [d]
  {
    assert [d][..0] == "";
  }

  /** Order matters: had quotes gone first, their backslashes would double. */
  lemma EscapeGrows(v: string)
    requires v != ""
    ensures Escape(v) == Escape(v[..|v| - 1]) + Escaped(v[|v| - 1])
  {
    var c := v[|v| - 1];
    var once := if c == '\\' then "\\\\" else [c];
    ReplaceSplits(ReplaceAll(v[..|v| - 1], '\\', "\\\\"), once, '"', "\\\"");
    ReplaceOne(c, '"', "\\\"");
    if c == '\\' {
      ReplaceSplits("\\", "\\", '"', "\\\"");
      ReplaceOne('\\', '"', "\\\"");
      assert "\\" + "\\" == "\\\\";
    }
  }

  lemma EscapedFeeds(x: Lexer, c: char, joins: bool)
    requires x.mode == Quoted('"')
    ensures FeedAll(x, Escaped(c), joins) == x.(word := x.word + [c])
  {
    if c == '\\' || c == '"' {
      FeedSplits(x, "\\", [c], joins);
      FeedOne(x, '\\', joins);
      FeedOne(Feed(x, '\\', joins), c, joins);
      assert Escaped(c) == "\\" + [c];
    } else {
      FeedOne(x, c, joins);
    }
  }

  lemma EscapeFeedsOne(x: Lexer, front: string, c: char, joins: bool)
    requires x.mode == Quoted('"') && FeedAll(x, Escape(front), joins) == x.(word := x.word + front)
    ensures FeedAll(x, Escape(front + [c]), joins) == x.(word := x.word + (front + [c]))
  {
    var e := Escaped(c);
    assert Escape(front + [c]) == Escape(front) + e by {
      EscapeGrows(front + [c]);
      assert (front + [c])[..|front|] == front;
    }
    FeedSplits(x, Escape(front), e, joins);
    EscapedFeeds(x.(word := x.word + front), c, joins);
    assert x.word + front + [c] == x.word + (front + [c]);
  }

  /** Inside its quotes an escaped value reads as itself. */
  lemma {:induction false} EscapeFeeds(x: Lexer, v: string, joins: bool)
    requires x.mode == Quoted('"')
    ensures FeedAll(x, Escape(v), joins) == x.(word := x.word + v)
  {
    if v == "" {
      assert x.word + v == x.word;
    } else {
      var front, c := v[..|v| - 1], v[|v| - 1];
      EscapeFeeds(x, front, joins);
      EscapeFeedsOne(x, front, c, joins);
      assert v == front + [c];
    }
  }

  /** A quoted value followed by a blank is exactly one argument, whatever is in
      the value: quotes, backslashes, blanks or nothing. */
  lemma QuotedArgument(done: seq<string>, v: string, joins: bool)
    ensures FeedAll(Lexer(done, "", Between), QuoteArg(v) + " ", joins) == Lexer(done + [v], "", Between)
  {
    var x := Lexer(done, "", Between);
    var q := "\"" + Escape(v);
    FeedSplits(x, "\"", Escape(v), joins);
    FeedOne(x, '"', joins);
    EscapeFeeds(x.(mode := Quoted('"')), v, joins);
    assert "" + v == v;
    FeedSplits(x, q, "\"", joins);
    var inside := Lexer(done, v, Quoted('"'));
    FeedOne(inside, '"', joins);
    assert QuoteArg(v) == q + "\"";
    FeedSplits(x, QuoteArg(v), " ", joins);
    FeedOne(Feed(inside, '"', joins), ' ', joins);
  }

  /** Characters that mean themselves outside quotes. */
  predicate Ordinary(c: char) {
    !Blank(c) && !Mark(c) && c != '\\'
  }

  predicate AllOrdinary(s: string) {
    forall k | 0 <= k < |s| :: Ordinary(s[k])
  }

  lemma {:induction false} BareFeeds(x: Lexer, s: string, joins: bool)
    requires x.mode == Between && x.word == "" && s != "" && AllOrdinary(s)
    ensures FeedAll(x, s, joins) == Lexer(x.done, s, Bare)
  {
    if |s| == 1 {
      assert s == [s[0]];
      FeedOne(x, s[0], joins);
    } else {
      BareFeeds(x, s[..|s| - 1], joins);
      assert s == s[..|s| - 1] + [s[|s| - 1]];
    }
  }

  lemma BareArgument(done: seq<string>, s: string, joins: bool)
    requires s != "" && AllOrdinary(s)
    ensures FeedAll(Lexer(done, "", Between), s + " ", joins) == Lexer(done + [s], "", Between)
  {
    BareFeeds(Lexer(done, "", Between), s, joins);
    FeedSplits(Lexer(done, "", Between), s, " ", joins);
    FeedOne(Lexer(done, s, Bare), ' ', joins);
  }

  lemma LastArgument(done: seq<string>, s: string, joins: bool)
    requires s != "" && AllOrdinary(s)
    ensures FeedAll(Lexer(done, "", Between), s, joins) == Lexer(done, s, Bare)
  {
    BareFeeds(Lexer(done, "", Between), s, joins);
  }

  /** Escaping adds no line break. */
  lemma {:induction false} EscapeKeepsLine(v: string)
    requires forall k | 0 <= k < |v| :: v[k] != '\n'
    ensures forall k | 0 <= k < |Escape(v)| :: Escape(v)[k] != '\n'
  {
    if v != "" {
      EscapeGrows(v);
      EscapeKeepsLine(v[..|v| - 1]);
    }
  }
}
