/** audit/audit.go's file format: records on lines, with one size bound that the
    writer and the bounded reader share. */
module AuditLines {
  import opened Basics
  import opened Tokens

  const MAX_ENTRY_SIZE: nat := 1024 * 1024
  const LF: byte := 10
  const CR: byte := 13

  datatype Entry = Entry(timestamp: Instant, action: string, provider: string, tokenName: string, success: bool,
                         error: string, source: string)

  datatype Codec = Codec(encode: Entry -> Option<Bytes>, decode: Bytes -> Option<Entry>)

  predicate OneRecord(data: Bytes) {
    data != [] && LF !in data && data[|data| - 1] != CR
  }

  /** encoding/json: one line without a trailing carriage return, and back. */
  ghost predicate Lawful(c: Codec) {
    forall e | c.encode(e).Some? :: c.decode(c.encode(e).value) == Some(e) && OneRecord(c.encode(e).value)
  }

  // ---- Plain line splitting --------------------------------------------------------

  /** The length of the first line, without its ending. */
  function Span(s: Bytes): (n: nat)
    ensures n <= |s| && LF !in s[..n] && (n < |s| ==> s[n] == LF)
  {
    if s == [] || s[0] == LF then 0
    else
      var n := 1 + Span(s[1..]);
      assert s[..n] == [s[0]] + s[1..][..n - 1];
      n
  }

  function Rest(s: Bytes): (r: Bytes)
    requires s != []
    ensures |r| < |s|
  {
    if Span(s) < |s| then s[Span(s) + 1..] else []
  }

  function DropCR(line: Bytes): Bytes {
    if line != [] && line[|line| - 1] == CR then line[..|line| - 1] else line
  }

  function PlainLines(s: Bytes): seq<Bytes>
    decreases |s|
  {
    if s == [] then [] else [DropCR(s[..Span(s)])] + PlainLines(Rest(s))
  }

  // ---- What a query means ------------------------------------------------------------

  predicate Oversized(line: Bytes) {
    |line| > MAX_ENTRY_SIZE
  }

  predicate TooLarge(lines: seq<Bytes>) {
    exists k | 0 <= k < |lines| :: Oversized(lines[k])
  }

  /** The lines before the first one that is too long. */
  function Readable(lines: seq<Bytes>): seq<Bytes> {
    if lines == [] || Oversized(lines[0]) then [] else [lines[0]] + Readable(lines[1..])
  }

  datatype Filter = Filter(since: Instant, provider: string)

  predicate Wanted(e: Entry, f: Filter) {
    !(e.timestamp < f.since) && (f.provider == "" || e.provider == f.provider)
  }

  function Selected(lines: seq<Bytes>, c: Codec, f: Filter): seq<Entry> {
    if lines == [] then []
    else
      var front := Selected(lines[..|lines| - 1], c, f);
      var line := lines[|lines| - 1];
      if line == [] || c.decode(line).None? || !Wanted(c.decode(line).value, f) then front
      else front + [c.decode(line).value]
  }

  lemma {:induction false} ReadableStops(lines: seq<Bytes>, k: nat)
    requires k < |lines| && Oversized(lines[k]) && forall j | 0 <= j < k :: !Oversized(lines[j])
    ensures Readable(lines) == lines[..k]
  {
    if k > 0 {
      ReadableStops(lines[1..], k - 1);
      assert lines[..k] == [lines[0]] + lines[1..][..k - 1];
    }
  }

  lemma {:induction false} ReadableAll(lines: seq<Bytes>)
    requires !TooLarge(lines)
    ensures Readable(lines) == lines
  {
    if lines != [] {
      assert !Oversized(lines[0]);
      assert forall k | 0 <= k < |lines[1..]| :: lines[1..][k] == lines[k + 1];
      ReadableAll(lines[1..]);
    }
  }

  lemma FirstLineDecides(head: Bytes, tail: seq<Bytes>)
    ensures TooLarge([head] + tail) <==> Oversized(head) || TooLarge(tail)
    ensures Readable([head] + tail) == if Oversized(head) then [] else [head] + Readable(tail)
  {
    var all := [head] + tail;
    assert all[1..] == tail;
    if TooLarge(tail) {
      var k :| 0 <= k < |tail| && Oversized(tail[k]);
      assert Oversized(all[k + 1]);
    }
    if TooLarge(all) && !Oversized(head) {
      var k :| 0 <= k < |all| && Oversized(all[k]);
      assert Oversized(tail[k - 1]);
    }
    if Oversized(head) {
      assert Oversized(all[0]);
    }
  }

  /** A first line that ends stays as it is; one that does not can only grow. */
  lemma FirstLineGrows(source: Bytes, content: Bytes)
    requires source != [] && source <= content
    ensures Oversized(DropCR(source[..Span(source)])) ==> Oversized(DropCR(content[..Span(content)]))
    ensures Span(source) < |source| ==>
      content[..Span(content)] == source[..Span(source)] && Rest(source) <= Rest(content)
    ensures Span(source) == |source| ==> Rest(source) == []
  {
    var t := content[|source|..];
    assert content == source + t;
    SpanExtends(source, t);
    if Span(source) < |source| {
      assert content[..Span(source)] == source[..Span(source)];
      assert Rest(content) == Rest(source) + t;
    } else if |content[..Span(content)]| == |source| {
      assert content[..Span(content)] == source;
    }
  }

  /** Reading further changes nothing about a line that is too long already. */
  lemma {:induction false} PrefixTooLarge(source: Bytes, content: Bytes)
    requires source <= content && TooLarge(PlainLines(source))
    ensures TooLarge(PlainLines(content)) && Readable(PlainLines(content)) == Readable(PlainLines(source))
    decreases |source|
  {
    var first, same := DropCR(source[..Span(source)]), DropCR(content[..Span(content)]);
    FirstLineGrows(source, content);
    Unfold(source);
    Unfold(content);
    FirstLineDecides(first, PlainLines(Rest(source)));
    FirstLineDecides(same, PlainLines(Rest(content)));
    if !Oversized(first) {
      PrefixTooLarge(Rest(source), Rest(content));
    }
  }

  // ---- Appending -----------------------------------------------------------------------

  predicate Terminated(s: Bytes) {
    s == [] || s[|s| - 1] == LF
  }

  lemma {:induction false} SpanExtends(s: Bytes, t: Bytes)
    ensures Span(s) < |s| ==> Span(s + t) == Span(s)
    ensures Span(s) == |s| ==> Span(s + t) == |s| + Span(t)
  {
    if s == [] {
      assert s + t == t;
    } else if s[0] != LF {
      SpanExtends(s[1..], t);
      assert (s + t)[1..] == s[1..] + t;
    }
  }

  lemma {:induction false} SpanWhole(data: Bytes)
    requires LF !in data
    ensures Span(data) == |data|
  {
    if data != [] {
      SpanWhole(data[1..]);
    }
  }

  lemma SpanOfRecord(data: Bytes)
    requires LF !in data
    ensures Span(data + [LF]) == |data|
  {
    SpanExtends(data, [LF]);
    SpanWhole(data);
  }

  lemma OneLineOf(data: Bytes)
    requires OneRecord(data)
    ensures PlainLines(data + [LF]) == [data]
  {
    var all := data + [LF];
    SpanOfRecord(data);
    assert all[..|data|] == data;
    assert Rest(all) == [] && DropCR(data) == data;
    assert PlainLines(all) == [DropCR(data)] + PlainLines([]);
  }

  /** Complete lines keep their ends: the first line stays the first. */
  lemma FirstLineStays(s: Bytes, t: Bytes)
    requires s != [] && Terminated(s)
    ensures Span(s + t) == Span(s) < |s| && (s + t)[..Span(s)] == s[..Span(s)]
    ensures Rest(s + t) == Rest(s) + t
  {
    SpanExtends(s, t);
    SpanFound(s, |s| - 1);
  }

  lemma {:induction false} SpanFound(s: Bytes, k: nat)
    requires k < |s| && s[k] == LF
    ensures Span(s) <= k
  {
    if s[0] != LF {
      SpanFound(s[1..], k - 1);
    }
  }

  lemma RestTerminated(s: Bytes)
    requires s != [] && Terminated(s)
    ensures Terminated(Rest(s))
  {
    var r := Rest(s);
    if r != [] {
      assert r[|r| - 1] == s[|s| - 1];
    }
  }

  lemma Unfold(s: Bytes)
    requires s != []
    ensures PlainLines(s) == [DropCR(s[..Span(s)])] + PlainLines(Rest(s))
  {
  }

  lemma ExtendedLines(s: Bytes, t: Bytes)
    requires s != [] && Terminated(s)
    ensures PlainLines(s + t) == [DropCR(s[..Span(s)])] + PlainLines(Rest(s) + t)
  {
    FirstLineStays(s, t);
    Unfold(s + t);
  }

  /** Behind complete lines, splitting starts afresh. */
  lemma {:induction false} LinesJoin(s: Bytes, t: Bytes)
    requires Terminated(s)
    ensures PlainLines(s + t) == PlainLines(s) + PlainLines(t)
    decreases |s|, 1
  {
    if s == [] {
      assert s + t == t;
    } else {
      LinesJoinRest(s, t);
    }
  }

  lemma {:induction false} LinesJoinRest(s: Bytes, t: Bytes)
    requires s != [] && Terminated(s)
    ensures PlainLines(s + t) == PlainLines(s) + PlainLines(t)
    decreases |s|, 0
  {
    RestTerminated(s);
    LinesJoin(Rest(s), t);
    ExtendedLines(s, t);
    Unfold(s);
    HeadJoins(DropCR(s[..Span(s)]), PlainLines(Rest(s)), PlainLines(t));
  }

  lemma HeadJoins(head: Bytes, a: seq<Bytes>, b: seq<Bytes>)
    ensures [head] + (a + b) == [head] + a + b
  {
  }

  /** A record appended behind complete lines is one more line. */
  lemma AppendedLine(s: Bytes, data: Bytes)
    requires Terminated(s) && OneRecord(data)
    ensures PlainLines(s + (data + [LF])) == PlainLines(s) + [data]
  {
    LinesJoin(s, data + [LF]);
    OneLineOf(data);
  }

  /** A line ends in a line feed, with or without a carriage return before it; the
      last one may lack the line feed. */
  lemma OneCRDropped(data: Bytes)
    ensures DropCR(data + [CR]) == data && (data == [] || data[|data| - 1] != CR ==> DropCR(data) == data)
  {
  }

  lemma FedLine(line: Bytes)
    requires LF !in line
    ensures PlainLines(line + [LF]) == [DropCR(line)]
  {
    var all := line + [LF];
    SpanOfRecord(line);
    assert all[..|line|] == line && Rest(all) == [];
    assert PlainLines(all) == [DropCR(line)] + PlainLines([]);
  }

  lemma LastLine(line: Bytes)
    requires LF !in line && line != []
    ensures PlainLines(line) == [DropCR(line)]
  {
    SpanWhole(line);
    assert line[..|line|] == line && Rest(line) == [];
    assert PlainLines(line) == [DropCR(line)] + PlainLines([]);
  }

  // ---- What a query selects ------------------------------------------------------------

  /** Of the lines a query reads it answers, in order, exactly those that are not
      empty, decode, are not older than asked for, and are of the provider asked
      for, if one was. */
  lemma {:induction false} SelectedMeans(lines: seq<Bytes>, c: Codec, f: Filter) returns (at: seq<nat>)
    ensures |at| == |Selected(lines, c, f)| && Increasing(at, |lines|)
    ensures forall j | 0 <= j < |at| :: c.decode(lines[at[j]]) == Some(Selected(lines, c, f)[j])
    ensures forall k: nat | k < |lines| ::
      k in at <==> lines[k] != [] && c.decode(lines[k]).Some? && Asked(c.decode(lines[k]).value, f.since, f.provider)
  {
    at := [];
    if lines != [] {
      var n := |lines| - 1;
      at := SelectedMeans(lines[..n], c, f);
      assert forall k: nat | k < n :: lines[..n][k] == lines[k];
      if lines[n] != [] && c.decode(lines[n]).Some? && Asked(c.decode(lines[n]).value, f.since, f.provider) {
        at := at + [n];
      }
    }
  }

  /** Not before that instant, and of that provider; an empty provider is any. */
  predicate Asked(e: Entry, since: Instant, provider: string) {
    since <= e.timestamp && (provider == "" || provider == e.provider)
  }

  // ---- Behind an unfinished line ---------------------------------------------------------

  /** Where the last unfinished line begins. */
  function Break(s: Bytes): (n: nat)
    ensures n <= |s| && Terminated(s[..n]) && LF !in s[n..]
  {
    if s == [] then 0
    else if s[|s| - 1] == LF then
      assert s[..|s|] == s;
      |s|
    else
      var n := Break(s[..|s| - 1]);
      assert s[..n] == s[..|s| - 1][..n] && s[n..] == s[..|s| - 1][n..] + [s[|s| - 1]];
      n
  }

  function Complete(s: Bytes): Bytes {
    s[..Break(s)]
  }

  function Unfinished(s: Bytes): Bytes {
    s[Break(s)..]
  }

  lemma FinishedOrNot(s: Bytes)
    ensures Terminated(s) <==> Unfinished(s) == []
    ensures Terminated(Complete(s)) && s == Complete(s) + Unfinished(s)
  {
    if Terminated(s) && s != [] {
      assert Break(s) == |s|;
    } else if Unfinished(s) == [] {
      assert s[..Break(s)] == s;
    }
  }

  lemma UnfinishedIs(s: Bytes, t: Bytes)
    requires Terminated(s) && LF !in t
    ensures Complete(s + t) == s && Unfinished(s + t) == t
  {
    BreakStays(s, t);
    assert (s + t)[..|s|] == s && (s + t)[|s|..] == t;
  }

  lemma {:induction false} BreakStays(s: Bytes, t: Bytes)
    requires Terminated(s) && LF !in t
    ensures Break(s + t) == |s|
  {
    if t == [] {
      assert s + t == s;
    } else {
      var front := t[..|t| - 1];
      BreakStays(s, front);
      assert (s + t)[..|s + t| - 1] == s + front;
    }
  }

  /** The unfinished line and the record become one line. */
  lemma GluedLine(s: Bytes, data: Bytes)
    requires OneRecord(data)
    ensures PlainLines(s + (data + [LF])) == PlainLines(Complete(s)) + [Unfinished(s) + data]
  {
    FinishedOrNot(s);
    var whole := Unfinished(s) + data;
    assert s + (data + [LF]) == Complete(s) + (whole + [LF]);
    AppendedLine(Complete(s), whole);
  }

  lemma UnfinishedLine(s: Bytes)
    requires !Terminated(s)
    ensures PlainLines(s) == PlainLines(Complete(s)) + [DropCR(Unfinished(s))]
  {
    FinishedOrNot(s);
    var u := Unfinished(s);
    LinesJoin(Complete(s), u);
    SpanWhole(u);
    Unfold(u);
    assert Rest(u) == [] && u[..|u|] == u;
  }

  /** A record is a line of its own exactly when the lines before it are complete. */
  lemma OwnLineIff(s: Bytes, data: Bytes)
    requires OneRecord(data)
    ensures PlainLines(s + (data + [LF])) == PlainLines(s) + [data] <==> Terminated(s)
  {
    if Terminated(s) {
      AppendedLine(s, data);
    } else {
      GluedLine(s, data);
      UnfinishedLine(s);
    }
  }

  /** What a write of a record leaves of complete lines, when it was cut off. */
  lemma CutOff(s: Bytes, data: Bytes, out: Bytes)
    requires Terminated(s) && OneRecord(data) && out <= data + [LF]
    ensures Terminated(s + out) <==> out == [] || out == data + [LF]
    ensures !Terminated(s + out) ==> Complete(s + out) == s && Unfinished(s + out) == out
  {
    if out != [] && |out| <= |data| {
      assert out == data[..|out|];
      assert (s + out)[|s + out| - 1] == out[|out| - 1] == data[|out| - 1];
      UnfinishedIs(s, out);
    } else if out == [] {
      assert s + out == s;
    }
  }

  /** The glued line is too long exactly when the two parts are, together. */
  lemma GluedTooLarge(s: Bytes, data: Bytes)
    requires OneRecord(data)
    ensures TooLarge(PlainLines(s + (data + [LF])))
      <==> TooLarge(PlainLines(Complete(s))) || |Unfinished(s)| + |data| > MAX_ENTRY_SIZE
  {
    GluedLine(s, data);
    LastLineDecides(PlainLines(Complete(s)), Unfinished(s) + data);
  }

  lemma LastLineDecides(lines: seq<Bytes>, line: Bytes)
    ensures TooLarge(lines + [line]) <==> TooLarge(lines) || Oversized(line)
    ensures !TooLarge(lines) && Oversized(line) ==> Readable(lines + [line]) == lines
  {
    var all := lines + [line];
    if TooLarge(lines) {
      var k :| 0 <= k < |lines| && Oversized(lines[k]);
      assert Oversized(all[k]);
    }
    if Oversized(line) {
      assert Oversized(all[|lines|]);
      if !TooLarge(lines) {
        ReadableStops(all, |lines|);
      }
    }
    if TooLarge(all) && !Oversized(line) {
      var k :| 0 <= k < |all| && Oversized(all[k]);
      assert Oversized(lines[k]);
    }
  }
}
