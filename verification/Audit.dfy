/** audit/audit.go: Query reads through a scanner whose buffer never grows past
    the bound; Log appends one record to the file. */
module Audit {
  import opened Basics
  import opened AuditLines

  const FIRST_BUFFER: nat := 64 * 1024
  const MAX_BUFFER: nat := MAX_ENTRY_SIZE + 2

  datatype Ending = AtEof | ReadFailed | TooLong

  /** bufio.Scanner over ScanLines: a window of the file in a buffer of `size`
      bytes, `start` bytes of which are used up. */
  class Scanner {
    const source: Bytes          // what can be read before the end or an error
    const broken: bool           // the reads end in an error
    var pos: nat
    var held: Bytes
    var start: nat
    var size: nat
    var ended: Option<Ending>
    var token: Bytes

    constructor (source: Bytes, broken: bool)
      ensures Valid() && Left() == source && ended.None? && this.source == source && this.broken == broken
    {
      this.source, this.broken := source, broken;
      pos, held, start, size, ended, token := 0, [], 0, FIRST_BUFFER, None, [];
    }

    ghost predicate Valid()
      reads this
    {
      && pos <= |source| && start + |held| <= size <= MAX_BUFFER && 0 < size
      && (ended.Some? && ended != Some(TooLong) ==> pos == |source| && |held| < MAX_BUFFER && ended.value == ReadEnd())
    }

    function ReadEnd(): Ending {
      if broken then ReadFailed else AtEof
    }

    ghost function Left(): Bytes
      reads this
      requires pos <= |source|
    {
      held + source[pos..]
    }

    /** ScanLines on what is held; an unfinished line only counts at the end. */
    method Split() returns (found: bool)
      requires Valid() && ended != Some(TooLong)
      modifies `held, `start, `token
      ensures Valid()
      ensures found ==> old(Left()) != [] && Span(old(Left())) < MAX_BUFFER
      ensures found ==> token == DropCR(old(Left())[..Span(old(Left()))]) && Left() == Rest(old(Left()))
      ensures !found ==> held == old(held) && start == old(start) && (LF !in held && (ended.Some? ==> held == []))
    {
      var n := Span(held);
      ghost var left := Left();
      SpanExtends(held, source[pos..]);
      if n < |held| {
        assert left[..n] == held[..n] && left[n + 1..] == held[n + 1..] + source[pos..];
        token, held, start := DropCR(held[..n]), held[n + 1..], start + n + 1;
        return true;
      }
      assert held[..n] == held;
      if ended.Some? && held != [] {
        assert left == held && Span(left) == |held| && left[..|held|] == held && Rest(left) == [];
        token, start, held := DropCR(held), start + |held|, [];
        return true;
      }
      return false;
    }

    /** Make room, or give up when the buffer may not grow. */
    method Grow() returns (room: bool)
      requires Valid() && ended.None? && LF !in held
      modifies `start, `size, `ended
      ensures Valid() && (room ==> ended.None? && start + |held| < size)
      ensures !room ==> ended == Some(TooLong) && Span(Left()) >= MAX_BUFFER && held != []
    {
      if start > 0 && (start + |held| == size || start > size / 2) {
        start := 0;
      }
      if start + |held| == size {
        if size >= MAX_BUFFER {
          SpanExtends(held, source[pos..]);
          SpanWhole(held);
          ended := Some(TooLong);
          return false;
        }
        size := if size * 2 < MAX_BUFFER then size * 2 else MAX_BUFFER;
        start := 0;
      }
      room := true;
    }

    /** One read of any size that fits, the end, or an error. */
    method Fill()
      requires Valid() && ended.None? && start + |held| < size
      modifies `pos, `held, `ended
      ensures Valid() && Left() == old(Left()) && ended != Some(TooLong)
      ensures pos > old(pos) || ended.Some?
      ensures old(pos) <= pos
    {
      var room := size - start - |held|;
      if pos == |source| {
        ended := Some(ReadEnd());
      } else {
        var n: nat := *;
        var most := if room < |source| - pos then room else |source| - pos;
        n := if 0 < n <= most then n else most;
        assert source[pos..] == source[pos..pos + n] + source[pos + n..];
        held := held + source[pos..pos + n];
        pos := pos + n;
      }
    }

    /** Scan: the next line of the file, however the reads cut it up. */
    method Scan() returns (more: bool)
      requires Valid() && ended != Some(TooLong)
      modifies this
      ensures Valid()
      ensures more ==> old(Left()) != [] && Span(old(Left())) < MAX_BUFFER && ended != Some(TooLong)
      ensures more ==> token == DropCR(old(Left())[..Span(old(Left()))]) && Left() == Rest(old(Left()))
      ensures !more ==> if old(Left()) == [] then ended == Some(ReadEnd())
        else ended == Some(TooLong) && Span(old(Left())) >= MAX_BUFFER
    {
      while true
        invariant Valid() && ended != Some(TooLong) && Left() == old(Left())
        decreases |source| - pos, if ended.None? then 1 else 0
      {
        var found := Split();
        if found {
          return true;
        }
        if ended.Some? {
          return false;
        }
        var room := Grow();
        if !room {
          return false;
        }
        Fill();
      }
    }
  }

  /** The answer to a query that could read `source`, then met the end or an error. */
  predicate Answers(source: Bytes, c: Codec, f: Filter, entries: seq<Entry>, err: Option<Error>) {
    entries == Selected(Readable(PlainLines(source)), c, f) && (err == Some(Rejected) <==> TooLarge(PlainLines(source)))
  }

  /** Some part of the file could be read, and this is the answer for it. */
  predicate AnswersPart(content: Bytes, c: Codec, f: Filter, entries: seq<Entry>, err: Option<Error>) {
    exists n | 0 <= n <= |content| :: Answers(content[..n], c, f, entries, err)
  }

  /** Query on an open file. */
  method QueryOpen(content: Bytes, c: Codec, f: Filter) returns (entries: seq<Entry>, err: Option<Error>)
    ensures if err == Some(Fault) then AnswersPart(content, c, f, entries, err)
      else Answers(content, c, f, entries, err)
    ensures err in {None, Some(Rejected), Some(Fault)}
  {
    var reach: nat := *;
    var broken: bool := *;
    reach := if 0 <= reach <= |content| then reach else |content|;
    var source := if broken then content[..reach] else content;
    var scanner := new Scanner(source, broken);
    entries, err := ReadAll(scanner, c, f);
    Truncated(content, source, c, f, entries, err);
  }

  /** Unless a read failed the answer is that of the whole file. */
  lemma Truncated(content: Bytes, source: Bytes, c: Codec, f: Filter, entries: seq<Entry>, err: Option<Error>)
    requires source <= content && Answers(source, c, f, entries, err) && (err.None? ==> source == content)
    ensures err == Some(Rejected) ==> Answers(content, c, f, entries, err)
    ensures AnswersPart(content, c, f, entries, err)
  {
    var n := |source|;
    assert content[..n] == source;
    if err == Some(Rejected) {
      PrefixTooLarge(source, content);
    }
  }

  /** Query: unless a read failed the answer is that of plain line splitting on
      the whole file; a path with no file answers like an empty one. */
  method Query(content: Option<Bytes>, c: Codec, f: Filter) returns (entries: seq<Entry>, err: Option<Error>)
    ensures err != Some(Fault) ==> Answers(content.GetOr([]), c, f, entries, err)
    ensures err == Some(Fault) ==> AnswersPart(content.GetOr([]), c, f, entries, err)
    ensures err in {None, Some(Rejected), Some(Fault)}
  {
    if content.None? {
      return [], None;
    }
    entries, err := QueryOpen(content.value, c, f);
  }

  /** What Query does with one line that is not too long. */
  method Collect(entries: seq<Entry>, line: Bytes, c: Codec, f: Filter, ghost done: seq<Bytes>) returns (r: seq<Entry>)
    requires entries == Selected(done, c, f)
    ensures r == Selected(done + [line], c, f)
  {
    assert (done + [line])[..|done|] == done;
    if line == [] {
      return entries;
    }
    var e := c.decode(line);
    if e.None? || e.value.timestamp < f.since || (f.provider != "" && e.value.provider != f.provider) {
      return entries;
    }
    r := entries + [e.value];
  }

  /** The lines read so far, none too long, and what is left to read. */
  ghost predicate Through(source: Bytes, done: seq<Bytes>, left: Bytes) {
    PlainLines(source) == done + PlainLines(left) && !TooLarge(done)
  }

  lemma OneLineOn(source: Bytes, done: seq<Bytes>, left: Bytes)
    requires Through(source, done, left) && left != []
    ensures var line := DropCR(left[..Span(left)]);
      if Oversized(line) then TooLarge(PlainLines(source)) && Readable(PlainLines(source)) == done
      else Through(source, done + [line], Rest(left))
  {
    var line := DropCR(left[..Span(left)]);
    var lines := PlainLines(source);
    Unfold(left);
    assert lines == done + [line] + PlainLines(Rest(left));
    if Oversized(line) {
      StoppedAt(lines, done, line);
    } else {
      DoneGrows(done + [line], line);
    }
  }

  /** Query's loop. */
  method ReadAll(scanner: Scanner, c: Codec, f: Filter) returns (entries: seq<Entry>, err: Option<Error>)
    requires scanner.Valid() && scanner.ended.None? && scanner.Left() == scanner.source
    modifies scanner
    ensures entries == Selected(Readable(PlainLines(scanner.source)), c, f)
    ensures err ==
      if TooLarge(PlainLines(scanner.source)) then Some(Rejected)
      else if scanner.broken then Some(Fault)
      else None
  {
    entries := [];
    ghost var done: seq<Bytes> := [];
    var more := scanner.Scan();
    ghost var left := scanner.source;
    while more
      invariant scanner.Valid() && Through(scanner.source, done, left) && entries == Selected(done, c, f)
      invariant more ==> left != [] && scanner.ended != Some(TooLong) && scanner.token == DropCR(left[..Span(left)])
      invariant more ==> scanner.Left() == Rest(left)
      invariant !more ==> if left == [] then scanner.ended == Some(scanner.ReadEnd())
        else scanner.ended == Some(TooLong) && Span(left) >= MAX_BUFFER
      decreases |left|, more
    {
      OneLineOn(scanner.source, done, left);
      if |scanner.token| > MAX_ENTRY_SIZE {
        return entries, Some(Rejected);
      }
      entries := Collect(entries, scanner.token, c, f, done);
      done, left := done + [scanner.token], scanner.Left();
      more := scanner.Scan();
    }
    if scanner.ended == Some(TooLong) {
      OneLineOn(scanner.source, done, left);
      return entries, Some(Rejected);
    }
    assert done + PlainLines(left) == done;
    ReadableAll(done);
    err := if scanner.broken then Some(Fault) else None;
  }

  lemma StoppedAt(lines: seq<Bytes>, done: seq<Bytes>, line: Bytes)
    requires |lines| > |done| && lines[..|done|] == done && lines[|done|] == line && Oversized(line) && !TooLarge(done)
    ensures TooLarge(lines) && Readable(lines) == done
  {
    forall j | 0 <= j < |done| ensures !Oversized(lines[j]) {
      assert lines[j] == done[j];
    }
    ReadableStops(lines, |done|);
  }

  lemma DoneGrows(done: seq<Bytes>, line: Bytes)
    requires done != [] && done[|done| - 1] == line && !TooLarge(done[..|done| - 1]) && !Oversized(line)
    ensures !TooLarge(done)
  {
    forall k | 0 <= k < |done| ensures !Oversized(done[k]) {
      assert k < |done| - 1 ==> done[..|done| - 1][k] == done[k];
    }
  }
}
