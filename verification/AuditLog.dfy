/** audit/audit.go: Log, on the store's append-only handle, and what a later
    Query makes of any number of logged records. */
module AuditLog {
  import opened Basics
  import opened Filesystem
  import opened Host
  import opened AbsoluteStore
  import opened AuditLines
  import L = Ledger

  /** The entry as it is written: a missing timestamp is filled in. */
  predicate Stamps(e: Entry, stamped: Entry) {
    stamped == e.(timestamp := stamped.timestamp) && (e.timestamp != 0 ==> stamped == e)
  }

  class Logger {
    const h: Machine
    const mu: L.Mutex
    const clock: L.Clock
    const dir: string
    const base: string
    const codec: Codec

    constructor (h: Machine, clock: L.Clock, dir: string, base: string, codec: Codec)
      ensures this.h == h && this.clock == clock && this.dir == dir && this.base == base && this.codec == codec
      ensures fresh(mu) && !mu.held
    {
      this.h, this.clock, this.dir, this.base, this.codec := h, clock, dir, base, codec;
      mu := new L.Mutex();
    }

    ghost predicate Valid()
      reads h
    {
      h.Valid() && Simple(base)
    }

    ghost function Content(): Bytes
      reads h
    {
      Stored(h.fs, dir, base).GetOr([])
    }

    /** File.Write: until all of it is out, or a write fails. */
    method WriteAll(i: nat, data: Bytes) returns (ok: bool, ghost out: Bytes)
      requires h.Valid() && IsFile(h.fs, i)
      modifies h`fs, h`acts, h`trail, h`faults, h`pc
      ensures h.Valid() && out <= data && (ok <==> out == data)
      ensures h.alone ==> Closed(old(h.fs)) && AppendedTo(old(h.fs), h.fs, i, out)
    {
      var left := data;
      out := [];
      if h.alone {
        AppendedNothing(h.fs, i);
      }
      while left != []
        invariant h.Valid() && IsFile(h.fs, i) && data == out + left
        invariant h.alone ==> AppendedTo(old(h.fs), h.fs, i, out)
        decreases |left|
      {
        ghost var before := h.fs;
        ghost var was, act;
        var n;
        n, ok, was, act := h.AppendSome(i, left);
        if !ok {
          assert out != data;
          return false, out;
        }
        if h.alone {
          AppendedMore(old(h.fs), before, h.fs, i, out, left[..n]);
        }
        out, left := out + left[..n], left[n..];
      }
      ok := true;
      assert out + left == out;
    }

    /** Log. */
    method Log(e: Entry) returns (err: Option<Error>, ghost stamped: Entry, ghost out: Bytes)
      requires Valid() && !mu.held
      modifies h`fs, h`acts, h`trail, h`faults, h`pc, h`sights, mu, clock
      ensures Valid() && !mu.held && Stamps(e, stamped)
      ensures e.timestamp == 0 ==> old(clock.now) <= stamped.timestamp <= clock.now
      ensures codec.encode(stamped).None? || |codec.encode(stamped).value| > MAX_ENTRY_SIZE ==>
        err.Some? && h.fs == old(h.fs)
      ensures h.alone ==> Content() == old(Content()) + out
      ensures err.None? ==> codec.encode(stamped).Some? && out == codec.encode(stamped).value + [LF]
      ensures err.Some? ==> out == [] || (codec.encode(stamped).Some? && out < codec.encode(stamped).value + [LF])
    {
      stamped, out := e, [];
      assert Content() + out == Content();
      var entry := e;
      if e.timestamp == 0 {
        var now := clock.Now();
        entry := e.(timestamp := now);
        stamped := entry;
      }
      var data := codec.encode(entry);
      if data.None? {
        return Some(Malformed), stamped, [];
      }
      if |data.value| > MAX_ENTRY_SIZE {
        return Some(Rejected), stamped, [];
      }
      mu.Lock();
      err, out := Append(data.value + [LF]);
      mu.Unlock();
    }

    /** The part under the lock. */
    method Append(record: Bytes) returns (err: Option<Error>, ghost out: Bytes)
      requires Valid()
      modifies h`fs, h`acts, h`trail, h`faults, h`pc, h`sights
      ensures Valid() && (h.alone ==> Content() == old(Content()) + out)
      ensures if err.None? then out == record else out == [] || out < record
    {
      var f;
      ghost var d;
      f, d := OpenAppendSecure(h, dir, base);
      if f.Err? {
        assert Content() + [] == Content();
        return Some(f.error), [];
      }
      ghost var opn := h.fs;
      var ok;
      ok, out := WriteAll(f.value, record);
      if h.alone {
        AppendedStored(opn, h.fs, f.value, out, dir, base);
      }
      err := if ok then None else Some(Fault);
    }
  }

  /** One file has grown at its end; nothing else differs. */
  predicate AppendedTo(a: Fs, b: Fs, i: nat, out: Bytes) {
    IsFile(a, i) && b == Put(a, i, a.nodes[i].(node := Regular(DataOf(a, i) + out)))
  }

  lemma AppendedNothing(a: Fs, i: nat)
    requires IsFile(a, i)
    ensures AppendedTo(a, a, i, [])
  {
    assert DataOf(a, i) + [] == DataOf(a, i);
    assert a.nodes[i := a.nodes[i]] == a.nodes;
  }

  lemma AppendedMore(a: Fs, b: Fs, c: Fs, i: nat, out: Bytes, chunk: Bytes)
    requires AppendedTo(a, b, i, out)
    requires Enabled(b, Write(i, |DataOf(b, i)|, chunk)) && c == Apply(b, Write(i, |DataOf(b, i)|, chunk))
    ensures AppendedTo(a, c, i, out + chunk)
  {
    var data := DataOf(b, i);
    assert Overlay(data, |data|, chunk) == data + chunk;
    assert DataOf(a, i) + out + chunk == DataOf(a, i) + (out + chunk);
    assert c.nodes == Put(a, i, a.nodes[i].(node := Regular(DataOf(a, i) + (out + chunk)))).nodes;
  }

  lemma AppendedStored(a: Fs, b: Fs, i: nat, out: Bytes, dir: string, base: string)
    requires Closed(a) && AppendedTo(a, b, i, out) && LeadsTo(a, dir, base, i)
    ensures Stored(b, dir, base) == Some(DataOf(a, i) + out)
  {
    var root := a.anchors[dir].ino;
    assert Filesystem.Entry(b, root, base) == Filesystem.Entry(a, root, base);
  }

  // ---- Round trip ----------------------------------------------------------------------

  /** The file after these records, each of which Log agreed to write. */
  function Logged(content: Bytes, es: seq<Entry>, c: Codec): Bytes
    requires forall k | 0 <= k < |es| :: c.encode(es[k]).Some?
  {
    if es == [] then content else Logged(content, es[..|es| - 1], c) + (c.encode(es[|es| - 1]).value + [LF])
  }

  predicate Loggable(es: seq<Entry>, c: Codec) {
    forall k | 0 <= k < |es| :: c.encode(es[k]).Some? && |c.encode(es[k]).value| <= MAX_ENTRY_SIZE
  }

  lemma {:induction false} LoggedTerminated(content: Bytes, es: seq<Entry>, c: Codec)
    requires Loggable(es, c) && Terminated(content)
    ensures Terminated(Logged(content, es, c))
  {
  }

  function Wants(es: seq<Entry>, f: Filter): seq<Entry> {
    if es == [] then []
    else Wants(es[..|es| - 1], f) + if Wanted(es[|es| - 1], f) then [es[|es| - 1]] else []
  }

  /** What Query answers on a file it can read to its end. */
  function Found(content: Bytes, c: Codec, f: Filter): seq<Entry> {
    Selected(Readable(PlainLines(content)), c, f)
  }

  predicate Scannable(content: Bytes) {
    !TooLarge(PlainLines(content))
  }

  /** Whatever successful calls of Log wrote behind complete lines, a query finds:
      each entry it wants, in order, behind what it found before. */
  lemma {:induction false} LogRoundTrip(content: Bytes, es: seq<Entry>, c: Codec, f: Filter)
    requires Lawful(c) && Loggable(es, c) && Terminated(content) && Scannable(content)
    ensures Scannable(Logged(content, es, c))
    ensures Found(Logged(content, es, c), c, f) == Found(content, c, f) + Wants(es, f)
  {
    if es == [] {
      assert Found(content, c, f) + [] == Found(content, c, f);
    } else {
      var front, e := es[..|es| - 1], es[|es| - 1];
      LogRoundTrip(content, front, c, f);
      LoggedTerminated(content, front, c);
      OneMore(Logged(content, front, c), e, c, f);
    }
  }

  lemma OneMore(content: Bytes, e: Entry, c: Codec, f: Filter)
    requires Lawful(c) && c.encode(e).Some? && |c.encode(e).value| <= MAX_ENTRY_SIZE && Terminated(content)
    requires Scannable(content)
    ensures var after := content + (c.encode(e).value + [LF]);
      Scannable(after) && Found(after, c, f) == Found(content, c, f) + if Wanted(e, f) then [e] else []
  {
    var data := c.encode(e).value;
    var lines := PlainLines(content);
    AppendedLine(content, data);
    assert forall k | 0 <= k < |lines| :: !Oversized(lines[k]);
    assert !TooLarge(lines + [data]);
    ReadableAll(lines);
    ReadableAll(lines + [data]);
    assert (lines + [data])[..|lines|] == lines;
  }

  lemma {:induction false} WantsAll(es: seq<Entry>, f: Filter)
    requires forall k | 0 <= k < |es| :: Wanted(es[k], f)
    ensures Wants(es, f) == es
  {
    if es != [] {
      WantsAll(es[..|es| - 1], f);
      assert es == es[..|es| - 1] + [es[|es| - 1]];
    }
  }

  /** A query that everything matches finds exactly what was logged, in order. */
  lemma AllLoggedFound(es: seq<Entry>, c: Codec, f: Filter)
    requires Lawful(c) && Loggable(es, c) && forall k | 0 <= k < |es| :: Wanted(es[k], f)
    ensures Scannable(Logged([], es, c)) && Found(Logged([], es, c), c, f) == es
  {
    assert PlainLines([]) == [];
    LogRoundTrip([], es, c, f);
    WantsAll(es, f);
  }

  /** What a failed Log leaves behind complete lines: nothing, or an unfinished
      line that the next record is glued to.  The record is then found as a line
      of its own exactly if nothing was left; and exactly if what was left and the
      record are too long together, everything behind is out of reach, although
      each record was within the bound. */
  lemma FailedLogGlues(content: Bytes, failed: Bytes, out: Bytes, e: Entry, c: Codec, more: Bytes)
    requires Lawful(c) && Terminated(content) && Scannable(content) && OneRecord(failed) && out < failed + [LF]
    requires c.encode(e).Some? && |c.encode(e).value| <= MAX_ENTRY_SIZE
    ensures var data := c.encode(e).value;
      var after := content + out + (data + [LF]);
      && PlainLines(after) == PlainLines(content) + [out + data]
      && (Scannable(after) <==> |out| + |data| <= MAX_ENTRY_SIZE)
      && (!Scannable(after) ==> !Scannable(after + more) && Readable(PlainLines(after + more)) == PlainLines(content))
  {
    var data := c.encode(e).value;
    var after := content + out + (data + [LF]);
    CutOff(content, failed, out);
    if out == [] {
      assert content + out == content && out + data == data;
      AppendedLine(content, data);
    } else {
      GluedLine(content + out, data);
    }
    LastLineDecides(PlainLines(content), out + data);
    if !Scannable(after) {
      PrefixTooLarge(after, after + more);
    }
  }
}
