/** token/token.go: the ledger, read and rewritten as a whole file under a lock. */
module Ledger {
  import opened Basics
  import opened Filesystem
  import opened Host
  import opened StoreSpec
  import opened AbsoluteStore
  import opened Tokens
  import opened Protocol
  import opened LedgerSteps

  /** time.Now: it never goes back. */
  class Clock {
    var now: Instant

    constructor (now: Instant)
      ensures this.now == now
    {
      this.now := now;
    }

    method Now() returns (t: Instant)
      modifies this
      ensures t == now && old(now) <= now
    {
      var later: int := *;
      now := if now < later then later else now;
      t := now;
    }
  }

  /** loadLocked, undisturbed: a missing ledger is an empty one. */
  function LoadSpec(c: Codec, fs: Fs, dir: string, base: string): Result<seq<Metadata>>
    requires Closed(fs)
  {
    match ReadSpec(fs, dir, [base])
    case Ok(bytes) => if c.decode(bytes).None? then Err(Malformed) else Ok(c.decode(bytes).value)
    case Err(e) => if e == NotExist then Ok([]) else Err(e)
  }

  /** A transaction that succeeded replaced the file by the operation's image of
      it; one that failed left the file as it was. */
  predicate Transacted(c: Codec, before: Option<Bytes>, after: Option<Bytes>, op: Op, ok: bool) {
    if ok then Image(c, before, op).Some? && after == Image(c, before, op) else after == before
  }

  /** What a successful cleanup left in the file, in terms of lists. */
  lemma CleanupLists(c: Codec, before: Option<Bytes>, after: Option<Bytes>, nows: seq<Instant>, cutoff: Instant,
                     begun: Instant, ended: Instant, age: int)
    requires Lawful(c) && EntriesOf(c, before).Some? && |nows| == |EntriesOf(c, before).value|
    requires forall k | 0 <= k < |nows| :: cutoff + age <= nows[k] <= ended
    requires begun <= cutoff + age <= ended
    requires var es := EntriesOf(c, before).value;
      if |Kept(es, nows, cutoff)| == |es| then after == before
      else Transacted(c, before, after, Op.Cleanup(cutoff, nows), true)
    ensures EntriesOf(c, after).Some? && |EntriesOf(c, after).value| == |Kept(EntriesOf(c, before).value, nows, cutoff)|
    ensures CleanedUp(EntriesOf(c, before).value, EntriesOf(c, after).value, begun, ended, age)
  {
    var es := EntriesOf(c, before).value;
    CleanupLeaves(es, nows, cutoff, begun, ended, age);
    if |Kept(es, nows, cutoff)| == |es| {
      NothingDropped(es, nows, cutoff);
    }
  }

  /** processMu.  The ledger's own operations hold it from load to save. */
  class Mutex {
    var held: bool

    constructor ()
      ensures !held
    {
      held := false;
    }

    method Lock()
      requires !held
      modifies this
      ensures held
    {
      held := true;
    }

    method Unlock()
      requires held
      modifies this
      ensures !held
    {
      held := false;
    }
  }

  class Ledger {
    const h: Machine
    const mu: Mutex
    const clock: Clock
    const dir: string
    const base: string
    const codec: Codec

    constructor (h: Machine, mu: Mutex, clock: Clock, dir: string, base: string, codec: Codec)
      ensures this.h == h && this.mu == mu && this.clock == clock
      ensures this.dir == dir && this.base == base && this.codec == codec
    {
      this.h, this.mu, this.clock, this.dir, this.base, this.codec := h, mu, clock, dir, base, codec;
    }

    ghost predicate Valid()
      reads h
    {
      h.Valid() && Simple(base)
    }

    /** The bytes under the ledger's path. */
    ghost function Content(): Option<Bytes>
      reads h
    {
      Stored(h.fs, dir, base)
    }

    /** The list the file decodes to. */
    ghost function Listed(): Option<seq<Metadata>>
      reads h
    {
      EntriesOf(codec, Content())
    }

    /** There is a file, and it is not a list. */
    ghost predicate Garbled()
      reads h
    {
      Content().Some? && codec.decode(Content().value).None?
    }

    /** At every moment of the call, and so after a crash at any of them, the
        file is complete: as it was, or as the operation makes it. */
    twostate predicate AtomicOn(op: Op)
      reads h
    {
      var image := Image(codec, old(Content()), op);
      var after := if image.Some? then image else old(Content());
      TrailShows(old(h.trail), h.trail, h.calls, dir, base, old(Content()), after)
    }

    method LoadLocked() returns (r: Result<seq<Metadata>>, ghost out: Outcome)
      requires Valid() && mu.held
      modifies h`fs, h`acts, h`trail, h`faults, h`pc, h`sights
      ensures Valid() && old(h.faults) <= h.faults
      ensures h.trail == old(h.trail) && (h.alone ==> h.fs == old(h.fs))
      ensures CameTo(h.pc, base, out)
      ensures (match r case Ok(es) => Seen(codec, out) == Some(es) case Err(_) => Seen(codec, out) == None)
      ensures h.alone && r.Ok? ==> EntriesOf(codec, Content()) == Some(r.value)
      ensures h.alone && Garbled() ==> r.Err?
      ensures h.alone && h.faults == old(h.faults) ==> r == LoadSpec(codec, h.fs, dir, base)
    {
      var data := ReadSecure(h, dir, base);
      out := ReadOutcome(data);
      if data == Err(NotExist) {
        return Ok([]), out;
      }
      if data.Err? {
        return Err(data.error), out;
      }
      var entries := codec.decode(data.value);
      r := if entries.None? then Err(Malformed) else Ok(entries.value);
    }

    method SaveLocked(entries: seq<Metadata>) returns (err: Option<Error>)
      requires Valid() && mu.held
      modifies h`fs, h`acts, h`trail, h`faults, h`pc, h`sights
      ensures Valid() && old(h.faults) <= h.faults
      ensures h.alone ==> TrailShows(old(h.trail), h.trail, h.calls, dir, base, old(Content()),
        if codec.encode(entries).Some? then codec.encode(entries) else old(Content()))
      ensures err.None? ==> codec.encode(entries).Some? && Installed(h.pc, base, codec.encode(entries).value)
      ensures err.Some? && NothingInstalled(old(h.pc)) ==> NothingInstalled(h.pc)
      ensures h.alone ==> Content() == if err.None? then codec.encode(entries) else old(Content())
      ensures h.alone && err.Some? && h.faults == old(h.faults) ==>
        codec.encode(entries).None? || Blocked(h.fs, dir, base, err.value)
    {
      var data := codec.encode(entries);
      if data.None? {
        return Some(Malformed);
      }
      err := WriteSecure(h, dir, base, data.value);
    }

    /** Why a transaction may fail although no call broke. */
    twostate predicate Refused(op: Op, new err: Error)
      reads h
      requires Closed(old(h.fs)) && Closed(h.fs)
    {
      || LoadSpec(codec, old(h.fs), dir, base) == Err(err)
      || Image(codec, old(Content()), op).None?
      || Blocked(h.fs, dir, base, err)
    }

    /** Record. */
    method Record(m: Metadata) returns (err: Option<Error>, ghost out: Outcome)
      requires Valid() && !mu.held
      modifies h`fs, h`acts, h`trail, h`faults, h`pc, h`sights, mu
      ensures Valid() && !mu.held && old(h.faults) <= h.faults
      ensures Performed(codec, base, Op.Record(m), out, h.pc, err.None?)
      ensures h.alone ==>
        AtomicOn(Op.Record(m)) && Transacted(codec, old(Content()), Content(), Op.Record(m), err.None?)
      ensures h.alone && old(Garbled()) ==> err.Some?
      ensures h.alone && Lawful(codec) && err.None? ==>
        old(Listed()).Some? && Listed() == Some(NormaliseAll(old(Listed()).value + [m]))
      ensures h.alone && err.Some? && h.faults == old(h.faults) ==> Refused(Op.Record(m), err.value)
    {
      mu.Lock();
      var entries;
      entries, out := LoadLocked();
      if entries.Err? {
        err := Some(entries.error);
      } else {
        err := SaveLocked(entries.value + [m]);
      }
      mu.Unlock();
    }

    /** remove: everything of a provider that the key matches goes. */
    method RemoveMatching(provider: string, key: Key) returns (err: Option<Error>, ghost out: Outcome)
      requires Valid() && !mu.held
      modifies h`fs, h`acts, h`trail, h`faults, h`pc, h`sights, mu
      ensures Valid() && !mu.held && old(h.faults) <= h.faults
      ensures Performed(codec, base, Op.Remove(provider, key), out, h.pc, err.None?)
      ensures h.alone ==> AtomicOn(Op.Remove(provider, key))
      ensures h.alone ==> Transacted(codec, old(Content()), Content(), Op.Remove(provider, key), err.None?)
      ensures h.alone && old(Garbled()) ==> err.Some?
      ensures h.alone && Lawful(codec) && err.None? ==>
        old(Listed()).Some? && Listed().Some? && Lost(old(Listed()).value, Listed().value, provider, key)
      ensures h.alone && err.Some? && h.faults == old(h.faults) ==> Refused(Op.Remove(provider, key), err.value)
    {
      mu.Lock();
      var entries;
      entries, out := LoadLocked();
      if entries.Err? {
        err := Some(entries.error);
      } else {
        var kept := KeepUnmatched(entries.value, provider, key);
        RemovalLeaves(entries.value, provider, key);
        err := SaveLocked(kept);
      }
      mu.Unlock();
    }

    method RemoveById(provider: string, id: string) returns (err: Option<Error>, ghost out: Outcome)
      requires Valid() && !mu.held
      modifies h`fs, h`acts, h`trail, h`faults, h`pc, h`sights, mu
      ensures Valid() && !mu.held && old(h.faults) <= h.faults
      ensures id == "" ==> err.Some? && h.fs == old(h.fs) && h.trail == old(h.trail)
      ensures id != "" ==> Performed(codec, base, Op.Remove(provider, ById(id)), out, h.pc, err.None?)
      ensures h.alone ==> AtomicOn(Op.Remove(provider, ById(id)))
      ensures h.alone ==> Transacted(codec, old(Content()), Content(), Op.Remove(provider, ById(id)), err.None?)
      ensures h.alone && old(Garbled()) ==> err.Some?
      ensures h.alone && Lawful(codec) && err.None? ==>
        old(Listed()).Some? && Listed().Some? && Lost(old(Listed()).value, Listed().value, provider, ById(id))
    {
      if id == "" {
        return Some(Rejected), Failed;
      }
      err, out := RemoveMatching(provider, ById(id));
    }

    /** Cleanup: the count is the exact shrinkage, and 0 when nothing is written. */
    method Cleanup(olderThan: int)
      returns (removed: nat, err: Option<Error>, ghost cutoff: Instant, ghost nows: seq<Instant>, ghost out: Outcome)
      requires Valid() && !mu.held
      modifies h`fs, h`acts, h`trail, h`faults, h`pc, h`sights, mu, clock
      ensures Valid() && !mu.held && old(h.faults) <= h.faults
      ensures old(clock.now) <= cutoff + olderThan <= clock.now
      ensures forall k | 0 <= k < |nows| :: cutoff + olderThan <= nows[k] <= clock.now
      ensures Performed(codec, base, Op.Cleanup(cutoff, nows), out, h.pc, err.None?)
      ensures h.alone ==> AtomicOn(Op.Cleanup(cutoff, nows))
      ensures err.Some? ==> removed == 0 && (h.alone ==> Content() == old(Content()))
      ensures h.alone && err.None? ==>
        && EntriesOf(codec, old(Content())).Some?
        && var es := EntriesOf(codec, old(Content())).value;
           |nows| == |es| && removed == |es| - |Kept(es, nows, cutoff)|
           && (if removed == 0 then Content() == old(Content())
               else Transacted(codec, old(Content()), Content(), Op.Cleanup(cutoff, nows), true))
      ensures h.alone && old(Garbled()) ==> err.Some?
      ensures h.alone && Lawful(codec) && err.None? ==>
        && old(Listed()).Some? && Listed().Some? && removed == |old(Listed()).value| - |Listed().value|
        && CleanedUp(old(Listed()).value, Listed().value, old(clock.now), clock.now, olderThan)
    {
      mu.Lock();
      removed, err, cutoff, nows, out := CleanupLocked(olderThan);
      mu.Unlock();
      if h.alone && err.None? && Lawful(codec) {
        CleanupLists(codec, old(Content()), Content(), nows, cutoff, old(clock.now), clock.now, olderThan);
      }
    }

    /** Cleanup under the lock. */
    method CleanupLocked(olderThan: int)
      returns (removed: nat, err: Option<Error>, ghost cutoff: Instant, ghost nows: seq<Instant>, ghost out: Outcome)
      requires Valid() && mu.held
      modifies h`fs, h`acts, h`trail, h`faults, h`pc, h`sights, clock
      ensures Valid() && old(h.faults) <= h.faults
      ensures old(clock.now) <= cutoff + olderThan <= clock.now
      ensures forall k | 0 <= k < |nows| :: cutoff + olderThan <= nows[k] <= clock.now
      ensures Performed(codec, base, Op.Cleanup(cutoff, nows), out, h.pc, err.None?)
      ensures h.alone ==> AtomicOn(Op.Cleanup(cutoff, nows))
      ensures err.Some? ==> removed == 0 && (h.alone ==> Content() == old(Content()))
      ensures h.alone && err.None? ==>
        && EntriesOf(codec, old(Content())).Some?
        && var es := EntriesOf(codec, old(Content())).value;
           |nows| == |es| && removed == |es| - |Kept(es, nows, cutoff)|
           && (if removed == 0 then Content() == old(Content())
               else Transacted(codec, old(Content()), Content(), Op.Cleanup(cutoff, nows), true))
    {
      removed, err, cutoff, nows := 0, None, 0, [];
      var entries;
      entries, out := LoadLocked();
      var now := clock.Now();
      cutoff := now - olderThan;
      if entries.Err? {
        return 0, Some(entries.error), now - olderThan, [], out;
      }
      var kept;
      kept, nows := KeepFresh(entries.value, clock, now - olderThan);
      if |entries.value| - |kept| > 0 {
        err := SaveLocked(kept);
        if err.None? {
          removed := |entries.value| - |kept|;
        }
      }
    }

    /** find: the first entry of a provider that the key matches. */
    method Find(provider: string, key: Key) returns (r: Result<Metadata>)
      requires Valid() && !mu.held
      modifies h`fs, h`acts, h`trail, h`faults, h`pc, h`sights, mu
      ensures Valid() && !mu.held && h.trail == old(h.trail) && (h.alone ==> h.fs == old(h.fs))
      ensures h.alone && r.Ok? ==>
        EntriesOf(codec, Content()).Some? && IsFirst(EntriesOf(codec, Content()).value, provider, key, r.value)
      ensures r.Ok? ==>
        r.value.provider == provider && (if key.ById? then r.value.id == key.id else r.value.name == key.name)
      ensures h.alone && Garbled() ==> r.Err? && r.error != NotExist
      ensures h.alone && r == Err(NotExist) && Listed().Some? ==>
        forall m | m in Listed().value && m.provider == provider ::
          if key.ById? then m.id != key.id else m.name != key.name
      ensures h.alone && r == Err(NotExist) && EntriesOf(codec, Content()).Some? ==>
        forall m | m in EntriesOf(codec, Content()).value :: !Matches(m, provider, key)
    {
      mu.Lock();
      var entries;
      ghost var out;
      entries, out := LoadLocked();
      if entries.Err? {
        r := Err(if entries.error == NotExist then Fault else entries.error);
        mu.Unlock();
        return;
      }
      for k := 0 to |entries.value|
        invariant forall j | 0 <= j < k :: !Matches(entries.value[j], provider, key)
      {
        if Matches(entries.value[k], provider, key) {
          r := Ok(entries.value[k]);
          mu.Unlock();
          return;
        }
      }
      r := Err(NotExist);
      mu.Unlock();
    }
  }

  predicate IsFirst(es: seq<Metadata>, provider: string, key: Key, m: Metadata) {
    exists k | 0 <= k < |es| ::
      es[k] == m && Matches(m, provider, key) && forall j | 0 <= j < k :: !Matches(es[j], provider, key)
  }

  method KeepUnmatched(es: seq<Metadata>, provider: string, key: Key) returns (kept: seq<Metadata>)
    ensures kept == Without(es, provider, key)
  {
    kept := [];
    for k := 0 to |es|
      invariant kept == Without(es[..k], provider, key)
    {
      assert es[..k + 1][..k] == es[..k];
      if !Matches(es[k], provider, key) {
        kept := kept + [es[k]];
      }
    }
    assert es[..|es|] == es;
  }

  /** Cleanup's loop: the clock is read for every entry that can expire. */
  method KeepFresh(es: seq<Metadata>, clock: Clock, cutoff: Instant)
    returns (kept: seq<Metadata>, ghost nows: seq<Instant>)
    modifies clock
    ensures |nows| == |es| && kept == Kept(es, nows, cutoff) && old(clock.now) <= clock.now
    ensures forall k | 0 <= k < |nows| :: old(clock.now) <= nows[k] <= clock.now
  {
    kept, nows := [], [];
    for k := 0 to |es|
      invariant |nows| == k && kept == Kept(es[..k], nows, cutoff) && old(clock.now) <= clock.now
      invariant forall j | 0 <= j < k :: old(clock.now) <= nows[j] <= clock.now
    {
      assert es[..k + 1][..k] == es[..k];
      var expired := false;
      ghost var sample := clock.now;
      if es[k].expiresAt.Some? {
        var now := clock.Now();
        sample := now;
        expired := es[k].expiresAt.value < now;
      }
      nows := nows + [sample];
      assert nows[..k] + [sample] == nows;
      if !expired && !(!IsZero(es[k].issuedAt) && es[k].issuedAt < cutoff) {
        kept := kept + [es[k]];
      }
    }
    assert es[..|es|] == es;
  }
}
