/** token/token.go without its file: entries, the operations on a list of them,
    and the JSON codec the list goes through. */
module Tokens {
  import opened Basics

  /** Instants are nanoseconds since Go's zero time. */
  type Instant = int

  datatype Metadata = Metadata(
    provider: string,
    name: string,
    id: string,
    issuedAt: Instant,
    expiresAt: Option<Instant>,
    scope: Option<map<string, string>>,
    masterKey: string,
    source: string)

  predicate IsExpired(m: Metadata, now: Instant) {
    m.expiresAt.Some? && m.expiresAt.value < now
  }

  predicate IsZero(t: Instant) {
    t == 0
  }

  /** What survives encoding: `omitempty` turns an empty scope into none. */
  function Normalise(m: Metadata): (r: Metadata)
    ensures r.provider == m.provider && r.name == m.name && r.id == m.id
    ensures r.issuedAt == m.issuedAt && r.expiresAt == m.expiresAt && r.masterKey == m.masterKey && r.source == m.source
    ensures r.scope == if m.scope == Some(map[]) then None else m.scope
  {
    if m.scope == Some(map[]) then m.(scope := None) else m
  }

  function NormaliseAll(es: seq<Metadata>): (r: seq<Metadata>)
    ensures |r| == |es| && forall k | 0 <= k < |es| :: r[k] == Normalise(es[k])
  {
    seq(|es|, k requires 0 <= k < |es| => Normalise(es[k]))
  }

  /** encoding/json for a list of entries: encoding is partial (a year outside
      0..9999 is refused), decoding of foreign bytes may fail. */
  datatype Codec = Codec(encode: seq<Metadata> -> Option<Bytes>, decode: Bytes -> Option<seq<Metadata>>)

  ghost predicate Lawful(c: Codec) {
    forall es | c.encode(es).Some? :: c.decode(c.encode(es).value) == Some(NormaliseAll(es))
  }

  /** The list a ledger file stands for: none yet is empty, None is unreadable. */
  function EntriesOf(c: Codec, content: Option<Bytes>): Option<seq<Metadata>> {
    match content
    case None => Some([])
    case Some(bytes) => c.decode(bytes)
  }

  // ---- Operations --------------------------------------------------------------

  datatype Key = ByName(name: string) | ById(id: string)

  predicate Matches(m: Metadata, provider: string, key: Key) {
    m.provider == provider && match key case ByName(n) => m.name == n case ById(i) => m.id == i
  }

  datatype Op =
    | Record(entry: Metadata)
    | Remove(provider: string, key: Key)
    | Cleanup(cutoff: Instant, nows: seq<Instant>)   // the clock, sampled per entry

  function Without(es: seq<Metadata>, provider: string, key: Key): (r: seq<Metadata>)
    ensures |r| <= |es|
  {
    if es == [] then []
    else
      var rest := Without(es[..|es| - 1], provider, key);
      if Matches(es[|es| - 1], provider, key) then rest else rest + [es[|es| - 1]]
  }

  /** Cleanup's test of one entry at one reading of the clock. */
  predicate Stale(m: Metadata, now: Instant, cutoff: Instant) {
    IsExpired(m, now) || (!IsZero(m.issuedAt) && m.issuedAt < cutoff)
  }

  function Kept(es: seq<Metadata>, nows: seq<Instant>, cutoff: Instant): (r: seq<Metadata>)
    requires |nows| == |es|
    ensures |r| <= |es|
  {
    if es == [] then []
    else
      var k := |es| - 1;
      var rest := Kept(es[..k], nows[..k], cutoff);
      if Stale(es[k], nows[k], cutoff) then rest else rest + [es[k]]
  }

  function Apply(op: Op, es: seq<Metadata>): seq<Metadata> {
    match op
    case Record(m) => es + [m]
    case Remove(provider, key) => Without(es, provider, key)
    case Cleanup(cutoff, nows) => if |nows| == |es| then Kept(es, nows, cutoff) else es
  }

  /** The file an operation leaves, if it can be encoded. */
  function Image(c: Codec, content: Option<Bytes>, op: Op): Option<Bytes> {
    match EntriesOf(c, content)
    case None => None
    case Some(es) => c.encode(Apply(op, es))
  }

  // ---- What the operations mean ---------------------------------------------------

  /** Removal keeps exactly what does not match, as often as it was there. */
  lemma {:induction false} WithoutCounts(es: seq<Metadata>, provider: string, key: Key, m: Metadata)
    ensures multiset(Without(es, provider, key))[m] == if Matches(m, provider, key) then 0 else multiset(es)[m]
  {
    if es != [] {
      WithoutCounts(es[..|es| - 1], provider, key, m);
      assert es == es[..|es| - 1] + [es[|es| - 1]];
    }
  }

  /** Removal commutes with encoding: no field it looks at is normalised. */
  lemma {:induction false} WithoutNormalises(es: seq<Metadata>, provider: string, key: Key)
    ensures Without(NormaliseAll(es), provider, key) == NormaliseAll(Without(es, provider, key))
  {
    if es != [] {
      var k := |es| - 1;
      WithoutNormalises(es[..k], provider, key);
      assert NormaliseAll(es)[..k] == NormaliseAll(es[..k]);
      assert NormaliseAll(Without(es, provider, key)) ==
        NormaliseAll(Without(es[..k], provider, key))
        + if Matches(es[k], provider, key) then [] else [Normalise(es[k])];
    }
  }

  /** A cleanup that keeps as many entries as there were found none stale. */
  lemma {:induction false} NothingDropped(es: seq<Metadata>, nows: seq<Instant>, cutoff: Instant)
    requires |nows| == |es| && |Kept(es, nows, cutoff)| == |es|
    ensures Kept(es, nows, cutoff) == es && forall k | 0 <= k < |es| :: !Stale(es[k], nows[k], cutoff)
  {
    if es != [] {
      var k := |es| - 1;
      NothingDropped(es[..k], nows[..k], cutoff);
      forall j | 0 <= j < k ensures !Stale(es[j], nows[j], cutoff) {
        assert es[..k][j] == es[j] && nows[..k][j] == nows[j];
      }
    }
  }

  /** An order-preserving choice of positions. */
  predicate Increasing(at: seq<nat>, bound: nat) {
    (forall j | 0 <= j < |at| :: at[j] < bound) && forall j, k | 0 <= j < k < |at| :: at[j] < at[k]
  }

  /** `kept` are the entries at these positions, none of them expired at the start
      or issued before the cutoff. */
  predicate Survive(es: seq<Metadata>, kept: seq<Metadata>, at: seq<nat>, start: Instant, cutoff: Instant) {
    && |at| == |kept| && Increasing(at, |es|)
    && forall j | 0 <= j < |at| ::
         && kept[j] == es[at[j]]
         && !(kept[j].expiresAt.Some? && kept[j].expiresAt.value < start)
         && !(kept[j].issuedAt != 0 && kept[j].issuedAt < cutoff)
  }

  predicate AllGoneStale(es: seq<Metadata>, at: seq<nat>, end: Instant, cutoff: Instant) {
    forall k | 0 <= k < |es| ::
      || k in at
      || (es[k].expiresAt.Some? && es[k].expiresAt.value < end)
      || (es[k].issuedAt != 0 && es[k].issuedAt < cutoff)
  }

  /** Cleanup under a moving clock.  The survivors are a sublist, in order; the
      ones already expired at the start or issued before the cutoff are gone;
      whatever is gone was expired by the end or issued before the cutoff. */
  lemma {:induction false} CleanupSurvivors(es: seq<Metadata>, nows: seq<Instant>, cutoff: Instant, start: Instant,
                                            end: Instant)
    returns (at: seq<nat>)
    requires |nows| == |es| && forall k | 0 <= k < |es| :: start <= nows[k] <= end
    ensures Survive(es, Kept(es, nows, cutoff), at, start, cutoff)
    ensures AllGoneStale(es, at, end, cutoff)
  {
    if es == [] {
      return [];
    }
    var k := |es| - 1;
    var rest := CleanupSurvivors(es[..k], nows[..k], cutoff, start, end);
    at := if Stale(es[k], nows[k], cutoff) then rest else rest + [k];
    MoreKept(es, Kept(es[..k], nows[..k], cutoff), rest, Kept(es, nows, cutoff), at, start, cutoff);
    MoreGone(es, rest, at, end, cutoff);
  }

  /** With one more entry, gone or kept for good reason. */
  lemma MoreKept(es: seq<Metadata>, front: seq<Metadata>, rest: seq<nat>, kept: seq<Metadata>, at: seq<nat>,
                 start: Instant, cutoff: Instant)
    requires es != [] && Survive(es[..|es| - 1], front, rest, start, cutoff)
    requires (at == rest && kept == front) || (at == rest + [|es| - 1] && kept == front + [es[|es| - 1]])
    requires at != rest ==> !Stale(es[|es| - 1], start, cutoff)
    ensures Survive(es, kept, at, start, cutoff)
  {
    forall j | 0 <= j < |rest| ensures es[rest[j]] == front[j] {
      assert es[..|es| - 1][rest[j]] == es[rest[j]];
    }
  }

  /** With one more entry, kept or stale by the end. */
  lemma MoreGone(es: seq<Metadata>, rest: seq<nat>, at: seq<nat>, end: Instant, cutoff: Instant)
    requires es != [] && AllGoneStale(es[..|es| - 1], rest, end, cutoff)
    requires at == rest + [|es| - 1] || (at == rest && Stale(es[|es| - 1], end, cutoff))
    ensures AllGoneStale(es, at, end, cutoff)
  {
    forall i | 0 <= i < |es| ensures i in at || Stale(es[i], end, cutoff) {
      if i < |es| - 1 {
        assert es[..|es| - 1][i] == es[i];
        assert i in rest || Stale(es[i], end, cutoff);
      } else {
        assert at != rest ==> at[|rest|] == i;
      }
    }
  }

  // ---- The operations on the fields of an entry ---------------------------------------

  /** Removal by ID takes the entries with this provider and this ID, removal by
      name those with this provider and this name, and every other stays as often
      as it was there. */
  lemma RemovedByField(es: seq<Metadata>, provider: string, x: string, m: Metadata)
    ensures multiset(Without(es, provider, ById(x)))[m]
      == if m.provider == provider && m.id == x then 0 else multiset(es)[m]
    ensures multiset(Without(es, provider, ByName(x)))[m]
      == if m.provider == provider && m.name == x then 0 else multiset(es)[m]
  {
    WithoutCounts(es, provider, ById(x), m);
    WithoutCounts(es, provider, ByName(x), m);
  }

  /** What a removal left of a list, as far as encoding tells entries apart. */
  ghost predicate Lost(before: seq<Metadata>, after: seq<Metadata>, provider: string, key: Key) {
    forall m :: multiset(after)[m]
      == if m.provider == provider && (if key.ById? then m.id == key.id else m.name == key.name) then 0
         else multiset(NormaliseAll(before))[m]
  }

  lemma RemovalLeaves(es: seq<Metadata>, provider: string, key: Key)
    ensures Lost(es, NormaliseAll(Without(es, provider, key)), provider, key)
  {
    WithoutNormalises(es, provider, key);
    forall m {
      WithoutCounts(NormaliseAll(es), provider, key, m);
    }
  }

  /** A cleanup whose clock readings lie between `start` and `end`: an entry whose
      expiry lies before the start, or that was issued before the cutoff, is gone;
      one without an expiry before the end, and not issued before the cutoff, is
      there as often as it was.  A zero issue time is none. */
  lemma {:induction false} KeptByField(es: seq<Metadata>, nows: seq<Instant>, cutoff: Instant, start: Instant,
                                       end: Instant, m: Metadata)
    requires |nows| == |es| && forall k | 0 <= k < |es| :: start <= nows[k] <= end
    ensures (m.expiresAt.Some? && m.expiresAt.value < start) || (m.issuedAt != 0 && m.issuedAt < cutoff) ==>
      m !in Kept(es, nows, cutoff)
    ensures (m.expiresAt.None? || end <= m.expiresAt.value) && (m.issuedAt == 0 || cutoff <= m.issuedAt) ==>
      multiset(Kept(es, nows, cutoff))[m] == multiset(es)[m]
  {
    if es != [] {
      var k := |es| - 1;
      KeptByField(es[..k], nows[..k], cutoff, start, end, m);
      assert es == es[..k] + [es[k]];
    }
  }

  lemma {:induction false} KeptNormalised(es: seq<Metadata>, nows: seq<Instant>, cutoff: Instant)
    requires |nows| == |es|
    ensures Kept(NormaliseAll(es), nows, cutoff) == NormaliseAll(Kept(es, nows, cutoff))
  {
    if es != [] {
      var k := |es| - 1;
      KeptNormalised(es[..k], nows[..k], cutoff);
      assert NormaliseAll(es)[..k] == NormaliseAll(es[..k]);
    }
  }

  /** What a cleanup for everything older than `age` left of a list, begun and
      ended at these instants, as far as encoding tells entries apart. */
  ghost predicate CleanedUp(before: seq<Metadata>, after: seq<Metadata>, begun: Instant, ended: Instant, age: int) {
    && (forall m | m in after ::
          && !(m.expiresAt.Some? && m.expiresAt.value < begun)
          && !(m.issuedAt != 0 && m.issuedAt < begun - age))
    && (forall m: Metadata | (m.expiresAt.None? || ended <= m.expiresAt.value)
        && (m.issuedAt == 0 || ended - age <= m.issuedAt) ::
          multiset(NormaliseAll(after))[m] == multiset(NormaliseAll(before))[m])
  }

  lemma NormalTwice(es: seq<Metadata>)
    ensures NormaliseAll(NormaliseAll(es)) == NormaliseAll(es)
  {
  }

  lemma CleanupLeaves(es: seq<Metadata>, nows: seq<Instant>, cutoff: Instant, begun: Instant, ended: Instant, age: int)
    requires |nows| == |es| && forall k | 0 <= k < |es| :: cutoff + age <= nows[k] <= ended
    requires begun <= cutoff + age <= ended
    ensures CleanedUp(es, Kept(es, nows, cutoff), begun, ended, age)
    ensures CleanedUp(es, NormaliseAll(Kept(es, nows, cutoff)), begun, ended, age)
  {
    KeptNormalised(es, nows, cutoff);
    NormalTwice(Kept(es, nows, cutoff));
    forall m: Metadata
      ensures m in Kept(es, nows, cutoff) || m in Kept(NormaliseAll(es), nows, cutoff) ==>
        && !(m.expiresAt.Some? && m.expiresAt.value < begun)
        && !(m.issuedAt != 0 && m.issuedAt < begun - age)
      ensures (m.expiresAt.None? || ended <= m.expiresAt.value) && (m.issuedAt == 0 || ended - age <= m.issuedAt) ==>
        multiset(Kept(NormaliseAll(es), nows, cutoff))[m] == multiset(NormaliseAll(es))[m]
    {
      KeptByField(es, nows, cutoff, cutoff + age, ended, m);
      KeptByField(NormaliseAll(es), nows, cutoff, cutoff + age, ended, m);
    }
  }
}
