/** session/session.go: cached keys with two expiry rules, a precise one and the
    whole-second one of older files. */
module Session {
  import opened Basics
  import opened Filesystem
  import opened Protocol
  import opened Paths
  import opened Host
  import opened StoreSpec
  import opened Rooted
  import opened Names
  import opened NamedStore
  import opened Text
  import L = Ledger

  const MAX_INT64 := 0x7FFF_FFFF_FFFF_FFFF

  newtype int64 = x: int | -MAX_INT64 - 1 <= x <= MAX_INT64

  /** Nanoseconds. */
  const SECOND: int64 := 1_000_000_000
  const DEFAULT_TTL: int64 := 4 * 3600 * SECOND

  datatype Cached = Cached(expiresAt: Option<int>, key: string, createdAt: int, ttlSeconds: int64, provider: string)

  /** Go's division of a duration by a second: towards zero. */
  function Seconds(ttl: int64): (q: int64)
    ensures q as int * SECOND as int + Fraction(ttl) == ttl as int
  {
    if ttl >= 0 then ((ttl as int) / SECOND as int) as int64 else (-((-(ttl as int)) / SECOND as int)) as int64
  }

  /** What truncation leaves over, with the sign of the duration. */
  function Fraction(ttl: int64): int {
    if ttl >= 0 then ttl as int % SECOND as int else -((-(ttl as int)) % SECOND as int)
  }

  /** The whole-second rule.  The product is formed only where it fits. */
  function LegacyExpired(s: Cached, now: int): bool {
    if s.ttlSeconds < 0 || s.ttlSeconds > (MAX_INT64 / SECOND as int) as int64 then true
    else
      var ttl := s.ttlSeconds * SECOND;
      !(now < s.createdAt + ttl as int)
  }

  /** IsExpired. */
  function IsExpired(s: Cached, now: int): bool {
    if s.expiresAt.Some? then !(now < s.expiresAt.value) else LegacyExpired(s, now)
  }

  /** What Save writes. */
  function Fresh(provider: string, key: string, created: int, ttl: int64): Cached {
    Cached(Some(created + ttl as int), key, created, Seconds(ttl), provider)
  }

  /** A file with a precise expiry goes by it; an older one is live while its whole
      seconds last, if they are not negative and their nanoseconds fit. */
  lemma ExpiryMeans(s: Cached, now: int)
    ensures s.expiresAt.Some? ==> (IsExpired(s, now) <==> s.expiresAt.value <= now)
    ensures s.expiresAt.None? ==>
      (!IsExpired(s, now) <==>
         && 0 <= s.ttlSeconds as int * 1_000_000_000 <= 0x7FFF_FFFF_FFFF_FFFF
         && now < s.createdAt + s.ttlSeconds as int * 1_000_000_000)
  {
  }

  /** The guard refuses exactly the seconds whose nanoseconds do not fit. */
  lemma GuardIsOverflow(seconds: int64)
    ensures seconds > (MAX_INT64 / SECOND as int) as int64 <==> seconds as int * SECOND as int > MAX_INT64
  {
  }

  /** For every TTL and every time not before creation, what the whole-second rule
      calls live is live under the precise one. */
  lemma LegacyIsStricter(provider: string, key: string, created: int, ttl: int64, now: int)
    requires created <= now
    ensures !LegacyExpired(Fresh(provider, key, created, ttl), now) ==>
      !IsExpired(Fresh(provider, key, created, ttl), now)
  {
    assert ttl < 0 ==> Seconds(ttl) <= 0;
  }

  /** The rules agree at every such time if and only if the TTL is a whole number
      of seconds or not positive. */
  lemma RulesAgree(provider: string, key: string, created: int, ttl: int64)
    ensures (forall now: int | created <= now ::
      LegacyExpired(Fresh(provider, key, created, ttl), now) == IsExpired(Fresh(provider, key, created, ttl), now))
      <==> (ttl <= 0 || Fraction(ttl) == 0)
  {
    var s := Fresh(provider, key, created, ttl);
    if ttl <= 0 || Fraction(ttl) == 0 {
      forall now: int | created <= now ensures LegacyExpired(s, now) == IsExpired(s, now) {
        AgreesAt(provider, key, created, ttl, now);
      }
    } else {
      var now := created + s.ttlSeconds as int * SECOND as int;
      assert LegacyExpired(s, now) && !IsExpired(s, now);
    }
  }

  lemma AgreesAt(provider: string, key: string, created: int, ttl: int64, now: int)
    requires created <= now && (ttl <= 0 || Fraction(ttl) == 0)
    ensures LegacyExpired(Fresh(provider, key, created, ttl), now) == IsExpired(Fresh(provider, key, created, ttl), now)
  {
    assert ttl <= 0 ==> Seconds(ttl) <= 0;
  }

  /** Only before creation can the whole-second rule call live what the precise
      one does not: exactly for a negative TTL shorter than a second, which it
      drops, and only as far back as that. */
  lemma BeforeCreation(provider: string, key: string, created: int, ttl: int64, now: int)
    ensures var s := Fresh(provider, key, created, ttl);
      !LegacyExpired(s, now) && IsExpired(s, now) <==> -SECOND < ttl < 0 && created + ttl as int <= now < created
  {
    assert -SECOND < ttl < 0 ==> Seconds(ttl) == 0;
    assert ttl <= -SECOND ==> Seconds(ttl) < 0;
  }

  // ---- The manager ---------------------------------------------------------------------

  datatype Codec = Codec(encode: Cached -> Option<Bytes>, decode: Bytes -> Option<Cached>)

  ghost predicate Lawful(c: Codec) {
    forall s | c.encode(s).Some? :: c.decode(c.encode(s).value) == Some(s)
  }

  /** validateProvider; the empty provider is the default one. */
  predicate ValidProvider(p: string) {
    && p != "." && p != ".."
    && (forall k | 0 <= k < |p| :: p[k] !in {'/', '\\', ':', '*', '?', '"', '<', '>', '|'} && !Control(p[k]))
    && TrimSpace(p) == p
  }

  /** Providers must not be "." or "..", begin or end in white space, or hold a
      separator, a wildcard or a control character. */
  lemma ValidProviderMeans(p: string)
    ensures ValidProvider(p) <==>
      && p != "." && p != ".."
      && (p != "" ==> !Space(p[0]) && !Space(p[|p| - 1]))
      && forall k | 0 <= k < |p| ::
           && !(p[k] < ' ' || '\U{007F}' <= p[k] <= '\U{009F}')
           && p[k] !in {'/', '\\', ':', '*', '?', '"', '<', '>', '|'}
  {
    TrimSpaceEnds(p);
  }

  function FileName(provider: string): string {
    if provider == "" then "session.json" else "session-" + provider + ".json"
  }

  function PathOf(provider: string): RelPath {
    [FileName(provider)]
  }

  lemma PathUsual(provider: string)
    ensures Usual(PathOf(provider)) && Target(PathOf(provider)) == PathOf(provider)
  {
    var p := PathOf(provider);
    assert p[0][0] == 's' && |p[0]| > 2 && STAGING_PREFIX[0] == '.';
    CleanIsStable(p);
    assert p[..0] == [] && ["."][..0] == [];
    assert Clean(["."]) == Some([]);
  }

  /** No two providers share a file. */
  lemma PathsDiffer(p: string, q: string)
    requires p != q
    ensures PathOf(p) != PathOf(q)
    ensures PathOf("") == ["session.json"] && (p != "" ==> PathOf(p) == ["session-" + p + ".json"])
  {
    if p != "" && q != "" {
      assert FileName(p)[8..|FileName(p)| - 5] == p && FileName(q)[8..|FileName(q)| - 5] == q;
    } else {
      assert FileName("")[7] == '.';
      assert p != "" ==> FileName(p)[7] == '-';
      assert q != "" ==> FileName(q)[7] == '-';
    }
  }

  /** Whatever session could be read can be read, unless it is one of these. */
  ghost predicate SessionsKept(a: Fs, s: Fs, dir: string, but: set<string>)
    requires Closed(a) && Closed(s)
  {
    forall p: string | p !in but && ReadSpec(a, dir, PathOf(p)).Ok? ::
      ReadSpec(s, dir, PathOf(p)) == ReadSpec(a, dir, PathOf(p))
  }

  lemma OtherSessionsKept(a: Fs, s: Fs, dir: string, provider: string)
    requires Closed(a) && Closed(s) && IsLocal(PathOf(provider)) && OthersReadSame(a, s, dir, PathOf(provider))
    ensures SessionsKept(a, s, dir, {provider})
  {
    PathUsual(provider);
    forall p: string | p != provider && ReadSpec(a, dir, PathOf(p)).Ok?
      ensures ReadSpec(s, dir, PathOf(p)) == ReadSpec(a, dir, PathOf(p))
    {
      PathUsual(p);
      PathsDiffer(p, provider);
    }
  }

  class Manager {
    const h: Machine
    const clock: L.Clock
    const dir: string
    const ttl: int64
    const codec: Codec

    /** NewManager. */
    constructor (h: Machine, clock: L.Clock, dir: string, ttl: int64, codec: Codec)
      ensures this.h == h && this.clock == clock && this.dir == dir && this.codec == codec
      ensures this.ttl == if ttl == 0 then DEFAULT_TTL else ttl
    {
      this.h, this.clock, this.dir, this.codec := h, clock, dir, codec;
      this.ttl := if ttl == 0 then DEFAULT_TTL else ttl;
    }

    /** Save. */
    method Save(provider: string, key: string) returns (err: Option<Error>, ghost created: int)
      requires h.Valid()
      modifies h`fs, h`acts, h`trail, h`faults, h`pc, h`sights, clock
      ensures h.Valid() && old(h.faults) <= h.faults && old(clock.now) <= created && created == clock.now
      ensures !ValidProvider(provider) || codec.encode(Fresh(provider, key, created, ttl)).None? ==>
        err.Some? && h.fs == old(h.fs)
      ensures h.alone && err.Some? && h.faults == old(h.faults) ==>
        !ValidProvider(provider) || codec.encode(Fresh(provider, key, created, ttl)).None?
          || WriteHindered(h.fs, dir, PathOf(provider), err.value)
      ensures h.alone && err.None? ==>
        var bytes := codec.encode(Fresh(provider, key, created, ttl));
          bytes.Some? && ReadSpec(h.fs, dir, PathOf(provider)) == Ok(bytes.value)
      ensures h.alone && Planted(old(h.fs), dir) ==>
        Planted(h.fs, dir) && SessionsKept(old(h.fs), h.fs, dir, {provider})
    {
      created := clock.now;
      if !ValidProvider(provider) {
        return Some(Rejected), created;
      }
      var now := clock.Now();
      created := now;
      var data := codec.encode(Fresh(provider, key, now, ttl));
      if data.None? {
        return Some(Malformed), now;
      }
      PathUsual(provider);
      err := WriteNamed(h, dir, PathOf(provider), data.value);
      if h.alone && Planted(old(h.fs), dir) {
        OtherSessionsKept(old(h.fs), h.fs, dir, provider);
      }
    }

    /** What Resolve finds in the cache. */
    ghost function CacheSpec(provider: string, now: int): Result<string>
      reads h
      requires h.Valid()
    {
      match ReadSpec(h.fs, dir, PathOf(provider))
      case Err(e) => if e == NotExist then Ok("") else Err(e)
      case Ok(bytes) =>
        match codec.decode(bytes)
        case None => Err(Malformed)
        case Some(s) => Ok(if IsExpired(s, now) then "" else s.key)
    }

    /** Resolve: the explicit value, else the first variable set, else the cache. */
    method Resolve(provider: string, explicit: string, env: seq<string>) returns (r: Result<string>)
      requires h.Valid()
      modifies h`fs, h`acts, h`trail, h`faults, h`pc, h`sights, clock
      ensures h.Valid() && old(h.faults) <= h.faults && old(clock.now) <= clock.now && h.trail == old(h.trail)
      ensures h.alone ==> h.fs == old(h.fs)
      ensures !ValidProvider(provider) ==> r == Err(Rejected)
      ensures ValidProvider(provider) && explicit != "" ==> r == Ok(explicit)
      ensures ValidProvider(provider) && explicit == "" && FirstSet(env) != "" ==> r == Ok(FirstSet(env))
      ensures ValidProvider(provider) && explicit == "" && FirstSet(env) == "" && h.alone && h.faults == old(h.faults)
        ==> r == CacheSpec(provider, clock.now)
    {
      if !ValidProvider(provider) {
        return Err(Rejected);
      }
      if explicit != "" {
        return Ok(explicit);
      }
      for k := 0 to |env|
        invariant FirstSet(env) == FirstSet(env[k..])
      {
        if env[k] != "" {
          return Ok(env[k]);
        }
      }
      ghost var chain, ino;
      var data;
      data, chain, ino := ReadSecureAt(h, dir, PathOf(provider));
      if data.Err? {
        return if data.error == NotExist then Ok("") else Err(data.error);
      }
      var s := codec.decode(data.value);
      if s.None? {
        return Err(Malformed);
      }
      var now := clock.Now();
      r := Ok(if IsExpired(s.value, now) then "" else s.value.key);
    }
  }

  /** The first variable that is set to anything. */
  function FirstSet(env: seq<string>): string {
    if env == [] then "" else if env[0] != "" then env[0] else FirstSet(env[1..])
  }

  /** The first value that is not empty, if there is one. */
  lemma {:induction false} FirstSetMeans(env: seq<string>)
    ensures FirstSet(env) == "" <==> forall k | 0 <= k < |env| :: env[k] == ""
    ensures FirstSet(env) != "" ==>
      exists k | 0 <= k < |env| :: env[k] == FirstSet(env) && forall j | 0 <= j < k :: env[j] == ""
  {
    if env != [] && env[0] == "" {
      FirstSetMeans(env[1..]);
      assert forall k | 0 < k < |env| :: env[k] == env[1..][k - 1];
      if FirstSet(env) != "" {
        var k :| 0 <= k < |env| - 1 && env[1..][k] == FirstSet(env) && forall j | 0 <= j < k :: env[1..][j] == "";
        assert env[k + 1] == FirstSet(env);
      }
    }
  }

  /** What was saved is what the cache answers, until the precise expiry. */
  lemma SavedResolves(m: Manager, provider: string, key: string, created: int, now: int)
    requires m.h.Valid() && Lawful(m.codec) && m.codec.encode(Fresh(provider, key, created, m.ttl)).Some?
    requires ReadSpec(m.h.fs, m.dir, PathOf(provider)) == Ok(m.codec.encode(Fresh(provider, key, created, m.ttl)).value)
    ensures m.CacheSpec(provider, now) == Ok(if now < created + m.ttl as int then key else "")
  {
  }

  /** Any number of saves for other providers, whether they succeed or not. */
  method SaveOthers(m: Manager, others: seq<(string, string)>, provider: string)
    requires m.h.Valid() && m.h.alone && Planted(m.h.fs, m.dir)
    requires forall k | 0 <= k < |others| :: others[k].0 != provider
    modifies m.h`fs, m.h`acts, m.h`trail, m.h`faults, m.h`pc, m.h`sights, m.clock
    ensures m.h.Valid()
    ensures ReadSpec(old(m.h.fs), m.dir, PathOf(provider)).Ok? ==>
      ReadSpec(m.h.fs, m.dir, PathOf(provider)) == ReadSpec(old(m.h.fs), m.dir, PathOf(provider))
  {
    for k := 0 to |others|
      invariant m.h.Valid() && Planted(m.h.fs, m.dir)
      invariant ReadSpec(old(m.h.fs), m.dir, PathOf(provider)).Ok? ==>
        ReadSpec(m.h.fs, m.dir, PathOf(provider)) == ReadSpec(old(m.h.fs), m.dir, PathOf(provider))
    {
      ghost var err, created;
      err, created := m.Save(others[k].0, others[k].1);
    }
  }

  /** From Save to Resolve: a key that was saved is what Resolve answers before
      its precise expiry, and from then on nothing, whatever was saved for other
      providers in between, well or badly. */
  method SaveThenResolve(m: Manager, provider: string, key: string, others: seq<(string, string)>, env: seq<string>)
    returns (r: Result<string>, saved: bool, ghost created: int, ghost broken: bool)
    requires m.h.Valid() && m.h.alone && Planted(m.h.fs, m.dir) && Lawful(m.codec) && FirstSet(env) == ""
    requires forall k | 0 <= k < |others| :: others[k].0 != provider
    modifies m.h`fs, m.h`acts, m.h`trail, m.h`faults, m.h`pc, m.h`sights, m.clock
    ensures saved && !broken ==> r == Ok(if m.clock.now < created + m.ttl as int then key else "")
  {
    var err;
    err, created := m.Save(provider, key);
    saved := err.None?;
    SaveOthers(m, others, provider);
    ghost var faults := m.h.faults;
    r := m.Resolve(provider, "", env);
    broken := m.h.faults != faults;
    if saved && !broken {
      SavedResolves(m, provider, key, created, m.clock.now);
    }
  }
}
