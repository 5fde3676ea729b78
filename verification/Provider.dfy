/** Everything a rotation asks of the world outside the file system, as the
    journal of requests and answers it leaves behind. */
module Provider {
  import opened Basics
  import opened Tokens

  datatype Token = Token(
    value: string,
    name: string,
    id: string,
    scope: Option<map<string, string>>,
    issuedAt: Instant,
    expiresAt: Option<Instant>)

  datatype Remote =
    | Issued(reply: Result<Option<Token>>)
    | Validated(value: string, accepted: bool)
    | RevokeSent(id: string)                   // the request has left; nothing is known yet
    | RevokeDone(id: string, ok: bool)
    | Recorded(entry: Metadata, ok: bool)      // the ledger took the replacement, or did not
    | Unrecorded(id: string, ok: bool)
    | Audited(action: string, name: string, success: bool, logged: bool)

  /** A replacement the caller can use in place of the old token. */
  predicate Usable(t: Option<Token>, oldId: string) {
    t.Some? && t.value.id != "" && t.value.value != "" && t.value.id != oldId
  }

  function EntryFor(t: Token, provider: string, source: string): Metadata {
    Metadata(provider, t.name, t.id, t.issuedAt, t.expiresAt, t.scope, "", source)
  }

  /** The entry says of this token what there is to say, as far as encoding keeps it:
      an empty scope is none. */
  predicate Describes(m: Metadata, t: Token, provider: string, source: string) {
    && m.provider == provider && m.id == t.id && m.name == t.name && m.source == source && m.masterKey == ""
    && m.issuedAt == t.issuedAt && m.expiresAt == t.expiresAt
    && m.scope == if t.scope == Some(map[]) then None else t.scope
  }

  /** The entry a rotation records describes the issued token, and so is expired
      exactly when the token is. */
  lemma EntryDescribes(t: Token, provider: string, source: string)
    ensures Describes(Normalise(EntryFor(t, provider, source)), t, provider, source)
    ensures forall now ::
      IsExpired(EntryFor(t, provider, source), now) <==> t.expiresAt.Some? && t.expiresAt.value < now
  {
  }

  /** Someone in the list describes the token. */
  predicate Described(es: seq<Metadata>, t: Token, provider: string, source: string) {
    exists k | 0 <= k < |es| :: Describes(es[k], t, provider, source)
  }

  lemma RecordedDescribed(es: seq<Metadata>, t: Token, provider: string, source: string)
    ensures Described(NormaliseAll(es + [EntryFor(t, provider, source)]), t, provider, source)
  {
    EntryDescribes(t, provider, source);
    var all := NormaliseAll(es + [EntryFor(t, provider, source)]);
    assert Describes(all[|es|], t, provider, source);
  }

  /** Removing another ID takes the description of none. */
  lemma StillDescribed(before: seq<Metadata>, after: seq<Metadata>, t: Token, provider: string, source: string,
                       id: string)
    requires Described(before, t, provider, source) && Lost(before, after, provider, ById(id)) && t.id != id
    ensures Described(after, t, provider, source)
  {
    var k :| 0 <= k < |before| && Describes(before[k], t, provider, source);
    var m := before[k];
    assert NormaliseAll(before)[k] == m && m in multiset(NormaliseAll(before));
    assert multiset(after)[m] > 0;
    var j :| 0 <= j < |after| && after[j] == m;
  }
}
