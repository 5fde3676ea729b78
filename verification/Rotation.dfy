/** sts/rotate.go: replace a token step by step, every step able to fail. */
module Rotation {
  import opened Basics
  import opened Filesystem
  import opened Tokens
  import opened Provider
  import opened Host
  import opened AbsoluteStore
  import opened L = Ledger
  import opened RotationRules

  class Context {
    var cancelled: bool
    ghost var waits: seq<int>   // the waits asked for, in order

    constructor ()
    {
      cancelled, waits := *, [];
    }

    /** ctx.Err: once cancelled, always cancelled. */
    method Err() returns (err: Option<Error>)
      modifies `cancelled
      ensures old(cancelled) ==> cancelled
      ensures err == if cancelled then Some(Canceled) else None
    {
      var now: bool := *;
      cancelled := cancelled || now;
      err := if cancelled then Some(Canceled) else None;
    }

    /** The wait before the old token goes: the timer fires or ctx is done. */
    method Wait(d: int) returns (err: Option<Error>)
      modifies this
      ensures waits == old(waits) + [d]
      ensures old(cancelled) ==> cancelled
      ensures err.Some? ==> cancelled && err == Some(Canceled)
    {
      var fired: bool := *;
      waits := waits + [d];
      if fired {
        return None;
      }
      cancelled := true;
      err := Some(Canceled);
    }
  }

  /** The token provider: it may refuse anything, and answers as it likes. */
  class Service {
    const name: string

    constructor (name: string)
      ensures this.name == name
    {
      this.name := name;
    }

    method Issue(h: Machine) returns (reply: Result<Option<Token>>)
      modifies h`trail, h`calls
      ensures h.calls == old(h.calls) + [Issued(reply)]
      ensures h.trail == old(h.trail) + [Moment(h.fs, h.calls)]
    {
      reply := *;
      Journal(h, Issued(reply));
    }

    method Validate(h: Machine, value: string) returns (accepted: bool)
      modifies h`trail, h`calls
      ensures h.calls == old(h.calls) + [Validated(value, accepted)]
      ensures h.trail == old(h.trail) + [Moment(h.fs, h.calls)]
    {
      accepted := *;
      Journal(h, Validated(value, accepted));
    }

    method Revoke(h: Machine, id: string) returns (ok: bool)
      modifies h`trail, h`calls
      ensures h.calls == old(h.calls) + [RevokeSent(id), RevokeDone(id, ok)]
      ensures h.trail == old(h.trail) + [Moment(h.fs, old(h.calls) + [RevokeSent(id)]), Moment(h.fs, h.calls)]
    {
      Journal(h, RevokeSent(id));
      ok := *;
      Journal(h, RevokeDone(id, ok));
      assert h.calls == old(h.calls) + [RevokeSent(id), RevokeDone(id, ok)];
    }
  }

  method Journal(h: Machine, e: Remote)
    modifies h`trail, h`calls
    ensures h.calls == old(h.calls) + [e]
    ensures h.trail == old(h.trail) + [Moment(h.fs, h.calls)]
  {
    h.calls := h.calls + [e];
    h.trail := h.trail + [Moment(h.fs, h.calls)];
  }

  /** The watched ledger is this one; nobody else uses the file system meanwhile
      (`RotationThreads` has others in it), its codec works, and it starts with an
      entry for the old token. */
  ghost predicate Watches(w: Watch, h: Machine, l: Ledger, provider: string, source: string) {
    && h.alone && Lawful(w.codec) && Holds(w.initial, w, w.oldId)
    && w.codec == l.codec && w.dir == l.dir && w.base == l.base && w.provider == provider && w.source == source
  }

  /** Nobody else uses the file system, and the ledger's codec works. */
  ghost predicate Undisturbed(l: Ledger) {
    l.h.alone && Lawful(l.codec)
  }

  /** The ledger file decodes to a list that describes the token. */
  ghost predicate Shows(l: Ledger, t: Token, provider: string, source: string)
    reads l.h
  {
    l.Listed().Some? && Described(l.Listed().value, t, provider, source)
  }

  /** It decodes to a list without any entry of this provider and ID. */
  ghost predicate Clear(l: Ledger, provider: string, id: string)
    reads l.h
  {
    l.Listed().Some? && forall m | m in l.Listed().value :: !(m.provider == provider && m.id == id)
  }

  /** What the flags of a result say about the ledger's list. */
  ghost predicate Borne(cfg: Config, r: Progress, provider: string, oldId: string)
    reads if cfg.ledger.Some? then {cfg.ledger.value.h} else {}
  {
    cfg.ledger.Some? && Undisturbed(cfg.ledger.value) ==>
      && (r.ledgerRecorded ==>
            r.replacement.Some? && Shows(cfg.ledger.value, r.replacement.value, provider, cfg.source))
      && (r.oldLedgerRemoved ==> Clear(cfg.ledger.value, provider, oldId))
  }

  /** Record the replacement. */
  method RecordReplacement(h: Machine, mu: Mutex, l: Ledger, t: Token, provider: string, source: string, ghost w: Watch)
    returns (err: Option<Error>)
    requires l.h == h && l.mu == mu && l.Valid() && !mu.held
    requires w.start <= |h.calls|
    requires Watches(w, h, l, provider, source) ==>
      Approved(h.calls[w.start..], t, w.oldId) && OldStands(l.Content(), h.calls[w.start..], w)
    modifies h, mu
    ensures l.Valid() && !mu.held && h.calls == old(h.calls) + [Recorded(EntryFor(t, provider, source), err.None?)]
    ensures Watches(w, h, l, provider, source) ==> AllRecoverable(old(h.trail), h.trail, w)
    ensures Watches(w, h, l, provider, source) ==>
      if err.None? then l.Content() == RecordedImage(t, w) && Landed(l.Content(), h.calls[w.start..], t, w)
      else OldStands(l.Content(), h.calls[w.start..], w)
    ensures Undisturbed(l) && err.None? ==> Shows(l, t, provider, source)
  {
    var m := EntryFor(t, provider, source);
    ghost var out;
    err, out := l.Record(m);
    if Undisturbed(l) && err.None? {
      RecordedDescribed(old(l.Listed()).value, t, provider, source);
    }
    ghost var recorded := h.trail;
    Journal(h, Recorded(m, err.None?));
    ghost var js := old(h.calls)[w.start..];
    assert h.calls[w.start..] == js + [Recorded(m, err.None?)];
    if Watches(w, h, l, provider, source) {
      RecordRecoverable(old(h.trail), recorded, old(h.calls), t, w);
      if RecordedImage(t, w).Some? {
        RecordLands(js, t, w);
        RecordLands(js + [Recorded(m, err.None?)], t, w);
        LandedStands(RecordedImage(t, w), js, t, w);
      }
      RequestRecoverable(recorded, h.fs, old(h.calls), Recorded(m, err.None?), w);
    }
  }

  lemma LandedOn(content: Option<Bytes>, calls: seq<Remote>, more: seq<Remote>, t: Token, w: Watch)
    requires w.start <= |calls| && Landed(content, calls[w.start..], t, w)
    ensures Landed(content, (calls + more)[w.start..], t, w) && NewStands(content, (calls + more)[w.start..], w)
  {
    assert (calls + more)[w.start..] == calls[w.start..] + more;
    LandedStands(content, (calls + more)[w.start..], t, w);
  }

  /** What a transition asks for. */
  function Waits(transition: int): seq<int> {
    if transition > 0 then [transition] else []
  }

  /** The transition: wait, if asked to, and stop if the caller gave up. */
  method Transition(ctx: Context, transition: int) returns (err: Option<Error>)
    modifies ctx
    ensures old(ctx.cancelled) ==> ctx.cancelled
    ensures ctx.waits == old(ctx.waits) + Waits(transition)
    ensures err == if ctx.cancelled then Some(Canceled) else None
  {
    if transition > 0 {
      err := ctx.Wait(transition);
      if err.Some? {
        return;
      }
    }
    err := ctx.Err();
  }

  /** Revoke the old token, once its replacement stands in the ledger. */
  method RevokeOld(h: Machine, p: Service, t: Token, oldId: string, ghost w: Watch) returns (ok: bool)
    requires w.start <= |h.calls| && w.oldId == oldId
    modifies h`trail, h`calls
    ensures h.calls == old(h.calls) + [RevokeSent(oldId), RevokeDone(oldId, ok)]
    ensures Landed(Stored(h.fs, w.dir, w.base), old(h.calls)[w.start..], t, w) ==>
      AllRecoverable(old(h.trail), h.trail, w) && Landed(Stored(h.fs, w.dir, w.base), h.calls[w.start..], t, w)
  {
    ok := p.Revoke(h, oldId);
    ghost var content := Stored(h.fs, w.dir, w.base);
    if Landed(content, old(h.calls)[w.start..], t, w) {
      LandedOn(content, old(h.calls), [RevokeSent(oldId)], t, w);
      LandedOn(content, old(h.calls), [RevokeSent(oldId), RevokeDone(oldId, ok)], t, w);
    }
  }

  lemma RemovalWatched(before: seq<Moment>, removed: seq<Moment>, calls: seq<Remote>, fs: Fs, e: Remote, t: Token,
                       w: Watch)
    requires Lawful(w.codec) && w.start <= |calls| && Landed(RecordedImage(t, w), calls[w.start..], t, w)
    requires e.Unrecorded?
    requires var y := RemovedImage(t, w);
      TrailShows(before, removed, calls, w.dir, w.base, RecordedImage(t, w), if y.Some? then y else RecordedImage(t, w))
    requires e.ok ==> RemovedImage(t, w).Some?
    requires Stored(fs, w.dir, w.base) == if e.ok then RemovedImage(t, w) else RecordedImage(t, w)
    ensures AllRecoverable(before, removed + [Moment(fs, calls + [e])], w)
    ensures Landed(Stored(fs, w.dir, w.base), (calls + [e])[w.start..], t, w)
  {
    RemovalRecoverable(before, removed, calls, t, w);
    if e.ok {
      RemovalLands(calls[w.start..], t, w);
    }
    LandedOn(Stored(fs, w.dir, w.base), calls, [e], t, w);
  }

  lemma ListCleared(before: seq<Metadata>, after: seq<Metadata>, t: Token, provider: string, source: string,
                    oldId: string)
    requires Lost(before, after, provider, ById(oldId))
    ensures forall m | m in after :: !(m.provider == provider && m.id == oldId)
    ensures t.id != oldId && Described(before, t, provider, source) ==> Described(after, t, provider, source)
  {
    forall m | m in after ensures !(m.provider == provider && m.id == oldId) {
      assert multiset(after)[m] > 0;
    }
    if t.id != oldId && Described(before, t, provider, source) {
      StillDescribed(before, after, t, provider, source, oldId);
    }
  }

  /** Take the old token's entries out of the ledger. */
  method RemoveOld(h: Machine, mu: Mutex, l: Ledger, t: Token, provider: string, oldId: string, source: string,
                   ghost w: Watch)
    returns (err: Option<Error>)
    requires l.h == h && l.mu == mu && l.Valid() && !mu.held && w.start <= |h.calls| && w.oldId == oldId
    requires Watches(w, h, l, provider, source) ==>
      l.Content() == RecordedImage(t, w) && Landed(l.Content(), h.calls[w.start..], t, w)
    modifies h, mu
    ensures l.Valid() && !mu.held && h.calls == old(h.calls) + [Unrecorded(oldId, err.None?)]
    ensures Watches(w, h, l, provider, source) ==>
      && AllRecoverable(old(h.trail), h.trail, w)
      && l.Content() == (if err.None? then RemovedImage(t, w) else RecordedImage(t, w))
      && Landed(l.Content(), h.calls[w.start..], t, w)
    ensures Undisturbed(l) && t.id != oldId && old(Shows(l, t, provider, source)) ==> Shows(l, t, provider, source)
    ensures Undisturbed(l) && err.None? ==> Clear(l, provider, oldId)
  {
    ghost var out;
    err, out := l.RemoveById(provider, oldId);
    if Undisturbed(l) && err.None? {
      ListCleared(old(l.Listed()).value, l.Listed().value, t, provider, source, oldId);
    }
    ghost var removed := h.trail;
    Journal(h, Unrecorded(oldId, err.None?));
    if Watches(w, h, l, provider, source) {
      RemovalWatched(old(h.trail), removed, old(h.calls), h.fs, Unrecorded(oldId, err.None?), t, w);
    }
  }

  /** The watched ledger is the configured one. */
  ghost predicate Guarding(w: Watch, h: Machine, cfg: Config, provider: string) {
    cfg.ledger.Some? && Watches(w, h, cfg.ledger.value, provider, cfg.source)
  }

  ghost predicate Ready(h: Machine, mu: Mutex, cfg: Config)
    reads h, mu
  {
    !mu.held && (cfg.ledger.Some? ==> cfg.ledger.value.h == h && cfg.ledger.value.mu == mu && cfg.ledger.value.Valid())
  }

  /** From the recorded replacement on: wait, revoke, remove the old entry. */
  method Retire(h: Machine, mu: Mutex, ctx: Context, p: Service, t: Token, oldId: string, cfg: Config, ghost w: Watch)
    returns (r: Progress, action: string, name: string, cause: Option<Error>, ghost js: seq<Remote>)
    requires Ready(h, mu, cfg) && w.start <= |h.calls| && w.oldId == oldId && Usable(Some(t), oldId)
    requires cfg.ledger.Some? && Undisturbed(cfg.ledger.value) ==> Shows(cfg.ledger.value, t, p.name, cfg.source)
    requires Guarding(w, h, cfg, p.name) ==>
      Stored(h.fs, w.dir, w.base) == RecordedImage(t, w) && Landed(RecordedImage(t, w), h.calls[w.start..], t, w)
    modifies h, mu, ctx
    ensures Ready(h, mu, cfg) && h.calls == old(h.calls) + js
    ensures Borne(cfg, r, p.name, oldId)
    ensures r == Progress(Some(t), true, false, r.oldRevoked, cfg.ledger.Some?, r.oldLedgerRemoved, false)
    ensures r.oldLedgerRemoved ==> r.oldRevoked && cfg.ledger.Some?
    ensures if r.oldRevoked
      then js == [RevokeSent(oldId), RevokeDone(oldId, true)]
        + if cfg.ledger.Some? then [Unrecorded(oldId, r.oldLedgerRemoved)] else []
      else js == [RevokeSent(oldId), RevokeDone(oldId, false)] || (js == [] && ctx.cancelled)
    ensures ctx.waits == old(ctx.waits) + Waits(cfg.transition)
    ensures (action, name) == Label(r, t, js != [], oldId, cfg)
    ensures cause.None? <==> Done(Some(r), cfg)
    ensures Guarding(w, h, cfg, p.name) ==>
      AllRecoverable(old(h.trail), h.trail, w) && NewStands(Stored(h.fs, w.dir, w.base), h.calls[w.start..], w)
  {
    r := Progress(Some(t), true, false, false, cfg.ledger.Some?, false, false);
    js := [];
    if Guarding(w, h, cfg, p.name) {
      LandedStands(RecordedImage(t, w), h.calls[w.start..], t, w);
    }
    cause := Transition(ctx, cfg.transition);
    if cause.Some? {
      return r, "rotate:transition", t.name, cause, [];
    }
    var ok := RevokeOld(h, p, t, oldId, w);
    if Guarding(w, h, cfg, p.name) {
      LandedStands(RecordedImage(t, w), h.calls[w.start..], t, w);
    }
    if !ok {
      return r, "rotate:revoke", oldId, Some(Fault), [RevokeSent(oldId), RevokeDone(oldId, false)];
    }
    r, action, name, cause := r.(oldRevoked := true), "rotate", t.name, None;
    js := [RevokeSent(oldId), RevokeDone(oldId, true)];
    if cfg.ledger.Some? {
      ghost var mid := h.trail;
      cause := RemoveOld(h, mu, cfg.ledger.value, t, p.name, oldId, cfg.source, w);
      js := js + [Unrecorded(oldId, cause.None?)];
      r := r.(oldLedgerRemoved := cause.None?);
      action := if cause.None? then "rotate" else "rotate:record";
      if Guarding(w, h, cfg, p.name) {
        LandedStands(Stored(h.fs, w.dir, w.base), h.calls[w.start..], t, w);
      }
    }
  }

  /** From the approved replacement on: record it, then retire the old token. */
  method Complete(h: Machine, mu: Mutex, ctx: Context, p: Service, t: Token, oldId: string, cfg: Config, ghost w: Watch)
    returns (r: Progress, action: string, name: string, cause: Option<Error>, ghost js: seq<Remote>)
    requires Ready(h, mu, cfg) && w.start <= |h.calls| && w.oldId == oldId && Usable(Some(t), oldId)
    requires Guarding(w, h, cfg, p.name) ==>
      Approved(h.calls[w.start..], t, oldId) && OldStands(Stored(h.fs, w.dir, w.base), h.calls[w.start..], w)
    modifies h, mu, ctx
    ensures Ready(h, mu, cfg) && h.calls == old(h.calls) + js && Completion(js, r, t, oldId, p.name, cfg)
    ensures Borne(cfg, r, p.name, oldId)
    ensures cause.None? <==> Done(Some(r), cfg)
    ensures RevokeSent(oldId) !in js ==> ctx.cancelled || (cfg.ledger.Some? && !r.ledgerRecorded)
    ensures RevokeSent(oldId) in js ==> ctx.waits == old(ctx.waits) + Waits(cfg.transition)
    ensures (action, name) == Label(r, t, RevokeSent(oldId) in js, oldId, cfg)
    ensures Guarding(w, h, cfg, p.name) ==>
      AllRecoverable(old(h.trail), h.trail, w) && Standing(Stored(h.fs, w.dir, w.base), h.calls[w.start..], w)
  {
    ghost var recorded := [];
    if cfg.ledger.Some? {
      cause := RecordReplacement(h, mu, cfg.ledger.value, t, p.name, cfg.source, w);
      recorded := [Recorded(EntryFor(t, p.name, cfg.source), cause.None?)];
      if cause.Some? {
        return Progress(Some(t), true, false, false, false, false, false), "rotate:record", t.name, cause, recorded;
      }
    }
    r, action, name, cause, js := Retire(h, mu, ctx, p, t, oldId, cfg, w);
    js := recorded + js;
  }

  /** One request whose answer changes nothing on disk. */
  lemma Requested(h: Machine, before: seq<Moment>, calls: seq<Remote>, e: Remote, w: Watch)
    requires w.start <= |calls| && e != RevokeSent(w.oldId)
    requires Standing(Stored(h.fs, w.dir, w.base), calls[w.start..], w)
    requires h.calls == calls + [e] && h.trail == before + [Moment(h.fs, h.calls)]
    ensures AllRecoverable(before, h.trail, w) && Standing(Stored(h.fs, w.dir, w.base), h.calls[w.start..], w)
  {
    RequestRecoverable(before, h.fs, calls, e, w);
  }

  /** A replacement that fails validation is revoked again. */
  method Rollback(h: Machine, p: Service, t: Token, ghost w: Watch) returns (ok: bool)
    requires w.start <= |h.calls| && t.id != w.oldId
    modifies h`trail, h`calls
    ensures h.calls == old(h.calls) + [RevokeSent(t.id), RevokeDone(t.id, ok)]
    ensures Standing(Stored(h.fs, w.dir, w.base), old(h.calls)[w.start..], w) ==>
      AllRecoverable(old(h.trail), h.trail, w) && Standing(Stored(h.fs, w.dir, w.base), h.calls[w.start..], w)
  {
    ok := p.Revoke(h, t.id);
    if Standing(Stored(h.fs, w.dir, w.base), old(h.calls)[w.start..], w) {
      ghost var sent := old(h.calls) + [RevokeSent(t.id)];
      RequestRecoverable(old(h.trail), h.fs, old(h.calls), RevokeSent(t.id), w);
      RequestRecoverable(old(h.trail) + [Moment(h.fs, sent)], h.fs, sent, RevokeDone(t.id, ok), w);
      assert h.calls == sent + [RevokeDone(t.id, ok)];
    }
  }

  /** finish: the one audit entry, and what its own failure does to the outcome. */
  method Finish(h: Machine, cfg: Config, action: string, name: string, result: Option<Progress>, cause: Option<Error>,
                ghost w: Watch)
    returns (r: Option<Progress>, err: Option<Error>, ghost js: seq<Remote>)
    requires w.start <= |h.calls|
    modifies h`trail, h`calls
    ensures h.calls == old(h.calls) + js
    ensures !cfg.audit ==> js == [] && r == result && err == cause && h.trail == old(h.trail)
    ensures cfg.audit ==>
      |js| == 1 && js[0].Audited? && js[0].success == cause.None? && (js[0].action, js[0].name) == (action, name)
    ensures cfg.audit ==> (err.None? <==> cause.None? && js[0].logged)
    ensures cfg.audit ==> r == if js[0].logged && result.Some? then Some(result.value.(auditLogged := true)) else result
    ensures Standing(Stored(h.fs, w.dir, w.base), old(h.calls)[w.start..], w) ==>
      AllRecoverable(old(h.trail), h.trail, w)
  {
    js, r, err := [], result, cause;
    if cfg.audit {
      var logged: bool := *;
      js := [Audited(action, name, cause.None?, logged)];
      Journal(h, Audited(action, name, cause.None?, logged));
      if Standing(Stored(h.fs, w.dir, w.base), old(h.calls)[w.start..], w) {
        Requested(h, old(h.trail), old(h.calls), js[0], w);
      }
      if !logged {
        err := Some(Fault);
      } else if result.Some? {
        r := Some(result.value.(auditLogged := true));
      }
    }
  }

  /** Apply the options in order. */
  method Configure(opts: seq<Option<RotateOption>>) returns (cfg: Config)
    ensures cfg == Configured(opts)
  {
    cfg := Config(0, None, false, "");
    for k := 0 to |opts|
      invariant cfg == Configured(opts[..k])
    {
      assert opts[..k + 1][..k] == opts[..k];
      match opts[k]
      case None =>
      case Some(WithTransition(d)) => cfg := cfg.(transition := d);
      case Some(WithLedger(l)) => cfg := cfg.(ledger := l);
      case Some(WithAudit(logger, origin)) => cfg := cfg.(audit := logger, source := origin);
    }
    assert opts[..|opts|] == opts;
  }

  /** Ask whether the issued replacement works. */
  method Check(h: Machine, p: Service, t: Token, ghost w: Watch) returns (accepted: bool)
    requires w.start <= |h.calls| && h.calls[w.start..] == [Issued(Ok(Some(t)))]
    modifies h`trail, h`calls
    ensures h.calls == old(h.calls) + [Validated(t.value, accepted)]
    ensures h.calls[w.start..] == [Issued(Ok(Some(t))), Validated(t.value, accepted)]
    ensures OldStands(Stored(h.fs, w.dir, w.base), old(h.calls)[w.start..], w) ==>
      AllRecoverable(old(h.trail), h.trail, w) && OldStands(Stored(h.fs, w.dir, w.base), h.calls[w.start..], w)
  {
    accepted := p.Validate(h, t.value);
    if OldStands(Stored(h.fs, w.dir, w.base), old(h.calls)[w.start..], w) {
      Requested(h, old(h.trail), old(h.calls), Validated(t.value, accepted), w);
    }
    assert h.calls[w.start..] == [Issued(Ok(Some(t))), Validated(t.value, accepted)];
  }

  /** The end of a rotation whose replacement failed validation. */
  method TakeBack(h: Machine, p: Service, t: Token, oldId: string, cfg: Config, ghost w: Watch)
    returns (r: Progress, ghost js: seq<Remote>)
    requires w.start <= |h.calls| && w.oldId == oldId && Usable(Some(t), oldId)
    modifies h`trail, h`calls
    ensures h.calls == old(h.calls) + js && RevokeSent(oldId) !in js
    ensures r == Progress(Some(t), false, r.newRevoked, false, false, false, false)
    ensures var all := [Issued(Ok(Some(t)))] + ([Validated(t.value, false)] + js);
      Settled(all, Some(r), Some(Fault), oldId, p.name, cfg)
    ensures Standing(Stored(h.fs, w.dir, w.base), old(h.calls)[w.start..], w) ==>
      AllRecoverable(old(h.trail), h.trail, w) && Standing(Stored(h.fs, w.dir, w.base), h.calls[w.start..], w)
  {
    var ok := Rollback(h, p, t, w);
    r, js := Progress(Some(t), false, ok, false, false, false, false), [RevokeSent(t.id), RevokeDone(t.id, ok)];
    RollbackSettled(t, ok, oldId, p.name, cfg);
    assert [Validated(t.value, false)] + js == [Validated(t.value, false), RevokeSent(t.id), RevokeDone(t.id, ok)];
  }

  /** The rest of a rotation whose replacement passed validation. */
  method GoOn(h: Machine, mu: Mutex, ctx: Context, p: Service, t: Token, oldId: string, cfg: Config, ghost w: Watch)
    returns (r: Progress, action: string, name: string, cause: Option<Error>, ghost js: seq<Remote>)
    requires Ready(h, mu, cfg) && w.start <= |h.calls| && w.oldId == oldId && Usable(Some(t), oldId)
    requires Guarding(w, h, cfg, p.name) ==>
      Approved(h.calls[w.start..], t, oldId) && OldStands(Stored(h.fs, w.dir, w.base), h.calls[w.start..], w)
    modifies h, mu, ctx
    ensures Ready(h, mu, cfg) && h.calls == old(h.calls) + js && r.newValidated && r.replacement == Some(t)
    ensures Borne(cfg, r, p.name, oldId)
    ensures Settled([Issued(Ok(Some(t)))] + ([Validated(t.value, true)] + js), Some(r), cause, oldId, p.name, cfg)
    ensures RevokeSent(oldId) !in js ==> ctx.cancelled || (cfg.ledger.Some? && !r.ledgerRecorded)
    ensures RevokeSent(oldId) in js ==> ctx.waits == old(ctx.waits) + Waits(cfg.transition)
    ensures (action, name) == Label(r, t, RevokeSent(oldId) in js, oldId, cfg)
    ensures Guarding(w, h, cfg, p.name) ==>
      AllRecoverable(old(h.trail), h.trail, w) && Standing(Stored(h.fs, w.dir, w.base), h.calls[w.start..], w)
  {
    r, action, name, cause, js := Complete(h, mu, ctx, p, t, oldId, cfg, w);
    CompletionSettled(js, r, cause, t, oldId, p.name, cfg);
  }

  /** Validate the issued replacement and go on with it, or take it back. */
  method Adopt(h: Machine, mu: Mutex, ctx: Context, p: Service, t: Token, oldId: string, cfg: Config, ghost w: Watch)
    returns (r: Progress, action: string, name: string, cause: Option<Error>, ghost js: seq<Remote>)
    requires Ready(h, mu, cfg) && w.start <= |h.calls| && w.oldId == oldId && Usable(Some(t), oldId)
    requires h.calls[w.start..] == [Issued(Ok(Some(t)))]
    requires Guarding(w, h, cfg, p.name) ==> OldStands(Stored(h.fs, w.dir, w.base), h.calls[w.start..], w)
    modifies h, mu, ctx
    ensures Ready(h, mu, cfg) && h.calls == old(h.calls) + js
    ensures Borne(cfg, r, p.name, oldId)
    ensures Settled([Issued(Ok(Some(t)))] + js, Some(r), cause, oldId, p.name, cfg)
    ensures Guarding(w, h, cfg, p.name) ==>
      AllRecoverable(old(h.trail), h.trail, w) && Standing(Stored(h.fs, w.dir, w.base), h.calls[w.start..], w)
    ensures r.newValidated && RevokeSent(oldId) !in js ==> ctx.cancelled || (cfg.ledger.Some? && !r.ledgerRecorded)
    ensures RevokeSent(oldId) in js ==> ctx.waits == old(ctx.waits) + Waits(cfg.transition)
    ensures r.replacement == Some(t) && (action, name) == Label(r, t, RevokeSent(oldId) in js, oldId, cfg)
  {
    var accepted := Check(h, p, t, w);
    if !accepted {
      ghost var refused := h.trail;
      r, js := TakeBack(h, p, t, oldId, cfg, w);
      js := [Validated(t.value, false)] + js;
      if Guarding(w, h, cfg, p.name) {
        AllRecoverableOn(old(h.trail), refused, h.trail, w);
      }
      return r, "rotate:validate", t.name, Some(Fault), js;
    }
    ghost var checked, more := h.trail, [];
    r, action, name, cause, more := GoOn(h, mu, ctx, p, t, oldId, cfg, w);
    js := [Validated(t.value, true)] + more;
    if Guarding(w, h, cfg, p.name) {
      AllRecoverableOn(old(h.trail), checked, h.trail, w);
    }
  }

  /** The watch a rotation is under: the ledger as it finds it. */
  ghost function WatchOf(h: Machine, cfg: Config, provider: string, oldId: string): Watch
    reads h
  {
    var start := |h.calls|;
    if cfg.ledger.None? then Watch(Codec(_ => None, _ => None), "", "", None, provider, oldId, "", start)
    else
      var l := cfg.ledger.value;
      Watch(l.codec, l.dir, l.base, Stored(h.fs, l.dir, l.base), provider, oldId, cfg.source, start)
  }

  /** Ask for a replacement. */
  method Order(h: Machine, p: Service, cfg: Config, ghost w: Watch) returns (reply: Result<Option<Token>>)
    requires w.start == |h.calls|
    modifies h`trail, h`calls
    ensures h.calls == old(h.calls) + [Issued(reply)] && h.calls[w.start..] == [Issued(reply)]
    ensures Guarding(w, h, cfg, p.name) && Stored(h.fs, w.dir, w.base) == w.initial ==>
      AllRecoverable(old(h.trail), h.trail, w) && OldStands(Stored(h.fs, w.dir, w.base), h.calls[w.start..], w)
  {
    reply := p.Issue(h);
    if Guarding(w, h, cfg, p.name) && Stored(h.fs, w.dir, w.base) == w.initial {
      assert old(h.calls)[w.start..] == [];
      Requested(h, old(h.trail), old(h.calls), Issued(reply), w);
    }
    assert h.calls[w.start..] == [Issued(reply)];
  }

  /** The ends of a rotation that got no token, or none that can replace the old one. */
  method TurnDown(reply: Result<Option<Token>>, oldId: string, requested: string, provider: string, cfg: Config)
    returns (r: Option<Progress>, action: string, name: string, cause: Option<Error>)
    requires reply.Err? || !Usable(reply.value, oldId)
    ensures Settled([Issued(reply)], r, cause, oldId, provider, cfg)
    ensures r.Some? ==> !r.value.newValidated && !r.value.ledgerRecorded && !r.value.oldLedgerRemoved
    ensures (action, name) == LabelOf(r, false, requested, oldId, cfg)
  {
    IssuedSettled(reply, oldId, provider, cfg);
    if reply.Err? {
      return None, "rotate:issue", requested, Some(reply.error);
    }
    r := Some(Progress(reply.value, false, false, false, false, false, false));
    return r, "rotate:issue", requested, Some(Rejected);
  }

  /** Everything before the audit. */
  method Attempt(h: Machine, mu: Mutex, ctx: Context, p: Service, oldId: string, requested: string, cfg: Config,
                 ghost w: Watch)
    returns (r: Option<Progress>, action: string, name: string, cause: Option<Error>, ghost js: seq<Remote>)
    requires Ready(h, mu, cfg) && w.start == |h.calls| && w.oldId == oldId
    requires Guarding(w, h, cfg, p.name) ==> Stored(h.fs, w.dir, w.base) == w.initial
    modifies h, mu, ctx
    ensures Ready(h, mu, cfg) && h.calls == old(h.calls) + js && Settled(js, r, cause, oldId, p.name, cfg)
    ensures r.Some? ==> Borne(cfg, r.value, p.name, oldId)
    ensures Guarding(w, h, cfg, p.name) ==>
      AllRecoverable(old(h.trail), h.trail, w) && Standing(Stored(h.fs, w.dir, w.base), h.calls[w.start..], w)
    ensures r.Some? && r.value.newValidated && RevokeSent(oldId) !in js ==>
      ctx.cancelled || (cfg.ledger.Some? && !r.value.ledgerRecorded)
    ensures RevokeSent(oldId) in js ==> ctx.waits == old(ctx.waits) + Waits(cfg.transition)
    ensures (action, name) == LabelOf(r, RevokeSent(oldId) in js, requested, oldId, cfg)
  {
    var reply := Order(h, p, cfg, w);
    js := [Issued(reply)];
    if reply.Err? || !Usable(reply.value, oldId) {
      r, action, name, cause := TurnDown(reply, oldId, requested, p.name, cfg);
      return;
    }
    ghost var ordered, more := h.trail, [];
    var progress;
    progress, action, name, cause, more := Adopt(h, mu, ctx, p, reply.value.value, oldId, cfg, w);
    r := Some(progress);
    js := [Issued(Ok(Some(reply.value.value)))] + more;
    assert h.calls == old(h.calls) + js;
    if Guarding(w, h, cfg, p.name) {
      AllRecoverableOn(old(h.trail), ordered, h.trail, w);
    }
  }

  /** The audit entry is the last and changes nothing the label goes by. */
  lemma AuditLabels(js: seq<Remote>, r: Option<Progress>, tail: seq<Remote>, result: Option<Progress>,
                    requested: string, oldId: string, cfg: Config)
    requires Flags(result) == Flags(r)
    requires if cfg.audit
      then |tail| == 1 && tail[0].Audited?
        && (tail[0].action, tail[0].name) == LabelOf(r, RevokeSent(oldId) in js, requested, oldId, cfg)
      else tail == []
    ensures Labelled(js + tail, result, requested, oldId, cfg)
    ensures (RevokeSent(oldId) in js + tail <==> RevokeSent(oldId) in js)
  {
    assert js + [] == js;
    if cfg.audit {
      assert (js + tail)[|js|] == tail[0];
    }
  }

  /** The audit, and the report it completes. */
  method Conclude(h: Machine, cfg: Config, oldId: string, provider: string, requested: string, action: string,
                  name: string, r: Option<Progress>, cause: Option<Error>, ghost js: seq<Remote>,
                  ghost before: seq<Moment>, ghost guarded: bool, ghost w: Watch)
    returns (result: Option<Progress>, err: Option<Error>, ghost tail: seq<Remote>)
    requires w.start <= |h.calls| && Settled(js, r, cause, oldId, provider, cfg)
    requires (action, name) == LabelOf(r, RevokeSent(oldId) in js, requested, oldId, cfg)
    requires guarded ==>
      AllRecoverable(before, h.trail, w) && Standing(Stored(h.fs, w.dir, w.base), h.calls[w.start..], w)
    modifies h`trail, h`calls
    ensures h.calls == old(h.calls) + tail && Reported(js + tail, result, err, oldId, provider, cfg)
    ensures Flags(result) == Flags(r) && Labelled(js + tail, result, requested, oldId, cfg)
    ensures RevokeSent(oldId) in js + tail <==> RevokeSent(oldId) in js
    ensures guarded ==> AllRecoverable(before, h.trail, w)
  {
    ghost var trail := h.trail;
    result, err, tail := Finish(h, cfg, action, name, r, cause, w);
    SettledReported(js, r, cause, tail, result, err, oldId, provider, cfg);
    AuditLabels(js, r, tail, result, requested, oldId, cfg);
    if guarded {
      AllRecoverableOn(before, trail, h.trail, w);
    }
  }

  /** A result up to its audit flag. */
  function Flags(r: Option<Progress>): Option<Progress> {
    if r.Some? then Some(r.value.(auditLogged := false)) else None
  }

  lemma AllRecoverableOn(t0: seq<Moment>, t1: seq<Moment>, t2: seq<Moment>, w: Watch)
    requires AllRecoverable(t0, t1, w) && AllRecoverable(t1, t2, w)
    ensures AllRecoverable(t0, t2, w)
  {
  }

  /** Rotate once its arguments are accepted. */
  method Proceed(h: Machine, mu: Mutex, ctx: Context, p: Service, oldId: string, requested: string, cfg: Config)
    returns (result: Option<Progress>, err: Option<Error>, ghost js: seq<Remote>)
    requires Ready(h, mu, cfg)
    modifies h, mu, ctx
    ensures Ready(h, mu, cfg) && h.calls == old(h.calls) + js
    ensures result.Some? ==> Borne(cfg, result.value, p.name, oldId)
    ensures Reported(js, result, err, oldId, p.name, cfg) && Labelled(js, result, requested, oldId, cfg)
    ensures RevokeSent(oldId) in js ==> ctx.waits == old(ctx.waits) + Waits(cfg.transition)
    ensures result.Some? && result.value.newValidated && RevokeSent(oldId) !in js ==>
      ctx.cancelled || (cfg.ledger.Some? && !result.value.ledgerRecorded)
    ensures Guarding(old(WatchOf(h, cfg, p.name, oldId)), h, cfg, p.name) ==>
      AllRecoverable(old(h.trail), h.trail, old(WatchOf(h, cfg, p.name, oldId)))
  {
    ghost var w := WatchOf(h, cfg, p.name, oldId);
    var r, action, name, cause;
    ghost var first, tail;
    r, action, name, cause, first := Attempt(h, mu, ctx, p, oldId, requested, cfg, w);
    ghost var calls := h.calls;
    result, err, tail := Conclude(h, cfg, oldId, p.name, requested, action, name, r, cause, first, old(h.trail),
                                  Guarding(w, h, cfg, p.name), w);
    js := first + tail;
    assert h.calls == calls + tail == old(h.calls) + js;
  }

  /** Rotate. */
  method Rotate(h: Machine, mu: Mutex, ctx: Context, p: Service?, oldId: string, req: Option<string>,
                opts: seq<Option<RotateOption>>)
    returns (result: Option<Progress>, err: Option<Error>, ghost js: seq<Remote>)
    requires Ready(h, mu, Configured(opts))
    modifies h, mu, ctx
    ensures Ready(h, mu, Configured(opts)) && h.calls == old(h.calls) + js
    ensures p == null || req.None? || oldId == "" || Configured(opts).transition < 0 || old(ctx.cancelled) ==> js == []
    ensures js == [] ==> result.None? && err.Some? && h.trail == old(h.trail) && h.fs == old(h.fs)
    ensures js == [] ==> p == null || req.None? || oldId == "" || Configured(opts).transition < 0 || ctx.cancelled
    ensures js != [] ==> p != null && Reported(js, result, err, oldId, p.name, Configured(opts))
    ensures result.Some? ==> p != null && Borne(Configured(opts), result.value, p.name, oldId)
    ensures js != [] ==> req.Some? && Labelled(js, result, req.value, oldId, Configured(opts))
    ensures RevokeSent(oldId) in js ==>
      ctx.waits == old(ctx.waits) + if Configured(opts).transition > 0 then [Configured(opts).transition] else []
    ensures result.Some? && result.value.newValidated && RevokeSent(oldId) !in js ==>
      ctx.cancelled || (Configured(opts).ledger.Some? && !result.value.ledgerRecorded)
    ensures p != null && Guarding(old(WatchOf(h, Configured(opts), p.name, oldId)), h, Configured(opts), p.name) ==>
      AllRecoverable(old(h.trail), h.trail, old(WatchOf(h, Configured(opts), p.name, oldId)))
  {
    js := [];
    if p == null || req.None? || oldId == "" {
      return None, Some(Rejected), [];
    }
    var cfg := Configure(opts);
    if cfg.transition < 0 {
      return None, Some(Rejected), [];
    }
    err := ctx.Err();
    if err.Some? {
      return None, err, [];
    }
    result, err, js := Proceed(h, mu, ctx, p, oldId, req.value, cfg);
  }
}
