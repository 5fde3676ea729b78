/** sts/rotate.go, what a rotation may do and may report: the order of its
    requests, the meaning of its flags, and what a crash may find. */
module RotationRules {
  import opened Basics
  import opened Filesystem
  import opened Tokens
  import opened Provider
  import opened Host
  import opened AbsoluteStore
  import opened L = Ledger
  import S = RotationStages

  datatype RotateOption =
    | WithTransition(d: int)
    | WithLedger(l: Option<Ledger>)
    | WithAudit(logger: bool, origin: string)

  datatype Config = Config(transition: int, ledger: Option<Ledger>, audit: bool, source: string)

  /** The options in order; absent ones are skipped, later ones win. */
  function Configured(opts: seq<Option<RotateOption>>): Config {
    if opts == [] then Config(0, None, false, "")
    else
      var cfg := Configured(opts[..|opts| - 1]);
      match opts[|opts| - 1]
      case None => cfg
      case Some(WithTransition(d)) => cfg.(transition := d)
      case Some(WithLedger(l)) => cfg.(ledger := l)
      case Some(WithAudit(logger, origin)) => cfg.(audit := logger, source := origin)
  }

  /** Two options of the same kind. */
  predicate SameKind(a: RotateOption, b: RotateOption) {
    a.WithTransition? == b.WithTransition? && a.WithLedger? == b.WithLedger?
  }

  /** No option from the given place on is of this kind. */
  predicate NoneFrom(opts: seq<Option<RotateOption>>, from: nat, kind: RotateOption) {
    forall j | from <= j < |opts| && opts[j].Some? :: !SameKind(opts[j].value, kind)
  }

  /** What one option asks for is what the configuration says. */
  predicate Heeded(cfg: Config, o: RotateOption) {
    match o
    case WithTransition(d) => cfg.transition == d
    case WithLedger(l) => cfg.ledger == l
    case WithAudit(logger, origin) => cfg.audit == logger && cfg.source == origin
  }

  /** The last option of each kind decides, whatever stands between and behind. */
  lemma {:induction false} LastWins(opts: seq<Option<RotateOption>>, k: nat)
    requires k < |opts| && opts[k].Some? && NoneFrom(opts, k + 1, opts[k].value)
    ensures Heeded(Configured(opts), opts[k].value)
  {
    if k < |opts| - 1 {
      LastWins(opts[..|opts| - 1], k);
    }
  }

  /** And without any the default stands. */
  lemma {:induction false} DefaultStands(opts: seq<Option<RotateOption>>, kind: RotateOption)
    requires NoneFrom(opts, 0, kind)
    ensures match kind
            case WithTransition(_) => Configured(opts).transition == 0
            case WithLedger(_) => Configured(opts).ledger == None
            case WithAudit(_, _) => !Configured(opts).audit && Configured(opts).source == ""
  {
    if opts != [] {
      DefaultStands(opts[..|opts| - 1], kind);
    }
  }

  /** RotateResult: what a caller can see of the progress made. */
  datatype Progress = Progress(
    replacement: Option<Token>,
    newValidated: bool,
    newRevoked: bool,
    oldRevoked: bool,
    ledgerRecorded: bool,
    oldLedgerRemoved: bool,
    auditLogged: bool)

  // ---- What a journal must look like ---------------------------------------------

  /** A usable replacement was issued and found valid. */
  predicate Approved(js: seq<Remote>, t: Token, oldId: string) {
    Usable(Some(t), oldId) && Issued(Ok(Some(t))) in js && Validated(t.value, true) in js
  }

  /** Each revocation is justified by what came before it. */
  predicate Justified(js: seq<Remote>, id: string, oldId: string, provider: string, cfg: Config) {
    exists k | 0 <= k < |js| :: js[k].Issued? && js[k].reply.Ok? && Usable(js[k].reply.value, oldId)
      && var t := js[k].reply.value.value;
         if id == oldId
         then Approved(js, t, oldId) && (cfg.ledger.Some? ==> Recorded(EntryFor(t, provider, cfg.source), true) in js)
         else id == t.id && Validated(t.value, false) in js
  }

  predicate Disciplined(js: seq<Remote>, oldId: string, provider: string, cfg: Config) {
    && (forall k | 0 <= k < |js| && js[k].RevokeSent? :: Justified(js[..k], js[k].id, oldId, provider, cfg))
    && (forall j, k | 0 <= j < k < |js| ::
          !(js[j].Issued? && js[k].Issued?) && !(js[j].RevokeSent? && js[k].RevokeSent?))
    && (forall k | 0 <= k < |js| && js[k].Audited? :: cfg.audit && k == |js| - 1)
  }

  /** Every flag is set exactly when its call was made and succeeded. */
  predicate Truthful(js: seq<Remote>, r: Progress, oldId: string, provider: string, cfg: Config) {
    && Issued(Ok(r.replacement)) in js
    && (r.newValidated <==> r.replacement.Some? && Validated(r.replacement.value.value, true) in js)
    && (r.newRevoked
        <==> r.replacement.Some? && r.replacement.value.id != oldId && RevokeDone(r.replacement.value.id, true) in js)
    && (r.oldRevoked <==> RevokeDone(oldId, true) in js)
    && (r.ledgerRecorded
        <==> r.replacement.Some? && Recorded(EntryFor(r.replacement.value, provider, cfg.source), true) in js)
    && (r.oldLedgerRemoved <==> Unrecorded(oldId, true) in js)
    && (r.auditLogged <==> exists k | 0 <= k < |js| :: js[k].Audited? && js[k].logged)
  }

  predicate Quiet(js: seq<Remote>) {
    forall k | 0 <= k < |js| :: !js[k].Audited?
  }

  /** The old token is gone, and so is its ledger entry if there is a ledger. */
  predicate Done(r: Option<Progress>, cfg: Config) {
    r.Some? && r.value.oldRevoked && (cfg.ledger.Some? ==> r.value.oldLedgerRemoved)
  }

  /** The course of the rotation whose journal begins like this. */
  function CourseOf(first: Remote, oldId: string, provider: string, cfg: Config): S.Course
    requires first.Issued?
  {
    var nobody := Token("", "", "", None, 0, None);
    var t := if first.reply.Ok? then first.reply.value.GetOr(nobody) else nobody;
    S.Course(oldId, EntryFor(t, provider, cfg.source), cfg.ledger.Some?)
  }

  /** Every entry of the journal may stand where it does. */
  predicate InStep(js: seq<Remote>, oldId: string, provider: string, cfg: Config) {
    js != [] && js[0].Issued? && S.Followed(CourseOf(js[0], oldId, provider, cfg), js).Some?
  }

  /** ...and one more, the audit, may follow. */
  predicate Closable(js: seq<Remote>, oldId: string, provider: string, cfg: Config) {
    && InStep(js, oldId, provider, cfg)
    && var c := CourseOf(js[0], oldId, provider, cfg);
       S.Closed(c, S.Followed(c, js).value).Some?
  }

  /** What stands before the audit: an ordered journal and a truthful result. */
  predicate Settled(js: seq<Remote>, r: Option<Progress>, cause: Option<Error>, oldId: string, provider: string,
                    cfg: Config)
  {
    && js != [] && js[0].Issued? && (r.None? <==> js[0].reply.Err?)
    && Disciplined(js, oldId, provider, cfg) && Quiet(js) && Closable(js, oldId, provider, cfg)
    && (r.Some? ==> Truthful(js, r.value, oldId, provider, cfg) && Pursued(js, r.value, oldId, provider, cfg))
    && (cause.None? <==> Done(r, cfg))
  }

  /** No step is left out: a usable replacement is validated, and taken back if it
      does not pass; one that passes is recorded if there is a ledger; a revocation is
      answered; and behind the old token's revocation its entry is removed. */
  predicate Pursued(js: seq<Remote>, r: Progress, oldId: string, provider: string, cfg: Config) {
    && (Usable(r.replacement, oldId) ==>
          var t := r.replacement.value;
          && Validated(t.value, r.newValidated) in js
          && (!r.newValidated ==> RevokeSent(t.id) in js && RevokeDone(t.id, r.newRevoked) in js)
          && (r.newValidated && cfg.ledger.Some? ==>
                Recorded(EntryFor(t, provider, cfg.source), r.ledgerRecorded) in js))
    && (RevokeSent(oldId) in js ==> RevokeDone(oldId, r.oldRevoked) in js)
    && (r.oldRevoked && cfg.ledger.Some? ==> Unrecorded(oldId, r.oldLedgerRemoved) in js)
  }

  /** What the caller of Rotate is told, and what was done by then. */
  predicate Reported(js: seq<Remote>, r: Option<Progress>, err: Option<Error>, oldId: string, provider: string,
                     cfg: Config)
  {
    && js != [] && js[0].Issued? && (r.None? <==> js[0].reply.Err?)
    && Disciplined(js, oldId, provider, cfg) && InStep(js, oldId, provider, cfg)
    && (r.Some? ==> Truthful(js, r.value, oldId, provider, cfg) && Pursued(js, r.value, oldId, provider, cfg))
    && (cfg.audit <==> js[|js| - 1].Audited?)
    && (cfg.audit ==> js[|js| - 1].success == Done(r, cfg))
    && (err.None? <==> Done(r, cfg) && (cfg.audit ==> r.value.auditLogged))
  }

  /** The step the audit entry is filed under, and the name it gives: the first
      step that was not completed. */
  function Label(r: Progress, t: Token, asked: bool, oldId: string, cfg: Config): (string, string) {
    if !r.newValidated then ("rotate:validate", t.name)
    else if cfg.ledger.Some? && !r.ledgerRecorded then ("rotate:record", t.name)
    else if !asked then ("rotate:transition", t.name)
    else if !r.oldRevoked then ("rotate:revoke", oldId)
    else if cfg.ledger.Some? && !r.oldLedgerRemoved then ("rotate:record", t.name)
    else ("rotate", t.name)
  }

  function LabelOf(r: Option<Progress>, asked: bool, requested: string, oldId: string, cfg: Config): (string, string) {
    if r.None? || !Usable(r.value.replacement, oldId) then ("rotate:issue", requested)
    else Label(r.value, r.value.replacement.value, asked, oldId, cfg)
  }

  predicate Labelled(js: seq<Remote>, r: Option<Progress>, requested: string, oldId: string, cfg: Config) {
    var wanted := LabelOf(r, RevokeSent(oldId) in js, requested, oldId, cfg);
    cfg.audit ==> js != [] && js[|js| - 1].Audited? && (js[|js| - 1].action, js[|js| - 1].name) == wanted
  }

  lemma DisciplinedAudit(js: seq<Remote>, a: Remote, oldId: string, provider: string, cfg: Config)
    requires Disciplined(js, oldId, provider, cfg) && Quiet(js) && a.Audited? && cfg.audit
    ensures Disciplined(js + [a], oldId, provider, cfg)
  {
    forall k | 0 <= k < |js| ensures (js + [a])[..k] == js[..k] {
    }
  }

  lemma TruthfulAudit(js: seq<Remote>, a: Remote, r: Progress, oldId: string, provider: string, cfg: Config)
    requires Truthful(js, r, oldId, provider, cfg) && Quiet(js) && a.Audited?
    ensures Truthful(js + [a], r.(auditLogged := a.logged), oldId, provider, cfg)
  {
    assert (js + [a])[|js|] == a;
    forall e | e in js + [a] && !e.Audited? ensures e in js {
    }
  }

  lemma PursuedAudit(js: seq<Remote>, a: Remote, r: Progress, oldId: string, provider: string, cfg: Config)
    requires Pursued(js, r, oldId, provider, cfg) && a.Audited?
    ensures Pursued(js + [a], r.(auditLogged := a.logged), oldId, provider, cfg)
    ensures Pursued(js + [a], r, oldId, provider, cfg)
  {
  }

  lemma AuditFollowed(js: seq<Remote>, a: Remote, oldId: string, provider: string, cfg: Config)
    requires Closable(js, oldId, provider, cfg) && a.Audited?
    ensures InStep(js + [a], oldId, provider, cfg)
  {
    S.FollowedOn(CourseOf(js[0], oldId, provider, cfg), js, a);
  }

  /** The audit closes the journal and changes no flag but its own. */
  lemma SettledReported(js: seq<Remote>, r: Option<Progress>, cause: Option<Error>, tail: seq<Remote>,
                        r': Option<Progress>, err: Option<Error>, oldId: string, provider: string, cfg: Config)
    requires Settled(js, r, cause, oldId, provider, cfg)
    requires if cfg.audit
      then |tail| == 1 && tail[0].Audited? && tail[0].success == cause.None?
        && (err.None? <==> cause.None? && tail[0].logged)
           && r' == if tail[0].logged && r.Some? then Some(r.value.(auditLogged := true)) else r
      else tail == [] && r' == r && err == cause
    ensures Reported(js + tail, r', err, oldId, provider, cfg)
  {
    if cfg.audit {
      assert tail == [tail[0]];
      DisciplinedAudit(js, tail[0], oldId, provider, cfg);
      AuditFollowed(js, tail[0], oldId, provider, cfg);
      if r.Some? {
        TruthfulAudit(js, tail[0], r.value, oldId, provider, cfg);
        PursuedAudit(js, tail[0], r.value, oldId, provider, cfg);
        assert !r.value.auditLogged;
      }
    } else {
      assert js + tail == js;
    }
  }

  /** The way on from an approved replacement: recorded if there is a ledger,
      then at most the old token's revocation, then at most its removal. */
  predicate Completion(js: seq<Remote>, r: Progress, t: Token, oldId: string, provider: string, cfg: Config) {
    var recorded := if cfg.ledger.Some? then [Recorded(EntryFor(t, provider, cfg.source), r.ledgerRecorded)] else [];
    var removed := if cfg.ledger.Some? then [Unrecorded(oldId, r.oldLedgerRemoved)] else [];
    && r == Progress(Some(t), true, false, r.oldRevoked, r.ledgerRecorded, r.oldLedgerRemoved, false)
    && (cfg.ledger.None? ==> !r.ledgerRecorded && !r.oldLedgerRemoved)
    && (cfg.ledger.Some? && !r.ledgerRecorded ==> js == recorded)
    && (if r.oldRevoked then js == recorded + [RevokeSent(oldId), RevokeDone(oldId, true)] + removed
        else !r.oldLedgerRemoved && (js == recorded || js == recorded + [RevokeSent(oldId), RevokeDone(oldId, false)]))
  }

  lemma CompletionJustified(head: seq<Remote>, js: seq<Remote>, r: Progress, t: Token, oldId: string, provider: string,
                            cfg: Config)
    requires Usable(Some(t), oldId) && head == [Issued(Ok(Some(t))), Validated(t.value, true)]
    requires Completion(js, r, t, oldId, provider, cfg)
    ensures forall k | 0 <= k < |head + js| && (head + js)[k].RevokeSent? ::
      Justified((head + js)[..k], (head + js)[k].id, oldId, provider, cfg)
  {
    var all := head + js;
    forall k | 0 <= k < |all| && all[k].RevokeSent? ensures Justified(all[..k], all[k].id, oldId, provider, cfg) {
      assert all[..k][0] == head[0] && all[..k][1] == head[1];
      if cfg.ledger.Some? {
        assert all[..k][2] == js[0];
      }
    }
  }

  lemma CompletionDisciplined(head: seq<Remote>, js: seq<Remote>, r: Progress, t: Token, oldId: string,
                              provider: string, cfg: Config)
    requires Usable(Some(t), oldId) && head == [Issued(Ok(Some(t))), Validated(t.value, true)]
    requires Completion(js, r, t, oldId, provider, cfg)
    ensures Disciplined(head + js, oldId, provider, cfg) && Quiet(head + js)
  {
    CompletionJustified(head, js, r, t, oldId, provider, cfg);
  }

  lemma CompletionTruthful(head: seq<Remote>, js: seq<Remote>, r: Progress, t: Token, oldId: string, provider: string,
                           cfg: Config)
    requires Usable(Some(t), oldId) && head == [Issued(Ok(Some(t))), Validated(t.value, true)]
    requires Completion(js, r, t, oldId, provider, cfg)
    ensures Truthful(head + js, r, oldId, provider, cfg)
  {
    var all := head + js;
    assert all[0] == head[0] && all[1] == head[1];
    if cfg.ledger.Some? {
      assert all[2] == js[0];
      if r.oldRevoked {
        assert all[|all| - 1] == Unrecorded(oldId, r.oldLedgerRemoved) && all[|all| - 2] == RevokeDone(oldId, true);
      }
    } else if r.oldRevoked {
      assert all[|all| - 1] == RevokeDone(oldId, true);
    }
  }

  lemma CompletionPursued(head: seq<Remote>, js: seq<Remote>, r: Progress, t: Token, oldId: string, provider: string,
                          cfg: Config)
    requires Usable(Some(t), oldId) && head == [Issued(Ok(Some(t))), Validated(t.value, true)]
    requires Completion(js, r, t, oldId, provider, cfg)
    ensures Pursued(head + js, r, oldId, provider, cfg)
  {
    var all := head + js;
    assert all[0] == head[0] && all[1] == head[1];
    if cfg.ledger.Some? {
      assert all[2] == js[0];
    }
    if js != [] && r.oldRevoked && cfg.ledger.Some? {
      assert all[|all| - 1] == Unrecorded(oldId, r.oldLedgerRemoved) && all[|all| - 2] == RevokeDone(oldId, true);
    } else if js != [] {
      assert all[|all| - 1] == js[|js| - 1];
    }
  }

  lemma StartFollowed(c: S.Course, t: Token, accepted: bool)
    requires Usable(Some(t), c.oldId) && t.id == c.entry.id
    ensures S.Followed(c, [Issued(Ok(Some(t)))]) == Some(S.Checking)
    ensures S.Followed(c, [Issued(Ok(Some(t))), Validated(t.value, accepted)])
      == Some(if accepted then S.Approved else S.Unfit)
  {
    S.FollowedOn(c, [], Issued(Ok(Some(t))));
    assert [] + [Issued(Ok(Some(t)))] == [Issued(Ok(Some(t)))];
    S.FollowedOn(c, [Issued(Ok(Some(t)))], Validated(t.value, accepted));
    assert [Issued(Ok(Some(t)))] + [Validated(t.value, accepted)]
      == [Issued(Ok(Some(t))), Validated(t.value, accepted)];
  }

  lemma RequestFollowed(c: S.Course, js: seq<Remote>, id: string, ok: bool)
    requires S.Followed(c, js).Some?
    requires var stage := S.Follow(c, S.Followed(c, js).value, RevokeSent(id));
      stage.Some? && S.Follow(c, stage.value, RevokeDone(id, ok)).Some?
    ensures S.Followed(c, js + [RevokeSent(id), RevokeDone(id, ok)])
      == S.Follow(c, S.Follow(c, S.Followed(c, js).value, RevokeSent(id)).value, RevokeDone(id, ok))
  {
    S.FollowedOn(c, js, RevokeSent(id));
    S.FollowedOn(c, js + [RevokeSent(id)], RevokeDone(id, ok));
    assert js + [RevokeSent(id)] + [RevokeDone(id, ok)] == js + [RevokeSent(id), RevokeDone(id, ok)];
  }

  /** The requests that retire the old token, and its entry if there is a ledger. */
  function Retirement(c: S.Course, revoked: bool, removed: bool): seq<Remote> {
    [RevokeSent(c.oldId), RevokeDone(c.oldId, revoked)]
    + if revoked && c.ledgered then [Unrecorded(c.oldId, removed)] else []
  }

  lemma RetirementFollowed(c: S.Course, on: seq<Remote>, revoked: bool, removed: bool)
    requires S.Followed(c, on) == Some(if c.ledgered then S.Recorded else S.Approved)
    ensures var stage := S.Followed(c, on + Retirement(c, revoked, removed));
      stage.Some? && S.Closed(c, stage.value).Some?
  {
    var asked := on + [RevokeSent(c.oldId), RevokeDone(c.oldId, revoked)];
    RequestFollowed(c, on, c.oldId, revoked);
    if revoked && c.ledgered {
      S.FollowedOn(c, asked, Unrecorded(c.oldId, removed));
      assert on + Retirement(c, revoked, removed) == asked + [Unrecorded(c.oldId, removed)];
    } else {
      assert on + Retirement(c, revoked, removed) == asked;
    }
  }

  lemma RecordingFollowed(c: S.Course, head: seq<Remote>, t: Token, ok: bool)
    requires Usable(Some(t), c.oldId) && t.id == c.entry.id && head == [Issued(Ok(Some(t))), Validated(t.value, true)]
    ensures S.Followed(c, head + if c.ledgered then [Recorded(c.entry, ok)] else [])
      == Some(if !c.ledgered then S.Approved else if ok then S.Recorded else S.Over(false, false, false))
  {
    StartFollowed(c, t, true);
    if c.ledgered {
      S.FollowedOn(c, head, Recorded(c.entry, ok));
    } else {
      assert head + [] == head;
    }
  }

  /** A completion is in step with the course, whichever way it went. */
  lemma CompletionFollowed(head: seq<Remote>, js: seq<Remote>, r: Progress, t: Token, oldId: string, provider: string,
                           cfg: Config)
    requires Usable(Some(t), oldId) && head == [Issued(Ok(Some(t))), Validated(t.value, true)]
    requires Completion(js, r, t, oldId, provider, cfg)
    ensures Closable(head + js, oldId, provider, cfg)
  {
    var c := CourseOf(head[0], oldId, provider, cfg);
    var recorded := if c.ledgered then [Recorded(c.entry, r.ledgerRecorded)] else [];
    RecordingFollowed(c, head, t, r.ledgerRecorded);
    if js != recorded {
      RetirementFollowed(c, head + recorded, r.oldRevoked, r.oldLedgerRemoved);
      assert js == recorded + Retirement(c, r.oldRevoked, r.oldLedgerRemoved);
      assert head + js == head + recorded + Retirement(c, r.oldRevoked, r.oldLedgerRemoved);
    }
    assert (head + js)[0] == head[0];
  }

  lemma CompletionSettled(js: seq<Remote>, r: Progress, cause: Option<Error>, t: Token, oldId: string, provider: string,
                          cfg: Config)
    requires Usable(Some(t), oldId) && Completion(js, r, t, oldId, provider, cfg)
    requires (cause.None? <==> Done(Some(r), cfg))
    ensures Settled([Issued(Ok(Some(t)))] + ([Validated(t.value, true)] + js), Some(r), cause, oldId, provider, cfg)
  {
    var head := [Issued(Ok(Some(t))), Validated(t.value, true)];
    CompletionDisciplined(head, js, r, t, oldId, provider, cfg);
    CompletionTruthful(head, js, r, t, oldId, provider, cfg);
    CompletionPursued(head, js, r, t, oldId, provider, cfg);
    CompletionFollowed(head, js, r, t, oldId, provider, cfg);
    assert (head + js)[0] == head[0] && (head + js)[1] == head[1];
    assert head + js == [Issued(Ok(Some(t)))] + ([Validated(t.value, true)] + js);
  }

  lemma IssuedFollowed(reply: Result<Option<Token>>, oldId: string, provider: string, cfg: Config)
    requires reply.Err? || !Usable(reply.value, oldId)
    ensures Closable([Issued(reply)], oldId, provider, cfg)
  {
    var c := CourseOf(Issued(reply), oldId, provider, cfg);
    S.FollowedOn(c, [], Issued(reply));
    assert [] + [Issued(reply)] == [Issued(reply)];
  }

  lemma RollbackFollowed(t: Token, ok: bool, oldId: string, provider: string, cfg: Config)
    requires Usable(Some(t), oldId)
    ensures var js := [Issued(Ok(Some(t))), Validated(t.value, false), RevokeSent(t.id), RevokeDone(t.id, ok)];
      Closable(js, oldId, provider, cfg)
  {
    var head := [Issued(Ok(Some(t))), Validated(t.value, false)];
    var c := CourseOf(head[0], oldId, provider, cfg);
    StartFollowed(c, t, false);
    RequestFollowed(c, head, t.id, ok);
    assert head + [RevokeSent(t.id), RevokeDone(t.id, ok)]
      == [Issued(Ok(Some(t))), Validated(t.value, false), RevokeSent(t.id), RevokeDone(t.id, ok)];
  }

  /** A refused request, or an answer nobody can use, ends the rotation. */
  lemma IssuedSettled(reply: Result<Option<Token>>, oldId: string, provider: string, cfg: Config)
    ensures reply.Err? ==> Settled([Issued(reply)], None, Some(reply.error), oldId, provider, cfg)
    ensures reply.Ok? && !Usable(reply.value, oldId) ==>
      var r := Progress(reply.value, false, false, false, false, false, false);
      Settled([Issued(reply)], Some(r), Some(Rejected), oldId, provider, cfg)
  {
    assert [Issued(reply)][0] == Issued(reply);
    if reply.Err? || !Usable(reply.value, oldId) {
      IssuedFollowed(reply, oldId, provider, cfg);
    }
  }

  lemma RollbackDisciplined(t: Token, ok: bool, oldId: string, provider: string, cfg: Config)
    requires Usable(Some(t), oldId)
    ensures var js := [Issued(Ok(Some(t))), Validated(t.value, false), RevokeSent(t.id), RevokeDone(t.id, ok)];
      Disciplined(js, oldId, provider, cfg) && Quiet(js)
  {
    var js := [Issued(Ok(Some(t))), Validated(t.value, false), RevokeSent(t.id), RevokeDone(t.id, ok)];
    assert js[..2][0] == js[0] && js[..2][1] == js[1];
  }

  lemma RollbackTruthful(t: Token, ok: bool, oldId: string, provider: string, cfg: Config)
    requires Usable(Some(t), oldId)
    ensures var js := [Issued(Ok(Some(t))), Validated(t.value, false), RevokeSent(t.id), RevokeDone(t.id, ok)];
      var r := Progress(Some(t), false, ok, false, false, false, false);
      Truthful(js, r, oldId, provider, cfg) && Pursued(js, r, oldId, provider, cfg)
  {
    var js := [Issued(Ok(Some(t))), Validated(t.value, false), RevokeSent(t.id), RevokeDone(t.id, ok)];
    assert js[0] == Issued(Ok(Some(t))) && js[1] == Validated(t.value, false) && js[2] == RevokeSent(t.id)
      && js[3] == RevokeDone(t.id, ok);
  }

  /** A replacement that failed validation was taken back. */
  lemma RollbackSettled(t: Token, ok: bool, oldId: string, provider: string, cfg: Config)
    requires Usable(Some(t), oldId)
    ensures Settled([Issued(Ok(Some(t)))] + [Validated(t.value, false), RevokeSent(t.id), RevokeDone(t.id, ok)],
                    Some(Progress(Some(t), false, ok, false, false, false, false)), Some(Fault), oldId, provider, cfg)
  {
    var js := [Issued(Ok(Some(t))), Validated(t.value, false), RevokeSent(t.id), RevokeDone(t.id, ok)];
    RollbackDisciplined(t, ok, oldId, provider, cfg);
    RollbackTruthful(t, ok, oldId, provider, cfg);
    RollbackFollowed(t, ok, oldId, provider, cfg);
    assert js == [Issued(Ok(Some(t)))] + [Validated(t.value, false), RevokeSent(t.id), RevokeDone(t.id, ok)];
  }

  // ---- What a report says of the request -----------------------------------------------

  /** The provider gave a token that can replace the old one: it has an ID, another
      one, and a value. */
  predicate Replaces(first: Remote, oldId: string) {
    && first.Issued? && first.reply.Ok? && first.reply.value.Some?
    && first.reply.value.value.id !in {"", oldId} && first.reply.value.value.value != ""
  }

  lemma {:induction false} NothingBehindOver(c: S.Course, js: seq<Remote>)
    requires js != [] && js[0].Issued? && S.Followed(c, js).Some? && !Replaces(js[0], c.oldId)
    ensures S.Followed(c, js).value.Over? && forall k | 0 < k < |js| :: js[k].Audited?
  {
    var front := js[..|js| - 1];
    if front != [] {
      NothingBehindOver(c, front);
      forall k | 0 < k < |js| ensures js[k].Audited? {
        assert k < |front| ==> js[k] == front[k];
      }
    } else {
      assert S.Followed(c, front) == Some(S.Issuing);
    }
  }

  /** Without a token to replace the old one nothing more is asked of anyone, and the
      rotation fails; with one its value is put to the test. */
  lemma OnlyReplacementsTried(js: seq<Remote>, r: Option<Progress>, err: Option<Error>, oldId: string, provider: string,
                              cfg: Config)
    requires Reported(js, r, err, oldId, provider, cfg)
    ensures !Replaces(js[0], oldId) ==> err.Some? && forall k | 0 < k < |js| :: js[k].Audited?
    ensures Replaces(js[0], oldId) ==> exists accepted :: Validated(js[0].reply.value.value.value, accepted) in js
  {
    if !Replaces(js[0], oldId) {
      NothingBehindOver(CourseOf(js[0], oldId, provider, cfg), js);
    } else {
      FirstIsIssued(js, r.value.replacement);
    }
  }

  lemma FirstIsIssued(js: seq<Remote>, t: Option<Token>)
    requires js != [] && js[0].Issued? && Issued(Ok(t)) in js
    requires forall j, k | 0 <= j < k < |js| :: !(js[j].Issued? && js[k].Issued?)
    ensures js[0] == Issued(Ok(t))
  {
  }

  /** What the audit entry is filed under, and the name it gives: the first step
      that was not completed. */
  lemma AuditNames(js: seq<Remote>, r: Option<Progress>, err: Option<Error>, requested: string, oldId: string,
                   provider: string, cfg: Config)
    requires Reported(js, r, err, oldId, provider, cfg) && Labelled(js, r, requested, oldId, cfg) && cfg.audit
    ensures var a := js[|js| - 1];
      if !Replaces(js[0], oldId) then a.action == "rotate:issue" && a.name == requested
      else
        var p, t := r.value, js[0].reply.value.value;
        if !p.newValidated then a.action == "rotate:validate" && a.name == t.name
        else if cfg.ledger.Some? && !p.ledgerRecorded then a.action == "rotate:record" && a.name == t.name
        else if RevokeSent(oldId) !in js then a.action == "rotate:transition" && a.name == t.name
        else if !p.oldRevoked then a.action == "rotate:revoke" && a.name == oldId
        else if cfg.ledger.Some? && !p.oldLedgerRemoved then a.action == "rotate:record" && a.name == t.name
        else a.action == "rotate" && a.name == t.name
  {
    if r.Some? {
      FirstIsIssued(js, r.value.replacement);
    }
  }

  // ---- What a crash may find -----------------------------------------------------

  /** One rotation with a ledger: the file it starts from, and where in the
      journal it begins. */
  datatype Watch = Watch(codec: Codec, dir: string, base: string, initial: Option<Bytes>, provider: string,
                         oldId: string, source: string, start: nat)

  function RecordedImage(t: Token, w: Watch): Option<Bytes> {
    Image(w.codec, w.initial, Op.Record(EntryFor(t, w.provider, w.source)))
  }

  function RemovedImage(t: Token, w: Watch): Option<Bytes> {
    Image(w.codec, RecordedImage(t, w), Op.Remove(w.provider, ById(w.oldId)))
  }

  predicate Holds(content: Option<Bytes>, w: Watch, id: string) {
    var es := EntriesOf(w.codec, content);
    es.Some? && exists k | 0 <= k < |es.value| :: Matches(es.value[k], w.provider, ById(id))
  }

  /** The ledger is as it was, it holds the old entry, and nobody has asked for
      that token to be revoked. */
  predicate OldStands(content: Option<Bytes>, js: seq<Remote>, w: Watch) {
    content == w.initial && Holds(content, w, w.oldId) && RevokeSent(w.oldId) !in js
  }

  /** The ledger is the old list with the replacement's entry, or that list
      without the old token's entries; either way it holds the replacement. */
  predicate Landed(content: Option<Bytes>, js: seq<Remote>, t: Token, w: Watch) {
    && Approved(js, t, w.oldId)
    && content.Some? && RecordedImage(t, w).Some? && content in {RecordedImage(t, w), RemovedImage(t, w)}
    && EntriesOf(w.codec, content).Some?
    && Normalise(EntryFor(t, w.provider, w.source)) in EntriesOf(w.codec, content).value
  }

  predicate NewStands(content: Option<Bytes>, js: seq<Remote>, w: Watch) {
    exists k | 0 <= k < |js| ::
      js[k].Issued? && js[k].reply.Ok? && js[k].reply.value.Some? && Landed(content, js, js[k].reply.value.value, w)
  }

  predicate Standing(content: Option<Bytes>, js: seq<Remote>, w: Watch) {
    OldStands(content, js, w) || NewStands(content, js, w)
  }

  predicate Recoverable(m: Moment, w: Watch) {
    w.start <= |m.calls| && Standing(Stored(m.fs, w.dir, w.base), m.calls[w.start..], w)
  }

  /** The old token still serves: its entry is in the list, and nobody has asked for
      its revocation. */
  predicate OldServes(es: seq<Metadata>, js: seq<Remote>, w: Watch) {
    RevokeSent(w.oldId) !in js && exists k | 0 <= k < |es| :: es[k].provider == w.provider && es[k].id == w.oldId
  }

  /** The list describes a token that was issued as a replacement and found valid. */
  predicate ReplacementServes(es: seq<Metadata>, js: seq<Remote>, w: Watch, t: Token) {
    && Issued(Ok(Some(t))) in js && Validated(t.value, true) in js
    && t.id != "" && t.value != "" && t.id != w.oldId
    && Described(es, t, w.provider, w.source)
  }

  /** What a recoverable moment offers whoever starts again: a readable list, and in it
      either the old token or a replacement with all that is to say of it. */
  lemma RecoverableMeans(m: Moment, w: Watch) returns (es: seq<Metadata>)
    requires Recoverable(m, w)
    ensures EntriesOf(w.codec, Stored(m.fs, w.dir, w.base)) == Some(es)
    ensures OldServes(es, m.calls[w.start..], w) || exists t :: ReplacementServes(es, m.calls[w.start..], w, t)
  {
    var content, js := Stored(m.fs, w.dir, w.base), m.calls[w.start..];
    es := EntriesOf(w.codec, content).value;
    if OldStands(content, js, w) {
      var k :| 0 <= k < |es| && Matches(es[k], w.provider, ById(w.oldId));
      assert es[k].id == w.oldId;
    } else {
      var k :| 0 <= k < |js| && js[k].Issued? && js[k].reply.Ok? && js[k].reply.value.Some?
        && Landed(content, js, js[k].reply.value.value, w);
      var t := js[k].reply.value.value;
      EntryDescribes(t, w.provider, w.source);
      var j :| 0 <= j < |es| && es[j] == Normalise(EntryFor(t, w.provider, w.source));
      assert Describes(es[j], t, w.provider, w.source);
      assert ReplacementServes(es, js, w, t);
    }
  }

  ghost predicate AllRecoverable(before: seq<Moment>, after: seq<Moment>, w: Watch) {
    before <= after && forall k | |before| <= k < |after| :: Recoverable(after[k], w)
  }

  lemma LandedStands(content: Option<Bytes>, js: seq<Remote>, t: Token, w: Watch)
    requires Landed(content, js, t, w)
    ensures NewStands(content, js, w)
  {
    var k :| 0 <= k < |js| && js[k] == Issued(Ok(Some(t)));
    assert js[k].reply.Ok?;
  }

  /** The file after the replacement was recorded holds the replacement. */
  lemma RecordLands(js: seq<Remote>, t: Token, w: Watch)
    requires Lawful(w.codec) && Approved(js, t, w.oldId) && RecordedImage(t, w).Some?
    ensures Landed(RecordedImage(t, w), js, t, w)
  {
    var m := EntryFor(t, w.provider, w.source);
    var all := EntriesOf(w.codec, w.initial).value + [m];
    assert NormaliseAll(all)[|all| - 1] == Normalise(m);
  }

  lemma {:induction false} WithoutHolds(es: seq<Metadata>, provider: string, key: Key, m: Metadata)
    requires m in es && !Matches(m, provider, key)
    ensures m in Without(es, provider, key)
  {
    if es[|es| - 1] != m {
      WithoutHolds(es[..|es| - 1], provider, key, m);
    }
  }

  /** Removing the old entry leaves the replacement's: their IDs differ. */
  lemma RemovalLands(js: seq<Remote>, t: Token, w: Watch)
    requires Lawful(w.codec) && Landed(RecordedImage(t, w), js, t, w) && RemovedImage(t, w).Some?
    ensures Landed(RemovedImage(t, w), js, t, w)
  {
    var es := EntriesOf(w.codec, RecordedImage(t, w)).value;
    var m := Normalise(EntryFor(t, w.provider, w.source));
    WithoutHolds(es, w.provider, ById(w.oldId), m);
    var kept := Without(es, w.provider, ById(w.oldId));
    var i :| 0 <= i < |kept| && kept[i] == m;
    assert NormaliseAll(kept)[i] == m;
  }

  /** Recording, whenever it is cut off, leaves the old entry or both. */
  lemma RecordRecoverable(before: seq<Moment>, after: seq<Moment>, calls: seq<Remote>, t: Token, w: Watch)
    requires Lawful(w.codec) && w.start <= |calls| && Approved(calls[w.start..], t, w.oldId)
    requires OldStands(w.initial, calls[w.start..], w)
    requires var y := RecordedImage(t, w);
      TrailShows(before, after, calls, w.dir, w.base, w.initial, if y.Some? then y else w.initial)
    ensures AllRecoverable(before, after, w)
  {
    var js := calls[w.start..];
    if RecordedImage(t, w).Some? {
      RecordLands(js, t, w);
      LandedStands(RecordedImage(t, w), js, t, w);
    }
    forall k | |before| <= k < |after| ensures Recoverable(after[k], w) {
      assert Stored(after[k].fs, w.dir, w.base) == w.initial || NewStands(Stored(after[k].fs, w.dir, w.base), js, w);
    }
  }

  /** Removing, whenever it is cut off, leaves the new entry. */
  lemma RemovalRecoverable(before: seq<Moment>, after: seq<Moment>, calls: seq<Remote>, t: Token, w: Watch)
    requires Lawful(w.codec) && w.start <= |calls| && Landed(RecordedImage(t, w), calls[w.start..], t, w)
    requires var y := RemovedImage(t, w);
      TrailShows(before, after, calls, w.dir, w.base, RecordedImage(t, w), if y.Some? then y else RecordedImage(t, w))
    ensures AllRecoverable(before, after, w)
  {
    var js := calls[w.start..];
    LandedStands(RecordedImage(t, w), js, t, w);
    if RemovedImage(t, w).Some? {
      RemovalLands(js, t, w);
      LandedStands(RemovedImage(t, w), js, t, w);
    }
    forall k | |before| <= k < |after| ensures Recoverable(after[k], w) {
      assert NewStands(Stored(after[k].fs, w.dir, w.base), js, w);
    }
  }

  /** Waiting for nothing on disk: the file stays and one request is made. */
  lemma RequestRecoverable(before: seq<Moment>, fs: Fs, calls: seq<Remote>, e: Remote, w: Watch)
    requires w.start <= |calls|
    requires var content := Stored(fs, w.dir, w.base);
      if e == RevokeSent(w.oldId) then NewStands(content, calls[w.start..], w)
        else Standing(content, calls[w.start..], w)
    ensures AllRecoverable(before, before + [Moment(fs, calls + [e])], w)
    ensures var content := Stored(fs, w.dir, w.base);
      if e == RevokeSent(w.oldId) then NewStands(content, (calls + [e])[w.start..], w)
        else Standing(content, (calls + [e])[w.start..], w)
  {
    var content := Stored(fs, w.dir, w.base);
    var js := calls[w.start..];
    assert (calls + [e])[w.start..] == js + [e];
    if NewStands(content, js, w) {
      var k :| 0 <= k < |js| && js[k].Issued? && js[k].reply.Ok? && js[k].reply.value.Some?
        && Landed(content, js, js[k].reply.value.value, w);
      LandedStands(content, js + [e], js[k].reply.value.value, w);
    }
  }
}
