/** The course of one rotation: which request or answer may follow which.  The
    journal of sts/rotate.go follows it, and each rotation thread is driven by it. */
module RotationStages {
  import opened Basics
  import opened Tokens
  import opened Provider

  /** How far a rotation is. */
  datatype Stage =
    | Issuing
    | Checking
    | Unfit
    | RollingBack
    | Approved
    | Recording                 // the ledger call is under way
    | Recorded
    | Asked                     // the old token's revocation is on its way
    | Revoked
    | Retiring                  // the second ledger call is under way
    | Over(recorded: bool, asked: bool, removed: bool)

  /** What one rotation is about: the old token, the entry its replacement gets,
      and whether there is a ledger. */
  datatype Course = Course(oldId: string, entry: Metadata, ledgered: bool)

  /** The stage after one more request or answer, if it may come now. */
  function Follow(c: Course, stage: Stage, e: Remote): Option<Stage> {
    match e
    case Issued(reply) =>
      if !stage.Issuing? then None
      else if reply.Err? || !Usable(reply.value, c.oldId) then Some(Over(false, false, false))
      else if reply.value.value.id == c.entry.id then Some(Checking)
      else None
    case Validated(_, accepted) =>
      if stage.Checking? then Some(if accepted then Approved else Unfit) else None
    case RevokeSent(id) =>
      if stage.Unfit? && id == c.entry.id && id != c.oldId then Some(RollingBack)
      else if (stage.Recorded? || (stage.Approved? && !c.ledgered)) && id == c.oldId then Some(Asked)
      else None
    case RevokeDone(id, ok) =>
      if stage.RollingBack? && id == c.entry.id then Some(Over(false, false, false))
      else if stage.Asked? && id == c.oldId then Some(if ok then Revoked else Over(c.ledgered, true, false))
      else None
    case Recorded(m, ok) =>
      if (stage.Approved? || stage.Recording?) && c.ledgered && m == c.entry
      then Some(if ok then Stage.Recorded else Over(false, false, false))
      else None
    case Unrecorded(id, ok) =>
      if (stage.Revoked? || stage.Retiring?) && c.ledgered && id == c.oldId then Some(Over(true, true, ok)) else None
    case Audited(_, _, _, _) => Closed(c, stage)
  }

  /** Where a rotation may end with its audit: at its end, or where its context
      was cancelled. */
  function Closed(c: Course, stage: Stage): Option<Stage> {
    match stage
    case Over(_, _, _) => Some(stage)
    case Recorded => Some(Over(true, false, false))
    case Approved => if c.ledgered then None else Some(Over(false, false, false))
    case Revoked => if c.ledgered then None else Some(Over(false, true, false))
    case _ => None
  }

  /** The stage a whole journal leads to. */
  function Followed(c: Course, js: seq<Remote>): Option<Stage> {
    if js == [] then Some(Issuing)
    else match Followed(c, js[..|js| - 1])
         case None => None
         case Some(stage) => Follow(c, stage, js[|js| - 1])
  }

  lemma FollowedOn(c: Course, js: seq<Remote>, e: Remote)
    requires Followed(c, js).Some?
    ensures Followed(c, js + [e]) == Follow(c, Followed(c, js).value, e)
  {
    assert (js + [e])[..|js + [e]| - 1] == js;
  }

  /** Whether the old token's revocation has been asked for. */
  predicate AskedFor(stage: Stage) {
    stage.Asked? || stage.Revoked? || stage.Retiring? || (stage.Over? && stage.asked)
  }

  predicate HasRecorded(c: Course, stage: Stage) {
    && c.ledgered
    && (stage.Recorded? || stage.Asked? || stage.Revoked? || stage.Retiring? || (stage.Over? && stage.recorded))
  }

  /** A stage as the journal shows it, which has no entry for a call's start. */
  function Shown(stage: Stage): Stage {
    match stage
    case Recording => Approved
    case Retiring => Revoked
    case _ => stage
  }

  lemma ShownFollows(c: Course, stage: Stage, e: Remote)
    requires Follow(c, stage, e).Some?
    ensures Follow(c, Shown(stage), e) == Some(Shown(Follow(c, stage, e).value))
  {
  }

  /** One more entry says what it says. */
  lemma FollowTells(c: Course, stage: Stage, e: Remote)
    requires Follow(c, stage, e).Some?
    ensures AskedFor(Follow(c, stage, e).value) <==> AskedFor(stage) || e == RevokeSent(c.oldId)
    ensures HasRecorded(c, Follow(c, stage, e).value) <==> HasRecorded(c, stage) || e == Remote.Recorded(c.entry, true)
  {
  }

  /** Nothing is asked for before it is recorded. */
  predicate InOrder(c: Course, stage: Stage) {
    c.ledgered && AskedFor(stage) ==> HasRecorded(c, stage)
  }

  lemma FollowInOrder(c: Course, stage: Stage, e: Remote)
    requires InOrder(c, stage) && Follow(c, stage, e).Some?
    ensures InOrder(c, Follow(c, stage, e).value)
  {
  }

  lemma InOneMore(js: seq<Remote>, e: Remote)
    requires js != []
    ensures e in js <==> e in js[..|js| - 1] || e == js[|js| - 1]
  {
    assert js == js[..|js| - 1] + [js[|js| - 1]];
  }

  /** The stage says what is in the journal: the old token's revocation was asked
      for, the replacement was recorded, and the first only after the second. */
  lemma {:induction false} StageTells(c: Course, js: seq<Remote>)
    requires Followed(c, js).Some?
    ensures AskedFor(Followed(c, js).value) <==> RevokeSent(c.oldId) in js
    ensures HasRecorded(c, Followed(c, js).value) <==> Remote.Recorded(c.entry, true) in js
    ensures InOrder(c, Followed(c, js).value)
  {
    if js != [] {
      var front, e := js[..|js| - 1], js[|js| - 1];
      StageTells(c, front);
      FollowTells(c, Followed(c, front).value, e);
      FollowInOrder(c, Followed(c, front).value, e);
      InOneMore(js, RevokeSent(c.oldId));
      InOneMore(js, Remote.Recorded(c.entry, true));
    }
  }
}
