/** Any number of rotations on one ledger file at once, each a thread that follows
    the course of a rotation from its first request to its last answer, among
    whatever other calls there are.  Every request, answer and system call of all
    of them is a step of its own, so each state is also one a crash can leave. */
module RotationThreads {
  import opened Basics
  import opened Protocol
  import opened Tokens
  import I = Interleaving
  import L = LedgerThreads
  import opened LedgerHistory
  import opened RotationStages
  import P = Provider

  /** Which of its two operations a rotation has committed. */
  datatype Mark = Mark(recorded: bool, removed: bool)

  /** The file, the rotations, and for each the old entry it is about. */
  datatype Crew = Crew(f: L.File, rs: seq<Swap>, olds: seq<Metadata>)

  /** Thread `i` runs rotation `i`; `others` are the operations other calls have
      committed. */
  datatype Fleet = Fleet(sys: L.Sys, stages: seq<Stage>, marks: seq<Mark>, others: seq<Op>)

  datatype Deed =
    | Heard(i: nat, e: P.Remote)     // the next entry of rotation i's journal
    | StartRecord(i: nat)
    | StartRemove(i: nat)
    | Ledger(m: L.Move)              // any step of any ledger or store call

  predicate Shaped(crew: Crew, fl: Fleet) {
    |crew.olds| == |crew.rs| == |fl.stages| == |fl.marks| && !IsStaging(crew.f.at.base)
  }

  function RecordOp(r: Swap): Op {
    Op.Record(r.entry)
  }

  function RemoveOp(r: Swap): Op {
    Op.Remove(r.provider, ById(r.oldId))
  }

  /** All that is asked of everyone else: not to take the entries the rotations
      are about. */
  predicate Spares(crew: Crew, op: Op) {
    && (forall k | 0 <= k < |crew.rs| :: !Hits(op, Normalise(crew.rs[k].entry)))
    && (forall k | 0 <= k < |crew.olds| :: !Hits(op, Normalise(crew.olds[k])))
  }

  predicate Returned(s: L.Sys, t: nat) {
    t in s.jobs && s.jobs[t].Finished?
  }

  predicate At(fl: Fleet, i: nat, stage: Stage) {
    i < |fl.stages| && fl.stages[i] == stage
  }

  function CourseOf(r: Swap): Course {
    Course(r.oldId, r.entry, true)
  }

  /** The answer to a ledger call is the call's own, and the replacement issued is
      the one the rotation is about. */
  predicate Fitting(s: L.Sys, i: nat, r: Swap, stage: Stage, e: P.Remote) {
    match e
    case Issued(reply) =>
      reply.Ok? && P.Usable(reply.value, r.oldId) ==>
        P.EntryFor(reply.value.value, r.provider, r.entry.source) == r.entry
    case Recorded(_, ok) => stage.Recording? && Returned(s, i) && s.jobs[i].ok == ok
    case Unrecorded(_, ok) => stage.Retiring? && Returned(s, i) && s.jobs[i].ok == ok
    case _ => true
  }

  predicate CanDo(crew: Crew, fl: Fleet, d: Deed)
    requires Shaped(crew, fl)
  {
    match d
    case Heard(i, e) =>
      i < |crew.rs| && Follow(CourseOf(crew.rs[i]), fl.stages[i], e).Some?
        && Fitting(fl.sys, i, crew.rs[i], fl.stages[i], e)
    case StartRecord(i) => At(fl, i, Approved) && L.CanMove(crew.f, fl.sys, L.Call(i, RecordOp(crew.rs[i])))
    case StartRemove(i) => At(fl, i, Revoked) && L.CanMove(crew.f, fl.sys, L.Call(i, RemoveOp(crew.rs[i])))
    case Ledger(m) =>
      L.CanMove(crew.f, fl.sys, m) && (m.Call? ==> m.t >= |crew.rs|)
        && (m.Decide? && m.t >= |crew.rs| ==> Spares(crew, m.op))
  }

  /** The thread whose operation this move commits. */
  function Committer(s: L.Sys, m: L.Move): Option<nat> {
    if m.Other? && m.e.Step? && L.Commits(s, m.e) != [] then Some(m.e.t) else None
  }

  function Marked(m: Mark, stage: Stage): Mark {
    if stage.Recording? then m.(recorded := true) else m.(removed := true)
  }

  function Staged(fl: Fleet, i: nat, stage: Stage): Fleet
    requires i < |fl.stages|
  {
    fl.(stages := fl.stages[i := stage])
  }

  function Done(crew: Crew, fl: Fleet, d: Deed): Fleet
    requires Shaped(crew, fl) && CanDo(crew, fl, d)
  {
    match d
    case Heard(i, e) => Staged(fl, i, Follow(CourseOf(crew.rs[i]), fl.stages[i], e).value)
    case StartRecord(i) => Staged(fl, i, Recording).(sys := L.Moved(crew.f, fl.sys, L.Call(i, RecordOp(crew.rs[i]))))
    case StartRemove(i) => Staged(fl, i, Retiring).(sys := L.Moved(crew.f, fl.sys, L.Call(i, RemoveOp(crew.rs[i]))))
    case Ledger(m) =>
      var next := fl.(sys := L.Moved(crew.f, fl.sys, m));
      match Committer(fl.sys, m)
      case None => next
      case Some(t) =>
        if t < |crew.rs| then next.(marks := fl.marks[t := Marked(fl.marks[t], fl.stages[t])])
        else next.(others := fl.others + [fl.sys.jobs[t].op])
  }

  // ---- What the rotations have committed -----------------------------------------------

  function Own(r: Swap, m: Mark): seq<Op> {
    (if m.recorded then [RecordOp(r)] else []) + (if m.removed then [RemoveOp(r)] else [])
  }

  function DoneOps(rs: seq<Swap>, marks: seq<Mark>): seq<Op>
    requires |rs| == |marks|
  {
    if rs == [] then [] else DoneOps(rs[..|rs| - 1], marks[..|rs| - 1]) + Own(rs[|rs| - 1], marks[|rs| - 1])
  }

  /** One more operation, wherever it stands. */
  predicate Grew(before: seq<Op>, after: seq<Op>, op: Op) {
    exists p | 0 <= p <= |before| :: after == before[..p] + [op] + before[p..]
  }

  lemma GrewCounts(before: seq<Op>, after: seq<Op>, op: Op)
    requires Grew(before, after, op)
    ensures multiset(after) == multiset(before) + multiset{op}
  {
    var p :| 0 <= p <= |before| && after == before[..p] + [op] + before[p..];
    assert before == before[..p] + before[p..];
  }

  lemma OwnGrows(r: Swap, m: Mark, n: Mark, op: Op)
    requires (op == RecordOp(r) && !m.recorded && n == m.(recorded := true))
      || (op == RemoveOp(r) && !m.removed && n == m.(removed := true))
    ensures Grew(Own(r, m), Own(r, n), op)
  {
    var own := Own(r, m);
    if n.removed && !m.removed {
      assert Own(r, n) == own[..|own|] + [op] + own[|own|..];
    } else {
      assert Own(r, n) == own[..0] + [op] + own[0..];
    }
  }

  lemma LeftGrew(a: seq<Op>, a': seq<Op>, b: seq<Op>, op: Op)
    requires Grew(a, a', op)
    ensures Grew(a + b, a' + b, op)
  {
    var p :| 0 <= p <= |a| && a' == a[..p] + [op] + a[p..];
    assert a' + b == (a + b)[..p] + [op] + (a + b)[p..];
  }

  lemma RightGrew(a: seq<Op>, b: seq<Op>, b': seq<Op>, op: Op)
    requires Grew(b, b', op)
    ensures Grew(a + b, a + b', op)
  {
    var p :| 0 <= p <= |b| && b' == b[..p] + [op] + b[p..];
    assert a + b' == (a + b)[..|a| + p] + [op] + (a + b)[|a| + p..];
  }

  lemma LaterGrew(rs: seq<Swap>, marks: seq<Mark>, i: nat, n: Mark, op: Op)
    requires i < |rs| - 1 == |marks| - 1
    requires var k := |rs| - 1; Grew(DoneOps(rs[..k], marks[..k]), DoneOps(rs[..k], marks[..k][i := n]), op)
    ensures Grew(DoneOps(rs, marks), DoneOps(rs, marks[i := n]), op)
  {
    var k := |rs| - 1;
    assert marks[i := n][..k] == marks[..k][i := n];
    LeftGrew(DoneOps(rs[..k], marks[..k]), DoneOps(rs[..k], marks[i := n][..k]), Own(rs[k], marks[k]), op);
  }

  lemma LastGrew(rs: seq<Swap>, marks: seq<Mark>, n: Mark, op: Op)
    requires 0 < |rs| == |marks|
    requires Grew(Own(rs[|rs| - 1], marks[|rs| - 1]), Own(rs[|rs| - 1], n), op)
    ensures Grew(DoneOps(rs, marks), DoneOps(rs, marks[|rs| - 1 := n]), op)
  {
    var k := |rs| - 1;
    assert marks[k := n][..k] == marks[..k];
    RightGrew(DoneOps(rs[..k], marks[..k]), Own(rs[k], marks[k]), Own(rs[k], n), op);
  }

  lemma {:induction false} DoneGrows(rs: seq<Swap>, marks: seq<Mark>, i: nat, n: Mark, op: Op)
    requires i < |rs| == |marks| && Grew(Own(rs[i], marks[i]), Own(rs[i], n), op)
    ensures Grew(DoneOps(rs, marks), DoneOps(rs, marks[i := n]), op)
  {
    var k := |rs| - 1;
    if i < k {
      assert rs[..k][i] == rs[i] && marks[..k][i] == marks[i];
      DoneGrows(rs[..k], marks[..k], i, n, op);
      LaterGrew(rs, marks, i, n, op);
    } else {
      LastGrew(rs, marks, n, op);
    }
  }

  predicate Owned(rs: seq<Swap>, marks: seq<Mark>, op: Op)
    requires |rs| == |marks|
  {
    exists k | 0 <= k < |rs| :: op in Own(rs[k], marks[k])
  }

  lemma OwnedGrows(rs: seq<Swap>, marks: seq<Mark>, op: Op)
    requires |rs| == |marks| && rs != []
    ensures var n := |rs| - 1; Owned(rs, marks, op) <==> Owned(rs[..n], marks[..n], op) || op in Own(rs[n], marks[n])
  {
    var n := |rs| - 1;
    if Owned(rs[..n], marks[..n], op) {
      var k :| 0 <= k < n && op in Own(rs[..n][k], marks[..n][k]);
      assert op in Own(rs[k], marks[k]);
    }
    if k :| 0 <= k < n && op in Own(rs[k], marks[k]) {
      assert op in Own(rs[..n][k], marks[..n][k]);
    }
  }

  lemma {:induction false} DoneHolds(rs: seq<Swap>, marks: seq<Mark>, op: Op)
    requires |rs| == |marks|
    ensures op in DoneOps(rs, marks) <==> Owned(rs, marks, op)
  {
    if rs != [] {
      var n := |rs| - 1;
      DoneHolds(rs[..n], marks[..n], op);
      OwnedGrows(rs, marks, op);
    }
  }

  lemma {:induction false} AllDoneIsPlan(rs: seq<Swap>, marks: seq<Mark>)
    requires |rs| == |marks| && forall k | 0 <= k < |marks| :: marks[k] == Mark(true, true)
    ensures DoneOps(rs, marks) == Plan(rs)
  {
    if rs != [] {
      AllDoneIsPlan(rs[..|rs| - 1], marks[..|rs| - 1]);
    }
  }

  // ---- The invariant ---------------------------------------------------------------------

  /** The thread's current call has put its operation into the file. */
  predicate InFile(s: L.Sys, t: nat)
    requires t in s.jobs
  {
    var pc := I.PcOf(s.w, t);
    match s.jobs[t]
    case Saving(_, _) => pc.Swept? || (pc.Ended? && pc.outcome.Replaced?)
    case Finished(_, _, ok) => ok
    case _ => false
  }

  predicate Calling(s: L.Sys, t: nat, op: Op) {
    t in s.jobs && s.jobs[t].op == op
  }

  predicate StageOk(s: L.Sys, i: nat, r: Swap, stage: Stage, m: Mark) {
    match stage
    case Recording => Calling(s, i, RecordOp(r)) && m == Mark(InFile(s, i), false)
    case Retiring => Calling(s, i, RemoveOp(r)) && m == Mark(true, InFile(s, i))
    case Over(recorded, asked, removed) =>
      m == Mark(recorded, removed) && (asked ==> recorded) && (removed ==> asked) && !L.Busy(s, i)
    case _ => if HasRecorded(CourseOf(r), stage) then m == Mark(true, false) && !L.Busy(s, i)
      else m == Mark(false, false) && i !in s.jobs
  }

  predicate Accounted(crew: Crew, fl: Fleet)
    requires Shaped(crew, fl)
  {
    Balanced(OpsOf(fl.sys.log), DoneOps(crew.rs, fl.marks), fl.others) && OthersSparing(crew, fl)
  }

  /** The log is the rotations' operations and those of others, in some order. */
  predicate Balanced(log: seq<Op>, done: seq<Op>, others: seq<Op>) {
    multiset(log) == multiset(done) + multiset(others)
  }

  predicate OthersSparing(crew: Crew, fl: Fleet) {
    && (forall k | 0 <= k < |fl.others| :: Spares(crew, fl.others[k]))
    && (forall t | t in fl.sys.jobs && t >= |crew.rs| && fl.sys.jobs[t].Saving? :: Spares(crew, fl.sys.jobs[t].op))
  }

  ghost predicate FleetInv(crew: Crew, fl: Fleet) {
    && Shaped(crew, fl) && L.SysInv(crew.f, fl.sys) && Accounted(crew, fl)
    && forall i: nat | i < |crew.rs| :: StageOk(fl.sys, i, crew.rs[i], fl.stages[i], fl.marks[i])
  }

  // ---- One move of the ledger system -------------------------------------------------------

  lemma LogAfter(f: L.File, s: L.Sys, m: L.Move)
    requires !IsStaging(f.at.base) && L.CanMove(f, s, m)
    ensures var v := L.Moved(f, s, m);
      match Committer(s, m)
      case None => v.log == s.log
      case Some(t) =>
        && t in s.jobs && s.jobs[t].Saving? && v.jobs == s.jobs
        && v.log == s.log + [L.Commit(s.jobs[t].turn, s.jobs[t].op)]
  {
    assert s.log + [] == s.log;
  }

  /** Whether a call's operation is in the file changes at its commit alone. */
  lemma InFileTracks(f: L.File, s: L.Sys, m: L.Move, t: nat)
    requires !IsStaging(f.at.base) && L.CanMove(f, s, m) && t in s.jobs && !s.jobs[t].op.Cleanup?
    requires !(m.Call? && m.t == t)
    ensures var v := L.Moved(f, s, m);
      t in v.jobs && v.jobs[t].op == s.jobs[t].op && (InFile(v, t) <==> InFile(s, t) || Committer(s, m) == Some(t))
    ensures Committer(s, m) == Some(t) ==> !InFile(s, t)
  {
    if m.Other? && m.e.Step? && m.e.t == t {
      InFileSteps(f, s, t, m.e.c);
    }
  }

  lemma InFileSteps(f: L.File, s: L.Sys, t: nat, c: Filesystem.Call)
    requires !IsStaging(f.at.base) && L.CanMove(f, s, L.Other(I.Step(t, c))) && t in s.jobs
    ensures InFile(L.Moved(f, s, L.Other(I.Step(t, c))), t) <==> InFile(s, t) || (c.Rename? && s.jobs[t].Saving?)
    ensures c.Rename? && s.jobs[t].Saving? ==> !InFile(s, t)
  {
  }

  lemma IdleStays(f: L.File, s: L.Sys, m: L.Move, t: nat)
    requires !IsStaging(f.at.base) && L.CanMove(f, s, m) && !L.Busy(s, t) && !(m.Call? && m.t == t)
    ensures var v := L.Moved(f, s, m); !L.Busy(v, t) && (t !in s.jobs ==> t !in v.jobs) && Committer(s, m) != Some(t)
  {
  }

  /** Other calls still only carry operations that spare the rotations' entries. */
  lemma OthersSpare(crew: Crew, fl: Fleet, m: L.Move, t: nat)
    requires Shaped(crew, fl) && CanDo(crew, fl, Ledger(m)) && t >= |crew.rs|
    requires t in fl.sys.jobs && fl.sys.jobs[t].Saving? ==> Spares(crew, fl.sys.jobs[t].op)
    ensures var v := L.Moved(crew.f, fl.sys, m); t in v.jobs && v.jobs[t].Saving? ==> Spares(crew, v.jobs[t].op)
  {
  }

  /** A move that commits nothing. */
  lemma QuietKeeps(crew: Crew, fl: Fleet, m: L.Move)
    requires FleetInv(crew, fl) && CanDo(crew, fl, Ledger(m)) && Committer(fl.sys, m).None?
    ensures FleetInv(crew, Done(crew, fl, Ledger(m)))
  {
    var v := Done(crew, fl, Ledger(m));
    L.MoveKeeps(crew.f, fl.sys, m);
    LogAfter(crew.f, fl.sys, m);
    forall t | t in v.sys.jobs && t >= |crew.rs| && v.sys.jobs[t].Saving? ensures Spares(crew, v.sys.jobs[t].op) {
      OthersSpare(crew, fl, m, t);
    }
    forall i: nat | i < |crew.rs| ensures StageOk(v.sys, i, crew.rs[i], v.stages[i], v.marks[i]) {
      StageStays(crew, fl, m, i);
    }
  }

  lemma StageStays(crew: Crew, fl: Fleet, m: L.Move, i: nat)
    requires FleetInv(crew, fl) && CanDo(crew, fl, Ledger(m)) && i < |crew.rs| && Committer(fl.sys, m) != Some(i)
    ensures StageOk(L.Moved(crew.f, fl.sys, m), i, crew.rs[i], fl.stages[i], fl.marks[i])
  {
    assert StageOk(fl.sys, i, crew.rs[i], fl.stages[i], fl.marks[i]);
    if fl.stages[i].Recording? || fl.stages[i].Retiring? {
      InFileTracks(crew.f, fl.sys, m, i);
    } else {
      IdleStays(crew.f, fl.sys, m, i);
    }
  }

  lemma OpsOfOneMore(log: seq<L.Commit>, c: L.Commit)
    ensures OpsOf(log + [c]) == OpsOf(log) + [c.op]
    ensures Grew(OpsOf(log), OpsOf(log + [c]), c.op)
  {
    var ops := OpsOf(log);
    assert OpsOf(log + [c]) == ops[..|ops|] + [c.op] + ops[|ops|..];
  }

  /** What the account of a fleet says once one more operation is in the log. */
  lemma CommitLogged(crew: Crew, fl: Fleet, m: L.Move, t: nat)
    requires Shaped(crew, fl) && CanDo(crew, fl, Ledger(m)) && Committer(fl.sys, m) == Some(t)
    ensures var v := L.Moved(crew.f, fl.sys, m);
      t in fl.sys.jobs && fl.sys.jobs[t].Saving? && v.jobs == fl.sys.jobs
      && Grew(OpsOf(fl.sys.log), OpsOf(v.log), fl.sys.jobs[t].op)
  {
    LogAfter(crew.f, fl.sys, m);
    OpsOfOneMore(fl.sys.log, L.Commit(fl.sys.jobs[t].turn, fl.sys.jobs[t].op));
  }

  lemma StrangerAccounted(crew: Crew, fl: Fleet, m: L.Move, t: nat)
    requires Shaped(crew, fl) && Accounted(crew, fl) && CanDo(crew, fl, Ledger(m)) && Committer(fl.sys, m) == Some(t)
    requires t >= |crew.rs|
    ensures Accounted(crew, Done(crew, fl, Ledger(m)))
  {
    var v := Done(crew, fl, Ledger(m));
    var op := fl.sys.jobs[t].op;
    CommitLogged(crew, fl, m, t);
    OtherBalance(OpsOf(fl.sys.log), OpsOf(v.sys.log), DoneOps(crew.rs, fl.marks), fl.others, op);
    forall k | 0 <= k < |v.others| ensures Spares(crew, v.others[k]) {
      assert k < |fl.others| ==> v.others[k] == fl.others[k];
    }
  }

  lemma OtherBalance(log: seq<Op>, log': seq<Op>, done: seq<Op>, others: seq<Op>, op: Op)
    requires Grew(log, log', op) && Balanced(log, done, others)
    ensures Balanced(log', done, others + [op])
  {
    GrewCounts(log, log', op);
  }

  lemma OwnBalance(log: seq<Op>, log': seq<Op>, done: seq<Op>, done': seq<Op>, others: seq<Op>, op: Op)
    requires Grew(log, log', op) && Balanced(log, done, others)
    requires Grew(done, done', op)
    ensures Balanced(log', done', others)
  {
    GrewCounts(log, log', op);
    GrewCounts(done, done', op);
  }

  /** The commit of a call that belongs to no rotation. */
  lemma StrangerCommits(crew: Crew, fl: Fleet, m: L.Move, t: nat)
    requires FleetInv(crew, fl) && CanDo(crew, fl, Ledger(m)) && Committer(fl.sys, m) == Some(t) && t >= |crew.rs|
    ensures FleetInv(crew, Done(crew, fl, Ledger(m)))
  {
    var v := Done(crew, fl, Ledger(m));
    L.MoveKeeps(crew.f, fl.sys, m);
    StrangerAccounted(crew, fl, m, t);
    forall i: nat | i < |crew.rs| ensures StageOk(v.sys, i, crew.rs[i], v.stages[i], v.marks[i]) {
      StageStays(crew, fl, m, i);
    }
  }

  /** The commit of a rotation's own call marks it. */
  lemma MemberMarked(crew: Crew, fl: Fleet, m: L.Move, t: nat)
    requires FleetInv(crew, fl) && CanDo(crew, fl, Ledger(m)) && Committer(fl.sys, m) == Some(t) && t < |crew.rs|
    ensures t in fl.sys.jobs
    ensures var n := Marked(fl.marks[t], fl.stages[t]);
      && StageOk(L.Moved(crew.f, fl.sys, m), t, crew.rs[t], fl.stages[t], n)
      && Grew(Own(crew.rs[t], fl.marks[t]), Own(crew.rs[t], n), fl.sys.jobs[t].op)
  {
    assert StageOk(fl.sys, t, crew.rs[t], fl.stages[t], fl.marks[t]);
    LogAfter(crew.f, fl.sys, m);
    InFileTracks(crew.f, fl.sys, m, t);
    OwnGrows(crew.rs[t], fl.marks[t], Marked(fl.marks[t], fl.stages[t]), fl.sys.jobs[t].op);
  }

  lemma MemberAccounted(crew: Crew, fl: Fleet, m: L.Move, t: nat)
    requires Shaped(crew, fl) && Accounted(crew, fl) && CanDo(crew, fl, Ledger(m)) && Committer(fl.sys, m) == Some(t)
    requires t < |crew.rs|
    requires t in fl.sys.jobs
    requires Grew(Own(crew.rs[t], fl.marks[t]), Own(crew.rs[t], Marked(fl.marks[t], fl.stages[t])), fl.sys.jobs[t].op)
    ensures Accounted(crew, Done(crew, fl, Ledger(m)))
  {
    CommitLogged(crew, fl, m, t);
    var sys, op := L.Moved(crew.f, fl.sys, m), fl.sys.jobs[t].op;
    var marks := fl.marks[t := Marked(fl.marks[t], fl.stages[t])];
    assert Done(crew, fl, Ledger(m)) == fl.(sys := sys, marks := marks);
    DoneGrows(crew.rs, fl.marks, t, Marked(fl.marks[t], fl.stages[t]), op);
    OwnBalance(OpsOf(fl.sys.log), OpsOf(sys.log), DoneOps(crew.rs, fl.marks), DoneOps(crew.rs, marks), fl.others, op);
  }

  lemma MemberCommits(crew: Crew, fl: Fleet, m: L.Move, t: nat)
    requires FleetInv(crew, fl) && CanDo(crew, fl, Ledger(m)) && Committer(fl.sys, m) == Some(t) && t < |crew.rs|
    ensures FleetInv(crew, Done(crew, fl, Ledger(m)))
  {
    var v := Done(crew, fl, Ledger(m));
    L.MoveKeeps(crew.f, fl.sys, m);
    MemberMarked(crew, fl, m, t);
    MemberAccounted(crew, fl, m, t);
    forall i: nat | i < |crew.rs| ensures StageOk(v.sys, i, crew.rs[i], v.stages[i], v.marks[i]) {
      if i == t {
        MemberMarked(crew, fl, m, t);
      } else {
        StageStays(crew, fl, m, i);
      }
    }
  }

  /** The stage of a rotation, its own call or another's having started. */
  lemma CallFits(f: L.File, s: L.Sys, i: nat, op: Op, k: nat, r: Swap, stage: Stage, m: Mark)
    requires !IsStaging(f.at.base) && L.CanMove(f, s, L.Call(i, op)) && StageOk(s, k, r, stage, m)
    ensures k != i ==> StageOk(L.Moved(f, s, L.Call(i, op)), k, r, stage, m)
    ensures k == i && stage.Approved? && op == RecordOp(r) ==> StageOk(L.Moved(f, s, L.Call(i, op)), i, r, Recording, m)
    ensures k == i && stage.Revoked? && op == RemoveOp(r) ==> StageOk(L.Moved(f, s, L.Call(i, op)), i, r, Retiring, m)
  {
  }

  /** A rotation starts one of its two ledger calls. */
  lemma CallStarts(crew: Crew, fl: Fleet, i: nat, op: Op, stage: Stage)
    requires FleetInv(crew, fl) && i < |crew.rs| && L.CanMove(crew.f, fl.sys, L.Call(i, op)) && !L.Busy(fl.sys, i)
    requires (stage.Recording? && fl.stages[i].Approved? && op == RecordOp(crew.rs[i]))
      || (stage.Retiring? && fl.stages[i].Revoked? && op == RemoveOp(crew.rs[i]))
    ensures FleetInv(crew, Staged(fl, i, stage).(sys := L.Moved(crew.f, fl.sys, L.Call(i, op))))
  {
    var v := Staged(fl, i, stage).(sys := L.Moved(crew.f, fl.sys, L.Call(i, op)));
    L.MoveKeeps(crew.f, fl.sys, L.Call(i, op));
    forall k: nat | k < |crew.rs| ensures StageOk(v.sys, k, crew.rs[k], v.stages[k], v.marks[k]) {
      CallFits(crew.f, fl.sys, i, op, k, crew.rs[k], fl.stages[k], fl.marks[k]);
    }
  }

  /** Every deed keeps the invariant. */
  lemma DeedKeeps(crew: Crew, fl: Fleet, d: Deed)
    requires FleetInv(crew, fl) && CanDo(crew, fl, d)
    ensures FleetInv(crew, Done(crew, fl, d))
  {
    match d
    case Ledger(m) =>
      var t := Committer(fl.sys, m);
      if t.None? {
        QuietKeeps(crew, fl, m);
      } else if t.value < |crew.rs| {
        MemberCommits(crew, fl, m, t.value);
      } else {
        StrangerCommits(crew, fl, m, t.value);
      }
    case StartRecord(i) => CallStarts(crew, fl, i, RecordOp(crew.rs[i]), Recording);
    case StartRemove(i) => CallStarts(crew, fl, i, RemoveOp(crew.rs[i]), Retiring);
    case Heard(i, e) => StageTurns(crew, fl, i, e);
  }

  /** A journal entry turns its rotation to a stage that fits. */
  lemma TurnFits(s: L.Sys, i: nat, r: Swap, stage: Stage, m: Mark, e: P.Remote)
    requires StageOk(s, i, r, stage, m) && Fitting(s, i, r, stage, e) && Follow(CourseOf(r), stage, e).Some?
    ensures StageOk(s, i, r, Follow(CourseOf(r), stage, e).value, m)
  {
  }

  lemma StageTurns(crew: Crew, fl: Fleet, i: nat, e: P.Remote)
    requires FleetInv(crew, fl) && CanDo(crew, fl, Heard(i, e))
    ensures FleetInv(crew, Done(crew, fl, Heard(i, e)))
  {
    var v := Done(crew, fl, Heard(i, e));
    TurnFits(fl.sys, i, crew.rs[i], fl.stages[i], fl.marks[i], e);
    forall k: nat | k < |crew.rs| ensures StageOk(v.sys, k, crew.rs[k], v.stages[k], v.marks[k]) {
      assert StageOk(fl.sys, k, crew.rs[k], fl.stages[k], fl.marks[k]);
    }
  }

  // ---- Whole runs ------------------------------------------------------------------

  predicate Starts(crew: Crew, fl: Fleet)
    requires Shaped(crew, fl)
  {
    && L.Starts(crew.f, fl.sys) && fl.others == []
    && forall i | 0 <= i < |crew.rs| :: fl.stages[i] == Issuing && fl.marks[i] == Mark(false, false)
  }

  function Sailed(crew: Crew, fl: Fleet, ds: seq<Deed>): (r: Option<Fleet>)
    requires Shaped(crew, fl)
    ensures r.Some? ==> Shaped(crew, r.value)
  {
    if ds == [] then Some(fl)
    else match Sailed(crew, fl, ds[..|ds| - 1])
         case None => None
         case Some(v) => if CanDo(crew, v, ds[|ds| - 1]) then Some(Done(crew, v, ds[|ds| - 1])) else None
  }

  lemma {:induction false} SailedKeeps(crew: Crew, fl: Fleet, ds: seq<Deed>)
    requires FleetInv(crew, fl) && Sailed(crew, fl, ds).Some?
    ensures FleetInv(crew, Sailed(crew, fl, ds).value)
  {
    if ds != [] {
      SailedKeeps(crew, fl, ds[..|ds| - 1]);
      DeedKeeps(crew, Sailed(crew, fl, ds[..|ds| - 1]).value, ds[|ds| - 1]);
    }
  }

  lemma {:induction false} NothingDone(rs: seq<Swap>, marks: seq<Mark>)
    requires |rs| == |marks| && forall k | 0 <= k < |marks| :: marks[k] == Mark(false, false)
    ensures DoneOps(rs, marks) == []
  {
    if rs != [] {
      NothingDone(rs[..|rs| - 1], marks[..|rs| - 1]);
    }
  }

  lemma StartsWell(crew: Crew, fl: Fleet)
    requires Shaped(crew, fl) && Starts(crew, fl) && Lawful(crew.f.codec) && I.Inv(fl.sys.w)
    ensures FleetInv(crew, fl)
  {
    NothingAccounted(crew, fl);
  }

  lemma NothingAccounted(crew: Crew, fl: Fleet)
    requires Shaped(crew, fl) && Starts(crew, fl)
    ensures Accounted(crew, fl)
  {
    NothingDone(crew.rs, fl.marks);
    assert OpsOf(fl.sys.log) == [];
  }

  // ---- What the file holds -----------------------------------------------------------------

  lemma {:induction false} UnhitCounts(es: seq<Metadata>, ops: seq<Op>, n: Metadata)
    requires !Hit(ops, n)
    ensures Count(Replay(es, ops), n) == Count(es, n) + Additions(ops, n)
  {
    if ops != [] {
      HitGrows(ops, n);
      UnhitCounts(es, ops[..|ops| - 1], n);
      ReplayCounts(es, ops, n);
    }
  }

  lemma {:induction false} AddedCounts(ops: seq<Op>, op: Op, n: Metadata)
    requires op in ops && Adds(op, n)
    ensures Additions(ops, n) > 0
  {
    if ops[|ops| - 1] != op {
      AddedCounts(ops[..|ops| - 1], op, n);
    }
  }

  /** What is in the commit log is a rotation's own or spares them all. */
  lemma LoggedIsKnown(crew: Crew, fl: Fleet, op: Op)
    requires FleetInv(crew, fl)
    ensures op in OpsOf(fl.sys.log) <==> Owned(crew.rs, fl.marks, op) || op in fl.others
  {
    DoneHolds(crew.rs, fl.marks, op);
    assert op in OpsOf(fl.sys.log) <==> op in multiset(OpsOf(fl.sys.log));
    assert op in DoneOps(crew.rs, fl.marks) <==> op in multiset(DoneOps(crew.rs, fl.marks));
    assert op in fl.others <==> op in multiset(fl.others);
  }

  /** Two rotations of one old token; each is one of its own. */
  predicate SameOld(crew: Crew, i: nat, k: nat)
    requires i < |crew.rs|
  {
    k < |crew.rs| && crew.rs[k].provider == crew.rs[i].provider && crew.rs[k].oldId == crew.rs[i].oldId
  }

  /** No rotation takes a replacement: the new IDs are not among the old ones. */
  lemma OwnSpares(rs: seq<Swap>, j: nat, m: Mark, i: nat, op: Op)
    requires Distinct(rs) && i < |rs| && j < |rs| && op in Own(rs[j], m)
    ensures !Hits(op, Normalise(rs[i].entry))
  {
    assert !Matches(rs[i].entry, rs[j].provider, ById(rs[j].oldId));
  }

  lemma NewIsSpared(crew: Crew, fl: Fleet, i: nat)
    requires FleetInv(crew, fl) && Distinct(crew.rs) && i < |crew.rs|
    ensures !Hit(OpsOf(fl.sys.log), Normalise(crew.rs[i].entry))
  {
    var n := Normalise(crew.rs[i].entry);
    var ops := OpsOf(fl.sys.log);
    forall k | 0 <= k < |ops| ensures !Hits(ops[k], n) {
      LoggedIsKnown(crew, fl, ops[k]);
      if Owned(crew.rs, fl.marks, ops[k]) {
        var j :| 0 <= j < |crew.rs| && ops[k] in Own(crew.rs[j], fl.marks[j]);
        OwnSpares(crew.rs, j, fl.marks[j], i, ops[k]);
      }
    }
  }

  /** A recorded replacement is in the list, whatever came behind it. */
  lemma NewIsLogged(crew: Crew, fl: Fleet, es: seq<Metadata>, i: nat)
    requires FleetInv(crew, fl) && Distinct(crew.rs) && i < |crew.rs| && fl.marks[i].recorded
    ensures Count(Replay(es, OpsOf(fl.sys.log)), Normalise(crew.rs[i].entry)) > 0
  {
    var op := RecordOp(crew.rs[i]);
    NewIsSpared(crew, fl, i);
    UnhitCounts(es, OpsOf(fl.sys.log), Normalise(crew.rs[i].entry));
    assert op in Own(crew.rs[i], fl.marks[i]);
    LoggedIsKnown(crew, fl, op);
    AddedCounts(OpsOf(fl.sys.log), op, Normalise(crew.rs[i].entry));
  }

  lemma OldIsSpared(crew: Crew, fl: Fleet, i: nat)
    requires FleetInv(crew, fl) && i < |crew.rs| && forall k: nat | SameOld(crew, i, k) :: !fl.marks[k].removed
    requires Matches(crew.olds[i], crew.rs[i].provider, ById(crew.rs[i].oldId))
    ensures !Hit(OpsOf(fl.sys.log), Normalise(crew.olds[i]))
  {
    var ops := OpsOf(fl.sys.log);
    forall k | 0 <= k < |ops| ensures !Hits(ops[k], Normalise(crew.olds[i])) {
      LoggedIsKnown(crew, fl, ops[k]);
      if Owned(crew.rs, fl.marks, ops[k]) {
        var j :| 0 <= j < |crew.rs| && ops[k] in Own(crew.rs[j], fl.marks[j]);
      }
    }
  }

  /** The list the file decodes to, mid-write included. */
  lemma FileIsReplay(crew: Crew, fl: Fleet, es: seq<Metadata>)
    requires FleetInv(crew, fl) && EntriesOf(crew.f.codec, crew.f.initial) == Some(es)
    ensures EntriesOf(crew.f.codec, FileAt(fl.sys.w.fs, crew.f.at)) == Some(Replay(es, OpsOf(fl.sys.log)))
  {
    I.RegisterReads(fl.sys.w, crew.f.at);
    FoldedReplays(crew.f, fl.sys.log);
  }

  ghost predicate NobodyAsked(crew: Crew, fl: Fleet, i: nat)
    requires Shaped(crew, fl) && i < |crew.rs|
  {
    forall k: nat | SameOld(crew, i, k) :: !AskedFor(fl.stages[k])
  }

  /** The file decodes.  Either nobody has asked for the old token's revocation
      and its entry is there, or a replacement of it is recorded; and while a
      replacement is recorded its entry is there in any case. */
  ghost predicate Recoverable(crew: Crew, fl: Fleet, i: nat)
    requires Shaped(crew, fl) && i < |crew.rs|
  {
    var now := EntriesOf(crew.f.codec, FileAt(fl.sys.w.fs, crew.f.at));
    && now.Some?
    && (NobodyAsked(crew, fl, i) ==> Count(now.value, Normalise(crew.olds[i])) > 0)
    && (forall k: nat | SameOld(crew, i, k) && AskedFor(fl.stages[k]) ::
          HasRecorded(CourseOf(crew.rs[k]), fl.stages[k]))
    && (forall k: nat | SameOld(crew, i, k) && HasRecorded(CourseOf(crew.rs[k]), fl.stages[k]) ::
          Count(now.value, Normalise(crew.rs[k].entry)) > 0)
  }

  /** What one rotation's stage says about the list. */
  lemma RotationStands(crew: Crew, fl: Fleet, es: seq<Metadata>, k: nat)
    requires FleetInv(crew, fl) && Distinct(crew.rs) && k < |crew.rs|
    ensures fl.marks[k].removed ==> AskedFor(fl.stages[k])
    ensures AskedFor(fl.stages[k]) ==> HasRecorded(CourseOf(crew.rs[k]), fl.stages[k])
    ensures HasRecorded(CourseOf(crew.rs[k]), fl.stages[k]) ==>
      Count(Replay(es, OpsOf(fl.sys.log)), Normalise(crew.rs[k].entry)) > 0
  {
    assert StageOk(fl.sys, k, crew.rs[k], fl.stages[k], fl.marks[k]);
    if HasRecorded(CourseOf(crew.rs[k]), fl.stages[k]) {
      NewIsLogged(crew, fl, es, k);
    }
  }

  /** An old entry nobody else takes is in the list until a rotation of it does. */
  lemma OldIsHeld(crew: Crew, fl: Fleet, es: seq<Metadata>, i: nat)
    requires FleetInv(crew, fl) && i < |crew.rs| && forall k: nat | SameOld(crew, i, k) :: !fl.marks[k].removed
    requires Matches(crew.olds[i], crew.rs[i].provider, ById(crew.rs[i].oldId))
    requires Count(es, Normalise(crew.olds[i])) > 0
    ensures Count(Replay(es, OpsOf(fl.sys.log)), Normalise(crew.olds[i])) > 0
  {
    OldIsSpared(crew, fl, i);
    UnhitCounts(es, OpsOf(fl.sys.log), Normalise(crew.olds[i]));
  }

  lemma RecoverableNow(crew: Crew, fl: Fleet, es: seq<Metadata>, i: nat)
    requires FleetInv(crew, fl) && EntriesOf(crew.f.codec, crew.f.initial) == Some(es)
    requires Distinct(crew.rs) && i < |crew.rs|
    requires Matches(crew.olds[i], crew.rs[i].provider, ById(crew.rs[i].oldId))
    requires Count(es, Normalise(crew.olds[i])) > 0
    ensures Recoverable(crew, fl, i)
  {
    FileIsReplay(crew, fl, es);
    forall k: nat | SameOld(crew, i, k)
      ensures fl.marks[k].removed ==> AskedFor(fl.stages[k])
      ensures AskedFor(fl.stages[k]) ==> HasRecorded(CourseOf(crew.rs[k]), fl.stages[k])
      ensures HasRecorded(CourseOf(crew.rs[k]), fl.stages[k]) ==>
        Count(Replay(es, OpsOf(fl.sys.log)), Normalise(crew.rs[k].entry)) > 0
    {
      RotationStands(crew, fl, es, k);
    }
    if NobodyAsked(crew, fl, i) {
      OldIsHeld(crew, fl, es, i);
    }
  }

  /** Several rotations at once, crashes anywhere: at every point of every run
      each of them is recoverable. */
  lemma EveryRotationRecoverable(crew: Crew, fl: Fleet, ds: seq<Deed>, es: seq<Metadata>, i: nat)
    requires Shaped(crew, fl) && Starts(crew, fl) && Lawful(crew.f.codec) && I.Inv(fl.sys.w)
    requires Sailed(crew, fl, ds).Some?
    requires EntriesOf(crew.f.codec, crew.f.initial) == Some(es) && Distinct(crew.rs) && i < |crew.rs|
    requires Matches(crew.olds[i], crew.rs[i].provider, ById(crew.rs[i].oldId))
    requires Count(es, Normalise(crew.olds[i])) > 0
    ensures Recoverable(crew, Sailed(crew, fl, ds).value, i)
  {
    StartsWell(crew, fl);
    SailedKeeps(crew, fl, ds);
    RecoverableNow(crew, Sailed(crew, fl, ds).value, es, i);
  }

  /** Rotation i's own journal. */
  function JournalOf(ds: seq<Deed>, i: nat): seq<P.Remote> {
    if ds == [] then []
    else
      var last := ds[|ds| - 1];
      JournalOf(ds[..|ds| - 1], i) + if last.Heard? && last.i == i then [last.e] else []
  }

  /** Each rotation is where its journal says, as a rotation that runs on its own
      is: both follow one course. */
  lemma {:induction false} StageIsJournal(crew: Crew, fl: Fleet, ds: seq<Deed>, i: nat)
    requires Shaped(crew, fl) && Starts(crew, fl) && Sailed(crew, fl, ds).Some? && i < |crew.rs|
    ensures Followed(CourseOf(crew.rs[i]), JournalOf(ds, i)) == Some(Shown(Sailed(crew, fl, ds).value.stages[i]))
  {
    if ds != [] {
      var front, last := ds[..|ds| - 1], ds[|ds| - 1];
      StageIsJournal(crew, fl, front, i);
      if last.Heard? && last.i == i {
        ShownFollows(CourseOf(crew.rs[i]), Sailed(crew, fl, front).value.stages[i], last.e);
        FollowedOn(CourseOf(crew.rs[i]), JournalOf(front, i), last.e);
      } else {
        assert JournalOf(ds, i) == JournalOf(front, i);
      }
    }
  }

  lemma JournalTells(crew: Crew, fl: Fleet, ds: seq<Deed>, k: nat)
    requires Shaped(crew, fl) && Starts(crew, fl) && Sailed(crew, fl, ds).Some? && k < |crew.rs|
    ensures AskedFor(Sailed(crew, fl, ds).value.stages[k]) <==> Requested(ds, k, crew.rs[k].oldId)
    ensures HasRecorded(CourseOf(crew.rs[k]), Sailed(crew, fl, ds).value.stages[k])
      <==> P.Recorded(crew.rs[k].entry, true) in JournalOf(ds, k)
  {
    StageIsJournal(crew, fl, ds, k);
    StageTells(CourseOf(crew.rs[k]), JournalOf(ds, k));
  }

  predicate Requested(ds: seq<Deed>, k: nat, oldId: string) {
    P.RevokeSent(oldId) in JournalOf(ds, k)
  }

  /** The same in terms of the journals alone: while no rotation has asked for the
      old token's revocation its entry is in the list; whoever has asked had the
      replacement recorded before; and a recorded replacement is in the list. */
  lemma EveryJournalRecoverable(crew: Crew, fl: Fleet, ds: seq<Deed>, es: seq<Metadata>, i: nat)
    requires Shaped(crew, fl) && Starts(crew, fl) && Lawful(crew.f.codec) && I.Inv(fl.sys.w)
    requires Sailed(crew, fl, ds).Some?
    requires EntriesOf(crew.f.codec, crew.f.initial) == Some(es) && Distinct(crew.rs) && i < |crew.rs|
    requires Matches(crew.olds[i], crew.rs[i].provider, ById(crew.rs[i].oldId))
    requires Count(es, Normalise(crew.olds[i])) > 0
    ensures var now := EntriesOf(crew.f.codec, FileAt(Sailed(crew, fl, ds).value.sys.w.fs, crew.f.at));
      && now.Some?
      && ((forall k | SameOld(crew, i, k) :: !Requested(ds, k, crew.rs[i].oldId)) ==>
            Count(now.value, Normalise(crew.olds[i])) > 0)
      && forall k: nat | SameOld(crew, i, k) ::
           && (Requested(ds, k, crew.rs[i].oldId) ==> P.Recorded(crew.rs[k].entry, true) in JournalOf(ds, k))
           && (P.Recorded(crew.rs[k].entry, true) in JournalOf(ds, k) ==>
                 Count(now.value, Normalise(crew.rs[k].entry)) > 0)
  {
    EveryRotationRecoverable(crew, fl, ds, es, i);
    forall k: nat | SameOld(crew, i, k)
      ensures AskedFor(Sailed(crew, fl, ds).value.stages[k]) <==> Requested(ds, k, crew.rs[i].oldId)
      ensures HasRecorded(CourseOf(crew.rs[k]), Sailed(crew, fl, ds).value.stages[k])
        <==> P.Recorded(crew.rs[k].entry, true) in JournalOf(ds, k)
    {
      JournalTells(crew, fl, ds, k);
    }
  }

  /** When every rotation's two ledger calls have succeeded, and nothing else was
      committed, the file decodes to the initial entries without the replaced ones
      plus one per replacement, whatever the interleaving was. */
  lemma RotationsFinish(crew: Crew, fl: Fleet, ds: seq<Deed>, es: seq<Metadata>)
    requires Shaped(crew, fl) && Starts(crew, fl) && Lawful(crew.f.codec) && I.Inv(fl.sys.w)
    requires Sailed(crew, fl, ds).Some?
    requires EntriesOf(crew.f.codec, crew.f.initial) == Some(es) && Distinct(crew.rs)
    requires var v := Sailed(crew, fl, ds).value;
      v.others == [] && forall i | 0 <= i < |crew.rs| :: v.stages[i] == Over(true, true, true)
    ensures var now := EntriesOf(crew.f.codec, FileAt(Sailed(crew, fl, ds).value.sys.w.fs, crew.f.at));
      now.Some? && forall n ::
        Count(now.value, n) == (if Superseded(crew.rs, n) then 0 else Count(es, n)) + Count(Entries(crew.rs), n)
  {
    StartsWell(crew, fl);
    SailedKeeps(crew, fl, ds);
    AllFinished(crew, Sailed(crew, fl, ds).value, es);
  }

  lemma AllFinished(crew: Crew, v: Fleet, es: seq<Metadata>)
    requires FleetInv(crew, v) && EntriesOf(crew.f.codec, crew.f.initial) == Some(es) && Distinct(crew.rs)
    requires v.others == [] && forall i | 0 <= i < |crew.rs| :: v.stages[i] == Over(true, true, true)
    ensures var now := EntriesOf(crew.f.codec, FileAt(v.sys.w.fs, crew.f.at));
      now.Some? && forall n ::
        Count(now.value, n) == (if Superseded(crew.rs, n) then 0 else Count(es, n)) + Count(Entries(crew.rs), n)
  {
    FileIsReplay(crew, v, es);
    forall i: nat | i < |crew.rs| ensures v.marks[i] == Mark(true, true) {
      assert StageOk(v.sys, i, crew.rs[i], v.stages[i], v.marks[i]);
    }
    AllDoneIsPlan(crew.rs, v.marks);
    NobodyElse(OpsOf(v.sys.log), DoneOps(crew.rs, v.marks), v.others);
    PlanReplayed(es, crew.rs, OpsOf(v.sys.log));
  }

  lemma NobodyElse(log: seq<Op>, done: seq<Op>, others: seq<Op>)
    requires Balanced(log, done, others) && others == []
    ensures multiset(log) == multiset(done)
  {
  }

  lemma PlanReplayed(es: seq<Metadata>, rs: seq<Swap>, ops: seq<Op>)
    requires Distinct(rs) && multiset(ops) == multiset(Plan(rs))
    ensures forall n ::
      Count(Replay(es, ops), n) == (if Superseded(rs, n) then 0 else Count(es, n)) + Count(Entries(rs), n)
  {
    forall n
      ensures Count(Replay(es, ops), n) == (if Superseded(rs, n) then 0 else Count(es, n)) + Count(Entries(rs), n)
    {
      RotationsConverge(es, rs, ops, n);
    }
  }
}
