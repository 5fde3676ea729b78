/** Any number of ledger calls, from any number of Ledger values naming one file,
    under the process-wide lock, with every system call of every call interleaved:
    the file is at all times the list the committed operations make in lock order. */
module LedgerThreads {
  import opened Basics
  import opened Protocol
  import opened Interleaving
  import opened LedgerSteps
  import T = Tokens

  type Op = T.Op

  /** One ledger call; its turn is its place in the order of lock acquisitions. */
  datatype Job =
    | Waiting(op: Op)
    | Loading(op: Op, turn: nat)
    | Saving(op: Op, turn: nat)
    | Finished(op: Op, turn: nat, ok: bool)

  datatype Commit = Commit(turn: nat, op: Op)

  datatype Sys = Sys(w: World, jobs: map<nat, Job>, lock: Option<nat>, turns: nat, log: seq<Commit>)

  /** The file every one of these ledgers names, its codec and first content. */
  datatype File = File(at: Place, codec: T.Codec, initial: Option<Bytes>)

  datatype Move =
    | Call(t: nat, op: Op)
    | Acquire(t: nat)
    | Decide(t: nat, op: Op)   // the read is over; Cleanup has sampled the clock
    | Leave(t: nat)            // the write is over
    | Other(e: Event)          // any system call, any return, any foreign call

  predicate Busy(s: Sys, t: nat) {
    t in s.jobs && !s.jobs[t].Finished?
  }

  /** The operation asked for; a cleanup's clock readings are known by now. */
  predicate Suits(asked: Op, op: Op, es: Option<seq<T.Metadata>>) {
    if asked.Cleanup? && es.Some? then op.Cleanup? && |op.nows| == |es.value| else op == asked
  }

  predicate CanMove(f: File, s: Sys, m: Move) {
    match m
    case Call(t, op) => !Busy(s, t) && (PcOf(s.w, t).Idle? || PcOf(s.w, t).Ended?)
    case Acquire(t) => t in s.jobs && s.jobs[t].Waiting? && s.lock.None? && Allowed(s.w, Begin(t, Reading(f.at)))
    case Decide(t, op) =>
      t in s.jobs && s.jobs[t].Loading? && PcOf(s.w, t).Ended?
        && Suits(s.jobs[t].op, op, Seen(f.codec, PcOf(s.w, t).outcome))
    case Leave(t) => t in s.jobs && s.jobs[t].Saving? && PcOf(s.w, t).Ended?
    case Other(e) =>
      Allowed(s.w, e) && (e.Begin? ==> !Busy(s, e.t) && (e.role.Reading? || e.role.at != f.at))
  }

  function Ends(s: Sys, t: nat, op: Op, turn: nat, ok: bool): Sys {
    s.(jobs := s.jobs[t := Finished(op, turn, ok)], lock := None)
  }

  function Decided(f: File, s: Sys, t: nat, op: Op): Sys
    requires CanMove(f, s, Decide(t, op)) && !IsStaging(f.at.base)
  {
    var turn := s.jobs[t].turn;
    match LedgerSteps.Decide(f.codec, op, PcOf(s.w, t).outcome)
    case Refuse => Ends(s, t, op, turn, false)
    case Rest => Ends(s, t, op, turn, true)
    case Write(bytes) => s.(w := After(s.w, Begin(t, Writing(f.at, bytes))), jobs := s.jobs[t := Saving(op, turn)])
  }

  function Commits(s: Sys, e: Event): seq<Commit> {
    if e.Step? && e.c.Rename? && e.t in s.jobs && s.jobs[e.t].Saving?
    then [Commit(s.jobs[e.t].turn, s.jobs[e.t].op)] else []
  }

  function Moved(f: File, s: Sys, m: Move): Sys
    requires CanMove(f, s, m) && !IsStaging(f.at.base)
  {
    match m
    case Call(t, op) => s.(jobs := s.jobs[t := Waiting(op)])
    case Acquire(t) =>
      var jobs := s.jobs[t := Job.Loading(s.jobs[t].op, s.turns)];
      Sys(After(s.w, Begin(t, Reading(f.at))), jobs, Some(t), s.turns + 1, s.log)
    case Decide(t, op) => Decided(f, s, t, op)
    case Leave(t) => Ends(s, t, s.jobs[t].op, s.jobs[t].turn, PcOf(s.w, t).outcome.Replaced?)
    case Other(e) => s.(w := After(s.w, e), log := s.log + Commits(s, e))
  }

  // ---- The sequential list -----------------------------------------------------------

  /** The list after the committed operations, one after the other. */
  function Folded(f: File, log: seq<Commit>): Option<seq<T.Metadata>> {
    if log == [] then T.EntriesOf(f.codec, f.initial)
    else match Folded(f, log[..|log| - 1])
         case None => None
         case Some(es) => Some(T.NormaliseAll(T.Apply(log[|log| - 1].op, es)))
  }

  /** The commits of earlier turns. */
  function Earlier(log: seq<Commit>, turn: nat): seq<Commit> {
    if log == [] || log[|log| - 1].turn < turn then log else Earlier(log[..|log| - 1], turn)
  }

  /** A cleanup for which nothing was stale. */
  predicate NoneStale(op: Op, es: seq<T.Metadata>) {
    op.Cleanup? && |op.nows| == |es| && forall k | 0 <= k < |es| :: !T.Stale(es[k], op.nows[k], op.cutoff)
  }

  /** What success means: committed in its turn, or a cleanup that found nothing
      stale in the list its turn began with. */
  predicate Succeeded(f: File, log: seq<Commit>, op: Op, turn: nat) {
    Commit(turn, op) in log
    || (Folded(f, Earlier(log, turn)).Some? && NoneStale(op, Folded(f, Earlier(log, turn)).value))
  }

  // ---- The invariant ---------------------------------------------------------------

  predicate Active(pc: Pc) {
    !pc.Idle? && !pc.Ended? && !pc.Stuck?
  }

  /** No one but the lock's holder is in the middle of changing the file. */
  predicate Harmless(f: File, pc: Pc) {
    Active(pc) ==> pc.role.Reading? || pc.role.at != f.at
  }

  /** The holder's read shows what the file still holds. */
  predicate LoadOk(f: File, w: World, t: nat) {
    var pc := PcOf(w, t);
    match pc
    case Started(role) => role == Reading(f.at)
    case Sighted(role, _) => role == Reading(f.at)
    case Loading(role, _, _) => role == Reading(f.at) && SnapOf(w, t) == Held(w, f.at)
    case Ended(role, out) =>
      role == Reading(f.at)
      && (match out
          case Got(d) => Held(w, f.at) == Some(d)
          case Absent => Held(w, f.at) == None
          case o => o.Failed?)
    case _ => false
  }

  predicate Uncommitted(log: seq<Commit>, turn: nat) {
    forall k | 0 <= k < |log| :: log[k].turn < turn
  }

  /** The holder's write is of the operation's image, and committed if renamed. */
  predicate SaveOk(f: File, s: Sys, t: nat, op: Op, turn: nat) {
    var pc := PcOf(s.w, t);
    if pc.Started? || pc.Staging? || pc.Sealed? || (pc.Ended? && pc.outcome.Failed?) then
      pc.role.Writing? && pc.role.at == f.at && T.Image(f.codec, Held(s.w, f.at), op) == Some(pc.role.data)
        && Uncommitted(s.log, turn)
    else
      (pc.Swept? || (pc.Ended? && pc.outcome.Replaced?)) && pc.role.Writing? && pc.role.at == f.at
      && s.log != [] && s.log[|s.log| - 1] == Commit(turn, op)
  }

  predicate JobOk(f: File, s: Sys, t: nat, job: Job) {
    match job
    case Waiting(_) => !Active(PcOf(s.w, t))
    case Loading(_, turn) => s.lock == Some(t) && turn + 1 == s.turns && LoadOk(f, s.w, t) && Uncommitted(s.log, turn)
    case Saving(op, turn) => s.lock == Some(t) && turn + 1 == s.turns && SaveOk(f, s, t, op, turn)
    case Finished(op, turn, ok) =>
      turn < s.turns && (s.lock.Some? ==> turn + 1 < s.turns)
      && if ok then Succeeded(f, s.log, op, turn) else forall k | 0 <= k < |s.log| :: s.log[k].turn != turn
  }

  /** Commits stand in lock order. */
  predicate InLockOrder(s: Sys) {
    (forall j, k | 0 <= j < k < |s.log| :: s.log[j].turn < s.log[k].turn) && Uncommitted(s.log, s.turns)
  }

  /** The file is the sequential list. */
  predicate Refines(f: File, s: Sys) {
    T.EntriesOf(f.codec, Held(s.w, f.at)) == Folded(f, s.log)
  }

  ghost predicate SysInv(f: File, s: Sys) {
    && T.Lawful(f.codec) && !IsStaging(f.at.base) && Inv(s.w)
    && (s.lock.Some? ==> s.lock.value in s.jobs && (s.jobs[s.lock.value].Loading? || s.jobs[s.lock.value].Saving?))
    && (forall t: nat | s.lock != Some(t) :: Harmless(f, PcOf(s.w, t)))
    && (forall t | t in s.jobs :: JobOk(f, s, t, s.jobs[t]))
    && InLockOrder(s) && Refines(f, s)
  }

  // ---- Every move keeps it -----------------------------------------------------------

  /** Only a writer's rename and a removal, each at its own name, change what a
      name holds. */
  lemma HeldKept(w: World, t: nat, c: Filesystem.Call, at: Place)
    requires Allowed(w, Step(t, c))
    ensures var pc := Advance(PcOf(w, t), c);
      Held(After(w, Step(t, c)), at) ==
        if c.Rename? && pc.Swept? && pc.role.Writing? && pc.role.at == at then Some(pc.role.data)
        else if pc.Ended? && pc.outcome.Removed? && pc.role.at == at then None
        else Held(w, at)
  {
  }

  /** Steps of calls that may not change the file do not. */
  lemma HarmlessHolds(f: File, w: World, t: nat, c: Filesystem.Call)
    requires Inv(w) && Allowed(w, Step(t, c)) && Harmless(f, PcOf(w, t))
    ensures Held(After(w, Step(t, c)), f.at) == Held(w, f.at) && Harmless(f, Advance(PcOf(w, t), c))
  {
    HeldKept(w, t, c, f.at);
    HarmlessStays(f, w, t, c);
  }

  lemma HarmlessStays(f: File, w: World, t: nat, c: Filesystem.Call)
    requires Inv(w) && Allowed(w, Step(t, c)) && Harmless(f, PcOf(w, t))
    ensures var pc := Advance(PcOf(w, t), c);
      && Harmless(f, pc)
      && (c.Rename? && pc.Swept? && pc.role.Writing? ==> pc.role.at != f.at)
      && (pc.Ended? && pc.outcome.Removed? ==> pc.role.at != f.at)
  {
    assert ThreadOk(w.fs, w.drawn, SnapOf(w, t), PcOf(w, t));
  }

  lemma CallKeeps(f: File, s: Sys, t: nat, op: Op)
    requires SysInv(f, s) && CanMove(f, s, Call(t, op))
    ensures SysInv(f, Moved(f, s, Call(t, op)))
  {
    var v := Moved(f, s, Call(t, op));
    forall u | u in v.jobs ensures JobOk(f, v, u, v.jobs[u]) {
      if u != t {
        assert JobOk(f, s, u, s.jobs[u]);
      }
    }
  }

  lemma AcquireKeeps(f: File, s: Sys, t: nat)
    requires SysInv(f, s) && CanMove(f, s, Acquire(t))
    ensures SysInv(f, Moved(f, s, Acquire(t)))
  {
    var v := Moved(f, s, Acquire(t));
    EventKeeps(s.w, Begin(t, Reading(f.at)));
    forall u | u in v.jobs ensures JobOk(f, v, u, v.jobs[u]) {
      if u != t {
        assert JobOk(f, s, u, s.jobs[u]);
      }
    }
    forall u: nat | v.lock != Some(u) ensures Harmless(f, PcOf(v.w, u)) {
      assert Harmless(f, PcOf(s.w, u));
    }
  }

  /** What a finished read returned is what the file still holds. */
  lemma SeenIsHeld(f: File, s: Sys, t: nat)
    requires SysInv(f, s) && t in s.jobs && s.jobs[t].Loading? && PcOf(s.w, t).Ended?
    requires Seen(f.codec, PcOf(s.w, t).outcome).Some?
    ensures Seen(f.codec, PcOf(s.w, t).outcome) == T.EntriesOf(f.codec, Held(s.w, f.at))
  {
    assert JobOk(f, s, t, s.jobs[t]);
  }

  lemma EndKeeps(f: File, s: Sys, t: nat, op: Op, turn: nat, ok: bool)
    requires SysInv(f, s) && s.lock == Some(t) && t in s.jobs && turn + 1 == s.turns
    requires if ok then Succeeded(f, s.log, op, turn) else Uncommitted(s.log, turn)
    requires !Active(PcOf(s.w, t))
    ensures SysInv(f, Ends(s, t, op, turn, ok))
  {
    var v := Ends(s, t, op, turn, ok);
    forall u | u in v.jobs ensures JobOk(f, v, u, v.jobs[u]) {
      if u != t {
        assert JobOk(f, s, u, s.jobs[u]);
      }
    }
    forall u: nat | v.lock != Some(u) ensures Harmless(f, PcOf(v.w, u)) {
      assert u == t || Harmless(f, PcOf(s.w, u));
    }
  }

  lemma SaveKeeps(f: File, s: Sys, t: nat, op: Op, bytes: Bytes)
    requires SysInv(f, s) && t in s.jobs && s.jobs[t].Loading? && PcOf(s.w, t).Ended?
    requires T.Image(f.codec, Held(s.w, f.at), op) == Some(bytes)
    ensures var w := After(s.w, Begin(t, Writing(f.at, bytes)));
      SysInv(f, s.(w := w, jobs := s.jobs[t := Saving(op, s.jobs[t].turn)]))
  {
    var v := s.(w := After(s.w, Begin(t, Writing(f.at, bytes))), jobs := s.jobs[t := Saving(op, s.jobs[t].turn)]);
    EventKeeps(s.w, Begin(t, Writing(f.at, bytes)));
    assert JobOk(f, s, t, s.jobs[t]);
    forall u | u in v.jobs ensures JobOk(f, v, u, v.jobs[u]) {
      if u != t {
        assert JobOk(f, s, u, s.jobs[u]);
      }
    }
    forall u: nat | v.lock != Some(u) ensures Harmless(f, PcOf(v.w, u)) {
      assert Harmless(f, PcOf(s.w, u));
    }
  }

  lemma DecideKeeps(f: File, s: Sys, t: nat, op: Op)
    requires SysInv(f, s) && CanMove(f, s, Decide(t, op))
    ensures SysInv(f, Moved(f, s, Decide(t, op)))
  {
    assert JobOk(f, s, t, s.jobs[t]);
    var turn := s.jobs[t].turn;
    var es := Seen(f.codec, PcOf(s.w, t).outcome);
    if es.Some? {
      SeenIsHeld(f, s, t);
      var image := f.codec.encode(T.Apply(op, es.value));
      if !Idles(op, es.value) && image.Some? {
        SaveKeeps(f, s, t, op, image.value);
        return;
      }
      if Idles(op, es.value) {
        T.NothingDropped(es.value, op.nows, op.cutoff);
        assert Earlier(s.log, turn) == s.log;
      }
      EndKeeps(f, s, t, op, turn, Idles(op, es.value));
      return;
    }
    EndKeeps(f, s, t, op, turn, false);
  }

  lemma LeaveKeeps(f: File, s: Sys, t: nat)
    requires SysInv(f, s) && CanMove(f, s, Leave(t))
    ensures SysInv(f, Moved(f, s, Leave(t)))
  {
    assert JobOk(f, s, t, s.jobs[t]);
    EndKeeps(f, s, t, s.jobs[t].op, s.jobs[t].turn, PcOf(s.w, t).outcome.Replaced?);
  }

  /** Later commits take nothing from an earlier success. */
  lemma StillSucceeded(f: File, log: seq<Commit>, more: seq<Commit>, op: Op, turn: nat)
    requires Succeeded(f, log, op, turn) && |more| == |log| + 1 && more[..|log|] == log && turn < more[|log|].turn
    ensures Succeeded(f, more, op, turn)
  {
    if Commit(turn, op) in log {
      var k :| 0 <= k < |log| && log[k] == Commit(turn, op);
      assert more[k] == Commit(turn, op);
    }
  }

  /** Jobs that take no part in a step stand as before. */
  lemma BystanderOk(f: File, s: Sys, v: Sys, u: nat)
    requires u in s.jobs && JobOk(f, s, u, s.jobs[u]) && v.jobs == s.jobs && v.lock == s.lock && v.turns == s.turns
    requires PcOf(v.w, u) == PcOf(s.w, u) && SnapOf(v.w, u) == SnapOf(s.w, u)
    requires s.lock == Some(u) ==> Held(v.w, f.at) == Held(s.w, f.at) && v.log == s.log
    requires v.log == s.log
      || (s.lock.Some? && |v.log| == |s.log| + 1 && v.log[..|s.log|] == s.log && v.log[|s.log|].turn + 1 == s.turns)
    ensures JobOk(f, v, u, v.jobs[u])
  {
    if v.log != s.log {
      assert v.log == s.log + [v.log[|s.log|]];
      if v.jobs[u].Finished? && v.jobs[u].ok {
        StillSucceeded(f, s.log, v.log, v.jobs[u].op, v.jobs[u].turn);
      }
    }
  }

  lemma BeginKeeps(f: File, s: Sys, e: Event)
    requires SysInv(f, s) && CanMove(f, s, Other(e)) && e.Begin?
    ensures SysInv(f, Moved(f, s, Other(e)))
  {
    var v := Moved(f, s, Other(e));
    assert v.log == s.log;
    EventKeeps(s.w, e);
    forall u | u in v.jobs ensures JobOk(f, v, u, v.jobs[u]) {
      assert JobOk(f, s, u, s.jobs[u]);
      if u != e.t {
        BystanderOk(f, s, v, u);
      }
    }
    forall u: nat | v.lock != Some(u) ensures Harmless(f, PcOf(v.w, u)) {
      assert u == e.t || Harmless(f, PcOf(s.w, u));
    }
  }

  lemma ReturnOk(f: File, s: Sys, t: nat)
    requires SysInv(f, s) && t in s.jobs
    ensures JobOk(f, s.(w := After(s.w, Finish(t))), t, s.jobs[t])
  {
    assert JobOk(f, s, t, s.jobs[t]);
    assert ThreadOk(s.w.fs, s.w.drawn, SnapOf(s.w, t), PcOf(s.w, t));
  }

  lemma FinishKeeps(f: File, s: Sys, e: Event)
    requires SysInv(f, s) && CanMove(f, s, Other(e)) && e.Finish?
    ensures SysInv(f, Moved(f, s, Other(e)))
  {
    var v := Moved(f, s, Other(e));
    assert v.log == s.log;
    EventKeeps(s.w, e);
    forall u | u in v.jobs ensures JobOk(f, v, u, v.jobs[u]) {
      if u == e.t {
        ReturnOk(f, s, u);
        assert v == s.(w := v.w);
      } else {
        assert JobOk(f, s, u, s.jobs[u]);
        BystanderOk(f, s, v, u);
      }
    }
    forall u: nat | v.lock != Some(u) ensures Harmless(f, PcOf(v.w, u)) {
      assert Harmless(f, PcOf(s.w, u));
    }
  }

  /** The holder's read, one step on. */
  lemma LoadAdvances(f: File, s: Sys, t: nat, c: Filesystem.Call)
    requires SysInv(f, s) && Allowed(s.w, Step(t, c)) && LoadOk(f, s.w, t)
    ensures LoadOk(f, After(s.w, Step(t, c)), t) && Held(After(s.w, Step(t, c)), f.at) == Held(s.w, f.at)
  {
    HeldKept(s.w, t, c, f.at);
    if c.Missing? {
      NothingHeld(f, s.w, t, c);
    } else if c.Open? {
      OpenShows(s.w, t, c);
      RegisterReads(s.w, f.at);
    } else {
      ReadOn(f, s.w, t, c);
    }
  }

  lemma NothingHeld(f: File, w: World, t: nat, c: Filesystem.Call)
    requires Inv(w) && Allowed(w, Step(t, c)) && LoadOk(f, w, t) && c.Missing? && !IsStaging(f.at.base)
    ensures Held(w, f.at) == None && LoadOk(f, After(w, Step(t, c)), t)
  {
    assert Filesystem.Entry(w.fs, f.at.dir, f.at.base) == None;
  }

  /** A look or a read of some bytes; at the end they are all of them. */
  lemma ReadOn(f: File, w: World, t: nat, c: Filesystem.Call)
    requires Inv(w) && Allowed(w, Step(t, c)) && LoadOk(f, w, t) && !c.Missing? && !c.Open?
    requires Held(After(w, Step(t, c)), f.at) == Held(w, f.at)
    ensures LoadOk(f, After(w, Step(t, c)), t)
  {
    assert ThreadOk(w.fs, w.drawn, SnapOf(w, t), PcOf(w, t));
    if c.Eof? {
      assert PcOf(w, t).buf == Filesystem.DataOf(w.fs, c.ino);
    }
  }

  /** The holder's write, one step on, short of its rename. */
  lemma SaveAdvances(f: File, s: Sys, t: nat, c: Filesystem.Call)
    requires !IsStaging(f.at.base) && Allowed(s.w, Step(t, c)) && t in s.jobs && s.jobs[t].Saving?
    requires JobOk(f, s, t, s.jobs[t]) && !c.Rename?
    ensures var v := Moved(f, s, Other(Step(t, c)));
      JobOk(f, v, t, v.jobs[t]) && v.log == s.log && Held(v.w, f.at) == Held(s.w, f.at)
  {
    assert s.log + [] == s.log;
    HeldKept(s.w, t, c, f.at);
    SaveStays(f, s, Moved(f, s, Other(Step(t, c))), t, c);
  }

  /** Where the file and the log stand as before, the write is still in order. */
  lemma SaveStays(f: File, s: Sys, v: Sys, t: nat, c: Filesystem.Call)
    requires t in s.jobs && s.jobs[t].Saving? && JobOk(f, s, t, s.jobs[t]) && !c.Rename?
    requires v.jobs == s.jobs && v.lock == s.lock && v.turns == s.turns && v.log == s.log
    requires PcOf(v.w, t) == Advance(PcOf(s.w, t), c) && !PcOf(v.w, t).Stuck? && Held(v.w, f.at) == Held(s.w, f.at)
    ensures JobOk(f, v, t, v.jobs[t])
  {
    var pc := PcOf(s.w, t);
    if pc.Started? || pc.Staging? || pc.Sealed? {
      WritesOn(pc, c);
    }
  }

  /** The holder's rename commits its operation: the file is now its image. */
  lemma SaveCommits(f: File, s: Sys, t: nat, c: Filesystem.Call)
    requires !IsStaging(f.at.base) && Allowed(s.w, Step(t, c)) && t in s.jobs && s.jobs[t].Saving?
    requires JobOk(f, s, t, s.jobs[t]) && c.Rename?
    ensures var v := Moved(f, s, Other(Step(t, c)));
      JobOk(f, v, t, v.jobs[t]) && v.log == s.log + [Commit(s.jobs[t].turn, s.jobs[t].op)]
        && Uncommitted(s.log, s.jobs[t].turn)
      && Held(v.w, f.at) == T.Image(f.codec, Held(s.w, f.at), s.jobs[t].op) && Held(v.w, f.at).Some?
  {
    HeldKept(s.w, t, c, f.at);
  }

  lemma CommitRefines(f: File, s: Sys, v: Sys, op: Op, turn: nat)
    requires T.Lawful(f.codec) && Refines(f, s) && InLockOrder(s) && Uncommitted(s.log, turn) && turn < s.turns
    requires v.log == s.log + [Commit(turn, op)] && v.turns == s.turns
    requires Held(v.w, f.at).Some? && Held(v.w, f.at) == T.Image(f.codec, Held(s.w, f.at), op)
    ensures Refines(f, v) && InLockOrder(v)
  {
    assert v.log[..|v.log| - 1] == s.log;
  }

  lemma ActorOk(f: File, s: Sys, t: nat, c: Filesystem.Call)
    requires SysInv(f, s) && CanMove(f, s, Other(Step(t, c)))
    ensures var v := Moved(f, s, Other(Step(t, c)));
      && (t in v.jobs ==> JobOk(f, v, t, v.jobs[t])) && InLockOrder(v) && Refines(f, v)
      && (v.lock != Some(t) ==> Harmless(f, PcOf(v.w, t)) && Held(v.w, f.at) == Held(s.w, f.at) && v.log == s.log)
      && (v.log == s.log
          || (t in s.jobs && s.jobs[t].Saving? && v.log == s.log + [Commit(s.jobs[t].turn, s.jobs[t].op)]))
  {
    var v := Moved(f, s, Other(Step(t, c)));
    assert s.log + [] == s.log;
    if t in s.jobs {
      assert JobOk(f, s, t, s.jobs[t]);
    }
    if t in s.jobs && s.jobs[t].Saving? && c.Rename? {
      SaveCommits(f, s, t, c);
      CommitRefines(f, s, v, s.jobs[t].op, s.jobs[t].turn);
    } else if t in s.jobs && s.jobs[t].Saving? {
      SaveAdvances(f, s, t, c);
    } else if s.lock == Some(t) {
      LoadAdvances(f, s, t, c);
    } else {
      HarmlessHolds(f, s.w, t, c);
    }
  }

  lemma Unseen(w: World, t: nat, c: Filesystem.Call, u: nat)
    requires Allowed(w, Step(t, c)) && u != t
    ensures PcOf(After(w, Step(t, c)), u) == PcOf(w, u) && SnapOf(After(w, Step(t, c)), u) == SnapOf(w, u)
  {
  }

  /** Only the holder's step adds to the log, and it adds its own turn. */
  lemma LogGrows(f: File, s: Sys, t: nat, c: Filesystem.Call)
    requires SysInv(f, s) && CanMove(f, s, Other(Step(t, c)))
    ensures var log := Moved(f, s, Other(Step(t, c))).log;
      log == s.log
        || (s.lock == Some(t) && |log| == |s.log| + 1 && log[..|s.log|] == s.log && log[|s.log|].turn + 1 == s.turns)
  {
    assert s.log + [] == s.log;
    if t in s.jobs {
      assert JobOk(f, s, t, s.jobs[t]);
    }
  }

  lemma OthersOk(f: File, s: Sys, t: nat, c: Filesystem.Call, u: nat)
    requires SysInv(f, s) && CanMove(f, s, Other(Step(t, c))) && u in s.jobs && u != t
    ensures var v := Moved(f, s, Other(Step(t, c))); JobOk(f, v, u, v.jobs[u])
  {
    var v := Moved(f, s, Other(Step(t, c)));
    Unseen(s.w, t, c, u);
    LogGrows(f, s, t, c);
    if s.lock == Some(u) {
      ActorOk(f, s, t, c);
    }
    BystanderOk(f, s, v, u);
  }

  lemma SysStepKeeps(f: File, s: Sys, t: nat, c: Filesystem.Call)
    requires SysInv(f, s) && CanMove(f, s, Other(Step(t, c)))
    ensures SysInv(f, Moved(f, s, Other(Step(t, c))))
  {
    var v := Moved(f, s, Other(Step(t, c)));
    EventKeeps(s.w, Step(t, c));
    ActorOk(f, s, t, c);
    forall u | u in v.jobs ensures JobOk(f, v, u, v.jobs[u]) {
      if u != t {
        OthersOk(f, s, t, c, u);
      }
    }
    forall u: nat | v.lock != Some(u) ensures Harmless(f, PcOf(v.w, u)) {
      assert Harmless(f, PcOf(s.w, u));
      assert u == t || PcOf(v.w, u) == PcOf(s.w, u);
    }
  }

  lemma MoveKeeps(f: File, s: Sys, m: Move)
    requires SysInv(f, s) && CanMove(f, s, m)
    ensures SysInv(f, Moved(f, s, m))
  {
    match m
    case Call(t, op) => CallKeeps(f, s, t, op);
    case Acquire(t) => AcquireKeeps(f, s, t);
    case Decide(t, op) => DecideKeeps(f, s, t, op);
    case Leave(t) => LeaveKeeps(f, s, t);
    case Other(Step(t, c)) => SysStepKeeps(f, s, t, c);
    case Other(Begin(t, role)) => BeginKeeps(f, s, Begin(t, role));
    case Other(Finish(t)) => FinishKeeps(f, s, Finish(t));
  }

  // ---- Whole runs ------------------------------------------------------------------

  predicate Starts(f: File, s: Sys) {
    s.jobs == map[] && s.w.threads == map[] && s.lock.None? && s.turns == 0 && s.log == []
      && Held(s.w, f.at) == f.initial
  }

  function Ran(f: File, s: Sys, ms: seq<Move>): Option<Sys>
    requires !IsStaging(f.at.base)
  {
    if ms == [] then Some(s)
    else match Ran(f, s, ms[..|ms| - 1])
         case None => None
         case Some(v) => if CanMove(f, v, ms[|ms| - 1]) then Some(Moved(f, v, ms[|ms| - 1])) else None
  }

  lemma {:induction false} RanKeeps(f: File, s: Sys, ms: seq<Move>)
    requires SysInv(f, s) && Ran(f, s, ms).Some?
    ensures SysInv(f, Ran(f, s, ms).value)
  {
    if ms != [] {
      RanKeeps(f, s, ms[..|ms| - 1]);
      MoveKeeps(f, Ran(f, s, ms[..|ms| - 1]).value, ms[|ms| - 1]);
    }
  }

  /** Linearizability.  At every point of every run, mid-write included, the file
      decodes to the fold of the committed operations in lock order; a call that
      succeeded is committed under its turn, or is a cleanup that found nothing
      stale after the turns before it; one that failed is not committed. */
  lemma LedgerLinearizable(f: File, s: Sys, ms: seq<Move>)
    requires T.Lawful(f.codec) && !IsStaging(f.at.base) && Inv(s.w) && Starts(f, s) && Ran(f, s, ms).Some?
    ensures var v := Ran(f, s, ms).value;
      && T.EntriesOf(f.codec, FileAt(v.w.fs, f.at)) == Folded(f, v.log)
      && InLockOrder(v)
      && forall t | t in v.jobs && v.jobs[t].Finished? ::
           if v.jobs[t].ok then Succeeded(f, v.log, v.jobs[t].op, v.jobs[t].turn)
           else forall k | 0 <= k < |v.log| :: v.log[k].turn != v.jobs[t].turn
  {
    assert SysInv(f, s);
    RanKeeps(f, s, ms);
    var v := Ran(f, s, ms).value;
    RegisterReads(v.w, f.at);
    forall t | t in v.jobs && v.jobs[t].Finished? ensures JobOk(f, v, t, v.jobs[t]) {
    }
  }
}
