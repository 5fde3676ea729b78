/** Any number of WriteSecureAt, ReadSecureAt and RemoveSecureAt calls, their
    system calls interleaved in any order, against an atomic register per name. */
module Interleaving {
  import opened Basics
  import opened Filesystem
  import opened Protocol

  /** The file system and every call in progress, next to what an atomic
      register for each name would hold and what each reader's open found in it. */
  datatype World = World(
    fs: Fs,
    threads: map<nat, Pc>,
    drawn: set<string>,
    reg: map<Place, Bytes>,
    snaps: map<nat, Bytes>)

  datatype Event =
    | Begin(t: nat, role: Role)   // a call holds its parent directory
    | Step(t: nat, c: Call)       // one system call of it
    | Finish(t: nat)              // it returns

  function PcOf(w: World, t: nat): Pc {
    if t in w.threads then w.threads[t] else Idle
  }

  function SnapOf(w: World, t: nat): Option<Bytes> {
    if t in w.snaps then Some(w.snaps[t]) else None
  }

  /** Random staging names never repeat, and no caller asks for one. */
  predicate Allowed(w: World, e: Event) {
    match e
    case Begin(t, role) => !IsStaging(role.at.base) && (PcOf(w, t).Idle? || PcOf(w, t).Ended?)
    case Step(t, c) => Enabled(w.fs, c) && !Advance(PcOf(w, t), c).Stuck? && (c.Create? ==> c.name !in w.drawn)
    case Finish(t) => true
  }

  /** The register changes at a rename and at a removal, all at once. */
  function RegAfter(w: World, pc: Pc, c: Call): map<Place, Bytes> {
    if c.Rename? && pc.Swept? && pc.role.Writing? then w.reg[pc.role.at := pc.role.data]
    else if pc.Ended? && pc.outcome.Removed? then w.reg - {pc.role.at}
    else w.reg
  }

  function SnapsAfter(w: World, t: nat, pc: Pc, c: Call): map<nat, Bytes> {
    if c.Open? && pc.Loading? && pc.role.at in w.reg then w.snaps[t := w.reg[pc.role.at]] else w.snaps
  }

  function After(w: World, e: Event): World
    requires Allowed(w, e)
  {
    match e
    case Begin(t, role) => w.(threads := w.threads[t := Started(role)])
    case Step(t, c) =>
      var pc := Advance(PcOf(w, t), c);
      var drawn := if c.Create? then w.drawn + {c.name} else w.drawn;
      World(Apply(w.fs, c), w.threads[t := pc], drawn, RegAfter(w, pc, c), SnapsAfter(w, t, pc, c))
    case Finish(t) => w.(threads := w.threads[t := Return(PcOf(w, t))])
  }

  // ---- The invariant -----------------------------------------------------------

  /** A writer's staging file: its bytes are the part written so far, and its
      staging name is the only way to reach it. */
  ghost predicate Owns(fs: Fs, d: nat, n: string, i: nat, written: Bytes) {
    && IsStaging(n) && IsFile(fs, i) && DataOf(fs, i) == written && Entry(fs, d, n) == Some(i)
    && forall d', n' | Entry(fs, d', n') == Some(i) :: d' == d && n' == n
  }

  predicate NoSymlink(fs: Fs, at: Place) {
    var e := Entry(fs, at.dir, at.base);
    e.Some? && e.value in fs.nodes ==> !fs.nodes[e.value].node.Symlink?
  }

  ghost predicate ThreadOk(fs: Fs, drawn: set<string>, snap: Option<Bytes>, pc: Pc) {
    match pc
    case Idle => true
    case Started(role) => !IsStaging(role.at.base)
    case Sighted(role, i) => !IsStaging(role.at.base) && IsFile(fs, i) && NoSymlink(fs, role.at)
    case Loading(role, i, buf) =>
      role.Reading? && !IsStaging(role.at.base) && IsFile(fs, i) && snap == Some(DataOf(fs, i)) && buf <= DataOf(fs, i)
    case Staging(role, t, i, w) =>
      role.Writing? && !IsStaging(role.at.base) && t in drawn && Owns(fs, role.at.dir, t, i, w)
    case Sealed(role, t, i) =>
      role.Writing? && !IsStaging(role.at.base) && t in drawn && Owns(fs, role.at.dir, t, i, role.data)
    case Swept(role, t) => role.Writing? && IsStaging(t) && t in drawn
    case Ended(role, out) => out.Got? ==> role.Reading? && snap == Some(out.data)
    case Stuck => false
  }

  predicate HasFile(pc: Pc) { pc.Staging? || pc.Sealed? }

  predicate HasName(pc: Pc) { HasFile(pc) || pc.Swept? }

  predicate UsesFile(pc: Pc) { pc.Sighted? || pc.Loading? }

  /** Two calls never stage under one name, and nobody reads a file in staging. */
  predicate Apart(a: Pc, b: Pc) {
    && (HasName(a) && HasName(b) ==> a.temp != b.temp)
    && (HasFile(a) && HasFile(b) ==> a.ino != b.ino)
    && (HasFile(a) && UsesFile(b) ==> a.ino != b.ino)
    && (UsesFile(a) && HasFile(b) ==> a.ino != b.ino)
  }

  /** The file system agrees with the register on every name callers use. */
  ghost predicate RegMatches(fs: Fs, reg: map<Place, Bytes>) {
    forall d, n | !IsStaging(n) ::
      if Entry(fs, d, n).Some? && IsFile(fs, Entry(fs, d, n).value)
      then Place(d, n) in reg && reg[Place(d, n)] == DataOf(fs, Entry(fs, d, n).value)
      else Place(d, n) !in reg
  }

  ghost predicate Inv(w: World) {
    && Closed(w.fs)
    && (forall t :: ThreadOk(w.fs, w.drawn, SnapOf(w, t), PcOf(w, t)))
    && (forall t, u | t != u :: Apart(PcOf(w, t), PcOf(w, u)))
    && RegMatches(w.fs, w.reg)
  }

  // ---- What each call does to entries and contents -------------------------------

  /** Every file but one keeps its bytes, and every inode its kind. */
  ghost predicate SameFiles(a: Fs, b: Fs, but: Option<nat>) {
    && KindsKept(a, b)
    && forall i: nat | IsFile(a, i) && but != Some(i) :: IsFile(b, i) && DataOf(b, i) == DataOf(a, i)
  }

  lemma FilesKept(fs: Fs, c: Call)
    requires Closed(fs) && Enabled(fs, c)
    ensures SameFiles(fs, Apply(fs, c), if c.Write? then Some(c.ino) else None)
  {
    ApplyKeeps(fs, c);
  }

  /** The only entry a call can change. */
  function Touched(c: Call): Option<Place> {
    match c
    case Mkdir(d, n, _, _) => Some(Place(d, n))
    case Create(d, n, _, _) => Some(Place(d, n))
    case Unlink(d, n) => Some(Place(d, n))
    case _ => None
  }

  lemma EntriesKept(fs: Fs, c: Call)
    requires Closed(fs) && Enabled(fs, c) && !c.Rename?
    ensures forall d, n | Touched(c) != Some(Place(d, n)) :: Entry(Apply(fs, c), d, n) == Entry(fs, d, n)
  {
  }

  lemma EntriesRenamed(fs: Fs, c: Call)
    requires Closed(fs) && Enabled(fs, c) && c.Rename?
    ensures forall d, n | d != c.dir || (n != c.from && n != c.to) :: Entry(Apply(fs, c), d, n) == Entry(fs, d, n)
    ensures Entry(Apply(fs, c), c.dir, c.from) == None
    ensures Entry(Apply(fs, c), c.dir, c.to) == Entry(fs, c.dir, c.from)
  {
  }

  // ---- One step keeps the invariant ------------------------------------------------

  lemma RenameKeepsNoSymlink(fs: Fs, c: Call, drawn: set<string>, a: Pc, snapA: Option<Bytes>, at: Place)
    requires Closed(fs) && Enabled(fs, c) && !Advance(a, c).Stuck? && c.Rename?
    requires ThreadOk(fs, drawn, snapA, a) && NoSymlink(fs, at)
    ensures NoSymlink(Apply(fs, c), at)
  {
    EntriesRenamed(fs, c);
    FilesKept(fs, c);
  }

  lemma CallKeepsNoSymlink(fs: Fs, c: Call, at: Place)
    requires Closed(fs) && Enabled(fs, c) && !c.Rename? && NoSymlink(fs, at)
    ensures NoSymlink(Apply(fs, c), at)
  {
    EntriesKept(fs, c);
    FilesKept(fs, c);
  }

  lemma ReaderSurvives(fs: Fs, c: Call, drawn: set<string>, a: Pc, snapA: Option<Bytes>, b: Pc, snapB: Option<Bytes>)
    requires Closed(fs) && Enabled(fs, c) && !Advance(a, c).Stuck?
    requires ThreadOk(fs, drawn, snapA, a) && ThreadOk(fs, drawn, snapB, b) && Apart(a, b) && UsesFile(b)
    ensures ThreadOk(Apply(fs, c), drawn, snapB, b)
  {
    FilesKept(fs, c);
    if b.Sighted? {
      if c.Rename? {
        RenameKeepsNoSymlink(fs, c, drawn, a, snapA, b.role.at);
      } else {
        CallKeepsNoSymlink(fs, c, b.role.at);
      }
    }
  }

  lemma OwnsThroughRename(fs: Fs, c: Call, d: nat, n: string, i: nat, written: Bytes)
    requires Closed(fs) && Enabled(fs, c) && c.Rename? && Owns(fs, d, n, i, written)
    requires Place(c.dir, c.from) != Place(d, n) && Place(c.dir, c.to) != Place(d, n)
    ensures Owns(Apply(fs, c), d, n, i, written)
  {
    FilesKept(fs, c);
    EntriesRenamed(fs, c);
  }

  lemma OwnerSurvivesRename(fs: Fs, c: Call, drawn: set<string>, a: Pc, snapA: Option<Bytes>, b: Pc,
                            snapB: Option<Bytes>)
    requires Closed(fs) && Enabled(fs, c) && !Advance(a, c).Stuck? && c.Rename?
    requires ThreadOk(fs, drawn, snapA, a) && ThreadOk(fs, drawn, snapB, b) && Apart(a, b) && HasFile(b)
    ensures ThreadOk(Apply(fs, c), drawn, snapB, b)
  {
    assert c.from == a.temp && !IsStaging(c.to);
    OwnsThroughRename(fs, c, b.role.at.dir, b.temp, b.ino, DataOf(fs, b.ino));
  }

  lemma OwnerSurvives(fs: Fs, c: Call, drawn: set<string>, a: Pc, snapA: Option<Bytes>, b: Pc, snapB: Option<Bytes>)
    requires Closed(fs) && Enabled(fs, c) && !Advance(a, c).Stuck? && !c.Rename?
    requires ThreadOk(fs, drawn, snapA, a) && ThreadOk(fs, drawn, snapB, b) && Apart(a, b) && HasFile(b)
    ensures ThreadOk(Apply(fs, c), drawn, snapB, b)
  {
    NotTouched(fs, c, drawn, a, snapA, b);
    OwnsKept(fs, c, b.role.at.dir, b.temp, b.ino, DataOf(fs, b.ino));
  }

  lemma NotTouched(fs: Fs, c: Call, drawn: set<string>, a: Pc, snapA: Option<Bytes>, b: Pc)
    requires Enabled(fs, c) && !Advance(a, c).Stuck? && !c.Rename? && ThreadOk(fs, drawn, snapA, a) && Apart(a, b)
    requires HasFile(b)
    requires Entry(fs, b.role.at.dir, b.temp).Some? && IsStaging(b.temp)
    ensures Touched(c) != Some(Place(b.role.at.dir, b.temp)) && (c.Write? ==> c.ino != b.ino)
  {
    assert c.Write? ==> a.Staging? && c.ino == a.ino;
    assert c.Unlink? ==> c.name == (if HasName(a) then a.temp else a.role.at.base);
  }

  lemma OwnsKept(fs: Fs, c: Call, d: nat, n: string, i: nat, written: Bytes)
    requires Closed(fs) && Enabled(fs, c) && !c.Rename? && Owns(fs, d, n, i, written)
    requires Touched(c) != Some(Place(d, n)) && (c.Write? ==> c.ino != i)
    ensures Owns(Apply(fs, c), d, n, i, written)
  {
    FilesKept(fs, c);
    EntriesKept(fs, c);
  }

  lemma BystanderSurvives(fs: Fs, c: Call, drawn: set<string>, drawn': set<string>, a: Pc, snapA: Option<Bytes>, b: Pc,
                          snapB: Option<Bytes>)
    requires Closed(fs) && Enabled(fs, c) && !Advance(a, c).Stuck? && drawn <= drawn'
    requires ThreadOk(fs, drawn, snapA, a) && ThreadOk(fs, drawn, snapB, b) && Apart(a, b)
    ensures ThreadOk(Apply(fs, c), drawn', snapB, b)
  {
    if UsesFile(b) {
      ReaderSurvives(fs, c, drawn, a, snapA, b, snapB);
    } else if HasFile(b) && c.Rename? {
      OwnerSurvivesRename(fs, c, drawn, a, snapA, b, snapB);
    } else if HasFile(b) {
      OwnerSurvives(fs, c, drawn, a, snapA, b, snapB);
    }
  }

  /** A rename of a staged file onto a name is a write of the register. */
  lemma RenameMatches(fs: Fs, c: Call, reg: map<Place, Bytes>, data: Bytes)
    requires Closed(fs) && Enabled(fs, c) && c.Rename? && RegMatches(fs, reg) && IsStaging(c.from) && !IsStaging(c.to)
    requires var i := Entry(fs, c.dir, c.from).value; IsFile(fs, i) && DataOf(fs, i) == data
    ensures RegMatches(Apply(fs, c), reg[Place(c.dir, c.to) := data])
  {
    FilesKept(fs, c);
    EntriesRenamed(fs, c);
    forall d, n | !IsStaging(n) && Place(d, n) != Place(c.dir, c.to)
      ensures Entry(Apply(fs, c), d, n) == Entry(fs, d, n)
    {
    }
  }

  lemma RegisterRenames(w: World, t: nat, c: Call)
    requires Inv(w) && Allowed(w, Step(t, c)) && c.Rename?
    ensures RegMatches(Apply(w.fs, c), RegAfter(w, Advance(PcOf(w, t), c), c))
  {
    var pc := PcOf(w, t);
    assert ThreadOk(w.fs, w.drawn, SnapOf(w, t), pc) && pc.Sealed?;
    RenameMatches(w.fs, c, w.reg, pc.role.data);
  }

  lemma RegisterWrites(w: World, t: nat, c: Call)
    requires Inv(w) && Allowed(w, Step(t, c)) && c.Write?
    ensures RegMatches(Apply(w.fs, c), w.reg)
  {
    FilesKept(w.fs, c);
    EntriesKept(w.fs, c);
    var pc := PcOf(w, t);
    assert ThreadOk(w.fs, w.drawn, SnapOf(w, t), pc) && pc.Staging?;
    forall d, n | !IsStaging(n)
      ensures Entry(w.fs, d, n) != Some(c.ino)
    {
    }
  }

  /** An unlink empties its name in the register; of a staging name, nothing. */
  lemma UnlinkMatches(fs: Fs, c: Call, reg: map<Place, Bytes>)
    requires Closed(fs) && Enabled(fs, c) && c.Unlink? && RegMatches(fs, reg)
    ensures RegMatches(Apply(fs, c), if IsStaging(c.name) then reg else reg - {Place(c.dir, c.name)})
  {
    FilesKept(fs, c);
    EntriesKept(fs, c);
  }

  lemma RegisterUnlinks(w: World, t: nat, c: Call)
    requires Inv(w) && Allowed(w, Step(t, c)) && c.Unlink?
    ensures RegMatches(Apply(w.fs, c), RegAfter(w, Advance(PcOf(w, t), c), c))
  {
    var pc := PcOf(w, t);
    assert ThreadOk(w.fs, w.drawn, SnapOf(w, t), pc);
    assert if pc.Sighted? then c == Unlink(pc.role.at.dir, pc.role.at.base) && !IsStaging(c.name)
      else IsStaging(c.name);
    assert pc.Sighted? ==> pc.role.at == Place(c.dir, c.name);
    UnlinkMatches(w.fs, c, w.reg);
  }

  lemma RegisterMakes(w: World, t: nat, c: Call)
    requires Inv(w) && Allowed(w, Step(t, c)) && (c.Mkdir? || c.Create?)
    ensures RegMatches(Apply(w.fs, c), w.reg)
  {
    assert c.Create? ==> IsStaging(c.name);
    MakingMatches(w.fs, c, w.reg);
  }

  /** A new directory or staging file is nothing to the register. */
  lemma MakingMatches(fs: Fs, c: Call, reg: map<Place, Bytes>)
    requires Closed(fs) && Enabled(fs, c) && RegMatches(fs, reg) && (c.Mkdir? || (c.Create? && IsStaging(c.name)))
    ensures RegMatches(Apply(fs, c), reg)
  {
    FilesKept(fs, c);
    EntriesKept(fs, c);
    assert c.Mkdir? ==> IsDir(Apply(fs, c), c.ino);
  }

  lemma RegisterStays(fs: Fs, c: Call, reg: map<Place, Bytes>)
    requires Closed(fs) && RegMatches(fs, reg) && Enabled(fs, c) && Touched(c).None? && !c.Rename? && !c.Write?
    ensures RegMatches(Apply(fs, c), reg)
  {
    FilesKept(fs, c);
    EntriesKept(fs, c);
  }

  lemma RegisterUntouched(w: World, t: nat, c: Call)
    requires Allowed(w, Step(t, c)) && !c.Rename? && !c.Unlink?
    ensures RegAfter(w, Advance(PcOf(w, t), c), c) == w.reg
  {
  }

  lemma RegisterSteps(w: World, t: nat, c: Call)
    requires Inv(w) && Allowed(w, Step(t, c))
    ensures RegMatches(Apply(w.fs, c), RegAfter(w, Advance(PcOf(w, t), c), c))
  {
    if c.Rename? {
      RegisterRenames(w, t, c);
      return;
    } else if c.Unlink? {
      RegisterUnlinks(w, t, c);
      return;
    }
    RegisterUntouched(w, t, c);
    if c.Write? {
      RegisterWrites(w, t, c);
    } else if Touched(c).Some? {
      RegisterMakes(w, t, c);
    } else {
      RegisterStays(w.fs, c, w.reg);
    }
  }

  lemma StarterSurvives(w: World, t: nat, c: Call)
    requires Inv(w) && Allowed(w, Step(t, c)) && (PcOf(w, t).Idle? || PcOf(w, t).Started?)
    ensures var v := After(w, Step(t, c)); ThreadOk(v.fs, v.drawn, SnapOf(v, t), PcOf(v, t))
  {
    FilesKept(w.fs, c);
    EntriesKept(w.fs, c);
    assert ThreadOk(w.fs, w.drawn, SnapOf(w, t), PcOf(w, t));
  }

  lemma ReaderAdvances(w: World, t: nat, c: Call)
    requires Inv(w) && Allowed(w, Step(t, c)) && UsesFile(PcOf(w, t))
    ensures var v := After(w, Step(t, c)); ThreadOk(v.fs, v.drawn, SnapOf(v, t), PcOf(v, t))
  {
    var pc := PcOf(w, t);
    assert ThreadOk(w.fs, w.drawn, SnapOf(w, t), pc);
    if c.Eof? {
      assert pc.buf == DataOf(w.fs, c.ino);
    } else if c.Open? && c.ino == pc.ino {
      assert Place(c.dir, c.name) in w.reg && w.reg[Place(c.dir, c.name)] == DataOf(w.fs, c.ino);
    }
  }

  lemma WriterAdvances(w: World, t: nat, c: Call)
    requires Inv(w) && Allowed(w, Step(t, c)) && HasName(PcOf(w, t))
    ensures var v := After(w, Step(t, c)); ThreadOk(v.fs, v.drawn, SnapOf(v, t), PcOf(v, t))
  {
    var pc := PcOf(w, t);
    assert ThreadOk(w.fs, w.drawn, SnapOf(w, t), pc);
    if c.Write? {
      OwnsWritten(w.fs, c, pc.role.at.dir, pc.temp, pc.written);
    } else if c.Chmod? {
      OwnsKept(w.fs, c, pc.role.at.dir, pc.temp, pc.ino, pc.written);
    }
  }

  lemma OwnsWritten(fs: Fs, c: Call, d: nat, n: string, written: Bytes)
    requires Closed(fs) && Enabled(fs, c) && c.Write? && c.offset == |written| && Owns(fs, d, n, c.ino, written)
    ensures Owns(Apply(fs, c), d, n, c.ino, written + c.chunk)
  {
    EntriesKept(fs, c);
  }

  /** The call that takes the step stands as its new program counter says. */
  lemma ActorSurvives(w: World, t: nat, c: Call)
    requires Inv(w) && Allowed(w, Step(t, c))
    ensures var v := After(w, Step(t, c)); ThreadOk(v.fs, v.drawn, SnapOf(v, t), PcOf(v, t))
  {
    var pc := PcOf(w, t);
    if UsesFile(pc) {
      ReaderAdvances(w, t, c);
    } else if HasName(pc) {
      WriterAdvances(w, t, c);
    } else {
      StarterSurvives(w, t, c);
    }
  }

  /** A step brings no two calls to one staging name or one staging file. */
  lemma ActorApart(w: World, t: nat, c: Call, u: nat)
    requires Inv(w) && Allowed(w, Step(t, c)) && t != u
    ensures Apart(Advance(PcOf(w, t), c), PcOf(w, u)) && Apart(PcOf(w, u), Advance(PcOf(w, t), c))
  {
    assert Apart(PcOf(w, t), PcOf(w, u));
    assert ThreadOk(w.fs, w.drawn, SnapOf(w, t), PcOf(w, t));
    assert ThreadOk(w.fs, w.drawn, SnapOf(w, u), PcOf(w, u));
    if c.Create? {
      CreatorApart(w.fs, w.drawn, PcOf(w, t), c, SnapOf(w, u), PcOf(w, u));
    } else {
      OtherApart(w.fs, w.drawn, PcOf(w, t), c, SnapOf(w, u), PcOf(w, u));
    }
  }

  lemma CreatorApart(fs: Fs, drawn: set<string>, a: Pc, c: Call, snap: Option<Bytes>, b: Pc)
    requires Enabled(fs, c) && !Advance(a, c).Stuck? && c.Create? && c.name !in drawn && ThreadOk(fs, drawn, snap, b)
    ensures Apart(Advance(a, c), b) && Apart(b, Advance(a, c))
  {
  }

  lemma OtherApart(fs: Fs, drawn: set<string>, a: Pc, c: Call, snap: Option<Bytes>, b: Pc)
    requires Enabled(fs, c) && !Advance(a, c).Stuck? && !c.Create? && Apart(a, b) && ThreadOk(fs, drawn, snap, b)
    requires a.Started? || UsesFile(a) ==> !IsStaging(a.role.at.base)
    ensures Apart(Advance(a, c), b) && Apart(b, Advance(a, c))
  {
  }

  lemma StepKeeps(w: World, t: nat, c: Call)
    requires Inv(w) && Allowed(w, Step(t, c))
    ensures Inv(After(w, Step(t, c)))
  {
    var v := After(w, Step(t, c));
    ApplyKeeps(w.fs, c);
    RegisterSteps(w, t, c);
    forall u ensures ThreadOk(v.fs, v.drawn, SnapOf(v, u), PcOf(v, u)) {
      if u == t {
        ActorSurvives(w, t, c);
      } else {
        BystanderSurvives(w.fs, c, w.drawn, v.drawn, PcOf(w, t), SnapOf(w, t), PcOf(w, u), SnapOf(w, u));
      }
    }
    forall u, u' | u != u' ensures Apart(PcOf(v, u), PcOf(v, u')) {
      if u == t {
        ActorApart(w, t, c, u');
      } else if u' == t {
        ActorApart(w, t, c, u);
      } else {
        assert Apart(PcOf(w, u), PcOf(w, u'));
      }
    }
  }

  /** Every event keeps the invariant. */
  lemma EventKeeps(w: World, e: Event)
    requires Inv(w) && Allowed(w, e)
    ensures Inv(After(w, e))
  {
    if e.Step? {
      StepKeeps(w, e.t, e.c);
    } else {
      var v := After(w, e);
      forall u ensures ThreadOk(v.fs, v.drawn, SnapOf(v, u), PcOf(v, u)) {
        assert ThreadOk(w.fs, w.drawn, SnapOf(w, u), PcOf(w, u));
      }
      forall u, u' | u != u' ensures Apart(PcOf(v, u), PcOf(v, u')) {
        assert Apart(PcOf(w, u), PcOf(w, u'));
      }
    }
  }

  // ---- Whole runs ------------------------------------------------------------------

  /** The world after a run, or None when some event was not possible. */
  function Run(w: World, es: seq<Event>): Option<World> {
    if es == [] then Some(w)
    else match Run(w, es[..|es| - 1])
         case None => None
         case Some(v) => if Allowed(v, es[|es| - 1]) then Some(After(v, es[|es| - 1])) else None
  }

  lemma {:induction false} RunKeeps(w: World, es: seq<Event>)
    requires Inv(w) && Run(w, es).Some?
    ensures Inv(Run(w, es).value)
  {
    if es != [] {
      RunKeeps(w, es[..|es| - 1]);
      EventKeeps(Run(w, es[..|es| - 1]).value, es[|es| - 1]);
    }
  }

  lemma {:induction false} RunSplits(w: World, es: seq<Event>, fs: seq<Event>)
    requires Run(w, es + fs).Some?
    ensures Run(w, es).Some? && Run(Run(w, es).value, fs) == Run(w, es + fs)
  {
    if fs == [] {
      assert es + fs == es;
    } else {
      assert (es + fs)[..|es + fs| - 1] == es + fs[..|fs| - 1];
      RunSplits(w, es, fs[..|fs| - 1]);
    }
  }

  /** What the register holds at a name. */
  function Held(w: World, at: Place): Option<Bytes> {
    if at in w.reg then Some(w.reg[at]) else None
  }

  lemma RenameSets(w: World, t: nat, c: Call, at: Place)
    requires Inv(w) && Allowed(w, Step(t, c)) && c.Rename?
    ensures PcOf(w, t).Sealed? && PcOf(w, t).role.Writing?
    ensures var pc := PcOf(w, t);
      Held(After(w, Step(t, c)), at) == if pc.role.at == at then Some(pc.role.data) else Held(w, at)
  {
    assert ThreadOk(w.fs, w.drawn, SnapOf(w, t), PcOf(w, t));
  }

  lemma UnlinkClears(w: World, t: nat, c: Call, at: Place)
    requires Inv(w) && Allowed(w, Step(t, c)) && c.Unlink?
    ensures var pc := PcOf(w, t); var mine := pc.Sighted? && pc.role == Removing(at);
      && Held(After(w, Step(t, c)), at) == (if mine then None else Held(w, at))
      && (mine ==> c == Unlink(at.dir, at.base))
  {
    assert ThreadOk(w.fs, w.drawn, SnapOf(w, t), PcOf(w, t));
  }

  /** No step of any call shows anything but the old content of a name, the
      whole of a writer's data, or, at a removal, nothing. */
  lemma StepsAreAtomic(w: World, t: nat, c: Call, at: Place)
    requires Inv(w) && Allowed(w, Step(t, c)) && !IsStaging(at.base)
    ensures var pc := PcOf(w, t);
      var now := FileAt(After(w, Step(t, c)).fs, at);
      || now == FileAt(w.fs, at)
      || (pc.Sealed? && c.Rename? && pc.role.at == at && pc.role.Writing? && now == Some(pc.role.data))
      || (pc.Sighted? && pc.role == Removing(at) && c == Unlink(at.dir, at.base) && now == None)
  {
    StepKeeps(w, t, c);
    RegisterReads(w, at);
    RegisterReads(After(w, Step(t, c)), at);
    if c.Rename? {
      RenameSets(w, t, c, at);
    } else if c.Unlink? {
      UnlinkClears(w, t, c, at);
    } else {
      RegisterUntouched(w, t, c);
    }
  }

  /** The register holds what the name shows, on every reachable world. */
  lemma RegisterReads(w: World, at: Place)
    requires Inv(w) && !IsStaging(at.base)
    ensures FileAt(w.fs, at) == if at in w.reg then Some(w.reg[at]) else None
  {
    assert Place(at.dir, at.base) == at;
    assert Entry(w.fs, at.dir, at.base) == Entry(w.fs, at.dir, at.base);
  }

  predicate BeginsAgain(es: seq<Event>, t: nat) {
    exists k | 0 <= k < |es| :: es[k].Begin? && es[k].t == t
  }

  /** Until its next call begins, a reader's snapshot stays what its open found. */
  lemma {:induction false} SnapshotStays(w: World, es: seq<Event>, t: nat)
    requires Run(w, es).Some? && !BeginsAgain(es, t) && (PcOf(w, t).Loading? || PcOf(w, t).Ended?)
    ensures var v := Run(w, es).value; SnapOf(v, t) == SnapOf(w, t) && (PcOf(v, t).Loading? || PcOf(v, t).Ended?)
    ensures PcOf(w, t).Ended? ==> PcOf(Run(w, es).value, t) == PcOf(w, t)
  {
    if es != [] {
      assert !BeginsAgain(es[..|es| - 1], t) by {
        assert forall k | 0 <= k < |es| - 1 :: es[..|es| - 1][k] == es[k];
      }
      SnapshotStays(w, es[..|es| - 1], t);
    }
  }

  /** A successful read returns exactly what its name held at its open step. */
  lemma ReadIsOpenTimeValue(w: World, before: seq<Event>, t: nat, c: Call, rest: seq<Event>)
    requires Inv(w) && c.Open? && Run(w, before + [Step(t, c)] + rest).Some? && !BeginsAgain(rest, t)
    requires var pc := PcOf(Run(w, before + [Step(t, c)] + rest).value, t); pc.Ended? && pc.outcome.Got?
    ensures Run(w, before).Some?
    ensures var pc := PcOf(Run(w, before + [Step(t, c)] + rest).value, t);
      FileAt(Run(w, before).value.fs, Place(c.dir, c.name)) == Some(pc.outcome.data)
  {
    var full := before + [Step(t, c)] + rest;
    RunSplits(w, before + [Step(t, c)], rest);
    RunSplits(w, before, [Step(t, c)]);
    var u := Run(w, before).value;
    var opn := Run(w, before + [Step(t, c)]).value;
    var last := Run(w, full).value;
    RunKeeps(w, before);
    RunKeeps(w, full);
    assert (before + [Step(t, c)])[..|before + [Step(t, c)]| - 1] == before;
    assert opn == After(u, Step(t, c));
    OpenShows(u, t, c);
    SnapshotStays(opn, rest, t);
    assert ThreadOk(last.fs, last.drawn, SnapOf(last, t), PcOf(last, t));
  }

  /** What an open finds is what its name shows. */
  lemma OpenShows(u: World, t: nat, c: Call)
    requires Inv(u) && Allowed(u, Step(t, c)) && c.Open?
    ensures var v := After(u, Step(t, c));
      (PcOf(v, t).Loading? && SnapOf(v, t) == FileAt(u.fs, Place(c.dir, c.name)))
        || (PcOf(v, t).Ended? && PcOf(v, t).outcome.Failed?)
  {
    assert ThreadOk(u.fs, u.drawn, SnapOf(u, t), PcOf(u, t));
    if Advance(PcOf(u, t), c).Loading? {
      OpenedIsKnown(u, t, c);
      RegisterReads(u, Place(c.dir, c.name));
    }
  }

  /** What a call in this state goes by came from an open of its own name. */
  predicate OpenedAt(es: seq<Event>, k: nat, t: nat, pc: Pc) {
    && k < |es| && es[k].Step? && es[k].t == t && es[k].c.Open? && HasRole(pc)
    && Place(es[k].c.dir, es[k].c.name) == pc.role.at
    && !BeginsAgain(es[k + 1..], t)
  }

  lemma OpenedStays(es: seq<Event>, k: nat, t: nat, pc: Pc, e: Event, next: Pc)
    requires OpenedAt(es, k, t, pc) && !(e.Begin? && e.t == t) && HasRole(next) && next.role == pc.role
    ensures OpenedAt(es + [e], k, t, next)
  {
    assert (es + [e])[k + 1..] == es[k + 1..] + [e];
  }

  lemma OpenStep(v: World, e: Event, t: nat)
    requires Inv(v) && Allowed(v, e) && Shows(PcOf(After(v, e), t)) && !Shows(PcOf(v, t))
    ensures e.Step? && e.t == t && e.c.Open? && Place(e.c.dir, e.c.name) == PcOf(After(v, e), t).role.at
  {
    assert ThreadOk(v.fs, v.drawn, SnapOf(v, t), PcOf(v, t));
  }

  /** Every read that shows something, finished or not, opened its name. */
  lemma {:induction false} ShownWasOpened(w: World, es: seq<Event>, t: nat) returns (k: nat)
    requires Inv(w) && w.threads == map[] && Run(w, es).Some? && Shows(PcOf(Run(w, es).value, t))
    ensures OpenedAt(es, k, t, PcOf(Run(w, es).value, t))
  {
    var front, e := es[..|es| - 1], es[|es| - 1];
    var v := Run(w, front).value;
    RunKeeps(w, front);
    assert front + [e] == es;
    if Shows(PcOf(v, t)) {
      k := ShownWasOpened(w, front, t);
      RoleKept(v, e, t);
      OpenedStays(front, k, t, PcOf(v, t), e, PcOf(After(v, e), t));
    } else {
      OpenStep(v, e, t);
      k := |front|;
      assert es[k + 1..] == [];
    }
  }

  /** Every successful read has an open step, and returns exactly what its name
      held there. */
  lemma ReadWasOpened(w: World, es: seq<Event>, t: nat) returns (k: nat)
    requires Inv(w) && w.threads == map[] && Run(w, es).Some?
    requires var pc := PcOf(Run(w, es).value, t); pc.Ended? && pc.outcome.Got?
    ensures k < |es| && es[k].Step? && es[k].t == t && es[k].c.Open? && Run(w, es[..k]).Some?
    ensures var pc := PcOf(Run(w, es).value, t);
      Place(es[k].c.dir, es[k].c.name) == pc.role.at
        && FileAt(Run(w, es[..k]).value.fs, pc.role.at) == Some(pc.outcome.data)
  {
    k := ShownWasOpened(w, es, t);
    assert es == es[..k] + [Step(t, es[k].c)] + es[k + 1..];
    ReadIsOpenTimeValue(w, es[..k], t, es[k].c, es[k + 1..]);
  }

  // ---- Where values come from --------------------------------------------------------

  /** A value some caller passed whole to a write of that name, or that was
      there from the start. */
  ghost predicate Offered(w: World, es: seq<Event>, at: Place, data: Bytes) {
    (at in w.reg && w.reg[at] == data) || exists t :: Begin(t, Writing(at, data)) in es
  }

  /** Everything a register, a writer or a reader holds was offered. */
  ghost predicate AllOffered(w: World, es: seq<Event>, v: World) {
    && (forall p | p in v.reg :: Offered(w, es, p, v.reg[p]))
    && (forall t | t in v.threads :: ThreadOffered(w, es, SnapOf(v, t), v.threads[t]))
  }

  ghost predicate ThreadOffered(w: World, es: seq<Event>, snap: Option<Bytes>, pc: Pc) {
    && (!pc.Idle? && !pc.Stuck? && pc.role.Writing? ==> Offered(w, es, pc.role.at, pc.role.data))
    && (pc.Loading? && snap.Some? ==> Offered(w, es, pc.role.at, snap.value))
    && (pc.Ended? && pc.outcome.Got? && snap.Some? ==> Offered(w, es, pc.role.at, snap.value))
  }

  lemma OfferedLater(w: World, es: seq<Event>, e: Event, at: Place, data: Bytes)
    requires Offered(w, es, at, data)
    ensures Offered(w, es + [e], at, data)
  {
    if !(at in w.reg && w.reg[at] == data) {
      var t :| Begin(t, Writing(at, data)) in es;
      assert Begin(t, Writing(at, data)) in es + [e];
    }
  }

  lemma OfferedStep(w: World, es: seq<Event>, v: World, e: Event)
    requires Inv(v) && AllOffered(w, es, v) && Allowed(v, e)
    ensures AllOffered(w, es + [e], After(v, e))
  {
    var x := After(v, e);
    assert ThreadOk(v.fs, v.drawn, SnapOf(v, e.t), PcOf(v, e.t));
    assert e in es + [e];
    forall p | p in x.reg ensures Offered(w, es + [e], p, x.reg[p]) {
      if p in v.reg && v.reg[p] == x.reg[p] {
        OfferedLater(w, es, e, p, x.reg[p]);
      } else {
        OfferedLater(w, es, e, p, PcOf(v, e.t).role.data);
      }
    }
    forall t | t in x.threads ensures ThreadOffered(w, es + [e], SnapOf(x, t), x.threads[t]) {
      ThreadOfferedStep(w, es, v, e, t);
    }
  }

  predicate HasRole(pc: Pc) {
    !pc.Idle? && !pc.Stuck?
  }

  /** Only Begin gives a call its role. */
  lemma RoleKept(v: World, e: Event, t: nat)
    requires Allowed(v, e) && HasRole(PcOf(After(v, e), t)) && !(e.Begin? && e.t == t)
    ensures HasRole(PcOf(v, t)) && PcOf(v, t).role == PcOf(After(v, e), t).role
  {
  }

  lemma RoleOfferedStep(w: World, es: seq<Event>, v: World, e: Event, t: nat)
    requires AllOffered(w, es, v) && Allowed(v, e)
    requires var pc := PcOf(After(v, e), t); HasRole(pc) && pc.role.Writing?
    ensures var pc := PcOf(After(v, e), t); Offered(w, es + [e], pc.role.at, pc.role.data)
  {
    var pc := PcOf(After(v, e), t);
    if e.Begin? && e.t == t {
      assert Begin(t, Writing(pc.role.at, pc.role.data)) in es + [e];
    } else {
      RoleKept(v, e, t);
      OfferedLater(w, es, e, pc.role.at, pc.role.data);
    }
  }

  predicate Shows(pc: Pc) {
    pc.Loading? || (pc.Ended? && pc.outcome.Got?)
  }

  /** What a reader opens is in the register. */
  lemma OpenedIsKnown(v: World, t: nat, c: Call)
    requires Inv(v) && Allowed(v, Step(t, c)) && c.Open? && Advance(PcOf(v, t), c).Loading?
    ensures Place(c.dir, c.name) in v.reg && Advance(PcOf(v, t), c).role.at == Place(c.dir, c.name)
  {
    assert ThreadOk(v.fs, v.drawn, SnapOf(v, t), PcOf(v, t));
  }

  /** Only an open gives a call what it shows. */
  lemma SnapKept(v: World, e: Event, t: nat)
    requires Inv(v) && Allowed(v, e) && Shows(PcOf(After(v, e), t)) && !(e.Step? && e.t == t && e.c.Open?)
    ensures Shows(PcOf(v, t)) && PcOf(v, t).role.at == PcOf(After(v, e), t).role.at
    ensures SnapOf(After(v, e), t) == SnapOf(v, t)
  {
    RoleKept(v, e, t);
    assert ThreadOk(v.fs, v.drawn, SnapOf(v, t), PcOf(v, t));
  }

  lemma SnapOfferedStep(w: World, es: seq<Event>, v: World, e: Event, t: nat)
    requires Inv(v) && AllOffered(w, es, v) && Allowed(v, e)
    requires Shows(PcOf(After(v, e), t)) && SnapOf(After(v, e), t).Some?
    ensures Offered(w, es + [e], PcOf(After(v, e), t).role.at, SnapOf(After(v, e), t).value)
  {
    if e.Step? && e.t == t && e.c.Open? {
      OpenedIsKnown(v, t, e.c);
    } else {
      SnapKept(v, e, t);
    }
    OfferedLater(w, es, e, PcOf(After(v, e), t).role.at, SnapOf(After(v, e), t).value);
  }

  lemma ThreadOfferedStep(w: World, es: seq<Event>, v: World, e: Event, t: nat)
    requires Inv(v) && AllOffered(w, es, v) && Allowed(v, e) && t in After(v, e).threads
    ensures ThreadOffered(w, es + [e], SnapOf(After(v, e), t), After(v, e).threads[t])
  {
    var pc := After(v, e).threads[t];
    if HasRole(pc) && pc.role.Writing? {
      RoleOfferedStep(w, es, v, e, t);
    }
    if Shows(pc) && SnapOf(After(v, e), t).Some? {
      SnapOfferedStep(w, es, v, e, t);
    }
  }

  lemma {:induction false} RunOffered(w: World, es: seq<Event>)
    requires Inv(w) && w.threads == map[] && Run(w, es).Some?
    ensures AllOffered(w, es, Run(w, es).value)
  {
    if es != [] {
      var front := es[..|es| - 1];
      RunOffered(w, front);
      RunKeeps(w, front);
      OfferedStep(w, front, Run(w, front).value, es[|es| - 1]);
      assert front + [es[|es| - 1]] == es;
    }
  }

  /** However calls interleave, a successful read returns one complete value:
      the one its name started with, or one some write was given for it. */
  lemma NoTornReads(w: World, es: seq<Event>, t: nat)
    requires Inv(w) && w.threads == map[] && Run(w, es).Some?
    requires var pc := PcOf(Run(w, es).value, t); pc.Ended? && pc.outcome.Got?
    ensures var pc := PcOf(Run(w, es).value, t); Offered(w, es, pc.role.at, pc.outcome.data)
  {
    RunOffered(w, es);
    RunKeeps(w, es);
    var v := Run(w, es).value;
    assert ThreadOk(v.fs, v.drawn, SnapOf(v, t), PcOf(v, t));
  }
}
