/** store/root.go and store/permissions_other.go: rooted, staged file IO.  Each
    method runs against a machine where every call can fail and, unless the
    machine is alone, other processes act before every call. */
module Rooted {
  import opened Basics
  import opened Filesystem
  import opened Protocol
  import opened Paths
  import opened Host
  import opened StoreSpec
  import opened Provider
  import opened Listing

  /** The mode securePermissions leaves, or None when it refuses. */
  function PermittedMode(mode: Mode, permitted: Mode, write: bool): Option<Mode> {
    var wanted := if write then permitted else mode & permitted;
    if wanted == mode then Some(mode)
    else if !write then None
    else Some(wanted)
  }

  /** Any new moment of a stretch of work still has `fs` behind it, prepared. */
  ghost predicate TrailPrepared(before: seq<Moment>, after: seq<Moment>, fs: Fs, calls: seq<Remote>) {
    before <= after && forall k | |before| <= k < |after| :: Prepared(fs, after[k].fs) && after[k].calls == calls
  }

  /** What walking to a directory may do between two instants. */
  ghost predicate Walked(a: State, b: State, h: Machine, create: bool)
    reads h`calls
  {
    && KindsKept(a.fs, b.fs) && a.faults <= b.faults && a.sights <= b.sights && a.acts <= b.acts
    && (!create ==> b.acts == a.acts && b.trail == a.trail && b.pc == a.pc)
    && (a.pc == Idle ==> b.pc == Idle)
    && (h.alone && !create ==> b.fs == a.fs)
    && (h.alone && create ==> Prepared(a.fs, b.fs) && TrailPrepared(a.trail, b.trail, a.fs, h.calls))
  }

  lemma WalkedOn(a: State, b: State, c: State, h: Machine, create: bool)
    requires Walked(a, b, h, create) && Walked(b, c, h, create)
    ensures Walked(a, c, h, create)
  {
    if h.alone && create {
      PreparedTransitive(a.fs, b.fs, c.fs);
      forall k | |a.trail| <= k < |c.trail| ensures Prepared(a.fs, c.trail[k].fs) && c.trail[k].calls == h.calls {
        if k >= |b.trail| {
          PreparedTransitive(a.fs, b.fs, c.trail[k].fs);
        }
      }
    }
  }

  /** A preparing call, or none, is walking. */
  lemma WalkedByCall(a: State, b: State, h: Machine, act: Option<Call>, create: bool)
    requires KindsKept(a.fs, b.fs) && a.faults <= b.faults && a.sights <= b.sights
    requires !create ==> act.None?
    requires h.alone ==> Closed(a.fs)
    requires act.None? ==> b.acts == a.acts && b.trail == a.trail && b.pc == a.pc && (h.alone ==> b.fs == a.fs)
    requires act.Some? ==>
      && b.acts == a.acts + [act.value] && b.trail == a.trail + [Moment(b.fs, h.calls)]
      && b.pc == Advance(a.pc, act.value)
      && (act.value.MkdirAll? || act.value.Mkdir? || act.value.Chmod?)
      && (h.alone ==> Enabled(a.fs, act.value) && Preparing(a.fs, act.value) && b.fs == Apply(a.fs, act.value))
    ensures Walked(a, b, h, create)
  {
    if h.alone && act.Some? {
      PreparingStep(a.fs, act.value);
    }
  }

  /** A look, before or behind, changes nothing about it. */
  ghost predicate JustLooked(a: State, b: State, h: Machine)
    reads h`calls
  {
    && KindsKept(a.fs, b.fs) && a.faults <= b.faults && a.sights <= b.sights
    && b.acts == a.acts && b.trail == a.trail && b.pc == a.pc && (h.alone ==> b.fs == a.fs)
  }

  lemma WalkedAndLooked(a: State, b: State, c: State, h: Machine, create: bool)
    requires Walked(a, b, h, create) && JustLooked(b, c, h)
    ensures Walked(a, c, h, create)
  {
  }

  lemma LookedAndWalked(a: State, b: State, c: State, h: Machine, create: bool)
    requires JustLooked(a, b, h) && Walked(b, c, h, create)
    ensures Walked(a, c, h, create)
  {
  }

  /** A walk along `parts` makes at most the root and missing elements of the
      path, each in the handle it had reached, and changes the mode of nothing
      but directories it goes on from. */
  predicate WalkAct(c: Call, rootDir: string, chain: seq<nat>, parts: seq<string>) {
    || (c.MkdirAll? && c.path == rootDir)
    || (c.Mkdir? && exists j | 0 <= j < |chain| && j < |parts| :: c.dir == chain[j] && c.name == parts[j])
    || (c.Chmod? && c.mode == DIR_PERM && c.ino in chain)
  }

  predicate WalkActs(before: seq<Call>, after: seq<Call>, rootDir: string, chain: seq<nat>, parts: seq<string>) {
    before <= after && forall k | |before| <= k < |after| :: WalkAct(after[k], rootDir, chain, parts)
  }

  /** The same of a single step, from `d` to wherever `r` says. */
  predicate EnterActs(before: seq<Call>, after: seq<Call>, d: nat, part: string, r: Result<nat>) {
    before <= after
    && forall k | |before| <= k < |after| ::
         (after[k].Mkdir? && after[k].dir == d && after[k].name == part)
           || (r.Ok? && after[k] == Chmod(r.value, DIR_PERM))
  }

  lemma EnteredOn(t0: seq<Call>, t1: seq<Call>, t2: seq<Call>, d: nat, part: string, r: Result<nat>)
    requires EnterActs(t0, t1, d, part, Err(Fault)) && (t2 == t1 || (r.Ok? && t2 == t1 + [Chmod(r.value, DIR_PERM)]))
    ensures EnterActs(t0, t2, d, part, r)
  {
  }

  lemma WalkActsOn(t0: seq<Call>, t1: seq<Call>, t2: seq<Call>, rootDir: string, chain: seq<nat>, parts: seq<string>,
                   j: nat, r: Result<nat>)
    requires WalkActs(t0, t1, rootDir, chain, parts) && j < |parts| && |chain| == j + 1
    requires EnterActs(t1, t2, chain[j], parts[j], r)
    ensures WalkActs(t0, t2, rootDir, if r.Ok? then chain + [r.value] else chain, parts)
  {
    var further := if r.Ok? then chain + [r.value] else chain;
    assert forall i | 0 <= i < |chain| :: further[i] == chain[i];
    assert r.Ok? ==> further[j + 1] == r.value;
    forall k | |t0| <= k < |t2| ensures WalkAct(t2[k], rootDir, further, parts) {
      if k < |t1| {
        assert WalkAct(t1[k], rootDir, chain, parts);
      } else if t2[k].Mkdir? {
        assert t2[k].dir == further[j];
      }
    }
  }

  method SecurePermissions(h: Machine, i: nat, stat: Stat, permitted: Mode, write: bool)
    returns (err: Option<Error>, ghost was: Fs, ghost act: Option<Call>)
    requires h.Valid() && i in h.fs.nodes
    modifies h`fs, h`acts, h`trail, h`faults, h`pc
    ensures h.Took(was, act)
    ensures act.Some? ==> act == Some(Chmod(i, permitted)) && write && err.None?
    ensures !write ==> err == if Within(stat.mode, permitted) then None else Some(UnsafePath)
    ensures write && err.Some? ==> err == Some(Fault) && h.faults != old(h.faults)
    ensures h.faults != old(h.faults) ==> err == Some(Fault)
    ensures write && err.None? && act.None? ==> stat.mode == permitted
    ensures !write ==> h.faults == old(h.faults) && h.fs == old(h.fs)
    ensures old(h.faults) <= h.faults
  {
    was, act := h.fs, None;
    var mode := PermittedMode(stat.mode, permitted, write);
    if mode == Some(stat.mode) {
      return None, was, None;
    }
    if mode.None? {
      return Some(UnsafePath), was, None;
    }
    var ok;
    ok, was, act := h.Fchmod(i, permitted);
    err := if ok then None else Some(Fault);
  }

  /** Checks that an open directory is the expected one and repairs or judges
      its mode. */
  method SecureDirectory(h: Machine, d: nat, expected: Option<Stat>, create: bool) returns (err: Option<Error>)
    requires h.Valid() && IsDir(h.fs, d)
    modifies h`fs, h`acts, h`trail, h`faults, h`pc, h`sights
    ensures h.Valid() && Walked(old(h.Now()), h.Now(), h, create)
    ensures h.faults != old(h.faults) ==> err == Some(Fault)
    ensures err.None? && expected.Some? ==> expected.value.ino == d
    ensures err.None? && !create ==> ExaminedPrivate(h.sights, d)
    ensures h.acts == old(h.acts) || (h.acts == old(h.acts) + [Chmod(d, DIR_PERM)] && err.None?)
    ensures h.alone && err.None? && create ==> h.fs.nodes[d].mode == DIR_PERM
    ensures h.alone && h.faults == old(h.faults) && (expected.Some? ==> expected.value.ino == d) ==>
      err == if create || Within(h.fs.nodes[d].mode, DIR_PERM) then None else Some(UnsafePath)
  {
    ghost var start := h.Now();
    var seen := h.Fstat(d);
    ghost var looked := h.Now();
    WalkedByCall(start, looked, h, None, create);
    if seen.Err? {
      return Some(seen.error);
    }
    if !seen.value.kind.DirectoryKind? || (expected.Some? && expected.value.ino != seen.value.ino) {
      return Some(UnsafePath);
    }
    ghost var was, act;
    err, was, act := SecurePermissions(h, d, seen.value, DIR_PERM, create);
    WalkedByCall(looked, h.Now(), h, act, create);
    WalkedOn(start, looked, h.Now(), h, create);
  }

  /** A handle whose directory was examined and had no bit outside 0700. */
  predicate ExaminedPrivate(sights: set<Sighting>, d: nat) {
    exists s | s in sights ::
      s.Examined? && s.stat.ino == d && s.stat.kind.DirectoryKind? && Within(s.stat.mode, DIR_PERM)
  }

  /** Lstat saw this very inode, as a real directory, under that name. */
  predicate SawDirectory(sights: set<Sighting>, d: nat, name: string, i: nat) {
    exists s | s in sights :: s.Found? && s.dir == d && s.name == name && s.stat.ino == i && s.stat.kind.DirectoryKind?
  }

  /** Mkdir of a path component. */
  method MakePart(h: Machine, d: nat, part: string) returns (err: Option<Error>)
    requires h.Valid() && IsDir(h.fs, d) && Plain(part)
    modifies h`fs, h`acts, h`trail, h`faults, h`pc
    ensures h.Valid() && Walked(old(h.Now()), h.Now(), h, true) && h.sights == old(h.sights)
    ensures EnterActs(old(h.acts), h.acts, d, part, Err(Fault))
    ensures h.faults != old(h.faults) ==> err == Some(Fault)
    ensures h.alone && Entry(old(h.fs), d, part).None? && h.faults == old(h.faults) ==>
      err.None? && Entry(h.fs, d, part).Some?
  {
    ghost var start := h.Now();
    ghost var was, act;
    err, was, act := h.MakeDir(d, part);
    WalkedByCall(start, h.Now(), h, act, true);
  }

  /** Mkdir of a path component and another look at it. */
  method MakeAndLook(h: Machine, d: nat, part: string) returns (r: Result<Stat>)
    requires h.Valid() && IsDir(h.fs, d) && Plain(part) && (h.alone ==> Entry(h.fs, d, part).None?)
    modifies h`fs, h`acts, h`trail, h`faults, h`pc, h`sights
    ensures h.Valid() && Walked(old(h.Now()), h.Now(), h, true)
    ensures EnterActs(old(h.acts), h.acts, d, part, Err(Fault))
    ensures r.Ok? ==> Looked(h.fs, d, part, r.value) && Found(d, part, r.value) in h.sights
    ensures h.faults != old(h.faults) ==> r == Err(Fault)
    ensures h.alone && r.Err? ==> h.faults != old(h.faults)
  {
    ghost var start := h.Now();
    var err := MakePart(h, d, part);
    if err.Some? && err != Some(Exist) {
      return Err(err.value);
    }
    ghost var made := h.Now();
    r := h.Lstat(d, part);
    WalkedAndLooked(start, made, h.Now(), h, true);
  }

  /** The name led to this inode, which looked like this. */
  predicate Looked(fs: Fs, d: nat, name: string, stat: Stat) {
    stat.ino in fs.nodes && stat == StatOf(fs, stat.ino) && Entry(fs, d, name) == Some(stat.ino)
  }

  /** Lstat of a path component, made first if it is absent and wanted. */
  method FindOrMake(h: Machine, d: nat, part: string, create: bool) returns (r: Result<Stat>)
    requires h.Valid() && IsDir(h.fs, d) && Plain(part)
    modifies h`fs, h`acts, h`trail, h`faults, h`pc, h`sights
    ensures h.Valid() && Walked(old(h.Now()), h.Now(), h, create)
    ensures EnterActs(old(h.acts), h.acts, d, part, Err(Fault))
    ensures r.Ok? ==> Looked(h.fs, d, part, r.value) && Found(d, part, r.value) in h.sights
    ensures h.faults != old(h.faults) ==> r == Err(Fault)
    ensures h.alone && r.Err? && h.faults == old(h.faults) ==>
      r == Err(NotExist) && !create && Entry(h.fs, d, part).None?
  {
    ghost var start := h.Now();
    r := h.Lstat(d, part);
    WalkedByCall(start, h.Now(), h, None, create);
    if r == Err(NotExist) && create {
      ghost var looked := h.Now();
      r := MakeAndLook(h, d, part);
      WalkedOn(start, looked, h.Now(), h, create);
    }
  }

  /** Opens a child directory and insists that it is the one that was seen. */
  method OpenSeen(h: Machine, d: nat, part: string, seen: Stat, create: bool) returns (r: Result<nat>)
    requires h.Valid() && IsDir(h.fs, d)
    requires (h.alone ==> Entry(h.fs, d, part) == Some(seen.ino) && IsDir(h.fs, seen.ino))
    modifies h`fs, h`acts, h`trail, h`faults, h`pc, h`sights
    ensures h.Valid() && Walked(old(h.Now()), h.Now(), h, create)
    ensures h.acts == old(h.acts) || (r.Ok? && h.acts == old(h.acts) + [Chmod(r.value, DIR_PERM)])
    ensures r.Ok? ==> IsDir(h.fs, r.value) && r.value == seen.ino
    ensures r.Ok? && !create ==> ExaminedPrivate(h.sights, r.value)
    ensures h.faults != old(h.faults) ==> r == Err(Fault)
    ensures h.alone && h.faults == old(h.faults) ==>
      r == if create || Within(h.fs.nodes[seen.ino].mode, DIR_PERM) then Ok(seen.ino) else Err(UnsafePath)
    ensures h.alone && create && r.Ok? ==> h.fs.nodes[r.value].mode == DIR_PERM
  {
    ghost var start := h.Now();
    var next := h.OpenDir(d, part);
    ghost var held := h.Now();
    WalkedByCall(start, held, h, None, create);
    if next.Err? {
      return Err(next.error);
    }
    var err := SecureDirectory(h, next.value, Some(seen), create);
    WalkedOn(start, held, h.Now(), h, create);
    r := if err.Some? then Err(err.value) else Ok(next.value);
  }

  /** The component as a real directory. */
  method FindDirectory(h: Machine, d: nat, part: string, create: bool) returns (r: Result<Stat>)
    requires h.Valid() && IsDir(h.fs, d) && Plain(part)
    modifies h`fs, h`acts, h`trail, h`faults, h`pc, h`sights
    ensures h.Valid() && Walked(old(h.Now()), h.Now(), h, create)
    ensures EnterActs(old(h.acts), h.acts, d, part, Err(Fault))
    ensures r.Ok? ==>
      Looked(h.fs, d, part, r.value) && r.value.kind.DirectoryKind? && SawDirectory(h.sights, d, part, r.value.ino)
    ensures h.faults != old(h.faults) ==> r == Err(Fault)
    ensures h.alone && r.Err? && h.faults == old(h.faults) ==> Child(h.fs, d, part) == Err(r.error)
  {
    r := FindOrMake(h, d, part, create);
    if r.Ok? && !r.value.kind.DirectoryKind? {
      r := Err(UnsafePath);
    }
  }

  /** One component of openDirectory's walk. */
  method EnterDirectory(h: Machine, d: nat, part: string, create: bool) returns (r: Result<nat>)
    requires h.Valid() && IsDir(h.fs, d) && Plain(part)
    modifies h`fs, h`acts, h`trail, h`faults, h`pc, h`sights
    ensures h.Valid() && Walked(old(h.Now()), h.Now(), h, create)
    ensures EnterActs(old(h.acts), h.acts, d, part, r)
    ensures r.Ok? ==> IsDir(h.fs, r.value) && SawDirectory(h.sights, d, part, r.value)
    ensures r.Ok? && !create ==> ExaminedPrivate(h.sights, r.value)
    ensures h.faults != old(h.faults) ==> r == Err(Fault)
    ensures h.alone && h.faults == old(h.faults) ==> r == Child(h.fs, d, part)
    ensures h.alone && create && r.Ok? ==> Child(h.fs, d, part) == r && h.fs.nodes[r.value].mode == DIR_PERM
  {
    ghost var start := h.Now();
    var info := FindDirectory(h, d, part, create);
    if info.Err? {
      return Err(info.error);
    }
    ghost var found := h.Now();
    r := OpenSeen(h, d, part, info.value, create);
    WalkedOn(start, found, h.Now(), h, create);
    EnteredOn(start.acts, found.acts, h.acts, d, part, r);
  }

  /** Every handle of a walk is the inode Lstat saw as a real directory under
      the handle before it. */
  predicate Vetted(sights: set<Sighting>, chain: seq<nat>, parts: seq<string>) {
    |chain| == |parts| + 1 && forall j | 0 <= j < |parts| :: SawDirectory(sights, chain[j], parts[j], chain[j + 1])
  }

  lemma VettedStays(before: set<Sighting>, after: set<Sighting>, chain: seq<nat>, parts: seq<string>)
    requires Vetted(before, chain, parts) && before <= after
    ensures Vetted(after, chain, parts)
  {
  }

  /** Every handle of a walk was examined and found private. */
  predicate AllPrivate(sights: set<Sighting>, chain: seq<nat>) {
    forall j | 0 <= j < |chain| :: ExaminedPrivate(sights, chain[j])
  }

  /** Whatever a walk did, to its end or not, it did along vetted handles. */
  predicate Accounted(before: seq<Call>, after: seq<Call>, sights: set<Sighting>, rootDir: string, chain: seq<nat>,
                      parts: seq<string>)
  {
    && WalkActs(before, after, rootDir, chain, parts)
    && |chain| <= |parts| + 1 && (chain != [] ==> Vetted(sights, chain, parts[..|chain| - 1]))
  }

  lemma AccountedOn(t0: seq<Call>, t1: seq<Call>, t2: seq<Call>, before: set<Sighting>, after: set<Sighting>,
                    rootDir: string, chain: seq<nat>, parts: seq<string>, j: nat, r: Result<nat>)
    requires Accounted(t0, t1, before, rootDir, chain, parts) && before <= after && j < |parts| && |chain| == j + 1
    requires EnterActs(t1, t2, chain[j], parts[j], r) && (r.Ok? ==> Vetted(after, chain + [r.value], parts[..j + 1]))
    ensures Accounted(t0, t2, after, rootDir, if r.Ok? then chain + [r.value] else chain, parts)
  {
    WalkActsOn(t0, t1, t2, rootDir, chain, parts, j, r);
    VettedStays(before, after, chain, parts[..j]);
  }

  method OpenRootHandle(h: Machine, rootDir: string, create: bool) returns (r: Result<nat>)
    requires h.Valid()
    modifies h`fs, h`acts, h`trail, h`faults, h`pc
    ensures h.Valid() && Walked(old(h.Now()), h.Now(), h, create)
    ensures WalkActs(old(h.acts), h.acts, rootDir, [], [])
    ensures r.Ok? ==> IsDir(h.fs, r.value)
    ensures h.faults != old(h.faults) ==> r == Err(Fault)
    ensures h.alone && h.faults == old(h.faults) ==> r == OpenRootSpec(h.fs, rootDir)
    ensures h.alone && r.Ok? ==> r == OpenRootSpec(h.fs, rootDir)
  {
    ghost var start := h.Now();
    if create {
      var err, was, act := h.MakeRootPath(rootDir);
      WalkedByCall(start, h.Now(), h, act, create);
      if err.Some? {
        return Err(err.value);
      }
    }
    ghost var made := h.Now();
    assert Walked(start, made, h, create);
    r := h.OpenRootPath(rootDir);
    WalkedAndLooked(start, made, h.Now(), h, create);
  }

  /** openDirectory's first lines: make, open and check the root itself. */
  method OpenRootDirectory(h: Machine, rootDir: string, create: bool) returns (r: Result<nat>)
    requires h.Valid()
    modifies h`fs, h`acts, h`trail, h`faults, h`pc, h`sights
    ensures h.Valid() && Walked(old(h.Now()), h.Now(), h, create)
    ensures WalkActs(old(h.acts), h.acts, rootDir, if r.Ok? then [r.value] else [], [])
    ensures r.Ok? ==> IsDir(h.fs, r.value)
    ensures r.Ok? && !create ==> ExaminedPrivate(h.sights, r.value)
    ensures h.faults != old(h.faults) ==> r == Err(Fault)
    ensures h.alone && h.faults == old(h.faults) ==> r == DirectorySpec(h.fs, rootDir, [])
    ensures h.alone && create && r.Ok? ==> DirectorySpec(h.fs, rootDir, []) == r
  {
    ghost var start := h.Now();
    r := OpenRootHandle(h, rootDir, create);
    ghost var held := h.Now();
    if r.Ok? {
      var err := SecureDirectory(h, r.value, None, create);
      WalkedOn(start, held, h.Now(), h, create);
      r := if err.Some? then Err(err.value) else r;
    }
  }

  /** openDirectory's loop body: one component further down. */
  method WalkStep(h: Machine, rootDir: string, d: nat, ghost chain: seq<nat>, parts: seq<string>, j: nat, create: bool)
    returns (r: Result<nat>)
    requires h.Valid() && IsDir(h.fs, d) && AllPlain(parts) && j < |parts|
    requires |chain| == j + 1 && chain[j] == d && Vetted(h.sights, chain, parts[..j])
    requires (!create ==> AllPrivate(h.sights, chain))
    requires h.alone ==> DirectorySpec(h.fs, rootDir, parts[..j]) == Ok(d)
    modifies h`fs, h`acts, h`trail, h`faults, h`pc, h`sights
    ensures h.Valid() && Walked(old(h.Now()), h.Now(), h, create)
    ensures EnterActs(old(h.acts), h.acts, d, parts[j], r)
    ensures r.Ok? ==> IsDir(h.fs, r.value) && Vetted(h.sights, chain + [r.value], parts[..j + 1])
    ensures r.Ok? && !create ==> AllPrivate(h.sights, chain + [r.value])
    ensures h.faults != old(h.faults) ==> r == Err(Fault)
    ensures h.alone && (r.Ok? || h.faults == old(h.faults)) ==> DirectorySpec(h.fs, rootDir, parts[..j + 1]) == r
  {
    ghost var here := h.Now();
    r := EnterDirectory(h, d, parts[j], create);
    if r.Ok? {
      VettedFurther(here.sights, h.sights, chain, parts, j, r.value);
    }
    if h.alone {
      if create {
        PreparedKeepsDirs(here.fs, h.fs);
      }
      ChildFurther(here.fs, h.fs, rootDir, parts, j, d);
    }
  }

  lemma VettedFurther(before: set<Sighting>, after: set<Sighting>, chain: seq<nat>, parts: seq<string>, j: nat, i: nat)
    requires j < |parts| && Vetted(before, chain, parts[..j]) && before <= after
    requires SawDirectory(after, chain[j], parts[j], i)
    ensures Vetted(after, chain + [i], parts[..j + 1])
  {
  }

  /** Where the way so far is kept, it goes on to the child. */
  lemma ChildFurther(a: Fs, b: Fs, rootDir: string, parts: seq<string>, j: nat, d: nat)
    requires Closed(a) && Closed(b) && KeepsDirs(a, b) && j < |parts| && IsDir(b, d)
    requires DirectorySpec(a, rootDir, parts[..j]) == Ok(d)
    ensures DirectorySpec(b, rootDir, parts[..j + 1]) == Child(b, d, parts[j])
  {
    assert parts[..j + 1][..j] == parts[..j];
    DirectoryKept(a, b, rootDir, parts[..j]);
  }

  /** openDirectory's loop over the components of a cleaned name. */
  method WalkDown(h: Machine, rootDir: string, root: nat, parts: seq<string>, create: bool)
    returns (r: Result<nat>, ghost chain: seq<nat>)
    requires h.Valid() && IsDir(h.fs, root) && AllPlain(parts)
    requires h.alone ==> DirectorySpec(h.fs, rootDir, []) == Ok(root)
    requires !create ==> ExaminedPrivate(h.sights, root)
    modifies h`fs, h`acts, h`trail, h`faults, h`pc, h`sights
    ensures h.Valid() && Walked(old(h.Now()), h.Now(), h, create)
    ensures Accounted(old(h.acts), h.acts, h.sights, rootDir, chain, parts) && chain != [] && chain[0] == root
    ensures r.Ok? ==> IsDir(h.fs, r.value) && Vetted(h.sights, chain, parts) && chain[|chain| - 1] == r.value
    ensures r.Ok? && !create ==> AllPrivate(h.sights, chain)
    ensures h.faults != old(h.faults) ==> r == Err(Fault)
    ensures h.alone && h.faults == old(h.faults) ==> r == DirectorySpec(h.fs, rootDir, parts)
    ensures h.alone && create && r.Ok? ==> DirectorySpec(h.fs, rootDir, parts) == r
  {
    ghost var start := h.Now();
    var d := root;
    chain := [d];
    for j := 0 to |parts|
      invariant h.Valid() && IsDir(h.fs, d) && Walked(start, h.Now(), h, create)
      invariant |chain| == j + 1 && chain[0] == root && chain[j] == d
      invariant Accounted(old(h.acts), h.acts, h.sights, rootDir, chain, parts)
      invariant !create ==> AllPrivate(h.sights, chain)
      invariant h.alone ==> DirectorySpec(h.fs, rootDir, parts[..j]) == Ok(d)
      invariant h.faults == old(h.faults)
    {
      ghost var here := h.Now();
      r := WalkStep(h, rootDir, d, chain, parts, j, create);
      WalkedOn(start, here, h.Now(), h, create);
      AccountedOn(start.acts, here.acts, h.acts, here.sights, h.sights, rootDir, chain, parts, j, r);
      if r.Err? {
        if h.alone && h.faults == old(h.faults) {
          FailedWalk(h.fs, rootDir, parts, j + 1);
        }
        return r, chain;
      }
      d := r.value;
      chain := chain + [d];
    }
    assert parts[..|parts|] == parts;
    r := Ok(d);
  }

  lemma FailedWalk(fs: Fs, rootDir: string, parts: seq<string>, k: nat)
    requires Closed(fs) && k <= |parts| && DirectorySpec(fs, rootDir, parts[..k]).Err?
    ensures DirectorySpec(fs, rootDir, parts) == DirectorySpec(fs, rootDir, parts[..k])
  {
    if DirectorySpec(fs, rootDir, []).Ok? {
      FailedDescent(fs, fs.anchors[rootDir].ino, parts, k);
    }
  }

  /** openDirectory: a handle on a directory below the root, reached through
      real directories only. */
  method OpenDirectory(h: Machine, rootDir: string, name: RelPath, create: bool)
    returns (r: Result<nat>, ghost chain: seq<nat>)
    requires h.Valid()
    modifies h`fs, h`acts, h`trail, h`faults, h`pc, h`sights
    ensures h.Valid() && Walked(old(h.Now()).(sights := {}), h.Now(), h, create)
    ensures Improper(name) ==>
      r == Err(UnsafePath) && h.acts == old(h.acts) && h.trail == old(h.trail) && h.fs == old(h.fs)
    ensures IsLocal(name) ==> Accounted(old(h.acts), h.acts, h.sights, rootDir, chain, Clean(name).value)
    ensures !IsLocal(name) ==> h.acts == old(h.acts)
    ensures r.Ok? ==> IsLocal(name) && IsDir(h.fs, r.value)
    ensures r.Ok? ==> Vetted(h.sights, chain, Clean(name).value) && chain[|chain| - 1] == r.value
    ensures r.Ok? && !create ==> AllPrivate(h.sights, chain)
    ensures h.faults != old(h.faults) ==> r == Err(Fault)
    ensures h.alone && h.faults == old(h.faults) ==>
      r == if IsLocal(name) then DirectorySpec(h.fs, rootDir, Clean(name).value) else Err(UnsafePath)
    ensures h.alone && create && r.Ok? ==> DirectorySpec(h.fs, rootDir, Clean(name).value) == r
  {
    h.sights, chain := {}, [];
    LocalMeans(name);
    if !IsLocal(name) {
      return Err(UnsafePath), [];
    }
    ghost var start := h.Now();
    r := OpenRootDirectory(h, rootDir, create);
    if r.Err? {
      if h.alone && h.faults == old(h.faults) {
        FailedDirectory(h.fs, rootDir, Clean(name).value);
      }
      return r, [];
    }
    ghost var held := h.Now();
    r, chain := WalkDown(h, rootDir, r.value, Clean(name).value, create);
    WalkedOn(start, held, h.Now(), h, create);
  }

  /** openParent: the directory a name is in, and its last component. */
  method OpenParent(h: Machine, rootDir: string, name: RelPath, create: bool)
    returns (r: Result<nat>, base: string, ghost chain: seq<nat>)
    requires h.Valid()
    modifies h`fs, h`acts, h`trail, h`faults, h`pc, h`sights
    ensures h.Valid() && Walked(old(h.Now()).(sights := {}), h.Now(), h, create)
    ensures Improper(name) ==>
      r == Err(UnsafePath) && h.acts == old(h.acts) && h.trail == old(h.trail) && h.fs == old(h.fs)
    ensures IsLocal(name) ==> Accounted(old(h.acts), h.acts, h.sights, rootDir, chain, Parents(name))
    ensures !IsLocal(name) ==> h.acts == old(h.acts)
    ensures r.Ok? ==> IsLocal(name) && IsDir(h.fs, r.value) && base == BaseName(name)
    ensures r.Ok? ==> Vetted(h.sights, chain, Parents(name)) && chain[|chain| - 1] == r.value
    ensures r.Ok? && !create ==> AllPrivate(h.sights, chain)
    ensures h.faults != old(h.faults) ==> r == Err(Fault)
    ensures h.alone && h.faults == old(h.faults) ==>
      r == if IsLocal(name) then DirectorySpec(h.fs, rootDir, Parents(name)) else Err(UnsafePath)
    ensures h.alone && create && r.Ok? ==> DirectorySpec(h.fs, rootDir, Parents(name)) == r
  {
    h.sights, base, chain := {}, "", [];
    LocalMeans(name);
    if !IsLocal(name) {
      return Err(UnsafePath), "", [];
    }
    ParentIsLocal(name);
    r, chain := OpenDirectory(h, rootDir, DirName(name), create);
    base := BaseName(name);
  }

  /** regularInfo: what a name leads to, if that is a regular file. */
  method RegularInfo(h: Machine, d: nat, name: string) returns (r: Result<Stat>)
    requires h.Valid() && IsDir(h.fs, d)
    modifies h`fs, h`faults, h`sights, h`pc
    ensures h.Valid() && KindsKept(old(h.fs), h.fs) && (h.alone ==> h.fs == old(h.fs))
    ensures Answered(r, RegularSpec(h.fs, d, name), old(h.faults), h.faults)
    ensures old(h.sights) <= h.sights && (r.Ok? ==> Found(d, name, r.value) in h.sights)
    ensures h.pc == (match r
                     case Ok(stat) => Advance(old(h.pc), Sight(d, name, stat.ino))
                     case Err(e) => if e == NotExist then Advance(old(h.pc), Missing(d, name)) else old(h.pc))
    ensures old(h.pc) == Started(Reading(Place(d, name))) ==>
      (match r
       case Ok(stat) => h.pc == Sighted(old(h.pc.role), stat.ino)
       case Err(e) => ReadOpened(old(h.pc.role), h.pc, Err(e)))
  {
    r := h.Lstat(d, name);
    if r.Ok? && !r.value.kind.RegularKind? {
      return Err(UnsafePath);
    }
    if r.Ok? {
      h.Note(Sight(d, name, r.value.ino));
    } else if r.error == NotExist {
      h.Note(Missing(d, name));
    }
  }

  /** Lstat saw this very inode, as a regular file, under that name. */
  predicate SawFile(sights: set<Sighting>, d: nat, name: string, i: nat) {
    exists s | s in sights :: s.Found? && s.dir == d && s.name == name && s.stat.ino == i && s.stat.kind.RegularKind?
  }

  /** A handle whose file was examined and had no bit outside 0600. */
  predicate ExaminedFile(sights: set<Sighting>, i: nat) {
    exists s | s in sights ::
      s.Examined? && s.stat.ino == i && s.stat.kind.RegularKind? && Within(s.stat.mode, FILE_PERM)
  }

  /** One of these calls created the inode, exclusively, under that name. */
  predicate MadeFile(acts: seq<Call>, d: nat, name: string, i: nat) {
    exists c | c in acts :: c.Create? && c.dir == d && c.name == name && c.ino == i
  }

  /** Opening makes at most an empty file under the name, and changes the mode of
      nothing but the file it hands out. */
  predicate OpenActs(before: seq<Call>, after: seq<Call>, d: nat, name: string, r: Result<nat>) {
    before <= after
    && forall k | |before| <= k < |after| ::
         (after[k].Create? && after[k].dir == d && after[k].name == name)
           || (r.Ok? && after[k] == Chmod(r.value, FILE_PERM))
  }

  lemma MadeAndAdmitted(t0: seq<Call>, t1: seq<Call>, t2: seq<Call>, d: nat, name: string, c: Call, r: Result<nat>)
    requires c.Create? && c.dir == d && c.name == name && t1 == t0 + [c]
    requires t2 == t1 || (r == Ok(c.ino) && t2 == t1 + [Chmod(c.ino, FILE_PERM)])
    ensures OpenActs(t0, t2, d, name, r) && MadeFile(t2[|t0|..], d, name, c.ino)
  {
    assert t2[|t0|..][0] == c;
  }

  /** The checks openManagedFile makes once it holds a handle. */
  method AdmitFile(h: Machine, i: nat, seen: Option<Stat>, write: bool) returns (r: Result<nat>)
    requires h.Valid() && i in h.fs.nodes
    modifies h`fs, h`acts, h`trail, h`faults, h`pc, h`sights
    ensures h.Valid() && KindsKept(old(h.fs), h.fs) && old(h.faults) <= h.faults && old(h.sights) <= h.sights
    ensures r != Err(NotExist)
    ensures r.Ok? ==> r.value == i && IsFile(h.fs, i) && (seen.Some? ==> seen.value.ino == i)
    ensures r.Ok? && !write ==> ExaminedFile(h.sights, i)
    ensures !write ==>
      h.acts == old(h.acts) && h.trail == old(h.trail) && h.pc == old(h.pc) && (h.alone ==> h.fs == old(h.fs))
    ensures h.acts == old(h.acts) || (r == Ok(i) && h.acts == old(h.acts) + [Chmod(i, FILE_PERM)])
    ensures h.faults != old(h.faults) ==> r == Err(Fault)
    ensures h.alone && IsFile(h.fs, i) && (seen.Some? ==> seen.value.ino == i) && h.faults == old(h.faults) ==>
      r == if write || Within(h.fs.nodes[i].mode, FILE_PERM) then Ok(i) else Err(UnsafePath)
    ensures h.alone && write && r.Ok? ==> h.fs == Put(old(h.fs), i, old(h.fs).nodes[i].(mode := FILE_PERM))
    ensures h.alone ==> h.fs == old(h.fs) || h.fs == Put(old(h.fs), i, old(h.fs).nodes[i].(mode := FILE_PERM))
  {
    var stat := h.Fstat(i);
    if stat.Err? {
      return Err(stat.error);
    }
    if !stat.value.kind.RegularKind? || (seen.Some? && seen.value.ino != stat.value.ino) {
      return Err(UnsafePath);
    }
    var err, was, act := SecurePermissions(h, i, stat.value, FILE_PERM, write);
    r := if err.Some? then Err(err.value) else Ok(i);
  }

  /** The existing file a name was seen to lead to, if it is still that one. */
  method OpenSighted(h: Machine, d: nat, name: string, seen: Stat, write: bool) returns (r: Result<nat>)
    requires h.Valid() && IsDir(h.fs, d)
    requires h.alone ==> RegularSpec(h.fs, d, name) == Ok(seen)
    modifies h`fs, h`acts, h`trail, h`faults, h`pc, h`sights
    ensures h.Valid() && KindsKept(old(h.fs), h.fs) && old(h.faults) <= h.faults && old(h.sights) <= h.sights
    ensures r.Ok? ==> IsFile(h.fs, r.value) && r.value == seen.ino
    ensures r.Ok? && !write ==> ExaminedFile(h.sights, r.value)
    ensures h.acts == old(h.acts) || (r.Ok? && h.acts == old(h.acts) + [Chmod(r.value, FILE_PERM)])
    ensures !write ==> h.acts == old(h.acts) && h.trail == old(h.trail) && (h.alone ==> h.fs == old(h.fs))
    ensures !write && old(h.pc) == Sighted(Reading(Place(d, name)), seen.ino) ==> ReadOpened(old(h.pc).role, h.pc, r)
    ensures h.faults != old(h.faults) ==> r == Err(Fault)
    ensures h.alone && h.faults == old(h.faults) ==>
      r == if write || Within(seen.mode, FILE_PERM) then Ok(seen.ino) else Err(UnsafePath)
    ensures h.alone && write && r.Ok? ==>
      h.fs == Put(old(h.fs), seen.ino, old(h.fs).nodes[seen.ino].(mode := FILE_PERM))
    ensures h.alone ==>
      h.fs == old(h.fs) || h.fs == Put(old(h.fs), seen.ino, old(h.fs).nodes[seen.ino].(mode := FILE_PERM))
  {
    r := h.OpenExisting(d, name);
    if r.Ok? {
      r := AdmitFile(h, r.value, Some(seen), write);
    }
  }

  /** A name holds what it held; at most an empty file has come to be there. */
  predicate ContentKept(a: Fs, b: Fs, d: nat, name: string) {
    && b.anchors == a.anchors
    && (match Entry(a, d, name)
        case None =>
          Entry(b, d, name).None? || (IsFile(b, Entry(b, d, name).value) && DataOf(b, Entry(b, d, name).value) == [])
        case Some(i) =>
          && Entry(b, d, name) == Some(i) && (IsFile(a, i) <==> IsFile(b, i))
          && (IsFile(a, i) ==> DataOf(b, i) == DataOf(a, i)))
  }

  /** Opening for append on an undisturbed machine: the file is there, private,
      and as long as it was. */
  predicate AppendOpened(a: Fs, b: Fs, d: nat, name: string, i: nat) {
    && b.anchors == a.anchors
    && Entry(b, d, name) == Some(i) && IsFile(b, i) && b.nodes[i].mode == FILE_PERM
    && (match Entry(a, d, name)
        case Some(j) => j == i && IsFile(a, i) && DataOf(b, i) == DataOf(a, i)
        case None => i !in a.nodes && DataOf(b, i) == [])
  }

  /** A file that was just created, its mode repaired or not. */
  lemma CreatedContent(a: Fs, c: Call, s: Fs)
    requires Enabled(a, c) && c.Create?
    requires var b := Apply(a, c); s == b || s == Put(b, c.ino, b.nodes[c.ino].(mode := FILE_PERM))
    ensures Entry(a, c.dir, c.name).None? && ContentKept(a, s, c.dir, c.name)
    ensures s.nodes[c.ino].mode == FILE_PERM ==> AppendOpened(a, s, c.dir, c.name, c.ino)
  {
  }

  /** The exclusive creation of a file that was seen to be absent. */
  method CreateManaged(h: Machine, d: nat, name: string, write: bool) returns (r: Result<nat>)
    requires h.Valid() && IsDir(h.fs, d)
    modifies h`fs, h`acts, h`trail, h`faults, h`pc, h`sights
    ensures h.Valid() && KindsKept(old(h.fs), h.fs) && old(h.faults) <= h.faults && old(h.sights) <= h.sights
    ensures OpenActs(old(h.acts), h.acts, d, name, r)
    ensures r.Ok? ==> IsFile(h.fs, r.value) && MadeFile(h.acts[|old(h.acts)|..], d, name, r.value)
    ensures r.Ok? && !write ==> ExaminedFile(h.sights, r.value)
    ensures r == Err(Exist) && h.alone ==> Entry(old(h.fs), d, name).Some?
    ensures h.faults != old(h.faults) ==> r == Err(Fault)
    ensures h.alone && write && r.Ok? ==>
      Entry(old(h.fs), d, name).None? && AppendOpened(old(h.fs), h.fs, d, name, r.value)
    ensures h.alone ==> ContentKept(old(h.fs), h.fs, d, name)
  {
    ghost var was, act;
    r, was, act := h.CreateFile(d, name);
    if r.Ok? {
      ghost var made := h.acts;
      r := AdmitFile(h, r.value, None, write);
      MadeAndAdmitted(old(h.acts), made, h.acts, d, name, act.value, r);
      if h.alone {
        CreatedContent(was, act.value, h.fs);
      }
    }
  }

  /** One attempt of openManagedFile; `again` when the name appeared between the
      look and the exclusive creation. */
  method OpenAttempt(h: Machine, d: nat, name: string, write: bool, create: bool) returns (again: bool, r: Result<nat>)
    requires h.Valid() && IsDir(h.fs, d)
    modifies h`fs, h`acts, h`trail, h`faults, h`pc, h`sights
    ensures h.Valid() && KindsKept(old(h.fs), h.fs) && old(h.faults) <= h.faults && old(h.sights) <= h.sights
    ensures again ==> create && r.Err? && !h.alone
    ensures OpenActs(old(h.acts), h.acts, d, name, r)
    ensures r.Ok? ==> IsFile(h.fs, r.value)
    ensures r.Ok? ==>
      SawFile(h.sights, d, name, r.value) || (create && MadeFile(h.acts[|old(h.acts)|..], d, name, r.value))
    ensures r.Ok? && !write ==> ExaminedFile(h.sights, r.value)
    ensures !write && !create ==> h.acts == old(h.acts) && h.trail == old(h.trail) && (h.alone ==> h.fs == old(h.fs))
    ensures !write && !create && old(h.pc) == Started(Reading(Place(d, name))) ==> ReadOpened(old(h.pc).role, h.pc, r)
    ensures h.faults != old(h.faults) ==> r == Err(Fault)
    ensures h.alone && !write && !create && h.faults == old(h.faults) ==> r == FileSpec(h.fs, d, name)
    ensures h.alone && write && create && r.Ok? ==> AppendOpened(old(h.fs), h.fs, d, name, r.value)
    ensures h.alone ==> ContentKept(old(h.fs), h.fs, d, name)
  {
    again := false;
    var info := RegularInfo(h, d, name);
    if info == Err(NotExist) && create {
      r := CreateManaged(h, d, name, write);
      again := r == Err(Exist);
    } else if info.Err? {
      r := Err(info.error);
    } else {
      r := OpenSighted(h, d, name, info.value, write);
    }
  }

  /** How far the reading protocol is once the file has or has not been opened. */
  predicate ReadOpened(role: Role, pc: Pc, r: Result<nat>) {
    match r
    case Ok(i) => pc == Loading(role, i, [])
    case Err(e) => if e == NotExist then pc == Ended(role, Absent) else Return(pc) == Ended(role, Failed)
  }

  /** openManagedFile: at most two attempts to hold a regular file that was seen
      under its name, or that this very call created there. */
  method OpenManagedFile(h: Machine, d: nat, name: string, write: bool, create: bool) returns (r: Result<nat>)
    requires h.Valid() && IsDir(h.fs, d)
    modifies h`fs, h`acts, h`trail, h`faults, h`pc, h`sights
    ensures h.Valid() && KindsKept(old(h.fs), h.fs) && old(h.faults) <= h.faults && old(h.sights) <= h.sights
    ensures r.Ok? ==> IsFile(h.fs, r.value)
    ensures OpenActs(old(h.acts), h.acts, d, name, r)
    ensures r.Ok? ==>
      SawFile(h.sights, d, name, r.value) || (create && MadeFile(h.acts[|old(h.acts)|..], d, name, r.value))
    ensures r.Ok? && !write ==> ExaminedFile(h.sights, r.value)
    ensures !write && !create ==> h.acts == old(h.acts) && h.trail == old(h.trail) && (h.alone ==> h.fs == old(h.fs))
    ensures !write && !create && old(h.pc) == Started(Reading(Place(d, name))) ==> ReadOpened(old(h.pc).role, h.pc, r)
    ensures h.faults != old(h.faults) ==> r == Err(Fault) || create
    ensures h.alone && !write && !create && h.faults == old(h.faults) ==> r == FileSpec(h.fs, d, name)
    ensures h.alone && write && create && r.Ok? ==> AppendOpened(old(h.fs), h.fs, d, name, r.value)
    ensures h.alone ==> ContentKept(old(h.fs), h.fs, d, name)
  {
    ghost var n := |h.acts|;
    for attempt := 0 to 2
      invariant h.Valid() && IsDir(h.fs, d) && KindsKept(old(h.fs), h.fs)
      invariant old(h.faults) <= h.faults && old(h.sights) <= h.sights
      invariant OpenActs(old(h.acts), h.acts, d, name, Err(Fault))
      invariant attempt > 0 ==> create && !h.alone
      invariant attempt == 0 ==> h.Now() == old(h.Now())
    {
      ghost var here := h.acts;
      var again;
      again, r := OpenAttempt(h, d, name, write, create);
      if !again {
        assert forall c | c in h.acts[|here|..] :: c in h.acts[n..];
        return;
      }
    }
    r := Err(UnsafePath);
  }

  /** io.ReadAll.  Others may keep the file growing, so a call that returns does
      so within some number of reads; running out of them is a failure. */
  method ReadAll(h: Machine, i: nat) returns (r: Result<Bytes>)
    requires h.Valid() && IsFile(h.fs, i) && h.pc.Loading? && h.pc.ino == i && h.pc.buf == []
    modifies h`fs, h`faults, h`pc
    ensures h.Valid() && KindsKept(old(h.fs), h.fs) && (h.alone ==> h.fs == old(h.fs))
    ensures r.Ok? ==> h.pc == Ended(old(h.pc.role), Got(r.value))
    ensures r.Err? ==> Return(h.pc) == Ended(old(h.pc.role), Failed)
    ensures old(h.faults) <= h.faults && (r.Err? <==> h.faults != old(h.faults)) && (r.Err? ==> r == Err(Fault))
    ensures h.alone && r.Ok? ==> r.value == DataOf(h.fs, i)
  {
    var buf: Bytes := [];
    var budget: nat := *;
    while budget > 0
      invariant h.Valid() && IsFile(h.fs, i) && KindsKept(old(h.fs), h.fs) && (h.alone ==> h.fs == old(h.fs))
      invariant h.pc == Loading(old(h.pc.role), i, buf)
      invariant h.faults == old(h.faults)
      invariant h.alone ==> buf <= DataOf(h.fs, i)
    {
      var chunk := h.ReadSome(i, |buf|);
      if chunk.Err? {
        return Err(Fault);
      }
      if chunk.value == [] {
        return Ok(buf);
      }
      buf := buf + chunk.value;
      budget := budget - 1;
    }
    h.faults := h.faults + 1;
    r := Err(Fault);
  }

  /** ReadSecureAt once it holds the parent: open, read everything, close. */
  method LoadFile(h: Machine, d: nat, base: string) returns (r: Result<Bytes>, ghost ino: nat)
    requires h.Valid() && IsDir(h.fs, d)
    modifies h`fs, h`acts, h`trail, h`faults, h`pc, h`sights
    ensures h.Valid() && KindsKept(old(h.fs), h.fs) && old(h.faults) <= h.faults && old(h.sights) <= h.sights
    ensures h.acts == old(h.acts) && h.trail == old(h.trail) && (h.alone ==> h.fs == old(h.fs))
    ensures r.Ok? ==> SawFile(h.sights, d, base, ino) && ExaminedFile(h.sights, ino)
    ensures r.Ok? ==> h.pc == Ended(Reading(Place(d, base)), Got(r.value))
    ensures r.Err? ==> h.pc == Ended(Reading(Place(d, base)), if r.error == NotExist then Absent else Failed)
    ensures h.faults != old(h.faults) ==> r == Err(Fault)
    ensures h.alone && h.faults == old(h.faults) ==>
      r == match FileSpec(h.fs, d, base) case Err(e) => Err(e) case Ok(i) => Ok(DataOf(h.fs, i))
  {
    h.pc, ino := Started(Reading(Place(d, base))), 0;
    var f := OpenManagedFile(h, d, base, false, false);
    if f.Err? {
      h.pc := Return(h.pc);
      return Err(f.error), 0;
    }
    ino := f.value;
    r := ReadAll(h, f.value);
    h.pc := Return(h.pc);
  }

  /** ReadSecureAt. */
  method ReadSecureAt(h: Machine, rootDir: string, name: RelPath)
    returns (r: Result<Bytes>, ghost chain: seq<nat>, ghost ino: nat)
    requires h.Valid()
    modifies h`fs, h`acts, h`trail, h`faults, h`pc, h`sights
    ensures h.Valid() && KindsKept(old(h.fs), h.fs) && old(h.faults) <= h.faults
    ensures Improper(name) ==>
      r == Err(UnsafePath) && h.acts == old(h.acts) && h.trail == old(h.trail) && h.fs == old(h.fs)
    ensures h.acts == old(h.acts) && h.trail == old(h.trail) && (h.alone ==> h.fs == old(h.fs))
    ensures r.Ok? ==> IsLocal(name) && Vetted(h.sights, chain, Parents(name)) && AllPrivate(h.sights, chain)
    ensures r.Ok? ==> SawFile(h.sights, chain[|chain| - 1], BaseName(name), ino) && ExaminedFile(h.sights, ino)
    ensures r.Ok? ==> h.pc == Ended(Reading(Place(chain[|chain| - 1], BaseName(name))), Got(r.value))
    ensures r.Err? && h.pc != Idle ==> IsLocal(name)
    ensures r.Err? && h.pc != Idle ==>
      h.pc.Ended? && h.pc.role.Reading? && h.pc.role.at.base == BaseName(name)
        && h.pc.outcome == if r.error == NotExist then Absent else Failed
    ensures h.faults != old(h.faults) ==> r == Err(Fault)
    ensures h.alone && h.faults == old(h.faults) ==> r == ReadSpec(h.fs, rootDir, name)
  {
    h.pc, ino := Idle, 0;
    var d, base;
    d, base, chain := OpenParent(h, rootDir, name, false);
    if d.Err? {
      return Err(d.error), chain, 0;
    }
    r, ino := LoadFile(h, d.value, base);
  }

  /** ExistsSecureAt. */
  method ExistsSecureAt(h: Machine, rootDir: string, name: RelPath)
    returns (found: bool, ghost chain: seq<nat>, ghost ino: nat)
    requires h.Valid()
    modifies h`fs, h`acts, h`trail, h`faults, h`pc, h`sights
    ensures h.Valid() && KindsKept(old(h.fs), h.fs) && old(h.faults) <= h.faults
    ensures Improper(name) ==> !found && h.acts == old(h.acts) && h.trail == old(h.trail) && h.fs == old(h.fs)
    ensures h.acts == old(h.acts) && h.trail == old(h.trail) && (h.alone ==> h.fs == old(h.fs))
    ensures found ==> IsLocal(name) && Vetted(h.sights, chain, Parents(name)) && AllPrivate(h.sights, chain)
    ensures found ==> SawFile(h.sights, chain[|chain| - 1], BaseName(name), ino) && ExaminedFile(h.sights, ino)
    ensures h.alone && found ==> ReadSpec(h.fs, rootDir, name).Ok?
    ensures h.alone && h.faults == old(h.faults) ==> found == ReadSpec(h.fs, rootDir, name).Ok?
  {
    h.pc, ino, found := Idle, 0, false;
    var d, base;
    d, base, chain := OpenParent(h, rootDir, name, false);
    if d.Ok? {
      found, ino := ProbeFile(h, d.value, base);
    }
  }

  /** ExistsSecureAt once it holds the parent. */
  method ProbeFile(h: Machine, d: nat, base: string) returns (found: bool, ghost ino: nat)
    requires h.Valid() && IsDir(h.fs, d)
    modifies h`fs, h`acts, h`trail, h`faults, h`pc, h`sights
    ensures h.Valid() && KindsKept(old(h.fs), h.fs) && old(h.faults) <= h.faults && old(h.sights) <= h.sights
    ensures h.acts == old(h.acts) && h.trail == old(h.trail) && (h.alone ==> h.fs == old(h.fs))
    ensures found ==> SawFile(h.sights, d, base, ino) && ExaminedFile(h.sights, ino)
    ensures h.alone && found ==> FileSpec(h.fs, d, base).Ok?
    ensures h.alone && h.faults == old(h.faults) ==> found == FileSpec(h.fs, d, base).Ok?
  {
    h.pc, ino, found := Started(Reading(Place(d, base))), 0, false;
    var f := OpenManagedFile(h, d, base, false, false);
    if f.Err? {
      return;
    }
    ino := f.value;
    found := h.Settle();
  }

  /** ReadDirSecureAt: the names in a managed directory, in order. */
  method ReadDirSecureAt(h: Machine, rootDir: string, name: RelPath)
    returns (r: Result<seq<string>>, ghost chain: seq<nat>)
    requires h.Valid()
    modifies h`fs, h`acts, h`trail, h`faults, h`pc, h`sights
    ensures h.Valid() && KindsKept(old(h.fs), h.fs) && old(h.faults) <= h.faults
    ensures Improper(name) ==>
      r == Err(UnsafePath) && h.acts == old(h.acts) && h.trail == old(h.trail) && h.fs == old(h.fs)
    ensures h.acts == old(h.acts) && h.trail == old(h.trail) && (h.alone ==> h.fs == old(h.fs))
    ensures r.Ok? ==> IsLocal(name) && Vetted(h.sights, chain, Clean(name).value) && AllPrivate(h.sights, chain)
    ensures r.Ok? ==>
      IsDir(h.fs, chain[|chain| - 1]) && ListingOf(r.value, h.fs.nodes[chain[|chain| - 1]].node.entries.Keys)
    ensures h.alone && h.faults == old(h.faults) ==>
      match ListSpec(h.fs, rootDir, name)
      case Ok(names) => r.Ok? && ListingOf(r.value, names)
      case Err(e) => r == Err(e)
  {
    var d;
    d, chain := OpenDirectory(h, rootDir, name, false);
    if d.Err? {
      return Err(d.error), chain;
    }
    var ok := h.Settle();
    if !ok {
      return Err(Fault), chain;
    }
    var listing := InOrder(h.fs.nodes[d.value].node.entries.Keys);
    r := Ok(listing);
  }

  /** RemoveSecureAt. */
  method RemoveSecureAt(h: Machine, rootDir: string, name: RelPath)
    returns (err: Option<Error>, ghost at: Place, ghost chain: seq<nat>)
    requires h.Valid()
    modifies h`fs, h`acts, h`trail, h`faults, h`pc, h`sights
    ensures h.Valid() && KindsKept(old(h.fs), h.fs) && old(h.faults) <= h.faults
    ensures Improper(name) ==>
      err == Some(UnsafePath) && h.acts == old(h.acts) && h.trail == old(h.trail) && h.fs == old(h.fs)
    ensures h.acts == old(h.acts) + if err.None? then [Unlink(at.dir, at.base)] else []
    ensures err.None? ==> h.pc == Ended(Removing(at), Removed) && IsLocal(name) && at.base == BaseName(name)
    ensures err.None? ==>
      Vetted(h.sights, chain, Parents(name)) && AllPrivate(h.sights, chain) && at.dir == chain[|chain| - 1]
    ensures err.None? ==> exists i :: SawFile(h.sights, at.dir, at.base, i)
    ensures h.alone ==> h.trail == old(h.trail) + if err.None? then [Moment(h.fs, h.calls)] else []
    ensures h.alone && err.Some? ==> h.fs == old(h.fs)
    ensures h.alone && err.None? ==>
      RemovalSpec(old(h.fs), rootDir, name) == Ok(at) && h.fs == Unlinked(old(h.fs), at.dir, at.base)
    ensures h.alone && h.faults == old(h.faults) ==>
      err == match RemovalSpec(old(h.fs), rootDir, name) case Ok(_) => None case Err(e) => Some(e)
    ensures h.alone && err == Some(NotExist) ==> RemovalSpec(old(h.fs), rootDir, name) == Err(NotExist)
  {
    h.pc, at := Idle, Place(0, "");
    var d, base;
    d, base, chain := OpenParent(h, rootDir, name, false);
    if d.Err? {
      return Some(d.error), at, chain;
    }
    err, at := RemoveFile(h, d.value, base);
  }

  /** RemoveSecureAt once it holds the parent. */
  method RemoveFile(h: Machine, d: nat, base: string) returns (err: Option<Error>, ghost at: Place)
    requires h.Valid() && IsDir(h.fs, d)
    modifies h`fs, h`acts, h`trail, h`faults, h`pc, h`sights
    ensures h.Valid() && KindsKept(old(h.fs), h.fs) && old(h.faults) <= h.faults
    ensures at == Place(d, base) && old(h.sights) <= h.sights
    ensures err.None? ==> exists i :: SawFile(h.sights, d, base, i)
    ensures h.acts == old(h.acts) + if err.None? then [Unlink(d, base)] else []
    ensures if err.None? then h.pc == Ended(Removing(at), Removed) else RemovalFailed(h.pc, at)
    ensures h.trail == old(h.trail) + if err.None? then [Moment(h.fs, h.calls)] else []
    ensures h.alone && err.Some? ==> h.fs == old(h.fs)
    ensures h.alone && err.None? ==> RegularSpec(old(h.fs), d, base).Ok? && h.fs == Unlinked(old(h.fs), d, base)
    ensures h.alone && (h.faults == old(h.faults) || err == Some(NotExist)) && err.Some? ==>
      RegularSpec(old(h.fs), d, base) == Err(err.value)
  {
    at := Place(d, base);
    h.pc := Started(Removing(at));
    var info := RegularInfo(h, d, base);
    if info.Err? {
      h.pc := Return(h.pc);
      return Some(info.error), at;
    }
    assert SawFile(h.sights, d, base, info.value.ino);
    err := RemoveSighted(h, d, base);
  }

  predicate RemovalFailed(pc: Pc, at: Place) {
    pc == Ended(Removing(at), Failed) || pc == Ended(Removing(at), Absent)
  }

  method RemoveSighted(h: Machine, d: nat, base: string) returns (err: Option<Error>)
    requires h.Valid() && IsDir(h.fs, d) && h.pc.Sighted? && h.pc.role == Removing(Place(d, base))
    modifies h`fs, h`acts, h`trail, h`faults, h`pc
    ensures h.Valid() && KindsKept(old(h.fs), h.fs) && old(h.faults) <= h.faults
    ensures h.acts == old(h.acts) + if err.None? then [Unlink(d, base)] else []
    ensures h.pc == Ended(Removing(Place(d, base)), if err.None? then Removed else Failed)
    ensures h.trail == old(h.trail) + if err.None? then [Moment(h.fs, h.calls)] else []
    ensures h.alone && err.Some? ==> h.fs == old(h.fs)
    ensures h.alone && err.None? ==> h.fs == Unlinked(old(h.fs), d, base)
    ensures h.alone && h.faults == old(h.faults) && RegularSpec(old(h.fs), d, base).Ok? ==> err.None?
    ensures h.alone && RegularSpec(old(h.fs), d, base).Ok? ==> err != Some(NotExist)
  {
    ghost var was, act;
    err, was, act := h.RemoveEntry(d, base);
    if err.Some? {
      h.pc := Return(h.pc);
    }
  }
}
