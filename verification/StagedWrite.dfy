/** WriteSecureAt: stage the data in a fresh file, then rename it into place. */
module StagedWrite {
  import opened Basics
  import opened Filesystem
  import opened Protocol
  import opened Paths
  import opened Provider
  import opened Host
  import opened StoreSpec
  import opened Replacement
  import opened Rooted

  /** What the staged file is being made of: where it stands, under which name,
      in which inode, for which data. */
  datatype Job = Job(f: Fs, d: nat, t: string, i: nat, data: Bytes)

  ghost predicate Staged(s: Fs, j: Job) {
    InStaging(j.f, s, j.d, j.t, j.i, j.data)
  }

  ghost predicate TrailStaged(before: seq<Moment>, after: seq<Moment>, calls: seq<Remote>, j: Job) {
    before <= after && forall k | |before| <= k < |after| :: Staged(after[k].fs, j) && after[k].calls == calls
  }

  /** What filling the staged file does. */
  predicate FillActs(before: seq<Call>, after: seq<Call>, i: nat) {
    before <= after && forall k | |before| <= k < |after| ::
      after[k] == Chmod(i, FILE_PERM) || (after[k].Write? && after[k].ino == i)
  }

  /** What a write does besides walking: it makes one staging file, fills it,
      renames it onto the destination and takes its name away. */
  predicate OwnAct(c: Call, at: Place, t: string, i: nat) {
    match c
    case Create(d, n, ino, _) => d == at.dir && n == t && ino == i
    case Chmod(ino, mode) => ino == i && mode == FILE_PERM
    case Write(ino, _, _) => ino == i
    case Rename(d, from, to) => d == at.dir && from == t && to == at.base
    case Unlink(d, n) => d == at.dir && n == t
    case _ => false
  }

  predicate OwnActs(before: seq<Call>, after: seq<Call>, at: Place, t: string, i: nat) {
    before <= after && forall k | |before| <= k < |after| :: OwnAct(after[k], at, t, i)
  }

  /** Nothing, or all of it on one file this very call made exclusively under a
      staging name. */
  predicate StagedOnly(before: seq<Call>, after: seq<Call>, at: Place) {
    before == after
    || (|before| < |after| && after[|before|].Create? && IsStaging(after[|before|].name)
        && OwnActs(before, after, at, after[|before|].name, after[|before|].ino))
  }

  lemma FillOn(t0: seq<Call>, t1: seq<Call>, t2: seq<Call>, i: nat)
    requires (t1 == t0 || t1 == t0 + [Chmod(i, FILE_PERM)]) && FillActs(t1, t2, i)
    ensures FillActs(t0, t2, i)
  {
  }

  lemma FilledOn(t0: seq<Call>, t1: seq<Call>, t2: seq<Call>, at: Place, t: string, i: nat)
    requires FillActs(t0, t1, i) && OwnActs(t1, t2, at, t, i)
    ensures OwnActs(t0, t2, at, t, i)
  {
    forall k | |t0| <= k < |t2| ensures OwnAct(t2[k], at, t, i) {
      assert k < |t1| ==> t2[k] == t1[k];
    }
  }

  lemma RenamedOwn(before: seq<Call>, after: seq<Call>, at: Place, t: string, i: nat)
    requires var renamed := before + [Rename(at.dir, t, at.base)];
      after == renamed || after == renamed + [Unlink(at.dir, t)]
    ensures OwnActs(before, after, at, t, i)
  {
  }

  lemma MadeOn(t0: seq<Call>, t1: seq<Call>, t2: seq<Call>, at: Place, t: string, i: nat)
    requires IsStaging(t) && (exists m :: t1 == t0 + [Create(at.dir, t, i, m)]) && OwnActs(t1, t2, at, t, i)
    ensures StagedOnly(t0, t2, at)
  {
    assert t2[|t0|] == t1[|t0|];
  }

  /** Permissions of the staged file, before a byte of the data is in it. */
  method StageMode(h: Machine, i: nat, ghost j: Job) returns (ok: bool)
    requires h.Valid() && IsFile(h.fs, i) && h.pc.Staging? && h.pc.ino == i && j.i == i
    requires h.alone ==> Staged(h.fs, j) && DataOf(h.fs, i) == []
    modifies h`fs, h`acts, h`trail, h`faults, h`pc, h`sights
    ensures h.Valid() && KindsKept(old(h.fs), h.fs) && h.pc == old(h.pc)
    ensures h.acts == old(h.acts) || h.acts == old(h.acts) + [Chmod(i, FILE_PERM)]
    ensures old(h.sights) <= h.sights
    ensures if ok then h.faults == old(h.faults) else h.faults > old(h.faults)
    ensures h.alone ==> Staged(h.fs, j) && (ok ==> h.fs.nodes[i] == Inode(FILE_PERM, Regular([])))
    ensures h.alone ==> TrailStaged(old(h.trail), h.trail, h.calls, j)
  {
    var stat := h.Fstat(i);
    if stat.Err? {
      return false;
    }
    if h.alone {
      ChmodStages(j.f, h.fs, j.d, j.t, i, j.data);
    }
    var err, was, act := SecurePermissions(h, i, stat.value, FILE_PERM, true);
    ok := err.None?;
  }

  /** Write: as many write(2) calls as it takes. */
  method StageBytes(h: Machine, i: nat, data: Bytes, ghost j: Job) returns (ok: bool)
    requires h.Valid() && IsFile(h.fs, i) && h.pc.Staging? && h.pc.ino == i && h.pc.written == [] && j.i == i
    requires h.pc.role.Writing? && h.pc.role.data == data && j.data == data
    requires h.alone ==> Staged(h.fs, j) && h.fs.nodes[i] == Inode(FILE_PERM, Regular([]))
    modifies h`fs, h`acts, h`trail, h`faults, h`pc
    ensures h.Valid() && KindsKept(old(h.fs), h.fs)
    ensures FillActs(old(h.acts), h.acts, i)
    ensures h.pc.Staging? && h.pc == old(h.pc).(written := h.pc.written) && (ok ==> h.pc.written == data)
    ensures if ok then h.faults == old(h.faults) else h.faults > old(h.faults)
    ensures h.alone ==> Staged(h.fs, j) && (ok ==> h.fs.nodes[i] == Inode(FILE_PERM, Regular(data)))
    ensures h.alone ==> TrailStaged(old(h.trail), h.trail, h.calls, j)
  {
    var n := 0;
    while n < |data|
      invariant n <= |data|
      invariant h.Valid() && IsFile(h.fs, i) && KindsKept(old(h.fs), h.fs)
      invariant FillActs(old(h.acts), h.acts, i)
      invariant h.pc == old(h.pc).(written := data[..n]) && h.faults == old(h.faults)
      invariant h.alone ==> Staged(h.fs, j) && h.fs.nodes[i] == Inode(FILE_PERM, Regular(data[..n]))
      invariant h.alone ==> TrailStaged(old(h.trail), h.trail, h.calls, j)
    {
      var k;
      k, ok := StageChunk(h, i, data, n, j);
      if !ok {
        return;
      }
      n := n + k;
    }
    ok := true;
  }

  method StageChunk(h: Machine, i: nat, data: Bytes, n: nat, ghost j: Job) returns (k: nat, ok: bool)
    requires h.Valid() && IsFile(h.fs, i) && n < |data| && j.i == i && j.data == data
    requires h.pc.Staging? && h.pc.ino == i && h.pc.written == data[..n] && h.pc.role.Writing? && h.pc.role.data == data
    requires h.alone ==> Staged(h.fs, j) && h.fs.nodes[i] == Inode(FILE_PERM, Regular(data[..n]))
    modifies h`fs, h`acts, h`trail, h`faults, h`pc
    ensures h.Valid() && KindsKept(old(h.fs), h.fs)
    ensures ok ==> 0 < k <= |data| - n
    ensures h.acts == old(h.acts) + if ok then [Write(i, n, data[n..n + k])] else []
    ensures h.pc == if ok then old(h.pc).(written := data[..n + k]) else old(h.pc)
    ensures h.faults == old(h.faults) + if ok then 0 else 1
    ensures h.alone ==> Staged(h.fs, j) && (ok ==> h.fs.nodes[i] == Inode(FILE_PERM, Regular(data[..n + k])))
    ensures h.alone ==> TrailStaged(old(h.trail), h.trail, h.calls, j)
  {
    ghost var was, act;
    k, ok, was, act := h.WriteSome(i, n, data[n..]);
    if ok {
      assert data[n..][..k] == data[n..n + k];
      assert data[..n] + data[n..n + k] == data[..n + k];
      if h.alone {
        WriteStages(j.f, was, j.d, j.t, i, data, k);
      }
    }
  }

  /** Sync and close; only then is the staged file fit to be renamed. */
  method SealStaged(h: Machine, i: nat) returns (ok: bool)
    requires h.Valid() && IsFile(h.fs, i)
    modifies h`fs, h`faults, h`pc
    ensures h.Valid() && KindsKept(old(h.fs), h.fs) && (h.alone ==> h.fs == old(h.fs))
    ensures h.pc == if ok then Advance(old(h.pc), Seal(i)) else old(h.pc)
    ensures if ok then h.faults == old(h.faults) else h.faults > old(h.faults)
  {
    ok := h.Settle();
    if !ok {
      return;
    }
    ok := h.Settle();
    if ok {
      h.Note(Seal(i));
    }
  }

  /** Mode, bytes, sync and close of the staged file. */
  method FillStaged(h: Machine, i: nat, data: Bytes, ghost j: Job) returns (ok: bool)
    requires h.Valid() && IsFile(h.fs, i) && j.i == i && j.data == data
    requires h.pc.Staging? && h.pc.ino == i && h.pc.written == [] && h.pc.role.Writing? && h.pc.role.data == data
    requires h.alone ==> Staged(h.fs, j) && DataOf(h.fs, i) == []
    modifies h`fs, h`acts, h`trail, h`faults, h`pc, h`sights
    ensures h.Valid() && KindsKept(old(h.fs), h.fs)
    ensures FillActs(old(h.acts), h.acts, i)
    ensures old(h.sights) <= h.sights
    ensures if ok then h.pc == Sealed(old(h.pc.role), old(h.pc.temp), i)
      else h.pc.Staging? && h.pc == old(h.pc).(written := h.pc.written)
    ensures if ok then h.faults == old(h.faults) else h.faults > old(h.faults)
    ensures h.alone ==> Staged(h.fs, j) && (ok ==> h.fs.nodes[i] == Inode(FILE_PERM, Regular(data)))
    ensures h.alone ==> TrailStaged(old(h.trail), h.trail, h.calls, j)
  {
    ok := StageMode(h, i, j);
    if !ok {
      return;
    }
    ghost var acts := h.acts;
    ok := StageBytes(h, i, data, j);
    FillOn(old(h.acts), acts, h.acts, i);
    if !ok {
      return;
    }
    ok := SealStaged(h, i);
  }

  /** Any new moment is a point of a write of `data` to `at` that began at `a`,
      and still has the directories of `f`. */
  ghost predicate TrailInFlight(before: seq<Moment>, after: seq<Moment>, calls: seq<Remote>, a: Fs, f: Fs, at: Place,
                                data: Bytes)
  {
    before <= after
    && forall k | |before| <= k < |after| ::
         InFlight(a, after[k].fs, at, data) && KeepsDirs(f, after[k].fs) && after[k].calls == calls
  }

  lemma StagedTrail(before: seq<Moment>, after: seq<Moment>, calls: seq<Remote>, j: Job, a: Fs, at: Place)
    requires TrailStaged(before, after, calls, j)
    requires Closed(a) && Closed(j.f) && Prepared(a, j.f) && j.d == at.dir && Entry(j.f, j.d, j.t).None?
    requires IsStaging(j.t) && j.t != at.base
    ensures TrailInFlight(before, after, calls, a, j.f, at, j.data)
  {
    forall k | |before| <= k < |after| ensures InFlight(a, after[k].fs, at, j.data) && KeepsDirs(j.f, after[k].fs) {
      StagingInFlight(a, j.f, after[k].fs, j.t, j.i, at, j.data);
    }
  }

  /** The deferred removal of the staging name, and the return. */
  method CleanUp(h: Machine, d: nat, t: string, ghost j: Job, ghost clear: bool) returns (swept: bool)
    requires h.Valid() && IsDir(h.fs, d) && j.t == t && j.d == d
    requires (h.pc.Staging? || h.pc.Sealed?) && h.pc.temp == t && h.pc.role.Writing? && h.pc.role.at.dir == d
    requires clear ==> h.alone && Staged(h.fs, j) && Entry(j.f, d, t).None?
    modifies h`fs, h`acts, h`trail, h`faults, h`pc
    ensures h.Valid() && KindsKept(old(h.fs), h.fs) && old(h.faults) <= h.faults
    ensures h.acts == old(h.acts) || h.acts == old(h.acts) + [Unlink(d, t)]
    ensures h.pc == Ended(old(h.pc.role), Failed)
    ensures clear ==> h.fs == if swept then SweptFs(j.f, j.i, old(h.fs).nodes[j.i]) else old(h.fs)
    ensures clear && !swept ==> h.faults > old(h.faults)
    ensures clear ==> h.trail == old(h.trail) + if swept then [Moment(h.fs, h.calls)] else []
  {
    if clear {
      UnlinkSweeps(j.f, h.fs, d, t, j.i, j.data);
    }
    GivesUp(h.pc, d, t);
    var err, was, act := h.RemoveEntry(d, t);
    swept := err.None?;
    h.pc := Return(h.pc);
  }

  /** Rename over the destination, then the deferred removal, which finds the
      staging name gone. */
  method Promote(h: Machine, d: nat, t: string, base: string, ghost j: Job, ghost clear: bool) returns (ok: bool)
    requires h.Valid() && IsDir(h.fs, d) && j.t == t && j.d == d
    requires h.pc.Sealed? && h.pc.temp == t && h.pc.role == Writing(Place(d, base), j.data)
    requires clear ==>
      h.alone && Staged(h.fs, j) && h.fs.nodes[j.i] == Inode(FILE_PERM, Regular(j.data)) && Renamable(j, base)
    requires clear ==> Plain(base)
    modifies h`fs, h`acts, h`trail, h`faults, h`pc
    ensures h.Valid() && KindsKept(old(h.fs), h.fs) && old(h.faults) <= h.faults
    ensures !ok ==> h.acts == old(h.acts)
    ensures ok ==>
      var renamed := old(h.acts) + [Rename(d, t, base)];
      h.acts == renamed || h.acts == renamed + [Unlink(d, t)]
    ensures h.pc == if ok then Ended(old(h.pc.role), Replaced) else old(h.pc)
    ensures clear && ok ==> h.fs == Landed(j, base) && h.trail == old(h.trail) + [Moment(h.fs, h.calls)]
    ensures clear && !ok ==> h.fs == old(h.fs) && h.trail == old(h.trail) && h.faults > old(h.faults)
  {
    ok := RenameStaged(h, d, t, base, j, clear);
    if ok {
      DropName(h, d, t);
    }
  }

  /** The rename itself. */
  method RenameStaged(h: Machine, d: nat, t: string, base: string, ghost j: Job, ghost clear: bool) returns (ok: bool)
    requires h.Valid() && IsDir(h.fs, d) && j.t == t && j.d == d
    requires h.pc.Sealed? && h.pc.temp == t && h.pc.role == Writing(Place(d, base), j.data)
    requires clear ==>
      h.alone && Staged(h.fs, j) && h.fs.nodes[j.i] == Inode(FILE_PERM, Regular(j.data)) && Renamable(j, base)
    requires clear ==> Plain(base)
    modifies h`fs, h`acts, h`trail, h`faults, h`pc
    ensures h.Valid() && KindsKept(old(h.fs), h.fs) && old(h.faults) <= h.faults
    ensures h.acts == old(h.acts) + if ok then [Rename(d, t, base)] else []
    ensures h.pc == if ok then Swept(old(h.pc.role), t) else old(h.pc)
    ensures clear && ok ==> h.fs == Landed(j, base) && h.trail == old(h.trail) + [Moment(h.fs, h.calls)]
    ensures clear && !ok ==> h.fs == old(h.fs) && h.trail == old(h.trail) && h.faults > old(h.faults)
  {
    if clear {
      RenameLands(j.f, h.fs, d, t, j.i, base, j.data);
    }
    ghost var was, act;
    ok, was, act := h.RenameEntry(d, t, base);
  }

  /** The deferred removal after a rename. */
  method DropName(h: Machine, d: nat, t: string)
    requires h.Valid() && IsDir(h.fs, d) && h.pc.Swept? && h.pc.temp == t && h.pc.role.at.dir == d
    modifies h`fs, h`acts, h`trail, h`faults, h`pc
    ensures h.Valid() && KindsKept(old(h.fs), h.fs) && old(h.faults) <= h.faults
    ensures h.acts == old(h.acts) || h.acts == old(h.acts) + [Unlink(d, t)]
    ensures h.pc == Ended(old(h.pc.role), Replaced)
    ensures h.alone && Entry(old(h.fs), d, t).None? ==> h.fs == old(h.fs) && h.trail == old(h.trail)
  {
    var err, was, act := h.RemoveEntry(d, t);
    h.pc := Return(h.pc);
  }

  /** The staging name was free and the destination is no directory. */
  ghost predicate Renamable(j: Job, base: string) {
    && Closed(j.f) && IsDir(j.f, j.d) && j.i !in j.f.nodes && Entry(j.f, j.d, j.t).None? && j.t != base
    && (Entry(j.f, j.d, base).Some? ==> !IsDir(j.f, Entry(j.f, j.d, base).value))
  }

  ghost function Landed(j: Job, base: string): Fs
    requires Renamable(j, base)
  {
    StagedFs(j.f, j.d, base, j.i, Inode(FILE_PERM, Regular(j.data)))
  }

  /** What a write that returned left of `f`, its parent's state before. */
  ghost predicate Settled(a: Fs, f: Fs, s: Fs, at: Place, data: Bytes, ok: bool, ino: nat) {
    && InFlight(a, s, at, data) && KeepsDirs(f, s)
    && (if ok
        then IsDir(f, at.dir) && ino !in f.nodes && Delivered(a, s, at, data)
          && s == StagedFs(f, at.dir, at.base, ino, Inode(FILE_PERM, Regular(data)))
        else Entry(s, at.dir, at.base) == Entry(f, at.dir, at.base))
  }

  /** A write that failed after its staging file was made. */
  method Abandon(h: Machine, d: nat, t: string, i: nat, base: string, data: Bytes, ghost j: Job, ghost a: Fs,
                 ghost clear: bool)
    requires h.Valid() && IsDir(h.fs, d) && j == Job(j.f, d, t, i, data) && IsStaging(t)
    requires (h.pc.Staging? || h.pc.Sealed?) && h.pc.temp == t && h.pc.role == Writing(Place(d, base), data)
    requires clear ==> h.alone && Staged(h.fs, j) && Renamable(j, base) && Closed(a) && Prepared(a, j.f)
    modifies h`fs, h`acts, h`trail, h`faults, h`pc
    ensures h.Valid() && KindsKept(old(h.fs), h.fs) && old(h.faults) <= h.faults
    ensures OwnActs(old(h.acts), h.acts, Place(d, base), t, i)
    ensures h.pc == Ended(Writing(Place(d, base), data), Failed)
    ensures clear ==> TrailInFlight(old(h.trail), h.trail, h.calls, a, j.f, Place(d, base), data)
    ensures clear ==> Settled(a, j.f, h.fs, Place(d, base), data, false, i)
    ensures clear && h.faults == old(h.faults) ==> NothingStaged(a, h.fs)
  {
    ghost var filled := h.fs;
    var swept := CleanUp(h, d, t, j, clear);
    if clear {
      AbandonedSettled(old(h.trail), h.calls, a, filled, j, base, swept);
    }
  }

  /** What is left of a write that made no staging file. */
  lemma NothingReplaced(a: Fs, f: Fs, at: Place, data: Bytes)
    requires Closed(a) && Prepared(a, f)
    ensures Settled(a, f, f, at, data, false, 0) && NothingStaged(a, f)
  {
    PreparedInFlight(a, f, at, data);
  }

  /** What is left of an abandoned write: nothing, or, if its removal failed, its
      staging file. */
  lemma AbandonedSettled(before: seq<Moment>, calls: seq<Remote>, a: Fs, s: Fs, j: Job, base: string, swept: bool)
    requires Closed(a) && Prepared(a, j.f) && Staged(s, j) && Renamable(j, base) && IsStaging(j.t)
    ensures var s' := if swept then SweptFs(j.f, j.i, s.nodes[j.i]) else s;
      && Settled(a, j.f, s', Place(j.d, base), j.data, false, j.i)
      && (swept ==> NothingStaged(a, s'))
      && var after := before + if swept then [Moment(s', calls)] else [];
         TrailInFlight(before, after, calls, a, j.f, Place(j.d, base), j.data)
  {
    if swept {
      SweptSettled(a, s, j, base);
    } else {
      StagingSettled(a, s, j, base);
    }
  }

  lemma SweptSettled(a: Fs, s: Fs, j: Job, base: string)
    requires Closed(a) && Prepared(a, j.f) && Staged(s, j) && Renamable(j, base)
    ensures var s' := SweptFs(j.f, j.i, s.nodes[j.i]);
      Settled(a, j.f, s', Place(j.d, base), j.data, false, j.i) && NothingStaged(a, s')
  {
    SweptInFlight(a, j.f, j.i, s.nodes[j.i], Place(j.d, base), j.data);
  }

  lemma StagingSettled(a: Fs, s: Fs, j: Job, base: string)
    requires Closed(a) && Prepared(a, j.f) && Staged(s, j) && Renamable(j, base) && IsStaging(j.t)
    ensures Settled(a, j.f, s, Place(j.d, base), j.data, false, j.i)
  {
    StagingInFlight(a, j.f, s, j.t, j.i, Place(j.d, base), j.data);
  }

  /** What is left of a write that landed. */
  lemma LandedSettled(before: seq<Moment>, calls: seq<Remote>, a: Fs, j: Job, base: string)
    requires Closed(a) && Prepared(a, j.f) && Renamable(j, base)
    ensures Settled(a, j.f, Landed(j, base), Place(j.d, base), j.data, true, j.i)
    ensures TrailInFlight(before, before + [Moment(Landed(j, base), calls)], calls, a, j.f, Place(j.d, base), j.data)
  {
    LandedInFlight(a, j.f, j.i, Place(j.d, base), j.data);
  }

  lemma InFlightOn(t0: seq<Moment>, t1: seq<Moment>, t2: seq<Moment>, calls: seq<Remote>, a: Fs, f: Fs, at: Place,
                   data: Bytes)
    requires TrailInFlight(t0, t1, calls, a, f, at, data) && TrailInFlight(t1, t2, calls, a, f, at, data)
    ensures TrailInFlight(t0, t2, calls, a, f, at, data)
  {
  }

  /** A filled staging file is renamed into place, or taken away again. */
  method PromoteOrAbandon(h: Machine, d: nat, t: string, i: nat, base: string, data: Bytes, ghost j: Job, ghost a: Fs,
                          ghost clear: bool)
    returns (ok: bool)
    requires h.Valid() && IsDir(h.fs, d) && j == Job(j.f, d, t, i, data) && IsStaging(t)
    requires h.pc == Sealed(Writing(Place(d, base), data), t, i)
    requires clear ==> h.alone && Staged(h.fs, j) && h.fs.nodes[i] == Inode(FILE_PERM, Regular(data))
    requires clear ==> Renamable(j, base) && Plain(base) && Closed(a) && Prepared(a, j.f)
    modifies h`fs, h`acts, h`trail, h`faults, h`pc
    ensures h.Valid() && KindsKept(old(h.fs), h.fs) && old(h.faults) <= h.faults
    ensures OwnActs(old(h.acts), h.acts, Place(d, base), t, i)
    ensures h.pc == Ended(Writing(Place(d, base), data), if ok then Replaced else Failed)
    ensures clear ==> TrailInFlight(old(h.trail), h.trail, h.calls, a, j.f, Place(d, base), data)
    ensures clear ==> Settled(a, j.f, h.fs, Place(d, base), data, ok, i)
    ensures clear && !ok ==> h.faults > old(h.faults) && (h.faults == old(h.faults) + 1 ==> NothingStaged(a, h.fs))
  {
    ok := Promote(h, d, t, base, j, clear);
    if ok {
      RenamedOwn(old(h.acts), h.acts, Place(d, base), t, i);
    }
    if !ok {
      Abandon(h, d, t, i, base, data, j, a, clear);
    } else if clear {
      LandedSettled(old(h.trail), h.calls, a, j, base);
    }
  }

  /** From the exclusively created staging file to the end of the call. */
  method FinishReplace(h: Machine, d: nat, t: string, i: nat, base: string, data: Bytes, ghost j: Job, ghost a: Fs,
                       ghost clear: bool)
    returns (ok: bool)
    requires h.Valid() && IsDir(h.fs, d) && IsFile(h.fs, i) && j == Job(j.f, d, t, i, data) && IsStaging(t)
    requires h.pc == Staging(Writing(Place(d, base), data), t, i, [])
    requires h.alone ==> Staged(h.fs, j) && DataOf(h.fs, i) == []
    requires clear ==> h.alone && Renamable(j, base) && Plain(base) && Closed(a) && Prepared(a, j.f)
    modifies h`fs, h`acts, h`trail, h`faults, h`pc, h`sights
    ensures h.Valid() && KindsKept(old(h.fs), h.fs) && old(h.faults) <= h.faults
    ensures OwnActs(old(h.acts), h.acts, Place(d, base), t, i)
    ensures old(h.sights) <= h.sights
    ensures h.pc == Ended(Writing(Place(d, base), data), if ok then Replaced else Failed)
    ensures clear ==> TrailInFlight(old(h.trail), h.trail, h.calls, a, j.f, Place(d, base), data)
    ensures clear ==> Settled(a, j.f, h.fs, Place(d, base), data, ok, i)
    ensures clear && !ok ==> h.faults > old(h.faults) && (h.faults == old(h.faults) + 1 ==> NothingStaged(a, h.fs))
  {
    ok := FillStaged(h, i, data, j);
    ghost var filled, acts, f := h.trail, h.acts, h.fs;
    if ok {
      ok := PromoteOrAbandon(h, d, t, i, base, data, j, a, clear);
    } else {
      Abandon(h, d, t, i, base, data, j, a, clear);
    }
    KindsKeptOn(old(h.fs), f, h.fs);
    FilledOn(old(h.acts), acts, h.acts, Place(d, base), t, i);
    if clear {
      StagedTrail(old(h.trail), filled, h.calls, j, a, Place(d, base));
      InFlightOn(old(h.trail), filled, h.trail, h.calls, a, j.f, Place(d, base), data);
    }
  }

  /** Some directory holds a name of the staging kind. */
  ghost predicate StagingLeft(fs: Fs) {
    exists d, t :: IsStaging(t) && Entry(fs, d, t).Some?
  }

  /** A fresh random name and its exclusive creation. */
  method CreateStaging(h: Machine, d: nat, at: Place, data: Bytes) returns (file: Result<nat>, t: string, ghost j: Job)
    requires h.Valid() && IsDir(h.fs, d) && at.dir == d && h.pc == Started(Writing(at, data))
    modifies h`fs, h`acts, h`trail, h`faults, h`pc
    ensures h.Valid() && KindsKept(old(h.fs), h.fs) && old(h.faults) <= h.faults
    ensures IsStaging(t)
    ensures file.Err? ==> h.acts == old(h.acts) && h.pc == old(h.pc) && h.trail == old(h.trail)
    ensures file.Ok? ==> exists m :: h.acts == old(h.acts) + [Create(d, t, file.value, m)]
    ensures file.Ok? ==>
      h.pc == Staging(Writing(at, data), t, file.value, []) && h.trail == old(h.trail) + [Moment(h.fs, h.calls)]
    ensures file.Ok? ==> j == Job(j.f, d, t, file.value, data) && IsFile(h.fs, file.value) && j.i !in j.f.nodes
    ensures h.alone && file.Ok? ==>
      j.f == old(h.fs) && Staged(h.fs, j) && DataOf(h.fs, file.value) == [] && Entry(j.f, d, t).None?
    ensures h.alone && file.Err? ==>
      h.fs == old(h.fs) && (h.faults == old(h.faults) ==> file.error == Exist && StagingLeft(h.fs))
  {
    var suffix: string := *;
    t := STAGING_PREFIX + suffix;
    assert t[1] == 'c' && |t| > 2;
    ghost var was, act;
    file, was, act := h.CreateFile(d, t);
    j := Job(was, d, t, 0, data);
    if file.Ok? {
      j := Job(was, d, t, file.value, data);
      CreateStages(was, d, t, file.value, act.value.mode, data);
    }
  }

  lemma CreatedInFlight(before: seq<Moment>, calls: seq<Remote>, a: Fs, s: Fs, j: Job, at: Place)
    requires Closed(a) && Closed(j.f) && Prepared(a, j.f) && Staged(s, j) && Entry(j.f, j.d, j.t).None?
    requires j.d == at.dir && IsStaging(j.t) && j.t != at.base
    ensures TrailInFlight(before, before + [Moment(s, calls)], calls, a, j.f, at, j.data)
  {
    StagingInFlight(a, j.f, s, j.t, j.i, at, j.data);
  }

  /** The rest of the call, its creation of the staging file included. */
  method FinishCreated(h: Machine, d: nat, t: string, i: nat, base: string, data: Bytes, ghost j: Job, ghost a: Fs,
                       ghost clear: bool, ghost before: seq<Moment>, ghost acts: seq<Call>)
    returns (ok: bool)
    requires h.Valid() && IsDir(h.fs, d) && IsFile(h.fs, i) && j == Job(j.f, d, t, i, data) && IsStaging(t)
    requires h.pc == Staging(Writing(Place(d, base), data), t, i, [])
    requires h.trail == before + [Moment(h.fs, h.calls)] && exists m :: h.acts == acts + [Create(d, t, i, m)]
    requires h.alone ==> Staged(h.fs, j) && DataOf(h.fs, i) == []
    requires clear ==> h.alone && Renamable(j, base) && Plain(base) && Closed(a) && Prepared(a, j.f)
    modifies h`fs, h`acts, h`trail, h`faults, h`pc, h`sights
    ensures h.Valid() && KindsKept(old(h.fs), h.fs) && old(h.faults) <= h.faults
    ensures StagedOnly(acts, h.acts, Place(d, base))
    ensures old(h.sights) <= h.sights
    ensures h.pc == Ended(Writing(Place(d, base), data), if ok then Replaced else Failed)
    ensures clear ==> TrailInFlight(before, h.trail, h.calls, a, j.f, Place(d, base), data)
    ensures clear ==> Settled(a, j.f, h.fs, Place(d, base), data, ok, i)
    ensures clear && !ok ==> h.faults > old(h.faults) && (h.faults == old(h.faults) + 1 ==> NothingStaged(a, h.fs))
  {
    ok := FinishReplace(h, d, t, i, base, data, j, a, clear);
    MadeOn(acts, old(h.acts), h.acts, Place(d, base), t, i);
    if clear {
      CreatedInFlight(before, h.calls, a, old(h.fs), j, Place(d, base));
      InFlightOn(before, old(h.trail), h.trail, h.calls, a, j.f, Place(d, base), data);
    }
  }

  /** WriteSecureAt from the staging name on. */
  method ReplaceEntry(h: Machine, d: nat, base: string, data: Bytes, ghost a: Fs)
    returns (err: Option<Error>, ghost ino: nat)
    requires h.Valid() && IsDir(h.fs, d)
    requires h.alone ==> Closed(a) && Prepared(a, h.fs) && Plain(base)
    requires h.alone && Entry(h.fs, d, base).Some? ==> !IsDir(h.fs, Entry(h.fs, d, base).value)
    requires h.pc == Started(Writing(Place(d, base), data))
    modifies h`fs, h`acts, h`trail, h`faults, h`pc, h`sights
    ensures h.Valid() && KindsKept(old(h.fs), h.fs) && old(h.faults) <= h.faults
    ensures StagedOnly(old(h.acts), h.acts, Place(d, base))
    ensures old(h.sights) <= h.sights
    ensures h.pc == Ended(Writing(Place(d, base), data), if err.None? then Replaced else Failed)
    ensures h.alone && !IsStaging(base) ==>
      TrailInFlight(old(h.trail), h.trail, h.calls, a, old(h.fs), Place(d, base), data)
    ensures h.alone && !IsStaging(base) ==> Settled(a, old(h.fs), h.fs, Place(d, base), data, err.None?, ino)
    ensures h.alone && !IsStaging(base) && err.Some? && h.faults <= old(h.faults) + 1 ==> NothingStaged(a, h.fs)
    ensures h.alone && !IsStaging(base) && h.faults == old(h.faults) ==>
      err == None || (err == Some(Exist) && StagingLeft(h.fs))
  {
    ghost var clear := h.alone && !IsStaging(base);
    var file, t, j := CreateStaging(h, d, Place(d, base), data);
    if file.Err? {
      h.pc := Return(h.pc);
      if clear {
        NothingReplaced(a, h.fs, Place(d, base), data);
      }
      return Some(file.error), 0;
    }
    ino := file.value;
    ghost var f := h.fs;
    var ok := FinishCreated(h, d, t, file.value, base, data, j, a, clear, old(h.trail), old(h.acts));
    KindsKeptOn(old(h.fs), f, h.fs);
    err := if ok then None else Some(Fault);
  }

  /** Whether anything stands in the way of a write: the directories on the way
      and the kind of file the name has, but not its absence. */
  function ObstacleSpec(fs: Fs, rootDir: string, name: RelPath): Option<Error>
    requires Closed(fs)
  {
    if !IsLocal(name) then Some(UnsafePath)
    else match DirectorySpec(fs, rootDir, Parents(name))
         case Err(e) => Some(e)
         case Ok(d) =>
           match RegularSpec(fs, d, BaseName(name))
           case Err(e) => if e == NotExist then None else Some(e)
           case Ok(_) => None
  }

  /** Nothing is in the way exactly when the directories are there and the owner's
      alone, and the destination is an ordinary name with a regular file or nothing. */
  lemma ObstacleMeans(fs: Fs, rootDir: string, name: RelPath)
    requires Closed(fs)
    ensures ObstacleSpec(fs, rootDir, name) == None <==>
      IsLocal(name)
      && exists d: nat ::
        DirectorySpec(fs, rootDir, Parents(name)) == Ok(d)
        && (HasRegular(fs, d, BaseName(name)) || NoEntry(fs, d, BaseName(name)))
  {
    if IsLocal(name) {
      var spec := DirectorySpec(fs, rootDir, Parents(name));
      assert spec.Ok? ==> IsDir(fs, spec.value);
    }
  }

  /** The name is an ordinary one, and free. */
  predicate NoEntry(fs: Fs, d: nat, n: string) {
    && n != "" && n != "." && n != ".."
    && d in fs.nodes && fs.nodes[d].node.Directory? && n !in fs.nodes[d].node.entries
  }

  /** What the destination holds is what it held, or nothing but a directory. */
  predicate DestinationKept(a: Fs, s: Fs, at: Place) {
    Entry(s, at.dir, at.base) == Entry(a, at.dir, at.base)
      || (Entry(a, at.dir, at.base).None? && !NewFile(a, s, at.dir, at.base))
  }

  lemma KeptThrough(a: Fs, f: Fs, s: Fs, at: Place)
    requires Closed(f) && Prepared(a, f) && KindsKept(f, s) && Entry(s, at.dir, at.base) == Entry(f, at.dir, at.base)
    ensures DestinationKept(a, s, at)
  {
    if Entry(a, at.dir, at.base).Some? {
      assert at.base in a.nodes[at.dir].node.entries;
    }
  }

  /** Destination names are not the store's own staging names. */
  predicate Undisguised(name: RelPath) {
    IsLocal(name) ==> !IsStaging(BaseName(name))
  }

  /** Whatever file is new is the written one, where the name leads. */
  ghost predicate Aimed(a: Fs, s: Fs, rootDir: string, name: RelPath, at: Place) {
    NothingStaged(a, s) || (IsLocal(name) && at.base == BaseName(name) && Parent(s, rootDir, name) == Some(at.dir))
  }

  /** A point of a write of `data` under this name. */
  ghost predicate InFlightNamed(a: Fs, s: Fs, rootDir: string, name: RelPath, at: Place, data: Bytes) {
    InFlight(a, s, at, data) && Aimed(a, s, rootDir, name, at)
  }

  ghost predicate TrailWriting(before: seq<Moment>, after: seq<Moment>, calls: seq<Remote>, a: Fs, rootDir: string,
                               name: RelPath, at: Place, data: Bytes)
  {
    before <= after && forall k | |before| <= k < |after| ::
      InFlightNamed(a, after[k].fs, rootDir, name, at, data) && after[k].calls == calls
  }

  lemma PreparedNamed(a: Fs, s: Fs, rootDir: string, name: RelPath, at: Place, data: Bytes)
    requires Closed(a) && Prepared(a, s)
    ensures InFlightNamed(a, s, rootDir, name, at, data) && NothingStaged(a, s) && DestinationKept(a, s, at)
  {
    PreparedInFlight(a, s, at, data);
  }

  lemma PreparedTrail(before: seq<Moment>, after: seq<Moment>, calls: seq<Remote>, a: Fs, rootDir: string,
                      name: RelPath, at: Place, data: Bytes)
    requires Closed(a) && TrailPrepared(before, after, a, calls)
    ensures TrailWriting(before, after, calls, a, rootDir, name, at, data)
  {
    forall k | |before| <= k < |after| ensures InFlightNamed(a, after[k].fs, rootDir, name, at, data) {
      PreparedNamed(a, after[k].fs, rootDir, name, at, data);
    }
  }

  lemma WritingOn(t0: seq<Moment>, t1: seq<Moment>, t2: seq<Moment>, calls: seq<Remote>, a: Fs, rootDir: string,
                  name: RelPath, at: Place, data: Bytes)
    requires TrailWriting(t0, t1, calls, a, rootDir, name, at, data)
    requires TrailWriting(t1, t2, calls, a, rootDir, name, at, data)
    ensures TrailWriting(t0, t2, calls, a, rootDir, name, at, data)
  {
  }

  lemma InFlightTrail(before: seq<Moment>, after: seq<Moment>, calls: seq<Remote>, a: Fs, f: Fs, rootDir: string,
                      name: RelPath, at: Place, data: Bytes)
    requires Closed(f) && IsLocal(name) && at.base == BaseName(name)
    requires DirectorySpec(f, rootDir, Parents(name)) == Ok(at.dir)
    requires TrailInFlight(before, after, calls, a, f, at, data)
    ensures TrailWriting(before, after, calls, a, rootDir, name, at, data)
  {
    forall k | |before| <= k < |after| ensures InFlightNamed(a, after[k].fs, rootDir, name, at, data) {
      ParentKept(f, after[k].fs, rootDir, name, at.dir);
    }
  }

  /** A settled replacement in terms of the name it is for. */
  lemma SettledNamed(a: Fs, f: Fs, s: Fs, rootDir: string, name: RelPath, at: Place, data: Bytes, ok: bool, ino: nat)
    requires Closed(f) && Closed(s) && IsLocal(name) && Plain(BaseName(name)) && Settled(a, f, s, at, data, ok, ino)
    requires DirectorySpec(f, rootDir, Parents(name)) == Ok(at.dir) && at.base == BaseName(name)
    requires DestinationFree(f, at)
    ensures InFlightNamed(a, s, rootDir, name, at, data) && DirectorySpec(s, rootDir, Parents(name)) == Ok(at.dir)
    ensures ok ==> ReadSpec(s, rootDir, name) == Ok(data)
  {
    ParentKept(f, s, rootDir, name, at.dir);
    DirectoryKept(f, s, rootDir, Parents(name));
    if ok {
      LandedReads(f, rootDir, name, ino, data);
    }
  }

  /** The parent handle was reached through directories Lstat vouched for. */
  predicate WalkedTo(sights: set<Sighting>, chain: seq<nat>, name: RelPath, d: nat)
    requires IsLocal(name)
  {
    Vetted(sights, chain, Parents(name)) && chain[|chain| - 1] == d
  }

  /** WriteSecureAt's look at the destination: regular, or not there yet. */
  method InspectDestination(h: Machine, d: nat, base: string, data: Bytes) returns (err: Option<Error>)
    requires h.Valid() && IsDir(h.fs, d)
    modifies h`fs, h`faults, h`pc, h`sights
    ensures h.Valid() && KindsKept(old(h.fs), h.fs) && old(h.faults) <= h.faults && (h.alone ==> h.fs == old(h.fs))
    ensures old(h.sights) <= h.sights
    ensures h.pc == if err.None? then Started(Writing(Place(d, base), data))
      else Ended(Writing(Place(d, base), data), Failed)
    ensures h.alone && err.None? ==> h.faults == old(h.faults) && Plain(base) && DestinationFree(h.fs, Place(d, base))
    ensures h.alone && err.Some? && h.faults == old(h.faults) ==>
      err != Some(NotExist) && RegularSpec(h.fs, d, base) == Err(err.value)
  {
    h.pc := Started(Writing(Place(d, base), data));
    var info := RegularInfo(h, d, base);
    if info.Err? && info.error != NotExist {
      h.pc := Return(h.pc);
      return Some(info.error);
    }
    err := None;
  }

  /** WriteSecureAt once it holds the parent. */
  method WriteInto(h: Machine, rootDir: string, name: RelPath, d: nat, data: Bytes, ghost a: Fs)
    returns (err: Option<Error>, ghost at: Place)
    requires h.Valid() && IsDir(h.fs, d) && IsLocal(name)
    requires h.alone ==> Closed(a) && Prepared(a, h.fs) && DirectorySpec(h.fs, rootDir, Parents(name)) == Ok(d)
    modifies h`fs, h`acts, h`trail, h`faults, h`pc, h`sights
    ensures h.Valid() && KindsKept(old(h.fs), h.fs) && old(h.faults) <= h.faults
    ensures StagedOnly(old(h.acts), h.acts, Place(d, BaseName(name)))
    ensures old(h.sights) <= h.sights
    ensures at == Place(d, BaseName(name))
    ensures h.pc == Ended(Writing(at, data), if err.None? then Replaced else Failed)
    ensures h.alone && Undisguised(name) ==> TrailWriting(old(h.trail), h.trail, h.calls, a, rootDir, name, at, data)
    ensures h.alone && Undisguised(name) ==> InFlightNamed(a, h.fs, rootDir, name, at, data)
    ensures h.alone && Undisguised(name) && err.None? ==>
      Delivered(a, h.fs, at, data) && ReadSpec(h.fs, rootDir, name) == Ok(data)
    ensures h.alone && Undisguised(name) ==> DirectorySpec(h.fs, rootDir, Parents(name)) == Ok(d)
    ensures h.alone && Undisguised(name) && err.Some? ==>
      Entry(h.fs, at.dir, at.base) == Entry(old(h.fs), at.dir, at.base)
    ensures h.alone && Undisguised(name) && err.Some? && h.faults <= old(h.faults) + 1 ==> NothingStaged(a, h.fs)
    ensures h.alone && Undisguised(name) && err.Some? && h.faults == old(h.faults) ==>
      (err == Some(Exist) && StagingLeft(h.fs)) || err == ObstacleSpec(h.fs, rootDir, name)
  {
    at := Place(d, BaseName(name));
    err := InspectDestination(h, d, BaseName(name), data);
    if err.Some? {
      if h.alone {
        PreparedInFlight(a, h.fs, at, data);
      }
      return;
    }
    err := ReplaceNamed(h, rootDir, name, d, data, a);
  }

  /** ReplaceEntry in terms of the name. */
  method ReplaceNamed(h: Machine, rootDir: string, name: RelPath, d: nat, data: Bytes, ghost a: Fs)
    returns (err: Option<Error>)
    requires h.Valid() && IsDir(h.fs, d) && IsLocal(name) && h.pc == Started(Writing(Place(d, BaseName(name)), data))
    requires h.alone ==> Closed(a) && Prepared(a, h.fs) && DirectorySpec(h.fs, rootDir, Parents(name)) == Ok(d)
    requires h.alone ==> Plain(BaseName(name)) && DestinationFree(h.fs, Place(d, BaseName(name)))
    modifies h`fs, h`acts, h`trail, h`faults, h`pc, h`sights
    ensures h.Valid() && KindsKept(old(h.fs), h.fs) && old(h.faults) <= h.faults
    ensures StagedOnly(old(h.acts), h.acts, Place(d, BaseName(name)))
    ensures old(h.sights) <= h.sights
    ensures h.pc == Ended(Writing(Place(d, BaseName(name)), data), if err.None? then Replaced else Failed)
    ensures h.alone && Undisguised(name) ==>
      Written(old(h.trail), h, a, old(h.fs), rootDir, name, Place(d, BaseName(name)), data, err)
    ensures h.alone && Undisguised(name) && err.Some? && h.faults <= old(h.faults) + 1 ==> NothingStaged(a, h.fs)
    ensures h.alone && Undisguised(name) && h.faults == old(h.faults) ==>
      err == None || (err == Some(Exist) && StagingLeft(h.fs))
  {
    ghost var f := h.fs;
    ghost var ino;
    err, ino := ReplaceEntry(h, d, BaseName(name), data, a);
    if h.alone && Undisguised(name) {
      InFlightTrail(old(h.trail), h.trail, h.calls, a, f, rootDir, name, Place(d, BaseName(name)), data);
      SettledNamed(a, f, h.fs, rootDir, name, Place(d, BaseName(name)), data, err.None?, ino);
    }
  }

  /** What a write under a name from `f` on did, and at each moment. */
  ghost predicate Written(before: seq<Moment>, h: Machine, a: Fs, f: Fs, rootDir: string, name: RelPath, at: Place,
                          data: Bytes, err: Option<Error>)
    requires IsLocal(name) && Closed(h.fs)
    reads h
  {
    && TrailWriting(before, h.trail, h.calls, a, rootDir, name, at, data)
    && InFlightNamed(a, h.fs, rootDir, name, at, data)
    && DirectorySpec(h.fs, rootDir, Parents(name)) == Ok(at.dir)
    && (if err.None? then Delivered(a, h.fs, at, data) && ReadSpec(h.fs, rootDir, name) == Ok(data)
        else Entry(h.fs, at.dir, at.base) == Entry(f, at.dir, at.base))
  }

  /** Everything a write did: a walk along vetted handles, and then nothing but
      its own staging file in the handle the walk ended with. */
  predicate WroteOnly(before: seq<Call>, after: seq<Call>, sights: set<Sighting>, rootDir: string, chain: seq<nat>,
                      name: RelPath, at: Place)
    requires IsLocal(name)
  {
    exists n | |before| <= n <= |after| ::
      && Accounted(before, after[..n], sights, rootDir, chain, Parents(name))
      && StagedOnly(after[..n], after, at)
      && (n < |after| ==> chain != [] && at == Place(chain[|chain| - 1], BaseName(name)))
  }

  lemma WalkedOnly(before: seq<Call>, after: seq<Call>, sights: set<Sighting>, rootDir: string, chain: seq<nat>,
                   name: RelPath, at: Place)
    requires IsLocal(name) && Accounted(before, after, sights, rootDir, chain, Parents(name))
    ensures WroteOnly(before, after, sights, rootDir, chain, name, at)
  {
    assert after[..|after|] == after;
  }

  lemma WalkedAndWrote(before: seq<Call>, mid: seq<Call>, after: seq<Call>, walked: set<Sighting>,
                       sights: set<Sighting>, rootDir: string, chain: seq<nat>, name: RelPath, at: Place)
    requires IsLocal(name) && Accounted(before, mid, walked, rootDir, chain, Parents(name)) && walked <= sights
    requires StagedOnly(mid, after, at) && chain != [] && at == Place(chain[|chain| - 1], BaseName(name))
    ensures WroteOnly(before, after, sights, rootDir, chain, name, at)
  {
    assert after[..|mid|] == mid;
    VettedStays(walked, sights, chain, Parents(name)[..|chain| - 1]);
  }

  /** WriteSecureAt. */
  method WriteSecureAt(h: Machine, rootDir: string, name: RelPath, data: Bytes)
    returns (err: Option<Error>, ghost at: Place, ghost chain: seq<nat>)
    requires h.Valid()
    modifies h`fs, h`acts, h`trail, h`faults, h`pc, h`sights
    ensures h.Valid() && KindsKept(old(h.fs), h.fs) && old(h.faults) <= h.faults
    ensures Improper(name) ==>
      err == Some(UnsafePath) && h.acts == old(h.acts) && h.trail == old(h.trail) && h.fs == old(h.fs)
    ensures IsLocal(name) ==> WroteOnly(old(h.acts), h.acts, h.sights, rootDir, chain, name, at)
    ensures err.None? ==>
      IsLocal(name) && at == Place(at.dir, BaseName(name)) && h.pc == Ended(Writing(at, data), Replaced)
    ensures err.None? ==> WalkedTo(h.sights, chain, name, at.dir)
    ensures err.Some? ==> h.pc == Idle || h.pc == Ended(Writing(at, data), Failed)
    ensures h.pc.Ended? ==> IsLocal(name) && at.base == BaseName(name)
    ensures h.pc.Ended? && h.alone && Undisguised(name) ==> DirectorySpec(h.fs, rootDir, Parents(name)) == Ok(at.dir)
    ensures h.pc == Idle ==> at == Place(0, "")
    ensures h.alone && Undisguised(name) ==>
      TrailWriting(old(h.trail), h.trail, h.calls, old(h.fs), rootDir, name, at, data)
    ensures h.alone && Undisguised(name) ==> InFlightNamed(old(h.fs), h.fs, rootDir, name, at, data)
    ensures h.alone && Undisguised(name) && err.None? ==>
      Delivered(old(h.fs), h.fs, at, data) && ReadSpec(h.fs, rootDir, name) == Ok(data)
    ensures h.alone && Undisguised(name) && err.Some? ==> DestinationKept(old(h.fs), h.fs, at)
    ensures h.alone && Undisguised(name) && err.Some? && h.faults <= old(h.faults) + 1 ==>
      NothingStaged(old(h.fs), h.fs)
    ensures h.alone && Undisguised(name) && err.Some? && h.faults == old(h.faults) ==>
      (err == Some(Exist) && StagingLeft(h.fs)) || err == ObstacleSpec(h.fs, rootDir, name)
  {
    var d, base;
    at := Place(0, "");
    d, base, chain := OpenForWriting(h, rootDir, name, data);
    if d.Err? {
      return Some(d.error), at, chain;
    }
    ghost var walked := h.fs;
    ghost var acts, trail := old(h.acts), old(h.trail);
    err, at := WriteBelow(h, rootDir, name, d.value, data, old(h.fs), acts, trail, chain);
    KindsKeptOn(old(h.fs), walked, h.fs);
  }

  /** WriteSecureAt behind its walk, of which all that is past is given. */
  method WriteBelow(h: Machine, rootDir: string, name: RelPath, d: nat, data: Bytes, ghost was: Fs,
                    ghost acts: seq<Call>, ghost trail: seq<Moment>, ghost chain: seq<nat>)
    returns (err: Option<Error>, ghost at: Place)
    requires h.Valid() && IsDir(h.fs, d) && IsLocal(name) && WalkedTo(h.sights, chain, name, d)
    requires Accounted(acts, h.acts, h.sights, rootDir, chain, Parents(name))
    requires h.alone ==> Closed(was) && Prepared(was, h.fs) && DirectorySpec(h.fs, rootDir, Parents(name)) == Ok(d)
    requires h.alone ==>
      TrailWriting(trail, h.trail, h.calls, was, rootDir, name, Place(d, BaseName(name)), data)
    modifies h`fs, h`acts, h`trail, h`faults, h`pc, h`sights
    ensures h.Valid() && KindsKept(old(h.fs), h.fs) && old(h.faults) <= h.faults
    ensures WroteOnly(acts, h.acts, h.sights, rootDir, chain, name, at)
    ensures at == Place(d, BaseName(name)) && WalkedTo(h.sights, chain, name, d)
    ensures h.pc == Ended(Writing(at, data), if err.None? then Replaced else Failed)
    ensures h.alone && Undisguised(name) ==> DirectorySpec(h.fs, rootDir, Parents(name)) == Ok(d)
    ensures h.alone && Undisguised(name) ==> TrailWriting(trail, h.trail, h.calls, was, rootDir, name, at, data)
    ensures h.alone && Undisguised(name) ==> InFlightNamed(was, h.fs, rootDir, name, at, data)
    ensures h.alone && Undisguised(name) && err.None? ==>
      Delivered(was, h.fs, at, data) && ReadSpec(h.fs, rootDir, name) == Ok(data)
    ensures h.alone && Undisguised(name) && err.Some? ==> DestinationKept(was, h.fs, at)
    ensures h.alone && Undisguised(name) && err.Some? && h.faults <= old(h.faults) + 1 ==> NothingStaged(was, h.fs)
    ensures h.alone && Undisguised(name) && err.Some? && h.faults == old(h.faults) ==>
      (err == Some(Exist) && StagingLeft(h.fs)) || err == ObstacleSpec(h.fs, rootDir, name)
  {
    ghost var walked, f, done, moments := h.sights, h.fs, h.acts, h.trail;
    err, at := WriteInto(h, rootDir, name, d, data, was);
    if h.alone && Undisguised(name) {
      WritingOn(trail, moments, h.trail, h.calls, was, rootDir, name, at, data);
      if err.Some? {
        KeptThrough(was, f, h.fs, at);
      }
    }
    VettedStays(walked, h.sights, chain, Parents(name));
    WalkedAndWrote(acts, done, h.acts, walked, h.sights, rootDir, chain, name, at);
  }

  /** WriteSecureAt's walk: where it fails nothing but directories has been touched. */
  method OpenForWriting(h: Machine, rootDir: string, name: RelPath, data: Bytes)
    returns (r: Result<nat>, base: string, ghost chain: seq<nat>)
    requires h.Valid()
    modifies h`fs, h`acts, h`trail, h`faults, h`pc, h`sights
    ensures h.Valid() && KindsKept(old(h.fs), h.fs) && old(h.faults) <= h.faults && h.pc == Idle
    ensures Improper(name) ==>
      r == Err(UnsafePath) && h.acts == old(h.acts) && h.trail == old(h.trail) && h.fs == old(h.fs)
    ensures r.Ok? ==> IsLocal(name) && IsDir(h.fs, r.value) && base == BaseName(name)
    ensures r.Ok? ==> WalkedTo(h.sights, chain, name, r.value)
    ensures IsLocal(name) ==> Accounted(old(h.acts), h.acts, h.sights, rootDir, chain, Parents(name))
    ensures !IsLocal(name) ==> h.acts == old(h.acts)
    ensures IsLocal(name) && r.Err? ==> WroteOnly(old(h.acts), h.acts, h.sights, rootDir, chain, name, Place(0, ""))
    ensures h.faults != old(h.faults) ==> r == Err(Fault)
    ensures h.alone ==> Prepared(old(h.fs), h.fs)
    ensures h.alone ==>
      var at := if r.Ok? then Place(r.value, base) else Place(0, "");
      TrailWriting(old(h.trail), h.trail, h.calls, old(h.fs), rootDir, name, at, data)
    ensures h.alone && r.Ok? ==> DirectorySpec(h.fs, rootDir, Parents(name)) == r
    ensures h.alone && r.Err? ==>
      InFlightNamed(old(h.fs), h.fs, rootDir, name, Place(0, ""), data) && NothingStaged(old(h.fs), h.fs)
    ensures h.alone && r.Err? ==> DestinationKept(old(h.fs), h.fs, Place(0, ""))
    ensures h.alone && r.Err? && h.faults == old(h.faults) ==> Some(r.error) == ObstacleSpec(h.fs, rootDir, name)
  {
    h.pc := Idle;
    r, base, chain := OpenParent(h, rootDir, name, true);
    ghost var at := if r.Ok? then Place(r.value, base) else Place(0, "");
    if h.alone {
      PreparedTrail(old(h.trail), h.trail, h.calls, old(h.fs), rootDir, name, at, data);
      PreparedNamed(old(h.fs), h.fs, rootDir, name, at, data);
    }
    if r.Err? && IsLocal(name) {
      WalkedOnly(old(h.acts), h.acts, h.sights, rootDir, chain, name, at);
    }
  }
}
