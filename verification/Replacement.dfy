/** How the file system looks at each point of a staged replacement, and why a
    crash at any of them leaves the old value or the new one. */
module Replacement {
  import opened Basics
  import opened Filesystem
  import opened Protocol
  import opened Paths
  import opened StoreSpec

  /** `f` with one staged file in it. */
  function StagedFs(f: Fs, d: nat, t: string, i: nat, inode: Inode): Fs
    requires IsDir(f, d) && i != d
  {
    Linked(Put(f, i, inode), d, t, i)
  }

  /** `f` with the staged file taken out again; the unlinked inode is left. */
  function SweptFs(f: Fs, i: nat, inode: Inode): Fs {
    Put(f, i, inode)
  }

  /** A staged file never shows more than its owner could see: part of the data
      under owner-only permissions. */
  predicate PartOf(inode: Inode, data: Bytes) {
    inode.node.Regular? && inode.node.data <= data && Within(inode.mode, FILE_PERM)
  }

  /** `s` is `f` with a file being staged. */
  ghost predicate InStaging(f: Fs, s: Fs, d: nat, t: string, i: nat, data: Bytes) {
    IsDir(f, d) && i !in f.nodes && i in s.nodes && PartOf(s.nodes[i], data) && s == StagedFs(f, d, t, i, s.nodes[i])
  }

  lemma CreateStages(f: Fs, d: nat, t: string, i: nat, m: Mode, data: Bytes)
    requires Enabled(f, Create(d, t, i, m))
    ensures InStaging(f, Apply(f, Create(d, t, i, m)), d, t, i, data)
  {
    var s := Apply(f, Create(d, t, i, m));
    assert s == StagedFs(f, d, t, i, s.nodes[i]);
  }

  lemma Restaged(f: Fs, d: nat, t: string, i: nat, a: Inode, b: Inode)
    requires IsDir(f, d) && i != d
    ensures Put(StagedFs(f, d, t, i, a), i, b) == StagedFs(f, d, t, i, b)
  {
    assert Put(StagedFs(f, d, t, i, a), i, b).nodes == StagedFs(f, d, t, i, b).nodes;
  }

  lemma ChmodStages(f: Fs, s: Fs, d: nat, t: string, i: nat, data: Bytes)
    requires InStaging(f, s, d, t, i, data)
    ensures InStaging(f, Apply(s, Chmod(i, FILE_PERM)), d, t, i, data)
    ensures Apply(s, Chmod(i, FILE_PERM)).nodes[i] == Inode(FILE_PERM, s.nodes[i].node)
  {
    Restaged(f, d, t, i, s.nodes[i], Inode(FILE_PERM, s.nodes[i].node));
  }

  lemma WriteStages(f: Fs, s: Fs, d: nat, t: string, i: nat, data: Bytes, n: nat)
    requires InStaging(f, s, d, t, i, data) && |DataOf(s, i)| + n <= |data|
    ensures var off := |DataOf(s, i)|;
      var c := Write(i, off, data[off..off + n]);
      InStaging(f, Apply(s, c), d, t, i, data)
      && Apply(s, c).nodes[i] == Inode(s.nodes[i].mode, Regular(data[..off + n]))
  {
    var off := |DataOf(s, i)|;
    var chunk := data[off..off + n];
    assert Overlay(DataOf(s, i), off, chunk) == data[..off + n];
    Restaged(f, d, t, i, s.nodes[i], Inode(s.nodes[i].mode, Regular(data[..off + n])));
  }

  lemma RenameLands(f: Fs, s: Fs, d: nat, t: string, i: nat, base: string, data: Bytes)
    requires InStaging(f, s, d, t, i, data) && s.nodes[i] == Inode(FILE_PERM, Regular(data))
    requires Entry(f, d, t).None? && t != base && (Entry(f, d, base).Some? ==> !IsDir(f, Entry(f, d, base).value))
    requires Closed(f)
    ensures Enabled(s, Rename(d, t, base))
    ensures Apply(s, Rename(d, t, base)) == StagedFs(f, d, base, i, Inode(FILE_PERM, Regular(data)))
  {
    var r := Apply(s, Rename(d, t, base));
    var e := f.nodes[d].node.entries;
    assert e[t := i] - {t} == e;
    assert r.nodes == StagedFs(f, d, base, i, Inode(FILE_PERM, Regular(data))).nodes;
  }

  lemma UnlinkSweeps(f: Fs, s: Fs, d: nat, t: string, i: nat, data: Bytes)
    requires InStaging(f, s, d, t, i, data) && Entry(f, d, t).None?
    ensures Enabled(s, Unlink(d, t)) && Apply(s, Unlink(d, t)) == SweptFs(f, i, s.nodes[i])
  {
    var e := f.nodes[d].node.entries;
    assert e[t := i] - {t} == e;
    assert f.nodes[d] == Inode(f.nodes[d].mode, Directory(e));
    assert Apply(s, Unlink(d, t)).nodes == SweptFs(f, i, s.nodes[i]).nodes;
  }

  // ---- What a crash can leave -------------------------------------------------

  /** No directory stands in the way. */
  predicate DestinationFree(a: Fs, at: Place) {
    Entry(a, at.dir, at.base).Some? ==> !IsDir(a, Entry(a, at.dir, at.base).value)
  }

  /** The destination holds the new value, complete and private, in an inode
      that did not exist before. */
  predicate Delivered(a: Fs, s: Fs, at: Place, data: Bytes) {
    DestinationFree(a, at) &&
    var e := Entry(s, at.dir, at.base);
    e.Some? && e.value !in a.nodes && e.value in s.nodes && s.nodes[e.value] == Inode(FILE_PERM, Regular(data))
  }

  /** A new name is a directory being prepared or the one staged file. */
  predicate Scaffold(a: Fs, s: Fs, d: nat, n: string, data: Bytes) {
    var e := Entry(s, d, n);
    e.Some? && e.value !in a.nodes && e.value in s.nodes
    && ((IsDir(s, e.value) && Within(s.nodes[e.value].mode, DIR_PERM))
        || (IsStaging(n) && PartOf(s.nodes[e.value], data)))
  }

  predicate NewFile(a: Fs, s: Fs, d: nat, n: string) {
    Entry(s, d, n).Some? && Entry(a, d, n) != Entry(s, d, n) && IsFile(s, Entry(s, d, n).value)
  }

  /** What was there before a write is still there: every file and symlink bit
      for bit, every directory with the same or the repaired mode, every entry
      but the destination's. */
  ghost predicate Undisturbed(a: Fs, s: Fs, at: Place) {
    && (forall i | i in a.nodes && !IsDir(a, i) :: i in s.nodes && s.nodes[i] == a.nodes[i])
    && (forall i | IsDir(a, i) :: IsDir(s, i) && (s.nodes[i].mode == a.nodes[i].mode || s.nodes[i].mode == DIR_PERM))
    && (forall d, n | Entry(a, d, n).Some? && Place(d, n) != at :: Entry(s, d, n) == Entry(a, d, n))
    && (forall p | p in a.anchors :: p in s.anchors && s.anchors[p] == a.anchors[p])
    && (forall p | p in s.anchors && p !in a.anchors :: s.anchors[p].ino !in a.nodes && !s.anchors[p].symlink)
  }

  /** A write of `data` to `at`, interrupted anywhere, left `s` where `a` was. */
  ghost predicate InFlight(a: Fs, s: Fs, at: Place, data: Bytes) {
    && Undisturbed(a, s, at) && Closed(s) && Branching(a, s)
    && (Entry(s, at.dir, at.base) == Entry(a, at.dir, at.base) || Delivered(a, s, at, data) ||
        (Entry(a, at.dir, at.base).None? && Scaffold(a, s, at.dir, at.base, data) && !NewFile(a, s, at.dir, at.base)))
    && (forall d, n | Entry(s, d, n).Some? && Entry(a, d, n).None? && Place(d, n) != at :: Scaffold(a, s, d, n, data))
    && (forall d, n, d', n' | NewFile(a, s, d, n) && NewFile(a, s, d', n') :: d == d' && n == n')
  }

  lemma PreparedInFlight(a: Fs, f: Fs, at: Place, data: Bytes)
    requires Closed(a) && Prepared(a, f)
    ensures InFlight(a, f, at, data)
    ensures forall d, n :: !NewFile(a, f, d, n)
  {
    forall d, n | Entry(a, d, n).Some? ensures Entry(f, d, n) == Entry(a, d, n) {
      assert n in a.nodes[d].node.entries;
    }
  }

  /** No file stands under any name that was not there before. */
  ghost predicate NothingStaged(a: Fs, s: Fs) {
    forall d, n :: !NewFile(a, s, d, n)
  }

  /** `s` differs from `f` only in new inodes and in the entry `n` of `d`. */
  ghost predicate OnlyEntry(f: Fs, s: Fs, d: nat, n: string) {
    && s.anchors == f.anchors
    && (forall i | i in f.nodes && i != d :: i in s.nodes && s.nodes[i] == f.nodes[i])
    && IsDir(f, d) && IsDir(s, d) && s.nodes[d].mode == f.nodes[d].mode
    && s.nodes[d].node.entries - {n} == f.nodes[d].node.entries - {n}
    && (forall i | i in s.nodes && i !in f.nodes :: !IsDir(s, i))
  }

  lemma StagedOnlyEntry(f: Fs, d: nat, n: string, i: nat, inode: Inode)
    requires IsDir(f, d) && i !in f.nodes && !inode.node.Directory?
    ensures OnlyEntry(f, StagedFs(f, d, n, i, inode), d, n)
  {
    var e := f.nodes[d].node.entries;
    assert e[n := i] - {n} == e - {n};
  }

  lemma OnlyEntryElsewhere(f: Fs, s: Fs, d: nat, n: string, d': nat, n': string)
    requires OnlyEntry(f, s, d, n) && Place(d', n') != Place(d, n)
    ensures Entry(s, d', n') == Entry(f, d', n')
  {
    if d' == d {
      assert n' in s.nodes[d].node.entries <==> n' in s.nodes[d].node.entries - {n};
      assert n' in f.nodes[d].node.entries <==> n' in f.nodes[d].node.entries - {n};
      if n' in f.nodes[d].node.entries {
        assert (s.nodes[d].node.entries - {n})[n'] == (f.nodes[d].node.entries - {n})[n'];
      }
    }
  }

  lemma OnlyEntryKeepsDirs(f: Fs, s: Fs, d: nat, n: string)
    requires OnlyEntry(f, s, d, n) && (Entry(f, d, n).Some? ==> !IsDir(f, Entry(f, d, n).value))
    ensures KeepsDirs(f, s)
  {
    forall i, x | Entry(f, i, x).Some? && IsDir(f, Entry(f, i, x).value) ensures Entry(s, i, x) == Entry(f, i, x) {
      OnlyEntryElsewhere(f, s, d, n, i, x);
    }
  }

  lemma OnlyEntryUndisturbed(a: Fs, f: Fs, s: Fs, n: string, at: Place)
    requires Closed(a) && Prepared(a, f) && OnlyEntry(f, s, at.dir, n) && (n == at.base || Entry(f, at.dir, n).None?)
    ensures Undisturbed(a, s, at)
  {
    forall d, x | Entry(a, d, x).Some? && Place(d, x) != at ensures Entry(s, d, x) == Entry(a, d, x) {
      assert x in a.nodes[d].node.entries;
      OnlyEntryElsewhere(f, s, at.dir, n, d, x);
    }
  }

  lemma OnlyEntryNew(a: Fs, f: Fs, s: Fs, d: nat, n: string, d': nat, n': string, data: Bytes)
    requires Closed(a) && Closed(f) && Prepared(a, f) && OnlyEntry(f, s, d, n) && Place(d', n') != Place(d, n)
    ensures !NewFile(a, s, d', n')
    ensures Entry(s, d', n').Some? && Entry(a, d', n').None? ==> Scaffold(a, s, d', n', data)
  {
    OnlyEntryElsewhere(f, s, d, n, d', n');
    if Entry(a, d', n').Some? {
      assert n' in a.nodes[d'].node.entries;
    }
  }

  /** One new entry, of a new file, makes no directory and takes none away. */
  lemma OnlyEntryBranches(a: Fs, f: Fs, s: Fs, d: nat, n: string)
    requires Closed(f) && Prepared(a, f) && OnlyEntry(f, s, d, n)
    requires Entry(s, d, n) == Entry(f, d, n) || (Entry(s, d, n).Some? && Entry(s, d, n).value !in f.nodes)
    ensures Branching(a, s)
  {
    forall d', n' | Entry(s, d', n').Some? && (IsDir(s, Entry(s, d', n').value) || Entry(s, d', n').value in f.nodes)
      ensures Entry(f, d', n') == Entry(s, d', n')
    {
      if Place(d', n') != Place(d, n) {
        OnlyEntryElsewhere(f, s, d, n, d', n');
      }
    }
    forall x, m, x', m' | NewDir(a, s, x, m) && NewDir(a, s, x', m') && Entry(s, x, m) == Entry(s, x', m')
      ensures x == x' && m == m'
    {
      assert NewDir(a, f, x, m) && NewDir(a, f, x', m');
    }
  }

  lemma StagedClosed(f: Fs, d: nat, n: string, i: nat, inode: Inode)
    requires Closed(f) && IsDir(f, d) && i !in f.nodes && !inode.node.Directory?
    ensures Closed(StagedFs(f, d, n, i, inode))
  {
    PutKeeps(f, i, inode);
    LinkedKeeps(Put(f, i, inode), d, n, i);
  }

  lemma StagingInFlight(a: Fs, f: Fs, s: Fs, t: string, i: nat, at: Place, data: Bytes)
    requires Closed(a) && Closed(f) && Prepared(a, f)
    requires InStaging(f, s, at.dir, t, i, data) && Entry(f, at.dir, t).None? && IsStaging(t) && t != at.base
    ensures InFlight(a, s, at, data) && KeepsDirs(f, s)
  {
    PreparedInFlight(a, f, at, data);
    StagedOnlyEntry(f, at.dir, t, i, s.nodes[i]);
    StagedClosed(f, at.dir, t, i, s.nodes[i]);
    OnlyEntryBranches(a, f, s, at.dir, t);
    OnlyEntryKeepsDirs(f, s, at.dir, t);
    OnlyEntryUndisturbed(a, f, s, t, at);
    OnlyEntryElsewhere(f, s, at.dir, t, at.dir, at.base);
    OnlyEntryNew(a, f, s, at.dir, t, at.dir, at.base, data);
    forall d, n | Place(d, n) != Place(at.dir, t)
      ensures !NewFile(a, s, d, n)
      ensures Entry(s, d, n).Some? && Entry(a, d, n).None? ==> Scaffold(a, s, d, n, data)
    {
      OnlyEntryNew(a, f, s, at.dir, t, d, n, data);
    }
  }

  lemma LandedInFlight(a: Fs, f: Fs, i: nat, at: Place, data: Bytes)
    requires Closed(a) && Closed(f) && Prepared(a, f) && IsDir(f, at.dir) && i !in f.nodes
    requires Entry(f, at.dir, at.base).Some? ==> !IsDir(f, Entry(f, at.dir, at.base).value)
    ensures var s := StagedFs(f, at.dir, at.base, i, Inode(FILE_PERM, Regular(data)));
      InFlight(a, s, at, data) && Delivered(a, s, at, data) && KeepsDirs(f, s)
  {
    var s := StagedFs(f, at.dir, at.base, i, Inode(FILE_PERM, Regular(data)));
    StagedOnlyEntry(f, at.dir, at.base, i, Inode(FILE_PERM, Regular(data)));
    StagedClosed(f, at.dir, at.base, i, Inode(FILE_PERM, Regular(data)));
    OnlyEntryBranches(a, f, s, at.dir, at.base);
    OnlyEntryKeepsDirs(f, s, at.dir, at.base);
    OnlyEntryUndisturbed(a, f, s, at.base, at);
    forall d, n | Place(d, n) != at
      ensures !NewFile(a, s, d, n)
      ensures Entry(s, d, n).Some? && Entry(a, d, n).None? ==> Scaffold(a, s, d, n, data)
    {
      OnlyEntryNew(a, f, s, at.dir, at.base, d, n, data);
    }
  }

  lemma SweptAddsNothing(a: Fs, f: Fs, i: nat, inode: Inode, data: Bytes)
    requires Closed(a) && Closed(f) && Prepared(a, f) && i !in f.nodes && !inode.node.Directory?
    ensures var s := SweptFs(f, i, inode); forall d, n ::
      && Entry(s, d, n) == Entry(f, d, n) && !NewFile(a, s, d, n)
      && (Entry(s, d, n).Some? && Entry(a, d, n).None? ==> Scaffold(a, s, d, n, data))
  {
    var s := SweptFs(f, i, inode);
    forall d, n
      ensures Entry(s, d, n) == Entry(f, d, n) && !NewFile(a, s, d, n)
      ensures Entry(s, d, n).Some? && Entry(a, d, n).None? ==> Scaffold(a, s, d, n, data)
    {
      assert Entry(a, d, n).Some? ==> n in a.nodes[d].node.entries;
    }
  }

  lemma SweptKeeps(a: Fs, f: Fs, i: nat, inode: Inode, at: Place)
    requires Closed(a) && Closed(f) && Prepared(a, f) && IsDir(f, at.dir) && i !in f.nodes && !inode.node.Directory?
    ensures var s := SweptFs(f, i, inode); Closed(s) && Branching(a, s) && Undisturbed(a, s, at) && KeepsDirs(f, s)
  {
    var s := SweptFs(f, i, inode);
    assert OnlyEntry(f, s, at.dir, at.base);
    PutKeeps(f, i, inode);
    OnlyEntryBranches(a, f, s, at.dir, at.base);
    OnlyEntryUndisturbed(a, f, s, at.base, at);
  }

  lemma SweptInFlight(a: Fs, f: Fs, i: nat, inode: Inode, at: Place, data: Bytes)
    requires Closed(a) && Closed(f) && Prepared(a, f) && IsDir(f, at.dir) && i !in f.nodes && !inode.node.Directory?
    ensures InFlight(a, SweptFs(f, i, inode), at, data) && KeepsDirs(f, SweptFs(f, i, inode))
    ensures forall d, n :: !NewFile(a, SweptFs(f, i, inode), d, n)
  {
    SweptAddsNothing(a, f, i, inode, data);
    SweptKeeps(a, f, i, inode, at);
    assert Entry(a, at.dir, at.base).Some? ==> at.base in a.nodes[at.dir].node.entries;
  }

  // ---- Reading around a write -------------------------------------------------

  /** What was just put in place is what a reader of that name gets. */
  lemma LandedReads(f: Fs, rootDir: string, name: RelPath, i: nat, data: Bytes)
    requires Closed(f) && IsLocal(name) && DirectorySpec(f, rootDir, Parents(name)).Ok? && Plain(BaseName(name))
    requires i !in f.nodes
    requires var d := DirectorySpec(f, rootDir, Parents(name)).value;
      Entry(f, d, BaseName(name)).Some? ==> !IsDir(f, Entry(f, d, BaseName(name)).value)
    ensures var d := DirectorySpec(f, rootDir, Parents(name)).value;
      var s := StagedFs(f, d, BaseName(name), i, Inode(FILE_PERM, Regular(data)));
      Closed(s) && ReadSpec(s, rootDir, name) == Ok(data)
  {
    var d := DirectorySpec(f, rootDir, Parents(name)).value;
    var inode := Inode(FILE_PERM, Regular(data));
    var s := StagedFs(f, d, BaseName(name), i, inode);
    StagedClosed(f, d, BaseName(name), i, inode);
    StagedOnlyEntry(f, d, BaseName(name), i, inode);
    OnlyEntryKeepsDirs(f, s, d, BaseName(name));
    DirectoryKept(f, s, rootDir, Parents(name));
  }

  lemma UndisturbedKeepsDirs(a: Fs, s: Fs, at: Place)
    requires Undisturbed(a, s, at) && (DestinationFree(a, at) || Entry(s, at.dir, at.base) == Entry(a, at.dir, at.base))
    ensures KeepsDirs(a, s)
  {
  }
}
