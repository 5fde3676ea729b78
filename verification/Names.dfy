/** What a write does to names: the one it is given holds the old value or the
    new one, and every other one holds what it held. */
module Names {
  import opened Basics
  import opened Filesystem
  import opened Protocol
  import opened Paths
  import opened StoreSpec
  import opened Replacement
  import opened StagedWrite

  /** The bytes under a name, whoever may read them. */
  function Under(fs: Fs, rootDir: string, name: RelPath): Option<Bytes>
    requires IsLocal(name)
  {
    match Parent(fs, rootDir, name)
    case None => None
    case Some(d) => FileAt(fs, Place(d, BaseName(name)))
  }

  /** The directories and the last element a name comes down to. */
  function Target(name: RelPath): seq<string>
    requires IsLocal(name)
  {
    Parents(name) + [BaseName(name)]
  }

  lemma ParentsAreAbove(name: RelPath)
    requires IsLocal(name)
    ensures Clean(name[..|name| - 1]) == Some(Parents(name)) || Clean(name[..|name| - 1]) == None
  {
    ParentIsLocal(name);
    var above := Clean(name[..|name| - 1]);
    if above.Some? && above.value != [] {
      CleanIsStable(above.value);
    } else {
      assert Clean(["."]) == Some([]) by {
        assert ["."][..0] == [];
      }
    }
  }

  /** A name comes down to its cleaned form exactly when it ends in an ordinary
      element: not behind a separator, and not in "." or "..". */
  lemma TargetIsClean(name: RelPath)
    requires IsLocal(name)
    ensures Clean(name) == Some(Target(name)) <==> Plain(name[|name| - 1])
  {
    ParentsAreAbove(name);
    var last := name[|name| - 1];
    if last == "" || last == "." {
      assert |Clean(name).value| == |Parents(name)|;
    } else if last == ".." {
      assert |Clean(name).value| < |Parents(name)|;
    }
  }

  /** Behind a trailing separator the last element is taken twice. */
  lemma TrailingSeparator(name: RelPath)
    requires IsLocal(name) && Plain(name[|name| - 1])
    ensures IsLocal(name + [""]) && Clean(name + [""]) == Clean(name)
    ensures Target(name + [""]) == Target(name) + [name[|name| - 1]]
  {
    var slashed := name + [""];
    assert slashed[..|name|] == name;
    TargetIsClean(name);
    ParentsAreAbove(slashed);
  }

  /** No directory has two entries. */
  ghost predicate Forest(fs: Fs) {
    forall d, n, d', n' | Entry(fs, d, n).Some? && IsDir(fs, Entry(fs, d, n).value)
      && Entry(fs, d', n') == Entry(fs, d, n) :: d == d' && n == n'
  }

  /** And no path from the root leads back to it. */
  ghost predicate Tree(fs: Fs, root: nat) {
    Forest(fs) && forall p | p != [] :: Reach(fs, root, p) != Some(root)
  }

  /** What a call makes of an entry. */
  function EntryAfter(fs: Fs, c: Call, d: nat, n: string): Option<nat> {
    match c
    case Rename(dir, from, to) =>
      if d == dir && n == to then Entry(fs, dir, from) else if d == dir && n == from then None else Entry(fs, d, n)
    case Mkdir(dir, name, i, _) => if d == dir && n == name then Some(i) else Entry(fs, d, n)
    case Create(dir, name, i, _) => if d == dir && n == name then Some(i) else Entry(fs, d, n)
    case Unlink(dir, name) => if d == dir && n == name then None else Entry(fs, d, n)
    case _ => Entry(fs, d, n)
  }

  lemma EntryApplied(fs: Fs, c: Call)
    requires Enabled(fs, c)
    ensures forall d, n :: Entry(Apply(fs, c), d, n) == EntryAfter(fs, c, d, n)
  {
  }

  lemma RenameKeepsForest(fs: Fs, c: Call)
    requires Closed(fs) && Forest(fs) && Enabled(fs, c) && c.Rename?
    ensures Forest(Apply(fs, c))
  {
    EntryApplied(fs, c);
  }

  lemma CallKeepsForest(fs: Fs, c: Call)
    requires Closed(fs) && Forest(fs) && Enabled(fs, c)
    ensures Forest(Apply(fs, c))
  {
    if c.Rename? {
      RenameKeepsForest(fs, c);
    } else {
      EntryApplied(fs, c);
    }
  }

  /** A path to an old directory was a path to it before, but for a renamed
      element. */
  lemma {:induction false} OldPath(fs: Fs, c: Call, root: nat, p: seq<string>) returns (q: seq<string>)
    requires Closed(fs) && Enabled(fs, c) && root in fs.nodes
    requires Reach(Apply(fs, c), root, p).Some? && Reach(Apply(fs, c), root, p).value in fs.nodes
    ensures |q| == |p| && Reach(fs, root, q) == Reach(Apply(fs, c), root, p)
  {
    q := [];
    if p != [] {
      var s := Apply(fs, c);
      var above, n := Reach(s, root, p[..|p| - 1]).value, p[|p| - 1];
      assert Entry(s, above, n) == EntryAfter(fs, c, above, n);
      var front := OldPath(fs, c, root, p[..|p| - 1]);
      q := front + [if c.Rename? && above == c.dir && n == c.to then c.from else n];
      assert q[..|q| - 1] == front;
    }
  }

  /** Every system call of the store keeps it so. */
  lemma CallKeepsTree(fs: Fs, c: Call, root: nat)
    requires Closed(fs) && Tree(fs, root) && root in fs.nodes && Enabled(fs, c)
    ensures Tree(Apply(fs, c), root)
  {
    CallKeepsForest(fs, c);
    forall p | p != [] ensures Reach(Apply(fs, c), root, p) != Some(root) {
      if Reach(Apply(fs, c), root, p) == Some(root) {
        var q := OldPath(fs, c, root, p);
      }
    }
  }

  lemma {:induction false} ReachInjective(fs: Fs, root: nat, p: seq<string>, q: seq<string>)
    requires Tree(fs, root) && Reach(fs, root, p).Some? && Reach(fs, root, p) == Reach(fs, root, q)
    ensures p == q
  {
    if p != [] && q != [] {
      ReachInjective(fs, root, p[..|p| - 1], q[..|q| - 1]);
      assert p == p[..|p| - 1] + [p[|p| - 1]] && q == q[..|q| - 1] + [q[|q| - 1]];
    }
  }

  /** What a reader gets is what stands under the name. */
  lemma ReadUnder(fs: Fs, rootDir: string, name: RelPath)
    requires Closed(fs) && ReadSpec(fs, rootDir, name).Ok?
    ensures Under(fs, rootDir, name) == Some(ReadSpec(fs, rootDir, name).value)
  {
    DescendReaches(fs, fs.anchors[rootDir].ino, Parents(name));
  }

  /** The store below a root is a tree, or not there yet. */
  ghost predicate Planted(fs: Fs, rootDir: string) {
    Forest(fs) && (rootDir in fs.anchors ==> Tree(fs, fs.anchors[rootDir].ino))
  }

  // ---- A write, at any moment ----------------------------------------------------

  /** A write in flight moves no directory. */
  lemma InFlightKeepsDirs(a: Fs, s: Fs, at: Place, data: Bytes)
    requires InFlight(a, s, at, data)
    ensures KeepsDirs(a, s)
  {
    UndisturbedKeepsDirs(a, s, at);
  }

  /** An entry that leads to an old directory is an old entry. */
  lemma OldDirEntry(a: Fs, s: Fs, at: Place, data: Bytes, d: nat, n: string)
    requires InFlight(a, s, at, data) && Entry(s, d, n).Some? && IsDir(s, Entry(s, d, n).value)
    requires Entry(s, d, n).value in a.nodes
    ensures Entry(a, d, n) == Entry(s, d, n) && IsDir(a, Entry(a, d, n).value)
  {
  }

  /** At every moment of a write the directories are still a tree. */
  lemma WriteKeepsForest(a: Fs, s: Fs, at: Place, data: Bytes)
    requires InFlight(a, s, at, data) && Forest(a)
    ensures Forest(s)
  {
    forall d, n, d', n' | Entry(s, d, n).Some? && IsDir(s, Entry(s, d, n).value) && Entry(s, d', n') == Entry(s, d, n)
      ensures d == d' && n == n'
    {
      if Entry(s, d, n).value in a.nodes {
        OldDirEntry(a, s, at, data, d, n);
        OldDirEntry(a, s, at, data, d', n');
      } else {
        assert NewDir(a, s, d, n) && NewDir(a, s, d', n');
      }
    }
  }

  lemma WriteKeepsPlanted(a: Fs, s: Fs, at: Place, data: Bytes, rootDir: string)
    requires Closed(a) && InFlight(a, s, at, data) && Planted(a, rootDir)
    ensures Planted(s, rootDir)
  {
    WriteKeepsForest(a, s, at, data);
    if rootDir in s.anchors {
      var root := s.anchors[rootDir].ino;
      forall p | p != [] ensures Reach(s, root, p) != Some(root) {
        if Reach(s, root, p) == Some(root) {
          if rootDir in a.anchors {
            ReachBack(a, s, at, data, root, p);
          }
        }
      }
    }
  }

  /** An old directory is where it was: no new entry leads to it. */
  lemma {:induction false} ReachBack(a: Fs, s: Fs, at: Place, data: Bytes, d: nat, parts: seq<string>)
    requires InFlight(a, s, at, data) && Reach(s, d, parts).Some? && Reach(s, d, parts).value in a.nodes
    ensures Reach(a, d, parts) == Reach(s, d, parts)
  {
    if parts != [] {
      var above := Reach(s, d, parts[..|parts| - 1]).value;
      var n := parts[|parts| - 1];
      assert Entry(a, above, n) == Entry(s, above, n);
      ReachBack(a, s, at, data, d, parts[..|parts| - 1]);
    }
  }

  lemma {:induction false} ReachNowhere(fs: Fs, d: nat, parts: seq<string>)
    requires !IsDir(fs, d) && Reach(fs, d, parts).Some?
    ensures parts == []
  {
    if parts != [] {
      ReachNowhere(fs, d, parts[..|parts| - 1]);
    }
  }

  lemma ParentBack(a: Fs, s: Fs, at: Place, data: Bytes, rootDir: string, name: RelPath)
    requires InFlight(a, s, at, data) && IsLocal(name) && Parent(s, rootDir, name).Some?
    requires Parent(s, rootDir, name).value in a.nodes
    ensures Parent(a, rootDir, name) == Parent(s, rootDir, name)
  {
    var root := s.anchors[rootDir].ino;
    ReachBack(a, s, at, data, root, Parents(name));
    if root !in a.nodes {
      ReachNowhere(a, root, Parents(name));
    }
  }

  /** Two names that come down to different targets are different places. */
  lemma TargetsDiffer(a: Fs, rootDir: string, name: RelPath, other: RelPath)
    requires IsLocal(name) && IsLocal(other) && Target(name) != Target(other)
    requires Parent(a, rootDir, other).Some? && Tree(a, a.anchors[rootDir].ino)
    requires Parent(a, rootDir, name) == Parent(a, rootDir, other)
    ensures BaseName(name) != BaseName(other)
  {
    ReachInjective(a, a.anchors[rootDir].ino, Parents(name), Parents(other));
  }

  lemma FileOldOrNew(a: Fs, s: Fs, at: Place, data: Bytes, p: Place)
    requires Closed(a) && InFlight(a, s, at, data) && !IsStaging(p.base)
    ensures FileAt(s, p) == FileAt(a, p) || (p == at && FileAt(s, p) == Some(data) && NewFile(a, s, p.dir, p.base))
  {
    if Entry(a, p.dir, p.base).Some? && IsDir(a, Entry(a, p.dir, p.base).value) {
      assert IsDir(s, Entry(a, p.dir, p.base).value);
    }
  }

  /** At any moment of a write, and after a crash at it, its own name leads to
      the old bytes or to all of the new ones; old bytes never just vanish. */
  lemma OldOrNew(a: Fs, s: Fs, at: Place, data: Bytes, rootDir: string, name: RelPath)
    requires Closed(a) && InFlight(a, s, at, data) && IsLocal(name) && !IsStaging(BaseName(name))
    ensures Under(s, rootDir, name) == Under(a, rootDir, name) || Under(s, rootDir, name) == Some(data)
  {
    if Under(a, rootDir, name).Some? {
      InFlightKeepsDirs(a, s, at, data);
      ReachKept(a, s, a.anchors[rootDir].ino, Parents(name));
      FileOldOrNew(a, s, at, data, Place(Parent(a, rootDir, name).value, BaseName(name)));
    } else if Under(s, rootDir, name).Some? {
      var d := Parent(s, rootDir, name).value;
      FileOldOrNew(a, s, at, data, Place(d, BaseName(name)));
      if d in a.nodes {
        ParentBack(a, s, at, data, rootDir, name);
      }
    }
  }

  /** Where another name leads, the write has put nothing. */
  lemma OtherPlaceSame(a: Fs, s: Fs, at: Place, data: Bytes, rootDir: string, name: RelPath, other: RelPath)
    requires Closed(a) && InFlightNamed(a, s, rootDir, name, at, data) && Planted(a, rootDir) && IsLocal(name)
    requires IsLocal(other)
    requires Target(name) != Target(other) && !IsStaging(BaseName(other)) && Parent(s, rootDir, other).Some?
    ensures var p := Place(Parent(s, rootDir, other).value, BaseName(other)); FileAt(s, p) == FileAt(a, p)
  {
    var p := Place(Parent(s, rootDir, other).value, BaseName(other));
    FileOldOrNew(a, s, at, data, p);
    if p == at && NewFile(a, s, p.dir, p.base) {
      WriteKeepsPlanted(a, s, at, data, rootDir);
      TargetsDiffer(s, rootDir, name, other);
    }
  }

  /** At any moment of a write, and after a crash at it, every name that comes
      down to another target leads to what it led to. */
  lemma OtherNamesKeep(a: Fs, s: Fs, at: Place, data: Bytes, rootDir: string, name: RelPath, other: RelPath)
    requires Closed(a) && InFlightNamed(a, s, rootDir, name, at, data) && Planted(a, rootDir) && IsLocal(name)
    requires IsLocal(other)
    requires Target(name) != Target(other) && !IsStaging(BaseName(other))
    ensures Under(s, rootDir, other) == Under(a, rootDir, other)
  {
    if Under(a, rootDir, other).Some? {
      InFlightKeepsDirs(a, s, at, data);
      ReachKept(a, s, a.anchors[rootDir].ino, Parents(other));
      OtherPlaceSame(a, s, at, data, rootDir, name, other);
    } else if Under(s, rootDir, other).Some? {
      OtherPlaceSame(a, s, at, data, rootDir, name, other);
      ParentBack(a, s, at, data, rootDir, other);
    }
  }

  /** For names that end in an ordinary element, different cleaned forms are
      enough. */
  lemma DifferentNamesKeep(a: Fs, s: Fs, at: Place, data: Bytes, rootDir: string, name: RelPath, other: RelPath)
    requires Closed(a) && InFlightNamed(a, s, rootDir, name, at, data) && Planted(a, rootDir) && IsLocal(name)
    requires IsLocal(other)
    requires Plain(name[|name| - 1]) && Plain(other[|other| - 1]) && Clean(name) != Clean(other)
    requires !IsStaging(BaseName(other))
    ensures Under(s, rootDir, other) == Under(a, rootDir, other)
  {
    TargetIsClean(name);
    TargetIsClean(other);
    OtherNamesKeep(a, s, at, data, rootDir, name, other);
  }

  /** An entry that led to a private file leads to that file, untouched, or to
      the new one. */
  lemma PrivateFileKeeps(a: Fs, s: Fs, at: Place, data: Bytes, d: nat, base: string)
    requires Closed(a) && Closed(s) && InFlight(a, s, at, data) && IsDir(a, d) && IsDir(s, d)
    requires FileSpec(a, d, base).Ok?
    ensures FileSpec(s, d, base).Ok?
    ensures DataOf(s, FileSpec(s, d, base).value) in {DataOf(a, FileSpec(a, d, base).value), data}
  {
  }

  /** What was readable stays readable: a write only ever makes directories more
      private and files owner-only. */
  lemma ReadableKeeps(a: Fs, s: Fs, at: Place, data: Bytes, rootDir: string, name: RelPath)
    requires Closed(a) && Closed(s) && InFlight(a, s, at, data) && ReadSpec(a, rootDir, name).Ok?
    ensures ReadSpec(s, rootDir, name) == ReadSpec(a, rootDir, name) || ReadSpec(s, rootDir, name) == Ok(data)
  {
    InFlightKeepsDirs(a, s, at, data);
    DirectoryKept(a, s, rootDir, Parents(name));
    PrivateFileKeeps(a, s, at, data, DirectorySpec(a, rootDir, Parents(name)).value, BaseName(name));
  }

  /** In particular a name with another target reads exactly what it read. */
  lemma OthersRead(a: Fs, s: Fs, at: Place, data: Bytes, rootDir: string, name: RelPath, other: RelPath)
    requires Closed(a) && InFlightNamed(a, s, rootDir, name, at, data) && Planted(a, rootDir) && IsLocal(name)
    requires ReadSpec(a, rootDir, other).Ok?
    requires Target(name) != Target(other) && !IsStaging(BaseName(other))
    ensures ReadSpec(s, rootDir, other) == ReadSpec(a, rootDir, other)
  {
    ReadUnder(a, rootDir, other);
    OtherNamesKeep(a, s, at, data, rootDir, name, other);
    ReadableKeeps(a, s, at, data, rootDir, other);
    ReadUnder(s, rootDir, other);
  }

  // ---- Removals ------------------------------------------------------------------

  lemma {:induction false} DescendAbsent(fs: Fs, d: nat, parts: seq<string>)
    requires Closed(fs) && IsDir(fs, d) && Descend(fs, d, parts) == Err(NotExist)
    ensures Reach(fs, d, parts) == None
  {
    if Descend(fs, d, parts[..|parts| - 1]).Ok? {
      DescendReaches(fs, d, parts[..|parts| - 1]);
    } else {
      DescendAbsent(fs, d, parts[..|parts| - 1]);
    }
  }

  /** A removal that found nothing: nothing is there. */
  lemma AbsentUnder(fs: Fs, rootDir: string, name: RelPath)
    requires Closed(fs) && IsLocal(name) && RemovalSpec(fs, rootDir, name) == Err(NotExist)
    ensures Under(fs, rootDir, name) == None
  {
    if rootDir in fs.anchors {
      var root := fs.anchors[rootDir].ino;
      if DirectorySpec(fs, rootDir, Parents(name)).Err? {
        DescendAbsent(fs, root, Parents(name));
      } else {
        DescendReaches(fs, root, Parents(name));
      }
    }
  }

  /** A reader that finds nothing: nothing is there. */
  lemma AbsentRead(fs: Fs, rootDir: string, name: RelPath)
    requires Closed(fs) && IsLocal(name) && ReadSpec(fs, rootDir, name) == Err(NotExist)
    ensures Under(fs, rootDir, name) == None
  {
    if DirectorySpec(fs, rootDir, Parents(name)).Ok?
      && RegularSpec(fs, DirectorySpec(fs, rootDir, Parents(name)).value, BaseName(name)).Ok? {
      assert false;
    }
    AbsentUnder(fs, rootDir, name);
  }

  lemma {:induction false} ReachUnlinked(a: Fs, at: Place, d: nat, parts: seq<string>)
    requires Entry(a, at.dir, at.base).Some? && !IsDir(a, Entry(a, at.dir, at.base).value)
    ensures Reach(Unlinked(a, at.dir, at.base), d, parts) == Reach(a, d, parts)
  {
    if parts != [] {
      ReachUnlinked(a, at, d, parts[..|parts| - 1]);
    }
  }

  /** A removal empties its own name. */
  lemma RemovedUnder(a: Fs, at: Place, rootDir: string, name: RelPath)
    requires Closed(a) && IsLocal(name) && RemovalSpec(a, rootDir, name) == Ok(at)
    ensures Under(Unlinked(a, at.dir, at.base), rootDir, name) == None && Parent(a, rootDir, name) == Some(at.dir)
    ensures Entry(a, at.dir, at.base).Some? && !IsDir(a, Entry(a, at.dir, at.base).value) && at.base == BaseName(name)
  {
    var root := a.anchors[rootDir].ino;
    DescendReaches(a, root, Parents(name));
    ReachUnlinked(a, at, root, Parents(name));
  }

  lemma UnlinkedFileAt(a: Fs, at: Place, p: Place)
    requires Entry(a, at.dir, at.base).Some? && p != at
    ensures FileAt(Unlinked(a, at.dir, at.base), p) == FileAt(a, p)
  {
  }

  /** A removal empties no other name. */
  lemma RemovedOthers(a: Fs, at: Place, rootDir: string, name: RelPath, other: RelPath)
    requires Closed(a) && IsLocal(name) && RemovalSpec(a, rootDir, name) == Ok(at)
    requires IsLocal(other) && Target(other) != Target(name) && Tree(a, a.anchors[rootDir].ino)
    ensures Under(Unlinked(a, at.dir, at.base), rootDir, other) == Under(a, rootDir, other)
  {
    RemovedUnder(a, at, rootDir, name);
    ReachUnlinked(a, at, a.anchors[rootDir].ino, Parents(other));
    var d := Parent(a, rootDir, other);
    if d == Some(at.dir) {
      TargetsDiffer(a, rootDir, name, other);
    }
    if d.Some? {
      UnlinkedFileAt(a, at, Place(d.value, BaseName(other)));
    }
  }
}
