/** What the rooted store computes when nothing interferes, stated without its
    loops and handles, and how far a write may disturb the rest of the tree. */
module StoreSpec {
  import opened Basics
  import opened Filesystem
  import opened Protocol
  import opened Paths
  import opened Host

  // ---- Reading ---------------------------------------------------------------

  /** One step down: the child must be a real, private directory. */
  function Child(fs: Fs, d: nat, n: string): (r: Result<nat>)
    requires Closed(fs) && IsDir(fs, d)
    ensures r.Ok? ==> IsDir(fs, r.value)
  {
    if Entry(fs, d, n).None? then Err(NotExist)
    else
      var i := Entry(fs, d, n).value;
      if !IsDir(fs, i) || !Within(fs.nodes[i].mode, DIR_PERM) then Err(UnsafePath) else Ok(i)
  }

  function Descend(fs: Fs, d: nat, parts: seq<string>): (r: Result<nat>)
    requires Closed(fs) && IsDir(fs, d)
    ensures r.Ok? ==> IsDir(fs, r.value)
  {
    if parts == [] then Ok(d)
    else match Descend(fs, d, parts[..|parts| - 1])
         case Ok(above) => Child(fs, above, parts[|parts| - 1])
         case Err(e) => Err(e)
  }

  /** A directory below a root, for readers: everything on the way is private. */
  function DirectorySpec(fs: Fs, rootDir: string, parts: seq<string>): (r: Result<nat>)
    requires Closed(fs)
    ensures r.Ok? ==> IsDir(fs, r.value)
  {
    match OpenRootSpec(fs, rootDir)
    case Err(e) => Err(e)
    case Ok(root) =>
      if !Within(fs.nodes[root].mode, DIR_PERM) then Err(UnsafePath) else Descend(fs, root, parts)
  }

  /** regularInfo: Lstat that insists on a regular file. */
  function RegularSpec(fs: Fs, d: nat, base: string): (r: Result<Stat>)
    requires Closed(fs) && IsDir(fs, d)
    ensures r.Ok? ==>
      IsFile(fs, r.value.ino) && r.value == StatOf(fs, r.value.ino) && Entry(fs, d, base) == Some(r.value.ino)
  {
    match LstatSpec(fs, d, base)
    case Err(e) => Err(e)
    case Ok(stat) => if stat.kind.RegularKind? then Ok(stat) else Err(UnsafePath)
  }

  /** A managed file in a directory, for readers. */
  function FileSpec(fs: Fs, d: nat, base: string): (r: Result<nat>)
    requires Closed(fs) && IsDir(fs, d)
    ensures r.Ok? ==> IsFile(fs, r.value)
  {
    match RegularSpec(fs, d, base)
    case Err(e) => Err(e)
    case Ok(stat) => if Within(stat.mode, FILE_PERM) then Ok(stat.ino) else Err(UnsafePath)
  }

  function ReadSpec(fs: Fs, rootDir: string, name: RelPath): Result<Bytes>
    requires Closed(fs)
  {
    if !IsLocal(name) then Err(UnsafePath)
    else match DirectorySpec(fs, rootDir, Parents(name))
         case Err(e) => Err(e)
         case Ok(d) =>
           match FileSpec(fs, d, BaseName(name))
           case Err(e) => Err(e)
           case Ok(i) => Ok(DataOf(fs, i))
  }

  function ListSpec(fs: Fs, rootDir: string, name: RelPath): Result<set<string>>
    requires Closed(fs)
  {
    if !IsLocal(name) then Err(UnsafePath)
    else match DirectorySpec(fs, rootDir, Clean(name).value)
         case Err(e) => Err(e)
         case Ok(d) => Ok(fs.nodes[d].node.entries.Keys)
  }

  /** The entry a removal takes away. */
  function RemovalSpec(fs: Fs, rootDir: string, name: RelPath): Result<Place>
    requires Closed(fs)
  {
    if !IsLocal(name) then Err(UnsafePath)
    else match DirectorySpec(fs, rootDir, Parents(name))
         case Err(e) => Err(e)
         case Ok(d) =>
           match RegularSpec(fs, d, BaseName(name))
           case Err(e) => Err(e)
           case Ok(_) => Ok(Place(d, BaseName(name)))
  }

  // ---- What readers get, inode by inode ---------------------------------------------

  /** A directory that gives group and others nothing. */
  predicate OwnDir(fs: Fs, i: nat) {
    i in fs.nodes && fs.nodes[i].node.Directory? && fs.nodes[i].mode & 0x03F == 0
  }

  /** The inodes on the way down a path, from its start on. */
  ghost predicate Way(fs: Fs, d: nat, parts: seq<string>, way: seq<nat>) {
    && |way| == |parts| + 1 && way[0] == d
    && (forall k | 0 <= k < |way| :: OwnDir(fs, way[k]))
    && (forall k | 0 <= k < |parts| :: Entry(fs, way[k], parts[k]) == Some(way[k + 1]))
  }

  lemma {:induction false} DescentHasWay(fs: Fs, d: nat, parts: seq<string>) returns (way: seq<nat>)
    requires Closed(fs) && OwnDir(fs, d) && Descend(fs, d, parts).Ok?
    ensures Way(fs, d, parts, way) && way[|parts|] == Descend(fs, d, parts).value
  {
    if parts == [] {
      way := [d];
    } else {
      var front := parts[..|parts| - 1];
      var above := DescentHasWay(fs, d, front);
      way := above + [Descend(fs, d, parts).value];
      PrivateMeans(fs.nodes[way[|parts|]].mode);
      forall k | 0 <= k < |front| ensures Entry(fs, way[k], parts[k]) == Some(way[k + 1]) {
        assert parts[k] == front[k];
      }
    }
  }

  lemma {:induction false} WayIsDescent(fs: Fs, d: nat, parts: seq<string>, way: seq<nat>)
    requires Closed(fs) && Way(fs, d, parts, way)
    ensures IsDir(fs, d) && Descend(fs, d, parts) == Ok(way[|parts|])
  {
    if parts != [] {
      WayIsDescent(fs, d, parts[..|parts| - 1], way[..|parts|]);
      PrivateMeans(fs.nodes[way[|parts|]].mode);
    }
  }

  /** A path below a root can be read down exactly when its directories lead from one
      to the next and every one of them is the owner's alone. */
  lemma DirectoryMeans(fs: Fs, rootDir: string, parts: seq<string>, d: nat)
    requires Closed(fs)
    ensures DirectorySpec(fs, rootDir, parts) == Ok(d) <==>
      rootDir in fs.anchors
      && exists way: seq<nat> :: Way(fs, fs.anchors[rootDir].ino, parts, way) && way[|parts|] == d
  {
    if rootDir in fs.anchors {
      var root := fs.anchors[rootDir].ino;
      PrivateMeans(fs.nodes[root].mode);
      if DirectorySpec(fs, rootDir, parts) == Ok(d) {
        var way := DescentHasWay(fs, root, parts);
      }
      if way: seq<nat> :| Way(fs, root, parts, way) && way[|parts|] == d {
        WayIsDescent(fs, root, parts, way);
      }
    }
  }

  /** Under an ordinary name the directory has a regular file that gives group and
      others nothing and that nobody may run. */
  predicate OwnFile(fs: Fs, d: nat, n: string, data: Bytes) {
    && n != "" && n != "." && n != ".."
    && d in fs.nodes && fs.nodes[d].node.Directory? && n in fs.nodes[d].node.entries
    && var i := fs.nodes[d].node.entries[n];
      i in fs.nodes && fs.nodes[i].node == Regular(data) && fs.nodes[i].mode & 0x07F == 0
  }

  /** What a read of a name returns, and exactly when it returns something. */
  lemma ReadMeans(fs: Fs, rootDir: string, name: RelPath, data: Bytes)
    requires Closed(fs)
    ensures ReadSpec(fs, rootDir, name) == Ok(data) <==>
      IsLocal(name)
      && exists d: nat ::
        DirectorySpec(fs, rootDir, Parents(name)) == Ok(d) && OwnFile(fs, d, BaseName(name), data)
  {
    if IsLocal(name) {
      var spec := DirectorySpec(fs, rootDir, Parents(name));
      if spec.Ok? {
        FileMeans(fs, spec.value, BaseName(name), data);
      }
    }
  }

  /** Under an ordinary name the directory has a regular file. */
  predicate HasRegular(fs: Fs, d: nat, n: string) {
    && n != "" && n != "." && n != ".."
    && d in fs.nodes && fs.nodes[d].node.Directory? && n in fs.nodes[d].node.entries
    && var i := fs.nodes[d].node.entries[n]; i in fs.nodes && fs.nodes[i].node.Regular?
  }

  /** What a removal takes away, and exactly when: the file's own mode is not asked for. */
  lemma RemovalMeans(fs: Fs, rootDir: string, name: RelPath, at: Place)
    requires Closed(fs)
    ensures RemovalSpec(fs, rootDir, name) == Ok(at) <==>
      IsLocal(name) && DirectorySpec(fs, rootDir, Parents(name)) == Ok(at.dir) && at.base == BaseName(name)
      && HasRegular(fs, at.dir, at.base)
  {
  }

  lemma FileMeans(fs: Fs, d: nat, n: string, data: Bytes)
    requires Closed(fs) && IsDir(fs, d)
    ensures FileSpec(fs, d, n).Ok? && DataOf(fs, FileSpec(fs, d, n).value) == data <==> OwnFile(fs, d, n, data)
  {
    if Entry(fs, d, n).Some? {
      PrivateMeans(fs.nodes[Entry(fs, d, n).value].mode);
    }
  }

  lemma {:induction false} FailedDescent(fs: Fs, d: nat, parts: seq<string>, k: nat)
    requires Closed(fs) && IsDir(fs, d) && k <= |parts| && Descend(fs, d, parts[..k]).Err?
    ensures Descend(fs, d, parts) == Descend(fs, d, parts[..k])
  {
    if k < |parts| {
      assert parts[..|parts| - 1][..k] == parts[..k];
      FailedDescent(fs, d, parts[..|parts| - 1], k);
    } else {
      assert parts[..k] == parts;
    }
  }

  // ---- Preparing directories --------------------------------------------------

  predicate Grown(a: Inode, b: Inode) {
    if a.node.Directory? then
      && b.node.Directory?
      && (b.mode == a.mode || b.mode == DIR_PERM)
      && (forall n | n in a.node.entries :: n in b.node.entries && b.node.entries[n] == a.node.entries[n])
    else
      a == b
  }

  /** `b` is `a` with directories added and directory modes repaired: no file,
      no symlink and no existing entry differs. */
  ghost predicate Prepared(a: Fs, b: Fs) {
    && (forall i | i in a.nodes :: i in b.nodes && Grown(a.nodes[i], b.nodes[i]))
    && (forall i | i in b.nodes && i !in a.nodes :: IsDir(b, i) && Within(b.nodes[i].mode, DIR_PERM))
    && (forall i, n | Entry(b, i, n).Some? && Entry(a, i, n).None? ::
          Entry(b, i, n).value !in a.nodes && IsDir(b, Entry(b, i, n).value))
    && (forall p | p in a.anchors :: p in b.anchors && b.anchors[p] == a.anchors[p])
    && (forall p | p in b.anchors && p !in a.anchors :: b.anchors[p].ino !in a.nodes && !b.anchors[p].symlink)
    && Closed(b) && Branching(a, b)
  }

  predicate NewDir(a: Fs, b: Fs, d: nat, n: string) {
    var e := Entry(b, d, n);
    e.Some? && e.value !in a.nodes && IsDir(b, e.value)
  }

  /** New directories have one entry each, and new roots none. */
  ghost predicate Branching(a: Fs, b: Fs) {
    && (forall d, n, d', n' | NewDir(a, b, d, n) && NewDir(a, b, d', n') && Entry(b, d, n) == Entry(b, d', n') ::
          d == d' && n == n')
    && (forall p | p in b.anchors && p !in a.anchors :: forall d, n :: Entry(b, d, n) != Some(b.anchors[p].ino))
  }

  lemma BranchingTransitive(a: Fs, b: Fs, c: Fs)
    requires Prepared(a, b) && Prepared(b, c)
    ensures Branching(a, c)
  {
    forall d, n | Entry(b, d, n).Some? ensures Entry(c, d, n) == Entry(b, d, n) {
      assert n in b.nodes[d].node.entries;
    }
    forall d, n, d', n' | NewDir(a, c, d, n) && NewDir(a, c, d', n') && Entry(c, d, n) == Entry(c, d', n')
      ensures d == d' && n == n'
    {
      if Entry(c, d, n).value in b.nodes {
        assert NewDir(a, b, d, n) && NewDir(a, b, d', n');
      } else {
        assert NewDir(b, c, d, n) && NewDir(b, c, d', n');
      }
    }
    forall p, d, n | p in c.anchors && p !in a.anchors ensures Entry(c, d, n) != Some(c.anchors[p].ino) {
      if p in b.anchors && Entry(b, d, n).None? && Entry(c, d, n).Some? {
        assert Entry(c, d, n).value !in b.nodes;
      }
    }
  }

  lemma PreparedTransitive(a: Fs, b: Fs, c: Fs)
    requires Prepared(a, b) && Prepared(b, c)
    ensures Prepared(a, c)
  {
    BranchingTransitive(a, b, c);
    forall i, n | Entry(c, i, n).Some? && Entry(a, i, n).None?
      ensures Entry(c, i, n).value !in a.nodes && IsDir(c, Entry(c, i, n).value)
    {
      if Entry(b, i, n).Some? {
        assert n in b.nodes[i].node.entries;
      }
    }
  }

  predicate Preparing(a: Fs, c: Call) {
    c.MkdirAll? || c.Mkdir? || (c.Chmod? && c.mode == DIR_PERM && IsDir(a, c.ino))
  }

  lemma PreparingStep(a: Fs, c: Call)
    requires Closed(a) && Enabled(a, c) && Preparing(a, c)
    ensures Prepared(a, Apply(a, c))
  {
    ApplyKeeps(a, c);
    PreparingBranches(a, c);
    PreparingGrows(a, c);
    PreparingAdds(a, c);
  }

  lemma PreparingGrows(a: Fs, c: Call)
    requires Closed(a) && Enabled(a, c) && Preparing(a, c)
    ensures forall i | i in a.nodes :: i in Apply(a, c).nodes && Grown(a.nodes[i], Apply(a, c).nodes[i])
    ensures forall p | p in a.anchors :: p in Apply(a, c).anchors && Apply(a, c).anchors[p] == a.anchors[p]
  {
  }

  /** Whatever is new is a private directory. */
  lemma PreparingAdds(a: Fs, c: Call)
    requires Closed(a) && Enabled(a, c) && Preparing(a, c)
    ensures var b := Apply(a, c);
      && (forall i | i in b.nodes && i !in a.nodes :: IsDir(b, i) && Within(b.nodes[i].mode, DIR_PERM))
      && (forall i, n | Entry(b, i, n).Some? && Entry(a, i, n).None? ::
            Entry(b, i, n).value !in a.nodes && IsDir(b, Entry(b, i, n).value))
      && (forall p | p in b.anchors && p !in a.anchors :: b.anchors[p].ino !in a.nodes && !b.anchors[p].symlink)
  {
  }

  lemma PreparingBranches(a: Fs, c: Call)
    requires Closed(a) && Enabled(a, c) && Preparing(a, c)
    ensures Branching(a, Apply(a, c))
  {
    forall d, n
      ensures Entry(Apply(a, c), d, n) == if c.Mkdir? && d == c.dir && n == c.name then Some(c.ino) else Entry(a, d, n)
    {
    }
  }

  /** Directories stay reachable and stay private. */
  ghost predicate KeepsDirs(a: Fs, b: Fs) {
    && (forall i | IsDir(a, i) ::
          IsDir(b, i) && (Within(a.nodes[i].mode, DIR_PERM) ==> Within(b.nodes[i].mode, DIR_PERM)))
    && (forall i, n | Entry(a, i, n).Some? && IsDir(a, Entry(a, i, n).value) :: Entry(b, i, n) == Entry(a, i, n))
    && (forall p | p in a.anchors :: p in b.anchors && b.anchors[p] == a.anchors[p])
  }

  lemma PreparedKeepsDirs(a: Fs, b: Fs)
    requires Prepared(a, b)
    ensures KeepsDirs(a, b)
  {
    forall i, n | Entry(a, i, n).Some? ensures Entry(b, i, n) == Entry(a, i, n) {
      assert n in a.nodes[i].node.entries;
    }
  }

  lemma {:induction false} DescendKept(a: Fs, b: Fs, d: nat, parts: seq<string>)
    requires Closed(a) && Closed(b) && KeepsDirs(a, b) && IsDir(a, d) && Descend(a, d, parts).Ok?
    ensures IsDir(b, d) && Descend(b, d, parts) == Descend(a, d, parts)
  {
    if parts != [] {
      DescendKept(a, b, d, parts[..|parts| - 1]);
    }
  }

  // ---- Where names lead, permissions aside ---------------------------------------

  /** The directory a path of entries leads to. */
  function Reach(fs: Fs, d: nat, parts: seq<string>): Option<nat> {
    if parts == [] then Some(d)
    else match Reach(fs, d, parts[..|parts| - 1])
         case None => None
         case Some(above) =>
           var e := Entry(fs, above, parts[|parts| - 1]);
           if e.Some? && IsDir(fs, e.value) then e else None
  }

  function Parent(fs: Fs, rootDir: string, name: RelPath): Option<nat>
    requires IsLocal(name)
  {
    if rootDir in fs.anchors then Reach(fs, fs.anchors[rootDir].ino, Parents(name)) else None
  }

  lemma {:induction false} DescendReaches(fs: Fs, d: nat, parts: seq<string>)
    requires Closed(fs) && IsDir(fs, d) && Descend(fs, d, parts).Ok?
    ensures Reach(fs, d, parts) == Some(Descend(fs, d, parts).value)
  {
    if parts != [] {
      DescendReaches(fs, d, parts[..|parts| - 1]);
    }
  }

  lemma {:induction false} ReachKept(a: Fs, s: Fs, d: nat, parts: seq<string>)
    requires KeepsDirs(a, s) && Reach(a, d, parts).Some?
    ensures Reach(s, d, parts) == Reach(a, d, parts)
  {
    if parts != [] {
      ReachKept(a, s, d, parts[..|parts| - 1]);
    }
  }

  lemma ParentKept(a: Fs, s: Fs, rootDir: string, name: RelPath, d: nat)
    requires Closed(a) && IsLocal(name) && KeepsDirs(a, s) && DirectorySpec(a, rootDir, Parents(name)) == Ok(d)
    ensures Parent(s, rootDir, name) == Some(d)
  {
    var root := a.anchors[rootDir].ino;
    DescendReaches(a, root, Parents(name));
    ReachKept(a, s, root, Parents(name));
  }

  lemma FailedDirectory(fs: Fs, rootDir: string, parts: seq<string>)
    requires Closed(fs) && DirectorySpec(fs, rootDir, []).Err?
    ensures DirectorySpec(fs, rootDir, parts) == DirectorySpec(fs, rootDir, [])
  {
  }

  lemma DirectoryKept(a: Fs, b: Fs, rootDir: string, parts: seq<string>)
    requires Closed(a) && Closed(b) && KeepsDirs(a, b) && DirectorySpec(a, rootDir, parts).Ok?
    ensures DirectorySpec(b, rootDir, parts) == DirectorySpec(a, rootDir, parts)
  {
    DescendKept(a, b, a.anchors[rootDir].ino, parts);
  }
}
