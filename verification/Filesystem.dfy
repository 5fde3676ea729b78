/** The file system the store works on: a table of inodes, and the effect each
    system call has on it.  Directories map names to inodes, every inode carries
    a nine-bit mode, and an inode never changes its kind or gets reused. */
module Filesystem {
  import opened Basics

  type Mode = bv9

  const DIR_PERM: Mode := 0x1C0   // 0700
  const FILE_PERM: Mode := 0x180  // 0600

  /** No permission bit outside the permitted ones. */
  predicate Within(mode: Mode, permitted: Mode) {
    mode & permitted == mode
  }

  /** A private directory gives group and others nothing; a private file nobody the
      right to run it either. */
  lemma PrivateMeans(mode: Mode)
    ensures Within(mode, DIR_PERM) <==> mode & 0x03F == 0
    ensures Within(mode, FILE_PERM) <==> mode & 0x07F == 0
  {
  }

  datatype Node =
    | Directory(entries: map<string, nat>)
    | Regular(data: Bytes)
    | Symlink(target: string)
    | Special

  datatype Inode = Inode(mode: Mode, node: Node)

  /** What an absolute path chosen by the caller stands for. */
  datatype Anchor = Anchor(ino: nat, symlink: bool)

  datatype Fs = Fs(nodes: map<nat, Inode>, anchors: map<string, Anchor>)

  predicate IsDir(fs: Fs, i: nat) {
    i in fs.nodes && fs.nodes[i].node.Directory?
  }

  predicate IsFile(fs: Fs, i: nat) {
    i in fs.nodes && fs.nodes[i].node.Regular?
  }

  function Entry(fs: Fs, d: nat, n: string): Option<nat> {
    if IsDir(fs, d) && n in fs.nodes[d].node.entries then Some(fs.nodes[d].node.entries[n]) else None
  }

  function DataOf(fs: Fs, i: nat): Bytes
    requires IsFile(fs, i)
  {
    fs.nodes[i].node.data
  }

  /** Every entry and every anchor leads to an existing inode. */
  predicate Closed(fs: Fs) {
    && (forall d | d in fs.nodes && fs.nodes[d].node.Directory? ::
          forall n | n in fs.nodes[d].node.entries :: fs.nodes[d].node.entries[n] in fs.nodes)
    && (forall p | p in fs.anchors :: fs.anchors[p].ino in fs.nodes)
  }

  predicate SameKind(a: Node, b: Node) {
    && (a.Directory? <==> b.Directory?)
    && (a.Regular? <==> b.Regular?)
    && (a.Symlink? <==> b.Symlink?)
  }

  predicate KindsKept(before: Fs, after: Fs) {
    forall i | i in before.nodes :: i in after.nodes && SameKind(before.nodes[i].node, after.nodes[i].node)
  }

  lemma KindsKeptOn(a: Fs, b: Fs, c: Fs)
    requires KindsKept(a, b) && KindsKept(b, c)
    ensures KindsKept(a, c)
  {
  }

  /** All another process can be relied on: it may rename, replace, create,
      remove, rewrite and chmod whatever it likes. */
  predicate OthersMove(before: Fs, after: Fs) {
    Closed(after) && KindsKept(before, after)
  }

  // ---- System calls --------------------------------------------------------

  /** One call with what it was given and what it answered.  The first group
      changes the file system; the second only looks at it. */
  datatype Call =
    | MkdirAll(path: string, ino: nat, mode: Mode)
    | Mkdir(dir: nat, name: string, ino: nat, mode: Mode)
    | Create(dir: nat, name: string, ino: nat, mode: Mode)
    | Chmod(ino: nat, mode: Mode)
    | Write(ino: nat, offset: nat, chunk: Bytes)
    | Rename(dir: nat, from: string, to: string)
    | Unlink(dir: nat, name: string)
    | Sight(dir: nat, name: string, ino: nat)    // Lstat saw a regular file
    | Missing(dir: nat, name: string)            // Lstat or open found nothing
    | Open(dir: nat, name: string, ino: nat)     // open returned this inode
    | Read(ino: nat, offset: nat, chunk: Bytes)
    | Eof(ino: nat, offset: nat)
    | Seal(ino: nat)                             // the staged file was synced and closed

  function Put(fs: Fs, i: nat, inode: Inode): Fs {
    fs.(nodes := fs.nodes[i := inode])
  }

  function Linked(fs: Fs, d: nat, n: string, i: nat): Fs
    requires IsDir(fs, d)
  {
    Put(fs, d, Inode(fs.nodes[d].mode, Directory(fs.nodes[d].node.entries[n := i])))
  }

  function Unlinked(fs: Fs, d: nat, n: string): Fs
    requires IsDir(fs, d)
  {
    Put(fs, d, Inode(fs.nodes[d].mode, Directory(fs.nodes[d].node.entries - {n})))
  }

  function Zeros(k: nat): Bytes {
    seq(k, _ => 0)
  }

  /** What a write at an offset leaves: the file is zero-filled up to it. */
  function Overlay(data: Bytes, offset: nat, chunk: Bytes): Bytes {
    var base := if |data| < offset then data + Zeros(offset - |data|) else data[..offset];
    base + chunk + (if offset + |chunk| < |data| then data[offset + |chunk|..] else [])
  }

  /** A name a directory can hold; "." and ".." are not stored entries. */
  predicate Plain(n: string) {
    n != "" && n != "." && n != ".."
  }

  predicate Enabled(fs: Fs, c: Call) {
    match c
    case MkdirAll(p, i, m) => p !in fs.anchors && i !in fs.nodes && Within(m, DIR_PERM)
    case Mkdir(d, n, i, m) => IsDir(fs, d) && Plain(n) && Entry(fs, d, n).None? && i !in fs.nodes && Within(m, DIR_PERM)
    case Create(d, n, i, m) =>
      IsDir(fs, d) && Plain(n) && Entry(fs, d, n).None? && i !in fs.nodes && Within(m, FILE_PERM)
    case Chmod(i, _) => i in fs.nodes
    case Write(i, _, _) => IsFile(fs, i)
    case Rename(d, a, b) =>
      && Entry(fs, d, a).Some? && Entry(fs, d, a).value in fs.nodes && a != b
      && (if IsDir(fs, Entry(fs, d, a).value)
          then Entry(fs, d, b).Some? ==>
            IsDir(fs, Entry(fs, d, b).value) && fs.nodes[Entry(fs, d, b).value].node.entries == map[]
          else Entry(fs, d, b).Some? ==> !IsDir(fs, Entry(fs, d, b).value))
    case Unlink(d, n) =>
      Entry(fs, d, n).Some?
        && (IsDir(fs, Entry(fs, d, n).value) ==> fs.nodes[Entry(fs, d, n).value].node.entries == map[])
    case Sight(d, n, i) => Entry(fs, d, n) == Some(i) && IsFile(fs, i)
    case Missing(d, n) => Entry(fs, d, n).None?
    case Open(d, n, i) =>
      Entry(fs, d, n).Some? && Entry(fs, d, n).value in fs.nodes && i in fs.nodes
      && (Entry(fs, d, n).value == i || fs.nodes[Entry(fs, d, n).value].node.Symlink?)
    case Read(i, off, chunk) =>
      IsFile(fs, i) && chunk != [] && off + |chunk| <= |DataOf(fs, i)| && DataOf(fs, i)[off..off + |chunk|] == chunk
    case Eof(i, off) => IsFile(fs, i) && |DataOf(fs, i)| <= off
    case Seal(i) => IsFile(fs, i)
  }

  function Apply(fs: Fs, c: Call): Fs
    requires Enabled(fs, c)
  {
    match c
    case MkdirAll(p, i, m) => Put(fs, i, Inode(m, Directory(map[]))).(anchors := fs.anchors[p := Anchor(i, false)])
    case Mkdir(d, n, i, m) => Linked(Put(fs, i, Inode(m, Directory(map[]))), d, n, i)
    case Create(d, n, i, m) => Linked(Put(fs, i, Inode(m, Regular([]))), d, n, i)
    case Chmod(i, m) => Put(fs, i, fs.nodes[i].(mode := m))
    case Write(i, off, chunk) => Put(fs, i, fs.nodes[i].(node := Regular(Overlay(DataOf(fs, i), off, chunk))))
    case Rename(d, a, b) => Linked(Unlinked(fs, d, a), d, b, Entry(fs, d, a).value)
    case Unlink(d, n) => Unlinked(fs, d, n)
    case _ => fs
  }

  lemma PutKeeps(fs: Fs, i: nat, inode: Inode)
    requires Closed(fs)
    requires i in fs.nodes ==> SameKind(fs.nodes[i].node, inode.node)
    requires inode.node.Directory? ==> forall n | n in inode.node.entries :: inode.node.entries[n] in fs.nodes
    ensures Closed(Put(fs, i, inode)) && KindsKept(fs, Put(fs, i, inode))
  {
  }

  lemma UnlinkedKeeps(fs: Fs, d: nat, n: string)
    requires Closed(fs) && IsDir(fs, d)
    ensures Closed(Unlinked(fs, d, n)) && KindsKept(fs, Unlinked(fs, d, n))
  {
    PutKeeps(fs, d, Unlinked(fs, d, n).nodes[d]);
  }

  lemma LinkedKeeps(fs: Fs, d: nat, n: string, i: nat)
    requires Closed(fs) && IsDir(fs, d) && i in fs.nodes
    ensures Closed(Linked(fs, d, n, i)) && KindsKept(fs, Linked(fs, d, n, i))
  {
    PutKeeps(fs, d, Linked(fs, d, n, i).nodes[d]);
  }

  lemma ApplyKeeps(fs: Fs, c: Call)
    requires Closed(fs) && Enabled(fs, c)
    ensures Closed(Apply(fs, c)) && KindsKept(fs, Apply(fs, c))
  {
    match c
    case MkdirAll(_, i, m) =>
      PutKeeps(fs, i, Inode(m, Directory(map[])));
    case Mkdir(d, n, i, m) =>
      PutKeeps(fs, i, Inode(m, Directory(map[])));
      LinkedKeeps(Put(fs, i, Inode(m, Directory(map[]))), d, n, i);
    case Create(d, n, i, m) =>
      PutKeeps(fs, i, Inode(m, Regular([])));
      LinkedKeeps(Put(fs, i, Inode(m, Regular([]))), d, n, i);
    case Chmod(i, m) =>
      PutKeeps(fs, i, fs.nodes[i].(mode := m));
    case Write(i, off, chunk) =>
      PutKeeps(fs, i, fs.nodes[i].(node := Regular(Overlay(DataOf(fs, i), off, chunk))));
    case Rename(d, a, b) =>
      UnlinkedKeeps(fs, d, a);
      LinkedKeeps(Unlinked(fs, d, a), d, b, Entry(fs, d, a).value);
    case Unlink(d, n) =>
      UnlinkedKeeps(fs, d, n);
    case _ =>
  }
}
