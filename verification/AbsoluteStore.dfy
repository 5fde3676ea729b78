/** store/store.go: whole-file IO on a path whose parent the caller trusts. */
module AbsoluteStore {
  import opened Basics
  import opened Filesystem
  import opened Protocol
  import opened Provider
  import opened Paths
  import opened Host
  import opened StoreSpec
  import opened Replacement
  import opened Rooted
  import opened StagedWrite

  /** What stands under a path, whoever may read it. */
  function Stored(fs: Fs, dir: string, base: string): Option<Bytes> {
    if dir !in fs.anchors then None
    else FileAt(fs, Place(fs.anchors[dir].ino, base))
  }

  /** The path leads to this inode. */
  predicate LeadsTo(fs: Fs, dir: string, base: string, i: nat) {
    dir in fs.anchors && Entry(fs, fs.anchors[dir].ino, base) == Some(i)
  }

  /** The last element of a clean path. */
  predicate Simple(base: string) {
    Plain(base) && !IsStaging(base)
  }

  lemma SimpleName(base: string)
    requires Simple(base)
    ensures IsLocal([base]) && Parents([base]) == [] && BaseName([base]) == base && Undisguised([base])
  {
    assert [base][..0] == [];
    assert ["."][..0] == [];
    assert Clean(["."]) == Some([]);
  }

  /** Preparing directories leaves every path's content alone. */
  lemma PreparedStored(a: Fs, b: Fs, dir: string, base: string)
    requires Closed(a) && Prepared(a, b)
    ensures Stored(b, dir, base) == Stored(a, dir, base)
  {
    if dir in a.anchors {
      var root := a.anchors[dir].ino;
      if Entry(a, root, base).Some? {
        assert base in a.nodes[root].node.entries;
      }
    } else if dir in b.anchors {
      assert Entry(a, b.anchors[dir].ino, base).None?;
    }
  }

  /** Any moment of a write to a path shows its old content or its new. */
  lemma InFlightStored(a: Fs, s: Fs, at: Place, data: Bytes, dir: string, base: string)
    requires Closed(a) && InFlight(a, s, at, data) && dir in a.anchors && !IsStaging(base)
    requires at == Place(a.anchors[dir].ino, base) || at.base != base
    ensures Stored(s, dir, base) == Stored(a, dir, base) || (at.base == base && Stored(s, dir, base) == Some(data))
    ensures Entry(s, at.dir, at.base) == Entry(a, at.dir, at.base) ==> Stored(s, dir, base) == Stored(a, dir, base)
  {
    var root := a.anchors[dir].ino;
    if Entry(a, root, base).Some? && IsDir(a, Entry(a, root, base).value) {
      assert IsDir(s, Entry(a, root, base).value);
    }
  }

  /** EnsureDir's first half: make the path and insist on a real directory. */
  method MakeRealDir(h: Machine, path: string) returns (err: Option<Error>)
    requires h.Valid()
    modifies h`fs, h`acts, h`trail, h`faults, h`pc
    ensures h.Valid() && Walked(old(h.Now()), h.Now(), h, true)
    ensures h.alone && err.None? ==>
      path in h.fs.anchors && IsDir(h.fs, h.fs.anchors[path].ino) && !h.fs.anchors[path].symlink
    ensures h.faults != old(h.faults) ==> err == Some(Fault)
    ensures h.alone && h.faults == old(h.faults) ==>
      (err.None? <==> path in h.fs.anchors && !h.fs.anchors[path].symlink && IsDir(h.fs, h.fs.anchors[path].ino))
  {
    ghost var start := h.Now();
    ghost var was, act;
    err, was, act := h.MakeRootPath(path);
    WalkedByCall(start, h.Now(), h, act, true);
    if err.Some? {
      return;
    }
    ghost var made := h.Now();
    var seen := h.LstatPath(path);
    WalkedByCall(made, h.Now(), h, None, true);
    WalkedOn(start, made, h.Now(), h, true);
    err := if seen.Err? then Some(seen.error) else if !seen.value then Some(UnsafePath) else None;
  }

  /** EnsureDir: the directory exists, is no symlink, and is private. */
  method EnsureDir(h: Machine, path: string) returns (err: Option<Error>)
    requires h.Valid()
    modifies h`fs, h`acts, h`trail, h`faults, h`pc
    ensures h.Valid() && Walked(old(h.Now()), h.Now(), h, true)
    ensures h.alone && err.None? ==> path in h.fs.anchors && IsDir(h.fs, h.fs.anchors[path].ino)
    ensures h.alone && err.None? ==> !h.fs.anchors[path].symlink && h.fs.nodes[h.fs.anchors[path].ino].mode == DIR_PERM
    ensures h.faults != old(h.faults) ==> err == Some(Fault)
    ensures h.alone && h.faults == old(h.faults) ==>
      (err.None? <==> path in h.fs.anchors && !h.fs.anchors[path].symlink && IsDir(h.fs, h.fs.anchors[path].ino))
  {
    ghost var start := h.Now();
    err := MakeRealDir(h, path);
    if err.Some? {
      return;
    }
    ghost var looked := h.Now();
    var ok, was, act := h.ChmodPath(path, DIR_PERM);
    WalkedByCall(looked, h.Now(), h, act, true);
    WalkedOn(start, looked, h.Now(), h, true);
    err := if ok then None else Some(Fault);
  }

  /** Any new moment shows one of two contents under the path. */
  ghost predicate TrailShows(before: seq<Moment>, after: seq<Moment>, calls: seq<Remote>, dir: string, base: string,
                             x: Option<Bytes>, y: Option<Bytes>)
  {
    before <= after && forall k | |before| <= k < |after| ::
      Stored(after[k].fs, dir, base) in {x, y} && after[k].calls == calls
  }

  lemma PreparedShows(before: seq<Moment>, after: seq<Moment>, calls: seq<Remote>, a: Fs, dir: string, base: string,
                      y: Option<Bytes>)
    requires Closed(a) && TrailPrepared(before, after, a, calls)
    ensures TrailShows(before, after, calls, dir, base, Stored(a, dir, base), y)
  {
    forall k | |before| <= k < |after| ensures Stored(after[k].fs, dir, base) == Stored(a, dir, base) {
      PreparedStored(a, after[k].fs, dir, base);
    }
  }

  lemma InFlightShows(before: seq<Moment>, after: seq<Moment>, calls: seq<Remote>, a: Fs, at: Place, data: Bytes,
                      dir: string, base: string)
    requires Closed(a) && TrailWriting(before, after, calls, a, dir, [base], at, data) && dir in a.anchors
    requires !IsStaging(base)
    requires at == Place(a.anchors[dir].ino, base) || at.base != base
    ensures TrailShows(before, after, calls, dir, base, Stored(a, dir, base), Some(data))
  {
    forall k | |before| <= k < |after| ensures Stored(after[k].fs, dir, base) in {Stored(a, dir, base), Some(data)} {
      InFlightStored(a, after[k].fs, at, data, dir, base);
    }
  }

  /** WriteSecureAt of a simple name, in terms of the path. */
  method WriteSimple(h: Machine, dir: string, base: string, data: Bytes) returns (err: Option<Error>)
    requires h.Valid() && Simple(base) && (h.alone ==> dir in h.fs.anchors)
    modifies h`fs, h`acts, h`trail, h`faults, h`pc, h`sights
    ensures h.Valid() && KindsKept(old(h.fs), h.fs) && old(h.faults) <= h.faults
    ensures if err.None? then Installed(h.pc, base, data) else NothingInstalled(h.pc)
    ensures h.alone ==> TrailShows(old(h.trail), h.trail, h.calls, dir, base, Stored(old(h.fs), dir, base), Some(data))
    ensures h.alone ==> Stored(h.fs, dir, base) == if err.None? then Some(data) else Stored(old(h.fs), dir, base)
    ensures h.alone && err.None? ==> ReadSpec(h.fs, dir, [base]) == Ok(data)
    ensures h.alone && err.Some? && h.faults == old(h.faults) ==>
      (err == Some(Exist) && StagingLeft(h.fs)) || err == ObstacleSpec(h.fs, dir, [base])
  {
    SimpleName(base);
    ghost var at, chain;
    err, at, chain := WriteSecureAt(h, dir, [base], data);
    if h.alone {
      assert at == Place(old(h.fs).anchors[dir].ino, base) || at.base != base;
      InFlightShows(old(h.trail), h.trail, h.calls, old(h.fs), at, data, dir, base);
      InFlightStored(old(h.fs), h.fs, at, data, dir, base);
    }
  }

  /** Why a write may be refused although no call broke: the staging name was
      taken, the directory is not a real one, or something is in the way. */
  ghost predicate Blocked(fs: Fs, dir: string, base: string, err: Error)
    requires Closed(fs)
  {
    (err == Exist && StagingLeft(fs)) || dir !in fs.anchors || fs.anchors[dir].symlink
      || !IsDir(fs, fs.anchors[dir].ino)
    || ObstacleSpec(fs, dir, [base]) == Some(err)
  }

  /** WriteSecure: the path holds what it held or the data, at every moment. */
  method WriteSecure(h: Machine, dir: string, base: string, data: Bytes) returns (err: Option<Error>)
    requires h.Valid() && Simple(base)
    modifies h`fs, h`acts, h`trail, h`faults, h`pc, h`sights
    ensures h.Valid() && KindsKept(old(h.fs), h.fs) && old(h.faults) <= h.faults
    ensures if err.None? then Installed(h.pc, base, data) else NothingInstalled(h.pc)
    ensures h.alone ==> TrailShows(old(h.trail), h.trail, h.calls, dir, base, Stored(old(h.fs), dir, base), Some(data))
    ensures h.alone ==> Stored(h.fs, dir, base) == if err.None? then Some(data) else Stored(old(h.fs), dir, base)
    ensures h.alone && err.None? ==> ReadSpec(h.fs, dir, [base]) == Ok(data)
    ensures h.alone && err.Some? && h.faults == old(h.faults) ==> Blocked(h.fs, dir, base, err.value)
  {
    h.pc := Idle;
    err := EnsureDir(h, dir);
    if h.alone {
      PreparedShows(old(h.trail), h.trail, h.calls, old(h.fs), dir, base, Some(data));
      PreparedStored(old(h.fs), h.fs, dir, base);
    }
    if err.None? {
      err := WriteSimple(h, dir, base, data);
    }
  }

  /** A read's result as its automaton ends. */
  function ReadOutcome(r: Result<Bytes>): Outcome {
    match r
    case Ok(data) => Got(data)
    case Err(e) => if e == NotExist then Absent else Failed
  }

  /** ReadSecure. */
  method ReadSecure(h: Machine, dir: string, base: string) returns (r: Result<Bytes>)
    requires h.Valid() && Simple(base)
    modifies h`fs, h`acts, h`trail, h`faults, h`pc, h`sights
    ensures h.Valid() && KindsKept(old(h.fs), h.fs) && old(h.faults) <= h.faults
    ensures h.acts == old(h.acts) && h.trail == old(h.trail) && (h.alone ==> h.fs == old(h.fs))
    ensures h.faults != old(h.faults) ==> r == Err(Fault)
    ensures if h.pc == Idle then r.Err?
      else h.pc.Ended? && h.pc.role.Reading? && h.pc.role.at.base == base && h.pc.outcome == ReadOutcome(r)
    ensures h.alone && h.faults == old(h.faults) ==> r == ReadSpec(h.fs, dir, [base])
    ensures h.alone && r.Ok? ==> Stored(h.fs, dir, base) == Some(r.value)
    ensures h.alone && r == Err(NotExist) ==> Stored(h.fs, dir, base) == None
  {
    SimpleName(base);
    ghost var chain, ino;
    r, chain, ino := ReadSecureAt(h, dir, [base]);
  }

  /** Opening for append, once it holds the directory, leaves the content alone. */
  lemma ContentKeptStored(a: Fs, b: Fs, dir: string, base: string, d: nat)
    requires Closed(a) && ContentKept(a, b, d, base) && dir in a.anchors && a.anchors[dir].ino == d
    ensures Stored(b, dir, base).GetOr([]) == Stored(a, dir, base).GetOr([])
  {
  }

  /** OpenAppendSecure once the directory is there. */
  method OpenLeaf(h: Machine, dir: string, base: string) returns (r: Result<nat>, ghost d: nat)
    requires h.Valid() && Simple(base)
    modifies h`fs, h`acts, h`trail, h`faults, h`pc, h`sights
    ensures h.Valid() && KindsKept(old(h.fs), h.fs) && old(h.faults) <= h.faults
    ensures old(h.acts) <= h.acts && (r.Ok? ==> IsFile(h.fs, r.value))
    ensures r.Ok? ==> SawFile(h.sights, d, base, r.value) || MadeFile(h.acts[|old(h.acts)|..], d, base, r.value)
    ensures h.alone && r.Ok? ==> h.fs.nodes[r.value].mode == FILE_PERM && LeadsTo(h.fs, dir, base, r.value)
    ensures h.alone ==> Stored(h.fs, dir, base).GetOr([]) == Stored(old(h.fs), dir, base).GetOr([])
  {
    SimpleName(base);
    var parent, name;
    ghost var chain;
    parent, name, chain := OpenParent(h, dir, [base], true);
    d := 0;
    if h.alone {
      PreparedStored(old(h.fs), h.fs, dir, base);
    }
    if parent.Err? {
      return parent, d;
    }
    d := parent.value;
    ghost var f, n := h.fs, h.acts;
    r := OpenManagedFile(h, parent.value, name, true, true);
    assert forall c | c in h.acts[|n|..] :: c in h.acts[|old(h.acts)|..];
    if h.alone {
      ContentKeptStored(f, h.fs, dir, base, d);
    }
  }

  /** OpenAppendSecure: a handle on a private regular file, made if absent; the
      content of the path is what it was, whether it succeeds or not. */
  method OpenAppendSecure(h: Machine, dir: string, base: string) returns (r: Result<nat>, ghost d: nat)
    requires h.Valid() && Simple(base)
    modifies h`fs, h`acts, h`trail, h`faults, h`pc, h`sights
    ensures h.Valid() && KindsKept(old(h.fs), h.fs) && old(h.faults) <= h.faults
    ensures old(h.acts) <= h.acts && (r.Ok? ==> IsFile(h.fs, r.value))
    ensures r.Ok? ==> SawFile(h.sights, d, base, r.value) || MadeFile(h.acts[|old(h.acts)|..], d, base, r.value)
    ensures h.alone && r.Ok? ==> h.fs.nodes[r.value].mode == FILE_PERM && LeadsTo(h.fs, dir, base, r.value)
    ensures h.alone ==> Stored(h.fs, dir, base).GetOr([]) == Stored(old(h.fs), dir, base).GetOr([])
  {
    var err := EnsureDir(h, dir);
    if h.alone {
      PreparedStored(old(h.fs), h.fs, dir, base);
    }
    if err.Some? {
      return Err(err.value), 0;
    }
    ghost var n := h.acts;
    r, d := OpenLeaf(h, dir, base);
    assert forall c | c in h.acts[|n|..] :: c in h.acts[|old(h.acts)|..];
  }
}
