/** A process's view of the machine: its system calls, each one atomic, each one
    able to fail, and each one preceded by whatever other processes do. */
module Host {
  import opened Basics
  import opened Filesystem
  import opened Protocol
  import opened Provider

  datatype Kind = DirectoryKind | RegularKind | SymlinkKind | SpecialKind

  datatype Stat = Stat(ino: nat, kind: Kind, mode: Mode)

  function KindOf(n: Node): Kind {
    match n
    case Directory(_) => DirectoryKind
    case Regular(_) => RegularKind
    case Symlink(_) => SymlinkKind
    case Special => SpecialKind
  }

  function StatOf(fs: Fs, i: nat): Stat
    requires i in fs.nodes
  {
    Stat(i, KindOf(fs.nodes[i].node), fs.nodes[i].mode)
  }

  /** Something an inspecting call established at the moment it was made. */
  datatype Sighting =
    | Found(dir: nat, name: string, stat: Stat)    // Lstat of a name in a directory
    | Examined(stat: Stat)                         // Stat of an open handle

  /** Everything that survives if the process dies right here. */
  datatype Moment = Moment(fs: Fs, calls: seq<Remote>)

  /** A machine's fields at one instant. */
  datatype State = State(fs: Fs, acts: seq<Call>, sights: set<Sighting>, trail: seq<Moment>, faults: nat, pc: Pc)

  class Machine {
    const alone: bool             // no other process touches the file system
    var fs: Fs
    ghost var acts: seq<Call>     // the changes this process made, in order
    ghost var sights: set<Sighting>
    var trail: seq<Moment>        // what a crash after each change would leave, in order
    ghost var faults: nat         // calls that failed for no reason visible in the model
    ghost var pc: Pc              // where the current store operation stands
    var calls: seq<Remote>        // requests sent to the token provider

    constructor (fs: Fs, alone: bool)
      requires Closed(fs)
      ensures Valid() && this.fs == fs && this.alone == alone && acts == [] && trail == [] && calls == []
    {
      this.fs, this.alone := fs, alone;
      acts, sights, trail, faults, pc, calls := [], {}, [], 0, Idle, [];
    }

    ghost predicate Valid()
      reads this
    {
      Closed(fs)
    }

    ghost function Now(): State
      reads this
    {
      State(fs, acts, sights, trail, faults, pc)
    }

    /** Other processes act before every call of ours. */
    method Interference()
      requires Valid()
      modifies `fs
      ensures Valid() && KindsKept(old(fs), fs)
      ensures alone ==> fs == old(fs)
    {
      var next: Fs := *;
      if !alone && OthersMove(fs, next) {
        fs := next;
      }
    }

    ghost method Note(c: Call)
      requires Enabled(fs, c)
      modifies `pc
      ensures pc == Advance(old(pc), c)
    {
      pc := Advance(pc, c);
    }

    method Perform(c: Call)
      requires Valid() && Enabled(fs, c)
      modifies `fs, `acts, `trail, `pc
      ensures Valid() && KindsKept(old(fs), fs)
      ensures fs == Apply(old(fs), c)
      ensures acts == old(acts) + [c]
      ensures trail == old(trail) + [Moment(fs, calls)]
      ensures pc == Advance(old(pc), c)
    {
      ApplyKeeps(fs, c);
      fs := Apply(fs, c);
      acts := acts + [c];
      trail := trail + [Moment(fs, calls)];
      pc := Advance(pc, c);
    }

    method Breaks() returns (broken: bool)
      modifies `faults
      ensures faults == old(faults) + if broken then 1 else 0
    {
      broken := *;
      if broken {
        faults := faults + 1;
      }
    }

    // ---- Calls that only look ----------------------------------------------

    /** os.OpenRoot: the directory a trusted path stands for, symlink or not. */
    method OpenRootPath(path: string) returns (r: Result<nat>)
      requires Valid()
      modifies `fs, `faults
      ensures Valid() && KindsKept(old(fs), fs) && (alone ==> fs == old(fs))
      ensures Answered(r, OpenRootSpec(fs, path), old(faults), faults)
    {
      Interference();
      var broken := Breaks();
      r := if broken then Err(Fault) else OpenRootSpec(fs, path);
    }

    /** Root.Lstat: what a name is, without following it. */
    method Lstat(d: nat, n: string) returns (r: Result<Stat>)
      requires Valid() && IsDir(fs, d)
      modifies `fs, `faults, `sights
      ensures Valid() && KindsKept(old(fs), fs) && (alone ==> fs == old(fs))
      ensures Answered(r, LstatSpec(fs, d, n), old(faults), faults)
      ensures sights == old(sights) + if r.Ok? then {Found(d, n, r.value)} else {}
    {
      Interference();
      var broken := Breaks();
      r := if broken then Err(Fault) else LstatSpec(fs, d, n);
      if r.Ok? {
        sights := sights + {Found(d, n, r.value)};
      }
    }

    /** Stat of an open handle. */
    method Fstat(i: nat) returns (r: Result<Stat>)
      requires Valid() && i in fs.nodes
      modifies `fs, `faults, `sights
      ensures Valid() && KindsKept(old(fs), fs) && (alone ==> fs == old(fs))
      ensures Answered(r, Ok(StatOf(fs, i)), old(faults), faults)
      ensures sights == old(sights) + if r.Ok? then {Examined(r.value)} else {}
    {
      Interference();
      var broken := Breaks();
      r := if broken then Err(Fault) else Ok(StatOf(fs, i));
      if r.Ok? {
        sights := sights + {Examined(r.value)};
      }
    }

    /** Root.OpenRoot of a child: a symlink inside the root is followed, to any
        directory it might lead to. */
    method OpenDir(d: nat, n: string) returns (r: Result<nat>)
      requires Valid() && IsDir(fs, d)
      modifies `fs, `faults
      ensures Valid() && KindsKept(old(fs), fs) && (alone ==> fs == old(fs))
      ensures old(faults) <= faults && (faults != old(faults) ==> r == Err(Fault))
      ensures r.Ok? ==> IsDir(fs, r.value) && Entry(fs, d, n).Some?
      ensures Entry(fs, d, n).Some? && IsDir(fs, Entry(fs, d, n).value) && faults == old(faults) ==>
        r == Ok(Entry(fs, d, n).value)
    {
      Interference();
      var broken := Breaks();
      var target: nat := *;
      if broken {
        r := Err(Fault);
      } else if Entry(fs, d, n).None? {
        r := Err(NotExist);
      } else if IsDir(fs, Entry(fs, d, n).value) {
        r := Ok(Entry(fs, d, n).value);
      } else if fs.nodes[Entry(fs, d, n).value].node.Symlink? && IsDir(fs, target) {
        r := Ok(target);
      } else {
        r := Err(Fault);
      }
    }

    /** Root.OpenFile without O_CREATE: a symlink is followed here as well. */
    method OpenExisting(d: nat, n: string) returns (r: Result<nat>)
      requires Valid() && IsDir(fs, d)
      modifies `fs, `faults, `pc
      ensures Valid() && KindsKept(old(fs), fs) && (alone ==> fs == old(fs))
      ensures old(faults) <= faults && (faults != old(faults) ==> r == Err(Fault))
      ensures r.Ok? ==> r.value in fs.nodes && pc == Advance(old(pc), Open(d, n, r.value))
      ensures r == Err(NotExist) ==> pc == Advance(old(pc), Missing(d, n))
      ensures r.Err? && r.error != NotExist ==> pc == old(pc)
      ensures Entry(fs, d, n).Some? && IsFile(fs, Entry(fs, d, n).value) && faults == old(faults) ==>
        r == Ok(Entry(fs, d, n).value)
    {
      Interference();
      var broken := Breaks();
      var target: nat := *;
      if broken {
        r := Err(Fault);
      } else if Entry(fs, d, n).None? {
        Note(Missing(d, n));
        r := Err(NotExist);
      } else if fs.nodes[Entry(fs, d, n).value].node.Symlink? {
        if target in fs.nodes {
          Note(Open(d, n, target));
          r := Ok(target);
        } else {
          r := Err(Fault);
        }
      } else {
        Note(Open(d, n, Entry(fs, d, n).value));
        r := Ok(Entry(fs, d, n).value);
      }
    }

    /** One read(2): some bytes, or none at the end of the file. */
    method ReadSome(i: nat, offset: nat) returns (r: Result<Bytes>)
      requires Valid() && IsFile(fs, i)
      modifies `fs, `faults, `pc
      ensures Valid() && KindsKept(old(fs), fs) && (alone ==> fs == old(fs))
      ensures old(faults) <= faults && (r.Err? <==> faults != old(faults))
      ensures r.Err? ==> r == Err(Fault) && pc == old(pc)
      ensures r.Ok? && r.value == [] ==> |DataOf(fs, i)| <= offset && pc == Advance(old(pc), Eof(i, offset))
      ensures r.Ok? && r.value != [] ==>
        && offset + |r.value| <= |DataOf(fs, i)| && r.value == DataOf(fs, i)[offset..offset + |r.value|]
        && pc == Advance(old(pc), Read(i, offset, r.value))
    {
      Interference();
      var broken := Breaks();
      var n: nat := *;
      var data := DataOf(fs, i);
      if broken {
        r := Err(Fault);
      } else if |data| <= offset {
        Note(Eof(i, offset));
        r := Ok([]);
      } else {
        var size := if 0 < n <= |data| - offset then n else |data| - offset;
        var chunk := data[offset..offset + size];
        Note(Read(i, offset, chunk));
        r := Ok(chunk);
      }
    }

    /** Sync and Close of a written file: nothing but the chance to fail. */
    method Settle() returns (ok: bool)
      requires Valid()
      modifies `fs, `faults
      ensures Valid() && KindsKept(old(fs), fs) && (alone ==> fs == old(fs))
      ensures faults == old(faults) + if ok then 0 else 1
    {
      Interference();
      var broken := Breaks();
      ok := !broken;
    }

    // ---- Calls that change something ---------------------------------------

    /** os.MkdirAll of a trusted path. */
    method MakeRootPath(path: string) returns (err: Option<Error>, ghost was: Fs, ghost act: Option<Call>)
      requires Valid()
      modifies `fs, `acts, `trail, `faults, `pc
      ensures Took(was, act)
      ensures err.Some? ==> err == Some(Fault) && act.None?
      ensures old(faults) <= faults && (faults != old(faults) ==> err.Some?)
      ensures act.Some? ==> act.value.MkdirAll? && act.value.path == path
      ensures err.None? ==> path in fs.anchors && IsDir(fs, fs.anchors[path].ino)
      ensures err.Some? && faults == old(faults) ==> path in was.anchors && !IsDir(was, was.anchors[path].ino)
    {
      Interference();
      was, act := fs, None;
      var broken := Breaks();
      var i: nat := *;
      var mask: Mode := *;
      if broken {
        return Some(Fault), was, None;
      } else if path in fs.anchors {
        return if IsDir(fs, fs.anchors[path].ino) then None else Some(Fault), was, None;
      } else if i in fs.nodes {
        faults := faults + 1;
        return Some(Fault), was, None;
      }
      Perform(MkdirAll(path, i, DIR_PERM & mask));
      return None, was, Some(MkdirAll(path, i, DIR_PERM & mask));
    }

    /** Root.Mkdir with DIR_PERM, reduced by whatever the umask takes away. */
    method MakeDir(d: nat, n: string) returns (err: Option<Error>, ghost was: Fs, ghost act: Option<Call>)
      requires Valid() && IsDir(fs, d)
      modifies `fs, `acts, `trail, `faults, `pc
      ensures Took(was, act)
      ensures err.None? <==> act.Some?
      ensures act.Some? ==> act.value.Mkdir? && act.value.dir == d && act.value.name == n
      ensures Plain(n) && Entry(was, d, n).None? && faults == old(faults) ==> err.None?
      ensures err == Some(Exist) ==> Entry(was, d, n).Some?
      ensures faults != old(faults) ==> err == Some(Fault)
      ensures old(faults) <= faults
    {
      Interference();
      was, act := fs, None;
      var broken := Breaks();
      var i: nat := *;
      var mask: Mode := *;
      if broken {
        return Some(Fault), was, None;
      } else if !Plain(n) {
        return Some(Escapes), was, None;
      } else if Entry(fs, d, n).Some? {
        return Some(Exist), was, None;
      } else if i in fs.nodes {
        faults := faults + 1;
        return Some(Fault), was, None;
      }
      Perform(Mkdir(d, n, i, DIR_PERM & mask));
      return None, was, Some(Mkdir(d, n, i, DIR_PERM & mask));
    }

    /** Root.OpenFile with O_CREATE|O_EXCL and FILE_PERM. */
    method CreateFile(d: nat, n: string) returns (r: Result<nat>, ghost was: Fs, ghost act: Option<Call>)
      requires Valid() && IsDir(fs, d)
      modifies `fs, `acts, `trail, `faults, `pc
      ensures Took(was, act)
      ensures r.Ok? <==> act.Some?
      ensures act.Some? ==> act.value.Create? && act.value == Create(d, n, r.value, act.value.mode)
      ensures r == Err(Exist) ==> Entry(was, d, n).Some?
      ensures faults != old(faults) ==> r == Err(Fault)
      ensures Plain(n) && faults == old(faults) ==> r.Ok? || r == Err(Exist)
      ensures old(faults) <= faults
    {
      Interference();
      was, act := fs, None;
      var broken := Breaks();
      var i: nat := *;
      var mask: Mode := *;
      if broken {
        return Err(Fault), was, None;
      } else if !Plain(n) {
        return Err(Escapes), was, None;
      } else if Entry(fs, d, n).Some? {
        return Err(Exist), was, None;
      } else if i in fs.nodes {
        faults := faults + 1;
        return Err(Fault), was, None;
      }
      Perform(Create(d, n, i, FILE_PERM & mask));
      return Ok(i), was, Some(Create(d, n, i, FILE_PERM & mask));
    }

    /** Chmod of an open handle. */
    method Fchmod(i: nat, mode: Mode) returns (ok: bool, ghost was: Fs, ghost act: Option<Call>)
      requires Valid() && i in fs.nodes
      modifies `fs, `acts, `trail, `faults, `pc
      ensures Took(was, act)
      ensures act == if ok then Some(Chmod(i, mode)) else None
      ensures faults == old(faults) + if ok then 0 else 1
    {
      Interference();
      was, act := fs, None;
      var broken := Breaks();
      if broken {
        return false, was, None;
      }
      Perform(Chmod(i, mode));
      return true, was, Some(Chmod(i, mode));
    }

    /** One write(2): it may take only part of what it is given. */
    method WriteSome(i: nat, offset: nat, data: Bytes)
      returns (n: nat, ok: bool, ghost was: Fs, ghost act: Option<Call>)
      requires Valid() && IsFile(fs, i) && data != []
      modifies `fs, `acts, `trail, `faults, `pc
      ensures Took(was, act)
      ensures ok ==> 0 < n <= |data| && act == Some(Write(i, offset, data[..n]))
      ensures !ok ==> act.None?
      ensures faults == old(faults) + if ok then 0 else 1
    {
      Interference();
      was, act := fs, None;
      var broken := Breaks();
      n := *;
      n := if 0 < n <= |data| then n else |data|;
      if broken {
        return 0, false, was, None;
      }
      Perform(Write(i, offset, data[..n]));
      return n, true, was, Some(Write(i, offset, data[..n]));
    }

    /** One write(2) on a handle opened with O_APPEND: at the end, wherever it is. */
    method AppendSome(i: nat, data: Bytes) returns (n: nat, ok: bool, ghost was: Fs, ghost act: Option<Call>)
      requires Valid() && IsFile(fs, i) && data != []
      modifies `fs, `acts, `trail, `faults, `pc
      ensures Took(was, act)
      ensures IsFile(was, i) && (ok ==> 0 < n <= |data| && act == Some(Write(i, |DataOf(was, i)|, data[..n])))
      ensures !ok ==> act.None?
      ensures faults == old(faults) + if ok then 0 else 1
    {
      Interference();
      was, act := fs, None;
      var broken := Breaks();
      n := *;
      n := if 0 < n <= |data| then n else |data|;
      if broken {
        return 0, false, was, None;
      }
      Perform(Write(i, |DataOf(fs, i)|, data[..n]));
      return n, true, was, Some(Write(i, |DataOf(was, i)|, data[..n]));
    }

    /** Root.Rename within one directory. */
    method RenameEntry(d: nat, from: string, to: string) returns (ok: bool, ghost was: Fs, ghost act: Option<Call>)
      requires Valid() && IsDir(fs, d)
      modifies `fs, `acts, `trail, `faults, `pc
      ensures Took(was, act)
      ensures act == if ok then Some(Rename(d, from, to)) else None
      ensures old(faults) <= faults
      ensures Enabled(was, Rename(d, from, to)) && Plain(to) && faults == old(faults) ==> ok
    {
      Interference();
      was, act := fs, None;
      var broken := Breaks();
      if broken || !Plain(to) || !Enabled(fs, Rename(d, from, to)) {
        return false, was, None;
      }
      Perform(Rename(d, from, to));
      return true, was, Some(Rename(d, from, to));
    }

    /** Root.Remove: a file, a symlink or an empty directory. */
    method RemoveEntry(d: nat, n: string) returns (err: Option<Error>, ghost was: Fs, ghost act: Option<Call>)
      requires Valid() && IsDir(fs, d)
      modifies `fs, `acts, `trail, `faults, `pc
      ensures Took(was, act)
      ensures act == if err.None? then Some(Unlink(d, n)) else None
      ensures old(faults) <= faults
      ensures err == Some(NotExist) ==> Entry(was, d, n).None?
      ensures Enabled(was, Unlink(d, n)) && faults == old(faults) ==> err.None?
      ensures Entry(was, d, n).None? && faults == old(faults) ==> err == Some(NotExist)
    {
      Interference();
      was, act := fs, None;
      var broken := Breaks();
      if broken {
        return Some(Fault), was, None;
      } else if Entry(fs, d, n).None? {
        return Some(NotExist), was, None;
      } else if !Enabled(fs, Unlink(d, n)) {
        return Some(Fault), was, None;
      }
      Perform(Unlink(d, n));
      return None, was, Some(Unlink(d, n));
    }

    /** os.Lstat of a trusted path: whether the path itself is a symlink. */
    method LstatPath(path: string) returns (r: Result<bool>)
      requires Valid()
      modifies `fs, `faults
      ensures Valid() && KindsKept(old(fs), fs) && (alone ==> fs == old(fs))
      ensures Answered(r, RealDirSpec(fs, path), old(faults), faults)
    {
      Interference();
      var broken := Breaks();
      r := if broken then Err(Fault) else RealDirSpec(fs, path);
    }

    /** os.Chmod of a trusted path. */
    method ChmodPath(path: string, mode: Mode) returns (ok: bool, ghost was: Fs, ghost act: Option<Call>)
      requires Valid()
      modifies `fs, `acts, `trail, `faults, `pc
      ensures Took(was, act)
      ensures ok <==> act.Some?
      ensures act.Some? ==> path in was.anchors && act == Some(Chmod(was.anchors[path].ino, mode))
      ensures path in was.anchors && faults == old(faults) ==> ok
      ensures faults != old(faults) ==> !ok
      ensures old(faults) <= faults
    {
      Interference();
      was, act := fs, None;
      var broken := Breaks();
      if broken || path !in fs.anchors {
        return false, was, None;
      }
      ghost var call := Chmod(fs.anchors[path].ino, mode);
      Perform(Chmod(fs.anchors[path].ino, mode));
      return true, was, Some(call);
    }

    /** From `was`, which other processes left behind, one call of ours or none. */
    twostate predicate Took(new was: Fs, new act: Option<Call>)
      reads this
    {
      && Valid() && Closed(was) && KindsKept(old(fs), was) && KindsKept(was, fs)
      && (alone ==> was == old(fs))
      && match act
         case None => fs == was && acts == old(acts) && trail == old(trail) && pc == old(pc)
         case Some(c) =>
           && Enabled(was, c) && fs == Apply(was, c)
           && acts == old(acts) + [c] && trail == old(trail) + [Moment(fs, calls)] && pc == Advance(old(pc), c)
    }
  }

  // ---- What a looking call answers when nothing breaks -----------------------

  ghost predicate Answered<T>(r: Result<T>, spec: Result<T>, before: nat, after: nat) {
    before <= after && r == if before == after then spec else Err(Fault)
  }

  function OpenRootSpec(fs: Fs, path: string): Result<nat> {
    if path !in fs.anchors then Err(NotExist)
    else if !IsDir(fs, fs.anchors[path].ino) then Err(Fault)
    else Ok(fs.anchors[path].ino)
  }

  function LstatSpec(fs: Fs, d: nat, n: string): Result<Stat>
    requires Closed(fs) && IsDir(fs, d)
  {
    if n == "." then Ok(StatOf(fs, d))
    else if !Plain(n) then Err(Escapes)
    else if Entry(fs, d, n).None? then Err(NotExist)
    else Ok(StatOf(fs, Entry(fs, d, n).value))
  }

  /** Whether a trusted path is a directory and no symlink. */
  function RealDirSpec(fs: Fs, path: string): Result<bool>
    requires Closed(fs)
  {
    if path !in fs.anchors then Err(NotExist)
    else Ok(!fs.anchors[path].symlink && IsDir(fs, fs.anchors[path].ino))
  }
}
