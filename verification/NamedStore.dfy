/** Writing and removing by name, in terms of what every name of the store holds. */
module NamedStore {
  import opened Basics
  import opened Filesystem
  import opened Protocol
  import opened Provider
  import opened Paths
  import opened Host
  import opened StoreSpec
  import opened Replacement
  import opened Rooted
  import opened StagedWrite
  import opened Names

  /** A name callers may use. */
  predicate Usual(name: RelPath) {
    IsLocal(name) && !IsStaging(BaseName(name))
  }

  /** One name holds `v` in `s`; every other holds what it held in `a`. */
  ghost predicate OnlyChanges(a: Fs, s: Fs, rootDir: string, name: RelPath, v: Option<Bytes>)
    requires IsLocal(name)
  {
    && Under(s, rootDir, name) == v
    && forall other: RelPath | Usual(other) && Target(other) != Target(name) ::
         Under(s, rootDir, other) == Under(a, rootDir, other)
  }

  ghost predicate OldOrNewOnly(a: Fs, s: Fs, rootDir: string, name: RelPath, v: Option<Bytes>)
    requires IsLocal(name)
  {
    OnlyChanges(a, s, rootDir, name, Under(a, rootDir, name)) || OnlyChanges(a, s, rootDir, name, v)
  }

  /** Every other name that could be read still reads the same. */
  ghost predicate OthersReadSame(a: Fs, s: Fs, rootDir: string, name: RelPath)
    requires Closed(a) && Closed(s) && IsLocal(name)
  {
    forall other: RelPath | Usual(other) && Target(other) != Target(name) && ReadSpec(a, rootDir, other).Ok? ::
      ReadSpec(s, rootDir, other) == ReadSpec(a, rootDir, other)
  }

  ghost predicate AllOldOrNew(before: seq<Moment>, after: seq<Moment>, a: Fs, rootDir: string, name: RelPath,
                              v: Option<Bytes>)
    requires IsLocal(name)
  {
    before <= after && forall k | |before| <= k < |after| ::
      Closed(after[k].fs) && Planted(after[k].fs, rootDir) && OldOrNewOnly(a, after[k].fs, rootDir, name, v)
  }

  lemma WritingReadsSame(a: Fs, s: Fs, at: Place, data: Bytes, rootDir: string, name: RelPath)
    requires Closed(a) && InFlightNamed(a, s, rootDir, name, at, data) && Usual(name) && Planted(a, rootDir)
    ensures Closed(s) && OthersReadSame(a, s, rootDir, name)
  {
    forall other: RelPath | Usual(other) && Target(other) != Target(name) && ReadSpec(a, rootDir, other).Ok?
      ensures ReadSpec(s, rootDir, other) == ReadSpec(a, rootDir, other)
    {
      OthersRead(a, s, at, data, rootDir, name, other);
    }
  }

  lemma WritingOnly(a: Fs, s: Fs, at: Place, data: Bytes, rootDir: string, name: RelPath)
    requires Closed(a) && InFlightNamed(a, s, rootDir, name, at, data) && Usual(name) && Planted(a, rootDir)
    ensures Closed(s) && Planted(s, rootDir) && OldOrNewOnly(a, s, rootDir, name, Some(data))
  {
    WriteKeepsPlanted(a, s, at, data, rootDir);
    OldOrNew(a, s, at, data, rootDir, name);
    forall other: RelPath | Usual(other) && Target(other) != Target(name)
      ensures Under(s, rootDir, other) == Under(a, rootDir, other)
    {
      OtherNamesKeep(a, s, at, data, rootDir, name, other);
    }
  }

  /** Nothing new stands where the destination was kept. */
  lemma KeptOnly(a: Fs, s: Fs, at: Place, data: Bytes, rootDir: string, name: RelPath)
    requires Closed(a) && InFlightNamed(a, s, rootDir, name, at, data) && Usual(name) && Planted(a, rootDir)
    requires DestinationKept(a, s, at)
    ensures OnlyChanges(a, s, rootDir, name, Under(a, rootDir, name))
  {
    WritingOnly(a, s, at, data, rootDir, name);
    KeptUnder(a, s, at, data, rootDir, name);
  }

  lemma KeptUnder(a: Fs, s: Fs, at: Place, data: Bytes, rootDir: string, name: RelPath)
    requires Closed(a) && InFlight(a, s, at, data) && Usual(name) && DestinationKept(a, s, at)
    ensures Under(s, rootDir, name) == Under(a, rootDir, name)
  {
    InFlightKeepsDirs(a, s, at, data);
    if Under(a, rootDir, name).Some? {
      ReachKept(a, s, a.anchors[rootDir].ino, Parents(name));
      FileOldOrNew(a, s, at, data, Place(Parent(a, rootDir, name).value, BaseName(name)));
    } else if Under(s, rootDir, name).Some? {
      var p := Place(Parent(s, rootDir, name).value, BaseName(name));
      FileOldOrNew(a, s, at, data, p);
      if p.dir in a.nodes {
        ParentBack(a, s, at, data, rootDir, name);
      }
    }
  }

  /** Why a write may fail although no call broke: something in its way, or a
      staging name that was taken. */
  ghost predicate WriteHindered(fs: Fs, rootDir: string, name: RelPath, err: Error)
    requires Closed(fs)
  {
    (err == Exist && StagingLeft(fs)) || ObstacleSpec(fs, rootDir, name) == Some(err)
  }

  /** WriteSecureAt by name: at every moment its name holds the old bytes or all
      of the new ones, and no other name is touched; success means the new ones
      and failure the old ones. */
  method WriteNamed(h: Machine, rootDir: string, name: RelPath, data: Bytes) returns (err: Option<Error>)
    requires h.Valid() && Usual(name)
    modifies h`fs, h`acts, h`trail, h`faults, h`pc, h`sights
    ensures h.Valid() && old(h.faults) <= h.faults
    ensures h.alone && Planted(old(h.fs), rootDir) ==>
      AllOldOrNew(old(h.trail), h.trail, old(h.fs), rootDir, name, Some(data))
    ensures h.alone && Planted(old(h.fs), rootDir) ==> Planted(h.fs, rootDir)
    ensures h.alone && Planted(old(h.fs), rootDir) ==>
      OnlyChanges(old(h.fs), h.fs, rootDir, name, if err.None? then Some(data) else Under(old(h.fs), rootDir, name))
    ensures h.alone && Planted(old(h.fs), rootDir) ==> OthersReadSame(old(h.fs), h.fs, rootDir, name)
    ensures h.alone && err.Some? && h.faults == old(h.faults) ==> WriteHindered(h.fs, rootDir, name, err.value)
    ensures h.alone && err.None? ==>
      ReadSpec(h.fs, rootDir, name) == Ok(data) && Under(h.fs, rootDir, name) == Some(data)
  {
    ghost var at, chain;
    err, at, chain := WriteSecureAt(h, rootDir, name, data);
    if h.alone {
      if err.None? {
        ReadUnder(h.fs, rootDir, name);
      }
      if Planted(old(h.fs), rootDir) {
        AllWritingOnly(old(h.fs), old(h.trail), h.trail, h.calls, at, data, rootDir, name);
        WritingOnly(old(h.fs), h.fs, at, data, rootDir, name);
        WritingReadsSame(old(h.fs), h.fs, at, data, rootDir, name);
        if err.Some? {
          KeptOnly(old(h.fs), h.fs, at, data, rootDir, name);
        }
      }
    }
  }

  lemma AllWritingOnly(a: Fs, before: seq<Moment>, after: seq<Moment>, calls: seq<Remote>, at: Place, data: Bytes,
                       rootDir: string, name: RelPath)
    requires Closed(a) && Usual(name) && Planted(a, rootDir)
    requires TrailWriting(before, after, calls, a, rootDir, name, at, data)
    ensures AllOldOrNew(before, after, a, rootDir, name, Some(data))
  {
    forall k | |before| <= k < |after|
      ensures Closed(after[k].fs) && Planted(after[k].fs, rootDir)
      ensures OldOrNewOnly(a, after[k].fs, rootDir, name, Some(data))
    {
      WritingOnly(a, after[k].fs, at, data, rootDir, name);
    }
  }

  /** RemoveSecureAt by name: one step, and only this name is emptied. */
  method RemoveNamed(h: Machine, rootDir: string, name: RelPath) returns (err: Option<Error>)
    requires h.Valid() && Usual(name)
    modifies h`fs, h`acts, h`trail, h`faults, h`pc, h`sights
    ensures h.Valid() && old(h.faults) <= h.faults
    ensures h.alone ==> h.trail == old(h.trail) + if err.None? then [Moment(h.fs, h.calls)] else []
    ensures h.alone && err.Some? ==> h.fs == old(h.fs)
    ensures h.alone && (err.None? || err == Some(NotExist)) ==> Under(h.fs, rootDir, name) == None
    ensures h.alone && h.faults == old(h.faults) ==>
      err == match RemovalSpec(old(h.fs), rootDir, name) case Ok(_) => None case Err(e) => Some(e)
    ensures h.alone && err.None? && Planted(old(h.fs), rootDir) ==>
      Planted(h.fs, rootDir) && OnlyChanges(old(h.fs), h.fs, rootDir, name, None)
  {
    ghost var at, chain;
    err, at, chain := RemoveSecureAt(h, rootDir, name);
    if h.alone && err.None? {
      RemovedUnder(old(h.fs), at, rootDir, name);
      if Planted(old(h.fs), rootDir) {
        UnlinkPlanted(old(h.fs), at, rootDir, name);
      }
    } else if h.alone && err == Some(NotExist) {
      AbsentUnder(h.fs, rootDir, name);
    }
  }

  lemma UnlinkPlanted(a: Fs, at: Place, rootDir: string, name: RelPath)
    requires Closed(a) && IsLocal(name) && RemovalSpec(a, rootDir, name) == Ok(at) && Planted(a, rootDir)
    ensures var s := Unlinked(a, at.dir, at.base); Planted(s, rootDir) && OnlyChanges(a, s, rootDir, name, None)
  {
    var s := Unlinked(a, at.dir, at.base);
    RemovedUnder(a, at, rootDir, name);
    CallKeepsTree(a, Unlink(at.dir, at.base), a.anchors[rootDir].ino);
    forall other: RelPath | Usual(other) && Target(other) != Target(name)
      ensures Under(s, rootDir, other) == Under(a, rootDir, other)
    {
      RemovedOthers(a, at, rootDir, name, other);
    }
  }
}
