/** What one call of WriteSecureAt, ReadSecureAt or RemoveSecureAt may do once
    it holds its parent directory: an automaton over the system calls it makes.
    The imperative code drives it, and the interleaving of many calls steps it. */
module Protocol {
  import opened Basics
  import opened Filesystem

  const STAGING_PREFIX := ".credkit-write-"

  predicate IsStaging(n: string) {
    STAGING_PREFIX <= n
  }

  datatype Place = Place(dir: nat, base: string)

  /** The bytes of the file an entry leads to, if it leads to one. */
  function FileAt(fs: Fs, at: Place): Option<Bytes> {
    var e := Entry(fs, at.dir, at.base);
    if e.Some? && IsFile(fs, e.value) then Some(DataOf(fs, e.value)) else None
  }

  datatype Role =
    | Reading(at: Place)
    | Writing(at: Place, data: Bytes)
    | Removing(at: Place)

  datatype Outcome =
    | Failed
    | Absent
    | Got(data: Bytes)
    | Replaced
    | Removed

  datatype Pc =
    | Idle                                                      // still walking to the parent
    | Started(role: Role)
    | Sighted(role: Role, ino: nat)                             // Lstat saw this regular file
    | Loading(role: Role, ino: nat, buf: Bytes)                 // the same file is open
    | Staging(role: Role, temp: string, ino: nat, written: Bytes)
    | Sealed(role: Role, temp: string, ino: nat)                // all of the data is staged
    | Swept(role: Role, temp: string)                           // renamed; deferred cleanup is left
    | Ended(role: Role, outcome: Outcome)
    | Stuck

  function Advance(pc: Pc, c: Call): Pc {
    match pc
    case Idle =>
      if c.MkdirAll? || c.Mkdir? || c.Chmod? then Idle else Stuck
    case Started(role) => AdvanceStarted(role, c)
    case Sighted(role, i) => AdvanceSighted(role, i, c)
    case Loading(role, i, buf) =>
      if c.Read? && c.ino == i && c.offset == |buf| then Loading(role, i, buf + c.chunk)
      else if c.Eof? && c.ino == i && c.offset == |buf| then Ended(role, Got(buf))
      else Stuck
    case Staging(role, t, i, w) => AdvanceStaging(role, t, i, w, c)
    case Sealed(role, t, i) =>
      if c == Rename(role.at.dir, t, role.at.base) then Swept(role, t)
      else if c == Unlink(role.at.dir, t) then Ended(role, Failed)
      else Stuck
    case Swept(role, t) =>
      if c == Unlink(role.at.dir, t) then Ended(role, Replaced) else Stuck
    case _ => Stuck
  }

  function AdvanceStarted(role: Role, c: Call): Pc {
    if c.Sight? && Place(c.dir, c.name) == role.at then
      if role.Writing? then Started(role) else Sighted(role, c.ino)
    else if c.Missing? && Place(c.dir, c.name) == role.at then
      if role.Writing? then Started(role) else Ended(role, Absent)
    else if c.Create? && role.Writing? && c.dir == role.at.dir && IsStaging(c.name) then
      Staging(role, c.name, c.ino, [])
    else
      Stuck
  }

  function AdvanceSighted(role: Role, i: nat, c: Call): Pc {
    if c.Missing? && Place(c.dir, c.name) == role.at then Ended(role, Absent)
    else if role.Reading? && c.Open? && Place(c.dir, c.name) == role.at then
      if c.ino == i then Loading(role, i, []) else Ended(role, Failed)
    else if role.Removing? && c == Unlink(role.at.dir, role.at.base) then Ended(role, Removed)
    else Stuck
  }

  function AdvanceStaging(role: Role, t: string, i: nat, w: Bytes, c: Call): Pc {
    if c.Chmod? && c.ino == i then Staging(role, t, i, w)
    else if c.Write? && c.ino == i && c.offset == |w| && role.Writing? && w + c.chunk <= role.data then
      Staging(role, t, i, w + c.chunk)
    else if c.Seal? && c.ino == i && role.Writing? && w == role.data then Sealed(role, t, i)
    else if c == Unlink(role.at.dir, t) then Ended(role, Failed)
    else Stuck
  }

  /** The call returns to its caller. */
  function Return(pc: Pc): Pc {
    match pc
    case Started(role) => Ended(role, Failed)
    case Sighted(role, _) => Ended(role, Failed)
    case Loading(role, _, _) => Ended(role, Failed)
    case Staging(role, _, _, _) => Ended(role, Failed)
    case Sealed(role, _, _) => Ended(role, Failed)
    case Swept(role, _) => Ended(role, Replaced)
    case _ => pc
  }

  /** A read of `base` came to this: its automaton says so, unless the directory
      was not even reached. */
  predicate CameTo(pc: Pc, base: string, out: Outcome) {
    if pc == Idle then out.Absent? || out.Failed?
    else
      && pc.Ended? && pc.role.Reading? && pc.role.at.base == base
      && pc.outcome == out && (out.Got? || out.Absent? || out.Failed?)
  }

  /** A write of `base` replaced it by these bytes. */
  predicate Installed(pc: Pc, base: string, bytes: Bytes) {
    pc.Ended? && pc.role.Writing? && pc.role.at.base == base && pc.role.data == bytes && pc.outcome.Replaced?
  }

  predicate NothingInstalled(pc: Pc) {
    pc == Idle || (pc.Ended? && !pc.outcome.Replaced?)
  }

  /** Short of its rename a write goes on as the same write, or has failed. */
  lemma WritesOn(pc: Pc, c: Call)
    requires (pc.Started? || pc.Staging? || pc.Sealed?) && pc.role.Writing? && !c.Rename? && !Advance(pc, c).Stuck?
    ensures var next := Advance(pc, c);
      (next.Started? || next.Staging? || next.Sealed? || (next.Ended? && next.outcome.Failed?)) && next.role == pc.role
  {
  }

  /** A write that gives its staging name up has failed, whether the name goes or
      stays. */
  lemma GivesUp(pc: Pc, d: nat, t: string)
    requires (pc.Staging? || pc.Sealed?) && pc.temp == t && pc.role.Writing? && pc.role.at.dir == d
    ensures Advance(pc, Unlink(d, t)) == Ended(pc.role, Failed) && Return(pc) == Ended(pc.role, Failed)
  {
  }
}
