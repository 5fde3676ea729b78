/** profile/profile.go: a profile is three files, deleted one after the other, and
    a deletion that was cut off can simply be run again. */
module Profile {
  import opened Basics
  import opened Filesystem
  import opened Protocol
  import opened Paths
  import opened Host
  import opened StoreSpec
  import opened Rooted
  import opened Names
  import opened NamedStore
  import opened Text

  const DEFAULT_NAME := "default"
  const ACTIVE: RelPath := ["active-profile"]

  /** Strings as bytes; a line feed is one byte on its own. */
  datatype Utf8 = Utf8(encode: string -> Bytes, decode: Bytes -> string)

  ghost predicate Lawful(u: Utf8) {
    (forall s :: u.decode(u.encode(s)) == s) && u.encode("\n") == [10]
  }

  function ProfilePath(name: string): RelPath {
    ["profiles", name + ".json"]
  }

  function CredentialPath(name: string): RelPath {
    ["credentials", name]
  }

  // ---- Names -------------------------------------------------------------------------

  predicate Alphanumeric(c: char) {
    'a' <= c <= 'z' || 'A' <= c <= 'Z' || '0' <= c <= '9'
  }

  /** The length of a name in bytes. */
  function Size(name: string): nat {
    if name == "" then 0
    else
      var c := name[|name| - 1] as int;
      Size(name[..|name| - 1]) + if c < 0x80 then 1 else if c < 0x800 then 2 else if c < 0x1_0000 then 3 else 4
  }

  /** ValidateName. */
  predicate ValidName(name: string) {
    && name != "" && Size(name) <= 64 && name != "." && name != ".."
    && (forall k | 0 <= k < |name| :: name[k] !in {'/', '\\', ':', '*', '?', '"', '<', '>', '|'})
    && TrimSpace(name) == name && (forall k | 0 <= k < |name| :: !Control(name[k]))
    && Alphanumeric(name[0])
  }

  /** Valid names start with a letter or figure, do not end in white space, hold no
      separator, wildcard or control character, and are at most 64 bytes long. */
  lemma ValidNameMeans(name: string)
    ensures ValidName(name) <==>
      && name != "" && Size(name) <= 64
      && ('a' <= name[0] <= 'z' || 'A' <= name[0] <= 'Z' || '0' <= name[0] <= '9')
      && !Space(name[|name| - 1])
      && forall k | 0 <= k < |name| ::
           && !(name[k] < ' ' || '\U{007F}' <= name[k] <= '\U{009F}')
           && name[k] !in {'/', '\\', ':', '*', '?', '"', '<', '>', '|'}
  {
    TrimSpaceEnds(name);
  }

  lemma TwoParts(dir: string, base: string)
    requires Plain(dir) && Plain(base) && !IsStaging(base)
    ensures Usual([dir, base]) && Target([dir, base]) == [dir, base]
  {
    CleanIsStable([dir, base]);
    CleanIsStable([dir]);
    assert [dir, base][..1] == [dir];
  }

  /** A valid name is one path element under each of its directories. */
  lemma ProfilePaths(name: string)
    requires ValidName(name)
    ensures Usual(ProfilePath(name)) && Target(ProfilePath(name)) == ProfilePath(name)
    ensures Usual(CredentialPath(name)) && Target(CredentialPath(name)) == CredentialPath(name)
    ensures Target(ProfilePath(name)) == ["profiles", name + ".json"]
    ensures Target(CredentialPath(name)) == ["credentials", name]
  {
    assert (name + ".json")[0] == name[0] && STAGING_PREFIX[0] == '.';
    TwoParts("profiles", name + ".json");
    TwoParts("credentials", name);
  }

  lemma ActivePath()
    ensures Usual(ACTIVE) && Target(ACTIVE) == ACTIVE && Parents(ACTIVE) == []
  {
    CleanIsStable(ACTIVE);
    assert ACTIVE[..0] == [] && ["."][..0] == [];
    assert Clean(["."]) == Some([]);
    assert STAGING_PREFIX[0] == '.';
  }

  // ---- The active profile --------------------------------------------------------------

  /** Which profile the active-profile file selects. */
  function ActiveName(content: Option<Bytes>, u: Utf8): Result<string> {
    match content
    case None => Ok(DEFAULT_NAME)
    case Some(data) =>
      var name := TrimSuffix(TrimSuffix(u.decode(data), '\n'), '\r');
      if name == "" then Ok(DEFAULT_NAME) else if ValidName(name) then Ok(name) else Err(Malformed)
  }

  /** A name is read back from what SetActive writes, with either line ending or
      none. */
  lemma NameIsRead(name: string, u: Utf8)
    requires Lawful(u) && ValidName(name)
    ensures forall end | end in {"", "\n", "\r\n"} :: ActiveName(Some(u.encode(name + end)), u) == Ok(name)
  {
    ValidNameMeans(name);
    forall end | end in {"", "\n", "\r\n"} ensures TrimSuffix(TrimSuffix(name + end, '\n'), '\r') == name {
      EndTrimmed(name, end);
    }
  }

  lemma EndTrimmed(name: string, end: string)
    requires end in {"", "\n", "\r\n"} && (name == "" || name[|name| - 1] !in {'\n', '\r'})
    ensures TrimSuffix(TrimSuffix(name + end, '\n'), '\r') == name
  {
    var whole := name + end;
    if end == "\r\n" {
      assert whole[..|whole| - 1] == name + "\r" && (name + "\r")[..|name|] == name;
    } else if end == "\n" {
      assert whole[..|whole| - 1] == name;
    } else {
      assert whole == name;
    }
  }

  /** A missing or empty selection is the default, and what is no valid name is an
      error. */
  lemma OtherwiseRead(text: string, u: Utf8)
    requires Lawful(u) && (text == "" || text[|text| - 1] !in {'\n', '\r'}) && !ValidName(text)
    ensures ActiveName(None, u) == Ok("default")
    ensures forall end | end in {"", "\n", "\r\n"} ::
      ActiveName(Some(u.encode(text + end)), u) == if text == "" then Ok("default") else Err(Malformed)
  {
    forall end | end in {"", "\n", "\r\n"} ensures TrimSuffix(TrimSuffix(text + end, '\n'), '\r') == text {
      EndTrimmed(text, end);
    }
  }

  /** Active, undisturbed. */
  function ActiveSpec(fs: Fs, dir: string, u: Utf8): Result<string>
    requires Closed(fs)
  {
    match ReadSpec(fs, dir, ACTIVE)
    case Ok(data) => ActiveName(Some(data), u)
    case Err(e) => if e == NotExist then Ok(DEFAULT_NAME) else Err(e)
  }

  predicate IsActive(fs: Fs, dir: string, name: string, u: Utf8) {
    IsLocal(ACTIVE) && ActiveName(Under(fs, dir, ACTIVE), u) == Ok(name)
  }

  /** What reading the selection file came to makes this the active profile. */
  ghost predicate Selected(content: Result<Bytes>, r: Result<string>, u: Utf8) {
    && (forall name, end | ValidName(name) && end in {"\n", "\r\n"} && content == Ok(u.encode(name + end)) ::
          r == Ok(name))
    && (content == Err(NotExist) || content == Ok(u.encode("")) || content == Ok(u.encode("\n")) ==> r == Ok("default"))
    && (content.Err? && content.error != NotExist ==> r == Err(content.error))
  }

  lemma SelectedIs(content: Result<Bytes>, u: Utf8)
    requires Lawful(u)
    ensures Selected(content, match content
                              case Ok(data) => ActiveName(Some(data), u)
                              case Err(e) => if e == NotExist then Ok(DEFAULT_NAME) else Err(e), u)
  {
    forall name | ValidName(name) {
      NameIsRead(name, u);
    }
    OtherwiseRead("", u);
    assert "" + "" == "" && "" + "\n" == "\n";
  }

  /** Active. */
  method Active(h: Machine, dir: string, u: Utf8) returns (r: Result<string>)
    requires h.Valid()
    modifies h`fs, h`acts, h`trail, h`faults, h`pc, h`sights
    ensures h.Valid() && old(h.faults) <= h.faults && h.trail == old(h.trail) && (h.alone ==> h.fs == old(h.fs))
    ensures IsLocal(ACTIVE) && (h.alone && r.Ok? ==> r == ActiveName(Under(h.fs, dir, ACTIVE), u))
    ensures h.alone && h.faults == old(h.faults) ==> r == ActiveSpec(h.fs, dir, u)
    ensures Lawful(u) && h.alone && h.faults == old(h.faults) ==>
      Selected(ReadSpec(h.fs, dir, ["active-profile"]), r, u)
  {
    ActivePath();
    if Lawful(u) {
      SelectedIs(ReadSpec(h.fs, dir, ACTIVE), u);
    }
    ghost var chain, ino;
    var data;
    data, chain, ino := ReadSecureAt(h, dir, ACTIVE);
    if data == Err(NotExist) {
      if h.alone {
        AbsentRead(h.fs, dir, ACTIVE);
      }
      return Ok(DEFAULT_NAME);
    }
    if data.Err? {
      return Err(data.error);
    }
    if h.alone {
      ReadUnder(h.fs, dir, ACTIVE);
    }
    r := ActiveName(Some(data.value), u);
  }

  // ---- Deletion ------------------------------------------------------------------------

  /** Every other name in the directory holds what it held. */
  ghost predicate OthersKept(a: Fs, s: Fs, dir: string, name: string) {
    forall other: RelPath | Usual(other) && Target(other) !in {ProfilePath(name), CredentialPath(name), ACTIVE} ::
      Under(s, dir, other) == Under(a, dir, other)
  }

  /** A deletion of `name` began at `a` and has come as far as `s`. */
  ghost predicate Deleting(a: Fs, s: Fs, dir: string, name: string, u: Utf8)
    requires ValidName(name)
  {
    ProfilePaths(name);
    ActivePath();
    && Under(s, dir, ProfilePath(name)) in {Under(a, dir, ProfilePath(name)), None}
    && Under(s, dir, CredentialPath(name)) in {Under(a, dir, CredentialPath(name)), None}
    && (Under(s, dir, ACTIVE) == Under(a, dir, ACTIVE)
        || (IsActive(a, dir, name, u) && Under(s, dir, ACTIVE) == Some([10])))
    && OthersKept(a, s, dir, name)
  }

  /** It is done: profile and credential are gone, the default is selected if
      this profile was, and nothing else differs. */
  ghost predicate Deleted(a: Fs, s: Fs, dir: string, name: string, u: Utf8)
    requires ValidName(name)
  {
    ProfilePaths(name);
    ActivePath();
    && Under(s, dir, ProfilePath(name)) == None
    && Under(s, dir, CredentialPath(name)) == None
    && Under(s, dir, ACTIVE) == (if IsActive(a, dir, name, u) then Some([10]) else Under(a, dir, ACTIVE))
    && OthersKept(a, s, dir, name)
  }

  lemma DefaultSelected(u: Utf8)
    requires Lawful(u)
    ensures ActiveName(Some([10]), u) == Ok(DEFAULT_NAME)
  {
    assert u.decode(u.encode("\n")) == "\n";
    assert TrimSuffix("\n", '\n') == "";
  }

  lemma DeletingOn(a: Fs, b: Fs, c: Fs, dir: string, name: string, u: Utf8)
    requires ValidName(name) && Deleting(a, b, dir, name, u) && Deleting(b, c, dir, name, u)
    ensures Deleting(a, c, dir, name, u)
  {
    forall other: RelPath | Usual(other) && Target(other) !in {ProfilePath(name), CredentialPath(name), ACTIVE}
      ensures Under(c, dir, other) == Under(a, dir, other)
    {
      assert Under(b, dir, other) == Under(a, dir, other);
    }
  }

  /** A deletion that completes what an earlier one began ends where one
      undisturbed deletion would have. */
  lemma Completes(a: Fs, b: Fs, c: Fs, dir: string, name: string, u: Utf8)
    requires Lawful(u) && ValidName(name) && Deleting(a, b, dir, name, u) && Deleted(b, c, dir, name, u)
    ensures Deleted(a, c, dir, name, u)
  {
    DefaultSelected(u);
    forall other: RelPath | Usual(other) && Target(other) !in {ProfilePath(name), CredentialPath(name), ACTIVE}
      ensures Under(c, dir, other) == Under(a, dir, other)
    {
      assert Under(b, dir, other) == Under(a, dir, other);
    }
  }

  lemma StillDeleting(a: Fs, dir: string, name: string, u: Utf8)
    requires ValidName(name)
    ensures Deleting(a, a, dir, name, u)
  {
    ProfilePaths(name);
    ActivePath();
  }

  /** Emptying one of the two files is a step of the deletion. */
  lemma RemovalDeletes(a: Fs, s: Fs, dir: string, name: string, path: RelPath, u: Utf8)
    requires ValidName(name) && path in {ProfilePath(name), CredentialPath(name)} && IsLocal(path)
    requires OnlyChanges(a, s, dir, path, None)
    ensures Deleting(a, s, dir, name, u) && IsLocal(ACTIVE) && Under(s, dir, ACTIVE) == Under(a, dir, ACTIVE)
  {
    ProfilePaths(name);
    ActivePath();
    assert Under(s, dir, ACTIVE) == Under(a, dir, ACTIVE);
  }

  /** So is selecting the default instead of the active profile. */
  lemma SelectionDeletes(a: Fs, s: Fs, dir: string, name: string, u: Utf8)
    requires ValidName(name) && IsLocal(ACTIVE) && IsActive(a, dir, name, u)
    requires OldOrNewOnly(a, s, dir, ACTIVE, Some([10]))
    ensures Deleting(a, s, dir, name, u)
  {
    ProfilePaths(name);
    ActivePath();
    assert Under(s, dir, ProfilePath(name)) == Under(a, dir, ProfilePath(name));
    assert Under(s, dir, CredentialPath(name)) == Under(a, dir, CredentialPath(name));
  }

  /** What an attempt at the deletion may leave: a store another attempt can
      start from, the deletion somewhere on its way. */
  ghost predicate LeftBy(a: Fs, s: Fs, dir: string, name: string, u: Utf8)
    requires ValidName(name)
  {
    Closed(s) && Planted(s, dir) && Deleting(a, s, dir, name, u)
  }

  ghost predicate AllDeleting(before: seq<Moment>, after: seq<Moment>, a: Fs, dir: string, name: string, u: Utf8)
    requires ValidName(name)
  {
    before <= after && forall k | |before| <= k < |after| :: LeftBy(a, after[k].fs, dir, name, u)
  }

  /** Why a deletion may fail although no call broke. */
  ghost predicate DeleteHindered(fs: Fs, dir: string, name: string, u: Utf8, err: Error)
    requires Closed(fs)
  {
    || ActiveSpec(fs, dir, u) == Err(err)
    || RemovalHindered(fs, dir, ProfilePath(name), err)
    || RemovalHindered(fs, dir, CredentialPath(name), err)
    || WriteHindered(fs, dir, ACTIVE, err)
  }

  /** Something that is no regular file, or not private, is in the way. */
  predicate RemovalHindered(fs: Fs, dir: string, path: RelPath, err: Error)
    requires Closed(fs)
  {
    err != NotExist && RemovalSpec(fs, dir, path) == Err(err)
  }

  /** RemoveSecureAt of one of the two files, where a missing one will do. */
  method RemovePart(h: Machine, dir: string, name: string, path: RelPath, u: Utf8) returns (err: Option<Error>)
    requires h.Valid() && ValidName(name) && path in {ProfilePath(name), CredentialPath(name)}
    modifies h`fs, h`acts, h`trail, h`faults, h`pc, h`sights
    ensures h.Valid() && old(h.faults) <= h.faults && IsLocal(path) && IsLocal(ACTIVE)
    ensures h.alone && Planted(old(h.fs), dir) ==> Under(h.fs, dir, ACTIVE) == Under(old(h.fs), dir, ACTIVE)
    ensures h.alone && err.None? ==> Under(h.fs, dir, path) == None
    ensures h.alone && err.Some? && h.faults == old(h.faults) ==> RemovalHindered(h.fs, dir, path, err.value)
    ensures h.alone && Planted(old(h.fs), dir) ==> Planted(h.fs, dir) && Deleting(old(h.fs), h.fs, dir, name, u)
    ensures h.alone && Planted(old(h.fs), dir) ==> AllDeleting(old(h.trail), h.trail, old(h.fs), dir, name, u)
  {
    ProfilePaths(name);
    ActivePath();
    err := RemoveNamed(h, dir, path);
    if h.alone && Planted(old(h.fs), dir) {
      if err.None? {
        RemovalDeletes(old(h.fs), h.fs, dir, name, path, u);
      } else {
        StillDeleting(h.fs, dir, name, u);
      }
    }
    if err == Some(NotExist) {
      err := None;
    }
  }

  /** SetActive. */
  method SetActive(h: Machine, dir: string, name: string, u: Utf8) returns (err: Option<Error>)
    requires h.Valid()
    modifies h`fs, h`acts, h`trail, h`faults, h`pc, h`sights
    ensures h.Valid() && old(h.faults) <= h.faults && IsLocal(ACTIVE)
    ensures name != "" && !ValidName(name) ==> err == Some(Rejected) && h.fs == old(h.fs) && h.trail == old(h.trail)
    ensures h.alone && err.None? ==> ReadSpec(h.fs, dir, ACTIVE) == Ok(u.encode(name + "\n"))
    ensures h.alone && err.None? ==> Under(h.fs, dir, ACTIVE) == Some(u.encode(name + "\n"))
    ensures h.alone && err.None? && Lawful(u) ==> ActiveSpec(h.fs, dir, u) == Ok(if name == "" then "default" else name)
    ensures h.alone && err.Some? && h.faults == old(h.faults) ==>
      (name != "" && !ValidName(name)) || WriteHindered(h.fs, dir, ACTIVE, err.value)
    ensures h.alone && Planted(old(h.fs), dir) ==>
      AllOldOrNew(old(h.trail), h.trail, old(h.fs), dir, ACTIVE, Some(u.encode(name + "\n")))
    ensures h.alone && Planted(old(h.fs), dir) ==> Planted(h.fs, dir)
    ensures h.alone && Planted(old(h.fs), dir) ==>
      var now := if err.None? then Some(u.encode(name + "\n")) else Under(old(h.fs), dir, ACTIVE);
      OnlyChanges(old(h.fs), h.fs, dir, ACTIVE, now)
  {
    ActivePath();
    if name != "" && !ValidName(name) {
      return Some(Rejected);
    }
    err := WriteNamed(h, dir, ACTIVE, u.encode(name + "\n"));
    if err.None? && Lawful(u) {
      if name != "" {
        NameIsRead(name, u);
      } else {
        OtherwiseRead("", u);
      }
    }
  }

  /** SetActive(""). */
  method SelectDefault(h: Machine, dir: string, name: string, u: Utf8) returns (err: Option<Error>)
    requires h.Valid() && ValidName(name) && Lawful(u)
    modifies h`fs, h`acts, h`trail, h`faults, h`pc, h`sights
    ensures h.Valid() && old(h.faults) <= h.faults && IsLocal(ACTIVE)
    ensures h.alone && err.None? ==> Under(h.fs, dir, ACTIVE) == Some([10])
    ensures h.alone && err.Some? && h.faults == old(h.faults) ==> WriteHindered(h.fs, dir, ACTIVE, err.value)
    ensures h.alone && Planted(old(h.fs), dir) && IsActive(old(h.fs), dir, name, u) ==>
      LeftBy(old(h.fs), h.fs, dir, name, u)
    ensures h.alone && Planted(old(h.fs), dir) && IsActive(old(h.fs), dir, name, u) ==>
      AllDeleting(old(h.trail), h.trail, old(h.fs), dir, name, u)
  {
    ActivePath();
    err := SetActive(h, dir, "", u);
    assert "" + "\n" == "\n";
    if h.alone && Planted(old(h.fs), dir) && IsActive(old(h.fs), dir, name, u) {
      SelectionDeletes(old(h.fs), h.fs, dir, name, u);
      forall k | |old(h.trail)| <= k < |h.trail| ensures LeftBy(old(h.fs), h.trail[k].fs, dir, name, u) {
        SelectionDeletes(old(h.fs), h.trail[k].fs, dir, name, u);
      }
    }
  }

  lemma AllDeletingOn(t0: seq<Moment>, t1: seq<Moment>, t2: seq<Moment>, a: Fs, b: Fs, dir: string, name: string,
                      u: Utf8)
    requires ValidName(name) && Deleting(a, b, dir, name, u)
    requires AllDeleting(t0, t1, a, dir, name, u) && AllDeleting(t1, t2, b, dir, name, u)
    ensures AllDeleting(t0, t2, a, dir, name, u)
  {
    forall k | |t0| <= k < |t2| ensures LeftBy(a, t2[k].fs, dir, name, u) {
      if k >= |t1| {
        DeletingOn(a, b, t2[k].fs, dir, name, u);
      }
    }
  }

  /** Delete's two removals. */
  method RemoveParts(h: Machine, dir: string, name: string, u: Utf8) returns (err: Option<Error>)
    requires h.Valid() && ValidName(name)
    modifies h`fs, h`acts, h`trail, h`faults, h`pc, h`sights
    ensures h.Valid() && old(h.faults) <= h.faults && IsLocal(ACTIVE) && IsLocal(ProfilePath(name))
    ensures IsLocal(CredentialPath(name))
    ensures h.alone && err.Some? && h.faults == old(h.faults) ==>
      RemovalHindered(h.fs, dir, ProfilePath(name), err.value)
        || RemovalHindered(h.fs, dir, CredentialPath(name), err.value)
    ensures h.alone && Planted(old(h.fs), dir) ==> Planted(h.fs, dir) && Deleting(old(h.fs), h.fs, dir, name, u)
    ensures h.alone && Planted(old(h.fs), dir) ==> AllDeleting(old(h.trail), h.trail, old(h.fs), dir, name, u)
    ensures h.alone && Planted(old(h.fs), dir) && err.None? ==>
      Under(h.fs, dir, ProfilePath(name)) == None && Under(h.fs, dir, CredentialPath(name)) == None
    ensures h.alone && Planted(old(h.fs), dir) ==> Under(h.fs, dir, ACTIVE) == Under(old(h.fs), dir, ACTIVE)
  {
    ProfilePaths(name);
    ActivePath();
    err := RemovePart(h, dir, name, ProfilePath(name), u);
    if err.Some? {
      return;
    }
    ghost var mid, t := h.fs, h.trail;
    err := RemovePart(h, dir, name, CredentialPath(name), u);
    if h.alone && Planted(old(h.fs), dir) {
      DeletingOn(old(h.fs), mid, h.fs, dir, name, u);
      AllDeletingOn(old(h.trail), t, h.trail, old(h.fs), mid, dir, name, u);
    }
  }

  /** What a completed deletion of `name` made of the selection file's bytes: reset
      where they said this name, untouched where they said another. */
  ghost predicate SelectionLeft(was: Option<Bytes>, now: Option<Bytes>, name: string, u: Utf8) {
    && (forall end | end in {"", "\n", "\r\n"} && was == Some(u.encode(name + end)) :: now == Some([10]))
    && (forall other, end | ValidName(other) && other != name && end in {"\n", "\r\n"}
        && was == Some(u.encode(other + end)) ::
          now == was)
    && (was.None? && name != "default" ==> now.None?)
  }

  lemma SelectionIsLeft(was: Option<Bytes>, name: string, u: Utf8)
    requires Lawful(u) && ValidName(name)
    ensures SelectionLeft(was, if ActiveName(was, u) == Ok(name) then Some([10]) else was, name, u)
  {
    NameIsRead(name, u);
    forall other | ValidName(other) {
      NameIsRead(other, u);
    }
  }

  /** Delete. */
  method Delete(h: Machine, dir: string, name: string, u: Utf8) returns (err: Option<Error>)
    requires h.Valid() && Lawful(u)
    modifies h`fs, h`acts, h`trail, h`faults, h`pc, h`sights
    ensures h.Valid() && old(h.faults) <= h.faults
    ensures !ValidName(name) ==> err == Some(Rejected) && h.fs == old(h.fs) && h.trail == old(h.trail)
    ensures ValidName(name) && h.alone && err.Some? && h.faults == old(h.faults) ==>
      DeleteHindered(h.fs, dir, name, u, err.value)
    ensures ValidName(name) && h.alone && Planted(old(h.fs), dir) ==> LeftBy(old(h.fs), h.fs, dir, name, u)
    ensures ValidName(name) && h.alone && Planted(old(h.fs), dir) ==>
      AllDeleting(old(h.trail), h.trail, old(h.fs), dir, name, u)
    ensures ValidName(name) && h.alone && Planted(old(h.fs), dir) && err.None? ==>
      Deleted(old(h.fs), h.fs, dir, name, u)
    ensures IsLocal(ACTIVE)
    ensures ValidName(name) && h.alone && Planted(old(h.fs), dir) && err.None? ==>
      SelectionLeft(Under(old(h.fs), dir, ACTIVE), Under(h.fs, dir, ACTIVE), name, u)
  {
    ActivePath();
    if !ValidName(name) {
      return Some(Rejected);
    }
    SelectionIsLeft(Under(h.fs, dir, ACTIVE), name, u);
    var active := Active(h, dir, u);
    if h.alone {
      StillDeleting(h.fs, dir, name, u);
    }
    if active.Err? {
      return Some(active.error);
    }
    err := RemoveParts(h, dir, name, u);
    if err.Some? || active.value != name {
      return;
    }
    ghost var mid, t := h.fs, h.trail;
    err := SelectDefault(h, dir, name, u);
    if h.alone && Planted(old(h.fs), dir) {
      DeletingOn(old(h.fs), mid, h.fs, dir, name, u);
      AllDeletingOn(old(h.trail), t, h.trail, old(h.fs), mid, dir, name, u);
    }
  }

  // ---- Attempts ------------------------------------------------------------------------

  /** One attempt from whatever an earlier one left.  Unless it returns, the
      process dies after one of its changes, or before the first. */
  method Attempt(left: Fs, dir: string, name: string, u: Utf8, ghost start: Fs) returns (next: Fs, done: bool)
    requires ValidName(name) && Lawful(u) && Planted(left, dir) && Closed(left) && Deleting(start, left, dir, name, u)
    ensures LeftBy(start, next, dir, name, u) && (done ==> Deleted(start, next, dir, name, u))
  {
    var h := new Machine(left, true);
    var err := Delete(h, dir, name, u);
    var crashed: bool := *;
    var k: int := *;
    if crashed {
      next, done := if 0 <= k < |h.trail| then h.trail[k].fs else left, false;
    } else {
      next, done := h.fs, err.None?;
    }
    DeletingOn(start, left, next, dir, name, u);
    if done {
      Completes(start, left, next, dir, name, u);
    }
  }

  /** Restartability: attempts that fail, or are cut off at any change, and then
      one that succeeds, leave exactly what one undisturbed deletion leaves. */
  method DeleteAtLast(start: Fs, dir: string, name: string, u: Utf8, attempts: nat) returns (fs: Fs, done: bool)
    requires ValidName(name) && Lawful(u) && Planted(start, dir) && Closed(start)
    ensures LeftBy(start, fs, dir, name, u) && (done ==> Deleted(start, fs, dir, name, u))
  {
    fs, done := start, false;
    StillDeleting(start, dir, name, u);
    var n := 0;
    while n < attempts && !done
      invariant n <= attempts && LeftBy(start, fs, dir, name, u) && (done ==> Deleted(start, fs, dir, name, u))
    {
      fs, done := Attempt(fs, dir, name, u, start);
      n := n + 1;
    }
  }

  /** The same over the states between attempts, whoever makes them. */
  lemma {:induction false} Restartable(states: seq<Fs>, last: Fs, dir: string, name: string, u: Utf8)
    requires Lawful(u) && ValidName(name) && states != []
    requires forall k | 0 <= k < |states| - 1 :: LeftBy(states[k], states[k + 1], dir, name, u)
    requires Deleted(states[|states| - 1], last, dir, name, u)
    ensures Deleted(states[0], last, dir, name, u)
  {
    if |states| > 1 {
      var n := |states| - 1;
      Completes(states[n - 1], states[n], last, dir, name, u);
      Restartable(states[..n], last, dir, name, u);
    }
  }
}
