/** Relative names, as the components between their separators, and the lexical
    rules that keep them below the root. */
module Paths {
  import opened Basics
  import opened Filesystem

  type RelPath = seq<string>

  predicate AllPlain(parts: seq<string>) {
    forall k | 0 <= k < |parts| :: Plain(parts[k])
  }

  /** filepath.Clean: empty and "." components go, ".." takes one back; None
      when the name would climb out of the directory it starts in. */
  function Clean(parts: RelPath): (r: Option<seq<string>>)
    ensures r.Some? ==> AllPlain(r.value)
  {
    if parts == [] then Some([])
    else
      var last := parts[|parts| - 1];
      match Clean(parts[..|parts| - 1])
      case None => None
      case Some(above) =>
        if last == "" || last == "." then Some(above)
        else if last == ".." then
          if above == [] then None else Some(above[..|above| - 1])
        else Some(above + [last])
  }

  /** filepath.IsLocal: not empty, not absolute, never above its start. */
  predicate IsLocal(parts: RelPath) {
    parts != [] && parts[0] != "" && Clean(parts).Some?
  }

  /** filepath.Dir of a local name. */
  function DirName(parts: RelPath): RelPath
    requires IsLocal(parts)
  {
    var above := Clean(parts[..|parts| - 1]);
    if above.None? || above.value == [] then ["."] else above.value
  }

  /** filepath.Base of a local name: trailing separators do not count. */
  function BaseName(parts: RelPath): string
    requires parts != [] && parts[0] != ""
  {
    if parts[|parts| - 1] != "" then parts[|parts| - 1] else BaseName(parts[..|parts| - 1])
  }

  /** The directories a local name is below. */
  function Parents(parts: RelPath): seq<string>
    requires IsLocal(parts)
  {
    Clean(DirName(parts)).GetOr([])
  }

  lemma {:induction false} CleanIsStable(parts: seq<string>)
    requires AllPlain(parts)
    ensures Clean(parts) == Some(parts)
  {
    if parts != [] {
      CleanIsStable(parts[..|parts| - 1]);
      assert parts == parts[..|parts| - 1] + [parts[|parts| - 1]];
    }
  }

  /** The parent of a local name is itself local, so opening it never escapes. */
  lemma ParentIsLocal(parts: RelPath)
    requires IsLocal(parts)
    ensures IsLocal(DirName(parts)) && Clean(DirName(parts)) == Some(Parents(parts)) && AllPlain(Parents(parts))
  {
    var above := Clean(parts[..|parts| - 1]);
    if above.value != [] {
      CleanIsStable(above.value);
    } else {
      assert Clean(["."]) == Some([]) by {
        assert ["."][..0] == [];
      }
    }
  }

  // ---- What the lexical rules mean -------------------------------------------------

  /** How far one element leads down: ordinary ones one step, ".." one step back. */
  function Rise(part: string): int {
    if part == "" || part == "." then 0 else if part == ".." then -1 else 1
  }

  function Level(parts: RelPath): int {
    if parts == [] then 0 else Level(parts[..|parts| - 1]) + Rise(parts[|parts| - 1])
  }

  /** Somewhere on its way the name is above where it starts: some prefix has more
      ".." than ordinary elements. */
  predicate Climbs(parts: RelPath) {
    exists k | 0 <= k <= |parts| :: Level(parts[..k]) < 0
  }

  lemma ClimbsOn(parts: RelPath)
    requires parts != []
    ensures Climbs(parts) <==> Climbs(parts[..|parts| - 1]) || Level(parts) < 0
  {
    var front := parts[..|parts| - 1];
    assert parts[..|parts|] == parts;
    forall k | 0 <= k < |parts| ensures front[..k] == parts[..k] {
    }
    if Climbs(front) {
      var k :| 0 <= k <= |front| && Level(front[..k]) < 0;
      assert Level(parts[..k]) < 0;
    }
    if k :| 0 <= k < |parts| && Level(parts[..k]) < 0 {
      assert Level(front[..k]) < 0;
    }
  }

  /** Cleaning fails exactly for names that climb, and otherwise leaves as many
      elements as the name leads down. */
  lemma {:induction false} CleanCounts(parts: RelPath)
    ensures Clean(parts).None? <==> Climbs(parts)
    ensures Clean(parts).Some? ==> |Clean(parts).value| == Level(parts)
  {
    if parts == [] {
      assert parts[..0] == [];
    } else {
      CleanCounts(parts[..|parts| - 1]);
      ClimbsOn(parts);
    }
  }

  /** Names every call refuses: empty, absolute, or above their start somewhere. */
  predicate Improper(parts: RelPath) {
    parts == [] || parts[0] == "" || Climbs(parts)
  }

  /** A name is local exactly when it is not empty, not absolute and never climbs. */
  lemma LocalMeans(parts: RelPath)
    ensures IsLocal(parts) <==> !Improper(parts)
  {
    CleanCounts(parts);
  }

  lemma OneMoreElement(p: RelPath, p': RelPath, x: string)
    requires Clean(p) == Clean(p')
    ensures Clean(p + [x]) == Clean(p' + [x])
  {
    var a, b := p + [x], p' + [x];
    assert a[..|a| - 1] == p && a[|a| - 1] == x;
    assert b[..|b| - 1] == p' && b[|b| - 1] == x;
  }

  /** Cleaning looks at a name from the front: equal beginnings, equal ends. */
  lemma {:induction false} CleanContinues(p: RelPath, p': RelPath, q: RelPath)
    requires Clean(p) == Clean(p')
    ensures Clean(p + q) == Clean(p' + q)
  {
    if q == [] {
      assert p + q == p && p' + q == p';
    } else {
      var front, x := q[..|q| - 1], q[|q| - 1];
      CleanContinues(p, p', front);
      OneMoreElement(p + front, p' + front, x);
      assert q == front + [x];
      assert p + q == (p + front) + [x];
      assert p' + q == (p' + front) + [x];
    }
  }

  /** An empty element or a "." changes nothing, wherever it stands. */
  lemma CleanDrops(p: RelPath, x: string, q: RelPath)
    requires x == "" || x == "."
    ensures Clean(p + [x] + q) == Clean(p + q)
  {
    assert (p + [x])[..|p|] == p;
    CleanContinues(p + [x], p, q);
  }

  /** An ordinary element with ".." behind it changes nothing either. */
  lemma CleanTakesBack(p: RelPath, x: string, q: RelPath)
    requires x != "" && x != "." && x != ".."
    ensures Clean(p + [x, ".."] + q) == Clean(p + q)
  {
    assert (p + [x, ".."])[..|p| + 1] == p + [x] && (p + [x])[..|p|] == p;
    CleanContinues(p + [x, ".."], p, q);
  }

  /** What a name is below is what cleaning leaves of all but its last element. */
  lemma ParentsMean(parts: RelPath)
    requires IsLocal(parts)
    ensures Clean(parts[..|parts| - 1]) == Some(Parents(parts))
  {
    ParentIsLocal(parts);
    var above := Clean(parts[..|parts| - 1]);
    if above.value != [] {
      CleanIsStable(above.value);
    }
  }

  /** The last element is the last that is not empty. */
  lemma {:induction false} BaseMeans(parts: RelPath)
    requires parts != [] && parts[0] != ""
    ensures exists k | 0 <= k < |parts| ::
      parts[k] == BaseName(parts) != "" && forall j | k < j < |parts| :: parts[j] == ""
  {
    var n := |parts| - 1;
    if parts[n] == "" {
      var front := parts[..n];
      BaseMeans(front);
      var k :| 0 <= k < n && front[k] == BaseName(front) != "" && forall j | k < j < n :: front[j] == "";
      assert parts[k] == BaseName(parts);
      forall j | k < j < |parts| ensures parts[j] == "" {
        assert j < n ==> front[j] == parts[j];
      }
    }
  }
}
