/** Lines and white space, as Go's strings and bytes packages see them. */
module Text {
  /** unicode.IsSpace. */
  predicate Space(c: char) {
    || '\t' <= c <= '\r' || c == ' ' || c == '\U{0085}' || c == '\U{00A0}' || c == '\U{1680}'
    || '\U{2000}' <= c <= '\U{200A}' || c in {'\U{2028}', '\U{2029}', '\U{202F}', '\U{205F}', '\U{3000}'}
  }

  function TrimLeft(s: string): string {
    if s != "" && Space(s[0]) then TrimLeft(s[1..]) else s
  }

  function TrimRight(s: string): (r: string)
    ensures r <= s
  {
    if s != "" && Space(s[|s| - 1]) then TrimRight(s[..|s| - 1]) else s
  }

  function TrimSpace(s: string): string {
    TrimRight(TrimLeft(s))
  }

  /** unicode.IsControl. */
  predicate Control(c: char) {
    c < ' ' || '\U{007F}' <= c <= '\U{009F}'
  }

  /** strings.TrimSuffix of one character. */
  function TrimSuffix(s: string, c: char): string {
    if s != "" && s[|s| - 1] == c then s[..|s| - 1] else s
  }

  predicate OneLine(s: string) {
    forall k | 0 <= k < |s| :: s[k] != '\n'
  }

  /** The parts between line feeds; there is one more part than feeds. */
  function Lines(s: string): (r: seq<string>)
    ensures r != []
  {
    if s == "" then [""]
    else
      var rest := Lines(s[..|s| - 1]);
      if s[|s| - 1] == '\n' then rest + [""] else rest[..|rest| - 1] + [rest[|rest| - 1] + [s[|s| - 1]]]
  }

  function Printed(lines: seq<string>): string {
    if lines == [] then "" else Printed(lines[..|lines| - 1]) + lines[|lines| - 1] + "\n"
  }

  lemma {:induction false} LinesExtend(s: string, t: string)
    requires OneLine(t)
    ensures Lines(s + t) == Lines(s)[..|Lines(s)| - 1] + [Lines(s)[|Lines(s)| - 1] + t]
  {
    var rest := Lines(s);
    if t == "" {
      assert s + t == s && rest[|rest| - 1] + t == rest[|rest| - 1];
    } else {
      var front := t[..|t| - 1];
      LinesExtend(s, front);
      assert (s + t)[..|s + t| - 1] == s + front;
      assert rest[|rest| - 1] + front + [t[|t| - 1]] == rest[|rest| - 1] + t;
    }
  }

  lemma LinesClosed(s: string)
    ensures Lines(s + "\n") == Lines(s) + [""]
  {
    var t := s + "\n";
    assert t[..|t| - 1] == s && t[|t| - 1] == '\n';
  }

  /** Printing lines and splitting them again gives the lines back. */
  lemma {:induction false} LinesOfPrinted(lines: seq<string>)
    requires forall k | 0 <= k < |lines| :: OneLine(lines[k])
    ensures Lines(Printed(lines)) == lines + [""]
  {
    if lines != [] {
      var front, last := lines[..|lines| - 1], lines[|lines| - 1];
      LinesOfPrinted(front);
      LinesExtend(Printed(front), last);
      var s := Printed(front) + last;
      LinesClosed(s);
      assert "" + last == last && (front + [""])[..|front|] == front;
      assert front + [last] == lines;
    }
  }

  lemma {:induction false} TrimIndent(s: string, t: string)
    requires forall k | 0 <= k < |s| :: Space(s[k])
    requires t != "" && !Space(t[0])
    ensures TrimLeft(s + t) == t
  {
    if s == "" {
      assert s + t == t;
    } else {
      assert (s + t)[1..] == s[1..] + t;
      TrimIndent(s[1..], t);
    }
  }

  // ---- What trimming means ----------------------------------------------------------

  predicate AllSpace(s: string) {
    forall k | 0 <= k < |s| :: Space(s[k])
  }

  lemma BlankOn(s: string, m: nat)
    requires m < |s| && Space(s[0]) && AllSpace(s[1..][..m])
    ensures AllSpace(s[..m + 1])
  {
    forall k | 0 <= k <= m ensures Space(s[k]) {
      if k > 0 {
        assert s[1..][..m][k - 1] == s[k];
      }
    }
  }

  lemma BlankUpTo(s: string, n: nat)
    requires n < |s| && Space(s[|s| - 1]) && AllSpace(s[..|s| - 1][n..])
    ensures AllSpace(s[n..])
  {
    forall k | n <= k < |s| ensures Space(s[k]) {
      if k < |s| - 1 {
        assert s[..|s| - 1][n..][k - n] == s[k];
      }
    }
  }

  lemma {:induction false} TrimLeftMeans(s: string) returns (n: nat)
    ensures n <= |s| && AllSpace(s[..n]) && TrimLeft(s) == s[n..]
    ensures TrimLeft(s) == "" || !Space(TrimLeft(s)[0])
  {
    n := 0;
    if s != "" && Space(s[0]) {
      var m := TrimLeftMeans(s[1..]);
      n := m + 1;
      assert s[1..][m..] == s[n..];
      BlankOn(s, m);
    }
  }

  lemma {:induction false} TrimRightMeans(s: string) returns (n: nat)
    ensures n <= |s| && AllSpace(s[n..]) && TrimRight(s) == s[..n]
    ensures TrimRight(s) == "" || !Space(TrimRight(s)[|TrimRight(s)| - 1])
  {
    n := |s|;
    if s != "" && Space(s[|s| - 1]) {
      var k := |s| - 1;
      n := TrimRightMeans(s[..k]);
      assert s[..k][..n] == s[..n];
      BlankUpTo(s, n);
    }
  }

  /** White space goes at both ends, and only there. */
  lemma TrimSpaceMeans(s: string) returns (a: nat, b: nat)
    ensures a <= b <= |s| && AllSpace(s[..a]) && AllSpace(s[b..]) && TrimSpace(s) == s[a..b]
    ensures TrimSpace(s) == "" || (!Space(TrimSpace(s)[0]) && !Space(TrimSpace(s)[|TrimSpace(s)| - 1]))
  {
    a := TrimLeftMeans(s);
    var n := TrimRightMeans(s[a..]);
    b := a + n;
    assert s[a..][n..] == s[b..] && s[a..][..n] == s[a..b];
  }

  /** So trimming leaves nothing exactly of blank texts, and changes nothing
      exactly where neither end is white space. */
  lemma TrimSpaceEnds(s: string)
    ensures TrimSpace(s) == "" <==> AllSpace(s)
    ensures TrimSpace(s) == s <==> s == "" || (!Space(s[0]) && !Space(s[|s| - 1]))
  {
    var a, b := TrimSpaceMeans(s);
    if TrimSpace(s) == "" {
      assert s == s[..a] + s[b..];
    } else {
      assert !Space(s[a]) && (a > 0 ==> Space(s[..a][0])) && (b < |s| ==> Space(s[b..][|s| - b - 1]));
    }
  }
}
