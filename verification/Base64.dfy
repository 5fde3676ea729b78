/** Base64 as in section 4 of RFC 4648, the way Go's StdEncoding reads and writes
    it: padded, CR and LF skipped when decoding, left-over bits not looked at. */
module Base64 {
  import opened Basics

  function Symbol(k: nat): (c: char)
    requires k < 64
    ensures InAlphabet(c) && Digit(c) == Some(k)
  {
    if k < 26 then (65 + k) as char
    else if k < 52 then (71 + k) as char
    else if k < 62 then (k - 4) as char
    else if k == 62 then '+'
    else '/'
  }

  predicate InAlphabet(c: char) {
    'A' <= c <= 'Z' || 'a' <= c <= 'z' || '0' <= c <= '9' || c == '+' || c == '/'
  }

  function Digit(c: char): (d: Option<nat>)
    ensures d.Some? <==> InAlphabet(c)
    ensures d.Some? ==> d.value < 64
  {
    if 'A' <= c <= 'Z' then Some(c as int - 65)
    else if 'a' <= c <= 'z' then Some(c as int - 71)
    else if '0' <= c <= '9' then Some(c as int + 4)
    else if c == '+' then Some(62)
    else if c == '/' then Some(63)
    else None
  }

  // ---- One group of up to three bytes --------------------------------------------

  function EncodeGroup(g: Bytes): (s: string)
    requires 1 <= |g| <= 3
    ensures |s| == 4
  {
    var a := g[0] as nat;
    var b := if |g| > 1 then g[1] as nat else 0;
    var c := if |g| > 2 then g[2] as nat else 0;
    [Symbol(a / 4), Symbol(a % 4 * 16 + b / 16),
     if |g| > 1 then Symbol(b % 16 * 4 + c / 64) else '=',
     if |g| > 2 then Symbol(c % 64) else '=']
  }

  function Octets(w: nat, x: nat, y: nat, z: nat): Bytes
    requires w < 64 && x < 64 && y < 64 && z < 64
  {
    [(w * 4 + x / 16) as byte, (x % 16 * 16 + y / 4) as byte, (y % 4 * 64 + z) as byte]
  }

  /** Four characters; padding is allowed in the last group alone. */
  function DecodeGroup(s: string, last: bool): Option<Bytes>
    requires |s| == 4
  {
    var w, x, y, z := Digit(s[0]), Digit(s[1]), Digit(s[2]), Digit(s[3]);
    if w.None? || x.None? then None
    else if y.Some? && z.Some? then Some(Octets(w.value, x.value, y.value, z.value))
    else if last && s[3] == '=' && y.Some? then Some(Octets(w.value, x.value, y.value, 0)[..2])
    else if last && s[3] == '=' && s[2] == '=' then Some(Octets(w.value, x.value, 0, 0)[..1])
    else None
  }

  lemma Sextets(a: nat, b: nat, c: nat)
    requires a < 256 && b < 256 && c < 256
    ensures a / 4 < 64 && a % 4 * 16 + b / 16 < 64 && b % 16 * 4 + c / 64 < 64 && c % 64 < 64
    ensures Octets(a / 4, a % 4 * 16 + b / 16, b % 16 * 4 + c / 64, c % 64) == [a as byte, b as byte, c as byte]
  {
    FirstOctet(a, b);
    SecondOctet(a, b, c);
    ThirdOctet(b, c);
  }

  lemma FirstOctet(a: nat, b: nat)
    requires a < 256 && b < 256
    ensures a / 4 * 4 + (a % 4 * 16 + b / 16) / 16 == a
  {
  }

  lemma SecondOctet(a: nat, b: nat, c: nat)
    requires b < 256 && c < 256
    ensures (a % 4 * 16 + b / 16) % 16 * 16 + (b % 16 * 4 + c / 64) / 4 == b
  {
    assert (a % 4 * 16 + b / 16) % 16 == b / 16;
    assert (b % 16 * 4 + c / 64) / 4 == b % 16;
  }

  lemma ThirdOctet(b: nat, c: nat)
    requires c < 256
    ensures (b % 16 * 4 + c / 64) % 4 * 64 + c % 64 == c
  {
    assert (b % 16 * 4 + c / 64) % 4 == c / 64;
  }

  lemma GroupRoundTrip(g: Bytes, last: bool)
    requires 1 <= |g| <= 3 && (|g| == 3 || last)
    ensures DecodeGroup(EncodeGroup(g), last) == Some(g)
  {
    var a := g[0] as nat;
    var b := if |g| > 1 then g[1] as nat else 0;
    var c := if |g| > 2 then g[2] as nat else 0;
    Sextets(a, b, c);
    var full := [a as byte, b as byte, c as byte];
    assert Digit('=').None?;
    if |g| == 3 {
      assert full == g;
    } else if |g| == 2 {
      assert full[..2] == g;
    } else {
      assert full[..1] == g;
    }
  }

  // ---- Whole values --------------------------------------------------------------

  function Encode(data: Bytes): string {
    if data == [] then ""
    else if |data| <= 3 then EncodeGroup(data)
    else EncodeGroup(data[..3]) + Encode(data[3..])
  }

  function DecodeGroups(s: string): Option<Bytes> {
    if s == "" then Some([])
    else if |s| < 4 then None
    else match DecodeGroup(s[..4], |s| == 4)
         case None => None
         case Some(head) =>
           match DecodeGroups(s[4..])
           case None => None
           case Some(tail) => Some(head + tail)
  }

  function Unbroken(s: string): string {
    if s == "" then ""
    else if s[0] == '\r' || s[0] == '\n' then Unbroken(s[1..])
    else [s[0]] + Unbroken(s[1..])
  }

  function Decode(s: string): Option<Bytes> {
    DecodeGroups(Unbroken(s))
  }

  /** Everything Encode writes is an ordinary character of the alphabet. */
  predicate Armoured(s: string) {
    forall k | 0 <= k < |s| :: InAlphabet(s[k]) || s[k] == '='
  }

  lemma {:induction false} EncodeArmoured(data: Bytes)
    ensures Armoured(Encode(data))
  {
    if |data| > 3 {
      EncodeArmoured(data[3..]);
    }
  }

  lemma {:induction false} ArmouredUnbroken(s: string)
    requires Armoured(s)
    ensures Unbroken(s) == s
  {
    if s != "" {
      ArmouredUnbroken(s[1..]);
    }
  }

  lemma GroupsOn(head: string, rest: string)
    requires |head| == 4 && rest != ""
    ensures DecodeGroups(head + rest) == match DecodeGroup(head, false)
      case None => None
      case Some(h) => match DecodeGroups(rest) case None => None case Some(t) => Some(h + t)
  {
    var s := head + rest;
    assert s[..4] == head && s[4..] == rest;
  }

  lemma LastGroup(g: Bytes)
    requires 1 <= |g| <= 3
    ensures DecodeGroups(EncodeGroup(g)) == Some(g)
  {
    var s := EncodeGroup(g);
    GroupRoundTrip(g, true);
    assert s[..4] == s && s[4..] == "";
    assert DecodeGroups(s[4..]) == Some([]) && g + [] == g;
  }

  lemma {:induction false} GroupsRoundTrip(data: Bytes)
    ensures DecodeGroups(Encode(data)) == Some(data)
  {
    if data == [] {
    } else if |data| <= 3 {
      LastGroup(data);
    } else {
      GroupRoundTrip(data[..3], false);
      GroupsRoundTrip(data[3..]);
      GroupsOn(EncodeGroup(data[..3]), Encode(data[3..]));
      assert data == data[..3] + data[3..];
    }
  }

  /** Decoding what was encoded gives the bytes back, for every byte string. */
  lemma RoundTrip(data: Bytes)
    ensures Decode(Encode(data)) == Some(data)
  {
    EncodeArmoured(data);
    ArmouredUnbroken(Encode(data));
    GroupsRoundTrip(data);
  }

  /** The standard's table: letters, small letters, figures, "+" and "/". */
  lemma SymbolTable(k: nat)
    requires k < 64
    ensures var n := Symbol(k) as int;
      if k < 26 then n == 'A' as int + k
      else if k < 52 then n == 'a' as int + k - 26
      else if k < 62 then n == '0' as int + k - 52
      else n == (if k == 62 then '+' else '/') as int
  {
  }

  /** Up to three bytes as one number of 24 bits. */
  function Number(g: Bytes): nat
    requires 1 <= |g| <= 3
  {
    g[0] as nat * 0x1_0000 + (if |g| > 1 then g[1] as nat * 0x100 else 0) + (if |g| > 2 then g[2] as nat else 0)
  }

  /** A group is that number, written as four digits of base 64, with padding for
      the digits no byte reaches. */
  lemma GroupIsNumber(g: Bytes)
    requires 1 <= |g| <= 3
    ensures var v := Number(g);
      && v / 0x4_0000 < 64
      && EncodeGroup(g) == [Symbol(v / 0x4_0000), Symbol(v / 0x1000 % 64),
                            if |g| > 1 then Symbol(v / 64 % 64) else '=', if |g| > 2 then Symbol(v % 64) else '=']
  {
    var a := g[0] as nat;
    var b := if |g| > 1 then g[1] as nat else 0;
    var c := if |g| > 2 then g[2] as nat else 0;
    Sextets(a, b, c);
    var v := Number(g);
    assert v == ((a / 4 * 64 + (a % 4 * 16 + b / 16)) * 64 + (b % 16 * 4 + c / 64)) * 64 + c % 64;
    FourDigits(a / 4, a % 4 * 16 + b / 16, b % 16 * 4 + c / 64, c % 64, v);
  }

  lemma FourDigits(w: nat, x: nat, y: nat, z: nat, v: nat)
    requires w < 64 && x < 64 && y < 64 && z < 64 && v == ((w * 64 + x) * 64 + y) * 64 + z
    ensures v / 0x4_0000 == w && v / 0x1000 % 64 == x && v / 64 % 64 == y && v % 64 == z
  {
    assert v / 64 == (w * 64 + x) * 64 + y;
    assert v / 0x1000 == w * 64 + x;
    assert v / 0x4_0000 == w;
  }

  /** Groups of three bytes are written one after the other, and what is left in
      a last one. */
  lemma FirstGroup(data: Bytes)
    requires |data| >= 3
    ensures Encode(data) == EncodeGroup(data[..3]) + Encode(data[3..])
  {
    if |data| == 3 {
      assert data[..3] == data && EncodeGroup(data) + "" == EncodeGroup(data);
    }
  }

  lemma LastBytes(data: Bytes)
    requires |data| < 3
    ensures Encode(data) == if data == [] then "" else EncodeGroup(data)
  {
  }

  /** Line breaks anywhere in the text make no difference. */
  lemma {:induction false} BreaksIgnored(s: string, k: nat, c: char)
    requires k <= |s| && c in {'\r', '\n'}
    ensures Decode(s[..k] + [c] + s[k..]) == Decode(s)
  {
    UnbrokenSplits(s[..k] + [c], s[k..]);
    UnbrokenSplits(s[..k], [c]);
    UnbrokenSplits(s[..k], s[k..]);
    assert s == s[..k] + s[k..];
    assert [c][1..] == "" && Unbroken([c]) == "";
    assert Unbroken(s[..k]) + "" == Unbroken(s[..k]);
  }

  lemma {:induction false} UnbrokenSplits(s: string, t: string)
    ensures Unbroken(s + t) == Unbroken(s) + Unbroken(t)
  {
    if s == "" {
      assert s + t == t;
    } else {
      assert (s + t)[1..] == s[1..] + t;
      UnbrokenSplits(s[1..], t);
    }
  }
}
