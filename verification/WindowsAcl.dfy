/** store/permissions_windows.go: walk the access control entries of a security
    descriptor, byte by byte, and refuse whatever grants access to a stranger. */
module WindowsAcl {
  import opened Basics

  newtype uintptr = x: int | 0 <= x < 0x1_0000_0000_0000_0000

  // ---- Principals ------------------------------------------------------------------

  /** A security identifier: sections 2.4.2.1 and 2.4.2.2 of MS-DTYP. */
  datatype Sid = Sid(authority: Bytes, subs: seq<Bytes>)

  predicate WellFormedSid(sid: Sid) {
    |sid.authority| == 6 && |sid.subs| <= 15 && forall k | 0 <= k < |sid.subs| :: |sid.subs[k]| == 4
  }

  function Flat(parts: seq<Bytes>): Bytes {
    if parts == [] then [] else Flat(parts[..|parts| - 1]) + parts[|parts| - 1]
  }

  function SidBytes(sid: Sid): Bytes
    requires |sid.subs| < 256
  {
    [1, |sid.subs| as byte] + sid.authority + Flat(sid.subs)
  }

  /** S-1-5-18 and S-1-5-32-544. */
  const LOCAL_SYSTEM := Sid([0, 0, 0, 0, 0, 5], [[18, 0, 0, 0]])
  const ADMINISTRATORS := Sid([0, 0, 0, 0, 0, 5], [[32, 0, 0, 0], [32, 2, 0, 0]])

  /** trustedWindowsPrincipal. */
  predicate Trusted(sid: Sid, current: Sid) {
    sid == current || sid == LOCAL_SYSTEM || sid == ADMINISTRATORS
  }

  /** IsValidSid and EqualSid see the encoded form only. */
  predicate ValidSidBytes(b: Bytes) {
    |b| >= 8 && b[0] == 1 && b[1] <= 15
  }

  predicate TrustedBytes(b: Bytes, current: Sid)
    requires WellFormedSid(current)
  {
    b == SidBytes(current) || b == SidBytes(LOCAL_SYSTEM) || b == SidBytes(ADMINISTRATORS)
  }

  lemma {:induction false} FlatLength(parts: seq<Bytes>)
    requires forall k | 0 <= k < |parts| :: |parts[k]| == 4
    ensures |Flat(parts)| == 4 * |parts|
  {
    if parts != [] {
      FlatLength(parts[..|parts| - 1]);
    }
  }

  lemma {:induction false} FlatInjective(a: seq<Bytes>, b: seq<Bytes>)
    requires |a| == |b| && Flat(a) == Flat(b)
    requires forall k | 0 <= k < |a| :: |a[k]| == 4 && |b[k]| == 4
    ensures a == b
  {
    if a != [] {
      var n := |a| - 1;
      FlatLength(a[..n]);
      FlatLength(b[..n]);
      assert Flat(a)[..4 * n] == Flat(a[..n]) && Flat(a)[4 * n..] == a[n];
      assert Flat(b)[..4 * n] == Flat(b[..n]) && Flat(b)[4 * n..] == b[n];
      FlatInjective(a[..n], b[..n]);
      assert a == a[..n] + [a[n]] && b == b[..n] + [b[n]];
    }
  }

  /** Comparing encodings compares principals. */
  lemma SidInjective(a: Sid, b: Sid)
    requires WellFormedSid(a) && WellFormedSid(b) && SidBytes(a) == SidBytes(b)
    ensures a == b
  {
    var x, y := SidBytes(a), SidBytes(b);
    assert x[1] as int == |a.subs| && y[1] as int == |b.subs|;
    assert x[2..8] == a.authority && y[2..8] == b.authority;
    assert x[8..] == Flat(a.subs) && y[8..] == Flat(b.subs);
    FlatInjective(a.subs, b.subs);
  }

  lemma TrustIsByBytes(sid: Sid, current: Sid)
    requires WellFormedSid(sid) && WellFormedSid(current)
    ensures TrustedBytes(SidBytes(sid), current) <==> Trusted(sid, current)
  {
    if SidBytes(sid) == SidBytes(current) {
      SidInjective(sid, current);
    } else if SidBytes(sid) == SidBytes(LOCAL_SYSTEM) {
      SidInjective(sid, LOCAL_SYSTEM);
    } else if SidBytes(sid) == SidBytes(ADMINISTRATORS) {
      SidInjective(sid, ADMINISTRATORS);
    }
  }

  // ---- What the code is handed -------------------------------------------------------

  /** The system's answers about a descriptor: where it lies, its bytes, and where
      GetAce says each entry is.  None of the addresses is to be relied on. */
  datatype View = View(
    base: uintptr,
    bytes: Bytes,
    valid: bool,
    owner: Option<Sid>,
    dacl: Option<seq<Option<uintptr>>>,
    selfRelative: bool)

  /** A buffer lies inside the address space. */
  predicate Placed(v: View) {
    v.base as int + |v.bytes| < 0x1_0000_0000_0000_0000
  }

  const HEADER_SIZE: uintptr := 4
  const SID_START := 8
  const ALLOWED_TYPE: byte := 0
  const DENIED_TYPE: byte := 1

  function Size(b: Bytes, p: nat): nat
    requires p + 4 <= |b|
  {
    b[p + 2] as nat + 256 * b[p + 3] as nat
  }

  function SidAt(b: Bytes, p: nat): Bytes
    requires p + SID_START + 8 <= |b| && p + SID_START + 8 + 4 * b[p + SID_START + 1] as nat <= |b|
  {
    b[p + SID_START..p + SID_START + 8 + 4 * b[p + SID_START + 1] as nat]
  }

  /** The entry at this offset lies in the buffer and lets no stranger in. */
  predicate EntryOk(b: Bytes, p: int, current: Sid)
    requires WellFormedSid(current)
  {
    && 0 <= p && p + 4 <= |b| && 4 <= Size(b, p) && p + Size(b, p) <= |b|
    && (b[p] == DENIED_TYPE ||
        (b[p] == ALLOWED_TYPE && SID_START + 8 <= Size(b, p)
         && SID_START + 8 + 4 * b[p + SID_START + 1] as nat <= Size(b, p)
         && ValidSidBytes(SidAt(b, p)) && TrustedBytes(SidAt(b, p), current)))
  }

  predicate Accepts(v: View, current: Option<Sid>)
    requires current.Some? ==> WellFormedSid(current.value)
  {
    && v.valid && current.Some? && v.owner.Some? && Trusted(v.owner.value, current.value)
    && v.dacl.Some? && v.selfRelative
    && forall i | 0 <= i < |v.dacl.value| :: EntryFine(v, i, current.value)
  }

  predicate EntryFine(v: View, i: nat, current: Sid)
    requires v.dacl.Some? && i < |v.dacl.value| && WellFormedSid(current)
  {
    v.dacl.value[i].Some? && EntryOk(v.bytes, v.dacl.value[i].value as int - v.base as int, current)
  }

  /** One byte of the descriptor: every read has to lie inside it. */
  function ByteAt(v: View, address: uintptr): byte
    requires v.base as int <= address as int < v.base as int + |v.bytes|
  {
    v.bytes[address as int - v.base as int]
  }

  /** An entry that grants access, its span known to lie in the buffer: whom? */
  method CheckGrant(v: View, address: uintptr, size: int, current: Sid) returns (ok: bool)
    requires Placed(v) && WellFormedSid(current) && v.base <= address && 4 <= size < 0x1_0000
    requires address as int - v.base as int + size <= |v.bytes|
    ensures var p := address as int - v.base as int;
      ok <==> (
        && SID_START + 8 <= size && SID_START + 8 + 4 * v.bytes[p + SID_START + 1] as nat <= size
        && ValidSidBytes(SidAt(v.bytes, p)) && TrustedBytes(SidAt(v.bytes, p), current))
  {
    if size < SID_START + 8 {
      return false;
    }
    var sidLength := 8 + 4 * ByteAt(v, address + SID_START as uintptr + 1) as int;
    if sidLength > size - SID_START {
      return false;
    }
    var start := address as int - v.base as int + SID_START;
    var sid := v.bytes[start..start + sidLength];
    ok := ValidSidBytes(sid) && TrustedBytes(sid, current);
  }

  /** The loop body: one entry.  No subtraction goes below zero, no addition wraps
      and no byte outside the descriptor is read; Dafny checks each. */
  method CheckEntry(v: View, ace: Option<uintptr>, current: Sid) returns (ok: bool)
    requires Placed(v) && WellFormedSid(current)
    ensures ok <==> ace.Some? && EntryOk(v.bytes, ace.value as int - v.base as int, current)
  {
    if ace.None? {
      return false;
    }
    var address := ace.value;
    var length := |v.bytes| as uintptr;
    if address < v.base || address - v.base > length || HEADER_SIZE > length - (address - v.base) {
      return false;
    }
    var size := ByteAt(v, address + 2) as int + 256 * ByteAt(v, address + 3) as int;
    if size < HEADER_SIZE as int || size as uintptr > length - (address - v.base) {
      return false;
    }
    var kind := ByteAt(v, address);
    if kind == DENIED_TYPE {
      return true;
    } else if kind == ALLOWED_TYPE {
      ok := CheckGrant(v, address, size, current);
    } else {
      return false;
    }
  }

  /** validateWindowsDescriptor. */
  method ValidateDescriptor(v: View, current: Option<Sid>) returns (ok: bool)
    requires Placed(v) && (current.Some? ==> WellFormedSid(current.value))
    ensures ok <==> Accepts(v, current)
  {
    if !v.valid || current.None? || v.owner.None? || !Trusted(v.owner.value, current.value) {
      return false;
    }
    if v.dacl.None? || !v.selfRelative {
      return false;
    }
    var aces := v.dacl.value;
    for i := 0 to |aces|
      invariant forall j | 0 <= j < i :: EntryFine(v, j, current.value)
    {
      var fine := CheckEntry(v, aces[i], current.value);
      if !fine {
        assert !EntryFine(v, i, current.value);
        return false;
      }
    }
    return true;
  }

  // ---- Encoded lists -------------------------------------------------------------------

  /** Access control entries: sections 2.4.4.1, 2.4.4.2 and 2.4.4.4 of MS-DTYP. */
  datatype Ace =
    | Allowed(flags: byte, mask: Bytes, sid: Sid)
    | Denied(flags: byte, mask: Bytes, sid: Sid)
    | Special(kind: byte, flags: byte, body: Bytes)   // object, conditional, audit, …

  predicate WellFormedAce(a: Ace) {
    match a
    case Allowed(_, mask, sid) => |mask| == 4 && WellFormedSid(sid)
    case Denied(_, mask, sid) => |mask| == 4 && WellFormedSid(sid)
    case Special(kind, _, body) => kind != ALLOWED_TYPE && kind != DENIED_TYPE && 4 + |body| < 0x1_0000
  }

  function Body(a: Ace): Bytes
    requires WellFormedAce(a)
  {
    match a
    case Allowed(_, mask, sid) => mask + SidBytes(sid)
    case Denied(_, mask, sid) => mask + SidBytes(sid)
    case Special(_, _, body) => body
  }

  function Kind(a: Ace): byte {
    match a
    case Allowed(_, _, _) => ALLOWED_TYPE
    case Denied(_, _, _) => DENIED_TYPE
    case Special(kind, _, _) => kind
  }

  lemma BodyLength(a: Ace)
    requires WellFormedAce(a)
    ensures 4 + |Body(a)| < 0x1_0000
    ensures !a.Special? ==> |Body(a)| == 12 + 4 * |a.sid.subs|
  {
    if !a.Special? {
      FlatLength(a.sid.subs);
    }
  }

  function AceBytes(a: Ace): (b: Bytes)
    requires WellFormedAce(a)
    ensures |b| == 4 + |Body(a)|
  {
    BodyLength(a);
    var size := 4 + |Body(a)|;
    [Kind(a), a.flags, (size % 256) as byte, (size / 256) as byte] + Body(a)
  }

  predicate WellFormedList(aces: seq<Ace>) {
    forall k | 0 <= k < |aces| :: WellFormedAce(aces[k])
  }

  function Parts(aces: seq<Ace>): (r: seq<Bytes>)
    requires WellFormedList(aces)
    ensures |r| == |aces| && forall k | 0 <= k < |aces| :: r[k] == AceBytes(aces[k])
  {
    seq(|aces|, k requires 0 <= k < |aces| => AceBytes(aces[k]))
  }

  function AcesBytes(aces: seq<Ace>): Bytes
    requires WellFormedList(aces)
  {
    Flat(Parts(aces))
  }

  /** The list of section 2.4.5 of MS-DTYP: an eight-byte header and its entries. */
  function AclBytes(aces: seq<Ace>): Bytes
    requires |aces| < 0x1_0000 && WellFormedList(aces) && |AcesBytes(aces)| + 8 < 0x1_0000
  {
    var size := 8 + |AcesBytes(aces)|;
    [2, 0, (size % 256) as byte, (size / 256) as byte, (|aces| % 256) as byte, (|aces| / 256) as byte, 0, 0]
      + AcesBytes(aces)
  }

  /** Where GetAce finds entry `i` of the list that starts at `p`. */
  function AceOffset(aces: seq<Ace>, p: nat, i: nat): nat
    requires i <= |aces| && WellFormedList(aces)
  {
    p + 8 + |Flat(Parts(aces)[..i])|
  }

  /** The entry grants nothing to anyone but the trusted. */
  predicate Harmless(a: Ace, current: Sid) {
    a.Denied? || (a.Allowed? && Trusted(a.sid, current))
  }

  predicate LiesAt(part: Bytes, whole: Bytes, at: nat) {
    at + |part| <= |whole| && whole[at..at + |part|] == part
  }

  lemma LiesWithin(part: Bytes, whole: Bytes, at: nat, before: Bytes, after: Bytes)
    requires LiesAt(part, whole, at)
    ensures LiesAt(part, before + whole + after, |before| + at)
  {
    var b := before + whole + after;
    assert b[|before|..|before| + |whole|] == whole;
    assert b[|before| + at..|before| + at + |part|] == whole[at..at + |part|];
  }

  lemma {:induction false} PartIsAt(parts: seq<Bytes>, i: nat)
    requires i < |parts|
    ensures LiesAt(parts[i], Flat(parts), |Flat(parts[..i])|)
  {
    var n := |parts| - 1;
    if i < n {
      PartIsAt(parts[..n], i);
      assert parts[..n][..i] == parts[..i];
      LiesWithin(parts[i], Flat(parts[..n]), |Flat(parts[..i])|, [], parts[n]);
      assert [] + Flat(parts[..n]) + parts[n] == Flat(parts);
    }
  }

  /** One encoded entry is judged by what it says. */
  lemma EncodedEntry(b: Bytes, p: nat, a: Ace, current: Sid)
    requires WellFormedSid(current) && WellFormedAce(a)
    requires LiesAt(AceBytes(a), b, p)
    ensures EntryOk(b, p, current) <==> Harmless(a, current)
  {
    var e := AceBytes(a);
    BodyLength(a);
    assert forall k | 0 <= k < |e| :: b[p + k] == e[k];
    assert b[p] == e[0] && b[p + 2] == e[2] && b[p + 3] == e[3];
    assert Size(b, p) == |e|;
    if a.Allowed? {
      var s := SidBytes(a.sid);
      assert e[8..] == s;
      assert b[p + SID_START + 1] == e[9] == s[1];
      FlatLength(a.sid.subs);
      assert SidAt(b, p) == s by {
        assert b[p + 8..p + |e|] == e[8..];
      }
      TrustIsByBytes(a.sid, current);
    }
  }

  /** A list that fits its own size field. */
  predicate Fits(aces: seq<Ace>) {
    |aces| < 0x1_0000 && WellFormedList(aces) && |AcesBytes(aces)| + 8 < 0x1_0000
  }

  lemma ListBody(aces: seq<Ace>)
    requires Fits(aces)
    ensures |AclBytes(aces)| >= 8 && AclBytes(aces) == AclBytes(aces)[..8] + Flat(Parts(aces))
  {
  }

  lemma LiesBehind(part: Bytes, rest: Bytes, at: nat, head: Bytes, whole: Bytes, before: Bytes, after: Bytes)
    requires LiesAt(part, rest, at) && whole == head + rest
    ensures LiesAt(part, before + whole + after, |before| + |head| + at)
  {
    assert before + whole + after == (before + head) + rest + after;
    LiesWithin(part, rest, at, before + head, after);
  }

  lemma AceIsBehind(before: Bytes, aces: seq<Ace>, head: Bytes, whole: Bytes, after: Bytes, i: nat)
    requires i < |aces| && Fits(aces) && |head| == 8 && whole == head + Flat(Parts(aces))
    ensures LiesAt(AceBytes(aces[i]), before + whole + after, AceOffset(aces, |before|, i))
  {
    PartIsAt(Parts(aces), i);
    LiesBehind(Parts(aces)[i], Flat(Parts(aces)), |Flat(Parts(aces)[..i])|, head, whole, before, after);
  }

  lemma EncodedAceIsAt(before: Bytes, aces: seq<Ace>, after: Bytes, i: nat)
    requires i < |aces| && Fits(aces)
    ensures LiesAt(AceBytes(aces[i]), before + AclBytes(aces) + after, AceOffset(aces, |before|, i))
  {
    ListBody(aces);
    AceIsBehind(before, aces, AclBytes(aces)[..8], AclBytes(aces), after, i);
  }

  /** What GetAce answers for each entry of a list that starts behind `before`. */
  function Addresses(base: uintptr, before: Bytes, aces: seq<Ace>): (r: seq<Option<uintptr>>)
    requires Fits(aces) && base as int + |before| + |AclBytes(aces)| < 0x1_0000_0000_0000_0000
    ensures |r| == |aces|
    ensures forall i | 0 <= i < |aces| :: r[i].Some? && r[i].value as int == base as int + AceOffset(aces, |before|, i)
  {
    seq(|aces|, i requires 0 <= i < |aces| =>
      (EncodedAceIsAt(before, aces, [], i); Some((base as int + AceOffset(aces, |before|, i)) as uintptr)))
  }

  /** The system's view of a well-formed self-relative descriptor with this list
      somewhere in it. */
  function Encoded(base: uintptr, before: Bytes, aces: seq<Ace>, after: Bytes, owner: Sid): View
    requires Fits(aces) && base as int + |before| + |AclBytes(aces)| + |after| < 0x1_0000_0000_0000_0000
  {
    View(base, before + AclBytes(aces) + after, true, Some(owner), Some(Addresses(base, before, aces)), true)
  }

  /** Every entry of the list is in the buffer, where GetAce says. */
  predicate Carries(v: View, aces: seq<Ace>, p: nat)
    requires WellFormedList(aces)
  {
    && v.dacl.Some? && |v.dacl.value| == |aces|
    && forall i | 0 <= i < |aces| ::
         && v.dacl.value[i].Some? && v.dacl.value[i].value as int - v.base as int == AceOffset(aces, p, i)
         && LiesAt(AceBytes(aces[i]), v.bytes, AceOffset(aces, p, i))
  }

  lemma EncodedCarries(base: uintptr, before: Bytes, aces: seq<Ace>, after: Bytes, owner: Sid)
    requires Fits(aces) && base as int + |before| + |AclBytes(aces)| + |after| < 0x1_0000_0000_0000_0000
    ensures Carries(Encoded(base, before, aces, after, owner), aces, |before|)
  {
    forall i | 0 <= i < |aces|
      ensures LiesAt(AceBytes(aces[i]), before + AclBytes(aces) + after, AceOffset(aces, |before|, i))
    {
      EncodedAceIsAt(before, aces, after, i);
    }
  }

  lemma CarriedEntry(v: View, i: nat, p: nat, a: Ace, current: Sid)
    requires WellFormedSid(current) && WellFormedAce(a) && v.dacl.Some? && i < |v.dacl.value|
    requires v.dacl.value[i].Some? && v.dacl.value[i].value as int - v.base as int == p
    requires LiesAt(AceBytes(a), v.bytes, p)
    ensures EntryFine(v, i, current) <==> Harmless(a, current)
  {
    EncodedEntry(v.bytes, p, a, current);
  }

  lemma CarriedAccepted(v: View, aces: seq<Ace>, p: nat, current: Sid)
    requires WellFormedSid(current) && WellFormedList(aces) && Carries(v, aces, p)
    requires v.valid && v.owner.Some? && Trusted(v.owner.value, current) && v.selfRelative
    ensures Accepts(v, Some(current)) <==> forall k | 0 <= k < |aces| :: Harmless(aces[k], current)
  {
    forall i | 0 <= i < |aces| ensures EntryFine(v, i, current) <==> Harmless(aces[i], current) {
      CarriedEntry(v, i, AceOffset(aces, p, i), aces[i], current);
    }
  }

  /** With a trusted owner the check accepts a well-formed list exactly when every
      entry denies access or grants it to a trusted principal. */
  lemma EncodedListAccepted(base: uintptr, before: Bytes, aces: seq<Ace>, after: Bytes, owner: Sid, current: Sid)
    requires WellFormedSid(current) && Trusted(owner, current) && Fits(aces)
    requires base as int + |before| + |AclBytes(aces)| + |after| < 0x1_0000_0000_0000_0000
    ensures Accepts(Encoded(base, before, aces, after, owner), Some(current))
      <==> forall k | 0 <= k < |aces| :: Harmless(aces[k], current)
  {
    EncodedCarries(base, before, aces, after, owner);
    CarriedAccepted(Encoded(base, before, aces, after, owner), aces, |before|, current);
  }

  /** An entry is judged by its own bytes alone, and refused unless the buffer holds
      them all. */
  lemma OwnBytesOnly(b: Bytes, p: int, current: Sid)
    requires WellFormedSid(current)
    ensures p < 0 || p + 4 > |b| || Size(b, p) < 4 || p + Size(b, p) > |b| ==> !EntryOk(b, p, current)
    ensures 0 <= p && p + 4 <= |b| && 4 <= Size(b, p) && p + Size(b, p) <= |b| ==>
      (EntryOk(b, p, current) <==> EntryOk(b[p..p + Size(b, p)], 0, current))
  {
    if 0 <= p && p + 4 <= |b| && 4 <= Size(b, p) && p + Size(b, p) <= |b| {
      var e := b[p..p + Size(b, p)];
      assert forall k | 0 <= k < |e| :: e[k] == b[p + k];
      assert Size(e, 0) == Size(b, p);
      if SID_START + 8 <= |e| && SID_START + 8 + 4 * e[SID_START + 1] as nat <= |e| {
        assert SidAt(e, 0) == SidAt(b, p);
      }
    }
  }

  // ---- By the numbers --------------------------------------------------------------------

  /** A sub-authority is a number of 32 bits, its lowest byte first. */
  function Value(sub: Bytes): nat
    requires |sub| == 4
  {
    sub[0] as nat + 0x100 * (sub[1] as nat + 0x100 * (sub[2] as nat + 0x100 * sub[3] as nat))
  }

  /** S-1-5-… with these sub-authorities. */
  predicate NtAccount(sid: Sid, subs: seq<nat>)
    requires WellFormedSid(sid)
  {
    && sid.authority == [0, 0, 0, 0, 0, 5] && |sid.subs| == |subs|
    && forall k | 0 <= k < |subs| :: Value(sid.subs[k]) == subs[k]
  }

  /** The current user, the local system S-1-5-18 or the administrators S-1-5-32-544. */
  predicate Insider(sid: Sid, current: Sid)
    requires WellFormedSid(sid)
  {
    sid == current || NtAccount(sid, [18]) || NtAccount(sid, [32, 544])
  }

  lemma ValueInjective(a: Bytes, b: Bytes)
    requires |a| == |b| == 4 && Value(a) == Value(b)
    ensures a == b
  {
    LowByte(a[0] as nat, a[1] as nat + 0x100 * (a[2] as nat + 0x100 * a[3] as nat), b[0] as nat,
            b[1] as nat + 0x100 * (b[2] as nat + 0x100 * b[3] as nat));
    LowByte(a[1] as nat, a[2] as nat + 0x100 * a[3] as nat, b[1] as nat, b[2] as nat + 0x100 * b[3] as nat);
    LowByte(a[2] as nat, a[3] as nat, b[2] as nat, b[3] as nat);
  }

  lemma LowByte(x: nat, p: nat, y: nat, q: nat)
    requires x < 256 && y < 256 && x + 0x100 * p == y + 0x100 * q
    ensures x == y && p == q
  {
  }

  lemma TrustedMeans(sid: Sid, current: Sid)
    requires WellFormedSid(sid)
    ensures Trusted(sid, current) <==> Insider(sid, current)
  {
    assert Value([18, 0, 0, 0]) == 18 && Value([32, 0, 0, 0]) == 32 && Value([32, 2, 0, 0]) == 544;
    if NtAccount(sid, [18]) {
      ValueInjective(sid.subs[0], [18, 0, 0, 0]);
      assert sid.subs == [[18, 0, 0, 0]];
    } else if NtAccount(sid, [32, 544]) {
      ValueInjective(sid.subs[0], [32, 0, 0, 0]);
      ValueInjective(sid.subs[1], [32, 2, 0, 0]);
      assert sid.subs == [[32, 0, 0, 0], [32, 2, 0, 0]];
    }
  }

  /** Access-allowed entries have type 0, access-denied ones type 1. */
  lemma TypesMean(a: Ace)
    requires WellFormedAce(a)
    ensures AceBytes(a)[0]
      == match a case Allowed(_, _, _) => 0 case Denied(_, _, _) => 1 case Special(kind, _, _) => kind
    ensures a.Special? ==> a.kind != 0 && a.kind != 1
  {
  }

  /** Behind the first eight bytes of what is there stands this principal. */
  predicate Names(e: Bytes, sid: Sid)
    requires WellFormedSid(sid)
  {
    8 + |SidBytes(sid)| <= |e| && e[8..8 + |SidBytes(sid)|] == SidBytes(sid)
  }

  lemma NamedSid(e: Bytes, sid: Sid)
    requires WellFormedSid(sid) && Names(e, sid)
    ensures 16 <= |e| && 16 + 4 * e[9] as nat <= |e| && SidAt(e, 0) == SidBytes(sid) && ValidSidBytes(SidAt(e, 0))
  {
    FlatLength(sid.subs);
    var id := SidBytes(sid);
    assert e[8..8 + |id|][0] == e[8] == 1 && e[8..8 + |id|][1] == e[9] == |sid.subs| as byte;
    assert |id| == 8 + 4 * |sid.subs|;
  }

  lemma GrantMeans(e: Bytes, current: Sid)
    requires WellFormedSid(current) && 4 <= |e| == Size(e, 0) && e[0] == 0
    ensures EntryOk(e, 0, current) <==> exists sid :: WellFormedSid(sid) && Insider(sid, current) && Names(e, sid)
  {
    if EntryOk(e, 0, current) {
      var id := SidAt(e, 0);
      var sid := if id == SidBytes(current) then current else if id == SidBytes(LOCAL_SYSTEM) then LOCAL_SYSTEM
        else ADMINISTRATORS;
      TrustedMeans(sid, current);
      assert Names(e, sid);
    }
    if sid :| WellFormedSid(sid) && Insider(sid, current) && Names(e, sid) {
      NamedSid(e, sid);
      TrustedMeans(sid, current);
    }
  }

  /** Whatever the bytes: an entry passes exactly when it lies in the buffer with the
      size it claims, and denies access or grants it to one of the three, whose
      identifier stands whole within the entry. */
  lemma EntryMeans(b: Bytes, p: int, current: Sid)
    requires WellFormedSid(current)
    ensures EntryOk(b, p, current) <==>
      && 0 <= p && p + 4 <= |b|
      && var size := b[p + 2] as nat + 0x100 * b[p + 3] as nat;
        && 4 <= size <= |b| - p
        && (b[p] == 1
            || (b[p] == 0
                && exists sid :: WellFormedSid(sid) && Insider(sid, current) && Names(b[p..p + size], sid)))
  {
    OwnBytesOnly(b, p, current);
    if 0 <= p && p + 4 <= |b| && 4 <= Size(b, p) <= |b| - p && b[p] == 0 {
      GrantMeans(b[p..p + Size(b, p)], current);
    }
  }

  /** In all: a well-formed descriptor passes exactly when its owner is one of the
      three and each entry denies access or grants it to one of them. */
  lemma EncodedListMeans(base: uintptr, before: Bytes, aces: seq<Ace>, after: Bytes, owner: Sid, current: Sid)
    requires WellFormedSid(current) && WellFormedSid(owner) && Fits(aces)
    requires base as int + |before| + |AclBytes(aces)| + |after| < 0x1_0000_0000_0000_0000
    ensures Accepts(Encoded(base, before, aces, after, owner), Some(current))
      <==> Insider(owner, current)
           && forall k | 0 <= k < |aces| :: aces[k].Denied? || (aces[k].Allowed? && Insider(aces[k].sid, current))
  {
    TrustedMeans(owner, current);
    if Trusted(owner, current) {
      EncodedListAccepted(base, before, aces, after, owner, current);
      forall k | 0 <= k < |aces| && aces[k].Allowed?
        ensures Trusted(aces[k].sid, current) <==> Insider(aces[k].sid, current)
      {
        TrustedMeans(aces[k].sid, current);
      }
    }
  }

  /** Nor does a descriptor pass that is invalid, has no owner, no list or no
      self-relative form, or for which there is no current user. */
  lemma IncompleteRefused(v: View, current: Option<Sid>)
    requires current.Some? ==> WellFormedSid(current.value)
    requires !v.valid || current.None? || v.owner.None? || v.dacl.None? || !v.selfRelative
    ensures !Accepts(v, current)
  {
  }
}
