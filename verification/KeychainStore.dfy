/** KeychainStore: a Put that checks itself and a Get that reads three times,
    while other processes use the same keychain. */
module KeychainStore {
  import opened Basics
  import opened Text
  import opened Keychain
  import B = Base64

  /** One successful look at an item, and what it was at that instant. */
  datatype Look = Look(key: Key, password: bool, item: Item)

  /** What others may have done to an item: anything that leaves it marked,
      removed it, or left it alone. */
  predicate Settling(before: Option<Item>, after: Option<Item>) {
    after == before || after.None? || Marked(after.value)
  }

  /** The keychain behind the security command. */
  class Security {
    const alone: bool           // no other process uses the keychain
    const tame: bool            // others only delete items and store marked ones
    const joins: bool
    var items: Items
    ghost var looks: seq<Look>
    ghost var faults: nat

    constructor (items: Items, alone: bool, tame: bool, joins: bool)
      ensures this.items == items && this.alone == alone && this.tame == tame && this.joins == joins && looks == []
    {
      this.items, this.alone, this.tame, this.joins, looks, faults := items, alone, tame, joins, [], 0;
    }

    method Interference()
      modifies `items
      ensures alone ==> items == old(items)
      ensures tame ==> forall k :: Settling(ItemOf(old(items), k), ItemOf(items, k))
    {
      var next: Items := *;
      if !alone && (!tame || AllSettling(items, next)) {
        items := next;
      }
    }

    method Breaks() returns (broken: bool)
      modifies `faults
      ensures faults == old(faults) + if broken then 1 else 0
    {
      broken := *;
      if broken {
        faults := faults + 1;
      }
    }

    /** find-generic-password, with and without -w. */
    method Find(key: Key, password: bool) returns (r: Result<string>)
      modifies this
      ensures alone ==> items == old(items)
      ensures tame ==> forall k :: Settling(ItemOf(old(items), k), ItemOf(items, k))
      ensures old(faults) <= faults && (faults != old(faults) ==> r == Err(Fault))
      ensures faults == old(faults) ==> r == FindSpec(items, key, password)
      ensures looks == old(looks) + if r.Ok? then [Look(key, password, items[key])] else []
      ensures r.Ok? ==> key in items && r == FindSpec(items, key, password)
    {
      Interference();
      var broken := Breaks();
      r := if broken then Err(Fault) else FindSpec(items, key, password);
      if r.Ok? {
        looks := looks + [Look(key, password, items[key])];
      }
    }

    /** security -i: it runs what it can and reports success either way. */
    method Interact(script: string) returns (ok: bool)
      modifies this
      ensures looks == old(looks) && old(faults) <= faults
      ensures faults == old(faults) ==> ok && (alone ==> items == RunLines(old(items), Lines(script), joins))
      ensures alone ==> items == old(items) || items == RunLines(old(items), Lines(script), joins)
    {
      Interference();
      var broken := Breaks();
      var took: bool := *;
      if !broken || took {
        items := RunLines(items, Lines(script), joins);
      }
      var said: bool := *;
      ok := !broken || said;
    }

    /** delete-generic-password. */
    method Remove(key: Key) returns (err: Option<Error>)
      modifies this
      ensures looks == old(looks) && old(faults) <= faults
      ensures alone ==> items == old(items) || items == old(items) - {key}
      ensures alone && err.None? ==> items == old(items) - {key}
      ensures alone && err == Some(NotExist) ==> key !in old(items) && items == old(items)
      ensures faults == old(faults) ==> (err.None? || err == Some(NotExist)) && key !in items
      ensures faults != old(faults) ==> err == Some(Fault)
    {
      Interference();
      var broken := Breaks();
      var took: bool := *;
      if broken {
        items := if took then items - {key} else items;
        return Some(Fault);
      } else if key !in items {
        return Some(NotExist);
      }
      items := items - {key};
      err := None;
    }
  }

  predicate AllSettling(a: Items, b: Items) {
    forall k | k in a.Keys + b.Keys :: Settling(ItemOf(a, k), ItemOf(b, k))
  }

  function FindSpec(items: Items, key: Key, password: bool): Result<string> {
    if key !in items then Err(NotExist)
    else if password then Ok(items[key].password + "\n")
    else Ok(Printed(Report(key, items[key])))
  }

  // ---- Get ---------------------------------------------------------------------------

  /** Get, undisturbed. */
  function GetSpec(items: Items, key: Key, policy: int): Result<Bytes> {
    if !ValidKey(key) || !ValidPolicy(policy) then Err(Rejected)
    else if key !in items then Err(NotExist)
    else Value(items[key], policy)
  }

  /** A request that is out of order is refused, and what is not there is missing. */
  lemma GetRefuses(items: Items, key: Key, policy: int)
    ensures !ValidKey(key) || policy < 0 || 2 < policy ==> GetSpec(items, key, policy) == Err(Rejected)
    ensures ValidKey(key) && 0 <= policy <= 2 ==> (GetSpec(items, key, policy) == Err(NotExist) <==> key !in items)
  {
    if key in items {
      ValueIsNotMissing(items[key], policy);
    }
  }

  lemma ValueIsNotMissing(item: Item, policy: int)
    ensures Value(item, policy) != Err(NotExist)
  {
  }

  /** An item that holds encoded bytes gives them where it carries the mark or the
      policy is to decode unmarked ones; taken literally it gives its own
      characters, and by default an unmarked one is refused. */
  lemma GetEncoded(items: Items, key: Key, v: Bytes, policy: int)
    requires ValidKey(key) && 0 <= policy <= 2 && key in items && items[key].password == "b64:" + B.Encode(v)
    ensures var r := GetSpec(items, key, policy);
      if items[key].desc == Some("credkit.base64.v1") || policy == 2 then r == Ok(v)
      else if policy == 0 then r == Err(Rejected)
      else OwnBytes("b64:" + B.Encode(v), r)
  {
    EncodedMeans(items[key].desc == Some("credkit.base64.v1"), v, policy);
  }

  /** One without the prefix gives its own characters under every policy, and a
      marked one is an error. */
  lemma GetLiteral(items: Items, key: Key, policy: int)
    requires ValidKey(key) && 0 <= policy <= 2 && key in items && !("b64:" <= items[key].password)
    ensures var r := GetSpec(items, key, policy);
      if items[key].desc == Some("credkit.base64.v1") then r == Err(Malformed) else OwnBytes(items[key].password, r)
  {
    LiteralMeans(items[key].desc == Some("credkit.base64.v1"), items[key].password, policy);
  }

  /** What Get makes of the mark and the password it read. */
  method Interpret(marked: bool, output: string, policy: int) returns (r: Result<Bytes>)
    ensures forall password | output == password + "\n" :: r == Meaning(marked, password, policy)
    ensures forall v | output == "b64:" + B.Encode(v) + "\n" ::
      if marked || policy == 2 then r == Ok(v)
      else if policy == 0 then r == Err(Rejected)
      else OwnBytes("b64:" + B.Encode(v), r)
  {
    forall v | output == "b64:" + B.Encode(v) + "\n" {
      EncodedMeans(marked, v, policy);
    }
    var value := TrimSuffix(output, '\n');
    var prefixed := ENCODED_PREFIX <= value;
    if marked || (prefixed && policy == LEGACY_BASE64) {
      if !prefixed {
        return Err(Malformed);
      }
      var decoded := B.Decode(value[|ENCODED_PREFIX|..]);
      return if decoded.None? then Err(Malformed) else Ok(decoded.value);
    }
    if prefixed && policy == LEGACY_REJECT {
      return Err(Rejected);
    }
    return Ok(Raw(value));
  }

  /** The middle read's item carries the mark both reports agreed on. */
  lemma MiddleIsMarkedAlike(first: Option<Item>, middle: Option<Item>, last: Option<Item>)
    requires first.Some? && middle.Some? && last.Some? && Settling(first, middle) && Settling(middle, last)
    requires Marked(first.value) == Marked(last.value)
    ensures Marked(middle.value) == Marked(first.value)
  {
  }

  /** One look at an item's metadata. */
  method ReadMark(s: Security, key: Key) returns (r: Result<bool>)
    modifies s
    ensures s.alone ==> s.items == old(s.items)
    ensures s.tame ==> Settling(ItemOf(old(s.items), key), ItemOf(s.items, key))
    ensures old(s.faults) <= s.faults
    ensures s.looks == old(s.looks) || r.Ok?
    ensures r.Ok? ==>
      key in s.items && r.value == Marked(s.items[key]) && s.looks == old(s.looks) + [Look(key, false, s.items[key])]
    ensures r.Err? && s.faults == old(s.faults) ==> r == Err(NotExist) && key !in s.items
  {
    var metadata := s.Find(key, false);
    if metadata.Err? {
      return Err(metadata.error);
    }
    ReportMarks(key, s.items[key]);
    var marked := HasEncodedKind(metadata.value);
    r := Ok(marked);
  }

  /** Get. */
  method Get(s: Security, key: Key, policy: int) returns (r: Result<Bytes>)
    modifies s
    ensures s.alone ==> s.items == old(s.items)
    ensures old(s.faults) <= s.faults
    ensures s.alone && s.faults == old(s.faults) ==> r == GetSpec(s.items, key, policy)
    ensures s.alone && r.Ok? ==> r == GetSpec(s.items, key, policy)
    ensures old(s.looks) <= s.looks
    ensures r.Ok? ==> ReadThrice(old(s.looks), s.looks, key, policy, r.value)
    ensures s.tame && r.Ok? ==> MiddleValue(old(s.looks), s.looks, key, policy, r.value)
  {
    if !ValidKey(key) || !ValidPolicy(policy) {
      return Err(Rejected);
    }
    var marked := ReadMark(s, key);
    if marked.Err? {
      return Err(marked.error);
    }
    ghost var first := ItemOf(s.items, key);
    var output := s.Find(key, true);
    if output.Err? {
      return Err(output.error);
    }
    ghost var middle := ItemOf(s.items, key);
    var remarked := ReadMark(s, key);
    if remarked.Err? {
      return Err(remarked.error);
    }
    if remarked.value != marked.value {
      return Err(Fault);
    }
    r := Interpret(marked.value, output.value, policy);
    if s.tame {
      MiddleIsMarkedAlike(first, middle, ItemOf(s.items, key));
    }
  }

  /** Whatever others did: three looks at the item, mark, password and mark; the
      two marks agree, and with the password between they make the value. */
  predicate ReadThrice(before: seq<Look>, after: seq<Look>, key: Key, policy: int, value: Bytes) {
    var n := |before|;
    && |after| == n + 3 && after[..n] == before
    && (forall k | n <= k < n + 3 :: after[k].key == key && after[k].password == (k == n + 1))
    && Marked(after[n].item) == Marked(after[n + 2].item)
    && Meaning(Marked(after[n].item), after[n + 1].item.password, policy) == Ok(value)
  }

  /** The value is the one the item had at the second of three looks. */
  predicate MiddleValue(before: seq<Look>, after: seq<Look>, key: Key, policy: int, value: Bytes) {
    && |after| == |before| + 3 && after[..|before|] == before
    && after[|before| + 1].key == key && after[|before| + 1].password
    && Value(after[|before| + 1].item, policy) == Ok(value)
  }

  // ---- Put and Delete ------------------------------------------------------------------

  /** Put. */
  method Put(s: Security, key: Key, value: Bytes, policy: int) returns (err: Option<Error>)
    modifies s
    ensures old(s.faults) <= s.faults
    ensures !ValidKey(key) || !ValidPolicy(policy) ==> err == Some(Rejected) && s.items == old(s.items)
    ensures s.alone ==> s.items == old(s.items) || s.items == old(s.items)[key := Stored(value)]
    ensures s.alone && ValidKey(key) && ValidPolicy(policy) && s.faults == old(s.faults) ==>
      err.None? && s.items == old(s.items)[key := Stored(value)]
    ensures s.alone && err.None? ==> GetSpec(s.items, key, policy) == Ok(value)
    ensures err.None? ==> ReadThrice(old(s.looks), s.looks, key, policy, value)
    ensures s.tame && err.None? ==> MiddleValue(old(s.looks), s.looks, key, policy, value)
  {
    if !ValidPolicy(policy) || !ValidKey(key) {
      return Some(Rejected);
    }
    ScriptStores(s.items, key, value, s.joins);
    StoredMeans(value, policy);
    var ok := s.Interact(Script(key, value));
    if !ok {
      return Some(Fault);
    }
    var got := Get(s, key, policy);
    err := if got == Ok(value) then None else Some(Fault);
  }

  /** Round trip: what Put stored, Get returns, whatever bytes they are, for every
      valid key, under every policy, and nothing else is touched. */
  lemma PutThenGet(items: Items, key: Key, value: Bytes, policy: int)
    requires ValidKey(key) && ValidPolicy(policy)
    ensures GetSpec(items[key := Stored(value)], key, policy) == Ok(value)
    ensures forall other | other != key ::
      GetSpec(items[key := Stored(value)], other, policy) == GetSpec(items, other, policy)
  {
    StoredMeans(value, policy);
  }

  /** Delete is idempotent. */
  method Delete(s: Security, key: Key) returns (err: Option<Error>)
    modifies s
    ensures !ValidKey(key) ==> err == Some(Rejected) && s.items == old(s.items)
    ensures ValidKey(key) && s.faults == old(s.faults) ==> err.None? && key !in s.items
    ensures s.alone ==> s.items == old(s.items) || s.items == old(s.items) - {key}
    ensures s.alone && err.None? ==> s.items == old(s.items) - {key}
  {
    if !ValidKey(key) {
      return Some(Rejected);
    }
    err := s.Remove(key);
    if err == Some(NotExist) {
      err := None;
    }
  }
}
