/** secret/secret.go: secrets in the macOS keychain, through a command line that
    is parsed at one end and a report that is parsed at the other. */
module Keychain {
  import opened Basics
  import opened Text
  import opened Quoting
  import B = Base64

  datatype Key = Key(service: string, account: string)

  const ENCODED_PREFIX := "b64:"
  const ENCODED_KIND := "credkit.base64.v1"
  const LEGACY_REJECT := 0
  const LEGACY_PLAIN := 1
  const LEGACY_BASE64 := 2

  predicate Has(s: string, c: char) {
    exists k | 0 <= k < |s| :: s[k] == c
  }

  /** validateKey. */
  predicate ValidKey(key: Key) {
    && TrimSpace(key.service) != "" && TrimSpace(key.account) != ""
    && !Has(key.service, '\0') && !Has(key.service, '\r') && !Has(key.service, '\n')
    && !Has(key.account, '\0') && !Has(key.account, '\r') && !Has(key.account, '\n')
  }

  predicate ValidPolicy(policy: int) {
    LEGACY_REJECT <= policy <= LEGACY_BASE64
  }

  // ---- The keychain ------------------------------------------------------------------

  /** A generic password with its description attribute. */
  datatype Item = Item(desc: Option<string>, password: string)

  predicate Marked(item: Item) {
    item.desc == Some(ENCODED_KIND)
  }

  type Items = map<Key, Item>

  function ItemOf(items: Items, key: Key): Option<Item> {
    if key in items then Some(items[key]) else None
  }

  /** The bytes a password's characters stand for. */
  function Raw(s: string): Bytes {
    seq(|s|, k requires 0 <= k < |s| => (s[k] as int % 256) as byte)
  }

  function Armour(value: Bytes): string {
    ENCODED_PREFIX + B.Encode(value)
  }

  function Stored(value: Bytes): Item {
    Item(Some(ENCODED_KIND), Armour(value))
  }

  /** What a password means under a policy, marked or not. */
  function Meaning(marked: bool, password: string, policy: int): Result<Bytes> {
    var prefixed := ENCODED_PREFIX <= password;
    if marked || (prefixed && policy == LEGACY_BASE64) then
      if !prefixed then Err(Malformed)
      else match B.Decode(password[|ENCODED_PREFIX|..])
           case None => Err(Malformed)
           case Some(bytes) => Ok(bytes)
    else if prefixed && policy == LEGACY_REJECT then Err(Rejected)
    else Ok(Raw(password))
  }

  function Value(item: Item, policy: int): Result<Bytes> {
    Meaning(Marked(item), item.password, policy)
  }

  /** The bytes of a text, one for each character. */
  predicate OwnBytes(password: string, r: Result<Bytes>) {
    r.Ok? && |r.value| == |password| && forall k | 0 <= k < |password| :: r.value[k] as int == password[k] as int % 256
  }

  /** Encoded text means the encoded bytes where the item is marked or the policy,
      number 2, says that unmarked items are encoded; policy 1 takes an unmarked one
      literally and policy 0 refuses to choose. */
  lemma EncodedMeans(marked: bool, v: Bytes, policy: int)
    ensures var r := Meaning(marked, "b64:" + B.Encode(v), policy);
      if marked || policy == 2 then r == Ok(v)
      else if policy == 0 then r == Err(Rejected)
      else OwnBytes("b64:" + B.Encode(v), r)
  {
    B.RoundTrip(v);
    assert ("b64:" + B.Encode(v))[4..] == B.Encode(v);
  }

  /** Text behind the prefix that is no encoding is an error wherever it would be
      decoded. */
  lemma GarbledMeans(marked: bool, rest: string, policy: int)
    requires B.Decode(rest).None?
    ensures var r := Meaning(marked, "b64:" + rest, policy);
      if marked || policy == 2 then r == Err(Malformed)
      else if policy == 0 then r == Err(Rejected)
      else OwnBytes("b64:" + rest, r)
  {
    assert ("b64:" + rest)[4..] == rest;
  }

  /** Text without the prefix is itself under every policy, and an error in a
      marked item. */
  lemma LiteralMeans(marked: bool, password: string, policy: int)
    requires !("b64:" <= password)
    ensures if marked then Meaning(marked, password, policy) == Err(Malformed)
            else OwnBytes(password, Meaning(marked, password, policy))
  {
  }

  /** A key is valid exactly when neither half is blank or holds a NUL, a carriage
      return or a line feed. */
  lemma ValidKeyMeans(key: Key)
    ensures ValidKey(key) <==>
      forall s | s in {key.service, key.account} ::
        && (exists k | 0 <= k < |s| :: !Space(s[k]))
        && (forall k | 0 <= k < |s| :: s[k] != '\0' && s[k] != '\r' && s[k] != '\n')
  {
    TrimSpaceEnds(key.service);
    TrimSpaceEnds(key.account);
    assert key.service in {key.service, key.account} && key.account in {key.service, key.account};
  }

  /** Whatever bytes are stored mean themselves, under every policy. */
  lemma StoredMeans(value: Bytes, policy: int)
    ensures Value(Stored(value), policy) == Ok(value)
  {
    B.RoundTrip(value);
    assert Stored(value).password[|ENCODED_PREFIX|..] == B.Encode(value);
  }

  // ---- The file store's names ----------------------------------------------------------

  /** What the file store digests for a key. */
  function DigestedText(key: Key): string {
    key.service + "\0" + key.account
  }

  /** FileStore.path, its last element: a digest of the two halves of the key. */
  function FileName(key: Key, digest: string -> string): string {
    digest(DigestedText(key)) + ".secret"
  }

  lemma ZeroInside(a: string, x: string, b: string, y: string)
    requires a + "\0" + x == b + "\0" + y && |a| < |b|
    ensures Has(b, '\0')
  {
    assert b[|a|] == (b + "\0" + y)[|a|] == (a + "\0" + x)[|a|] == '\0';
  }

  lemma FirstZero(a: string, x: string, b: string, y: string)
    requires !Has(a, '\0') && !Has(b, '\0') && a + "\0" + x == b + "\0" + y
    ensures a == b && x == y
  {
    if |a| < |b| {
      ZeroInside(a, x, b, y);
    } else if |b| < |a| {
      ZeroInside(b, y, a, x);
    }
    var s, t := a + "\0" + x, b + "\0" + y;
    assert s[..|a|] == a && t[..|b|] == b && s[|a| + 1..] == x && t[|b| + 1..] == y;
  }

  /** Different keys have different files, unless their two texts collide under
      the digest. */
  lemma KeysHaveOwnFiles(a: Key, b: Key, digest: string -> string)
    requires ValidKey(a) && ValidKey(b) && a != b
    ensures DigestedText(a) != DigestedText(b)
    ensures FileName(a, digest) == FileName(b, digest) <==> digest(DigestedText(a)) == digest(DigestedText(b))
  {
    if DigestedText(a) == DigestedText(b) {
      FirstZero(a.service, a.account, b.service, b.account);
    }
    var s, t := FileName(a, digest), FileName(b, digest);
    assert digest(DigestedText(a)) == s[..|s| - 7] && digest(DigestedText(b)) == t[..|t| - 7];
  }

  // ---- The command line --------------------------------------------------------------

  function CommandLine(key: Key, value: Bytes): string {
    "add-generic-password -a " + QuoteArg(key.account) + " -s " + QuoteArg(key.service)
    + " -D " + ENCODED_KIND + " -U -w " + Armour(value)
  }

  function CommandArgs(key: Key, value: Bytes): seq<string> {
    ["add-generic-password", "-a", key.account, "-s", key.service, "-D", ENCODED_KIND, "-U", "-w", Armour(value)]
  }

  lemma FedWord(line: string, done: seq<string>, word: string, joins: bool)
    requires FeedAll(Lexer([], "", Between), line, joins) == Lexer(done, "", Between)
    requires word != "" && AllOrdinary(word)
    ensures FeedAll(Lexer([], "", Between), line + (word + " "), joins) == Lexer(done + [word], "", Between)
  {
    FeedSplits(Lexer([], "", Between), line, word + " ", joins);
    BareArgument(done, word, joins);
  }

  lemma FedQuoted(line: string, done: seq<string>, v: string, joins: bool)
    requires FeedAll(Lexer([], "", Between), line, joins) == Lexer(done, "", Between)
    ensures FeedAll(Lexer([], "", Between), line + (QuoteArg(v) + " "), joins) == Lexer(done + [v], "", Between)
  {
    FeedSplits(Lexer([], "", Between), line, QuoteArg(v) + " ", joins);
    QuotedArgument(done, v, joins);
  }

  lemma ArmourOrdinary(value: Bytes)
    ensures Armour(value) != "" && AllOrdinary(Armour(value)) && OneLine(Armour(value))
  {
    B.EncodeArmoured(value);
    var w := Armour(value);
    forall k | |ENCODED_PREFIX| <= k < |w| ensures Ordinary(w[k]) && w[k] != '\n' {
      assert w[k] == B.Encode(value)[k - |ENCODED_PREFIX|];
    }
  }

  lemma AccountFed(account: string, joins: bool)
    ensures FeedAll(Lexer([], "", Between), "add-generic-password -a " + (QuoteArg(account) + " "), joins)
      == Lexer(["add-generic-password", "-a", account], "", Between)
  {
    FedWord("", [], "add-generic-password", joins);
    assert "" + ("add-generic-password" + " ") == "add-generic-password ";
    assert [] + ["add-generic-password"] == ["add-generic-password"];
    FedWord("add-generic-password ", ["add-generic-password"], "-a", joins);
    assert "add-generic-password " + ("-a" + " ") == "add-generic-password -a ";
    assert ["add-generic-password"] + ["-a"] == ["add-generic-password", "-a"];
    FedQuoted("add-generic-password -a ", ["add-generic-password", "-a"], account, joins);
    assert ["add-generic-password", "-a"] + [account] == ["add-generic-password", "-a", account];
  }

  lemma ServiceFed(line: string, done: seq<string>, service: string, joins: bool)
    requires FeedAll(Lexer([], "", Between), line, joins) == Lexer(done, "", Between)
    ensures FeedAll(Lexer([], "", Between), line + ("-s " + (QuoteArg(service) + " ")), joins)
      == Lexer(done + ["-s", service], "", Between)
  {
    FedWord(line, done, "-s", joins);
    assert "-s" + " " == "-s ";
    FedQuoted(line + "-s ", done + ["-s"], service, joins);
    assert line + "-s " + (QuoteArg(service) + " ") == line + ("-s " + (QuoteArg(service) + " "));
    assert done + ["-s"] + [service] == done + ["-s", service];
  }

  lemma PairFed(line: string, done: seq<string>, a: string, b: string, joins: bool)
    requires FeedAll(Lexer([], "", Between), line, joins) == Lexer(done, "", Between)
    requires a != "" && b != "" && AllOrdinary(a) && AllOrdinary(b)
    ensures FeedAll(Lexer([], "", Between), line + (a + " " + b + " "), joins) == Lexer(done + [a, b], "", Between)
  {
    FedWord(line, done, a, joins);
    FedWord(line + (a + " "), done + [a], b, joins);
    assert line + (a + " ") + (b + " ") == line + (a + " " + b + " ");
    assert done + [a] + [b] == done + [a, b];
  }

  lemma ValueFed(line: string, done: seq<string>, value: Bytes, joins: bool)
    requires FeedAll(Lexer([], "", Between), line, joins) == Lexer(done, "", Between)
    ensures Arguments(line + Armour(value), joins) == Some(done + [Armour(value)])
  {
    ArmourOrdinary(value);
    LastArgument(done, Armour(value), joins);
    FeedSplits(Lexer([], "", Between), line, Armour(value), joins);
  }

  lemma Regroup(head: string, a: string, s: string, kind: string, w: string)
    ensures head + (a + " ") + ("-s " + (s + " ")) + ("-D" + " " + kind + " ") + ("-U" + " " + "-w" + " ") + w
      == head + a + " -s " + s + " -D " + kind + " -U -w " + w
  {
  }

  /** The line Put builds splits into exactly the arguments it means, for every
      key and every value, however the parser treats closing quotes. */
  lemma CommandParses(key: Key, value: Bytes, joins: bool)
    ensures Arguments(CommandLine(key, value), joins) == Some(CommandArgs(key, value))
  {
    var l1 := "add-generic-password -a " + (QuoteArg(key.account) + " ");
    AccountFed(key.account, joins);
    var l2 := l1 + ("-s " + (QuoteArg(key.service) + " "));
    var d1 := ["add-generic-password", "-a", key.account];
    ServiceFed(l1, d1, key.service, joins);
    var l3 := l2 + ("-D" + " " + ENCODED_KIND + " ");
    var d2 := d1 + ["-s", key.service];
    PairFed(l2, d2, "-D", ENCODED_KIND, joins);
    var l4 := l3 + ("-U" + " " + "-w" + " ");
    var d3 := d2 + ["-D", ENCODED_KIND];
    PairFed(l3, d3, "-U", "-w", joins);
    ValueFed(l4, d3 + ["-U", "-w"], value, joins);
    Regroup("add-generic-password -a ", QuoteArg(key.account), QuoteArg(key.service), ENCODED_KIND, Armour(value));
    assert d3 + ["-U", "-w"] + [Armour(value)] == CommandArgs(key, value);
  }

  /** add-generic-password, for the flags Put passes. */
  predicate AddsItem(args: seq<string>) {
    && |args| == 10 && args[0] == "add-generic-password" && args[1] == "-a" && args[3] == "-s"
    && args[5] == "-D" && args[7] == "-U" && args[8] == "-w"
  }

  function RunLine(items: Items, line: string, joins: bool): Items {
    var args := Arguments(line, joins);
    if args.Some? && AddsItem(args.value)
    then items[Key(args.value[4], args.value[2]) := Item(Some(args.value[6]), args.value[9])]
    else items
  }

  function RunLines(items: Items, lines: seq<string>, joins: bool): Items {
    if lines == [] then items else RunLine(RunLines(items, lines[..|lines| - 1], joins), lines[|lines| - 1], joins)
  }

  /** What Put sends to `security -i`. */
  function Script(key: Key, value: Bytes): string {
    CommandLine(key, value) + "\n"
  }

  lemma CommandIsOneLine(key: Key, value: Bytes)
    requires ValidKey(key)
    ensures OneLine(CommandLine(key, value))
  {
    EscapeKeepsLine(key.account);
    EscapeKeepsLine(key.service);
    ArmourOrdinary(value);
    var head := "add-generic-password -a " + QuoteArg(key.account) + " -s " + QuoteArg(key.service);
    assert OneLine(QuoteArg(key.account)) && OneLine(QuoteArg(key.service));
    assert OneLine(head);
    assert OneLine(head + " -D " + ENCODED_KIND + " -U -w ");
  }

  lemma CommandStores(items: Items, key: Key, value: Bytes, joins: bool)
    ensures RunLine(items, CommandLine(key, value), joins) == items[key := Stored(value)]
  {
    CommandParses(key, value, joins);
    assert AddsItem(CommandArgs(key, value));
  }

  /** Lines after the first are empty: nothing more happens. */
  lemma RunOne(items: Items, line: string, joins: bool)
    ensures RunLines(items, [line] + [""], joins) == RunLine(items, line, joins)
  {
    var both := [line] + [""];
    assert both[..1] == [line] && [line][..0] == [];
    assert RunLines(items, [line], joins) == RunLine(items, line, joins);
    assert Arguments("", joins) == Some([]);
  }

  lemma PrintedOne(line: string)
    ensures Printed([line]) == line + "\n"
  {
    assert [line][..0] == [] && "" + line == line;
  }

  /** The script is one command, and running it stores exactly the value under
      exactly the key: no key can smuggle in a second command or another flag. */
  lemma ScriptStores(items: Items, key: Key, value: Bytes, joins: bool)
    requires ValidKey(key)
    ensures RunLines(items, Lines(Script(key, value)), joins) == items[key := Stored(value)]
  {
    var line := CommandLine(key, value);
    CommandIsOneLine(key, value);
    LinesOfPrinted([line]);
    PrintedOne(line);
    RunOne(items, line, joins);
    CommandStores(items, key, value, joins);
  }

  // ---- The metadata report -----------------------------------------------------------

  /** An attribute's value as the report shows it: quoted text on one line, or
      hexadecimal digits for anything unprintable. */
  predicate Printable(v: string) {
    forall k | 0 <= k < |v| :: ' ' <= v[k] <= '~'
  }

  function HexDigit(k: nat): char
    requires k < 16
  {
    if k < 10 then (48 + k) as char else (55 + k) as char
  }

  function Hex(v: string): (s: string)
    ensures OneLine(s)
  {
    if v == "" then ""
    else Hex(v[..|v| - 1]) + [HexDigit(v[|v| - 1] as nat / 16 % 16), HexDigit(v[|v| - 1] as nat % 16)]
  }

  function Rendered(v: Option<string>): string {
    match v
    case None => "<NULL>"
    case Some(s) => if Printable(s) then "\"" + s + "\"" else "0x" + Hex(s)
  }

  function Head(name: string): string {
    "\"" + name + "\"<blob>="
  }

  function Attribute(name: string, v: Option<string>): string {
    "    " + (Head(name) + Rendered(v))
  }

  /** What find-generic-password prints: one line per attribute. */
  function Report(key: Key, item: Item): seq<string> {
    ["class: \"genp\"", "attributes:", Attribute("acct", Some(key.account)), Attribute("desc", item.desc)]
      + [Attribute("svce", Some(key.service))]
  }

  function Expected(): string {
    Head("desc") + "\"" + ENCODED_KIND + "\""
  }

  predicate Marks(metadata: string, expected: string) {
    exists k | 0 <= k < |Lines(metadata)| :: TrimSpace(Lines(metadata)[k]) == expected
  }

  lemma RenderedOneLine(v: Option<string>)
    ensures OneLine(Rendered(v)) && Rendered(v) != ""
  {
    if v.Some? && Printable(v.value) {
      assert forall k | 0 <= k < |v.value| :: v.value[k] != '\n';
    }
  }

  lemma AttributeOneLine(name: string, v: Option<string>)
    requires OneLine(name)
    ensures OneLine(Attribute(name, v))
  {
    RenderedOneLine(v);
    assert OneLine(Head(name));
  }

  lemma AttributeTrims(name: string, v: Option<string>)
    ensures TrimSpace(Attribute(name, v)) == TrimRight(Head(name) + Rendered(v))
  {
    TrimIndent("    ", Head(name) + Rendered(v));
  }

  lemma QuotesMatch(p: string, a: string, b: string)
    requires p + "\"" + a + "\"" == p + "\"" + b + "\""
    ensures a == b
  {
    var x, y := p + "\"" + a + "\"", p + "\"" + b + "\"";
    assert a == x[|p| + 1..|x| - 1] && b == y[|p| + 1..|y| - 1];
  }

  /** A line that starts like the description shows the kind exactly when that is
      its value. */
  lemma DescriptionMarks(p: string, kind: string, v: Option<string>)
    requires Printable(kind)
    ensures TrimRight(p + Rendered(v)) == p + "\"" + kind + "\"" <==> v == Some(kind)
  {
    if v.Some? && Printable(v.value) {
      QuotedMarks(p, kind, v.value);
    } else {
      UnquotedSilent(p, kind, v);
    }
  }

  lemma QuotedMarks(p: string, kind: string, v: string)
    requires Printable(v)
    ensures TrimRight(p + Rendered(Some(v))) == p + "\"" + kind + "\"" <==> v == kind
  {
    var body := p + "\"" + v + "\"";
    assert p + Rendered(Some(v)) == body;
    assert TrimRight(body) == body;
    if body == p + "\"" + kind + "\"" {
      QuotesMatch(p, v, kind);
    }
  }

  lemma UnquotedSilent(p: string, kind: string, v: Option<string>)
    requires !(v.Some? && Printable(v.value))
    ensures TrimRight(p + Rendered(v)) != p + "\"" + kind + "\""
  {
    var body := p + Rendered(v);
    var want := p + "\"" + kind + "\"";
    var r := TrimRight(body);
    assert body[|p|] == Rendered(v)[0] && want[|p|] == '"';
    assert |r| > |p| ==> r[|p|] == body[|p|];
  }

  /** A line that starts differently does not. */
  lemma OthersSilent(p: string, q: string, x: string, y: string)
    requires |p| > 1 && |q| > 1 && p[1] != q[1]
    ensures TrimRight(p + x) != q + y
  {
    var r := TrimRight(p + x);
    assert |r| > 1 ==> r[1] == (p + x)[1];
  }

  lemma ExpectedShape()
    ensures Expected() == Head("desc") + ("\"" + ENCODED_KIND + "\"") && Head("desc")[1] == 'd'
    ensures Printable(ENCODED_KIND)
  {
  }

  lemma HeaderSilent()
    ensures TrimSpace("class: \"genp\"") != Expected() && TrimSpace("attributes:") != Expected()
    ensures TrimSpace("") != Expected()
  {
    assert Expected()[0] == '"';
  }

  lemma FourthDecides(lines: seq<string>, e: string)
    requires |lines| == 5 && TrimSpace("") != e
    requires forall k | 0 <= k < 5 :: OneLine(lines[k]) && (k != 3 ==> TrimSpace(lines[k]) != e)
    ensures Marks(Printed(lines), e) <==> TrimSpace(lines[3]) == e
  {
    LinesOfPrinted(lines);
    var all := Lines(Printed(lines));
    assert all == lines + [""];
    if TrimSpace(lines[3]) == e {
      assert TrimSpace(all[3]) == e;
    }
  }

  /** An account or a service that looks like the mark is not taken for it. */
  lemma KeyLinesSilent(key: Key)
    ensures TrimSpace(Attribute("acct", Some(key.account))) != Expected()
    ensures TrimSpace(Attribute("svce", Some(key.service))) != Expected()
  {
    ExpectedShape();
    AttributeTrims("acct", Some(key.account));
    AttributeTrims("svce", Some(key.service));
    OthersSilent(Head("acct"), Head("desc"), Rendered(Some(key.account)), "\"" + ENCODED_KIND + "\"");
    OthersSilent(Head("svce"), Head("desc"), Rendered(Some(key.service)), "\"" + ENCODED_KIND + "\"");
  }

  lemma DescLineMarks(item: Item)
    ensures TrimSpace(Attribute("desc", item.desc)) == Expected() <==> Marked(item)
  {
    ExpectedShape();
    AttributeTrims("desc", item.desc);
    DescriptionMarks(Head("desc"), ENCODED_KIND, item.desc);
  }

  lemma ReportOneLines(key: Key, item: Item)
    ensures forall k | 0 <= k < 5 :: OneLine(Report(key, item)[k])
  {
    AttributeOneLine("acct", Some(key.account));
    AttributeOneLine("desc", item.desc);
    AttributeOneLine("svce", Some(key.service));
    HeaderOneLine();
    FiveHold("class: \"genp\"", "attributes:", Attribute("acct", Some(key.account)), Attribute("desc", item.desc),
             Attribute("svce", Some(key.service)));
  }

  lemma HeaderOneLine()
    ensures OneLine("class: \"genp\"") && OneLine("attributes:")
  {
  }

  lemma FiveHold(a: string, b: string, c: string, d: string, e: string)
    requires OneLine(a) && OneLine(b) && OneLine(c) && OneLine(d) && OneLine(e)
    ensures forall k | 0 <= k < 5 :: OneLine([a, b, c, d, e][k])
  {
  }

  lemma ReportSilent(key: Key, item: Item)
    ensures forall k | 0 <= k < 5 && k != 3 :: TrimSpace(Report(key, item)[k]) != Expected()
  {
    HeaderSilent();
    KeyLinesSilent(key);
  }

  /** hasEncodedKind reads the mark off the report exactly when it is there. */
  lemma ReportMarks(key: Key, item: Item)
    ensures Marks(Printed(Report(key, item)), Expected()) <==> Marked(item)
  {
    var lines, expected := Report(key, item), Expected();
    assert TrimSpace("") != expected by {
      HeaderSilent();
    }
    ReportOneLines(key, item);
    ReportSilent(key, item);
    FourthDecides(lines, expected);
    DescLineMarks(item);
  }

  /** hasEncodedKind. */
  method HasEncodedKind(metadata: string) returns (marked: bool)
    ensures marked <==> Marks(metadata, Expected())
  {
    var expected := Expected();
    var lines := Lines(metadata);
    for k := 0 to |lines|
      invariant forall j | 0 <= j < k :: TrimSpace(lines[j]) != expected
    {
      if TrimSpace(lines[k]) == expected {
        return true;
      }
    }
    return false;
  }
}
