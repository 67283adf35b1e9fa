/**
 The documents that stand for a value (RFC 8259 sections 2 to 7), described by how
 they are written and not by how they are read: every scalar may be written as
 itself, by a short escape or by its hexadecimal digits in either case, members
 come in any order, and blanks stand around every token. The parser accepts
 exactly these documents, within its limits, and reads what they stand for.
 */
module ManagementJsonSpellings {
  import opened Wrappers
  import opened Utf8
  import opened ManagementJsonText
  import opened ManagementJsonGrammar
  import opened ManagementJsonScalars
  import opened ManagementJsonLaws

  // ----- Scalars in a string -----

  /** One scalar and how it is written. */
  datatype Piece =
    | Raw(point: ScalarValue)
    | Short(point: ScalarValue, name: char)
    | Hex(point: ScalarValue, digits: string)
    | Pair(point: ScalarValue, high: string, low: string)

  predicate IsHexDigit(c: char) { '0' <= c <= '9' || 'a' <= c <= 'f' || 'A' <= c <= 'F' }

  function HexDigitNumber(c: char): nat
    requires IsHexDigit(c)
  {
    if c <= '9' then c as int - 0x30 else if c <= 'F' then c as int - 0x37 else c as int - 0x57
  }

  predicate IsHex4(s: string) { |s| == 4 && forall i | 0 <= i < 4 :: IsHexDigit(s[i]) }

  function Hex4Number(s: string): nat
    requires IsHex4(s)
  {
    4096 * HexDigitNumber(s[0]) + 256 * HexDigitNumber(s[1]) + 16 * HexDigitNumber(s[2]) + HexDigitNumber(s[3])
  }

  /** The short escapes and the code points they stand for. */
  const SHORT: map<char, int> := map['"' := 0x22, '\\' := 0x5c, '/' := 0x2f, 'b' := 0x08, 'f' := 0x0c, 'n' := 0x0a, 'r' := 0x0d, 't' := 0x09]

  predicate ValidPiece(p: Piece) {
    match p
    case Raw(point) => point >= 0x20 && point != 0x22 && point != 0x5c
    case Short(point, name) => name in SHORT && point == SHORT[name]
    case Hex(point, digits) => point < 0x10000 && IsHex4(digits) && Hex4Number(digits) == point
    case Pair(point, high, low) =>
      && point >= 0x10000 && IsHex4(high) && IsHex4(low)
      && Hex4Number(high) == 0xd800 + (point - 0x10000) / 1024 && Hex4Number(low) == 0xdc00 + (point - 0x10000) % 1024
  }

  function Spelled(p: Piece): string {
    match p
    case Raw(point) => Encode(point)
    case Short(_, name) => "\\" + [name]
    case Hex(_, digits) => "\\u" + digits
    case Pair(_, high, low) => "\\u" + high + "\\u" + low
  }

  lemma Hex4IsRead(digits: string, rest: string)
    requires IsHex4(digits)
    ensures ReadHex4(digits + rest) == Some(Hex4Number(digits))
  {
    var s := digits + rest;
    assert s[0] == digits[0] && s[1] == digits[1] && s[2] == digits[2] && s[3] == digits[3];
  }

  lemma PieceIsRead(p: Piece, rest: string)
    requires ValidPiece(p)
    ensures Spelled(p) != "" && Spelled(p)[0] != '"' && ReadUnit(Spelled(p) + rest) == Some(Unit(Encode(p.point), |Spelled(p)|))
  {
    hide ReadUnit, Encode;
    match p
    case Raw(point) => RawIsRead(point, rest); RawStart(point);
    case Short(point, name) => ShortIsRead(point, name, rest);
    case Hex(point, digits) => HexIsRead(point, digits, rest);
    case Pair(point, high, low) => PairIsRead(point, high, low, rest);
  }

  lemma RawIsRead(point: int, rest: string)
    requires IsScalar(point) && ValidPiece(Raw(point))
    ensures ReadUnit(Encode(point) + rest) == Some(Unit(Encode(point), |Encode(point)|))
  {
    hide Encode, Read;
    EncodeIsRead(point, rest);
    RawStart(point);
    assert (Encode(point) + rest)[..|Encode(point)|] == Encode(point);
  }

  lemma ShortIsRead(point: int, name: char, rest: string)
    requires IsScalar(point) && ValidPiece(Short(point, name))
    ensures ReadUnit("\\" + [name] + rest) == Some(Unit(Encode(point), 2))
  {
    hide Read, ReadEscapedScalar;
    var s := "\\" + [name] + rest;
    assert s[1..][0] == name;
    assert Encode(point) == [point as char];
  }

  lemma HexIsRead(point: int, digits: string, rest: string)
    requires IsScalar(point) && ValidPiece(Hex(point, digits))
    ensures ReadUnit("\\u" + digits + rest) == Some(Unit(Encode(point), 6))
  {
    hide Encode, Read, ReadHex4, Hex4Number;
    var s := "\\u" + digits + rest;
    assert s[1..][1..] == digits + rest;
    Hex4IsRead(digits, rest);
  }

  lemma RawStart(point: int)
    requires IsScalar(point) && point >= 0x20 && point != 0x22 && point != 0x5c
    ensures Encode(point) != "" && Encode(point)[0] as int >= 0x20 && Encode(point)[0] != '"' && Encode(point)[0] != '\\'
  {
  }

  lemma PairIsRead(point: int, high: string, low: string, rest: string)
    requires IsScalar(point) && ValidPiece(Pair(point, high, low))
    ensures ReadUnit(Spelled(Pair(point, high, low)) + rest) == Some(Unit(Encode(point), 12))
  {
    hide Encode, ReadHex4, Hex4Number;
    var s := Spelled(Pair(point, high, low)) + rest;
    var t := s[1..][1..];
    assert t == high + ("\\u" + low + rest);
    Hex4IsRead(high, "\\u" + low + rest);
    assert t[6..] == low + rest;
    Hex4IsRead(low, rest);
    assert (Hex4Number(high) - 0xd800) * 1024 + (Hex4Number(low) - 0xdc00) == point - 0x10000;
  }

  // ----- Strings -----

  predicate ValidPieces(ps: seq<Piece>) { forall i | 0 <= i < |ps| :: ValidPiece(ps[i]) }

  function SpelledAll(ps: seq<Piece>): string {
    if ps == [] then "" else Spelled(ps[0]) + SpelledAll(ps[1..])
  }

  /** The UTF-8 of the scalars. */
  function Meant(ps: seq<Piece>): string {
    if ps == [] then "" else Encode(ps[0].point) + Meant(ps[1..])
  }

  lemma {:induction false} PiecesAreRead(ps: seq<Piece>, rest: string, output: string, b: Limits)
    requires ValidPieces(ps) && |output| + |Meant(ps)| <= b.stringBytes
    ensures ReadBody(SpelledAll(ps) + ("\"" + rest), output, b) == Go(output + Meant(ps), rest, 0)
    decreases |ps|
  {
    hide ReadUnit, ReadBody, Encode, Spelled;
    var close := "\"" + rest;
    if ps == [] {
      BodyEnds(rest, output, b);
      assert "" + close == close && output + "" == output;
    } else {
      var unit := Encode(ps[0].point);
      PieceIsRead(ps[0], SpelledAll(ps[1..]) + close);
      assert SpelledAll(ps) + close == Spelled(ps[0]) + (SpelledAll(ps[1..]) + close);
      BodyTakesUnit(Spelled(ps[0]), SpelledAll(ps[1..]) + close, unit, output, b);
      PiecesAreRead(ps[1..], rest, output + unit, b);
      assert output + unit + Meant(ps[1..]) == output + Meant(ps);
    }
  }

  function Quote(ps: seq<Piece>): string { "\"" + SpelledAll(ps) + "\"" }

  lemma QuoteIsRead(ps: seq<Piece>, rest: string, b: Limits)
    requires ValidPieces(ps) && |Meant(ps)| <= b.stringBytes
    ensures ReadString(Quote(ps) + rest, b) == Go(Meant(ps), rest, 0)
  {
    hide ReadBody, SpelledAll, Meant, ValidPieces;
    assert (Quote(ps) + rest)[1..] == SpelledAll(ps) + ("\"" + rest);
    PiecesAreRead(ps, rest, "", b);
    assert "" + Meant(ps) == Meant(ps);
  }

  // ----- Values -----

  /** A value and how it is written; `inner` are the blanks of an empty list or record. */
  datatype Node =
    | Plain(value: Value)
    | MinusZero
    | Quoted(pieces: seq<Piece>)
    | List(inner: string, items: seq<Padded>)
    | Record(inner: string, members: seq<Member>)

  datatype Padded = Padded(before: string, node: Node, after: string)

  datatype Member = Member(before: string, key: seq<Piece>, after: string, value: Padded)

  predicate Blank(s: string) { forall i | 0 <= i < |s| :: s[i] in " \t\r\n" }

  function Spell(n: Node): string
    decreases n, 1, 0
  {
    match n
    case Plain(v) => if v.Null? || v.Bool? || v.Int? then Text(v) else ""
    case MinusZero => "-0"
    case Quoted(ps) => Quote(ps)
    case List(inner, items) => "[" + if items == [] then inner + "]" else SpellItems(n, 0)
    case Record(inner, members) => "{" + if members == [] then inner + "}" else SpellMembers(n, 0)
  }

  function SpellPadded(p: Padded): string
    decreases p, 0, 0
  {
    p.before + Spell(p.node) + p.after
  }

  function SpellItems(n: Node, i: nat): string
    requires n.List? && i < |n.items|
    decreases n, 0, |n.items| - i
  {
    SpellPadded(n.items[i]) + if i + 1 == |n.items| then "]" else "," + SpellItems(n, i + 1)
  }

  function SpellMembers(n: Node, i: nat): string
    requires n.Record? && i < |n.members|
    decreases n, 0, |n.members| - i
  {
    var m := n.members[i];
    m.before + Quote(m.key) + m.after + ":" + SpellPadded(m.value) + if i + 1 == |n.members| then "}" else "," + SpellMembers(n, i + 1)
  }

  /** The value a document stands for. */
  function Meaning(n: Node): Value
    decreases n, 1, 0
  {
    match n
    case Plain(v) => v
    case MinusZero => Int(0)
    case Quoted(ps) => Str(Meant(ps))
    case List(_, items) => Arr(Items(n, |items|))
    case Record(_, members) => Obj(Fields(n, |members|))
  }

  function Items(n: Node, k: nat): (r: seq<Value>)
    requires n.List? && k <= |n.items|
    ensures |r| == k
    decreases n, 0, k
  {
    if k == 0 then [] else Items(n, k - 1) + [Meaning(n.items[k - 1].node)]
  }

  function Fields(n: Node, k: nat): map<string, Value>
    requires n.Record? && k <= |n.members|
    decreases n, 0, k
  {
    if k == 0 then map[] else Fields(n, k - 1)[Meant(n.members[k - 1].key) := Meaning(n.members[k - 1].value.node)]
  }

  /** Values and keys, both counted. */
  function Nodes(n: Node): (r: nat)
    ensures r > 0
    decreases n, 1, 0
  {
    match n
    case List(_, items) => 1 + NodesOfItems(n, 0)
    case Record(_, members) => 1 + NodesOfMembers(n, 0)
    case _ => 1
  }

  function NodesOfItems(n: Node, i: nat): nat
    requires n.List? && i <= |n.items|
    decreases n, 0, |n.items| - i
  {
    if i == |n.items| then 0 else Nodes(n.items[i].node) + NodesOfItems(n, i + 1)
  }

  function NodesOfMembers(n: Node, i: nat): nat
    requires n.Record? && i <= |n.members|
    decreases n, 0, |n.members| - i
  {
    if i == |n.members| then 0 else 1 + Nodes(n.members[i].value.node) + NodesOfMembers(n, i + 1)
  }

  /** Strings, blanks and keys are as they must be, and nothing lies deeper than the limit. */
  predicate Sound(n: Node, depth: nat, b: Limits)
    decreases n, 1
  {
    match n
    case Plain(v) => v.Null? || v.Bool? || v.Int?
    case MinusZero => true
    case Quoted(ps) => SoundPieces(ps, b)
    case List(inner, items) => depth < b.depth && Blank(inner) && forall i | 0 <= i < |items| :: SoundPadded(items[i], depth + 1, b)
    case Record(inner, members) =>
      && depth < b.depth && Blank(inner)
      && (forall i | 0 <= i < |members| :: SoundMember(members[i], depth + 1, b))
      && (forall i, j | 0 <= i < j < |members| :: Meant(members[i].key) != Meant(members[j].key))
  }

  predicate SoundPieces(ps: seq<Piece>, b: Limits) { ValidPieces(ps) && |Meant(ps)| <= b.stringBytes }

  predicate SoundPadded(p: Padded, depth: nat, b: Limits)
    decreases p, 0
  {
    Blank(p.before) && Blank(p.after) && Sound(p.node, depth, b)
  }

  predicate SoundMember(m: Member, depth: nat, b: Limits)
    decreases m, 0
  {
    Blank(m.before) && SoundPieces(m.key, b) && Blank(m.after) && SoundPadded(m.value, depth, b)
  }

  // ----- Whatever is so written is read as what it stands for -----

  lemma {:induction false} SkipOver(blanks: string, rest: string)
    requires Blank(blanks) && (rest == "" || !IsBlank(rest[0]))
    ensures SkipBlanks(blanks + rest) == rest
    decreases |blanks|
  {
    if blanks == "" {
      assert blanks + rest == rest;
    } else {
      assert blanks[0] in " \t\r\n";
      assert (blanks + rest)[1..] == blanks[1..] + rest;
      SkipOver(blanks[1..], rest);
    }
  }

  lemma {:induction false} SkipTwice(s: string)
    ensures SkipBlanks(SkipBlanks(s)) == SkipBlanks(s)
    decreases |s|
  {
    if s != "" && IsBlank(s[0]) { SkipTwice(s[1..]); }
  }

  lemma SpellStart(n: Node, depth: nat, b: Limits)
    requires Sound(n, depth, b)
    ensures Spell(n) != "" && !IsBlank(Spell(n)[0]) && Spell(n)[0] != ']' && Spell(n)[0] != '}'
  {
    hide SpellItems, SpellMembers, SpelledAll;
    if n.Plain? { TextStart(n.value); }
    if n.Plain? && n.value.Int? { IntStart(n.value.number); }
  }

  lemma IntStart(n: int64)
    ensures IntText(n) != "" && (IntText(n)[0] == '-' || IsDigit(IntText(n)[0]))
  {
    NatTextIsDecimal(if n < 0 then -(n as int) else n);
    assert IsDigit(NatText(if n < 0 then -(n as int) else n)[0]);
  }

  lemma MinusZeroIsRead(rest: string, depth: nat, nodes: nat, b: Limits)
    requires nodes + 1 <= b.nodes && Delimited(rest)
    ensures ReadValue("-0" + rest, depth, nodes, b) == Go(Int(0), rest, nodes + 1)
  {
    hide ReadMagnitude;
    MagnitudeIsRead(0, rest);
    assert NatText(0) == "0";
    assert ("-0" + rest)[1..] == "0" + rest;
  }

  lemma QuotedIsRead(ps: seq<Piece>, rest: string, depth: nat, nodes: nat, b: Limits)
    requires SoundPieces(ps, b) && nodes + 1 <= b.nodes
    ensures ReadValue(Quote(ps) + rest, depth, nodes, b) == Go(Str(Meant(ps)), rest, nodes + 1)
  {
    hide ReadString, SpelledAll, ReadInteger;
    QuoteIsRead(ps, rest, b);
    assert (Quote(ps) + rest)[0] == '"';
  }

  lemma {:induction false} NodeIsRead(n: Node, rest: string, depth: nat, nodes: nat, b: Limits)
    requires Sound(n, depth, b) && nodes + Nodes(n) <= b.nodes && Delimited(rest)
    ensures ReadValue(Spell(n) + rest, depth, nodes, b) == Go(Meaning(n), rest, nodes + Nodes(n))
    decreases n, 1, 0
  {
    hide ReadValue, Quote;
    match n
    case Plain(v) => ScalarIsRead(v, rest, depth, nodes, b);
    case MinusZero => MinusZeroIsRead(rest, depth, nodes, b);
    case Quoted(ps) => QuotedIsRead(ps, rest, depth, nodes, b);
    case List(_, _) => ListIsRead(n, rest, depth, nodes, b);
    case Record(_, _) => RecordIsRead(n, rest, depth, nodes, b);
  }

  lemma ItemsAfterBlanks(s: string, items: seq<Value>, depth: nat, nodes: nat, b: Limits)
    ensures ReadItems(SkipBlanks(s), items, depth, nodes, b) == ReadItems(s, items, depth, nodes, b)
  {
    hide ReadValue;
    SkipTwice(s);
  }

  lemma MembersAfterBlanks(s: string, fields: map<string, Value>, depth: nat, nodes: nat, b: Limits)
    ensures ReadMembers(SkipBlanks(s), fields, depth, nodes, b) == ReadMembers(s, fields, depth, nodes, b)
  {
    hide ReadValue, ReadString;
    SkipTwice(s);
    assert ReadKey(SkipBlanks(s), nodes, b) == ReadKey(s, nodes, b);
  }

  lemma ListOpens(s: string, depth: nat, nodes: nat, b: Limits)
    requires s != "" && s[0] == '[' && depth < b.depth && nodes + 1 <= b.nodes
    ensures var inner := SkipBlanks(s[1..]);
            ReadValue(s, depth, nodes, b) == if Starts(inner, ']') then Go(Arr([]), inner[1..], nodes + 1)
                                             else ReadItems(inner, [], depth + 1, nodes + 1, b)
  {
    hide ReadItems, SkipBlanks, ReadInteger, ReadString, ReadMembers;
  }

  lemma RecordOpens(s: string, depth: nat, nodes: nat, b: Limits)
    requires s != "" && s[0] == '{' && depth < b.depth && nodes + 1 <= b.nodes
    ensures var inner := SkipBlanks(s[1..]);
            ReadValue(s, depth, nodes, b) == if Starts(inner, '}') then Go(Obj(map[]), inner[1..], nodes + 1)
                                             else ReadMembers(inner, map[], depth + 1, nodes + 1, b)
  {
    hide ReadItems, SkipBlanks, ReadInteger, ReadString, ReadMembers;
  }

  lemma {:induction false} ListIsRead(n: Node, rest: string, depth: nat, nodes: nat, b: Limits)
    requires n.List? && Sound(n, depth, b) && nodes + Nodes(n) <= b.nodes
    ensures ReadValue(Spell(n) + rest, depth, nodes, b) == Go(Meaning(n), rest, nodes + Nodes(n))
    decreases n, 0, |n.items| + 1
  {
    hide SpellItems, ReadItems, ReadValue, SkipBlanks, NodesOfItems, Items;
    var s := Spell(n) + rest;
    ListOpens(s, depth, nodes, b);
    if n.items == [] {
      assert s[1..] == n.inner + ("]" + rest);
      SkipOver(n.inner, "]" + rest);
      assert ("]" + rest)[1..] == rest;
      NoItems(n);
    } else {
      assert s[1..] == SpellItems(n, 0) + rest;
      ItemsStartWithValue(n, rest, depth + 1, b);
      ItemsAfterBlanks(s[1..], [], depth + 1, nodes + 1, b);
      NoItemsYet(n);
      SpelledItemsAreRead(n, 0, rest, depth + 1, nodes + 1, b);
    }
  }

  lemma NoItemsYet(n: Node)
    requires n.List?
    ensures Items(n, 0) == []
  {
  }

  lemma NoFieldsYet(n: Node)
    requires n.Record?
    ensures Fields(n, 0) == map[]
  {
  }

  lemma NoItems(n: Node)
    requires n.List? && n.items == []
    ensures NodesOfItems(n, 0) == 0 && Items(n, 0) == []
  {
  }

  lemma ItemsStartWithValue(n: Node, rest: string, depth: nat, b: Limits)
    requires n.List? && n.items != [] && SoundPadded(n.items[0], depth, b)
    ensures var t := SkipBlanks(SpellItems(n, 0) + rest); t != "" && t[0] != ']'
  {
    hide SkipBlanks, Spell;
    var p := n.items[0];
    var more := p.after + (if 1 == |n.items| then "]" else "," + SpellItems(n, 1)) + rest;
    SpellStart(p.node, depth, b);
    assert SpellItems(n, 0) + rest == p.before + (Spell(p.node) + more);
    SkipOver(p.before, Spell(p.node) + more);
  }

  /** After a padded value comes what follows it, once the blanks are skipped. */
  lemma {:induction false} PaddedIsRead(p: Padded, tail: string, depth: nat, nodes: nat, b: Limits)
    requires SoundPadded(p, depth, b) && nodes + Nodes(p.node) <= b.nodes
    requires tail == "" || tail[0] in ",]}"
    ensures ReadValue(SkipBlanks(SpellPadded(p) + tail), depth, nodes, b) == Go(Meaning(p.node), p.after + tail, nodes + Nodes(p.node))
    ensures SkipBlanks(p.after + tail) == tail
    decreases p, 1, 0
  {
    hide SkipBlanks, Spell, ReadValue, Meaning, Nodes;
    SpellStart(p.node, depth, b);
    assert SpellPadded(p) + tail == p.before + (Spell(p.node) + (p.after + tail));
    SkipOver(p.before, Spell(p.node) + (p.after + tail));
    SkipOver(p.after, tail);
    assert p.after != "" ==> p.after[0] in " \t\r\n";
    NodeIsRead(p.node, p.after + tail, depth, nodes, b);
  }

  lemma {:induction false} SpelledItemsAreRead(n: Node, i: nat, rest: string, depth: nat, nodes: nat, b: Limits)
    requires n.List? && i < |n.items| && nodes + NodesOfItems(n, i) <= b.nodes
    requires forall j | 0 <= j < |n.items| :: SoundPadded(n.items[j], depth, b)
    ensures ReadItems(SpellItems(n, i) + rest, Items(n, i), depth, nodes, b) == Go(Meaning(n), rest, nodes + NodesOfItems(n, i))
    decreases n, 0, |n.items| - i
  {
    hide ReadValue, SkipBlanks, Spell, SpellPadded, SoundPadded, Nodes;
    var p := n.items[i];
    var tail := (if i + 1 == |n.items| then "]" else "," + SpellItems(n, i + 1)) + rest;
    assert SpellItems(n, i) + rest == SpellPadded(p) + tail;
    PaddedIsRead(p, tail, depth, nodes, b);
    if i + 1 == |n.items| {
      assert tail[1..] == rest;
    } else {
      assert tail[1..] == SpellItems(n, i + 1) + rest;
      SpelledItemsAreRead(n, i + 1, rest, depth, nodes + Nodes(p.node), b);
    }
  }

  lemma {:induction false} RecordIsRead(n: Node, rest: string, depth: nat, nodes: nat, b: Limits)
    requires n.Record? && Sound(n, depth, b) && nodes + Nodes(n) <= b.nodes
    ensures ReadValue(Spell(n) + rest, depth, nodes, b) == Go(Meaning(n), rest, nodes + Nodes(n))
    decreases n, 0, |n.members| + 1
  {
    hide SpellMembers, ReadMembers, ReadValue, SkipBlanks, NodesOfMembers, Fields, SoundMember, Meant;
    var s := Spell(n) + rest;
    RecordOpens(s, depth, nodes, b);
    if n.members == [] {
      assert s[1..] == n.inner + ("}" + rest);
      SkipOver(n.inner, "}" + rest);
      assert ("}" + rest)[1..] == rest;
      NoMembers(n);
    } else {
      assert s[1..] == SpellMembers(n, 0) + rest;
      MembersStartWithKey(n, rest, depth + 1, b);
      MembersAfterBlanks(s[1..], map[], depth + 1, nodes + 1, b);
      NoFieldsYet(n);
      SpelledMembersAreRead(n, 0, rest, depth + 1, nodes + 1, b);
    }
  }

  lemma NoMembers(n: Node)
    requires n.Record? && n.members == []
    ensures NodesOfMembers(n, 0) == 0 && Fields(n, 0) == map[]
  {
  }

  lemma FirstMemberStarts(n: Node)
    requires n.Record? && n.members != []
    ensures n.members[0].before + Quote(n.members[0].key) <= SpellMembers(n, 0)
  {
    hide SpellPadded, SpelledAll;
  }

  lemma MembersStartWithKey(n: Node, rest: string, depth: nat, b: Limits)
    requires n.Record? && n.members != [] && SoundMember(n.members[0], depth, b)
    ensures var t := SkipBlanks(SpellMembers(n, 0) + rest); t != "" && t[0] != '}'
  {
    hide SkipBlanks, SpellPadded, SpelledAll, SoundPadded, SoundPieces, SpellMembers;
    var m := n.members[0];
    FirstMemberStarts(n);
    var more := SpellMembers(n, 0)[|m.before + Quote(m.key)|..] + rest;
    assert SpellMembers(n, 0) + rest == m.before + (Quote(m.key) + more);
    SkipOver(m.before, Quote(m.key) + more);
  }

  lemma SpelledKeyIsRead(m: Member, more: string, depth: nat, nodes: nat, b: Limits)
    requires SoundMember(m, depth, b) && nodes + 1 <= b.nodes
    ensures ReadKey(m.before + Quote(m.key) + m.after + ":" + more, nodes, b) == Go(Meant(m.key), SkipBlanks(more), nodes + 1)
  {
    hide SkipBlanks, ReadString, SpelledAll, Meant, SoundPadded;
    var colon := ":" + more;
    assert m.before + Quote(m.key) + m.after + ":" + more == m.before + (Quote(m.key) + (m.after + colon));
    SkipOver(m.before, Quote(m.key) + (m.after + colon));
    QuoteIsRead(m.key, m.after + colon, b);
    SkipOver(m.after, colon);
    assert colon[1..] == more;
  }

  lemma {:induction false} EarlierKeys(n: Node, k: nat)
    requires n.Record? && k <= |n.members|
    ensures forall key :: key in Fields(n, k) <==> exists i :: 0 <= i < k && Meant(n.members[i].key) == key
    decreases k
  {
    hide Meant;
    if k > 0 { EarlierKeys(n, k - 1); }
  }

  lemma {:induction false} SpelledMembersAreRead(n: Node, i: nat, rest: string, depth: nat, nodes: nat, b: Limits)
    requires n.Record? && i < |n.members| && nodes + NodesOfMembers(n, i) <= b.nodes
    requires forall j | 0 <= j < |n.members| :: SoundMember(n.members[j], depth, b)
    requires forall j, k | 0 <= j < k < |n.members| :: Meant(n.members[j].key) != Meant(n.members[k].key)
    ensures ReadMembers(SpellMembers(n, i) + rest, Fields(n, i), depth, nodes, b) == Go(Meaning(n), rest, nodes + NodesOfMembers(n, i))
    decreases n, 0, |n.members| - i
  {
    hide ReadValue, ReadKey, ReadMembers, SkipBlanks, Spell, SpellPadded, SoundPadded, SoundPieces, Nodes, Quote, Meant, SpellMembers,
         SoundMember;
    var m := n.members[i];
    var tail := MembersTail(n, i) + rest;
    var more := SpellPadded(m.value) + tail;
    MemberAt(n, i, rest);
    SoundMemberParts(m, depth, b);
    SpelledKeyIsRead(m, more, depth, nodes, b);
    EarlierKeys(n, i);
    PaddedIsRead(m.value, tail, depth, nodes + 1, b);
    MembersStep(SpellMembers(n, i) + rest, Fields(n, i), depth, nodes, b);
    if i + 1 == |n.members| {
      assert tail[1..] == rest;
    } else {
      assert tail[1..] == SpellMembers(n, i + 1) + rest;
      SpelledMembersAreRead(n, i + 1, rest, depth, nodes + 1 + Nodes(m.value.node), b);
    }
  }

  lemma MembersStep(s: string, fields: map<string, Value>, depth: nat, nodes: nat, b: Limits)
    requires ReadKey(s, nodes, b).Go? && ReadKey(s, nodes, b).value !in fields
    requires ReadValue(ReadKey(s, nodes, b).rest, depth, nodes + 1, b).Go?
    ensures var key := ReadKey(s, nodes, b); var Go(item, rest, count) := ReadValue(key.rest, depth, nodes + 1, b);
            var next, all := SkipBlanks(rest), fields[key.value := item];
            && (Starts(next, '}') ==> ReadMembers(s, fields, depth, nodes, b) == Go(Obj(all), next[1..], count))
            && (Starts(next, ',') ==> ReadMembers(s, fields, depth, nodes, b) == ReadMembers(next[1..], all, depth, count, b))
  {
    hide ReadValue, ReadString, SkipBlanks;
  }

  function MembersTail(n: Node, i: nat): string
    requires n.Record? && i < |n.members|
  {
    if i + 1 == |n.members| then "}" else "," + SpellMembers(n, i + 1)
  }

  lemma MemberAt(n: Node, i: nat, rest: string)
    requires n.Record? && i < |n.members|
    ensures var m := n.members[i];
            SpellMembers(n, i) + rest == m.before + Quote(m.key) + m.after + ":" + (SpellPadded(m.value) + (MembersTail(n, i) + rest))
  {
    hide SpellPadded, Quote;
    var m := n.members[i];
    var head, value, tail := m.before + Quote(m.key) + m.after + ":", SpellPadded(m.value), MembersTail(n, i);
    assert SpellMembers(n, i) == head + value + tail;
    assert head + value + tail + rest == head + (value + (tail + rest));
  }

  lemma SoundMemberParts(m: Member, depth: nat, b: Limits)
    requires SoundMember(m, depth, b)
    ensures SoundPadded(m.value, depth, b)
  {
  }

  /** A document: a value with blanks around it, within the limits. */
  predicate SoundDocument(p: Padded, b: Limits) {
    ValidLimits(b) && SoundPadded(p, 0, b) && Nodes(p.node) <= b.nodes && |SpellPadded(p)| <= b.documentBytes
  }

  /** Main result, one half: every such document is accepted and read as the value it stands for. */
  lemma SpelledIsParsed(p: Padded, b: Limits)
    requires SoundDocument(p, b)
    ensures ReadDocument(SpellPadded(p), b) == Some(Meaning(p.node))
  {
    hide SpellPadded, Meaning, Nodes, ReadValue, SkipBlanks;
    PaddedIsRead(p, "", 0, 0, b);
    assert SpellPadded(p) + "" == SpellPadded(p) && p.after + "" == p.after;
  }

  // ----- Whatever is read was so written -----

  lemma HexIsSpelled(s: string)
    requires ReadHex4(s).Some?
    ensures IsHex4(s[..4]) && Hex4Number(s[..4]) == ReadHex4(s).value
  {
    Hex4IsRead(s[..4], s[4..]);
    assert s == s[..4] + s[4..];
  }

  lemma RawIsSpelled(s: string) returns (p: Piece)
    requires s != "" && s[0] as int >= 0x20 && s[0] != '"' && s[0] != '\\' && Read(s).Some?
    ensures ValidPiece(p) && Read(s).value.width <= |s| && Spelled(p) == s[..Read(s).value.width] == Encode(p.point)
  {
    ReadIsEncode(s);
    var point := Read(s).value.point;
    p := Raw(point);
    if point < 0x80 { assert Encode(point) == [point as char]; }
  }

  lemma EscapedScalarIsSpelled(s: string) returns (p: Piece)
    requires ReadEscapedScalar(s).Some?
    ensures ValidPiece(p) && Spelled(p) == "\\u" + s[..ReadEscapedScalar(s).value.taken] && Encode(p.point) == ReadEscapedScalar(s).value.bytes
  {
    hide ReadHex4, Encode;
    HexIsSpelled(s);
    var high := ReadHex4(s).value;
    if 0xd800 <= high <= 0xdbff {
      var low := ReadHex4(s[6..]).value;
      HexIsSpelled(s[6..]);
      var point := 0x10000 + (high - 0xd800) * 1024 + (low - 0xdc00);
      assert (point - 0x10000) / 1024 == high - 0xd800 && (point - 0x10000) % 1024 == low - 0xdc00;
      p := Pair(point, s[..4], s[6..][..4]);
      assert s[..10] == s[..4] + "\\u" + s[6..][..4];
    } else {
      p := Hex(high, s[..4]);
    }
  }

  lemma UnitIsSpelled(s: string) returns (p: Piece)
    requires s != "" && s[0] != '"' && ReadUnit(s).Some?
    ensures ValidPiece(p) && Spelled(p) == s[..ReadUnit(s).value.taken] && Encode(p.point) == ReadUnit(s).value.bytes
  {
    hide Read, ReadEscapedScalar, Encode;
    var u := ReadUnit(s).value;
    if s[0] != '\\' {
      p := RawIsSpelled(s);
    } else {
      var t := s[1..];
      if t[0] == 'u' {
        p := EscapedScalarIsSpelled(t[1..]);
        assert s[..u.taken] == "\\u" + t[1..][..u.taken - 2];
      } else {
        p := ShortIsSpelled(t[0]);
        assert s[..2] == "\\" + [t[0]];
      }
    }
  }

  lemma ShortIsSpelled(name: char) returns (p: Piece)
    requires name in {'"', '\\', '/', 'b', 'f', 'n', 'r', 't'}
    ensures ValidPiece(p) && Spelled(p) == "\\" + [name] && ReadEscape([name]).Some? && Encode(p.point) == ReadEscape([name]).value.bytes
  {
    p := Short(SHORT[name], name);
  }

  lemma BodyStep(s: string, output: string, b: Limits)
    requires ReadBody(s, output, b).Go? && s[0] != '"'
    ensures ReadUnit(s).Some? && |output + ReadUnit(s).value.bytes| <= b.stringBytes
    ensures ReadBody(s, output, b) == ReadBody(s[ReadUnit(s).value.taken..], output + ReadUnit(s).value.bytes, b)
  {
    hide ReadUnit;
  }

  lemma PiecesCons(p: Piece, more: seq<Piece>, output: string, rest: string)
    ensures SpelledAll([p] + more) + "\"" + rest == Spelled(p) + (SpelledAll(more) + "\"" + rest)
    ensures output + Meant([p] + more) == output + Encode(p.point) + Meant(more)
    ensures ValidPiece(p) && ValidPieces(more) ==> ValidPieces([p] + more)
  {
    hide Spelled, Encode, ValidPiece;
    assert ([p] + more)[1..] == more;
    Around("", Spelled(p), SpelledAll(more), "\"" + rest);
  }

  lemma {:induction false} BodyIsSpelled(s: string, output: string, b: Limits) returns (ps: seq<Piece>)
    requires ReadBody(s, output, b).Go? && |output| <= b.stringBytes
    ensures var Go(text, rest, _) := ReadBody(s, output, b);
            ValidPieces(ps) && s == SpelledAll(ps) + "\"" + rest && text == output + Meant(ps) && |text| <= b.stringBytes
    decreases |s|
  {
    hide ReadUnit, Encode, Spelled, ValidPiece, ReadBody, SpelledAll, Meant;
    if s[0] == '"' {
      ps := BodyClosed(s, output, b);
    } else {
      BodyStep(s, output, b);
      var p := UnitIsSpelled(s);
      var u := ReadUnit(s).value;
      var more := BodyIsSpelled(s[u.taken..], output + u.bytes, b);
      ps := [p] + more;
      PiecesCons(p, more, output, ReadBody(s, output, b).rest);
      assert s == s[..u.taken] + s[u.taken..];
    }
  }

  lemma BodyClosed(s: string, output: string, b: Limits) returns (ps: seq<Piece>)
    requires s != "" && s[0] == '"' && |output| <= b.stringBytes
    ensures ps == [] && ReadBody(s, output, b) == Go(output, s[1..], 0)
    ensures ValidPieces(ps) && s == SpelledAll(ps) + "\"" + s[1..] && output == output + Meant(ps)
  {
    ps := [];
    assert s == "" + "\"" + s[1..] && output + "" == output;
  }

  lemma StringIsSpelled(s: string, b: Limits) returns (ps: seq<Piece>)
    requires ReadString(s, b).Go?
    ensures var Go(text, rest, _) := ReadString(s, b); SoundPieces(ps, b) && s == Quote(ps) + rest && text == Meant(ps)
  {
    hide ReadBody;
    ps := BodyIsSpelled(s[1..], "", b);
    var rest := ReadString(s, b).rest;
    assert s == "\"" + s[1..] == Quote(ps) + rest;
    assert "" + Meant(ps) == Meant(ps);
  }

  lemma {:induction false} BlanksOf(s: string) returns (blanks: string)
    ensures Blank(blanks) && s == blanks + SkipBlanks(s)
    decreases |s|
  {
    if s != "" && IsBlank(s[0]) {
      var more := BlanksOf(s[1..]);
      blanks := [s[0]] + more;
      assert s[0] in " \t\r\n" by { assert " \t\r\n"[0] == ' ' && " \t\r\n"[1] == '\t' && " \t\r\n"[2] == '\r' && " \t\r\n"[3] == '\n'; }
      assert s == [s[0]] + s[1..];
    } else {
      blanks := "";
      assert s == "" + s;
    }
  }

  lemma MagnitudeIsSpelled(t: string)
    requires ReadMagnitude(t).Go?
    ensures var Go(n, rest, _) := ReadMagnitude(t); t == NatText(n) + rest
  {
    hide NatText, DecimalValue;
    var k := LeadingDigits(t);
    DecimalIsNatText(t[..k]);
    assert t == t[..k] + t[k..];
  }

  lemma IntegerIsSpelled(s: string) returns (n: Node)
    requires ReadInteger(s).Go?
    ensures var Go(number, rest, _) := ReadInteger(s); (n == MinusZero || n == Plain(Int(number))) && Meaning(n) == Int(number) && s == Spell(n) + rest
  {
    hide ReadMagnitude, NatText;
    var Go(number, rest, _) := ReadInteger(s);
    if Starts(s, '-') {
      MagnitudeIsSpelled(s[1..]);
      assert s == "-" + s[1..];
      if number == 0 {
        n := MinusZero;
        ZeroText();
        assert s == "-0" + rest;
      } else {
        n := Plain(Int(number));
        assert s == "-" + NatText(-(number as int)) + rest;
      }
    } else {
      MagnitudeIsSpelled(s);
      n := Plain(Int(number));
    }
  }

  lemma ZeroText()
    ensures NatText(0) == "0"
  {
  }

  lemma ItemsAreLocal(n: Node, m: Node, i: nat, j: nat)
    requires n.List? && m.List? && i <= |n.items| && j <= |m.items| && n.items[i..] == m.items[j..]
    ensures NodesOfItems(n, i) == NodesOfItems(m, j) && (i < |n.items| ==> SpellItems(n, i) == SpellItems(m, j))
    decreases |n.items| - i
  {
    hide SpellPadded, Nodes;
    if i < |n.items| {
      assert n.items[i] == n.items[i..][0] == m.items[j];
      assert n.items[i + 1..] == n.items[i..][1..] == m.items[j + 1..];
      ItemsAreLocal(n, m, i + 1, j + 1);
    }
  }

  lemma {:induction false} ItemsOfCons(p: Padded, ps: seq<Padded>, k: nat)
    requires k <= |ps|
    ensures Items(List("", [p] + ps), k + 1) == [Meaning(p.node)] + Items(List("", ps), k)
    decreases k
  {
    hide Meaning;
    if k > 0 {
      ItemsOfCons(p, ps, k - 1);
      assert ([p] + ps)[k] == ps[k - 1];
    } else {
      assert Items(List("", [p] + ps), 0) == [];
    }
  }

  lemma {:induction false} ItemsIgnoreBlanks(n: Node, m: Node, k: nat)
    requires n.List? && m.List? && k <= |n.items| == |m.items| && forall i | 0 <= i < k :: n.items[i].node == m.items[i].node
    ensures Items(n, k) == Items(m, k)
    decreases k
  {
    hide Meaning;
    if k > 0 { ItemsIgnoreBlanks(n, m, k - 1); }
  }

  lemma {:induction false} ValueIsSpelled(s: string, depth: nat, nodes: nat, b: Limits) returns (n: Node)
    requires ReadValue(s, depth, nodes, b).Go?
    ensures var Go(v, rest, counted) := ReadValue(s, depth, nodes, b);
            Sound(n, depth, b) && s == Spell(n) + rest && Meaning(n) == v && counted == nodes + Nodes(n)
    decreases |s|, 2
  {
    hide ReadItems, ReadMembers, ReadInteger, ReadString, SkipBlanks, SpelledAll;
    var Go(v, rest, counted) := ReadValue(s, depth, nodes, b);
    match s[0]
    case '"' =>
      var ps := StringIsSpelled(s, b);
      n := Quoted(ps);
    case '[' => n := ListIsSpelled(s, depth, nodes, b);
    case '{' => n := RecordIsSpelled(s, depth, nodes, b);
    case 'n' => n := Plain(Null);
    case 't' => n := Plain(Bool(true));
    case 'f' => n := Plain(Bool(false));
    case _ => n := IntegerIsSpelled(s);
  }

  /** A value between blanks. */
  lemma PaddedIsSpelled(s: string, depth: nat, nodes: nat, b: Limits) returns (p: Padded)
    requires ReadValue(SkipBlanks(s), depth, nodes, b).Go?
    ensures var Go(v, rest, counted) := ReadValue(SkipBlanks(s), depth, nodes, b);
            && SoundPadded(p, depth, b) && s == SpellPadded(p) + SkipBlanks(rest) && Meaning(p.node) == v && counted == nodes + Nodes(p.node)
    decreases |s|, 3
  {
    hide ReadValue, SkipBlanks, Sound, Spell, Meaning, Nodes;
    var before := BlanksOf(s);
    assert |SkipBlanks(s)| <= |s|;
    var n := ValueIsSpelled(SkipBlanks(s), depth, nodes, b);
    var rest := ReadValue(SkipBlanks(s), depth, nodes, b).rest;
    var after := BlanksOf(rest);
    p := Padded(before, n, after);
    assert s == before + (Spell(n) + (after + SkipBlanks(rest))) == SpellPadded(p) + SkipBlanks(rest);
  }

  lemma {:induction false} ItemsAreSpelled(s: string, items: seq<Value>, depth: nat, nodes: nat, b: Limits) returns (ps: seq<Padded>)
    requires ReadItems(s, items, depth, nodes, b).Go?
    ensures var Go(v, rest, counted) := ReadItems(s, items, depth, nodes, b); var n := List("", ps);
            && ps != [] && (forall i | 0 <= i < |ps| :: SoundPadded(ps[i], depth, b))
            && s == SpellItems(n, 0) + rest && v == Arr(items + Items(n, |ps|)) && counted == nodes + NodesOfItems(n, 0)
    decreases |s|, 4
  {
    hide ReadValue, SkipBlanks, SpellPadded, SoundPadded, Nodes, Meaning, SpellItems, Items, NodesOfItems;
    var p := PaddedIsSpelled(s, depth, nodes, b);
    var Go(item, rest, count) := ReadValue(SkipBlanks(s), depth, nodes, b);
    var next := SkipBlanks(rest);
    if Starts(next, ']') {
      ps := [p];
      OneItem(p);
      assert next == "]" + next[1..];
      assert s == SpellPadded(p) + "]" + next[1..];
    } else {
      var more := ItemsAreSpelled(next[1..], items + [item], depth, count, b);
      ps := [p] + more;
      MoreItems(p, more);
      var end := ReadItems(s, items, depth, nodes, b).rest;
      assert next == "," + next[1..];
      Around("", SpellPadded(p), "," + SpellItems(List("", more), 0), end);
      assert next == "," + SpellItems(List("", more), 0) + end;
      assert items + [item] + Items(List("", more), |more|) == items + Items(List("", ps), |ps|);
    }
  }

  lemma OneItem(p: Padded)
    ensures var n := List("", [p]);
            SpellItems(n, 0) == SpellPadded(p) + "]" && Items(n, 1) == [Meaning(p.node)] && NodesOfItems(n, 0) == Nodes(p.node)
  {
    hide SpellPadded, Meaning, Nodes;
    var n := List("", [p]);
    assert NodesOfItems(n, 1) == 0 && Items(n, 0) == [];
  }

  lemma MoreItems(p: Padded, more: seq<Padded>)
    requires more != []
    ensures var n, m := List("", [p] + more), List("", more);
            && SpellItems(n, 0) == SpellPadded(p) + ("," + SpellItems(m, 0)) && Items(n, |more| + 1) == [Meaning(p.node)] + Items(m, |more|)
            && NodesOfItems(n, 0) == Nodes(p.node) + NodesOfItems(m, 0)
  {
    hide SpellPadded, Meaning, Nodes;
    var n, m := List("", [p] + more), List("", more);
    assert n.items[1..] == m.items[0..];
    ItemsAreLocal(n, m, 1, 0);
    ItemsOfCons(p, more, |more|);
  }

  /** Blanks found before the first item belong to it. */
  lemma BlanksBeforeItem(n: Node, m: Node, blanks: string)
    requires n.List? && m.List? && m.items != []
    requires n.items == [m.items[0].(before := blanks + m.items[0].before)] + m.items[1..]
    ensures SpellItems(n, 0) == blanks + SpellItems(m, 0) && NodesOfItems(n, 0) == NodesOfItems(m, 0)
  {
    hide Spell, Nodes;
    assert n.items[1..] == m.items[1..];
    ItemsAreLocal(n, m, 1, 1);
    assert SpellPadded(n.items[0]) == blanks + SpellPadded(m.items[0]);
  }

  lemma BlanksJoinFirstItem(blanks: string, ps: seq<Padded>, depth: nat, b: Limits) returns (qs: seq<Padded>)
    requires ps != [] && Blank(blanks) && forall i | 0 <= i < |ps| :: SoundPadded(ps[i], depth, b)
    ensures qs != [] && forall i | 0 <= i < |qs| :: SoundPadded(qs[i], depth, b)
    ensures var n, m := List("", qs), List("", ps);
            SpellItems(n, 0) == blanks + SpellItems(m, 0) && Items(n, |qs|) == Items(m, |ps|) && NodesOfItems(n, 0) == NodesOfItems(m, 0)
  {
    hide Spell, Meaning, Nodes, Sound, SpellItems, NodesOfItems, Items, SpellPadded;
    var first := ps[0].(before := blanks + ps[0].before);
    qs := [first] + ps[1..];
    var n, m := List("", qs), List("", ps);
    BlanksBeforeItem(n, m, blanks);
    ItemsIgnoreBlanks(n, m, |ps|);
    forall i | 0 <= i < |qs| ensures SoundPadded(qs[i], depth, b) { assert SoundPadded(ps[i], depth, b); }
  }

  lemma {:induction false} ListIsSpelled(s: string, depth: nat, nodes: nat, b: Limits) returns (n: Node)
    requires s != "" && s[0] == '[' && ReadValue(s, depth, nodes, b).Go?
    ensures var Go(v, rest, counted) := ReadValue(s, depth, nodes, b);
            Sound(n, depth, b) && s == Spell(n) + rest && Meaning(n) == v && counted == nodes + Nodes(n)
    decreases |s|, 1
  {
    hide ReadItems, ReadInteger, ReadString, SkipBlanks, SpellItems, SoundPadded, NodesOfItems, Items;
    var inner := SkipBlanks(s[1..]);
    var blanks := BlanksOf(s[1..]);
    var rest := ReadValue(s, depth, nodes, b).rest;
    assert s == "[" + s[1..];
    if Starts(inner, ']') {
      n := List(blanks, []);
      NoItems(n);
      assert inner == "]" + inner[1..];
      assert s == "[" + (blanks + "]") + rest;
    } else {
      var ps := ItemsAreSpelled(inner, [], depth + 1, nodes + 1, b);
      var qs := BlanksJoinFirstItem(blanks, ps, depth + 1, b);
      n := List("", qs);
      assert s == "[" + SpellItems(n, 0) + rest;
      assert [] + Items(n, |qs|) == Items(n, |qs|);
    }
  }

  lemma MembersAreLocal(n: Node, m: Node, i: nat, j: nat)
    requires n.Record? && m.Record? && i <= |n.members| && j <= |m.members| && n.members[i..] == m.members[j..]
    ensures NodesOfMembers(n, i) == NodesOfMembers(m, j) && (i < |n.members| ==> SpellMembers(n, i) == SpellMembers(m, j))
    decreases |n.members| - i
  {
    hide SpellPadded, Nodes, Quote;
    if i < |n.members| {
      assert n.members[i] == n.members[i..][0] == m.members[j];
      assert n.members[i + 1..] == n.members[i..][1..] == m.members[j + 1..];
      MembersAreLocal(n, m, i + 1, j + 1);
    }
  }

  /** The fields of the first member and then of the others, when no key repeats. */
  lemma {:induction false} FieldsOfCons(m: Member, ms: seq<Member>, k: nat)
    requires k <= |ms| && forall i | 0 <= i < |ms| :: Meant(ms[i].key) != Meant(m.key)
    ensures Fields(Record("", [m] + ms), k + 1) == map[Meant(m.key) := Meaning(m.value.node)] + Fields(Record("", ms), k)
    decreases k
  {
    hide Meaning, Meant;
    var n := Record("", [m] + ms);
    if k > 0 {
      FieldsOfCons(m, ms, k - 1);
      assert n.members[k] == ms[k - 1];
    } else {
      assert Fields(n, 0) == map[] && Fields(Record("", ms), 0) == map[];
      assert n.members[0] == m;
    }
  }

  lemma {:induction false} FieldsIgnoreBlanks(n: Node, m: Node, k: nat)
    requires n.Record? && m.Record? && k <= |n.members| == |m.members|
    requires forall i | 0 <= i < k :: n.members[i].key == m.members[i].key && n.members[i].value == m.members[i].value
    ensures Fields(n, k) == Fields(m, k)
    decreases k
  {
    hide Meaning, Meant;
    if k > 0 { FieldsIgnoreBlanks(n, m, k - 1); }
  }

  /** A key with its colon, and the blanks around both. */
  lemma KeyIsSpelled(s: string, nodes: nat, b: Limits) returns (before: string, key: seq<Piece>, after: string, gap: string)
    requires ReadKey(s, nodes, b).Go?
    ensures var Go(text, rest, _) := ReadKey(s, nodes, b);
            && Blank(before) && Blank(after) && Blank(gap) && SoundPieces(key, b) && Meant(key) == text
            && s == before + Quote(key) + after + ":" + (gap + rest) && SkipBlanks(rest) == rest
  {
    hide ReadString, SkipBlanks, SpelledAll, Quote, Meant;
    before := BlanksOf(s);
    key := StringIsSpelled(SkipBlanks(s), b);
    var rest := ReadString(SkipBlanks(s), b).rest;
    after := BlanksOf(rest);
    var colon := SkipBlanks(rest);
    assert colon == ":" + colon[1..];
    gap := BlanksOf(colon[1..]);
    SkipTwice(colon[1..]);
    assert s == before + (Quote(key) + (after + (":" + (gap + SkipBlanks(colon[1..])))));
  }

  predicate DistinctKeys(ms: seq<Member>) {
    forall i, j | 0 <= i < j < |ms| :: Meant(ms[i].key) != Meant(ms[j].key)
  }

  predicate SoundMembers(ms: seq<Member>, depth: nat, b: Limits) {
    DistinctKeys(ms) && forall i | 0 <= i < |ms| :: SoundMember(ms[i], depth, b)
  }

  /** One member: its key, its value, and what follows both. */
  lemma MemberIsSpelled(s: string, depth: nat, nodes: nat, b: Limits) returns (m: Member)
    requires ReadKey(s, nodes, b).Go? && ReadValue(ReadKey(s, nodes, b).rest, depth, nodes + 1, b).Go?
    ensures var key := ReadKey(s, nodes, b); var Go(v, rest, counted) := ReadValue(key.rest, depth, nodes + 1, b);
            && SoundMember(m, depth, b) && Meant(m.key) == key.value && Meaning(m.value.node) == v
            && s == m.before + Quote(m.key) + m.after + ":" + (SpellPadded(m.value) + SkipBlanks(rest))
            && counted == nodes + 1 + Nodes(m.value.node)
    decreases |s|, 3
  {
    hide ReadString, SkipBlanks, ReadValue, SpelledAll, Quote, Meant, Meaning, Nodes, Spell, Sound, SoundPieces;
    var before, key, after, gap := KeyIsSpelled(s, nodes, b);
    var afterKey := ReadKey(s, nodes, b).rest;
    var p := PaddedIsSpelled(afterKey, depth, nodes + 1, b);
    var rest := ReadValue(afterKey, depth, nodes + 1, b).rest;
    m := Member(before, key, after, p.(before := gap + p.before));
    assert gap + (SpellPadded(p) + SkipBlanks(rest)) == SpellPadded(m.value) + SkipBlanks(rest);
  }

  lemma {:induction false} MembersAreSpelled(s: string, fields: map<string, Value>, depth: nat, nodes: nat, b: Limits) returns (ms: seq<Member>)
    requires ReadMembers(s, fields, depth, nodes, b).Go?
    ensures var Go(v, rest, counted) := ReadMembers(s, fields, depth, nodes, b); var n := Record("", ms);
            && ms != [] && SoundMembers(ms, depth, b) && (forall i | 0 <= i < |ms| :: Meant(ms[i].key) !in fields)
            && s == SpellMembers(n, 0) + rest && v == Obj(fields + Fields(n, |ms|)) && counted == nodes + NodesOfMembers(n, 0)
    decreases |s|, 4
  {
    hide ReadValue, ReadKey, SkipBlanks, SpellPadded, SoundMember, Nodes, Meaning, Quote, Meant, SpellMembers, Fields, NodesOfMembers;
    var m := MemberIsSpelled(s, depth, nodes, b);
    var Go(key, afterKey, keyCount) := ReadKey(s, nodes, b);
    var Go(item, rest, count) := ReadValue(afterKey, depth, keyCount, b);
    var next := SkipBlanks(rest);
    var head := m.before + Quote(m.key) + m.after + ":";
    if Starts(next, '}') {
      ms := [m];
      OneMember(m);
      assert next == "}" + next[1..];
      Around(head, SpellPadded(m.value), "}", next[1..]);
      assert fields[key := item] == fields + map[key := item];
    } else {
      var more := MembersAreSpelled(next[1..], fields[key := item], depth, count, b);
      ms := [m] + more;
      forall i | 0 <= i < |more| ensures Meant(more[i].key) != key && Meant(more[i].key) !in fields { }
      MoreMembers(m, more);
      var end := ReadMembers(s, fields, depth, nodes, b).rest;
      assert next == "," + next[1..];
      Around(head, SpellPadded(m.value), "," + SpellMembers(Record("", more), 0), end);
      assert next == "," + SpellMembers(Record("", more), 0) + end;
      assert fields[key := item] + Fields(Record("", more), |more|) == fields + Fields(Record("", ms), |ms|);
    }
  }

  lemma Around(head: string, value: string, tail: string, end: string)
    ensures head + (value + (tail + end)) == head + value + tail + end
  {
  }

  lemma OneMember(m: Member)
    ensures var n := Record("", [m]);
            && SpellMembers(n, 0) == m.before + Quote(m.key) + m.after + ":" + SpellPadded(m.value) + "}"
            && Fields(n, 1) == map[Meant(m.key) := Meaning(m.value.node)] && NodesOfMembers(n, 0) == 1 + Nodes(m.value.node)
  {
    hide SpellPadded, Meaning, Nodes, Quote, Meant;
    var n := Record("", [m]);
    assert NodesOfMembers(n, 1) == 0 && Fields(n, 0) == map[];
  }

  lemma MoreMembers(m: Member, more: seq<Member>)
    requires more != [] && forall i | 0 <= i < |more| :: Meant(more[i].key) != Meant(m.key)
    ensures var n, k := Record("", [m] + more), Record("", more);
            && SpellMembers(n, 0) == m.before + Quote(m.key) + m.after + ":" + SpellPadded(m.value) + ("," + SpellMembers(k, 0))
            && Fields(n, |more| + 1) == map[Meant(m.key) := Meaning(m.value.node)] + Fields(k, |more|)
            && NodesOfMembers(n, 0) == 1 + Nodes(m.value.node) + NodesOfMembers(k, 0)
  {
    hide SpellPadded, Meaning, Nodes, Quote, Meant, SpellMembers, Fields, NodesOfMembers;
    var n, k := Record("", [m] + more), Record("", more);
    assert n.members[1..] == k.members[0..];
    MembersAreLocal(n, k, 1, 0);
    FieldsOfCons(m, more, |more|);
    FirstMember(n);
  }

  lemma FirstMember(n: Node)
    requires n.Record? && |n.members| > 1
    ensures var m := n.members[0];
            && SpellMembers(n, 0) == m.before + Quote(m.key) + m.after + ":" + SpellPadded(m.value) + ("," + SpellMembers(n, 1))
            && NodesOfMembers(n, 0) == 1 + Nodes(m.value.node) + NodesOfMembers(n, 1)
  {
    hide SpellPadded, Nodes, Quote;
  }

  /** Blanks found before the first member belong to it. */
  lemma BlanksBeforeMember(n: Node, m: Node, blanks: string)
    requires n.Record? && m.Record? && m.members != []
    requires n.members == [m.members[0].(before := blanks + m.members[0].before)] + m.members[1..]
    ensures SpellMembers(n, 0) == blanks + SpellMembers(m, 0) && NodesOfMembers(n, 0) == NodesOfMembers(m, 0)
  {
    hide SpellPadded, Nodes, Quote;
    assert n.members[1..] == m.members[1..];
    MembersAreLocal(n, m, 1, 1);
  }

  lemma BlanksJoinFirstMember(blanks: string, ps: seq<Member>, depth: nat, b: Limits) returns (qs: seq<Member>)
    requires ps != [] && Blank(blanks) && SoundMembers(ps, depth, b)
    ensures qs != [] && SoundMembers(qs, depth, b)
    ensures var n, m := Record("", qs), Record("", ps);
            && SpellMembers(n, 0) == blanks + SpellMembers(m, 0) && Fields(n, |qs|) == Fields(m, |ps|)
            && NodesOfMembers(n, 0) == NodesOfMembers(m, 0)
  {
    hide SpellPadded, Meaning, Nodes, Quote, Meant, SoundPadded, SoundPieces, SpellMembers, NodesOfMembers, Fields;
    var first := ps[0].(before := blanks + ps[0].before);
    qs := [first] + ps[1..];
    var n, m := Record("", qs), Record("", ps);
    BlanksBeforeMember(n, m, blanks);
    FieldsIgnoreBlanks(n, m, |ps|);
    forall i | 0 <= i < |qs| ensures SoundMember(qs[i], depth, b) && qs[i].key == ps[i].key { assert SoundMember(ps[i], depth, b); }
  }

  lemma {:induction false} RecordIsSpelled(s: string, depth: nat, nodes: nat, b: Limits) returns (n: Node)
    requires s != "" && s[0] == '{' && ReadValue(s, depth, nodes, b).Go?
    ensures var Go(v, rest, counted) := ReadValue(s, depth, nodes, b);
            Sound(n, depth, b) && s == Spell(n) + rest && Meaning(n) == v && counted == nodes + Nodes(n)
    decreases |s|, 1
  {
    hide ReadMembers, ReadInteger, ReadString, SkipBlanks, SpellMembers, SoundMember, NodesOfMembers, Fields, Meant;
    var inner := SkipBlanks(s[1..]);
    var blanks := BlanksOf(s[1..]);
    var rest := ReadValue(s, depth, nodes, b).rest;
    assert s == "{" + s[1..];
    if Starts(inner, '}') {
      n := Record(blanks, []);
      NoMembers(n);
      assert inner == "}" + inner[1..];
      assert s == "{" + (blanks + "}") + rest;
    } else {
      var none: map<string, Value> := map[];
      var ps := MembersAreSpelled(inner, none, depth + 1, nodes + 1, b);
      var qs := BlanksJoinFirstMember(blanks, ps, depth + 1, b);
      n := Record("", qs);
      assert s == "{" + SpellMembers(n, 0) + rest;
      assert none + Fields(n, |qs|) == Fields(n, |qs|);
    }
  }

  /** Main result, the other half: every document that is accepted is written in this way, and was read as what it stands for. */
  lemma ParsedIsSpelled(d: string, b: Limits) returns (p: Padded)
    requires ReadDocument(d, b).Some?
    ensures SoundDocument(p, b) && SpellPadded(p) == d && Meaning(p.node) == ReadDocument(d, b).value
  {
    hide ReadValue, SkipBlanks, SpellPadded, Meaning, Nodes, SoundPadded;
    p := PaddedIsSpelled(d, 0, 0, b);
    assert SpellPadded(p) + "" == SpellPadded(p);
    CountedWithin(d, b);
  }

  lemma CountedWithin(d: string, b: Limits)
    requires ReadDocument(d, b).Some?
    ensures ReadValue(SkipBlanks(d), 0, 0, b).nodes <= b.nodes
  {
    ReadValueIsWritten(SkipBlanks(d), 0, 0, b);
  }

  // ----- Surrogates that do not pair up -----

  predicate IsHighSurrogate(s: string) { |s| >= 4 && IsHex4(s[..4]) && 0xd800 <= Hex4Number(s[..4]) < 0xdc00 }

  predicate IsLowSurrogate(s: string) { |s| >= 4 && IsHex4(s[..4]) && 0xdc00 <= Hex4Number(s[..4]) < 0xe000 }

  /** The digits of an escape name a low surrogate, or a high one that no escaped low one follows. */
  predicate Unpaired(s: string) {
    IsLowSurrogate(s) || (IsHighSurrogate(s) && !(|s| >= 6 && s[4..6] == "\\u" && IsLowSurrogate(s[6..])))
  }

  lemma UnpairedIsRefused(s: string)
    requires Unpaired(s)
    ensures ReadUnit("\\u" + s).None?
  {
    hide ReadHex4, Hex4Number, Encode;
    var t := "\\u" + s;
    assert t[1..][1..] == s && s == s[..4] + s[4..];
    Hex4IsRead(s[..4], s[4..]);
    if IsHighSurrogate(s) && |s| >= 6 && s[4] == '\\' && s[5] == 'u' {
      assert s[4..6] == "\\u";
      if ReadHex4(s[6..]).Some? { HexIsSpelled(s[6..]); }
    }
  }

  lemma {:induction false} StopsAfterPieces(ps: seq<Piece>, tail: string, output: string, b: Limits)
    requires ValidPieces(ps) && ReadUnit(tail).None? && tail != "" && tail[0] != '"'
    ensures ReadBody(SpelledAll(ps) + tail, output, b).Stop?
    decreases |ps|
  {
    hide ReadUnit, Encode, Spelled;
    if ps == [] {
      assert "" + tail == tail;
    } else {
      var more := SpelledAll(ps[1..]) + tail;
      PieceIsRead(ps[0], more);
      assert SpelledAll(ps) + tail == Spelled(ps[0]) + more;
      assert (Spelled(ps[0]) + more)[|Spelled(ps[0])|..] == more;
      StopsAfterPieces(ps[1..], tail, output + Encode(ps[0].point), b);
    }
  }

  /** A string with such an escape, after whatever pieces, is refused with all that follows it. */
  lemma LoneSurrogateIsRefused(blanks: string, ps: seq<Piece>, s: string, b: Limits)
    requires Blank(blanks) && ValidPieces(ps) && Unpaired(s)
    ensures ReadDocument(blanks + "\"" + SpelledAll(ps) + "\\u" + s, b).None?
  {
    hide ReadUnit, SpelledAll, ReadInteger, SkipBlanks, Unpaired;
    UnpairedIsRefused(s);
    var tail := "\\u" + s;
    StopsAfterPieces(ps, tail, "", b);
    var d := "\"" + (SpelledAll(ps) + tail);
    assert blanks + "\"" + SpelledAll(ps) + "\\u" + s == blanks + d;
    SkipOver(blanks, d);
    assert d[1..] == SpelledAll(ps) + tail;
  }
}
