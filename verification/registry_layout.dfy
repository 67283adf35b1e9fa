/**
 The Registry.pol layout ([MS-GPREG] section 2.2.1), byte by byte and in both
 directions: what the Agent writes has it, and the importer's parser accepts
 exactly the files that have it, with the values that their bytes say.
 */
module RegistryLayout {
  import opened Wrappers
  import opened ManagementJsonText
  import opened LittleEndian
  import opened Utf16
  import opened RegistryPol

  // ----- Bytes -----

  lemma ScalarBytes(point: int)
    requires Utf8.IsScalar(point)
    ensures point < 0x10000 ==> Encode(point) == [(point % 256) as char, (point / 256) as char]
    ensures point >= 0x10000 ==>
              && var high := 0xd800 + (point - 0x10000) / 0x400; var low := 0xdc00 + (point - 0x10000) % 0x400;
              && 0xd800 <= high < 0xdc00 <= low < 0xe000
              && Encode(point) == [(high % 256) as char, (high / 256) as char, (low % 256) as char, (low / 256) as char]
  {
  }

  // ----- One record -----

  /** `[`path`;`name`;`type`;`size`;`data`]`: marks and texts in UTF-16, texts with a NUL, numbers in four bytes, low byte first. */
  function Record(path: Points, name: Points, regType: int, raw: string): string {
    "[\0" + EncodeAll(path) + "\0\0" + ";\0" + EncodeAll(name) + "\0\0" + ";\0" + Word(regType) + ";\0" + Word(|raw|) + ";\0" + raw + "]\0"
  }

  lemma MarkBytes()
    ensures Mark('[') == "[\0" && Mark(';') == ";\0" && Mark(']') == "]\0" && Unit(0) == "\0\0"
  {
  }

  lemma FramedIsRecord(path: Points, name: Points, regType: int, raw: string)
    ensures Framed(EncodeAll(path) + Unit(0), EncodeAll(name) + Unit(0), regType, raw) == Record(path, name, regType, raw)
  {
    hide EncodeAll, Word, Mark, Unit;
    MarkBytes();
    var p, n, t, z := EncodeAll(path), EncodeAll(name), Word(regType), Word(|raw|);
    Flatten(p, n, t, z, raw);
  }

  lemma Flatten(p: string, n: string, t: string, z: string, raw: string)
    ensures "[\0" + ((p + "\0\0") + (";\0" + ((n + "\0\0") + (";\0" + (t + (";\0" + (z + (";\0" + (raw + "]\0"))))))))) ==
            "[\0" + p + "\0\0" + ";\0" + n + "\0\0" + ";\0" + t + ";\0" + z + ";\0" + raw + "]\0"
  {
    var tail := t + (";\0" + (z + (";\0" + (raw + "]\0"))));
    assert tail == t + ";\0" + z + ";\0" + raw + "]\0";
    assert (n + "\0\0") + (";\0" + tail) == n + "\0\0" + ";\0" + tail;
    assert (p + "\0\0") + (";\0" + ((n + "\0\0") + (";\0" + tail))) == p + "\0\0" + ";\0" + n + "\0\0" + ";\0" + tail;
  }

  /** The data bytes of a rendered value. */
  lemma RenderedData(regType: int, v: SettingValue)
    ensures Data(regType, v).Some? <==>
              match v
              case NumberValue(_) => regType in {4, 5, 11}
              case TextValue(text) => regType in {1, 2} && TextFits(text)
              case ListValue(items) => regType == 7 && forall i | 0 <= i < |items| :: TextFits(items[i])
    ensures Data(regType, v).Some? ==>
              var raw := Data(regType, v).value;
              match v
              case NumberValue(n) =>
                && (regType == 4 ==> raw == [(n % 256) as char, (n / 256 % 256) as char, (n / 65536 % 256) as char, (n / 16777216 % 256) as char])
                && (regType == 5 ==> raw == [(n / 16777216 % 256) as char, (n / 65536 % 256) as char, (n / 256 % 256) as char, (n % 256) as char])
                && (regType == 11 ==> raw == Word(n) + Word(n / 0x1_0000_0000))
              case TextValue(text) => raw == EncodeAll(PointsOf(text)) + "\0\0"
              case ListValue(items) => raw == EncodeAll(Joined(Meanings(items))) + (if items == [] then "\0\0\0\0" else "\0\0")
  {
    hide TextFits, EncodeAll, PointsOf, Word, Joined, Meanings, ListText;
    MarkBytes();
    match v
    case NumberValue(n) => WordBytes(n);
    case TextValue(_) =>
    case ListValue(items) => if regType == 7 { ListTextIsJoined(items); }
  }

  /** What the Agent writes for one setting. */
  lemma RenderedRecord(s: Setting)
    ensures RecordText(s).Some? <==> TextFits(s.path) && TextFits(s.name) && Data(s.regType, s.value).Some?
    ensures RecordText(s).Some? ==> RecordText(s).value == Record(PointsOf(s.path), PointsOf(s.name), s.regType, Data(s.regType, s.value).value)
  {
    hide TextFits, PointsOf, Framed, Record, Data;
    if Data(s.regType, s.value).Some? { FramedIsRecord(PointsOf(s.path), PointsOf(s.name), s.regType, Data(s.regType, s.value).value); }
  }

  // ----- What data bytes mean -----

  /** The items with one NUL between neighbours. */
  function Between(items: seq<Points>): Points {
    if items == [] then [] else if |items| == 1 then items[0] else items[0] + [0] + Between(items[1..])
  }

  function Zeros(k: nat): Points { seq(k, i => 0) }

  ghost predicate Spells(regType: int, raw: string, x: Expected) {
    match x
    case Number(n) => (regType == 4 && n >= 0 && n < 0x1_0000_0000 && raw == Word(n))
                      || (regType == 5 && n >= 0 && n < 0x1_0000_0000 && raw == BigWord(n))
                      || (regType == 11 && n >= 0 && n < 0x1_0000_0000_0000_0000 && raw == Word(n) + Word(n / 0x1_0000_0000))
    case Text(text) => regType in {1, 2} && 0 !in text && (raw == EncodeAll(text) || raw == EncodeAll(text + [0]))
    case Texts(items) =>
      regType == 7 && ZeroFree(items) && (items == [] || items[|items| - 1] != []) && exists k: nat :: raw == EncodeAll(Between(items) + Zeros(k))
    case Hex(bytes) => regType !in {1, 2, 4, 5, 7, 11} && bytes == raw
  }

  lemma EncodeIsInjective(a: Points, b: Points)
    requires EncodeAll(a) == EncodeAll(b)
    ensures a == b
  {
    DecodeAfterEncode(a);
    DecodeAfterEncode(b);
  }

  lemma {:induction false} BetweenOfSplit(text: Points)
    ensures Between(Split(text)) == text
  {
    if text != [] {
      var rest := Split(text[1..]);
      BetweenOfSplit(text[1..]);
      if text[0] == 0 {
        assert ([[]] + rest)[1..] == rest;
      } else {
        BetweenFirst(text[0], rest);
      }
    }
  }

  lemma BetweenFirst(first: Utf8.ScalarValue, rest: seq<Points>)
    requires rest != []
    ensures Between([[first] + rest[0]] + rest[1..]) == [first] + Between(rest)
  {
    var items := [[first] + rest[0]] + rest[1..];
    if |rest| > 1 { assert items[1..] == rest[1..]; }
  }

  lemma {:induction false} SplitOfBetween(items: seq<Points>)
    requires items != [] && ZeroFree(items)
    ensures Split(Between(items)) == items
  {
    if |items| == 1 {
      SplitWithoutZero(items[0]);
    } else {
      SplitOfBetween(items[1..]);
      SplitItem(items[0], Between(items[1..]));
      assert items == [items[0]] + items[1..];
    }
  }

  lemma {:induction false} StripOfZeros(text: Points, k: nat)
    requires text == [] || text[|text| - 1] != 0
    ensures StripZeros(text + Zeros(k)) == text
    decreases k
  {
    if k == 0 {
      assert text + Zeros(0) == text;
    } else {
      StripOfZeros(text, k - 1);
      var all := text + Zeros(k);
      assert all[..|all| - 1] == text + Zeros(k - 1) && all[|all| - 1] == 0;
    }
  }

  lemma {:induction false} StripLeavesZeros(text: Points) returns (k: nat)
    ensures text == StripZeros(text) + Zeros(k)
  {
    k := 0;
    if text != [] && text[|text| - 1] == 0 {
      var n := StripLeavesZeros(text[..|text| - 1]);
      k := n + 1;
      assert text == text[..|text| - 1] + [0];
      assert Zeros(k) == Zeros(n) + [0];
    }
    assert text + Zeros(0) == text;
  }

  lemma {:induction false} BetweenEnds(items: seq<Points>)
    requires items != [] && ZeroFree(items) && items[|items| - 1] != []
    ensures Between(items) != [] && Between(items)[|Between(items)| - 1] != 0
  {
    if |items| > 1 { BetweenEnds(items[1..]); } else { assert items[0][|items[0]| - 1] in items[0]; }
  }

  lemma ListIsRead(text: Points, items: seq<Points>)
    ensures SplitList(text) == items <==>
              ZeroFree(items) && (items == [] || items[|items| - 1] != []) && exists k: nat :: text == Between(items) + Zeros(k)
  {
    hide StripZeros, Split, Zeros;
    var body := StripZeros(text);
    StripLeavesNoZero(text);
    var n := StripLeavesZeros(text);
    if SplitList(text) == items {
      if body == [] {
        assert text == Between(items) + Zeros(n);
      } else {
        BetweenOfSplit(body);
        SplitIsNormal(body);
        assert text == Between(items) + Zeros(n);
      }
    }
    if ZeroFree(items) && (items == [] || items[|items| - 1] != []) && exists k: nat :: text == Between(items) + Zeros(k) {
      var k: nat :| text == Between(items) + Zeros(k);
      if items != [] { BetweenEnds(items); SplitOfBetween(items); }
      StripOfZeros(Between(items), k);
    }
  }

  lemma NumberIsRead(regType: int, raw: string, n: int)
    requires AllBytes(raw) && regType in {4, 5, 11}
    ensures Interpret(regType, raw) == Some(Number(n)) <==> Spells(regType, raw, Number(n))
  {
    hide Word, BigWord, Little, Big, Decode, SplitList;
    if regType == 4 {
      if |raw| == 4 { WordOfLittle(raw); }
      if 0 <= n < 0x1_0000_0000 { WordWraps(n); }
    } else if regType == 5 {
      if |raw| == 4 { BigOfBytes(raw); }
      if 0 <= n < 0x1_0000_0000 { BigWordWraps(n); }
    } else {
      if |raw| == 8 { LongOfLittle(raw); }
      if 0 <= n < 0x1_0000_0000_0000_0000 { LongWraps(n); }
    }
  }

  lemma BigOfBytes(raw: string)
    requires AllBytes(raw) && |raw| == 4
    ensures 0 <= Big(raw) < 0x1_0000_0000 && BigWord(Big(raw)) == raw
  {
    hide Big, Byte, BigWord;
    BigOfFour(raw);
    BytesAre(raw);
    DigitsOfFour(Big(raw), raw[0] as int, raw[1] as int, raw[2] as int, raw[3] as int);
  }

  lemma DigitsOfFour(n: int, a: int, b: int, c: int, d: int)
    requires 0 <= a < 256 && 0 <= b < 256 && 0 <= c < 256 && 0 <= d < 256
    requires n == 16777216 * a + 65536 * b + 256 * c + d
    ensures 0 <= n < 0x1_0000_0000 && BigWord(n) == [a as char, b as char, c as char, d as char]
  {
    ByteDigits(n);
    LastByte(n, 65536 * a + 256 * b + c, d);
    LastByte(65536 * a + 256 * b + c, 256 * a + b, c);
    LastByte(256 * a + b, a, b);
  }

  lemma BytesAre(raw: string)
    requires AllBytes(raw)
    ensures forall i | 0 <= i < |raw| :: Byte(raw[i]) == raw[i] as int
  {
  }

  lemma LastByte(n: int, front: int, last: int)
    requires n == 256 * front + last && 0 <= last < 256
    ensures n / 256 == front && n % 256 == last
  {
  }

  lemma LongOfLittle(raw: string)
    requires AllBytes(raw) && |raw| == 8
    ensures var n := Little(raw); 0 <= n < 0x1_0000_0000_0000_0000 && Word(n) + Word(n / 0x1_0000_0000) == raw
  {
    hide Word, Little;
    LittleOfEight(raw);
    WordOfLittle(raw[..4]);
    WordOfLittle(raw[4..]);
    var n, low, high := Little(raw), Little(raw[..4]), Little(raw[4..]);
    assert n / 0x1_0000_0000 == high;
    SameWord(n, low, high);
    assert raw == raw[..4] + raw[4..];
  }

  lemma SameWord(n: nat, low: nat, high: nat)
    requires n == low + 0x1_0000_0000 * high && low < 0x1_0000_0000
    ensures Word(n) == Word(low)
  {
    hide Unit;
    assert n % 65536 == low % 65536;
    assert n / 65536 == low / 65536 + 65536 * high;
    assert n / 65536 % 65536 == low / 65536 % 65536;
  }

  /** Bytes are an encoding exactly when they decode to what was encoded. */
  lemma DecodesTo(raw: string, text: Points)
    requires AllBytes(raw)
    ensures raw == EncodeAll(text) <==> Decode(raw) == Some(text)
  {
    hide EncodeAll, Decode;
    DecodeAfterEncode(text);
    if Decode(raw).Some? { EncodeAfterDecode(raw); }
  }

  /** The text without the one NUL at its end. */
  function Trimmed(all: Points): Points { if all != [] && all[|all| - 1] == 0 then all[..|all| - 1] else all }

  lemma TrimmedIs(all: Points, text: Points)
    requires 0 !in text
    ensures Trimmed(all) == text <==> all == text || all == text + [0]
  {
    if all != [] && all[|all| - 1] == 0 { assert all == all[..|all| - 1] + [0]; }
    assert (text + [0])[..|text|] == text;
    if text != [] { assert text[|text| - 1] in text; }
  }

  lemma TextIsRead(regType: int, raw: string, text: Points)
    requires AllBytes(raw) && regType in {1, 2}
    ensures Interpret(regType, raw) == Some(Text(text)) <==> Spells(regType, raw, Text(text))
  {
    hide EncodeAll, SplitList, Decode, Trimmed;
    TextMeans(regType, raw, text);
    if 0 !in text {
      DecodesTo(raw, text);
      DecodesTo(raw, text + [0]);
      if Decode(raw).Some? { TrimmedIs(Decode(raw).value, text); }
    }
  }

  lemma TextMeans(regType: int, raw: string, text: Points)
    requires regType in {1, 2}
    ensures Interpret(regType, raw) == Some(Text(text)) <==> Decode(raw).Some? && Trimmed(Decode(raw).value) == text && 0 !in text
  {
    hide SplitList, Decode;
  }

  lemma TextsAreRead(raw: string, items: seq<Points>)
    requires AllBytes(raw)
    ensures Interpret(7, raw) == Some(Texts(items)) <==> Spells(7, raw, Texts(items))
  {
    hide EncodeAll, SplitList, Decode, Between, Zeros;
    if Decode(raw).Some? {
      EncodeAfterDecode(raw);
      ListIsRead(Decode(raw).value, items);
    }
    if k: nat :| raw == EncodeAll(Between(items) + Zeros(k)) {
      DecodeAfterEncode(Between(items) + Zeros(k));
      if Spells(7, raw, Texts(items)) { ListIsRead(Between(items) + Zeros(k), items); }
    }
  }

  /** Data bytes are accepted as exactly the values they spell. */
  lemma InterpretIsSpelled(regType: int, raw: string, x: Expected)
    requires AllBytes(raw)
    ensures Interpret(regType, raw) == Some(x) <==> Spells(regType, raw, x)
  {
    hide EncodeAll, SplitList, Decode, Little, Big, Word, BigWord, Between, Zeros;
    match x
    case Number(n) => if regType in {4, 5, 11} { NumberIsRead(regType, raw, n); }
    case Text(text) => if regType in {1, 2} { TextIsRead(regType, raw, text); }
    case Texts(items) => if regType == 7 { TextsAreRead(raw, items); }
    case Hex(_) =>
  }

  // ----- Whole files -----

  /** The parsed record is what a record at this offset with these data bytes says. */
  ghost predicate Says(r: Parsed, raw: string, at: int, maximum: nat) {
    && 0 !in r.path && 0 !in r.name && 0 <= r.regType < 0x1_0000_0000 && |raw| <= maximum
    && Spells(r.regType, raw, r.expected) && r.typeName == TypeName(r.regType) && r.byteOffset == at && r.dataSize == |raw|
  }

  function RecordOf(r: Parsed, raw: string): string { Record(r.path, r.name, r.regType, raw) }

  /** The bytes are records one after another, with the given meanings. */
  ghost predicate LaidOut(rs: seq<Parsed>, raws: seq<string>, at: int, maximum: nat, s: string)
    decreases |rs|
  {
    if rs == [] then raws == [] && s == ""
    else
      && raws != [] && Says(rs[0], raws[0], at, maximum)
      && var first := RecordOf(rs[0], raws[0]);
         first <= s && LaidOut(rs[1..], raws[1..], at + |first|, maximum, s[|first|..])
  }

  lemma RecordIsLaidOut(start: int, s: string, maximum: nat) returns (raw: string)
    requires AllBytes(s) && ReadRecord(start, s, maximum).Some?
    ensures var step := ReadRecord(start, s, maximum).value;
            Says(step.record, raw, start, maximum) && s == RecordOf(step.record, raw) + step.rest && AllBytes(step.rest)
  {
    hide Interpret, ReadTerminated, Little, TypeName, Word, EncodeAll, Spells, Mark, Unit;
    MarkBytes();
    var path := ReadTerminated(s[2..]).value;
    TerminatedIsEncoded(s[2..]);
    var t := path.rest[2..];
    var name := ReadTerminated(t).value;
    TerminatedIsEncoded(t);
    var c := name.rest[2..];
    WordOfLittle(c[..4]);
    var d := c[6..];
    WordOfLittle(d[..4]);
    var e := d[6..];
    var length := Little(d[..4]);
    raw := e[..length];
    var r := ReadRecord(start, s, maximum).value.record;
    InterpretIsSpelled(Little(c[..4]), raw, r.expected);
    PutTogether(s, path.text, name.text, path.rest, name.rest, Little(c[..4]), raw);
  }

  lemma PutTogether(s: string, path: Points, name: Points, afterPath: string, afterName: string, regType: nat, raw: string)
    requires |s| >= 2 && s[..2] == "[\0" && s[2..] == EncodeAll(path) + "\0\0" + afterPath
    requires |afterPath| >= 2 && afterPath[..2] == ";\0" && afterPath[2..] == EncodeAll(name) + "\0\0" + afterName
    requires |afterName| >= 16 + |raw| && afterName[..2] == ";\0" && afterName[2..6] == Word(regType) && afterName[6..8] == ";\0"
    requires afterName[8..12] == Word(|raw|) && afterName[12..14] == ";\0" && afterName[14..14 + |raw|] == raw
    requires afterName[14 + |raw|..16 + |raw|] == "]\0"
    ensures s == Record(path, name, regType, raw) + afterName[16 + |raw|..]
  {
    hide EncodeAll, Word;
    var rest := afterName[16 + |raw|..];
    EndTogether(afterName, Word(regType), Word(|raw|), raw);
    var tail := ";\0" + Word(regType) + ";\0" + Word(|raw|) + ";\0" + raw + "]\0";
    StartTogether(s, EncodeAll(path), EncodeAll(name), afterPath, tail, rest);
    Regroup(EncodeAll(path), EncodeAll(name), Word(regType), Word(|raw|), raw);
  }

  lemma EndTogether(s: string, t: string, z: string, raw: string)
    requires |t| == 4 && |z| == 4 && |s| >= 16 + |raw| && s[..2] == ";\0" && s[2..6] == t && s[6..8] == ";\0" && s[8..12] == z
    requires s[12..14] == ";\0" && s[14..14 + |raw|] == raw && s[14 + |raw|..16 + |raw|] == "]\0"
    ensures s == (";\0" + t + ";\0" + z + ";\0" + raw + "]\0") + s[16 + |raw|..]
  {
    assert s[..8] == s[..2] + s[2..6] + s[6..8];
    assert s[8..14] == s[8..12] + s[12..14];
    assert s[14..] == s[14..14 + |raw|] + s[14 + |raw|..16 + |raw|] + s[16 + |raw|..];
    assert s == s[..8] + s[8..14] + s[14..];
  }

  lemma StartTogether(s: string, p: string, n: string, afterPath: string, tail: string, rest: string)
    requires |s| >= 2 && s[..2] == "[\0" && s[2..] == p + "\0\0" + afterPath
    requires |afterPath| >= 2 && afterPath[..2] == ";\0" && afterPath[2..] == n + "\0\0" + (tail + rest)
    ensures s == ("[\0" + p + "\0\0" + ";\0" + n + "\0\0" + tail) + rest
  {
    assert afterPath == afterPath[..2] + afterPath[2..];
    assert s == s[..2] + s[2..];
  }

  lemma Regroup(p: string, n: string, t: string, z: string, raw: string)
    ensures "[\0" + p + "\0\0" + ";\0" + n + "\0\0" + (";\0" + t + ";\0" + z + ";\0" + raw + "]\0") ==
            "[\0" + p + "\0\0" + ";\0" + n + "\0\0" + ";\0" + t + ";\0" + z + ";\0" + raw + "]\0"
  {
  }

  lemma LaidOutIsRead(r: Parsed, raw: string, at: int, maximum: nat, rest: string)
    requires Says(r, raw, at, maximum) && maximum < 0x1_0000_0000 && AllBytes(raw)
    ensures ReadRecord(at, RecordOf(r, raw) + rest, maximum) == Some(Step(r, rest))
  {
    hide Interpret, TypeName, Spells, Framed, Record, ReadRecord, EncodeAll, Unit;
    FramedIsRecord(r.path, r.name, r.regType, raw);
    InterpretIsSpelled(r.regType, raw, r.expected);
    FramedIsRead(at, r.path, r.name, r.regType, raw, rest, maximum);
  }

  lemma {:induction false} RecordsAreLaidOut(size: int, s: string, maximum: nat) returns (raws: seq<string>)
    requires AllBytes(s) && ReadRecords(size, s, maximum).Some?
    ensures LaidOut(ReadRecords(size, s, maximum).value, raws, size - |s|, maximum, s)
    decreases |s|
  {
    hide ReadRecord, Says, RecordOf;
    if s == "" {
      raws := [];
    } else {
      var at := size - |s|;
      var step := ReadRecord(at, s, maximum).value;
      var raw := RecordIsLaidOut(at, s, maximum);
      var more := RecordsAreLaidOut(size, step.rest, maximum);
      raws := [raw] + more;
      var rs := ReadRecords(size, s, maximum).value;
      var first := RecordOf(step.record, raw);
      assert rs[1..] == ReadRecords(size, step.rest, maximum).value && raws[1..] == more;
      assert s[|first|..] == step.rest && first <= s;
    }
  }

  lemma {:induction false} LaidOutAreRead(size: int, rs: seq<Parsed>, raws: seq<string>, s: string, maximum: nat)
    requires AllBytes(s) && maximum < 0x1_0000_0000 && LaidOut(rs, raws, size - |s|, maximum, s)
    ensures ReadRecords(size, s, maximum) == Some(rs)
    decreases |rs|
  {
    hide ReadRecord, Says, RecordOf;
    if rs != [] {
      var first := RecordOf(rs[0], raws[0]);
      var rest := s[|first|..];
      assert s == first + rest;
      RawIsBytes(rs[0], raws[0], rest);
      LaidOutIsRead(rs[0], raws[0], size - |s|, maximum, rest);
      LaidOutAreRead(size, rs[1..], raws[1..], rest, maximum);
      assert rs == [rs[0]] + rs[1..];
    }
  }

  lemma RawIsBytes(r: Parsed, raw: string, rest: string)
    requires AllBytes(RecordOf(r, raw) + rest)
    ensures AllBytes(raw) && RecordOf(r, raw) != ""
  {
    hide EncodeAll, Word;
    var s := RecordOf(r, raw) + rest;
    var at := |s| - |rest| - 2 - |raw|;
    assert s[at..at + |raw|] == raw;
    forall i | 0 <= i < |raw| ensures raw[i] as int < 256 { assert raw[i] == s[at + i]; }
  }

  /** Main result: the parser accepts exactly the files with the header and the record layout, with what their records say. */
  lemma AcceptedIsLaidOut(data: string, maximum: nat, rs: seq<Parsed>)
    requires AllBytes(data) && maximum < 0x1_0000_0000
    ensures ReadFile(data, maximum) == Some(rs) <==>
              |data| >= 8 && data[..8] == ['P', 'R', 'e', 'g', 1 as char, 0 as char, 0 as char, 0 as char]
              && exists raws :: LaidOut(rs, raws, 8, maximum, data[8..])
  {
    hide ReadRecords, LaidOut, Little, Word;
    if |data| >= 8 {
      HeaderBytes(data);
      if ReadFile(data, maximum) == Some(rs) { var raws := RecordsAreLaidOut(|data|, data[8..], maximum); }
      if raws :| LaidOut(rs, raws, 8, maximum, data[8..]) { LaidOutAreRead(|data|, rs, raws, data[8..], maximum); }
    }
  }

  lemma HeaderBytes(data: string)
    requires AllBytes(data) && |data| >= 8
    ensures data[..4] == "PReg" && Little(data[4..8]) == 1 <==>
              data[..8] == ['P', 'R', 'e', 'g', 1 as char, 0 as char, 0 as char, 0 as char]
  {
    hide Little, Word;
    LittleOfFour(data[4..8]);
    if data[..8] == ['P', 'R', 'e', 'g', 1 as char, 0 as char, 0 as char, 0 as char] {
      assert data[..4] == data[..8][..4] && data[4..8] == data[..8][4..];
      assert data[..8][..4] == ['P', 'R', 'e', 'g'];
    }
    if data[..4] == "PReg" && Little(data[4..8]) == 1 {
      assert data[..8] == data[..4] + data[4..8];
      assert data[4..8] == [1 as char, 0 as char, 0 as char, 0 as char];
    }
  }

  /** The header the Agent writes. */
  lemma RenderedHeader()
    ensures HEADER == ['P', 'R', 'e', 'g', 1 as char, 0 as char, 0 as char, 0 as char]
  {
    hide Word;
    WordBytes(1);
  }
}
