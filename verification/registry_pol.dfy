/**
 Registry.pol ([MS-GPREG] section 2.2.1): the records the Agent renders for an
 override, the strict parser of the baseline importer, and when the one undoes
 the other.
 */
module RegistryPol {
  import opened Wrappers
  import Utf8
  import opened ManagementJsonText
  import ManagementJson
  import opened LittleEndian
  import opened Utf16

  // ----- Settings and what the Agent writes for them -----

  datatype SettingValue = NumberValue(n: int64) | TextValue(text: string) | ListValue(items: seq<string>)

  datatype Setting = Setting(path: string, name: string, regType: int, value: SettingValue)

  /** The UTF-8 text goes through the canonical serializer before it is encoded, which bounds and validates it. */
  predicate TextFits(text: string) { Serializable(Str(text), MAXIMUM) }

  function PointsOf(text: string): Points
    decreases |text|
  {
    if text == "" || Utf8.Read(text).None? then []
    else
      Utf8.ReadIsEncode(text);
      [Utf8.Read(text).value.point] + PointsOf(text[Utf8.Read(text).value.width..])
  }

  /** The low 32 bits, high byte first. */
  function BigWord(n: int): string {
    [(n / 16777216 % 256) as char, (n / 65536 % 256) as char, (n / 256 % 256) as char, (n % 256) as char]
  }

  function Terminated(text: string): string { EncodeAll(PointsOf(text)) + Unit(0) }

  function ListText(items: seq<string>): string {
    if items == [] then "" else ListText(items[..|items| - 1]) + Terminated(items[|items| - 1])
  }

  function Data(regType: int, v: SettingValue): Option<string> {
    match v
    case NumberValue(n) =>
      if regType == 5 then Some(BigWord(n)) else if regType == 4 then Some(Word(n))
      else if regType == 11 then Some(Word(n) + Word(n / 0x1_0000_0000)) else None
    case TextValue(text) => if (regType == 1 || regType == 2) && TextFits(text) then Some(Terminated(text)) else None
    case ListValue(items) =>
      if regType == 7 && forall i | 0 <= i < |items| :: TextFits(items[i])
      then Some(ListText(items) + (if items == [] then Unit(0) else "") + Unit(0)) else None
  }

  function Mark(c: char): string { Unit(c as int % 65536) }

  function Framed(path: string, name: string, regType: int, data: string): string {
    Mark('[') + (path + (Mark(';') + (name + (Mark(';') + (Word(regType) + (Mark(';')
    + (Word(|data|) + (Mark(';') + (data + Mark(']'))))))))))
  }

  function RecordText(s: Setting): Option<string> {
    if !TextFits(s.path) || !TextFits(s.name) || Data(s.regType, s.value).None? then None
    else Some(Framed(Terminated(s.path), Terminated(s.name), s.regType, Data(s.regType, s.value).value))
  }

  function RecordsText(settings: seq<Setting>): Option<string> {
    if settings == [] then Some("")
    else
      match (RecordsText(settings[..|settings| - 1]), RecordText(settings[|settings| - 1]))
      case (Some(front), Some(last)) => Some(front + last)
      case _ => None
  }

  const HEADER := "PReg" + Word(1)

  // ----- The importer's parser -----

  datatype Expected = Number(n: int) | Text(text: Points) | Texts(items: seq<Points>) | Hex(raw: string)

  /** `byteOffset` is where the record starts in the file. */
  datatype Parsed = Parsed(path: Points, name: Points, regType: int, typeName: string, expected: Expected, byteOffset: int, dataSize: nat)

  function TypeName(regType: nat): string {
    match regType
    case 0 => "REG_NONE"
    case 1 => "REG_SZ"
    case 2 => "REG_EXPAND_SZ"
    case 3 => "REG_BINARY"
    case 4 => "REG_DWORD"
    case 5 => "REG_DWORD_BIG_ENDIAN"
    case 7 => "REG_MULTI_SZ"
    case 11 => "REG_QWORD"
    case _ => NatText(regType)
  }

  function Big(s: string): nat
  {
    if s == "" then 0 else 256 * Big(s[..|s| - 1]) + Byte(s[|s| - 1])
  }

  function StripZeros(text: Points): Points {
    if text != [] && text[|text| - 1] == 0 then StripZeros(text[..|text| - 1]) else text
  }

  function Split(text: Points): (r: seq<Points>)
    ensures |r| > 0
  {
    if text == [] then [[]]
    else
      var rest := Split(text[1..]);
      if text[0] == 0 then [[]] + rest else [[text[0]] + rest[0]] + rest[1..]
  }

  function SplitList(text: Points): seq<Points> {
    if StripZeros(text) == [] then [] else Split(StripZeros(text))
  }

  function Interpret(regType: int, raw: string): Option<Expected> {
    if regType == 4 || regType == 5 || regType == 11 then
      if |raw| != (if regType == 11 then 8 else 4) then None
      else Some(Number(if regType == 5 then Big(raw) else Little(raw)))
    else if regType == 1 || regType == 2 || regType == 7 then
      match Decode(raw)
      case None => None
      case Some(text) =>
        if regType == 7 then Some(Texts(SplitList(text)))
        else
          var value := if text != [] && text[|text| - 1] == 0 then text[..|text| - 1] else text;
          if 0 in value then None else Some(Text(value))
    else Some(Hex(raw))
  }

  predicate StartsWith(s: string, mark: string) { mark <= s }

  datatype Step = Step(record: Parsed, rest: string)

  function ReadValue(start: int, path: Points, name: Points, regType: nat, length: nat, s: string, maximum: nat): (r: Option<Step>)
    ensures r.Some? ==> |r.value.rest| <= |s|
  {
    if length > maximum || length > |s| || !StartsWith(s[length..], Mark(']')) then None
    else
      match Interpret(regType, s[..length])
      case None => None
      case Some(expected) => Some(Step(Parsed(path, name, regType, TypeName(regType), expected, start, length), s[length + 2..]))
  }

  function ReadLength(start: int, path: Points, name: Points, regType: nat, s: string, maximum: nat): (r: Option<Step>)
    ensures r.Some? ==> |r.value.rest| <= |s|
  {
    if |s| < 4 || !StartsWith(s[4..], Mark(';')) then None else ReadValue(start, path, name, regType, Little(s[..4]), s[6..], maximum)
  }

  function ReadType(start: int, path: Points, name: Points, s: string, maximum: nat): (r: Option<Step>)
    ensures r.Some? ==> |r.value.rest| <= |s|
  {
    if |s| < 4 || !StartsWith(s[4..], Mark(';')) then None else ReadLength(start, path, name, Little(s[..4]), s[6..], maximum)
  }

  function ReadName(start: int, path: Points, s: string, maximum: nat): (r: Option<Step>)
    ensures r.Some? ==> |r.value.rest| <= |s|
  {
    match ReadTerminated(s)
    case None => None
    case Some(name) => if !StartsWith(name.rest, Mark(';')) then None else ReadType(start, path, name.text, name.rest[2..], maximum)
  }

  function ReadRecord(start: int, s: string, maximum: nat): (r: Option<Step>)
    ensures r.Some? ==> |r.value.rest| < |s|
  {
    if !StartsWith(s, Mark('[')) then None
    else
      match ReadTerminated(s[2..])
      case None => None
      case Some(path) => if !StartsWith(path.rest, Mark(';')) then None else ReadName(start, path.text, path.rest[2..], maximum)
  }

  /** The records up to the end of a file of `size` bytes, of which `s` is left. */
  function ReadRecords(size: int, s: string, maximum: nat): Option<seq<Parsed>>
    decreases |s|
  {
    if s == "" then Some([])
    else
      match ReadRecord(size - |s|, s, maximum)
      case None => None
      case Some(step) =>
        match ReadRecords(size, step.rest, maximum)
        case None => None
        case Some(more) => Some([step.record] + more)
  }

  function ReadFile(data: string, maximum: nat): Option<seq<Parsed>> {
    if |data| < 8 || data[..4] != "PReg" || Little(data[4..8]) != 1 then None else ReadRecords(|data|, data[8..], maximum)
  }

  // ----- One record is read back -----

  lemma BigOfFour(s: string)
    requires |s| == 4
    ensures Big(s) == 16777216 * Byte(s[0]) + 65536 * Byte(s[1]) + 256 * Byte(s[2]) + Byte(s[3])
  {
    assert s[..3][..2] == s[..2] && s[..2][..1] == s[..1] && s[..1][..0] == "";
    assert Big(s[..1]) == Byte(s[0]);
    assert Big(s[..2]) == 256 * Big(s[..1]) + Byte(s[1]);
    assert Big(s[..3]) == 256 * Big(s[..2]) + Byte(s[2]);
  }

  lemma BigWordOfBytes(a: nat, b: nat, c: nat, d: nat)
    requires a < 256 && b < 256 && c < 256 && d < 256
    ensures Big([a as char, b as char, c as char, d as char]) == 16777216 * a + 65536 * b + 256 * c + d
  {
    BigOfFour([a as char, b as char, c as char, d as char]);
  }

  lemma BigWordWraps(n: int)
    ensures |BigWord(n)| == 4 && Big(BigWord(n)) == n % 0x1_0000_0000
  {
    ByteDigits(n);
    var d, x := n % 256, n / 256;
    var c, y := x % 256, x / 256;
    var b, z := y % 256, y / 256;
    var a, q := z % 256, z / 256;
    BigWordOfBytes(a, b, c, d);
    Wraps(n, q, 16777216 * a + 65536 * b + 256 * c + d);
  }

  // ----- String lists -----

  function Meanings(items: seq<string>): seq<Points> {
    seq(|items|, i requires 0 <= i < |items| => PointsOf(items[i]))
  }

  /** Each item with its terminator. */
  function Joined(items: seq<Points>): Points {
    if items == [] then [] else Joined(items[..|items| - 1]) + items[|items| - 1] + [0]
  }

  function DropEmpty(items: seq<Points>): seq<Points> {
    if items != [] && items[|items| - 1] == [] then DropEmpty(items[..|items| - 1]) else items
  }

  predicate ZeroFree(items: seq<Points>) { forall i | 0 <= i < |items| :: 0 !in items[i] }

  lemma {:induction false} ListTextIsJoined(items: seq<string>)
    ensures ListText(items) == EncodeAll(Joined(Meanings(items)))
  {
    if items != [] {
      var n := |items| - 1;
      ListTextIsJoined(items[..n]);
      var front, last := Joined(Meanings(items[..n])), PointsOf(items[n]);
      assert Meanings(items)[..n] == Meanings(items[..n]);
      EncodeConcat(front, last);
      EncodeConcat(front + last, [0]);
      ZeroIsEncoded();
      assert ListText(items) == EncodeAll(front) + (EncodeAll(last) + Unit(0));
    }
  }

  lemma {:induction false} SplitItem(item: Points, rest: Points)
    requires 0 !in item
    ensures Split(item + [0] + rest) == [item] + Split(rest)
  {
    if item == [] {
      assert item + [0] + rest == [0] + rest && ([0] + rest)[1..] == rest;
    } else {
      SplitItem(item[1..], rest);
      var all := item + [0] + rest;
      assert all[0] == item[0] && all[1..] == item[1..] + [0] + rest;
      assert [item[0]] + item[1..] == item;
    }
  }

  lemma {:induction false} SplitWithoutZero(item: Points)
    requires 0 !in item
    ensures Split(item) == [item]
  {
    if item != [] {
      SplitWithoutZero(item[1..]);
      assert [item[0]] + item[1..] == item;
    }
  }

  lemma {:induction false} SplitJoined(items: seq<Points>, last: Points)
    requires ZeroFree(items) && 0 !in last
    ensures Split(Joined(items) + last) == items + [last]
    decreases |items|
  {
    hide Split;
    SplitWithoutZero(last);
    if items == [] {
      assert Joined(items) + last == last;
    } else {
      SplitJoined(items[1..], last);
      SplitJoinedFirst(items, last);
      assert items + [last] == [items[0]] + (items[1..] + [last]);
    }
  }

  lemma SplitJoinedFirst(items: seq<Points>, last: Points)
    requires items != [] && 0 !in items[0]
    ensures Split(Joined(items) + last) == [items[0]] + Split(Joined(items[1..]) + last)
  {
    hide Split, Joined;
    JoinedFirst(items);
    var rest := Joined(items[1..]);
    assert items[0] + [0] + rest + last == items[0] + [0] + (rest + last);
    SplitItem(items[0], rest + last);
  }

  lemma JoinedLast(items: seq<Points>, last: Points)
    ensures Joined(items + [last]) == Joined(items) + (last + [0])
  {
    assert (items + [last])[..|items|] == items;
  }

  lemma JoinedOne(item: Points)
    ensures Joined([item]) == item + [0] + Joined([])
  {
    assert [item][..0] == [];
  }

  lemma {:induction false} JoinedFirst(items: seq<Points>)
    requires items != []
    ensures Joined(items) == items[0] + [0] + Joined(items[1..])
    decreases |items|
  {
    hide Joined;
    var n := |items| - 1;
    if n == 0 {
      JoinedOne(items[0]);
      assert items == [items[0]] && items[1..] == [];
    } else {
      JoinedFirst(items[..n]);
      assert items[..n][1..] == items[1..n] && items[..n][0] == items[0];
      assert items == [items[0]] + items[1..n] + [items[n]] && items[..n] == [items[0]] + items[1..n];
      JoinedMiddle(items[0], items[1..n], items[n]);
      assert items[1..] == items[1..n] + [items[n]];
    }
  }

  lemma JoinedMiddle(first: Points, middle: seq<Points>, last: Points)
    requires Joined([first] + middle) == first + [0] + Joined(middle)
    ensures Joined([first] + middle + [last]) == first + [0] + Joined(middle + [last])
  {
    hide Joined;
    JoinedLast([first] + middle, last);
    JoinedLast(middle, last);
    Regroup(first + [0], Joined(middle), last + [0]);
  }

  lemma StripOne(text: Points)
    ensures StripZeros(text + [0]) == StripZeros(text)
  {
    assert (text + [0])[..|text|] == text;
  }

  /** Splitting a rendered list gives its items back, except for empty items at its end. */
  lemma {:induction false} SplitListOfJoined(items: seq<Points>)
    requires ZeroFree(items)
    ensures SplitList(Joined(items)) == DropEmpty(items)
  {
    if items != [] {
      var n := |items| - 1;
      var front, last := Joined(items[..n]), items[n];
      StripOne(front + last);
      if last == [] {
        assert front + last == front;
        SplitListOfJoined(items[..n]);
      } else {
        assert (front + last)[|front + last| - 1] == last[|last| - 1];
        SplitJoined(items[..n], last);
        assert items == items[..n] + [last];
      }
    }
  }

  lemma {:induction false} DropEmptyKeeps(items: seq<Points>)
    ensures DropEmpty(items) == items <==> (items == [] || items[|items| - 1] != [])
  {
    if items != [] && items[|items| - 1] == [] {
      DropsNone(items[..|items| - 1]);
    }
  }

  lemma {:induction false} DropsNone(items: seq<Points>)
    ensures |DropEmpty(items)| <= |items|
  {
    if items != [] { DropsNone(items[..|items| - 1]); }
  }

  // ----- What the parser makes of a rendered value -----

  function Meaning(v: SettingValue): Expected {
    match v
    case NumberValue(n) => Number(n)
    case TextValue(text) => Text(PointsOf(text))
    case ListValue(items) => Texts(Meanings(items))
  }

  /** The values whose rendering says what they are. */
  predicate FaithfulValue(regType: int, v: SettingValue) {
    match v
    case NumberValue(n) => 0 <= n && (regType != 11 ==> n < 0x1_0000_0000)
    case TextValue(text) => 0 !in PointsOf(text)
    case ListValue(items) => ZeroFree(Meanings(items)) && (items == [] || items[|items| - 1] != "")
  }

  predicate Faithful(s: Setting) {
    0 !in PointsOf(s.path) && 0 !in PointsOf(s.name) && FaithfulValue(s.regType, s.value)
  }

  lemma InterpretNumber(regType: int, n: int64)
    requires Data(regType, NumberValue(n)).Some?
    ensures 0 <= n && (regType != 11 ==> n < 0x1_0000_0000) ==>
              Interpret(regType, Data(regType, NumberValue(n)).value) == Some(Number(n))
  {
    hide Word, BigWord, Little, Big, Decode, SplitList;
    if regType == 5 { BigWordWraps(n); }
    else if regType == 4 { WordWraps(n); }
    else { LongWraps(n); }
  }

  lemma InterpretText(regType: int, text: string)
    requires (regType == 1 || regType == 2) && 0 !in PointsOf(text)
    ensures Interpret(regType, Terminated(text)) == Some(Text(PointsOf(text)))
  {
    hide Decode, EncodeAll, PointsOf, SplitList;
    var points := PointsOf(text);
    EncodeConcat(points, [0]);
    ZeroIsEncoded();
    DecodeAfterEncode(points + [0]);
    assert (points + [0])[..|points|] == points;
  }

  lemma InterpretList(items: seq<string>)
    requires ZeroFree(Meanings(items))
    ensures var data := ListText(items) + (if items == [] then Unit(0) else "") + Unit(0);
            Interpret(7, data) == Some(Texts(DropEmpty(Meanings(items))))
  {
    hide Decode, EncodeAll, PointsOf, SplitList, Unit;
    var data := ListText(items) + (if items == [] then Unit(0) else "") + Unit(0);
    var joined := Joined(Meanings(items));
    ListTextIsJoined(items);
    ZeroIsEncoded();
    var text := if items == [] then joined + [0] + [0] else joined + [0];
    EncodeConcat(joined, [0]);
    EncodeConcat(joined + [0], [0]);
    assert data == EncodeAll(text);
    DecodeAfterEncode(text);
    SplitIgnoresZero(joined);
    SplitIgnoresZero(joined + [0]);
    SplitListOfJoined(Meanings(items));
  }

  lemma SplitIgnoresZero(text: Points)
    ensures SplitList(text + [0]) == SplitList(text)
  {
    StripOne(text);
  }

  lemma EmptyText(text: string)
    requires TextFits(text)
    ensures PointsOf(text) == [] <==> text == ""
  {
    assert Utf8.WellFormed(text);
    hide Serializable;
  }

  /** A faithful value is read back as itself. */
  lemma InterpretValue(regType: int, v: SettingValue)
    requires Data(regType, v).Some? && FaithfulValue(regType, v)
    ensures Interpret(regType, Data(regType, v).value) == Some(Meaning(v))
  {
    hide Interpret, Word, BigWord, PointsOf, TextFits, Unit;
    match v
    case NumberValue(n) => InterpretNumber(regType, n);
    case TextValue(text) => InterpretText(regType, text);
    case ListValue(items) =>
      InterpretList(items);
      DropEmptyKeeps(Meanings(items));
      if items != [] { EmptyText(items[|items| - 1]); }
  }

  /** An empty last item does not survive: a list of one empty string comes back as the empty list. */
  lemma EmptyLastItemIsLost()
    ensures Data(7, ListValue([""])).Some? && Interpret(7, Data(7, ListValue([""])).value) == Some(Texts([]))
  {
    hide Interpret, ListText;
    assert PointsOf("") == [] && Meanings([""]) == [[]];
    var items: seq<Points> := [[]];
    assert items[..0] == [] && DropEmpty(items) == [];
    EmptyFits();
    InterpretList([""]);
    assert ListText([""]) + "" == ListText([""]);
  }

  lemma EmptyFits()
    ensures TextFits("")
  {
    assert Fits(Str(""), 0, MAXIMUM) && Count(Str("")) == 1 && ManagementJsonText.Text(Str("")) == "\"\"";
  }

  /** A negative number comes back as its unsigned reading. */
  lemma NegativeNumberIsUnsigned()
    ensures Interpret(4, Data(4, NumberValue(-1)).value) == Some(Number(0xffff_ffff))
  {
    hide Word, Little;
    WordWraps(-1);
  }

  // ----- Whole records -----

  lemma MarkIsSeen(c: char, rest: string)
    ensures StartsWith(Mark(c) + rest, Mark(c)) && |Mark(c)| == 2 && (Mark(c) + rest)[2..] == rest
  {
  }

  lemma FieldIsSkipped(field: string, c: char, rest: string)
    ensures var s := field + (Mark(c) + rest);
            s[..|field|] == field && StartsWith(s[|field|..], Mark(c)) && s[|field| + 2..] == rest
  {
    MarkIsSeen(c, rest);
    assert (field + (Mark(c) + rest))[|field|..] == Mark(c) + rest;
  }

  /** What reading a framed record comes to. */
  function Reading(start: int, path: Points, name: Points, regType: nat, data: string, rest: string): Option<Step> {
    match Interpret(regType, data)
    case None => None
    case Some(x) => Some(Step(Parsed(path, name, regType, TypeName(regType), x, start, |data|), rest))
  }

  lemma ValueIsRead(start: int, path: Points, name: Points, regType: nat, data: string, rest: string, maximum: nat)
    requires |data| <= maximum
    ensures ReadValue(start, path, name, regType, |data|, data + (Mark(']') + rest), maximum) == Reading(start, path, name, regType, data, rest)
  {
    hide Interpret, Mark, TypeName;
    FieldIsSkipped(data, ']', rest);
  }

  lemma WordIsSkipped(n: int, rest: string)
    requires 0 <= n < 0x1_0000_0000
    ensures var s := Word(n) + (Mark(';') + rest);
            |s| >= 4 && Little(s[..4]) == n && StartsWith(s[4..], Mark(';')) && s[6..] == rest
  {
    hide Mark, Word, Little;
    WordWraps(n);
    FieldIsSkipped(Word(n), ';', rest);
  }

  lemma TerminatedIsSkipped(points: Points, rest: string)
    requires 0 !in points
    ensures var s := (EncodeAll(points) + Unit(0)) + (Mark(';') + rest);
            ReadTerminated(s) == Some(Utf16.Terminated(points, Mark(';') + rest))
  {
    hide Mark, ReadTerminated;
    TerminatedIsRead(points, Mark(';') + rest);
  }

  /** A framed record is read back whatever follows it. */
  lemma FramedIsRead(start: int, path: Points, name: Points, regType: nat, data: string, rest: string, maximum: nat)
    requires 0 !in path && 0 !in name && regType < 0x1_0000_0000 && |data| <= maximum < 0x1_0000_0000
    ensures ReadRecord(start, Framed(EncodeAll(path) + Unit(0), EncodeAll(name) + Unit(0), regType, data) + rest, maximum) ==
            Reading(start, path, name, regType, data, rest)
  {
    hide Reading, Interpret, Mark, Word, Little, ReadTerminated, ReadValue, EncodeAll, Unit, StartsWith;
    var p, n := EncodeAll(path) + Unit(0), EncodeAll(name) + Unit(0);
    var e := data + (Mark(']') + rest);
    var d := Word(|data|) + (Mark(';') + e);
    var c := Word(regType) + (Mark(';') + d);
    var b := n + (Mark(';') + c);
    var a := p + (Mark(';') + b);
    assert Framed(p, n, regType, data) + rest == Mark('[') + a;
    MarkIsSeen('[', a);
    TerminatedIsSkipped(path, b);
    MarkIsSeen(';', b);
    TerminatedIsSkipped(name, c);
    MarkIsSeen(';', c);
    WordIsSkipped(regType, d);
    WordIsSkipped(|data|, e);
    ValueIsRead(start, path, name, regType, data, rest, maximum);
  }

  function SizeOf(text: Option<string>): nat { if text.Some? then |text.value| else 0 }

  /** The record that stands for a setting rendered at `start`. */
  function ParsedAs(start: int, s: Setting): Parsed {
    Parsed(PointsOf(s.path), PointsOf(s.name), s.regType, TypeName(if s.regType >= 0 then s.regType else 0), Meaning(s.value),
           start, SizeOf(Data(s.regType, s.value)))
  }

  /** The records of settings rendered one after another from `start` on. */
  function ParsedAsAll(start: int, settings: seq<Setting>): seq<Parsed>
    decreases |settings|
  {
    if settings == [] then []
    else [ParsedAs(start, settings[0])] + ParsedAsAll(start + SizeOf(RecordText(settings[0])), settings[1..])
  }

  predicate DataFits(settings: seq<Setting>, maximum: nat) {
    forall i | 0 <= i < |settings| :: var s := settings[i]; Data(s.regType, s.value).Some? ==> |Data(s.regType, s.value).value| <= maximum
  }

  lemma KnownType(s: Setting)
    requires Data(s.regType, s.value).Some?
    ensures 1 <= s.regType <= 11
  {
    hide TextFits, ListText, Terminated, Word, BigWord;
  }

  lemma RecordIsRead(start: int, s: Setting, rest: string, maximum: nat)
    requires RecordText(s).Some? && Faithful(s) && |Data(s.regType, s.value).value| <= maximum < 0x1_0000_0000
    ensures ReadRecord(start, RecordText(s).value + rest, maximum) == Some(Step(ParsedAs(start, s), rest))
  {
    hide Interpret, Framed, EncodeAll, Unit, ReadRecord, PointsOf, TextFits, Meaning, FaithfulValue, Data, TypeName;
    KnownType(s);
    InterpretValue(s.regType, s.value);
    FramedIsRead(start, PointsOf(s.path), PointsOf(s.name), s.regType, Data(s.regType, s.value).value, rest, maximum);
  }

  lemma {:induction false} RecordsTextFirst(settings: seq<Setting>)
    requires settings != [] && RecordsText(settings).Some?
    ensures RecordText(settings[0]).Some? && RecordsText(settings[1..]).Some?
    ensures RecordsText(settings).value == RecordText(settings[0]).value + RecordsText(settings[1..]).value
    decreases |settings|
  {
    hide RecordText;
    var n := |settings| - 1;
    if n == 0 {
      assert settings[..0] == [] && settings[1..] == [];
    } else {
      RecordsTextFirst(settings[..n]);
      assert settings[..n][1..] == settings[1..][..n - 1] && settings[1..][n - 1] == settings[n];
    }
  }

  lemma RecordIsMarked(s: Setting)
    requires RecordText(s).Some?
    ensures RecordText(s).value != ""
  {
    hide TextFits, Terminated, Data;
  }

  lemma {:induction false} RecordsAreRead(size: int, settings: seq<Setting>, maximum: nat)
    requires RecordsText(settings).Some? && DataFits(settings, maximum) && maximum < 0x1_0000_0000
    requires forall i | 0 <= i < |settings| :: Faithful(settings[i])
    ensures ReadRecords(size, RecordsText(settings).value, maximum) == Some(ParsedAsAll(size - |RecordsText(settings).value|, settings))
    decreases |settings|
  {
    hide ReadRecord, RecordText, Data, Faithful, ParsedAs, DataFits;
    if settings != [] {
      RecordsTextFirst(settings);
      var first, rest := RecordText(settings[0]).value, RecordsText(settings[1..]).value;
      var start := size - |first + rest|;
      FirstDataFits(settings, maximum);
      RecordIsMarked(settings[0]);
      RecordIsRead(start, settings[0], rest, maximum);
      RecordsAreRead(size, settings[1..], maximum);
      assert start + |first| == size - |rest|;
    }
  }

  lemma FirstDataFits(settings: seq<Setting>, maximum: nat)
    requires settings != [] && DataFits(settings, maximum) && RecordText(settings[0]).Some?
    ensures DataFits(settings[1..], maximum)
    ensures Data(settings[0].regType, settings[0].value).Some? && |Data(settings[0].regType, settings[0].value).value| <= maximum
  {
    hide Data, TextFits, Framed;
  }

  // ----- What the parser returns is always faithful -----

  predicate NormalValue(regType: int, x: Expected) {
    match x
    case Number(n) => 0 <= n && (regType != 11 ==> n < 0x1_0000_0000)
    case Text(text) => 0 !in text
    case Texts(items) => ZeroFree(items) && (items == [] || items[|items| - 1] != [])
    case Hex(_) => true
  }

  predicate Normal(r: Parsed) {
    0 !in r.path && 0 !in r.name && NormalValue(r.regType, r.expected)
  }

  lemma {:induction false} SplitIsNormal(text: Points)
    ensures ZeroFree(Split(text))
    ensures text != [] && text[|text| - 1] != 0 ==> Split(text)[|Split(text)| - 1] != []
  {
    if text != [] { SplitIsNormal(text[1..]); }
  }

  lemma {:induction false} StripLeavesNoZero(text: Points)
    ensures var t := StripZeros(text); t != [] ==> t[|t| - 1] != 0
  {
    if text != [] && text[|text| - 1] == 0 { StripLeavesNoZero(text[..|text| - 1]); }
  }

  lemma FourBytes(s: string)
    requires |s| == 4
    ensures Little(s) < 0x1_0000_0000 && Big(s) < 0x1_0000_0000
  {
    hide Little, Big;
    LittleOfFour(s);
    BigOfFour(s);
  }

  lemma InterpretIsNormal(regType: int, raw: string)
    requires Interpret(regType, raw).Some?
    ensures NormalValue(regType, Interpret(regType, raw).value)
  {
    hide Decode, Little, Big, Split, StripZeros;
    if regType == 4 || regType == 5 { FourBytes(raw); }
    else if regType == 7 {
      var text := StripZeros(Decode(raw).value);
      StripLeavesNoZero(Decode(raw).value);
      SplitIsNormal(text);
    }
  }

  lemma RecordIsNormal(start: int, s: string, maximum: nat)
    requires ReadRecord(start, s, maximum).Some?
    ensures Normal(ReadRecord(start, s, maximum).value.record)
  {
    hide Interpret, ReadTerminated, Little, NormalValue, TypeName;
    var path := ReadTerminated(s[2..]).value;
    ReadHasNoZero(s[2..]);
    var t := path.rest[2..];
    var name := ReadTerminated(t).value;
    ReadHasNoZero(t);
    var c := name.rest[2..];
    var d := c[6..];
    var e := d[6..];
    InterpretIsNormal(Little(c[..4]), e[..Little(d[..4])]);
  }

  lemma {:induction false} RecordsAreNormal(size: int, s: string, maximum: nat)
    requires ReadRecords(size, s, maximum).Some?
    ensures forall r | r in ReadRecords(size, s, maximum).value :: Normal(r)
    decreases |s|
  {
    hide ReadRecord, Normal;
    if s != "" {
      RecordIsNormal(size - |s|, s, maximum);
      RecordsAreNormal(size, ReadRecord(size - |s|, s, maximum).value.rest, maximum);
    }
  }

  lemma NormalMeansFaithful(start: int, s: Setting)
    requires RecordText(s).Some? && Normal(ParsedAs(start, s))
    ensures Faithful(s)
  {
    hide PointsOf, TextFits, Framed, TypeName;
    match s.value
    case ListValue(items) => if items != [] { EmptyText(items[|items| - 1]); }
    case _ =>
  }

  // ----- What validation lets through -----

  /** The bytes an override's text may have: no control characters. */
  predicate SafeText(text: string) { forall i | 0 <= i < |text| :: text[i] as int >= 32 && text[i] as int != 127 }

  lemma SafeScalar(text: string)
    requires text != "" && SafeText(text) && Utf8.Read(text).Some?
    ensures Utf8.Read(text).value.point != 0
  {
    hide Utf8.Accumulate;
  }

  lemma {:induction false} SafeTextHasNoNul(text: string)
    requires SafeText(text)
    ensures 0 !in PointsOf(text)
    decreases |text|
  {
    if text != "" && Utf8.Read(text).Some? {
      hide Utf8.Read;
      Utf8.ReadIsEncode(text);
      SafeScalar(text);
      SafeTextHasNoNul(text[Utf8.Read(text).value.width..]);
    }
  }

  /** What the source checks of a value before it renders it: the range of a number, the characters of texts. */
  predicate Validated(v: SettingValue, minimum: int, maximum: int) {
    match v
    case NumberValue(n) => minimum <= n <= maximum
    case TextValue(text) => SafeText(text)
    case ListValue(items) => forall i | 0 <= i < |items| :: SafeText(items[i])
  }

  /** A validated setting is faithful unless it is a list that ends in an empty item, or its range goes outside that of its type. */
  lemma ValidatedIsFaithful(s: Setting, minimum: int, maximum: int)
    requires Validated(s.value, minimum, maximum) && SafeText(s.path) && SafeText(s.name)
    requires 0 <= minimum && (s.regType != 11 ==> maximum < 0x1_0000_0000)
    requires s.value.ListValue? ==> s.value.items == [] || s.value.items[|s.value.items| - 1] != ""
    ensures Faithful(s)
  {
    hide PointsOf, SafeText;
    SafeTextHasNoNul(s.path);
    SafeTextHasNoNul(s.name);
    match s.value
    case TextValue(text) => SafeTextHasNoNul(text);
    case ListValue(items) =>
      forall i | 0 <= i < |items| ensures 0 !in PointsOf(items[i]) { SafeTextHasNoNul(items[i]); }
    case _ =>
  }

  lemma HeaderIsRead(rest: string)
    ensures var s := HEADER + rest; |s| == 8 + |rest| && s[..4] == "PReg" && Little(s[4..8]) == 1 && s[8..] == rest
  {
    hide Little, Word;
    WordWraps(1);
    assert (HEADER + rest)[4..8] == Word(1);
  }

  lemma {:induction false} ParsedAt(start: int, settings: seq<Setting>, i: nat) returns (at: int)
    requires i < |settings|
    ensures |ParsedAsAll(start, settings)| == |settings| && ParsedAsAll(start, settings)[i] == ParsedAs(at, settings[i])
    decreases |settings|
  {
    hide RecordText, ParsedAs;
    var next := start + SizeOf(RecordText(settings[0]));
    if i == 0 {
      at := start;
      if |settings| > 1 { var _ := ParsedAt(next, settings[1..], 0); }
    } else {
      at := ParsedAt(next, settings[1..], i - 1);
    }
  }

  /**
   Main result: reading the rendered file returns the settings in order, each with its place and size, exactly when every
   one of them is faithful: a path, a name and texts without NUL, numbers in the unsigned range of their type, and no
   empty last list item.
   */
  lemma FileRoundTrip(settings: seq<Setting>, maximum: nat)
    requires RecordsText(settings).Some? && DataFits(settings, maximum) && maximum < 0x1_0000_0000
    ensures ReadFile(HEADER + RecordsText(settings).value, maximum) == Some(ParsedAsAll(8, settings))
            <==> forall i | 0 <= i < |settings| :: Faithful(settings[i])
  {
    hide ReadRecords, RecordText, Faithful, ParsedAs, DataFits, Normal, Little;
    var body := RecordsText(settings).value;
    var size := |HEADER + body|;
    HeaderIsRead(body);
    if forall i | 0 <= i < |settings| :: Faithful(settings[i]) {
      RecordsAreRead(size, settings, maximum);
    } else if ReadRecords(size, body, maximum) == Some(ParsedAsAll(8, settings)) {
      RecordsAreNormal(size, body, maximum);
      forall i | 0 <= i < |settings| ensures Faithful(settings[i]) {
        var at := ParsedAt(8, settings, i);
        assert ParsedAsAll(8, settings)[i] in ParsedAsAll(8, settings);
        RecordRendered(settings, i);
        NormalMeansFaithful(at, settings[i]);
      }
    }
  }

  lemma {:induction false} RecordRendered(settings: seq<Setting>, i: nat)
    requires RecordsText(settings).Some? && i < |settings|
    ensures RecordText(settings[i]).Some?
    decreases |settings|
  {
    hide RecordText;
    if i < |settings| - 1 { RecordRendered(settings[..|settings| - 1], i); }
  }

  // ----- The Agent's encoder -----

  lemma PointsStep(text: string)
    requires Utf8.WellFormed(text) && text != ""
    ensures var scalar := Utf8.Read(text).value;
            && Utf8.WellFormed(text[scalar.width..]) && PointsOf(text) == [scalar.point] + PointsOf(text[scalar.width..])
  {
    hide Utf8.Read;
    Utf8.ReadIsEncode(text);
  }

  function Following(first: int): nat {
    if first >= 0xf0 then 3 else if first >= 0xe0 then 2 else if first >= 0xc0 then 1 else 0
  }

  function Lead(first: nat): int {
    if first >= 0xf0 then first % 8 else if first >= 0xe0 then first % 16 else if first >= 0xc0 then first % 32 else first
  }

  lemma ReadAccumulates(s: string)
    requires s != "" && Utf8.Read(s).Some?
    ensures var n := Following(s[0] as int);
            1 + n <= |s| && Utf8.Accumulate(Lead(s[0] as int), s[1..1 + n]) == Some(Utf8.Read(s).value.point) && Utf8.Read(s).value.width == 1 + n
  {
  }

  lemma AccumulateStep(point: int, text: string, i: nat, end: nat)
    requires i < end <= |text| && Utf8.Accumulate(point, text[i..end]).Some?
    ensures Utf8.Accumulate(point, text[i..end]) == Utf8.Accumulate(point * 64 + text[i] as int % 64, text[i + 1..end])
  {
    assert text[i..end][1..] == text[i + 1..end];
  }

  lemma AccumulateNothing(point: int)
    ensures Utf8.Accumulate(point, "") == Some(point)
  {
  }

  /** Adds the continuation bytes before `end` to the bits of the lead byte. */
  method AddFollowing(text: string, offset: nat, end: nat, lead: int) returns (point: int)
    requires offset <= end <= |text| && Utf8.Accumulate(lead, text[offset..end]).Some?
    ensures Utf8.Accumulate(lead, text[offset..end]) == Some(point)
  {
    hide Utf8.Accumulate;
    point := lead;
    var i := offset;
    while i < end
      invariant offset <= i <= end
      invariant Utf8.Accumulate(lead, text[offset..end]) == Utf8.Accumulate(point, text[i..end])
    {
      AccumulateStep(point, text, i, end);
      point := point * 64 + text[i] as int % 64;
      i := i + 1;
    }
    AccumulateNothing(point);
    assert text[i..end] == "";
  }

  /** Reads the scalar at `offset` of text that is known to be well formed. */
  method NextPoint(text: string, offset: nat) returns (point: int, next: nat)
    requires offset < |text| && Utf8.Read(text[offset..]).Some?
    ensures offset < next <= |text| && Utf8.Read(text[offset..]) == Some(Utf8.Scalar(point, next - offset))
  {
    hide Utf8.Read, Utf8.Accumulate;
    ghost var here := text[offset..];
    ReadAccumulates(here);
    var first := text[offset] as int;
    next := offset + 1 + Following(first);
    assert here[1..1 + Following(first)] == text[offset + 1..next];
    point := AddFollowing(text, offset + 1, next, Lead(first));
  }

  lemma HasNext(rest: string)
    requires Utf8.WellFormed(rest) && rest != ""
    ensures Utf8.Read(rest).Some?
  {
  }

  lemma EncodeStep(text: string, i: nat, point: int, next: nat)
    requires i < next <= |text| && Utf8.WellFormed(text[i..]) && Utf8.Read(text[i..]) == Some(Utf8.Scalar(point, next - i))
    ensures Utf8.IsScalar(point) && Utf8.WellFormed(text[next..])
    ensures EncodeAll(PointsOf(text[i..])) == Encode(point) + EncodeAll(PointsOf(text[next..]))
  {
    hide Utf8.Read, Encode;
    PointsStep(text[i..]);
    Utf8.ReadIsEncode(text[i..]);
    assert text[i..][next - i..] == text[next..];
    assert ([point] + PointsOf(text[next..]))[1..] == PointsOf(text[next..]);
  }

  lemma EncodeNothing()
    ensures EncodeAll(PointsOf("")) == ""
  {
  }

  method EncodeText(text: string, terminate: bool) returns (r: Option<string>)
    ensures r == if !TextFits(text) then None else Some(EncodeAll(PointsOf(text)) + if terminate then Unit(0) else "")
  {
    hide Serializable, Utf8.Read, Unit, PointsOf, EncodeAll, Utf8.WellFormed;
    var valid := ManagementJson.Serialize(Str(text), MAXIMUM);
    if valid.None? { return None; }
    FitsIsWellFormed(text);
    var out := "";
    var i := 0;
    assert text[0..] == text;
    while i < |text|
      invariant i <= |text| && Utf8.WellFormed(text[i..])
      invariant out + EncodeAll(PointsOf(text[i..])) == EncodeAll(PointsOf(text))
    {
      HasNext(text[i..]);
      var point, next := NextPoint(text, i);
      EncodeStep(text, i, point, next);
      ghost var before := out;
      if point > 0xffff {
        out := out + Unit(0xd800 + (point - 0x10000) / 1024) + Unit(0xdc00 + (point - 0x10000) % 1024);
      } else {
        out := out + Unit(point);
      }
      assert out == before + Encode(point);
      Regroup(before, Encode(point), EncodeAll(PointsOf(text[next..])));
      i := next;
    }
    assert text[i..] == "";
    EncodeNothing();
    assert out + "" == out;
    r := Some(out + if terminate then Unit(0) else "");
  }

  lemma FitsIsWellFormed(text: string)
    requires TextFits(text)
    ensures Utf8.WellFormed(text)
  {
  }

  method ListData(items: seq<string>) returns (r: Option<string>)
    ensures r == Data(7, ListValue(items))
  {
    hide TextFits, Terminated, Unit;
    var data := "";
    for i := 0 to |items|
      invariant data == ListText(items[..i])
      invariant forall k | 0 <= k < i :: TextFits(items[k])
      invariant data == "" <==> i == 0
    {
      var item := EncodeText(items[i], true);
      if item.None? { return None; }
      TerminatedText(items[i]);
      assert items[..i + 1][..i] == items[..i];
      data := data + item.value;
    }
    assert items[..|items|] == items;
    assert ListText(items) + "" == ListText(items);
    if data == "" { data := data + Unit(0); }
    r := Some(data + Unit(0));
    assert r == Data(7, ListValue(items));
  }

  lemma TerminatedText(text: string)
    ensures Terminated(text) == EncodeAll(PointsOf(text)) + Unit(0) && Terminated(text) != ""
  {
  }

  method RegistryRecord(s: Setting) returns (r: Option<string>)
    ensures r == RecordText(s)
  {
    hide TextFits, ListText, Word, BigWord, Unit;
    var data := None;
    match s.value {
      case NumberValue(n) => data := Data(s.regType, s.value);
      case TextValue(text) => if s.regType == 1 || s.regType == 2 { data := EncodeText(text, true); }
      case ListValue(items) => if s.regType == 7 { data := ListData(items); }
    }
    if data.None? { return None; }
    var path := EncodeText(s.path, true);
    var name := EncodeText(s.name, true);
    if path.None? || name.None? { return None; }
    r := Some(Framed(path.value, name.value, s.regType, data.value));
  }

  /** The registry.pol file for the settings that go into it, in order. */
  method RenderFile(settings: seq<Setting>) returns (r: Option<string>)
    ensures r == match RecordsText(settings) case None => None case Some(body) => Some(HEADER + body)
  {
    hide RecordText;
    var output := HEADER;
    for i := 0 to |settings|
      invariant RecordsText(settings[..i]).Some? && output == HEADER + RecordsText(settings[..i]).value
    {
      var record := RegistryRecord(settings[i]);
      assert settings[..i + 1][..i] == settings[..i];
      if record.None? {
        NoRecordsText(settings, i);
        return None;
      }
      output := output + record.value;
    }
    assert settings[..|settings|] == settings;
    r := Some(output);
  }

  lemma {:induction false} NoRecordsText(settings: seq<Setting>, i: nat)
    requires i < |settings| && RecordText(settings[i]).None?
    ensures RecordsText(settings).None?
  {
    hide RecordText;
    if RecordsText(settings).Some? { RecordRendered(settings, i); }
  }

  // ----- The importer's reader -----

  lemma TerminatorStep(data: string, pos: nat)
    requires pos + 2 <= |data|
    ensures Terminator(data[pos..]) ==
            if Byte(data[pos]) == 0 && Byte(data[pos + 1]) == 0 then Some(0)
            else match Terminator(data[pos + 2..]) case None => None case Some(k) => Some(k + 2)
  {
    assert data[pos..][2..] == data[pos + 2..];
  }

  lemma NoTerminator(data: string, pos: nat)
    requires pos <= |data| < pos + 2
    ensures Terminator(data[pos..]) == None
  {
  }

  class Reader {
    const data: string
    const maximum: nat
    var pos: nat

    constructor (data: string, maximum: nat)
      requires |data| >= 8
      ensures this.data == data && this.maximum == maximum && pos == 8
    {
      this.data, this.maximum, pos := data, maximum, 8;
    }

    predicate Valid()
      reads this
    {
      pos <= |data|
    }

    function Rest(): string
      reads this
      requires Valid()
    {
      data[pos..]
    }

    method Token(value: char) returns (ok: bool)
      requires Valid()
      modifies this
      ensures Valid() && ok == StartsWith(old(Rest()), Mark(value))
      ensures ok ==> |old(Rest())| >= 2 && Rest() == old(Rest())[2..]
    {
      var encoded := Mark(value);
      if pos + |encoded| > |data| || data[pos..pos + |encoded|] != encoded { return false; }
      pos := pos + |encoded|;
      ok := true;
    }

    method String() returns (r: Option<Points>)
      requires Valid()
      modifies this
      ensures Valid()
      ensures match ReadTerminated(old(Rest()))
              case None => r == None
              case Some(t) => r == Some(t.text) && Rest() == t.rest
    {
      hide Decode, Terminator;
      var start := pos;
      while pos + 2 <= |data|
        invariant start <= pos <= |data| && start == old(pos)
        invariant Terminator(data[start..]) == match Terminator(data[pos..]) case None => None case Some(k) => Some(k + (pos - start))
      {
        TerminatorStep(data, pos);
        if Byte(data[pos]) == 0 && Byte(data[pos + 1]) == 0 {
          assert data[start..][..pos - start] == data[start..pos];
          assert data[start..][pos - start + 2..] == data[pos + 2..];
          r := Decode(data[start..pos]);
          pos := pos + 2;
          return;
        }
        pos := pos + 2;
      }
      NoTerminator(data, pos);
      r := None;
    }

    method Integer() returns (r: Option<nat>)
      requires Valid()
      modifies this
      ensures Valid()
      ensures |old(Rest())| < 4 ==> r == None
      ensures |old(Rest())| >= 4 ==> r == Some(Little(old(Rest())[..4])) && Rest() == old(Rest())[4..]
    {
      if pos + 4 > |data| { return None; }
      assert data[pos..pos + 4] == data[pos..][..4] && data[pos + 4..] == data[pos..][4..];
      r := Some(Little(data[pos..pos + 4]));
      pos := pos + 4;
    }

    /** The type, the length, the data and the closing mark of a record. */
    method Tail(start: int, path: Points, name: Points) returns (r: Option<Parsed>)
      requires Valid()
      modifies this
      ensures Valid()
      ensures match ReadType(start, path, name, old(Rest()), maximum)
              case None => r == None
              case Some(step) => r == Some(step.record) && Rest() == step.rest
    {
      hide Interpret, Little, Mark, TypeName;
      ghost var a := Rest();
      var regType := Integer();
      if regType.None? { return None; }
      var ok := Token(';');
      if !ok { return None; }
      assert Rest() == a[6..];
      ghost var b := Rest();
      var length := Integer();
      if length.None? { return None; }
      ok := Token(';');
      if !ok { return None; }
      assert Rest() == b[6..];
      ghost var c := Rest();
      if length.value > maximum || pos + length.value > |data| { return None; }
      var raw := data[pos..pos + length.value];
      assert raw == c[..length.value];
      pos := pos + length.value;
      assert Rest() == c[length.value..];
      ok := Token(']');
      if !ok { return None; }
      assert Rest() == c[length.value + 2..];
      match Interpret(regType.value, raw)
      case None => return None;
      case Some(expected) => r := Some(Parsed(path, name, regType.value, TypeName(regType.value), expected, start, length.value));
    }

    method Record() returns (r: Option<Parsed>)
      requires Valid()
      modifies this
      ensures Valid()
      ensures match ReadRecord(old(pos), old(Rest()), maximum)
              case None => r == None
              case Some(step) => r == Some(step.record) && Rest() == step.rest
    {
      hide ReadType, ReadTerminated, Mark;
      var start := pos;
      var ok := Token('[');
      if !ok { return None; }
      var path := String();
      if path.None? { return None; }
      ok := Token(';');
      if !ok { return None; }
      var name := String();
      if name.None? { return None; }
      ok := Token(';');
      if !ok { return None; }
      r := Tail(start, path.value, name.value);
    }
  }

  /** Parses a whole file. */
  method RegistryRecords(data: string, maximum: nat) returns (r: Option<seq<Parsed>>)
    ensures r == ReadFile(data, maximum)
  {
    hide ReadRecord, Little;
    if |data| < 8 || data[..4] != "PReg" || Little(data[4..8]) != 1 { return None; }
    var reader := new Reader(data, maximum);
    var records := [];
    PrependNone(ReadRecords(|data|, data[8..], maximum));
    while reader.pos < |data|
      invariant reader.Valid() && reader.data == data && reader.maximum == maximum
      invariant ReadRecords(|data|, data[8..], maximum) == Prepend(records, ReadRecords(|data|, reader.Rest(), maximum))
      decreases |data| - reader.pos
    {
      ghost var before := reader.Rest();
      var record := reader.Record();
      if record.None? { return None; }
      assert |reader.Rest()| < |before|;
      PrependOne(records, record.value, ReadRecords(|data|, reader.Rest(), maximum));
      records := records + [record.value];
    }
    assert reader.Rest() == "" && records + [] == records;
    r := Some(records);
  }
}
