/**
 The language the contract parser accepts: each function reads one construct
 from the start of the remaining bytes, or stops. `nodes` is the number of nodes
 already counted.
 */
module ManagementJsonGrammar {
  import opened Wrappers
  import opened Utf8
  import opened ManagementJsonText

  datatype Step<+T> = Stop | Go(value: T, rest: string, nodes: nat)

  predicate IsBlank(c: char) { c == ' ' || c == '\t' || c == '\r' || c == '\n' }

  function SkipBlanks(s: string): (rest: string)
    ensures |rest| <= |s|
    decreases |s|
  {
    if s != "" && IsBlank(s[0]) then SkipBlanks(s[1..]) else s
  }

  predicate Starts(s: string, c: char) { s != "" && s[0] == c }

  // ----- Strings -----

  function HexValue(c: char): (r: Option<nat>)
    ensures r.Some? ==> r.value < 16
  {
    if IsDigit(c) then Some(c as int - '0' as int)
    else if 'a' <= c <= 'f' then Some(c as int - 'a' as int + 10)
    else if 'A' <= c <= 'F' then Some(c as int - 'A' as int + 10)
    else None
  }

  /** Four hexadecimal digits. */
  function ReadHex4(s: string): (r: Option<nat>)
    ensures r.Some? ==> 4 <= |s| && r.value < 0x10000
  {
    if |s| < 4 then None
    else
      match (HexValue(s[0]), HexValue(s[1]), HexValue(s[2]), HexValue(s[3]))
      case (Some(a), Some(b), Some(c), Some(d)) => Some(((a * 16 + b) * 16 + c) * 16 + d)
      case _ => None
  }

  /** One piece of a string body: the bytes it stands for and the bytes it took. */
  datatype Unit = Unit(bytes: string, taken: nat)

  /** The scalar named by the digits of a `\u` escape, with its low surrogate if it needs one. */
  function ReadEscapedScalar(s: string): (r: Option<Unit>)
    ensures r.Some? ==> 4 <= r.value.taken <= |s|
  {
    match ReadHex4(s)
    case None => None
    case Some(high) =>
      if 0xd800 <= high <= 0xdbff then
        if !(6 <= |s| && s[4] == '\\' && s[5] == 'u') then None
        else
          match ReadHex4(s[6..])
          case None => None
          case Some(low) =>
            if low < 0xdc00 || low > 0xdfff then None
            else Some(Unit(Encode(0x10000 + (high - 0xd800) * 1024 + (low - 0xdc00)), 10))
      else if 0xdc00 <= high <= 0xdfff then None
      else Some(Unit(Encode(high), 4))
  }

  /** The piece after a reverse solidus. */
  function ReadEscape(s: string): (r: Option<Unit>)
    ensures r.Some? ==> 0 < r.value.taken <= |s|
  {
    if s == "" then None
    else
      match s[0]
      case '"' => Some(Unit("\"", 1))
      case '\\' => Some(Unit("\\", 1))
      case '/' => Some(Unit("/", 1))
      case 'b' => Some(Unit(['\U{0008}'], 1))
      case 'f' => Some(Unit(['\U{000c}'], 1))
      case 'n' => Some(Unit("\n", 1))
      case 'r' => Some(Unit("\r", 1))
      case 't' => Some(Unit("\t", 1))
      case 'u' => (match ReadEscapedScalar(s[1..]) case None => None case Some(u) => Some(Unit(u.bytes, u.taken + 1)))
      case _ => None
  }

  function ReadUnit(s: string): (r: Option<Unit>)
    ensures r.Some? ==> 0 < r.value.taken <= |s|
  {
    if s == "" || s[0] as int < 0x20 then None
    else if s[0] == '\\' then
      match ReadEscape(s[1..])
      case None => None
      case Some(u) => Some(Unit(u.bytes, u.taken + 1))
    else
      match Read(s)
      case None => None
      case Some(scalar) => ReadIsEncode(s); Some(Unit(s[..scalar.width], scalar.width))
  }

  /** The rest of a string whose opening quote and first pieces `output` were read. */
  function ReadBody(s: string, output: string, b: Limits): (r: Step<string>)
    ensures r.Go? ==> |r.rest| < |s| && r.nodes == 0
    decreases |s|
  {
    if s == "" then Stop
    else if s[0] == '"' then Go(output, s[1..], 0)
    else
      match ReadUnit(s)
      case None => Stop
      case Some(u) =>
        if |output + u.bytes| > b.stringBytes then Stop
        else ReadBody(s[u.taken..], output + u.bytes, b)
  }

  function ReadString(s: string, b: Limits): (r: Step<string>)
    ensures r.Go? ==> |r.rest| < |s|
  {
    if Starts(s, '"') then ReadBody(s[1..], "", b) else Stop
  }

  // ----- Integers -----

  function LeadingDigits(s: string): (n: nat)
    ensures n <= |s|
    ensures forall i | 0 <= i < n :: IsDigit(s[i])
    ensures n < |s| ==> !IsDigit(s[n])
  {
    if s != "" && IsDigit(s[0]) then 1 + LeadingDigits(s[1..]) else 0
  }

  function DecimalValue(digits: string): nat
    requires forall i | 0 <= i < |digits| :: IsDigit(digits[i])
  {
    if digits == "" then 0
    else
      assert IsDigit(digits[|digits| - 1]);
      DecimalValue(digits[..|digits| - 1]) * 10 + (digits[|digits| - 1] as int - '0' as int)
  }

  /** A number without leading zeros, fraction or exponent. */
  function ReadMagnitude(s: string): (r: Step<nat>)
    ensures r.Go? ==> |r.rest| < |s|
  {
    var n := LeadingDigits(s);
    if n == 0 || (s[0] == '0' && n > 1) then Stop
    else if n < |s| && (s[n] == '.' || s[n] == 'e' || s[n] == 'E') then Stop
    else Go(DecimalValue(s[..n]), s[n..], 0)
  }

  /** An optional sign and a number, in range. */
  function ReadInteger(s: string): (r: Step<int64>)
    ensures r.Go? ==> |r.rest| < |s|
  {
    var negative := Starts(s, '-');
    match ReadMagnitude(if negative then s[1..] else s)
    case Stop => Stop
    case Go(magnitude, rest, _) =>
      var number: int := if negative then -(magnitude as int) else magnitude;
      if -0x8000_0000_0000_0000 <= number <= 0x7fff_ffff_ffff_ffff then var fitting: int64 := number; Go(fitting, rest, 0)
      else Stop
  }

  // ----- Values -----

  function ReadLiteral(s: string, text: string, v: Value, nodes: nat): (r: Step<Value>)
    requires text != ""
    ensures r.Go? ==> |r.rest| < |s|
  {
    if text <= s then Go(v, s[|text|..], nodes) else Stop
  }

  function ReadValue(s: string, depth: nat, nodes: nat, b: Limits): (r: Step<Value>)
    ensures r.Go? ==> |r.rest| < |s|
    decreases |s|, 0
  {
    if nodes + 1 > b.nodes || s == "" then Stop
    else
      match s[0]
      case 'n' => ReadLiteral(s, "null", Null, nodes + 1)
      case 't' => ReadLiteral(s, "true", Bool(true), nodes + 1)
      case 'f' => ReadLiteral(s, "false", Bool(false), nodes + 1)
      case '"' => (match ReadString(s, b) case Stop => Stop case Go(text, rest, _) => Go(Str(text), rest, nodes + 1))
      case '[' =>
        if depth >= b.depth then Stop
        else
          var inner := SkipBlanks(s[1..]);
          if Starts(inner, ']') then Go(Arr([]), inner[1..], nodes + 1)
          else ReadItems(inner, [], depth + 1, nodes + 1, b)
      case '{' =>
        if depth >= b.depth then Stop
        else
          var inner := SkipBlanks(s[1..]);
          if Starts(inner, '}') then Go(Obj(map[]), inner[1..], nodes + 1)
          else ReadMembers(inner, map[], depth + 1, nodes + 1, b)
      case _ => (match ReadInteger(s) case Stop => Stop case Go(n, rest, _) => Go(Int(n), rest, nodes + 1))
  }

  /** The items still to come after `items` were read, through the closing bracket. */
  function ReadItems(s: string, items: seq<Value>, depth: nat, nodes: nat, b: Limits): (r: Step<Value>)
    ensures r.Go? ==> |r.rest| < |s|
    decreases |s|, 1
  {
    match ReadValue(SkipBlanks(s), depth, nodes, b)
    case Stop => Stop
    case Go(item, rest, count) =>
      var next := SkipBlanks(rest);
      if Starts(next, ']') then Go(Arr(items + [item]), next[1..], count)
      else if Starts(next, ',') then ReadItems(next[1..], items + [item], depth, count, b)
      else Stop
  }

  /** A key, its colon and the blanks around it. */
  function ReadKey(s: string, nodes: nat, b: Limits): (r: Step<string>)
    ensures r.Go? ==> |r.rest| < |s| && r.nodes == nodes + 1
  {
    if nodes + 1 > b.nodes then Stop
    else
      match ReadString(SkipBlanks(s), b)
      case Stop => Stop
      case Go(key, rest, _) =>
        var colon := SkipBlanks(rest);
        if Starts(colon, ':') then Go(key, SkipBlanks(colon[1..]), nodes + 1) else Stop
  }

  /** The members still to come after `fields` were read, through the closing brace. */
  function ReadMembers(s: string, fields: map<string, Value>, depth: nat, nodes: nat, b: Limits): (r: Step<Value>)
    ensures r.Go? ==> |r.rest| < |s|
    decreases |s|, 1
  {
    match ReadKey(s, nodes, b)
    case Stop => Stop
    case Go(key, afterKey, keyCount) =>
      if key in fields then Stop
      else
        match ReadValue(afterKey, depth, keyCount, b)
        case Stop => Stop
        case Go(item, rest, count) =>
          var next := SkipBlanks(rest);
          if Starts(next, '}') then Go(Obj(fields[key := item]), next[1..], count)
          else if Starts(next, ',') then ReadMembers(next[1..], fields[key := item], depth, count, b)
          else Stop
  }

  function ReadDocument(d: string, b: Limits): Option<Value> {
    if !ValidLimits(b) || |d| > b.documentBytes then None
    else
      match ReadValue(SkipBlanks(d), 0, 0, b)
      case Stop => None
      case Go(v, rest, _) => if SkipBlanks(rest) == "" then Some(v) else None
  }
}
