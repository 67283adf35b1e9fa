/**
 The values of the Agent's contract JSON, their canonical text, and what a set
 of limits admits. Nothing here parses or appends: this is the meaning the
 serializer and the parser are proved against.
 */
module ManagementJsonText {
  import opened Wrappers
  import opened Utf8

  type int64 = n: int | -0x8000_0000_0000_0000 <= n <= 0x7fff_ffff_ffff_ffff

  datatype Value =
    | Null
    | Bool(flag: bool)
    | Int(number: int64)
    | Str(text: string)
    | Arr(items: seq<Value>)
    | Obj(fields: map<string, Value>)

  datatype Limits = Limits(documentBytes: nat, depth: nat, nodes: nat, stringBytes: nat)

  const MAXIMUM := Limits(64 * 1024, 8, 4096, 16 * 1024)

  predicate ValidLimits(b: Limits) {
    && 0 < b.documentBytes <= MAXIMUM.documentBytes
    && b.depth <= MAXIMUM.depth
    && 0 < b.nodes <= MAXIMUM.nodes
    && b.stringBytes <= MAXIMUM.stringBytes
  }

  // ----- Key order: unsigned lexicographic order of the bytes -----

  predicate Before(a: string, b: string) {
    b != "" && (a == "" || a[0] < b[0] || (a[0] == b[0] && Before(a[1..], b[1..])))
  }

  lemma BeforeIsTotal(a: string, b: string)
    ensures a == b || Before(a, b) || Before(b, a)
    ensures !(Before(a, b) && Before(b, a)) && !Before(a, a)
  {
    if a != "" && b != "" {
      BeforeIsTotal(a[1..], b[1..]);
      assert a == [a[0]] + a[1..] && b == [b[0]] + b[1..];
    }
  }

  lemma BeforeIsTransitive(a: string, b: string, c: string)
    requires Before(a, b) && Before(b, c)
    ensures Before(a, c)
  {
  }

  /** One key comes before another by the first byte in which they differ, or by being the beginning of it. */
  lemma {:induction false} BeforeByFirstDifference(a: string, b: string)
    ensures Before(a, b) <==>
              exists k :: 0 <= k <= |a| && k < |b| && a[..k] == b[..k] && (k == |a| || a[k] < b[k])
  {
    if a == "" || b == "" {
      if b != "" { assert a[..0] == b[..0]; }
    } else {
      var x, y := a[1..], b[1..];
      BeforeByFirstDifference(x, y);
      if a[0] != b[0] {
        assert a[..0] == b[..0];
        if k :| 0 <= k <= |a| && k < |b| && a[..k] == b[..k] && (k == |a| || a[k] < b[k]) {
          if k > 0 { assert a[..k][0] == b[..k][0]; }
        }
      } else {
        if Before(x, y) {
          var k :| 0 <= k <= |x| && k < |y| && x[..k] == y[..k] && (k == |x| || x[k] < y[k]);
          assert a[..k + 1] == [a[0]] + x[..k] && b[..k + 1] == [b[0]] + y[..k];
        }
        if k :| 0 <= k <= |a| && k < |b| && a[..k] == b[..k] && (k == |a| || a[k] < b[k]) {
          assert k > 0;
          assert x[..k - 1] == a[..k][1..] && y[..k - 1] == b[..k][1..];
        }
      }
    }
  }

  predicate IsFirst(key: string, keys: set<string>) {
    key in keys && forall other | other in keys :: key == other || Before(key, other)
  }

  lemma FirstExists(keys: set<string>)
    requires keys != {}
    ensures exists key :: IsFirst(key, keys)
  {
    var some :| some in keys;
    if keys == {some} {
      assert IsFirst(some, keys);
    } else {
      FirstExists(keys - {some});
      var least :| IsFirst(least, keys - {some});
      BeforeIsTotal(some, least);
      if Before(some, least) {
        forall other | other in keys ensures some == other || Before(some, other) {
          if other != some && other != least { BeforeIsTransitive(some, least, other); }
        }
        assert IsFirst(some, keys);
      } else {
        assert IsFirst(least, keys);
      }
    }
  }

  /** The first key in order; a map is walked by taking the first key that remains. */
  function First(keys: set<string>): (key: string)
    requires keys != {}
    ensures IsFirst(key, keys)
  {
    FirstExists(keys);
    forall a, b | IsFirst(a, keys) && IsFirst(b, keys) ensures a == b { BeforeIsTotal(a, b); }
    var key :| key in keys && IsFirst(key, keys);
    key
  }

  lemma FirstIsUnique(key: string, keys: set<string>)
    requires IsFirst(key, keys)
    ensures First(keys) == key
  {
    BeforeIsTotal(key, First(keys));
  }

  /** The keys in order. */
  function Sorted(names: set<string>): (r: seq<string>)
    ensures |r| == |names| && forall name :: name in r <==> name in names
    decreases |names|
  {
    if names == {} then [] else var first := First(names); [first] + Sorted(names - {first})
  }

  /** Sorted keys are in strictly increasing order. */
  lemma {:induction false} SortedIsOrdered(names: set<string>, i: nat, j: nat)
    requires i < j < |Sorted(names)|
    ensures Before(Sorted(names)[i], Sorted(names)[j])
    decreases names
  {
    var first := First(names);
    var rest := Sorted(names - {first});
    assert Sorted(names) == [first] + rest;
    if i > 0 {
      SortedIsOrdered(names - {first}, i - 1, j - 1);
    } else {
      assert rest[j - 1] in names - {first};
    }
  }

  // ----- Canonical text -----

  predicate IsDigit(c: char) { '0' <= c <= '9' }

  function Digit(n: nat): char
    requires n < 10
  {
    ('0' as int + n) as char
  }

  function NatText(n: nat): string {
    if n < 10 then [Digit(n)] else NatText(n / 10) + [Digit(n % 10)]
  }

  function IntText(n: int): string {
    if n < 0 then "-" + NatText(-n) else NatText(n)
  }

  function HexDigit(n: nat): char
    requires n < 16
  {
    if n < 10 then Digit(n) else ('a' as int + n - 10) as char
  }

  predicate IsEscaped(c: char) { c as int < 0x20 || c == '"' || c == '\\' }

  /** How an escaped byte is written. */
  function EscapeSequence(c: char): string
    requires IsEscaped(c)
  {
    match c
    case '"' => "\\\""
    case '\\' => "\\\\"
    case '\U{0008}' => "\\b"
    case '\U{000c}' => "\\f"
    case '\n' => "\\n"
    case '\r' => "\\r"
    case '\t' => "\\t"
    case _ => "\\u00" + [HexDigit(c as int / 16), HexDigit(c as int % 16)]
  }

  const HEX_DIGITS := "0123456789abcdef"

  /** Canonical text has the short escape where there is one, and else four digits in lower case. */
  lemma EscapesAreFixed(c: char)
    requires IsEscaped(c)
    ensures c == '"' ==> EscapeSequence(c) == ['\\', '"']
    ensures c == '\\' ==> EscapeSequence(c) == ['\\', '\\']
    ensures c as int == 8 ==> EscapeSequence(c) == ['\\', 'b']
    ensures c as int == 9 ==> EscapeSequence(c) == ['\\', 't']
    ensures c as int == 10 ==> EscapeSequence(c) == ['\\', 'n']
    ensures c as int == 12 ==> EscapeSequence(c) == ['\\', 'f']
    ensures c as int == 13 ==> EscapeSequence(c) == ['\\', 'r']
    ensures c as int < 32 && c as int !in {8, 9, 10, 12, 13} ==>
              EscapeSequence(c) == ['\\', 'u', '0', '0', HEX_DIGITS[c as int / 16], HEX_DIGITS[c as int % 16]]
  {
    if c as int < 32 { HexDigitIsFixed(c as int / 16); HexDigitIsFixed(c as int % 16); }
  }

  lemma HexDigitIsFixed(n: nat)
    requires n < 16
    ensures HexDigit(n) == HEX_DIGITS[n]
  {
  }

  /** The width of the scalar or escaped byte at the start of a string. */
  function UnitWidth(s: string): (width: nat)
    requires s != ""
    ensures 0 < width <= |s|
  {
    if IsEscaped(s[0]) then 1
    else if Read(s).Some? then ReadIsEncode(s); Read(s).value.width
    else 1
  }

  function EscapeUnit(unit: string): string
    requires unit != ""
  {
    if IsEscaped(unit[0]) then EscapeSequence(unit[0]) else unit
  }

  function Escape(s: string): string
    decreases |s|
  {
    if s == "" then ""
    else EscapeUnit(s[..UnitWidth(s)]) + Escape(s[UnitWidth(s)..])
  }

  function StringText(s: string): string {
    "\"" + Escape(s) + "\""
  }

  function BoolText(flag: bool): string {
    if flag then "true" else "false"
  }

  function Text(v: Value): string
    decreases v, 1, 0
  {
    match v
    case Null => "null"
    case Bool(flag) => BoolText(flag)
    case Int(n) => IntText(n)
    case Str(s) => StringText(s)
    case Arr(items) => "[" + if items == [] then "]" else ItemsText(v, 0)
    case Obj(m) => "{" + if m == map[] then "}" else MembersText(v, m.Keys)
  }

  /** The items from index `i` on, with the commas between them and the closing bracket. */
  function ItemsText(v: Value, i: nat): string
    requires v.Arr? && i < |v.items|
    decreases v, 0, |v.items| - i
  {
    Text(v.items[i]) + if i + 1 == |v.items| then "]" else "," + ItemsText(v, i + 1)
  }

  function MemberText(v: Value, key: string): string
    requires v.Obj? && key in v.fields
    decreases v, 0, 0
  {
    StringText(key) + ":" + Text(v.fields[key])
  }

  /** The members that remain, in key order, with commas and the closing brace. */
  function MembersText(v: Value, keys: set<string>): string
    requires v.Obj? && keys != {} && keys <= v.fields.Keys
    decreases v, 0, |keys|
  {
    var key := First(keys);
    MemberText(v, key) + if keys == {key} then "}" else "," + MembersText(v, keys - {key})
  }

  // ----- What the limits admit -----

  /** Values and object keys, both counted. */
  function Count(v: Value): nat
    decreases v, 1, 0
  {
    match v
    case Arr(items) => 1 + CountItems(v, 0)
    case Obj(m) => 1 + CountMembers(v, m.Keys)
    case _ => 1
  }

  function CountItems(v: Value, i: nat): nat
    requires v.Arr? && i <= |v.items|
    decreases v, 0, |v.items| - i
  {
    if i == |v.items| then 0 else Count(v.items[i]) + CountItems(v, i + 1)
  }

  function CountMembers(v: Value, keys: set<string>): nat
    requires v.Obj? && keys <= v.fields.Keys
    decreases v, 0, |keys|
  {
    if keys == {} then 0
    else var key := First(keys); 1 + Count(v.fields[key]) + CountMembers(v, keys - {key})
  }

  predicate StringFits(s: string, b: Limits) {
    |s| <= b.stringBytes && WellFormed(s)
  }

  /** Every string is bounded UTF-8 and no container lies deeper than the depth limit. */
  predicate Fits(v: Value, depth: nat, b: Limits) {
    match v
    case Str(s) => StringFits(s, b)
    case Arr(items) => depth < b.depth && forall i | 0 <= i < |items| :: Fits(items[i], depth + 1, b)
    case Obj(m) => depth < b.depth && forall key | key in m :: StringFits(key, b) && Fits(m[key], depth + 1, b)
    case _ => true
  }

  predicate Serializable(v: Value, b: Limits) {
    ValidLimits(b) && Fits(v, 0, b) && Count(v) <= b.nodes && |Text(v)| <= b.documentBytes
  }

  /** A value inside `n` containers, arrays or objects. */
  function Nest(n: nat, arrays: bool): Value {
    if n == 0 then Null else if arrays then Arr([Nest(n - 1, arrays)]) else Obj(map["" := Nest(n - 1, arrays)])
  }

  /** The depth limit is the number of containers that may lie in each other. */
  lemma {:induction false} NestedFits(n: nat, arrays: bool, depth: nat, b: Limits)
    ensures Fits(Nest(n, arrays), depth, b) <==> n == 0 || depth + n <= b.depth
    decreases n
  {
    if n > 0 {
      NestedFits(n - 1, arrays, depth + 1, b);
      if arrays { assert Nest(n, arrays).items[0] == Nest(n - 1, arrays); } else { assert "" in Nest(n, arrays).fields; }
    }
  }

  /** Every item is a node, and so is the array. */
  lemma {:induction false} ItemsCounted(v: Value, i: nat)
    requires v.Arr? && i <= |v.items| && forall k | 0 <= k < |v.items| :: !v.items[k].Arr? && !v.items[k].Obj?
    ensures CountItems(v, i) == |v.items| - i && Count(v) == 1 + CountItems(v, 0)
    decreases |v.items| - i
  {
    if i < |v.items| { ItemsCounted(v, i + 1); }
  }

  /** Every key is a node besides its value. */
  lemma {:induction false} MembersCounted(v: Value, keys: set<string>)
    requires v.Obj? && keys <= v.fields.Keys && forall key | key in v.fields :: !v.fields[key].Arr? && !v.fields[key].Obj?
    ensures CountMembers(v, keys) == 2 * |keys| && Count(v) == 1 + CountMembers(v, v.fields.Keys)
    decreases keys
  {
    if keys != {} {
      var key := First(keys);
      MembersCounted(v, keys - {key});
    }
  }
}
