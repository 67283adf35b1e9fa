/**
 The contract JSON codec as it runs: a parser that moves a position over its
 source and a serializer that appends to its output, both counting nodes. A
 thrown `invalid()` is a failing result; the object is not used after one.
 */
module ManagementJson {
  import opened Wrappers
  import opened Utf8
  import opened ManagementJsonText
  import opened ManagementJsonGrammar
  import opened ManagementJsonScalars
  import opened ManagementJsonLaws

  class Parser {
    const source: string
    const bounds: Limits
    var position: nat
    var nodes: nat

    ghost predicate Valid()
      reads this
    {
      position <= |source|
    }

    ghost function Rest(): string
      reads this
      requires Valid()
    {
      source[position..]
    }

    constructor (source: string, bounds: Limits)
      ensures this.source == source && this.bounds == bounds
      ensures Valid() && Rest() == source && nodes == 0
    {
      this.source, this.bounds := source, bounds;
      position, nodes := 0, 0;
    }

    method Node() returns (ok: bool)
      modifies this`nodes
      ensures nodes == old(nodes) + 1 && ok == (nodes <= bounds.nodes)
    {
      nodes := nodes + 1;
      ok := nodes <= bounds.nodes;
    }

    method Peek() returns (c: char)
      requires Valid()
      ensures c == if Rest() == "" then '\0' else Rest()[0]
    {
      c := if position < |source| then source[position] else '\0';
    }

    method Consume(item: char) returns (ok: bool)
      requires Valid()
      modifies this`position
      ensures Valid() && ok == Starts(old(Rest()), item)
      ensures Rest() == if ok then old(Rest())[1..] else old(Rest())
    {
      if position >= |source| || source[position] != item { return false; }
      position := position + 1;
      ok := true;
    }

    method Whitespace()
      requires Valid()
      modifies this`position
      ensures Valid() && Rest() == SkipBlanks(old(Rest()))
    {
      while position < |source| && IsBlank(source[position])
        invariant Valid() && SkipBlanks(Rest()) == SkipBlanks(old(Rest()))
      {
        assert Rest()[1..] == source[position + 1..];
        position := position + 1;
      }
    }

    method Literal(text: string) returns (ok: bool)
      requires Valid()
      modifies this`position
      ensures Valid() && ok == (text <= old(Rest()))
      ensures ok ==> Rest() == old(Rest())[|text|..]
    {
      var end := if |source| - position < |text| then |source| else position + |text|;
      if source[position..end] != text { return false; }
      position := position + |text|;
      ok := true;
    }

    method Hex4() returns (point: Option<nat>)
      requires Valid()
      modifies this`position
      ensures Valid() && point == ReadHex4(old(Rest()))
      ensures point.Some? ==> Rest() == old(Rest())[4..]
    {
      if |source| - position < 4 { return None; }
      ghost var digits := Rest();
      var value: nat := 0;
      for index := 0 to 4
        invariant position == old(position) + index && Valid()
        invariant forall i | 0 <= i < index :: HexValue(digits[i]).Some?
        invariant index == 1 ==> value == HexValue(digits[0]).value
        invariant index == 2 ==> value == HexValue(digits[0]).value * 16 + HexValue(digits[1]).value
        invariant index == 3 ==> value == (HexValue(digits[0]).value * 16 + HexValue(digits[1]).value) * 16
                                          + HexValue(digits[2]).value
        invariant index == 4 ==> Some(value) == ReadHex4(digits)
        invariant index == 0 ==> value == 0
      {
        var next := source[position];
        assert next == digits[index];
        position := position + 1;
        match HexValue(next) {
          case None => return None;
          case Some(digit) => value := value * 16 + digit;
        }
      }
      point := Some(value);
    }

    /** The part of a string body after `\u`. */
    method EscapedScalar() returns (bytes: Option<string>)
      requires Valid()
      modifies this`position
      ensures Valid()
      ensures match ReadEscapedScalar(old(Rest()))
              case None => bytes.None?
              case Some(u) => bytes == Some(u.bytes) && Rest() == old(Rest())[u.taken..]
    {
      hide ReadHex4, Encode;
      var high := Hex4();
      if high.None? { return None; }
      var point := high.value;
      if 0xd800 <= point <= 0xdbff {
        var solidus := Consume('\\');
        if !solidus { return None; }
        var u := Consume('u');
        if !u { return None; }
        var low := Hex4();
        if low.None? || low.value < 0xdc00 || low.value > 0xdfff { return None; }
        point := 0x10000 + (point - 0xd800) * 1024 + (low.value - 0xdc00);
      } else if 0xdc00 <= point <= 0xdfff {
        return None;
      }
      bytes := Some(Encode(point));
    }

    /** The part of a string body after a reverse solidus. */
    method Escaped() returns (bytes: Option<string>)
      requires Valid()
      modifies this`position
      ensures Valid()
      ensures match ReadEscape(old(Rest()))
              case None => bytes.None?
              case Some(u) => bytes == Some(u.bytes) && Rest() == old(Rest())[u.taken..]
    {
      if position >= |source| { return None; }
      var escape := source[position];
      position := position + 1;
      assert Rest() == old(Rest())[1..];
      match escape {
        case '"' => bytes := Some("\"");
        case '\\' => bytes := Some("\\");
        case '/' => bytes := Some("/");
        case 'b' => bytes := Some(['\U{0008}']);
        case 'f' => bytes := Some(['\U{000c}']);
        case 'n' => bytes := Some("\n");
        case 'r' => bytes := Some("\r");
        case 't' => bytes := Some("\t");
        case 'u' => bytes := EscapedScalar();
        case _ => bytes := None;
      }
    }

    /** One piece of a string body, from a byte that is not the closing quote. */
    method Piece() returns (bytes: Option<string>)
      requires Valid() && position < |source|
      modifies this`position
      ensures Valid()
      ensures match ReadUnit(old(Rest()))
              case None => bytes.None?
              case Some(u) => bytes == Some(u.bytes) && Rest() == old(Rest())[u.taken..]
    {
      hide ReadEscape, Read;
      ghost var all := Rest();
      var next := source[position];
      if next as int < 0x20 { return None; }
      if next != '\\' {
        var width := Width(source, position);
        if width.None? { return None; }
        ReadIsEncode(Rest());
        bytes := Some(source[position..position + width.value]);
        position := position + width.value;
        assert bytes.value == all[..width.value] && Rest() == all[width.value..];
      } else {
        position := position + 1;
        assert Rest() == all[1..];
        bytes := Escaped();
        ghost var u := ReadEscape(all[1..]);
        assert u.Some? ==> Rest() == all[u.value.taken + 1..];
      }
    }

    method Text() returns (r: Option<string>)
      requires Valid()
      modifies this`position
      ensures Valid()
      ensures match ReadString(old(Rest()), bounds)
              case Stop => r.None?
              case Go(text, rest, _) => r == Some(text) && Rest() == rest
    {
      var quote := Consume('"');
      if !quote { return None; }
      var output := "";
      while position < |source|
        invariant Valid() && ReadBody(Rest(), output, bounds) == ReadString(old(Rest()), bounds)
        decreases |source| - position
      {
        if source[position] == '"' {
          position := position + 1;
          return Some(output);
        }
        var bytes := Piece();
        if bytes.None? { return None; }
        output := output + bytes.value;
        if |output| > bounds.stringBytes { return None; }
      }
      r := None;
    }

    method Digits()
      requires Valid()
      modifies this`position
      ensures Valid() && position == old(position) + LeadingDigits(old(Rest()))
    {
      ghost var t := Rest();
      while position < |source| && IsDigit(source[position])
        invariant old(position) <= position && Valid()
        invariant LeadingDigits(t) == position - old(position) + LeadingDigits(Rest())
      {
        assert Rest()[1..] == source[position + 1..];
        position := position + 1;
      }
    }

    /** The digits of an integer. */
    method Magnitude() returns (r: Option<nat>)
      requires Valid()
      modifies this`position
      ensures Valid()
      ensures match ReadMagnitude(old(Rest()))
              case Stop => r.None?
              case Go(n, rest, _) => r == Some(n) && Rest() == rest
    {
      hide DecimalValue, LeadingDigits;
      ghost var t := Rest();
      var start := position;
      var zero := Consume('0');
      var next := Peek();
      if zero {
        if '0' <= next <= '9' { return None; }
      } else {
        if next < '1' || next > '9' { return None; }
        Digits();
      }
      next := Peek();
      if next == '.' || next == 'e' || next == 'E' { return None; }
      assert source[start..position] == t[..position - start];
      r := Some(DecimalValue(source[start..position]));
    }

    method Integer() returns (r: Option<int64>)
      requires Valid()
      modifies this`position
      ensures Valid()
      ensures match ReadInteger(old(Rest()))
              case Stop => r.None?
              case Go(n, rest, _) => r == Some(n) && Rest() == rest
    {
      hide ReadMagnitude;
      var negative := Consume('-');
      var magnitude := Magnitude();
      if magnitude.None? { return None; }
      var number: int := if negative then -(magnitude.value as int) else magnitude.value;
      if !(-0x8000_0000_0000_0000 <= number <= 0x7fff_ffff_ffff_ffff) { return None; }
      r := Some(number);
    }

    /** Blanks, one value, blanks, and nothing more. */
    method Document() returns (r: Option<Value>)
      requires Valid() && nodes == 0
      modifies this
      ensures r == match ReadValue(SkipBlanks(old(Rest())), 0, 0, bounds)
                   case Stop => None
                   case Go(v, rest, _) => if SkipBlanks(rest) == "" then Some(v) else None
    {
      hide ReadValue, SkipBlanks;
      Whitespace();
      r := Value(0);
      if r.None? { return; }
      Whitespace();
      if position != |source| { return None; }
    }

    method Value(depth: nat) returns (r: Option<Value>)
      requires Valid()
      modifies this
      ensures Valid()
      ensures match ReadValue(old(Rest()), depth, old(nodes), bounds)
              case Stop => r.None?
              case Go(v, rest, count) => r == Some(v) && Rest() == rest && nodes == count
      decreases |source| - position, 1
    {
      var room := Node();
      if !room { return None; }
      var c := Peek();
      match c {
        case 'n' => var ok := Literal("null"); return if ok then Some(Null) else None;
        case 't' => var ok := Literal("true"); return if ok then Some(Bool(true)) else None;
        case 'f' => var ok := Literal("false"); return if ok then Some(Bool(false)) else None;
        case '"' => var text := Text(); return if text.Some? then Some(Str(text.value)) else None;
        case '[' => r := Array(depth);
        case '{' => r := Object(depth);
        case _ => var n := Integer(); return if n.Some? then Some(Int(n.value)) else None;
      }
    }

    method Array(depth: nat) returns (r: Option<Value>)
      requires Valid() && Starts(Rest(), '[')
      modifies this
      ensures Valid()
      ensures if depth >= bounds.depth then r.None? else
                var inner := SkipBlanks(old(Rest())[1..]);
                if Starts(inner, ']') then r == Some(Arr([])) && Rest() == inner[1..] && nodes == old(nodes)
                else
                  match ReadItems(inner, [], depth + 1, old(nodes), bounds)
                  case Stop => r.None?
                  case Go(v, rest, count) => r == Some(v) && Rest() == rest && nodes == count
      decreases |source| - position, 0
    {
      if depth >= bounds.depth { return None; }
      position := position + 1;
      Whitespace();
      var items := [];
      var close := Consume(']');
      if close { return Some(Arr(items)); }
      ghost var inner := Rest();
      var more := true;
      while more
        invariant Valid() && position > old(position)
        invariant more ==> ReadItems(Rest(), items, depth + 1, nodes, bounds) == ReadItems(inner, [], depth + 1, old(nodes), bounds)
        invariant !more ==> ReadItems(inner, [], depth + 1, old(nodes), bounds).Stop?
        decreases more, |source| - position
      {
        Whitespace();
        var item := Value(depth + 1);
        if item.None? { return None; }
        items := items + [item.value];
        Whitespace();
        close := Consume(']');
        if close { return Some(Arr(items)); }
        more := Consume(',');
      }
      r := None;
    }

    method Object(depth: nat) returns (r: Option<Value>)
      requires Valid() && Starts(Rest(), '{')
      modifies this
      ensures Valid()
      ensures if depth >= bounds.depth then r.None? else
                var inner := SkipBlanks(old(Rest())[1..]);
                if Starts(inner, '}') then r == Some(Obj(map[])) && Rest() == inner[1..] && nodes == old(nodes)
                else
                  match ReadMembers(inner, map[], depth + 1, old(nodes), bounds)
                  case Stop => r.None?
                  case Go(v, rest, count) => r == Some(v) && Rest() == rest && nodes == count
      decreases |source| - position, 0
    {
      if depth >= bounds.depth { return None; }
      position := position + 1;
      Whitespace();
      var fields: map<string, Value> := map[];
      var close := Consume('}');
      if close { return Some(Obj(fields)); }
      ghost var inner := Rest();
      var more := true;
      while more
        invariant Valid() && position > old(position)
        invariant more ==> ReadMembers(Rest(), fields, depth + 1, nodes, bounds) == ReadMembers(inner, map[], depth + 1, old(nodes), bounds)
        invariant !more ==> ReadMembers(inner, map[], depth + 1, old(nodes), bounds).Stop?
        decreases more, |source| - position
      {
        var key := Key();
        if key.None? || key.value in fields { return None; }
        var item := Value(depth + 1);
        if item.None? { return None; }
        fields := fields[key.value := item.value];
        Whitespace();
        close := Consume('}');
        if close { return Some(Obj(fields)); }
        more := Consume(',');
      }
      r := None;
    }

    method Key() returns (r: Option<string>)
      requires Valid()
      modifies this
      ensures Valid()
      ensures match ReadKey(old(Rest()), old(nodes), bounds)
              case Stop => r.None?
              case Go(key, rest, count) => r == Some(key) && Rest() == rest && nodes == count
    {
      Whitespace();
      var room := Node();
      if !room { return None; }
      r := Text();
      if r.None? { return; }
      Whitespace();
      var colon := Consume(':');
      if !colon { return None; }
      Whitespace();
    }
  }

  class Serializer {
    const bounds: Limits
    var output: string
    var nodes: nat

    ghost predicate Valid()
      reads this
    {
      |output| <= bounds.documentBytes
    }

    constructor (bounds: Limits)
      ensures this.bounds == bounds && Valid() && output == "" && nodes == 0
    {
      this.bounds := bounds;
      output, nodes := "", 0;
    }

    method Node() returns (ok: bool)
      modifies this`nodes
      ensures nodes == old(nodes) + 1 && ok == (nodes <= bounds.nodes)
    {
      nodes := nodes + 1;
      ok := nodes <= bounds.nodes;
    }

    method Append(text: string) returns (ok: bool)
      requires Valid()
      modifies this`output
      ensures Valid() && ok == (|old(output)| + |text| <= bounds.documentBytes)
      ensures ok ==> output == old(output) + text
    {
      // The remaining room is a natural number: the unsigned subtraction cannot wrap.
      var remaining: nat := bounds.documentBytes - |output|;
      if |text| > remaining { return false; }
      output := output + text;
      ok := true;
    }

    /** Appends the scalar or escaped byte at `index`; `next` is the index after it. */
    method Unit(text: string, index: nat) returns (ok: bool, next: nat)
      requires Valid() && index < |text|
      modifies this`output
      ensures Valid()
      ensures ok == ((IsEscaped(text[index]) || Read(text[index..]).Some?)
                     && |old(output)| + |EscapeUnit(text[index..][..UnitWidth(text[index..])])| <= bounds.documentBytes)
      ensures ok ==> next == index + UnitWidth(text[index..])
                     && output == old(output) + EscapeUnit(text[index..][..UnitWidth(text[index..])])
    {
      hide Read;
      ghost var here := text[index..];
      if IsEscaped(text[index]) {
        ok := Append(EscapeSequence(text[index]));
        next := index + 1;
      } else {
        var width := Width(text, index);
        if width.None? { return false, index; }
        ReadIsEncode(here);
        next := index + width.value;
        assert here[..width.value] == text[index..next];
        ok := Append(text[index..next]);
      }
    }

    method Text(text: string) returns (ok: bool)
      requires Valid()
      modifies this`output
      ensures Valid()
      ensures ok == (StringFits(text, bounds) && |old(output)| + |StringText(text)| <= bounds.documentBytes)
      ensures ok ==> output == old(output) + StringText(text)
    {
      hide EscapeUnit, UnitWidth;
      if |text| > bounds.stringBytes { return false; }
      ok := Append("\"");
      if !ok { return; }
      ghost var whole := old(output) + StringText(text);
      var index := 0;
      assert text[0..] == text;
      while index < |text|
        invariant index <= |text| && Valid()
        invariant output + (Escape(text[index..]) + "\"") == whole
        invariant WellFormed(text) == WellFormed(text[index..])
      {
        ghost var here := text[index..];
        EscapeCons(here, "\"");
        WellFormedCons(here);
        ok, index := Unit(text, index);
        if !ok { return; }
        assert here[UnitWidth(here)..] == text[index..];
      }
      ok := Append("\"");
    }

    method Value(v: Value, depth: nat) returns (ok: bool)
      requires Valid()
      modifies this
      ensures Valid()
      ensures ok == (Fits(v, depth, bounds) && old(nodes) + Count(v) <= bounds.nodes
                     && |old(output)| + |ManagementJsonText.Text(v)| <= bounds.documentBytes)
      ensures ok ==> output == old(output) + ManagementJsonText.Text(v) && nodes == old(nodes) + Count(v)
      decreases v, 2
    {
      ok := Node();
      if !ok { return; }
      match v {
        case Null => ok := Append("null");
        case Bool(flag) => ok := Append(BoolText(flag));
        case Int(n) => ok := Append(IntText(n));
        case Str(s) => ok := Text(s);
        case Arr(_) => ok := Array(v, depth);
        case Obj(_) => ok := Object(v, depth);
      }
    }

    /** The comma before an item that is not the first, and the item. */
    method Item(v: Value, i: nat, depth: nat) returns (ok: bool)
      requires Valid() && v.Arr? && i < |v.items|
      modifies this
      ensures Valid()
      ensures ok == (Fits(v.items[i], depth, bounds) && old(nodes) + Count(v.items[i]) <= bounds.nodes
                     && |old(output)| + |ItemText(v, i)| <= bounds.documentBytes)
      ensures ok ==> output == old(output) + ItemText(v, i) && nodes == old(nodes) + Count(v.items[i])
      decreases v, 0
    {
      hide Fits, Count, ManagementJsonText.Text;
      if i > 0 {
        ok := Append(",");
        if !ok { return; }
      }
      ok := Value(v.items[i], depth);
    }

    method Array(v: Value, depth: nat) returns (ok: bool)
      requires Valid() && v.Arr? && nodes <= bounds.nodes
      modifies this
      ensures Valid()
      ensures ok == (Fits(v, depth, bounds) && old(nodes) + CountItems(v, 0) <= bounds.nodes
                     && |old(output)| + |ManagementJsonText.Text(v)| <= bounds.documentBytes)
      ensures ok ==> output == old(output) + ManagementJsonText.Text(v) && nodes == old(nodes) + CountItems(v, 0)
      decreases v, 1
    {
      hide Count, StringFits, ItemText;
      if depth >= bounds.depth { return false; }
      ghost var whole := old(output) + ManagementJsonText.Text(v);
      ArrayText(v);
      ok := Append("[");
      if !ok { return; }
      for i := 0 to |v.items|
        invariant Valid()
        invariant output + ItemsLeft(v, i) == whole
        invariant nodes + CountItems(v, i) == old(nodes) + CountItems(v, 0) && nodes <= bounds.nodes
        invariant forall j | 0 <= j < i :: Fits(v.items[j], depth + 1, bounds)
      {
        ghost var before := output;
        ItemsStep(v, i);
        ok := Item(v, i, depth + 1);
        if !ok { return; }
        Regroup(before, ItemText(v, i), ItemsLeft(v, i + 1));
      }
      ok := Append("]");
    }

    method Member(v: Value, key: string, depth: nat) returns (ok: bool)
      requires Valid() && v.Obj? && key in v.fields
      modifies this
      ensures Valid()
      ensures ok == (StringFits(key, bounds) && Fits(v.fields[key], depth, bounds)
                     && old(nodes) + 1 + Count(v.fields[key]) <= bounds.nodes
                     && |old(output)| + |MemberText(v, key)| <= bounds.documentBytes)
      ensures ok ==> output == old(output) + MemberText(v, key) && nodes == old(nodes) + 1 + Count(v.fields[key])
      decreases v, 0
    {
      hide Fits, Count, StringFits, StringText;
      ok := Node();
      if !ok { return; }
      ok := Text(key);
      if !ok { return; }
      ok := Append(":");
      if !ok { return; }
      ok := Value(v.fields[key], depth);
    }

    method Object(v: Value, depth: nat) returns (ok: bool)
      requires Valid() && v.Obj? && nodes <= bounds.nodes
      modifies this
      ensures Valid()
      ensures ok == (Fits(v, depth, bounds) && old(nodes) + CountMembers(v, v.fields.Keys) <= bounds.nodes
                     && |old(output)| + |ManagementJsonText.Text(v)| <= bounds.documentBytes)
      ensures ok ==> output == old(output) + ManagementJsonText.Text(v)
                     && nodes == old(nodes) + CountMembers(v, v.fields.Keys)
      decreases v, 1
    {
      hide Count, StringFits, First, MemberText;
      if depth >= bounds.depth { return false; }
      ghost var whole := old(output) + ManagementJsonText.Text(v);
      ok := Append("{");
      assert whole == (old(output) + "{") + MembersLeft(v, v.fields.Keys, true);
      if !ok { return; }
      var keys, first := v.fields.Keys, true;
      while keys != {}
        invariant Valid() && keys <= v.fields.Keys && (first <==> keys == v.fields.Keys)
        invariant output + MembersLeft(v, keys, first) == whole
        invariant nodes + CountMembers(v, keys) == old(nodes) + CountMembers(v, v.fields.Keys) && nodes <= bounds.nodes
        invariant forall key | key in v.fields.Keys - keys :: StringFits(key, bounds) && Fits(v.fields[key], depth + 1, bounds)
        decreases keys
      {
        var key := First(keys);
        if !first {
          ok := Append(",");
          if !ok { return; }
        }
        first := false;
        ghost var before := output;
        assert before + MembersText(v, keys) == whole;
        ok := Member(v, key, depth + 1);
        if !ok { return; }
        Regroup(before, MemberText(v, key), MembersLeft(v, keys - {key}, false));
        keys := keys - {key};
      }
      ok := Append("}");
    }
  }

  lemma WellFormedCons(s: string)
    requires s != ""
    ensures WellFormed(s) == ((IsEscaped(s[0]) || Read(s).Some?) && WellFormed(s[UnitWidth(s)..]))
  {
    if Read(s).Some? { ReadIsEncode(s); }
  }

  ghost function ItemText(v: Value, i: nat): string
    requires v.Arr? && i < |v.items|
  {
    (if i > 0 then "," else "") + ManagementJsonText.Text(v.items[i])
  }

  /** What an array still needs when `i` items are written. */
  ghost function ItemsLeft(v: Value, i: nat): string
    requires v.Arr? && i <= |v.items|
  {
    if i == |v.items| then "]" else (if i > 0 then "," else "") + ItemsText(v, i)
  }

  lemma ArrayText(v: Value)
    requires v.Arr?
    ensures ManagementJsonText.Text(v) == "[" + ItemsLeft(v, 0)
  {
    if v.items != [] { assert "" + ItemsText(v, 0) == ItemsText(v, 0); }
  }

  lemma ItemsStep(v: Value, i: nat)
    requires v.Arr? && i < |v.items|
    ensures ItemsLeft(v, i) == ItemText(v, i) + ItemsLeft(v, i + 1)
  {
    var comma := if i > 0 then "," else "";
    Regroup(comma, ManagementJsonText.Text(v.items[i]), ItemsLeft(v, i + 1));
  }

  /** What an object still needs when the members under `keys` are not written. */
  ghost function MembersLeft(v: Value, keys: set<string>, first: bool): string
    requires v.Obj? && keys <= v.fields.Keys
  {
    if keys == {} then "}" else (if first then "" else ",") + MembersText(v, keys)
  }

  /** Parses a whole document within the limits. */
  method Parse(document: string, bounds: Limits) returns (r: Option<Value>)
    ensures r == ReadDocument(document, bounds)
  {
    hide ReadValue, SkipBlanks;
    if !ValidLimits(bounds) || |document| > bounds.documentBytes { return None; }
    var p := new Parser(document, bounds);
    r := p.Document();
  }

  /** Writes the canonical text of a value, exactly when the limits admit it. */
  method Serialize(v: Value, bounds: Limits) returns (r: Option<string>)
    ensures r == if Serializable(v, bounds) then Some(ManagementJsonText.Text(v)) else None
  {
    if !ValidLimits(bounds) { return None; }
    var s := new Serializer(bounds);
    var ok := s.Value(v, 0);
    assert "" + ManagementJsonText.Text(v) == ManagementJsonText.Text(v);
    r := if ok then Some(s.output) else None;
  }
}
