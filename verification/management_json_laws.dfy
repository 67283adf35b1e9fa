/**
 The two halves of the codec undo each other: canonical text is read back as the
 value it was written from, and whatever is read can be written under the same
 limits, in no more bytes.
 */
module ManagementJsonLaws {
  import opened Wrappers
  import opened Utf8
  import opened ManagementJsonText
  import opened ManagementJsonGrammar
  import opened ManagementJsonScalars

  // ----- Written values are read back -----

  lemma TextStart(v: Value)
    ensures Text(v) != "" && !IsBlank(Text(v)[0]) && Text(v)[0] != ']'
  {
    if v.Int? { NatTextIsDecimal(if v.number < 0 then -(v.number as int) else v.number); assert IsDigit(NatText(if v.number < 0 then -(v.number as int) else v.number)[0]); }
  }

  lemma ItemsStart(v: Value)
    requires v.Arr? && v.items != []
    ensures ItemsText(v, 0) != "" && !IsBlank(ItemsText(v, 0)[0]) && ItemsText(v, 0)[0] != ']'
  {
    TextStart(v.items[0]);
  }

  lemma MembersStart(v: Value, keys: set<string>)
    requires v.Obj? && keys != {} && keys <= v.fields.Keys
    ensures MembersText(v, keys) != "" && MembersText(v, keys)[0] == '"'
  {
    var key := First(keys);
    assert MemberText(v, key)[0] == '"';
  }

  lemma ScalarIsRead(v: Value, rest: string, depth: nat, nodes: nat, b: Limits)
    requires !v.Arr? && !v.Obj? && Fits(v, depth, b) && nodes + 1 <= b.nodes && Delimited(rest)
    ensures ReadValue(Text(v) + rest, depth, nodes, b) == Go(v, rest, nodes + 1)
  {
    hide ReadInteger, ReadString, ReadItems, ReadMembers;
    var s := Text(v) + rest;
    match v
    case Null => assert "null" <= s && s[4..] == rest;
    case Bool(flag) => assert BoolText(flag) <= s && s[|BoolText(flag)|..] == rest;
    case Int(n) =>
      IntegerIsRead(n, rest);
      NatTextIsDecimal(if n < 0 then -(n as int) else n);
      assert s[0] == '-' || IsDigit(s[0]);
    case Str(text) =>
      StringIsRead(text, rest, b);
  }

  lemma {:induction false} ValueIsRead(v: Value, rest: string, depth: nat, nodes: nat, b: Limits)
    requires Fits(v, depth, b) && nodes + Count(v) <= b.nodes && Delimited(rest)
    ensures ReadValue(Text(v) + rest, depth, nodes, b) == Go(v, rest, nodes + Count(v))
    decreases v, 1, 0
  {
    match v
    case Arr(_) => ArrayIsRead(v, rest, depth, nodes, b);
    case Obj(_) => ObjectIsRead(v, rest, depth, nodes, b);
    case _ => ScalarIsRead(v, rest, depth, nodes, b);
  }

  lemma {:induction false} ArrayIsRead(v: Value, rest: string, depth: nat, nodes: nat, b: Limits)
    requires v.Arr? && Fits(v, depth, b) && nodes + Count(v) <= b.nodes
    ensures ReadValue(Text(v) + rest, depth, nodes, b) == Go(v, rest, nodes + Count(v))
    decreases v, 0, |v.items| + 1
  {
    hide ItemsText, ReadItems, ReadInteger, ReadString;
    var s := Text(v) + rest;
    if v.items == [] {
      assert s[1..] == "]" + rest && ("]" + rest)[1..] == rest;
    } else {
      assert s[1..] == ItemsText(v, 0) + rest;
      ItemsStart(v);
      ItemsAreRead(v, 0, rest, depth + 1, nodes + 1, b);
      assert v.items[..0] == [];
    }
  }

  lemma EmptyObjectIsRead(v: Value, rest: string, depth: nat, nodes: nat, b: Limits)
    requires v == Obj(map[]) && Fits(v, depth, b) && nodes + Count(v) <= b.nodes
    ensures ReadValue(Text(v) + rest, depth, nodes, b) == Go(v, rest, nodes + Count(v))
  {
    var s := Text(v) + rest;
    assert s[1..] == "}" + rest && ("}" + rest)[1..] == rest;
  }

  lemma {:induction false} ObjectIsRead(v: Value, rest: string, depth: nat, nodes: nat, b: Limits)
    requires v.Obj? && Fits(v, depth, b) && nodes + Count(v) <= b.nodes
    ensures ReadValue(Text(v) + rest, depth, nodes, b) == Go(v, rest, nodes + Count(v))
    decreases v, 0, |v.fields| + 1
  {
    hide MembersText, ReadMembers, ReadInteger, ReadString, CountMembers, StringFits;
    var m := v.fields;
    var s := Text(v) + rest;
    if m == map[] {
      EmptyObjectIsRead(v, rest, depth, nodes, b);
    } else {
      assert s[1..] == MembersText(v, m.Keys) + rest;
      MembersStart(v, m.Keys);
      MembersAreRead(v, m.Keys, rest, depth + 1, nodes + 1, b);
      assert m - m.Keys == map[];
    }
  }

  lemma {:induction false} ItemsAreRead(v: Value, i: nat, rest: string, depth: nat, nodes: nat, b: Limits)
    requires v.Arr? && i < |v.items| && nodes + CountItems(v, i) <= b.nodes
    requires forall j | 0 <= j < |v.items| :: Fits(v.items[j], depth, b)
    ensures ReadItems(ItemsText(v, i) + rest, v.items[..i], depth, nodes, b) == Go(v, rest, nodes + CountItems(v, i))
    decreases v, 0, |v.items| - i
  {
    hide ReadValue, Text, Count, Fits;
    var item := v.items[i];
    var more := (if i + 1 == |v.items| then "]" else "," + ItemsText(v, i + 1)) + rest;
    var s := ItemsText(v, i) + rest;
    assert s == Text(item) + more;
    TextStart(item);
    ValueIsRead(item, more, depth, nodes, b);
    assert v.items[..i] + [item] == v.items[..i + 1];
    if i + 1 == |v.items| {
      assert more[1..] == rest && v.items[..i + 1] == v.items;
    } else {
      assert more[1..] == ItemsText(v, i + 1) + rest;
      ItemsAreRead(v, i + 1, rest, depth, nodes + Count(item), b);
    }
  }

  lemma KeyIsRead(key: string, more: string, nodes: nat, b: Limits)
    requires StringFits(key, b) && nodes + 1 <= b.nodes && more != "" && !IsBlank(more[0])
    ensures ReadKey(StringText(key) + ":" + more, nodes, b) == Go(key, more, nodes + 1)
  {
    assert StringText(key) + ":" + more == StringText(key) + (":" + more);
    StringIsRead(key, ":" + more, b);
    assert (":" + more)[1..] == more;
  }

  lemma {:induction false} MembersAreRead(v: Value, keys: set<string>, rest: string, depth: nat, nodes: nat, b: Limits)
    requires v.Obj? && keys != {} && keys <= v.fields.Keys && nodes + CountMembers(v, keys) <= b.nodes
    requires forall key | key in v.fields :: StringFits(key, b) && Fits(v.fields[key], depth, b)
    ensures ReadMembers(MembersText(v, keys) + rest, v.fields - keys, depth, nodes, b)
         == Go(v, rest, nodes + CountMembers(v, keys))
    decreases v, 0, |keys|
  {
    hide ReadValue, ReadKey, Text, StringText, Count, Fits, First;
    var key := First(keys);
    var item := v.fields[key];
    var last := keys == {key};
    var more := (if last then "}" else "," + MembersText(v, keys - {key})) + rest;
    var afterKey := Text(item) + more;
    assert MembersText(v, keys) + rest == StringText(key) + ":" + afterKey;
    TextStart(item);
    KeyIsRead(key, afterKey, nodes, b);
    ValueIsRead(item, more, depth, nodes + 1, b);
    assert (v.fields - keys)[key := item] == v.fields - (keys - {key});
    if last {
      assert more[1..] == rest && v.fields - {} == v.fields;
    } else {
      assert more[1..] == MembersText(v, keys - {key}) + rest;
      MembersAreRead(v, keys - {key}, rest, depth, nodes + 1 + Count(item), b);
    }
  }

  /** Parsing what was serialized under the same limits returns the same value. */
  lemma ParseAfterSerialize(v: Value, b: Limits)
    requires Serializable(v, b)
    ensures ReadDocument(Text(v), b) == Some(v)
  {
    TextStart(v);
    ValueIsRead(v, "", 0, 0, b);
    assert Text(v) + "" == Text(v);
  }

  /** Different values have different canonical texts. */
  lemma SerializeIsInjective(v: Value, w: Value, b: Limits)
    requires Serializable(v, b) && Serializable(w, b) && Text(v) == Text(w)
    ensures v == w
  {
    ParseAfterSerialize(v, b);
    ParseAfterSerialize(w, b);
  }

  // ----- Values that are read can be written -----

  /** Members may be taken out in any order without changing the size or the count. */
  lemma {:induction false} MembersWithout(v: Value, keys: set<string>, key: string)
    requires v.Obj? && key in keys && keys <= v.fields.Keys
    ensures CountMembers(v, keys) == 1 + Count(v.fields[key]) + CountMembers(v, keys - {key})
    ensures |MembersText(v, keys)| == |MemberText(v, key)| + 1
                                      + if keys == {key} then 0 else |MembersText(v, keys - {key})|
    decreases |keys|
  {
    hide Count, MemberText;
    var first := First(keys);
    if first != key {
      var rest := keys - {first};
      MembersWithout(v, rest, key);
      FirstIsUnique(first, keys - {key});
      assert rest - {key} == keys - {key} - {first};
      assert keys - {key} == {first} <==> rest == {key};
    }
  }

  ghost predicate Written(v: Value, depth: nat, nodes: nat, counted: nat, taken: int, b: Limits) {
    Fits(v, depth, b) && counted == nodes + Count(v) <= b.nodes && |Text(v)| <= taken
  }

  lemma {:induction false} ReadValueIsWritten(s: string, depth: nat, nodes: nat, b: Limits)
    requires ReadValue(s, depth, nodes, b).Go?
    ensures var Go(v, rest, counted) := ReadValue(s, depth, nodes, b);
            Written(v, depth, nodes, counted, |s| - |rest|, b)
    decreases |s|, 0
  {
    hide ItemsText, MembersText, ReadItems, ReadMembers, ReadInteger, ReadString;
    match s[0]
    case '"' => ReadStringFits(s, b);
    case '[' =>
      var inner := SkipBlanks(s[1..]);
      if !Starts(inner, ']') { ReadItemsIsWritten(inner, [], depth + 1, nodes + 1, b); }
    case '{' =>
      var inner := SkipBlanks(s[1..]);
      if !Starts(inner, '}') {
        var none: map<string, Value> := map[];
        ReadMembersIsWritten(inner, none, depth + 1, nodes + 1, b);
        var v := ReadValue(s, depth, nodes, b).value;
        assert v.fields.Keys - none.Keys == v.fields.Keys && v.fields != none;
      }
    case 'n' =>
    case 't' =>
    case 'f' =>
    case _ => ReadIntegerFits(s);
  }

  lemma {:induction false} ReadItemsIsWritten(s: string, items: seq<Value>, depth: nat, nodes: nat, b: Limits)
    requires ReadItems(s, items, depth, nodes, b).Go?
    ensures var Go(v, rest, counted) := ReadItems(s, items, depth, nodes, b);
            && v.Arr? && |items| < |v.items| && v.items[..|items|] == items
            && (forall i | |items| <= i < |v.items| :: Fits(v.items[i], depth, b))
            && counted == nodes + CountItems(v, |items|) <= b.nodes
            && |ItemsText(v, |items|)| <= |s| - |rest|
    decreases |s|, 1
  {
    hide ReadValue, Text, Count, Fits;
    ReadValueIsWritten(SkipBlanks(s), depth, nodes, b);
    var Go(item, rest, count) := ReadValue(SkipBlanks(s), depth, nodes, b);
    var next := SkipBlanks(rest);
    var all := items + [item];
    assert all[..|items|] == items;
    if !Starts(next, ']') {
      ReadItemsIsWritten(next[1..], all, depth, count, b);
      var v := ReadItems(s, items, depth, nodes, b).value;
      assert v.items[|items|] == v.items[..|all|][|items|] == item;
      assert v.items[..|items|] == v.items[..|all|][..|items|];
    }
  }

  lemma ReadKeyIsWritten(s: string, nodes: nat, b: Limits)
    requires ReadKey(s, nodes, b).Go?
    ensures var Go(key, rest, counted) := ReadKey(s, nodes, b);
            StringFits(key, b) && |StringText(key)| + 1 <= |s| - |rest| && counted == nodes + 1 <= b.nodes
  {
    ReadStringFits(SkipBlanks(s), b);
  }

  lemma {:induction false} ReadMembersIsWritten(s: string, fields: map<string, Value>, depth: nat, nodes: nat, b: Limits)
    requires ReadMembers(s, fields, depth, nodes, b).Go?
    ensures var Go(v, rest, counted) := ReadMembers(s, fields, depth, nodes, b);
            && v.Obj? && fields.Keys < v.fields.Keys && (forall key | key in fields :: v.fields[key] == fields[key])
            && var added := v.fields.Keys - fields.Keys;
            && added != {}
            && (forall key | key in added :: StringFits(key, b) && Fits(v.fields[key], depth, b))
            && counted == nodes + CountMembers(v, added) <= b.nodes
            && |MembersText(v, added)| <= |s| - |rest|
    decreases |s|, 1
  {
    hide ReadValue, ReadKey, Text, StringText, Count, CountMembers, MembersText, Fits, StringFits;
    ReadKeyIsWritten(s, nodes, b);
    var Go(key, afterKey, keyCount) := ReadKey(s, nodes, b);
    ReadValueIsWritten(afterKey, depth, keyCount, b);
    var Go(item, rest, count) := ReadValue(afterKey, depth, keyCount, b);
    var next := SkipBlanks(rest);
    var all := fields[key := item];
    var v := ReadMembers(s, fields, depth, nodes, b).value;
    if !Starts(next, '}') {
      ReadMembersIsWritten(next[1..], all, depth, count, b);
      assert v.fields[key] == all[key];
    }
    var added := v.fields.Keys - fields.Keys;
    assert key in added && added - {key} == v.fields.Keys - all.Keys;
    MembersWithout(v, added, key);
    if Starts(next, '}') {
      assert added - {key} == {};
      NothingCounts(v);
    }
  }

  lemma NothingCounts(v: Value)
    requires v.Obj?
    ensures CountMembers(v, {}) == 0
  {
  }

  /** Normalising is total and never grows: what was parsed serializes, no longer, and parses to the same value. */
  lemma SerializeAfterParse(d: string, b: Limits)
    requires ReadDocument(d, b).Some?
    ensures var v := ReadDocument(d, b).value;
            Serializable(v, b) && |Text(v)| <= |d| && ReadDocument(Text(v), b) == Some(v)
  {
    ReadValueIsWritten(SkipBlanks(d), 0, 0, b);
    ParseAfterSerialize(ReadDocument(d, b).value, b);
  }
}
