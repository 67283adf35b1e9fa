/**
 UTF-16 in little-endian byte order (RFC 2781 sections 2.1 and 2.2), and
 strings that end at the first zero unit.
 */
module Utf16 {
  import opened Wrappers
  import opened LittleEndian
  import opened Utf8

  type Points = seq<ScalarValue>

  function UnitAt(s: string): (n: int)
    requires |s| >= 2
    ensures 0 <= n < 65536
  {
    Byte(s[0]) + 256 * Byte(s[1])
  }

  lemma UnitIsRead(n: int, rest: string)
    requires 0 <= n < 65536
    ensures |Unit(n) + rest| >= 2 && UnitAt(Unit(n) + rest) == n && (Unit(n) + rest)[2..] == rest
  {
  }

  function Encode(point: int): string
    requires 0 <= point <= 0x10ffff
  {
    if point > 0xffff then Unit(0xd800 + (point - 0x10000) / 1024) + Unit(0xdc00 + (point - 0x10000) % 1024)
    else Unit(point)
  }

  function EncodeAll(points: Points): string {
    if points == [] then "" else Encode(points[0]) + EncodeAll(points[1..])
  }

  predicate High(u: int) { 0xd800 <= u < 0xdc00 }

  predicate Low(u: int) { 0xdc00 <= u < 0xe000 }

  function Pair(high: int, low: int): (point: int)
    requires High(high) && Low(low)
    ensures 0x10000 <= point <= 0x10ffff
  {
    0x10000 + (high - 0xd800) * 1024 + (low - 0xdc00)
  }

  /** The scalar at the start and the bytes it takes: surrogates must come in pairs. */
  function Read(s: string): Option<Scalar>
    requires s != ""
  {
    if |s| < 2 then None
    else if !High(UnitAt(s)) && !Low(UnitAt(s)) then Some(Scalar(UnitAt(s), 2))
    else if High(UnitAt(s)) && |s| >= 4 && Low(UnitAt(s[2..])) then Some(Scalar(Pair(UnitAt(s), UnitAt(s[2..])), 4))
    else None
  }

  function Decode(s: string): Option<Points>
    decreases |s|
  {
    if s == "" then Some([])
    else
      match Read(s)
      case None => None
      case Some(scalar) =>
        match Decode(s[scalar.width..])
        case None => None
        case Some(more) => Some([scalar.point] + more)
  }

  lemma EncodeIsRead(point: int, rest: string)
    requires IsScalar(point)
    ensures Encode(point) + rest != "" && Read(Encode(point) + rest) == Some(Scalar(point, |Encode(point)|))
  {
    if point > 0xffff {
      var high, low := 0xd800 + (point - 0x10000) / 1024, 0xdc00 + (point - 0x10000) % 1024;
      assert Encode(point) + rest == Unit(high) + (Unit(low) + rest);
      UnitIsRead(high, Unit(low) + rest);
      UnitIsRead(low, rest);
      assert Pair(high, low) == point;
    } else {
      UnitIsRead(point, rest);
    }
  }

  lemma {:induction false} DecodeAfterEncode(points: Points)
    ensures Decode(EncodeAll(points)) == Some(points)
  {
    hide Read, Encode;
    if points != [] {
      var rest := EncodeAll(points[1..]);
      EncodeIsRead(points[0], rest);
      assert (Encode(points[0]) + rest)[|Encode(points[0])|..] == rest;
      DecodeAfterEncode(points[1..]);
      assert EncodeAll(points) == Encode(points[0]) + rest;
      assert [points[0]] + points[1..] == points;
    }
  }

  /** What is read as a scalar is its own encoding. */
  lemma ReadIsEncode(s: string)
    requires s != "" && AllBytes(s) && Read(s).Some?
    ensures Read(s).value.width <= |s| && Encode(Read(s).value.point) == s[..Read(s).value.width]
  {
    hide Unit;
    UnitOfBytes(s[0], s[1]);
    if Read(s).value.width == 4 { PairIsEncode(s); }
  }

  lemma PairIsEncode(s: string)
    requires |s| >= 4 && AllBytes(s) && High(UnitAt(s)) && Low(UnitAt(s[2..]))
    ensures Encode(Pair(UnitAt(s), UnitAt(s[2..]))) == s[..4]
  {
    hide Unit;
    UnitOfBytes(s[0], s[1]);
    UnitOfBytes(s[2], s[3]);
    assert s[2..][0] == s[2] && s[2..][1] == s[3];
    var high, low := UnitAt(s), UnitAt(s[2..]);
    Halved(high - 0xd800, low - 0xdc00);
    assert s[..4] == [s[0], s[1]] + [s[2], s[3]];
  }

  lemma Halved(high: int, low: int)
    requires 0 <= low < 1024
    ensures (high * 1024 + low) / 1024 == high && (high * 1024 + low) % 1024 == low
  {
  }

  /** Decoding is strict: whatever decodes is the encoding of what it decodes to. */
  lemma {:induction false} EncodeAfterDecode(s: string)
    requires AllBytes(s) && Decode(s).Some?
    ensures EncodeAll(Decode(s).value) == s
    decreases |s|
  {
    hide Read, Encode;
    if s != "" {
      ReadIsEncode(s);
      var rest := s[Read(s).value.width..];
      EncodeAfterDecode(rest);
      assert s == s[..Read(s).value.width] + rest;
      assert Decode(s).value[1..] == Decode(rest).value;
    }
  }

  /** A terminated string is the encoding of its text, a zero unit, and what follows. */
  lemma TerminatedIsEncoded(s: string)
    requires AllBytes(s) && ReadTerminated(s).Some?
    ensures var t := ReadTerminated(s).value; s == EncodeAll(t.text) + Unit(0) + t.rest && AllBytes(t.rest) && 0 !in t.text
  {
    hide Decode, EncodeAll;
    var k := Terminator(s).value;
    TerminatorIsZero(s);
    EncodeAfterDecode(s[..k]);
    ReadHasNoZero(s);
    assert s == s[..k] + s[k..k + 2] + s[k + 2..];
  }

  lemma {:induction false} TerminatorIsZero(s: string)
    requires AllBytes(s) && Terminator(s).Some?
    ensures s[Terminator(s).value..Terminator(s).value + 2] == Unit(0)
    decreases |s|
  {
    var k := Terminator(s).value;
    if k == 0 {
      assert s[0] as int == 0 && s[1] as int == 0;
    } else {
      TerminatorIsZero(s[2..]);
      assert s[2..][k - 2..k] == s[k..k + 2];
    }
  }

  lemma {:induction false} EncodeConcat(a: Points, b: Points)
    ensures EncodeAll(a + b) == EncodeAll(a) + EncodeAll(b)
    decreases |a|
  {
    if a == [] {
      assert a + b == b;
    } else {
      assert (a + b)[0] == a[0] && (a + b)[1..] == a[1..] + b;
      EncodeConcat(a[1..], b);
    }
  }

  lemma ZeroIsEncoded()
    ensures EncodeAll([0]) == Unit(0)
  {
    assert [0 as ScalarValue][1..] == [];
  }

  // ----- Strings ended by a zero unit -----

  /** The offset of the first zero unit. */
  function Terminator(s: string): (r: Option<nat>)
    ensures r.Some? ==> r.value + 2 <= |s|
    decreases |s|
  {
    if |s| < 2 then None
    else if UnitAt(s) == 0 then Some(0)
    else match Terminator(s[2..]) case None => None case Some(k) => Some(k + 2)
  }

  datatype Terminated = Terminated(text: Points, rest: string)

  function ReadTerminated(s: string): (r: Option<Terminated>)
    ensures r.Some? ==> |r.value.rest| < |s|
  {
    match Terminator(s)
    case None => None
    case Some(k) => match Decode(s[..k]) case None => None case Some(text) => Some(Terminated(text, s[k + 2..]))
  }

  lemma SkipsUnit(n: int, rest: string)
    requires 0 < n < 65536
    ensures Terminator(Unit(n) + rest) == match Terminator(rest) case None => None case Some(k) => Some(k + 2)
  {
    UnitIsRead(n, rest);
  }

  lemma SkipsScalar(point: int, rest: string)
    requires IsScalar(point) && point != 0
    ensures Terminator(Encode(point) + rest) == match Terminator(rest) case None => None case Some(k) => Some(k + |Encode(point)|)
  {
    hide Terminator;
    if point > 0xffff {
      var high, low := 0xd800 + (point - 0x10000) / 1024, 0xdc00 + (point - 0x10000) % 1024;
      assert Encode(point) + rest == Unit(high) + (Unit(low) + rest);
      SkipsUnit(high, Unit(low) + rest);
      SkipsUnit(low, rest);
    } else {
      SkipsUnit(point, rest);
    }
  }

  lemma {:induction false} EndsAtTerminator(text: Points, rest: string)
    requires 0 !in text
    ensures Terminator(EncodeAll(text) + Unit(0) + rest) == Some(|EncodeAll(text)|)
  {
    if text == [] {
      assert EncodeAll(text) + Unit(0) + rest == Unit(0) + rest;
    } else {
      hide Terminator, Encode;
      EndsAtTerminator(text[1..], rest);
      var after := EncodeAll(text[1..]) + Unit(0) + rest;
      assert EncodeAll(text) + Unit(0) + rest == Encode(text[0]) + after;
      SkipsScalar(text[0], after);
    }
  }

  /** A text without zeros is read back from its terminated form, whatever follows. */
  lemma TerminatedIsRead(text: Points, rest: string)
    requires 0 !in text
    ensures ReadTerminated(EncodeAll(text) + Unit(0) + rest) == Some(Terminated(text, rest))
  {
    hide Terminator, Decode;
    var s := EncodeAll(text) + Unit(0) + rest;
    EndsAtTerminator(text, rest);
    DecodeAfterEncode(text);
    assert s[..|EncodeAll(text)|] == EncodeAll(text);
    assert s[|EncodeAll(text)| + 2..] == rest;
  }

  /** What is read from a terminated string has no zeros. */
  lemma {:induction false} ReadHasNoZero(s: string)
    requires ReadTerminated(s).Some?
    ensures 0 !in ReadTerminated(s).value.text
  {
    var k := Terminator(s).value;
    NoZeroBefore(s, k);
  }

  lemma {:induction false} NoZeroBefore(s: string, k: nat)
    requires Terminator(s) == Some(k) && Decode(s[..k]).Some?
    ensures 0 !in Decode(s[..k]).value
    decreases |s|
  {
    if k > 0 {
      assert s != "" && k >= 2 && Terminator(s[2..]) == Some((k - 2) as nat);
      var t := s[..k];
      var scalar := Read(t).value;
      assert t[2..] == s[2..][..k - 2];
      if scalar.width == 4 {
        assert UnitAt(t[2..]) != 0;
        assert t[4..] == s[2..][2..][..k - 4] && s[4..] == s[2..][2..];
        NoZeroBefore(s[4..], k - 4);
      } else {
        NoZeroBefore(s[2..], k - 2);
      }
    }
  }
}
