/**
 UTF-8 as the Agent reads and writes it (RFC 3629 section 4).

 Byte strings are `string` values: one `char` for each byte, compared as an
 unsigned value. A character above 255 stands for no byte; it fails the same
 tests that reject a bad lead or continuation byte.

 Bit operations of the source are written arithmetically: `x & 0x3f` is
 `x % 64`, `x >> 6` is `x / 64`, `(x & 0xc0) == 0x80` is `0x80 <= x < 0xc0`,
 and `0xc0 | y` is `0xc0 + y` where the bits are disjoint.
 */
module Utf8 {
  import opened Wrappers

  /** A scalar value together with the number of bytes it was read from. */
  datatype Scalar = Scalar(point: int, width: nat)

  predicate IsScalar(point: int) {
    0 <= point < 0xd800 || 0xe000 <= point <= 0x10ffff
  }

  type ScalarValue = point: int | IsScalar(point)

  predicate IsContinuation(c: char) {
    0x80 <= c as int < 0xc0
  }

  /** The shortest-form bytes of a code point. */
  function Encode(point: int): string
    requires 0 <= point <= 0x10ffff
  {
    if point <= 0x7f then
      [point as char]
    else if point <= 0x7ff then
      [(0xc0 + point / 64) as char, (0x80 + point % 64) as char]
    else if point <= 0xffff then
      [(0xe0 + point / 4096) as char, (0x80 + point / 64 % 64) as char, (0x80 + point % 64) as char]
    else
      [(0xf0 + point / 262144) as char, (0x80 + point / 4096 % 64) as char,
       (0x80 + point / 64 % 64) as char, (0x80 + point % 64) as char]
  }

  /** Folds continuation bytes into the bits taken from the lead byte. */
  function Accumulate(lead: int, tail: string): Option<int>
    decreases |tail|
  {
    if tail == "" then Some(lead)
    else if !IsContinuation(tail[0]) then None
    else Accumulate(lead * 64 + tail[0] as int % 64, tail[1..])
  }

  function ReadWide(s: string, lead: int, width: nat, minimum: int): Option<Scalar>
    requires width > 0
  {
    if |s| < width then None
    else
      match Accumulate(lead, s[1..width])
      case None => None
      case Some(point) =>
        if point < minimum || point > 0x10ffff || 0xd800 <= point <= 0xdfff then None
        else Some(Scalar(point, width))
  }

  /** The shortest-form scalar at the start of `s`, if there is one. */
  function Read(s: string): Option<Scalar> {
    if s == "" then None
    else
      var first := s[0] as int;
      if first < 0x80 then Some(Scalar(first, 1))
      else if 0xc2 <= first <= 0xdf then ReadWide(s, first % 32, 2, 0x80)
      else if 0xe0 <= first <= 0xef then ReadWide(s, first % 16, 3, 0x800)
      else if 0xf0 <= first <= 0xf4 then ReadWide(s, first % 8, 4, 0x10000)
      else None
  }

  predicate WellFormed(s: string)
    decreases |s|
  {
    s == "" || (Read(s).Some? && 0 < Read(s).value.width <= |s| && WellFormed(s[Read(s).value.width..]))
  }

  function EncodeAll(points: seq<ScalarValue>): string
  {
    if points == [] then "" else Encode(points[0]) + EncodeAll(points[1..])
  }

  lemma AccumulateOne(lead: int, a: char)
    ensures Accumulate(lead, [a]) == if IsContinuation(a) then Some(lead * 64 + a as int % 64) else None
  {
    assert [a][1..] == "";
  }

  lemma AccumulateTwo(lead: int, a: char, b: char)
    ensures Accumulate(lead, [a, b]) ==
            if IsContinuation(a) && IsContinuation(b)
            then Some(lead * 4096 + a as int % 64 * 64 + b as int % 64) else None
  {
    assert [a, b][1..] == [b];
    AccumulateOne(lead * 64 + a as int % 64, b);
  }

  lemma AccumulateThree(lead: int, a: char, b: char, c: char)
    ensures Accumulate(lead, [a, b, c]) ==
            if IsContinuation(a) && IsContinuation(b) && IsContinuation(c)
            then Some(lead * 262144 + a as int % 64 * 4096 + b as int % 64 * 64 + c as int % 64) else None
  {
    assert [a, b, c][1..] == [b, c];
    AccumulateTwo(lead * 64 + a as int % 64, b, c);
  }

  lemma ReadTwo(a: char, b: char, rest: string)
    requires 0xc2 <= a as int <= 0xdf
    ensures Read([a, b] + rest) ==
            if IsContinuation(b) then Some(Scalar((a as int - 0xc0) * 64 + (b as int - 0x80), 2)) else None
  {
    var s := [a, b] + rest;
    assert s[1..2] == [b];
    AccumulateOne(a as int % 32, b);
    assert Read(s) == ReadWide(s, a as int % 32, 2, 0x80);
  }

  lemma ReadThree(a: char, b: char, c: char, rest: string)
    requires 0xe0 <= a as int <= 0xef
    ensures var point := (a as int - 0xe0) * 4096 + (b as int - 0x80) * 64 + (c as int - 0x80);
            Read([a, b, c] + rest) ==
            if IsContinuation(b) && IsContinuation(c) && 0x800 <= point && IsScalar(point)
            then Some(Scalar(point, 3)) else None
  {
    var s := [a, b, c] + rest;
    assert s[1..3] == [b, c];
    AccumulateTwo(a as int % 16, b, c);
    assert Read(s) == ReadWide(s, a as int % 16, 3, 0x800);
  }

  lemma ReadFour(a: char, b: char, c: char, d: char, rest: string)
    requires 0xf0 <= a as int <= 0xf4
    ensures var point := (a as int - 0xf0) * 262144 + (b as int - 0x80) * 4096 + (c as int - 0x80) * 64 + (d as int - 0x80);
            Read([a, b, c, d] + rest) ==
            if IsContinuation(b) && IsContinuation(c) && IsContinuation(d) && 0x10000 <= point && IsScalar(point)
            then Some(Scalar(point, 4)) else None
  {
    var s := [a, b, c, d] + rest;
    assert s[1..4] == [b, c, d];
    AccumulateThree(a as int % 8, b, c, d);
    assert a as int % 8 == a as int - 0xf0;
    assert forall x {:trigger IsContinuation(x)} :: IsContinuation(x) ==> x as int % 64 == x as int - 0x80;
    hide IsContinuation;
    assert Read(s) == ReadWide(s, a as int % 8, 4, 0x10000);
  }

  lemma SixBitDigits(x: nat, y: nat, z: nat, w: nat)
    requires y < 64 && z < 64 && w < 64
    ensures (x * 64 + y) / 64 == x && (x * 64 + y) % 64 == y
    ensures (x * 4096 + y * 64 + z) / 4096 == x && (x * 4096 + y * 64 + z) / 64 == x * 64 + y
    ensures (x * 262144 + y * 4096 + z * 64 + w) / 262144 == x
    ensures (x * 262144 + y * 4096 + z * 64 + w) / 4096 == x * 64 + y
    ensures (x * 262144 + y * 4096 + z * 64 + w) / 64 == x * 4096 + y * 64 + z
  {
  }

  lemma EncodeTwo(x: nat, y: nat)
    requires 2 <= x < 32 && y < 64
    ensures Encode(x * 64 + y) == [(0xc0 + x) as char, (0x80 + y) as char]
  {
    SixBitDigits(x, y, 0, 0);
  }

  lemma EncodeThree(x: nat, y: nat, z: nat)
    requires x < 16 && y < 64 && z < 64 && 0x800 <= x * 4096 + y * 64 + z
    ensures Encode(x * 4096 + y * 64 + z) == [(0xe0 + x) as char, (0x80 + y) as char, (0x80 + z) as char]
  {
    SixBitDigits(x, y, z, 0);
    SixBitDigits(x * 64 + y, z, 0, 0);
    SixBitDigits(x, y, 0, 0);
  }

  lemma EncodeFour(x: nat, y: nat, z: nat, w: nat)
    requires y < 64 && z < 64 && w < 64 && 0x10000 <= x * 262144 + y * 4096 + z * 64 + w <= 0x10ffff
    ensures Encode(x * 262144 + y * 4096 + z * 64 + w) ==
            [(0xf0 + x) as char, (0x80 + y) as char, (0x80 + z) as char, (0x80 + w) as char]
  {
    SixBitDigits(x, y, z, w);
    SixBitDigits(x * 4096 + y * 64 + z, w, 0, 0);
    SixBitDigits(x * 64 + y, z, 0, 0);
    SixBitDigits(x, y, 0, 0);
  }

  lemma TwoIsEncode(a: char, b: char, rest: string)
    requires 0xc2 <= a as int <= 0xdf && Read([a, b] + rest).Some?
    ensures var Scalar(point, width) := Read([a, b] + rest).value; IsScalar(point) && width == 2 && [a, b] == Encode(point)
  {
    hide Read, Encode;
    ReadTwo(a, b, rest);
    EncodeTwo(a as int - 0xc0, b as int - 0x80);
  }

  lemma ThreeIsEncode(a: char, b: char, c: char, rest: string)
    requires 0xe0 <= a as int <= 0xef && Read([a, b, c] + rest).Some?
    ensures var Scalar(point, width) := Read([a, b, c] + rest).value; IsScalar(point) && width == 3 && [a, b, c] == Encode(point)
  {
    hide Read, Encode;
    ReadThree(a, b, c, rest);
    EncodeThree(a as int - 0xe0, b as int - 0x80, c as int - 0x80);
  }

  lemma FourIsEncode(a: char, b: char, c: char, d: char, rest: string)
    requires 0xf0 <= a as int <= 0xf4 && Read([a, b, c, d] + rest).Some?
    ensures var Scalar(point, width) := Read([a, b, c, d] + rest).value; IsScalar(point) && width == 4 && [a, b, c, d] == Encode(point)
  {
    hide Read, Encode;
    ReadFour(a, b, c, d, rest);
    EncodeFour(a as int - 0xf0, b as int - 0x80, c as int - 0x80, d as int - 0x80);
  }

  lemma OneIsEncode(s: string)
    requires s != "" && s[0] as int < 0x80
    ensures Read(s) == Some(Scalar(s[0] as int, 1)) && s[..1] == Encode(s[0] as int)
  {
    assert s[..1] == [s[0]];
  }

  /** The lead byte decides how many bytes there must be. */
  lemma LeadDecides(s: string)
    requires Read(s).Some?
    ensures s != ""
    ensures var first := s[0] as int;
            || first < 0x80
            || (0xc2 <= first <= 0xdf && |s| >= 2) || (0xe0 <= first <= 0xef && |s| >= 3) || (0xf0 <= first <= 0xf4 && |s| >= 4)
  {
    hide Accumulate;
  }

  /** What is read is a scalar value, in its own shortest form. */
  lemma ReadIsEncode(s: string)
    requires Read(s).Some?
    ensures var Scalar(point, width) := Read(s).value;
            IsScalar(point) && 0 < width <= |s| && s[..width] == Encode(point)
  {
    hide Read, Encode;
    LeadDecides(s);
    var first := s[0] as int;
    if first < 0x80 {
      OneIsEncode(s);
    } else if first <= 0xdf {
      assert s == [s[0], s[1]] + s[2..] && s[..2] == [s[0], s[1]];
      TwoIsEncode(s[0], s[1], s[2..]);
    } else if first <= 0xef {
      assert s == [s[0], s[1], s[2]] + s[3..] && s[..3] == [s[0], s[1], s[2]];
      ThreeIsEncode(s[0], s[1], s[2], s[3..]);
    } else {
      assert s == [s[0], s[1], s[2], s[3]] + s[4..] && s[..4] == [s[0], s[1], s[2], s[3]];
      FourIsEncode(s[0], s[1], s[2], s[3], s[4..]);
    }
  }

  lemma DigitsOf(point: nat)
    ensures point == point / 64 * 64 + point % 64
    ensures point / 64 == point / 4096 * 64 + point / 64 % 64
    ensures point / 4096 == point / 262144 * 64 + point / 4096 % 64
  {
  }

  lemma EncodeIsReadFour(x: nat, y: nat, z: nat, w: nat, rest: string)
    requires y < 64 && z < 64 && w < 64 && 0x10000 <= x * 262144 + y * 4096 + z * 64 + w <= 0x10ffff
    ensures var point := x * 262144 + y * 4096 + z * 64 + w;
            Read(Encode(point) + rest) == Some(Scalar(point, 4)) && |Encode(point)| == 4
  {
    EncodeFour(x, y, z, w);
    ReadFour((0xf0 + x) as char, (0x80 + y) as char, (0x80 + z) as char, (0x80 + w) as char, rest);
  }

  lemma EncodeIsReadThree(x: nat, y: nat, z: nat, rest: string)
    requires x < 16 && y < 64 && z < 64 && 0x800 <= x * 4096 + y * 64 + z && IsScalar(x * 4096 + y * 64 + z)
    ensures var point := x * 4096 + y * 64 + z;
            Read(Encode(point) + rest) == Some(Scalar(point, 3)) && |Encode(point)| == 3
  {
    EncodeThree(x, y, z);
    ReadThree((0xe0 + x) as char, (0x80 + y) as char, (0x80 + z) as char, rest);
  }

  lemma EncodeIsReadTwo(x: nat, y: nat, rest: string)
    requires 2 <= x < 32 && y < 64
    ensures Read(Encode(x * 64 + y) + rest) == Some(Scalar(x * 64 + y, 2)) && |Encode(x * 64 + y)| == 2
  {
    EncodeTwo(x, y);
    ReadTwo((0xc0 + x) as char, (0x80 + y) as char, rest);
  }

  /** Every scalar value is read back from its encoding, whatever follows. */
  lemma EncodeIsRead(point: int, rest: string)
    requires IsScalar(point)
    ensures Read(Encode(point) + rest) == Some(Scalar(point, |Encode(point)|))
  {
    hide Read, Encode;
    DigitsOf(point);
    if point < 0x80 {
      OneIsRead(point, rest);
    } else if point <= 0x7ff {
      EncodeIsReadTwo(point / 64, point % 64, rest);
    } else if point <= 0xffff {
      EncodeIsReadThree(point / 4096, point / 64 % 64, point % 64, rest);
    } else {
      EncodeIsReadFour(point / 262144, point / 4096 % 64, point / 64 % 64, point % 64, rest);
    }
  }

  lemma OneIsRead(point: int, rest: string)
    requires 0 <= point < 0x80
    ensures Read(Encode(point) + rest) == Some(Scalar(point, 1)) && |Encode(point)| == 1
  {
    assert (Encode(point) + rest)[0] as int == point;
  }

  /** Reading looks no further than the scalar it returns. */
  lemma ReadIsLocal(s: string, rest: string)
    requires Read(s).Some?
    ensures var width := Read(s).value.width;
            0 < width <= |s| && Read(s[..width] + rest) == Read(s) && Read(s[..width]) == Read(s)
  {
    ReadIsEncode(s);
    var Scalar(point, width) := Read(s).value;
    EncodeIsRead(point, rest);
    EncodeIsRead(point, "");
    assert s[..width] + "" == s[..width];
  }

  /** A string of one scalar value. */
  lemma EncodedIsWellFormed(point: int)
    requires IsScalar(point)
    ensures WellFormed(Encode(point)) && Encode(point) != ""
    ensures Read(Encode(point)) == Some(Scalar(point, |Encode(point)|))
  {
    EncodeIsRead(point, "");
    assert Encode(point) + "" == Encode(point);
  }

  lemma {:induction false} WellFormedConcat(a: string, b: string)
    requires WellFormed(a) && WellFormed(b)
    ensures WellFormed(a + b)
    decreases |a|
  {
    if a == "" {
      assert a + b == b;
    } else {
      ReadIsEncode(a);
      var width := Read(a).value.width;
      ReadIsLocal(a, a[width..] + b);
      assert a[..width] + (a[width..] + b) == a + b;
      WellFormedConcat(a[width..], b);
      assert (a + b)[width..] == a[width..] + b;
    }
  }

  /** The byte strings accepted are exactly the encodings of scalar sequences. */
  lemma {:induction false} WellFormedIsEncoded(s: string) returns (points: seq<ScalarValue>)
    requires WellFormed(s)
    ensures EncodeAll(points) == s
    decreases |s|
  {
    hide Read, Encode;
    if s == "" {
      points := [];
    } else {
      ReadIsEncode(s);
      var Scalar(point, width) := Read(s).value;
      var more := WellFormedIsEncoded(s[width..]);
      points := [point] + more;
      assert points[1..] == more;
      assert s == s[..width] + s[width..];
    }
  }

  lemma {:induction false} EncodedAllIsWellFormed(points: seq<ScalarValue>)
    ensures WellFormed(EncodeAll(points))
  {
    if points != [] {
      EncodedIsWellFormed(points[0]);
      EncodedAllIsWellFormed(points[1..]);
      WellFormedConcat(Encode(points[0]), EncodeAll(points[1..]));
    }
  }

  /** The width of the scalar at `offset`, computed as the source computes it. */
  method Width(text: string, offset: nat) returns (r: Option<nat>)
    ensures offset >= |text| ==> r.None?
    ensures offset < |text| ==>
              r == match Read(text[offset..]) case None => None case Some(scalar) => Some(scalar.width)
  {
    if offset >= |text| { return None; }
    var first := text[offset] as int;
    if first < 0x80 { return Some(1); }
    var width: nat, point, minimum;
    if 0xc2 <= first <= 0xdf { width, point, minimum := 2, first % 32, 0x80; }
    else if 0xe0 <= first <= 0xef { width, point, minimum := 3, first % 16, 0x800; }
    else if 0xf0 <= first <= 0xf4 { width, point, minimum := 4, first % 8, 0x10000; }
    else { return None; }
    if |text| - offset < width { return None; }
    ghost var lead, here := point, text[offset..];
    assert here[1..width][0..] == here[1..width];
    for index := 1 to width
      invariant Accumulate(lead, here[1..width]) == Accumulate(point, here[index..width])
    {
      var next := text[offset + index] as int;
      assert here[index..width][1..] == here[index + 1..width];
      if !(0x80 <= next < 0xc0) { return None; }
      point := point * 64 + next % 64;
    }
    if point < minimum || point > 0x10ffff || 0xd800 <= point <= 0xdfff { return None; }
    return Some(width);
  }
}
