/** Strings and integers: what is written is read back, and what is read is written no longer. */
module ManagementJsonScalars {
  import opened Wrappers
  import opened Utf8
  import opened ManagementJsonText
  import opened ManagementJsonGrammar

  // ----- Written strings are read back -----

  lemma HexDigitIsRead(n: nat)
    requires n < 16
    ensures HexValue(HexDigit(n)) == Some(n)
  {
  }

  lemma ControlIsRead(c: char, rest: string)
    requires c as int < 0x20
    ensures ReadUnit("\\u00" + [HexDigit(c as int / 16), HexDigit(c as int % 16)] + rest) == Some(Unit([c], 6))
  {
    var hi, lo := c as int / 16, c as int % 16;
    HexDigitIsRead(hi);
    HexDigitIsRead(lo);
    var s := "\\u00" + [HexDigit(hi), HexDigit(lo)] + rest;
    var hex := s[1..][1..];
    assert |hex| >= 4 && hex[0] == '0' && hex[1] == '0' && hex[2] == HexDigit(hi) && hex[3] == HexDigit(lo);
    assert HexValue('0') == Some(0);
    assert ReadHex4(hex) == Some(hi * 16 + lo);
    assert Encode(c as int) == [c];
  }

  lemma EscapeSequenceIsRead(c: char, rest: string)
    requires IsEscaped(c)
    ensures var e := EscapeSequence(c);
            1 < |e| <= 6 && e[0] == '\\' && ReadUnit(e + rest) == Some(Unit([c], |e|))
  {
    var e := EscapeSequence(c);
    if e[1] == 'u' {
      ControlIsRead(c, rest);
    } else {
      assert (e + rest)[1..][0] == e[1];
    }
  }

  lemma UnitIsRead(s: string, rest: string)
    requires s != "" && WellFormed(s)
    ensures var width := UnitWidth(s);
            var e := EscapeUnit(s[..width]);
            e != "" && e[0] != '"' && ReadUnit(e + rest) == Some(Unit(s[..width], |e|)) && WellFormed(s[width..])
  {
    var width := UnitWidth(s);
    if IsEscaped(s[0]) {
      EscapeSequenceIsRead(s[0], rest);
      assert s[..1] == [s[0]];
    } else {
      ReadIsLocal(s, rest);
      assert (s[..width] + rest)[..width] == s[..width];
    }
  }

  lemma BodyTakesUnit(e: string, more: string, unit: string, output: string, b: Limits)
    requires e != "" && e[0] != '"' && ReadUnit(e + more) == Some(Unit(unit, |e|))
    requires |output + unit| <= b.stringBytes
    ensures ReadBody(e + more, output, b) == ReadBody(more, output + unit, b)
  {
    assert (e + more)[|e|..] == more;
  }

  lemma EscapeCons(s: string, rest: string)
    requires s != ""
    ensures var width := UnitWidth(s);
            Escape(s) + rest == EscapeUnit(s[..width]) + (Escape(s[width..]) + rest)
  {
  }

  lemma BodyEnds(rest: string, output: string, b: Limits)
    ensures Escape("") == "" && ReadBody("\"" + rest, output, b) == Go(output, rest, 0)
  {
    assert ("\"" + rest)[1..] == rest;
  }

  lemma {:induction false} BodyIsRead(s: string, rest: string, output: string, b: Limits)
    requires WellFormed(s) && |output| + |s| <= b.stringBytes
    ensures ReadBody(Escape(s) + ("\"" + rest), output, b) == Go(output + s, rest, 0)
    decreases |s|
  {
    hide Read, UnitWidth, EscapeUnit, ReadUnit, Escape, ReadBody;
    var close := "\"" + rest;
    if s == "" {
      BodyEnds(rest, output, b);
      assert "" + close == close && output + s == output;
    } else {
      var width := UnitWidth(s);
      var unit, tail := s[..width], s[width..];
      EscapeCons(s, close);
      UnitIsRead(s, Escape(tail) + close);
      assert s == unit + tail;
      BodyTakesUnit(EscapeUnit(unit), Escape(tail) + close, unit, output, b);
      BodyIsRead(tail, rest, output + unit, b);
      assert output + unit + tail == output + s;
    }
  }

  lemma StringIsRead(s: string, rest: string, b: Limits)
    requires StringFits(s, b)
    ensures ReadString(StringText(s) + rest, b) == Go(s, rest, 0)
  {
    var all := StringText(s) + rest;
    assert all[1..] == Escape(s) + ("\"" + rest);
    BodyIsRead(s, rest, "", b);
    assert "" + s == s;
  }

  // ----- Strings that are read fit, and are written no longer -----

  /** A piece holds exactly one scalar value, and its canonical spelling is not longer than what was read. */
  ghost predicate GoodUnit(u: Unit) {
    && u.bytes != ""
    && Read(u.bytes).Some? && Read(u.bytes).value.width == |u.bytes|
    && |EscapeUnit(u.bytes)| <= u.taken
  }

  lemma ScalarUnit(point: int, taken: nat)
    requires IsScalar(point) && 6 <= taken
    ensures GoodUnit(Unit(Encode(point), taken))
  {
    EncodedIsWellFormed(point);
    if IsEscaped(Encode(point)[0]) { EscapeSequenceIsRead(Encode(point)[0], ""); }
  }

  lemma SimpleUnit(c: char, taken: nat)
    requires c as int < 0x80 && 2 <= taken && (IsEscaped(c) ==> |EscapeSequence(c)| == 2)
    ensures GoodUnit(Unit([c], taken))
  {
  }

  lemma ReadUnitIsGood(s: string)
    requires s != "" && s[0] != '"' && ReadUnit(s).Some?
    ensures GoodUnit(ReadUnit(s).value)
  {
    hide ReadHex4, Encode, Read;
    var u := ReadUnit(s).value;
    if s[0] != '\\' {
      ReadIsLocal(s, "");
    } else {
      var escape := ReadEscape(s[1..]).value;
      if s[1..][0] == 'u' {
        var high := ReadHex4(s[1..][1..]).value;
        if 0xd800 <= high <= 0xdbff {
          var low := ReadHex4(s[1..][1..][6..]).value;
          ScalarUnit(0x10000 + (high - 0xd800) * 1024 + (low - 0xdc00), u.taken);
        } else {
          ScalarUnit(high, u.taken);
        }
      } else {
        SimpleUnit(escape.bytes[0], u.taken);
      }
    }
  }

  lemma UnitWidthIsLocal(a: string, b: string)
    requires a != "" && WellFormed(a)
    ensures UnitWidth(a + b) == UnitWidth(a)
  {
    var width := UnitWidth(a);
    if !IsEscaped(a[0]) {
      ReadIsLocal(a, a[width..] + b);
      assert a[..width] + (a[width..] + b) == a + b;
    }
  }

  lemma {:induction false} EscapeConcat(a: string, b: string)
    requires WellFormed(a)
    ensures Escape(a + b) == Escape(a) + Escape(b)
    decreases |a|
  {
    hide Read, UnitWidth, EscapeUnit;
    if a == "" {
      assert a + b == b;
    } else {
      var width := UnitWidth(a);
      var unit, tail := a[..width], a[width..];
      UnitIsRead(a, "");
      UnitWidthIsLocal(a, b);
      EscapeConcat(tail, b);
      assert (a + b)[..width] == unit && (a + b)[width..] == tail + b;
      EscapeCons(a, Escape(b));
      assert Escape(a + b) == EscapeUnit(unit) + Escape(tail + b);
    }
  }

  lemma GoodUnitIsWritten(u: Unit)
    requires GoodUnit(u)
    ensures WellFormed(u.bytes) && Escape(u.bytes) == EscapeUnit(u.bytes)
  {
    var s := u.bytes;
    assert s[|s|..] == "" && s[..|s|] == s;
    assert WellFormed(s);
    if IsEscaped(s[0]) { assert Read(s).value.width == 1; }
    assert UnitWidth(s) == |s|;
    assert Escape(s) == EscapeUnit(s) + "";
  }

  lemma {:induction false} ReadBodyFits(s: string, output: string, b: Limits)
    requires ReadBody(s, output, b).Go? && StringFits(output, b)
    ensures var Go(text, rest, _) := ReadBody(s, output, b);
            StringFits(text, b) && |Escape(text)| - |Escape(output)| < |s| - |rest|
    decreases |s|
  {
    if s[0] != '"' {
      var u := ReadUnit(s).value;
      ReadUnitIsGood(s);
      GoodUnitIsWritten(u);
      WellFormedConcat(output, u.bytes);
      EscapeConcat(output, u.bytes);
      ReadBodyFits(s[u.taken..], output + u.bytes, b);
    }
  }

  lemma ReadStringFits(s: string, b: Limits)
    requires ReadString(s, b).Go?
    ensures var Go(text, rest, _) := ReadString(s, b);
            StringFits(text, b) && |StringText(text)| <= |s| - |rest|
  {
    ReadBodyFits(s[1..], "", b);
  }

  // ----- Integers -----

  predicate AllDigits(s: string) { forall i | 0 <= i < |s| :: IsDigit(s[i]) }

  lemma {:induction false} NatTextIsDecimal(n: nat)
    ensures AllDigits(NatText(n)) && DecimalValue(NatText(n)) == n
    ensures NatText(n) != "" && (NatText(n)[0] == '0' ==> n == 0 && NatText(n) == "0")
  {
    if n >= 10 {
      NatTextIsDecimal(n / 10);
      var s := NatText(n);
      assert s[..|s| - 1] == NatText(n / 10);
    } else {
      assert [Digit(n)][..0] == "";
    }
  }

  lemma {:induction false} DecimalIsNatText(digits: string)
    requires AllDigits(digits) && digits != "" && (digits[0] == '0' ==> |digits| == 1)
    ensures NatText(DecimalValue(digits)) == digits
    ensures digits[0] != '0' ==> DecimalValue(digits) > 0
    decreases |digits|
  {
    var last := |digits| - 1;
    assert IsDigit(digits[last]);
    var d := digits[last] as int - '0' as int;
    if last == 0 {
      assert digits == [digits[0]] && digits[..0] == "";
    } else {
      DecimalIsNatText(digits[..last]);
      var front := DecimalValue(digits[..last]);
      assert (front * 10 + d) / 10 == front && (front * 10 + d) % 10 == d;
      assert digits == digits[..last] + [Digit(d)];
    }
  }

  lemma {:induction false} LeadingDigitsAre(digits: string, rest: string)
    requires AllDigits(digits) && (rest == "" || !IsDigit(rest[0]))
    ensures LeadingDigits(digits + rest) == |digits|
  {
    if digits == "" {
      assert digits + rest == rest;
    } else {
      LeadingDigitsAre(digits[1..], rest);
      assert (digits + rest)[1..] == digits[1..] + rest;
    }
  }

  /** What may follow a value in canonical text: nothing that would continue a number. */
  predicate Delimited(rest: string) {
    rest == "" || !(IsDigit(rest[0]) || rest[0] == '.' || rest[0] == 'e' || rest[0] == 'E')
  }

  lemma MagnitudeIsRead(n: nat, rest: string)
    requires Delimited(rest)
    ensures ReadMagnitude(NatText(n) + rest) == Go(n, rest, 0)
  {
    var digits := NatText(n);
    NatTextIsDecimal(n);
    LeadingDigitsAre(digits, rest);
    assert IsDigit(digits[0]);
    assert (digits + rest)[..|digits|] == digits && (digits + rest)[|digits|..] == rest;
  }

  lemma IntegerIsRead(n: int64, rest: string)
    requires Delimited(rest)
    ensures ReadInteger(IntText(n) + rest) == Go(n, rest, 0)
  {
    hide ReadMagnitude, NatText, DecimalValue;
    var magnitude: nat := if n < 0 then -(n as int) else n;
    MagnitudeIsRead(magnitude, rest);
    NatTextIsDecimal(magnitude);
    assert IsDigit(NatText(magnitude)[0]);
    if n < 0 { assert (IntText(n) + rest)[1..] == NatText(magnitude) + rest; }
  }

  lemma ReadIntegerFits(s: string)
    requires ReadInteger(s).Go?
    ensures var Go(n, rest, _) := ReadInteger(s); |IntText(n)| <= |s| - |rest|
  {
    var t := if Starts(s, '-') then s[1..] else s;
    var n := LeadingDigits(t);
    DecimalIsNatText(t[..n]);
    if t[0] == '0' { assert t[..1][..0] == ""; }
  }
}
