/**
 Numbers in little-endian byte order. A byte is a `char`; the low byte of its
 code is what counts.
 */
module LittleEndian {
  /** The value of a byte; a character above 255 stands for its low byte. */
  function Byte(c: char): nat { c as int % 256 }

  /** One 16-bit unit, low byte first. */
  function Unit(n: int): string
    requires 0 <= n < 65536
  {
    [(n % 256) as char, (n / 256) as char]
  }

  /** The low 32 bits, low byte first. */
  function Word(n: int): string { Unit(n % 65536) + Unit(n / 65536 % 65536) }

  /** The number that bytes spell, low byte first. */
  function Little(s: string): nat {
    if s == "" then 0 else Byte(s[0]) + 256 * Little(s[1..])
  }

  lemma LittleOfFour(s: string)
    requires |s| == 4
    ensures Little(s) == Byte(s[0]) + 256 * Byte(s[1]) + 65536 * Byte(s[2]) + 16777216 * Byte(s[3])
  {
    assert s[1..][1..] == s[2..] && s[2..][1..] == s[3..] && s[3..][1..] == "";
    assert Little(s[3..]) == Byte(s[3]);
    assert Little(s[2..]) == Byte(s[2]) + 256 * Little(s[3..]);
    assert Little(s[1..]) == Byte(s[1]) + 256 * Little(s[2..]);
  }

  lemma LittleOfEight(s: string)
    requires |s| == 8
    ensures Little(s) == Little(s[..4]) + 0x1_0000_0000 * Little(s[4..])
  {
    LittleOfFour(s[..4]);
    assert s[1..][1..] == s[2..] && s[2..][1..] == s[3..] && s[3..][1..] == s[4..];
    assert Little(s[3..]) == Byte(s[3]) + 256 * Little(s[4..]);
    assert Little(s[2..]) == Byte(s[2]) + 256 * Little(s[3..]);
    assert Little(s[1..]) == Byte(s[1]) + 256 * Little(s[2..]);
  }

  lemma Wraps(n: int, q: int, r: int)
    requires n == 0x1_0000_0000 * q + r && 0 <= r < 0x1_0000_0000
    ensures n % 0x1_0000_0000 == r
  {
  }

  lemma UnitBytes(n: nat)
    requires n < 65536
    ensures Byte(Unit(n)[0]) + 256 * Byte(Unit(n)[1]) == n
  {
  }

  lemma WordOfUnits(low: nat, high: nat)
    requires low < 65536 && high < 65536
    ensures Little(Unit(low) + Unit(high)) == low + 65536 * high
  {
    hide Unit, Byte;
    var s := Unit(low) + Unit(high);
    UnitsHaveTwoBytes(low, high);
    UnitBytes(low);
    UnitBytes(high);
    LittleOfFour(s);
  }

  lemma UnitsHaveTwoBytes(low: nat, high: nat)
    requires low < 65536 && high < 65536
    ensures |Unit(low)| == 2 && |Unit(high)| == 2
  {
  }

  /** A word holds the number modulo 2^32. */
  lemma WordWraps(n: int)
    ensures |Word(n)| == 4 && Little(Word(n)) == n % 0x1_0000_0000
  {
    var h, low := n / 65536, n % 65536;
    var q, high := h / 65536, h % 65536;
    WordOfUnits(low, high);
    Wraps(n, q, low + 65536 * high);
  }

  lemma LongWraps(n: int)
    ensures |Word(n) + Word(n / 0x1_0000_0000)| == 8
    ensures Little(Word(n) + Word(n / 0x1_0000_0000)) == n % 0x1_0000_0000 + 0x1_0000_0000 * (n / 0x1_0000_0000 % 0x1_0000_0000)
  {
    hide Word, Little;
    var low, high := Word(n), Word(n / 0x1_0000_0000);
    WordWraps(n);
    WordWraps(n / 0x1_0000_0000);
    LittleOfEight(low + high);
    assert (low + high)[..4] == low && (low + high)[4..] == high;
  }

  predicate AllBytes(s: string) { forall i | 0 <= i < |s| :: s[i] as int < 256 }

  lemma UnitOfBytes(a: char, b: char)
    requires a as int < 256 && b as int < 256
    ensures Unit(a as int + 256 * b as int) == [a, b]
  {
  }

  lemma Halves(n: int, low: nat, high: nat)
    requires n == low + 65536 * high && low < 65536 && high < 65536
    ensures n % 65536 == low && n / 65536 == high && n / 65536 % 65536 == high
  {
  }

  /** Four bytes are the word they spell. */
  lemma WordOfLittle(s: string)
    requires |s| == 4 && AllBytes(s)
    ensures Word(Little(s)) == s && Little(s) < 0x1_0000_0000
  {
    hide Unit, Little;
    LittleOfFour(s);
    var low, high := s[0] as int + 256 * s[1] as int, s[2] as int + 256 * s[3] as int;
    Halves(Little(s), low, high);
    UnitOfBytes(s[0], s[1]);
    UnitOfBytes(s[2], s[3]);
  }

  lemma ByteDigits(n: int)
    ensures n / 65536 == n / 256 / 256 && n / 16777216 == n / 256 / 256 / 256
  {
  }

  /** The four bytes of a word. */
  lemma WordBytes(n: int)
    ensures Word(n) == [(n % 256) as char, (n / 256 % 256) as char, (n / 65536 % 256) as char, (n / 16777216 % 256) as char]
  {
    ByteDigits(n);
    var h := n / 65536;
    LowDigits(n);
    LowDigits(h);
  }

  lemma LowDigits(n: int)
    ensures n % 65536 % 256 == n % 256 && n % 65536 / 256 == n / 256 % 256
  {
    var q, r := n / 65536, n % 65536;
    assert n == 65536 * q + r;
  }
}
