/**
 * Identifiers. The store keys every row by a 128-bit UUID, and the HTTP layer
 * carries identifiers in the textual form of section 3 of RFC 4122: 32
 * hexadecimal digits in groups of 8-4-4-4-12 separated by hyphens. `Parse`
 * accepts that form (either letter case), `String` writes it in lower case.
 */
module Uuids {
  import opened Wrappers

  newtype byte = x: int | 0 <= x < 256

  /** A UUID is sixteen bytes, `b0` the first in the textual form. */
  datatype Uuid = Uuid(
    b0: byte, b1: byte, b2: byte, b3: byte, b4: byte, b5: byte, b6: byte, b7: byte,
    b8: byte, b9: byte, b10: byte, b11: byte, b12: byte, b13: byte, b14: byte, b15: byte)

  /** The nil UUID (`uuid.UUID{}`), which every failed creation returns. */
  const Nil: Uuid := Uuid(0, 0, 0, 0, 0, 0, 0, 0, 0, 0, 0, 0, 0, 0, 0, 0)

  /** Byte `k` of a UUID. */
  function Byte(u: Uuid, k: nat): byte
    requires k < 16
  {
    match k
    case 0 => u.b0 case 1 => u.b1 case 2 => u.b2 case 3 => u.b3
    case 4 => u.b4 case 5 => u.b5 case 6 => u.b6 case 7 => u.b7
    case 8 => u.b8 case 9 => u.b9 case 10 => u.b10 case 11 => u.b11
    case 12 => u.b12 case 13 => u.b13 case 14 => u.b14 case _ => u.b15
  }

  /** Two UUIDs with the same sixteen bytes are equal. */
  lemma BytesDetermine(u: Uuid, v: Uuid)
    requires forall k | 0 <= k < 16 :: Byte(u, k) == Byte(v, k)
    ensures u == v
  {
    assert Byte(u, 0) == Byte(v, 0) && Byte(u, 1) == Byte(v, 1) && Byte(u, 2) == Byte(v, 2);
    assert Byte(u, 3) == Byte(v, 3) && Byte(u, 4) == Byte(v, 4) && Byte(u, 5) == Byte(v, 5);
    assert Byte(u, 6) == Byte(v, 6) && Byte(u, 7) == Byte(v, 7) && Byte(u, 8) == Byte(v, 8);
    assert Byte(u, 9) == Byte(v, 9) && Byte(u, 10) == Byte(v, 10) && Byte(u, 11) == Byte(v, 11);
    assert Byte(u, 12) == Byte(v, 12) && Byte(u, 13) == Byte(v, 13) && Byte(u, 14) == Byte(v, 14);
    assert Byte(u, 15) == Byte(v, 15);
  }

  predicate IsHexDigit(c: char) {
    '0' <= c <= '9' || 'a' <= c <= 'f' || 'A' <= c <= 'F'
  }

  function HexValue(c: char): (v: nat)
    requires IsHexDigit(c)
    ensures v < 16
  {
    if '0' <= c <= '9' then c as nat - '0' as nat
    else if 'a' <= c <= 'f' then c as nat - 'a' as nat + 10
    else c as nat - 'A' as nat + 10
  }

  /** The lower-case digit written for a nibble; `HexValue` reads it back. */
  function HexDigit(n: nat): (c: char)
    requires n < 16
    ensures IsHexDigit(c) && HexValue(c) == n
    ensures !('A' <= c <= 'F')
  {
    if n < 10 then ('0' as nat + n) as char else ('a' as nat + n - 10) as char
  }

  /** Lower-cases a hexadecimal letter and leaves every other character alone. */
  function LowerHex(c: char): char {
    if 'A' <= c <= 'F' then (c as nat - 'A' as nat + 'a' as nat) as char else c
  }

  function Lower(s: string): (r: string)
    ensures |r| == |s|
  {
    seq(|s|, i requires 0 <= i < |s| => LowerHex(s[i]))
  }

  /** The four positions of the hyphens in the 36-character form. */
  predicate IsHyphenPosition(i: int) {
    i == 8 || i == 13 || i == 18 || i == 23
  }

  /** Position in the text of the high digit of byte `k`; the low digit follows it. */
  function Offset(k: nat): (i: nat)
    requires k < 16
    ensures i + 1 < 36 && !IsHyphenPosition(i) && !IsHyphenPosition(i + 1)
  {
    2 * k + (if k >= 4 then 1 else 0) + (if k >= 6 then 1 else 0)
          + (if k >= 8 then 1 else 0) + (if k >= 10 then 1 else 0)
  }

  /** The byte whose digit stands at text position `i`. */
  function ByteAt(i: nat): (k: nat)
    requires i < 36 && !IsHyphenPosition(i)
    ensures k < 16 && (i == Offset(k) || i == Offset(k) + 1)
  {
    var j := i - (if i > 8 then 1 else 0) - (if i > 13 then 1 else 0)
               - (if i > 18 then 1 else 0) - (if i > 23 then 1 else 0);
    j / 2
  }

  /** The textual grammar of section 3 of RFC 4122. */
  predicate WellFormed(s: string) {
    |s| == 36 &&
    forall i | 0 <= i < 36 :: if IsHyphenPosition(i) then s[i] == '-' else IsHexDigit(s[i])
  }

  function ByteOf(hi: char, lo: char): byte
    requires IsHexDigit(hi) && IsHexDigit(lo)
  {
    (HexValue(hi) * 16 + HexValue(lo)) as byte
  }

  /** The byte the two digits of byte `k` of a well-formed text denote. */
  function TextByte(s: string, k: nat): byte
    requires WellFormed(s) && k < 16
  {
    ByteOf(s[Offset(k)], s[Offset(k) + 1])
  }

  /** `uuid.Parse` on the canonical form: None is the parse error. */
  function Parse(s: string): (r: Option<Uuid>)
    ensures r.Some? <==> WellFormed(s)
    ensures r.Some? ==> forall k | 0 <= k < 16 :: Byte(r.value, k) == TextByte(s, k)
  {
    if WellFormed(s) then
      Some(Uuid(TextByte(s, 0), TextByte(s, 1), TextByte(s, 2), TextByte(s, 3),
                TextByte(s, 4), TextByte(s, 5), TextByte(s, 6), TextByte(s, 7),
                TextByte(s, 8), TextByte(s, 9), TextByte(s, 10), TextByte(s, 11),
                TextByte(s, 12), TextByte(s, 13), TextByte(s, 14), TextByte(s, 15)))
    else
      None
  }

  function Digit(u: Uuid, i: nat): char
    requires i < 36
  {
    if IsHyphenPosition(i) then '-'
    else
      var k := ByteAt(i);
      if i == Offset(k) then HexDigit(Byte(u, k) as nat / 16) else HexDigit(Byte(u, k) as nat % 16)
  }

  /** `UUID.String`: the lower-case canonical form. */
  function String(u: Uuid): (s: string)
    ensures WellFormed(s)
    ensures forall i | 0 <= i < |s| :: !('A' <= s[i] <= 'F')
  {
    seq(36, i requires 0 <= i < 36 => Digit(u, i))
  }

  /** The text `String` writes parses back to the same UUID. */
  lemma ParseString(u: Uuid)
    ensures Parse(String(u)) == Some(u)
  {
    var v := Parse(String(u)).value;
    forall k | 0 <= k < 16
      ensures Byte(v, k) == Byte(u, k)
    {
      PrintedByte(u, k);
    }
    BytesDetermine(v, u);
  }

  /** One byte of `ParseString`. */
  lemma PrintedByte(u: Uuid, k: nat)
    requires k < 16
    ensures TextByte(String(u), k) == Byte(u, k)
  {
    var s := String(u);
    assert ByteAt(Offset(k)) == k && ByteAt(Offset(k) + 1) == k;
    assert s[Offset(k)] == HexDigit(Byte(u, k) as nat / 16);
    assert s[Offset(k) + 1] == HexDigit(Byte(u, k) as nat % 16);
  }

  /** Parsing then printing gives back the input, lower-cased: the form is canonical up to letter case. */
  lemma StringParse(s: string)
    requires Parse(s).Some?
    ensures String(Parse(s).value) == Lower(s)
  {
    var u := Parse(s).value;
    forall i | 0 <= i < 36
      ensures String(u)[i] == Lower(s)[i]
    {
      DigitOfParsed(s, u, i);
    }
  }

  /** One position of `StringParse`. */
  lemma DigitOfParsed(s: string, u: Uuid, i: nat)
    requires Parse(s) == Some(u) && i < 36
    ensures Digit(u, i) == LowerHex(s[i])
  {
    if !IsHyphenPosition(i) {
      var k := ByteAt(i);
      ByteDigits(s[Offset(k)], s[Offset(k) + 1]);
    }
  }

  /** The two digits printed for the byte two digits denote are those digits, lower-cased. */
  lemma ByteDigits(hi: char, lo: char)
    requires IsHexDigit(hi) && IsHexDigit(lo)
    ensures HexDigit(ByteOf(hi, lo) as nat / 16) == LowerHex(hi)
    ensures HexDigit(ByteOf(hi, lo) as nat % 16) == LowerHex(lo)
  {
    var n := HexValue(hi) * 16 + HexValue(lo);
    assert n / 16 == HexValue(hi);
    assert n % 16 == HexValue(lo);
    HexDigitOfValue(hi);
    HexDigitOfValue(lo);
  }

  lemma HexDigitOfValue(c: char)
    requires IsHexDigit(c)
    ensures HexDigit(HexValue(c)) == LowerHex(c)
  {
  }

  /** Distinct UUIDs have distinct texts. */
  lemma StringInjective(u: Uuid, v: Uuid)
    requires String(u) == String(v)
    ensures u == v
  {
    ParseString(u);
    ParseString(v);
  }
}
