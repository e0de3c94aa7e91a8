/** The chip id as sent in the `sensor` field: `snprintf(tmp, 9, "%08X", id)`
    with a 32-bit unsigned id. The `X` conversion writes the value in base 16
    with the digits 0-9 and A-F, using at least one digit (the default
    precision is 1); the `0` flag with field width 8 pads on the left with
    zeros (ISO/IEC 9899:2011, section 7.21.6.1). */
module ChipId {
  import opened CTypes
  import opened CText

  /** `CHIP_ID_STRING_LENGTH`: eight digits and the terminating NUL. */
  const ChipIdStringLength: nat := 9
  /** The field width of `%08X`. */
  const FieldWidth: nat := 8

  predicate IsUpperHexDigit(c: char)
  {
    '0' <= c <= '9' || 'A' <= c <= 'F'
  }

  predicate IsUpperHex(s: seq<char>)
  {
    forall i :: 0 <= i < |s| ==> IsUpperHexDigit(s[i])
  }

  /** The value of one upper-case hexadecimal digit. */
  function DigitValue(c: char): (d: nat)
    requires IsUpperHexDigit(c)
    ensures d < 16
  {
    if c <= '9' then c as int - '0' as int else c as int - 'A' as int + 10
  }

  /** The upper-case digit for a value below 16. */
  function HexDigit(d: nat): (c: char)
    requires d < 16
    ensures IsUpperHexDigit(c) && DigitValue(c) == d
  {
    if d < 10 then ('0' as int + d) as char else ('A' as int + d - 10) as char
  }

  lemma HexDigitOfValue(c: char)
    requires IsUpperHexDigit(c)
    ensures HexDigit(DigitValue(c)) == c
  {
  }

  function Pow16(n: nat): (p: nat)
    ensures p >= 1
  {
    if n == 0 then 1 else 16 * Pow16(n - 1)
  }

  /** The digits of `%X` without width: the fewest that represent `v`, and at
      least one. */
  function HexDigits(v: nat): (s: seq<char>)
    ensures 1 <= |s| && IsUpperHex(s)
    decreases v
  {
    if v < 16 then [HexDigit(v)] else HexDigits(v / 16) + [HexDigit(v % 16)]
  }

  /** The digits are the fewest: only the value 0 is written with a leading zero. */
  lemma {:induction false} HexDigitsMinimal(v: nat)
    requires v >= 1
    ensures HexDigits(v)[0] != '0'
    decreases v
  {
    if v >= 16 {
      HexDigitsMinimal(v / 16);
    }
  }

  /** The `0` flag: zeros on the left up to the field width. */
  function ZeroPad(s: seq<char>, width: nat): (r: seq<char>)
    ensures |r| == if |s| < width then width else |s|
    ensures r[|r| - |s|..] == s
    ensures forall i :: 0 <= i < |r| - |s| ==> r[i] == '0'
  {
    if |s| < width then seq(width - |s|, _ => '0') + s else s
  }

  /** `v` needs no more than `n` digits when it is below 16^n. */
  lemma {:induction false} HexDigitsFit(v: nat, n: nat)
    requires n >= 1 && v < Pow16(n)
    ensures |HexDigits(v)| <= n
    decreases n
  {
    if v >= 16 {
      HexDigitsFit(v / 16, n - 1);
    }
  }

  /** `%08X` of a uint32_t: exactly eight upper-case hexadecimal digits. */
  function FormatX08(v: Uint32): (s: seq<char>)
    ensures |s| == FieldWidth && IsUpperHex(s)
  {
    HexDigitsFit(v, FieldWidth);
    ZeroPad(HexDigits(v), FieldWidth)
  }

  /** Reading a string of upper-case hexadecimal digits as a number, most
      significant digit first. */
  function ParseHex(s: seq<char>): (v: nat)
    requires IsUpperHex(s)
    ensures v < Pow16(|s|)
  {
    if s == [] then 0 else ParseHex(s[..|s| - 1]) * 16 + DigitValue(s[|s| - 1])
  }

  lemma {:induction false} ParseHexDigits(v: nat)
    ensures ParseHex(HexDigits(v)) == v
    decreases v
  {
    if v >= 16 {
      var s := HexDigits(v);
      assert s[..|s| - 1] == HexDigits(v / 16);
      ParseHexDigits(v / 16);
    }
  }

  /** Leading zeros do not change the value. */
  lemma {:induction false} ParseHexLeadingZeros(z: seq<char>, s: seq<char>)
    requires forall i :: 0 <= i < |z| ==> z[i] == '0'
    requires IsUpperHex(s)
    ensures IsUpperHex(z + s) && ParseHex(z + s) == ParseHex(s)
    decreases |z| + |s|
  {
    var t := z + s;
    if s == [] {
      assert t == z;
      if z != [] {
        assert t[..|t| - 1] == z[..|z| - 1];
        ParseHexLeadingZeros(z[..|z| - 1], []);
        assert z[..|z| - 1] + [] == z[..|z| - 1];
      }
    } else {
      assert t[..|t| - 1] == z + s[..|s| - 1];
      ParseHexLeadingZeros(z, s[..|s| - 1]);
    }
  }

  /** Decoding the eight digits gives back the id. */
  lemma DecodeEncode(v: Uint32)
    ensures ParseHex(FormatX08(v)) == v
  {
    var d := HexDigits(v);
    var s := FormatX08(v);
    var z := s[..|s| - |d|];
    assert s == z + d;
    ParseHexLeadingZeros(z, d);
    ParseHexDigits(v);
  }

  /** Two digit strings of equal length with the same value are equal. */
  lemma {:induction false} ParseHexInjective(s: seq<char>, t: seq<char>)
    requires |s| == |t| && IsUpperHex(s) && IsUpperHex(t)
    requires ParseHex(s) == ParseHex(t)
    ensures s == t
    decreases |s|
  {
    if s != [] {
      var n := |s| - 1;
      var a, b := ParseHex(s[..n]), ParseHex(t[..n]);
      var c, d := DigitValue(s[n]), DigitValue(t[n]);
      assert a * 16 + c == b * 16 + d;
      assert a == b && c == d;
      ParseHexInjective(s[..n], t[..n]);
      HexDigitOfValue(s[n]);
      HexDigitOfValue(t[n]);
      assert s == s[..n] + [s[n]] && t == t[..n] + [t[n]];
    }
  }

  lemma Pow16Eight()
    ensures Pow16(8) == Uint32Modulus
  {
  }

  /** Every string of eight upper-case hexadecimal digits is the encoding of
      exactly one id: the one it decodes to. */
  lemma EncodeDecode(s: seq<char>)
    requires |s| == FieldWidth && IsUpperHex(s)
    ensures ParseHex(s) < Uint32Modulus && FormatX08(ParseHex(s)) == s
  {
    Pow16Eight();
    var v: Uint32 := ParseHex(s);
    DecodeEncode(v);
    ParseHexInjective(FormatX08(v), s);
  }

  /** Different ids give different strings. */
  lemma FormatX08Injective(a: Uint32, b: Uint32)
    requires FormatX08(a) == FormatX08(b)
    ensures a == b
  {
    DecodeEncode(a);
    DecodeEncode(b);
  }

  /** The NUL-terminated string left in the 9-character zeroed array by
      `snprintf(tmp.data(), 9, "%08X", id)`. */
  function ChipIdString(id: Uint32): (s: seq<char>)
    ensures s == FormatX08(id)
    ensures Snprintf(ZeroedBuffer(ChipIdStringLength), FormatX08(id)).count < ChipIdStringLength
  {
    var text := FormatX08(id);
    SnprintfReadBack(ZeroedBuffer(ChipIdStringLength), text);
    ReadCString(Snprintf(ZeroedBuffer(ChipIdStringLength), text).buffer)
  }

  lemma ChipIdDeadBeef()
    ensures ChipIdString(0xDEADBEEF) == "DEADBEEF"
  {
    assert HexDigits(0xD) == "D";
    assert HexDigits(0xDE) == "DE";
    assert HexDigits(0xDEA) == "DEA";
    assert HexDigits(0xDEAD) == "DEAD";
    assert HexDigits(0xDEADB) == "DEADB";
    assert HexDigits(0xDEADBE) == "DEADBE";
    assert HexDigits(0xDEADBEE) == "DEADBEE";
    assert HexDigits(0xDEADBEEF) == "DEADBEEF";
  }
}
