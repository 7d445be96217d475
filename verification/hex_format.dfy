/** Lower-case hexadecimal rendering of an unsigned number, as
    fmt::format("{:x}", n) produces it for the hit record's Gla field: no
    prefix, no leading zeros, "0" for zero. */
module HexFormat {

  predicate IsHexDigit(c: char) {
    '0' <= c <= '9' || 'a' <= c <= 'f'
  }

  predicate AllHexDigits(s: string) {
    forall i :: 0 <= i < |s| ==> IsHexDigit(s[i])
  }

  /** No leading zero, except the one-digit "0". */
  predicate Canonical(s: string) {
    |s| >= 1 && AllHexDigits(s) && (|s| > 1 ==> s[0] != '0')
  }

  function DigitValue(c: char): (d: nat)
    requires IsHexDigit(c)
    ensures d < 16
  {
    if c <= '9' then c as int - '0' as int else c as int - 'a' as int + 10
  }

  function DigitChar(d: nat): (c: char)
    requires d < 16
    ensures IsHexDigit(c) && DigitValue(c) == d
    ensures d == 0 <==> c == '0'
  {
    if d < 10 then ('0' as int + d) as char else ('a' as int + d - 10) as char
  }

  /** The number a string of hex digits denotes, most significant first. */
  function HexValue(s: string): nat
    requires AllHexDigits(s)
    decreases |s|
  {
    if s == [] then 0 else HexValue(s[..|s| - 1]) * 16 + DigitValue(s[|s| - 1])
  }

  function LowerHex(n: nat): (s: string)
    ensures Canonical(s)
    decreases n
  {
    if n < 16 then [DigitChar(n)] else LowerHex(n / 16) + [DigitChar(n % 16)]
  }

  /** Reading the rendering back gives the number. */
  lemma {:induction false} LowerHexRoundTrip(n: nat)
    ensures HexValue(LowerHex(n)) == n
    decreases n
  {
    if n >= 16 {
      var s := LowerHex(n);
      var p := LowerHex(n / 16);
      assert s[..|s| - 1] == p;
      LowerHexRoundTrip(n / 16);
    }
  }

  lemma {:induction false} ZeroValueMeansZeroDigits(s: string)
    requires AllHexDigits(s) && |s| > 0 && HexValue(s) == 0
    ensures s[0] == '0'
    decreases |s|
  {
    if |s| == 1 {
      assert DigitChar(DigitValue(s[0])) == s[0] by {
        if s[0] <= '9' { } else { }
      }
    } else {
      var p := s[..|s| - 1];
      ZeroValueMeansZeroDigits(p);
    }
  }

  /** Every canonical digit string is the rendering of the number it
      denotes, so the rendering is a bijection onto canonical strings. */
  lemma {:induction false} CanonicalIsLowerHex(s: string)
    requires Canonical(s)
    ensures LowerHex(HexValue(s)) == s
    decreases |s|
  {
    var last := s[|s| - 1];
    assert DigitChar(DigitValue(last)) == last by {
      if last <= '9' { } else { }
    }
    if |s| > 1 {
      var p := s[..|s| - 1];
      assert Canonical(p);
      if HexValue(p) == 0 {
        ZeroValueMeansZeroDigits(p);
        assert false;
      }
      CanonicalIsLowerHex(p);
      var n := HexValue(s);
      assert n / 16 == HexValue(p) && n % 16 == DigitValue(last);
      assert s == p + [last];
    }
  }
}
