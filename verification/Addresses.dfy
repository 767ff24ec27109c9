/** The canonical form of addresses and table handles. */
module Addresses {

  /** Left-pad with '0' to at least `width` characters. */
  function PadZeros(s: string, width: nat): (r: string)
    ensures |r| == if |s| < width then width else |s|
    decreases width - |s|
  {
    if |s| < width then PadZeros("0" + s, width) else s
  }

  function StripPrefix(s: string): string {
    if "0x" <= s then s[2..] else s
  }

  function StandardizeAddress(handle: string): string {
    "0x" + PadZeros(StripPrefix(handle), 64)
  }

  /** Standardizing twice is standardizing once, for every string. */
  lemma StandardizeIdempotent(s: string)
    ensures StandardizeAddress(StandardizeAddress(s)) == StandardizeAddress(s)
  {
    var padded := PadZeros(StripPrefix(s), 64);
    assert StripPrefix("0x" + padded) == padded;
  }

  lemma {:induction false} PadZerosShape(s: string, width: nat)
    ensures var r, n := PadZeros(s, width), if |s| < width then width - |s| else 0;
            |r| == n + |s| && r[n..] == s && forall i | 0 <= i < n :: r[i] == '0'
    decreases width - |s|
  {
    if |s| < width {
      PadZerosShape("0" + s, width);
      var r, n := PadZeros(s, width), width - |s|;
      assert r[n - 1..] == "0" + s;
      assert r[n..] == r[n - 1..][1..] && r[n - 1] == r[n - 1..][0];
    }
  }

  /** For every string: the standard form is 0x, zeros up to 64 digits, and the digits as written; with
      at most 64 digits it is 66 characters long. */
  lemma StandardFormShape(digits: string, prefixed: bool)
    requires prefixed || !("0x" <= digits)
    ensures var r := StandardizeAddress(if prefixed then "0x" + digits else digits);
            var n := if |digits| < 64 then 64 - |digits| else 0;
            && |r| == 2 + n + |digits| && (|digits| <= 64 ==> |r| == 66)
            && r[..2] == "0x" && r[2 + n..] == digits && forall i | 2 <= i < 2 + n :: r[i] == '0'
  {
    var s := if prefixed then "0x" + digits else digits;
    assert StripPrefix(s) == digits;
    PadZerosShape(digits, 64);
    var r, p := StandardizeAddress(s), PadZeros(digits, 64);
    assert r == "0x" + p;
    assert forall i | 2 <= i < |r| :: r[i] == p[i - 2];
  }

  predicate HexDigit(c: char) {
    '0' <= c <= '9' || 'a' <= c <= 'f'
  }

  function DigitValue(c: char): (d: nat)
    requires HexDigit(c)
    ensures d < 16
  {
    if c <= '9' then c as int - '0' as int else c as int - 'a' as int + 10
  }

  predicate Hex(s: string) {
    forall c <- s :: HexDigit(c)
  }

  function HexValue(s: string): nat
    requires Hex(s)
  {
    if s == [] then 0 else 16 * HexValue(s[..|s| - 1]) + DigitValue(s[|s| - 1])
  }

  /** An address as users write it: up to 64 lowercase hex digits, with or without 0x. */
  predicate AddressText(s: string) {
    Hex(StripPrefix(s)) && |StripPrefix(s)| <= 64
  }

  function AddressValue(s: string): nat
    requires AddressText(s)
  {
    HexValue(StripPrefix(s))
  }

  lemma {:induction false} LeadingZero(s: string)
    requires Hex(s)
    ensures Hex("0" + s) && HexValue("0" + s) == HexValue(s)
  {
    var z := "0" + s;
    if s == [] {
      assert z[..0] == [];
    } else {
      LeadingZero(s[..|s| - 1]);
      assert z[..|z| - 1] == "0" + s[..|s| - 1];
    }
  }

  lemma {:induction false} PaddingKeepsValue(s: string, width: nat)
    requires Hex(s)
    ensures Hex(PadZeros(s, width)) && HexValue(PadZeros(s, width)) == HexValue(s)
    decreases width - |s|
  {
    if |s| < width {
      LeadingZero(s);
      PaddingKeepsValue("0" + s, width);
    }
  }

  lemma LastDigit(a: nat, x: nat, b: nat, y: nat)
    requires 16 * a + x == 16 * b + y && x < 16 && y < 16
    ensures a == b && x == y
  {
  }

  lemma SameDigit(a: char, b: char)
    requires HexDigit(a) && HexDigit(b) && DigitValue(a) == DigitValue(b)
    ensures a == b
  {
  }

  /** Equally long hex strings with the same value are the same string. */
  lemma {:induction false} HexInjective(s: string, t: string)
    requires Hex(s) && Hex(t) && |s| == |t| && HexValue(s) == HexValue(t)
    ensures s == t
  {
    if s != [] {
      var a, b := s[|s| - 1], t[|t| - 1];
      LastDigit(HexValue(s[..|s| - 1]), DigitValue(a), HexValue(t[..|t| - 1]), DigitValue(b));
      SameDigit(a, b);
      HexInjective(s[..|s| - 1], t[..|t| - 1]);
      assert s == s[..|s| - 1] + [a] && t == t[..|t| - 1] + [b];
    }
  }

  /** Two written forms standardize to the same string exactly when they denote the same number. */
  lemma StandardFormIsNumber(s: string, t: string)
    requires AddressText(s) && AddressText(t)
    ensures StandardizeAddress(s) == StandardizeAddress(t) <==> AddressValue(s) == AddressValue(t)
  {
    var a, b := PadZeros(StripPrefix(s), 64), PadZeros(StripPrefix(t), 64);
    PaddingKeepsValue(StripPrefix(s), 64);
    PaddingKeepsValue(StripPrefix(t), 64);
    assert StandardizeAddress(s)[2..] == a && StandardizeAddress(t)[2..] == b;
    if AddressValue(s) == AddressValue(t) {
      HexInjective(a, b);
    }
  }
}
