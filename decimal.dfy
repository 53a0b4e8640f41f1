/** Decimal rendering of naturals, as `String(n)` and `padStart` produce it. */
module Decimal {

  function Digit(d: nat): char
    requires d < 10
  {
    "0123456789"[d]
  }

  /** `String(n)` for a natural number: its decimal digits, without leading zeros. */
  function NatToString(n: nat): (s: string)
    ensures |s| >= 1
    ensures forall i :: 0 <= i < |s| ==> '0' <= s[i] <= '9'
  {
    if n < 10 then [Digit(n)] else NatToString(n / 10) + [Digit(n % 10)]
  }

  /** The number a string of decimal digits denotes, leading zeros included. */
  function DigitsValue(s: string): nat
    requires forall i :: 0 <= i < |s| ==> '0' <= s[i] <= '9'
  {
    if s == [] then 0
    else DigitsValue(s[..|s| - 1]) * 10 + (s[|s| - 1] - '0') as nat
  }

  /** `s.padStart(width, pad)`: `pad` repeated on the left up to `width` characters. */
  function PadStart(s: string, width: nat, pad: char): (r: string)
    ensures |r| == if |s| >= width then |s| else width
  {
    if |s| >= width then s else seq(width - |s|, _ => pad) + s
  }

  /** The padded string ends with `s`, and everything before it is `pad`. */
  lemma PadStartShape(s: string, width: nat, pad: char)
    ensures var r := PadStart(s, width, pad);
      && r[|r| - |s|..] == s
      && forall i :: 0 <= i < |r| - |s| ==> r[i] == pad
  {
  }

  /** Reading back the rendering of `n` gives `n`. */
  lemma {:induction false} NatToStringValue(n: nat)
    ensures DigitsValue(NatToString(n)) == n
  {
    var s := NatToString(n);
    if n < 10 {
      DigitValue(n);
    } else {
      NatToStringValue(n / 10);
      assert s[..|s| - 1] == NatToString(n / 10);
      DigitValue(n % 10);
      assert (n / 10) * 10 + n % 10 == n;
    }
  }

  lemma DigitValue(d: nat)
    requires d < 10
    ensures (Digit(d) - '0') as nat == d
  {
    if d == 0 {} else if d == 1 {} else if d == 2 {} else if d == 3 {} else if d == 4 {}
    else if d == 5 {} else if d == 6 {} else if d == 7 {} else if d == 8 {}
  }

  /** Leading zeros do not change the value. */
  lemma {:induction false} LeadingZeros(z: string, s: string)
    requires forall i :: 0 <= i < |z| ==> z[i] == '0'
    requires forall i :: 0 <= i < |s| ==> '0' <= s[i] <= '9'
    ensures DigitsValue(z + s) == DigitsValue(s)
  {
    if s == [] {
      assert z + s == z;
      Zeros(z);
    } else {
      assert (z + s)[..|z + s| - 1] == z + s[..|s| - 1];
      LeadingZeros(z, s[..|s| - 1]);
    }
  }

  lemma {:induction false} Zeros(z: string)
    requires forall i :: 0 <= i < |z| ==> z[i] == '0'
    ensures DigitsValue(z) == 0
  {
    if z != [] {
      Zeros(z[..|z| - 1]);
    }
  }

  /** Zero-padding `String(n)` to any width still reads back as `n`. */
  lemma PaddedValue(n: nat, width: nat)
    ensures var s := PadStart(NatToString(n), width, '0');
      (forall i :: 0 <= i < |s| ==> '0' <= s[i] <= '9') && DigitsValue(s) == n
  {
    var d := NatToString(n);
    NatToStringValue(n);
    if |d| < width {
      LeadingZeros(seq(width - |d|, _ => '0'), d);
    }
  }

  /** `prefix + padStart(String(n), width, '0')` names each `n` differently. */
  lemma PaddedInjective(prefix: string, m: nat, n: nat, width: nat)
    requires prefix + PadStart(NatToString(m), width, '0') == prefix + PadStart(NatToString(n), width, '0')
    ensures m == n
  {
    var a, b := PadStart(NatToString(m), width, '0'), PadStart(NatToString(n), width, '0');
    assert a == (prefix + a)[|prefix|..];
    assert b == (prefix + b)[|prefix|..];
    PaddedValue(m, width);
    PaddedValue(n, width);
  }

  /** `prefix + String(n)` names each `n` differently. */
  lemma NamedInjective(prefix: string, m: nat, n: nat)
    requires prefix + NatToString(m) == prefix + NatToString(n)
    ensures m == n
  {
    assert NatToString(m) == (prefix + NatToString(m))[|prefix|..];
    assert NatToString(n) == (prefix + NatToString(n))[|prefix|..];
    NatToStringValue(m);
    NatToStringValue(n);
  }
}
