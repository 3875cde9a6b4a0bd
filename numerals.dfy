/**
 * Positional numerals over ASCII digits: what `int(s)` computes for a string
 * accepted by `str.isdigit()`, and what `int(s, 16)` computes for a string of
 * hexadecimal digits.
 */
module Numerals {

  predicate IsHexDigit(c: char) {
    '0' <= c <= '9' || 'a' <= c <= 'f' || 'A' <= c <= 'F'
  }

  /** The value of one digit; upper- and lower-case letters agree. */
  function DigitValue(c: char): (d: nat)
    requires IsHexDigit(c)
    ensures d < 16
    ensures d < 10 <==> '0' <= c <= '9'
  {
    if '0' <= c <= '9' then c as int - '0' as int
    else if 'a' <= c <= 'f' then c as int - 'a' as int + 10
    else c as int - 'A' as int + 10
  }

  /** A digit of the given base. */
  predicate IsDigitOf(base: nat, c: char) {
    IsHexDigit(c) && DigitValue(c) < base
  }

  /** A non-empty string of digits of the given base. */
  predicate IsNumeral(base: nat, s: string) {
    |s| > 0 && forall i :: 0 <= i < |s| ==> IsDigitOf(base, s[i])
  }

  /** `str.isdigit()` on ASCII text: non-empty and every character in '0'..'9'. */
  predicate IsDecimal(s: string) {
    IsNumeral(10, s)
  }

  /** Accepted by `int(s, 16)` in its plainest form: non-empty hexadecimal digits. */
  predicate IsHex(s: string) {
    IsNumeral(16, s)
  }

  function Pow(base: nat, n: nat): nat {
    if n == 0 then 1 else base * Pow(base, n - 1)
  }

  /** The value of a digit string, most significant digit first. */
  function ValueOf(base: nat, s: string): nat
    requires forall i :: 0 <= i < |s| ==> IsDigitOf(base, s[i])
  {
    if s == [] then 0
    else
      assert IsDigitOf(base, s[|s| - 1]);
      var v := ValueOf(base, s[..|s| - 1]);
      MulMonotone(0, v, base);
      v * base + DigitValue(s[|s| - 1])
  }

  /** The lower-case digit for a value below 16. */
  function DigitChar(d: nat): (c: char)
    requires d < 16
    ensures IsHexDigit(c) && DigitValue(c) == d
  {
    if d < 10 then ('0' as int + d) as char else ('a' as int + d - 10) as char
  }

  /** The shortest numeral for n in the given base: the reference the parsers are checked against. */
  function Render(base: nat, n: nat): (s: string)
    requires 2 <= base <= 16
    ensures |s| > 0
    ensures forall i :: 0 <= i < |s| ==> IsDigitOf(base, s[i])
    decreases n
  {
    if n < base then [DigitChar(n)]
    else
      DivShrinks(n, base);
      Render(base, n / base) + [DigitChar(n % base)]
  }

  /** Parsing inverts rendering. */
  lemma {:induction false} ValueOfRender(base: nat, n: nat)
    requires 2 <= base <= 16
    ensures IsNumeral(base, Render(base, n))
    ensures ValueOf(base, Render(base, n)) == n
    decreases n
  {
    var s := Render(base, n);
    if n < base {
      assert s[..0] == [];
    } else {
      var q, r := n / base, n % base;
      var t := Render(base, q);
      DivShrinks(n, base);
      ValueOfRender(base, q);
      assert s[..|s| - 1] == t;
      assert ValueOf(base, s) == ValueOf(base, t) * base + r;
      DivMod(n, base);
    }
  }

  lemma DivMod(n: nat, base: nat)
    requires base > 0
    ensures (n / base) * base + n % base == n
  {
  }

  lemma DivShrinks(n: nat, base: nat)
    requires base >= 2 && n >= base
    ensures n / base < n
  {
    DivMod(n, base);
    MulMonotone(2, base, n / base);
  }

  lemma AppendDigitBelow(v: nat, d: nat, p: nat, base: nat)
    requires v < p && d < base
    ensures v * base + d < p * base
  {
    MulMonotone(v + 1, p, base);
    assert (v + 1) * base == v * base + base;
  }

  lemma MulMonotone(a: nat, b: nat, c: nat)
    requires a <= b
    ensures a * c <= b * c
  {
  }

  /** A numeral of k digits denotes a value below base^k; so four hex digits fit in 16 bits. */
  lemma {:induction false} ValueBelowPow(base: nat, s: string)
    requires forall i :: 0 <= i < |s| ==> IsDigitOf(base, s[i])
    ensures ValueOf(base, s) < Pow(base, |s|)
    decreases |s|
  {
    if s != [] {
      var init := s[..|s| - 1];
      ValueBelowPow(base, init);
      var v := ValueOf(base, init);
      var d := DigitValue(s[|s| - 1]);
      assert IsDigitOf(base, s[|s| - 1]);
      AppendDigitBelow(v, d, Pow(base, |init|), base);
    }
  }

  /** Leading zeros do not change the value ("video007" has index 7). */
  lemma {:induction false} LeadingZeroIgnored(base: nat, s: string)
    requires base >= 1
    requires forall i :: 0 <= i < |s| ==> IsDigitOf(base, s[i])
    ensures ValueOf(base, "0" + s) == ValueOf(base, s)
    decreases |s|
  {
    var z := "0" + s;
    if s == [] {
      assert z[..0] == [];
    } else {
      var init := s[..|s| - 1];
      assert z[..|z| - 1] == "0" + init;
      LeadingZeroIgnored(base, init);
    }
  }
}
