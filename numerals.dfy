/**
 * Unsigned integers written as digits in base 10 or 16, the way Rust's
 * `Debug` prints them: most significant digit first, no leading zeros, lower
 * case letters above nine. Base 10 renders `usize` fields; base 16 renders the
 * code of a character inside a `\u{...}` escape.
 */
module Numerals {
  import opened Wrappers

  /** The two bases the source prints in. */
  predicate ValidBase(base: nat) { base == 10 || base == 16 }

  /** The value of a digit character in base 16, or `None` for any other character. */
  function DigitValue(c: char): (r: Option<nat>)
    ensures r.Some? ==> r.value < 16
  {
    if '0' <= c <= '9' then Some(c as int - '0' as int)
    else if 'a' <= c <= 'f' then Some(c as int - 'a' as int + 10)
    else None
  }

  /** The character Rust prints for digit value `d`. */
  function DigitChar(d: nat): (c: char)
    requires d < 16
    ensures DigitValue(c) == Some(d)
    ensures c == '0' <==> d == 0
  {
    if d < 10 then ('0' as int + d) as char else ('a' as int + d - 10) as char
  }

  predicate IsDigit(c: char, base: nat)
  {
    DigitValue(c).Some? && DigitValue(c).value < base
  }

  predicate AllDigits(s: string, base: nat)
  {
    forall i :: 0 <= i < |s| ==> IsDigit(s[i], base)
  }

  /** The numeral `n` in `base`: never empty, and starting with `0` only for zero itself. */
  function Digits(n: nat, base: nat): (s: string)
    requires ValidBase(base)
    ensures |s| >= 1 && AllDigits(s, base)
    ensures s[0] == '0' <==> n == 0
    ensures s[0] == '0' ==> |s| == 1
    decreases n
  {
    if n < base then [DigitChar(n)] else Digits(n / base, base) + [DigitChar(n % base)]
  }

  function Decimal(n: nat): string { Digits(n, 10) }

  function LowerHex(n: nat): string { Digits(n, 16) }

  /** The value of a string of digits, most significant first. */
  function Value(s: string, base: nat): nat
    requires ValidBase(base) && AllDigits(s, base)
  {
    if s == [] then 0 else Value(s[..|s| - 1], base) * base + DigitValue(s[|s| - 1]).value
  }

  /** The numerals `Digits` can produce: non-empty, digits only, no leading zero. */
  predicate Canonical(s: string, base: nat)
  {
    |s| >= 1 && AllDigits(s, base) && (s[0] == '0' ==> |s| == 1)
  }

  /** Reads back a canonical numeral; anything else is refused. */
  function ParseNumeral(s: string, base: nat): (r: Option<nat>)
    requires ValidBase(base)
  {
    if Canonical(s, base) then Some(Value(s, base)) else None
  }

  lemma {:induction false} ValueOfDigits(n: nat, base: nat)
    requires ValidBase(base)
    ensures Value(Digits(n, base), base) == n
    decreases n
  {
    var s := Digits(n, base);
    if n >= base {
      assert s[..|s| - 1] == Digits(n / base, base);
      ValueOfDigits(n / base, base);
    }
  }

  /** Printing then reading a numeral gives back the number. */
  lemma ParseDigits(n: nat, base: nat)
    requires ValidBase(base)
    ensures ParseNumeral(Digits(n, base), base) == Some(n)
  {
    ValueOfDigits(n, base);
  }

  /** A numeral with no leading zero and more than one digit has a value of at least one. */
  lemma {:induction false} ValuePositive(s: string, base: nat)
    requires ValidBase(base) && AllDigits(s, base) && |s| >= 1 && s[0] != '0'
    ensures Value(s, base) >= 1
    decreases |s|
  {
    if |s| == 1 {
      assert s[..0] == [];
      assert DigitValue(s[0]).value != 0 by {
        DigitCharOfValue(s[0]);
      }
    } else {
      var p := s[..|s| - 1];
      assert p[0] == s[0];
      assert AllDigits(p, base);
      ValuePositive(p, base);
    }
  }

  lemma DigitCharOfValue(c: char)
    requires DigitValue(c).Some?
    ensures DigitChar(DigitValue(c).value) == c
  {
  }

  /** A canonical numeral is exactly how its value is printed. */
  lemma {:induction false} DigitsOfValue(s: string, base: nat)
    requires ValidBase(base) && Canonical(s, base)
    ensures Digits(Value(s, base), base) == s
    decreases |s|
  {
    var last := s[|s| - 1];
    var d := DigitValue(last).value;
    DigitCharOfValue(last);
    var p := s[..|s| - 1];
    assert AllDigits(p, base);
    if |s| == 1 {
      assert p == [];
    } else {
      assert p[0] == s[0];
      assert s[0] != '0';
      ValuePositive(p, base);
      DigitsOfValue(p, base);
      var n := Value(s, base);
      var v := Value(p, base);
      assert n == v * base + d;
      assert n / base == v && n % base == d;
      assert s == p + [last];
    }
  }

  /** Reading a numeral and printing its value gives back the same text. */
  lemma PrintParsed(s: string, base: nat)
    requires ValidBase(base) && ParseNumeral(s, base).Some?
    ensures Digits(ParseNumeral(s, base).value, base) == s
  {
    DigitsOfValue(s, base);
  }
}
