/**
 Decimal numerals: what `strconv.FormatInt(v, 10)`, `strconv.ParseInt(s, 10, 64)`
 and `strconv.Atoi` do, with the value of a digit string defined on its own.
 */
module Decimal {
  import opened Wrappers

  const MIN_INT64 := -0x8000_0000_0000_0000
  const MAX_INT64 := 0x7FFF_FFFF_FFFF_FFFF

  predicate IsDigit(c: char) { '0' <= c <= '9' }

  predicate AllDigits(s: string) {
    forall i :: 0 <= i < |s| ==> IsDigit(s[i])
  }

  function DigitOf(c: char): nat
    requires IsDigit(c)
  {
    c as int - '0' as int
  }

  function DigitChar(d: nat): (c: char)
    requires d < 10
    ensures IsDigit(c) && DigitOf(c) == d
  {
    ('0' as int + d) as char
  }

  /** The number a digit string denotes, most significant digit first. */
  function Value(s: string): nat
    requires AllDigits(s)
  {
    if s == "" then 0 else 10 * Value(s[..|s| - 1]) + DigitOf(s[|s| - 1])
  }

  /** The shortest digit string for `n`. */
  function Digits(n: nat): (s: string)
    ensures s != "" && AllDigits(s) && Value(s) == n
    ensures s[0] == '0' ==> n == 0
  {
    if n < 10 then [DigitChar(n)]
    else
      var front := Digits(n / 10);
      var s := front + [DigitChar(n % 10)];
      assert s[..|s| - 1] == front;
      s
  }

  /** `strconv.FormatInt(v, 10)`. */
  function FormatInt(v: int): (s: string)
    ensures s != ""
  {
    if v < 0 then "-" + Digits(-v) else Digits(v)
  }

  /** A numeral `ParseInt` accepts: an optional sign and at least one digit. */
  predicate IsNumeral(s: string) {
    var digits := Unsigned(s);
    digits != "" && AllDigits(digits)
  }

  function Unsigned(s: string): string {
    if s != "" && (s[0] == '+' || s[0] == '-') then s[1..] else s
  }

  function Signed(s: string): int
    requires IsNumeral(s)
  {
    var n: int := Value(Unsigned(s));
    if s[0] == '-' then -n else n
  }

  /** `strconv.ParseInt(s, 10, 64)`: malformed or out-of-range text is an error. */
  function ParseInt(s: string): Option<int> {
    if IsNumeral(s) && MIN_INT64 <= Signed(s) <= MAX_INT64 then Some(Signed(s)) else None
  }

  /** Printing then parsing gives the number back, over the whole int64 range. */
  lemma ParseFormat(v: int)
    requires MIN_INT64 <= v <= MAX_INT64
    ensures ParseInt(FormatInt(v)) == Some(v)
  {
    var s := FormatInt(v);
    if v < 0 {
      assert s[1..] == Digits(-v);
    } else {
      assert IsDigit(s[0]);
    }
  }

  /** A printed number is one run of digits, possibly after a minus sign. */
  lemma FormatChars(v: int)
    ensures forall c :: c in FormatInt(v) ==> IsDigit(c) || c == '-'
  {
  }

  /** Distinct numbers print differently. */
  lemma FormatInjective(v: int, w: int)
    requires FormatInt(v) == FormatInt(w)
    ensures v == w
  {
    var s := FormatInt(v);
    if v < 0 {
      assert s[1..] == Digits(-v);
      assert s[1..] == Digits(-w);
    } else {
      assert IsDigit(Digits(v)[0]);
    }
  }

  function Pow10(w: nat): (r: nat)
    ensures r >= 1
  {
    if w == 0 then 1 else 10 * Pow10(w - 1)
  }

  /** `n` in decimal, zero-padded on the left to at least `w` digits. */
  function Padded(n: nat, w: nat): (s: string)
    ensures AllDigits(s) && |s| >= w
    ensures Value(s) == n
    ensures |s| == w <==> n < Pow10(w)
  {
    if w == 0 then (if n == 0 then "" else Digits(n))
    else
      var s := Padded(n / 10, w - 1) + [DigitChar(n % 10)];
      assert s[..|s| - 1] == Padded(n / 10, w - 1);
      s
  }

  lemma {:induction false} ValueInjective(s: string, t: string)
    requires AllDigits(s) && AllDigits(t) && |s| == |t| && Value(s) == Value(t)
    ensures s == t
  {
    if s != "" {
      var n := |s| - 1;
      assert DigitOf(s[n]) == DigitOf(t[n]) && Value(s[..n]) == Value(t[..n]);
      ValueInjective(s[..n], t[..n]);
      assert s == s[..n] + [s[n]] && t == t[..n] + [t[n]];
    }
  }

  lemma {:induction false} ValueBound(s: string)
    requires AllDigits(s)
    ensures Value(s) < Pow10(|s|)
  {
    if s != "" {
      ValueBound(s[..|s| - 1]);
    }
  }

  /** Ten digits, each worth its place in the row. */
  lemma DigitsInOrder(c: char)
    requires IsDigit(c)
    ensures DigitOf(c) < 10 && "0123456789"[DigitOf(c)] == c
  {
  }

  /** A positional numeral: one more digit is ten times the number and the digit. */
  lemma ValueSnoc(s: string, c: char)
    requires AllDigits(s) && IsDigit(c)
    ensures AllDigits(s + [c]) && Value(s + [c]) == 10 * Value(s) + DigitOf(c)
  {
    assert (s + [c])[..|s|] == s;
  }

  /** `ParseInt` reads exactly an optional sign and digits, when the number fits into 64 bits. */
  lemma ParseIntExactly(s: string, v: int)
    ensures ParseInt(s) == Some(v) <==>
            && -0x8000_0000_0000_0000 <= v <= 0x7FFF_FFFF_FFFF_FFFF
            && exists sign: string, digits: string ::
                 && s == sign + digits && sign in ["", "+", "-"] && digits != "" && AllDigits(digits)
                 && v == if sign == "-" then -(Value(digits) as int) else Value(digits)
  {
    if ParseInt(s) == Some(v) {
      var digits := Unsigned(s);
      var sign := if s[0] == '+' || s[0] == '-' then [s[0]] else "";
      assert s == sign + digits;
    }
    if sign: string, digits: string :|
        && s == sign + digits && sign in ["", "+", "-"] && digits != "" && AllDigits(digits)
        && v == (if sign == "-" then -(Value(digits) as int) else Value(digits))
        && -0x8000_0000_0000_0000 <= v <= 0x7FFF_FFFF_FFFF_FFFF
    {
      SignedIs(sign, digits);
    }
  }

  lemma SignedIs(sign: string, digits: string)
    requires sign in ["", "+", "-"] && digits != "" && AllDigits(digits)
    ensures IsNumeral(sign + digits)
    ensures Signed(sign + digits) == if sign == "-" then -(Value(digits) as int) else Value(digits)
  {
    var s := sign + digits;
    assert IsDigit(digits[0]);
    if sign == "" {
      assert s == digits;
    } else {
      assert s[1..] == digits;
    }
  }
}
