/**
 Kubernetes quantities as internal/registry/validate.go checks them: a decimal
 number with an optional unit, positive, and at most a cap with a relative slack
 of 1e-12. Numbers are exact reals.
 */
module Quantity {
  import opened Decimal
  import opened Patterns
  import opened Text
  import opened Wrappers

  datatype QuantityError = Missing | Malformed | NotPositive | TooLarge

  const MAX_MEMORY_BYTES: real := 4294967296.0  // 4Gi
  const MAX_CPU_CORES: real := 4.0
  const SLACK: real := 1.000000000001

  // ------------------------------------------------------------- value of a quantity

  predicate NumberChar(c: char) { IsDigit(c) || c == '.' }

  /** The quantity up to its first character that is neither a digit nor a dot. */
  function NumberPart(q: string): (r: string)
    ensures r <= q
  {
    if q == "" || !NumberChar(q[0]) then "" else [q[0]] + NumberPart(q[1..])
  }

  function Unit(q: string): string { q[|NumberPart(q)|..] }

  /** `strconv.ParseFloat` on a text of digits and dots, without rounding. */
  function ParseFloat(s: string): Option<real> {
    match Cut(s, '.')
    case None => if s != "" && AllDigits(s) then Some(Value(s) as real) else None
    case Some(p) =>
      if |s| > 1 && AllDigits(p.before) && AllDigits(p.after)
      then Some(Value(p.before) as real + Shifted(Value(p.after), |p.after|))
      else None
  }

  /** `n` with its last `k` digits after the point. */
  function Shifted(n: nat, k: nat): real {
    if k == 0 then n as real else Shifted(n, k - 1) / 10.0
  }

  /** The unit table `"" m K M G T Ki Mi Gi Ti`; a unit that is not in it counts as zero. */
  function Multiplier(unit: string): real {
    if |unit| == 0 then 1.0
    else if |unit| == 1 then Plain(unit[0])
    else if |unit| == 2 && unit[1] == 'i' then Binary(unit[0])
    else 0.0
  }

  function Plain(c: char): real {
    match c
    case 'm' => 0.001
    case 'K' => 1000.0
    case 'M' => 1000000.0
    case 'G' => 1000000000.0
    case 'T' => 1000000000000.0
    case _ => 0.0
  }

  function Binary(c: char): real {
    match c
    case 'K' => 1024.0
    case 'M' => 1048576.0
    case 'G' => 1073741824.0
    case 'T' => 1099511627776.0
    case _ => 0.0
  }

  function QuantityValue(q: string): real { Amount(NumberPart(q), Unit(q)) }

  function Amount(number: string, unit: string): real {
    match ParseFloat(number)
    case None => 0.0
    case Some(n) => InUnit(n, unit)
  }

  function InUnit(n: real, unit: string): real { n * Multiplier(unit) }

  function QuantityPattern(memory: bool): Regex {
    if memory then MemoryPattern() else CpuPattern()
  }

  function Cap(memory: bool): real {
    if memory then MAX_MEMORY_BYTES else MAX_CPU_CORES
  }

  function Check(q: string, memory: bool): Option<QuantityError> {
    if q == "" then Some(Missing)
    else if !FullMatch(QuantityPattern(memory), q) then Some(Malformed)
    else if QuantityValue(q) <= 0.0 then Some(NotPositive)
    else if QuantityValue(q) > Cap(memory) * SLACK then Some(TooLarge)
    else None
  }

  /** A whole number with its last `k` digits after the point, in a unit. */
  function Scaled(n: nat, k: nat, unit: string): real {
    InUnit(Shifted(n, k), unit)
  }

  /** Decimal and binary units, and the two caps. */
  lemma UnitsMean()
    ensures Multiplier("") == 1.0 && Multiplier("m") * 1000.0 == 1.0
    ensures Multiplier("K") == 1000.0 && Multiplier("M") == 1000.0 * Multiplier("K")
    ensures Multiplier("G") == 1000.0 * Multiplier("M") && Multiplier("T") == 1000.0 * Multiplier("G")
    ensures Multiplier("Ki") == 1024.0 && Multiplier("Mi") == 1024.0 * Multiplier("Ki")
    ensures Multiplier("Gi") == 1024.0 * Multiplier("Mi") && Multiplier("Ti") == 1024.0 * Multiplier("Gi")
    ensures Cap(true) == 4.0 * Multiplier("Gi") && Cap(false) == 4.0
  {
  }

  // ------------------------------------------------- what the two patterns spell out

  /** The units a pattern allows. */
  predicate AllowedUnit(memory: bool, unit: string) {
    || |unit| == 0
    || (|unit| == 1 && (if memory then IsScale(unit[0]) else unit[0] == 'm'))
    || (|unit| == 2 && memory && IsScale(unit[0]) && unit[1] == 'i')
  }

  predicate IsScale(c: char) { c == 'K' || c == 'M' || c == 'G' || c == 'T' }

  lemma MemoryUnits(unit: string)
    ensures AllowedUnit(true, unit) <==> unit == "" || unit in MEMORY_UNITS
  {
    assert |unit| == 1 ==> unit == [unit[0]];
    assert |unit| == 2 ==> unit == [unit[0], unit[1]];
  }

  predicate Numeral(s: string) { s != "" && AllDigits(s) }

  /** A number is a whole part and, when `frac` is not empty, a fraction. */
  function Number(whole: string, frac: string): string {
    if frac == "" then whole else whole + ['.'] + frac
  }

  lemma DigitsMany(s: string, i: nat, j: nat)
    requires i <= j <= |s|
    ensures Matches(Plus(One(Digit)), s, i, j) <==> Numeral(s[i..j])
  {
    FirstOfClass(Digit, Many(One(Digit)), s, i, j);
    if i < j {
      OneIsUnit(Digit, s);
      RepeatedUnits(One(Digit), 0, |s|, s, i + 1, j, InClassAt(Digit, s));
      assert s[i..j][0] == s[i];
      assert forall a: nat :: i <= a < j ==> s[i..j][a - i] == s[a] && (InClassAt(Digit, s)(a) <==> IsDigit(s[a]));
    }
  }

  lemma FractionMatches(s: string, i: nat, j: nat)
    requires i <= j <= |s|
    ensures Matches(Then(Lit('.'), Plus(One(Digit))), s, i, j) <==> i < j && s[i] == '.' && Numeral(s[i + 1..j])
  {
    if i < j && s[i] == '.' {
      DigitsMany(s, i + 1, j);
      assert Matches(Lit('.'), s, i, i + 1);
    }
    forall m: nat | i <= m <= j && Matches(Lit('.'), s, i, m) ensures m == i + 1 {}
  }

  function UnitPattern(memory: bool): Regex {
    if memory then AnyOf(MEMORY_UNITS) else Lit('m')
  }

  lemma LitMatches(c: char, s: string, i: nat, j: nat)
    requires i <= j <= |s|
    ensures Matches(Lit(c), s, i, j) <==> s[i..j] == [c]
  {
    if j == i + 1 {
      assert s[i..j] == [s[i]];
    }
  }

  lemma UnitMatches(memory: bool, s: string, i: nat, j: nat)
    requires i <= j <= |s|
    ensures Matches(Optional(UnitPattern(memory)), s, i, j) <==> AllowedUnit(memory, s[i..j])
  {
    OptionalMatches(UnitPattern(memory), s, i, j);
    assert i == j <==> s[i..j] == "";
    LitMatches('m', s, i, j);
    if memory {
      AnyOfMatches(MEMORY_UNITS, s, i, j);
      MemoryUnits(s[i..j]);
    }
  }

  // ------------------------------------------------------- a quantity and its parts

  /** `whole[.frac]unit`, the only texts the patterns match. */
  predicate Spelled(memory: bool, q: string, whole: string, frac: string, unit: string) {
    && q == Number(whole, frac) + unit
    && Numeral(whole) && AllDigits(frac) && AllowedUnit(memory, unit)
  }

  function Rest(memory: bool): Regex {
    Then(Optional(FractionPattern()), Optional(UnitPattern(memory)))
  }

  function FractionPattern(): Regex { Then(Lit('.'), Plus(One(Digit))) }

  /** Where the number's fraction and the unit of a match begin. */
  lemma MatchSplits(memory: bool, q: string) returns (i: nat, j: nat)
    requires FullMatch(QuantityPattern(memory), q)
    ensures i <= j <= |q| && Numeral(q[0..i]) && AllowedUnit(memory, q[j..|q|])
    ensures i == j || (q[i] == '.' && Numeral(q[i + 1..j]))
  {
    i := ThenSplits(Plus(One(Digit)), Rest(memory), q, 0, |q|);
    j := RestSplits(memory, q, i);
    DigitsMany(q, 0, i);
  }

  lemma RestSplits(memory: bool, q: string, i: nat) returns (j: nat)
    requires i <= |q| && Matches(Rest(memory), q, i, |q|)
    ensures i <= j <= |q| && AllowedUnit(memory, q[j..|q|])
    ensures i == j || (q[i] == '.' && Numeral(q[i + 1..j]))
  {
    j := ThenSplits(Optional(FractionPattern()), Optional(UnitPattern(memory)), q, i, |q|);
    OptionalMatches(FractionPattern(), q, i, j);
    FractionMatches(q, i, j);
    UnitMatches(memory, q, j, |q|);
  }

  /** The three pieces a pattern match gives. */
  lemma SpelledByPattern(memory: bool, q: string) returns (whole: string, frac: string, unit: string)
    requires FullMatch(QuantityPattern(memory), q)
    ensures Spelled(memory, q, whole, frac, unit)
  {
    var i, j := MatchSplits(memory, q);
    whole, unit := q[0..i], q[j..|q|];
    frac := if i == j then "" else q[i + 1..j];
    Assemble(q, i, j);
  }

  lemma Assemble(q: string, i: nat, j: nat)
    requires i <= j <= |q| && (i < j ==> q[i] == '.')
    ensures i == j ==> q == q[0..i] + q[j..|q|]
    ensures i < j ==> q == q[0..i] + ['.'] + q[i + 1..j] + q[j..|q|]
  {
  }

  lemma PatternOfSpelled(memory: bool, q: string, whole: string, frac: string, unit: string)
    requires Spelled(memory, q, whole, frac, unit)
    ensures FullMatch(QuantityPattern(memory), q)
  {
    var n, i := |q|, |whole|;
    var j := |Number(whole, frac)|;
    assert q[0..i] == whole && q[j..n] == unit;
    DigitsMany(q, 0, i);
    OptionalMatches(FractionPattern(), q, i, j);
    FractionMatches(q, i, j);
    UnitMatches(memory, q, j, n);
    if frac != "" {
      assert q[i] == '.' && q[i + 1..j] == frac;
    }
    assert Matches(Rest(memory), q, i, n);
  }

  lemma {:induction false} NumberPartIs(number: string, unit: string)
    requires forall c :: c in number ==> NumberChar(c)
    requires unit == "" || !NumberChar(unit[0])
    ensures NumberPart(number + unit) == number && Unit(number + unit) == unit
  {
    var q := number + unit;
    if number != "" {
      assert q[1..] == number[1..] + unit;
      assert number[0] in number;
      NumberPartIs(number[1..], unit);
      assert number == [number[0]] + number[1..];
    } else {
      assert q == unit;
    }
  }

  lemma {:induction false} ValueConcat(a: string, b: string)
    requires AllDigits(a) && AllDigits(b)
    ensures AllDigits(a + b) && Value(a + b) == Value(a) * Pow10(|b|) + Value(b)
  {
    if b == "" {
      assert a + b == a;
    } else {
      var n := |b| - 1;
      ValueConcat(a, b[..n]);
      ValueSnoc(a + b[..n], b[n]);
      assert a + b == a + b[..n] + [b[n]];
      Shift(Value(a), Pow10(n), Value(b[..n]));
    }
  }

  lemma Shift(v: nat, p: nat, w: nat)
    ensures 10 * (v * p + w) == v * (10 * p) + 10 * w
  {
  }

  lemma ParseWhole(whole: string)
    requires Numeral(whole)
    ensures ParseFloat(whole) == Some(Value(whole) as real)
  {
    forall c | c in whole ensures c != '.' {}
    CutNone(whole, '.');
  }

  lemma ParseFraction(whole: string, frac: string)
    requires Numeral(whole) && Numeral(frac)
    ensures AllDigits(whole + frac)
    ensures ParseFloat(whole + ['.'] + frac) == Some(Shifted(Value(whole + frac), |frac|))
  {
    ValueConcat(whole, frac);
    forall c | c in whole ensures c != '.' {}
    CutAt(whole, '.', frac);
    Divide(Value(whole), |frac|, Value(frac));
  }

  lemma ParseNumber(whole: string, frac: string)
    requires Numeral(whole) && AllDigits(frac)
    ensures AllDigits(whole + frac)
    ensures ParseFloat(Number(whole, frac)) == Some(Shifted(Value(whole + frac), |frac|))
  {
    if frac == "" {
      ParseWhole(whole);
      assert whole + frac == whole && Pow10(0) == 1;
    } else {
      ParseFraction(whole, frac);
    }
  }

  lemma NumberChars(whole: string, frac: string)
    requires AllDigits(whole) && AllDigits(frac)
    ensures forall c :: c in Number(whole, frac) ==> NumberChar(c)
  {
  }

  lemma UnitStart(memory: bool, unit: string)
    requires AllowedUnit(memory, unit)
    ensures unit == "" || !NumberChar(unit[0])
  {
  }

  /** A spelled-out quantity is taken apart where it was put together. */
  lemma SpelledParts(memory: bool, q: string, whole: string, frac: string, unit: string)
    requires Spelled(memory, q, whole, frac, unit)
    ensures Unit(q) == unit && NumberPart(q) == Number(whole, frac)
  {
    NumberChars(whole, frac);
    UnitStart(memory, unit);
    NumberPartIs(Number(whole, frac), unit);
  }

  /** The value of a spelled-out quantity, as one fraction over a power of ten. */
  lemma SpelledValue(memory: bool, q: string, whole: string, frac: string, unit: string)
    requires Spelled(memory, q, whole, frac, unit)
    ensures AllDigits(whole + frac)
    ensures QuantityValue(q) == Scaled(Value(whole + frac), |frac|, unit)
  {
    SpelledParts(memory, q, whole, frac, unit);
    AmountOfNumber(whole, frac, unit);
  }

  lemma AmountOfNumber(whole: string, frac: string, unit: string)
    requires Numeral(whole) && AllDigits(frac)
    ensures AllDigits(whole + frac)
    ensures Amount(Number(whole, frac), unit) == Scaled(Value(whole + frac), |frac|, unit)
  {
    ParseNumber(whole, frac);
  }

  lemma {:induction false} ShiftedBack(n: nat, k: nat)
    ensures Shifted(n, k) * Pow10(k) as real == n as real
  {
    if k > 0 {
      ShiftedBack(n, k - 1);
      var x, p := Shifted(n, k - 1), Pow10(k - 1) as real;
      assert x / 10.0 * (10.0 * p) == x * p;
    }
  }

  lemma Cancel(x: real, y: real, p: real)
    requires p > 0.0 && x * p == y * p
    ensures x == y
  {
    assert (x - y) * p == 0.0;
  }

  lemma Divide(w: nat, k: nat, f: nat)
    ensures Shifted(w * Pow10(k) + f, k) == w as real + Shifted(f, k)
  {
    var p := Pow10(k) as real;
    ShiftedBack(w * Pow10(k) + f, k);
    ShiftedBack(f, k);
    var x, y := Shifted(w * Pow10(k) + f, k), w as real + Shifted(f, k);
    assert y * p == w as real * p + Shifted(f, k) * p;
    Cancel(x, y, p);
  }

  // ------------------------------------------------------- the cap and its slack

  /** How many fraction digits a unit can have before the slack lets a value past the cap. */
  function ExactDigits(memory: bool, unit: string): nat {
    if !memory then (if unit == "" then 11 else 8)
    else if unit == "" then 2
    else
      match unit[0]
      case 'K' => 5
      case 'M' => 8
      case 'G' => 11
      case _ => 14
  }

  /** The cap in units of the last exact digit: a whole number below 10^12, but not below 10^11. */
  function CapUnits(memory: bool, unit: string): nat {
    if !memory then 400000000000
    else if |unit| < 2 then 429496729600
    else
      match unit[0]
      case 'K' => 419430400000
      case 'M' => 409600000000
      case 'G' => 400000000000
      case _ => 390625000000
  }

  lemma ExactPowers()
    ensures Pow10(2) == 100 && Pow10(5) == 100000 && Pow10(8) == 100000000
    ensures Pow10(11) == 100000000000 && Pow10(14) == 100000000000000
  {
    assert Pow10(3) == 10 * Pow10(2) && Pow10(4) == 10 * Pow10(3);
    assert Pow10(6) == 10 * Pow10(5) && Pow10(7) == 10 * Pow10(6);
    assert Pow10(9) == 10 * Pow10(8) && Pow10(10) == 10 * Pow10(9);
    assert Pow10(12) == 10 * Pow10(11) && Pow10(13) == 10 * Pow10(12);
  }

  lemma CapUnitsIs(memory: bool, unit: string)
    requires AllowedUnit(memory, unit)
    ensures Multiplier(unit) > 0.0
    ensures CapUnits(memory, unit) as real * Multiplier(unit)
            == Cap(memory) * Pow10(ExactDigits(memory, unit)) as real
    ensures CapUnits(memory, unit) < 1000000000000 <= 10 * CapUnits(memory, unit)
  {
    ExactPowers();
  }

  lemma {:induction false} PowSum(a: nat, b: nat)
    ensures Pow10(a + b) == Pow10(a) * Pow10(b)
  {
    if a > 0 {
      PowSum(a - 1, b);
      assert 10 * (Pow10(a - 1) * Pow10(b)) == 10 * Pow10(a - 1) * Pow10(b);
    }
  }

  lemma DivideOut(x: real, y: real, p: real)
    requires p > 0.0 && x * p <= y * p
    ensures x <= y
  {
    assert (y - x) * p >= 0.0;
  }

  lemma MultiplyBy(x: real, y: real, p: real)
    requires p >= 0.0 && x <= y
    ensures x * p <= y * p
  {
    assert (y - x) * p >= 0.0;
  }

  /** A whole number cannot sit in the slack above a bound below 10^12. */
  lemma WholeWithin(n: int, bound: nat)
    requires n as real <= bound as real * SLACK && bound < 1000000000000
    ensures n <= bound
  {
  }

  /** Three factors in another order. */
  lemma Swap(x: real, y: real, z: real)
    ensures x * y * z == x * z * y
  {
    assert y * z == z * y;
    assert x * y * z == x * (y * z);
    assert x * z * y == x * (z * y);
  }

  /** `x` times `unit` stays within the cap when `x` is a whole number of last exact digits. */
  lemma WithinCap(x: real, n: int, power: real, bound: nat, unit: real, cap: real)
    requires power > 0.0 && unit > 0.0 && x * power == n as real
    requires bound as real * unit == cap * power && bound < 1000000000000
    requires x * unit <= cap * SLACK
    ensures x * unit <= cap
  {
    Swap(x, unit, power);
    assert x * unit * power == n as real * unit;
    SlackUnits(n, power, bound, unit, cap, x * unit);
    WholeWithin(n, bound);
    MultiplyBy(n as real, bound as real, unit);
    DivideOut(x * unit, cap, power);
  }

  lemma SlackUnits(n: int, power: real, bound: nat, unit: real, cap: real, v: real)
    requires power > 0.0 && unit > 0.0 && v * power == n as real * unit
    requires bound as real * unit == cap * power && v <= cap * SLACK
    ensures n as real <= bound as real * SLACK
  {
    MultiplyBy(v, cap * SLACK, power);
    Swap(cap, SLACK, power);
    Swap(bound as real, SLACK, unit);
    assert cap * power * SLACK == bound as real * unit * SLACK;
    DivideOut(n as real, bound as real * SLACK, unit);
  }

  /** One digit too many: a number that is above the cap and within its slack. */
  lemma AboveCap(x: real, n: int, t: nat, power: nat, bound: nat, unit: real, cap: real)
    requires power > 0 && unit > 0.0 && t > 0 && x * (power * t) as real == n as real && n == bound * t + 1
    requires bound as real * unit == cap * power as real && bound * t >= 1000000000000
    ensures cap < x * unit <= cap * SLACK
  {
    var p, b := (power * t) as real, (bound * t) as real;
    assert b * unit == cap * p by {
      assert b == bound as real * t as real && p == power as real * t as real;
      assert bound as real * t as real * unit == bound as real * unit * t as real;
      assert cap * power as real * t as real == cap * p;
    }
    assert x * unit * p == x * p * unit == cap * p + unit;
    if x * unit <= cap {
      MultiplyBy(x * unit, cap, p);
    }
    assert cap * SLACK * p == cap * p * SLACK == b * unit * SLACK;
    MultiplyBy(1000000000000.0, b, unit);
    DivideOut(x * unit, cap * SLACK, p);
  }

  // ------------------------------------------------------------ what is accepted

  predicate Accepted(memory: bool, q: string) { Check(q, memory).None? }

  function FractionDigits(q: string): nat {
    match Cut(NumberPart(q), '.')
    case None => 0
    case Some(p) => |p.after|
  }

  lemma SpelledDigits(memory: bool, q: string, whole: string, frac: string, unit: string)
    requires Spelled(memory, q, whole, frac, unit)
    ensures FractionDigits(q) == |frac|
  {
    SpelledParts(memory, q, whole, frac, unit);
    forall c | c in whole ensures c != '.' {}
    if frac == "" {
      CutNone(whole, '.');
    } else {
      CutAt(whole, '.', frac);
    }
  }

  ghost predicate IsQuantity(memory: bool, q: string) {
    exists whole, frac, unit :: Spelled(memory, q, whole, frac, unit)
  }

  /** The pattern matches the spelled-out quantities and nothing else. */
  lemma PatternExactly(memory: bool, q: string)
    ensures FullMatch(QuantityPattern(memory), q) <==> IsQuantity(memory, q)
  {
    if FullMatch(QuantityPattern(memory), q) {
      var whole, frac, unit := SpelledByPattern(memory, q);
    }
    if IsQuantity(memory, q) {
      var whole, frac, unit :| Spelled(memory, q, whole, frac, unit);
      PatternOfSpelled(memory, q, whole, frac, unit);
    }
  }

  /** A quantity is a whole number, moved by its fraction digits and scaled by its unit. */
  lemma QuantityForm(memory: bool, q: string) returns (n: nat)
    requires IsQuantity(memory, q)
    ensures AllowedUnit(memory, Unit(q))
    ensures QuantityValue(q) == Scaled(n, FractionDigits(q), Unit(q))
  {
    var whole, frac, unit :| Spelled(memory, q, whole, frac, unit);
    n := SpelledForm(memory, q, whole, frac, unit);
  }

  lemma SpelledForm(memory: bool, q: string, whole: string, frac: string, unit: string) returns (n: nat)
    requires Spelled(memory, q, whole, frac, unit)
    ensures AllDigits(whole + frac) && n == Value(whole + frac)
    ensures Unit(q) == unit && FractionDigits(q) == |frac|
    ensures QuantityValue(q) == Scaled(n, |frac|, unit)
  {
    SpelledParts(memory, q, whole, frac, unit);
    SpelledDigits(memory, q, whole, frac, unit);
    SpelledValue(memory, q, whole, frac, unit);
    n := Value(whole + frac);
  }

  /** Every number, scale and unit is spelled out by some quantity. */
  lemma Compose(memory: bool, n: nat, k: nat, unit: string) returns (q: string)
    requires AllowedUnit(memory, unit)
    ensures FullMatch(QuantityPattern(memory), q) && q != ""
    ensures Unit(q) == unit && FractionDigits(q) == k
    ensures QuantityValue(q) == Scaled(n, k, unit)
  {
    var whole, frac := SpellOut(n, k);
    q := Number(whole, frac) + unit;
    PatternOfSpelled(memory, q, whole, frac, unit);
    var m := SpelledForm(memory, q, whole, frac, unit);
  }

  lemma NumberWithin(memory: bool, n: nat, k: nat, unit: string)
    requires AllowedUnit(memory, unit) && k <= ExactDigits(memory, unit)
    requires Scaled(n, k, unit) <= Cap(memory) * SLACK
    ensures Scaled(n, k, unit) <= Cap(memory)
  {
    CapUnitsIs(memory, unit);
    SmallWithin(n, k, ExactDigits(memory, unit), CapUnits(memory, unit), Multiplier(unit), Cap(memory));
  }

  lemma NumberBeyond(memory: bool, k: nat, unit: string) returns (n: nat)
    requires AllowedUnit(memory, unit) && k > ExactDigits(memory, unit)
    ensures Cap(memory) < Scaled(n, k, unit) <= Cap(memory) * SLACK
  {
    CapUnitsIs(memory, unit);
    n := OverCap(k, ExactDigits(memory, unit), CapUnits(memory, unit), Multiplier(unit), Cap(memory));
  }

  /** Acceptance in terms of the spelled-out form and the value. */
  lemma AcceptedExactly(memory: bool, q: string)
    ensures Accepted(memory, q) <==> IsQuantity(memory, q) && 0.0 < QuantityValue(q) <= Cap(memory) * SLACK
  {
    PatternExactly(memory, q);
  }

  lemma FormWithin(memory: bool, q: string)
    requires IsQuantity(memory, q) && QuantityValue(q) <= Cap(memory) * SLACK
    requires FractionDigits(q) <= ExactDigits(memory, Unit(q))
    ensures QuantityValue(q) <= Cap(memory)
  {
    var n := QuantityForm(memory, q);
    NumberWithin(memory, n, FractionDigits(q), Unit(q));
  }

  /** With few enough fraction digits, what is accepted is within the cap itself. */
  lemma SlackHarmless(memory: bool, q: string)
    requires Accepted(memory, q) && FractionDigits(q) <= ExactDigits(memory, Unit(q))
    ensures QuantityValue(q) <= Cap(memory)
  {
    AcceptedExactly(memory, q);
    FormWithin(memory, q);
  }

  /** The same number over a larger power of ten. */
  lemma Rescale(n: nat, k: nat, e: nat) returns (m: nat)
    requires k <= e
    ensures Shifted(n, k) * Pow10(e) as real == m as real
  {
    ShiftedBack(n, k);
    PowSum(k, e - k);
    m := Reassociate(Shifted(n, k), Pow10(k), Pow10(e - k), Pow10(e), n);
  }

  lemma Reassociate(x: real, p: nat, t: nat, whole: nat, n: nat) returns (m: nat)
    requires x * p as real == n as real && whole == p * t
    ensures x * whole as real == m as real
  {
    m := n * t;
    assert whole as real == p as real * t as real;
    assert m as real == n as real * t as real;
    assert x * (p as real * t as real) == x * p as real * t as real;
  }

  lemma SmallWithin(n: nat, k: nat, e: nat, bound: nat, unit: real, cap: real)
    requires k <= e && unit > 0.0 && bound as real * unit == cap * Pow10(e) as real && bound < 1000000000000
    requires Shifted(n, k) * unit <= cap * SLACK
    ensures Shifted(n, k) * unit <= cap
  {
    var m := Rescale(n, k, e);
    WithinCap(Shifted(n, k), m, Pow10(e) as real, bound, unit, cap);
  }

  /** With one more, some accepted quantity is above the cap. */
  lemma SlackShows(memory: bool, unit: string, k: nat) returns (q: string)
    requires AllowedUnit(memory, unit) && k > ExactDigits(memory, unit)
    ensures Accepted(memory, q) && Unit(q) == unit && FractionDigits(q) == k
    ensures QuantityValue(q) > Cap(memory)
  {
    var n := NumberBeyond(memory, k, unit);
    q := Compose(memory, n, k, unit);
  }

  lemma SpellOut(n: nat, k: nat) returns (whole: string, frac: string)
    ensures Numeral(whole) && AllDigits(frac) && |frac| == k
    ensures AllDigits(whole + frac) && Value(whole + frac) == n
  {
    var w, f := DivMod(n, Pow10(k));
    whole, frac := Digits(w), Padded(f, k);
    ValueConcat(whole, frac);
  }

  lemma DivMod(n: nat, p: nat) returns (w: nat, f: nat)
    requires p > 0
    ensures n == w * p + f && f < p
  {
    w, f := n / p, n % p;
  }

  lemma OverCap(k: nat, e: nat, bound: nat, unit: real, cap: real) returns (n: nat)
    requires k > e && unit > 0.0 && bound as real * unit == cap * Pow10(e) as real && 10 * bound >= 1000000000000
    ensures cap < Shifted(n, k) * unit <= cap * SLACK
  {
    var t := Pow10(k - e);
    n := bound * t + 1;
    ShiftedBack(n, k);
    PowSum(e, k - e);
    AtLeast(bound, t);
    AboveCap(Shifted(n, k), n, t, Pow10(e), bound, unit, cap);
  }

  lemma AtLeast(b: nat, t: nat)
    requires t >= 10
    ensures b * t >= b * 10
  {
  }

  /** The check keeps to the cap exactly for quantities with few enough fraction digits. */
  lemma CapExactly(memory: bool, unit: string, k: nat)
    requires AllowedUnit(memory, unit)
    ensures (forall q :: Accepted(memory, q) && Unit(q) == unit && FractionDigits(q) == k ==> QuantityValue(q) <= Cap(memory))
            <==> k <= ExactDigits(memory, unit)
  {
    if k <= ExactDigits(memory, unit) {
      forall q | Accepted(memory, q) && Unit(q) == unit && FractionDigits(q) == k
        ensures QuantityValue(q) <= Cap(memory)
      {
        SlackHarmless(memory, q);
      }
    } else {
      var q := SlackShows(memory, unit, k);
    }
  }
}
