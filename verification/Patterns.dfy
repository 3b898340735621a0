/**
 Regular expressions with lookahead, as the registry's JSON schema uses them
 (ECMAScript semantics, no flags): which stretches of a text a pattern matches.
 Go's `regexp` has no lookahead, so three of the schema's patterns are checked by
 hand in internal/registry/validate.go; here both sides are stated and compared.
 */
module Patterns {
  import opened Decimal
  import opened Text

  /** The bracket expressions of the schema. */
  datatype Class =
    | Digit           // [0-9]
    | Hex             // [0-9a-f]
    | Lower           // [a-z]
    | LowerDigit      // [a-z0-9]
    | LowerDigitDash  // [a-z0-9-]
    | Alnum           // [A-Za-z0-9]
    | NameStart       // [A-Za-z_]
    | NameChar        // [A-Za-z0-9_]
    | TagChar         // [A-Za-z0-9_.\-], also [-._a-zA-Z0-9]
    | PathChar        // [A-Za-z0-9_./?=&%~+-]

  predicate IsLower(c: char) { 'a' <= c <= 'z' }

  /** `isASCIIAlnum`. */
  predicate IsAlnum(c: char) { IsLower(c) || 'A' <= c <= 'Z' || IsDigit(c) }

  predicate InClass(k: Class, c: char) {
    match k
    case Digit => IsDigit(c)
    case Hex => IsDigit(c) || 'a' <= c <= 'f'
    case Lower => IsLower(c)
    case LowerDigit => IsLower(c) || IsDigit(c)
    case LowerDigitDash => IsLower(c) || IsDigit(c) || c == '-'
    case Alnum => IsAlnum(c)
    case NameStart => IsLower(c) || 'A' <= c <= 'Z' || c == '_'
    case NameChar => IsAlnum(c) || c == '_'
    case TagChar => IsAlnum(c) || c == '_' || c == '.' || c == '-'
    case PathChar =>
      || IsAlnum(c) || c == '_' || c == '.' || c == '/' || c == '?' || c == '=' || c == '&'
      || c == '%' || c == '~' || c == '+' || c == '-'
  }

  datatype Regex =
    | One(k: Class)
    | Lit(c: char)
    | Then(a: Regex, b: Regex)
    | Or(a: Regex, b: Regex)
    | Repeat(r: Regex, lo: nat, hi: nat)  // r{lo,hi}
    | Many(r: Regex)                      // r*
    | Ahead(r: Regex)                     // (?=r)
    | NotAhead(r: Regex)                  // (?!r)
    | End                                 // $

  /** `r` matches `s` from position `i` up to `j`; lookahead may read past `j`. */
  predicate Matches(r: Regex, s: string, i: nat, j: nat)
    requires i <= j <= |s|
    decreases r, 0
  {
    match r
    case One(k) => j == i + 1 && InClass(k, s[i])
    case Lit(c) => j == i + 1 && s[i] == c
    case Then(a, b) => exists m: nat | i <= m <= j :: Matches(a, s, i, m) && Matches(b, s, m, j)
    case Or(a, b) => Matches(a, s, i, j) || Matches(b, s, i, j)
    case Repeat(q, lo, hi) => Repeated(q, lo, hi, s, i, j)
    case Many(q) => Repeated(q, 0, |s|, s, i, j)
    case Ahead(q) => i == j && exists m: nat | i <= m <= |s| :: Matches(q, s, i, m)
    case NotAhead(q) => i == j && !exists m: nat | i <= m <= |s| :: Matches(q, s, i, m)
    case End => i == j == |s|
  }

  /** Between `lo` and `hi` matches in a row; `|s|` is enough for an unbounded run of non-empty ones. */
  predicate Repeated(q: Regex, lo: nat, hi: nat, s: string, i: nat, j: nat)
    requires i <= j <= |s|
    decreases q, hi + 1
  {
    || (lo == 0 && i == j)
    || (hi > 0 && exists m: nat | i <= m <= j ::
          Matches(q, s, i, m) && Repeated(q, Less(lo), hi - 1, s, m, j))
  }

  function Less(n: nat): nat { if n > 0 then n - 1 else 0 }

  /** `^r$` on the whole text. */
  predicate FullMatch(r: Regex, s: string) { Matches(r, s, 0, |s|) }

  function Plus(r: Regex): Regex { Then(r, Many(r)) }

  function Optional(r: Regex): Regex { Repeat(r, 0, 1) }

  /** `a|b|...`, one of some words. */
  function AnyOf(words: seq<string>): Regex
    requires words != []
  {
    if |words| == 1 then Word(words[0]) else Or(Word(words[0]), AnyOf(words[1..]))
  }

  function Word(w: string): Regex {
    if |w| <= 1 then (if w == "" then Repeat(End, 0, 0) else Lit(w[0])) else Then(Lit(w[0]), Word(w[1..]))
  }

  // ------------------------------------------------------------------ what they mean

  /** `q` always takes one character, at exactly the positions `ok` allows. */
  ghost predicate IsUnit(q: Regex, s: string, ok: nat -> bool) {
    forall a: nat, b: nat | a <= b <= |s| :: Matches(q, s, a, b) <==> b == a + 1 && ok(a)
  }

  ghost predicate AllOk(ok: nat -> bool, i: nat, j: nat) {
    forall a: nat :: i <= a < j ==> ok(a)
  }

  lemma {:induction false} RepeatedUnits(q: Regex, lo: nat, hi: nat, s: string, i: nat, j: nat, ok: nat -> bool)
    requires i <= j <= |s| && IsUnit(q, s, ok)
    ensures Repeated(q, lo, hi, s, i, j) <==> lo <= j - i <= hi && AllOk(ok, i, j)
    decreases hi
  {
    if hi > 0 && i < j {
      RepeatedUnits(q, Less(lo), hi - 1, s, i + 1, j, ok);
      assert Matches(q, s, i, i + 1) <==> ok(i);
      assert forall m: nat :: i <= m <= j && Matches(q, s, i, m) ==> m == i + 1;
    } else if i == j {
      assert forall m: nat :: m == i ==> !Matches(q, s, i, m);
    }
  }

  function InClassAt(k: Class, s: string): nat -> bool {
    (a: nat) => a < |s| && InClass(k, s[a])
  }

  predicate AllIn(k: Class, s: string) {
    forall a :: 0 <= a < |s| ==> InClass(k, s[a])
  }

  lemma OneIsUnit(k: Class, s: string)
    ensures IsUnit(One(k), s, InClassAt(k, s))
  {
  }

  lemma ManyOfClass(k: Class, s: string, i: nat)
    requires i <= |s|
    ensures Matches(Many(One(k)), s, i, |s|) <==> forall a :: i <= a < |s| ==> InClass(k, s[a])
  {
    OneIsUnit(k, s);
    RepeatedUnits(One(k), 0, |s|, s, i, |s|, InClassAt(k, s));
    assert forall a: nat :: a < |s| ==> (InClassAt(k, s)(a) <==> InClass(k, s[a]));
  }

  lemma RepeatOfClass(k: Class, lo: nat, hi: nat, s: string, i: nat, j: nat)
    requires i <= j <= |s|
    ensures Matches(Repeat(One(k), lo, hi), s, i, j) <==>
            lo <= j - i <= hi && forall a :: i <= a < j ==> InClass(k, s[a])
  {
    OneIsUnit(k, s);
    RepeatedUnits(One(k), lo, hi, s, i, j, InClassAt(k, s));
    assert forall a: nat :: a < |s| ==> (InClassAt(k, s)(a) <==> InClass(k, s[a]));
  }

  /** A pattern that starts with one character of a class. */
  lemma FirstOfClass(k: Class, rest: Regex, s: string, i: nat, j: nat)
    requires i <= j <= |s|
    ensures Matches(Then(One(k), rest), s, i, j) <==> i < j && InClass(k, s[i]) && Matches(rest, s, i + 1, j)
  {
    if i < j && InClass(k, s[i]) && Matches(rest, s, i + 1, j) {
      assert Matches(One(k), s, i, i + 1);
    }
  }

  /** `(r)?` is nothing or one `r`. */
  lemma OptionalMatches(r: Regex, s: string, i: nat, j: nat)
    requires i <= j <= |s|
    ensures Matches(Optional(r), s, i, j) <==> i == j || Matches(r, s, i, j)
  {
    assert Matches(Optional(r), s, i, j) <==> Repeated(r, 0, 1, s, i, j);
    if Matches(r, s, i, j) {
      assert Repeated(r, Less(0), 0, s, j, j);
    }
    if Repeated(r, 0, 1, s, i, j) && i != j {
      var m: nat :| i <= m <= j && Matches(r, s, i, m) && Repeated(r, Less(0), 0, s, m, j);
    }
  }

  lemma PlusOfClass(k: Class, s: string)
    ensures FullMatch(Plus(One(k)), s) <==> s != "" && AllIn(k, s)
  {
    FirstOfClass(k, Many(One(k)), s, 0, |s|);
    if s != "" {
      ManyOfClass(k, s, 1);
    }
  }

  lemma {:induction false} WordMatches(w: string, s: string, i: nat, j: nat)
    requires i <= j <= |s| && w != ""
    ensures Matches(Word(w), s, i, j) <==> s[i..j] == w
  {
    if |w| == 1 {
      assert s[i..j] == w <==> j == i + 1 && s[i] == w[0];
    } else {
      assert w == [w[0]] + w[1..];
      if i < j {
        WordMatches(w[1..], s, i + 1, j);
        assert s[i..j] == [s[i]] + s[i + 1..j];
        assert Matches(Lit(w[0]), s, i, i + 1) <==> s[i] == w[0];
      }
      forall m: nat | i <= m <= j && Matches(Lit(w[0]), s, i, m) ensures m == i + 1 {}
    }
  }

  lemma {:induction false} AnyOfMatches(words: seq<string>, s: string, i: nat, j: nat)
    requires i <= j <= |s| && words != [] && "" !in words
    ensures Matches(AnyOf(words), s, i, j) <==> s[i..j] in words
  {
    assert words[0] in words;
    WordMatches(words[0], s, i, j);
    if |words| > 1 {
      AnyOfMatches(words[1..], s, i, j);
      assert words == [words[0]] + words[1..];
    }
  }

  /** `q` matches some stretch that starts where the text starts. */
  predicate Leads(q: Regex, s: string) {
    exists m: nat | m <= |s| :: Matches(q, s, 0, m)
  }

  /** `(?!r)rest` at the start of the text. */
  lemma NotAheadThen(q: Regex, rest: Regex, s: string)
    ensures FullMatch(Then(NotAhead(q), rest), s) <==> FullMatch(rest, s) && !Leads(q, s)
  {
    var n := |s|;
    NotAheadHere(q, s, 0);
    if Matches(Then(NotAhead(q), rest), s, 0, n) {
      var m := ThenSplits(NotAhead(q), rest, s, 0, n);
      NotAheadHere(q, s, m);
    }
    if Matches(rest, s, 0, n) && !Leads(q, s) {
      assert Matches(NotAhead(q), s, 0, 0) && Matches(rest, s, 0, n);
    }
  }

  /** Where the second half of a sequence takes over. */
  lemma ThenSplits(a: Regex, b: Regex, s: string, i: nat, j: nat) returns (m: nat)
    requires i <= j <= |s| && Matches(Then(a, b), s, i, j)
    ensures i <= m <= j && Matches(a, s, i, m) && Matches(b, s, m, j)
  {
    m :| i <= m <= j && Matches(a, s, i, m) && Matches(b, s, m, j);
  }

  lemma NotAheadHere(q: Regex, s: string, m: nat)
    requires m <= |s|
    ensures Matches(NotAhead(q), s, 0, m) <==> m == 0 && !Leads(q, s)
  {
    assert (exists k: nat | 0 <= k <= |s| :: Matches(q, s, 0, k)) <==> Leads(q, s);
  }

  // ----------------------------------------------------------------- byte lengths

  /** The length of the UTF-8 encoding of one character. */
  function Width(c: char): nat {
    var n := c as int;
    if n < 0x80 then 1 else if n < 0x800 then 2 else if n < 0x1_0000 then 3 else 4
  }

  /** Go's `len` of a string. */
  function ByteLen(s: string): nat {
    if s == "" then 0 else ByteLen(s[..|s| - 1]) + Width(s[|s| - 1])
  }

  predicate Ascii(s: string) { forall i :: 0 <= i < |s| ==> s[i] as int < 0x80 }

  lemma {:induction false} ByteLenAscii(s: string)
    ensures ByteLen(s) >= |s|
    ensures Ascii(s) ==> ByteLen(s) == |s|
  {
    if s != "" {
      ByteLenAscii(s[..|s| - 1]);
    }
  }

  // ------------------------------------------------------------ the schema's patterns

  function SlugPattern(): Regex {
    Then(One(Lower), Then(Repeat(One(LowerDigitDash), 2, 30), One(LowerDigit)))
  }

  function SharedSecretPattern(): Regex {
    Then(One(Lower), Then(Repeat(One(LowerDigitDash), 1, 30), One(LowerDigit)))
  }

  /** `k8sName`, and the label of a lower-case host name. */
  function K8sNamePattern(): Regex {
    Then(One(LowerDigit), Optional(Then(Repeat(One(LowerDigitDash), 0, 61), One(LowerDigit))))
  }

  function EnvNamePattern(): Regex { Then(One(NameStart), Many(One(NameChar))) }

  function AuthScopePattern(): Regex { Then(One(Alnum), Many(One(TagChar))) }

  function ProbePathPattern(): Regex { Then(Lit('/'), Many(One(PathChar))) }

  /** Runs of hexadecimal digits with hyphens between them. */
  function HexGroups(widths: seq<nat>): Regex
    requires widths != []
  {
    var w := Repeat(One(Hex), widths[0], widths[0]);
    if |widths| == 1 then w else Then(w, Then(Lit('-'), HexGroups(widths[1..])))
  }

  const UUID_WIDTHS: seq<nat> := [8, 4, 4, 4, 12]

  function ClientIdPattern(): Regex { HexGroups(UUID_WIDTHS) }

  function NumberPattern(suffix: Regex): Regex {
    Then(Plus(One(Digit)), Then(Optional(Then(Lit('.'), Plus(One(Digit)))), Optional(suffix)))
  }

  const MEMORY_UNITS := ["Ki", "Mi", "Gi", "Ti", "K", "M", "G", "T"]

  function MemoryPattern(): Regex { NumberPattern(AnyOf(MEMORY_UNITS)) }

  function CpuPattern(): Regex { NumberPattern(Lit('m')) }

  /** `^[A-Za-z0-9](?:[A-Za-z0-9]|-(?=[A-Za-z0-9])){0,38}$` */
  function LoginPattern(): Regex {
    Then(One(Alnum), Repeat(LoginUnit(), 0, 38))
  }

  function LoginUnit(): Regex { Or(One(Alnum), Then(Lit('-'), Ahead(One(Alnum)))) }

  /** `^(?!\.$)(?!\.\.)[-._a-zA-Z0-9]+$` */
  function SecretKeyPattern(): Regex {
    Then(NotAhead(Then(Lit('.'), End)), Then(NotAhead(Then(Lit('.'), Lit('.'))), Plus(One(TagChar))))
  }

  /** `[A-Za-z0-9_][A-Za-z0-9_.\-]{0,127}` */
  function PlainTagPattern(): Regex { Then(One(NameChar), Repeat(One(TagChar), 0, 127)) }

  /** `^(?!latest$)[A-Za-z0-9_][A-Za-z0-9_.\-]{0,127}$` */
  function ImageTagPattern(): Regex {
    Then(NotAhead(Then(Word("latest"), End)), PlainTagPattern())
  }

  // ------------------------------------------- the same texts, character by character

  predicate LowerDigitAt(s: string, i: nat)
    requires i < |s|
  {
    'a' <= s[i] <= 'z' || '0' <= s[i] <= '9'
  }

  /** Lower-case letters, digits and hyphens strictly between the ends. */
  predicate InnerOk(s: string) {
    forall i :: 1 <= i < |s| - 1 ==> 'a' <= s[i] <= 'z' || '0' <= s[i] <= '9' || s[i] == '-'
  }

  /** `[a-z0-9-]{lo,hi}[a-z0-9]` after the first character. */
  lemma TailMeans(lo: nat, hi: nat, s: string)
    requires s != ""
    ensures Matches(Then(Repeat(One(LowerDigitDash), lo, hi), One(LowerDigit)), s, 1, |s|) <==>
            lo + 2 <= |s| <= hi + 2 && LowerDigitAt(s, |s| - 1) && InnerOk(s)
  {
    var n := |s|;
    var run := Repeat(One(LowerDigitDash), lo, hi);
    if Matches(Then(run, One(LowerDigit)), s, 1, n) {
      var m := ThenSplits(run, One(LowerDigit), s, 1, n);
      RepeatOfClass(LowerDigitDash, lo, hi, s, 1, m);
      forall i | 1 <= i < n - 1 ensures InClass(LowerDigitDash, s[i]) {}
    }
    if lo + 2 <= n <= hi + 2 && LowerDigitAt(s, n - 1) && InnerOk(s) {
      RepeatOfClass(LowerDigitDash, lo, hi, s, 1, n - 1);
      assert Matches(run, s, 1, n - 1) && Matches(One(LowerDigit), s, n - 1, n);
    }
  }

  /** A slug: 4 to 32 characters, a letter first, no hyphen last. */
  lemma SlugMeans(s: string)
    ensures FullMatch(SlugPattern(), s) <==>
            4 <= |s| <= 32 && 'a' <= s[0] <= 'z' && LowerDigitAt(s, |s| - 1) && InnerOk(s)
  {
    FirstOfClass(Lower, Then(Repeat(One(LowerDigitDash), 2, 30), One(LowerDigit)), s, 0, |s|);
    if s != "" {
      TailMeans(2, 30, s);
    }
  }

  /** The name of a shared secret: 3 to 32 characters of the same kind. */
  lemma SharedSecretMeans(s: string)
    ensures FullMatch(SharedSecretPattern(), s) <==>
            3 <= |s| <= 32 && 'a' <= s[0] <= 'z' && LowerDigitAt(s, |s| - 1) && InnerOk(s)
  {
    FirstOfClass(Lower, Then(Repeat(One(LowerDigitDash), 1, 30), One(LowerDigit)), s, 0, |s|);
    if s != "" {
      TailMeans(1, 30, s);
    }
  }

  /** A Kubernetes name or host label: 1 to 63 characters, no hyphen at either end. */
  lemma K8sNameMeans(s: string)
    ensures FullMatch(K8sNamePattern(), s) <==>
            1 <= |s| <= 63 && LowerDigitAt(s, 0) && LowerDigitAt(s, |s| - 1) && InnerOk(s)
  {
    var tail := Then(Repeat(One(LowerDigitDash), 0, 61), One(LowerDigit));
    FirstOfClass(LowerDigit, Optional(tail), s, 0, |s|);
    if s != "" {
      OptionalMatches(tail, s, 1, |s|);
      TailMeans(0, 61, s);
    }
  }

  predicate LetterAt(s: string, i: nat)
    requires i < |s|
  {
    'a' <= s[i] <= 'z' || 'A' <= s[i] <= 'Z'
  }

  predicate DigitAt(s: string, i: nat)
    requires i < |s|
  {
    '0' <= s[i] <= '9'
  }

  /** One character of a class, then any number of another. */
  lemma LeadAndRest(first: Class, rest: Class, s: string)
    ensures FullMatch(Then(One(first), Many(One(rest))), s) <==>
            s != "" && InClass(first, s[0]) && forall i :: 1 <= i < |s| ==> InClass(rest, s[i])
  {
    FirstOfClass(first, Many(One(rest)), s, 0, |s|);
    if s != "" {
      ManyOfClass(rest, s, 1);
    }
  }

  predicate NameAt(s: string, i: nat)
    requires i < |s|
  {
    LetterAt(s, i) || DigitAt(s, i) || s[i] == '_'
  }

  lemma EnvNameMeans(s: string)
    ensures FullMatch(EnvNamePattern(), s) <==>
            s != "" && !DigitAt(s, 0) && forall i: nat :: i < |s| ==> NameAt(s, i)
  {
    LeadAndRest(NameStart, NameChar, s);
    forall i: nat | i < |s| ensures InClass(NameChar, s[i]) <==> NameAt(s, i) {}
    if s != "" {
      assert InClass(NameStart, s[0]) <==> NameAt(s, 0) && !DigitAt(s, 0);
    }
  }

  predicate ScopeAt(s: string, i: nat)
    requires i < |s|
  {
    LetterAt(s, i) || DigitAt(s, i) || s[i] in "_.-"
  }

  lemma AuthScopeMeans(s: string)
    ensures FullMatch(AuthScopePattern(), s) <==>
            s != "" && (LetterAt(s, 0) || DigitAt(s, 0)) && forall i: nat :: i < |s| ==> ScopeAt(s, i)
  {
    LeadAndRest(Alnum, TagChar, s);
    if s != "" && forall i: nat :: i < |s| ==> ScopeAt(s, i) {
      forall i | 1 <= i < |s| ensures InClass(TagChar, s[i]) {
        assert ScopeAt(s, i);
      }
    }
  }

  predicate ProbeAt(s: string, i: nat)
    requires i < |s|
  {
    LetterAt(s, i) || DigitAt(s, i) || s[i] in "_./?=&%~+-"
  }

  lemma ProbePathMeans(s: string)
    ensures FullMatch(ProbePathPattern(), s) <==>
            s != "" && s[0] == '/' && forall i: nat :: 1 <= i < |s| ==> ProbeAt(s, i)
  {
    LitThen('/', Many(One(PathChar)), s, 0, |s|);
    if s != "" {
      ManyOfClass(PathChar, s, 1);
      forall i: nat | 1 <= i < |s| ensures InClass(PathChar, s[i]) <==> ProbeAt(s, i) {}
    }
  }

  /** A pattern that starts with one fixed character. */
  lemma LitThen(c: char, rest: Regex, s: string, i: nat, j: nat)
    requires i <= j <= |s|
    ensures Matches(Then(Lit(c), rest), s, i, j) <==> i < j && s[i] == c && Matches(rest, s, i + 1, j)
  {
    if i < j && s[i] == c && Matches(rest, s, i + 1, j) {
      assert Matches(Lit(c), s, i, i + 1);
    }
  }

  /** A plain image tag: 1 to 128 characters, the first neither dot nor hyphen. */
  lemma PlainTagMeans(s: string)
    ensures FullMatch(PlainTagPattern(), s) <==>
            1 <= |s| <= 128 && s[0] !in ".-" && forall i: nat :: i < |s| ==> ScopeAt(s, i)
  {
    FirstOfClass(NameChar, Repeat(One(TagChar), 0, 127), s, 0, |s|);
    if s != "" {
      RepeatOfClass(TagChar, 0, 127, s, 1, |s|);
      forall i: nat | i < |s| ensures InClass(TagChar, s[i]) <==> ScopeAt(s, i) {}
      assert ScopeAt(s, 0) && s[0] !in ".-" <==> InClass(NameChar, s[0]);
    }
  }

  predicate HexAt(s: string, i: nat)
    requires i < |s|
  {
    '0' <= s[i] <= '9' || 'a' <= s[i] <= 'f'
  }

  /** The groups laid out from position `i` to the end. */
  predicate HexLaidOut(s: string, i: nat, widths: seq<nat>)
    requires i <= |s| && widths != []
    decreases |widths|
  {
    var w := widths[0];
    && i + w <= |s| && (forall k: nat :: i <= k < i + w ==> HexAt(s, k))
    && (if |widths| == 1 then i + w == |s|
        else i + w < |s| && s[i + w] == '-' && HexLaidOut(s, i + w + 1, widths[1..]))
  }

  lemma RunThen(w: nat, rest: Regex, s: string, i: nat, j: nat)
    requires i <= j <= |s|
    ensures Matches(Then(Repeat(One(Hex), w, w), rest), s, i, j) <==>
            i + w <= j && (forall k: nat :: i <= k < i + w ==> HexAt(s, k)) && Matches(rest, s, i + w, j)
  {
    var run := Repeat(One(Hex), w, w);
    if Matches(Then(run, rest), s, i, j) {
      var m := ThenSplits(run, rest, s, i, j);
      RepeatOfClass(Hex, w, w, s, i, m);
    }
    if i + w <= j && (forall k: nat :: i <= k < i + w ==> HexAt(s, k)) && Matches(rest, s, i + w, j) {
      forall k | i <= k < i + w ensures InClass(Hex, s[k]) {
        assert HexAt(s, k);
      }
      RepeatOfClass(Hex, w, w, s, i, i + w);
    }
  }

  lemma {:induction false} HexGroupsMean(widths: seq<nat>, s: string, i: nat)
    requires i <= |s| && widths != []
    ensures Matches(HexGroups(widths), s, i, |s|) <==> HexLaidOut(s, i, widths)
    decreases |widths|
  {
    var w := widths[0];
    if |widths| == 1 {
      RepeatOfClass(Hex, w, w, s, i, |s|);
      forall k: nat | i <= k < |s| ensures InClass(Hex, s[k]) <==> HexAt(s, k) {}
    } else {
      RunThen(w, Then(Lit('-'), HexGroups(widths[1..])), s, i, |s|);
      if i + w <= |s| {
        LitThen('-', HexGroups(widths[1..]), s, i + w, |s|);
        if i + w < |s| {
          HexGroupsMean(widths[1..], s, i + w + 1);
        }
      }
    }
  }

  /** A lower-case UUID: 36 characters, hyphens at 8, 13, 18 and 23, hexadecimal digits elsewhere. */
  lemma ClientIdMeans(s: string)
    ensures FullMatch(ClientIdPattern(), s) <==>
            |s| == 36 && forall k: nat :: k < 36 ==> if k in {8, 13, 18, 23} then s[k] == '-' else HexAt(s, k)
  {
    HexGroupsMean(UUID_WIDTHS, s, 0);
    UuidLaidOut(s, UUID_WIDTHS);
  }

  lemma UuidLaidOut(s: string, widths: seq<nat>)
    requires |widths| == 5 && widths[0] == 8 && widths[1] == 4 && widths[2] == 4 && widths[3] == 4 && widths[4] == 12
    ensures HexLaidOut(s, 0, widths) <==>
            |s| == 36 && forall k: nat :: k < 36 ==> if k in {8, 13, 18, 23} then s[k] == '-' else HexAt(s, k)
  {
    if |s| >= 9 {
      assert HexLaidOut(s, 0, widths) <==>
        (forall k: nat :: 0 <= k < 8 ==> HexAt(s, k)) && s[8] == '-' && HexLaidOut(s, 9, widths[1..]);
      UuidRest(s, widths[1..]);
    }
  }

  lemma UuidRest(s: string, widths: seq<nat>)
    requires |widths| == 4 && widths[0] == 4 && widths[1] == 4 && widths[2] == 4 && widths[3] == 12 && |s| >= 9
    ensures HexLaidOut(s, 9, widths) <==>
            |s| == 36 && forall k: nat :: 9 <= k < 36 ==> if k in {13, 18, 23} then s[k] == '-' else HexAt(s, k)
  {
    var w1 := widths[1..];
    var w2 := w1[1..];
    if |s| >= 14 {
      assert HexLaidOut(s, 9, widths) <==>
        (forall k: nat :: 9 <= k < 13 ==> HexAt(s, k)) && s[13] == '-' && HexLaidOut(s, 14, w1);
      if |s| >= 19 {
        assert HexLaidOut(s, 14, w1) <==>
          (forall k: nat :: 14 <= k < 18 ==> HexAt(s, k)) && s[18] == '-' && HexLaidOut(s, 19, w2);
        if |s| >= 24 {
          assert HexLaidOut(s, 19, w2) <==>
            (forall k: nat :: 19 <= k < 23 ==> HexAt(s, k)) && s[23] == '-' && HexLaidOut(s, 24, w2[1..]);
        } else {
          assert !HexLaidOut(s, 19, w2);
        }
      } else {
        assert !HexLaidOut(s, 14, w1);
      }
    }
  }

  // ------------------------------------------------------------ the hand-written checks

  /** What `validateLogin` tests. */
  predicate LoginOk(login: string) {
    && 1 <= ByteLen(login) <= 39
    && login != "" && login[0] != '-' && login[|login| - 1] != '-'
    && !Contains(login, "--")
    && forall i :: 0 <= i < |login| ==> IsAlnum(login[i]) || login[i] == '-'
  }

  method ValidateLogin(login: string) returns (ok: bool)
    ensures ok <==> LoginOk(login)
  {
    ok := 1 <= ByteLen(login) <= 39 && login != "" && login[0] != '-' && login[|login| - 1] != '-'
      && !Contains(login, "--");
    ghost var start := ok;
    for i := 0 to |login|
      invariant ok <==> start && forall k :: 0 <= k < i ==> IsAlnum(login[k]) || login[k] == '-'
    {
      if !IsAlnum(login[i]) && login[i] != '-' {
        ok := false;
      }
    }
  }

  /** A letter or digit, or a hyphen with a letter or digit after it. */
  predicate UnitHere(s: string, a: nat) {
    a < |s| && (IsAlnum(s[a]) || (s[a] == '-' && a + 1 < |s| && IsAlnum(s[a + 1])))
  }

  function LoginUnitAt(s: string): nat -> bool {
    (a: nat) => UnitHere(s, a)
  }

  lemma LoginUnitIsUnit(s: string)
    ensures IsUnit(LoginUnit(), s, LoginUnitAt(s))
  {
    var dash := Then(Lit('-'), Ahead(One(Alnum)));
    forall a: nat, b: nat | a <= b <= |s|
      ensures Matches(LoginUnit(), s, a, b) <==> b == a + 1 && LoginUnitAt(s)(a)
    {
      assert Matches(One(Alnum), s, a, b) <==> b == a + 1 && IsAlnum(s[a]);
      if b == a + 1 && s[a] == '-' && b < |s| && IsAlnum(s[b]) {
        assert Matches(One(Alnum), s, b, b + 1);
        assert Matches(Lit('-'), s, a, b) && Matches(Ahead(One(Alnum)), s, b, b);
      }
      if Matches(dash, s, a, b) {
        var m: nat :| a <= m <= b && Matches(Lit('-'), s, a, m) && Matches(Ahead(One(Alnum)), s, m, b);
        var n: nat :| m <= n <= |s| && Matches(One(Alnum), s, m, n);
      }
    }
  }

  /** No `--` means no two hyphens in a row. */
  lemma NoDoubleDash(s: string)
    ensures !Contains(s, "--") <==> forall i :: 0 <= i < |s| - 1 ==> !(s[i] == '-' && s[i + 1] == '-')
  {
    forall i | 0 <= i < |s| - 1 ensures HasPrefix(s[i..], "--") <==> s[i] == '-' && s[i + 1] == '-' {
      assert s[i..][0] == s[i] && s[i..][1] == s[i + 1];
    }
    if Contains(s, "--") {
      var i :| 0 <= i <= |s| && HasPrefix(s[i..], "--");
      assert s[i..][0] == s[i] == '-' && s[i..][1] == s[i + 1] == '-';
    }
  }

  lemma UnitsMatch(s: string, i: nat)
    requires i <= |s|
    ensures Matches(Repeat(LoginUnit(), 0, 38), s, i, |s|) <==> |s| - i <= 38 && AllOk(LoginUnitAt(s), i, |s|)
  {
    LoginUnitIsUnit(s);
    RepeatedUnits(LoginUnit(), 0, 38, s, i, |s|, LoginUnitAt(s));
  }

  /** An alphanumeric start, then units up to a length of 39. */
  lemma LoginMatches(s: string)
    ensures FullMatch(LoginPattern(), s) <==>
            1 <= |s| <= 39 && IsAlnum(s[0]) && AllOk(LoginUnitAt(s), 1, |s|)
  {
    FirstOfClass(Alnum, Repeat(LoginUnit(), 0, 38), s, 0, |s|);
    if s != "" {
      UnitsMatch(s, 1);
    }
  }

  /** The same texts described without patterns. */
  predicate LoginShape(s: string) {
    1 <= |s| <= 39 && IsAlnum(s[0]) && forall a: nat :: 1 <= a < |s| ==> UnitHere(s, a)
  }

  predicate LoginChar(c: char) { IsAlnum(c) || c == '-' }

  lemma LoginShapePasses(s: string)
    requires LoginShape(s)
    ensures LoginOk(s)
  {
    forall a | 0 <= a < |s| ensures LoginChar(s[a]) && s[a] as int < 0x80 {
      assert a > 0 ==> UnitHere(s, a);
    }
    assert |s| > 1 ==> UnitHere(s, |s| - 1);
    forall a | 0 <= a < |s| - 1 ensures !(s[a] == '-' && s[a + 1] == '-') {
      assert a > 0 ==> UnitHere(s, a);
    }
    ByteLenAscii(s);
    NoDoubleDash(s);
  }

  lemma LoginOkHasShape(s: string)
    requires LoginOk(s)
    ensures LoginShape(s)
  {
    ByteLenAscii(s);
    NoDoubleDash(s);
    forall a: nat | 1 <= a < |s| ensures UnitHere(s, a) {
      if a + 1 < |s| {
        assert LoginChar(s[a + 1]);
      }
    }
  }

  /** `validateLogin` accepts exactly what the schema's lookahead pattern accepts. */
  lemma LoginExactly(login: string)
    ensures LoginOk(login) <==> FullMatch(LoginPattern(), login)
  {
    LoginMatches(login);
    if LoginOk(login) {
      LoginOkHasShape(login);
    }
    if FullMatch(LoginPattern(), login) {
      forall a: nat | 1 <= a < |login| ensures UnitHere(login, a) {
        assert LoginUnitAt(login)(a);
      }
      LoginShapePasses(login);
    }
  }

  /** What `validSecretKey` tests. */
  predicate SecretKeyOk(key: string) {
    ByteLen(key) <= 253 && FullMatch(Plus(One(TagChar)), key) && key != "." && !HasPrefix(key, "..")
  }

  /** `validSecretKey` accepts exactly what the schema's pattern and `maxLength` accept. */
  lemma SecretKeyExactly(key: string)
    ensures SecretKeyOk(key) <==> FullMatch(SecretKeyPattern(), key) && |key| <= 253
  {
    var plain := Plus(One(TagChar));
    PlusOfClass(TagChar, key);
    ByteLenAscii(key);
    NotAheadThen(Then(Lit('.'), End), Then(NotAhead(Then(Lit('.'), Lit('.'))), plain), key);
    NotAheadThen(Then(Lit('.'), Lit('.')), plain, key);
    LoneDot(key);
    TwoDots(key);
  }

  lemma LoneDot(s: string)
    ensures Leads(Then(Lit('.'), End), s) <==> s == "."
  {
    if s == "." {
      assert Matches(Lit('.'), s, 0, 1) && Matches(End, s, 1, 1);
      assert Matches(Then(Lit('.'), End), s, 0, 1);
    }
  }

  lemma TwoDots(s: string)
    ensures Leads(Then(Lit('.'), Lit('.')), s) <==> HasPrefix(s, "..")
  {
    if HasPrefix(s, "..") {
      assert Matches(Lit('.'), s, 0, 1) && Matches(Lit('.'), s, 1, 2);
      assert Matches(Then(Lit('.'), Lit('.')), s, 0, 2);
    }
  }

  /** What `validateImageTag` tests. */
  predicate ImageTagOk(tag: string) {
    tag != "" && tag != "latest" && FullMatch(PlainTagPattern(), tag)
  }

  lemma LatestOnly(s: string, m: nat)
    requires m <= |s|
    ensures Matches(Then(Word("latest"), End), s, 0, m) <==> m == |s| && s == "latest"
  {
    WordMatches("latest", s, 0, m);
    assert s[0..|s|] == s;
    assert Matches(End, s, m, m) <==> m == |s|;
    assert forall k: nat :: k <= m && Matches(End, s, k, m) ==> k == m;
  }

  /** `validateImageTag` accepts exactly what the tag schema accepts. */
  lemma ImageTagExactly(tag: string)
    ensures ImageTagOk(tag) <==> FullMatch(ImageTagPattern(), tag)
  {
    var latest := Then(Word("latest"), End);
    NotAheadThen(latest, PlainTagPattern(), tag);
    FirstOfClass(NameChar, Repeat(One(TagChar), 0, 127), tag, 0, |tag|);
    forall m: nat | m <= |tag| ensures Matches(latest, tag, 0, m) <==> m == |tag| && tag == "latest" {
      LatestOnly(tag, m);
    }
    assert Matches(latest, tag, 0, |tag|) <==> tag == "latest";
    assert Leads(latest, tag) <==> tag == "latest";
  }

  /** A login in words: 1 to 39 letters, digits and hyphens, no hyphen at an end or beside another. */
  lemma LoginMeans(s: string)
    ensures LoginOk(s) <==>
            && 1 <= |s| <= 39
            && (forall i: nat :: i < |s| ==> LetterAt(s, i) || DigitAt(s, i) || s[i] == '-')
            && s[0] != '-' && s[|s| - 1] != '-'
            && forall i :: 0 <= i < |s| - 1 ==> !(s[i] == '-' && s[i + 1] == '-')
  {
    ByteLenAscii(s);
    NoDoubleDash(s);
    if forall i: nat :: i < |s| ==> LetterAt(s, i) || DigitAt(s, i) || s[i] == '-' {
      forall i | 0 <= i < |s| ensures s[i] as int < 0x80 && LoginChar(s[i]) {
        assert LetterAt(s, i) || DigitAt(s, i) || s[i] == '-';
      }
    }
    if LoginOk(s) {
      forall i: nat | i < |s| ensures LetterAt(s, i) || DigitAt(s, i) || s[i] == '-' {
        assert LoginChar(s[i]);
      }
    }
  }

  lemma ScopeAscii(s: string)
    requires forall i: nat :: i < |s| ==> ScopeAt(s, i)
    ensures ByteLen(s) == |s|
  {
    forall i | 0 <= i < |s| ensures s[i] as int < 0x80 {
      assert ScopeAt(s, i);
    }
    ByteLenAscii(s);
  }

  /** A secret key in words. */
  lemma SecretKeyMeans(key: string)
    ensures SecretKeyOk(key) <==>
            1 <= |key| <= 253 && (forall i: nat :: i < |key| ==> ScopeAt(key, i)) && key != "." && !(".." <= key)
  {
    PlusOfClass(TagChar, key);
    ByteLenAscii(key);
    if forall i: nat :: i < |key| ==> ScopeAt(key, i) {
      ScopeAscii(key);
      forall i | 0 <= i < |key| ensures InClass(TagChar, key[i]) {
        assert ScopeAt(key, i);
      }
    }
  }

  /** An image tag in words. */
  lemma ImageTagMeans(tag: string)
    ensures ImageTagOk(tag) <==>
            tag != "latest" && 1 <= |tag| <= 128 && tag[0] !in ".-" && forall i: nat :: i < |tag| ==> ScopeAt(tag, i)
  {
    PlainTagMeans(tag);
  }
}
