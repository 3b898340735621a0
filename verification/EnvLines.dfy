/**
 The environment text boxes of the claim form (internal/registry/textinput.go):
 `KEY=value` lines, with `secret:<name>/<key>` values as secret references.
 */
module EnvLines {
  import opened Wrappers
  import opened Text

  /** One variable: a plain value, or a reference when `secret` and `key` are set. */
  datatype EnvVar = EnvVar(name: string, value: string, secret: string, key: string)

  datatype LineError =
    | NotKeyValue(line: nat)
    | SetTwice(line: nat, name: string)
    | BadReference(line: nat, name: string)

  const SECRET_PREFIX := "secret:"

  // ------------------------------------------------------------------ one line

  /** What a single line says before duplicates are considered. */
  datatype Line = Ignored | NoPair | BrokenRef(name: string) | Entry(v: EnvVar)

  function ReadLine(raw: string): Line {
    ReadTrimmed(Trim(raw))
  }

  function ReadTrimmed(line: string): Line {
    if line == "" || HasPrefix(line, "#") then Ignored
    else
      match Cut(line, '=')
      case None => NoPair
      case Some(p) =>
        if Trim(p.before) == "" then NoPair else ReadValue(Trim(p.before), Trim(p.after))
  }

  function ReadValue(name: string, value: string): Line {
    if HasPrefix(value, SECRET_PREFIX) then ReadReference(name, value[|SECRET_PREFIX|..])
    else Entry(EnvVar(name, value, "", ""))
  }

  function ReadReference(name: string, ref: string): Line {
    match Cut(ref, '/')
    case None => BrokenRef(name)
    case Some(p) =>
      if Trim(p.before) == "" || Trim(p.after) == "" then BrokenRef(name)
      else Entry(EnvVar(name, "", Trim(p.before), Trim(p.after)))
  }

  // --------------------------------------------------------------- the whole text

  type Parsed = Result<seq<EnvVar>, LineError>

  function ReadLines(parts: seq<string>): (r: seq<Line>)
    ensures |r| == |parts| && forall i :: 0 <= i < |parts| ==> r[i] == ReadLine(parts[i])
  {
    seq(|parts|, i requires 0 <= i < |parts| => ReadLine(parts[i]))
  }

  /** The lines from index `i` on, given the names already set. */
  function Collect(lines: seq<Line>, i: nat, seen: set<string>): Parsed
    requires i <= |lines|
    decreases |lines| - i
  {
    if i == |lines| then Ok([])
    else
      match lines[i]
      case Ignored => Collect(lines, i + 1, seen)
      case NoPair => Err(NotKeyValue(i + 1))
      case BrokenRef(name) =>
        if name in seen then Err(SetTwice(i + 1, name)) else Err(BadReference(i + 1, name))
      case Entry(v) =>
        if v.name in seen then Err(SetTwice(i + 1, v.name))
        else Prepend([v], Collect(lines, i + 1, seen + {v.name}))
  }

  function Prepend(front: seq<EnvVar>, rest: Parsed): Parsed {
    match rest
    case Ok(vars) => Ok(front + vars)
    case Err(e) => Err(e)
  }

  function Parse(text: string): Parsed {
    Collect(ReadLines(Split(text, '\n')), 0, {})
  }

  method ParseEnvLines(text: string) returns (r: Parsed)
    ensures r == Parse(text)
  {
    var parts := Split(text, '\n');
    ghost var lines := ReadLines(parts);
    var out: seq<EnvVar> := [];
    var seen: set<string> := {};
    PrependNothing(Collect(lines, 0, {}));
    for i := 0 to |parts|
      invariant Parse(text) == Prepend(out, Collect(lines, i, seen))
    {
      var line := ReadLine(parts[i]);
      if line.Ignored? {
        continue;
      }
      if line.NoPair? {
        return Err(NotKeyValue(i + 1));
      }
      var name := if line.Entry? then line.v.name else line.name;
      if name in seen {
        return Err(SetTwice(i + 1, name));
      }
      if line.BrokenRef? {
        return Err(BadReference(i + 1, name));
      }
      Reassociate(out, [line.v], Collect(lines, i + 1, seen + {name}));
      seen := seen + {name};
      out := out + [line.v];
    }
    assert out + [] == out;
    return Ok(out);
  }

  lemma Reassociate(a: seq<EnvVar>, b: seq<EnvVar>, rest: Parsed)
    ensures Prepend(a, Prepend(b, rest)) == Prepend(a + b, rest)
  {
    if rest.Ok? {
      assert a + (b + rest.value) == a + b + rest.value;
    }
  }

  lemma PrependNothing(rest: Parsed)
    ensures Prepend([], rest) == rest
  {
    if rest.Ok? {
      assert [] + rest.value == rest.value;
    }
  }

  // ---------------------------------------------------- what a line and a text say

  lemma IgnoredExactly(raw: string)
    ensures ReadLine(raw).Ignored? <==> Trim(raw) == "" || Trim(raw)[0] == '#'
  {
    CutParts(Trim(raw), '=');
  }

  /** `before=after`, cut at the first equals sign, with a name. */
  predicate IsPair(line: string, before: string, after: string) {
    line == before + "=" + after && '=' !in before && Trim(before) != ""
  }

  lemma NoPairExactly(raw: string)
    requires !ReadLine(raw).Ignored?
    ensures ReadLine(raw).NoPair? <==> !exists before: string, after: string :: IsPair(Trim(raw), before, after)
  {
    var line := Trim(raw);
    CutParts(line, '=');
    if before: string, after: string :| IsPair(line, before, after) {
      CutAt(before, '=', after);
    }
    if Cut(line, '=').Some? {
      var p := Cut(line, '=').value;
      assert line == p.before + "=" + p.after;
      assert Trim(p.before) != "" ==> IsPair(line, p.before, p.after);
    }
  }

  /** A pair without the prefix is a plain value. */
  lemma PlainLine(raw: string, before: string, after: string)
    requires !ReadLine(raw).Ignored? && IsPair(Trim(raw), before, after) && !HasPrefix(Trim(after), "secret:")
    ensures ReadLine(raw) == Entry(EnvVar(Trim(before), Trim(after), "", ""))
  {
    CutAt(before, '=', after);
  }

  /** A pair with the prefix is a reference, if there is something on both sides of its first slash. */
  lemma ReferenceLine(raw: string, before: string, after: string, secret: string, key: string)
    requires !ReadLine(raw).Ignored? && IsPair(Trim(raw), before, after)
    requires Trim(after) == "secret:" + (secret + "/" + key) && '/' !in secret
    ensures ReadLine(raw) ==
            if Trim(secret) == "" || Trim(key) == "" then BrokenRef(Trim(before))
            else Entry(EnvVar(Trim(before), "", Trim(secret), Trim(key)))
  {
    CutAt(before, '=', after);
    CutAt(secret, '/', key);
    assert Trim(after)[|SECRET_PREFIX|..] == secret + "/" + key;
  }

  lemma SlashlessLine(raw: string, before: string, after: string)
    requires !ReadLine(raw).Ignored? && IsPair(Trim(raw), before, after)
    requires HasPrefix(Trim(after), "secret:") && '/' !in Trim(after)
    ensures ReadLine(raw) == BrokenRef(Trim(before))
  {
    CutAt(before, '=', after);
    CutNone(Trim(after)[|SECRET_PREFIX|..], '/');
  }

  function NameIn(line: Line): Option<string> {
    match line
    case Entry(v) => Some(v.name)
    case BrokenRef(name) => Some(name)
    case _ => None
  }

  /** The name of line `k` stands on an earlier line. */
  predicate Repeats(lines: seq<Line>, k: nat)
    requires k < |lines|
  {
    NameIn(lines[k]).Some? && exists j :: 0 <= j < k && NameIn(lines[j]) == NameIn(lines[k])
  }

  predicate IsBad(lines: seq<Line>, k: nat)
    requires k < |lines|
  {
    lines[k].NoPair? || lines[k].BrokenRef? || Repeats(lines, k)
  }

  /** What is reported for a bad line; lines are counted from one. */
  function ErrorAt(lines: seq<Line>, k: nat): LineError
    requires k < |lines| && IsBad(lines, k)
  {
    if lines[k].NoPair? then NotKeyValue(k + 1)
    else if Repeats(lines, k) then SetTwice(k + 1, NameIn(lines[k]).value)
    else BadReference(k + 1, lines[k].name)
  }

  /** The variables of the lines from index `i` on, in order. */
  function EntriesFrom(lines: seq<Line>, i: nat): seq<EnvVar>
    requires i <= |lines|
    decreases |lines| - i
  {
    if i == |lines| then []
    else (if lines[i].Entry? then [lines[i].v] else []) + EntriesFrom(lines, i + 1)
  }

  ghost predicate SeenIs(lines: seq<Line>, i: nat, seen: set<string>)
    requires i <= |lines|
  {
    forall n :: n in seen <==> exists j :: 0 <= j < i && NameIn(lines[j]) == Some(n)
  }

  lemma SeenMore(lines: seq<Line>, i: nat, seen: set<string>)
    requires i < |lines| && SeenIs(lines, i, seen)
    ensures NameIn(lines[i]) == None ==> SeenIs(lines, i + 1, seen)
    ensures NameIn(lines[i]).Some? ==> SeenIs(lines, i + 1, seen + {NameIn(lines[i]).value})
  {
  }

  /** `k` is the first bad line from `i` on. */
  predicate FirstBad(lines: seq<Line>, i: nat, k: nat) {
    i <= k < |lines| && IsBad(lines, k) && forall j :: i <= j < k ==> !IsBad(lines, j)
  }

  lemma {:induction false} CollectReports(lines: seq<Line>, i: nat, seen: set<string>, k: nat)
    requires i <= |lines| && SeenIs(lines, i, seen) && FirstBad(lines, i, k)
    ensures Collect(lines, i, seen) == Err(ErrorAt(lines, k))
    decreases |lines| - i
  {
    if i < k {
      assert !IsBad(lines, i);
      SeenMore(lines, i, seen);
      CollectReports(lines, i + 1, if lines[i].Entry? then seen + {lines[i].v.name} else seen, k);
    }
  }

  lemma {:induction false} CollectGathers(lines: seq<Line>, i: nat, seen: set<string>)
    requires i <= |lines| && SeenIs(lines, i, seen) && forall j :: i <= j < |lines| ==> !IsBad(lines, j)
    ensures Collect(lines, i, seen) == Ok(EntriesFrom(lines, i))
    decreases |lines| - i
  {
    if i < |lines| {
      assert !IsBad(lines, i);
      SeenMore(lines, i, seen);
      CollectGathers(lines, i + 1, if lines[i].Entry? then seen + {lines[i].v.name} else seen);
      assert [] + EntriesFrom(lines, i + 1) == EntriesFrom(lines, i + 1);
    }
  }

  /** The first bad line is reported, and nothing else is. */
  lemma ParseReports(text: string, k: nat)
    requires FirstBad(ReadLines(Split(text, '\n')), 0, k)
    ensures Parse(text) == Err(ErrorAt(ReadLines(Split(text, '\n')), k))
  {
    CollectReports(ReadLines(Split(text, '\n')), 0, {}, k);
  }

  /** Without a bad line the text gives the variable of every line that has one, in order. */
  lemma ParseGathers(text: string)
    ensures var lines := ReadLines(Split(text, '\n'));
            Parse(text).Ok? <==> forall k :: 0 <= k < |lines| ==> !IsBad(lines, k)
    ensures Parse(text).Ok? ==> Parse(text).value == EntriesFrom(ReadLines(Split(text, '\n')), 0)
  {
    var lines := ReadLines(Split(text, '\n'));
    if forall k :: 0 <= k < |lines| ==> !IsBad(lines, k) {
      CollectGathers(lines, 0, {});
    } else {
      var k := LeastBad(lines);
      ParseReports(text, k);
    }
  }

  lemma LeastBad(lines: seq<Line>) returns (k: nat)
    requires exists j :: 0 <= j < |lines| && IsBad(lines, j)
    ensures FirstBad(lines, 0, k)
  {
    k := 0;
    while !IsBad(lines, k)
      invariant k < |lines| && forall j :: 0 <= j < k ==> !IsBad(lines, j)
      invariant exists j :: k <= j < |lines| && IsBad(lines, j)
      decreases |lines| - k
    {
      k := k + 1;
    }
  }

  // ------------------------------------------------------------------- printing

  function FormatValue(v: EnvVar): string {
    if v.secret != "" || v.key != "" then SECRET_PREFIX + (v.secret + ['/'] + v.key) else v.value
  }

  function FormatLine(v: EnvVar): string {
    v.name + ['='] + FormatValue(v)
  }

  function Format(vars: seq<EnvVar>): string {
    if vars == [] then "" else Format(vars[..|vars| - 1]) + FormatLine(vars[|vars| - 1]) + "\n"
  }

  method FormatEnvLines(vars: seq<EnvVar>) returns (text: string)
    ensures text == Format(vars)
  {
    text := "";
    for i := 0 to |vars|
      invariant text == Format(vars[..i])
    {
      assert vars[..i + 1][..i] == vars[..i];
      text := text + FormatLine(vars[i]) + "\n";
    }
    assert vars[..|vars|] == vars;
  }

  // --------------------------------------------------- exactly what parsing yields

  /** A name, value or key that stands on one line with no outer white space. */
  predicate OneLine(s: string) { Trimmed(s) && '\n' !in s }

  predicate GoodName(name: string) {
    OneLine(name) && name != "" && '=' !in name && !HasPrefix(name, "#")
  }

  predicate IsPlain(v: EnvVar) {
    v.secret == "" && v.key == "" && OneLine(v.value) && !HasPrefix(v.value, SECRET_PREFIX)
  }

  predicate IsReference(v: EnvVar) {
    && v.value == ""
    && OneLine(v.secret) && v.secret != "" && '/' !in v.secret
    && OneLine(v.key) && v.key != ""
  }

  predicate WellFormed(v: EnvVar) {
    GoodName(v.name) && (IsPlain(v) || IsReference(v))
  }

  predicate Distinct(vars: seq<EnvVar>) {
    forall i, j :: 0 <= i < j < |vars| ==> vars[i].name != vars[j].name
  }

  /** The lists the parser can return, described without the parser. */
  predicate Canonical(vars: seq<EnvVar>) {
    (forall i :: 0 <= i < |vars| ==> WellFormed(vars[i])) && Distinct(vars)
  }

  lemma TrimOneLine(s: string, c: char)
    requires '\n' !in s
    ensures OneLine(Trim(s)) && (c !in s ==> c !in Trim(s))
  {
    var _, _ := TrimParts(s);
    TrimKeepsOut(s, '\n');
    if c !in s {
      TrimKeepsOut(s, c);
    }
  }

  lemma ReadValueWellFormed(name: string, value: string)
    requires GoodName(name) && OneLine(value)
    ensures ReadValue(name, value).Entry? ==> WellFormed(ReadValue(name, value).v)
  {
    if HasPrefix(value, SECRET_PREFIX) {
      var ref := value[|SECRET_PREFIX|..];
      assert '\n' !in ref;
      CutParts(ref, '/');
      if Cut(ref, '/').Some? {
        TrimOneLine(Cut(ref, '/').value.before, '/');
        TrimOneLine(Cut(ref, '/').value.after, '\n');
      }
    }
  }

  /** The key of a trimmed line starts where the line starts. */
  lemma NameWellFormed(line: string, p: Pieces)
    requires OneLine(line) && line != "" && !HasPrefix(line, "#")
    requires line == p.before + ['='] + p.after && '=' !in p.before && Trim(p.before) != ""
    ensures GoodName(Trim(p.before)) && '\n' !in p.after
  {
    TrimOneLine(p.before, '=');
    assert TrimLeft(p.before) == p.before;
    var tail := TrimRightPrefix(p.before);
    assert p.before == Trim(p.before) + tail;
  }

  /** A line that is read as an entry is well formed. */
  lemma ReadLineWellFormed(raw: string)
    requires '\n' !in raw && ReadLine(raw).Entry?
    ensures WellFormed(ReadLine(raw).v)
  {
    var line := Trim(raw);
    TrimOneLine(raw, '\n');
    CutParts(line, '=');
    var p := Cut(line, '=').value;
    NameWellFormed(line, p);
    TrimOneLine(p.after, '\n');
    ReadValueWellFormed(Trim(p.before), Trim(p.after));
  }

  lemma FormatValueReads(v: EnvVar)
    requires WellFormed(v)
    ensures OneLine(FormatValue(v)) && ReadValue(v.name, FormatValue(v)) == Entry(v)
  {
    if IsReference(v) {
      var ref := v.secret + ['/'] + v.key;
      var value := FormatValue(v);
      assert value == SECRET_PREFIX + ref;
      assert value[|SECRET_PREFIX|..] == ref;
      assert value[0] == 's' && value[|value| - 1] == v.key[|v.key| - 1];
      CutAt(v.secret, '/', v.key);
    }
  }

  /** Printing a well-formed variable gives a line that reads back as it. */
  lemma ReadFormatLine(v: EnvVar)
    requires WellFormed(v)
    ensures '\n' !in FormatLine(v) && ReadLine(FormatLine(v)) == Entry(v)
  {
    var value, line := FormatValue(v), FormatLine(v);
    FormatValueReads(v);
    assert line[0] == v.name[0];
    assert line[|line| - 1] == if value == "" then '=' else value[|value| - 1];
    CutAt(v.name, '=', value);
  }

  predicate GoodLine(line: Line) { line.Entry? ==> WellFormed(line.v) }

  /** Whatever is collected is canonical and avoids the names already taken. */
  lemma {:induction false} CollectCanonical(lines: seq<Line>, i: nat, seen: set<string>)
    requires i <= |lines| && forall k :: 0 <= k < |lines| ==> GoodLine(lines[k])
    requires Collect(lines, i, seen).Ok?
    ensures Canonical(Collect(lines, i, seen).value)
    ensures forall v :: v in Collect(lines, i, seen).value ==> v.name !in seen
    decreases |lines| - i
  {
    if i < |lines| {
      if lines[i].Ignored? {
        CollectCanonical(lines, i + 1, seen);
      } else {
        assert GoodLine(lines[i]);
        CollectCanonical(lines, i + 1, seen + {lines[i].v.name});
      }
    }
  }

  lemma ParseCanonical(text: string)
    requires Parse(text).Ok?
    ensures Canonical(Parse(text).value)
  {
    var parts := Split(text, '\n');
    JoinSplit(text, '\n');
    forall k | 0 <= k < |parts| ensures GoodLine(ReadLines(parts)[k]) {
      if ReadLine(parts[k]).Entry? {
        ReadLineWellFormed(parts[k]);
      }
    }
    CollectCanonical(ReadLines(parts), 0, {});
  }

  function FormatLines(vars: seq<EnvVar>): (r: seq<string>)
    ensures |r| == |vars| && forall i :: 0 <= i < |vars| ==> r[i] == FormatLine(vars[i])
  {
    seq(|vars|, i requires 0 <= i < |vars| => FormatLine(vars[i]))
  }

  lemma {:induction false} FormatIsJoin(vars: seq<EnvVar>)
    ensures Format(vars) == Join(FormatLines(vars) + [""], '\n')
  {
    if vars != [] {
      var front, last := vars[..|vars| - 1], FormatLine(vars[|vars| - 1]);
      FormatIsJoin(front);
      assert FormatLines(vars) == FormatLines(front) + [last];
      JoinMore(FormatLines(front), last);
    } else {
      assert FormatLines(vars) + [""] == [""];
    }
  }

  lemma {:induction false} JoinMore(parts: seq<string>, last: string)
    ensures Join(parts + [last] + [""], '\n') == Join(parts + [""], '\n') + last + "\n"
  {
    var long, short := parts + [last] + [""], parts + [""];
    if parts == [] {
      assert long[1..] == [""];
    } else {
      assert long[1..] == parts[1..] + [last] + [""] && short[1..] == parts[1..] + [""];
      JoinMore(parts[1..], last);
    }
  }

  lemma {:induction false} CollectEntries(lines: seq<Line>, vars: seq<EnvVar>, i: nat, seen: set<string>)
    requires Distinct(vars) && i <= |vars| && |lines| == |vars| + 1
    requires forall k :: 0 <= k < |vars| ==> lines[k] == Entry(vars[k])
    requires lines[|vars|] == Ignored
    requires forall k :: i <= k < |vars| ==> vars[k].name !in seen
    ensures Collect(lines, i, seen) == Ok(vars[i..])
    decreases |vars| - i
  {
    if i < |vars| {
      CollectEntries(lines, vars, i + 1, seen + {vars[i].name});
      assert vars[i..] == [vars[i]] + vars[i + 1..];
    } else {
      assert Collect(lines, i + 1, seen) == Ok([]);
    }
  }

  /** The printed text, split at its line ends, is the printed lines and "". */
  lemma SplitFormat(vars: seq<EnvVar>)
    requires Canonical(vars)
    ensures Split(Format(vars), '\n') == FormatLines(vars) + [""]
  {
    var parts := FormatLines(vars) + [""];
    FormatIsJoin(vars);
    forall k | 0 <= k < |vars| ensures '\n' !in parts[k] {
      ReadFormatLine(vars[k]);
    }
    SplitJoin(parts, '\n');
  }

  lemma FormattedReads(vars: seq<EnvVar>)
    requires Canonical(vars)
    ensures var lines := ReadLines(FormatLines(vars) + [""]);
            && lines[|vars|] == Ignored
            && forall k :: 0 <= k < |vars| ==> lines[k] == Entry(vars[k])
  {
    var parts := FormatLines(vars) + [""];
    forall k | 0 <= k < |vars| ensures ReadLine(parts[k]) == Entry(vars[k]) {
      ReadFormatLine(vars[k]);
    }
  }

  /** Every canonical list survives printing and parsing. */
  lemma FormatThenParse(vars: seq<EnvVar>)
    requires Canonical(vars)
    ensures Parse(Format(vars)) == Ok(vars)
  {
    SplitFormat(vars);
    FormattedReads(vars);
    CollectEntries(ReadLines(FormatLines(vars) + [""]), vars, 0, {});
    assert vars[0..] == vars;
  }

  /** The parser returns exactly the canonical lists. */
  lemma ParserImage(vars: seq<EnvVar>)
    ensures Canonical(vars) <==> exists text: string :: Parse(text) == Ok(vars)
  {
    if Canonical(vars) {
      FormatThenParse(vars);
    }
    if text: string :| Parse(text) == Ok(vars) {
      ParseCanonical(text);
    }
  }

  /** Parse, print and parse again: the same answer as parsing once, on every text. */
  lemma ParseFormatParse(text: string)
    ensures Parse(text).Ok? ==> Parse(Format(Parse(text).value)) == Parse(text)
  {
    if Parse(text).Ok? {
      ParseCanonical(text);
      FormatThenParse(Parse(text).value);
    }
  }

  // ----------------------------------------------------------------- name lists

  predicate IsSeparator(c: char) {
    c == ',' || c == ' ' || c == '\t' || c == '\n' || c == '\r'
  }

  /** `strings.FieldsFunc`: the maximal runs of non-separators. */
  function Fields(s: string): (r: seq<string>)
    ensures forall f :: f in r ==> f != "" && forall c :: c in f ==> !IsSeparator(c)
    decreases |s|
  {
    if s == "" then []
    else if IsSeparator(s[0]) then Fields(s[1..])
    else [Run(s)] + Fields(s[|Run(s)|..])
  }

  function Run(s: string): (r: string)
    ensures r <= s && forall c :: c in r ==> !IsSeparator(c)
    ensures s != "" && !IsSeparator(s[0]) ==> r != ""
  {
    if s == "" || IsSeparator(s[0]) then "" else [s[0]] + Run(s[1..])
  }

  /** Commas, blanks, tabs and line ends separate names. */
  lemma SeparatorsAre(c: char)
    ensures IsSeparator(c) <==> c in ", \t\n\r"
  {
  }

  lemma {:induction false} RunOfWord(word: string, rest: string)
    requires (forall c :: c in word ==> !IsSeparator(c)) && (rest == "" || IsSeparator(rest[0]))
    ensures Run(word + rest) == word
  {
    var s := word + rest;
    if word == "" {
      assert s == rest;
    } else {
      assert word[0] in word && s[1..] == word[1..] + rest;
      RunOfWord(word[1..], rest);
      assert word == [word[0]] + word[1..];
    }
  }

  /** A text is split at its separators, and nothing between them is lost. */
  lemma FieldsExactly(word: string, rest: string)
    requires (forall c :: c in word ==> !IsSeparator(c)) && (rest == "" || IsSeparator(rest[0]))
    ensures Fields("") == []
    ensures word != "" ==> Fields(word + rest) == [word] + Fields(rest)
    ensures rest != "" ==> Fields(rest) == Fields(rest[1..])
  {
    RunOfWord(word, rest);
    if word != "" {
      assert (word + rest)[0] == word[0] && word[0] in word;
      assert (word + rest)[|word|..] == rest;
    }
  }

  predicate NoRepeat(xs: seq<string>) {
    forall i, j :: 0 <= i < j < |xs| ==> xs[i] != xs[j]
  }

  /** `xs` without the entries that occurred before. */
  function FirstSeen(xs: seq<string>): (r: seq<string>)
    ensures NoRepeat(r)
    ensures forall x :: x in r <==> x in xs
  {
    if xs == [] then []
    else
      var front, last := FirstSeen(xs[..|xs| - 1]), xs[|xs| - 1];
      assert xs == xs[..|xs| - 1] + [last];
      if last in xs[..|xs| - 1] then front else front + [last]
  }

  function NameList(text: string): seq<string> { FirstSeen(Fields(text)) }

  method ParseNameList(text: string) returns (out: seq<string>)
    ensures out == NameList(text)
  {
    var fields := Fields(text);
    var seen: set<string> := {};
    out := [];
    for i := 0 to |fields|
      invariant out == FirstSeen(fields[..i])
      invariant forall x :: x in seen <==> x in fields[..i]
    {
      assert fields[..i + 1][..i] == fields[..i] && fields[..i + 1][i] == fields[i];
      if fields[i] !in seen {
        seen := seen + {fields[i]};
        out := out + [fields[i]];
      }
    }
    assert fields[..|fields|] == fields;
  }

  function Position(xs: seq<string>, x: string): (k: nat)
    requires x in xs
    ensures k < |xs| && xs[k] == x && x !in xs[..k]
  {
    if xs[0] == x then 0
    else
      assert xs == [xs[0]] + xs[1..];
      var k := Position(xs[1..], x);
      assert xs[..k + 1] == [xs[0]] + xs[1..][..k];
      k + 1
  }

  /** Entries keep the order of their first occurrence. */
  lemma {:induction false} FirstSeenKeepsOrder(xs: seq<string>, i: nat, j: nat)
    requires i < j < |FirstSeen(xs)|
    ensures Position(xs, FirstSeen(xs)[i]) < Position(xs, FirstSeen(xs)[j])
  {
    var n := |xs| - 1;
    var front := FirstSeen(xs[..n]);
    var x, y := FirstSeen(xs)[i], FirstSeen(xs)[j];
    assert x in front;
    PositionInFront(xs, n, x);
    if j < |front| {
      FirstSeenKeepsOrder(xs[..n], i, j);
      PositionInFront(xs, n, y);
    } else if Position(xs, y) < n {
      assert xs[..n][Position(xs, y)] == y;
    }
  }

  lemma PositionInFront(xs: seq<string>, n: nat, x: string)
    requires n <= |xs| && x in xs[..n]
    ensures x in xs && Position(xs, x) == Position(xs[..n], x)
  {
    var k := Position(xs[..n], x);
    assert xs[k] == x;
    var m := Position(xs, x);
    assert xs[..n][..k] == xs[..k];
    assert !(m < k) by {
      assert xs[m] == x;
    }
  }
}
