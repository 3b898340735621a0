/**
 The string operations of Go's `strings` package that the repository leans on:
 trimming, cutting at a separator, splitting and joining, prefix tests and the
 byte-wise order. A string is a sequence of Unicode scalar values.
 */
module Text {
  import opened Wrappers

  // ---------------------------------------------------------------- trimming

  /** Unicode's White_Space property, as `unicode.IsSpace` tests it. */
  predicate IsSpace(c: char) {
    || '\t' <= c <= '\r' || c == ' ' || c == '\U{85}' || c == '\U{A0}' || c == '\U{1680}'
    || '\U{2000}' <= c <= '\U{200A}' || c == '\U{2028}' || c == '\U{2029}'
    || c == '\U{202F}' || c == '\U{205F}' || c == '\U{3000}'
  }

  /** The code points of that property. */
  lemma SpacesAre(c: char)
    ensures IsSpace(c) <==>
            c as int in {0x9, 0xA, 0xB, 0xC, 0xD, 0x20, 0x85, 0xA0, 0x1680,
                0x2000, 0x2001, 0x2002, 0x2003, 0x2004, 0x2005, 0x2006, 0x2007, 0x2008, 0x2009, 0x200A,
                0x2028, 0x2029, 0x202F, 0x205F, 0x3000}
  {
  }

  /** Neither end of `s` is white space. */
  predicate Trimmed(s: string) {
    s == "" || (!IsSpace(s[0]) && !IsSpace(s[|s| - 1]))
  }

  function TrimLeft(s: string): string {
    if s != "" && IsSpace(s[0]) then TrimLeft(s[1..]) else s
  }

  function TrimRight(s: string): string {
    if s != "" && IsSpace(s[|s| - 1]) then TrimRight(s[..|s| - 1]) else s
  }

  /** `strings.TrimSpace`: the part of `s` between its outer white space. */
  function Trim(s: string): string {
    TrimRight(TrimLeft(s))
  }

  lemma TrimmedStays(s: string)
    requires Trimmed(s)
    ensures Trim(s) == s
  {
  }

  predicate Blank(s: string) {
    forall c :: c in s ==> IsSpace(c)
  }

  lemma {:induction false} TrimLeftSuffix(s: string) returns (lead: string)
    ensures s == lead + TrimLeft(s) && Blank(lead)
    ensures TrimLeft(s) == "" || !IsSpace(TrimLeft(s)[0])
  {
    lead := "";
    if s != "" && IsSpace(s[0]) {
      var more := TrimLeftSuffix(s[1..]);
      lead := [s[0]] + more;
      assert s == [s[0]] + s[1..];
    }
  }

  lemma {:induction false} TrimRightPrefix(s: string) returns (tail: string)
    ensures s == TrimRight(s) + tail && Blank(tail)
    ensures TrimRight(s) == "" || !IsSpace(TrimRight(s)[|TrimRight(s)| - 1])
  {
    tail := "";
    if s != "" && IsSpace(s[|s| - 1]) {
      var more := TrimRightPrefix(s[..|s| - 1]);
      tail := more + [s[|s| - 1]];
      assert s == s[..|s| - 1] + [s[|s| - 1]];
    }
  }

  /** What `Trim` removes is white space, and what it leaves has none at its ends. */
  lemma TrimParts(s: string) returns (lead: string, tail: string)
    ensures s == lead + Trim(s) + tail && Blank(lead) && Blank(tail)
    ensures Trimmed(Trim(s))
  {
    lead := TrimLeftSuffix(s);
    tail := TrimRightPrefix(TrimLeft(s));
    assert TrimLeft(s) == Trim(s) + tail;
    if Trim(s) != "" {
      assert Trim(s)[0] == TrimLeft(s)[0];
    }
  }

  lemma TrimKeepsOut(s: string, c: char)
    requires c !in s
    ensures c !in Trim(s)
  {
    var lead, tail := TrimParts(s);
  }

  lemma {:induction false} TrimLeftIs(lead: string, rest: string)
    requires Blank(lead) && (rest == "" || !IsSpace(rest[0]))
    ensures TrimLeft(lead + rest) == rest
  {
    if lead == "" {
      assert lead + rest == rest;
    } else {
      assert lead[0] in lead && (lead + rest)[1..] == lead[1..] + rest;
      TrimLeftIs(lead[1..], rest);
    }
  }

  lemma {:induction false} TrimRightIs(front: string, tail: string)
    requires Blank(tail) && (front == "" || !IsSpace(front[|front| - 1]))
    ensures TrimRight(front + tail) == front
  {
    if tail == "" {
      assert front + tail == front;
    } else {
      var n := |tail| - 1;
      assert tail[n] in tail && (front + tail)[..|front| + n] == front + tail[..n];
      TrimRightIs(front, tail[..n]);
    }
  }

  /** What is between the white space at both ends is what `Trim` leaves. */
  lemma TrimIs(lead: string, core: string, tail: string)
    requires Blank(lead) && Blank(tail) && Trimmed(core)
    ensures Trim(lead + core + tail) == core
  {
    if core == "" {
      assert lead + core + tail == (lead + tail) + "";
      TrimLeftIs(lead + tail, "");
    } else {
      assert lead + core + tail == lead + (core + tail);
      TrimLeftIs(lead, core + tail);
      TrimRightIs(core, tail);
    }
  }

  // ---------------------------------------------------------- cutting at a char

  datatype Pieces = Pieces(before: string, after: string)

  /** `strings.Cut` at the first `sep`; `None` when there is none. */
  function Cut(s: string, sep: char): (r: Option<Pieces>)
    ensures r.Some? ==> |r.value.before| + 1 + |r.value.after| == |s|
  {
    if s == "" then None
    else if s[0] == sep then Some(Pieces("", s[1..]))
    else
      match Cut(s[1..], sep)
      case None => None
      case Some(p) => Some(Pieces([s[0]] + p.before, p.after))
  }

  lemma {:induction false} CutParts(s: string, sep: char)
    ensures match Cut(s, sep)
            case None => sep !in s
            case Some(p) => s == p.before + [sep] + p.after && sep !in p.before
  {
    if s != "" {
      assert s == [s[0]] + s[1..];
      if s[0] != sep {
        CutParts(s[1..], sep);
      }
    }
  }

  lemma {:induction false} CutNone(s: string, sep: char)
    requires sep !in s
    ensures Cut(s, sep) == None
  {
    if s != "" {
      assert s[0] in s;
      CutNone(s[1..], sep);
    }
  }

  /** The cut is at the first separator, so it is determined by the text. */
  lemma {:induction false} CutAt(before: string, sep: char, after: string)
    requires sep !in before
    ensures Cut(before + [sep] + after, sep) == Some(Pieces(before, after))
  {
    var s := before + [sep] + after;
    if before == "" {
      assert s[1..] == after;
    } else {
      CutAt(before[1..], sep, after);
      assert s[1..] == before[1..] + [sep] + after;
      assert before == [before[0]] + before[1..];
    }
  }

  // -------------------------------------------------------- splitting and joining

  /** `strings.Split`: always at least one part. */
  function Split(s: string, sep: char): (r: seq<string>)
    ensures |r| >= 1
    decreases |s|
  {
    match Cut(s, sep)
    case None => [s]
    case Some(p) => [p.before] + Split(p.after, sep)
  }

  /** `strings.Join` with a one-character separator. */
  function Join(parts: seq<string>, sep: char): string {
    if parts == [] then ""
    else if |parts| == 1 then parts[0]
    else parts[0] + [sep] + Join(parts[1..], sep)
  }

  predicate Free(parts: seq<string>, sep: char) {
    forall i :: 0 <= i < |parts| ==> sep !in parts[i]
  }

  /** Splitting loses nothing and leaves no separator inside a part. */
  lemma {:induction false} JoinSplit(s: string, sep: char)
    ensures Join(Split(s, sep), sep) == s && Free(Split(s, sep), sep)
    decreases |s|
  {
    CutParts(s, sep);
    if Cut(s, sep).Some? {
      JoinSplit(Cut(s, sep).value.after, sep);
    }
  }

  lemma {:induction false} SplitJoin(parts: seq<string>, sep: char)
    requires |parts| >= 1 && Free(parts, sep)
    ensures Split(Join(parts, sep), sep) == parts
  {
    CutParts(parts[0], sep);
    if |parts| > 1 {
      CutAt(parts[0], sep, Join(parts[1..], sep));
      SplitJoin(parts[1..], sep);
    }
  }

  // ------------------------------------------------------------------- prefixes

  predicate HasPrefix(s: string, prefix: string) {
    prefix <= s
  }

  /** `strings.Contains`. */
  predicate Contains(s: string, part: string) {
    exists i :: 0 <= i <= |s| && HasPrefix(s[i..], part)
  }

  // ----------------------------------------------------------------------- order

  /** `cmp.Compare` on strings; code-point order is the order of the UTF-8 bytes. */
  function Compare(a: string, b: string): (c: int)
    ensures -1 <= c <= 1
    ensures c == 0 <==> a == b
  {
    if a == "" && b == "" then 0
    else if a == "" then -1
    else if b == "" then 1
    else if a[0] < b[0] then -1
    else if b[0] < a[0] then 1
    else
      assert a == [a[0]] + a[1..] && b == [b[0]] + b[1..];
      Compare(a[1..], b[1..])
  }

  lemma {:induction false} CompareFlips(a: string, b: string)
    ensures Compare(a, b) == -Compare(b, a)
  {
    if a != "" && b != "" && a[0] == b[0] {
      CompareFlips(a[1..], b[1..]);
    }
  }

  lemma {:induction false} CompareTransitive(a: string, b: string, c: string)
    requires Compare(a, b) <= 0 && Compare(b, c) <= 0
    ensures Compare(a, c) <= 0
    ensures Compare(a, c) == 0 ==> Compare(a, b) == 0 && Compare(b, c) == 0
  {
    if a != "" && b != "" && c != "" && a[0] == b[0] == c[0] {
      CompareTransitive(a[1..], b[1..], c[1..]);
    }
  }

  /** The shared front of two texts up to `k`, where they differ or the first one ends. */
  predicate DiffersAt(a: string, b: string, k: nat) {
    k <= |a| && k < |b| && a[..k] == b[..k] && (k == |a| || a[k] < b[k])
  }

  /** The order is lexicographic: by the first character that differs, the shorter text first. */
  lemma {:induction false} CompareLexicographic(a: string, b: string)
    ensures Compare(a, b) < 0 <==> exists k: nat :: DiffersAt(a, b, k)
  {
    if a != "" && b != "" && a[0] == b[0] {
      CompareLexicographic(a[1..], b[1..]);
      if k: nat :| DiffersAt(a[1..], b[1..], k) {
        assert a[..k + 1] == [a[0]] + a[1..][..k] && b[..k + 1] == [b[0]] + b[1..][..k];
        assert DiffersAt(a, b, k + 1);
      }
      if k: nat :| DiffersAt(a, b, k) {
        assert k > 0;
        assert a[1..][..k - 1] == a[..k][1..] && b[1..][..k - 1] == b[..k][1..];
        assert DiffersAt(a[1..], b[1..], k - 1);
      }
    } else if b != "" {
      assert (a == "" || a[0] < b[0]) ==> DiffersAt(a, b, 0);
      if k: nat :| DiffersAt(a, b, k) {
        if k > 0 {
          assert a[..k][0] == b[..k][0];
        }
      }
    }
  }
}
