/**
 The text column the metrics store keeps its hourly request counts in
 (internal/metrics/store.go): comma-separated decimal int64 values.
 */
module Sparkline {
  import opened Wrappers
  import opened Text
  import opened Decimal

  predicate IsInt64(v: int) { MIN_INT64 <= v <= MAX_INT64 }

  function Printed(values: seq<int>): (r: seq<string>)
    ensures |r| == |values|
  {
    seq(|values|, i requires 0 <= i < |values| => FormatInt(values[i]))
  }

  function Encoded(values: seq<int>): string {
    if values == [] then "" else Join(Printed(values), ',')
  }

  method EncodeSparkline(values: seq<int>) returns (text: string)
    ensures text == Encoded(values)
  {
    if |values| == 0 {
      return "";
    }
    var parts := new string[|values|];
    for i := 0 to |values|
      invariant forall k :: 0 <= k < i ==> parts[k] == FormatInt(values[k])
    {
      parts[i] := FormatInt(values[i]);
    }
    assert parts[..] == Printed(values);
    text := Join(parts[..], ',');
  }

  /** One stored entry: white space around it is ignored. */
  function Entry(part: string): Option<int> { ParseInt(Trim(part)) }

  /** The entries of `parts` that are well formed and in range, in order. */
  function Readable(parts: seq<string>): seq<int> {
    if parts == [] then []
    else
      var front, last := Readable(parts[..|parts| - 1]), Entry(parts[|parts| - 1]);
      if last.Some? then front + [last.value] else front
  }

  function Decoded(text: string): seq<int> {
    if text == "" then [] else Readable(Split(text, ','))
  }

  method DecodeSparkline(text: string) returns (out: seq<int>)
    ensures out == Decoded(text)
  {
    out := [];
    if text == "" {
      return;
    }
    var parts := Split(text, ',');
    for i := 0 to |parts|
      invariant out == Readable(parts[..i])
    {
      assert parts[..i + 1][..i] == parts[..i];
      var v := Entry(parts[i]);
      if v.None? {
        continue;
      }
      out := out + [v.value];
    }
    assert parts[..|parts|] == parts;
  }

  // ------------------------------------------------------------------ round trip

  lemma PrintedBare(v: int)
    ensures Trimmed(FormatInt(v)) && ',' !in FormatInt(v)
  {
    FormatChars(v);
    var s := FormatInt(v);
    assert s[0] in s && s[|s| - 1] in s;
  }

  lemma PrintedEntry(v: int)
    requires IsInt64(v)
    ensures Entry(FormatInt(v)) == Some(v) && ',' !in FormatInt(v)
  {
    PrintedBare(v);
    TrimmedStays(FormatInt(v));
    ParseFormat(v);
  }

  /** One more part: what it reads as joins the list. */
  lemma ReadableMore(parts: seq<string>, part: string, v: int)
    requires Entry(part) == Some(v)
    ensures Readable(parts + [part]) == Readable(parts) + [v]
  {
    assert (parts + [part])[..|parts|] == parts;
  }

  lemma PrintedMore(values: seq<int>, v: int)
    ensures Printed(values + [v]) == Printed(values) + [FormatInt(v)]
  {
  }

  predicate ReadsBack(values: seq<int>) { Readable(Printed(values)) == values }

  lemma ReadsOneMore(values: seq<int>, v: int)
    requires IsInt64(v) && ReadsBack(values)
    ensures ReadsBack(values + [v])
  {
    PrintedMore(values, v);
    PrintedEntry(v);
    ReadableMore(Printed(values), FormatInt(v), v);
  }

  lemma {:induction false} ReadablePrinted(values: seq<int>)
    requires forall i :: 0 <= i < |values| ==> IsInt64(values[i])
    ensures ReadsBack(values)
  {
    if values == [] {
      assert Printed(values) == [];
    } else {
      var n := |values| - 1;
      var front, v := values[..n], values[n];
      assert values == front + [v];
      ReadablePrinted(front);
      ReadsOneMore(front, v);
    }
  }

  /** Storing then loading gives back every list of int64 values, the minimum included. */
  lemma DecodeEncode(values: seq<int>)
    requires forall i :: 0 <= i < |values| ==> IsInt64(values[i])
    ensures Decoded(Encoded(values)) == values
  {
    if values != [] {
      var parts := Printed(values);
      forall i | 0 <= i < |parts| ensures ',' !in parts[i] {
        PrintedEntry(values[i]);
      }
      SplitJoin(parts, ',');
      ReadablePrinted(values);
      if Encoded(values) == "" {
        assert Split("", ',') == [""];
        PrintedEntry(values[0]);
        assert false;
      }
    }
  }

  // ------------------------------------------------------------------- one entry

  /** An entry is an int64 numeral with nothing but white space around it. */
  lemma EntryExactly(lead: string, core: string, tail: string)
    requires Blank(lead) && Blank(tail) && Trimmed(core)
    ensures Entry(lead + core + tail) == ParseInt(core)
  {
    TrimIs(lead, core, tail);
  }

  // ---------------------------------------------------------------- partial data

  /** What each part of a stored text reads as. */
  function Entries(parts: seq<string>): (r: seq<Option<int>>)
    ensures |r| == |parts| && forall i :: 0 <= i < |parts| ==> r[i] == Entry(parts[i])
  {
    seq(|parts|, i requires 0 <= i < |parts| => Entry(parts[i]))
  }

  /** The values are the readable entries in order; `at[k]` is where the k-th comes from. */
  predicate PicksInOrder(entries: seq<Option<int>>, values: seq<int>, at: seq<int>) {
    && |at| == |values|
    && (forall k :: 0 <= k < |at| ==> 0 <= at[k] < |entries| && entries[at[k]] == Some(values[k]))
    && (forall k, l :: 0 <= k < l < |at| ==> at[k] < at[l])
    && (forall i :: 0 <= i < |entries| && entries[i].Some? ==> i in at)
  }

  /** One entry more: its position is picked exactly when it can be read. */
  lemma PickMore(entries: seq<Option<int>>, values: seq<int>, at: seq<int>, e: Option<int>)
    requires PicksInOrder(entries, values, at)
    ensures e.None? ==> PicksInOrder(entries + [e], values, at)
    ensures e.Some? ==> PicksInOrder(entries + [e], values + [e.value], at + [|entries|])
  {
    if e.Some? {
      var at' := at + [|entries|];
      assert at'[|at|] == |entries|;
      forall i | 0 <= i < |entries| && entries[i].Some? ensures i in at' {
        assert i in at;
      }
    }
  }

  lemma {:induction false} ReadablePicks(parts: seq<string>) returns (at: seq<int>)
    ensures PicksInOrder(Entries(parts), Readable(parts), at)
  {
    at := [];
    if parts != [] {
      var n := |parts| - 1;
      at := ReadablePicks(parts[..n]);
      PickMore(Entries(parts[..n]), Readable(parts[..n]), at, Entry(parts[n]));
      assert Entries(parts) == Entries(parts[..n]) + [Entry(parts[n])];
      if Entry(parts[n]).Some? {
        at := at + [n];
      }
    }
  }

  /**
   On any stored text the decoder returns exactly the well-formed in-range
   entries between the commas, each once and in order.
   */
  lemma DecodePicks(text: string) returns (parts: seq<string>, at: seq<int>)
    ensures Free(parts, ',') && Join(parts, ',') == text
    ensures PicksInOrder(Entries(parts), Decoded(text), at)
  {
    JoinSplit(text, ',');
    if text == "" {
      parts, at := [], [];
    } else {
      parts := Split(text, ',');
      at := ReadablePicks(parts);
    }
  }
}
