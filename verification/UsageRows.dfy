/**
 The order of the usage table (`sortUsageRows` in internal/http/handlers/usage.go).
 */
module UsageRows {
  import opened Sorting
  import opened Comparing
  import Text

  datatype Row = Row(
    env: string, envLabel: string, issuer: string, clientId: string, name: string,
    appSlug: string, appStages: seq<string>, visits: bool, logins: int)

  function FirstNonEmpty(a: string, b: string): string { if a != "" then a else b }

  /** Rows of one app belong together: by slug, else by name, else by client. */
  function Group(r: Row): string {
    FirstNonEmpty(r.appSlug, FirstNonEmpty(r.name, r.clientId))
  }

  /** A Go map read: absent keys count as zero. */
  function Lookup(m: map<string, int>, k: string): int { if k in m then m[k] else 0 }

  function GroupLogins(rows: seq<Row>): map<string, int> {
    if rows == [] then map[]
    else
      var before, r := GroupLogins(rows[..|rows| - 1]), rows[|rows| - 1];
      before[Group(r) := Lookup(before, Group(r)) + r.logins]
  }

  function GroupCompare(a: Row, b: Row, logins: map<string, int>, envRank: map<string, int>): int {
    Or(CompareInt(Lookup(logins, Group(b)), Lookup(logins, Group(a))),
       Or(Text.Compare(Group(a), Group(b)),
          CompareInt(Lookup(envRank, a.env), Lookup(envRank, b.env))))
  }

  function RowCompare(a: Row, b: Row): int {
    Or(CompareInt(b.logins, a.logins),
       Or(Text.Compare(a.name, b.name),
          Or(Text.Compare(a.clientId, b.clientId), Text.Compare(a.issuer, b.issuer))))
  }

  function RowOrder(grouped: bool, logins: map<string, int>, envRank: map<string, int>): (Row, Row) -> bool {
    (a: Row, b: Row) =>
      Or(if grouped then GroupCompare(a, b, logins, envRank) else 0, RowCompare(a, b)) <= 0
  }

  function SortedRows(rows: seq<Row>, grouped: bool, envRank: map<string, int>): seq<Row> {
    Sort(RowOrder(grouped, if grouped then GroupLogins(rows) else map[], envRank), rows)
  }

  method SortUsageRows(rows: array<Row>, grouped: bool, envRank: map<string, int>)
    modifies rows
    ensures rows[..] == SortedRows(old(rows[..]), grouped, envRank)
  {
    var groupLogins: map<string, int> := map[];
    if grouped {
      for i := 0 to rows.Length
        invariant groupLogins == GroupLogins(rows[..i])
        invariant rows[..] == old(rows[..])
      {
        assert rows[..i + 1][..i] == rows[..i];
        var g := Group(rows[i]);
        groupLogins := groupLogins[g := Lookup(groupLogins, g) + rows[i].logins];
      }
      assert rows[..rows.Length] == rows[..];
    }
    SortStableFunc(rows, RowOrder(grouped, groupLogins, envRank));
  }

  // -------------------------------------------------------------------- the order

  lemma GroupFlips(a: Row, b: Row, logins: map<string, int>, envRank: map<string, int>)
    ensures GroupCompare(a, b, logins, envRank) == -GroupCompare(b, a, logins, envRank)
  {
    Text.CompareFlips(Group(a), Group(b));
  }

  lemma RowFlips(a: Row, b: Row)
    ensures RowCompare(a, b) == -RowCompare(b, a)
  {
    Text.CompareFlips(a.name, b.name);
    Text.CompareFlips(a.clientId, b.clientId);
    Text.CompareFlips(a.issuer, b.issuer);
  }

  lemma GroupConsistent(a: Row, b: Row, c: Row, logins: map<string, int>, envRank: map<string, int>)
    ensures Consistent(GroupCompare(a, b, logins, envRank), GroupCompare(b, c, logins, envRank),
                       GroupCompare(a, c, logins, envRank))
  {
    TextConsistent(Group(a), Group(b), Group(c));
  }

  lemma RowConsistent(a: Row, b: Row, c: Row)
    ensures Consistent(RowCompare(a, b), RowCompare(b, c), RowCompare(a, c))
  {
    TextConsistent(a.name, b.name, c.name);
    TextConsistent(a.clientId, b.clientId, c.clientId);
    TextConsistent(a.issuer, b.issuer, c.issuer);
  }

  /** The comparator is a total preorder, so sorting by it is well defined. */
  lemma RowOrderIsPreorder(grouped: bool, logins: map<string, int>, envRank: map<string, int>)
    ensures TotalPreorder(RowOrder(grouped, logins, envRank))
  {
    var leq := RowOrder(grouped, logins, envRank);
    forall a, b ensures leq(a, b) || leq(b, a) {
      GroupFlips(a, b, logins, envRank);
      RowFlips(a, b);
    }
    forall a, b, c | leq(a, b) && leq(b, c) ensures leq(a, c) {
      GroupConsistent(a, b, c, logins, envRank);
      RowConsistent(a, b, c);
    }
  }

  /** The table holds the same rows, in order, and equal rows keep their order; nothing else is possible. */
  lemma SortedRowsStable(rows: seq<Row>, grouped: bool, envRank: map<string, int>)
    ensures var leq := RowOrder(grouped, if grouped then GroupLogins(rows) else map[], envRank);
            var out := SortedRows(rows, grouped, envRank);
            && multiset(out) == multiset(rows) && Sorted(leq, out) && SameClasses(leq, out, rows)
            && forall other :: Sorted(leq, other) && SameClasses(leq, other, rows) ==> other == out
  {
    var leq := RowOrder(grouped, if grouped then GroupLogins(rows) else map[], envRank);
    RowOrderIsPreorder(grouped, if grouped then GroupLogins(rows) else map[], envRank);
    SortSorts(leq, rows);
    SortStable(leq, rows);
    forall other | Sorted(leq, other) && SameClasses(leq, other, rows)
      ensures other == SortedRows(rows, grouped, envRank)
    {
      StableSortUnique(leq, other, SortedRows(rows, grouped, envRank));
    }
  }

  /** In the ungrouped table logins descend; equal ones go by name, then client id, then issuer. */
  lemma PlainTable(rows: seq<Row>, envRank: map<string, int>, i: nat, j: nat)
    requires i < j < |rows|
    ensures var out := SortedRows(rows, false, envRank);
            && |out| == |rows| && out[i].logins >= out[j].logins
            && (out[i].logins == out[j].logins ==> Text.Compare(out[i].name, out[j].name) <= 0)
            && (out[i].logins == out[j].logins && out[i].name == out[j].name ==>
                  Text.Compare(out[i].clientId, out[j].clientId) <= 0)
            && (out[i].logins == out[j].logins && out[i].name == out[j].name && out[i].clientId == out[j].clientId ==>
                  Text.Compare(out[i].issuer, out[j].issuer) <= 0)
  {
    SortedRowsStable(rows, false, envRank);
    var out := SortedRows(rows, false, envRank);
    assert |multiset(out)| == |multiset(rows)|;
    assert RowOrder(false, map[], envRank)(out[i], out[j]);
  }

  // --------------------------------------------------------------- grouped tables

  /** The 30-day logins a row adds to group `g`. */
  function LoginsIn(g: string): Row -> int {
    (r: Row) => if Group(r) == g then r.logins else 0
  }

  lemma {:induction false} GroupLoginsSum(rows: seq<Row>, g: string)
    ensures Lookup(GroupLogins(rows), g) == SumOver(LoginsIn(g), rows)
  {
    if rows != [] {
      GroupLoginsSum(rows[..|rows| - 1], g);
    }
  }

  /**
   Grouped, with `out` the sorted table: rows of one app are contiguous, the groups
   come in non-increasing order of the logins they sum to in this very table, and
   within a group the environments come in configuration order.
   */
  lemma GroupedTable(rows: seq<Row>, envRank: map<string, int>, i: nat, j: nat)
    requires i < j < |rows|
    ensures var out := SortedRows(rows, true, envRank);
            && |out| == |rows|
            && SumOver(LoginsIn(Group(out[i])), out) >= SumOver(LoginsIn(Group(out[j])), out)
            && (Group(out[i]) == Group(out[j]) ==>
                  && Lookup(envRank, out[i].env) <= Lookup(envRank, out[j].env)
                  && forall k :: i < k < j ==> Group(out[k]) == Group(out[i]))
  {
    var logins, out := GroupLogins(rows), SortedRows(rows, true, envRank);
    var leq := RowOrder(true, logins, envRank);
    RowOrderIsPreorder(true, logins, envRank);
    SortSorts(leq, rows);
    forall k: nat | k < |out| ensures Lookup(logins, Group(out[k])) == SumOver(LoginsIn(Group(out[k])), out) {
      GroupLoginsSum(rows, Group(out[k]));
      SumPermutation(LoginsIn(Group(out[k])), rows, out);
    }
    assert leq(out[i], out[j]);
    if Group(out[i]) == Group(out[j]) {
      forall k | i < k < j ensures Group(out[k]) == Group(out[i]) {
        assert leq(out[i], out[k]) && leq(out[k], out[j]);
        Text.CompareFlips(Group(out[i]), Group(out[k]));
      }
    }
  }

  /**
   Rows of one app stand together whatever their names; groups with equal logins go by
   group; and in one environment of a group logins descend.
   */
  lemma GroupedTies(rows: seq<Row>, envRank: map<string, int>, i: nat, j: nat)
    requires i < j < |rows|
    ensures var out := SortedRows(rows, true, envRank);
            && |out| == |rows|
            && (out[i].appSlug != "" && out[i].appSlug == out[j].appSlug ==>
                  forall k :: i < k < j ==> Group(out[k]) == out[i].appSlug)
            && (SumOver(LoginsIn(Group(out[i])), out) == SumOver(LoginsIn(Group(out[j])), out) ==>
                  Text.Compare(Group(out[i]), Group(out[j])) <= 0)
            && (Group(out[i]) == Group(out[j]) && out[i].env == out[j].env ==> out[i].logins >= out[j].logins)
    ensures forall r: Row :: Group(r) == if r.appSlug != "" then r.appSlug else if r.name != "" then r.name else r.clientId
  {
    var logins, out := GroupLogins(rows), SortedRows(rows, true, envRank);
    GroupedTable(rows, envRank, i, j);
    SortedRowsStable(rows, true, envRank);
    assert RowOrder(true, logins, envRank)(out[i], out[j]);
    GroupLoginsSum(rows, Group(out[i]));
    GroupLoginsSum(rows, Group(out[j]));
    SumPermutation(LoginsIn(Group(out[i])), rows, out);
    SumPermutation(LoginsIn(Group(out[j])), rows, out);
  }
}
