/**
 The person comparison of the usage page (internal/http/handlers/usage_env.go):
 which drill-downs are fetched, and how their accounts are merged into persons.
 */
module Persons {
  import opened Wrappers
  import opened Sorting
  import opened Comparing
  import Decimal
  import FanOut
  import Text

  // ------------------------------------------------------------------ the job list

  datatype Window = Window(users: int, logins: int, refreshes: int, uses: int)

  /** One row of an environment's overview reply. */
  datatype ClientActivity = ClientActivity(issuer: string, clientId: string, name: string, last30d: Window)

  /** One drill-down: a client of one environment. */
  datatype Job = Job(env: nat, clientId: string)

  predicate Active(c: ClientActivity) { c.last30d != Window(0, 0, 0, 0) }

  function JobsIn(env: nat, clients: seq<ClientActivity>): seq<Job> {
    if clients == [] then []
    else
      var front, c := JobsIn(env, clients[..|clients| - 1]), clients[|clients| - 1];
      if Active(c) && Job(env, c.clientId) !in front then front + [Job(env, c.clientId)] else front
  }

  function JobsOf(sets: seq<seq<ClientActivity>>): seq<Job> {
    if sets == [] then []
    else JobsOf(sets[..|sets| - 1]) + JobsIn(|sets| - 1, sets[|sets| - 1])
  }

  method CollectJobs(sets: seq<seq<ClientActivity>>) returns (jobs: seq<Job>)
    ensures jobs == JobsOf(sets)
  {
    jobs := [];
    for i := 0 to |sets|
      invariant jobs == JobsOf(sets[..i])
    {
      assert sets[..i + 1][..i] == sets[..i];
      var clients, before := sets[i], jobs;
      var seen: set<string> := {};
      for k := 0 to |clients|
        invariant jobs == before + JobsIn(i, clients[..k])
        invariant forall id :: id in seen <==> Job(i, id) in JobsIn(i, clients[..k])
      {
        assert clients[..k + 1][..k] == clients[..k];
        var c := clients[k];
        if c.last30d == Window(0, 0, 0, 0) || c.clientId in seen {
          continue;
        }
        seen := seen + {c.clientId};
        jobs := jobs + [Job(i, c.clientId)];
      }
      assert clients[..|clients|] == clients;
    }
    assert sets[..|sets|] == sets;
  }

  predicate Distinct<T(==)>(s: seq<T>) {
    forall i, j :: 0 <= i < j < |s| ==> s[i] != s[j]
  }

  predicate HasActivity(clients: seq<ClientActivity>, id: string) {
    exists k :: 0 <= k < |clients| && clients[k].last30d != Window(0, 0, 0, 0) && clients[k].clientId == id
  }

  lemma {:induction false} JobsInExactly(env: nat, clients: seq<ClientActivity>)
    ensures Distinct(JobsIn(env, clients))
    ensures forall j :: j in JobsIn(env, clients) <==> j.env == env && HasActivity(clients, j.clientId)
  {
    if clients != [] {
      var n := |clients| - 1;
      JobsInExactly(env, clients[..n]);
      forall j: Job
        ensures j in JobsIn(env, clients) <==> j.env == env && HasActivity(clients, j.clientId)
      {
        if HasActivity(clients, j.clientId) && !(Active(clients[n]) && clients[n].clientId == j.clientId) {
          var k :| 0 <= k < |clients| && Active(clients[k]) && clients[k].clientId == j.clientId;
          assert clients[..n][k] == clients[k];
        }
      }
    }
  }

  /** Each environment's clients with 30-day activity are fetched once, and no others. */
  lemma {:induction false} JobsExactly(sets: seq<seq<ClientActivity>>)
    ensures Distinct(JobsOf(sets))
    ensures forall j :: j in JobsOf(sets) <==> j.env < |sets| && HasActivity(sets[j.env], j.clientId)
  {
    if sets != [] {
      var n := |sets| - 1;
      JobsExactly(sets[..n]);
      JobsInExactly(n, sets[n]);
      var front, back := JobsOf(sets[..n]), JobsIn(n, sets[n]);
      forall i, k | 0 <= i < |front| && 0 <= k < |back| ensures front[i] != back[k] {
        assert front[i] in front && back[k] in back;
      }
    }
  }

  // ------------------------------------------------------------- accounts and keys

  datatype Account = Account(
    accountId: string, name: string, personioId: Option<int>,
    logins: int, refreshes: int, uses: int, activeDays: int)

  function Lowered(s: string, lower: char -> char): (r: string)
    ensures |r| == |s|
  {
    seq(|s|, i requires 0 <= i < |s| => lower(s[i]))
  }

  /** `personKey`; `lower` maps one character to lower case. */
  function PersonKey(a: Account, lower: char -> char): string {
    if a.personioId.Some? then "p:" + Decimal.FormatInt(a.personioId.value)
    else if Text.Trim(a.name) != "" then "n:" + Lowered(Text.Trim(a.name), lower)
    else "a:" + a.accountId
  }

  /** The same Personio ID; without one the same name but for case; without that the same account. */
  predicate SamePerson(a: Account, b: Account, lower: char -> char) {
    if a.personioId.Some? || b.personioId.Some? then a.personioId == b.personioId
    else if Text.Trim(a.name) != "" || Text.Trim(b.name) != "" then
      && Text.Trim(a.name) != "" && Text.Trim(b.name) != ""
      && Lowered(Text.Trim(a.name), lower) == Lowered(Text.Trim(b.name), lower)
    else a.accountId == b.accountId
  }

  /** The three kinds of key never collide. */
  lemma KeysAgreeExactly(a: Account, b: Account, lower: char -> char)
    ensures PersonKey(a, lower) == PersonKey(b, lower) <==> SamePerson(a, b, lower)
  {
    var k, l := PersonKey(a, lower), PersonKey(b, lower);
    assert k[0] == if a.personioId.Some? then 'p' else if Text.Trim(a.name) != "" then 'n' else 'a';
    assert l[0] == if b.personioId.Some? then 'p' else if Text.Trim(b.name) != "" then 'n' else 'a';
    if k == l {
      assert k[2..] == l[2..];
      if a.personioId.Some? {
        assert k[2..] == Decimal.FormatInt(a.personioId.value);
        assert l[2..] == Decimal.FormatInt(b.personioId.value);
        Decimal.FormatInjective(a.personioId.value, b.personioId.value);
      }
    }
  }

  // ------------------------------------------------------------- what goes into a sum

  datatype Entry = Entry(key: string, env: nat, account: Account)

  function Tagged(accounts: seq<Account>, env: nat, lower: char -> char): (r: seq<Entry>)
    ensures |r| == |accounts|
  {
    if accounts == [] then []
    else
      var a := accounts[|accounts| - 1];
      Tagged(accounts[..|accounts| - 1], env, lower) + [Entry(PersonKey(a, lower), env, a)]
  }

  /** All accounts of the calls that succeeded, in job order. */
  function Entries(jobs: seq<Job>, results: seq<Option<seq<Account>>>, lower: char -> char): seq<Entry>
    requires |jobs| == |results|
  {
    if jobs == [] then []
    else
      var n := |jobs| - 1;
      Entries(jobs[..n], results[..n], lower) +
      if results[n].Some? then Tagged(results[n].value, jobs[n].env, lower) else []
  }

  /** How many accounts the slots before slot `k` hold. */
  function Before(results: seq<Option<seq<Account>>>, k: nat): nat
    requires k <= |results|
  {
    if k == 0 then 0 else Before(results, k - 1) + (match results[k - 1] case Some(accounts) => |accounts| case None => 0)
  }

  lemma {:induction false} BeforePrefix(results: seq<Option<seq<Account>>>, k: nat, n: nat)
    requires k <= n <= |results|
    ensures Before(results[..n], k) == Before(results, k)
  {
    if k > 0 {
      BeforePrefix(results, k - 1, n);
    }
  }

  lemma {:induction false} TaggedAt(accounts: seq<Account>, env: nat, lower: char -> char, m: nat)
    requires m < |accounts|
    ensures Tagged(accounts, env, lower)[m] == Entry(PersonKey(accounts[m], lower), env, accounts[m])
  {
    if m < |accounts| - 1 {
      TaggedAt(accounts[..|accounts| - 1], env, lower, m);
    }
  }

  lemma {:induction false} EntriesCount(jobs: seq<Job>, results: seq<Option<seq<Account>>>, lower: char -> char)
    requires |jobs| == |results|
    ensures |Entries(jobs, results, lower)| == Before(results, |results|)
  {
    if jobs != [] {
      var n := |jobs| - 1;
      EntriesCount(jobs[..n], results[..n], lower);
      BeforePrefix(results, n, n);
    }
  }

  lemma Regroup(a: seq<Entry>, b: seq<Entry>, c: seq<Entry>, d: seq<Entry>)
    ensures (a + b + c) + d == a + b + (c + d)
  {
  }

  /** The entries of a filled slot stand between those of the slots before it and of the slots after it. */
  lemma {:induction false} EntriesAround(
    jobs: seq<Job>, results: seq<Option<seq<Account>>>, lower: char -> char, k: nat) returns (front: seq<Entry>, back: seq<Entry>)
    requires |jobs| == |results| && k < |jobs| && results[k].Some?
    ensures |front| == Before(results, k)
    ensures Entries(jobs, results, lower) == front + Tagged(results[k].value, jobs[k].env, lower) + back
  {
    var n := |jobs| - 1;
    if k < n {
      var middle;
      front, middle := EntriesAround(jobs[..n], results[..n], lower, k);
      BeforePrefix(results, k, n);
      var last := if results[n].Some? then Tagged(results[n].value, jobs[n].env, lower) else [];
      back := middle + last;
      Regroup(front, Tagged(results[k].value, jobs[k].env, lower), middle, last);
    } else {
      front, back := Entries(jobs[..n], results[..n], lower), [];
      EntriesCount(jobs[..n], results[..n], lower);
      BeforePrefix(results, n, n);
    }
  }

  /** Every account of every filled slot is merged once, under its own key and in the environment of its own job. */
  lemma EntriesExactly(jobs: seq<Job>, results: seq<Option<seq<Account>>>, lower: char -> char, k: nat, m: nat)
    requires |jobs| == |results| && k < |jobs| && results[k].Some? && m < |results[k].value|
    ensures |Entries(jobs, results, lower)| == Before(results, |results|)
    ensures var a, at := results[k].value[m], Before(results, k) + m;
            at < |Entries(jobs, results, lower)| && Entries(jobs, results, lower)[at] == Entry(PersonKey(a, lower), jobs[k].env, a)
  {
    EntriesCount(jobs, results, lower);
    var front, back := EntriesAround(jobs, results, lower, k);
    TaggedAt(results[k].value, jobs[k].env, lower, m);
  }

  datatype Field = Logins | Refreshes | Uses | Total

  function Of(a: Account, f: Field): int {
    match f
    case Logins => a.logins
    case Refreshes => a.refreshes
    case Uses => a.uses
    case Total => a.logins + a.refreshes + a.uses
  }

  /** The sum of one field over the entries of one person in one environment. */
  function Sum(entries: seq<Entry>, key: string, env: nat, f: Field): int {
    if entries == [] then 0
    else
      var x := entries[|entries| - 1];
      Sum(entries[..|entries| - 1], key, env, f) + if x.key == key && x.env == env then Of(x.account, f) else 0
  }

  function MaxDays(entries: seq<Entry>, key: string, env: nat): int {
    if entries == [] then 0
    else
      var x, before := entries[|entries| - 1], MaxDays(entries[..|entries| - 1], key, env);
      if x.key == key && x.env == env && x.account.activeDays > before then x.account.activeDays else before
  }

  function FirstName(entries: seq<Entry>, key: string): string {
    if entries == [] then ""
    else
      var x, before := entries[|entries| - 1], FirstName(entries[..|entries| - 1], key);
      if before == "" && x.key == key then x.account.name else before
  }

  function FirstId(entries: seq<Entry>, key: string): string {
    if entries == [] then ""
    else
      var x, before := entries[|entries| - 1], FirstId(entries[..|entries| - 1], key);
      if before == "" && x.key == key then x.account.accountId else before
  }

  function Keys(entries: seq<Entry>): set<string> {
    set i | 0 <= i < |entries| :: entries[i].key
  }

  // --------------------------------------------------------------------- persons

  datatype PersonEnv = PersonEnv(logins: int, refreshes: int, uses: int, total: int, activeDays: int)

  function In(e: PersonEnv, f: Field): int {
    match f
    case Logins => e.logins
    case Refreshes => e.refreshes
    case Uses => e.uses
    case Total => e.total
  }

  datatype Person = Person(
    name: string, accountId: string, perEnv: seq<PersonEnv>, total: int, dominant: string)

  function EnvOf(entries: seq<Entry>, key: string, env: nat): PersonEnv {
    PersonEnv(
      Sum(entries, key, env, Logins), Sum(entries, key, env, Refreshes), Sum(entries, key, env, Uses),
      Sum(entries, key, env, Total), MaxDays(entries, key, env))
  }

  /** A person before totals and the dominant environment are worked out. */
  function Merged(entries: seq<Entry>, key: string, nEnvs: nat): (p: Person)
    ensures |p.perEnv| == nEnvs
  {
    Person(
      FirstName(entries, key), FirstId(entries, key),
      seq(nEnvs, e requires 0 <= e < nEnvs => EnvOf(entries, key, e)), 0, "")
  }

  function TotalOf(es: seq<PersonEnv>): int {
    if es == [] then 0 else TotalOf(es[..|es| - 1]) + es[|es| - 1].total
  }

  /** Environment `i` alone has the largest total, and it is positive. */
  predicate StrictMax(es: seq<PersonEnv>, i: nat) {
    i < |es| && es[i].total > 0 && forall j :: 0 <= j < |es| && j != i ==> es[j].total < es[i].total
  }

  ghost function DominantOf(es: seq<PersonEnv>, labels: seq<string>): string
    requires |es| == |labels|
  {
    if i: nat :| StrictMax(es, i) then labels[i] else ""
  }

  /** The person a key stands for, worked out from the entries alone. */
  ghost function PersonOf(entries: seq<Entry>, key: string, labels: seq<string>): Person {
    var p := Merged(entries, key, |labels|);
    p.(total := TotalOf(p.perEnv), dominant := DominantOf(p.perEnv, labels))
  }

  /** Totals and dominant environment of one person. */
  method Finish(p: Person, labels: seq<string>) returns (q: Person)
    requires |p.perEnv| == |labels| && p.total == 0 && p.dominant == ""
    ensures q == p.(total := TotalOf(p.perEnv), dominant := DominantOf(p.perEnv, labels))
  {
    var es := p.perEnv;
    var best, bestTotal, tie := -1, -1, false;
    q := p;
    for i := 0 to |es|
      invariant q == p.(total := TotalOf(es[..i]))
      invariant -1 <= best < i
      invariant best == -1 ==> bestTotal == -1
      invariant best >= 0 ==> bestTotal == es[best].total > -1
      invariant forall j :: 0 <= j < i ==> es[j].total <= bestTotal
      invariant forall j :: 0 <= j < best ==> es[j].total < bestTotal
      invariant best >= 0 ==> (tie <==> exists j :: best < j < i && es[j].total == bestTotal)
    {
      assert es[..i + 1][..i] == es[..i];
      q := q.(total := q.total + es[i].total);
      if es[i].total > bestTotal {
        best, bestTotal, tie := i, es[i].total, false;
      } else if es[i].total == bestTotal {
        tie := true;
      }
    }
    assert es[..|es|] == es;
    if best >= 0 && !tie && bestTotal > 0 {
      assert StrictMax(es, best);
      q := q.(dominant := labels[best]);
    } else {
      assert forall i: nat :: !StrictMax(es, i);
    }
  }

  // ---------------------------------------------------------------------- merging

  function AddTo(e: PersonEnv, a: Account): PersonEnv {
    PersonEnv(
      e.logins + a.logins, e.refreshes + a.refreshes, e.uses + a.uses,
      e.total + (a.logins + a.refreshes + a.uses),
      if a.activeDays > e.activeDays then a.activeDays else e.activeDays)
  }

  lemma MergedElsewhere(entries: seq<Entry>, x: Entry, key: string, nEnvs: nat)
    requires x.key != key
    ensures Merged(entries + [x], key, nEnvs) == Merged(entries, key, nEnvs)
  {
    assert (entries + [x])[..|entries|] == entries;
    assert Merged(entries + [x], key, nEnvs).perEnv == Merged(entries, key, nEnvs).perEnv;
  }

  lemma MergedHere(entries: seq<Entry>, x: Entry, nEnvs: nat)
    requires x.env < nEnvs
    ensures var p, q := Merged(entries, x.key, nEnvs), Merged(entries + [x], x.key, nEnvs);
            && q.name == (if p.name == "" then x.account.name else p.name)
            && q.accountId == (if p.accountId == "" then x.account.accountId else p.accountId)
            && q.perEnv == p.perEnv[x.env := AddTo(p.perEnv[x.env], x.account)]
  {
    assert (entries + [x])[..|entries|] == entries;
  }

  lemma {:induction false} MergedAbsent(entries: seq<Entry>, key: string, nEnvs: nat)
    requires key !in Keys(entries)
    ensures Merged(entries, key, nEnvs)
            == Person("", "", seq(nEnvs, _ => PersonEnv(0, 0, 0, 0, 0)), 0, "")
  {
    if entries == [] {
      assert Merged(entries, key, nEnvs).perEnv == seq(nEnvs, _ => PersonEnv(0, 0, 0, 0, 0));
    } else {
      var front, x := entries[..|entries| - 1], entries[|entries| - 1];
      assert x.key in Keys(entries) && Keys(front) <= Keys(entries);
      MergedAbsent(front, key, nEnvs);
      assert entries == front + [x];
      MergedElsewhere(front, x, key, nEnvs);
    }
  }

  function PersonCompare(a: Person, b: Person, lower: char -> char): int {
    Or(CompareInt(b.total, a.total),
       Or(Text.Compare(Lowered(a.name, lower), Lowered(b.name, lower)),
          Text.Compare(a.accountId, b.accountId)))
  }

  function PersonOrder(lower: char -> char): (Person, Person) -> bool {
    (a, b) => PersonCompare(a, b, lower) <= 0
  }

  lemma PersonOrderIsPreorder(lower: char -> char)
    ensures TotalPreorder(PersonOrder(lower))
  {
    var leq := PersonOrder(lower);
    forall a, b ensures leq(a, b) || leq(b, a) {
      Text.CompareFlips(Lowered(a.name, lower), Lowered(b.name, lower));
      Text.CompareFlips(a.accountId, b.accountId);
    }
    forall a, b, c | leq(a, b) && leq(b, c) ensures leq(a, c) {
      TextConsistent(Lowered(a.name, lower), Lowered(b.name, lower), Lowered(c.name, lower));
      TextConsistent(a.accountId, b.accountId, c.accountId);
    }
  }

  ghost function PersonsOf(entries: seq<Entry>, keys: seq<string>, labels: seq<string>): seq<Person> {
    seq(|keys|, i requires 0 <= i < |keys| => PersonOf(entries, keys[i], labels))
  }

  ghost predicate Enumerates(keys: seq<string>, all: set<string>) {
    Distinct(keys) && forall k :: k in keys <==> k in all
  }

  /** One person per key, in the page's order; map iteration may pick any order of ties. */
  ghost predicate IsAnswer(entries: seq<Entry>, labels: seq<string>, lower: char -> char, out: seq<Person>) {
    && Sorted(PersonOrder(lower), out)
    && exists keys :: Enumerates(keys, Keys(entries)) && multiset(out) == multiset(PersonsOf(entries, keys, labels))
  }

  /** The merge step of one account. */
  method AddAccount(byKey: map<string, Person>, ghost entries: seq<Entry>, x: Entry, nEnvs: nat)
    returns (r: map<string, Person>)
    requires x.env < nEnvs && MergedMap(byKey, entries, nEnvs)
    ensures MergedMap(r, entries + [x], nEnvs)
  {
    var p;
    if x.key in byKey {
      p := byKey[x.key];
    } else {
      MergedAbsent(entries, x.key, nEnvs);
      p := Person("", "", seq(nEnvs, _ => PersonEnv(0, 0, 0, 0, 0)), 0, "");
    }
    MergedHere(entries, x, nEnvs);
    if p.name == "" && x.account.name != "" {
      p := p.(name := x.account.name);
    }
    if p.accountId == "" {
      p := p.(accountId := x.account.accountId);
    }
    p := p.(perEnv := p.perEnv[x.env := AddTo(p.perEnv[x.env], x.account)]);
    r := byKey[x.key := p];
    assert Keys(entries + [x]) == Keys(entries) + {x.key} by {
      assert (entries + [x])[|entries|] == x;
      forall i | 0 <= i < |entries| ensures entries[i].key in Keys(entries + [x]) {
        assert (entries + [x])[i] == entries[i];
      }
    }
    forall k | k in r ensures r[k] == Merged(entries + [x], k, nEnvs) {
      if k != x.key {
        MergedElsewhere(entries, x, k, nEnvs);
      }
    }
  }

  /** The map under construction is the merge of the entries seen so far. */
  ghost predicate MergedMap(byKey: map<string, Person>, entries: seq<Entry>, nEnvs: nat) {
    byKey.Keys == Keys(entries) && forall k :: k in byKey ==> byKey[k] == Merged(entries, k, nEnvs)
  }

  lemma TaggedMore(entries: seq<Entry>, accounts: seq<Account>, a: nat, env: nat, lower: char -> char)
    requires a < |accounts|
    ensures entries + Tagged(accounts[..a + 1], env, lower)
            == entries + Tagged(accounts[..a], env, lower) + [Entry(PersonKey(accounts[a], lower), env, accounts[a])]
  {
    assert accounts[..a + 1][..a] == accounts[..a];
  }

  /** The inner loop: the accounts of one job. */
  method AddAccounts(
    byKey: map<string, Person>, ghost entries: seq<Entry>, accounts: seq<Account>, env: nat, nEnvs: nat, lower: char -> char)
    returns (r: map<string, Person>)
    requires env < nEnvs && MergedMap(byKey, entries, nEnvs)
    ensures MergedMap(r, entries + Tagged(accounts, env, lower), nEnvs)
  {
    r := byKey;
    ghost var done := entries;
    for a := 0 to |accounts|
      invariant done == entries + Tagged(accounts[..a], env, lower) && MergedMap(r, done, nEnvs)
    {
      var x := Entry(PersonKey(accounts[a], lower), env, accounts[a]);
      r := AddAccount(r, done, x, nEnvs);
      TaggedMore(entries, accounts, a, env, lower);
      done := done + [x];
    }
    assert accounts[..|accounts|] == accounts;
  }

  method AggregatePersons(
    jobs: seq<Job>, results: seq<Option<seq<Account>>>, labels: seq<string>, lower: char -> char)
    returns (out: seq<Person>)
    requires |jobs| == |results| && forall i :: 0 <= i < |jobs| ==> jobs[i].env < |labels|
    ensures IsAnswer(Entries(jobs, results, lower), labels, lower, out)
  {
    var byKey: map<string, Person> := map[];
    ghost var entries: seq<Entry> := [];
    for i := 0 to |results|
      invariant entries == Entries(jobs[..i], results[..i], lower) && MergedMap(byKey, entries, |labels|)
    {
      assert jobs[..i + 1][..i] == jobs[..i] && results[..i + 1][..i] == results[..i];
      if results[i].None? {
        continue;
      }
      byKey := AddAccounts(byKey, entries, results[i].value, jobs[i].env, |labels|, lower);
      entries := entries + Tagged(results[i].value, jobs[i].env, lower);
    }
    assert jobs[..|jobs|] == jobs && results[..|results|] == results;
    out := FinishAll(byKey, entries, labels);
    PersonOrderIsPreorder(lower);
    out := SortFunc(out, PersonOrder(lower));
  }

  lemma PersonsOfMore(entries: seq<Entry>, keys: seq<string>, k: string, labels: seq<string>)
    ensures PersonsOf(entries, keys + [k], labels) == PersonsOf(entries, keys, labels) + [PersonOf(entries, k, labels)]
  {
  }

  lemma DistinctMore(keys: seq<string>, k: string)
    requires Distinct(keys) && k !in keys
    ensures Distinct(keys + [k]) && forall x :: x in keys + [k] <==> x in keys || x == k
  {
  }

  /** The loop over the map, in whatever order the map is iterated. */
  method FinishAll(byKey: map<string, Person>, ghost entries: seq<Entry>, labels: seq<string>)
    returns (out: seq<Person>)
    requires byKey.Keys == Keys(entries)
    requires forall k :: k in byKey ==> byKey[k] == Merged(entries, k, |labels|)
    ensures exists keys :: Enumerates(keys, Keys(entries)) && out == PersonsOf(entries, keys, labels)
  {
    var todo := byKey.Keys;
    ghost var keys: seq<string> := [];
    out := [];
    while todo != {}
      invariant todo <= byKey.Keys && Distinct(keys)
      invariant forall k :: k in byKey.Keys <==> k in keys || k in todo
      invariant forall k :: k in keys ==> k !in todo
      invariant out == PersonsOf(entries, keys, labels)
      decreases |todo|
    {
      var k :| k in todo;
      var q := Finish(byKey[k], labels);
      assert q == PersonOf(entries, k, labels);
      PersonsOfMore(entries, keys, k, labels);
      DistinctMore(keys, k);
      out := out + [q];
      keys := keys + [k];
      todo := todo - {k};
    }
  }

  // ------------------------------------------------------------------ conservation

  /** The sum of one field over every entry of one environment. */
  function SumAll(entries: seq<Entry>, env: nat, f: Field): int {
    if entries == [] then 0
    else
      var x := entries[|entries| - 1];
      SumAll(entries[..|entries| - 1], env, f) + if x.env == env then Of(x.account, f) else 0
  }

  /** The sum of one field over every entry. */
  function GrandTotal(entries: seq<Entry>): int {
    if entries == [] then 0
    else
      var a := entries[|entries| - 1].account;
      GrandTotal(entries[..|entries| - 1]) + (a.logins + a.refreshes + a.uses)
  }

  function SumKeys(entries: seq<Entry>, keys: seq<string>, env: nat, f: Field): int {
    if keys == [] then 0
    else SumKeys(entries, keys[..|keys| - 1], env, f) + Sum(entries, keys[|keys| - 1], env, f)
  }

  lemma {:induction false} SumKeysSnoc(entries: seq<Entry>, x: Entry, keys: seq<string>, env: nat, f: Field)
    requires Distinct(keys)
    ensures SumKeys(entries + [x], keys, env, f) == SumKeys(entries, keys, env, f)
            + if x.env == env && x.key in keys then Of(x.account, f) else 0
  {
    if keys != [] {
      var n := |keys| - 1;
      SumKeysSnoc(entries, x, keys[..n], env, f);
      SumSnoc(entries, x, keys[n], env, f);
      LastOfDistinct(keys, x.key);
    }
  }

  lemma SumSnoc(entries: seq<Entry>, x: Entry, key: string, env: nat, f: Field)
    ensures Sum(entries + [x], key, env, f) == Sum(entries, key, env, f)
            + if x.key == key && x.env == env then Of(x.account, f) else 0
  {
    assert (entries + [x])[..|entries|] == entries;
  }

  lemma LastOfDistinct(keys: seq<string>, k: string)
    requires keys != [] && Distinct(keys)
    ensures var n := |keys| - 1;
            Distinct(keys[..n]) && (k in keys <==> k in keys[..n] || k == keys[n]) && keys[n] !in keys[..n]
  {
    assert keys == keys[..|keys| - 1] + [keys[|keys| - 1]];
  }

  lemma {:induction false} SumKeysNothing(keys: seq<string>, env: nat, f: Field)
    ensures SumKeys([], keys, env, f) == 0
  {
    if keys != [] {
      SumKeysNothing(keys[..|keys| - 1], env, f);
    }
  }

  /** Splitting the entries by key splits every sum. */
  lemma {:induction false} SumByKeys(entries: seq<Entry>, keys: seq<string>, env: nat, f: Field)
    requires Distinct(keys) && forall i :: 0 <= i < |entries| ==> entries[i].key in keys
    ensures SumKeys(entries, keys, env, f) == SumAll(entries, env, f)
  {
    if entries == [] {
      SumKeysNothing(keys, env, f);
    } else {
      var front, x := entries[..|entries| - 1], entries[|entries| - 1];
      SumByKeys(front, keys, env, f);
      SumKeysSnoc(front, x, keys, env, f);
      assert entries == front + [x];
    }
  }

  function FieldIn(env: nat, f: Field): Person -> int {
    (p: Person) => if env < |p.perEnv| then In(p.perEnv[env], f) else 0
  }

  lemma {:induction false} SumOfPersons(
    entries: seq<Entry>, keys: seq<string>, labels: seq<string>, env: nat, f: Field)
    requires env < |labels|
    ensures SumOver(FieldIn(env, f), PersonsOf(entries, keys, labels)) == SumKeys(entries, keys, env, f)
  {
    if keys != [] {
      var n := |keys| - 1;
      SumOfPersons(entries, keys[..n], labels, env, f);
      assert PersonsOf(entries, keys, labels)[..n] == PersonsOf(entries, keys[..n], labels);
      assert In(PersonOf(entries, keys[n], labels).perEnv[env], f) == Sum(entries, keys[n], env, f);
    }
  }

  /**
   Per environment, the logins, refreshes, uses and totals of the persons add up to
   those of all accounts of the calls that succeeded.
   */
  lemma Conserved(
    entries: seq<Entry>, labels: seq<string>, lower: char -> char, out: seq<Person>, env: nat, f: Field)
    requires IsAnswer(entries, labels, lower, out) && env < |labels|
    ensures SumOver(FieldIn(env, f), out) == SumAll(entries, env, f)
  {
    var keys :| Enumerates(keys, Keys(entries)) && multiset(out) == multiset(PersonsOf(entries, keys, labels));
    SumPermutation(FieldIn(env, f), out, PersonsOf(entries, keys, labels));
    SumOfPersons(entries, keys, labels, env, f);
    forall i | 0 <= i < |entries| ensures entries[i].key in keys {
      assert entries[i].key in Keys(entries);
    }
    SumByKeys(entries, keys, env, f);
  }

  function SumEnvs(entries: seq<Entry>, nEnvs: nat): int {
    if nEnvs == 0 then 0 else SumEnvs(entries, nEnvs - 1) + SumAll(entries, nEnvs - 1, Total)
  }

  lemma {:induction false} SumEnvsSnoc(entries: seq<Entry>, x: Entry, nEnvs: nat)
    ensures SumEnvs(entries + [x], nEnvs)
            == SumEnvs(entries, nEnvs) + if x.env < nEnvs then Of(x.account, Total) else 0
  {
    if nEnvs > 0 {
      SumEnvsSnoc(entries, x, nEnvs - 1);
      assert (entries + [x])[..|entries|] == entries;
    }
  }

  lemma {:induction false} SumEnvsNothing(nEnvs: nat)
    ensures SumEnvs([], nEnvs) == 0
  {
    if nEnvs > 0 {
      SumEnvsNothing(nEnvs - 1);
    }
  }

  lemma {:induction false} SumEnvsIsGrand(entries: seq<Entry>, nEnvs: nat)
    requires forall i :: 0 <= i < |entries| ==> entries[i].env < nEnvs
    ensures SumEnvs(entries, nEnvs) == GrandTotal(entries)
  {
    if entries == [] {
      SumEnvsNothing(nEnvs);
    } else {
      var front, x := entries[..|entries| - 1], entries[|entries| - 1];
      SumEnvsIsGrand(front, nEnvs);
      SumEnvsSnoc(front, x, nEnvs);
      assert entries == front + [x];
    }
  }

  function TotalUpTo(n: nat): Person -> int {
    (p: Person) => if n <= |p.perEnv| then TotalOf(p.perEnv[..n]) else 0
  }

  lemma {:induction false} TotalUpToSplits(out: seq<Person>, n: nat)
    requires forall p :: p in out ==> n < |p.perEnv|
    ensures SumOver(TotalUpTo(n + 1), out) == SumOver(TotalUpTo(n), out) + SumOver(FieldIn(n, Total), out)
  {
    if out != [] {
      var p := out[|out| - 1];
      TotalUpToSplits(out[..|out| - 1], n);
      assert p in out;
      assert p.perEnv[..n + 1][..n] == p.perEnv[..n];
    }
  }

  lemma {:induction false} TotalUpToNone(out: seq<Person>)
    ensures SumOver(TotalUpTo(0), out) == 0
  {
    if out != [] {
      TotalUpToNone(out[..|out| - 1]);
    }
  }

  lemma {:induction false} TotalUpToEnvs(entries: seq<Entry>, out: seq<Person>, n: nat)
    requires forall p :: p in out ==> n <= |p.perEnv|
    requires forall e: nat :: e < n ==> SumOver(FieldIn(e, Total), out) == SumAll(entries, e, Total)
    ensures SumOver(TotalUpTo(n), out) == SumEnvs(entries, n)
  {
    if n == 0 {
      TotalUpToNone(out);
    } else {
      TotalUpToEnvs(entries, out, n - 1);
      TotalUpToSplits(out, n - 1);
    }
  }

  lemma AnswerShape(entries: seq<Entry>, labels: seq<string>, lower: char -> char, out: seq<Person>)
    requires IsAnswer(entries, labels, lower, out)
    ensures |out| == |Keys(entries)|
    ensures forall p :: p in out ==> exists k :: k in Keys(entries) && p == PersonOf(entries, k, labels)
  {
    var keys :| Enumerates(keys, Keys(entries)) && multiset(out) == multiset(PersonsOf(entries, keys, labels));
    assert |out| == |multiset(out)| == |PersonsOf(entries, keys, labels)|;
    DistinctSize(keys, Keys(entries));
    forall p | p in out ensures exists k :: k in Keys(entries) && p == PersonOf(entries, k, labels) {
      assert p in multiset(PersonsOf(entries, keys, labels));
      var i :| 0 <= i < |keys| && PersonsOf(entries, keys, labels)[i] == p;
      assert keys[i] in keys;
    }
  }

  lemma {:induction false} DistinctSize(keys: seq<string>, all: set<string>)
    requires Enumerates(keys, all)
    ensures |keys| == |all|
  {
    if keys == [] {
      assert all == {};
    } else {
      var front, last := keys[..|keys| - 1], keys[|keys| - 1];
      assert keys == front + [last];
      DistinctSize(front, all - {last});
    }
  }

  function PersonTotal(p: Person): int { p.total }

  lemma {:induction false} TotalsAreFull(out: seq<Person>, n: nat)
    requires forall p :: p in out ==> |p.perEnv| == n && p.total == TotalOf(p.perEnv)
    ensures SumOver(PersonTotal, out) == SumOver(TotalUpTo(n), out)
  {
    if out != [] {
      var p := out[|out| - 1];
      TotalsAreFull(out[..|out| - 1], n);
      assert p in out && p.perEnv[..n] == p.perEnv;
    }
  }

  /** The totals of the persons add up to the activity of all accounts fetched. */
  lemma TotalsConserved(entries: seq<Entry>, labels: seq<string>, lower: char -> char, out: seq<Person>)
    requires IsAnswer(entries, labels, lower, out)
    requires forall i :: 0 <= i < |entries| ==> entries[i].env < |labels|
    ensures SumOver(PersonTotal, out) == GrandTotal(entries)
  {
    AnswerShape(entries, labels, lower, out);
    TotalsAreFull(out, |labels|);
    forall e: nat | e < |labels|
      ensures SumOver(FieldIn(e, Total), out) == SumAll(entries, e, Total)
    {
      Conserved(entries, labels, lower, out, e, Total);
    }
    TotalUpToEnvs(entries, out, |labels|);
    SumEnvsIsGrand(entries, |labels|);
  }

  // -------------------------------------------------- the same laws, field by field

  datatype Counts = Counts(logins: int, refreshes: int, uses: int)

  /** The activity of every account of one environment. */
  function AccountCounts(entries: seq<Entry>, env: nat): Counts {
    if entries == [] then Counts(0, 0, 0)
    else
      var c, x := AccountCounts(entries[..|entries| - 1], env), entries[|entries| - 1];
      if x.env != env then c
      else Counts(c.logins + x.account.logins, c.refreshes + x.account.refreshes, c.uses + x.account.uses)
  }

  /** The activity the persons show for one environment. */
  function PersonCounts(out: seq<Person>, env: nat): Counts {
    if out == [] then Counts(0, 0, 0)
    else
      var c, p := PersonCounts(out[..|out| - 1], env), out[|out| - 1];
      if env >= |p.perEnv| then c
      else
        var e := p.perEnv[env];
        Counts(c.logins + e.logins, c.refreshes + e.refreshes, c.uses + e.uses)
  }

  lemma {:induction false} AccountCountsAre(entries: seq<Entry>, env: nat)
    ensures AccountCounts(entries, env)
            == Counts(SumAll(entries, env, Logins), SumAll(entries, env, Refreshes), SumAll(entries, env, Uses))
  {
    if entries != [] {
      AccountCountsAre(entries[..|entries| - 1], env);
    }
  }

  lemma {:induction false} PersonCountsAre(out: seq<Person>, env: nat)
    ensures PersonCounts(out, env) == Counts(SumOver(FieldIn(env, Logins), out),
              SumOver(FieldIn(env, Refreshes), out), SumOver(FieldIn(env, Uses), out))
  {
    if out != [] {
      PersonCountsAre(out[..|out| - 1], env);
    }
  }

  /** Per environment, the persons show exactly the activity of the accounts. */
  lemma ActivityConserved(entries: seq<Entry>, labels: seq<string>, lower: char -> char, out: seq<Person>, env: nat)
    requires IsAnswer(entries, labels, lower, out) && env < |labels|
    ensures PersonCounts(out, env) == AccountCounts(entries, env)
  {
    Conserved(entries, labels, lower, out, env, Logins);
    Conserved(entries, labels, lower, out, env, Refreshes);
    Conserved(entries, labels, lower, out, env, Uses);
    AccountCountsAre(entries, env);
    PersonCountsAre(out, env);
  }

  /** The activity of one person's accounts in one environment. */
  function KeyCounts(entries: seq<Entry>, key: string, env: nat): Counts {
    if entries == [] then Counts(0, 0, 0)
    else
      var c, x := KeyCounts(entries[..|entries| - 1], key, env), entries[|entries| - 1];
      if x.key != key || x.env != env then c
      else Counts(c.logins + x.account.logins, c.refreshes + x.account.refreshes, c.uses + x.account.uses)
  }

  lemma {:induction false} EnvOfIs(entries: seq<Entry>, key: string, env: nat)
    ensures var e, c := EnvOf(entries, key, env), KeyCounts(entries, key, env);
            && e.logins == c.logins && e.refreshes == c.refreshes && e.uses == c.uses
            && e.total == c.logins + c.refreshes + c.uses
  {
    if entries != [] {
      EnvOfIs(entries[..|entries| - 1], key, env);
    }
  }

  /**
   Every person carries, per environment, the sums over the accounts of one key, and
   their total; the person's total is the sum over the environments.
   */
  lemma PersonsSay(entries: seq<Entry>, labels: seq<string>, lower: char -> char, out: seq<Person>, p: Person)
    requires IsAnswer(entries, labels, lower, out) && p in out
    ensures |p.perEnv| == |labels|
    ensures forall e :: 0 <= e < |labels| ==>
              p.perEnv[e].total == p.perEnv[e].logins + p.perEnv[e].refreshes + p.perEnv[e].uses
    ensures exists k :: k in Keys(entries) && p.name == FirstName(entries, k) && p.accountId == FirstId(entries, k)
              && forall e :: 0 <= e < |labels| ==>
                   && Counts(p.perEnv[e].logins, p.perEnv[e].refreshes, p.perEnv[e].uses) == KeyCounts(entries, k, e)
                   && p.perEnv[e].activeDays == MaxDays(entries, k, e)
    ensures p.total == TotalOf(p.perEnv)
  {
    AnswerShape(entries, labels, lower, out);
    var k :| k in Keys(entries) && p == PersonOf(entries, k, labels);
    forall e | 0 <= e < |labels|
      ensures Counts(p.perEnv[e].logins, p.perEnv[e].refreshes, p.perEnv[e].uses) == KeyCounts(entries, k, e)
      ensures p.perEnv[e].total == p.perEnv[e].logins + p.perEnv[e].refreshes + p.perEnv[e].uses
    {
      EnvOfIs(entries, k, e);
    }
  }

  /** Entry `i` is the first of its key whose text is not empty. */
  predicate FirstWith(entries: seq<Entry>, key: string, i: nat, text: Account -> string)
    requires i < |entries|
  {
    && entries[i].key == key && text(entries[i].account) != ""
    && forall j :: 0 <= j < i && entries[j].key == key ==> text(entries[j].account) == ""
  }

  function NameText(): Account -> string { (a: Account) => a.name }

  function IdText(): Account -> string { (a: Account) => a.accountId }

  lemma FirstWithMore(entries: seq<Entry>, x: Entry, key: string, i: nat, text: Account -> string)
    requires i < |entries| && FirstWith(entries, key, i, text)
    ensures FirstWith(entries + [x], key, i, text)
  {
  }

  /** A person's name is the first non-empty name among the accounts, if any has one. */
  lemma {:induction false} NameIsFirst(entries: seq<Entry>, key: string)
    ensures FirstName(entries, key) == "" ==>
              forall i :: 0 <= i < |entries| && entries[i].key == key ==> entries[i].account.name == ""
    ensures FirstName(entries, key) != "" ==>
              exists i :: 0 <= i < |entries| && FirstWith(entries, key, i, NameText())
                && entries[i].account.name == FirstName(entries, key)
  {
    if entries != [] {
      var front, x := entries[..|entries| - 1], entries[|entries| - 1];
      NameIsFirst(front, key);
      assert entries == front + [x];
      if FirstName(front, key) != "" {
        var i :| 0 <= i < |front| && FirstWith(front, key, i, NameText()) && front[i].account.name == FirstName(front, key);
        FirstWithMore(front, x, key, i, NameText());
      } else if FirstName(entries, key) != "" {
        assert FirstWith(entries, key, |front|, NameText());
      }
    }
  }

  /** ... and the account id likewise. */
  lemma {:induction false} IdIsFirst(entries: seq<Entry>, key: string)
    ensures FirstId(entries, key) == "" ==>
              forall i :: 0 <= i < |entries| && entries[i].key == key ==> entries[i].account.accountId == ""
    ensures FirstId(entries, key) != "" ==>
              exists i :: 0 <= i < |entries| && FirstWith(entries, key, i, IdText())
                && entries[i].account.accountId == FirstId(entries, key)
  {
    if entries != [] {
      var front, x := entries[..|entries| - 1], entries[|entries| - 1];
      IdIsFirst(front, key);
      assert entries == front + [x];
      if FirstId(front, key) != "" {
        var i :| 0 <= i < |front| && FirstWith(front, key, i, IdText()) && front[i].account.accountId == FirstId(front, key);
        FirstWithMore(front, x, key, i, IdText());
      } else if FirstId(entries, key) != "" {
        assert FirstWith(entries, key, |front|, IdText());
      }
    }
  }

  /** The page's order: totals descend; equal totals go by lower-cased name, then by account id. */
  lemma AnswerOrdered(entries: seq<Entry>, labels: seq<string>, lower: char -> char, out: seq<Person>, i: nat, j: nat)
    requires IsAnswer(entries, labels, lower, out) && i < j < |out|
    ensures out[i].total >= out[j].total
    ensures out[i].total == out[j].total ==> Text.Compare(Lowered(out[i].name, lower), Lowered(out[j].name, lower)) <= 0
    ensures out[i].total == out[j].total && Lowered(out[i].name, lower) == Lowered(out[j].name, lower) ==>
              Text.Compare(out[i].accountId, out[j].accountId) <= 0
  {
    assert PersonOrder(lower)(out[i], out[j]);
  }

  /** Active days are the largest value seen, zero when none is positive. */
  lemma {:induction false} MaxDaysIsMax(entries: seq<Entry>, key: string, env: nat)
    ensures forall i :: 0 <= i < |entries| && entries[i].key == key && entries[i].env == env
              ==> entries[i].account.activeDays <= MaxDays(entries, key, env)
    ensures MaxDays(entries, key, env) == 0 ||
            exists i :: 0 <= i < |entries| && entries[i].key == key && entries[i].env == env
              && entries[i].account.activeDays == MaxDays(entries, key, env)
  {
    if entries != [] {
      var n := |entries| - 1;
      MaxDaysIsMax(entries[..n], key, env);
      forall i | 0 <= i < n ensures entries[..n][i] == entries[i] {}
    }
  }

  /** `dominant` names environment `i` exactly when `i` alone has the largest, positive total. */
  lemma DominantExactly(entries: seq<Entry>, key: string, labels: seq<string>)
    ensures var p := PersonOf(entries, key, labels);
            && |p.perEnv| == |labels|
            && (forall i :: 0 <= i < |labels| ==>
                  (p.perEnv[i].total > 0 && forall j :: 0 <= j < |labels| && j != i ==> p.perEnv[j].total < p.perEnv[i].total)
                  ==> p.dominant == labels[i])
            && ((forall i :: 0 <= i < |labels| ==>
                   p.perEnv[i].total <= 0 || exists j :: 0 <= j < |labels| && j != i && p.perEnv[j].total >= p.perEnv[i].total)
                ==> p.dominant == "")
  {
    var p := PersonOf(entries, key, labels);
    forall i | 0 <= i < |labels| && p.perEnv[i].total > 0
      && forall j :: 0 <= j < |labels| && j != i ==> p.perEnv[j].total < p.perEnv[i].total
      ensures p.dominant == labels[i]
    {
      assert StrictMax(p.perEnv, i);
    }
  }

  // ----------------------------------------------------------- independent of order

  /** What the page sorts persons by. */
  datatype Rank = Rank(total: int, name: string, accountId: string)

  function RankOf(lower: char -> char): Person -> Rank {
    (p: Person) => Rank(p.total, Lowered(p.name, lower), p.accountId)
  }

  function RankOrder(): (Rank, Rank) -> bool {
    (a: Rank, b: Rank) =>
      Or(CompareInt(b.total, a.total),
         Or(Text.Compare(a.name, b.name), Text.Compare(a.accountId, b.accountId))) <= 0
  }

  lemma RankOrderIsPreorder()
    ensures TotalPreorder(RankOrder())
  {
    var leq := RankOrder();
    forall a, b ensures leq(a, b) || leq(b, a) {
      Text.CompareFlips(a.name, b.name);
      Text.CompareFlips(a.accountId, b.accountId);
    }
    forall a, b, c | leq(a, b) && leq(b, c) ensures leq(a, c) {
      TextConsistent(a.name, b.name, c.name);
      TextConsistent(a.accountId, b.accountId, c.accountId);
    }
  }

  lemma AnswersPermute(
    entries: seq<Entry>, labels: seq<string>, lower: char -> char, out: seq<Person>, out': seq<Person>)
    requires IsAnswer(entries, labels, lower, out) && IsAnswer(entries, labels, lower, out')
    ensures multiset(out) == multiset(out')
  {
    var keys :| Enumerates(keys, Keys(entries)) && multiset(out) == multiset(PersonsOf(entries, keys, labels));
    var keys' :| Enumerates(keys', Keys(entries)) && multiset(out') == multiset(PersonsOf(entries, keys', labels));
    EnumerationsPermute(keys, keys');
    MapPermutation(PersonFor(entries, labels), keys, keys');
    assert PersonsOf(entries, keys, labels) == Map(PersonFor(entries, labels), keys);
    assert PersonsOf(entries, keys', labels) == Map(PersonFor(entries, labels), keys');
  }

  /**
   However the map was iterated and ties were broken, two answers hold the same
   persons, and agree position by position on total, lower-cased name and account.
   */
  lemma AnswersAgree(
    entries: seq<Entry>, labels: seq<string>, lower: char -> char, out: seq<Person>, out': seq<Person>)
    requires IsAnswer(entries, labels, lower, out) && IsAnswer(entries, labels, lower, out')
    ensures multiset(out) == multiset(out')
    ensures Map(RankOf(lower), out) == Map(RankOf(lower), out')
  {
    AnswersPermute(entries, labels, lower, out, out');
    MapPermutation(RankOf(lower), out, out');
    RanksSorted(lower, out);
    RanksSorted(lower, out');
    RanksUnique(Map(RankOf(lower), out), Map(RankOf(lower), out'));
  }

  lemma RanksUnique(s: seq<Rank>, t: seq<Rank>)
    requires Sorted(RankOrder(), s) && Sorted(RankOrder(), t) && multiset(s) == multiset(t)
    ensures s == t
  {
    RankOrderIsPreorder();
    forall a, b | RankOrder()(a, b) && RankOrder()(b, a) ensures a == b {
      Text.CompareFlips(a.name, b.name);
      Text.CompareFlips(a.accountId, b.accountId);
    }
    SortedUnique(RankOrder(), s, t);
  }

  ghost function PersonFor(entries: seq<Entry>, labels: seq<string>): string -> Person {
    k => PersonOf(entries, k, labels)
  }

  lemma RanksSorted(lower: char -> char, out: seq<Person>)
    requires Sorted(PersonOrder(lower), out)
    ensures Sorted(RankOrder(), Map(RankOf(lower), out))
  {
    forall i, j | 0 <= i < j < |out|
      ensures RankOrder()(Map(RankOf(lower), out)[i], Map(RankOf(lower), out)[j])
    {
      assert PersonOrder(lower)(out[i], out[j]);
    }
  }

  lemma {:induction false} EnumerationsPermute(s: seq<string>, t: seq<string>)
    requires Distinct(s) && Distinct(t) && forall k :: k in s <==> k in t
    ensures multiset(s) == multiset(t)
  {
    forall k ensures multiset(s)[k] == multiset(t)[k] {
      CountDistinct(s, k);
      CountDistinct(t, k);
    }
  }

  lemma {:induction false} CountDistinct(s: seq<string>, k: string)
    requires Distinct(s)
    ensures multiset(s)[k] == if k in s then 1 else 0
  {
    if s != [] {
      var front, last := s[..|s| - 1], s[|s| - 1];
      assert s == front + [last];
      CountDistinct(front, k);
    }
  }

  /**
   The whole section: two runs of the fan-out whose calls had the same outcomes
   show the same persons, whatever the completion orders, and count the same misses.
   */
  lemma FanOutDecidesPersons(
    jobs: seq<Job>, labels: seq<string>, lower: char -> char,
    t: seq<FanOut.Action<seq<Account>>>, u: seq<FanOut.Action<seq<Account>>>,
    out: seq<Person>, out': seq<Person>)
    requires FanOut.Run(|jobs|, t) && FanOut.AllDone(FanOut.After(|jobs|, t))
    requires FanOut.Run(|jobs|, u) && FanOut.AllDone(FanOut.After(|jobs|, u))
    requires FanOut.Outcomes(|jobs|, t) == FanOut.Outcomes(|jobs|, u)
    requires IsAnswer(Entries(jobs, FanOut.Outcomes(|jobs|, t), lower), labels, lower, out)
    requires IsAnswer(Entries(jobs, FanOut.Outcomes(|jobs|, u), lower), labels, lower, out')
    ensures FanOut.Results(FanOut.After(|jobs|, t)) == FanOut.Outcomes(|jobs|, t)
    ensures FanOut.After(|jobs|, t).missing == FanOut.After(|jobs|, u).missing
    ensures multiset(out) == multiset(out') && Map(RankOf(lower), out) == Map(RankOf(lower), out')
  {
    FanOut.SlotsAreOutcomes(|jobs|, t);
    FanOut.OrderIrrelevant(|jobs|, t, u);
    AnswersAgree(Entries(jobs, FanOut.Outcomes(|jobs|, t), lower), labels, lower, out, out');
  }
}
