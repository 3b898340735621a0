/**
 `buildUsageOverview` (internal/http/handlers/usage.go): the replies of one or more
 environments joined with the registry into the rows, the apps without login and
 the silent ids of the usage page.
 */
module UsageOverview {
  import opened Sorting
  import opened UsageRows
  import opened UsageLinks
  import Persons
  import Text

  type Client = Persons.ClientActivity

  /** The reply of one environment. */
  datatype EnvReply = EnvReply(key: string, title: string, clients: seq<Client>)

  datatype Overview = Overview(rows: seq<Row>, noLogin: seq<string>, silent: seq<Silent>)

  // ------------------------------------------------------------------------- rows

  function RowOf(e: EnvReply, c: Client, links: Links, slugs: set<string>): Row {
    var linked := LinkOf(links, slugs, c.clientId);
    Row(e.key, e.title, c.issuer, c.clientId, c.name, linked.slug, linked.stages,
        Text.HasPrefix(c.clientId, VISITS_PREFIX), c.last30d.logins)
  }

  function RowsIn(e: EnvReply, clients: seq<Client>, links: Links, slugs: set<string>): seq<Row> {
    if clients == [] then []
    else RowsIn(e, clients[..|clients| - 1], links, slugs) + [RowOf(e, clients[|clients| - 1], links, slugs)]
  }

  function RowsOf(sets: seq<EnvReply>, links: Links, slugs: set<string>): seq<Row> {
    if sets == [] then []
    else
      var e := sets[|sets| - 1];
      RowsOf(sets[..|sets| - 1], links, slugs) + RowsIn(e, e.clients, links, slugs)
  }

  // ---------------------------------------------------------------- what was active

  function ActiveIds(clients: seq<Client>): set<string> {
    set k | 0 <= k < |clients| && Persons.Active(clients[k]) :: clients[k].clientId
  }

  function ActiveMap(sets: seq<EnvReply>): map<string, set<string>> {
    if sets == [] then map[]
    else
      var e := sets[|sets| - 1];
      ActiveMap(sets[..|sets| - 1])[e.key := ActiveIds(e.clients)]
  }

  function Labels(sets: seq<EnvReply>): map<string, string> {
    if sets == [] then map[]
    else
      var e := sets[|sets| - 1];
      Labels(sets[..|sets| - 1])[e.key := e.title]
  }

  function Ranks(sets: seq<EnvReply>): map<string, int> {
    if sets == [] then map[]
    else Ranks(sets[..|sets| - 1])[sets[|sets| - 1].key := |sets| - 1]
  }

  function ActivityOf(sets: seq<EnvReply>, multiEnv: bool): Activity {
    Activity(ActiveMap(sets), Labels(sets), if sets == [] then "" else sets[0].key, multiEnv)
  }

  function Slugs(apps: seq<App>): set<string> { set i | 0 <= i < |apps| :: apps[i].slug }

  ghost predicate IsOverview(sets: seq<EnvReply>, apps: seq<App>, multiEnv: bool, o: Overview) {
    exists links: Links ::
      && IsIndex(apps, links)
      && o.rows == SortedRows(RowsOf(sets, links, Slugs(apps)), |sets| > 1, Ranks(sets))
      && Sorted(SlugOrder(), o.noLogin) && multiset(o.noLogin) == multiset(NoLoginSlugs(apps))
      && IsSilentList(ActivityOf(sets, multiEnv), links, o.silent)
  }

  method ReadSet(e: EnvReply, links: Links, slugs: set<string>) returns (rows: seq<Row>, ids: set<string>)
    ensures rows == RowsIn(e, e.clients, links, slugs) && ids == ActiveIds(e.clients)
  {
    rows, ids := [], {};
    for k := 0 to |e.clients|
      invariant rows == RowsIn(e, e.clients[..k], links, slugs)
      invariant ids == set j | 0 <= j < k && Persons.Active(e.clients[j]) :: e.clients[j].clientId
    {
      assert e.clients[..k + 1][..k] == e.clients[..k];
      var c := e.clients[k];
      if c.last30d != Persons.Window(0, 0, 0, 0) {
        ids := ids + {c.clientId};
      }
      var linked := LinkClient(links, slugs, c.clientId);
      var visits := Text.HasPrefix(c.clientId, VISITS_PREFIX);
      rows := rows + [Row(e.key, e.title, c.issuer, c.clientId, c.name,
                          linked.slug, linked.stages, visits, c.last30d.logins)];
    }
    assert e.clients[..|e.clients|] == e.clients;
  }

  method ReadSets(sets: seq<EnvReply>, links: Links, slugs: set<string>)
    returns (flat: seq<Row>, active: map<string, set<string>>, labels: map<string, string>, envRank: map<string, int>)
    ensures flat == RowsOf(sets, links, slugs)
    ensures active == ActiveMap(sets) && labels == Labels(sets) && envRank == Ranks(sets)
  {
    flat, active, labels, envRank := [], map[], map[], map[];
    for i := 0 to |sets|
      invariant flat == RowsOf(sets[..i], links, slugs)
      invariant active == ActiveMap(sets[..i]) && labels == Labels(sets[..i]) && envRank == Ranks(sets[..i])
    {
      assert sets[..i + 1][..i] == sets[..i];
      var e := sets[i];
      var rows, ids := ReadSet(e, links, slugs);
      labels, envRank, active := labels[e.key := e.title], envRank[e.key := i], active[e.key := ids];
      flat := flat + rows;
    }
    assert sets[..|sets|] == sets;
  }

  method SortTable(flat: seq<Row>, grouped: bool, envRank: map<string, int>) returns (r: seq<Row>)
    ensures r == SortedRows(flat, grouped, envRank)
  {
    var rows := new Row[|flat|](i requires 0 <= i < |flat| => flat[i]);
    assert rows[..] == flat;
    SortUsageRows(rows, grouped, envRank);
    r := rows[..];
  }

  method BuildUsageOverview(sets: seq<EnvReply>, apps: seq<App>, multiEnv: bool) returns (o: Overview)
    ensures IsOverview(sets, apps, multiEnv, o)
  {
    var links := ClientLinks(apps);
    var flat, active, labels, envRank := ReadSets(sets, links, Slugs(apps));
    var rows := SortTable(flat, |sets| > 1, envRank);
    var firstEnv := "";
    if |sets| > 0 {
      firstEnv := sets[0].key;
    }
    var noLogin := NoLoginApps(apps);
    var silent := SilentClients(links, Activity(active, labels, firstEnv, multiEnv));
    o := Overview(rows, noLogin, silent);
  }

  /** With unique slugs, the page is the same whatever order the Go maps are iterated in. */
  lemma OverviewUnique(sets: seq<EnvReply>, apps: seq<App>, multiEnv: bool, o: Overview, o': Overview)
    requires UniqueSlugs(apps)
    requires IsOverview(sets, apps, multiEnv, o) && IsOverview(sets, apps, multiEnv, o')
    ensures o == o'
  {
    var act := ActivityOf(sets, multiEnv);
    var links: Links :| IsIndex(apps, links) && IsSilentList(act, links, o.silent)
      && o.rows == SortedRows(RowsOf(sets, links, Slugs(apps)), |sets| > 1, Ranks(sets));
    var links': Links :| IsIndex(apps, links') && IsSilentList(act, links', o'.silent)
      && o'.rows == SortedRows(RowsOf(sets, links', Slugs(apps)), |sets| > 1, Ranks(sets));
    IndexUnique(apps, links, links');
    SlugOrderIsTotal();
    SortedUnique(SlugOrder(), o.noLogin, o'.noLogin);
    SilentOnceAndUnique(apps, links, act, o.silent, o'.silent, Silent("", "", "", ""));
  }

  predicate DistinctKeys(sets: seq<EnvReply>) {
    forall i, j :: 0 <= i < j < |sets| ==> sets[i].key != sets[j].key
  }

  /** An environment is judged by its own reply: fetched, and active for the ids with 30-day activity. */
  lemma {:induction false} ActiveMapMeans(sets: seq<EnvReply>, key: string)
    requires DistinctKeys(sets)
    ensures key in ActiveMap(sets) <==> exists i :: 0 <= i < |sets| && sets[i].key == key
    ensures forall i :: 0 <= i < |sets| && sets[i].key == key ==>
              forall id :: id in ActiveMap(sets)[key] <==> Persons.HasActivity(sets[i].clients, id)
  {
    if sets != [] {
      var n := |sets| - 1;
      ActiveMapMeans(sets[..n], key);
      forall i | 0 <= i < n ensures sets[..n][i] == sets[i] {}
    }
  }

  // ------------------------------------------------ the page in terms of the replies

  /** The reply of this deployment shows activity of the id. */
  predicate WasActive(sets: seq<EnvReply>, key: string, id: string) {
    exists k :: 0 <= k < |sets| && sets[k].key == key && Persons.HasActivity(sets[k].clients, id)
  }

  predicate WasFetched(sets: seq<EnvReply>, key: string) {
    exists k :: 0 <= k < |sets| && sets[k].key == key
  }

  /** Labels and ranks belong to the deployment of that key. */
  lemma {:induction false} LabelsMean(sets: seq<EnvReply>, k: nat)
    requires DistinctKeys(sets) && k < |sets|
    ensures sets[k].key in Labels(sets) && Labels(sets)[sets[k].key] == sets[k].title
    ensures Lookup(Ranks(sets), sets[k].key) == k
  {
    var n := |sets| - 1;
    if k < n {
      LabelsMean(sets[..n], k);
      assert sets[..n][k] == sets[k];
    }
  }

  lemma ActiveMeans(sets: seq<EnvReply>, key: string, id: string)
    requires DistinctKeys(sets)
    ensures key in ActiveMap(sets) <==> WasFetched(sets, key)
    ensures key in ActiveMap(sets) && id in ActiveMap(sets)[key] <==> WasActive(sets, key, id)
  {
    ActiveMapMeans(sets, key);
  }

  /** The deployment has replied under that title. */
  predicate Labelled(sets: seq<EnvReply>, key: string, title: string) {
    exists k :: 0 <= k < |sets| && sets[k].key == key && sets[k].title == title
  }

  lemma LabelMatches(sets: seq<EnvReply>, key: string, title: string)
    requires DistinctKeys(sets)
    ensures Labelled(sets, key, title) <==>
            key in ActiveMap(sets) && title == if key in Labels(sets) then Labels(sets)[key] else ""
  {
    ActiveMapMeans(sets, key);
    if k :| 0 <= k < |sets| && sets[k].key == key {
      LabelsMean(sets, k);
    }
  }

  /**
   With several deployments, an entry is silent exactly when the registry names it, the
   deployment its stage logs in to (prod for prod, staging for every other stage) has
   replied and gives the label, and no deployment of a stage naming the id saw it active.
   */
  lemma OverviewSilentMulti(sets: seq<EnvReply>, apps: seq<App>, o: Overview, x: Silent)
    requires IsOverview(sets, apps, true, o) && DistinctKeys(sets)
    ensures x in o.silent <==>
            && NamedAt(apps, x.appSlug, x.stage, x.clientId)
            && Labelled(sets, if x.stage == "prod" then "prod" else "staging", x.envLabel)
            && (NamedForProd(apps, x.clientId) ==> !WasActive(sets, "prod", x.clientId))
            && (NamedForOther(apps, x.clientId) ==> !WasActive(sets, "staging", x.clientId))
  {
    var act := ActivityOf(sets, true);
    var links: Links :| IsIndex(apps, links) && IsSilentList(act, links, o.silent);
    SilentMulti(apps, links, act, o.silent, x);
    ActiveMeans(sets, "prod", x.clientId);
    ActiveMeans(sets, "staging", x.clientId);
    LabelMatches(sets, if x.stage == "prod" then "prod" else "staging", x.envLabel);
  }

  /** With one deployment, the first one judges every stage and gives no label. */
  lemma OverviewSilentSingle(sets: seq<EnvReply>, apps: seq<App>, o: Overview, x: Silent)
    requires IsOverview(sets, apps, false, o) && DistinctKeys(sets) && sets != []
    ensures x in o.silent <==>
            && NamedAt(apps, x.appSlug, x.stage, x.clientId) && x.envLabel == ""
            && !Persons.HasActivity(sets[0].clients, x.clientId)
  {
    var act := ActivityOf(sets, false);
    var links: Links :| IsIndex(apps, links) && IsSilentList(act, links, o.silent);
    SilentSingle(apps, links, act, o.silent, x);
    ActiveMeans(sets, sets[0].key, x.clientId);
  }

  /** What a row says about one client of one reply. */
  predicate RowSays(r: Row, e: EnvReply, c: Client, linked: Linked) {
    && r.env == e.key && r.envLabel == e.title
    && r.issuer == c.issuer && r.clientId == c.clientId && r.name == c.name && r.logins == c.last30d.logins
    && r.appSlug == linked.slug && r.appStages == linked.stages
    && (r.visits <==> Text.HasPrefix(c.clientId, "app:"))
  }

  lemma {:induction false} RowsInCount(e: EnvReply, clients: seq<Client>, links: Links, slugs: set<string>)
    ensures |RowsIn(e, clients, links, slugs)| == |clients|
  {
    if clients != [] {
      RowsInCount(e, clients[..|clients| - 1], links, slugs);
    }
  }

  lemma {:induction false} RowsInSay(e: EnvReply, clients: seq<Client>, links: Links, slugs: set<string>, m: nat)
    requires m < |clients|
    ensures |RowsIn(e, clients, links, slugs)| == |clients|
    ensures RowSays(RowsIn(e, clients, links, slugs)[m], e, clients[m], LinkOf(links, slugs, clients[m].clientId))
  {
    var n := |clients| - 1;
    RowsInCount(e, clients, links, slugs);
    RowsInCount(e, clients[..n], links, slugs);
    if m < n {
      RowsInSay(e, clients[..n], links, slugs, m);
    }
  }

  function Clients(sets: seq<EnvReply>): nat {
    if sets == [] then 0 else Clients(sets[..|sets| - 1]) + |sets[|sets| - 1].clients|
  }

  lemma {:induction false} RowsOfCount(sets: seq<EnvReply>, links: Links, slugs: set<string>)
    ensures |RowsOf(sets, links, slugs)| == Clients(sets)
  {
    if sets != [] {
      var n := |sets| - 1;
      RowsOfCount(sets[..n], links, slugs);
      RowsInCount(sets[n], sets[n].clients, links, slugs);
    }
  }

  lemma {:induction false} RowsOfSay(sets: seq<EnvReply>, links: Links, slugs: set<string>, k: nat, m: nat)
    requires k < |sets| && m < |sets[k].clients|
    ensures HasRow(RowsOf(sets, links, slugs), sets[k], sets[k].clients[m], LinkOf(links, slugs, sets[k].clients[m].clientId))
  {
    var n := |sets| - 1;
    var front, e, c := RowsOf(sets[..n], links, slugs), sets[n], sets[k].clients[m];
    var back, linked := RowsIn(e, e.clients, links, slugs), LinkOf(links, slugs, c.clientId);
    if k < n {
      RowsOfSay(sets[..n], links, slugs, k, m);
      HasRowMore(front, back, sets[k], c, linked);
    } else {
      RowsInSay(e, e.clients, links, slugs, m);
      assert back[m] in back;
      HasRowMore(front, back, e, c, linked);
    }
  }

  lemma HasRowMore(front: seq<Row>, back: seq<Row>, e: EnvReply, c: Client, linked: Linked)
    requires HasRow(front, e, c, linked) || HasRow(back, e, c, linked)
    ensures HasRow(front + back, e, c, linked)
  {
    if HasRow(front, e, c, linked) {
      var r :| r in front && RowSays(r, e, c, linked);
      assert r in front + back;
    } else {
      var r :| r in back && RowSays(r, e, c, linked);
      assert r in front + back;
    }
  }

  ghost predicate HasRow(rows: seq<Row>, e: EnvReply, c: Client, linked: Linked) {
    exists r :: r in rows && RowSays(r, e, c, linked)
  }

  /** The page has one row per client of every reply, saying what the reply says and linked by the index. */
  lemma OverviewRows(sets: seq<EnvReply>, apps: seq<App>, multiEnv: bool, o: Overview, k: nat, m: nat)
    requires IsOverview(sets, apps, multiEnv, o) && k < |sets| && m < |sets[k].clients|
    ensures |o.rows| == Clients(sets)
    ensures exists links: Links, linked: Linked :: IsIndex(apps, links)
              && linked == LinkOf(links, Slugs(apps), sets[k].clients[m].clientId)
              && HasRow(o.rows, sets[k], sets[k].clients[m], linked)
  {
    var links: Links :| IsIndex(apps, links)
      && o.rows == SortedRows(RowsOf(sets, links, Slugs(apps)), |sets| > 1, Ranks(sets));
    var flat := RowsOf(sets, links, Slugs(apps));
    RowsOfCount(sets, links, Slugs(apps));
    RowsOfSay(sets, links, Slugs(apps), k, m);
    SortedRowsStable(flat, |sets| > 1, Ranks(sets));
    assert |multiset(o.rows)| == |multiset(flat)|;
    var linked := LinkOf(links, Slugs(apps), sets[k].clients[m].clientId);
    var r :| r in flat && RowSays(r, sets[k], sets[k].clients[m], linked);
    assert r in multiset(flat) && r in multiset(o.rows);
    assert HasRow(o.rows, sets[k], sets[k].clients[m], linked);
  }

  /** One deployment gives the plain table, several the grouped one with deployments in their order. */
  lemma OverviewOrder(sets: seq<EnvReply>, apps: seq<App>, multiEnv: bool, o: Overview, i: nat, j: nat)
    requires IsOverview(sets, apps, multiEnv, o) && i < j < |o.rows|
    ensures |sets| <= 1 ==> o.rows[i].logins >= o.rows[j].logins
    ensures |sets| > 1 ==>
              && SumOver(LoginsIn(Group(o.rows[i])), o.rows) >= SumOver(LoginsIn(Group(o.rows[j])), o.rows)
              && (Group(o.rows[i]) == Group(o.rows[j]) ==> Lookup(Ranks(sets), o.rows[i].env) <= Lookup(Ranks(sets), o.rows[j].env))
  {
    var links: Links :| IsIndex(apps, links)
      && o.rows == SortedRows(RowsOf(sets, links, Slugs(apps)), |sets| > 1, Ranks(sets));
    var flat := RowsOf(sets, links, Slugs(apps));
    SortedRowsStable(flat, |sets| > 1, Ranks(sets));
    assert |multiset(o.rows)| == |multiset(flat)|;
    if |sets| > 1 {
      GroupedTable(flat, Ranks(sets), i, j);
    } else {
      PlainTable(flat, Ranks(sets), i, j);
    }
  }

  /** An app is listed without login exactly when it names no client id at any stage. */
  lemma OverviewNoLogin(sets: seq<EnvReply>, apps: seq<App>, multiEnv: bool, o: Overview, slug: string)
    requires IsOverview(sets, apps, multiEnv, o)
    ensures slug in o.noLogin <==>
            exists i :: 0 <= i < |apps| && apps[i].slug == slug && NamesNothing(apps[i])
  {
    NoLoginMember(apps, slug);
    assert slug in o.noLogin <==> slug in multiset(o.noLogin);
    assert slug in NoLoginSlugs(apps) <==> slug in multiset(NoLoginSlugs(apps));
    forall i | 0 <= i < |apps| ensures NoLogin(apps[i]) <==> NamesNothing(apps[i]) {
      NamesNothingExactly(apps[i]);
    }
  }

  ghost predicate NamesNothing(a: App) { forall st, id :: !Names(a, st, id) }

  lemma NamesNothingExactly(a: App)
    ensures NoLogin(a) <==> NamesNothing(a)
  {
    if !NoLogin(a) {
      var st :| st in a.auth.value && a.auth.value[st] != "";
      assert Names(a, st, a.auth.value[st]);
    }
  }
}
