/**
 How the usage page links client ids to registry apps, and which ids it calls
 silent (internal/http/handlers/usage.go). Every Go map is iterated in an
 arbitrary order.
 */
module UsageLinks {
  import opened Wrappers
  import opened Sorting
  import opened Comparing
  import Text

  /** A registry app; `auth` maps a stage to its client id. */
  datatype App = App(slug: string, auth: Option<map<string, string>>)

  datatype Link = Link(slug: string, stage: string)

  // ------------------------------------------------------------------------ order

  function StageRank(stage: string): int {
    if stage == "staging" then 0 else if stage == "prod" then 1 else 2
  }

  function CompareLinks(a: Link, b: Link): int {
    Or(Text.Compare(a.slug, b.slug),
       Or(CompareInt(StageRank(a.stage), StageRank(b.stage)), Text.Compare(a.stage, b.stage)))
  }

  function LinkOrder(): (Link, Link) -> bool {
    (a: Link, b: Link) => CompareLinks(a, b) <= 0
  }

  lemma CompareLinksOrder(a: Link, b: Link, c: Link)
    ensures CompareLinks(a, b) == -CompareLinks(b, a)
    ensures CompareLinks(a, b) == 0 <==> a == b
    ensures Consistent(CompareLinks(a, b), CompareLinks(b, c), CompareLinks(a, c))
  {
    Text.CompareFlips(a.slug, b.slug);
    Text.CompareFlips(a.stage, b.stage);
    TextConsistent(a.slug, b.slug, c.slug);
    TextConsistent(a.stage, b.stage, c.stage);
  }

  /** Links go by slug; inside an app staging comes first, then prod, then the other stages by name. */
  lemma LinksGoBy(a: Link, b: Link)
    requires CompareLinks(a, b) <= 0
    ensures Text.Compare(a.slug, b.slug) <= 0
    ensures a.slug == b.slug && b.stage == "staging" ==> a.stage == "staging"
    ensures a.slug == b.slug && b.stage == "prod" ==> a.stage == "staging" || a.stage == "prod"
    ensures a.slug == b.slug && a.stage !in ["staging", "prod"] ==>
              b.stage !in ["staging", "prod"] && Text.Compare(a.stage, b.stage) <= 0
  {
  }

  lemma LinkOrderIsTotal()
    ensures TotalPreorder(LinkOrder())
    ensures forall a, b :: LinkOrder()(a, b) && LinkOrder()(b, a) ==> a == b
  {
    var leq := LinkOrder();
    forall a, b ensures (leq(a, b) || leq(b, a)) && (leq(a, b) && leq(b, a) ==> a == b) {
      CompareLinksOrder(a, b, a);
    }
    forall a, b, c | leq(a, b) && leq(b, c) ensures leq(a, c) {
      CompareLinksOrder(a, b, c);
    }
  }

  // --------------------------------------------------------- the inverted index

  type Links = map<string, seq<Link>>

  function At(links: Links, id: string): seq<Link> { if id in links then links[id] else [] }

  /** The stages of one app that name `id`. */
  function Naming(a: App, id: string): set<Link> {
    if a.auth.Some? && id != "" then
      set s | s in a.auth.value && a.auth.value[s] == id :: Link(a.slug, s)
    else {}
  }

  /** The (app, stage) pairs of the registry that name `id`. */
  function LinksFor(apps: seq<App>, id: string): multiset<Link> {
    if apps == [] then multiset{}
    else LinksFor(apps[..|apps| - 1], id) + multiset(Naming(apps[|apps| - 1], id))
  }

  /** What `clientLinks` promises: exactly the registry's pairs, sorted, no empty entry. */
  ghost predicate IsIndex(apps: seq<App>, links: Links) {
    forall id: string ::
      && multiset(At(links, id)) == LinksFor(apps, id)
      && Sorted(LinkOrder(), At(links, id))
      && (id in links ==> links[id] != [])
  }

  /** The part of `Naming` whose stages have been visited. */
  function NamingSoFar(a: App, id: string, visited: set<string>): set<Link> {
    if a.auth.Some? && id != "" then
      set s | s in visited && s in a.auth.value && a.auth.value[s] == id :: Link(a.slug, s)
    else {}
  }

  ghost predicate GatheredAt(links: Links, apps: seq<App>, a: App, visited: set<string>, id: string) {
    && multiset(At(links, id)) == LinksFor(apps, id) + multiset(NamingSoFar(a, id, visited))
    && (id in links ==> links[id] != [])
  }

  method AddApp(links: Links, ghost apps: seq<App>, a: App) returns (r: Links)
    requires a.auth.Some? && forall id :: GatheredAt(links, apps, a, {}, id)
    ensures forall id :: GatheredAt(r, apps, a, a.auth.value.Keys, id)
  {
    r := links;
    var todo := a.auth.value.Keys;
    ghost var visited: set<string> := {};
    while todo != {}
      invariant todo !! visited && todo + visited == a.auth.value.Keys
      invariant forall id :: GatheredAt(r, apps, a, visited, id)
      decreases |todo|
    {
      var stage :| stage in todo;
      ghost var before := r;
      r := AddLink(r, a.auth.value[stage], Link(a.slug, stage));
      forall id ensures GatheredAt(r, apps, a, visited + {stage}, id) {
        assert GatheredAt(before, apps, a, visited, id);
        VisitStage(before, apps, a, visited, stage, id);
      }
      todo, visited := todo - {stage}, visited + {stage};
    }
  }

  function AddLink(links: Links, id: string, l: Link): Links {
    if id != "" then links[id := At(links, id) + [l]] else links
  }

  lemma NamingStep(a: App, visited: set<string>, stage: string, id: string)
    requires a.auth.Some? && stage in a.auth.value && stage !in visited
    ensures multiset(NamingSoFar(a, id, visited + {stage})) == multiset(NamingSoFar(a, id, visited)) +
      if a.auth.value[stage] == id && id != "" then multiset{Link(a.slug, stage)} else multiset{}
  {
    var was, now, l := NamingSoFar(a, id, visited), NamingSoFar(a, id, visited + {stage}), Link(a.slug, stage);
    if a.auth.value[stage] == id && id != "" {
      assert now == was + {l} && l !in was;
    } else {
      assert now == was;
    }
  }

  lemma NamingEnds(a: App)
    requires a.auth.Some?
    ensures forall id :: NamingSoFar(a, id, {}) == {} && NamingSoFar(a, id, a.auth.value.Keys) == Naming(a, id)
  {
  }

  lemma VisitStage(links: Links, apps: seq<App>, a: App, visited: set<string>, stage: string, id: string)
    requires a.auth.Some? && stage in a.auth.value && stage !in visited
    requires GatheredAt(links, apps, a, visited, id)
    ensures GatheredAt(AddLink(links, a.auth.value[stage], Link(a.slug, stage)), apps, a, visited + {stage}, id)
  {
    NamingStep(a, visited, stage, id);
  }

  method ClientLinks(apps: seq<App>) returns (links: Links)
    ensures IsIndex(apps, links)
  {
    links := map[];
    for i := 0 to |apps|
      invariant forall id :: multiset(At(links, id)) == LinksFor(apps[..i], id) && (id in links ==> links[id] != [])
    {
      var a := apps[i];
      assert apps[..i + 1][..i] == apps[..i];
      if a.auth.None? {
        continue;
      }
      NamingEnds(a);
      links := AddApp(links, apps[..i], a);
      forall id
        ensures multiset(At(links, id)) == LinksFor(apps[..i + 1], id) && (id in links ==> links[id] != [])
      {
        assert GatheredAt(links, apps[..i], a, a.auth.value.Keys, id);
      }
    }
    assert apps[..|apps|] == apps;
    links := SortAll(links);
  }

  /** Sorts every list of the index. */
  method SortAll(links: Links) returns (r: Links)
    ensures r.Keys == links.Keys
    ensures forall id :: Sorted(LinkOrder(), At(r, id)) && multiset(At(r, id)) == multiset(At(links, id))
    ensures forall id :: id in links && links[id] != [] ==> r[id] != []
  {
    LinkOrderIsTotal();
    r := links;
    var todo := links.Keys;
    while todo != {}
      invariant todo <= links.Keys && r.Keys == links.Keys
      invariant forall id :: id in todo ==> r[id] == links[id]
      invariant forall id :: id in links ==> multiset(r[id]) == multiset(links[id])
      invariant forall id :: id in links && id !in todo ==> Sorted(LinkOrder(), r[id])
      decreases |todo|
    {
      var id :| id in todo;
      var sorted := SortFunc(links[id], LinkOrder());
      r := r[id := sorted];
      todo := todo - {id};
    }
    forall id | id in links && links[id] != [] ensures r[id] != [] {
      assert links[id][0] in multiset(links[id]);
    }
  }

  /** The index does not depend on any iteration order. */
  lemma IndexUnique(apps: seq<App>, links: Links, links': Links)
    requires IsIndex(apps, links) && IsIndex(apps, links')
    ensures links == links'
  {
    LinkOrderIsTotal();
    forall id ensures At(links, id) == At(links', id) {
      SortedUnique(LinkOrder(), At(links, id), At(links', id));
    }
    forall id ensures id in links <==> id in links' {
      assert At(links, id) == At(links', id);
    }
  }

  predicate Names(a: App, stage: string, id: string) {
    a.auth.Some? && stage in a.auth.value && a.auth.value[stage] == id && id != ""
  }

  lemma {:induction false} LinksForMember(apps: seq<App>, id: string, l: Link)
    ensures l in LinksFor(apps, id) <==>
            exists i :: 0 <= i < |apps| && apps[i].slug == l.slug && Names(apps[i], l.stage, id)
  {
    if apps != [] {
      var n := |apps| - 1;
      LinksForMember(apps[..n], id, l);
      assert l in Naming(apps[n], id) <==> apps[n].slug == l.slug && Names(apps[n], l.stage, id);
      forall i | 0 <= i < n ensures apps[..n][i] == apps[i] {}
    }
  }

  predicate UniqueSlugs(apps: seq<App>) {
    forall i, j :: 0 <= i < j < |apps| ==> apps[i].slug != apps[j].slug
  }

  lemma {:induction false} LinksForOnce(apps: seq<App>, id: string, l: Link)
    requires UniqueSlugs(apps)
    ensures LinksFor(apps, id)[l] <= 1
  {
    if apps != [] {
      var n := |apps| - 1;
      LinksForOnce(apps[..n], id, l);
      LinksForMember(apps[..n], id, l);
      forall i | 0 <= i < n ensures apps[..n][i].slug != apps[n].slug {}
    }
  }

  // ------------------------------------------------------------------ linking a row

  const VISITS_PREFIX := "app:"

  datatype Linked = Linked(slug: string, stages: seq<string>)

  function StagesOf(l: seq<Link>, slug: string): seq<string> {
    if l == [] then []
    else
      var front, x := StagesOf(l[..|l| - 1], slug), l[|l| - 1];
      if x.slug == slug then front + [x.stage] else front
  }

  function LinkOf(links: Links, slugs: set<string>, clientId: string): Linked {
    if clientId == "" then Linked("", [])
    else if At(links, clientId) != [] then
      var slug := At(links, clientId)[0].slug;
      Linked(slug, StagesOf(At(links, clientId), slug))
    else if Text.HasPrefix(clientId, VISITS_PREFIX) && clientId[|VISITS_PREFIX|..] in slugs then
      Linked(clientId[|VISITS_PREFIX|..], [])
    else Linked("", [])
  }

  method LinkClient(links: Links, slugs: set<string>, clientId: string) returns (r: Linked)
    ensures r == LinkOf(links, slugs, clientId)
  {
    if clientId == "" {
      return Linked("", []);
    }
    var l := At(links, clientId);
    if |l| > 0 {
      var slug := l[0].slug;
      var stages: seq<string> := [];
      for i := 0 to |l|
        invariant stages == StagesOf(l[..i], slug)
      {
        assert l[..i + 1][..i] == l[..i];
        if l[i].slug == slug {
          stages := stages + [l[i].stage];
        }
      }
      assert l[..|l|] == l;
      return Linked(slug, stages);
    }
    if Text.HasPrefix(clientId, VISITS_PREFIX) && clientId[|VISITS_PREFIX|..] in slugs {
      return Linked(clientId[|VISITS_PREFIX|..], []);
    }
    return Linked("", []);
  }

  lemma {:induction false} StagesOfMember(l: seq<Link>, slug: string, stage: string)
    ensures stage in StagesOf(l, slug) <==> Link(slug, stage) in l
  {
    if l != [] {
      StagesOfMember(l[..|l| - 1], slug, stage);
      assert l == l[..|l| - 1] + [l[|l| - 1]];
    }
  }

  /** An id several apps name goes to the first slug in order, with exactly that app's stages. */
  lemma FirstSlugWins(apps: seq<App>, links: Links, slugs: set<string>, id: string, i: nat, stage: string)
    requires IsIndex(apps, links) && i < |apps| && Names(apps[i], stage, id)
    ensures var r := LinkOf(links, slugs, id);
            && Text.Compare(r.slug, apps[i].slug) <= 0
            && (r.slug == apps[i].slug ==> stage in r.stages)
            && forall s :: s in r.stages ==>
                 exists k :: 0 <= k < |apps| && apps[k].slug == r.slug && Names(apps[k], s, id)
  {
    var l, own := At(links, id), Link(apps[i].slug, stage);
    LinksForMember(apps, id, own);
    assert own in multiset(l);
    var k :| 0 <= k < |l| && l[k] == own;
    if k > 0 { assert LinkOrder()(l[0], l[k]); }
    StagesOfMember(l, l[0].slug, stage);
    forall s | s in StagesOf(l, l[0].slug)
      ensures exists k :: 0 <= k < |apps| && apps[k].slug == l[0].slug && Names(apps[k], s, id)
    {
      StagesOfMember(l, l[0].slug, s);
      assert Link(l[0].slug, s) in multiset(l);
      LinksForMember(apps, id, Link(l[0].slug, s));
    }
  }

  /** An id that no app names is linked only as `app:<slug>` of a registry app, and then to no stage. */
  lemma UnnamedLinks(apps: seq<App>, links: Links, slugs: set<string>, id: string, slug: string)
    requires IsIndex(apps, links) && forall i, st :: 0 <= i < |apps| ==> !Names(apps[i], st, id)
    ensures LinkOf(links, slugs, id).stages == []
    ensures id == "app:" + slug && slug in slugs ==> LinkOf(links, slugs, id).slug == slug
    ensures LinkOf(links, slugs, id).slug != "" ==>
              id == "app:" + LinkOf(links, slugs, id).slug && LinkOf(links, slugs, id).slug in slugs
  {
    if At(links, id) != [] {
      var l := At(links, id)[0];
      assert l in multiset(At(links, id));
      LinksForMember(apps, id, l);
      assert false;
    }
    assert ("app:" + slug)[4..] == slug;
    if Text.HasPrefix(id, VISITS_PREFIX) {
      assert id == "app:" + id[4..];
    }
  }

  // ---------------------------------------------------------------- apps without login

  predicate HasId(ids: map<string, string>) { exists s :: s in ids && ids[s] != "" }

  predicate NoLogin(a: App) { a.auth.None? || !HasId(a.auth.value) }

  function NoLoginSlugs(apps: seq<App>): seq<string> {
    if apps == [] then []
    else
      var front, a := NoLoginSlugs(apps[..|apps| - 1]), apps[|apps| - 1];
      if NoLogin(a) then front + [a.slug] else front
  }

  function SlugOrder(): (string, string) -> bool {
    (a: string, b: string) => Text.Compare(a, b) <= 0
  }

  lemma SlugOrderIsTotal()
    ensures TotalPreorder(SlugOrder())
    ensures forall a, b :: SlugOrder()(a, b) && SlugOrder()(b, a) ==> a == b
  {
    var leq := SlugOrder();
    forall a, b ensures (leq(a, b) || leq(b, a)) && (leq(a, b) && leq(b, a) ==> a == b) {
      Text.CompareFlips(a, b);
    }
    forall a, b, c | leq(a, b) && leq(b, c) ensures leq(a, c) {
      TextConsistent(a, b, c);
    }
  }

  method HasClientId(ids: map<string, string>) returns (r: bool)
    ensures r == HasId(ids)
  {
    var todo := ids.Keys;
    while todo != {}
      invariant todo <= ids.Keys && forall s :: s in ids && s !in todo ==> ids[s] == ""
      decreases |todo|
    {
      var s :| s in todo;
      if ids[s] != "" {
        return true;
      }
      todo := todo - {s};
    }
    return false;
  }

  method NoLoginApps(apps: seq<App>) returns (out: seq<string>)
    ensures Sorted(SlugOrder(), out) && multiset(out) == multiset(NoLoginSlugs(apps))
  {
    out := [];
    for i := 0 to |apps|
      invariant out == NoLoginSlugs(apps[..i])
    {
      assert apps[..i + 1][..i] == apps[..i];
      var named := false;
      if apps[i].auth.Some? {
        named := HasClientId(apps[i].auth.value);
      }
      if !named {
        out := out + [apps[i].slug];
      }
    }
    assert apps[..|apps|] == apps;
    SlugOrderIsTotal();
    out := SortFunc(out, SlugOrder());
  }

  lemma {:induction false} NoLoginMember(apps: seq<App>, slug: string)
    ensures slug in NoLoginSlugs(apps) <==>
            exists i :: 0 <= i < |apps| && apps[i].slug == slug && NoLogin(apps[i])
  {
    if apps != [] {
      var n := |apps| - 1;
      NoLoginMember(apps[..n], slug);
      forall i | 0 <= i < n ensures apps[..n][i] == apps[i] {}
    }
  }

  /** An app that names an id has a link. */
  lemma NamedHasLink(apps: seq<App>, links: Links, i: nat) returns (id: string, l: Link)
    requires IsIndex(apps, links) && i < |apps| && !NoLogin(apps[i])
    ensures l in At(links, id) && l.slug == apps[i].slug
  {
    var s :| s in apps[i].auth.value && apps[i].auth.value[s] != "";
    id, l := apps[i].auth.value[s], Link(apps[i].slug, s);
    assert Names(apps[i], s, id);
    LinksForMember(apps, id, l);
    assert l in multiset(At(links, id));
  }

  /** A link comes from an app that names its id. */
  lemma LinkHasApp(apps: seq<App>, links: Links, id: string, l: Link) returns (i: nat)
    requires IsIndex(apps, links) && l in At(links, id)
    ensures i < |apps| && apps[i].slug == l.slug && Names(apps[i], l.stage, id)
  {
    assert l in multiset(At(links, id));
    LinksForMember(apps, id, l);
    i :| 0 <= i < |apps| && apps[i].slug == l.slug && Names(apps[i], l.stage, id);
  }

  lemma NoLoginAt(apps: seq<App>, i: nat)
    requires UniqueSlugs(apps) && i < |apps|
    ensures apps[i].slug in NoLoginSlugs(apps) <==> NoLogin(apps[i])
  {
    NoLoginMember(apps, apps[i].slug);
  }

  /** The index holds a link of the app with this slug. */
  ghost predicate HasLink(links: Links, slug: string) {
    exists id: string, l: Link :: l in At(links, id) && l.slug == slug
  }

  lemma NoLoginHasNoLink(apps: seq<App>, links: Links, i: nat)
    requires UniqueSlugs(apps) && IsIndex(apps, links) && i < |apps| && NoLogin(apps[i])
    ensures !HasLink(links, apps[i].slug)
  {
    if id: string, l: Link :| l in At(links, id) && l.slug == apps[i].slug {
      var k := LinkHasApp(apps, links, id, l);
    }
  }

  /** With unique slugs, an app is listed without login exactly when it contributes no link. */
  lemma NoLoginExactly(apps: seq<App>, links: Links, i: nat)
    requires UniqueSlugs(apps) && IsIndex(apps, links) && i < |apps|
    ensures apps[i].slug in NoLoginSlugs(apps) <==> !HasLink(links, apps[i].slug)
  {
    NoLoginAt(apps, i);
    if NoLogin(apps[i]) {
      NoLoginHasNoLink(apps, links, i);
    } else {
      var id, l := NamedHasLink(apps, links, i);
    }
  }

  // ------------------------------------------------------------------- silent clients

  const PROD := "prod"
  const STAGING := "staging"

  /** The deployment a registry stage logs in to. */
  function StageEnv(stage: string): string { if stage == PROD then PROD else STAGING }

  datatype Silent = Silent(envLabel: string, appSlug: string, stage: string, clientId: string)

  /**
   What the judgement reads: per fetched environment the ids with activity, the
   labels, and whether several deployments are configured.
   */
  datatype Activity = Activity(
    active: map<string, set<string>>, labels: map<string, string>, onlyEnv: string, multiEnv: bool)

  function EnvOf(act: Activity, stage: string): string {
    if act.multiEnv then StageEnv(stage) else act.onlyEnv
  }

  predicate Fetched(act: Activity, stage: string) { EnvOf(act, stage) in act.active }

  predicate ActiveFor(act: Activity, stage: string, id: string) {
    Fetched(act, stage) && id in act.active[EnvOf(act, stage)]
  }

  /** The id is inactive in every fetched environment of the stages naming it. */
  predicate Idle(act: Activity, id: string, l: seq<Link>) {
    forall i :: 0 <= i < |l| ==> !ActiveFor(act, l[i].stage, id)
  }

  function LabelOf(act: Activity, stage: string): string {
    if act.multiEnv && StageEnv(stage) in act.labels then act.labels[StageEnv(stage)] else ""
  }

  function Judged(act: Activity, l: seq<Link>): seq<Link> {
    if l == [] then []
    else
      var front, x := Judged(act, l[..|l| - 1]), l[|l| - 1];
      if Fetched(act, x.stage) then front + [x] else front
  }

  function Listed(act: Activity, id: string, entries: seq<Link>): (r: seq<Silent>)
    ensures |r| == |entries|
  {
    seq(|entries|, i requires 0 <= i < |entries| =>
      Silent(LabelOf(act, entries[i].stage), entries[i].slug, entries[i].stage, id))
  }

  /** What one id contributes. */
  function SilentFor(act: Activity, id: string, l: seq<Link>): seq<Silent> {
    if Idle(act, id, l) then Listed(act, id, Judged(act, l)) else []
  }

  function SilentOrder(): (Silent, Silent) -> bool {
    (a: Silent, b: Silent) => CompareLinks(Link(a.appSlug, a.stage), Link(b.appSlug, b.stage)) <= 0
  }

  lemma SilentOrderIsPreorder()
    ensures TotalPreorder(SilentOrder())
  {
    var leq := SilentOrder();
    forall a, b ensures leq(a, b) || leq(b, a) {
      CompareLinksOrder(Link(a.appSlug, a.stage), Link(b.appSlug, b.stage), Link("", ""));
    }
    forall a, b, c | leq(a, b) && leq(b, c) ensures leq(a, c) {
      CompareLinksOrder(Link(a.appSlug, a.stage), Link(b.appSlug, b.stage), Link(c.appSlug, c.stage));
    }
  }

  /** What `silentClients` promises, whatever order the map is iterated in. */
  ghost predicate IsSilentList(act: Activity, links: Links, out: seq<Silent>) {
    && Sorted(SilentOrder(), out)
    && forall s: Silent :: multiset(out)[s] == multiset(SilentFor(act, s.clientId, At(links, s.clientId)))[s]
  }

  /** The links of one id whose environment was fetched, and those environments. */
  method FetchedLinks(act: Activity, l: seq<Link>) returns (entries: seq<Link>, envs: seq<string>)
    ensures entries == Judged(act, l)
    ensures forall e :: e in envs <==> exists k :: 0 <= k < |l| && Fetched(act, l[k].stage) && EnvOf(act, l[k].stage) == e
  {
    entries, envs := [], [];
    for i := 0 to |l|
      invariant entries == Judged(act, l[..i])
      invariant forall e :: e in envs <==> exists k :: 0 <= k < i && Fetched(act, l[k].stage) && EnvOf(act, l[k].stage) == e
    {
      assert l[..i + 1][..i] == l[..i];
      var env := EnvOf(act, l[i].stage);
      if env !in act.active {
        continue;
      }
      entries := entries + [l[i]];
      if env !in envs {
        envs := envs + [env];
      }
    }
    assert l[..|l|] == l;
  }

  method AnyActive(act: Activity, envs: seq<string>, id: string) returns (r: bool)
    ensures r <==> exists e :: e in envs && e in act.active && id in act.active[e]
  {
    for i := 0 to |envs|
      invariant forall k :: 0 <= k < i ==> !(envs[k] in act.active && id in act.active[envs[k]])
    {
      if envs[i] in act.active && id in act.active[envs[i]] {
        assert envs[i] in envs;
        return true;
      }
    }
    return false;
  }

  method ListEntries(act: Activity, id: string, entries: seq<Link>) returns (out: seq<Silent>)
    ensures out == Listed(act, id, entries)
  {
    out := [];
    for i := 0 to |entries|
      invariant out == Listed(act, id, entries[..i])
    {
      out := out + [Silent(LabelOf(act, entries[i].stage), entries[i].slug, entries[i].stage, id)];
    }
    assert entries[..|entries|] == entries;
  }

  /** One id of the index, judged. */
  method JudgeOne(act: Activity, id: string, l: seq<Link>) returns (out: seq<Silent>)
    ensures out == SilentFor(act, id, l)
  {
    var entries, envs := FetchedLinks(act, l);
    var active := AnyActive(act, envs, id);
    if active {
      return [];
    }
    forall i | 0 <= i < |l| ensures !ActiveFor(act, l[i].stage, id) {
      if Fetched(act, l[i].stage) {
        assert EnvOf(act, l[i].stage) in envs;
      }
    }
    out := ListEntries(act, id, entries);
  }

  method SilentClients(links: Links, act: Activity) returns (out: seq<Silent>)
    ensures IsSilentList(act, links, out)
  {
    out := [];
    var todo := links.Keys;
    while todo != {}
      invariant todo <= links.Keys
      invariant forall s: Silent ::
        multiset(out)[s] == (if s.clientId in todo then 0 else multiset(SilentFor(act, s.clientId, At(links, s.clientId)))[s])
      decreases |todo|
    {
      var id :| id in todo;
      var more := JudgeOne(act, id, links[id]);
      forall s: Silent | s.clientId != id ensures s !in more {}
      out := out + more;
      todo := todo - {id};
    }
    SilentOrderIsPreorder();
    out := SortFunc(out, SilentOrder());
  }

  lemma {:induction false} JudgedMember(act: Activity, l: seq<Link>, x: Link)
    ensures multiset(Judged(act, l))[x] == if Fetched(act, x.stage) then multiset(l)[x] else 0
  {
    if l != [] {
      JudgedMember(act, l[..|l| - 1], x);
      assert l == l[..|l| - 1] + [l[|l| - 1]];
    }
  }

  lemma {:induction false} ListedCount(act: Activity, id: string, entries: seq<Link>, s: Silent)
    ensures multiset(Listed(act, id, entries))[s] ==
      if s == Silent(LabelOf(act, s.stage), s.appSlug, s.stage, id) then multiset(entries)[Link(s.appSlug, s.stage)]
      else 0
  {
    if entries != [] {
      var n := |entries| - 1;
      ListedCount(act, id, entries[..n], s);
      assert entries == entries[..n] + [entries[n]];
      assert Listed(act, id, entries) == Listed(act, id, entries[..n]) + [Listed(act, id, entries)[n]];
    }
  }

  /** How often an entry is listed: as often as the registry names it, if it is to be listed at all. */
  lemma SilentCount(act: Activity, links: Links, out: seq<Silent>, s: Silent)
    requires IsSilentList(act, links, out)
    ensures multiset(out)[s] ==
      if s.envLabel == LabelOf(act, s.stage) && Fetched(act, s.stage) && Idle(act, s.clientId, At(links, s.clientId))
      then multiset(At(links, s.clientId))[Link(s.appSlug, s.stage)]
      else 0
  {
    var l := At(links, s.clientId);
    ListedCount(act, s.clientId, Judged(act, l), s);
    JudgedMember(act, l, Link(s.appSlug, s.stage));
  }

  /** Inactive in every fetched environment of the stages naming `id`, over the whole registry. */
  predicate IdleEverywhere(apps: seq<App>, act: Activity, id: string) {
    forall i :: 0 <= i < |apps| && apps[i].auth.Some? ==>
      forall st :: st in apps[i].auth.value ==> Names(apps[i], st, id) ==> !ActiveFor(act, st, id)
  }

  lemma IdleIsEverywhere(apps: seq<App>, links: Links, act: Activity, id: string)
    requires IsIndex(apps, links)
    ensures Idle(act, id, At(links, id)) <==> IdleEverywhere(apps, act, id)
  {
    var l := At(links, id);
    assert multiset(l) == LinksFor(apps, id);
    forall i, st | 0 <= i < |apps| && Names(apps[i], st, id) ensures Link(apps[i].slug, st) in l {
      LinksForMember(apps, id, Link(apps[i].slug, st));
      assert Link(apps[i].slug, st) in multiset(l);
    }
    forall k | 0 <= k < |l|
      ensures exists i :: 0 <= i < |apps| && apps[i].slug == l[k].slug && Names(apps[i], l[k].stage, id)
    {
      assert l[k] in multiset(l);
      LinksForMember(apps, id, l[k]);
    }
  }

  /**
   A stage of an app is listed with its client id exactly when the registry names
   that id there, the stage's environment was fetched and the id is idle in every
   fetched environment of the stages naming it.
   */
  lemma SilentExactly(apps: seq<App>, links: Links, act: Activity, out: seq<Silent>, slug: string, stage: string, id: string)
    requires IsIndex(apps, links) && IsSilentList(act, links, out)
    ensures Silent(LabelOf(act, stage), slug, stage, id) in out <==>
            && (exists i :: 0 <= i < |apps| && apps[i].slug == slug && Names(apps[i], stage, id))
            && Fetched(act, stage) && IdleEverywhere(apps, act, id)
  {
    var s := Silent(LabelOf(act, stage), slug, stage, id);
    assert s in out <==> multiset(out)[s] > 0;
    SilentCount(act, links, out, s);
    LinksForMember(apps, id, Link(slug, stage));
    IdleIsEverywhere(apps, links, act, id);
  }

  lemma SilentSource(apps: seq<App>, links: Links, act: Activity, out: seq<Silent>, x: Silent) returns (i: nat)
    requires IsIndex(apps, links) && IsSilentList(act, links, out) && x in out
    ensures i < |apps| && apps[i].slug == x.appSlug && Names(apps[i], x.stage, x.clientId)
    ensures x.envLabel == LabelOf(act, x.stage)
  {
    assert multiset(out)[x] > 0;
    SilentCount(act, links, out, x);
    i := LinkHasApp(apps, links, x.clientId, Link(x.appSlug, x.stage));
  }

  /** The registry names the id at that stage of that app. */
  predicate NamedAt(apps: seq<App>, slug: string, stage: string, id: string) {
    exists i :: 0 <= i < |apps| && apps[i].slug == slug && Names(apps[i], stage, id)
  }

  /** `SilentExactly` for an entry with any label. */
  lemma SilentMember(apps: seq<App>, links: Links, act: Activity, out: seq<Silent>, x: Silent)
    requires IsIndex(apps, links) && IsSilentList(act, links, out)
    ensures x in out <==>
            && x.envLabel == LabelOf(act, x.stage) && NamedAt(apps, x.appSlug, x.stage, x.clientId)
            && Fetched(act, x.stage) && IdleEverywhere(apps, act, x.clientId)
  {
    SilentExactly(apps, links, act, out, x.appSlug, x.stage, x.clientId);
    if x in out {
      var i := SilentSource(apps, links, act, out, x);
    }
  }

  /**
   With several deployments: prod is judged by "prod" and every other stage by
   "staging". An entry is listed exactly when the registry names it, that deployment
   was fetched, the label is its own, and no stage naming the id was active.
   */
  lemma SilentMulti(apps: seq<App>, links: Links, act: Activity, out: seq<Silent>, x: Silent)
    requires IsIndex(apps, links) && IsSilentList(act, links, out) && act.multiEnv
    ensures x in out <==>
            var env := if x.stage == "prod" then "prod" else "staging";
            && NamedAt(apps, x.appSlug, x.stage, x.clientId) && env in act.active
            && x.envLabel == (if env in act.labels then act.labels[env] else "")
            && (NamedForProd(apps, x.clientId) && "prod" in act.active ==> x.clientId !in act.active["prod"])
            && (NamedForOther(apps, x.clientId) && "staging" in act.active ==> x.clientId !in act.active["staging"])
  {
    SilentMember(apps, links, act, out, x);
    IdleMulti(apps, act, x.clientId);
  }

  /** Some app names the id for prod. */
  predicate NamedForProd(apps: seq<App>, id: string) {
    exists i :: 0 <= i < |apps| && Names(apps[i], "prod", id)
  }

  /** Some app names the id for a stage other than prod. */
  ghost predicate NamedForOther(apps: seq<App>, id: string) {
    exists i, st :: 0 <= i < |apps| && st != "prod" && Names(apps[i], st, id)
  }

  lemma IdleMulti(apps: seq<App>, act: Activity, id: string)
    requires act.multiEnv
    ensures IdleEverywhere(apps, act, id) <==>
            && (NamedForProd(apps, id) && "prod" in act.active ==> id !in act.active["prod"])
            && (NamedForOther(apps, id) && "staging" in act.active ==> id !in act.active["staging"])
  {
    if IdleEverywhere(apps, act, id) {
      if i :| 0 <= i < |apps| && Names(apps[i], "prod", id) {
        assert !ActiveFor(act, "prod", id);
      }
      if i, st :| 0 <= i < |apps| && st != "prod" && Names(apps[i], st, id) {
        assert !ActiveFor(act, st, id);
      }
    }
  }

  /** With one deployment every stage is judged by it, and entries carry no label. */
  lemma SilentSingle(apps: seq<App>, links: Links, act: Activity, out: seq<Silent>, x: Silent)
    requires IsIndex(apps, links) && IsSilentList(act, links, out) && !act.multiEnv
    ensures x in out <==>
            && NamedAt(apps, x.appSlug, x.stage, x.clientId) && x.envLabel == ""
            && act.onlyEnv in act.active && x.clientId !in act.active[act.onlyEnv]
  {
    SilentMember(apps, links, act, out, x);
    if NamedAt(apps, x.appSlug, x.stage, x.clientId) {
      var i :| 0 <= i < |apps| && apps[i].slug == x.appSlug && Names(apps[i], x.stage, x.clientId);
      assert IdleEverywhere(apps, act, x.clientId) ==> !ActiveFor(act, x.stage, x.clientId);
    }
  }

  lemma SlugStageDecides(apps: seq<App>, links: Links, act: Activity, out: seq<Silent>, x: Silent, y: Silent)
    requires UniqueSlugs(apps) && IsIndex(apps, links) && IsSilentList(act, links, out)
    requires x in out && y in out && x.appSlug == y.appSlug && x.stage == y.stage
    ensures x == y
  {
    var i := SilentSource(apps, links, act, out, x);
    var k := SilentSource(apps, links, act, out, y);
    assert i == k;
  }

  /** With unique slugs every entry is listed once, and the list is the same for every iteration order. */
  lemma SilentOnceAndUnique(apps: seq<App>, links: Links, act: Activity, out: seq<Silent>, out': seq<Silent>, s: Silent)
    requires UniqueSlugs(apps) && IsIndex(apps, links)
    requires IsSilentList(act, links, out) && IsSilentList(act, links, out')
    ensures multiset(out)[s] <= 1
    ensures out == out'
  {
    SilentCount(act, links, out, s);
    LinksForOnce(apps, s.clientId, Link(s.appSlug, s.stage));
    assert multiset(out) == multiset(out');
    SilentOrderIsPreorder();
    forall x, y | x in out && y in out && SilentOrder()(x, y) && SilentOrder()(y, x) ensures x == y {
      CompareLinksOrder(Link(x.appSlug, x.stage), Link(y.appSlug, y.stage), Link("", ""));
      SlugStageDecides(apps, links, act, out, x, y);
    }
    SortedUnique(SilentOrder(), out, out');
  }
}
