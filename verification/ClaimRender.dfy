/**
 `ClaimInput.ToApp` and `ClaimInput.TagFiles` (internal/registry/render.go): the
 claim and the tag files that a form payload is rendered to.
 */
module ClaimRender {
  import opened Claims
  import opened EnvLines
  import opened Wrappers

  const API_VERSION := "platform.meko.dev/v1"
  const KIND := "App"

  // -------------------------------------------------------------- environment maps

  /** A name set twice keeps its last value. */
  function EnvMapOf(vars: seq<EnvVar>): EnvMap {
    if vars == [] then map[]
    else
      var v := vars[|vars| - 1];
      EnvMapOf(vars[..|vars| - 1])[v.name := EnvValue(v.value, v.secret, v.key)]
  }

  method MakeEnvMap(vars: seq<EnvVar>) returns (m: EnvMap)
    ensures m == EnvMapOf(vars)
  {
    m := map[];
    for i := 0 to |vars|
      invariant m == EnvMapOf(vars[..i])
    {
      assert vars[..i + 1][..i] == vars[..i];
      m := m[vars[i].name := EnvValue(vars[i].value, vars[i].secret, vars[i].key)];
    }
    assert vars[..|vars|] == vars;
  }

  predicate HasName(vars: seq<EnvVar>, n: string) {
    exists i :: 0 <= i < |vars| && vars[i].name == n
  }

  /** The keys are the names. */
  lemma {:induction false} EnvMapKeys(vars: seq<EnvVar>, n: string)
    ensures n in EnvMapOf(vars) <==> HasName(vars, n)
  {
    if vars != [] {
      var front := vars[..|vars| - 1];
      EnvMapKeys(front, n);
      if i :| 0 <= i < |vars| && vars[i].name == n {
        assert i < |front| ==> front[i].name == n;
      }
      if i :| 0 <= i < |front| && front[i].name == n {
        assert vars[i].name == n;
      }
    }
  }

  lemma FreshName(vars: seq<EnvVar>)
    requires vars != [] && Distinct(vars)
    ensures Distinct(vars[..|vars| - 1]) && vars[|vars| - 1].name !in EnvMapOf(vars[..|vars| - 1])
  {
    EnvMapKeys(vars[..|vars| - 1], vars[|vars| - 1].name);
  }

  lemma {:induction false} EnvMapSize(vars: seq<EnvVar>)
    requires Distinct(vars)
    ensures |EnvMapOf(vars)| == |vars|
  {
    if vars != [] {
      var front, v := vars[..|vars| - 1], vars[|vars| - 1];
      FreshName(vars);
      EnvMapSize(front);
      assert EnvMapOf(vars).Keys == EnvMapOf(front).Keys + {v.name};
    }
  }

  predicate Carries(m: EnvMap, v: EnvVar) {
    v.name in m && m[v.name] == EnvValue(v.value, v.secret, v.key)
  }

  lemma {:induction false} EnvMapCarries(vars: seq<EnvVar>, i: nat)
    requires Distinct(vars) && i < |vars|
    ensures Carries(EnvMapOf(vars), vars[i])
  {
    var front := vars[..|vars| - 1];
    if i < |front| {
      FreshName(vars);
      EnvMapCarries(front, i);
    }
  }

  /** With distinct names the map has exactly the variables, one entry each, carrying all of it. */
  lemma EnvMapLossless(vars: seq<EnvVar>)
    requires Distinct(vars)
    ensures |EnvMapOf(vars)| == |vars|
    ensures forall n :: n in EnvMapOf(vars) <==> HasName(vars, n)
    ensures forall i :: 0 <= i < |vars| ==> Carries(EnvMapOf(vars), vars[i])
  {
    EnvMapSize(vars);
    forall n ensures n in EnvMapOf(vars) <==> HasName(vars, n) {
      EnvMapKeys(vars, n);
    }
    forall i | 0 <= i < |vars| ensures Carries(EnvMapOf(vars), vars[i]) {
      EnvMapCarries(vars, i);
    }
  }

  /** A text is written as a text, a reference as both of its parts. */
  function WrittenAs(v: EnvVar): Written {
    if v.secret == "" && v.key == "" then Written.Text(v.value) else Reference(v.secret, v.key)
  }

  // -------------------------------------------------------------------- one component

  function ProbeOf(path: string): Option<string> {
    if path == "" then None else Some(path)
  }

  function ProbesOf(p: Probes<string>): Option<Probes<Option<string>>> {
    if p == Probes("", "", "") then None
    else Some(Probes(ProbeOf(p.liveness), ProbeOf(p.readiness), ProbeOf(p.startup)))
  }

  function ComponentOf(x: ComponentInput): Option<ClaimComponent> {
    if x.port == 0 && x.env == [] && x.envFrom == [] && x.probes == Probes("", "", "") then None
    else Some(ClaimComponent(x.port, EnvMapOf(x.env), x.envFrom, ProbesOf(x.probes)))
  }

  /** `component`: what is set, or nothing when nothing is. */
  method MakeComponent(x: ComponentInput) returns (r: Option<ClaimComponent>)
    ensures r == ComponentOf(x)
  {
    var env: Option<EnvMap> := None;
    if |x.env| > 0 {
      var m := MakeEnvMap(x.env);
      env := Some(m);
    }
    var envFrom: seq<string> := [];
    for i := 0 to |x.envFrom|
      invariant envFrom == x.envFrom[..i]
    {
      envFrom := envFrom + [x.envFrom[i]];
    }
    assert x.envFrom[..|x.envFrom|] == x.envFrom;
    var probes := Probes(ProbeOf(x.probes.liveness), ProbeOf(x.probes.readiness), ProbeOf(x.probes.startup));
    var given := if probes.liveness.Some? || probes.readiness.Some? || probes.startup.Some? then Some(probes) else None;
    if x.port == 0 && env.None? && envFrom == [] && given.None? {
      return None;
    }
    return Some(ClaimComponent(x.port, if env.Some? then env.value else map[], envFrom, given));
  }

  // ------------------------------------------------------------------------ one stage

  function StageEnvOf(has: bool, vars: seq<EnvVar>): Option<EnvMap> {
    if has && vars != [] then Some(EnvMapOf(vars)) else None
  }

  function SetSides<T>(s: Sides<Option<T>>): Option<Sides<Option<T>>> {
    if s.backend.Some? || s.frontend.Some? then Some(s) else None
  }

  function StageOf(c: ClaimInput, s: Stage): ClaimStage {
    var x := c.stages.Get(s);
    ClaimStage(x.host, if x.enabled then None else Some(false), s.Prod?,
      SetSides(Sides(StageEnvOf(c.has.backend, x.env.backend), StageEnvOf(c.has.frontend, x.env.frontend))))
  }

  method MakeStage(c: ClaimInput, x: StageInput, prod: bool) returns (r: ClaimStage)
    requires x == c.stages.Get(if prod then Prod else Staging)
    ensures r == StageOf(c, if prod then Prod else Staging)
  {
    r := ClaimStage(x.host, None, prod, None);
    if !x.enabled {
      r := r.(enabled := Some(false));
    }
    var comps: Sides<Option<EnvMap>> := Sides(None, None);
    if c.has.backend && |x.env.backend| > 0 {
      var m := MakeEnvMap(x.env.backend);
      comps := comps.(backend := Some(m));
    }
    if c.has.frontend && |x.env.frontend| > 0 {
      var m := MakeEnvMap(x.env.frontend);
      comps := comps.(frontend := Some(m));
    }
    if comps.backend.Some? || comps.frontend.Some? {
      r := r.(components := Some(comps));
    }
  }

  // ------------------------------------------------------------------- the whole claim

  function IfSet<T>(has: bool, x: T): Option<T> {
    if has then Some(x) else None
  }

  function AuthOf(c: ClaimInput): Option<Auth> {
    if c.authScope == "" && c.clientIds == Stages("", "") then None
    else Some(Auth(c.authScope, IfSet(c.clientIds != Stages("", ""), c.clientIds)))
  }

  function ComponentIf(c: ClaimInput, x: Component): Option<ClaimComponent> {
    if c.has.Get(x) then ComponentOf(c.components.Get(x)) else None
  }

  function ResourceOf(x: ComponentInput): Resource { Resource(x.memory, x.cpu) }

  /** What `ToApp` renders; `today` is the current date in UTC as it is printed. */
  function App(c: ClaimInput, today: string): Claim {
    Claim(
      API_VERSION, KIND, c.slug, c.technical, c.organizational, c.repoUrl, c.has,
      Stages(StageOf(c, Staging), StageOf(c, Prod)),
      Sides(IfSet(c.has.backend, c.components.backend.repository), IfSet(c.has.frontend, c.components.frontend.repository)),
      Sides(IfSet(c.has.backend, ResourceOf(c.components.backend)), IfSet(c.has.frontend, ResourceOf(c.components.frontend))),
      SetSides(Sides(ComponentIf(c, Backend), ComponentIf(c, Frontend))),
      AuthOf(c), c.sharedSecrets, c.websocket, if c.createdAt == "" then today else c.createdAt)
  }

  method ToApp(c: ClaimInput, today: string) returns (claim: Claim)
    ensures claim == App(c, today)
  {
    var staging := MakeStage(c, c.stages.staging, false);
    var prod := MakeStage(c, c.stages.prod, true);
    var images, resources, components := MakeBlocks(c);
    claim := Claim(API_VERSION, KIND, c.slug, c.technical, c.organizational, c.repoUrl, c.has,
      Stages(staging, prod), images, resources, components, None, c.sharedSecrets, c.websocket, c.createdAt);
    if c.createdAt == "" {
      claim := claim.(createdAt := today);
    }
    if c.authScope != "" || c.clientIds.staging != "" || c.clientIds.prod != "" {
      var auth := Auth(c.authScope, None);
      if c.clientIds.staging != "" || c.clientIds.prod != "" {
        auth := auth.(clientIds := Some(c.clientIds));
      }
      claim := claim.(auth := Some(auth));
    }
  }

  /** The blocks of the enabled components. */
  method MakeBlocks(c: ClaimInput)
    returns (images: Sides<Option<string>>, resources: Sides<Option<Resource>>, components: Option<Sides<Option<ClaimComponent>>>)
    ensures images == App(c, "").images && resources == App(c, "").resources
    ensures components == App(c, "").components
  {
    images, resources, components := Sides(None, None), Sides(None, None), None;
    var comps: Sides<Option<ClaimComponent>> := Sides(None, None);
    if c.has.backend {
      images := images.(backend := Some(c.components.backend.repository));
      resources := resources.(backend := Some(ResourceOf(c.components.backend)));
      var backend := MakeComponent(c.components.backend);
      comps := comps.(backend := backend);
    }
    if c.has.frontend {
      images := images.(frontend := Some(c.components.frontend.repository));
      resources := resources.(frontend := Some(ResourceOf(c.components.frontend)));
      var frontend := MakeComponent(c.components.frontend);
      comps := comps.(frontend := frontend);
    }
    if comps.backend.Some? || comps.frontend.Some? {
      components := Some(comps);
    }
  }

  // ------------------------------------------------------------------------- tag files

  datatype TagFilesError = NoComponentEnabled | NoStageEnabled

  type Files = Result<map<string, TagFile>, TagFilesError>

  function StageName(s: Stage): string { if s.Staging? then "staging" else "prod" }

  function TagPath(slug: string, s: Stage): string {
    "tags/" + slug + "/" + StageName(s) + ".yaml"
  }

  function TagsOf(c: ClaimInput): TagFile {
    Sides(IfSet(c.has.backend, c.components.backend.tag), IfSet(c.has.frontend, c.components.frontend.tag))
  }

  function StageFile(c: ClaimInput, s: Stage): map<string, TagFile> {
    if c.stages.Get(s).enabled then map[TagPath(c.slug, s) := TagsOf(c)] else map[]
  }

  function TagFilesOf(c: ClaimInput): Files {
    if !c.has.backend && !c.has.frontend then Err(NoComponentEnabled)
    else if !c.stages.staging.enabled && !c.stages.prod.enabled then Err(NoStageEnabled)
    else Ok(StageFile(c, Staging) + StageFile(c, Prod))
  }

  method TagFiles(c: ClaimInput) returns (r: Files)
    ensures r == TagFilesOf(c)
  {
    if !c.has.backend && !c.has.frontend {
      return Err(NoComponentEnabled);
    }
    var tags: TagFile := Sides(None, None);
    if c.has.backend {
      tags := tags.(backend := Some(c.components.backend.tag));
    }
    if c.has.frontend {
      tags := tags.(frontend := Some(c.components.frontend.tag));
    }
    var files: map<string, TagFile> := map[];
    var stages := [Staging, Prod];
    for i := 0 to |stages|
      invariant i == 0 ==> files == map[]
      invariant i == 1 ==> files == StageFile(c, Staging)
      invariant i == 2 ==> files == StageFile(c, Staging) + StageFile(c, Prod)
    {
      if c.stages.Get(stages[i]).enabled {
        files := files[TagPath(c.slug, stages[i]) := tags];
      }
    }
    assert c.stages.staging.enabled ==> TagPath(c.slug, Staging) in files;
    assert c.stages.prod.enabled ==> TagPath(c.slug, Prod) in files;
    if |files| == 0 {
      return Err(NoStageEnabled);
    }
    return Ok(files);
  }

  lemma PathsDiffer(slug: string)
    ensures TagPath(slug, Staging) != TagPath(slug, Prod)
  {
    assert |TagPath(slug, Staging)| == |TagPath(slug, Prod)| + 3;
  }

  /** One file per enabled stage and no other, each with the tag of every enabled component. */
  lemma TagFilesExactly(c: ClaimInput, path: string)
    requires TagFilesOf(c).Ok?
    ensures path in TagFilesOf(c).value <==>
            || (c.stages.staging.enabled && path == "tags/" + c.slug + "/staging.yaml")
            || (c.stages.prod.enabled && path == "tags/" + c.slug + "/prod.yaml")
    ensures path in TagFilesOf(c).value ==>
              var f := TagFilesOf(c).value[path];
              && f.backend == (if c.has.backend then Some(c.components.backend.tag) else None)
              && f.frontend == (if c.has.frontend then Some(c.components.frontend.tag) else None)
    ensures |TagFilesOf(c).value| == if c.stages.staging.enabled && c.stages.prod.enabled then 2 else 1
  {
    PathsDiffer(c.slug);
    TagPathsAre(c.slug);
    var files := TagFilesOf(c).value;
    assert files.Keys == StageFile(c, Staging).Keys + StageFile(c, Prod).Keys;
  }

  lemma TagPathsAre(slug: string)
    ensures TagPath(slug, Staging) == "tags/" + slug + "/staging.yaml"
    ensures TagPath(slug, Prod) == "tags/" + slug + "/prod.yaml"
  {
    var front := "tags/" + slug;
    assert "/staging.yaml" == "/" + "staging" + ".yaml" && "/prod.yaml" == "/" + "prod" + ".yaml";
    assert TagPath(slug, Staging) == front + "/staging.yaml";
    assert TagPath(slug, Prod) == front + "/prod.yaml";
  }

  // --------------------------------------------------------- nothing visible gets lost

  /** Two components are set the same, up to the order of their variables. */
  predicate SameComponent(x: ComponentInput, y: ComponentInput) {
    && x.repository == y.repository && x.tag == y.tag && x.memory == y.memory && x.cpu == y.cpu
    && x.port == y.port && x.envFrom == y.envFrom && x.probes == y.probes && EnvMapOf(x.env) == EnvMapOf(y.env)
  }

  predicate SameStage(c: ClaimInput, d: ClaimInput, s: Stage) {
    && c.stages.Get(s).host == d.stages.Get(s).host && c.stages.Get(s).enabled == d.stages.Get(s).enabled
    && (c.has.backend ==> EnvMapOf(c.stages.Get(s).env.backend) == EnvMapOf(d.stages.Get(s).env.backend))
    && (c.has.frontend ==> EnvMapOf(c.stages.Get(s).env.frontend) == EnvMapOf(d.stages.Get(s).env.frontend))
  }

  predicate SameHead(c: ClaimInput, d: ClaimInput) {
    && c.slug == d.slug && c.technical == d.technical && c.organizational == d.organizational
    && c.repoUrl == d.repoUrl && c.has == d.has && c.authScope == d.authScope && c.clientIds == d.clientIds
    && c.websocket == d.websocket && c.sharedSecrets == d.sharedSecrets
  }

  lemma SidesDecide(x: ComponentInput, y: ComponentInput)
    requires ComponentOf(x) == ComponentOf(y) && ResourceOf(x) == ResourceOf(y)
    requires x.repository == y.repository && x.tag == y.tag
    ensures SameComponent(x, y)
  {
  }

  lemma StageDecides(c: ClaimInput, d: ClaimInput, s: Stage)
    requires StageOf(c, s) == StageOf(d, s) && c.has == d.has
    ensures SameStage(c, d, s)
  {
    EnvDecides(c.has.backend, c.stages.Get(s).env.backend, d.stages.Get(s).env.backend);
    EnvDecides(c.has.frontend, c.stages.Get(s).env.frontend, d.stages.Get(s).env.frontend);
  }

  lemma EnvDecides(has: bool, vars: seq<EnvVar>, other: seq<EnvVar>)
    ensures has && StageEnvOf(has, vars) == StageEnvOf(has, other) ==> EnvMapOf(vars) == EnvMapOf(other)
  {
  }

  lemma TagsDecide(c: ClaimInput, d: ClaimInput)
    requires TagFilesOf(c).Ok? && TagFilesOf(c) == TagFilesOf(d) && c.slug == d.slug
    ensures TagsOf(c) == TagsOf(d)
  {
    var s := if c.stages.staging.enabled then Staging else Prod;
    PathsDiffer(c.slug);
    assert TagPath(c.slug, s) in TagFilesOf(c).value && TagFilesOf(c).value[TagPath(c.slug, s)] == TagsOf(c);
    assert TagPath(d.slug, s) in TagFilesOf(d).value && TagFilesOf(d).value[TagPath(d.slug, s)] == TagsOf(d);
  }

  lemma HeadDecides(c: ClaimInput, d: ClaimInput, today: string)
    requires App(c, today) == App(d, today)
    ensures SameHead(c, d)
  {
    assert AuthOf(c) == AuthOf(d);
  }

  /** The claim and the tag files say every setting of the enabled components: equal files, equal settings. */
  lemma RenderLossless(c: ClaimInput, d: ClaimInput, today: string)
    requires TagFilesOf(c).Ok? && App(c, today) == App(d, today) && TagFilesOf(c) == TagFilesOf(d)
    ensures SameHead(c, d)
    ensures SameStage(c, d, Staging) && SameStage(c, d, Prod)
    ensures c.has.backend ==> SameComponent(c.components.backend, d.components.backend)
    ensures c.has.frontend ==> SameComponent(c.components.frontend, d.components.frontend)
  {
    var a, b := App(c, today), App(d, today);
    HeadDecides(c, d, today);
    TagsDecide(c, d);
    assert a.stages == b.stages && a.images == b.images && a.resources == b.resources;
    StageDecides(c, d, Staging);
    StageDecides(c, d, Prod);
    BlocksDecide(c, d);
    if c.has.backend {
      SidesDecide(c.components.backend, d.components.backend);
    }
    if c.has.frontend {
      SidesDecide(c.components.frontend, d.components.frontend);
    }
  }

  lemma BlocksDecide(c: ClaimInput, d: ClaimInput)
    requires SetSides(Sides(ComponentIf(c, Backend), ComponentIf(c, Frontend)))
             == SetSides(Sides(ComponentIf(d, Backend), ComponentIf(d, Frontend)))
    ensures ComponentIf(c, Backend) == ComponentIf(d, Backend) && ComponentIf(c, Frontend) == ComponentIf(d, Frontend)
  {
  }

  // -------------------------------------------------------- every setting in its place

  /** The head of the rendered claim, key by key. */
  lemma HeadRendered(c: ClaimInput, today: string)
    ensures var a := App(c, today);
            && a.apiVersion == "platform.meko.dev/v1" && a.kind == "App" && a.slug == c.slug
            && a.technical == c.technical && a.organizational == c.organizational
            && a.repoUrl == c.repoUrl && a.has == c.has && a.websocket == c.websocket
            && a.sharedSecrets == c.sharedSecrets
            && (c.createdAt != "" ==> a.createdAt == c.createdAt) && (c.createdAt == "" ==> a.createdAt == today)
    ensures var a := App(c, today);
            && (a.auth.Some? <==> c.authScope != "" || c.clientIds.staging != "" || c.clientIds.prod != "")
            && (a.auth.Some? ==>
                  && a.auth.value.scope == c.authScope
                  && (a.auth.value.clientIds.Some? <==> c.clientIds.staging != "" || c.clientIds.prod != "")
                  && (a.auth.value.clientIds.Some? ==>
                        && a.auth.value.clientIds.value.staging == c.clientIds.staging
                        && a.auth.value.clientIds.value.prod == c.clientIds.prod))
  {
  }

  /** What a rendered stage says, given the form's stage. */
  predicate StageSays(r: ClaimStage, x: StageInput, has: Sides<bool>) {
    && r.host == x.host
    && (r.enabled == Some(false) <==> !x.enabled) && r.enabled != Some(true)
    && EnvSays(r, Backend, if has.backend then x.env.backend else [])
    && EnvSays(r, Frontend, if has.frontend then x.env.frontend else [])
  }

  /** The environment a rendered stage has for a component; one that is not written is empty. */
  function StageEnvAt(r: ClaimStage, x: Component): EnvMap {
    if r.components.Some? && r.components.value.Get(x).Some? then r.components.value.Get(x).value else map[]
  }

  predicate EnvSays(r: ClaimStage, x: Component, vars: seq<EnvVar>) {
    Distinct(vars) ==>
      && |StageEnvAt(r, x)| == |vars|
      && forall i :: 0 <= i < |vars| ==> Carries(StageEnvAt(r, x), vars[i])
  }

  lemma StageRenders(c: ClaimInput, s: Stage)
    ensures StageSays(StageOf(c, s), c.stages.Get(s), c.has)
  {
    var x := c.stages.Get(s);
    StageEnvRenders(c, s, Backend, if c.has.backend then x.env.backend else []);
    StageEnvRenders(c, s, Frontend, if c.has.frontend then x.env.frontend else []);
  }

  lemma StageEnvRenders(c: ClaimInput, s: Stage, x: Component, vars: seq<EnvVar>)
    requires vars == if c.has.Get(x) then c.stages.Get(s).env.Get(x) else []
    ensures EnvSays(StageOf(c, s), x, vars)
  {
    assert StageEnvAt(StageOf(c, s), x) == EnvMapOf(vars);
    if Distinct(vars) {
      EnvMapLossless(vars);
    }
  }

  /** Each stage is rendered under its own key; only prod asks for a manual promotion. */
  lemma StagesRendered(c: ClaimInput, today: string)
    ensures StageSays(App(c, today).stages.staging, c.stages.staging, c.has)
    ensures StageSays(App(c, today).stages.prod, c.stages.prod, c.has)
    ensures !App(c, today).stages.staging.manualPromotion && App(c, today).stages.prod.manualPromotion
  {
    StageRenders(c, Staging);
    StageRenders(c, Prod);
  }

  /** The runtime settings of a component; what is not written is empty. */
  function BlockAt(a: Claim, x: Component): ClaimComponent {
    if a.components.Some? && a.components.value.Get(x).Some? then a.components.value.Get(x).value
    else ClaimComponent(0, map[], [], None)
  }

  function PathOr(p: Option<string>): string { if p.Some? then p.value else "" }

  /** What a rendered block says, given the form's component. */
  predicate BlockSays(k: ClaimComponent, b: ComponentInput) {
    && k.port == b.port && k.envFrom == b.envFrom
    && (Distinct(b.env) ==> |k.env| == |b.env| && forall i :: 0 <= i < |b.env| ==> Carries(k.env, b.env[i]))
    && (if k.probes.Some? then
          && PathOr(k.probes.value.liveness) == b.probes.liveness
          && PathOr(k.probes.value.readiness) == b.probes.readiness
          && PathOr(k.probes.value.startup) == b.probes.startup
        else b.probes == Probes("", "", ""))
  }

  lemma BlockRenders(b: ComponentInput, k: ClaimComponent)
    requires ComponentOf(b) == Some(k) || (ComponentOf(b) == None && k == ClaimComponent(0, map[], [], None))
    ensures BlockSays(k, b)
  {
    if Distinct(b.env) {
      EnvMapLossless(b.env);
    }
  }

  lemma BlockIsAt(c: ClaimInput, today: string, x: Component)
    ensures BlockAt(App(c, today), x) ==
            match ComponentIf(c, x) case Some(k) => k case None => ClaimComponent(0, map[], [], None)
  {
  }

  /** Each enabled component is rendered under its own key, and a disabled one not at all. */
  lemma ComponentRendered(c: ClaimInput, today: string, x: Component)
    ensures var a := App(c, today);
            if c.has.Get(x) then
              && a.images.Get(x) == Some(c.components.Get(x).repository)
              && a.resources.Get(x).Some?
              && a.resources.Get(x).value.memory == c.components.Get(x).memory
              && a.resources.Get(x).value.cpu == c.components.Get(x).cpu
              && BlockSays(BlockAt(a, x), c.components.Get(x))
            else
              a.images.Get(x) == None && a.resources.Get(x) == None && BlockAt(a, x) == ClaimComponent(0, map[], [], None)
  {
    BlockIsAt(c, today, x);
    if c.has.Get(x) {
      BlockRenders(c.components.Get(x), BlockAt(App(c, today), x));
    }
  }
}
