/**
 The claim form (internal/http/handlers/claim.go): from submitted fields to a claim,
 and what the settings of a component that is not enabled can influence: nothing.
 */
module ClaimForm {
  import opened ClaimRender
  import opened ClaimValidate
  import opened Claims
  import opened EnvLines
  import opened Text
  import opened Wrappers
  import Decimal

  // ---------------------------------------------------------------- submitted fields

  /** The fields of one component as submitted; an absent field is empty. */
  datatype ComponentFields = ComponentFields(
    repository: string,
    tag: string,
    memory: string,
    cpu: string,
    port: string,
    env: string,
    envFrom: string,
    probes: Probes<string>)

  datatype StageFields = StageFields(host: string, enabled: string, env: Sides<string>)

  datatype Form = Form(
    slug: string,
    repoUrl: string,
    has: Sides<string>,
    components: Sides<ComponentFields>,
    stages: Stages<StageFields>,
    authScope: string,
    websocket: string,
    sharedSecrets: string)

  datatype FormError =
    | PortNotANumber(x: Component, port: string)
    | ComponentEnvLine(x: Component, line: LineError)
    | StageEnvLine(s: Stage, x: Component, line: LineError)

  /** The zero value of a component that the form leaves alone. */
  const BLANK := ComponentInput("", "", "", "", 0, [], [], Probes("", "", ""))

  predicate Checked(field: string) { field != "" }

  function Enabled(f: Form): Sides<bool> { Sides(Checked(f.has.backend), Checked(f.has.frontend)) }

  // --------------------------------------------------------------------- what it means

  function PortOf(text: string): Option<int> {
    if text == "" then Some(0) else Decimal.ParseInt(text)
  }

  function ComponentFrom(x: Component, f: ComponentFields): Result<ComponentInput, FormError> {
    match PortOf(Trim(f.port))
    case None => Err(PortNotANumber(x, Trim(f.port)))
    case Some(port) =>
      match Parse(f.env)
      case Err(line) => Err(ComponentEnvLine(x, line))
      case Ok(env) =>
        Ok(ComponentInput(Trim(f.repository), Trim(f.tag), Trim(f.memory), Trim(f.cpu), port, env,
          NameList(Trim(f.envFrom)), Probes(Trim(f.probes.liveness), Trim(f.probes.readiness), Trim(f.probes.startup))))
  }

  function ComponentIfChecked(f: Form, x: Component): Result<ComponentInput, FormError> {
    if Enabled(f).Get(x) then ComponentFrom(x, f.components.Get(x)) else Ok(BLANK)
  }

  function StageEnvIfChecked(f: Form, s: Stage, x: Component): Result<seq<EnvVar>, FormError> {
    if !Enabled(f).Get(x) then Ok([])
    else
      match Parse(f.stages.Get(s).env.Get(x))
      case Err(line) => Err(StageEnvLine(s, x, line))
      case Ok(env) => Ok(env)
  }

  function StageFrom(f: Form, s: Stage): Result<StageInput, FormError> {
    match StageEnvIfChecked(f, s, Backend)
    case Err(e) => Err(e)
    case Ok(backend) =>
      match StageEnvIfChecked(f, s, Frontend)
      case Err(e) => Err(e)
      case Ok(frontend) =>
        var g := f.stages.Get(s);
        Ok(StageInput(Trim(g.host), Checked(g.enabled), Sides(backend, frontend)))
  }

  /** The claim of a form, or the first error in it. */
  function ClaimFrom(f: Form, login: string, ids: Stages<string>): Result<ClaimInput, FormError> {
    match ComponentIfChecked(f, Backend)
    case Err(e) => Err(e)
    case Ok(backend) =>
      match ComponentIfChecked(f, Frontend)
      case Err(e) => Err(e)
      case Ok(frontend) =>
        match StageFrom(f, Staging)
        case Err(e) => Err(e)
        case Ok(staging) =>
          match StageFrom(f, Prod)
          case Err(e) => Err(e)
          case Ok(prod) =>
            Ok(ClaimInput(Trim(f.slug), login, login, Trim(f.repoUrl), Enabled(f), Sides(backend, frontend),
              Stages(staging, prod), Trim(f.authScope), ids, Checked(f.websocket), NameList(Trim(f.sharedSecrets)), ""))
  }

  // ------------------------------------------------------------------------ the parser

  method ParseComponent(x: Component, f: ComponentFields) returns (r: Result<ComponentInput, FormError>)
    ensures r == ComponentFrom(x, f)
  {
    var envFrom := ParseNameList(Trim(f.envFrom));
    var out := ComponentInput(Trim(f.repository), Trim(f.tag), Trim(f.memory), Trim(f.cpu), 0, [], envFrom,
      Probes(Trim(f.probes.liveness), Trim(f.probes.readiness), Trim(f.probes.startup)));
    if Trim(f.port) != "" {
      var port := Decimal.ParseInt(Trim(f.port));
      if port.None? {
        return Err(PortNotANumber(x, Trim(f.port)));
      }
      out := out.(port := port.value);
    }
    var env := ParseEnvLines(f.env);
    if env.Err? {
      return Err(ComponentEnvLine(x, env.error));
    }
    out := out.(env := env.value);
    return Ok(out);
  }

  method ParseStage(f: Form, s: Stage) returns (r: Result<StageInput, FormError>)
    ensures r == StageFrom(f, s)
  {
    var g := f.stages.Get(s);
    var out := StageInput(Trim(g.host), Checked(g.enabled), Sides([], []));
    if Checked(f.has.backend) {
      var env := ParseEnvLines(g.env.backend);
      if env.Err? {
        return Err(StageEnvLine(s, Backend, env.error));
      }
      out := out.(env := out.env.(backend := env.value));
    }
    if Checked(f.has.frontend) {
      var env := ParseEnvLines(g.env.frontend);
      if env.Err? {
        return Err(StageEnvLine(s, Frontend, env.error));
      }
      out := out.(env := out.env.(frontend := env.value));
    }
    return Ok(out);
  }

  /** `parseClaimForm`; the two fresh client ids are given. */
  method ParseClaimForm(f: Form, login: string, ids: Stages<string>) returns (r: Result<ClaimInput, FormError>)
    ensures r == ClaimFrom(f, login, ids)
  {
    var secrets := ParseNameList(Trim(f.sharedSecrets));
    var blankStage := StageInput("", false, Sides([], []));
    var c := ClaimInput(Trim(f.slug), login, login, Trim(f.repoUrl), Enabled(f), Sides(BLANK, BLANK),
      Stages(blankStage, blankStage), Trim(f.authScope), ids, Checked(f.websocket), secrets, "");
    if c.has.backend {
      var backend := ParseComponent(Backend, f.components.backend);
      if backend.Err? {
        return Err(backend.error);
      }
      c := c.(components := c.components.(backend := backend.value));
    }
    if c.has.frontend {
      var frontend := ParseComponent(Frontend, f.components.frontend);
      if frontend.Err? {
        return Err(frontend.error);
      }
      c := c.(components := c.components.(frontend := frontend.value));
    }
    var staging := ParseStage(f, Staging);
    if staging.Err? {
      return Err(staging.error);
    }
    c := c.(stages := c.stages.(staging := staging.value));
    var prod := ParseStage(f, Prod);
    if prod.Err? {
      return Err(prod.error);
    }
    c := c.(stages := c.stages.(prod := prod.value));
    return Ok(c);
  }

  // ------------------------------------------------------------ every field in its place

  /** What a claim's component says, given the checked form's fields. */
  predicate ComponentSaysForm(b: ComponentInput, f: ComponentFields) {
    && b.repository == Trim(f.repository) && b.tag == Trim(f.tag)
    && b.memory == Trim(f.memory) && b.cpu == Trim(f.cpu)
    && (Trim(f.port) == "" ==> b.port == 0)
    && (Trim(f.port) != "" ==> Decimal.ParseInt(Trim(f.port)) == Some(b.port))
    && Parse(f.env) == Ok(b.env) && b.envFrom == NameList(Trim(f.envFrom))
    && b.probes.liveness == Trim(f.probes.liveness)
    && b.probes.readiness == Trim(f.probes.readiness)
    && b.probes.startup == Trim(f.probes.startup)
  }

  predicate StageSaysForm(x: StageInput, g: StageFields, has: Sides<string>) {
    && x.host == Trim(g.host) && (x.enabled <==> g.enabled != "")
    && (if has.backend != "" then Parse(g.env.backend) == Ok(x.env.backend) else x.env.backend == [])
    && (if has.frontend != "" then Parse(g.env.frontend) == Ok(x.env.frontend) else x.env.frontend == [])
  }

  /** Each setting of a parsed claim comes from its own field of the form. */
  lemma FormSays(f: Form, login: string, ids: Stages<string>)
    requires ClaimFrom(f, login, ids).Ok?
    ensures var c := ClaimFrom(f, login, ids).value;
            && c.slug == Trim(f.slug) && c.technical == login && c.organizational == login
            && c.repoUrl == Trim(f.repoUrl) && c.authScope == Trim(f.authScope)
            && (c.has.backend <==> f.has.backend != "") && (c.has.frontend <==> f.has.frontend != "")
            && (c.websocket <==> f.websocket != "") && c.sharedSecrets == NameList(Trim(f.sharedSecrets))
            && c.clientIds == ids && c.createdAt == ""
            && StageSaysForm(c.stages.staging, f.stages.staging, f.has)
            && StageSaysForm(c.stages.prod, f.stages.prod, f.has)
    ensures var c := ClaimFrom(f, login, ids).value;
            && (f.has.backend != "" ==> ComponentSaysForm(c.components.backend, f.components.backend))
            && (f.has.frontend != "" ==> ComponentSaysForm(c.components.frontend, f.components.frontend))
  {
    assert StageFrom(f, Staging).Ok? && StageFrom(f, Prod).Ok?;
  }

  /** A refused form has, at a checked component, the defect the error names. */
  lemma FormErrors(f: Form, login: string, ids: Stages<string>)
    requires ClaimFrom(f, login, ids).Err?
    ensures match ClaimFrom(f, login, ids).error
            case PortNotANumber(x, port) =>
              && f.has.Get(x) != "" && port == Trim(f.components.Get(x).port)
              && port != "" && Decimal.ParseInt(port) == None
            case ComponentEnvLine(x, line) => f.has.Get(x) != "" && Parse(f.components.Get(x).env) == Err(line)
            case StageEnvLine(s, x, line) => f.has.Get(x) != "" && Parse(f.stages.Get(s).env.Get(x)) == Err(line)
  {
    StageErrors(f, Staging);
    StageErrors(f, Prod);
  }

  lemma StageErrors(f: Form, s: Stage)
    ensures StageFrom(f, s).Err? ==>
              var e := StageFrom(f, s).error;
              e.StageEnvLine? && e.s == s && f.has.Get(e.x) != "" && Parse(f.stages.Get(s).env.Get(e.x)) == Err(e.line)
  {
  }

  // -------------------------------------------------- a disabled component has no influence

  function VisibleEnv(c: ClaimInput, s: StageInput): StageInput {
    s.(env := Sides(if c.has.backend then s.env.backend else [], if c.has.frontend then s.env.frontend else []))
  }

  /** The claim with every setting of a component that is not enabled taken away. */
  function Visible(c: ClaimInput): ClaimInput {
    c.(components := Sides(if c.has.backend then c.components.backend else BLANK,
                           if c.has.frontend then c.components.frontend else BLANK),
       stages := Stages(VisibleEnv(c, c.stages.staging), VisibleEnv(c, c.stages.prod)))
  }

  lemma VerdictOfVisible(c: ClaimInput, w: World)
    ensures ClaimErrorOf(Visible(c), w) == ClaimErrorOf(c, w)
  {
    var v, known := Visible(c), Names(c.sharedSecrets);
    assert HeadError(v, w) == HeadError(c, w) && TailError(v) == TailError(c);
    BodyOfVisible(c, known);
  }

  lemma BodyOfVisible(c: ClaimInput, known: set<string>)
    ensures BodyError(Visible(c), known) == BodyError(c, known)
  {
    forall x: Component ensures ComponentIfEnabled(Visible(c), x, known) == ComponentIfEnabled(c, x, known) {}
    forall s: Stage, x: Component
      ensures StageEnvIfEnabled(Visible(c), s, x, known) == StageEnvIfEnabled(c, s, x, known)
    {}
  }

  lemma RenderOfVisible(c: ClaimInput, today: string)
    ensures App(Visible(c), today) == App(c, today)
    ensures TagFilesOf(Visible(c)) == TagFilesOf(c)
  {
    forall s: Stage ensures StageOf(Visible(c), s) == StageOf(c, s) {}
  }

  /** Claims that differ only in settings of disabled components: same verdict, same files. */
  lemma DisabledHasNoInfluence(c: ClaimInput, d: ClaimInput, w: World, today: string)
    requires Visible(c) == Visible(d)
    ensures ClaimErrorOf(c, w) == ClaimErrorOf(d, w)
    ensures App(c, today) == App(d, today) && TagFilesOf(c) == TagFilesOf(d)
  {
    VerdictOfVisible(c, w);
    VerdictOfVisible(d, w);
    RenderOfVisible(c, today);
    RenderOfVisible(d, today);
  }

  const NO_FIELDS := ComponentFields("", "", "", "", "", "", "", Probes("", "", ""))

  function VisibleStageFields(f: Form, g: StageFields): StageFields {
    g.(env := Sides(if Enabled(f).backend then g.env.backend else "", if Enabled(f).frontend then g.env.frontend else ""))
  }

  /** The form with every field of an unchecked component cleared. */
  function VisibleFields(f: Form): Form {
    f.(components := Sides(if Enabled(f).backend then f.components.backend else NO_FIELDS,
                           if Enabled(f).frontend then f.components.frontend else NO_FIELDS),
       stages := Stages(VisibleStageFields(f, f.stages.staging), VisibleStageFields(f, f.stages.prod)))
  }

  lemma FormOfVisible(f: Form, login: string, ids: Stages<string>)
    ensures ClaimFrom(VisibleFields(f), login, ids) == ClaimFrom(f, login, ids)
  {
    forall x: Component ensures ComponentIfChecked(VisibleFields(f), x) == ComponentIfChecked(f, x) {}
    forall s: Stage ensures StageFrom(VisibleFields(f), s) == StageFrom(f, s) {}
  }

  /** Leftover fields of an unchecked component neither fail the form nor reach the claim. */
  lemma UncheckedHasNoInfluence(f: Form, g: Form, login: string, ids: Stages<string>)
    requires VisibleFields(f) == VisibleFields(g)
    ensures ClaimFrom(f, login, ids) == ClaimFrom(g, login, ids)
    ensures ClaimFrom(f, login, ids).Ok? ==>
              Visible(ClaimFrom(f, login, ids).value) == ClaimFrom(f, login, ids).value
  {
    FormOfVisible(f, login, ids);
    FormOfVisible(g, login, ids);
  }

  // ------------------------------------------------- errors a submitted form cannot cause

  lemma {:induction false} SecretsNeverTwice(names: seq<string>, i: nat, known: set<string>)
    requires i <= |names| && NewFrom(names, i, known)
    ensures NoTwice(SecretsError(names, i, known))
    decreases |names| - i
  {
    if i < |names| {
      NewStep(names, i, known);
      SecretsNeverTwice(names, i + 1, known + {names[i]});
    }
  }

  lemma {:induction false} EnvFromNeverTwice(x: Component, names: seq<string>, i: nat, seen: set<string>, known: set<string>)
    requires i <= |names| && NewFrom(names, i, seen)
    ensures NoTwice(EnvFromError(x, names, i, seen, known))
    decreases |names| - i
  {
    if i < |names| {
      NewStep(names, i, seen);
      EnvFromNeverTwice(x, names, i + 1, seen + {names[i]}, known);
    }
  }

  lemma {:induction false} VarsNeverTwice(vars: seq<EnvVar>, i: nat, seen: set<string>, known: set<string>)
    requires i <= |vars| && NewVars(vars, i, seen)
    ensures VarsError(vars, i, seen, known).Some? ==> !VarsError(vars, i, seen, known).value.VarTwice?
    decreases |vars| - i
  {
    if i < |vars| {
      NewVarsStep(vars, i, seen);
      VarsNeverTwice(vars, i + 1, seen + {vars[i].name}, known);
    }
  }

  /** A complaint that something is listed or set twice. */
  predicate IsTwice(e: ClaimError) {
    e.SecretTwice? || e.EnvFromTwice? || (e.BadEnv? && e.env.VarTwice?)
  }

  predicate NoTwice(v: Verdict) { v.Some? ==> !IsTwice(v.value) }

  /** Every list of the claim is free of repeats. */
  predicate Repeatless(c: ClaimInput) {
    && NoRepeat(c.sharedSecrets)
    && (forall x: Component :: NoRepeat(c.components.Get(x).envFrom) && Distinct(c.components.Get(x).env))
    && (forall s: Stage, x: Component :: Distinct(c.stages.Get(s).env.Get(x)))
  }

  lemma BlockNeverTwice(x: Component, b: ComponentInput)
    ensures NoTwice(BlockError(x, b))
  {
    assert NoTwice(ImageError(x, b)) && NoTwice(ProbesError(x, b.probes));
    LimitNeverTwice(x, b);
  }

  lemma LimitNeverTwice(x: Component, b: ComponentInput)
    ensures NoTwice(LimitError(x, b))
  {
  }

  lemma EnvNeverTwice(place: EnvPlace, vars: seq<EnvVar>, known: set<string>)
    requires Distinct(vars)
    ensures NoTwice(At(place, EnvErrorOf(vars, known)))
  {
    if |vars| <= MAX_ENV_VARS {
      VarsNeverTwice(vars, 0, {}, known);
    }
  }

  lemma ComponentNeverTwice(x: Component, b: ComponentInput, known: set<string>)
    requires NoRepeat(b.envFrom) && Distinct(b.env)
    ensures NoTwice(ComponentError(x, b, known))
  {
    BlockNeverTwice(x, b);
    EnvNeverTwice(ComponentEnv(x), b.env, known);
    EnvFromNoTwice(x, b.envFrom, known);
  }

  lemma EnvFromNoTwice(x: Component, names: seq<string>, known: set<string>)
    requires NoRepeat(names)
    ensures NoTwice(EnvFromErrorOf(x, names, known))
  {
    if |names| <= MAX_ENV_FROM {
      EnvFromNeverTwice(x, names, 0, {}, known);
    }
  }

  lemma BodyNeverTwice(c: ClaimInput, known: set<string>)
    requires Repeatless(c)
    ensures NoTwice(BodyError(c, known))
  {
    forall x: Component ensures NoTwice(ComponentIfEnabled(c, x, known)) {
      ComponentNeverTwice(x, c.components.Get(x), known);
    }
    forall s: Stage, x: Component ensures NoTwice(StageEnvIfEnabled(c, s, x, known)) {
      EnvNeverTwice(StageEnv(s, x), c.stages.Get(s).env.Get(x), known);
    }
  }

  lemma FormIsRepeatless(f: Form, login: string, ids: Stages<string>)
    requires ClaimFrom(f, login, ids).Ok?
    ensures Repeatless(ClaimFrom(f, login, ids).value)
  {
    var c := ClaimFrom(f, login, ids).value;
    forall x: Component ensures NoRepeat(c.components.Get(x).envFrom) && Distinct(c.components.Get(x).env) {
      if Enabled(f).Get(x) {
        ParseCanonical(f.components.Get(x).env);
      }
    }
    forall s: Stage, x: Component ensures Distinct(c.stages.Get(s).env.Get(x)) {
      if Enabled(f).Get(x) {
        ParseCanonical(f.stages.Get(s).env.Get(x));
      }
    }
  }

  /** The parser already refuses or drops repeats, so `Validate` never meets one from the form. */
  lemma FormNeverTwice(f: Form, login: string, ids: Stages<string>, w: World)
    requires ClaimFrom(f, login, ids).Ok?
    ensures NoTwice(ClaimErrorOf(ClaimFrom(f, login, ids).value, w))
  {
    FormIsRepeatless(f, login, ids);
    NeverTwice(ClaimFrom(f, login, ids).value, w);
  }

  lemma NeverTwice(c: ClaimInput, w: World)
    requires Repeatless(c)
    ensures NoTwice(ClaimErrorOf(c, w))
  {
    SecretsNeverTwice(c.sharedSecrets, 0, {});
    HeadNeverTwice(c, w);
    BodyNeverTwice(c, Names(c.sharedSecrets));
  }

  lemma HeadNeverTwice(c: ClaimInput, w: World)
    requires NoTwice(SecretsError(c.sharedSecrets, 0, {}))
    ensures NoTwice(HeadError(c, w))
  {
  }

  // --------------------------------------------------------------------- files of the PR

  /** A file of the registry before it is encoded. */
  datatype File = AppFile(claim: Claim) | Tags(tags: TagFile)

  function AppPath(slug: string): string { "apps/" + slug + ".yaml" }

  /** `claimFiles`: the tag files and the claim. */
  method ClaimFiles(c: ClaimInput, today: string) returns (r: Result<map<string, File>, TagFilesError>)
    ensures match TagFilesOf(c)
            case Err(e) => r == Err(e)
            case Ok(tags) => r.Ok? && r.value == FilesOf(c, today, tags)
  {
    var claim := ToApp(c, today);
    var tags := TagFiles(c);
    if tags.Err? {
      return Err(tags.error);
    }
    var files := map path | path in tags.value :: Tags(tags.value[path]);
    files := files[AppPath(c.slug) := AppFile(claim)];
    return Ok(files);
  }

  function FilesOf(c: ClaimInput, today: string, tags: map<string, TagFile>): map<string, File> {
    (map path | path in tags :: Tags(tags[path]))[AppPath(c.slug) := AppFile(App(c, today))]
  }

  /** The claim's own file takes the place of no tag file. */
  lemma FilesApart(c: ClaimInput, today: string)
    requires TagFilesOf(c).Ok?
    ensures AppPath(c.slug) !in TagFilesOf(c).value
    ensures |FilesOf(c, today, TagFilesOf(c).value)| == |TagFilesOf(c).value| + 1
    ensures forall p :: p in FilesOf(c, today, TagFilesOf(c).value) ==> p != "" && p[0] != '/'
  {
    var tags := TagFilesOf(c).value;
    assert AppPath(c.slug)[0] == 'a' && TagPath(c.slug, Staging)[0] == 't' && TagPath(c.slug, Prod)[0] == 't';
    forall p | p in tags ensures p != "" && p[0] == 't' {
      TagFilesExactly(c, p);
    }
    var files := FilesOf(c, today, tags);
    assert files.Keys == tags.Keys + {AppPath(c.slug)};
  }
}
