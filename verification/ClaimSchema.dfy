/**
 The registry's rules for a claim: schemas/app.schema.json and schemas/tag.schema.json
 (JSON Schema draft-07 Validation, sections 6.3 to 6.6) and the extra rules of the
 validate-claims script, as predicates on what is rendered; and the promise of
 `Validate` that every claim it accepts keeps them.
 */
module ClaimSchema {
  import opened ClaimRender
  import opened ClaimValidate
  import opened Claims
  import opened EnvLines
  import opened Patterns
  import opened Text
  import opened Wrappers
  import Calendar
  import Quantity

  // ------------------------------------------------------------------- the app schema

  /** `definitions.envMap`: one entry. */
  predicate EnvEntryOk(name: string, v: Written) {
    && |name| <= 128 && FullMatch(EnvNamePattern(), name)
    && match v
       case Text(text) => |text| <= 4096
       case Reference(secret, key) =>
         FullMatch(K8sNamePattern(), secret) && FullMatch(SecretKeyPattern(), key) && |key| <= 253
  }

  predicate EnvMapOk(m: EnvMap) {
    |m| <= 50 && forall n :: n in m ==> EnvEntryOk(n, Marshal(m[n]))
  }

  /** `definitions.envFromList`. */
  predicate EnvFromListOk(names: seq<string>) {
    && |names| <= 10 && NoRepeat(names)
    && forall i :: 0 <= i < |names| ==> FullMatch(K8sNamePattern(), names[i])
  }

  predicate ProbePathOk(p: Option<string>) {
    p.Some? ==> |p.value| <= 200 && FullMatch(ProbePathPattern(), p.value)
  }

  /** `definitions.component`; a port of 0, an empty map and an empty list are not written. */
  predicate ComponentBlockOk(x: ClaimComponent) {
    && (x.port == 0 || 1024 <= x.port <= 65535)
    && EnvMapOk(x.env) && EnvFromListOk(x.envFrom)
    && (x.probes.Some? ==>
          ProbePathOk(x.probes.value.liveness) && ProbePathOk(x.probes.value.readiness)
          && ProbePathOk(x.probes.value.startup))
  }

  /** One label of a host name (section 2.1 of RFC 1123). */
  predicate HostLabel(part: string) {
    && 1 <= |part| <= 63 && part[0] != '-' && part[|part| - 1] != '-'
    && forall i :: 0 <= i < |part| ==> IsAlnum(part[i]) || part[i] == '-'
  }

  /** `format: hostname` with the length limits of `definitions.stage`. */
  predicate Hostname(host: string) {
    var parts := Split(host, '.');
    3 <= |host| <= 253 && forall i :: 0 <= i < |parts| ==> HostLabel(parts[i])
  }

  predicate StageBlockOk(s: ClaimStage) {
    && Hostname(s.host)
    && (s.components.Some? ==>
          StageComponentOk(s.components.value.backend) && StageComponentOk(s.components.value.frontend))
  }

  predicate StageComponentOk(m: Option<EnvMap>) { m.Some? ==> EnvMapOk(m.value) }

  predicate ImageOk(repository: Option<string>) {
    repository.Some? ==> 3 <= |repository.value| <= 253
  }

  predicate ResourceOk(r: Option<Resource>) {
    r.Some? ==> FullMatch(MemoryPattern(), r.value.memory) && FullMatch(CpuPattern(), r.value.cpu)
  }

  predicate SharedSecretsOk(names: seq<string>) {
    NoRepeat(names) && forall i :: 0 <= i < |names| ==> FullMatch(SharedSecretPattern(), names[i])
  }

  predicate ClientIdWritten(id: string) { id != "" ==> FullMatch(ClientIdPattern(), id) }

  /** The `auth` block; an empty scope and an empty id are not written. */
  predicate AuthOk(a: Auth) {
    && (a.scope != "" ==> 1 <= |a.scope| <= 128 && FullMatch(AuthScopePattern(), a.scope))
    && (a.clientIds.Some? ==>
          && a.clientIds.value != Stages("", "")
          && ClientIdWritten(a.clientIds.value.staging) && ClientIdWritten(a.clientIds.value.prod))
  }

  predicate SomeSide<T>(s: Sides<Option<T>>) { s.backend.Some? || s.frontend.Some? }

  predicate OwnersAndRepoOk(a: Claim) {
    && FullMatch(SlugPattern(), a.slug)
    && FullMatch(LoginPattern(), a.technical) && FullMatch(LoginPattern(), a.organizational)
    && HasPrefix(a.repoUrl, "https://")
  }

  predicate BlocksOk(a: Claim) {
    && SomeSide(a.images) && ImageOk(a.images.backend) && ImageOk(a.images.frontend)
    && SomeSide(a.resources) && ResourceOk(a.resources.backend) && ResourceOk(a.resources.frontend)
    && (a.components.Some? ==>
          ComponentOptionOk(a.components.value.backend) && ComponentOptionOk(a.components.value.frontend))
  }

  predicate ComponentOptionOk(x: Option<ClaimComponent>) { x.Some? ==> ComponentBlockOk(x.value) }

  /** The whole of app.schema.json, for the keys a rendered claim can have. */
  predicate AppSchema(a: Claim) {
    && a.apiVersion == "platform.meko.dev/v1" && a.kind == "App"
    && OwnersAndRepoOk(a)
    && StageBlockOk(a.stages.staging) && StageBlockOk(a.stages.prod)
    && BlocksOk(a)
    && (a.auth.Some? ==> AuthOk(a.auth.value))
    && SharedSecretsOk(a.sharedSecrets)
    && Calendar.Parse(a.createdAt).Some?
  }

  /** tag.schema.json. */
  predicate TagSchema(t: TagFile) {
    && SomeSide(t)
    && (t.backend.Some? ==> FullMatch(ImageTagPattern(), t.backend.value))
    && (t.frontend.Some? ==> FullMatch(ImageTagPattern(), t.frontend.value))
  }

  // ------------------------------------------------------------------ the script's rules

  predicate OnlyEnabled<T>(s: Option<Sides<Option<T>>>, has: Sides<bool>) {
    s.Some? ==> (s.value.backend.Some? ==> has.backend) && (s.value.frontend.Some? ==> has.frontend)
  }

  /** A block for every enabled component and for no other. */
  predicate ExactlyEnabled<T>(s: Sides<Option<T>>, has: Sides<bool>) {
    s.backend.Some? == has.backend && s.frontend.Some? == has.frontend
  }

  predicate RefsKnown(m: EnvMap, names: seq<string>) {
    forall n :: n in m && Marshal(m[n]).Reference? ==> Marshal(m[n]).secret in names
  }

  predicate StageRefsKnown(s: ClaimStage, names: seq<string>) {
    s.components.Some? ==>
      && (s.components.value.backend.Some? ==> RefsKnown(s.components.value.backend.value, names))
      && (s.components.value.frontend.Some? ==> RefsKnown(s.components.value.frontend.value, names))
  }

  predicate ComponentRefsKnown(x: Option<ClaimComponent>, names: seq<string>) {
    x.Some? ==> RefsKnown(x.value.env, names) && forall n :: n in x.value.envFrom ==> n in names
  }

  predicate WithinCaps(r: Option<Resource>) {
    r.Some? ==>
      && 0.0 < Quantity.QuantityValue(r.value.memory) <= Quantity.MAX_MEMORY_BYTES * Quantity.SLACK
      && 0.0 < Quantity.QuantityValue(r.value.cpu) <= Quantity.MAX_CPU_CORES * Quantity.SLACK
  }

  predicate Active(s: ClaimStage) { s.enabled != Some(false) }

  predicate SecretsListed(a: Claim) {
    && StageRefsKnown(a.stages.staging, a.sharedSecrets) && StageRefsKnown(a.stages.prod, a.sharedSecrets)
    && (a.components.Some? ==>
          && ComponentRefsKnown(a.components.value.backend, a.sharedSecrets)
          && ComponentRefsKnown(a.components.value.frontend, a.sharedSecrets))
  }

  /** Blocks for the enabled components and no others, and at least one stage that is not disabled. */
  predicate EnablementKept(a: Claim) {
    && ExactlyEnabled(a.images, a.has) && ExactlyEnabled(a.resources, a.has)
    && OnlyEnabled(a.components, a.has)
    && OnlyEnabled(a.stages.staging.components, a.has) && OnlyEnabled(a.stages.prod.components, a.has)
    && (Active(a.stages.staging) || Active(a.stages.prod))
    && a.stages.staging.enabled != Some(true) && a.stages.prod.enabled != Some(true)
  }

  /** Secrets and quantities. */
  predicate ScriptRules(a: Claim) {
    && EnablementKept(a)
    && SecretsListed(a)
    && WithinCaps(a.resources.backend) && WithinCaps(a.resources.frontend)
  }

  // ------------------------------------------------------- the two sides of each check

  /** A limit on bytes is a limit on characters. */
  lemma ByteLenAtLeast(s: string)
    ensures |s| <= ByteLen(s)
  {
    ByteLenAscii(s);
  }

  lemma VarEntry(v: EnvVar, known: set<string>)
    requires VarOk(v, known)
    ensures EnvEntryOk(v.name, Marshal(EnvValue(v.value, v.secret, v.key)))
    ensures Marshal(EnvValue(v.value, v.secret, v.key)) == WrittenAs(v)
    ensures WrittenAs(v).Reference? ==> v.secret in known
  {
    ByteLenAtLeast(v.name);
    if !IsText(v) {
      SecretKeyExactly(v.key);
      NameNotEmpty(v.secret);
    }
  }

  lemma NameNotEmpty(name: string)
    requires FullMatch(K8sNamePattern(), name)
    ensures name != ""
  {
    FirstOfClass(LowerDigit, Optional(Then(Repeat(One(LowerDigitDash), 0, 61), One(LowerDigit))), name, 0, |name|);
  }

  /** An accepted list becomes an acceptable map that says all of it. */
  lemma EnvPasses(vars: seq<EnvVar>, names: seq<string>)
    requires |vars| <= MAX_ENV_VARS && VarsOk(vars, Names(names))
    ensures EnvMapOk(EnvMapOf(vars)) && RefsKnown(EnvMapOf(vars), names)
  {
    EnvMapLossless(vars);
    var m := EnvMapOf(vars);
    forall n | n in m
      ensures EnvEntryOk(n, Marshal(m[n])) && (Marshal(m[n]).Reference? ==> Marshal(m[n]).secret in names)
    {
      var i :| 0 <= i < |vars| && vars[i].name == n;
      assert Carries(m, vars[i]) && VarOk(vars[i], Names(names));
      VarEntry(vars[i], Names(names));
    }
  }

  ghost predicate LosslessEnv(vars: seq<EnvVar>, m: EnvMap) {
    && |m| == |vars|
    && (forall n :: n in m <==> HasName(vars, n))
    && (forall i :: 0 <= i < |vars| ==> vars[i].name in m && Marshal(m[vars[i].name]) == WrittenAs(vars[i]))
  }

  lemma EnvLossless(vars: seq<EnvVar>, known: set<string>)
    requires VarsOk(vars, known)
    ensures LosslessEnv(vars, EnvMapOf(vars))
  {
    EnvMapLossless(vars);
    forall i | 0 <= i < |vars|
      ensures vars[i].name in EnvMapOf(vars) && Marshal(EnvMapOf(vars)[vars[i].name]) == WrittenAs(vars[i])
    {
      assert Carries(EnvMapOf(vars), vars[i]) && VarOk(vars[i], known);
      VarEntry(vars[i], known);
    }
  }

  lemma EnvFromPasses(names: seq<string>, shared: seq<string>)
    requires EnvFromOk(names, Names(shared))
    ensures EnvFromListOk(names) && forall n :: n in names ==> n in shared
  {
    forall i | 0 <= i < |names| ensures FullMatch(K8sNamePattern(), names[i]) && names[i] in shared {
      assert K8sNameOk(names[i]) && names[i] in Names(shared);
    }
  }

  lemma ProbePasses(path: string)
    requires ProbeOk(path)
    ensures ProbePathOk(ProbeOf(path))
  {
    ByteLenAtLeast(path);
  }

  lemma ComponentPasses(x: ComponentInput, shared: seq<string>)
    requires ComponentOk(x, Names(shared))
    ensures ComponentOptionOk(ComponentOf(x)) && ComponentRefsKnown(ComponentOf(x), shared)
  {
    EnvPasses(x.env, shared);
    EnvFromPasses(x.envFrom, shared);
    ProbePasses(x.probes.liveness);
    ProbePasses(x.probes.readiness);
    ProbePasses(x.probes.startup);
  }

  /** The rest of a label after its first character. */
  function LabelRest(): Regex { Then(Repeat(One(LowerDigitDash), 0, 61), One(LowerDigit)) }

  lemma LabelRestShape(s: string)
    requires s != "" && Matches(LabelRest(), s, 1, |s|)
    ensures 2 <= |s| <= 63 && InClass(LowerDigit, s[|s| - 1])
    ensures forall i :: 1 <= i < |s| - 1 ==> InClass(LowerDigitDash, s[i])
  {
    var m := ThenSplits(Repeat(One(LowerDigitDash), 0, 61), One(LowerDigit), s, 1, |s|);
    RepeatOfClass(LowerDigitDash, 0, 61, s, 1, m);
  }

  /** A label in lower case is a host name label. */
  lemma LabelPasses(s: string)
    requires LabelOk(s)
    ensures HostLabel(s)
  {
    FirstOfClass(LowerDigit, Optional(LabelRest()), s, 0, |s|);
    OptionalMatches(LabelRest(), s, 1, |s|);
    if |s| > 1 {
      LabelRestShape(s);
      forall i | 0 <= i < |s| ensures IsAlnum(s[i]) || s[i] == '-' {
        assert 1 <= i < |s| - 1 ==> InClass(LowerDigitDash, s[i]);
      }
    }
  }

  lemma {:induction false} LabelsAscii(s: string)
    requires forall i :: 0 <= i < |Split(s, '.')| ==> HostLabel(Split(s, '.')[i])
    ensures Ascii(s)
    decreases |s|
  {
    CutParts(s, '.');
    var parts := Split(s, '.');
    assert HostLabel(parts[0]);
    if Cut(s, '.').Some? {
      assert parts[1..] == Split(Cut(s, '.').value.after, '.');
      forall i | 0 <= i < |parts[1..]| ensures HostLabel(parts[1..][i]) {
        assert parts[1..][i] == parts[i + 1];
      }
      LabelsAscii(Cut(s, '.').value.after);
    }
  }

  lemma HostPasses(host: string)
    requires HostOk(host)
    ensures Hostname(host)
  {
    var parts := Split(host, '.');
    forall i | 0 <= i < |parts| ensures HostLabel(parts[i]) {
      assert LabelOk(parts[i]);
      LabelPasses(parts[i]);
    }
    LabelsAscii(host);
    ByteLenAscii(host);
  }

  // --------------------------------------------------------------------- the promise

  lemma StagePasses(c: ClaimInput, s: Stage)
    requires HostOk(c.stages.Get(s).host) && BodyOk(c, Names(c.sharedSecrets))
    ensures StageBlockOk(StageOf(c, s)) && StageRefsKnown(StageOf(c, s), c.sharedSecrets)
    ensures OnlyEnabled(StageOf(c, s).components, c.has)
  {
    HostPasses(c.stages.Get(s).host);
    StageSidePasses(c, s, Backend);
    StageSidePasses(c, s, Frontend);
  }

  lemma StageSidePasses(c: ClaimInput, s: Stage, x: Component)
    requires SideOk(c, x, Names(c.sharedSecrets))
    ensures var m := StageEnvOf(c.has.Get(x), c.stages.Get(s).env.Get(x));
            StageComponentOk(m) && (m.Some? ==> RefsKnown(m.value, c.sharedSecrets))
  {
    if c.has.Get(x) {
      EnvPasses(c.stages.Get(s).env.Get(x), c.sharedSecrets);
    }
  }

  /** What is rendered for one component keeps the schema and the script's rules. */
  predicate SideRendered(c: ClaimInput, x: Component) {
    var resource := IfSet(c.has.Get(x), ResourceOf(c.components.Get(x)));
    && ComponentOptionOk(ComponentIf(c, x)) && ComponentRefsKnown(ComponentIf(c, x), c.sharedSecrets)
    && ImageOk(IfSet(c.has.Get(x), c.components.Get(x).repository))
    && ResourceOk(resource) && WithinCaps(resource)
    && (c.has.Get(x) ==> FullMatch(ImageTagPattern(), c.components.Get(x).tag))
  }

  lemma SidePasses(c: ClaimInput, x: Component)
    requires SideOk(c, x, Names(c.sharedSecrets))
    ensures SideRendered(c, x)
  {
    if c.has.Get(x) {
      ComponentPasses(c.components.Get(x), c.sharedSecrets);
      AcceptedPasses(true, c.components.Get(x).memory);
      AcceptedPasses(false, c.components.Get(x).cpu);
      ImageTagExactly(c.components.Get(x).tag);
    }
  }

  lemma AcceptedPasses(memory: bool, q: string)
    requires Quantity.Accepted(memory, q)
    ensures FullMatch(if memory then MemoryPattern() else CpuPattern(), q)
    ensures 0.0 < Quantity.QuantityValue(q) <= Quantity.Cap(memory) * Quantity.SLACK
  {
  }

  lemma HeadPasses(c: ClaimInput, w: World, today: string)
    requires HeadOk(c, w)
    ensures OwnersAndRepoOk(App(c, today)) && SharedSecretsOk(c.sharedSecrets)
  {
    LoginExactly(c.technical);
    LoginExactly(c.organizational);
    forall i | 0 <= i < |c.sharedSecrets| ensures FullMatch(SharedSecretPattern(), c.sharedSecrets[i]) {
      assert SecretNameOk(c.sharedSecrets[i]);
    }
  }

  lemma TailPasses(c: ClaimInput, today: string)
    requires TailOk(c) && Calendar.Parse(today).Some?
    ensures AuthOf(c).Some? ==> AuthOk(AuthOf(c).value)
    ensures Calendar.Parse(App(c, today).createdAt).Some?
  {
    ByteLenAtLeast(c.authScope);
  }

  predicate StageRendered(c: ClaimInput, s: Stage) {
    && StageBlockOk(StageOf(c, s)) && StageRefsKnown(StageOf(c, s), c.sharedSecrets)
    && OnlyEnabled(StageOf(c, s).components, c.has)
  }

  /** What an accepted claim's parts are rendered to. */
  predicate PartsRendered(c: ClaimInput) {
    && (c.has.backend || c.has.frontend)
    && (c.stages.staging.enabled || c.stages.prod.enabled)
    && SideRendered(c, Backend) && SideRendered(c, Frontend)
    && StageRendered(c, Staging) && StageRendered(c, Prod)
  }

  lemma AcceptedParts(c: ClaimInput, w: World)
    requires ClaimErrorOf(c, w) == None
    ensures PartsRendered(c)
  {
    ValidateExactly(c, w);
    StagePasses(c, Staging);
    StagePasses(c, Prod);
    SidePasses(c, Backend);
    SidePasses(c, Frontend);
  }

  lemma BlocksPass(c: ClaimInput, today: string)
    requires PartsRendered(c)
    ensures BlocksOk(App(c, today))
  {
  }

  lemma ClaimPasses(c: ClaimInput, today: string)
    requires PartsRendered(c) && OwnersAndRepoOk(App(c, today)) && SharedSecretsOk(c.sharedSecrets)
    requires (AuthOf(c).Some? ==> AuthOk(AuthOf(c).value)) && Calendar.Parse(App(c, today).createdAt).Some?
    ensures AppSchema(App(c, today))
  {
    BlocksPass(c, today);
  }

  /** Every accepted claim is rendered to one that the app schema accepts. */
  lemma AcceptedKeepsSchema(c: ClaimInput, w: World, today: string)
    requires ClaimErrorOf(c, w) == None && Calendar.Parse(today).Some?
    ensures AppSchema(App(c, today))
  {
    ValidateExactly(c, w);
    HeadPasses(c, w, today);
    TailPasses(c, today);
    AcceptedParts(c, w);
    ClaimPasses(c, today);
  }

  lemma EnablementOfParts(c: ClaimInput, today: string)
    requires c.stages.staging.enabled || c.stages.prod.enabled
    ensures EnablementKept(App(c, today))
  {
  }

  lemma SecretsOfParts(c: ClaimInput, today: string)
    requires ComponentRefsKnown(ComponentIf(c, Backend), c.sharedSecrets)
    requires ComponentRefsKnown(ComponentIf(c, Frontend), c.sharedSecrets)
    requires StageRefsKnown(StageOf(c, Staging), c.sharedSecrets) && StageRefsKnown(StageOf(c, Prod), c.sharedSecrets)
    ensures SecretsListed(App(c, today))
  {
  }

  lemma CapsOfParts(c: ClaimInput, today: string)
    requires SideRendered(c, Backend) && SideRendered(c, Frontend)
    ensures WithinCaps(App(c, today).resources.backend) && WithinCaps(App(c, today).resources.frontend)
  {
  }

  lemma RulesOfParts(c: ClaimInput, today: string)
    requires PartsRendered(c)
    ensures ScriptRules(App(c, today))
  {
    EnablementOfParts(c, today);
    SecretsOfParts(c, today);
    CapsOfParts(c, today);
  }

  /** ... and that keeps the rules of the validation script. */
  lemma AcceptedKeepsRules(c: ClaimInput, w: World, today: string)
    requires ClaimErrorOf(c, w) == None
    ensures ScriptRules(App(c, today))
  {
    AcceptedParts(c, w);
    RulesOfParts(c, today);
  }

  lemma TagsOfParts(c: ClaimInput)
    requires PartsRendered(c)
    ensures TagFilesOf(c).Ok? && TagSchema(TagsOf(c))
    ensures forall path :: path in TagFilesOf(c).value ==> TagFilesOf(c).value[path] == TagsOf(c)
  {
  }

  /** An accepted claim has tag files, and each keeps the tag schema. */
  lemma AcceptedTagFiles(c: ClaimInput, w: World)
    requires ClaimErrorOf(c, w) == None
    ensures TagFilesOf(c).Ok?
    ensures forall path :: path in TagFilesOf(c).value ==> TagSchema(TagFilesOf(c).value[path])
  {
    AcceptedParts(c, w);
    TagsOfParts(c);
  }

  /** No environment variable of an enabled component is lost or altered in the rendered claim. */
  lemma AcceptedEnvLossless(c: ClaimInput, w: World, today: string, x: Component, s: Stage)
    requires ClaimErrorOf(c, w) == None && c.has.Get(x)
    ensures LosslessEnv(c.components.Get(x).env, BlockAt(App(c, today), x).env)
    ensures LosslessEnv(c.stages.Get(s).env.Get(x), StageEnvAt(App(c, today).stages.Get(s), x))
  {
    ValidateExactly(c, w);
    assert SideOk(c, x, Names(c.sharedSecrets));
    EnvLossless(c.components.Get(x).env, Names(c.sharedSecrets));
    EnvLossless(c.stages.Get(s).env.Get(x), Names(c.sharedSecrets));
    BlockIsAt(c, today, x);
    StageEnvIsAt(c, today, x, s);
  }

  lemma StageEnvIsAt(c: ClaimInput, today: string, x: Component, s: Stage)
    requires c.has.Get(x)
    ensures StageEnvAt(App(c, today).stages.Get(s), x) == EnvMapOf(c.stages.Get(s).env.Get(x))
  {
  }

  // ---------------------------------------------------------- the promise is not empty

  const PLAIN := ComponentInput("abc", "1", "1", "1", 0, [], [], Probes("", "", ""))

  function SmallestStage(): StageInput { StageInput("abc", true, Sides([], [])) }

  /** About the smallest claim there is. */
  function SmallestClaim(): ClaimInput {
    ClaimInput("abcd", "a", "a", "https://a", Sides(true, false), Sides(PLAIN, PLAIN),
      Stages(SmallestStage(), SmallestStage()), "", Stages("", ""), false, [], "")
  }

  lemma SmallestSlug(s: string)
    requires |s| == 4 && forall i :: 0 <= i < 4 ==> InClass(Lower, s[i])
    ensures SlugOk(s)
  {
    RepeatOfClass(LowerDigitDash, 2, 30, s, 1, 3);
    assert Matches(One(LowerDigit), s, 3, 4);
    FirstOfClass(Lower, Then(Repeat(One(LowerDigitDash), 2, 30), One(LowerDigit)), s, 0, 4);
  }

  lemma SmallestLabel(s: string)
    requires |s| == 3 && forall i :: 0 <= i < 3 ==> InClass(Lower, s[i])
    ensures LabelOk(s)
  {
    RepeatOfClass(LowerDigitDash, 0, 61, s, 1, 2);
    assert Matches(One(LowerDigit), s, 2, 3);
    assert Matches(LabelRest(), s, 1, 3);
    OptionalMatches(LabelRest(), s, 1, 3);
    FirstOfClass(LowerDigit, Optional(LabelRest()), s, 0, 3);
  }

  lemma SmallestHost(s: string)
    requires |s| == 3 && forall i :: 0 <= i < 3 ==> InClass(Lower, s[i])
    ensures HostOk(s)
  {
    forall c | c in s ensures c != '.' {}
    CutNone(s, '.');
    assert Split(s, '.') == [s];
    SmallestLabel(s);
    ByteLenAscii(s);
  }

  lemma SmallestTag(s: string)
    requires |s| == 1 && InClass(Digit, s[0])
    ensures ImageTagOk(s)
  {
    RepeatOfClass(TagChar, 0, 127, s, 1, 1);
    FirstOfClass(NameChar, Repeat(One(TagChar), 0, 127), s, 0, 1);
  }

  lemma OneIsAccepted(memory: bool)
    ensures Quantity.Accepted(memory, "1")
  {
    assert Quantity.Spelled(memory, "1", "1", "", "");
    Quantity.SpelledValue(memory, "1", "1", "", "");
    Quantity.AcceptedExactly(memory, "1");
  }

  lemma SmallestLimits(x: ComponentInput)
    requires x.memory == "1" && x.cpu == "1"
    ensures Quantity.Accepted(true, x.memory) && Quantity.Accepted(false, x.cpu)
  {
    OneIsAccepted(true);
    OneIsAccepted(false);
  }

  lemma SmallestBlock(x: ComponentInput)
    requires x.tag == "1" && |x.repository| == 3 && x.port == 0 && x.probes == Probes("", "", "")
    requires Quantity.Accepted(true, x.memory) && Quantity.Accepted(false, x.cpu)
    ensures BlockOk(x)
  {
    SmallestTag("1");
  }

  lemma SmallestSide(c: ClaimInput, x: Component, known: set<string>)
    requires BlockOk(c.components.Get(x)) && c.components.Get(x).env == [] && c.components.Get(x).envFrom == []
    requires forall s: Stage :: c.stages.Get(s).env.Get(x) == []
    ensures SideOk(c, x, known)
  {
  }

  lemma SmallestBody(known: set<string>)
    ensures BodyOk(SmallestClaim(), known)
  {
    SmallestLimits(PLAIN);
    SmallestBlock(PLAIN);
    SmallestSide(SmallestClaim(), Backend, known);
  }

  lemma SmallestLogin()
    ensures LoginOk("a")
  {
    LoginShapePasses("a");
  }

  lemma SmallestHead(w: World)
    requires !w.reserved("abcd") && w.parsed("https://a")
    ensures HeadOk(SmallestClaim(), w)
  {
    SmallestSlug("abcd");
    SmallestHost("abc");
    SmallestLogin();
    assert RepoUrlOk("https://a", w.parsed);
  }

  /** Unless its slug is reserved, the smallest claim is accepted. */
  lemma SmallestClaimAccepted(w: World)
    requires !w.reserved("abcd") && w.parsed("https://a")
    ensures ClaimErrorOf(SmallestClaim(), w) == None
  {
    SmallestHead(w);
    SmallestBody(Names([]));
    ValidateExactly(SmallestClaim(), w);
  }
}
