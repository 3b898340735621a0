/**
 `ClaimInput.Validate` (internal/registry/validate.go): which claims are accepted,
 and which error is reported first. The reserved-slug list and `url.Parse` are
 parameters.
 */
module ClaimValidate {
  import opened Claims
  import opened EnvLines
  import opened Patterns
  import opened Text
  import opened Wrappers
  import Calendar
  import Quantity

  datatype EnvError =
    | TooManyVars
    | BadVarName(name: string)
    | VarTwice(name: string)
    | ValueTooLong(name: string)
    | BadRefSecret(name: string)
    | BadRefKey(name: string)
    | UnknownSecret(name: string)

  datatype TagError = NoTag | Latest | BadTagPattern

  datatype EnvPlace = ComponentEnv(c: Component) | StageEnv(s: Stage, c: Component)

  datatype ClaimError =
    | BadSlug
    | ReservedSlug
    | BadTechnical
    | BadOrganizational
    | BadRepoUrl
    | OddRepoUrl(c: char)
    | NoComponent
    | NoStage
    | BadHost(s: Stage)
    | BadSecretName(name: string)
    | SecretTwice(name: string)
    | BadImage(x: Component)
    | BadTag(x: Component, tag: TagError)
    | BadMemory(x: Component, quantity: Quantity.QuantityError)
    | BadCpu(x: Component, quantity: Quantity.QuantityError)
    | BadPort(x: Component)
    | BadProbe(x: Component, path: string)
    | BadEnv(place: EnvPlace, env: EnvError)
    | TooManyEnvFrom(x: Component)
    | BadEnvFrom(x: Component, name: string)
    | EnvFromTwice(x: Component, name: string)
    | EnvFromUnknown(x: Component, name: string)
    | BadAuthScope
    | BadClientId(s: Stage)
    | BadCreatedAt

  type Verdict = Option<ClaimError>

  const MAX_ENV_VARS := 50
  const MAX_ENV_NAME := 128
  const MAX_ENV_VALUE := 4096
  const MAX_ENV_FROM := 10
  const MAX_PROBE_PATH := 200
  const MAX_AUTH_SCOPE := 128
  const MIN_PORT := 1024
  const MAX_PORT := 65535

  /** The first of two findings. */
  function First<E>(a: Option<E>, b: Option<E>): Option<E> {
    if a.Some? then a else b
  }

  function Unless<E>(ok: bool, e: E): Option<E> {
    if ok then None else Some(e)
  }

  // ------------------------------------------------------------ environment variables

  predicate EnvNameOk(name: string) { ByteLen(name) <= MAX_ENV_NAME && FullMatch(EnvNamePattern(), name) }

  predicate K8sNameOk(name: string) { FullMatch(K8sNamePattern(), name) }

  predicate IsText(v: EnvVar) { v.secret == "" && v.key == "" }

  /** What is wrong with one variable, apart from its name being taken. */
  function ValueError(v: EnvVar, known: set<string>): Option<EnvError> {
    if IsText(v) then Unless(|v.value| <= MAX_ENV_VALUE, ValueTooLong(v.name))
    else if !K8sNameOk(v.secret) then Some(BadRefSecret(v.name))
    else if !SecretKeyOk(v.key) then Some(BadRefKey(v.name))
    else Unless(v.secret in known, UnknownSecret(v.name))
  }

  function VarError(v: EnvVar, seen: set<string>, known: set<string>): Option<EnvError> {
    if !EnvNameOk(v.name) then Some(BadVarName(v.name))
    else if v.name in seen then Some(VarTwice(v.name))
    else ValueError(v, known)
  }

  function VarsError(vars: seq<EnvVar>, i: nat, seen: set<string>, known: set<string>): Option<EnvError>
    requires i <= |vars|
    decreases |vars| - i
  {
    if i == |vars| then None
    else First(VarError(vars[i], seen, known), VarsError(vars, i + 1, seen + {vars[i].name}, known))
  }

  function EnvErrorOf(vars: seq<EnvVar>, known: set<string>): Option<EnvError> {
    if |vars| > MAX_ENV_VARS then Some(TooManyVars) else VarsError(vars, 0, {}, known)
  }

  method ValidateEnv(vars: seq<EnvVar>, known: set<string>) returns (e: Option<EnvError>)
    ensures e == EnvErrorOf(vars, known)
  {
    if |vars| > MAX_ENV_VARS {
      return Some(TooManyVars);
    }
    var seen: set<string> := {};
    for i := 0 to |vars|
      invariant EnvErrorOf(vars, known) == VarsError(vars, i, seen, known)
    {
      var v := vars[i];
      if !EnvNameOk(v.name) {
        return Some(BadVarName(v.name));
      }
      if v.name in seen {
        return Some(VarTwice(v.name));
      }
      seen := seen + {v.name};
      if v.secret == "" && v.key == "" {
        if |v.value| > MAX_ENV_VALUE {
          return Some(ValueTooLong(v.name));
        }
        continue;
      }
      if !K8sNameOk(v.secret) {
        return Some(BadRefSecret(v.name));
      }
      if !SecretKeyOk(v.key) {
        return Some(BadRefKey(v.name));
      }
      if v.secret !in known {
        return Some(UnknownSecret(v.name));
      }
    }
    return None;
  }

  /** An acceptable variable. */
  predicate VarOk(v: EnvVar, known: set<string>) {
    && EnvNameOk(v.name)
    && (if IsText(v) then |v.value| <= MAX_ENV_VALUE
        else K8sNameOk(v.secret) && SecretKeyOk(v.key) && v.secret in known)
  }

  predicate VarsOk(vars: seq<EnvVar>, known: set<string>) {
    && (forall i :: 0 <= i < |vars| ==> VarOk(vars[i], known))
    && Distinct(vars)
  }

  /** From index `i` on, the variables have new names that differ from each other. */
  predicate NewVars(vars: seq<EnvVar>, i: nat, seen: set<string>) {
    && (forall k :: i <= k < |vars| ==> vars[k].name !in seen)
    && (forall j, k :: i <= j < k < |vars| ==> vars[j].name != vars[k].name)
  }

  lemma NewVarsStep(vars: seq<EnvVar>, i: nat, seen: set<string>)
    requires i < |vars|
    ensures NewVars(vars, i, seen) <==> vars[i].name !in seen && NewVars(vars, i + 1, seen + {vars[i].name})
  {
  }

  lemma VarErrorExactly(v: EnvVar, seen: set<string>, known: set<string>)
    ensures VarError(v, seen, known) == None <==> VarOk(v, known) && v.name !in seen
  {
  }

  lemma {:induction false} VarsErrorExactly(vars: seq<EnvVar>, i: nat, seen: set<string>, known: set<string>)
    requires i <= |vars|
    ensures VarsError(vars, i, seen, known) == None <==>
            NewVars(vars, i, seen) && forall k :: i <= k < |vars| ==> VarOk(vars[k], known)
    decreases |vars| - i
  {
    if i < |vars| {
      VarErrorExactly(vars[i], seen, known);
      NewVarsStep(vars, i, seen);
      VarsErrorExactly(vars, i + 1, seen + {vars[i].name}, known);
    }
  }

  /** No error means: at most 50 variables, distinct names, each acceptable. */
  lemma EnvExactly(vars: seq<EnvVar>, known: set<string>)
    ensures EnvErrorOf(vars, known) == None <==> |vars| <= MAX_ENV_VARS && VarsOk(vars, known)
  {
    if |vars| <= MAX_ENV_VARS {
      VarsErrorExactly(vars, 0, {}, known);
    }
  }

  // ------------------------------------------------------------------ shared secrets

  predicate SecretNameOk(name: string) { FullMatch(SharedSecretPattern(), name) }

  function SecretsError(names: seq<string>, i: nat, known: set<string>): Verdict
    requires i <= |names|
    decreases |names| - i
  {
    if i == |names| then None
    else if !SecretNameOk(names[i]) then Some(BadSecretName(names[i]))
    else if names[i] in known then Some(SecretTwice(names[i]))
    else SecretsError(names, i + 1, known + {names[i]})
  }

  function Names(names: seq<string>): set<string> { set x | x in names }

  /** The names that environment references may use, or the first bad one. */
  method ValidateSecrets(names: seq<string>) returns (r: Result<set<string>, ClaimError>)
    ensures match SecretsError(names, 0, {})
            case None => r == Ok(Names(names))
            case Some(e) => r == Err(e)
  {
    var known: set<string> := {};
    for i := 0 to |names|
      invariant known == Names(names[..i])
      invariant SecretsError(names, 0, {}) == SecretsError(names, i, known)
    {
      if !SecretNameOk(names[i]) {
        return Err(BadSecretName(names[i]));
      }
      if names[i] in known {
        return Err(SecretTwice(names[i]));
      }
      assert names[..i + 1] == names[..i] + [names[i]];
      known := known + {names[i]};
    }
    assert names[..|names|] == names;
    return Ok(known);
  }

  predicate SecretsOk(names: seq<string>) {
    (forall i :: 0 <= i < |names| ==> SecretNameOk(names[i])) && NoRepeat(names)
  }

  /** From index `i` on, the names are new and differ from each other. */
  predicate NewFrom(names: seq<string>, i: nat, seen: set<string>) {
    && (forall k :: i <= k < |names| ==> names[k] !in seen)
    && (forall j, k :: i <= j < k < |names| ==> names[j] != names[k])
  }

  lemma NewStep(names: seq<string>, i: nat, seen: set<string>)
    requires i < |names|
    ensures NewFrom(names, i, seen) <==> names[i] !in seen && NewFrom(names, i + 1, seen + {names[i]})
  {
  }

  lemma {:induction false} SecretsErrorExactly(names: seq<string>, i: nat, known: set<string>)
    requires i <= |names|
    ensures SecretsError(names, i, known) == None <==>
            NewFrom(names, i, known) && forall k :: i <= k < |names| ==> SecretNameOk(names[k])
    decreases |names| - i
  {
    if i < |names| {
      NewStep(names, i, known);
      SecretsErrorExactly(names, i + 1, known + {names[i]});
    }
  }

  lemma SecretsExactly(names: seq<string>)
    ensures SecretsError(names, 0, {}) == None <==> SecretsOk(names)
  {
    SecretsErrorExactly(names, 0, {});
  }

  // ----------------------------------------------------------------------- one component

  function TagErrorOf(tag: string): Option<TagError> {
    if tag == "" then Some(NoTag)
    else if tag == "latest" then Some(Latest)
    else Unless(FullMatch(PlainTagPattern(), tag), BadTagPattern)
  }

  predicate PortOk(port: int) { port == 0 || MIN_PORT <= port <= MAX_PORT }

  predicate ProbeOk(path: string) {
    path == "" || (ByteLen(path) <= MAX_PROBE_PATH && FullMatch(ProbePathPattern(), path))
  }

  function EnvFromError(c: Component, names: seq<string>, i: nat, seen: set<string>, known: set<string>): Verdict
    requires i <= |names|
    decreases |names| - i
  {
    if i == |names| then None
    else if !K8sNameOk(names[i]) then Some(BadEnvFrom(c, names[i]))
    else if names[i] in seen then Some(EnvFromTwice(c, names[i]))
    else if names[i] !in known then Some(EnvFromUnknown(c, names[i]))
    else EnvFromError(c, names, i + 1, seen + {names[i]}, known)
  }

  function ProbesError(c: Component, p: Probes<string>): Verdict {
    if !ProbeOk(p.liveness) then Some(BadProbe(c, p.liveness))
    else if !ProbeOk(p.readiness) then Some(BadProbe(c, p.readiness))
    else Unless(ProbeOk(p.startup), BadProbe(c, p.startup))
  }

  function At(place: EnvPlace, e: Option<EnvError>): Verdict {
    if e.Some? then Some(BadEnv(place, e.value)) else None
  }

  function ImageError(c: Component, x: ComponentInput): Verdict {
    if !(3 <= |x.repository| <= 253) then Some(BadImage(c))
    else if TagErrorOf(x.tag).Some? then Some(BadTag(c, TagErrorOf(x.tag).value))
    else None
  }

  function LimitError(c: Component, x: ComponentInput): Verdict {
    match Quantity.Check(x.memory, true)
    case Some(e) => Some(BadMemory(c, e))
    case None =>
      match Quantity.Check(x.cpu, false)
      case Some(e) => Some(BadCpu(c, e))
      case None => None
  }

  /** The checks before the environment of a component. */
  function BlockError(c: Component, x: ComponentInput): Verdict {
    First(ImageError(c, x),
      First(LimitError(c, x), if PortOk(x.port) then ProbesError(c, x.probes) else Some(BadPort(c))))
  }

  function EnvFromErrorOf(c: Component, names: seq<string>, known: set<string>): Verdict {
    if |names| > MAX_ENV_FROM then Some(TooManyEnvFrom(c)) else EnvFromError(c, names, 0, {}, known)
  }

  function ComponentError(c: Component, x: ComponentInput, known: set<string>): Verdict {
    First(BlockError(c, x),
      First(At(ComponentEnv(c), EnvErrorOf(x.env, known)), EnvFromErrorOf(c, x.envFrom, known)))
  }

  method ValidateImageTag(tag: string) returns (e: Option<TagError>)
    ensures e == None <==> FullMatch(ImageTagPattern(), tag)
    ensures e == TagErrorOf(tag)
  {
    ImageTagExactly(tag);
    if tag == "" {
      return Some(NoTag);
    }
    if tag == "latest" {
      return Some(Latest);
    }
    if !FullMatch(PlainTagPattern(), tag) {
      return Some(BadTagPattern);
    }
    return None;
  }

  method ValidateProbes(c: Component, p: Probes<string>) returns (e: Verdict)
    ensures e == ProbesError(c, p)
  {
    var paths := [p.liveness, p.readiness, p.startup];
    for i := 0 to |paths|
      invariant forall k :: 0 <= k < i ==> ProbeOk(paths[k])
    {
      if paths[i] == "" {
        continue;
      }
      assert (i > 0 ==> ProbeOk(paths[0])) && (i > 1 ==> ProbeOk(paths[1]));
      if ByteLen(paths[i]) > MAX_PROBE_PATH || !FullMatch(ProbePathPattern(), paths[i]) {
        return Some(BadProbe(c, paths[i]));
      }
    }
    assert ProbeOk(paths[0]) && ProbeOk(paths[1]) && ProbeOk(paths[2]);
    return None;
  }

  method ValidateEnvFrom(c: Component, names: seq<string>, known: set<string>) returns (e: Verdict)
    ensures e == EnvFromErrorOf(c, names, known)
  {
    if |names| > MAX_ENV_FROM {
      return Some(TooManyEnvFrom(c));
    }
    var seen: set<string> := {};
    for i := 0 to |names|
      invariant EnvFromErrorOf(c, names, known) == EnvFromError(c, names, i, seen, known)
    {
      if !K8sNameOk(names[i]) {
        return Some(BadEnvFrom(c, names[i]));
      }
      if names[i] in seen {
        return Some(EnvFromTwice(c, names[i]));
      }
      seen := seen + {names[i]};
      if names[i] !in known {
        return Some(EnvFromUnknown(c, names[i]));
      }
    }
    return None;
  }

  /** `ComponentInput.validate`. */
  method ValidateComponent(c: Component, x: ComponentInput, known: set<string>) returns (e: Verdict)
    ensures e == ComponentError(c, x, known)
  {
    var n := |x.repository|;
    if n < 3 || n > 253 {
      return Some(BadImage(c));
    }
    var tag := ValidateImageTag(x.tag);
    if tag.Some? {
      return Some(BadTag(c, tag.value));
    }
    var memory := Quantity.Check(x.memory, true);
    if memory.Some? {
      return Some(BadMemory(c, memory.value));
    }
    var cpu := Quantity.Check(x.cpu, false);
    if cpu.Some? {
      return Some(BadCpu(c, cpu.value));
    }
    if x.port != 0 && (x.port < MIN_PORT || x.port > MAX_PORT) {
      return Some(BadPort(c));
    }
    e := ValidateProbes(c, x.probes);
    if e.Some? {
      return e;
    }
    var env := ValidateEnv(x.env, known);
    if env.Some? {
      return Some(BadEnv(ComponentEnv(c), env.value));
    }
    e := ValidateEnvFrom(c, x.envFrom, known);
  }

  predicate EnvFromOk(names: seq<string>, known: set<string>) {
    && |names| <= MAX_ENV_FROM && NoRepeat(names)
    && forall i :: 0 <= i < |names| ==> K8sNameOk(names[i]) && names[i] in known
  }

  lemma {:induction false} EnvFromErrorExactly(c: Component, names: seq<string>, i: nat, seen: set<string>, known: set<string>)
    requires i <= |names|
    ensures EnvFromError(c, names, i, seen, known) == None <==>
            NewFrom(names, i, seen) && forall k :: i <= k < |names| ==> K8sNameOk(names[k]) && names[k] in known
    decreases |names| - i
  {
    if i < |names| {
      NewStep(names, i, seen);
      EnvFromErrorExactly(c, names, i + 1, seen + {names[i]}, known);
    }
  }

  lemma EnvFromExactly(c: Component, names: seq<string>, known: set<string>)
    ensures EnvFromErrorOf(c, names, known) == None <==> EnvFromOk(names, known)
  {
    if |names| <= MAX_ENV_FROM {
      EnvFromErrorExactly(c, names, 0, {}, known);
    }
  }

  predicate ProbesOk(p: Probes<string>) {
    ProbeOk(p.liveness) && ProbeOk(p.readiness) && ProbeOk(p.startup)
  }

  predicate BlockOk(x: ComponentInput) {
    && 3 <= |x.repository| <= 253
    && ImageTagOk(x.tag)
    && Quantity.Accepted(true, x.memory) && Quantity.Accepted(false, x.cpu)
    && PortOk(x.port)
    && ProbesOk(x.probes)
  }

  predicate ComponentOk(x: ComponentInput, known: set<string>) {
    && BlockOk(x)
    && |x.env| <= MAX_ENV_VARS && VarsOk(x.env, known)
    && EnvFromOk(x.envFrom, known)
  }

  lemma ComponentExactly(c: Component, x: ComponentInput, known: set<string>)
    ensures ComponentError(c, x, known) == None <==> ComponentOk(x, known)
  {
    EnvExactly(x.env, known);
    EnvFromExactly(c, x.envFrom, known);
    BlockExactly(c, x);
  }

  lemma BlockExactly(c: Component, x: ComponentInput)
    ensures BlockError(c, x) == None <==> BlockOk(x)
  {
  }

  // --------------------------------------------------------------- address and host name

  /** `isURIChar`: unreserved, reserved or the `%` of a percent-encoding. */
  predicate IsUriChar(c: char) { IsAlnum(c) || c in "-._~:/?#[]@!$&'()*+,;=%" }

  /** The first character that may not stand in a URI. */
  function OddChar(s: string, i: nat): Option<char>
    requires i <= |s|
    decreases |s| - i
  {
    if i == |s| then None else if !IsUriChar(s[i]) then Some(s[i]) else OddChar(s, i + 1)
  }

  /** `parsed` says that `url.Parse` succeeds with scheme https and a host. */
  function RepoUrlError(url: string, parsed: string -> bool): Verdict {
    if !parsed(url) || !HasPrefix(url, "https://") then Some(BadRepoUrl)
    else if OddChar(url, 0).Some? then Some(OddRepoUrl(OddChar(url, 0).value))
    else None
  }

  method ValidateRepoUrl(url: string, parsed: string -> bool) returns (e: Verdict)
    ensures e == RepoUrlError(url, parsed)
  {
    if !parsed(url) || !HasPrefix(url, "https://") {
      return Some(BadRepoUrl);
    }
    for i := 0 to |url|
      invariant OddChar(url, 0) == OddChar(url, i)
    {
      if !IsUriChar(url[i]) {
        return Some(OddRepoUrl(url[i]));
      }
    }
    return None;
  }

  predicate RepoUrlOk(url: string, parsed: string -> bool) {
    parsed(url) && HasPrefix(url, "https://") && forall i :: 0 <= i < |url| ==> IsUriChar(url[i])
  }

  lemma {:induction false} OddCharExactly(s: string, i: nat)
    requires i <= |s|
    ensures OddChar(s, i) == None <==> forall k :: i <= k < |s| ==> IsUriChar(s[k])
    decreases |s| - i
  {
    if i < |s| {
      OddCharExactly(s, i + 1);
    }
  }

  predicate LabelOk(part: string) { FullMatch(K8sNamePattern(), part) }

  predicate HostOk(host: string) {
    var parts := Split(host, '.');
    host != "" && 3 <= ByteLen(host) <= 253 && forall i :: 0 <= i < |parts| ==> LabelOk(parts[i])
  }

  method ValidateHost(host: string) returns (ok: bool)
    ensures ok <==> HostOk(host)
  {
    if host == "" {
      return false;
    }
    ok := 3 <= ByteLen(host) <= 253;
    var parts := Split(host, '.');
    for i := 0 to |parts|
      invariant ok <==> 3 <= ByteLen(host) <= 253 && forall k :: 0 <= k < i ==> LabelOk(parts[k])
    {
      if !LabelOk(parts[i]) {
        ok := false;
      }
    }
  }

  // ------------------------------------------------------------------------ the whole claim

  /** The facts from outside: the reserved slugs and what `url.Parse` makes of an address. */
  datatype World = World(reserved: string -> bool, parsed: string -> bool)

  predicate SlugOk(slug: string) { FullMatch(SlugPattern(), slug) }

  predicate AuthScopeOk(scope: string) {
    scope == "" || (ByteLen(scope) <= MAX_AUTH_SCOPE && FullMatch(AuthScopePattern(), scope))
  }

  predicate ClientIdOk(id: string) { id == "" || FullMatch(ClientIdPattern(), id) }

  predicate CreatedAtOk(date: string) { date == "" || Calendar.Parse(date).Some? }

  function OwnerError(c: ClaimInput, w: World): Verdict {
    if !SlugOk(c.slug) then Some(BadSlug)
    else if w.reserved(c.slug) then Some(ReservedSlug)
    else if !LoginOk(c.technical) then Some(BadTechnical)
    else if !LoginOk(c.organizational) then Some(BadOrganizational)
    else RepoUrlError(c.repoUrl, w.parsed)
  }

  function ShapeError(c: ClaimInput): Verdict {
    if !c.has.backend && !c.has.frontend then Some(NoComponent)
    else if !c.stages.staging.enabled && !c.stages.prod.enabled then Some(NoStage)
    else if !HostOk(c.stages.staging.host) then Some(BadHost(Staging))
    else if !HostOk(c.stages.prod.host) then Some(BadHost(Prod))
    else SecretsError(c.sharedSecrets, 0, {})
  }

  function HeadError(c: ClaimInput, w: World): Verdict {
    First(OwnerError(c, w), ShapeError(c))
  }

  function ComponentIfEnabled(c: ClaimInput, x: Component, known: set<string>): Verdict {
    if c.has.Get(x) then ComponentError(x, c.components.Get(x), known) else None
  }

  function StageEnvIfEnabled(c: ClaimInput, s: Stage, x: Component, known: set<string>): Verdict {
    if c.has.Get(x) then At(StageEnv(s, x), EnvErrorOf(c.stages.Get(s).env.Get(x), known)) else None
  }

  function StageEnvError(c: ClaimInput, s: Stage, known: set<string>): Verdict {
    First(StageEnvIfEnabled(c, s, Backend, known), StageEnvIfEnabled(c, s, Frontend, known))
  }

  function BodyError(c: ClaimInput, known: set<string>): Verdict {
    First(ComponentIfEnabled(c, Backend, known),
      First(ComponentIfEnabled(c, Frontend, known),
        First(StageEnvError(c, Staging, known), StageEnvError(c, Prod, known))))
  }

  function TailError(c: ClaimInput): Verdict {
    if !AuthScopeOk(c.authScope) then Some(BadAuthScope)
    else if !ClientIdOk(c.clientIds.staging) then Some(BadClientId(Staging))
    else if !ClientIdOk(c.clientIds.prod) then Some(BadClientId(Prod))
    else Unless(CreatedAtOk(c.createdAt), BadCreatedAt)
  }

  /** What `Validate` reports. */
  function ClaimErrorOf(c: ClaimInput, w: World): Verdict {
    First(HeadError(c, w), First(BodyError(c, Names(c.sharedSecrets)), TailError(c)))
  }

  function EnabledComponents(c: ClaimInput): seq<Component> {
    (if c.has.backend then [Backend] else []) + (if c.has.frontend then [Frontend] else [])
  }

  method ValidateHead(c: ClaimInput, w: World) returns (e: Verdict, known: set<string>)
    ensures e == HeadError(c, w)
    ensures e == None ==> known == Names(c.sharedSecrets)
  {
    known := {};
    if !SlugOk(c.slug) {
      return Some(BadSlug), known;
    }
    if w.reserved(c.slug) {
      return Some(ReservedSlug), known;
    }
    var ok := ValidateLogin(c.technical);
    if !ok {
      return Some(BadTechnical), known;
    }
    ok := ValidateLogin(c.organizational);
    if !ok {
      return Some(BadOrganizational), known;
    }
    e := ValidateRepoUrl(c.repoUrl, w.parsed);
    if e.Some? {
      return;
    }
    if !c.has.backend && !c.has.frontend {
      return Some(NoComponent), known;
    }
    if !c.stages.staging.enabled && !c.stages.prod.enabled {
      return Some(NoStage), known;
    }
    ok := ValidateHost(c.stages.staging.host);
    if !ok {
      return Some(BadHost(Staging)), known;
    }
    ok := ValidateHost(c.stages.prod.host);
    if !ok {
      return Some(BadHost(Prod)), known;
    }
    var secrets := ValidateSecrets(c.sharedSecrets);
    match secrets
    case Err(bad) => e := Some(bad);
    case Ok(names) => e, known := None, names;
  }

  method ValidateComponents(c: ClaimInput, known: set<string>) returns (e: Verdict)
    ensures e == First(ComponentIfEnabled(c, Backend, known), ComponentIfEnabled(c, Frontend, known))
  {
    var enabled := EnabledComponents(c);
    for i := 0 to |enabled|
      invariant i > 0 ==> ComponentIfEnabled(c, enabled[0], known) == None
      invariant i > 1 ==> ComponentIfEnabled(c, enabled[1], known) == None
    {
      e := ValidateComponent(enabled[i], c.components.Get(enabled[i]), known);
      if e.Some? {
        return;
      }
    }
    e := None;
  }

  method ValidateStageEnv(c: ClaimInput, s: Stage, known: set<string>) returns (e: Verdict)
    ensures e == StageEnvError(c, s, known)
  {
    if c.has.backend {
      var env := ValidateEnv(c.stages.Get(s).env.backend, known);
      if env.Some? {
        return Some(BadEnv(StageEnv(s, Backend), env.value));
      }
    }
    if c.has.frontend {
      var env := ValidateEnv(c.stages.Get(s).env.frontend, known);
      if env.Some? {
        return Some(BadEnv(StageEnv(s, Frontend), env.value));
      }
    }
    e := None;
  }

  method ValidateTail(c: ClaimInput) returns (e: Verdict)
    ensures e == TailError(c)
  {
    if c.authScope != "" {
      if ByteLen(c.authScope) > MAX_AUTH_SCOPE || !FullMatch(AuthScopePattern(), c.authScope) {
        return Some(BadAuthScope);
      }
    }
    if c.clientIds.staging != "" && !FullMatch(ClientIdPattern(), c.clientIds.staging) {
      return Some(BadClientId(Staging));
    }
    if c.clientIds.prod != "" && !FullMatch(ClientIdPattern(), c.clientIds.prod) {
      return Some(BadClientId(Prod));
    }
    if c.createdAt != "" {
      if Calendar.Parse(c.createdAt).None? {
        return Some(BadCreatedAt);
      }
    }
    e := None;
  }

  method Validate(c: ClaimInput, w: World) returns (e: Verdict)
    ensures e == ClaimErrorOf(c, w)
  {
    var known;
    e, known := ValidateHead(c, w);
    if e.Some? {
      return;
    }
    e := ValidateComponents(c, known);
    if e.Some? {
      return;
    }
    e := ValidateStageEnv(c, Staging, known);
    if e.Some? {
      return;
    }
    e := ValidateStageEnv(c, Prod, known);
    if e.Some? {
      return;
    }
    e := ValidateTail(c);
  }

  // ----------------------------------------------------------- exactly which claims pass

  predicate HeadOk(c: ClaimInput, w: World) {
    && SlugOk(c.slug) && !w.reserved(c.slug)
    && LoginOk(c.technical) && LoginOk(c.organizational)
    && RepoUrlOk(c.repoUrl, w.parsed)
    && (c.has.backend || c.has.frontend)
    && (c.stages.staging.enabled || c.stages.prod.enabled)
    && HostOk(c.stages.staging.host) && HostOk(c.stages.prod.host)
    && SecretsOk(c.sharedSecrets)
  }

  /** An enabled component, with its environment in both stages, enabled or not. */
  predicate SideOk(c: ClaimInput, x: Component, known: set<string>) {
    c.has.Get(x) ==>
      ComponentOk(c.components.Get(x), known) && StageVarsOk(c, Staging, x, known) && StageVarsOk(c, Prod, x, known)
  }

  predicate BodyOk(c: ClaimInput, known: set<string>) {
    SideOk(c, Backend, known) && SideOk(c, Frontend, known)
  }

  predicate StageVarsOk(c: ClaimInput, s: Stage, x: Component, known: set<string>) {
    var vars := c.stages.Get(s).env.Get(x);
    |vars| <= MAX_ENV_VARS && VarsOk(vars, known)
  }

  predicate TailOk(c: ClaimInput) {
    && AuthScopeOk(c.authScope)
    && ClientIdOk(c.clientIds.staging) && ClientIdOk(c.clientIds.prod)
    && CreatedAtOk(c.createdAt)
  }

  lemma HeadExactly(c: ClaimInput, w: World)
    ensures HeadError(c, w) == None <==> HeadOk(c, w)
  {
    OddCharExactly(c.repoUrl, 0);
    SecretsExactly(c.sharedSecrets);
  }

  lemma SideExactly(c: ClaimInput, x: Component, known: set<string>)
    ensures SideOk(c, x, known) <==>
            && ComponentIfEnabled(c, x, known) == None
            && StageEnvIfEnabled(c, Staging, x, known) == None
            && StageEnvIfEnabled(c, Prod, x, known) == None
  {
    if c.has.Get(x) {
      ComponentExactly(x, c.components.Get(x), known);
      EnvExactly(c.stages.staging.env.Get(x), known);
      EnvExactly(c.stages.prod.env.Get(x), known);
    }
  }

  lemma BodyExactly(c: ClaimInput, known: set<string>)
    ensures BodyError(c, known) == None <==> BodyOk(c, known)
  {
    SideExactly(c, Backend, known);
    SideExactly(c, Frontend, known);
  }

  /** `Validate` returns no error exactly for the claims that keep every rule. */
  lemma ValidateExactly(c: ClaimInput, w: World)
    ensures ClaimErrorOf(c, w) == None <==>
            HeadOk(c, w) && BodyOk(c, Names(c.sharedSecrets)) && TailOk(c)
  {
    HeadExactly(c, w);
    BodyExactly(c, Names(c.sharedSecrets));
  }
}
