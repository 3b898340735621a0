/**
 The claim form's payload and the claim that is rendered from it
 (internal/registry/render.go and internal/registry/claim.go).
 */
module Claims {
  import opened EnvLines
  import opened Wrappers

  datatype Component = Backend | Frontend

  datatype Stage = Staging | Prod

  /** One value per component. */
  datatype Sides<T> = Sides(backend: T, frontend: T) {
    function Get(c: Component): T { if c.Backend? then backend else frontend }
  }

  /** One value per stage. */
  datatype Stages<T> = Stages(staging: T, prod: T) {
    function Get(s: Stage): T { if s.Staging? then staging else prod }
  }

  datatype Probes<T> = Probes(liveness: T, readiness: T, startup: T)

  // -------------------------------------------------------------------- the form

  datatype ComponentInput = ComponentInput(
    repository: string,
    tag: string,
    memory: string,
    cpu: string,
    port: int,
    env: seq<EnvVar>,
    envFrom: seq<string>,
    probes: Probes<string>)

  datatype StageInput = StageInput(host: string, enabled: bool, env: Sides<seq<EnvVar>>)

  datatype ClaimInput = ClaimInput(
    slug: string,
    technical: string,
    organizational: string,
    repoUrl: string,
    has: Sides<bool>,
    components: Sides<ComponentInput>,
    stages: Stages<StageInput>,
    authScope: string,
    clientIds: Stages<string>,
    websocket: bool,
    sharedSecrets: seq<string>,
    createdAt: string)

  // ------------------------------------------------------------------- the claim

  datatype EnvValue = EnvValue(value: string, secret: string, key: string)

  type EnvMap = map<string, EnvValue>

  /** How an environment value is written. */
  datatype Written = Text(text: string) | Reference(secret: string, key: string)

  /** `EnvValue.MarshalYAML`. */
  function Marshal(v: EnvValue): Written {
    if v.secret != "" then Reference(v.secret, v.key) else Text(v.value)
  }

  datatype Resource = Resource(memory: string, cpu: string)

  /** Port 0, an empty map and an empty list are left out when written. */
  datatype ClaimComponent = ClaimComponent(
    port: int,
    env: EnvMap,
    envFrom: seq<string>,
    probes: Option<Probes<Option<string>>>)

  /** `enabled` is only ever written as false. */
  datatype ClaimStage = ClaimStage(
    host: string,
    enabled: Option<bool>,
    manualPromotion: bool,
    components: Option<Sides<Option<EnvMap>>>)

  datatype Auth = Auth(scope: string, clientIds: Option<Stages<string>>)

  datatype Claim = Claim(
    apiVersion: string,
    kind: string,
    slug: string,
    technical: string,
    organizational: string,
    repoUrl: string,
    has: Sides<bool>,
    stages: Stages<ClaimStage>,
    images: Sides<Option<string>>,
    resources: Sides<Option<Resource>>,
    components: Option<Sides<Option<ClaimComponent>>>,
    auth: Option<Auth>,
    sharedSecrets: seq<string>,
    websocket: bool,
    createdAt: string)

  /** The `imageTags` of one tag file. */
  type TagFile = Sides<Option<string>>
}
