/**
 What the error of `ClaimInput.Validate` (internal/registry/validate.go) says about the
 claim: every rule in words, and for each error the rule that is broken while all rules
 checked before it hold.
 */
module ClaimErrors {
  import opened ClaimValidate
  import opened Claims
  import opened EnvLines
  import opened Patterns
  import opened Text
  import opened Wrappers
  import Calendar
  import Quantity

  // -------------------------------------------------------------- the rules in words

  lemma SlugRule(s: string)
    ensures SlugOk(s) <==> 4 <= |s| <= 32 && 'a' <= s[0] <= 'z' && LowerDigitAt(s, |s| - 1) && InnerOk(s)
  {
    SlugMeans(s);
  }

  lemma SecretNameRule(s: string)
    ensures SecretNameOk(s) <==> 3 <= |s| <= 32 && 'a' <= s[0] <= 'z' && LowerDigitAt(s, |s| - 1) && InnerOk(s)
  {
    SharedSecretMeans(s);
  }

  lemma K8sNameRule(s: string)
    ensures K8sNameOk(s) <==> 1 <= |s| <= 63 && LowerDigitAt(s, 0) && LowerDigitAt(s, |s| - 1) && InnerOk(s)
  {
    K8sNameMeans(s);
  }

  lemma EnvNameRule(s: string)
    ensures EnvNameOk(s) <==> 1 <= |s| <= 128 && !DigitAt(s, 0) && forall i: nat :: i < |s| ==> NameAt(s, i)
  {
    EnvNameMeans(s);
    ByteLenAscii(s);
    if forall i: nat :: i < |s| ==> NameAt(s, i) {
      forall i: nat | i < |s| ensures ScopeAt(s, i) {
        assert NameAt(s, i);
      }
      ScopeAscii(s);
    }
  }

  lemma ProbeRule(s: string)
    ensures ProbeOk(s) <==>
            s == "" || (|s| <= 200 && s[0] == '/' && forall i: nat :: 1 <= i < |s| ==> ProbeAt(s, i))
  {
    ProbePathMeans(s);
    ByteLenAscii(s);
    if s != "" && s[0] == '/' && forall i: nat :: 1 <= i < |s| ==> ProbeAt(s, i) {
      forall i | 0 <= i < |s| ensures s[i] as int < 0x80 {
        assert i > 0 ==> ProbeAt(s, i);
      }
    }
  }

  lemma AuthScopeRule(s: string)
    ensures AuthScopeOk(s) <==>
            s == "" || (|s| <= 128 && (LetterAt(s, 0) || DigitAt(s, 0)) && forall i: nat :: i < |s| ==> ScopeAt(s, i))
  {
    AuthScopeMeans(s);
    ByteLenAscii(s);
    if s != "" && forall i: nat :: i < |s| ==> ScopeAt(s, i) {
      ScopeAscii(s);
    }
  }

  lemma ClientIdRule(s: string)
    ensures ClientIdOk(s) <==>
            || s == ""
            || (|s| == 36 && forall k: nat :: k < 36 ==> if k in {8, 13, 18, 23} then s[k] == '-' else HexAt(s, k))
  {
    ClientIdMeans(s);
  }

  lemma PortRule(port: int)
    ensures PortOk(port) <==> port == 0 || 1024 <= port <= 65535
  {
  }

  /** At least 3 and at most 253 characters, lower-case labels between dots. */
  predicate GoodHost(host: string) {
    3 <= |host| <= 253 && GoodLabels(Split(host, '.'))
  }

  predicate GoodLabels(parts: seq<string>) {
    forall i :: 0 <= i < |parts| ==> GoodLabel(parts[i])
  }

  lemma HostIsGood(host: string)
    requires HostOk(host)
    ensures GoodHost(host)
  {
    var parts := Split(host, '.');
    forall i | 0 <= i < |parts| ensures GoodLabel(parts[i]) {
      assert LabelOk(parts[i]);
      LabelRule(parts[i]);
    }
    LabelsAscii(host);
    ByteLenAscii(host);
  }

  lemma GoodIsHost(host: string)
    requires GoodHost(host)
    ensures HostOk(host)
  {
    var parts := Split(host, '.');
    forall i | 0 <= i < |parts| ensures LabelOk(parts[i]) {
      assert GoodLabel(parts[i]);
      LabelRule(parts[i]);
    }
    LabelsAscii(host);
    ByteLenAscii(host);
  }

  lemma HostRule(host: string)
    ensures HostOk(host) <==> GoodHost(host)
  {
    if HostOk(host) {
      HostIsGood(host);
    }
    if GoodHost(host) {
      GoodIsHost(host);
    }
  }

  lemma LabelRule(part: string)
    ensures LabelOk(part) <==> GoodLabel(part)
  {
    K8sNameMeans(part);
  }

  predicate GoodLabel(part: string) {
    1 <= |part| <= 63 && LowerDigitAt(part, 0) && LowerDigitAt(part, |part| - 1) && InnerOk(part)
  }

  lemma {:induction false} LabelsAscii(s: string)
    requires GoodLabels(Split(s, '.'))
    ensures Ascii(s)
    decreases |s|
  {
    CutParts(s, '.');
    var parts := Split(s, '.');
    LabelAscii(parts[0]);
    if Cut(s, '.').Some? {
      var after := Cut(s, '.').value.after;
      assert parts[1..] == Split(after, '.');
      forall i | 0 <= i < |parts[1..]| ensures GoodLabel(parts[1..][i]) {
        assert parts[1..][i] == parts[i + 1];
      }
      LabelsAscii(after);
    }
  }

  lemma LabelAscii(part: string)
    requires GoodLabel(part)
    ensures Ascii(part)
  {
  }

  /** The characters of RFC 3986 (section 2): what is visible in ASCII, but for ten characters. */
  lemma UriCharRule(c: char)
    ensures IsUriChar(c) <==> '!' <= c <= '~' && c !in "\"<>\\^`{|}"
  {
  }

  // ---------------------------------------------------------------- lists of variables

  /** The variables before index `k` are fine. */
  predicate FineBefore(vars: seq<EnvVar>, k: nat, known: set<string>)
    requires k <= |vars|
  {
    && (forall j :: 0 <= j < k ==> VarOk(vars[j], known))
    && forall i, j :: 0 <= i < j < k ==> vars[i].name != vars[j].name
  }

  /** Variable `k` breaks the rule the error names, and no rule before that one. */
  predicate VarBreaks(vars: seq<EnvVar>, k: nat, known: set<string>, e: EnvError)
    requires k < |vars|
  {
    var v := vars[k];
    var taken := exists j :: 0 <= j < k && vars[j].name == v.name;
    var text := v.secret == "" && v.key == "";
    match e
    case TooManyVars => false
    case BadVarName(n) => n == v.name && !EnvNameOk(n)
    case VarTwice(n) => n == v.name && EnvNameOk(n) && taken
    case ValueTooLong(n) => n == v.name && EnvNameOk(n) && !taken && text && |v.value| > 4096
    case BadRefSecret(n) => n == v.name && EnvNameOk(n) && !taken && !text && !K8sNameOk(v.secret)
    case BadRefKey(n) =>
      n == v.name && EnvNameOk(n) && !taken && !text && K8sNameOk(v.secret) && !SecretKeyOk(v.key)
    case UnknownSecret(n) =>
      n == v.name && EnvNameOk(n) && !taken && !text && K8sNameOk(v.secret) && SecretKeyOk(v.key) && v.secret !in known
  }

  ghost predicate NamesBefore(vars: seq<EnvVar>, i: nat, seen: set<string>)
    requires i <= |vars|
  {
    forall n :: n in seen <==> exists j :: 0 <= j < i && vars[j].name == n
  }

  lemma VarReports(vars: seq<EnvVar>, i: nat, seen: set<string>, known: set<string>)
    requires i < |vars| && NamesBefore(vars, i, seen)
    ensures match VarError(vars[i], seen, known)
            case Some(e) => VarBreaks(vars, i, known, e)
            case None => VarOk(vars[i], known) && vars[i].name !in seen
  {
  }

  lemma NamesMore(vars: seq<EnvVar>, i: nat, seen: set<string>)
    requires i < |vars| && NamesBefore(vars, i, seen)
    ensures NamesBefore(vars, i + 1, seen + {vars[i].name})
  {
  }

  lemma {:induction false} VarsReport(vars: seq<EnvVar>, i: nat, seen: set<string>, known: set<string>) returns (k: nat)
    requires i <= |vars| && NamesBefore(vars, i, seen) && FineBefore(vars, i, known)
    requires VarsError(vars, i, seen, known).Some?
    ensures k < |vars| && FineBefore(vars, k, known)
    ensures VarBreaks(vars, k, known, VarsError(vars, i, seen, known).value)
    decreases |vars| - i
  {
    VarReports(vars, i, seen, known);
    if VarError(vars[i], seen, known).Some? {
      k := i;
    } else {
      NamesMore(vars, i, seen);
      k := VarsReport(vars, i + 1, seen + {vars[i].name}, known);
    }
  }

  /** An environment is refused for its length, or for its first variable that breaks a rule. */
  ghost predicate EnvBreaks(vars: seq<EnvVar>, known: set<string>, e: EnvError) {
    if e.TooManyVars? then |vars| > 50
    else |vars| <= 50 && exists k :: 0 <= k < |vars| && FineBefore(vars, k, known) && VarBreaks(vars, k, known, e)
  }

  lemma EnvReports(vars: seq<EnvVar>, known: set<string>)
    ensures match EnvErrorOf(vars, known)
            case Some(e) => EnvBreaks(vars, known, e)
            case None => |vars| <= 50 && VarsOk(vars, known)
  {
    EnvExactly(vars, known);
    if |vars| <= 50 && EnvErrorOf(vars, known).Some? {
      var k := VarsReport(vars, 0, {}, known);
    }
  }

  // ------------------------------------------------------------------- lists of names

  /** The name at `k` stands in the list before. */
  predicate Repeated(names: seq<string>, k: nat)
    requires k < |names|
  {
    exists j :: 0 <= j < k && names[j] == names[k]
  }

  /** Name `k` is the first that breaks a rule, and it is the rule the error names. */
  predicate SecretBreaks(names: seq<string>, k: nat, e: ClaimError)
    requires k < |names|
  {
    && (forall j :: 0 <= j < k ==> SecretNameOk(names[j]) && !Repeated(names, j))
    && match e
       case BadSecretName(n) => n == names[k] && !SecretNameOk(n)
       case SecretTwice(n) => n == names[k] && SecretNameOk(n) && Repeated(names, k)
       case _ => false
  }

  lemma {:induction false} SecretsReport(names: seq<string>, i: nat, known: set<string>) returns (k: nat)
    requires i <= |names| && forall n :: n in known <==> exists j :: 0 <= j < i && names[j] == n
    requires forall j :: 0 <= j < i ==> SecretNameOk(names[j]) && !Repeated(names, j)
    requires SecretsError(names, i, known).Some?
    ensures k < |names| && SecretBreaks(names, k, SecretsError(names, i, known).value)
    decreases |names| - i
  {
    assert names[i] in known <==> Repeated(names, i);
    if SecretNameOk(names[i]) && names[i] !in known {
      k := SecretsReport(names, i + 1, known + {names[i]});
    } else {
      k := i;
    }
  }

  predicate EnvFromFine(names: seq<string>, j: nat, known: set<string>)
    requires j < |names|
  {
    K8sNameOk(names[j]) && !Repeated(names, j) && names[j] in known
  }

  predicate EnvFromBreaks(x: Component, names: seq<string>, k: nat, known: set<string>, e: ClaimError)
    requires k < |names|
  {
    && (forall j :: 0 <= j < k ==> EnvFromFine(names, j, known))
    && match e
       case BadEnvFrom(y, n) => y == x && n == names[k] && !K8sNameOk(n)
       case EnvFromTwice(y, n) => y == x && n == names[k] && K8sNameOk(n) && Repeated(names, k)
       case EnvFromUnknown(y, n) => y == x && n == names[k] && K8sNameOk(n) && !Repeated(names, k) && n !in known
       case _ => false
  }

  lemma {:induction false} EnvFromReport(x: Component, names: seq<string>, i: nat, seen: set<string>, known: set<string>)
    returns (k: nat)
    requires i <= |names| && forall n :: n in seen <==> exists j :: 0 <= j < i && names[j] == n
    requires forall j :: 0 <= j < i ==> EnvFromFine(names, j, known)
    requires EnvFromError(x, names, i, seen, known).Some?
    ensures k < |names| && EnvFromBreaks(x, names, k, known, EnvFromError(x, names, i, seen, known).value)
    decreases |names| - i
  {
    assert names[i] in seen <==> Repeated(names, i);
    if EnvFromFine(names, i, known) {
      k := EnvFromReport(x, names, i + 1, seen + {names[i]}, known);
    } else {
      k := i;
    }
  }

  /** A list of secrets is refused for its length, or for its first name that breaks a rule. */
  ghost predicate EnvFromRefused(x: Component, names: seq<string>, known: set<string>, e: ClaimError) {
    if e == TooManyEnvFrom(x) then |names| > 10
    else |names| <= 10 && exists k :: 0 <= k < |names| && EnvFromBreaks(x, names, k, known, e)
  }

  lemma EnvFromReports(x: Component, names: seq<string>, known: set<string>)
    ensures match EnvFromErrorOf(x, names, known)
            case Some(e) => EnvFromRefused(x, names, known, e)
            case None => |names| <= 10 && EnvFromOk(names, known)
  {
    EnvFromExactly(x, names, known);
    if |names| <= 10 && EnvFromErrorOf(x, names, known).Some? {
      var k := EnvFromReport(x, names, 0, {}, known);
    }
  }

  // ---------------------------------------------------------------------- one component

  predicate TagBreaks(tag: string, e: TagError) {
    match e
    case NoTag => tag == ""
    case Latest => tag == "latest"
    case BadTagPattern => tag != "" && tag != "latest" && !ImageTagOk(tag)
  }

  /** At most 4Gi of memory or 4 cores, with the slack of 1e-12. */
  function Limit(memory: bool): real { (if memory then 4294967296.0 else 4.0) * 1.000000000001 }

  ghost predicate QuantityBreaks(q: string, memory: bool, e: Quantity.QuantityError) {
    match e
    case Missing => q == ""
    case Malformed => q != "" && !Quantity.IsQuantity(memory, q)
    case NotPositive => Quantity.IsQuantity(memory, q) && Quantity.QuantityValue(q) <= 0.0
    case TooLarge => Quantity.IsQuantity(memory, q) && Quantity.QuantityValue(q) > Limit(memory)
  }

  lemma QuantityReports(q: string, memory: bool)
    ensures match Quantity.Check(q, memory)
            case Some(e) => QuantityBreaks(q, memory, e)
            case None => Quantity.IsQuantity(memory, q) && 0.0 < Quantity.QuantityValue(q) <= Limit(memory)
  {
    Quantity.PatternExactly(memory, q);
  }

  /** The rules before a component's environment, in the order they are checked. */
  ghost predicate BlockRule(b: ComponentInput, k: nat) {
    match k
    case 0 => 3 <= |b.repository| <= 253
    case 1 => ImageTagOk(b.tag)
    case 2 => Quantity.Accepted(true, b.memory)
    case 3 => Quantity.Accepted(false, b.cpu)
    case 4 => b.port == 0 || 1024 <= b.port <= 65535
    case 5 => ProbeOk(b.probes.liveness)
    case 6 => ProbeOk(b.probes.readiness)
    case _ => ProbeOk(b.probes.startup)
  }

  /** Rule `k` is broken the way the error says. */
  ghost predicate BlockBreaks(x: Component, b: ComponentInput, k: nat, e: ClaimError) {
    match e
    case BadImage(y) => y == x && k == 0
    case BadTag(y, t) => y == x && k == 1 && TagBreaks(b.tag, t)
    case BadMemory(y, q) => y == x && k == 2 && QuantityBreaks(b.memory, true, q)
    case BadCpu(y, q) => y == x && k == 3 && QuantityBreaks(b.cpu, false, q)
    case BadPort(y) => y == x && k == 4
    case BadProbe(y, path) =>
      && y == x && k in {5, 6, 7}
      && path == (if k == 5 then b.probes.liveness else if k == 6 then b.probes.readiness else b.probes.startup)
    case _ => false
  }

  ghost predicate FirstBlockRule(b: ComponentInput, k: nat) {
    k < 8 && !BlockRule(b, k) && forall j: nat :: j < k ==> BlockRule(b, j)
  }

  ghost predicate BlockRefused(x: Component, b: ComponentInput, e: ClaimError) {
    exists k :: FirstBlockRule(b, k) && BlockBreaks(x, b, k, e)
  }

  lemma ImageReports(x: Component, b: ComponentInput)
    ensures match ImageError(x, b)
            case Some(e) =>
              || (e == BadImage(x) && !BlockRule(b, 0))
              || (e.BadTag? && BlockRule(b, 0) && !BlockRule(b, 1) && BlockBreaks(x, b, 1, e))
            case None => BlockRule(b, 0) && BlockRule(b, 1)
  {
  }

  lemma MemoryReports(x: Component, b: ComponentInput, e: Quantity.QuantityError)
    requires Quantity.Check(b.memory, true) == Some(e)
    ensures LimitError(x, b) == Some(BadMemory(x, e)) && !BlockRule(b, 2) && BlockBreaks(x, b, 2, BadMemory(x, e))
  {
    QuantityReports(b.memory, true);
  }

  lemma CpuReports(x: Component, b: ComponentInput, e: Quantity.QuantityError)
    requires Quantity.Check(b.memory, true) == None && Quantity.Check(b.cpu, false) == Some(e)
    ensures LimitError(x, b) == Some(BadCpu(x, e)) && BlockRule(b, 2) && !BlockRule(b, 3) && BlockBreaks(x, b, 3, BadCpu(x, e))
  {
    QuantityReports(b.cpu, false);
  }

  /** What `LimitError` reports about rules 2 and 3. */
  ghost predicate LimitRefused(x: Component, b: ComponentInput, e: ClaimError) {
    || (e.BadMemory? && !BlockRule(b, 2) && BlockBreaks(x, b, 2, e))
    || (e.BadCpu? && BlockRule(b, 2) && !BlockRule(b, 3) && BlockBreaks(x, b, 3, e))
  }

  lemma LimitReports(x: Component, b: ComponentInput)
    ensures LimitError(x, b).Some? ==> LimitRefused(x, b, LimitError(x, b).value)
    ensures LimitError(x, b) == None ==> BlockRule(b, 2) && BlockRule(b, 3)
  {
    var memory, cpu := Quantity.Check(b.memory, true), Quantity.Check(b.cpu, false);
    if memory.Some? {
      MemoryReports(x, b, memory.value);
    } else if cpu.Some? {
      CpuReports(x, b, cpu.value);
    }
  }

  lemma RefusedAt(x: Component, b: ComponentInput, k: nat, e: ClaimError)
    requires FirstBlockRule(b, k) && BlockBreaks(x, b, k, e)
    ensures BlockRefused(x, b, e)
  {
  }

  lemma ProbesReport(x: Component, b: ComponentInput, e: ClaimError) returns (k: nat)
    requires (if PortOk(b.port) then ProbesError(x, b.probes) else Some(BadPort(x))) == Some(e)
    ensures 4 <= k < 8 && !BlockRule(b, k) && BlockBreaks(x, b, k, e)
    ensures (k > 4 ==> BlockRule(b, 4)) && (k > 5 ==> BlockRule(b, 5)) && (k > 6 ==> BlockRule(b, 6))
  {
    if !PortOk(b.port) {
      k := 4;
    } else if !ProbeOk(b.probes.liveness) {
      k := 5;
    } else if !ProbeOk(b.probes.readiness) {
      k := 6;
    } else {
      k := 7;
    }
  }

  /** The first rule the block breaks is reported, as what it is. */
  lemma BlockReports(x: Component, b: ComponentInput)
    ensures BlockError(x, b).Some? ==> BlockRefused(x, b, BlockError(x, b).value)
  {
    ImageReports(x, b);
    LimitReports(x, b);
    if BlockError(x, b).Some? {
      var e := BlockError(x, b).value;
      if ImageError(x, b).Some? {
        RefusedAt(x, b, if e.BadImage? then 0 else 1, e);
      } else if LimitError(x, b).Some? {
        RefusedAt(x, b, if e.BadMemory? then 2 else 3, e);
      } else {
        var k := ProbesReport(x, b, e);
        RefusedAt(x, b, k, e);
      }
    }
  }

  ghost predicate ComponentRefused(x: Component, b: ComponentInput, known: set<string>, e: ClaimError) {
    || BlockRefused(x, b, e)
    || (BlockOk(b) && e.BadEnv? && e.place == ComponentEnv(x) && EnvBreaks(b.env, known, e.env))
    || (BlockOk(b) && |b.env| <= 50 && VarsOk(b.env, known) && EnvFromRefused(x, b.envFrom, known, e))
  }

  lemma ComponentReports(x: Component, b: ComponentInput, known: set<string>)
    ensures ComponentError(x, b, known).Some? ==> ComponentRefused(x, b, known, ComponentError(x, b, known).value)
  {
    BlockReports(x, b);
    BlockExactly(x, b);
    EnvReports(b.env, known);
    EnvFromReports(x, b.envFrom, known);
  }

  // -------------------------------------------------------------------- the whole claim

  /** The rules on the head of a claim, in the order they are checked. */
  predicate HeadRule(c: ClaimInput, w: World, k: nat) {
    match k
    case 0 => SlugOk(c.slug)
    case 1 => !w.reserved(c.slug)
    case 2 => LoginOk(c.technical)
    case 3 => LoginOk(c.organizational)
    case 4 => w.parsed(c.repoUrl) && "https://" <= c.repoUrl
    case 5 => forall i :: 0 <= i < |c.repoUrl| ==> IsUriChar(c.repoUrl[i])
    case 6 => c.has.backend || c.has.frontend
    case 7 => c.stages.staging.enabled || c.stages.prod.enabled
    case 8 => HostOk(c.stages.staging.host)
    case 9 => HostOk(c.stages.prod.host)
    case _ => SecretsOk(c.sharedSecrets)
  }

  /** The rule an error is about. */
  function RuleOf(e: ClaimError): nat {
    match e
    case BadSlug => 0
    case ReservedSlug => 1
    case BadTechnical => 2
    case BadOrganizational => 3
    case BadRepoUrl => 4
    case OddRepoUrl(_) => 5
    case NoComponent => 6
    case NoStage => 7
    case BadHost(s) => if s == Staging then 8 else 9
    case _ => 10
  }

  /** The first broken rule of the head is the one the error is about. */
  predicate FirstHeadRule(c: ClaimInput, w: World, e: ClaimError) {
    !HeadRule(c, w, RuleOf(e)) && forall k: nat :: k < RuleOf(e) ==> HeadRule(c, w, k)
  }

  ghost predicate HeadRefused(c: ClaimInput, w: World, e: ClaimError) {
    && FirstHeadRule(c, w, e)
    && (e.OddRepoUrl? ==> FirstOdd(c.repoUrl, e.c))
    && (RuleOf(e) == 10 ==> exists k :: 0 <= k < |c.sharedSecrets| && SecretBreaks(c.sharedSecrets, k, e))
  }

  predicate FirstOdd(s: string, c: char) {
    exists i :: 0 <= i < |s| && s[i] == c && !IsUriChar(c) && forall j :: 0 <= j < i ==> IsUriChar(s[j])
  }

  lemma {:induction false} OddReports(s: string, i: nat)
    requires i <= |s| && forall j :: 0 <= j < i ==> IsUriChar(s[j])
    ensures OddChar(s, i).Some? ==> FirstOdd(s, OddChar(s, i).value)
    decreases |s| - i
  {
    if i < |s| && IsUriChar(s[i]) {
      OddReports(s, i + 1);
    }
  }

  lemma OwnerReports(c: ClaimInput, w: World)
    ensures match OwnerError(c, w)
            case Some(e) => RuleOf(e) <= 5 && FirstHeadRule(c, w, e)
            case None => forall k: nat :: k <= 5 ==> HeadRule(c, w, k)
  {
    OddCharExactly(c.repoUrl, 0);
  }

  lemma ShapeReports(c: ClaimInput, w: World)
    ensures match ShapeError(c)
            case Some(e) =>
              && 6 <= RuleOf(e) <= 10 && !HeadRule(c, w, RuleOf(e))
              && forall k: nat :: 6 <= k < RuleOf(e) ==> HeadRule(c, w, k)
            case None => forall k: nat :: 6 <= k ==> HeadRule(c, w, k)
  {
    SecretsExactly(c.sharedSecrets);
    SecretsErrorKind(c.sharedSecrets, 0, {});
  }

  lemma HeadReportsRule(c: ClaimInput, w: World)
    ensures HeadError(c, w).Some? ==> FirstHeadRule(c, w, HeadError(c, w).value)
  {
    OwnerReports(c, w);
    ShapeReports(c, w);
  }

  lemma {:induction false} SecretsErrorKind(names: seq<string>, i: nat, known: set<string>)
    requires i <= |names|
    ensures SecretsError(names, i, known).Some? ==> RuleOf(SecretsError(names, i, known).value) == 10
    decreases |names| - i
  {
    if i < |names| {
      SecretsErrorKind(names, i + 1, known + {names[i]});
    }
  }

  lemma HeadReports(c: ClaimInput, w: World)
    ensures HeadError(c, w).Some? ==> HeadRefused(c, w, HeadError(c, w).value)
  {
    HeadReportsRule(c, w);
    OddReports(c.repoUrl, 0);
    if SecretsError(c.sharedSecrets, 0, {}).Some? {
      var k := SecretsReport(c.sharedSecrets, 0, {});
    }
  }

  /** The rules on what is enabled, in the order they are checked. */
  predicate BodyRule(c: ClaimInput, known: set<string>, k: nat) {
    match k
    case 0 => c.has.backend ==> ComponentOk(c.components.backend, known)
    case 1 => c.has.frontend ==> ComponentOk(c.components.frontend, known)
    case 2 => c.has.backend ==> StageVarsOk(c, Staging, Backend, known)
    case 3 => c.has.frontend ==> StageVarsOk(c, Staging, Frontend, known)
    case 4 => c.has.backend ==> StageVarsOk(c, Prod, Backend, known)
    case _ => c.has.frontend ==> StageVarsOk(c, Prod, Frontend, known)
  }

  /** Rule `k` is broken the way the error says. */
  ghost predicate BodyBreaks(c: ClaimInput, known: set<string>, k: nat, e: ClaimError) {
    match k
    case 0 => c.has.backend && ComponentRefused(Backend, c.components.backend, known, e)
    case 1 => c.has.frontend && ComponentRefused(Frontend, c.components.frontend, known, e)
    case 2 => c.has.backend && EnvRefused(StageEnv(Staging, Backend), c.stages.staging.env.backend, known, e)
    case 3 => c.has.frontend && EnvRefused(StageEnv(Staging, Frontend), c.stages.staging.env.frontend, known, e)
    case 4 => c.has.backend && EnvRefused(StageEnv(Prod, Backend), c.stages.prod.env.backend, known, e)
    case _ => c.has.frontend && EnvRefused(StageEnv(Prod, Frontend), c.stages.prod.env.frontend, known, e)
  }

  ghost predicate EnvRefused(place: EnvPlace, vars: seq<EnvVar>, known: set<string>, e: ClaimError) {
    e.BadEnv? && e.place == place && EnvBreaks(vars, known, e.env)
  }

  ghost predicate BodyRefused(c: ClaimInput, known: set<string>, e: ClaimError) {
    exists k: nat :: k < 6 && (forall j: nat :: j < k ==> BodyRule(c, known, j)) && BodyBreaks(c, known, k, e)
  }

  lemma SideReports(c: ClaimInput, x: Component, known: set<string>)
    ensures match ComponentIfEnabled(c, x, known)
            case Some(e) => c.has.Get(x) && ComponentRefused(x, c.components.Get(x), known, e)
            case None => c.has.Get(x) ==> ComponentOk(c.components.Get(x), known)
  {
    ComponentReports(x, c.components.Get(x), known);
    ComponentExactly(x, c.components.Get(x), known);
  }

  lemma StageReports(c: ClaimInput, s: Stage, x: Component, known: set<string>)
    ensures match StageEnvIfEnabled(c, s, x, known)
            case Some(e) => c.has.Get(x) && EnvRefused(StageEnv(s, x), c.stages.Get(s).env.Get(x), known, e)
            case None => c.has.Get(x) ==> StageVarsOk(c, s, x, known)
  {
    EnvReports(c.stages.Get(s).env.Get(x), known);
  }

  lemma BodyRefusedAt(c: ClaimInput, known: set<string>, k: nat, e: ClaimError)
    requires k < 6 && (forall j: nat :: j < k ==> BodyRule(c, known, j)) && BodyBreaks(c, known, k, e)
    ensures BodyRefused(c, known, e)
  {
  }

  lemma StagesReport(c: ClaimInput, known: set<string>, e: ClaimError)
    requires BodyRule(c, known, 0) && BodyRule(c, known, 1)
    requires First(StageEnvError(c, Staging, known), StageEnvError(c, Prod, known)) == Some(e)
    ensures BodyRefused(c, known, e)
  {
    StageReports(c, Staging, Backend, known);
    StageReports(c, Staging, Frontend, known);
    StageReports(c, Prod, Backend, known);
    StageReports(c, Prod, Frontend, known);
    if StageEnvIfEnabled(c, Staging, Backend, known).Some? {
      BodyRefusedAt(c, known, 2, e);
    } else if StageEnvIfEnabled(c, Staging, Frontend, known).Some? {
      BodyRefusedAt(c, known, 3, e);
    } else if StageEnvIfEnabled(c, Prod, Backend, known).Some? {
      BodyRefusedAt(c, known, 4, e);
    } else {
      BodyRefusedAt(c, known, 5, e);
    }
  }

  lemma BodyReports(c: ClaimInput, known: set<string>)
    ensures BodyError(c, known).Some? ==> BodyRefused(c, known, BodyError(c, known).value)
  {
    SideReports(c, Backend, known);
    SideReports(c, Frontend, known);
    if BodyError(c, known).Some? {
      var e := BodyError(c, known).value;
      if ComponentIfEnabled(c, Backend, known).Some? {
        BodyRefusedAt(c, known, 0, e);
      } else if ComponentIfEnabled(c, Frontend, known).Some? {
        BodyRefusedAt(c, known, 1, e);
      } else {
        StagesReport(c, known, e);
      }
    }
  }

  ghost predicate TailRefused(c: ClaimInput, e: ClaimError) {
    match e
    case BadAuthScope => !AuthScopeOk(c.authScope)
    case BadClientId(s) =>
      && AuthScopeOk(c.authScope)
      && (if s == Staging then !ClientIdOk(c.clientIds.staging)
          else ClientIdOk(c.clientIds.staging) && !ClientIdOk(c.clientIds.prod))
    case BadCreatedAt =>
      && AuthScopeOk(c.authScope) && ClientIdOk(c.clientIds.staging) && ClientIdOk(c.clientIds.prod)
      && c.createdAt != "" && Calendar.Parse(c.createdAt) == None
    case _ => false
  }

  lemma TailReports(c: ClaimInput)
    ensures TailError(c).Some? ==> TailRefused(c, TailError(c).value)
  {
  }

  /** The error of `Validate` is the first broken rule: of the head, then of what is enabled, then of the rest. */
  lemma ClaimReports(c: ClaimInput, w: World)
    requires ClaimErrorOf(c, w).Some?
    ensures var e, known := ClaimErrorOf(c, w).value, Names(c.sharedSecrets);
            || HeadRefused(c, w, e)
            || (HeadOk(c, w) && BodyRefused(c, known, e))
            || (HeadOk(c, w) && BodyOk(c, known) && TailRefused(c, e))
  {
    HeadReports(c, w);
    HeadExactly(c, w);
    BodyReports(c, Names(c.sharedSecrets));
    BodyExactly(c, Names(c.sharedSecrets));
    TailReports(c);
  }
}
