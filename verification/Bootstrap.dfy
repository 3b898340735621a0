/**
 The repository bootstrap (internal/repobootstrap/bootstrap.go) and the compliance
 checks it has to satisfy (internal/compliance/checks.go), on a repository that nobody
 else changes meanwhile, with calls that can fail in any pattern.
 */
module Bootstrap {
  import opened GitRepo
  import opened Text
  import opened Wrappers

  // --------------------------------------------------------------------------- calls

  datatype ApiError = ApiError(status: nat, text: string)

  /** A call that fails; a write may have taken effect all the same. */
  datatype Fault = Fault(error: ApiError, applied: bool)

  /** What happens to the call with a given number; `None` is a proper answer. */
  type Faults = nat -> Option<Fault>

  /** `isNotFound`: status 404, or "404" anywhere in the text of the error. */
  predicate IsNotFound(e: ApiError) { e.status == 404 || Contains(e.text, "404") }

  /** A failure that reads as an honest "not found". */
  predicate Misleads(f: Option<Fault>) { f.Some? && IsNotFound(f.value.error) }

  predicate Applies(f: Option<Fault>) { f.None? || f.value.applied }

  datatype Protection = Minimal | Custom(rules: string)

  datatype World = World(files: Tree, protection: Option<Protection>, calls: nat)

  datatype Status = Applied | Skipped | Failed

  datatype Action = Action(name: string, status: Status, path: string)

  // --------------------------------------------------------------------------- steps

  datatype FileStep = FileStep(name: string, path: string, template: string, slugged: bool, equivalents: seq<string>)

  const PR_TITLE := FileStep("PR-title workflow", ".github/workflows/test-pr-title.yml",
    "templates/test-pr-title.yml", false, [".github/workflows/test-pr-title.yaml"])
  const RELEASE_PLEASE := FileStep("release-please workflow", ".github/workflows/release-please.yml",
    "templates/release-please.yml", false, [".github/workflows/release-please.yaml"])
  const RELEASE_CONFIG := FileStep("release-please config", "release-please-config.json",
    "templates/release-please-config.json", true, [])
  const RELEASE_MANIFEST := FileStep("release-please manifest", ".release-please-manifest.json",
    "templates/release-please-manifest.json", false, [])
  const SOPS := FileStep("sops config", ".sops.yaml", "templates/.sops.yaml", false, [])
  const AGENTS := FileStep("AGENTS.md (AI-agent instructions)", "AGENTS.md", "templates/AGENTS.md", false, [])
  const PROTECTION_NAME := "Branch protection on `main`"
  const MAIN := "main"

  function FileSteps(): seq<FileStep> {
    [PR_TITLE, RELEASE_PLEASE, RELEASE_CONFIG, RELEASE_MANIFEST, SOPS, AGENTS]
  }

  function Candidates(s: FileStep): seq<string> { [s.path] + s.equivalents }

  function ReplaceAll(s: string, what: string, with: string): string
    requires what != ""
    decreases |s|
  {
    if s == "" then ""
    else if HasPrefix(s, what) then with + ReplaceAll(s[|what|..], what, with)
    else [s[0]] + ReplaceAll(s[1..], what, with)
  }

  function ContentOf(s: FileStep, slug: string, body: string): string {
    if s.slugged then ReplaceAll(body, "__SLUG__", slug) else body
  }

  // ------------------------------------------------------------------------ one file

  datatype Probe = Exists(path: string) | Broken(path: string) | Absent

  /** How one probe of a path is understood. */
  function Reading(files: Tree, path: string, f: Option<Fault>): Probe {
    if f.None? then (if PathIn(files, path) then Exists(path) else Absent)
    else if IsNotFound(f.value.error) then Absent
    else Broken(path)
  }

  /** The candidates from index `i` on, until one is found or a probe breaks; and the calls made. */
  function ProbeFrom(w: World, paths: seq<string>, i: nat, faults: Faults): (Probe, nat)
    requires i <= |paths|
    decreases |paths| - i
  {
    if i == |paths| then (Absent, w.calls + i)
    else
      var r := Reading(w.files, paths[i], faults(w.calls + i));
      if r.Absent? then ProbeFrom(w, paths, i + 1, faults) else (r, w.calls + i + 1)
  }

  /** `CreateFile` without a previous version refuses a path that is taken, also by a directory or below a file. */
  predicate Taken(files: Tree, path: string) {
    PathIn(files, path) || exists q :: q in files && Below(q, path)
  }

  /** What is in the files after an attempt to create one. */
  function Created(files: Tree, path: string, content: string, f: Option<Fault>): Tree {
    if Taken(files, path) || !Applies(f) then files else files[path := content]
  }

  predicate CreateOk(files: Tree, path: string, f: Option<Fault>) { f.None? && !Taken(files, path) }

  /** `ensureFile`, with the template's text if it is embedded. */
  function EnsureFile(w: World, s: FileStep, slug: string, body: Option<string>, faults: Faults): (World, Action) {
    var (probe, calls) := ProbeFrom(w, Candidates(s), 0, faults);
    match probe
    case Exists(p) => (w.(calls := calls), Action(s.name, Skipped, p))
    case Broken(p) => (w.(calls := calls), Action(s.name, Failed, p))
    case Absent =>
      if body.None? then (w.(calls := calls), Action(s.name, Failed, s.path))
      else
        var f := faults(calls);
        (World(Created(w.files, s.path, ContentOf(s, slug, body.value), f), w.protection, calls + 1),
         Action(s.name, if CreateOk(w.files, s.path, f) then Applied else Failed, s.path))
  }

  /** `ensureBranchProtectionMain`: protect unless a protection is found. */
  function EnsureProtection(w: World, faults: Faults): (World, Action) {
    var f := faults(w.calls);
    if f.None? && w.protection.Some? then (w.(calls := w.calls + 1), Action(PROTECTION_NAME, Skipped, MAIN))
    else if f.Some? && !IsNotFound(f.value.error) then (w.(calls := w.calls + 1), Action(PROTECTION_NAME, Failed, MAIN))
    else
      var g := faults(w.calls + 1);
      (World(w.files, if Applies(g) then Some(Minimal) else w.protection, w.calls + 2),
       Action(PROTECTION_NAME, if g.None? then Applied else Failed, MAIN))
  }

  type Templates = string -> Option<string>

  function RunFiles(w: World, steps: seq<FileStep>, slug: string, templates: Templates, faults: Faults): (World, seq<Action>) {
    if steps == [] then (w, [])
    else
      var n := |steps| - 1;
      var (w1, done) := RunFiles(w, steps[..n], slug, templates, faults);
      var (w2, a) := EnsureFile(w1, steps[n], slug, templates(steps[n].template), faults);
      (w2, done + [a])
  }

  function RunAll(w: World, slug: string, templates: Templates, faults: Faults): (World, seq<Action>) {
    var (w1, done) := RunFiles(w, FileSteps(), slug, templates, faults);
    var (w2, a) := EnsureProtection(w1, faults);
    (w2, done + [a])
  }

  // ----------------------------------------------------------- the repository and calls

  class Target {
    var files: Tree
    var protection: Option<Protection>
    var calls: nat
    const faults: Faults

    constructor (files: Tree, protection: Option<Protection>, faults: Faults)
      ensures State() == World(files, protection, 0) && this.faults == faults
    {
      this.files, this.protection, this.calls, this.faults := files, protection, 0, faults;
    }

    function State(): World
      reads this
    {
      World(files, protection, calls)
    }

    /** `None` when the path is found. */
    method GetContents(path: string) returns (error: Option<ApiError>)
      modifies this`calls
      ensures calls == old(calls) + 1
      ensures match Reading(files, path, faults(old(calls)))
              case Exists(_) => error.None?
              case Broken(_) => error.Some? && !IsNotFound(error.value)
              case Absent => error.Some? && IsNotFound(error.value)
    {
      var f := faults(calls);
      calls := calls + 1;
      if f.Some? {
        return Some(f.value.error);
      }
      return if PathIn(files, path) then None else Some(ApiError(404, "Not Found"));
    }

    method CreateFile(path: string, content: string) returns (ok: bool)
      modifies this`files, this`calls
      ensures State() == World(Created(old(files), path, content, faults(old(calls))), old(protection), old(calls) + 1)
      ensures ok <==> CreateOk(old(files), path, faults(old(calls)))
    {
      var f := faults(calls);
      calls := calls + 1;
      ok := f.None? && !Taken(files, path);
      if (f.None? || f.value.applied) && !Taken(files, path) {
        files := files[path := content];
      }
    }

    method GetProtection() returns (error: Option<ApiError>)
      modifies this`calls
      ensures calls == old(calls) + 1
      ensures var f := faults(old(calls));
              if f.Some? then error == Some(f.value.error)
              else if protection.Some? then error == None
              else error.Some? && error.value.status == 404
    {
      var f := faults(calls);
      calls := calls + 1;
      if f.Some? {
        return Some(f.value.error);
      }
      return if protection.Some? then None else Some(ApiError(404, "Branch not protected"));
    }

    /** Replaces whatever protection there is. */
    method UpdateProtection() returns (ok: bool)
      modifies this`protection, this`calls
      ensures calls == old(calls) + 1 && (ok <==> faults(old(calls)).None?)
      ensures protection == if Applies(faults(old(calls))) then Some(Minimal) else old(protection)
    {
      var f := faults(calls);
      calls := calls + 1;
      ok := f.None?;
      if f.None? || f.value.applied {
        protection := Some(Minimal);
      }
    }
  }

  method DoEnsureFile(t: Target, s: FileStep, slug: string, body: Option<string>) returns (a: Action)
    modifies t
    ensures (t.State(), a) == EnsureFile(old(t.State()), s, slug, body, t.faults)
  {
    var paths := [s.path] + s.equivalents;
    ghost var w := t.State();
    for i := 0 to |paths|
      invariant t.State() == w.(calls := w.calls + i)
      invariant ProbeFrom(w, Candidates(s), 0, t.faults) == ProbeFrom(w, paths, i, t.faults)
    {
      var error := t.GetContents(paths[i]);
      if error.None? {
        return Action(s.name, Skipped, paths[i]);
      }
      if !IsNotFound(error.value) {
        return Action(s.name, Failed, paths[i]);
      }
    }
    if body.None? {
      return Action(s.name, Failed, s.path);
    }
    var content := body.value;
    if s.slugged {
      content := ReplaceAll(content, "__SLUG__", slug);
    }
    var ok := t.CreateFile(s.path, content);
    return Action(s.name, if ok then Applied else Failed, s.path);
  }

  method DoEnsureProtection(t: Target) returns (a: Action)
    modifies t
    ensures (t.State(), a) == EnsureProtection(old(t.State()), t.faults)
  {
    var error := t.GetProtection();
    if error.None? {
      return Action(PROTECTION_NAME, Skipped, MAIN);
    }
    if !IsNotFound(error.value) {
      return Action(PROTECTION_NAME, Failed, MAIN);
    }
    var ok := t.UpdateProtection();
    return Action(PROTECTION_NAME, if ok then Applied else Failed, MAIN);
  }

  /** `Run`: one action per step, whatever fails. */
  method Run(t: Target, slug: string, templates: Templates) returns (out: seq<Action>)
    modifies t
    ensures (t.State(), out) == RunAll(old(t.State()), slug, templates, t.faults)
  {
    var steps := FileSteps();
    ghost var w := t.State();
    out := [];
    for i := 0 to |steps|
      invariant (t.State(), out) == RunFiles(w, steps[..i], slug, templates, t.faults)
    {
      assert steps[..i + 1][..i] == steps[..i];
      var a := DoEnsureFile(t, steps[i], slug, templates(steps[i].template));
      out := out + [a];
    }
    assert steps[..|steps|] == steps;
    var last := DoEnsureProtection(t);
    out := out + [last];
  }

  // ------------------------------------------------- no existing file is ever changed

  /** Everything in `old` is still there, unchanged. */
  predicate Keeps(before: Tree, after: Tree) {
    forall p :: p in before ==> p in after && after[p] == before[p]
  }

  lemma KeepsPaths(before: Tree, after: Tree, path: string)
    requires Keeps(before, after) && PathIn(before, path)
    ensures PathIn(after, path)
  {
    if path !in before {
      var p :| p in before && Below(path, p);
      assert p in after;
    }
  }

  lemma EnsureFileKeeps(w: World, s: FileStep, slug: string, body: Option<string>, faults: Faults)
    ensures var w' := EnsureFile(w, s, slug, body, faults).0;
            && Keeps(w.files, w'.files) && w'.protection == w.protection
            && (w'.files == w.files || (s.path !in w.files && w'.files.Keys == w.files.Keys + {s.path}))
  {
  }

  lemma {:induction false} RunFilesKeeps(w: World, steps: seq<FileStep>, slug: string, templates: Templates, faults: Faults)
    ensures var (w', done) := RunFiles(w, steps, slug, templates, faults);
            Keeps(w.files, w'.files) && w'.protection == w.protection && |done| == |steps|
  {
    if steps != [] {
      var n := |steps| - 1;
      RunFilesKeeps(w, steps[..n], slug, templates, faults);
      EnsureFileKeeps(RunFiles(w, steps[..n], slug, templates, faults).0, steps[n], slug, templates(steps[n].template), faults);
    }
  }

  /** Whatever fails, every file that was there is there unchanged after the run. */
  lemma RunKeepsFiles(w: World, slug: string, templates: Templates, faults: Faults)
    ensures Keeps(w.files, RunAll(w, slug, templates, faults).0.files)
  {
    RunFilesKeeps(w, FileSteps(), slug, templates, faults);
  }

  lemma {:induction false} RunFilesReports(w: World, steps: seq<FileStep>, slug: string, templates: Templates, faults: Faults, i: nat)
    requires i < |steps|
    ensures var done := RunFiles(w, steps, slug, templates, faults).1;
            |done| == |steps| && done[i].name == steps[i].name && done[i].path in Candidates(steps[i])
  {
    var n := |steps| - 1;
    RunFilesKeeps(w, steps[..n], slug, templates, faults);
    if i < n {
      RunFilesReports(w, steps[..n], slug, templates, faults, i);
    } else {
      ProbeNames(RunFiles(w, steps[..n], slug, templates, faults).0, Candidates(steps[n]), 0, faults);
    }
  }

  lemma {:induction false} ProbeNames(w: World, paths: seq<string>, i: nat, faults: Faults)
    requires i <= |paths|
    ensures var p := ProbeFrom(w, paths, i, faults).0;
            (p.Exists? ==> p.path in paths && PathIn(w.files, p.path)) && (p.Broken? ==> p.path in paths)
    decreases |paths| - i
  {
    if i < |paths| {
      ProbeNames(w, paths, i + 1, faults);
    }
  }

  /** One action per step, in the order of the steps, whatever fails. */
  lemma RunReports(w: World, slug: string, templates: Templates, faults: Faults, i: nat)
    requires i < 6
    ensures var out := RunAll(w, slug, templates, faults).1;
            && |out| == 7 && out[6].name == PROTECTION_NAME
            && out[i].name == FileSteps()[i].name && out[i].path in Candidates(FileSteps()[i])
  {
    RunFilesReports(w, FileSteps(), slug, templates, faults, i);
  }

  // --------------------------------------------------- a run without failures is complete

  /** The file of a step, or an equivalent, exists. */
  predicate StepInPlace(files: Tree, s: FileStep) {
    exists p :: p in Candidates(s) && PathIn(files, p)
  }

  predicate InPlace(w: World) {
    w.protection.Some? && forall s :: s in FileSteps() ==> StepInPlace(w.files, s)
  }

  lemma StepStays(before: Tree, after: Tree, s: FileStep)
    requires Keeps(before, after) && StepInPlace(before, s)
    ensures StepInPlace(after, s)
  {
    var p :| p in Candidates(s) && PathIn(before, p);
    KeepsPaths(before, after, p);
  }

  lemma EnsureFilePlaces(w: World, s: FileStep, slug: string, body: Option<string>, faults: Faults)
    requires !EnsureFile(w, s, slug, body, faults).1.status.Failed?
    ensures StepInPlace(EnsureFile(w, s, slug, body, faults).0.files, s)
  {
    ProbeNames(w, Candidates(s), 0, faults);
    var (w', a) := EnsureFile(w, s, slug, body, faults);
    assert s.path == Candidates(s)[0] && a.path in Candidates(s) && PathIn(w'.files, a.path);
  }

  predicate NoneFailed(out: seq<Action>) { forall i :: 0 <= i < |out| ==> !out[i].status.Failed? }

  lemma {:induction false} RunFilesPlaces(w: World, steps: seq<FileStep>, slug: string, templates: Templates, faults: Faults, i: nat)
    requires i < |steps| && NoneFailed(RunFiles(w, steps, slug, templates, faults).1)
    ensures StepInPlace(RunFiles(w, steps, slug, templates, faults).0.files, steps[i])
  {
    var n := |steps| - 1;
    var (w1, done) := RunFiles(w, steps[..n], slug, templates, faults);
    var (w2, a) := EnsureFile(w1, steps[n], slug, templates(steps[n].template), faults);
    assert (done + [a])[n] == a by {
      RunFilesKeeps(w, steps[..n], slug, templates, faults);
    }
    EnsureFileKeeps(w1, steps[n], slug, templates(steps[n].template), faults);
    if i < n {
      assert forall k :: 0 <= k < |done| ==> done[k] == (done + [a])[k];
      RunFilesPlaces(w, steps[..n], slug, templates, faults, i);
      StepStays(w1.files, w2.files, steps[i]);
    } else {
      EnsureFilePlaces(w1, steps[n], slug, templates(steps[n].template), faults);
    }
  }

  /** If no action failed, everything is in place, whatever the calls replied on the way. */
  lemma RunPlaces(w: World, slug: string, templates: Templates, faults: Faults)
    requires NoneFailed(RunAll(w, slug, templates, faults).1)
    ensures InPlace(RunAll(w, slug, templates, faults).0)
  {
    var (w1, done) := RunFiles(w, FileSteps(), slug, templates, faults);
    var out := RunAll(w, slug, templates, faults).1;
    assert forall k :: 0 <= k < |done| ==> out[k] == done[k];
    assert out[|done|] == EnsureProtection(w1, faults).1;
    forall s | s in FileSteps() ensures StepInPlace(w1.files, s) {
      var i :| 0 <= i < |FileSteps()| && FileSteps()[i] == s;
      RunFilesPlaces(w, FileSteps(), slug, templates, faults, i);
    }
  }

  /** In place means: these files, and a protected main. */
  lemma PlacedFiles(w: World)
    requires InPlace(w)
    ensures PathIn(w.files, ".github/workflows/test-pr-title.yml") || PathIn(w.files, ".github/workflows/test-pr-title.yaml")
    ensures PathIn(w.files, ".github/workflows/release-please.yml") || PathIn(w.files, ".github/workflows/release-please.yaml")
    ensures PathIn(w.files, "release-please-config.json") && PathIn(w.files, ".release-please-manifest.json")
    ensures PathIn(w.files, ".sops.yaml") && PathIn(w.files, "AGENTS.md")
    ensures w.protection.Some?
  {
    assert FileSteps()[0] == PR_TITLE && FileSteps()[1] == RELEASE_PLEASE && FileSteps()[2] == RELEASE_CONFIG;
    assert FileSteps()[3] == RELEASE_MANIFEST && FileSteps()[4] == SOPS && FileSteps()[5] == AGENTS;
    assert StepInPlace(w.files, PR_TITLE) && StepInPlace(w.files, RELEASE_PLEASE);
    assert StepInPlace(w.files, RELEASE_CONFIG) && StepInPlace(w.files, RELEASE_MANIFEST);
    assert StepInPlace(w.files, SOPS) && StepInPlace(w.files, AGENTS);
  }

  /** From call `n` on, every call gets a proper answer. */
  ghost predicate Faultless(faults: Faults, n: nat) {
    forall k: nat :: k >= n ==> faults(k) == None
  }

  lemma {:induction false} ProbeFinds(w: World, paths: seq<string>, i: nat, faults: Faults)
    requires i <= |paths| && Faultless(faults, w.calls)
    ensures var (p, calls) := ProbeFrom(w, paths, i, faults);
            && calls >= w.calls && !p.Broken?
            && (p.Exists? <==> exists k :: i <= k < |paths| && PathIn(w.files, paths[k]))
    decreases |paths| - i
  {
    if i < |paths| {
      ProbeFinds(w, paths, i + 1, faults);
    }
  }

  lemma SkipInPlace(w: World, s: FileStep, slug: string, body: Option<string>, faults: Faults)
    requires StepInPlace(w.files, s) && Faultless(faults, w.calls)
    ensures var (w', a) := EnsureFile(w, s, slug, body, faults);
            w' == w.(calls := w'.calls) && w'.calls >= w.calls && a.status == Skipped
  {
    ProbeFinds(w, Candidates(s), 0, faults);
    var p :| p in Candidates(s) && PathIn(w.files, p);
    var k :| 0 <= k < |Candidates(s)| && Candidates(s)[k] == p;
    assert PathIn(w.files, Candidates(s)[k]);
  }

  predicate AllSkipped(out: seq<Action>) { forall i :: 0 <= i < |out| ==> out[i].status == Skipped }

  lemma {:induction false} SkipFiles(w: World, steps: seq<FileStep>, slug: string, templates: Templates, faults: Faults)
    requires Faultless(faults, w.calls) && forall s :: s in steps ==> StepInPlace(w.files, s)
    ensures var (w', done) := RunFiles(w, steps, slug, templates, faults);
            w' == w.(calls := w'.calls) && w'.calls >= w.calls && AllSkipped(done)
  {
    if steps != [] {
      var n := |steps| - 1;
      SkipFiles(w, steps[..n], slug, templates, faults);
      assert steps[n] in steps;
      SkipInPlace(RunFiles(w, steps[..n], slug, templates, faults).0, steps[n], slug, templates(steps[n].template), faults);
    }
  }

  /** With everything in place, an undisturbed run only skips and leaves the repository as it is. */
  lemma SecondRunSkips(w: World, slug: string, templates: Templates, faults: Faults)
    requires InPlace(w) && Faultless(faults, w.calls)
    ensures var (w', out) := RunAll(w, slug, templates, faults);
            w'.files == w.files && w'.protection == w.protection && AllSkipped(out)
  {
    SkipFiles(w, FileSteps(), slug, templates, faults);
  }

  /** With proper answers a step skips what is there and otherwise creates its file, unless the path is taken. */
  lemma StepWithoutFaults(w: World, s: FileStep, slug: string, body: string, faults: Faults)
    requires Faultless(faults, w.calls)
    ensures var (w', a) := EnsureFile(w, s, slug, Some(body), faults);
            if StepInPlace(w.files, s) then a.status == Skipped && w'.files == w.files
            else if exists q :: q in w.files && Below(q, s.path) then a.status == Failed && w'.files == w.files
            else a.status == Applied && w'.files == w.files[s.path := ContentOf(s, slug, body)]
  {
    ProbeFinds(w, Candidates(s), 0, faults);
    if StepInPlace(w.files, s) {
      SkipInPlace(w, s, slug, Some(body), faults);
    } else {
      forall k | 0 <= k < |Candidates(s)| ensures !PathIn(w.files, Candidates(s)[k]) {
        assert Candidates(s)[k] in Candidates(s);
      }
      assert !PathIn(w.files, Candidates(s)[0]);
      ProbeCalls(w, Candidates(s), 0, faults);
    }
  }

  lemma {:induction false} ProbeCalls(w: World, paths: seq<string>, i: nat, faults: Faults)
    requires i <= |paths|
    ensures ProbeFrom(w, paths, i, faults).1 >= w.calls + i
    decreases |paths| - i
  {
    if i < |paths| {
      ProbeCalls(w, paths, i + 1, faults);
    }
  }

  /** A written template is the embedded text; only the release configuration has its placeholder filled in. */
  lemma ContentIs(slug: string, body: string)
    ensures ContentOf(RELEASE_CONFIG, slug, body) == ReplaceAll(body, "__SLUG__", slug)
    ensures forall s :: s in FileSteps() && s != RELEASE_CONFIG ==> ContentOf(s, slug, body) == body
  {
  }

  /** Every occurrence is replaced, from the left: a text is copied up to its first occurrence. */
  lemma {:induction false} ReplaceAllFirst(front: string, what: string, with: string, rest: string)
    requires what != "" && forall i :: 0 <= i < |front| ==> !HasPrefix((front + what + rest)[i..], what)
    ensures ReplaceAll(front + what + rest, what, with) == front + with + ReplaceAll(rest, what, with)
  {
    var s := front + what + rest;
    if front == "" {
      assert s == what + rest && s[|what|..] == rest;
    } else {
      assert !HasPrefix(s[0..], what) && s[0..] == s;
      var tail := front[1..] + what + rest;
      assert s[1..] == tail;
      forall i | 0 <= i < |front[1..]| ensures !HasPrefix(tail[i..], what) {
        assert tail[i..] == s[i + 1..];
      }
      ReplaceAllFirst(front[1..], what, with, rest);
      assert front == [front[0]] + front[1..];
    }
  }

  lemma {:induction false} ReplaceAllNone(s: string, what: string, with: string)
    requires what != "" && forall i :: 0 <= i < |s| ==> !HasPrefix(s[i..], what)
    ensures ReplaceAll(s, what, with) == s
  {
    if s != "" {
      assert s[0..] == s;
      forall i | 0 <= i < |s[1..]| ensures !HasPrefix(s[1..][i..], what) {
        assert s[1..][i..] == s[i + 1..];
      }
      ReplaceAllNone(s[1..], what, with);
    }
  }

  // --------------------------------------------- what a misleading failure can cause

  /** From index `i` on, every probe reads as absent. */
  predicate AllAbsent(w: World, paths: seq<string>, i: nat, faults: Faults) {
    forall k :: i <= k < |paths| ==> Reading(w.files, paths[k], faults(w.calls + k)).Absent?
  }

  lemma {:induction false} ProbeAbsentExactly(w: World, paths: seq<string>, i: nat, faults: Faults)
    requires i <= |paths|
    ensures var (p, calls) := ProbeFrom(w, paths, i, faults);
            (p.Absent? <==> AllAbsent(w, paths, i, faults)) && (p.Absent? ==> calls == w.calls + |paths|)
    decreases |paths| - i
  {
    if i < |paths| {
      ProbeAbsentExactly(w, paths, i + 1, faults);
    }
  }

  /** A file is created exactly when every probe reads as absent and the creation can and does happen. */
  lemma CreatesExactly(w: World, s: FileStep, slug: string, body: Option<string>, faults: Faults)
    ensures EnsureFile(w, s, slug, body, faults).0.files != w.files <==>
            && AllAbsent(w, Candidates(s), 0, faults)
            && body.Some? && !Taken(w.files, s.path) && Applies(faults(w.calls + |Candidates(s)|))
  {
    ProbeAbsentExactly(w, Candidates(s), 0, faults);
    var (probe, n) := ProbeFrom(w, Candidates(s), 0, faults);
    var files := EnsureFile(w, s, slug, body, faults).0.files;
    if !probe.Absent? || body.None? {
      assert files == w.files;
    } else if Taken(w.files, s.path) || !Applies(faults(n)) {
      assert files == w.files;
    } else {
      assert s.path !in w.files && s.path in files;
    }
  }

  /** A second copy beside an existing equivalent appears only behind a failure that reads as "not found". */
  lemma DuplicateNeedsMisleading(w: World, s: FileStep, slug: string, body: Option<string>, faults: Faults, k: nat)
    requires k < |Candidates(s)| && PathIn(w.files, Candidates(s)[k])
    requires EnsureFile(w, s, slug, body, faults).0.files != w.files
    ensures k > 0 && faults(w.calls + k).Some?
    ensures var e := faults(w.calls + k).value.error; e.status == 404 || Contains(e.text, "404")
  {
    CreatesExactly(w, s, slug, body, faults);
    assert Reading(w.files, Candidates(s)[k], faults(w.calls + k)).Absent?;
  }

  /** An existing protection is replaced exactly when its probe misleads and the update takes effect. */
  lemma ProtectionReplacedExactly(w: World, faults: Faults)
    requires w.protection.Some? && w.protection != Some(Minimal)
    ensures var probe, update := faults(w.calls), faults(w.calls + 1);
            EnsureProtection(w, faults).0.protection != w.protection <==>
              && probe.Some? && (probe.value.error.status == 404 || Contains(probe.value.error.text, "404"))
              && (update.None? || update.value.applied)
  {
  }

  /** A gateway error whose text happens to contain "404". */
  function GatewayError(): ApiError { ApiError(502, "bad gateway, request 8" + "404") }

  lemma GatewayErrorMisleads()
    ensures IsNotFound(GatewayError())
  {
    var front := "bad gateway, request 8";
    assert (front + "404")[|front|..] == "404";
  }

  /** One such error, with everything else working, replaces the rules of a protected branch. */
  lemma ProtectionCanBeReplaced(rules: string, n: nat, faults: Faults)
    requires faults(n) == Some(Fault(GatewayError(), false)) && faults(n + 1) == None
    ensures var (w', a) := EnsureProtection(World(map[], Some(Custom(rules)), n), faults);
            w'.protection == Some(Minimal) && a.status == Applied
  {
    GatewayErrorMisleads();
  }

  /** Over a whole run, an existing protection survives unless that happens. */
  lemma RunKeepsProtection(w: World, slug: string, templates: Templates, faults: Faults)
    requires w.protection.Some?
    ensures var w1 := RunFiles(w, FileSteps(), slug, templates, faults).0;
            RunAll(w, slug, templates, faults).0.protection != w.protection ==> Misleads(faults(w1.calls))
  {
    RunFilesKeeps(w, FileSteps(), slug, templates, faults);
  }

  // ------------------------------------------------------------------ compliance checks

  datatype CheckStatus = Pass | Fail | Error

  const PR_TITLE_FILES := [".github/workflows/test-pr-title.yml", ".github/workflows/test-pr-title.yaml"]
  const RELEASE_FILES := [
    ".github/workflows/release-please.yml", ".github/workflows/release-please.yaml",
    ".github/workflows/release.yml", ".github/workflows/release.yaml"
  ]

  /** `checkAnyFile` on the candidates from index `i` on; `broken` says that some probe failed before. */
  function AnyFile(w: World, paths: seq<string>, i: nat, broken: bool, faults: Faults): (CheckStatus, nat)
    requires i <= |paths|
    decreases |paths| - i
  {
    if i == |paths| then (if broken then Error else Fail, w.calls + i)
    else
      match Reading(w.files, paths[i], faults(w.calls + i))
      case Exists(_) => (Pass, w.calls + i + 1)
      case Broken(_) => AnyFile(w, paths, i + 1, true, faults)
      case Absent => AnyFile(w, paths, i + 1, broken, faults)
  }

  function ProtectionCheck(w: World, faults: Faults): CheckStatus {
    var f := faults(w.calls);
    if f.Some? then (if IsNotFound(f.value.error) then Fail else Error)
    else if w.protection.Some? then Pass else Fail
  }

  method CheckAnyFile(t: Target, paths: seq<string>) returns (status: CheckStatus)
    modifies t`calls
    ensures (status, t.calls) == AnyFile(old(t.State()), paths, 0, false, t.faults)
  {
    ghost var w := t.State();
    var lastErr: Option<ApiError> := None;
    for i := 0 to |paths|
      invariant t.calls == w.calls + i
      invariant AnyFile(w, paths, 0, false, t.faults) == AnyFile(w, paths, i, lastErr.Some?, t.faults)
    {
      var error := t.GetContents(paths[i]);
      if error.None? {
        return Pass;
      }
      if !IsNotFound(error.value) {
        lastErr := error;
      }
    }
    return if lastErr.Some? then Error else Fail;
  }

  method CheckProtection(t: Target) returns (status: CheckStatus)
    modifies t`calls
    ensures status == ProtectionCheck(old(t.State()), t.faults) && t.calls == old(t.calls) + 1
  {
    var error := t.GetProtection();
    if error.Some? && IsNotFound(error.value) {
      return Fail;
    }
    return if error.Some? then Error else Pass;
  }

  /** `StandardChecks`, in the order of the dashboard. */
  method StandardChecks(t: Target) returns (out: seq<CheckStatus>)
    modifies t`calls
    ensures out == Checks(old(t.State()), t.faults)
  {
    var title := CheckAnyFile(t, PR_TITLE_FILES);
    var release := CheckAnyFile(t, RELEASE_FILES);
    var protection := CheckProtection(t);
    return [title, release, protection];
  }

  function Checks(w: World, faults: Faults): seq<CheckStatus> {
    var (title, n) := AnyFile(w, PR_TITLE_FILES, 0, false, faults);
    var (release, m) := AnyFile(w.(calls := n), RELEASE_FILES, 0, false, faults);
    [title, release, ProtectionCheck(w.(calls := m), faults)]
  }

  /** Some candidate exists. */
  predicate SomeIn(files: Tree, paths: seq<string>, i: nat) {
    exists k :: i <= k < |paths| && PathIn(files, paths[k])
  }

  /** A pass is never wrong; without failures the verdict is exact. */
  lemma {:induction false} AnyFileExactly(w: World, paths: seq<string>, i: nat, broken: bool, faults: Faults)
    requires i <= |paths|
    ensures var (status, calls) := AnyFile(w, paths, i, broken, faults);
            && calls >= w.calls
            && (status == Pass ==> SomeIn(w.files, paths, i))
            && (Faultless(faults, w.calls) && SomeIn(w.files, paths, i) ==> status == Pass)
    decreases |paths| - i
  {
    if i < |paths| {
      AnyFileExactly(w, paths, i + 1, broken, faults);
      AnyFileExactly(w, paths, i + 1, true, faults);
    }
  }

  /** A proper answer that the path exists. */
  predicate FoundAt(w: World, paths: seq<string>, faults: Faults, k: nat)
    requires k < |paths|
  {
    faults(w.calls + k).None? && PathIn(w.files, paths[k])
  }

  /** A failure other than "not found". */
  predicate DeniedAt(w: World, faults: Faults, k: nat) {
    var f := faults(w.calls + k);
    f.Some? && f.value.error.status != 404 && !Contains(f.value.error.text, "404")
  }

  lemma {:induction false} AnyFileFrom(w: World, paths: seq<string>, i: nat, broken: bool, faults: Faults)
    requires i <= |paths|
    ensures var status := AnyFile(w, paths, i, broken, faults).0;
            var found := exists k :: i <= k < |paths| && FoundAt(w, paths, faults, k);
            var denied := broken || exists k :: i <= k < |paths| && DeniedAt(w, faults, k);
            status == if found then Pass else if denied then Error else Fail
    decreases |paths| - i
  {
    if i < |paths| {
      AnyFileFrom(w, paths, i + 1, broken, faults);
      AnyFileFrom(w, paths, i + 1, true, faults);
      assert Reading(w.files, paths[i], faults(w.calls + i)).Exists? <==> FoundAt(w, paths, faults, i);
      assert Reading(w.files, paths[i], faults(w.calls + i)).Broken? <==> DeniedAt(w, faults, i);
    }
  }

  /** Pass if some candidate is found, else an error if some probe failed, else a fail. */
  lemma AnyFileVerdict(w: World, paths: seq<string>, faults: Faults)
    ensures var status := AnyFile(w, paths, 0, false, faults).0;
            var found := exists k :: 0 <= k < |paths| && FoundAt(w, paths, faults, k);
            var denied := exists k :: 0 <= k < |paths| && DeniedAt(w, faults, k);
            status == if found then Pass else if denied then Error else Fail
  {
    AnyFileFrom(w, paths, 0, false, faults);
  }

  /** The verdict on main: exact for a proper answer, and never a pass for a failure. */
  lemma ProtectionVerdict(w: World, faults: Faults)
    ensures var f, status := faults(w.calls), ProtectionCheck(w, faults);
            && (f.None? ==> (status == Pass <==> w.protection.Some?) && (status == Fail <==> w.protection.None?))
            && (f.Some? ==> status != Pass)
            && (f.Some? ==> (status == Fail <==> f.value.error.status == 404 || Contains(f.value.error.text, "404")))
  {
  }

  lemma CandidatesChecked(files: Tree, s: FileStep, paths: seq<string>)
    requires StepInPlace(files, s) && |paths| >= 2 && Candidates(s) == paths[..2]
    ensures SomeIn(files, paths, 0)
  {
    var p :| p in Candidates(s) && PathIn(files, p);
    var k :| 0 <= k < 2 && paths[..2][k] == p;
    assert PathIn(files, paths[k]);
  }

  /** After a run without a failed action, every check that gets proper answers passes. */
  lemma RunMakesCompliant(w: World, slug: string, templates: Templates, faults: Faults, later: Faults)
    requires NoneFailed(RunAll(w, slug, templates, faults).1)
    requires Faultless(later, RunAll(w, slug, templates, faults).0.calls)
    ensures Checks(RunAll(w, slug, templates, faults).0, later) == [Pass, Pass, Pass]
  {
    RunPlaces(w, slug, templates, faults);
    PlacedPasses(RunAll(w, slug, templates, faults).0, later);
  }

  lemma PlacedPasses(w: World, faults: Faults)
    requires InPlace(w) && Faultless(faults, w.calls)
    ensures Checks(w, faults) == [Pass, Pass, Pass]
  {
    assert PR_TITLE == FileSteps()[0] && RELEASE_PLEASE == FileSteps()[1];
    assert StepInPlace(w.files, PR_TITLE) && StepInPlace(w.files, RELEASE_PLEASE);
    CandidatesChecked(w.files, PR_TITLE, PR_TITLE_FILES);
    CandidatesChecked(w.files, RELEASE_PLEASE, RELEASE_FILES);
    AnyFileExactly(w, PR_TITLE_FILES, 0, false, faults);
    var w1 := w.(calls := AnyFile(w, PR_TITLE_FILES, 0, false, faults).1);
    AnyFileExactly(w1, RELEASE_FILES, 0, false, faults);
  }

  function Verdict(ok: bool): CheckStatus { if ok then Pass else Fail }

  /** With proper answers the three checks say exactly whether these files exist and main is protected. */
  lemma ChecksExactly(w: World, faults: Faults)
    requires Faultless(faults, w.calls)
    ensures Checks(w, faults) == [
              Verdict(PathIn(w.files, ".github/workflows/test-pr-title.yml")
                      || PathIn(w.files, ".github/workflows/test-pr-title.yaml")),
              Verdict(PathIn(w.files, ".github/workflows/release-please.yml")
                      || PathIn(w.files, ".github/workflows/release-please.yaml")
                      || PathIn(w.files, ".github/workflows/release.yml")
                      || PathIn(w.files, ".github/workflows/release.yaml")),
              Verdict(w.protection.Some?)]
  {
    var w1 := w.(calls := AnyFile(w, PR_TITLE_FILES, 0, false, faults).1);
    AnyFileExactly(w, PR_TITLE_FILES, 0, false, faults);
    AnyFileExactly(w1, RELEASE_FILES, 0, false, faults);
    AnyFileSays(w, PR_TITLE_FILES, faults);
    AnyFileSays(w1, RELEASE_FILES, faults);
    var t, r := PR_TITLE_FILES, RELEASE_FILES;
    assert SomeIn(w.files, t, 0) <==> PathIn(w.files, t[0]) || PathIn(w.files, t[1]);
    assert SomeIn(w.files, r, 0) <==>
      PathIn(w.files, r[0]) || PathIn(w.files, r[1]) || PathIn(w.files, r[2]) || PathIn(w.files, r[3]);
  }

  lemma AnyFileSays(w: World, paths: seq<string>, faults: Faults)
    requires Faultless(faults, w.calls)
    ensures AnyFile(w, paths, 0, false, faults).0 == Verdict(SomeIn(w.files, paths, 0))
  {
    AnyFileVerdict(w, paths, faults);
    forall k | 0 <= k < |paths| ensures FoundAt(w, paths, faults, k) <==> PathIn(w.files, paths[k]) {}
    if SomeIn(w.files, paths, 0) {
      var k :| 0 <= k < |paths| && PathIn(w.files, paths[k]);
      assert FoundAt(w, paths, faults, k);
    }
  }
}
