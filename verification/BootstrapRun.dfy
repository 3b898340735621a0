/**
 An undisturbed bootstrap run from end to end (internal/repobootstrap/bootstrap.go):
 exactly which files it adds, with which texts.
 */
module BootstrapRun {
  import opened Bootstrap
  import opened GitRepo
  import opened Wrappers

  // ------------------------------------------------------------- an undisturbed run

  /** Neither path is the other or leads through the other. */
  predicate Apart(p: string, q: string) { p != q && !Below(p, q) && !Below(q, p) }

  lemma DifferApart(p: string, q: string, k: nat)
    requires k < |p| && k < |q| && p[k] != q[k]
    ensures Apart(p, q)
  {
  }

  predicate StepsApart(steps: seq<FileStep>) {
    forall i, j, c :: 0 <= i < |steps| && 0 <= j < |steps| && i != j && c in Candidates(steps[j]) ==> Apart(steps[i].path, c)
  }

  /** No file stands where the path needs a directory. */
  predicate Room(files: Tree, path: string) { forall q :: q in files ==> !Below(q, path) }

  /** What a step leaves: nothing new beside what is there, else its file with this text. */
  predicate Placed(before: Tree, after: Tree, names: seq<string>, text: string)
    requires names != []
  {
    if exists p :: p in names && PathIn(before, p) then names[0] in after <==> names[0] in before
    else names[0] in after && after[names[0]] == text
  }

  predicate SamePlace(before: Tree, after: Tree, path: string) {
    && (path in before <==> path in after)
    && (PathIn(before, path) <==> PathIn(after, path)) && (Room(before, path) <==> Room(after, path))
  }

  /** A new file changes nothing for a path apart from it. */
  lemma OneFileMore(files: Tree, p: string, text: string, c: string)
    requires Apart(p, c)
    ensures SamePlace(files, files[p := text], c)
  {
    var more := files[p := text];
    if PathIn(files, c) {
      var q :| q in files && (q == c || Below(c, q));
      assert q in more;
    }
    if !Room(files, c) {
      var q :| q in files && Below(q, c);
      assert q in more;
    }
  }

  ghost predicate Ready(w: World, steps: seq<FileStep>, templates: Templates, faults: Faults) {
    && StepsApart(steps) && Faultless(faults, w.calls)
    && forall s :: s in steps ==> templates(s.template).Some? && Room(w.files, s.path)
  }

  lemma StepWrites(w: World, s: FileStep, slug: string, body: string, faults: Faults)
    requires Faultless(faults, w.calls) && Room(w.files, s.path)
    ensures var w' := EnsureFile(w, s, slug, Some(body), faults).0;
            && w'.calls >= w.calls
            && w'.files == if StepInPlace(w.files, s) then w.files else w.files[s.path := ContentOf(s, slug, body)]
  {
    StepWithoutFaults(w, s, slug, body, faults);
    ProbeCalls(w, Candidates(s), 0, faults);
  }

  /** The first steps leave a path that is apart from theirs as it was. */
  lemma {:induction false} RunFilesSame(w: World, steps: seq<FileStep>, slug: string, templates: Templates, faults: Faults, c: string)
    requires Ready(w, steps, templates, faults) && forall s :: s in steps ==> Apart(s.path, c)
    ensures var w' := RunFiles(w, steps, slug, templates, faults).0;
            w'.calls >= w.calls && SamePlace(w.files, w'.files, c)
  {
    if steps != [] {
      var n := |steps| - 1;
      var w1, s := RunFiles(w, steps[..n], slug, templates, faults).0, steps[n];
      ReadyBefore(w, steps, templates, faults, n);
      RunFilesSame(w, steps[..n], slug, templates, faults, c);
      RunFilesSame(w, steps[..n], slug, templates, faults, s.path);
      StepWrites(w1, s, slug, templates(s.template).value, faults);
      OneFileMore(w1.files, s.path, ContentOf(s, slug, templates(s.template).value), c);
    }
  }

  lemma ReadyBefore(w: World, steps: seq<FileStep>, templates: Templates, faults: Faults, n: nat)
    requires Ready(w, steps, templates, faults) && n < |steps|
    ensures Ready(w, steps[..n], templates, faults)
    ensures forall s, c :: s in steps[..n] && c in Candidates(steps[n]) ==> Apart(s.path, c)
    ensures steps[n].path in Candidates(steps[n])
  {
    assert steps[n].path == Candidates(steps[n])[0];
  }

  /** A step whose candidates are as they were at the start. */
  lemma StepPlaces(before: Tree, w: World, s: FileStep, slug: string, body: string, faults: Faults)
    requires Faultless(faults, w.calls) && Room(w.files, s.path)
    requires forall c :: c in Candidates(s) ==> SamePlace(before, w.files, c)
    ensures Placed(before, EnsureFile(w, s, slug, Some(body), faults).0.files, Candidates(s), ContentOf(s, slug, body))
  {
    StepWrites(w, s, slug, body, faults);
    assert Candidates(s)[0] == s.path && s.path in Candidates(s);
  }

  lemma StepKeepsPlaced(
    before: Tree, w: World, s: FileStep, slug: string, body: Option<string>, faults: Faults, names: seq<string>, text: string)
    requires names != [] && Placed(before, w.files, names, text) && s.path != names[0]
    ensures Placed(before, EnsureFile(w, s, slug, body, faults).0.files, names, text)
  {
    EnsureFileKeeps(w, s, slug, body, faults);
    var after := EnsureFile(w, s, slug, body, faults).0.files;
    assert names[0] in after <==> names[0] in w.files;
  }

  lemma LastStepPlaces(w: World, steps: seq<FileStep>, slug: string, templates: Templates, faults: Faults, s: FileStep)
    requires Ready(w, steps, templates, faults) && Room(w.files, s.path) && s.path in Candidates(s)
    requires forall t, c :: t in steps && c in Candidates(s) ==> Apart(t.path, c)
    requires templates(s.template).Some?
    ensures var w1, body := RunFiles(w, steps, slug, templates, faults).0, templates(s.template).value;
            Placed(w.files, EnsureFile(w1, s, slug, Some(body), faults).0.files, Candidates(s), ContentOf(s, slug, body))
  {
    var w1, body := RunFiles(w, steps, slug, templates, faults).0, templates(s.template).value;
    RunFilesSame(w, steps, slug, templates, faults, s.path);
    forall c | c in Candidates(s) ensures SamePlace(w.files, w1.files, c) {
      RunFilesSame(w, steps, slug, templates, faults, c);
    }
    StepPlaces(w.files, w1, s, slug, body, faults);
  }

  /** The text of an embedded template. */
  function TextOf(templates: Templates, name: string): string {
    match templates(name) case Some(body) => body case None => ""
  }

  /** What step `s` is to leave where `before` were the files. */
  predicate Done(before: Tree, after: Tree, s: FileStep, slug: string, templates: Templates) {
    Placed(before, after, Candidates(s), ContentOf(s, slug, TextOf(templates, s.template)))
  }

  lemma StepKeepsDone(
    before: Tree, w: World, s: FileStep, slug: string, templates: Templates, faults: Faults, earlier: FileStep)
    requires Done(before, w.files, earlier, slug, templates) && s.path != earlier.path
    ensures Done(before, EnsureFile(w, s, slug, templates(s.template), faults).0.files, earlier, slug, templates)
  {
    StepKeepsPlaced(before, w, s, slug, templates(s.template), faults, Candidates(earlier),
      ContentOf(earlier, slug, TextOf(templates, earlier.template)));
  }

  lemma LastStepDone(w: World, steps: seq<FileStep>, slug: string, templates: Templates, faults: Faults)
    requires Ready(w, steps, templates, faults) && steps != []
    ensures Done(w.files, RunFiles(w, steps, slug, templates, faults).0.files, steps[|steps| - 1], slug, templates)
  {
    var n := |steps| - 1;
    ReadyBefore(w, steps, templates, faults, n);
    LastStepPlaces(w, steps[..n], slug, templates, faults, steps[n]);
  }

  lemma {:induction false} RunFilesWrite(w: World, steps: seq<FileStep>, slug: string, templates: Templates, faults: Faults, i: nat)
    requires Ready(w, steps, templates, faults) && i < |steps|
    ensures Done(w.files, RunFiles(w, steps, slug, templates, faults).0.files, steps[i], slug, templates)
  {
    var n := |steps| - 1;
    if i < n {
      ReadyBefore(w, steps, templates, faults, n);
      RunFilesWrite(w, steps[..n], slug, templates, faults, i);
      assert Apart(steps[i].path, steps[n].path);
      var w1 := RunFiles(w, steps[..n], slug, templates, faults).0;
      StepKeepsDone(w.files, w1, steps[n], slug, templates, faults, steps[i]);
    } else {
      LastStepDone(w, steps, slug, templates, faults);
    }
  }

  lemma {:induction false} RunFilesAdd(w: World, steps: seq<FileStep>, slug: string, templates: Templates, faults: Faults, p: string)
    requires p in RunFiles(w, steps, slug, templates, faults).0.files
    ensures p in w.files || exists i :: 0 <= i < |steps| && steps[i].path == p
  {
    if steps != [] {
      var n := |steps| - 1;
      var w1 := RunFiles(w, steps[..n], slug, templates, faults).0;
      EnsureFileKeeps(w1, steps[n], slug, templates(steps[n].template), faults);
      if p in w1.files {
        RunFilesAdd(w, steps[..n], slug, templates, faults, p);
      }
    }
  }

  /** The second character, or the nineteenth, tells the steps' files apart. */
  lemma CandidateChars(j: nat, c: string)
    requires j < 6 && c in Candidates(FileSteps()[j])
    ensures |c| > 1 && c[1] == "ggersG"[j]
    ensures j < 2 ==> |c| > 18 && c[18] == "tr"[j]
  {
  }

  lemma StandardApart(i: nat, j: nat, p: string, c: string)
    requires i < 6 && j < 6 && i != j && p in Candidates(FileSteps()[i]) && c in Candidates(FileSteps()[j])
    ensures Apart(p, c)
  {
    CandidateChars(i, p);
    CandidateChars(j, c);
    DifferApart(p, c, if i < 2 && j < 2 then 18 else 1);
  }

  lemma StandardReady(w: World, templates: Templates, faults: Faults)
    requires Faultless(faults, w.calls)
    requires forall s :: s in FileSteps() ==> templates(s.template).Some? && Room(w.files, s.path)
    ensures Ready(w, FileSteps(), templates, faults)
  {
    forall i, j, c | 0 <= i < 6 && 0 <= j < 6 && i != j && c in Candidates(FileSteps()[j])
      ensures Apart(FileSteps()[i].path, c)
    {
      assert FileSteps()[i].path == Candidates(FileSteps()[i])[0];
      StandardApart(i, j, FileSteps()[i].path, c);
    }
  }

  lemma StandardWrite(w: World, slug: string, templates: Templates, faults: Faults, i: nat)
    requires Faultless(faults, w.calls) && i < 6
    requires forall s :: s in FileSteps() ==> templates(s.template).Some? && Room(w.files, s.path)
    ensures var s := FileSteps()[i];
            Placed(w.files, RunAll(w, slug, templates, faults).0.files, Candidates(s),
              ContentOf(s, slug, TextOf(templates, s.template)))
  {
    StandardReady(w, templates, faults);
    RunFilesWrite(w, FileSteps(), slug, templates, faults, i);
  }

  /**
   An undisturbed run with all templates embedded, on a repository with no file in the
   way: each file that is missing, with its equivalents, gets its own template, the
   release configuration with the slug filled in.
   */
  lemma UndisturbedRun(w: World, slug: string, templates: Templates, faults: Faults)
    requires Faultless(faults, w.calls)
    requires forall s :: s in FileSteps() ==> templates(s.template).Some? && Room(w.files, s.path)
    ensures var after := RunAll(w, slug, templates, faults).0.files;
            && Placed(w.files, after, [".github/workflows/test-pr-title.yml", ".github/workflows/test-pr-title.yaml"],
                 TextOf(templates, "templates/test-pr-title.yml"))
            && Placed(w.files, after, [".github/workflows/release-please.yml", ".github/workflows/release-please.yaml"],
                 TextOf(templates, "templates/release-please.yml"))
            && Placed(w.files, after, ["release-please-config.json"],
                 ReplaceAll(TextOf(templates, "templates/release-please-config.json"), "__SLUG__", slug))
            && Placed(w.files, after, [".release-please-manifest.json"],
                 TextOf(templates, "templates/release-please-manifest.json"))
            && Placed(w.files, after, [".sops.yaml"], TextOf(templates, "templates/.sops.yaml"))
            && Placed(w.files, after, ["AGENTS.md"], TextOf(templates, "templates/AGENTS.md"))
  {
    StandardWrite(w, slug, templates, faults, 0);
    StandardWrite(w, slug, templates, faults, 1);
    StandardWrite(w, slug, templates, faults, 2);
    StandardWrite(w, slug, templates, faults, 3);
    StandardWrite(w, slug, templates, faults, 4);
    StandardWrite(w, slug, templates, faults, 5);
  }

  /** ... and main is protected: with the protection it had, or else with the minimal one. */
  lemma UndisturbedProtection(w: World, slug: string, templates: Templates, faults: Faults)
    requires Faultless(faults, w.calls)
    requires forall s :: s in FileSteps() ==> templates(s.template).Some? && Room(w.files, s.path)
    ensures RunAll(w, slug, templates, faults).0.protection ==
            if w.protection.Some? then w.protection else Some(Minimal)
  {
    StandardReady(w, templates, faults);
    RunFilesMoves(w, FileSteps(), slug, templates, faults);
    RunFilesKeeps(w, FileSteps(), slug, templates, faults);
  }

  lemma {:induction false} RunFilesMoves(w: World, steps: seq<FileStep>, slug: string, templates: Templates, faults: Faults)
    requires Ready(w, steps, templates, faults)
    ensures RunFiles(w, steps, slug, templates, faults).0.calls >= w.calls
  {
    if steps != [] {
      var n := |steps| - 1;
      var w1 := RunFiles(w, steps[..n], slug, templates, faults).0;
      ReadyBefore(w, steps, templates, faults, n);
      RunFilesMoves(w, steps[..n], slug, templates, faults);
      ProbeCalls(w1, Candidates(steps[n]), 0, faults);
    }
  }

  /** Under any failures a run adds no other file and leaves the files that are there. */
  lemma NothingElse(w: World, slug: string, templates: Templates, faults: Faults, p: string)
    requires p in RunAll(w, slug, templates, faults).0.files && p !in w.files
    ensures p in [".github/workflows/test-pr-title.yml", ".github/workflows/release-please.yml",
              "release-please-config.json", ".release-please-manifest.json", ".sops.yaml", "AGENTS.md"]
  {
    RunFilesAdd(w, FileSteps(), slug, templates, faults, p);
  }

  /** The actions carry these names, in this order, whatever fails. */
  lemma ActionsNamed(w: World, slug: string, templates: Templates, faults: Faults, i: nat)
    requires i < 7
    ensures |RunAll(w, slug, templates, faults).1| == 7
    ensures RunAll(w, slug, templates, faults).1[i].name ==
            ["PR-title workflow", "release-please workflow", "release-please config", "release-please manifest",
              "sops config", "AGENTS.md (AI-agent instructions)", "Branch protection on `main`"][i]
  {
    RunReports(w, slug, templates, faults, if i < 6 then i else 0);
  }
}
