/**
 The claim flow from end to end: the request `openPR` makes for a claim
 (internal/http/handlers/claim.go), and why a slug is claimed once
 (internal/github/pr.go).
 */
module ClaimGuard {
  import opened ClaimForm
  import opened ClaimPR
  import opened ClaimRender
  import opened Claims
  import opened GitRepo
  import opened Wrappers

  /** `openPR`: one branch per slug, based on main; `encode` gives the bytes of a file. */
  function RequestOf(c: ClaimInput, today: string, registry: string, encode: File -> string): Request
    requires TagFilesOf(c).Ok?
  {
    var files := FilesOf(c, today, TagFilesOf(c).value);
    Request(registry, c.slug, map p | p in files :: encode(files[p]),
      "feat/claim-" + c.slug, "feat: claim " + c.slug, "main")
  }

  /** The files of a request are the claim's file and the tag file of each enabled stage. */
  lemma RequestPaths(c: ClaimInput, today: string, registry: string, encode: File -> string, path: string)
    requires TagFilesOf(c).Ok?
    ensures path in RequestOf(c, today, registry, encode).files <==>
            || path == "apps/" + c.slug + ".yaml"
            || (c.stages.staging.enabled && path == "tags/" + c.slug + "/staging.yaml")
            || (c.stages.prod.enabled && path == "tags/" + c.slug + "/prod.yaml")
  {
    TagFilesExactly(c, path);
    assert path in FilesOf(c, today, TagFilesOf(c).value) <==> path == AppPath(c.slug) || path in TagFilesOf(c).value;
  }

  /** Each file carries the bytes of what the claim renders to. */
  lemma RequestCarries(c: ClaimInput, today: string, registry: string, encode: File -> string)
    requires TagFilesOf(c).Ok?
    ensures var q := RequestOf(c, today, registry, encode);
            && "apps/" + c.slug + ".yaml" in q.files
            && q.files["apps/" + c.slug + ".yaml"] == encode(AppFile(App(c, today)))
            && forall p :: p in TagFilesOf(c).value ==> p in q.files && q.files[p] == encode(Tags(TagFilesOf(c).value[p]))
  {
    FilesApart(c, today);
  }

  /** A claim with a slug makes a request that passes, on its own branch and based on main. */
  lemma RequestPasses(c: ClaimInput, today: string, registry: string, encode: File -> string)
    requires TagFilesOf(c).Ok? && c.slug != "" && registry != ""
    requires forall f :: encode(f) != ""
    ensures var q := RequestOf(c, today, registry, encode);
            && RequestOk(q)
            && q.repo == registry && q.slug == c.slug && q.branch == "feat/claim-" + c.slug && q.base == "main"
            && q.title == "feat: claim " + c.slug
  {
    FilesApart(c, today);
    assert AppPath(c.slug) in RequestOf(c, today, registry, encode).files;
  }

  /**
   A base tree that has a tag file of any claim of the slug refuses every request for
   that slug, whatever files and stages the request brings.
   */
  lemma TagFileGuards(t: Tree, q: Request, d: ClaimInput, path: string)
    requires TagFilesOf(d).Ok? && d.slug == q.slug && path in TagFilesOf(d).value && path in t
    ensures !Unclaimed(t, q)
  {
    TagFilesExactly(d, path);
    TagPathsBelow("tags/" + d.slug, path);
    assert path in t && "tags/" + q.slug + "/" <= path;
    UnclaimedExactly(t, q);
  }

  lemma TagPathsBelow(dir: string, path: string)
    requires path == dir + "/staging.yaml" || path == dir + "/prod.yaml"
    ensures dir + "/" <= path
  {
    assert "/staging.yaml" == "/" + "staging.yaml" && "/prod.yaml" == "/" + "prod.yaml";
    assert path == dir + "/" + "staging.yaml" || path == dir + "/" + "prod.yaml";
  }

  /** Once a claim's branch is merged, no claim of the same slug finds it free. */
  lemma SlugIsClaimedOnce(
    r: Repo, c: ClaimInput, d: ClaimInput, today: string, later: string, registry: string, encode: File -> string, base: nat)
    requires WellFormed(r) && base < |r.commits|
    requires TagFilesOf(c).Ok? && TagFilesOf(d).Ok? && c.slug == d.slug
    ensures var s := AfterClaim(r, RequestOf(c, today, registry, encode), base);
            && WellFormed(s) && "refs/heads/feat/claim-" + c.slug in s.refs
            && !Unclaimed(TreeOf(s, s.refs["refs/heads/feat/claim-" + c.slug]), RequestOf(d, later, registry, encode))
  {
    var q, again := RequestOf(c, today, registry, encode), RequestOf(d, later, registry, encode);
    RequestHasApp(c, today, registry, encode);
    RequestHasApp(d, later, registry, encode);
    assert AppPath(c.slug) in q.files && AppPath(c.slug) in again.files;
    SecondClaimRefused(r, q, base, again);
    BranchIs(c.slug);
  }

  lemma RequestHasApp(c: ClaimInput, today: string, registry: string, encode: File -> string)
    requires TagFilesOf(c).Ok?
    ensures AppPath(c.slug) in RequestOf(c, today, registry, encode).files
  {
  }

  lemma BranchIs(slug: string)
    ensures RefName("feat/claim-" + slug) == "refs/heads/feat/claim-" + slug
  {
    assert "refs/heads/" + ("feat/claim-" + slug) == "refs/heads/feat/claim-" + slug;
  }
}
