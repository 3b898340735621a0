/**
 `OpenClaimPR` (internal/github/pr.go): check that nothing of the claim exists, then
 write tree, commit, branch and pull request, against a repository that other people
 change between any two calls and calls that can fail with or without having taken
 effect.
 */
module ClaimPR {
  import opened GitRepo
  import opened Text
  import opened Wrappers
  import Sorting

  datatype Request = Request(repo: string, slug: string, files: Tree, branch: string, title: string, base: string)

  datatype PRError =
    | NoRepo
    | NoSlug
    | NoFiles
    | BadPath(path: string)
    | EmptyFile(path: string)
    | NoBranch
    | NoTitle
    | BadRepoName
    | NoBase
    | CheckFailed(path: string)
    | ClaimExists(path: string)
    | NoBaseCommit
    | TreeFailed
    | CommitFailed
    | BranchExists
    | BranchFailed
    | PullFailed

  // ---------------------------------------------------------------------- the request

  predicate Relative(path: string) { path != "" && !HasPrefix(path, "/") }

  predicate RequestOk(q: Request) {
    && q.repo != "" && q.slug != "" && |q.files| > 0 && q.branch != "" && q.title != ""
    && forall p :: p in q.files ==> Relative(p) && q.files[p] != ""
  }

  /** An empty base branch means "main". */
  function Completed(q: Request): Request {
    q.(base := if q.base == "" then "main" else q.base)
  }

  /** The error is one the request really has. */
  predicate Justified(q: Request, e: PRError) {
    match e
    case NoRepo => q.repo == ""
    case NoSlug => q.slug == ""
    case NoFiles => |q.files| == 0
    case BadPath(p) => p in q.files && (p == "" || p[0] == '/')
    case EmptyFile(p) => p in q.files && q.files[p] == ""
    case NoBranch => q.branch == ""
    case NoTitle => q.title == ""
    case _ => false
  }

  method ValidateRequest(q: Request) returns (r: Result<Request, PRError>)
    ensures r.Ok? <==>
            && q.repo != "" && q.slug != "" && |q.files| > 0 && q.branch != "" && q.title != ""
            && forall p :: p in q.files ==> p != "" && p[0] != '/' && q.files[p] != ""
    ensures match r
            case Ok(c) => c == q.(base := if q.base == "" then "main" else q.base)
            case Err(e) => Justified(q, e)
  {
    if q.repo == "" {
      return Err(NoRepo);
    }
    if q.slug == "" {
      return Err(NoSlug);
    }
    if |q.files| == 0 {
      return Err(NoFiles);
    }
    var todo := q.files.Keys;
    while todo != {}
      invariant todo <= q.files.Keys
      invariant forall p :: p in q.files && p !in todo ==> Relative(p) && q.files[p] != ""
      decreases |todo|
    {
      var p :| p in todo;
      if !Relative(p) {
        return Err(BadPath(p));
      }
      if q.files[p] == "" {
        return Err(EmptyFile(p));
      }
      todo := todo - {p};
    }
    if q.branch == "" {
      return Err(NoBranch);
    }
    if q.title == "" {
      return Err(NoTitle);
    }
    return Ok(Completed(q));
  }

  /** `splitRepo`: owner and name, both given. */
  predicate RepoNameOk(full: string) {
    match Cut(full, '/')
    case None => false
    case Some(p) => p.before != "" && p.after != ""
  }

  /** The name has an owner before its first slash and something after it. */
  lemma RepoNameExactly(full: string)
    ensures RepoNameOk(full) <==>
            exists owner: string, name: string :: owner != "" && name != "" && '/' !in owner && full == owner + "/" + name
  {
    CutParts(full, '/');
    if owner: string, name: string :| owner != "" && name != "" && '/' !in owner && full == owner + "/" + name {
      CutAt(owner, '/', name);
    }
    if RepoNameOk(full) {
      var p := Cut(full, '/').value;
      assert full == p.before + "/" + p.after;
    }
  }

  // ------------------------------------------------------------------------ the remote

  /** What happens to a call: it works, it is refused, or it takes effect and its reply is lost. */
  datatype Fault = Fine | Refused | ReplyLost

  /** A change this client made; `before` are the refs it met. */
  datatype Write =
    | WroteTree(id: nat)
    | WroteCommit(sha: nat)
    | WroteRef(name: string, sha: nat, before: map<string, nat>)
    | WrotePull(pull: Pull)

  /** Other clients add objects and change refs and pull requests at will, but keep every object. */
  ghost predicate KeepObjects(others: (nat, Repo) -> Repo) {
    forall n: nat, r: Repo :: WellFormed(r) ==> WellFormed(others(n, r)) && Extends(r, others(n, r))
  }

  predicate AtMostOneMore(before: seq<Write>, after: seq<Write>) {
    before <= after && |after| <= |before| + 1
  }

  class Remote {
    var repo: Repo
    var calls: nat
    var writes: seq<Write>
    const faults: nat -> Fault
    const others: (nat, Repo) -> Repo

    constructor (repo: Repo, faults: nat -> Fault, others: (nat, Repo) -> Repo)
      requires WellFormed(repo) && KeepObjects(others)
      ensures Valid() && this.repo == repo && writes == []
    {
      this.repo, this.calls, this.writes := repo, 0, [];
      this.faults, this.others := faults, others;
    }

    ghost predicate Valid()
      reads this
    {
      WellFormed(repo) && KeepObjects(others)
    }

    /** Nobody else acts and no call fails. */
    ghost predicate Quiet() {
      forall n: nat, r: Repo :: faults(n) == Fine && others(n, r) == r
    }

    /** The next call reaches the repository, after whatever others did meanwhile. */
    method Call() returns (fault: Fault)
      requires Valid()
      modifies this`repo, this`calls
      ensures Valid() && Extends(old(repo), repo)
      ensures fault == faults(old(calls))
      ensures Quiet() ==> fault == Fine && repo == old(repo)
    {
      fault := faults(calls);
      repo := others(calls, repo);
      calls := calls + 1;
    }

    method GetRef(name: string) returns (commit: Option<nat>)
      requires Valid()
      modifies this`repo, this`calls
      ensures Valid() && Extends(old(repo), repo)
      ensures commit.Some? ==> name in repo.refs && repo.refs[name] == commit.value
      ensures Quiet() ==> repo == old(repo) && (commit.Some? <==> name in repo.refs)
    {
      var fault := Call();
      commit := if fault.Fine? && name in repo.refs then Some(repo.refs[name]) else None;
    }

    /** `pathExists`: a file or a directory; any error but not-found is an error. */
    method PathExists(path: string, commit: nat) returns (found: Option<bool>)
      requires Valid() && commit < |repo.commits|
      modifies this`repo, this`calls
      ensures Valid() && Extends(old(repo), repo)
      ensures found.Some? ==> found.value == PathIn(TreeOf(repo, commit), path)
      ensures Quiet() ==> repo == old(repo) && found.Some?
    {
      var fault := Call();
      found := if fault.Fine? then Some(PathIn(TreeOf(repo, commit), path)) else None;
    }

    method GetCommit(commit: nat) returns (tree: Option<nat>)
      requires Valid() && commit < |repo.commits|
      modifies this`repo, this`calls
      ensures Valid() && Extends(old(repo), repo)
      ensures tree.Some? ==> tree.value == repo.commits[commit].tree
      ensures Quiet() ==> repo == old(repo) && tree.Some?
    {
      var fault := Call();
      tree := if fault.Fine? then Some(repo.commits[commit].tree) else None;
    }

    method CreateTree(base: nat, files: Tree) returns (tree: Option<nat>)
      requires Valid() && base < |repo.trees|
      modifies this`repo, this`calls, this`writes
      ensures Valid() && Extends(old(repo), repo)
      ensures AtMostOneMore(old(writes), writes)
      ensures tree.Some? ==> writes == old(writes) + [WroteTree(tree.value)]
      ensures writes != old(writes) ==>
                var w := writes[|old(writes)|];
                w.WroteTree? && w.id < |repo.trees| && repo.trees[w.id] == Overlay(repo.trees[base], files)
      ensures Quiet() ==> repo == AddTree(old(repo), base, files) && tree == Some(|old(repo).trees|)
    {
      var fault := Call();
      tree := None;
      if !fault.Refused? {
        repo := AddTree(repo, base, files);
        writes := writes + [WroteTree(|repo.trees| - 1)];
        tree := if fault.Fine? then Some(|repo.trees| - 1) else None;
      }
    }

    method CreateCommit(tree: nat, parents: seq<nat>) returns (commit: Option<nat>)
      requires Valid() && tree < |repo.trees|
      modifies this`repo, this`calls, this`writes
      ensures Valid() && Extends(old(repo), repo)
      ensures AtMostOneMore(old(writes), writes)
      ensures commit.Some? ==> writes == old(writes) + [WroteCommit(commit.value)]
      ensures writes != old(writes) ==>
                var w := writes[|old(writes)|];
                w.WroteCommit? && w.sha < |repo.commits| && repo.commits[w.sha] == Commit(tree, parents)
      ensures Quiet() ==> repo == AddCommit(old(repo), tree, parents) && commit == Some(|old(repo).commits|)
    {
      var fault := Call();
      commit := None;
      if !fault.Refused? {
        repo := AddCommit(repo, tree, parents);
        writes := writes + [WroteCommit(|repo.commits| - 1)];
        commit := if fault.Fine? then Some(|repo.commits| - 1) else None;
      }
    }

    /** Creating a ref that exists is refused; nothing ever moves a ref. */
    method CreateRef(name: string, commit: nat) returns (error: Option<PRError>)
      requires Valid() && commit < |repo.commits|
      modifies this`repo, this`calls, this`writes
      ensures Valid() && Extends(old(repo), repo)
      ensures error == None || error == Some(BranchExists) || error == Some(BranchFailed)
      ensures error != Some(BranchFailed) ==> (error == None <==> writes != old(writes))
      ensures AtMostOneMore(old(writes), writes)
      ensures writes != old(writes) ==>
                var w := writes[|old(writes)|];
                w.WroteRef? && w.name == name && w.sha == commit && name !in w.before && repo.refs == w.before[name := commit]
      ensures Quiet() && name !in old(repo).refs ==> repo == AddRef(old(repo), name, commit) && error == None
    {
      var fault := Call();
      if fault.Refused? {
        return Some(BranchFailed);
      }
      if name in repo.refs {
        return if fault.Fine? then Some(BranchExists) else Some(BranchFailed);
      }
      writes := writes + [WroteRef(name, commit, repo.refs)];
      repo := AddRef(repo, name, commit);
      error := if fault.Fine? then None else Some(BranchFailed);
    }

    method CreatePull(pull: Pull) returns (number: Option<nat>)
      requires Valid()
      modifies this`repo, this`calls, this`writes
      ensures Valid() && Extends(old(repo), repo)
      ensures AtMostOneMore(old(writes), writes)
      ensures number.Some? ==> writes != old(writes)
      ensures writes != old(writes) ==> writes[|old(writes)|] == WrotePull(pull)
      ensures Quiet() ==> repo == AddPull(old(repo), pull) && number == Some(|old(repo).pulls|)
    {
      var fault := Call();
      number := None;
      if !fault.Refused? {
        repo := AddPull(repo, pull);
        writes := writes + [WrotePull(pull)];
        number := if fault.Fine? then Some(|repo.pulls| - 1) else None;
      }
    }
  }

  // --------------------------------------------------------------------- opening the PR

  function RefName(branch: string): string { "refs/heads/" + branch }

  function TagDir(slug: string): string { "tags/" + slug }

  /** Nothing of the claim exists in the tree. */
  predicate Unclaimed(t: Tree, q: Request) { Fresh(t, q.files) && !PathIn(t, TagDir(q.slug)) }

  /**
   A slug is free exactly when the tree has nothing at `tags/<slug>` or below it, and
   neither a file nor a directory at any path of the claim.
   */
  lemma UnclaimedExactly(t: Tree, q: Request)
    ensures Unclaimed(t, q) <==>
            && (forall p :: p in t ==> p != "tags/" + q.slug && !("tags/" + q.slug + "/" <= p))
            && (forall p, f :: p in t && f in q.files ==> p != f && !(f + "/" <= p))
  {
    var dir := "tags/" + q.slug;
    if Unclaimed(t, q) {
      forall p | p in t ensures p != dir && !(dir + "/" <= p) {
        assert Below(dir, p) <==> dir + "/" <= p;
      }
      forall p, f | p in t && f in q.files ensures p != f && !(f + "/" <= p) {
        assert !PathIn(t, f) && (Below(f, p) <==> f + "/" <= p);
      }
    } else if PathIn(t, dir) {
      assert exists p :: p in t && (p == dir || dir + "/" <= p);
    } else {
      var f :| f in q.files && PathIn(t, f);
      assert exists p :: p in t && (p == f || f + "/" <= p);
    }
  }

  /** What a run can have written on top of the base commit, in this order and no further. */
  predicate Explained(w: seq<Write>, repo: Repo, q: Request, base: nat)
    requires WellFormed(repo)
  {
    && |w| <= 4
    && (|w| > 0 ==>
          && base < |repo.commits| && Unclaimed(TreeOf(repo, base), q)
          && w[0].WroteTree? && w[0].id < |repo.trees|
          && repo.trees[w[0].id] == Overlay(TreeOf(repo, base), q.files))
    && (|w| > 1 ==>
          w[1].WroteCommit? && w[1].sha < |repo.commits| && repo.commits[w[1].sha] == Commit(w[0].id, [base]))
    && (|w| > 2 ==>
          w[2].WroteRef? && w[2].name == RefName(q.branch) && w[2].sha == w[1].sha && w[2].name !in w[2].before)
    && (|w| > 3 ==> w[3] == WrotePull(Pull(q.branch, q.base)))
  }

  lemma StillExplained(w: seq<Write>, repo: Repo, later: Repo, q: Request, base: nat)
    requires WellFormed(repo) && WellFormed(later) && Extends(repo, later) && Explained(w, repo, q, base)
    ensures Explained(w, later, q, base)
  {
  }

  /** How many writes an outcome leaves room for. */
  predicate Fits(r: Result<nat, PRError>, n: nat) {
    match r
    case Ok(_) => n == 4
    case Err(TreeFailed) => n <= 1
    case Err(CommitFailed) => 1 <= n <= 2
    case Err(BranchExists) => n == 2
    case Err(BranchFailed) => 2 <= n <= 3
    case Err(PullFailed) => 3 <= n <= 4
    case Err(_) => n == 0
  }

  /** A refusal names something that really is on the base commit. */
  predicate Truthful(r: Result<nat, PRError>, repo: Repo, q: Request, base: nat)
    requires WellFormed(repo)
  {
    match r
    case Err(ClaimExists(p)) =>
      base < |repo.commits| && (p in q.files || p == "tags/" + q.slug) && PathIn(TreeOf(repo, base), p)
    case Err(CheckFailed(p)) => p in q.files || p == "tags/" + q.slug
    case _ => true
  }

  predicate ByName(a: string, b: string) { Compare(a, b) <= 0 }

  lemma ByNameOrders()
    ensures Sorting.TotalPreorder(ByName)
  {
    forall a, b ensures ByName(a, b) || ByName(b, a) {
      CompareFlips(a, b);
    }
    forall a, b, c | ByName(a, b) && ByName(b, c) ensures ByName(a, c) {
      CompareTransitive(a, b, c);
    }
  }

  method Keys(files: Tree) returns (paths: seq<string>)
    ensures forall p :: p in multiset(paths) <==> p in files
  {
    paths := [];
    var todo := files.Keys;
    while todo != {}
      invariant todo <= files.Keys
      invariant forall p :: p in multiset(paths) <==> p in files && p !in todo
      decreases |todo|
    {
      var p :| p in todo;
      paths := paths + [p];
      todo := todo - {p};
    }
  }

  /** The paths in order, then the directory of the tag files. */
  method PathsToCheck(q: Request) returns (paths: seq<string>)
    ensures |paths| > 0 && Sorting.Sorted(ByName, paths[..|paths| - 1]) && paths[|paths| - 1] == "tags/" + q.slug
    ensures forall p :: p in paths[..|paths| - 1] <==> p in q.files
  {
    var keys := Keys(q.files);
    ByNameOrders();
    var sorted := Sorting.SortFunc(keys, ByName);
    assert forall p :: p in sorted <==> p in multiset(sorted);
    paths := sorted + [TagDir(q.slug)];
    assert paths[..|paths| - 1] == sorted;
  }

  method CheckPaths(remote: Remote, q: Request, base: nat) returns (e: Option<PRError>)
    requires remote.Valid() && base < |remote.repo.commits|
    modifies remote`repo, remote`calls
    ensures remote.Valid() && Extends(old(remote.repo), remote.repo)
    ensures e == None ==> Unclaimed(TreeOf(remote.repo, base), q)
    ensures e.Some? ==> e.value.CheckFailed? || e.value.ClaimExists?
    ensures remote.Quiet() ==> remote.repo == old(remote.repo) && (e == None <==> Unclaimed(TreeOf(remote.repo, base), q))
    ensures e.Some? ==> Truthful(Err(e.value), remote.repo, q, base)
  {
    var paths := PathsToCheck(q);
    ghost var tree := TreeOf(remote.repo, base);
    for i := 0 to |paths|
      invariant remote.Valid() && Extends(old(remote.repo), remote.repo) && TreeOf(remote.repo, base) == tree
      invariant forall k :: 0 <= k < i ==> !PathIn(tree, paths[k])
      invariant remote.Quiet() ==> remote.repo == old(remote.repo)
    {
      var found := remote.PathExists(paths[i], base);
      assert i < |paths| - 1 ==> paths[i] in paths[..|paths| - 1];
      if found.None? {
        return Some(CheckFailed(paths[i]));
      }
      if found.value {
        return Some(ClaimExists(paths[i]));
      }
    }
    forall p | p in q.files ensures !PathIn(tree, p) {
      assert p in paths[..|paths| - 1];
    }
    e := None;
  }

  /** The repository after an undisturbed claim: one tree, one commit, one ref and one pull request more. */
  function AfterClaim(r: Repo, q: Request, base: nat): Repo
    requires WellFormed(r) && base < |r.commits|
  {
    AddPull(
      AddRef(
        AddCommit(AddTree(r, r.commits[base].tree, q.files), |r.trees|, [base]),
        RefName(q.branch), |r.commits|),
      Pull(q.branch, q.base))
  }

  /** What an undisturbed claim leaves: nothing that was there is changed. */
  lemma AfterClaimIs(r: Repo, q: Request, base: nat)
    requires WellFormed(r) && base < |r.commits| && Unclaimed(TreeOf(r, base), q) && RefName(q.branch) !in r.refs
    ensures var s := AfterClaim(r, q, base);
            && WellFormed(s) && Extends(r, s)
            && (forall name :: name in r.refs ==> name in s.refs && s.refs[name] == r.refs[name])
            && s.refs.Keys == r.refs.Keys + {"refs/heads/" + q.branch}
            && s.commits[s.refs["refs/heads/" + q.branch]].parents == [base]
            && s.pulls == r.pulls + [Pull(q.branch, q.base)]
            && (NoFileAbove(TreeOf(r, base), q.files) <==>
                  TreeOf(s, s.refs[RefName(q.branch)]) == TreeOf(r, base) + q.files)
  {
    OverlayKeeps(TreeOf(r, base), q.files);
  }

  /** Once such a branch is merged, no request with one of its files or its slug finds the slug free. */
  lemma SecondClaimRefused(r: Repo, q: Request, base: nat, again: Request)
    requires WellFormed(r) && base < |r.commits|
    requires (exists p :: p in q.files && p in again.files) || (exists p :: p in q.files && "tags/" + again.slug + "/" <= p)
    ensures var s := AfterClaim(r, q, base);
            WellFormed(s) && !Unclaimed(TreeOf(s, s.refs[RefName(q.branch)]), again)
  {
    var s := AfterClaim(r, q, base);
    var t := TreeOf(s, s.refs[RefName(q.branch)]);
    assert forall p :: p in q.files ==> p in t;
    UnclaimedExactly(t, again);
  }

  /** The request can be served: its base exists, nothing of it does. */
  predicate Servable(r: Repo, q: Request)
    requires WellFormed(r)
  {
    RefName(q.base) in r.refs && RefName(q.branch) !in r.refs && Unclaimed(TreeOf(r, r.refs[RefName(q.base)]), q)
  }

  /** `seen` is the repository when its base branch was read. */
  method OpenClaimPR(remote: Remote, request: Request)
    returns (r: Result<nat, PRError>, ghost base: nat, ghost seen: Repo)
    requires remote.Valid()
    modifies remote`repo, remote`calls, remote`writes
    ensures remote.Valid() && Extends(old(remote.repo), remote.repo)
    ensures old(remote.writes) <= remote.writes
    ensures var w := remote.writes[|old(remote.writes)|..];
            Explained(w, remote.repo, Completed(request), base) && Fits(r, |w|)
    ensures remote.writes != old(remote.writes) ==> BaseIs(seen, Completed(request), base)
    ensures Truthful(r, remote.repo, Completed(request), base)
    ensures r.Ok? ==> RequestOk(request) && RepoNameOk(request.repo)
    ensures r.Err? && Early(r.error) <==> !RequestOk(request) || !RepoNameOk(request.repo)
    ensures !RequestOk(request) ==> r.Err? && Justified(request, r.error)
    ensures var q := Completed(request);
            remote.Quiet() && RequestOk(request) && RepoNameOk(request.repo) && Servable(old(remote.repo), q) ==>
              r.Ok? && remote.repo == AfterClaim(old(remote.repo), q, old(remote.repo).refs[RefName(q.base)])
  {
    base, seen := 0, remote.repo;
    var valid := ValidateRequest(request);
    if valid.Err? {
      return Err(valid.error), base, seen;
    }
    if !RepoNameOk(valid.value.repo) {
      return Err(BadRepoName), base, seen;
    }
    r, base, seen := OpenValid(remote, valid.value);
  }

  predicate BaseIs(seen: Repo, q: Request, base: nat) {
    RefName(q.base) in seen.refs && seen.refs[RefName(q.base)] == base
  }

  method OpenValid(remote: Remote, q: Request) returns (r: Result<nat, PRError>, ghost base: nat, ghost seen: Repo)
    requires remote.Valid()
    modifies remote`repo, remote`calls, remote`writes
    ensures remote.Valid() && Extends(old(remote.repo), remote.repo)
    ensures old(remote.writes) <= remote.writes
    ensures Explained(remote.writes[|old(remote.writes)|..], remote.repo, q, base)
    ensures Fits(r, |remote.writes| - |old(remote.writes)|)
    ensures remote.writes != old(remote.writes) ==> BaseIs(seen, q, base)
    ensures Truthful(r, remote.repo, q, base)
    ensures r.Err? ==> !Early(r.error)
    ensures remote.Quiet() && Servable(old(remote.repo), q) ==>
              r.Ok? && remote.repo == AfterClaim(old(remote.repo), q, old(remote.repo).refs[RefName(q.base)])
  {
    var commit := remote.GetRef(RefName(q.base));
    base, seen := 0, remote.repo;
    if commit.None? {
      return Err(NoBase), base, seen;
    }
    base := commit.value;
    r := ClaimOn(remote, q, commit.value);
  }

  method ClaimOn(remote: Remote, q: Request, base: nat) returns (r: Result<nat, PRError>)
    requires remote.Valid() && base < |remote.repo.commits|
    modifies remote`repo, remote`calls, remote`writes
    ensures remote.Valid() && Extends(old(remote.repo), remote.repo)
    ensures old(remote.writes) <= remote.writes
    ensures Explained(remote.writes[|old(remote.writes)|..], remote.repo, q, base)
    ensures Fits(r, |remote.writes| - |old(remote.writes)|)
    ensures Truthful(r, remote.repo, q, base)
    ensures r.Err? ==> !Early(r.error)
    ensures remote.Quiet() && RefName(q.branch) !in old(remote.repo).refs && Unclaimed(TreeOf(old(remote.repo), base), q) ==>
              r.Ok? && remote.repo == AfterClaim(old(remote.repo), q, base)
  {
    var tree := ReadBase(remote, q, base);
    if tree.Err? {
      return Err(tree.error);
    }
    r := WriteClaim(remote, q, base, tree.value);
  }

  /** The base tree, once nothing of the claim is found in it. */
  method ReadBase(remote: Remote, q: Request, base: nat) returns (r: Result<nat, PRError>)
    requires remote.Valid() && base < |remote.repo.commits|
    modifies remote`repo, remote`calls
    ensures remote.Valid() && Extends(old(remote.repo), remote.repo)
    ensures r.Ok? ==> Unclaimed(TreeOf(remote.repo, base), q) && r.value == remote.repo.commits[base].tree
    ensures r.Err? ==> r.error.CheckFailed? || r.error.ClaimExists? || r.error.NoBaseCommit?
    ensures r.Err? ==> Truthful(Err(r.error), remote.repo, q, base)
    ensures remote.Quiet() ==> remote.repo == old(remote.repo) && (r.Ok? <==> Unclaimed(TreeOf(remote.repo, base), q))
  {
    var check := CheckPaths(remote, q, base);
    if check.Some? {
      return Err(check.value);
    }
    var tree := remote.GetCommit(base);
    return if tree.None? then Err(NoBaseCommit) else Ok(tree.value);
  }

  /** An error found before the repository is asked. */
  predicate Early(e: PRError) {
    e.NoRepo? || e.NoSlug? || e.NoFiles? || e.BadPath? || e.EmptyFile? || e.NoBranch? || e.NoTitle? || e.BadRepoName?
  }

  method WriteClaim(remote: Remote, q: Request, base: nat, baseTree: nat) returns (r: Result<nat, PRError>)
    requires remote.Valid() && base < |remote.repo.commits| && remote.repo.commits[base].tree == baseTree
    requires Unclaimed(TreeOf(remote.repo, base), q)
    modifies remote`repo, remote`calls, remote`writes
    ensures remote.Valid() && Extends(old(remote.repo), remote.repo) && old(remote.writes) <= remote.writes
    ensures Outcome(r, remote.writes[|old(remote.writes)|..], remote.repo, q, base)
    ensures remote.Quiet() && RefName(q.branch) !in old(remote.repo).refs ==>
              r.Ok? && remote.repo == AfterClaim(old(remote.repo), q, base)
  {
    ghost var start := remote.writes;
    var tree := remote.CreateTree(baseTree, q.files);
    assert Explained(remote.writes[|start|..], remote.repo, q, base);
    if tree.None? {
      return Err(TreeFailed);
    }
    r := CommitTree(remote, q, base, tree.value, start);
  }

  /** A run that got as far as writing, and what it wrote. */
  predicate Outcome(r: Result<nat, PRError>, w: seq<Write>, repo: Repo, q: Request, base: nat)
    requires WellFormed(repo)
  {
    && Explained(w, repo, q, base) && Fits(r, |w|)
    && (r.Ok? || r.error in {TreeFailed, CommitFailed, BranchExists, BranchFailed, PullFailed})
  }

  method CommitTree(remote: Remote, q: Request, base: nat, tree: nat, ghost start: seq<Write>)
    returns (r: Result<nat, PRError>)
    requires remote.Valid() && start <= remote.writes && |remote.writes| == |start| + 1
    requires Explained(remote.writes[|start|..], remote.repo, q, base) && remote.writes[|start|].id == tree
    modifies remote`repo, remote`calls, remote`writes
    ensures remote.Valid() && Extends(old(remote.repo), remote.repo) && start <= remote.writes
    ensures Outcome(r, remote.writes[|start|..], remote.repo, q, base)
    ensures remote.Quiet() && RefName(q.branch) !in old(remote.repo).refs ==>
              r.Ok? && remote.repo == AddPull(AddRef(AddCommit(old(remote.repo), tree, [base]), RefName(q.branch),
                |old(remote.repo).commits|), Pull(q.branch, q.base))
  {
    ghost var repo, w := remote.repo, remote.writes[|start|..];
    var commit := remote.CreateCommit(tree, [base]);
    ghost var now := remote.writes[|start|..];
    StillExplained(w, repo, remote.repo, q, base);
    assert now[..1] == w;
    assert Explained(now, remote.repo, q, base);
    if commit.None? {
      return Err(CommitFailed);
    }
    r := BranchOff(remote, q, base, commit.value, start);
  }

  method BranchOff(remote: Remote, q: Request, base: nat, commit: nat, ghost start: seq<Write>)
    returns (r: Result<nat, PRError>)
    requires remote.Valid() && start <= remote.writes && |remote.writes| == |start| + 2
    requires Explained(remote.writes[|start|..], remote.repo, q, base) && remote.writes[|start| + 1].sha == commit
    modifies remote`repo, remote`calls, remote`writes
    ensures remote.Valid() && Extends(old(remote.repo), remote.repo) && start <= remote.writes
    ensures Outcome(r, remote.writes[|start|..], remote.repo, q, base)
    ensures remote.Quiet() && RefName(q.branch) !in old(remote.repo).refs ==>
              r.Ok? && remote.repo == AddPull(AddRef(old(remote.repo), RefName(q.branch), commit), Pull(q.branch, q.base))
  {
    ghost var repo, w := remote.repo, remote.writes[|start|..];
    var error := remote.CreateRef(RefName(q.branch), commit);
    ghost var now := remote.writes[|start|..];
    StillExplained(w, repo, remote.repo, q, base);
    assert now[..2] == w;
    assert Explained(now, remote.repo, q, base);
    if error.Some? {
      return Err(error.value);
    }
    r := OpenPull(remote, q, base, start);
  }

  method OpenPull(remote: Remote, q: Request, base: nat, ghost start: seq<Write>)
    returns (r: Result<nat, PRError>)
    requires remote.Valid() && start <= remote.writes && |remote.writes| == |start| + 3
    requires Explained(remote.writes[|start|..], remote.repo, q, base)
    modifies remote`repo, remote`calls, remote`writes
    ensures remote.Valid() && Extends(old(remote.repo), remote.repo) && start <= remote.writes
    ensures Outcome(r, remote.writes[|start|..], remote.repo, q, base)
    ensures remote.Quiet() ==> r.Ok? && remote.repo == AddPull(old(remote.repo), Pull(q.branch, q.base))
  {
    ghost var repo, w := remote.repo, remote.writes[|start|..];
    var number := remote.CreatePull(Pull(q.branch, q.base));
    ghost var now := remote.writes[|start|..];
    StillExplained(w, repo, remote.repo, q, base);
    assert now[..3] == w;
    assert Explained(now, remote.repo, q, base);
    return if number.None? then Err(PullFailed) else Ok(number.value);
  }
}
