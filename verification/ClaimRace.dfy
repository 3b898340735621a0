/**
 Several people claim one slug at once: every claimer runs the steps of `OpenClaimPR`,
 interleaved in any order with each other and with the rest of the world. All of them
 want the same branch, `feat/claim-<slug>`.
 */
module ClaimRace {
  import opened ClaimPR
  import opened GitRepo
  import opened Wrappers

  /** Where a claimer is; `Gone` stands for every failure. */
  datatype Claimer =
    | Idle
    | AtBase(base: nat)
    | Cleared(base: nat)
    | Treed(base: nat, tree: nat)
    | Committed(base: nat, sha: nat)
    | Branched(base: nat, sha: nat)
    | Opened(base: nat, sha: nat)
    | Gone

  datatype Race = Race(repo: Repo, claimers: seq<Claimer>)

  /** One completed call of claimer `c`, with its effect on the repository. */
  predicate Advance(q: Request, r: Repo, c: Claimer, r': Repo, c': Claimer)
    requires WellFormed(r)
  {
    match c
    case Idle =>
      r' == r && RefName(q.base) in r.refs && c' == AtBase(r.refs[RefName(q.base)])
    case AtBase(base) =>
      r' == r && base < |r.commits| && Unclaimed(TreeOf(r, base), q) && c' == Cleared(base)
    case Cleared(base) =>
      base < |r.commits| && r' == AddTree(r, r.commits[base].tree, q.files) && c' == Treed(base, |r.trees|)
    case Treed(base, tree) =>
      r' == AddCommit(r, tree, [base]) && c' == Committed(base, |r.commits|)
    case Committed(base, sha) =>
      RefName(q.branch) !in r.refs && r' == AddRef(r, RefName(q.branch), sha) && c' == Branched(base, sha)
    case Branched(base, sha) =>
      r' == AddPull(r, Pull(q.branch, q.base)) && c' == Opened(base, sha)
    case _ => false
  }

  /** A call that fails, with or without having taken effect, or a check that finds the slug taken. */
  ghost predicate GiveUp(q: Request, r: Repo, c: Claimer, r': Repo, c': Claimer)
    requires WellFormed(r)
  {
    c' == Gone && (r' == r || exists x :: Advance(q, r, c, r', x))
  }

  ghost predicate ClaimerStep(qs: seq<Request>, s: Race, t: Race, i: nat)
    requires WellFormed(s.repo)
  {
    && i < |qs| == |s.claimers|
    && (exists c :: t.claimers == s.claimers[i := c]
          && (Advance(qs[i], s.repo, s.claimers[i], t.repo, c) || GiveUp(qs[i], s.repo, s.claimers[i], t.repo, c)))
  }

  /** The rest of the world does anything but move or delete the contested branch. */
  predicate WorldStep(branch: string, s: Race, t: Race) {
    && t.claimers == s.claimers && WellFormed(t.repo) && Extends(s.repo, t.repo)
    && (RefName(branch) in s.repo.refs ==>
          RefName(branch) in t.repo.refs && t.repo.refs[RefName(branch)] == s.repo.refs[RefName(branch)])
  }

  ghost predicate Next(qs: seq<Request>, branch: string, s: Race, t: Race)
    requires WellFormed(s.repo)
  {
    WorldStep(branch, s, t) || exists i: nat :: ClaimerStep(qs, s, t, i)
  }

  predicate Won(c: Claimer) { c.Branched? || c.Opened? }

  // ------------------------------------------------------------------------- invariant

  /** What a claimer has established about the repository. */
  predicate Grounded(r: Repo, q: Request, c: Claimer)
    requires WellFormed(r)
  {
    match c
    case Idle => true
    case AtBase(base) => base < |r.commits|
    case Cleared(base) => base < |r.commits| && Unclaimed(TreeOf(r, base), q)
    case Treed(base, tree) =>
      && base < |r.commits| && Unclaimed(TreeOf(r, base), q)
      && tree < |r.trees| && r.trees[tree] == Overlay(TreeOf(r, base), q.files)
    case Gone => true
    case _ => ClaimCommit(r, q, c.base, c.sha)
  }

  /** One commit on top of the base, whose tree is the base with the claim's files. */
  predicate ClaimCommit(r: Repo, q: Request, base: nat, sha: nat)
    requires WellFormed(r)
  {
    && base < |r.commits| && sha < |r.commits| && Unclaimed(TreeOf(r, base), q)
    && r.commits[sha].parents == [base] && TreeOf(r, sha) == Overlay(TreeOf(r, base), q.files)
  }

  predicate HoldsBranch(r: Repo, branch: string, c: Claimer) {
    Won(c) ==> RefName(branch) in r.refs && r.refs[RefName(branch)] == c.sha
  }

  predicate OneWinner(cs: seq<Claimer>) {
    forall i, j :: 0 <= i < j < |cs| ==> !(Won(cs[i]) && Won(cs[j]))
  }

  predicate Inv(qs: seq<Request>, branch: string, s: Race) {
    && WellFormed(s.repo) && |s.claimers| == |qs|
    && (forall i :: 0 <= i < |qs| ==> qs[i].branch == branch)
    && (forall i :: 0 <= i < |qs| ==> Grounded(s.repo, qs[i], s.claimers[i]))
    && (forall i :: 0 <= i < |qs| ==> HoldsBranch(s.repo, branch, s.claimers[i]))
    && OneWinner(s.claimers)
  }

  lemma GroundedStays(r: Repo, t: Repo, q: Request, c: Claimer)
    requires WellFormed(r) && WellFormed(t) && Extends(r, t) && Grounded(r, q, c)
    ensures Grounded(t, q, c)
  {
  }

  /** A completed call keeps every object and every ref there was. */
  lemma AdvanceKeeps(q: Request, r: Repo, c: Claimer, t: Repo, d: Claimer)
    requires WellFormed(r) && Grounded(r, q, c) && Advance(q, r, c, t, d)
    ensures WellFormed(t) && Extends(r, t)
    ensures forall name :: name in r.refs ==> name in t.refs && t.refs[name] == r.refs[name]
  {
  }

  lemma AdvanceGrounds(q: Request, r: Repo, c: Claimer, t: Repo, d: Claimer)
    requires WellFormed(r) && Grounded(r, q, c) && Advance(q, r, c, t, d)
    requires WellFormed(t) && Extends(r, t)
    ensures Grounded(t, q, d)
  {
  }

  /** Only a claimer that holds the branch or has just created it can be a winner. */
  lemma AdvanceWins(q: Request, r: Repo, c: Claimer, t: Repo, d: Claimer)
    requires WellFormed(r) && Advance(q, r, c, t, d) && HoldsBranch(r, q.branch, c)
    ensures HoldsBranch(t, q.branch, d)
    ensures Won(d) ==> Won(c) || RefName(q.branch) !in r.refs
  {
  }

  lemma StepKeepsRepo(qs: seq<Request>, branch: string, s: Race, t: Race, i: nat)
    requires Inv(qs, branch, s) && ClaimerStep(qs, s, t, i)
    ensures WellFormed(t.repo) && Extends(s.repo, t.repo)
    ensures forall name :: name in s.repo.refs ==> name in t.repo.refs && t.repo.refs[name] == s.repo.refs[name]
    ensures |t.claimers| == |s.claimers| && forall j :: 0 <= j < |s.claimers| && j != i ==> t.claimers[j] == s.claimers[j]
    ensures Grounded(t.repo, qs[i], t.claimers[i]) && HoldsBranch(t.repo, branch, t.claimers[i])
    ensures Won(t.claimers[i]) ==> Won(s.claimers[i]) || RefName(branch) !in s.repo.refs
  {
    var q, c, d := qs[i], s.claimers[i], t.claimers[i];
    assert Grounded(s.repo, q, c) && HoldsBranch(s.repo, branch, c) && q.branch == branch;
    if Advance(q, s.repo, c, t.repo, d) {
      AdvanceKeeps(q, s.repo, c, t.repo, d);
      AdvanceGrounds(q, s.repo, c, t.repo, d);
      AdvanceWins(q, s.repo, c, t.repo, d);
    } else if t.repo != s.repo {
      var x :| Advance(q, s.repo, c, t.repo, x);
      AdvanceKeeps(q, s.repo, c, t.repo, x);
    }
  }

  lemma NextKeepsInv(qs: seq<Request>, branch: string, s: Race, t: Race)
    requires Inv(qs, branch, s) && Next(qs, branch, s, t)
    ensures Inv(qs, branch, t)
  {
    if WorldStep(branch, s, t) {
      forall i | 0 <= i < |qs| ensures Grounded(t.repo, qs[i], t.claimers[i]) && HoldsBranch(t.repo, branch, t.claimers[i]) {
        assert HoldsBranch(s.repo, branch, s.claimers[i]);
        GroundedStays(s.repo, t.repo, qs[i], s.claimers[i]);
      }
    } else {
      var i: nat :| ClaimerStep(qs, s, t, i);
      StepKeepsInv(qs, branch, s, t, i);
    }
  }

  lemma StepKeepsInv(qs: seq<Request>, branch: string, s: Race, t: Race, i: nat)
    requires Inv(qs, branch, s) && ClaimerStep(qs, s, t, i)
    ensures Inv(qs, branch, t)
  {
    StepKeepsRepo(qs, branch, s, t, i);
    forall j | 0 <= j < |qs| && j != i ensures Grounded(t.repo, qs[j], t.claimers[j]) && HoldsBranch(t.repo, branch, t.claimers[j]) {
      assert HoldsBranch(s.repo, branch, s.claimers[j]);
      GroundedStays(s.repo, t.repo, qs[j], s.claimers[j]);
    }
    forall j | 0 <= j < |qs| && j != i && Won(t.claimers[j]) ensures !Won(t.claimers[i]) {
      assert HoldsBranch(s.repo, branch, s.claimers[j]);
    }
  }

  // --------------------------------------------------------------------------- all runs

  /** Claimers that start idle, and any number of steps of anyone. */
  ghost predicate Run(qs: seq<Request>, branch: string, run: seq<Race>) {
    && run != [] && WellFormed(run[0].repo) && |run[0].claimers| == |qs|
    && (forall i :: 0 <= i < |qs| ==> qs[i].branch == branch && run[0].claimers[i] == Idle)
    && (forall k :: 0 <= k < |run| - 1 ==> WellFormed(run[k].repo) && Next(qs, branch, run[k], run[k + 1]))
  }

  lemma {:induction false} RunKeepsInv(qs: seq<Request>, branch: string, run: seq<Race>, k: nat)
    requires Run(qs, branch, run) && k < |run|
    ensures Inv(qs, branch, run[k])
  {
    if k > 0 {
      RunKeepsInv(qs, branch, run, k - 1);
      assert Next(qs, branch, run[k - 1], run[k - 1 + 1]);
      NextKeepsInv(qs, branch, run[k - 1], run[k]);
    }
  }

  /** In every run and at every moment: one winner at most, and the branch is the winner's commit. */
  lemma AtMostOneWinner(qs: seq<Request>, branch: string, run: seq<Race>, k: nat, i: nat, j: nat)
    requires Run(qs, branch, run) && k < |run| && i < |qs| && j < |qs|
    ensures |run[k].claimers| == |qs|
    ensures var c, d := run[k].claimers[i], run[k].claimers[j];
            (c.Branched? || c.Opened?) && (d.Branched? || d.Opened?) ==> i == j
    ensures var r, c := run[k].repo, run[k].claimers[i];
            c.Branched? || c.Opened? ==>
              && WellFormed(r) && c.base < |r.commits| && c.sha < |r.commits|
              && "refs/heads/" + branch in r.refs && r.refs["refs/heads/" + branch] == c.sha
              && r.commits[c.sha].parents == [c.base]
              && Unclaimed(TreeOf(r, c.base), qs[i]) && TreeOf(r, c.sha) == Overlay(TreeOf(r, c.base), qs[i].files)
  {
    RunKeepsInv(qs, branch, run, k);
    assert Grounded(run[k].repo, qs[i], run[k].claimers[i]) && HoldsBranch(run[k].repo, branch, run[k].claimers[i]);
  }

  /** No claimer's step changes a ref that exists, the base branch among them. */
  lemma ClaimersMoveNoRef(qs: seq<Request>, branch: string, run: seq<Race>, k: nat, i: nat, name: string)
    requires Run(qs, branch, run) && k + 1 < |run| && WellFormed(run[k].repo) && ClaimerStep(qs, run[k], run[k + 1], i)
    requires name in run[k].repo.refs
    ensures name in run[k + 1].repo.refs && run[k + 1].repo.refs[name] == run[k].repo.refs[name]
  {
    RunKeepsInv(qs, branch, run, k);
    StepKeepsRepo(qs, branch, run[k], run[k + 1], i);
  }

  lemma NextKeepsBranch(qs: seq<Request>, branch: string, s: Race, t: Race)
    requires Inv(qs, branch, s) && Next(qs, branch, s, t) && RefName(branch) in s.repo.refs
    ensures RefName(branch) in t.repo.refs && t.repo.refs[RefName(branch)] == s.repo.refs[RefName(branch)]
  {
    if !WorldStep(branch, s, t) {
      var i: nat :| ClaimerStep(qs, s, t, i);
      StepKeepsRepo(qs, branch, s, t, i);
    }
  }

  predicate Holds(r: Repo, branch: string, sha: nat) {
    "refs/heads/" + branch in r.refs && r.refs["refs/heads/" + branch] == sha
  }

  lemma RunKeepsBranch(qs: seq<Request>, branch: string, run: seq<Race>, k: nat, sha: nat)
    requires Run(qs, branch, run) && k + 1 < |run| && Holds(run[k].repo, branch, sha)
    ensures Holds(run[k + 1].repo, branch, sha)
  {
    RunKeepsInv(qs, branch, run, k);
    assert Next(qs, branch, run[k], run[k + 1]);
    NextKeepsBranch(qs, branch, run[k], run[k + 1]);
  }

  /** Once the branch exists it stays where it is. */
  lemma {:induction false} BranchStays(qs: seq<Request>, branch: string, run: seq<Race>, k: nat, m: nat, sha: nat)
    requires Run(qs, branch, run) && k <= m < |run| && Holds(run[k].repo, branch, sha)
    ensures Holds(run[m].repo, branch, sha)
    decreases m - k
  {
    if k < m {
      RunKeepsBranch(qs, branch, run, k, sha);
      BranchStays(qs, branch, run, k + 1, m, sha);
    }
  }
}
