/**
 The part of a git repository that the claim flow sees through GitHub's Git Data API:
 immutable trees and commits, named refs, and pull requests. A tree is the map from
 its file paths to their contents.
 */
module GitRepo {
  import opened Wrappers

  type Tree = map<string, string>

  datatype Commit = Commit(tree: nat, parents: seq<nat>)

  datatype Pull = Pull(head: string, base: string)

  /** Trees and commits are named by their position; a name once given never changes its object. */
  datatype Repo = Repo(trees: seq<Tree>, commits: seq<Commit>, refs: map<string, nat>, pulls: seq<Pull>)

  predicate WellFormed(r: Repo) {
    && (forall i :: 0 <= i < |r.commits| ==> r.commits[i].tree < |r.trees|)
    && (forall name :: name in r.refs ==> r.refs[name] < |r.commits|)
  }

  function TreeOf(r: Repo, commit: nat): Tree
    requires WellFormed(r) && commit < |r.commits|
  {
    r.trees[r.commits[commit].tree]
  }

  /** `s` has every object of `r` and possibly more; refs and pull requests may differ. */
  predicate Extends(r: Repo, s: Repo) {
    r.trees <= s.trees && r.commits <= s.commits
  }

  // --------------------------------------------------------------------------- paths

  /** `p` names something below the directory `dir`. */
  predicate Below(dir: string, p: string) { dir + "/" <= p }

  /** A file or a directory of the tree. */
  predicate PathIn(t: Tree, path: string) {
    path in t || exists p :: p in t && Below(path, p)
  }

  /** A file of the tree that a new file cannot live beside: one is a directory of the other. */
  predicate Clashes(files: Tree, p: string) {
    exists q :: q in files && (Below(p, q) || Below(q, p))
  }

  /** `CreateTree` on top of a tree: the entries win over what is there. */
  function Overlay(base: Tree, files: Tree): Tree {
    (map p | p in base && !Clashes(files, p) :: base[p]) + files
  }

  /** None of the paths is there yet. */
  predicate Fresh(base: Tree, files: Tree) {
    forall p :: p in files ==> !PathIn(base, p)
  }

  /** No file of the base stands where a new path needs a directory. */
  predicate NoFileAbove(base: Tree, files: Tree) {
    forall q, p :: q in base && p in files ==> !Below(q, p)
  }

  /** With fresh paths the base is kept whole exactly when no new path needs a file as its directory. */
  lemma OverlayKeeps(base: Tree, files: Tree)
    requires Fresh(base, files)
    ensures Overlay(base, files) == base + files <==> NoFileAbove(base, files)
  {
    var over := Overlay(base, files);
    if NoFileAbove(base, files) {
      forall p | p in base ensures !Clashes(files, p) {
        forall q | q in files ensures !Below(p, q) && !Below(q, p) {
          assert !PathIn(base, q);
        }
      }
      assert over == base + files;
    }
    if over == base + files {
      forall q, p | q in base && p in files ensures !Below(q, p) {
        assert q in over;
        assert q !in files by {
          assert q in files ==> PathIn(base, q);
        }
      }
    }
  }

  // -------------------------------------------------------------------- what calls do

  function AddTree(r: Repo, base: nat, files: Tree): Repo
    requires base < |r.trees|
  {
    r.(trees := r.trees + [Overlay(r.trees[base], files)])
  }

  function AddCommit(r: Repo, tree: nat, parents: seq<nat>): Repo {
    r.(commits := r.commits + [Commit(tree, parents)])
  }

  function AddRef(r: Repo, name: string, commit: nat): Repo {
    r.(refs := r.refs[name := commit])
  }

  function AddPull(r: Repo, p: Pull): Repo {
    r.(pulls := r.pulls + [p])
  }
}
