/** The commits of a git repository, as scripts/functions/repo.py reads them.

    The id of a commit covers its parents and its tree, so a commit is its own
    history: it is a value that holds its parents, and two commits are the same
    commit when they are equal. */
module CommitGraph {
  import opened Wrappers

  type Path = string

  /** `stamp` stands for the rest of what the id covers (author, date, message). */
  datatype Commit = Commit(parents: seq<Commit>, tree: map<Path, string>, stamp: nat)

  /** Everything reachable from `c`, itself included. */
  function Ancestors(c: Commit): set<Commit>
  {
    {c} + set i, a | 0 <= i < |c.parents| && a in Ancestors(c.parents[i]) :: a
  }

  /** `git merge-base --is-ancestor`. */
  predicate IsAncestor(ancestor: Commit, descendant: Commit) {
    ancestor in Ancestors(descendant)
  }

  function Read(tree: map<Path, string>, path: Path): Option<string> {
    if path in tree then Some(tree[path]) else None
  }

  /** `git diff --name-only --no-renames`. */
  function ChangedPaths(base: Commit, head: Commit): set<Path> {
    set p | p in base.tree.Keys + head.tree.Keys && Read(base.tree, p) != Read(head.tree, p)
  }

  predicate IsMerge(c: Commit) {
    |c.parents| > 1
  }

  /** Whether `c`, no merge, makes a change to `path` itself. */
  predicate Changes(c: Commit, path: Path) {
    Read(c.tree, path) != if c.parents == [] then None else Read(c.parents[0].tree, path)
  }

  /** `git rev-list --full-history --no-merges base..head -- path`. */
  function CommitsChanging(base: Commit, head: Commit, path: Path): set<Commit> {
    set c | c in Ancestors(head) && c !in Ancestors(base) && !IsMerge(c) && Changes(c, path)
  }

  // --- The ancestor relation is a partial order ---

  lemma {:induction false} AncestorTransitive(a: Commit, b: Commit, c: Commit)
    requires IsAncestor(a, b) && IsAncestor(b, c)
    ensures IsAncestor(a, c)
    decreases c
  {
    if b != c {
      var i :| 0 <= i < |c.parents| && b in Ancestors(c.parents[i]);
      AncestorTransitive(a, b, c.parents[i]);
    }
  }

  lemma AncestorsGrow(a: Commit, b: Commit)
    requires IsAncestor(a, b)
    ensures Ancestors(a) <= Ancestors(b)
  {
    forall x | x in Ancestors(a) ensures x in Ancestors(b) {
      AncestorTransitive(x, a, b);
    }
  }

  function Sum(heights: seq<nat>): nat {
    if heights == [] then 0 else heights[0] + Sum(heights[1..])
  }

  lemma {:induction false} SumBounds(heights: seq<nat>, i: nat)
    requires i < |heights|
    ensures heights[i] <= Sum(heights)
  {
    if i > 0 { SumBounds(heights[1..], i - 1); }
  }

  function Height(c: Commit): nat
  {
    1 + Sum(seq(|c.parents|, i requires 0 <= i < |c.parents| => Height(c.parents[i])))
  }

  lemma ParentIsLower(c: Commit, i: nat)
    requires i < |c.parents|
    ensures Height(c.parents[i]) < Height(c)
  {
    var heights := seq(|c.parents|, j requires 0 <= j < |c.parents| => Height(c.parents[j]));
    SumBounds(heights, i);
  }

  lemma {:induction false} ProperAncestorIsLower(a: Commit, c: Commit)
    requires IsAncestor(a, c) && a != c
    ensures Height(a) < Height(c)
    decreases c
  {
    var i :| 0 <= i < |c.parents| && a in Ancestors(c.parents[i]);
    ParentIsLower(c, i);
    if a != c.parents[i] { ProperAncestorIsLower(a, c.parents[i]); }
  }

  lemma AncestorAntisymmetric(a: Commit, b: Commit)
    requires IsAncestor(a, b) && IsAncestor(b, a)
    ensures a == b
  {
    if a != b {
      ProperAncestorIsLower(a, b);
      ProperAncestorIsLower(b, a);
    }
  }

  // --- The two commits a publish makes ---

  lemma ParentIsNoDescendant(c: Commit, i: nat)
    requires i < |c.parents|
    ensures c !in Ancestors(c.parents[i])
  {
    ParentIsLower(c, i);
    if IsAncestor(c, c.parents[i]) && c != c.parents[i] {
      ProperAncestorIsLower(c, c.parents[i]);
    }
  }

  lemma AncestorsOfChild(c: Commit, parent: Commit)
    requires c.parents == [parent]
    ensures Ancestors(c) == {c} + Ancestors(parent)
    ensures c !in Ancestors(parent)
  {
    assert c.parents[0] == parent;
    ParentIsNoDescendant(c, 0);
  }

  lemma AncestorsOfBoth(c: Commit, left: Commit, right: Commit)
    requires c.parents == [left, right]
    ensures Ancestors(c) == {c} + Ancestors(left) + Ancestors(right)
  {
    assert c.parents[0] == left && c.parents[1] == right;
  }

  lemma AncestorsOfMerge(c: Commit, left: Commit, right: Commit)
    requires c.parents == [left, right]
    ensures Ancestors(c) == {c} + Ancestors(left) + Ancestors(right)
    ensures c !in Ancestors(left) && c !in Ancestors(right)
  {
    AncestorsOfBoth(c, left, right);
    ParentIsNoDescendant(c, 0);
    ParentIsNoDescendant(c, 1);
  }
}
