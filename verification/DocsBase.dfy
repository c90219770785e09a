/** The commit a release's docs are checked from (scripts/functions/release_docs_gate.py). */
module DocsBase {
  import opened Wrappers
  import opened CommitGraph

  const DOCS_SYNC_BRANCH_PREFIX := "auto/docs-update-"

  /** A closed pull request as the API lists it: members of the wrong kind are absent. */
  datatype Pull = Pull(isMerged: bool, branch: Option<string>, mergeCommit: Option<string>, url: Option<string>) | NotAnObject

  datatype JudgedCommit = JudgedCommit(commit: Commit, url: string)

  /** The commits the checkout knows, by name. */
  type Names = string -> Option<Commit>

  predicate StartsWith(s: string, prefix: string) {
    |prefix| <= |s| && s[..|prefix|] == prefix
  }

  predicate IsBetween(low: Commit, c: Commit, high: Commit) {
    IsAncestor(low, c) && IsAncestor(c, high)
  }

  function LastShippedCommit(aligned: Commit, tag: Option<Commit>, release: Commit): Commit {
    if tag.None? then aligned
    else if IsAncestor(tag.value, aligned) then aligned
    else if !(IsAncestor(aligned, tag.value) && IsAncestor(tag.value, release)) then aligned
    else tag.value
  }

  /** The last shipped commit is the tag of the latest release where that lies on the
      line from `main` to the release commit, and `main` everywhere else. */
  lemma ShippedIsOnTheLine(aligned: Commit, tag: Option<Commit>, release: Commit)
    requires IsAncestor(aligned, release)
    ensures IsBetween(aligned, LastShippedCommit(aligned, tag, release), release)
    ensures LastShippedCommit(aligned, tag, release)
         == if tag.Some? && IsBetween(aligned, tag.value, release) then tag.value else aligned
  {
    if tag.Some? && IsAncestor(tag.value, aligned) && IsAncestor(aligned, tag.value) {
      AncestorAntisymmetric(aligned, tag.value);
    }
  }

  /** The commit a merged docs-sync pull request vouches for. */
  function JudgedCommitOf(pull: Pull, shipped: Commit, release: Commit, names: Names): (r: Option<JudgedCommit>)
    ensures r.Some? ==> IsBetween(shipped, r.value.commit, release)
  {
    if pull.NotAnObject? || !pull.isMerged then None
    else if pull.branch.None? || !StartsWith(pull.branch.value, DOCS_SYNC_BRANCH_PREFIX) then None
    else if pull.mergeCommit.None? || pull.url.None? then None
    else
      var commit, merge := names(pull.branch.value[|DOCS_SYNC_BRANCH_PREFIX|..]), names(pull.mergeCommit.value);
      if commit.None? || merge.None? then None
      else if !IsAncestor(shipped, commit.value) then None
      else if !IsAncestor(commit.value, release) then None
      else if !IsAncestor(merge.value, release) then None
      else Some(JudgedCommit(commit.value, pull.url.value))
  }

  /** Whether `pull` vouches for `c`: merged, named after `c`, on the way from the
      shipped commit to the release, with the merge part of the release. */
  predicate Vouches(pull: Pull, c: Commit, shipped: Commit, release: Commit, names: Names) {
    && pull.Pull? && pull.isMerged && pull.branch.Some? && pull.mergeCommit.Some? && pull.url.Some?
    && StartsWith(pull.branch.value, DOCS_SYNC_BRANCH_PREFIX)
    && names(pull.branch.value[|DOCS_SYNC_BRANCH_PREFIX|..]) == Some(c) && IsBetween(shipped, c, release)
    && names(pull.mergeCommit.value).Some? && IsAncestor(names(pull.mergeCommit.value).value, release)
  }

  lemma JudgedIsVouched(pull: Pull, c: Commit, shipped: Commit, release: Commit, names: Names)
    ensures Vouches(pull, c, shipped, release, names)
            <==> JudgedCommitOf(pull, shipped, release, names).Some? && JudgedCommitOf(pull, shipped, release, names).value.commit == c
  {
  }

  ghost predicate IsVouched(pulls: seq<Pull>, c: Commit, shipped: Commit, release: Commit, names: Names) {
    exists i :: 0 <= i < |pulls| && Vouches(pulls[i], c, shipped, release, names)
  }

  /** The latest of the commits read so far: vouched for, and no vouched commit
      strictly descends from it. */
  ghost predicate IsLatest(pulls: seq<Pull>, c: Commit, shipped: Commit, release: Commit, names: Names) {
    && IsVouched(pulls, c, shipped, release, names)
    && forall d :: IsVouched(pulls, d, shipped, release, names) && IsAncestor(c, d) ==> d == c
  }

  /** One more pull request: the fold keeps a latest commit although a commit it
      passes over may be related to neither. */
  lemma LatestGrows(pulls: seq<Pull>, pull: Pull, latest: Commit, shipped: Commit, release: Commit, names: Names)
    requires IsLatest(pulls, latest, shipped, release, names)
    ensures var judged := JudgedCommitOf(pull, shipped, release, names);
            var next := if judged.Some? && IsAncestor(latest, judged.value.commit) then judged.value.commit else latest;
            IsLatest(pulls + [pull], next, shipped, release, names)
  {
    var judged := JudgedCommitOf(pull, shipped, release, names);
    var next := if judged.Some? && IsAncestor(latest, judged.value.commit) then judged.value.commit else latest;
    var longer := pulls + [pull];
    VouchedGrows(pulls, pull, next, shipped, release, names);
    forall d | IsVouched(longer, d, shipped, release, names) && IsAncestor(next, d) ensures d == next {
      VouchedGrows(pulls, pull, d, shipped, release, names);
      AncestorTransitive(latest, next, d);
      if IsVouched(pulls, d, shipped, release, names) { AncestorAntisymmetric(d, next); }
    }
  }

  lemma VouchedGrows(pulls: seq<Pull>, pull: Pull, c: Commit, shipped: Commit, release: Commit, names: Names)
    ensures IsVouched(pulls + [pull], c, shipped, release, names)
            <==> IsVouched(pulls, c, shipped, release, names) || Vouches(pull, c, shipped, release, names)
    ensures Vouches(pull, c, shipped, release, names)
            <==> JudgedCommitOf(pull, shipped, release, names).Some? && JudgedCommitOf(pull, shipped, release, names).value.commit == c
  {
    var longer := pulls + [pull];
    if Vouches(pull, c, shipped, release, names) { assert longer[|pulls|] == pull; }
    if i :| 0 <= i < |pulls| && Vouches(pulls[i], c, shipped, release, names) { assert longer[i] == pulls[i]; }
    JudgedIsVouched(pull, c, shipped, release, names);
  }

  /** The first pull request that vouches for a commit. */
  lemma FirstIsLatest(pulls: seq<Pull>, pull: Pull, c: Commit, shipped: Commit, release: Commit, names: Names)
    requires forall d :: !IsVouched(pulls, d, shipped, release, names)
    requires Vouches(pull, c, shipped, release, names)
    ensures IsLatest(pulls + [pull], c, shipped, release, names)
  {
    VouchedGrows(pulls, pull, c, shipped, release, names);
    forall d | IsVouched(pulls + [pull], d, shipped, release, names) ensures d == c {
      VouchedGrows(pulls, pull, d, shipped, release, names);
    }
  }

  lemma NoneGrows(pulls: seq<Pull>, pull: Pull, shipped: Commit, release: Commit, names: Names)
    requires JudgedCommitOf(pull, shipped, release, names).None?
    requires forall c :: !IsVouched(pulls, c, shipped, release, names)
    ensures forall c :: !IsVouched(pulls + [pull], c, shipped, release, names)
  {
    var longer := pulls + [pull];
    forall c ensures !IsVouched(longer, c, shipped, release, names) {
      VouchedGrows(pulls, pull, c, shipped, release, names);
    }
  }

  /** The latest commit since `shipped` that the docs check already judged: one pass. */
  method LastJudgedCommit(pulls: seq<Pull>, shipped: Commit, release: Commit, names: Names) returns (latest: Option<JudgedCommit>)
    ensures latest.None? ==> forall c :: !IsVouched(pulls, c, shipped, release, names)
    ensures latest.Some? ==> IsLatest(pulls, latest.value.commit, shipped, release, names)
    ensures latest.Some? ==> IsBetween(shipped, latest.value.commit, release)
    ensures latest.Some? ==> exists i :: 0 <= i < |pulls| && Vouches(pulls[i], latest.value.commit, shipped, release, names)
                                         && pulls[i].url == Some(latest.value.url)
  {
    latest := None;
    for i := 0 to |pulls|
      invariant latest.None? ==> forall c :: !IsVouched(pulls[..i], c, shipped, release, names)
      invariant latest.Some? ==> IsLatest(pulls[..i], latest.value.commit, shipped, release, names)
      invariant latest.Some? ==> IsBetween(shipped, latest.value.commit, release)
      invariant latest.Some? ==> exists k :: 0 <= k < i && Vouches(pulls[k], latest.value.commit, shipped, release, names)
                                             && pulls[k].url == Some(latest.value.url)
    {
      var judged := JudgedCommitOf(pulls[i], shipped, release, names);
      assert pulls[..i + 1] == pulls[..i] + [pulls[i]];
      if latest.Some? {
        LatestGrows(pulls[..i], pulls[i], latest.value.commit, shipped, release, names);
      } else if judged.Some? {
        JudgedIsVouched(pulls[i], judged.value.commit, shipped, release, names);
        FirstIsLatest(pulls[..i], pulls[i], judged.value.commit, shipped, release, names);
      } else {
        NoneGrows(pulls[..i], pulls[i], shipped, release, names);
      }
      if judged.Some? && (latest.None? || IsAncestor(latest.value.commit, judged.value.commit)) {
        JudgedIsVouched(pulls[i], judged.value.commit, shipped, release, names);
        latest := judged;
      }
    }
    assert pulls[..|pulls|] == pulls;
  }

  /** The base of the docs check lies between `main` and the release commit, and past
      the last shipped commit it is a latest vouched commit. */
  method DocsCheckBase(aligned: Commit, tag: Option<Commit>, pulls: seq<Pull>, release: Commit, names: Names) returns (base: Commit)
    requires IsAncestor(aligned, release)
    ensures IsBetween(aligned, base, release)
    ensures IsAncestor(LastShippedCommit(aligned, tag, release), base)
    ensures var shipped := LastShippedCommit(aligned, tag, release);
            if exists c :: IsVouched(pulls, c, shipped, release, names)
            then IsLatest(pulls, base, shipped, release, names)
            else base == shipped
  {
    var shipped := LastShippedCommit(aligned, tag, release);
    ShippedIsOnTheLine(aligned, tag, release);
    var judged := LastJudgedCommit(pulls, shipped, release, names);
    base := if judged.None? then shipped else judged.value.commit;
    AncestorTransitive(aligned, shipped, base);
  }
}
