/**
 The part of git that the merge train relies on: linear histories under content addressing.

 A commit id is a hash of its content and of its parent's id, so (collisions aside) it stands for the whole
 path from the root.  A commit is therefore modelled as that path: ancestry is the prefix order and two commits
 are the same commit exactly when their paths are equal.
 */
module History {

  /** One commit on a path.  `Local` steps are made by this clone's train (squash commits and cherry-picks);
      `Foreign` steps are the ones other people publish. */
  datatype Step = Local(id: nat) | Foreign(id: nat)

  /** `[]` is the root commit that all histories share. */
  type Commit = seq<Step>

  /** How far two histories that agree up to `from` go on agreeing. */
  function Agreement(a: Commit, b: Commit, from: nat): (n: nat)
    requires from <= |a| && from <= |b| && a[..from] == b[..from]
    ensures n <= |a| && n <= |b| && a[..n] == b[..n]
    ensures n < |a| && n < |b| ==> a[n] != b[n]
    decreases |a| - from
  {
    if from < |a| && from < |b| && a[from] == b[from] then Agreement(a, b, from + 1) else from
  }

  /** `git merge-base a b`. */
  function MergeBase(a: Commit, b: Commit): (m: Commit)
    ensures m <= a && m <= b
    ensures |m| < |a| && |m| < |b| ==> a[|m|] != b[|m|]
  {
    a[..Agreement(a, b, 0)]
  }

  /** `git rev-list --reverse base..tip`: reachable from `tip`, not from `base`, oldest first. */
  function Between(base: Commit, tip: Commit): (commits: seq<Commit>)
    ensures |commits| == |tip| - |MergeBase(base, tip)|
  {
    var m := |MergeBase(base, tip)|;
    seq(|tip| - m, i requires 0 <= i < |tip| - m => tip[..m + 1 + i])
  }

  /** The merge base is the deepest common ancestor. */
  lemma MergeBaseIsDeepest(a: Commit, b: Commit, c: Commit)
    requires c <= a && c <= b
    ensures c <= MergeBase(a, b)
  {
    var n := |MergeBase(a, b)|;
    if n < |c| {
      assert false;
    }
  }

  /** A fork point found by inspection is the merge base. */
  lemma MergeBaseAt(a: Commit, b: Commit, n: nat)
    requires n <= |a| && n <= |b| && a[..n] == b[..n]
    requires n < |a| && n < |b| ==> a[n] != b[n]
    ensures MergeBase(a, b) == a[..n] && MergeBase(b, a) == a[..n]
  {
    MergeBaseIsDeepest(a, b, a[..n]);
    MergeBaseIsDeepest(b, a, a[..n]);
  }

  /** `rev-list` lists exactly the ancestors of `tip` that are not ancestors of `base`, in strictly growing order. */
  lemma BetweenIsExact(base: Commit, tip: Commit, c: Commit)
    ensures c in Between(base, tip) <==> c <= tip && !(c <= base)
    ensures forall i, j :: 0 <= i < j < |Between(base, tip)| ==> Between(base, tip)[i] < Between(base, tip)[j]
  {
    var m := |MergeBase(base, tip)|;
    if c <= tip {
      if c <= base {
        MergeBaseIsDeepest(base, tip, c);
      } else {
        assert |c| > m;
        assert Between(base, tip)[|c| - m - 1] == c;
      }
    }
    if c in Between(base, tip) {
      assert m < |c|;
      if c <= base {
        MergeBaseIsDeepest(base, tip, c);
      }
    }
  }
}
