/** The git commands of the split, on a clone's HEAD, index and working tree. */
module CommitSplitMachine {
  import opened Wrappers
  import opened CommitSplit

  /** The files of a commit, by path. */
  type Tree = map<string, string>

  datatype Commit = Root | Commit(parent: Commit, tree: Tree, message: string)

  function TreeOf(c: Commit): Tree { if c.Root? then map[] else c.tree }

  predicate SameAt(a: Tree, b: Tree, path: string) {
    (path in a <==> path in b) && (path in a ==> a[path] == b[path])
  }

  /** `git diff --name-only`. */
  function Changed(a: Tree, b: Tree): set<string> { set p | p in a.Keys + b.Keys && !SameAt(a, b, p) }

  /** `git add -- paths`: the listed paths become what they are in the working tree, also when they are gone there. */
  function Added(index: Tree, worktree: Tree, paths: set<string>): Tree {
    map p | p in index.Keys + worktree.Keys && (if p in paths then p in worktree else p in index) ::
      if p in paths then worktree[p] else index[p]
  }

  /** `git add` refuses a path it knows from neither side. */
  predicate Addable(index: Tree, worktree: Tree, paths: set<string>) {
    paths <= index.Keys + worktree.Keys
  }

  /** Which git commands fail for reasons of their own. */
  datatype Faults = Faults(head: bool, soft: bool, add: set<nat>, commit: set<nat>, diff: bool)

  /** The trees the groups produce one after another, while every command succeeds. */
  function Play(base: Tree, worktree: Tree, groups: seq<Group>, faults: Faults): Option<Tree> {
    if groups == [] then Some(base)
    else
      var n := |groups| - 1;
      match Play(base, worktree, groups[..n], faults)
      case None => None
      case Some(tree) =>
        var added := Added(tree, worktree, groups[n].paths);
        if n in faults.add || !Addable(tree, worktree, groups[n].paths) || n in faults.commit || added == tree then None
        else Some(added)
  }

  /** One commit per group on top of `base`, each changing something, and nothing outside its group's paths. */
  ghost predicate Stacked(base: Commit, head: Commit, groups: seq<Group>) {
    if groups == [] then head == base
    else
      var last := groups[|groups| - 1];
      && head.Commit? && head.message == last.message
      && Changed(TreeOf(head.parent), head.tree) != {} && Changed(TreeOf(head.parent), head.tree) <= last.paths
      && Stacked(base, head.parent, groups[..|groups| - 1])
  }

  lemma TreesAgree(a: Tree, b: Tree)
    requires forall p :: SameAt(a, b, p)
    ensures a == b
  {
    forall p ensures p in a <==> p in b {
      assert SameAt(a, b, p);
    }
    assert a.Keys == b.Keys;
    forall p | p in a ensures a[p] == b[p] {
      assert SameAt(a, b, p);
    }
  }

  lemma AddedChanges(index: Tree, worktree: Tree, paths: set<string>)
    ensures Changed(index, Added(index, worktree, paths)) <= paths
    ensures Changed(index, Added(index, worktree, paths)) == {} <==> Added(index, worktree, paths) == index
    ensures forall p :: p in paths ==> SameAt(Added(index, worktree, paths), worktree, p)
    ensures forall p :: p !in paths ==> SameAt(Added(index, worktree, paths), index, p)
  {
    var added := Added(index, worktree, paths);
    if Changed(index, added) == {} {
      forall p ensures SameAt(index, added, p) {
        assert p !in Changed(index, added);
      }
      TreesAgree(index, added);
    }
  }

  class Workspace {
    var head: Commit
    var index: Tree
    var worktree: Tree

    constructor (head: Commit)
      ensures this.head == head && index == worktree == TreeOf(head)
    {
      this.head := head;
      index, worktree := TreeOf(head), TreeOf(head);
    }

    method ResetHard(to: Commit)
      modifies this
      ensures head == to && index == worktree == TreeOf(to)
    {
      head, index, worktree := to, TreeOf(to), TreeOf(to);
    }

    /** On success the tree at HEAD is the one the original commit had, built by one commit per group that touches only that
        group's paths; on any failure HEAD is the original commit.  It succeeds exactly when no command fails and the
        groups, played one after another, arrive at the original tree. */
    method SplitCommits(base: Commit, groups: seq<Group>, faults: Faults) returns (ok: bool)
      modifies this
      ensures ok ==> TreeOf(head) == TreeOf(old(head)) && Stacked(base, head, groups)
      ensures !ok ==> head == old(head)
      ensures ok <==>
        && !faults.head && !faults.soft && !faults.diff
        && Play(TreeOf(base), old(worktree), groups, faults) == Some(TreeOf(old(head)))
    {
      if faults.head {
        return false;
      }
      var original := head;
      if faults.soft {
        return false;
      }
      head := base;
      var i := 0;
      while i < |groups|
        invariant i <= |groups| && worktree == old(worktree)
        invariant Stacked(base, head, groups[..i])
        invariant Play(TreeOf(base), worktree, groups[..i], faults) == Some(TreeOf(head))
      {
        assert groups[..i + 1][..i] == groups[..i];
        index := TreeOf(head);
        if i in faults.add || !Addable(index, worktree, groups[i].paths) {
          PlayStops(TreeOf(base), worktree, groups, faults, i);
          ResetHard(original);
          return false;
        }
        AddedChanges(index, worktree, groups[i].paths);
        index := Added(index, worktree, groups[i].paths);
        if i in faults.commit || index == TreeOf(head) {
          PlayStops(TreeOf(base), worktree, groups, faults, i);
          ResetHard(original);
          return false;
        }
        head := Commit(head, index, groups[i].message);
        i := i + 1;
      }
      assert groups[..i] == groups;
      if faults.diff || TreeOf(head) != TreeOf(original) {
        ResetHard(original);
        return false;
      }
      return true;
    }

    /** `auto_split_monolithic_commit`: a clean working tree, commands that do not fail and an unambiguous declaration are
        enough; without a mapping nothing is touched. */
    method AutoSplit(base: Commit, items: seq<Item>, faults: Faults) returns (ok: bool)
      modifies this
      ensures ok ==> TreeOf(head) == TreeOf(old(head))
      ensures ok ==> Stacked(base, head, NonEmpty(Extracted(items, Changed(TreeOf(base), TreeOf(old(head))))))
      ensures !ok ==> head == old(head)
      ensures old(worktree) == TreeOf(old(head)) && NoFaults(faults) ==>
        (ok <==> Unambiguous(items, Changed(TreeOf(base), TreeOf(old(head)))))
    {
      var changed := Changed(TreeOf(base), TreeOf(head));
      var mapping := ParseTaskFileMappings(items, changed);
      if mapping.None? {
        return false;
      }
      if NoFaults(faults) {
        PartitionsSplit(base, head, mapping.value, faults);
      }
      ok := SplitCommits(base, mapping.value, faults);
    }
  }

  /** A group that cannot be played stops the whole play. */
  lemma {:induction false} PlayStops(base: Tree, worktree: Tree, groups: seq<Group>, faults: Faults, i: nat)
    requires i < |groups| && Play(base, worktree, groups[..i + 1], faults).None?
    ensures Play(base, worktree, groups, faults).None?
  {
    if i + 1 == |groups| {
      assert groups[..i + 1] == groups;
    } else {
      assert groups[..|groups| - 1][..i + 1] == groups[..i + 1];
      PlayStops(base, worktree, groups[..|groups| - 1], faults, i);
    }
  }

  // ---- what the mapping is for -------------------------------------------------------------------------------

  /** Every path of a played group ends as it is in the working tree, every other path as it was at the base. */
  lemma {:induction false} PlayLeaves(base: Tree, worktree: Tree, groups: seq<Group>, faults: Faults, p: string)
    requires Play(base, worktree, groups, faults).Some?
    ensures p in Union(groups) ==> SameAt(Play(base, worktree, groups, faults).value, worktree, p)
    ensures p !in Union(groups) ==> SameAt(Play(base, worktree, groups, faults).value, base, p)
  {
    if groups != [] {
      var n := |groups| - 1;
      PlayLeaves(base, worktree, groups[..n], faults, p);
      AddedChanges(Play(base, worktree, groups[..n], faults).value, worktree, groups[n].paths);
    }
  }

  /** A play that goes through arrives at the working tree exactly when its groups cover every path that changed. */
  lemma PlayArrivesIff(base: Tree, worktree: Tree, groups: seq<Group>, faults: Faults)
    requires Play(base, worktree, groups, faults).Some?
    ensures Play(base, worktree, groups, faults) == Some(worktree) <==> Changed(base, worktree) <= Union(groups)
  {
    var tree := Play(base, worktree, groups, faults).value;
    if Changed(base, worktree) <= Union(groups) {
      forall p ensures SameAt(tree, worktree, p) {
        PlayLeaves(base, worktree, groups, faults, p);
        assert p !in Changed(base, worktree) ==> SameAt(base, worktree, p);
      }
      TreesAgree(tree, worktree);
    }
    if tree == worktree {
      forall p | p in Changed(base, worktree) ensures p in Union(groups) {
        PlayLeaves(base, worktree, groups, faults, p);
      }
    }
  }

  predicate NoFaults(f: Faults) { !f.head && !f.soft && f.add == {} && f.commit == {} && !f.diff }

  /** Groups of changed paths that do not overlap always play: each has something to add and something to commit. */
  lemma {:induction false} DisjointGroupsPlay(base: Tree, worktree: Tree, groups: seq<Group>, faults: Faults)
    requires NoFaults(faults) && PairwiseDisjoint(groups)
    requires forall g :: g in groups ==> g.paths != {} && g.paths <= Changed(base, worktree)
    ensures Play(base, worktree, groups, faults).Some?
  {
    if groups != [] {
      var n := |groups| - 1;
      var (init, last) := (groups[..n], groups[n].paths);
      DisjointGroupsPlay(base, worktree, init, faults);
      var tree := Play(base, worktree, init, faults).value;
      assert groups[n] in groups;
      forall p | p in last ensures SameAt(tree, base, p) {
        UnionHolds(init, p);
        PlayLeaves(base, worktree, init, faults, p);
      }
      AddedChanges(tree, worktree, last);
      var p :| p in last;
      assert !SameAt(base, worktree, p);
    }
  }

  /** The mapping is what makes the split work: from a clean working tree, with no command failing on its own, splitting by
      any partition of the changed files succeeds. */
  lemma PartitionsSplit(base: Commit, original: Commit, groups: seq<Group>, faults: Faults)
    requires NoFaults(faults) && Partition(groups, Changed(TreeOf(base), TreeOf(original)))
    ensures Play(TreeOf(base), TreeOf(original), groups, faults) == Some(TreeOf(original))
  {
    forall g | g in groups ensures g.paths <= Union(groups) {
      forall f | f in g.paths ensures f in Union(groups) {
        UnionHolds(groups, f);
      }
    }
    DisjointGroupsPlay(TreeOf(base), TreeOf(original), groups, faults);
    PlayArrivesIff(TreeOf(base), TreeOf(original), groups, faults);
  }
}
