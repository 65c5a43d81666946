/**
 The chain after a red flush.  Replaying what was staged above the culprit is a matter of refs alone, so it needs nothing
 of the task records and holds whatever other processes did to those.
 */
module TrainRestack {
  import opened Wrappers
  import opened History
  import opened TrainSteps
  import opened TrainInvariant

  // ---- the plan of a restack ---------------------------------------------------------------------------------

  type Plan = map<Commit, Option<Commit>>

  /** Cherry-pick `commits` in order onto `start`: the new tip, and what became of each: its new commit, or `None` for a
      conflict, which leaves the tip where it was. */
  function Restack(pick: (Commit, Commit) -> Option<nat>, start: Commit, commits: seq<Commit>): (Commit, Plan) {
    if commits == [] then (start, map[])
    else
      var (t, plan) := Restack(pick, start, commits[..|commits| - 1]);
      var c := commits[|commits| - 1];
      match pick(t, c)
      case None => (t, plan[c := None])
      case Some(n) => (t + [Local(n)], plan[c := Some(t + [Local(n)])])
  }

  lemma RestackSnoc(pick: (Commit, Commit) -> Option<nat>, start: Commit, done: seq<Commit>, c: Commit)
    ensures var (tip, plan) := Restack(pick, start, done);
            Restack(pick, start, done + [c]) ==
              match pick(tip, c)
              case None => (tip, plan[c := None])
              case Some(n) => (tip + [Local(n)], plan[c := Some(tip + [Local(n)])])
  {
    assert (done + [c])[..|done|] == done;
  }

  /** The commits to restack once the k-th staged commit is out: its successors in the snapshot, then whatever was
      staged after the snapshot. */
  function Survivors(base: Commit, snapshot: Commit, k: nat, tip: Commit): seq<Commit>
    requires 1 <= k <= |Between(base, snapshot)|
  {
    Between(base, snapshot)[k..] + (if tip == snapshot then [] else Between(snapshot, tip))
  }

  ghost predicate Ascending(commits: seq<Commit>) {
    forall i, j :: 0 <= i < j < |commits| ==> |commits[i]| < |commits[j]|
  }

  ghost predicate Reached(plan: Plan, c: Commit) {
    exists d :: d in plan && plan[d] == Some(c)
  }

  /** The kept commits of a plan are exactly the commits between `start` and `tip`, in their prior order. */
  ghost predicate Restacks(start: Commit, commits: seq<Commit>, tip: Commit, plan: Plan) {
    && start <= tip && |tip| <= |start| + |commits|
    && (forall i :: |start| <= i < |tip| ==> tip[i].Local?)
    && (forall c :: c in plan <==> c in commits)
    && (forall c :: c in plan && plan[c].Some? ==> |start| < |plan[c].value| && plan[c].value <= tip)
    && (forall height {:trigger Reached(plan, tip[..height])} :: |start| < height <= |tip| ==> Reached(plan, tip[..height]))
    && (forall c, d :: c in plan && d in plan && plan[c].Some? && plan[d].Some? && |c| < |d| ==>
          |plan[c].value| < |plan[d].value|)
  }

  /** One more clean pick. */
  lemma PickExtends(start: Commit, front: seq<Commit>, c: Commit, tip: Commit, plan: Plan, step: Step)
    requires Restacks(start, front, tip, plan) && step.Local?
    requires forall d :: d in front ==> |d| < |c|
    ensures Restacks(start, front + [c], tip + [step], plan[c := Some(tip + [step])])
  {
    var tip', plan' := tip + [step], plan[c := Some(tip + [step])];
    assert c !in plan;
    assert start <= tip' && tip <= tip';
    forall height | |start| < height <= |tip'|
      ensures Reached(plan', tip'[..height])
    {
      if height <= |tip| {
        assert tip'[..height] == tip[..height];
        assert Reached(plan, tip[..height]);
        var d :| d in plan && plan[d] == Some(tip[..height]);
        assert plan'[d] == plan[d];
      } else {
        assert tip'[..height] == tip';
        assert plan'[c] == Some(tip');
      }
    }
    forall d | d in plan' && plan'[d].Some?
      ensures |start| < |plan'[d].value| && plan'[d].value <= tip'
    {
      if d != c {
        assert plan'[d] == plan[d] && plan[d].value <= tip;
      }
    }
  }

  /** One more conflict. */
  lemma ConflictExtends(start: Commit, front: seq<Commit>, c: Commit, tip: Commit, plan: Plan)
    requires Restacks(start, front, tip, plan)
    requires forall d :: d in front ==> |d| < |c|
    ensures Restacks(start, front + [c], tip, plan[c := None])
  {
    var plan' := plan[c := None];
    assert c !in plan;
    forall height | |start| < height <= |tip|
      ensures Reached(plan', tip[..height])
    {
      assert Reached(plan, tip[..height]);
      var d :| d in plan && plan[d] == Some(tip[..height]);
      assert plan'[d] == plan[d];
    }
  }

  lemma FrontAscends(commits: seq<Commit>)
    requires Ascending(commits) && commits != []
    ensures var n := |commits| - 1;
            && commits == commits[..n] + [commits[n]] && Ascending(commits[..n])
            && (forall d :: d in commits[..n] ==> |d| < |commits[n]|)
  {
  }

  lemma {:induction false} RestackShape(pick: (Commit, Commit) -> Option<nat>, start: Commit, commits: seq<Commit>)
    requires Ascending(commits)
    ensures Restacks(start, commits, Restack(pick, start, commits).0, Restack(pick, start, commits).1)
  {
    if commits == [] {
    } else {
      var n := |commits| - 1;
      FrontAscends(commits);
      RestackShape(pick, start, commits[..n]);
      var tip, plan := Restack(pick, start, commits[..n]).0, Restack(pick, start, commits[..n]).1;
      match pick(tip, commits[n])
      case None =>
        assert Restack(pick, start, commits) == (tip, plan[commits[n] := None]);
        ConflictExtends(start, commits[..n], commits[n], tip, plan);
      case Some(id) =>
        assert Restack(pick, start, commits) == (tip + [Local(id)], plan[commits[n] := Some(tip + [Local(id)])]);
        PickExtends(start, commits[..n], commits[n], tip, plan, Local(id));
    }
  }

  // ---- the chain a flush works on ----------------------------------------------------------------------------

  /** `snapshot` is part of the staged chain and both fork off at `base`. */
  ghost predicate OnChain(r: Repo, base: Commit, snapshot: Commit) {
    && Chained(r) && r.staging.Some?
    && snapshot <= Tip(r) && Floor(r) < |snapshot| && base == Tip(r)[..Floor(r)]
  }

  lemma BetweenPrefixes(tip: Commit, low: nat, high: nat)
    requires low <= high <= |tip|
    ensures Between(tip[..low], tip[..high]) == seq(high - low, i requires 0 <= i < high - low => tip[..low + 1 + i])
  {
    MergeBaseAt(tip[..low], tip[..high], low);
    assert tip[..high][..low] == tip[..low];
    var a := Between(tip[..low], tip[..high]);
    forall i | 0 <= i < high - low
      ensures a[i] == tip[..low + 1 + i]
    {
      assert tip[..high][..low + 1 + i] == tip[..low + 1 + i];
    }
  }

  /** The culprit, the commit below it and the survivors, as prefixes of the current tip. */
  lemma ChainShape(r: Repo, base: Commit, snapshot: Commit, k: nat)
    requires OnChain(r, base, snapshot) && 1 <= k <= |snapshot| - |base|
    ensures |Between(base, snapshot)| == |snapshot| - |base|
    ensures Between(base, snapshot)[k - 1] == Tip(r)[..|base| + k]
    ensures Below(base, snapshot, k) == Tip(r)[..|base| + k - 1]
    ensures var rest := Survivors(base, snapshot, k, Tip(r));
            && |rest| == |Tip(r)| - |base| - k
            && (forall i :: 0 <= i < |rest| ==> rest[i] == Tip(r)[..|base| + k + 1 + i])
  {
    var tip, b := Tip(r), |base|;
    assert snapshot == tip[..|snapshot|];
    BetweenPrefixes(tip, b, |snapshot|);
    BetweenPrefixes(tip, |snapshot|, |tip|);
    assert tip[..|tip|] == tip;
  }

  lemma SurvivorsAscend(r: Repo, base: Commit, snapshot: Commit, k: nat)
    requires OnChain(r, base, snapshot) && 1 <= k <= |snapshot| - |base| == |Between(base, snapshot)|
    ensures Ascending(Survivors(base, snapshot, k, Tip(r)))
    ensures base <= Below(base, snapshot, k) <= Tip(r)
    ensures |Below(base, snapshot, k)| + |Survivors(base, snapshot, k, Tip(r))| < |Tip(r)|
  {
    ChainShape(r, base, snapshot, k);
  }

  /** The culprit sits k commits above the fork point. */
  lemma CulpritAt(r: Repo, base: Commit, snapshot: Commit, k: nat)
    requires OnChain(r, base, snapshot) && 1 <= k <= |Between(base, snapshot)|
    ensures |base| == Floor(r) && |base| + k <= |Tip(r)| && Between(base, snapshot)[k - 1] == Tip(r)[..|base| + k]
  {
    ChainShape(r, base, snapshot, 1);
    ChainShape(r, base, snapshot, k);
  }

  lemma EjectForks(r: Repo, base: Commit, start: Commit, tip: Commit)
    requires Chained(r) && r.staging.Some? && base == Tip(r)[..Floor(r)]
    requires base <= start <= Tip(r) && start <= tip && |tip| > |base|
    requires forall i :: |start| <= i < |tip| ==> tip[i].Local?
    ensures Forks(tip, r.tracking, |base|)
  {
  }

  // ---- what the loops of a red flush do to the tip -----------------------------------------------------------

  /** One cherry-pick moves the tip as the plan does, whichever record it finds. */
  lemma ReplayOneTip(branch: string, pick: (Commit, Commit) -> Option<nat>, tables: Tables, position: Option<nat>,
                     s: Restacking, c: Commit, start: Commit, done: seq<Commit>)
    requires Within(tables, |s.queue|) && s.tip == Restack(pick, start, done).0
    ensures ReplayOne(branch, pick, tables, position, s, c).tip == Restack(pick, start, done + [c]).0
  {
    RestackSnoc(pick, start, done, c);
  }

  lemma {:induction false} ReplayTip(branch: string, pick: (Commit, Commit) -> Option<nat>, tables: Tables, first: Option<nat>,
                                     s: Restacking, commits: seq<Commit>, start: Commit, done: seq<Commit>)
    requires Within(tables, |s.queue|) && s.tip == Restack(pick, start, done).0
    ensures ReplayAll(branch, pick, tables, first, s, commits).tip == Restack(pick, start, done + commits).0
    decreases |commits|
  {
    if commits == [] {
      assert done + commits == done;
    } else {
      var n := |commits| - 1;
      var before := ReplayAll(branch, pick, tables, first, s, commits[..n]);
      ReplayTip(branch, pick, tables, first, s, commits[..n], start, done);
      ReplayOneTip(branch, pick, tables, FallBack(first, n), before, commits[n], start, done + commits[..n]);
      assert done + commits[..n] + [commits[n]] == done + commits;
    }
  }

  lemma RestackedTip(w: World, r: Repo, base: Commit, snapshot: Commit, k: nat)
    requires r.staging.Some? && 1 <= k <= |Between(base, snapshot)|
    ensures Restacked(w, r, base, snapshot, k).tip == Restack(w.pick, Below(base, snapshot, k), Survivors(base, snapshot, k, Tip(r))).0
  {
    var (below, rest) := (Below(base, snapshot, k), Between(base, snapshot)[k..]);
    var start := Restacking(below, CulpritOut(r, base, snapshot, k), {}, multiset{});
    var s := ReplayAll(r.branch, w.pick, TablesOf(r), Some(k + 1), start, rest);
    assert [] + rest == rest && rest + [] == rest;
    ReplayTip(r.branch, w.pick, TablesOf(r), Some(k + 1), start, rest, below, []);
    if Tip(r) != snapshot {
      ReplayTip(r.branch, w.pick, Tables(TablesOf(r).byCommit, map[]), None, s, Between(snapshot, Tip(r)), below, rest);
    }
  }

  /** The new tip lies above `base`, below the old height, and forks off where the old one did. */
  lemma NewTip(w: World, r: Repo, base: Commit, snapshot: Commit, k: nat, tip: Commit)
    requires OnChain(r, base, snapshot) && 1 <= k <= |Between(base, snapshot)|
    requires tip == Restacked(w, r, base, snapshot, k).tip
    ensures |base| == Floor(r) && base <= tip && |tip| < |Tip(r)| && (tip != base ==> Forks(tip, r.tracking, |base|))
  {
    ChainShape(r, base, snapshot, 1);
    SurvivorsAscend(r, base, snapshot, k);
    RestackedTip(w, r, base, snapshot, k);
    RestackShape(w.pick, Below(base, snapshot, k), Survivors(base, snapshot, k, Tip(r)));
    if tip != base {
      EjectForks(r, base, Below(base, snapshot, k), tip);
    }
  }

  /** A red flush, whatever the records say: the chain is still a chain, forks off where it did and is strictly shorter;
      the ref is gone exactly when nothing is left of it. */
  lemma EjectKeepsChain(w: World, r: Repo, base: Commit, snapshot: Commit, k: nat)
    requires OnChain(r, base, snapshot) && 1 <= k <= |Between(base, snapshot)|
    ensures var s := Eject(w, r, base, snapshot, k);
            && Chained(s) && Chain(s) < Chain(r) && (s.staging.None? <==> Chain(s) == 0)
            && (s.staging.Some? ==> Floor(s) == Floor(r))
  {
    var tip := Restacked(w, r, base, snapshot, k).tip;
    NewTip(w, r, base, snapshot, k, tip);
    if tip != base {
      ChainedAt(Eject(w, r, base, snapshot, k), |base|);
    }
  }
}
