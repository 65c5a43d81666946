/**
 Looking up the record of a staged commit, and what depends on it: when every commit a red flush touches is looked up
 correctly, its loops carry out the plan of the restack record by record.
 */
module TrainReplay {
  import opened Wrappers
  import opened History
  import opened TrainSteps
  import opened TrainInvariant
  import opened TrainRestack

  // ---- looking up the record of a commit ---------------------------------------------------------------------

  ghost predicate Owned(branch: string, q: seq<Task>, c: Commit) {
    exists i :: 0 <= i < |q| && OnTrain(branch, q[i]) && StagedAt(branch, q[i]) == c
  }

  ghost predicate Taken(branch: string, q: seq<Task>, position: Option<nat>) {
    position.Some? && exists i :: 0 <= i < |q| && OnTrain(branch, q[i]) && Position(branch, q[i]) == position.value
  }

  function RecordOf(branch: string, q: seq<Task>, c: Commit, position: Option<nat>): (at: Option<nat>)
    ensures at.Some? ==> at.value < |q| && OnTrain(branch, q[at.value])
  {
    Lookup(ByCommit(branch, q), ByPosition(branch, q), c, position)
  }

  /** A record staged at `c`, or none if there is none. */
  ghost predicate Right(branch: string, q: seq<Task>, at: Option<nat>, c: Commit) {
    match at
    case None => !Owned(branch, q, c)
    case Some(i) => i < |q| && OnTrain(branch, q[i]) && StagedAt(branch, q[i]) == c
  }

  lemma {:induction false} EveryCommitIndexed(branch: string, q: seq<Task>, i: nat)
    requires i < |q| && OnTrain(branch, q[i])
    ensures q[i].train.value.commit in ByCommit(branch, q)
  {
    var n := |q| - 1;
    if i < n {
      assert q[..n][i] == q[i];
      EveryCommitIndexed(branch, q[..n], i);
    }
  }

  lemma {:induction false} EveryPositionIndexed(branch: string, q: seq<Task>, i: nat)
    requires i < |q| && OnTrain(branch, q[i])
    ensures q[i].train.value.position in ByPosition(branch, q)
  {
    var n := |q| - 1;
    if i < n {
      assert q[..n][i] == q[i];
      EveryPositionIndexed(branch, q[..n], i);
    }
  }

  lemma CommitIndexed(branch: string, q: seq<Task>, c: Commit)
    ensures c in ByCommit(branch, q) <==> Owned(branch, q, c)
    ensures c in ByCommit(branch, q) ==> Right(branch, q, Some(ByCommit(branch, q)[c]), c)
  {
    if Owned(branch, q, c) {
      var i :| 0 <= i < |q| && OnTrain(branch, q[i]) && StagedAt(branch, q[i]) == c;
      EveryCommitIndexed(branch, q, i);
    }
  }

  lemma PositionIndexed(branch: string, q: seq<Task>, p: nat)
    ensures p in ByPosition(branch, q) <==> Taken(branch, q, Some(p))
  {
    if Taken(branch, q, Some(p)) {
      var i :| 0 <= i < |q| && OnTrain(branch, q[i]) && Position(branch, q[i]) == p;
      EveryPositionIndexed(branch, q, i);
    }
  }

  /** The record that a lookup by commit and position finds is the right one. */
  ghost predicate FindsOwn(branch: string, q: seq<Task>, c: Commit, position: Option<nat>) {
    Right(branch, q, RecordOf(branch, q, c, position), c)
  }

  /** The lookup is right exactly when the commit still has a record, or nobody has taken the position it falls back on. */
  lemma RightIff(branch: string, q: seq<Task>, c: Commit, position: Option<nat>)
    ensures FindsOwn(branch, q, c, position) <==> Owned(branch, q, c) || !Taken(branch, q, position)
  {
    CommitIndexed(branch, q, c);
    if position.Some? { PositionIndexed(branch, q, position.value); }
    var at := RecordOf(branch, q, c, position);
    if c !in ByCommit(branch, q) && at.Some? {
      assert StagedAt(branch, q[at.value]) != c;
    }
  }

  /** Every lookup of a red flush is right: the culprit's and those of its successors in the snapshot.  (What was staged
      later is looked up by commit alone, which is always right.) */
  ghost predicate Harmless(r: Repo, base: Commit, snapshot: Commit, k: nat) {
    forall i :: 0 <= k - 1 <= i < |Between(base, snapshot)| ==>
      FindsOwn(r.branch, r.queue, Between(base, snapshot)[i], Some(i + 1))
  }

  ghost predicate NumberedFrom(r: Repo, base: nat) {
    forall i :: 0 <= i < |r.queue| && OnTrain(r.branch, r.queue[i]) ==>
      Position(r.branch, r.queue[i]) == |StagedAt(r.branch, r.queue[i])| - base
  }

  lemma OwnerFindsOwn(r: Repo, height: nat, c: Commit, position: Option<nat>)
    requires Inv(r) && Floor(r) < height <= |Tip(r)| && c == Tip(r)[..height]
    ensures FindsOwn(r.branch, r.queue, c, position)
  {
    var j := OwnerOf(r.branch, r.queue, Floor(r), Tip(r), height);
    RightIff(r.branch, r.queue, c, position);
  }

  /** Where refs and records agree every commit has its record, so the position is never consulted. */
  lemma AgreementIsHarmless(r: Repo, base: Commit, snapshot: Commit, k: nat)
    requires Inv(r) && OnChain(r, base, snapshot)
    ensures Harmless(r, base, snapshot, k)
  {
    forall i | 0 <= k - 1 <= i < |Between(base, snapshot)|
      ensures FindsOwn(r.branch, r.queue, Between(base, snapshot)[i], Some(i + 1))
    {
      CulpritAt(r, base, snapshot, i + 1);
      OwnerFindsOwn(r, |base| + i + 1, Between(base, snapshot)[i], Some(i + 1));
    }
  }

  lemma RankOwner(r: Repo, base: nat, rank: nat, c: Commit, j: nat)
    requires Charted(r.branch, r.queue, Floor(r), Tip(r)) && NumberedFrom(r, base)
    requires base + rank <= |Tip(r)| && c == Tip(r)[..base + rank]
    requires j < |r.queue| && OnTrain(r.branch, r.queue[j]) && Position(r.branch, r.queue[j]) == rank
    ensures Owned(r.branch, r.queue, c)
  {
    assert StagedAt(r.branch, r.queue[j]) <= Tip(r) && |StagedAt(r.branch, r.queue[j])| == base + rank;
  }

  lemma RankFindsOwn(r: Repo, base: nat, rank: nat, c: Commit)
    requires Charted(r.branch, r.queue, Floor(r), Tip(r)) && NumberedFrom(r, base)
    requires base + rank <= |Tip(r)| && c == Tip(r)[..base + rank]
    ensures FindsOwn(r.branch, r.queue, c, Some(rank))
  {
    RightIff(r.branch, r.queue, c, Some(rank));
    if Taken(r.branch, r.queue, Some(rank)) {
      var j :| 0 <= j < |r.queue| && OnTrain(r.branch, r.queue[j]) && Position(r.branch, r.queue[j]) == rank;
      RankOwner(r, base, rank, c, j);
    }
  }

  /** As long as positions are ranks on the chain, withdrawn records do no harm either: the position of a commit that
      has lost its record is free. */
  lemma RanksAreHarmless(r: Repo, base: Commit, snapshot: Commit, k: nat)
    requires OnChain(r, base, snapshot)
    requires Charted(r.branch, r.queue, Floor(r), Tip(r)) && NumberedFrom(r, |base|)
    ensures Harmless(r, base, snapshot, k)
  {
    forall i | 0 <= k - 1 <= i < |Between(base, snapshot)|
      ensures FindsOwn(r.branch, r.queue, Between(base, snapshot)[i], Some(i + 1))
    {
      CulpritAt(r, base, snapshot, i + 1);
      RankFindsOwn(r, |base|, i + 1, Between(base, snapshot)[i]);
    }
  }

  // ---- the plan, record by record ----------------------------------------------------------------------------

  /** A record after the restack: on its new commit, off the train, or as it was. */
  function Moved(branch: string, culprit: Commit, plan: Plan, t: Task): Task {
    if !OnTrain(branch, t) then t
    else
      var c := t.train.value.commit;
      if c == culprit then Ejected(t, BatchValidation)
      else if c !in plan then t
      else match plan[c]
        case None => Ejected(t, RestackConflict)
        case Some(picked) => t.(train := Some(t.train.value.(commit := picked)))
  }

  function MoveAll(branch: string, culprit: Commit, plan: Plan, q: seq<Task>): (q': seq<Task>)
    ensures |q'| == |q| && forall i :: 0 <= i < |q| ==> q'[i] == Moved(branch, culprit, plan, q[i])
  {
    seq(|q|, i requires 0 <= i < |q| => Moved(branch, culprit, plan, q[i]))
  }

  /** `q'` are the records `q` after the restack. */
  ghost predicate AllMoved(branch: string, culprit: Commit, plan: Plan, q: seq<Task>, q': seq<Task>) {
    |q'| == |q| && forall i :: 0 <= i < |q| ==> q'[i] == Moved(branch, culprit, plan, q[i])
  }

  /** A record that the plan drops as a restack conflict. */
  predicate Conflicting(branch: string, culprit: Commit, plan: Plan, t: Task) {
    OnTrain(branch, t) && t.train.value.commit != culprit && t.train.value.commit in plan && plan[t.train.value.commit].None?
  }

  ghost predicate HasConflict(branch: string, q: seq<Task>, culprit: Commit, plan: Plan, id: string) {
    exists j :: 0 <= j < |q| && q[j].id == id && Conflicting(branch, culprit, plan, q[j])
  }

  ghost predicate SameMembers(ids: set<string>, counted: multiset<string>) {
    forall id: string :: id in ids <==> id in counted
  }

  /** No two records on this train are staged at the same commit. */
  ghost predicate Unambiguous(branch: string, q: seq<Task>) {
    forall i, j {:trigger Both(i, j)} :: Both(i, j) && 0 <= i < |q| && 0 <= j < |q| && i != j ==>
      OnTrain(branch, q[i]) && OnTrain(branch, q[j]) ==> StagedAt(branch, q[i]) != StagedAt(branch, q[j])
  }

  lemma ChartedIsUnambiguous(branch: string, q: seq<Task>, floor: nat, tip: Commit)
    requires Charted(branch, q, floor, tip)
    ensures Unambiguous(branch, q)
  {
    forall i, j | Both(i, j) && 0 <= i < |q| && 0 <= j < |q| && i != j
      ensures OnTrain(branch, q[i]) && OnTrain(branch, q[j]) ==> StagedAt(branch, q[i]) != StagedAt(branch, q[j])
    {
      assert InOrder(branch, q[i], q[j]);
    }
  }

  /** The ids reported are those of the records the plan drops, and they are the ones counted. */
  ghost predicate Reports(branch: string, q: seq<Task>, culprit: Commit, plan: Plan, reported: set<string>, dropped: multiset<string>) {
    && (forall id: string :: id in reported <==> HasConflict(branch, q, culprit, plan, id))
    && SameMembers(reported, dropped)
  }

  /** `s` is what a plan makes of the records `q` once the culprit is out. */
  ghost predicate Carried(branch: string, q: seq<Task>, culprit: Commit, plan: Plan, s: Restacking) {
    && AllMoved(branch, culprit, plan, q, s.queue)
    && Reports(branch, q, culprit, plan, s.reported, s.dropped)
  }

  /** What a commit's lookup has to find while a plan is carried out. */
  ghost predicate Untouched(branch: string, q: seq<Task>, at: Option<nat>, c: Commit, culprit: Commit, plan: Plan) {
    Unambiguous(branch, q) && Right(branch, q, at, c) && c !in plan && c != culprit && c != []
  }

  /** The other records are staged elsewhere. */
  lemma NobodyElse(branch: string, q: seq<Task>, at: Option<nat>, c: Commit, j: nat)
    requires Unambiguous(branch, q) && Right(branch, q, at, c) && j < |q| && at != Some(j) && c != []
    ensures StagedAt(branch, q[j]) != c
  {
    if at.Some? { assert Both(at.value, j); }
  }

  lemma CarryPick(branch: string, q: seq<Task>, culprit: Commit, plan: Plan, s: Restacking, c: Commit, at: Option<nat>, picked: Commit,
                  s': Restacking)
    requires Carried(branch, q, culprit, plan, s) && Untouched(branch, q, at, c, culprit, plan)
    requires s' == if at.None? then s.(tip := picked)
                   else s.(tip := picked, queue := s.queue[at.value := q[at.value].(train := Some(q[at.value].train.value.(commit := picked)))])
    ensures Carried(branch, q, culprit, plan[c := Some(picked)], s')
  {
    var plan' := plan[c := Some(picked)];
    forall j | 0 <= j < |q|
      ensures s'.queue[j] == Moved(branch, culprit, plan', q[j])
      ensures Conflicting(branch, culprit, plan', q[j]) <==> Conflicting(branch, culprit, plan, q[j])
    {
      if at != Some(j) { NobodyElse(branch, q, at, c, j); }
    }
    SameConflicts(branch, q, culprit, plan, plan');
  }

  lemma SameConflicts(branch: string, q: seq<Task>, culprit: Commit, plan: Plan, plan': Plan)
    requires forall j :: 0 <= j < |q| ==> (Conflicting(branch, culprit, plan', q[j]) <==> Conflicting(branch, culprit, plan, q[j]))
    ensures forall id: string :: HasConflict(branch, q, culprit, plan', id) <==> HasConflict(branch, q, culprit, plan, id)
  {
  }

  lemma OneMoreConflict(branch: string, q: seq<Task>, culprit: Commit, plan: Plan, plan': Plan, at: nat,
                        reported: set<string>, dropped: multiset<string>)
    requires Reports(branch, q, culprit, plan, reported, dropped)
    requires at < |q| && Conflicting(branch, culprit, plan', q[at])
    requires forall j :: 0 <= j < |q| && j != at ==> (Conflicting(branch, culprit, plan', q[j]) <==> Conflicting(branch, culprit, plan, q[j]))
    requires !Conflicting(branch, culprit, plan, q[at])
    ensures Reports(branch, q, culprit, plan', reported + {q[at].id}, dropped + multiset{q[at].id})
  {
    forall id: string
      ensures HasConflict(branch, q, culprit, plan', id) <==> HasConflict(branch, q, culprit, plan, id) || id == q[at].id
    {
    }
  }

  lemma CarryConflict(branch: string, q: seq<Task>, culprit: Commit, plan: Plan, s: Restacking, c: Commit, at: Option<nat>, s': Restacking)
    requires Carried(branch, q, culprit, plan, s) && Untouched(branch, q, at, c, culprit, plan)
    requires s' == if at.None? then s
                   else s.(queue := s.queue[at.value := Ejected(q[at.value], RestackConflict)],
                           reported := s.reported + {q[at.value].id}, dropped := s.dropped + multiset{q[at.value].id})
    ensures Carried(branch, q, culprit, plan[c := None], s')
  {
    var plan' := plan[c := None];
    forall j | 0 <= j < |q|
      ensures s'.queue[j] == Moved(branch, culprit, plan', q[j])
      ensures Conflicting(branch, culprit, plan', q[j]) <==> at == Some(j) || Conflicting(branch, culprit, plan, q[j])
    {
      if at != Some(j) { NobodyElse(branch, q, at, c, j); }
    }
    match at
    case None => SameConflicts(branch, q, culprit, plan, plan');
    case Some(i) => OneMoreConflict(branch, q, culprit, plan, plan', i, s.reported, s.dropped);
  }

  lemma CarryCulprit(branch: string, q: seq<Task>, culprit: Commit, at: Option<nat>, s: Restacking)
    requires Unambiguous(branch, q) && Right(branch, q, at, culprit) && culprit != []
    requires s.queue == (if at.None? then q else q[at.value := Ejected(q[at.value], BatchValidation)])
    requires s.reported == {} && s.dropped == multiset{}
    ensures Carried(branch, q, culprit, map[], s)
  {
    forall j | 0 <= j < |q| ensures s.queue[j] == Moved(branch, culprit, map[], q[j]) {
      if at != Some(j) { NobodyElse(branch, q, at, culprit, j); }
    }
  }

  /** One cherry-pick carries out one more commit of the plan. */
  lemma ReplayOneCarries(branch: string, pick: (Commit, Commit) -> Option<nat>, tables: Tables, position: Option<nat>, s: Restacking,
                         c: Commit, q: seq<Task>, culprit: Commit, start: Commit, done: seq<Commit>)
    requires Within(tables, |s.queue|)
    requires s.tip == Restack(pick, start, done).0 && Carried(branch, q, culprit, Restack(pick, start, done).1, s)
    requires Untouched(branch, q, Lookup(tables.byCommit, tables.byPosition, c, position), c, culprit, Restack(pick, start, done).1)
    ensures Carried(branch, q, culprit, Restack(pick, start, done + [c]).1, ReplayOne(branch, pick, tables, position, s, c))
  {
    var (plan, at) := (Restack(pick, start, done).1, Lookup(tables.byCommit, tables.byPosition, c, position));
    var s' := ReplayOne(branch, pick, tables, position, s, c);
    RestackSnoc(pick, start, done, c);
    assert at.Some? ==> s.queue[at.value] == q[at.value];
    match pick(s.tip, c)
    case Some(n) => CarryPick(branch, q, culprit, plan, s, c, at, s.tip + [Local(n)], s');
    case None => CarryConflict(branch, q, culprit, plan, s, c, at, s');
  }

  /** A lookup in `tables` for the i-th of a list of commits. */
  ghost predicate FindsAt(branch: string, q: seq<Task>, tables: Tables, first: Option<nat>, commits: seq<Commit>, i: nat)
    requires i < |commits|
  {
    Right(branch, q, Lookup(tables.byCommit, tables.byPosition, commits[i], FallBack(first, i)), commits[i])
  }

  /** The lookups that a loop over a list makes. */
  ghost predicate FindsAll(branch: string, q: seq<Task>, tables: Tables, first: Option<nat>, commits: seq<Commit>) {
    forall i :: 0 <= i < |commits| ==> FindsAt(branch, q, tables, first, commits, i)
  }

  lemma FindsFront(branch: string, q: seq<Task>, tables: Tables, first: Option<nat>, commits: seq<Commit>)
    requires FindsAll(branch, q, tables, first, commits) && commits != []
    ensures FindsAll(branch, q, tables, first, commits[..|commits| - 1])
    ensures FindsAt(branch, q, tables, first, commits, |commits| - 1)
  {
    var front := commits[..|commits| - 1];
    forall i | 0 <= i < |front| ensures FindsAt(branch, q, tables, first, front, i) {
      assert commits[i] == front[i];
      assert FindsAt(branch, q, tables, first, commits, i);
    }
  }

  ghost predicate AllAbove(commits: seq<Commit>, culprit: Commit) {
    forall i :: 0 <= i < |commits| ==> |commits[i]| > |culprit|
  }

  /** A commit is replayed once: it is not in the plan of the commits before it. */
  lemma Unplanned(pick: (Commit, Commit) -> Option<nat>, start: Commit, done: seq<Commit>, commits: seq<Commit>)
    requires Ascending(done + commits) && commits != []
    ensures var n := |commits| - 1;
            Ascending(done + commits[..n]) && commits[n] !in Restack(pick, start, done + commits[..n]).1
  {
    var n := |commits| - 1;
    var all, front := done + commits, done + commits[..n];
    assert front == all[..|done| + n];
    RestackShape(pick, start, front);
    assert all[|done| + n] == commits[n];
  }

  lemma LastOf(done: seq<Commit>, commits: seq<Commit>)
    requires commits != []
    ensures var n := |commits| - 1; done + commits[..n] + [commits[n]] == done + commits
  {
  }

  /** The last cherry-pick of a loop. */
  lemma ReplayLastCarries(branch: string, pick: (Commit, Commit) -> Option<nat>, tables: Tables, first: Option<nat>, s: Restacking,
                          commits: seq<Commit>, q: seq<Task>, culprit: Commit, start: Commit, done: seq<Commit>)
    requires Within(tables, |s.queue|) && Unambiguous(branch, q) && FindsAll(branch, q, tables, first, commits) && commits != []
    requires s.tip == Restack(pick, start, done + commits[..|commits| - 1]).0
    requires Carried(branch, q, culprit, Restack(pick, start, done + commits[..|commits| - 1]).1, s)
    requires AllAbove(commits, culprit) && Ascending(done + commits)
    ensures var n := |commits| - 1;
            Carried(branch, q, culprit, Restack(pick, start, done + commits).1,
                    ReplayOne(branch, pick, tables, FallBack(first, n), s, commits[n]))
  {
    var n := |commits| - 1;
    Unplanned(pick, start, done, commits);
    assert FindsAt(branch, q, tables, first, commits, n);
    ReplayOneCarries(branch, pick, tables, FallBack(first, n), s, commits[n], q, culprit, start, done + commits[..n]);
    LastOf(done, commits);
  }

  /** A replay loop carries out the plan of its commits. */
  lemma {:induction false} ReplayCarries(branch: string, pick: (Commit, Commit) -> Option<nat>, tables: Tables, first: Option<nat>,
                                         s: Restacking, commits: seq<Commit>, q: seq<Task>, culprit: Commit, start: Commit, done: seq<Commit>)
    requires Within(tables, |s.queue|) && Unambiguous(branch, q) && FindsAll(branch, q, tables, first, commits)
    requires s.tip == Restack(pick, start, done).0 && Carried(branch, q, culprit, Restack(pick, start, done).1, s)
    requires AllAbove(commits, culprit) && Ascending(done + commits)
    ensures Carried(branch, q, culprit, Restack(pick, start, done + commits).1, ReplayAll(branch, pick, tables, first, s, commits))
    decreases |commits|
  {
    if commits == [] {
      assert done + commits == done;
    } else {
      var n := |commits| - 1;
      var before := ReplayAll(branch, pick, tables, first, s, commits[..n]);
      FindsFront(branch, q, tables, first, commits);
      Unplanned(pick, start, done, commits);
      ReplayCarries(branch, pick, tables, first, s, commits[..n], q, culprit, start, done);
      ReplayTip(branch, pick, tables, first, s, commits[..n], start, done);
      ReplayLastCarries(branch, pick, tables, first, before, commits, q, culprit, start, done);
    }
  }

  // ---- the whole restack -------------------------------------------------------------------------------------

  /** A red flush whose lookups are right, on a board where no two records share a commit. */
  ghost predicate Followable(r: Repo, base: Commit, snapshot: Commit, k: nat) {
    && OnChain(r, base, snapshot) && 1 <= k <= |Between(base, snapshot)|
    && Unambiguous(r.branch, r.queue) && Harmless(r, base, snapshot, k)
  }

  /** A lookup by commit alone is always right. */
  lemma CommitAlone(branch: string, q: seq<Task>, c: Commit)
    ensures Right(branch, q, Lookup(ByCommit(branch, q), map[], c, None), c)
  {
    CommitIndexed(branch, q, c);
  }

  lemma FindsOwnAt(branch: string, q: seq<Task>, tables: Tables, first: Option<nat>, commits: seq<Commit>, i: nat)
    requires tables == Tables(ByCommit(branch, q), ByPosition(branch, q)) && i < |commits|
    requires FindsOwn(branch, q, commits[i], FallBack(first, i))
    ensures FindsAt(branch, q, tables, first, commits, i)
  {
  }

  lemma TailFindsOwn(branch: string, q: seq<Task>, staged: seq<Commit>, k: nat, first: Option<nat>, tail: seq<Commit>, i: nat)
    requires 1 <= k <= |staged| && tail == staged[k..] && i < |tail| && first == Some(k + 1)
    requires FindsOwn(branch, q, staged[k + i], Some(k + i + 1))
    ensures FindsOwn(branch, q, tail[i], FallBack(first, i))
  {
    assert tail[i] == staged[k + i] && FallBack(first, i) == Some(k + i + 1);
  }

  /** The lookups of the loop over the rest of the snapshot. */
  lemma TailFinds(branch: string, q: seq<Task>, staged: seq<Commit>, k: nat, tables: Tables, first: Option<nat>, tail: seq<Commit>)
    requires tables == Tables(ByCommit(branch, q), ByPosition(branch, q)) && first == Some(k + 1)
    requires 1 <= k <= |staged| && tail == staged[k..]
    requires forall i :: k <= i < |staged| ==> FindsOwn(branch, q, staged[i], Some(i + 1))
    ensures FindsAll(branch, q, tables, first, tail)
  {
    forall i | 0 <= i < |tail|
      ensures FindsAt(branch, q, tables, first, tail, i)
    {
      TailFindsOwn(branch, q, staged, k, first, tail, i);
      FindsOwnAt(branch, q, tables, first, tail, i);
    }
  }

  /** The lookups of the loop over what was staged after the snapshot. */
  lemma LaterFinds(branch: string, q: seq<Task>, tables: Tables, later: seq<Commit>)
    requires tables == Tables(ByCommit(branch, q), map[])
    ensures FindsAll(branch, q, tables, None, later)
  {
    forall i | 0 <= i < |later|
      ensures FindsAt(branch, q, tables, None, later, i)
    {
      CommitAlone(branch, q, later[i]);
    }
  }

  /** The two parts of what is replayed, in order and above the culprit. */
  lemma LoopsAscend(r: Repo, base: Commit, snapshot: Commit, k: nat, culprit: Commit, tail: seq<Commit>, later: seq<Commit>)
    requires OnChain(r, base, snapshot) && 1 <= k <= |Between(base, snapshot)|
    requires culprit == Between(base, snapshot)[k - 1] && tail == Between(base, snapshot)[k..]
    requires later == if Tip(r) == snapshot then [] else Between(snapshot, Tip(r))
    ensures Ascending(tail) && Ascending(tail + later) && AllAbove(tail, culprit) && AllAbove(later, culprit) && culprit != []
  {
    ChainShape(r, base, snapshot, 1);
    ChainShape(r, base, snapshot, k);
    Rising(Tip(r), culprit, Survivors(base, snapshot, k, Tip(r)), tail, later);
  }

  lemma Rising(tip: Commit, culprit: Commit, rest: seq<Commit>, tail: seq<Commit>, later: seq<Commit>)
    requires rest == tail + later && 0 < |culprit| && |culprit| + |rest| <= |tip|
    requires forall i :: 0 <= i < |rest| ==> rest[i] == tip[..|culprit| + 1 + i]
    ensures Ascending(tail) && Ascending(tail + later) && AllAbove(tail, culprit) && AllAbove(later, culprit)
  {
    forall i | 0 <= i < |tail| ensures |tail[i]| == |culprit| + 1 + i { assert tail[i] == rest[i]; }
    forall i | 0 <= i < |later| ensures |later[i]| == |culprit| + 1 + |tail| + i { assert later[i] == rest[|tail| + i]; }
  }

  /** The records with the culprit out, before anything is replayed. */
  lemma StartFollowsPlan(r: Repo, base: Commit, snapshot: Commit, k: nat, start: Restacking)
    requires Followable(r, base, snapshot, k)
    requires start == Restacking(start.tip, CulpritOut(r, base, snapshot, k), {}, multiset{})
    ensures Carried(r.branch, r.queue, Between(base, snapshot)[k - 1], map[], start)
  {
    var culprit := Between(base, snapshot)[k - 1];
    assert culprit != [] by { CulpritAt(r, base, snapshot, k); }
    assert FindsOwn(r.branch, r.queue, culprit, Some(k));
    CarryCulprit(r.branch, r.queue, culprit, CulpritRecord(r, base, snapshot, k), start);
  }

  /** The first loop, over the rest of the snapshot. */
  lemma TailFollowsPlan(w: World, r: Repo, base: Commit, snapshot: Commit, k: nat, start: Restacking, culprit: Commit, tail: seq<Commit>)
    requires Followable(r, base, snapshot, k) && tail == Between(base, snapshot)[k..]
    requires Carried(r.branch, r.queue, culprit, map[], start)
    requires AllAbove(tail, culprit) && Ascending(tail)
    ensures var s := ReplayAll(r.branch, w.pick, TablesOf(r), Some(k + 1), start, tail);
            && Carried(r.branch, r.queue, culprit, Restack(w.pick, start.tip, tail).1, s)
            && s.tip == Restack(w.pick, start.tip, tail).0
  {
    TailFinds(r.branch, r.queue, Between(base, snapshot), k, TablesOf(r), Some(k + 1), tail);
    assert [] + tail == tail;
    ReplayCarries(r.branch, w.pick, TablesOf(r), Some(k + 1), start, tail, r.queue, culprit, start.tip, []);
    ReplayTip(r.branch, w.pick, TablesOf(r), Some(k + 1), start, tail, start.tip, []);
  }

  /** With right lookups the loops of a red flush carry out the plan of the restack. */
  lemma RestackFollowsPlan(w: World, r: Repo, base: Commit, snapshot: Commit, k: nat)
    requires Followable(r, base, snapshot, k)
    ensures var (tip, plan) := Restack(w.pick, Below(base, snapshot, k), Survivors(base, snapshot, k, Tip(r)));
            && Restacked(w, r, base, snapshot, k).tip == tip
            && Carried(r.branch, r.queue, Between(base, snapshot)[k - 1], plan, Restacked(w, r, base, snapshot, k))
  {
    var culprit, tail := Between(base, snapshot)[k - 1], Between(base, snapshot)[k..];
    var start := Restacking(Below(base, snapshot, k), CulpritOut(r, base, snapshot, k), {}, multiset{});
    RestackedTip(w, r, base, snapshot, k);
    var later := if Tip(r) == snapshot then [] else Between(snapshot, Tip(r));
    LoopsAscend(r, base, snapshot, k, culprit, tail, later);
    StartFollowsPlan(r, base, snapshot, k, start);
    TailFollowsPlan(w, r, base, snapshot, k, start, culprit, tail);
    if Tip(r) == snapshot {
      assert tail + later == tail;
    } else {
      var s := ReplayAll(r.branch, w.pick, TablesOf(r), Some(k + 1), start, tail);
      LaterFinds(r.branch, r.queue, Tables(TablesOf(r).byCommit, map[]), later);
      ReplayCarries(r.branch, w.pick, Tables(TablesOf(r).byCommit, map[]), None, s, later, r.queue, culprit, start.tip, tail);
    }
  }

  /** With right lookups a red flush does exactly what its plan says: every record follows its own commit, and the ids it
      reports and takes off the train are those whose commits conflicted. */
  lemma EjectFollowsPlan(w: World, r: Repo, base: Commit, snapshot: Commit, k: nat)
    requires Followable(r, base, snapshot, k)
    ensures var (tip, plan) := Restack(w.pick, Below(base, snapshot, k), Survivors(base, snapshot, k, Tip(r)));
            var culprit := Between(base, snapshot)[k - 1];
            && Eject(w, r, base, snapshot, k) == Resettled(r, base, tip, MoveAll(r.branch, culprit, plan, r.queue))
            && (forall id: string :: id in Restacked(w, r, base, snapshot, k).reported <==> HasConflict(r.branch, r.queue, culprit, plan, id))
            && SameMembers(Restacked(w, r, base, snapshot, k).reported, Restacked(w, r, base, snapshot, k).dropped)
  {
    RestackFollowsPlan(w, r, base, snapshot, k);
    var plan := Restack(w.pick, Below(base, snapshot, k), Survivors(base, snapshot, k, Tip(r))).1;
    assert Restacked(w, r, base, snapshot, k).queue == MoveAll(r.branch, Between(base, snapshot)[k - 1], plan, r.queue);
  }
}
