/** When a flush lands, what a halted one leaves behind, and what a staging makes of each record. */
module TrainOutcome {
  import opened Wrappers
  import opened History
  import opened Lifecycle
  import opened TrainSteps
  import opened TrainInvariant
  import opened TrainFlush
  import opened TrainTheorems
  import opened TrainGreen

  // ---- landing -----------------------------------------------------------------------------------------------

  /** Nothing stands in the way of publishing an accepted snapshot: the branch is where it was or checked out somewhere, origin
      can be reached, and the snapshot is a fast-forward of it. */
  predicate WayIsClear(w: World, r: Repo, snapshot: Commit, expected: Option<Commit>, run: nat) {
    !HasMoved(r, expected) && w.network(run) && r.remote <= snapshot
  }

  /** Where the local branch ends once a snapshot has been accepted: at the snapshot, unless somebody moved it or works on it. */
  function Advanced(r: Repo, snapshot: Commit, expected: Option<Commit>): Option<Commit> {
    if r.checkedOut || HasMoved(r, expected) then r.local else Some(snapshot)
  }

  lemma LandingIff(w: World, r: Repo, snapshot: Commit, ids: seq<string>, expected: Option<Commit>, run: nat, rest: Schedule, tally: Tally)
    ensures var f := Finish(w, r, snapshot, ids, expected, run, rest, tally);
            && (f.status == Green <==> WayIsClear(w, r, snapshot, expected, run))
            && f.status != Empty && f.runs == run && f.repo.local == Advanced(r, snapshot, expected)
            && (f.status == Halt ==> f.repo == r.(local := Advanced(r, snapshot, expected)))
  {
  }

  /** The number of validations at which an attempt accepts its snapshot: after the first, or after the retry of a red one in
      which the bisect found no failing prefix. */
  function AcceptedAfter(w: World, base: Commit, snapshot: Commit, runs: nat): Option<nat> {
    if !w.worktree(ForSnapshot, runs) then None
    else if w.exit(runs, snapshot) then Some(runs + 1)
    else
      var (found, total) := Diagnose(w, base, snapshot, runs + 1);
      if found.None? && w.worktree(ForRetry, total) && w.exit(total, snapshot) then Some(total + 1) else None
  }

  /** The fork point of the snapshot when its first validation is over. */
  function BaseOf(r: Repo, schedule: Schedule): Commit
    requires r.staging.Some?
  {
    MergeBase(r.staging.value, Window(r, Next(schedule)).tracking)
  }

  /** How a flush of `snapshot` ends in state `s`, when the snapshot has been accepted after that many validations, or not at all. */
  predicate EndsAs(w: World, s: Repo, snapshot: Commit, expected: Option<Commit>, accepted: Option<nat>, f: Report) {
    && (f.status == Green <==> accepted.Some? && WayIsClear(w, s, snapshot, expected, accepted.value))
    && (f.status == Halt ==> f.repo == if accepted.Some? then s.(local := Advanced(s, snapshot, expected)) else s)
  }

  /** A flush that took its snapshot in state `r` and ends in state `s`. */
  ghost predicate Delivers(w: World, r: Repo, runs: nat, schedule: Schedule, s: Repo, f: Report) {
    if r.staging.None? then f.status == Empty
    else EndsAs(w, s, r.staging.value, r.local, AcceptedAfter(w, BaseOf(r, schedule), r.staging.value, runs), f)
  }

  lemma RetryEnds(w: World, s: Repo, snapshot: Commit, ids: seq<string>, expected: Option<Commit>, runs: nat, rest: Schedule, tally: Tally)
    ensures EndsAs(w, s, snapshot, expected, if w.worktree(ForRetry, runs) && w.exit(runs, snapshot) then Some(runs + 1) else None,
                   Retry(w, s, snapshot, ids, expected, runs, rest, tally))
  {
    LandingIff(w, s, snapshot, ids, expected, runs + 1, rest, tally);
  }

  lemma ExpelEnds(w: World, s: Repo, base: Commit, snapshot: Commit, k: nat, runs: nat, rest: Schedule, tally: Tally)
    requires s.staging.Some? && 1 <= k <= |Between(base, snapshot)|
    ensures var o := Expel(w, s, base, snapshot, k, runs, rest, tally); o.Done? ==> o.report.status == Empty
  {
  }

  lemma RepairEnds(w: World, s: Repo, base: Commit, snapshot: Commit, ids: seq<string>, expected: Option<Commit>, runs: nat,
                   rest: Schedule, tally: Tally)
    requires s.staging.Some? && w.worktree(ForSnapshot, runs) && !w.exit(runs, snapshot)
    ensures var o := Repair(w, s, base, snapshot, ids, expected, runs + 1, rest, tally);
            o.Done? ==> EndsAs(w, s, snapshot, expected, AcceptedAfter(w, base, snapshot, runs), o.report)
  {
    var found, total := Diagnose(w, base, snapshot, runs + 1).0, Diagnose(w, base, snapshot, runs + 1).1;
    match found
    case None => RetryEnds(w, s, snapshot, ids, expected, total, rest, tally);
    case Some(k) => ExpelEnds(w, s, base, snapshot, k, total, rest, tally);
  }

  lemma ValidateDelivers(w: World, r: Repo, runs: nat, schedule: Schedule, tally: Tally, s: Repo)
    requires Chained(r) && r.staging.Some?
    requires s == (if !w.worktree(ForSnapshot, runs) then r
                   else if w.exit(runs, r.staging.value) then Window(r, Next(schedule))
                   else Window(Window(r, Next(schedule)), Next(Later(schedule))))
    ensures var o := Validate(w, r, runs, schedule, tally); o.Done? ==> Delivers(w, r, runs, schedule, s, o.report)
  {
    var snapshot, ids := r.staging.value, Covered(r.branch, r.staging.value, r.queue);
    if w.worktree(ForSnapshot, runs) {
      var u, rest, tally' := Window(r, Next(schedule)), Later(schedule), Elapsed(tally, r, Next(schedule));
      if w.exit(runs, snapshot) {
        LandingIff(w, s, snapshot, ids, r.local, runs + 1, rest, tally');
      } else {
        AfterWindows(r, snapshot, Next(schedule), Next(rest));
        RepairEnds(w, s, BaseOf(r, schedule), snapshot, ids, r.local, runs, Later(rest), Elapsed(tally', u, Next(rest)));
      }
    }
  }

  lemma AttemptDelivers(w: World, r: Repo, runs: nat, schedule: Schedule)
    requires Chained(r)
    ensures var (o, round) := (Attempt(w, r, runs, schedule), RoundOf(w, r, runs, schedule));
            o.Done? ==> Delivers(w, round.taken, runs, Later(schedule), Ending(round), o.report)
  {
    var s, rest := Window(r, Next(schedule)), Later(schedule);
    WindowKeepsChain(r, Next(schedule));
    if s.staging.Some? {
      WindowConcat(s, Next(rest), Next(Later(rest)));
      ValidateDelivers(w, s, runs, rest, Elapsed(NOTHING, r, Next(schedule)), Ending(RoundOf(w, r, runs, schedule)));
    }
  }

  /** The number of validations before the last attempt of a flush, and the windows still to come when it took its snapshot. */
  function LastCall(w: World, r: Repo, runs: nat, schedule: Schedule): (nat, Schedule)
    requires Chained(r)
    decreases Chain(r) + Pending(schedule)
  {
    AttemptKeeps(w, r, runs, schedule);
    match Attempt(w, r, runs, schedule)
    case Done(_) => (runs, Later(schedule))
    case Again(s, runs', rest, _, _) => LastCall(w, s, runs', rest)
  }

  /** A flush is green exactly when the snapshot of its last attempt was accepted, at once or because a red run turned out to be
      a flake, and the way to origin was clear.  A halted flush leaves everything as the windows left it, but for the local
      branch: that has advanced to an accepted snapshot although the push has failed. */
  lemma {:induction false} FlushLandsIff(w: World, r: Repo, runs: nat, schedule: Schedule)
    requires Chained(r)
    ensures var (f, round, call) := (Flush(w, r, runs, schedule), LastRound(w, r, runs, schedule), LastCall(w, r, runs, schedule));
            Delivers(w, round.taken, call.0, call.1, Ending(round), f)
    decreases Chain(r) + Pending(schedule)
  {
    AttemptKeeps(w, r, runs, schedule);
    AttemptDelivers(w, r, runs, schedule);
    match Attempt(w, r, runs, schedule)
    case Done(report) =>
    case Again(s, later, rest, _, _) => FlushLandsIff(w, s, later, rest);
  }

  // ---- staging -----------------------------------------------------------------------------------------------

  /** The record that a command for `id` is about. */
  predicate IsFirst(q: seq<Task>, i: nat, id: string) {
    i < |q| && q[i].id == id && forall j :: 0 <= j < i ==> q[j].id != id
  }

  lemma {:induction false} FindsFirst(q: seq<Task>, i: nat, id: string)
    ensures Find(q, id) == Some(i) <==> IsFirst(q, i, id)
    decreases |q|
  {
    if q != [] && q[0].id != id && i > 0 {
      FindsFirst(q[1..], i - 1, id);
      assert forall j :: 0 < j < i && j < |q| ==> q[j] == q[1..][j - 1];
      assert IsFirst(q[1..], i - 1, id) <==> IsFirst(q, i, id);
    }
  }

  /** A position that is one above the highest of this train, or the first. */
  ghost predicate NextInLine(branch: string, q: seq<Task>, p: nat) {
    && (forall u :: u in q && OnTrain(branch, u) ==> u.train.value.position < p)
    && (p == 1 || exists u :: u in q && OnTrain(branch, u) && u.train.value.position + 1 == p)
  }

  /** The fate of a record when a task is staged. */
  ghost predicate StagedAs(r: Repo, id: string, step: Option<nat>, i: nat, commit: Option<Commit>, t': Task)
    requires i < |r.queue|
  {
    var t := r.queue[i];
    if !IsFirst(r.queue, i, id) || (step.Some? && t.state != InProgress && t.state != AwaitingMerge) then t' == t
    else
      && t'.id == t.id && t'.state == AwaitingMerge && t'.mergeCommit == t.mergeCommit
      && match step
         case None => t'.diagnostics == Some(RebaseConflict) && t'.train == t.train
         case Some(_) =>
           && t'.diagnostics == t.diagnostics && t'.train.Some? && t'.train.value.branch == r.branch
           && commit == Some(t'.train.value.commit) && NextInLine(r.branch, r.queue, t'.train.value.position)
  }

  lemma WhoMayAwait(t: Task)
    ensures MayAwaitMerge(t) <==> t.state == InProgress || t.state == AwaitingMerge
  {
  }

  lemma LastIsNext(branch: string, q: seq<Task>)
    ensures NextInLine(branch, q, LastPosition(branch, q) + 1)
  {
    var p := LastPosition(branch, q);
    forall u | u in q && OnTrain(branch, u) ensures u.train.value.position < p + 1 {
      assert Position(branch, u) <= p;
    }
    if p > 0 {
      var u :| u in q && OnTrain(branch, u) && Position(branch, u) == p;
    }
  }

  /** What a staging does, record by record and ref by ref: a conflict parks the task's record and stages nothing; a squash
      commit goes on top of the train, or of the branch when there is none, and a record that is in progress or awaits its merge
      gets the next position on it; nothing else changes. */
  lemma StageSettlesRecords(r: Repo, id: string, fetched: bool, step: Option<nat>, i: nat)
    requires i < |r.queue|
    ensures var s := Stage(r, id, fetched, step);
            && |s.queue| == |r.queue| && StagedAs(r, id, step, i, s.staging, s.queue[i])
            && s.tracking == (if fetched then r.remote else r.tracking)
            && s.staging == (if step.None? then r.staging
                             else Some((if r.staging.Some? then r.staging.value else s.tracking) + [Local(step.value)]))
            && (s.branch, s.local, s.remote, s.checkedOut, s.sealed) == (r.branch, r.local, r.remote, r.checkedOut, r.sealed)
  {
    FindsFirst(r.queue, i, id);
    WhoMayAwait(r.queue[i]);
    LastIsNext(r.branch, r.queue);
  }

  // ---- which of several records ------------------------------------------------------------------------------

  /** Record `i` names this commit, and no later one does. */
  ghost predicate LastAt(branch: string, q: seq<Task>, commit: Commit, i: nat) {
    && i < |q| && OnTrain(branch, q[i]) && q[i].train.value.commit == commit
    && forall j :: i < j < |q| && OnTrain(branch, q[j]) ==> q[j].train.value.commit != commit
  }

  ghost predicate LastInPosition(branch: string, q: seq<Task>, position: nat, i: nat) {
    && i < |q| && OnTrain(branch, q[i]) && q[i].train.value.position == position
    && forall j :: i < j < |q| && OnTrain(branch, q[j]) ==> q[j].train.value.position != position
  }

  lemma {:induction false} NoLaterThanFound(branch: string, q: seq<Task>, i: nat)
    requires i < |q| && OnTrain(branch, q[i])
    ensures var m := q[i].train.value;
            && m.commit in ByCommit(branch, q) && i <= ByCommit(branch, q)[m.commit]
            && m.position in ByPosition(branch, q) && i <= ByPosition(branch, q)[m.position]
  {
    var n := |q| - 1;
    if i < n {
      NoLaterThanFound(branch, q[..n], i);
    }
  }

  /** The tables of a red round hold, for each commit and for each position, the last record of this train that names it. */
  lemma LastWinsByCommit(branch: string, q: seq<Task>, commit: Commit, i: nat)
    ensures LastAt(branch, q, commit, i) <==> commit in ByCommit(branch, q) && ByCommit(branch, q)[commit] == i
  {
    forall j | 0 <= j < |q| && OnTrain(branch, q[j]) && q[j].train.value.commit == commit
      ensures commit in ByCommit(branch, q) && j <= ByCommit(branch, q)[commit]
    {
      NoLaterThanFound(branch, q, j);
    }
  }

  lemma LastWinsByPosition(branch: string, q: seq<Task>, position: nat, i: nat)
    ensures LastInPosition(branch, q, position, i) <==> position in ByPosition(branch, q) && ByPosition(branch, q)[position] == i
  {
    forall j | 0 <= j < |q| && OnTrain(branch, q[j]) && q[j].train.value.position == position
      ensures position in ByPosition(branch, q) && j <= ByPosition(branch, q)[position]
    {
      NoLaterThanFound(branch, q, j);
    }
  }

  /** The record from which a lost ref is rebuilt: none has a higher position, and none with the same one comes later. */
  ghost predicate LastOfHighest(branch: string, q: seq<Task>, i: nat) {
    && i < |q| && OnTrain(branch, q[i])
    && (forall j :: 0 <= j < |q| && OnTrain(branch, q[j]) ==> Position(branch, q[j]) <= Position(branch, q[i]))
    && (forall j :: i < j < |q| && OnTrain(branch, q[j]) ==> Position(branch, q[j]) < Position(branch, q[i]))
  }

  lemma {:induction false} LatestIsLastOfHighest(branch: string, q: seq<Task>) returns (i: nat)
    requires Latest(branch, q).Some?
    ensures LastOfHighest(branch, q, i) && Latest(branch, q) == Some(q[i])
  {
    var n := |q| - 1;
    var before := Latest(branch, q[..n]);
    if before.Some? {
      i := LatestIsLastOfHighest(branch, q[..n]);
      if OnTrain(branch, q[n]) && Position(branch, before.value) <= Position(branch, q[n]) {
        i := n;
      }
    } else {
      forall j | 0 <= j < n ensures !OnTrain(branch, q[j]) {
        assert q[j] in q[..n];
      }
      i := n;
    }
  }

  lemma CoveredLast(branch: string, snapshot: Commit, q: seq<Task>, init: seq<Task>, t: Task)
    requires q == init + [t]
    ensures Covered(branch, snapshot, q) ==
            Covered(branch, snapshot, init) + (if OnTrain(branch, t) && t.train.value.commit <= snapshot then [t.id] else [])
  {
    assert q[..|q| - 1] == init;
  }

  /** The ids taken with a snapshot are in the order of the board. */
  lemma {:induction false} CoveredKeepsOrder(branch: string, snapshot: Commit, a: seq<Task>, b: seq<Task>, q: seq<Task>)
    requires q == a + b
    ensures Covered(branch, snapshot, q) == Covered(branch, snapshot, a) + Covered(branch, snapshot, b)
    decreases |b|
  {
    if b == [] {
      assert q == a;
    } else {
      var init, t := b[..|b| - 1], b[|b| - 1];
      var front := a + init;
      assert q == front + [t];
      CoveredKeepsOrder(branch, snapshot, a, init, front);
      CoveredLast(branch, snapshot, q, front, t);
      CoveredLast(branch, snapshot, b, init, t);
      Joined(Covered(branch, snapshot, q), Covered(branch, snapshot, front), Covered(branch, snapshot, a), Covered(branch, snapshot, init),
             Covered(branch, snapshot, b), if OnTrain(branch, t) && t.train.value.commit <= snapshot then [t.id] else []);
    }
  }
}
