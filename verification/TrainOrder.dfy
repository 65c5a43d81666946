/**
 One attempt of `flush` while other processes keep order: what it then says about the records, beyond what it always keeps.
 */
module TrainOrder {
  import opened Wrappers
  import opened History
  import opened TrainSteps
  import opened TrainInvariant
  import opened TrainRestack
  import opened TrainReplay
  import opened TrainEject
  import opened TrainCount
  import opened TrainLand
  import opened TrainFlush

  // ---- the ids of a snapshot across windows ------------------------------------------------------------------

  /** The ids of a snapshot name the record with this id exactly when it is staged within the snapshot. */
  ghost predicate Names(r: Repo, snapshot: Commit, ids: seq<string>, id: string) {
    var c := CommitOf(r.branch, r.queue, id);
    id in ids <==> c.Some? && c.value <= snapshot
  }

  lemma CoversById(r: Repo, snapshot: Commit, ids: seq<string>)
    requires DistinctIds(r.queue)
    ensures Covers(r, snapshot, ids) <==> NoRepeats(ids) && forall id: string :: Names(r, snapshot, ids, id)
  {
    forall t | t in r.queue
      ensures Names(r, snapshot, ids, t.id) <==> (t.id in ids <==> OnTrain(r.branch, t) && t.train.value.commit <= snapshot)
    {
      CommitAt(r.branch, r.queue, t);
    }
    if Covers(r, snapshot, ids) {
      forall id: string ensures Names(r, snapshot, ids, id) {
        if Find(r.queue, id).Some? { assert r.queue[Find(r.queue, id).value] in r.queue; }
      }
    }
    if forall id: string :: Names(r, snapshot, ids, id) {
      forall id | id in ids ensures CommitOf(r.branch, r.queue, id).Some? {
        assert Names(r, snapshot, ids, id);
      }
    }
  }

  /** After an orderly window the ids taken with the snapshot still name its records. */
  lemma StillCovers(r: Repo, s: Repo, snapshot: Commit, ids: seq<string>)
    requires DistinctIds(r.queue) && DistinctIds(s.queue) && r.staging == Some(snapshot) && KeepsCrew(r, s)
    requires Covers(r, snapshot, ids)
    ensures Covers(s, snapshot, ids)
  {
    CoversById(r, snapshot, ids);
    forall id: string ensures Names(s, snapshot, ids, id) {
      assert Names(r, snapshot, ids, id);
      assert StaysPut(r, CommitOf(r.branch, r.queue, id), CommitOf(s.branch, s.queue, id));
    }
    CoversById(s, snapshot, ids);
  }

  // ---- orderly attempts --------------------------------------------------------------------------------------

  /** The windows of a flush that has taken its snapshot are orderly. */
  ghost predicate OrderlyValidation(w: World, r: Repo, runs: nat, schedule: Schedule) {
    r.staging.Some? && w.worktree(ForSnapshot, runs) ==>
      && OrderlyWindow(r, Next(schedule))
      && (!w.exit(runs, r.staging.value) ==> OrderlyWindow(Window(r, Next(schedule)), Next(Later(schedule))))
  }

  /** The windows that an attempt opens are orderly. */
  ghost predicate OrderlyAttempt(w: World, r: Repo, runs: nat, schedule: Schedule) {
    OrderlyWindow(r, Next(schedule)) && OrderlyValidation(w, Window(r, Next(schedule)), runs, Later(schedule))
  }

  /** Refs and records agree at every moment of the windows of a validation. */
  ghost predicate AgreesDuring(w: World, r: Repo, runs: nat, schedule: Schedule) {
    r.staging.Some? && w.worktree(ForSnapshot, runs) ==>
      && AgreesThroughout(r, Next(schedule))
      && (!w.exit(runs, r.staging.value) ==> AgreesThroughout(Window(r, Next(schedule)), Next(Later(schedule))))
  }

  /** Refs and records agree at every moment of an attempt's windows. */
  ghost predicate AttemptAgrees(w: World, r: Repo, runs: nat, schedule: Schedule) {
    AgreesThroughout(r, Next(schedule)) && AgreesDuring(w, Window(r, Next(schedule)), runs, Later(schedule))
  }

  /** They do exactly when every event of these windows is orderly. */
  lemma AttemptAgreesIff(w: World, r: Repo, runs: nat, schedule: Schedule)
    requires Inv(r)
    ensures AttemptAgrees(w, r, runs, schedule) <==> OrderlyAttempt(w, r, runs, schedule)
  {
    var s, rest := Window(r, Next(schedule)), Later(schedule);
    WindowKeepsIff(r, Next(schedule));
    if OrderlyWindow(r, Next(schedule)) {
      OrderlyWindowKeeps(r, Next(schedule));
      WindowKeepsIff(s, Next(rest));
      if OrderlyWindow(s, Next(rest)) {
        OrderlyWindowKeeps(s, Next(rest));
        WindowKeepsIff(Window(s, Next(rest)), Next(Later(rest)));
      }
    }
  }

  // ---- what an orderly attempt reports -----------------------------------------------------------------------

  /** Refs and records agree; nobody was withdrawn; the ids returned as flushed are those landed, each once, and nobody was swept along; the ids
      returned as conflicts are those dropped; and there is another attempt only after exactly one culprit. */
  ghost predicate Exact(o: Outcome) {
    && Inv(After(o)) && TallyOf(o).withdrawn == multiset{} && TallyOf(o).landed == Flushed(o) && TallyOf(o).swept == multiset{}
    && SameMembers(Reported(o), TallyOf(o).dropped)
    && (o.Again? ==> |TallyOf(o).culprits| == 1)
  }

  /** Nobody has left the train yet. */
  ghost predicate AllAboard(tally: Tally) {
    tally.withdrawn == tally.landed == tally.swept == tally.culprits == tally.dropped == multiset{}
  }

  lemma ElapsedOrderly(tally: Tally, r: Repo, events: seq<Event>)
    requires AllAboard(tally) && Inv(r) && OrderlyWindow(r, events)
    ensures AllAboard(Elapsed(tally, r, events)) && Inv(Window(r, events)) && KeepsCrew(r, Window(r, events))
  {
    OrderlyWithdrawsNobody(r, events);
    OrderlyWindowKeeps(r, events);
  }

  lemma FinishExact(w: World, r: Repo, base: Commit, snapshot: Commit, ids: seq<string>, expected: Option<Commit>, run: nat,
                    rest: Schedule, tally: Tally)
    requires Inv(r) && OnChain(r, base, snapshot) && Covers(r, snapshot, ids) && AllAboard(tally)
    ensures Exact(Done(Finish(w, r, snapshot, ids, expected, run, rest, tally)))
  {
    var f := Finish(w, r, snapshot, ids, expected, run, rest, tally);
    FinishIs(w, r, snapshot, ids, expected, run, rest, tally);
    if f.status == Green {
      CloseKeepsInvariantIff(w, r, Published(r, snapshot), base, snapshot, ids, f.repo);
      CoveredAreLanded(r, snapshot, ids);
      assert tally.landed + LandedBy(r, snapshot, ids) == LandedBy(r, snapshot, ids);
    } else {
      LocalIsAgreed(r, f.repo.local);
    }
  }

  lemma LocalIsAgreed(r: Repo, local: Option<Commit>)
    requires Inv(r)
    ensures Inv(r.(local := local))
  {
  }

  lemma RetryExact(w: World, r: Repo, base: Commit, snapshot: Commit, ids: seq<string>, expected: Option<Commit>, runs: nat,
                   rest: Schedule, tally: Tally)
    requires Inv(r) && OnChain(r, base, snapshot) && Covers(r, snapshot, ids) && AllAboard(tally)
    ensures Exact(Done(Retry(w, r, snapshot, ids, expected, runs, rest, tally)))
  {
    if w.worktree(ForRetry, runs) && w.exit(runs, snapshot) {
      FinishExact(w, r, base, snapshot, ids, expected, runs + 1, rest, tally);
    }
  }

  /** Where refs and records agree the culprit has a record, and it is the one that is ejected. */
  lemma CulpritIsFound(r: Repo, base: Commit, snapshot: Commit, k: nat)
    requires Inv(r) && OnChain(r, base, snapshot) && 1 <= k <= |Between(base, snapshot)|
    ensures var at := CulpritRecord(r, base, snapshot, k);
            at.Some? && StagedAt(r.branch, r.queue[at.value]) == Between(base, snapshot)[k - 1]
  {
    CulpritAt(r, base, snapshot, k);
    var c := Between(base, snapshot)[k - 1];
    var i := OwnerOf(r.branch, r.queue, Floor(r), Tip(r), |c|);
    CommitIndexed(r.branch, r.queue, c);
  }

  lemma ExpelExact(w: World, r: Repo, base: Commit, snapshot: Commit, k: nat, runs: nat, rest: Schedule, tally: Tally)
    requires Inv(r) && OnChain(r, base, snapshot) && 1 <= k <= |Between(base, snapshot)| && AllAboard(tally)
    ensures Exact(Expel(w, r, base, snapshot, k, runs, rest, tally))
  {
    var o := Expel(w, r, base, snapshot, k, runs, rest, tally);
    assert After(o) == Eject(w, r, base, snapshot, k) && TallyOf(o) == Expelled(w, r, base, snapshot, k, tally);
    AgreementIsFollowable(r, base, snapshot, k);
    EjectKeepsInvariant(w, r, base, snapshot, k);
    EjectFollowsPlan(w, r, base, snapshot, k);
    CulpritIsFound(r, base, snapshot, k);
    var dropped := Restacked(w, r, base, snapshot, k).dropped;
    assert tally.dropped + dropped == dropped;
    assert tally.culprits + Culprits(r, base, snapshot, k) == Culprits(r, base, snapshot, k);
  }

  lemma RepairExact(w: World, r: Repo, base: Commit, snapshot: Commit, ids: seq<string>, expected: Option<Commit>, runs: nat,
                    rest: Schedule, tally: Tally)
    requires Inv(r) && OnChain(r, base, snapshot) && Covers(r, snapshot, ids) && AllAboard(tally)
    ensures Exact(Repair(w, r, base, snapshot, ids, expected, runs, rest, tally))
  {
    var found, total := Diagnose(w, base, snapshot, runs).0, Diagnose(w, base, snapshot, runs).1;
    match found
    case None => RetryExact(w, r, base, snapshot, ids, expected, total, rest, tally);
    case Some(k) => ExpelExact(w, r, base, snapshot, k, total, rest, tally);
  }

  lemma KeepsCrewOn(r: Repo, s: Repo, u: Repo)
    requires KeepsCrew(r, s) && KeepsCrew(s, u) && Chained(r) && r.staging.Some? && KeepsChain(r, s)
    ensures KeepsCrew(r, u)
  {
    KeepsCrewTransitive(r, s, u);
  }

  lemma ValidateExact(w: World, r: Repo, runs: nat, schedule: Schedule, tally: Tally)
    requires Inv(r) && r.staging.Some? && OrderlyValidation(w, r, runs, schedule) && AllAboard(tally)
    ensures Exact(Validate(w, r, runs, schedule, tally))
  {
    var snapshot, ids := r.staging.value, Covered(r.branch, r.staging.value, r.queue);
    if w.worktree(ForSnapshot, runs) {
      var s, rest := Window(r, Next(schedule)), Later(schedule);
      var u, tally', base := Window(s, Next(rest)), Elapsed(tally, r, Next(schedule)), MergeBase(snapshot, s.tracking);
      CoveredIsExact(r, snapshot);
      AfterWindows(r, snapshot, Next(schedule), Next(rest));
      ElapsedOrderly(tally, r, Next(schedule));
      if w.exit(runs, snapshot) {
        StillCovers(r, s, snapshot, ids);
        FinishExact(w, s, base, snapshot, ids, r.local, runs + 1, rest, tally');
      } else {
        ElapsedOrderly(tally', s, Next(rest));
        WindowKeepsChain(r, Next(schedule));
        KeepsCrewOn(r, s, u);
        StillCovers(r, u, snapshot, ids);
        RepairExact(w, u, base, snapshot, ids, r.local, runs + 1, Later(rest), Elapsed(tally', s, Next(rest)));
      }
    }
  }

  /** While others keep order, an attempt leaves refs and records in agreement, and its report says exactly who left. */
  lemma OrderlyAttemptIsExact(w: World, r: Repo, runs: nat, schedule: Schedule)
    requires Inv(r) && OrderlyAttempt(w, r, runs, schedule)
    ensures Exact(Attempt(w, r, runs, schedule))
  {
    var s, rest, tally := Window(r, Next(schedule)), Later(schedule), Elapsed(NOTHING, r, Next(schedule));
    ElapsedOrderly(NOTHING, r, Next(schedule));
    if s.staging.Some? {
      ValidateExact(w, s, runs, rest, tally);
    }
  }
}
