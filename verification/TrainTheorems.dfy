/** The recursion of `flush` and what holds of whole flushes and of whole runs. */
module TrainTheorems {
  import opened Wrappers
  import opened History
  import opened TrainSteps
  import opened TrainInvariant
  import opened TrainRestack
  import opened TrainReplay
  import opened TrainEject
  import opened TrainCount
  import opened TrainFlush
  import opened TrainOrder
  import Bisect

  /** `flush`: attempt after attempt.  What ends it is the number of commits staged or still to be staged. */
  function Flush(w: World, r: Repo, runs: nat, schedule: Schedule): Report
    requires Chained(r)
    decreases Chain(r) + Pending(schedule)
  {
    AttemptKeeps(w, r, runs, schedule);
    match Attempt(w, r, runs, schedule)
    case Done(report) => report
    case Again(s, runs', rest, reported, tally) =>
      var last := Flush(w, s, runs', rest);
      last.(reported := reported + last.reported, tally := Plus(tally, last.tally))
  }

  // ---- conservation ------------------------------------------------------------------------------------------

  lemma BalanceAcross(start: multiset<string>, first: Tally, mid: multiset<string>, second: Tally, now: multiset<string>)
    requires Balanced(start, first, mid) && Balanced(mid, second, now)
    ensures Balanced(start, Plus(first, second), now)
  {
    var t := Plus(first, second);
    forall id: string
      ensures (start + t.arrived)[id] == (t.withdrawn + Settled(t) + t.culprits + t.dropped + now)[id]
    {
      assert (start + first.arrived)[id] == (first.withdrawn + Settled(first) + first.culprits + first.dropped + mid)[id];
      assert (mid + second.arrived)[id] == (second.withdrawn + Settled(second) + second.culprits + second.dropped + now)[id];
    }
  }

  /** What a flush owes the state it began in, whatever others did. */
  ghost predicate Conserves(aboard: multiset<string>, f: Report) {
    && Chained(f.repo) && Balanced(aboard, f.tally, Aboard(f.repo)) && Accounted(f.tally.dropped, f.reported)
    && EndsWell(f)
  }

  /** Whatever other processes do during a flush, the chain is kept, and every task that was aboard or came aboard has been
      landed with a published commit, swept along by a landing that did not publish its commit, ejected as a culprit, dropped
      as a restack conflict and reported, withdrawn by others, or is still aboard: exactly one of the six, once for every
      time it came aboard. */
  lemma {:induction false} FlushConserves(w: World, r: Repo, runs: nat, schedule: Schedule)
    requires Chained(r)
    ensures Conserves(Aboard(r), Flush(w, r, runs, schedule))
    decreases Chain(r) + Pending(schedule)
  {
    AttemptKeeps(w, r, runs, schedule);
    var o := Attempt(w, r, runs, schedule);
    match o
    case Done(report) =>
      assert Flush(w, r, runs, schedule) == report;
    case Again(s, runs', rest, reported, tally) =>
      FlushConserves(w, s, runs', rest);
      var last := Flush(w, s, runs', rest);
      BalanceAcross(Aboard(r), tally, Aboard(s), last.tally, Aboard(last.repo));
  }

  lemma FlushKeepsChain(w: World, r: Repo, runs: nat, schedule: Schedule)
    requires Chained(r)
    ensures Chained(Flush(w, r, runs, schedule).repo)
  {
    FlushConserves(w, r, runs, schedule);
  }

  /** What makes the recursion of `flush` end. */
  lemma AgainIsSmaller(w: World, r: Repo, runs: nat, schedule: Schedule)
    requires Chained(r)
    ensures var o := Attempt(w, r, runs, schedule);
            o.Again? ==> Chained(o.repo) && Chain(o.repo) + Pending(o.rest) < Chain(r) + Pending(schedule)
  {
    AttemptKeeps(w, r, runs, schedule);
  }

  // ---- exactness ---------------------------------------------------------------------------------------------

  /** Every window of the flush is orderly. */
  ghost predicate OrderlyFlush(w: World, r: Repo, runs: nat, schedule: Schedule)
    requires Chained(r)
    decreases Chain(r) + Pending(schedule)
  {
    AttemptKeeps(w, r, runs, schedule);
    && OrderlyAttempt(w, r, runs, schedule)
    && match Attempt(w, r, runs, schedule)
       case Done(_) => true
       case Again(s, runs', rest, _, _) => OrderlyFlush(w, s, runs', rest)
  }

  /** Refs and records agree at every moment of every window of the flush. */
  ghost predicate FlushAgrees(w: World, r: Repo, runs: nat, schedule: Schedule)
    requires Chained(r)
    decreases Chain(r) + Pending(schedule)
  {
    AttemptKeeps(w, r, runs, schedule);
    && AttemptAgrees(w, r, runs, schedule)
    && match Attempt(w, r, runs, schedule)
       case Done(_) => true
       case Again(s, runs', rest, _, _) => FlushAgrees(w, s, runs', rest)
  }

  /** Throughout a flush that starts in agreement, refs and records agree exactly when every event of the other processes
      is orderly: no critical section of the flush itself breaks the agreement. */
  lemma {:induction false} FlushAgreesIff(w: World, r: Repo, runs: nat, schedule: Schedule)
    requires Inv(r)
    ensures FlushAgrees(w, r, runs, schedule) <==> OrderlyFlush(w, r, runs, schedule)
    decreases Chain(r) + Pending(schedule)
  {
    AttemptKeeps(w, r, runs, schedule);
    AttemptAgreesIff(w, r, runs, schedule);
    if OrderlyAttempt(w, r, runs, schedule) {
      OrderlyAttemptIsExact(w, r, runs, schedule);
      match Attempt(w, r, runs, schedule)
      case Done(_) =>
      case Again(s, runs', rest, _, _) => FlushAgreesIff(w, s, runs', rest);
    }
  }

  /** The report says exactly who left the train, and refs and records agree. */
  ghost predicate Truthful(f: Report) {
    && Inv(f.repo) && f.tally.withdrawn == multiset{} && f.tally.landed == multiset(f.flushed) && f.tally.swept == multiset{}
    && SameMembers(f.reported, f.tally.dropped)
  }

  lemma MembersJoin(a: set<string>, m: multiset<string>, b: set<string>, n: multiset<string>)
    requires SameMembers(a, m) && SameMembers(b, n)
    ensures SameMembers(a + b, m + n)
  {
  }

  /** While others keep order, a flush leaves refs and records in agreement; the ids it returns as flushed are those it
      landed, each with a commit that is published now, and the ids it returns as conflicts are those it dropped. */
  lemma {:induction false} OrderlyFlushIsTruthful(w: World, r: Repo, runs: nat, schedule: Schedule)
    requires Inv(r) && OrderlyFlush(w, r, runs, schedule)
    ensures Truthful(Flush(w, r, runs, schedule))
    decreases Chain(r) + Pending(schedule)
  {
    AttemptKeeps(w, r, runs, schedule);
    OrderlyAttemptIsExact(w, r, runs, schedule);
    var o := Attempt(w, r, runs, schedule);
    match o
    case Done(report) =>
      assert Flush(w, r, runs, schedule) == report;
    case Again(s, runs', rest, reported, tally) =>
      OrderlyFlushIsTruthful(w, s, runs', rest);
      var last := Flush(w, s, runs', rest);
      MembersJoin(reported, tally.dropped, last.reported, last.tally.dropped);
      TruthfulAcross(o, last, Flush(w, r, runs, schedule));
  }

  lemma TruthfulAcross(o: Outcome, last: Report, f: Report)
    requires o.Again? && Exact(o) && Truthful(last) && SameMembers(f.reported, f.tally.dropped)
    requires f == last.(reported := f.reported, tally := Plus(o.tally, last.tally))
    ensures Truthful(f)
  {
    assert o.tally.withdrawn + last.tally.withdrawn == multiset{};
    assert o.tally.landed + last.tally.landed == last.tally.landed && o.tally.swept + last.tally.swept == multiset{};
  }

  /** Nobody is aboard a branch without a staging ref. */
  lemma NobodyAboard(r: Repo)
    requires Inv(r) && r.staging.None?
    ensures Aboard(r) == multiset{}
  {
    forall i | 0 <= i < |r.queue| ensures !OnTrain(r.branch, r.queue[i]) {
    }
    EmptyCrew(r.branch, r.queue);
  }

  lemma {:induction false} EmptyCrew(branch: string, q: seq<Task>)
    requires forall i :: 0 <= i < |q| ==> !OnTrain(branch, q[i])
    ensures Crew(branch, q) == multiset{}
  {
    if q != [] {
      EmptyCrew(branch, q[..|q| - 1]);
    }
  }

  /** A flush that reports `empty` while others keep order has flushed nothing and leaves nobody behind: everyone who was
      aboard or came aboard was a culprit or a restack conflict. */
  lemma EmptyFlush(w: World, r: Repo, runs: nat, schedule: Schedule)
    requires Inv(r) && OrderlyFlush(w, r, runs, schedule) && Flush(w, r, runs, schedule).status == Empty
    ensures var f := Flush(w, r, runs, schedule);
            && f.flushed == [] && Aboard(f.repo) == multiset{}
            && Aboard(r) + f.tally.arrived == f.tally.culprits + f.tally.dropped
  {
    var f := Flush(w, r, runs, schedule);
    FlushConserves(w, r, runs, schedule);
    OrderlyFlushIsTruthful(w, r, runs, schedule);
    NobodyAboard(f.repo);
    Vanishing(f.tally.withdrawn, Settled(f.tally), f.tally.culprits, f.tally.dropped, Aboard(f.repo));
  }

  lemma Vanishing(a: multiset<string>, b: multiset<string>, c: multiset<string>, d: multiset<string>, e: multiset<string>)
    requires a == b == e == multiset{}
    ensures a + b + c + d + e == c + d
  {
  }

  // ---- what is published -------------------------------------------------------------------------------------

  /** All that other processes did to origin. */
  ghost predicate OnlyOthersPublished(before: Commit, after: Commit) {
    before <= after && forall i :: |before| <= i < |after| ==> after[i].Foreign?
  }

  ghost predicate MovedByOthers(schedule: Schedule, tip: Option<Commit>) {
    exists i, j :: 0 <= i < |schedule| && 0 <= j < |schedule[i]| && schedule[i][j] == MoveLocal(tip)
  }

  lemma {:induction false} WindowPublishes(r: Repo, events: seq<Event>)
    ensures OnlyOthersPublished(r.remote, Window(r, events).remote)
    ensures Window(r, events).local == r.local || MoveLocal(Window(r, events).local) in events
    decreases |events|
  {
    if events != [] {
      WindowPublishes(Apply(r, events[0]), events[1..]);
    }
  }

  /** One attempt: the state in which it took its snapshot, and the events between then and its second critical section. */
  datatype Round = Round(taken: Repo, events: seq<Event>)

  function RoundOf(w: World, r: Repo, runs: nat, schedule: Schedule): Round {
    var (s, rest) := (Window(r, Next(schedule)), Later(schedule));
    if s.staging.None? || !w.worktree(ForSnapshot, runs) then Round(s, [])
    else if w.exit(runs, s.staging.value) then Round(s, Next(rest))
    else Round(s, Next(rest) + Next(Later(rest)))
  }

  /** The last attempt of a flush. */
  function LastRound(w: World, r: Repo, runs: nat, schedule: Schedule): Round
    requires Chained(r)
    decreases Chain(r) + Pending(schedule)
  {
    AttemptKeeps(w, r, runs, schedule);
    match Attempt(w, r, runs, schedule)
    case Done(_) => RoundOf(w, r, runs, schedule)
    case Again(s, runs', rest, _, _) => LastRound(w, s, runs', rest)
  }

  /** The staging tip that the last attempt of a flush took as its snapshot. */
  function LastSnapshot(w: World, r: Repo, runs: nat, schedule: Schedule): Option<Commit>
    requires Chained(r)
  {
    LastRound(w, r, runs, schedule).taken.staging
  }

  /** The whole of `snapshot` was what the last validation before run `to` accepted. */
  ghost predicate JustPassed(w: World, snapshot: Option<Commit>, from: nat, to: nat) {
    snapshot.Some? && from < to && w.exit(to - 1, snapshot.value)
  }

  /** What the report `f` may have done to the published branch, from a state with this `remote` and `local`, when
      `snapshot` is what it took from the staging ref. */
  ghost predicate PublishesOnlyValidated(w: World, remote: Commit, local: Option<Commit>, runs: nat, schedule: Schedule,
                                         snapshot: Option<Commit>, f: Report) {
    && runs <= f.runs && (f.status == Empty || f.commit == snapshot)
    && (f.status == Green ==>
          JustPassed(w, snapshot, runs, f.runs) && f.repo.remote == f.repo.tracking == snapshot.value)
    && (f.status != Green ==> OnlyOthersPublished(remote, f.repo.remote))
    && (|| f.repo.local == local
        || MovedByOthers(schedule, f.repo.local)
        || (f.repo.local == snapshot && JustPassed(w, snapshot, runs, f.runs)))
  }

  /** The refs that a landing or a failed landing leaves. */
  lemma FinishRefs(w: World, r: Repo, snapshot: Commit, ids: seq<string>, expected: Option<Commit>, run: nat, rest: Schedule, tally: Tally)
    ensures var f := Finish(w, r, snapshot, ids, expected, run, rest, tally);
            && f.status != Empty && f.commit == Some(snapshot) && f.runs == run
            && (f.status == Green ==> f.repo.remote == f.repo.tracking == snapshot)
            && (f.status != Green ==> f.repo.remote == r.remote)
            && (f.repo.local == r.local || f.repo.local == Some(snapshot))
  {
  }

  lemma FinishPublishes(w: World, r: Repo, snapshot: Commit, ids: seq<string>, expected: Option<Commit>, run: nat,
                        rest: Schedule, tally: Tally, from: nat)
    requires from <= run && w.exit(run, snapshot)
    ensures PublishesOnlyValidated(w, r.remote, r.local, from, [], Some(snapshot), Finish(w, r, snapshot, ids, expected, run + 1, rest, tally))
  {
    FinishRefs(w, r, snapshot, ids, expected, run + 1, rest, tally);
  }

  /** Starting a window earlier. */
  lemma PublishesFromBefore(w: World, r: Repo, runs: nat, schedule: Schedule, sub: Schedule, snapshot: Option<Commit>, f: Report)
    requires sub == Later(schedule) || sub == []
    requires PublishesOnlyValidated(w, Window(r, Next(schedule)).remote, Window(r, Next(schedule)).local, runs, sub, snapshot, f)
    ensures PublishesOnlyValidated(w, r.remote, r.local, runs, schedule, snapshot, f)
  {
    var s := Window(r, Next(schedule));
    WindowPublishes(r, Next(schedule));
    if MovedByOthers(sub, f.repo.local) {
      var i, j :| 0 <= i < |sub| && 0 <= j < |sub[i]| && sub[i][j] == MoveLocal(f.repo.local);
      assert schedule[i + 1][j] == MoveLocal(f.repo.local);
      assert MovedByOthers(schedule, f.repo.local);
    }
    if f.repo.local == s.local && s.local != r.local {
      var j :| 0 <= j < |schedule[0]| && schedule[0][j] == MoveLocal(s.local);
      assert MovedByOthers(schedule, s.local);
    }
  }

  lemma RetryPublishes(w: World, r: Repo, snapshot: Commit, ids: seq<string>, expected: Option<Commit>, runs: nat,
                       rest: Schedule, tally: Tally, from: nat)
    requires from <= runs
    ensures PublishesOnlyValidated(w, r.remote, r.local, from, [], Some(snapshot), Retry(w, r, snapshot, ids, expected, runs, rest, tally))
  {
    if w.worktree(ForRetry, runs) && w.exit(runs, snapshot) {
      FinishPublishes(w, r, snapshot, ids, expected, runs, rest, tally, from);
    }
  }

  /** Either the attempt is over and published nothing but its validated snapshot, or it published nothing. */
  ghost predicate AttemptPublishes(w: World, remote: Commit, local: Option<Commit>, runs: nat, schedule: Schedule,
                                   snapshot: Option<Commit>, o: Outcome) {
    match o
    case Done(f) => PublishesOnlyValidated(w, remote, local, runs, schedule, snapshot, f)
    case Again(s, runs', _, _, _) =>
      && runs <= runs' && OnlyOthersPublished(remote, s.remote)
      && (s.local == local || MovedByOthers(schedule, s.local))
  }

  lemma DiagnoseCounts(w: World, base: Commit, snapshot: Commit, runs: nat)
    ensures runs <= Diagnose(w, base, snapshot, runs).1 <= runs + Bisect.BitLength(|Between(base, snapshot)|)
  {
    Bisect.Cost(w.exit, Between(base, snapshot), runs);
  }

  lemma RepairPublishes(w: World, r: Repo, base: Commit, snapshot: Commit, ids: seq<string>, expected: Option<Commit>, runs: nat,
                        rest: Schedule, tally: Tally, from: nat)
    requires r.staging.Some? && from <= runs
    ensures AttemptPublishes(w, r.remote, r.local, from, [], Some(snapshot), Repair(w, r, base, snapshot, ids, expected, runs, rest, tally))
  {
    DiagnoseCounts(w, base, snapshot, runs);
    var found, total := Diagnose(w, base, snapshot, runs).0, Diagnose(w, base, snapshot, runs).1;
    if found.None? {
      RetryPublishes(w, r, snapshot, ids, expected, total, rest, tally, from);
    }
  }

  lemma AttemptPublishesBefore(w: World, r: Repo, runs: nat, schedule: Schedule, sub: Schedule, snapshot: Option<Commit>, o: Outcome)
    requires sub == Later(schedule) || sub == []
    requires AttemptPublishes(w, Window(r, Next(schedule)).remote, Window(r, Next(schedule)).local, runs, sub, snapshot, o)
    ensures AttemptPublishes(w, r.remote, r.local, runs, schedule, snapshot, o)
  {
    match o
    case Done(f) => PublishesFromBefore(w, r, runs, schedule, sub, snapshot, f);
    case Again(s, runs', rest, reported, tally) =>
      // The same argument, for the report of a flush that stops here.
      PublishesFromBefore(w, r, runs, schedule, sub, None, Report(s, runs', rest, Halt, [], None, reported, tally));
  }

  /** A red snapshot, from the state `s` after its validation on. */
  lemma RedPublishes(w: World, s: Repo, base: Commit, snapshot: Commit, ids: seq<string>, expected: Option<Commit>, from: nat,
                     schedule: Schedule, tally: Tally)
    requires Window(s, Next(schedule)).staging.Some?
    ensures AttemptPublishes(w, s.remote, s.local, from, schedule, Some(snapshot),
      Repair(w, Window(s, Next(schedule)), base, snapshot, ids, expected, from + 1, Later(schedule), tally))
  {
    RepairPublishes(w, Window(s, Next(schedule)), base, snapshot, ids, expected, from + 1, Later(schedule), tally, from);
    AttemptPublishesBefore(w, s, from, schedule, [], Some(snapshot),
                           Repair(w, Window(s, Next(schedule)), base, snapshot, ids, expected, from + 1, Later(schedule), tally));
  }

  lemma ValidatePublishes(w: World, r: Repo, runs: nat, schedule: Schedule, tally: Tally)
    requires Chained(r) && r.staging.Some?
    ensures AttemptPublishes(w, r.remote, r.local, runs, schedule, r.staging, Validate(w, r, runs, schedule, tally))
  {
    var snapshot, o := r.staging.value, Validate(w, r, runs, schedule, tally);
    var ids := Covered(r.branch, snapshot, r.queue);
    if w.worktree(ForSnapshot, runs) {
      var s, rest := Window(r, Next(schedule)), Later(schedule);
      var tally' := Elapsed(tally, r, Next(schedule));
      if w.exit(runs, snapshot) {
        FinishPublishes(w, s, snapshot, ids, r.local, runs, rest, tally', runs);
        AttemptPublishesBefore(w, r, runs, schedule, [], r.staging, o);
      } else {
        AfterWindows(r, snapshot, Next(schedule), Next(rest));
        RedPublishes(w, s, MergeBase(snapshot, s.tracking), snapshot, ids, r.local, runs, rest, Elapsed(tally', s, Next(rest)));
        AttemptPublishesBefore(w, r, runs, schedule, rest, r.staging, o);
      }
    }
  }

  lemma AttemptPublishing(w: World, r: Repo, runs: nat, schedule: Schedule)
    requires Chained(r)
    ensures AttemptPublishes(w, r.remote, r.local, runs, schedule, Window(r, Next(schedule)).staging, Attempt(w, r, runs, schedule))
  {
    var s, o := Window(r, Next(schedule)), Attempt(w, r, runs, schedule);
    WindowKeepsChain(r, Next(schedule));
    if s.staging.None? {
      AttemptPublishesBefore(w, r, runs, schedule, [], s.staging, o);
    } else {
      ValidatePublishes(w, s, runs, Later(schedule), Elapsed(NOTHING, r, Next(schedule)));
      AttemptPublishesBefore(w, r, runs, schedule, Later(schedule), s.staging, o);
    }
  }

  lemma RepairAgain(w: World, r: Repo, base: Commit, snapshot: Commit, ids: seq<string>, expected: Option<Commit>, runs: nat,
                    rest: Schedule, tally: Tally)
    requires r.staging.Some?
    ensures var (o, found) := (Repair(w, r, base, snapshot, ids, expected, runs, rest, tally), Diagnose(w, base, snapshot, runs).0);
            o.Again? ==> found.Some? && o.repo == Eject(w, r, base, snapshot, found.value) && o.rest == rest
  {
  }

  lemma ValidateAgain(w: World, r: Repo, runs: nat, schedule: Schedule, tally: Tally) returns (v: Repo, base: Commit, snapshot: Commit, k: nat)
    requires Chained(r) && r.staging.Some? && Validate(w, r, runs, schedule, tally).Again?
    ensures var o := Validate(w, r, runs, schedule, tally);
            && v == Window(Window(r, Next(schedule)), Next(Later(schedule))) && v.staging.Some? && 1 <= k <= |Between(base, snapshot)|
            && o.repo == Eject(w, v, base, snapshot, k) && o.rest == Later(Later(schedule))
  {
    snapshot := r.staging.value;
    var s, rest := Window(r, Next(schedule)), Later(schedule);
    v, base := Window(s, Next(rest)), MergeBase(snapshot, s.tracking);
    AfterWindows(r, snapshot, Next(schedule), Next(rest));
    RepairAgain(w, v, base, snapshot, Covered(r.branch, snapshot, r.queue), r.local, runs + 1, Later(rest),
                Elapsed(Elapsed(tally, r, Next(schedule)), s, Next(rest)));
    k := Diagnose(w, base, snapshot, runs + 1).0.value;
  }

  /** There is another attempt only after an ejection, at the end of the third window. */
  lemma AgainIs(w: World, r: Repo, runs: nat, schedule: Schedule) returns (v: Repo, base: Commit, snapshot: Commit, k: nat)
    requires Chained(r) && Attempt(w, r, runs, schedule).Again?
    ensures var (o, s, rest) := (Attempt(w, r, runs, schedule), Window(r, Next(schedule)), Later(schedule));
            && v == Window(Window(s, Next(rest)), Next(Later(rest))) && v.staging.Some? && 1 <= k <= |Between(base, snapshot)|
            && o.repo == Eject(w, v, base, snapshot, k) && o.rest == Later(Later(rest))
  {
    WindowKeepsChain(r, Next(schedule));
    v, base, snapshot, k := ValidateAgain(w, Window(r, Next(schedule)), runs, Later(schedule), Elapsed(NOTHING, r, Next(schedule)));
  }

  lemma MovedLater(schedule: Schedule, tip: Option<Commit>)
    requires MovedByOthers(Later(schedule), tip)
    ensures MovedByOthers(schedule, tip)
  {
    var i, j :| 0 <= i < |Later(schedule)| && 0 <= j < |Later(schedule)[i]| && Later(schedule)[i][j] == MoveLocal(tip);
    assert schedule[i + 1][j] == MoveLocal(tip);
  }

  lemma PublishesAcross(w: World, r: Repo, runs: nat, schedule: Schedule, snapshot: Option<Commit>, o: Outcome,
                        later: Option<Commit>, last: Report, f: Report)
    requires o.Again? && AttemptPublishes(w, r.remote, r.local, runs, schedule, snapshot, o) && o.rest == Later(Later(Later(schedule)))
    requires PublishesOnlyValidated(w, o.repo.remote, o.repo.local, o.runs, o.rest, later, last)
    requires f.(reported := last.reported, tally := last.tally) == last
    ensures PublishesOnlyValidated(w, r.remote, r.local, runs, schedule, later, f)
  {
    if MovedByOthers(o.rest, f.repo.local) {
      MovedLater(Later(Later(schedule)), f.repo.local);
      MovedLater(Later(schedule), f.repo.local);
      MovedLater(schedule, f.repo.local);
    }
  }

  /** Whatever happens in the windows and whatever the validation does: origin ends either where others left it or, in
      a green flush, on the staging tip that the last attempt took as its snapshot, which the last validation that was run
      accepted as a whole; and the local branch is moved to nothing but such a snapshot. */
  lemma {:induction false} FlushPublishesOnlyValidated(w: World, r: Repo, runs: nat, schedule: Schedule)
    requires Chained(r)
    ensures PublishesOnlyValidated(w, r.remote, r.local, runs, schedule, LastSnapshot(w, r, runs, schedule), Flush(w, r, runs, schedule))
    decreases Chain(r) + Pending(schedule)
  {
    AttemptKeeps(w, r, runs, schedule);
    AttemptPublishing(w, r, runs, schedule);
    var o, snapshot := Attempt(w, r, runs, schedule), Window(r, Next(schedule)).staging;
    match o
    case Done(report) =>
      assert Flush(w, r, runs, schedule) == report;
    case Again(s, runs', rest, _, _) =>
      var _, _, _, _ := AgainIs(w, r, runs, schedule);
      FlushPublishesOnlyValidated(w, s, runs', rest);
      PublishesAcross(w, r, runs, schedule, snapshot, o, LastSnapshot(w, s, runs', rest), Flush(w, s, runs', rest), Flush(w, r, runs, schedule));
  }

  // ---- a branch that moves meanwhile -------------------------------------------------------------------------

  /** The branch is not checked out and is not where the flush first saw it. */
  predicate HasMoved(r: Repo, expected: Option<Commit>) { !r.checkedOut && r.local != expected }

  /** The flush stops with exactly the state that others left. */
  predicate StopsAt(o: Outcome, s: Repo) {
    o.Done? && o.report.status == Halt && o.report.repo == s && o.report.flushed == []
  }

  lemma MovedBranchStopsLanding(w: World, r: Repo, snapshot: Commit, ids: seq<string>, expected: Option<Commit>, run: nat,
                                rest: Schedule, tally: Tally)
    requires HasMoved(r, expected)
    ensures StopsAt(Done(Finish(w, r, snapshot, ids, expected, run, rest, tally)), r)
    ensures StopsAt(Done(Retry(w, r, snapshot, ids, expected, run, rest, tally)), r)
  {
  }

  /** A branch that moved while its snapshot was validated, or while a flake was looked for, stops the flush: it hands back
      exactly the state that the windows left, and does not touch a ref or a record itself.  A red snapshot with a culprit
      is repaired all the same. */
  lemma MovedBranchHalts(w: World, r: Repo, runs: nat, schedule: Schedule, tally: Tally)
    requires Chained(r) && r.staging.Some? && w.worktree(ForSnapshot, runs)
    ensures var (snapshot, o, s) := (r.staging.value, Validate(w, r, runs, schedule, tally), Window(r, Next(schedule)));
            var u := Window(s, Next(Later(schedule)));
            && (w.exit(runs, snapshot) && HasMoved(s, r.local) ==> StopsAt(o, s) && KeepsChain(r, s))
            && (!w.exit(runs, snapshot) && Diagnose(w, MergeBase(snapshot, s.tracking), snapshot, runs + 1).0.None? && HasMoved(u, r.local) ==>
                  StopsAt(o, u) && KeepsChain(s, u))
  {
    var snapshot, s, rest := r.staging.value, Window(r, Next(schedule)), Later(schedule);
    var u, ids, base := Window(s, Next(rest)), Covered(r.branch, snapshot, r.queue), MergeBase(snapshot, s.tracking);
    var tally' := Elapsed(tally, r, Next(schedule));
    WindowKeepsChain(r, Next(schedule));
    WindowKeepsChain(s, Next(rest));
    if HasMoved(s, r.local) {
      MovedBranchStopsLanding(w, s, snapshot, ids, r.local, runs + 1, rest, tally');
    }
    if HasMoved(u, r.local) {
      var total := Diagnose(w, base, snapshot, runs + 1).1;
      MovedBranchStopsLanding(w, u, snapshot, ids, r.local, total, Later(rest), Elapsed(tally', s, Next(rest)));
    }
  }

  // ---- cost --------------------------------------------------------------------------------------------------

  /** Sum over m = 1..n of floor(log2 m) + 2. */
  function Budget(n: nat): nat {
    if n == 0 then 0 else Bisect.BitLength(n) + 1 + Budget(n - 1)
  }

  lemma {:induction false} BudgetMonotone(m: nat, n: nat)
    requires m <= n
    ensures Budget(m) <= Budget(n)
    decreases n
  {
    if m < n {
      BudgetMonotone(m, n - 1);
    }
  }

  /** The validation depends on the commit alone and the machine works. */
  ghost predicate Dependable(w: World) {
    && (forall a: nat, b: nat, c :: w.exit(a, c) == w.exit(b, c))
    && (forall u, n: nat :: w.worktree(u, n))
    && (forall n: nat :: w.network(n))
  }

  /** Nobody else has published since the chain forked off. */
  ghost predicate Undisturbed(r: Repo) {
    r.staging.Some? ==> |r.remote| == Floor(r)
  }

  /** With a dependable validation the bisect of a red snapshot finds a culprit, at its stated cost. */
  lemma DiagnoseFinds(w: World, r: Repo, base: Commit, snapshot: Commit, runs: nat)
    requires OnChain(r, base, snapshot) && r.staging == Some(snapshot) && Dependable(w) && !w.exit(0, snapshot)
    ensures var (found, total) := Diagnose(w, base, snapshot, runs);
            found.Some? && total <= runs + Bisect.BitLength(Chain(r))
  {
    ChainShape(r, base, snapshot, 1);
    var staged := Between(base, snapshot);
    DiagnoseCounts(w, base, snapshot, runs);
    Bisect.Boundary(w.exit, staged, runs);
    assert staged[|staged| - 1] == snapshot by {
      ChainShape(r, base, snapshot, |staged|);
      assert snapshot[..|snapshot|] == snapshot;
    }
  }

  lemma QuietWindow(r: Repo, schedule: Schedule)
    requires schedule == []
    ensures Next(schedule) == [] && Later(schedule) == [] && Window(r, Next(schedule)) == r
  {
  }

  /** The whole chain on its own fork point. */
  lemma OnOwnChain(r: Repo)
    requires Chained(r) && r.staging.Some?
    ensures OnChain(r, MergeBase(r.staging.value, r.tracking), r.staging.value)
  {
    AfterWindows(r, r.staging.value, [], []);
  }

  /** Nobody is in the way of a landing. */
  lemma QuietLanding(w: World, r: Repo, ids: seq<string>, run: nat, tally: Tally)
    requires Chained(r) && r.staging.Some? && Dependable(w) && Undisturbed(r)
    ensures Finish(w, r, r.staging.value, ids, r.local, run, [], tally).status == Green
  {
    assert r.remote <= r.staging.value by {
      assert Forks(Tip(r), r.tracking, Floor(r));
      FetchKeepsFork(r);
    }
  }

  /** A quiet red snapshot loses its culprit. */
  lemma QuietRepair(w: World, r: Repo, ids: seq<string>, runs: nat, tally: Tally)
    requires Chained(r) && r.staging.Some? && Dependable(w) && Undisturbed(r) && !w.exit(0, r.staging.value)
    ensures var o := Repair(w, r, MergeBase(r.staging.value, r.tracking), r.staging.value, ids, r.local, runs, [], tally);
            && Runs(o) <= runs + Bisect.BitLength(Chain(r))
            && (o.Done? ==> o.report.status != Halt) && (o.Again? ==> Undisturbed(o.repo) && o.rest == [])
  {
    var snapshot, base := r.staging.value, MergeBase(r.staging.value, r.tracking);
    OnOwnChain(r);
    DiagnoseFinds(w, r, base, snapshot, runs);
    var k := Diagnose(w, base, snapshot, runs).0.value;
    EjectKeepsChain(w, r, base, snapshot, k);
    assert Eject(w, r, base, snapshot, k).remote == r.remote;
  }

  /** One quiet attempt: it ends green or empty, or costs at most one validation more than its bisect. */
  lemma QuietAttempt(w: World, r: Repo, runs: nat)
    requires Chained(r) && Dependable(w) && Undisturbed(r)
    ensures var o := Attempt(w, r, runs, []);
            && (r.staging.None? ==> o.Done? && o.report.status == Empty && o.report.runs == runs)
            && (r.staging.Some? ==> Runs(o) <= runs + Bisect.BitLength(Chain(r)) + 1)
            && (o.Done? ==> o.report.status != Halt)
            && (o.Again? ==> Undisturbed(o.repo) && o.rest == [])
  {
    QuietWindow(r, []);
    if r.staging.Some? {
      var snapshot, ids := r.staging.value, Covered(r.branch, r.staging.value, r.queue);
      var tally := Elapsed(NOTHING, r, []);
      var tally' := Elapsed(tally, r, []);
      assert Attempt(w, r, runs, []) == Validate(w, r, runs, [], tally);
      assert w.worktree(ForSnapshot, runs);
      if w.exit(runs, snapshot) {
        QuietLanding(w, r, ids, runs + 1, tally');
      } else {
        assert w.exit(0, snapshot) == w.exit(runs, snapshot);
        QuietRepair(w, r, ids, runs + 1, Elapsed(tally', r, []));
      }
    }
  }

  /** `f` ended green or empty, within the budget for a chain of `n` commits. */
  ghost predicate Cheap(f: Report, runs: nat, n: nat) {
    f.runs <= runs + Budget(n) && f.status != Halt
  }

  lemma CheapAgain(f: Report, last: Report, runs: nat, n: nat, runs': nat, m: nat)
    requires m < n && f.runs == last.runs && f.status == last.status
    requires runs' <= runs + Bisect.BitLength(n) + 1 && Cheap(last, runs', m)
    ensures Cheap(f, runs, n)
  {
    BudgetMonotone(m, n - 1);
  }

  /** One step of a quiet flush: it is over, or it goes on from a shorter chain with the same result. */
  lemma QuietStep(w: World, r: Repo, runs: nat) returns (over: bool, s: Repo, runs': nat)
    requires Chained(r) && Dependable(w) && Undisturbed(r)
    ensures over ==> Cheap(Flush(w, r, runs, []), runs, Chain(r))
    ensures !over ==>
      && Chained(s) && Undisturbed(s) && Chain(s) < Chain(r) && runs' <= runs + Bisect.BitLength(Chain(r)) + 1
      && Flush(w, r, runs, []).runs == Flush(w, s, runs', []).runs && Flush(w, r, runs, []).status == Flush(w, s, runs', []).status
  {
    QuietAttempt(w, r, runs);
    AttemptKeeps(w, r, runs, []);
    var o := Attempt(w, r, runs, []);
    over, s, runs' := o.Done?, After(o), Runs(o);
    if over {
      assert Flush(w, r, runs, []) == o.report;
    }
  }

  /** With a dependable validation and nobody interfering, a chain of n commits is flushed green or emptied out within
      the sum over m = 1..n of floor(log2 m) + 2 validations. */
  lemma {:induction false} QuietFlushCost(w: World, r: Repo, runs: nat)
    requires Chained(r) && Dependable(w) && Undisturbed(r)
    ensures Cheap(Flush(w, r, runs, []), runs, Chain(r))
    decreases Chain(r)
  {
    var over, s, runs' := QuietStep(w, r, runs);
    if !over {
      QuietFlushCost(w, s, runs');
      CheapAgain(Flush(w, r, runs, []), Flush(w, s, runs', []), runs, Chain(r), runs', Chain(s));
    }
  }

  // ---- whole runs --------------------------------------------------------------------------------------------

  /** What happens to one branch over time: other processes act, or a flush runs to its end. */
  datatype Command = Act(event: Event) | Run(schedule: Schedule)

  /** The state and the number of validations after one command. */
  function Step(w: World, r: Repo, runs: nat, c: Command): (Repo, nat)
    requires Chained(r)
  {
    match c
    case Act(e) => (Apply(r, e), runs)
    case Run(schedule) => (Flush(w, r, runs, schedule).repo, Flush(w, r, runs, schedule).runs)
  }

  lemma StepKeepsChain(w: World, r: Repo, runs: nat, c: Command)
    requires Chained(r)
    ensures Chained(Step(w, r, runs, c).0)
  {
    match c
    case Act(e) => ApplyKeepsChain(r, e);
    case Run(schedule) => FlushConserves(w, r, runs, schedule);
  }

  function Execute(w: World, r: Repo, runs: nat, commands: seq<Command>): Repo
    requires Chained(r)
    decreases |commands|
  {
    if commands == [] then r
    else
      StepKeepsChain(w, r, runs, commands[0]);
      var (s, runs') := Step(w, r, runs, commands[0]);
      Execute(w, s, runs', commands[1..])
  }

  function StepTally(w: World, r: Repo, runs: nat, c: Command): Tally
    requires Chained(r)
  {
    match c
    case Act(e) => NOTHING.(arrived := Arrival(r, e), withdrawn := Withdrawal(r, e))
    case Run(schedule) => Flush(w, r, runs, schedule).tally
  }

  /** Everybody who came aboard or left over a run. */
  function RunTally(w: World, r: Repo, runs: nat, commands: seq<Command>): Tally
    requires Chained(r)
    decreases |commands|
  {
    if commands == [] then NOTHING
    else
      StepKeepsChain(w, r, runs, commands[0]);
      var (s, runs') := Step(w, r, runs, commands[0]);
      Plus(StepTally(w, r, runs, commands[0]), RunTally(w, s, runs', commands[1..]))
  }

  lemma StepConserves(w: World, r: Repo, runs: nat, c: Command)
    requires Chained(r)
    ensures Balanced(Aboard(r), StepTally(w, r, runs, c), Aboard(Step(w, r, runs, c).0))
  {
    match c
    case Act(e) =>
      ApplyCounts(r, e);
      var t, now := StepTally(w, r, runs, c), Aboard(Apply(r, e));
      Vanishing(Settled(t), t.culprits, t.withdrawn, now, t.dropped);
      assert t.withdrawn + Settled(t) + t.culprits + t.dropped + now == t.withdrawn + now;
    case Run(schedule) => FlushConserves(w, r, runs, schedule);
  }

  /** Over every run, whatever anybody does: the staging ref holds a chain of commits made here on top of what has been
      published, and every coming aboard is matched by one of the six fates: landed, swept along, ejected, dropped, withdrawn, aboard. */
  lemma {:induction false} EveryRun(w: World, r: Repo, runs: nat, commands: seq<Command>)
    requires Chained(r)
    ensures var s := Execute(w, r, runs, commands);
            Chained(s) && Balanced(Aboard(r), RunTally(w, r, runs, commands), Aboard(s))
    decreases |commands|
  {
    if commands != [] {
      StepKeepsChain(w, r, runs, commands[0]);
      StepConserves(w, r, runs, commands[0]);
      var s, runs' := Step(w, r, runs, commands[0]).0, Step(w, r, runs, commands[0]).1;
      EveryRun(w, s, runs', commands[1..]);
      BalanceAcross(Aboard(r), StepTally(w, r, runs, commands[0]), Aboard(s), RunTally(w, s, runs', commands[1..]),
                    Aboard(Execute(w, s, runs', commands[1..])));
    }
  }

  ghost predicate OrderlyStep(w: World, r: Repo, runs: nat, c: Command)
    requires Chained(r)
  {
    match c
    case Act(e) => Orderly(r, e)
    case Run(schedule) => OrderlyFlush(w, r, runs, schedule)
  }

  /** Every event of the run, between and during flushes, is orderly. */
  ghost predicate OrderlyRun(w: World, r: Repo, runs: nat, commands: seq<Command>)
    requires Chained(r)
    decreases |commands|
  {
    if commands == [] then true
    else
      StepKeepsChain(w, r, runs, commands[0]);
      var (s, runs') := Step(w, r, runs, commands[0]);
      OrderlyStep(w, r, runs, commands[0]) && OrderlyRun(w, s, runs', commands[1..])
  }

  /** Refs and records agree at every moment of the run at which other processes may look. */
  ghost predicate RunAgrees(w: World, r: Repo, runs: nat, commands: seq<Command>)
    requires Chained(r)
    decreases |commands|
  {
    Inv(r) &&
    if commands == [] then true
    else
      StepKeepsChain(w, r, runs, commands[0]);
      var (s, runs') := Step(w, r, runs, commands[0]);
      (commands[0].Run? ==> FlushAgrees(w, r, runs, commands[0].schedule)) && RunAgrees(w, s, runs', commands[1..])
  }

  lemma StepAgreesIff(w: World, r: Repo, runs: nat, c: Command)
    requires Inv(r)
    ensures OrderlyStep(w, r, runs, c) ==> Inv(Step(w, r, runs, c).0)
    ensures OrderlyStep(w, r, runs, c) <==>
            (c.Run? ==> FlushAgrees(w, r, runs, c.schedule)) && (c.Act? ==> Inv(Step(w, r, runs, c).0))
  {
    match c
    case Act(e) => ApplyKeepsIff(r, e);
    case Run(schedule) =>
      FlushAgreesIff(w, r, runs, schedule);
      if OrderlyFlush(w, r, runs, schedule) { OrderlyFlushIsTruthful(w, r, runs, schedule); }
  }

  /** A branch that nothing is staged on yet. */
  ghost predicate Fresh(r: Repo) {
    && DistinctIds(r.queue) && r.tracking == r.remote && r.staging.None?
    && forall t :: t in r.queue ==> !OnTrain(r.branch, t)
  }

  /** The commits above the fork point and the records on the train, one for one and in position order. */
  ghost predicate OneToOne(r: Repo) {
    && (forall c :: c in Between(r.tracking, Tip(r)) ==> Owned(r.branch, r.queue, c))
    && (forall t :: t in r.queue && OnTrain(r.branch, t) ==> t.train.value.commit in Between(r.tracking, Tip(r)))
    && (forall t, u :: t in r.queue && u in r.queue && t != u ==> InOrder(r.branch, t, u))
  }

  lemma CommitIsOwned(r: Repo, c: Commit)
    requires Inv(r) && r.staging.Some? && c in Between(r.tracking, Tip(r))
    ensures Owned(r.branch, r.queue, c)
  {
    BetweenIsExact(r.tracking, Tip(r), c);
    assert c == Tip(r)[..|c|];
    var i := OwnerOf(r.branch, r.queue, Floor(r), Tip(r), |c|);
  }

  lemma RecordIsOnChain(r: Repo, t: Task)
    requires Inv(r) && r.staging.Some? && t in r.queue && OnTrain(r.branch, t)
    ensures t.train.value.commit in Between(r.tracking, Tip(r))
  {
    BetweenIsExact(r.tracking, Tip(r), StagedAt(r.branch, t));
    MergeBaseIsDeepestOn(r.tracking, Tip(r), StagedAt(r.branch, t));
  }

  lemma InvIsOneToOne(r: Repo)
    requires Inv(r) && r.staging.Some?
    ensures OneToOne(r)
  {
    forall c | c in Between(r.tracking, Tip(r)) ensures Owned(r.branch, r.queue, c) {
      CommitIsOwned(r, c);
    }
    forall t | t in r.queue && OnTrain(r.branch, t) ensures t.train.value.commit in Between(r.tracking, Tip(r)) {
      RecordIsOnChain(r, t);
    }
    forall t, u | t in r.queue && u in r.queue && t != u ensures InOrder(r.branch, t, u) {
      OrderOf(r.branch, r.queue, Floor(r), Tip(r), t, u);
    }
  }

  lemma MergeBaseIsDeepestOn(a: Commit, b: Commit, c: Commit)
    ensures c <= a && c <= b ==> |c| <= |MergeBase(b, a)|
  {
    if c <= a && c <= b { MergeBaseIsDeepest(b, a, c); }
  }

  /** The record of the tip has the highest position. */
  lemma LatestIsTip(r: Repo, i: nat)
    requires OnTheMap(r) && i < |r.queue| && OnTrain(r.branch, r.queue[i]) && StagedAt(r.branch, r.queue[i]) == Tip(r)
    ensures Latest(r.branch, r.queue) == Some(r.queue[i])
  {
    assert r.queue[i] in r.queue;
    var latest := Latest(r.branch, r.queue).value;
    if latest != r.queue[i] {
      var j :| 0 <= j < |r.queue| && r.queue[j] == latest;
      assert StagedAt(r.branch, latest) <= Tip(r);
      OrderOf(r.branch, r.queue, Floor(r), Tip(r), latest, r.queue[i]);
    }
  }

  /** The staging ref can be rebuilt from the task records exactly when its tip still has a record, even if others below
      it are gone. */
  lemma RebuildRecoversTipIff(r: Repo)
    requires OnTheMap(r)
    ensures Rebuilt(r.branch, r.queue) == r.staging <==> r.staging.None? || Owned(r.branch, r.queue, Tip(r))
  {
    if r.staging.None? {
      forall t | t in r.queue ensures !OnTrain(r.branch, t) {
        var i :| 0 <= i < |r.queue| && r.queue[i] == t;
      }
    } else if Owned(r.branch, r.queue, Tip(r)) {
      var i :| 0 <= i < |r.queue| && OnTrain(r.branch, r.queue[i]) && StagedAt(r.branch, r.queue[i]) == Tip(r);
      LatestIsTip(r, i);
    } else if Latest(r.branch, r.queue).Some? {
      var i :| 0 <= i < |r.queue| && r.queue[i] == Latest(r.branch, r.queue).value;
    }
  }

  /** Where refs and records agree, the records alone determine the staging ref. */
  lemma RebuildRecoversTip(r: Repo)
    requires Inv(r)
    ensures Rebuilt(r.branch, r.queue) == r.staging
  {
    RebuildRecoversTipIff(r);
    if r.staging.Some? {
      var i := OwnerOf(r.branch, r.queue, Floor(r), Tip(r), |Tip(r)|);
      assert Tip(r)[..|Tip(r)|] == Tip(r);
    }
  }

  /** Over every run that starts in agreement, refs and records agree at every moment exactly when every event of the
      other processes is orderly. */
  lemma {:induction false} RunAgreesIff(w: World, r: Repo, runs: nat, commands: seq<Command>)
    requires Inv(r)
    ensures RunAgrees(w, r, runs, commands) <==> OrderlyRun(w, r, runs, commands)
    decreases |commands|
  {
    if commands != [] {
      StepKeepsChain(w, r, runs, commands[0]);
      StepAgreesIff(w, r, runs, commands[0]);
      var s, runs' := Step(w, r, runs, commands[0]).0, Step(w, r, runs, commands[0]).1;
      if Inv(s) { RunAgreesIff(w, s, runs', commands[1..]); }
    }
  }

  /** After every orderly run, markers and staged commits correspond one to one in position order, and the records alone
      determine the staging ref. */
  lemma {:induction false} EveryOrderlyRun(w: World, r: Repo, runs: nat, commands: seq<Command>)
    requires Inv(r) && OrderlyRun(w, r, runs, commands)
    ensures var s := Execute(w, r, runs, commands);
            && Inv(s) && Rebuilt(s.branch, s.queue) == s.staging
            && (s.staging.Some? ==> OneToOne(s))
    decreases |commands|
  {
    if commands == [] {
      RebuildRecoversTip(r);
      if r.staging.Some? { InvIsOneToOne(r); }
    } else {
      StepKeepsChain(w, r, runs, commands[0]);
      StepAgreesIff(w, r, runs, commands[0]);
      var s, runs' := Step(w, r, runs, commands[0]).0, Step(w, r, runs, commands[0]).1;
      EveryOrderlyRun(w, s, runs', commands[1..]);
    }
  }

  lemma FreshIsSound(r: Repo)
    requires Fresh(r)
    ensures Inv(r)
  {
    forall i | 0 <= i < |r.queue|
      ensures !OnTrain(r.branch, r.queue[i])
    {
      assert r.queue[i] in r.queue;
    }
  }
}
