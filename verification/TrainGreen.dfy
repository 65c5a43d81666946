/** What a whole green flush does to the records, and which tasks it returns as flushed without having published them. */
module TrainGreen {
  import opened Wrappers
  import opened History
  import opened Lifecycle
  import opened TrainSteps
  import opened TrainInvariant
  import opened TrainEject
  import opened TrainCount
  import opened TrainDelivery
  import opened TrainFlush
  import opened TrainOrder
  import opened TrainTheorems

  // ---- the round that lands ----------------------------------------------------------------------------------

  /** The state in which the round ends, just before its landing. */
  function Ending(round: Round): Repo { Window(round.taken, round.events) }

  /** A green report lands the snapshot of this round; any other lands nobody. */
  ghost predicate LandsRound(w: World, round: Round, f: Report) {
    if f.status == Green then
      && f.commit.Some? && round.taken.staging == f.commit && Chained(round.taken)
      && f.flushed == Covered(round.taken.branch, f.commit.value, round.taken.queue)
      && f.repo == Close(w, Published(Ending(round), f.commit.value), f.commit.value, f.flushed)
      && f.tally.landed == LandedBy(Ending(round), f.commit.value, f.flushed)
      && f.tally.swept == SweptBy(Ending(round), f.commit.value, f.flushed)
    else f.tally.landed == f.tally.swept == multiset{}
  }

  lemma {:induction false} WindowConcat(r: Repo, a: seq<Event>, b: seq<Event>)
    ensures Window(r, a + b) == Window(Window(r, a), b)
    decreases |a|
  {
    if a == [] {
      assert a + b == b;
    } else {
      assert (a + b)[1..] == a[1..] + b;
      WindowConcat(Apply(r, a[0]), a[1..], b);
    }
  }

  lemma FinishLands(w: World, r: Repo, round: Round, snapshot: Commit, ids: seq<string>, expected: Option<Commit>, run: nat,
                    rest: Schedule, tally: Tally)
    requires Underway(tally) && Chained(round.taken) && round.taken.staging == Some(snapshot) && r == Ending(round)
    requires ids == Covered(round.taken.branch, snapshot, round.taken.queue)
    ensures LandsRound(w, round, Finish(w, r, snapshot, ids, expected, run, rest, tally))
  {
    FinishIs(w, r, snapshot, ids, expected, run, rest, tally);
    FinishRefs(w, r, snapshot, ids, expected, run, rest, tally);
    FromNothing(tally.landed, LandedBy(r, snapshot, ids));
    FromNothing(tally.swept, SweptBy(r, snapshot, ids));
  }

  lemma FromNothing(none: multiset<string>, m: multiset<string>)
    requires none == multiset{}
    ensures none + m == m
  {
  }

  lemma RetryLands(w: World, r: Repo, round: Round, snapshot: Commit, ids: seq<string>, expected: Option<Commit>, runs: nat,
                   rest: Schedule, tally: Tally)
    requires Underway(tally) && Chained(round.taken) && round.taken.staging == Some(snapshot) && r == Ending(round)
    requires ids == Covered(round.taken.branch, snapshot, round.taken.queue)
    ensures LandsRound(w, round, Retry(w, r, snapshot, ids, expected, runs, rest, tally))
  {
    if w.worktree(ForRetry, runs) && w.exit(runs, snapshot) {
      FinishLands(w, r, round, snapshot, ids, expected, runs + 1, rest, tally);
    }
  }

  /** What an outcome lands. */
  ghost predicate LandsOrNot(w: World, round: Round, o: Outcome) {
    match o
    case Done(f) => LandsRound(w, round, f)
    case Again(_, _, _, _, tally) => tally.landed == tally.swept == multiset{}
  }

  lemma RepairLands(w: World, r: Repo, round: Round, base: Commit, snapshot: Commit, ids: seq<string>, expected: Option<Commit>,
                    runs: nat, rest: Schedule, tally: Tally)
    requires Underway(tally) && Chained(round.taken) && round.taken.staging == Some(snapshot) && r == Ending(round)
    requires r.staging.Some? && ids == Covered(round.taken.branch, snapshot, round.taken.queue)
    ensures LandsOrNot(w, round, Repair(w, r, base, snapshot, ids, expected, runs, rest, tally))
  {
    var found, total := Diagnose(w, base, snapshot, runs).0, Diagnose(w, base, snapshot, runs).1;
    if found.None? {
      RetryLands(w, r, round, snapshot, ids, expected, total, rest, tally);
    }
  }

  lemma ElapsedIsUnderway(tally: Tally, r: Repo, events: seq<Event>)
    requires Underway(tally)
    ensures Underway(Elapsed(tally, r, events))
  {
  }

  lemma ValidateLands(w: World, r: Repo, runs: nat, schedule: Schedule, tally: Tally, round: Round)
    requires Chained(r) && r.staging.Some? && Underway(tally)
    requires round == (if !w.worktree(ForSnapshot, runs) then Round(r, [])
                       else if w.exit(runs, r.staging.value) then Round(r, Next(schedule))
                       else Round(r, Next(schedule) + Next(Later(schedule))))
    ensures LandsOrNot(w, round, Validate(w, r, runs, schedule, tally))
  {
    var snapshot, ids := r.staging.value, Covered(r.branch, r.staging.value, r.queue);
    if w.worktree(ForSnapshot, runs) {
      var s, rest, tally' := Window(r, Next(schedule)), Later(schedule), Elapsed(tally, r, Next(schedule));
      ElapsedIsUnderway(tally, r, Next(schedule));
      if w.exit(runs, snapshot) {
        FinishLands(w, s, round, snapshot, ids, r.local, runs + 1, rest, tally');
      } else {
        AfterWindows(r, snapshot, Next(schedule), Next(rest));
        ElapsedIsUnderway(tally', s, Next(rest));
        WindowConcat(r, Next(schedule), Next(rest));
        RepairLands(w, Window(s, Next(rest)), round, MergeBase(snapshot, s.tracking), snapshot, ids, r.local, runs + 1,
                    Later(rest), Elapsed(tally', s, Next(rest)));
      }
    }
  }

  lemma AttemptLands(w: World, r: Repo, runs: nat, schedule: Schedule)
    requires Chained(r)
    ensures LandsOrNot(w, RoundOf(w, r, runs, schedule), Attempt(w, r, runs, schedule))
  {
    var s, tally := Window(r, Next(schedule)), Elapsed(NOTHING, r, Next(schedule));
    WindowKeepsChain(r, Next(schedule));
    ElapsedIsUnderway(NOTHING, r, Next(schedule));
    if s.staging.Some? {
      ValidateLands(w, s, runs, Later(schedule), tally, RoundOf(w, r, runs, schedule));
    }
  }

  /** A green flush is the landing of its last round; a flush that is not green lands nobody. */
  lemma {:induction false} FlushLands(w: World, r: Repo, runs: nat, schedule: Schedule)
    requires Chained(r)
    ensures LandsRound(w, LastRound(w, r, runs, schedule), Flush(w, r, runs, schedule))
    decreases Chain(r) + Pending(schedule)
  {
    AttemptKeeps(w, r, runs, schedule);
    AttemptLands(w, r, runs, schedule);
    match Attempt(w, r, runs, schedule)
    case Done(report) =>
    case Again(s, runs', rest, reported, tally) =>
      FlushLands(w, s, runs', rest);
      var last := Flush(w, s, runs', rest);
      FromNothing(tally.landed, last.tally.landed);
      FromNothing(tally.swept, last.tally.swept);
  }

  /** Every record that is on the board when a green flush lands, whatever others have done: one the flush returns as flushed
      ends off the train with the commit of its own marker as its merge commit, sealed if that commit has been published, it
      awaits its merge and nothing objects; any other record stays exactly as it is. */
  lemma GreenFlushSettles(w: World, r: Repo, runs: nat, schedule: Schedule, t: Task)
    requires Chained(r) && Flush(w, r, runs, schedule).status == Green
    requires t in Ending(LastRound(w, r, runs, schedule)).queue
    ensures var (f, taken) := (Flush(w, r, runs, schedule), LastRound(w, r, runs, schedule).taken);
            && f.commit.Some? && f.commit == taken.staging && f.repo.remote == f.commit.value
            && f.flushed == Covered(taken.branch, f.commit.value, taken.queue)
            && LeftBy(w, f.flushed, f.commit.value, t, Ending(LastRound(w, r, runs, schedule)), f.repo)
  {
    var f, round := Flush(w, r, runs, schedule), LastRound(w, r, runs, schedule);
    FlushLands(w, r, runs, schedule);
    CloseLeaves(w, Published(Ending(round), f.commit.value), f.commit.value, f.flushed, t);
  }

  /** And nothing is on the board or newly sealed after it that was not on the board when it landed. */
  lemma GreenFlushInventsNothing(w: World, r: Repo, runs: nat, schedule: Schedule, t': Task)
    requires Chained(r) && Flush(w, r, runs, schedule).status == Green
    ensures var (f, s) := (Flush(w, r, runs, schedule), Ending(LastRound(w, r, runs, schedule)));
            && f.commit.Some? && s.sealed <= f.repo.sealed
            && (t' in f.repo.queue ==> FoundOpen(f.flushed, f.commit.value, s.queue, t'))
            && (t' in f.repo.sealed[|s.sealed|..] ==> FoundNamed(f.flushed, f.commit.value, s.queue, t'))
  {
    var f, s := Flush(w, r, runs, schedule), Ending(LastRound(w, r, runs, schedule));
    FlushLands(w, r, runs, schedule);
    CloseInventsNothing(w, Published(s, f.commit.value), f.commit.value, f.flushed, t');
  }

  // ---- ids stay distinct -------------------------------------------------------------------------------------

  lemma ApplyKeepsIds(r: Repo, e: Event)
    requires DistinctIds(r.queue)
    ensures DistinctIds(Apply(r, e).queue)
  {
    var q' := Apply(r, e).queue;
    match e
    case Integrate(id, fetched, step) => SameIdsDistinct(r.queue, q');
    case LateMark(id, commit) => SameIdsDistinct(r.queue, q');
    case Move(id, to) =>
      if Terminal(to) && Find(r.queue, id).Some? {
        WithoutDistinct(r.queue, Find(r.queue, id).value);
      } else {
        SameIdsDistinct(r.queue, q');
      }
    case Add(id, state) =>
      if Find(r.queue, id).None? { NewcomerDistinct(r.queue, q'[|r.queue|]); }
    case _ =>
  }

  lemma {:induction false} WindowKeepsIds(r: Repo, events: seq<Event>)
    requires DistinctIds(r.queue)
    ensures DistinctIds(Window(r, events).queue)
    decreases |events|
  {
    if events != [] {
      ApplyKeepsIds(r, events[0]);
      WindowKeepsIds(Apply(r, events[0]), events[1..]);
    }
  }

  ghost predicate SameIdsAs(q: seq<Task>, q': seq<Task>) {
    |q'| == |q| && forall i :: 0 <= i < |q| ==> q'[i].id == q[i].id
  }

  lemma {:induction false} ReplayKeepsIds(branch: string, pick: (Commit, Commit) -> Option<nat>, tables: Tables, first: Option<nat>,
                                          s: Restacking, commits: seq<Commit>)
    requires Within(tables, |s.queue|)
    ensures SameIdsAs(s.queue, ReplayAll(branch, pick, tables, first, s, commits).queue)
    decreases |commits|
  {
    if commits != [] {
      ReplayKeepsIds(branch, pick, tables, first, s, commits[..|commits| - 1]);
      ReplayLast(branch, pick, tables, first, s, commits);
    }
  }

  lemma EjectKeepsIds(w: World, r: Repo, base: Commit, snapshot: Commit, k: nat)
    requires r.staging.Some? && 1 <= k <= |Between(base, snapshot)|
    ensures SameIdsAs(r.queue, Eject(w, r, base, snapshot, k).queue)
  {
    var start := Restacking(Below(base, snapshot, k), CulpritOut(r, base, snapshot, k), {}, multiset{});
    var tail := Between(base, snapshot)[k..];
    var s := ReplayAll(r.branch, w.pick, TablesOf(r), Some(k + 1), start, tail);
    assert SameIdsAs(r.queue, start.queue);
    ReplayKeepsIds(r.branch, w.pick, TablesOf(r), Some(k + 1), start, tail);
    if r.staging.value != snapshot {
      ReplayKeepsIds(r.branch, w.pick, Tables(TablesOf(r).byCommit, map[]), None, s, Between(snapshot, r.staging.value));
    }
  }

  /** The next attempt starts from a board whose ids are still distinct. */
  lemma AgainKeepsIds(w: World, r: Repo, runs: nat, schedule: Schedule)
    requires Chained(r) && DistinctIds(r.queue)
    ensures var o := Attempt(w, r, runs, schedule); o.Again? ==> DistinctIds(o.repo.queue)
  {
    if Attempt(w, r, runs, schedule).Again? {
      var s, rest := Window(r, Next(schedule)), Later(schedule);
      var v, base, snapshot, k := AgainIs(w, r, runs, schedule);
      WindowKeepsIds(r, Next(schedule));
      WindowKeepsIds(s, Next(rest));
      WindowKeepsIds(Window(s, Next(rest)), Next(Later(rest)));
      EjectKeepsIds(w, v, base, snapshot, k);
      SameIdsDistinct(v.queue, Eject(w, v, base, snapshot, k).queue);
    }
  }

  lemma {:induction false} RoundKeepsIds(w: World, r: Repo, runs: nat, schedule: Schedule)
    requires Chained(r) && DistinctIds(r.queue)
    ensures DistinctIds(LastRound(w, r, runs, schedule).taken.queue)
    decreases Chain(r) + Pending(schedule)
  {
    AttemptKeeps(w, r, runs, schedule);
    AgainKeepsIds(w, r, runs, schedule);
    WindowKeepsIds(r, Next(schedule));
    match Attempt(w, r, runs, schedule)
    case Done(_) =>
    case Again(s, runs', rest, _, _) => RoundKeepsIds(w, s, runs', rest);
  }

  // ---- who is flushed without having been published ----------------------------------------------------------

  /** A green flush on a board with distinct ids.  From the snapshot to the landing, the tasks it will return as flushed all
      keep commits within the snapshot exactly when none of them is restaged; it sweeps nobody along exactly when they all
      have such commits in the end; so if none is restaged, everybody it returns as flushed has been published. */
  lemma GreenFlushDeliversIff(w: World, r: Repo, runs: nat, schedule: Schedule)
    requires Chained(r) && DistinctIds(r.queue) && Flush(w, r, runs, schedule).status == Green
    ensures var (f, round) := (Flush(w, r, runs, schedule), LastRound(w, r, runs, schedule));
            && f.commit.Some?
            && (DeliveredThroughout(round.taken, round.events, f.flushed, f.commit.value) <==>
                NobodyRestaged(round.taken, round.events, f.flushed, f.commit.value))
            && (f.tally.swept == multiset{} <==> AllDelivered(Ending(round).queue, f.flushed, f.commit.value))
            && (NobodyRestaged(round.taken, round.events, f.flushed, f.commit.value) ==> f.tally.swept == multiset{})
  {
    var f, round := Flush(w, r, runs, schedule), LastRound(w, r, runs, schedule);
    FlushLands(w, r, runs, schedule);
    RoundKeepsIds(w, r, runs, schedule);
    CoveredIsExact(round.taken, f.commit.value);
    ExactIsDelivered(round.taken, f.commit.value, f.flushed);
    WindowDeliversIff(round.taken, round.events, f.flushed, f.commit.value);
    WindowKeepsOwnMarkers(round.taken, round.events, f.flushed);
    WindowKeepsChain(round.taken, round.events);
    SweepsNobodyIff(Ending(round).branch, Ending(round).queue, f.flushed, f.commit.value);
  }

  /** An orderly window begins with an orderly event. */
  lemma OrderlyCons(r: Repo, events: seq<Event>, s: Repo)
    requires events != [] && s == Apply(r, events[0])
    ensures OrderlyWindow(r, events) <==> Orderly(r, events[0]) && OrderlyWindow(s, events[1..])
    ensures Window(r, events) == Window(s, events[1..])
  {
  }

  lemma {:induction false} OrderlyConcat(r: Repo, a: seq<Event>, b: seq<Event>, whole: seq<Event>, end: Repo)
    requires OrderlyWindow(r, a) && end == Window(r, a) && OrderlyWindow(end, b) && whole == a + b
    ensures OrderlyWindow(r, whole)
    decreases |a|
  {
    if a == [] {
      assert whole == b;
    } else {
      var s := Apply(r, a[0]);
      assert whole[0] == a[0] && whole[1..] == a[1..] + b;
      OrderlyCons(r, a, s);
      OrderlyCons(r, whole, s);
      OrderlyConcat(s, a[1..], b, whole[1..], end);
    }
  }

  lemma {:induction false} OrderlyRound(w: World, r: Repo, runs: nat, schedule: Schedule)
    requires Inv(r) && OrderlyFlush(w, r, runs, schedule)
    ensures var round := LastRound(w, r, runs, schedule); Inv(round.taken) && OrderlyWindow(round.taken, round.events)
    decreases Chain(r) + Pending(schedule)
  {
    AttemptKeeps(w, r, runs, schedule);
    OrderlyAttemptIsExact(w, r, runs, schedule);
    match Attempt(w, r, runs, schedule)
    case Done(_) =>
      var s, rest := Window(r, Next(schedule)), Later(schedule);
      OrderlyWindowKeeps(r, Next(schedule));
      if s.staging.Some? && w.worktree(ForSnapshot, runs) && !w.exit(runs, s.staging.value) {
        OrderlyConcat(s, Next(rest), Next(Later(rest)), Next(rest) + Next(Later(rest)), Window(s, Next(rest)));
      }
    case Again(s, runs', rest, _, _) => OrderlyRound(w, s, runs', rest);
  }

  /** While others keep order, the tasks aboard at the landing that a green flush returns as flushed are exactly those whose
      commits it has published; those staged after the snapshot stay aboard, and their commits are not on origin. */
  lemma OrderlyGreenFlush(w: World, r: Repo, runs: nat, schedule: Schedule, t: Task)
    requires Inv(r) && OrderlyFlush(w, r, runs, schedule) && Flush(w, r, runs, schedule).status == Green
    requires t in Ending(LastRound(w, r, runs, schedule)).queue && OnTrain(r.branch, t)
    ensures var f := Flush(w, r, runs, schedule);
            && (t.id in f.flushed <==> t.train.value.commit <= f.repo.remote)
            && (t.id !in f.flushed ==> t in f.repo.queue)
  {
    var f, round := Flush(w, r, runs, schedule), LastRound(w, r, runs, schedule);
    GreenFlushSettles(w, r, runs, schedule, t);
    FlushLands(w, r, runs, schedule);
    OrderlyRound(w, r, runs, schedule);
    OrderlyWindowKeeps(round.taken, round.events);
    CoveredIsExact(round.taken, f.commit.value);
    StillCovers(round.taken, Ending(round), f.commit.value, f.flushed);
    RoundKeepsBranch(w, r, runs, schedule);
  }

  lemma {:induction false} WindowKeepsBranch(r: Repo, events: seq<Event>)
    ensures Window(r, events).branch == r.branch
    decreases |events|
  {
    if events != [] { WindowKeepsBranch(Apply(r, events[0]), events[1..]); }
  }

  lemma {:induction false} RoundKeepsBranch(w: World, r: Repo, runs: nat, schedule: Schedule)
    requires Chained(r)
    ensures var round := LastRound(w, r, runs, schedule); round.taken.branch == r.branch == Ending(round).branch
    decreases Chain(r) + Pending(schedule)
  {
    AttemptKeeps(w, r, runs, schedule);
    WindowKeepsBranch(r, Next(schedule));
    WindowKeepsBranch(LastRound(w, r, runs, schedule).taken, LastRound(w, r, runs, schedule).events);
    match Attempt(w, r, runs, schedule)
    case Done(_) =>
    case Again(s, runs', rest, _, _) =>
      AgainKeepsBranch(w, r, runs, schedule);
      RoundKeepsBranch(w, s, runs', rest);
  }

  lemma AgainKeepsBranch(w: World, r: Repo, runs: nat, schedule: Schedule)
    requires Chained(r)
    ensures var o := Attempt(w, r, runs, schedule); o.Again? ==> o.repo.branch == r.branch
  {
    if Attempt(w, r, runs, schedule).Again? {
      var s, rest := Window(r, Next(schedule)), Later(schedule);
      var v, base, snapshot, k := AgainIs(w, r, runs, schedule);
      WindowKeepsBranch(r, Next(schedule));
      WindowKeepsBranch(s, Next(rest));
      WindowKeepsBranch(Window(s, Next(rest)), Next(Later(rest)));
    }
  }

  // ---- a task that is flushed without having been published --------------------------------------------------

  /** Task `a` is staged at the one commit of the chain. */
  function OneStaged(): Repo {
    Repo("main", Some([Local(1)]), None, [], [], false, [Staged("a", [Local(1)], 1)], [])
  }

  /** While the snapshot is validated, others take `a` up again and stage it once more. */
  function Restaging(): seq<Event> { [Move("a", InProgress), Integrate("a", false, Some(2))] }

  /** The machine works, and the snapshot passes. */
  ghost predicate Passes(w: World, snapshot: Commit) {
    w.worktree(ForSnapshot, 0) && w.exit(0, snapshot) && w.network(1)
  }

  /** The lifecycle table allows both moves. */
  lemma RestagingIsLegal()
    ensures InProgress in LegalTargets(AwaitingMerge) && AwaitingMerge in LegalTargets(InProgress)
  {
  }

  lemma OneStagedIsSound()
    ensures Inv(OneStaged()) && Chain(OneStaged()) == 1
    ensures Covered("main", [Local(1)], OneStaged().queue) == ["a"]
  {
    var r, q := OneStaged(), OneStaged().queue;
    FreshChain(r);
    LoneRecord("main", q[0], 0, [Local(1)]);
    assert HasOwner("main", q, 1) by { assert OnTrain("main", q[0]); }
    assert q[..0] == [] && Covered("main", [Local(1)], []) == [];
  }

  function RestagedRepo(): Repo {
    OneStaged().(staging := Some([Local(1), Local(2)]), queue := [Staged("a", [Local(1), Local(2)], 2)])
  }

  lemma RestagingIs()
    ensures Window(OneStaged(), Restaging()) == RestagedRepo()
  {
    var r, events := OneStaged(), Restaging();
    var s := Apply(r, events[0]);
    assert s == r.(queue := [Staged("a", [Local(1)], 1).(state := InProgress)]);
    assert LastPosition("main", s.queue) == 1 by {
      assert s.queue[..0] == [] && LastPosition("main", []) == 0;
    }
    assert [Local(1)] + [Local(2)] == [Local(1), Local(2)];
    assert Apply(s, events[1]) == RestagedRepo() by {
      assert Find(s.queue, "a") == Some(0) && MayAwaitMerge(s.queue[0]);
    }
    assert Window(r, events) == Window(s, events[1..]);
    assert Window(s, events[1..]) == Window(Apply(s, events[1]), events[1..][1..]);
    assert events[1..][1..] == [];
  }

  /** The record of `a` after the landing: off the train, with a merge commit that has not been published. */
  function Misflushed(): Task { Task("a", AwaitingMerge, None, None, Some([Local(1), Local(2)])) }

  lemma RestagedLanding(w: World)
    requires w.network(1)
    ensures var (s, landing) := Land(w, RestagedRepo(), [Local(1)], ["a"], None, 1);
            && landing == Landed && s.remote == [Local(1)] && s.staging == Some([Local(1), Local(2)])
            && s.queue == [Misflushed()] && s.sealed == []
  {
    var r, snapshot := Published(RestagedRepo(), [Local(1)]), [Local(1)];
    var credited := CreditAll(["a"], snapshot, r.queue);
    assert credited == [Misflushed()];
    assert !([Local(1), Local(2)] <= snapshot);
    assert !Closes(w, ["a"], snapshot, Misflushed());
    assert [Misflushed()][..0] == [];
    assert Select([Misflushed()], Open(w, ["a"], snapshot)) == [Misflushed()];
    assert Select([Misflushed()], Closing(w, ["a"], snapshot)) == [];
  }

  lemma RestagedFlush(w: World)
    requires Passes(w, [Local(1)])
    ensures var (r, schedule) := (OneStaged(), [[], Restaging()]);
            Chained(r) && Flush(w, r, 0, schedule) ==
              Finish(w, RestagedRepo(), [Local(1)], ["a"], None, 1, [], Elapsed(Elapsed(NOTHING, r, []), r, Restaging()))
  {
    var r, schedule := OneStaged(), [[], Restaging()];
    OneStagedIsSound();
    RestagingIs();
    assert Next(schedule) == [] && Later(schedule) == [Restaging()];
    assert Next([Restaging()]) == Restaging() && Later([Restaging()]) == [];
    assert Window(r, []) == r;
    assert Attempt(w, r, 0, schedule) == Validate(w, r, 0, [Restaging()], Elapsed(NOTHING, r, []));
  }

  lemma RestagedCount()
    ensures LandedBy(RestagedRepo(), [Local(1)], ["a"]) == multiset{} && SweptBy(RestagedRepo(), [Local(1)], ["a"]) == multiset{"a"}
    ensures Crew("main", [Misflushed()]) == multiset{}
  {
    var q := RestagedRepo().queue;
    assert q[..0] == [] && [Misflushed()][..0] == [];
    assert !([Local(1), Local(2)] <= [Local(1)]);
  }

  lemma RestagedReport(w: World)
    requires w.network(1)
    ensures var f := Finish(w, RestagedRepo(), [Local(1)], ["a"], None, 1, [], Elapsed(Elapsed(NOTHING, OneStaged(), []), OneStaged(), Restaging()));
            && f.status == Green && f.flushed == ["a"] && f.tally.landed == multiset{} && f.tally.swept == multiset{"a"}
            && f.repo.remote == [Local(1)] && f.repo.staging == Some([Local(1), Local(2)]) && f.repo.queue == [Misflushed()]
            && f.repo.branch == "main"
  {
    RestagedLanding(w);
    RestagedCount();
  }

  /** From a branch where refs and records agree, by legal moves: a task that is taken up and staged again while its
      snapshot is validated is returned as flushed and leaves the train, credited with its new commit, which origin does not
      have; that commit stays on the staging ref, and nobody is aboard any more to answer for it. */
  lemma RestagedTaskIsFlushed(w: World)
    requires Passes(w, [Local(1)])
    ensures var f := Flush(w, OneStaged(), 0, [[], Restaging()]);
            && f.status == Green && f.flushed == ["a"] && f.tally.landed == multiset{} && f.tally.swept == multiset{"a"}
            && f.repo.remote == [Local(1)] && f.repo.staging == Some([Local(1), Local(2)]) && f.repo.queue == [Misflushed()]
            && !(Misflushed().mergeCommit.value <= f.repo.remote) && Aboard(f.repo) == multiset{}
  {
    OneStagedIsSound();
    RestagedFlush(w);
    RestagedReport(w);
    RestagedCount();
  }
}
