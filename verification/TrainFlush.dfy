/** One attempt of `flush`, with other processes acting in every unlocked window. */
module TrainFlush {
  import opened Wrappers
  import opened History
  import opened TrainSteps
  import opened TrainInvariant
  import opened TrainRestack
  import opened TrainCount
  import opened TrainLand
  import Bisect

  /** The events of successive windows; a schedule that has run out is quiet. */
  type Schedule = seq<seq<Event>>

  function Next(schedule: Schedule): seq<Event> { if schedule == [] then [] else schedule[0] }

  function Later(schedule: Schedule): Schedule { if schedule == [] then [] else schedule[1..] }

  function Pending(schedule: Schedule): nat {
    if schedule == [] then 0 else |schedule[0]| + Pending(schedule[1..])
  }

  datatype Status = Green | Empty | Halt

  /** Everybody who came aboard or left the train: staged or marked by others, sealed by others while aboard, landed with a
      published commit, swept along by a landing that did not publish their commit, ejected as a culprit, dropped as a
      restack conflict. */
  datatype Tally = Tally(
    arrived: multiset<string>,
    withdrawn: multiset<string>,
    landed: multiset<string>,
    swept: multiset<string>,
    culprits: multiset<string>,
    dropped: multiset<string>)

  const NOTHING := Tally(multiset{}, multiset{}, multiset{}, multiset{}, multiset{}, multiset{})

  function Plus(a: Tally, b: Tally): Tally {
    Tally(a.arrived + b.arrived, a.withdrawn + b.withdrawn, a.landed + b.landed, a.swept + b.swept, a.culprits + b.culprits, a.dropped + b.dropped)
  }

  /** Everybody that a landing took off. */
  function Settled(tally: Tally): multiset<string> { tally.landed + tally.swept }

  /** The tally after a landing. */
  function LandedTally(tally: Tally, r: Repo, snapshot: Commit, ids: seq<string>): Tally {
    tally.(landed := tally.landed + LandedBy(r, snapshot, ids), swept := tally.swept + SweptBy(r, snapshot, ids))
  }

  /** The tally after a window. */
  function Elapsed(tally: Tally, r: Repo, events: seq<Event>): Tally {
    tally.(arrived := tally.arrived + Arrivals(r, events), withdrawn := tally.withdrawn + Withdrawals(r, events))
  }

  /** The result of a flush: what it returns to its caller (`reported` are the ids it names as restack conflicts), and the
      tally of what has happened on the way. */
  datatype Report = Report(
    repo: Repo, runs: nat, rest: Schedule,
    status: Status, flushed: seq<string>, commit: Option<Commit>, reported: set<string>, tally: Tally)

  datatype Outcome =
    | Done(report: Report)
    | Again(repo: Repo, runs: nat, rest: Schedule, reported: set<string>, tally: Tally)

  // ---- the snapshot across the windows of one attempt --------------------------------------------------------

  lemma ForkPoint(r: Repo, s: Repo, snapshot: Commit)
    requires Chained(r) && r.staging == Some(snapshot) && Chained(s) && KeepsChain(r, s)
    ensures MergeBase(snapshot, s.tracking) == Tip(s)[..Floor(s)] == snapshot[..Floor(r)]
    ensures OnChain(s, MergeBase(snapshot, s.tracking), snapshot)
  {
    var floor := Floor(r);
    assert Forks(snapshot, s.tracking, floor) by {
      assert Forks(Tip(s), s.tracking, floor);
      assert snapshot == Tip(s)[..|snapshot|];
    }
    ForkFloor(snapshot, s.tracking, floor);
  }

  /** After the windows of validation and bisect, whatever happened in them: the snapshot is still on the chain and the
      fork point has not moved. */
  lemma AfterWindows(r: Repo, snapshot: Commit, during: seq<Event>, after: seq<Event>)
    requires Chained(r) && r.staging == Some(snapshot)
    ensures var s := Window(r, during); var u := Window(s, after);
            var base := MergeBase(snapshot, s.tracking);
            OnChain(s, base, snapshot) && OnChain(u, base, snapshot) && s.branch == u.branch == r.branch
  {
    var s := Window(r, during);
    var u := Window(s, after);
    WindowKeepsChain(r, during);
    WindowKeepsChain(s, after);
    ForkPoint(r, s, snapshot);
    ForkPoint(r, u, snapshot);
  }

  // ---- the attempt -------------------------------------------------------------------------------------------

  function Finish(w: World, r: Repo, snapshot: Commit, ids: seq<string>, expected: Option<Commit>, run: nat,
                  rest: Schedule, tally: Tally): Report
  {
    var (s, landing) := Land(w, r, snapshot, ids, expected, run);
    if landing == Landed
    then Report(s, run, rest, Green, ids, Some(snapshot), {}, LandedTally(tally, r, snapshot, ids))
    else Report(s, run, rest, Halt, [], Some(snapshot), {}, tally)
  }

  function Halted(r: Repo, runs: nat, rest: Schedule, snapshot: Commit, tally: Tally): Report {
    Report(r, runs, rest, Halt, [], Some(snapshot), {}, tally)
  }

  /** The bisect of a red snapshot: the failing index, if one was found, and the number of validations so far. */
  function Diagnose(w: World, base: Commit, snapshot: Commit, runs: nat): (d: (Option<nat>, nat))
    ensures d.0.Some? ==> 1 <= d.0.value <= |Between(base, snapshot)|
  {
    Bisect.SearchBrackets(w.exit, Between(base, snapshot), 1, |Between(base, snapshot)|, None, runs, runs);
    if w.worktree(ForBisect, runs) then Bisect.Find(w.exit, Between(base, snapshot), runs) else (None, runs)
  }

  /** No failing prefix: the red run was a flake if the snapshot passes now. */
  function Retry(w: World, r: Repo, snapshot: Commit, ids: seq<string>, expected: Option<Commit>, runs: nat,
                 rest: Schedule, tally: Tally): Report
  {
    if !w.worktree(ForRetry, runs) then Halted(r, runs, rest, snapshot, tally)
    else if w.exit(runs, snapshot) then Finish(w, r, snapshot, ids, expected, runs + 1, rest, tally)
    else Halted(r, runs + 1, rest, snapshot, tally)
  }

  function Expelled(w: World, r: Repo, base: Commit, snapshot: Commit, k: nat, tally: Tally): Tally
    requires r.staging.Some? && 1 <= k <= |Between(base, snapshot)|
  {
    tally.(culprits := tally.culprits + Culprits(r, base, snapshot, k),
           dropped := tally.dropped + Restacked(w, r, base, snapshot, k).dropped)
  }

  function Expel(w: World, r: Repo, base: Commit, snapshot: Commit, k: nat, runs: nat, rest: Schedule, tally: Tally): Outcome
    requires r.staging.Some? && 1 <= k <= |Between(base, snapshot)|
  {
    var s := Eject(w, r, base, snapshot, k);
    var (reported, tally') := (Restacked(w, r, base, snapshot, k).reported, Expelled(w, r, base, snapshot, k, tally));
    if s.staging.None? then Done(Report(s, runs, rest, Empty, [], None, reported, tally'))
    else Again(s, runs, rest, reported, tally')
  }

  /** From the red snapshot on: retry a flake or expel a culprit. */
  function Repair(w: World, r: Repo, base: Commit, snapshot: Commit, ids: seq<string>, expected: Option<Commit>, runs: nat,
                  rest: Schedule, tally: Tally): Outcome
    requires r.staging.Some?
  {
    var (found, total) := Diagnose(w, base, snapshot, runs);
    match found
    case None => Done(Retry(w, r, snapshot, ids, expected, total, rest, tally))
    case Some(k) => Expel(w, r, base, snapshot, k, total, rest, tally)
  }

  /** A flush that has taken its snapshot of the staging ref, `r.staging`. */
  function Validate(w: World, r: Repo, runs: nat, schedule: Schedule, tally: Tally): Outcome
    requires Chained(r) && r.staging.Some?
  {
    var snapshot := r.staging.value;
    var ids := Covered(r.branch, snapshot, r.queue);
    if !w.worktree(ForSnapshot, runs) then Done(Halted(r, runs, schedule, snapshot, tally))
    else
      var s := Window(r, Next(schedule));
      var (rest, tally') := (Later(schedule), Elapsed(tally, r, Next(schedule)));
      if w.exit(runs, snapshot) then Done(Finish(w, s, snapshot, ids, r.local, runs + 1, rest, tally'))
      else
        AfterWindows(r, snapshot, Next(schedule), Next(rest));
        Repair(w, Window(s, Next(rest)), MergeBase(snapshot, s.tracking), snapshot, ids, r.local, runs + 1,
               Later(rest), Elapsed(tally', s, Next(rest)))
  }

  /** One pass through `flush`.  Three windows open: before the snapshot, while it is validated, while it is bisected. */
  function Attempt(w: World, r: Repo, runs: nat, schedule: Schedule): Outcome
    requires Chained(r)
  {
    var s := Window(r, Next(schedule));
    var (rest, tally) := (Later(schedule), Elapsed(NOTHING, r, Next(schedule)));
    WindowKeepsChain(r, Next(schedule));
    if s.staging.None? then Done(Report(s, runs, rest, Empty, [], None, {}, tally))
    else Validate(w, s, runs, rest, tally)
  }

  function After(o: Outcome): Repo { if o.Done? then o.report.repo else o.repo }
  function Rest(o: Outcome): Schedule { if o.Done? then o.report.rest else o.rest }
  function Runs(o: Outcome): nat { if o.Done? then o.report.runs else o.runs }
  function Reported(o: Outcome): set<string> { if o.Done? then o.report.reported else o.reported }
  function TallyOf(o: Outcome): Tally { if o.Done? then o.report.tally else o.tally }
  function Flushed(o: Outcome): multiset<string> { if o.Done? then multiset(o.report.flushed) else multiset{} }

  // ---- what one attempt keeps, whatever others do ------------------------------------------------------------

  /** Everybody who was aboard at the start or came aboard has left in one of the four ways or is still aboard. */
  ghost predicate Balanced(start: multiset<string>, tally: Tally, now: multiset<string>) {
    start + tally.arrived == tally.withdrawn + Settled(tally) + tally.culprits + tally.dropped + now
  }

  lemma Sums(a: multiset<string>, b: multiset<string>, c: multiset<string>, d: multiset<string>, e: multiset<string>, x: multiset<string>)
    ensures (a + x) + b + c + d + e == a + (b + x) + c + d + e == a + b + c + d + (e + x)
    ensures a + b + (c + x) + d + e == a + b + c + (d + x) + e == a + b + c + d + (e + x)
  {
  }

  lemma BalanceAfterWindow(start: multiset<string>, tally: Tally, r: Repo, events: seq<Event>)
    requires Balanced(start, tally, Aboard(r))
    ensures Balanced(start, Elapsed(tally, r, events), Aboard(Window(r, events)))
  {
    WindowCounts(r, events);
    BalanceMoves(start, tally, Aboard(r), Arrivals(r, events), Withdrawals(r, events), Aboard(Window(r, events)));
  }

  lemma BalanceMoves(start: multiset<string>, tally: Tally, was: multiset<string>, came: multiset<string>, went: multiset<string>, now: multiset<string>)
    requires Balanced(start, tally, was) && now + went == was + came
    ensures Balanced(start, tally.(arrived := tally.arrived + came, withdrawn := tally.withdrawn + went), now)
  {
    var out := Settled(tally) + tally.culprits + tally.dropped;
    Trade(start, tally.arrived, came, tally.withdrawn, went, out, was, now);
    Regroup(tally.withdrawn, Settled(tally), tally.culprits, tally.dropped, was);
    Regroup(tally.withdrawn + went, Settled(tally), tally.culprits, tally.dropped, now);
  }

  lemma Regroup(a: multiset<string>, b: multiset<string>, c: multiset<string>, d: multiset<string>, e: multiset<string>)
    ensures a + b + c + d + e == a + (b + c + d) + e
  {
  }

  lemma Trade(start: multiset<string>, arrived: multiset<string>, came: multiset<string>, withdrawn: multiset<string>, went: multiset<string>,
              out: multiset<string>, was: multiset<string>, now: multiset<string>)
    requires start + arrived == withdrawn + out + was && now + went == was + came
    ensures start + (arrived + came) == (withdrawn + went) + out + now
  {
    assert start + (arrived + came) == (start + arrived) + came;
    assert (withdrawn + out + was) + came == withdrawn + out + (was + came);
    assert withdrawn + out + (now + went) == (withdrawn + went) + out + now;
  }

  ghost predicate Accounted(dropped: multiset<string>, reported: set<string>) {
    forall id: string :: id in dropped ==> id in reported
  }

  /** The attempt itself has not taken anybody off yet. */
  ghost predicate Underway(tally: Tally) {
    tally.landed == tally.swept == tally.culprits == tally.dropped == multiset{}
  }

  /** `empty` means that there is no staging ref, and only a green flush returns ids as flushed. */
  predicate EndsWell(f: Report) {
    (f.status == Empty ==> f.repo.staging.None?) && (f.status != Green ==> f.flushed == [])
  }

  /** What an outcome owes the moment `flush` began, with `start` aboard: the chain, the balance, no more than one culprit,
      nobody dropped without being reported and, when there is to be another attempt, a smaller `budget` of commits staged
      or still to come. */
  ghost predicate Sound(start: multiset<string>, o: Outcome, budget: nat) {
    && Chained(After(o)) && Balanced(start, TallyOf(o), Aboard(After(o)))
    && |TallyOf(o).culprits| <= 1 && Accounted(TallyOf(o).dropped, Reported(o))
    && (o.Done? ==> EndsWell(o.report)) && (o.Again? ==> Chain(o.repo) + Pending(o.rest) < budget)
  }

  /** The state in which a landing credits the records. */
  function Published(r: Repo, snapshot: Commit): Repo {
    r.(remote := snapshot, local := if r.checkedOut then r.local else Some(snapshot))
  }

  /** What `Finish` leaves: the state after a landing, or the same but for the local branch. */
  lemma FinishIs(w: World, r: Repo, snapshot: Commit, ids: seq<string>, expected: Option<Commit>, run: nat, rest: Schedule, tally: Tally)
    ensures var f := Finish(w, r, snapshot, ids, expected, run, rest, tally);
            if f.status == Green
            then f.repo == Close(w, Published(r, snapshot), snapshot, ids) && f.tally == LandedTally(tally, r, snapshot, ids) && f.flushed == ids
            else f.repo == r.(local := f.repo.local) && f.tally == tally && f.flushed == []
  {
  }

  lemma BalanceLanded(start: multiset<string>, tally: Tally, was: multiset<string>, landed: multiset<string>, swept: multiset<string>, now: multiset<string>)
    requires Balanced(start, tally, was) && was == landed + swept + now
    ensures Balanced(start, tally.(landed := tally.landed + landed, swept := tally.swept + swept), now)
  {
    var t := tally.(landed := tally.landed + landed, swept := tally.swept + swept);
    forall id: string ensures (start + t.arrived)[id] == (t.withdrawn + Settled(t) + t.culprits + t.dropped + now)[id] {
      assert (start + tally.arrived)[id] == (tally.withdrawn + Settled(tally) + tally.culprits + tally.dropped + was)[id];
    }
  }

  lemma LocalIsFree(r: Repo, local: Option<Commit>)
    requires Chained(r)
    ensures Chained(r.(local := local)) && Aboard(r.(local := local)) == Aboard(r)
  {
  }

  lemma FinishKeeps(w: World, r: Repo, base: Commit, snapshot: Commit, ids: seq<string>, expected: Option<Commit>, run: nat,
                    rest: Schedule, tally: Tally, start: multiset<string>)
    requires OnChain(r, base, snapshot) && Balanced(start, tally, Aboard(r)) && Underway(tally)
    ensures Sound(start, Done(Finish(w, r, snapshot, ids, expected, run, rest, tally)), 0)
  {
    var f := Finish(w, r, snapshot, ids, expected, run, rest, tally);
    FinishIs(w, r, snapshot, ids, expected, run, rest, tally);
    if f.status == Green {
      CloseKeepsChain(w, r, Published(r, snapshot), base, snapshot, ids, f.repo);
      CloseConserves(w, Published(r, snapshot), snapshot, ids);
      BalanceLanded(start, tally, Aboard(r), LandedBy(r, snapshot, ids), SweptBy(r, snapshot, ids), Aboard(f.repo));
    } else {
      LocalIsFree(r, f.repo.local);
    }
  }

  lemma ExpelKeeps(w: World, r: Repo, base: Commit, snapshot: Commit, k: nat, runs: nat, rest: Schedule, tally: Tally, start: multiset<string>)
    requires OnChain(r, base, snapshot) && 1 <= k <= |Between(base, snapshot)| && Balanced(start, tally, Aboard(r)) && Underway(tally)
    ensures Sound(start, Expel(w, r, base, snapshot, k, runs, rest, tally), Chain(r) + Pending(rest))
  {
    var s, o := Eject(w, r, base, snapshot, k), Expel(w, r, base, snapshot, k, runs, rest, tally);
    assert After(o) == s && TallyOf(o) == Expelled(w, r, base, snapshot, k, tally) && (o.Again? ==> o.rest == rest);
    EjectKeepsChain(w, r, base, snapshot, k);
    EjectConserves(w, r, base, snapshot, k);
    DroppedAreReported(w, r, base, snapshot, k);
    assert tally.culprits + Culprits(r, base, snapshot, k) == Culprits(r, base, snapshot, k);
    BalanceExpelled(start, tally, Aboard(r), Culprits(r, base, snapshot, k), Restacked(w, r, base, snapshot, k).dropped, Aboard(s));
  }

  lemma BalanceExpelled(start: multiset<string>, tally: Tally, was: multiset<string>, culprits: multiset<string>, dropped: multiset<string>, now: multiset<string>)
    requires Balanced(start, tally, was) && was == culprits + dropped + now
    ensures Balanced(start, tally.(culprits := tally.culprits + culprits, dropped := tally.dropped + dropped), now)
  {
    Sums(tally.withdrawn, Settled(tally), tally.culprits, tally.dropped + dropped, now, culprits);
    Sums(tally.withdrawn, Settled(tally), tally.culprits, tally.dropped, now + culprits, dropped);
    assert now + culprits + dropped == was;
  }

  lemma RetryKeeps(w: World, r: Repo, base: Commit, snapshot: Commit, ids: seq<string>, expected: Option<Commit>, runs: nat,
                   rest: Schedule, tally: Tally, start: multiset<string>)
    requires OnChain(r, base, snapshot) && Balanced(start, tally, Aboard(r)) && Underway(tally)
    ensures Sound(start, Done(Retry(w, r, snapshot, ids, expected, runs, rest, tally)), 0)
  {
    if w.worktree(ForRetry, runs) && w.exit(runs, snapshot) {
      FinishKeeps(w, r, base, snapshot, ids, expected, runs + 1, rest, tally, start);
    }
  }

  lemma RepairKeeps(w: World, r: Repo, base: Commit, snapshot: Commit, ids: seq<string>, expected: Option<Commit>, runs: nat,
                    rest: Schedule, tally: Tally, start: multiset<string>)
    requires OnChain(r, base, snapshot) && Balanced(start, tally, Aboard(r)) && Underway(tally)
    ensures Sound(start, Repair(w, r, base, snapshot, ids, expected, runs, rest, tally), Chain(r) + Pending(rest))
  {
    var found, total := Diagnose(w, base, snapshot, runs).0, Diagnose(w, base, snapshot, runs).1;
    match found
    case None => RetryKeeps(w, r, base, snapshot, ids, expected, total, rest, tally, start);
    case Some(k) => ExpelKeeps(w, r, base, snapshot, k, total, rest, tally, start);
  }

  lemma PendingNext(schedule: Schedule)
    ensures Pending(schedule) == |Next(schedule)| + Pending(Later(schedule))
  {
  }

  /** A window costs no more of the budget than it has events. */
  lemma WindowBudget(r: Repo, schedule: Schedule)
    requires Chained(r)
    ensures Chain(Window(r, Next(schedule))) + Pending(Later(schedule)) <= Chain(r) + Pending(schedule)
    ensures Chained(Window(r, Next(schedule)))
  {
    WindowKeepsChain(r, Next(schedule));
    PendingNext(schedule);
  }

  lemma ValidateKeeps(w: World, r: Repo, runs: nat, schedule: Schedule, tally: Tally, start: multiset<string>)
    requires Chained(r) && r.staging.Some? && Balanced(start, tally, Aboard(r)) && Underway(tally)
    ensures Sound(start, Validate(w, r, runs, schedule, tally), Chain(r) + Pending(schedule))
  {
    var snapshot, o := r.staging.value, Validate(w, r, runs, schedule, tally);
    var ids := Covered(r.branch, snapshot, r.queue);
    if w.worktree(ForSnapshot, runs) {
      var s, rest := Window(r, Next(schedule)), Later(schedule);
      var tally', base := Elapsed(tally, r, Next(schedule)), MergeBase(snapshot, s.tracking);
      AfterWindows(r, snapshot, Next(schedule), Next(rest));
      BalanceAfterWindow(start, tally, r, Next(schedule));
      if w.exit(runs, snapshot) {
        FinishKeeps(w, s, base, snapshot, ids, r.local, runs + 1, rest, tally', start);
      } else {
        WindowBudget(r, schedule);
        WindowBudget(s, rest);
        BalanceAfterWindow(start, tally', s, Next(rest));
        RepairKeeps(w, Window(s, Next(rest)), base, snapshot, ids, r.local, runs + 1, Later(rest), Elapsed(tally', s, Next(rest)), start);
      }
    }
  }

  /** One attempt, whatever others do: the chain and the balance are kept; going round again costs at least one staged
      commit that no newly staged one replaces. */
  lemma AttemptKeeps(w: World, r: Repo, runs: nat, schedule: Schedule)
    requires Chained(r)
    ensures Sound(Aboard(r), Attempt(w, r, runs, schedule), Chain(r) + Pending(schedule))
  {
    var s, rest, tally := Window(r, Next(schedule)), Later(schedule), Elapsed(NOTHING, r, Next(schedule));
    WindowBudget(r, schedule);
    assert Balanced(Aboard(r), NOTHING, Aboard(r));
    BalanceAfterWindow(Aboard(r), NOTHING, r, Next(schedule));
    if s.staging.Some? {
      ValidateKeeps(w, s, runs, rest, tally, Aboard(r));
    }
  }
}
