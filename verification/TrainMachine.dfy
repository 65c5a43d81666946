/**
 The merge train as the program runs it: one object per branch whose refs and records are updated in place.  Each method
 is proved against the critical section it implements; what holds of those is proved in the other train modules.
 */
module TrainMachine {
  import opened Wrappers
  import opened History
  import opened Lifecycle
  import opened TrainSteps
  import opened TrainInvariant
  import opened TrainCount
  import opened TrainFlush
  import TrainTheorems
  import Bisect

  lemma LastPositionSnoc(branch: string, q: seq<Task>, i: nat)
    requires i < |q|
    ensures LastPosition(branch, q[..i + 1]) ==
              if Position(branch, q[i]) > LastPosition(branch, q[..i]) then Position(branch, q[i]) else LastPosition(branch, q[..i])
  {
    assert q[..i + 1][..i] == q[..i];
  }

  lemma ReplaySnoc(branch: string, pick: (Commit, Commit) -> Option<nat>, tables: Tables, first: Option<nat>, s: Restacking,
                   commits: seq<Commit>, i: nat)
    requires Within(tables, |s.queue|) && i < |commits|
    ensures ReplayAll(branch, pick, tables, first, s, commits[..i + 1]) ==
            ReplayOne(branch, pick, tables, FallBack(first, i), ReplayAll(branch, pick, tables, first, s, commits[..i]), commits[i])
  {
    assert commits[..i + 1][..i] == commits[..i];
    ReplayLast(branch, pick, tables, first, s, commits[..i + 1]);
  }

  lemma SelectSnoc(q: seq<Task>, i: nat, keep: Task -> bool)
    requires i < |q|
    ensures Select(q[..i + 1], keep) == Select(q[..i], keep) + (if keep(q[i]) then [q[i]] else [])
  {
    assert q[..i + 1][..i] == q[..i];
  }

  /** How a red snapshot goes on. */
  lemma RedGoesOn(w: World, r: Repo, runs: nat, schedule: Schedule, tally: Tally,
                  s: Repo, u: Repo, base: Commit, rest: Schedule, total: Tally)
    requires Chained(r) && r.staging.Some? && w.worktree(ForSnapshot, runs) && !w.exit(runs, r.staging.value)
    requires s == Window(r, Next(schedule)) && u == Window(s, Next(Later(schedule)))
    requires base == MergeBase(r.staging.value, s.tracking) && rest == Later(Later(schedule))
    requires total == Elapsed(Elapsed(tally, r, Next(schedule)), s, Next(Later(schedule)))
    ensures u.staging.Some?
    ensures TrainFlush.Validate(w, r, runs, schedule, tally) ==
      TrainFlush.Repair(w, u, base, r.staging.value, Covered(r.branch, r.staging.value, r.queue), r.local, runs + 1, rest, total)
  {
    AfterWindows(r, r.staging.value, Next(schedule), Next(Later(schedule)));
  }

  /** What `flush` returns to its caller. */
  datatype FlushResult = FlushResult(status: Status, flushed: seq<string>, commit: Option<Commit>, conflicts: set<string>)

  class MergeTrain {
    const branch: string
    var staging: Option<Commit>
    var local: Option<Commit>
    var tracking: Commit
    var remote: Commit
    var checkedOut: bool
    var queue: seq<Task>
    var sealed: seq<Task>
    var runs: nat

    /** The state as one value. */
    ghost function View(): Repo
      reads this
    {
      Repo(branch, staging, local, tracking, remote, checkedOut, queue, sealed)
    }

    ghost predicate Valid()
      reads this
    {
      Chained(View())
    }

    /** A branch with nothing staged. */
    constructor (branch: string, tip: Commit, queue: seq<Task>)
      requires DistinctIds(queue) && forall t :: t in queue ==> !OnTrain(branch, t)
      ensures Valid() && Inv(View()) && Chain(View()) == 0 && this.queue == queue && remote == tip && runs == 0
    {
      this.branch := branch;
      staging, local, tracking, remote, checkedOut := None, Some(tip), tip, tip, false;
      this.queue, sealed, runs := queue, [], 0;
      new;
      TrainTheorems.FreshIsSound(View());
    }

    // ---- integrate -------------------------------------------------------------------------------------------

    method IndexOf(id: string) returns (at: Option<nat>)
      ensures at == Find(queue, id)
    {
      var i := 0;
      while i < |queue| && queue[i].id != id
        invariant i <= |queue|
        invariant Find(queue, id) == match Find(queue[i..], id) case None => None case Some(j) => Some(i + j)
      {
        i := i + 1;
      }
      at := if i < |queue| then Some(i) else None;
    }

    method NextPosition() returns (position: nat)
      ensures position == LastPosition(branch, queue) + 1
    {
      var last := 0;
      for i := 0 to |queue|
        invariant last == LastPosition(branch, queue[..i])
      {
        LastPositionSnoc(branch, queue, i);
        if OnTrain(branch, queue[i]) && queue[i].train.value.position > last {
          last := queue[i].train.value.position;
        }
      }
      assert queue[..|queue|] == queue;
      position := last + 1;
    }

    /** A rebase conflict parks the task. */
    method Park(id: string)
      modifies this`queue
      ensures queue == Parked(old(queue), id)
    {
      var at := IndexOf(id);
      if at.Some? {
        queue := queue[at.value := queue[at.value].(state := AwaitingMerge, diagnostics := Some(RebaseConflict))];
      }
    }

    /** Write the marker for a commit that has just been staged, unless the state refuses. */
    method Mark(id: string, commit: Commit)
      modifies this`queue
      ensures queue == Marked(branch, old(queue), id, commit)
    {
      var at := IndexOf(id);
      if at.Some? && MayAwaitMerge(queue[at.value]) {
        var position := NextPosition();
        queue := queue[at.value := queue[at.value].(state := AwaitingMerge, train := Some(Marker(branch, commit, position)))];
      }
    }

    /** Stage one task: fetch, rebase onto the train tip, advance the ref, write the marker. */
    method Integrate(id: string, fetched: bool, step: Option<nat>)
      modifies this`tracking, this`staging, this`queue
      ensures View() == Stage(old(View()), id, fetched, step)
    {
      if fetched {
        tracking := remote;
      }
      var target := if staging.Some? then staging.value else tracking;
      match step {
        case None =>
          Park(id);
        case Some(n) =>
          staging := Some(target + [Local(n)]);
          Mark(id, target + [Local(n)]);
      }
    }

    /** Another process moves a record; a terminal transition seals it. */
    method MoveRecord(id: string, to: State)
      modifies this`queue, this`sealed
      ensures View() == MoveTask(old(View()), id, to)
    {
      var at := IndexOf(id);
      if at.Some? {
        var t := queue[at.value].(state := to);
        if Terminal(to) {
          queue, sealed := Without(queue, at.value), sealed + [t];
        } else {
          queue := queue[at.value := t];
        }
      }
    }

    /** One step of another process. */
    method Suffer(e: Event)
      modifies this
      ensures View() == Apply(old(View()), e) && runs == old(runs)
    {
      match e {
        case Integrate(id, fetched, step) => Integrate(id, fetched, step);
        case LateMark(id, commit) => Mark(id, commit);
        case Move(id, to) => MoveRecord(id, to);
        case Add(id, state) =>
          var at := IndexOf(id);
          if at.None? {
            queue := queue + [Task(id, state, None, None, None)];
          }
        case MoveLocal(tip) => local := tip;
        case Publish(ids) => remote := remote + Foreigners(ids);
        case Checkout(on) => checkedOut := on;
      }
    }

    /** The other processes, in one window. */
    method Interfere(events: seq<Event>)
      modifies this
      ensures View() == Window(old(View()), events) && runs == old(runs)
    {
      var i := 0;
      while i < |events|
        invariant i <= |events|
        invariant Window(old(View()), events) == Window(View(), events[i..]) && runs == old(runs)
      {
        assert events[i..][1..] == events[i + 1..];
        Suffer(events[i]);
        i := i + 1;
      }
    }

    // ---- flush: eject ----------------------------------------------------------------------------------------

    method IndexRecords() returns (byCommit: map<Commit, nat>, byPosition: map<nat, nat>)
      ensures byCommit == ByCommit(branch, queue) && byPosition == ByPosition(branch, queue)
    {
      byCommit, byPosition := map[], map[];
      for i := 0 to |queue|
        invariant byCommit == ByCommit(branch, queue[..i]) && byPosition == ByPosition(branch, queue[..i])
      {
        assert queue[..i + 1][..i] == queue[..i];
        if OnTrain(branch, queue[i]) {
          byCommit := byCommit[queue[i].train.value.commit := i];
          byPosition := byPosition[queue[i].train.value.position := i];
        }
      }
      assert queue[..|queue|] == queue;
    }

    /** Cherry-pick `commits` in order on top of what has been replayed already; a record follows its commit or leaves the
        train.  `first` is the position to fall back on for the first commit. */
    method Replay(w: World, byCommit: map<Commit, nat>, byPosition: map<nat, nat>, first: Option<nat>, commits: seq<Commit>,
                  from: Commit, before: set<string>, ghost was: multiset<string>)
      returns (tip: Commit, conflicts: set<string>, ghost dropped: multiset<string>)
      requires Within(Tables(byCommit, byPosition), |queue|)
      modifies this`queue
      ensures Restacking(tip, queue, conflicts, dropped) ==
              ReplayAll(branch, w.pick, Tables(byCommit, byPosition), first, Restacking(from, old(queue), before, was), commits)
    {
      tip, conflicts, dropped := from, before, was;
      ghost var tables, start := Tables(byCommit, byPosition), Restacking(from, queue, before, was);
      for i := 0 to |commits|
        invariant |queue| == |start.queue|
        invariant Restacking(tip, queue, conflicts, dropped) == ReplayAll(branch, w.pick, tables, first, start, commits[..i])
      {
        var c, q := commits[i], queue;
        ReplaySnoc(branch, w.pick, tables, first, start, commits, i);
        var at := Lookup(byCommit, byPosition, c, FallBack(first, i));
        match w.pick(tip, c) {
          case Some(n) =>
            tip := tip + [Local(n)];
            if at.Some? && q[at.value].train.Some? {
              queue := q[at.value := q[at.value].(train := Some(q[at.value].train.value.(commit := tip)))];
            }
          case None =>
            if at.Some? {
              queue := q[at.value := Ejected(q[at.value], RestackConflict)];
              conflicts := conflicts + {q[at.value].id};
              dropped := dropped + (if OnTrain(branch, q[at.value]) then multiset{q[at.value].id} else multiset{});
            }
        }
      }
      assert commits[..|commits|] == commits;
    }

    /** Positions along `base..tip`. */
    method Renumber(base: Commit, tip: Commit)
      modifies this`queue
      ensures queue == RenumberAll(branch, base, tip, old(queue))
    {
      var order := map c | c in Between(base, tip) :: |c| - |MergeBase(base, tip)|;
      for i := 0 to |queue|
        invariant |queue| == old(|queue|)
        invariant forall j :: 0 <= j < i ==> queue[j] == Renumbered(branch, base, tip, old(queue)[j])
        invariant forall j :: i <= j < |queue| ==> queue[j] == old(queue)[j]
      {
        var t := queue[i];
        if OnTrain(branch, t) && t.train.value.commit in order {
          queue := queue[i := t.(train := Some(t.train.value.(position := order[t.train.value.commit])))];
        }
      }
    }

    /** Take the culprit off the train; replay its successors and what was staged since the snapshot. */
    method RestackSurvivors(w: World, base: Commit, snapshot: Commit, k: nat)
      returns (tip: Commit, conflicts: set<string>, ghost dropped: multiset<string>)
      requires staging.Some? && 1 <= k <= |Between(base, snapshot)|
      modifies this`queue
      ensures Restacking(tip, queue, conflicts, dropped) == Restacked(w, old(View()), base, snapshot, k)
    {
      ghost var r := View();
      var staged := Between(base, snapshot);
      var byCommit, byPosition := IndexRecords();
      assert Tables(byCommit, byPosition) == TablesOf(r);
      var out := Lookup(byCommit, byPosition, staged[k - 1], Some(k));
      if out.Some? {
        queue := queue[out.value := Ejected(queue[out.value], BatchValidation)];
      }
      var start := if k > 1 then staged[k - 2] else base;
      tip, conflicts, dropped := Replay(w, byCommit, byPosition, Some(k + 1), staged[k..], start, {}, multiset{});
      if staging.value != snapshot {
        tip, conflicts, dropped := Replay(w, byCommit, map[], None, Between(snapshot, staging.value), tip, conflicts, dropped);
      }
    }

    /** A red flush: restack without the culprit, renumber, move the ref or drop it. */
    method Eject(w: World, base: Commit, snapshot: Commit, k: nat) returns (conflicts: set<string>)
      requires staging.Some? && 1 <= k <= |Between(base, snapshot)|
      modifies this`queue, this`staging
      ensures View() == TrainSteps.Eject(w, old(View()), base, snapshot, k)
      ensures conflicts == Restacked(w, old(View()), base, snapshot, k).reported
    {
      var tip;
      ghost var dropped;
      tip, conflicts, dropped := RestackSurvivors(w, base, snapshot, k);
      if tip == base {
        staging := None;
      } else {
        Renumber(base, tip);
        staging := Some(tip);
      }
    }

    // ---- flush: land -----------------------------------------------------------------------------------------

    /** Credit the covered records and close those that the closing transition accepts. */
    method CloseCovered(w: World, snapshot: Commit, ids: seq<string>)
      modifies this`queue, this`sealed
      ensures var credited := CreditAll(ids, snapshot, old(queue));
              && queue == Select(credited, Open(w, ids, snapshot))
              && sealed == old(sealed) + MergeAll(Select(credited, Closing(w, ids, snapshot)))
    {
      var credited := CreditAll(ids, snapshot, queue);
      var kept, closing := SortOut(w, snapshot, ids, credited);
      queue, sealed := kept, sealed + MergeAll(closing);
    }

    /** The credited records that stay on the board, and those that the closing transition accepts. */
    static method SortOut(w: World, snapshot: Commit, ids: seq<string>, credited: seq<Task>) returns (kept: seq<Task>, closing: seq<Task>)
      ensures kept == Select(credited, Open(w, ids, snapshot)) && closing == Select(credited, Closing(w, ids, snapshot))
    {
      kept, closing := [], [];
      for i := 0 to |credited|
        invariant kept == Select(credited[..i], Open(w, ids, snapshot))
        invariant closing == Select(credited[..i], Closing(w, ids, snapshot))
      {
        SelectSnoc(credited, i, Open(w, ids, snapshot));
        SelectSnoc(credited, i, Closing(w, ids, snapshot));
        if Closes(w, ids, snapshot, credited[i]) {
          closing := closing + [credited[i]];
        } else {
          kept := kept + [credited[i]];
        }
      }
      assert credited[..|credited|] == credited;
    }

    /** The records after a push that the remote has accepted. */
    method CloseLanded(w: World, snapshot: Commit, ids: seq<string>)
      modifies this`remote, this`tracking, this`staging, this`queue, this`sealed
      ensures View() == TrainSteps.Close(w, old(View()).(remote := snapshot), snapshot, ids)
    {
      remote, tracking := snapshot, snapshot;
      if staging == Some(snapshot) {
        staging := None;
      }
      CloseCovered(w, snapshot, ids);
    }

    /** The second critical section of a green flush. */
    method Land(w: World, snapshot: Commit, ids: seq<string>, expected: Option<Commit>) returns (landing: Landing)
      modifies this
      ensures (View(), landing) == TrainSteps.Land(w, old(View()), snapshot, ids, expected, runs) && runs == old(runs)
    {
      if !checkedOut {
        if local != expected {
          return BranchMoved;
        }
        local := Some(snapshot);
      }
      if !(w.network(runs) && remote <= snapshot) {
        return PushFailed;
      }
      CloseLanded(w, snapshot, ids);
      return Landed;
    }

    // ---- flush -----------------------------------------------------------------------------------------------

    /** What the object and its caller know is what `o` says. */
    ghost predicate Matches(o: Outcome, over: bool, result: FlushResult, rest: Schedule)
      reads this
    {
      && over == o.Done? && View() == After(o) && runs == Runs(o) && rest == Rest(o)
      && result.conflicts == Reported(o)
      && (o.Done? ==> result.status == o.report.status && result.flushed == o.report.flushed && result.commit == o.report.commit)
    }

    method Conclude(w: World, snapshot: Commit, ids: seq<string>, expected: Option<Commit>, rest: Schedule, ghost tally: Tally)
      returns (result: FlushResult)
      modifies this
      ensures Matches(Done(Finish(w, old(View()), snapshot, ids, expected, old(runs), rest, tally)), true, result, rest)
    {
      var landing := Land(w, snapshot, ids, expected);
      result := if landing == Landed then FlushResult(Green, ids, Some(snapshot), {}) else FlushResult(Halt, [], Some(snapshot), {});
    }

    /** Bisect the red snapshot in a worktree of its own. */
    method Suspect(w: World, base: Commit, snapshot: Commit) returns (found: Option<nat>)
      modifies this`runs
      ensures (found, runs) == Diagnose(w, base, snapshot, old(runs))
    {
      found := None;
      if w.worktree(ForBisect, runs) {
        found, runs := Bisect.Locate(w.exit, Between(base, snapshot), runs);
      }
    }

    /** No prefix fails: run the snapshot once more. */
    method RetrySnapshot(w: World, snapshot: Commit, ids: seq<string>, expected: Option<Commit>, rest: Schedule, ghost tally: Tally)
      returns (result: FlushResult)
      modifies this
      ensures Matches(Done(Retry(w, old(View()), snapshot, ids, expected, old(runs), rest, tally)), true, result, rest)
    {
      result := FlushResult(Halt, [], Some(snapshot), {});
      if w.worktree(ForRetry, runs) {
        var passed := w.exit(runs, snapshot);
        runs := runs + 1;
        if passed {
          result := Conclude(w, snapshot, ids, expected, rest, tally);
        }
      }
    }

    method ExpelCulprit(w: World, base: Commit, snapshot: Commit, k: nat, rest: Schedule, ghost tally: Tally)
      returns (over: bool, result: FlushResult)
      requires staging.Some? && 1 <= k <= |Between(base, snapshot)|
      modifies this
      ensures Matches(Expel(w, old(View()), base, snapshot, k, old(runs), rest, tally), over, result, rest)
    {
      var conflicts := Eject(w, base, snapshot, k);
      over := staging.None?;
      result := FlushResult(Empty, [], None, conflicts);
    }

    /** Bisect outside the lock, while `events` happen, then retry a flake or expel the culprit. */
    method Repair(w: World, base: Commit, snapshot: Commit, ids: seq<string>, expected: Option<Commit>, events: seq<Event>,
                  rest: Schedule, ghost u: Repo, ghost tally: Tally)
      returns (over: bool, result: FlushResult)
      requires u == Window(View(), events) && u.staging.Some?
      modifies this
      ensures Matches(TrainFlush.Repair(w, u, base, snapshot, ids, expected, old(runs), rest, tally), over, result, rest)
    {
      var found := Suspect(w, base, snapshot);
      Interfere(events);
      match found {
        case None =>
          over := true;
          result := RetrySnapshot(w, snapshot, ids, expected, rest, tally);
        case Some(k) =>
          over, result := ExpelCulprit(w, base, snapshot, k, rest, tally);
      }
    }

    /** The snapshot of `r` has passed its validation, during which `schedule`'s first window has passed. */
    method Accept(w: World, snapshot: Commit, ids: seq<string>, expected: Option<Commit>, schedule: Schedule,
                  ghost r: Repo, ghost before: nat, ghost tally: Tally)
      returns (result: FlushResult)
      requires Chained(r) && r.staging == Some(snapshot) && ids == Covered(r.branch, snapshot, r.queue) && expected == r.local
      requires w.worktree(ForSnapshot, before) && w.exit(before, snapshot) && runs == before + 1
      requires View() == Window(r, Next(schedule))
      modifies this
      ensures Matches(TrainFlush.Validate(w, r, before, schedule, tally), true, result, Later(schedule))
    {
      result := Conclude(w, snapshot, ids, expected, Later(schedule), Elapsed(tally, r, Next(schedule)));
    }

    /** The snapshot of `r` has failed its validation, during which `schedule`'s first window has passed. */
    method Reject(w: World, snapshot: Commit, ids: seq<string>, expected: Option<Commit>, schedule: Schedule,
                  ghost r: Repo, ghost before: nat, ghost tally: Tally)
      returns (over: bool, result: FlushResult, rest: Schedule)
      requires Chained(r) && r.staging == Some(snapshot) && ids == Covered(r.branch, snapshot, r.queue) && expected == r.local
      requires w.worktree(ForSnapshot, before) && !w.exit(before, snapshot) && runs == before + 1
      requires View() == Window(r, Next(schedule))
      modifies this
      ensures Matches(TrainFlush.Validate(w, r, before, schedule, tally), over, result, rest)
    {
      var base, events := MergeBase(snapshot, tracking), Next(Later(schedule));
      rest := Later(Later(schedule));
      ghost var s := View();
      ghost var u, total := Window(s, events), Elapsed(Elapsed(tally, r, Next(schedule)), s, events);
      RedGoesOn(w, r, before, schedule, tally, s, u, base, rest, total);
      over, result := Repair(w, base, snapshot, ids, expected, events, rest, u, total);
    }

    /** A flush that has found something staged: snapshot, validate outside the lock, then land or repair. */
    method Validate(w: World, schedule: Schedule, ghost tally: Tally)
      returns (over: bool, result: FlushResult, rest: Schedule)
      requires Valid() && staging.Some?
      modifies this
      ensures Matches(TrainFlush.Validate(w, old(View()), old(runs), schedule, tally), over, result, rest)
    {
      ghost var r := View();
      var snapshot, expected := staging.value, local;
      var ids := Covered(branch, snapshot, queue);
      if !w.worktree(ForSnapshot, runs) {
        return true, FlushResult(Halt, [], Some(snapshot), {}), schedule;
      }
      Interfere(Next(schedule));
      var passed := w.exit(runs, snapshot);
      runs := runs + 1;
      if passed {
        over, rest := true, Later(schedule);
        result := Accept(w, snapshot, ids, expected, schedule, r, old(runs), tally);
      } else {
        over, result, rest := Reject(w, snapshot, ids, expected, schedule, r, old(runs), tally);
      }
    }

    /** Flush the train, in the presence of the other processes that `schedule` describes. */
    method Flush(w: World, schedule: Schedule) returns (result: FlushResult, rest: Schedule)
      requires Valid()
      modifies this
      ensures var f := TrainTheorems.Flush(w, old(View()), old(runs), schedule);
              Valid() && Matches(Done(f), true, result, rest)
      decreases Chain(View()) + Pending(schedule)
    {
      ghost var r := View();
      TrainTheorems.AgainIsSmaller(w, r, runs, schedule);
      TrainTheorems.FlushKeepsChain(w, r, runs, schedule);
      Interfere(Next(schedule));
      rest := Later(schedule);
      if staging.None? {
        return FlushResult(Empty, [], None, {}), rest;
      }
      WindowKeepsChain(r, Next(schedule));
      var over;
      over, result, rest := Validate(w, rest, Elapsed(NOTHING, r, Next(schedule)));
      if !over {
        ghost var o := Attempt(w, r, old(runs), schedule);
        assert View() == o.repo && runs == o.runs && rest == o.rest;
        var conflicts := result.conflicts;
        result, rest := Flush(w, rest);
        result := result.(conflicts := conflicts + result.conflicts);
      }
    }

    // ---- recovery --------------------------------------------------------------------------------------------

    /** Put a lost staging ref back from the task records. */
    method RebuildFromRecords()
      modifies this`staging
      ensures Rebuilt(branch, queue).Some? ==> staging == Rebuilt(branch, queue)
      ensures Rebuilt(branch, queue).None? ==> staging == old(staging)
    {
      var latest: Option<Task> := None;
      for i := 0 to |queue|
        invariant latest == Latest(branch, queue[..i])
      {
        assert queue[..i + 1][..i] == queue[..i];
        if OnTrain(branch, queue[i])
           && (latest.None? || Position(branch, latest.value) <= queue[i].train.value.position)
        {
          latest := Some(queue[i]);
        }
      }
      assert queue[..|queue|] == queue;
      if latest.Some? {
        staging := Some(latest.value.train.value.commit);
      }
    }
  }
}
