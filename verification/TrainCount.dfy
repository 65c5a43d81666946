/**
 Conservation: every staging is accounted for exactly once, whatever other processes do.  Ids are counted with
 multiplicity, because a task that was ejected may be staged again while the same flush is still running.
 */
module TrainCount {
  import opened Wrappers
  import opened History
  import opened Lifecycle
  import opened TrainSteps
  import opened TrainInvariant

  /** What one record contributes to the count of the ids on this train. */
  function One(branch: string, t: Task): multiset<string> { if OnTrain(branch, t) then multiset{t.id} else multiset{} }

  /** The ids on the train of this branch. */
  function Crew(branch: string, q: seq<Task>): multiset<string> {
    if q == [] then multiset{} else Crew(branch, q[..|q| - 1]) + One(branch, q[|q| - 1])
  }

  function Aboard(r: Repo): multiset<string> { Crew(r.branch, r.queue) }

  // ---- sums of multisets -------------------------------------------------------------------------------------

  lemma Amid(a: multiset<string>, c: multiset<string>, d: multiset<string>, e: multiset<string>, same: multiset<string>)
    requires a + c == d + e
    ensures (a + same) + c == (d + same) + e
  {
    assert (a + same) + c == (a + c) + same;
  }

  lemma Associates(a: multiset<string>, b: multiset<string>, c: multiset<string>)
    ensures (a + b) + c == a + (b + c)
  {
  }

  lemma Swaps(a: multiset<string>, b: multiset<string>, c: multiset<string>)
    ensures (a + b) + c == (a + c) + b
  {
  }

  lemma Pairwise(a: multiset<string>, b: multiset<string>, c: multiset<string>, x: multiset<string>, y: multiset<string>, z: multiset<string>)
    ensures (a + b + c) + (x + y + z) == (a + x) + (b + y) + (c + z)
  {
  }

  lemma InTurn(first: multiset<string>, second: multiset<string>, third: multiset<string>,
               out1: multiset<string>, in1: multiset<string>, out2: multiset<string>, in2: multiset<string>)
    requires second + out1 == first + in1 && third + out2 == second + in2
    ensures third + (out1 + out2) == first + (in1 + in2)
  {
    assert third + (out1 + out2) == (third + out2) + out1;
    assert (third + out2) + out1 == (second + out1) + in2;
  }

  lemma Nothing(a: multiset<string>, b: multiset<string>, none: multiset<string>)
    requires none == multiset{}
    ensures (a + none == b + none ==> a == b) && (a + none == b ==> a == b) && (a == b + none ==> a == b)
  {
    assert a + none == a && b + none == b;
  }

  // ---- the crew of an updated queue --------------------------------------------------------------------------

  lemma {:induction false} SameCrewIds(branch: string, q: seq<Task>, q': seq<Task>)
    requires |q'| == |q| && forall i :: 0 <= i < |q| ==> q'[i].id == q[i].id && (OnTrain(branch, q[i]) <==> OnTrain(branch, q'[i]))
    ensures Crew(branch, q) == Crew(branch, q')
  {
    if q != [] {
      SameCrewIds(branch, q[..|q| - 1], q'[..|q| - 1]);
    }
  }

  lemma {:induction false} ReplaceCrew(branch: string, q: seq<Task>, at: nat, t: Task)
    requires at < |q|
    ensures Crew(branch, q[at := t]) + One(branch, q[at]) == Crew(branch, q) + One(branch, t)
  {
    var n, q' := |q| - 1, q[at := t];
    if at < n {
      assert q'[..n] == q[..n][at := t];
      assert q'[n] == q[n] && q[..n][at] == q[at];
      ReplaceCrew(branch, q[..n], at, t);
      Amid(Crew(branch, q'[..n]), One(branch, q[at]), Crew(branch, q[..n]), One(branch, t), One(branch, q[n]));
    } else {
      assert q'[..n] == q[..n];
      assert Crew(branch, q') == Crew(branch, q[..n]) + One(branch, t);
      assert Crew(branch, q[..n]) + One(branch, t) + One(branch, q[n]) == Crew(branch, q[..n]) + One(branch, q[n]) + One(branch, t);
    }
  }

  lemma CrewSnoc(branch: string, q: seq<Task>, t: Task)
    ensures Crew(branch, q + [t]) == Crew(branch, q) + One(branch, t)
  {
    assert (q + [t])[..|q|] == q;
  }

  lemma LastApart(a: seq<Task>, b: seq<Task>)
    requires b != []
    ensures var n := |b| - 1; b == b[..n] + [b[n]] && a + b == (a + b[..n]) + [b[n]]
  {
  }

  lemma {:induction false} CrewAdds(branch: string, a: seq<Task>, b: seq<Task>)
    ensures Crew(branch, a + b) == Crew(branch, a) + Crew(branch, b)
  {
    if b == [] {
      assert a + b == a;
    } else {
      var front, t := b[..|b| - 1], b[|b| - 1];
      LastApart(a, b);
      CrewAdds(branch, a, front);
      CrewSnoc(branch, a + front, t);
      CrewSnoc(branch, front, t);
      Associates(Crew(branch, a), Crew(branch, front), One(branch, t));
    }
  }

  lemma PartsOf(q: seq<Task>, i: nat)
    requires i < |q|
    ensures q == (q[..i] + [q[i]]) + q[i + 1..]
  {
  }

  lemma WithoutCrew(branch: string, q: seq<Task>, i: nat)
    requires i < |q|
    ensures Crew(branch, Without(q, i)) + One(branch, q[i]) == Crew(branch, q)
  {
    PartsOf(q, i);
    CrewAdds(branch, q[..i], q[i + 1..]);
    CrewSnoc(branch, q[..i], q[i]);
    CrewAdds(branch, q[..i] + [q[i]], q[i + 1..]);
    Swaps(Crew(branch, q[..i]), Crew(branch, q[i + 1..]), One(branch, q[i]));
  }

  // ---- windows -----------------------------------------------------------------------------------------------

  /** The task that a marker write puts on the train, if it was not there already. */
  function Boards(r: Repo, id: string): multiset<string> {
    if Unmarkable(r, id) || CommitOf(r.branch, r.queue, id).Some? then multiset{} else multiset{id}
  }

  function Arrival(r: Repo, e: Event): multiset<string> {
    match e
    case Integrate(id, _, step) => if step.Some? then Boards(r, id) else multiset{}
    case LateMark(id, _) => Boards(r, id)
    case _ => multiset{}
  }

  /** The task that an event takes off the board while it is on the train. */
  function Withdrawal(r: Repo, e: Event): multiset<string> {
    if e.Move? && Terminal(e.to) && CommitOf(r.branch, r.queue, e.id).Some? then multiset{e.id} else multiset{}
  }

  function Arrivals(r: Repo, events: seq<Event>): multiset<string>
    decreases |events|
  {
    if events == [] then multiset{} else Arrival(r, events[0]) + Arrivals(Apply(r, events[0]), events[1..])
  }

  function Withdrawals(r: Repo, events: seq<Event>): multiset<string>
    decreases |events|
  {
    if events == [] then multiset{} else Withdrawal(r, events[0]) + Withdrawals(Apply(r, events[0]), events[1..])
  }

  lemma MarkerCounts(branch: string, q: seq<Task>, i: nat, t: Task)
    requires i < |q| && OnTrain(branch, t) && t.id == q[i].id
    ensures OnTrain(branch, q[i]) ==> Crew(branch, q[i := t]) == Crew(branch, q)
    ensures !OnTrain(branch, q[i]) ==> Crew(branch, q[i := t]) == Crew(branch, q) + multiset{t.id}
  {
    if OnTrain(branch, q[i]) {
      SameCrewIds(branch, q, q[i := t]);
    } else {
      ReplaceCrew(branch, q, i, t);
      Nothing(Crew(branch, q[i := t]), Crew(branch, q) + multiset{t.id}, One(branch, q[i]));
    }
  }

  lemma MarkedCounts(r: Repo, id: string, commit: Commit)
    ensures Crew(r.branch, Marked(r.branch, r.queue, id, commit)) == Aboard(r) + Boards(r, id)
  {
    if !Unmarkable(r, id) {
      var i := Find(r.queue, id).value;
      var t := Marked(r.branch, r.queue, id, commit)[i];
      MarkerCounts(r.branch, r.queue, i, t);
    }
  }

  lemma MovedCounts(r: Repo, id: string, to: State)
    ensures Aboard(MoveTask(r, id, to)) + Withdrawal(r, Move(id, to)) == Aboard(r)
  {
    match Find(r.queue, id)
    case None =>
    case Some(i) =>
      if Terminal(to) {
        WithoutCrew(r.branch, r.queue, i);
        assert Withdrawal(r, Move(id, to)) == One(r.branch, r.queue[i]);
      } else {
        SameCrewIds(r.branch, r.queue, MoveTask(r, id, to).queue);
        Nothing(Aboard(r), Aboard(r), Withdrawal(r, Move(id, to)));
      }
  }

  /** Every event, orderly or not, is accounted for. */
  lemma ApplyCounts(r: Repo, e: Event)
    ensures Aboard(Apply(r, e)) + Withdrawal(r, e) == Aboard(r) + Arrival(r, e)
  {
    match e
    case Integrate(id, fetched, step) =>
      if step.Some? {
        MarkedCounts(r, id, Tip(Apply(r, e)));
      } else {
        SameCrewIds(r.branch, r.queue, Parked(r.queue, id));
      }
    case LateMark(id, commit) => MarkedCounts(r, id, commit);
    case Move(id, to) => MovedCounts(r, id, to);
    case Add(id, state) => CrewSnoc(r.branch, r.queue, Task(id, state, None, None, None));
    case _ =>
  }

  /** The tasks aboard after a window are those before it and those that came aboard in it, less those taken off. */
  lemma {:induction false} WindowCounts(r: Repo, events: seq<Event>)
    ensures Aboard(Window(r, events)) + Withdrawals(r, events) == Aboard(r) + Arrivals(r, events)
    decreases |events|
  {
    if events != [] {
      var s := Apply(r, events[0]);
      ApplyCounts(r, events[0]);
      WindowCounts(s, events[1..]);
      InTurn(Aboard(r), Aboard(s), Aboard(Window(s, events[1..])), Withdrawal(r, events[0]), Arrival(r, events[0]),
             Withdrawals(s, events[1..]), Arrivals(s, events[1..]));
    }
  }

  /** Orderly windows take nobody off the train. */
  lemma {:induction false} OrderlyWithdrawsNobody(r: Repo, events: seq<Event>)
    requires OrderlyWindow(r, events)
    ensures Withdrawals(r, events) == multiset{}
    decreases |events|
  {
    if events != [] {
      OrderlyWithdrawsNobody(Apply(r, events[0]), events[1..]);
    }
  }

  // ---- red ---------------------------------------------------------------------------------------------------

  /** Who a red flush takes off the train as the culprit: nobody, if no record is found for the commit. */
  function Culprits(r: Repo, base: Commit, snapshot: Commit, k: nat): multiset<string>
    requires 1 <= k <= |Between(base, snapshot)|
  {
    var at := CulpritRecord(r, base, snapshot, k);
    if at.Some? then multiset{r.queue[at.value].id} else multiset{}
  }

  /** A record that leaves the train, if it was on it. */
  lemma LeaverCounts(branch: string, q: seq<Task>, at: nat, reason: Reason)
    requires at < |q|
    ensures Crew(branch, q[at := Ejected(q[at], reason)]) + One(branch, q[at]) == Crew(branch, q)
  {
    ReplaceCrew(branch, q, at, Ejected(q[at], reason));
    Nothing(Crew(branch, q), Crew(branch, q), One(branch, Ejected(q[at], reason)));
  }

  lemma ReplayOneCounts(branch: string, pick: (Commit, Commit) -> Option<nat>, tables: Tables, position: Option<nat>,
                        s: Restacking, c: Commit, s': Restacking)
    requires Within(tables, |s.queue|) && s' == ReplayOne(branch, pick, tables, position, s, c)
    ensures Crew(branch, s'.queue) + s'.dropped == Crew(branch, s.queue) + s.dropped
  {
    var at := Lookup(tables.byCommit, tables.byPosition, c, position);
    if at.Some? {
      if pick(s.tip, c).Some? {
        SameCrewIds(branch, s.queue, s'.queue);
      } else {
        LeaverCounts(branch, s.queue, at.value, RestackConflict);
        assert s'.dropped == s.dropped + One(branch, s.queue[at.value]);
        assert Crew(branch, s'.queue) + (s.dropped + One(branch, s.queue[at.value])) ==
               (Crew(branch, s'.queue) + One(branch, s.queue[at.value])) + s.dropped;
      }
    }
  }

  lemma ReplayLast(branch: string, pick: (Commit, Commit) -> Option<nat>, tables: Tables, first: Option<nat>, s: Restacking, commits: seq<Commit>)
    requires Within(tables, |s.queue|) && commits != []
    ensures var n := |commits| - 1;
            ReplayAll(branch, pick, tables, first, s, commits) ==
              ReplayOne(branch, pick, tables, FallBack(first, n),
                        ReplayAll(branch, pick, tables, first, s, commits[..n]), commits[n])
  {
  }

  lemma {:induction false} ReplayAllCounts(branch: string, pick: (Commit, Commit) -> Option<nat>, tables: Tables, first: Option<nat>,
                                           s: Restacking, commits: seq<Commit>, s': Restacking)
    requires Within(tables, |s.queue|) && s' == ReplayAll(branch, pick, tables, first, s, commits)
    ensures Crew(branch, s'.queue) + s'.dropped == Crew(branch, s.queue) + s.dropped
    decreases |commits|
  {
    if commits != [] {
      var n := |commits| - 1;
      var before := ReplayAll(branch, pick, tables, first, s, commits[..n]);
      ReplayAllCounts(branch, pick, tables, first, s, commits[..n], before);
      ReplayLast(branch, pick, tables, first, s, commits);
      ReplayOneCounts(branch, pick, tables, FallBack(first, n), before, commits[n], s');
    }
  }

  lemma RestackedCounts(w: World, r: Repo, base: Commit, snapshot: Commit, k: nat)
    requires r.staging.Some? && 1 <= k <= |Between(base, snapshot)|
    ensures var s := Restacked(w, r, base, snapshot, k);
            Crew(r.branch, s.queue) + s.dropped == Crew(r.branch, CulpritOut(r, base, snapshot, k))
  {
    var start := Restacking(Below(base, snapshot, k), CulpritOut(r, base, snapshot, k), {}, multiset{});
    var s := ReplayAll(r.branch, w.pick, TablesOf(r), Some(k + 1), start, Between(base, snapshot)[k..]);
    ReplayAllCounts(r.branch, w.pick, TablesOf(r), Some(k + 1), start, Between(base, snapshot)[k..], s);
    Nothing(Crew(r.branch, s.queue) + s.dropped, Crew(r.branch, start.queue), start.dropped);
    if r.staging.value != snapshot {
      ReplayAllCounts(r.branch, w.pick, Tables(TablesOf(r).byCommit, map[]), None, s, Between(snapshot, r.staging.value),
                      Restacked(w, r, base, snapshot, k));
    }
  }

  /** Whoever a restack takes off the train is reported as a conflict. */
  ghost predicate AllReported(s: Restacking) {
    forall id: string :: id in s.dropped ==> id in s.reported
  }

  lemma {:induction false} ReplayReports(branch: string, pick: (Commit, Commit) -> Option<nat>, tables: Tables, first: Option<nat>,
                                         s: Restacking, commits: seq<Commit>)
    requires Within(tables, |s.queue|) && AllReported(s)
    ensures AllReported(ReplayAll(branch, pick, tables, first, s, commits))
    decreases |commits|
  {
    if commits != [] {
      ReplayReports(branch, pick, tables, first, s, commits[..|commits| - 1]);
      ReplayLast(branch, pick, tables, first, s, commits);
    }
  }

  lemma DroppedAreReported(w: World, r: Repo, base: Commit, snapshot: Commit, k: nat)
    requires r.staging.Some? && 1 <= k <= |Between(base, snapshot)|
    ensures AllReported(Restacked(w, r, base, snapshot, k))
  {
    var start := Restacking(Below(base, snapshot, k), CulpritOut(r, base, snapshot, k), {}, multiset{});
    var s := ReplayAll(r.branch, w.pick, TablesOf(r), Some(k + 1), start, Between(base, snapshot)[k..]);
    ReplayReports(r.branch, w.pick, TablesOf(r), Some(k + 1), start, Between(base, snapshot)[k..]);
    if r.staging.value != snapshot {
      ReplayReports(r.branch, w.pick, Tables(TablesOf(r).byCommit, map[]), None, s, Between(snapshot, r.staging.value));
    }
  }

  lemma CulpritCounts(r: Repo, base: Commit, snapshot: Commit, k: nat)
    requires 1 <= k <= |Between(base, snapshot)|
    ensures Aboard(r) == Culprits(r, base, snapshot, k) + Crew(r.branch, CulpritOut(r, base, snapshot, k))
  {
    var at := CulpritRecord(r, base, snapshot, k);
    if at.Some? {
      LeaverCounts(r.branch, r.queue, at.value, BatchValidation);
      assert Culprits(r, base, snapshot, k) == One(r.branch, r.queue[at.value]);
    }
  }

  /** A red flush, from any state: whoever is not aboard any more was ejected as the culprit or dropped as a conflict. */
  lemma EjectConserves(w: World, r: Repo, base: Commit, snapshot: Commit, k: nat)
    requires r.staging.Some? && 1 <= k <= |Between(base, snapshot)|
    ensures Aboard(r) == Culprits(r, base, snapshot, k) + Restacked(w, r, base, snapshot, k).dropped + Aboard(Eject(w, r, base, snapshot, k))
    ensures |Culprits(r, base, snapshot, k)| <= 1
  {
    CulpritCounts(r, base, snapshot, k);
    RestackedCounts(w, r, base, snapshot, k);
    var s := Restacked(w, r, base, snapshot, k);
    ResettledCounts(r, base, s.tip, s.queue);
    assert Culprits(r, base, snapshot, k) + (Crew(r.branch, s.queue) + s.dropped) ==
           Culprits(r, base, snapshot, k) + s.dropped + Crew(r.branch, s.queue);
  }

  lemma ResettledCounts(r: Repo, base: Commit, tip: Commit, queue: seq<Task>)
    ensures Aboard(Resettled(r, base, tip, queue)) == Crew(r.branch, queue)
  {
    if tip != base {
      SameCrewIds(r.branch, queue, RenumberAll(r.branch, base, tip, queue));
    }
  }

  // ---- green -------------------------------------------------------------------------------------------------

  /** One record aboard that a landing names, if its commit is `inside` the snapshot, or is not. */
  function OneNamed(branch: string, ids: seq<string>, snapshot: Commit, inside: bool, t: Task): multiset<string> {
    if OnTrain(branch, t) && t.id in ids && (t.train.value.commit <= snapshot) == inside then multiset{t.id} else multiset{}
  }

  function NamedCrew(branch: string, ids: seq<string>, snapshot: Commit, inside: bool, q: seq<Task>): multiset<string> {
    if q == [] then multiset{}
    else NamedCrew(branch, ids, snapshot, inside, q[..|q| - 1]) + OneNamed(branch, ids, snapshot, inside, q[|q| - 1])
  }

  /** Who a landing takes off the train with a commit that it has published. */
  function LandedBy(r: Repo, snapshot: Commit, ids: seq<string>): multiset<string> {
    NamedCrew(r.branch, ids, snapshot, true, r.queue)
  }

  /** Who it takes off the train although their commit is not in what it has published. */
  function SweptBy(r: Repo, snapshot: Commit, ids: seq<string>): multiset<string> {
    NamedCrew(r.branch, ids, snapshot, false, r.queue)
  }

  lemma {:induction false} SelectCrew(branch: string, q: seq<Task>, keep: Task -> bool)
    requires forall i :: 0 <= i < |q| && OnTrain(branch, q[i]) ==> keep(q[i])
    ensures Crew(branch, Select(q, keep)) == Crew(branch, q)
  {
    if q != [] {
      var n := |q| - 1;
      SelectCrew(branch, q[..n], keep);
      if keep(q[n]) {
        assert Select(q, keep) == Select(q[..n], keep) + [q[n]];
        CrewSnoc(branch, Select(q[..n], keep), q[n]);
      } else {
        assert Select(q, keep) == Select(q[..n], keep);
      }
    }
  }

  lemma {:induction false} CreditedCounts(branch: string, q: seq<Task>, snapshot: Commit, ids: seq<string>, credited: seq<Task>)
    requires |credited| == |q| && forall i :: 0 <= i < |q| ==> credited[i] == Credited(ids, snapshot, q[i])
    ensures Crew(branch, q) == NamedCrew(branch, ids, snapshot, true, q) + NamedCrew(branch, ids, snapshot, false, q) + Crew(branch, credited)
  {
    if q != [] {
      var n := |q| - 1;
      CreditedCounts(branch, q[..n], snapshot, ids, credited[..n]);
      var (l, s, o) := (OneNamed(branch, ids, snapshot, true, q[n]), OneNamed(branch, ids, snapshot, false, q[n]), One(branch, credited[n]));
      assert One(branch, q[n]) == l + s + o;
      Pairwise(NamedCrew(branch, ids, snapshot, true, q[..n]), NamedCrew(branch, ids, snapshot, false, q[..n]), Crew(branch, credited[..n]), l, s, o);
    }
  }

  /** A green flush, from any state: whoever is not aboard any more was named by it, with a commit it has published or
      with another one. */
  lemma CloseConserves(w: World, r: Repo, snapshot: Commit, ids: seq<string>)
    ensures Aboard(r) == LandedBy(r, snapshot, ids) + SweptBy(r, snapshot, ids) + Aboard(Close(w, r, snapshot, ids))
  {
    var credited := CreditAll(ids, snapshot, r.queue);
    CreditedCounts(r.branch, r.queue, snapshot, ids, credited);
    SelectCrew(r.branch, credited, Open(w, ids, snapshot));
  }

  // ---- what the ids of a snapshot name -----------------------------------------------------------------------

  /** The ids named by a green flush are those of the records whose commits the snapshot contains. */
  ghost predicate Covers(r: Repo, snapshot: Commit, ids: seq<string>) {
    && (forall t :: t in r.queue ==> (t.id in ids <==> OnTrain(r.branch, t) && t.train.value.commit <= snapshot))
    && (forall id :: id in ids ==> CommitOf(r.branch, r.queue, id).Some?)
    && NoRepeats(ids)
  }

  lemma {:induction false} CoveredIds(branch: string, snapshot: Commit, q: seq<Task>, id: string)
    ensures id in Covered(branch, snapshot, q) <==>
              exists t :: t in q && t.id == id && OnTrain(branch, t) && t.train.value.commit <= snapshot
  {
    if q != [] {
      CoveredIds(branch, snapshot, q[..|q| - 1], id);
      assert q == q[..|q| - 1] + [q[|q| - 1]];
    }
  }

  lemma FrontDistinct(q: seq<Task>)
    requires DistinctIds(q) && q != []
    ensures DistinctIds(q[..|q| - 1])
    ensures forall t :: t in q[..|q| - 1] ==> t.id != q[|q| - 1].id
  {
    var front := q[..|q| - 1];
    forall i, j | Both(i, j) && 0 <= i < |front| && 0 <= j < |front| && i != j ensures front[i].id != front[j].id {}
    forall t | t in front ensures t.id != q[|q| - 1].id {
      var i :| 0 <= i < |front| && front[i] == t;
      assert Both(i, |q| - 1);
    }
  }

  ghost predicate NoRepeats(ids: seq<string>) {
    forall i, j :: 0 <= i < j < |ids| ==> ids[i] != ids[j]
  }

  lemma NoRepeatsSnoc(ids: seq<string>, id: string)
    requires NoRepeats(ids) && id !in ids
    ensures NoRepeats(ids + [id])
  {
  }

  lemma {:induction false} CoveredDistinct(branch: string, snapshot: Commit, q: seq<Task>)
    requires DistinctIds(q)
    ensures NoRepeats(Covered(branch, snapshot, q))
  {
    if q != [] {
      var front, last := q[..|q| - 1], q[|q| - 1];
      FrontDistinct(q);
      CoveredDistinct(branch, snapshot, front);
      if OnTrain(branch, last) && last.train.value.commit <= snapshot {
        CoveredIds(branch, snapshot, front, last.id);
        NoRepeatsSnoc(Covered(branch, snapshot, front), last.id);
      }
    }
  }

  /** The ids taken with a snapshot name exactly the records whose staged commit it contains, each once. */
  lemma CoveredIsExact(r: Repo, snapshot: Commit)
    requires DistinctIds(r.queue)
    ensures Covers(r, snapshot, Covered(r.branch, snapshot, r.queue))
  {
    var ids := Covered(r.branch, snapshot, r.queue);
    CoveredDistinct(r.branch, snapshot, r.queue);
    forall t | t in r.queue
      ensures t.id in ids <==> OnTrain(r.branch, t) && t.train.value.commit <= snapshot
    {
      CoveredIds(r.branch, snapshot, r.queue, t.id);
      if t.id in ids {
        var u :| u in r.queue && u.id == t.id && OnTrain(r.branch, u) && u.train.value.commit <= snapshot;
        SameRecord(r.queue, t, u);
      }
    }
    forall id | id in ids ensures CommitOf(r.branch, r.queue, id).Some? {
      CoveredIds(r.branch, snapshot, r.queue, id);
      var u :| u in r.queue && u.id == id && OnTrain(r.branch, u);
      CommitAt(r.branch, r.queue, u);
    }
  }

  lemma {:induction false} NamedCount(branch: string, ids: seq<string>, snapshot: Commit, inside: bool, q: seq<Task>, id: string)
    requires DistinctIds(q)
    ensures var c := CommitOf(branch, q, id);
            NamedCrew(branch, ids, snapshot, inside, q)[id] == if id in ids && c.Some? && (c.value <= snapshot) == inside then 1 else 0
  {
    if q != [] {
      var (front, last) := (q[..|q| - 1], q[|q| - 1]);
      assert q == front + [last];
      FrontDistinct(q);
      NamedCount(branch, ids, snapshot, inside, front, id);
      CommitAt(branch, q, last);
      if id == last.id {
        GoneIsNowhere(branch, front, id);
      } else {
        CommitAgrees(branch, front, q, id);
      }
    }
  }

  lemma {:induction false} DistinctCount(ids: seq<string>, id: string)
    requires NoRepeats(ids)
    ensures multiset(ids)[id] == if id in ids then 1 else 0
  {
    if ids != [] {
      var (front, last) := (ids[..|ids| - 1], ids[|ids| - 1]);
      assert ids == front + [last];
      DistinctCount(front, id);
    }
  }

  /** When the ids still name the records of the snapshot, a green flush lands exactly them and sweeps nobody along. */
  lemma CoveredAreLanded(r: Repo, snapshot: Commit, ids: seq<string>)
    requires DistinctIds(r.queue) && Covers(r, snapshot, ids)
    ensures LandedBy(r, snapshot, ids) == multiset(ids) && SweptBy(r, snapshot, ids) == multiset{}
  {
    forall id: string ensures LandedBy(r, snapshot, ids)[id] == multiset(ids)[id] && SweptBy(r, snapshot, ids)[id] == 0 {
      NamedCount(r.branch, ids, snapshot, true, r.queue, id);
      NamedCount(r.branch, ids, snapshot, false, r.queue, id);
      DistinctCount(ids, id);
      if id in ids { NamedInside(r, snapshot, ids, id); }
    }
  }

  lemma NamedInside(r: Repo, snapshot: Commit, ids: seq<string>, id: string)
    requires Covers(r, snapshot, ids) && id in ids
    ensures var c := CommitOf(r.branch, r.queue, id); c.Some? && c.value <= snapshot
  {
    assert r.queue[Find(r.queue, id).value] in r.queue;
  }
}
