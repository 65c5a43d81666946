/**
 The dependency frontier: the incremental counters and the `blocks` lists say, at every moment, what counting the
 unsettled blockers of each task from scratch would say.
 */
module Frontier {
  import opened Wrappers
  import opened Lifecycle
  import opened BoardSteps

  // ---- the simple definition ---------------------------------------------------------------------------------

  /** How many entries of `blockers` name a task that has not settled. */
  function Unsettled(blockers: seq<string>, settled: set<string>): nat {
    if blockers == [] then 0
    else Unsettled(blockers[..|blockers| - 1], settled) + (if blockers[|blockers| - 1] in settled then 0 else 1)
  }

  lemma {:induction false} UnsettledAfter(blockers: seq<string>, settled: set<string>, id: string)
    requires id !in settled
    ensures Unsettled(blockers, settled) == Unsettled(blockers, settled + {id}) + multiset(blockers)[id]
  {
    if blockers != [] {
      var n := |blockers| - 1;
      UnsettledAfter(blockers[..n], settled, id);
      assert blockers == blockers[..n] + [blockers[n]];
    }
  }

  lemma {:induction false} UnsettledZero(blockers: seq<string>, settled: set<string>)
    ensures Unsettled(blockers, settled) == 0 <==> forall x :: x in blockers ==> x in settled
  {
    if blockers != [] {
      var n := |blockers| - 1;
      UnsettledZero(blockers[..n], settled);
      assert blockers == blockers[..n] + [blockers[n]];
    }
  }

  ghost predicate DistinctIds(q: seq<Task>) {
    forall i, j :: 0 <= i < j < |q| ==> q[i].id != q[j].id
  }

  /** `blocks` is the inverse of `blockedBy`, with multiplicity. */
  ghost predicate Inverse(q: seq<Task>) {
    forall i, j :: 0 <= i < |q| && 0 <= j < |q| ==> multiset(q[i].blocks)[q[j].id] == multiset(q[j].blockedBy)[q[i].id]
  }

  ghost predicate Inv(b: Board) {
    && DistinctIds(b.queue)
    && Inverse(b.queue)
    && (forall t :: t in b.queue ==> t.id !in b.settled && !Terminal(t.state))
    && (forall t :: t in b.queue ==> PendingOf(t) == Unsettled(t.blockedBy, b.settled))
  }

  // ---- intake ------------------------------------------------------------------------------------------------

  lemma {:induction false} DependentsCount(q: seq<Task>, id: string, i: nat)
    requires DistinctIds(q) && i < |q|
    ensures multiset(Dependents(q, id))[q[i].id] == multiset(q[i].blockedBy)[id]
  {
    var n := |q| - 1;
    var last := q[n];
    assert Dependents(q, id) == Dependents(q[..n], id) + Repeat(last.id, multiset(last.blockedBy)[id]);
    RepeatCount(last.id, multiset(last.blockedBy)[id], q[i].id);
    if i < n {
      DependentsCount(q[..n], id, i);
    } else {
      NoDependents(q[..n], id, last.id);
    }
  }

  lemma {:induction false} NoDependents(q: seq<Task>, id: string, d: string)
    requires forall t :: t in q ==> t.id != d
    ensures multiset(Dependents(q, id))[d] == 0
  {
    if q != [] {
      var n := |q| - 1;
      NoDependents(q[..n], id, d);
      RepeatCount(q[n].id, multiset(q[n].blockedBy)[id], d);
    }
  }

  lemma {:induction false} RepeatCount(id: string, n: nat, d: string)
    ensures multiset(Repeat(id, n))[d] == if d == id then n else 0
  {
    if n > 0 {
      RepeatCount(id, n - 1, d);
      assert Repeat(id, n) == Repeat(id, n - 1) + [id];
    }
  }

  lemma DependentsLast(q: seq<Task>, init: seq<Task>, t: Task, id: string)
    requires q == init + [t]
    ensures Dependents(q, id) == Dependents(init, id) + Repeat(t.id, multiset(t.blockedBy)[id])
  {
    assert q[..|q| - 1] == init;
  }

  /** Dependents are listed in the order of the queue. */
  lemma {:induction false} DependentsKeepOrder(a: seq<Task>, b: seq<Task>, q: seq<Task>, id: string)
    requires q == a + b
    ensures Dependents(q, id) == Dependents(a, id) + Dependents(b, id)
    decreases |b|
  {
    if b == [] {
      assert q == a;
    } else {
      var init, t := b[..|b| - 1], b[|b| - 1];
      var front := a + init;
      assert q == front + [t];
      DependentsKeepOrder(a, init, front, id);
      DependentsLast(q, front, t, id);
      DependentsLast(b, init, t, id);
      Joined(Dependents(q, id), Dependents(front, id), Dependents(a, id), Dependents(init, id), Dependents(b, id),
             Repeat(t.id, multiset(t.blockedBy)[id]));
    }
  }

  lemma BuildBlocksInverts(q: seq<Task>)
    requires DistinctIds(q)
    ensures Inverse(BuildBlocks(q)) && DistinctIds(BuildBlocks(q))
  {
    var q' := BuildBlocks(q);
    forall i, j | 0 <= i < |q| && 0 <= j < |q|
      ensures multiset(q'[i].blocks)[q'[j].id] == multiset(q'[j].blockedBy)[q'[i].id]
    {
      DependentsCount(q, q[i].id, j);
    }
  }

  /** With no terminal record on the board, intake's count is the number of unsettled blockers, absent ones included. */
  lemma {:induction false} IntakeCounts(b: Board, blockers: seq<string>)
    requires forall t :: t in b.queue ==> !Terminal(t.state)
    ensures |Unsatisfied(b, blockers)| == Unsettled(blockers, b.settled)
  {
    if blockers != [] {
      IntakeCounts(b, blockers[..|blockers| - 1]);
    }
  }

  lemma RebuiltInv(b: Board, q: seq<Task>)
    requires DistinctIds(q)
    requires forall t :: t in q ==> t.id !in b.settled && !Terminal(t.state) && PendingOf(t) == Unsettled(t.blockedBy, b.settled)
    ensures Inv(b.(queue := BuildBlocks(q)))
  {
    BuildBlocksInverts(q);
    var q' := BuildBlocks(q);
    forall t | t in q'
      ensures t.id !in b.settled && !Terminal(t.state) && PendingOf(t) == Unsettled(t.blockedBy, b.settled)
    {
      var i :| 0 <= i < |q'| && q'[i] == t;
      assert q[i] in q;
    }
  }

  lemma AdmitKeepsInv(b: Board, id: string, blockedBy: seq<string>)
    requires Inv(b)
    ensures Inv(Admit(b, id, blockedBy))
  {
    IntakeCounts(b, blockedBy);
    if !(id in IdsOf(b.queue) || id in b.settled) {
      var q := b.queue + [NewTask(b, id, blockedBy)];
      forall i | 0 <= i < |b.queue| ensures q[i].id != id {
        assert b.queue[i] in b.queue;
      }
      RebuiltInv(b, q);
    }
  }

  lemma SameEdges(q: seq<Task>, q': seq<Task>)
    requires DistinctIds(q) && Inverse(q) && |q'| == |q|
    requires forall i :: 0 <= i < |q| ==> q'[i].id == q[i].id && q'[i].blocks == q[i].blocks && q'[i].blockedBy == q[i].blockedBy
    ensures DistinctIds(q') && Inverse(q')
  {
  }

  lemma AnnotateKeepsInv(b: Board, id: string, run: Footprint)
    requires Inv(b)
    ensures Inv(Annotate(b, id, run))
  {
    var q := Annotate(b, id, run).queue;
    SameEdges(b.queue, q);
    forall t | t in q
      ensures t.id !in b.settled && !Terminal(t.state) && PendingOf(t) == Unsettled(t.blockedBy, b.settled)
    {
      var j :| 0 <= j < |q| && q[j] == t;
      InvAt(b, j, j);
    }
  }

  lemma ReingestKeepsInv(b: Board, id: string, blockedBy: seq<string>)
    requires Inv(b)
    ensures Inv(Reingest(b, id, blockedBy))
  {
    IntakeCounts(b, blockedBy);
    match Find(b.queue, id)
    case None =>
    case Some(i) =>
      assert b.queue[i] in b.queue;
      if Inert(b.queue[i]) {
        var q := b.queue[i := Renewed(b, b.queue[i], blockedBy)];
        forall u | u in q
          ensures u.id !in b.settled && !Terminal(u.state) && PendingOf(u) == Unsettled(u.blockedBy, b.settled)
        {
          var j :| 0 <= j < |q| && q[j] == u;
          assert b.queue[j] in b.queue;
        }
        RebuiltInv(b, q);
      }
  }

  // ---- the release loop --------------------------------------------------------------------------------------

  /** What `n` mentions do to a record. */
  function Released(t: Task, n: nat): Task {
    if n == 0 then t else ReleaseOne(Released(t, n - 1))
  }

  /** Mentioned at least as often as its counter says: the record is waiting no more. */
  predicate Freed(t: Task, n: nat) {
    0 < n && PendingOf(t) <= n && (t.state == Blocked || t.state == Planned)
  }

  lemma {:induction false} ReleasedIs(t: Task, n: nat)
    ensures var t' := Released(t, n);
            && t'.id == t.id && t'.blockedBy == t.blockedBy && t'.blocks == t.blocks
            && PendingOf(t') == (if n <= PendingOf(t) then PendingOf(t) - n else 0)
            && (if Freed(t, n)
                then t'.state == Ready && t'.history == t.history + [Entry(Some(t.state), Ready, "release")]
                else t'.state == t.state && t'.history == t.history)
  {
    if n > 0 {
      ReleasedIs(t, n - 1);
    }
  }

  /** One mention changes the record it names, and no other. */
  lemma MentionPointwise(q: seq<Task>, id: string, i: nat)
    requires DistinctIds(q) && i < |q|
    ensures var at := Find(q, id); var q' := if at.None? then q else q[at.value := ReleaseOne(q[at.value])];
            && |q'| == |q| && DistinctIds(q') && q'[i].id == q[i].id
            && q'[i] == if q[i].id == id then ReleaseOne(q[i]) else q[i]
  {
    match Find(q, id)
    case None => assert q[i] in q;
    case Some(j) => assert i != j ==> q[i].id != q[j].id;
  }

  lemma CountLast(blocks: seq<string>, id: string)
    requires blocks != []
    ensures var n := |blocks| - 1;
            multiset(blocks)[id] == multiset(blocks[..n])[id] + (if blocks[n] == id then 1 else 0)
  {
    assert blocks == blocks[..|blocks| - 1] + [blocks[|blocks| - 1]];
  }

  lemma {:induction false} ReleasePointwise(q: seq<Task>, blocks: seq<string>, i: nat)
    requires DistinctIds(q) && i < |q|
    ensures DistinctIds(Release(q, blocks))
    ensures Release(q, blocks)[i].id == q[i].id
    ensures Release(q, blocks)[i] == Released(q[i], multiset(blocks)[q[i].id])
  {
    if blocks != [] {
      var n := |blocks| - 1;
      ReleasePointwise(q, blocks[..n], i);
      MentionPointwise(Release(q, blocks[..n]), blocks[n], i);
      CountLast(blocks, q[i].id);
    }
  }

  lemma {:induction false} ReleasedId(t: Task, n: nat)
    ensures Released(t, n).id == t.id
  {
    if n > 0 {
      ReleasedId(t, n - 1);
    }
  }

  // ---- transitions -------------------------------------------------------------------------------------------

  /** Which record of the old board the x-th record is, once the i-th one has left. */
  function Was(i: nat, x: nat): nat { if x < i then x else x + 1 }

  /** A waiting task becomes ready exactly when the task that settles is one of its blockers and the last one. */
  predicate FreedBy(d: Task, id: string, settled: set<string>) {
    && (d.state == Blocked || d.state == Planned)
    && id in d.blockedBy && forall x :: x in d.blockedBy ==> x in settled
  }

  /** The same record, counting what is unsettled now, released if that was its last blocker and otherwise in its old
      state. */
  predicate Follows(d: Task, d': Task, id: string, settled: set<string>) {
    && d'.id == d.id && d'.blockedBy == d.blockedBy && d'.blocks == d.blocks
    && PendingOf(d') == Unsettled(d.blockedBy, settled)
    && (if FreedBy(d, id, settled)
        then d'.state == Ready && d'.history == d.history + [Entry(Some(d.state), Ready, "release")]
        else d'.state == d.state && d'.history == d.history)
  }

  /** Mentioned once per entry that names the settled task, a record follows the count of unsettled blockers. */
  lemma ReleasedFollows(d: Task, n: nat, id: string, settled: set<string>)
    requires id !in settled && n == multiset(d.blockedBy)[id] && PendingOf(d) == Unsettled(d.blockedBy, settled)
    ensures Follows(d, Released(d, n), id, settled + {id})
  {
    ReleasedIs(d, n);
    UnsettledAfter(d.blockedBy, settled, id);
    UnsettledZero(d.blockedBy, settled + {id});
  }

  /** Where the release loop leaves the other tasks. */
  lemma SettlingReleases(b: Board, i: nat, to: State, actor: string, x: nat)
    requires DistinctIds(b.queue) && i < |b.queue| && x + 1 < |b.queue| && Terminal(to)
    ensures |Transit(b, i, to, actor).queue| == |b.queue| - 1
    ensures Transit(b, i, to, actor).queue[x] ==
      Released(b.queue[Was(i, x)], multiset(b.queue[i].blocks)[b.queue[Was(i, x)].id])
  {
    var q := b.queue[i := Moved(b.queue[i], to, actor)];
    ReleasePointwise(q, b.queue[i].blocks, Was(i, x));
  }

  lemma TransitIds(b: Board, i: nat, to: State, actor: string)
    requires DistinctIds(b.queue) && i < |b.queue| && Terminal(to)
    ensures var b' := Transit(b, i, to, actor);
            && |b'.queue| == |b.queue| - 1
            && DistinctIds(b'.queue) && IdsOf(b'.queue) == IdsOf(b.queue) - {b.queue[i].id}
            && forall x :: 0 <= x < |b'.queue| ==> b'.queue[x].id == b.queue[Was(i, x)].id
  {
    var b' := Transit(b, i, to, actor);
    forall x | 0 <= x < |b'.queue| ensures b'.queue[x].id == b.queue[Was(i, x)].id {
      SettlingReleases(b, i, to, actor, x);
      ReleasedId(b.queue[Was(i, x)], multiset(b.queue[i].blocks)[b.queue[Was(i, x)].id]);
    }
    SameIdsButOne(b.queue, b'.queue, i);
  }

  lemma SameIdsButOne(q: seq<Task>, q': seq<Task>, i: nat)
    requires DistinctIds(q) && i < |q| && |q'| == |q| - 1
    requires forall x :: 0 <= x < |q'| ==> q'[x].id == q[Was(i, x)].id
    ensures DistinctIds(q') && IdsOf(q') == IdsOf(q) - {q[i].id}
  {
    forall id ensures id in IdsOf(q') <==> id in IdsOf(q) - {q[i].id} {
      if t' :| t' in q' && t'.id == id {
        var x :| 0 <= x < |q'| && q'[x] == t';
        assert q[Was(i, x)] in q;
      }
      if t :| t in q && t.id == id && id != q[i].id {
        var j :| 0 <= j < |q| && q[j] == t;
        var x := if j < i then j else j - 1;
        assert Was(i, x) == j && q'[x] in q';
      }
    }
  }

  lemma InvAt(b: Board, i: nat, j: nat)
    requires Inv(b) && i < |b.queue| && j < |b.queue|
    ensures multiset(b.queue[i].blocks)[b.queue[j].id] == multiset(b.queue[j].blockedBy)[b.queue[i].id]
    ensures b.queue[i].id !in b.settled && b.queue[j].id !in b.settled
    ensures PendingOf(b.queue[j]) == Unsettled(b.queue[j].blockedBy, b.settled) && !Terminal(b.queue[j].state)
  {
    assert b.queue[i] in b.queue && b.queue[j] in b.queue;
  }

  /** What a terminal transition does to every other task: its counter becomes the count of its unsettled blockers, and
      it is released when that was its last one. */
  lemma SettlingMovesFrontier(b: Board, i: nat, to: State, actor: string, x: nat)
    requires Inv(b) && i < |b.queue| && x + 1 < |b.queue| && Terminal(to)
    ensures var (d, b') := (b.queue[Was(i, x)], Transit(b, i, to, actor));
            && b'.settled == b.settled + {b.queue[i].id} && |b'.queue| == |b.queue| - 1
            && Follows(d, b'.queue[x], b.queue[i].id, b'.settled)
  {
    InvAt(b, i, Was(i, x));
    SettlingReleases(b, i, to, actor, x);
    ReleasedFollows(b.queue[Was(i, x)], multiset(b.queue[i].blocks)[b.queue[Was(i, x)].id], b.queue[i].id, b.settled);
  }

  lemma SettlingKeepsInv(b: Board, i: nat, to: State, actor: string)
    requires Inv(b) && i < |b.queue| && Terminal(to)
    ensures Inv(Transit(b, i, to, actor))
  {
    var b' := Transit(b, i, to, actor);
    TransitIds(b, i, to, actor);
    forall x | 0 <= x < |b'.queue|
      ensures Follows(b.queue[Was(i, x)], b'.queue[x], b.queue[i].id, b'.settled)
      ensures b'.queue[x].id !in b'.settled && !Terminal(b'.queue[x].state)
    {
      SettlingMovesFrontier(b, i, to, actor, x);
      InvAt(b, i, Was(i, x));
      assert Was(i, x) != i;
    }
    InverseSurvives(b.queue, b'.queue, i);
  }

  lemma InverseSurvives(q: seq<Task>, q': seq<Task>, i: nat)
    requires Inverse(q) && i < |q| && |q'| == |q| - 1
    requires forall x :: 0 <= x < |q'| ==>
      q'[x].id == q[Was(i, x)].id && q'[x].blocks == q[Was(i, x)].blocks && q'[x].blockedBy == q[Was(i, x)].blockedBy
    ensures Inverse(q')
  {
  }

  lemma MovingKeepsInv(b: Board, i: nat, to: State, actor: string)
    requires Inv(b) && i < |b.queue| && !Terminal(to)
    ensures Inv(Transit(b, i, to, actor))
  {
    var q := Transit(b, i, to, actor).queue;
    forall t | t in q
      ensures t.id !in b.settled && !Terminal(t.state) && PendingOf(t) == Unsettled(t.blockedBy, b.settled)
    {
      var j :| 0 <= j < |q| && q[j] == t;
      assert b.queue[j] in b.queue;
    }
  }

  /** Every requested transition, legal or refused, keeps counters and inverse exact. */
  lemma ApplyKeepsInv(b: Board, id: string, from: State, to: State, evidence: bool, repair: bool, actor: string)
    requires Inv(b)
    ensures Inv(Apply(b, id, from, to, evidence, repair, actor))
  {
    match Find(b.queue, id)
    case None =>
    case Some(i) =>
      if Permitted(b.queue[i], from, to, evidence, repair) {
        if Terminal(to) {
          SettlingKeepsInv(b, i, to, actor);
        } else {
          MovingKeepsInv(b, i, to, actor);
        }
      }
  }

  // ---- what the states say about the blockers ----------------------------------------------------------------

  /** A blocked task waits for somebody, and a ready task for nobody. */
  predicate Truthful(t: Task, settled: set<string>) {
    && (t.state == Blocked ==> Unsettled(t.blockedBy, settled) > 0)
    && (t.state == Ready ==> Unsettled(t.blockedBy, settled) == 0)
  }

  ghost predicate AllTruthful(b: Board) {
    forall t :: t in b.queue ==> Truthful(t, b.settled)
  }

  /** The requested transitions that do not look at the counter: blocking a free task, readying a waiting one. */
  predicate Overrides(b: Board, id: string, from: State, to: State, evidence: bool, repair: bool) {
    match Find(b.queue, id)
    case None => false
    case Some(i) =>
      && Permitted(b.queue[i], from, to, evidence, repair)
      && ((to == Blocked && PendingOf(b.queue[i]) == 0) || (to == Ready && PendingOf(b.queue[i]) > 0))
  }

  /** Being freed, or not, follows the count: a truthful record stays truthful when another task settles. */
  lemma FreeingKeepsTruth(d: Task, d': Task, id: string, settled: set<string>)
    requires id !in settled && Truthful(d, settled) && Follows(d, d', id, settled + {id})
    ensures Truthful(d', settled + {id})
  {
    UnsettledZero(d.blockedBy, settled + {id});
    UnsettledAfter(d.blockedBy, settled, id);
  }

  lemma SettlingKeepsTruth(b: Board, i: nat, to: State, actor: string)
    requires Inv(b) && AllTruthful(b) && i < |b.queue| && Terminal(to)
    ensures AllTruthful(Transit(b, i, to, actor))
  {
    var b' := Transit(b, i, to, actor);
    var id := b.queue[i].id;
    assert b.queue[i] in b.queue;
    forall x | 0 <= x < |b'.queue|
      ensures Truthful(b'.queue[x], b.settled + {id})
    {
      var d := b.queue[Was(i, x)];
      assert d in b.queue;
      SettlingMovesFrontier(b, i, to, actor, x);
      FreeingKeepsTruth(d, b'.queue[x], id, b.settled);
    }
  }

  lemma MovingKeepsTruth(b: Board, i: nat, to: State, actor: string)
    requires AllTruthful(b) && i < |b.queue| && !Terminal(to)
    ensures AllTruthful(Transit(b, i, to, actor)) <==> Truthful(Moved(b.queue[i], to, actor), b.settled)
  {
    var q := b.queue[i := Moved(b.queue[i], to, actor)];
    assert q[i] in q;
    forall t | t in q && t != q[i] ensures Truthful(t, b.settled) {
      var j :| 0 <= j < |q| && q[j] == t;
      assert b.queue[j] in b.queue;
    }
  }

  lemma TransitKeepsTruth(b: Board, i: nat, to: State, actor: string)
    requires Inv(b) && AllTruthful(b) && i < |b.queue|
    ensures AllTruthful(Transit(b, i, to, actor)) <==>
      !((to == Blocked && PendingOf(b.queue[i]) == 0) || (to == Ready && PendingOf(b.queue[i]) > 0))
  {
    if Terminal(to) {
      SettlingKeepsTruth(b, i, to, actor);
    } else {
      InvAt(b, i, i);
      MovingKeepsTruth(b, i, to, actor);
    }
  }

  /** A transition keeps the states truthful exactly when it does not override the counter. */
  lemma ApplyKeepsTruth(b: Board, id: string, from: State, to: State, evidence: bool, repair: bool, actor: string)
    requires Inv(b) && AllTruthful(b)
    ensures AllTruthful(Apply(b, id, from, to, evidence, repair, actor)) <==> !Overrides(b, id, from, to, evidence, repair)
  {
    match Find(b.queue, id)
    case None =>
    case Some(i) => TransitKeepsTruth(b, i, to, actor);
  }

  /** `d` waits for `x`, which is being worked on. */
  function Waiting(): Board {
    Board([Task("x", InProgress, [], ["d"], Some(0), UNTOUCHED, []),
           Task("d", Blocked, ["x"], [], Some(1), UNTOUCHED, [])], {})
  }

  lemma WaitingEdges(q: seq<Task>)
    requires q == Waiting().queue
    ensures DistinctIds(q) && Inverse(q)
  {
    forall i, j | 0 <= i < |q| && 0 <= j < |q|
      ensures multiset(q[i].blocks)[q[j].id] == multiset(q[j].blockedBy)[q[i].id]
    {
      if i == 0 && j == 1 {
        assert q[i].blocks == ["d"] && q[j].blockedBy == ["x"];
      }
    }
  }

  lemma WaitingCounts()
    ensures Unsettled([], {}) == 0 && Unsettled(["x"], {}) == 1
  {
    assert ["x"][..0] == [];
  }

  lemma WaitingIsSound()
    ensures Inv(Waiting()) && AllTruthful(Waiting())
  {
    var b := Waiting();
    WaitingEdges(b.queue);
    WaitingCounts();
    forall t | t in b.queue
      ensures t.id !in b.settled && !Terminal(t.state) && PendingOf(t) == Unsettled(t.blockedBy, b.settled) && Truthful(t, b.settled)
    {
      assert t == b.queue[0] || t == b.queue[1];
    }
  }

  /** The lifecycle table lets a blocked task be called ready by hand, no repair needed: `d` is then ready, and `x` is
      not done. */
  lemma LegalOverride(actor: string)
    ensures var b := Waiting();
            && Inv(b) && AllTruthful(b) && Ready in LegalTargets(Blocked)
            && Overrides(b, "d", Blocked, Ready, false, false)
            && !AllTruthful(Apply(b, "d", Blocked, Ready, false, false, actor))
  {
    var b := Waiting();
    WaitingIsSound();
    assert Find(b.queue[1..], "d") == Some(0);
    assert Find(b.queue, "d") == Some(1);
    ApplyKeepsTruth(b, "d", Blocked, Ready, false, false, actor);
  }

  lemma RebuiltTruth(b: Board, q: seq<Task>)
    requires forall t :: t in q ==> Truthful(t, b.settled)
    ensures AllTruthful(b.(queue := BuildBlocks(q)))
  {
    var q' := BuildBlocks(q);
    forall t | t in q' ensures Truthful(t, b.settled) {
      var i :| 0 <= i < |q'| && q'[i] == t;
      assert q[i] in q;
    }
  }

  lemma IntakeKeepsTruth(b: Board, id: string, blockedBy: seq<string>)
    requires Inv(b) && AllTruthful(b)
    ensures AllTruthful(Admit(b, id, blockedBy)) && AllTruthful(Reingest(b, id, blockedBy))
  {
    IntakeCounts(b, blockedBy);
    RebuiltTruth(b, b.queue + [NewTask(b, id, blockedBy)]);
    match Find(b.queue, id)
    case None =>
    case Some(i) =>
      var q := b.queue[i := Renewed(b, b.queue[i], blockedBy)];
      forall u | u in q ensures Truthful(u, b.settled) {
        var j :| 0 <= j < |q| && q[j] == u;
        assert b.queue[j] in b.queue;
      }
      RebuiltTruth(b, q);
  }

  lemma AnnotateKeepsTruth(b: Board, id: string, run: Footprint)
    requires AllTruthful(b)
    ensures AllTruthful(Annotate(b, id, run))
  {
    var q := Annotate(b, id, run).queue;
    forall t | t in q ensures Truthful(t, b.settled) {
      var j :| 0 <= j < |q| && q[j] == t;
      assert b.queue[j] in b.queue;
    }
  }

  // ---- whole runs --------------------------------------------------------------------------------------------

  datatype Command =
    | Add(id: string, blockedBy: seq<string>)
    | Again(id: string, blockedBy: seq<string>)
    | Mark(id: string, run: Footprint)
    | Move(id: string, from: State, to: State, evidence: bool, repair: bool, actor: string)

  function Step(b: Board, c: Command): Board {
    match c
    case Add(id, blockedBy) => Admit(b, id, blockedBy)
    case Again(id, blockedBy) => Reingest(b, id, blockedBy)
    case Mark(id, run) => Annotate(b, id, run)
    case Move(id, from, to, evidence, repair, actor) => Apply(b, id, from, to, evidence, repair, actor)
  }

  function Run(b: Board, commands: seq<Command>): Board
    decreases |commands|
  {
    if commands == [] then b else Run(Step(b, commands[0]), commands[1..])
  }

  lemma StepKeepsInv(b: Board, c: Command)
    requires Inv(b)
    ensures Inv(Step(b, c))
  {
    match c
    case Add(id, blockedBy) => AdmitKeepsInv(b, id, blockedBy);
    case Again(id, blockedBy) => ReingestKeepsInv(b, id, blockedBy);
    case Mark(id, run) => AnnotateKeepsInv(b, id, run);
    case Move(id, from, to, evidence, repair, actor) => ApplyKeepsInv(b, id, from, to, evidence, repair, actor);
  }

  /** Over every run of intakes, re-ingestions and transitions, legal or refused, from any sound board: the incremental
      counter of each task is the number of its unsettled blockers, and `blocks` is the inverse of `blocked_by`. */
  lemma {:induction false} EveryRunIsExact(b: Board, commands: seq<Command>)
    requires Inv(b)
    ensures Inv(Run(b, commands))
    decreases |commands|
  {
    if commands != [] {
      StepKeepsInv(b, commands[0]);
      EveryRunIsExact(Step(b, commands[0]), commands[1..]);
    }
  }

  ghost predicate NeverOverrides(b: Board, commands: seq<Command>)
    decreases |commands|
  {
    commands == [] ||
    (&& (commands[0].Move? ==> !Overrides(b, commands[0].id, commands[0].from, commands[0].to, commands[0].evidence, commands[0].repair))
     && NeverOverrides(Step(b, commands[0]), commands[1..]))
  }

  /** The states are truthful at every moment of the run. */
  ghost predicate TruthfulThroughout(b: Board, commands: seq<Command>)
    decreases |commands|
  {
    AllTruthful(b) && (commands == [] || TruthfulThroughout(Step(b, commands[0]), commands[1..]))
  }

  lemma StepKeepsTruthIff(b: Board, c: Command)
    requires Inv(b) && AllTruthful(b)
    ensures AllTruthful(Step(b, c)) <==> (c.Move? ==> !Overrides(b, c.id, c.from, c.to, c.evidence, c.repair))
  {
    match c
    case Add(id, blockedBy) => IntakeKeepsTruth(b, id, blockedBy);
    case Again(id, blockedBy) => IntakeKeepsTruth(b, id, blockedBy);
    case Mark(id, run) => AnnotateKeepsTruth(b, id, run);
    case Move(id, from, to, evidence, repair, actor) => ApplyKeepsTruth(b, id, from, to, evidence, repair, actor);
  }

  /** Over every run, no task is ever ready that still has an unsettled blocker, or blocked without one, exactly when no
      command of the run overrides the counter. */
  lemma {:induction false} EveryRunIsTruthfulIff(b: Board, commands: seq<Command>)
    requires Inv(b) && AllTruthful(b)
    ensures TruthfulThroughout(b, commands) <==> NeverOverrides(b, commands)
    ensures NeverOverrides(b, commands) ==> AllTruthful(Run(b, commands))
    decreases |commands|
  {
    if commands != [] {
      var b' := Step(b, commands[0]);
      StepKeepsInv(b, commands[0]);
      StepKeepsTruthIff(b, commands[0]);
      if AllTruthful(b') {
        EveryRunIsTruthfulIff(b', commands[1..]);
      } else {
        assert !TruthfulThroughout(b', commands[1..]);
      }
    }
  }

  // ---- progress ----------------------------------------------------------------------------------------------

  /** Every blocker is on the board or settled. */
  ghost predicate Closed(b: Board) {
    forall t, x :: t in b.queue && x in t.blockedBy ==> x in b.settled || x in IdsOf(b.queue)
  }

  /** `blocked_by` is acyclic on the board: blockers rank lower. */
  ghost predicate Ranked(b: Board, rank: map<string, nat>) {
    forall t :: t in b.queue ==>
      t.id in rank && forall x :: x in t.blockedBy && x in IdsOf(b.queue) ==> x in rank && rank[x] < rank[t.id]
  }

  lemma {:induction false} LowestRank(q: seq<Task>, rank: map<string, nat>) returns (low: Task)
    requires q != [] && forall t :: t in q ==> t.id in rank
    ensures low in q && forall t :: t in q ==> rank[low.id] <= rank[t.id]
  {
    var n := |q| - 1;
    assert q == q[..n] + [q[n]];
    low := q[n];
    if n > 0 {
      var rest := LowestRank(q[..n], rank);
      low := if rank[rest.id] < rank[q[n].id] then rest else q[n];
    }
  }

  /** On a closed, acyclic board with work left and truthful states, some task is not waiting for anybody. */
  lemma SomebodyIsFree(b: Board, rank: map<string, nat>)
    requires Inv(b) && AllTruthful(b) && Closed(b) && Ranked(b, rank) && b.queue != []
    ensures exists t :: t in b.queue && t.state != Blocked && PendingOf(t) == 0
  {
    var low := LowestRank(b.queue, rank);
    forall x | x in low.blockedBy ensures x in b.settled {
      if x in IdsOf(b.queue) {
        assert false;
      }
    }
    UnsettledZero(low.blockedBy, b.settled);
  }
}
