/**
 The repair pass: planning changes from derived states and recounts, and applying them one at a time while other
 writers' transitions may come in between.
 */
module Heal {
  import opened Wrappers
  import opened Lifecycle
  import opened BoardSteps
  import opened Frontier
  import D = Derivation

  // ---- planning ----------------------------------------------------------------------------------------------

  /** How many of the blockers are in `ids`. */
  function Among(blockers: seq<string>, ids: set<string>): nat {
    if blockers == [] then 0
    else Among(blockers[..|blockers| - 1], ids) + (if blockers[|blockers| - 1] in ids then 1 else 0)
  }

  /** The ids that can still hold somebody back: on the board, in a record that is not terminal. */
  function Holding(q: seq<Task>): set<string> {
    IdsOf(q) - set t | t in q && Terminal(t.state) :: t.id
  }

  datatype Change = Change(id: string, from: State, to: State, repair: bool, pending: Option<nat>)

  /** The state a record should be moved to, and whether the move is a repair. */
  function Correction(stored: State, derived: D.Status): Option<(State, bool)> {
    if derived == D.Merged && stored != Merged then Some((Merged, false))
    else if derived == D.Ready && stored in {Failed, Blocked, Planned} then Some((Ready, true))
    else if derived == D.Ready && stored in {InProgress, AwaitingMerge} then Some((Ready, true))
    else if derived == D.Blocked && stored in {InProgress, AwaitingMerge} then Some((Blocked, true))
    else None
  }

  /** A quarantined record is left alone; a counter that is off is recounted with the move, or alone. */
  function ChangeFor(t: Task, derived: D.Status, holding: set<string>): Option<Change> {
    if t.state == Quarantined then None
    else
      var n := Among(t.blockedBy, holding);
      var pending := if n != PendingOf(t) then Some(n) else None;
      match Correction(t.state, derived)
      case Some((to, repair)) => Some(Change(t.id, t.state, to, repair, pending))
      case None => if pending.Some? then Some(Change(t.id, t.state, t.state, false, pending)) else None
  }

  function Plan(q: seq<Task>, derived: map<string, D.Status>, holding: set<string>): seq<Change>
    requires forall t :: t in q ==> t.id in derived
  {
    if q == [] then []
    else
      var last := q[|q| - 1];
      var change := ChangeFor(last, derived[last.id], holding);
      Plan(q[..|q| - 1], derived, holding) + (if change.Some? then [change.value] else [])
  }

  /** The lifecycle state that a derived state stands for, where there is one. */
  function StateOf(derived: D.Status): Option<State> {
    match derived
    case Merged => Some(Merged)
    case InProgress => Some(InProgress)
    case Ready => Some(Ready)
    case Blocked => Some(Blocked)
    case Drift => None
  }

  /** A planned change aims at the record's own state or at the derived one, never moves a merged or a quarantined record,
      and leaves the record, once made, with the counted counter and nothing more to plan for it. */
  lemma PlanConverges(t: Task, derived: D.Status, holding: set<string>)
    ensures match ChangeFor(t, derived, holding)
            case None => t.state == Quarantined || PendingOf(t) == Among(t.blockedBy, holding)
            case Some(c) =>
              var t' := Recounted(t, c).(state := c.to);
              && t.state != Quarantined && c.id == t.id && (c.to == t.state || Some(c.to) == StateOf(derived))
              && (t.state == Merged ==> c.to == Merged) && (c.repair ==> c.to == Ready || c.to == Blocked)
              && PendingOf(t') == Among(t.blockedBy, holding) && ChangeFor(t', derived, holding) == None
  {
  }

  // ---- applying ----------------------------------------------------------------------------------------------

  function Recounted(t: Task, c: Change): Task {
    if c.pending.Some? then t.(pending := c.pending) else t
  }

  /** One change on the board as it is now; a refused move persists nothing, not even the recount. */
  function Fix(b: Board, c: Change, evidence: bool): Board {
    match Find(b.queue, c.id)
    case None => b
    case Some(i) =>
      var b' := b.(queue := b.queue[i := Recounted(b.queue[i], c)]);
      if b.queue[i].state == c.to then b'
      else if Permitted(b'.queue[i], b.queue[i].state, c.to, evidence, c.repair) then Transit(b', i, c.to, "heal")
      else b
  }

  /** What can happen between two changes of a pass: another writer moves a task. */
  datatype Act =
    | Apply(change: Change, evidence: bool)
    | Other(id: string, from: State, to: State, proof: bool, repair: bool, actor: string)

  function Step(b: Board, a: Act): Board {
    match a
    case Apply(change, evidence) => Fix(b, change, evidence)
    case Other(id, from, to, proof, repair, actor) => BoardSteps.Apply(b, id, from, to, proof, repair, actor)
  }

  // ---- counters that err on the safe side --------------------------------------------------------------------

  /** No list mentions a task more often than the task names it. */
  ghost predicate Mentions(q: seq<Task>) {
    forall i, j :: 0 <= i < |q| && 0 <= j < |q| ==> multiset(q[i].blocks)[q[j].id] <= multiset(q[j].blockedBy)[q[i].id]
  }

  /** No counter is below the number of blockers on the board, and no `blocks` list mentions a task more often than
      that task names the blocker. */
  ghost predicate Safe(b: Board) {
    DistinctIds(b.queue) && Mentions(b.queue) && forall t :: t in b.queue ==> SafeRecord(t, IdsOf(b.queue))
  }

  predicate SafeRecord(t: Task, ids: set<string>) {
    !Terminal(t.state) && Among(t.blockedBy, ids) <= PendingOf(t)
  }

  lemma {:induction false} AmongLess(blockers: seq<string>, ids: set<string>, id: string)
    requires id in ids
    ensures Among(blockers, ids) == Among(blockers, ids - {id}) + multiset(blockers)[id]
  {
    if blockers != [] {
      var n := |blockers| - 1;
      AmongLess(blockers[..n], ids, id);
      assert blockers == blockers[..n] + [blockers[n]];
    }
  }

  lemma {:induction false} AmongZero(blockers: seq<string>, ids: set<string>)
    ensures Among(blockers, ids) == 0 <==> forall x :: x in blockers ==> x !in ids
  {
    if blockers != [] {
      var n := |blockers| - 1;
      AmongZero(blockers[..n], ids);
      assert blockers == blockers[..n] + [blockers[n]];
    }
  }

  /** A count made earlier is never too low, and it is still right exactly when none of the blockers has left since. */
  lemma {:induction false} AmongShrinks(blockers: seq<string>, before: set<string>, now: set<string>)
    requires now <= before
    ensures Among(blockers, now) <= Among(blockers, before)
    ensures Among(blockers, now) == Among(blockers, before) <==> forall x :: x in blockers && x in before ==> x in now
  {
    if blockers != [] {
      var n := |blockers| - 1;
      AmongShrinks(blockers[..n], before, now);
      assert blockers == blockers[..n] + [blockers[n]];
    }
  }

  /** Exact boards are safe. */
  lemma ExactIsSafe(b: Board)
    requires Inv(b)
    ensures Safe(b)
  {
    forall t | t in b.queue ensures Among(t.blockedBy, IdsOf(b.queue)) <= PendingOf(t) {
      AmongIsUnsettled(t.blockedBy, IdsOf(b.queue), b.settled);
    }
  }

  lemma {:induction false} AmongIsUnsettled(blockers: seq<string>, ids: set<string>, settled: set<string>)
    requires ids !! settled
    ensures Among(blockers, ids) <= Unsettled(blockers, settled)
  {
    if blockers != [] {
      AmongIsUnsettled(blockers[..|blockers| - 1], ids, settled);
    }
  }

  // ---- one settling ------------------------------------------------------------------------------------------

  /** The same record, with a safe counter, in its old state unless nothing it waits for is left among `ids`. */
  predicate Kept(d: Task, d': Task, ids: set<string>) {
    && d'.id == d.id && d'.blockedBy == d.blockedBy && d'.blocks == d.blocks
    && Among(d.blockedBy, ids) <= PendingOf(d')
    && (d'.state == d.state || (d'.state == Ready && forall x :: x in d.blockedBy ==> x !in ids))
  }

  /** Whoever is mentioned no more often than it names the task that leaves keeps a safe counter, and is freed only if
      nothing it waits for is left on the board. */
  lemma ReleasedStaysSafe(d: Task, n: nat, id: string, ids: set<string>)
    requires id in ids && n <= multiset(d.blockedBy)[id] && Among(d.blockedBy, ids) <= PendingOf(d)
    ensures Kept(d, Released(d, n), ids - {id})
  {
    ReleasedIs(d, n);
    AmongLess(d.blockedBy, ids, id);
    AmongZero(d.blockedBy, ids - {id});
  }

  /** What a settling leaves of the record that was at `Was(i, x)`. */
  lemma SettlingKeepsOneSafe(b: Board, i: nat, to: State, actor: string, x: nat)
    requires Safe(b) && i < |b.queue| && Terminal(to) && x + 1 < |b.queue|
    ensures |Transit(b, i, to, actor).queue| == |b.queue| - 1
    ensures Kept(b.queue[Was(i, x)], Transit(b, i, to, actor).queue[x], IdsOf(b.queue) - {b.queue[i].id})
  {
    var j := Was(i, x);
    var n := multiset(b.queue[i].blocks)[b.queue[j].id];
    assert b.queue[i] in b.queue && b.queue[j] in b.queue;
    assert n <= multiset(b.queue[j].blockedBy)[b.queue[i].id];
    SettlingReleases(b, i, to, actor, x);
    ReleasedStaysSafe(b.queue[j], n, b.queue[i].id, IdsOf(b.queue));
  }

  lemma SettlingKeepsSafe(b: Board, i: nat, to: State, actor: string)
    requires Safe(b) && i < |b.queue| && Terminal(to)
    ensures Safe(Transit(b, i, to, actor))
  {
    var q' := Transit(b, i, to, actor).queue;
    TransitIds(b, i, to, actor);
    forall x | 0 <= x < |q'|
      ensures var d := b.queue[Was(i, x)];
              && q'[x].id == d.id && q'[x].blockedBy == d.blockedBy && q'[x].blocks == d.blocks
              && !Terminal(q'[x].state) && Among(q'[x].blockedBy, IdsOf(q')) <= PendingOf(q'[x])
    {
      SettlingKeepsOneSafe(b, i, to, actor, x);
      assert b.queue[Was(i, x)] in b.queue;
    }
  }

  // ---- what every step of a pass keeps -----------------------------------------------------------------------

  /** Every task left is one that was there, waiting for the same blockers. */
  ghost predicate Shrinks(b: Board, b': Board) {
    && IdsOf(b'.queue) <= IdsOf(b.queue)
    && forall t' :: t' in b'.queue ==> exists t :: t in b.queue && t.id == t'.id && t.blockedBy == t'.blockedBy
  }

  /** Nothing `t` waits for is left on the board, except what is `merged`. */
  ghost predicate Justified(b: Board, t: Task, merged: set<string>) {
    forall x :: x in t.blockedBy ==> x !in IdsOf(b.queue) || x in merged
  }

  /** Still good on this board: the recount is not too low, and a task may be made ready. */
  ghost predicate Sound(b: Board, c: Change, merged: set<string>) {
    forall t :: t in b.queue && t.id == c.id ==>
      && (c.pending.Some? ==> Among(t.blockedBy, IdsOf(b.queue)) <= c.pending.value)
      && (c.to == Ready && c.from != Ready ==> Justified(b, t, merged))
  }

  /** Other writers' progress does not spoil a planned change. */
  lemma SoundnessLasts(b: Board, b': Board, c: Change, merged: set<string>)
    requires Shrinks(b, b') && Sound(b, c, merged)
    ensures Sound(b', c, merged)
  {
    forall t' | t' in b'.queue && t'.id == c.id
      ensures c.pending.Some? ==> Among(t'.blockedBy, IdsOf(b'.queue)) <= c.pending.value
      ensures c.to == Ready && c.from != Ready ==> Justified(b', t', merged)
    {
      var t :| t in b.queue && t.id == t'.id && t.blockedBy == t'.blockedBy;
      AmongShrinks(t.blockedBy, IdsOf(b.queue), IdsOf(b'.queue));
    }
  }

  /** The change leaves a ready record's state alone: only its counter is off. */
  predicate RecountsReady(c: Change) { c.from == Ready && c.to == Ready }

  /** A change that was to leave a record ready finds that others have moved it on, may move it back, and something it waits
      for is left. */
  ghost predicate Overtaken(b: Board, c: Change, evidence: bool, merged: set<string>) {
    c.to == Ready && exists t :: t in b.queue && t.id == c.id && t.state != Ready
                                 && Permitted(t, t.state, Ready, evidence, c.repair) && !Justified(b, t, merged)
  }

  /** Who is ready after a step: it was before, its blockers allow it, another writer set it by hand, or it is the record of a
      change that has been overtaken. */
  ghost predicate Entitled(b: Board, a: Act, b': Board, t': Task, merged: set<string>) {
    || (exists t :: t in b.queue && t.id == t'.id && t.state == Ready)
    || Justified(b', t', merged)
    || (a.Other? && a.id == t'.id && a.to == Ready)
    || (a.Apply? && a.change.id == t'.id && Overtaken(b, a.change, a.evidence, merged))
  }

  ghost predicate StepIsSafe(b: Board, a: Act, b': Board, merged: set<string>) {
    && Safe(b') && Shrinks(b, b')
    && forall t' :: t' in b'.queue && t'.state == Ready ==> Entitled(b, a, b', t', merged)
  }

  /** A record kept through a settling is entitled to be ready whenever it is. */
  lemma KeptIsEntitled(b: Board, a: Act, b': Board, d: Task, d': Task, merged: set<string>)
    requires d in b.queue && Kept(d, d', IdsOf(b'.queue))
    ensures exists t :: t in b.queue && t.id == d'.id && t.blockedBy == d'.blockedBy
    ensures d'.state == Ready ==> Entitled(b, a, b', d', merged)
  {
  }

  lemma SettlingIsSafe(b: Board, a: Act, i: nat, to: State, actor: string, merged: set<string>)
    requires Safe(b) && i < |b.queue| && Terminal(to)
    ensures StepIsSafe(b, a, Transit(b, i, to, actor), merged)
  {
    var b' := Transit(b, i, to, actor);
    SettlingKeepsSafe(b, i, to, actor);
    TransitIds(b, i, to, actor);
    forall x | 0 <= x < |b'.queue|
      ensures exists t :: t in b.queue && t.id == b'.queue[x].id && t.blockedBy == b'.queue[x].blockedBy
      ensures b'.queue[x].state == Ready ==> Entitled(b, a, b', b'.queue[x], merged)
    {
      assert Kept(b.queue[Was(i, x)], b'.queue[x], IdsOf(b'.queue)) by {
        SettlingKeepsOneSafe(b, i, to, actor, x);
      }
      KeptIsEntitled(b, a, b', b.queue[Was(i, x)], b'.queue[x], merged);
    }
  }

  lemma MentionsSurvive(q: seq<Task>, q': seq<Task>)
    requires Mentions(q) && |q'| == |q|
    requires forall x :: 0 <= x < |q| ==> q'[x].id == q[x].id && q'[x].blocks == q[x].blocks && q'[x].blockedBy == q[x].blockedBy
    ensures Mentions(q')
  {
  }

  lemma SameListsShrink(b: Board, b': Board)
    requires |b'.queue| == |b.queue|
    requires forall x :: 0 <= x < |b.queue| ==> b'.queue[x].id == b.queue[x].id && b'.queue[x].blockedBy == b.queue[x].blockedBy
    ensures Shrinks(b, b')
  {
    SameIds(b.queue, b'.queue);
    forall t' | t' in b'.queue ensures exists t :: t in b.queue && t.id == t'.id && t.blockedBy == t'.blockedBy {
      var x :| 0 <= x < |b'.queue| && b'.queue[x] == t';
      assert b.queue[x] in b.queue;
    }
  }

  lemma DistinctSurvive(q: seq<Task>, q': seq<Task>)
    requires DistinctIds(q) && |q'| == |q| && forall x :: 0 <= x < |q| ==> q'[x].id == q[x].id
    ensures DistinctIds(q')
  {
  }

  /** Replacing one record by one with the same id, lists and a safe counter. */
  lemma ReplacingKeepsSafe(b: Board, i: nat, t': Task)
    requires Safe(b) && i < |b.queue|
    requires var t := b.queue[i]; t'.id == t.id && t'.blockedBy == t.blockedBy && t'.blocks == t.blocks
    requires SafeRecord(t', IdsOf(b.queue))
    ensures var b' := b.(queue := b.queue[i := t']); Safe(b') && Shrinks(b, b') && IdsOf(b'.queue) == IdsOf(b.queue)
  {
    var q' := b.queue[i := t'];
    SameIds(b.queue, q');
    assert DistinctIds(q') by { DistinctSurvive(b.queue, q'); }
    assert Mentions(q') by { MentionsSurvive(b.queue, q'); }
    assert Shrinks(b, b.(queue := q')) by { SameListsShrink(b, b.(queue := q')); }
    forall u | u in q' ensures SafeRecord(u, IdsOf(b.queue)) {
      assert u == t' || u in b.queue;
    }
  }

  lemma SameIds(q: seq<Task>, q': seq<Task>)
    requires |q'| == |q| && forall x :: 0 <= x < |q| ==> q'[x].id == q[x].id
    ensures IdsOf(q') == IdsOf(q)
  {
    forall id ensures id in IdsOf(q') <==> id in IdsOf(q) {
      if t' :| t' in q' && t'.id == id {
        var x :| 0 <= x < |q'| && q'[x] == t';
        assert q[x] in q;
      }
      if t :| t in q && t.id == id {
        var x :| 0 <= x < |q| && q[x] == t;
        assert q'[x] in q';
      }
    }
  }

  lemma MovingIsSafe(b: Board, a: Act, i: nat, to: State, actor: string, merged: set<string>)
    requires Safe(b) && i < |b.queue| && !Terminal(to)
    requires to == Ready ==>
      || Justified(b, b.queue[i], merged)
      || (a.Other? && a.id == b.queue[i].id && a.to == Ready)
      || (a.Apply? && a.change.id == b.queue[i].id && Overtaken(b, a.change, a.evidence, merged))
    ensures StepIsSafe(b, a, Transit(b, i, to, actor), merged)
  {
    var t' := Moved(b.queue[i], to, actor);
    var b' := b.(queue := b.queue[i := t']);
    assert b.queue[i] in b.queue;
    ReplacingKeepsSafe(b, i, t');
    forall u | u in b'.queue && u.state == Ready ensures Entitled(b, a, b', u, merged) {
      var x :| 0 <= x < |b'.queue| && b'.queue[x] == u;
      assert b.queue[x] in b.queue;
    }
  }

  lemma StepsCompose(b: Board, mid: Board, b': Board, a: Act, merged: set<string>)
    requires StepIsSafe(mid, a, b', merged) && Shrinks(b, mid)
    requires a.Apply? && Overtaken(mid, a.change, a.evidence, merged) ==> Overtaken(b, a.change, a.evidence, merged)
    requires forall t :: t in mid.queue && t.state == Ready ==> exists u :: u in b.queue && u.id == t.id && u.state == Ready
    ensures StepIsSafe(b, a, b', merged)
  {
    forall t' | t' in b'.queue
      ensures exists t :: t in b.queue && t.id == t'.id && t.blockedBy == t'.blockedBy
    {
      var t :| t in mid.queue && t.id == t'.id && t.blockedBy == t'.blockedBy;
    }
  }

  lemma StandingStillIsSafe(b: Board, a: Act, merged: set<string>)
    requires Safe(b)
    ensures StepIsSafe(b, a, b, merged)
  {
  }

  lemma RecountIsSafe(b: Board, c: Change, i: nat, merged: set<string>)
    requires Safe(b) && Sound(b, c, merged) && i < |b.queue| && b.queue[i].id == c.id
    ensures var mid := b.(queue := b.queue[i := Recounted(b.queue[i], c)]);
            && Safe(mid) && Shrinks(b, mid) && IdsOf(mid.queue) == IdsOf(b.queue)
            && forall t :: t in mid.queue && t.state == Ready ==> exists u :: u in b.queue && u.id == t.id && u.state == Ready
  {
    assert b.queue[i] in b.queue;
    ReplacingKeepsSafe(b, i, Recounted(b.queue[i], c));
    var mid := b.(queue := b.queue[i := Recounted(b.queue[i], c)]);
    forall t | t in mid.queue && t.state == Ready ensures exists u :: u in b.queue && u.id == t.id && u.state == Ready {
      var x :| 0 <= x < |mid.queue| && mid.queue[x] == t;
      assert b.queue[x] in b.queue;
    }
  }

  /** A recount does not decide whether its change has been overtaken. */
  lemma RecountIsOvertakenToo(b: Board, c: Change, evidence: bool, i: nat, merged: set<string>)
    requires DistinctIds(b.queue) && i < |b.queue| && b.queue[i].id == c.id
    ensures var mid := b.(queue := b.queue[i := Recounted(b.queue[i], c)]);
            Overtaken(mid, c, evidence, merged) <==> Overtaken(b, c, evidence, merged)
  {
    var mid := b.(queue := b.queue[i := Recounted(b.queue[i], c)]);
    SameIds(b.queue, mid.queue);
    OvertakenAt(b, c, evidence, i, merged);
    assert DistinctIds(mid.queue) by { DistinctSurvive(b.queue, mid.queue); }
    OvertakenAt(mid, c, evidence, i, merged);
  }

  lemma OvertakenAt(b: Board, c: Change, evidence: bool, i: nat, merged: set<string>)
    requires DistinctIds(b.queue) && i < |b.queue| && b.queue[i].id == c.id
    ensures var t := b.queue[i];
            Overtaken(b, c, evidence, merged) <==>
              c.to == Ready && t.state != Ready && Permitted(t, t.state, Ready, evidence, c.repair) && !Justified(b, t, merged)
  {
    assert b.queue[i] in b.queue;
    forall t | t in b.queue && t.id == c.id ensures t == b.queue[i] {
      var j :| 0 <= j < |b.queue| && b.queue[j] == t;
    }
  }

  /** A change that moves its record to ready is justified on the board it finds, or has been overtaken. */
  lemma MoveToReady(b: Board, c: Change, evidence: bool, i: nat, merged: set<string>)
    requires DistinctIds(b.queue) && i < |b.queue| && b.queue[i].id == c.id && c.to == Ready && b.queue[i].state != Ready
    requires Permitted(b.queue[i], b.queue[i].state, Ready, evidence, c.repair)
    ensures Justified(b, b.queue[i], merged) || Overtaken(b, c, evidence, merged)
  {
    OvertakenAt(b, c, evidence, i, merged);
  }

  /** The move of a change that is let through, on the recounted board. */
  lemma FixMoveIsSafe(mid: Board, c: Change, evidence: bool, i: nat, merged: set<string>)
    requires Safe(mid) && i < |mid.queue| && mid.queue[i].id == c.id && mid.queue[i].state != c.to
    requires Permitted(mid.queue[i], mid.queue[i].state, c.to, evidence, c.repair)
    ensures StepIsSafe(mid, Apply(c, evidence), Transit(mid, i, c.to, "heal"), merged)
  {
    if Terminal(c.to) {
      SettlingIsSafe(mid, Apply(c, evidence), i, c.to, "heal", merged);
    } else {
      if c.to == Ready { MoveToReady(mid, c, evidence, i, merged); }
      MovingIsSafe(mid, Apply(c, evidence), i, c.to, "heal", merged);
    }
  }

  /** What one change of a pass is on a board that holds its record. */
  lemma FixIs(b: Board, c: Change, evidence: bool, i: nat)
    requires Find(b.queue, c.id) == Some(i) && i < |b.queue|
    ensures var mid := b.(queue := b.queue[i := Recounted(b.queue[i], c)]);
            Fix(b, c, evidence) ==
              if b.queue[i].state == c.to then mid
              else if Permitted(mid.queue[i], mid.queue[i].state, c.to, evidence, c.repair) then Transit(mid, i, c.to, "heal")
              else b
  {
  }

  lemma FixIsSafe(b: Board, c: Change, evidence: bool, merged: set<string>)
    requires Safe(b) && Sound(b, c, merged)
    ensures StepIsSafe(b, Apply(c, evidence), Fix(b, c, evidence), merged)
  {
    var a, b' := Apply(c, evidence), Fix(b, c, evidence);
    if b' == b {
      StandingStillIsSafe(b, a, merged);
    } else {
      var i := Find(b.queue, c.id).value;
      var mid := b.(queue := b.queue[i := Recounted(b.queue[i], c)]);
      FixIs(b, c, evidence, i);
      RecountIsSafe(b, c, i, merged);
      RecountIsOvertakenToo(b, c, evidence, i, merged);
      if b.queue[i].state == c.to {
        StandingStillIsSafe(mid, a, merged);
      } else {
        FixMoveIsSafe(mid, c, evidence, i, merged);
      }
      StepsCompose(b, mid, b', a, merged);
    }
  }

  lemma OtherIsSafe(b: Board, a: Act, merged: set<string>)
    requires Safe(b) && a.Other?
    ensures StepIsSafe(b, a, Step(b, a), merged)
  {
    StandingStillIsSafe(b, a, merged);
    match Find(b.queue, a.id)
    case None =>
    case Some(i) =>
      if Permitted(b.queue[i], a.from, a.to, a.proof, a.repair) {
        if Terminal(a.to) {
          SettlingIsSafe(b, a, i, a.to, a.actor, merged);
        } else {
          MovingIsSafe(b, a, i, a.to, a.actor, merged);
        }
      }
  }

  // ---- the whole pass ----------------------------------------------------------------------------------------

  function FactsOf(git: map<string, D.Facts>, id: string): D.Facts {
    if id in git then git[id] else D.Facts(None, None, None, None, false)
  }

  /** The board as the derivation sees it. */
  function GraphOf(q: seq<Task>, git: map<string, D.Facts>): D.Graph {
    if q == [] then map[]
    else
      var last := q[|q| - 1];
      GraphOf(q[..|q| - 1], git)[last.id := D.Node(last.blockedBy, FactsOf(git, last.id))]
  }

  lemma {:induction false} GraphKeys(q: seq<Task>, git: map<string, D.Facts>)
    ensures GraphOf(q, git).Keys == IdsOf(q)
  {
    if q != [] {
      GraphKeys(q[..|q| - 1], git);
      assert q == q[..|q| - 1] + [q[|q| - 1]];
    }
  }

  lemma {:induction false} GraphNode(q: seq<Task>, git: map<string, D.Facts>, i: nat)
    requires DistinctIds(q) && i < |q|
    ensures q[i].id in GraphOf(q, git) && GraphOf(q, git)[q[i].id] == D.Node(q[i].blockedBy, FactsOf(git, q[i].id))
  {
    if i < |q| - 1 {
      GraphNode(q[..|q| - 1], git, i);
    }
  }

  lemma GraphAt(q: seq<Task>, git: map<string, D.Facts>)
    requires DistinctIds(q)
    ensures GraphOf(q, git).Keys == IdsOf(q)
    ensures forall t :: t in q ==> t.id in GraphOf(q, git) && GraphOf(q, git)[t.id] == D.Node(t.blockedBy, FactsOf(git, t.id))
  {
    GraphKeys(q, git);
    forall i | 0 <= i < |q|
      ensures q[i].id in GraphOf(q, git) && GraphOf(q, git)[q[i].id] == D.Node(q[i].blockedBy, FactsOf(git, q[i].id))
    {
      GraphNode(q, git, i);
    }
  }

  /** What `_derive_all_states` returns. */
  function Verdicts(q: seq<Task>, git: map<string, D.Facts>): map<string, D.Status> {
    var g := GraphOf(q, git);
    map id | id in g :: D.Derived(g, id)
  }

  function MergedIds(derived: map<string, D.Status>): set<string> {
    set id | id in derived && derived[id] == D.Merged
  }

  lemma {:induction false} PlanComesFromRecords(q: seq<Task>, derived: map<string, D.Status>, holding: set<string>, c: Change)
    requires (forall t :: t in q ==> t.id in derived) && c in Plan(q, derived, holding)
    ensures exists t :: t in q && ChangeFor(t, derived[t.id], holding) == Some(c)
  {
    if q != [] {
      var n := |q| - 1;
      if c in Plan(q[..n], derived, holding) {
        PlanComesFromRecords(q[..n], derived, holding, c);
      } else {
        assert q[n] in q;
      }
    }
  }

  /** A task derived ready waits for nothing on the board but merged work. */
  lemma ReadyIsJustified(b: Board, git: map<string, D.Facts>, t: Task)
    requires DistinctIds(b.queue) && t in b.queue
    ensures t.id in Verdicts(b.queue, git)
    ensures Verdicts(b.queue, git)[t.id] == D.Ready ==> Justified(b, t, MergedIds(Verdicts(b.queue, git)))
  {
    var g := GraphOf(b.queue, git);
    GraphAt(b.queue, git);
    if D.Derived(g, t.id) == D.Ready {
      forall x | x in t.blockedBy && x in IdsOf(b.queue) ensures x in MergedIds(Verdicts(b.queue, git)) {
        assert D.Cleared(g, x);
      }
    }
  }

  lemma NothingTerminalHolds(q: seq<Task>)
    requires forall t :: t in q ==> !Terminal(t.state)
    ensures Holding(q) == IdsOf(q)
  {
  }

  lemma ChangeIsSound(b: Board, t: Task, derived: D.Status, c: Change, merged: set<string>)
    requires DistinctIds(b.queue) && t in b.queue && ChangeFor(t, derived, IdsOf(b.queue)) == Some(c)
    requires derived == D.Ready ==> Justified(b, t, merged)
    ensures Sound(b, c, merged)
  {
    forall u | u in b.queue && u.id == c.id ensures u == t {}
  }

  /** Every planned change is sound on the board it was planned on. */
  lemma PlanIsSound(b: Board, git: map<string, D.Facts>, c: Change)
    requires Safe(b) && (forall t :: t in b.queue ==> t.id in Verdicts(b.queue, git))
    requires c in Plan(b.queue, Verdicts(b.queue, git), Holding(b.queue))
    ensures Sound(b, c, MergedIds(Verdicts(b.queue, git)))
  {
    NothingTerminalHolds(b.queue);
    PlannedIsSound(b, git, Verdicts(b.queue, git), c);
  }

  lemma PlannedIsSound(b: Board, git: map<string, D.Facts>, derived: map<string, D.Status>, c: Change)
    requires DistinctIds(b.queue) && derived == Verdicts(b.queue, git) && (forall t :: t in b.queue ==> t.id in derived)
    requires c in Plan(b.queue, derived, IdsOf(b.queue))
    ensures Sound(b, c, MergedIds(derived))
  {
    PlanComesFromRecords(b.queue, derived, IdsOf(b.queue), c);
    var t :| t in b.queue && ChangeFor(t, derived[t.id], IdsOf(b.queue)) == Some(c);
    ReadyIsJustified(b, git, t);
    ChangeIsSound(b, t, derived[t.id], c, MergedIds(derived));
  }

  /** The board after each act of a pass. */
  ghost predicate SafeAlong(b: Board, acts: seq<Act>, merged: set<string>)
    decreases |acts|
  {
    acts == [] || (StepIsSafe(b, acts[0], Step(b, acts[0]), merged) && SafeAlong(Step(b, acts[0]), acts[1..], merged))
  }

  lemma {:induction false} SoundPassIsSafe(b: Board, acts: seq<Act>, merged: set<string>)
    requires Safe(b)
    requires forall a :: a in acts && a.Apply? ==> Sound(b, a.change, merged)
    ensures SafeAlong(b, acts, merged)
    decreases |acts|
  {
    if acts != [] {
      var a := acts[0];
      var b' := Step(b, a);
      if a.Apply? {
        FixIsSafe(b, a.change, a.evidence, merged);
      } else {
        OtherIsSafe(b, a, merged);
      }
      forall a' | a' in acts[1..] && a'.Apply? ensures Sound(b', a'.change, merged) {
        SoundnessLasts(b, b', a'.change, merged);
      }
      SoundPassIsSafe(b', acts[1..], merged);
    }
  }
}
