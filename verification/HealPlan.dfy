/** What the repair pass plans, for whom it plans nothing, and the states it leaves behind when nobody interrupts it. */
module HealPlan {
  import opened Wrappers
  import opened Lifecycle
  import opened BoardSteps
  import opened Frontier
  import opened BoardEffects
  import opened Heal
  import opened HealTheorems
  import D = Derivation

  // ---- the plan is complete ----------------------------------------------------------------------------------

  /** The stored state needs no repair, given the derived one. */
  predicate Agrees(stored: State, derived: D.Status) {
    match derived
    case Merged => stored == Merged
    case Ready => stored == Ready || stored == Quarantined || Terminal(stored)
    case Blocked => stored != InProgress && stored != AwaitingMerge
    case InProgress => true
    case Drift => true
  }

  /** A record is moved exactly when its stored state disagrees with the derived one, to the derived state, as a repair unless
      that is `merged`; its counter is rewritten exactly when it is not the count; and nothing is planned for a quarantined
      record, or when there is nothing to do. */
  lemma PlannedExactlyWhenDue(t: Task, derived: D.Status, holding: set<string>)
    ensures var (change, n) := (ChangeFor(t, derived, holding), Among(t.blockedBy, holding));
            if t.state == Quarantined || (Agrees(t.state, derived) && PendingOf(t) == n) then change.None?
            else
              && change.Some? && change.value.id == t.id && change.value.from == t.state
              && (if Agrees(t.state, derived) then change.value.to == t.state && !change.value.repair
                  else Some(change.value.to) == StateOf(derived) && (change.value.repair <==> derived != D.Merged))
              && (change.value.pending == if PendingOf(t) == n then None else Some(n))
  {
  }

  /** A blocker holds somebody back exactly while a record of it that is not terminal is on the board. */
  lemma HoldingIff(q: seq<Task>, id: string)
    requires DistinctIds(q)
    ensures id in Holding(q) <==> exists t :: t in q && t.id == id && !Terminal(t.state)
  {
    if id in Holding(q) {
      var t :| t in q && t.id == id;
    }
    if t :| t in q && t.id == id && !Terminal(t.state) {
      forall u | u in q && u.id == id ensures u == t {
        FindAt(q, t);
        FindAt(q, u);
      }
    }
  }

  /** A counter that was never initialised counts every blocker, so it is never too low. */
  lemma AbsentCounterIsSafe(t: Task, ids: set<string>)
    requires t.pending.None? && !Terminal(t.state)
    ensures SafeRecord(t, ids) && PendingOf(t) == |t.blockedBy|
  {
    AmongBound(t.blockedBy, ids);
  }

  lemma {:induction false} AmongBound(blockers: seq<string>, ids: set<string>)
    ensures Among(blockers, ids) <= |blockers|
  {
    if blockers != [] {
      AmongBound(blockers[..|blockers| - 1], ids);
    }
  }

  lemma {:induction false} DueIsPlanned(q: seq<Task>, derived: map<string, D.Status>, holding: set<string>, t: Task)
    requires (forall u :: u in q ==> u.id in derived) && t in q && ChangeFor(t, derived[t.id], holding).Some?
    ensures ChangeFor(t, derived[t.id], holding).value in Plan(q, derived, holding)
  {
    var n := |q| - 1;
    if t != q[n] {
      assert q == q[..n] + [q[n]];
      DueIsPlanned(q[..n], derived, holding, t);
    }
  }

  // ---- one change, seen from one id --------------------------------------------------------------------------

  /** The state of the record with this id, if there is one. */
  function At(q: seq<Task>, id: string): Option<State> {
    match Find(q, id)
    case None => None
    case Some(i) => Some(q[i].state)
  }

  /** All that happens to a record when others settle: waiting, it may be released. */
  predicate AtMostReleased(s: Option<State>, s': Option<State>) {
    s' == s || (s' == Some(Ready) && (s == Some(Blocked) || s == Some(Planned)))
  }

  /** What a change does to the state of its own record. */
  predicate Repaired(s: Option<State>, c: Change, evidence: bool, s': Option<State>) {
    if s.None? || s.value == c.to then s' == s
    else if (c.repair || c.to in LegalTargets(s.value)) && (c.to == Merged ==> evidence)
    then s' == if Terminal(c.to) then None else Some(c.to)
    else s' == s
  }

  lemma AtIs(q: seq<Task>, i: nat)
    requires DistinctIds(q) && i < |q|
    ensures At(q, q[i].id) == Some(q[i].state)
  {
    FoundAt(q, i);
  }

  lemma SameAt(q: seq<Task>, q': seq<Task>, x: string)
    requires DistinctIds(q) && |q'| == |q| && forall i :: 0 <= i < |q| ==> q'[i].id == q[i].id && AtMostReleased(Some(q[i].state), Some(q'[i].state))
    ensures DistinctIds(q') && AtMostReleased(At(q, x), At(q', x))
  {
    match Find(q, x)
    case None =>
    case Some(i) =>
      assert q'[i].id == x;
      AtIs(q', i);
  }

  lemma {:induction false} ReleaseReleases(q: seq<Task>, blocks: seq<string>)
    ensures forall i :: 0 <= i < |q| ==>
      Release(q, blocks)[i].id == q[i].id && AtMostReleased(Some(q[i].state), Some(Release(q, blocks)[i].state))
  {
    if blocks != [] {
      ReleaseReleases(q, blocks[..|blocks| - 1]);
    }
  }

  lemma WithoutAt(q: seq<Task>, i: nat, x: string)
    requires DistinctIds(q) && i < |q|
    ensures DistinctIds(Without(q, i))
    ensures At(Without(q, i), x) == if x == q[i].id then None else At(q, x)
  {
    var q' := Without(q, i);
    forall j | 0 <= j < |q'| ensures q'[j] == q[if j < i then j else j + 1] {}
    match Find(q', x)
    case None =>
    case Some(j) => AtIs(q, if j < i then j else j + 1);
  }

  lemma TransitAt(b: Board, i: nat, to: State, actor: string, x: string)
    requires DistinctIds(b.queue) && i < |b.queue|
    ensures var q' := Transit(b, i, to, actor).queue;
            && DistinctIds(q')
            && if x == b.queue[i].id then At(q', x) == (if Terminal(to) then None else Some(to)) else AtMostReleased(At(b.queue, x), At(q', x))
  {
    var q := b.queue[i := Moved(b.queue[i], to, actor)];
    ReplacedAt(b.queue, i, q[i], x);
    if Terminal(to) {
      ReleaseReleases(q, q[i].blocks);
      SameAt(q, Release(q, q[i].blocks), x);
      WithoutAt(Release(q, q[i].blocks), i, x);
    }
  }

  lemma ReplacedAt(q: seq<Task>, i: nat, t: Task, x: string)
    requires DistinctIds(q) && i < |q| && t.id == q[i].id
    ensures DistinctIds(q[i := t]) && At(q[i := t], x) == if x == t.id then Some(t.state) else At(q, x)
  {
    var q' := q[i := t];
    match Find(q, x)
    case None =>
    case Some(j) => AtIs(q', j);
  }

  lemma FixAt(b: Board, c: Change, evidence: bool, x: string)
    requires DistinctIds(b.queue)
    ensures var q' := Fix(b, c, evidence).queue;
            && DistinctIds(q')
            && if x == c.id then Repaired(At(b.queue, x), c, evidence, At(q', x)) else AtMostReleased(At(b.queue, x), At(q', x))
  {
    match Find(b.queue, c.id)
    case None =>
    case Some(i) =>
      var mid := b.(queue := b.queue[i := Recounted(b.queue[i], c)]);
      ReplacedAt(b.queue, i, Recounted(b.queue[i], c), x);
      AtIs(b.queue, i);
      TransitAt(mid, i, c.to, "heal", x);
  }

  // ---- a pass that nobody interrupts -------------------------------------------------------------------------

  lemma {:induction false} PassUnnamed(b: Board, changes: seq<Change>, evidence: seq<bool>, n: nat, x: string)
    requires DistinctIds(b.queue) && n <= |changes| == |evidence|
    requires forall j :: n <= j < |changes| ==> changes[j].id != x
    ensures AtMostReleased(At(b.queue, x), At(Pass(b, changes, evidence, n).queue, x))
    decreases |changes| - n
  {
    if n < |changes| {
      FixAt(b, changes[n], evidence[n], x);
      PassUnnamed(Fix(b, changes[n], evidence[n]), changes, evidence, n + 1, x);
    }
  }

  /** The one change of a pass that is about `x` finds state `s` and leaves state `s'`. */
  lemma {:induction false} PassNamed(b: Board, changes: seq<Change>, evidence: seq<bool>, n: nat, k: nat, x: string)
    returns (s: Option<State>, s': Option<State>)
    requires DistinctIds(b.queue) && n <= k < |changes| == |evidence| && changes[k].id == x
    requires forall j :: n <= j < |changes| && j != k ==> changes[j].id != x
    ensures AtMostReleased(At(b.queue, x), s) && Repaired(s, changes[k], evidence[k], s')
    ensures AtMostReleased(s', At(Pass(b, changes, evidence, n).queue, x))
    decreases |changes| - n
  {
    var b' := Fix(b, changes[n], evidence[n]);
    FixAt(b, changes[n], evidence[n], x);
    if n == k {
      s, s' := At(b.queue, x), At(b'.queue, x);
      PassUnnamed(b', changes, evidence, n + 1, x);
    } else {
      s, s' := PassNamed(b', changes, evidence, n + 1, k, x);
    }
  }

  /** Merge evidence was found when the change for this id was made. */
  ghost predicate Proven(changes: seq<Change>, evidence: seq<bool>, id: string)
    requires |changes| == |evidence|
  {
    exists n :: 0 <= n < |changes| && changes[n].id == id && evidence[n]
  }

  /** Where a pass leaves a record: a quarantined one where it is; one derived merged off the board if it awaited its merge and
      the evidence holds; one derived ready ready; one derived blocked not at work; and otherwise as it was or released. */
  predicate Healed(s: State, derived: D.Status, proven: bool, s': Option<State>) {
    if s == Quarantined then s' == Some(s)
    else if derived == D.Merged && s == AwaitingMerge && proven then s' == None
    else if derived == D.Ready then s' == Some(Ready)
    else if derived == D.Blocked && (s == InProgress || s == AwaitingMerge) then s' == Some(Blocked) || s' == Some(Ready)
    else AtMostReleased(Some(s), s')
  }

  lemma UnplannedIsHealed(t: Task, derived: D.Status, holding: set<string>, proven: bool, s': Option<State>)
    requires !Terminal(t.state) && ChangeFor(t, derived, holding).None? && AtMostReleased(Some(t.state), s')
    ensures Healed(t.state, derived, proven, s')
  {
    PlannedExactlyWhenDue(t, derived, holding);
  }

  lemma PlannedIsHealed(t: Task, derived: D.Status, holding: set<string>, evidence: bool, s: Option<State>, r: Option<State>, s': Option<State>)
    requires !Terminal(t.state) && ChangeFor(t, derived, holding).Some?
    requires AtMostReleased(Some(t.state), s) && Repaired(s, ChangeFor(t, derived, holding).value, evidence, r) && AtMostReleased(r, s')
    ensures Healed(t.state, derived, evidence, s')
  {
    PlannedExactlyWhenDue(t, derived, holding);
  }

  lemma PlannedFor(q: seq<Task>, derived: map<string, D.Status>, holding: set<string>, c: Change, t: Task)
    requires DistinctIds(q) && (forall u :: u in q ==> u.id in derived) && c in Plan(q, derived, holding) && t in q
    ensures c.id == t.id ==> ChangeFor(t, derived[t.id], holding) == Some(c)
  {
    PlanComesFromRecords(q, derived, holding, c);
    var u :| u in q && ChangeFor(u, derived[u.id], holding) == Some(c);
    if c.id == t.id {
      FindAt(q, t);
      FindAt(q, u);
    }
  }

  lemma UndueIsHealed(b: Board, derived: map<string, D.Status>, holding: set<string>, changes: seq<Change>, evidence: seq<bool>, i: nat)
    requires DistinctIds(b.queue) && i < |b.queue| && !Terminal(b.queue[i].state) && |evidence| == |changes|
    requires (forall u :: u in b.queue ==> u.id in derived) && changes == Plan(b.queue, derived, holding)
    requires b.queue[i].id in derived && ChangeFor(b.queue[i], derived[b.queue[i].id], holding).None?
    ensures Healed(b.queue[i].state, derived[b.queue[i].id], Proven(changes, evidence, b.queue[i].id),
                   At(Pass(b, changes, evidence, 0).queue, b.queue[i].id))
  {
    var t := b.queue[i];
    assert t in b.queue;
    forall c | c in changes ensures c.id != t.id {
      PlannedFor(b.queue, derived, holding, c, t);
    }
    AtIs(b.queue, i);
    PassUnnamed(b, changes, evidence, 0, t.id);
    UnplannedIsHealed(t, derived[t.id], holding, Proven(changes, evidence, t.id), At(Pass(b, changes, evidence, 0).queue, t.id));
  }

  lemma DueIsHealed(b: Board, derived: map<string, D.Status>, holding: set<string>, changes: seq<Change>, evidence: seq<bool>, i: nat)
    requires DistinctIds(b.queue) && i < |b.queue| && !Terminal(b.queue[i].state) && |evidence| == |changes|
    requires (forall u :: u in b.queue ==> u.id in derived) && changes == Plan(b.queue, derived, holding)
    requires forall j, k :: 0 <= j < k < |changes| ==> changes[j].id != changes[k].id
    requires b.queue[i].id in derived && ChangeFor(b.queue[i], derived[b.queue[i].id], holding).Some?
    ensures Healed(b.queue[i].state, derived[b.queue[i].id], Proven(changes, evidence, b.queue[i].id),
                   At(Pass(b, changes, evidence, 0).queue, b.queue[i].id))
  {
    var t, change := b.queue[i], ChangeFor(b.queue[i], derived[b.queue[i].id], holding).value;
    DueIsPlanned(b.queue, derived, holding, t);
    var k :| 0 <= k < |changes| && changes[k] == change;
    PlannedExactlyWhenDue(t, derived[t.id], holding);
    AtIs(b.queue, i);
    var s, r := PassNamed(b, changes, evidence, 0, k, t.id);
    PlannedIsHealed(t, derived[t.id], holding, evidence[k], s, r, At(Pass(b, changes, evidence, 0).queue, t.id));
    assert Proven(changes, evidence, t.id) <==> evidence[k];
  }

  /** A pass left alone, from a board without terminal records, heals every record. */
  lemma LonePassHeals(b: Board, git: map<string, D.Facts>, evidence: seq<bool>, i: nat)
    requires DistinctIds(b.queue) && (forall t :: t in b.queue ==> !Terminal(t.state)) && |evidence| == |PlanFor(b, git)|
    requires i < |b.queue|
    ensures b.queue[i].id in Verdicts(b.queue, git)
    ensures var (t, changes) := (b.queue[i], PlanFor(b, git));
            Healed(t.state, Verdicts(b.queue, git)[t.id], Proven(changes, evidence, t.id), At(Pass(b, changes, evidence, 0).queue, t.id))
  {
    GraphAt(b.queue, git);
    assert b.queue[i] in b.queue;
    AtIs(b.queue, i);
    PlanHasOnePerTask(b, git);
    var derived := Verdicts(b.queue, git);
    if ChangeFor(b.queue[i], derived[b.queue[i].id], Holding(b.queue)).None? {
      UndueIsHealed(b, derived, Holding(b.queue), PlanFor(b, git), evidence, i);
    } else {
      DueIsHealed(b, derived, Holding(b.queue), PlanFor(b, git), evidence, i);
    }
  }

  /** A pass invents nobody. */
  lemma LonePassInventsNobody(b: Board, git: map<string, D.Facts>, evidence: seq<bool>, x: string)
    requires DistinctIds(b.queue) && |evidence| == |PlanFor(b, git)| && x !in IdsOf(b.queue)
    ensures At(Pass(b, PlanFor(b, git), evidence, 0).queue, x).None?
  {
    GraphAt(b.queue, git);
    forall c | c in PlanFor(b, git) ensures c.id != x {
      PlanComesFromRecords(b.queue, Verdicts(b.queue, git), Holding(b.queue), c);
    }
    PassUnnamed(b, PlanFor(b, git), evidence, 0, x);
  }

  // ---- how tasks settle in a pass ----------------------------------------------------------------------------

  /** One act of an interleaved pass settles this task. */
  ghost predicate SettledBy(b: Board, a: Act, id: string) {
    match a
    case Apply(c, evidence) =>
      c.id == id && Terminal(c.to) && exists t :: t in b.queue && t.id == id && t.state != c.to
                                                  && (c.repair || c.to in LegalTargets(t.state)) && (c.to == Merged ==> evidence)
    case Other(other, from, to, proof, repair, _) =>
      other == id && Terminal(to) && Admissible(b, id, from, to, proof, repair)
  }

  lemma FixSettlesIff(b: Board, c: Change, evidence: bool, id: string)
    requires DistinctIds(b.queue)
    ensures id in Fix(b, c, evidence).settled <==> id in b.settled || SettledBy(b, Act.Apply(c, evidence), id)
  {
    match Find(b.queue, c.id)
    case None =>
    case Some(i) =>
      var mid := b.(queue := b.queue[i := Recounted(b.queue[i], c)]);
      assert b.queue[i] in b.queue;
      forall t | t in b.queue && t.id == c.id ensures t == b.queue[i] {
        OnlyRecord(b.queue, i, t);
      }
  }

  /** Among the changes of a pass and the moves of other writers, exactly these let a task settle. */
  lemma ActSettlesIff(b: Board, a: Act, id: string)
    requires DistinctIds(b.queue)
    ensures id in Heal.Step(b, a).settled <==> id in b.settled || SettledBy(b, a, id)
  {
    match a
    case Apply(c, evidence) => FixSettlesIff(b, c, evidence, id);
    case Other(other, from, to, proof, repair, actor) => StepSettlesIff(b, Move(other, from, to, proof, repair, actor), id);
  }

  function Acted(b: Board, acts: seq<Act>): Board
    decreases |acts|
  {
    if acts == [] then b else Acted(Heal.Step(b, acts[0]), acts[1..])
  }

  /** An act that can settle a task at all: a change or a move that abandons it, or merges it on evidence. */
  predicate MaySettle(a: Act, id: string) {
    match a
    case Apply(c, evidence) => c.id == id && (c.to == Abandoned || (c.to == Merged && evidence))
    case Other(other, _, to, proof, _, _) => other == id && (to == Abandoned || (to == Merged && proof))
  }

  lemma ActKeepsIds(b: Board, a: Act)
    requires DistinctIds(b.queue)
    ensures DistinctIds(Heal.Step(b, a).queue)
  {
    match a
    case Apply(c, evidence) => FixAt(b, c, evidence, c.id);
    case Other(other, from, to, proof, repair, actor) =>
      match Find(b.queue, other) {
        case None =>
        case Some(i) => TransitAt(b, i, to, actor, other);
      }
  }

  /** Through any interleaved pass: whoever settles does so by an act that abandons it or has evidence that it is merged. */
  lemma {:induction false} PassSettlesOnEvidence(b: Board, acts: seq<Act>, id: string)
    requires DistinctIds(b.queue) && id !in b.settled && id in Acted(b, acts).settled
    ensures exists a :: a in acts && MaySettle(a, id)
    decreases |acts|
  {
    if acts != [] {
      ActKeepsIds(b, acts[0]);
      ActSettlesIff(b, acts[0], id);
      if id !in Heal.Step(b, acts[0]).settled {
        PassSettlesOnEvidence(Heal.Step(b, acts[0]), acts[1..], id);
        var a :| a in acts[1..] && MaySettle(a, id);
        assert a in acts;
      } else {
        assert MaySettle(acts[0], id);
      }
    }
  }
}
