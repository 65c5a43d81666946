/** What the repair pass guarantees, where it stops, and the loops that carry it out. */
module HealTheorems {
  import opened Wrappers
  import opened Lifecycle
  import opened BoardSteps
  import opened Frontier
  import opened Heal
  import opened History
  import D = Derivation

  // ---- heal safety -------------------------------------------------------------------------------------------

  /** The changes heal plans for this board. */
  function PlanFor(b: Board, git: map<string, D.Facts>): seq<Change>
    requires DistinctIds(b.queue)
  {
    GraphAt(b.queue, git);
    Plan(b.queue, Verdicts(b.queue, git), Holding(b.queue))
  }

  /** From counters that are not too low, whatever order the planned changes are applied in, whichever of them are refused,
      and whatever transitions other writers make in between: counters stay not too low, and a task is ready only if
      each of its blockers is off the board or derived merged, it was ready already, another writer said so, or the change
      that made it ready had been overtaken. */
  lemma HealIsSafe(b: Board, git: map<string, D.Facts>, acts: seq<Act>)
    requires Safe(b)
    requires forall a :: a in acts && a.Apply? ==> a.change in PlanFor(b, git)
    ensures SafeAlong(b, acts, MergedIds(Verdicts(b.queue, git)))
  {
    GraphAt(b.queue, git);
    var merged := MergedIds(Verdicts(b.queue, git));
    forall a | a in acts && a.Apply? ensures Sound(b, a.change, merged) {
      PlanIsSound(b, git, a.change);
    }
    SoundPassIsSafe(b, acts, merged);
  }

  // ---- a pass that nobody interrupts -------------------------------------------------------------------------

  /** The record a recount was planned for is still ready. */
  ghost predicate Undisturbed(b: Board, c: Change) {
    RecountsReady(c) ==> forall t :: t in b.queue && t.id == c.id ==> t.state == Ready
  }

  /** Nobody becomes ready without every blocker off the board or derived merged. */
  ghost predicate PromotesOnlyFree(b: Board, b': Board, merged: set<string>) {
    forall t' :: t' in b'.queue && t'.state == Ready ==>
      (exists t :: t in b.queue && t.id == t'.id && t.state == Ready) || Justified(b', t', merged)
  }

  /** Every record that is left, save one, is as ready as it was. */
  ghost predicate KeepsReady(b: Board, b': Board, id: string) {
    forall t', t :: t' in b'.queue && t in b.queue && t.id == t'.id && t'.id != id && t.state == Ready ==> t'.state == Ready
  }

  lemma SettlingKeepsReady(b: Board, i: nat, to: State, actor: string)
    requires DistinctIds(b.queue) && i < |b.queue| && Terminal(to)
    ensures KeepsReady(b, Transit(b, i, to, actor), b.queue[i].id)
  {
    var q' := Transit(b, i, to, actor).queue;
    forall x | 0 <= x < |q'|
      ensures q'[x].id == b.queue[Was(i, x)].id && (b.queue[Was(i, x)].state == Ready ==> q'[x].state == Ready)
    {
      SettlingReleases(b, i, to, actor, x);
      ReleasedIs(b.queue[Was(i, x)], multiset(b.queue[i].blocks)[b.queue[Was(i, x)].id]);
    }
  }

  lemma ReplacingKeepsReady(b: Board, i: nat, t': Task)
    requires DistinctIds(b.queue) && i < |b.queue| && t'.id == b.queue[i].id
    ensures KeepsReady(b, b.(queue := b.queue[i := t']), t'.id)
    ensures DistinctIds(b.queue[i := t'])
  {
  }

  lemma FixKeepsReady(b: Board, c: Change, evidence: bool)
    requires DistinctIds(b.queue)
    ensures KeepsReady(b, Fix(b, c, evidence), c.id)
  {
    match Find(b.queue, c.id)
    case None =>
    case Some(i) =>
      var mid := b.(queue := b.queue[i := Recounted(b.queue[i], c)]);
      ReplacingKeepsReady(b, i, mid.queue[i]);
      if Terminal(c.to) {
        SettlingKeepsReady(mid, i, c.to, "heal");
        SettlingThenReplacing(b, mid, Transit(mid, i, c.to, "heal"), i);
      } else {
        ReplacingKeepsReady(b, i, Moved(mid.queue[i], c.to, "heal"));
      }
  }

  lemma SettlingThenReplacing(b: Board, mid: Board, b': Board, i: nat)
    requires i < |b.queue| == |mid.queue| && mid == b.(queue := b.queue[i := mid.queue[i]])
    requires mid.queue[i].id == b.queue[i].id && KeepsReady(mid, b', b.queue[i].id)
    ensures KeepsReady(b, b', b.queue[i].id)
  {
    forall t', t | t' in b'.queue && t in b.queue && t.id == t'.id && t'.id != b.queue[i].id && t.state == Ready
      ensures t'.state == Ready
    {
      var x :| 0 <= x < |b.queue| && b.queue[x] == t;
      assert mid.queue[x] in mid.queue;
    }
  }

  lemma UndisturbedLasts(b: Board, c: Change, evidence: bool, other: Change)
    requires DistinctIds(b.queue) && Undisturbed(b, other) && c.id != other.id
    requires Shrinks(b, Fix(b, c, evidence))
    ensures Undisturbed(Fix(b, c, evidence), other)
  {
    var b' := Fix(b, c, evidence);
    FixKeepsReady(b, c, evidence);
    if RecountsReady(other) {
      forall t' | t' in b'.queue && t'.id == other.id ensures t'.state == Ready {
        var t :| t in b.queue && t.id == t'.id && t.blockedBy == t'.blockedBy;
      }
    }
  }

  lemma FindAt(q: seq<Task>, t: Task)
    requires DistinctIds(q) && t in q
    ensures Find(q, t.id).Some? && q[Find(q, t.id).value] == t
  {
    var j :| 0 <= j < |q| && q[j] == t;
    var i := Find(q, t.id).value;
  }

  /** A record made ready that was not, and that still waits for something. */
  lemma PromotedUnfree(b: Board, i: nat, t': Task, merged: set<string>)
    requires DistinctIds(b.queue) && i < |b.queue| && b.queue[i].state != Ready && !Justified(b, b.queue[i], merged)
    requires t'.id == b.queue[i].id && t'.blockedBy == b.queue[i].blockedBy && t'.state == Ready
    ensures !PromotesOnlyFree(b, b.(queue := b.queue[i := t']), merged)
  {
    var q' := b.queue[i := t'];
    assert q'[i] in q';
    SameIds(b.queue, q');
    forall u | u in b.queue && u.id == t'.id ensures u.state != Ready {
      FindAt(b.queue, u);
      FindAt(b.queue, b.queue[i]);
    }
  }

  /** An overtaken change makes its record ready all the same. */
  lemma OvertakenPromotes(b: Board, c: Change, evidence: bool, merged: set<string>)
    requires DistinctIds(b.queue) && Overtaken(b, c, evidence, merged)
    ensures !PromotesOnlyFree(b, Fix(b, c, evidence), merged)
  {
    var t :| t in b.queue && t.id == c.id && t.state != Ready && Permitted(t, t.state, Ready, evidence, c.repair) && !Justified(b, t, merged);
    FindAt(b.queue, t);
    var i := Find(b.queue, c.id).value;
    FixIs(b, c, evidence, i);
    PromotedUnfree(b, i, Moved(Recounted(t, c), Ready, "heal"), merged);
    assert b.queue[i := Recounted(t, c)][i := Moved(Recounted(t, c), Ready, "heal")] == b.queue[i := Moved(Recounted(t, c), Ready, "heal")];
  }

  /** One change of a pass, whatever other writers have done: it makes nobody ready who still waits for something, directly
      or through the release of dependents, exactly when it has not been overtaken. */
  lemma FixPromotesOnlyFreeIff(b: Board, c: Change, evidence: bool, merged: set<string>)
    requires Safe(b) && Sound(b, c, merged)
    ensures PromotesOnlyFree(b, Fix(b, c, evidence), merged) <==> !Overtaken(b, c, evidence, merged)
  {
    if Overtaken(b, c, evidence, merged) {
      OvertakenPromotes(b, c, evidence, merged);
    } else {
      FixIsSafe(b, c, evidence, merged);
      var b' := Fix(b, c, evidence);
      forall t' | t' in b'.queue && t'.state == Ready
        ensures (exists t :: t in b.queue && t.id == t'.id && t.state == Ready) || Justified(b', t', merged)
      {
        assert Entitled(b, Apply(c, evidence), b', t', merged);
      }
    }
  }

  /** Each change among these acts promotes only free tasks. */
  ghost predicate PromotesOnlyFreeAlong(b: Board, acts: seq<Act>, merged: set<string>)
    decreases |acts|
  {
    acts == [] ||
    (&& (acts[0].Apply? ==> PromotesOnlyFree(b, Heal.Step(b, acts[0]), merged))
     && PromotesOnlyFreeAlong(Heal.Step(b, acts[0]), acts[1..], merged))
  }

  ghost predicate NeverOvertaken(b: Board, acts: seq<Act>, merged: set<string>)
    decreases |acts|
  {
    acts == [] ||
    (&& (acts[0].Apply? ==> !Overtaken(b, acts[0].change, acts[0].evidence, merged))
     && NeverOvertaken(Heal.Step(b, acts[0]), acts[1..], merged))
  }

  lemma {:induction false} SoundPassPromotesIff(b: Board, acts: seq<Act>, merged: set<string>)
    requires Safe(b)
    requires forall a :: a in acts && a.Apply? ==> Sound(b, a.change, merged)
    ensures PromotesOnlyFreeAlong(b, acts, merged) <==> NeverOvertaken(b, acts, merged)
    decreases |acts|
  {
    if acts != [] {
      var a := acts[0];
      var b' := Heal.Step(b, a);
      if a.Apply? {
        FixIsSafe(b, a.change, a.evidence, merged);
        FixPromotesOnlyFreeIff(b, a.change, a.evidence, merged);
      } else {
        OtherIsSafe(b, a, merged);
      }
      forall a' | a' in acts[1..] && a'.Apply? ensures Sound(b', a'.change, merged) {
        SoundnessLasts(b, b', a'.change, merged);
      }
      SoundPassPromotesIff(b', acts[1..], merged);
    }
  }

  /** A whole pass with other writers in between, from counters that are not too low: its changes make only free tasks ready
      exactly when none of them has been overtaken when its turn comes. */
  lemma HealPromotesOnlyFreeIff(b: Board, git: map<string, D.Facts>, acts: seq<Act>)
    requires Safe(b)
    requires forall a :: a in acts && a.Apply? ==> a.change in PlanFor(b, git)
    ensures var merged := MergedIds(Verdicts(b.queue, git));
            PromotesOnlyFreeAlong(b, acts, merged) <==> NeverOvertaken(b, acts, merged)
  {
    GraphAt(b.queue, git);
    var merged := MergedIds(Verdicts(b.queue, git));
    forall a | a in acts && a.Apply? ensures Sound(b, a.change, merged) {
      PlanIsSound(b, git, a.change);
    }
    SoundPassPromotesIff(b, acts, merged);
  }

  /** A record that is where the plan found it has not been overtaken. */
  lemma UndisturbedIsNotOvertaken(b: Board, c: Change, evidence: bool, merged: set<string>)
    requires Undisturbed(b, c) && Sound(b, c, merged)
    ensures !Overtaken(b, c, evidence, merged)
  {
  }

  /** The board after the changes from the n-th on. */
  function Pass(b: Board, changes: seq<Change>, evidence: seq<bool>, n: nat): Board
    requires n <= |changes| == |evidence|
    decreases |changes| - n
  {
    if n == |changes| then b else Pass(Fix(b, changes[n], evidence[n]), changes, evidence, n + 1)
  }

  /** After each of these changes counters are not too low, and none of them makes a task ready, directly or through the
      release of dependents, while one of its blockers is on the board and not derived merged. */
  ghost predicate CleanPass(b: Board, changes: seq<Change>, evidence: seq<bool>, merged: set<string>, n: nat)
    requires n <= |changes| == |evidence|
    decreases |changes| - n
  {
    n == |changes| ||
    (var b' := Fix(b, changes[n], evidence[n]);
     Safe(b') && PromotesOnlyFree(b, b', merged) && CleanPass(b', changes, evidence, merged, n + 1))
  }

  /** A change to come is sound, and its record is where the plan found it. */
  ghost predicate Pertinent(b: Board, c: Change, merged: set<string>) { Sound(b, c, merged) && Undisturbed(b, c) }

  /** Where the pass stands after `n` changes: counters are safe and every change to come is pertinent. */
  ghost predicate OnTrack(b: Board, changes: seq<Change>, merged: set<string>, n: nat) {
    Safe(b) && forall k :: n <= k < |changes| ==> Pertinent(b, changes[k], merged)
  }

  lemma PertinentLasts(b: Board, c: Change, evidence: bool, other: Change, merged: set<string>)
    requires Safe(b) && Sound(b, c, merged) && Pertinent(b, other, merged) && c.id != other.id
    ensures Pertinent(Fix(b, c, evidence), other, merged)
  {
    FixIsSafe(b, c, evidence, merged);
    SoundnessLasts(b, Fix(b, c, evidence), other, merged);
    UndisturbedLasts(b, c, evidence, other);
  }

  lemma FixStaysOnTrack(b: Board, changes: seq<Change>, evidence: bool, merged: set<string>, n: nat)
    requires n < |changes| && OnTrack(b, changes, merged, n)
    requires forall i, j :: 0 <= i < j < |changes| ==> changes[i].id != changes[j].id
    ensures OnTrack(Fix(b, changes[n], evidence), changes, merged, n + 1)
  {
    assert Pertinent(b, changes[n], merged);
    forall k | n + 1 <= k < |changes| ensures Pertinent(Fix(b, changes[n], evidence), changes[k], merged) {
      PertinentLasts(b, changes[n], evidence, changes[k], merged);
    }
    assert Safe(Fix(b, changes[n], evidence)) by { FixIsSafe(b, changes[n], evidence, merged); }
  }

  lemma PertinentFixIsClean(b: Board, c: Change, evidence: bool, merged: set<string>)
    requires Safe(b) && Pertinent(b, c, merged)
    ensures Safe(Fix(b, c, evidence)) && PromotesOnlyFree(b, Fix(b, c, evidence), merged)
  {
    FixIsSafe(b, c, evidence, merged);
    UndisturbedIsNotOvertaken(b, c, evidence, merged);
    FixPromotesOnlyFreeIff(b, c, evidence, merged);
  }

  lemma {:induction false} OnTrackIsClean(b: Board, changes: seq<Change>, evidence: seq<bool>, merged: set<string>, n: nat)
    requires n <= |changes| == |evidence| && OnTrack(b, changes, merged, n)
    requires forall i, j :: 0 <= i < j < |changes| ==> changes[i].id != changes[j].id
    ensures CleanPass(b, changes, evidence, merged, n)
    decreases |changes| - n
  {
    if n < |changes| {
      var b' := Fix(b, changes[n], evidence[n]);
      assert Pertinent(b, changes[n], merged);
      assert CleanPass(b', changes, evidence, merged, n + 1) by {
        FixStaysOnTrack(b, changes, evidence[n], merged, n);
        OnTrackIsClean(b', changes, evidence, merged, n + 1);
      }
      PertinentFixIsClean(b, changes[n], evidence[n], merged);
    }
  }

  lemma PlanHasOnePerTask(b: Board, git: map<string, D.Facts>)
    requires DistinctIds(b.queue)
    ensures forall i, j :: 0 <= i < j < |PlanFor(b, git)| ==> PlanFor(b, git)[i].id != PlanFor(b, git)[j].id
  {
    GraphAt(b.queue, git);
    OnePerTask(b.queue, Verdicts(b.queue, git), Holding(b.queue));
  }

  lemma {:induction false} OnePerTask(q: seq<Task>, derived: map<string, D.Status>, holding: set<string>)
    requires DistinctIds(q) && forall t :: t in q ==> t.id in derived
    ensures forall i, j :: 0 <= i < j < |Plan(q, derived, holding)| ==> Plan(q, derived, holding)[i].id != Plan(q, derived, holding)[j].id
  {
    if q != [] {
      var n := |q| - 1;
      OnePerTask(q[..n], derived, holding);
      forall c | c in Plan(q[..n], derived, holding) ensures c.id != q[n].id {
        PlanComesFromRecords(q[..n], derived, holding, c);
      }
    }
  }

  lemma PlanIsPertinent(b: Board, git: map<string, D.Facts>)
    requires Safe(b)
    ensures OnTrack(b, PlanFor(b, git), MergedIds(Verdicts(b.queue, git)), 0)
  {
    GraphAt(b.queue, git);
    var changes, merged := PlanFor(b, git), MergedIds(Verdicts(b.queue, git));
    forall k | 0 <= k < |changes| ensures Pertinent(b, changes[k], merged) {
      PlanIsSound(b, git, changes[k]);
      PlannedIsUndisturbed(b, Verdicts(b.queue, git), Holding(b.queue), changes[k]);
    }
  }

  lemma PlannedIsUndisturbed(b: Board, derived: map<string, D.Status>, holding: set<string>, c: Change)
    requires DistinctIds(b.queue) && (forall t :: t in b.queue ==> t.id in derived) && c in Plan(b.queue, derived, holding)
    ensures Undisturbed(b, c)
  {
    PlanComesFromRecords(b.queue, derived, holding, c);
    var t :| t in b.queue && ChangeFor(t, derived[t.id], holding) == Some(c);
    forall u | u in b.queue && u.id == c.id ensures u == t {}
  }

  /** A pass left alone, from counters that are not too low, is clean from its first change to its last. */
  lemma LonePassIsSafe(b: Board, git: map<string, D.Facts>, evidence: seq<bool>)
    requires Safe(b) && |evidence| == |PlanFor(b, git)|
    ensures CleanPass(b, PlanFor(b, git), evidence, MergedIds(Verdicts(b.queue, git)), 0)
  {
    PlanIsPertinent(b, git);
    PlanHasOnePerTask(b, git);
    OnTrackIsClean(b, PlanFor(b, git), evidence, MergedIds(Verdicts(b.queue, git)), 0);
  }

  // ---- what happens below the precondition -------------------------------------------------------------------

  /** One settling, any counters: a waiting dependent is released while something it waits for is left on the board exactly
      when its counter is no more than the mentions that drop it, and they are fewer than its blockers on the board. */
  lemma ReleasedEarlyIff(b: Board, i: nat, to: State, actor: string, x: nat)
    requires DistinctIds(b.queue) && i < |b.queue| && Terminal(to) && x + 1 < |b.queue|
    requires Inverse(b.queue) && b.queue[Was(i, x)].state in {Blocked, Planned}
    ensures |Transit(b, i, to, actor).queue| == |b.queue| - 1
    ensures var (d, b') := (b.queue[Was(i, x)], Transit(b, i, to, actor));
            var mentions := multiset(b.queue[i].blocks)[d.id];
            (b'.queue[x].state == Ready && exists y :: y in d.blockedBy && y in IdsOf(b'.queue)) <==>
            (0 < mentions && PendingOf(d) <= mentions < Among(d.blockedBy, IdsOf(b.queue)))
  {
    var d, id := b.queue[Was(i, x)], b.queue[i].id;
    var mentions := multiset(b.queue[i].blocks)[d.id];
    assert b.queue[i] in b.queue;
    SettlingReleases(b, i, to, actor, x);
    TransitIds(b, i, to, actor);
    ReleasedIs(d, mentions);
    AmongLess(d.blockedBy, IdsOf(b.queue), id);
    AmongZero(d.blockedBy, IdsOf(b.queue) - {id});
  }

  /** A recount written later than it was made is exact precisely when none of the task's blockers has left in between. */
  lemma RecountIsExactIff(b: Board, b': Board, t: Task, c: Change)
    requires Shrinks(b, b') && c.pending == Some(Among(t.blockedBy, IdsOf(b.queue)))
    ensures PendingOf(Recounted(t, c)) == Among(t.blockedBy, IdsOf(b'.queue)) <==>
      forall x :: x in t.blockedBy && x in IdsOf(b.queue) ==> x in IdsOf(b'.queue)
  {
    AmongShrinks(t.blockedBy, IdsOf(b.queue), IdsOf(b'.queue));
  }

  /** `d` waits for `x`, whose work has landed, and for `y`, whose work has not; its counter says `pending`. */
  function Example(pending: nat): Board {
    Board([Task("x", AwaitingMerge, [], ["d"], Some(0), UNTOUCHED, []),
           Task("y", InProgress, [], ["d"], Some(0), UNTOUCHED, []),
           Task("d", Blocked, ["x", "y"], [], Some(pending), UNTOUCHED, [])], {})
  }

  function ExampleFacts(): map<string, D.Facts> {
    var target: Commit := [Local(1)];
    map["x" := D.Facts(Some([Local(1)]), None, Some([]), Some(target), true),
        "y" := D.Facts(Some([Local(2)]), None, Some([]), Some(target), true),
        "d" := D.Facts(None, None, None, Some(target), true)]
  }

  lemma ExampleEvidence()
    ensures D.MergeEvidence(ExampleFacts()["x"])
    ensures D.OwnCommits(ExampleFacts()["y"]) && !D.MergeEvidence(ExampleFacts()["y"])
    ensures !D.OwnCommits(ExampleFacts()["d"]) && !D.MergeEvidence(ExampleFacts()["d"])
  {
    var landed: Commit, other: Commit := [Local(1)], [Local(2)];
    assert landed[0] != other[0] && !(other <= landed);
  }

  lemma ExampleIds(pending: nat)
    ensures DistinctIds(Example(pending).queue)
    ensures IdsOf(Example(pending).queue) == Holding(Example(pending).queue) == {"x", "y", "d"}
  {
    var q := Example(pending).queue;
    assert q[0] in q && q[1] in q && q[2] in q;
  }

  lemma ExampleGraph(pending: nat)
    ensures var g := GraphOf(Example(pending).queue, ExampleFacts());
            && g.Keys == {"x", "y", "d"} && g["x"].facts == ExampleFacts()["x"]
            && g["y"].facts == ExampleFacts()["y"]
            && g["d"].facts == ExampleFacts()["d"] && g["d"].blockedBy == ["x", "y"]
  {
    var q := Example(pending).queue;
    ExampleIds(pending);
    GraphAt(q, ExampleFacts());
    assert q[0] in q && q[1] in q && q[2] in q;
  }

  lemma ExampleVerdicts(pending: nat)
    ensures Verdicts(Example(pending).queue, ExampleFacts()) == map["x" := D.Merged, "y" := D.InProgress, "d" := D.Blocked]
  {
    var g := GraphOf(Example(pending).queue, ExampleFacts());
    ExampleIds(pending);
    ExampleEvidence();
    ExampleGraph(pending);
    assert g["d"].blockedBy[1] == "y" && !D.Cleared(g, "y");
    assert D.Derived(g, "x") == D.Merged && D.Derived(g, "y") == D.InProgress && D.Derived(g, "d") == D.Blocked;
  }

  lemma PlanOfThree(a: Task, b: Task, c: Task, derived: map<string, D.Status>, holding: set<string>, first: Change, last: Change)
    requires a.id in derived && b.id in derived && c.id in derived
    requires ChangeFor(a, derived[a.id], holding) == Some(first) && ChangeFor(b, derived[b.id], holding).None?
    requires ChangeFor(c, derived[c.id], holding) == Some(last)
    ensures Plan([a, b, c], derived, holding) == [first, last]
  {
    assert [a, b, c][..2] == [a, b] && [a, b][..1] == [a] && [a][..0] == [];
    assert Plan([a], derived, holding) == Plan([a][..0], derived, holding) + [first] == [first];
    assert Plan([a, b], derived, holding) == [first];
  }

  lemma ExampleCount(holding: set<string>)
    requires "x" in holding && "y" in holding
    ensures Among([], holding) == 0 && Among(["x", "y"], holding) == 2
  {
    assert ["x", "y"][..1] == ["x"] && Among(["x"], holding) == 1;
  }

  lemma ExamplePlan(pending: nat)
    requires pending != 2
    ensures DistinctIds(Example(pending).queue)
    ensures PlanFor(Example(pending), ExampleFacts()) ==
      [Change("x", AwaitingMerge, Merged, false, None), Change("d", Blocked, Blocked, false, Some(2))]
    ensures "y" !in MergedIds(Verdicts(Example(pending).queue, ExampleFacts()))
  {
    ExampleIds(pending);
    ExampleVerdicts(pending);
    var q := Example(pending).queue;
    var derived := map["x" := D.Merged, "y" := D.InProgress, "d" := D.Blocked];
    var holding := {"x", "y", "d"};
    ExampleCount(holding);
    PlanOfThree(q[0], q[1], q[2], derived, holding, Change("x", AwaitingMerge, Merged, false, None),
                Change("d", Blocked, Blocked, false, Some(2)));
  }

  lemma ExampleLands(pending: nat)
    ensures var b' := Fix(Example(pending), Change("x", AwaitingMerge, Merged, false, None), true);
            && |b'.queue| == 2 && b'.queue[0].id == "y" && b'.queue[1].id == "d"
            && b'.queue[1].blockedBy == ["x", "y"]
            && b'.queue[1].state == if pending <= 1 then Ready else Blocked
  {
    var b := Example(pending);
    var q := b.queue[0 := Moved(b.queue[0], Merged, "heal")];
    assert Find(b.queue, "x") == Some(0);
    assert Release(q, []) == q;
    assert ["d"][..0] == [];
    assert q[1..][1..] == [q[2]];
    assert Find(q[1..][1..], "d") == Some(0);
    assert Find(q[1..], "d") == Some(1);
    assert Find(q, "d") == Some(2);
    var released := Release(q, ["d"]);
    assert released == q[2 := ReleaseOne(q[2])];
    assert Without(released, 0) == [released[1], released[2]];
    assert b.queue[0 := b.queue[0]] == b.queue;
    assert Fix(b, Change("x", AwaitingMerge, Merged, false, None), true) == Transit(b, 0, Merged, "heal");
  }

  lemma ExampleIsUnsafe()
    ensures !Safe(Example(1))
  {
    var q := Example(1).queue;
    ExampleIds(1);
    assert ["x", "y"][..1] == ["x"];
    assert Among(["x"], IdsOf(q)) == 1;
    assert q[2] in q && Among(q[2].blockedBy, IdsOf(q)) == 2;
  }

  /** With a counter below the true count, the first change of the pass releases `d` although `y` is on the board and not
      merged; the recount that was planned for `d` comes too late. */
  lemma LowCounterIsReleasedEarly()
    ensures DistinctIds(Example(1).queue) && !Safe(Example(1))
    ensures |PlanFor(Example(1), ExampleFacts())| == 2
    ensures !CleanPass(Example(1), PlanFor(Example(1), ExampleFacts()), [true, true],
                       MergedIds(Verdicts(Example(1).queue, ExampleFacts())), 0)
  {
    ExampleIsUnsafe();
    ExamplePlan(1);
    ExampleLands(1);
    var changes := PlanFor(Example(1), ExampleFacts());
    ReleasedUnfree(Example(1), Fix(Example(1), changes[0], true), MergedIds(Verdicts(Example(1).queue, ExampleFacts())));
  }

  lemma ReleasedUnfree(b: Board, b': Board, merged: set<string>)
    requires b == Example(1) && "y" !in merged
    requires |b'.queue| == 2 && b'.queue[0].id == "y" && b'.queue[1].id == "d"
    requires b'.queue[1].blockedBy == ["x", "y"] && b'.queue[1].state == Ready
    ensures !PromotesOnlyFree(b, b', merged)
  {
    var d := b'.queue[1];
    assert d in b'.queue && b'.queue[0] in b'.queue;
    assert d.blockedBy[1] == "y" && "y" in IdsOf(b'.queue);
    assert !Justified(b', d, merged);
  }

  lemma ExampleRecounts(mid: Board, c: Change)
    requires |mid.queue| == 2 && mid.queue[0].id == "y" && mid.queue[1].id == "d"
    requires mid.queue[1].blockedBy == ["x", "y"] && mid.queue[1].state == Blocked
    requires c == Change("d", Blocked, Blocked, false, Some(2))
    ensures exists d :: d in Fix(mid, c, true).queue && Among(d.blockedBy, IdsOf(Fix(mid, c, true).queue)) < PendingOf(d)
  {
    assert Find(mid.queue[1..], "d") == Some(0) && Find(mid.queue, "d") == Some(1);
    var last := mid.queue[1 := Recounted(mid.queue[1], c)];
    assert last[1] in last && Fix(mid, c, true).queue == last;
    assert "x" !in IdsOf(last) && ["x", "y"][..1] == ["x"];
    assert Among(["x"], IdsOf(last)) == 0;
  }

  /** With a counter above the true count nobody is released, but the recount is written after `x` has left and stays one too
      high: `d` waits for the next pass. */
  lemma LateRecountIsTooHigh()
    ensures DistinctIds(Example(3).queue) && |PlanFor(Example(3), ExampleFacts())| == 2
    ensures var q := Pass(Example(3), PlanFor(Example(3), ExampleFacts()), [true, true], 0).queue;
            exists d :: d in q && Among(d.blockedBy, IdsOf(q)) < PendingOf(d)
  {
    var b := Example(3);
    ExamplePlan(3);
    ExampleLands(3);
    var changes := PlanFor(b, ExampleFacts());
    var mid := Fix(b, changes[0], true);
    assert Pass(b, changes, [true, true], 0) == Pass(mid, changes, [true, true], 1) == Fix(mid, changes[1], true) by {
      assert Pass(Fix(mid, changes[1], true), changes, [true, true], 2) == Fix(mid, changes[1], true);
    }
    ExampleRecounts(mid, changes[1]);
  }

  // ---- a change that is overtaken ----------------------------------------------------------------------------

  /** `d` has been made ready by hand although it waits for `x`, and its counter is one too high. */
  function HandMade(): Board {
    Board([Task("x", InProgress, [], ["d"], Some(0), UNTOUCHED, []),
           Task("d", Ready, ["x"], [], Some(2), UNTOUCHED, [])], {})
  }

  /** The work of `x` is under way; `d` has not been started. */
  function HandMadeFacts(): map<string, D.Facts> {
    var target: Commit := [];
    map["x" := D.Facts(Some([Local(2)]), None, Some([]), Some(target), true),
        "d" := D.Facts(None, None, None, Some(target), true)]
  }

  lemma HandMadeIds()
    ensures DistinctIds(HandMade().queue) && IdsOf(HandMade().queue) == Holding(HandMade().queue) == {"x", "d"}
  {
    var q := HandMade().queue;
    assert q[0] in q && q[1] in q;
  }

  lemma HandMadeCount(holding: set<string>)
    requires "x" in holding
    ensures Among(["x"], holding) == 1 && Among([], holding) == 0
  {
    assert ["x"][..0] == [];
  }

  lemma HandMadeMentions()
    ensures Mentions(HandMade().queue)
  {
    var q := HandMade().queue;
    forall i, j | 0 <= i < |q| && 0 <= j < |q| ensures multiset(q[i].blocks)[q[j].id] <= multiset(q[j].blockedBy)[q[i].id] {
      if i == 0 && j == 1 {
        assert q[i].blocks == ["d"] && q[j].blockedBy == ["x"];
      }
    }
  }

  lemma HandMadeIsSafe()
    ensures Safe(HandMade())
  {
    var b := HandMade();
    HandMadeIds();
    HandMadeMentions();
    HandMadeCount(IdsOf(b.queue));
    forall t | t in b.queue ensures SafeRecord(t, IdsOf(b.queue)) {
      assert t == b.queue[0] || t == b.queue[1];
    }
  }

  lemma HandMadeGraph()
    ensures var g := GraphOf(HandMade().queue, HandMadeFacts());
            && g.Keys == {"x", "d"} && g["x"].facts == HandMadeFacts()["x"]
            && g["d"].facts == HandMadeFacts()["d"] && g["d"].blockedBy == ["x"]
  {
    var q := HandMade().queue;
    HandMadeIds();
    GraphAt(q, HandMadeFacts());
    assert q[0] in q && q[1] in q;
  }

  lemma HandMadeEvidence()
    ensures D.OwnCommits(HandMadeFacts()["x"]) && !D.MergeEvidence(HandMadeFacts()["x"])
    ensures !D.OwnCommits(HandMadeFacts()["d"]) && !D.MergeEvidence(HandMadeFacts()["d"])
  {
  }

  lemma HandMadeVerdicts()
    ensures Verdicts(HandMade().queue, HandMadeFacts()) == map["x" := D.InProgress, "d" := D.Blocked]
  {
    var g := GraphOf(HandMade().queue, HandMadeFacts());
    HandMadeEvidence();
    HandMadeGraph();
    assert g["d"].blockedBy[0] == "x" && !D.Cleared(g, "x");
    assert D.Derived(g, "x") == D.InProgress && D.Derived(g, "d") == D.Blocked;
  }

  lemma PlanOfTwo(a: Task, b: Task, derived: map<string, D.Status>, holding: set<string>, last: Change)
    requires a.id in derived && b.id in derived && ChangeFor(a, derived[a.id], holding).None?
    requires ChangeFor(b, derived[b.id], holding) == Some(last)
    ensures Plan([a, b], derived, holding) == [last]
  {
    assert [a, b][..1] == [a] && [a][..0] == [];
    assert Plan([a], derived, holding) == [];
  }

  function HandMadeRecount(): Change { Change("d", Ready, Ready, false, Some(1)) }

  lemma HandMadePlan()
    ensures DistinctIds(HandMade().queue) && PlanFor(HandMade(), HandMadeFacts()) == [HandMadeRecount()]
  {
    HandMadeIds();
    HandMadeVerdicts();
    var q, derived, holding := HandMade().queue, map["x" := D.InProgress, "d" := D.Blocked], {"x", "d"};
    HandMadeCount(holding);
    PlanOfTwo(q[0], q[1], derived, holding, HandMadeRecount());
  }

  /** Another writer has taken `d` up. */
  function Started(): Board {
    var b := HandMade();
    b.(queue := b.queue[1 := Moved(b.queue[1], InProgress, "orchestrator")])
  }

  lemma StartedIs()
    ensures BoardSteps.Apply(HandMade(), "d", Ready, InProgress, false, false, "orchestrator") == Started()
    ensures DistinctIds(Started().queue)
  {
    var b := HandMade();
    assert Find(b.queue[1..], "d") == Some(0) && Find(b.queue, "d") == Some(1);
  }

  lemma StartedIsOvertaken(merged: set<string>)
    requires "x" !in merged
    ensures Overtaken(Started(), HandMadeRecount(), false, merged)
  {
    var b, d := Started(), Started().queue[1];
    assert b.queue[0] in b.queue && d in b.queue;
    assert d.blockedBy[0] == "x" && "x" in IdsOf(b.queue);
    assert !Justified(b, d, merged);
  }

  /** The pass plans a recount for `d`; another writer takes `d` up; the recount, when its turn comes, sets `d` back to ready
      beside the unfinished `x`, while somebody works on it. */
  lemma OvertakenRecount()
    ensures Safe(HandMade()) && PlanFor(HandMade(), HandMadeFacts()) == [HandMadeRecount()]
    ensures InProgress in LegalTargets(Ready)
    ensures var merged := MergedIds(Verdicts(HandMade().queue, HandMadeFacts()));
            var started := BoardSteps.Apply(HandMade(), "d", Ready, InProgress, false, false, "orchestrator");
            && Overtaken(started, HandMadeRecount(), false, merged)
            && !PromotesOnlyFree(started, Fix(started, HandMadeRecount(), false), merged)
  {
    HandMadeIsSafe();
    HandMadePlan();
    HandMadeVerdicts();
    StartedIs();
    var merged := MergedIds(Verdicts(HandMade().queue, HandMadeFacts()));
    StartedIsOvertaken(merged);
    OvertakenPromotes(Started(), HandMadeRecount(), false, merged);
  }
}
