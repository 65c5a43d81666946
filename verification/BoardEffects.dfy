/** What the commands on the board do to it, record by record, and which moves let a task settle. */
module BoardEffects {
  import opened Wrappers
  import opened Lifecycle
  import opened BoardSteps
  import opened Frontier

  // ---- requested moves ---------------------------------------------------------------------------------------

  /** The task is on the board in the state that the caller believes in, the lifecycle table or a repair lets it go on to `to`,
      and if that is `merged`, there is evidence. */
  ghost predicate Admissible(b: Board, id: string, from: State, to: State, evidence: bool, repair: bool) {
    && (exists t :: t in b.queue && t.id == id && t.state == from)
    && (repair || to in LegalTargets(from))
    && (to == Merged ==> evidence)
  }

  lemma FoundAt(q: seq<Task>, i: nat)
    requires DistinctIds(q) && i < |q|
    ensures Find(q, q[i].id) == Some(i)
  {
    var at := Find(q, q[i].id);
    assert q[i] in q;
    assert at.Some? && q[at.value].id == q[i].id;
  }

  lemma OnlyRecord(q: seq<Task>, i: nat, t: Task)
    requires DistinctIds(q) && i < |q|
    ensures t in q && t.id == q[i].id <==> t == q[i]
  {
    if t in q {
      var j :| 0 <= j < |q| && q[j] == t;
    }
  }

  lemma AdmissibleAt(b: Board, i: nat, from: State, to: State, evidence: bool, repair: bool)
    requires DistinctIds(b.queue) && i < |b.queue|
    ensures Admissible(b, b.queue[i].id, from, to, evidence, repair) <==> Permitted(b.queue[i], from, to, evidence, repair)
  {
    forall t | t in b.queue && t.id == b.queue[i].id ensures t == b.queue[i] {
      OnlyRecord(b.queue, i, t);
    }
    assert b.queue[i] in b.queue;
  }

  lemma TransitChanges(b: Board, i: nat, to: State, actor: string)
    requires i < |b.queue|
    ensures Transit(b, i, to, actor) != b
  {
    if !Terminal(to) {
      assert |Transit(b, i, to, actor).queue[i].history| == |b.queue[i].history| + 1;
    }
  }

  /** A requested move changes the board exactly when it is admissible; a refused one changes nothing at all. */
  lemma MoveHappensIff(b: Board, id: string, from: State, to: State, evidence: bool, repair: bool, actor: string)
    requires DistinctIds(b.queue)
    ensures Apply(b, id, from, to, evidence, repair, actor) != b <==> Admissible(b, id, from, to, evidence, repair)
  {
    match Find(b.queue, id)
    case None =>
    case Some(i) =>
      AdmissibleAt(b, i, from, to, evidence, repair);
      TransitChanges(b, i, to, actor);
  }

  /** What a move that does not settle the task changes: its state, and one entry more in its history. */
  ghost predicate MovedOn(t: Task, t': Task, to: State, actor: string) {
    && (t'.id, t'.blockedBy, t'.blocks, t'.pending, t'.run) == (t.id, t.blockedBy, t.blocks, t.pending, t.run)
    && t'.state == to && t'.history == t.history + [Entry(Some(t.state), to, actor)]
  }

  lemma MoveIs(b: Board, i: nat, to: State, evidence: bool, repair: bool, actor: string)
    requires DistinctIds(b.queue) && i < |b.queue| && Admissible(b, b.queue[i].id, b.queue[i].state, to, evidence, repair)
    ensures var (t, b') := (b.queue[i], Apply(b, b.queue[i].id, b.queue[i].state, to, evidence, repair, actor));
            if Terminal(to) then |b'.queue| == |b.queue| - 1 && b'.settled == b.settled + {t.id}
            else
              && |b'.queue| == |b.queue| && b'.settled == b.settled && MovedOn(t, b'.queue[i], to, actor)
              && forall j :: 0 <= j < |b.queue| && j != i ==> b'.queue[j] == b.queue[j]
  {
    FoundAt(b.queue, i);
    AdmissibleAt(b, i, b.queue[i].state, to, evidence, repair);
  }

  // ---- how tasks settle --------------------------------------------------------------------------------------

  ghost predicate Settles(b: Board, c: Command, id: string) {
    c.Move? && c.id == id && Terminal(c.to) && Admissible(b, id, c.from, c.to, c.evidence, c.repair)
  }

  lemma StepSettlesIff(b: Board, c: Command, id: string)
    requires DistinctIds(b.queue)
    ensures id in Step(b, c).settled <==> id in b.settled || Settles(b, c, id)
  {
    if c.Move? {
      match Find(b.queue, c.id)
      case None =>
      case Some(i) =>
        AdmissibleAt(b, i, c.from, c.to, c.evidence, c.repair);
    }
  }

  ghost predicate SettlesAt(b: Board, commands: seq<Command>, k: nat, id: string)
    requires k < |commands|
  {
    Settles(Run(b, commands[..k]), commands[k], id)
  }

  lemma RunFrom(b: Board, commands: seq<Command>, k: nat)
    requires 1 <= k <= |commands|
    ensures Run(b, commands[..k]) == Run(Step(b, commands[0]), commands[1..][..k - 1])
  {
    assert commands[..k][1..] == commands[1..][..k - 1];
  }

  /** Over every run, a task has settled in the end exactly when it had at the start or some command settled it: a move of that
      task, from the state it was in, to `abandoned` or, on evidence, to `merged`, and along the table unless it was a repair. */
  lemma {:induction false} RunSettlesIff(b: Board, commands: seq<Command>, id: string)
    requires Inv(b)
    ensures id in Run(b, commands).settled <==> id in b.settled || exists k :: 0 <= k < |commands| && SettlesAt(b, commands, k, id)
    decreases |commands|
  {
    if commands != [] {
      var b', rest := Step(b, commands[0]), commands[1..];
      StepKeepsInv(b, commands[0]);
      StepSettlesIff(b, commands[0], id);
      RunSettlesIff(b', rest, id);
      assert commands[..0] == [];
      assert SettlesAt(b, commands, 0, id) <==> Settles(b, commands[0], id);
      forall k | 1 <= k < |commands| ensures SettlesAt(b, commands, k, id) <==> SettlesAt(b', rest, k - 1, id) {
        RunFrom(b, commands, k);
      }
      if k :| 0 <= k < |rest| && SettlesAt(b', rest, k, id) {
        assert SettlesAt(b, commands, k + 1, id);
      }
    }
  }

  /** In particular: without evidence nothing is ever settled but by abandoning it. */
  lemma MergedOnlyOnEvidence(b: Board, commands: seq<Command>, id: string)
    requires Inv(b) && id !in b.settled
    requires forall c :: c in commands && c.Move? && c.id == id ==> !c.evidence && c.to != Abandoned
    ensures id !in Run(b, commands).settled
  {
    RunSettlesIff(b, commands, id);
  }

  // ---- histories ---------------------------------------------------------------------------------------------

  /** The history of a record tells how it came to be in its state: it begins at intake, every entry goes on from where the one
      before it ended, and the last one ends at the state. */
  ghost predicate Chronicle(t: Task) {
    && t.history != [] && t.history[0].from.None? && t.history[|t.history| - 1].to == t.state
    && forall i :: 0 < i < |t.history| ==> t.history[i].from == Some(t.history[i - 1].to)
  }

  ghost predicate AllChronicled(q: seq<Task>) {
    forall i :: 0 <= i < |q| ==> Chronicle(q[i])
  }

  lemma EntryKeepsChronicle(t: Task, t': Task, to: State, actor: string)
    requires Chronicle(t) && t'.state == to && t'.history == t.history + [Entry(Some(t.state), to, actor)]
    ensures Chronicle(t')
  {
  }

  lemma {:induction false} ReleaseKeepsChronicles(q: seq<Task>, blocks: seq<string>)
    requires AllChronicled(q)
    ensures AllChronicled(Release(q, blocks))
  {
    if blocks != [] {
      ReleaseKeepsChronicles(q, blocks[..|blocks| - 1]);
    }
  }

  lemma WithoutKeepsChronicles(q: seq<Task>, i: nat)
    requires AllChronicled(q) && i < |q|
    ensures AllChronicled(Without(q, i))
  {
    forall j | 0 <= j < |q| - 1 ensures Chronicle(Without(q, i)[j]) {
      assert Without(q, i)[j] == q[if j < i then j else j + 1];
    }
  }

  lemma TransitKeepsChronicles(b: Board, i: nat, to: State, actor: string)
    requires AllChronicled(b.queue) && i < |b.queue|
    ensures AllChronicled(Transit(b, i, to, actor).queue)
  {
    var q := b.queue[i := Moved(b.queue[i], to, actor)];
    EntryKeepsChronicle(b.queue[i], q[i], to, actor);
    if Terminal(to) {
      ReleaseKeepsChronicles(q, q[i].blocks);
      WithoutKeepsChronicles(Release(q, q[i].blocks), i);
    }
  }

  lemma SameHistories(q: seq<Task>, q': seq<Task>)
    requires AllChronicled(q) && |q'| == |q|
    requires forall i :: 0 <= i < |q| ==> q'[i].history == q[i].history && q'[i].state == q[i].state
    ensures AllChronicled(q')
  {
    forall i | 0 <= i < |q| ensures Chronicle(q'[i]) {
      assert Chronicle(q[i]);
    }
  }

  lemma RenewedKeepsChronicle(b: Board, t: Task, blockedBy: seq<string>)
    requires Chronicle(t)
    ensures Chronicle(Renewed(b, t, blockedBy))
  {
    var t' := Renewed(b, t, blockedBy);
    if t'.state != t.state {
      EntryKeepsChronicle(t, t', t'.state, "sync");
    }
  }

  lemma IntakeKeepsChronicles(b: Board, id: string, blockedBy: seq<string>)
    requires AllChronicled(b.queue)
    ensures AllChronicled(Admit(b, id, blockedBy).queue) && AllChronicled(Reingest(b, id, blockedBy).queue)
  {
    var q := b.queue + [NewTask(b, id, blockedBy)];
    SameHistories(q, BuildBlocks(q));
    match Find(b.queue, id)
    case None =>
    case Some(i) =>
      RenewedKeepsChronicle(b, b.queue[i], blockedBy);
      var q' := b.queue[i := Renewed(b, b.queue[i], blockedBy)];
      SameHistories(q', BuildBlocks(q'));
  }

  lemma StepKeepsChronicles(b: Board, c: Command)
    requires AllChronicled(b.queue)
    ensures AllChronicled(Step(b, c).queue)
  {
    match c
    case Add(id, blockedBy) => IntakeKeepsChronicles(b, id, blockedBy);
    case Again(id, blockedBy) => IntakeKeepsChronicles(b, id, blockedBy);
    case Mark(id, run) => SameHistories(b.queue, Annotate(b, id, run).queue);
    case Move(id, from, to, evidence, repair, actor) =>
      match Find(b.queue, id) {
        case None =>
        case Some(i) => TransitKeepsChronicles(b, i, to, actor);
      }
  }

  /** Over every run, every history is an unbroken account that ends at the state of its record. */
  lemma {:induction false} EveryRunIsChronicled(b: Board, commands: seq<Command>)
    requires AllChronicled(b.queue)
    ensures AllChronicled(Run(b, commands).queue)
    decreases |commands|
  {
    if commands != [] {
      StepKeepsChronicles(b, commands[0]);
      EveryRunIsChronicled(Step(b, commands[0]), commands[1..]);
    }
  }

  // ---- release -----------------------------------------------------------------------------------------------

  /** One mention of a dependent: a counter that is not zero drops by one, one that is zero is not touched; a task that waits and
      has nothing left to wait for becomes ready, and its history says from where; nothing else changes. */
  lemma MentionIs(t: Task)
    ensures var t' := ReleaseOne(t);
            && (t'.id, t'.blockedBy, t'.blocks, t'.run) == (t.id, t.blockedBy, t.blocks, t.run)
            && t'.pending == (if PendingOf(t) > 0 then Some(PendingOf(t) - 1) else t.pending)
            && if PendingOf(t) <= 1 && (t.state == Blocked || t.state == Planned)
               then t'.state == Ready && t'.history == t.history + [Entry(Some(t.state), Ready, "release")]
               else t'.state == t.state && t'.history == t.history
  {
  }

  // ---- intake ------------------------------------------------------------------------------------------------

  /** A blocker that has settled, or whose record is terminal already. */
  ghost predicate Over(b: Board, id: string) {
    id in b.settled || exists t :: t in b.queue && t.id == id && Terminal(t.state)
  }

  lemma SatisfiedIff(b: Board, id: string)
    requires DistinctIds(b.queue)
    ensures Satisfied(b, id) <==> Over(b, id)
  {
    match Find(b.queue, id)
    case None =>
    case Some(i) =>
      forall t | t in b.queue && t.id == id ensures t == b.queue[i] {
        OnlyRecord(b.queue, i, t);
      }
      assert b.queue[i] in b.queue;
  }

  lemma {:induction false} UnsatisfiedNoneIff(b: Board, blockers: seq<string>)
    requires DistinctIds(b.queue)
    ensures |Unsatisfied(b, blockers)| == 0 <==> forall x :: x in blockers ==> Over(b, x)
  {
    if blockers != [] {
      var n := |blockers| - 1;
      UnsatisfiedNoneIff(b, blockers[..n]);
      SatisfiedIff(b, blockers[n]);
      assert blockers == blockers[..n] + [blockers[n]];
    }
  }

  /** A record as a plan's intake leaves it: with the plan's own blockers, free exactly when they are all over. */
  ghost predicate TakenIn(b: Board, t: Task, id: string, blockedBy: seq<string>) {
    && t.id == id && t.blockedBy == blockedBy && t.run == UNTOUCHED && t.pending.Some?
    && (t.state == Ready || t.state == Blocked)
    && (t.state == Ready <==> forall x :: x in blockedBy ==> Over(b, x))
    && (t.state == Ready <==> t.pending == Some(0))
  }

  /** But for the list of its dependents, the record is the same. */
  predicate SameButBlocks(t: Task, t': Task) { t' == t.(blocks := t'.blocks) }

  /** A plan whose id is neither on the board nor settled is put on it, after the others, and they stay; any other changes
      nothing. */
  lemma AdmitIs(b: Board, id: string, blockedBy: seq<string>)
    requires DistinctIds(b.queue)
    ensures var (n, b') := (|b.queue|, Admit(b, id, blockedBy));
            if id in b.settled || exists t :: t in b.queue && t.id == id then b' == b
            else
              && |b'.queue| == n + 1 && b'.settled == b.settled
              && (forall i :: 0 <= i < n ==> SameButBlocks(b.queue[i], b'.queue[i]))
              && TakenIn(b, b'.queue[n], id, blockedBy) && b'.queue[n].history == [Entry(None, b'.queue[n].state, "sync")]
  {
    UnsatisfiedNoneIff(b, blockedBy);
    if t :| t in b.queue && t.id == id {
      assert id in IdsOf(b.queue);
    }
  }

  /** The record of a task that has not run: its state says so, and it names no branch, worktree, merge commit or integration
      branch. */
  predicate HasNotRun(t: Task) {
    && t.state != InProgress && t.state != AwaitingMerge && t.state != Failed && t.state != Quarantined && !Terminal(t.state)
    && t.run.branch.None? && t.run.worktree.None? && t.run.mergeCommit.None? && t.run.integrationBranch.None?
  }

  lemma InertIff(t: Task)
    ensures Inert(t) <==> HasNotRun(t)
  {
  }

  lemma RenewedIs(b: Board, t: Task, blockedBy: seq<string>)
    requires DistinctIds(b.queue) && HasNotRun(t)
    ensures TakenIn(b, Renewed(b, t, blockedBy), t.id, blockedBy)
  {
    UnsatisfiedNoneIff(b, blockedBy);
  }

  /** A plan that is read again replaces the blockers of a task that has not run, and says whether it is free now; nothing else
      changes, and nothing at all when the task has run or is not on the board. */
  lemma ReingestIs(b: Board, i: nat, blockedBy: seq<string>)
    requires DistinctIds(b.queue) && i < |b.queue|
    ensures var (t, b') := (b.queue[i], Reingest(b, b.queue[i].id, blockedBy));
            if !HasNotRun(t) then b' == b
            else
              && |b'.queue| == |b.queue| && b'.settled == b.settled && TakenIn(b, b'.queue[i], t.id, blockedBy)
              && (forall j :: 0 <= j < |b.queue| && j != i ==> SameButBlocks(b.queue[j], b'.queue[j]))
  {
    FoundAt(b.queue, i);
    InertIff(b.queue[i]);
    if HasNotRun(b.queue[i]) { RenewedIs(b, b.queue[i], blockedBy); }
  }

  lemma ReingestNobody(b: Board, id: string, blockedBy: seq<string>, run: Footprint)
    requires forall t :: t in b.queue ==> t.id != id
    ensures Reingest(b, id, blockedBy) == b && Annotate(b, id, run) == b
  {
  }

  /** Recording what a run has left changes that and nothing else. */
  lemma AnnotateIs(b: Board, i: nat, run: Footprint)
    requires DistinctIds(b.queue) && i < |b.queue|
    ensures Annotate(b, b.queue[i].id, run) == b.(queue := b.queue[i := b.queue[i].(run := run)])
  {
    FoundAt(b.queue, i);
  }
}
