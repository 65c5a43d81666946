/** The two loops of the repair pass: planning over a loaded queue, and applying against the board as it is by then. */
module HealMachine {
  import opened Wrappers
  import opened Lifecycle
  import opened BoardSteps
  import opened BoardMachine
  import opened Heal
  import opened HealTheorems
  import D = Derivation

  method PlanChanges(queue: seq<Task>, derived: map<string, D.Status>) returns (changes: seq<Change>)
    requires forall t :: t in queue ==> t.id in derived
    ensures changes == Plan(queue, derived, Holding(queue))
  {
    var holding := Holding(queue);
    changes := [];
    var i := 0;
    while i < |queue|
      invariant i <= |queue| && changes == Plan(queue[..i], derived, holding)
    {
      assert queue[..i + 1][..i] == queue[..i];
      var t := queue[i];
      if t.state != Quarantined {
        var change: Option<Change> := None;
        var status := derived[t.id];
        if status == D.Merged && t.state != Merged {
          change := Some(Change(t.id, t.state, Merged, false, None));
        } else if status == D.Ready && t.state in {Failed, Blocked, Planned} {
          change := Some(Change(t.id, t.state, Ready, true, None));
        } else if status in {D.Ready, D.Blocked} && t.state in {InProgress, AwaitingMerge} {
          change := Some(Change(t.id, t.state, if status == D.Ready then Ready else Blocked, true, None));
        }
        var n := CountHolding(t.blockedBy, holding);
        if n != PendingOf(t) {
          if change.None? {
            change := Some(Change(t.id, t.state, t.state, false, None));
          }
          change := Some(change.value.(pending := Some(n)));
        }
        if change.Some? {
          changes := changes + [change.value];
        }
      }
      i := i + 1;
    }
    assert queue[..i] == queue;
  }

  method CountHolding(blockers: seq<string>, holding: set<string>) returns (n: nat)
    ensures n == Among(blockers, holding)
  {
    n := 0;
    var k := 0;
    while k < |blockers|
      invariant k <= |blockers| && n == Among(blockers[..k], holding)
    {
      assert blockers[..k + 1][..k] == blockers[..k];
      if blockers[k] in holding {
        n := n + 1;
      }
      k := k + 1;
    }
    assert blockers[..k] == blockers;
  }

  /** Apply one change; `ok` is false when the move is refused, and then nothing at all is kept. */
  method ApplyChange(board: WorkBoard, c: Change, evidence: bool) returns (ok: bool)
    modifies board
    ensures board.Contents() == Fix(old(board.Contents()), c, evidence)
    ensures !ok ==> board.Contents() == old(board.Contents())
  {
    var at := Find(board.queue, c.id);
    if at.None? {
      return true;
    }
    var loaded, from := board.queue, board.queue[at.value].state;
    if c.pending.Some? {
      board.queue := board.queue[at.value := board.queue[at.value].(pending := c.pending)];
    }
    if from == c.to {
      assert loaded[at.value := loaded[at.value]] == loaded;
      return true;
    }
    assert board.queue == loaded[at.value := Recounted(loaded[at.value], c)];
    FoundAgain(loaded, at.value, c.id, board.queue);
    ok := board.Apply(c.id, from, c.to, evidence, c.repair, "heal");
    if !ok {
      board.queue := loaded;
    }
  }

  lemma {:induction false} FoundAgain(q: seq<Task>, i: nat, id: string, q': seq<Task>)
    requires Find(q, id) == Some(i) && |q'| == |q|
    requires forall j :: 0 <= j < |q| ==> q'[j].id == q[j].id
    ensures Find(q', id) == Some(i)
  {
    if q[0].id != id {
      FoundAgain(q[1..], i - 1, id, q'[1..]);
    }
  }

  method ApplyChanges(board: WorkBoard, changes: seq<Change>, evidence: seq<bool>) returns (applied: nat, failed: nat)
    requires |evidence| == |changes|
    modifies board
    ensures board.Contents() == Pass(old(board.Contents()), changes, evidence, 0)
    ensures applied + failed == |changes|
  {
    applied, failed := 0, 0;
    var i := 0;
    while i < |changes|
      invariant i <= |changes| && applied + failed == i
      invariant Pass(board.Contents(), changes, evidence, i) == Pass(old(board.Contents()), changes, evidence, 0)
    {
      var ok := ApplyChange(board, changes[i], evidence[i]);
      if ok {
        applied := applied + 1;
      } else {
        failed := failed + 1;
      }
      i := i + 1;
    }
  }
}
