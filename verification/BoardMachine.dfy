/**
 The board as the code edits it: records changed in place, one loop per pass, each pass proved to do what the
 corresponding step of `BoardSteps` says.
 */
module BoardMachine {
  import opened Wrappers
  import opened Lifecycle
  import opened BoardSteps
  import opened Frontier

  lemma NewIdIsDistinct(q: seq<Task>, t: Task)
    requires DistinctIds(q) && Find(q, t.id).None?
    ensures DistinctIds(q + [t]) && t.id !in IdsOf(q)
  {
    forall i | 0 <= i < |q| ensures q[i].id != t.id {
      assert q[i] in q;
    }
  }

  /** `now` are the records `q` with `id` appended to the `blocks` of each, once per mention in `named`. */
  ghost predicate Mentioned(q: seq<Task>, id: string, named: seq<string>, now: seq<Task>) {
    && |now| == |q|
    && forall x :: 0 <= x < |q| ==> now[x] == q[x].(blocks := q[x].blocks + Repeat(id, multiset(named)[q[x].id]))
  }

  lemma MentionedNever(q: seq<Task>, id: string)
    ensures Mentioned(q, id, [], q)
  {
    forall x | 0 <= x < |q| ensures q[x].blocks + Repeat(id, 0) == q[x].blocks {
    }
  }

  lemma RepeatOnce(id: string, n: nat)
    ensures Repeat(id, n) + [id] == Repeat(id, n + 1)
  {
  }

  lemma MentionedOnce(q: seq<Task>, id: string, named: seq<string>, name: string, now: seq<Task>)
    requires DistinctIds(q) && Mentioned(q, id, named, now)
    ensures match Find(now, name)
            case None => Mentioned(q, id, named + [name], now)
            case Some(at) => Mentioned(q, id, named + [name], now[at := now[at].(blocks := now[at].blocks + [id])])
  {
    match Find(now, name)
    case None =>
      forall x | 0 <= x < |q| ensures q[x].id != name {
        assert now[x] in now;
      }
    case Some(at) =>
      var n := multiset(named)[name];
      RepeatOnce(id, n);
      assert q[at].blocks + Repeat(id, n) + [id] == q[at].blocks + Repeat(id, n + 1);
      forall x | 0 <= x < |q| && x != at ensures q[x].id != name {
      }
  }

  class WorkBoard {
    var queue: seq<Task>
    var settled: set<string>

    ghost function Contents(): Board
      reads this
    {
      Board(queue, settled)
    }

    ghost predicate Valid()
      reads this
    {
      Inv(Contents())
    }

    constructor ()
      ensures Valid() && queue == [] && settled == {}
    {
      queue, settled := [], {};
    }

    // ---- build_blocks ----------------------------------------------------------------------------------------

    /** Append the i-th task to the `blocks` of every task it names, once per mention. */
    method Mention(i: nat)
      requires DistinctIds(queue) && i < |queue|
      modifies `queue
      ensures Mentioned(old(queue), old(queue)[i].id, old(queue)[i].blockedBy, queue)
    {
      ghost var q := queue;
      var id, blockedBy := queue[i].id, queue[i].blockedBy;
      var k := 0;
      MentionedNever(q, id);
      while k < |blockedBy|
        invariant k <= |blockedBy| && Mentioned(q, id, blockedBy[..k], queue)
      {
        assert blockedBy[..k + 1] == blockedBy[..k] + [blockedBy[k]];
        MentionedOnce(q, id, blockedBy[..k], blockedBy[k], queue);
        match Find(queue, blockedBy[k]) {
          case None =>
          case Some(at) => queue := queue[at := queue[at].(blocks := queue[at].blocks + [id])];
        }
        k := k + 1;
      }
      assert blockedBy[..k] == blockedBy;
    }

    method BuildBlocks()
      requires DistinctIds(queue)
      modifies `queue
      ensures queue == BoardSteps.BuildBlocks(old(queue))
    {
      ghost var q := queue;
      var i := 0;
      while i < |queue|
        invariant i <= |queue| == |q|
        invariant forall x :: 0 <= x < |q| ==> queue[x] == if x < i then q[x].(blocks := []) else q[x]
      {
        queue := queue[i := queue[i].(blocks := [])];
        i := i + 1;
      }
      i := 0;
      while i < |queue|
        invariant i <= |queue| == |q|
        invariant forall x :: 0 <= x < |q| ==> queue[x] == q[x].(blocks := Dependents(q[..i], q[x].id))
      {
        Mention(i);
        assert q[..i + 1][..i] == q[..i];
        i := i + 1;
      }
      assert q[..i] == q;
    }

    // ---- intake ----------------------------------------------------------------------------------------------

    /** Count the blockers without positive evidence of having settled. */
    method CountPending(blockedBy: seq<string>) returns (n: nat)
      ensures n == |Unsatisfied(Contents(), blockedBy)|
      ensures Valid() ==> n == Unsettled(blockedBy, settled)
    {
      n := 0;
      var k := 0;
      while k < |blockedBy|
        invariant k <= |blockedBy| && n == |Unsatisfied(Contents(), blockedBy[..k])|
      {
        assert blockedBy[..k + 1][..k] == blockedBy[..k];
        if !Satisfied(Board(queue, settled), blockedBy[k]) {
          n := n + 1;
        }
        k := k + 1;
      }
      assert blockedBy[..k] == blockedBy;
      if Valid() {
        IntakeCounts(Contents(), blockedBy);
      }
    }

    method Admit(id: string, blockedBy: seq<string>)
      requires Valid()
      modifies `queue
      ensures Contents() == BoardSteps.Admit(old(Contents()), id, blockedBy) && Valid()
    {
      AdmitKeepsInv(Contents(), id, blockedBy);
      var at := Find(queue, id);
      if at.Some? || id in settled {
        return;
      }
      var n := CountPending(blockedBy);
      var state := if n == 0 then Ready else Blocked;
      NewIdIsDistinct(queue, Task(id, state, blockedBy, [], Some(n), UNTOUCHED, [Entry(None, state, "sync")]));
      queue := queue + [Task(id, state, blockedBy, [], Some(n), UNTOUCHED, [Entry(None, state, "sync")])];
      BuildBlocks();
    }

    method Reingest(id: string, blockedBy: seq<string>)
      requires Valid()
      modifies `queue
      ensures Contents() == BoardSteps.Reingest(old(Contents()), id, blockedBy) && Valid()
    {
      ReingestKeepsInv(Contents(), id, blockedBy);
      var at := Find(queue, id);
      if at.None? || !Inert(queue[at.value]) {
        return;
      }
      var t := queue[at.value];
      var n := CountPending(blockedBy);
      var state := if n == 0 then Ready else Blocked;
      var history := t.history;
      if t.state != state {
        history := history + [Entry(Some(t.state), state, "sync")];
      }
      t := t.(blockedBy := blockedBy, pending := Some(n), state := state, history := history);
      assert t == Renewed(Contents(), queue[at.value], blockedBy);
      queue := queue[at.value := t];
      BuildBlocks();
    }

    /** Record what a run leaves on a task. */
    method Annotate(id: string, run: Footprint)
      requires Valid()
      modifies `queue
      ensures Contents() == BoardSteps.Annotate(old(Contents()), id, run) && Valid()
    {
      AnnotateKeepsInv(Contents(), id, run);
      var at := Find(queue, id);
      if at.Some? {
        queue := queue[at.value := queue[at.value].(run := run)];
      }
    }

    // ---- transitions -----------------------------------------------------------------------------------------

    /** The release loop: every mention drops a counter, and a waiting task whose counter is at zero becomes ready. */
    method ReleaseAll(blocks: seq<string>)
      modifies `queue
      ensures queue == Release(old(queue), blocks)
    {
      ghost var q := queue;
      var k := 0;
      while k < |blocks|
        invariant k <= |blocks| && queue == Release(q, blocks[..k])
      {
        assert blocks[..k + 1][..k] == blocks[..k];
        var at := Find(queue, blocks[k]);
        if at.Some? {
          var dep := queue[at.value];
          var n := PendingOf(dep);
          if n > 0 {
            n := n - 1;
            dep := dep.(pending := Some(n));
          }
          if n == 0 && (dep.state == Blocked || dep.state == Planned) {
            dep := dep.(state := Ready, history := dep.history + [Entry(Some(dep.state), Ready, "release")]);
          }
          queue := queue[at.value := dep];
        }
        k := k + 1;
      }
      assert blocks[..k] == blocks;
    }

    /** A terminal task releases its dependents, is sealed and leaves the board. */
    method Settle(i: nat)
      requires i < |queue|
      modifies this
      ensures queue == Without(Release(old(queue), old(queue)[i].blocks), i)
      ensures settled == old(settled) + {old(queue)[i].id}
    {
      var t := queue[i];
      ReleaseAll(t.blocks);
      queue := queue[..i] + queue[i + 1..];
      settled := settled + {t.id};
    }

    /** A transition that has been let through; a terminal task is settled. */
    method Transition(i: nat, to: State, actor: string)
      requires i < |queue|
      modifies this
      ensures Contents() == Transit(old(Contents()), i, to, actor)
    {
      var t := queue[i];
      queue := queue[i := t.(state := to, history := t.history + [Entry(Some(t.state), to, actor)])];
      if Terminal(to) {
        Settle(i);
      }
    }

    /** Move a task. A refusal changes nothing. */
    method Apply(id: string, from: State, to: State, evidence: bool, repair: bool, actor: string) returns (ok: bool)
      modifies this
      ensures Contents() == BoardSteps.Apply(old(Contents()), id, from, to, evidence, repair, actor)
      ensures ok <==> Find(old(queue), id).Some? && Permitted(old(queue)[Find(old(queue), id).value], from, to, evidence, repair)
    {
      var at := Find(queue, id);
      if at.None? {
        return false;
      }
      if !Permitted(queue[at.value], from, to, evidence, repair) {
        return false;
      }
      Transition(at.value, to, actor);
      return true;
    }

    // ---- dispatch --------------------------------------------------------------------------------------------

    /** The next task to run is the first ready one, and on a sound, truthful board nothing it waits for is unsettled. */
    method NextUnblocked() returns (next: Option<Task>)
      ensures next.None? <==> forall t :: t in queue ==> t.state != Ready
      ensures next.Some? ==>
        exists i :: 0 <= i < |queue| && queue[i] == next.value && forall j :: 0 <= j < i ==> queue[j].state != Ready
      ensures next.Some? ==> next.value.state == Ready
      ensures next.Some? && Valid() && AllTruthful(Contents()) ==> forall x :: x in next.value.blockedBy ==> x in settled
    {
      var i := 0;
      while i < |queue|
        invariant i <= |queue| && forall j :: 0 <= j < i ==> queue[j].state != Ready
      {
        if queue[i].state == Ready {
          assert queue[i] in queue;
          UnsettledZero(queue[i].blockedBy, settled);
          return Some(queue[i]);
        }
        i := i + 1;
      }
      return None;
    }
  }
}
