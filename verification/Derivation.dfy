/**
 Deriving a task's state from git ground truth: the recursion over blockers, when it comes back, what it says, and
 the memoised loop that computes it for a whole board.
 */
module Derivation {
  import opened Wrappers
  import opened History

  /** What git and the file system say about one task; `None` is a ref or commit that does not resolve. */
  datatype Facts = Facts(
    branch: Option<Commit>,
    mergeCommit: Option<Commit>,
    base: Option<Commit>,
    target: Option<Commit>,
    planExists: bool)

  datatype Node = Node(blockedBy: seq<string>, facts: Facts)

  /** The tasks on the board, by id. */
  type Graph = map<string, Node>

  datatype Status = Merged | InProgress | Ready | Blocked | Drift

  /** `branch_has_own_commits`: fails closed without a recorded base. */
  predicate OwnCommits(f: Facts) {
    f.branch.Some? && f.base.Some? && f.branch != f.base
  }

  predicate OnTarget(c: Commit, f: Facts) {
    f.target.Some? && c <= f.target.value
  }

  /** `has_merge_evidence`: ancestry alone is not proof. */
  predicate MergeEvidence(f: Facts) {
    || (f.mergeCommit.Some? && f.mergeCommit != f.base && OnTarget(f.mergeCommit.value, f))
    || (f.branch.Some? && OwnCommits(f) && OnTarget(f.branch.value, f))
  }

  /** Commit `c` shows that the task's work has arrived: it is on the target, it is not the one the branch was cut from, and it
      is the recorded merge commit or, where the base is recorded, the tip of the branch. */
  predicate Shows(f: Facts, c: Commit) {
    && f.target.Some? && c <= f.target.value && f.base != Some(c)
    && (f.mergeCommit == Some(c) || (f.branch == Some(c) && f.base.Some?))
  }

  /** Ancestry alone is not proof: there is evidence exactly when some commit that is not the base shows it. */
  lemma EvidenceIff(f: Facts)
    ensures MergeEvidence(f) <==> exists c :: Shows(f, c)
  {
    if MergeEvidence(f) {
      assert Shows(f, if f.mergeCommit.Some? && f.mergeCommit != f.base && OnTarget(f.mergeCommit.value, f)
                      then f.mergeCommit.value else f.branch.value);
    }
  }

  /** A branch that has not left its base, or whose base is not recorded, shows neither running nor merged work, wherever the
      target is. */
  lemma NothingToShow(f: Facts)
    requires (f.branch.None? || f.base.None? || f.branch == f.base) && (f.mergeCommit.None? || f.mergeCommit == f.base)
    ensures !OwnCommits(f) && !MergeEvidence(f)
  {
    EvidenceIff(f);
  }

  /** Evidence is never lost while the target only moves forward. */
  lemma EvidenceSurvives(f: Facts, later: Commit)
    requires f.target.Some? && f.target.value <= later
    ensures MergeEvidence(f) ==> MergeEvidence(f.(target := Some(later)))
  {
  }

  /** The recursion looks at the blockers of these tasks only. */
  predicate Explored(n: Node) {
    !MergeEvidence(n.facts) && !OwnCommits(n.facts) && n.facts.planExists
  }

  /** A blocker that holds nobody back: it is off the board, or its work is on the target. */
  predicate Cleared(g: Graph, id: string) {
    id in g ==> MergeEvidence(g[id].facts)
  }

  // ---- the meaning, with no recursion ------------------------------------------------------------------------

  function Derived(g: Graph, id: string): Status
    requires id in g
  {
    var n := g[id];
    if MergeEvidence(n.facts) then Merged
    else if OwnCommits(n.facts) then InProgress
    else if !n.facts.planExists then Drift
    else if forall x :: x in n.blockedBy ==> Cleared(g, x) then Ready
    else Blocked
  }

  // ---- the recursion -----------------------------------------------------------------------------------------

  /** `derive_status` calling itself for blockers, with a bounded call stack; `None` is a stack overflow. */
  function Recurse(g: Graph, id: string, stack: nat): Option<Status>
    requires id in g
    decreases stack, 0
  {
    var n := g[id];
    if stack == 0 then None
    else if MergeEvidence(n.facts) then Some(Merged)
    else if OwnCommits(n.facts) then Some(InProgress)
    else if !n.facts.planExists then Some(Drift)
    else
      match AllTerminal(g, n.blockedBy, 0, stack - 1)
      case None => None
      case Some(all) => Some(if all then Ready else Blocked)
  }

  /** `all(blocker_status(b) in terminal for b in blockers)`, which stops at the first that is not. */
  function AllTerminal(g: Graph, blockers: seq<string>, k: nat, stack: nat): Option<bool>
    requires k <= |blockers|
    decreases stack, 1 + |blockers| - k
  {
    if k == |blockers| then Some(true)
    else
      var status := if blockers[k] in g then Recurse(g, blockers[k], stack) else Some(Merged);
      if status.None? then None
      else if status.value == Merged then AllTerminal(g, blockers, k + 1, stack)
      else Some(false)
  }

  /** Whenever the recursion comes back, it says what one look at each blocker's own facts says. */
  lemma {:induction false} RecursionIsExact(g: Graph, id: string, stack: nat)
    requires id in g && Recurse(g, id, stack).Some?
    ensures Recurse(g, id, stack).value == Derived(g, id)
    decreases stack, 0
  {
    if Explored(g[id]) {
      AllTerminalIsExact(g, g[id].blockedBy, 0, stack - 1);
    }
  }

  lemma {:induction false} AllTerminalIsExact(g: Graph, blockers: seq<string>, k: nat, stack: nat)
    requires k <= |blockers| && AllTerminal(g, blockers, k, stack).Some?
    ensures AllTerminal(g, blockers, k, stack).value <==> forall j :: k <= j < |blockers| ==> Cleared(g, blockers[j])
    decreases stack, 1 + |blockers| - k
  {
    if k < |blockers| {
      if blockers[k] in g {
        RecursionIsExact(g, blockers[k], stack);
      }
      if Cleared(g, blockers[k]) {
        AllTerminalIsExact(g, blockers, k + 1, stack);
      }
    }
  }

  /** `ready` means exactly: no evidence of merged or running work, a plan, and every blocker derived merged or gone. */
  lemma ReadyMeans(g: Graph, id: string, stack: nat)
    requires id in g && Recurse(g, id, stack).Some?
    ensures Recurse(g, id, stack).value == Ready <==>
      Explored(g[id]) && forall x :: x in g[id].blockedBy && x in g ==> Derived(g, x) == Merged
  {
    RecursionIsExact(g, id, stack);
    if Explored(g[id]) {
      forall x | x in g[id].blockedBy ensures Cleared(g, x) <==> x in g ==> Derived(g, x) == Merged {}
    }
  }

  /** And the other states: merged by evidence, else in progress by the branch's own commits, else drifted when the plan is gone,
      else blocked when some blocker on the board does not derive merged. */
  lemma StatusMeans(g: Graph, id: string, stack: nat)
    requires id in g && Recurse(g, id, stack).Some?
    ensures var (status, f) := (Recurse(g, id, stack).value, g[id].facts);
            && (status == Merged <==> MergeEvidence(f))
            && (status == InProgress <==> !MergeEvidence(f) && OwnCommits(f))
            && (status == Drift <==> !MergeEvidence(f) && !OwnCommits(f) && !f.planExists)
            && (status == Blocked <==> Explored(g[id]) && exists x :: x in g[id].blockedBy && x in g && Derived(g, x) != Merged)
  {
    RecursionIsExact(g, id, stack);
    ReadyMeans(g, id, stack);
  }

  // ---- when it comes back ------------------------------------------------------------------------------------

  /** The recursion for `id` reaches its k-th blocker: everything before it was cleared. */
  ghost predicate Calls(g: Graph, id: string, k: nat)
    requires id in g
  {
    && k < |g[id].blockedBy| && g[id].blockedBy[k] in g
    && Explored(g[id])
    && forall j :: 0 <= j < k ==> Cleared(g, g[id].blockedBy[j])
  }

  /** `blocked_by` is acyclic as far as the recursion follows it. */
  ghost predicate Ranked(g: Graph, rank: map<string, nat>) {
    && rank.Keys == g.Keys
    && forall id, k :: id in g && 0 <= k && Calls(g, id, k) ==> rank[g[id].blockedBy[k]] < rank[id]
  }

  ghost predicate Returns(g: Graph, stack: nat) {
    forall id :: id in g ==> Recurse(g, id, stack).Some?
  }

  lemma {:induction false} DeeperIsEnough(g: Graph, id: string, stack: nat, deeper: nat)
    requires id in g && stack <= deeper && Recurse(g, id, stack).Some?
    ensures Recurse(g, id, deeper) == Recurse(g, id, stack)
    decreases stack, 0
  {
    if Explored(g[id]) {
      AllTerminalDeeper(g, g[id].blockedBy, 0, stack - 1, deeper - 1);
    }
  }

  lemma {:induction false} AllTerminalDeeper(g: Graph, blockers: seq<string>, k: nat, stack: nat, deeper: nat)
    requires k <= |blockers| && stack <= deeper && AllTerminal(g, blockers, k, stack).Some?
    ensures AllTerminal(g, blockers, k, deeper) == AllTerminal(g, blockers, k, stack)
    decreases stack, 1 + |blockers| - k
  {
    if k < |blockers| {
      if blockers[k] in g {
        DeeperIsEnough(g, blockers[k], stack, deeper);
      }
      if AllTerminal(g, blockers, k, stack) != Some(false) || Cleared(g, blockers[k]) {
        if blockers[k] !in g || Recurse(g, blockers[k], stack).value == Merged {
          AllTerminalDeeper(g, blockers, k + 1, stack, deeper);
        }
      }
    }
  }

  /** Acyclic boards need no more stack than the rank. */
  lemma {:induction false} RankIsEnough(g: Graph, rank: map<string, nat>, id: string)
    requires Ranked(g, rank) && id in g
    ensures Recurse(g, id, rank[id] + 1).Some?
    decreases rank[id], 0
  {
    if Explored(g[id]) {
      RankIsEnoughFrom(g, rank, id, 0);
    }
  }

  lemma {:induction false} RankIsEnoughFrom(g: Graph, rank: map<string, nat>, id: string, k: nat)
    requires Ranked(g, rank) && id in g && Explored(g[id]) && k <= |g[id].blockedBy|
    requires forall j :: 0 <= j < k ==> Cleared(g, g[id].blockedBy[j])
    ensures AllTerminal(g, g[id].blockedBy, k, rank[id]).Some?
    decreases rank[id], 0, |g[id].blockedBy| - k
  {
    if k < |g[id].blockedBy| {
      var x := g[id].blockedBy[k];
      if x in g {
        assert Calls(g, id, k);
        RankIsEnough(g, rank, x);
        DeeperIsEnough(g, x, rank[x] + 1, rank[id]);
        RecursionIsExact(g, x, rank[id]);
      }
      if Cleared(g, x) {
        RankIsEnoughFrom(g, rank, id, k + 1);
      }
    }
  }

  lemma {:induction false} RankBound(rank: map<string, nat>, ids: set<string>) returns (bound: nat)
    requires ids <= rank.Keys
    ensures forall id :: id in ids ==> rank[id] < bound
  {
    bound := 0;
    if ids != {} {
      var id :| id in ids;
      var rest := RankBound(rank, ids - {id});
      bound := if rest <= rank[id] then rank[id] + 1 else rest;
    }
  }

  /** The least stack that brings the derivation of `id` back. */
  function Depth(g: Graph, id: string, stack: nat): (d: nat)
    requires id in g && Recurse(g, id, stack).Some?
    ensures d <= stack && Recurse(g, id, d).Some? && forall s: nat :: s < d ==> Recurse(g, id, s).None?
  {
    if Recurse(g, id, stack - 1).None? then ShallowerFails(g, id, stack - 1); stack
    else Depth(g, id, stack - 1)
  }

  lemma ShallowerFails(g: Graph, id: string, stack: nat)
    requires id in g && Recurse(g, id, stack).None?
    ensures forall s: nat :: s <= stack ==> Recurse(g, id, s).None?
  {
    forall s: nat | s <= stack ensures Recurse(g, id, s).None? {
      if Recurse(g, id, s).Some? {
        DeeperIsEnough(g, id, s, stack);
      }
    }
  }

  /** A derivation that comes back has brought back every blocker it called, with less stack. */
  lemma CalleesReturn(g: Graph, id: string, k: nat, stack: nat)
    requires id in g && Recurse(g, id, stack).Some? && Calls(g, id, k)
    ensures Recurse(g, g[id].blockedBy[k], stack - 1).Some?
  {
    CalleesReturnFrom(g, g[id].blockedBy, 0, k, stack - 1);
  }

  lemma {:induction false} CalleesReturnFrom(g: Graph, blockers: seq<string>, at: nat, k: nat, stack: nat)
    requires at <= k < |blockers| && AllTerminal(g, blockers, at, stack).Some? && blockers[k] in g
    requires forall j :: at <= j < k ==> Cleared(g, blockers[j])
    ensures Recurse(g, blockers[k], stack).Some?
    decreases k - at
  {
    if at < k {
      if blockers[at] in g {
        RecursionIsExact(g, blockers[at], stack);
      }
      CalleesReturnFrom(g, blockers, at + 1, k, stack);
    }
  }

  /** With enough stack the recursion returns for every task of a board exactly when `blocked_by` is acyclic as far as the
      recursion follows it; on any other board no stack is enough. */
  lemma ReturnsExactlyWhenAcyclic(g: Graph)
    ensures (exists stack: nat :: Returns(g, stack)) <==> exists rank :: Ranked(g, rank)
  {
    if stack: nat :| Returns(g, stack) {
      var rank: map<string, nat> := map id | id in g :: Depth(g, id, stack);
      forall id, k | id in g && 0 <= k && Calls(g, id, k)
        ensures rank[g[id].blockedBy[k]] < rank[id]
      {
        CalleesReturn(g, id, k, rank[id]);
      }
      assert Ranked(g, rank);
    }
    if rank :| Ranked(g, rank) {
      var stack := RankBound(rank, g.Keys);
      forall id | id in g ensures Recurse(g, id, stack).Some? {
        RankIsEnough(g, rank, id);
        DeeperIsEnough(g, id, rank[id] + 1, stack);
      }
      assert Returns(g, stack);
    }
  }

  /** A task that names itself as a blocker and has nothing to show yet. */
  function Looped(): Graph {
    map["a" := Node(["a"], Facts(None, None, None, None, true))]
  }

  /** For such a task the recursion never returns, however deep the stack. */
  lemma {:induction false} SelfBlockerNeverReturns(stack: nat)
    ensures Recurse(Looped(), "a", stack).None?
  {
    if stack > 0 {
      SelfBlockerNeverReturns(stack - 1);
      assert AllTerminal(Looped(), ["a"], 0, stack - 1).None?;
    }
  }

  // ---- the memoised loop -------------------------------------------------------------------------------------

  class Deriver {
    const g: Graph
    var derived: map<string, Status>

    constructor (g: Graph)
      ensures this.g == g && derived == map[] && Valid()
    {
      this.g := g;
      derived := map[];
    }

    /** Whatever is in the memo is the value of the recursion. */
    ghost predicate Valid()
      reads this
    {
      forall id :: id in derived ==> id in g && derived[id] == Derived(g, id)
    }

    method DeriveStatus(id: string, ghost rank: map<string, nat>) returns (status: Status)
      requires Valid() && Ranked(g, rank) && id in g
      modifies this
      ensures Valid() && old(derived.Keys) <= derived.Keys
      ensures status == Derived(g, id)
      decreases rank[id], 1
    {
      var n := g[id];
      if MergeEvidence(n.facts) {
        return Merged;
      } else if OwnCommits(n.facts) {
        return InProgress;
      } else if !n.facts.planExists {
        return Drift;
      }
      var k := 0;
      while k < |n.blockedBy|
        invariant k <= |n.blockedBy| && Valid() && old(derived.Keys) <= derived.Keys
        invariant forall j :: 0 <= j < k ==> Cleared(g, n.blockedBy[j])
      {
        assert n.blockedBy[k] in g ==> Calls(g, id, k);
        var status := BlockerStatus(n.blockedBy[k], rank, rank[id]);
        if status != Merged {
          assert !Cleared(g, n.blockedBy[k]);
          return Blocked;
        }
        k := k + 1;
      }
      return Ready;
    }

    /** A blocker off the board counts as merged; one on it is derived once and remembered, after the call returns. */
    method BlockerStatus(id: string, ghost rank: map<string, nat>, ghost below: nat) returns (status: Status)
      requires Valid() && Ranked(g, rank)
      requires id in g ==> rank[id] < below
      modifies this
      ensures Valid() && old(derived.Keys) <= derived.Keys
      ensures status == Merged <==> Cleared(g, id)
      decreases below, 0
    {
      if id !in g {
        return Merged;
      }
      if id !in derived {
        var first := DeriveStatus(id, rank);
        derived := derived[id := first];
      }
      return derived[id];
    }

    /** `_derive_all_states`: whatever the order of the queue, the memo ends as the recursion's value for every task. */
    method DeriveAll(queue: seq<string>, ghost rank: map<string, nat>)
      requires Valid() && Ranked(g, rank) && (forall id :: id in queue <==> id in g)
      modifies this
      ensures derived == map id | id in g :: Derived(g, id)
    {
      var i := 0;
      while i < |queue|
        invariant i <= |queue| && Valid() && forall j :: 0 <= j < i ==> queue[j] in derived
      {
        if queue[i] !in derived {
          var status := DeriveStatus(queue[i], rank);
          derived := derived[queue[i] := status];
        }
        i := i + 1;
      }
    }
  }
}
