/**
 The open-work board: the records with their dependency counters, intake, and the state transitions that move the
 dependency frontier.
 */
module BoardSteps {
  import opened Wrappers
  import opened Lifecycle

  datatype Entry = Entry(from: Option<State>, to: State, actor: string)

  /** What a run leaves on a record; `None` is an absent field. */
  datatype Footprint = Footprint(
    branch: Option<string>,
    worktree: Option<string>,
    mergeCommit: Option<string>,
    integrationBranch: Option<string>)

  const UNTOUCHED := Footprint(None, None, None, None)

  /** `pending` is the incremental counter of unsettled blockers (`None` when it was never initialised), `blocks` the
      inverse of `blockedBy` over the board. */
  datatype Task = Task(
    id: string,
    state: State,
    blockedBy: seq<string>,
    blocks: seq<string>,
    pending: Option<nat>,
    run: Footprint,
    history: seq<Entry>)

  /** The live queue, and the ids that left it by assertion. */
  datatype Board = Board(queue: seq<Task>, settled: set<string>)

  /** `pending_blockers`. */
  function PendingOf(t: Task): nat {
    if t.pending.Some? then t.pending.value else |t.blockedBy|
  }

  function Find(q: seq<Task>, id: string): (at: Option<nat>)
    ensures at.Some? ==> at.value < |q| && q[at.value].id == id
    ensures at.None? ==> forall t :: t in q ==> t.id != id
  {
    if q == [] then None
    else if q[0].id == id then Some(0)
    else match Find(q[1..], id) case None => None case Some(i) => Some(i + 1)
  }

  function IdsOf(q: seq<Task>): set<string> { set t | t in q :: t.id }

  // ---- blocks, the inverse of blocked_by ---------------------------------------------------------------------

  /** The ids of the tasks that name `id` as a blocker, once per mention, in queue order. */
  function Dependents(q: seq<Task>, id: string): seq<string> {
    if q == [] then []
    else
      var last := q[|q| - 1];
      Dependents(q[..|q| - 1], id) + Repeat(last.id, multiset(last.blockedBy)[id])
  }

  function Repeat(id: string, n: nat): (s: seq<string>)
    ensures |s| == n && forall i :: 0 <= i < n ==> s[i] == id
  {
    seq(n, _ => id)
  }

  function BuildBlocks(q: seq<Task>): (q': seq<Task>)
    ensures |q'| == |q| && forall i :: 0 <= i < |q| ==> q'[i] == q[i].(blocks := Dependents(q, q[i].id))
  {
    seq(|q|, i requires 0 <= i < |q| => q[i].(blocks := Dependents(q, q[i].id)))
  }

  // ---- intake ------------------------------------------------------------------------------------------------

  /** A blocker is satisfied by a tombstone or by a terminal record; one that is simply absent is pending. */
  predicate Satisfied(b: Board, id: string) {
    || id in b.settled
    || match Find(b.queue, id)
       case None => false
       case Some(i) => Terminal(b.queue[i].state)
  }

  function Unsatisfied(b: Board, blockers: seq<string>): seq<string> {
    if blockers == [] then []
    else
      var last := blockers[|blockers| - 1];
      Unsatisfied(b, blockers[..|blockers| - 1]) + (if Satisfied(b, last) then [] else [last])
  }

  function NewTask(b: Board, id: string, blockedBy: seq<string>): Task {
    var n := |Unsatisfied(b, blockedBy)|;
    var state := if n == 0 then Ready else Blocked;
    Task(id, state, blockedBy, [], Some(n), UNTOUCHED, [Entry(None, state, "sync")])
  }

  /** Add a plan to the board, unless its id is live or settled. */
  function Admit(b: Board, id: string, blockedBy: seq<string>): Board {
    if id in IdsOf(b.queue) || id in b.settled then b
    else b.(queue := BuildBlocks(b.queue + [NewTask(b, id, blockedBy)]))
  }

  /** The record has not run: neither its state nor anything it holds says so. */
  predicate Inert(t: Task) {
    (t.state == Planned || t.state == Ready || t.state == Blocked) && t.run == UNTOUCHED
  }

  /** Another command records, or clears, what a run has left. */
  function Annotate(b: Board, id: string, run: Footprint): Board {
    match Find(b.queue, id)
    case None => b
    case Some(i) => b.(queue := b.queue[i := b.queue[i].(run := run)])
  }

  /** What a re-read plan changes on a record: blockers, counter and state; the identity and the history stay. */
  function Renewed(b: Board, t: Task, blockedBy: seq<string>): Task {
    var rebuilt := NewTask(b, t.id, blockedBy);
    var news := if t.state != rebuilt.state then [Entry(Some(t.state), rebuilt.state, "sync")] else [];
    t.(blockedBy := blockedBy, pending := rebuilt.pending, state := rebuilt.state, history := t.history + news)
  }

  /** Read an inert task's plan again. */
  function Reingest(b: Board, id: string, blockedBy: seq<string>): Board {
    match Find(b.queue, id)
    case None => b
    case Some(i) =>
      if !Inert(b.queue[i]) then b
      else b.(queue := BuildBlocks(b.queue[i := Renewed(b, b.queue[i], blockedBy)]))
  }

  // ---- transitions -------------------------------------------------------------------------------------------

  /** One mention of a dependent: its counter drops, and at zero a waiting task becomes ready. */
  function ReleaseOne(t: Task): Task {
    var n := PendingOf(t);
    var t' := if n > 0 then t.(pending := Some(n - 1)) else t;
    if PendingOf(t') == 0 && (t.state == Blocked || t.state == Planned)
    then t'.(state := Ready, history := t.history + [Entry(Some(t.state), Ready, "release")])
    else t'
  }

  function Release(q: seq<Task>, blocks: seq<string>): (q': seq<Task>)
    ensures |q'| == |q|
  {
    if blocks == [] then q
    else
      var q' := Release(q, blocks[..|blocks| - 1]);
      match Find(q', blocks[|blocks| - 1])
      case None => q'
      case Some(i) => q'[i := ReleaseOne(q'[i])]
  }

  /** `validate_transition`, and its relaxation for repairs: the caller names the state it believes in, the lifecycle table
      binds everybody but a repair, and nobody sets `merged` without evidence. */
  predicate Permitted(t: Task, from: State, to: State, evidence: bool, repair: bool) {
    && from == t.state
    && (repair || to in LegalTargets(from))
    && (to == Merged ==> evidence)
  }

  function Moved(t: Task, to: State, actor: string): Task {
    t.(state := to, history := t.history + [Entry(Some(t.state), to, actor)])
  }

  /** The effect of a transition that has been let through: a terminal task releases its dependents and leaves. */
  function Transit(b: Board, i: nat, to: State, actor: string): Board
    requires i < |b.queue|
  {
    var q := b.queue[i := Moved(b.queue[i], to, actor)];
    if Terminal(to) then Board(Without(Release(q, q[i].blocks), i), b.settled + {q[i].id})
    else b.(queue := q)
  }

  /** A requested transition: refused ones change nothing. */
  function Apply(b: Board, id: string, from: State, to: State, evidence: bool, repair: bool, actor: string): Board {
    match Find(b.queue, id)
    case None => b
    case Some(i) => if Permitted(b.queue[i], from, to, evidence, repair) then Transit(b, i, to, actor) else b
  }
}
