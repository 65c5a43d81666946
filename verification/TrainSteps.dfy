/**
 The merge train as a state machine: what each critical section of `integrate` and `flush` does to the refs and
 to the task records.  Everything between two critical sections is a window in which other processes act.
 */
module TrainSteps {
  import opened Wrappers
  import opened History
  import opened Lifecycle
  import Bisect

  datatype Marker = Marker(branch: string, commit: Commit, position: nat)

  datatype Reason = BatchValidation | RestackConflict | RebaseConflict

  datatype Task = Task(
    id: string,
    state: State,
    train: Option<Marker>,
    diagnostics: Option<Reason>,
    mergeCommit: Option<Commit>)

  /** The refs of one integration branch and the task records.  `staging` is `refs/aet/train/<branch>`, `local` the
      branch itself, `tracking` the remote-tracking ref and `remote` the branch on origin. */
  datatype Repo = Repo(
    branch: string,
    staging: Option<Commit>,
    local: Option<Commit>,
    tracking: Commit,
    remote: Commit,
    checkedOut: bool,
    queue: seq<Task>,
    sealed: seq<Task>)

  datatype Use = ForSnapshot | ForBisect | ForRetry

  /** What the code cannot decide for itself.  Outcomes that may differ from one run to the next take the number of
      the run. */
  datatype World = World(
    exit: Bisect.Validation,                    // exit status 0 of the n-th validation
    worktree: (Use, nat) -> bool,               // the temporary worktree could be created
    pick: (Commit, Commit) -> Option<nat>,      // cherry-pick: the new step, or a conflict
    network: nat -> bool,                       // origin could be reached
    sealable: string -> bool)                   // the closing transition found nothing else to refuse

  predicate OnTrain(branch: string, t: Task) {
    t.train.Some? && t.train.value.branch == branch
  }

  function Position(branch: string, t: Task): nat {
    if OnTrain(branch, t) then t.train.value.position else 0
  }

  /** The index of the record with this id. */
  function Find(q: seq<Task>, id: string): (at: Option<nat>)
    ensures at.Some? ==> at.value < |q| && q[at.value].id == id
    ensures at.None? ==> forall t :: t in q ==> t.id != id
  {
    if q == [] then None
    else if q[0].id == id then Some(0)
    else match Find(q[1..], id) case None => None case Some(i) => Some(i + 1)
  }

  // ---- integrate: stage one task -----------------------------------------------------------------------------

  function LastPosition(branch: string, q: seq<Task>): (p: nat)
    ensures forall t :: t in q ==> Position(branch, t) <= p
    ensures p > 0 ==> exists t :: t in q && OnTrain(branch, t) && Position(branch, t) == p
  {
    if q == [] then 0
    else
      var (rest, here) := (LastPosition(branch, q[..|q| - 1]), Position(branch, q[|q| - 1]));
      assert q == q[..|q| - 1] + [q[|q| - 1]];
      if here > rest then here else rest
  }

  predicate MayAwaitMerge(t: Task) {
    t.state == AwaitingMerge || AwaitingMerge in LegalTargets(t.state)
  }

  /** A rebase conflict parks the task. */
  function Parked(q: seq<Task>, id: string): seq<Task> {
    match Find(q, id)
    case None => q
    case Some(i) => q[i := q[i].(state := AwaitingMerge, diagnostics := Some(RebaseConflict))]
  }

  /** The marker for a commit that has just been staged.  A task that is not on the board, or whose state cannot move to
      `awaiting_merge`, gets none. */
  function Marked(branch: string, q: seq<Task>, id: string, commit: Commit): seq<Task> {
    match Find(q, id)
    case None => q
    case Some(i) =>
      if !MayAwaitMerge(q[i]) then q
      else q[i := q[i].(state := AwaitingMerge, train := Some(Marker(branch, commit, LastPosition(branch, q) + 1)))]
  }

  /** The staging critical section together with the marker write that follows it.  `step` is the squash commit, or
      `None` when the rebase conflicts. */
  function Stage(r: Repo, id: string, fetched: bool, step: Option<nat>): Repo {
    var tracking := if fetched then r.remote else r.tracking;
    var target := if r.staging.Some? then r.staging.value else tracking;
    match step
    case None => r.(tracking := tracking, queue := Parked(r.queue, id))
    case Some(n) =>
      var commit := target + [Local(n)];
      r.(tracking := tracking, staging := Some(commit), queue := Marked(r.branch, r.queue, id, commit))
  }

  /** The caller's side of staging: the task is on the board, not on this train yet, and may await its merge. */
  predicate Stageable(r: Repo, id: string) {
    var at := Find(r.queue, id);
    at.Some? && MayAwaitMerge(r.queue[at.value]) && !OnTrain(r.branch, r.queue[at.value])
  }

  // ---- what other processes do while no lock is held ---------------------------------------------------------

  /** `Integrate` stages a task in one go; a task that is not on the board, or whose state refuses, leaves its commit
      without a marker.  `LateMark` is the marker write of a staging whose commit went onto the ref earlier.  `Move` is any
      transition or repair of a record by another process; a terminal one seals the record, marker and all. */
  datatype Event =
    | Integrate(id: string, fetched: bool, step: Option<nat>)
    | LateMark(id: string, commit: Commit)
    | Move(id: string, to: State)
    | Add(id: string, state: State)
    | MoveLocal(tip: Option<Commit>)
    | Publish(ids: seq<nat>)       // others fast-forward origin with commits of their own
    | Checkout(on: bool)

  function Foreigners(ids: seq<nat>): (c: Commit)
    ensures |c| == |ids| && forall i :: 0 <= i < |c| ==> c[i].Foreign?
  {
    seq(|ids|, i requires 0 <= i < |ids| => Foreign(ids[i]))
  }

  function MoveTask(r: Repo, id: string, to: State): Repo {
    match Find(r.queue, id)
    case None => r
    case Some(i) =>
      if Terminal(to)
      then r.(queue := Without(r.queue, i), sealed := r.sealed + [r.queue[i].(state := to)])
      else r.(queue := r.queue[i := r.queue[i].(state := to)])
  }

  function Apply(r: Repo, e: Event): Repo {
    match e
    case Integrate(id, fetched, step) => Stage(r, id, fetched, step)
    case LateMark(id, commit) => r.(queue := Marked(r.branch, r.queue, id, commit))
    case Move(id, to) => MoveTask(r, id, to)
    case Add(id, state) =>
      if Find(r.queue, id).Some? then r else r.(queue := r.queue + [Task(id, state, None, None, None)])
    case MoveLocal(tip) => r.(local := tip)
    case Publish(ids) => r.(remote := r.remote + Foreigners(ids))
    case Checkout(on) => r.(checkedOut := on)
  }

  function Window(r: Repo, events: seq<Event>): Repo
    decreases |events|
  {
    if events == [] then r else Window(Apply(r, events[0]), events[1..])
  }

  // ---- flush: eject the culprit and restack the rest ---------------------------------------------------------

  /** The records of this train by staged commit; a later record wins. */
  function ByCommit(branch: string, q: seq<Task>): (m: map<Commit, nat>)
    ensures forall c :: c in m ==> m[c] < |q| && OnTrain(branch, q[m[c]]) && q[m[c]].train.value.commit == c
  {
    if q == [] then map[]
    else
      var n := |q| - 1;
      var m := ByCommit(branch, q[..n]);
      if OnTrain(branch, q[n]) then m[q[n].train.value.commit := n] else m
  }

  function ByPosition(branch: string, q: seq<Task>): (m: map<nat, nat>)
    ensures forall p :: p in m ==> m[p] < |q| && OnTrain(branch, q[m[p]]) && q[m[p]].train.value.position == p
  {
    if q == [] then map[]
    else
      var n := |q| - 1;
      var m := ByPosition(branch, q[..n]);
      if OnTrain(branch, q[n]) then m[q[n].train.value.position := n] else m
  }

  /** The record of a commit: by the commit its marker names, else by its position. */
  function Lookup(byCommit: map<Commit, nat>, byPosition: map<nat, nat>, c: Commit, position: Option<nat>): Option<nat> {
    if c in byCommit then Some(byCommit[c])
    else if position.Some? && position.value in byPosition then Some(byPosition[position.value])
    else None
  }

  function Ejected(t: Task, reason: Reason): Task {
    t.(train := None, state := AwaitingMerge, diagnostics := Some(reason))
  }

  /** The tables that a red flush looks records up in, taken before it changes any. */
  datatype Tables = Tables(byCommit: map<Commit, nat>, byPosition: map<nat, nat>)

  predicate Within(t: Tables, n: nat) {
    (forall c :: c in t.byCommit ==> t.byCommit[c] < n) && (forall p :: p in t.byPosition ==> t.byPosition[p] < n)
  }

  /** A restack in progress: the new tip, the records, the ids it reports as conflicts, and those it took off the train. */
  datatype Restacking = Restacking(tip: Commit, queue: seq<Task>, reported: set<string>, dropped: multiset<string>)

  /** One cherry-pick: the record found for the commit follows it, or leaves the train. */
  function ReplayOne(branch: string, pick: (Commit, Commit) -> Option<nat>, tables: Tables, position: Option<nat>, s: Restacking, c: Commit)
    : (s': Restacking)
    requires Within(tables, |s.queue|)
    ensures |s'.queue| == |s.queue|
  {
    var at := Lookup(tables.byCommit, tables.byPosition, c, position);
    match pick(s.tip, c)
    case Some(n) =>
      var tip := s.tip + [Local(n)];
      if at.Some? && s.queue[at.value].train.Some?
      then s.(tip := tip, queue := s.queue[at.value := s.queue[at.value].(train := Some(s.queue[at.value].train.value.(commit := tip)))])
      else s.(tip := tip)
    case None =>
      if at.None? then s
      else
        var t := s.queue[at.value];
        s.(queue := s.queue[at.value := Ejected(t, RestackConflict)],
           reported := s.reported + {t.id},
           dropped := s.dropped + (if OnTrain(branch, t) then multiset{t.id} else multiset{}))
  }

  function FallBack(first: Option<nat>, n: nat): Option<nat> {
    match first
    case None => None
    case Some(p) => Some(p + n)
  }

  /** Cherry-picks in order; the position to fall back on counts up from `first`, or there is none. */
  function ReplayAll(branch: string, pick: (Commit, Commit) -> Option<nat>, tables: Tables, first: Option<nat>, s: Restacking,
                     commits: seq<Commit>)
    : (s': Restacking)
    requires Within(tables, |s.queue|)
    ensures |s'.queue| == |s.queue|
  {
    if commits == [] then s
    else
      var n := |commits| - 1;
      ReplayOne(branch, pick, tables, FallBack(first, n),
                ReplayAll(branch, pick, tables, first, s, commits[..n]), commits[n])
  }

  /** A record after positions have been renumbered along the chain `base..tip`. */
  function Renumbered(branch: string, base: Commit, tip: Commit, t: Task): Task {
    if OnTrain(branch, t) && t.train.value.commit in Between(base, tip)
    then t.(train := Some(t.train.value.(position := |t.train.value.commit| - |MergeBase(base, tip)|)))
    else t
  }

  function RenumberAll(branch: string, base: Commit, tip: Commit, q: seq<Task>): (q': seq<Task>)
    ensures |q'| == |q| && forall i :: 0 <= i < |q| ==> q'[i] == Renumbered(branch, base, tip, q[i])
  {
    seq(|q|, i requires 0 <= i < |q| => Renumbered(branch, base, tip, q[i]))
  }

  function Below(base: Commit, snapshot: Commit, k: nat): Commit
    requires 1 <= k <= |Between(base, snapshot)|
  {
    if k > 1 then Between(base, snapshot)[k - 2] else base
  }

  function TablesOf(r: Repo): (t: Tables)
    ensures Within(t, |r.queue|)
  {
    Tables(ByCommit(r.branch, r.queue), ByPosition(r.branch, r.queue))
  }

  /** The record that is ejected for the k-th staged commit, if one is found. */
  function CulpritRecord(r: Repo, base: Commit, snapshot: Commit, k: nat): (at: Option<nat>)
    requires 1 <= k <= |Between(base, snapshot)|
    ensures at.Some? ==> at.value < |r.queue| && OnTrain(r.branch, r.queue[at.value])
  {
    Lookup(TablesOf(r).byCommit, TablesOf(r).byPosition, Between(base, snapshot)[k - 1], Some(k))
  }

  function CulpritOut(r: Repo, base: Commit, snapshot: Commit, k: nat): (q: seq<Task>)
    requires 1 <= k <= |Between(base, snapshot)|
    ensures |q| == |r.queue|
  {
    var at := CulpritRecord(r, base, snapshot, k);
    if at.Some? then r.queue[at.value := Ejected(r.queue[at.value], BatchValidation)] else r.queue
  }

  /** The restack of a red flush: the culprit's successors in the snapshot, then whatever was staged after it. */
  function Restacked(w: World, r: Repo, base: Commit, snapshot: Commit, k: nat): (s: Restacking)
    requires r.staging.Some? && 1 <= k <= |Between(base, snapshot)|
    ensures |s.queue| == |r.queue|
  {
    var start := Restacking(Below(base, snapshot, k), CulpritOut(r, base, snapshot, k), {}, multiset{});
    var s := ReplayAll(r.branch, w.pick, TablesOf(r), Some(k + 1), start, Between(base, snapshot)[k..]);
    if r.staging.value == snapshot then s
    else ReplayAll(r.branch, w.pick, Tables(TablesOf(r).byCommit, map[]), None, s, Between(snapshot, r.staging.value))
  }

  /** The refs and records once the restack has run: the ref goes away when nothing is left above `base`. */
  function Resettled(r: Repo, base: Commit, tip: Commit, queue: seq<Task>): Repo {
    if tip == base then r.(staging := None, queue := queue)
    else r.(staging := Some(tip), queue := RenumberAll(r.branch, base, tip, queue))
  }

  function Eject(w: World, r: Repo, base: Commit, snapshot: Commit, k: nat): Repo
    requires r.staging.Some? && 1 <= k <= |Between(base, snapshot)|
  {
    var s := Restacked(w, r, base, snapshot, k);
    Resettled(r, base, s.tip, s.queue)
  }

  // ---- flush: land a green snapshot --------------------------------------------------------------------------

  datatype Landing = Landed | BranchMoved | PushFailed

  /** origin takes a push only as a fast-forward. */
  predicate PushAccepted(w: World, r: Repo, snapshot: Commit, run: nat) {
    w.network(run) && r.remote <= snapshot
  }

  function Credited(ids: seq<string>, snapshot: Commit, t: Task): Task {
    if t.id !in ids then t
    else t.(mergeCommit := Some(if t.train.Some? then t.train.value.commit else snapshot), train := None)
  }

  /** The closing transition goes through: the record awaits its merge and its merge commit is on the tracking ref. */
  predicate Closes(w: World, ids: seq<string>, tracking: Commit, t: Task) {
    && t.id in ids && t.state == AwaitingMerge && w.sealable(t.id)
    && t.mergeCommit.Some? && t.mergeCommit.value <= tracking
  }

  function Select(q: seq<Task>, keep: Task -> bool): (kept: seq<Task>)
    ensures forall t :: t in kept <==> t in q && keep(t)
  {
    if q == [] then []
    else
      var (front, last) := (q[..|q| - 1], q[|q| - 1]);
      assert q == front + [last];
      Select(front, keep) + (if keep(last) then [last] else [])
  }

  function Closing(w: World, ids: seq<string>, tracking: Commit): Task -> bool { t => Closes(w, ids, tracking, t) }

  function Open(w: World, ids: seq<string>, tracking: Commit): Task -> bool { t => !Closes(w, ids, tracking, t) }

  function CreditAll(ids: seq<string>, snapshot: Commit, q: seq<Task>): (q': seq<Task>)
    ensures |q'| == |q| && forall i :: 0 <= i < |q| ==> q'[i] == Credited(ids, snapshot, q[i])
  {
    seq(|q|, i requires 0 <= i < |q| => Credited(ids, snapshot, q[i]))
  }

  function MergeAll(q: seq<Task>): (q': seq<Task>)
    ensures |q'| == |q| && forall i :: 0 <= i < |q| ==> q'[i] == q[i].(state := Merged)
  {
    seq(|q|, i requires 0 <= i < |q| => q[i].(state := Merged))
  }

  function Close(w: World, r: Repo, snapshot: Commit, ids: seq<string>): Repo {
    var credited := CreditAll(ids, snapshot, r.queue);
    r.(tracking := snapshot,
       staging := if r.staging == Some(snapshot) then None else r.staging,
       queue := Select(credited, Open(w, ids, snapshot)),
       sealed := r.sealed + MergeAll(Select(credited, Closing(w, ids, snapshot))))
  }

  function Land(w: World, r: Repo, snapshot: Commit, ids: seq<string>, expected: Option<Commit>, run: nat): (Repo, Landing) {
    if r.checkedOut then
      if PushAccepted(w, r, snapshot, run)
      then (Close(w, r.(remote := snapshot), snapshot, ids), Landed)
      else (r, PushFailed)
    else if r.local != expected then (r, BranchMoved)
    else
      var moved := r.(local := Some(snapshot));
      if PushAccepted(w, r, snapshot, run)
      then (Close(w, moved.(remote := snapshot), snapshot, ids), Landed)
      else (moved, PushFailed)
  }

  /** The ids of the records that the snapshot covers, in queue order. */
  function Covered(branch: string, snapshot: Commit, q: seq<Task>): seq<string> {
    if q == [] then []
    else
      var last := q[|q| - 1];
      Covered(branch, snapshot, q[..|q| - 1])
        + (if OnTrain(branch, last) && last.train.value.commit <= snapshot then [last.id] else [])
  }

  // ---- recovery ----------------------------------------------------------------------------------------------

  /** The record with the highest position on this train (the last one, for equal positions). */
  function Latest(branch: string, q: seq<Task>): (latest: Option<Task>)
    ensures latest.None? ==> forall t :: t in q ==> !OnTrain(branch, t)
    ensures latest.Some? ==> latest.value in q && OnTrain(branch, latest.value)
    ensures latest.Some? ==> forall t :: t in q && OnTrain(branch, t) ==> Position(branch, t) <= Position(branch, latest.value)
  {
    if q == [] then None
    else
      var last := q[|q| - 1];
      assert q == q[..|q| - 1] + [last];
      var before := Latest(branch, q[..|q| - 1]);
      if OnTrain(branch, last) && (before.None? || Position(branch, before.value) <= Position(branch, last)) then Some(last)
      else before
  }

  /** `rebuild_from_records`: the staging tip that the task records alone imply. */
  function Rebuilt(branch: string, q: seq<Task>): Option<Commit> {
    match Latest(branch, q)
    case None => None
    case Some(t) => Some(t.train.value.commit)
  }
}
