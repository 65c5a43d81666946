/**
 What the critical sections of the train keep: the chain on the staging ref, whatever anybody does; and, while nobody
 takes a staged record away, the correspondence of markers and staged commits.
 */
module TrainInvariant {
  import opened Wrappers
  import opened History
  import opened Lifecycle
  import opened TrainSteps

  /** Always true.  The quantifiers over pairs of records are used only for the pairs that a proof names with it. */
  ghost predicate Both(i: int, j: int) { true }

  ghost predicate DistinctIds(q: seq<Task>) {
    forall i, j {:trigger Both(i, j)} :: Both(i, j) && 0 <= i < |q| && 0 <= j < |q| && i != j ==> q[i].id != q[j].id
  }

  /** The commit a record is staged at (only meaningful on the train). */
  function StagedAt(branch: string, t: Task): Commit {
    if OnTrain(branch, t) then t.train.value.commit else []
  }

  ghost predicate HasOwner(branch: string, q: seq<Task>, height: nat) {
    exists i :: 0 <= i < |q| && OnTrain(branch, q[i]) && |StagedAt(branch, q[i])| == height
  }

  /** Every record on the train has a commit of `tip` above `floor` to itself, in position order. */
  ghost predicate Charted(branch: string, q: seq<Task>, floor: nat, tip: Commit) {
    && (forall i :: 0 <= i < |q| && OnTrain(branch, q[i]) ==>
          floor < |StagedAt(branch, q[i])| && StagedAt(branch, q[i]) <= tip)
    && (forall i, j {:trigger Both(i, j)} :: Both(i, j) && 0 <= i < |q| && 0 <= j < |q| && i != j ==>
          InOrder(branch, q[i], q[j]))
  }

  /** Every commit of a chain of this height above `floor` has a record. */
  ghost predicate Manned(branch: string, q: seq<Task>, floor: nat, height: nat) {
    forall h :: floor < h <= height ==> HasOwner(branch, q, h)
  }

  /** The records on the train correspond one to one to the commits of `tip` above `floor`, in position order. */
  ghost predicate Mirrors(branch: string, q: seq<Task>, floor: nat, tip: Commit) {
    Charted(branch, q, floor, tip) && Manned(branch, q, floor, |tip|)
  }

  /** Two records on the train have different commits, and their positions follow the chain. */
  predicate InOrder(branch: string, t: Task, u: Task) {
    OnTrain(branch, t) && OnTrain(branch, u) ==>
      && StagedAt(branch, t) != StagedAt(branch, u)
      && (|StagedAt(branch, t)| < |StagedAt(branch, u)| ==> Position(branch, t) < Position(branch, u))
  }

  /** Above `floor` the chain was made here, and what the world added on top of it was not. */
  ghost predicate Forks(tip: Commit, published: Commit, floor: nat) {
    && floor < |tip| && floor <= |published| && tip[..floor] == published[..floor]
    && (forall i :: floor <= i < |tip| ==> tip[i].Local?)
    && (floor < |published| ==> published[floor].Foreign?)
  }

  function Floor(r: Repo): nat {
    if r.staging.Some? then |MergeBase(r.staging.value, r.tracking)| else 0
  }

  function Tip(r: Repo): Commit {
    if r.staging.Some? then r.staging.value else []
  }

  /** The refs of the branch: a chain of commits made here, on top of what has been published. */
  ghost predicate Chained(r: Repo) {
    && r.tracking <= r.remote
    && (forall i :: |r.tracking| <= i < |r.remote| ==> r.remote[i].Foreign?)
    && (r.staging.Some? ==> Forks(Tip(r), r.tracking, Floor(r)))
  }

  /** Refs and records agree. */
  ghost predicate Inv(r: Repo) {
    DistinctIds(r.queue) && Chained(r) && Mirrors(r.branch, r.queue, Floor(r), Tip(r))
  }

  /** The number of staged commits. */
  function Chain(r: Repo): nat { |Tip(r)| - Floor(r) }

  lemma ForkFloor(tip: Commit, published: Commit, floor: nat)
    requires Forks(tip, published, floor)
    ensures MergeBase(tip, published) == MergeBase(published, tip) == tip[..floor]
  {
    MergeBaseAt(tip, published, floor);
  }

  /** Establishing the chain from a known fork point. */
  lemma ChainedAt(r: Repo, floor: nat)
    requires r.tracking <= r.remote && forall i :: |r.tracking| <= i < |r.remote| ==> r.remote[i].Foreign?
    requires r.staging.Some? && Forks(r.staging.value, r.tracking, floor)
    ensures Floor(r) == floor && Chained(r)
  {
    ForkFloor(r.staging.value, r.tracking, floor);
  }

  lemma SameRecord(q: seq<Task>, t: Task, u: Task)
    requires DistinctIds(q) && t in q && u in q && t.id == u.id
    ensures t == u
  {
    var i :| 0 <= i < |q| && q[i] == t;
    var j :| 0 <= j < |q| && q[j] == u;
    assert Both(i, j);
  }

  lemma OrderOf(branch: string, q: seq<Task>, floor: nat, tip: Commit, t: Task, u: Task)
    requires Charted(branch, q, floor, tip) && t in q && u in q && t != u
    ensures InOrder(branch, t, u)
  {
    var i :| 0 <= i < |q| && q[i] == t;
    var j :| 0 <= j < |q| && q[j] == u;
    assert Both(i, j);
  }

  lemma OwnerOf(branch: string, q: seq<Task>, floor: nat, tip: Commit, height: nat) returns (i: nat)
    requires Mirrors(branch, q, floor, tip) && floor < height <= |tip|
    ensures i < |q| && OnTrain(branch, q[i]) && StagedAt(branch, q[i]) == tip[..height]
  {
    assert HasOwner(branch, q, height);
    i :| 0 <= i < |q| && OnTrain(branch, q[i]) && |StagedAt(branch, q[i])| == height;
  }

  // ---- the chain, whatever happens ---------------------------------------------------------------------------

  /** A fetch moves the tracking ref up, but not the point where the chain forks off. */
  lemma FetchKeepsFork(r: Repo)
    requires Chained(r) && r.staging.Some?
    ensures Forks(Tip(r), r.remote, Floor(r))
  {
  }

  /** The new chain after a successful staging step, and where it forks off. */
  function NewFloor(r: Repo, fetched: bool): nat {
    if r.staging.Some? then Floor(r) else |if fetched then r.remote else r.tracking|
  }

  lemma StageForks(r: Repo, id: string, fetched: bool, step: nat)
    requires Chained(r)
    ensures var s := Stage(r, id, fetched, Some(step));
            && Forks(Tip(s), s.tracking, NewFloor(r, fetched)) && Floor(s) == NewFloor(r, fetched)
            && |Tip(s)| > |Tip(r)| && (r.staging.Some? ==> Tip(s)[..|Tip(s)| - 1] == Tip(r))
            && (r.staging.None? ==> |Tip(s)| == NewFloor(r, fetched) + 1)
  {
    var s := Stage(r, id, fetched, Some(step));
    if r.staging.Some? { FetchKeepsFork(r); }
    ForkFloor(Tip(s), s.tracking, NewFloor(r, fetched));
  }

  /** What a window may do to a chain that exists: add to it. */
  ghost predicate KeepsChain(r: Repo, s: Repo) {
    && s.branch == r.branch && r.staging.Some? && s.staging.Some? && Tip(r) <= Tip(s) && Floor(s) == Floor(r)
  }

  lemma StageKeepsChain(r: Repo, id: string, fetched: bool, step: Option<nat>)
    requires Chained(r)
    ensures var s := Stage(r, id, fetched, step);
            && Chained(s) && (r.staging.Some? ==> KeepsChain(r, s))
            && Chain(s) == Chain(r) + (if step.Some? then 1 else 0)
  {
    match step
    case Some(n) => StageForks(r, id, fetched, n);
    case None =>
      if r.staging.Some? {
        FetchKeepsFork(r);
        ForkFloor(Tip(r), Stage(r, id, fetched, None).tracking, Floor(r));
      }
  }

  lemma PublishKeepsChain(r: Repo, ids: seq<nat>)
    requires Chained(r)
    ensures var s := r.(remote := r.remote + Foreigners(ids));
            Chained(s) && (r.staging.Some? ==> KeepsChain(r, s)) && Chain(s) == Chain(r)
  {
    assert r.tracking <= r.remote + Foreigners(ids);
  }

  lemma SameRefsKeepChain(r: Repo, s: Repo)
    requires Chained(r)
    requires s.branch == r.branch && s.staging == r.staging && s.tracking == r.tracking && s.remote == r.remote
    ensures Chained(s) && (r.staging.Some? ==> KeepsChain(r, s)) && Chain(s) == Chain(r)
  {
  }

  /** Every event keeps the chain and adds at most one commit to it. */
  lemma ApplyKeepsChain(r: Repo, e: Event)
    requires Chained(r)
    ensures Chained(Apply(r, e)) && (r.staging.Some? ==> KeepsChain(r, Apply(r, e)))
    ensures Chain(Apply(r, e)) <= Chain(r) + 1
  {
    match e
    case Integrate(id, fetched, step) => StageKeepsChain(r, id, fetched, step);
    case Publish(ids) => PublishKeepsChain(r, ids);
    case _ => SameRefsKeepChain(r, Apply(r, e));
  }

  /** Whatever happens in a window, the chain is still there and has grown by no more than one commit an event. */
  lemma {:induction false} WindowKeepsChain(r: Repo, events: seq<Event>)
    requires Chained(r)
    ensures Chained(Window(r, events)) && (r.staging.Some? ==> KeepsChain(r, Window(r, events)))
    ensures Chain(Window(r, events)) <= Chain(r) + |events|
    decreases |events|
  {
    if events != [] {
      ApplyKeepsChain(r, events[0]);
      WindowKeepsChain(Apply(r, events[0]), events[1..]);
    }
  }

  // ---- staging -----------------------------------------------------------------------------------------------

  /** A marker for the new tip completes the mirror. */
  lemma FreshMarker(branch: string, q: seq<Task>, floor: nat, tip: Commit, at: nat, marked: Task)
    requires floor < |tip| && at < |q| && !OnTrain(branch, q[at])
    requires || (floor + 1 == |tip| && forall i :: 0 <= i < |q| ==> !OnTrain(branch, q[i]))
             || Mirrors(branch, q, floor, tip[..|tip| - 1])
    requires OnTrain(branch, marked) && StagedAt(branch, marked) == tip
    requires forall i :: 0 <= i < |q| && OnTrain(branch, q[i]) ==> Position(branch, q[i]) < Position(branch, marked)
    ensures Mirrors(branch, q[at := marked], floor, tip)
  {
    var q' := q[at := marked];
    forall height | floor < height <= |tip|
      ensures HasOwner(branch, q', height)
    {
      if height == |tip| {
        assert OnTrain(branch, q'[at]);
      } else {
        assert HasOwner(branch, q, height);
        var i :| 0 <= i < |q| && OnTrain(branch, q[i]) && |StagedAt(branch, q[i])| == height;
        assert q'[i] == q[i];
      }
    }
    forall i | 0 <= i < |q| && i != at && OnTrain(branch, q'[i])
      ensures floor < |StagedAt(branch, q'[i])| < |tip| && StagedAt(branch, q'[i]) <= tip
    {
      assert q'[i] == q[i];
    }
  }

  /** A new commit that no record names breaks the mirror. */
  lemma OrphanTip(branch: string, q: seq<Task>, floor: nat, low: nat, tip: Commit, longer: Commit)
    requires floor < |longer| && |tip| < |longer|
    requires Mirrors(branch, q, low, tip)
    ensures !Mirrors(branch, q, floor, longer)
  {
    assert !HasOwner(branch, q, |longer|);
  }

  /** Whatever replaces a record on the train, its commit is left without an owner unless the replacement is staged there. */
  lemma MovedMarker(branch: string, q: seq<Task>, floor: nat, tip: Commit, at: nat, t: Task, floor': nat, longer: Commit)
    requires Mirrors(branch, q, floor, tip) && tip <= longer && floor' <= floor
    requires at < |q| && OnTrain(branch, q[at]) && StagedAt(branch, t) != StagedAt(branch, q[at])
    ensures !Mirrors(branch, q[at := t], floor', longer)
  {
    var q', height := q[at := t], |StagedAt(branch, q[at])|;
    if Mirrors(branch, q', floor', longer) {
      var i := OwnerOf(branch, q', floor', longer, height);
      assert StagedAt(branch, q[at]) == longer[..height];
      assert Both(i, at);
      assert false;
    }
  }

  /** The caller's side of staging is met, or nothing is staged. */
  lemma StageMirrors(r: Repo, id: string, fetched: bool, step: nat)
    requires Inv(r)
    ensures var s := Stage(r, id, fetched, Some(step));
            Mirrors(s.branch, s.queue, Floor(s), Tip(s)) <==> Stageable(r, id)
  {
    StageForks(r, id, fetched, step);
    var s := Stage(r, id, fetched, Some(step));
    var at := Find(r.queue, id);
    if at.Some? && MayAwaitMerge(r.queue[at.value]) {
      var marked := s.queue[at.value];
      if OnTrain(r.branch, r.queue[at.value]) {
        MovedMarker(r.branch, r.queue, Floor(r), Tip(r), at.value, marked, Floor(s), Tip(s));
      } else {
        forall i | 0 <= i < |r.queue| && OnTrain(r.branch, r.queue[i])
          ensures Position(r.branch, r.queue[i]) < Position(r.branch, marked)
        {
          assert r.queue[i] in r.queue;
        }
        FreshMarker(r.branch, r.queue, Floor(s), Tip(s), at.value, marked);
      }
    } else {
      OrphanTip(r.branch, r.queue, Floor(s), Floor(r), Tip(r), Tip(s));
    }
  }

  /** Staging keeps the correspondence exactly when the rebase conflicted or the task was stageable. */
  lemma StageKeepsInvariant(r: Repo, id: string, fetched: bool, step: Option<nat>)
    requires Inv(r)
    ensures Inv(Stage(r, id, fetched, step)) <==> step.None? || Stageable(r, id)
  {
    StageKeepsChain(r, id, fetched, step);
    match step
    case Some(n) => StageMirrors(r, id, fetched, n);
    case None =>
      var s := Stage(r, id, fetched, None);
      SameMarkers(r.branch, r.queue, s.queue, Floor(r), Tip(r));
      assert r.staging.None? ==> Floor(s) == Floor(r);
  }

  /** Mirroring looks at nothing but the markers. */
  lemma SameMarkers(branch: string, q: seq<Task>, q': seq<Task>, floor: nat, tip: Commit)
    requires |q'| == |q| && Mirrors(branch, q, floor, tip)
    requires forall i :: 0 <= i < |q| ==> q'[i].train == q[i].train
    ensures Mirrors(branch, q', floor, tip)
  {
    forall height | floor < height <= |tip|
      ensures HasOwner(branch, q', height)
    {
      assert HasOwner(branch, q, height);
      var i :| 0 <= i < |q| && OnTrain(branch, q[i]) && |StagedAt(branch, q[i])| == height;
      assert OnTrain(branch, q'[i]);
    }
  }

  // ---- which events keep the correspondence ------------------------------------------------------------------

  /** The same records are on the train. */
  ghost predicate SameCrew(branch: string, q: seq<Task>, q': seq<Task>) {
    forall t :: OnTrain(branch, t) ==> (t in q <==> t in q')
  }

  lemma SameCrewMirrors(branch: string, q: seq<Task>, q': seq<Task>, floor: nat, tip: Commit)
    requires DistinctIds(q') && SameCrew(branch, q, q') && Mirrors(branch, q, floor, tip)
    ensures Mirrors(branch, q', floor, tip)
  {
    forall height | floor < height <= |tip| ensures HasOwner(branch, q', height) {
      var i := OwnerOf(branch, q, floor, tip, height);
      assert q[i] in q';
    }
    forall i | 0 <= i < |q'| && OnTrain(branch, q'[i])
      ensures floor < |StagedAt(branch, q'[i])| && StagedAt(branch, q'[i]) <= tip
    {
      assert q'[i] in q;
    }
    forall i, j | Both(i, j) && 0 <= i < |q'| && 0 <= j < |q'| && i != j ensures InOrder(branch, q'[i], q'[j]) {
      if OnTrain(branch, q'[i]) && OnTrain(branch, q'[j]) {
        assert q'[i] in q && q'[j] in q;
        OrderOf(branch, q, floor, tip, q'[i], q'[j]);
      }
    }
  }

  lemma WithoutDistinct(q: seq<Task>, i: nat)
    requires DistinctIds(q) && i < |q|
    ensures DistinctIds(Without(q, i)) && q[i] !in Without(q, i)
    ensures forall t :: t in q && t != q[i] ==> t in Without(q, i)
    ensures forall t :: t in Without(q, i) ==> t in q && t.id != q[i].id
  {
    var q' := Without(q, i);
    forall x, y | Both(x, y) && 0 <= x < |q'| && 0 <= y < |q'| && x != y ensures q'[x].id != q'[y].id {
      assert Both(if x < i then x else x + 1, if y < i then y else y + 1);
    }
    forall x | 0 <= x < |q'| ensures q'[x] in q && q'[x].id != q[i].id {
      assert Both(if x < i then x else x + 1, i);
    }
    forall t | t in q && t != q[i] ensures t in q' {
      var j :| 0 <= j < |q| && q[j] == t;
      assert q'[if j < i then j else j - 1] == t;
    }
  }

  /** A record that leaves the board takes the owner of its commit with it. */
  lemma WithdrawnOwner(branch: string, q: seq<Task>, floor: nat, tip: Commit, i: nat)
    requires DistinctIds(q) && Mirrors(branch, q, floor, tip) && i < |q|
    ensures Mirrors(branch, Without(q, i), floor, tip) <==> !OnTrain(branch, q[i])
  {
    var q' := Without(q, i);
    WithoutDistinct(q, i);
    if !OnTrain(branch, q[i]) {
      SameCrewMirrors(branch, q, q', floor, tip);
    } else if Mirrors(branch, q', floor, tip) {
      var j := OwnerOf(branch, q', floor, tip, |StagedAt(branch, q[i])|);
      assert q'[j] in q';
      OrderOf(branch, q, floor, tip, q'[j], q[i]);
      assert false;
    }
  }

  /** The marker write finds no record it may mark. */
  predicate Unmarkable(r: Repo, id: string) {
    var at := Find(r.queue, id);
    at.None? || !MayAwaitMerge(r.queue[at.value])
  }

  /** A marker written for the i-th record, at the highest position. */
  lemma MarkMirrors(branch: string, q: seq<Task>, floor: nat, tip: Commit, i: nat, t: Task)
    requires Mirrors(branch, q, floor, tip) && i < |q|
    requires OnTrain(branch, t) && Position(branch, t) == LastPosition(branch, q) + 1
    ensures Mirrors(branch, q[i := t], floor, tip) <==> OnTrain(branch, q[i]) && StagedAt(branch, q[i]) == StagedAt(branch, t) == tip
  {
    if !OnTrain(branch, q[i]) {
      DoubleOwner(branch, q, floor, tip, i, t);
    } else if StagedAt(branch, t) != StagedAt(branch, q[i]) {
      MovedMarker(branch, q, floor, tip, i, t, floor, tip);
    } else {
      MarkedAgain(branch, q, floor, tip, i, t);
    }
  }

  lemma MarkedIs(branch: string, q: seq<Task>, id: string, commit: Commit) returns (i: nat, t: Task)
    requires Find(q, id).Some? && MayAwaitMerge(q[Find(q, id).value])
    ensures Find(q, id) == Some(i) && i < |q| && Marked(branch, q, id, commit) == q[i := t] && t.id == q[i].id
    ensures OnTrain(branch, t) && StagedAt(branch, t) == commit && Position(branch, t) == LastPosition(branch, q) + 1
  {
    i := Find(q, id).value;
    t := q[i].(state := AwaitingMerge, train := Some(Marker(branch, commit, LastPosition(branch, q) + 1)));
  }

  lemma LateMarkMirrors(r: Repo, id: string, commit: Commit)
    requires Inv(r)
    ensures Inv(Apply(r, LateMark(id, commit))) <==>
      Unmarkable(r, id) || (CommitOf(r.branch, r.queue, id) == Some(commit) && r.staging == Some(commit))
  {
    if !Unmarkable(r, id) {
      var i, t := MarkedIs(r.branch, r.queue, id, commit);
      MarkMirrors(r.branch, r.queue, Floor(r), Tip(r), i, t);
      ReplacedDistinct(r.queue, i, t);
      SameRefsKeepChain(r, Apply(r, LateMark(id, commit)));
      TipHasRecord(r, i, commit);
    }
  }

  /** A record is staged at the tip only if there is one. */
  lemma TipHasRecord(r: Repo, i: nat, commit: Commit)
    requires Inv(r) && i < |r.queue|
    ensures OnTrain(r.branch, r.queue[i]) && StagedAt(r.branch, r.queue[i]) == commit ==> (commit == Tip(r) <==> r.staging == Some(commit))
  {
  }

  /** A second record at a commit that has one. */
  lemma DoubleOwner(branch: string, q: seq<Task>, floor: nat, tip: Commit, i: nat, t: Task)
    requires Mirrors(branch, q, floor, tip) && i < |q| && !OnTrain(branch, q[i]) && OnTrain(branch, t)
    ensures !Mirrors(branch, q[i := t], floor, tip)
  {
    var q' := q[i := t];
    if Mirrors(branch, q', floor, tip) {
      assert OnTrain(branch, q'[i]);
      assert StagedAt(branch, t) == tip[..|StagedAt(branch, t)|];
      forall j | 0 <= j < |q| && j != i && OnTrain(branch, q[j]) ensures StagedAt(branch, q[j]) != StagedAt(branch, t) {
        assert Both(i, j) && q'[j] == q[j];
      }
      var j := OwnerOf(branch, q, floor, tip, |StagedAt(branch, t)|);
      assert false;
    }
  }

  /** Writing a marker again gives its record the highest position, which is right for the tip alone. */
  lemma MarkedAgain(branch: string, q: seq<Task>, floor: nat, tip: Commit, i: nat, t: Task)
    requires Mirrors(branch, q, floor, tip) && i < |q| && OnTrain(branch, q[i]) && OnTrain(branch, t)
    requires StagedAt(branch, t) == StagedAt(branch, q[i]) && Position(branch, t) == LastPosition(branch, q) + 1
    ensures Mirrors(branch, q[i := t], floor, tip) <==> StagedAt(branch, t) == tip
  {
    var q' := q[i := t];
    if StagedAt(branch, t) == tip {
      forall h | floor < h <= |tip| ensures HasOwner(branch, q', h) {
        var j := OwnerOf(branch, q, floor, tip, h);
        assert OnTrain(branch, q'[j]);
      }
      forall x, y | Both(x, y) && 0 <= x < |q'| && 0 <= y < |q'| && x != y ensures InOrder(branch, q'[x], q'[y]) {
        assert q[x] in q && q[y] in q;
        assert InOrder(branch, q[x], q[y]);
      }
    } else if Mirrors(branch, q', floor, tip) {
      var j := OwnerOf(branch, q, floor, tip, |tip|);
      assert tip[..|tip|] == tip;
      assert q[j] in q;
      assert Both(i, j);
      assert false;
    }
  }

  /** The commit that the record with this id is staged at, if it is on the train. */
  function CommitOf(branch: string, q: seq<Task>, id: string): Option<Commit> {
    match Find(q, id)
    case None => None
    case Some(i) => if OnTrain(branch, q[i]) then Some(q[i].train.value.commit) else None
  }

  /** The events after which refs and records still agree.  A staging must find a task that may be staged; a late marker
      write must find nothing to mark, or repeat the marker of the tip; a record that leaves the board must be off the
      train.  Everything else is free: in particular every other transition of a staged task. */
  predicate Orderly(r: Repo, e: Event) {
    match e
    case Integrate(id, fetched, step) => step.None? || Stageable(r, id)
    case LateMark(id, commit) =>
      Unmarkable(r, id) || (CommitOf(r.branch, r.queue, id) == Some(commit) && r.staging == Some(commit))
    case Move(id, to) => Terminal(to) ==> CommitOf(r.branch, r.queue, id).None?
    case _ => true
  }

  lemma MoveKeepsIff(r: Repo, id: string, to: State)
    requires Inv(r)
    ensures Inv(MoveTask(r, id, to)) <==> (Terminal(to) ==> CommitOf(r.branch, r.queue, id).None?)
  {
    var s := MoveTask(r, id, to);
    SameRefsKeepChain(r, s);
    if Find(r.queue, id).Some? {
      var i := Find(r.queue, id).value;
      if Terminal(to) {
        WithdrawnOwner(r.branch, r.queue, Floor(r), Tip(r), i);
        WithoutDistinct(r.queue, i);
      } else {
        ReplacedDistinct(r.queue, i, s.queue[i]);
        SameMarkers(r.branch, r.queue, s.queue, Floor(r), Tip(r));
      }
    }
  }

  /** An event keeps the correspondence exactly when it is orderly. */
  lemma ApplyKeepsIff(r: Repo, e: Event)
    requires Inv(r)
    ensures Inv(Apply(r, e)) <==> Orderly(r, e)
  {
    ApplyKeepsChain(r, e);
    var s := Apply(r, e);
    match e
    case Integrate(id, fetched, step) => StageKeepsInvariant(r, id, fetched, step);
    case LateMark(id, commit) => LateMarkMirrors(r, id, commit);
    case Move(id, to) => MoveKeepsIff(r, id, to);
    case Add(id, state) =>
      if Find(r.queue, id).None? {
        NewcomerDistinct(r.queue, s.queue[|r.queue|]);
        SameCrewMirrors(r.branch, r.queue, s.queue, Floor(r), Tip(r));
      }
    case MoveLocal(tip) =>
    case Publish(ids) =>
    case Checkout(on) =>
  }

  /** A staging whose commit goes onto the ref first, without a marker for anybody, and whose marker is written right after
      it, is a staging in one go. */
  lemma StagingInTwoSteps(r: Repo, id: string, nobody: string, fetched: bool, n: nat)
    requires Find(r.queue, nobody).None?
    ensures var mid := Apply(r, Integrate(nobody, fetched, Some(n)));
            Apply(mid, LateMark(id, Tip(mid))) == Apply(r, Integrate(id, fetched, Some(n)))
  {
  }

  lemma NewcomerDistinct(q: seq<Task>, t: Task)
    requires DistinctIds(q) && forall u :: u in q ==> u.id != t.id
    ensures DistinctIds(q + [t])
  {
    forall i, j | Both(i, j) && 0 <= i < |q| + 1 && 0 <= j < |q| + 1 && i != j ensures (q + [t])[i].id != (q + [t])[j].id {
      if i < |q| { assert q[i] in q; }
      if j < |q| { assert q[j] in q; }
    }
  }

  // ---- windows -----------------------------------------------------------------------------------------------

  ghost predicate OrderlyWindow(r: Repo, events: seq<Event>)
    decreases |events|
  {
    events == [] || (Orderly(r, events[0]) && OrderlyWindow(Apply(r, events[0]), events[1..]))
  }

  /** Refs and records agree at every moment of the window. */
  ghost predicate AgreesThroughout(r: Repo, events: seq<Event>)
    decreases |events|
  {
    Inv(r) && (events == [] || AgreesThroughout(Apply(r, events[0]), events[1..]))
  }

  /** Through any window, refs and records agree at every moment exactly when every event is orderly where it happens. */
  lemma {:induction false} WindowKeepsIff(r: Repo, events: seq<Event>)
    requires Inv(r)
    ensures AgreesThroughout(r, events) <==> OrderlyWindow(r, events)
    decreases |events|
  {
    if events != [] {
      ApplyKeepsIff(r, events[0]);
      if Orderly(r, events[0]) {
        WindowKeepsIff(Apply(r, events[0]), events[1..]);
      } else {
        assert !AgreesThroughout(Apply(r, events[0]), events[1..]);
      }
    }
  }

  /** What an orderly window leaves of a crew: everybody is where they were, and newcomers are above the old tip. */
  ghost predicate KeepsCrew(r: Repo, s: Repo) {
    forall id: string {:trigger CommitOf(s.branch, s.queue, id)} ::
      StaysPut(r, CommitOf(r.branch, r.queue, id), CommitOf(s.branch, s.queue, id))
  }

  lemma CommitAt(branch: string, q: seq<Task>, t: Task)
    requires DistinctIds(q) && t in q
    ensures CommitOf(branch, q, t.id) == if OnTrain(branch, t) then Some(t.train.value.commit) else None
  {
    SameRecord(q, t, q[Find(q, t.id).value]);
  }

  /** Two boards that agree on the record with this id agree on its commit. */
  lemma CommitAgrees(branch: string, q: seq<Task>, q': seq<Task>, id: string)
    requires DistinctIds(q) && DistinctIds(q')
    requires forall t: Task :: t.id == id ==> (t in q <==> t in q')
    ensures CommitOf(branch, q, id) == CommitOf(branch, q', id)
  {
    if Find(q, id).Some? {
      var t := q[Find(q, id).value];
      CommitAt(branch, q, t);
      CommitAt(branch, q', t);
    } else if Find(q', id).Some? {
      assert false;
    }
  }

  lemma ReplacedDistinct(q: seq<Task>, i: nat, t: Task)
    requires DistinctIds(q) && i < |q| && t.id == q[i].id
    ensures DistinctIds(q[i := t]) && t in q[i := t]
    ensures forall u: Task :: u.id != t.id ==> (u in q <==> u in q[i := t])
  {
    var q' := q[i := t];
    assert q'[i] == t;
    forall u: Task | u.id != t.id ensures u in q <==> u in q' {
      if u in q {
        var j :| 0 <= j < |q| && q[j] == u;
        assert q'[j] == u;
      }
    }
  }

  lemma CommitAfter(branch: string, q: seq<Task>, i: nat, t: Task, id: string)
    requires DistinctIds(q) && i < |q| && t.id == q[i].id
    ensures CommitOf(branch, q[i := t], id) ==
      if id != t.id then CommitOf(branch, q, id) else if OnTrain(branch, t) then Some(t.train.value.commit) else None
  {
    ReplacedDistinct(q, i, t);
    if id == t.id {
      CommitAt(branch, q[i := t], t);
    } else {
      CommitAgrees(branch, q, q[i := t], id);
    }
  }

  /** One record's fate under an orderly event. */
  predicate StaysPut(r: Repo, was: Option<Commit>, now: Option<Commit>) {
    (was.Some? ==> now == was) && (was.None? && now.Some? ==> |Tip(r)| < |now.value|)
  }

  lemma StagedStaysPut(r: Repo, who: string, fetched: bool, step: Option<nat>, id: string)
    requires Inv(r) && (step.Some? ==> Stageable(r, who))
    ensures StaysPut(r, CommitOf(r.branch, r.queue, id), CommitOf(r.branch, Stage(r, who, fetched, step).queue, id))
  {
    var s := Stage(r, who, fetched, step);
    match Find(r.queue, who)
    case None =>
    case Some(i) =>
      if step.Some? { StageForks(r, who, fetched, step.value); }
      CommitAfter(r.branch, r.queue, i, s.queue[i], id);
      assert r.queue[i] in r.queue;
      CommitAt(r.branch, r.queue, r.queue[i]);
  }

  lemma LateMarkStaysPut(r: Repo, who: string, commit: Commit, id: string)
    requires Inv(r) && Orderly(r, LateMark(who, commit))
    ensures CommitOf(r.branch, Marked(r.branch, r.queue, who, commit), id) == CommitOf(r.branch, r.queue, id)
  {
    if !Unmarkable(r, who) {
      var i := Find(r.queue, who).value;
      CommitAfter(r.branch, r.queue, i, Marked(r.branch, r.queue, who, commit)[i], id);
    }
  }

  lemma MovedStaysPut(r: Repo, who: string, to: State, id: string)
    requires DistinctIds(r.queue) && (Terminal(to) ==> CommitOf(r.branch, r.queue, who).None?)
    ensures CommitOf(r.branch, MoveTask(r, who, to).queue, id) == CommitOf(r.branch, r.queue, id)
  {
    match Find(r.queue, who)
    case None =>
    case Some(i) =>
      if !Terminal(to) {
        CommitAfter(r.branch, r.queue, i, r.queue[i].(state := to), id);
        CommitAt(r.branch, r.queue, r.queue[i]);
      } else {
        WithoutDistinct(r.queue, i);
        if id == who {
          GoneIsNowhere(r.branch, Without(r.queue, i), who);
        } else {
          CommitAgrees(r.branch, r.queue, Without(r.queue, i), id);
        }
      }
  }

  lemma GoneIsNowhere(branch: string, q: seq<Task>, id: string)
    requires forall t :: t in q ==> t.id != id
    ensures CommitOf(branch, q, id).None?
  {
  }

  lemma AddedStaysPut(r: Repo, who: string, state: State, id: string)
    requires DistinctIds(r.queue)
    ensures CommitOf(r.branch, Apply(r, Add(who, state)).queue, id) == CommitOf(r.branch, r.queue, id)
  {
    var q' := Apply(r, Add(who, state)).queue;
    if Find(r.queue, who).None? {
      NewcomerDistinct(r.queue, q'[|r.queue|]);
      if id == who {
        CommitAt(r.branch, q', q'[|r.queue|]);
      } else {
        CommitAgrees(r.branch, r.queue, q', id);
      }
    }
  }

  lemma ApplyKeepsCrew(r: Repo, e: Event)
    requires Inv(r) && Orderly(r, e)
    ensures KeepsCrew(r, Apply(r, e))
  {
    var s := Apply(r, e);
    forall id: string
      ensures StaysPut(r, CommitOf(r.branch, r.queue, id), CommitOf(s.branch, s.queue, id))
    {
      match e
      case Integrate(who, fetched, step) => StagedStaysPut(r, who, fetched, step, id);
      case LateMark(who, commit) => LateMarkStaysPut(r, who, commit, id);
      case Move(who, to) => MovedStaysPut(r, who, to, id);
      case Add(who, state) => AddedStaysPut(r, who, state, id);
      case _ =>
    }
  }

  lemma KeepsCrewTransitive(r: Repo, s: Repo, u: Repo)
    requires KeepsCrew(r, s) && KeepsCrew(s, u) && |Tip(r)| <= |Tip(s)|
    ensures KeepsCrew(r, u)
  {
    forall id: string ensures StaysPut(r, CommitOf(r.branch, r.queue, id), CommitOf(u.branch, u.queue, id)) {
      var middle := CommitOf(s.branch, s.queue, id);
      assert StaysPut(r, CommitOf(r.branch, r.queue, id), middle);
    }
  }

  /** An orderly window keeps the agreement and the crew. */
  lemma {:induction false} OrderlyWindowKeeps(r: Repo, events: seq<Event>)
    requires Inv(r) && OrderlyWindow(r, events)
    ensures Inv(Window(r, events)) && KeepsCrew(r, Window(r, events))
    decreases |events|
  {
    if events != [] {
      var s := Apply(r, events[0]);
      ApplyKeepsIff(r, events[0]);
      ApplyKeepsCrew(r, events[0]);
      ApplyKeepsChain(r, events[0]);
      OrderlyWindowKeeps(s, events[1..]);
      KeepsCrewTransitive(r, s, Window(s, events[1..]));
    }
  }
}
