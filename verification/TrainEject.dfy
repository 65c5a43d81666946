/**
 The records after a red flush: when every marker was on the chain and every lookup was right, the markers are on the new
 chain; when refs and records agreed before, they agree afterwards.
 */
module TrainEject {
  import opened Wrappers
  import opened History
  import opened Lifecycle
  import opened TrainSteps
  import opened TrainInvariant
  import opened TrainRestack
  import opened TrainReplay

  // ---- what the plan does to a charted train -----------------------------------------------------------------

  /** A plan for the chain `prior` whose commit at height `out` goes: every commit above it is planned for. */
  ghost predicate PlansAbove(prior: Commit, out: nat, tip: Commit, plan: Plan)
    requires 0 < out <= |prior|
  {
    && prior[..out - 1] <= tip
    && (forall c :: c in plan ==> c <= prior && out < |c|)
    && (forall height :: out < height <= |prior| ==> prior[..height] in plan)
    && (forall c :: c in plan && plan[c].Some? ==> out - 1 < |plan[c].value| && plan[c].value <= tip)
    && (forall height {:trigger Reached(plan, tip[..height])} :: out <= height <= |tip| ==> Reached(plan, tip[..height]))
    && (forall c, d :: c in plan && d in plan && plan[c].Some? && plan[d].Some? && |c| < |d| ==>
          |plan[c].value| < |plan[d].value|)
  }

  lemma RestackPlans(r: Repo, base: Commit, snapshot: Commit, k: nat, out: nat, tip: Commit, plan: Plan)
    requires OnChain(r, base, snapshot) && 1 <= k <= |snapshot| - |base| == |Between(base, snapshot)| && out == |base| + k
    requires Restacks(Below(base, snapshot, k), Survivors(base, snapshot, k, Tip(r)), tip, plan)
    ensures PlansAbove(Tip(r), out, tip, plan)
  {
    ChainShape(r, base, snapshot, k);
    var prior := Tip(r);
    var rest := Survivors(base, snapshot, k, prior);
    forall height | out < height <= |prior|
      ensures prior[..height] in plan
    {
      assert rest[height - out - 1] == prior[..height];
    }
  }

  /** What becomes of one record of the old chain. */
  lemma MovedRecord(branch: string, prior: Commit, out: nat, tip: Commit, plan: Plan, t: Task)
    requires 0 < out <= |prior| && PlansAbove(prior, out, tip, plan)
    requires OnTrain(branch, t) && StagedAt(branch, t) <= prior
    ensures var (h, t') := (|StagedAt(branch, t)|, Moved(branch, prior[..out], plan, t));
            && t'.id == t.id && Position(branch, t') <= Position(branch, t)
            && (h < out ==> t' == t && t'.train.value.commit <= tip)
            && (h == out ==> t' == Ejected(t, BatchValidation))
            && (h > out ==> StagedAt(branch, t) in plan)
            && (h > out && plan[StagedAt(branch, t)].None? ==> t' == Ejected(t, RestackConflict))
            && (h > out && plan[StagedAt(branch, t)].Some? ==>
                  && OnTrain(branch, t') && Position(branch, t') == Position(branch, t) && t'.state == t.state
                  && StagedAt(branch, t') == plan[StagedAt(branch, t)].value
                  && out <= |StagedAt(branch, t')| && StagedAt(branch, t') <= tip)
  {
    var c := StagedAt(branch, t);
    assert c == prior[..|c|];
    if |c| < out {
      assert prior[..|c|] <= prior[..out - 1];
    }
  }

  lemma MovedOrder(branch: string, prior: Commit, out: nat, tip: Commit, plan: Plan, t: Task, u: Task)
    requires 0 < out <= |prior| && PlansAbove(prior, out, tip, plan)
    requires OnTrain(branch, t) && StagedAt(branch, t) <= prior
    requires OnTrain(branch, u) && StagedAt(branch, u) <= prior
    requires |StagedAt(branch, t)| < |StagedAt(branch, u)| && Position(branch, t) < Position(branch, u)
    ensures var (t', u') := (Moved(branch, prior[..out], plan, t), Moved(branch, prior[..out], plan, u));
            OnTrain(branch, t') && OnTrain(branch, u') ==>
              |StagedAt(branch, t')| < |StagedAt(branch, u')| && Position(branch, t') < Position(branch, u')
  {
    MovedRecord(branch, prior, out, tip, plan, t);
    MovedRecord(branch, prior, out, tip, plan, u);
  }

  lemma PlannedFrom(prior: Commit, out: nat, tip: Commit, plan: Plan, height: nat) returns (was: nat)
    requires 0 < out <= |prior| && PlansAbove(prior, out, tip, plan)
    requires out <= height <= |tip|
    ensures out < was <= |prior| && prior[..was] in plan && plan[prior[..was]] == Some(tip[..height])
  {
    assert Reached(plan, tip[..height]);
    var d :| d in plan && plan[d] == Some(tip[..height]);
    was := |d|;
    assert d == prior[..was];
  }

  lemma MovedOwner(branch: string, q: seq<Task>, q': seq<Task>, floor: nat, prior: Commit, out: nat, tip: Commit, plan: Plan, height: nat)
    requires floor < out <= |prior| && PlansAbove(prior, out, tip, plan) && Mirrors(branch, q, floor, prior)
    requires AllMoved(branch, prior[..out], plan, q, q')
    requires floor < height <= |tip|
    ensures HasOwner(branch, q', height)
  {
    var was := height;
    if height >= out {
      was := PlannedFrom(prior, out, tip, plan, height);
    }
    var i := OwnerOf(branch, q, floor, prior, was);
    MovedRecord(branch, prior, out, tip, plan, q[i]);
    assert OnTrain(branch, q'[i]) && |StagedAt(branch, q'[i])| == height;
  }

  lemma MovedChart(branch: string, q: seq<Task>, q': seq<Task>, floor: nat, prior: Commit, out: nat, tip: Commit, plan: Plan)
    requires floor < out <= |prior| && PlansAbove(prior, out, tip, plan) && Charted(branch, q, floor, prior)
    requires AllMoved(branch, prior[..out], plan, q, q')
    ensures Charted(branch, q', floor, tip)
  {
    forall i | 0 <= i < |q'| && OnTrain(branch, q'[i])
      ensures OnTrain(branch, q[i])
      ensures floor < |StagedAt(branch, q'[i])| && StagedAt(branch, q'[i]) <= tip
    {
      MovedRecord(branch, prior, out, tip, plan, q[i]);
    }
    forall i, j | Both(i, j) && 0 <= i < |q'| && 0 <= j < |q'| && i != j
      ensures InOrder(branch, q'[i], q'[j])
    {
      assert Both(j, i);
      if OnTrain(branch, q'[i]) && OnTrain(branch, q'[j]) {
        MovedPair(branch, prior, out, tip, plan, q[i], q[j]);
      }
    }
  }

  lemma MovedCrew(branch: string, q: seq<Task>, q': seq<Task>, floor: nat, prior: Commit, out: nat, tip: Commit, plan: Plan)
    requires floor < out <= |prior| && PlansAbove(prior, out, tip, plan) && Mirrors(branch, q, floor, prior)
    requires AllMoved(branch, prior[..out], plan, q, q')
    ensures Manned(branch, q', floor, |tip|)
  {
    forall height | floor < height <= |tip|
      ensures HasOwner(branch, q', height)
    {
      MovedOwner(branch, q, q', floor, prior, out, tip, plan, height);
    }
  }

  lemma MovedPair(branch: string, prior: Commit, out: nat, tip: Commit, plan: Plan, t: Task, u: Task)
    requires 0 < out <= |prior| && PlansAbove(prior, out, tip, plan)
    requires OnTrain(branch, t) && StagedAt(branch, t) <= prior
    requires OnTrain(branch, u) && StagedAt(branch, u) <= prior
    requires InOrder(branch, t, u) && InOrder(branch, u, t)
    ensures InOrder(branch, Moved(branch, prior[..out], plan, t), Moved(branch, prior[..out], plan, u))
  {
    var c, d := StagedAt(branch, t), StagedAt(branch, u);
    assert c == prior[..|c|] && d == prior[..|d|];
    if |c| < |d| {
      MovedOrder(branch, prior, out, tip, plan, t, u);
    } else {
      MovedOrder(branch, prior, out, tip, plan, u, t);
    }
  }

  lemma RenumberedMarker(branch: string, q: seq<Task>, base: Commit, tip: Commit, i: nat)
    requires base <= tip && Charted(branch, q, |base|, tip) && i < |q|
    ensures var t := RenumberAll(branch, base, tip, q)[i];
            && OnTrain(branch, t) == OnTrain(branch, q[i]) && StagedAt(branch, t) == StagedAt(branch, q[i])
            && (OnTrain(branch, t) ==> Position(branch, t) == |StagedAt(branch, t)| - |base|)
  {
    MergeBaseAt(base, tip, |base|);
    if OnTrain(branch, q[i]) {
      BetweenIsExact(base, tip, StagedAt(branch, q[i]));
    }
  }

  lemma RenumberChart(branch: string, q: seq<Task>, base: Commit, tip: Commit)
    requires base <= tip && Charted(branch, q, |base|, tip)
    ensures Charted(branch, RenumberAll(branch, base, tip, q), |base|, tip)
  {
    var q' := RenumberAll(branch, base, tip, q);
    forall i | 0 <= i < |q'| && OnTrain(branch, q'[i])
      ensures |base| < |StagedAt(branch, q'[i])| && StagedAt(branch, q'[i]) <= tip
    {
      RenumberedMarker(branch, q, base, tip, i);
    }
    forall i, j | Both(i, j) && 0 <= i < |q'| && 0 <= j < |q'| && i != j
      ensures InOrder(branch, q'[i], q'[j])
    {
      RenumberedMarker(branch, q, base, tip, i);
      RenumberedMarker(branch, q, base, tip, j);
    }
  }

  lemma RenumberCrew(branch: string, q: seq<Task>, base: Commit, tip: Commit)
    requires base <= tip && Charted(branch, q, |base|, tip) && Manned(branch, q, |base|, |tip|)
    ensures Manned(branch, RenumberAll(branch, base, tip, q), |base|, |tip|)
  {
    var q' := RenumberAll(branch, base, tip, q);
    forall height | |base| < height <= |tip|
      ensures HasOwner(branch, q', height)
    {
      assert HasOwner(branch, q, height);
      var i :| 0 <= i < |q| && OnTrain(branch, q[i]) && |StagedAt(branch, q[i])| == height;
      RenumberedMarker(branch, q, base, tip, i);
      assert OnTrain(branch, q'[i]);
    }
  }

  lemma SameIdsDistinct(q: seq<Task>, q': seq<Task>)
    requires DistinctIds(q) && |q'| == |q| && forall i :: 0 <= i < |q| ==> q'[i].id == q[i].id
    ensures DistinctIds(q')
  {
  }

  /** The plan of a red flush is one for the current chain. */
  lemma EjectPlans(w: World, r: Repo, base: Commit, snapshot: Commit, k: nat, out: nat, tip: Commit, plan: Plan)
    requires OnChain(r, base, snapshot) && 1 <= k <= |Between(base, snapshot)| && out == |base| + k
    requires (tip, plan) == Restack(w.pick, Below(base, snapshot, k), Survivors(base, snapshot, k, Tip(r)))
    ensures |base| == Floor(r) < out <= |Tip(r)| && Between(base, snapshot)[k - 1] == Tip(r)[..out]
    ensures base <= tip && PlansAbove(Tip(r), out, tip, plan)
  {
    CulpritAt(r, base, snapshot, k);
    assert PlansAbove(Tip(r), out, tip, plan) by {
      ChainShape(r, base, snapshot, 1);
      SurvivorsAscend(r, base, snapshot, k);
      RestackShape(w.pick, Below(base, snapshot, k), Survivors(base, snapshot, k, Tip(r)));
      RestackPlans(r, base, snapshot, k, out, tip, plan);
    }
    assert base <= tip by {
      RestackedTip(w, r, base, snapshot, k);
      NewTip(w, r, base, snapshot, k, tip);
    }
  }

  /** The records on the train are charted on a chain with this floor; on a branch without a ref there are none. */
  ghost predicate OnTheMap(r: Repo) {
    Charted(r.branch, r.queue, Floor(r), Tip(r))
  }

  /** Off a chain that is gone there is no room for a record. */
  lemma NoChainNoCrew(branch: string, q: seq<Task>, base: Commit)
    requires Charted(branch, q, |base|, base)
    ensures Charted(branch, q, 0, [])
  {
    forall i | 0 <= i < |q| ensures !OnTrain(branch, q[i]) {
    }
  }

  /** The records of `r` once a plan that takes out the commit at height `out` has been carried out. */
  ghost predicate Replanned(r: Repo, base: Commit, out: nat, tip: Commit, plan: Plan, q': seq<Task>) {
    && |base| == Floor(r) < out <= |Tip(r)| && base <= tip && PlansAbove(Tip(r), out, tip, plan)
    && AllMoved(r.branch, Tip(r)[..out], plan, r.queue, q')
  }

  /** The records after the restack of a charted train, before positions are renumbered. */
  lemma MovedOnTheMap(r: Repo, base: Commit, out: nat, tip: Commit, plan: Plan, q': seq<Task>)
    requires Replanned(r, base, out, tip, plan, q') && OnTheMap(r)
    ensures Charted(r.branch, q', |base|, tip)
  {
    MovedChart(r.branch, r.queue, q', |base|, Tip(r), out, tip, plan);
  }

  lemma MovedAgreement(r: Repo, base: Commit, out: nat, tip: Commit, plan: Plan, q': seq<Task>)
    requires Replanned(r, base, out, tip, plan, q') && Inv(r)
    ensures Manned(r.branch, q', |base|, |tip|) && DistinctIds(q')
  {
    MovedCrew(r.branch, r.queue, q', |base|, Tip(r), out, tip, plan);
    SameIdsDistinct(r.queue, q');
  }

  lemma RenumberedFrom(s: Repo, base: Commit, tip: Commit, q: seq<Task>)
    requires base <= tip && Charted(s.branch, q, |base|, tip) && s.queue == RenumberAll(s.branch, base, tip, q)
    ensures NumberedFrom(s, |base|)
  {
    forall i | 0 <= i < |s.queue| && OnTrain(s.branch, s.queue[i])
      ensures Position(s.branch, s.queue[i]) == |StagedAt(s.branch, s.queue[i])| - |base|
    {
      RenumberedMarker(s.branch, q, base, tip, i);
    }
  }

  /** The records once positions are ranks again and the ref is set or gone. */
  lemma SettledOnTheMap(r: Repo, base: Commit, tip: Commit, q: seq<Task>, s: Repo)
    requires base <= tip && Charted(r.branch, q, |base|, tip) && s == Resettled(r, base, tip, q)
    requires s.staging.Some? ==> Floor(s) == |base|
    ensures OnTheMap(s) && NumberedFrom(s, |base|)
    ensures Manned(r.branch, q, |base|, |tip|) ==> Manned(s.branch, s.queue, Floor(s), |Tip(s)|)
    ensures DistinctIds(q) ==> DistinctIds(s.queue)
  {
    if tip == base {
      NoChainNoCrew(r.branch, q, base);
    } else {
      RenumberChart(r.branch, q, base, tip);
      RenumberedFrom(s, base, tip, q);
      if Manned(r.branch, q, |base|, |tip|) { RenumberCrew(r.branch, q, base, tip); }
      if DistinctIds(q) { SameIdsDistinct(q, s.queue); }
    }
  }

  /** A red flush with right lookups, in terms of the chain it works on. */
  lemma EjectReplans(w: World, r: Repo, base: Commit, snapshot: Commit, k: nat) returns (out: nat, tip: Commit, plan: Plan, q': seq<Task>)
    requires Followable(r, base, snapshot, k)
    ensures out == |base| + k && Replanned(r, base, out, tip, plan, q') && Eject(w, r, base, snapshot, k) == Resettled(r, base, tip, q')
    ensures |Between(base, snapshot)[k - 1]| == |base| + k
  {
    var restack := Restack(w.pick, Below(base, snapshot, k), Survivors(base, snapshot, k, Tip(r)));
    out, tip, plan := |base| + k, restack.0, restack.1;
    EjectPlans(w, r, base, snapshot, k, out, tip, plan);
    EjectFollowsPlan(w, r, base, snapshot, k);
    q' := MoveAll(r.branch, Between(base, snapshot)[k - 1], plan, r.queue);
  }

  /** A red flush whose lookups are right keeps every marker on the chain and in order, and makes positions ranks; if
      refs and records agreed, they agree again. */
  lemma EjectKeepsInvariant(w: World, r: Repo, base: Commit, snapshot: Commit, k: nat)
    requires Followable(r, base, snapshot, k) && OnTheMap(r)
    ensures var s := Eject(w, r, base, snapshot, k);
            OnTheMap(s) && NumberedFrom(s, |base|) && (Inv(r) ==> Inv(s))
  {
    var out, tip, plan, q := EjectReplans(w, r, base, snapshot, k);
    EjectKeepsChain(w, r, base, snapshot, k);
    MovedOnTheMap(r, base, out, tip, plan, q);
    if Inv(r) { MovedAgreement(r, base, out, tip, plan, q); }
    SettledOnTheMap(r, base, tip, q, Eject(w, r, base, snapshot, k));
  }

  /** A red flush whose save of the records is refused has moved the ref already: the chain is a chain, but refs and records
      do not agree any more. */
  lemma UnsavedRoundLosesAgreement(w: World, r: Repo, base: Commit, snapshot: Commit, k: nat)
    requires Inv(r) && OnChain(r, base, snapshot) && 1 <= k <= |Between(base, snapshot)|
    ensures var s := Eject(w, r, base, snapshot, k).(queue := r.queue); Chained(s) && !Inv(s)
  {
    var s, s' := Eject(w, r, base, snapshot, k), Eject(w, r, base, snapshot, k).(queue := r.queue);
    EjectKeepsChain(w, r, base, snapshot, k);
    SameRefsKeepChain(s, s');
    var i := OwnerOf(r.branch, r.queue, Floor(r), Tip(r), |Tip(r)|);
    assert !(|StagedAt(r.branch, r.queue[i])| <= |Tip(s')|);
  }

  /** Where refs and records agree, a red flush can be followed. */
  lemma AgreementIsFollowable(r: Repo, base: Commit, snapshot: Commit, k: nat)
    requires Inv(r) && OnChain(r, base, snapshot) && 1 <= k <= |Between(base, snapshot)|
    ensures Followable(r, base, snapshot, k) && OnTheMap(r)
  {
    ChartedIsUnambiguous(r.branch, r.queue, Floor(r), Tip(r));
    AgreementIsHarmless(r, base, snapshot, k);
  }

  /** So can one on a board that has lost records, while the positions of the others are their ranks. */
  lemma RanksAreFollowable(r: Repo, base: Commit, snapshot: Commit, k: nat)
    requires OnChain(r, base, snapshot) && 1 <= k <= |Between(base, snapshot)| && OnTheMap(r) && NumberedFrom(r, |base|)
    ensures Followable(r, base, snapshot, k)
  {
    ChartedIsUnambiguous(r.branch, r.queue, Floor(r), Tip(r));
    RanksAreHarmless(r, base, snapshot, k);
  }

  // ---- what becomes of each record ---------------------------------------------------------------------------

  /** The marker a record carries once positions have been renumbered from `base`. */
  function Ranked(branch: string, c: Commit, base: Commit): Option<Marker>
    requires |base| <= |c|
  {
    Some(Marker(branch, c, |c| - |base|))
  }

  lemma RenumberedRecord(branch: string, base: Commit, tip: Commit, t: Task)
    requires base <= tip && OnTrain(branch, t) && |base| < |StagedAt(branch, t)| && StagedAt(branch, t) <= tip
    ensures Renumbered(branch, base, tip, t) == t.(train := Ranked(branch, StagedAt(branch, t), base))
  {
    MergeBaseAt(base, tip, |base|);
    BetweenIsExact(base, tip, StagedAt(branch, t));
  }

  /** The fate of one record of the old chain, whose commit is at height `h` and the culprit's at `out`. */
  ghost predicate Fate(branch: string, base: Commit, out: nat, tip: Commit, t: Task, t': Task) {
    var h := |StagedAt(branch, t)|;
    if h == out then t' == t.(train := None, state := AwaitingMerge, diagnostics := Some(BatchValidation))
    else if h < out then |base| < h && StagedAt(branch, t) <= tip && t' == t.(train := Ranked(branch, StagedAt(branch, t), base))
    else
      || t' == t.(train := None, state := AwaitingMerge, diagnostics := Some(RestackConflict))
      || (exists c :: |base| < out <= |c| && c <= tip && t' == t.(train := Ranked(branch, c, base)))
  }

  lemma RecordMeetsFate(r: Repo, base: Commit, out: nat, tip: Commit, plan: Plan, t: Task, t': Task)
    requires 0 < out <= |Tip(r)| && PlansAbove(Tip(r), out, tip, plan) && base <= tip && |base| < out
    requires OnTrain(r.branch, t) && |base| < |StagedAt(r.branch, t)| && StagedAt(r.branch, t) <= Tip(r)
    requires var moved := Moved(r.branch, Tip(r)[..out], plan, t);
             t' == if tip == base then moved else Renumbered(r.branch, base, tip, moved)
    ensures Fate(r.branch, base, out, tip, t, t')
  {
    var moved := Moved(r.branch, Tip(r)[..out], plan, t);
    MovedRecord(r.branch, Tip(r), out, tip, plan, t);
    if OnTrain(r.branch, moved) {
      RenumberedRecord(r.branch, base, tip, moved);
      assert t' == t.(train := Ranked(r.branch, StagedAt(r.branch, moved), base));
    }
  }

  /** One record of a board on which a plan has been carried out. */
  ghost predicate Settles(r: Repo, base: Commit, out: nat, tip: Commit, t: Task, t': Task) {
    if OnTrain(r.branch, t) then Fate(r.branch, base, out, tip, t, t') else t' == t
  }

  lemma RecordSettles(r: Repo, base: Commit, out: nat, tip: Commit, plan: Plan, q': seq<Task>, i: nat)
    requires Replanned(r, base, out, tip, plan, q') && OnTheMap(r) && i < |r.queue|
    ensures Settles(r, base, out, tip, r.queue[i], Resettled(r, base, tip, q').queue[i])
  {
    if OnTrain(r.branch, r.queue[i]) {
      RecordMeetsFate(r, base, out, tip, plan, r.queue[i], Resettled(r, base, tip, q').queue[i]);
    }
  }

  ghost predicate AllSettle(r: Repo, base: Commit, out: nat, s: Repo) {
    && |s.queue| == |r.queue|
    && forall i :: 0 <= i < |r.queue| ==> Settles(r, base, out, if s.staging.Some? then Tip(s) else base, r.queue[i], s.queue[i])
  }

  lemma ResettledRest(r: Repo, base: Commit, tip: Commit, q: seq<Task>, s: Repo)
    requires s == Resettled(r, base, tip, q)
    ensures s == r.(staging := s.staging, queue := s.queue) && (if s.staging.Some? then Tip(s) else base) == tip && |s.queue| == |q|
  {
  }

  lemma RecordsSettle(r: Repo, base: Commit, out: nat, tip: Commit, plan: Plan, q': seq<Task>, s: Repo)
    requires Replanned(r, base, out, tip, plan, q') && OnTheMap(r) && s == Resettled(r, base, tip, q')
    ensures AllSettle(r, base, out, s) && s == r.(staging := s.staging, queue := s.queue)
  {
    ResettledRest(r, base, tip, q', s);
    forall i | 0 <= i < |r.queue|
      ensures Settles(r, base, out, tip, r.queue[i], s.queue[i])
    {
      RecordSettles(r, base, out, tip, plan, q', i);
    }
  }

  /** What a red flush with right lookups does to every record.  Off the train: nothing.  The culprit leaves the train as
      a batch failure.  Below it: the same commit, with its rank as position.  Above it: a restack conflict, or the rank of
      its new commit, which lies no lower than the culprit did.  Nothing else about any record changes. */
  lemma EjectSettlesRecords(w: World, r: Repo, base: Commit, snapshot: Commit, k: nat)
    requires Followable(r, base, snapshot, k) && OnTheMap(r)
    ensures |Between(base, snapshot)[k - 1]| == |base| + k
    ensures var s := Eject(w, r, base, snapshot, k);
            AllSettle(r, base, |base| + k, s) && s == r.(staging := s.staging, queue := s.queue)
  {
    var out, tip, plan, q := EjectReplans(w, r, base, snapshot, k);
    RecordsSettle(r, base, out, tip, plan, q, Eject(w, r, base, snapshot, k));
  }

  // ---- a wrong lookup ----------------------------------------------------------------------------------------

  function Waiting(id: string): Task { Task(id, InProgress, None, None, None) }

  function Board(): Repo {
    Repo("main", None, None, [], [], false, [Waiting("a"), Waiting("b")], [])
  }

  /** Task `a` is staged and then abandoned; `b` is staged on top of its commit, at the position that has become free. */
  function Misled(): Repo {
    Window(Board(), [Integrate("a", false, Some(1)), Move("a", Abandoned), Integrate("b", false, Some(2))])
  }

  function Staged(id: string, commit: Commit, position: nat): Task {
    Task(id, AwaitingMerge, Some(Marker("main", commit, position)), None, None)
  }

  function AfterA(): Repo { Board().(staging := Some([Local(1)]), queue := [Staged("a", [Local(1)], 1), Waiting("b")]) }

  function WithoutA(): Repo { AfterA().(queue := [Waiting("b")], sealed := [Staged("a", [Local(1)], 1).(state := Abandoned)]) }

  function AfterB(): Repo { WithoutA().(staging := Some([Local(1), Local(2)]), queue := [Staged("b", [Local(1), Local(2)], 1)]) }

  /** The marker of a task that is staged when nobody else is. */
  lemma MarkFirst(id: string, commit: Commit, rest: seq<Task>)
    requires LastPosition("main", rest) == 0 && rest != [] && rest[0] == Waiting(id)
    ensures Marked("main", rest, id, commit) == rest[0 := Staged(id, commit, 1)]
  {
    assert Find(rest, id) == Some(0) && MayAwaitMerge(rest[0]);
  }

  lemma AIsStaged()
    ensures Apply(Board(), Integrate("a", false, Some(1))) == AfterA()
  {
    assert LastPosition("main", [Waiting("a"), Waiting("b")]) == LastPosition("main", [Waiting("a")]) == 0 by {
      assert [Waiting("a"), Waiting("b")][..1] == [Waiting("a")];
    }
    MarkFirst("a", [Local(1)], Board().queue);
    assert [] + [Local(1)] == [Local(1)];
  }

  lemma AIsAbandoned()
    ensures Apply(AfterA(), Move("a", Abandoned)) == WithoutA()
  {
    assert Without(AfterA().queue, 0) == [Waiting("b")];
  }

  lemma BIsStaged()
    ensures Apply(WithoutA(), Integrate("b", false, Some(2))) == AfterB()
  {
    MarkFirst("b", [Local(1), Local(2)], [Waiting("b")]);
    assert [Local(1)] + [Local(2)] == [Local(1), Local(2)];
  }

  lemma MisledIs()
    ensures Misled() == AfterB()
  {
    AIsStaged();
    AIsAbandoned();
    BIsStaged();
    ThreeEvents(Board(), [Integrate("a", false, Some(1)), Move("a", Abandoned), Integrate("b", false, Some(2))]);
  }

  lemma ThreeEvents(r: Repo, events: seq<Event>)
    requires |events| == 3
    ensures Window(r, events) == Apply(Apply(Apply(r, events[0]), events[1]), events[2])
  {
    var s := Apply(r, events[0]);
    assert Window(r, events) == Window(s, events[1..]);
    assert Window(s, events[1..]) == Window(Apply(s, events[1]), events[1..][1..]);
    var u, last := Apply(s, events[1]), events[1..][1..];
    assert last == [events[2]];
    assert Window(u, last) == Window(Apply(u, events[2]), last[1..]);
  }

  lemma TwoStaged(a: Step, b: Step)
    ensures Between([], [a, b]) == [[a], [a, b]]
  {
    MergeBaseAt([], [a, b], 0);
    assert [a, b][..1] == [a] && [a, b][..2] == [a, b];
  }

  lemma FreshChain(r: Repo)
    requires r.tracking == [] && r.remote == [] && r.staging.Some? && Tip(r) != [] && forall i :: 0 <= i < |Tip(r)| ==> Tip(r)[i].Local?
    ensures OnChain(r, [], Tip(r)) && Floor(r) == 0
  {
    ChainedAt(r, 0);
  }

  lemma OneRecord(branch: string, t: Task)
    requires OnTrain(branch, t)
    ensures ByCommit(branch, [t]) == map[t.train.value.commit := 0] && ByPosition(branch, [t]) == map[t.train.value.position := 0]
  {
    assert [t][..0] == [];
  }

  lemma LoneRecord(branch: string, t: Task, floor: nat, tip: Commit)
    requires OnTrain(branch, t) && floor < |StagedAt(branch, t)| && StagedAt(branch, t) <= tip
    ensures Charted(branch, [t], floor, tip)
  {
  }

  /** The refs of this board, and whom its lookups find. */
  lemma MisledLookups()
    ensures var (r, snapshot) := (Misled(), [Local(1), Local(2)]);
            OnChain(r, [], snapshot) && OnTheMap(r) && TablesOf(r) == Tables(map[snapshot := 0], map[1 := 0])
  {
    MisledIs();
    var r, snapshot := Misled(), [Local(1), Local(2)];
    FreshChain(r);
    OneRecord("main", r.queue[0]);
    LoneRecord("main", r.queue[0], 0, snapshot);
  }

  /** Replaying the one commit above the culprit, whose record has been taken for the culprit's. */
  lemma ReplayOrphan(pick: (Commit, Commit) -> Option<nat>, c: Commit, out: Task, n: nat)
    requires pick([], c) == Some(n) && out.train.None?
    ensures ReplayAll("main", pick, Tables(map[c := 0], map[1 := 0]), Some(2), Restacking([], [out], {}, multiset{}), [c]) ==
            Restacking([Local(n)], [out], {}, multiset{})
  {
    var tables, start := Tables(map[c := 0], map[1 := 0]), Restacking([], [out], {}, multiset{});
    assert [c][..0] == [];
    assert ReplayAll("main", pick, tables, Some(2), start, [c]) == ReplayOne("main", pick, tables, Some(2), start, c);
    assert [] + [Local(n)] == [Local(n)];
  }

  /** The restack on this board, once the lookups of the culprit and of its successor are known. */
  lemma MisledRestack(w: World, r: Repo, snapshot: Commit, out: Task, n: nat)
    requires r.branch == "main" && r.staging == Some(snapshot) && Between([], snapshot) == [[Local(1)], snapshot]
    requires TablesOf(r) == Tables(map[snapshot := 0], map[1 := 0]) && CulpritOut(r, [], snapshot, 1) == [out]
    requires w.pick([], snapshot) == Some(n) && out.train.None?
    ensures Restacked(w, r, [], snapshot, 1) == Restacking([Local(n)], [out], {}, multiset{})
  {
    assert Between([], snapshot)[1..] == [snapshot];
    ReplayOrphan(w.pick, snapshot, out, n);
  }

  lemma MisledResettled(r: Repo, out: Task, n: nat)
    requires out.train.None?
    ensures Resettled(r, [], [Local(n)], [out]) == r.(staging := Some([Local(n)]), queue := [out])
  {
    assert RenumberAll(r.branch, [], [Local(n)], [out]) == [out];
  }

  lemma MisledIsHarmful(r: Repo, snapshot: Commit)
    requires r == AfterB() && snapshot == [Local(1), Local(2)]
    ensures |Between([], snapshot)| == 2 && Between([], snapshot)[0] == [Local(1)]
    ensures !Owned(r.branch, r.queue, [Local(1)]) && !Harmless(r, [], snapshot, 1)
    ensures Between([], snapshot) == [[Local(1)], snapshot]
  {
    TwoStaged(Local(1), Local(2));
    assert !Owned(r.branch, r.queue, [Local(1)]);
    assert OnTrain(r.branch, r.queue[0]) && Position(r.branch, r.queue[0]) == 1;
    RightIff(r.branch, r.queue, [Local(1)], Some(1));
    assert !FindsOwn(r.branch, r.queue, Between([], snapshot)[0], Some(0 + 1));
  }

  lemma MisledCulprit(r: Repo, snapshot: Commit, out: Task)
    requires r == AfterB() && Between([], snapshot) == [[Local(1)], snapshot]
    requires TablesOf(r) == Tables(map[snapshot := 0], map[1 := 0]) && snapshot != [Local(1)]
    requires out == Task("b", AwaitingMerge, None, Some(BatchValidation), None)
    ensures CulpritOut(r, [], snapshot, 1) == [out]
  {
    assert CulpritRecord(r, [], snapshot, 1) == Some(0);
  }

  /** Nothing illegal has happened, yet a red flush whose bisect blames the commit of `a` takes `b` off the train: the
      position of `a` is now that of `b`.  The commit of `b` stays, as all there is on the staging ref. */
  lemma WrongTaskEjected(w: World, n: nat)
    requires w.pick([], [Local(1), Local(2)]) == Some(n)
    ensures var (r, snapshot) := (Misled(), [Local(1), Local(2)]);
            && OnChain(r, [], snapshot) && OnTheMap(r) && |Between([], snapshot)| == 2 && Between([], snapshot)[0] == [Local(1)]
            && !Owned(r.branch, r.queue, [Local(1)]) && !Harmless(r, [], snapshot, 1)
            && Eject(w, r, [], snapshot, 1) ==
                 r.(staging := Some([Local(n)]), queue := [Task("b", AwaitingMerge, None, Some(BatchValidation), None)])
  {
    MisledIs();
    MisledLookups();
    var r, snapshot := Misled(), [Local(1), Local(2)];
    MisledIsHarmful(r, snapshot);
    var out := Task("b", AwaitingMerge, None, Some(BatchValidation), None);
    MisledCulprit(r, snapshot, out);
    MisledRestack(w, r, snapshot, out, n);
    MisledResettled(r, out, n);
  }
}
