/** Landing a green snapshot: the rest of the chain stands on the published snapshot and is still mirrored. */
module TrainLand {
  import opened History
  import opened TrainSteps
  import opened TrainInvariant
  import opened TrainRestack

  lemma {:induction false} SelectDistinct(q: seq<Task>, keep: Task -> bool)
    requires DistinctIds(q)
    ensures DistinctIds(Select(q, keep))
  {
    if q != [] {
      var front, last := q[..|q| - 1], q[|q| - 1];
      SelectDistinct(front, keep);
      forall t | t in Select(front, keep)
        ensures t.id != last.id
      {
        var i :| 0 <= i < |front| && front[i] == t;
        assert Both(i, |q| - 1);
      }
    }
  }

  /** The records that sit above `cut`, kept as they are, mirror the part of the chain above `cut`. */
  lemma UpperMirrors(branch: string, q: seq<Task>, q': seq<Task>, floor: nat, cut: nat, tip: Commit)
    requires DistinctIds(q) && DistinctIds(q') && Mirrors(branch, q, floor, tip) && floor <= cut <= |tip|
    requires forall t :: t in q' && OnTrain(branch, t) ==> t in q && cut < |StagedAt(branch, t)|
    requires forall t :: t in q && OnTrain(branch, t) && cut < |StagedAt(branch, t)| ==> t in q'
    ensures Mirrors(branch, q', cut, tip)
  {
    forall height | cut < height <= |tip|
      ensures HasOwner(branch, q', height)
    {
      var i := OwnerOf(branch, q, floor, tip, height);
      assert q[i] in q';
    }
    forall i, j | Both(i, j) && 0 <= i < |q'| && 0 <= j < |q'| && i != j
      ensures InOrder(branch, q'[i], q'[j])
    {
      if OnTrain(branch, q'[i]) && OnTrain(branch, q'[j]) {
        OrderOf(branch, q, floor, tip, q'[i], q'[j]);
      }
    }
  }

  lemma CreditedDistinct(q: seq<Task>, ids: seq<string>, snapshot: Commit)
    requires DistinctIds(q)
    ensures DistinctIds(CreditAll(ids, snapshot, q))
  {
  }

  /** The records aboard that the ids name are exactly those within the snapshot. */
  ghost predicate NamesExactly(r: Repo, snapshot: Commit, ids: seq<string>) {
    forall t :: t in r.queue && OnTrain(r.branch, t) ==> (t.id in ids <==> t.train.value.commit <= snapshot)
  }

  /** After a landing, the records aboard are those that were aboard and not named, as they were. */
  lemma ClosedQueue(w: World, r: Repo, snapshot: Commit, ids: seq<string>)
    ensures var q' := Close(w, r, snapshot, ids).queue;
            && (forall t :: t in q' && OnTrain(r.branch, t) ==> t in r.queue && t.id !in ids)
            && (forall t :: t in r.queue && t.id !in ids ==> t in q')
  {
    var credited := CreditAll(ids, snapshot, r.queue);
    forall t | t in credited && OnTrain(r.branch, t)
      ensures t in r.queue && t.id !in ids
    {
      var i :| 0 <= i < |credited| && credited[i] == t;
      assert r.queue[i] in r.queue;
    }
    forall t | t in r.queue && t.id !in ids
      ensures t in Close(w, r, snapshot, ids).queue
    {
      var i :| 0 <= i < |r.queue| && r.queue[i] == t;
      assert credited[i] == t;
    }
  }

  lemma ClosedDistinct(w: World, r: Repo, snapshot: Commit, ids: seq<string>)
    requires DistinctIds(r.queue)
    ensures DistinctIds(Close(w, r, snapshot, ids).queue)
  {
    CreditedDistinct(r.queue, ids, snapshot);
    SelectDistinct(CreditAll(ids, snapshot, r.queue), Open(w, ids, snapshot));
  }

  /** Landing keeps the chain, whatever the records say: what was staged after the snapshot is all that stays on it. */
  lemma CloseKeepsChain(w: World, r: Repo, published: Repo, base: Commit, snapshot: Commit, ids: seq<string>, s: Repo)
    requires OnChain(r, base, snapshot)
    requires published == r.(local := published.local, remote := snapshot)
    requires s == Close(w, published, snapshot, ids)
    ensures Chained(s) && Chain(s) == |Tip(r)| - |snapshot|
    ensures s.staging.Some? ==> Floor(s) == |snapshot| && Tip(s) == Tip(r)
    ensures s.staging.None? <==> Tip(r) == snapshot
  {
    if Tip(r) != snapshot {
      assert Forks(Tip(r), snapshot, |snapshot|);
      ChainedAt(s, |snapshot|);
    }
  }

  lemma AboveSnapshot(r: Repo, snapshot: Commit, t: Task)
    requires Charted(r.branch, r.queue, Floor(r), Tip(r)) && snapshot <= Tip(r) && t in r.queue && OnTrain(r.branch, t)
    ensures t.train.value.commit <= snapshot <==> |StagedAt(r.branch, t)| <= |snapshot|
  {
    var i :| 0 <= i < |r.queue| && r.queue[i] == t;
    assert StagedAt(r.branch, t) <= Tip(r);
  }

  lemma ClosedMirrors(r: Repo, base: Commit, snapshot: Commit, q': seq<Task>)
    requires Inv(r) && OnChain(r, base, snapshot) && DistinctIds(q')
    requires forall t :: t in q' && OnTrain(r.branch, t) ==> t in r.queue && !(t.train.value.commit <= snapshot)
    requires forall t :: t in r.queue && OnTrain(r.branch, t) && !(t.train.value.commit <= snapshot) ==> t in q'
    ensures Mirrors(r.branch, q', |snapshot|, Tip(r))
    ensures Tip(r) == snapshot ==> Mirrors(r.branch, q', 0, [])
  {
    forall t | t in r.queue && OnTrain(r.branch, t)
      ensures t.train.value.commit <= snapshot <==> |StagedAt(r.branch, t)| <= |snapshot|
    {
      AboveSnapshot(r, snapshot, t);
    }
    UpperMirrors(r.branch, r.queue, q', Floor(r), |snapshot|, Tip(r));
    if Tip(r) == snapshot {
      NobodyAbove(r.branch, q', snapshot);
    }
  }

  lemma NobodyAbove(branch: string, q: seq<Task>, tip: Commit)
    requires Mirrors(branch, q, |tip|, tip)
    ensures Mirrors(branch, q, 0, [])
  {
    forall i | 0 <= i < |q| ensures !OnTrain(branch, q[i]) {
    }
  }

  /** A record that is named although its commit is above the snapshot leaves that commit without an owner. */
  lemma SweptBreaks(r: Repo, snapshot: Commit, ids: seq<string>, s: Repo, t: Task)
    requires Inv(r) && snapshot <= Tip(r) && t in r.queue && OnTrain(r.branch, t) && t.id in ids && !(t.train.value.commit <= snapshot)
    requires s.branch == r.branch && (Tip(r) != snapshot ==> Tip(s) == Tip(r) && Floor(s) == |snapshot|)
    requires forall u :: u in s.queue && OnTrain(r.branch, u) ==> u in r.queue && u.id !in ids
    ensures !Inv(s)
  {
    AboveSnapshot(r, snapshot, t);
    var at :| 0 <= at < |r.queue| && r.queue[at] == t;
    var h := |StagedAt(r.branch, t)|;
    assert StagedAt(r.branch, t) == Tip(r)[..h];
    if Inv(s) {
      var i := OwnerOf(s.branch, s.queue, Floor(s), Tip(s), h);
      assert s.queue[i] in s.queue;
      OrderOf(r.branch, r.queue, Floor(r), Tip(r), s.queue[i], t);
      assert false;
    }
  }

  /** A record that is not named although its commit is published stays below the new fork point. */
  lemma ForgottenBreaks(r: Repo, snapshot: Commit, s: Repo, t: Task)
    requires t in s.queue && OnTrain(s.branch, t) && t.train.value.commit <= snapshot
    requires s.staging.Some? ==> Floor(s) == |snapshot|
    ensures !Inv(s)
  {
  }

  lemma ExactlyNamed(r: Repo, snapshot: Commit, ids: seq<string>, q': seq<Task>)
    requires NamesExactly(r, snapshot, ids)
    requires forall t :: t in q' && OnTrain(r.branch, t) ==> t in r.queue && t.id !in ids
    requires forall t :: t in r.queue && t.id !in ids ==> t in q'
    ensures forall t :: t in q' && OnTrain(r.branch, t) ==> t in r.queue && !(t.train.value.commit <= snapshot)
    ensures forall t :: t in r.queue && OnTrain(r.branch, t) && !(t.train.value.commit <= snapshot) ==> t in q'
  {
  }

  /** Landing keeps refs and records in agreement exactly when its ids name, of the records aboard, those within the
      snapshot. */
  lemma CloseKeepsInvariantIff(w: World, r: Repo, published: Repo, base: Commit, snapshot: Commit, ids: seq<string>, s: Repo)
    requires Inv(r) && OnChain(r, base, snapshot)
    requires published == r.(local := published.local, remote := snapshot)
    requires s == Close(w, published, snapshot, ids)
    ensures Inv(s) <==> NamesExactly(r, snapshot, ids)
  {
    ClosedQueue(w, published, snapshot, ids);
    ClosedDistinct(w, published, snapshot, ids);
    CloseKeepsChain(w, r, published, base, snapshot, ids, s);
    if NamesExactly(r, snapshot, ids) {
      ExactlyNamed(r, snapshot, ids, s.queue);
      ClosedMirrors(r, base, snapshot, s.queue);
    } else {
      var t :| t in r.queue && OnTrain(r.branch, t) && (t.id in ids <==> !(t.train.value.commit <= snapshot));
      if t.id in ids {
        SweptBreaks(r, snapshot, ids, s, t);
      } else {
        ForgottenBreaks(r, snapshot, s, t);
      }
    }
  }

  /** A landing whose save of the records is refused has published already: the records of the snapshot are still marked, and
      their commits are below the new fork point. */
  lemma UnsavedLandingLosesAgreement(w: World, r: Repo, published: Repo, base: Commit, snapshot: Commit, ids: seq<string>)
    requires Inv(r) && OnChain(r, base, snapshot)
    requires published == r.(local := published.local, remote := snapshot)
    ensures var s := Close(w, published, snapshot, ids).(queue := r.queue, sealed := r.sealed); Chained(s) && !Inv(s)
  {
    var s := Close(w, published, snapshot, ids);
    var s' := s.(queue := r.queue, sealed := r.sealed);
    CloseKeepsChain(w, r, published, base, snapshot, ids, s);
    SameRefsKeepChain(s, s');
    var i := OwnerOf(r.branch, r.queue, Floor(r), Tip(r), |snapshot|);
    assert r.queue[i].train.value.commit <= snapshot;
    ForgottenBreaks(r, snapshot, s', r.queue[i]);
  }
}
