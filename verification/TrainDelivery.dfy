/**
 What a landing credits.  It credits records by the ids taken with the snapshot, with whatever commit their marker names by
 then, so a task that is staged again in between is credited with a commit that has not been published.
 */
module TrainDelivery {
  import opened Wrappers
  import opened History
  import opened Lifecycle
  import opened TrainSteps
  import opened TrainInvariant
  import opened TrainCount

  /** If a landing of `snapshot` names this record, the commit of its marker is within the snapshot. */
  predicate Delivered(ids: seq<string>, snapshot: Commit, t: Task) {
    t.id in ids && t.train.Some? ==> t.train.value.commit <= snapshot
  }

  ghost predicate AllDelivered(q: seq<Task>, ids: seq<string>, snapshot: Commit) {
    forall i :: 0 <= i < |q| ==> Delivered(ids, snapshot, q[i])
  }

  // ---- the landing -------------------------------------------------------------------------------------------

  /** What a landing makes of a record that it names: the marker is gone, and the commit it named is the merge commit (the
      snapshot, if there was no marker); but for the state, everything else is as it was. */
  predicate Paid(snapshot: Commit, t: Task, t': Task) {
    && t'.id == t.id && t'.diagnostics == t.diagnostics && t'.train.None?
    && (t.train.Some? ==> t'.mergeCommit == Some(t.train.value.commit))
    && (t.train.None? ==> t'.mergeCommit == Some(snapshot))
  }

  /** The commit that a landing credits a record with has been published exactly when the record is delivered. */
  lemma CreditIsPublishedIff(ids: seq<string>, snapshot: Commit, t: Task, t': Task)
    requires t.id in ids && Paid(snapshot, t, t')
    ensures t'.mergeCommit.Some? && (t'.mergeCommit.value <= snapshot <==> Delivered(ids, snapshot, t))
  {
  }

  /** Where a landing leaves a record.  One it names is paid for: it is sealed as merged if its own commit has been published,
      it awaits its merge and nothing objects, and is still on the board in its old state otherwise.  Any other stays as it is. */
  ghost predicate LeftBy(w: World, ids: seq<string>, snapshot: Commit, t: Task, r: Repo, s: Repo) {
    && r.sealed <= s.sealed
    && if t.id !in ids then t in s.queue
       else if t.state == AwaitingMerge && w.sealable(t.id) && Delivered(ids, snapshot, t)
       then exists t' :: t' in s.sealed[|r.sealed|..] && Paid(snapshot, t, t') && t'.state == Merged
       else exists t' :: t' in s.queue && Paid(snapshot, t, t') && t'.state == t.state
  }

  lemma ClosesIff(w: World, ids: seq<string>, snapshot: Commit, t: Task)
    ensures Closes(w, ids, snapshot, Credited(ids, snapshot, t)) <==>
            t.id in ids && t.state == AwaitingMerge && w.sealable(t.id) && Delivered(ids, snapshot, t)
  {
  }

  lemma CreditPays(ids: seq<string>, snapshot: Commit, t: Task)
    ensures var t' := Credited(ids, snapshot, t);
            t'.state == t.state && if t.id in ids then Paid(snapshot, t, t') else t' == t
  {
  }

  /** The records that a landing closes, in order, are the ones it adds to the sealed. */
  lemma NewlySealed(w: World, r: Repo, snapshot: Commit, ids: seq<string>)
    ensures var s := Close(w, r, snapshot, ids);
            && r.sealed <= s.sealed
            && s.sealed[|r.sealed|..] == MergeAll(Select(CreditAll(ids, snapshot, r.queue), Closing(w, ids, snapshot)))
  {
  }

  lemma MergedOf(q: seq<Task>, t': Task) returns (t: Task)
    requires t' in MergeAll(q)
    ensures t in q && t' == t.(state := Merged)
  {
    var j :| 0 <= j < |q| && MergeAll(q)[j] == t';
    t := q[j];
  }

  lemma MergedIn(q: seq<Task>, t: Task)
    requires t in q
    ensures t.(state := Merged) in MergeAll(q)
  {
    var j :| 0 <= j < |q| && q[j] == t;
    assert MergeAll(q)[j] == t.(state := Merged);
  }

  lemma CreditedOf(ids: seq<string>, snapshot: Commit, q: seq<Task>, c: Task) returns (t: Task)
    requires c in CreditAll(ids, snapshot, q)
    ensures t in q && c == Credited(ids, snapshot, t)
  {
    var i :| 0 <= i < |q| && CreditAll(ids, snapshot, q)[i] == c;
    t := q[i];
  }

  lemma CreditedIn(ids: seq<string>, snapshot: Commit, q: seq<Task>, t: Task)
    requires t in q
    ensures Credited(ids, snapshot, t) in CreditAll(ids, snapshot, q)
  {
    var i :| 0 <= i < |q| && q[i] == t;
    assert CreditAll(ids, snapshot, q)[i] == Credited(ids, snapshot, t);
  }

  lemma CloseLeaves(w: World, r: Repo, snapshot: Commit, ids: seq<string>, t: Task)
    requires t in r.queue
    ensures LeftBy(w, ids, snapshot, t, r, Close(w, r, snapshot, ids))
  {
    var credited, t' := CreditAll(ids, snapshot, r.queue), Credited(ids, snapshot, t);
    CreditedIn(ids, snapshot, r.queue, t);
    ClosesIff(w, ids, snapshot, t);
    CreditPays(ids, snapshot, t);
    NewlySealed(w, r, snapshot, ids);
    if Closes(w, ids, snapshot, t') {
      MergedIn(Select(credited, Closing(w, ids, snapshot)), t');
    }
  }

  /** A record that a landing leaves on the board is one of those it found, as it was or paid for. */
  ghost predicate FoundOpen(ids: seq<string>, snapshot: Commit, q: seq<Task>, t': Task) {
    exists t :: t in q && t.state == t'.state && if t.id in ids then Paid(snapshot, t, t') else t' == t
  }

  /** One that it seals is one of those it found and names, paid for and merged. */
  ghost predicate FoundNamed(ids: seq<string>, snapshot: Commit, q: seq<Task>, t': Task) {
    exists t :: t in q && t.id in ids && Paid(snapshot, t, t') && t'.state == Merged
  }

  lemma OpenWasFound(w: World, r: Repo, snapshot: Commit, ids: seq<string>, t': Task)
    requires t' in Close(w, r, snapshot, ids).queue
    ensures FoundOpen(ids, snapshot, r.queue, t')
  {
    var t := CreditedOf(ids, snapshot, r.queue, t');
    CreditPays(ids, snapshot, t);
  }

  lemma SealedWasFound(w: World, r: Repo, snapshot: Commit, ids: seq<string>, t': Task)
    requires r.sealed <= Close(w, r, snapshot, ids).sealed && t' in Close(w, r, snapshot, ids).sealed[|r.sealed|..]
    ensures FoundNamed(ids, snapshot, r.queue, t')
  {
    NewlySealed(w, r, snapshot, ids);
    var closing := Select(CreditAll(ids, snapshot, r.queue), Closing(w, ids, snapshot));
    var c := MergedOf(closing, t');
    var t := CreditedOf(ids, snapshot, r.queue, c);
    CreditPays(ids, snapshot, t);
  }

  /** A landing puts nothing on the board or among the sealed that was not on the board before. */
  lemma CloseInventsNothing(w: World, r: Repo, snapshot: Commit, ids: seq<string>, t': Task)
    ensures var s := Close(w, r, snapshot, ids);
            && r.sealed <= s.sealed
            && (t' in s.queue ==> FoundOpen(ids, snapshot, r.queue, t'))
            && (t' in s.sealed[|r.sealed|..] ==> FoundNamed(ids, snapshot, r.queue, t'))
  {
    NewlySealed(w, r, snapshot, ids);
    if t' in Close(w, r, snapshot, ids).queue { OpenWasFound(w, r, snapshot, ids, t'); }
    if t' in Close(w, r, snapshot, ids).sealed[|r.sealed|..] { SealedWasFound(w, r, snapshot, ids, t'); }
  }

  /** Whatever has happened, nothing is sealed as merged with a commit that the landing has not published. */
  lemma SealedIsPublished(w: World, r: Repo, snapshot: Commit, ids: seq<string>, i: nat)
    requires |r.sealed| <= i < |Close(w, r, snapshot, ids).sealed|
    ensures var t := Close(w, r, snapshot, ids).sealed[i];
            t.state == Merged && t.mergeCommit.Some? && t.mergeCommit.value <= Close(w, r, snapshot, ids).tracking
  {
    var closing := Select(CreditAll(ids, snapshot, r.queue), Closing(w, ids, snapshot));
    assert closing[i - |r.sealed|] in closing;
  }

  /** The records named carry no marker of another branch. */
  ghost predicate OwnMarkers(branch: string, q: seq<Task>, ids: seq<string>) {
    forall i :: 0 <= i < |q| && q[i].id in ids && q[i].train.Some? ==> OnTrain(branch, q[i])
  }

  /** A landing sweeps nobody along exactly when every record it names is delivered. */
  lemma {:induction false} SweepsNobodyIff(branch: string, q: seq<Task>, ids: seq<string>, snapshot: Commit)
    requires OwnMarkers(branch, q, ids)
    ensures NamedCrew(branch, ids, snapshot, false, q) == multiset{} <==> AllDelivered(q, ids, snapshot)
  {
    if q != [] {
      var n := |q| - 1;
      SweepsNobodyIff(branch, q[..n], ids, snapshot);
      assert AllDelivered(q, ids, snapshot) <==> AllDelivered(q[..n], ids, snapshot) && Delivered(ids, snapshot, q[n]);
      EmptySum(NamedCrew(branch, ids, snapshot, false, q[..n]), OneNamed(branch, ids, snapshot, false, q[n]));
    }
  }

  lemma EmptySum(a: multiset<string>, b: multiset<string>)
    ensures a + b == multiset{} <==> a == multiset{} && b == multiset{}
  {
    if a + b == multiset{} {
      forall id: string ensures a[id] == 0 && b[id] == 0 {
        assert (a + b)[id] == 0;
      }
    }
  }

  /** Where the ids name exactly the records within the snapshot, everybody is delivered. */
  lemma ExactIsDelivered(r: Repo, snapshot: Commit, ids: seq<string>)
    requires DistinctIds(r.queue) && Covers(r, snapshot, ids)
    ensures AllDelivered(r.queue, ids, snapshot) && OwnMarkers(r.branch, r.queue, ids)
  {
    forall i | 0 <= i < |r.queue| && r.queue[i].id in ids
      ensures OnTrain(r.branch, r.queue[i]) && r.queue[i].train.value.commit <= snapshot
    {
      assert r.queue[i] in r.queue;
    }
  }

  // ---- which events keep everybody delivered -----------------------------------------------------------------

  /** A task that the snapshot names is staged again, or gets a marker for a commit that the snapshot does not hold. */
  predicate Restages(r: Repo, e: Event, ids: seq<string>, snapshot: Commit) {
    match e
    case Integrate(id, _, step) => step.Some? && id in ids && !Unmarkable(r, id)
    case LateMark(id, commit) => id in ids && !Unmarkable(r, id) && !(commit <= snapshot)
    case _ => false
  }

  /** The marker a mark write leaves, if any, decides. */
  lemma MarkDelivers(r: Repo, id: string, commit: Commit, ids: seq<string>, snapshot: Commit)
    requires AllDelivered(r.queue, ids, snapshot)
    ensures AllDelivered(Marked(r.branch, r.queue, id, commit), ids, snapshot) <==>
            Unmarkable(r, id) || id !in ids || commit <= snapshot
  {
    if !Unmarkable(r, id) {
      var i, t := MarkedIs(r.branch, r.queue, id, commit);
      var q' := r.queue[i := t];
      assert Delivered(ids, snapshot, q'[i]) <==> id !in ids || commit <= snapshot;
      forall j | 0 <= j < |q'| && j != i ensures Delivered(ids, snapshot, q'[j]) {
        assert q'[j] == r.queue[j];
      }
    }
  }

  lemma MoveDelivers(r: Repo, id: string, to: State, ids: seq<string>, snapshot: Commit)
    requires AllDelivered(r.queue, ids, snapshot)
    ensures AllDelivered(MoveTask(r, id, to).queue, ids, snapshot)
  {
    match Find(r.queue, id)
    case None =>
    case Some(i) =>
      var q' := MoveTask(r, id, to).queue;
      forall j | 0 <= j < |q'| ensures Delivered(ids, snapshot, q'[j]) {
        if Terminal(to) {
          assert q'[j] == r.queue[if j < i then j else j + 1];
        } else {
          assert Delivered(ids, snapshot, r.queue[j]);
        }
      }
  }

  lemma ParkDelivers(q: seq<Task>, id: string, ids: seq<string>, snapshot: Commit)
    requires AllDelivered(q, ids, snapshot)
    ensures AllDelivered(Parked(q, id), ids, snapshot)
  {
    forall j | 0 <= j < |q| ensures Delivered(ids, snapshot, Parked(q, id)[j]) {
      assert Delivered(ids, snapshot, q[j]);
    }
  }

  /** On a chain that holds the snapshot, an event keeps everybody delivered exactly when it does not restage one of them. */
  lemma ApplyDeliversIff(r: Repo, e: Event, ids: seq<string>, snapshot: Commit)
    requires r.staging.Some? && snapshot <= Tip(r) && AllDelivered(r.queue, ids, snapshot)
    ensures AllDelivered(Apply(r, e).queue, ids, snapshot) <==> !Restages(r, e, ids, snapshot)
  {
    match e
    case Integrate(id, fetched, step) =>
      if step.Some? {
        MarkDelivers(r, id, Tip(r) + [Local(step.value)], ids, snapshot);
      } else {
        ParkDelivers(r.queue, id, ids, snapshot);
      }
    case LateMark(id, commit) => MarkDelivers(r, id, commit, ids, snapshot);
    case Move(id, to) => MoveDelivers(r, id, to, ids, snapshot);
    case Add(id, state) =>
    case _ =>
  }

  ghost predicate DeliveredThroughout(r: Repo, events: seq<Event>, ids: seq<string>, snapshot: Commit)
    decreases |events|
  {
    AllDelivered(r.queue, ids, snapshot) && (events == [] || DeliveredThroughout(Apply(r, events[0]), events[1..], ids, snapshot))
  }

  predicate NobodyRestaged(r: Repo, events: seq<Event>, ids: seq<string>, snapshot: Commit)
    decreases |events|
  {
    events == [] || (!Restages(r, events[0], ids, snapshot) && NobodyRestaged(Apply(r, events[0]), events[1..], ids, snapshot))
  }

  /** Through a window, everybody the snapshot names is delivered at every moment exactly when nobody is restaged. */
  lemma {:induction false} WindowDeliversIff(r: Repo, events: seq<Event>, ids: seq<string>, snapshot: Commit)
    requires Chained(r) && r.staging.Some? && snapshot <= Tip(r) && AllDelivered(r.queue, ids, snapshot)
    ensures DeliveredThroughout(r, events, ids, snapshot) <==> NobodyRestaged(r, events, ids, snapshot)
    ensures NobodyRestaged(r, events, ids, snapshot) ==> AllDelivered(Window(r, events).queue, ids, snapshot)
    decreases |events|
  {
    if events != [] {
      var s := Apply(r, events[0]);
      ApplyKeepsChain(r, events[0]);
      ApplyDeliversIff(r, events[0], ids, snapshot);
      if AllDelivered(s.queue, ids, snapshot) {
        WindowDeliversIff(s, events[1..], ids, snapshot);
      } else {
        assert !DeliveredThroughout(s, events[1..], ids, snapshot);
      }
    }
  }

  /** Replacing one record by one with a marker of this branch, or with the marker it had. */
  lemma ReplacedOwnMarkers(branch: string, q: seq<Task>, i: nat, t: Task, ids: seq<string>)
    requires OwnMarkers(branch, q, ids) && i < |q| && t.id == q[i].id && (OnTrain(branch, t) || t.train == q[i].train)
    ensures OwnMarkers(branch, q[i := t], ids)
  {
  }

  lemma WithoutOwnMarkers(branch: string, q: seq<Task>, i: nat, ids: seq<string>)
    requires OwnMarkers(branch, q, ids) && i < |q|
    ensures OwnMarkers(branch, Without(q, i), ids)
  {
    var q' := Without(q, i);
    forall j | 0 <= j < |q'| && q'[j].id in ids && q'[j].train.Some? ensures OnTrain(branch, q'[j]) {
      assert q'[j] == q[if j < i then j else j + 1];
    }
  }

  lemma MarkedOwnMarkers(branch: string, q: seq<Task>, id: string, commit: Commit, ids: seq<string>)
    requires OwnMarkers(branch, q, ids)
    ensures OwnMarkers(branch, Marked(branch, q, id, commit), ids)
  {
    if Find(q, id).Some? && MayAwaitMerge(q[Find(q, id).value]) {
      var i, t := MarkedIs(branch, q, id, commit);
      ReplacedOwnMarkers(branch, q, i, t, ids);
    }
  }

  /** No event gives a record a marker of another branch. */
  lemma ApplyKeepsOwnMarkers(r: Repo, e: Event, ids: seq<string>)
    requires OwnMarkers(r.branch, r.queue, ids)
    ensures OwnMarkers(r.branch, Apply(r, e).queue, ids)
  {
    var q, q' := r.queue, Apply(r, e).queue;
    match e
    case Integrate(id, fetched, step) =>
      if step.Some? {
        MarkedOwnMarkers(r.branch, q, id, Tip(Apply(r, e)), ids);
      } else if Find(q, id).Some? {
        ReplacedOwnMarkers(r.branch, q, Find(q, id).value, q'[Find(q, id).value], ids);
      }
    case LateMark(id, commit) => MarkedOwnMarkers(r.branch, q, id, commit, ids);
    case Move(id, to) =>
      if Find(q, id).Some? {
        var i := Find(q, id).value;
        if Terminal(to) { WithoutOwnMarkers(r.branch, q, i, ids); } else { ReplacedOwnMarkers(r.branch, q, i, q'[i], ids); }
      }
    case _ =>
  }

  lemma {:induction false} WindowKeepsOwnMarkers(r: Repo, events: seq<Event>, ids: seq<string>)
    requires OwnMarkers(r.branch, r.queue, ids)
    ensures OwnMarkers(r.branch, Window(r, events).queue, ids)
    decreases |events|
  {
    if events != [] {
      ApplyKeepsOwnMarkers(r, events[0], ids);
      WindowKeepsOwnMarkers(Apply(r, events[0]), events[1..], ids);
    }
  }
}
