/** What a save does to the refs, for a writer among others and for a writer alone. */
module StoreSave {
  import opened Wrappers
  import opened StoreSteps

  // ---- the effect of a transaction ---------------------------------------------------------------------------

  predicate Touches(txn: seq<Change>, id: string) {
    exists c :: c in txn && c.TaskRef? && c.id == id
  }

  /** A transaction that git accepts moves each of its refs to its new value and no other ref. */
  lemma {:induction false} InstallEffect(refs: Refs, txn: seq<Change>, id: string)
    requires forall i, j :: 0 <= i < j < |txn| ==> !SameRef(txn[i], txn[j])
    ensures !Touches(txn, id) ==> Get(InstallAll(refs, txn).tasks, id) == Get(refs.tasks, id)
    ensures forall c :: c in txn && c.TaskRef? && c.id == id ==> Get(InstallAll(refs, txn).tasks, id) == c.next
  {
    if txn != [] {
      var n := |txn| - 1;
      InstallEffect(refs, txn[..n], id);
      assert txn == txn[..n] + [txn[n]];
    }
  }

  lemma {:induction false} InstallKeepsSealed(refs: Refs, txn: seq<Change>)
    requires forall c :: c in txn ==> !c.SealedRef?
    ensures InstallAll(refs, txn).sealed == refs.sealed
  {
    if txn != [] {
      InstallKeepsSealed(refs, txn[..|txn| - 1]);
    }
  }

  // ---- the transaction of a save -----------------------------------------------------------------------------

  /** The queue holds a changed record for this id. */
  predicate Changes(loaded: map<string, Blob>, t: Blob) {
    t.Json? && t.id != "" && Get(loaded, t.id) != Some(t)
  }

  predicate Prunable(read: Refs, loaded: map<string, Blob>, queue: seq<Blob>, id: string) {
    id in read.tasks && id in loaded && id !in Seen(queue)
  }

  lemma {:induction false} UpdatesAre(loaded: map<string, Blob>, queue: seq<Blob>, c: Change)
    ensures c in Updates(loaded, queue) <==>
              exists t :: t in queue && Changes(loaded, t) && c == TaskRef(t.id, Get(loaded, t.id), Some(t))
  {
    if queue != [] {
      var n := |queue| - 1;
      UpdatesAre(loaded, queue[..n], c);
      assert queue == queue[..n] + [queue[n]];
    }
  }

  lemma {:induction false} PrunesAre(read: Refs, loaded: map<string, Blob>, seen: set<string>, listed: seq<string>, c: Change)
    ensures c in Prunes(read, loaded, seen, listed) <==>
              exists id :: id in listed && id in read.tasks && id in loaded && id !in seen && c == TaskRef(id, Get(read.tasks, id), None)
  {
    if listed != [] {
      var n := |listed| - 1;
      PrunesAre(read, loaded, seen, listed[..n], c);
      assert listed == listed[..n] + [listed[n]];
    }
  }

  /** Every line of a save's transaction is an update of a changed task, a prune, or the envelope. */
  lemma TransactionIs(read: Refs, w: Writer, queue: seq<Blob>, listed: seq<string>, c: Change)
    requires Lists(listed, read)
    ensures c in Transaction(read, w, queue, listed) <==>
              || (exists t :: t in queue && Changes(w.loaded, t) && c == TaskRef(t.id, Get(w.loaded, t.id), Some(t)))
              || (c.TaskRef? && Prunable(read, w.loaded, queue, c.id) && c == TaskRef(c.id, Get(read.tasks, c.id), None))
              || (c.MetaRef? && c in MetaChange(read, w.envelope))
  {
    UpdatesAre(w.loaded, queue, c);
    PrunesAre(read, w.loaded, Seen(queue), listed, c);
  }

  /** No lost update, among any number of writers.  Whatever the refs were when the transaction was built (`read`) and
      whatever they had become when it was submitted (`refs`): a task ref that gets a new value held exactly the value
      this writer had loaded, and gets this writer's record; a task ref that goes was loaded by this writer, had left
      its queue and had not moved since the read; every other ref stays as it was. */
  lemma NoLostUpdate(read: Refs, refs: Refs, w: Writer, queue: seq<Blob>, listed: seq<string>, id: string)
    requires Lists(listed, read)
    ensures var after := SaveRefs(read, refs, w, queue, listed);
            && after.sealed == refs.sealed
            && (Get(after.tasks, id) != Get(refs.tasks, id) ==>
                  match Get(after.tasks, id)
                  case Some(t) => t in queue && t.Json? && t.id == id && Get(refs.tasks, id) == Get(w.loaded, id) != Some(t)
                  case None => Prunable(read, w.loaded, queue, id) && Get(refs.tasks, id) == Get(read.tasks, id))
  {
    var txn := Transaction(read, w, queue, listed);
    if Accepted(refs, txn) {
      InstallEffect(refs, txn, id);
      forall c | c in txn ensures !c.SealedRef? {
        TransactionIs(read, w, queue, listed, c);
      }
      InstallKeepsSealed(refs, txn);
      if Touches(txn, id) {
        var c :| c in txn && c.TaskRef? && c.id == id;
        TransactionIs(read, w, queue, listed, c);
        assert Expects(refs, c);
      }
    }
  }

  /** All or nothing: either every changed task and every prune of the save took effect, or no ref moved. */
  lemma SaveIsAtomic(read: Refs, refs: Refs, w: Writer, queue: seq<Blob>, listed: seq<string>)
    requires Lists(listed, read)
    ensures var after := SaveRefs(read, refs, w, queue, listed);
            || after == refs
            || ((forall t :: t in queue && Changes(w.loaded, t) ==> Get(after.tasks, t.id) == Some(t))
                && (forall id :: Prunable(read, w.loaded, queue, id) ==> id !in after.tasks))
  {
    var txn := Transaction(read, w, queue, listed);
    if Accepted(refs, txn) {
      forall t | t in queue && Changes(w.loaded, t)
        ensures Get(InstallAll(refs, txn).tasks, t.id) == Some(t)
      {
        TransactionIs(read, w, queue, listed, TaskRef(t.id, Get(w.loaded, t.id), Some(t)));
        InstallEffect(refs, txn, t.id);
      }
      forall id | Prunable(read, w.loaded, queue, id)
        ensures id !in InstallAll(refs, txn).tasks
      {
        TransactionIs(read, w, queue, listed, TaskRef(id, Get(read.tasks, id), None));
        InstallEffect(refs, txn, id);
      }
    }
  }

  ghost predicate DistinctTasks(queue: seq<Blob>) {
    forall i, j :: 0 <= i < j < |queue| && queue[i].Json? && queue[j].Json? ==> queue[i].id != queue[j].id
  }

  /** A save goes through exactly when nobody moved a ref it means to move: each changed task still has the value this
      writer loaded, and pruned refs and the envelope still have the values just read. */
  lemma SaveAcceptedIff(read: Refs, refs: Refs, w: Writer, queue: seq<Blob>, listed: seq<string>)
    requires Lists(listed, read) && DistinctTasks(queue)
    ensures Accepted(refs, Transaction(read, w, queue, listed)) <==>
              && (forall t :: t in queue && Changes(w.loaded, t) ==> Get(refs.tasks, t.id) == Get(w.loaded, t.id))
              && (forall id :: Prunable(read, w.loaded, queue, id) ==> Get(refs.tasks, id) == Get(read.tasks, id))
              && (read.meta == Some(Stamped(w.envelope)) || refs.meta == read.meta)
  {
    var txn := Transaction(read, w, queue, listed);
    TransactionDistinct(read, w, queue, listed);
    if Accepted(refs, txn) {
      forall t | t in queue && Changes(w.loaded, t)
        ensures Get(refs.tasks, t.id) == Get(w.loaded, t.id)
      {
        var c := TaskRef(t.id, Get(w.loaded, t.id), Some(t));
        TransactionIs(read, w, queue, listed, c);
        assert Expects(refs, c);
      }
      forall id | Prunable(read, w.loaded, queue, id)
        ensures Get(refs.tasks, id) == Get(read.tasks, id)
      {
        var c := TaskRef(id, Get(read.tasks, id), None);
        TransactionIs(read, w, queue, listed, c);
        assert Expects(refs, c);
      }
      if read.meta != Some(Stamped(w.envelope)) {
        var c := MetaRef(read.meta, Some(Stamped(w.envelope)));
        TransactionIs(read, w, queue, listed, c);
        assert Expects(refs, c);
      }
    } else {
      var i :| 0 <= i < |txn| && !Expects(refs, txn[i]);
      TransactionIs(read, w, queue, listed, txn[i]);
    }
  }

  ghost predicate DistinctRefs(txn: seq<Change>) {
    forall i, j :: 0 <= i < j < |txn| ==> !SameRef(txn[i], txn[j])
  }

  lemma DistinctConcat(a: seq<Change>, b: seq<Change>)
    requires DistinctRefs(a) && DistinctRefs(b)
    requires forall c, d :: c in a && d in b ==> !SameRef(c, d)
    ensures DistinctRefs(a + b)
  {
    forall i, j | 0 <= i < j < |a + b|
      ensures !SameRef((a + b)[i], (a + b)[j])
    {
      if i < |a| <= j {
        assert a[i] in a && b[j - |a|] in b;
      }
    }
  }

  lemma {:induction false} UpdatesDistinct(loaded: map<string, Blob>, queue: seq<Blob>)
    requires DistinctTasks(queue)
    ensures DistinctRefs(Updates(loaded, queue))
  {
    if queue != [] {
      var n := |queue| - 1;
      UpdatesDistinct(loaded, queue[..n]);
      forall c | c in Updates(loaded, queue[..n])
        ensures queue[n].Json? ==> c.TaskRef? && c.id != queue[n].id
      {
        UpdatesAre(loaded, queue[..n], c);
      }
    }
  }

  lemma {:induction false} PrunesDistinct(read: Refs, loaded: map<string, Blob>, seen: set<string>, listed: seq<string>)
    requires forall i, j :: 0 <= i < j < |listed| ==> listed[i] != listed[j]
    ensures DistinctRefs(Prunes(read, loaded, seen, listed))
  {
    if listed != [] {
      var n := |listed| - 1;
      var front, id := Prunes(read, loaded, seen, listed[..n]), listed[n];
      PrunesDistinct(read, loaded, seen, listed[..n]);
      forall c | c in front
        ensures c.TaskRef? && c.id != id
      {
        PrunesAre(read, loaded, seen, listed[..n], c);
      }
      DistinctConcat(front, if id in read.tasks && id !in seen && id in loaded then [TaskRef(id, Get(read.tasks, id), None)] else []);
    }
  }

  lemma TransactionDistinct(read: Refs, w: Writer, queue: seq<Blob>, listed: seq<string>)
    requires Lists(listed, read) && DistinctTasks(queue)
    ensures DistinctRefs(Transaction(read, w, queue, listed))
  {
    var u, p := Updates(w.loaded, queue), Prunes(read, w.loaded, Seen(queue), listed);
    UpdatesDistinct(w.loaded, queue);
    PrunesDistinct(read, w.loaded, Seen(queue), listed);
    forall c | c in u ensures c.TaskRef? && c.id in Seen(queue) {
      UpdatesAre(w.loaded, queue, c);
    }
    forall c | c in p ensures c.TaskRef? && c.id !in Seen(queue) {
      PrunesAre(read, w.loaded, Seen(queue), listed, c);
    }
    DistinctConcat(u, p);
    DistinctConcat(u + p, MetaChange(read, w.envelope));
  }
}
