/** The backend as the program runs it: an object with a cache, on a repository whose refs it updates in place. */
module StoreMachine {
  import opened Wrappers
  import opened StoreSteps
  import opened StoreSave
  import StoreRuns

  /** The refs of one clone, or of origin. */
  class Repository {
    var tasks: map<string, Blob>
    var sealed: map<string, Blob>
    var meta: Option<Meta>

    constructor ()
      ensures View() == Refs(map[], map[], None)
    {
      tasks, sealed, meta := map[], map[], None;
    }

    ghost function View(): Refs
      reads this
    {
      Refs(tasks, sealed, meta)
    }

    /** `for-each-ref`: every task ref once. */
    method ListTaskRefs() returns (listed: seq<string>)
      ensures Lists(listed, View())
    {
      listed := [];
      var left := tasks.Keys;
      while left != {}
        invariant forall id :: id in tasks <==> id in listed || id in left
        invariant forall id :: id in listed ==> id !in left
        invariant forall i, j :: 0 <= i < j < |listed| ==> listed[i] != listed[j]
        decreases left
      {
        var id :| id in left;
        left := left - {id};
        listed := listed + [id];
      }
    }

    predicate Expected(c: Change)
      reads this
      ensures Expected(c) <==> Expects(View(), c)
    {
      match c
      case TaskRef(id, expected, _) => Get(tasks, id) == expected
      case SealedRef(id, expected, _) => Get(sealed, id) == expected
      case MetaRef(was, _) => meta == was
    }

    /** `update-ref --stdin`: check every line, then apply every line. */
    method UpdateRefs(txn: seq<Change>) returns (ok: bool)
      modifies this
      ensures ok == Accepted(old(View()), txn)
      ensures View() == if ok then InstallAll(old(View()), txn) else old(View())
    {
      for i := 0 to |txn|
        invariant forall a :: 0 <= a < i ==> Expected(txn[a])
        invariant forall a, b :: 0 <= a < b < i ==> !SameRef(txn[a], txn[b])
      {
        if !Expected(txn[i]) {
          return false;
        }
        for j := 0 to i
          invariant forall a :: 0 <= a < j ==> !SameRef(txn[a], txn[i])
        {
          if SameRef(txn[j], txn[i]) {
            return false;
          }
        }
      }
      for i := 0 to |txn|
        invariant View() == InstallAll(old(View()), txn[..i])
      {
        assert txn[..i + 1][..i] == txn[..i];
        match txn[i] {
          case TaskRef(id, _, next) => tasks := Put(tasks, id, next);
          case SealedRef(id, _, next) => sealed := Put(sealed, id, next);
          case MetaRef(_, now) => meta := now;
        }
      }
      assert txn[..|txn|] == txn;
      ok := true;
    }
  }

  /** `queue` lists the values of `live`, each once. */
  ghost predicate Enumerates(queue: seq<Blob>, live: map<string, Blob>) {
    && DistinctTasks(queue)
    && (forall t :: t in queue ==> t.Json? && t.id in live && live[t.id] == t)
    && (forall id :: id in live ==> live[id] in queue)
  }

  class GitRefsBackend {
    const repo: Repository
    var loaded: map<string, Blob>
    var envelope: Meta
    var deleted: set<string>

    ghost function View(): Writer
      reads this
    {
      Writer(loaded, envelope, deleted)
    }

    constructor (repo: Repository)
      ensures this.repo == repo && View() == Writer(map[], map[], {})
    {
      this.repo := repo;
      loaded, envelope, deleted := map[], map[], {};
    }

    /** The live tasks; a task with a tombstone is reaped on the way, an unreadable one is passed over. */
    method Load() returns (queue: seq<Blob>)
      modifies this, repo
      ensures repo.View() == Reaped(old(repo.View())) && View() == LoadedBy(old(View()), old(repo.View()))
      ensures StoreRuns.Clean(old(repo.View())) ==> Enumerates(queue, Live(old(repo.View())))
    {
      ghost var refs := repo.View();
      queue := [];
      var listed := repo.ListTaskRefs();
      var shas: map<string, Blob> := map[];
      for i := 0 to |listed|
        invariant repo.sealed == refs.sealed && repo.meta == refs.meta && envelope == old(envelope) && deleted == old(deleted)
        invariant repo.tasks == refs.tasks - ReapedOf(refs, listed[..i])
        invariant shas == LiveOf(refs, listed[..i])
        invariant StoreRuns.Clean(refs) ==> Enumerates(queue, shas)
      {
        var id := listed[i];
        OneMore(refs, listed, i);
        var blob := repo.tasks[id];
        if id in repo.sealed {
          MinusTwice(refs.tasks, ReapedOf(refs, listed[..i]), id);
          repo.tasks := repo.tasks - {id};
          loaded := loaded - {id};
        } else if blob.Json? {
          EnumerateOneMore(refs, queue, shas, id);
          queue := queue + [blob];
          shas := shas[id := blob];
        }
      }
      assert listed[..|listed|] == listed;
      AllListed(refs, listed);
      loaded := shas;
      envelope := (if repo.meta.Some? then repo.meta.value else map[]) - {"epic"};
    }

    /** The update lines of a save, and the ids in its queue. */
    method BuildUpdates(queue: seq<Blob>) returns (updates: seq<Change>, seen: set<string>)
      ensures updates == Updates(loaded, queue) && seen == Seen(queue)
    {
      updates, seen := [], {};
      for i := 0 to |queue|
        invariant updates == Updates(loaded, queue[..i]) && seen == Seen(queue[..i])
      {
        assert queue[..i + 1][..i] == queue[..i] && queue[..i + 1] == queue[..i] + [queue[i]];
        var t := queue[i];
        if t.Json? && t.id != "" {
          seen := seen + {t.id};
          if Get(loaded, t.id) != Some(t) {
            updates := updates + [TaskRef(t.id, Get(loaded, t.id), Some(t))];
          }
        }
      }
      assert queue[..|queue|] == queue;
    }

    /** The prune lines of a save; each pruned ref is remembered for the next push here and now. */
    method BuildPrunes(seen: set<string>, listed: seq<string>) returns (prunes: seq<Change>)
      modifies this`deleted
      ensures prunes == Prunes(repo.View(), loaded, seen, listed) && deleted == old(deleted) + Pruned(prunes)
    {
      prunes := [];
      for i := 0 to |listed|
        invariant prunes == Prunes(repo.View(), loaded, seen, listed[..i]) && deleted == old(deleted) + Pruned(prunes)
      {
        assert listed[..i + 1][..i] == listed[..i];
        var id := listed[i];
        if id !in seen && id in loaded && id in repo.tasks {
          var line := TaskRef(id, Some(repo.tasks[id]), None);
          assert Pruned(prunes + [line]) == Pruned(prunes) + {id} by {
            assert line in prunes + [line];
          }
          prunes := prunes + [line];
          deleted := deleted + {id};
        }
      }
      assert listed[..|listed|] == listed;
    }

    /** Persist the queue in one transaction; `ok` is false when git refuses it, and then no ref has moved. */
    method Save(queue: seq<Blob>, wrapper: Meta) returns (ok: bool, ghost listed: seq<string>)
      modifies this, repo
      ensures var w := old(View()).(envelope := old(envelope) + wrapper);
              var refs := old(repo.View());
              && Lists(listed, refs) && ok == Accepted(refs, Transaction(refs, w, queue, listed))
              && repo.View() == SaveRefs(refs, refs, w, queue, listed)
              && View() == SaveWriter(refs, refs, w, queue, listed)
    {
      envelope := envelope + wrapper;
      ghost var w, refs := View(), repo.View();
      var updates, seen := BuildUpdates(queue);
      var names := repo.ListTaskRefs();
      listed := names;
      var prunes := BuildPrunes(seen, names);
      updates := updates + prunes;
      envelope := envelope["schema_version" := "1"] - {"content_hash", "prev_content_hash"};
      if repo.meta != Some(envelope) {
        updates := updates + [MetaRef(repo.meta, Some(envelope))];
      }
      PrunedOf(refs, w, queue, names);
      assert updates == Transaction(refs, w, queue, names);
      ok := repo.UpdateRefs(updates);
      if ok {
        Refresh(updates);
      }
    }

    /** Bring the cache up to date with a transaction that went through. */
    method Refresh(updates: seq<Change>)
      modifies this`loaded
      ensures loaded == Cached(old(loaded), updates)
    {
      for i := 0 to |updates|
        invariant loaded == Cached(old(loaded), updates[..i])
      {
        assert updates[..i + 1][..i] == updates[..i];
        var c := updates[i];
        if c.TaskRef? {
          loaded := Put(loaded, c.id, c.next);
        }
      }
      assert updates[..|updates|] == updates;
    }

    /** Replace the task's ref by its tombstone. */
    method Seal(id: string) returns (found: bool)
      modifies this, repo
      ensures found == (id in Live(old(repo.View())))
      ensures repo.View() == SealRefs(old(repo.View()), id) && View() == SealWriter(old(View()), old(repo.View()), id)
    {
      var queue := Load();
      found := id in loaded;
      if !found {
        return;
      }
      var task := loaded[id];
      var txn := [TaskRef(id, Get(repo.tasks, id), None), SealedRef(id, Get(repo.sealed, id), Some(task))];
      ghost var before := repo.View();
      var ok := repo.UpdateRefs(txn);
      InstallTwo(before, txn[0], txn[1]);
      loaded := loaded - {id};
      deleted := deleted + {id};
      envelope := envelope["schema_version" := "1"] - {"content_hash", "prev_content_hash"};
      repo.meta := Some(envelope);
    }

    method DeleteTaskRef(id: string) returns (existed: bool)
      modifies this`loaded, repo
      ensures existed == (id in old(repo.tasks))
      ensures repo.View() == old(repo.View()).(tasks := old(repo.tasks) - {id})
      ensures View() == if existed then old(View()).(loaded := old(loaded) - {id}) else old(View())
    {
      existed := id in repo.tasks;
      if existed {
        repo.tasks := repo.tasks - {id};
        loaded := loaded - {id};
      }
    }

    method Fetch(origin: Repository)
      modifies repo
      ensures repo.View() == Fetched(old(repo.View()), old(origin.View()))
    {
      repo.tasks := repo.tasks + origin.tasks;
      repo.sealed := repo.sealed + origin.sealed;
      if origin.meta.Some? {
        repo.meta := origin.meta;
      }
    }

    /** Push the updates, then the deletions remembered since the last complete push. */
    method Push(origin: Repository, reach: Reach) returns (ok: bool)
      requires origin != repo
      modifies this`deleted, origin
      ensures origin.View() == Pushed(old(origin.View()), old(repo.View()), old(deleted), if ok then Everything else reach)
      ensures View() == if ok then PushWriter(old(View()), Everything) else old(View())
      ensures ok <==> reach == Everything || (reach == UpdatesOnly && old(deleted) == {})
    {
      if reach == Nothing {
        return false;
      }
      origin.tasks := origin.tasks + repo.tasks;
      origin.sealed := origin.sealed + repo.sealed;
      if repo.meta.Some? {
        origin.meta := repo.meta;
      }
      if deleted != {} {
        if reach == UpdatesOnly {
          return false;
        }
        origin.tasks := origin.tasks - deleted;
        deleted := {};
      }
      ok := true;
    }
  }

  lemma MinusTwice<K, V>(m: map<K, V>, s: set<K>, k: K)
    ensures m - s - {k} == m - (s + {k})
  {
  }

  function ReapedOf(refs: Refs, listed: seq<string>): set<string> {
    set id | id in listed && id in refs.sealed
  }

  function LiveOf(refs: Refs, listed: seq<string>): map<string, Blob>
    requires forall id :: id in listed ==> id in refs.tasks
  {
    map id | id in listed && id !in refs.sealed && refs.tasks[id].Json? :: refs.tasks[id]
  }

  lemma OneMore(refs: Refs, listed: seq<string>, i: nat)
    requires Lists(listed, refs) && i < |listed|
    ensures var id := listed[i];
            && id !in listed[..i] && id in refs.tasks && id !in ReapedOf(refs, listed[..i]) && id !in LiveOf(refs, listed[..i])
            && ReapedOf(refs, listed[..i + 1]) == (if id in refs.sealed then ReapedOf(refs, listed[..i]) + {id} else ReapedOf(refs, listed[..i]))
            && LiveOf(refs, listed[..i + 1]) ==
                 if id !in refs.sealed && refs.tasks[id].Json? then LiveOf(refs, listed[..i])[id := refs.tasks[id]]
                 else LiveOf(refs, listed[..i])
  {
    assert listed[..i + 1] == listed[..i] + [listed[i]];
  }

  lemma AllListed(refs: Refs, listed: seq<string>)
    requires Lists(listed, refs)
    ensures refs.tasks - ReapedOf(refs, listed) == refs.tasks - refs.sealed.Keys && LiveOf(refs, listed) == Live(refs)
  {
  }

  lemma EnumerateOneMore(refs: Refs, queue: seq<Blob>, shas: map<string, Blob>, id: string)
    requires id in refs.tasks && refs.tasks[id].Json? && id !in shas
    ensures StoreRuns.Clean(refs) && Enumerates(queue, shas) ==>
              Enumerates(queue + [refs.tasks[id]], shas[id := refs.tasks[id]])
  {
  }

  lemma InstallTwo(refs: Refs, a: Change, b: Change)
    ensures InstallAll(refs, [a, b]) == Install(Install(refs, a), b)
  {
    assert [a, b][..1] == [a] && [a][..0] == [];
    assert InstallAll(refs, [a]) == Install(refs, a);
  }

  lemma PrunedOf(refs: Refs, w: Writer, queue: seq<Blob>, listed: seq<string>)
    requires Lists(listed, refs)
    ensures Pruned(Transaction(refs, w, queue, listed)) == Pruned(Prunes(refs, w.loaded, Seen(queue), listed))
  {
    var u := Updates(w.loaded, queue);
    forall c | c in u ensures c.TaskRef? && c.next.Some? {
      UpdatesAre(w.loaded, queue, c);
    }
  }
}
