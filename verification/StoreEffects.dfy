/** What seals, pushes and fetches do to single refs, what a writer remembers to delete, and what becomes of the envelope. */
module StoreEffects {
  import opened Wrappers
  import opened StoreSteps
  import opened StoreSave
  import opened StoreRuns

  // ---- what is live ------------------------------------------------------------------------------------------

  /** The clone has a readable record for this id and no tombstone. */
  predicate Open(refs: Refs, id: string) {
    id in refs.tasks && refs.tasks[id].Json? && id !in refs.sealed
  }

  /** A load returns the open tasks and remembers exactly their blobs; of the refs it deletes those with a tombstone, and
      leaves the unreadable ones alone. */
  lemma LoadIs(w: Writer, refs: Refs, id: string)
    ensures Get(LoadedBy(w, refs).loaded, id) == if Open(refs, id) then Get(refs.tasks, id) else None
    ensures Get(Reaped(refs).tasks, id) == if id in refs.sealed then None else Get(refs.tasks, id)
    ensures Reaped(refs).sealed == refs.sealed && LoadedBy(w, refs).deleted == w.deleted
  {
  }

  /** An unreadable ref that a writer has not loaded is safe from its saves: it is neither overwritten nor pruned. */
  lemma UnreadableIsSpared(read: Refs, refs: Refs, w: Writer, queue: seq<Blob>, listed: seq<string>, id: string)
    requires Lists(listed, read) && id in refs.tasks && refs.tasks[id].Corrupt? && id !in w.loaded
    ensures Get(SaveRefs(read, refs, w, queue, listed).tasks, id) == Get(refs.tasks, id)
  {
    NoLostUpdate(read, refs, w, queue, listed, id);
  }

  // ---- sealing -----------------------------------------------------------------------------------------------

  /** A seal replaces the ref of an open task by a tombstone that holds the very record, and remembers the ref for the next push;
      for any other id it is a load and remembers nothing. */
  lemma SealIs(refs: Refs, w: Writer, id: string, other: string)
    ensures var (refs', w') := (SealRefs(refs, id), SealWriter(w, refs, id));
            if !Open(refs, id) then refs' == Reaped(refs) && w' == LoadedBy(w, refs)
            else
              && Get(refs'.tasks, id) == None && Get(refs'.sealed, id) == Get(refs.tasks, id)
              && (other != id ==> Get(refs'.tasks, other) == Get(Reaped(refs).tasks, other))
              && (other != id ==> Get(refs'.sealed, other) == Get(refs.sealed, other))
              && w'.deleted == w.deleted + {id} && Get(w'.loaded, id) == None
              && (other != id ==> Get(w'.loaded, other) == Get(LoadedBy(w, refs).loaded, other))
  {
    LoadIs(w, refs, id);
  }

  /** A complete push right after a seal takes the task ref off origin and leaves the tombstone with the record there. */
  lemma SealThenPush(origin: Refs, refs: Refs, w: Writer, id: string)
    requires id in Live(refs)
    ensures var after := Pushed(origin, SealRefs(refs, id), SealWriter(w, refs, id).deleted, Everything);
            id !in after.tasks && Get(after.sealed, id) == Get(refs.tasks, id)
  {
  }

  // ---- what is remembered ------------------------------------------------------------------------------------

  ghost predicate Remembers(net: Net, c: nat, k: nat, id: string) {
    c in net.clones && k in net.clones[c].writers && id in net.clones[c].writers[k].deleted
  }

  ghost predicate HasWriter(net: Net, c: nat, k: nat) { c in net.clones && k in net.clones[c].writers }

  /** The action makes this writer remember the task ref for the next push: it seals the task while it is open, or saves a queue
      that the loaded task has left. */
  ghost predicate Drops(net: Net, a: Action, c: nat, k: nat, id: string)
    requires HasWriter(net, c, k)
  {
    match a
    case SealAt(c', k', sealed) => c' == c && k' == k && sealed == id && Open(net.clones[c].refs, id)
    case SaveAt(c', k', read, queue, listed) =>
      c' == c && k' == k && Lists(listed, read) && Prunable(read, net.clones[c].writers[k].loaded, queue, id)
    case _ => false
  }

  lemma ActKeepsWriters(net: Net, a: Action, c: nat, k: nat)
    requires HasWriter(net, c, k)
    ensures HasWriter(Act(net, a), c, k)
  {
  }

  /** A task ref is remembered after an action exactly when it was before, or the action drops it, and the action is not a
      complete push by this writer. */
  lemma RemembersIff(net: Net, a: Action, c: nat, k: nat, id: string)
    requires HasWriter(net, c, k)
    ensures Remembers(Act(net, a), c, k, id) <==> a != PushAt(c, k, Everything) && (Remembers(net, c, k, id) || Drops(net, a, c, k, id))
  {
    match a
    case SaveAt(c', k', read, queue, listed) =>
      if c' == c && k' == k && Lists(listed, read) {
        PrunedAre(read, net.clones[c].writers[k], queue, listed, id);
      }
    case SealAt(c', k', sealed) =>
      if c' == c && k' == k { SealIs(net.clones[c].refs, net.clones[c].writers[k], sealed, id); }
    case _ =>
  }

  ghost predicate RemembersThroughout(net: Net, actions: seq<Action>, c: nat, k: nat, id: string)
    decreases |actions|
  {
    Remembers(net, c, k, id) && (actions == [] || RemembersThroughout(Act(net, actions[0]), actions[1..], c, k, id))
  }

  /** Whatever anybody does, a writer remembers a deletion at every moment of a run exactly when it makes no complete push. */
  lemma {:induction false} RemembersUntilPushed(net: Net, actions: seq<Action>, c: nat, k: nat, id: string)
    requires Remembers(net, c, k, id)
    ensures RemembersThroughout(net, actions, c, k, id) <==> PushAt(c, k, Everything) !in actions
    ensures PushAt(c, k, Everything) !in actions ==> Remembers(Run(net, actions), c, k, id)
    decreases |actions|
  {
    if actions != [] {
      RemembersIff(net, actions[0], c, k, id);
      assert actions == [actions[0]] + actions[1..];
      if actions[0] != PushAt(c, k, Everything) {
        RemembersUntilPushed(Act(net, actions[0]), actions[1..], c, k, id);
      }
    }
  }

  /** A sealed task leaves origin with the first complete push of the writer that sealed it, however late that comes and
      whatever anybody has pushed in between, and its tombstone is there then. */
  lemma SealedTaskLeavesOrigin(net: Net, c: nat, k: nat, id: string, between: seq<Action>)
    requires HasWriter(net, c, k) && Open(net.clones[c].refs, id) && PushAt(c, k, Everything) !in between
    ensures var after := Act(Run(Act(net, SealAt(c, k, id)), between), PushAt(c, k, Everything));
            id !in after.origin.tasks && id in after.origin.sealed
  {
    var sealed := Act(net, SealAt(c, k, id));
    RemembersIff(net, SealAt(c, k, id), c, k, id);
    SealIs(net.clones[c].refs, net.clones[c].writers[k], id, id);
    RemembersUntilPushed(sealed, between, c, k, id);
    RunKeepsTombstones(sealed, between);
  }

  // ---- fetching and pushing ----------------------------------------------------------------------------------

  function Either<T>(first: Option<T>, second: Option<T>): Option<T> { if first.Some? then first else second }

  /** A fetch takes what origin has and keeps the rest. */
  lemma FetchIs(refs: Refs, origin: Refs, id: string)
    ensures var after := Fetched(refs, origin);
            && Get(after.tasks, id) == Either(Get(origin.tasks, id), Get(refs.tasks, id))
            && Get(after.sealed, id) == Either(Get(origin.sealed, id), Get(refs.sealed, id))
            && after.meta == Either(origin.meta, refs.meta)
  {
  }

  /** A push that gets anywhere makes origin take what the clone has and keep the rest; a complete one then deletes exactly the
      task refs that are remembered. */
  lemma PushIs(origin: Refs, refs: Refs, deleted: set<string>, reach: Reach, id: string)
    ensures var after := Pushed(origin, refs, deleted, reach);
            if reach == Nothing then after == origin
            else
              && Get(after.tasks, id) == (if reach == Everything && id in deleted then None else Either(Get(refs.tasks, id), Get(origin.tasks, id)))
              && Get(after.sealed, id) == Either(Get(refs.sealed, id), Get(origin.sealed, id))
              && after.meta == Either(refs.meta, origin.meta)
  {
    FetchIs(origin, refs, id);
  }

  // ---- the envelope ------------------------------------------------------------------------------------------

  const VERSION_KEY := "schema_version"
  const HASH_KEYS: set<string> := {"content_hash", "prev_content_hash"}

  /** The current schema version, no tamper-evidence keys, and for the rest whatever `was` has. */
  ghost predicate Current(now: Meta, was: Meta) {
    && Get(now, VERSION_KEY) == Some("1") && HASH_KEYS !! now.Keys
    && forall key: string :: key != VERSION_KEY && key !in HASH_KEYS ==> Get(now, key) == Get(was, key)
  }

  lemma StampIsCurrent(envelope: Meta)
    ensures Current(Stamped(envelope), envelope)
  {
  }

  /** What a load makes of the stored envelope: all of it but the legacy epic. */
  lemma LoadedEnvelope(w: Writer, refs: Refs, key: string)
    ensures Get(LoadedBy(w, refs).envelope, key) ==
            if key == "epic" || refs.meta.None? then None else Get(refs.meta.value, key)
  {
  }

  lemma {:induction false} InstalledMeta(refs: Refs, txn: seq<Change>, tail: seq<Change>)
    requires forall c :: c in txn ==> !c.MetaRef?
    requires tail == [] || (|tail| == 1 && tail[0].MetaRef?)
    ensures InstallAll(refs, txn + tail).meta == if tail == [] then refs.meta else tail[0].now
    decreases |txn|, |tail|
  {
    if tail != [] {
      assert (txn + tail)[..|txn|] == txn;
    } else if txn != [] {
      assert txn + tail == txn;
      InstalledMeta(refs, txn[..|txn| - 1], []);
      assert txn[..|txn| - 1] + [] == txn[..|txn| - 1];
    } else {
      assert txn + tail == [];
    }
  }

  /** A save that goes through leaves this writer's envelope, brought up to date, or the one it met when the one it read was up
      to date already; the writer's own copy is up to date either way. */
  lemma SavedEnvelope(read: Refs, refs: Refs, w: Writer, queue: seq<Blob>, listed: seq<string>)
    requires Lists(listed, read)
    ensures var (refs', w') := (SaveRefs(read, refs, w, queue, listed), SaveWriter(read, refs, w, queue, listed));
            && Current(w'.envelope, w.envelope)
            && (Accepted(refs, Transaction(read, w, queue, listed)) ==>
                  refs'.meta == if read.meta == Some(w'.envelope) then refs.meta else Some(w'.envelope))
  {
    StampIsCurrent(w.envelope);
    var front := Updates(w.loaded, queue) + Prunes(read, w.loaded, Seen(queue), listed);
    forall c | c in front ensures !c.MetaRef? {
      UpdatesAre(w.loaded, queue, c);
      PrunesAre(read, w.loaded, Seen(queue), listed, c);
    }
    InstalledMeta(refs, front, MetaChange(read, w.envelope));
  }

  /** A seal of an open task brings the stored envelope up to date, and the writer has the same. */
  lemma SealedEnvelope(refs: Refs, w: Writer, id: string)
    requires Open(refs, id)
    ensures var (refs', w') := (SealRefs(refs, id), SealWriter(w, refs, id));
            refs'.meta == Some(w'.envelope) && Current(w'.envelope, LoadedBy(w, refs).envelope)
  {
    StampIsCurrent(MetaOf(refs));
  }

  /** Load, save, load again: nothing of the envelope is lost but the legacy epic and the hashes. */
  lemma EnvelopeRoundTrip(refs: Refs, w: Writer, queue: seq<Blob>, listed: seq<string>, key: string)
    requires Lists(listed, refs) && refs.meta.Some?
    requires Accepted(refs, Transaction(refs, LoadedBy(w, refs), queue, listed))
    requires key != VERSION_KEY && key !in HASH_KEYS && key != "epic"
    ensures var v := LoadedBy(w, refs);
            var (refs', v') := (SaveRefs(refs, refs, v, queue, listed), SaveWriter(refs, refs, v, queue, listed));
            Get(LoadedBy(v', refs').envelope, key) == Get(refs.meta.value, key)
  {
    var v := LoadedBy(w, refs);
    LoadedEnvelope(w, refs, key);
    SavedEnvelope(refs, refs, v, queue, listed);
    LoadedEnvelope(SaveWriter(refs, refs, v, queue, listed), SaveRefs(refs, refs, v, queue, listed), key);
  }
}
