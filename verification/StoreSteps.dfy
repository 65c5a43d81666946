/**
 The git-refs task store: every live task is a blob addressed by a ref, a settled task is a tombstone ref, and a save is
 one compare-and-swap transaction over many refs.

 A blob id is the hash of the blob's canonical bytes, so a ref is modelled by the blob itself and "same id" by equality.
 */
module StoreSteps {
  import opened Wrappers

  /** What a task ref or a tombstone can point to: a task record, or bytes that do not parse as one. */
  datatype Blob = Json(id: string, body: nat) | Corrupt(raw: nat)

  type Meta = map<string, string>

  /** The refs of one clone (or of origin) under `refs/aet/`: tasks, tombstones and the queue envelope. */
  datatype Refs = Refs(tasks: map<string, Blob>, sealed: map<string, Blob>, meta: Option<Meta>)

  /** One backend instance: the blobs it saw last, its copy of the envelope, and the refs to delete at the next push. */
  datatype Writer = Writer(loaded: map<string, Blob>, envelope: Meta, deleted: set<string>)

  function Get<K, V>(m: map<K, V>, k: K): Option<V> { if k in m then Some(m[k]) else None }

  function Put<K(!new), V>(m: map<K, V>, k: K, v: Option<V>): (m': map<K, V>)
    ensures Get(m', k) == v && forall j :: j != k ==> Get(m', j) == Get(m, j)
  {
    match v
    case None => m - {k}
    case Some(x) => m[k := x]
  }

  // ---- transactions ------------------------------------------------------------------------------------------

  /** One line of `git update-ref --stdin`: move a ref from its expected value to a new one. */
  datatype Change =
    | TaskRef(id: string, expected: Option<Blob>, next: Option<Blob>)
    | SealedRef(id: string, expected: Option<Blob>, next: Option<Blob>)
    | MetaRef(was: Option<Meta>, now: Option<Meta>)

  predicate SameRef(a: Change, b: Change) {
    match a
    case TaskRef(id, _, _) => b.TaskRef? && b.id == id
    case SealedRef(id, _, _) => b.SealedRef? && b.id == id
    case MetaRef(_, _) => b.MetaRef?
  }

  predicate Expects(refs: Refs, c: Change) {
    match c
    case TaskRef(id, expected, _) => Get(refs.tasks, id) == expected
    case SealedRef(id, expected, _) => Get(refs.sealed, id) == expected
    case MetaRef(was, _) => refs.meta == was
  }

  function Install(refs: Refs, c: Change): Refs {
    match c
    case TaskRef(id, _, next) => refs.(tasks := Put(refs.tasks, id, next))
    case SealedRef(id, _, next) => refs.(sealed := Put(refs.sealed, id, next))
    case MetaRef(_, now) => refs.(meta := now)
  }

  function InstallAll(refs: Refs, txn: seq<Change>): Refs {
    if txn == [] then refs else Install(InstallAll(refs, txn[..|txn| - 1]), txn[|txn| - 1])
  }

  /** git takes a transaction when no ref occurs twice and every ref has its expected value. */
  predicate Accepted(refs: Refs, txn: seq<Change>) {
    && (forall i, j :: 0 <= i < j < |txn| ==> !SameRef(txn[i], txn[j]))
    && (forall i :: 0 <= i < |txn| ==> Expects(refs, txn[i]))
  }

  // ---- load --------------------------------------------------------------------------------------------------

  /** The task refs that a load returns: readable and without a tombstone. */
  function Live(refs: Refs): map<string, Blob> {
    map id | id in refs.tasks && id !in refs.sealed && refs.tasks[id].Json? :: refs.tasks[id]
  }

  /** A load reaps the task refs that have a tombstone. */
  function Reaped(refs: Refs): Refs {
    refs.(tasks := refs.tasks - refs.sealed.Keys)
  }

  function MetaOf(refs: Refs): Meta {
    (if refs.meta.Some? then refs.meta.value else map[]) - {"epic"}
  }

  function LoadedBy(w: Writer, refs: Refs): Writer {
    w.(loaded := Live(refs), envelope := MetaOf(refs))
  }

  // ---- save --------------------------------------------------------------------------------------------------

  function Seen(queue: seq<Blob>): set<string> {
    set t | t in queue && t.Json? && t.id != "" :: t.id
  }

  /** The changed tasks of the queue, each against the blob this writer saw. */
  function Updates(loaded: map<string, Blob>, queue: seq<Blob>): seq<Change> {
    if queue == [] then []
    else
      var t := queue[|queue| - 1];
      Updates(loaded, queue[..|queue| - 1]) +
      (if t.Corrupt? || t.id == "" || Get(loaded, t.id) == Some(t) then []
       else [TaskRef(t.id, Get(loaded, t.id), Some(t))])
  }

  /** The refs to prune, in the order `listed`: loaded by this writer and not in the queue.  They are swapped against
      their current value, not against the one that was loaded. */
  function Prunes(refs: Refs, loaded: map<string, Blob>, seen: set<string>, listed: seq<string>): seq<Change> {
    if listed == [] then []
    else
      var id := listed[|listed| - 1];
      Prunes(refs, loaded, seen, listed[..|listed| - 1]) +
      (if id in refs.tasks && id !in seen && id in loaded then [TaskRef(id, Get(refs.tasks, id), None)] else [])
  }

  function Stamped(envelope: Meta): Meta {
    envelope["schema_version" := "1"] - {"content_hash", "prev_content_hash"}
  }

  function MetaChange(refs: Refs, envelope: Meta): seq<Change> {
    if refs.meta == Some(Stamped(envelope)) then [] else [MetaRef(refs.meta, Some(Stamped(envelope)))]
  }

  /** The transaction a save submits, computed from the refs it reads. */
  function Transaction(refs: Refs, w: Writer, queue: seq<Blob>, listed: seq<string>): seq<Change> {
    Updates(w.loaded, queue) + Prunes(refs, w.loaded, Seen(queue), listed) + MetaChange(refs, w.envelope)
  }

  /** The ids a transaction prunes; a save remembers them for the next push before it submits the transaction. */
  function Pruned(txn: seq<Change>): set<string> {
    set c | c in txn && c.TaskRef? && c.next.None? :: c.id
  }

  function Cached(loaded: map<string, Blob>, txn: seq<Change>): map<string, Blob> {
    if txn == [] then loaded
    else
      var c := txn[|txn| - 1];
      var before := Cached(loaded, txn[..|txn| - 1]);
      if c.TaskRef? then Put(before, c.id, c.next) else before
  }

  /** A save in two moments: `read` is what it saw when it built the transaction, `refs` what the transaction met. */
  function SaveRefs(read: Refs, refs: Refs, w: Writer, queue: seq<Blob>, listed: seq<string>): Refs {
    var txn := Transaction(read, w, queue, listed);
    if Accepted(refs, txn) then InstallAll(refs, txn) else refs
  }

  function SaveWriter(read: Refs, refs: Refs, w: Writer, queue: seq<Blob>, listed: seq<string>): Writer {
    var txn := Transaction(read, w, queue, listed);
    var w' := w.(envelope := Stamped(w.envelope), deleted := w.deleted + Pruned(txn));
    if Accepted(refs, txn) then w'.(loaded := Cached(w.loaded, txn)) else w'
  }

  /** `listed` is an enumeration of the task refs. */
  ghost predicate Lists(listed: seq<string>, refs: Refs) {
    && (forall id :: id in listed <==> id in refs.tasks)
    && (forall i, j :: 0 <= i < j < |listed| ==> listed[i] != listed[j])
  }

  // ---- seal, delete, fetch, push -----------------------------------------------------------------------------

  /** A seal reloads, then deletes the task ref and writes the tombstone in one transaction. */
  function SealRefs(refs: Refs, id: string): Refs {
    var r := Reaped(refs);
    if id !in Live(refs) then r
    else r.(tasks := r.tasks - {id}, sealed := r.sealed[id := r.tasks[id]], meta := Some(Stamped(MetaOf(refs))))
  }

  function SealWriter(w: Writer, refs: Refs, id: string): Writer {
    var w' := LoadedBy(w, refs);
    if id !in Live(refs) then w'
    else w'.(loaded := w'.loaded - {id}, deleted := w'.deleted + {id}, envelope := Stamped(w'.envelope))
  }

  /** A forced fetch overwrites local refs and deletes none. */
  function Fetched(refs: Refs, origin: Refs): Refs {
    Refs(refs.tasks + origin.tasks, refs.sealed + origin.sealed, if origin.meta.Some? then origin.meta else refs.meta)
  }

  /** How far a push gets: nowhere, to the updates, or to the explicit deletions as well. */
  datatype Reach = Nothing | UpdatesOnly | Everything

  function Pushed(origin: Refs, refs: Refs, deleted: set<string>, reach: Reach): Refs {
    if reach == Nothing then origin
    else
      var updated := Fetched(origin, refs);
      if reach == UpdatesOnly then updated
      else updated.(tasks := updated.tasks - deleted)
  }

  function PushWriter(w: Writer, reach: Reach): Writer {
    if reach == Everything then w.(deleted := {}) else w
  }
}
