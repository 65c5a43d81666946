/** Whole histories of the task store: writers side by side, one writer against a plain map, and clones around origin. */
module StoreRuns {
  import opened Wrappers
  import opened StoreSteps
  import opened StoreSave

  lemma SameMap(m: map<string, Blob>, m': map<string, Blob>)
    requires forall id: string :: Get(m, id) == Get(m', id)
    ensures m == m'
  {
    forall id: string ensures id in m <==> id in m' {
      assert Get(m, id) == Get(m', id);
    }
    forall id | id in m ensures m[id] == m'[id] {
      assert Get(m, id) == Get(m', id);
    }
  }

  // ---- writers side by side ----------------------------------------------------------------------------------

  /** Where each ref stands after a save that went through. */
  lemma SaveEffect(read: Refs, refs: Refs, w: Writer, queue: seq<Blob>, listed: seq<string>, id: string)
    requires Lists(listed, read) && DistinctTasks(queue) && Accepted(refs, Transaction(read, w, queue, listed))
    ensures var now := Get(SaveRefs(read, refs, w, queue, listed).tasks, id);
            && (forall t :: t in queue && Changes(w.loaded, t) && t.id == id ==> now == Some(t))
            && (Prunable(read, w.loaded, queue, id) ==> now == None)
            && (!Prunable(read, w.loaded, queue, id) && !(exists t :: t in queue && Changes(w.loaded, t) && t.id == id) ==>
                  now == Get(refs.tasks, id))
  {
    var txn := Transaction(read, w, queue, listed);
    InstallEffect(refs, txn, id);
    forall t | t in queue && Changes(w.loaded, t) && t.id == id
      ensures TaskRef(t.id, Get(w.loaded, t.id), Some(t)) in txn
    {
      TransactionIs(read, w, queue, listed, TaskRef(t.id, Get(w.loaded, t.id), Some(t)));
    }
    if Prunable(read, w.loaded, queue, id) {
      TransactionIs(read, w, queue, listed, TaskRef(id, Get(read.tasks, id), None));
    }
    if Touches(txn, id) {
      var c :| c in txn && c.TaskRef? && c.id == id;
      TransactionIs(read, w, queue, listed, c);
    }
  }

  /** A save that only writes changed tasks: it prunes nothing and the envelope is current. */
  ghost predicate WritesOnly(read: Refs, w: Writer, queue: seq<Blob>) {
    && DistinctTasks(queue)
    && read.meta == Some(Stamped(w.envelope))
    && (forall id :: !Prunable(read, w.loaded, queue, id))
    && (forall t :: t in queue && Changes(w.loaded, t) ==> Get(read.tasks, t.id) == Get(w.loaded, t.id))
  }

  ghost predicate ChangesId(w: Writer, queue: seq<Blob>, id: string) {
    exists t :: t in queue && Changes(w.loaded, t) && t.id == id
  }

  /** Two writers that read the same refs and change different tasks both succeed, in either order, with the same result. */
  lemma DisjointSavesCommute(read: Refs, v: Writer, vq: seq<Blob>, vl: seq<string>, w: Writer, wq: seq<Blob>, wl: seq<string>)
    requires Lists(vl, read) && Lists(wl, read) && WritesOnly(read, v, vq) && WritesOnly(read, w, wq)
    requires forall id :: !(ChangesId(v, vq, id) && ChangesId(w, wq, id))
    ensures var vw := SaveRefs(read, SaveRefs(read, read, v, vq, vl), w, wq, wl);
            var wv := SaveRefs(read, SaveRefs(read, read, w, wq, wl), v, vq, vl);
            && vw == wv
            && (forall t :: t in vq && Changes(v.loaded, t) ==> Get(vw.tasks, t.id) == Some(t))
            && (forall t :: t in wq && Changes(w.loaded, t) ==> Get(vw.tasks, t.id) == Some(t))
  {
    SecondSave(read, v, vq, vl, w, wq, wl);
    SecondSave(read, w, wq, wl, v, vq, vl);
    var vw := SaveRefs(read, SaveRefs(read, read, v, vq, vl), w, wq, wl);
    var wv := SaveRefs(read, SaveRefs(read, read, w, wq, wl), v, vq, vl);
    forall id: string
      ensures Get(vw.tasks, id) == Get(wv.tasks, id)
    {
      if ChangesId(v, vq, id) {
        var t :| t in vq && Changes(v.loaded, t) && t.id == id;
      } else if ChangesId(w, wq, id) {
        var t :| t in wq && Changes(w.loaded, t) && t.id == id;
      }
    }
    SameMap(vw.tasks, wv.tasks);
  }

  /** The second of two such saves: it goes through, and both sets of changes stand. */
  lemma SecondSave(read: Refs, v: Writer, vq: seq<Blob>, vl: seq<string>, w: Writer, wq: seq<Blob>, wl: seq<string>)
    requires Lists(vl, read) && Lists(wl, read) && WritesOnly(read, v, vq) && WritesOnly(read, w, wq)
    requires forall id :: !(ChangesId(v, vq, id) && ChangesId(w, wq, id))
    ensures var first := SaveRefs(read, read, v, vq, vl);
            var second := SaveRefs(read, first, w, wq, wl);
            && second.sealed == read.sealed && second.meta == read.meta
            && (forall t :: t in vq && Changes(v.loaded, t) ==> Get(second.tasks, t.id) == Some(t))
            && (forall t :: t in wq && Changes(w.loaded, t) ==> Get(second.tasks, t.id) == Some(t))
            && (forall id :: !ChangesId(v, vq, id) && !ChangesId(w, wq, id) ==> Get(second.tasks, id) == Get(read.tasks, id))
  {
    var first := SaveRefs(read, read, v, vq, vl);
    SaveAcceptedIff(read, read, v, vq, vl);
    MetaUntouched(read, read, v, vq, vl);
    forall id: string
      ensures ChangesId(v, vq, id) ==> forall t :: t in vq && Changes(v.loaded, t) && t.id == id ==> Get(first.tasks, id) == Some(t)
      ensures !ChangesId(v, vq, id) ==> Get(first.tasks, id) == Get(read.tasks, id)
    {
      SaveEffect(read, read, v, vq, vl, id);
    }
    forall t | t in wq && Changes(w.loaded, t)
      ensures Get(first.tasks, t.id) == Get(w.loaded, t.id)
    {
      assert ChangesId(w, wq, t.id);
    }
    SaveAcceptedIff(read, first, w, wq, wl);
    MetaUntouched(read, first, w, wq, wl);
    forall id: string
      ensures ChangesId(w, wq, id) ==> forall t :: t in wq && Changes(w.loaded, t) && t.id == id ==>
                Get(SaveRefs(read, first, w, wq, wl).tasks, id) == Some(t)
      ensures !ChangesId(w, wq, id) ==> Get(SaveRefs(read, first, w, wq, wl).tasks, id) == Get(first.tasks, id)
    {
      SaveEffect(read, first, w, wq, wl, id);
    }
    forall t | t in vq && Changes(v.loaded, t)
      ensures ChangesId(v, vq, t.id)
    {
    }
  }

  lemma {:induction false} InstallKeepsMeta(refs: Refs, txn: seq<Change>)
    requires forall c :: c in txn ==> c.TaskRef?
    ensures InstallAll(refs, txn).meta == refs.meta && InstallAll(refs, txn).sealed == refs.sealed
  {
    if txn != [] {
      InstallKeepsMeta(refs, txn[..|txn| - 1]);
    }
  }

  lemma MetaUntouched(read: Refs, refs: Refs, w: Writer, queue: seq<Blob>, listed: seq<string>)
    requires Lists(listed, read) && read.meta == Some(Stamped(w.envelope))
    ensures SaveRefs(read, refs, w, queue, listed).meta == refs.meta
    ensures SaveRefs(read, refs, w, queue, listed).sealed == refs.sealed
  {
    var txn := Transaction(read, w, queue, listed);
    forall c | c in txn ensures c.TaskRef? {
      TransactionIs(read, w, queue, listed, c);
    }
    InstallKeepsMeta(refs, txn);
  }

  // ---- one writer --------------------------------------------------------------------------------------------

  /** Every task ref holds a readable record under its own id. */
  ghost predicate Clean(refs: Refs) {
    forall id :: id in refs.tasks ==> refs.tasks[id].Json? && refs.tasks[id].id == id && id != ""
  }

  /** The cache of a lone writer is the store. */
  ghost predicate InSync(refs: Refs, w: Writer) {
    Clean(refs) && w.loaded == refs.tasks
  }

  /** What writing every record of the queue, and nothing else, would leave. */
  function Rewritten(queue: seq<Blob>): map<string, Blob> {
    if queue == [] then map[]
    else
      var t := queue[|queue| - 1];
      var m := Rewritten(queue[..|queue| - 1]);
      if t.Json? && t.id != "" then m[t.id := t] else m
  }

  lemma {:induction false} RewrittenIs(queue: seq<Blob>, id: string)
    requires DistinctTasks(queue)
    ensures id in Rewritten(queue) <==> id in Seen(queue)
    ensures forall t :: t in queue && t.Json? && t.id == id && id != "" ==> id in Rewritten(queue) && Rewritten(queue)[id] == t
  {
    if queue != [] {
      var n := |queue| - 1;
      RewrittenIs(queue[..n], id);
      assert queue == queue[..n] + [queue[n]];
    }
  }

  /** A lone writer's save always goes through, and skipping what did not change leaves the same task refs as rewriting
      the whole queue; its cache is the store again. */
  lemma LoneSaveRewrites(refs: Refs, w: Writer, queue: seq<Blob>, listed: seq<string>)
    requires InSync(refs, w) && Lists(listed, refs) && DistinctTasks(queue)
    ensures Accepted(refs, Transaction(refs, w, queue, listed))
    ensures SaveRefs(refs, refs, w, queue, listed).tasks == Rewritten(queue)
    ensures InSync(SaveRefs(refs, refs, w, queue, listed), SaveWriter(refs, refs, w, queue, listed))
  {
    SaveAcceptedIff(refs, refs, w, queue, listed);
    var after := SaveRefs(refs, refs, w, queue, listed);
    forall id: string
      ensures Get(after.tasks, id) == Get(Rewritten(queue), id)
    {
      LoneSaveAt(refs, w, queue, listed, id);
    }
    SameMap(after.tasks, Rewritten(queue));
    CacheFollows(refs, w.loaded, Transaction(refs, w, queue, listed));
    RewrittenIsClean(queue);
  }

  lemma LoneSaveAt(refs: Refs, w: Writer, queue: seq<Blob>, listed: seq<string>, id: string)
    requires InSync(refs, w) && Lists(listed, refs) && DistinctTasks(queue) && Accepted(refs, Transaction(refs, w, queue, listed))
    ensures Get(SaveRefs(refs, refs, w, queue, listed).tasks, id) == Get(Rewritten(queue), id)
  {
    SaveEffect(refs, refs, w, queue, listed, id);
    RewrittenIs(queue, id);
    if id in Seen(queue) {
      var t :| t in queue && t.Json? && t.id != "" && t.id == id;
      assert Rewritten(queue)[id] == t;
      forall u | u in queue && Changes(w.loaded, u) && u.id == id ensures u == t {
        assert Rewritten(queue)[id] == u;
      }
    }
  }

  lemma {:induction false} RewrittenIsClean(queue: seq<Blob>)
    ensures forall id :: id in Rewritten(queue) ==> Rewritten(queue)[id].Json? && Rewritten(queue)[id].id == id && id != ""
  {
    if queue != [] {
      RewrittenIsClean(queue[..|queue| - 1]);
    }
  }

  lemma {:induction false} CacheFollows(refs: Refs, loaded: map<string, Blob>, txn: seq<Change>)
    requires loaded == refs.tasks
    ensures Cached(loaded, txn) == InstallAll(refs, txn).tasks
  {
    if txn != [] {
      CacheFollows(refs, loaded, txn[..|txn| - 1]);
    }
  }

  /** Loading after a save gives the saved tasks back exactly when none of them carries a tombstone. */
  lemma LoadAfterSave(refs: Refs, w: Writer, queue: seq<Blob>, listed: seq<string>)
    requires InSync(refs, w) && Lists(listed, refs) && DistinctTasks(queue)
    ensures Live(SaveRefs(refs, refs, w, queue, listed)) == Rewritten(queue) <==> Seen(queue) !! refs.sealed.Keys
  {
    LoneSaveRewrites(refs, w, queue, listed);
    NoLostUpdate(refs, refs, w, queue, listed, "");
    RewrittenIsClean(queue);
    forall id: string ensures id in Rewritten(queue) <==> id in Seen(queue) {
      RewrittenIs(queue, id);
    }
    var live := Live(SaveRefs(refs, refs, w, queue, listed));
    if id :| id in Seen(queue) && id in refs.sealed {
      assert id !in live && id in Rewritten(queue);
    } else {
      assert live == Rewritten(queue);
    }
  }

  datatype Op =
    | Load
    | Save(queue: seq<Blob>)
    | Seal(id: string)
    | Delete(id: string)
    | Push(reach: Reach)

  /** The order in which git lists refs does not matter; any enumeration will do. */
  ghost function Enumerate(ids: set<string>): (listed: seq<string>)
    ensures forall id :: id in listed <==> id in ids
    ensures forall i, j :: 0 <= i < j < |listed| ==> listed[i] != listed[j]
  {
    if ids == {} then []
    else
      var id :| id in ids;
      Enumerate(ids - {id}) + [id]
  }

  ghost function Listing(refs: Refs): (listed: seq<string>)
    ensures Lists(listed, refs)
  {
    Enumerate(refs.tasks.Keys)
  }

  ghost function StepRefs(refs: Refs, w: Writer, op: Op): Refs {
    match op
    case Load => Reaped(refs)
    case Save(queue) => SaveRefs(refs, refs, w, queue, Listing(refs))
    case Seal(id) => SealRefs(refs, id)
    case Delete(id) => refs.(tasks := refs.tasks - {id})
    case Push(_) => refs
  }

  ghost function StepWriter(refs: Refs, w: Writer, op: Op): Writer {
    match op
    case Load => LoadedBy(w, refs)
    case Save(queue) => SaveWriter(refs, refs, w, queue, Listing(refs))
    case Seal(id) => SealWriter(w, refs, id)
    case Delete(id) => w.(loaded := w.loaded - {id})
    case Push(reach) => PushWriter(w, reach)
  }

  /** The abstract store: which tasks there are, and which ids have settled. */
  datatype Plain = Plain(tasks: map<string, Blob>, settled: set<string>)

  function PlainStep(p: Plain, op: Op): Plain {
    match op
    case Load => p.(tasks := p.tasks - p.settled)
    case Save(queue) => p.(tasks := Rewritten(queue))
    case Seal(id) =>
      var open := p.tasks - p.settled;
      if id in open then Plain(open - {id}, p.settled + {id}) else Plain(open, p.settled)
    case Delete(id) => p.(tasks := p.tasks - {id})
    case Push(_) => p
  }

  function Abstract(refs: Refs): Plain { Plain(refs.tasks, refs.sealed.Keys) }

  lemma StepRefines(refs: Refs, w: Writer, op: Op)
    requires InSync(refs, w) && (op.Save? ==> DistinctTasks(op.queue))
    ensures InSync(StepRefs(refs, w, op), StepWriter(refs, w, op))
    ensures Abstract(StepRefs(refs, w, op)) == PlainStep(Abstract(refs), op)
  {
    assert Live(refs) == refs.tasks - refs.sealed.Keys;
    match op
    case Load =>
    case Save(queue) =>
      LoneSaveRewrites(refs, w, queue, Listing(refs));
      NoLostUpdate(refs, refs, w, queue, Listing(refs), "");
    case Seal(id) =>
    case Delete(id) =>
    case Push(_) =>
  }

  ghost function RunRefs(refs: Refs, w: Writer, ops: seq<Op>): (Refs, Writer)
    decreases |ops|
  {
    if ops == [] then (refs, w) else RunRefs(StepRefs(refs, w, ops[0]), StepWriter(refs, w, ops[0]), ops[1..])
  }

  function PlainRun(p: Plain, ops: seq<Op>): Plain
    decreases |ops|
  {
    if ops == [] then p else PlainRun(PlainStep(p, ops[0]), ops[1..])
  }

  /** Over any sequence of operations by a lone writer, the cached, skipping, compare-and-swapping store is a plain map
      from ids to tasks, and its cache is exact throughout. */
  lemma {:induction false} LoneWriterRefines(refs: Refs, w: Writer, ops: seq<Op>)
    requires InSync(refs, w) && forall i :: 0 <= i < |ops| && ops[i].Save? ==> DistinctTasks(ops[i].queue)
    ensures var (refs', w') := RunRefs(refs, w, ops);
            InSync(refs', w') && Abstract(refs') == PlainRun(Abstract(refs), ops)
    decreases |ops|
  {
    if ops != [] {
      StepRefines(refs, w, ops[0]);
      LoneWriterRefines(StepRefs(refs, w, ops[0]), StepWriter(refs, w, ops[0]), ops[1..]);
    }
  }

  /** The first load of a clean store puts its writer in sync. */
  lemma LoadSynchronizes(refs: Refs, w: Writer)
    requires Clean(refs)
    ensures InSync(Reaped(refs), LoadedBy(w, refs))
  {
  }

  // ---- clones around origin ----------------------------------------------------------------------------------

  datatype Clone = Clone(refs: Refs, writers: map<nat, Writer>)

  datatype Net = Net(origin: Refs, clones: map<nat, Clone>)

  /** One step of writer `k` in clone `c`.  A save may submit a transaction built from any earlier reading of the refs. */
  datatype Action =
    | LoadAt(c: nat, k: nat)
    | SaveAt(c: nat, k: nat, read: Refs, queue: seq<Blob>, listed: seq<string>)
    | SealAt(c: nat, k: nat, id: string)
    | DeleteAt(c: nat, k: nat, id: string)
    | FetchAt(c: nat)
    | PushAt(c: nat, k: nat, reach: Reach)

  function With(net: Net, c: nat, refs: Refs, k: nat, w: Writer): Net
    requires c in net.clones
  {
    net.(clones := net.clones[c := Clone(refs, net.clones[c].writers[k := w])])
  }

  ghost function Act(net: Net, a: Action): Net {
    if a.c !in net.clones then net
    else
      var here := net.clones[a.c];
      match a
      case FetchAt(c) => net.(clones := net.clones[c := here.(refs := Fetched(here.refs, net.origin))])
      case LoadAt(c, k) =>
        if k !in here.writers then net else With(net, c, Reaped(here.refs), k, LoadedBy(here.writers[k], here.refs))
      case SaveAt(c, k, read, queue, listed) =>
        if k !in here.writers || !Lists(listed, read) then net
        else With(net, c, SaveRefs(read, here.refs, here.writers[k], queue, listed), k,
                  SaveWriter(read, here.refs, here.writers[k], queue, listed))
      case SealAt(c, k, id) =>
        if k !in here.writers then net else With(net, c, SealRefs(here.refs, id), k, SealWriter(here.writers[k], here.refs, id))
      case DeleteAt(c, k, id) =>
        if k !in here.writers then net
        else With(net, c, here.refs.(tasks := here.refs.tasks - {id}), k, here.writers[k].(loaded := here.writers[k].loaded - {id}))
      case PushAt(c, k, reach) =>
        if k !in here.writers then net
        else With(net, c, here.refs, k, PushWriter(here.writers[k], reach))
             .(origin := Pushed(net.origin, here.refs, here.writers[k].deleted, reach))
  }

  ghost function Run(net: Net, actions: seq<Action>): Net
    decreases |actions|
  {
    if actions == [] then net else Run(Act(net, actions[0]), actions[1..])
  }

  /** Everything that has settled somewhere in `net` has settled there in `later`. */
  ghost predicate SettledGrows(net: Net, later: Net) {
    && net.origin.sealed.Keys <= later.origin.sealed.Keys
    && later.clones.Keys == net.clones.Keys
    && (forall c :: c in net.clones ==> net.clones[c].refs.sealed.Keys <= later.clones[c].refs.sealed.Keys)
  }

  lemma ActKeepsTombstones(net: Net, a: Action)
    ensures SettledGrows(net, Act(net, a))
  {
    if a.c in net.clones && a.SaveAt? && a.k in net.clones[a.c].writers && Lists(a.listed, a.read) {
      NoLostUpdate(a.read, net.clones[a.c].refs, net.clones[a.c].writers[a.k], a.queue, a.listed, "");
    }
  }

  /** Tombstones are only ever added, in every clone and at origin, by every run. */
  lemma {:induction false} RunKeepsTombstones(net: Net, actions: seq<Action>)
    ensures SettledGrows(net, Run(net, actions))
    decreases |actions|
  {
    if actions != [] {
      ActKeepsTombstones(net, actions[0]);
      RunKeepsTombstones(Act(net, actions[0]), actions[1..]);
    }
  }

  /** Once a clone holds a tombstone, no later load there returns the task: not after any saves, fetches and pushes, by
      any writers of any clones, stale or not. */
  lemma SettledStaysSettled(net: Net, c: nat, id: string, actions: seq<Action>)
    requires c in net.clones && id in net.clones[c].refs.sealed
    ensures var later := Run(net, actions); c in later.clones && id !in Live(later.clones[c].refs)
  {
    RunKeepsTombstones(net, actions);
  }

  lemma {:induction false} RunConcat(net: Net, a: seq<Action>, b: seq<Action>)
    ensures Run(net, a + b) == Run(Run(net, a), b)
    decreases |a|
  {
    if a == [] {
      assert a + b == b;
    } else {
      assert (a + b)[1..] == a[1..] + b;
      RunConcat(Act(net, a[0]), a[1..], b);
    }
  }

  lemma RunOne(net: Net, a: Action, rest: seq<Action>)
    ensures Run(net, [a] + rest) == Run(Act(net, a), rest)
  {
    assert ([a] + rest)[1..] == rest;
  }

  lemma FiveParts(before: seq<Action>, a: Action, between: seq<Action>, b: Action, after: seq<Action>)
    ensures before + [a] + between + [b] + after == before + ([a] + (between + ([b] + after)))
  {
  }

  /** A run in five parts. */
  lemma RunInParts(net: Net, before: seq<Action>, a: Action, between: seq<Action>, b: Action, after: seq<Action>)
    ensures Run(net, before + ([a] + (between + ([b] + after)))) == Run(Act(Run(Act(Run(net, before), a), between), b), after)
  {
    var late := [b] + after;
    var middle := between + late;
    RunConcat(net, before, [a] + middle);
    RunOne(Run(net, before), a, middle);
    RunConcat(Act(Run(net, before), a), between, late);
    RunOne(Run(Act(Run(net, before), a), between), b, after);
  }

  /** Convergence: a tombstone that clone `c` has is in clone `d` once `c` has pushed its updates and `d` has fetched, no
      matter what else happens before, between and after, and whether or not any deletion is ever delivered. */
  lemma TombstoneSpreads(net: Net, c: nat, k: nat, d: nat, id: string, before: seq<Action>, reach: Reach, between: seq<Action>, after: seq<Action>)
    requires c in net.clones && d in net.clones && id in net.clones[c].refs.sealed
    requires reach != Nothing && c in Run(net, before).clones && k in Run(net, before).clones[c].writers
    ensures var later := Run(net, before + [PushAt(c, k, reach)] + between + [FetchAt(d)] + after);
            d in later.clones && id in later.clones[d].refs.sealed && id !in Live(later.clones[d].refs)
  {
    var n1 := Run(net, before);
    var n2 := Act(n1, PushAt(c, k, reach));
    var n3 := Run(n2, between);
    var n4 := Act(n3, FetchAt(d));
    RunKeepsTombstones(net, before);
    assert id in n2.origin.sealed;
    ActKeepsTombstones(n1, PushAt(c, k, reach));
    RunKeepsTombstones(n2, between);
    assert id in n4.clones[d].refs.sealed;
    RunKeepsTombstones(n4, after);
    RunInParts(net, before, PushAt(c, k, reach), between, FetchAt(d), after);
    FiveParts(before, PushAt(c, k, reach), between, FetchAt(d), after);
  }

  // ---- pushing deletions -------------------------------------------------------------------------------------

  /** A complete push leaves every live task of the clone on origin exactly when no remembered deletion names one. */
  lemma PushDeliversIff(origin: Refs, refs: Refs, deleted: set<string>)
    ensures (forall id :: id in refs.tasks ==> Get(Pushed(origin, refs, deleted, Everything).tasks, id) == Get(refs.tasks, id))
            <==> deleted !! refs.tasks.Keys
  {
    var after := Pushed(origin, refs, deleted, Everything);
    if id :| id in deleted && id in refs.tasks {
      assert Get(after.tasks, id) == None;
    }
  }

  /** What a save forgets: a prune it remembered although the transaction was refused, or a task that its queue brings
      back after an earlier prune, which no save ever takes off the list. */
  ghost predicate Forgets(read: Refs, refs: Refs, w: Writer, queue: seq<Blob>, listed: seq<string>, id: string) {
    if Accepted(refs, Transaction(read, w, queue, listed))
    then id in w.deleted && exists t :: t in queue && Changes(w.loaded, t) && t.id == id
    else Prunable(read, w.loaded, queue, id) && id in refs.tasks
  }

  lemma PrunedAre(read: Refs, w: Writer, queue: seq<Blob>, listed: seq<string>, id: string)
    requires Lists(listed, read)
    ensures id in Pruned(Transaction(read, w, queue, listed)) <==> Prunable(read, w.loaded, queue, id)
  {
    var txn := Transaction(read, w, queue, listed);
    if c :| c in txn && c.TaskRef? && c.next.None? && c.id == id {
      TransactionIs(read, w, queue, listed, c);
    }
    if Prunable(read, w.loaded, queue, id) {
      var c := TaskRef(id, Get(read.tasks, id), None);
      TransactionIs(read, w, queue, listed, c);
      assert c in txn;
    }
  }

  lemma ChangedIsNotPrunable(read: Refs, loaded: map<string, Blob>, queue: seq<Blob>, t: Blob)
    requires t in queue && Changes(loaded, t)
    ensures !Prunable(read, loaded, queue, t.id)
  {
  }

  /** One id, after the save: remembered as deleted and live. */
  lemma DeletedAndLiveIff(read: Refs, refs: Refs, w: Writer, queue: seq<Blob>, listed: seq<string>, id: string)
    requires Lists(listed, read) && (id in w.deleted ==> id !in refs.tasks)
    ensures id in SaveWriter(read, refs, w, queue, listed).deleted && id in SaveRefs(read, refs, w, queue, listed).tasks <==>
            Forgets(read, refs, w, queue, listed, id)
  {
    var txn := Transaction(read, w, queue, listed);
    PrunedAre(read, w, queue, listed, id);
    if Accepted(refs, txn) {
      InstallEffect(refs, txn, id);
      if Touches(txn, id) {
        var c :| c in txn && c.TaskRef? && c.id == id;
        TransactionIs(read, w, queue, listed, c);
      }
      if t :| t in queue && Changes(w.loaded, t) && t.id == id {
        ChangedIsNotPrunable(read, w.loaded, queue, t);
        TransactionIs(read, w, queue, listed, TaskRef(t.id, Get(w.loaded, t.id), Some(t)));
      }
      if Prunable(read, w.loaded, queue, id) {
        TransactionIs(read, w, queue, listed, TaskRef(id, Get(read.tasks, id), None));
      }
    }
  }

  /** For every save of a writer that remembers no deletion of a live task: afterwards it remembers none, and a complete
      push leaves every live task of the clone on origin, exactly when the save forgets none.  An accepted save forgets
      the deleted tasks its queue brings back; a refused one, the live tasks it meant to prune. */
  lemma SaveThenPushDeliversIff(origin: Refs, read: Refs, refs: Refs, w: Writer, queue: seq<Blob>, listed: seq<string>)
    requires Lists(listed, read) && w.deleted !! refs.tasks.Keys
    ensures var (refs', w') := (SaveRefs(read, refs, w, queue, listed), SaveWriter(read, refs, w, queue, listed));
            && (w'.deleted !! refs'.tasks.Keys <==> forall id :: !Forgets(read, refs, w, queue, listed, id))
            && ((forall id :: id in refs'.tasks ==> Get(Pushed(origin, refs', w'.deleted, Everything).tasks, id) == Get(refs'.tasks, id))
                <==> forall id :: !Forgets(read, refs, w, queue, listed, id))
  {
    var refs', w' := SaveRefs(read, refs, w, queue, listed), SaveWriter(read, refs, w, queue, listed);
    forall id ensures id in w'.deleted && id in refs'.tasks <==> Forgets(read, refs, w, queue, listed, id) {
      DeletedAndLiveIff(read, refs, w, queue, listed, id);
    }
    PushDeliversIff(origin, refs', w'.deleted);
  }

  /** A writer whose queue brings none of its deleted tasks back: the condition is that the save was accepted, or that no
      task it meant to prune is still live. */
  lemma SteadySaveForgetsIff(read: Refs, refs: Refs, w: Writer, queue: seq<Blob>, listed: seq<string>)
    requires Lists(listed, read) && w.deleted !! refs.tasks.Keys && w.deleted !! Seen(queue)
    ensures SaveWriter(read, refs, w, queue, listed).deleted !! SaveRefs(read, refs, w, queue, listed).tasks.Keys <==>
            || Accepted(refs, Transaction(read, w, queue, listed))
            || (forall id :: Prunable(read, w.loaded, queue, id) ==> id !in refs.tasks)
  {
    SaveThenPushDeliversIff(refs, read, refs, w, queue, listed);
    if Accepted(refs, Transaction(read, w, queue, listed)) {
      forall id ensures !Forgets(read, refs, w, queue, listed, id) {
      }
    } else {
      forall id ensures Forgets(read, refs, w, queue, listed, id) <==> Prunable(read, w.loaded, queue, id) && id in refs.tasks {
      }
    }
  }

  /** Both ways of forgetting happen.  Here a writer prunes a task, brings it back before it has pushed, and pushes: the
      task is live in the clone and gone from origin. */
  lemma RevivedTaskLeavesOrigin(body: nat)
    ensures var a := Json("a", body);
            var refs := Refs(map[], map[], Some(Stamped(map[])));
            var w := Writer(map[], Stamped(map[]), {"a"});
            var (refs', w') := (SaveRefs(refs, refs, w, [a], []), SaveWriter(refs, refs, w, [a], []));
            && Lists([], refs) && refs'.tasks == map["a" := a] && "a" in w'.deleted
            && "a" !in Pushed(refs', refs', w'.deleted, Everything).tasks
  {
    var a := Json("a", body);
    var refs := Refs(map[], map[], Some(Stamped(map[])));
    var w := Writer(map[], Stamped(map[]), {"a"});
    var txn := Transaction(refs, w, [a], []);
    assert [a][..0] == [];
    assert Updates(map[], [a]) == Updates(map[], []) + [TaskRef("a", None, Some(a))];
    assert Stamped(Stamped(map[])) == Stamped(map[]);
    assert MetaChange(refs, w.envelope) == [];
    assert txn == [TaskRef("a", None, Some(a))];
    assert txn[..0] == [] && Accepted(refs, txn);
    var refs', w' := SaveRefs(refs, refs, w, [a], []), SaveWriter(refs, refs, w, [a], []);
    assert refs' == Install(InstallAll(refs, []), txn[0]) == refs.(tasks := map["a" := a]);
    assert "a" in w'.deleted;
  }

  /** And here a save remembers its prunes before it submits them: it is refused, so it leaves a deletion of a task that is
      still live, and the next push takes the task off origin. */
  lemma RejectedSaveForgetsLiveTask(body: nat, other: nat)
    requires body != other
    ensures var a, b := Json("a", body), Json("b", body);
            var read := Refs(map["a" := a, "b" := b], map[], None);
            var w := Writer(read.tasks, map[], {});
            var refs := read.(tasks := map["a" := a, "b" := Json("b", other)]);
            var queue := [Json("b", body + other + 1)];
            var (refs', w') := (SaveRefs(read, refs, w, queue, ["a", "b"]), SaveWriter(read, refs, w, queue, ["a", "b"]));
            && Lists(["a", "b"], read) && refs' == refs && "a" in refs'.tasks && "a" in w'.deleted
            && "a" !in Pushed(refs', refs', w'.deleted, Everything).tasks
  {
    var a, b := Json("a", body), Json("b", body);
    var read := Refs(map["a" := a, "b" := b], map[], None);
    var w := Writer(read.tasks, map[], {});
    var refs := read.(tasks := map["a" := a, "b" := Json("b", other)]);
    var queue := [Json("b", body + other + 1)];
    var listed := ["a", "b"];
    var txn := Transaction(read, w, queue, listed);
    TransactionIs(read, w, queue, listed, TaskRef("a", Some(a), None));
    assert queue[0] in queue;
    assert Seen(queue) == {"b"};
    TransactionIs(read, w, queue, listed, TaskRef("b", Some(b), Some(queue[0])));
    assert !Expects(refs, TaskRef("b", Some(b), Some(queue[0])));
  }
}
