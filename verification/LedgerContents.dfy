/** What the ledger stores of a request, what a clean file is, and what reading returns. */
module LedgerContents {
  import opened Wrappers
  import opened Ledger
  import opened LedgerMachine

  // ---- requests ----------------------------------------------------------------------------------------------

  /** A request is accepted exactly when its source is not the reserved one, its kind is known, a ref comes with its kind, that
      kind is known, and there is a ref or a time that is not empty. */
  lemma AcceptedIff(r: Request)
    ensures Objection(r).None? <==>
      && r.source != "ingest-backfill"
      && (r.kind == "cut" || r.kind == "stage" || r.kind == "verdict" || r.kind == "land")
      && (r.ref.Some? ==> r.refKind.Some?)
      && (r.refKind.Some? ==> r.refKind.value in ["git-sha", "pr", "plan-hash", "evidence-path"])
      && ((r.ref.Some? && |r.ref.value| > 0) || (r.occurredAt.Some? && |r.occurredAt.value| > 0))
  {
  }

  predicate Empty(field: Option<string>) { field.None? || |field.value| == 0 }

  /** A refusal names the first fault of the request, in this order, and there is one. */
  lemma RefusalIsTheFirstFault(r: Request)
    ensures var (reserved, unknown) := (r.source == "ingest-backfill", r.kind !in ["cut", "stage", "verdict", "land"]);
            var (bare, odd) := (r.ref.Some? && r.refKind.None?, r.refKind.Some? && r.refKind.value !in ["git-sha", "pr", "plan-hash", "evidence-path"]);
            && (Objection(r) == Some(ReservedSource) <==> reserved)
            && (Objection(r) == Some(UnknownKind) <==> unknown && !reserved)
            && (Objection(r) == Some(RefKindMissing) <==> bare && !unknown && !reserved)
            && (Objection(r) == Some(UnknownRefKind) <==> odd && !bare && !unknown && !reserved)
            && (Objection(r) == Some(OccurredAtMissing) <==> Empty(r.ref) && Empty(r.occurredAt) && !odd && !bare && !unknown && !reserved)
  {
  }

  /** A write answers with that fault, else with everything that is wrong with the file, and changes nothing in either case. */
  lemma WriteRefuses(c: Codec, text: string, r: Request, now: string)
    ensures match Objection(r)
            case Some(error) => Write(c, text, r, now) == (Refused(error), text)
            case None => !Clean(c, text) ==> Write(c, text, r, now) == (Corrupt(Scan(c, text).problems), text)
  {
  }

  /** The event holds what the request said, and when it was written. */
  predicate Holds(e: Event, r: Request, now: string) {
    && e.source == Some(r.source) && e.task == Some(r.task) && e.kind == Some(r.kind)
    && e.ref == r.ref && e.occurredAt == r.occurredAt && e.payload == r.payload && e.createdAt == now
    && (if r.ref.Some? then e.refKind == r.refKind else e.refKind.None?)
  }

  /** An accepted request whose address is new to a clean file is stored as a whole. */
  lemma WriteHolds(c: Codec, text: string, r: Request, now: string)
    requires Canonical(c) && Clean(c, text) && Objection(r).None? && Address(c, r) !in Ids(Scan(c, text).events)
    ensures var (outcome, text') := Write(c, text, r, now);
            && outcome.Stored? && outcome.event.id == Address(c, r) && Holds(outcome.event, r, now)
            && Scan(c, text').events == Scan(c, text).events + [outcome.event]
  {
    WriteAppends(c, text, r, now);
  }

  /** Writing and reading: after any later writes the file is clean and reading the task, from any instance, returns the event
      that was stored. */
  lemma WrittenIsRead(c: Codec, text: string, r: Request, now: string, calls: seq<Call>)
    requires Canonical(c) && Clean(c, text) && Objection(r).None? && Address(c, r) !in Ids(Scan(c, text).events)
    ensures var (outcome, text') := Write(c, text, r, now);
            var later := Run(c, text', calls);
            && outcome.Stored? && Holds(outcome.event, r, now)
            && Clean(c, later) && outcome.event in Scan(c, later).events
            && outcome.event in Select(Scan(c, later).events, Some(r.task), None, None)
            && forall e :: e in Scan(c, later).events && e.id == Address(c, r) ==> e == outcome.event
  {
    var (outcome, text') := Write(c, text, r, now);
    WriteHolds(c, text, r, now);
    WriteAppends(c, text, r, now);
    RunAppends(c, text', calls);
    var events := Scan(c, Run(c, text', calls)).events;
    assert outcome.event in Scan(c, text').events;
    SelectIff(events, Some(r.task), None, None, outcome.event);
    EveryScanIsVerified(c, Lines(Run(c, text', calls)));
    forall e | e in events && e.id == Address(c, r) ensures e == outcome.event {
      var i :| 0 <= i < |events| && events[i] == e;
      var j :| 0 <= j < |events| && events[j] == outcome.event;
      assert i == j;
    }
  }

  // ---- reading -----------------------------------------------------------------------------------------------

  predicate Wanted(field: Option<string>, value: Option<string>) { field.Some? ==> value == field }

  /** The selection is exactly the events that agree with every field that is given. */
  lemma {:induction false} SelectIff(events: seq<Event>, task: Option<string>, kind: Option<string>, source: Option<string>, e: Event)
    ensures e in Select(events, task, kind, source) <==>
            e in events && Wanted(task, e.task) && Wanted(kind, e.kind) && Wanted(source, e.source)
  {
    if events != [] {
      var n := |events| - 1;
      SelectIff(events[..n], task, kind, source, e);
      assert events == events[..n] + [events[n]];
    }
  }

  lemma SelectLast(events: seq<Event>, init: seq<Event>, e: Event, task: Option<string>, kind: Option<string>, source: Option<string>)
    requires events == init + [e]
    ensures Select(events, task, kind, source) ==
            Select(init, task, kind, source) + (if Selected(e, task, kind, source) then [e] else [])
  {
    assert events[..|events| - 1] == init;
  }

  /** It keeps the order of the file. */
  lemma {:induction false} SelectKeepsOrder(a: seq<Event>, b: seq<Event>, events: seq<Event>,
                                            task: Option<string>, kind: Option<string>, source: Option<string>)
    requires events == a + b
    ensures Select(events, task, kind, source) == Select(a, task, kind, source) + Select(b, task, kind, source)
    decreases |b|
  {
    if b == [] {
      assert events == a;
    } else {
      var init, e := b[..|b| - 1], b[|b| - 1];
      var front := a + init;
      assert events == front + [e];
      SelectKeepsOrder(a, init, front, task, kind, source);
      SelectLast(events, front, e, task, kind, source);
      SelectLast(b, init, e, task, kind, source);
      Joined(Select(events, task, kind, source), Select(front, task, kind, source), Select(a, task, kind, source),
             Select(init, task, kind, source), Select(b, task, kind, source), if Selected(e, task, kind, source) then [e] else []);
    }
  }

  // ---- clean files -------------------------------------------------------------------------------------------

  predicate White(c: char) { c == ' ' || c == '\t' || c == '\n' || c == '\r' }

  predicate AllWhite(s: string) { forall i :: 0 <= i < |s| ==> White(s[i]) }

  lemma OneMoreBefore(c: char, before: string, mid: string, after: string)
    ensures [c] + (before + mid + after) == ([c] + before) + mid + after
  {
  }

  lemma OneMoreAfter(c: char, before: string, mid: string, after: string)
    ensures (before + mid + after) + [c] == before + mid + (after + [c])
  {
  }

  /** Trimming takes off all the white space at both ends and nothing else. */
  lemma {:induction false} TrimIs(s: string) returns (before: string, after: string)
    ensures s == before + Trim(s) + after && AllWhite(before) && AllWhite(after)
    ensures Trim(s) != "" ==> !White(Trim(s)[0]) && !White(Trim(s)[|Trim(s)| - 1])
    decreases |s|
  {
    before, after := "", "";
    if s != "" && Space(s[0]) {
      before, after := TrimIs(s[1..]);
      OneMoreBefore(s[0], before, Trim(s[1..]), after);
      assert s == [s[0]] + s[1..];
      before := [s[0]] + before;
    } else if s != "" && Space(s[|s| - 1]) {
      var init, last := s[..|s| - 1], s[|s| - 1];
      before, after := TrimIs(init);
      OneMoreAfter(last, before, Trim(init), after);
      assert s == init + [last];
      after := after + [last];
    } else {
      assert s == "" + s + "";
    }
  }

  /** A line ends at a newline or a carriage return and nowhere else; what follows begins a new one. */
  lemma LineEnds(text: string, c: char)
    ensures var (before, after) := (Lines(text), Lines(text + [c]));
            if c == '\n' || c == '\r' then after == before + [""]
            else after == before[..|before| - 1] + [before[|before| - 1] + [c]]
  {
    LinesPush(text, c);
  }

  predicate Blank(raw: string) { Trim(raw) == "" }

  /** The line decodes to an event with an id. */
  predicate Readable(c: Codec, raw: string) {
    c.decode(Trim(raw)).Object? && c.decode(Trim(raw)).event.id != ""
  }

  /** The line holds an event under its own address. */
  predicate Genuine(c: Codec, raw: string) {
    Readable(c, raw) && c.decode(Trim(raw)).event.id == ExpectedId(c, c.decode(Trim(raw)).event)
  }

  /** The line holds this event, under its own address. */
  predicate Carries(c: Codec, raw: string, e: Event) {
    !Blank(raw) && Genuine(c, raw) && c.decode(Trim(raw)).event == e
  }

  ghost predicate AllGenuine(c: Codec, lines: seq<string>) {
    forall i :: 0 <= i < |lines| && !Blank(lines[i]) ==> Genuine(c, lines[i])
  }

  /** No two lines hold different events at one address. */
  ghost predicate NoQuarrel(c: Codec, lines: seq<string>) {
    forall i, j, e, f :: 0 <= i < |lines| && 0 <= j < |lines| && Carries(c, lines[i], e) && Carries(c, lines[j], f) && e.id == f.id ==> e == f
  }

  /** Whoever is indexed is on a line, and whoever is on a line has its address indexed. */
  lemma {:induction false} IndexIsFromLines(c: Codec, lines: seq<string>, e: Event)
    ensures e in ScanLines(c, lines).events ==> exists i :: 0 <= i < |lines| && Carries(c, lines[i], e)
    ensures (exists i :: 0 <= i < |lines| && Carries(c, lines[i], e)) ==> e.id in Ids(ScanLines(c, lines).events)
  {
    if lines != [] {
      var n := |lines| - 1;
      var before := ScanLines(c, lines[..n]);
      IndexIsFromLines(c, lines[..n], e);
      assert ScanLines(c, lines) == ScanLine(c, before, lines[n]);
      LineIndexes(c, before, lines[n], e);
      if e in before.events {
        var i :| 0 <= i < n && Carries(c, lines[..n][i], e);
        assert Carries(c, lines[i], e);
      }
      if i :| 0 <= i < n && Carries(c, lines[i], e) {
        assert Carries(c, lines[..n][i], e);
      }
    }
  }

  lemma LineIndexes(c: Codec, s: Scanned, raw: string, e: Event)
    ensures e in ScanLine(c, s, raw).events ==> e in s.events || Carries(c, raw, e)
    ensures e.id in Ids(s.events) || Carries(c, raw, e) ==> e.id in Ids(ScanLine(c, s, raw).events)
  {
    var s' := ScanLine(c, s, raw);
    if e.id in Ids(s.events) {
      var f :| f in s.events && f.id == e.id;
      assert f in s'.events;
    }
    if Carries(c, raw, e) {
      match Lookup(s.events, e.id)
      case None => assert e in s'.events;
      case Some(previous) => assert previous in s'.events;
    }
  }

  ghost predicate AgreesWithIndex(c: Codec, front: seq<string>, e: Event) {
    forall f :: f in ScanLines(c, front).events && f.id == e.id ==> f == e
  }

  ghost predicate AgreesWithLines(c: Codec, front: seq<string>, e: Event) {
    forall i, f :: 0 <= i < |front| && Carries(c, front[i], f) && f.id == e.id ==> f == e
  }

  /** One more line is no problem exactly when it is blank, or genuine and in agreement with what is indexed. */
  lemma LineIsCleanIff(c: Codec, front: seq<string>, raw: string)
    ensures ScanLine(c, ScanLines(c, front), raw).problems == ScanLines(c, front).problems <==>
            Blank(raw) || (Genuine(c, raw) && AgreesWithIndex(c, front, c.decode(Trim(raw)).event))
  {
    var s := ScanLines(c, front);
    EveryScanIsVerified(c, front);
    if !Blank(raw) && Genuine(c, raw) {
      var e := c.decode(Trim(raw)).event;
      match Lookup(s.events, e.id)
      case None =>
      case Some(previous) =>
        forall f | f in s.events && f.id == e.id ensures f == previous {
          VerifiedLookup(c, s.events, f);
        }
    }
  }

  lemma ProblemsGrow(c: Codec, s: Scanned, raw: string)
    ensures s.problems <= ScanLine(c, s, raw).problems
  {
  }

  lemma QuarrelGrows(c: Codec, front: seq<string>, raw: string)
    requires NoQuarrel(c, front)
    ensures NoQuarrel(c, front + [raw]) <==> (!Blank(raw) && Genuine(c, raw) ==> AgreesWithLines(c, front, c.decode(Trim(raw)).event))
  {
    var all := front + [raw];
    assert forall i :: 0 <= i < |front| ==> all[i] == front[i];
    if NoQuarrel(c, all) && !Blank(raw) && Genuine(c, raw) {
      var e := c.decode(Trim(raw)).event;
      forall i, f | 0 <= i < |front| && Carries(c, front[i], f) && f.id == e.id ensures f == e {
        assert Carries(c, all[i], f) && Carries(c, all[|front|], e);
      }
    }
  }

  lemma StepIsClean(c: Codec, front: seq<string>, raw: string)
    requires ScanLines(c, front).problems == [] && AllGenuine(c, front) && NoQuarrel(c, front)
    ensures ScanLine(c, ScanLines(c, front), raw).problems == [] <==> AllGenuine(c, front + [raw]) && NoQuarrel(c, front + [raw])
  {
    FrontIsClean(c, front, raw);
    LineIsCleanIff(c, front, raw);
    QuarrelGrows(c, front, raw);
    if !Blank(raw) && Genuine(c, raw) {
      IndexedQuarrel(c, front, c.decode(Trim(raw)).event);
    }
  }

  /** A file is clean exactly when every line that is not blank holds an event under its own address, and lines with one address
      hold one event. */
  lemma {:induction false} CleanIff(c: Codec, lines: seq<string>)
    ensures ScanLines(c, lines).problems == [] <==> AllGenuine(c, lines) && NoQuarrel(c, lines)
  {
    if lines != [] {
      var front, raw := lines[..|lines| - 1], lines[|lines| - 1];
      assert lines == front + [raw];
      CleanIff(c, front);
      if ScanLines(c, front).problems == [] {
        StepIsClean(c, front, raw);
      } else {
        ProblemsGrow(c, ScanLines(c, front), raw);
        FrontIsClean(c, front, raw);
      }
    }
  }

  lemma FrontIsClean(c: Codec, front: seq<string>, raw: string)
    ensures AllGenuine(c, front + [raw]) <==> AllGenuine(c, front) && (Blank(raw) || Genuine(c, raw))
    ensures NoQuarrel(c, front + [raw]) ==> NoQuarrel(c, front)
  {
    var all := front + [raw];
    assert forall i :: 0 <= i < |front| ==> all[i] == front[i];
    assert all[|front|] == raw;
  }

  /** Of lines that do not quarrel, each is itself indexed. */
  lemma LineIsIndexed(c: Codec, lines: seq<string>, i: nat, e: Event)
    requires NoQuarrel(c, lines) && i < |lines| && Carries(c, lines[i], e)
    ensures e in ScanLines(c, lines).events
  {
    IndexIsFromLines(c, lines, e);
    var f :| f in ScanLines(c, lines).events && f.id == e.id;
    IndexIsFromLines(c, lines, f);
    var j :| 0 <= j < |lines| && Carries(c, lines[j], f);
    assert e == f;
  }

  /** The index stands for the lines before: agreeing with the one is agreeing with the others. */
  lemma IndexedQuarrel(c: Codec, front: seq<string>, e: Event)
    requires NoQuarrel(c, front)
    ensures AgreesWithIndex(c, front, e) <==> AgreesWithLines(c, front, e)
  {
    forall i, f | 0 <= i < |front| && Carries(c, front[i], f) ensures f in ScanLines(c, front).events {
      LineIsIndexed(c, front, i, f);
    }
    forall f | f in ScanLines(c, front).events ensures exists i :: 0 <= i < |front| && Carries(c, front[i], f) {
      IndexIsFromLines(c, front, f);
    }
  }

  /** The events of a clean file are exactly those that its lines hold. */
  lemma CleanEvents(c: Codec, lines: seq<string>, e: Event)
    requires ScanLines(c, lines).problems == []
    ensures e in ScanLines(c, lines).events <==> exists i :: 0 <= i < |lines| && Carries(c, lines[i], e)
  {
    IndexIsFromLines(c, lines, e);
    CleanIff(c, lines);
    if i :| 0 <= i < |lines| && Carries(c, lines[i], e) {
      LineIsIndexed(c, lines, i, e);
    }
  }

  /** The file really has the problem. */
  ghost predicate IsReal(c: Codec, lines: seq<string>, p: Problem) {
    exists i :: 0 <= i < |lines| && !Blank(lines[i]) && Afflicts(c, lines, lines[i], p)
  }

  ghost predicate Afflicts(c: Codec, lines: seq<string>, raw: string, p: Problem) {
    var line := c.decode(Trim(raw));
    match p
    case InvalidJson => line.NotJson?
    case NotAnObject => line.NotObject?
    case MissingId => line.NoStringId? || (line.Object? && line.event.id == "")
    case Mismatch(stored, computed) => line.Object? && line.event.id == stored != computed == ExpectedId(c, line.event)
    case Conflict(id) => exists j, e, f :: 0 <= j < |lines| && Carries(c, raw, e) && Carries(c, lines[j], f) && e.id == f.id == id && e != f
  }

  lemma LineProblem(c: Codec, front: seq<string>, raw: string, p: Problem)
    requires p in ScanLine(c, ScanLines(c, front), raw).problems && p !in ScanLines(c, front).problems
    ensures !Blank(raw) && Afflicts(c, front + [raw], raw, p)
  {
    var s, all := ScanLines(c, front), front + [raw];
    if p.Conflict? {
      var e := c.decode(Trim(raw)).event;
      var f := Lookup(s.events, e.id).value;
      IndexIsFromLines(c, front, f);
      var j :| 0 <= j < |front| && Carries(c, front[j], f);
      assert Carries(c, raw, e) && Carries(c, all[j], f) && e.id == f.id == p.id && e != f;
    }
  }

  lemma AfflictsStill(c: Codec, front: seq<string>, last: string, raw: string, p: Problem)
    requires Afflicts(c, front, raw, p)
    ensures Afflicts(c, front + [last], raw, p)
  {
    if p.Conflict? {
      var j, e, f :| 0 <= j < |front| && Carries(c, raw, e) && Carries(c, front[j], f) && e.id == f.id == p.id && e != f;
      assert Carries(c, (front + [last])[j], f);
    }
  }

  /** Every problem that a scan reports is one that the file has. */
  lemma {:induction false} ProblemsAreReal(c: Codec, lines: seq<string>, p: Problem)
    requires p in ScanLines(c, lines).problems
    ensures IsReal(c, lines, p)
  {
    var n := |lines| - 1;
    assert lines == lines[..n] + [lines[n]];
    if p in ScanLines(c, lines[..n]).problems {
      ProblemsAreReal(c, lines[..n], p);
      var i :| 0 <= i < n && !Blank(lines[..n][i]) && Afflicts(c, lines[..n], lines[..n][i], p);
      AfflictsStill(c, lines[..n], lines[n], lines[i], p);
      assert lines[i] == lines[..n][i];
    } else {
      LineProblem(c, lines[..n], lines[n], p);
    }
  }

  // ---- missing fields ----------------------------------------------------------------------------------------

  lemma SameMiddle(a: string, x: string, y: string, b: string)
    ensures a + x + b == a + y + b <==> x == y
  {
    if a + x + b == a + y + b {
      assert |x| == |y|;
      assert x == (a + x + b)[|a|..|a| + |x|] && y == (a + y + b)[|a|..|a| + |y|];
    }
  }

  /** A missing source, task or kind is said to show as a mismatch.  It does, unless the field said "None": that is how a missing
      one is spelled in the address. */
  lemma MissingFieldShowsIff(c: Codec, e: Event)
    requires Injective(c) && e.id == ExpectedId(c, e)
    ensures e.id != ExpectedId(c, e.(source := None)) <==> Rendered(e.source) != "None"
    ensures e.id != ExpectedId(c, e.(task := None)) <==> Rendered(e.task) != "None"
    ensures e.id != ExpectedId(c, e.(kind := None)) <==> Rendered(e.kind) != "None"
  {
    var key := if e.ref.Some? then e.ref else e.occurredAt;
    var source, task, kind, tail := Rendered(e.source), Rendered(e.task), Rendered(e.kind), ":" + OrEmpty(key);
    IdentityCut(source, task, kind, key);
    IdentityCut("None", task, kind, key);
    IdentityCut(source, "None", kind, key);
    IdentityCut(source, task, "None", key);
    SameMiddle("", source, "None", ":" + task + ":" + kind + tail);
    SameMiddle(source + ":", task, "None", ":" + kind + tail);
    SameMiddle(source + ":" + task + ":", kind, "None", tail);
  }

  lemma IdentityCut(source: string, task: string, kind: string, key: Option<string>)
    ensures Identity(source, task, kind, key) == "" + source + (":" + task + ":" + kind + (":" + OrEmpty(key)))
    ensures Identity(source, task, kind, key) == (source + ":") + task + (":" + kind + (":" + OrEmpty(key)))
    ensures Identity(source, task, kind, key) == (source + ":" + task + ":") + kind + (":" + OrEmpty(key))
  {
  }
}
