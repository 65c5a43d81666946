/**
 The provenance ledger: a text file of one event per line, each line addressed by a hash of the event's identity.
 Scanning verifies every line; writing appends a line, or returns the event that already has the address.
 */
module Ledger {
  import opened Wrappers

  // ---- events and their encoding -----------------------------------------------------------------------------

  /** An event as a JSON object; `None` is an absent field. */
  datatype Event = Event(
    id: string,
    source: Option<string>, task: Option<string>, kind: Option<string>,
    ref: Option<string>, refKind: Option<string>, occurredAt: Option<string>,
    createdAt: string,
    payload: Option<string>)

  /** What a line of text turns out to be. */
  datatype Parsed = NotJson | NotObject | NoStringId | Object(event: Event)

  datatype Codec = Codec(encode: Event -> string, decode: string -> Parsed, hash: string -> string)

  predicate Break(c: char) { c == '\n' || c == '\r' }

  predicate Space(c: char) { Break(c) || c == ' ' || c == '\t' }

  /** `str.strip`. */
  function Trim(s: string): string {
    if s != "" && Space(s[0]) then Trim(s[1..])
    else if s != "" && Space(s[|s| - 1]) then Trim(s[..|s| - 1])
    else s
  }

  /** The encoding is canonical JSON: one trimmed, non-empty line that decodes to the same event.  An address is never
      the empty string. */
  ghost predicate Canonical(c: Codec) {
    && (forall e :: c.decode(c.encode(e)) == Object(e) && Trim(c.encode(e)) == c.encode(e) != "")
    && (forall e, i :: 0 <= i < |c.encode(e)| ==> !Break(c.encode(e)[i]))
    && (forall s :: c.hash(s) != "")
  }

  function OrEmpty(key: Option<string>): string { if key.Some? then key.value else "" }

  function Rendered(field: Option<string>): string { if field.Some? then field.value else "None" }

  function Identity(source: string, task: string, kind: string, key: Option<string>): string {
    source + ":" + task + ":" + kind + ":" + OrEmpty(key)
  }

  /** `_expected_id`: `ref` wins when present, otherwise `occurred_at`. */
  function ExpectedId(c: Codec, e: Event): string {
    c.hash(Identity(Rendered(e.source), Rendered(e.task), Rendered(e.kind), if e.ref.Some? then e.ref else e.occurredAt))
  }

  // ---- scanning ----------------------------------------------------------------------------------------------

  datatype Problem = InvalidJson | NotAnObject | MissingId | Mismatch(stored: string, computed: string) | Conflict(id: string)

  /** The index in file order, and what is wrong with the file. */
  datatype Scanned = Scanned(events: seq<Event>, problems: seq<Problem>)

  function Lookup(events: seq<Event>, id: string): (found: Option<Event>)
    ensures found.Some? ==> found.value in events && found.value.id == id
    ensures found.None? ==> forall e :: e in events ==> e.id != id
  {
    if events == [] then None
    else if events[|events| - 1].id == id then Some(events[|events| - 1])
    else Lookup(events[..|events| - 1], id)
  }

  function Ids(events: seq<Event>): set<string> { set e | e in events :: e.id }

  function ScanLine(c: Codec, s: Scanned, raw: string): Scanned {
    var line := Trim(raw);
    if line == "" then s
    else
      match c.decode(line)
      case NotJson => s.(problems := s.problems + [InvalidJson])
      case NotObject => s.(problems := s.problems + [NotAnObject])
      case NoStringId => s.(problems := s.problems + [MissingId])
      case Object(e) =>
        if e.id == "" then s.(problems := s.problems + [MissingId])
        else if e.id != ExpectedId(c, e) then s.(problems := s.problems + [Mismatch(e.id, ExpectedId(c, e))])
        else
          match Lookup(s.events, e.id)
          case None => s.(events := s.events + [e])
          case Some(previous) => if previous == e then s else s.(problems := s.problems + [Conflict(e.id)])
  }

  function ScanLines(c: Codec, lines: seq<string>): Scanned {
    if lines == [] then Scanned([], []) else ScanLine(c, ScanLines(c, lines[..|lines| - 1]), lines[|lines| - 1])
  }

  /** One more character of text. */
  function Push(lines: seq<string>, c: char): (lines': seq<string>)
    requires lines != []
    ensures lines' != []
  {
    if Break(c) then lines + [""] else lines[..|lines| - 1] + [lines[|lines| - 1] + [c]]
  }

  /** The lines of a text; what follows the last line break is a line too, possibly empty. */
  function Lines(text: string): (lines: seq<string>)
    ensures lines != []
  {
    if text == "" then [""] else Push(Lines(text[..|text| - 1]), text[|text| - 1])
  }

  /** An absent file is the empty text. */
  function Scan(c: Codec, text: string): Scanned { ScanLines(c, Lines(text)) }

  predicate Clean(c: Codec, text: string) { Scan(c, text).problems == [] }

  // ---- writing -----------------------------------------------------------------------------------------------

  datatype Request = Request(
    source: string, task: string, kind: string,
    ref: Option<string>, refKind: Option<string>, occurredAt: Option<string>,
    payload: Option<string>)

  datatype Error = ReservedSource | UnknownKind | RefKindMissing | UnknownRefKind | OccurredAtMissing

  datatype Outcome = Refused(error: Error) | Corrupt(problems: seq<Problem>) | Stored(event: Event)

  predicate Falsy(s: Option<string>) { s.None? || s.value == "" }

  const BACKFILL := "ingest-backfill"
  const KINDS: set<string> := {"cut", "stage", "verdict", "land"}

  function Objection(r: Request): Option<Error> {
    if r.source == BACKFILL then Some(ReservedSource)
    else if r.kind !in KINDS then Some(UnknownKind)
    else if r.ref.Some? && r.refKind.None? then Some(RefKindMissing)
    else if r.refKind.Some? && r.refKind.value !in {"git-sha", "pr", "plan-hash", "evidence-path"} then Some(UnknownRefKind)
    else if Falsy(r.ref) && Falsy(r.occurredAt) then Some(OccurredAtMissing)
    else None
  }

  function Key(r: Request): Option<string> { if r.ref.Some? then r.ref else r.occurredAt }

  function Address(c: Codec, r: Request): string { c.hash(Identity(r.source, r.task, r.kind, Key(r))) }

  function EventOf(c: Codec, r: Request, now: string): Event {
    Event(Address(c, r), Some(r.source), Some(r.task), Some(r.kind),
          r.ref, if r.ref.Some? then r.refKind else None, r.occurredAt, now, r.payload)
  }

  /** A text that does not end its last line gets a newline first. */
  function Appended(text: string, line: string): string {
    (if text != "" && text[|text| - 1] != '\n' then text + "\n" else text) + line + "\n"
  }

  function Write(c: Codec, text: string, r: Request, now: string): (Outcome, string) {
    var s := Scan(c, text);
    if Objection(r).Some? then (Refused(Objection(r).value), text)
    else if s.problems != [] then (Corrupt(s.problems), text)
    else
      match Lookup(s.events, Address(c, r))
      case Some(e) => (Stored(e), text)
      case None => (Stored(EventOf(c, r, now)), Appended(text, c.encode(EventOf(c, r, now))))
  }

  // ---- lines -------------------------------------------------------------------------------------------------

  lemma LinesPush(text: string, c: char)
    ensures Lines(text + [c]) == Push(Lines(text), c)
  {
    assert (text + [c])[..|text|] == text;
  }

  lemma LinesSnoc(head: string, lines: seq<string>, b: string, last: char)
    requires Lines(head + b) == lines + Lines(b)
    ensures Lines(head + (b + [last])) == lines + Lines(b + [last])
  {
    LinesPush(head + b, last);
    LinesPush(b, last);
    PushJoin(lines, Lines(b), last);
    assert head + (b + [last]) == (head + b) + [last];
  }

  lemma EndApart(b: string)
    requires b != ""
    ensures b == b[..|b| - 1] + [b[|b| - 1]]
  {
  }

  /** After a line break the lines start afresh. */
  lemma {:induction false} LinesJoin(head: string, lines: seq<string>, b: string)
    requires Lines(head) == lines + [""]
    ensures Lines(head + b) == lines + Lines(b)
  {
    if b == "" {
      assert head + b == head;
    } else {
      EndApart(b);
      LinesJoin(head, lines, b[..|b| - 1]);
      LinesSnoc(head, lines, b[..|b| - 1], b[|b| - 1]);
    }
  }

  lemma PushJoin(a: seq<string>, b: seq<string>, c: char)
    requires b != []
    ensures Push(a + b, c) == a + Push(b, c)
  {
    var all := a + b;
    assert all[|all| - 1] == b[|b| - 1] && all[..|all| - 1] == a + b[..|b| - 1];
  }

  lemma {:induction false} LinesUnbroken(line: string)
    requires forall i :: 0 <= i < |line| ==> !Break(line[i])
    ensures Lines(line) == [line]
  {
    if line != "" {
      var n := |line| - 1;
      LinesUnbroken(line[..n]);
      assert line == line[..n] + [line[n]];
      LinesPush(line[..n], line[n]);
    }
  }

  /** The lines before the one that is appended: all of them, but for the empty one after a final newline. */
  function LinesBefore(text: string): seq<string> {
    if text == "" || text[|text| - 1] == '\n' then Lines(text)[..|Lines(text)| - 1] else Lines(text)
  }

  /** The text as `_append_event` leaves it before it writes the line, and the lines it then has. */
  lemma EndedLines(text: string) returns (head: string)
    ensures forall line :: Appended(text, line) == head + (line + "\n")
    ensures Lines(head) == LinesBefore(text) + [""]
  {
    head := text;
    if text != "" && text[|text| - 1] != '\n' {
      head := text + "\n";
      LinesPush(text, '\n');
      assert head == text + ['\n'];
    }
    forall line ensures Appended(text, line) == head + (line + "\n") {
      assert head + line + "\n" == head + (line + "\n");
    }
  }

  lemma LineEnded(line: string)
    requires forall i :: 0 <= i < |line| ==> !Break(line[i])
    ensures Lines(line + "\n") == [line, ""]
  {
    LinesUnbroken(line);
    LinesPush(line, '\n');
    assert line + "\n" == line + ['\n'];
  }

  /** Appending adds exactly one line to the file, whether or not its last line was ended. */
  lemma AppendedLines(text: string, line: string)
    requires forall i :: 0 <= i < |line| ==> !Break(line[i])
    ensures Lines(Appended(text, line)) == LinesBefore(text) + [line, ""]
  {
    var head := EndedLines(text);
    LineEnded(line);
    LinesJoin(head, LinesBefore(text), line + "\n");
  }

  lemma ScanSkipsEmpty(c: Codec, lines: seq<string>)
    ensures ScanLines(c, lines + [""]) == ScanLines(c, lines)
  {
    assert (lines + [""])[..|lines|] == lines;
  }

  /** Reading back what was appended is reading the old text and then the new line. */
  lemma AppendedScan(c: Codec, text: string, line: string)
    requires forall i :: 0 <= i < |line| ==> !Break(line[i])
    ensures Scan(c, Appended(text, line)) == ScanLine(c, Scan(c, text), line)
  {
    AppendedLines(text, line);
    var kept := LinesBefore(text);
    assert ScanLines(c, kept) == Scan(c, text) by {
      if kept != Lines(text) {
        assert Lines(text) == kept + [""];
        ScanSkipsEmpty(c, kept);
      }
    }
    assert kept + [line, ""] == (kept + [line]) + [""];
    ScanSkipsEmpty(c, kept + [line]);
    assert (kept + [line])[..|kept|] == kept;
  }

  // ---- what every scan says ----------------------------------------------------------------------------------

  ghost predicate Verified(c: Codec, events: seq<Event>) {
    && (forall i, j :: 0 <= i < j < |events| ==> events[i].id != events[j].id)
    && (forall e :: e in events ==> e.id == ExpectedId(c, e))
  }

  /** Whatever the file contains, the index holds distinct ids, each the recomputed address of its event. */
  lemma {:induction false} EveryScanIsVerified(c: Codec, lines: seq<string>)
    ensures Verified(c, ScanLines(c, lines).events)
  {
    if lines != [] {
      EveryScanIsVerified(c, lines[..|lines| - 1]);
    }
  }

  lemma VerifiedLookup(c: Codec, events: seq<Event>, e: Event)
    requires Verified(c, events) && e in events
    ensures Lookup(events, e.id) == Some(e)
  {
  }

  // ---- one write ---------------------------------------------------------------------------------------------

  /** The old file is a prefix of the new one, corruption stops every write, and on a clean file an accepted write either
      finds the event that has its address and changes nothing, or adds one event and leaves the file clean. */
  lemma WriteAppends(c: Codec, text: string, r: Request, now: string)
    requires Canonical(c)
    ensures var (outcome, text') := Write(c, text, r, now);
            && text <= text'
            && (outcome.Stored? <==> Objection(r).None? && Clean(c, text))
            && (!outcome.Stored? ==> text' == text)
            && (outcome.Stored? ==>
                  && Clean(c, text') && outcome.event.id == Address(c, r)
                  && (if Address(c, r) in Ids(Scan(c, text).events)
                      then text' == text && outcome.event in Scan(c, text).events
                      else Scan(c, text').events == Scan(c, text).events + [outcome.event]))
  {
    var s := Scan(c, text);
    if Objection(r).None? && s.problems == [] && Lookup(s.events, Address(c, r)).None? {
      var e := EventOf(c, r, now);
      AppendedScan(c, text, c.encode(e));
      assert ExpectedId(c, e) == e.id;
    }
  }

  // ---- many writers ------------------------------------------------------------------------------------------

  /** Who writes does not matter, only what is written: every instance reloads the file before it looks. */
  datatype Call = Call(request: Request, now: string)

  function Run(c: Codec, text: string, calls: seq<Call>): string
    decreases |calls|
  {
    if calls == [] then text else Run(c, Write(c, text, calls[0].request, calls[0].now).1, calls[1..])
  }

  /** The addresses of the requests that pass validation. */
  function Accepted(c: Codec, calls: seq<Call>): set<string> {
    set call | call in calls && Objection(call.request).None? :: Address(c, call.request)
  }

  function AddressIfAccepted(c: Codec, r: Request): set<string> {
    if Objection(r).None? then {Address(c, r)} else {}
  }

  lemma WriteAddsAddress(c: Codec, text: string, r: Request, now: string)
    requires Canonical(c) && Clean(c, text)
    ensures var text' := Write(c, text, r, now).1;
            && text <= text' && Clean(c, text') && Scan(c, text).events <= Scan(c, text').events
            && Ids(Scan(c, text').events) == Ids(Scan(c, text).events) + AddressIfAccepted(c, r)
  {
    WriteAppends(c, text, r, now);
  }

  lemma AcceptedSplits(c: Codec, calls: seq<Call>)
    requires calls != []
    ensures Accepted(c, calls) == AddressIfAccepted(c, calls[0].request) + Accepted(c, calls[1..])
  {
    assert calls == [calls[0]] + calls[1..];
  }

  /** Any interleaving of writes by any number of instances: the old file is a prefix of the new, nothing that was indexed
      changes, the file stays clean, and the ids stored are the old ones and those of the accepted requests. */
  lemma {:induction false} RunAppends(c: Codec, text: string, calls: seq<Call>)
    requires Canonical(c) && Clean(c, text)
    ensures text <= Run(c, text, calls) && Clean(c, Run(c, text, calls))
    ensures Scan(c, text).events <= Scan(c, Run(c, text, calls)).events
    ensures Ids(Scan(c, Run(c, text, calls)).events) == Ids(Scan(c, text).events) + Accepted(c, calls)
    decreases |calls|
  {
    if calls != [] {
      WriteAddsAddress(c, text, calls[0].request, calls[0].now);
      RunAppends(c, Write(c, text, calls[0].request, calls[0].now).1, calls[1..]);
      AcceptedSplits(c, calls);
    }
  }

  /** The final set of ids does not depend on the order of the writes. */
  lemma OrderDoesNotMatter(c: Codec, text: string, calls: seq<Call>, shuffled: seq<Call>)
    requires Canonical(c) && Clean(c, text) && multiset(calls) == multiset(shuffled)
    ensures Ids(Scan(c, Run(c, text, calls)).events) == Ids(Scan(c, Run(c, text, shuffled)).events)
  {
    RunAppends(c, text, calls);
    RunAppends(c, text, shuffled);
    forall call ensures call in calls <==> call in shuffled {
      assert call in multiset(calls) <==> call in multiset(shuffled);
    }
  }

  /** The first body wins: after a write, however many others write in between, writing the same identity again returns
      the first event and does not touch the file. */
  lemma FirstBodyWins(c: Codec, text: string, r: Request, now: string, between: seq<Call>, again: Request, later: string)
    requires Canonical(c) && Clean(c, text) && Objection(r).None? && Objection(again).None?
    requires Address(c, again) == Address(c, r)
    ensures var (first, text') := Write(c, text, r, now);
            var text'' := Run(c, text', between);
            Write(c, text'', again, later) == (first, text'')
  {
    var (first, text') := Write(c, text, r, now);
    WriteAppends(c, text, r, now);
    RunAppends(c, text', between);
    var events := Scan(c, Run(c, text', between)).events;
    EveryScanIsVerified(c, Lines(Run(c, text', between)));
    assert first.event in Scan(c, text').events;
    assert first.event in events;
    VerifiedLookup(c, events, first.event);
  }

  // ---- which events share an address -------------------------------------------------------------------------

  ghost predicate Injective(c: Codec) {
    forall x, y :: c.hash(x) == c.hash(y) ==> x == y
  }

  predicate NoColon(s: string) { forall i :: 0 <= i < |s| ==> s[i] != ':' }

  /** Up to the first colon, and after it. */
  lemma SplitAtColon(a: string, x: string, b: string, y: string)
    requires NoColon(a) && NoColon(b) && a + ":" + x == b + ":" + y
    ensures a == b && x == y
  {
    var whole := a + ":" + x;
    assert whole[|a|] == ':' && (b + ":" + y)[|b|] == ':';
    assert a == whole[..|a|] && b == whole[..|b|];
    assert x == whole[|a| + 1..] && y == whole[|b| + 1..];
  }

  lemma IdentityParts(source: string, task: string, kind: string, key: Option<string>)
    ensures Identity(source, task, kind, key) == source + ":" + (task + ":" + (kind + ":" + OrEmpty(key)))
  {
  }

  predicate SameParts(r: Request, r': Request) {
    r.source == r'.source && r.task == r'.task && r.kind == r'.kind && OrEmpty(Key(r)) == OrEmpty(Key(r'))
  }

  /** The text between two colons of `key` (or from its start to a colon) is an event kind. */
  predicate KindAt(key: string, i: nat, j: nat)
    requires i <= j < |key|
  {
    key[j] == ':' && key[i..j] in KINDS && (i == 0 || key[i - 1] == ':')
  }

  predicate EmbedsKind(key: string) {
    exists i, j :: 0 <= i <= j < |key| && KindAt(key, i, j)
  }

  /** A colon of the source at which it can be cut without leaving the reserved name. */
  predicate CutsAt(source: string, i: nat)
    requires i < |source|
  {
    source[i] == ':' && source[..i] != BACKFILL
  }

  /** The separator is not escaped, so the boundary can be moved: within the source, within the task, or into the key. */
  predicate Movable(r: Request) {
    || (exists i :: 0 <= i < |r.source| && CutsAt(r.source, i))
    || !NoColon(r.task)
    || EmbedsKind(OrEmpty(Key(r)))
  }

  lemma KindsHaveNoColon(kind: string)
    requires kind in KINDS
    ensures NoColon(kind)
  {
  }

  lemma FirstColon(s: string) returns (head: string, tail: string)
    requires !NoColon(s)
    ensures NoColon(head) && s == head + ":" + tail
  {
    if s[0] == ':' {
      head, tail := "", s[1..];
    } else {
      head, tail := FirstColon(s[1..]);
      head := [s[0]] + head;
    }
  }

  lemma KindInside(key: string, before: string, kind: string, rest: string)
    requires kind in KINDS
    requires key == kind + ":" + rest || key == before + ":" + kind + ":" + rest
    ensures EmbedsKind(key)
  {
    if key == kind + ":" + rest {
      assert key[0..|kind|] == kind;
      assert KindAt(key, 0, |kind|);
    } else {
      var i := |before| + 1;
      assert key[i..i + |kind|] == kind;
      assert KindAt(key, i, i + |kind|);
    }
  }

  /** A task that swallows more than its own part leaves a kind inside the key. */
  lemma LongerTask(task: string, kind: string, key: string, task': string, kind': string, key': string)
    requires NoColon(task) && kind in KINDS && kind' in KINDS
    requires task + ":" + (kind + ":" + key) == task' + ":" + (kind' + ":" + key')
    ensures (task' == task && kind' == kind && key' == key) || EmbedsKind(key)
  {
    KindsHaveNoColon(kind);
    KindsHaveNoColon(kind');
    if NoColon(task') {
      SplitAtColon(task, kind + ":" + key, task', kind' + ":" + key');
      SplitAtColon(kind, key, kind', key');
    } else {
      var head, tail := FirstColon(task');
      assert task' + ":" + (kind' + ":" + key') == head + ":" + (tail + ":" + (kind' + ":" + key'));
      SplitAtColon(task, kind + ":" + key, head, tail + ":" + (kind' + ":" + key'));
      SwallowedKind(kind, key, tail, kind', key');
    }
  }

  lemma SwallowedKind(kind: string, key: string, tail: string, kind': string, key': string)
    requires NoColon(kind) && kind' in KINDS
    requires kind + ":" + key == tail + ":" + (kind' + ":" + key')
    ensures EmbedsKind(key)
  {
    if NoColon(tail) {
      SplitAtColon(kind, key, tail, kind' + ":" + key');
      KindInside(key, "", kind', key');
    } else {
      var head, more := FirstColon(tail);
      assert tail + ":" + (kind' + ":" + key') == head + ":" + (more + ":" + kind' + ":" + key');
      SplitAtColon(kind, key, head, more + ":" + kind' + ":" + key');
      KindInside(key, more, kind', key');
    }
  }

  /** The same for a whole identity whose source and task hold no colon. */
  lemma PlainParts(source: string, task: string, kind: string, key: string, source': string, task': string, kind': string, key': string)
    requires NoColon(source) && NoColon(task) && kind in KINDS && kind' in KINDS
    requires source + ":" + (task + ":" + (kind + ":" + key)) == source' + ":" + (task' + ":" + (kind' + ":" + key'))
    ensures (source' == source && task' == task && kind' == kind && key' == key) || EmbedsKind(key)
  {
    if NoColon(source') {
      SplitAtColon(source, task + ":" + (kind + ":" + key), source', task' + ":" + (kind' + ":" + key'));
      LongerTask(task, kind, key, task', kind', key');
    } else {
      var head, tail := FirstColon(source');
      var longer := tail + ":" + task';
      assert source' + ":" + (task' + ":" + (kind' + ":" + key')) == head + ":" + (longer + ":" + (kind' + ":" + key'));
      SplitAtColon(source, task + ":" + (kind + ":" + key), head, longer + ":" + (kind' + ":" + key'));
      LongerTask(task, kind, key, longer, kind', key');
      assert longer[|tail|] == ':';
    }
  }

  /** A source that can be cut at the reserved name alone. */
  lemma AfterBackfill(source: string) returns (rest: string)
    requires !NoColon(source) && forall i :: 0 <= i < |source| ==> !CutsAt(source, i)
    ensures source == BACKFILL + ":" + rest && NoColon(rest)
  {
    var head, tail := FirstColon(source);
    assert source[|head|] == ':' && source[..|head|] == head;
    assert !CutsAt(source, |head|);
    rest := tail;
    forall i | 0 <= i < |rest| ensures rest[i] != ':' {
      var at := |head| + 1 + i;
      assert source[at] == rest[i];
      assert |source[..at]| > |BACKFILL|;
      assert !CutsAt(source, at);
    }
  }

  /** A request whose boundaries cannot be moved shares its address with an accepted request exactly when their source,
      task, kind and key agree: whatever colons the other one holds. */
  lemma SameAddressIff(c: Codec, r: Request, r': Request)
    requires Injective(c) && Objection(r).None? && Objection(r').None? && !Movable(r)
    ensures Address(c, r) == Address(c, r') <==> SameParts(r, r')
  {
    if Address(c, r) == Address(c, r') {
      IdentityParts(r.source, r.task, r.kind, Key(r));
      IdentityParts(r'.source, r'.task, r'.kind, Key(r'));
      if NoColon(r.source) {
        PlainParts(r.source, r.task, r.kind, OrEmpty(Key(r)), r'.source, r'.task, r'.kind, OrEmpty(Key(r')));
      } else {
        BackfilledParts(r.source, r.task, r.kind, OrEmpty(Key(r)), r'.source, r'.task, r'.kind, OrEmpty(Key(r')));
      }
    }
  }

  lemma BackfilledParts(source: string, task: string, kind: string, key: string, source': string, task': string, kind': string, key': string)
    requires !NoColon(source) && (forall i :: 0 <= i < |source| ==> !CutsAt(source, i)) && NoColon(task) && !EmbedsKind(key)
    requires kind in KINDS && kind' in KINDS && source' != BACKFILL
    requires source + ":" + (task + ":" + (kind + ":" + key)) == source' + ":" + (task' + ":" + (kind' + ":" + key'))
    ensures source' == source && task' == task && kind' == kind && key' == key
  {
    var rest := AfterBackfill(source);
    var (mine, other) := (task + ":" + (kind + ":" + key), task' + ":" + (kind' + ":" + key'));
    assert NoColon(BACKFILL);
    assert source + ":" + mine == BACKFILL + ":" + (rest + ":" + mine);
    if NoColon(source') {
      SplitAtColon(BACKFILL, rest + ":" + mine, source', other);
      assert false;
    } else {
      var head, tail := FirstColon(source');
      assert source' + ":" + other == head + ":" + (tail + ":" + other);
      SplitAtColon(BACKFILL, rest + ":" + mine, head, tail + ":" + other);
      PlainParts(rest, task, kind, key, tail, task', kind', key');
    }
  }

  lemma ColonInSource(c: Codec, r: Request, i: nat)
    requires i < |r.source| && r.source[i] == ':'
    ensures Address(c, r.(source := r.source[..i], task := r.source[i + 1..] + ":" + r.task)) == Address(c, r)
  {
    assert r.source == r.source[..i] + ":" + r.source[i + 1..];
    assert Identity(r.source[..i], r.source[i + 1..] + ":" + r.task, r.kind, Key(r)) == Identity(r.source, r.task, r.kind, Key(r));
  }

  lemma ColonInTask(c: Codec, r: Request, i: nat)
    requires i < |r.task| && r.task[i] == ':'
    ensures Address(c, r.(source := r.source + ":" + r.task[..i], task := r.task[i + 1..])) == Address(c, r)
  {
    assert r.task == r.task[..i] + ":" + r.task[i + 1..];
    assert Identity(r.source + ":" + r.task[..i], r.task[i + 1..], r.kind, Key(r)) == Identity(r.source, r.task, r.kind, Key(r));
  }

  lemma KeyParts(key: string, i: nat, j: nat)
    requires i <= j < |key| && KindAt(key, i, j)
    ensures i == 0 ==> key == key[i..j] + ":" + key[j + 1..]
    ensures i > 0 ==> key == key[..i - 1] + ":" + key[i..j] + ":" + key[j + 1..]
  {
  }

  /** The same text, with the task reaching into the key. */
  lemma TaskReaches(source: string, task: string, kind: string, before: string, kind': string, rest: string)
    ensures Identity(source, task + ":" + kind, kind', Some(rest)) == Identity(source, task, kind, Some(kind' + ":" + rest))
    ensures Identity(source, task + ":" + kind + ":" + before, kind', Some(rest)) ==
            Identity(source, task, kind, Some(before + ":" + kind' + ":" + rest))
  {
    var head, tail := source + ":" + task + ":" + kind, kind' + ":" + rest;
    assert source + ":" + (task + ":" + kind) == head;
    assert source + ":" + (task + ":" + kind + ":" + before) == head + ":" + before;
    assert head + ":" + kind' + ":" + rest == head + ":" + tail;
    assert head + ":" + before + ":" + kind' + ":" + rest == head + ":" + (before + ":" + kind' + ":" + rest);
  }

  lemma KindInKey(c: Codec, r: Request, i: nat, j: nat) returns (twin: Request)
    requires Objection(r).None? && i <= j < |OrEmpty(Key(r))| && KindAt(OrEmpty(Key(r)), i, j)
    ensures Objection(twin).None? && Address(c, twin) == Address(c, r) && |twin.task| > |r.task|
  {
    var key := OrEmpty(Key(r));
    var kind, before, rest := key[i..j], if i == 0 then "" else key[..i - 1], key[j + 1..];
    twin := Request(r.source, if i == 0 then r.task + ":" + r.kind else r.task + ":" + r.kind + ":" + before,
                    kind, Some(rest), Some("pr"), Some("today"), r.payload);
    KeyParts(key, i, j);
    TaskReaches(r.source, r.task, r.kind, before, kind, rest);
    assert Identity(r.source, r.task, r.kind, Some(key)) == Identity(r.source, r.task, r.kind, Key(r));
  }

  /** An accepted request whose boundaries can be moved shares its address with another accepted request, so the first of
      the two to be written hides the other. */
  lemma ColonsCollide(c: Codec, r: Request) returns (twin: Request)
    requires Objection(r).None? && Movable(r)
    ensures Objection(twin).None? && Address(c, twin) == Address(c, r) && !SameParts(twin, r)
  {
    if i :| 0 <= i < |r.source| && CutsAt(r.source, i) {
      ColonInSource(c, r, i);
      twin := r.(source := r.source[..i], task := r.source[i + 1..] + ":" + r.task);
      assert |twin.task| > |r.task|;
    } else if i: nat :| i < |r.task| && r.task[i] == ':' {
      ColonInTask(c, r, i);
      twin := r.(source := r.source + ":" + r.task[..i], task := r.task[i + 1..]);
      assert twin.source[|r.source|] == ':';
      assert |twin.source| > |r.source|;
    } else {
      var i, j :| 0 <= i <= j < |OrEmpty(Key(r))| && KindAt(OrEmpty(Key(r)), i, j);
      twin := KindInKey(c, r, i, j);
    }
  }

  ghost predicate Collides(c: Codec, r: Request) {
    exists twin :: Objection(twin).None? && Address(c, twin) == Address(c, r) && !SameParts(twin, r)
  }

  /** An accepted request has an accepted twin at its address exactly when one of its boundaries can be moved: at a colon of
      its source (but not to leave the reserved name), at a colon of its task, or at a kind inside its key. */
  lemma CollidesIff(c: Codec, r: Request)
    requires Injective(c) && Objection(r).None?
    ensures Collides(c, r) <==> Movable(r)
  {
    if Movable(r) {
      var twin := ColonsCollide(c, r);
    } else {
      forall twin | Objection(twin).None? && Address(c, twin) == Address(c, r) ensures SameParts(twin, r) {
        SameAddressIff(c, r, twin);
      }
    }
  }

  /** A plain source and a plain task are not enough: the ref may begin with a kind. */
  lemma KindInRefCollides(c: Codec)
    ensures var r := Request("a", "b", "land", Some("land:x"), Some("pr"), None, None);
            var twin := Request("a", "b:land", "land", Some("x"), Some("pr"), None, None);
            && NoColon(r.source) && NoColon(r.task) && Objection(r).None? && Objection(twin).None?
            && Address(c, r) == Address(c, twin) && EventOf(c, r, "").task != EventOf(c, twin, "").task
  {
    assert "a" + ":" + "b" + ":" + "land" + ":" + "land:x" == "a" + ":" + "b:land" + ":" + "land" + ":" + "x";
  }

  /** Validation treats an empty `ref` as absent and insists on `occurred_at`; the address treats it as present and ignores
      the time.  Two times are told apart exactly when `ref` is not given at all. */
  lemma TimeIsAddressedIff(c: Codec, r: Request, t: string, t': string)
    requires Injective(c) && t != t'
    ensures Address(c, r.(occurredAt := Some(t))) != Address(c, r.(occurredAt := Some(t'))) <==> r.ref.None?
  {
    var (a, b) := (r.(occurredAt := Some(t)), r.(occurredAt := Some(t')));
    if r.ref.None? {
      var head := r.source + ":" + r.task + ":" + r.kind + ":";
      assert Identity(a.source, a.task, a.kind, Key(a)) == head + t && Identity(b.source, b.task, b.kind, Key(b)) == head + t';
      assert (head + t)[|head|..] == t && (head + t')[|head|..] == t';
    }
  }

  /** Two accepted events at different times with an empty `ref`: the second is not recorded. */
  lemma EmptyRefHidesTheSecond(c: Codec, r: Request, now: string, later: string)
    requires Canonical(c) && Objection(r).None? && r.ref == Some("")
    requires r.occurredAt == Some("monday")
    ensures var (first, text') := Write(c, "", r, now);
            var second := r.(occurredAt := Some("tuesday"));
            Objection(second).None? && first.Stored? && Write(c, text', second, later) == (first, text')
            && first.event.occurredAt != second.occurredAt
  {
    var second := r.(occurredAt := Some("tuesday"));
    var text' := Write(c, "", r, now).1;
    assert Lines("") == [""];
    assert [""][..0] == [];
    assert ScanLines(c, [""]) == ScanLine(c, ScanLines(c, []), "");
    FirstBodyWins(c, "", r, now, [], second, later);
    assert Run(c, text', []) == text';
  }
}
