/** Ledger instances over one shared file: each reloads and verifies the file under the lock before it looks or writes. */
module LedgerMachine {
  import opened Wrappers
  import opened Ledger

  class File {
    var text: string

    constructor ()
      ensures text == ""
    {
      text := "";
    }
  }

  /** `task`, `kind` and `source` select events; `None` selects all. */
  predicate Selected(e: Event, task: Option<string>, kind: Option<string>, source: Option<string>) {
    (task.None? || e.task == task) && (kind.None? || e.kind == kind) && (source.None? || e.source == source)
  }

  function Select(events: seq<Event>, task: Option<string>, kind: Option<string>, source: Option<string>): seq<Event> {
    if events == [] then []
    else
      Select(events[..|events| - 1], task, kind, source)
      + (if Selected(events[|events| - 1], task, kind, source) then [events[|events| - 1]] else [])
  }

  class LedgerStore {
    const codec: Codec
    const file: File
    var events: seq<Event>

    constructor (codec: Codec, file: File)
      ensures this.codec == codec && this.file == file && events == []
    {
      this.codec, this.file := codec, file;
      events := [];
    }

    /** `_scan`. */
    method ScanFile() returns (index: seq<Event>, problems: seq<Problem>)
      ensures Scanned(index, problems) == Scan(codec, file.text) && Verified(codec, index)
    {
      var lines := Lines(file.text);
      index, problems := [], [];
      var i := 0;
      while i < |lines|
        invariant i <= |lines| && Scanned(index, problems) == ScanLines(codec, lines[..i])
      {
        assert lines[..i + 1][..i] == lines[..i];
        var line := Trim(lines[i]);
        if line != "" {
          match codec.decode(line) {
            case NotJson => problems := problems + [InvalidJson];
            case NotObject => problems := problems + [NotAnObject];
            case NoStringId => problems := problems + [MissingId];
            case Object(e) =>
              var computed := ExpectedId(codec, e);
              if e.id == "" {
                problems := problems + [MissingId];
              } else if e.id != computed {
                problems := problems + [Mismatch(e.id, computed)];
              } else {
                var previous := Lookup(index, e.id);
                if previous.None? {
                  index := index + [e];
                } else if previous.value != e {
                  problems := problems + [Conflict(e.id)];
                }
              }
          }
        }
        i := i + 1;
      }
      assert lines[..i] == lines;
      EveryScanIsVerified(codec, lines);
    }

    /** A ledger that fails verification is refused and the index is left as it was. */
    method Load() returns (problems: seq<Problem>)
      modifies this
      ensures problems == Scan(codec, file.text).problems
      ensures events == if problems == [] then Scan(codec, file.text).events else old(events)
    {
      var index;
      index, problems := ScanFile();
      if problems == [] {
        events := index;
      }
    }

    method AppendEvent(e: Event)
      modifies file
      ensures file.text == Appended(old(file.text), codec.encode(e))
    {
      if file.text != "" && file.text[|file.text| - 1] != '\n' {
        file.text := file.text + "\n";
      }
      file.text := file.text + codec.encode(e);
      file.text := file.text + "\n";
    }

    /** What is written depends on the file alone, never on what this instance had in memory, and afterwards the index in
        memory is the file's. */
    method WriteEvent(r: Request, now: string) returns (outcome: Outcome)
      requires Canonical(codec)
      modifies this, file
      ensures (outcome, file.text) == Write(codec, old(file.text), r, now)
      ensures outcome.Stored? ==> events == Scan(codec, file.text).events
      ensures !outcome.Stored? ==> events == old(events)
    {
      WriteAppends(codec, file.text, r, now);
      var objection := Objection(r);
      if objection.Some? {
        return Refused(objection.value);
      }
      var id := Address(codec, r);
      var problems := Load();
      if problems != [] {
        return Corrupt(problems);
      }
      var existing := Lookup(events, id);
      if existing.Some? {
        return Stored(existing.value);
      }
      var e := EventOf(codec, r, now);
      AppendEvent(e);
      events := events + [e];
      return Stored(e);
    }

    /** Reading answers from the whole verified file or not at all. */
    method ReadEvents(task: Option<string>, kind: Option<string>, source: Option<string>) returns (found: Option<seq<Event>>)
      modifies this
      ensures found.Some? <==> Clean(codec, file.text)
      ensures found.Some? ==> found.value == Select(Scan(codec, file.text).events, task, kind, source)
    {
      var problems := Load();
      if problems != [] {
        return None;
      }
      var selected := [];
      var i := 0;
      while i < |events|
        invariant i <= |events| && selected == Select(events[..i], task, kind, source)
      {
        assert events[..i + 1][..i] == events[..i];
        if Selected(events[i], task, kind, source) {
          selected := selected + [events[i]];
        }
        i := i + 1;
      }
      assert events[..i] == events;
      return Some(selected);
    }
  }
}
