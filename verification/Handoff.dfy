/**
 The handoff note as a prompt block: equal neighbours collapsed into one, the newest blocks that fit kept, and the whole
 never longer than the cap.
 */
module Handoff {
  import opened Wrappers

  const PROMPT_BLOCK_CAP := 4000

  const PREAMBLE := "Run handoff note (written by earlier stages of this same run — trust what it records and do NOT re-investigate it):"

  const MARKER := "\n[handoff note truncated]"

  datatype Entry = Entry(
    stage: Option<string>,
    taskId: Option<string>,
    decisions: seq<string>,
    preExistingFailures: seq<string>,
    validationCommands: seq<string>,
    evidencePath: Option<string>,
    recordedAt: string)

  /** `_entry_key`: everything but the time. */
  function KeyOf(e: Entry): Entry { e.(recordedAt := "") }

  predicate Truthy(s: Option<string>) { s.Some? && s.value != "" }

  predicate MatchesTask(e: Entry, taskId: Option<string>) {
    taskId.None? || !Truthy(e.taskId) || e.taskId == taskId
  }

  function Filtered(entries: seq<Entry>, taskId: Option<string>): seq<Entry> {
    if entries == [] then []
    else
      var last := entries[|entries| - 1];
      Filtered(entries[..|entries| - 1], taskId) + (if MatchesTask(last, taskId) then [last] else [])
  }

  // ---- collapsing --------------------------------------------------------------------------------------------

  /** An entry and how many times in a row it was recorded. */
  datatype Repeated = Repeated(entry: Entry, count: nat)

  function AddOne(collapsed: seq<Repeated>, e: Entry): seq<Repeated> {
    var n := |collapsed| - 1;
    if n >= 0 && KeyOf(collapsed[n].entry) == KeyOf(e)
    then collapsed[..n] + [Repeated(collapsed[n].entry, collapsed[n].count + 1)]
    else collapsed + [Repeated(e, 1)]
  }

  function Collapse(entries: seq<Entry>): seq<Repeated> {
    if entries == [] then [] else AddOne(Collapse(entries[..|entries| - 1]), entries[|entries| - 1])
  }

  function Times(key: Entry, n: nat): seq<Entry> {
    if n == 0 then [] else Times(key, n - 1) + [key]
  }

  /** The entries, up to their times, that collapsed blocks stand for. */
  function Expand(collapsed: seq<Repeated>): seq<Entry> {
    if collapsed == [] then []
    else
      var last := collapsed[|collapsed| - 1];
      Expand(collapsed[..|collapsed| - 1]) + Times(KeyOf(last.entry), last.count)
  }

  function Keys(entries: seq<Entry>): seq<Entry> {
    if entries == [] then [] else Keys(entries[..|entries| - 1]) + [KeyOf(entries[|entries| - 1])]
  }

  /** Nothing is lost by collapsing but the times, and no two neighbours could be collapsed further. */
  lemma {:induction false} CollapseRoundTrip(entries: seq<Entry>)
    ensures Expand(Collapse(entries)) == Keys(entries)
    ensures forall i :: 0 <= i < |Collapse(entries)| ==> Collapse(entries)[i].count > 0
    ensures forall i :: 0 < i < |Collapse(entries)| ==>
      KeyOf(Collapse(entries)[i - 1].entry) != KeyOf(Collapse(entries)[i].entry)
  {
    if entries != [] {
      var (init, e) := (entries[..|entries| - 1], entries[|entries| - 1]);
      CollapseRoundTrip(init);
      AddOneExpands(Collapse(init), e);
    }
  }

  lemma CollapseIsEmptyIff(entries: seq<Entry>)
    ensures Collapse(entries) == [] <==> entries == []
  {
  }

  lemma AddOneExpands(collapsed: seq<Repeated>, e: Entry)
    requires forall i :: 0 <= i < |collapsed| ==> collapsed[i].count > 0
    requires forall i :: 0 < i < |collapsed| ==> KeyOf(collapsed[i - 1].entry) != KeyOf(collapsed[i].entry)
    ensures Expand(AddOne(collapsed, e)) == Expand(collapsed) + [KeyOf(e)]
    ensures forall i :: 0 <= i < |AddOne(collapsed, e)| ==> AddOne(collapsed, e)[i].count > 0
    ensures forall i :: 0 < i < |AddOne(collapsed, e)| ==>
      KeyOf(AddOne(collapsed, e)[i - 1].entry) != KeyOf(AddOne(collapsed, e)[i].entry)
  {
    var n := |collapsed| - 1;
    if n >= 0 && KeyOf(collapsed[n].entry) == KeyOf(e) {
      assert AddOne(collapsed, e)[..n] == collapsed[..n];
    } else {
      assert AddOne(collapsed, e)[..|collapsed|] == collapsed;
      assert Times(KeyOf(e), 1) == Times(KeyOf(e), 0) + [KeyOf(e)] == [KeyOf(e)];
    }
  }

  // ---- blocks ------------------------------------------------------------------------------------------------

  function Join(parts: seq<string>, separator: string): string {
    if parts == [] then ""
    else if |parts| == 1 then parts[0]
    else parts[0] + separator + Join(parts[1..], separator)
  }

  function Decimal(n: nat): string {
    var digit := ["0123456789"[n % 10]];
    if n < 10 then digit else Decimal(n / 10) + digit
  }

  function FormatField(name: string, values: seq<string>): string {
    if values == [] then name + ": (none)" else name + ": " + Join(values, ", ")
  }

  function FormatOptional(name: string, value: Option<string>): string {
    if Truthy(value) then name + ": " + value.value else name + ": (none)"
  }

  function RenderBlock(e: Entry, count: nat): string {
    var header := "[stage: " + (if e.stage.Some? then e.stage.value else "unknown") + "]"
      + (if count > 1 then " (repeated " + Decimal(count) + " times)" else "");
    Join([header,
          FormatField("decisions", e.decisions),
          FormatField("pre-existing failures", e.preExistingFailures),
          FormatField("validation commands", e.validationCommands),
          FormatOptional("evidence path", e.evidencePath)], "\n")
  }

  function Blocks(collapsed: seq<Repeated>): (blocks: seq<string>)
    ensures |blocks| == |collapsed|
    ensures forall i :: 0 <= i < |blocks| ==> blocks[i] == RenderBlock(collapsed[i].entry, collapsed[i].count)
  {
    seq(|collapsed|, i requires 0 <= i < |collapsed| => RenderBlock(collapsed[i].entry, collapsed[i].count))
  }

  function Text(blocks: seq<string>): string { PREAMBLE + "\n" + Join(blocks, "\n") }

  predicate Fits(blocks: seq<string>) { |Text(blocks)| <= PROMPT_BLOCK_CAP }

  lemma {:induction false} OlderOnlyAdds(blocks: seq<string>, k: nat, j: nat)
    requires k <= j < |blocks|
    ensures |Text(blocks[j..])| <= |Text(blocks[k..])|
    decreases j - k
  {
    if k < j {
      OlderOnlyAdds(blocks, k + 1, j);
      assert blocks[k..][1..] == blocks[k + 1..];
    }
  }

  /** Where the kept blocks start, by definition: the longest run of newest blocks that fits, or the newest block alone. */
  ghost predicate KeptFrom(blocks: seq<string>, k: nat) {
    && k < |blocks|
    && (Fits(blocks[k..]) || k == |blocks| - 1)
    && forall j :: 0 <= j < k ==> !Fits(blocks[j..])
  }

  /** Cut to the cap with the marker inside it. */
  function Capped(text: string): (capped: string)
    ensures |capped| <= PROMPT_BLOCK_CAP
    ensures |text| <= PROMPT_BLOCK_CAP ==> capped == text
    ensures |text| > PROMPT_BLOCK_CAP ==>
      |capped| == PROMPT_BLOCK_CAP && capped == text[..PROMPT_BLOCK_CAP - |MARKER|] + MARKER
  {
    if |text| <= PROMPT_BLOCK_CAP then text
    else
      var truncated := text[..PROMPT_BLOCK_CAP];
      (if |truncated| + |MARKER| > PROMPT_BLOCK_CAP then truncated[..PROMPT_BLOCK_CAP - |MARKER|] else truncated) + MARKER
  }

  method FilterEntries(entries: seq<Entry>, taskId: Option<string>) returns (filtered: seq<Entry>)
    ensures filtered == Filtered(entries, taskId)
  {
    filtered := [];
    var i := 0;
    while i < |entries|
      invariant i <= |entries| && filtered == Filtered(entries[..i], taskId)
    {
      assert entries[..i + 1][..i] == entries[..i];
      if MatchesTask(entries[i], taskId) {
        filtered := filtered + [entries[i]];
      }
      i := i + 1;
    }
    assert entries[..i] == entries;
  }

  method CollapseEntries(entries: seq<Entry>) returns (collapsed: seq<Repeated>)
    ensures collapsed == Collapse(entries)
  {
    collapsed := [];
    var i := 0;
    while i < |entries|
      invariant i <= |entries| && collapsed == Collapse(entries[..i])
    {
      assert entries[..i + 1][..i] == entries[..i];
      var e, n := entries[i], |collapsed| - 1;
      if n >= 0 && KeyOf(collapsed[n].entry) == KeyOf(e) {
        collapsed := collapsed[..n] + [Repeated(collapsed[n].entry, collapsed[n].count + 1)];
      } else {
        collapsed := collapsed + [Repeated(e, 1)];
      }
      i := i + 1;
    }
    assert entries[..i] == entries;
  }

  /** From the newest block backwards, until one more would not fit. */
  method SelectNewest(blocks: seq<string>) returns (selected: seq<string>)
    requires blocks != []
    ensures exists k: nat :: KeptFrom(blocks, k) && selected == blocks[k..]
  {
    var k := |blocks| - 1;
    selected := [blocks[k]];
    while k > 0
      invariant 0 <= k < |blocks| && selected == blocks[k..]
      invariant Fits(blocks[k..]) || k == |blocks| - 1
    {
      var candidate := [blocks[k - 1]] + selected;
      assert candidate == blocks[k - 1..];
      if |PREAMBLE + "\n" + Join(candidate, "\n")| > PROMPT_BLOCK_CAP {
        forall j | 0 <= j < k ensures !Fits(blocks[j..]) {
          OlderOnlyAdds(blocks, j, k - 1);
        }
        return;
      }
      selected := candidate;
      k := k - 1;
    }
  }

  /** For every note: at most the cap; the preamble alone when nothing matches; otherwise the preamble and the longest run of
      newest blocks that fits, or the newest block alone, cut to the cap with the marker at its end. */
  method RenderPromptBlock(entries: seq<Entry>, taskId: Option<string>) returns (rendered: string)
    ensures |rendered| <= PROMPT_BLOCK_CAP
    ensures var blocks := Blocks(Collapse(Filtered(entries, taskId)));
            if blocks == [] then rendered == PREAMBLE
            else exists k: nat :: KeptFrom(blocks, k) && rendered == Capped(Text(blocks[k..]))
  {
    var filtered := FilterEntries(entries, taskId);
    var collapsed := CollapseEntries(filtered);
    if filtered == [] {
      return PREAMBLE;
    }
    CollapseIsEmptyIff(filtered);
    var blocks := Blocks(collapsed);
    var selected := SelectNewest(blocks);
    rendered := Capped(Text(selected));
  }

  // ---- what the block says -----------------------------------------------------------------------------------

  /** An entry belongs to the task unless both name a task and not the same. */
  lemma {:induction false} FilteredIff(entries: seq<Entry>, taskId: Option<string>, e: Entry)
    ensures e in Filtered(entries, taskId) <==>
            e in entries && !(taskId.Some? && e.taskId.Some? && e.taskId.value != "" && e.taskId.value != taskId.value)
  {
    if entries != [] {
      FilteredIff(entries[..|entries| - 1], taskId, e);
      assert entries == entries[..|entries| - 1] + [entries[|entries| - 1]];
    }
  }

  lemma FilteredLast(entries: seq<Entry>, init: seq<Entry>, e: Entry, taskId: Option<string>)
    requires entries == init + [e]
    ensures Filtered(entries, taskId) == Filtered(init, taskId) + (if MatchesTask(e, taskId) then [e] else [])
  {
    assert entries[..|entries| - 1] == init;
  }

  /** Filtering keeps the order of the note. */
  lemma {:induction false} FilteredKeepsOrder(a: seq<Entry>, b: seq<Entry>, entries: seq<Entry>, taskId: Option<string>)
    requires entries == a + b
    ensures Filtered(entries, taskId) == Filtered(a, taskId) + Filtered(b, taskId)
    decreases |b|
  {
    if b == [] {
      assert entries == a;
    } else {
      var init, e := b[..|b| - 1], b[|b| - 1];
      var front := a + init;
      assert entries == front + [e];
      FilteredKeepsOrder(a, init, front, taskId);
      FilteredLast(entries, front, e, taskId);
      FilteredLast(b, init, e, taskId);
      Joined(Filtered(entries, taskId), Filtered(front, taskId), Filtered(a, taskId), Filtered(init, taskId), Filtered(b, taskId),
             if MatchesTask(e, taskId) then [e] else []);
    }
  }

  /** Two entries are the same exactly when they agree on everything but the time. */
  lemma SameKeyIff(a: Entry, b: Entry)
    ensures KeyOf(a) == KeyOf(b) <==>
      && a.stage == b.stage && a.taskId == b.taskId && a.decisions == b.decisions
      && a.preExistingFailures == b.preExistingFailures && a.validationCommands == b.validationCommands
      && a.evidencePath == b.evidencePath
  {
  }

  /** How many entries the first `n` blocks stand for. */
  function Before(collapsed: seq<Repeated>, n: nat): nat
    requires n <= |collapsed|
  {
    if n == 0 then 0 else Before(collapsed, n - 1) + collapsed[n - 1].count
  }

  lemma {:induction false} BeforeAgrees(a: seq<Repeated>, b: seq<Repeated>, n: nat)
    requires n <= |a| && n <= |b| && forall i :: 0 <= i < n ==> a[i].count == b[i].count
    ensures Before(a, n) == Before(b, n)
  {
    if n > 0 { BeforeAgrees(a, b, n - 1); }
  }

  /** The block stands for the first entry of its run. */
  ghost predicate StartsItsRun(collapsed: seq<Repeated>, entries: seq<Entry>, i: nat)
    requires i < |collapsed|
  {
    Before(collapsed, i) < |entries| && collapsed[i].entry == entries[Before(collapsed, i)]
  }

  lemma StartsLater(collapsed: seq<Repeated>, entries: seq<Entry>, after: seq<Repeated>, e: Entry, i: nat)
    requires i < |collapsed| && i < |after| && StartsItsRun(collapsed, entries, i) && after[i].entry == collapsed[i].entry
    requires forall j :: 0 <= j < i ==> after[j].count == collapsed[j].count
    ensures StartsItsRun(after, entries + [e], i)
  {
    BeforeAgrees(collapsed, after, i);
  }

  lemma BeforeLast(collapsed: seq<Repeated>)
    requires collapsed != []
    ensures Before(collapsed, |collapsed|) == Before(collapsed, |collapsed| - 1) + collapsed[|collapsed| - 1].count
  {
  }

  lemma AddOneStarts(collapsed: seq<Repeated>, entries: seq<Entry>, e: Entry)
    requires Before(collapsed, |collapsed|) == |entries|
    requires forall i :: 0 <= i < |collapsed| ==> StartsItsRun(collapsed, entries, i)
    ensures var after := AddOne(collapsed, e);
            && Before(after, |after|) == |entries| + 1
            && forall i :: 0 <= i < |after| ==> StartsItsRun(after, entries + [e], i)
  {
    var after, n := AddOne(collapsed, e), |collapsed|;
    forall i | 0 <= i < n ensures StartsItsRun(after, entries + [e], i) {
      StartsLater(collapsed, entries, after, e, i);
    }
    BeforeLast(after);
    if |after| == n {
      BeforeLast(collapsed);
      BeforeAgrees(collapsed, after, n - 1);
    } else {
      BeforeAgrees(collapsed, after, n);
      assert StartsItsRun(after, entries + [e], n);
    }
  }

  /** Each block stands for the first entry of its run, time included, and the runs make up all the entries. */
  lemma {:induction false} BlockIsTheFirstOfItsRun(entries: seq<Entry>)
    ensures Before(Collapse(entries), |Collapse(entries)|) == |entries|
    ensures forall i :: 0 <= i < |Collapse(entries)| ==> StartsItsRun(Collapse(entries), entries, i)
  {
    if entries != [] {
      var init, e := entries[..|entries| - 1], entries[|entries| - 1];
      BlockIsTheFirstOfItsRun(init);
      AddOneStarts(Collapse(init), init, e);
      assert entries == init + [e];
    }
  }

  lemma OccursBetween(a: string, part: string, b: string)
    ensures Occurs(part, a + part + b)
  {
    assert StandsAt(part, a + part + b, |a|);
  }

  lemma OccursInside(part: string, mid: string, whole: string)
    requires Occurs(part, mid) && Occurs(mid, whole)
    ensures Occurs(part, whole)
  {
    var i: nat :| StandsAt(part, mid, i);
    var j: nat :| StandsAt(mid, whole, j);
    forall k | 0 <= k < |part| ensures whole[j + i..j + i + |part|][k] == part[k] {
      assert mid[i..i + |part|][k] == mid[i + k] && whole[j..j + |mid|][i + k] == whole[j + i + k];
    }
    assert StandsAt(part, whole, j + i);
  }

  lemma {:induction false} JoinShows(parts: seq<string>, separator: string, k: nat)
    requires k < |parts|
    ensures Occurs(parts[k], Join(parts, separator))
  {
    if |parts| == 1 {
      assert parts[0] == "" + parts[0] + "";
      OccursBetween("", parts[0], "");
    } else if k == 0 {
      assert Join(parts, separator) == "" + parts[0] + (separator + Join(parts[1..], separator));
      OccursBetween("", parts[0], separator + Join(parts[1..], separator));
    } else {
      JoinShows(parts[1..], separator, k - 1);
      var head := parts[0] + separator;
      assert Join(parts, separator) == head + Join(parts[1..], separator) + "";
      OccursBetween(head, Join(parts[1..], separator), "");
      OccursInside(parts[k], Join(parts[1..], separator), Join(parts, separator));
    }
  }

  /** The label, and each of the values, or that there is none. */
  ghost predicate Lists(block: string, name: string, values: seq<string>) {
    if values == [] then Occurs(name + ": (none)", block)
    else Occurs(name + ": " + Join(values, ", "), block) && forall v :: v in values ==> Occurs(v, block)
  }

  lemma FieldIsListed(block: string, name: string, values: seq<string>)
    requires Occurs(FormatField(name, values), block)
    ensures Lists(block, name, values)
  {
    forall v | v in values ensures Occurs(v, block) {
      var k :| 0 <= k < |values| && values[k] == v;
      JoinShows(values, ", ", k);
      assert FormatField(name, values) == (name + ": ") + Join(values, ", ") + "";
      OccursBetween(name + ": ", Join(values, ", "), "");
      OccursInside(v, Join(values, ", "), FormatField(name, values));
      OccursInside(v, FormatField(name, values), block);
    }
  }

  /** A block shows its stage, how often the entry was recorded when that was more than once, and everything the entry lists. */
  lemma BlockShows(e: Entry, count: nat)
    ensures var block := RenderBlock(e, count);
            && Lists(block, "decisions", e.decisions)
            && Lists(block, "pre-existing failures", e.preExistingFailures)
            && Lists(block, "validation commands", e.validationCommands)
            && Lists(block, "evidence path", if Truthy(e.evidencePath) then [e.evidencePath.value] else [])
            && Occurs("[stage: " + (if e.stage.Some? then e.stage.value else "unknown") + "]", block)
            && (count > 1 ==> Occurs(" (repeated " + Decimal(count) + " times)", block))
  {
    var stage := "[stage: " + (if e.stage.Some? then e.stage.value else "unknown") + "]";
    var repeats := if count > 1 then " (repeated " + Decimal(count) + " times)" else "";
    var evidence := if Truthy(e.evidencePath) then [e.evidencePath.value] else [];
    var block := RenderBlock(e, count);
    EvidenceField(e);
    BlockHasItsLines(stage + repeats, FormatField("decisions", e.decisions), FormatField("pre-existing failures", e.preExistingFailures),
                     FormatField("validation commands", e.validationCommands), FormatField("evidence path", evidence), block);
    FieldIsListed(block, "decisions", e.decisions);
    FieldIsListed(block, "pre-existing failures", e.preExistingFailures);
    FieldIsListed(block, "validation commands", e.validationCommands);
    FieldIsListed(block, "evidence path", evidence);
    HeaderShows(stage, repeats);
    OccursInside(stage, stage + repeats, block);
    OccursInside(repeats, stage + repeats, block);
  }

  lemma EvidenceField(e: Entry)
    ensures FormatOptional("evidence path", e.evidencePath) ==
            FormatField("evidence path", if Truthy(e.evidencePath) then [e.evidencePath.value] else [])
  {
  }

  lemma HeaderShows(stage: string, repeats: string)
    ensures Occurs(stage, stage + repeats) && Occurs(repeats, stage + repeats)
  {
    assert stage + repeats == "" + stage + repeats && stage + repeats == stage + repeats + "";
    OccursBetween("", stage, repeats);
    OccursBetween(stage, repeats, "");
  }

  lemma BlockHasItsLines(a: string, b: string, c: string, d: string, e: string, block: string)
    requires block == Join([a, b, c, d, e], "\n")
    ensures Occurs(a, block) && Occurs(b, block) && Occurs(c, block) && Occurs(d, block) && Occurs(e, block)
  {
    var parts := [a, b, c, d, e];
    JoinShows(parts, "\n", 0);
    JoinShows(parts, "\n", 1);
    JoinShows(parts, "\n", 2);
    JoinShows(parts, "\n", 3);
    JoinShows(parts, "\n", 4);
  }

  function DigitValue(c: char): nat
    requires '0' <= c <= '9'
  {
    (c - '0') as nat
  }

  predicate AllDigits(s: string) { forall i :: 0 <= i < |s| ==> '0' <= s[i] <= '9' }

  function ValueOf(s: string): nat
    requires AllDigits(s)
  {
    if s == "" then 0 else 10 * ValueOf(s[..|s| - 1]) + DigitValue(s[|s| - 1])
  }

  lemma DigitIs(d: nat)
    requires d < 10
    ensures '0' <= "0123456789"[d] <= '9' && DigitValue("0123456789"[d]) == d
  {
  }

  /** The count is written as the number it is. */
  lemma {:induction false} DecimalRoundTrip(n: nat)
    ensures AllDigits(Decimal(n)) && ValueOf(Decimal(n)) == n
  {
    DigitIs(n % 10);
    var digit := ["0123456789"[n % 10]];
    if n < 10 {
      assert digit[..0] == "" && ValueOf(digit) == 10 * ValueOf("") + DigitValue(digit[0]);
    } else {
      DecimalRoundTrip(n / 10);
      assert Decimal(n)[..|Decimal(n)| - 1] == Decimal(n / 10);
    }
  }

  /** The newest entry always renders: the text ends with its block. */
  lemma {:induction false} NewestEndsTheText(blocks: seq<string>, k: nat) returns (head: string)
    requires k < |blocks|
    ensures Text(blocks[k..]) == head + blocks[|blocks| - 1]
    decreases |blocks| - k
  {
    var tail := JoinEnds(blocks[k..]);
    head := PREAMBLE + "\n" + tail;
    assert blocks[k..][|blocks[k..]| - 1] == blocks[|blocks| - 1];
  }

  lemma {:induction false} JoinEnds(parts: seq<string>) returns (head: string)
    requires parts != []
    ensures Join(parts, "\n") == head + parts[|parts| - 1]
  {
    if |parts| == 1 {
      head := "";
    } else {
      var rest := JoinEnds(parts[1..]);
      head := parts[0] + "\n" + rest;
    }
  }
}
