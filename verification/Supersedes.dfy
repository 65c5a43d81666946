/** The rules digest: each subject's `supersedes` references resolved to one live decision record, or to a conflict. */
module Supersedes {
  import opened Wrappers

  datatype Entry = Entry(stem: string, number: Option<int>, subject: string, supersedes: seq<int>)

  datatype Reason = Dangling(numbers: set<int>) | Cycle | DualLive(stems: set<string>)

  datatype Rule = Live(stem: string, lineage: set<string>) | Conflict(reason: Reason)

  function Members(entries: seq<Entry>, subject: string): (members: seq<Entry>)
    ensures forall m :: m in members <==> m in entries && m.subject == subject
  {
    if entries == [] then []
    else
      var last := entries[|entries| - 1];
      Members(entries[..|entries| - 1], subject) + (if last.subject == subject then [last] else [])
  }

  function Numbers(entries: seq<Entry>): set<int> {
    set m | m in entries && m.number.Some? :: m.number.value
  }

  /** The stem each number stands for; of two records with one number the later wins. */
  function ByNumber(entries: seq<Entry>): (stems: map<int, string>)
    ensures stems.Keys == Numbers(entries)
  {
    if entries == [] then map[]
    else
      var last := entries[|entries| - 1];
      var rest := ByNumber(entries[..|entries| - 1]);
      assert entries == entries[..|entries| - 1] + [last];
      if last.number.Some? then rest[last.number.value := last.stem] else rest
  }

  function Refs(members: seq<Entry>): set<int> {
    set m, n | m in members && n in m.supersedes :: n
  }

  function Superseded(members: seq<Entry>): set<int> { Refs(members) * Numbers(members) }

  predicate IsLive(members: seq<Entry>, m: Entry) {
    m.number.None? || m.number.value !in Superseded(members)
  }

  function LiveAmong(some: seq<Entry>, members: seq<Entry>): (live: seq<Entry>)
    ensures forall m :: m in live <==> m in some && IsLive(members, m)
  {
    if some == [] then []
    else
      var last := some[|some| - 1];
      LiveAmong(some[..|some| - 1], members) + (if IsLive(members, last) then [last] else [])
  }

  function RuleFor(members: seq<Entry>, stems: map<int, string>): Rule {
    var dangling := Refs(members) - stems.Keys;
    if dangling != {} then Conflict(Dangling(dangling))
    else
      var live := LiveAmong(members, members);
      if live == [] then Conflict(Cycle)
      else if |live| > 1 then Conflict(DualLive(set m | m in live :: m.stem))
      else Live(live[0].stem, set n | n in Superseded(members) && n in stems :: stems[n])
  }

  /** One rule for every subject. */
  function Digest(entries: seq<Entry>): map<string, Rule> {
    map subject | subject in Subjects(entries) :: RuleFor(Members(entries, subject), ByNumber(entries))
  }

  lemma MembersGrow(entries: seq<Entry>, e: Entry, subject: string)
    ensures Members(entries + [e], subject) == Members(entries, subject) + (if e.subject == subject then [e] else [])
  {
    assert (entries + [e])[..|entries|] == entries;
  }

  lemma NumbersGrow(entries: seq<Entry>, e: Entry)
    ensures ByNumber(entries + [e]) == if e.number.Some? then ByNumber(entries)[e.number.value := e.stem] else ByNumber(entries)
  {
    assert (entries + [e])[..|entries|] == entries;
  }

  function Subjects(entries: seq<Entry>): set<string> { set e | e in entries :: e.subject }

  lemma SubjectsGrow(entries: seq<Entry>, e: Entry)
    ensures Subjects(entries + [e]) == Subjects(entries) + {e.subject}
  {
  }

  function GroupAt(groups: map<string, seq<Entry>>, subject: string): seq<Entry> {
    if subject in groups then groups[subject] else []
  }

  function Filed(groups: map<string, seq<Entry>>, e: Entry): map<string, seq<Entry>> {
    groups[e.subject := GroupAt(groups, e.subject) + [e]]
  }

  ghost predicate Grouped(groups: map<string, seq<Entry>>, entries: seq<Entry>) {
    groups.Keys == Subjects(entries) && forall subject :: GroupAt(groups, subject) == Members(entries, subject)
  }

  lemma GroupGrows(groups: map<string, seq<Entry>>, entries: seq<Entry>, e: Entry, subject: string)
    requires GroupAt(groups, subject) == Members(entries, subject)
    ensures GroupAt(Filed(groups, e), subject) == Members(entries + [e], subject)
  {
    MembersGrow(entries, e, subject);
    if subject != e.subject {
      assert Members(entries, subject) + [] == Members(entries, subject);
    }
  }

  lemma GroupedGrows(groups: map<string, seq<Entry>>, entries: seq<Entry>, e: Entry)
    requires Grouped(groups, entries)
    ensures Grouped(Filed(groups, e), entries + [e])
  {
    SubjectsGrow(entries, e);
    forall subject ensures GroupAt(Filed(groups, e), subject) == Members(entries + [e], subject) {
      GroupGrows(groups, entries, e, subject);
    }
  }

  method ResolveRules(entries: seq<Entry>) returns (rules: map<string, Rule>)
    ensures rules == Digest(entries)
  {
    var stems: map<int, string> := map[];
    var groups: map<string, seq<Entry>> := map[];
    var i := 0;
    while i < |entries|
      invariant i <= |entries| && stems == ByNumber(entries[..i]) && Grouped(groups, entries[..i])
    {
      var e := entries[i];
      assert entries[..i + 1] == entries[..i] + [e];
      NumbersGrow(entries[..i], e);
      GroupedGrows(groups, entries[..i], e);
      if e.number.Some? {
        stems := stems[e.number.value := e.stem];
      }
      groups := Filed(groups, e);
      i := i + 1;
    }
    assert entries[..i] == entries;
    rules := RulePerGroup(groups, stems);
    forall subject | subject in groups ensures groups[subject] == Members(entries, subject) {
      assert GroupAt(groups, subject) == Members(entries, subject);
    }
  }

  method RulePerGroup(groups: map<string, seq<Entry>>, stems: map<int, string>) returns (rules: map<string, Rule>)
    ensures rules == map subject | subject in groups :: RuleFor(groups[subject], stems)
  {
    rules := map[];
    var todo := groups.Keys;
    while todo != {}
      invariant todo <= groups.Keys && rules.Keys == groups.Keys - todo
      invariant forall subject :: subject in rules ==> rules[subject] == RuleFor(groups[subject], stems)
      decreases todo
    {
      var subject :| subject in todo;
      rules := rules[subject := RuleFor(groups[subject], stems)];
      todo := todo - {subject};
    }
  }

  // ---- chains and cycles -------------------------------------------------------------------------------------

  /** Inside the group, record `b` names record `a`. */
  predicate SupersededBy(members: seq<Entry>, a: Entry, b: Entry) {
    a in members && b in members && a.number.Some? && a.number.value in b.supersedes
  }

  /** Each record is superseded by the next. */
  ghost predicate Chain(members: seq<Entry>, p: seq<Entry>) {
    p != [] && p[0] in members && forall i :: 0 <= i < |p| - 1 ==> SupersededBy(members, p[i], p[i + 1])
  }

  ghost predicate IsCycle(members: seq<Entry>, p: seq<Entry>) {
    Chain(members, p) && |p| > 1 && p[0] == p[|p| - 1]
  }

  ghost predicate Cyclic(members: seq<Entry>) { exists p :: IsCycle(members, p) }

  /** More steps than there are records come back to one of them. */
  lemma {:induction false} Pigeonhole(p: seq<Entry>, s: set<Entry>) returns (i: nat, j: nat)
    requires (forall x :: x in p ==> x in s) && |p| > |s|
    ensures i < j < |p| && p[i] == p[j]
  {
    var n := |p| - 1;
    if k :| 0 <= k < n && p[k] == p[n] {
      i, j := k, n;
    } else {
      assert p[n] in s && |s - {p[n]}| == |s| - 1;
      assert forall k :: 0 <= k < n ==> p[k] in s - {p[n]};
      i, j := Pigeonhole(p[..n], s - {p[n]});
    }
  }

  lemma StretchIsChain(members: seq<Entry>, p: seq<Entry>, i: nat, j: nat)
    requires Chain(members, p) && i < j < |p|
    ensures Chain(members, p[i..j + 1])
  {
    var q := p[i..j + 1];
    forall k | 0 <= k < |q| - 1 ensures SupersededBy(members, q[k], q[k + 1]) {
      assert q[k] == p[i + k] && q[k + 1] == p[i + k + 1];
    }
    assert i > 0 ==> SupersededBy(members, p[i - 1], p[i - 1 + 1]);
  }

  /** Follow superseding records upwards, for `k` steps or to a record that nobody supersedes. */
  lemma {:induction false} Climb(members: seq<Entry>, m: Entry, k: nat) returns (p: seq<Entry>)
    requires m in members
    ensures Chain(members, p) && p[0] == m && (forall x :: x in p ==> x in members)
    ensures |p| == k + 1 || IsLive(members, p[|p| - 1])
    decreases k
  {
    if k == 0 || IsLive(members, m) {
      p := [m];
    } else {
      var next :| next in members && m.number.value in next.supersedes;
      var rest := Climb(members, next, k - 1);
      p := [m] + rest;
      forall i | 0 <= i < |p| - 1 ensures SupersededBy(members, p[i], p[i + 1]) {
        assert i > 0 ==> SupersededBy(members, rest[i - 1], rest[i - 1 + 1]);
      }
    }
  }

  /** In a group without cycles every record's chain ends at a live one. */
  lemma ChainEndsLive(members: seq<Entry>, m: Entry) returns (p: seq<Entry>)
    requires m in members && !Cyclic(members)
    ensures Chain(members, p) && p[0] == m && p[|p| - 1] in members && IsLive(members, p[|p| - 1])
  {
    var all := set x | x in members;
    p := Climb(members, m, |all|);
    if |p| == |all| + 1 {
      var i, j := Pigeonhole(p, all);
      StretchIsChain(members, p, i, j);
      assert IsCycle(members, p[i..j + 1]);
    }
  }

  // ---- what the rules mean -----------------------------------------------------------------------------------

  /** The i-th record is live and no other is. */
  ghost predicate OnlyLive(some: seq<Entry>, members: seq<Entry>, i: nat) {
    i < |some| && IsLive(members, some[i]) && forall j :: 0 <= j < |some| && j != i ==> !IsLive(members, some[j])
  }

  lemma {:induction false} OneLiveAt(some: seq<Entry>, members: seq<Entry>)
    ensures |LiveAmong(some, members)| == 1 <==> exists i: nat :: OnlyLive(some, members, i)
  {
    if some != [] {
      var n := |some| - 1;
      var (init, last) := (some[..n], some[n]);
      OneLiveAt(init, members);
      if IsLive(members, last) {
        if LiveAmong(init, members) != [] {
          assert LiveAmong(init, members)[0] in LiveAmong(init, members);
        }
        assert LiveAmong(init, members) == [] <==> OnlyLive(some, members, n);
      } else {
        assert forall i: nat :: OnlyLive(init, members, i) <==> OnlyLive(some, members, i);
      }
    }
  }

  /** A group is live exactly when none of its references dangles and exactly one of its records is not superseded inside
      the group; the rule names that record. */
  lemma LiveMeans(members: seq<Entry>, stems: map<int, string>)
    ensures RuleFor(members, stems).Live? <==>
      (forall m, n :: m in members && n in m.supersedes ==> n in stems) && exists i: nat :: OnlyLive(members, members, i)
    ensures RuleFor(members, stems).Live? ==>
      exists i: nat :: OnlyLive(members, members, i) && members[i].stem == RuleFor(members, stems).stem
  {
    OneLiveAt(members, members);
    var live := LiveAmong(members, members);
    if Refs(members) - stems.Keys == {} {
      forall m, n | m in members && n in m.supersedes ensures n in stems {
        assert n in Refs(members);
        assert n !in Refs(members) - stems.Keys;
      }
    }
    if |live| == 1 {
      var i: nat :| OnlyLive(members, members, i);
      assert live[0] in live && members[i] in live;
    }
  }

  /** Record `m` of the group is named by none of them. */
  ghost predicate Unsuperseded(members: seq<Entry>, m: Entry) {
    m in members && forall other, n :: other in members && n in other.supersedes ==> m.number != Some(n)
  }

  /** A record of the group names this number, and it stands for no record at all. */
  ghost predicate Dangles(members: seq<Entry>, stems: map<int, string>, n: int) {
    n !in stems && exists m :: m in members && n in m.supersedes
  }

  ghost predicate NothingDangles(members: seq<Entry>, stems: map<int, string>) {
    forall n :: !Dangles(members, stems, n)
  }

  /** Two different places of the group hold unsuperseded records. */
  ghost predicate TwoUnsuperseded(members: seq<Entry>) {
    exists i, j :: 0 <= i < j < |members| && Unsuperseded(members, members[i]) && Unsuperseded(members, members[j])
  }

  lemma LiveIsUnsuperseded(members: seq<Entry>, m: Entry)
    requires m in members
    ensures IsLive(members, m) <==> Unsuperseded(members, m)
  {
    if m.number.Some? && IsLive(members, m) {
      assert m.number.value in Numbers(members);
      forall other, n | other in members && n in other.supersedes ensures m.number != Some(n) {
        assert n in Refs(members);
      }
    }
  }

  lemma DanglingAre(members: seq<Entry>, stems: map<int, string>, n: int)
    ensures n in Refs(members) - stems.Keys <==> Dangles(members, stems, n)
  {
  }

  ghost predicate TwoLive(some: seq<Entry>, members: seq<Entry>) {
    exists i, j :: 0 <= i < j < |some| && IsLive(members, some[i]) && IsLive(members, some[j])
  }

  lemma OneMoreLive(init: seq<Entry>, last: Entry, members: seq<Entry>)
    ensures TwoLive(init + [last], members) <==>
            TwoLive(init, members) || (IsLive(members, last) && exists m :: m in init && IsLive(members, m))
  {
    var all := init + [last];
    if i, j :| 0 <= i < j < |all| && IsLive(members, all[i]) && IsLive(members, all[j]) {
      assert i < |init| && init[i] == all[i] && init[i] in init;
      assert j < |init| ==> init[j] == all[j];
    }
    if i, j :| 0 <= i < j < |init| && IsLive(members, init[i]) && IsLive(members, init[j]) {
      assert all[i] == init[i] && all[j] == init[j];
    }
    if IsLive(members, last) && exists m :: m in init && IsLive(members, m) {
      var i :| 0 <= i < |init| && IsLive(members, init[i]);
      assert all[i] == init[i] && all[|init|] == last;
    }
  }

  lemma {:induction false} ManyLive(some: seq<Entry>, members: seq<Entry>)
    ensures |LiveAmong(some, members)| > 1 <==> TwoLive(some, members)
  {
    if some != [] {
      var init, last := some[..|some| - 1], some[|some| - 1];
      ManyLive(init, members);
      assert some == init + [last];
      OneMoreLive(init, last, members);
      SomeLive(init, members);
    }
  }

  lemma SomeLive(some: seq<Entry>, members: seq<Entry>)
    ensures LiveAmong(some, members) != [] <==> exists m :: m in some && IsLive(members, m)
  {
    if LiveAmong(some, members) != [] {
      assert LiveAmong(some, members)[0] in LiveAmong(some, members);
    }
  }

  lemma DanglingMeans(members: seq<Entry>, stems: map<int, string>)
    ensures match RuleFor(members, stems)
            case Conflict(Dangling(numbers)) => numbers != {} && forall n :: n in numbers <==> Dangles(members, stems, n)
            case _ => NothingDangles(members, stems)
  {
    forall n ensures n in Refs(members) - stems.Keys <==> Dangles(members, stems, n) {
      DanglingAre(members, stems, n);
    }
  }

  lemma NobodyLeft(members: seq<Entry>, stems: map<int, string>)
    requires RuleFor(members, stems) == Conflict(Cycle)
    ensures forall m :: !Unsuperseded(members, m)
  {
    forall m | m in members ensures !Unsuperseded(members, m) {
      LiveIsUnsuperseded(members, m);
      SomeLive(members, members);
    }
  }

  lemma SeveralLeft(members: seq<Entry>, stems: map<int, string>)
    requires RuleFor(members, stems).Conflict? && RuleFor(members, stems).reason.DualLive?
    ensures TwoUnsuperseded(members)
    ensures forall stem :: stem in RuleFor(members, stems).reason.stems <==> exists m :: Unsuperseded(members, m) && m.stem == stem
  {
    ManyLive(members, members);
    LiveStems(members, stems);
    forall m | m in members ensures IsLive(members, m) <==> Unsuperseded(members, m) {
      LiveIsUnsuperseded(members, m);
    }
    var i, j :| 0 <= i < j < |members| && IsLive(members, members[i]) && IsLive(members, members[j]);
    assert Unsuperseded(members, members[i]) && Unsuperseded(members, members[j]);
  }

  /** What each kind of conflict means, exactly: the dangling numbers; that nobody is left unsuperseded; or the stems of those who
      are, when they are more than one. */
  lemma ConflictMeans(members: seq<Entry>, stems: map<int, string>)
    ensures match RuleFor(members, stems)
            case Live(_, _) => NothingDangles(members, stems)
            case Conflict(Dangling(numbers)) => numbers != {} && forall n :: n in numbers <==> Dangles(members, stems, n)
            case Conflict(Cycle) => NothingDangles(members, stems) && forall m :: !Unsuperseded(members, m)
            case Conflict(DualLive(left)) =>
              && NothingDangles(members, stems) && TwoUnsuperseded(members)
              && forall stem :: stem in left <==> exists m :: Unsuperseded(members, m) && m.stem == stem
  {
    DanglingMeans(members, stems);
    match RuleFor(members, stems)
    case Conflict(Cycle) => NobodyLeft(members, stems);
    case Conflict(DualLive(_)) => SeveralLeft(members, stems);
    case _ =>
  }

  lemma LiveStems(members: seq<Entry>, stems: map<int, string>)
    ensures RuleFor(members, stems).Conflict? && RuleFor(members, stems).reason.DualLive? ==>
            forall stem :: stem in RuleFor(members, stems).reason.stems <==> exists m :: m in members && IsLive(members, m) && m.stem == stem
  {
  }

  /** Of two records with one number the number stands for the later. */
  lemma {:induction false} LaterRecordWins(entries: seq<Entry>, i: nat, number: int)
    requires i < |entries| && entries[i].number == Some(number)
    requires forall j :: i < j < |entries| ==> entries[j].number != Some(number)
    ensures number in ByNumber(entries) && ByNumber(entries)[number] == entries[i].stem
  {
    var init, last := entries[..|entries| - 1], entries[|entries| - 1];
    assert entries == init + [last];
    NumbersGrow(init, last);
    if i < |init| {
      LaterRecordWins(init, i, number);
    }
  }

  /** Where a number stands for one record, the lineage of a live rule is exactly the rest of the group. */
  lemma LineageIsTheRest(members: seq<Entry>, stems: map<int, string>) returns (live: nat)
    requires RuleFor(members, stems).Live?
    requires forall m :: m in members && m.number.Some? ==> m.number.value in stems && stems[m.number.value] == m.stem
    ensures OnlyLive(members, members, live) && members[live].stem == RuleFor(members, stems).stem
    ensures RuleFor(members, stems).lineage == set j | 0 <= j < |members| && j != live :: members[j].stem
  {
    LiveMeans(members, stems);
    live :| OnlyLive(members, members, live) && members[live].stem == RuleFor(members, stems).stem;
    var rest := set j | 0 <= j < |members| && j != live :: members[j].stem;
    forall stem | stem in RuleFor(members, stems).lineage ensures stem in rest {
      var n :| n in Superseded(members) && n in stems && stems[n] == stem;
      var m :| m in members && m.number == Some(n);
      var j :| 0 <= j < |members| && members[j] == m;
    }
    forall j | 0 <= j < |members| && j != live ensures members[j].stem in RuleFor(members, stems).lineage {
      assert members[j] in members;
      assert members[j].number.value in Superseded(members);
    }
  }

  /** A group reported as a cycle has one. */
  lemma ReportedCycleIsReal(members: seq<Entry>, stems: map<int, string>)
    requires members != [] && RuleFor(members, stems) == Conflict(Cycle)
    ensures Cyclic(members)
  {
    if !Cyclic(members) {
      var p := ChainEndsLive(members, members[0]);
      assert false;
    }
  }

  /** In a live group without cycles, following whoever supersedes a record always ends at the live one. */
  lemma EveryChainEndsAtTheLiveOne(members: seq<Entry>, stems: map<int, string>, m: Entry) returns (p: seq<Entry>)
    requires RuleFor(members, stems).Live? && !Cyclic(members) && m in members
    ensures Chain(members, p) && p[0] == m && p[|p| - 1].stem == RuleFor(members, stems).stem
  {
    LiveMeans(members, stems);
    p := ChainEndsLive(members, m);
    var i: nat :| OnlyLive(members, members, i) && members[i].stem == RuleFor(members, stems).stem;
    var j :| 0 <= j < |members| && members[j] == p[|p| - 1];
    assert j == i;
  }

  /** `a` and `b` supersede each other, and `c` has nothing to do with them. */
  function Knot(): seq<Entry> {
    [Entry("a", Some(1), "s", [2]), Entry("b", Some(2), "s", [1]), Entry("c", Some(3), "s", [])]
  }

  lemma KnotIsCyclic()
    ensures Cyclic(Knot())
  {
    var (a, b) := (Knot()[0], Knot()[1]);
    assert a in Knot() && b in Knot();
    assert IsCycle(Knot(), [a, b, a]);
  }

  lemma KnotNumbers()
    ensures Numbers(Knot()) == Superseded(Knot()) + {3} == {1, 2, 3} && 3 !in Superseded(Knot())
  {
    var (a, b, c) := (Knot()[0], Knot()[1], Knot()[2]);
    assert a in Knot() && b in Knot() && c in Knot();
    assert 2 in a.supersedes && 1 in b.supersedes;
  }

  lemma LastOfKnotIsLive()
    ensures OnlyLive(Knot(), Knot(), 2)
    ensures forall m, n :: m in Knot() && n in m.supersedes ==> n in ByNumber(Knot())
  {
    KnotNumbers();
    forall j | 0 <= j < |Knot()| && j != 2 ensures !IsLive(Knot(), Knot()[j]) {
      assert j == 0 || j == 1;
    }
  }

  lemma OnlyOneIsLive(members: seq<Entry>, i: nat, j: nat)
    requires OnlyLive(members, members, i) && OnlyLive(members, members, j)
    ensures i == j
  {
  }

  /** A group with a cycle is reported exactly when a reference dangles or not exactly one record is left unsuperseded. */
  lemma CycleIsReportedIff(members: seq<Entry>, stems: map<int, string>)
    requires Cyclic(members)
    ensures RuleFor(members, stems).Conflict? <==>
      || (exists m, n :: m in members && n in m.supersedes && n !in stems)
      || !exists i: nat :: OnlyLive(members, members, i)
  {
    LiveMeans(members, stems);
  }

  /** Otherwise it is hidden: here the unrelated third record is picked as the live one, without a word about the other two. */
  lemma HiddenCycle()
    ensures Cyclic(Knot()) && RuleFor(Knot(), ByNumber(Knot())).Live? && RuleFor(Knot(), ByNumber(Knot())).stem == "c"
  {
    var members, stems := Knot(), ByNumber(Knot());
    KnotIsCyclic();
    LastOfKnotIsLive();
    LiveMeans(members, stems);
    var i: nat :| OnlyLive(members, members, i) && members[i].stem == RuleFor(members, stems).stem;
    OnlyOneIsLive(members, i, 2);
  }
}
