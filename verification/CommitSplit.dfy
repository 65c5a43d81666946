/**
 Splitting one large commit into one commit per declared task: when the declared files allow it, and what the sequence of
 git commands leaves behind.
 */
module CommitSplit {
  import opened Wrappers

  // ---- the mapping from tasks to files -----------------------------------------------------------------------

  /** A task as the plan declares it: with a list of files, or as a line of prose with quoted names. */
  datatype Item =
    | Structured(title: string, files: set<string>)
    | Prose(title: string, quoted: set<string>, text: string)
    | Unreadable

  datatype Group = Group(message: string, paths: set<string>)

  predicate Contains(text: string, name: string) {
    name <= text || (text != "" && Contains(text[1..], name))
  }

  /** The changed files a task declares or, in prose, mentions. */
  function Matched(item: Item, changed: set<string>): set<string> {
    match item
    case Structured(_, files) => files * changed
    case Prose(_, quoted, text) => (quoted * changed) + set f | f in changed && Contains(text, f)
    case Unreadable => {}
  }

  function Extracted(items: seq<Item>, changed: set<string>): seq<Group> {
    if items == [] then []
    else
      var last := items[|items| - 1];
      Extracted(items[..|items| - 1], changed)
      + (if last.Unreadable? then [] else [Group(last.title, Matched(last, changed))])
  }

  function NonEmpty(groups: seq<Group>): (kept: seq<Group>)
    ensures forall g :: g in kept <==> g in groups && g.paths != {}
  {
    if groups == [] then []
    else
      var last := groups[|groups| - 1];
      NonEmpty(groups[..|groups| - 1]) + (if last.paths != {} then [last] else [])
  }

  function Union(groups: seq<Group>): set<string> {
    if groups == [] then {} else Union(groups[..|groups| - 1]) + groups[|groups| - 1].paths
  }

  ghost predicate PairwiseDisjoint(groups: seq<Group>) {
    forall i, j :: 0 <= i < j < |groups| ==> groups[i].paths !! groups[j].paths
  }

  /** The groups cut the changed files into at least two non-empty parts. */
  ghost predicate Partition(groups: seq<Group>, changed: set<string>) {
    && |groups| >= 2 && (forall g :: g in groups ==> g.paths != {})
    && PairwiseDisjoint(groups) && Union(groups) == changed
  }

  lemma {:induction false} UnionHolds(groups: seq<Group>, f: string)
    ensures f in Union(groups) <==> exists g :: g in groups && f in g.paths
  {
    if groups != [] {
      var n := |groups| - 1;
      UnionHolds(groups[..n], f);
      assert groups == groups[..n] + [groups[n]];
    }
  }

  /** How many assignments of a file to a task there are. */
  function Assigned(groups: seq<Group>): nat {
    if groups == [] then 0 else Assigned(groups[..|groups| - 1]) + |groups[|groups| - 1].paths|
  }

  lemma UnionSize(a: set<string>, b: set<string>)
    ensures |a + b| + |a * b| == |a| + |b|
  {
    assert a + b == (a - b) + b && a == (a - b) + (a * b);
  }

  /** Counting tells an overlap: no file is assigned twice exactly when there are as many assignments as files. */
  lemma {:induction false} OverlapIsCounted(groups: seq<Group>)
    ensures |Union(groups)| <= Assigned(groups)
    ensures |Union(groups)| == Assigned(groups) <==> PairwiseDisjoint(groups)
  {
    if groups != [] {
      var n := |groups| - 1;
      var (init, last) := (groups[..n], groups[n].paths);
      OverlapIsCounted(init);
      UnionSize(Union(init), last);
      if Union(init) * last == {} {
        forall i | 0 <= i < n ensures groups[i].paths !! last {
          forall f | f in groups[i].paths ensures f !in last {
            UnionHolds(init, f);
            assert init[i] in init;
            assert f in Union(init);
            assert f in last ==> f in Union(init) * last;
          }
        }
      } else {
        var f :| f in Union(init) * last;
        UnionHolds(init, f);
        var g :| g in init && f in g.paths;
        var i :| 0 <= i < n && init[i] == g;
        assert !(groups[i].paths !! groups[n].paths);
      }
    }
  }

  lemma UnionAppend(groups: seq<Group>, g: Group)
    ensures Union(groups + [g]) == Union(groups) + g.paths
  {
    assert (groups + [g])[..|groups|] == groups;
  }

  lemma {:induction false} NonEmptyKeepsUnion(groups: seq<Group>)
    ensures Union(NonEmpty(groups)) == Union(groups)
  {
    if groups != [] {
      var (init, last) := (groups[..|groups| - 1], groups[|groups| - 1]);
      NonEmptyKeepsUnion(init);
      if last.paths != {} {
        UnionAppend(NonEmpty(init), last);
      } else {
        assert NonEmpty(groups) == NonEmpty(init);
      }
    }
  }

  lemma {:induction false} NonEmptyKeepsDisjoint(groups: seq<Group>)
    requires PairwiseDisjoint(groups)
    ensures PairwiseDisjoint(NonEmpty(groups))
  {
    if groups != [] {
      var n := |groups| - 1;
      var (init, last) := (groups[..n], groups[n]);
      NonEmptyKeepsDisjoint(init);
      var kept := NonEmpty(init);
      forall i | 0 <= i < |kept| ensures kept[i].paths !! last.paths {
        assert kept[i] in kept;
        var j :| 0 <= j < n && init[j] == kept[i];
        assert groups[j].paths !! groups[n].paths;
      }
    }
  }

  method Extract(items: seq<Item>, changed: set<string>) returns (extracted: seq<Group>)
    ensures extracted == Extracted(items, changed)
  {
    extracted := [];
    var i := 0;
    while i < |items|
      invariant i <= |items| && extracted == Extracted(items[..i], changed)
    {
      assert items[..i + 1][..i] == items[..i];
      if !items[i].Unreadable? {
        extracted := extracted + [Group(items[i].title, Matched(items[i], changed))];
      }
      i := i + 1;
    }
    assert items[..i] == items;
  }

  method Tally(groups: seq<Group>) returns (total: nat, union: set<string>)
    ensures total == Assigned(groups) && union == Union(groups)
  {
    total, union := 0, {};
    var i := 0;
    while i < |groups|
      invariant i <= |groups| && total == Assigned(groups[..i]) && union == Union(groups[..i])
    {
      assert groups[..i + 1][..i] == groups[..i];
      total := total + |groups[i].paths|;
      union := union + groups[i].paths;
      i := i + 1;
    }
    assert groups[..i] == groups;
  }

  /** The matched files of the readable tasks do not overlap, cover every changed file, and at least two tasks have some. */
  ghost predicate Unambiguous(items: seq<Item>, changed: set<string>) {
    && PairwiseDisjoint(Extracted(items, changed)) && Union(Extracted(items, changed)) == changed
    && |NonEmpty(Extracted(items, changed))| >= 2
  }

  /** The mapping is refused unless it is unambiguous; what is returned is a partition of the changed files, and it is
      returned exactly when the declaration is unambiguous. */
  method ParseTaskFileMappings(items: seq<Item>, changed: set<string>) returns (mapping: Option<seq<Group>>)
    ensures mapping.Some? ==> Partition(mapping.value, changed) && mapping.value == NonEmpty(Extracted(items, changed))
    ensures mapping.Some? <==> Unambiguous(items, changed)
  {
    var extracted := Extract(items, changed);
    NonEmptyKeepsUnion(extracted);
    OverlapIsCounted(extracted);
    FewGroups(extracted);
    if changed == {} || items == [] || |extracted| < 2 {
      return None;
    }
    var total, union := Tally(extracted);
    if total != |union| || union != changed {
      return None;
    }
    NonEmptyKeepsDisjoint(extracted);
    var nonEmpty := NonEmpty(extracted);
    if |nonEmpty| < 2 {
      return None;
    }
    return Some(nonEmpty);
  }

  lemma {:induction false} FewGroups(groups: seq<Group>)
    ensures |NonEmpty(groups)| <= |groups|
    ensures Union(groups) == {} ==> NonEmpty(groups) == []
  {
    if groups != [] {
      FewGroups(groups[..|groups| - 1]);
    }
  }

  // ---- what a declaration says -------------------------------------------------------------------------------

  lemma {:induction false} ContainsIff(text: string, name: string)
    ensures Contains(text, name) <==> Occurs(name, text)
    decreases |text|
  {
    assert StandsAt(name, text, 0) <==> name <= text;
    if text != "" {
      ContainsIff(text[1..], name);
      forall i: nat ensures StandsAt(name, text, i + 1) <==> StandsAt(name, text[1..], i) {
        if i + 1 + |name| <= |text| {
          assert text[1..][i..i + |name|] == text[i + 1..i + 1 + |name|];
        }
      }
      if i: nat :| StandsAt(name, text[1..], i) {
        assert StandsAt(name, text, i + 1);
      }
      if i: nat :| StandsAt(name, text, i) && i > 0 {
        assert StandsAt(name, text[1..], i - 1);
      }
    }
  }

  /** Which files a task gets: the changed ones among those it lists, or those its prose quotes or mentions. */
  lemma MatchedIff(item: Item, changed: set<string>, f: string)
    ensures f in Matched(item, changed) <==>
            f in changed && match item
                            case Structured(_, files) => f in files
                            case Prose(_, quoted, text) => f in quoted || Occurs(f, text)
                            case Unreadable => false
  {
    if item.Prose? { ContainsIff(item.text, f); }
  }

  /** The group of a task: its title, and the files it gets. */
  predicate GroupFor(item: Item, changed: set<string>, g: Group) {
    !item.Unreadable? && g.message == item.title && g.paths == Matched(item, changed)
  }

  /** The mapping keeps the order of the declaration: each group is that of a task, and of two groups the later is that of a
      later task. */
  ghost predicate InOrder(items: seq<Item>, changed: set<string>, groups: seq<Group>, at: seq<nat>) {
    && |at| == |groups|
    && (forall k :: 0 <= k < |groups| ==> at[k] < |items| && GroupFor(items[at[k]], changed, groups[k]))
    && forall k, l :: 0 <= k < l < |at| ==> at[k] < at[l]
  }

  predicate AllBelow(at: seq<nat>, below: nat) { forall k :: 0 <= k < |at| ==> at[k] < below }

  lemma LaterItems(items: seq<Item>, n: nat, changed: set<string>, groups: seq<Group>, at: seq<nat>)
    requires n <= |items| && InOrder(items[..n], changed, groups, at)
    ensures InOrder(items, changed, groups, at) && AllBelow(at, n)
  {
  }

  lemma OneMoreInOrder(items: seq<Item>, changed: set<string>, groups: seq<Group>, at: seq<nat>, g: Group, n: nat)
    requires InOrder(items, changed, groups, at) && n < |items| && GroupFor(items[n], changed, g)
    requires AllBelow(at, n)
    ensures InOrder(items, changed, groups + [g], at + [n]) && AllBelow(at + [n], n + 1)
  {
  }

  lemma {:induction false} ExtractedInOrder(items: seq<Item>, changed: set<string>) returns (at: seq<nat>)
    ensures InOrder(items, changed, Extracted(items, changed), at)
  {
    at := [];
    if items != [] {
      var n := |items| - 1;
      at := ExtractedInOrder(items[..n], changed);
      LaterItems(items, n, changed, Extracted(items[..n], changed), at);
      if !items[n].Unreadable? {
        OneMoreInOrder(items, changed, Extracted(items[..n], changed), at, Group(items[n].title, Matched(items[n], changed)), n);
        at := at + [n];
      }
    }
  }

  lemma InOrderInit(items: seq<Item>, changed: set<string>, groups: seq<Group>, at: seq<nat>, n: nat, below: nat)
    requires InOrder(items, changed, groups, at) && |groups| == n + 1 && AllBelow(at, below)
    ensures InOrder(items, changed, groups[..n], at[..n]) && AllBelow(at[..n], at[n]) && at[n] < below
    ensures at[n] < |items| && GroupFor(items[at[n]], changed, groups[n])
  {
  }

  lemma NonEmptyLast(groups: seq<Group>, init: seq<Group>, last: Group)
    requires groups == init + [last]
    ensures NonEmpty(groups) == if last.paths != {} then NonEmpty(init) + [last] else NonEmpty(init)
  {
    assert groups[..|groups| - 1] == init;
  }

  lemma {:induction false} NonEmptyInOrder(items: seq<Item>, changed: set<string>, groups: seq<Group>, at: seq<nat>, below: nat)
    returns (kept: seq<nat>)
    requires InOrder(items, changed, groups, at) && AllBelow(at, below)
    ensures InOrder(items, changed, NonEmpty(groups), kept) && AllBelow(kept, below)
    decreases |groups|
  {
    kept := [];
    if groups != [] {
      var n := |groups| - 1;
      var init, last := groups[..n], groups[n];
      InOrderInit(items, changed, groups, at, n, below);
      kept := NonEmptyInOrder(items, changed, init, at[..n], at[n]);
      NonEmptyLast(groups, init, last);
      if last.paths != {} {
        OneMoreInOrder(items, changed, NonEmpty(init), kept, last, at[n]);
        kept := kept + [at[n]];
      }
    }
  }

  /** The mapping has a group for each task that gets a file, and no other, in the order of the declaration. */
  lemma MappingIsDeclared(items: seq<Item>, changed: set<string>) returns (at: seq<nat>)
    ensures InOrder(items, changed, NonEmpty(Extracted(items, changed)), at)
    ensures forall i :: 0 <= i < |items| && Matched(items[i], changed) != {} ==>
              exists g :: g in NonEmpty(Extracted(items, changed)) && GroupFor(items[i], changed, g)
  {
    at := ExtractedInOrder(items, changed);
    at := NonEmptyInOrder(items, changed, Extracted(items, changed), at, |items|);
    forall i | 0 <= i < |items| && Matched(items[i], changed) != {}
      ensures exists g :: g in NonEmpty(Extracted(items, changed)) && GroupFor(items[i], changed, g)
    {
      TaskIsExtracted(items, changed, i);
      assert GroupFor(items[i], changed, Group(items[i].title, Matched(items[i], changed)));
    }
  }

  lemma {:induction false} TaskIsExtracted(items: seq<Item>, changed: set<string>, i: nat)
    requires i < |items| && !items[i].Unreadable?
    ensures Group(items[i].title, Matched(items[i], changed)) in Extracted(items, changed)
  {
    var n := |items| - 1;
    if i < n {
      TaskIsExtracted(items[..n], changed, i);
    }
  }
}
