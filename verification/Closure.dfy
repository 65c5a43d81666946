/** The stack-and-seen worklist that closes `blocked_by` over a plan corpus and lists the descendants of a process. */
module Closure {
  import opened Wrappers

  function Next<T>(edges: map<T, seq<T>>, x: T): seq<T> {
    if x in edges then edges[x] else []
  }

  /** A walk that starts at a root and follows the edges. */
  ghost predicate Walk<T>(edges: map<T, seq<T>>, roots: seq<T>, p: seq<T>) {
    p != [] && p[0] in roots && forall i :: 0 < i < |p| ==> p[i] in Next(edges, p[i - 1])
  }

  ghost predicate Reachable<T(!new)>(edges: map<T, seq<T>>, roots: seq<T>, x: T) {
    exists p :: Walk(edges, roots, p) && p[|p| - 1] == x
  }

  lemma RootIsReachable<T(!new)>(edges: map<T, seq<T>>, roots: seq<T>, x: T)
    requires x in roots
    ensures Reachable(edges, roots, x)
  {
    assert Walk(edges, roots, [x]);
  }

  lemma NextIsReachable<T(!new)>(edges: map<T, seq<T>>, roots: seq<T>, x: T, y: T)
    requires Reachable(edges, roots, x) && y in Next(edges, x)
    ensures Reachable(edges, roots, y)
  {
    var p :| Walk(edges, roots, p) && p[|p| - 1] == x;
    assert Walk(edges, roots, p + [y]);
  }

  /** A set that holds the roots and is closed under the edges holds everything reachable. */
  lemma {:induction false} ClosedHoldsWalk<T(!new)>(edges: map<T, seq<T>>, roots: seq<T>, s: set<T>, p: seq<T>)
    requires (forall x :: x in roots ==> x in s) && (forall x, y :: x in s && y in Next(edges, x) ==> y in s)
    requires Walk(edges, roots, p)
    ensures p[|p| - 1] in s
  {
    if |p| > 1 {
      ClosedHoldsWalk(edges, roots, s, p[..|p| - 1]);
    }
  }

  /** Whatever a seen node leads to is seen, or waits on the stack. */
  ghost predicate Covered<T(!new)>(edges: map<T, seq<T>>, seen: set<T>, stack: seq<T>) {
    forall x, y :: x in seen && y in Next(edges, x) ==> y in seen || y in stack
  }

  lemma PopKeepsCover<T(!new)>(edges: map<T, seq<T>>, seen: set<T>, rest: seq<T>, current: T)
    requires Covered(edges, seen, rest + [current])
    ensures current in seen ==> Covered(edges, seen, rest)
    ensures Covered(edges, seen + {current}, rest + Next(edges, current))
  {
  }

  /** Everything that can ever be on the stack. */
  ghost function Universe<T(!new)>(edges: map<T, seq<T>>, roots: seq<T>): set<T> {
    (set x | x in roots) + (set k, y | k in edges && y in edges[k] :: y)
  }

  lemma ClosedHoldsReachable<T(!new)>(edges: map<T, seq<T>>, roots: seq<T>, s: set<T>)
    requires (forall x :: x in roots ==> x in s) && Covered(edges, s, [])
    ensures forall x :: Reachable(edges, roots, x) ==> x in s
  {
    forall x | Reachable(edges, roots, x) ensures x in s {
      var p :| Walk(edges, roots, p) && p[|p| - 1] == x;
      ClosedHoldsWalk(edges, roots, s, p);
    }
  }

  /** Every member of a stack can be reached, and is one of the universe. */
  ghost predicate Stacked<T(!new)>(edges: map<T, seq<T>>, roots: seq<T>, stack: seq<T>) {
    forall x :: x in stack ==> Reachable(edges, roots, x) && x in Universe(edges, roots)
  }

  lemma RootsAreStacked<T(!new)>(edges: map<T, seq<T>>, roots: seq<T>)
    ensures Stacked(edges, roots, roots)
  {
    forall x | x in roots ensures Reachable(edges, roots, x) {
      RootIsReachable(edges, roots, x);
    }
  }

  lemma PushIsStacked<T(!new)>(edges: map<T, seq<T>>, roots: seq<T>, rest: seq<T>, current: T)
    requires Stacked(edges, roots, rest) && Reachable(edges, roots, current)
    ensures Stacked(edges, roots, rest + Next(edges, current))
  {
    forall y | y in Next(edges, current) ensures Reachable(edges, roots, y) && y in Universe(edges, roots) {
      NextIsReachable(edges, roots, current, y);
    }
  }

  /** What the worklist has seen when its stack is empty is exactly what can be reached, on any graph: cycles and nodes that
      are on the stack more than once do not keep it from ending. */
  method Worklist<T(!new, ==)>(edges: map<T, seq<T>>, roots: seq<T>) returns (seen: set<T>)
    ensures forall x :: x in seen <==> Reachable(edges, roots, x)
  {
    seen := {};
    var stack := roots;
    RootsAreStacked(edges, roots);
    while stack != []
      invariant Stacked(edges, roots, stack)
      invariant forall x :: x in seen ==> Reachable(edges, roots, x)
      invariant forall x :: x in roots ==> x in seen || x in stack
      invariant Covered(edges, seen, stack)
      invariant seen <= Universe(edges, roots)
      decreases Universe(edges, roots) - seen, |stack|
    {
      var top := |stack| - 1;
      var current, rest := stack[top], stack[..top];
      assert stack == rest + [current];
      PopKeepsCover(edges, seen, rest, current);
      stack := rest;
      if current !in seen {
        PushIsStacked(edges, roots, rest, current);
        assert current in Universe(edges, roots) - seen;
        seen := seen + {current};
        stack := rest + Next(edges, current);
      }
    }
    ClosedHoldsReachable(edges, roots, seen);
  }

  // ---- plan ordering -----------------------------------------------------------------------------------------

  function Within(items: seq<string>, ids: set<string>): (kept: seq<string>)
    ensures forall x :: x in kept <==> x in items && x in ids
  {
    if items == [] then []
    else Within(items[..|items| - 1], ids) + (if items[|items| - 1] in ids then [items[|items| - 1]] else [])
  }

  /** `blocked_by` restricted to the plans of the corpus. */
  function Inside(blockedBy: map<string, seq<string>>): map<string, seq<string>> {
    map id | id in blockedBy :: Within(blockedBy[id], blockedBy.Keys)
  }

  /** `a` waits for `b`, directly or through other plans of the corpus. */
  ghost predicate Ordered(blockedBy: map<string, seq<string>>, a: string, b: string) {
    a in blockedBy && Reachable(Inside(blockedBy), Inside(blockedBy)[a], b)
  }

  method LinearlyOrderedPairs(blockedBy: map<string, seq<string>>) returns (pairs: set<(string, string)>)
    ensures forall a, b :: (a, b) in pairs <==> Ordered(blockedBy, a, b)
  {
    pairs := {};
    var todo := blockedBy.Keys;
    while todo != {}
      invariant todo <= blockedBy.Keys
      invariant forall a, b :: (a, b) in pairs <==> a !in todo && Ordered(blockedBy, a, b)
      decreases todo
    {
      var id :| id in todo;
      var blockers := Worklist(Inside(blockedBy), Within(blockedBy[id], blockedBy.Keys));
      pairs := pairs + set b | b in blockers :: (id, b);
      todo := todo - {id};
    }
  }

  ghost predicate Transitive(r: set<(string, string)>) {
    forall a, b, c :: (a, b) in r && (b, c) in r ==> (a, c) in r
  }

  ghost predicate ContainsBlockers(blockedBy: map<string, seq<string>>, r: set<(string, string)>) {
    forall a, b :: a in blockedBy && b in blockedBy[a] && b in blockedBy ==> (a, b) in r
  }

  /** The pairs are the transitive closure of `blocked_by` in the corpus: the least transitive relation that contains it. */
  lemma PairsAreTheClosure(blockedBy: map<string, seq<string>>, pairs: set<(string, string)>)
    requires forall a, b :: (a, b) in pairs <==> Ordered(blockedBy, a, b)
    ensures Transitive(pairs) && ContainsBlockers(blockedBy, pairs)
    ensures forall r :: Transitive(r) && ContainsBlockers(blockedBy, r) ==> pairs <= r
  {
    var edges := Inside(blockedBy);
    forall a, b, c | (a, b) in pairs && (b, c) in pairs ensures (a, c) in pairs {
      OrderedChains(blockedBy, a, b, c);
    }
    forall a, b | a in blockedBy && b in blockedBy[a] && b in blockedBy ensures (a, b) in pairs {
      RootIsReachable(edges, edges[a], b);
    }
    forall r | Transitive(r) && ContainsBlockers(blockedBy, r) ensures pairs <= r {
      forall pair | pair in pairs ensures pair in r {
        var (a, b) := pair;
        assert Ordered(blockedBy, a, b);
        var p :| Walk(edges, edges[a], p) && p[|p| - 1] == b;
        RelationHoldsWalk(blockedBy, r, a, p);
      }
    }
  }

  lemma OrderedChains(blockedBy: map<string, seq<string>>, a: string, b: string, c: string)
    requires Ordered(blockedBy, a, b) && Ordered(blockedBy, b, c)
    ensures Ordered(blockedBy, a, c)
  {
    var edges := Inside(blockedBy);
    var p :| Walk(edges, edges[a], p) && p[|p| - 1] == b;
    var q :| Walk(edges, edges[b], q) && q[|q| - 1] == c;
    assert Walk(edges, edges[a], p + q);
  }

  lemma {:induction false} RelationHoldsWalk(blockedBy: map<string, seq<string>>, r: set<(string, string)>, a: string, p: seq<string>)
    requires Transitive(r) && ContainsBlockers(blockedBy, r) && a in blockedBy
    requires Walk(Inside(blockedBy), Inside(blockedBy)[a], p)
    ensures (a, p[|p| - 1]) in r && p[|p| - 1] in blockedBy
  {
    if |p| > 1 {
      RelationHoldsWalk(blockedBy, r, a, p[..|p| - 1]);
    }
  }

  // ---- process descendants -----------------------------------------------------------------------------------

  datatype Pid = Pid(number: nat)

  /** The children of a process. */
  ghost predicate Children(parentOf: map<Pid, Pid>, children: map<Pid, seq<Pid>>) {
    forall parent, child :: child in Next(children, parent) <==> child in parentOf && parentOf[child] == parent
  }

  /** A line of parentage of at least one step, from `pid` down to `d`. */
  ghost predicate Lineage(parentOf: map<Pid, Pid>, pid: Pid, d: Pid, p: seq<Pid>) {
    && |p| >= 2 && p[0] == pid && p[|p| - 1] == d
    && forall i :: 0 < i < |p| ==> p[i] in parentOf && parentOf[p[i]] == p[i - 1]
  }

  method DescendantPids(pid: Pid, parentOf: map<Pid, Pid>) returns (descendants: set<Pid>)
    ensures forall d :: d in descendants <==> pid in parentOf && exists p :: Lineage(parentOf, pid, d, p)
  {
    if pid !in parentOf {
      return {};
    }
    var children: map<Pid, seq<Pid>> := map[];
    var todo := parentOf.Keys;
    while todo != {}
      invariant todo <= parentOf.Keys
      invariant forall parent, child :: child in Next(children, parent) <==>
        child in parentOf && child !in todo && parentOf[child] == parent
      decreases todo
    {
      var child :| child in todo;
      ghost var before := children;
      children := children[parentOf[child] := Next(children, parentOf[child]) + [child]];
      assert forall parent ::
        Next(children, parent) == if parent == parentOf[child] then Next(before, parent) + [child] else Next(before, parent);
      todo := todo - {child};
    }
    descendants := Worklist(children, Next(children, pid));
    forall d ensures Reachable(children, Next(children, pid), d) <==> exists p :: Lineage(parentOf, pid, d, p) {
      LineageIsReachability(parentOf, children, pid, d);
    }
  }

  lemma LineageIsReachability(parentOf: map<Pid, Pid>, children: map<Pid, seq<Pid>>, pid: Pid, d: Pid)
    requires Children(parentOf, children)
    ensures Reachable(children, Next(children, pid), d) <==> exists p :: Lineage(parentOf, pid, d, p)
  {
    if Reachable(children, Next(children, pid), d) {
      var p :| Walk(children, Next(children, pid), p) && p[|p| - 1] == d;
      var line := [pid] + p;
      forall i | 0 < i < |line| ensures line[i] in parentOf && parentOf[line[i]] == line[i - 1] {
        assert i > 1 ==> p[i - 1] in Next(children, p[i - 2]);
      }
      assert Lineage(parentOf, pid, d, line);
    }
    if p :| Lineage(parentOf, pid, d, p) {
      var walk := p[1..];
      forall i | 0 < i < |walk| ensures walk[i] in Next(children, walk[i - 1]) {
        assert walk[i] == p[i + 1] && walk[i - 1] == p[i];
      }
      assert p[1] in Next(children, p[0]);
      assert Walk(children, Next(children, pid), walk);
    }
  }

  /** The process `n` steps up from `pid`, if the table goes that far. */
  function Climb(parentOf: map<Pid, Pid>, pid: Pid, n: nat): Option<Pid>
    decreases n
  {
    if n == 0 then Some(pid) else if pid in parentOf then Climb(parentOf, parentOf[pid], n - 1) else None
  }

  lemma {:induction false} LineageClimbs(parentOf: map<Pid, Pid>, pid: Pid, d: Pid, p: seq<Pid>)
    requires Lineage(parentOf, pid, d, p)
    ensures Climb(parentOf, d, |p| - 1) == Some(pid)
    decreases |p|
  {
    var n := |p| - 1;
    assert d in parentOf && parentOf[d] == p[n - 1];
    if n == 1 {
      assert Climb(parentOf, pid, 0) == Some(pid);
    } else {
      LineageClimbs(parentOf, pid, p[n - 1], p[..n]);
    }
  }

  lemma {:induction false} ClimbedLineage(parentOf: map<Pid, Pid>, pid: Pid, d: Pid, n: nat) returns (p: seq<Pid>)
    requires n > 0 && Climb(parentOf, d, n) == Some(pid)
    ensures Lineage(parentOf, pid, d, p)
    decreases n
  {
    if n == 1 {
      p := [pid, d];
    } else {
      p := ClimbedLineage(parentOf, pid, parentOf[d], n - 1);
      p := p + [d];
    }
  }

  /** The description says a process is not among its own descendants.  For every table and every process: it is, exactly
      when its line of parents, one step up or more, leads back to it. */
  lemma OwnDescendantIff(parentOf: map<Pid, Pid>, pid: Pid)
    ensures (exists p :: Lineage(parentOf, pid, pid, p)) <==> exists n: nat :: n > 0 && Climb(parentOf, pid, n) == Some(pid)
  {
    if p :| Lineage(parentOf, pid, pid, p) {
      LineageClimbs(parentOf, pid, pid, p);
    }
    if n: nat :| n > 0 && Climb(parentOf, pid, n) == Some(pid) {
      var p := ClimbedLineage(parentOf, pid, pid, n);
    }
  }

  /** As for process 0 where the table names it as its own parent. */
  lemma OwnParentIsOwnDescendant(parentOf: map<Pid, Pid>, pid: Pid)
    requires pid in parentOf && parentOf[pid] == pid
    ensures exists p :: Lineage(parentOf, pid, pid, p)
  {
    assert Climb(parentOf, pid, 0) == Some(pid);
    assert Climb(parentOf, pid, 1) == Some(pid);
    OwnDescendantIff(parentOf, pid);
  }
}
