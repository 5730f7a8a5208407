/** Sorting as the survey needs it: anchor ids ascending, and lists of ids by length and then content. */
module Orders {
  import opened Prelude

  ghost predicate Ascending(s: seq<int>) {
    forall i, j :: 0 <= i < j < |s| ==> s[i] < s[j]
  }

  function Elements(s: seq<int>): set<int> {
    set x | x in s
  }

  function InsertId(x: int, s: seq<int>): seq<int> {
    if s == [] then [x]
    else if x <= s[0] then [x] + s
    else [s[0]] + InsertId(x, s[1..])
  }

  lemma {:induction false} InsertIdMembers(x: int, s: seq<int>, y: int)
    ensures y in InsertId(x, s) <==> y == x || y in s
  {
    if s != [] && x > s[0] {
      InsertIdMembers(x, s[1..], y);
      assert s == [s[0]] + s[1..];
    }
  }

  lemma {:induction false} InsertIdAscends(x: int, s: seq<int>)
    requires Ascending(s) && x !in s
    ensures Ascending(InsertId(x, s)) && |InsertId(x, s)| == |s| + 1
  {
    if s != [] && x > s[0] {
      InsertIdAscends(x, s[1..]);
      var r := InsertId(x, s[1..]);
      forall k | 0 <= k < |r| ensures s[0] < r[k] {
        InsertIdMembers(x, s[1..], r[k]);
      }
    }
  }

  lemma InsertIdElements(x: int, s: seq<int>)
    ensures Elements(InsertId(x, s)) == Elements(s) + {x}
  {
    forall y ensures y in InsertId(x, s) <==> y == x || y in s {
      InsertIdMembers(x, s, y);
    }
  }

  lemma FirstElement(s: seq<int>)
    ensures s != [] ==> s[0] in Elements(s)
  {}

  lemma FirstMember(s: seq<seq<int>>)
    ensures s != [] ==> s[0] in s
  {}

  method SortIds(s: seq<int>) returns (r: seq<int>)
    requires Distinct(s)
    ensures Ascending(r) && Elements(r) == Elements(s) && |r| == |s|
  {
    r := [];
    for k := 0 to |s|
      invariant Ascending(r) && Elements(r) == Elements(s[..k]) && |r| == k
    {
      assert s[k] !in Elements(s[..k]);
      InsertIdAscends(s[k], r);
      InsertIdElements(s[k], r);
      assert Elements(s[..k + 1]) == Elements(s[..k]) + {s[k]} by {
        assert s[..k + 1] == s[..k] + [s[k]];
      }
      r := InsertId(s[k], r);
    }
    assert s[..|s|] == s;
  }

  /** Two ascending lists with the same elements are the same list. */
  lemma {:induction false} AscendingUnique(a: seq<int>, b: seq<int>)
    requires Ascending(a) && Ascending(b) && Elements(a) == Elements(b)
    ensures a == b
  {
    if a == [] {
      FirstElement(b);
    } else {
      assert a[0] in Elements(b) && b != [];
      assert b[0] in Elements(a);
      assert a[0] == b[0];
      forall x | x in Elements(a[1..]) ensures x in Elements(b[1..]) {
        assert x in Elements(b) && x > a[0];
      }
      forall x | x in Elements(b[1..]) ensures x in Elements(a[1..]) {
        assert x in Elements(a) && x > b[0];
      }
      AscendingUnique(a[1..], b[1..]);
      assert a == [a[0]] + a[1..] && b == [b[0]] + b[1..];
    }
  }

  // ---------------------------------------------------------------- lists of lists

  function LexLess(a: seq<int>, b: seq<int>): bool {
    if b == [] then false
    else if a == [] then true
    else if a[0] != b[0] then a[0] < b[0]
    else LexLess(a[1..], b[1..])
  }

  /** By length, the longest first or the shortest first, and then by content. */
  predicate Ranked(longest: bool, a: seq<int>, b: seq<int>) {
    if |a| != |b| then longest == (|a| > |b|) else LexLess(a, b)
  }

  lemma {:induction false} LexTransitive(a: seq<int>, b: seq<int>, c: seq<int>)
    requires LexLess(a, b) && LexLess(b, c)
    ensures LexLess(a, c)
  {
    if a != [] && a[0] == b[0] == c[0] {
      LexTransitive(a[1..], b[1..], c[1..]);
    }
  }

  lemma {:induction false} LexTotal(a: seq<int>, b: seq<int>)
    ensures a != b ==> LexLess(a, b) || LexLess(b, a)
    ensures LexLess(a, b) ==> !LexLess(b, a)
  {
    if a != [] && b != [] && a[0] == b[0] {
      LexTotal(a[1..], b[1..]);
      assert a == [a[0]] + a[1..] && b == [b[0]] + b[1..];
    }
  }

  lemma RankedTransitive(longest: bool, a: seq<int>, b: seq<int>, c: seq<int>)
    requires Ranked(longest, a, b) && Ranked(longest, b, c)
    ensures Ranked(longest, a, c)
  {
    if |a| == |b| == |c| {
      LexTransitive(a, b, c);
    }
  }

  /** In the first place where the lists differ, `a` has the smaller number. */
  ghost predicate Earlier(a: seq<int>, b: seq<int>) {
    exists k: nat :: k < |a| && k < |b| && a[..k] == b[..k] && a[k] < b[k]
  }

  ghost predicate LongerFirst(a: seq<int>, b: seq<int>) {
    |a| > |b| || (|a| == |b| && Earlier(a, b))
  }

  ghost predicate ShorterFirst(a: seq<int>, b: seq<int>) {
    |a| < |b| || (|a| == |b| && Earlier(a, b))
  }

  lemma {:induction false} LexIsEarlier(a: seq<int>, b: seq<int>)
    requires LexLess(a, b) && |a| == |b|
    ensures Earlier(a, b)
  {
    if a[0] != b[0] {
      assert a[..0] == b[..0];
    } else {
      LexIsEarlier(a[1..], b[1..]);
      var k: nat :| k < |a| - 1 && a[1..][..k] == b[1..][..k] && a[1..][k] < b[1..][k];
      assert a[..k + 1] == [a[0]] + a[1..][..k] && b[..k + 1] == [b[0]] + b[1..][..k];
      assert a[k + 1] < b[k + 1];
    }
  }

  /** What the ranking comes to: lengths first, and among equal lengths the first difference. */
  lemma RankedMeans(longest: bool, a: seq<int>, b: seq<int>)
    requires Ranked(longest, a, b)
    ensures if longest then LongerFirst(a, b) else ShorterFirst(a, b)
  {
    if |a| == |b| {
      LexIsEarlier(a, b);
    }
  }

  ghost predicate RankedList(longest: bool, s: seq<seq<int>>) {
    forall i, j :: 0 <= i < j < |s| ==> Ranked(longest, s[i], s[j])
  }

  function InsertList(longest: bool, x: seq<int>, s: seq<seq<int>>): seq<seq<int>> {
    if s == [] then [x]
    else if Ranked(longest, x, s[0]) then [x] + s
    else [s[0]] + InsertList(longest, x, s[1..])
  }

  lemma {:induction false} InsertListMembers(longest: bool, x: seq<int>, s: seq<seq<int>>, y: seq<int>)
    ensures y in InsertList(longest, x, s) <==> y == x || y in s
  {
    if s != [] && !Ranked(longest, x, s[0]) {
      InsertListMembers(longest, x, s[1..], y);
      assert s == [s[0]] + s[1..];
    }
  }

  lemma {:induction false} InsertListRanks(longest: bool, x: seq<int>, s: seq<seq<int>>)
    requires RankedList(longest, s) && x !in s
    ensures RankedList(longest, InsertList(longest, x, s))
  {
    if s != [] {
      if Ranked(longest, x, s[0]) {
        forall j | 0 <= j < |s| ensures Ranked(longest, x, s[j]) {
          if j > 0 {
            RankedTransitive(longest, x, s[0], s[j]);
          }
        }
      } else {
        LexTotal(x, s[0]);
        var r := InsertList(longest, x, s[1..]);
        InsertListRanks(longest, x, s[1..]);
        forall k | 0 <= k < |r| ensures Ranked(longest, s[0], r[k]) {
          InsertListMembers(longest, x, s[1..], r[k]);
          assert r[k] in s[1..] ==> exists j :: 0 < j < |s| && s[j] == r[k];
        }
      }
    }
  }

  /** Two ranked lists with the same members are the same list. */
  lemma {:induction false} RankedUnique(longest: bool, a: seq<seq<int>>, b: seq<seq<int>>)
    requires RankedList(longest, a) && RankedList(longest, b)
    requires forall x :: x in a <==> x in b
    ensures a == b
  {
    if a == [] {
      FirstMember(b);
    } else {
      assert a[0] in b && b != [];
      assert b[0] in a;
      FirstIsFirst(longest, a, b);
      forall x ensures x in a[1..] <==> x in b[1..] {
        RestMembers(longest, a, x);
        RestMembers(longest, b, x);
      }
      RankedUnique(longest, a[1..], b[1..]);
      assert a == [a[0]] + a[1..] && b == [b[0]] + b[1..];
    }
  }

  lemma FirstIsFirst(longest: bool, a: seq<seq<int>>, b: seq<seq<int>>)
    requires RankedList(longest, a) && RankedList(longest, b) && a != [] && b != [] && a[0] in b && b[0] in a
    ensures a[0] == b[0]
  {
    var i :| 0 <= i < |b| && b[i] == a[0];
    var j :| 0 <= j < |a| && a[j] == b[0];
    LexTotal(a[0], b[0]);
    assert i > 0 ==> Ranked(longest, b[0], b[i]);
    assert j > 0 ==> Ranked(longest, a[0], a[j]);
  }

  lemma RestMembers(longest: bool, a: seq<seq<int>>, x: seq<int>)
    requires RankedList(longest, a) && a != []
    ensures x in a[1..] <==> x in a && x != a[0]
  {
    LexTotal(a[0], a[0]);
    if x in a[1..] {
      var i :| 0 < i < |a| && a[i] == x;
      assert Ranked(longest, a[0], a[i]);
    }
  }
}

/** The groups that fold over a line of anchors: `_flippable_groups` of tools/survey_solve.py. */
module Flipping {
  import opened Prelude
  import opened Orders
  import opened Frameworks

  /** Every edge joins listed anchors; no anchor is listed twice; each has an estimated position. */
  ghost predicate Survey(ids: seq<int>, edges: seq<Edge>, xy: seq<Point>) {
    && |xy| == |ids|
    && (forall i, j :: 0 <= i < j < |ids| ==> ids[i] != ids[j])
    && (forall k :: 0 <= k < |edges| ==> edges[k].a in ids && edges[k].b in ids)
  }

  ghost predicate Measured(edges: seq<Edge>, u: int, v: int) {
    Edge(u, v) in edges || Edge(v, u) in edges
  }

  // ---------------------------------------------------------------- connected components

  /** No measured pair leads from `c` to another of the remaining anchors. */
  ghost predicate Closed(edges: seq<Edge>, rest: set<int>, c: set<int>) {
    forall u, v :: u in c && v in rest && Measured(edges, u, v) ==> v in c
  }

  /** A connected component of the remaining anchors: closed, with no smaller closed part. */
  ghost predicate Component(edges: seq<Edge>, rest: set<int>, c: set<int>) {
    && c != {} && c <= rest && Closed(edges, rest, c)
    && forall d :: d <= c && d != {} && Closed(edges, rest, d) ==> d == c
  }

  /** All components of what a separator leaves, the largest first. */
  ghost predicate Components(edges: seq<Edge>, rest: set<int>, list: seq<seq<int>>) {
    && RankedList(true, list)
    && (forall i :: 0 <= i < |list| ==> Ascending(list[i]) && Component(edges, rest, Elements(list[i])))
    && (forall u :: u in rest ==> exists i :: 0 <= i < |list| && u in list[i])
  }

  function Rest(ids: seq<int>, separator: set<int>): set<int> {
    set u | u in ids && u !in separator
  }

  lemma ComponentInhabited(edges: seq<Edge>, rest: set<int>, c: set<int>)
    requires Component(edges, rest, c)
    ensures exists u :: u in c
  {
    HasNumber(c);
  }

  /** Two components that meet are the same. */
  lemma ComponentsMeet(edges: seq<Edge>, rest: set<int>, c: set<int>, d: set<int>, u: int)
    requires Component(edges, rest, c) && Component(edges, rest, d) && u in c && u in d
    ensures c == d
  {
    assert u in c * d;
    assert Closed(edges, rest, c * d);
    assert c * d == c && c * d == d;
  }

  lemma ListedComponent(edges: seq<Edge>, rest: set<int>, list: seq<seq<int>>, i: nat)
    requires Components(edges, rest, list) && i < |list|
    ensures Ascending(list[i]) && Component(edges, rest, Elements(list[i])) && Elements(list[i]) <= rest
  {
    hide RankedList, Ascending;
  }

  lemma ListedWith(edges: seq<Edge>, rest: set<int>, list: seq<seq<int>>, u: int) returns (i: nat)
    requires Components(edges, rest, list) && u in rest
    ensures i < |list| && u in Elements(list[i])
  {
    hide RankedList, Ascending, Component;
    i :| i < |list| && u in list[i];
  }

  /** The search's choices do not matter: the list of components is unique. */
  lemma ComponentsUnique(edges: seq<Edge>, rest: set<int>, a: seq<seq<int>>, b: seq<seq<int>>)
    requires Components(edges, rest, a) && Components(edges, rest, b)
    ensures a == b
  {
    hide Component, Ascending;
    forall x ensures x in a <==> x in b {
      if x in a {
        ComponentListed(edges, rest, a, b, x);
      }
      if x in b {
        ComponentListed(edges, rest, b, a, x);
      }
    }
    RankedUnique(true, a, b);
  }

  lemma ComponentListed(edges: seq<Edge>, rest: set<int>, a: seq<seq<int>>, b: seq<seq<int>>, x: seq<int>)
    requires Components(edges, rest, a) && Components(edges, rest, b) && x in a
    ensures x in b
  {
    hide Components, Component, Ascending, Elements;
    var k :| 0 <= k < |a| && a[k] == x;
    ListedComponent(edges, rest, a, k);
    ComponentInhabited(edges, rest, Elements(x));
    var u :| u in Elements(x);
    var i := ListedWith(edges, rest, b, u);
    ListedComponent(edges, rest, b, i);
    ComponentsMeet(edges, rest, Elements(x), Elements(b[i]), u);
    AscendingUnique(x, b[i]);
  }

  /** Different components are disjoint. */
  lemma ComponentsDisjoint(edges: seq<Edge>, rest: set<int>, list: seq<seq<int>>, i: nat, j: nat)
    requires Components(edges, rest, list) && i < j < |list|
    ensures Elements(list[i]) !! Elements(list[j])
  {
    ListedComponent(edges, rest, list, i);
    ListedComponent(edges, rest, list, j);
    ListedOnce(edges, rest, list, i, j);
    hide Components, Component, Ascending, Elements;
    forall u | u in Elements(list[i]) ensures u !in Elements(list[j]) {
      if u in Elements(list[j]) {
        ComponentsMeet(edges, rest, Elements(list[i]), Elements(list[j]), u);
        AscendingUnique(list[i], list[j]);
      }
    }
  }

  lemma ListedOnce(edges: seq<Edge>, rest: set<int>, list: seq<seq<int>>, i: nat, j: nat)
    requires Components(edges, rest, list) && i < j < |list|
    ensures list[i] != list[j]
  {
    hide Component, Ascending;
    LexTotal(list[i], list[i]);
  }

  ghost predicate NeighborsOf(ids: seq<int>, edges: seq<Edge>, neighbors: map<int, set<int>>) {
    && (forall u :: u in ids <==> u in neighbors)
    && (forall u, v :: u in neighbors ==> (v in neighbors[u] <==> Measured(edges, u, v)))
  }

  method BuildNeighbors(ids: seq<int>, edges: seq<Edge>) returns (neighbors: map<int, set<int>>)
    requires forall k :: 0 <= k < |edges| ==> edges[k].a in ids && edges[k].b in ids
    ensures NeighborsOf(ids, edges, neighbors)
  {
    neighbors := map u | u in ids :: {};
    for k := 0 to |edges|
      invariant NeighborsOf(ids, edges[..k], neighbors)
    {
      var e := edges[k];
      assert edges[..k + 1] == edges[..k] + [e];
      neighbors := neighbors[e.a := neighbors[e.a] + {e.b}];
      neighbors := neighbors[e.b := neighbors[e.b] + {e.a}];
    }
    assert edges[..|edges|] == edges;
  }

  /** Everything found must belong to any closed set holding the start. */
  ghost predicate Reached(edges: seq<Edge>, rest: set<int>, start: int, found: set<int>) {
    forall d :: start in d && Closed(edges, rest, d) ==> found <= d
  }

  /** A closed set that every closed set with its start contains is a component. */
  lemma ReachedIsComponent(edges: seq<Edge>, rest: set<int>, start: int, c: set<int>)
    requires start in c && c <= rest && Closed(edges, rest, c) && Reached(edges, rest, start, c)
    ensures Component(edges, rest, c)
  {
    forall d | d <= c && d != {} && Closed(edges, rest, d) ensures d == c {
      if start !in d {
        HasNumber(d);
        ComplementClosed(edges, rest, c, d);
      }
    }
  }

  lemma ComplementClosed(edges: seq<Edge>, rest: set<int>, c: set<int>, d: set<int>)
    requires d <= c <= rest && Closed(edges, rest, c) && Closed(edges, rest, d)
    ensures Closed(edges, rest, c - d)
  {
    forall u, v | u in c - d && v in rest && Measured(edges, u, v) ensures v in c - d {
      assert Measured(edges, v, u);
    }
  }

  /** Pushes the unseen neighbours of a node. */
  method PushNeighbors(found: set<int>, unseen0: set<int>, stack0: seq<int>)
      returns (unseen: set<int>, stack: seq<int>)
    requires Distinct(stack0)
    requires Elements(stack0) !! unseen0
    ensures unseen == unseen0 - found
    ensures Elements(stack) == Elements(stack0) + found * unseen0
    ensures Distinct(stack)
  {
    unseen, stack := unseen0, stack0;
    var left := found;
    while left != {}
      invariant left <= found
      invariant unseen == unseen0 - (found - left)
      invariant Elements(stack) == Elements(stack0) + (found - left) * unseen0
      invariant Distinct(stack)
      decreases left
    {
      HasNumber(left);
      var other :| other in left;
      left := left - {other};
      if other in unseen {
        assert other !in Elements(stack);
        ElementsSnoc(stack, other);
        unseen := unseen - {other};
        stack := stack + [other];
      }
    }
  }

  lemma ElementsSnoc(s: seq<int>, x: int)
    ensures Elements(s + [x]) == Elements(s) + {x}
  {}

  /** One search: the component of an unseen anchor, taken out of the unseen ones. */
  method Search(ids: seq<int>, edges: seq<Edge>, neighbors: map<int, set<int>>, ghost rest: set<int>, unseen0: set<int>, start: int)
      returns (component: seq<int>, unseen: set<int>)
    requires NeighborsOf(ids, edges, neighbors) && (forall u :: u in rest ==> u in ids)
    requires start in unseen0 && unseen0 <= rest && Closed(edges, rest, unseen0)
    ensures Component(edges, rest, Elements(component)) && start in Elements(component)
    ensures Distinct(component)
    ensures unseen == unseen0 - Elements(component) && Elements(component) <= unseen0
    ensures Closed(edges, rest, unseen)
  {
    unseen := unseen0 - {start};
    var stack := [start];
    component := [];
    SearchStart(edges, rest, start, unseen0);
    hide Searching, Component, Closed, NeighborsOf, Elements, Distinct;
    while stack != []
      invariant Searching(edges, rest, start, unseen0, unseen, Elements(component), Elements(stack))
      invariant Distinct(stack) && Distinct(component)
      decreases |unseen| + |stack|
    {
      var node := stack[|stack| - 1];
      var below := stack[..|stack| - 1];
      StackTop(stack);
      NodeFacts(ids, edges, neighbors, rest, start, unseen0, unseen, Elements(component), Elements(below), node);
      Snoc(component, node);
      var unseen1, stack1 := PushNeighbors(neighbors[node], unseen, below);
      SearchStep(edges, rest, start, unseen0, unseen, Elements(component), Elements(below), node, neighbors[node]);
      SmallerSearch(unseen, unseen1, stack, below, stack1, neighbors[node]);
      component, unseen, stack := component + [node], unseen1, stack1;
    }
    EmptyStack();
    SearchEnd(edges, rest, start, unseen0, unseen, Elements(component));
  }

  lemma StackTop(stack: seq<int>)
    requires Distinct(stack) && stack != []
    ensures var node, below := stack[|stack| - 1], stack[..|stack| - 1];
      Distinct(below) && node !in Elements(below) && Elements(stack) == Elements(below) + {node}
  {
    var node, below := stack[|stack| - 1], stack[..|stack| - 1];
    assert stack == below + [node];
    ElementsSnoc(below, node);
  }

  lemma Snoc(s: seq<int>, x: int)
    requires Distinct(s) && x !in Elements(s)
    ensures Distinct(s + [x]) && Elements(s + [x]) == Elements(s) + {x}
  {}

  lemma EmptyStack()
    ensures Elements([]) == {} && Distinct<int>([])
  {}

  lemma SearchStart(edges: seq<Edge>, rest: set<int>, start: int, all: set<int>)
    requires start in all
    ensures Distinct<int>([]) && Distinct([start])
    ensures Searching(edges, rest, start, all, all - {start}, Elements([]), Elements([start]))
  {
    assert Elements([]) == {} && Elements([start]) == {start};
  }

  lemma NodeFacts(ids: seq<int>, edges: seq<Edge>, neighbors: map<int, set<int>>, rest: set<int>, start: int,
                  all: set<int>, unseen: set<int>, done: set<int>, below: set<int>, node: int)
    requires Searching(edges, rest, start, all, unseen, done, below + {node}) && all <= rest && node !in below
    requires NeighborsOf(ids, edges, neighbors) && forall u :: u in rest ==> u in ids
    ensures node in neighbors && node !in done && below !! unseen
    ensures forall v :: v in neighbors[node] <==> Measured(edges, node, v)
  {
    assert node in below + {node};
  }

  /** What holds between two rounds of the search. */
  ghost predicate Searching(edges: seq<Edge>, rest: set<int>, start: int, all: set<int>, unseen: set<int>,
                            done: set<int>, waiting: set<int>) {
    && Splits(all, unseen, done, waiting) && start in done + waiting
    && Reached(edges, rest, start, done + waiting) && Explored(edges, rest, done, waiting)
  }

  lemma SearchEnd(edges: seq<Edge>, rest: set<int>, start: int, all: set<int>, unseen: set<int>, done: set<int>)
    requires Searching(edges, rest, start, all, unseen, done, {}) && all <= rest && Closed(edges, rest, all)
    ensures Component(edges, rest, done) && start in done && done <= all
    ensures unseen == all - done && Closed(edges, rest, unseen)
  {
    assert done + {} == done;
    ReachedIsComponent(edges, rest, start, done);
    ComplementClosed(edges, rest, all, done);
    assert unseen == all - done;
  }

  /** The anchors the search started from are unseen, done or waiting, one of the three. */
  ghost predicate Splits(all: set<int>, unseen: set<int>, done: set<int>, waiting: set<int>) {
    unseen !! done && unseen !! waiting && done !! waiting && all == unseen + done + waiting
  }

  /** The neighbours of what is done are done or waiting. */
  ghost predicate Explored(edges: seq<Edge>, rest: set<int>, done: set<int>, waiting: set<int>) {
    forall u, v :: u in done && v in rest && Measured(edges, u, v) ==> v in done || v in waiting
  }

  lemma SearchStep(edges: seq<Edge>, rest: set<int>, start: int, all: set<int>, unseen: set<int>,
                   done: set<int>, below: set<int>, node: int, next: set<int>)
    requires all <= rest && Closed(edges, rest, all) && node !in below
    requires forall v :: v in next <==> Measured(edges, node, v)
    requires Searching(edges, rest, start, all, unseen, done, below + {node})
    ensures Searching(edges, rest, start, all, unseen - next, done + {node}, below + next * unseen)
  {
    var done1, waiting1 := done + {node}, below + next * unseen;
    forall d | start in d && Closed(edges, rest, d) ensures done1 + waiting1 <= d {
      assert node in d;
      forall v | v in next * unseen ensures v in d {
        assert v in rest && Measured(edges, node, v);
      }
    }
    forall u, v | u in done1 && v in rest && Measured(edges, u, v) ensures v in done1 || v in waiting1 {
      if u == node {
        assert u in all && v in all;
      }
    }
  }

  lemma DistinctSize(s: seq<int>)
    requires Distinct(s)
    ensures |Elements(s)| == |s|
  {
    if s != [] {
      var front, last := s[..|s| - 1], s[|s| - 1];
      DistinctSize(front);
      assert s == front + [last];
      ElementsSnoc(front, last);
    }
  }

  /** Each round moves one anchor from unseen or stack to the component. */
  lemma SmallerSearch(unseen: set<int>, unseen1: set<int>, stack: seq<int>, below: seq<int>, stack1: seq<int>, found: set<int>)
    requires unseen1 == unseen - found && |stack| == |below| + 1
    requires Elements(stack1) == Elements(below) + found * unseen && Elements(below) !! unseen
    requires Distinct(stack1)
    requires Distinct(below)
    ensures |unseen1| + |stack1| < |unseen| + |stack|
  {
    DistinctSize(stack1);
    DistinctSize(below);
    assert unseen == unseen1 + found * unseen;
    assert Elements(below) !! (found * unseen);
  }

  /** All components of what the separator leaves, sorted. */
  method FindComponents(ids: seq<int>, edges: seq<Edge>, neighbors: map<int, set<int>>, separator: set<int>)
      returns (components: seq<seq<int>>)
    requires NeighborsOf(ids, edges, neighbors)
    ensures Components(edges, Rest(ids, separator), components)
  {
    var rest := Rest(ids, separator);
    var unseen := rest;
    components := [];
    while unseen != {}
      invariant unseen <= rest && Closed(edges, rest, unseen)
      invariant RankedList(true, components)
      invariant forall i :: 0 <= i < |components| ==>
        && Ascending(components[i]) && Component(edges, rest, Elements(components[i]))
        && Elements(components[i]) !! unseen
      invariant forall u :: u in rest && u !in unseen ==> exists i :: 0 <= i < |components| && u in components[i]
      decreases unseen
    {
      HasNumber(unseen);
      var start :| start in unseen;
      var component, left := Search(ids, edges, neighbors, rest, unseen, start);
      var sorted := SortIds(component);
      assert start in Elements(sorted);
      components := AddComponent(edges, rest, components, sorted, unseen, left);
      unseen := left;
    }
  }

  method AddComponent(ghost edges: seq<Edge>, ghost rest: set<int>, list: seq<seq<int>>, sorted: seq<int>,
                      ghost unseen: set<int>, ghost left: set<int>) returns (r: seq<seq<int>>)
    requires RankedList(true, list)
    requires forall i :: 0 <= i < |list| ==>
      && Ascending(list[i]) && Component(edges, rest, Elements(list[i])) && Elements(list[i]) !! unseen
    requires forall u :: u in rest && u !in unseen ==> exists i :: 0 <= i < |list| && u in list[i]
    requires Ascending(sorted) && Component(edges, rest, Elements(sorted)) && Elements(sorted) <= unseen
    requires left == unseen - Elements(sorted)
    ensures RankedList(true, r)
    ensures forall i :: 0 <= i < |r| ==>
      && Ascending(r[i]) && Component(edges, rest, Elements(r[i])) && Elements(r[i]) !! left
    ensures forall u :: u in rest && u !in left ==> exists i :: 0 <= i < |r| && u in r[i]
  {
    hide Component;
    r := InsertList(true, sorted, list);
    if sorted in list {
      var i :| 0 <= i < |list| && list[i] == sorted;
      ComponentInhabited(edges, rest, Elements(sorted));
    }
    InsertListRanks(true, sorted, list);
    forall i | 0 <= i < |r|
      ensures Ascending(r[i]) && Component(edges, rest, Elements(r[i])) && Elements(r[i]) !! left
    {
      InsertListMembers(true, sorted, list, r[i]);
    }
    forall u | u in rest && u !in left ensures exists i :: 0 <= i < |r| && u in r[i] {
      if u in unseen {
        InsertListMembers(true, sorted, list, sorted);
        assert u in sorted;
      } else {
        var i :| 0 <= i < |list| && u in list[i];
        InsertListMembers(true, sorted, list, list[i]);
      }
    }
  }

  // ---------------------------------------------------------------- separators

  /** Twice the signed area of the triangle: zero exactly when `k` is on the line through `a` and `b`. */
  function Cross(a: Point, b: Point, k: Point): real {
    (b.x - a.x) * (k.y - a.y) - (b.y - a.y) * (k.x - a.x)
  }

  function SquaredLength(a: Point, b: Point): real {
    (b.x - a.x) * (b.x - a.x) + (b.y - a.y) * (b.y - a.y)
  }

  /** `k` is at most `tolerance` from the line through `a` and `b`, in squares. */
  predicate NearLine(a: Point, b: Point, k: Point, tolerance: real) {
    Cross(a, b, k) * Cross(a, b, k) <= tolerance * tolerance * SquaredLength(a, b)
  }

  /** The point `t` of the way from `a` to `b`, on their line. */
  function AlongLine(a: Point, b: Point, t: real): Point {
    Point(a.x + t * (b.x - a.x), a.y + t * (b.y - a.y))
  }

  /** A point is near the line exactly when some point of the line is within the tolerance. */
  lemma NearLineMeans(a: Point, b: Point, k: Point, tolerance: real)
    requires a != b
    ensures NearLine(a, b, k, tolerance)
       <==> exists t: real :: SquaredLength(AlongLine(a, b, t), k) <= tolerance * tolerance
  {
    hide AlongLine, Cross;
    LengthPositive(a, b);
    var l, c := SquaredLength(a, b), Cross(a, b, k);
    var limit := tolerance * tolerance;
    forall t: real | SquaredLength(AlongLine(a, b, t), k) <= limit ensures NearLine(a, b, k, tolerance) {
      DistanceFromLine(a, b, k, t);
      ScaledOrder(SquaredLength(AlongLine(a, b, t), k), limit, l);
      var off := AlongBy(a, b, k) - t * l;
      SquarePositive(off, off * off);
    }
    if NearLine(a, b, k, tolerance) {
      var foot := AlongBy(a, b, k) / l;
      DistanceFromLine(a, b, k, foot);
      ScaledOrderBack(SquaredLength(AlongLine(a, b, foot), k), limit, l);
    }
  }

  /** How far along the line from `a` to `b` the point `k` is, in units of its squared length. */
  function AlongBy(a: Point, b: Point, k: Point): real {
    (b.x - a.x) * (k.x - a.x) + (b.y - a.y) * (k.y - a.y)
  }

  lemma DistanceFromLine(a: Point, b: Point, k: Point, t: real)
    ensures var l, off := SquaredLength(a, b), AlongBy(a, b, k) - t * SquaredLength(a, b);
      SquaredLength(AlongLine(a, b, t), k) * l == Cross(a, b, k) * Cross(a, b, k) + off * off
  {
    var dx, dy, kx, ky := b.x - a.x, b.y - a.y, k.x - a.x, k.y - a.y;
    var u, v, dot := kx - t * dx, ky - t * dy, dx * kx + dy * ky - t * (dx * dx + dy * dy);
    OffTheLine(dx, dy, kx, ky, t);
    Lagrange(dx, dy, u, v, dx * ky - dy * kx, dot);
    LengthBy(AlongLine(a, b, t), k, u, v);
    LengthBy(a, b, dx, dy);
    hide SquaredLength, AlongLine;
  }

  lemma LengthBy(a: Point, b: Point, dx: real, dy: real)
    requires b.x - a.x == dx && b.y - a.y == dy
    ensures SquaredLength(a, b) == dx * dx + dy * dy
  {}

  lemma OffTheLine(dx: real, dy: real, kx: real, ky: real, t: real)
    ensures dx * (ky - t * dy) - dy * (kx - t * dx) == dx * ky - dy * kx
    ensures dx * (kx - t * dx) + dy * (ky - t * dy) == dx * kx + dy * ky - t * (dx * dx + dy * dy)
  {
    assert dx * (ky - t * dy) == dx * ky - t * (dx * dy) && dy * (kx - t * dx) == dy * kx - t * (dx * dy);
    assert dx * (kx - t * dx) == dx * kx - t * (dx * dx) && dy * (ky - t * dy) == dy * ky - t * (dy * dy);
  }

  /** The identity of Lagrange in the plane. */
  lemma Lagrange(a: real, b: real, c: real, d: real, cross: real, dot: real)
    requires a * d - b * c == cross && a * c + b * d == dot
    ensures (c * c + d * d) * (a * a + b * b) == cross * cross + dot * dot
  {}

  lemma LengthPositive(a: Point, b: Point)
    requires a != b
    ensures SquaredLength(a, b) > 0.0
  {
    var dx, dy := b.x - a.x, b.y - a.y;
    LengthBy(a, b, dx, dy);
    SquaresPositive(dx, dy, SquaredLength(a, b));
  }

  lemma SquaresPositive(x: real, y: real, sum: real)
    requires (x != 0.0 || y != 0.0) && sum == x * x + y * y
    ensures sum > 0.0
  {
    SquarePositive(x, x * x);
    SquarePositive(y, y * y);
  }

  lemma SquarePositive(x: real, square: real)
    requires square == x * x
    ensures square >= 0.0 && (x != 0.0 ==> square > 0.0)
  {
    if x > 0.0 {
      ProductPositive(x, x, square);
    } else if x < 0.0 {
      ProductPositive(-x, -x, square);
    }
  }

  lemma ProductPositive(x: real, y: real, product: real)
    requires x > 0.0 && y > 0.0 && product == x * y
    ensures product > 0.0
  {}

  lemma ScaledOrder(x: real, y: real, l: real)
    requires x <= y && l > 0.0
    ensures x * l <= y * l
  {}

  lemma ScaledOrderBack(x: real, y: real, l: real)
    requires x * l <= y * l && l > 0.0
    ensures x <= y
  {}

  /** The anchors near the line through the `a`-th and the `b`-th. */
  ghost function OnLine(ids: seq<int>, xy: seq<Point>, tolerance: real, a: nat, b: nat): set<int>
    requires |xy| == |ids| && a < |ids| && b < |ids|
  {
    set k | 0 <= k < |ids| && NearLine(xy[a], xy[b], xy[k], tolerance) :: ids[k]
  }

  /** A pair of anchors, or three or more in line with two that are far enough apart. */
  ghost predicate Candidate(ids: seq<int>, xy: seq<Point>, tolerance: real, a: nat, b: nat, s: set<int>)
    requires |xy| == |ids| && a < |ids| && b < |ids|
  {
    || s == {ids[a], ids[b]}
    || (&& SquaredLength(xy[a], xy[b]) >= tolerance * tolerance
        && |OnLine(ids, xy, tolerance, a, b)| > 2 && s == OnLine(ids, xy, tolerance, a, b))
  }

  ghost predicate Separator(ids: seq<int>, xy: seq<Point>, tolerance: real, s: set<int>)
    requires |xy| == |ids|
  {
    exists a: nat, b: nat :: a < b < |ids| && Candidate(ids, xy, tolerance, a, b, s)
  }

  /** The separators, the smallest first. */
  ghost predicate Separators(ids: seq<int>, xy: seq<Point>, tolerance: real, list: seq<seq<int>>)
    requires |xy| == |ids|
  {
    && RankedList(false, list)
    && (forall s :: s in list <==> Ascending(s) && Separator(ids, xy, tolerance, Elements(s)))
  }

  ghost function OnLineBefore(ids: seq<int>, xy: seq<Point>, tolerance: real, a: nat, b: nat, n: nat): set<int>
    requires |xy| == |ids| && a < |ids| && b < |ids| && n <= |ids|
  {
    set k | 0 <= k < n && NearLine(xy[a], xy[b], xy[k], tolerance) :: ids[k]
  }

  method CollectOnLine(ids: seq<int>, xy: seq<Point>, tolerance: real, a: nat, b: nat) returns (line: seq<int>)
    requires |xy| == |ids| && a < |ids| && b < |ids| && Distinct(ids)
    ensures Distinct(line) && Elements(line) == OnLine(ids, xy, tolerance, a, b)
  {
    line := [];
    for k := 0 to |ids|
      invariant Distinct(line)
      invariant Elements(line) == OnLineBefore(ids, xy, tolerance, a, b, k)
    {
      if NearLine(xy[a], xy[b], xy[k], tolerance) {
        assert ids[k] !in Elements(line);
        Snoc(line, ids[k]);
        line := line + [ids[k]];
      }
    }
  }

  /** The pairs before `(a, b)` in the order of the two loops. */
  ghost predicate SeparatorBefore(ids: seq<int>, xy: seq<Point>, tolerance: real, a: nat, b: nat, s: set<int>)
    requires |xy| == |ids|
  {
    exists i: nat, j: nat ::
      i < j < |ids| && (i < a || (i == a && j < b)) && Candidate(ids, xy, tolerance, i, j, s)
  }

  method CollectSeparators(ids: seq<int>, xy: seq<Point>, tolerance: real) returns (separators: set<set<int>>)
    requires |xy| == |ids| && Distinct(ids) && tolerance > 0.0
    ensures forall s :: s in separators <==> Separator(ids, xy, tolerance, s)
  {
    separators := {};
    for a := 0 to |ids|
      invariant forall s :: s in separators <==> SeparatorBefore(ids, xy, tolerance, a, a + 1, s)
    {
      for b := a + 1 to |ids|
        invariant forall s :: s in separators <==> SeparatorBefore(ids, xy, tolerance, a, b, s)
      {
        ghost var before := separators;
        separators := separators + {{ids[a], ids[b]}};
        if SquaredLength(xy[a], xy[b]) >= tolerance * tolerance {
          var line := CollectOnLine(ids, xy, tolerance, a, b);
          DistinctSize(line);
          if |line| > 2 {
            separators := separators + {Elements(line)};
          }
        }
        forall s ensures s in separators <==> SeparatorBefore(ids, xy, tolerance, a, b + 1, s) {
          NextPair(ids, xy, tolerance, a, b, s);
        }
      }
      forall s ensures s in separators <==> SeparatorBefore(ids, xy, tolerance, a + 1, a + 2, s) {
        NextRow(ids, xy, tolerance, a, s);
      }
    }
  }

  lemma NextPair(ids: seq<int>, xy: seq<Point>, tolerance: real, a: nat, b: nat, s: set<int>)
    requires |xy| == |ids| && a < b < |ids|
    ensures SeparatorBefore(ids, xy, tolerance, a, b + 1, s)
       <==> SeparatorBefore(ids, xy, tolerance, a, b, s) || Candidate(ids, xy, tolerance, a, b, s)
  {
    hide Candidate;
  }

  lemma NextRow(ids: seq<int>, xy: seq<Point>, tolerance: real, a: nat, s: set<int>)
    requires |xy| == |ids| && a < |ids|
    ensures SeparatorBefore(ids, xy, tolerance, a + 1, a + 2, s) <==> SeparatorBefore(ids, xy, tolerance, a, |ids|, s)
  {
    hide Candidate;
  }

  method ListOf(s: set<int>) returns (list: seq<int>)
    ensures Ascending(list) && Elements(list) == s
  {
    var left := s;
    list := [];
    while left != {}
      invariant left <= s && Ascending(list) && Elements(list) == s - left
      decreases left
    {
      HasNumber(left);
      var x :| x in left;
      assert x !in Elements(list);
      InsertIdAscends(x, list);
      InsertIdElements(x, list);
      list := InsertId(x, list);
      left := left - {x};
    }
  }

  /** The separators as ascending lists, ranked. */
  method SortSeparators(separators: set<set<int>>) returns (list: seq<seq<int>>)
    ensures RankedList(false, list)
    ensures forall s :: s in list <==> Ascending(s) && Elements(s) in separators
  {
    var left := separators;
    list := [];
    while left != {}
      invariant left <= separators && RankedList(false, list)
      invariant forall s :: s in list <==> Ascending(s) && Elements(s) in separators - left
      decreases left
    {
      var x :| x in left;
      var s := ListOf(x);
      ghost var before := list;
      InsertListRanks(false, s, list);
      list := InsertList(false, s, list);
      left := left - {x};
      forall t ensures t in list <==> Ascending(t) && Elements(t) in separators - left {
        InsertListMembers(false, s, before, t);
        if Ascending(t) && Elements(t) == x {
          AscendingUnique(s, t);
        }
      }
    }
  }

  // ---------------------------------------------------------------- the groups

  /** Every component but the first, with its separator. */
  function Others(separator: seq<int>, components: seq<seq<int>>): seq<(seq<int>, seq<int>)> {
    if components == [] then [] else seq(|components| - 1, j requires 0 <= j < |components| - 1 => (separator, components[j + 1]))
  }

  function Reported(separators: seq<seq<int>>, components: seq<seq<seq<int>>>): seq<(seq<int>, seq<int>)>
    requires |separators| == |components|
  {
    if separators == [] then []
    else
      var k := |separators| - 1;
      Reported(separators[..k], components[..k]) + Others(separators[k], components[k])
  }

  ghost predicate AllComponents(ids: seq<int>, edges: seq<Edge>, separators: seq<seq<int>>, components: seq<seq<seq<int>>>) {
    && |separators| == |components|
    && forall i :: 0 <= i < |separators| ==> Components(edges, Rest(ids, Elements(separators[i])), components[i])
  }

  /** The list names, separator by separator, all components it leaves but the largest. */
  ghost predicate Report(ids: seq<int>, edges: seq<Edge>, xy: seq<Point>, tolerance: real, groups: seq<(seq<int>, seq<int>)>)
    requires |xy| == |ids|
  {
    exists separators: seq<seq<int>>, components: seq<seq<seq<int>>> ::
      && Separators(ids, xy, tolerance, separators) && AllComponents(ids, edges, separators, components)
      && groups == Reported(separators, components)
  }

  /** An ascending list of the anchors of one connected component of `rest`. */
  ghost predicate Part(edges: seq<Edge>, rest: set<int>, c: seq<int>) {
    Ascending(c) && Component(edges, rest, Elements(c))
  }

  /** Of what the separator leaves, one part stays unreported: the longest, among equals the earliest. */
  ghost predicate KeepsLargest(ids: seq<int>, edges: seq<Edge>, s: seq<int>, groups: seq<(seq<int>, seq<int>)>) {
    var rest := Rest(ids, Elements(s));
    rest == {} ||
    exists c ::
      && Part(edges, rest, c) && (s, c) !in groups
      && forall d :: Part(edges, rest, d) && d != c ==> (s, d) in groups && LongerFirst(c, d)
  }

  /** Short separators come before long ones, and under one separator long parts before short ones. */
  ghost predicate GroupsInOrder(groups: seq<(seq<int>, seq<int>)>) {
    forall i, j :: 0 <= i < j < |groups| ==> GroupBefore(groups[i], groups[j])
  }

  ghost predicate GroupBefore(g: (seq<int>, seq<int>), h: (seq<int>, seq<int>)) {
    ShorterFirst(g.0, h.0) || (g.0 == h.0 && LongerFirst(g.1, h.1))
  }

  /** Reports, for every separator, all components it leaves but the largest. */
  method FlippableGroups(ids: seq<int>, edges: seq<Edge>, xy: seq<Point>, tolerance: real)
      returns (groups: seq<(seq<int>, seq<int>)>)
    requires Survey(ids, edges, xy) && tolerance > 0.0
    ensures Report(ids, edges, xy, tolerance, groups)
    ensures forall g :: g in groups ==>
      Ascending(g.0) && Separator(ids, xy, tolerance, Elements(g.0)) && Part(edges, Rest(ids, Elements(g.0)), g.1)
    ensures forall s :: Ascending(s) && Separator(ids, xy, tolerance, Elements(s)) ==> KeepsLargest(ids, edges, s, groups)
    ensures GroupsInOrder(groups)
  {
    var neighbors := BuildNeighbors(ids, edges);
    var found := CollectSeparators(ids, xy, tolerance);
    var sorted := SortSeparators(found);
    SeparatorsSorted(ids, xy, tolerance, found, sorted);
    ghost var components;
    groups, components := ReportEach(ids, edges, neighbors, sorted);
    ReportMade(ids, edges, xy, tolerance, sorted, components);
    ReportInPlainTerms(ids, edges, xy, tolerance, groups);
  }

  /** The loop over the separators. */
  method ReportEach(ids: seq<int>, edges: seq<Edge>, neighbors: map<int, set<int>>, sorted: seq<seq<int>>)
      returns (groups: seq<(seq<int>, seq<int>)>, ghost components: seq<seq<seq<int>>>)
    requires NeighborsOf(ids, edges, neighbors)
    ensures AllComponents(ids, edges, sorted, components) && |components| == |sorted|
    ensures groups == Reported(sorted, components)
  {
    components := [];
    groups := [];
    ReportedStart(ids, edges);
    hide AllComponents, NeighborsOf, Reported, Others, Elements, Rest, Components;
    for k := 0 to |sorted|
      invariant |components| == k && AllComponents(ids, edges, sorted[..k], components)
      invariant groups == Reported(sorted[..k], components)
    {
      var list := FindComponents(ids, edges, neighbors, Elements(sorted[k]));
      var more := OtherComponents(sorted[k], list);
      ReportedSnoc(ids, edges, sorted[..k], components, sorted[k], list);
      assert sorted[..k + 1] == sorted[..k] + [sorted[k]];
      groups := groups + more;
      components := components + [list];
    }
    assert sorted[..|sorted|] == sorted;
  }

  lemma SeparatorsSorted(ids: seq<int>, xy: seq<Point>, tolerance: real, found: set<set<int>>, sorted: seq<seq<int>>)
    requires |xy| == |ids| && RankedList(false, sorted)
    requires forall s :: s in found <==> Separator(ids, xy, tolerance, s)
    requires forall s :: s in sorted <==> Ascending(s) && Elements(s) in found
    ensures Separators(ids, xy, tolerance, sorted)
  {
    hide Separator, Ascending, Elements, RankedList;
  }

  lemma ReportMade(ids: seq<int>, edges: seq<Edge>, xy: seq<Point>, tolerance: real,
                   separators: seq<seq<int>>, components: seq<seq<seq<int>>>)
    requires |xy| == |ids| && |separators| == |components|
    requires Separators(ids, xy, tolerance, separators) && AllComponents(ids, edges, separators, components)
    ensures Report(ids, edges, xy, tolerance, Reported(separators, components))
  {
    hide Separators, AllComponents, Reported;
  }

  /** Pairs the separator with every component but the first. */
  method OtherComponents(separator: seq<int>, list: seq<seq<int>>) returns (more: seq<(seq<int>, seq<int>)>)
    ensures more == Others(separator, list)
  {
    more := [];
    if list != [] {
      for j := 1 to |list|
        invariant more == Others(separator, list)[..j - 1]
      {
        more := more + [(separator, list[j])];
      }
    }
  }

  lemma ReportedStart(ids: seq<int>, edges: seq<Edge>)
    ensures Reported([], []) == [] && AllComponents(ids, edges, [], [])
  {}

  lemma ReportedSnoc(ids: seq<int>, edges: seq<Edge>, separators: seq<seq<int>>, components: seq<seq<seq<int>>>,
                     s: seq<int>, list: seq<seq<int>>)
    requires AllComponents(ids, edges, separators, components)
    requires Components(edges, Rest(ids, Elements(s)), list)
    ensures AllComponents(ids, edges, separators + [s], components + [list])
    ensures Reported(separators + [s], components + [list]) == Reported(separators, components) + Others(s, list)
  {
    var k := |separators|;
    assert (separators + [s])[..k] == separators && (components + [list])[..k] == components;
  }

  /** The order in which sets are popped does not show: only one list of groups can be reported. */
  lemma GroupsDetermined(ids: seq<int>, edges: seq<Edge>, xy: seq<Point>, tolerance: real,
                         groups: seq<(seq<int>, seq<int>)>, others: seq<(seq<int>, seq<int>)>)
    requires Survey(ids, edges, xy)
    requires Report(ids, edges, xy, tolerance, groups) && Report(ids, edges, xy, tolerance, others)
    ensures groups == others
  {
    hide Components, Separator, Reported, RankedList;
    var s: seq<seq<int>>, c: seq<seq<seq<int>>> :|
      Separators(ids, xy, tolerance, s) && AllComponents(ids, edges, s, c) && groups == Reported(s, c);
    var t: seq<seq<int>>, d: seq<seq<seq<int>>> :|
      Separators(ids, xy, tolerance, t) && AllComponents(ids, edges, t, d) && others == Reported(t, d);
    RankedUnique(false, s, t);
    forall i | 0 <= i < |s| ensures c[i] == d[i] {
      ComponentsUnique(edges, Rest(ids, Elements(s[i])), c[i], d[i]);
    }
    assert c == d;
  }

  /** A group is reported exactly when it is a component of what some separator leaves, and not the first of them. */
  lemma ReportNames(ids: seq<int>, edges: seq<Edge>, xy: seq<Point>, tolerance: real,
                    groups: seq<(seq<int>, seq<int>)>, g: (seq<int>, seq<int>))
    requires Survey(ids, edges, xy) && Report(ids, edges, xy, tolerance, groups)
    ensures g in groups <==>
      && Ascending(g.0) && Separator(ids, xy, tolerance, Elements(g.0))
      && exists list :: Components(edges, Rest(ids, Elements(g.0)), list) && ReportedFor(g.0, list, g)
  {
    hide Components, Separator, Reported, RankedList, Ascending, ReportedFor;
    var s: seq<seq<int>>, c: seq<seq<seq<int>>> :|
      Separators(ids, xy, tolerance, s) && AllComponents(ids, edges, s, c) && groups == Reported(s, c);
    ReportedMembers(s, c, g);
    if g in groups {
      var i :| 0 <= i < |s| && ReportedFor(s[i], c[i], g);
      ReportedSeparator(s[i], c[i], g);
      assert s[i] in s;
      assert Components(edges, Rest(ids, Elements(g.0)), c[i]);
    }
    if Ascending(g.0) && Separator(ids, xy, tolerance, Elements(g.0))
       && exists list :: Components(edges, Rest(ids, Elements(g.0)), list) && ReportedFor(g.0, list, g) {
      var list :| Components(edges, Rest(ids, Elements(g.0)), list) && ReportedFor(g.0, list, g);
      assert g.0 in s;
      var i :| 0 <= i < |s| && s[i] == g.0;
      ComponentsUnique(edges, Rest(ids, Elements(g.0)), list, c[i]);
    }
  }

  lemma ReportedSeparator(separator: seq<int>, list: seq<seq<int>>, g: (seq<int>, seq<int>))
    requires ReportedFor(separator, list, g)
    ensures separator == g.0
  {}

  lemma {:induction false} ReportedMembers(s: seq<seq<int>>, c: seq<seq<seq<int>>>, g: (seq<int>, seq<int>))
    requires |s| == |c|
    ensures g in Reported(s, c) <==> exists i :: 0 <= i < |s| && ReportedFor(s[i], c[i], g)
  {
    if s != [] {
      var k := |s| - 1;
      ReportedMembers(s[..k], c[..k], g);
      OthersMembers(s[k], c[k], g);
      hide ReportedFor, Others;
      forall i | 0 <= i < k ensures s[i] == s[..k][i] && c[i] == c[..k][i] {}
    }
  }

  ghost predicate ReportedFor(separator: seq<int>, list: seq<seq<int>>, g: (seq<int>, seq<int>)) {
    g.0 == separator && exists j :: 0 < j < |list| && g.1 == list[j]
  }

  lemma OthersMembers(separator: seq<int>, list: seq<seq<int>>, g: (seq<int>, seq<int>))
    ensures g in Others(separator, list) <==> ReportedFor(separator, list, g)
  {
    var all := Others(separator, list);
    if g in all {
      var j :| 0 <= j < |all| && all[j] == g;
      assert g.1 == list[j + 1];
    }
    if ReportedFor(separator, list, g) {
      var j :| 0 < j < |list| && g.1 == list[j];
      assert all[j - 1] == g;
    }
  }

  /** Without the ranking: which groups are reported, which part of each remainder is not, and in what order. */
  lemma ReportInPlainTerms(ids: seq<int>, edges: seq<Edge>, xy: seq<Point>, tolerance: real, groups: seq<(seq<int>, seq<int>)>)
    requires Survey(ids, edges, xy) && Report(ids, edges, xy, tolerance, groups)
    ensures forall g :: g in groups ==>
      Ascending(g.0) && Separator(ids, xy, tolerance, Elements(g.0)) && Part(edges, Rest(ids, Elements(g.0)), g.1)
    ensures forall s :: Ascending(s) && Separator(ids, xy, tolerance, Elements(s)) ==> KeepsLargest(ids, edges, s, groups)
    ensures GroupsInOrder(groups)
  {
    forall g | g in groups
      ensures Ascending(g.0) && Separator(ids, xy, tolerance, Elements(g.0)) && Part(edges, Rest(ids, Elements(g.0)), g.1)
    {
      ReportedIsPart(ids, edges, xy, tolerance, groups, g);
    }
    forall s | Ascending(s) && Separator(ids, xy, tolerance, Elements(s)) ensures KeepsLargest(ids, edges, s, groups) {
      LargestIsKept(ids, edges, xy, tolerance, groups, s);
    }
    hide Components, Separator, Reported, RankedList, Ascending, KeepsLargest, GroupsInOrder;
    var s: seq<seq<int>>, c: seq<seq<seq<int>>> :|
      Separators(ids, xy, tolerance, s) && AllComponents(ids, edges, s, c) && groups == Reported(s, c);
    forall i | 0 <= i < |s| ensures RankedList(true, c[i]) {
      ComponentsRanked(edges, Rest(ids, Elements(s[i])), c[i]);
    }
    ReportedOrder(s, c);
  }

  lemma ComponentsRanked(edges: seq<Edge>, rest: set<int>, list: seq<seq<int>>)
    requires Components(edges, rest, list)
    ensures RankedList(true, list)
  {}

  lemma ReportedIsPart(ids: seq<int>, edges: seq<Edge>, xy: seq<Point>, tolerance: real,
                       groups: seq<(seq<int>, seq<int>)>, g: (seq<int>, seq<int>))
    requires Survey(ids, edges, xy) && Report(ids, edges, xy, tolerance, groups) && g in groups
    ensures Ascending(g.0) && Separator(ids, xy, tolerance, Elements(g.0)) && Part(edges, Rest(ids, Elements(g.0)), g.1)
  {
    hide Report, Separator, Components, Component, Ascending, Survey;
    ReportNames(ids, edges, xy, tolerance, groups, g);
    var list :| Components(edges, Rest(ids, Elements(g.0)), list) && ReportedFor(g.0, list, g);
    var j :| 0 < j < |list| && g.1 == list[j];
    ListedComponent(edges, Rest(ids, Elements(g.0)), list, j);
  }

  lemma LargestIsKept(ids: seq<int>, edges: seq<Edge>, xy: seq<Point>, tolerance: real,
                      groups: seq<(seq<int>, seq<int>)>, s: seq<int>)
    requires Survey(ids, edges, xy) && Report(ids, edges, xy, tolerance, groups)
    requires Ascending(s) && Separator(ids, xy, tolerance, Elements(s))
    ensures KeepsLargest(ids, edges, s, groups)
  {
    assert |xy| == |ids|;
    hide Report, Separator, Components, Component, Ascending, Survey, LongerFirst, Rest, Part;
    var rest := Rest(ids, Elements(s));
    var list := ComponentsOf(ids, edges, xy, tolerance, groups, s);
    if list == [] {
      NoneListed(edges, rest);
    } else {
      FirstStays(ids, edges, xy, tolerance, groups, s, list);
      forall d | Part(edges, rest, d) && d != list[0] ensures (s, d) in groups && LongerFirst(list[0], d) {
        OthersGo(ids, edges, xy, tolerance, groups, s, list, d);
      }
    }
  }

  lemma FirstStays(ids: seq<int>, edges: seq<Edge>, xy: seq<Point>, tolerance: real,
                   groups: seq<(seq<int>, seq<int>)>, s: seq<int>, list: seq<seq<int>>)
    requires Survey(ids, edges, xy) && Report(ids, edges, xy, tolerance, groups) && Ascending(s)
    requires Components(edges, Rest(ids, Elements(s)), list) && list != []
    ensures Part(edges, Rest(ids, Elements(s)), list[0]) && (s, list[0]) !in groups
  {
    hide Report, Separator, Components, Component, Ascending, Survey, LongerFirst, Rest;
    var rest, c := Rest(ids, Elements(s)), list[0];
    ListedComponent(edges, rest, list, 0);
    ReportNames(ids, edges, xy, tolerance, groups, (s, c));
    if (s, c) in groups {
      var other :| Components(edges, rest, other) && ReportedFor(s, other, (s, c));
      ComponentsUnique(edges, rest, other, list);
      var j :| 0 < j < |list| && c == list[j];
      ListedOnce(edges, rest, list, 0, j);
    }
  }

  lemma OthersGo(ids: seq<int>, edges: seq<Edge>, xy: seq<Point>, tolerance: real,
                 groups: seq<(seq<int>, seq<int>)>, s: seq<int>, list: seq<seq<int>>, d: seq<int>)
    requires Survey(ids, edges, xy) && Report(ids, edges, xy, tolerance, groups)
    requires Ascending(s) && Separator(ids, xy, tolerance, Elements(s))
    requires Components(edges, Rest(ids, Elements(s)), list) && list != []
    requires Part(edges, Rest(ids, Elements(s)), d) && d != list[0]
    ensures (s, d) in groups && LongerFirst(list[0], d)
  {
    hide Report, Separator, Components, Component, Ascending, Survey, LongerFirst, Rest, Part;
    var rest := Rest(ids, Elements(s));
    var j := PartListed(edges, rest, list, d);
    assert ReportedFor(s, list, (s, d));
    ReportNames(ids, edges, xy, tolerance, groups, (s, d));
    ComponentsRanked(edges, rest, list);
    assert Ranked(true, list[0], list[j]);
    RankedMeans(true, list[0], d);
  }

  lemma ComponentsOf(ids: seq<int>, edges: seq<Edge>, xy: seq<Point>, tolerance: real,
                     groups: seq<(seq<int>, seq<int>)>, s: seq<int>) returns (list: seq<seq<int>>)
    requires |xy| == |ids| && Report(ids, edges, xy, tolerance, groups)
    requires Ascending(s) && Separator(ids, xy, tolerance, Elements(s))
    ensures Components(edges, Rest(ids, Elements(s)), list)
  {
    hide Components, Separator, Reported, RankedList, Ascending;
    var all: seq<seq<int>>, c: seq<seq<seq<int>>> :|
      Separators(ids, xy, tolerance, all) && AllComponents(ids, edges, all, c) && groups == Reported(all, c);
    assert s in all;
    var i :| 0 <= i < |all| && all[i] == s;
    list := c[i];
  }

  lemma NoneListed(edges: seq<Edge>, rest: set<int>)
    requires Components(edges, rest, [])
    ensures rest == {}
  {
    HasNumber(rest);
  }

  lemma PartListed(edges: seq<Edge>, rest: set<int>, list: seq<seq<int>>, d: seq<int>) returns (j: nat)
    requires Components(edges, rest, list) && Part(edges, rest, d)
    ensures j < |list| && list[j] == d
  {
    ComponentInhabited(edges, rest, Elements(d));
    PartWithin(edges, rest, d);
    hide Components, Component, Ascending, Elements;
    var u :| u in Elements(d);
    j := ListedWith(edges, rest, list, u);
    ListedComponent(edges, rest, list, j);
    ComponentsMeet(edges, rest, Elements(d), Elements(list[j]), u);
    AscendingUnique(d, list[j]);
  }

  lemma PartWithin(edges: seq<Edge>, rest: set<int>, d: seq<int>)
    requires Part(edges, rest, d)
    ensures Elements(d) <= rest
  {}

  lemma {:induction false} ReportedOrder(s: seq<seq<int>>, c: seq<seq<seq<int>>>)
    requires |s| == |c| && RankedList(false, s) && forall i :: 0 <= i < |c| ==> RankedList(true, c[i])
    ensures GroupsInOrder(Reported(s, c))
  {
    if s != [] {
      var k := |s| - 1;
      ReportedOrder(s[..k], c[..k]);
      var before, last := Reported(s[..k], c[..k]), Others(s[k], c[k]);
      OthersOrder(s[k], c[k]);
      forall g, h | g in before && h in last ensures GroupBefore(g, h) {
        ReportedMembers(s[..k], c[..k], g);
        var i :| 0 <= i < k && ReportedFor(s[..k][i], c[..k][i], g);
        OthersMembers(s[k], c[k], h);
        RankedMeans(false, s[i], s[k]);
      }
      hide Reported, Others, GroupBefore, RankedList;
      OrderConcat(before, last);
    }
  }

  lemma OthersOrder(separator: seq<int>, list: seq<seq<int>>)
    requires RankedList(true, list)
    ensures GroupsInOrder(Others(separator, list))
  {
    var all := Others(separator, list);
    forall i, j | 0 <= i < j < |all| ensures GroupBefore(all[i], all[j]) {
      RankedMeans(true, list[i + 1], list[j + 1]);
    }
  }

  lemma OrderConcat(a: seq<(seq<int>, seq<int>)>, b: seq<(seq<int>, seq<int>)>)
    requires GroupsInOrder(a) && GroupsInOrder(b) && forall g, h :: g in a && h in b ==> GroupBefore(g, h)
    ensures GroupsInOrder(a + b)
  {
    var all := a + b;
    forall i, j | 0 <= i < j < |all| ensures GroupBefore(all[i], all[j]) {
      if i < |a| <= j {
        assert a[i] in a && b[j - |a|] in b;
      } else if i >= |a| {
        assert all[i] == b[i - |a|] && all[j] == b[j - |a|];
      }
    }
  }

  // ---------------------------------------------------------------- folding

  /** The mirror image of `q` in the line through `a` and `b`. */
  function Mirrored(a: Point, b: Point, q: Point): Point
    requires SquaredLength(a, b) != 0.0
  {
    Moved(a, b, q, 2.0 * Cross(a, b, q) / SquaredLength(a, b))
  }

  /** `q` moved square to the line through `a` and `b`. */
  function Moved(a: Point, b: Point, q: Point, t: real): Point {
    Point(q.x + t * (b.y - a.y), q.y - t * (b.x - a.x))
  }

  /** The positions with a group mirrored in the line through `a` and `b`. */
  function Folded(position: map<int, Point>, group: set<int>, a: Point, b: Point): (r: map<int, Point>)
    requires SquaredLength(a, b) != 0.0
  {
    map u | u in position :: if u in group then Mirrored(a, b, position[u]) else position[u]
  }

  /** How a squared distance changes when its ends move by `s` and `t` across the line. */
  lemma Shifted(a: Point, b: Point, p: Point, q: Point, s: real, t: real)
    ensures SquaredLength(Moved(a, b, p, s), Moved(a, b, q, t))
      == SquaredLength(p, q) + (t - s) * ((t - s) * SquaredLength(a, b) - 2.0 * (Cross(a, b, q) - Cross(a, b, p)))
  {
    hide Cross, Moved;
    var p1, q1 := Moved(a, b, p, s), Moved(a, b, q, t);
    MovedDifference(a, b, p, q, s, t);
    CrossDifference(a, b, p, q);
    Squares(q1.x - p1.x, q1.y - p1.y, q.x - p.x, q.y - p.y, b.x - a.x, b.y - a.y, t - s, Cross(a, b, q) - Cross(a, b, p));
  }

  lemma MovedDifference(a: Point, b: Point, p: Point, q: Point, s: real, t: real)
    ensures Moved(a, b, q, t).x - Moved(a, b, p, s).x == q.x - p.x + (t - s) * (b.y - a.y)
    ensures Moved(a, b, q, t).y - Moved(a, b, p, s).y == q.y - p.y - (t - s) * (b.x - a.x)
  {
    assert (t - s) * (b.y - a.y) == t * (b.y - a.y) - s * (b.y - a.y);
    assert (t - s) * (b.x - a.x) == t * (b.x - a.x) - s * (b.x - a.x);
  }

  lemma CrossDifference(a: Point, b: Point, p: Point, q: Point)
    ensures Cross(a, b, q) - Cross(a, b, p) == (b.x - a.x) * (q.y - p.y) - (b.y - a.y) * (q.x - p.x)
  {
    assert (b.x - a.x) * (q.y - a.y) - (b.x - a.x) * (p.y - a.y) == (b.x - a.x) * (q.y - p.y);
    assert (b.y - a.y) * (q.x - a.x) - (b.y - a.y) * (p.x - a.x) == (b.y - a.y) * (q.x - p.x);
  }

  lemma Squares(x: real, y: real, ex: real, ey: real, dx: real, dy: real, r: real, cross: real)
    requires x == ex + r * dy && y == ey - r * dx && cross == dx * ey - dy * ex
    ensures x * x + y * y == ex * ex + ey * ey + r * (r * (dx * dx + dy * dy) - 2.0 * cross)
  {
    assert x * x == ex * ex + 2.0 * (r * (dy * ex)) + r * r * (dy * dy);
    assert y * y == ey * ey - 2.0 * (r * (dx * ey)) + r * r * (dx * dx);
    assert r * (r * (dx * dx + dy * dy) - 2.0 * cross)
        == r * r * (dx * dx) + r * r * (dy * dy) - 2.0 * (r * (dx * ey)) + 2.0 * (r * (dy * ex));
  }

  lemma Ratio(c: real, l: real)
    requires l != 0.0
    ensures 2.0 * c / l * l == 2.0 * c
  {}

  /** Mirroring both ends keeps their distance. */
  lemma MirrorKeeps(a: Point, b: Point, p: Point, q: Point)
    requires SquaredLength(a, b) != 0.0
    ensures SquaredLength(Mirrored(a, b, p), Mirrored(a, b, q)) == SquaredLength(p, q)
  {
    hide SquaredLength, Cross, Moved;
    var l := SquaredLength(a, b);
    var s, t := 2.0 * Cross(a, b, p) / l, 2.0 * Cross(a, b, q) / l;
    Shifted(a, b, p, q, s, t);
    Ratio(Cross(a, b, p), l);
    Ratio(Cross(a, b, q), l);
    assert (t - s) * l == t * l - s * l;
  }

  /** Mirroring one end changes the distance exactly when both ends are off the line. */
  lemma MirrorMoves(a: Point, b: Point, p: Point, q: Point)
    requires SquaredLength(a, b) != 0.0
    ensures SquaredLength(Mirrored(a, b, p), q) == SquaredLength(p, q) <==> Cross(a, b, p) == 0.0 || Cross(a, b, q) == 0.0
  {
    hide SquaredLength, Cross, Moved;
    var l, c, d := SquaredLength(a, b), Cross(a, b, p), Cross(a, b, q);
    var s := 2.0 * c / l;
    Shifted(a, b, p, q, s, 0.0);
    NotMoved(a, b, q);
    Ratio(c, l);
    assert (0.0 - s) * l == -(s * l);
    assert SquaredLength(Mirrored(a, b, p), q) == SquaredLength(p, q) + (0.0 - s) * (-2.0 * d);
    SignOf(c, d, s, l);
  }

  lemma NotMoved(a: Point, b: Point, q: Point)
    ensures Moved(a, b, q, 0.0) == q
  {}

  lemma SignOf(c: real, d: real, s: real, l: real)
    requires l != 0.0 && s * l == 2.0 * c
    ensures (0.0 - s) * (-2.0 * d) == 0.0 <==> c == 0.0 || d == 0.0
  {
    assert s == 0.0 <==> c == 0.0;
    assert (0.0 - s) * (-2.0 * d) == 2.0 * (s * d);
    assert s * d == 0.0 <==> s == 0.0 || d == 0.0;
  }

  /** No measured pair leaves a component except into the separator. */
  lemma SealedOff(ids: seq<int>, edges: seq<Edge>, separator: set<int>, group: set<int>, k: nat)
    requires (forall k :: 0 <= k < |edges| ==> edges[k].a in ids && edges[k].b in ids) && k < |edges|
    requires Component(edges, Rest(ids, separator), group)
    ensures edges[k].a in group ==> edges[k].b in group || edges[k].b in separator
    ensures edges[k].b in group ==> edges[k].a in group || edges[k].a in separator
  {
    var e := edges[k];
    assert Measured(edges, e.a, e.b) && Measured(edges, e.b, e.a);
  }

  /** Folding a reported group over any line through its separator keeps every measured distance. */
  lemma FoldKeepsMeasurements(ids: seq<int>, edges: seq<Edge>, separator: set<int>, group: set<int>,
                              position: map<int, Point>, a: Point, b: Point, k: nat)
    requires (forall k :: 0 <= k < |edges| ==> edges[k].a in ids && edges[k].b in ids) && k < |edges|
    requires (forall u :: u in ids ==> u in position) && Component(edges, Rest(ids, separator), group)
    requires SquaredLength(a, b) != 0.0
    requires forall u :: u in separator && u in position ==> Cross(a, b, position[u]) == 0.0
    ensures var folded := Folded(position, group, a, b);
      SquaredLength(folded[edges[k].a], folded[edges[k].b]) == SquaredLength(position[edges[k].a], position[edges[k].b])
  {
    var p, q := position[edges[k].a], position[edges[k].b];
    SealedOff(ids, edges, separator, group, k);
    MirrorKeeps(a, b, p, q);
    MirrorMoves(a, b, p, q);
    MirrorMoves(a, b, q, p);
    Symmetric(p, Mirrored(a, b, q));
    Symmetric(p, q);
  }

  lemma Symmetric(p: Point, q: Point)
    ensures SquaredLength(p, q) == SquaredLength(q, p)
  {
    var x, y := p.x - q.x, p.y - q.y;
    assert (q.x - p.x) * (q.x - p.x) == x * x && (q.y - p.y) * (q.y - p.y) == y * y;
  }

  /** The fold is another shape: it changes the distance from a member off the line to an anchor left behind off the line. */
  lemma FoldIsAnotherShape(position: map<int, Point>, group: set<int>, a: Point, b: Point, u: int, v: int)
    requires SquaredLength(a, b) != 0.0 && u in position && v in position && u in group && v !in group
    ensures var folded := Folded(position, group, a, b);
      (SquaredLength(folded[u], folded[v]) == SquaredLength(position[u], position[v])
       <==> Cross(a, b, position[u]) == 0.0 || Cross(a, b, position[v]) == 0.0)
  {
    MirrorMoves(a, b, position[u], position[v]);
  }

  /** Two anchors at different places always span a line their group folds over. */
  lemma PairsFold(ids: seq<int>, edges: seq<Edge>, u: int, v: int, group: set<int>, position: map<int, Point>, k: nat)
    requires (forall k :: 0 <= k < |edges| ==> edges[k].a in ids && edges[k].b in ids) && k < |edges|
    requires (forall w :: w in ids ==> w in position) && u in position && v in position
    requires Component(edges, Rest(ids, {u, v}), group)
    requires SquaredLength(position[u], position[v]) != 0.0
    ensures var folded := Folded(position, group, position[u], position[v]);
      SquaredLength(folded[edges[k].a], folded[edges[k].b]) == SquaredLength(position[edges[k].a], position[edges[k].b])
  {
    var a, b := position[u], position[v];
    assert Cross(a, b, a) == 0.0;
    assert Cross(a, b, b) == 0.0 by {
      assert (b.x - a.x) * (b.y - a.y) == (b.y - a.y) * (b.x - a.x);
    }
    FoldKeepsMeasurements(ids, edges, {u, v}, group, position, a, b, k);
  }

  /** Every group the report names folds over every line through its separator without changing a measured distance. */
  lemma ReportedGroupsFold(ids: seq<int>, edges: seq<Edge>, xy: seq<Point>, tolerance: real,
                           groups: seq<(seq<int>, seq<int>)>, g: (seq<int>, seq<int>),
                           position: map<int, Point>, a: Point, b: Point, k: nat)
    requires Survey(ids, edges, xy) && Report(ids, edges, xy, tolerance, groups) && g in groups && k < |edges|
    requires (forall u :: u in ids ==> u in position) && SquaredLength(a, b) != 0.0
    requires forall u :: u in g.0 && u in position ==> Cross(a, b, position[u]) == 0.0
    ensures var folded := Folded(position, Elements(g.1), a, b);
      SquaredLength(folded[edges[k].a], folded[edges[k].b]) == SquaredLength(position[edges[k].a], position[edges[k].b])
  {
    hide Report, Separator, SquaredLength, Cross, Component, Folded;
    ReportNames(ids, edges, xy, tolerance, groups, g);
    var list :| Components(edges, Rest(ids, Elements(g.0)), list) && ReportedFor(g.0, list, g);
    var j :| 0 < j < |list| && g.1 == list[j];
    assert Component(edges, Rest(ids, Elements(g.0)), Elements(g.1));
    FoldKeepsMeasurements(ids, edges, Elements(g.0), Elements(g.1), position, a, b, k);
  }
}
