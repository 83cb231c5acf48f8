/** The containment graph behind struct roles: who embeds whom by value, and how deep it goes. */
module RoleGraph {
  import opened Alignment
  import opened Reachability
  import opened TypeDictionary

  datatype Edge = Edge(parent: string, isFirst: bool, fieldName: string, arrayLength: Option<nat>)

  // ---- Resolution ---------------------------------------------------------------------

  predicate IsStruct(structs: seq<Struct>, name: string) {
    exists k :: 0 <= k < |structs| && structs[k].name == name
  }

  /** The struct a member of `owner` embeds: by value, known, and not the owner itself. */
  function ChildOf(d: TypeDict, owner: string, m: Field): Option<string> {
    var name := Canonical(d.aliases, m.token, 4);
    if m.parsed.isPointer || name == "" || !IsStruct(d.structs, name) || name == owner then None else Some(name)
  }

  function LengthOf(m: Field): Option<nat> { if m.parsed.arr.Fixed? then Some(m.parsed.arr.length) else None }

  // ---- What the maps hold, one key at a time ------------------------------------------------

  function Add(s: seq<string>, x: string): seq<string> { if x in s then s else s + [x] }

  /** `before`, and the children named by the first `n` members in order of first mention. */
  function ChildrenUpTo(d: TypeDict, s: Struct, n: nat, before: seq<string>): seq<string>
    requires n <= |s.fields|
  {
    if n == 0 then before
    else
      var so, child := ChildrenUpTo(d, s, n - 1, before), ChildOf(d, s.name, s.fields[n - 1]);
      if child.Some? then Add(so, child.value) else so
  }

  /** The edge from `s` to `child` among the first `n` members: its first mention. */
  function EdgeUpTo(d: TypeDict, s: Struct, n: nat, child: string): (e: Option<Edge>)
    requires n <= |s.fields|
    ensures e.Some? ==> e.value.parent == s.name
    decreases n, 0
  {
    if n == 0 then None else EdgePast(d, s, n - 1, child)
  }

  /** The same, with member `n` counted in. */
  function EdgePast(d: TypeDict, s: Struct, n: nat, child: string): (e: Option<Edge>)
    requires n < |s.fields|
    ensures e.Some? ==> e.value.parent == s.name
    decreases n, 1
  {
    var so, m := EdgeUpTo(d, s, n, child), s.fields[n];
    if so.Some? || ChildOf(d, s.name, m) != Some(child) then so
    else Some(Edge(s.name, n == 0, m.name, LengthOf(m)))
  }

  predicate HasParent(edges: seq<Edge>, parent: string) {
    exists k :: 0 <= k < |edges| && edges[k].parent == parent
  }

  /** One parent counts once. */
  function AddEdge(edges: seq<Edge>, e: Option<Edge>): seq<Edge> {
    if e.Some? && !HasParent(edges, e.value.parent) then edges + [e.value] else edges
  }

  /** `contains` at `name` after the first `n` structs. */
  function ContainsAt(d: TypeDict, n: nat, name: string): seq<string>
    requires n <= |d.structs|
  {
    if n == 0 then []
    else
      var so, s := ContainsAt(d, n - 1, name), d.structs[n - 1];
      if s.name == name then ChildrenUpTo(d, s, |s.fields|, so) else so
  }

  /** `containedBy` at `child` after the first `n` structs. */
  function EdgesInto(d: TypeDict, n: nat, child: string): seq<Edge>
    requires n <= |d.structs|
  {
    if n == 0 then []
    else AddEdge(EdgesInto(d, n - 1, child), EdgeUpTo(d, d.structs[n - 1], |d.structs[n - 1].fields|, child))
  }

  // ---- The loops that fill the maps -----------------------------------------------------------

  function EdgesAt(containedBy: map<string, seq<Edge>>, c: string): seq<Edge> {
    if c in containedBy then containedBy[c] else []
  }

  lemma AddEdgeTwice(edges: seq<Edge>, so: Option<Edge>, e: Edge)
    requires so.Some? ==> so.value.parent == e.parent
    ensures AddEdge(AddEdge(edges, so), Some(e)) == AddEdge(edges, if so.Some? then so else Some(e))
  {
    if so.Some? && !HasParent(edges, e.parent) {
      assert AddEdge(edges, so)[|edges|].parent == e.parent;
    }
  }

  /** `now` is `before` with the edges of the first `n` members of `s` added. */
  ghost predicate EdgesAdded(d: TypeDict, s: Struct, n: nat, before: map<string, seq<Edge>>, now: map<string, seq<Edge>>)
    requires n <= |s.fields|
  {
    forall c :: EdgesAt(now, c) == AddEdge(EdgesAt(before, c), EdgeUpTo(d, s, n, c))
  }

  lemma EdgesAddedNext(d: TypeDict, s: Struct, n: nat, before: map<string, seq<Edge>>, now: map<string, seq<Edge>>,
                       child: Option<string>)
    requires n < |s.fields| && EdgesAdded(d, s, n, before, now) && child == ChildOf(d, s.name, s.fields[n])
    ensures child.None? ==> EdgesAdded(d, s, n + 1, before, now)
    ensures child.Some? ==>
              var e := Edge(s.name, n == 0, s.fields[n].name, LengthOf(s.fields[n]));
              EdgesAdded(d, s, n + 1, before, now[child.value := AddEdge(EdgesAt(now, child.value), Some(e))])
  {
    var e := Edge(s.name, n == 0, s.fields[n].name, LengthOf(s.fields[n]));
    forall c ensures EdgeUpTo(d, s, n + 1, c)
                  == if EdgeUpTo(d, s, n, c).None? && child == Some(c) then Some(e) else EdgeUpTo(d, s, n, c)
    {
      assert EdgeUpTo(d, s, n + 1, c) == EdgePast(d, s, n, c);
    }
    if child.Some? { AddEdgeTwice(EdgesAt(before, child.value), EdgeUpTo(d, s, n, child.value), e); }
  }

  /** The inner loop: one struct's members into both maps. */
  method AddMembers(d: TypeDict, s: Struct, contains0: Graph, containedBy0: map<string, seq<Edge>>)
    returns (contains: Graph, containedBy: map<string, seq<Edge>>)
    requires s.name in contains0
    ensures contains == contains0[s.name := ChildrenUpTo(d, s, |s.fields|, contains0[s.name])]
    ensures EdgesAdded(d, s, |s.fields|, containedBy0, containedBy)
  {
    contains, containedBy := contains0, containedBy0;
    for j := 0 to |s.fields|
      invariant contains == contains0[s.name := ChildrenUpTo(d, s, j, contains0[s.name])]
      invariant EdgesAdded(d, s, j, containedBy0, containedBy)
    {
      var m := s.fields[j];
      var child := ChildOf(d, s.name, m);
      EdgesAddedNext(d, s, j, containedBy0, containedBy, child);
      if child.Some? {
        var c := child.value;
        contains := contains[s.name := Add(contains[s.name], c)];
        var edge := Edge(s.name, j == 0, m.name, LengthOf(m));
        containedBy := containedBy[c := AddEdge(EdgesAt(containedBy, c), Some(edge))];
      }
    }
  }

  method BuildContainment(d: TypeDict) returns (contains: Graph, containedBy: map<string, seq<Edge>>)
    ensures forall x :: x in contains <==> IsStruct(d.structs, x)
    ensures forall x :: x in contains ==> contains[x] == ContainsAt(d, |d.structs|, x)
    ensures forall c :: EdgesAt(containedBy, c) == EdgesInto(d, |d.structs|, c)
  {
    contains, containedBy := map[], map[];
    for i := 0 to |d.structs|
      invariant forall x :: x in contains <==> IsStruct(d.structs[..i], x)
      invariant forall x :: x in contains ==> contains[x] == []
    {
      StructsGrow(d.structs, i);
      contains := contains[d.structs[i].name := []];
    }
    assert d.structs[..|d.structs|] == d.structs;
    for i := 0 to |d.structs|
      invariant forall x :: x in contains <==> IsStruct(d.structs, x)
      invariant forall x :: x in contains ==> contains[x] == ContainsAt(d, i, x)
      invariant forall c :: EdgesAt(containedBy, c) == EdgesInto(d, i, c)
    {
      assert IsStruct(d.structs, d.structs[i].name);
      contains, containedBy := AddMembers(d, d.structs[i], contains, containedBy);
    }
  }

  lemma StructsGrow(structs: seq<Struct>, i: nat)
    requires i < |structs|
    ensures forall x :: IsStruct(structs[..i + 1], x) <==> IsStruct(structs[..i], x) || x == structs[i].name
  {
    forall x ensures IsStruct(structs[..i + 1], x) <==> IsStruct(structs[..i], x) || x == structs[i].name {
      if IsStruct(structs[..i], x) {
        var k :| 0 <= k < i && structs[..i][k].name == x;
        assert structs[..i + 1][k].name == x;
      }
      if x == structs[i].name { assert structs[..i + 1][i].name == x; }
      if IsStruct(structs[..i + 1], x) && x != structs[i].name {
        var k :| 0 <= k < i + 1 && structs[..i + 1][k].name == x;
        assert structs[..i][k].name == x;
      }
    }
  }

  // ---- The two maps are converse --------------------------------------------------------------

  /** Struct `p`, under some definition, has a member that embeds `c`. */
  ghost predicate Embeds(d: TypeDict, n: nat, p: string, c: string)
    requires n <= |d.structs|
  {
    exists i, j :: 0 <= i < n && 0 <= j < |d.structs[i].fields|
                && d.structs[i].name == p && ChildOf(d, p, d.structs[i].fields[j]) == Some(c)
  }

  /** One of the first `n` members of `s` embeds `c`. */
  ghost predicate Mentions(d: TypeDict, s: Struct, n: nat, c: string)
    requires n <= |s.fields|
  {
    exists j :: 0 <= j < n && ChildOf(d, s.name, s.fields[j]) == Some(c)
  }

  lemma MentionsNext(d: TypeDict, s: Struct, n: nat, c: string)
    requires n < |s.fields|
    ensures Mentions(d, s, n + 1, c) <==> Mentions(d, s, n, c) || ChildOf(d, s.name, s.fields[n]) == Some(c)
  {
  }

  lemma {:induction false} ChildrenAre(d: TypeDict, s: Struct, n: nat, before: seq<string>, c: string)
    requires n <= |s.fields|
    ensures c in ChildrenUpTo(d, s, n, before)
      <==> c in before || Mentions(d, s, n, c)
    ensures NoRepeats(before) ==> NoRepeats(ChildrenUpTo(d, s, n, before))
  {
    if n > 0 {
      ChildrenAre(d, s, n - 1, before, c);
      MentionsNext(d, s, n - 1, c);
    }
  }

  lemma {:induction false} ContainsIsEmbeds(d: TypeDict, n: nat, p: string, c: string)
    requires n <= |d.structs|
    ensures c in ContainsAt(d, n, p) <==> Embeds(d, n, p, c)
    ensures NoRepeats(ContainsAt(d, n, p))
  {
    if n > 0 {
      var s := d.structs[n - 1];
      ContainsIsEmbeds(d, n - 1, p, c);
      EmbedsNext(d, n - 1, p, c);
      if s.name == p { ChildrenAre(d, s, |s.fields|, ContainsAt(d, n - 1, p), c); }
    }
  }

  lemma {:induction false} EdgeIsMention(d: TypeDict, s: Struct, n: nat, c: string)
    requires n <= |s.fields|
    ensures EdgeUpTo(d, s, n, c).Some? <==> Mentions(d, s, n, c)
  {
    if n > 0 {
      EdgeIsMention(d, s, n - 1, c);
      MentionsNext(d, s, n - 1, c);
    }
  }

  predicate OneEdgePerParent(edges: seq<Edge>) {
    forall i, j :: 0 <= i < j < |edges| ==> edges[i].parent != edges[j].parent
  }

  lemma AddEdgeParents(edges: seq<Edge>, e: Option<Edge>, p: string)
    requires OneEdgePerParent(edges)
    ensures HasParent(AddEdge(edges, e), p) <==> HasParent(edges, p) || (e.Some? && e.value.parent == p)
    ensures OneEdgePerParent(AddEdge(edges, e))
  {
    var now := AddEdge(edges, e);
    if k :| 0 <= k < |edges| && edges[k].parent == p { assert now[k].parent == p; }
    if e.Some? && !HasParent(edges, e.value.parent) { assert now[|edges|] == e.value; }
  }

  /** Only struct `n` comes on top when one more struct is counted. */
  lemma EmbedsNext(d: TypeDict, n: nat, p: string, c: string)
    requires n < |d.structs|
    ensures var s := d.structs[n];
            Embeds(d, n + 1, p, c) <==> Embeds(d, n, p, c) || (s.name == p && Mentions(d, s, |s.fields|, c))
  {
  }

  lemma {:induction false} ContainedByIsEmbeds(d: TypeDict, n: nat, p: string, c: string)
    requires n <= |d.structs|
    ensures HasParent(EdgesInto(d, n, c), p) <==> Embeds(d, n, p, c)
    ensures OneEdgePerParent(EdgesInto(d, n, c))
  {
    if n > 0 {
      var s := d.structs[n - 1];
      ContainedByIsEmbeds(d, n - 1, p, c);
      EmbedsNext(d, n - 1, p, c);
      EdgeIsMention(d, s, |s.fields|, c);
      AddEdgeParents(EdgesInto(d, n - 1, c), EdgeUpTo(d, s, |s.fields|, c), p);
    }
  }

  /** `contains` and `containedBy` say the same thing from both ends, with one edge per parent. */
  lemma {:induction false} ContainmentConverse(d: TypeDict, p: string, c: string)
    ensures c in ContainsAt(d, |d.structs|, p) <==> HasParent(EdgesInto(d, |d.structs|, c), p)
    ensures NoRepeats(ContainsAt(d, |d.structs|, p)) && OneEdgePerParent(EdgesInto(d, |d.structs|, c))
  {
    ContainsIsEmbeds(d, |d.structs|, p, c);
    ContainedByIsEmbeds(d, |d.structs|, p, c);
  }

  // ---- In-degrees and out-degrees balance -------------------------------------------------------

  /** Total length of `containedBy` over the first `m` names, counting parents among the first `n` structs. */
  function SumIn(d: TypeDict, n: nat, m: nat): nat
    requires n <= |d.structs| && m <= |d.structs|
    decreases m
  {
    if m == 0 then 0 else SumIn(d, n, m - 1) + |EdgesInto(d, n, d.structs[m - 1].name)|
  }

  function SumOut(d: TypeDict, n: nat): nat
    requires n <= |d.structs|
  {
    if n == 0 then 0 else SumOut(d, n - 1) + |ContainsAt(d, |d.structs|, d.structs[n - 1].name)|
  }

  /** How many of the first `m` structs are named in `xs`. */
  function Hits(structs: seq<Struct>, m: nat, xs: seq<string>): nat
    requires m <= |structs|
  {
    if m == 0 then 0 else Hits(structs, m - 1, xs) + (if structs[m - 1].name in xs then 1 else 0)
  }

  function FirstNames(structs: seq<Struct>, m: nat): set<string>
    requires m <= |structs|
  {
    if m == 0 then {} else FirstNames(structs, m - 1) + {structs[m - 1].name}
  }

  lemma {:induction false} FirstNamesAre(structs: seq<Struct>, m: nat, x: string)
    requires m <= |structs|
    ensures x in FirstNames(structs, m) <==> exists k :: 0 <= k < m && structs[k].name == x
  {
    if m > 0 { FirstNamesAre(structs, m - 1, x); }
  }

  lemma {:induction false} HitsAreCommon(structs: seq<Struct>, m: nat, xs: seq<string>)
    requires m <= |structs| && UniqueNames(structs)
    ensures Hits(structs, m, xs) == |FirstNames(structs, m) * Elements(xs)|
  {
    if m > 0 {
      HitsAreCommon(structs, m - 1, xs);
      var x, a, b := structs[m - 1].name, FirstNames(structs, m - 1), FirstNames(structs, m);
      FirstNamesAre(structs, m - 1, x);
      if x in xs {
        assert b * Elements(xs) == a * Elements(xs) + {x};
      } else {
        assert b * Elements(xs) == a * Elements(xs);
      }
    }
  }

  lemma {:induction false} DistinctCount(xs: seq<string>)
    requires NoRepeats(xs)
    ensures |Elements(xs)| == |xs|
  {
    if xs != [] {
      var n := |xs| - 1;
      DistinctCount(xs[..n]);
      assert xs == xs[..n] + [xs[n]];
      assert Elements(xs) == Elements(xs[..n]) + {xs[n]};
      assert xs[n] !in xs[..n];
    }
  }

  lemma {:induction false} ContainsUpTo(d: TypeDict, n: nat, i: nat)
    requires UniqueNames(d.structs) && i < n <= |d.structs|
    ensures ContainsAt(d, n, d.structs[i].name) == ChildrenUpTo(d, d.structs[i], |d.structs[i].fields|, [])
  {
    if i < n - 1 {
      ContainsUpTo(d, n - 1, i);
    } else {
      NotYetContained(d, i, d.structs[i].name);
    }
  }

  lemma {:induction false} NotYetContained(d: TypeDict, n: nat, p: string)
    requires n <= |d.structs| && forall k :: 0 <= k < n ==> d.structs[k].name != p
    ensures ContainsAt(d, n, p) == []
  {
    if n > 0 { NotYetContained(d, n - 1, p); }
  }

  /** One more parent adds one edge to each of its children and none elsewhere. */
  lemma OneMoreParent(d: TypeDict, n: nat, c: string)
    requires UniqueNames(d.structs) && n < |d.structs|
    ensures |EdgesInto(d, n + 1, c)|
      == |EdgesInto(d, n, c)| + (if c in ContainsAt(d, |d.structs|, d.structs[n].name) then 1 else 0)
  {
    var s := d.structs[n];
    ContainedByIsEmbeds(d, n, s.name, c);
    EdgeIsMention(d, s, |s.fields|, c);
    ContainsUpTo(d, |d.structs|, n);
    ChildrenAre(d, s, |s.fields|, [], c);
  }

  lemma {:induction false} SumInStep(d: TypeDict, n: nat, m: nat)
    requires UniqueNames(d.structs) && n < |d.structs| && m <= |d.structs|
    ensures SumIn(d, n + 1, m)
      == SumIn(d, n, m) + Hits(d.structs, m, ContainsAt(d, |d.structs|, d.structs[n].name))
  {
    if m > 0 {
      SumInStep(d, n, m - 1);
      OneMoreParent(d, n, d.structs[m - 1].name);
    }
  }

  lemma {:induction false} ChildrenAllHit(d: TypeDict, p: string)
    requires UniqueNames(d.structs)
    ensures Hits(d.structs, |d.structs|, ContainsAt(d, |d.structs|, p)) == |ContainsAt(d, |d.structs|, p)|
  {
    var xs := ContainsAt(d, |d.structs|, p);
    HitsAreCommon(d.structs, |d.structs|, xs);
    ContainsIsEmbeds(d, |d.structs|, p, "");
    DistinctCount(xs);
    forall c | c in xs ensures c in FirstNames(d.structs, |d.structs|) {
      ContainsIsEmbeds(d, |d.structs|, p, c);
      FirstNamesAre(d.structs, |d.structs|, c);
      assert IsStruct(d.structs, c);
    }
    assert FirstNames(d.structs, |d.structs|) * Elements(xs) == Elements(xs);
  }

  lemma {:induction false} SumInZero(d: TypeDict, m: nat)
    requires m <= |d.structs|
    ensures SumIn(d, 0, m) == 0
  {
    if m > 0 { SumInZero(d, m - 1); }
  }

  lemma {:induction false} DegreesBalanceUpTo(d: TypeDict, n: nat)
    requires UniqueNames(d.structs) && n <= |d.structs|
    ensures SumIn(d, n, |d.structs|) == SumOut(d, n)
  {
    if n == 0 {
      SumInZero(d, |d.structs|);
    } else {
      DegreesBalanceUpTo(d, n - 1);
      SumInStep(d, n - 1, |d.structs|);
      ChildrenAllHit(d, d.structs[n - 1].name);
    }
  }

  /** With unique names, the in-degrees of all structs add up to their out-degrees. */
  lemma {:induction false} DegreesBalance(d: TypeDict)
    requires UniqueNames(d.structs)
    ensures SumIn(d, |d.structs|, |d.structs|) == SumOut(d, |d.structs|)
  {
    DegreesBalanceUpTo(d, |d.structs|);
  }

  // ---- Depth --------------------------------------------------------------------------------------

  /** `depthOf`: the longest chain below `x` that does not enter a struct already above it. */
  function DepthOf(g: Graph, x: string, seen: set<string>): nat
    decreases g.Keys - seen, 0
  {
    if x in seen || x !in g then 0 else BestOf(g, g[x], seen + {x})
  }

  function BestOf(g: Graph, xs: seq<string>, seen: set<string>): nat
    decreases g.Keys - seen, |xs|
  {
    if xs == [] then 0
    else Max(BestOf(g, xs[..|xs| - 1], seen), 1 + DepthOf(g, xs[|xs| - 1], seen))
  }

  /** The depth table: full results are remembered, partial ones are not. */
  class DepthTable {
    const g: Graph
    var memo: map<string, nat>

    ghost predicate Valid()
      reads this
    {
      forall x :: x in memo ==> memo[x] == DepthOf(g, x, {})
    }

    constructor (g: Graph)
      ensures Valid() && this.g == g && memo == map[]
    {
      this.g := g;
      memo := map[];
    }

    method Depth(x: string, seen: set<string>) returns (best: nat)
      requires Valid()
      modifies this
      ensures Valid() && best == DepthOf(g, x, seen)
      ensures memo == if seen == {} then old(memo)[x := best] else old(memo)
      decreases g.Keys - seen, 0
    {
      if x in seen { return 0; }
      if x in memo && seen == {} {
        assert memo == memo[x := memo[x]];
        return memo[x];
      }
      best := 0;
      if x in g {
        var children := g[x];
        for i := 0 to |children|
          invariant Valid() && memo == old(memo)
          invariant best == BestOf(g, children[..i], seen + {x})
        {
          assert children[..i + 1][..i] == children[..i];
          assert seen + {x} != {};
          var below := Depth(children[i], seen + {x});
          best := Max(best, 1 + below);
        }
        assert children[..|children|] == children;
      }
      if seen == {} { memo := memo[x := best]; }
    }
  }

  /** Depth never exceeds the number of structs not already above. */
  lemma {:induction false} DepthBounded(g: Graph, x: string, seen: set<string>)
    ensures DepthOf(g, x, seen) <= |g.Keys - seen|
    decreases g.Keys - seen, 0
  {
    if x !in seen && x in g {
      assert g.Keys - (seen + {x}) == (g.Keys - seen) - {x};
      BestBounded(g, g[x], seen + {x});
    }
  }

  lemma {:induction false} BestBounded(g: Graph, xs: seq<string>, seen: set<string>)
    ensures BestOf(g, xs, seen) <= 1 + |g.Keys - seen|
    decreases g.Keys - seen, |xs|
  {
    if xs != [] {
      BestBounded(g, xs[..|xs| - 1], seen);
      DepthBounded(g, xs[|xs| - 1], seen);
    }
  }

  ghost predicate Acyclic(g: Graph) { forall p :: Path(g, p) ==> NoRepeats(p) }

  /** Nothing `x` reaches is above it. */
  ghost predicate ClearBelow(g: Graph, x: string, seen: set<string>) {
    forall y :: Reaches(g, x, y) ==> y !in seen
  }

  lemma ClearBelowChild(g: Graph, x: string, c: string, seen: set<string>)
    requires Acyclic(g) && c in Succ(g, x) && ClearBelow(g, x, seen)
    ensures ClearBelow(g, c, seen + {x})
  {
    forall y | Reaches(g, c, y) ensures y !in seen + {x} {
      ReachesVia(g, x, c, y);
      var p :| Path(g, p) && p[0] == c && p[|p| - 1] == y;
      PathPrepend(g, x, p);
      var q := [x] + p;
      assert NoRepeats(q) && q[0] == x && q[|p|] == y;
    }
  }

  lemma PathPrepend(g: Graph, x: string, p: seq<string>)
    requires Path(g, p) && p[0] in Succ(g, x)
    ensures Path(g, [x] + p)
  {
    var q := [x] + p;
    forall i | 0 < i < |q| ensures q[i] in Succ(g, q[i - 1]) {
      if i > 1 { assert q[i] == p[i - 1] && q[i - 1] == p[i - 2]; }
    }
  }

  lemma PathTail(g: Graph, p: seq<string>)
    requires Path(g, p) && |p| > 1
    ensures Path(g, p[1..]) && p[1] in Succ(g, p[0])
  {
    forall i | 0 < i < |p| - 1 ensures p[1..][i] in Succ(g, p[1..][i - 1]) {
      assert p[i + 1] in Succ(g, p[i]);
    }
  }

  ghost predicate LongestFrom(g: Graph, x: string, n: nat) {
    && (exists p :: Path(g, p) && p[0] == x && |p| == n + 1)
    && (forall p :: Path(g, p) && p[0] == x ==> |p| <= n + 1)
  }

  /** Among the heads `xs`, `n` is the best of one more than the longest chain below each. */
  ghost predicate LongestBelow(g: Graph, xs: seq<string>, n: nat) {
    && (n > 0 ==> exists p :: Path(g, p) && p[0] in xs && |p| == n)
    && (forall p :: Path(g, p) && p[0] in xs ==> |p| <= n)
  }

  lemma {:induction false} DepthIsLongestUnder(g: Graph, x: string, seen: set<string>)
    requires Acyclic(g) && ClearBelow(g, x, seen)
    ensures LongestFrom(g, x, DepthOf(g, x, seen))
    decreases g.Keys - seen, 0
  {
    ReachesSelf(g, x);
    var n := DepthOf(g, x, seen);
    if x in g {
      forall c | c in g[x] ensures ClearBelow(g, c, seen + {x}) { ClearBelowChild(g, x, c, seen); }
      BestIsLongestUnder(g, g[x], seen + {x});
    }
    if n == 0 {
      assert Path(g, [x]);
    } else {
      var p :| Path(g, p) && p[0] in Succ(g, x) && |p| == n;
      PathPrepend(g, x, p);
      assert |[x] + p| == n + 1;
    }
    forall p | Path(g, p) && p[0] == x ensures |p| <= n + 1 {
      if |p| > 1 { PathTail(g, p); }
    }
  }

  lemma {:induction false} BestIsLongestUnder(g: Graph, xs: seq<string>, seen: set<string>)
    requires Acyclic(g) && forall c :: c in xs ==> ClearBelow(g, c, seen)
    ensures LongestBelow(g, xs, BestOf(g, xs, seen))
    decreases g.Keys - seen, |xs|
  {
    if xs != [] {
      var init, c := xs[..|xs| - 1], xs[|xs| - 1];
      assert xs == init + [c];
      BestIsLongestUnder(g, init, seen);
      DepthIsLongestUnder(g, c, seen);
    }
  }

  /** On an acyclic graph the reported depth is the length of the longest containment chain below a struct. */
  lemma {:induction false} DepthIsLongest(g: Graph, x: string)
    requires Acyclic(g)
    ensures LongestFrom(g, x, DepthOf(g, x, {}))
  {
    DepthIsLongestUnder(g, x, {});
  }

  /** And it strictly decreases along every containment edge. */
  lemma {:induction false} DepthDecreases(g: Graph, x: string, c: string)
    requires Acyclic(g) && c in Succ(g, x)
    ensures DepthOf(g, c, {}) < DepthOf(g, x, {})
  {
    DepthIsLongest(g, x);
    DepthIsLongest(g, c);
    var p :| Path(g, p) && p[0] == c && |p| == DepthOf(g, c, {}) + 1;
    PathPrepend(g, x, p);
  }
}
