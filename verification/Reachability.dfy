/** Depth-first walks over a shared set of visited nodes, and what they visit. */
module Reachability {

  /** Successor lists; a node without an entry has none. */
  type Graph = map<string, seq<string>>

  function Succ(g: Graph, x: string): seq<string> { if x in g then g[x] else [] }

  function Elements(s: seq<string>): set<string> { set x | x in s }

  /** The nodes a walk from `x` newly visits, in the order it enters them. */
  function Visit(g: Graph, x: string, seen: set<string>): (order: seq<string>)
    decreases g.Keys - seen, 0
  {
    if x in seen then []
    else if x !in g then [x]
    else [x] + VisitAll(g, g[x], seen + {x})
  }

  function VisitAll(g: Graph, xs: seq<string>, seen: set<string>): (order: seq<string>)
    decreases g.Keys - seen, |xs|
  {
    if xs == [] then []
    else
      var first := VisitAll(g, xs[..|xs| - 1], seen);
      var seen' := seen + Elements(first);
      assert g.Keys - seen' <= g.Keys - seen;
      first + Visit(g, xs[|xs| - 1], seen')
  }

  /** One more node to walk from, after a prefix of a list. */
  lemma {:induction false} VisitAllStep(g: Graph, xs: seq<string>, i: nat, seen: set<string>)
    requires i < |xs|
    ensures var so := VisitAll(g, xs[..i], seen);
            var more := Visit(g, xs[i], seen + Elements(so));
            && VisitAll(g, xs[..i + 1], seen) == so + more
            && Elements(so + more) == Elements(so) + Elements(more)
  {
    assert xs[..i + 1][..i] == xs[..i];
  }

  lemma EnterFirst(x: string, below: seq<string>)
    ensures Elements([x] + below) == {x} + Elements(below)
  {
  }

  // ---- Reachability -------------------------------------------------------------------

  ghost predicate Path(g: Graph, p: seq<string>) {
    |p| > 0 && forall i :: 0 < i < |p| ==> p[i] in Succ(g, p[i - 1])
  }

  ghost predicate Reaches(g: Graph, x: string, y: string) {
    exists p :: Path(g, p) && p[0] == x && p[|p| - 1] == y
  }

  lemma ReachesSelf(g: Graph, x: string)
    ensures Reaches(g, x, x)
  {
    assert Path(g, [x]);
  }

  lemma ReachesVia(g: Graph, x: string, y: string, z: string)
    requires y in Succ(g, x) && Reaches(g, y, z)
    ensures Reaches(g, x, z)
  {
    var p :| Path(g, p) && p[0] == y && p[|p| - 1] == z;
    var q := [x] + p;
    forall i | 0 < i < |q| ensures q[i] in Succ(g, q[i - 1]) {
      if i > 1 { assert q[i] == p[i - 1] && q[i - 1] == p[i - 2]; }
    }
    assert Path(g, q);
  }

  ghost predicate ClosedIn(g: Graph, inner: set<string>, outer: set<string>) {
    forall y, z :: y in inner && z in Succ(g, y) ==> z in outer
  }

  /** A set that holds `x` and all successors of its members holds everything `x` reaches. */
  lemma ClosedHoldsReachable(g: Graph, s: set<string>, x: string, y: string)
    requires ClosedIn(g, s, s) && x in s && Reaches(g, x, y)
    ensures y in s
  {
    var p :| Path(g, p) && p[0] == x && p[|p| - 1] == y;
    ClosedHoldsPath(g, s, p, |p| - 1);
  }

  lemma {:induction false} ClosedHoldsPath(g: Graph, s: set<string>, p: seq<string>, i: nat)
    requires ClosedIn(g, s, s) && Path(g, p) && p[0] in s && i < |p|
    ensures p[i] in s
  {
    if i > 0 { ClosedHoldsPath(g, s, p, i - 1); }
  }

  ghost predicate NoRepeats(s: seq<string>) { forall i, j :: 0 <= i < j < |s| ==> s[i] != s[j] }

  /**
   * A walk enters only unseen nodes, none twice, and leaves every successor of what it entered seen.
   */
  ghost predicate GoodWalk(g: Graph, seen: set<string>, order: seq<string>) {
    && NoRepeats(order) && Elements(order) !! seen
    && ClosedIn(g, Elements(order), seen + Elements(order))
  }

  lemma GoodWalkJoin(g: Graph, seen: set<string>, a: seq<string>, b: seq<string>)
    requires GoodWalk(g, seen, a) && GoodWalk(g, seen + Elements(a), b)
    ensures GoodWalk(g, seen, a + b) && Elements(a + b) == Elements(a) + Elements(b)
  {
    assert Elements(a + b) == Elements(a) + Elements(b);
    forall i, j | 0 <= i < j < |a + b| ensures (a + b)[i] != (a + b)[j] {
      if i < |a| <= j { assert (a + b)[i] in Elements(a) && (a + b)[j] in Elements(b); }
    }
  }

  lemma GoodWalkEnter(g: Graph, seen: set<string>, x: string, below: seq<string>)
    requires x !in seen && GoodWalk(g, seen + {x}, below)
    requires forall z :: z in Succ(g, x) ==> z in seen + {x} + Elements(below)
    ensures GoodWalk(g, seen, [x] + below) && Elements([x] + below) == {x} + Elements(below)
  {
    assert Elements([x] + below) == {x} + Elements(below);
    forall i, j | 0 <= i < j < |[x] + below| ensures ([x] + below)[i] != ([x] + below)[j] {
      assert ([x] + below)[j] == below[j - 1];
      assert below[j - 1] in Elements(below);
      if i > 0 { assert ([x] + below)[i] == below[i - 1]; }
    }
  }

  lemma {:induction false} VisitGood(g: Graph, x: string, seen: set<string>)
    ensures GoodWalk(g, seen, Visit(g, x, seen)) && x in seen + Elements(Visit(g, x, seen))
    ensures forall y :: y in Visit(g, x, seen) ==> Reaches(g, x, y)
    decreases g.Keys - seen, 0
  {
    if x !in seen {
      ReachesSelf(g, x);
      var below := if x in g then VisitAll(g, g[x], seen + {x}) else [];
      if x in g {
        VisitAllGood(g, g[x], seen + {x});
        forall y | y in below ensures Reaches(g, x, y) {
          var z :| z in g[x] && Reaches(g, z, y);
          ReachesVia(g, x, z, y);
        }
      }
      GoodWalkEnter(g, seen, x, below);
      assert Visit(g, x, seen) == [x] + below;
    }
  }

  lemma {:induction false} VisitAllGood(g: Graph, xs: seq<string>, seen: set<string>)
    ensures GoodWalk(g, seen, VisitAll(g, xs, seen))
    ensures forall x :: x in xs ==> x in seen + Elements(VisitAll(g, xs, seen))
    ensures forall y :: y in VisitAll(g, xs, seen) ==> exists x :: x in xs && Reaches(g, x, y)
    decreases g.Keys - seen, |xs|
  {
    if xs != [] {
      var init, last := xs[..|xs| - 1], xs[|xs| - 1];
      assert xs == init + [last];
      VisitAllGood(g, init, seen);
      var first := VisitAll(g, init, seen);
      assert g.Keys - (seen + Elements(first)) <= g.Keys - seen;
      VisitGood(g, last, seen + Elements(first));
      var rest := Visit(g, last, seen + Elements(first));
      GoodWalkJoin(g, seen, first, rest);
      forall y | y in first + rest ensures exists x :: x in xs && Reaches(g, x, y) {
        if y in first {
          var x :| x in init && Reaches(g, x, y);
          assert x in xs;
        } else {
          assert last in xs && Reaches(g, last, y);
        }
      }
    }
  }

  /** From a clean start, walking a list of roots visits exactly what the roots reach, each node once. */
  lemma {:induction false} VisitsExactlyReachable(g: Graph, roots: seq<string>)
    ensures NoRepeats(VisitAll(g, roots, {}))
    ensures forall y :: y in VisitAll(g, roots, {}) <==> exists x :: x in roots && Reaches(g, x, y)
  {
    VisitAllGood(g, roots, {});
    var s := Elements(VisitAll(g, roots, {}));
    forall x, y | x in roots && Reaches(g, x, y) ensures y in s {
      ClosedHoldsReachable(g, s, x, y);
    }
  }

  lemma {:induction false} VisitsExactlyReachableFrom(g: Graph, x: string)
    ensures NoRepeats(Visit(g, x, {}))
    ensures forall y :: y in Visit(g, x, {}) <==> Reaches(g, x, y)
  {
    VisitGood(g, x, {});
    var s := Elements(Visit(g, x, {}));
    forall y | Reaches(g, x, y) ensures y in s {
      ClosedHoldsReachable(g, s, x, y);
    }
  }
}
