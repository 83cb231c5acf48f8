/** Message edges between nodes, and the collapse of reciprocal pairs into one edge. */
module EdgeCollapse {
  import opened Alignment
  import opened Reachability

  datatype FileRole = Producer | Consumer | Both

  /** A message interface as the graph builders read it. */
  datatype Msg = Msg(constant: string, fileRoles: seq<(string, FileRole)>, confident: bool, transport: string)

  /** Source and target. */
  type Key = (string, string)

  datatype Edge = Edge(msgTypes: seq<string>, interfaces: seq<Msg>, transport: string, confident: bool)

  /** The edge map with its insertion order. */
  datatype EdgeMap = EdgeMap(edges: map<Key, Edge>, order: seq<Key>)

  const NO_EDGES := EdgeMap(map[], [])

  function Reverse(k: Key): Key { (k.1, k.0) }

  predicate Has(edges: map<Key, Edge>, k: Key, m: string) { k in edges && m in edges[k].msgTypes }

  predicate Confident(edges: map<Key, Edge>, k: Key) { k in edges && edges[k].confident }

  /** Interfaces and message names run in parallel, each message once. */
  ghost predicate Matched(e: Edge) {
    && |e.msgTypes| == |e.interfaces| && NoRepeats(e.msgTypes)
    && forall i :: 0 <= i < |e.msgTypes| ==> e.interfaces[i].constant == e.msgTypes[i]
  }

  /** The first interface has the edge's transport. */
  ghost predicate Led(e: Edge) { e.interfaces != [] && e.transport == e.interfaces[0].transport }

  ghost predicate AllDistinct(edges: map<Key, Edge>) { forall k :: k in edges ==> NoRepeats(edges[k].msgTypes) }

  ghost predicate AllMatched(edges: map<Key, Edge>) { forall k :: k in edges ==> Matched(edges[k]) }

  ghost predicate NoSelfLoops(edges: map<Key, Edge>) { forall k :: k in edges ==> k.0 != k.1 }

  ghost predicate Ordered(em: EdgeMap) { forall k :: k in em.order <==> k in em.edges }

  // ---- Merging one edge into its reverse ---------------------------------------------------

  function WithConstant(interfaces: seq<Msg>, m: string): seq<Msg> {
    if interfaces == [] then []
    else
      var last := interfaces[|interfaces| - 1];
      WithConstant(interfaces[..|interfaces| - 1], m) + (if last.constant == m then [last] else [])
  }

  /** The kept edge after the first `n` messages of the dropped one have been offered to it. */
  function MergeUpTo(kept: Edge, e: Edge, n: nat): Edge
    requires n <= |e.msgTypes|
  {
    if n == 0 then kept
    else
      var so, m := MergeUpTo(kept, e, n - 1), e.msgTypes[n - 1];
      if m in so.msgTypes then so
      else so.(msgTypes := so.msgTypes + [m], interfaces := so.interfaces + WithConstant(e.interfaces, m))
  }

  function Merge(kept: Edge, e: Edge): Edge {
    MergeUpTo(kept, e, |e.msgTypes|).(confident := kept.confident || e.confident)
  }

  lemma {:induction false} WithConstantAbsent(interfaces: seq<Msg>, m: string)
    requires forall i :: 0 <= i < |interfaces| ==> interfaces[i].constant != m
    ensures WithConstant(interfaces, m) == []
  {
    if interfaces != [] { WithConstantAbsent(interfaces[..|interfaces| - 1], m); }
  }

  lemma {:induction false} WithConstantOne(interfaces: seq<Msg>, k: nat)
    requires k < |interfaces|
    requires forall i, j :: 0 <= i < j < |interfaces| ==> interfaces[i].constant != interfaces[j].constant
    ensures WithConstant(interfaces, interfaces[k].constant) == [interfaces[k]]
  {
    var n := |interfaces| - 1;
    if k == n {
      WithConstantAbsent(interfaces[..n], interfaces[k].constant);
    } else {
      WithConstantOne(interfaces[..n], k);
    }
  }

  lemma {:induction false} MergeHolds(kept: Edge, e: Edge, n: nat, x: string)
    requires n <= |e.msgTypes|
    ensures x in MergeUpTo(kept, e, n).msgTypes <==> x in kept.msgTypes || x in e.msgTypes[..n]
  {
    if n > 0 {
      MergeHolds(kept, e, n - 1, x);
      assert e.msgTypes[..n] == e.msgTypes[..n - 1] + [e.msgTypes[n - 1]];
    }
  }

  lemma {:induction false} MergeDistinct(kept: Edge, e: Edge, n: nat)
    requires n <= |e.msgTypes| && NoRepeats(kept.msgTypes)
    ensures NoRepeats(MergeUpTo(kept, e, n).msgTypes)
  {
    if n > 0 { MergeDistinct(kept, e, n - 1); }
  }

  lemma {:induction false} MergeMatchedNext(kept: Edge, e: Edge, n: nat)
    requires n < |e.msgTypes| && Matched(MergeUpTo(kept, e, n)) && Matched(e)
    ensures Matched(MergeUpTo(kept, e, n + 1))
  {
    WithConstantOne(e.interfaces, n);
  }

  /** An edge whose interfaces run in step stays so. */
  lemma {:induction false} MergeMatched(kept: Edge, e: Edge, n: nat)
    requires n <= |e.msgTypes| && Matched(kept) && Matched(e)
    ensures Matched(MergeUpTo(kept, e, n))
  {
    if n > 0 {
      MergeMatched(kept, e, n - 1);
      MergeMatchedNext(kept, e, n - 1);
    }
  }

  /** An interface of the dropped edge is taken over if its message is new to the kept one. */
  lemma {:induction false} MergeInterfaces(kept: Edge, e: Edge, n: nat, f: Msg)
    requires n <= |e.msgTypes| && Matched(kept) && Matched(e)
    ensures f in MergeUpTo(kept, e, n).interfaces
      <==> f in kept.interfaces || (f in e.interfaces[..n] && f.constant !in kept.msgTypes)
  {
    if n > 0 {
      MergeInterfaces(kept, e, n - 1, f);
      MergeAdds(kept, e, n - 1);
      OneOffered(MergeUpTo(kept, e, n - 1).interfaces, MergeUpTo(kept, e, n).interfaces, kept, e, n - 1, f);
    }
  }

  lemma OneOffered(so: seq<Msg>, next: seq<Msg>, kept: Edge, e: Edge, n: nat, f: Msg)
    requires n < |e.interfaces|
    requires next == so + (if e.interfaces[n].constant in kept.msgTypes then [] else [e.interfaces[n]])
    requires f in so <==> f in kept.interfaces || (f in e.interfaces[..n] && f.constant !in kept.msgTypes)
    ensures f in next <==> f in kept.interfaces || (f in e.interfaces[..n + 1] && f.constant !in kept.msgTypes)
  {
    assert e.interfaces[..n + 1] == e.interfaces[..n] + [e.interfaces[n]];
  }

  lemma {:induction false} MergeAdds(kept: Edge, e: Edge, n: nat)
    requires n < |e.msgTypes| && Matched(e)
    ensures MergeUpTo(kept, e, n + 1).interfaces == MergeUpTo(kept, e, n).interfaces
      + (if e.interfaces[n].constant in kept.msgTypes then [] else [e.interfaces[n]])
  {
    MergeHolds(kept, e, n, e.msgTypes[n]);
    WithConstantOne(e.interfaces, n);
    assert e.msgTypes[n] !in e.msgTypes[..n];
  }

  /** The first interface and the transport stay. */
  lemma {:induction false} MergeLed(kept: Edge, e: Edge, n: nat)
    requires n <= |e.msgTypes|
    ensures Led(kept) ==> Led(MergeUpTo(kept, e, n))
    ensures MergeUpTo(kept, e, n).transport == kept.transport
  {
    if n > 0 { MergeLed(kept, e, n - 1); }
  }

  /** Merging keeps the kept edge's messages, adds the other's, and keeps interfaces in step. */
  lemma MergeIsUnion(kept: Edge, e: Edge)
    ensures forall x :: x in Merge(kept, e).msgTypes <==> x in kept.msgTypes || x in e.msgTypes
    ensures NoRepeats(kept.msgTypes) ==> NoRepeats(Merge(kept, e).msgTypes)
    ensures Matched(kept) && Matched(e) ==> Matched(Merge(kept, e))
  {
    if NoRepeats(kept.msgTypes) { MergeDistinct(kept, e, |e.msgTypes|); }
    forall x ensures x in Merge(kept, e).msgTypes <==> x in kept.msgTypes || x in e.msgTypes {
      MergeHolds(kept, e, |e.msgTypes|, x);
      assert e.msgTypes[..|e.msgTypes|] == e.msgTypes;
    }
    if Matched(kept) && Matched(e) { MergeMatched(kept, e, |e.msgTypes|); }
  }

  // ---- The collapse -------------------------------------------------------------------------

  datatype Collapsing = Collapsing(edges: map<Key, Edge>, dropped: set<Key>)

  function CollapseOne(c: Collapsing, k: Key): Collapsing
    requires k in c.edges
  {
    var r := Reverse(k);
    if k in c.dropped || r !in c.edges || r in c.dropped then c
    else Collapsing(c.edges[r := Merge(c.edges[r], c.edges[k])], c.dropped + {k})
  }

  /** After the first `n` keys of the map's order. */
  function CollapseUpTo(em: EdgeMap, n: nat): (c: Collapsing)
    requires n <= |em.order| && forall k :: k in em.order ==> k in em.edges
    ensures c.edges.Keys == em.edges.Keys
    decreases n, 0
  {
    if n == 0 then Collapsing(em.edges, {}) else CollapsePast(em, n - 1)
  }

  function CollapsePast(em: EdgeMap, n: nat): (c: Collapsing)
    requires n < |em.order| && forall k :: k in em.order ==> k in em.edges
    ensures c.edges.Keys == em.edges.Keys
    decreases n, 1
  {
    CollapseOne(CollapseUpTo(em, n), em.order[n])
  }

  /** The key is met before its reverse. */
  ghost predicate ComesFirst(order: seq<Key>, k: Key) {
    exists i :: 0 <= i < |order| && order[i] == k && Reverse(k) !in order[..i]
  }

  lemma FirstNext(order: seq<Key>, k: Key, j: Key)
    ensures ComesFirst(order + [k], j) <==> ComesFirst(order, j) || (j == k && Reverse(j) !in order)
  {
    var all := order + [k];
    if i :| 0 <= i < |order| && order[i] == j && Reverse(j) !in order[..i] { assert all[..i] == order[..i]; }
    if i :| 0 <= i < |all| && all[i] == j && Reverse(j) !in all[..i] { assert all[..i] == order[..i]; }
    if j == k && Reverse(j) !in order { assert all[|order|] == j && all[..|order|] == order; }
  }

  /** Of two keys met, one is met first. */
  lemma {:induction false} OneComesFirst(order: seq<Key>, k: Key)
    requires k.0 != k.1
    ensures k in order || Reverse(k) in order <==> ComesFirst(order, k) || ComesFirst(order, Reverse(k))
    ensures !(ComesFirst(order, k) && ComesFirst(order, Reverse(k)))
  {
    var r := Reverse(k);
    assert Reverse(r) == k && r != k;
    if order != [] {
      var n := |order| - 1;
      OneComesFirst(order[..n], k);
      assert order == order[..n] + [order[n]];
      FirstNext(order[..n], order[n], k);
      FirstNext(order[..n], order[n], r);
    }
  }

  /** Of every pair met, the key met first is dropped, and nothing else is. */
  ghost predicate DropsOk(em: EdgeMap, n: nat, c: Collapsing)
    requires n <= |em.order|
  {
    c.edges.Keys == em.edges.Keys && forall k :: DropOk(em, n, c, k)
  }

  ghost predicate DropOk(em: EdgeMap, n: nat, c: Collapsing, k: Key)
    requires n <= |em.order|
  {
    k in c.dropped <==> k in em.edges && Reverse(k) in em.edges && ComesFirst(em.order[..n], k)
  }

  /** An edge holds its own messages and, once its reverse is dropped, the reverse's. */
  ghost predicate ContentOk(em: EdgeMap, c: Collapsing, k: Key)
    requires k in em.edges && k in c.edges
  {
    && NoRepeats(c.edges[k].msgTypes) && (AllMatched(em.edges) ==> Matched(c.edges[k]))
    && c.edges[k].transport == em.edges[k].transport
    && (forall m :: Has(c.edges, k, m)
          <==> Has(em.edges, k, m) || (Reverse(k) in c.dropped && Has(em.edges, Reverse(k), m)))
    && c.edges[k].confident == (em.edges[k].confident || (Reverse(k) in c.dropped && Confident(em.edges, Reverse(k))))
  }

  ghost predicate Progress(em: EdgeMap, n: nat, c: Collapsing)
    requires n <= |em.order|
  {
    DropsOk(em, n, c) && forall k :: k in em.edges ==> ContentOk(em, c, k)
  }

  lemma CollapseOneDrops(em: EdgeMap, n: nat, c: Collapsing)
    requires n < |em.order| && Ordered(em) && NoSelfLoops(em.edges) && DropsOk(em, n, c)
    ensures DropsOk(em, n + 1, CollapseOne(c, em.order[n]))
  {
    var k, next := em.order[n], CollapseOne(c, em.order[n]);
    assert k in em.edges && k.0 != k.1;
    var m := n + 1;
    assert em.order[..m] == em.order[..n] + [k];
    assert DropOk(em, n, c, k) && DropOk(em, n, c, Reverse(k));
    forall j ensures DropOk(em, m, next, j) {
      assert DropOk(em, n, c, j);
      FirstNext(em.order[..n], k, j);
      OneComesFirst(em.order[..n], k);
      assert Reverse(Reverse(k)) == k;
    }
  }

  lemma CollapseOneContent(em: EdgeMap, n: nat, c: Collapsing, j: Key)
    requires n < |em.order| && Ordered(em) && NoSelfLoops(em.edges) && DropsOk(em, n, c)
    requires j in em.edges && ContentOk(em, c, j)
    requires Reverse(j) in em.edges ==> ContentOk(em, c, Reverse(j))
    ensures ContentOk(em, CollapseOne(c, em.order[n]), j)
  {
    var k := em.order[n];
    var next := CollapseOne(c, k);
    assert Reverse(Reverse(j)) == j && j.0 != j.1;
    if j == Reverse(k) && next.dropped != c.dropped {
      MergeIsUnion(c.edges[j], c.edges[k]);
      MergeLed(c.edges[j], c.edges[k], |c.edges[k].msgTypes|);
      forall m ensures Has(next.edges, j, m) <==> Has(em.edges, j, m) || Has(em.edges, k, m) {
        assert Has(c.edges, k, m) <==> Has(em.edges, k, m);
        assert Has(c.edges, j, m) <==> Has(em.edges, j, m);
      }
    } else {
      assert next.edges[j] == c.edges[j];
      assert Reverse(j) in next.dropped <==> Reverse(j) in c.dropped;
      forall m ensures Has(next.edges, j, m) <==> Has(c.edges, j, m) {}
    }
  }

  lemma CollapseOneProgress(em: EdgeMap, n: nat, c: Collapsing)
    requires n < |em.order| && Ordered(em) && NoSelfLoops(em.edges) && Progress(em, n, c)
    ensures Progress(em, n + 1, CollapseOne(c, em.order[n]))
  {
    CollapseOneDrops(em, n, c);
    forall j | j in em.edges ensures ContentOk(em, CollapseOne(c, em.order[n]), j) {
      CollapseOneContent(em, n, c, j);
    }
  }

  ghost predicate Progressed(em: EdgeMap, n: nat)
    requires n <= |em.order| && Ordered(em)
  {
    Progress(em, n, CollapseUpTo(em, n))
  }

  lemma NoProgressYet(em: EdgeMap)
    requires Ordered(em) && AllDistinct(em.edges)
    ensures Progressed(em, 0)
  {
    assert CollapseUpTo(em, 0) == Collapsing(em.edges, {});
  }

  lemma ProgressStep(em: EdgeMap, n: nat)
    requires n < |em.order| && Ordered(em) && NoSelfLoops(em.edges) && Progressed(em, n)
    ensures Progressed(em, n + 1)
  {
    CollapseOneProgress(em, n, CollapseUpTo(em, n));
    assert CollapseUpTo(em, n + 1) == CollapsePast(em, n);
  }

  lemma {:induction false} CollapseProgress(em: EdgeMap, n: nat)
    requires n <= |em.order| && Ordered(em) && NoSelfLoops(em.edges) && AllDistinct(em.edges)
    ensures Progressed(em, n)
  {
    if n == 0 {
      NoProgressYet(em);
    } else {
      CollapseProgress(em, n - 1);
      ProgressStep(em, n - 1);
    }
  }

  ghost predicate AllLed(edges: map<Key, Edge>) { forall k :: k in edges ==> Led(edges[k]) }

  /** An interface of the reverse whose message the edge does not hold itself. */
  ghost predicate TakenOver(em: EdgeMap, k: Key, f: Msg) {
    Reverse(k) in em.edges && f in em.edges[Reverse(k)].interfaces && !Has(em.edges, k, f.constant)
  }

  /** An edge leads with its transport still, keeps its interfaces, and takes over those that are new to it. */
  ghost predicate InterfacesOk(em: EdgeMap, c: Collapsing, k: Key)
    requires k in em.edges && k in c.edges
  {
    && Led(c.edges[k])
    && forall f :: f in c.edges[k].interfaces
         <==> f in em.edges[k].interfaces || (Reverse(k) in c.dropped && TakenOver(em, k, f))
  }

  lemma MergedInterfaces(em: EdgeMap, n: nat, c: Collapsing, k: Key)
    requires n < |em.order| && Ordered(em) && NoSelfLoops(em.edges) && AllMatched(em.edges) && Progress(em, n, c)
    requires k in em.edges && InterfacesOk(em, c, k) && k == Reverse(em.order[n])
    requires InterfacesOk(em, c, em.order[n]) && em.order[n] !in c.dropped && k !in c.dropped
    ensures InterfacesOk(em, CollapseOne(c, em.order[n]), k)
  {
    var r, next := em.order[n], CollapseOne(c, em.order[n]);
    assert Reverse(k) == r && k != r && ContentOk(em, c, k) && ContentOk(em, c, r);
    MergeLed(c.edges[k], c.edges[r], |c.edges[r].msgTypes|);
    assert c.edges[r].interfaces[..|c.edges[r].msgTypes|] == c.edges[r].interfaces;
    forall f ensures f in next.edges[k].interfaces <==> f in em.edges[k].interfaces || TakenOver(em, k, f) {
      MergeInterfaces(c.edges[k], c.edges[r], |c.edges[r].msgTypes|, f);
      assert Has(c.edges, k, f.constant) <==> Has(em.edges, k, f.constant);
    }
  }

  lemma OtherInterfaces(em: EdgeMap, n: nat, c: Collapsing, k: Key)
    requires n < |em.order| && em.order[n] in c.edges && k in em.edges && k in c.edges && InterfacesOk(em, c, k)
    requires em.order[n] != Reverse(k) || Reverse(k) in c.dropped || k in c.dropped
    ensures InterfacesOk(em, CollapseOne(c, em.order[n]), k)
  {
    var x, next := em.order[n], CollapseOne(c, em.order[n]);
    assert Reverse(Reverse(k)) == k && Reverse(Reverse(x)) == x;
    assert next.edges[k] == c.edges[k] && (Reverse(k) in next.dropped <==> Reverse(k) in c.dropped);
  }

  lemma NextInterfaces(em: EdgeMap, n: nat, c: Collapsing, k: Key)
    requires n < |em.order| && Ordered(em) && NoSelfLoops(em.edges) && AllMatched(em.edges) && Progress(em, n, c)
    requires k in em.edges && InterfacesOk(em, c, k)
    requires Reverse(k) in em.edges ==> InterfacesOk(em, c, Reverse(k))
    ensures InterfacesOk(em, CollapseOne(c, em.order[n]), k)
  {
    var r := Reverse(k);
    assert Reverse(r) == k && k != r;
    if em.order[n] == r && r !in c.dropped && k !in c.dropped {
      MergedInterfaces(em, n, c, k);
    } else {
      OtherInterfaces(em, n, c, k);
    }
  }

  /** After the collapse a surviving edge's interfaces are its own and those of the reverse that are new to it. */
  lemma {:induction false} InterfacesKept(em: EdgeMap, n: nat, k: Key)
    requires n <= |em.order| && Ordered(em) && NoSelfLoops(em.edges) && AllMatched(em.edges) && AllLed(em.edges)
    requires k in em.edges
    ensures InterfacesAt(em, n, k)
  {
    if n == 0 {
      NoInterfacesYet(em, k);
    } else {
      InterfacesKept(em, n - 1, k);
      if Reverse(k) in em.edges { InterfacesKept(em, n - 1, Reverse(k)); }
      InterfacesStep(em, n - 1, k);
    }
  }

  ghost predicate InterfacesAt(em: EdgeMap, n: nat, k: Key)
    requires n <= |em.order| && Ordered(em) && k in em.edges
  {
    InterfacesOk(em, CollapseUpTo(em, n), k)
  }

  lemma InterfacesStep(em: EdgeMap, n: nat, k: Key)
    requires n < |em.order| && Ordered(em) && NoSelfLoops(em.edges) && AllMatched(em.edges)
    requires k in em.edges && InterfacesAt(em, n, k)
    requires Reverse(k) in em.edges ==> InterfacesAt(em, n, Reverse(k))
    ensures InterfacesAt(em, n + 1, k)
  {
    CollapseProgress(em, n);
    NextInterfaces(em, n, CollapseUpTo(em, n), k);
    assert CollapseUpTo(em, n + 1) == CollapsePast(em, n);
  }

  lemma NoInterfacesYet(em: EdgeMap, k: Key)
    requires Ordered(em) && k in em.edges && AllLed(em.edges)
    ensures InterfacesAt(em, 0, k)
  {
    assert CollapseUpTo(em, 0) == Collapsing(em.edges, {});
  }

  function Collapsed(em: EdgeMap): map<Key, Edge>
    requires forall k :: k in em.order ==> k in em.edges
  {
    var c := CollapseUpTo(em, |em.order|);
    c.edges - c.dropped
  }

  /**
   * After the collapse every unordered pair that had an edge has exactly one, which carries the
   * messages of both directions, each once, with its interfaces in step if they were before, and is
   * confident exactly if either direction was; the reverse is on record as dropped exactly if it existed,
   * and then it was entered first.
   */
  lemma {:induction false} CollapseKeepsUnion(em: EdgeMap, k: Key)
    requires Ordered(em) && NoSelfLoops(em.edges) && AllDistinct(em.edges)
    ensures var r, out := Reverse(k), Collapsed(em);
            && !(k in out && r in out)
            && (k in out || r in out <==> k in em.edges || r in em.edges)
            && (k in out ==>
                  && NoRepeats(out[k].msgTypes) && (AllMatched(em.edges) ==> Matched(out[k]))
                  && k in em.edges && out[k].transport == em.edges[k].transport
                  && (r in CollapseUpTo(em, |em.order|).dropped <==> r in em.edges)
                  && (r in em.edges ==> ComesFirst(em.order, r))
                  && (forall m :: m in out[k].msgTypes <==> Has(em.edges, k, m) || Has(em.edges, r, m))
                  && (out[k].confident <==> Confident(em.edges, k) || Confident(em.edges, r)))
  {
    CollapseProgress(em, |em.order|);
    var c, r := CollapseUpTo(em, |em.order|), Reverse(k);
    assert Reverse(r) == k;
    assert em.order[..|em.order|] == em.order;
    assert DropOk(em, |em.order|, c, k) && DropOk(em, |em.order|, c, r);
    if k in em.edges || r in em.edges { OneComesFirst(em.order, k); }
  }

  datatype Direction = Unidirectional | Bidirectional | Uncertain

  /** How a surviving edge is drawn; `wasPair` says that its reverse was folded into it. */
  function DirectionOf(e: Edge, wasPair: bool): Direction {
    if !e.confident then Uncertain else if wasPair then Bidirectional else Unidirectional
  }

  method CollapseReciprocal(em: EdgeMap) returns (edges: map<Key, Edge>, dropped: set<Key>)
    requires forall k :: k in em.order ==> k in em.edges
    ensures edges == Collapsed(em) && dropped == CollapseUpTo(em, |em.order|).dropped
  {
    edges, dropped := em.edges, {};
    for i := 0 to |em.order|
      invariant Collapsing(edges, dropped) == CollapseUpTo(em, i)
    {
      var k := em.order[i];
      var r := Reverse(k);
      if k !in dropped && r in edges && r !in dropped {
        var e, kept := edges[k], edges[r];
        for j := 0 to |e.msgTypes|
          invariant kept == MergeUpTo(edges[r], e, j)
        {
          var m := e.msgTypes[j];
          if m !in kept.msgTypes {
            kept := kept.(msgTypes := kept.msgTypes + [m], interfaces := kept.interfaces + WithConstant(e.interfaces, m));
          }
        }
        kept := kept.(confident := edges[r].confident || e.confident);
        edges := edges[r := kept];
        dropped := dropped + {k};
      }
    }
    edges := edges - dropped;
  }
}
