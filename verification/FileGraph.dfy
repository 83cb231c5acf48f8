/** The per-file graph: direct edges from producers to consumers, then the same collapse. */
module FileGraph {
  import opened Alignment
  import opened Reachability
  import opened EdgeCollapse

  function FilesIn(roles: seq<(string, FileRole)>, without: FileRole): seq<string> {
    if roles == [] then []
    else
      var last := roles[|roles| - 1];
      FilesIn(roles[..|roles| - 1], without) + (if last.1 != without then [last.0] else [])
  }

  lemma {:induction false} FilesInIs(roles: seq<(string, FileRole)>, without: FileRole, f: string)
    ensures f in FilesIn(roles, without) <==> exists i :: 0 <= i < |roles| && roles[i].0 == f && roles[i].1 != without
  {
    if roles != [] { FilesInIs(roles[..|roles| - 1], without, f); }
  }

  function Producers(m: Msg): seq<string> { FilesIn(m.fileRoles, Consumer) }

  function Consumers(m: Msg): seq<string> { FilesIn(m.fileRoles, Producer) }

  /** An edge keeps the confidence of the message that created it. */
  function AddFileEdge(em: EdgeMap, k: Key, m: Msg): EdgeMap {
    if k.0 == k.1 then em
    else if k in em.edges then
      var e := em.edges[k];
      if m.constant in e.msgTypes then em
      else em.(edges := em.edges[k := e.(msgTypes := e.msgTypes + [m.constant])])
    else EdgeMap(em.edges[k := Edge([m.constant], [], m.transport, m.confident)], em.order + [k])
  }

  function FromProducer(em: EdgeMap, p: string, consumers: seq<string>, m: Msg): EdgeMap {
    if consumers == [] then em
    else
      var n := |consumers| - 1;
      AddFileEdge(FromProducer(em, p, consumers[..n], m), (p, consumers[n]), m)
  }

  function FromMessage(em: EdgeMap, producers: seq<string>, m: Msg): EdgeMap {
    if producers == [] then em
    else
      var n := |producers| - 1;
      FromProducer(FromMessage(em, producers[..n], m), producers[n], Consumers(m), m)
  }

  function FromMessages(ms: seq<Msg>): EdgeMap {
    if ms == [] then NO_EDGES
    else
      var m := ms[|ms| - 1];
      FromMessage(FromMessages(ms[..|ms| - 1]), Producers(m), m)
  }

  ghost predicate Shaped(em: EdgeMap) {
    Ordered(em) && NoSelfLoops(em.edges) && AllDistinct(em.edges)
    && forall k :: k in em.edges ==> em.edges[k].msgTypes != []
  }

  /** The edges of `next` are those of `em` and message `c` on the keys in `ks`. */
  ghost predicate Extends(em: EdgeMap, next: EdgeMap, ks: set<Key>, c: string) {
    Shaped(next) && forall j, m :: Has(next.edges, j, m) <==> Has(em.edges, j, m) || (j in ks && m == c)
  }

  function KeysTo(p: string, consumers: seq<string>): set<Key> { set q | q in consumers && q != p :: (p, q) }

  lemma {:induction false} FromProducerExtends(em: EdgeMap, p: string, consumers: seq<string>, m: Msg)
    requires Shaped(em)
    ensures Extends(em, FromProducer(em, p, consumers, m), KeysTo(p, consumers), m.constant)
  {
    if consumers != [] {
      var n := |consumers| - 1;
      FromProducerExtends(em, p, consumers[..n], m);
      var before, after := FromProducer(em, p, consumers[..n], m), FromProducer(em, p, consumers, m);
      assert consumers == consumers[..n] + [consumers[n]];
      AddFileEdgeExtends(before, (p, consumers[n]), m);
      forall j, x ensures Has(after.edges, j, x) <==> Has(em.edges, j, x) || (j in KeysTo(p, consumers) && x == m.constant) {
        assert Has(before.edges, j, x)
          <==> Has(em.edges, j, x) || (j in KeysTo(p, consumers[..n]) && x == m.constant);
        assert j in KeysTo(p, consumers)
          <==> j in KeysTo(p, consumers[..n]) || (j == (p, consumers[n]) && consumers[n] != p);
      }
    }
  }

  lemma AddFileEdgeExtends(em: EdgeMap, k: Key, m: Msg)
    requires Shaped(em)
    ensures Extends(em, AddFileEdge(em, k, m), if k.0 == k.1 then {} else {k}, m.constant)
  {
  }

  /** File `f` plays a part in the message other than the one named. */
  ghost predicate Plays(m: Msg, f: string, without: FileRole) {
    exists i :: 0 <= i < |m.fileRoles| && m.fileRoles[i].0 == f && m.fileRoles[i].1 != without
  }

  /** The first file produces the message, or both produces and consumes it, and the other consumes it. */
  ghost predicate Connects(m: Msg, k: Key) {
    k.0 != k.1 && Plays(m, k.0, Consumer) && Plays(m, k.1, Producer)
  }

  lemma ConnectsIs(m: Msg, k: Key)
    ensures Connects(m, k) <==> k.0 != k.1 && k.0 in Producers(m) && k.1 in Consumers(m)
  {
    FilesInIs(m.fileRoles, Consumer, k.0);
    FilesInIs(m.fileRoles, Producer, k.1);
  }

  lemma {:induction false} FromMessageHolds(em: EdgeMap, producers: seq<string>, m: Msg)
    requires Shaped(em)
    ensures Shaped(FromMessage(em, producers, m))
    ensures forall j, x :: Has(FromMessage(em, producers, m).edges, j, x) <==>
      Has(em.edges, j, x) || (j.0 in producers && j.1 in Consumers(m) && j.0 != j.1 && x == m.constant)
  {
    if producers != [] {
      var n := |producers| - 1;
      FromMessageHolds(em, producers[..n], m);
      var before := FromMessage(em, producers[..n], m);
      FromProducerExtends(before, producers[n], Consumers(m), m);
      assert producers == producers[..n] + [producers[n]];
      forall j: Key ensures j in KeysTo(producers[n], Consumers(m))
        <==> j.0 == producers[n] && j.1 in Consumers(m) && j.0 != j.1
      {
        if j.0 == producers[n] && j.1 in Consumers(m) && j.0 != j.1 { assert j == (producers[n], j.1); }
      }
    }
  }

  ghost predicate SomeConnects(ms: seq<Msg>, k: Key, c: string) {
    exists m :: m in ms && m.constant == c && Connects(m, k)
  }

  lemma {:induction false} FromMessagesHold(ms: seq<Msg>)
    ensures Shaped(FromMessages(ms))
    ensures forall j, c :: Has(FromMessages(ms).edges, j, c) <==> SomeConnects(ms, j, c)
  {
    if ms != [] {
      var n := |ms| - 1;
      FromMessagesHold(ms[..n]);
      FromMessageHolds(FromMessages(ms[..n]), Producers(ms[n]), ms[n]);
      assert ms == ms[..n] + [ms[n]];
      forall j, c ensures SomeConnects(ms, j, c)
        <==> SomeConnects(ms[..n], j, c) || (c == ms[n].constant && Connects(ms[n], j))
      {
        assert ms[n] in ms;
      }
      forall j: Key ensures Connects(ms[n], j) <==> j.0 != j.1 && j.0 in Producers(ms[n]) && j.1 in Consumers(ms[n]) {
        ConnectsIs(ms[n], j);
      }
    }
  }

  method AddMessage(em0: EdgeMap, m: Msg) returns (em: EdgeMap)
    ensures em == FromMessage(em0, Producers(m), m)
  {
    em := em0;
    var producers, consumers := Producers(m), Consumers(m);
    for i := 0 to |producers|
      invariant em == FromMessage(em0, producers[..i], m)
    {
      assert producers[..i + 1][..i] == producers[..i];
      ghost var before := em;
      for j := 0 to |consumers|
        invariant em == FromProducer(before, producers[i], consumers[..j], m)
      {
        assert consumers[..j + 1][..j] == consumers[..j];
        em := AddFileEdge(em, (producers[i], consumers[j]), m);
      }
      assert consumers[..|consumers|] == consumers;
    }
    assert producers[..|producers|] == producers;
  }

  // ---- Confidence ---------------------------------------------------------------------------

  /** The first message that connects the two files this way is confident of its direction. */
  ghost predicate FirstConfident(ms: seq<Msg>, k: Key) {
    exists i :: 0 <= i < |ms| && ConfidentFirst(ms, i, k)
  }

  ghost predicate ConfidentFirst(ms: seq<Msg>, i: nat, k: Key)
    requires i < |ms|
  {
    ms[i].confident && Connects(ms[i], k) && forall j :: 0 <= j < i ==> !Connects(ms[j], k)
  }

  ghost predicate AnyConnects(ms: seq<Msg>, k: Key) { exists i :: 0 <= i < |ms| && Connects(ms[i], k) }

  lemma {:induction false} ProducerKeepsConfidence(em: EdgeMap, p: string, consumers: seq<string>, m: Msg, k: Key)
    ensures var next := FromProducer(em, p, consumers, m).edges;
            && (k in next <==> k in em.edges || k in KeysTo(p, consumers))
            && (k in next ==> next[k].confident == if k in em.edges then em.edges[k].confident else m.confident)
            && (k in next ==> next[k].transport == if k in em.edges then em.edges[k].transport else m.transport)
  {
    if consumers != [] {
      var n := |consumers| - 1;
      ProducerKeepsConfidence(em, p, consumers[..n], m, k);
      assert consumers == consumers[..n] + [consumers[n]];
      assert k in KeysTo(p, consumers) <==> k in KeysTo(p, consumers[..n]) || (k == (p, consumers[n]) && consumers[n] != p);
    }
  }

  lemma {:induction false} MessageKeepsConfidence(em: EdgeMap, producers: seq<string>, m: Msg, k: Key)
    ensures var next := FromMessage(em, producers, m).edges;
            && (k in next <==> k in em.edges || (k.0 in producers && k.1 in Consumers(m) && k.0 != k.1))
            && (k in next ==> next[k].confident == if k in em.edges then em.edges[k].confident else m.confident)
            && (k in next ==> next[k].transport == if k in em.edges then em.edges[k].transport else m.transport)
  {
    if producers != [] {
      var n := |producers| - 1;
      MessageKeepsConfidence(em, producers[..n], m, k);
      ProducerKeepsConfidence(FromMessage(em, producers[..n], m), producers[n], Consumers(m), m, k);
      assert producers == producers[..n] + [producers[n]];
      if k.0 == producers[n] && k.1 in Consumers(m) && k.0 != k.1 { assert k == (producers[n], k.1); }
    }
  }

  /** Before the collapse an edge exists if some message connects the files and has the first one's confidence. */
  lemma {:induction false} ConfidenceIsFirst(ms: seq<Msg>, k: Key)
    ensures k in FromMessages(ms).edges <==> AnyConnects(ms, k)
    ensures Confident(FromMessages(ms).edges, k) <==> FirstConfident(ms, k)
  {
    if ms != [] {
      var n := |ms| - 1;
      ConfidenceIsFirst(ms[..n], k);
      MessageKeepsConfidence(FromMessages(ms[..n]), Producers(ms[n]), ms[n], k);
      ConnectsIs(ms[n], k);
      FirstNext(ms, k);
    }
  }

  /** The first message that connects the two files this way has this transport. */
  ghost predicate FirstTransport(ms: seq<Msg>, k: Key, transport: string) {
    exists i :: 0 <= i < |ms| && Connects(ms[i], k) && ms[i].transport == transport && !AnyConnects(ms[..i], k)
  }

  /** An edge has the transport of that message. */
  lemma {:induction false} TransportIsFirst(ms: seq<Msg>, k: Key)
    requires k in FromMessages(ms).edges
    ensures FirstTransport(ms, k, FromMessages(ms).edges[k].transport)
  {
    var n := |ms| - 1;
    ConfidenceIsFirst(ms[..n], k);
    MessageKeepsConfidence(FromMessages(ms[..n]), Producers(ms[n]), ms[n], k);
    ConnectsIs(ms[n], k);
    if k in FromMessages(ms[..n]).edges {
      TransportIsFirst(ms[..n], k);
      var i :| 0 <= i < n && Connects(ms[..n][i], k) && ms[..n][i].transport == FromMessages(ms).edges[k].transport
            && !AnyConnects(ms[..n][..i], k);
      assert ms[..n][..i] == ms[..i] && ms[..n][i] == ms[i];
    }
  }

  lemma FirstNext(ms: seq<Msg>, k: Key)
    requires ms != []
    ensures var n := |ms| - 1;
            && (AnyConnects(ms, k) <==> AnyConnects(ms[..n], k) || Connects(ms[n], k))
            && (ConfidentFirst(ms, n, k) <==> !AnyConnects(ms[..n], k) && Connects(ms[n], k) && ms[n].confident)
            && (FirstConfident(ms, k) <==> FirstConfident(ms[..n], k) || ConfidentFirst(ms, n, k))
  {
    var n := |ms| - 1;
    if i :| 0 <= i < n && Connects(ms[..n][i], k) { assert Connects(ms[i], k); }
    if i :| 0 <= i < n && ConfidentFirst(ms[..n], i, k) {
      assert forall j :: 0 <= j < i ==> ms[..n][j] == ms[j];
      assert ConfidentFirst(ms, i, k);
    }
    if i :| 0 <= i < |ms| && ConfidentFirst(ms, i, k) {
      if i < n { assert ConfidentFirst(ms[..n], i, k); }
    }
    if !AnyConnects(ms[..n], k) {
      forall j | 0 <= j < n ensures !Connects(ms[j], k) { assert ms[..n][j] == ms[j]; }
    }
    if i :| 0 <= i < |ms| && Connects(ms[i], k) {
      if i < n { assert Connects(ms[..n][i], k); }
    }
  }

  // ---- Does the order of the messages matter? -----------------------------------------------------

  /** The messages that connect the files this way agree on whether the direction is sure. */
  ghost predicate AllAgree(ms: seq<Msg>, k: Key) {
    forall m, n :: m in ms && n in ms && Connects(m, k) && Connects(n, k) ==> m.confident == n.confident
  }

  ghost predicate SomeSure(ms: seq<Msg>, k: Key) { exists m :: m in ms && Connects(m, k) && m.confident }

  ghost predicate SomeUnsure(ms: seq<Msg>, k: Key) { exists m :: m in ms && Connects(m, k) && !m.confident }

  lemma FirstHasBoth(ms: seq<Msg>, k: Key)
    ensures FirstConfident(ms, k) ==> SomeSure(ms, k)
    ensures AnyConnects(ms, k) && !FirstConfident(ms, k) ==> SomeUnsure(ms, k)
    ensures AnyConnects(ms, k) <==> SomeSure(ms, k) || SomeUnsure(ms, k)
  {
    if i :| 0 <= i < |ms| && ConfidentFirst(ms, i, k) { assert ms[i] in ms; }
    if AnyConnects(ms, k) && !FirstConfident(ms, k) { var i := EarliestConnects(ms, k); }
    if m :| m in ms && Connects(m, k) { var i :| 0 <= i < |ms| && ms[i] == m; }
    if i :| 0 <= i < |ms| && Connects(ms[i], k) { assert ms[i] in ms; }
  }

  lemma {:induction false} EarliestConnects(ms: seq<Msg>, k: Key) returns (i: nat)
    requires AnyConnects(ms, k)
    ensures i < |ms| && Connects(ms[i], k) && forall j :: 0 <= j < i ==> !Connects(ms[j], k)
    ensures !FirstConfident(ms, k) ==> !ms[i].confident
  {
    i := 0;
    while !Connects(ms[i], k)
      invariant i < |ms| && forall j :: 0 <= j < i ==> !Connects(ms[j], k)
      decreases |ms| - i
    {
      i := i + 1;
    }
    if ms[i].confident { assert ConfidentFirst(ms, i, k); }
  }

  /** The same messages with `m` first. */
  lemma {:induction false} ToFront(ms: seq<Msg>, m: Msg) returns (ns: seq<Msg>)
    requires m in ms
    ensures multiset(ns) == multiset(ms) && ns != [] && ns[0] == m
    ensures |ms| > 0 && (ms[0] == m || (|ns| > 1 && ns[1] == ms[0]))
  {
    var i :| 0 <= i < |ms| && ms[i] == m;
    ns := [m] + ms[..i] + ms[i + 1..];
    assert ms == ms[..i] + [m] + ms[i + 1..];
  }

  lemma HeadDecides(ms: seq<Msg>, k: Key)
    requires ms != [] && Connects(ms[0], k)
    ensures FirstConfident(ms, k) <==> ms[0].confident
  {
    if ms[0].confident { assert ConfidentFirst(ms, 0, k); }
  }

  lemma SameMembers(ms: seq<Msg>, ns: seq<Msg>)
    requires multiset(ns) == multiset(ms)
    ensures forall m :: m in ns <==> m in ms
  {
    forall m ensures m in ns <==> m in ms { assert m in ns <==> m in multiset(ns); }
  }

  /** Whatever the order of the messages, the first to connect the files this way says the same. */
  ghost predicate OrderFree(ms: seq<Msg>, k: Key) {
    forall ns :: multiset(ns) == multiset(ms) ==> FirstConfident(ns, k) == FirstConfident(ms, k)
  }

  /** That is so exactly if all messages that connect them agree. */
  lemma {:induction false} OrderFreeExactly(ms: seq<Msg>, k: Key)
    ensures OrderFree(ms, k) <==> AllAgree(ms, k)
  {
    if AllAgree(ms, k) {
      forall ns | multiset(ns) == multiset(ms) ensures FirstConfident(ns, k) == FirstConfident(ms, k) {
        SameMembers(ms, ns);
        FirstHasBoth(ms, k);
        FirstHasBoth(ns, k);
      }
    }
    if m, n :| m in ms && n in ms && Connects(m, k) && Connects(n, k) && m.confident && !n.confident {
      var sure := ToFront(ms, m);
      HeadDecides(sure, k);
      var unsure := ToFront(ms, n);
      HeadDecides(unsure, k);
      assert !OrderFree(ms, k);
    }
  }

  /** The confidence of the finished edge between two files. */
  ghost predicate EitherConfident(ms: seq<Msg>, k: Key) { FirstConfident(ms, k) || FirstConfident(ms, Reverse(k)) }

  ghost predicate PairOrderFree(ms: seq<Msg>, k: Key) {
    forall ns :: multiset(ns) == multiset(ms) ==> EitherConfident(ns, k) == EitherConfident(ms, k)
  }

  /** No message between the two files is sure, or one way there are messages and all of them are. */
  ghost predicate PairDecided(ms: seq<Msg>, k: Key) {
    || (!SomeSure(ms, k) && !SomeSure(ms, Reverse(k)))
    || (SomeSure(ms, k) && !SomeUnsure(ms, k))
    || (SomeSure(ms, Reverse(k)) && !SomeUnsure(ms, Reverse(k)))
  }

  lemma {:induction false} DecidedIsFree(ms: seq<Msg>, ns: seq<Msg>, k: Key)
    requires PairDecided(ms, k) && multiset(ns) == multiset(ms)
    ensures EitherConfident(ns, k) == EitherConfident(ms, k)
  {
    SameMembers(ms, ns);
    FirstHasBoth(ms, k);
    FirstHasBoth(ns, k);
    FirstHasBoth(ms, Reverse(k));
    FirstHasBoth(ns, Reverse(k));
  }

  /** With a sure message first the edge is sure. */
  lemma {:induction false} SureOrder(ms: seq<Msg>, k: Key) returns (ns: seq<Msg>)
    requires SomeSure(ms, k) || SomeSure(ms, Reverse(k))
    ensures multiset(ns) == multiset(ms) && EitherConfident(ns, k)
  {
    var d := if SomeSure(ms, k) then k else Reverse(k);
    var m :| m in ms && Connects(m, d) && m.confident;
    ns := ToFront(ms, m);
    HeadDecides(ns, d);
  }

  /** With an unsure message first each way that has messages, it is not. */
  lemma {:induction false} UnsureOrder(ms: seq<Msg>, k: Key) returns (ns: seq<Msg>)
    requires SomeUnsure(ms, k) && (AnyConnects(ms, Reverse(k)) ==> SomeUnsure(ms, Reverse(k)))
    ensures multiset(ns) == multiset(ms) && !EitherConfident(ns, k)
  {
    var r := Reverse(k);
    var m :| m in ms && Connects(m, k) && !m.confident;
    ns := ms;
    if AnyConnects(ms, r) {
      var n :| n in ms && Connects(n, r) && !n.confident;
      ns := ToFront(ms, n);
      SameMembers(ms, ns);
    }
    var mid := ns;
    ns := ToFront(mid, m);
    HeadDecides(ns, k);
    SameMembers(ms, ns);
    FirstHasBoth(ms, r);
    FirstHasBoth(ns, r);
    if Connects(m, r) {
      HeadDecides(ns, r);
    } else if AnyConnects(ms, r) {
      SecondDecides(ns, r);
    }
  }

  lemma SecondDecides(ms: seq<Msg>, k: Key)
    requires |ms| > 1 && !Connects(ms[0], k) && Connects(ms[1], k) && !ms[1].confident
    ensures !FirstConfident(ms, k)
  {
    forall i | 0 <= i < |ms| ensures !ConfidentFirst(ms, i, k) {
      assert i > 1 ==> Connects(ms[1], k);
    }
  }

  /**
   * How sure the edge between two files is drawn does not depend on the order of the messages exactly
   * if none between them is sure, or all that go one way are, and there are some.
   */
  lemma {:induction false} PairOrderFreeExactly(ms: seq<Msg>, k: Key)
    ensures PairOrderFree(ms, k) <==> PairDecided(ms, k)
  {
    var r := Reverse(k);
    assert Reverse(r) == k;
    if PairDecided(ms, k) {
      forall ns | multiset(ns) == multiset(ms) ensures EitherConfident(ns, k) == EitherConfident(ms, k) {
        DecidedIsFree(ms, ns, k);
      }
    } else {
      FirstHasBoth(ms, k);
      FirstHasBoth(ms, r);
      var sure := SureOrder(ms, k);
      var unsure := UnsureOrder(ms, if SomeUnsure(ms, k) then k else r);
      assert EitherConfident(unsure, k) != EitherConfident(sure, k);
    }
  }

  const SURE := Msg("M", [("a.c", Producer), ("b.c", Consumer)], true, "")
  const UNSURE := Msg("N", [("a.c", Producer), ("b.c", Consumer)], false, "")

  /** Of two messages from one file to another, one sure and one not, the first listed decides. */
  lemma OrderMatters()
    ensures EitherConfident([SURE, UNSURE], ("a.c", "b.c")) && !EitherConfident([UNSURE, SURE], ("a.c", "b.c"))
  {
    var k := ("a.c", "b.c");
    OneWay(SURE);
    OneWay(UNSURE);
    HeadDecides([SURE, UNSURE], k);
    HeadDecides([UNSURE, SURE], k);
    FirstHasBoth([UNSURE, SURE], Reverse(k));
  }

  lemma OneWay(m: Msg)
    requires m.fileRoles == [("a.c", Producer), ("b.c", Consumer)]
    ensures Connects(m, ("a.c", "b.c")) && !Connects(m, ("b.c", "a.c"))
  {
    assert "a.c"[0] != "b.c"[0];
    assert m.fileRoles[0].0 == "a.c" && m.fileRoles[1].0 == "b.c";
  }

  // ---- The finished graph -------------------------------------------------------------------

  /** Message `c` connects the two files, one way or the other. */
  ghost predicate Linked(ms: seq<Msg>, k: Key, c: string) { SomeConnects(ms, k, c) || SomeConnects(ms, Reverse(k), c) }

  /** The finished graph at one pair of files: one edge, carrying every message that connects them. */
  ghost predicate GraphAt(ms: seq<Msg>, edges: map<Key, Edge>, k: Key) {
    && (k in edges ==> k.0 != k.1 && Reverse(k) !in edges && NoRepeats(edges[k].msgTypes) && AnyConnects(ms, k))
    && (k in edges || Reverse(k) in edges <==> exists c :: Linked(ms, k, c))
    && (k in edges ==> forall c :: c in edges[k].msgTypes <==> Linked(ms, k, c))
    && (k in edges ==> FirstTransport(ms, k, edges[k].transport))
    && (k in edges ==> (edges[k].confident <==> EitherConfident(ms, k)))
  }

  /** The reverse of a surviving edge was folded into it exactly if some message connects the files that way. */
  ghost predicate WasPair(ms: seq<Msg>, dropped: set<Key>, k: Key) {
    Reverse(k) in dropped <==> AnyConnects(ms, Reverse(k))
  }

  method BuildGraph(ms: seq<Msg>) returns (edges: map<Key, Edge>, dropped: set<Key>)
    ensures forall k :: GraphAt(ms, edges, k)
    ensures forall k :: k in edges ==> WasPair(ms, dropped, k)
  {
    var em := NO_EDGES;
    for i := 0 to |ms|
      invariant em == FromMessages(ms[..i])
    {
      assert ms[..i + 1][..i] == ms[..i];
      em := AddMessage(em, ms[i]);
    }
    assert ms[..|ms|] == ms;
    FromMessagesHold(ms);
    edges, dropped := CollapseReciprocal(em);
    forall k
      ensures GraphAt(ms, edges, k)
      ensures k in edges ==> WasPair(ms, dropped, k)
    {
      CollapsedAt(ms, em, k);
    }
  }

  /** A file edge is drawn both ways exactly if messages go both ways and the first of either way is confident. */
  lemma DrawnBothWays(ms: seq<Msg>, edges: map<Key, Edge>, dropped: set<Key>, k: Key)
    requires GraphAt(ms, edges, k) && k in edges && WasPair(ms, dropped, k)
    ensures DirectionOf(edges[k], Reverse(k) in dropped).Bidirectional?
      <==> AnyConnects(ms, Reverse(k)) && EitherConfident(ms, k)
    ensures DirectionOf(edges[k], Reverse(k) in dropped).Uncertain? <==> !EitherConfident(ms, k)
  {
  }

  /**
   * Two runs over the same messages in any two orders draw the edge between two files alike, under
   * whichever key it survives, if the messages between them decide it.
   */
  lemma {:induction false} DrawnAlike(ms: seq<Msg>, ns: seq<Msg>, k: Key, j: Key, one: map<Key, Edge>, dropped: set<Key>,
                                      two: map<Key, Edge>, gone: set<Key>)
    requires multiset(ns) == multiset(ms) && PairDecided(ms, k) && (j == k || j == Reverse(k))
    requires GraphAt(ms, one, k) && k in one && WasPair(ms, dropped, k)
    requires GraphAt(ns, two, j) && j in two && WasPair(ns, gone, j)
    ensures DirectionOf(one[k], Reverse(k) in dropped) == DirectionOf(two[j], Reverse(j) in gone)
  {
    DecidedIsFree(ms, ns, k);
    SameMembers(ms, ns);
    FirstHasBoth(ms, k);
    FirstHasBoth(ns, k);
    FirstHasBoth(ms, Reverse(k));
    FirstHasBoth(ns, Reverse(k));
  }

  lemma {:induction false} CollapsedAt(ms: seq<Msg>, em: EdgeMap, k: Key)
    requires em == FromMessages(ms) && Shaped(em) && forall j, c :: Has(em.edges, j, c) <==> SomeConnects(ms, j, c)
    ensures GraphAt(ms, Collapsed(em), k)
    ensures k in Collapsed(em) ==> WasPair(ms, CollapseUpTo(em, |em.order|).dropped, k)
  {
    var r := Reverse(k);
    CollapseKeepsUnion(em, k);
    ConfidenceIsFirst(ms, k);
    ConfidenceIsFirst(ms, r);
    if k in em.edges {
      TransportIsFirst(ms, k);
      var c := em.edges[k].msgTypes[0];
      assert Has(em.edges, k, c) && Linked(ms, k, c);
    }
    if r in em.edges {
      var c := em.edges[r].msgTypes[0];
      assert Has(em.edges, r, c) && Linked(ms, k, c);
    }
    if c :| Linked(ms, k, c) { assert Has(em.edges, k, c) || Has(em.edges, r, c); }
  }
}
