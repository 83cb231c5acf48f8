/** The cross-application graph: messages routed through brokers, then collapsed. */
module AppGraph {
  import opened Alignment
  import opened Reachability
  import opened EdgeCollapse

  /** One application; only analyzed ones carry interfaces. */
  datatype Group = Group(id: string, interfaces: seq<Msg>)

  predicate Produces(m: Msg) { exists i :: 0 <= i < |m.fileRoles| && !m.fileRoles[i].1.Consumer? }

  predicate Consumes(m: Msg) { exists i :: 0 <= i < |m.fileRoles| && !m.fileRoles[i].1.Producer? }

  /** Some file plays that part in the message. */
  ghost predicate HasFile(m: Msg, r: FileRole) { exists i :: 0 <= i < |m.fileRoles| && m.fileRoles[i].1 == r }

  /** Some file produces the message, or both produces and consumes it. */
  ghost predicate MadeBy(m: Msg) { HasFile(m, Producer) || HasFile(m, Both) }

  /** Some file consumes the message, or both produces and consumes it. */
  ghost predicate TakenBy(m: Msg) { HasFile(m, Consumer) || HasFile(m, Both) }

  lemma RolesDecide(m: Msg)
    ensures Produces(m) <==> MadeBy(m)
    ensures Consumes(m) <==> TakenBy(m)
  {
  }

  // ---- Who produces and consumes each message ------------------------------------------------

  datatype Entry = Entry(producers: seq<string>, consumers: seq<string>, interfaces: map<string, Msg>, confident: bool)

  const NEW_ENTRY := Entry([], [], map[], false)

  /** The message map with its insertion order. */
  datatype MsgMap = MsgMap(entries: map<string, Entry>, order: seq<string>)

  function Record(e: Entry, app: string, m: Msg): Entry {
    var e1 := if Produces(m) && app !in e.producers
              then e.(producers := e.producers + [app], interfaces := e.interfaces[app := m]) else e;
    var e2 := if Consumes(m) && app !in e1.consumers
              then e1.(consumers := e1.consumers + [app],
                       interfaces := if app in e1.interfaces then e1.interfaces else e1.interfaces[app := m]) else e1;
    e2.(confident := e2.confident || m.confident)
  }

  function AddMsg(mm: MsgMap, app: string, m: Msg): MsgMap {
    var known := m.constant in mm.entries;
    MsgMap(mm.entries[m.constant := Record(if known then mm.entries[m.constant] else NEW_ENTRY, app, m)],
           if known then mm.order else mm.order + [m.constant])
  }

  /** Every interface of every analyzed application, in loading order. */
  function Listing(groups: seq<Group>): seq<(string, Msg)> {
    if groups == [] then [] else Listing(groups[..|groups| - 1]) + Own(groups[|groups| - 1])
  }

  function Own(g: Group): seq<(string, Msg)> {
    seq(|g.interfaces|, i requires 0 <= i < |g.interfaces| => (g.id, g.interfaces[i]))
  }

  function MessageMap(listing: seq<(string, Msg)>): MsgMap
    decreases |listing|, 0
  {
    if listing == [] then MsgMap(map[], []) else WithLastMsg(listing)
  }

  function WithLastMsg(listing: seq<(string, Msg)>): MsgMap
    requires listing != []
    decreases |listing| - 1, 1
  {
    var n := |listing| - 1;
    AddMsg(MessageMap(listing[..n]), listing[n].0, listing[n].1)
  }

  ghost predicate Makes(listing: seq<(string, Msg)>, app: string, c: string) {
    exists p :: p in listing && p.0 == app && p.1.constant == c && MadeBy(p.1)
  }

  ghost predicate Takes(listing: seq<(string, Msg)>, app: string, c: string) {
    exists p :: p in listing && p.0 == app && p.1.constant == c && TakenBy(p.1)
  }

  ghost predicate Mentioned(listing: seq<(string, Msg)>, c: string) { exists p :: p in listing && p.1.constant == c }

  /** Some application knows for sure which way message `c` goes. */
  ghost predicate Vouched(listing: seq<(string, Msg)>, c: string) {
    exists p :: p in listing && p.1.constant == c && p.1.confident
  }

  /** An interface is on record for every application in the lists, and it is one of this message. */
  ghost predicate Documented(e: Entry, c: string) {
    && (forall app :: app in e.producers || app in e.consumers ==> app in e.interfaces)
    && (forall app :: app in e.interfaces ==> e.interfaces[app].constant == c)
  }

  ghost predicate EntryOk(listing: seq<(string, Msg)>, e: Entry, c: string) {
    && (forall app :: app in e.producers <==> Makes(listing, app, c))
    && (forall app :: app in e.consumers <==> Takes(listing, app, c))
    && (e.confident <==> Vouched(listing, c))
    && Documented(e, c)
    && forall app :: app in e.producers ==> FirstMade(listing, app, c, e.interfaces[app])
  }

  /** The interface is the first of that application and message under which the application makes it. */
  ghost predicate FirstMade(listing: seq<(string, Msg)>, app: string, c: string, m: Msg) {
    exists i :: 0 <= i < |listing| && listing[i].1 == m && MadeAt(listing, i, app, c) && !Makes(listing[..i], app, c)
  }

  ghost predicate MadeAt(listing: seq<(string, Msg)>, i: nat, app: string, c: string)
    requires i < |listing|
  {
    listing[i].0 == app && listing[i].1.constant == c && MadeBy(listing[i].1)
  }

  lemma FirstMadeStays(listing: seq<(string, Msg)>, p: (string, Msg), app: string, c: string, m: Msg)
    requires FirstMade(listing, app, c, m)
    ensures FirstMade(listing + [p], app, c, m)
  {
    var all := listing + [p];
    var i :| 0 <= i < |listing| && listing[i].1 == m && MadeAt(listing, i, app, c) && !Makes(listing[..i], app, c);
    assert all[i] == listing[i] && all[..i] == listing[..i] && MadeAt(all, i, app, c);
  }

  lemma FirstMadeNew(listing: seq<(string, Msg)>, p: (string, Msg))
    requires MadeBy(p.1) && !Makes(listing, p.0, p.1.constant)
    ensures FirstMade(listing + [p], p.0, p.1.constant, p.1)
  {
    var all, n := listing + [p], |listing|;
    assert all[n] == p && all[..n] == listing && MadeAt(all, n, p.0, p.1.constant);
  }

  ghost predicate MapOk(listing: seq<(string, Msg)>, mm: MsgMap) {
    && (forall c :: c in mm.entries <==> Mentioned(listing, c))
    && (forall c :: c in mm.order <==> c in mm.entries)
    && (forall c :: c in mm.entries ==> EntryOk(listing, mm.entries[c], c))
  }

  lemma OneMore(listing: seq<(string, Msg)>, p: (string, Msg), app: string, c: string)
    ensures Makes(listing + [p], app, c)
      <==> Makes(listing, app, c) || (p.0 == app && p.1.constant == c && MadeBy(p.1))
    ensures Takes(listing + [p], app, c)
      <==> Takes(listing, app, c) || (p.0 == app && p.1.constant == c && TakenBy(p.1))
    ensures Mentioned(listing + [p], c) <==> Mentioned(listing, c) || p.1.constant == c
    ensures Vouched(listing + [p], c) <==> Vouched(listing, c) || (p.1.constant == c && p.1.confident)
  {
    assert p in listing + [p];
    assert forall q :: q in listing ==> q in listing + [p];
  }

  lemma RecordLists(e: Entry, app: string, m: Msg)
    ensures forall x :: x in Record(e, app, m).producers <==> x in e.producers || (x == app && MadeBy(m))
    ensures forall x :: x in Record(e, app, m).consumers <==> x in e.consumers || (x == app && TakenBy(m))
  {
    RolesDecide(m);
  }

  lemma RecordDocumented(e: Entry, app: string, m: Msg)
    requires Documented(e, m.constant)
    ensures Documented(Record(e, app, m), m.constant)
  {
  }

  lemma RecordOk(listing: seq<(string, Msg)>, e: Entry, p: (string, Msg))
    requires EntryOk(listing, e, p.1.constant)
    ensures EntryOk(listing + [p], Record(e, p.0, p.1), p.1.constant)
  {
    var c, next := p.1.constant, Record(e, p.0, p.1);
    RecordLists(e, p.0, p.1);
    RecordDocumented(e, p.0, p.1);
    OneMore(listing, p, p.0, c);
    forall app ensures app in next.producers <==> Makes(listing + [p], app, c) { OneMore(listing, p, app, c); }
    forall app ensures app in next.consumers <==> Takes(listing + [p], app, c) { OneMore(listing, p, app, c); }
    forall app | app in next.producers ensures FirstMade(listing + [p], app, c, next.interfaces[app]) {
      RecordFirst(listing, e, p, app);
    }
  }

  lemma RecordFirst(listing: seq<(string, Msg)>, e: Entry, p: (string, Msg), app: string)
    requires EntryOk(listing, e, p.1.constant)
    requires app in Record(e, p.0, p.1).producers && app in Record(e, p.0, p.1).interfaces
    ensures FirstMade(listing + [p], app, p.1.constant, Record(e, p.0, p.1).interfaces[app])
  {
    RolesDecide(p.1);
    if app in e.producers {
      FirstMadeStays(listing, p, app, p.1.constant, e.interfaces[app]);
    } else {
      FirstMadeNew(listing, p);
    }
  }

  lemma AddMsgOk(listing: seq<(string, Msg)>, mm: MsgMap, p: (string, Msg))
    requires MapOk(listing, mm)
    ensures MapOk(listing + [p], AddMsg(mm, p.0, p.1))
  {
    var c0, next := p.1.constant, AddMsg(mm, p.0, p.1);
    if c0 !in mm.entries {
      assert !Mentioned(listing, c0);
      assert EntryOk(listing, NEW_ENTRY, c0);
      RecordOk(listing, NEW_ENTRY, p);
    } else {
      RecordOk(listing, mm.entries[c0], p);
    }
    forall c ensures c in next.entries <==> Mentioned(listing + [p], c) { OneMore(listing, p, "", c); }
    forall c | c in next.entries ensures EntryOk(listing + [p], next.entries[c], c) {
      if c != c0 {
        assert EntryOk(listing, mm.entries[c], c);
        OneMore(listing, p, "", c);
        forall app ensures Makes(listing + [p], app, c) <==> Makes(listing, app, c) { OneMore(listing, p, app, c); }
        forall app ensures Takes(listing + [p], app, c) <==> Takes(listing, app, c) { OneMore(listing, p, app, c); }
        forall app | app in mm.entries[c].producers
          ensures FirstMade(listing + [p], app, c, mm.entries[c].interfaces[app])
        {
          FirstMadeStays(listing, p, app, c, mm.entries[c].interfaces[app]);
        }
      }
    }
  }

  lemma {:induction false} MessageMapOk(listing: seq<(string, Msg)>)
    ensures MapOk(listing, MessageMap(listing))
  {
    if listing != [] {
      var n := |listing| - 1;
      MessageMapOk(listing[..n]);
      AddMsgOk(listing[..n], MessageMap(listing[..n]), listing[n]);
      assert listing == listing[..n] + [listing[n]];
    }
  }

  // ---- Routing ------------------------------------------------------------------------------

  function Within(xs: seq<string>, ys: seq<string>, keep: bool): seq<string> {
    if xs == [] then []
    else
      var x := xs[|xs| - 1];
      Within(xs[..|xs| - 1], ys, keep) + (if (x in ys) == keep then [x] else [])
  }

  lemma {:induction false} WithinIs(xs: seq<string>, ys: seq<string>, keep: bool, x: string)
    ensures x in Within(xs, ys, keep) <==> x in xs && (x in ys) == keep
  {
    if xs != [] {
      WithinIs(xs[..|xs| - 1], ys, keep, x);
      assert xs == xs[..|xs| - 1] + [xs[|xs| - 1]];
    }
  }

  /** Apps that both produce and consume the message, and the pure endpoints. */
  function Transit(e: Entry): seq<string> { Within(e.producers, e.consumers, true) }

  function PureProducers(e: Entry): seq<string> { Within(e.producers, e.consumers, false) }

  function PureConsumers(e: Entry): seq<string> { Within(e.consumers, e.producers, false) }

  function Pairs(xs: seq<string>, ys: seq<string>): seq<Key> {
    if xs == [] then []
    else
      var x := xs[|xs| - 1];
      Pairs(xs[..|xs| - 1], ys) + seq(|ys|, j requires 0 <= j < |ys| => (x, ys[j]))
  }

  lemma {:induction false} PairsIs(xs: seq<string>, ys: seq<string>, k: Key)
    ensures k in Pairs(xs, ys) <==> k.0 in xs && k.1 in ys
  {
    if xs != [] {
      var init, x := xs[..|xs| - 1], xs[|xs| - 1];
      PairsIs(init, ys, k);
      assert xs == init + [x];
      var row := seq(|ys|, j requires 0 <= j < |ys| => (x, ys[j]));
      if k.0 == x && k.1 in ys {
        var j :| 0 <= j < |ys| && ys[j] == k.1;
        assert row[j] == k;
      }
    }
  }

  /** The connections one message contributes: through its brokers if it has any, else direct. */
  function Routes(e: Entry): seq<Key> {
    if Transit(e) != [] then Pairs(PureProducers(e), Transit(e)) + Pairs(Transit(e), PureConsumers(e))
    else Pairs(PureProducers(e), PureConsumers(e))
  }

  /** Application `a` sends message `c` to `b`: one of them a broker for it, or no broker exists. */
  ghost predicate Routed(listing: seq<(string, Msg)>, c: string, a: string, b: string) {
    && Makes(listing, a, c) && Takes(listing, b, c)
    && if Takes(listing, a, c) then !Makes(listing, b, c)
       else Makes(listing, b, c) || forall x :: !(Makes(listing, x, c) && Takes(listing, x, c))
  }

  lemma RoutesAreRouted(listing: seq<(string, Msg)>, e: Entry, c: string, k: Key)
    requires EntryOk(listing, e, c)
    ensures k in Routes(e) <==> Routed(listing, c, k.0, k.1)
  {
    forall x: string
      ensures x in Transit(e) <==> Makes(listing, x, c) && Takes(listing, x, c)
      ensures x in PureProducers(e) <==> Makes(listing, x, c) && !Takes(listing, x, c)
      ensures x in PureConsumers(e) <==> Takes(listing, x, c) && !Makes(listing, x, c)
    {
      WithinIs(e.producers, e.consumers, true, x);
      WithinIs(e.producers, e.consumers, false, x);
      WithinIs(e.consumers, e.producers, false, x);
    }
    PairsIs(PureProducers(e), Transit(e), k);
    PairsIs(Transit(e), PureConsumers(e), k);
    PairsIs(PureProducers(e), PureConsumers(e), k);
    FirstIsIn(Transit(e));
  }

  lemma FirstIsIn(s: seq<string>)
    ensures s == [] || s[0] in s
  {
  }

  /** `addOrMerge`. */
  function AddOrMerge(em: EdgeMap, k: Key, c: string, iface: Msg, confident: bool): EdgeMap {
    if k in em.edges then
      var e := em.edges[k];
      var e1 := if c in e.msgTypes then e
                else e.(msgTypes := e.msgTypes + [c], interfaces := e.interfaces + [iface]);
      em.(edges := em.edges[k := e1.(confident := e1.confident || confident)])
    else EdgeMap(em.edges[k := Edge([c], [iface], iface.transport, confident)], em.order + [k])
  }

  function AddRoutes(em: EdgeMap, ks: seq<Key>, c: string, e: Entry): EdgeMap
    requires forall k :: k in ks ==> k.0 in e.interfaces
    decreases |ks|, 0
  {
    if ks == [] then em else AddLastRoute(em, ks, c, e)
  }

  function AddLastRoute(em: EdgeMap, ks: seq<Key>, c: string, e: Entry): EdgeMap
    requires ks != [] && forall k :: k in ks ==> k.0 in e.interfaces
    decreases |ks| - 1, 1
  {
    var k := ks[|ks| - 1];
    AddOrMerge(AddRoutes(em, ks[..|ks| - 1], c, e), k, c, e.interfaces[k.0], e.confident)
  }

  lemma RoutesDocumented(e: Entry, c: string)
    requires Documented(e, c)
    ensures forall k :: k in Routes(e) ==> k.0 in e.interfaces && k.0 != k.1
  {
    forall k | k in Routes(e) ensures k.0 in e.interfaces && k.0 != k.1 {
      PairsIs(PureProducers(e), Transit(e), k);
      PairsIs(Transit(e), PureConsumers(e), k);
      PairsIs(PureProducers(e), PureConsumers(e), k);
      WithinIs(e.producers, e.consumers, true, k.0);
      WithinIs(e.producers, e.consumers, true, k.1);
      WithinIs(e.producers, e.consumers, false, k.0);
      WithinIs(e.consumers, e.producers, false, k.1);
    }
  }

  /** The shape every edge map built here has. */
  ghost predicate Shaped(em: EdgeMap) {
    && Ordered(em) && NoSelfLoops(em.edges) && AllMatched(em.edges)
    && forall k :: k in em.edges ==> em.edges[k].msgTypes != []
  }

  lemma AddOrMergeShaped(em: EdgeMap, k: Key, c: string, iface: Msg, confident: bool)
    requires Shaped(em) && k.0 != k.1 && iface.constant == c
    ensures Shaped(AddOrMerge(em, k, c, iface, confident))
    ensures var next := AddOrMerge(em, k, c, iface, confident);
            forall j, m :: Has(next.edges, j, m) <==> Has(em.edges, j, m) || (j == k && m == c)
  {
    if k in em.edges { assert Matched(em.edges[k]); }
  }

  lemma {:induction false} AddRoutesShaped(em: EdgeMap, ks: seq<Key>, c: string, e: Entry)
    requires Shaped(em) && Documented(e, c) && forall k :: k in ks ==> k.0 in e.interfaces && k.0 != k.1
    ensures Shaped(AddRoutes(em, ks, c, e))
    ensures forall j, m :: Has(AddRoutes(em, ks, c, e).edges, j, m) <==> Has(em.edges, j, m) || (j in ks && m == c)
  {
    if ks != [] {
      var init, k := ks[..|ks| - 1], ks[|ks| - 1];
      assert ks == init + [k];
      AddRoutesShaped(em, init, c, e);
      AddOrMergeShaped(AddRoutes(em, init, c, e), k, c, e.interfaces[k.0], e.confident);
    }
  }

  ghost predicate AllDocumented(mm: MsgMap) {
    (forall c :: c in mm.order ==> c in mm.entries) && forall c :: c in mm.entries ==> Documented(mm.entries[c], c)
  }

  /** The edges after the first `n` messages. */
  ghost function EdgesUpTo(mm: MsgMap, n: nat): EdgeMap
    requires n <= |mm.order| && AllDocumented(mm)
    decreases n, 0
  {
    if n == 0 then NO_EDGES else EdgesPast(mm, n - 1)
  }

  /** The edges after message `n`. */
  ghost function EdgesPast(mm: MsgMap, n: nat): EdgeMap
    requires n < |mm.order| && AllDocumented(mm)
    decreases n, 1
  {
    var c := mm.order[n];
    RoutesDocumented(mm.entries[c], c);
    AddRoutes(EdgesUpTo(mm, n), Routes(mm.entries[c]), c, mm.entries[c])
  }

  /** The edges hold message `m` between two nodes exactly if `m` is among the first `n` and routed there. */
  ghost predicate HoldsRoute(mm: MsgMap, n: nat, em: EdgeMap, k: Key, m: string)
    requires n <= |mm.order| && AllDocumented(mm)
  {
    Has(em.edges, k, m) <==> m in mm.order[..n] && k in Routes(mm.entries[m])
  }

  lemma {:induction false} EdgesShaped(mm: MsgMap, n: nat)
    requires n <= |mm.order| && AllDocumented(mm)
    ensures Shaped(EdgesUpTo(mm, n))
  {
    if n > 0 {
      var c := mm.order[n - 1];
      EdgesShaped(mm, n - 1);
      RoutesDocumented(mm.entries[c], c);
      AddRoutesShaped(EdgesUpTo(mm, n - 1), Routes(mm.entries[c]), c, mm.entries[c]);
      assert EdgesUpTo(mm, n) == EdgesPast(mm, n - 1);
    }
  }

  lemma {:induction false} EdgesHold(mm: MsgMap, n: nat, k: Key, m: string)
    requires n <= |mm.order| && AllDocumented(mm)
    ensures HoldsRoute(mm, n, EdgesUpTo(mm, n), k, m)
  {
    if n > 0 {
      var c := mm.order[n - 1];
      EdgesHold(mm, n - 1, k, m);
      EdgesShaped(mm, n - 1);
      RoutesDocumented(mm.entries[c], c);
      AddRoutesShaped(EdgesUpTo(mm, n - 1), Routes(mm.entries[c]), c, mm.entries[c]);
      assert EdgesUpTo(mm, n) == EdgesPast(mm, n - 1);
      assert mm.order[..n] == mm.order[..n - 1] + [c];
    }
  }

  lemma {:induction false} AddRoutesConfident(em: EdgeMap, ks: seq<Key>, c: string, e: Entry, k: Key)
    requires forall x :: x in ks ==> x.0 in e.interfaces
    ensures Confident(AddRoutes(em, ks, c, e).edges, k) <==> Confident(em.edges, k) || (k in ks && e.confident)
  {
    if ks != [] {
      var init := ks[..|ks| - 1];
      assert ks == init + [ks[|ks| - 1]];
      AddRoutesConfident(em, init, c, e, k);
    }
  }

  /** The edge leads with its transport, and its interfaces are the first its source makes of their messages. */
  ghost predicate Sourced(listing: seq<(string, Msg)>, em: EdgeMap, k: Key) {
    k in em.edges ==>
      Led(em.edges[k]) && forall f :: f in em.edges[k].interfaces ==> FirstMade(listing, k.0, f.constant, f)
  }

  lemma AddOrMergeSourced(listing: seq<(string, Msg)>, em: EdgeMap, k: Key, c: string, f: Msg, sure: bool, j: Key)
    requires Sourced(listing, em, j) && f.constant == c && FirstMade(listing, k.0, c, f)
    ensures Sourced(listing, AddOrMerge(em, k, c, f, sure), j)
  {
  }

  lemma {:induction false} AddRoutesSourced(listing: seq<(string, Msg)>, em: EdgeMap, ks: seq<Key>, c: string,
                                            e: Entry, j: Key)
    requires Sourced(listing, em, j) && EntryOk(listing, e, c)
    requires forall k :: k in ks ==> k.0 in e.producers && k.0 in e.interfaces
    ensures Sourced(listing, AddRoutes(em, ks, c, e), j)
  {
    if ks != [] {
      var init, k := ks[..|ks| - 1], ks[|ks| - 1];
      assert ks == init + [k];
      AddRoutesSourced(listing, em, init, c, e, j);
      assert k in ks && e.interfaces[k.0].constant == c;
      AddOrMergeSourced(listing, AddRoutes(em, init, c, e), k, c, e.interfaces[k.0], e.confident, j);
    }
  }

  /** Every connection starts at an application that makes the message. */
  lemma RoutesStart(e: Entry, k: Key)
    requires k in Routes(e)
    ensures k.0 in e.producers
  {
    PairsIs(PureProducers(e), Transit(e), k);
    PairsIs(Transit(e), PureConsumers(e), k);
    PairsIs(PureProducers(e), PureConsumers(e), k);
    WithinIs(e.producers, e.consumers, true, k.0);
    WithinIs(e.producers, e.consumers, false, k.0);
  }

  lemma {:induction false} EdgesSourced(listing: seq<(string, Msg)>, mm: MsgMap, n: nat, k: Key)
    requires n <= |mm.order| && MapOk(listing, mm) && AllDocumented(mm)
    ensures Sourced(listing, EdgesUpTo(mm, n), k)
  {
    if n > 0 {
      var c := mm.order[n - 1];
      EdgesSourced(listing, mm, n - 1, k);
      RoutesDocumented(mm.entries[c], c);
      forall j | j in Routes(mm.entries[c]) ensures j.0 in mm.entries[c].producers { RoutesStart(mm.entries[c], j); }
      AddRoutesSourced(listing, EdgesUpTo(mm, n - 1), Routes(mm.entries[c]), c, mm.entries[c], k);
      assert EdgesUpTo(mm, n) == EdgesPast(mm, n - 1);
    }
  }

  ghost predicate VouchedRoute(mm: MsgMap, n: nat, k: Key)
    requires n <= |mm.order| && AllDocumented(mm)
  {
    exists i :: 0 <= i < n && VouchesAt(mm, i, k)
  }

  predicate VouchesAt(mm: MsgMap, i: nat, k: Key)
    requires i < |mm.order| && mm.order[i] in mm.entries
  {
    k in Routes(mm.entries[mm.order[i]]) && mm.entries[mm.order[i]].confident
  }

  lemma VouchedNext(mm: MsgMap, n: nat, k: Key)
    requires n < |mm.order| && AllDocumented(mm)
    ensures VouchedRoute(mm, n + 1, k) <==> VouchedRoute(mm, n, k) || VouchesAt(mm, n, k)
  {
  }

  lemma ConfidentNext(mm: MsgMap, n: nat, k: Key)
    requires n < |mm.order| && AllDocumented(mm)
    ensures Confident(EdgesUpTo(mm, n + 1).edges, k) <==> Confident(EdgesUpTo(mm, n).edges, k) || VouchesAt(mm, n, k)
  {
    var c := mm.order[n];
    RoutesDocumented(mm.entries[c], c);
    AddRoutesConfident(EdgesUpTo(mm, n), Routes(mm.entries[c]), c, mm.entries[c], k);
    assert EdgesUpTo(mm, n + 1) == EdgesPast(mm, n);
  }

  ghost predicate ConfidentIff(mm: MsgMap, n: nat, k: Key)
    requires n <= |mm.order| && AllDocumented(mm)
  {
    Confident(EdgesUpTo(mm, n).edges, k) <==> VouchedRoute(mm, n, k)
  }

  lemma NoneConfident(mm: MsgMap, k: Key)
    requires AllDocumented(mm)
    ensures ConfidentIff(mm, 0, k)
  {
    assert EdgesUpTo(mm, 0) == NO_EDGES;
  }

  lemma ConfidentIffNext(mm: MsgMap, n: nat, k: Key)
    requires n < |mm.order| && AllDocumented(mm) && ConfidentIff(mm, n, k)
    ensures ConfidentIff(mm, n + 1, k)
  {
    ConfidentNext(mm, n, k);
    VouchedNext(mm, n, k);
  }

  lemma EdgesConfident(mm: MsgMap, k: Key)
    requires AllDocumented(mm)
    ensures ConfidentIff(mm, |mm.order|, k)
  {
    var holds := (n: nat) => n <= |mm.order| && ConfidentIff(mm, n, k);
    NoneConfident(mm, k);
    forall n: nat | n < |mm.order| && holds(n) ensures holds(n + 1) { ConfidentIffNext(mm, n, k); }
    Climb(holds, |mm.order|);
  }

  // ---- The whole graph ----------------------------------------------------------------------

  method BuildMessageMap(groups: seq<Group>) returns (mm: MsgMap)
    ensures mm == MessageMap(Listing(groups))
  {
    mm := MsgMap(map[], []);
    for i := 0 to |groups|
      invariant mm == MessageMap(Listing(groups[..i]))
    {
      assert groups[..i + 1][..i] == groups[..i];
      mm := AddGroup(mm, groups[i], Listing(groups[..i]));
    }
    assert groups[..|groups|] == groups;
  }

  /** One application's interfaces, one after another. */
  method AddGroup(before: MsgMap, g: Group, ghost so: seq<(string, Msg)>) returns (mm: MsgMap)
    requires before == MessageMap(so)
    ensures mm == MessageMap(so + Own(g))
  {
    mm := before;
    ghost var own := Own(g);
    assert so + own[..0] == so;
    for j := 0 to |g.interfaces|
      invariant mm == MessageMap(so + own[..j])
    {
      assert (so + own[..j + 1])[..|so| + j] == so + own[..j];
      mm := AddMsg(mm, g.id, g.interfaces[j]);
    }
    assert own[..|g.interfaces|] == own;
  }

  /** The connections of message `n`, one after another. */
  method RouteMessage(mm: MsgMap, n: nat, em: EdgeMap) returns (next: EdgeMap)
    requires n < |mm.order| && AllDocumented(mm) && em == EdgesUpTo(mm, n)
    ensures next == EdgesPast(mm, n)
  {
    next := em;
    var c := mm.order[n];
    var e := mm.entries[c];
    RoutesDocumented(e, c);
    var routes := Routes(e);
    for j := 0 to |routes|
      invariant next == AddRoutes(em, routes[..j], c, e)
    {
      AddRoutesNext(em, routes, j, c, e);
      next := AddOrMerge(next, routes[j], c, e.interfaces[routes[j].0], e.confident);
    }
    assert routes[..|routes|] == routes;
  }

  lemma {:induction false} AddRoutesNext(em: EdgeMap, ks: seq<Key>, j: nat, c: string, e: Entry)
    requires j < |ks| && forall k :: k in ks ==> k.0 in e.interfaces
    ensures ks[j].0 in e.interfaces
    ensures AddRoutes(em, ks[..j + 1], c, e)
         == AddOrMerge(AddRoutes(em, ks[..j], c, e), ks[j], c, e.interfaces[ks[j].0], e.confident)
  {
    assert ks[j] in ks && ks[..j + 1][..j] == ks[..j];
    assert AddRoutes(em, ks[..j + 1], c, e) == AddLastRoute(em, ks[..j + 1], c, e);
  }

  method BuildEdges(mm: MsgMap) returns (em: EdgeMap)
    requires AllDocumented(mm)
    ensures em == EdgesUpTo(mm, |mm.order|)
  {
    em := NO_EDGES;
    for i := 0 to |mm.order|
      invariant em == EdgesUpTo(mm, i)
    {
      em := RouteMessage(mm, i, em);
    }
  }

  method BuildAppGraph(groups: seq<Group>) returns (edges: map<Key, Edge>, dropped: set<Key>)
    ensures GraphOf(Listing(groups), edges)
    ensures forall k :: k in edges ==> WasPair(Listing(groups), dropped, k)
  {
    var mm := BuildMessageMap(groups);
    MessageMapOk(Listing(groups));
    var em := BuildEdges(mm);
    CollapsedIsGraph(Listing(groups), mm, em);
    edges, dropped := CollapseReciprocal(em);
  }

  /** The reverse of a surviving edge was folded into it exactly if some message is routed that way. */
  ghost predicate WasPair(listing: seq<(string, Msg)>, dropped: set<Key>, k: Key) {
    Reverse(k) in dropped <==> exists c :: Routed(listing, c, k.1, k.0)
  }

  /** What the finished graph says about one pair of applications, in one orientation. */
  ghost predicate GraphAt(listing: seq<(string, Msg)>, edges: map<Key, Edge>, k: Key) {
    && (k in edges ==> k.0 != k.1 && Reverse(k) !in edges && Matched(edges[k]))
    && (k in edges ==> exists c :: Routed(listing, c, k.0, k.1))
    && (k in edges || Reverse(k) in edges <==> exists c :: Between(listing, c, k))
    && (k in edges ==> forall c :: c in edges[k].msgTypes <==> Between(listing, c, k))
    && (k in edges ==> FromSenders(listing, edges[k], k))
    && (k in edges ==> (edges[k].confident <==> exists c :: Between(listing, c, k) && Vouched(listing, c)))
  }

  /** The edge's transport is its first interface's, and each interface is the sender's first of that message. */
  ghost predicate FromSenders(listing: seq<(string, Msg)>, e: Edge, k: Key) {
    Led(e) && forall f :: f in e.interfaces ==> FirstMade(listing, Sender(listing, f.constant, k), f.constant, f)
  }

  /** Which of the two applications sends the other message `c`, where one does. */
  ghost function Sender(listing: seq<(string, Msg)>, c: string, k: Key): string {
    if Routed(listing, c, k.0, k.1) then k.0 else k.1
  }

  /**
   * No application is joined to itself; two applications are joined exactly if some message is routed
   * between them, by one edge only, which starts at an application that sends one; that edge carries
   * exactly the messages routed either way, each once, each with the sender's first interface of it;
   * its transport is that of its first interface; and it is confident exactly if some application
   * vouches for the direction of one of them.
   */
  ghost predicate GraphOf(listing: seq<(string, Msg)>, edges: map<Key, Edge>) {
    forall k :: GraphAt(listing, edges, k)
  }

  /** Message `c` is routed between the two applications, one way or the other. */
  ghost predicate Between(listing: seq<(string, Msg)>, c: string, k: Key) {
    Routed(listing, c, k.0, k.1) || Routed(listing, c, k.1, k.0)
  }

  lemma {:induction false} HasIsRouted(listing: seq<(string, Msg)>, mm: MsgMap, em: EdgeMap, k: Key, c: string)
    requires MapOk(listing, mm) && AllDocumented(mm) && em == EdgesUpTo(mm, |mm.order|)
    ensures Has(em.edges, k, c) <==> Routed(listing, c, k.0, k.1)
  {
    EdgesHold(mm, |mm.order|, k, c);
    assert mm.order[..|mm.order|] == mm.order;
    if c in mm.entries {
      RoutesAreRouted(listing, mm.entries[c], c, k);
    } else {
      assert !Mentioned(listing, c);
    }
  }

  lemma {:induction false} ConfidentIsVouched(listing: seq<(string, Msg)>, mm: MsgMap, em: EdgeMap, k: Key)
    requires MapOk(listing, mm) && AllDocumented(mm) && em == EdgesUpTo(mm, |mm.order|)
    ensures Confident(em.edges, k) <==> exists c :: Routed(listing, c, k.0, k.1) && Vouched(listing, c)
  {
    EdgesConfident(mm, k);
    forall i | 0 <= i < |mm.order|
      ensures VouchesAt(mm, i, k) <==> Routed(listing, mm.order[i], k.0, k.1) && Vouched(listing, mm.order[i])
    {
      RoutesAreRouted(listing, mm.entries[mm.order[i]], mm.order[i], k);
    }
    if c :| Routed(listing, c, k.0, k.1) && Vouched(listing, c) {
      assert Mentioned(listing, c) && c in mm.entries && c in mm.order;
      var i :| 0 <= i < |mm.order| && mm.order[i] == c;
      assert VouchesAt(mm, i, k);
    }
  }

  lemma {:induction false} AllEdgesSourced(listing: seq<(string, Msg)>, mm: MsgMap)
    requires MapOk(listing, mm) && AllDocumented(mm)
    ensures forall k :: Sourced(listing, EdgesUpTo(mm, |mm.order|), k)
  {
    forall k ensures Sourced(listing, EdgesUpTo(mm, |mm.order|), k) { EdgesSourced(listing, mm, |mm.order|, k); }
  }

  lemma InterfaceHeld(e: Edge, f: Msg)
    requires Matched(e) && f in e.interfaces
    ensures f.constant in e.msgTypes
  {
    var i :| 0 <= i < |e.interfaces| && e.interfaces[i] == f;
    assert e.msgTypes[i] == f.constant;
  }

  lemma {:induction false} CollapsedInterfaces(listing: seq<(string, Msg)>, mm: MsgMap, em: EdgeMap, k: Key)
    requires MapOk(listing, mm) && AllDocumented(mm) && em == EdgesUpTo(mm, |mm.order|) && Shaped(em) && k in em.edges
    ensures FromSenders(listing, CollapseUpTo(em, |em.order|).edges[k], k)
  {
    var c, r := CollapseUpTo(em, |em.order|), Reverse(k);
    AllEdgesSourced(listing, mm);
    forall j | j in em.edges ensures Led(em.edges[j]) { assert Sourced(listing, em, j); }
    InterfacesKept(em, |em.order|, k);
    assert InterfacesOk(em, c, k) && Sourced(listing, em, k) && Sourced(listing, em, r);
    forall f | f in c.edges[k].interfaces ensures FirstMade(listing, Sender(listing, f.constant, k), f.constant, f) {
      HasIsRouted(listing, mm, em, k, f.constant);
      if f in em.edges[k].interfaces { InterfaceHeld(em.edges[k], f); }
    }
  }

  lemma {:induction false} CollapsedAt(listing: seq<(string, Msg)>, mm: MsgMap, em: EdgeMap, k: Key)
    requires MapOk(listing, mm) && AllDocumented(mm) && em == EdgesUpTo(mm, |mm.order|)
    ensures forall j :: j in em.order ==> j in em.edges
    ensures GraphAt(listing, Collapsed(em), k)
    ensures k in Collapsed(em) ==> WasPair(listing, CollapseUpTo(em, |em.order|).dropped, k)
  {
    var r := Reverse(k);
    EdgesShaped(mm, |mm.order|);
    CollapseKeepsUnion(em, k);
    forall c ensures Has(em.edges, k, c) || Has(em.edges, r, c) <==> Between(listing, c, k) {
      HasIsRouted(listing, mm, em, k, c);
      HasIsRouted(listing, mm, em, r, c);
    }
    if k in em.edges {
      assert Has(em.edges, k, em.edges[k].msgTypes[0]);
      HasIsRouted(listing, mm, em, k, em.edges[k].msgTypes[0]);
      CollapsedInterfaces(listing, mm, em, k);
    }
    if r in em.edges { assert Has(em.edges, r, em.edges[r].msgTypes[0]); }
    ConfidentIsVouched(listing, mm, em, k);
    ConfidentIsVouched(listing, mm, em, r);
    if c :| Between(listing, c, k) { assert Has(em.edges, k, c) || Has(em.edges, r, c); }
    if c :| Routed(listing, c, k.1, k.0) { HasIsRouted(listing, mm, em, r, c); }
    if r in em.edges { HasIsRouted(listing, mm, em, r, em.edges[r].msgTypes[0]); }
  }

  lemma {:induction false} CollapsedIsGraph(listing: seq<(string, Msg)>, mm: MsgMap, em: EdgeMap)
    requires MapOk(listing, mm) && AllDocumented(mm) && em == EdgesUpTo(mm, |mm.order|)
    ensures forall j :: j in em.order ==> j in em.edges
    ensures GraphOf(listing, Collapsed(em))
    ensures forall k :: k in Collapsed(em) ==> WasPair(listing, CollapseUpTo(em, |em.order|).dropped, k)
  {
    CollapsedAt(listing, mm, em, ("", ""));
    forall k
      ensures GraphAt(listing, Collapsed(em), k)
      ensures k in Collapsed(em) ==> WasPair(listing, CollapseUpTo(em, |em.order|).dropped, k)
    {
      CollapsedAt(listing, mm, em, k);
    }
  }

  /** An edge is drawn both ways exactly if it is confident and some message is routed against it. */
  lemma DrawnBothWays(listing: seq<(string, Msg)>, edges: map<Key, Edge>, dropped: set<Key>, k: Key)
    requires GraphOf(listing, edges) && k in edges && WasPair(listing, dropped, k)
    ensures DirectionOf(edges[k], Reverse(k) in dropped).Bidirectional?
      <==> (exists c :: Routed(listing, c, k.1, k.0)) && exists c :: Between(listing, c, k) && Vouched(listing, c)
    ensures DirectionOf(edges[k], Reverse(k) in dropped).Uncertain?
      <==> forall c :: Between(listing, c, k) ==> !Vouched(listing, c)
  {
    assert GraphAt(listing, edges, k);
  }

  ghost predicate Lists(listing: seq<(string, Msg)>, app: string, c: string, r: FileRole) {
    exists p :: p in listing && p.0 == app && p.1.constant == c && HasFile(p.1, r)
  }

  /** An application is a broker exactly if a file of it does both, or one produces and one consumes. */
  lemma BrokerExactly(listing: seq<(string, Msg)>, app: string, c: string)
    ensures Makes(listing, app, c) && Takes(listing, app, c)
      <==> Lists(listing, app, c, Both) || (Lists(listing, app, c, Producer) && Lists(listing, app, c, Consumer))
  {
    if Makes(listing, app, c) && !Lists(listing, app, c, Both) {
      assert Lists(listing, app, c, Producer);
    }
  }

  /**
   * A message with a broker is on no edge between a pure producer and a pure consumer of it, whichever
   * of the two the surviving edge leaves from.
   */
  lemma BrokerStandsBetween(listing: seq<(string, Msg)>, edges: map<Key, Edge>, c: string, broker: string, k: Key)
    requires GraphOf(listing, edges) && k in edges
    requires Makes(listing, broker, c) && Takes(listing, broker, c)
    requires || (!Takes(listing, k.0, c) && !Makes(listing, k.1, c))
             || (!Takes(listing, k.1, c) && !Makes(listing, k.0, c))
    ensures c !in edges[k].msgTypes
  {
    assert GraphAt(listing, edges, k);
    assert c in edges[k].msgTypes <==> Between(listing, c, k);
  }
}
