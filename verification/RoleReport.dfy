/** The role report: classification of every struct, in an order that is a function of the program. */
module RoleReport {
  import opened Alignment
  import opened Reachability
  import opened RoleGraph
  import opened TypeDictionary
  import opened Sorting

  datatype Role = WireRootNested | WireRoot | Envelope | RootCandidate | SharedBlock | BlockRole | Orphan

  function Rank(r: Role): nat {
    match r
    case WireRootNested => 0
    case WireRoot => 1
    case Envelope => 2
    case RootCandidate => 3
    case SharedBlock => 4
    case BlockRole => 5
    case Orphan => 6
  }

  /** A message interface: the struct it resolved to, if it did, and its constant. */
  datatype Message = Message(struct: Option<string>, constant: string)

  /** A payload resolution: whether its confidence is high or medium, its struct name and its constant. */
  datatype Payload = Payload(confident: bool, struct: Option<string>, constant: Option<string>)

  datatype Input = Input(dict: TypeDict, messages: seq<Message>, payloads: seq<Payload>, referenced: set<string>)

  datatype RoleInfo = RoleInfo(
    name: string, role: Role, inDegree: nat, containedBy: seq<Edge>, contains: seq<string>, depth: nat,
    fieldCount: nat, boundConstants: seq<string>, pointerFields: seq<string>, variableArrayFields: seq<string>)

  /** Code-unit order for `sort()` and the locale's order for `localeCompare`. */
  datatype Orders = Orders(code: (string, string) -> bool, locale: (string, string) -> bool)

  ghost predicate GoodOrders(o: Orders) { TotalOrder(o.code) && TotalOrder(o.locale) }

  // ---- Binding evidence -----------------------------------------------------------------

  function MessageBinding(m: Message, name: string): Option<string> {
    if m.struct == Some(name) && m.constant != "" then Some(m.constant) else None
  }

  function PayloadBinding(p: Payload, name: string): Option<string> {
    if !p.confident || p.struct != Some(name) || name == "" then None
    else
      var constant := if p.constant.Some? then p.constant.value else "(payload)";
      if constant == "" then None else Some(constant)
  }

  function AddIf(s: seq<string>, x: Option<string>): seq<string> { if x.Some? then Add(s, x.value) else s }

  function FromMessages(ms: seq<Message>, name: string): seq<string> {
    if ms == [] then [] else AddIf(FromMessages(ms[..|ms| - 1], name), MessageBinding(ms[|ms| - 1], name))
  }

  function Bound(ms: seq<Message>, ps: seq<Payload>, name: string): seq<string> {
    if ps == [] then FromMessages(ms, name)
    else AddIf(Bound(ms, ps[..|ps| - 1], name), PayloadBinding(ps[|ps| - 1], name))
  }

  // ---- Classification -------------------------------------------------------------------

  function FirstCount(edges: seq<Edge>): nat {
    if edges == [] then 0
    else FirstCount(edges[..|edges| - 1]) + (if edges[|edges| - 1].isFirst then 1 else 0)
  }

  /** Three parents at least, and four in five of them put it first. */
  predicate IsEnvelope(inDegree: nat, first: nat) { inDegree >= 3 && 5 * first >= 4 * inDegree }

  function RoleOf(inDegree: nat, first: nat, bound: bool, referenced: bool): Role {
    if IsEnvelope(inDegree, first) then Envelope
    else if bound then (if inDegree > 0 then WireRootNested else WireRoot)
    else if inDegree >= 2 then SharedBlock
    else if inDegree == 1 then BlockRole
    else if referenced then RootCandidate
    else Orphan
  }

  function PointerFields(ms: seq<Field>): seq<string> {
    if ms == [] then []
    else PointerFields(ms[..|ms| - 1]) + (if ms[|ms| - 1].parsed.isPointer then [ms[|ms| - 1].name] else [])
  }

  function VariableFields(ms: seq<Field>): seq<string> {
    if ms == [] then []
    else VariableFields(ms[..|ms| - 1]) + (if ms[|ms| - 1].parsed.arr.Unsized? then [ms[|ms| - 1].name] else [])
  }

  function Flagged(ms: seq<Field>, pointers: bool): seq<string> {
    if pointers then PointerFields(ms) else VariableFields(ms)
  }

  /** The list kept under one struct name: the flagged members of every struct of that name. */
  function FlaggedIn(structs: seq<Struct>, name: string, pointers: bool): seq<string> {
    if structs == [] then []
    else
      var last := structs[|structs| - 1];
      FlaggedIn(structs[..|structs| - 1], name, pointers) + (if last.name == name then Flagged(last.fields, pointers) else [])
  }

  lemma {:induction false} NoneFlagged(structs: seq<Struct>, name: string, pointers: bool)
    requires forall i :: 0 <= i < |structs| ==> structs[i].name != name
    ensures FlaggedIn(structs, name, pointers) == []
  {
    if structs != [] { NoneFlagged(structs[..|structs| - 1], name, pointers); }
  }

  /** With unique names the list is the struct's own. */
  lemma {:induction false} FlaggedUnique(structs: seq<Struct>, s: Struct, pointers: bool)
    requires UniqueNames(structs) && s in structs
    ensures FlaggedIn(structs, s.name, pointers) == Flagged(s.fields, pointers)
  {
    var n := |structs| - 1;
    assert structs == structs[..n] + [structs[n]];
    if structs[n] == s {
      NoneFlagged(structs[..n], s.name, pointers);
    } else {
      FlaggedUnique(structs[..n], s, pointers);
      var i :| 0 <= i < n && structs[i] == s;
    }
  }

  function EdgeLess(o: Orders): (Edge, Edge) -> bool { (a: Edge, b: Edge) => o.locale(a.parent, b.parent) }

  function RoleLess(o: Orders): (RoleInfo, RoleInfo) -> bool {
    (a: RoleInfo, b: RoleInfo) =>
      || Rank(a.role) < Rank(b.role)
      || (Rank(a.role) == Rank(b.role) && (b.depth < a.depth || (a.depth == b.depth && o.locale(a.name, b.name))))
  }

  ghost function GraphOf(d: TypeDict): Graph {
    map x | x in FirstNames(d.structs, |d.structs|) :: ContainsAt(d, |d.structs|, x)
  }

  ghost function InfoOf(o: Orders, input: Input, s: Struct): RoleInfo {
    var structs := input.dict.structs;
    Describe(o, s, s.name in input.referenced, EdgesInto(input.dict, |structs|, s.name),
             ContainsAt(input.dict, |structs|, s.name), DepthOf(GraphOf(input.dict), s.name, {}),
             Bound(input.messages, input.payloads, s.name),
             FlaggedIn(structs, s.name, true), FlaggedIn(structs, s.name, false))
  }

  /** The row of one struct, from what the maps hold for it. */
  function Describe(o: Orders, s: Struct, referenced: bool, edges: seq<Edge>, children: seq<string>, depth: nat,
                    constants: seq<string>, pointers: seq<string>, variable: seq<string>): RoleInfo
  {
    RoleInfo(s.name, RoleOf(|edges|, FirstCount(edges), constants != [], referenced), |edges|,
             SortBy(EdgeLess(o), edges), SortBy(o.code, children), depth, |s.fields|, SortBy(o.code, constants),
             pointers, variable)
  }

  ghost function InfosUpTo(o: Orders, input: Input, n: nat): (r: seq<RoleInfo>)
    requires n <= |input.dict.structs|
    ensures |r| == n
  {
    if n == 0 then [] else InfosUpTo(o, input, n - 1) + [InfoOf(o, input, input.dict.structs[n - 1])]
  }

  /** The `roles` of the report. */
  ghost function Report(o: Orders, input: Input): seq<RoleInfo> {
    SortBy(RoleLess(o), InfosUpTo(o, input, |input.dict.structs|))
  }

  function NamesWhere(roles: seq<RoleInfo>, envelopes: bool): seq<string> {
    if roles == [] then []
    else
      var r := roles[|roles| - 1];
      NamesWhere(roles[..|roles| - 1], envelopes)
        + (if (if envelopes then r.role.Envelope? else r.role.WireRoot? || r.role.WireRootNested?) then [r.name] else [])
  }

  // ---- The program ----------------------------------------------------------------------

  lemma {:induction false} GraphIs(d: TypeDict, contains: Graph)
    requires forall x :: x in contains <==> IsStruct(d.structs, x)
    requires forall x :: x in contains ==> contains[x] == ContainsAt(d, |d.structs|, x)
    ensures contains == GraphOf(d)
  {
    forall x ensures x in contains <==> x in GraphOf(d) {
      FirstNamesAre(d.structs, |d.structs|, x);
    }
  }

  method BoundConstants(ms: seq<Message>, ps: seq<Payload>, name: string) returns (r: seq<string>)
    ensures r == Bound(ms, ps, name)
  {
    r := [];
    for i := 0 to |ms|
      invariant r == FromMessages(ms[..i], name)
    {
      assert ms[..i + 1][..i] == ms[..i];
      var b := MessageBinding(ms[i], name);
      if b.Some? { r := Add(r, b.value); }
    }
    assert ms[..|ms|] == ms;
    for i := 0 to |ps|
      invariant r == Bound(ms, ps[..i], name)
    {
      assert ps[..i + 1][..i] == ps[..i];
      var b := PayloadBinding(ps[i], name);
      if b.Some? { r := Add(r, b.value); }
    }
    assert ps[..|ps|] == ps;
  }

  /** One of the two maps of flagged members: an empty list for every name, then struct by struct. */
  method FlaggedMap(structs: seq<Struct>, pointers: bool) returns (m: map<string, seq<string>>)
    ensures forall x :: x in m <==> IsStruct(structs, x)
    ensures forall x :: x in m ==> m[x] == FlaggedIn(structs, x, pointers)
  {
    m := map[];
    for i := 0 to |structs|
      invariant forall x :: x in m <==> IsStruct(structs[..i], x)
      invariant forall x :: x in m ==> m[x] == []
    {
      StructsGrow(structs, i);
      m := m[structs[i].name := []];
    }
    assert structs[..|structs|] == structs;
    for i := 0 to |structs|
      invariant forall x :: x in m <==> IsStruct(structs, x)
      invariant forall x :: x in m ==> m[x] == FlaggedIn(structs[..i], x, pointers)
    {
      assert structs[..i + 1][..i] == structs[..i];
      assert IsStruct(structs, structs[i].name);
      m := m[structs[i].name := m[structs[i].name] + Flagged(structs[i].fields, pointers)];
    }
  }

  /** The report, from the maps the containment loops fill. */
  method AnalyzeStructRoles(o: Orders, input: Input)
    returns (roles: seq<RoleInfo>, wireRoots: seq<string>, envelopes: seq<string>)
    ensures roles == Report(o, input)
    ensures wireRoots == NamesWhere(roles, false) && envelopes == NamesWhere(roles, true)
  {
    var d := input.dict;
    var contains, containedBy := BuildContainment(d);
    GraphIs(d, contains);
    var pointerFields := FlaggedMap(d.structs, true);
    var variableArrays := FlaggedMap(d.structs, false);
    roles := DescribeAll(o, input, contains, containedBy, pointerFields, variableArrays);
    roles := SortBy(RoleLess(o), roles);
    wireRoots, envelopes := NamesWhere(roles, false), NamesWhere(roles, true);
  }

  /** The classification loop over the filled maps. */
  method DescribeAll(o: Orders, input: Input, contains: Graph, containedBy: map<string, seq<Edge>>,
                     pointerFields: map<string, seq<string>>, variableArrays: map<string, seq<string>>)
    returns (roles: seq<RoleInfo>)
    requires contains == GraphOf(input.dict)
    requires forall x :: x in contains <==> IsStruct(input.dict.structs, x)
    requires forall x :: x in contains ==> contains[x] == ContainsAt(input.dict, |input.dict.structs|, x)
    requires forall c :: EdgesAt(containedBy, c) == EdgesInto(input.dict, |input.dict.structs|, c)
    requires forall x :: IsStruct(input.dict.structs, x) ==>
      && x in pointerFields && pointerFields[x] == FlaggedIn(input.dict.structs, x, true)
      && x in variableArrays && variableArrays[x] == FlaggedIn(input.dict.structs, x, false)
    ensures roles == InfosUpTo(o, input, |input.dict.structs|)
  {
    var d := input.dict;
    var depths := new DepthTable(contains);
    roles := [];
    for i := 0 to |d.structs|
      invariant depths.Valid()
      invariant roles == InfosUpTo(o, input, i)
    {
      var s := d.structs[i];
      assert IsStruct(d.structs, s.name);
      var edges := EdgesAt(containedBy, s.name);
      var constants := BoundConstants(input.messages, input.payloads, s.name);
      var depth := depths.Depth(s.name, {});
      roles := roles + [Describe(o, s, s.name in input.referenced, edges, contains[s.name], depth, constants,
                                 pointerFields[s.name], variableArrays[s.name])];
    }
  }

  // ---- The report does not depend on input order -----------------------------------------

  /** The same structs, messages, payloads and references, listed in any order. */
  ghost predicate SameInput(a: Input, b: Input) {
    && UniqueNames(a.dict.structs) && UniqueNames(b.dict.structs)
    && (forall s :: s in a.dict.structs <==> s in b.dict.structs)
    && a.dict.aliases == b.dict.aliases
    && (forall m :: m in a.messages <==> m in b.messages)
    && (forall p :: p in a.payloads <==> p in b.payloads)
    && a.referenced == b.referenced
  }

  lemma SameStructs(a: Input, b: Input, name: string)
    requires SameInput(a, b)
    ensures IsStruct(a.dict.structs, name) <==> IsStruct(b.dict.structs, name)
  {
    if IsStruct(a.dict.structs, name) {
      var k :| 0 <= k < |a.dict.structs| && a.dict.structs[k].name == name;
      assert a.dict.structs[k] in b.dict.structs;
    }
    if IsStruct(b.dict.structs, name) {
      var k :| 0 <= k < |b.dict.structs| && b.dict.structs[k].name == name;
      assert b.dict.structs[k] in a.dict.structs;
    }
  }

  lemma SameChild(a: Input, b: Input, owner: string, m: Field)
    requires SameInput(a, b)
    ensures ChildOf(a.dict, owner, m) == ChildOf(b.dict, owner, m)
  {
    SameStructs(a, b, Canonical(a.dict.aliases, m.token, 4));
  }

  lemma {:induction false} SameEdge(a: Input, b: Input, s: Struct, n: nat, c: string)
    requires SameInput(a, b) && n <= |s.fields|
    ensures EdgeUpTo(a.dict, s, n, c) == EdgeUpTo(b.dict, s, n, c)
  {
    if n > 0 {
      SameEdge(a, b, s, n - 1, c);
      SameChild(a, b, s.name, s.fields[n - 1]);
    }
  }

  lemma EmbedsTransfers(a: Input, b: Input, p: string, c: string)
    requires SameInput(a, b) && Embeds(a.dict, |a.dict.structs|, p, c)
    ensures Embeds(b.dict, |b.dict.structs|, p, c)
  {
    var i, j :| 0 <= i < |a.dict.structs| && 0 <= j < |a.dict.structs[i].fields|
             && a.dict.structs[i].name == p && ChildOf(a.dict, p, a.dict.structs[i].fields[j]) == Some(c);
    var s := a.dict.structs[i];
    assert s in b.dict.structs;
    var k :| 0 <= k < |b.dict.structs| && b.dict.structs[k] == s;
    SameChild(a, b, p, s.fields[j]);
  }

  lemma {:induction false} SameContains(a: Input, b: Input, p: string, c: string)
    requires SameInput(a, b)
    ensures c in ContainsAt(a.dict, |a.dict.structs|, p) <==> c in ContainsAt(b.dict, |b.dict.structs|, p)
  {
    ContainsIsEmbeds(a.dict, |a.dict.structs|, p, c);
    ContainsIsEmbeds(b.dict, |b.dict.structs|, p, c);
    if Embeds(a.dict, |a.dict.structs|, p, c) { EmbedsTransfers(a, b, p, c); }
    if Embeds(b.dict, |b.dict.structs|, p, c) { EmbedsTransfers(b, a, p, c); }
  }

  /** The edges into `c` are exactly the first mentions of `c` in the structs. */
  lemma {:induction false} EdgesAreMentions(d: TypeDict, n: nat, c: string, e: Edge)
    requires UniqueNames(d.structs) && n <= |d.structs|
    ensures e in EdgesInto(d, n, c)
      <==> exists i :: 0 <= i < n && EdgeUpTo(d, d.structs[i], |d.structs[i].fields|, c) == Some(e)
  {
    if n > 0 {
      EdgesAreMentions(d, n - 1, c, e);
      ContainedByIsEmbeds(d, n - 1, d.structs[n - 1].name, c);
    }
  }

  lemma {:induction false} EdgeTransfers(a: Input, b: Input, c: string, e: Edge)
    requires SameInput(a, b) && e in EdgesInto(a.dict, |a.dict.structs|, c)
    ensures e in EdgesInto(b.dict, |b.dict.structs|, c)
  {
    EdgesAreMentions(a.dict, |a.dict.structs|, c, e);
    EdgesAreMentions(b.dict, |b.dict.structs|, c, e);
    var i :| 0 <= i < |a.dict.structs|
          && EdgeUpTo(a.dict, a.dict.structs[i], |a.dict.structs[i].fields|, c) == Some(e);
    var s := a.dict.structs[i];
    assert s in b.dict.structs;
    var k :| 0 <= k < |b.dict.structs| && b.dict.structs[k] == s;
    SameEdge(a, b, s, |s.fields|, c);
  }

  lemma EdgesComparable(o: Orders, edges: seq<Edge>)
    requires GoodOrders(o) && OneEdgePerParent(edges)
    ensures StrictOrder(EdgeLess(o)) && Comparable(EdgeLess(o), edges)
  {
    EdgeLessStrict(o);
  }

  lemma EdgeLessStrict(o: Orders)
    requires GoodOrders(o)
    ensures StrictOrder(EdgeLess(o))
  {
    var less := EdgeLess(o);
    forall x, y ensures !(less(x, y) && less(y, x)) {
      assert !(o.locale(x.parent, y.parent) && o.locale(y.parent, x.parent));
    }
    forall x, y, z | less(x, y) && less(y, z) ensures less(x, z) {
      assert o.locale(x.parent, y.parent) && o.locale(y.parent, z.parent);
    }
  }

  lemma RoleLessStrict(o: Orders)
    requires GoodOrders(o)
    ensures StrictOrder(RoleLess(o))
  {
    var less := RoleLess(o);
    forall x, y ensures !(less(x, y) && less(y, x)) {
      assert !(o.locale(x.name, y.name) && o.locale(y.name, x.name));
    }
    forall x, y, z | less(x, y) && less(y, z) ensures less(x, z) {
      assert o.locale(x.name, y.name) && o.locale(y.name, z.name) ==> o.locale(x.name, z.name);
    }
  }

  lemma {:induction false} SameSortedEdges(o: Orders, a: Input, b: Input, c: string)
    requires GoodOrders(o) && SameInput(a, b)
    ensures SortBy(EdgeLess(o), EdgesInto(a.dict, |a.dict.structs|, c))
         == SortBy(EdgeLess(o), EdgesInto(b.dict, |b.dict.structs|, c))
  {
    var x, y := EdgesInto(a.dict, |a.dict.structs|, c), EdgesInto(b.dict, |b.dict.structs|, c);
    ContainedByIsEmbeds(a.dict, |a.dict.structs|, "", c);
    ContainedByIsEmbeds(b.dict, |b.dict.structs|, "", c);
    EdgesComparable(o, x);
    EdgesComparable(o, y);
    forall e ensures e in x <==> e in y {
      if e in x { EdgeTransfers(a, b, c, e); }
      if e in y { EdgeTransfers(b, a, c, e); }
    }
    SortForgetsOrder(EdgeLess(o), x, y);
  }

  lemma {:induction false} InsertKeepsCounts(less: (Edge, Edge) -> bool, sorted: seq<Edge>, x: Edge)
    ensures |InsertBy(less, sorted, x)| == |sorted| + 1
    ensures FirstCount(InsertBy(less, sorted, x)) == FirstCount(sorted) + (if x.isFirst then 1 else 0)
  {
    if sorted != [] {
      var n := |sorted| - 1;
      InsertKeepsCounts(less, sorted[..n], x);
      var below := InsertBy(less, sorted[..n], x);
      assert (below + [sorted[n]])[..|below|] == below && (sorted + [x])[..n + 1] == sorted;
    }
  }

  lemma {:induction false} SortKeepsCounts(less: (Edge, Edge) -> bool, s: seq<Edge>)
    ensures |SortBy(less, s)| == |s| && FirstCount(SortBy(less, s)) == FirstCount(s)
  {
    if s != [] {
      SortKeepsCounts(less, s[..|s| - 1]);
      InsertKeepsCounts(less, SortBy(less, s[..|s| - 1]), s[|s| - 1]);
    }
  }

  // Names without repeats sort to the same list however they were collected.
  lemma {:induction false} SameSortedNames(less: (string, string) -> bool, x: seq<string>, y: seq<string>)
    requires TotalOrder(less) && NoRepeats(x) && NoRepeats(y)
    requires forall c :: c in x <==> c in y
    ensures SortBy(less, x) == SortBy(less, y)
  {
    SortForgetsOrder(less, x, y);
  }

  lemma {:induction false} MessagesBind(ms: seq<Message>, name: string, c: string)
    ensures c in FromMessages(ms, name) <==> exists m :: m in ms && MessageBinding(m, name) == Some(c)
    ensures NoRepeats(FromMessages(ms, name))
  {
    if ms != [] {
      MessagesBind(ms[..|ms| - 1], name, c);
      assert ms == ms[..|ms| - 1] + [ms[|ms| - 1]];
    }
  }

  lemma {:induction false} BoundIs(ms: seq<Message>, ps: seq<Payload>, name: string, c: string)
    ensures c in Bound(ms, ps, name)
      <==> || (exists m :: m in ms && MessageBinding(m, name) == Some(c))
           || (exists p :: p in ps && PayloadBinding(p, name) == Some(c))
    ensures NoRepeats(Bound(ms, ps, name))
  {
    if ps == [] {
      MessagesBind(ms, name, c);
    } else {
      BoundIs(ms, ps[..|ps| - 1], name, c);
      assert ps == ps[..|ps| - 1] + [ps[|ps| - 1]];
    }
  }

  lemma {:induction false} SameConstants(o: Orders, a: Input, b: Input, name: string)
    requires GoodOrders(o) && SameInput(a, b)
    ensures SortBy(o.code, Bound(a.messages, a.payloads, name)) == SortBy(o.code, Bound(b.messages, b.payloads, name))
    ensures Bound(a.messages, a.payloads, name) == [] <==> Bound(b.messages, b.payloads, name) == []
  {
    var x, y := Bound(a.messages, a.payloads, name), Bound(b.messages, b.payloads, name);
    forall c ensures c in x <==> c in y {
      BoundIs(a.messages, a.payloads, name, c);
      BoundIs(b.messages, b.payloads, name, c);
    }
    BoundIs(a.messages, a.payloads, name, "");
    BoundIs(b.messages, b.payloads, name, "");
    SameSortedNames(o.code, x, y);
    HeadIsIn(x);
    HeadIsIn(y);
  }

  /** Depth looks only at which children there are, not at their order. */
  ghost predicate SameGraph(g: Graph, h: Graph) {
    g.Keys == h.Keys && forall x, c :: x in g ==> (c in g[x] <==> c in h[x])
  }

  lemma {:induction false} BestDominates(g: Graph, xs: seq<string>, seen: set<string>, c: string)
    requires c in xs
    ensures 1 + DepthOf(g, c, seen) <= BestOf(g, xs, seen)
  {
    var n := |xs| - 1;
    assert xs == xs[..n] + [xs[n]];
    if c in xs[..n] { BestDominates(g, xs[..n], seen, c); }
  }

  lemma {:induction false} BestAtMost(g: Graph, xs: seq<string>, seen: set<string>, bound: nat)
    requires forall c :: c in xs ==> 1 + DepthOf(g, c, seen) <= bound
    ensures BestOf(g, xs, seen) <= bound
  {
    if xs != [] {
      assert xs == xs[..|xs| - 1] + [xs[|xs| - 1]];
      BestAtMost(g, xs[..|xs| - 1], seen, bound);
    }
  }

  lemma {:induction false} SameDepth(g: Graph, h: Graph, x: string, seen: set<string>)
    requires SameGraph(g, h)
    ensures DepthOf(g, x, seen) == DepthOf(h, x, seen)
    decreases g.Keys - seen
  {
    if x !in seen && x in g {
      var under := seen + {x};
      forall c ensures DepthOf(g, c, under) == DepthOf(h, c, under) { SameDepth(g, h, c, under); }
      forall c | c in g[x] ensures 1 + DepthOf(g, c, under) <= BestOf(h, h[x], under) {
        BestDominates(h, h[x], under, c);
      }
      forall c | c in h[x] ensures 1 + DepthOf(h, c, under) <= BestOf(g, g[x], under) {
        BestDominates(g, g[x], under, c);
      }
      BestAtMost(g, g[x], under, BestOf(h, h[x], under));
      BestAtMost(h, h[x], under, BestOf(g, g[x], under));
    }
  }

  lemma SameGraphs(a: Input, b: Input)
    requires SameInput(a, b)
    ensures SameGraph(GraphOf(a.dict), GraphOf(b.dict))
  {
    forall x ensures x in GraphOf(a.dict) <==> x in GraphOf(b.dict) {
      FirstNamesAre(a.dict.structs, |a.dict.structs|, x);
      FirstNamesAre(b.dict.structs, |b.dict.structs|, x);
      SameStructs(a, b, x);
      assert IsStruct(a.dict.structs, x) <==> IsStruct(b.dict.structs, x);
    }
    assert GraphOf(a.dict).Keys == GraphOf(b.dict).Keys;
    forall x, c | x in GraphOf(a.dict) ensures c in GraphOf(a.dict)[x] <==> c in GraphOf(b.dict)[x] {
      SameContains(a, b, x, c);
    }
  }

  lemma SameInfo(o: Orders, a: Input, b: Input, s: Struct)
    requires GoodOrders(o) && SameInput(a, b) && s in a.dict.structs
    ensures InfoOf(o, a, s) == InfoOf(o, b, s)
  {
    forall pointers: bool
      ensures FlaggedIn(a.dict.structs, s.name, pointers) == FlaggedIn(b.dict.structs, s.name, pointers)
    {
      FlaggedUnique(a.dict.structs, s, pointers);
      FlaggedUnique(b.dict.structs, s, pointers);
    }
    SameSortedEdges(o, a, b, s.name);
    SortKeepsCounts(EdgeLess(o), EdgesInto(a.dict, |a.dict.structs|, s.name));
    SortKeepsCounts(EdgeLess(o), EdgesInto(b.dict, |b.dict.structs|, s.name));
    SameConstants(o, a, b, s.name);
    SameGraphs(a, b);
    SameDepth(GraphOf(a.dict), GraphOf(b.dict), s.name, {});
    var x, y := ContainsAt(a.dict, |a.dict.structs|, s.name), ContainsAt(b.dict, |b.dict.structs|, s.name);
    forall c ensures c in x <==> c in y { SameContains(a, b, s.name, c); }
    ContainsIsEmbeds(a.dict, |a.dict.structs|, s.name, "");
    ContainsIsEmbeds(b.dict, |b.dict.structs|, s.name, "");
    SameSortedNames(o.code, x, y);
  }

  lemma {:induction false} InfoAt(o: Orders, input: Input, n: nat, i: nat)
    requires i < n <= |input.dict.structs|
    ensures InfosUpTo(o, input, n)[i] == InfoOf(o, input, input.dict.structs[i])
  {
    if i < n - 1 { InfoAt(o, input, n - 1, i); }
  }

  lemma {:induction false} InfosComparable(o: Orders, input: Input)
    requires GoodOrders(o) && UniqueNames(input.dict.structs)
    ensures StrictOrder(RoleLess(o)) && Comparable(RoleLess(o), InfosUpTo(o, input, |input.dict.structs|))
  {
    RoleLessStrict(o);
    var infos := InfosUpTo(o, input, |input.dict.structs|);
    forall i, j | 0 <= i < j < |infos| ensures RoleLess(o)(infos[i], infos[j]) || RoleLess(o)(infos[j], infos[i]) {
      InfoAt(o, input, |infos|, i);
      InfoAt(o, input, |infos|, j);
      assert infos[i].name != infos[j].name;
    }
  }

  lemma {:induction false} InfoTransfers(o: Orders, a: Input, b: Input, r: RoleInfo)
    requires GoodOrders(o) && SameInput(a, b) && r in InfosUpTo(o, a, |a.dict.structs|)
    ensures r in InfosUpTo(o, b, |b.dict.structs|)
  {
    var infos := InfosUpTo(o, a, |a.dict.structs|);
    var i :| 0 <= i < |infos| && infos[i] == r;
    InfoAt(o, a, |a.dict.structs|, i);
    var s := a.dict.structs[i];
    assert s in b.dict.structs;
    var k :| 0 <= k < |b.dict.structs| && b.dict.structs[k] == s;
    InfoAt(o, b, |b.dict.structs|, k);
    SameInfo(o, a, b, s);
    assert InfosUpTo(o, b, |b.dict.structs|)[k] == r;
  }

  /**
   * With unique struct names, listing the structs, the messages or the payloads in another order, or
   * repeating a message or a payload, leaves the whole ordered report as it was.
   */
  lemma ReportForgetsInputOrder(o: Orders, a: Input, b: Input)
    requires GoodOrders(o) && SameInput(a, b)
    ensures Report(o, a) == Report(o, b)
  {
    var x, y := InfosUpTo(o, a, |a.dict.structs|), InfosUpTo(o, b, |b.dict.structs|);
    InfosComparable(o, a);
    InfosComparable(o, b);
    forall r ensures r in x <==> r in y {
      if r in x { InfoTransfers(o, a, b, r); }
      if r in y { InfoTransfers(o, b, a, r); }
    }
    SortForgetsOrder(RoleLess(o), x, y);
  }

  // ---- What the roles mean ----------------------------------------------------------------

  /** A struct is an orphan or a root candidate exactly when nothing embeds it and nothing binds it. */
  lemma UnboundRootsExactly(o: Orders, input: Input, s: Struct)
    ensures var info := InfoOf(o, input, s);
            (info.role.Orphan? || info.role.RootCandidate?) <==>
              (forall p :: !Embeds(input.dict, |input.dict.structs|, p, s.name)) && info.boundConstants == []
  {
    var edges := EdgesInto(input.dict, |input.dict.structs|, s.name);
    var constants := Bound(input.messages, input.payloads, s.name);
    forall p ensures HasParent(edges, p) <==> Embeds(input.dict, |input.dict.structs|, p, s.name) {
      ContainedByIsEmbeds(input.dict, |input.dict.structs|, p, s.name);
    }
    if edges != [] { assert HasParent(edges, edges[0].parent); }
    forall c ensures c in SortBy(o.code, constants) <==> c in constants { SortMembers(o.code, constants, c); }
    HeadIsIn(constants);
    HeadIsIn(SortBy(o.code, constants));
  }
}
