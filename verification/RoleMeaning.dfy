/** What the role report says, in terms of the dictionary, the messages and the payloads alone. */
module RoleMeaning {
  import opened Alignment
  import opened Reachability
  import opened TypeDictionary
  import opened RoleGraph
  import opened RoleReport
  import opened Sorting

  // ---- Children and edges ------------------------------------------------------------------

  /** At most four aliases lead from the type to that name, with none left over unless all four are used. */
  ghost predicate AliasesLead(aliases: seq<(string, string)>, token: string, c: string) {
    exists chain :: CanonicalAt(aliases, chain, 4, c) && chain[0] == token
  }

  /** A member embeds a struct exactly if it is no pointer and four aliases lead to that struct, not the owner. */
  lemma {:induction false} ChildExactly(d: TypeDict, owner: string, m: Field, c: string)
    ensures ChildOf(d, owner, m) == Some(c)
      <==> && !m.parsed.isPointer && c != "" && c != owner && (exists s :: s in d.structs && s.name == c)
           && AliasesLead(d.aliases, m.token, c)
  {
    CanonicalExactly(d.aliases, m.token, 4, c);
    if s :| s in d.structs && s.name == c { var k :| 0 <= k < |d.structs| && d.structs[k] == s; }
    if IsStruct(d.structs, c) {
      var k :| 0 <= k < |d.structs| && d.structs[k].name == c;
      assert d.structs[k] in d.structs;
    }
  }

  /** Member `j` of struct `i` is the first, under that struct name, to embed `c`. */
  ghost predicate FirstMention(d: TypeDict, c: string, i: nat, j: nat)
    requires i < |d.structs|
  {
    var s := d.structs[i];
    && j < |s.fields| && ChildOf(d, s.name, s.fields[j]) == Some(c)
    && (forall l :: 0 <= l < j ==> ChildOf(d, s.name, s.fields[l]) != Some(c))
    && (forall k :: 0 <= k < i && d.structs[k].name == s.name ==> !Mentions(d, d.structs[k], |d.structs[k].fields|, c))
  }

  /** The edge records its parent, whether the member comes first, its name and its numeric extent. */
  ghost predicate Records(d: TypeDict, e: Edge, i: nat, j: nat)
    requires i < |d.structs| && j < |d.structs[i].fields|
  {
    var m := d.structs[i].fields[j];
    && e.parent == d.structs[i].name && e.isFirst == (j == 0) && e.fieldName == m.name
    && (forall n: nat :: e.arrayLength == Some(n) <==> m.parsed.arr == Fixed(n))
  }

  ghost predicate IsEdge(d: TypeDict, n: nat, c: string, e: Edge)
    requires n <= |d.structs|
  {
    exists i: nat, j: nat :: i < n && FirstMention(d, c, i, j) && Records(d, e, i, j)
  }

  lemma {:induction false} EdgeUpToExactly(d: TypeDict, s: Struct, n: nat, c: string)
    requires n <= |s.fields|
    ensures var e := EdgeUpTo(d, s, n, c);
            e.Some? ==> exists j :: 0 <= j < n && ChildOf(d, s.name, s.fields[j]) == Some(c)
                                 && (forall l :: 0 <= l < j ==> ChildOf(d, s.name, s.fields[l]) != Some(c))
                                 && e.value == Edge(s.name, j == 0, s.fields[j].name, LengthOf(s.fields[j]))
  {
    if n > 0 {
      EdgeUpToExactly(d, s, n - 1, c);
      EdgeIsMention(d, s, n - 1, c);
      assert EdgeUpTo(d, s, n, c) == EdgePast(d, s, n - 1, c);
      if EdgeUpTo(d, s, n - 1, c).None? && ChildOf(d, s.name, s.fields[n - 1]) == Some(c) {
        assert forall l :: 0 <= l < n - 1 ==> ChildOf(d, s.name, s.fields[l]) != Some(c);
      }
    }
  }

  /** The edge a struct adds is the record of its first mention, if no struct of its name had one before. */
  lemma {:induction false} AddedEdge(d: TypeDict, n: nat, c: string) returns (j: nat)
    requires n < |d.structs| && EdgeUpTo(d, d.structs[n], |d.structs[n].fields|, c).Some?
    ensures j < |d.structs[n].fields| && Records(d, EdgeUpTo(d, d.structs[n], |d.structs[n].fields|, c).value, n, j)
    ensures FirstMention(d, c, n, j) <==> !Embeds(d, n, d.structs[n].name, c)
  {
    var s := d.structs[n];
    EdgeUpToExactly(d, s, |s.fields|, c);
    j :| 0 <= j < |s.fields| && ChildOf(d, s.name, s.fields[j]) == Some(c)
         && (forall l :: 0 <= l < j ==> ChildOf(d, s.name, s.fields[l]) != Some(c))
         && EdgeUpTo(d, s, |s.fields|, c).value == Edge(s.name, j == 0, s.fields[j].name, LengthOf(s.fields[j]));
    if k, l :| 0 <= k < n && 0 <= l < |d.structs[k].fields|
              && d.structs[k].name == s.name && ChildOf(d, s.name, d.structs[k].fields[l]) == Some(c) {
      assert Mentions(d, d.structs[k], |d.structs[k].fields|, c);
    }
  }

  /** The edges into a struct are exactly the records of first mentions, one per embedding name. */
  lemma {:induction false} EdgesExactly(d: TypeDict, n: nat, c: string, e: Edge)
    requires n <= |d.structs|
    ensures e in EdgesInto(d, n, c) <==> IsEdge(d, n, c, e)
  {
    if n > 0 {
      var s := d.structs[n - 1];
      EdgesExactly(d, n - 1, c, e);
      ContainedByIsEmbeds(d, n - 1, s.name, c);
      EdgeIsMention(d, s, |s.fields|, c);
      if EdgeUpTo(d, s, |s.fields|, c).Some? {
        var j := AddedEdge(d, n - 1, c);
        EdgesNext(d, n - 1, c, e, j);
      } else {
        NoNewEdge(d, n - 1, c, e);
      }
    }
  }

  lemma {:induction false} NoNewEdge(d: TypeDict, n: nat, c: string, e: Edge)
    requires n < |d.structs| && !Mentions(d, d.structs[n], |d.structs[n].fields|, c)
    ensures IsEdge(d, n + 1, c, e) <==> IsEdge(d, n, c, e)
  {
  }

  lemma {:induction false} EdgesNext(d: TypeDict, n: nat, c: string, e: Edge, j: nat)
    requires n < |d.structs| && EdgeUpTo(d, d.structs[n], |d.structs[n].fields|, c).Some?
    requires j < |d.structs[n].fields| && Records(d, EdgeUpTo(d, d.structs[n], |d.structs[n].fields|, c).value, n, j)
    requires FirstMention(d, c, n, j) <==> !HasParent(EdgesInto(d, n, c), d.structs[n].name)
    requires FirstMention(d, c, n, j) <==> !Embeds(d, n, d.structs[n].name, c)
    requires e in EdgesInto(d, n, c) <==> IsEdge(d, n, c, e)
    ensures e in EdgesInto(d, n + 1, c) <==> IsEdge(d, n + 1, c, e)
  {
    var added := EdgeUpTo(d, d.structs[n], |d.structs[n].fields|, c).value;
    if i: nat, l: nat :| i < n + 1 && FirstMention(d, c, i, l) && Records(d, e, i, l) {
      if i == n { MentionUnique(d, c, n, l, j, e, added); }
    }
  }

  /** Two records of the same struct's first mention are one. */
  lemma {:induction false} MentionUnique(d: TypeDict, c: string, i: nat, l: nat, j: nat, e: Edge, added: Edge)
    requires i < |d.structs| && FirstMention(d, c, i, l) && Records(d, e, i, l)
    requires j < |d.structs[i].fields| && Records(d, added, i, j)
    requires FirstMention(d, c, i, j) <==> !Embeds(d, i, d.structs[i].name, c)
    ensures l == j && e == added
  {
    assert !Embeds(d, i, d.structs[i].name, c);
    var m := d.structs[i].fields[j];
    if e.arrayLength.Some? { assert m.parsed.arr == Fixed(e.arrayLength.value); }
    if added.arrayLength.Some? { assert m.parsed.arr == Fixed(added.arrayLength.value); }
  }

  // ---- Counting ---------------------------------------------------------------------------------

  /** The names of the structs that embed `c`. */
  ghost function Embedders(d: TypeDict, c: string): set<string> {
    set s | s in d.structs && Embeds(d, |d.structs|, s.name, c) :: s.name
  }

  /** Those whose first mention of `c` is a first member. */
  ghost function Leaders(d: TypeDict, c: string): set<string> {
    set i | 0 <= i < |d.structs| && FirstMention(d, c, i, 0) :: d.structs[i].name
  }

  ghost function Parents(edges: seq<Edge>): set<string> { set e | e in edges :: e.parent }

  ghost function FirstParents(edges: seq<Edge>): set<string> { set e | e in edges && e.isFirst :: e.parent }

  lemma OneMoreParent(init: seq<Edge>, last: Edge)
    ensures Parents(init + [last]) == Parents(init) + {last.parent}
    ensures FirstParents(init + [last]) == FirstParents(init) + (if last.isFirst then {last.parent} else {})
  {
    var all := init + [last];
    forall p ensures p in Parents(all) <==> p in Parents(init) + {last.parent} {
      if p in Parents(init) + {last.parent} { assert all[|init|] == last; }
    }
    assert last in all && (forall e :: e in all <==> e in init || e == last);
  }

  lemma {:induction false} ParentsCount(edges: seq<Edge>)
    requires OneEdgePerParent(edges)
    ensures |Parents(edges)| == |edges| && |FirstParents(edges)| == FirstCount(edges)
  {
    if edges != [] {
      var n := |edges| - 1;
      ParentsCount(edges[..n]);
      NewParent(edges);
      assert edges == edges[..n] + [edges[n]];
      OneMoreParent(edges[..n], edges[n]);
    }
  }

  lemma NewParent(edges: seq<Edge>)
    requires OneEdgePerParent(edges) && edges != []
    ensures edges[|edges| - 1].parent !in Parents(edges[..|edges| - 1])
    ensures edges[|edges| - 1].parent !in FirstParents(edges[..|edges| - 1])
  {
  }

  lemma {:induction false} EdgesCount(d: TypeDict, c: string)
    ensures var edges := EdgesInto(d, |d.structs|, c);
            |edges| == |Embedders(d, c)| && FirstCount(edges) == |Leaders(d, c)|
  {
    var edges := EdgesInto(d, |d.structs|, c);
    ContainedByIsEmbeds(d, |d.structs|, "", c);
    ParentsCount(edges);
    forall p ensures p in Parents(edges) <==> p in Embedders(d, c) { ParentIsEmbedder(d, c, p); }
    forall p ensures p in FirstParents(edges) <==> p in Leaders(d, c) { FirstParentIsLeader(d, c, p); }
    assert Parents(edges) == Embedders(d, c) && FirstParents(edges) == Leaders(d, c);
  }

  lemma {:induction false} ParentIsEmbedder(d: TypeDict, c: string, p: string)
    ensures p in Parents(EdgesInto(d, |d.structs|, c)) <==> p in Embedders(d, c)
  {
    var edges := EdgesInto(d, |d.structs|, c);
    ContainedByIsEmbeds(d, |d.structs|, p, c);
    if p in Parents(edges) {
      var e :| e in edges && e.parent == p;
      var k :| 0 <= k < |edges| && edges[k] == e;
      var i, j :| 0 <= i < |d.structs| && 0 <= j < |d.structs[i].fields| && d.structs[i].name == p
                && ChildOf(d, p, d.structs[i].fields[j]) == Some(c);
      assert d.structs[i] in d.structs;
    }
    if p in Embedders(d, c) {
      var k :| 0 <= k < |edges| && edges[k].parent == p;
      assert edges[k] in edges;
    }
  }

  lemma {:induction false} FirstParentIsLeader(d: TypeDict, c: string, p: string)
    ensures p in FirstParents(EdgesInto(d, |d.structs|, c)) <==> p in Leaders(d, c)
  {
    var edges := EdgesInto(d, |d.structs|, c);
    if p in FirstParents(edges) {
      var e :| e in edges && e.isFirst && e.parent == p;
      EdgesExactly(d, |d.structs|, c, e);
      var i: nat, j: nat :| i < |d.structs| && FirstMention(d, c, i, j) && Records(d, e, i, j);
      assert FirstMention(d, c, i, 0);
    }
    if p in Leaders(d, c) {
      var i :| 0 <= i < |d.structs| && FirstMention(d, c, i, 0) && d.structs[i].name == p;
      var m := d.structs[i].fields[0];
      var e := Edge(p, true, m.name, LengthOf(m));
      assert Records(d, e, i, 0);
      EdgesExactly(d, |d.structs|, c, e);
    }
  }

  // ---- Binding ----------------------------------------------------------------------------------

  /** A resolved message or a payload of high or medium confidence ties the struct to the constant. */
  ghost predicate Binds(input: Input, name: string, c: string) {
    && c != ""
    && (|| (exists m :: m in input.messages && m.struct == Some(name) && m.constant == c)
        || (name != "" && exists p :: p in input.payloads && p.confident && p.struct == Some(name)
                                 && (p.constant == Some(c) || (p.constant == None && c == "(payload)"))))
  }

  lemma {:induction false} BindsExactly(o: Orders, input: Input, s: Struct, c: string)
    ensures c in InfoOf(o, input, s).boundConstants <==> Binds(input, s.name, c)
  {
    var constants := Bound(input.messages, input.payloads, s.name);
    SortMembers(o.code, constants, c);
    BoundIs(input.messages, input.payloads, s.name, c);
    if m :| m in input.messages && m.struct == Some(s.name) && m.constant == c && c != "" {
      assert MessageBinding(m, s.name) == Some(c);
    }
    if p :| p in input.payloads && p.confident && p.struct == Some(s.name) && s.name != "" && c != ""
            && (p.constant == Some(c) || (p.constant == None && c == "(payload)")) {
      assert PayloadBinding(p, s.name) == Some(c);
    }
  }

  ghost predicate IsBound(input: Input, name: string) { exists c :: Binds(input, name, c) }

  lemma {:induction false} BoundExactly(o: Orders, input: Input, s: Struct)
    ensures Bound(input.messages, input.payloads, s.name) != [] <==> IsBound(input, s.name)
  {
    var constants := Bound(input.messages, input.payloads, s.name);
    if constants != [] {
      BindsExactly(o, input, s, constants[0]);
      SortMembers(o.code, constants, constants[0]);
    }
    if c :| Binds(input, s.name, c) {
      BindsExactly(o, input, s, c);
      SortMembers(o.code, constants, c);
    }
  }

  // ---- Roles ------------------------------------------------------------------------------------

  /** Three structs or more embed it, and four in five of them start with it. */
  ghost predicate LeadsMost(d: TypeDict, c: string) {
    |Embedders(d, c)| >= 3 && 5 * |Leaders(d, c)| >= 4 * |Embedders(d, c)|
  }

  /** The exact condition of each role. */
  ghost predicate RoleFits(input: Input, name: string, role: Role) {
    var embedders := |Embedders(input.dict, name)|;
    var envelope, bound := LeadsMost(input.dict, name), IsBound(input, name);
    && (role == Envelope <==> envelope)
    && (role == WireRoot <==> !envelope && bound && embedders == 0)
    && (role == WireRootNested <==> !envelope && bound && embedders > 0)
    && (role == SharedBlock <==> !envelope && !bound && embedders >= 2)
    && (role == BlockRole <==> !envelope && !bound && embedders == 1)
    && (role == RootCandidate <==> !bound && embedders == 0 && name in input.referenced)
    && (role == Orphan <==> !bound && embedders == 0 && name !in input.referenced)
  }

  /** Every struct has the role its embedders and its bindings call for. */
  lemma {:induction false} RolesExactly(o: Orders, input: Input, s: Struct)
    ensures RoleFits(input, s.name, InfoOf(o, input, s).role)
    ensures InfoOf(o, input, s).inDegree == |Embedders(input.dict, s.name)|
  {
    EdgesCount(input.dict, s.name);
    BoundExactly(o, input, s);
  }

  // ---- Flagged members ----------------------------------------------------------------------------

  lemma {:induction false} FlaggedExactly(ms: seq<Field>, name: string)
    ensures name in Flagged(ms, true) <==> exists m :: m in ms && m.name == name && m.parsed.isPointer
    ensures name in Flagged(ms, false) <==> exists m :: m in ms && m.name == name && m.parsed.arr == Unsized
  {
    if ms != [] {
      FlaggedExactly(ms[..|ms| - 1], name);
      assert ms == ms[..|ms| - 1] + [ms[|ms| - 1]];
    }
  }

  // ---- The rest of a row -------------------------------------------------------------------------

  /** A row counts the members and the edges, and lists names and edges in increasing order. */
  lemma {:induction false} RowCounts(o: Orders, input: Input, s: Struct)
    requires GoodOrders(o)
    ensures var r := InfoOf(o, input, s);
            && r.name == s.name && r.fieldCount == |s.fields| && |r.containedBy| == |Embedders(input.dict, s.name)|
            && Increasing(o.code, r.contains) && Increasing(o.code, r.boundConstants)
            && forall i, j :: 0 <= i < j < |r.containedBy| ==> o.locale(r.containedBy[i].parent, r.containedBy[j].parent)
  {
    var d := input.dict;
    var edges := EdgesInto(d, |d.structs|, s.name);
    ContainsIsEmbeds(d, |d.structs|, s.name, "");
    ContainedByIsEmbeds(d, |d.structs|, "", s.name);
    BoundIs(input.messages, input.payloads, s.name, "");
    SortIncreasing(o.code, ContainsAt(d, |d.structs|, s.name));
    SortIncreasing(o.code, Bound(input.messages, input.payloads, s.name));
    EdgesSorted(o, edges);
    EdgesCount(d, s.name);
    SortKeepsCounts(EdgeLess(o), edges);
  }

  lemma {:induction false} EdgesSorted(o: Orders, edges: seq<Edge>)
    requires GoodOrders(o) && OneEdgePerParent(edges)
    ensures var sorted := SortBy(EdgeLess(o), edges);
            forall i, j :: 0 <= i < j < |sorted| ==> o.locale(sorted[i].parent, sorted[j].parent)
  {
    EdgesComparable(o, edges);
    SortIncreasing(EdgeLess(o), edges);
    var sorted := SortBy(EdgeLess(o), edges);
    forall i, j | 0 <= i < j < |sorted| ensures o.locale(sorted[i].parent, sorted[j].parent) {
      assert EdgeLess(o)(sorted[i], sorted[j]);
    }
  }

  /** A row names every struct its own embeds and every edge into it, and no others. */
  lemma {:induction false} RowNames(o: Orders, input: Input, s: Struct, c: string, e: Edge)
    ensures c in InfoOf(o, input, s).contains <==> Embeds(input.dict, |input.dict.structs|, s.name, c)
    ensures e in InfoOf(o, input, s).containedBy <==> IsEdge(input.dict, |input.dict.structs|, s.name, e)
  {
    var d := input.dict;
    ContainsIsEmbeds(d, |d.structs|, s.name, c);
    SortMembers(o.code, ContainsAt(d, |d.structs|, s.name), c);
    EdgesExactly(d, |d.structs|, s.name, e);
    SortMembers(EdgeLess(o), EdgesInto(d, |d.structs|, s.name), e);
  }

  // ---- Order ------------------------------------------------------------------------------------

  /** Nested wire roots come first, then wire roots, envelopes, candidates, shared blocks, blocks and orphans. */
  predicate Precedes(a: Role, b: Role) {
    match a
    case WireRootNested => b != WireRootNested
    case WireRoot => b != WireRootNested && b != WireRoot
    case Envelope => b == RootCandidate || b == SharedBlock || b == BlockRole || b == Orphan
    case RootCandidate => b == SharedBlock || b == BlockRole || b == Orphan
    case SharedBlock => b == BlockRole || b == Orphan
    case BlockRole => b == Orphan
    case Orphan => false
  }

  /** Earlier role, or the same role and deeper, or as deep and earlier by name. */
  predicate Listed(o: Orders, a: RoleInfo, b: RoleInfo) {
    || Precedes(a.role, b.role)
    || (a.role == b.role && (a.depth > b.depth || (a.depth == b.depth && o.locale(a.name, b.name))))
  }

  lemma LessIsListed(o: Orders, a: RoleInfo, b: RoleInfo)
    requires RoleLess(o)(a, b)
    ensures Listed(o, a, b)
  {
    if Rank(a.role) == Rank(b.role) { RankNames(a.role, b.role); }
  }

  lemma RankNames(a: Role, b: Role)
    requires Rank(a) == Rank(b)
    ensures a == b
  {
    match a { case _ => match b { case _ => } }
  }

  lemma {:induction false} ReportOrdered(o: Orders, input: Input, i: nat, j: nat)
    requires GoodOrders(o) && UniqueNames(input.dict.structs) && i < j < |Report(o, input)|
    ensures Listed(o, Report(o, input)[i], Report(o, input)[j])
  {
    InfosComparable(o, input);
    SortIncreasing(RoleLess(o), InfosUpTo(o, input, |input.dict.structs|));
    LessIsListed(o, Report(o, input)[i], Report(o, input)[j]);
  }

  /** The report has a row for every struct and no others. */
  lemma ReportLists(o: Orders, input: Input, r: RoleInfo)
    ensures r in Report(o, input) <==> exists s :: s in input.dict.structs && r == InfoOf(o, input, s)
  {
    var structs := input.dict.structs;
    var infos := InfosUpTo(o, input, |structs|);
    SortMembers(RoleLess(o), infos, r);
    forall i | 0 <= i < |structs| ensures infos[i] == InfoOf(o, input, structs[i]) { InfoAt(o, input, |structs|, i); }
    OneEach(structs, infos, s => InfoOf(o, input, s), r);
  }

  /** A list made entry by entry from another holds what its entries yield. */
  lemma OneEach<S, T>(xs: seq<S>, ys: seq<T>, made: S -> T, y: T)
    requires |xs| == |ys| && forall i :: 0 <= i < |xs| ==> ys[i] == made(xs[i])
    ensures y in ys <==> exists x :: x in xs && y == made(x)
  {
    if i :| 0 <= i < |ys| && ys[i] == y { assert xs[i] in xs; }
    if x :| x in xs && y == made(x) { var i :| 0 <= i < |xs| && xs[i] == x; }
  }

  /** The two name lists hold the wire roots, nested or not, and the envelopes. */
  lemma {:induction false} NamesExactly(roles: seq<RoleInfo>, name: string)
    ensures name in NamesWhere(roles, false)
      <==> exists r :: r in roles && r.name == name && (r.role == WireRoot || r.role == WireRootNested)
    ensures name in NamesWhere(roles, true) <==> exists r :: r in roles && r.name == name && r.role == Envelope
  {
    if roles != [] {
      NamesExactly(roles[..|roles| - 1], name);
      assert roles == roles[..|roles| - 1] + [roles[|roles| - 1]];
    }
  }
}
