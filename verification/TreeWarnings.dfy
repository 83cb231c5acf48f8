/**
 * Do a message's warnings cover its tree? The tree follows member types through the layout engine's
 * alias map, the warnings follow them through the role report, which gives up after four aliases.
 */
module TreeWarnings {
  import opened Alignment
  import opened TypeDictionary
  import opened Layout
  import opened Containment
  import opened Composition
  import opened CompositionTree
  import opened Reachability
  import RoleGraph
  import RoleReport
  import Sorting
  import Warnings

  // ---- Structs that appear in a tree ---------------------------------------------------------

  /** Some block of the tree is a struct of this name. */
  ghost predicate Occurs(parts: seq<Part>, name: string)
    decreases parts
  {
    exists i :: 0 <= i < |parts| && OccursAt(parts[i], name)
  }

  ghost predicate OccursAt(p: Part, name: string)
    decreases p
  {
    p.Block? && (p.typeName == name || Occurs(p.children, name))
  }

  /** A member of `s` that the tree shows as a block of `n`. */
  predicate BlockMember(env: Env, s: Struct, f: Field, n: Struct) {
    Child(env, f) == Some(n) && f.parsed.bitWidth.None? && n.name != s.name && n.name != ""
  }

  ghost predicate EmbedsBlock(env: Env, s: Struct, n: Struct) {
    exists i :: 0 <= i < |s.fields| && BlockMember(env, s, s.fields[i], n)
  }

  ghost function TreeOf(env: Env, t: Target, s: Struct, maxDepth: nat): seq<Part> {
    PartsOf(Catalog(env, t, env.dict.structs, None), s.name, 0, maxDepth, {s.name}, 0)
  }

  /** A row names a struct exactly if its member embeds one other than the owner. */
  lemma {:induction false} RowType(env: Env, t: Target, s: Struct, i: nat)
    requires i < |s.fields|
    ensures var l := Standalone(env, t, s, None);
            && |l.fields| == |s.fields|
            && l.fields[i].structType == (if Child(env, s.fields[i]).Some? && s.fields[i].parsed.bitWidth.None?
                                             && Child(env, s.fields[i]).value.name != s.name
                                          then Some(Child(env, s.fields[i]).value.name) else None)
  {
    RowIsSlot(env, t, s, i);
  }

  lemma {:induction false} ReachesTrans(g: Graph, p: seq<string>, z: string)
    requires Path(g, p) && Reaches(g, p[|p| - 1], z)
    ensures Reaches(g, p[0], z)
    decreases |p|
  {
    if |p| > 1 {
      var rest := p[1..];
      forall i | 0 < i < |rest| ensures rest[i] in Succ(g, rest[i - 1]) { assert p[i + 1] in Succ(g, p[i]); }
      ReachesTrans(g, rest, z);
      assert p[1] in Succ(g, p[0]);
      ReachesVia(g, p[0], p[1], z);
    }
  }

  lemma ReachesJoin(g: Graph, x: string, y: string, z: string)
    requires Reaches(g, x, y) && Reaches(g, y, z)
    ensures Reaches(g, x, z)
  {
    var p :| Path(g, p) && p[0] == x && p[|p| - 1] == y;
    ReachesTrans(g, p, z);
  }

  /** What occurs among sorted parts occurs among the members they were sorted from. */
  lemma {:induction false} OccursUnsorted(members: seq<Part>, gaps: seq<Gap>, base: nat, name: string)
    ensures Occurs(SortParts(members + GapParts(gaps, base)), name) <==> Occurs(members, name)
  {
    var all := members + GapParts(gaps, base);
    var sorted := SortParts(all);
    SortSorts(all);
    if i :| 0 <= i < |sorted| && OccursAt(sorted[i], name) {
      assert sorted[i] in multiset(sorted);
      var k :| 0 <= k < |all| && all[k] == sorted[i];
      if k >= |members| { GapPartAt(gaps, base, k - |members|); }
      assert members[k] == sorted[i];
    }
    if i :| 0 <= i < |members| && OccursAt(members[i], name) {
      assert all[i] == members[i] && all[i] in multiset(all);
      var k :| 0 <= k < |sorted| && sorted[k] == members[i];
    }
  }

  /** Every struct shown inside another is reachable from it. */
  ghost predicate EmbeddingsCovered(env: Env, g: Graph) {
    forall s, n :: s in env.dict.structs && EmbedsBlock(env, s, n) ==> Reaches(g, s.name, n.name)
  }

  /** The row that shows `name`: it is a block of that struct, or one that shows it further down. */
  lemma {:induction false} ShowingRow(env: Env, t: Target, catalog: seq<CatalogEntry>, s: Struct, name: string,
                                      depth: nat, maxDepth: nat, seen: set<string>, base: nat)
    returns (i: nat, f: FieldLayout)
    requires UniqueNames(env.dict.structs) && s in env.dict.structs && catalog == Catalog(env, t, env.dict.structs, None)
    requires Occurs(PartsOf(catalog, s.name, depth, maxDepth, seen, base), name)
    ensures IsRow(env, t, s, i, f) && OccursAt(FieldPart(catalog, f, depth, maxDepth, seen, base), name)
  {
    if s.fields == [] { MemberlessUnlisted(env, t, s); }
    CatalogLookup(env, t, env.dict.structs, None, s.name);
    var l := Standalone(env, t, s, None);
    var members := FieldParts(catalog, l.fields, depth, maxDepth, seen, base);
    OccursUnsorted(members, l.gaps, base, name);
    RowCount(env, t, s);
    i :| 0 <= i < |members| && OccursAt(members[i], name);
    f := l.fields[i];
    FieldPartAt(catalog, l.fields, depth, maxDepth, seen, base, i);
  }

  ghost predicate IsRow(env: Env, t: Target, s: Struct, i: nat, f: FieldLayout) {
    var l := Standalone(env, t, s, None);
    i < |s.fields| && i < |l.fields| && l.fields[i] == f
  }

  lemma {:induction false} RowEmbeds(env: Env, t: Target, s: Struct, i: nat, f: FieldLayout) returns (n: Struct)
    requires IsRow(env, t, s, i, f) && f.structType.Some? && f.structType.value != ""
    ensures n in env.dict.structs && EmbedsBlock(env, s, n) && n.name == f.structType.value
  {
    RowType(env, t, s, i);
    n := Child(env, s.fields[i]).value;
    assert BlockMember(env, s, s.fields[i], n);
  }

  /** The tree below a block of struct `inner` that starts at `at` shows `name`, or it is that struct. */
  ghost predicate ShownBelow(catalog: seq<CatalogEntry>, inner: string, name: string, depth: nat, maxDepth: nat,
                             seen: set<string>, at: nat)
  {
    || inner == name
    || (depth < maxDepth && inner !in seen
        && Occurs(PartsOf(catalog, inner, depth + 1, maxDepth, seen + {inner}, at), name))
  }

  lemma {:induction false} RowNamed(catalog: seq<CatalogEntry>, f: FieldLayout, name: string, depth: nat, maxDepth: nat,
                                    seen: set<string>, base: nat)
    requires OccursAt(FieldPart(catalog, f, depth, maxDepth, seen, base), name)
    ensures f.structType.Some? && f.structType.value != ""
  {
  }

  lemma {:induction false} RowShows(catalog: seq<CatalogEntry>, f: FieldLayout, inner: string, name: string, depth: nat,
                                    maxDepth: nat, seen: set<string>, base: nat, at: nat)
    requires OccursAt(FieldPart(catalog, f, depth, maxDepth, seen, base), name)
    requires f.structType == Some(inner) && at == base + f.offset
    ensures ShownBelow(catalog, inner, name, depth, maxDepth, seen, at)
  {
  }

  /** The struct directly inside `s` whose block is, or contains, the one named, and where it starts. */
  lemma {:induction false} ShownBlock(env: Env, t: Target, catalog: seq<CatalogEntry>, s: Struct, name: string,
                                      depth: nat, maxDepth: nat, seen: set<string>, base: nat)
    returns (n: Struct, at: nat)
    requires UniqueNames(env.dict.structs) && s in env.dict.structs && catalog == Catalog(env, t, env.dict.structs, None)
    requires Occurs(PartsOf(catalog, s.name, depth, maxDepth, seen, base), name)
    ensures n in env.dict.structs && EmbedsBlock(env, s, n)
    ensures ShownBelow(catalog, n.name, name, depth, maxDepth, seen, at)
  {
    var i, f := ShowingRow(env, t, catalog, s, name, depth, maxDepth, seen, base);
    RowNamed(catalog, f, name, depth, maxDepth, seen, base);
    n := RowEmbeds(env, t, s, i, f);
    at := base + f.offset;
    RowShows(catalog, f, n.name, name, depth, maxDepth, seen, base, at);
  }

  lemma {:induction false} OccursReaches(env: Env, t: Target, g: Graph, s: Struct, name: string, depth: nat,
                                         maxDepth: nat, seen: set<string>, base: nat)
    requires UniqueNames(env.dict.structs) && s in env.dict.structs && EmbeddingsCovered(env, g)
    requires Occurs(PartsOf(Catalog(env, t, env.dict.structs, None), s.name, depth, maxDepth, seen, base), name)
    ensures Reaches(g, s.name, name)
    decreases LevelsLeft(depth, maxDepth)
  {
    var n, at := ShownBlock(env, t, Catalog(env, t, env.dict.structs, None), s, name, depth, maxDepth, seen, base);
    if name != n.name {
      OccursReaches(env, t, g, n, name, depth + 1, maxDepth, seen + {n.name}, at);
      ReachesJoin(g, s.name, n.name, name);
    }
  }

  /** A struct embedded directly is in the tree at any depth cap. */
  lemma {:induction false} EmbedOccurs(env: Env, t: Target, s: Struct, n: Struct, maxDepth: nat)
    requires UniqueNames(env.dict.structs) && s in env.dict.structs && EmbedsBlock(env, s, n)
    ensures Occurs(TreeOf(env, t, s, maxDepth), n.name)
  {
    var catalog := Catalog(env, t, env.dict.structs, None);
    var i :| 0 <= i < |s.fields| && BlockMember(env, s, s.fields[i], n);
    CatalogLookup(env, t, env.dict.structs, None, s.name);
    var l := Standalone(env, t, s, None);
    RowType(env, t, s, i);
    FieldPartAt(catalog, l.fields, 0, maxDepth, {s.name}, 0, i);
    var members := FieldParts(catalog, l.fields, 0, maxDepth, {s.name}, 0);
    assert OccursAt(members[i], n.name);
    OccursUnsorted(members, l.gaps, 0, n.name);
  }

  /** For every root and depth cap, whatever occurs in the tree is reachable in `g` from the root. */
  ghost predicate TreesCovered(env: Env, t: Target, g: Graph) {
    forall s, maxDepth: nat, name ::
      s in env.dict.structs && Occurs(TreeOf(env, t, s, maxDepth), name) ==> Reaches(g, s.name, name)
  }

  /** A graph covers all trees exactly if it covers each single embedding, for cyclic dictionaries too. */
  lemma {:induction false} TreesCoveredExactly(env: Env, t: Target, g: Graph)
    requires UniqueNames(env.dict.structs)
    ensures TreesCovered(env, t, g) <==> EmbeddingsCovered(env, g)
  {
    if EmbeddingsCovered(env, g) {
      forall s, maxDepth: nat, name | s in env.dict.structs && Occurs(TreeOf(env, t, s, maxDepth), name)
        ensures Reaches(g, s.name, name)
      {
        OccursReaches(env, t, g, s, name, 0, maxDepth, {s.name}, 0);
      }
    }
    if TreesCovered(env, t, g) {
      forall s, n | s in env.dict.structs && EmbedsBlock(env, s, n) ensures Reaches(g, s.name, n.name) {
        EmbedOccurs(env, t, s, n, 0);
        assert Occurs(TreeOf(env, t, s, 0), n.name);
      }
    }
  }

  // ---- The role report as a graph --------------------------------------------------------------

  /** `byName` of the report. */
  ghost function RolesOf(o: RoleReport.Orders, input: RoleReport.Input): Warnings.Roles {
    map x | x in RoleGraph.FirstNames(input.dict.structs, |input.dict.structs|) && FindStruct(input.dict.structs, x).Some?
      :: RoleReport.InfoOf(o, input, FindStruct(input.dict.structs, x).value)
  }

  /** With unique names that is each row under its own name. */
  lemma {:induction false} RolesAreReport(o: RoleReport.Orders, input: RoleReport.Input, r: RoleReport.RoleInfo)
    requires UniqueNames(input.dict.structs) && r in RoleReport.Report(o, input)
    ensures r.name in RolesOf(o, input) && RolesOf(o, input)[r.name] == r
  {
    var structs := input.dict.structs;
    var infos := RoleReport.InfosUpTo(o, input, |structs|);
    Sorting.SortMembers(RoleReport.RoleLess(o), infos, r);
    var i :| 0 <= i < |infos| && infos[i] == r;
    RoleReport.InfoAt(o, input, |structs|, i);
    RoleGraph.FirstNamesAre(structs, |structs|, r.name);
    var s := FindStruct(structs, r.name);
    assert structs[i].name == r.name && s.Some?;
    var k :| 0 <= k < |structs| && structs[k] == s.value;
  }

  /** The graph the warnings walk. */
  ghost function WarningGraph(o: RoleReport.Orders, input: RoleReport.Input): Graph {
    Warnings.HazardGraph(RolesOf(o, input))
  }

  lemma {:induction false} WarningEdge(o: RoleReport.Orders, input: RoleReport.Input, x: string, c: string)
    ensures c in Succ(WarningGraph(o, input), x)
      <==> RoleGraph.IsStruct(input.dict.structs, x) && RoleGraph.Embeds(input.dict, |input.dict.structs|, x, c)
  {
    var d := input.dict;
    RoleGraph.FirstNamesAre(d.structs, |d.structs|, x);
    RoleGraph.ContainsIsEmbeds(d, |d.structs|, x, c);
    Sorting.SortMembers(o.code, RoleGraph.ContainsAt(d, |d.structs|, x), c);
  }

  // ---- When the two agree ------------------------------------------------------------------------

  /** Following at most four aliases leads from every member shown as a block to the struct it shows. */
  ghost predicate NamesAgree(d: TypeDict) {
    forall s, i, n :: s in d.structs && 0 <= i < |s.fields| && BlockMember(EnvOf(d), s, s.fields[i], n)
      ==> Canonical(d.aliases, s.fields[i].token, 4) == n.name
  }

  /** The role report sees a block's member exactly if those aliases lead to the same struct. */
  lemma {:induction false} MentionedExactly(d: TypeDict, s: Struct, f: Field, n: Struct)
    requires n in d.structs && BlockMember(EnvOf(d), s, f, n)
    ensures RoleGraph.ChildOf(d, s.name, f) == Some(n.name) <==> Canonical(d.aliases, f.token, 4) == n.name
  {
    var k :| 0 <= k < |d.structs| && d.structs[k] == n;
    assert RoleGraph.IsStruct(d.structs, n.name);
  }

  lemma {:induction false} MentionReaches(o: RoleReport.Orders, input: RoleReport.Input, s: Struct, j: nat, c: string)
    requires s in input.dict.structs && j < |s.fields|
    requires RoleGraph.ChildOf(input.dict, s.name, s.fields[j]) == Some(c)
    ensures Reaches(WarningGraph(o, input), s.name, c)
  {
    var d := input.dict;
    var i :| 0 <= i < |d.structs| && d.structs[i] == s;
    assert d.structs[i].name == s.name && RoleGraph.ChildOf(d, s.name, d.structs[i].fields[j]) == Some(c);
    WarningEdge(o, input, s.name, c);
    ReachesSelf(WarningGraph(o, input), c);
    ReachesVia(WarningGraph(o, input), s.name, c, c);
  }

  lemma {:induction false} AgreementCovers(o: RoleReport.Orders, input: RoleReport.Input)
    requires NamesAgree(input.dict)
    ensures EmbeddingsCovered(EnvOf(input.dict), WarningGraph(o, input))
  {
    var env := EnvOf(input.dict);
    forall s, n | s in input.dict.structs && EmbedsBlock(env, s, n) ensures Reaches(WarningGraph(o, input), s.name, n.name) {
      var j :| 0 <= j < |s.fields| && BlockMember(env, s, s.fields[j], n);
      MentionedExactly(input.dict, s, s.fields[j], n);
      MentionReaches(o, input, s, j, n.name);
    }
  }

  /**
   * If the warnings' graph covers the embeddings, each hazard of each struct in a message's tree is
   * among the message's warnings, as often as that struct declares it.
   */
  lemma {:induction false} TreeHazardsReported(o: RoleReport.Orders, input: RoleReport.Input, t: Target, s: Struct,
                                               maxDepth: nat, pointers: bool, h: Warnings.Hazard)
    requires UniqueNames(input.dict.structs) && s in input.dict.structs
    requires EmbeddingsCovered(EnvOf(input.dict), WarningGraph(o, input))
    requires Occurs(TreeOf(EnvOf(input.dict), t, s, maxDepth), h.owner)
    ensures var roles := RolesOf(o, input);
            multiset(Warnings.HazardsIn(roles, Visit(Warnings.HazardGraph(roles), s.name, {}), pointers))[h]
              == multiset(Warnings.FieldsOf(roles, h.owner, pointers))[h.field]
  {
    OccursReaches(EnvOf(input.dict), t, WarningGraph(o, input), s, h.owner, 0, maxDepth, {s.name}, 0);
    Warnings.WarningsExactlyReachable(RolesOf(o, input), s.name, pointers, h);
  }
}
