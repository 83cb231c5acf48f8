/** One row per message: its sizes on both targets, its expanded tree and its hazards. */
module MessageReport {
  import opened Alignment
  import opened TypeDictionary
  import opened Layout
  import opened CrossTarget
  import opened Composition
  import opened CompositionTree
  import opened Containment
  import opened Sorting
  import Reachability
  import RoleReport
  import Warnings

  /** A message interface; `root` is the struct it resolved to, if it did. */
  datatype Message = Message(constant: string, root: Option<string>)

  /** Sizes and padding are kept per target, whichever target is rendered. */
  datatype MessageComposition = MessageComposition(
    constant: string, rootStruct: string,
    size: map<Target, nat>, padding: map<Target, nat>, differs: bool, estimated: bool,
    parts: seq<Part>, pointerWarnings: seq<Warnings.Hazard>, variableArrayWarnings: seq<Warnings.Hazard>)

  function Other(t: Target): Target { if t.Bits64? then Bits32 else Bits64 }

  function Compose(m: Message, root: string, t: Target, here: StructLayout, there: Option<StructLayout>, parts: seq<Part>,
                   pointers: seq<Warnings.Hazard>, arrays: seq<Warnings.Hazard>): MessageComposition
  {
    var other := if there.Some? then there.value else here;
    var size := map[t := here.total, Other(t) := other.total];
    var padding := map[t := here.padding, Other(t) := other.padding];
    MessageComposition(m.constant, root, size, padding, size[Bits32] != size[Bits64], here.estimated, parts, pointers, arrays)
  }

  function HazardsOf(roles: Warnings.Roles, root: string, pointers: bool): seq<Warnings.Hazard> {
    Warnings.HazardsIn(roles, Reachability.Visit(Warnings.HazardGraph(roles), root, {}), pointers)
  }

  /** A message without a laid-out root struct has no row. */
  function RowOf(m: Message, t: Target, catalog: seq<CatalogEntry>, otherCatalog: seq<CatalogEntry>,
                 roles: Warnings.Roles, maxDepth: nat): Option<MessageComposition>
  {
    if m.root.None? then None
    else
      var root := m.root.value;
      match LayoutOf(catalog, root)
      case None => None
      case Some(here) =>
        Some(Compose(m, root, t, here, LayoutOf(otherCatalog, root),
                     PartsOf(catalog, root, 0, maxDepth, {root}, 0),
                     HazardsOf(roles, root, true), HazardsOf(roles, root, false)))
  }

  function RowsOf(ms: seq<Message>, t: Target, catalog: seq<CatalogEntry>, otherCatalog: seq<CatalogEntry>,
                  roles: Warnings.Roles, maxDepth: nat): seq<MessageComposition>
  {
    if ms == [] then []
    else
      var row := RowOf(ms[|ms| - 1], t, catalog, otherCatalog, roles, maxDepth);
      RowsOf(ms[..|ms| - 1], t, catalog, otherCatalog, roles, maxDepth) + (if row.Some? then [row.value] else [])
  }

  function ByConstant(locale: (string, string) -> bool): (MessageComposition, MessageComposition) -> bool {
    (a: MessageComposition, b: MessageComposition) => locale(a.constant, b.constant)
  }

  method BuildMessageCompositions(ms: seq<Message>, d: TypeDict, t: Target, catalog: seq<CatalogEntry>,
                                  roles: Warnings.Roles, maxDepth: nat, locale: (string, string) -> bool)
    returns (out: seq<MessageComposition>)
    ensures var otherCatalog := Catalog(EnvOf(d), Other(t), d.structs, None);
            out == SortBy(ByConstant(locale), RowsOf(ms, t, catalog, otherCatalog, roles, maxDepth))
  {
    var engine := new LayoutEngine();
    var otherCatalog := engine.BuildStructCatalog(d, Other(t), None);
    out := [];
    for i := 0 to |ms|
      invariant out == RowsOf(ms[..i], t, catalog, otherCatalog, roles, maxDepth)
    {
      assert ms[..i + 1][..i] == ms[..i];
      var row := BuildRow(ms[i], t, catalog, otherCatalog, roles, maxDepth);
      if row.Some? { out := out + [row.value]; }
    }
    assert ms[..|ms|] == ms;
    out := SortBy(ByConstant(locale), out);
  }

  method BuildRow(m: Message, t: Target, catalog: seq<CatalogEntry>, otherCatalog: seq<CatalogEntry>,
                  roles: Warnings.Roles, maxDepth: nat) returns (row: Option<MessageComposition>)
    ensures row == RowOf(m, t, catalog, otherCatalog, roles, maxDepth)
  {
    if m.root.None? { return None; }
    var root := m.root.value;
    var here, there := LayoutOf(catalog, root), LayoutOf(otherCatalog, root);
    if here.None? { return None; }
    var collector := new Warnings.Collector();
    var pointers, arrays, order := collector.Collect(roles, root);
    var parts := ExpandStruct(catalog, root, 0, maxDepth, {root}, 0);
    row := Some(Compose(m, root, t, here.value, there, parts, pointers, arrays));
  }

  // ---- Both targets, whichever is rendered ----------------------------------------------

  lemma {:induction false} LayoutOnBoth(env: Env, structs: seq<Struct>, override: Option<nat>, name: string)
    ensures Listed(Catalog(env, Bits32, structs, override), name) == Listed(Catalog(env, Bits64, structs, override), name)
  {
    if structs != [] {
      var n := |structs| - 1;
      LayoutOnBoth(env, structs[..n], override, name);
      ListedNext(env, Bits32, structs, override, name);
      ListedNext(env, Bits64, structs, override, name);
    }
  }

  lemma {:induction false} ListedNext(env: Env, t: Target, structs: seq<Struct>, override: Option<nat>, name: string)
    requires structs != []
    ensures var n := |structs| - 1;
            Listed(Catalog(env, t, structs, override), name)
              == (Listed(Catalog(env, t, structs[..n], override), name)
                  || (structs[n].fields != [] && structs[n].name == name))
  {
    var n := |structs| - 1;
    LayoutOfAppend(Catalog(env, t, structs[..n], override),
                   CatalogEntry(structs[n].name, Standalone(env, t, structs[n], override), structs[n].pack), name);
  }

  /** A message's row when the render catalog and the other one are both built from `env`. */
  ghost function RowFrom(env: Env, t: Target, m: Message, roles: Warnings.Roles, maxDepth: nat): Option<MessageComposition> {
    RowOf(m, t, Catalog(env, t, env.dict.structs, None), Catalog(env, Other(t), env.dict.structs, None), roles, maxDepth)
  }

  /** Two rows that differ in the rendered tree only. */
  ghost predicate SameNumbers(a: Option<MessageComposition>, b: Option<MessageComposition>) {
    && (a.Some? <==> b.Some?)
    && (a.Some? ==>
          && a.value.size == b.value.size && a.value.padding == b.value.padding && a.value.differs == b.value.differs
          && a.value.pointerWarnings == b.value.pointerWarnings
          && a.value.variableArrayWarnings == b.value.variableArrayWarnings)
  }

  /**
   * Rendering for the other target drops or keeps the same messages and reports the same sizes, the
   * same padding, the same portability flag and the same hazards.
   */
  lemma SizesIndependentOfRendering(env: Env, m: Message, roles: Warnings.Roles, maxDepth: nat)
    ensures SameNumbers(RowFrom(env, Bits32, m, roles, maxDepth), RowFrom(env, Bits64, m, roles, maxDepth))
  {
    if m.root.Some? {
      LayoutOnBoth(env, env.dict.structs, None, m.root.value);
    }
    SwappedCatalogs(m, Catalog(env, Bits32, env.dict.structs, None), Catalog(env, Bits64, env.dict.structs, None),
                    roles, maxDepth);
  }

  lemma SwappedCatalogs(m: Message, narrow: seq<CatalogEntry>, wide: seq<CatalogEntry>,
                        roles: Warnings.Roles, maxDepth: nat)
    requires m.root.Some? ==> Listed(narrow, m.root.value) == Listed(wide, m.root.value)
    ensures SameNumbers(RowOf(m, Bits32, narrow, wide, roles, maxDepth), RowOf(m, Bits64, wide, narrow, roles, maxDepth))
  {
    if m.root.Some? && Listed(narrow, m.root.value) {
      var x, y := LayoutOf(narrow, m.root.value).value, LayoutOf(wide, m.root.value).value;
      assert map[Bits32 := x.total, Bits64 := y.total] == map[Bits64 := y.total, Bits32 := x.total];
      assert map[Bits32 := x.padding, Bits64 := y.padding] == map[Bits64 := y.padding, Bits32 := x.padding];
    }
  }

  lemma {:induction false} LayoutLeAt(a: seq<CatalogEntry>, b: seq<CatalogEntry>, name: string)
    requires |a| == |b| && forall i :: 0 <= i < |a| ==> EntryLe(a[i], b[i])
    ensures LayoutOf(a, name).Some? <==> LayoutOf(b, name).Some?
    ensures LayoutOf(a, name).Some? ==> LayoutLe(LayoutOf(a, name).value, LayoutOf(b, name).value)
  {
    if a != [] { LayoutLeAt(a[1..], b[1..], name); }
  }

  /** A reported 32-bit size never exceeds the 64-bit one, and both targets agree on the estimate flag. */
  lemma ReportedSizesOrdered(env: Env, t: Target, m: Message, roles: Warnings.Roles, maxDepth: nat)
    requires WellPacked(env.dict)
    ensures var row := RowFrom(env, t, m, roles, maxDepth);
            row.Some? ==>
              && Bits32 in row.value.size && Bits64 in row.value.size
              && row.value.size[Bits32] <= row.value.size[Bits64]
              && RowFrom(env, Other(t), m, roles, maxDepth).Some?
              && row.value.estimated == RowFrom(env, Other(t), m, roles, maxDepth).value.estimated
  {
    if m.root.Some? {
      CatalogsAligned(env, env.dict.structs, None);
      LayoutLeAt(Catalog(env, Bits32, env.dict.structs, None), Catalog(env, Bits64, env.dict.structs, None), m.root.value);
    }
  }

  /** The sizes a row reports are the bytes its tree covers: each of them once, none beyond. */
  lemma {:induction false} ReportedSizeIsCovered(env: Env, t: Target, m: Message, s: Struct, roles: Warnings.Roles,
                                                 maxDepth: nat, b: nat)
    requires Acyclic(env) && UniqueNames(env.dict.structs) && NoEmptyMembers(env)
    requires s in env.dict.structs && m.root == Some(s.name)
    ensures var row := RowFrom(env, t, m, roles, maxDepth);
            && (row.Some? <==> s.fields != [])
            && (row.Some? ==>
                  && t in row.value.size
                  && PartsAt(Leaves(row.value.parts), b) == if b < row.value.size[t] then 1 else 0)
  {
    if s.fields == [] {
      MemberlessUnlisted(env, t, s);
      return;
    }
    var catalog := Catalog(env, t, env.dict.structs, None);
    CatalogConsistent(env, t);
    CatalogLookup(env, t, env.dict.structs, None, s.name);
    RowCovered(m, t, catalog, Catalog(env, Other(t), env.dict.structs, None), roles, maxDepth, b);
  }

  lemma {:induction false} RowCovered(m: Message, t: Target, catalog: seq<CatalogEntry>, otherCatalog: seq<CatalogEntry>,
                                      roles: Warnings.Roles, maxDepth: nat, b: nat)
    requires Consistent(catalog) && m.root.Some? && Listed(catalog, m.root.value)
    ensures var row := RowOf(m, t, catalog, otherCatalog, roles, maxDepth);
            && row.Some? && t in row.value.size
            && PartsAt(Leaves(row.value.parts), b) == if b < row.value.size[t] then 1 else 0
  {
    ByteInOneLeaf(catalog, m.root.value, maxDepth, {m.root.value}, b);
  }

  // ---- What each row says -----------------------------------------------------------------------

  /** Struct `i` is the first of that name with members. */
  ghost predicate FirstNamed(structs: seq<Struct>, i: nat, name: string) {
    && i < |structs| && structs[i].name == name && structs[i].fields != []
    && forall j :: 0 <= j < i ==> structs[j].name != name || structs[j].fields == []
  }

  function First(structs: seq<Struct>, name: string): Option<Struct> {
    if structs == [] then None
    else
      var so, last := First(structs[..|structs| - 1], name), structs[|structs| - 1];
      if so.Some? then so else if last.fields != [] && last.name == name then Some(last) else None
  }

  lemma {:induction false} FirstIs(structs: seq<Struct>, name: string, i: nat)
    ensures FirstNamed(structs, i, name) ==> First(structs, name) == Some(structs[i])
    ensures First(structs, name) == None
      <==> forall j :: 0 <= j < |structs| ==> structs[j].name != name || structs[j].fields == []
  {
    if structs != [] {
      var n := |structs| - 1;
      FirstIs(structs[..n], name, i);
      if FirstNamed(structs, i, name) && i < n { assert FirstNamed(structs[..n], i, name); }
    }
  }

  /** A name is looked up as the first struct of that name with members. */
  lemma {:induction false} LookupFirst(env: Env, t: Target, structs: seq<Struct>, name: string)
    ensures var s := First(structs, name);
            LayoutOf(Catalog(env, t, structs, None), name)
              == if s.Some? then Some(Standalone(env, t, s.value, None)) else None
  {
    if structs != [] {
      LookupFirst(env, t, structs[..|structs| - 1], name);
      LookupNext(env, t, structs, name);
    }
  }

  lemma LookupNext(env: Env, t: Target, structs: seq<Struct>, name: string)
    requires structs != []
    ensures var n := |structs| - 1;
            LayoutOf(Catalog(env, t, structs, None), name)
              == if LayoutOf(Catalog(env, t, structs[..n], None), name).Some?
                 then LayoutOf(Catalog(env, t, structs[..n], None), name)
                 else if structs[n].fields != [] && structs[n].name == name
                 then Some(Standalone(env, t, structs[n], None)) else None
  {
    var n := |structs| - 1;
    LayoutOfAppend(Catalog(env, t, structs[..n], None),
                   CatalogEntry(structs[n].name, Standalone(env, t, structs[n], None), structs[n].pack), name);
  }

  /** The row's numbers are those of the two layouts, whichever target is rendered. */
  ghost predicate Reports(m: Message, name: string, t: Target, narrow: StructLayout, wide: StructLayout,
                          row: MessageComposition)
  {
    && row.constant == m.constant && row.rootStruct == name
    && row.size == map[Bits32 := narrow.total, Bits64 := wide.total]
    && row.padding == map[Bits32 := narrow.padding, Bits64 := wide.padding]
    && (row.differs <==> narrow.total != wide.total)
    && (row.estimated <==> if t == Bits32 then narrow.estimated else wide.estimated)
  }

  ghost predicate ReportsStruct(env: Env, t: Target, m: Message, name: string, i: nat, row: MessageComposition) {
    && FirstNamed(env.dict.structs, i, name)
    && Reports(m, name, t, Standalone(env, Bits32, env.dict.structs[i], None),
               Standalone(env, Bits64, env.dict.structs[i], None), row)
  }

  ghost predicate HasRow(env: Env, t: Target, m: Message, row: Option<MessageComposition>) {
    match row
    case Some(r) => m.root.Some? && exists i: nat :: ReportsStruct(env, t, m, m.root.value, i, r)
    case None => m.root.Some? ==> forall s :: s in env.dict.structs && s.name == m.root.value ==> s.fields == []
  }

  /**
   * A message has a row exactly if its struct is known and some struct of that name has members; the
   * row reports the sizes and paddings of the first such struct laid out for either target, whether
   * its sizes differ, and whether the rendered layout is an estimate.
   */
  lemma {:induction false} RowExactly(env: Env, t: Target, m: Message, roles: Warnings.Roles, maxDepth: nat)
    ensures HasRow(env, t, m, RowFrom(env, t, m, roles, maxDepth))
  {
    if m.root.Some? {
      var structs, name := env.dict.structs, m.root.value;
      if s :| s in structs && s.name == name && s.fields != [] {
        var i := FirstOf(structs, name, s);
        RowOfFirst(env, t, m, roles, maxDepth, i);
      } else {
        assert forall j :: 0 <= j < |structs| ==> structs[j] in structs;
        FirstIs(structs, name, 0);
        LookupFirst(env, t, structs, name);
      }
    }
  }

  lemma {:induction false} RowOfFirst(env: Env, t: Target, m: Message, roles: Warnings.Roles, maxDepth: nat, i: nat)
    requires m.root.Some? && FirstNamed(env.dict.structs, i, m.root.value)
    ensures var row := RowFrom(env, t, m, roles, maxDepth);
            row.Some? && ReportsStruct(env, t, m, m.root.value, i, row.value)
  {
    var structs, name := env.dict.structs, m.root.value;
    FirstIs(structs, name, i);
    LookupFirst(env, t, structs, name);
    LookupFirst(env, Other(t), structs, name);
    Reported(m, name, t, Standalone(env, Bits32, structs[i], None), Standalone(env, Bits64, structs[i], None),
             RowFrom(env, t, m, roles, maxDepth).value);
  }

  lemma {:induction false} FirstOf(structs: seq<Struct>, name: string, s: Struct) returns (i: nat)
    requires s in structs && s.name == name && s.fields != []
    ensures FirstNamed(structs, i, name)
  {
    i := 0;
    while structs[i].name != name || structs[i].fields == []
      invariant i < |structs| && s in structs[i..]
      invariant forall j :: 0 <= j < i ==> structs[j].name != name || structs[j].fields == []
      decreases |structs| - i
    {
      assert structs[i..] == [structs[i]] + structs[i + 1..];
      i := i + 1;
    }
  }

  lemma Reported(m: Message, name: string, t: Target, narrow: StructLayout, wide: StructLayout, row: MessageComposition)
    requires var here, there := if t == Bits32 then narrow else wide, if t == Bits32 then wide else narrow;
             row == Compose(m, name, t, here, Some(there), row.parts, row.pointerWarnings, row.variableArrayWarnings)
    ensures Reports(m, name, t, narrow, wide, row)
  {
  }

  // ---- The whole list ---------------------------------------------------------------------------

  lemma {:induction false} RowsHold(ms: seq<Message>, t: Target, catalog: seq<CatalogEntry>,
                                    otherCatalog: seq<CatalogEntry>, roles: Warnings.Roles, maxDepth: nat, r: MessageComposition)
    ensures r in RowsOf(ms, t, catalog, otherCatalog, roles, maxDepth)
      <==> exists m :: m in ms && RowOf(m, t, catalog, otherCatalog, roles, maxDepth) == Some(r)
  {
    if ms != [] {
      RowsHold(ms[..|ms| - 1], t, catalog, otherCatalog, roles, maxDepth, r);
      assert ms == ms[..|ms| - 1] + [ms[|ms| - 1]];
    }
  }

  /** The report holds the messages' rows, no row before one whose constant sorts earlier. */
  lemma {:induction false} ReportSorted(ms: seq<Message>, t: Target, catalog: seq<CatalogEntry>,
                                        otherCatalog: seq<CatalogEntry>, roles: Warnings.Roles, maxDepth: nat,
                                        locale: (string, string) -> bool)
    requires TotalOrder(locale)
    ensures var rows := RowsOf(ms, t, catalog, otherCatalog, roles, maxDepth);
            var out := SortBy(ByConstant(locale), rows);
            && multiset(out) == multiset(rows)
            && forall i, j :: 0 <= i < j < |out| ==> !locale(out[j].constant, out[i].constant)
  {
    var less, rows := ByConstant(locale), RowsOf(ms, t, catalog, otherCatalog, roles, maxDepth);
    forall x, y, z ensures !(less(x, y) && less(y, x)) && (less(x, z) ==> less(x, y) || less(y, z)) {
      assert !(locale(x.constant, y.constant) && locale(y.constant, x.constant));
      if less(x, z) && x.constant != y.constant && !less(x, y) {
        assert locale(y.constant, x.constant) && locale(x.constant, z.constant);
      }
    }
    SortNoneLate(less, rows);
    var out := SortBy(less, rows);
    forall i, j | 0 <= i < j < |out| ensures !locale(out[j].constant, out[i].constant) {
      assert !less(out[j], out[i]);
    }
  }
}
