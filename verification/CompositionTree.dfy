/** The whole expanded tree: every level tiles the block above it, down to the leaves. */
module CompositionTree {
  import opened Alignment
  import opened TypeDictionary
  import opened Layout
  import opened Placement
  import opened Containment
  import opened Composition

  /** The member is no array of extent zero and embeds no struct without members. */
  predicate HasBytes(env: Env, f: Field) {
    && (f.parsed.bitWidth.None? ==> f.parsed.arr != Fixed(0))
    && (Child(env, f).Some? ==> Child(env, f).value.fields != [])
  }

  /** Every member has bytes. Structs without members may be declared, as long as none is embedded. */
  ghost predicate NoEmptyMembers(env: Env) {
    forall s, i :: s in env.dict.structs && 0 <= i < |s.fields| ==> HasBytes(env, s.fields[i])
  }

  // ---- Looking a struct up in the catalog ----------------------------------------

  lemma {:induction false} LayoutOfAppend(catalog: seq<CatalogEntry>, e: CatalogEntry, name: string)
    ensures LayoutOf(catalog + [e], name)
      == if LayoutOf(catalog, name).Some? then LayoutOf(catalog, name)
         else if e.name == name then Some(e.layout) else None
  {
    if catalog != [] {
      LayoutOfAppend(catalog[1..], e, name);
      assert (catalog + [e])[1..] == catalog[1..] + [e];
    }
  }

  lemma {:induction false} CatalogLookup(env: Env, t: Target, structs: seq<Struct>, override: Option<nat>, name: string)
    requires UniqueNames(structs)
    ensures var found := LayoutOf(Catalog(env, t, structs, override), name);
            && (found.Some? ==> exists s :: s in structs && s.name == name && s.fields != [])
            && ((forall s :: s in structs && s.fields != [] ==> s.name != name) ==> found.None?)
            && forall s :: s in structs && s.name == name && s.fields != []
                 ==> found == Some(Standalone(env, t, s, override))
  {
    if structs != [] {
      var n := |structs| - 1;
      var init, last := structs[..n], structs[n];
      assert structs == init + [last];
      CatalogLookup(env, t, init, override, name);
      LayoutOfAppend(Catalog(env, t, init, override),
                     CatalogEntry(last.name, Standalone(env, t, last, override), last.pack), name);
    }
  }

  // ---- Positive sizes --------------------------------------------------------------

  lemma ProductPositive(a: nat, b: nat)
    requires a > 0 && b > 0
    ensures a * b > 0
  {
  }

  lemma {:induction false} SlotPositive(env: Env, t: Target, s: Struct, i: nat, guard: set<string>)
    requires NoEmptyMembers(env) && s in env.dict.structs && i < |s.fields|
    ensures SlotFrom(s.fields[i], ElementOf(env, t, s.fields[i], guard)).size > 0
    decreases Names(env.dict) - guard, 0
  {
    var f := s.fields[i];
    assert HasBytes(env, f);
    var child := Child(env, f);
    if child.Some? && child.value.name !in guard {
      var n := child.value;
      assert n.name in Names(env.dict);
      TotalPositive(env, t, n, NestedPack(n, t), guard + {n.name});
    }
    var e := ElementOf(env, t, f, guard);
    assert e.size > 0;
    if f.parsed.bitWidth.None? && f.parsed.arr.Fixed? { ProductPositive(e.size, f.parsed.arr.length); }
  }

  lemma {:induction false} TotalPositive(env: Env, t: Target, s: Struct, pack: nat, guard: set<string>)
    requires NoEmptyMembers(env) && s in env.dict.structs && s.fields != []
    ensures Internal(env, t, s, pack, guard).total > 0
    decreases Names(env.dict) - guard, 1
  {
    var slots, last := Slots(env, t, s.fields, guard), |s.fields| - 1;
    SlotPositive(env, t, s, last, guard);
    SlotAt(env, t, s.fields, guard, last);
    assert Place(slots, pack).offset >= slots[last].size;
  }

  // ---- The tree --------------------------------------------------------------------

  /** Bytes of one array element, or of the block itself when it is not a counted array. */
  function ElementSize(p: Part): nat
    requires p.Block?
  {
    if p.arrayLength.Some? && p.arrayLength.value > 0 then p.size / p.arrayLength.value else p.size
  }

  function Count(p: Part): nat
    requires p.Block?
  {
    if p.arrayLength.Some? then p.arrayLength.value else 1
  }

  ghost predicate WellTiled(parts: seq<Part>, lo: nat, hi: nat)
    decreases parts
  {
    Tiles(parts, lo, hi) && forall i :: 0 <= i < |parts| ==> BlockTiled(parts[i])
  }

  /** An expanded block is a whole number of elements, and its children tile the first of them. */
  ghost predicate BlockTiled(p: Part)
    decreases p
  {
    p.Block? && p.children != [] ==>
      ElementSize(p) * Count(p) == p.size && WellTiled(p.children, p.offset, p.offset + ElementSize(p))
  }

  lemma {:induction false} FieldPartAt(catalog: seq<CatalogEntry>, fields: seq<FieldLayout>, depth: nat, maxDepth: nat,
                                       seen: set<string>, base: nat, i: nat)
    requires i < |fields|
    ensures FieldParts(catalog, fields, depth, maxDepth, seen, base)[i]
      == FieldPart(catalog, fields[i], depth, maxDepth, seen, base)
  {
    if i < |fields| - 1 { FieldPartAt(catalog, fields[..|fields| - 1], depth, maxDepth, seen, base, i); }
  }

  function Length(f: FieldLayout): nat { if f.arrayLength.Some? then f.arrayLength.value else 1 }

  /** The row has bytes, and an embedded struct has the size its own catalog entry gives it. */
  ghost predicate RowAgrees(catalog: seq<CatalogEntry>, f: FieldLayout) {
    && f.size > 0 && Length(f) > 0
    && (f.structType.Some? ==>
          var inner := LayoutOf(catalog, f.structType.value);
          inner.Some? && f.size == inner.value.total * Length(f))
  }

  ghost predicate Placed(l: StructLayout) {
    exists slots, pack :: l == Finish(Place(slots, pack))
  }

  /** A catalog whose entries were placed by the engine and whose rows agree with one another. */
  ghost predicate Consistent(catalog: seq<CatalogEntry>) {
    forall name :: Listed(catalog, name) ==> EntryAgrees(catalog, name)
  }

  predicate Listed(catalog: seq<CatalogEntry>, name: string) { LayoutOf(catalog, name).Some? }

  ghost predicate EntryAgrees(catalog: seq<CatalogEntry>, name: string)
    requires Listed(catalog, name)
  {
    Placed(LayoutOf(catalog, name).value) && RowsAgree(catalog, LayoutOf(catalog, name).value)
  }

  ghost predicate RowsAgree(catalog: seq<CatalogEntry>, l: StructLayout) {
    forall i :: 0 <= i < |l.fields| ==> RowAgrees(catalog, l.fields[i])
  }

  /** Row `i` of a standalone layout carries the size and type of member `i`'s slot. */
  lemma {:induction false} RowIsSlot(env: Env, t: Target, s: Struct, i: nat)
    requires i < |s.fields|
    ensures var l := Standalone(env, t, s, None);
            var slot := SlotFrom(s.fields[i], ElementOf(env, t, s.fields[i], {s.name}));
            && |l.fields| == |s.fields|
            && l.fields[i].size == slot.size
            && l.fields[i].structType == slot.structType && l.fields[i].arrayLength == slot.arrayLength
  {
    SlotAt(env, t, s.fields, {s.name}, i);
    FieldAt(Slots(env, t, s.fields, {s.name}), NestedPack(s, t), i);
  }

  lemma SlotSize(f: Field, e: Element)
    ensures var s := SlotFrom(f, e);
            s.structType.Some? ==>
              s.structType == e.structType
              && s.size == e.size * (if s.arrayLength.Some? then s.arrayLength.value else 1)
  {
  }

  /** A member that carries a struct type embeds that struct by value. */
  lemma {:induction false} OnlyChildrenAreTyped(env: Env, t: Target, f: Field, guard: set<string>)
    ensures SlotFrom(f, ElementOf(env, t, f, guard)).structType.Some? ==> Child(env, f).Some?
  {
  }

  /** An embedded struct's row agrees with the standalone layout of that struct. */
  lemma RowSize(env: Env, t: Target, s: Struct, i: nat)
    requires Acyclic(env) && s in env.dict.structs && i < |s.fields|
    requires i < |Standalone(env, t, s, None).fields| && Standalone(env, t, s, None).fields[i].structType.Some?
    ensures var f := Standalone(env, t, s, None).fields[i];
            && Child(env, s.fields[i]).Some?
            && f.structType.value == Child(env, s.fields[i]).value.name
            && f.size == Standalone(env, t, Child(env, s.fields[i]).value, None).total * Length(f)
  {
    RowIsSlot(env, t, s, i);
    OnlyChildrenAreTyped(env, t, s.fields[i], {s.name});
    assert NamesOf([s]) == {s.name};
    NestedAgreesWithCatalog(env, t, [s], i);
    SlotSize(s.fields[i], ElementOf(env, t, s.fields[i], {s.name}));
  }

  lemma RowCount(env: Env, t: Target, s: Struct)
    ensures |Standalone(env, t, s, None).fields| == |s.fields|
  {
  }

  lemma RowPositive(env: Env, t: Target, s: Struct, i: nat)
    requires NoEmptyMembers(env) && s in env.dict.structs && i < |s.fields|
    ensures |Standalone(env, t, s, None).fields| == |s.fields|
    ensures var f := Standalone(env, t, s, None).fields[i]; f.size > 0 && Length(f) > 0
  {
    assert HasBytes(env, s.fields[i]);
    RowIsSlot(env, t, s, i);
    SlotPositive(env, t, s, i, {s.name});
  }

  /** The catalog of an acyclic dictionary with unique names and no empty members is consistent. */
  lemma {:induction false} CatalogConsistent(env: Env, t: Target)
    requires Acyclic(env) && UniqueNames(env.dict.structs) && NoEmptyMembers(env)
    ensures Consistent(Catalog(env, t, env.dict.structs, None))
  {
    var structs := env.dict.structs;
    var catalog := Catalog(env, t, structs, None);
    forall name | Listed(catalog, name) ensures EntryAgrees(catalog, name) {
      CatalogLookup(env, t, structs, None, name);
      var s :| s in structs && s.name == name && s.fields != [];
      StandalonePlaced(env, t, s);
      StandaloneAgrees(env, t, s);
    }
  }

  lemma StandalonePlaced(env: Env, t: Target, s: Struct)
    ensures Placed(Standalone(env, t, s, None))
  {
    assert Standalone(env, t, s, None) == Finish(Place(Slots(env, t, s.fields, {s.name}), NestedPack(s, t)));
  }

  lemma {:induction false} StandaloneAgrees(env: Env, t: Target, s: Struct)
    requires Acyclic(env) && UniqueNames(env.dict.structs) && NoEmptyMembers(env) && s in env.dict.structs
    ensures RowsAgree(Catalog(env, t, env.dict.structs, None), Standalone(env, t, s, None))
  {
    var l := Standalone(env, t, s, None);
    RowCount(env, t, s);
    forall i | 0 <= i < |l.fields| ensures RowAgrees(Catalog(env, t, env.dict.structs, None), l.fields[i]) {
      StandaloneRowAgrees(env, t, s, i);
    }
  }

  lemma {:induction false} StandaloneRowAgrees(env: Env, t: Target, s: Struct, i: nat)
    requires Acyclic(env) && UniqueNames(env.dict.structs) && NoEmptyMembers(env) && s in env.dict.structs
    requires i < |s.fields|
    ensures |Standalone(env, t, s, None).fields| == |s.fields|
    ensures RowAgrees(Catalog(env, t, env.dict.structs, None), Standalone(env, t, s, None).fields[i])
  {
    RowPositive(env, t, s, i);
    assert HasBytes(env, s.fields[i]);
    if Standalone(env, t, s, None).fields[i].structType.Some? {
      RowSize(env, t, s, i);
      CatalogLookup(env, t, env.dict.structs, None, Standalone(env, t, s, None).fields[i].structType.value);
    }
  }

  lemma DivideBack(a: nat, n: nat)
    requires n > 0
    ensures (a * n) / n == a
  {
    var x := a * n;
    assert x == (x / n) * n + x % n;
    SmallProduct(a - x / n, n);
    assert (a - x / n) * n == x % n;
  }

  lemma BlockTiledFrom(p: Part, element: nat)
    requires p.Block? && Count(p) > 0 && p.size == element * Count(p)
    requires p.children != [] ==> WellTiled(p.children, p.offset, p.offset + element)
    ensures BlockTiled(p)
  {
    DivideBack(element, Count(p));
    assert ElementSize(p) == element;
  }

  lemma {:induction false} BlockExpands(catalog: seq<CatalogEntry>, f: FieldLayout, depth: nat, maxDepth: nat,
                                        seen: set<string>, base: nat)
    requires Consistent(catalog) && RowAgrees(catalog, f)
    ensures var p := FieldPart(catalog, f, depth, maxDepth, seen, base);
            BlockTiled(p) && !p.Padding? && p.offset == base + f.offset && p.size == f.size
    decreases LevelsLeft(depth, maxDepth), 0
  {
    var p := FieldPart(catalog, f, depth, maxDepth, seen, base);
    if p.Block? {
      if p.children != [] {
        TreeTiles(catalog, p.typeName, depth + 1, maxDepth, seen + {p.typeName}, base + f.offset);
      }
      BlockTiledFrom(p, LayoutOf(catalog, p.typeName).value.total);
    }
  }

  lemma {:induction false} LevelExpands(catalog: seq<CatalogEntry>, l: StructLayout, depth: nat, maxDepth: nat,
                                        seen: set<string>, base: nat)
    requires Consistent(catalog) && RowsAgree(catalog, l)
    ensures var parts := FieldParts(catalog, l.fields, depth, maxDepth, seen, base);
            Renders(parts, l.fields, base) && forall i :: 0 <= i < |parts| ==> BlockTiled(parts[i])
    decreases LevelsLeft(depth, maxDepth), 1
  {
    var parts := FieldParts(catalog, l.fields, depth, maxDepth, seen, base);
    forall i | 0 <= i < |parts|
      ensures BlockTiled(parts[i]) && parts[i].size == l.fields[i].size
      ensures !parts[i].Padding? && parts[i].offset == base + l.fields[i].offset
    {
      FieldPartAt(catalog, l.fields, depth, maxDepth, seen, base, i);
      BlockExpands(catalog, l.fields[i], depth, maxDepth, seen, base);
    }
  }

  /**
   * Over a consistent catalog the expanded tree tiles its struct at every level: each level's parts
   * follow one another without hole or overlap, and the children of a block tile the block, or its
   * first element when it is an array, at any depth cap and with any set of names already seen.
   */
  lemma {:induction false} TreeTiles(catalog: seq<CatalogEntry>, name: string, depth: nat, maxDepth: nat,
                                     seen: set<string>, base: nat)
    requires Consistent(catalog) && Listed(catalog, name)
    ensures WellTiled(PartsOf(catalog, name, depth, maxDepth, seen, base),
                      base, base + LayoutOf(catalog, name).value.total)
    decreases LevelsLeft(depth, maxDepth), 2
  {
    var l := LayoutOf(catalog, name).value;
    LevelExpands(catalog, l, depth, maxDepth, seen, base);
    var parts := FieldParts(catalog, l.fields, depth, maxDepth, seen, base);
    assert forall i :: 0 <= i < |parts| ==> RowAgrees(catalog, l.fields[i]) && parts[i].size == l.fields[i].size;
    LevelWellTiled(l, parts, base);
  }

  lemma {:induction false} LevelWellTiled(l: StructLayout, parts: seq<Part>, base: nat)
    requires Placed(l) && Renders(parts, l.fields, base)
    requires forall i :: 0 <= i < |parts| ==> BlockTiled(parts[i]) && parts[i].size > 0
    ensures WellTiled(SortParts(parts + GapParts(l.gaps, base)), base, base + l.total)
  {
    var slots, pack :| l == Finish(Place(slots, pack));
    LevelTilesExactly(slots, pack, l, parts, base);
    SortedBlocks(parts, l.gaps, base);
  }

  lemma {:induction false} SortedBlocks(parts: seq<Part>, gaps: seq<Gap>, base: nat)
    requires forall i :: 0 <= i < |parts| ==> BlockTiled(parts[i])
    ensures var sorted := SortParts(parts + GapParts(gaps, base));
            forall i :: 0 <= i < |sorted| ==> BlockTiled(sorted[i])
  {
    var sorted := SortParts(parts + GapParts(gaps, base));
    SortSorts(parts + GapParts(gaps, base));
    forall i | 0 <= i < |sorted| ensures BlockTiled(sorted[i]) {
      assert sorted[i] in multiset(sorted);
      var k :| 0 <= k < |parts + GapParts(gaps, base)| && (parts + GapParts(gaps, base))[k] == sorted[i];
      if k >= |parts| { GapPartAt(gaps, base, k - |parts|); }
    }
  }

  // ---- Leaves ----------------------------------------------------------------------

  /** The tree read at its finest: arrays of structs count as one leaf, other blocks are opened. */
  function Leaves(parts: seq<Part>): seq<Part>
    decreases parts
  {
    if parts == [] then []
    else Leaves(parts[..|parts| - 1]) + LeavesOf(parts[|parts| - 1])
  }

  function LeavesOf(p: Part): seq<Part>
    decreases p
  {
    if p.Block? && p.children != [] && p.arrayLength.None? then Leaves(p.children) else [p]
  }

  lemma {:induction false} LeavesTile(parts: seq<Part>, lo: nat, hi: nat)
    requires WellTiled(parts, lo, hi)
    ensures Tiles(Leaves(parts), lo, hi)
    decreases parts
  {
    if parts != [] {
      var n := |parts| - 1;
      var last := parts[n];
      assert BlockTiled(last);
      assert forall i :: 0 <= i < n ==> parts[..n][i] == parts[i];
      LeavesTile(parts[..n], lo, last.offset);
      if last.Block? && last.children != [] && last.arrayLength.None? {
        LeavesTile(last.children, last.offset, last.offset + last.size);
      } else {
        assert Tiles([last], last.offset, hi) by { assert [last][..0] == []; }
      }
      TilesJoin(Leaves(parts[..n]), LeavesOf(last), lo, last.offset, hi);
    }
  }

  lemma {:induction false} ByteInOneLeaf(catalog: seq<CatalogEntry>, name: string, maxDepth: nat, seen: set<string>, b: nat)
    requires Consistent(catalog) && Listed(catalog, name)
    ensures PartsAt(Leaves(PartsOf(catalog, name, 0, maxDepth, seen, 0)), b)
      == if b < LayoutOf(catalog, name).value.total then 1 else 0
  {
    TreeTiles(catalog, name, 0, maxDepth, seen, 0);
    var tree, total := PartsOf(catalog, name, 0, maxDepth, seen, 0), LayoutOf(catalog, name).value.total;
    LeavesTile(tree, 0, total);
    TilesCoverOnce(Leaves(tree), 0, total, b);
  }

  /**
   * Every byte of a message lies in exactly one leaf of its expanded tree, and no leaf reaches
   * beyond the message: for every acyclic dictionary with unique names whose members have bytes. A
   * struct without members has no bytes, no catalog entry and no parts.
   */
  lemma {:induction false} EveryByteInOneLeaf(env: Env, t: Target, s: Struct, maxDepth: nat, b: nat)
    requires Acyclic(env) && UniqueNames(env.dict.structs) && NoEmptyMembers(env)
    requires s in env.dict.structs
    ensures var tree := PartsOf(Catalog(env, t, env.dict.structs, None), s.name, 0, maxDepth, {s.name}, 0);
            PartsAt(Leaves(tree), b) == if b < Standalone(env, t, s, None).total then 1 else 0
  {
    CatalogConsistent(env, t);
    CatalogLookup(env, t, env.dict.structs, None, s.name);
    if s.fields == [] {
      MemberlessUnlisted(env, t, s);
    } else {
      ByteInOneLeaf(Catalog(env, t, env.dict.structs, None), s.name, maxDepth, {s.name}, b);
    }
  }

  lemma {:induction false} MemberlessUnlisted(env: Env, t: Target, s: Struct)
    requires UniqueNames(env.dict.structs) && s in env.dict.structs && s.fields == []
    ensures LayoutOf(Catalog(env, t, env.dict.structs, None), s.name) == None
    ensures Standalone(env, t, s, None).total == 0
  {
    CatalogLookup(env, t, env.dict.structs, None, s.name);
    assert Standalone(env, t, s, None) == Finish(Place([], NestedPack(s, t)));
  }
}
