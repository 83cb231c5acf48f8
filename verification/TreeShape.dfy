/** How far a message's tree goes: which structs it shows, and what is inside each block. */
module TreeShape {
  import opened Alignment
  import opened TypeDictionary
  import opened Layout
  import opened Composition
  import opened CompositionTree
  import opened TreeWarnings

  // ---- Which structs occur ---------------------------------------------------------------------

  /** Struct `a` shows `b` as a block. */
  ghost function Shows(env: Env): (Struct, Struct) -> bool {
    (a, b) => a in env.dict.structs && b in env.dict.structs && EmbedsBlock(env, a, b)
  }

  /** Structs that each show the next as a block. */
  ghost predicate Chain(shows: (Struct, Struct) -> bool, w: seq<Struct>) {
    |w| >= 2 && forall k :: 0 < k < |w| ==> shows(w[k - 1], w[k])
  }

  /** Apart from its first and last struct, the chain repeats no name and avoids those in `seen`. */
  ghost predicate Expandable(w: seq<Struct>, seen: set<string>) {
    && (forall k :: 0 < k < |w| - 1 ==> w[k].name !in seen)
    && (forall j, k :: 0 < j < k < |w| - 1 ==> w[j].name != w[k].name)
  }

  ghost predicate LeadsTo(shows: (Struct, Struct) -> bool, w: seq<Struct>, s: Struct, name: string, steps: nat,
                          seen: set<string>)
  {
    Chain(shows, w) && Expandable(w, seen) && w[0] == s && w[|w| - 1].name == name && |w| - 1 <= steps
  }

  /** Some chain leads there from the root in so many steps at most. */
  ghost predicate ReachedWithin(env: Env, s: Struct, name: string, steps: nat) {
    exists w :: LeadsTo(Shows(env), w, s, name, steps, {s.name})
  }

  lemma {:induction false} ChainGrows(shows: (Struct, Struct) -> bool, s: Struct, w: seq<Struct>, name: string,
                                      steps: nat, seen: set<string>)
    requires |w| >= 2 && shows(s, w[0])
    requires w[0].name !in seen && LeadsTo(shows, w, w[0], name, steps, seen + {w[0].name})
    ensures LeadsTo(shows, [s] + w, s, name, steps + 1, seen)
  {
    forall k | 0 < k < |w| + 1 ensures shows(([s] + w)[k - 1], ([s] + w)[k]) {
      if k > 1 { assert shows(w[k - 2], w[k - 1]); }
    }
    ExpandableGrows(s, w, seen);
  }

  lemma {:induction false} ExpandableGrows(s: Struct, w: seq<Struct>, seen: set<string>)
    requires |w| >= 2 && w[0].name !in seen && Expandable(w, seen + {w[0].name})
    ensures Expandable([s] + w, seen)
  {
    forall k | 0 < k < |w| ensures ([s] + w)[k].name !in seen { assert ([s] + w)[k] == w[k - 1]; }
    forall j, k | 0 < j < k < |w| ensures ([s] + w)[j].name != ([s] + w)[k].name {
      assert ([s] + w)[j] == w[j - 1] && ([s] + w)[k] == w[k - 1];
    }
  }

  lemma {:induction false} ChainTail(shows: (Struct, Struct) -> bool, w: seq<Struct>, name: string, steps: nat,
                                     seen: set<string>)
    requires |w| > 2 && steps > 0 && LeadsTo(shows, w, w[0], name, steps, seen)
    ensures LeadsTo(shows, w[1..], w[1], name, steps - 1, seen + {w[1].name})
    ensures w[1].name !in seen
  {
    var v := w[1..];
    forall k | 0 < k < |v| ensures shows(v[k - 1], v[k]) { assert shows(w[k], w[k + 1]); }
    forall k | 0 < k < |v| - 1 ensures v[k].name !in seen + {w[1].name} { assert v[k] == w[k + 1]; }
  }

  lemma {:induction false} OccursHasChain(env: Env, t: Target, s: Struct, name: string, depth: nat, maxDepth: nat,
                                          seen: set<string>, base: nat) returns (w: seq<Struct>)
    requires UniqueNames(env.dict.structs) && s in env.dict.structs
    requires Occurs(PartsOf(Catalog(env, t, env.dict.structs, None), s.name, depth, maxDepth, seen, base), name)
    ensures LeadsTo(Shows(env), w, s, name, LevelsLeft(depth, maxDepth) + 1, seen)
    decreases LevelsLeft(depth, maxDepth)
  {
    var n, at := ShownBlock(env, t, Catalog(env, t, env.dict.structs, None), s, name, depth, maxDepth, seen, base);
    if n.name == name {
      w := [s, n];
    } else {
      var rest := OccursHasChain(env, t, n, name, depth + 1, maxDepth, seen + {n.name}, at);
      ChainGrows(Shows(env), s, rest, name, LevelsLeft(depth, maxDepth), seen);
      w := [s] + rest;
    }
  }

  /** The row of the member that embeds `n`. */
  lemma {:induction false} EmbeddingRow(env: Env, t: Target, s: Struct, n: Struct) returns (i: nat, f: FieldLayout)
    requires EmbedsBlock(env, s, n)
    ensures IsRow(env, t, s, i, f) && f.structType == Some(n.name) && n.name != ""
  {
    i :| 0 <= i < |s.fields| && BlockMember(env, s, s.fields[i], n);
    RowType(env, t, s, i);
    f := Standalone(env, t, s, None).fields[i];
  }

  lemma {:induction false} RowOccurs(env: Env, t: Target, s: Struct, i: nat, f: FieldLayout, name: string, depth: nat,
                                     maxDepth: nat, seen: set<string>, base: nat)
    requires UniqueNames(env.dict.structs) && s in env.dict.structs && IsRow(env, t, s, i, f)
    requires OccursAt(FieldPart(Catalog(env, t, env.dict.structs, None), f, depth, maxDepth, seen, base), name)
    ensures Occurs(PartsOf(Catalog(env, t, env.dict.structs, None), s.name, depth, maxDepth, seen, base), name)
  {
    var catalog := Catalog(env, t, env.dict.structs, None);
    var l := Standalone(env, t, s, None);
    assert s.fields != [];
    CatalogLookup(env, t, env.dict.structs, None, s.name);
    FieldPartAt(catalog, l.fields, depth, maxDepth, seen, base, i);
    var members := FieldParts(catalog, l.fields, depth, maxDepth, seen, base);
    assert OccursAt(members[i], name);
    OccursUnsorted(members, l.gaps, base, name);
  }

  /** A block of `inner` occurs itself, and so does what occurs below it if it is expanded. */
  lemma {:induction false} BlockShows(catalog: seq<CatalogEntry>, f: FieldLayout, inner: string, name: string, depth: nat,
                                      maxDepth: nat, seen: set<string>, base: nat)
    requires f.structType == Some(inner) && inner != ""
    requires ShownBelow(catalog, inner, name, depth, maxDepth, seen, base + f.offset)
    ensures OccursAt(FieldPart(catalog, f, depth, maxDepth, seen, base), name)
  {
  }

  lemma {:induction false} ChainStart(env: Env, w: seq<Struct>, s: Struct, name: string, steps: nat, seen: set<string>)
    requires LeadsTo(Shows(env), w, s, name, steps, seen)
    ensures w[0] == s && s in env.dict.structs && EmbedsBlock(env, s, w[1])
  {
    assert Shows(env)(w[0], w[1]);
  }

  lemma {:induction false} ChainOccurs(env: Env, t: Target, s: Struct, w: seq<Struct>, name: string, depth: nat,
                                       maxDepth: nat, seen: set<string>, base: nat)
    requires UniqueNames(env.dict.structs) && LeadsTo(Shows(env), w, s, name, LevelsLeft(depth, maxDepth) + 1, seen)
    ensures Occurs(PartsOf(Catalog(env, t, env.dict.structs, None), s.name, depth, maxDepth, seen, base), name)
    decreases |w|, 1
  {
    ChainStart(env, w, s, name, LevelsLeft(depth, maxDepth) + 1, seen);
    var i, f := EmbeddingRow(env, t, s, w[1]);
    ChainShownBelow(env, t, w, name, depth, maxDepth, seen, base + f.offset);
    EmbeddedOccurs(env, t, s, i, f, w[1].name, name, depth, maxDepth, seen, base);
  }

  lemma {:induction false} ChainShownBelow(env: Env, t: Target, w: seq<Struct>, name: string, depth: nat,
                                           maxDepth: nat, seen: set<string>, at: nat)
    requires UniqueNames(env.dict.structs) && |w| >= 2
    requires LeadsTo(Shows(env), w, w[0], name, LevelsLeft(depth, maxDepth) + 1, seen)
    ensures ShownBelow(Catalog(env, t, env.dict.structs, None), w[1].name, name, depth, maxDepth, seen, at)
    decreases |w|, 0
  {
    if |w| > 2 {
      ChainTail(Shows(env), w, name, LevelsLeft(depth, maxDepth) + 1, seen);
      ChainOccurs(env, t, w[1], w[1..], name, depth + 1, maxDepth, seen + {w[1].name}, at);
    }
  }

  lemma {:induction false} EmbeddedOccurs(env: Env, t: Target, s: Struct, i: nat, f: FieldLayout, inner: string,
                                          name: string, depth: nat, maxDepth: nat, seen: set<string>, base: nat)
    requires UniqueNames(env.dict.structs) && s in env.dict.structs && IsRow(env, t, s, i, f)
    requires f.structType == Some(inner) && inner != ""
    requires ShownBelow(Catalog(env, t, env.dict.structs, None), inner, name, depth, maxDepth, seen, base + f.offset)
    ensures Occurs(PartsOf(Catalog(env, t, env.dict.structs, None), s.name, depth, maxDepth, seen, base), name)
  {
    BlockShows(Catalog(env, t, env.dict.structs, None), f, inner, name, depth, maxDepth, seen, base);
    RowOccurs(env, t, s, i, f, name, depth, maxDepth, seen, base);
  }

  /**
   * A struct is in the tree exactly if a chain of embeddings leads to it from the root in at most one
   * step more than the depth cap, with no name repeated before its last.
   */
  lemma {:induction false} OccursExactly(env: Env, t: Target, s: Struct, maxDepth: nat, name: string)
    requires UniqueNames(env.dict.structs) && s in env.dict.structs
    ensures Occurs(TreeOf(env, t, s, maxDepth), name)
      <==> ReachedWithin(env, s, name, maxDepth + 1)
  {
    var steps := maxDepth + 1;
    if Occurs(TreeOf(env, t, s, maxDepth), name) {
      var w := OccursHasChain(env, t, s, name, 0, maxDepth, {s.name}, 0);
    }
    if w :| LeadsTo(Shows(env), w, s, name, steps, {s.name}) {
      ChainOccurs(env, t, s, w, name, 0, maxDepth, {s.name}, 0);
    }
  }

  // ---- What is inside a block -------------------------------------------------------------------

  /** The part shows the row at its absolute place, as a block exactly if the row names a struct. */
  ghost predicate ShowsRow(p: Part, row: FieldLayout, at: nat) {
    && !p.Padding? && p.offset == at + row.offset && p.size == row.size && p.name == row.name
    && (p.Block? <==> row.structType.Some? && row.structType.value != "")
    && (p.Block? ==> Some(p.typeName) == row.structType && p.arrayLength == row.arrayLength)
  }

  ghost predicate ShowsGap(p: Part, g: Gap, at: nat) {
    && p.Padding? && p.offset == at + g.offset && p.size == g.size && p.causedByAlign == g.causedByAlign
    && p.causedByType == g.causedByType && p.atBoundary == g.atBoundary
  }

  /** The parts, in wire order, are the struct's rows and gaps, one part each. */
  ghost predicate ShowsStruct(parts: seq<Part>, l: StructLayout, at: nat) {
    exists rows: seq<Part>, gaps: seq<Part> :: AreRowsAndGaps(rows, gaps, l, at) && IsArranged(parts, rows + gaps)
  }

  ghost predicate IsArranged(parts: seq<Part>, all: seq<Part>) { multiset(parts) == multiset(all) && Sorted(parts) }

  ghost predicate AreRowsAndGaps(rows: seq<Part>, gaps: seq<Part>, l: StructLayout, at: nat) {
    && |rows| == |l.fields| && (forall i :: 0 <= i < |rows| ==> ShowsRow(rows[i], l.fields[i], at))
    && |gaps| == |l.gaps| && (forall j :: 0 <= j < |gaps| ==> ShowsGap(gaps[j], l.gaps[j], at))
  }

  lemma {:induction false} LevelShows(catalog: seq<CatalogEntry>, name: string, depth: nat, maxDepth: nat,
                                      seen: set<string>, base: nat)
    requires LayoutOf(catalog, name).Some?
    ensures ShowsStruct(PartsOf(catalog, name, depth, maxDepth, seen, base), LayoutOf(catalog, name).value, base)
  {
    var l := LayoutOf(catalog, name).value;
    var rows, gaps := FieldParts(catalog, l.fields, depth, maxDepth, seen, base), GapParts(l.gaps, base);
    forall i | 0 <= i < |rows| ensures ShowsRow(rows[i], l.fields[i], base) {
      FieldPartAt(catalog, l.fields, depth, maxDepth, seen, base, i);
    }
    forall j | 0 <= j < |gaps| ensures ShowsGap(gaps[j], l.gaps[j], base) { GapPartAt(l.gaps, base, j); }
    SortSorts(rows + gaps);
    assert IsArranged(SortParts(rows + gaps), rows + gaps);
  }

  /** The three conditions under which a block is opened. */
  predicate Opened(catalog: seq<CatalogEntry>, inner: string, depth: nat, maxDepth: nat, seen: set<string>) {
    depth < maxDepth && inner !in seen && LayoutOf(catalog, inner).Some?
  }

  lemma {:induction false} OpenedBlock(catalog: seq<CatalogEntry>, f: FieldLayout, inner: string, depth: nat,
                                       maxDepth: nat, seen: set<string>, base: nat)
    requires f.structType == Some(inner) && inner != "" && Opened(catalog, inner, depth, maxDepth, seen)
    ensures var p := FieldPart(catalog, f, depth, maxDepth, seen, base);
            p.Block? && p.children == PartsOf(catalog, inner, depth + 1, maxDepth, seen + {inner}, base + f.offset)
  {
  }

  lemma {:induction false} ClosedBlock(catalog: seq<CatalogEntry>, f: FieldLayout, inner: string, depth: nat,
                                       maxDepth: nat, seen: set<string>, base: nat)
    requires f.structType == Some(inner) && inner != "" && !Opened(catalog, inner, depth, maxDepth, seen)
    ensures var p := FieldPart(catalog, f, depth, maxDepth, seen, base); p.Block? && p.children == []
  {
  }

  /**
   * A block whose struct is listed, that is above the depth cap and not inside itself, holds exactly that
   * struct's rows and gaps at their absolute places; any other block holds nothing.
   */
  lemma {:induction false} BlockHoldsStruct(catalog: seq<CatalogEntry>, f: FieldLayout, inner: string, depth: nat,
                                            maxDepth: nat, seen: set<string>, base: nat)
    requires f.structType == Some(inner) && inner != ""
    ensures var p := FieldPart(catalog, f, depth, maxDepth, seen, base);
            && p.Block?
            && (if Opened(catalog, inner, depth, maxDepth, seen)
                then ShowsStruct(p.children, LayoutOf(catalog, inner).value, base + f.offset) else p.children == [])
  {
    if Opened(catalog, inner, depth, maxDepth, seen) {
      OpenedBlock(catalog, f, inner, depth, maxDepth, seen, base);
      LevelShows(catalog, inner, depth + 1, maxDepth, seen + {inner}, base + f.offset);
    } else {
      ClosedBlock(catalog, f, inner, depth, maxDepth, seen, base);
    }
  }
}
