/**
 * The expanded wire view of a message: catalog layouts unfolded into a tree of parts at absolute
 * offsets. The catalog is computed struct by struct, apart from the nested recursion that sized the
 * members, so that the two agree byte for byte is a theorem and not a definition.
 */
module Composition {
  import opened Alignment
  import opened TypeDictionary
  import opened Layout
  import opened Placement
  import opened Containment

  datatype Part =
    | Block(name: string, typeName: string, offset: nat, size: nat, arrayLength: Option<nat>, children: seq<Part>)
    | Scalar(name: string, offset: nat, size: nat)
    | Padding(offset: nat, size: nat, causedByAlign: nat, causedByType: Option<string>, atBoundary: bool)

  function LayoutOf(catalog: seq<CatalogEntry>, name: string): Option<StructLayout> {
    if catalog == [] then None
    else if catalog[0].name == name then Some(catalog[0].layout)
    else LayoutOf(catalog[1..], name)
  }

  // ---- Sorting ------------------------------------------------------------------

  /** The comparator is negative: smaller offset, or padding in front of a member at one offset. */
  predicate Before(a: Part, b: Part) {
    a.offset < b.offset || (a.offset == b.offset && a.Padding? && !b.Padding?)
  }

  function Insert(sorted: seq<Part>, p: Part): (r: seq<Part>)
    ensures |r| == |sorted| + 1
  {
    if sorted == [] then [p]
    else
      var n := |sorted| - 1;
      if Before(p, sorted[n]) then Insert(sorted[..n], p) + [sorted[n]] else sorted + [p]
  }

  /** The stable sort by `Before`. */
  function SortParts(parts: seq<Part>): seq<Part>
    decreases |parts|, 0
  {
    if parts == [] then [] else SortWithLast(parts)
  }

  function SortWithLast(parts: seq<Part>): seq<Part>
    requires parts != []
    decreases |parts| - 1, 1
  {
    Insert(SortParts(parts[..|parts| - 1]), parts[|parts| - 1])
  }

  ghost predicate Sorted(parts: seq<Part>) {
    forall i, j :: 0 <= i < j < |parts| ==> !Before(parts[j], parts[i])
  }

  lemma {:induction false} InsertPermutes(sorted: seq<Part>, p: Part)
    ensures multiset(Insert(sorted, p)) == multiset(sorted) + multiset{p}
  {
    if sorted != [] {
      var n := |sorted| - 1;
      assert sorted == sorted[..n] + [sorted[n]];
      InsertPermutes(sorted[..n], p);
    }
  }

  lemma {:induction false} InsertSorts(sorted: seq<Part>, p: Part)
    requires Sorted(sorted)
    ensures Sorted(Insert(sorted, p))
  {
    if sorted != [] {
      var n := |sorted| - 1;
      if Before(p, sorted[n]) {
        InsertSorts(sorted[..n], p);
        InsertPermutes(sorted[..n], p);
        var head := Insert(sorted[..n], p);
        forall i | 0 <= i < |head| ensures !Before(sorted[n], head[i]) {
          assert head[i] in multiset(head);
          assert head[i] == p || head[i] in sorted[..n];
        }
        AppendSorts(head, sorted[n]);
      } else {
        AppendSorts(sorted, p);
      }
    }
  }

  lemma {:induction false} AppendSorts(sorted: seq<Part>, last: Part)
    requires Sorted(sorted) && (sorted != [] ==> !Before(last, sorted[|sorted| - 1]))
    ensures Sorted(sorted + [last])
  {
    forall i | 0 <= i < |sorted| ensures !Before(last, sorted[i]) {
      assert i < |sorted| - 1 ==> !Before(sorted[|sorted| - 1], sorted[i]);
    }
  }

  lemma {:induction false} SortSorts(parts: seq<Part>)
    ensures Sorted(SortParts(parts)) && multiset(SortParts(parts)) == multiset(parts)
  {
    if parts != [] {
      var n := |parts| - 1;
      SortSorts(parts[..n]);
      InsertSorts(SortParts(parts[..n]), parts[n]);
      InsertPermutes(SortParts(parts[..n]), parts[n]);
      assert parts == parts[..n] + [parts[n]];
    }
  }

  // ---- Expansion ----------------------------------------------------------------

  function PadPart(g: Gap, base: nat): Part {
    Padding(base + g.offset, g.size, g.causedByAlign, g.causedByType, g.atBoundary)
  }

  function GapParts(gaps: seq<Gap>, base: nat): (r: seq<Part>)
    ensures |r| == |gaps|
  {
    if gaps == [] then [] else GapParts(gaps[..|gaps| - 1], base) + [PadPart(gaps[|gaps| - 1], base)]
  }

  function LevelsLeft(depth: nat, maxDepth: nat): nat { if depth < maxDepth then maxDepth - depth else 0 }

  function FieldPart(catalog: seq<CatalogEntry>, f: FieldLayout, depth: nat, maxDepth: nat,
                     seen: set<string>, base: nat): Part
    decreases LevelsLeft(depth, maxDepth), 0
  {
    if f.structType.Some? && f.structType.value != "" then
      var typeName := f.structType.value;
      var children :=
        if depth < maxDepth && typeName !in seen
        then PartsOf(catalog, typeName, depth + 1, maxDepth, seen + {typeName}, base + f.offset)
        else [];
      Block(f.name, typeName, base + f.offset, f.size, f.arrayLength, children)
    else Scalar(f.name, base + f.offset, f.size)
  }

  function FieldParts(catalog: seq<CatalogEntry>, fields: seq<FieldLayout>, depth: nat, maxDepth: nat,
                      seen: set<string>, base: nat): (r: seq<Part>)
    ensures |r| == |fields|
    decreases LevelsLeft(depth, maxDepth), 1, |fields|
  {
    if fields == [] then []
    else
      var n := |fields| - 1;
      FieldParts(catalog, fields[..n], depth, maxDepth, seen, base)
        + [FieldPart(catalog, fields[n], depth, maxDepth, seen, base)]
  }

  /** `partsOf`: members and gaps of one struct in wire order, blocks expanded below it. */
  function PartsOf(catalog: seq<CatalogEntry>, name: string, depth: nat, maxDepth: nat,
                   seen: set<string>, base: nat): seq<Part>
    decreases LevelsLeft(depth, maxDepth), 2
  {
    match LayoutOf(catalog, name)
    case None => []
    case Some(l) => SortParts(FieldParts(catalog, l.fields, depth, maxDepth, seen, base) + GapParts(l.gaps, base))
  }

  /** The same as the code runs it: two loops that append, then a sort. */
  method ExpandStruct(catalog: seq<CatalogEntry>, name: string, depth: nat, maxDepth: nat,
                      seen: set<string>, base: nat) returns (parts: seq<Part>)
    ensures parts == PartsOf(catalog, name, depth, maxDepth, seen, base)
    decreases LevelsLeft(depth, maxDepth)
  {
    parts := [];
    var found := LayoutOf(catalog, name);
    if found.None? { return; }
    var l := found.value;
    for i := 0 to |l.fields|
      invariant parts == FieldParts(catalog, l.fields[..i], depth, maxDepth, seen, base)
    {
      assert l.fields[..i + 1][..i] == l.fields[..i];
      var f := l.fields[i];
      if f.structType.Some? && f.structType.value != "" {
        var typeName, children := f.structType.value, [];
        if depth < maxDepth && typeName !in seen {
          children := ExpandStruct(catalog, typeName, depth + 1, maxDepth, seen + {typeName}, base + f.offset);
        }
        parts := parts + [Block(f.name, typeName, base + f.offset, f.size, f.arrayLength, children)];
      } else {
        parts := parts + [Scalar(f.name, base + f.offset, f.size)];
      }
    }
    assert l.fields[..|l.fields|] == l.fields;
    ghost var members := parts;
    for i := 0 to |l.gaps|
      invariant parts == members + GapParts(l.gaps[..i], base)
    {
      assert l.gaps[..i + 1][..i] == l.gaps[..i];
      parts := parts + [PadPart(l.gaps[i], base)];
    }
    assert l.gaps[..|l.gaps|] == l.gaps;
    parts := SortParts(parts);
  }

  // ---- Tiling -------------------------------------------------------------------

  /** The parts follow one another without hole or overlap from `lo` to `hi`. */
  ghost predicate Tiles(parts: seq<Part>, lo: nat, hi: nat) {
    if parts == [] then lo == hi
    else
      var last := parts[|parts| - 1];
      last.offset + last.size == hi && Tiles(parts[..|parts| - 1], lo, last.offset)
  }

  lemma {:induction false} TilesJoin(a: seq<Part>, b: seq<Part>, lo: nat, mid: nat, hi: nat)
    requires Tiles(a, lo, mid) && Tiles(b, mid, hi)
    ensures Tiles(a + b, lo, hi)
  {
    if b == [] {
      assert a + b == a;
    } else {
      var n := |b| - 1;
      TilesJoin(a, b[..n], lo, mid, b[n].offset);
      assert (a + b)[..|a| + n] == a + b[..n];
    }
  }

  lemma {:induction false} TilesOrder(parts: seq<Part>, lo: nat, hi: nat)
    requires Tiles(parts, lo, hi)
    ensures lo <= hi
    ensures forall i :: 0 <= i < |parts| ==> lo <= parts[i].offset && parts[i].offset + parts[i].size <= hi
    ensures forall i, j :: 0 <= i < j < |parts| ==> parts[i].offset + parts[i].size <= parts[j].offset
  {
    if parts != [] {
      var n := |parts| - 1;
      TilesOrder(parts[..n], lo, parts[n].offset);
    }
  }

  /** Number of parts that contain byte `b`. */
  function PartsAt(parts: seq<Part>, b: nat): nat {
    if parts == [] then 0
    else
      var last := parts[|parts| - 1];
      PartsAt(parts[..|parts| - 1], b) + (if last.offset <= b < last.offset + last.size then 1 else 0)
  }

  lemma {:induction false} TilesCoverOnce(parts: seq<Part>, lo: nat, hi: nat, b: nat)
    requires Tiles(parts, lo, hi)
    ensures PartsAt(parts, b) == if lo <= b < hi then 1 else 0
  {
    TilesOrder(parts, lo, hi);
    if parts != [] {
      var n := |parts| - 1;
      TilesCoverOnce(parts[..n], lo, parts[n].offset, b);
    }
  }

  // ---- One level ----------------------------------------------------------------

  function Members(rows: seq<Part>): seq<Part> {
    if rows == [] then []
    else
      var last := rows[|rows| - 1];
      Members(rows[..|rows| - 1]) + (if last.Padding? then [] else [last])
  }

  function Paddings(rows: seq<Part>): seq<Part> {
    if rows == [] then []
    else
      var last := rows[|rows| - 1];
      Paddings(rows[..|rows| - 1]) + (if last.Padding? then [last] else [])
  }

  /** Paddings have bytes, and none directly follows a member that has none. */
  ghost predicate NoEmptyBeforePadding(rows: seq<Part>) {
    && (forall i :: 0 <= i < |rows| && rows[i].Padding? ==> rows[i].size > 0)
    && (forall i :: 0 < i < |rows| && rows[i].Padding? ==> rows[i - 1].size > 0)
  }

  /** A member at or after everything else can be sorted last, whatever gaps come after it in the list. */
  lemma {:induction false} SortLastMember(members: seq<Part>, r: Part, gaps: seq<Part>)
    requires forall x :: x in members ==> !Before(r, x)
    requires forall g :: g in gaps ==> Before(g, r)
    ensures SortParts(members + [r] + gaps) == SortParts(members + gaps) + [r]
  {
    if gaps == [] {
      assert members + [r] + gaps == members + [r] && members + gaps == members;
      SortAppendLast(members, r);
    } else {
      var n := |gaps| - 1;
      SortLastMember(members, r, gaps[..n]);
      assert (members + [r] + gaps)[..|members| + 1 + n] == members + [r] + gaps[..n];
      assert (members + gaps)[..|members| + n] == members + gaps[..n];
      InsertBelowLast(SortParts(members + gaps[..n]), r, gaps[n]);
      SortNext(members + [r] + gaps);
      SortNext(members + gaps);
    }
  }

  lemma {:induction false} SortNext(parts: seq<Part>)
    requires parts != []
    ensures SortParts(parts) == Insert(SortParts(parts[..|parts| - 1]), parts[|parts| - 1])
  {
  }

  lemma {:induction false} SortAppendLast(members: seq<Part>, r: Part)
    requires forall x :: x in members ==> !Before(r, x)
    ensures SortParts(members + [r]) == SortParts(members) + [r]
  {
    assert (members + [r])[..|members|] == members;
    SortSorts(members);
    var s := SortParts(members);
    if s != [] {
      assert s[|s| - 1] in multiset(s);
      assert s[|s| - 1] in members;
    }
  }

  lemma {:induction false} InsertBelowLast(s: seq<Part>, r: Part, g: Part)
    requires Before(g, r)
    ensures Insert(s + [r], g) == Insert(s, g) + [r]
  {
    assert (s + [r])[..|s|] == s;
  }

  lemma {:induction false} FiltersAreIn(rows: seq<Part>)
    ensures forall x :: x in Members(rows) ==> x in rows && !x.Padding?
    ensures forall x :: x in Paddings(rows) ==> x in rows && x.Padding?
  {
    if rows != [] {
      FiltersAreIn(rows[..|rows| - 1]);
      assert rows == rows[..|rows| - 1] + [rows[|rows| - 1]];
    }
  }

  lemma {:induction false} SortLastPadding(members: seq<Part>, gaps: seq<Part>, r: Part, rows: seq<Part>)
    requires SortParts(members + gaps) == rows
    requires rows != [] ==> !Before(r, rows[|rows| - 1])
    ensures SortParts(members + (gaps + [r])) == rows + [r]
  {
    assert (members + (gaps + [r]))[..|members| + |gaps|] == members + gaps;
  }

  lemma {:induction false} RestoreMember(init: seq<Part>, r: Part, lo: nat)
    requires SortParts(Members(init) + Paddings(init)) == init && Tiles(init, lo, r.offset) && !r.Padding?
    ensures SortParts(Members(init) + [r] + Paddings(init)) == init + [r]
  {
    TilesOrder(init, lo, r.offset);
    FiltersAreIn(init);
    forall x | x in init ensures !Before(r, x) && (x.Padding? ==> Before(x, r)) {
      var k :| 0 <= k < |init| && init[k] == x;
    }
    SortLastMember(Members(init), r, Paddings(init));
  }

  /** Sorting the members and the gaps of a tiling puts the tiling back together. */
  lemma {:induction false} SortRestoresRows(rows: seq<Part>, lo: nat, hi: nat)
    requires Tiles(rows, lo, hi) && NoEmptyBeforePadding(rows)
    ensures SortParts(Members(rows) + Paddings(rows)) == rows
  {
    if rows != [] {
      var n := |rows| - 1;
      var init, r := rows[..n], rows[n];
      SortRestoresRows(init, lo, r.offset);
      if n > 0 { TilesAdjacent(rows, lo, hi, n); }
      RestoreRow(init, r, lo);
      assert rows == init + [r];
    }
  }

  lemma {:induction false} RestoreRow(init: seq<Part>, r: Part, lo: nat)
    requires SortParts(Members(init) + Paddings(init)) == init && Tiles(init, lo, r.offset)
    requires r.Padding? && init != [] ==> !Before(r, init[|init| - 1])
    ensures SortParts(Members(init + [r]) + Paddings(init + [r])) == init + [r]
  {
    assert (init + [r])[..|init|] == init;
    if r.Padding? {
      SortLastPadding(Members(init), Paddings(init), r, init);
      assert Members(init + [r]) == Members(init);
    } else {
      RestoreMember(init, r, lo);
      assert Paddings(init + [r]) == Paddings(init);
    }
  }

  /** `parts` render the placed members at `base`, one each. */
  ghost predicate Renders(parts: seq<Part>, fields: seq<FieldLayout>, base: nat) {
    && |parts| == |fields|
    && forall i :: 0 <= i < |parts| ==>
         !parts[i].Padding? && parts[i].offset == base + fields[i].offset && parts[i].size == fields[i].size
  }

  /** `rows` interleave the members and the gaps so that they tile `[lo, hi)`. */
  ghost predicate Woven(rows: seq<Part>, parts: seq<Part>, gaps: seq<Gap>, lo: nat, hi: nat, base: nat) {
    Tiles(rows, lo, hi) && Members(rows) == parts && Paddings(rows) == GapParts(gaps, base)
  }

  lemma WeaveMember(rows: seq<Part>, parts: seq<Part>, gaps: seq<Gap>, lo: nat, base: nat, r: Part)
    requires Woven(rows, parts, gaps, lo, r.offset, base) && !r.Padding?
    ensures Woven(rows + [r], parts + [r], gaps, lo, r.offset + r.size, base)
  {
    assert (rows + [r])[..|rows|] == rows;
    assert Paddings(rows) + [] == Paddings(rows);
  }

  lemma WeaveGap(rows: seq<Part>, parts: seq<Part>, gaps: seq<Gap>, lo: nat, base: nat, g: Gap)
    requires Woven(rows, parts, gaps, lo, base + g.offset, base)
    ensures Woven(rows + [PadPart(g, base)], parts, gaps + [g], lo, base + g.offset + g.size, base)
  {
    assert (rows + [PadPart(g, base)])[..|rows|] == rows;
    assert (gaps + [g])[..|gaps|] == gaps;
    assert Members(rows) + [] == Members(rows);
  }

  /** The rows one more member adds: the gap in front of it, if there is one, and the member. */
  lemma WeaveStep(rows: seq<Part>, parts: seq<Part>, p: Progress, s: Slot, pack: nat, base: nat, r: Part)
    returns (longer: seq<Part>)
    requires Woven(rows, parts, p.gaps, base, base + p.offset, base) && !r.Padding?
    requires r.offset == base + Landed(p.offset, s, pack).offset && r.size == s.size
    ensures Woven(longer, parts + [r], PlaceOne(p, s, pack).gaps, base, base + PlaceOne(p, s, pack).offset, base)
  {
    var q := PlaceOne(p, s, pack);
    longer := rows;
    if |q.gaps| > |p.gaps| {
      var g := q.gaps[|q.gaps| - 1];
      WeaveGap(rows, parts, p.gaps, base, base, g);
      longer := rows + [PadPart(g, base)];
    }
    WeaveMember(longer, parts, q.gaps, base, base, r);
    longer := longer + [r];
  }

  lemma {:induction false} PlaceWoven(slots: seq<Slot>, pack: nat, parts: seq<Part>, base: nat)
    returns (rows: seq<Part>)
    requires Renders(parts, Place(slots, pack).fields, base)
    ensures Woven(rows, parts, Place(slots, pack).gaps, base, base + Place(slots, pack).offset, base)
  {
    rows := [];
    if slots != [] {
      var n := |slots| - 1;
      var p := Place(slots[..n], pack);
      assert Place(slots, pack).fields[..n] == p.fields;
      rows := PlaceWoven(slots[..n], pack, parts[..n], base);
      rows := WeaveStep(rows, parts[..n], p, slots[n], pack, base, parts[n]);
      assert parts[..n] + [parts[n]] == parts;
    }
  }

  lemma FinishWoven(slots: seq<Slot>, pack: nat, parts: seq<Part>, base: nat)
    returns (rows: seq<Part>)
    requires Renders(parts, Place(slots, pack).fields, base)
    ensures var r := Finish(Place(slots, pack)); Woven(rows, parts, r.gaps, base, base + r.total, base)
  {
    rows := PlaceWoven(slots, pack, parts, base);
    var p, r := Place(slots, pack), Finish(Place(slots, pack));
    if r.total > p.offset {
      var g := r.gaps[|r.gaps| - 1];
      WeaveGap(rows, parts, p.gaps, base, base, g);
      rows := rows + [PadPart(g, base)];
    }
  }

  /** No member of size zero sits where a gap begins. */
  predicate NoEmptyMemberAtGap(r: StructLayout) {
    forall i, j :: 0 <= i < |r.fields| && 0 <= j < |r.gaps| && r.fields[i].size == 0
      ==> r.gaps[j].offset != r.fields[i].offset
  }

  lemma {:induction false} GapPartAt(gaps: seq<Gap>, base: nat, j: nat)
    requires j < |gaps|
    ensures GapParts(gaps, base)[j] == PadPart(gaps[j], base)
  {
    if j < |gaps| - 1 { GapPartAt(gaps[..|gaps| - 1], base, j); }
  }

  lemma {:induction false} FilterIndex(rows: seq<Part>, i: nat)
    requires i < |rows|
    ensures if rows[i].Padding? then rows[i] in Paddings(rows) else rows[i] in Members(rows)
  {
    if i < |rows| - 1 { FilterIndex(rows[..|rows| - 1], i); }
  }

  lemma RowsHaveNoEmptyBeforePadding(rows: seq<Part>, parts: seq<Part>, r: StructLayout, base: nat, hi: nat)
    requires Woven(rows, parts, r.gaps, base, hi, base) && Renders(parts, r.fields, base)
    requires GapsWellFormed(r.gaps) && NoEmptyMemberAtGap(r)
    ensures NoEmptyBeforePadding(rows)
  {
    TilesOrder(rows, base, hi);
    forall i | 0 <= i < |rows| && rows[i].Padding?
      ensures rows[i].size > 0 && (i > 0 ==> rows[i - 1].size > 0)
    {
      FilterIndex(rows, i);
      var j :| 0 <= j < |r.gaps| && GapParts(r.gaps, base)[j] == rows[i];
      GapPartAt(r.gaps, base, j);
      if i > 0 && !rows[i - 1].Padding? {
        FilterIndex(rows, i - 1);
        var k :| 0 <= k < |parts| && parts[k] == rows[i - 1];
        TilesAdjacent(rows, base, hi, i);
      } else if i > 0 {
        FilterIndex(rows, i - 1);
        var k :| 0 <= k < |r.gaps| && GapParts(r.gaps, base)[k] == rows[i - 1];
        GapPartAt(r.gaps, base, k);
      }
    }
  }

  lemma {:induction false} TilesAdjacent(parts: seq<Part>, lo: nat, hi: nat, i: nat)
    requires Tiles(parts, lo, hi) && 0 < i < |parts|
    ensures parts[i - 1].offset + parts[i - 1].size == parts[i].offset
  {
    var n := |parts| - 1;
    if i < n { TilesAdjacent(parts[..n], lo, parts[n].offset, i); }
  }

  /** Sorting a woven struct's parts gives the weave back, if no zero-size member sits at a gap. */
  lemma {:induction false} LevelTilesIf(rows: seq<Part>, parts: seq<Part>, r: StructLayout, base: nat, hi: nat)
    requires Woven(rows, parts, r.gaps, base, hi, base) && Renders(parts, r.fields, base)
    requires GapsWellFormed(r.gaps) && NoEmptyMemberAtGap(r)
    ensures Tiles(SortParts(parts + GapParts(r.gaps, base)), base, hi)
  {
    RowsHaveNoEmptyBeforePadding(rows, parts, r, base, hi);
    SortRestoresRows(rows, base, hi);
  }

  /** And only then: a zero-size member at a gap is sorted behind it, and the tiling breaks. */
  lemma {:induction false} LevelTilesOnlyIf(parts: seq<Part>, r: StructLayout, base: nat, hi: nat)
    requires Renders(parts, r.fields, base) && GapsWellFormed(r.gaps)
    requires Tiles(SortParts(parts + GapParts(r.gaps, base)), base, hi)
    ensures NoEmptyMemberAtGap(r)
  {
    forall i, j | 0 <= i < |r.fields| && 0 <= j < |r.gaps| && r.fields[i].size == 0
      ensures r.gaps[j].offset != r.fields[i].offset
    {
      GapPartAt(r.gaps, base, j);
      EmptyMemberClash(parts, GapParts(r.gaps, base), i, j, base, hi);
    }
  }

  /**
   * One level of the view, for any members and any pack: the sorted parts tile the struct if and
   * only if no zero-size member sits where a gap begins.
   */
  lemma {:induction false} LevelTilesExactly(slots: seq<Slot>, pack: nat, r: StructLayout, parts: seq<Part>, base: nat)
    requires r == Finish(Place(slots, pack)) && Renders(parts, r.fields, base)
    ensures Tiles(SortParts(parts + GapParts(r.gaps, base)), base, base + r.total) <==> NoEmptyMemberAtGap(r)
  {
    BytesPartitioned(slots, pack);
    var rows := FinishWoven(slots, pack, parts, base);
    LevelTilesBothWays(rows, parts, r, base, base + r.total);
  }

  lemma {:induction false} LevelTilesBothWays(rows: seq<Part>, parts: seq<Part>, r: StructLayout, base: nat, hi: nat)
    requires Woven(rows, parts, r.gaps, base, hi, base) && Renders(parts, r.fields, base)
    requires GapsWellFormed(r.gaps)
    ensures Tiles(SortParts(parts + GapParts(r.gaps, base)), base, hi) <==> NoEmptyMemberAtGap(r)
  {
    if NoEmptyMemberAtGap(r) {
      LevelTilesIf(rows, parts, r, base, hi);
    }
    if Tiles(SortParts(parts + GapParts(r.gaps, base)), base, hi) {
      LevelTilesOnlyIf(parts, r, base, hi);
    }
  }

  lemma {:induction false} EmptyMemberClash(parts: seq<Part>, gaps: seq<Part>, i: nat, j: nat, lo: nat, hi: nat)
    requires i < |parts| && j < |gaps| && !parts[i].Padding? && gaps[j].Padding? && gaps[j].size > 0
    requires Tiles(SortParts(parts + gaps), lo, hi)
    ensures gaps[j].offset != parts[i].offset
  {
    var all := parts + gaps;
    SortSorts(all);
    TilesOrder(SortParts(all), lo, hi);
    assert all[i] == parts[i] && all[|parts| + j] == gaps[j];
    assert all[i] in multiset(all) && all[|parts| + j] in multiset(all);
    SortedClash(SortParts(all), parts[i], gaps[j]);
  }

  /** In a sorted, non-overlapping sequence padding never shares its offset with a member. */
  lemma SortedClash(sorted: seq<Part>, p: Part, gap: Part)
    requires Sorted(sorted) && p in sorted && gap in sorted
    requires forall i, j :: 0 <= i < j < |sorted| ==> sorted[i].offset + sorted[i].size <= sorted[j].offset
    requires !p.Padding? && gap.Padding? && gap.size > 0
    ensures gap.offset != p.offset
  {
    var a :| 0 <= a < |sorted| && sorted[a] == p;
    var b :| 0 <= b < |sorted| && sorted[b] == gap;
  }
}
