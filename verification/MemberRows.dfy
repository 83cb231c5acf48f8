/** What each member's row says: its size, its alignment and its kind, read off the declaration. */
module MemberRows {
  import opened Alignment
  import opened TypeDictionary
  import opened Layout
  import opened Placement
  import opened Containment
  import opened PrimitiveTables

  ghost function Row(env: Env, t: Target, s: Struct, override: Option<nat>, i: nat): FieldLayout
    requires i < |s.fields|
  {
    Standalone(env, t, s, override).fields[i]
  }

  /** The same struct with member `i` declared in another way. */
  function Redeclared(s: Struct, i: nat, arr: ArrayShape, bitWidth: Option<nat>): Struct
    requires i < |s.fields|
  {
    s.(fields := s.fields[i := s.fields[i].(parsed := s.fields[i].parsed.(arr := arr, bitWidth := bitWidth))])
  }

  /** The row's alignment is the natural one, capped by the override, else the attribute, else the default. */
  predicate Capped(align: nat, natural: nat, override: Option<nat>, attribute: Option<nat>, t: Target) {
    && (override.Some? ==> align == Min(natural, override.value))
    && (override.None? && attribute.Some? ==> align == Min(natural, attribute.value))
    && (override.None? && attribute.None? ==> align == Min(natural, if t == Bits64 then 8 else 4))
  }

  lemma {:induction false} RowFromSlot(env: Env, t: Target, s: Struct, override: Option<nat>, i: nat)
    requires i < |s.fields|
    ensures var r, slot := Row(env, t, s, override, i), SlotFrom(s.fields[i], ElementOf(env, t, s.fields[i], {s.name}));
            && r.name == slot.name && r.raw == slot.raw && r.bitWidth == slot.bitWidth && r.size == slot.size
            && r.isPointer == slot.isPointer && r.isArray == slot.isArray && r.arrayLength == slot.arrayLength
            && r.structType == slot.structType && Capped(r.align, slot.align, override, s.pack, t)
  {
    var slots := Slots(env, t, s.fields, {s.name});
    SlotAt(env, t, s.fields, {s.name}, i);
    FieldAt(slots, RootPack(s, t, override), i);
  }

  /** Base type and pointer mark alone decide about one element. */
  lemma {:induction false} SameElement(env: Env, t: Target, f: Field, g: Field, guard: set<string>)
    requires f.parsed.base == g.parsed.base && f.parsed.isPointer == g.parsed.isPointer
    ensures ElementOf(env, t, f, guard) == ElementOf(env, t, g, guard)
  {
  }

  /** Rows keep the declaration's name and type text, in declaration order. */
  lemma {:induction false} RowsNamed(env: Env, t: Target, s: Struct, override: Option<nat>, i: nat)
    requires i < |s.fields|
    ensures |Standalone(env, t, s, override).fields| == |s.fields|
    ensures var r := Row(env, t, s, override, i);
            r.name == s.fields[i].name && r.raw == s.fields[i].raw && r.bitWidth == s.fields[i].parsed.bitWidth
  {
    RowFromSlot(env, t, s, override, i);
  }

  /** An array of `n` elements takes `n` times the bytes of one, whatever the element, at one's alignment. */
  lemma {:induction false} CountedArray(env: Env, t: Target, s: Struct, override: Option<nat>, i: nat, n: nat)
    requires i < |s.fields| && s.fields[i].parsed.arr == Fixed(n) && s.fields[i].parsed.bitWidth == None
    ensures var r, one := Row(env, t, s, override, i), Row(env, t, Redeclared(s, i, NotArray, None), override, i);
            && r.size == one.size * n && r.align == one.align && r.structType == one.structType
            && r.isArray && r.arrayLength == Some(n) && !one.isArray && one.arrayLength == None
  {
    var plain := Redeclared(s, i, NotArray, None);
    RowFromSlot(env, t, s, override, i);
    RowFromSlot(env, t, plain, override, i);
    SameElement(env, t, s.fields[i], plain.fields[i], {s.name});
  }

  /** An array without a numeric extent counts as one element. */
  lemma {:induction false} UncountedArray(env: Env, t: Target, s: Struct, override: Option<nat>, i: nat)
    requires i < |s.fields| && s.fields[i].parsed.arr == Unsized && s.fields[i].parsed.bitWidth == None
    ensures var r, one := Row(env, t, s, override, i), Row(env, t, Redeclared(s, i, NotArray, None), override, i);
            && r.size == one.size && r.align == one.align && r.structType == one.structType
            && r.isArray && r.arrayLength == None
  {
    var plain := Redeclared(s, i, NotArray, None);
    RowFromSlot(env, t, s, override, i);
    RowFromSlot(env, t, plain, override, i);
    SameElement(env, t, s.fields[i], plain.fields[i], {s.name});
  }

  /** A bit-field takes the whole storage unit of its type, as a plain member that is no struct. */
  lemma {:induction false} BitField(env: Env, t: Target, s: Struct, override: Option<nat>, i: nat)
    requires i < |s.fields| && s.fields[i].parsed.bitWidth.Some?
    ensures var r, one := Row(env, t, s, override, i), Row(env, t, Redeclared(s, i, NotArray, None), override, i);
            && r.size == one.size && r.align == one.align
            && !r.isPointer && !r.isArray && r.arrayLength == None && r.structType == None
  {
    var plain := Redeclared(s, i, NotArray, None);
    RowFromSlot(env, t, s, override, i);
    RowFromSlot(env, t, plain, override, i);
    SameElement(env, t, s.fields[i], plain.fields[i], {s.name});
  }

  /** Neither an array nor a bit-field. */
  predicate Plain(s: Struct, i: nat)
    requires i < |s.fields|
  {
    s.fields[i].parsed.arr.NotArray? && s.fields[i].parsed.bitWidth.None?
  }

  lemma {:induction false} PointerRow(env: Env, t: Target, s: Struct, override: Option<nat>, i: nat)
    requires i < |s.fields| && Plain(s, i) && s.fields[i].parsed.isPointer
    ensures var r, word := Row(env, t, s, override, i), if t == Bits32 then 4 else 8;
            && r.size == word && Capped(r.align, word, override, s.pack, t) && r.isPointer && r.structType == None
  {
    RowFromSlot(env, t, s, override, i);
  }

  /** A type without a primitive or a struct behind it is taken for a machine word. */
  lemma {:induction false} UnknownRow(env: Env, t: Target, s: Struct, override: Option<nat>, i: nat)
    requires i < |s.fields| && Plain(s, i) && !s.fields[i].parsed.isPointer
    requires Resolve(env, s.fields[i].parsed.base) == Unresolved
    ensures var r, word := Row(env, t, s, override, i), if t == Bits32 then 4 else 8;
            && r.size == word && Capped(r.align, word, override, s.pack, t) && !r.isPointer && r.structType == None
  {
    RowFromSlot(env, t, s, override, i);
  }

  /** A primitive has the numbers of its name's row in the two tables. */
  lemma {:induction false} PrimitiveRow(env: Env, t: Target, s: Struct, override: Option<nat>, i: nat,
                                        size32: nat, align32: nat, size64: nat, align64: nat)
    requires i < |s.fields| && Plain(s, i) && !s.fields[i].parsed.isPointer && env.prims == PRIMITIVES
    requires HasRow(s.fields[i].parsed.base, size32, align32, size64, align64)
    ensures var r := Row(env, t, s, override, i);
            && r.size == (if t == Bits32 then size32 else size64)
            && Capped(r.align, if t == Bits32 then align32 else align64, override, s.pack, t)
            && !r.isPointer && r.structType == None
  {
    RowFromSlot(env, t, s, override, i);
  }

  /** So has a type that a chain of at most six aliases leads to that primitive, unless it has a row itself. */
  lemma {:induction false} AliasRow(env: Env, t: Target, s: Struct, override: Option<nat>, i: nat, chain: seq<string>,
                                    size32: nat, align32: nat, size64: nat, align64: nat)
    requires i < |s.fields| && Plain(s, i) && !s.fields[i].parsed.isPointer && env.prims == PRIMITIVES
    requires Primitive(PRIMITIVES, s.fields[i].parsed.base) == None && 2 <= |chain| <= 7
    requires chain[0] == s.fields[i].parsed.base && HasRow(chain[|chain| - 1], size32, align32, size64, align64)
    requires LeadsToPrimitive(env, chain, Primitive(PRIMITIVES, chain[|chain| - 1]).value)
    ensures var r := Row(env, t, s, override, i);
            && r.size == (if t == Bits32 then size32 else size64)
            && Capped(r.align, if t == Bits32 then align32 else align64, override, s.pack, t)
  {
    ChainIsChased(env, 6, chain, Primitive(PRIMITIVES, chain[|chain| - 1]).value);
    RowFromSlot(env, t, s, override, i);
  }

  /** An embedded struct has the total and the alignment of its own layout, on an acyclic dictionary. */
  lemma {:induction false} StructRow(env: Env, t: Target, s: Struct, override: Option<nat>, i: nat)
    requires Acyclic(env) && s in env.dict.structs && i < |s.fields| && Plain(s, i) && Child(env, s.fields[i]).Some?
    ensures var r, inner := Row(env, t, s, override, i), Standalone(env, t, Child(env, s.fields[i]).value, None);
            && r.size == inner.total && Capped(r.align, inner.align, override, s.pack, t)
            && !r.isPointer && r.structType == Some(Child(env, s.fields[i]).value.name)
  {
    assert NamesOf([s]) == {s.name};
    NestedAgreesWithCatalog(env, t, [s], i);
    RowFromSlot(env, t, s, override, i);
  }

  // ---- Gaps -------------------------------------------------------------------------

  /** What the gap in front of row `i` says: where it is, who is on either side, and what forced it. */
  ghost predicate GapBefore(g: Gap, fields: seq<FieldLayout>, slots: seq<Slot>, i: nat)
    requires i < |fields| == |slots|
  {
    && g.offset == (if i == 0 then 0 else fields[i - 1].offset + fields[i - 1].size)
    && g.size == fields[i].offset - g.offset
    && g.before == Some(fields[i].name) && g.causedByAlign == fields[i].align
    && g.causedByType == Some(slots[i].causedBy)
    && g.after == (if i == 0 then None else Some(fields[i - 1].name))
    && g.atBoundary == (i > 0 && fields[i - 1].structType.Some? && fields[i].structType.Some?)
  }

  ghost predicate TailGap(g: Gap, r: StructLayout) {
    && g.before == None && g.causedByType == None && !g.atBoundary && g.causedByAlign == r.align
    && g.offset + g.size == r.total
    && g.after == (if r.fields == [] then None else Some(r.fields[|r.fields| - 1].name))
    && (r.fields != [] ==> g.offset == r.fields[|r.fields| - 1].offset + r.fields[|r.fields| - 1].size)
  }

  ghost predicate GapsLocated(gaps: seq<Gap>, fields: seq<FieldLayout>, slots: seq<Slot>)
    requires |fields| == |slots|
  {
    forall j :: 0 <= j < |gaps| ==> GapLocated(gaps[j], fields, slots)
  }

  ghost predicate GapLocated(g: Gap, fields: seq<FieldLayout>, slots: seq<Slot>)
    requires |fields| == |slots|
  {
    exists i :: 0 <= i < |fields| && GapBefore(g, fields, slots, i)
  }

  lemma {:induction false} PlaceLocates(slots: seq<Slot>, pack: nat)
    ensures var p := Place(slots, pack);
            && GapsLocated(p.gaps, p.fields, slots)
            && p.offset == (if slots == [] then 0 else p.fields[|slots| - 1].offset + p.fields[|slots| - 1].size)
  {
    if slots != [] {
      var n := |slots| - 1;
      PlaceLocates(slots[..n], pack);
      PlaceOneLocates(Place(slots[..n], pack), slots, pack);
    }
  }

  lemma {:induction false} PlaceOneLocates(p: Progress, slots: seq<Slot>, pack: nat)
    requires slots != [] && |p.fields| == |slots| - 1 && GapsLocated(p.gaps, p.fields, slots[..|slots| - 1])
    requires p.offset == if p.fields == [] then 0 else p.fields[|p.fields| - 1].offset + p.fields[|p.fields| - 1].size
    ensures var q := PlaceOne(p, slots[|slots| - 1], pack); GapsLocated(q.gaps, q.fields, slots)
  {
    var n, q := |slots| - 1, PlaceOne(p, slots[|slots| - 1], pack);
    forall j | 0 <= j < |q.gaps| ensures GapLocated(q.gaps[j], q.fields, slots) {
      if j < |p.gaps| {
        assert GapLocated(p.gaps[j], p.fields, slots[..n]);
        var i :| 0 <= i < n && GapBefore(p.gaps[j], p.fields, slots[..n], i);
        assert GapBefore(q.gaps[j], q.fields, slots, i);
      } else {
        assert GapBefore(q.gaps[j], q.fields, slots, n);
      }
    }
  }

  /** What a gap is blamed on: the next member's struct if it is one, else its base type, or a bit-field's text. */
  function Blamed(f: Field, row: FieldLayout): string {
    if f.parsed.bitWidth.Some? then f.raw else if row.structType.Some? then row.structType.value else f.parsed.base
  }

  /** Every gap but one at the tail sits in front of some member, is blamed on it, and names its neighbours. */
  lemma {:induction false} GapsAttributed(env: Env, t: Target, s: Struct, override: Option<nat>, j: nat)
    returns (i: nat)
    requires j < |Standalone(env, t, s, override).gaps|
    ensures var r := Standalone(env, t, s, override);
            && |r.fields| == |s.fields|
            && (i < |s.fields| ==>
                  && GapBefore(r.gaps[j], r.fields, Slots(env, t, s.fields, {s.name}), i)
                  && r.gaps[j].causedByType == Some(Blamed(s.fields[i], r.fields[i])))
            && (i >= |s.fields| ==> j == |r.gaps| - 1 && TailGap(r.gaps[j], r))
  {
    var slots, pack := Slots(env, t, s.fields, {s.name}), RootPack(s, t, override);
    var p := Place(slots, pack);
    PlaceLocates(slots, pack);
    i := |s.fields|;
    if j < |p.gaps| {
      assert GapLocated(p.gaps[j], p.fields, slots);
      i :| 0 <= i < |slots| && GapBefore(p.gaps[j], p.fields, slots, i);
      SlotAt(env, t, s.fields, {s.name}, i);
      RowFromSlot(env, t, s, override, i);
    }
  }
}
