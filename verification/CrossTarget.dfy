/** The 32-bit and the 64-bit layout of the same dictionary, side by side. */
module CrossTarget {
  import opened Alignment
  import opened TypeDictionary
  import opened Layout
  import opened Placement

  ghost predicate Pow2Pack(s: Struct) { s.pack.Some? ==> Pow2(s.pack.value) }

  ghost predicate WellPacked(d: TypeDict) { forall s :: s in d.structs ==> Pow2Pack(s) }

  ghost predicate ElementLe(a: Element, b: Element) {
    && a.size <= b.size && a.align <= b.align && Pow2(a.align) && Pow2(b.align)
    && a.structType == b.structType && a.estimated == b.estimated
  }

  ghost predicate SlotLe(a: Slot, b: Slot) {
    && a.size <= b.size && a.align <= b.align && Pow2(a.align) && Pow2(b.align)
    && a.name == b.name && a.structType == b.structType && a.arrayLength == b.arrayLength
    && a.isPointer == b.isPointer && a.estimated == b.estimated
  }

  /** Row by row: nothing is larger, later or more strictly aligned on the left. */
  ghost predicate FieldLe(a: FieldLayout, b: FieldLayout) {
    && a.offset <= b.offset && a.size <= b.size
    && 0 < a.align <= b.align && b.align % a.align == 0
    && a.name == b.name && a.structType == b.structType && a.arrayLength == b.arrayLength
  }

  ghost predicate ProgressLe(a: Progress, b: Progress) {
    a.offset <= b.offset && a.align <= b.align && Pow2(a.align) && Pow2(b.align) && a.estimated == b.estimated
  }

  ghost predicate LayoutLe(a: StructLayout, b: StructLayout) {
    && a.total <= b.total && 0 < a.align <= b.align && b.align % a.align == 0
    && a.estimated == b.estimated
    && |a.fields| == |b.fields| && forall i :: 0 <= i < |a.fields| ==> FieldLe(a.fields[i], b.fields[i])
  }

  lemma PrimLe(c: PrimClass)
    ensures PrimSize(c, Bits32) <= PrimSize(c, Bits64) && PrimAlign(c, Bits32) <= PrimAlign(c, Bits64)
    ensures forall t :: Pow2(PrimAlign(c, t)) && Pow2(PointerSize(t)) && Pow2(DefaultPack(t))
  {
    assert Pow2(2) && Pow2(4) && Pow2(8) && Pow2(16);
  }

  lemma MulMono(a: nat, b: nat, n: nat)
    requires a <= b
    ensures a * n <= b * n
  {
    assert (b - a) * n >= 0;
  }

  lemma SlotFromLe(f: Field, a: Element, b: Element)
    requires ElementLe(a, b)
    ensures SlotLe(SlotFrom(f, a), SlotFrom(f, b))
  {
    if f.parsed.arr.Fixed? { MulMono(a.size, b.size, f.parsed.arr.length); }
  }

  lemma {:induction false} PlaceOneLe(a: Progress, b: Progress, s: Slot, r: Slot, p: nat, q: nat)
    requires ProgressLe(a, b) && SlotLe(s, r) && Pow2(p) && Pow2(q) && p <= q
    ensures ProgressLe(PlaceOne(a, s, p), PlaceOne(b, r, q))
    ensures FieldLe(Landed(a.offset, s, p), Landed(b.offset, r, q))
  {
    AlignUpMonotone(a.offset, b.offset, EffAlign(s, p), EffAlign(r, q));
    Pow2Divides(EffAlign(s, p), EffAlign(r, q));
  }

  ghost predicate SlotsLe(a: seq<Slot>, b: seq<Slot>) {
    |a| == |b| && forall i :: 0 <= i < |a| ==> SlotLe(a[i], b[i])
  }

  lemma {:induction false} PlaceLe(a: seq<Slot>, b: seq<Slot>, p: nat, q: nat)
    requires SlotsLe(a, b) && Pow2(p) && Pow2(q) && p <= q
    ensures ProgressLe(Place(a, p), Place(b, q))
  {
    if a != [] {
      var n := |a| - 1;
      PlaceLe(a[..n], b[..n], p, q);
      PlaceOneLe(Place(a[..n], p), Place(b[..n], q), a[n], b[n], p, q);
    }
  }

  lemma {:induction false} PlaceFieldLe(a: seq<Slot>, b: seq<Slot>, p: nat, q: nat, i: nat)
    requires SlotsLe(a, b) && Pow2(p) && Pow2(q) && p <= q && i < |a|
    ensures FieldLe(Place(a, p).fields[i], Place(b, q).fields[i])
  {
    FieldAt(a, p, i);
    FieldAt(b, q, i);
    PlaceLe(a[..i], b[..i], p, q);
    PlaceOneLe(Place(a[..i], p), Place(b[..i], q), a[i], b[i], p, q);
  }

  lemma {:induction false} FinishLe(a: seq<Slot>, b: seq<Slot>, p: nat, q: nat)
    requires SlotsLe(a, b) && Pow2(p) && Pow2(q) && p <= q
    ensures LayoutLe(Finish(Place(a, p)), Finish(Place(b, q)))
  {
    PlaceLe(a, b, p, q);
    var x, y := Place(a, p), Place(b, q);
    AlignUpMonotone(x.offset, y.offset, x.align, y.align);
    Pow2Divides(x.align, y.align);
    forall i | 0 <= i < |a| ensures FieldLe(x.fields[i], y.fields[i]) {
      PlaceFieldLe(a, b, p, q, i);
    }
  }

  lemma {:induction false} ElementCross(env: Env, f: Field, guard: set<string>)
    requires WellPacked(env.dict)
    ensures ElementLe(ElementOf(env, Bits32, f, guard), ElementOf(env, Bits64, f, guard))
    decreases Names(env.dict) - guard, 0
  {
    PrimLe(Byte);
    if !f.parsed.isPointer {
      match Resolve(env, f.parsed.base)
      case Prim(c) => PrimLe(c);
      case Unresolved =>
      case Nested(n) =>
        if n.name !in guard {
          assert n.name in Names(env.dict);
          InternalCross(env, n, NestedPack(n, Bits32), NestedPack(n, Bits64), guard + {n.name});
        }
    }
  }

  lemma {:induction false} InternalCross(env: Env, s: Struct, p: nat, q: nat, guard: set<string>)
    requires WellPacked(env.dict) && Pow2(p) && Pow2(q) && p <= q
    ensures LayoutLe(Internal(env, Bits32, s, p, guard), Internal(env, Bits64, s, q, guard))
    ensures Pow2(Internal(env, Bits32, s, p, guard).align) && Pow2(Internal(env, Bits64, s, q, guard).align)
    decreases Names(env.dict) - guard, 1
  {
    var a, b := Slots(env, Bits32, s.fields, guard), Slots(env, Bits64, s.fields, guard);
    forall i | 0 <= i < |s.fields| ensures SlotLe(a[i], b[i]) {
      SlotAt(env, Bits32, s.fields, guard, i);
      SlotAt(env, Bits64, s.fields, guard, i);
      ElementCross(env, s.fields[i], guard);
      SlotFromLe(s.fields[i], ElementOf(env, Bits32, s.fields[i], guard), ElementOf(env, Bits64, s.fields[i], guard));
    }
    FinishLe(a, b, p, q);
    PlaceLe(a, b, p, q);
  }

  /**
   * For every dictionary, cyclic or not, whose packs are powers of two: the two targets produce the
   * same rows for a struct, each 32-bit size, offset and total is at most its 64-bit counterpart,
   * each 32-bit alignment divides the 64-bit one, and both agree on whether the layout is a guess.
   */
  lemma NarrowTargetNeverLarger(env: Env, s: Struct, override: Option<nat>)
    requires WellPacked(env.dict) && Pow2Pack(s)
    requires override.Some? ==> Pow2(override.value)
    ensures LayoutLe(Standalone(env, Bits32, s, override), Standalone(env, Bits64, s, override))
  {
    PrimLe(Byte);
    InternalCross(env, s, RootPack(s, Bits32, override), RootPack(s, Bits64, override), {s.name});
  }

  ghost predicate EntryLe(a: CatalogEntry, b: CatalogEntry) {
    a.name == b.name && a.pack == b.pack && LayoutLe(a.layout, b.layout)
  }

  /** The two catalogs list the same structs in the same order, pairwise related. */
  lemma {:induction false} CatalogsAligned(env: Env, structs: seq<Struct>, override: Option<nat>)
    requires WellPacked(env.dict) && forall s :: s in structs ==> Pow2Pack(s)
    requires override.Some? ==> Pow2(override.value)
    ensures var a, b := Catalog(env, Bits32, structs, override), Catalog(env, Bits64, structs, override);
            EntriesLe(a, b)
  {
    if structs != [] {
      var n := |structs| - 1;
      assert forall s :: s in structs[..n] ==> s in structs;
      CatalogsAligned(env, structs[..n], override);
      NarrowTargetNeverLarger(env, structs[n], override);
      EntriesGrow(Catalog(env, Bits32, structs[..n], override), Catalog(env, Bits64, structs[..n], override),
                  CatalogEntry(structs[n].name, Standalone(env, Bits32, structs[n], override), structs[n].pack),
                  CatalogEntry(structs[n].name, Standalone(env, Bits64, structs[n], override), structs[n].pack));
    }
  }

  ghost predicate EntriesLe(a: seq<CatalogEntry>, b: seq<CatalogEntry>) {
    |a| == |b| && forall i :: 0 <= i < |a| ==> EntryLe(a[i], b[i])
  }

  lemma EntriesGrow(a: seq<CatalogEntry>, b: seq<CatalogEntry>, x: CatalogEntry, y: CatalogEntry)
    requires EntriesLe(a, b) && EntryLe(x, y)
    ensures EntriesLe(a + [x], b + [y])
  {
  }
}
