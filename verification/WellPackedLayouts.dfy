/**
 * Alignment closure and pack monotonicity for whole dictionaries: the nested recursion only ever
 * computes power-of-two alignments, so the placement laws hold for every struct it lays out.
 */
module WellPackedLayouts {
  import opened Alignment
  import opened TypeDictionary
  import opened Layout
  import opened Placement
  import opened CrossTarget

  /** Whatever is in progress, every member of a struct has a power-of-two alignment. */
  lemma {:induction false} SlotsPow2(env: Env, t: Target, fields: seq<Field>, guard: set<string>)
    requires WellPacked(env.dict)
    ensures Pow2Slots(Slots(env, t, fields, guard))
  {
    var slots := Slots(env, t, fields, guard);
    forall i | 0 <= i < |slots| ensures Pow2(slots[i].align) {
      SlotAt(env, t, fields, guard, i);
      ElementCross(env, fields[i], guard);
    }
  }

  // ---- Alignment closure -------------------------------------------------------

  /** The struct alignment divides the total, and every member of every element of an array of it is aligned. */
  ghost predicate ClosedUnderArrays(r: StructLayout) {
    && Pow2(r.align) && r.total % r.align == 0
    && (forall i :: 0 <= i < |r.fields| ==> Pow2(r.fields[i].align) && r.fields[i].align <= r.align)
    && forall i, k: nat :: 0 <= i < |r.fields| ==> AlignedInElement(r.fields[i], r.total, k)
  }

  /** Every struct the recursion meets, under any power-of-two pack and with anything in progress above it. */
  lemma {:induction false} ArraysStayAligned(env: Env, t: Target, s: Struct, pack: nat, guard: set<string>)
    requires WellPacked(env.dict) && Pow2(pack)
    ensures ClosedUnderArrays(Internal(env, t, s, pack, guard))
  {
    var slots := Slots(env, t, s.fields, guard);
    SlotsPow2(env, t, s.fields, guard);
    StructAlignPow2(slots, pack);
    AlignUpMultiple(Place(slots, pack).offset, Place(slots, pack).align);
    forall i | 0 <= i < |slots|
      ensures Pow2(Place(slots, pack).fields[i].align) && Place(slots, pack).fields[i].align <= Place(slots, pack).align
    {
      MemberAligned(slots, pack, i);
    }
    forall i, k: nat | 0 <= i < |slots|
      ensures AlignedInElement(Place(slots, pack).fields[i], Finish(Place(slots, pack)).total, k)
    {
      ArrayElementsStayAligned(slots, pack, k, i);
    }
  }

  /** In particular every catalog entry. */
  lemma CatalogArraysStayAligned(env: Env, t: Target, s: Struct, override: Option<nat>)
    requires WellPacked(env.dict) && Pow2Pack(s) && (override.Some? ==> Pow2(override.value))
    ensures ClosedUnderArrays(Standalone(env, t, s, override))
  {
    PrimLe(Byte);
    ArraysStayAligned(env, t, s, RootPack(s, t, override), {s.name});
  }

  // ---- Arrays of structs inside structs ------------------------------------------

  lemma SumOfMultiples(x: nat, y: nat, a: nat)
    requires a > 0 && y % a == 0
    ensures (x + y) % a == 0 <==> x % a == 0
  {
    if x % a == 0 { MultipleSum(1, x, y, a); }
    if (x + y) % a == 0 {
      Quotient(x + y, a);
      Quotient(y, a);
      var i, j := (x + y) / a, y / a;
      assert x == i * a - j * a == (i - j) * a;
      SmallProduct(i - j, a);
      MultipleMod(i - j, a);
    }
  }

  /** In an array of structs of size `total` that starts at `offset`, member `f` of element `k` is aligned. */
  ghost predicate AlignedInArray(f: FieldLayout, total: nat, offset: nat, k: nat) {
    f.align > 0 && (offset + (k * total + f.offset)) % f.align == 0
  }

  ghost predicate AlignedFrom(r: StructLayout, offset: nat) {
    forall m, k: nat :: 0 <= m < |r.fields| ==> AlignedInArray(r.fields[m], r.total, offset, k)
  }

  /** Every member of every element is aligned exactly if the array starts at a multiple of the struct's alignment. */
  lemma {:induction false} AlignedFromExactly(r: StructLayout, offset: nat)
    requires ClosedUnderArrays(r)
    requires r.align == 1 || exists i :: 0 <= i < |r.fields| && r.fields[i].align == r.align
    ensures AlignedFrom(r, offset) <==> offset % r.align == 0
  {
    forall m, k: nat | 0 <= m < |r.fields|
      ensures AlignedInArray(r.fields[m], r.total, offset, k) <==> offset % r.fields[m].align == 0
    {
      assert AlignedInElement(r.fields[m], r.total, k);
      SumOfMultiples(offset, k * r.total + r.fields[m].offset, r.fields[m].align);
    }
    if offset % r.align == 0 {
      forall m | 0 <= m < |r.fields| ensures offset % r.fields[m].align == 0 {
        Pow2Multiple(r.fields[m].align, r.align, offset);
      }
    }
    if AlignedFrom(r, offset) && r.align != 1 {
      var m :| 0 <= m < |r.fields| && r.fields[m].align == r.align;
      assert AlignedInArray(r.fields[m], r.total, offset, 0);
    }
  }

  lemma {:induction false} AlignIsSomeMember(slots: seq<Slot>, pack: nat)
    ensures var r := Finish(Place(slots, pack));
            r.align == 1 || exists i :: 0 <= i < |r.fields| && r.fields[i].align == r.align
  {
    AlignIsMax(slots, pack);
    if i :| 0 <= i < |slots| && EffAlign(slots[i], pack) == Place(slots, pack).align { FieldAt(slots, pack, i); }
  }

  /**
   * An array of structs inside a struct: all members of all its elements are aligned exactly if the
   * array starts at a multiple of the inner struct's alignment, and it always does unless the outer
   * pack caps that alignment.
   */
  lemma {:induction false} EmbeddedArrayAlignedExactly(env: Env, t: Target, s: Struct, pack: nat, guard: set<string>,
                                                       i: nat, n: Struct)
    requires WellPacked(env.dict) && Pow2(pack) && i < |s.fields| && n.name !in guard
    requires !s.fields[i].parsed.isPointer && Resolve(env, s.fields[i].parsed.base) == Nested(n)
    ensures var outer := Internal(env, t, s, pack, guard);
            var inner := Internal(env, t, n, NestedPack(n, t), guard + {n.name});
            && |outer.fields| == |s.fields|
            && (AlignedFrom(inner, outer.fields[i].offset) <==> outer.fields[i].offset % inner.align == 0)
            && (inner.align <= pack ==> AlignedFrom(inner, outer.fields[i].offset))
  {
    var slots := Slots(env, t, s.fields, guard);
    var inner := Internal(env, t, n, NestedPack(n, t), guard + {n.name});
    PrimLe(Byte);
    ArraysStayAligned(env, t, n, NestedPack(n, t), guard + {n.name});
    AlignIsSomeMember(Slots(env, t, n.fields, guard + {n.name}), NestedPack(n, t));
    SlotAt(env, t, s.fields, guard, i);
    assert slots[i].align == inner.align;
    PlacedAtMultiple(slots, pack, i);
    AlignedFromExactly(inner, Place(slots, pack).fields[i].offset);
  }

  lemma {:induction false} PlacedAtMultiple(slots: seq<Slot>, pack: nat, i: nat)
    requires i < |slots| && 0 < slots[i].align
    ensures slots[i].align <= pack ==> Place(slots, pack).fields[i].offset % slots[i].align == 0
  {
    FieldAt(slots, pack, i);
    AlignUpMultiple(Place(slots[..i], pack).offset, slots[i].align);
  }

  // ---- Pack monotonicity ---------------------------------------------------------

  /** The same members, none of them later, in a struct no larger, no more aligned and no more padded. */
  ghost predicate NoLooser(a: StructLayout, b: StructLayout) {
    && a.total <= b.total && a.align <= b.align && a.padding <= b.padding && |a.fields| == |b.fields|
    && forall i :: 0 <= i < |a.fields| ==>
         a.fields[i].offset <= b.fields[i].offset && a.fields[i].size == b.fields[i].size
  }

  /** Of two power-of-two packs for one struct of a dictionary the tighter never takes more room. */
  lemma {:induction false} TighterPackNeverLarger(env: Env, t: Target, s: Struct, p: nat, q: nat, guard: set<string>)
    requires WellPacked(env.dict) && Pow2(p) && Pow2(q) && p <= q
    ensures NoLooser(Internal(env, t, s, p, guard), Internal(env, t, s, q, guard))
  {
    var slots := Slots(env, t, s.fields, guard);
    SlotsPow2(env, t, s.fields, guard);
    LooserPackNeverSmaller(slots, p, q);
    forall i | 0 <= i < |slots| ensures Place(slots, p).fields[i].size == Place(slots, q).fields[i].size {
      FieldAt(slots, p, i);
      FieldAt(slots, q, i);
    }
  }

  /** For a catalog entry: whether the packs come from overrides, attributes or the target's default. */
  lemma TighterRootNeverLarger(env: Env, t: Target, s: Struct, r: Struct, p: Option<nat>, q: Option<nat>)
    requires WellPacked(env.dict) && s.name == r.name && s.fields == r.fields
    requires Pow2(RootPack(s, t, p)) && Pow2(RootPack(r, t, q)) && RootPack(s, t, p) <= RootPack(r, t, q)
    ensures NoLooser(Standalone(env, t, s, p), Standalone(env, t, r, q))
  {
    TighterPackNeverLarger(env, t, s, RootPack(s, t, p), RootPack(r, t, q), {s.name});
  }
}
