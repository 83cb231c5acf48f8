/** What the placement loop guarantees for any resolved members and any pack value. */
module Placement {
  import opened Alignment
  import opened TypeDictionary
  import opened Layout

  function EffAlign(s: Slot, pack: nat): nat { Min(s.align, pack) }

  /** Member `i` lands where the members before it left off. */
  lemma {:induction false} FieldAt(slots: seq<Slot>, pack: nat, i: nat)
    requires i < |slots|
    ensures Place(slots, pack).fields[i] == Landed(Place(slots[..i], pack).offset, slots[i], pack)
  {
    var n := |slots| - 1;
    if i < n {
      FieldAt(slots[..n], pack, i);
      assert slots[..n][..i] == slots[..i];
    }
  }

  // ---- Greedy placement is optimal ---------------------------------------------

  /** Offsets that keep the declaration order, do not overlap and respect the effective alignments. */
  ghost predicate Admissible(slots: seq<Slot>, pack: nat, o: seq<nat>) {
    && |o| == |slots|
    && (forall i :: 0 <= i < |o| ==> EffAlign(slots[i], pack) > 1 ==> o[i] % EffAlign(slots[i], pack) == 0)
    && (forall i :: 0 < i < |o| ==> o[i - 1] + slots[i - 1].size <= o[i])
  }

  function Offsets(fields: seq<FieldLayout>): (r: seq<nat>)
    ensures |r| == |fields| && forall i :: 0 <= i < |r| ==> r[i] == fields[i].offset
  {
    seq(|fields|, i requires 0 <= i < |fields| => fields[i].offset)
  }

  function EndOf(slots: seq<Slot>, o: seq<nat>): nat
    requires |o| == |slots|
  {
    if o == [] then 0 else o[|o| - 1] + slots[|o| - 1].size
  }

  lemma GreedyStep(p: Progress, s: Slot, pack: nat, at: nat)
    requires p.offset <= at && (EffAlign(s, pack) > 1 ==> at % EffAlign(s, pack) == 0)
    ensures Landed(p.offset, s, pack).offset <= at
  {
    AlignUpLeast(p.offset, EffAlign(s, pack), at);
  }

  lemma {:induction false} GreedyEnd(slots: seq<Slot>, pack: nat, o: seq<nat>)
    requires Admissible(slots, pack, o)
    ensures Place(slots, pack).offset <= EndOf(slots, o)
  {
    if slots != [] {
      var n := |slots| - 1;
      GreedyEnd(slots[..n], pack, o[..n]);
      GreedyStep(Place(slots[..n], pack), slots[n], pack, o[n]);
    }
  }

  /** No admissible assignment puts any member earlier than the code does. */
  lemma {:induction false} GreedyOptimal(slots: seq<Slot>, pack: nat, o: seq<nat>, i: nat)
    requires Admissible(slots, pack, o) && i < |slots|
    ensures Place(slots, pack).fields[i].offset <= o[i]
  {
    FieldAt(slots, pack, i);
    GreedyEnd(slots[..i], pack, o[..i]);
    GreedyStep(Place(slots[..i], pack), slots[i], pack, o[i]);
  }

  lemma {:induction false} PlaceEnd(slots: seq<Slot>, pack: nat)
    ensures Place(slots, pack).offset == EndOf(slots, Offsets(Place(slots, pack).fields))
  {
    if slots != [] { FieldAt(slots, pack, |slots| - 1); }
  }

  /** The offsets the code assigns are themselves admissible. */
  lemma {:induction false} PlacementAdmissible(slots: seq<Slot>, pack: nat)
    ensures Admissible(slots, pack, Offsets(Place(slots, pack).fields))
  {
    var fields := Place(slots, pack).fields;
    forall i | 0 <= i < |slots|
      ensures EffAlign(slots[i], pack) > 1 ==> fields[i].offset % EffAlign(slots[i], pack) == 0
      ensures i > 0 ==> fields[i - 1].offset + slots[i - 1].size <= fields[i].offset
    {
      FieldAt(slots, pack, i);
      if EffAlign(slots[i], pack) > 1 { AlignUpMultiple(Place(slots[..i], pack).offset, EffAlign(slots[i], pack)); }
      if i > 0 {
        FieldAt(slots, pack, i - 1);
        PlacePrefix(slots, pack, i - 1);
      }
    }
  }

  /** Nor does any admissible assignment close at a smaller total that the struct alignment divides. */
  lemma {:induction false} GreedyTotalOptimal(slots: seq<Slot>, pack: nat, o: seq<nat>, total: nat)
    requires Admissible(slots, pack, o) && EndOf(slots, o) <= total
    requires total % Place(slots, pack).align == 0
    ensures Finish(Place(slots, pack)).total <= total
  {
    GreedyEnd(slots, pack, o);
    AlignUpLeast(Place(slots, pack).offset, Place(slots, pack).align, total);
  }

  /** The code's own offsets and total attain that optimum. */
  lemma {:induction false} TotalAttained(slots: seq<Slot>, pack: nat)
    ensures var o, r := Offsets(Place(slots, pack).fields), Finish(Place(slots, pack));
            Admissible(slots, pack, o) && EndOf(slots, o) <= r.total && r.total % r.align == 0
  {
    PlacementAdmissible(slots, pack);
    PlaceEnd(slots, pack);
    AlignUpMultiple(Place(slots, pack).offset, Place(slots, pack).align);
  }

  // ---- Alignment closure -------------------------------------------------------

  /** The struct alignment is the largest effective member alignment, or 1. */
  lemma {:induction false} AlignIsMax(slots: seq<Slot>, pack: nat)
    ensures forall i :: 0 <= i < |slots| ==> EffAlign(slots[i], pack) <= Place(slots, pack).align
    ensures Place(slots, pack).align == 1
         || exists i :: 0 <= i < |slots| && EffAlign(slots[i], pack) == Place(slots, pack).align
  {
    if slots != [] {
      var n := |slots| - 1;
      AlignIsMax(slots[..n], pack);
      assert forall i :: 0 <= i < n ==> slots[i] == slots[..n][i];
      if EffAlign(slots[n], pack) > Place(slots[..n], pack).align {
        assert EffAlign(slots[n], pack) == Place(slots, pack).align;
      } else if Place(slots[..n], pack).align != 1 {
        var i :| 0 <= i < n && EffAlign(slots[..n][i], pack) == Place(slots[..n], pack).align;
        assert EffAlign(slots[i], pack) == Place(slots, pack).align;
      }
    }
  }

  ghost predicate Pow2Slots(slots: seq<Slot>) {
    forall i :: 0 <= i < |slots| ==> Pow2(slots[i].align)
  }

  lemma {:induction false} StructAlignPow2(slots: seq<Slot>, pack: nat)
    requires Pow2Slots(slots) && Pow2(pack)
    ensures Pow2(Place(slots, pack).align)
    ensures forall i :: 0 <= i < |slots| ==> Pow2(EffAlign(slots[i], pack))
  {
    AlignIsMax(slots, pack);
  }

  /** Member `f` of the `k`-th of a run of structs of size `total` sits at a multiple of its alignment. */
  ghost predicate AlignedInElement(f: FieldLayout, total: nat, k: nat) {
    f.align > 0 && (k * total + f.offset) % f.align == 0
  }

  lemma {:induction false} MemberAligned(slots: seq<Slot>, pack: nat, i: nat)
    requires Pow2Slots(slots) && Pow2(pack) && i < |slots|
    ensures var p := Place(slots, pack);
            && Pow2(p.fields[i].align) && p.fields[i].align <= p.align
            && p.fields[i].offset % p.fields[i].align == 0
  {
    FieldAt(slots, pack, i);
    AlignIsMax(slots, pack);
    AlignUpMultiple(Place(slots[..i], pack).offset, EffAlign(slots[i], pack));
  }

  /**
   * With power-of-two alignments and pack, the struct alignment is a power of two that divides the
   * total, so in an array of the struct every member of every element keeps its own alignment.
   */
  lemma {:induction false} ArrayElementsStayAligned(slots: seq<Slot>, pack: nat, k: nat, i: nat)
    requires Pow2Slots(slots) && Pow2(pack) && i < |slots|
    ensures var r := Finish(Place(slots, pack));
            && Pow2(r.align) && r.total % r.align == 0
            && AlignedInElement(r.fields[i], r.total, k)
  {
    StructAlignPow2(slots, pack);
    MemberAligned(slots, pack, i);
    ElementAligned(Place(slots, pack), k, i);
  }

  lemma ElementAligned(p: Progress, k: nat, i: nat)
    requires i < |p.fields| && Pow2(p.align) && Pow2(p.fields[i].align)
    requires p.fields[i].align <= p.align && p.fields[i].offset % p.fields[i].align == 0
    ensures Finish(p).total % p.align == 0
    ensures AlignedInElement(p.fields[i], Finish(p).total, k)
  {
    var f, total := p.fields[i], AlignUp(p.offset, p.align);
    AlignUpMultiple(p.offset, p.align);
    Pow2Multiple(f.align, p.align, total);
    MultipleSum(k, total, f.offset, f.align);
  }

  lemma MultipleSum(k: nat, x: nat, y: nat, a: nat)
    requires a > 0 && x % a == 0 && y % a == 0
    ensures (k * x + y) % a == 0
  {
    var i, j := x / a, y / a;
    Quotient(x, a);
    Quotient(y, a);
    MultipleMod(k * i + j, a);
    calc { k * x + y; k * (i * a) + j * a; (k * i) * a + j * a; (k * i + j) * a; }
  }

  // ---- Pack monotonicity -------------------------------------------------------

  /** `a` is laid out no further along than `b`, with the same member sizes behind it. */
  ghost predicate NoFurther(a: Progress, b: Progress) {
    && a.offset <= b.offset && a.align <= b.align && a.padding <= b.padding
    && a.offset - a.padding == b.offset - b.padding
    && Pow2(a.align) && Pow2(b.align)
  }

  lemma {:induction false} PackStep(a: Progress, b: Progress, s: Slot, p: nat, q: nat)
    requires NoFurther(a, b) && Pow2(s.align) && Pow2(p) && Pow2(q) && p <= q
    ensures NoFurther(PlaceOne(a, s, p), PlaceOne(b, s, q))
    ensures Landed(a.offset, s, p).offset <= Landed(b.offset, s, q).offset
  {
    AlignUpMonotone(a.offset, b.offset, EffAlign(s, p), EffAlign(s, q));
  }

  lemma {:induction false} PackMonotone(slots: seq<Slot>, p: nat, q: nat)
    requires Pow2Slots(slots) && Pow2(p) && Pow2(q) && p <= q
    ensures NoFurther(Place(slots, p), Place(slots, q))
  {
    if slots != [] {
      var n := |slots| - 1;
      PackMonotone(slots[..n], p, q);
      PackStep(Place(slots[..n], p), Place(slots[..n], q), slots[n], p, q);
    }
  }

  lemma {:induction false} LooserPackMember(slots: seq<Slot>, p: nat, q: nat, i: nat)
    requires Pow2Slots(slots) && Pow2(p) && Pow2(q) && p <= q && i < |slots|
    ensures Place(slots, p).fields[i].offset <= Place(slots, q).fields[i].offset
  {
    FieldAt(slots, p, i);
    FieldAt(slots, q, i);
    PackMonotone(slots[..i], p, q);
    PackStep(Place(slots[..i], p), Place(slots[..i], q), slots[i], p, q);
  }

  lemma LooserPackFinish(a: Progress, b: Progress)
    requires NoFurther(a, b)
    ensures Finish(a).total <= Finish(b).total && Finish(a).align <= Finish(b).align
    ensures Finish(a).padding <= Finish(b).padding
  {
    AlignUpMonotone(a.offset, b.offset, a.align, b.align);
  }

  /** A looser power-of-two pack never moves a member down and never shrinks alignment, padding or total. */
  lemma {:induction false} LooserPackNeverSmaller(slots: seq<Slot>, p: nat, q: nat)
    requires Pow2Slots(slots) && Pow2(p) && Pow2(q) && p <= q
    ensures var a, b := Finish(Place(slots, p)), Finish(Place(slots, q));
            && a.total <= b.total && a.align <= b.align && a.padding <= b.padding
            && forall i :: 0 <= i < |slots| ==> a.fields[i].offset <= b.fields[i].offset
  {
    PackMonotone(slots, p, q);
    LooserPackFinish(Place(slots, p), Place(slots, q));
    forall i | 0 <= i < |slots| ensures Place(slots, p).fields[i].offset <= Place(slots, q).fields[i].offset {
      LooserPackMember(slots, p, q, i);
    }
  }

  // ---- Conservation of bytes ---------------------------------------------------

  function FieldsAt(fields: seq<FieldLayout>, b: nat): nat {
    if fields == [] then 0
    else
      var f := fields[|fields| - 1];
      FieldsAt(fields[..|fields| - 1], b) + (if f.offset <= b < f.offset + f.size then 1 else 0)
  }

  function GapsAt(gaps: seq<Gap>, b: nat): nat {
    if gaps == [] then 0
    else
      var g := gaps[|gaps| - 1];
      GapsAt(gaps[..|gaps| - 1], b) + (if g.offset <= b < g.offset + g.size then 1 else 0)
  }

  function SumSizes(slots: seq<Slot>): nat {
    if slots == [] then 0 else SumSizes(slots[..|slots| - 1]) + slots[|slots| - 1].size
  }

  function SumGaps(gaps: seq<Gap>): nat {
    if gaps == [] then 0 else SumGaps(gaps[..|gaps| - 1]) + gaps[|gaps| - 1].size
  }

  ghost predicate GapsWellFormed(gaps: seq<Gap>) {
    forall j :: 0 <= j < |gaps| ==> 0 < gaps[j].size < gaps[j].causedByAlign
  }

  lemma {:induction false} PlaceConserves(slots: seq<Slot>, pack: nat)
    ensures Conserves(Place(slots, pack), SumSizes(slots))
  {
    if slots != [] {
      var n := |slots| - 1;
      PlaceConserves(slots[..n], pack);
      PlaceOneConserves(Place(slots[..n], pack), slots[n], pack, SumSizes(slots[..n]));
    }
  }

  /** Members of `sizes` bytes in all and the gaps between them fill the bytes so far, each once. */
  ghost predicate Conserves(p: Progress, sizes: nat) {
    SumsUp(p, sizes) && forall b: nat :: OnceAt(p.fields, p.gaps, p.offset, b)
  }

  ghost predicate SumsUp(p: Progress, sizes: nat) {
    p.padding == SumGaps(p.gaps) && p.offset == sizes + p.padding && GapsWellFormed(p.gaps)
  }

  /** Byte `b` lies in exactly one row if it is below `end`, and in none otherwise. */
  predicate OnceAt(fields: seq<FieldLayout>, gaps: seq<Gap>, end: nat, b: nat) {
    FieldsAt(fields, b) + GapsAt(gaps, b) == if b < end then 1 else 0
  }

  lemma {:induction false} OneMoreField(fields: seq<FieldLayout>, f: FieldLayout, b: nat)
    ensures FieldsAt(fields + [f], b) == FieldsAt(fields, b) + (if f.offset <= b < f.offset + f.size then 1 else 0)
  {
    assert (fields + [f])[..|fields|] == fields;
  }

  lemma {:induction false} OneMoreGap(gaps: seq<Gap>, g: Gap, b: nat)
    ensures GapsAt(gaps + [g], b) == GapsAt(gaps, b) + (if g.offset <= b < g.offset + g.size then 1 else 0)
    ensures SumGaps(gaps + [g]) == SumGaps(gaps) + g.size
  {
    assert (gaps + [g])[..|gaps|] == gaps;
  }

  lemma {:induction false} GapExtends(fields: seq<FieldLayout>, gaps: seq<Gap>, g: Gap, b: nat)
    requires OnceAt(fields, gaps, g.offset, b)
    ensures OnceAt(fields, gaps + [g], g.offset + g.size, b)
  {
    OneMoreGap(gaps, g, b);
  }

  lemma {:induction false} FieldExtends(fields: seq<FieldLayout>, gaps: seq<Gap>, f: FieldLayout, b: nat)
    requires OnceAt(fields, gaps, f.offset, b)
    ensures OnceAt(fields + [f], gaps, f.offset + f.size, b)
  {
    OneMoreField(fields, f, b);
  }

  lemma {:induction false} PlaceOneSumsUp(p: Progress, s: Slot, pack: nat, sizes: nat)
    requires SumsUp(p, sizes)
    ensures SumsUp(PlaceOne(p, s, pack), sizes + s.size)
  {
    var q := PlaceOne(p, s, pack);
    if q.gaps != p.gaps { OneMoreGap(p.gaps, q.gaps[|p.gaps|], 0); }
  }

  lemma {:induction false} PlaceOneCovers(p: Progress, s: Slot, pack: nat, b: nat)
    requires OnceAt(p.fields, p.gaps, p.offset, b)
    ensures var q := PlaceOne(p, s, pack); OnceAt(q.fields, q.gaps, q.offset, b)
  {
    var f, q := Landed(p.offset, s, pack), PlaceOne(p, s, pack);
    if f.offset > p.offset { GapExtends(p.fields, p.gaps, q.gaps[|p.gaps|], b); }
    FieldExtends(p.fields, q.gaps, f, b);
  }

  lemma {:induction false} PlaceOneConserves(p: Progress, s: Slot, pack: nat, sizes: nat)
    requires Conserves(p, sizes)
    ensures Conserves(PlaceOne(p, s, pack), sizes + s.size)
  {
    PlaceOneSumsUp(p, s, pack, sizes);
    forall b: nat ensures OnceAt(PlaceOne(p, s, pack).fields, PlaceOne(p, s, pack).gaps, PlaceOne(p, s, pack).offset, b) {
      PlaceOneCovers(p, s, pack, b);
    }
  }

  /**
   * Every byte of the struct belongs to exactly one member or one gap and no byte beyond it to
   * either; the padding figure is the sum of the gaps and what the members leave of the total; and
   * every gap is shorter than the alignment that forced it.
   */
  lemma {:induction false} BytesPartitioned(slots: seq<Slot>, pack: nat)
    ensures var r := Finish(Place(slots, pack));
            && r.padding == SumGaps(r.gaps)
            && r.total == SumSizes(slots) + r.padding
            && GapsWellFormed(r.gaps)
            && forall b: nat :: OnceAt(r.fields, r.gaps, r.total, b)
  {
    PlaceConserves(slots, pack);
    FinishConserves(Place(slots, pack), SumSizes(slots));
  }

  lemma {:induction false} FinishConserves(p: Progress, sizes: nat)
    requires Conserves(p, sizes) && p.align >= 1
    ensures var r := Finish(p);
            && r.padding == SumGaps(r.gaps) && r.total == sizes + r.padding && GapsWellFormed(r.gaps)
            && forall b: nat :: OnceAt(r.fields, r.gaps, r.total, b)
  {
    var r := Finish(p);
    if r.total > p.offset {
      var g := r.gaps[|p.gaps|];
      OneMoreGap(p.gaps, g, 0);
      forall b: nat ensures OnceAt(r.fields, r.gaps, r.total, b) {
        assert OnceAt(p.fields, p.gaps, p.offset, b);
        GapExtends(p.fields, p.gaps, g, b);
      }
    }
  }
}
