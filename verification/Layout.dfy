/**
 * The struct layout engine: alignment arithmetic, pack caps and nested structs, with a recursion
 * guard against containment cycles. `Internal` is the layout as a function; `LayoutEngine` is the
 * loop that computes it, with the guard as mutable state.
 */
module Layout {
  import opened Alignment
  import opened TypeDictionary

  /** A member before placement: its size and natural alignment, and what they came from. */
  datatype Slot = Slot(
    name: string, raw: string, bitWidth: Option<nat>, size: nat, align: nat,
    isPointer: bool, isArray: bool, arrayLength: Option<nat>, structType: Option<string>,
    causedBy: string, estimated: bool)

  datatype FieldLayout = FieldLayout(
    name: string, raw: string, bitWidth: Option<nat>, offset: nat, size: nat, align: nat,
    isPointer: bool, isArray: bool, arrayLength: Option<nat>, structType: Option<string>)

  /** `before` is absent exactly for tail padding (`align-struct-tail`). */
  datatype Gap = Gap(
    after: Option<string>, before: Option<string>, offset: nat, size: nat,
    causedByAlign: nat, causedByType: Option<string>, atBoundary: bool)

  /** The local variables of the layout loop. */
  datatype Progress = Progress(
    fields: seq<FieldLayout>, gaps: seq<Gap>, offset: nat, align: nat, padding: nat, estimated: bool)

  datatype StructLayout = StructLayout(
    fields: seq<FieldLayout>, total: nat, align: nat, padding: nat, gaps: seq<Gap>, estimated: bool)

  datatype CatalogEntry = CatalogEntry(name: string, layout: StructLayout, pack: Option<nat>)

  // ---- Placement of resolved members -------------------------------------------

  const START := Progress([], [], 0, 1, 0, false)

  function LastName(fields: seq<FieldLayout>): Option<string> {
    if fields == [] then None else Some(fields[|fields| - 1].name)
  }

  function LastIsStruct(fields: seq<FieldLayout>): bool {
    fields != [] && fields[|fields| - 1].structType.Some?
  }

  /** The member's row: its effective alignment is capped by the pack, its offset rounded up to that. */
  function Landed(offset: nat, s: Slot, pack: nat): FieldLayout {
    var eff := Min(s.align, pack);
    FieldLayout(s.name, s.raw, s.bitWidth, AlignUp(offset, eff), s.size, eff,
                s.isPointer, s.isArray, s.arrayLength, s.structType)
  }

  function PlaceOne(p: Progress, s: Slot, pack: nat): Progress {
    var f := Landed(p.offset, s, pack);
    var gap := Gap(LastName(p.fields), Some(s.name), p.offset, f.offset - p.offset, f.align, Some(s.causedBy),
                   LastIsStruct(p.fields) && s.structType.Some?);
    Progress(p.fields + [f],
             if f.offset > p.offset then p.gaps + [gap] else p.gaps,
             f.offset + s.size, Max(p.align, f.align), p.padding + (f.offset - p.offset),
             p.estimated || s.estimated)
  }

  function Place(slots: seq<Slot>, pack: nat): (p: Progress)
    ensures |p.fields| == |slots| && p.align >= 1
  {
    if slots == [] then START
    else PlaceOne(Place(slots[..|slots| - 1], pack), slots[|slots| - 1], pack)
  }

  function Finish(p: Progress): StructLayout {
    var total := AlignUp(p.offset, p.align);
    var tail := Gap(LastName(p.fields), None, p.offset, total - p.offset, p.align, None, false);
    StructLayout(p.fields, total, p.align, p.padding + (total - p.offset),
                 if total > p.offset then p.gaps + [tail] else p.gaps, p.estimated)
  }

  // ---- Layout over a dictionary ------------------------------------------------

  ghost function Names(d: TypeDict): set<string> { set s | s in d.structs :: s.name }

  function NestedPack(s: Struct, t: Target): nat {
    if s.pack.Some? then s.pack.value else DefaultPack(t)
  }

  /** Size and alignment of one element, the struct it resolved to, and whether it is a guess. */
  datatype Element = Element(size: nat, align: nat, structType: Option<string>, estimated: bool)

  function UnknownElement(t: Target): Element { Element(PointerSize(t), PointerSize(t), None, true) }

  ghost function ElementOf(env: Env, t: Target, f: Field, guard: set<string>): Element
    decreases Names(env.dict) - guard, 0
  {
    if f.parsed.isPointer then Element(PointerSize(t), PointerSize(t), None, false)
    else match Resolve(env, f.parsed.base)
      case Prim(c) => Element(PrimSize(c, t), PrimAlign(c, t), None, false)
      case Unresolved => UnknownElement(t)
      case Nested(n) =>
        if n.name in guard then UnknownElement(t)
        else
          assert n.name in Names(env.dict);
          var inner := Internal(env, t, n, NestedPack(n, t), guard + {n.name});
          Element(inner.total, inner.align, Some(n.name), inner.estimated)
  }

  function SlotFrom(f: Field, e: Element): Slot {
    if f.parsed.bitWidth.Some? then
      Slot(f.name, f.raw, f.parsed.bitWidth, e.size, e.align, false, false, None, None, f.raw, e.estimated)
    else
      var length := match f.parsed.arr case NotArray => None case Fixed(n) => Some(n) case Unsized => None;
      Slot(f.name, f.raw, None, e.size * (if length.Some? then length.value else 1), e.align,
           f.parsed.isPointer, !f.parsed.arr.NotArray?, length, e.structType,
           if e.structType.Some? then e.structType.value else f.parsed.base,
           e.estimated || f.parsed.arr.Unsized?)
  }

  /** A member's slot: its element, sized and described by its declaration. */
  ghost function SlotOf(env: Env, t: Target, f: Field, guard: set<string>): Slot
    decreases Names(env.dict) - guard, 1
  {
    SlotFrom(f, ElementOf(env, t, f, guard))
  }

  ghost function Slots(env: Env, t: Target, fields: seq<Field>, guard: set<string>): (r: seq<Slot>)
    ensures |r| == |fields|
    decreases Names(env.dict) - guard, |fields| + 1
  {
    if fields == [] then []
    else
      var last := fields[|fields| - 1];
      Slots(env, t, fields[..|fields| - 1], guard) + [SlotOf(env, t, last, guard)]
  }

  /** `computeLayoutInternal`. */
  ghost function Internal(env: Env, t: Target, s: Struct, pack: nat, guard: set<string>): StructLayout
    decreases Names(env.dict) - guard, |s.fields| + 2
  {
    Finish(Place(Slots(env, t, s.fields, guard), pack))
  }

  function RootPack(s: Struct, t: Target, override: Option<nat>): nat {
    if override.Some? then override.value else NestedPack(s, t)
  }

  /** `computeLayout`: one struct laid out on its own. */
  ghost function Standalone(env: Env, t: Target, s: Struct, override: Option<nat>): StructLayout {
    Internal(env, t, s, RootPack(s, t, override), {s.name})
  }

  /** `buildStructCatalog`: every struct with members, each laid out on its own. */
  ghost function Catalog(env: Env, t: Target, structs: seq<Struct>, override: Option<nat>): seq<CatalogEntry> {
    if structs == [] then []
    else
      var last := structs[|structs| - 1];
      var init := Catalog(env, t, structs[..|structs| - 1], override);
      if last.fields == [] then init
      else init + [CatalogEntry(last.name, Standalone(env, t, last, override), last.pack)]
  }

  lemma {:induction false} SlotAt(env: Env, t: Target, fields: seq<Field>, guard: set<string>, i: nat)
    requires i < |fields|
    ensures Slots(env, t, fields, guard)[i] == SlotOf(env, t, fields[i], guard)
  {
    if i < |fields| - 1 {
      SlotAt(env, t, fields[..|fields| - 1], guard, i);
    }
  }

  lemma {:induction false} PlacePrefix(slots: seq<Slot>, pack: nat, i: nat)
    requires i < |slots|
    ensures Place(slots[..i + 1], pack) == PlaceOne(Place(slots[..i], pack), slots[i], pack)
  {
    assert slots[..i + 1][..i] == slots[..i];
  }

  lemma {:induction false} CatalogPrefix(env: Env, t: Target, structs: seq<Struct>, override: Option<nat>, i: nat)
    requires i < |structs|
    ensures Catalog(env, t, structs[..i + 1], override)
      == if structs[i].fields == [] then Catalog(env, t, structs[..i], override)
         else Catalog(env, t, structs[..i], override)
              + [CatalogEntry(structs[i].name, Standalone(env, t, structs[i], override), structs[i].pack)]
  {
    assert structs[..i + 1][..i] == structs[..i];
  }

  // ---- The engine --------------------------------------------------------------

  class LayoutEngine {
    /** RECURSION_GUARD: the structs whose layout is in progress. */
    var guard: set<string>

    constructor ()
      ensures guard == {}
    {
      guard := {};
    }

    method ResolveElement(env: Env, t: Target, f: Field) returns (e: Element)
      modifies this
      ensures e == ElementOf(env, t, f, old(guard))
      ensures guard == old(guard)
      decreases Names(env.dict) - guard, 0
    {
      if f.parsed.isPointer {
        return Element(PointerSize(t), PointerSize(t), None, false);
      }
      var resolved := ResolveType(env, f.parsed.base);
      match resolved
      case Prim(c) =>
        e := Element(PrimSize(c, t), PrimAlign(c, t), None, false);
      case Unresolved =>
        e := UnknownElement(t);
      case Nested(n) =>
        if n.name in guard {
          e := UnknownElement(t);
        } else {
          assert n.name in Names(env.dict);
          guard := guard + {n.name};
          var inner := ComputeInternal(env, t, n, NestedPack(n, t));
          e := Element(inner.total, inner.align, Some(n.name), inner.estimated);
          guard := guard - {n.name};
        }
    }

    method ResolveSlot(env: Env, t: Target, f: Field) returns (s: Slot)
      modifies this
      ensures s == SlotOf(env, t, f, old(guard))
      ensures guard == old(guard)
      decreases Names(env.dict) - guard, 1
    {
      var e := ResolveElement(env, t, f);
      s := SlotFrom(f, e);
    }

    /** One turn of the layout loop for a resolved member: record the gap, place it, advance. */
    static method PlaceMember(p: Progress, s: Slot, pack: nat) returns (r: Progress)
      ensures r == PlaceOne(p, s, pack)
    {
      var gaps, align := p.gaps, p.align;
      var eff := Min(s.align, pack);
      var aligned := AlignUp(p.offset, eff);
      if aligned > p.offset {
        var boundary := LastIsStruct(p.fields) && s.structType.Some?;
        gaps := gaps + [Gap(LastName(p.fields), Some(s.name), p.offset, aligned - p.offset, eff, Some(s.causedBy),
                            boundary)];
      }
      if align < eff { align := eff; }
      var field := FieldLayout(s.name, s.raw, s.bitWidth, aligned, s.size, eff,
                               s.isPointer, s.isArray, s.arrayLength, s.structType);
      r := Progress(p.fields + [field], gaps, aligned + s.size, align, p.padding + (aligned - p.offset),
                    p.estimated || s.estimated);
    }

    static method CloseStruct(p: Progress) returns (r: StructLayout)
      ensures r == Finish(p)
    {
      var gaps, total := p.gaps, AlignUp(p.offset, p.align);
      if total > p.offset {
        gaps := gaps + [Gap(LastName(p.fields), None, p.offset, total - p.offset, p.align, None, false)];
      }
      r := StructLayout(p.fields, total, p.align, p.padding + (total - p.offset), gaps, p.estimated);
    }

    method ComputeInternal(env: Env, t: Target, s: Struct, pack: nat) returns (r: StructLayout)
      modifies this
      ensures r == Internal(env, t, s, pack, old(guard))
      ensures guard == old(guard)
      decreases Names(env.dict) - guard, |s.fields| + 2
    {
      ghost var slots := Slots(env, t, s.fields, guard);
      var p := START;
      for i := 0 to |s.fields|
        invariant guard == old(guard)
        invariant p == Place(slots[..i], pack)
      {
        SlotAt(env, t, s.fields, guard, i);
        PlacePrefix(slots, pack, i);
        var slot := ResolveSlot(env, t, s.fields[i]);
        p := PlaceMember(p, slot, pack);
      }
      assert slots[..|s.fields|] == slots;
      r := CloseStruct(p);
    }

    /** The body shared by the two entry points: clear the guard, enter the root, lay out, leave. */
    method LayoutRoot(env: Env, t: Target, s: Struct, override: Option<nat>) returns (r: StructLayout)
      modifies this
      ensures r == Standalone(env, t, s, override)
      ensures guard == {}
    {
      guard := {};
      guard := guard + {s.name};
      assert guard == {s.name};
      r := ComputeInternal(env, t, s, RootPack(s, t, override));
      guard := guard - {s.name};
    }

    method ComputeLayout(d: TypeDict, t: Target, s: Struct, override: Option<nat>) returns (r: StructLayout)
      modifies this
      ensures r == Standalone(EnvOf(d), t, s, override)
      ensures guard == {}
    {
      var typedefs := BuildTypedefMap(d);
      assert Env(d, typedefs, PRIMITIVES) == EnvOf(d);
      r := LayoutRoot(Env(d, typedefs, PRIMITIVES), t, s, override);
    }

    method LayoutAll(env: Env, t: Target, override: Option<nat>) returns (layouts: seq<CatalogEntry>)
      modifies this
      ensures layouts == Catalog(env, t, env.dict.structs, override)
      ensures guard == if layouts == [] then old(guard) else {}
    {
      var structs := env.dict.structs;
      layouts := [];
      for i := 0 to |structs|
        invariant layouts == Catalog(env, t, structs[..i], override)
        invariant guard == if layouts == [] then old(guard) else {}
      {
        CatalogPrefix(env, t, structs, override, i);
        if |structs[i].fields| != 0 {
          var r := LayoutRoot(env, t, structs[i], override);
          layouts := layouts + [CatalogEntry(structs[i].name, r, structs[i].pack)];
        }
      }
      assert structs[..|structs|] == structs;
    }

    method BuildStructCatalog(d: TypeDict, t: Target, override: Option<nat>) returns (layouts: seq<CatalogEntry>)
      modifies this
      ensures layouts == Catalog(EnvOf(d), t, d.structs, override)
      ensures guard == if layouts == [] then old(guard) else {}
    {
      var typedefs := BuildTypedefMap(d);
      assert Env(d, typedefs, PRIMITIVES) == EnvOf(d);
      layouts := LayoutAll(Env(d, typedefs, PRIMITIVES), t, override);
    }
  }
}
