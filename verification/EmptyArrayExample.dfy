/** A struct whose own catalog entry does not expand into a tiling: an empty array in front of a gap. */
module EmptyArrayExample {
  import opened Alignment
  import opened TypeDictionary
  import opened Layout
  import opened Placement
  import opened Composition
  import opened CompositionTree

  /** `struct M { char a; char b[0]; int c; };`: `b` and the gap in front of `c` both start at byte 1. */
  const A := Field("a", "char", "char", FieldType("char", false, NotArray, None))
  const B := Field("b[0]", "char", "char", FieldType("char", false, Fixed(0), None))
  const C := Field("c", "int", "int", FieldType("int", false, NotArray, None))
  const M := Struct("M", [A, B, C], None)
  const DICT := TypeDict([M], [])

  lemma LastMapWins(a: map<string, PrimClass>, b: map<string, PrimClass>, key: string)
    requires key in b
    ensures key in a + b && (a + b)[key] == b[key]
  {
  }

  lemma CharRow()
    ensures "char" in PRIMITIVES && PRIMITIVES["char"] == Byte
  {
    LastMapWins(OTHER_ROWS + LONG_LONG_ROWS + LONG_ROWS + HALF_ROWS + WORD_ROWS, BYTE_ROWS, "char");
  }

  lemma IntRow()
    ensures "int" in PRIMITIVES && PRIMITIVES["int"] == Word
  {
    LastMapWins(OTHER_ROWS + LONG_LONG_ROWS + LONG_ROWS + HALF_ROWS, WORD_ROWS, "int");
    assert "int" !in BYTE_ROWS;
  }

  lemma CharAndInt()
    ensures Primitive(PRIMITIVES, "char") == Some(Byte) && Primitive(PRIMITIVES, "int") == Some(Word)
  {
    CharRow();
    IntRow();
    RowsFoundExactly("char");
    RowsFoundExactly("int");
  }

  function SlotA(): Slot { SlotFrom(A, Element(1, 1, None, false)) }

  function SlotB(): Slot { SlotFrom(B, Element(1, 1, None, false)) }

  function SlotC(): Slot { SlotFrom(C, Element(4, 4, None, false)) }

  lemma {:induction false} PrimitiveSlot(env: Env, t: Target, fields: seq<Field>, guard: set<string>, i: nat, c: PrimClass)
    requires i < |fields| && IsPrimitive(env, fields[i], c)
    ensures Slots(env, t, fields, guard)[i] == SlotFrom(fields[i], Element(PrimSize(c, t), PrimAlign(c, t), None, false))
  {
    SlotAt(env, t, fields, guard, i);
  }

  ghost predicate IsPrimitive(env: Env, f: Field, c: PrimClass) {
    !f.parsed.isPointer && Primitive(env.prims, f.parsed.base) == Some(c)
  }

  lemma {:induction false} ThreeSlots(env: Env, t: Target, fields: seq<Field>, guard: set<string>,
                                      a: PrimClass, b: PrimClass, c: PrimClass)
    requires |fields| == 3
    requires IsPrimitive(env, fields[0], a) && IsPrimitive(env, fields[1], b) && IsPrimitive(env, fields[2], c)
    ensures Slots(env, t, fields, guard)
      == [SlotFrom(fields[0], Element(PrimSize(a, t), PrimAlign(a, t), None, false)),
          SlotFrom(fields[1], Element(PrimSize(b, t), PrimAlign(b, t), None, false)),
          SlotFrom(fields[2], Element(PrimSize(c, t), PrimAlign(c, t), None, false))]
  {
    PrimitiveSlot(env, t, fields, guard, 0, a);
    PrimitiveSlot(env, t, fields, guard, 1, b);
    PrimitiveSlot(env, t, fields, guard, 2, c);
  }

  ghost predicate KnowsMembers(env: Env) {
    env.dict == DICT && IsPrimitive(env, A, Byte) && IsPrimitive(env, B, Byte) && IsPrimitive(env, C, Word)
  }

  lemma DictKnows()
    ensures KnowsMembers(EnvOf(DICT))
  {
    CharAndInt();
  }

  lemma {:induction false} SlotsOfM(env: Env, t: Target)
    requires KnowsMembers(env)
    ensures Slots(env, t, M.fields, {"M"}) == [SlotA(), SlotB(), SlotC()]
  {
    ThreeSlots(env, t, M.fields, {"M"}, Byte, Byte, Word);
  }

  /** `c` goes to byte 4 and leaves a gap at byte 1, where the empty `b` is. */
  lemma {:induction false} PlacesOfM(pack: nat)
    requires pack >= 4
    ensures var p := Place([SlotA(), SlotB(), SlotC()], pack);
            && |p.gaps| == 1 && p.gaps[0].offset == 1
            && p.fields[1].offset == 1 && p.fields[1].size == 0
            && forall i :: 0 <= i < 3 ==> p.fields[i].structType == None
  {
    var all := [SlotA(), SlotB(), SlotC()];
    var one, two := all[..1], all[..2];
    assert one[..0] == [] && two[..1] == one && all[..2] == two;
    assert Place(one, pack) == PlaceOne(START, SlotA(), pack);
    assert Place(two, pack) == PlaceOne(Place(one, pack), SlotB(), pack);
    assert Place(all, pack) == PlaceOne(Place(two, pack), SlotC(), pack);
    assert Place(two, pack).offset == 1 && Place(two, pack).gaps == [];
  }

  /** The parts of members that embed no struct render those members. */
  lemma {:induction false} ScalarsRender(catalog: seq<CatalogEntry>, fields: seq<FieldLayout>, depth: nat,
                                         maxDepth: nat, seen: set<string>, base: nat)
    requires forall i :: 0 <= i < |fields| ==> fields[i].structType == None
    ensures Renders(FieldParts(catalog, fields, depth, maxDepth, seen, base), fields, base)
  {
    forall i | 0 <= i < |fields|
      ensures FieldParts(catalog, fields, depth, maxDepth, seen, base)[i]
        == Scalar(fields[i].name, base + fields[i].offset, fields[i].size)
    {
      FieldPartAt(catalog, fields, depth, maxDepth, seen, base, i);
    }
  }

  lemma {:induction false} EntryOfM(env: Env, t: Target)
    requires KnowsMembers(env)
    ensures LayoutOf(Catalog(env, t, [M], None), "M")
      == Some(Finish(Place([SlotA(), SlotB(), SlotC()], DefaultPack(t))))
  {
    SlotsOfM(env, t);
    CatalogLookup(env, t, [M], None, "M");
    assert M in [M];
  }

  /** The parts of struct `name`'s catalog entry do not follow one another over exactly its bytes. */
  ghost predicate FailsToTile(catalog: seq<CatalogEntry>, name: string, maxDepth: nat) {
    && LayoutOf(catalog, name).Some?
    && !Tiles(PartsOf(catalog, name, 0, maxDepth, {name}, 0), 0, LayoutOf(catalog, name).value.total)
  }

  /** On either target the parts of the struct's own catalog entry do not tile it. */
  lemma {:induction false} EmptyArrayBreaksTiling(t: Target, maxDepth: nat)
    ensures FailsToTile(Catalog(EnvOf(DICT), t, DICT.structs, None), "M", maxDepth)
  {
    DictKnows();
    BreaksIn(EnvOf(DICT), t, maxDepth);
  }

  lemma {:induction false} BreaksIn(env: Env, t: Target, maxDepth: nat)
    requires KnowsMembers(env)
    ensures FailsToTile(Catalog(env, t, [M], None), "M", maxDepth)
  {
    EntryOfM(env, t);
    EmptyBreaks([SlotA(), SlotB(), SlotC()], DefaultPack(t), Catalog(env, t, [M], None), maxDepth);
  }

  lemma {:induction false} EmptyBreaks(slots: seq<Slot>, pack: nat, catalog: seq<CatalogEntry>, maxDepth: nat)
    requires slots == [SlotA(), SlotB(), SlotC()] && pack >= 4
    requires LayoutOf(catalog, "M") == Some(Finish(Place(slots, pack)))
    ensures !Tiles(PartsOf(catalog, "M", 0, maxDepth, {"M"}, 0), 0, Finish(Place(slots, pack)).total)
  {
    var r := Finish(Place(slots, pack));
    PlacesOfM(pack);
    ScalarsRender(catalog, r.fields, 0, maxDepth, {"M"}, 0);
    assert r.fields[1].size == 0 && r.gaps[0].offset == r.fields[1].offset;
    LevelTilesExactly(slots, pack, r, FieldParts(catalog, r.fields, 0, maxDepth, {"M"}, 0), 0);
  }
}
