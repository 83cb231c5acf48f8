/** A packed struct with an array of structs whose members are not aligned. */
module PackedArrayExample {
  import opened Alignment
  import opened TypeDictionary
  import opened Layout
  import opened Placement
  import opened CrossTarget
  import opened WellPackedLayouts
  import EmptyArrayExample

  /** `struct I { int x; };` and, with pack 1, `struct O { char a; struct I v[2]; };`. */
  const X := Field("x", "int", "int", FieldType("int", false, NotArray, None))
  const A := Field("a", "char", "char", FieldType("char", false, NotArray, None))
  const V := Field("v[2]", "struct I", "I", FieldType("I", false, Fixed(2), None))
  const I := Struct("I", [X], None)
  const O := Struct("O", [A, V], Some(1))
  const DICT := TypeDict([I, O], [])

  ghost predicate KnowsMembers(env: Env) {
    && env.dict == DICT && EmptyArrayExample.IsPrimitive(env, A, Byte) && EmptyArrayExample.IsPrimitive(env, X, Word)
    && Resolve(env, "I") == Nested(I)
  }

  lemma DictKnows()
    ensures KnowsMembers(EnvOf(DICT))
  {
    PlainMembers(EnvOf(DICT));
    ShortNameMissed("I");
    IFound(EnvOf(DICT));
  }

  lemma PlainMembers(env: Env)
    requires env.prims == PRIMITIVES
    ensures EmptyArrayExample.IsPrimitive(env, A, Byte) && EmptyArrayExample.IsPrimitive(env, X, Word)
  {
    EmptyArrayExample.CharAndInt();
  }

  lemma {:induction false} IFound(env: Env)
    requires env.dict == DICT && env.typedefs == TypedefsAfter(DICT, 0) && Primitive(env.prims, "I") == None
    ensures Resolve(env, "I") == Nested(I)
  {
    assert DICT.structs[0] == I;
    FindsItself(env, I);
  }

  /** Without aliases a struct whose name no table row bears resolves to itself. */
  lemma {:induction false} FindsItself(env: Env, s: Struct)
    requires env.dict.aliases == [] && env.typedefs == TypedefsAfter(env.dict, 0)
    requires Primitive(env.prims, s.name) == None && FindStruct(env.dict.structs, s.name) == Some(s)
    ensures Resolve(env, s.name) == Nested(s)
  {
    TypedefMapSound(env.dict, 0);
  }

  lemma {:induction false} OneSlot(slots: seq<Slot>, pack: nat)
    requires |slots| == 1 && slots[0].size == 4 && slots[0].align == 4 && pack >= 4
    ensures var r := Finish(Place(slots, pack)); r.total == 4 && r.align == 4
  {
    assert slots[..0] == [];
    assert Place(slots, pack) == PlaceOne(START, slots[0], pack);
  }

  lemma {:induction false} InnerLayout(env: Env, t: Target, guard: set<string>)
    requires KnowsMembers(env)
    ensures var r := Internal(env, t, I, NestedPack(I, t), guard); r.total == 4 && r.align == 4
  {
    EmptyArrayExample.PrimitiveSlot(env, t, I.fields, guard, 0, Word);
    OneSlot(Slots(env, t, I.fields, guard), NestedPack(I, t));
  }

  lemma {:induction false} SecondAtOne(slots: seq<Slot>)
    requires |slots| == 2 && slots[0].size == 1 && slots[0].align == 1
    ensures Place(slots, 1).fields[1].offset == 1
  {
    FieldAt(slots, 1, 1);
    assert slots[..1][..0] == [];
    assert Place(slots[..1], 1) == PlaceOne(START, slots[0], 1);
  }

  /** `char` takes byte 0 and the pack lets the array begin right behind it. */
  lemma {:induction false} ArrayAtOne(env: Env, t: Target)
    requires KnowsMembers(env)
    ensures var r := Standalone(env, t, O, None); |r.fields| == 2 && r.fields[1].offset == 1
  {
    EmptyArrayExample.PrimitiveSlot(env, t, O.fields, {"O"}, 0, Byte);
    SecondAtOne(Slots(env, t, O.fields, {"O"}));
  }

  lemma PacksArePowers()
    ensures WellPacked(DICT) && Pow2(1)
  {
  }

  /** In this dictionary, whose packs are powers of two, some member of some element is not aligned. */
  lemma PackedArrayMisaligned(t: Target)
    ensures WellPacked(DICT) && Misaligned(EnvOf(DICT), t)
  {
    PacksArePowers();
    DictKnows();
    ArrayMisaligned(EnvOf(DICT), t);
  }

  /** The array of `I` in the catalog entry of `O` starts where not all members of `I` are aligned. */
  ghost predicate Misaligned(env: Env, t: Target) {
    var outer, inner := Standalone(env, t, O, None), Internal(env, t, I, NestedPack(I, t), {O.name} + {I.name});
    |outer.fields| == 2 && !AlignedFrom(inner, outer.fields[1].offset)
  }

  lemma {:induction false} ArrayMisaligned(env: Env, t: Target)
    requires KnowsMembers(env) && WellPacked(env.dict) && Pow2(1)
    ensures Misaligned(env, t)
  {
    InnerLayout(env, t, {O.name} + {I.name});
    ArrayAtOne(env, t);
    NamesDiffer();
    EmbeddedArrayAlignedExactly(env, t, O, 1, {O.name}, 1, I);
  }

  lemma NamesDiffer()
    ensures I.name !in {O.name}
  {
    assert "I"[0] != "O"[0];
  }
}
