/** The struct dictionary, the primitive tables and the resolution of type names. */
module TypeDictionary {
  import opened Alignment

  datatype Target = Bits32 | Bits64

  /** `isArray` with `arrayLength`: a numeric extent product, or an extent that is not numeric. */
  datatype ArrayShape = NotArray | Fixed(length: nat) | Unsized

  /** What `parseFieldType` returns for one member declaration. */
  datatype FieldType = FieldType(base: string, isPointer: bool, arr: ArrayShape, bitWidth: Option<nat>)

  /** `token` is the type name left once qualifiers, signs, pointers and extents are stripped. */
  datatype Field = Field(name: string, raw: string, token: string, parsed: FieldType)

  datatype Struct = Struct(name: string, fields: seq<Field>, pack: Option<nat>)

  /** Aliases are the entries of the `typedefAliases` record, in insertion order. */
  datatype TypeDict = TypeDict(structs: seq<Struct>, aliases: seq<(string, string)>)

  ghost predicate UniqueNames(structs: seq<Struct>) {
    forall i, j :: 0 <= i < j < |structs| ==> structs[i].name != structs[j].name
  }

  /** A dictionary, the alias map built from it, and the keys of the primitive tables. */
  datatype Env = Env(dict: TypeDict, typedefs: map<string, string>, prims: map<string, PrimClass>)

  // ---- Primitive tables --------------------------------------------------------

  /** Names that share one row in each of the two tables. */
  datatype PrimClass = Byte | Half | Word | LongInt | LongLong | Float | Double | LongDouble | WordSized

  const BYTE_ROWS: map<string, PrimClass> := map[
    "char" := Byte, "signed char" := Byte, "unsigned char" := Byte, "bool" := Byte, "_Bool" := Byte,
    "uint8_t" := Byte, "int8_t" := Byte
  ]

  const HALF_ROWS: map<string, PrimClass> := map[
    "short" := Half, "signed short" := Half, "unsigned short" := Half, "short int" := Half,
    "unsigned short int" := Half, "uint16_t" := Half, "int16_t" := Half
  ]

  const WORD_ROWS: map<string, PrimClass> := map[
    "int" := Word, "signed int" := Word, "unsigned int" := Word, "unsigned" := Word, "uint32_t" := Word,
    "int32_t" := Word
  ]

  const LONG_ROWS: map<string, PrimClass> := map[
    "long" := LongInt, "signed long" := LongInt, "unsigned long" := LongInt, "long int" := LongInt,
    "unsigned long int" := LongInt
  ]

  const LONG_LONG_ROWS: map<string, PrimClass> := map[
    "long long" := LongLong, "signed long long" := LongLong, "unsigned long long" := LongLong,
    "long long int" := LongLong, "unsigned long long int" := LongLong, "uint64_t" := LongLong,
    "int64_t" := LongLong
  ]

  const OTHER_ROWS: map<string, PrimClass> := map[
    "float" := Float, "double" := Double, "long double" := LongDouble,
    "size_t" := WordSized, "ssize_t" := WordSized, "ptrdiff_t" := WordSized, "intptr_t" := WordSized,
    "uintptr_t" := WordSized
  ]

  /** The rows of the tables; both tables have the same keys. */
  const PRIMITIVES: map<string, PrimClass> :=
    OTHER_ROWS + LONG_LONG_ROWS + LONG_ROWS + HALF_ROWS + WORD_ROWS + BYTE_ROWS

  function PrimSize(c: PrimClass, t: Target): nat {
    match c
    case Byte => 1
    case Half => 2
    case Word => 4
    case LongInt => if t.Bits64? then 8 else 4
    case LongLong => 8
    case Float => 4
    case Double => 8
    case LongDouble => if t.Bits64? then 16 else 12
    case WordSized => if t.Bits64? then 8 else 4
  }

  function PrimAlign(c: PrimClass, t: Target): nat {
    match c
    case Byte => 1
    case Half => 2
    case Word => 4
    case LongInt => if t.Bits64? then 8 else 4
    case LongLong => if t.Bits64? then 8 else 4
    case Float => 4
    case Double => if t.Bits64? then 8 else 4
    case LongDouble => if t.Bits64? then 16 else 4
    case WordSized => if t.Bits64? then 8 else 4
  }

  function PointerSize(t: Target): nat { if t.Bits64? then 8 else 4 }

  function DefaultPack(t: Target): nat { if t.Bits64? then 8 else 4 }

  function LowerChar(c: char): char {
    if 'A' <= c <= 'Z' then ((c as int) + 32) as char else c
  }

  function ToLower(s: string): (r: string)
    ensures |r| == |s|
    ensures forall i :: 0 <= i < |s| ==> r[i] == LowerChar(s[i])
  {
    if s == [] then [] else [LowerChar(s[0])] + ToLower(s[1..])
  }

  /** Table lookup: both keys the code tries are the lower-cased name. */
  function Primitive(prims: map<string, PrimClass>, name: string): Option<PrimClass> {
    var key := ToLower(name);
    if key in prims then Some(prims[key]) else None
  }

  /** No lookup key has a capital letter, so no lookup, whatever the name, ever reads the `_Bool` row. */
  lemma {:induction false} BoolRowNeverRead(prims: map<string, PrimClass>, name: string)
    ensures Primitive(prims, name) == Primitive(prims - {"_Bool"}, name)
  {
    if |name| == 5 {
      assert ToLower(name)[1] == LowerChar(name[1]) != 'B';
      assert "_Bool"[1] == 'B';
    }
  }

  /** Three letters or more, none of them a capital, and no underscore in front. */
  predicate PlainName(name: string) {
    |name| >= 3 && name[0] != '_' && forall i :: 0 <= i < |name| ==> !('A' <= name[i] <= 'Z')
  }

  lemma {:induction false} LowerStays(name: string)
    requires PlainName(name)
    ensures ToLower(name) == name
  {
  }

  lemma ByteRowsArePlain(name: string)
    requires name in BYTE_ROWS && name != "_Bool"
    ensures PlainName(name)
  {
  }

  lemma HalfRowsArePlain(name: string)
    requires name in HALF_ROWS
    ensures PlainName(name)
  {
  }

  lemma WordRowsArePlain(name: string)
    requires name in WORD_ROWS
    ensures PlainName(name)
  {
  }

  lemma LongRowsArePlain(name: string)
    requires name in LONG_ROWS
    ensures PlainName(name)
  {
  }

  lemma LongLongRowsArePlain(name: string)
    requires name in LONG_LONG_ROWS
    ensures PlainName(name)
  {
  }

  lemma OtherRowsArePlain(name: string)
    requires name in OTHER_ROWS
    ensures PlainName(name)
  {
  }

  lemma RowsArePlain(name: string)
    requires name in PRIMITIVES && name != "_Bool"
    ensures PlainName(name)
  {
    if name in BYTE_ROWS { ByteRowsArePlain(name); }
    else if name in HALF_ROWS { HalfRowsArePlain(name); }
    else if name in WORD_ROWS { WordRowsArePlain(name); }
    else if name in LONG_ROWS { LongRowsArePlain(name); }
    else if name in LONG_LONG_ROWS { LongLongRowsArePlain(name); }
    else { OtherRowsArePlain(name); }
  }

  lemma BoolRowOnlyCapital()
    ensures "_bool" !in PRIMITIVES && "_Bool" in PRIMITIVES
  {
    assert "_bool"[1] != "_Bool"[1];
    if "_bool" in PRIMITIVES { RowsArePlain("_bool"); }
  }

  /** No row has a name this short. */
  lemma ShortNameMissed(name: string)
    requires |name| < 3
    ensures Primitive(PRIMITIVES, name) == None
  {
    if ToLower(name) in PRIMITIVES { RowsArePlain(ToLower(name)); }
  }

  /** Every row of the tables is found under its own spelling, except exactly the one spelled `_Bool`. */
  lemma {:induction false} RowsFoundExactly(name: string)
    requires name in PRIMITIVES
    ensures Primitive(PRIMITIVES, name) == Some(PRIMITIVES[name]) <==> name != "_Bool"
  {
    if name != "_Bool" {
      RowsArePlain(name);
      LowerStays(name);
    } else {
      assert ToLower("_Bool") == "_bool";
      BoolRowOnlyCapital();
    }
  }

  // ---- Typedef resolution ------------------------------------------------------

  function FindStruct(structs: seq<Struct>, name: string): (r: Option<Struct>)
    ensures r.Some? ==> r.value in structs && r.value.name == name
    ensures r.None? <==> forall s :: s in structs ==> s.name != name
  {
    if structs == [] then None
    else if structs[0].name == name then Some(structs[0])
    else FindStruct(structs[1..], name)
  }

  /** Record lookup; an absent alias and an empty target both read as "no alias". */
  function AliasOf(aliases: seq<(string, string)>, name: string): (r: Option<string>)
    ensures r.Some? ==> (name, r.value) in aliases && r.value != ""
  {
    if aliases == [] then None
    else if aliases[0].0 == name then (if aliases[0].1 == "" then None else Some(aliases[0].1))
    else AliasOf(aliases[1..], name)
  }

  /** `canonicalName` once the text is stripped: follow aliases for at most `hops` steps. */
  function Canonical(aliases: seq<(string, string)>, name: string, hops: nat): string
    decreases hops
  {
    if hops == 0 then name
    else match AliasOf(aliases, name)
      case None => name
      case Some(next) => if next == name then name else Canonical(aliases, next, hops - 1)
  }

  function ChaseAliasToPrimitive(env: Env, name: string, hops: nat): Option<PrimClass>
    decreases hops
  {
    if hops == 0 then None
    else match AliasOf(env.dict.aliases, name)
      case None => None
      case Some(next) =>
        if next == name then None
        else if FindStruct(env.dict.structs, next).Some? then None
        else if Primitive(env.prims, next).Some? then Primitive(env.prims, next)
        else ChaseAliasToPrimitive(env, next, hops - 1)
  }

  /** One step of the chase: a real alias entry that is no self-alias and does not land on a struct. */
  predicate ChaseLink(env: Env, a: string, b: string) {
    AliasOf(env.dict.aliases, a) == Some(b) && a != b && FindStruct(env.dict.structs, b).None?
  }

  /** A chain of aliases that meets its first primitive, `c`, at its end. */
  ghost predicate LeadsToPrimitive(env: Env, chain: seq<string>, c: PrimClass) {
    && |chain| >= 2
    && (forall i :: 0 < i < |chain| ==> ChaseLink(env, chain[i - 1], chain[i]))
    && (forall i :: 0 < i < |chain| - 1 ==> Primitive(env.prims, chain[i]) == None)
    && Primitive(env.prims, chain[|chain| - 1]) == Some(c)
  }

  /** `name` leads to the primitive `c` in at most `hops` steps. */
  ghost predicate ChasesTo(env: Env, name: string, hops: nat, c: PrimClass) {
    exists chain :: LeadsToPrimitive(env, chain, c) && chain[0] == name && |chain| <= hops + 1
  }

  lemma {:induction false} ChaseFindsChain(env: Env, name: string, hops: nat) returns (chain: seq<string>)
    requires ChaseAliasToPrimitive(env, name, hops).Some?
    ensures LeadsToPrimitive(env, chain, ChaseAliasToPrimitive(env, name, hops).value)
    ensures chain[0] == name && |chain| <= hops + 1
    decreases hops
  {
    var next := AliasOf(env.dict.aliases, name).value;
    assert ChaseLink(env, name, next);
    if Primitive(env.prims, next).Some? {
      chain := [name, next];
    } else {
      var rest := ChaseFindsChain(env, next, hops - 1);
      chain := [name] + rest;
      forall i | 0 < i < |chain| ensures ChaseLink(env, chain[i - 1], chain[i]) {
        if i > 1 { assert ChaseLink(env, rest[i - 2], rest[i - 1]); }
      }
    }
  }

  lemma {:induction false} ChainIsChased(env: Env, hops: nat, chain: seq<string>, c: PrimClass)
    requires LeadsToPrimitive(env, chain, c) && |chain| <= hops + 1
    ensures ChaseAliasToPrimitive(env, chain[0], hops) == Some(c)
    decreases hops
  {
    assert ChaseLink(env, chain[0], chain[1]);
    if |chain| > 2 {
      var rest := chain[1..];
      forall i | 0 < i < |rest| ensures ChaseLink(env, rest[i - 1], rest[i]) {
        assert ChaseLink(env, chain[i], chain[i + 1]);
      }
      ChainIsChased(env, hops - 1, rest, c);
    }
  }

  /**
   * The chase yields a primitive exactly when a chain of at most that many alias entries, none of
   * them a self-alias and none leading to a struct, meets it as its first primitive.
   */
  lemma {:induction false} ChaseExactly(env: Env, name: string, hops: nat, c: PrimClass)
    ensures ChaseAliasToPrimitive(env, name, hops) == Some(c) <==> ChasesTo(env, name, hops, c)
  {
    if ChaseAliasToPrimitive(env, name, hops) == Some(c) {
      var chain := ChaseFindsChain(env, name, hops);
    }
    if chain :| LeadsToPrimitive(env, chain, c) && chain[0] == name && |chain| <= hops + 1 {
      ChainIsChased(env, hops, chain, c);
    }
  }

  method ChasePrimitive(env: Env, typeName: string) returns (r: Option<PrimClass>)
    ensures r == ChaseAliasToPrimitive(env, typeName, 6)
  {
    var name := typeName;
    for hops := 0 to 6
      invariant ChaseAliasToPrimitive(env, typeName, 6) == ChaseAliasToPrimitive(env, name, 6 - hops)
    {
      var next := AliasOf(env.dict.aliases, name);
      if next.None? || next.value == name { return None; }
      if FindStruct(env.dict.structs, next.value).Some? { return None; }
      var prim := Primitive(env.prims, next.value);
      if prim.Some? { return prim; }
      name := next.value;
    }
    return None;
  }

  /** The value the bounded chase stores for an alias, if it stores one. */
  function ChaseTypedef(aliases: seq<(string, string)>, m: map<string, string>, resolved: string, hops: nat)
    : Option<string>
    decreases hops
  {
    if hops == 0 then None
    else if resolved in m then Some(m[resolved])
    else match AliasOf(aliases, resolved)
      case None => Some(resolved)
      case Some(next) => if next == resolved then Some(resolved) else ChaseTypedef(aliases, m, next, hops - 1)
  }

  /** `a` is an alias of `b`, and not of itself. */
  predicate AliasLink(aliases: seq<(string, string)>, a: string, b: string) { AliasOf(aliases, a) == Some(b) && a != b }

  /** No alias leads on from here. */
  predicate AliasEnd(aliases: seq<(string, string)>, a: string) {
    AliasOf(aliases, a) == None || AliasOf(aliases, a) == Some(a)
  }

  ghost predicate AliasPath(aliases: seq<(string, string)>, chain: seq<string>) {
    |chain| > 0 && forall i :: 0 < i < |chain| ==> AliasLink(aliases, chain[i - 1], chain[i])
  }

  lemma {:induction false} AliasPathGrows(aliases: seq<(string, string)>, a: string, chain: seq<string>)
    requires AliasPath(aliases, chain) && AliasLink(aliases, a, chain[0])
    ensures AliasPath(aliases, [a] + chain)
  {
    var longer := [a] + chain;
    forall i | 0 < i < |longer| ensures AliasLink(aliases, longer[i - 1], longer[i]) {
      if i > 1 { assert AliasLink(aliases, chain[i - 2], chain[i - 1]); }
    }
  }

  lemma {:induction false} AliasPathTail(aliases: seq<(string, string)>, chain: seq<string>)
    requires AliasPath(aliases, chain) && |chain| > 1
    ensures AliasPath(aliases, chain[1..]) && AliasLink(aliases, chain[0], chain[1])
  {
    forall i | 0 < i < |chain| - 1 ensures AliasLink(aliases, chain[1..][i - 1], chain[1..][i]) {
      assert AliasLink(aliases, chain[i], chain[i + 1]);
    }
  }

  /** The chain ends at a name in the map, which gives the value, or where no alias leads on. */
  ghost predicate ArrivesAt(aliases: seq<(string, string)>, m: map<string, string>, chain: seq<string>, y: string) {
    && AliasPath(aliases, chain)
    && (forall i :: 0 <= i < |chain| - 1 ==> chain[i] !in m)
    && var last := chain[|chain| - 1];
       if last in m then y == m[last] else AliasEnd(aliases, last) && y == last
  }

  lemma {:induction false} ChaseTypedefArrives(aliases: seq<(string, string)>, m: map<string, string>, x: string, hops: nat)
    returns (chain: seq<string>)
    requires ChaseTypedef(aliases, m, x, hops).Some?
    ensures ArrivesAt(aliases, m, chain, ChaseTypedef(aliases, m, x, hops).value)
    ensures chain[0] == x && |chain| <= hops
    decreases hops
  {
    if x in m || AliasEnd(aliases, x) {
      chain := [x];
    } else {
      var next := AliasOf(aliases, x).value;
      var rest := ChaseTypedefArrives(aliases, m, next, hops - 1);
      AliasPathGrows(aliases, x, rest);
      chain := [x] + rest;
    }
  }

  lemma {:induction false} ArrivalIsChased(aliases: seq<(string, string)>, m: map<string, string>, chain: seq<string>,
                                           y: string, hops: nat)
    requires ArrivesAt(aliases, m, chain, y) && |chain| <= hops
    ensures ChaseTypedef(aliases, m, chain[0], hops) == Some(y)
    decreases hops
  {
    if |chain| > 1 {
      AliasPathTail(aliases, chain);
      ArrivalIsChased(aliases, m, chain[1..], y, hops - 1);
    }
  }

  /**
   * A value is stored for an alias exactly if at most that many names, linked by aliases, lead to a name
   * already in the map or to one without a further alias.
   */
  lemma {:induction false} ChaseTypedefExactly(aliases: seq<(string, string)>, m: map<string, string>, x: string,
                                               hops: nat, y: string)
    ensures ChaseTypedef(aliases, m, x, hops) == Some(y)
      <==> exists chain :: ArrivesAt(aliases, m, chain, y) && chain[0] == x && |chain| <= hops
  {
    if ChaseTypedef(aliases, m, x, hops) == Some(y) { var chain := ChaseTypedefArrives(aliases, m, x, hops); }
    if chain :| ArrivesAt(aliases, m, chain, y) && chain[0] == x && |chain| <= hops {
      ArrivalIsChased(aliases, m, chain, y, hops);
    }
  }

  /** `y` is where at most `hops` aliases lead from `x`, with none left over unless the hops ran out. */
  ghost predicate CanonicalAt(aliases: seq<(string, string)>, chain: seq<string>, hops: nat, y: string) {
    && AliasPath(aliases, chain) && |chain| <= hops + 1 && chain[|chain| - 1] == y
    && (|chain| <= hops ==> AliasEnd(aliases, y))
  }

  lemma {:induction false} CanonicalPath(aliases: seq<(string, string)>, x: string, hops: nat) returns (chain: seq<string>)
    ensures CanonicalAt(aliases, chain, hops, Canonical(aliases, x, hops)) && chain[0] == x
    decreases hops
  {
    if hops == 0 || AliasEnd(aliases, x) {
      chain := [x];
    } else {
      var rest := CanonicalPath(aliases, AliasOf(aliases, x).value, hops - 1);
      AliasPathGrows(aliases, x, rest);
      chain := [x] + rest;
    }
  }

  lemma {:induction false} PathIsCanonical(aliases: seq<(string, string)>, chain: seq<string>, hops: nat, y: string)
    requires CanonicalAt(aliases, chain, hops, y)
    ensures Canonical(aliases, chain[0], hops) == y
    decreases hops
  {
    if |chain| > 1 {
      AliasPathTail(aliases, chain);
      PathIsCanonical(aliases, chain[1..], hops - 1, y);
    }
  }

  lemma {:induction false} CanonicalExactly(aliases: seq<(string, string)>, x: string, hops: nat, y: string)
    ensures Canonical(aliases, x, hops) == y <==> exists chain :: CanonicalAt(aliases, chain, hops, y) && chain[0] == x
  {
    var path := CanonicalPath(aliases, x, hops);
    if chain :| CanonicalAt(aliases, chain, hops, y) && chain[0] == x { PathIsCanonical(aliases, chain, hops, y); }
  }

  function StructNames(structs: seq<Struct>): map<string, string> {
    if structs == [] then map[]
    else var last := structs[|structs| - 1].name; StructNames(structs[..|structs| - 1])[last := last]
  }

  /** The map after the first `n` alias entries have been offered. */
  function TypedefsAfter(d: TypeDict, n: nat): map<string, string>
    requires n <= |d.aliases|
  {
    if n == 0 then StructNames(d.structs)
    else
      var m, entry := TypedefsAfter(d, n - 1), d.aliases[n - 1];
      if entry.0 in m then m
      else match ChaseTypedef(d.aliases, m, entry.1, 4)
        case None => m
        case Some(c) => m[entry.0 := c]
  }

  function EnvOf(d: TypeDict): Env {
    Env(d, TypedefsAfter(d, |d.aliases|), PRIMITIVES)
  }

  method ResolveAlias(d: TypeDict, m: map<string, string>, canonical: string) returns (r: Option<string>)
    ensures r == ChaseTypedef(d.aliases, m, canonical, 4)
  {
    var resolved := canonical;
    for hop := 0 to 4
      invariant ChaseTypedef(d.aliases, m, canonical, 4) == ChaseTypedef(d.aliases, m, resolved, 4 - hop)
    {
      if resolved in m { return Some(m[resolved]); }
      var next := AliasOf(d.aliases, resolved);
      if next.None? || next.value == resolved { return Some(resolved); }
      resolved := next.value;
    }
    return None;
  }

  method BuildTypedefMap(d: TypeDict) returns (m: map<string, string>)
    ensures m == TypedefsAfter(d, |d.aliases|)
  {
    m := map[];
    for i := 0 to |d.structs|
      invariant m == StructNames(d.structs[..i])
    {
      assert d.structs[..i + 1][..i] == d.structs[..i];
      m := m[d.structs[i].name := d.structs[i].name];
    }
    assert d.structs[..|d.structs|] == d.structs;
    for i := 0 to |d.aliases|
      invariant m == TypedefsAfter(d, i)
    {
      var (alias, canonical) := d.aliases[i];
      if alias !in m {
        var target := ResolveAlias(d, m, canonical);
        if target.Some? { m := m[alias := target.value]; }
      }
    }
  }

  /** `chain` follows alias entries one at a time. */
  ghost predicate AliasChain(aliases: seq<(string, string)>, chain: seq<string>) {
    |chain| > 0 && forall i :: 0 <= i < |chain| - 1 ==> (chain[i], chain[i + 1]) in aliases
  }

  ghost predicate AliasReaches(aliases: seq<(string, string)>, a: string, b: string) {
    exists chain :: AliasChain(aliases, chain) && chain[0] == a && chain[|chain| - 1] == b
  }

  lemma AliasStep(aliases: seq<(string, string)>, a: string, b: string, c: string)
    requires (a, b) in aliases && AliasReaches(aliases, b, c)
    ensures AliasReaches(aliases, a, c)
  {
    var chain :| AliasChain(aliases, chain) && chain[0] == b && chain[|chain| - 1] == c;
    var longer := [a] + chain;
    forall i | 0 <= i < |longer| - 1 ensures (longer[i], longer[i + 1]) in aliases {
      if i > 0 { assert longer[i] == chain[i - 1] && longer[i + 1] == chain[i]; }
    }
    assert AliasChain(aliases, longer);
  }

  lemma AliasRefl(aliases: seq<(string, string)>, a: string)
    ensures AliasReaches(aliases, a, a)
  {
    assert AliasChain(aliases, [a]);
  }

  ghost predicate SoundTypedefs(d: TypeDict, m: map<string, string>) {
    forall a :: a in m ==> AliasReaches(d.aliases, a, m[a])
  }

  lemma {:induction false} ChaseSound(d: TypeDict, m: map<string, string>, resolved: string, hops: nat)
    requires SoundTypedefs(d, m)
    ensures var r := ChaseTypedef(d.aliases, m, resolved, hops);
            r.Some? ==> AliasReaches(d.aliases, resolved, r.value)
    decreases hops
  {
    AliasRefl(d.aliases, resolved);
    if hops > 0 && resolved !in m {
      var next := AliasOf(d.aliases, resolved);
      if next.Some? && next.value != resolved {
        ChaseSound(d, m, next.value, hops - 1);
        var r := ChaseTypedef(d.aliases, m, next.value, hops - 1);
        if r.Some? { AliasStep(d.aliases, resolved, next.value, r.value); }
      }
    }
  }

  lemma {:induction false} StructNamesAre(structs: seq<Struct>)
    ensures forall a :: a in StructNames(structs) <==> exists s :: s in structs && s.name == a
    ensures forall a :: a in StructNames(structs) ==> StructNames(structs)[a] == a
  {
    if structs != [] {
      var init, last := structs[..|structs| - 1], structs[|structs| - 1];
      StructNamesAre(init);
      assert structs == init + [last];
    }
  }

  /**
   * Every entry of the finished map leads from its alias to its target along real typedef entries,
   * and a struct's own name always maps to itself, whatever the alias table says about it.
   */
  lemma {:induction false} TypedefMapSound(d: TypeDict, n: nat)
    requires n <= |d.aliases|
    ensures SoundTypedefs(d, TypedefsAfter(d, n))
    ensures forall s :: s in d.structs ==> s.name in TypedefsAfter(d, n) && TypedefsAfter(d, n)[s.name] == s.name
  {
    if n == 0 {
      StructNamesAre(d.structs);
      forall a | a in StructNames(d.structs) ensures AliasReaches(d.aliases, a, a) { AliasRefl(d.aliases, a); }
    } else {
      TypedefMapSound(d, n - 1);
      var m, entry := TypedefsAfter(d, n - 1), d.aliases[n - 1];
      ChaseSound(d, m, entry.1, 4);
      var r := ChaseTypedef(d.aliases, m, entry.1, 4);
      if r.Some? { AliasStep(d.aliases, entry.0, entry.1, r.value); }
    }
  }

  /** From the target of alias entry `n` at most four linked names lead to `y`, given what is stored before it. */
  ghost predicate StoresAt(d: TypeDict, n: nat, y: string)
    requires n < |d.aliases|
  {
    exists chain :: ArrivesAt(d.aliases, TypedefsAfter(d, n), chain, y) && chain[0] == d.aliases[n].1 && |chain| <= 4
  }

  ghost predicate StoresNothing(d: TypeDict, n: nat)
    requires n < |d.aliases|
  {
    forall y :: !StoresAt(d, n, y)
  }

  /** Entry `i` is the first of that name that leads anywhere, and it leads to `y`. */
  ghost predicate FirstToStore(d: TypeDict, i: nat, name: string, y: string)
    requires i < |d.aliases|
  {
    && d.aliases[i].0 == name && StoresAt(d, i, y)
    && forall j :: 0 <= j < i && d.aliases[j].0 == name ==> StoresNothing(d, j)
  }

  ghost predicate NamesStruct(d: TypeDict, name: string) { exists s :: s in d.structs && s.name == name }

  ghost predicate Maps(d: TypeDict, n: nat, name: string, y: string)
    requires n <= |d.aliases|
  {
    if NamesStruct(d, name) then y == name else exists i :: 0 <= i < n && FirstToStore(d, i, name, y)
  }

  lemma {:induction false} StoresIsChase(d: TypeDict, n: nat, y: string)
    requires n < |d.aliases|
    ensures StoresAt(d, n, y) <==> ChaseTypedef(d.aliases, TypedefsAfter(d, n), d.aliases[n].1, 4) == Some(y)
  {
    ChaseTypedefExactly(d.aliases, TypedefsAfter(d, n), d.aliases[n].1, 4, y);
  }

  /**
   * The map takes a struct's name to itself, and any other name to where its first entry that leads
   * anywhere leads; it holds nothing else.
   */
  lemma {:induction false} TypedefMapExactly(d: TypeDict, n: nat, name: string, y: string)
    requires n <= |d.aliases|
    ensures name in TypedefsAfter(d, n) && TypedefsAfter(d, n)[name] == y <==> Maps(d, n, name, y)
  {
    if n == 0 {
      StructNamesAre(d.structs);
    } else {
      TypedefMapExactly(d, n - 1, name, y);
      MapsNext(d, n - 1, name, y);
    }
  }

  lemma {:induction false} MapsNext(d: TypeDict, n: nat, name: string, y: string)
    requires n < |d.aliases|
    requires name in TypedefsAfter(d, n) && TypedefsAfter(d, n)[name] == y <==> Maps(d, n, name, y)
    ensures name in TypedefsAfter(d, n + 1) && TypedefsAfter(d, n + 1)[name] == y <==> Maps(d, n + 1, name, y)
  {
    StoresIsChase(d, n, y);
    MissingStoresNothing(d, n, name);
    if !NamesStruct(d, name) && d.aliases[n].0 == name { FirstNext(d, n, name, y); }
  }

  /** Another entry of the name adds something only if none before it did. */
  lemma FirstNext(d: TypeDict, n: nat, name: string, y: string)
    requires n < |d.aliases| && !NamesStruct(d, name) && d.aliases[n].0 == name
    ensures Maps(d, n + 1, name, y) <==> Maps(d, n, name, y) || FirstToStore(d, n, name, y)
  {
    if i :| 0 <= i < n + 1 && FirstToStore(d, i, name, y) {
      if i < n { assert FirstToStore(d, i, name, y); }
    }
  }

  /** A name is missing exactly if it is no struct's and no entry of it so far leads anywhere. */
  lemma {:induction false} MissingStoresNothing(d: TypeDict, n: nat, name: string)
    requires n <= |d.aliases|
    ensures name !in TypedefsAfter(d, n)
      <==> !NamesStruct(d, name) && forall j :: 0 <= j < n && d.aliases[j].0 == name ==> StoresNothing(d, j)
  {
    if n == 0 {
      StructNamesAre(d.structs);
    } else {
      MissingStoresNothing(d, n - 1, name);
      NothingIsChase(d, n - 1);
    }
  }

  lemma {:induction false} NothingIsChase(d: TypeDict, n: nat)
    requires n < |d.aliases|
    ensures StoresNothing(d, n) <==> ChaseTypedef(d.aliases, TypedefsAfter(d, n), d.aliases[n].1, 4) == None
  {
    var r := ChaseTypedef(d.aliases, TypedefsAfter(d, n), d.aliases[n].1, 4);
    if r.Some? { StoresIsChase(d, n, r.value); }
    forall y ensures StoresAt(d, n, y) <==> r == Some(y) { StoresIsChase(d, n, y); }
  }

  function ResolveToStruct(env: Env, name: string): Option<Struct> {
    FindStruct(env.dict.structs, if name in env.typedefs then env.typedefs[name] else name)
  }

  datatype Resolution = Prim(c: PrimClass) | Nested(s: Struct) | Unresolved

  /** How a by-value member's base type resolves. It does not depend on the target. */
  function Resolve(env: Env, base: string): (r: Resolution)
    ensures r.Nested? ==> r.s in env.dict.structs
  {
    match Primitive(env.prims, base)
    case Some(c) => Prim(c)
    case None =>
      match ChaseAliasToPrimitive(env, base, 6)
      case Some(c) => Prim(c)
      case None =>
        match ResolveToStruct(env, base)
        case Some(s) => Nested(s)
        case None => Unresolved
  }

  method ResolveType(env: Env, base: string) returns (r: Resolution)
    ensures r == Resolve(env, base)
  {
    var prim := Primitive(env.prims, base);
    if prim.None? { prim := ChasePrimitive(env, base); }
    if prim.Some? { return Prim(prim.value); }
    var nested := ResolveToStruct(env, base);
    return if nested.Some? then Nested(nested.value) else Unresolved;
  }

  /** A chain of at most six aliases leads from `base` to some primitive. */
  ghost predicate AliasesPrimitive(env: Env, base: string) { exists c :: ChasesTo(env, base, 6, c) }

  /** How a type without a row of its own resolves: by an alias chain first, then as a struct. */
  ghost predicate ResolvesByAlias(env: Env, base: string) {
    && (forall c :: Resolve(env, base) == Prim(c) <==> ChasesTo(env, base, 6, c))
    && (forall s ::
          Resolve(env, base) == Nested(s) <==> !AliasesPrimitive(env, base) && ResolveToStruct(env, base) == Some(s))
    && (Resolve(env, base) == Unresolved <==> !AliasesPrimitive(env, base) && ResolveToStruct(env, base) == None)
  }

  lemma {:induction false} ResolvesExactly(env: Env, base: string)
    requires Primitive(env.prims, base) == None
    ensures ResolvesByAlias(env, base)
  {
    forall c ensures ChaseAliasToPrimitive(env, base, 6) == Some(c) <==> ChasesTo(env, base, 6, c) {
      ChaseExactly(env, base, 6, c);
    }
  }

  lemma BoolRowMissed()
    ensures Primitive(PRIMITIVES, "_Bool") == None
  {
    assert ToLower("_Bool") == "_bool";
    BoolRowOnlyCapital();
  }

  /**
   * The table row for `_Bool` plays no part: such a member gets a primitive's size exactly if a chain
   * of at most six aliases leads from it to that primitive, a struct's exactly if none does and the
   * name maps to that struct, and is otherwise of unknown type.
   */
  lemma BoolResolvesExactly(d: TypeDict)
    ensures ResolvesByAlias(EnvOf(d), "_Bool")
  {
    BoolRowMissed();
    ResolvesExactly(EnvOf(d), "_Bool");
  }

  lemma {:induction false} TypedefKeys(d: TypeDict, n: nat, name: string)
    requires n <= |d.aliases| && forall i :: 0 <= i < |d.aliases| ==> d.aliases[i].0 != name
    ensures name in TypedefsAfter(d, n) ==> exists s :: s in d.structs && s.name == name
  {
    if n == 0 { StructNamesAre(d.structs); } else { TypedefKeys(d, n - 1, name); }
  }

  lemma {:induction false} NoAlias(aliases: seq<(string, string)>, name: string)
    requires forall i :: 0 <= i < |aliases| ==> aliases[i].0 != name
    ensures AliasOf(aliases, name) == None
  {
    if aliases != [] { NoAlias(aliases[1..], name); }
  }

  /** A name that no row, alias or struct bears is of unknown type. */
  lemma {:induction false} UnknownName(d: TypeDict, name: string)
    requires Primitive(PRIMITIVES, name) == None && FindStruct(d.structs, name) == None
    requires forall i :: 0 <= i < |d.aliases| ==> d.aliases[i].0 != name
    ensures Resolve(EnvOf(d), name) == Unresolved
  {
    NoAlias(d.aliases, name);
    TypedefKeys(d, |d.aliases|, name);
  }

  /** So without an alias or a struct of that name a `_Bool` member is of unknown type. */
  lemma PlainBoolUnknown(d: TypeDict)
    requires FindStruct(d.structs, "_Bool") == None
    requires forall i :: 0 <= i < |d.aliases| ==> d.aliases[i].0 != "_Bool"
    ensures Resolve(EnvOf(d), "_Bool") == Unresolved
  {
    BoolRowMissed();
    UnknownName(d, "_Bool");
  }
}
