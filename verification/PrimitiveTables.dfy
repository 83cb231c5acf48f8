/** The two primitive tables as numbers, name by name. */
module PrimitiveTables {
  import opened Alignment
  import opened TypeDictionary

  /** Size and alignment of a type by name on the two targets. */
  ghost predicate HasRow(name: string, size32: nat, align32: nat, size64: nat, align64: nat) {
    var c := Primitive(PRIMITIVES, name);
    && c.Some?
    && PrimSize(c.value, Bits32) == size32 && PrimAlign(c.value, Bits32) == align32
    && PrimSize(c.value, Bits64) == size64 && PrimAlign(c.value, Bits64) == align64
  }

  // ---- No name is in two groups ------------------------------------------------

  lemma WordNotByte(name: string)
    requires name in WORD_ROWS
    ensures name !in BYTE_ROWS
  {
  }

  lemma HalfNotWord(name: string)
    requires name in HALF_ROWS
    ensures name !in WORD_ROWS
  {
  }

  lemma HalfNotByte(name: string)
    requires name in HALF_ROWS
    ensures name !in BYTE_ROWS
  {
  }

  lemma LongNotHalf(name: string)
    requires name in LONG_ROWS
    ensures name !in HALF_ROWS
  {
  }

  lemma LongNotWord(name: string)
    requires name in LONG_ROWS
    ensures name !in WORD_ROWS
  {
  }

  lemma LongNotByte(name: string)
    requires name in LONG_ROWS
    ensures name !in BYTE_ROWS
  {
  }

  lemma LongLongNotLong(name: string)
    requires name in LONG_LONG_ROWS
    ensures name !in LONG_ROWS
  {
  }

  lemma LongLongNotHalf(name: string)
    requires name in LONG_LONG_ROWS
    ensures name !in HALF_ROWS
  {
  }

  lemma LongLongNotWord(name: string)
    requires name in LONG_LONG_ROWS
    ensures name !in WORD_ROWS
  {
  }

  lemma LongLongNotByte(name: string)
    requires name in LONG_LONG_ROWS
    ensures name !in BYTE_ROWS
  {
  }

  lemma OtherNotLongLong(name: string)
    requires name in OTHER_ROWS
    ensures name !in LONG_LONG_ROWS
  {
  }

  lemma OtherNotLong(name: string)
    requires name in OTHER_ROWS
    ensures name !in LONG_ROWS
  {
  }

  lemma OtherNotHalf(name: string)
    requires name in OTHER_ROWS
    ensures name !in HALF_ROWS
  {
  }

  lemma OtherNotWord(name: string)
    requires name in OTHER_ROWS
    ensures name !in WORD_ROWS
  {
  }

  lemma OtherNotByte(name: string)
    requires name in OTHER_ROWS
    ensures name !in BYTE_ROWS
  {
  }

  // ---- The class of every name ---------------------------------------------------

  lemma OtherKept(name: string)
    requires name in OTHER_ROWS
    ensures name in PRIMITIVES && PRIMITIVES[name] == OTHER_ROWS[name]
  {
    OtherNotLongLong(name);
    OtherNotLong(name);
    OtherNotHalf(name);
    OtherNotWord(name);
    OtherNotByte(name);
  }

  lemma LongLongKept(name: string)
    requires name in LONG_LONG_ROWS
    ensures name in PRIMITIVES && PRIMITIVES[name] == LONG_LONG_ROWS[name]
  {
    LongLongNotLong(name);
    LongLongNotHalf(name);
    LongLongNotWord(name);
    LongLongNotByte(name);
  }

  lemma LongKept(name: string)
    requires name in LONG_ROWS
    ensures name in PRIMITIVES && PRIMITIVES[name] == LONG_ROWS[name]
  {
    LongNotHalf(name);
    LongNotWord(name);
    LongNotByte(name);
  }

  lemma HalfKept(name: string)
    requires name in HALF_ROWS
    ensures name in PRIMITIVES && PRIMITIVES[name] == HALF_ROWS[name]
  {
    HalfNotWord(name);
    HalfNotByte(name);
  }

  lemma WordKept(name: string)
    requires name in WORD_ROWS
    ensures name in PRIMITIVES && PRIMITIVES[name] == WORD_ROWS[name]
  {
    WordNotByte(name);
  }

  lemma ByteKept(name: string)
    requires name in BYTE_ROWS
    ensures name in PRIMITIVES && PRIMITIVES[name] == BYTE_ROWS[name]
  {
  }

  lemma RowIs(name: string, c: PrimClass)
    requires name in PRIMITIVES && PRIMITIVES[name] == c && name != "_Bool"
    ensures Primitive(PRIMITIVES, name) == Some(c)
  {
    RowsFoundExactly(name);
  }

  // ---- The numbers ---------------------------------------------------------------

  lemma ByteNames(name: string)
    requires name in {"char", "signed char", "unsigned char", "bool", "uint8_t", "int8_t"}
    ensures name in BYTE_ROWS && BYTE_ROWS[name] == Byte && name != "_Bool"
  {
  }

  lemma ByteRow(name: string)
    requires name in BYTE_ROWS && BYTE_ROWS[name] == Byte && name != "_Bool"
    ensures HasRow(name, 1, 1, 1, 1)
  {
    ByteKept(name);
    RowIs(name, Byte);
  }

  lemma ByteNumbers(name: string)
    requires name in {"char", "signed char", "unsigned char", "bool", "uint8_t", "int8_t"}
    ensures HasRow(name, 1, 1, 1, 1)
  {
    ByteNames(name);
    ByteRow(name);
  }

  lemma HalfNames(name: string)
    requires name in {"short", "signed short", "unsigned short", "short int",
                      "unsigned short int", "uint16_t", "int16_t"}
    ensures name in HALF_ROWS && HALF_ROWS[name] == Half && name != "_Bool"
  {
  }

  lemma HalfRow(name: string)
    requires name in HALF_ROWS && HALF_ROWS[name] == Half && name != "_Bool"
    ensures HasRow(name, 2, 2, 2, 2)
  {
    HalfKept(name);
    RowIs(name, Half);
  }

  lemma HalfNumbers(name: string)
    requires name in {"short", "signed short", "unsigned short", "short int",
                      "unsigned short int", "uint16_t", "int16_t"}
    ensures HasRow(name, 2, 2, 2, 2)
  {
    HalfNames(name);
    HalfRow(name);
  }

  lemma WordNames(name: string)
    requires name in {"int", "signed int", "unsigned int", "unsigned", "uint32_t", "int32_t"}
    ensures name in WORD_ROWS && WORD_ROWS[name] == Word && name != "_Bool"
  {
  }

  lemma WordRow(name: string)
    requires name in WORD_ROWS && WORD_ROWS[name] == Word && name != "_Bool"
    ensures HasRow(name, 4, 4, 4, 4)
  {
    WordKept(name);
    RowIs(name, Word);
  }

  lemma WordNumbers(name: string)
    requires name in {"int", "signed int", "unsigned int", "unsigned", "uint32_t", "int32_t"}
    ensures HasRow(name, 4, 4, 4, 4)
  {
    WordNames(name);
    WordRow(name);
  }

  lemma LongNames(name: string)
    requires name in {"long", "signed long", "unsigned long", "long int", "unsigned long int"}
    ensures name in LONG_ROWS && LONG_ROWS[name] == LongInt && name != "_Bool"
  {
  }

  lemma LongRow(name: string)
    requires name in LONG_ROWS && LONG_ROWS[name] == LongInt && name != "_Bool"
    ensures HasRow(name, 4, 4, 8, 8)
  {
    LongKept(name);
    RowIs(name, LongInt);
  }

  lemma LongNumbers(name: string)
    requires name in {"long", "signed long", "unsigned long", "long int", "unsigned long int"}
    ensures HasRow(name, 4, 4, 8, 8)
  {
    LongNames(name);
    LongRow(name);
  }

  lemma LongLongNames(name: string)
    requires name in {"long long", "signed long long", "unsigned long long", "long long int",
                      "unsigned long long int", "uint64_t", "int64_t"}
    ensures name in LONG_LONG_ROWS && LONG_LONG_ROWS[name] == LongLong && name != "_Bool"
  {
  }

  lemma LongLongRow(name: string)
    requires name in LONG_LONG_ROWS && LONG_LONG_ROWS[name] == LongLong && name != "_Bool"
    ensures HasRow(name, 8, 4, 8, 8)
  {
    LongLongKept(name);
    RowIs(name, LongLong);
  }

  lemma LongLongNumbers(name: string)
    requires name in {"long long", "signed long long", "unsigned long long", "long long int",
                      "unsigned long long int", "uint64_t", "int64_t"}
    ensures HasRow(name, 8, 4, 8, 8)
  {
    LongLongNames(name);
    LongLongRow(name);
  }

  lemma FloatNames(name: string)
    requires name == "float"
    ensures name in OTHER_ROWS && OTHER_ROWS[name] == Float && name != "_Bool"
  {
  }

  lemma FloatRow(name: string)
    requires name in OTHER_ROWS && OTHER_ROWS[name] == Float && name != "_Bool"
    ensures HasRow(name, 4, 4, 4, 4)
  {
    OtherKept(name);
    RowIs(name, Float);
  }

  lemma FloatNumbers(name: string)
    requires name == "float"
    ensures HasRow(name, 4, 4, 4, 4)
  {
    FloatNames(name);
    FloatRow(name);
  }

  lemma DoubleNames(name: string)
    requires name == "double"
    ensures name in OTHER_ROWS && OTHER_ROWS[name] == Double && name != "_Bool"
  {
  }

  lemma DoubleRow(name: string)
    requires name in OTHER_ROWS && OTHER_ROWS[name] == Double && name != "_Bool"
    ensures HasRow(name, 8, 4, 8, 8)
  {
    OtherKept(name);
    RowIs(name, Double);
  }

  lemma DoubleNumbers(name: string)
    requires name == "double"
    ensures HasRow(name, 8, 4, 8, 8)
  {
    DoubleNames(name);
    DoubleRow(name);
  }

  lemma LongDoubleNames(name: string)
    requires name == "long double"
    ensures name in OTHER_ROWS && OTHER_ROWS[name] == LongDouble && name != "_Bool"
  {
  }

  lemma LongDoubleRow(name: string)
    requires name in OTHER_ROWS && OTHER_ROWS[name] == LongDouble && name != "_Bool"
    ensures HasRow(name, 12, 4, 16, 16)
  {
    OtherKept(name);
    RowIs(name, LongDouble);
  }

  lemma LongDoubleNumbers(name: string)
    requires name == "long double"
    ensures HasRow(name, 12, 4, 16, 16)
  {
    LongDoubleNames(name);
    LongDoubleRow(name);
  }

  lemma WordSizedNames(name: string)
    requires name in {"size_t", "ssize_t", "ptrdiff_t", "intptr_t", "uintptr_t"}
    ensures name in OTHER_ROWS && OTHER_ROWS[name] == WordSized && name != "_Bool"
  {
  }

  lemma WordSizedRow(name: string)
    requires name in OTHER_ROWS && OTHER_ROWS[name] == WordSized && name != "_Bool"
    ensures HasRow(name, 4, 4, 8, 8)
  {
    OtherKept(name);
    RowIs(name, WordSized);
  }

  lemma WordSizedNumbers(name: string)
    requires name in {"size_t", "ssize_t", "ptrdiff_t", "intptr_t", "uintptr_t"}
    ensures HasRow(name, 4, 4, 8, 8)
  {
    WordSizedNames(name);
    WordSizedRow(name);
  }
}
