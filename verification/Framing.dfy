/** Framing: parsing the HPROF encoding of a dump gives its records back, with the contents of
    instances and arrays erased, and leaves GC mode exactly at the end of each segment. */
module Framing {
  import opened Nom
  import opened Records
  import opened RecordParser
  import opened Encoding
  import opened Streaming

  /** `b` is exactly what `p` reads to get `v`. */
  ghost predicate Reads<T(!new)>(p: Parser<T>, b: Bytes, v: T) {
    p(b) == Ok([], v)
  }

  lemma ReadsMore<T(!new)>(p: Parser<T>, b: Bytes, v: T, t: Bytes)
    requires Reads(p, b, v)
    ensures p(b + t) == Ok(t, v)
  {
    assert StreamsOn(p(b), p(b + t), b, t);
    assert [] + t == t;
  }

  // ---- reading through the combinators ----

  lemma ReadsFlatMap<A(!new), B(!new)>(p: Parser<A>, b: Bytes, v: A, t: Bytes)
    requires Reads(p, b, v)
    ensures forall f: A -> Parser<B> {:trigger FlatMap(p, f)} :: FlatMap(p, f)(b + t) == f(v)(t)
  {
    ReadsMore(p, b, v, t);
  }

  lemma ReadsMap<A(!new), B(!new)>(p: Parser<A>, b: Bytes, v: A)
    requires Reads(p, b, v)
    ensures forall f: A -> B {:trigger Map(p, f)} :: Reads(Map(p, f), b, f(v))
  {
  }

  lemma ReadsPreceded<A(!new), B(!new)>(p: Parser<A>, b: Bytes, v: A, q: Parser<B>, c: Bytes, w: B)
    requires Reads(p, b, v) && Reads(q, c, w)
    ensures Reads(Preceded(p, q), b + c, w)
  {
    ReadsMore(p, b, v, c);
  }

  lemma ReadsSeq2<A(!new), B(!new)>(p: Parser<A>, b: Bytes, v: A, q: Parser<B>, c: Bytes, w: B)
    requires Reads(p, b, v) && Reads(q, c, w)
    ensures Reads(Seq2(p, q), b + c, (v, w))
  {
    ReadsMap<B, (A, B)>(q, c, w);
    ReadsMore(p, b, v, c);
  }

  lemma ReadsSeq3<A(!new), B(!new), C(!new)>(
    p: Parser<A>, b: Bytes, v: A, q: Parser<B>, c: Bytes, w: B, r: Parser<C>, d: Bytes, x: C)
    requires Reads(p, b, v) && Reads(q, c, w) && Reads(r, d, x)
    ensures Reads(Seq3(p, q, r), Cat3(b, c, d), (v, w, x))
  {
    ReadsSeq2(q, c, w, r, d, x);
    ReadsMap<(B, C), (A, B, C)>(Seq2(q, r), c + d, (w, x));
    ReadsMore(p, b, v, c + d);
  }

  lemma ReadsSeq4<A(!new), B(!new), C(!new), D(!new)>(
    p: Parser<A>, b: Bytes, v: A, q: Parser<B>, c: Bytes, w: B,
    r: Parser<C>, d: Bytes, x: C, s: Parser<D>, e: Bytes, y: D)
    requires Reads(p, b, v) && Reads(q, c, w) && Reads(r, d, x) && Reads(s, e, y)
    ensures Reads(Seq4(p, q, r, s), Cat4(b, c, d, e), (v, w, x, y))
  {
    ReadsSeq3(q, c, w, r, d, x, s, e, y);
    ReadsMap<(B, C, D), (A, B, C, D)>(Seq3(q, r, s), Cat3(c, d, e), (w, x, y));
    ReadsMore(p, b, v, Cat3(c, d, e));
  }

  lemma {:induction false} ReadsCount<T(!new)>(p: Parser<T>, encode: T -> Bytes, items: seq<T>)
    requires forall k :: 0 <= k < |items| ==> Reads(p, encode(items[k]), items[k])
    ensures Reads(Count(p, |items|), EAll(encode, items), items)
  {
    if items != [] {
      ReadsCount(p, encode, items[1..]);
      assert Reads(p, encode(items[0]), items[0]);
      ReadsMore(p, encode(items[0]), items[0], EAll(encode, items[1..]));
      assert [items[0]] + items[1..] == items;
    }
  }

  // ---- numbers ----

  lemma Reads8(v: byte)
    ensures Reads(U8(), E8(v), v)
  {
  }

  lemma Reads16(v: u16)
    ensures Reads(U16(), E16(v), v)
  {
  }

  lemma Digits32(v: u32)
    ensures v == v / 0x100_0000 * 0x100_0000 + v / 0x1_0000 % 0x100 * 0x1_0000 + v / 0x100 % 0x100 * 0x100 + v % 0x100
  {
    var a, b := v / 0x100, v / 0x1_0000;
    assert v == a * 0x100 + v % 0x100;
    assert a == b * 0x100 + a % 0x100;
    assert b == v / 0x100_0000 * 0x100 + b % 0x100;
  }

  lemma Reads32(v: u32)
    ensures Reads(U32(), E32(v), v)
  {
    Digits32(v);
    assert E32(v)[4..] == [];
    assert Be32(E32(v)) == v;
  }

  lemma Reads64(v: u64)
    ensures Reads(U64(), E64(v), v)
  {
    var hi, lo := v / 0x1_0000_0000, v % 0x1_0000_0000;
    Reads32(hi);
    Reads32(lo);
    assert E64(v)[4..] == E32(lo);
    assert E64(v)[8..] == [];
  }

  lemma ReadsId(v: u64, idSize: IdSize)
    requires FitsId(v, idSize)
    ensures Reads(Id(idSize), EId(v, idSize), v)
  {
    if idSize == 4 {
      Reads32(v);
      ReadsMap<u32, u64>(U32(), E32(v), v);
    } else {
      Reads64(v);
    }
  }

  lemma ReadsHeader(timestamp: u32, length: u32)
    ensures Reads(ParseHeaderRecord(), EHeader(timestamp, length), RecordHeader(timestamp, length))
  {
    Reads32(timestamp);
    Reads32(length);
    ReadsSeq2(U32(), E32(timestamp), timestamp, U32(), E32(length), length);
    ReadsMap<(u32, u32), RecordHeader>(Seq2(U32(), U32()), EHeader(timestamp, length), (timestamp, length));
  }

  lemma ReadsTake(b: Bytes)
    ensures Reads(Take(|b|), b, b)
  {
    assert b[|b|..] == [] && b[..|b|] == b;
  }

  // ---- GC sub-records ----

  lemma ReadsI8(v: i8)
    ensures Reads(I8(), E8(Unsigned(v, 0x100)), v)
  {
    Reads8(Unsigned(v, 0x100));
    ReadsMap<byte, i8>(U8(), E8(Unsigned(v, 0x100)), Unsigned(v, 0x100));
  }

  lemma ReadsFieldType(ty: FieldType)
    ensures Reads(ParseFieldType(), EFieldType(ty), ty)
  {
    var code := EFieldType(ty)[0];
    ReadsI8(code);
    ReadsFlatMap<i8, FieldType>(I8(), E8(code), code, []);
    assert E8(code) + [] == EFieldType(ty);
  }

  lemma ReadsValue(ty: FieldType, v: FieldValue, idSize: IdSize)
    requires ValueFits(ty, v, idSize)
    ensures Reads(ParseFieldValue(ty, idSize), EValue(v, idSize), v)
  {
    hide ParseFieldValue, EValue;
    if v.ByteValue? || v.ShortValue? || v.IntValue? || v.LongValue? {
      ReadsSignedValue(ty, v, idSize);
    } else if v.FloatValue? || v.DoubleValue? || v.ObjectValue? {
      ReadsWideValue(ty, v, idSize);
    } else {
      ReadsNarrowValue(ty, v, idSize);
    }
  }

  lemma ReadsSignedValue(ty: FieldType, v: FieldValue, idSize: IdSize)
    requires ValueFits(ty, v, idSize) && (v.ByteValue? || v.ShortValue? || v.IntValue? || v.LongValue?)
    ensures Reads(ParseFieldValue(ty, idSize), EValue(v, idSize), v)
  {
    hide U8, U16, U32, U64, I8, I16, I32, I64, Id, E8, E16, E32, E64, EId, Map;
    match v
    case ByteValue(n) => ReadsI8(n); ReadsMap<i8, FieldValue>(I8(), E8(Unsigned(n, 0x100)), n);
    case ShortValue(n) => ReadsI16(n); ReadsMap<i16, FieldValue>(I16(), E16(Unsigned(n, 0x1_0000)), n);
    case IntValue(n) => ReadsI32(n); ReadsMap<i32, FieldValue>(I32(), E32(Unsigned(n, 0x1_0000_0000)), n);
    case LongValue(n) => ReadsI64(n); ReadsMap<i64, FieldValue>(I64(), E64(Unsigned(n, 0x1_0000_0000_0000_0000)), n);
  }

  lemma ReadsWideValue(ty: FieldType, v: FieldValue, idSize: IdSize)
    requires ValueFits(ty, v, idSize) && (v.FloatValue? || v.DoubleValue? || v.ObjectValue?)
    ensures Reads(ParseFieldValue(ty, idSize), EValue(v, idSize), v)
  {
    hide U8, U16, U32, U64, I8, I16, I32, I64, Id, E8, E16, E32, E64, EId, Map;
    match v
    case FloatValue(n) => Reads32(n); ReadsMap<u32, FieldValue>(U32(), E32(n), n);
    case DoubleValue(n) => Reads64(n); ReadsMap<u64, FieldValue>(U64(), E64(n), n);
    case ObjectValue(id) => ReadsId(id, idSize); ReadsMap<u64, FieldValue>(Id(idSize), EId(id, idSize), id);
  }

  lemma ReadsNarrowValue(ty: FieldType, v: FieldValue, idSize: IdSize)
    requires ValueFits(ty, v, idSize) && (v.BoolValue? || v.CharValue?)
    ensures Reads(ParseFieldValue(ty, idSize), EValue(v, idSize), v)
  {
    hide U8, U16, U32, U64, I8, I16, I32, I64, Id, E8, E16, E32, E64, EId, Map;
    match v
    case BoolValue(b) =>
      var n := if b then 1 else 0;
      Reads8(n);
      ReadsMap<byte, FieldValue>(U8(), E8(n), n);
    case CharValue(n) => Reads16(n); ReadsMap<u16, FieldValue>(U16(), E16(n), n);
  }

  lemma ReadsI16(v: i16)
    ensures Reads(I16(), E16(Unsigned(v, 0x1_0000)), v)
  {
    hide E16;
    var u := Unsigned(v, 0x1_0000);
    Reads16(u);
    ReadsMap<u16, i16>(U16(), E16(u), u);
  }

  lemma ReadsI64(v: i64)
    ensures Reads(I64(), E64(Unsigned(v, 0x1_0000_0000_0000_0000)), v)
  {
    hide E64;
    var u := Unsigned(v, 0x1_0000_0000_0000_0000);
    Reads64(u);
    ReadsMap<u64, i64>(U64(), E64(u), u);
  }

  lemma ReadsI32(v: i32)
    ensures Reads(I32(), E32(Unsigned(v, 0x1_0000_0000)), v)
  {
    var u := Unsigned(v, 0x1_0000_0000);
    Reads32(u);
    ReadsMap<u32, i32>(U32(), E32(u), u);
  }

  lemma ReadsConst(c: (ConstFieldInfo, FieldValue), idSize: IdSize)
    requires ValueFits(c.0.constType, c.1, idSize)
    ensures Reads(ParseConstPoolItem(idSize), ConstEncoder(idSize)(c), c)
  {
    hide U8, U16, U32, U64, I8, I16, I32, I64, Id, E8, E16, E32, E64, EId, ParseFieldType, EFieldType,
      ParseFieldValue, EValue;
    var i, ty, v := c.0.constPoolIdx, c.0.constType, c.1;
    Reads16(i);
    ReadsFieldType(ty);
    ReadsValue(ty, v, idSize);
    ReadsSeq2(U16(), E16(i), i, ParseFieldType(), EFieldType(ty), ty);
    ReadsMap<FieldValue, (ConstFieldInfo, FieldValue)>(ParseFieldValue(ty, idSize), EValue(v, idSize), v);
    ReadsFlatMap<(u16, FieldType), (ConstFieldInfo, FieldValue)>(
      Seq2(U16(), ParseFieldType()), E16(i) + EFieldType(ty), (i, ty), EValue(v, idSize));
  }

  lemma ReadsStatic(c: (FieldInfo, FieldValue), idSize: IdSize)
    requires FitsId(c.0.nameId, idSize) && ValueFits(c.0.fieldType, c.1, idSize)
    ensures Reads(ParseStaticFieldItem(idSize), StaticEncoder(idSize)(c), c)
  {
    hide U8, U16, U32, U64, I8, I16, I32, I64, Id, E8, E16, E32, E64, EId, ParseFieldType, EFieldType,
      ParseFieldValue, EValue;
    var i, ty, v := c.0.nameId, c.0.fieldType, c.1;
    ReadsId(i, idSize);
    ReadsFieldType(ty);
    ReadsValue(ty, v, idSize);
    ReadsSeq2(Id(idSize), EId(i, idSize), i, ParseFieldType(), EFieldType(ty), ty);
    ReadsMap<FieldValue, (FieldInfo, FieldValue)>(ParseFieldValue(ty, idSize), EValue(v, idSize), v);
    ReadsFlatMap<(u64, FieldType), (FieldInfo, FieldValue)>(
      Seq2(Id(idSize), ParseFieldType()), EId(i, idSize) + EFieldType(ty), (i, ty), EValue(v, idSize));
  }

  lemma ReadsField(f: FieldInfo, idSize: IdSize)
    requires FitsId(f.nameId, idSize)
    ensures Reads(ParseInstanceFieldItem(idSize), FieldEncoder(idSize)(f), f)
  {
    var b := EId(f.nameId, idSize) + EFieldType(f.fieldType);
    ReadsId(f.nameId, idSize);
    ReadsFieldType(f.fieldType);
    ReadsSeq2(Id(idSize), EId(f.nameId, idSize), f.nameId, ParseFieldType(), EFieldType(f.fieldType), f.fieldType);
    ReadsMap<(u64, FieldType), FieldInfo>(Seq2(Id(idSize), ParseFieldType()), b, (f.nameId, f.fieldType));
  }

  lemma ReadsCounted<T(!new)>(p: Parser<T>, encode: T -> Bytes, items: seq<T>)
    requires |items| < 0x1_0000
    requires forall k :: 0 <= k < |items| ==> Reads(p, encode(items[k]), items[k])
    ensures Reads(CountedU16(p), ECounted(encode, items), items)
  {
    Reads16(|items|);
    ReadsCount(p, encode, items);
    ReadsFlatMap<u16, seq<T>>(U16(), E16(|items|), |items|, EAll(encode, items));
  }

  lemma ReadsClassHead(c: ClassDumpFields, hidden: (u64, u64, u64, u64, u64), idSize: IdSize)
    requires ClassDumpFits(c, hidden, idSize)
    ensures Reads(
      ParseClassDumpHead(idSize),
      Cat3(
        Cat4(EId(c.classObjectId, idSize), E32(c.stackTraceSerialNumber), EId(c.superClassObjectId, idSize),
             EId(hidden.0, idSize)),
        Cat4(EId(hidden.1, idSize), EId(hidden.2, idSize), EId(hidden.3, idSize), EId(hidden.4, idSize)),
        E32(c.instanceSize)),
      ((c.classObjectId, c.stackTraceSerialNumber, c.superClassObjectId, hidden.0),
       (hidden.1, hidden.2, hidden.3, hidden.4), c.instanceSize))
  {
    hide U8, U16, U32, U64, I8, I16, I32, I64, Id, E8, E16, E32, E64, EId, ParseFieldType, EFieldType;
    var id := Id(idSize);
    ReadsId(c.classObjectId, idSize);
    ReadsId(c.superClassObjectId, idSize);
    ReadsId(hidden.0, idSize);
    ReadsId(hidden.1, idSize);
    ReadsId(hidden.2, idSize);
    ReadsId(hidden.3, idSize);
    ReadsId(hidden.4, idSize);
    Reads32(c.stackTraceSerialNumber);
    Reads32(c.instanceSize);
    ReadsSeq4(id, EId(c.classObjectId, idSize), c.classObjectId,
              U32(), E32(c.stackTraceSerialNumber), c.stackTraceSerialNumber,
              id, EId(c.superClassObjectId, idSize), c.superClassObjectId,
              id, EId(hidden.0, idSize), hidden.0);
    ReadsSeq4(id, EId(hidden.1, idSize), hidden.1, id, EId(hidden.2, idSize), hidden.2,
              id, EId(hidden.3, idSize), hidden.3, id, EId(hidden.4, idSize), hidden.4);
    ReadsSeq3(
      Seq4(id, U32(), id, id),
      Cat4(EId(c.classObjectId, idSize), E32(c.stackTraceSerialNumber), EId(c.superClassObjectId, idSize),
           EId(hidden.0, idSize)),
      (c.classObjectId, c.stackTraceSerialNumber, c.superClassObjectId, hidden.0),
      Seq4(id, id, id, id),
      Cat4(EId(hidden.1, idSize), EId(hidden.2, idSize), EId(hidden.3, idSize), EId(hidden.4, idSize)),
      (hidden.1, hidden.2, hidden.3, hidden.4),
      U32(), E32(c.instanceSize), c.instanceSize);
  }

  lemma ReadsClassDump(c: ClassDumpFields, hidden: (u64, u64, u64, u64, u64), idSize: IdSize)
    requires ClassDumpFits(c, hidden, idSize)
    ensures Reads(ParseGcClassDump(idSize), EClassDump(c, hidden, idSize), ClassDump(c))
  {
    hide U8, U16, U32, U64, Id, E8, E16, E32, E64, EId, CountedU16, ECounted, ParseClassDumpHead,
      ParseConstPoolItem, ParseStaticFieldItem, ParseInstanceFieldItem, ConstEncoder, StaticEncoder, FieldEncoder;
    var head := Cat3(
      Cat4(EId(c.classObjectId, idSize), E32(c.stackTraceSerialNumber), EId(c.superClassObjectId, idSize),
           EId(hidden.0, idSize)),
      Cat4(EId(hidden.1, idSize), EId(hidden.2, idSize), EId(hidden.3, idSize), EId(hidden.4, idSize)),
      E32(c.instanceSize));
    var consts, statics := ParseConstPoolItem(idSize), ParseStaticFieldItem(idSize);
    var fields := ParseInstanceFieldItem(idSize);
    var headValue := ((c.classObjectId, c.stackTraceSerialNumber, c.superClassObjectId, hidden.0),
                      (hidden.1, hidden.2, hidden.3, hidden.4), c.instanceSize);
    ReadsClassHead(c, hidden, idSize);
    forall k | 0 <= k < |c.constFields|
      ensures Reads(consts, ConstEncoder(idSize)(c.constFields[k]), c.constFields[k])
    {
      ReadsConst(c.constFields[k], idSize);
    }
    forall k | 0 <= k < |c.staticFields|
      ensures Reads(statics, StaticEncoder(idSize)(c.staticFields[k]), c.staticFields[k])
    {
      ReadsStatic(c.staticFields[k], idSize);
    }
    forall k | 0 <= k < |c.instanceFields|
      ensures Reads(fields, FieldEncoder(idSize)(c.instanceFields[k]), c.instanceFields[k])
    {
      ReadsField(c.instanceFields[k], idSize);
    }
    ReadsCounted(consts, ConstEncoder(idSize), c.constFields);
    ReadsCounted(statics, StaticEncoder(idSize), c.staticFields);
    ReadsCounted(fields, FieldEncoder(idSize), c.instanceFields);
    ReadsSeq4(ParseClassDumpHead(idSize), head, headValue,
              CountedU16(consts), ECounted(ConstEncoder(idSize), c.constFields), c.constFields,
              CountedU16(statics), ECounted(StaticEncoder(idSize), c.staticFields), c.staticFields,
              CountedU16(fields), ECounted(FieldEncoder(idSize), c.instanceFields), c.instanceFields);
    ReadsMap<(((u64, u32, u64, u64), (u64, u64, u64, u64), u32),
              seq<(ConstFieldInfo, FieldValue)>, seq<(FieldInfo, FieldValue)>, seq<FieldInfo>), GcRecord>(
      Seq4(ParseClassDumpHead(idSize), CountedU16(consts), CountedU16(statics), CountedU16(fields)),
      EClassDump(c, hidden, idSize), (headValue, c.constFields, c.staticFields, c.instanceFields));
  }

  lemma ReadsInstanceHead(o: u64, s: u32, c: u64, n: u32, idSize: IdSize)
    requires FitsId(o, idSize) && FitsId(c, idSize)
    ensures Reads(Seq4(Id(idSize), U32(), Id(idSize), U32()),
                  Cat4(EId(o, idSize), E32(s), EId(c, idSize), E32(n)), (o, s, c, n))
  {
    hide U32, Id, E32, EId;
    ReadsId(o, idSize);
    Reads32(s);
    ReadsId(c, idSize);
    Reads32(n);
    ReadsSeq4(Id(idSize), EId(o, idSize), o, U32(), E32(s), s, Id(idSize), EId(c, idSize), c, U32(), E32(n), n);
  }

  lemma ReadsInstance(o: u64, s: u32, c: u64, n: u32, contents: Bytes, idSize: IdSize)
    requires FitsId(o, idSize) && FitsId(c, idSize) && |contents| == n
    ensures Reads(ParseGcInstanceDump(idSize), Cat4(EId(o, idSize), E32(s), EId(c, idSize), E32(n)) + contents,
                  InstanceDump(o, s, c, n))
  {
    hide U32, Id, E32, EId, Take, Seq4, Cat4;
    ReadsInstanceHead(o, s, c, n, idSize);
    ReadsTake(contents);
    ReadsMap<Bytes, GcRecord>(Take(n), contents, contents);
    ReadsFlatMap<(u64, u32, u64, u32), GcRecord>(
      Seq4(Id(idSize), U32(), Id(idSize), U32()), Cat4(EId(o, idSize), E32(s), EId(c, idSize), E32(n)),
      (o, s, c, n), contents);
  }

  lemma ReadsObjectArrayHead(o: u64, s: u32, n: u32, c: u64, idSize: IdSize)
    requires FitsId(o, idSize) && FitsId(c, idSize)
    ensures Reads(Seq4(Id(idSize), U32(), U32(), Id(idSize)),
                  Cat4(EId(o, idSize), E32(s), E32(n), EId(c, idSize)), (o, s, n, c))
  {
    hide U32, Id, E32, EId;
    ReadsId(o, idSize);
    Reads32(s);
    Reads32(n);
    ReadsId(c, idSize);
    ReadsSeq4(Id(idSize), EId(o, idSize), o, U32(), E32(s), s, U32(), E32(n), n, Id(idSize), EId(c, idSize), c);
  }

  lemma ReadsObjectArray(o: u64, s: u32, n: u32, c: u64, contents: Bytes, idSize: IdSize)
    requires FitsId(o, idSize) && FitsId(c, idSize) && |contents| == ContentsLen(ObjectArrayDump(o, s, n, c), idSize)
    ensures Reads(ParseGcObjectArrayDump(idSize), Cat4(EId(o, idSize), E32(s), E32(n), EId(c, idSize)) + contents,
                  ObjectArrayDump(o, s, n, c))
  {
    hide U32, Id, E32, EId, Take, Seq4, Cat4;
    ReadsObjectArrayHead(o, s, n, c, idSize);
    ReadsTake(contents);
    ReadsMap<Bytes, GcRecord>(Take(|contents|), contents, contents);
    ReadsFlatMap<(u64, u32, u32, u64), GcRecord>(
      Seq4(Id(idSize), U32(), U32(), Id(idSize)), Cat4(EId(o, idSize), E32(s), E32(n), EId(c, idSize)),
      (o, s, n, c), contents);
  }

  lemma ReadsArrayHead(o: u64, s: u32, n: u32, ty: FieldType, idSize: IdSize)
    requires FitsId(o, idSize)
    ensures Reads(Seq4(Id(idSize), U32(), U32(), ParseFieldType()),
                  Cat4(EId(o, idSize), E32(s), E32(n), EFieldType(ty)), (o, s, n, ty))
  {
    hide U32, Id, E32, EId, ParseFieldType, EFieldType;
    ReadsId(o, idSize);
    Reads32(s);
    Reads32(n);
    ReadsFieldType(ty);
    ReadsSeq4(Id(idSize), EId(o, idSize), o, U32(), E32(s), s, U32(), E32(n), n, ParseFieldType(), EFieldType(ty), ty);
  }

  lemma ReadsPrimitiveArray(o: u64, s: u32, n: u32, ty: PrimitiveType, contents: Bytes, idSize: IdSize)
    requires FitsId(o, idSize) && |contents| == ContentsLen(PrimitiveArrayDump(o, s, n, ty), idSize)
    ensures Reads(ParseGcPrimitiveArrayDump(idSize), Cat4(EId(o, idSize), E32(s), E32(n), EFieldType(ty)) + contents,
                  PrimitiveArrayDump(o, s, n, ty))
  {
    hide U32, Id, E32, EId, ParseFieldType, EFieldType, Take, Cat4, Seq4;
    ReadsArrayHead(o, s, n, ty, idSize);
    ReadsTake(contents);
    assert SkipArrayValue(ty, n) == Take(|contents|);
    ReadsMap<Bytes, GcRecord>(SkipArrayValue(ty, n), contents, contents);
    ReadsFlatMap<(u64, u32, u32, FieldType), GcRecord>(
      Seq4(Id(idSize), U32(), U32(), ParseFieldType()), Cat4(EId(o, idSize), E32(s), E32(n), EFieldType(ty)),
      (o, s, n, ty), contents);
  }

  lemma ReadsIdOnly(o: u64, idSize: IdSize)
    requires FitsId(o, idSize)
    ensures forall f: u64 -> GcRecord {:trigger ParseIdOnly(idSize, f)} ::
              Reads(ParseIdOnly(idSize, f), EId(o, idSize), f(o))
  {
    hide Id, EId;
    ReadsId(o, idSize);
    ReadsMap<u64, GcRecord>(Id(idSize), EId(o, idSize), o);
  }

  lemma ReadsIdU32(o: u64, s: u32, idSize: IdSize)
    requires FitsId(o, idSize)
    ensures forall f: (u64, u32) -> GcRecord {:trigger ParseIdU32(idSize, f)} ::
              Reads(ParseIdU32(idSize, f), EId(o, idSize) + E32(s), f(o, s))
  {
    hide U32, Id, E32, EId, Seq2;
    ReadsId(o, idSize);
    Reads32(s);
    ReadsSeq2(Id(idSize), EId(o, idSize), o, U32(), E32(s), s);
    ReadsMap<(u64, u32), GcRecord>(Seq2(Id(idSize), U32()), EId(o, idSize) + E32(s), (o, s));
    forall f: (u64, u32) -> GcRecord
      ensures Reads(ParseIdU32(idSize, f), EId(o, idSize) + E32(s), f(o, s))
    {
      assert OfPair(f)((o, s)) == f(o, s);
      assert Reads(Map(Seq2(Id(idSize), U32()), OfPair(f)), EId(o, idSize) + E32(s), OfPair(f)((o, s)));
    }
  }

  lemma ReadsIdU32U32(o: u64, s: u32, n: u32, idSize: IdSize)
    requires FitsId(o, idSize)
    ensures forall f: (u64, u32, u32) -> GcRecord {:trigger ParseIdU32U32(idSize, f)} ::
              Reads(ParseIdU32U32(idSize, f), Cat3(EId(o, idSize), E32(s), E32(n)), f(o, s, n))
  {
    hide U32, Id, E32, EId, Seq3, Cat3;
    ReadsId(o, idSize);
    Reads32(s);
    Reads32(n);
    ReadsSeq3(Id(idSize), EId(o, idSize), o, U32(), E32(s), s, U32(), E32(n), n);
    ReadsMap<(u64, u32, u32), GcRecord>(
      Seq3(Id(idSize), U32(), U32()), Cat3(EId(o, idSize), E32(s), E32(n)), (o, s, n));
    forall f: (u64, u32, u32) -> GcRecord
      ensures Reads(ParseIdU32U32(idSize, f), Cat3(EId(o, idSize), E32(s), E32(n)), f(o, s, n))
    {
      var g := OfTriple(f);
      assert g((o, s, n)) == f(o, s, n);
      assert Reads(Map(Seq3(Id(idSize), U32(), U32()), g), Cat3(EId(o, idSize), E32(s), E32(n)), g((o, s, n)));
    }
  }

  lemma ReadsJniGlobal(o: u64, j: u64, idSize: IdSize)
    requires FitsId(o, idSize) && FitsId(j, idSize)
    ensures Reads(ParseGcRootJniGlobal(idSize), EId(o, idSize) + EId(j, idSize), RootJniGlobal(o, j))
  {
    hide Id, EId, Seq2;
    ReadsId(o, idSize);
    ReadsId(j, idSize);
    ReadsSeq2(Id(idSize), EId(o, idSize), o, Id(idSize), EId(j, idSize), j);
    ReadsMap<(u64, u64), GcRecord>(Seq2(Id(idSize), Id(idSize)), EId(o, idSize) + EId(j, idSize), (o, j));
  }

  lemma ReadsHeapDumpInfo(t: u32, h: u64, idSize: IdSize)
    requires FitsId(h, idSize)
    ensures Reads(ParseGcHeapDumpInfo(idSize), E32(t) + EId(h, idSize), HeapDumpInfo(t, h))
  {
    hide U32, Id, E32, EId, Seq2;
    Reads32(t);
    ReadsId(h, idSize);
    ReadsSeq2(U32(), E32(t), t, Id(idSize), EId(h, idSize), h);
    ReadsMap<(u32, u64), GcRecord>(Seq2(U32(), Id(idSize)), E32(t) + EId(h, idSize), (t, h));
  }

  lemma ReadsNoData(o: u64, s: u32, n: u32, ty: FieldType, idSize: IdSize)
    requires FitsId(o, idSize)
    ensures Reads(ParseGcPrimitiveArrayNoDataDump(idSize), Cat4(EId(o, idSize), E32(s), E32(n), EFieldType(ty)),
                  PrimitiveArrayNoDataDump(o, s, n, ty))
  {
    hide U32, Id, E32, EId, Seq4, Cat4, ParseFieldType, EFieldType;
    ReadsArrayHead(o, s, n, ty, idSize);
    ReadsMap<(u64, u32, u32, FieldType), GcRecord>(
      Seq4(Id(idSize), U32(), U32(), ParseFieldType()), Cat4(EId(o, idSize), E32(s), E32(n), EFieldType(ty)),
      (o, s, n, ty));
  }

  /** The roots that hold nothing but the identifier of their object. */
  predicate IsPlainRoot(gc: GcRecord) {
    || gc.RootUnknown? || gc.RootStickyClass? || gc.RootMonitorUsed? || gc.RootInternedString? || gc.RootFinalizing?
    || gc.RootDebugger? || gc.RootReferenceCleanup? || gc.RootVmInternal? || gc.Unreachable?
  }

  lemma ReadsPlainRoot(gc: GcRecord, idSize: IdSize)
    requires IsPlainRoot(gc) && IdsFit(gc, idSize)
    ensures Reads(ParseGcBody(GcTag(gc), idSize), ERoot(gc, idSize), gc)
  {
    hide E32, EId, Cat3, Cat4, EFieldType, ParseIdOnly, ParseIdU32, ParseIdU32U32, ParseGcRootJniGlobal,
      ParseGcHeapDumpInfo, ParseGcPrimitiveArrayNoDataDump, ParseGcClassDump, ParseGcInstanceDump,
      ParseGcObjectArrayDump, ParseGcPrimitiveArrayDump;
    ReadsIdOnly(gc.objectId, idSize);
  }

  lemma ReadsRoot(gc: GcRecord, idSize: IdSize)
    requires IsRoot(gc) && IdsFit(gc, idSize)
    ensures Reads(ParseGcBody(GcTag(gc), idSize), ERoot(gc, idSize), gc)
  {
    hide E32, EId, Cat3, Cat4, EFieldType, ParseIdOnly, ParseIdU32, ParseIdU32U32, ParseGcRootJniGlobal,
      ParseGcHeapDumpInfo, ParseGcPrimitiveArrayNoDataDump, ParseGcClassDump, ParseGcInstanceDump,
      ParseGcObjectArrayDump, ParseGcPrimitiveArrayDump;
    match gc
    case RootJniGlobal(o, j) => ReadsJniGlobal(o, j, idSize);
    case HeapDumpInfo(t, h) => ReadsHeapDumpInfo(t, h, idSize);
    case PrimitiveArrayNoDataDump(o, s, n, ty) => ReadsNoData(o, s, n, ty, idSize);
    case RootNativeStack(o, t) => ReadsIdU32(o, t, idSize);
    case RootThreadBlock(o, t) => ReadsIdU32(o, t, idSize);
    case RootJniLocal(o, t, f) => ReadsIdU32U32(o, t, f, idSize);
    case RootJavaFrame(o, t, f) => ReadsIdU32U32(o, t, f, idSize);
    case RootJniMonitor(o, t, f) => ReadsIdU32U32(o, t, f, idSize);
    case RootThreadObject(o, t, f) => ReadsIdU32U32(o, t, f, idSize);
    case _ => ReadsPlainRoot(gc, idSize);
  }

  lemma ReadsGcBody(w: WireGc, idSize: IdSize)
    requires GcFits(w, idSize)
    ensures Reads(ParseGcBody(GcTag(Erase(w)), idSize), EGcBody(w, idSize), Erase(w))
  {
    hide ERoot, EClassDump, ParseGcClassDump, ParseGcInstanceDump, ParseGcObjectArrayDump, ParseGcPrimitiveArrayDump,
      EId, E32, Cat4, EFieldType, ClassDumpFits, ParseIdOnly, ParseIdU32, ParseIdU32U32, IdsFit, ContentsLen;
    match w
    case WireClass(c, hidden) => ReadsClassDump(c, hidden, idSize);
    case WireRoot(root) => ReadsRoot(root, idSize);
    case WireDump(gc, contents) => ReadsDump(gc, contents, idSize);
  }

  lemma ReadsDump(gc: GcRecord, contents: Bytes, idSize: IdSize)
    requires HasContents(gc) && IdsFit(gc, idSize) && |contents| == ContentsLen(gc, idSize)
    ensures Reads(ParseGcBody(GcTag(gc), idSize), EDumpHead(gc, idSize) + contents, gc)
  {
    hide ParseGcInstanceDump, ParseGcObjectArrayDump, ParseGcPrimitiveArrayDump, EId, E32, Cat4, EFieldType;
    match gc
    case InstanceDump(o, s, c, n) => ReadsInstance(o, s, c, n, contents, idSize);
    case ObjectArrayDump(o, s, n, c) => ReadsObjectArray(o, s, n, c, contents, idSize);
    case PrimitiveArrayDump(o, s, n, ty) => ReadsPrimitiveArray(o, s, n, ty, contents, idSize);
  }

  lemma ReadsTagged<T(!new)>(body: byte -> Parser<T>, tag: byte, b: Bytes, v: T)
    requires Reads(body(tag), b, v)
    ensures Reads(Tagged(body), [tag] + b, v)
  {
    Reads8(tag);
    ReadsFlatMap<byte, T>(U8(), E8(tag), tag, b);
  }

  /** One sub-record is read back, whatever follows it. */
  lemma ReadsGc(w: WireGc, idSize: IdSize, t: Bytes)
    requires GcFits(w, idSize)
    ensures ParseGcRecord(idSize)(EGc(w, idSize) + t) == Ok(t, Erase(w))
  {
    hide ParseGcBody, EGcBody, GcFits, GcTag, Tagged;
    ReadsGcBody(w, idSize);
    var body := (tag: byte) => ParseGcBody(tag, idSize);
    ReadsTagged(body, GcTag(Erase(w)), EGcBody(w, idSize), Erase(w));
    assert ParseGcRecord(idSize) == Tagged(body);
    ReadsMore(ParseGcRecord(idSize), EGc(w, idSize), Erase(w), t);
  }

  // ---- top-level records ----

  /** The records whose header length the parser does not look at. */
  lemma ReadsHeaded<T(!new)>(p: Parser<T>, timestamp: u32, b: Bytes, v: T)
    requires |b| < 0x1_0000_0000 && Reads(p, b, v)
    ensures forall f: T -> Record {:trigger Map(p, f)} ::
              Reads(Preceded(ParseHeaderRecord(), Map(p, f)), EHeader(timestamp, |b|) + b, f(v))
  {
    hide EHeader, ParseHeaderRecord, Preceded, Map;
    ReadsHeader(timestamp, |b|);
    ReadsMap<T, Record>(p, b, v);
    forall f: T -> Record
      ensures Reads(Preceded(ParseHeaderRecord(), Map(p, f)), EHeader(timestamp, |b|) + b, f(v))
    {
      ReadsPreceded(ParseHeaderRecord(), EHeader(timestamp, |b|), RecordHeader(timestamp, |b|), Map(p, f), b, f(v));
    }
  }

  lemma ReadsUtf8(timestamp: u32, id: u64, str: Bytes, idSize: IdSize)
    requires RecordFits(Utf8String(id, str), idSize)
    ensures var b := ETopBody(Utf8String(id, str), idSize);
            Reads(ParseUtf8String(idSize), EHeader(timestamp, |b|) + b, Utf8String(id, str))
  {
    hide EHeader, ParseHeaderRecord, Id, Take, Seq2;
    var b := EId(id, idSize) + str;
    ReadsHeader(timestamp, |b|);
    ReadsId(id, idSize);
    ReadsTake(str);
    ReadsSeq2(Id(idSize), EId(id, idSize), id, Take(|str|), str, str);
    ReadsMap<(u64, Bytes), Record>(Seq2(Id(idSize), Take(|str|)), b, (id, str));
    ReadsFlatMap<RecordHeader, Record>(
      ParseHeaderRecord(), EHeader(timestamp, |b|), RecordHeader(timestamp, |b|), b);
    assert SaturatingSub(|b|, idSize) == |str|;
  }

  lemma ReadsLoadClass(d: LoadClassData, timestamp: u32, idSize: IdSize)
    requires RecordFits(LoadClass(d), idSize)
    ensures var b := ETopBody(LoadClass(d), idSize);
            Reads(ParseLoadClass(idSize), EHeader(timestamp, |b|) + b, LoadClass(d))
  {
    hide EHeader, ParseHeaderRecord, U32, Id, E32, EId, Preceded, Map, Cat4, Seq4;
    var id := Id(idSize);
    Reads32(d.serialNumber);
    ReadsId(d.classObjectId, idSize);
    Reads32(d.stackTraceSerialNumber);
    ReadsId(d.classNameId, idSize);
    ReadsSeq4(U32(), E32(d.serialNumber), d.serialNumber, id, EId(d.classObjectId, idSize), d.classObjectId,
              U32(), E32(d.stackTraceSerialNumber), d.stackTraceSerialNumber,
              id, EId(d.classNameId, idSize), d.classNameId);
    ReadsHeaded(Seq4(U32(), id, U32(), id), timestamp, ETopBody(LoadClass(d), idSize),
                (d.serialNumber, d.classObjectId, d.stackTraceSerialNumber, d.classNameId));
  }

  lemma ReadsSerials(n: u32, timestamp: u32)
    ensures Reads(ParseUnloadClass(), EHeader(timestamp, 4) + E32(n), UnloadClass(n))
    ensures Reads(ParseEndThread(), EHeader(timestamp, 4) + E32(n), EndThread(n))
  {
    hide EHeader, ParseHeaderRecord, U32, Preceded, Map;
    Reads32(n);
    ReadsHeaded(U32(), timestamp, E32(n), n);
  }

  lemma ReadsStackFrame(d: StackFrameData, timestamp: u32, idSize: IdSize)
    requires RecordFits(StackFrame(d), idSize)
    ensures var b := ETopBody(StackFrame(d), idSize);
            Reads(ParseStackFrame(idSize), EHeader(timestamp, |b|) + b, StackFrame(d))
  {
    hide EHeader, ParseHeaderRecord, U32, I32, Id, E32, EId, Preceded, Map, Cat3, Cat4, Seq3, Seq4;
    var id := Id(idSize);
    var ids := Cat4(EId(d.stackFrameId, idSize), EId(d.methodNameId, idSize), EId(d.methodSignatureId, idSize),
                    EId(d.sourceFileNameId, idSize));
    var idsValue := (d.stackFrameId, d.methodNameId, d.methodSignatureId, d.sourceFileNameId);
    ReadsId(d.stackFrameId, idSize);
    ReadsId(d.methodNameId, idSize);
    ReadsId(d.methodSignatureId, idSize);
    ReadsId(d.sourceFileNameId, idSize);
    ReadsSeq4(id, EId(d.stackFrameId, idSize), d.stackFrameId, id, EId(d.methodNameId, idSize), d.methodNameId,
              id, EId(d.methodSignatureId, idSize), d.methodSignatureId,
              id, EId(d.sourceFileNameId, idSize), d.sourceFileNameId);
    Reads32(d.classSerialNumber);
    ReadsI32(d.lineNumber);
    ReadsSeq3(Seq4(id, id, id, id), ids, idsValue, U32(), E32(d.classSerialNumber), d.classSerialNumber,
              I32(), E32(Unsigned(d.lineNumber, 0x1_0000_0000)), d.lineNumber);
    ReadsHeaded(Seq3(Seq4(id, id, id, id), U32(), I32()), timestamp, ETopBody(StackFrame(d), idSize),
                (idsValue, d.classSerialNumber, d.lineNumber));
  }

  lemma ReadsStartThread(r: Record, timestamp: u32, idSize: IdSize)
    requires r.StartThread? && RecordFits(r, idSize)
    ensures var b := ETopBody(r, idSize);
            Reads(ParseStartThread(idSize), EHeader(timestamp, |b|) + b, r)
  {
    hide EHeader, ParseHeaderRecord, U32, Id, E32, EId, Preceded, Map, Cat3, Cat4, Seq3, Seq4;
    var StartThread(serial, thread, trace, name, group, parent) := r;
    var id := Id(idSize);
    Reads32(serial);
    ReadsId(thread, idSize);
    Reads32(trace);
    ReadsId(name, idSize);
    ReadsId(group, idSize);
    ReadsId(parent, idSize);
    ReadsSeq4(U32(), E32(serial), serial, id, EId(thread, idSize), thread, U32(), E32(trace), trace,
              id, EId(name, idSize), name);
    ReadsSeq3(Seq4(U32(), id, U32(), id), Cat4(E32(serial), EId(thread, idSize), E32(trace), EId(name, idSize)),
              (serial, thread, trace, name), id, EId(group, idSize), group, id, EId(parent, idSize), parent);
    ReadsHeaded(Seq3(Seq4(U32(), id, U32(), id), id, id), timestamp, ETopBody(r, idSize),
                ((serial, thread, trace, name), group, parent));
  }

  lemma ReadsHeapSummary(r: Record, timestamp: u32, idSize: IdSize)
    requires r.HeapSummary? && RecordFits(r, idSize)
    ensures var b := ETopBody(r, idSize);
            Reads(ParseHeapSummary(), EHeader(timestamp, |b|) + b, r)
  {
    hide EHeader, ParseHeaderRecord, U32, U64, E32, E64, Preceded, Map, Cat4, Seq4;
    var HeapSummary(live, liveInstances, bytes, instances) := r;
    Reads32(live);
    Reads32(liveInstances);
    Reads64(bytes);
    Reads64(instances);
    ReadsSeq4(U32(), E32(live), live, U32(), E32(liveInstances), liveInstances,
              U64(), E64(bytes), bytes, U64(), E64(instances), instances);
    ReadsHeaded(Seq4(U32(), U32(), U64(), U64()), timestamp, ETopBody(r, idSize),
                (live, liveInstances, bytes, instances));
  }

  lemma ReadsControlSettings(flags: u32, depth: u16, timestamp: u32, idSize: IdSize)
    requires RecordFits(ControlSettings(flags, depth), idSize)
    ensures var b := ETopBody(ControlSettings(flags, depth), idSize);
            Reads(ParseControlSettings(), EHeader(timestamp, |b|) + b, ControlSettings(flags, depth))
  {
    hide EHeader, ParseHeaderRecord, U16, U32, E16, E32, Preceded, Map, Seq2;
    Reads32(flags);
    Reads16(depth);
    ReadsSeq2(U32(), E32(flags), flags, U16(), E16(depth), depth);
    ReadsHeaded(Seq2(U32(), U16()), timestamp, ETopBody(ControlSettings(flags, depth), idSize), (flags, depth));
  }

  lemma ReadsHeapDumpMarks(timestamp: u32, length: u32)
    ensures Reads(ParseHeapDumpEnd(), EHeader(timestamp, length), HeapDumpEnd(length))
    ensures Reads(ParseHeapDumpStart(), EHeader(timestamp, length), HeapDumpStart(length))
  {
    hide EHeader, ParseHeaderRecord;
    ReadsHeader(timestamp, length);
    ReadsMap<RecordHeader, Record>(ParseHeaderRecord(), EHeader(timestamp, length), RecordHeader(timestamp, length));
  }

  lemma {:induction false} IdsLength(ids: seq<u64>, idSize: IdSize)
    ensures |EAll(IdEncoder(idSize), ids)| == if idSize == 4 then 4 * |ids| else 8 * |ids|
  {
    if ids != [] {
      IdsLength(ids[1..], idSize);
      assert |EId(ids[0], idSize)| == idSize;
    }
  }

  lemma ReadsStackTrace(d: StackTraceData, timestamp: u32, idSize: IdSize)
    requires RecordFits(StackTrace(d), idSize)
    ensures var b := ETopBody(StackTrace(d), idSize);
            Reads(ParseStackTrace(idSize), EHeader(timestamp, |b|) + b, StackTrace(d))
  {
    hide EHeader, ParseHeaderRecord, U32, Id, Map, Seq4, Count, IdEncoder;
    var b, frames := ETopBody(StackTrace(d), idSize), EAll(IdEncoder(idSize), d.stackFrameIds);
    IdsLength(d.stackFrameIds, idSize);
    assert |b| == 12 + |frames|;
    FramesRead(d.stackFrameIds, idSize);
    ReadsHeader(timestamp, |b|);
    ReadsFlatMap<RecordHeader, Record>(
      ParseHeaderRecord(), EHeader(timestamp, |b|), RecordHeader(timestamp, |b|), b);
    assert StackFrameIdsLen(|b|, idSize) == |d.stackFrameIds|;
    StackTraceTuple(d, idSize);
    ReadsMap<(u32, u32, u32, seq<u64>), Record>(
      Seq4(U32(), U32(), U32(), Count(Id(idSize), |d.stackFrameIds|)), b,
      (d.serialNumber, d.threadSerialNumber, d.numberOfFrames, d.stackFrameIds));
  }

  lemma FramesRead(ids: seq<u64>, idSize: IdSize)
    requires forall k :: 0 <= k < |ids| ==> FitsId(ids[k], idSize)
    ensures Reads(Count(Id(idSize), |ids|), EAll(IdEncoder(idSize), ids), ids)
  {
    hide Id, EId, Count;
    forall k | 0 <= k < |ids|
      ensures Reads(Id(idSize), IdEncoder(idSize)(ids[k]), ids[k])
    {
      ReadsId(ids[k], idSize);
    }
    ReadsCount(Id(idSize), IdEncoder(idSize), ids);
  }

  lemma StackTraceTuple(d: StackTraceData, idSize: IdSize)
    requires RecordFits(StackTrace(d), idSize)
    ensures Reads(Seq4(U32(), U32(), U32(), Count(Id(idSize), |d.stackFrameIds|)), ETopBody(StackTrace(d), idSize),
                  (d.serialNumber, d.threadSerialNumber, d.numberOfFrames, d.stackFrameIds))
  {
    hide U32, E32, Id, EId, Seq4, Cat4, Count, IdEncoder, EAll;
    Reads32(d.serialNumber);
    Reads32(d.threadSerialNumber);
    Reads32(d.numberOfFrames);
    FramesRead(d.stackFrameIds, idSize);
    ReadsSeq4(U32(), E32(d.serialNumber), d.serialNumber, U32(), E32(d.threadSerialNumber), d.threadSerialNumber,
              U32(), E32(d.numberOfFrames), d.numberOfFrames,
              Count(Id(idSize), |d.stackFrameIds|), EAll(IdEncoder(idSize), d.stackFrameIds), d.stackFrameIds);
  }

  lemma ReadsSite(site: AllocationSite)
    ensures Reads(ParseAllocationSite(), SiteEncoder()(site), site)
  {
    hide U8, U32, E8, E32, Seq4, Cat4;
    var AllocationSite(isArray, serial, trace, alive, instances, allocBytes, allocations) := site;
    Reads8(isArray);
    Reads32(serial);
    Reads32(trace);
    Reads32(alive);
    Reads32(instances);
    Reads32(allocBytes);
    Reads32(allocations);
    ReadsSeq4(U32(), E32(alive), alive, U32(), E32(instances), instances,
              U32(), E32(allocBytes), allocBytes, U32(), E32(allocations), allocations);
    ReadsSeq4(U8(), E8(isArray), isArray, U32(), E32(serial), serial, U32(), E32(trace), trace,
              Seq4(U32(), U32(), U32(), U32()), Cat4(E32(alive), E32(instances), E32(allocBytes), E32(allocations)),
              (alive, instances, allocBytes, allocations));
    ReadsMap<(byte, u32, u32, (u32, u32, u32, u32)), AllocationSite>(
      Seq4(U8(), U32(), U32(), Seq4(U32(), U32(), U32(), U32())), SiteEncoder()(site),
      (isArray, serial, trace, (alive, instances, allocBytes, allocations)));
  }

  lemma SitesHead(flags: u16, ratio: u32, live: u32, tail: (u32, u64, u64, u32))
    ensures Reads(
      Seq4(U16(), U32(), U32(), Seq4(U32(), U64(), U64(), U32())),
      Cat4(E16(flags), E32(ratio), E32(live), Cat4(E32(tail.0), E64(tail.1), E64(tail.2), E32(tail.3))),
      (flags, ratio, live, tail))
  {
    hide U16, U32, U64, E16, E32, E64, Seq4, Cat4;
    Reads16(flags);
    Reads32(ratio);
    Reads32(live);
    Reads32(tail.0);
    Reads64(tail.1);
    Reads64(tail.2);
    Reads32(tail.3);
    ReadsSeq4(U32(), E32(tail.0), tail.0, U64(), E64(tail.1), tail.1, U64(), E64(tail.2), tail.2,
              U32(), E32(tail.3), tail.3);
    ReadsSeq4(U16(), E16(flags), flags, U32(), E32(ratio), ratio, U32(), E32(live), live,
              Seq4(U32(), U64(), U64(), U32()), Cat4(E32(tail.0), E64(tail.1), E64(tail.2), E32(tail.3)), tail);
  }

  lemma ReadsAllocationSites(r: Record, timestamp: u32, idSize: IdSize)
    requires r.AllocationSites? && RecordFits(r, idSize)
    ensures var b := ETopBody(r, idSize);
            Reads(ParseAllocationSites(), EHeader(timestamp, |b|) + b, r)
  {
    hide EHeader, ParseHeaderRecord, U16, U32, U64, E16, E32, E64, Seq4, Cat4, Preceded, Map, Count, EAll,
      ParseAllocationSite, SiteEncoder;
    var AllocationSites(flags, ratio, live, liveInstances, bytes, instances, n, sites) := r;
    var b, tail := ETopBody(r, idSize), (liveInstances, bytes, instances, n);
    var head := Cat4(E16(flags), E32(ratio), E32(live), Cat4(E32(tail.0), E64(tail.1), E64(tail.2), E32(tail.3)));
    var list := EAll(SiteEncoder(), sites);
    SitesHead(flags, ratio, live, tail);
    ReadsHeader(timestamp, |b|);
    var p := Seq4(U16(), U32(), U32(), Seq4(U32(), U64(), U64(), U32()));
    ReadsPreceded(ParseHeaderRecord(), EHeader(timestamp, |b|), RecordHeader(timestamp, |b|), p, head,
                  (flags, ratio, live, tail));
    forall k | 0 <= k < |sites|
      ensures Reads(ParseAllocationSite(), SiteEncoder()(sites[k]), sites[k])
    {
      ReadsSite(sites[k]);
    }
    ReadsCount(ParseAllocationSite(), SiteEncoder(), sites);
    ReadsMap<seq<AllocationSite>, Record>(Count(ParseAllocationSite(), n), list, sites);
    ReadsFlatMap<(u16, u32, u32, (u32, u64, u64, u32)), Record>(
      Preceded(ParseHeaderRecord(), p), EHeader(timestamp, |b|) + head, (flags, ratio, live, tail), list);
    assert (EHeader(timestamp, |b|) + head) + list == EHeader(timestamp, |b|) + b;
  }

  lemma ReadsSample(sample: CpuSample)
    ensures Reads(ParseCpuSample(), SampleEncoder()(sample), sample)
  {
    hide U32, E32, Seq2;
    var CpuSample(n, trace) := sample;
    Reads32(n);
    Reads32(trace);
    ReadsSeq2(U32(), E32(n), n, U32(), E32(trace), trace);
    ReadsMap<(u32, u32), CpuSample>(Seq2(U32(), U32()), E32(n) + E32(trace), (n, trace));
  }

  lemma CpuSamplesHead(r: Record, timestamp: u32, idSize: IdSize)
    requires r.CpuSamples? && RecordFits(r, idSize)
    ensures var b, list := ETopBody(r, idSize), EAll(SampleEncoder(), r.cpuSamples);
            ParseCpuSamples()(EHeader(timestamp, |b|) + b) ==
            match CountAt(ParseCpuSample(), r.totalNumberOfSamples, list)
            case Ok(rest, samples) => Ok(rest, CpuSamples(r.totalNumberOfSamples, r.numberOfTraces, samples))
            case Incomplete(n) => Incomplete(n)
            case Panic => Panic
  {
    hide EHeader, ParseHeaderRecord, U32, E32, Preceded, EAll, ParseCpuSample, SampleEncoder, Seq2;
    var b, list := ETopBody(r, idSize), EAll(SampleEncoder(), r.cpuSamples);
    var total, traces := r.totalNumberOfSamples, r.numberOfTraces;
    Reads32(total);
    Reads32(traces);
    ReadsSeq2(U32(), E32(total), total, U32(), E32(traces), traces);
    ReadsHeader(timestamp, |b|);
    var p := Seq2(U32(), U32());
    ReadsPreceded(ParseHeaderRecord(), EHeader(timestamp, |b|), RecordHeader(timestamp, |b|), p,
                  E32(total) + E32(traces), (total, traces));
    ReadsFlatMap<(u32, u32), Record>(
      Preceded(ParseHeaderRecord(), p), EHeader(timestamp, |b|) + (E32(total) + E32(traces)), (total, traces), list);
    assert (EHeader(timestamp, |b|) + (E32(total) + E32(traces))) + list == EHeader(timestamp, |b|) + b;
    MapAt<seq<CpuSample>, Record>(Count(ParseCpuSample(), total), list);
  }

  /** The sample list is read as often as there are samples, while the format writes it once per
      trace: the record is read back exactly when the two counts agree. */
  lemma CpuSamplesExactly(r: Record, timestamp: u32, idSize: IdSize)
    requires r.CpuSamples? && RecordFits(r, idSize)
    ensures var b := ETopBody(r, idSize);
            Reads(ParseCpuSamples(), EHeader(timestamp, |b|) + b, r) <==> r.totalNumberOfSamples == r.numberOfTraces
  {
    hide EHeader, ParseCpuSamples, ParseCpuSample, EAll, SampleEncoder, ETopBody;
    CpuSamplesHead(r, timestamp, idSize);
    var list, total := EAll(SampleEncoder(), r.cpuSamples), r.totalNumberOfSamples;
    CountLength(ParseCpuSample(), total, list);
    if total == r.numberOfTraces {
      forall k | 0 <= k < |r.cpuSamples|
        ensures Reads(ParseCpuSample(), SampleEncoder()(r.cpuSamples[k]), r.cpuSamples[k])
      {
        ReadsSample(r.cpuSamples[k]);
      }
      ReadsCount(ParseCpuSample(), SampleEncoder(), r.cpuSamples);
    }
  }

  /** What the parser's reading of the sample list needs beyond the format. */
  predicate CountsAgree(r: Record) {
    r.CpuSamples? ==> r.totalNumberOfSamples == r.numberOfTraces
  }

  predicate IsStackOrSamples(r: Record) {
    r.StackFrame? || r.StackTrace? || r.AllocationSites? || r.StartThread? || r.CpuSamples?
  }

  lemma ReadsStackOrSamples(r: Record, timestamp: u32, idSize: IdSize)
    requires RecordFits(r, idSize) && CountsAgree(r) && IsStackOrSamples(r)
    ensures var b := ETopBody(r, idSize);
            Reads(ParseTopBody(TopTag(r), idSize), EHeader(timestamp, |b|) + b, r)
  {
    hide EHeader, ParseUtf8String, ParseLoadClass, ParseUnloadClass, ParseStackFrame, ParseStackTrace,
      ParseAllocationSites, ParseHeapSummary, ParseStartThread, ParseEndThread, ParseControlSettings,
      ParseCpuSamples, ParseHeapDumpEnd, ParseHeapDumpStart, EId, Cat3, Cat4, EAll, E64;
    match r
    case StackFrame(f) => ReadsStackFrame(f, timestamp, idSize);
    case StackTrace(d) => ReadsStackTrace(d, timestamp, idSize);
    case AllocationSites(_, _, _, _, _, _, _, _) => ReadsAllocationSites(r, timestamp, idSize);
    case StartThread(_, _, _, _, _, _) => ReadsStartThread(r, timestamp, idSize);
    case CpuSamples(_, _, _) => CpuSamplesExactly(r, timestamp, idSize);
  }

  lemma ReadsOtherBody(r: Record, timestamp: u32, idSize: IdSize)
    requires RecordFits(r, idSize) && !IsStackOrSamples(r)
    ensures var b := ETopBody(r, idSize);
            Reads(ParseTopBody(TopTag(r), idSize), EHeader(timestamp, |b|) + b, r)
  {
    hide EHeader, ParseUtf8String, ParseLoadClass, ParseUnloadClass, ParseStackFrame, ParseStackTrace,
      ParseAllocationSites, ParseHeapSummary, ParseStartThread, ParseEndThread, ParseControlSettings,
      ParseCpuSamples, ParseHeapDumpEnd, ParseHeapDumpStart, EId, Cat3, Cat4, EAll, E64;
    match r
    case Utf8String(id, str) => ReadsUtf8(timestamp, id, str, idSize);
    case LoadClass(d) => ReadsLoadClass(d, timestamp, idSize);
    case UnloadClass(n) => ReadsSerials(n, timestamp);
    case HeapSummary(_, _, _, _) => ReadsHeapSummary(r, timestamp, idSize);
    case EndThread(n) => ReadsSerials(n, timestamp);
    case ControlSettings(flags, depth) => ReadsControlSettings(flags, depth, timestamp, idSize);
    case HeapDumpEnd(n) =>
      ReadsHeapDumpMarks(timestamp, 0);
      assert EHeader(timestamp, 0) + [] == EHeader(timestamp, 0);
  }

  lemma ReadsTopBody(r: Record, timestamp: u32, idSize: IdSize)
    requires RecordFits(r, idSize) && CountsAgree(r)
    ensures var b := ETopBody(r, idSize);
            Reads(ParseTopBody(TopTag(r), idSize), EHeader(timestamp, |b|) + b, r)
  {
    hide RecordFits, CountsAgree, ETopBody, ParseTopBody, TopTag, EHeader, IsStackOrSamples;
    if IsStackOrSamples(r) {
      ReadsStackOrSamples(r, timestamp, idSize);
    } else {
      ReadsOtherBody(r, timestamp, idSize);
    }
  }

  lemma ReadsTopTagged(tag: byte, b: Bytes, r: Record, idSize: IdSize, t: Bytes)
    requires Reads(ParseTopBody(tag, idSize), b, r)
    ensures ParseTopRecord(idSize)(([tag] + b) + t) == Ok(t, r)
  {
    hide ParseTopBody, Tagged;
    var body := (tag: byte) => ParseTopBody(tag, idSize);
    ReadsTagged(body, tag, b, r);
    assert ParseTopRecord(idSize) == Tagged(body);
    ReadsMore(ParseTopRecord(idSize), [tag] + b, r, t);
  }

  // ---- whole dumps ----

  lemma StepReadsTop(w: WireRecord, idSize: IdSize, t: Bytes)
    requires w.WireTop? && WireFits(w, idSize) && CountsAgree(w.record)
    ensures HprofStep(idSize)(0, EWire(w, idSize) + t) == Ok(t, (w.record, 0))
  {
    hide ParseTopRecord, ParseGcRecord, ETopBody, TopTag, EHeader, ParseTopBody;
    var b := ETopBody(w.record, idSize);
    ReadsTopBody(w.record, w.timestamp, idSize);
    ReadsTopTagged(TopTag(w.record), EHeader(w.timestamp, |b|) + b, w.record, idSize, t);
  }

  lemma StepReadsStart(segmentTag: bool, timestamp: u32, length: u32, idSize: IdSize, t: Bytes)
    ensures var tag := if segmentTag then 0x1C else 0x0C;
            HprofStep(idSize)(0, ([tag] + EHeader(timestamp, length)) + t) == Ok(t, (HeapDumpStart(length), length))
  {
    hide ParseTopRecord, ParseGcRecord, EHeader, ParseHeapDumpStart;
    ReadsHeapDumpMarks(timestamp, length);
    ReadsTopTagged(if segmentTag then 0x1C else 0x0C, EHeader(timestamp, length), HeapDumpStart(length), idSize, t);
  }

  lemma GcNotEmpty(w: WireGc, idSize: IdSize)
    requires GcFits(w, idSize)
    ensures 0 < |EGc(w, idSize)|
  {
    hide EGcBody, GcTag, GcFits;
  }

  /** In sub-record mode a sub-record is read back whatever its length, and the remaining length is
      left by its truncated length. */
  lemma StepReadsGc(w: WireGc, remaining: u32, idSize: IdSize, t: Bytes)
    requires GcFits(w, idSize) && remaining > 0
    ensures HprofStep(idSize)(remaining, EGc(w, idSize) + t) ==
            Ok(t, (GcSegment(Erase(w)), LeaveSubRecord(remaining, |EGc(w, idSize)|)))
  {
    hide ParseTopRecord, ParseGcRecord, EGcBody, GcTag, GcFits;
    ReadsGc(w, idSize, t);
  }

  /** A read that begins with a record goes on after it. */
  lemma OneRead(p: RecordStep, m: u32, i: Bytes, rest: Bytes, r: Record, m': u32)
    requires p(m, i) == Ok(rest, (r, m'))
    ensures Drain(p, m, i) == Drain(p, m', rest).Prepend([r])
  {
    DrainStep(p, m, i, []);
    var d := Drain(p, m, i);
    assert [] + d.records == d.records && [] + [r] == [r];
  }

  /** Inside a segment: all its sub-records are read, and the mode ends with the last of them. */
  lemma {:induction false} SegmentRead(subs: seq<WireGc>, idSize: IdSize, t: Bytes)
    requires forall k :: 0 <= k < |subs| ==> GcFits(subs[k], idSize)
    requires |EGcs(subs, idSize)| < 0x1_0000_0000
    ensures Drain(HprofStep(idSize), |EGcs(subs, idSize)|, EGcs(subs, idSize) + t) ==
            Drain(HprofStep(idSize), 0, t).Prepend(ExpectedSubs(subs))
  {
    hide HprofStep, EGc, GcFits, Erase, Drain;
    var p := HprofStep(idSize);
    if subs == [] {
      assert [] + t == t && ExpectedSubs(subs) == [];
    } else {
      var first, later := EGc(subs[0], idSize), EGcs(subs[1..], idSize);
      SegmentRead(subs[1..], idSize, t);
      GcNotEmpty(subs[0], idSize);
      StepReadsGc(subs[0], |EGcs(subs, idSize)|, idSize, later + t);
      assert (first + later) + t == first + (later + t);
      OneRead(p, |EGcs(subs, idSize)|, first + (later + t), later + t, GcSegment(Erase(subs[0])), |later|);
      var e := Drain(p, 0, t).records;
      assert [GcSegment(Erase(subs[0]))] + (ExpectedSubs(subs[1..]) + e) == ExpectedSubs(subs) + e;
    }
  }

  lemma TopRead(w: WireRecord, idSize: IdSize, t: Bytes)
    requires w.WireTop? && WireFits(w, idSize) && CountsAgree(w.record)
    ensures Drain(HprofStep(idSize), 0, EWire(w, idSize) + t) == Drain(HprofStep(idSize), 0, t).Prepend([w.record])
  {
    hide HprofStep, EWire, WireFits, CountsAgree, Drain;
    StepReadsTop(w, idSize, t);
    OneRead(HprofStep(idSize), 0, EWire(w, idSize) + t, t, w.record, 0);
  }

  lemma WholeSegmentRead(segmentTag: bool, timestamp: u32, subs: seq<WireGc>, idSize: IdSize, t: Bytes)
    requires forall k :: 0 <= k < |subs| ==> GcFits(subs[k], idSize)
    requires |EGcs(subs, idSize)| < 0x1_0000_0000
    ensures var start, body := [if segmentTag then 0x1C else 0x0C], EGcs(subs, idSize);
            Drain(HprofStep(idSize), 0, ((start + EHeader(timestamp, |body|)) + body) + t) ==
            Drain(HprofStep(idSize), 0, t).Prepend([HeapDumpStart(|body|)] + ExpectedSubs(subs))
  {
    hide HprofStep, EHeader, EGcs, ExpectedSubs, GcFits, Drain;
    var p, body := HprofStep(idSize), EGcs(subs, idSize);
    var start := [if segmentTag then 0x1C else 0x0C] + EHeader(timestamp, |body|);
    StepReadsStart(segmentTag, timestamp, |body|, idSize, body + t);
    assert (start + body) + t == start + (body + t);
    OneRead(p, 0, start + (body + t), body + t, HeapDumpStart(|body|), |body|);
    SegmentRead(subs, idSize, t);
    var e := Drain(p, 0, t).records;
    assert [HeapDumpStart(|body|)] + (ExpectedSubs(subs) + e) == ([HeapDumpStart(|body|)] + ExpectedSubs(subs)) + e;
  }

  lemma WireRead(w: WireRecord, idSize: IdSize, t: Bytes)
    requires WireFits(w, idSize) && (w.WireTop? ==> CountsAgree(w.record))
    ensures Drain(HprofStep(idSize), 0, EWire(w, idSize) + t) ==
            Drain(HprofStep(idSize), 0, t).Prepend(Expected(w, idSize))
  {
    hide HprofStep, EHeader, ETopBody, EGcs, ExpectedSubs, CountsAgree, RecordFits, Drain;
    match w
    case WireTop(_, r) => TopRead(w, idSize, t);
    case WireSegment(segmentTag, timestamp, subs) => WholeSegmentRead(segmentTag, timestamp, subs, idSize, t);
  }

  /** Framing round trip: for every well-formed dump, with either identifier size and whatever
      bytes follow it, reading its encoding gives its records and leaves the parser in top-level
      mode at the first byte after it. */
  lemma {:induction false} DumpRead(ws: seq<WireRecord>, idSize: IdSize, t: Bytes)
    requires forall k :: 0 <= k < |ws| ==> WireFits(ws[k], idSize)
    requires forall k :: 0 <= k < |ws| && ws[k].WireTop? ==> CountsAgree(ws[k].record)
    ensures Drain(HprofStep(idSize), 0, EDump(ws, idSize) + t) ==
            Drain(HprofStep(idSize), 0, t).Prepend(ExpectedAll(ws, idSize))
  {
    hide HprofStep, EWire, Expected, CountsAgree, WireFits, Drain;
    var p := HprofStep(idSize);
    var e := Drain(p, 0, t).records;
    if ws == [] {
      assert [] + t == t && [] + e == e;
    } else {
      var later := EDump(ws[1..], idSize);
      DumpRead(ws[1..], idSize, t);
      WireRead(ws[0], idSize, later + t);
      assert (EWire(ws[0], idSize) + later) + t == EWire(ws[0], idSize) + (later + t);
      assert Expected(ws[0], idSize) + (ExpectedAll(ws[1..], idSize) + e) == ExpectedAll(ws, idSize) + e;
    }
  }

  /** A whole encoded dump is used up exactly. */
  lemma WholeDumpRead(ws: seq<WireRecord>, idSize: IdSize)
    requires forall k :: 0 <= k < |ws| ==> WireFits(ws[k], idSize)
    requires forall k :: 0 <= k < |ws| && ws[k].WireTop? ==> CountsAgree(ws[k].record)
    ensures Drain(HprofStep(idSize), 0, EDump(ws, idSize)) ==
            Drained(ExpectedAll(ws, idSize), 0, [], NeedMore(1))
  {
    hide HprofStep, EDump, ExpectedAll, WireFits, CountsAgree;
    DumpRead(ws, idSize, []);
    StepExtends(HprofStep(idSize), 0, [], []);
    assert EDump(ws, idSize) + [] == EDump(ws, idSize);
    assert ExpectedAll(ws, idSize) + [] == ExpectedAll(ws, idSize);
  }

  // ---- exactly which dumps are read back ----

  lemma SamplesCounted(i: Bytes)
    ensures var res := ParseCpuSamples()(i);
            res.Ok? ==> res.value.CpuSamples? && |res.value.cpuSamples| == res.value.totalNumberOfSamples
  {
    hide ParseHeaderRecord, Map, U32, Seq2, Preceded, ParseCpuSample;
    var counts := Preceded(ParseHeaderRecord(), Seq2(U32(), U32()))(i);
    if counts.Ok? {
      MapAt<seq<CpuSample>, Record>(Count(ParseCpuSample(), counts.value.0), counts.rest);
      CountLength(ParseCpuSample(), counts.value.0, counts.rest);
    }
  }

  /** A record of CPU samples with unequal counts is never read back, whatever follows it. */
  lemma StepMisreads(w: WireRecord, idSize: IdSize, t: Bytes)
    requires w.WireTop? && WireFits(w, idSize) && !CountsAgree(w.record)
    ensures var res := HprofStep(idSize)(0, EWire(w, idSize) + t);
            res.Ok? ==> res.value.0 != w.record
  {
    hide ParseCpuSamples, ParseGcRecord, ETopBody, EHeader;
    var i := EWire(w, idSize) + t;
    assert i[0] == 0x0D;
    SamplesCounted(i[1..]);
  }

  lemma FirstMisread(w: WireRecord, idSize: IdSize, t: Bytes)
    requires w.WireTop? && WireFits(w, idSize) && !CountsAgree(w.record)
    ensures !([w.record] <= Drain(HprofStep(idSize), 0, EWire(w, idSize) + t).records)
  {
    hide HprofStep, EWire, WireFits, CountsAgree;
    StepMisreads(w, idSize, t);
    var p, i := HprofStep(idSize), EWire(w, idSize) + t;
    if p(0, i).Ok? {
      OneRead(p, 0, i, p(0, i).rest, p(0, i).value.0, p(0, i).value.1);
      assert Drain(p, 0, i).records[0] == p(0, i).value.0;
    }
  }

  lemma {:induction false} DumpMisread(ws: seq<WireRecord>, idSize: IdSize, t: Bytes, bad: nat)
    requires forall k :: 0 <= k < |ws| ==> WireFits(ws[k], idSize)
    requires bad < |ws| && ws[bad].WireTop? && !CountsAgree(ws[bad].record)
    ensures !(ExpectedAll(ws, idSize) <= Drain(HprofStep(idSize), 0, EDump(ws, idSize) + t).records)
    decreases |ws|
  {
    hide HprofStep, EWire, CountsAgree, Drain, WireFits;
    var w, later := ws[0], EDump(ws[1..], idSize);
    assert (EWire(w, idSize) + later) + t == EWire(w, idSize) + (later + t);
    if w.WireTop? && !CountsAgree(w.record) {
      FirstMisread(w, idSize, later + t);
      assert [w.record] <= ExpectedAll(ws, idSize);
    } else {
      DumpMisread(ws[1..], idSize, t, bad - 1);
      WireRead(w, idSize, later + t);
      SamePrefix(Expected(w, idSize), ExpectedAll(ws[1..], idSize), Drain(HprofStep(idSize), 0, later + t).records);
    }
  }

  lemma SamePrefix<T>(a: seq<T>, b: seq<T>, c: seq<T>)
    ensures a + b <= a + c ==> b <= c
  {
    if a + b <= a + c {
      assert (a + b)[|a|..] == b && (a + c)[|a|..] == c;
      forall k | 0 <= k < |b|
        ensures b[k] == c[k]
      {
        assert (a + b)[|a| + k] == (a + c)[|a| + k];
      }
    }
  }

  ghost predicate AllCountsAgree(ws: seq<WireRecord>) {
    forall k :: 0 <= k < |ws| && ws[k].WireTop? ==> CountsAgree(ws[k].record)
  }

  /** Framing, both ways: a well-formed dump is read back, with either identifier size and whatever
      bytes follow it, if and only if each of its records of CPU samples has as many samples as
      traces. */
  lemma DumpReadExactly(ws: seq<WireRecord>, idSize: IdSize, t: Bytes)
    requires forall k :: 0 <= k < |ws| ==> WireFits(ws[k], idSize)
    ensures Drain(HprofStep(idSize), 0, EDump(ws, idSize) + t) ==
            Drain(HprofStep(idSize), 0, t).Prepend(ExpectedAll(ws, idSize))
            <==> AllCountsAgree(ws)
  {
    hide HprofStep, EDump, ExpectedAll, WireFits, CountsAgree, Drain;
    if AllCountsAgree(ws) {
      DumpRead(ws, idSize, t);
    } else {
      var bad :| 0 <= bad < |ws| && ws[bad].WireTop? && !CountsAgree(ws[bad].record);
      DumpMisread(ws, idSize, t, bad);
    }
  }

  lemma {:induction false} CountRunsShort<T(!new)>(p: Parser<T>, encode: T -> Bytes, items: seq<T>, n: nat)
    requires forall k :: 0 <= k < |items| ==> Reads(p, encode(items[k]), items[k])
    requires p([]).Incomplete? && |items| < n
    ensures CountAt(p, n, EAll(encode, items)).Incomplete?
    decreases |items|
  {
    if items != [] {
      CountRunsShort(p, encode, items[1..], n - 1);
      assert Reads(p, encode(items[0]), items[0]);
      ReadsMore(p, encode(items[0]), items[0], EAll(encode, items[1..]));
    }
  }

  lemma SamplesRunShort(r: Record, timestamp: u32, idSize: IdSize)
    requires r.CpuSamples? && RecordFits(r, idSize) && r.totalNumberOfSamples > r.numberOfTraces
    ensures var b := ETopBody(r, idSize);
            ParseCpuSamples()(EHeader(timestamp, |b|) + b).Incomplete?
  {
    hide EHeader, ParseCpuSamples, EAll, SampleEncoder, ETopBody;
    CpuSamplesHead(r, timestamp, idSize);
    forall k | 0 <= k < |r.cpuSamples|
      ensures Reads(ParseCpuSample(), SampleEncoder()(r.cpuSamples[k]), r.cpuSamples[k])
    {
      ReadsSample(r.cpuSamples[k]);
    }
    CountRunsShort(ParseCpuSample(), SampleEncoder(), r.cpuSamples, r.totalNumberOfSamples);
  }

  /** At the end of a file, a record of more CPU samples than traces never completes. */
  lemma TrailingSamplesLost(w: WireRecord, idSize: IdSize)
    requires w.WireTop? && WireFits(w, idSize)
    requires w.record.CpuSamples? && w.record.totalNumberOfSamples > w.record.numberOfTraces
    ensures HprofStep(idSize)(0, EWire(w, idSize)).Incomplete?
  {
    hide ParseCpuSamples, ParseGcRecord, ETopBody, EHeader;
    SamplesRunShort(w.record, w.timestamp, idSize);
    var i := EWire(w, idSize);
    assert i[0] == 0x0D;
    assert i[1..] == EHeader(w.timestamp, |ETopBody(w.record, idSize)|) + ETopBody(w.record, idSize);
  }

  // ---- the truncated length ----

  /** The 32-bit truncation of a sub-record's length is harmless exactly when the length fits, or
      when what it leaves still covers the rest of the segment. A well-formed segment has only
      sub-records that fit. */
  lemma TruncationHarmless(w: WireGc, remaining: u32, idSize: IdSize, t: Bytes)
    requires GcFits(w, idSize) && remaining > 0
    ensures var n := |EGc(w, idSize)|;
            HprofStep(idSize)(remaining, EGc(w, idSize) + t) ==
            Ok(t, (GcSegment(Erase(w)), SaturatingSub(remaining, n)))
            <==> n < 0x1_0000_0000 || n % 0x1_0000_0000 >= remaining
  {
    hide HprofStep, EGc, GcFits, Erase;
    StepReadsGc(w, remaining, idSize, t);
  }

  /** An array of 2^29 longs: 18 bytes of head and 2^32 of elements. */
  function HugeArray(): WireGc {
    WireDump(PrimitiveArrayDump(1, 0, 0x2000_0000, Long), seq(0x1_0000_0000, _ => 0))
  }

  lemma HugeArrayLength()
    ensures GcFits(HugeArray(), 8) && |EGc(HugeArray(), 8)| == 0x1_0000_0000 + 18
  {
  }

  /** In a segment that claims 100 bytes, 82 stay to be read although the array covers all of it. */
  lemma TruncationOverruns(t: Bytes)
    ensures GcFits(HugeArray(), 8)
    ensures HprofStep(8)(100, EGc(HugeArray(), 8) + t) ==
            Ok(t, (GcSegment(PrimitiveArrayDump(1, 0, 0x2000_0000, Long)), 82))
  {
    hide HprofStep, EGc, GcFits;
    HugeArrayLength();
    StepReadsGc(HugeArray(), 100, 8, t);
  }
}
