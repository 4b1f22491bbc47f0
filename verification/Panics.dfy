/** Which bytes make the parser panic, and that no others do. */
module Panics {
  import opened Nom
  import opened Records
  import opened RecordParser
  import opened Streaming
  import opened Skipping

  // ---- parsers that never panic ----

  ghost predicate NoPanic<T(!new)>(p: Parser<T>) {
    forall i: Bytes :: !p(i).Panic?
  }

  lemma NumbersNoPanic(idSize: IdSize)
    ensures NoPanic(U8()) && NoPanic(U16()) && NoPanic(U32()) && NoPanic(U64()) && NoPanic(Id(idSize))
    ensures NoPanic(I8()) && NoPanic(I16()) && NoPanic(I32()) && NoPanic(I64())
  {
    hide U8, U16, U32, U64, I8, I16, I32, I64, Map;
    UnsignedWidths();
    SignedWidths();
    MapWidth<u32, u64>(U32(), 4);
  }

  lemma TwoNoPanic<A(!new), B(!new)>(p: Parser<A>, q: Parser<B>)
    requires NoPanic(p) && NoPanic(q)
    ensures NoPanic(Seq2(p, q))
  {
    forall i: Bytes
      ensures !Seq2(p, q)(i).Panic?
    {
      TwoPanic(p, q, i);
    }
  }

  lemma TwoPanic<A(!new), B(!new)>(p: Parser<A>, q: Parser<B>, i: Bytes)
    ensures Seq2(p, q)(i).Panic? <==> p(i).Panic? || (p(i).Ok? && q(p(i).rest).Panic?)
    ensures Seq2(p, q)(i).Ok? <==> p(i).Ok? && q(p(i).rest).Ok?
    ensures Seq2(p, q)(i).Ok? ==> Seq2(p, q)(i).rest == q(p(i).rest).rest
    ensures Seq2(p, q)(i).Ok? ==> Seq2(p, q)(i).value.1 == q(p(i).rest).value
  {
    if p(i).Ok? {
      MapAt<B, (A, B)>(q, p(i).rest);
    }
  }

  lemma ThreePanic<A(!new), B(!new), C(!new)>(p: Parser<A>, q: Parser<B>, r: Parser<C>, i: Bytes)
    ensures Seq3(p, q, r)(i).Panic? <==> p(i).Panic? || (p(i).Ok? && Seq2(q, r)(p(i).rest).Panic?)
    ensures Seq3(p, q, r)(i).Ok? <==> p(i).Ok? && Seq2(q, r)(p(i).rest).Ok?
    ensures Seq3(p, q, r)(i).Ok? ==> Seq3(p, q, r)(i).rest == Seq2(q, r)(p(i).rest).rest
    ensures Seq3(p, q, r)(i).Ok? ==> Seq3(p, q, r)(i).value.2 == Seq2(q, r)(p(i).rest).value.1
  {
    hide Seq2, Map;
    if p(i).Ok? {
      MapAt<(B, C), (A, B, C)>(Seq2(q, r), p(i).rest);
    }
  }

  lemma FourPanic<A(!new), B(!new), C(!new), D(!new)>(
    p: Parser<A>, q: Parser<B>, r: Parser<C>, s: Parser<D>, i: Bytes)
    ensures Seq4(p, q, r, s)(i).Panic? <==> p(i).Panic? || (p(i).Ok? && Seq3(q, r, s)(p(i).rest).Panic?)
    ensures Seq4(p, q, r, s)(i).Ok? <==> p(i).Ok? && Seq3(q, r, s)(p(i).rest).Ok?
    ensures Seq4(p, q, r, s)(i).Ok? ==> Seq4(p, q, r, s)(i).rest == Seq3(q, r, s)(p(i).rest).rest
    ensures Seq4(p, q, r, s)(i).Ok? ==> Seq4(p, q, r, s)(i).value.3 == Seq3(q, r, s)(p(i).rest).value.2
  {
    hide Seq3, Map;
    if p(i).Ok? {
      MapAt<(B, C, D), (A, B, C, D)>(Seq3(q, r, s), p(i).rest);
    }
  }

  lemma ThreeNoPanic<A(!new), B(!new), C(!new)>(p: Parser<A>, q: Parser<B>, r: Parser<C>)
    requires NoPanic(p) && NoPanic(q) && NoPanic(r)
    ensures NoPanic(Seq3(p, q, r))
  {
    hide Seq2, Seq3;
    TwoNoPanic(q, r);
    forall i: Bytes
      ensures !Seq3(p, q, r)(i).Panic?
    {
      ThreePanic(p, q, r, i);
    }
  }

  lemma FourNoPanic<A(!new), B(!new), C(!new), D(!new)>(p: Parser<A>, q: Parser<B>, r: Parser<C>, s: Parser<D>)
    requires NoPanic(p) && NoPanic(q) && NoPanic(r) && NoPanic(s)
    ensures NoPanic(Seq4(p, q, r, s))
  {
    hide Seq3, Seq4;
    ThreeNoPanic(q, r, s);
    forall i: Bytes
      ensures !Seq4(p, q, r, s)(i).Panic?
    {
      FourPanic(p, q, r, s, i);
    }
  }

  /** A list panics exactly where one of its items does, once all before it have been read. */
  lemma {:induction false} CountPanic<T(!new)>(p: Parser<T>, n: nat, i: Bytes)
    ensures CountAt(p, n, i).Panic? <==> ItemPanics(p, n, i)
    decreases n
  {
    if n > 0 && p(i).Ok? {
      CountPanic(p, n - 1, p(i).rest);
      ItemsLater(p, n, i);
    } else if n > 0 {
      assert CountAt(p, 0, i) == Ok(i, []);
      FirstItem(p, n, i);
    }
  }

  ghost predicate ItemPanics<T(!new)>(p: Parser<T>, n: nat, i: Bytes) {
    exists k: nat :: k < n && PanicsAfter(p, k, i)
  }

  /** After `k` items comes one that panics. */
  predicate PanicsAfter<T(!new)>(p: Parser<T>, k: nat, i: Bytes) {
    CountAt(p, k, i).Ok? && p(CountAt(p, k, i).rest).Panic?
  }

  lemma FirstItem<T(!new)>(p: Parser<T>, n: nat, i: Bytes)
    requires n > 0 && !p(i).Ok?
    ensures ItemPanics(p, n, i) <==> p(i).Panic?
  {
    assert CountAt(p, 0, i) == Ok(i, []);
    if ItemPanics(p, n, i) {
      var k: nat :| k < n && PanicsAfter(p, k, i);
      assert k == 0;
    }
    assert PanicsAfter(p, 0, i) <==> p(i).Panic?;
  }

  lemma ItemsLater<T(!new)>(p: Parser<T>, n: nat, i: Bytes)
    requires n > 0 && p(i).Ok?
    ensures ItemPanics(p, n, i) <==> ItemPanics(p, n - 1, p(i).rest)
  {
    if ItemPanics(p, n, i) {
      var k: nat :| k < n && PanicsAfter(p, k, i);
      assert k > 0;
      assert PanicsAfter(p, k - 1, p(i).rest);
    }
    if ItemPanics(p, n - 1, p(i).rest) {
      var k: nat :| k < n - 1 && PanicsAfter(p, k, p(i).rest);
      assert PanicsAfter(p, k + 1, i);
    }
  }

  lemma CountNoPanic<T(!new)>(p: Parser<T>, n: nat)
    requires NoPanic(p)
    ensures NoPanic(Count(p, n))
  {
    forall i: Bytes
      ensures !CountAt(p, n, i).Panic?
    {
      CountPanic(p, n, i);
    }
  }

  // ---- top-level records ----

  /** The tags of the format that the program knows. */
  predicate TopTagKnown(tag: byte) {
    tag in [0x01, 0x02, 0x03, 0x04, 0x05, 0x06, 0x07, 0x0A, 0x0B, 0x0C, 0x0D, 0x0E, 0x1C, 0x2C]
  }

  lemma HeaderNoPanic()
    ensures NoPanic(ParseHeaderRecord())
  {
    hide U32, Seq2, Map;
    NumbersNoPanic(4);
    TwoNoPanic(U32(), U32());
    forall i: Bytes
      ensures !ParseHeaderRecord()(i).Panic?
    {
      MapAt<(u32, u32), RecordHeader>(Seq2(U32(), U32()), i);
    }
  }

  /** A record that is its header and then `q`, whatever is made of the value. */
  lemma HeadedNoPanic<A(!new)>(q: Parser<A>)
    requires NoPanic(q)
    ensures forall f: A -> Record {:trigger Map(q, f)} :: NoPanic(Preceded(ParseHeaderRecord(), Map(q, f)))
  {
    hide Map, ParseHeaderRecord, NoPanic;
    HeaderNoPanic();
    forall f: A -> Record, i: Bytes
      ensures !Preceded(ParseHeaderRecord(), Map(q, f))(i).Panic?
    {
      PieceNoPanic(ParseHeaderRecord(), i);
      var h := ParseHeaderRecord()(i);
      if h.Ok? {
        MapAt<A, Record>(q, h.rest);
        PieceNoPanic(q, h.rest);
      }
    }
    forall f: A -> Record
      ensures NoPanic(Preceded(ParseHeaderRecord(), Map(q, f)))
    {
      AllPieces(Preceded(ParseHeaderRecord(), Map(q, f)));
    }
  }

  lemma PieceNoPanic<T(!new)>(p: Parser<T>, i: Bytes)
    requires NoPanic(p)
    ensures !p(i).Panic?
  {
  }

  lemma AllPieces<T(!new)>(p: Parser<T>)
    requires forall i: Bytes :: !p(i).Panic?
    ensures NoPanic(p)
  {
  }

  lemma PlainNoPanic(idSize: IdSize)
    ensures NoPanic(ParseLoadClass(idSize)) && NoPanic(ParseUnloadClass()) && NoPanic(ParseStackFrame(idSize))
    ensures NoPanic(ParseStartThread(idSize)) && NoPanic(ParseEndThread())
    ensures NoPanic(ParseHeapSummary()) && NoPanic(ParseControlSettings())
  {
    hide Id, U16, U32, U64, I32, Seq2, Seq3, Seq4, Map, Preceded, NoPanic;
    var id := Id(idSize);
    NumbersNoPanic(idSize);
    FourNoPanic(U32(), id, U32(), id);
    HeadedNoPanic(Seq4(U32(), id, U32(), id));
    HeadedNoPanic(U32());
    FourNoPanic(id, id, id, id);
    ThreeNoPanic(Seq4(id, id, id, id), U32(), I32());
    HeadedNoPanic(Seq3(Seq4(id, id, id, id), U32(), I32()));
    ThreeNoPanic(Seq4(U32(), id, U32(), id), id, id);
    HeadedNoPanic(Seq3(Seq4(U32(), id, U32(), id), id, id));
    FourNoPanic(U32(), U32(), U64(), U64());
    HeadedNoPanic(Seq4(U32(), U32(), U64(), U64()));
    TwoNoPanic(U32(), U16());
    HeadedNoPanic(Seq2(U32(), U16()));
  }

  lemma MarksNoPanic()
    ensures NoPanic(ParseHeapDumpStart()) && NoPanic(ParseHeapDumpEnd())
  {
    hide ParseHeaderRecord, Map;
    HeaderNoPanic();
    forall i: Bytes
      ensures !ParseHeapDumpStart()(i).Panic? && !ParseHeapDumpEnd()(i).Panic?
    {
      MapAt<RecordHeader, Record>(ParseHeaderRecord(), i);
    }
  }

  lemma StringsNoPanic(idSize: IdSize)
    ensures NoPanic(ParseUtf8String(idSize)) && NoPanic(ParseStackTrace(idSize))
  {
    hide ParseHeaderRecord, Id, U32, Seq2, Seq4, Map, Count;
    HeaderNoPanic();
    NumbersNoPanic(idSize);
    forall i: Bytes
      ensures !ParseUtf8String(idSize)(i).Panic? && !ParseStackTrace(idSize)(i).Panic?
    {
      var h := ParseHeaderRecord()(i);
      if h.Ok? {
        var chars := Take(SaturatingSub(h.value.length, idSize));
        assert NoPanic(chars);
        TwoNoPanic(Id(idSize), chars);
        MapAt<(u64, Bytes), Record>(Seq2(Id(idSize), chars), h.rest);
        var frames := Count(Id(idSize), StackFrameIdsLen(h.value.length, idSize));
        CountNoPanic(Id(idSize), StackFrameIdsLen(h.value.length, idSize));
        FourNoPanic(U32(), U32(), U32(), frames);
        MapAt<(u32, u32, u32, seq<u64>), Record>(Seq4(U32(), U32(), U32(), frames), h.rest);
      }
    }
  }

  lemma ItemsNoPanic()
    ensures NoPanic(ParseAllocationSite()) && NoPanic(ParseCpuSample())
  {
    hide U8, U32, Seq2, Seq4, Map;
    NumbersNoPanic(4);
    FourNoPanic(U32(), U32(), U32(), U32());
    FourNoPanic(U8(), U32(), U32(), Seq4(U32(), U32(), U32(), U32()));
    TwoNoPanic(U32(), U32());
    forall i: Bytes
      ensures !ParseAllocationSite()(i).Panic? && !ParseCpuSample()(i).Panic?
    {
      MapAt<(byte, u32, u32, (u32, u32, u32, u32)), AllocationSite>(
        Seq4(U8(), U32(), U32(), Seq4(U32(), U32(), U32(), U32())), i);
      MapAt<(u32, u32), CpuSample>(Seq2(U32(), U32()), i);
    }
  }

  lemma PrecededNoPanic<A(!new)>(q: Parser<A>)
    requires NoPanic(q)
    ensures NoPanic(Preceded(ParseHeaderRecord(), q))
  {
    hide ParseHeaderRecord;
    HeaderNoPanic();
  }

  lemma ListsNoPanic()
    ensures NoPanic(ParseAllocationSites()) && NoPanic(ParseCpuSamples())
  {
    hide ParseHeaderRecord, U16, U32, U64, Seq2, Seq4, Map, Count, Preceded, ParseAllocationSite, ParseCpuSample;
    NumbersNoPanic(4);
    ItemsNoPanic();
    FourNoPanic(U32(), U64(), U64(), U32());
    FourNoPanic(U16(), U32(), U32(), Seq4(U32(), U64(), U64(), U32()));
    PrecededNoPanic(Seq4(U16(), U32(), U32(), Seq4(U32(), U64(), U64(), U32())));
    TwoNoPanic(U32(), U32());
    PrecededNoPanic(Seq2(U32(), U32()));
    forall i: Bytes
      ensures !ParseAllocationSites()(i).Panic? && !ParseCpuSamples()(i).Panic?
    {
      var head := Preceded(ParseHeaderRecord(), Seq4(U16(), U32(), U32(), Seq4(U32(), U64(), U64(), U32())))(i);
      if head.Ok? {
        CountNoPanic(ParseAllocationSite(), head.value.3.3);
        MapAt<seq<AllocationSite>, Record>(Count(ParseAllocationSite(), head.value.3.3), head.rest);
      }
      var counts := Preceded(ParseHeaderRecord(), Seq2(U32(), U32()))(i);
      if counts.Ok? {
        CountNoPanic(ParseCpuSample(), counts.value.0);
        MapAt<seq<CpuSample>, Record>(Count(ParseCpuSample(), counts.value.0), counts.rest);
      }
    }
  }

  lemma TopPanics(tag: byte, idSize: IdSize, i: Bytes)
    ensures ParseTopBody(tag, idSize)(i).Panic? <==> !TopTagKnown(tag)
  {
    hide NoPanic, ParseUtf8String, ParseLoadClass, ParseUnloadClass, ParseStackFrame, ParseStackTrace,
      ParseAllocationSites, ParseHeapSummary, ParseStartThread, ParseEndThread, ParseControlSettings,
      ParseCpuSamples, ParseHeapDumpEnd, ParseHeapDumpStart;
    if TopTagKnown(tag) {
      PlainNoPanic(idSize);
      MarksNoPanic();
      StringsNoPanic(idSize);
      ListsNoPanic();
      PieceNoPanic(ParseTopBody(tag, idSize), i);
    }
  }

  // ---- field types ----

  /** Not one of the nine codes of the format. */
  predicate BadCode(b: byte) {
    b !in [2, 4, 5, 6, 7, 8, 9, 10, 11]
  }

  predicate BadAt(i: Bytes, at: nat) {
    at < |i| && BadCode(i[at])
  }

  lemma FieldTypePanics(i: Bytes)
    ensures ParseFieldType()(i).Panic? <==> BadAt(i, 0)
    ensures ParseFieldType()(i).Ok? <==> i != [] && !BadCode(i[0])
    ensures ParseFieldType()(i).Ok? ==> ParseFieldType()(i).rest == i[1..]
    ensures ParseFieldType()(i).Ok? ==> (ParseFieldType()(i).value == Object <==> i[0] == 2)
  {
    MapAt<byte, i8>(U8(), i);
  }

  lemma ValueNoPanic(ty: FieldType, idSize: IdSize)
    ensures NoPanic(ParseFieldValue(ty, idSize))
  {
    hide Id, U8, U16, U32, U64, I8, I16, I32, I64, Map;
    NumbersNoPanic(idSize);
    forall i: Bytes
      ensures !ParseFieldValue(ty, idSize)(i).Panic?
    {
      MapAt<u64, FieldValue>(Id(idSize), i);
      MapAt<byte, FieldValue>(U8(), i);
      MapAt<u16, FieldValue>(U16(), i);
      MapAt<u32, FieldValue>(U32(), i);
      MapAt<u64, FieldValue>(U64(), i);
      MapAt<i8, FieldValue>(I8(), i);
      MapAt<i16, FieldValue>(I16(), i);
      MapAt<i32, FieldValue>(I32(), i);
      MapAt<i64, FieldValue>(I64(), i);
    }
  }

  lemma IdWidth(idSize: IdSize)
    ensures FixedWidth(Id(idSize), idSize) && FixedWidth(U16(), 2) && FixedWidth(U32(), 4)
  {
    hide U8, U16, U32, U64, Map, FixedWidth;
    UnsignedWidths();
    MapWidth<u32, u64>(U32(), 4);
  }

  /** A field type after something of fixed width. */
  lemma TypeAfter<A(!new)>(p: Parser<A>, w: nat, i: Bytes)
    requires FixedWidth(p, w)
    ensures Seq2(p, ParseFieldType())(i).Panic? <==> BadAt(i, w)
  {
    hide Seq2, ParseFieldType;
    TwoPanic(p, ParseFieldType(), i);
    if |i| >= w {
      FieldTypePanics(i[w..]);
    }
  }

  lemma ConstantPanics(idSize: IdSize, i: Bytes)
    ensures ParseConstPoolItem(idSize)(i).Panic? <==> BadAt(i, 2)
  {
    hide U16, Seq2, ParseFieldType, ParseFieldValue, Map, FixedWidth;
    IdWidth(idSize);
    TypeAfter(U16(), 2, i);
    var head := Seq2(U16(), ParseFieldType())(i);
    if head.Ok? {
      ValueNoPanic(head.value.1, idSize);
      MapAt<FieldValue, (ConstFieldInfo, FieldValue)>(ParseFieldValue(head.value.1, idSize), head.rest);
    }
  }

  lemma StaticPanics(idSize: IdSize, i: Bytes)
    ensures ParseStaticFieldItem(idSize)(i).Panic? <==> BadAt(i, idSize)
  {
    hide Id, Seq2, ParseFieldType, ParseFieldValue, Map, FixedWidth;
    IdWidth(idSize);
    TypeAfter(Id(idSize), idSize, i);
    var head := Seq2(Id(idSize), ParseFieldType())(i);
    if head.Ok? {
      ValueNoPanic(head.value.1, idSize);
      MapAt<FieldValue, (FieldInfo, FieldValue)>(ParseFieldValue(head.value.1, idSize), head.rest);
    }
  }

  lemma FieldPanics(idSize: IdSize, i: Bytes)
    ensures ParseInstanceFieldItem(idSize)(i).Panic? <==> BadAt(i, idSize)
  {
    hide Id, Seq2, ParseFieldType, Map, FixedWidth;
    IdWidth(idSize);
    TypeAfter(Id(idSize), idSize, i);
    MapAt<(u64, FieldType), FieldInfo>(Seq2(Id(idSize), ParseFieldType()), i);
  }

  // ---- class dumps ----

  /** A counted list gets to an item whose type code, `at` bytes into the item, is bad. */
  ghost predicate ReachesBadCode<T(!new)>(p: Parser<T>, at: nat, i: Bytes) {
    |i| >= 2 && exists k: nat :: k < i[0] as int * 0x100 + i[1] as int && BadAfter(p, at, k, i[2..])
  }

  /** After `k` items comes one with a bad type code. */
  predicate BadAfter<T(!new)>(p: Parser<T>, at: nat, k: nat, i: Bytes) {
    CountAt(p, k, i).Ok? && BadAt(CountAt(p, k, i).rest, at)
  }

  lemma ListPanics<T(!new)>(p: Parser<T>, at: nat, i: Bytes)
    requires forall j: Bytes :: p(j).Panic? <==> BadAt(j, at)
    ensures CountedU16(p)(i).Panic? <==> ReachesBadCode(p, at, i)
  {
    hide BadAt;
    if |i| >= 2 {
      var n := i[0] as int * 0x100 + i[1] as int;
      assert U16()(i) == Ok(i[2..], n);
      CountPanic(p, n, i[2..]);
      SameItems(p, at, n, i[2..]);
    }
  }

  lemma SameItems<T(!new)>(p: Parser<T>, at: nat, n: nat, i: Bytes)
    requires forall j: Bytes :: p(j).Panic? <==> BadAt(j, at)
    ensures ItemPanics(p, n, i) <==> exists k: nat :: k < n && BadAfter(p, at, k, i)
  {
    hide BadAt, CountAt;
    if ItemPanics(p, n, i) {
      var k: nat :| k < n && PanicsAfter(p, k, i);
      assert BadAfter(p, at, k, i);
    }
    if k: nat :| k < n && BadAfter(p, at, k, i) {
      assert PanicsAfter(p, k, i);
    }
  }

  lemma TwoWide<A(!new), B(!new)>(p: Parser<A>, a: nat, q: Parser<B>, b: nat)
    requires FixedWidth(p, a) && FixedWidth(q, b)
    ensures FixedWidth(Seq2(p, q), a + b)
  {
    hide Seq2;
    forall i: Bytes
      ensures if |i| < a + b then Seq2(p, q)(i).Incomplete? else Seq2(p, q)(i).Ok? && Seq2(p, q)(i).rest == i[a + b..]
    {
      TwoPanic(p, q, i);
      if |i| >= a + b {
        assert i[a..][b..] == i[a + b..];
      }
    }
  }

  lemma ThreeWide<A(!new), B(!new), C(!new)>(p: Parser<A>, a: nat, q: Parser<B>, b: nat, r: Parser<C>, c: nat)
    requires FixedWidth(p, a) && FixedWidth(q, b) && FixedWidth(r, c)
    ensures FixedWidth(Seq3(p, q, r), a + b + c)
  {
    hide Seq2, Seq3;
    TwoWide(q, b, r, c);
    forall i: Bytes
      ensures if |i| < a + b + c then Seq3(p, q, r)(i).Incomplete?
              else Seq3(p, q, r)(i).Ok? && Seq3(p, q, r)(i).rest == i[a + b + c..]
    {
      ThreePanic(p, q, r, i);
      if |i| >= a + b + c {
        assert i[a..][b + c..] == i[a + b + c..];
      }
    }
  }

  lemma FourWide<A(!new), B(!new), C(!new), D(!new)>(
    p: Parser<A>, a: nat, q: Parser<B>, b: nat, r: Parser<C>, c: nat, s: Parser<D>, d: nat)
    requires FixedWidth(p, a) && FixedWidth(q, b) && FixedWidth(r, c) && FixedWidth(s, d)
    ensures FixedWidth(Seq4(p, q, r, s), a + b + c + d)
  {
    hide Seq3, Seq4;
    ThreeWide(q, b, r, c, s, d);
    forall i: Bytes
      ensures if |i| < a + b + c + d then Seq4(p, q, r, s)(i).Incomplete?
              else Seq4(p, q, r, s)(i).Ok? && Seq4(p, q, r, s)(i).rest == i[a + b + c + d..]
    {
      FourPanic(p, q, r, s, i);
      if |i| >= a + b + c + d {
        assert i[a..][b + c + d..] == i[a + b + c + d..];
      }
    }
  }

  /** Seven identifiers and two numbers come before the lists of a class dump. */
  function HeadLen(idSize: IdSize): nat {
    if idSize == 4 then 36 else 64
  }

  lemma HeadWidth(idSize: IdSize)
    ensures FixedWidth(ParseClassDumpHead(idSize), HeadLen(idSize))
  {
    hide Id, U32, Seq3, Seq4, FixedWidth;
    var id := Id(idSize);
    IdWidth(idSize);
    FourWide(id, idSize, U32(), 4, id, idSize, id, idSize);
    FourWide(id, idSize, id, idSize, id, idSize, id, idSize);
    ThreeWide(Seq4(id, U32(), id, id), 3 * idSize + 4, Seq4(id, id, id, id), 4 * idSize, U32(), 4);
  }

  /** In one of its three lists, read one after the other, a class dump has a bad type code. */
  ghost predicate ClassDumpPanics(idSize: IdSize, i: Bytes) {
    && |i| >= HeadLen(idSize)
    && var lists := i[HeadLen(idSize)..];
       || ReachesBadCode(ParseConstPoolItem(idSize), 2, lists)
       || (var constants := CountedU16(ParseConstPoolItem(idSize))(lists);
           constants.Ok? && (
             || ReachesBadCode(ParseStaticFieldItem(idSize), idSize, constants.rest)
             || (var statics := CountedU16(ParseStaticFieldItem(idSize))(constants.rest);
                 statics.Ok? && ReachesBadCode(ParseInstanceFieldItem(idSize), idSize, statics.rest))))
  }

  lemma ClassListsPanic(idSize: IdSize)
    ensures forall i: Bytes ::
              CountedU16(ParseConstPoolItem(idSize))(i).Panic? <==> ReachesBadCode(ParseConstPoolItem(idSize), 2, i)
    ensures forall i: Bytes ::
              CountedU16(ParseStaticFieldItem(idSize))(i).Panic? <==>
              ReachesBadCode(ParseStaticFieldItem(idSize), idSize, i)
    ensures forall i: Bytes ::
              CountedU16(ParseInstanceFieldItem(idSize))(i).Panic? <==>
              ReachesBadCode(ParseInstanceFieldItem(idSize), idSize, i)
  {
    hide ParseConstPoolItem, ParseStaticFieldItem, ParseInstanceFieldItem, CountedU16, ReachesBadCode, BadAt;
    forall j: Bytes
      ensures ParseConstPoolItem(idSize)(j).Panic? <==> BadAt(j, 2)
      ensures ParseStaticFieldItem(idSize)(j).Panic? <==> BadAt(j, idSize)
      ensures ParseInstanceFieldItem(idSize)(j).Panic? <==> BadAt(j, idSize)
    {
      ConstantPanics(idSize, j);
      StaticPanics(idSize, j);
      FieldPanics(idSize, j);
    }
    forall i: Bytes
      ensures CountedU16(ParseConstPoolItem(idSize))(i).Panic? <==> ReachesBadCode(ParseConstPoolItem(idSize), 2, i)
      ensures CountedU16(ParseStaticFieldItem(idSize))(i).Panic? <==>
              ReachesBadCode(ParseStaticFieldItem(idSize), idSize, i)
      ensures CountedU16(ParseInstanceFieldItem(idSize))(i).Panic? <==>
              ReachesBadCode(ParseInstanceFieldItem(idSize), idSize, i)
    {
      ListPanics(ParseConstPoolItem(idSize), 2, i);
      ListPanics(ParseStaticFieldItem(idSize), idSize, i);
      ListPanics(ParseInstanceFieldItem(idSize), idSize, i);
    }
  }

  lemma ClassDumpPanicsExactly(idSize: IdSize, i: Bytes)
    ensures ParseGcClassDump(idSize)(i).Panic? <==> ClassDumpPanics(idSize, i)
  {
    hide ParseClassDumpHead, CountedU16, ParseConstPoolItem, ParseStaticFieldItem, ParseInstanceFieldItem, Seq2, Seq3,
      Seq4, Map, ReachesBadCode;
    var head, constants := ParseClassDumpHead(idSize), CountedU16(ParseConstPoolItem(idSize));
    var statics, fields := CountedU16(ParseStaticFieldItem(idSize)), CountedU16(ParseInstanceFieldItem(idSize));
    HeadWidth(idSize);
    ClassListsPanic(idSize);
    MapAt<(((u64, u32, u64, u64), (u64, u64, u64, u64), u32),
           seq<(ConstFieldInfo, FieldValue)>, seq<(FieldInfo, FieldValue)>, seq<FieldInfo>), GcRecord>(
      Seq4(head, constants, statics, fields), i);
    FourPanic(head, constants, statics, fields, i);
    if |i| >= HeadLen(idSize) {
      var lists := i[HeadLen(idSize)..];
      ThreePanic(constants, statics, fields, lists);
      if constants(lists).Ok? {
        TwoPanic(statics, fields, constants(lists).rest);
      }
    }
  }

  // ---- sub-records ----

  predicate GcTagKnown(tag: byte) {
    tag in [0xFF, 0x01, 0x02, 0x03, 0x04, 0x05, 0x06, 0x07, 0x08, 0x20, 0x21, 0x22, 0x23,
            0x89, 0x8A, 0x8B, 0x8C, 0x8D, 0x8E, 0x90, 0xC3, 0xFE]
  }

  /** Where the element type of an array stands. */
  function TypeOffset(idSize: IdSize): nat {
    idSize + 8
  }

  /** An unknown tag; a bad type code in a class dump or an array; an array of primitives that says it
      holds objects. */
  ghost predicate SubRecordPanics(tag: byte, idSize: IdSize, i: Bytes) {
    || !GcTagKnown(tag)
    || (tag == 0x20 && ClassDumpPanics(idSize, i))
    || (tag == 0x23 && (BadAt(i, TypeOffset(idSize)) || (TypeOffset(idSize) < |i| && i[TypeOffset(idSize)] == 2)))
    || (tag == 0xC3 && BadAt(i, TypeOffset(idSize)))
  }

  lemma ArrayHeadPanics(idSize: IdSize, i: Bytes)
    ensures var head, at := Seq4(Id(idSize), U32(), U32(), ParseFieldType())(i), TypeOffset(idSize);
            && (head.Panic? <==> BadAt(i, at))
            && (head.Ok? <==> at < |i| && !BadCode(i[at]))
            && (head.Ok? ==> (head.value.3 == Object <==> i[at] == 2))
  {
    hide Id, U32, Seq2, Seq3, Seq4, ParseFieldType;
    IdWidth(idSize);
    FourPanic(Id(idSize), U32(), U32(), ParseFieldType(), i);
    if |i| >= idSize {
      var j := i[idSize..];
      ThreePanic(U32(), U32(), ParseFieldType(), j);
      if |j| >= 4 {
        TwoPanic(U32(), ParseFieldType(), j[4..]);
        if |j| >= 8 {
          assert j[4..][4..] == i[TypeOffset(idSize)..];
          FieldTypePanics(i[TypeOffset(idSize)..]);
        }
      }
    }
  }

  lemma SkipNoPanic(ty: FieldType, n: u32)
    requires ty != Object
    ensures NoPanic(SkipArrayValue(ty, n))
  {
  }

  lemma ArraysPanic(idSize: IdSize, i: Bytes)
    ensures ParseGcPrimitiveArrayDump(idSize)(i).Panic? <==> SubRecordPanics(0x23, idSize, i)
    ensures ParseGcPrimitiveArrayNoDataDump(idSize)(i).Panic? <==> SubRecordPanics(0xC3, idSize, i)
  {
    hide Id, U32, Seq4, ParseFieldType, Map, SkipArrayValue, ClassDumpPanics;
    ArrayHeadPanics(idSize, i);
    var p := Seq4(Id(idSize), U32(), U32(), ParseFieldType());
    MapAt<(u64, u32, u32, FieldType), GcRecord>(p, i);
    if p(i).Ok? && p(i).value.3 != Object {
      SkipNoPanic(p(i).value.3, p(i).value.2);
      MapAt<Bytes, GcRecord>(SkipArrayValue(p(i).value.3, p(i).value.2), p(i).rest);
    }
  }

  lemma DumpsNoPanic(idSize: IdSize)
    ensures NoPanic(ParseGcInstanceDump(idSize)) && NoPanic(ParseGcObjectArrayDump(idSize))
  {
    hide Id, U32, Seq4, Map;
    NumbersNoPanic(idSize);
    FourNoPanic(Id(idSize), U32(), Id(idSize), U32());
    FourNoPanic(Id(idSize), U32(), U32(), Id(idSize));
    forall i: Bytes
      ensures !ParseGcInstanceDump(idSize)(i).Panic? && !ParseGcObjectArrayDump(idSize)(i).Panic?
    {
      var head := Seq4(Id(idSize), U32(), Id(idSize), U32())(i);
      if head.Ok? {
        MapAt<Bytes, GcRecord>(Take(head.value.3), head.rest);
      }
      var head' := Seq4(Id(idSize), U32(), U32(), Id(idSize))(i);
      if head'.Ok? {
        MapAt<Bytes, GcRecord>(Take(ObjectArrayBytes(head'.value.2, idSize)), head'.rest);
      }
    }
  }

  lemma RootShapesNoPanic(idSize: IdSize, i: Bytes)
    ensures forall f: u64 -> GcRecord {:trigger ParseIdOnly(idSize, f)} :: !ParseIdOnly(idSize, f)(i).Panic?
    ensures forall f: (u64, u32) -> GcRecord {:trigger ParseIdU32(idSize, f)} :: !ParseIdU32(idSize, f)(i).Panic?
    ensures forall f: (u64, u32, u32) -> GcRecord {:trigger ParseIdU32U32(idSize, f)} ::
              !ParseIdU32U32(idSize, f)(i).Panic?
    ensures !ParseGcRootJniGlobal(idSize)(i).Panic? && !ParseGcHeapDumpInfo(idSize)(i).Panic?
  {
    hide Id, U32, Seq2, Seq3, Map, OfPair, OfTriple;
    var id := Id(idSize);
    NumbersNoPanic(idSize);
    TwoNoPanic(id, U32());
    ThreeNoPanic(id, U32(), U32());
    TwoNoPanic(id, id);
    TwoNoPanic(U32(), id);
    MapAt<u64, GcRecord>(id, i);
    MapAt<(u64, u32), GcRecord>(Seq2(id, U32()), i);
    MapAt<(u64, u32, u32), GcRecord>(Seq3(id, U32(), U32()), i);
    MapAt<(u64, u64), GcRecord>(Seq2(id, id), i);
    MapAt<(u32, u64), GcRecord>(Seq2(U32(), id), i);
  }

  lemma UnknownPanics(tag: byte, idSize: IdSize, i: Bytes)
    requires !GcTagKnown(tag)
    ensures ParseGcBody(tag, idSize)(i).Panic?
  {
    hide ParseIdOnly, ParseIdU32, ParseIdU32U32, ParseGcRootJniGlobal, ParseGcHeapDumpInfo,
      ParseGcPrimitiveArrayNoDataDump, ParseGcClassDump, ParseGcInstanceDump, ParseGcObjectArrayDump,
      ParseGcPrimitiveArrayDump, ClassDumpPanics;
  }

  lemma FirstRootsNoPanic(tag: byte, idSize: IdSize, i: Bytes)
    requires tag == 0xFF || 0x01 <= tag <= 0x03
    ensures GcTagKnown(tag) && !ParseGcBody(tag, idSize)(i).Panic?
  {
    hide ParseIdOnly, ParseIdU32, ParseIdU32U32, ParseGcRootJniGlobal, ParseGcHeapDumpInfo,
      ParseGcPrimitiveArrayNoDataDump, ParseGcClassDump, ParseGcInstanceDump, ParseGcObjectArrayDump,
      ParseGcPrimitiveArrayDump, ClassDumpPanics;
    RootShapesNoPanic(idSize, i);
  }

  lemma LastRootsNoPanic(tag: byte, idSize: IdSize, i: Bytes)
    requires 0x04 <= tag <= 0x08
    ensures GcTagKnown(tag) && !ParseGcBody(tag, idSize)(i).Panic?
  {
    hide ParseIdOnly, ParseIdU32, ParseIdU32U32, ParseGcRootJniGlobal, ParseGcHeapDumpInfo,
      ParseGcPrimitiveArrayNoDataDump, ParseGcClassDump, ParseGcInstanceDump, ParseGcObjectArrayDump,
      ParseGcPrimitiveArrayDump, ClassDumpPanics;
    RootShapesNoPanic(idSize, i);
  }

  lemma ExtensionsNoPanic(tag: byte, idSize: IdSize, i: Bytes)
    requires 0x89 <= tag <= 0x8E || tag == 0x90 || tag == 0xFE
    ensures GcTagKnown(tag) && !ParseGcBody(tag, idSize)(i).Panic?
  {
    hide ParseIdOnly, ParseIdU32, ParseIdU32U32, ParseGcRootJniGlobal, ParseGcHeapDumpInfo,
      ParseGcPrimitiveArrayNoDataDump, ParseGcClassDump, ParseGcInstanceDump, ParseGcObjectArrayDump,
      ParseGcPrimitiveArrayDump, ClassDumpPanics;
    RootShapesNoPanic(idSize, i);
  }

  lemma DumpsPanic(tag: byte, idSize: IdSize, i: Bytes)
    requires 0x20 <= tag <= 0x23 || tag == 0xC3
    ensures ParseGcBody(tag, idSize)(i).Panic? <==> SubRecordPanics(tag, idSize, i)
  {
    hide ParseIdOnly, ParseIdU32, ParseIdU32U32, ParseGcRootJniGlobal, ParseGcHeapDumpInfo,
      ParseGcPrimitiveArrayNoDataDump, ParseGcClassDump, ParseGcInstanceDump, ParseGcObjectArrayDump,
      ParseGcPrimitiveArrayDump, ClassDumpPanics;
    DumpsNoPanic(idSize);
    ArraysPanic(idSize, i);
    ClassDumpPanicsExactly(idSize, i);
  }

  lemma GcPanics(tag: byte, idSize: IdSize, i: Bytes)
    ensures ParseGcBody(tag, idSize)(i).Panic? <==> SubRecordPanics(tag, idSize, i)
  {
    hide ParseGcBody, GcTagKnown, ClassDumpPanics;
    if !GcTagKnown(tag) {
      UnknownPanics(tag, idSize, i);
    } else if 0x20 <= tag <= 0x23 || tag == 0xC3 {
      DumpsPanic(tag, idSize, i);
    } else if tag == 0xFF || 0x01 <= tag <= 0x03 {
      FirstRootsNoPanic(tag, idSize, i);
    } else if 0x04 <= tag <= 0x08 {
      LastRootsNoPanic(tag, idSize, i);
    } else {
      KnownTags(tag);
      ExtensionsNoPanic(tag, idSize, i);
    }
  }

  lemma KnownTags(tag: byte)
    requires GcTagKnown(tag)
    ensures || tag == 0xFF || 0x01 <= tag <= 0x08 || 0x20 <= tag <= 0x23 || 0x89 <= tag <= 0x8E || tag == 0x90
            || tag == 0xC3 || tag == 0xFE
  {
  }

  /** A step of the record parser panics if and only if, in top-level mode, the tag is unknown, or, in
      sub-record mode, the tag is unknown or a type code is bad. */
  lemma StepPanicsExactly(idSize: IdSize, m: u32, i: Bytes)
    ensures HprofStep(idSize)(m, i).Panic? <==>
            i != [] && if m == 0 then !TopTagKnown(i[0]) else SubRecordPanics(i[0], idSize, i[1..])
  {
    hide ParseTopBody, ParseGcBody, SubRecordPanics, TopTagKnown;
    StepExtends(HprofStep(idSize), m, i, []);
    if i != [] {
      TopPanics(i[0], idSize, i[1..]);
      GcPanics(i[0], idSize, i[1..]);
    }
  }
}
