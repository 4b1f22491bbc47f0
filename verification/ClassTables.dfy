/** What any bytes can make the parsers yield: field lists have 16-bit lengths, and objects take up
    room in the file. So the sizes and sums of the report fit their integers. */
module ClassTables {
  import opened Nom
  import opened Records
  import opened RecordParser
  import opened Streaming
  import opened Recorder
  import opened InstanceSize
  import Encoding
  import Skipping
  import Accounting

  const MAX_FIELDS: nat := 65535

  /** A sub-record read from `used` bytes after its tag: a class has few fields, and an instance or an
      array has paid for its head and its contents. */
  predicate Fair(idSize: IdSize, gc: GcRecord, used: int) {
    match gc
    case ClassDump(f) => |f.instanceFields| <= MAX_FIELDS
    case InstanceDump(_, _, _, _) => used >= 16
    case ObjectArrayDump(_, _, _, _) => used >= 12 + Encoding.ContentsLen(gc, idSize)
    case PrimitiveArrayDump(_, _, _, _) => used >= 12 + Encoding.ContentsLen(gc, idSize)
    case _ => true
  }

  /** Sub-records of which nothing is asked. */
  predicate Plain(gc: GcRecord) {
    !gc.ClassDump? && !gc.InstanceDump? && !gc.ObjectArrayDump? && !gc.PrimitiveArrayDump?
  }

  predicate FairResult(idSize: IdSize, i: Bytes, res: PResult<GcRecord>) {
    res.Ok? ==> Fair(idSize, res.value, |i| - |res.rest|)
  }

  // ---- what the sub-record parsers yield ----

  lemma CountedShort<T(!new)>(p: Parser<T>, i: Bytes)
    ensures CountedU16(p)(i).Ok? ==> |CountedU16(p)(i).value| <= MAX_FIELDS
  {
    if U16()(i).Ok? {
      CountLength(p, U16()(i).value, U16()(i).rest);
    }
  }

  /** A success on `i` leaves `rest`, of which a part of `w` bytes or more is gone. */
  ghost predicate Takes<T(!new)>(p: Parser<T>, w: nat) {
    forall i: Bytes :: p(i).Ok? ==> |p(i).rest| + w <= |i|
  }

  lemma NumbersTake(idSize: IdSize)
    ensures Takes(U32(), 4) && Takes(Id(idSize), 4)
  {
    hide U32, U64, Map;
    Skipping.UnsignedWidths();
    Skipping.MapWidth<u32, u64>(U32(), 4);
  }

  lemma FieldTypeTakes()
    ensures Takes(ParseFieldType(), 0)
  {
    hide ParseFieldType;
    forall i: Bytes | ParseFieldType()(i).Ok?
      ensures |ParseFieldType()(i).rest| <= |i|
    {
      assert StreamsOn(ParseFieldType()(i), ParseFieldType()(i + []), i, []);
    }
  }

  lemma TwoTake<A(!new), B(!new)>(p: Parser<A>, a: nat, q: Parser<B>, b: nat, i: Bytes)
    requires Takes(p, a) && Takes(q, b) && Seq2(p, q)(i).Ok?
    ensures |Seq2(p, q)(i).rest| + a + b <= |i|
    ensures exists j: Bytes :: q(j).Ok? && q(j).value == Seq2(p, q)(i).value.1
  {
    MapAt<B, (A, B)>(q, p(i).rest);
    assert q(p(i).rest).Ok?;
  }

  lemma ThreeTake<A(!new), B(!new), C(!new)>(
    p: Parser<A>, a: nat, q: Parser<B>, b: nat, r: Parser<C>, c: nat, i: Bytes)
    requires Takes(p, a) && Takes(q, b) && Takes(r, c) && Seq3(p, q, r)(i).Ok?
    ensures |Seq3(p, q, r)(i).rest| + a + b + c <= |i|
    ensures exists j: Bytes :: r(j).Ok? && r(j).value == Seq3(p, q, r)(i).value.2
  {
    hide Seq2, Map;
    MapAt<(B, C), (A, B, C)>(Seq2(q, r), p(i).rest);
    TwoTake(q, b, r, c, p(i).rest);
  }

  lemma FourTake<A(!new), B(!new), C(!new), D(!new)>(
    p: Parser<A>, a: nat, q: Parser<B>, b: nat, r: Parser<C>, c: nat, s: Parser<D>, d: nat, i: Bytes)
    requires Takes(p, a) && Takes(q, b) && Takes(r, c) && Takes(s, d) && Seq4(p, q, r, s)(i).Ok?
    ensures |Seq4(p, q, r, s)(i).rest| + a + b + c + d <= |i|
    ensures exists j: Bytes :: s(j).Ok? && s(j).value == Seq4(p, q, r, s)(i).value.3
  {
    hide Seq3, Map;
    MapAt<(B, C, D), (A, B, C, D)>(Seq3(q, r, s), p(i).rest);
    ThreeTake(q, b, r, c, s, d, p(i).rest);
  }

  lemma AnyTakes<T(!new)>(p: Parser<T>)
    ensures Takes(p, 0)
  {
    forall i: Bytes | p(i).Ok?
      ensures |p(i).rest| <= |i|
    {
      assert StreamsOn(p(i), p(i + []), i, []);
    }
  }

  /** A class dump read from any bytes has at most 65535 instance fields. */
  lemma ClassDumpYields(idSize: IdSize, i: Bytes)
    ensures var res := ParseGcClassDump(idSize)(i);
            res.Ok? ==> res.value.ClassDump? && |res.value.fields.instanceFields| <= MAX_FIELDS
  {
    hide ParseClassDumpHead, CountedU16, ParseConstPoolItem, ParseStaticFieldItem, ParseInstanceFieldItem, Seq4, Map,
      Takes;
    var head, constants := ParseClassDumpHead(idSize), CountedU16(ParseConstPoolItem(idSize));
    var statics, fields := CountedU16(ParseStaticFieldItem(idSize)), CountedU16(ParseInstanceFieldItem(idSize));
    MapAt<(((u64, u32, u64, u64), (u64, u64, u64, u64), u32),
           seq<(ConstFieldInfo, FieldValue)>, seq<(FieldInfo, FieldValue)>, seq<FieldInfo>), GcRecord>(
      Seq4(head, constants, statics, fields), i);
    if ParseGcClassDump(idSize)(i).Ok? {
      AnyTakes(head);
      AnyTakes(constants);
      AnyTakes(statics);
      AnyTakes(fields);
      FourTake(head, 0, constants, 0, statics, 0, fields, 0, i);
      var j: Bytes :| fields(j).Ok? && fields(j).value == Seq4(head, constants, statics, fields)(i).value.3;
      CountedShort(ParseInstanceFieldItem(idSize), j);
    }
  }

  lemma InstanceDumpYields(idSize: IdSize, i: Bytes)
    ensures FairResult(idSize, i, ParseGcInstanceDump(idSize)(i))
  {
    hide Id, U32, Seq4, Map, Takes;
    var head := Seq4(Id(idSize), U32(), Id(idSize), U32())(i);
    if head.Ok? {
      NumbersTake(idSize);
      FourTake(Id(idSize), 4, U32(), 4, Id(idSize), 4, U32(), 4, i);
      MapAt<Bytes, GcRecord>(Take(head.value.3), head.rest);
    }
  }

  lemma ObjectArrayYields(idSize: IdSize, i: Bytes)
    ensures FairResult(idSize, i, ParseGcObjectArrayDump(idSize)(i))
  {
    hide Id, U32, Seq4, Map, Takes;
    var head := Seq4(Id(idSize), U32(), U32(), Id(idSize))(i);
    if head.Ok? {
      NumbersTake(idSize);
      FourTake(Id(idSize), 4, U32(), 4, U32(), 4, Id(idSize), 4, i);
      MapAt<Bytes, GcRecord>(Take(ObjectArrayBytes(head.value.2, idSize)), head.rest);
    }
  }

  lemma SkipTakes(gc: GcRecord, idSize: IdSize, i: Bytes)
    requires gc.PrimitiveArrayDump?
    ensures var res := SkipArrayValue(gc.primitiveType, gc.numberOfElements)(i);
            res.Ok? ==> |i| - |res.rest| == Encoding.ContentsLen(gc, idSize)
  {
  }

  lemma PrimitiveArrayYields(idSize: IdSize, i: Bytes)
    ensures FairResult(idSize, i, ParseGcPrimitiveArrayDump(idSize)(i))
  {
    hide Id, U32, Seq4, Map, SkipArrayValue, ParseFieldType, Takes, Encoding.ContentsLen;
    var head := Seq4(Id(idSize), U32(), U32(), ParseFieldType())(i);
    if head.Ok? && head.value.3 != Object {
      NumbersTake(idSize);
      FieldTypeTakes();
      FourTake(Id(idSize), 4, U32(), 4, U32(), 4, ParseFieldType(), 0, i);
      var t := head.value;
      MapAt<Bytes, GcRecord>(SkipArrayValue(t.3, t.2), head.rest);
      SkipTakes(PrimitiveArrayDump(t.0, t.1, t.2, t.3), idSize, head.rest);
    }
  }

  lemma OneMade(idSize: IdSize, i: Bytes)
    ensures forall f: u64 -> GcRecord {:trigger ParseIdOnly(idSize, f)} ::
              ParseIdOnly(idSize, f)(i).Ok? ==>
                Id(idSize)(i).Ok? && ParseIdOnly(idSize, f)(i).value == f(Id(idSize)(i).value)
  {
    hide Id, Map;
    MapAt<u64, GcRecord>(Id(idSize), i);
  }

  lemma PairMade(f: (u64, u32) -> GcRecord, t: (u64, u32))
    ensures OfPair(f)(t) == f(t.0, t.1)
  {
  }

  lemma TripleMade(f: (u64, u32, u32) -> GcRecord, t: (u64, u32, u32))
    ensures OfTriple(f)(t) == f(t.0, t.1, t.2)
  {
  }

  lemma TwoMade(idSize: IdSize, i: Bytes)
    ensures var r := Seq2(Id(idSize), U32())(i);
            forall f: (u64, u32) -> GcRecord {:trigger ParseIdU32(idSize, f)} ::
              ParseIdU32(idSize, f)(i).Ok? ==>
                r.Ok? && ParseIdU32(idSize, f)(i).value == f(r.value.0, r.value.1)
  {
    hide Id, U32, Seq2, Map, OfPair;
    var r := Seq2(Id(idSize), U32())(i);
    MapAt<(u64, u32), GcRecord>(Seq2(Id(idSize), U32()), i);
    forall f: (u64, u32) -> GcRecord {:trigger ParseIdU32(idSize, f)}
      ensures ParseIdU32(idSize, f)(i).Ok? ==>
                r.Ok? && ParseIdU32(idSize, f)(i).value == f(r.value.0, r.value.1)
    {
      if r.Ok? {
        PairMade(f, r.value);
      }
      assert ParseIdU32(idSize, f) == Map(Seq2(Id(idSize), U32()), OfPair(f));
    }
  }

  lemma ThreeMade(idSize: IdSize, i: Bytes)
    ensures var r := Seq3(Id(idSize), U32(), U32())(i);
            forall f: (u64, u32, u32) -> GcRecord {:trigger ParseIdU32U32(idSize, f)} ::
              ParseIdU32U32(idSize, f)(i).Ok? ==>
                r.Ok? && ParseIdU32U32(idSize, f)(i).value == f(r.value.0, r.value.1, r.value.2)
  {
    hide Id, U32, Seq3, Map, OfTriple;
    var r := Seq3(Id(idSize), U32(), U32())(i);
    MapAt<(u64, u32, u32), GcRecord>(Seq3(Id(idSize), U32(), U32()), i);
    forall f: (u64, u32, u32) -> GcRecord {:trigger ParseIdU32U32(idSize, f)}
      ensures ParseIdU32U32(idSize, f)(i).Ok? ==>
                r.Ok? && ParseIdU32U32(idSize, f)(i).value == f(r.value.0, r.value.1, r.value.2)
    {
      if r.Ok? {
        TripleMade(f, r.value);
      }
      assert ParseIdU32U32(idSize, f) == Map(Seq3(Id(idSize), U32(), U32()), OfTriple(f));
    }
  }

  lemma OtherRootsYield(idSize: IdSize, i: Bytes)
    ensures ParseGcRootJniGlobal(idSize)(i).Ok? ==> Plain(ParseGcRootJniGlobal(idSize)(i).value)
    ensures ParseGcHeapDumpInfo(idSize)(i).Ok? ==> Plain(ParseGcHeapDumpInfo(idSize)(i).value)
    ensures ParseGcPrimitiveArrayNoDataDump(idSize)(i).Ok? ==>
              Plain(ParseGcPrimitiveArrayNoDataDump(idSize)(i).value)
  {
    hide Id, U32, Seq2, Seq4, Map, ParseFieldType;
    MapAt<(u64, u64), GcRecord>(Seq2(Id(idSize), Id(idSize)), i);
    MapAt<(u32, u64), GcRecord>(Seq2(U32(), Id(idSize)), i);
    MapAt<(u64, u32, u32, FieldType), GcRecord>(Seq4(Id(idSize), U32(), U32(), ParseFieldType()), i);
  }

  lemma RootYields(tag: byte, idSize: IdSize, i: Bytes)
    requires tag < 0x20
    ensures var res := ParseGcBody(tag, idSize)(i);
            res.Ok? ==> Plain(res.value)
  {
    hide Id, U32, Seq2, Seq3, ParseIdOnly, ParseIdU32, ParseIdU32U32, ParseGcRootJniGlobal;
    OneMade(idSize, i);
    TwoMade(idSize, i);
    ThreeMade(idSize, i);
    OtherRootsYield(idSize, i);
  }

  lemma ExtensionYields(tag: byte, idSize: IdSize, i: Bytes)
    requires tag > 0x23
    ensures var res := ParseGcBody(tag, idSize)(i);
            res.Ok? ==> Plain(res.value)
  {
    hide Id, U32, Seq2, Seq3, ParseIdOnly, ParseIdU32, ParseIdU32U32, ParseGcRootJniGlobal, ParseGcHeapDumpInfo,
      ParseGcPrimitiveArrayNoDataDump;
    OneMade(idSize, i);
    ThreeMade(idSize, i);
    OtherRootsYield(idSize, i);
  }

  lemma SubRecordYields(tag: byte, idSize: IdSize, i: Bytes)
    ensures FairResult(idSize, i, ParseGcBody(tag, idSize)(i))
  {
    hide ParseIdOnly, ParseIdU32, ParseIdU32U32, ParseGcRootJniGlobal, ParseGcHeapDumpInfo,
      ParseGcPrimitiveArrayNoDataDump, ParseGcClassDump, ParseGcInstanceDump, ParseGcObjectArrayDump,
      ParseGcPrimitiveArrayDump, Encoding.ContentsLen;
    match tag
    case 0x20 => ClassDumpYields(idSize, i);
    case 0x21 => InstanceDumpYields(idSize, i);
    case 0x22 => ObjectArrayYields(idSize, i);
    case 0x23 => PrimitiveArrayYields(idSize, i);
    case _ =>
      if tag < 0x20 {
        RootYields(tag, idSize, i);
      } else {
        ExtensionYields(tag, idSize, i);
      }
  }

  lemma GcRecordYields(idSize: IdSize, i: Bytes)
    requires ParseGcRecord(idSize)(i).Ok?
    ensures var res := ParseGcRecord(idSize)(i);
            i != [] && Fair(idSize, res.value, |i| - |res.rest| - 1)
  {
    hide ParseGcBody, Fair;
    SubRecordYields(i[0], idSize, i[1..]);
  }

  // ---- what the top-level parsers yield ----

  /** A parser of top-level records yields no sub-record. */
  ghost predicate YieldsTop(p: Parser<Record>) {
    forall i: Bytes :: p(i).Ok? ==> !p(i).value.GcSegment?
  }

  lemma LoadsYieldTop(idSize: IdSize)
    ensures YieldsTop(ParseUtf8String(idSize))
    ensures YieldsTop(ParseLoadClass(idSize))
    ensures YieldsTop(ParseUnloadClass())
  {
    hide Id, Map, ParseHeaderRecord, Seq2, Seq4, Take, U32;
    forall i: Bytes
      ensures ParseUtf8String(idSize)(i).Ok? ==> !ParseUtf8String(idSize)(i).value.GcSegment?
      ensures ParseLoadClass(idSize)(i).Ok? ==> !ParseLoadClass(idSize)(i).value.GcSegment?
      ensures ParseUnloadClass()(i).Ok? ==> !ParseUnloadClass()(i).value.GcSegment?
    {
      var h := ParseHeaderRecord()(i);
      if h.Ok? {
        MapAt<(u64, Bytes), Record>(Seq2(Id(idSize), Take(SaturatingSub(h.value.length, idSize))), h.rest);
        MapAt<(u32, u64, u32, u64), Record>(Seq4(U32(), Id(idSize), U32(), Id(idSize)), h.rest);
        MapAt<u32, Record>(U32(), h.rest);
      }
    }
  }

  lemma StacksYieldTop(idSize: IdSize)
    ensures YieldsTop(ParseStackFrame(idSize))
    ensures YieldsTop(ParseStackTrace(idSize))
  {
    hide Count, I32, Id, Map, ParseHeaderRecord, Seq3, Seq4, U32;
    forall i: Bytes
      ensures ParseStackFrame(idSize)(i).Ok? ==> !ParseStackFrame(idSize)(i).value.GcSegment?
      ensures ParseStackTrace(idSize)(i).Ok? ==> !ParseStackTrace(idSize)(i).value.GcSegment?
    {
      var h := ParseHeaderRecord()(i);
      if h.Ok? {
        MapAt<((u64, u64, u64, u64), u32, i32), Record>(
          Seq3(Seq4(Id(idSize), Id(idSize), Id(idSize), Id(idSize)), U32(), I32()), h.rest);
        MapAt<(u32, u32, u32, seq<u64>), Record>(
          Seq4(U32(), U32(), U32(), Count(Id(idSize), StackFrameIdsLen(h.value.length, idSize))), h.rest);
      }
    }
  }

  lemma ThreadsYieldTop(idSize: IdSize)
    ensures YieldsTop(ParseStartThread(idSize))
    ensures YieldsTop(ParseEndThread())
  {
    hide Id, Map, ParseHeaderRecord, Seq3, Seq4, U32;
    forall i: Bytes
      ensures ParseStartThread(idSize)(i).Ok? ==> !ParseStartThread(idSize)(i).value.GcSegment?
      ensures ParseEndThread()(i).Ok? ==> !ParseEndThread()(i).value.GcSegment?
    {
      var h := ParseHeaderRecord()(i);
      if h.Ok? {
        MapAt<((u32, u64, u32, u64), u64, u64), Record>(
          Seq3(Seq4(U32(), Id(idSize), U32(), Id(idSize)), Id(idSize), Id(idSize)), h.rest);
        MapAt<u32, Record>(U32(), h.rest);
      }
    }
  }

  lemma SummaryYieldsTop()
    ensures YieldsTop(ParseHeapSummary())
    ensures YieldsTop(ParseControlSettings())
  {
    hide Map, ParseHeaderRecord, Seq2, Seq4, U16, U32, U64;
    forall i: Bytes
      ensures ParseHeapSummary()(i).Ok? ==> !ParseHeapSummary()(i).value.GcSegment?
      ensures ParseControlSettings()(i).Ok? ==> !ParseControlSettings()(i).value.GcSegment?
    {
      var h := ParseHeaderRecord()(i);
      if h.Ok? {
        MapAt<(u32, u32, u64, u64), Record>(Seq4(U32(), U32(), U64(), U64()), h.rest);
        MapAt<(u32, u16), Record>(Seq2(U32(), U16()), h.rest);
      }
    }
  }

  lemma MarksYieldTop()
    ensures YieldsTop(ParseHeapDumpStart()) && YieldsTop(ParseHeapDumpEnd()) && YieldsTop(Fail())
  {
    hide ParseHeaderRecord, Map;
    forall i: Bytes
      ensures ParseHeapDumpStart()(i).Ok? ==> !ParseHeapDumpStart()(i).value.GcSegment?
      ensures ParseHeapDumpEnd()(i).Ok? ==> !ParseHeapDumpEnd()(i).value.GcSegment?
    {
      MapAt<RecordHeader, Record>(ParseHeaderRecord(), i);
    }
  }

  lemma ListsYieldTop()
    ensures YieldsTop(ParseAllocationSites()) && YieldsTop(ParseCpuSamples())
  {
    hide ParseHeaderRecord, Map, U16, U32, U64, Seq2, Seq4, Count, Preceded, ParseAllocationSite, ParseCpuSample;
    forall i: Bytes
      ensures ParseAllocationSites()(i).Ok? ==> !ParseAllocationSites()(i).value.GcSegment?
      ensures ParseCpuSamples()(i).Ok? ==> !ParseCpuSamples()(i).value.GcSegment?
    {
      var head := Preceded(ParseHeaderRecord(), Seq4(U16(), U32(), U32(), Seq4(U32(), U64(), U64(), U32())))(i);
      if head.Ok? {
        MapAt<seq<AllocationSite>, Record>(Count(ParseAllocationSite(), head.value.3.3), head.rest);
      }
      var counts := Preceded(ParseHeaderRecord(), Seq2(U32(), U32()))(i);
      if counts.Ok? {
        MapAt<seq<CpuSample>, Record>(Count(ParseCpuSample(), counts.value.0), counts.rest);
      }
    }
  }

  lemma TopYields(tag: byte, idSize: IdSize)
    ensures YieldsTop(ParseTopBody(tag, idSize))
  {
    hide YieldsTop, ParseUtf8String, ParseLoadClass, ParseUnloadClass, ParseStackFrame, ParseStackTrace,
      ParseAllocationSites, ParseHeapSummary, ParseStartThread, ParseEndThread, ParseControlSettings,
      ParseCpuSamples, ParseHeapDumpEnd, ParseHeapDumpStart;
    LoadsYieldTop(idSize);
    StacksYieldTop(idSize);
    ThreadsYieldTop(idSize);
    SummaryYieldsTop();
    MarksYieldTop();
    ListsYieldTop();
  }

  // ---- over a whole read ----

  /** The most a record can add to the bytes of the report, while no instance reaches 2^32 bytes. */
  function Weight(idSize: IdSize, r: Record): nat {
    if !r.GcSegment? then 0
    else
      match r.gc
      case InstanceDump(_, _, _, _) => 0x1_0000_0000
      case ObjectArrayDump(_, _, n, _) => ObjectArraySize(idSize, n)
      case PrimitiveArrayDump(_, _, n, ty) => PrimitiveArraySize(idSize, ty, n)
      case _ => 0
  }

  function TotalWeight(idSize: IdSize, rs: seq<Record>): nat {
    if rs == [] then 0 else TotalWeight(idSize, rs[..|rs| - 1]) + Weight(idSize, rs[|rs| - 1])
  }

  lemma {:induction false} WeightCons(idSize: IdSize, r: Record, rs: seq<Record>)
    ensures TotalWeight(idSize, [r] + rs) == Weight(idSize, r) + TotalWeight(idSize, rs)
    decreases |rs|
  {
    hide Weight;
    if rs == [] {
      assert [r] + rs == [r] && [r][..0] == [];
    } else {
      WeightCons(idSize, r, rs[..|rs| - 1]);
      assert ([r] + rs)[..|rs|] == [r] + rs[..|rs| - 1];
    }
  }

  /** No record weighs more than 2^28 times the bytes it is read from. */
  const RATE: nat := 0x1000_0000

  lemma FairWeight(idSize: IdSize, gc: GcRecord, used: int)
    requires used >= 0 && Fair(idSize, gc, used)
    ensures Weight(idSize, GcSegment(gc)) <= RATE * (used + 1)
  {
    hide ObjectArraySize, PrimitiveArraySize;
    match gc
    case ObjectArrayDump(_, _, n, _) => ArraySizesExact(idSize, Bool, n);
    case PrimitiveArrayDump(_, _, n, ty) => ArraySizesExact(idSize, ty, n);
    case _ =>
  }

  ghost predicate AllFew(records: seq<Record>) {
    forall k :: 0 <= k < |records| && records[k].GcSegment? && records[k].gc.ClassDump? ==>
                  |records[k].gc.fields.instanceFields| <= MAX_FIELDS
  }

  lemma StepYields(idSize: IdSize, m: u32, i: Bytes)
    requires HprofStep(idSize)(m, i).Ok?
    ensures var res := HprofStep(idSize)(m, i);
            && AllFew([res.value.0]) && |res.rest| < |i|
            && Weight(idSize, res.value.0) <= RATE * (|i| - |res.rest|)
  {
    hide ParseTopBody, ParseGcRecord, Weight;
    StepExtends(HprofStep(idSize), m, i, []);
    if m == 0 {
      TopYields(i[0], idSize);
      NoWeight(idSize, HprofStep(idSize)(m, i).value.0);
    } else {
      GcRecordYields(idSize, i);
      var res := ParseGcRecord(idSize)(i);
      FairWeight(idSize, res.value, |i| - |res.rest| - 1);
    }
  }

  lemma NoWeight(idSize: IdSize, r: Record)
    requires !r.GcSegment?
    ensures Weight(idSize, r) == 0
  {
  }

  /** A read of any bytes: no more records than bytes, and bounded weight. */
  lemma {:induction false} DrainYields(idSize: IdSize, m: u32, i: Bytes)
    ensures var d := Drain(HprofStep(idSize), m, i);
            && AllFew(d.records) && |d.records| + |d.rest| <= |i|
            && TotalWeight(idSize, d.records) <= RATE * |i|
    decreases |i|
  {
    hide HprofStep, Weight;
    var p := HprofStep(idSize);
    StepExtends(p, m, i, []);
    if p(m, i).Ok? {
      var Ok(r, v) := p(m, i);
      StepYields(idSize, m, i);
      DrainYields(idSize, v.1, r);
      WeightCons(idSize, v.0, Drain(p, v.1, r).records);
    }
  }

  ghost predicate TableFew(t: ClassTable) {
    forall c :: c in t ==> |t[c].instanceFieldTypes| <= MAX_FIELDS
  }

  lemma {:induction false} RecordedFew(idSize: IdSize, records: seq<Record>)
    requires AllFew(records)
    ensures TableFew(RecordAll(idSize, Fresh(), records).classes)
  {
    hide RecordOne, RecordGc;
    if records != [] {
      var before, r := records[..|records| - 1], records[|records| - 1];
      RecordedFew(idSize, before);
      var s := RecordAll(idSize, Fresh(), before);
      if r.GcSegment? {
        Accounting.RecordTables(idSize, s, r);
        Accounting.DumpTables(idSize, s, r.gc);
      } else {
        Accounting.RecordTables(idSize, s, r);
      }
    }
  }

  /** For every file: in the class table its analysis ends with, the size of each class whose
      superclass chain has at most 8192 classes is exact in 32 bits. */
  lemma AnalysedSizesFit(idSize: IdSize, body: Bytes, c: u64)
    requires var t := RecordAll(idSize, Fresh(), Drain(HprofStep(idSize), 0, body).records).classes;
             Ends(t, c) && Depth(t, c) <= 8192
    ensures var t := RecordAll(idSize, Fresh(), Drain(HprofStep(idSize), 0, body).records).classes;
            SizeOf(t, idSize, c) < 0x1_0000_0000
  {
    hide HprofStep, RecordAll, Drain, Ends, Depth, SizeOf;
    DrainYields(idSize, 0, body);
    RecordedFew(idSize, Drain(HprofStep(idSize), 0, body).records);
    NoOverflow(RecordAll(idSize, Fresh(), Drain(HprofStep(idSize), 0, body).records).classes, idSize, c);
  }
}
