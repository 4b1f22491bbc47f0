/** The record parsers: one top-level record, or one GC sub-record while a heap dump segment is
    being read. Each is built from the combinators of `Nom`, so each is a streaming `Parser`. */
module RecordParser {
  import opened Nom
  import opened Records

  function Id(idSize: IdSize): Parser<u64> {
    if idSize == 4 then Map<u32, u64>(U32(), v => v) else U64()
  }

  // ---- GC sub-records ----

  function FieldTypeFromValue(v: i8): Option<FieldType> {
    match v
    case 2 => Some(Object)
    case 4 => Some(Bool)
    case 5 => Some(Char)
    case 6 => Some(Float)
    case 7 => Some(Double)
    case 8 => Some(Byte)
    case 9 => Some(Short)
    case 10 => Some(Int)
    case 11 => Some(Long)
    case _ => None
  }

  function FieldTypeOrPanic(v: i8): Parser<FieldType> {
    match FieldTypeFromValue(v)
    case Some(ty) => Return(ty)
    case None => Fail()
  }

  function ParseFieldType(): Parser<FieldType> {
    FlatMap(I8(), v => FieldTypeOrPanic(v))
  }

  function ParseFieldValue(ty: FieldType, idSize: IdSize): Parser<FieldValue> {
    match ty
    case Object => Map(Id(idSize), v => ObjectValue(v))
    case Bool => Map(U8(), (v: byte) => BoolValue(v != 0))
    case Char => Map(U16(), v => CharValue(v))
    case Float => Map(U32(), v => FloatValue(v))
    case Double => Map(U64(), v => DoubleValue(v))
    case Byte => Map(I8(), v => ByteValue(v))
    case Short => Map(I16(), v => ShortValue(v))
    case Int => Map(I32(), v => IntValue(v))
    case Long => Map(I64(), v => LongValue(v))
  }

  function ParseConstPoolItem(idSize: IdSize): Parser<(ConstFieldInfo, FieldValue)> {
    FlatMap(Seq2(U16(), ParseFieldType()), (t: (u16, FieldType)) =>
      Map(ParseFieldValue(t.1, idSize), v => (ConstFieldInfo(t.0, t.1), v)))
  }

  function ParseStaticFieldItem(idSize: IdSize): Parser<(FieldInfo, FieldValue)> {
    FlatMap(Seq2(Id(idSize), ParseFieldType()), (t: (u64, FieldType)) =>
      Map(ParseFieldValue(t.1, idSize), v => (FieldInfo(t.0, t.1), v)))
  }

  function ParseInstanceFieldItem(idSize: IdSize): Parser<FieldInfo> {
    Map(Seq2(Id(idSize), ParseFieldType()), (t: (u64, FieldType)) => FieldInfo(t.0, t.1))
  }

  /** Class id, stack trace serial number, superclass id and class loader id; the signers,
      protection domain and reserved ids; the instance size. */
  function ParseClassDumpHead(idSize: IdSize): Parser<((u64, u32, u64, u64), (u64, u64, u64, u64), u32)> {
    Seq3(
      Seq4(Id(idSize), U32(), Id(idSize), Id(idSize)),
      Seq4(Id(idSize), Id(idSize), Id(idSize), Id(idSize)),
      U32())
  }

  /** A counted list preceded by its 16-bit length. */
  function CountedU16<T(!new)>(p: Parser<T>): Parser<seq<T>> {
    FlatMap(U16(), (n: u16) => Count(p, n))
  }

  function ParseGcClassDump(idSize: IdSize): Parser<GcRecord> {
    Map(
      Seq4(
        ParseClassDumpHead(idSize),
        CountedU16(ParseConstPoolItem(idSize)),
        CountedU16(ParseStaticFieldItem(idSize)),
        CountedU16(ParseInstanceFieldItem(idSize))),
      (t: (((u64, u32, u64, u64), (u64, u64, u64, u64), u32),
           seq<(ConstFieldInfo, FieldValue)>, seq<(FieldInfo, FieldValue)>, seq<FieldInfo>)) =>
        ClassDump(ClassDumpFields(t.0.0.0, t.0.0.1, t.0.0.2, t.0.2, t.1, t.2, t.3)))
  }

  function ParseGcInstanceDump(idSize: IdSize): Parser<GcRecord> {
    FlatMap(Seq4(Id(idSize), U32(), Id(idSize), U32()), (t: (u64, u32, u64, u32)) =>
      Map(Take(t.3), _ => InstanceDump(t.0, t.1, t.2, t.3)))
  }

  function ObjectArrayBytes(numberOfElements: u32, idSize: IdSize): nat {
    if idSize == 4 then numberOfElements as int * 4 else numberOfElements as int * 8
  }

  function ParseGcObjectArrayDump(idSize: IdSize): Parser<GcRecord> {
    FlatMap(Seq4(Id(idSize), U32(), U32(), Id(idSize)), (t: (u64, u32, u32, u64)) =>
      Map(Take(ObjectArrayBytes(t.2, idSize)), _ => ObjectArrayDump(t.0, t.1, t.2, t.3)))
  }

  function SkipArrayValue(ty: FieldType, n: u32): Parser<Bytes> {
    match ty
    case Object => Fail()
    case Bool => Take(n)
    case Char => Take(n as int * 2)
    case Float => Take(n as int * 4)
    case Double => Take(n as int * 8)
    case Byte => Take(n)
    case Short => Take(n as int * 2)
    case Int => Take(n as int * 4)
    case Long => Take(n as int * 8)
  }

  function ParseArrayValue(ty: FieldType, n: u32): Parser<ArrayValue> {
    match ty
    case Object => Fail()
    case Bool => Map(Count(U8(), n), (vs: seq<byte>) => BoolArray(seq(|vs|, k requires 0 <= k < |vs| => vs[k] != 0)))
    case Char => Map(Count(U16(), n), vs => CharArray(vs))
    case Float => Map(Count(U32(), n), vs => FloatArray(vs))
    case Double => Map(Count(U64(), n), vs => DoubleArray(vs))
    case Byte => Map(Count(I8(), n), vs => ByteArray(vs))
    case Short => Map(Count(I16(), n), vs => ShortArray(vs))
    case Int => Map(Count(I32(), n), vs => IntArray(vs))
    case Long => Map(Count(I64(), n), vs => LongArray(vs))
  }

  /** The body of an array of objects is refused: `skip_array_value` panics on that type. */
  function ParsePrimitiveArrayBody(t: (u64, u32, u32, FieldType)): Parser<GcRecord> {
    if t.3 == Object then
      Fail()
    else
      Map(SkipArrayValue(t.3, t.2), _ => PrimitiveArrayDump(t.0, t.1, t.2, t.3))
  }

  function ParseGcPrimitiveArrayDump(idSize: IdSize): Parser<GcRecord> {
    FlatMap(Seq4(Id(idSize), U32(), U32(), ParseFieldType()), (t: (u64, u32, u32, FieldType)) =>
      ParsePrimitiveArrayBody(t))
  }

  function ParseGcPrimitiveArrayNoDataDump(idSize: IdSize): Parser<GcRecord> {
    Map(Seq4(Id(idSize), U32(), U32(), ParseFieldType()), (t: (u64, u32, u32, FieldType)) =>
      PrimitiveArrayNoDataDump(t.0, t.1, t.2, t.3))
  }

  function ParseIdOnly(idSize: IdSize, root: u64 -> GcRecord): Parser<GcRecord> {
    Map(Id(idSize), root)
  }

  function OfPair(root: (u64, u32) -> GcRecord): ((u64, u32)) -> GcRecord {
    (t: (u64, u32)) => root(t.0, t.1)
  }

  function OfTriple(root: (u64, u32, u32) -> GcRecord): ((u64, u32, u32)) -> GcRecord {
    (t: (u64, u32, u32)) => root(t.0, t.1, t.2)
  }

  function ParseIdU32(idSize: IdSize, root: (u64, u32) -> GcRecord): Parser<GcRecord> {
    Map(Seq2(Id(idSize), U32()), OfPair(root))
  }

  function ParseIdU32U32(idSize: IdSize, root: (u64, u32, u32) -> GcRecord): Parser<GcRecord> {
    Map(Seq3(Id(idSize), U32(), U32()), OfTriple(root))
  }

  function ParseGcRootJniGlobal(idSize: IdSize): Parser<GcRecord> {
    Map(Seq2(Id(idSize), Id(idSize)), (t: (u64, u64)) => RootJniGlobal(t.0, t.1))
  }

  function ParseGcHeapDumpInfo(idSize: IdSize): Parser<GcRecord> {
    Map(Seq2(U32(), Id(idSize)), (t: (u32, u64)) => HeapDumpInfo(t.0, t.1))
  }

  function ParseGcBody(tag: byte, idSize: IdSize): Parser<GcRecord> {
    match tag
    case 0xFF => ParseIdOnly(idSize, (a: u64) => RootUnknown(a))
    case 0x01 => ParseGcRootJniGlobal(idSize)
    case 0x02 => ParseIdU32U32(idSize, (a: u64, b: u32, c: u32) => RootJniLocal(a, b, c))
    case 0x03 => ParseIdU32U32(idSize, (a: u64, b: u32, c: u32) => RootJavaFrame(a, b, c))
    case 0x04 => ParseIdU32(idSize, (a: u64, b: u32) => RootNativeStack(a, b))
    case 0x05 => ParseIdOnly(idSize, (a: u64) => RootStickyClass(a))
    case 0x06 => ParseIdU32(idSize, (a: u64, b: u32) => RootThreadBlock(a, b))
    case 0x07 => ParseIdOnly(idSize, (a: u64) => RootMonitorUsed(a))
    case 0x08 => ParseIdU32U32(idSize, (a: u64, b: u32, c: u32) => RootThreadObject(a, b, c))
    case 0x20 => ParseGcClassDump(idSize)
    case 0x21 => ParseGcInstanceDump(idSize)
    case 0x22 => ParseGcObjectArrayDump(idSize)
    case 0x23 => ParseGcPrimitiveArrayDump(idSize)
    case 0x89 => ParseIdOnly(idSize, (a: u64) => RootInternedString(a))
    case 0x8A => ParseIdOnly(idSize, (a: u64) => RootFinalizing(a))
    case 0x8B => ParseIdOnly(idSize, (a: u64) => RootDebugger(a))
    case 0x8C => ParseIdOnly(idSize, (a: u64) => RootReferenceCleanup(a))
    case 0x8D => ParseIdOnly(idSize, (a: u64) => RootVmInternal(a))
    case 0x8E => ParseIdU32U32(idSize, (a: u64, b: u32, c: u32) => RootJniMonitor(a, b, c))
    case 0x90 => ParseIdOnly(idSize, (a: u64) => Unreachable(a))
    case 0xC3 => ParseGcPrimitiveArrayNoDataDump(idSize)
    case 0xFE => ParseGcHeapDumpInfo(idSize)
    case _ => Fail()
  }

  function ParseGcRecord(idSize: IdSize): ConsumingParser<GcRecord> {
    Tagged((tag: byte) => ParseGcBody(tag, idSize))
  }

  // ---- top-level records ----

  function ParseHeaderRecord(): Parser<RecordHeader> {
    Map(Seq2(U32(), U32()), (t: (u32, u32)) => RecordHeader(t.0, t.1))
  }

  function SaturatingSub(a: nat, b: nat): nat {
    if a < b then 0 else a - b
  }

  function ParseUtf8String(idSize: IdSize): Parser<Record> {
    FlatMap(ParseHeaderRecord(), (header: RecordHeader) =>
      Map(Seq2(Id(idSize), Take(SaturatingSub(header.length, idSize))), (t: (u64, Bytes)) => Utf8String(t.0, t.1)))
  }

  function ParseLoadClass(idSize: IdSize): Parser<Record> {
    Preceded(ParseHeaderRecord(),
      Map(Seq4(U32(), Id(idSize), U32(), Id(idSize)), (t: (u32, u64, u32, u64)) =>
        LoadClass(LoadClassData(t.0, t.1, t.2, t.3))))
  }

  function ParseUnloadClass(): Parser<Record> {
    Preceded(ParseHeaderRecord(), Map(U32(), v => UnloadClass(v)))
  }

  function ParseStackFrame(idSize: IdSize): Parser<Record> {
    Preceded(ParseHeaderRecord(),
      Map(Seq3(Seq4(Id(idSize), Id(idSize), Id(idSize), Id(idSize)), U32(), I32()),
        (t: ((u64, u64, u64, u64), u32, i32)) =>
          StackFrame(StackFrameData(t.0.0, t.0.1, t.0.2, t.0.3, t.1, t.2))))
  }

  function StackFrameIdsLen(length: u32, idSize: IdSize): nat {
    if idSize == 4 then SaturatingSub(length, 12) / 4 else SaturatingSub(length, 12) / 8
  }

  function ParseStackTrace(idSize: IdSize): Parser<Record> {
    FlatMap(ParseHeaderRecord(), (header: RecordHeader) =>
      Map(Seq4(U32(), U32(), U32(), Count(Id(idSize), StackFrameIdsLen(header.length, idSize))),
        (t: (u32, u32, u32, seq<u64>)) => StackTrace(StackTraceData(t.0, t.1, t.2, t.3))))
  }

  function ParseStartThread(idSize: IdSize): Parser<Record> {
    Preceded(ParseHeaderRecord(),
      Map(Seq3(Seq4(U32(), Id(idSize), U32(), Id(idSize)), Id(idSize), Id(idSize)),
        (t: ((u32, u64, u32, u64), u64, u64)) => StartThread(t.0.0, t.0.1, t.0.2, t.0.3, t.1, t.2)))
  }

  function ParseHeapSummary(): Parser<Record> {
    Preceded(ParseHeaderRecord(),
      Map(Seq4(U32(), U32(), U64(), U64()), (t: (u32, u32, u64, u64)) => HeapSummary(t.0, t.1, t.2, t.3)))
  }

  function ParseEndThread(): Parser<Record> {
    Preceded(ParseHeaderRecord(), Map(U32(), v => EndThread(v)))
  }

  function ParseAllocationSite(): Parser<AllocationSite> {
    Map(Seq4(U8(), U32(), U32(), Seq4(U32(), U32(), U32(), U32())),
      (t: (byte, u32, u32, (u32, u32, u32, u32))) =>
        AllocationSite(t.0, t.1, t.2, t.3.0, t.3.1, t.3.2, t.3.3))
  }

  function ParseAllocationSites(): Parser<Record> {
    FlatMap(
      Preceded(ParseHeaderRecord(), Seq4(U16(), U32(), U32(), Seq4(U32(), U64(), U64(), U32()))),
      (t: (u16, u32, u32, (u32, u64, u64, u32))) =>
        Map(Count(ParseAllocationSite(), t.3.3), sites =>
          AllocationSites(t.0, t.1, t.2, t.3.0, t.3.1, t.3.2, t.3.3, sites)))
  }

  function ParseHeapDumpEnd(): Parser<Record> {
    Map(ParseHeaderRecord(), (header: RecordHeader) => HeapDumpEnd(header.length))
  }

  function ParseControlSettings(): Parser<Record> {
    Preceded(ParseHeaderRecord(), Map(Seq2(U32(), U16()), (t: (u32, u16)) => ControlSettings(t.0, t.1)))
  }

  function ParseCpuSample(): Parser<CpuSample> {
    Map(Seq2(U32(), U32()), (t: (u32, u32)) => CpuSample(t.0, t.1))
  }

  /** The list is read `totalNumberOfSamples` times, not `numberOfTraces` times. */
  function ParseCpuSamples(): Parser<Record> {
    FlatMap(Preceded(ParseHeaderRecord(), Seq2(U32(), U32())), (t: (u32, u32)) =>
      Map(Count(ParseCpuSample(), t.0), samples => CpuSamples(t.0, t.1, samples)))
  }

  function ParseHeapDumpStart(): Parser<Record> {
    Map(ParseHeaderRecord(), (header: RecordHeader) => HeapDumpStart(header.length))
  }

  function ParseTopBody(tag: byte, idSize: IdSize): Parser<Record> {
    match tag
    case 0x01 => ParseUtf8String(idSize)
    case 0x02 => ParseLoadClass(idSize)
    case 0x03 => ParseUnloadClass()
    case 0x04 => ParseStackFrame(idSize)
    case 0x05 => ParseStackTrace(idSize)
    case 0x06 => ParseAllocationSites()
    case 0x07 => ParseHeapSummary()
    case 0x0A => ParseStartThread(idSize)
    case 0x0B => ParseEndThread()
    case 0x0E => ParseControlSettings()
    case 0x0D => ParseCpuSamples()
    case 0x2C => ParseHeapDumpEnd()
    case 0x0C => ParseHeapDumpStart()
    case 0x1C => ParseHeapDumpStart()
    case _ => Fail()
  }

  function ParseTopRecord(idSize: IdSize): ConsumingParser<Record> {
    Tagged((tag: byte) => ParseTopBody(tag, idSize))
  }

  // ---- the two-mode machine ----

  /** `remaining.saturating_sub(gc_sub_len as u32)`: the length is truncated before it is
      subtracted. */
  function LeaveSubRecord(remaining: u32, gcSubLen: nat): u32 {
    SaturatingSub(remaining, gcSubLen % 0x1_0000_0000)
  }

  /** One call of the record parser, over any pair of parsers: `remaining` is
      `heap_dump_remaining_len`, and zero selects the top-level one. The value holds the record and
      the new remaining length. */
  function TwoModes(top: Parser<Record>, gc: Parser<GcRecord>, remaining: u32, i: Bytes): PResult<(Record, u32)> {
    if remaining == 0 then
      var (r, record) :- top(i);
      Ok(r, (record, if record.HeapDumpStart? then record.length else 0))
    else
      var (r, sub) :- gc(i);
      Ok(r, (GcSegment(sub), LeaveSubRecord(remaining, SaturatingSub(|i|, |r|))))
  }

  /** Extension lemma, in both modes: a record read from `i` is read from `i + x` with the same new
      remaining length, leaving `x` after the old rest; a shortfall of `n` counts down exactly; a
      panic stays. Each success consumes. */
  lemma TwoModesStream(
    top: ConsumingParser<Record>, gc: ConsumingParser<GcRecord>, remaining: u32, i: Bytes, x: Bytes)
    ensures StreamsOn(TwoModes(top, gc, remaining, i), TwoModes(top, gc, remaining, i + x), i, x)
    ensures TwoModes(top, gc, remaining, i).Ok? ==> |TwoModes(top, gc, remaining, i).rest| < |i|
    ensures TwoModes(top, gc, remaining, []) == Incomplete(1)
  {
    assert StreamsOn(top(i), top(i + x), i, x);
    assert StreamsOn(gc(i), gc(i + x), i, x);
  }
}
