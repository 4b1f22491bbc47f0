/** The HPROF binary layout, written as a writer would: what the bytes of a dump are, including
    the parts the parser skips. */
module Encoding {
  import opened Nom
  import opened Records

  // ---- numbers ----

  function E8(v: byte): Bytes {
    [v]
  }

  function E16(v: u16): Bytes {
    [v / 0x100, v % 0x100]
  }

  function E32(v: u32): Bytes {
    [v / 0x100_0000, v / 0x1_0000 % 0x100, v / 0x100 % 0x100, v % 0x100]
  }

  function E64(v: u64): Bytes {
    E32(v / 0x1_0000_0000) + E32(v % 0x1_0000_0000)
  }

  predicate FitsId(v: u64, idSize: IdSize) {
    idSize == 4 ==> v < 0x1_0000_0000
  }

  function EId(v: u64, idSize: IdSize): Bytes {
    if idSize == 4 then E32(v % 0x1_0000_0000) else E64(v)
  }

  function IdEncoder(idSize: IdSize): u64 -> Bytes {
    v => EId(v, idSize)
  }

  /** Two's complement. */
  function Unsigned(v: int, modulus: nat): int {
    if v < 0 then v + modulus else v
  }

  function Cat3(a: Bytes, b: Bytes, c: Bytes): Bytes {
    a + (b + c)
  }

  function Cat4(a: Bytes, b: Bytes, c: Bytes, d: Bytes): Bytes {
    a + Cat3(b, c, d)
  }

  function EAll<T>(encode: T -> Bytes, items: seq<T>): Bytes {
    if items == [] then [] else encode(items[0]) + EAll(encode, items[1..])
  }

  // ---- class dumps ----

  function EFieldType(ty: FieldType): Bytes {
    match ty
    case Object => [2]
    case Bool => [4]
    case Char => [5]
    case Float => [6]
    case Double => [7]
    case Byte => [8]
    case Short => [9]
    case Int => [10]
    case Long => [11]
  }

  predicate ValueFits(ty: FieldType, v: FieldValue, idSize: IdSize) {
    match v
    case BoolValue(_) => ty == Bool
    case ByteValue(_) => ty == Byte
    case CharValue(_) => ty == Char
    case ShortValue(_) => ty == Short
    case IntValue(_) => ty == Int
    case LongValue(_) => ty == Long
    case FloatValue(_) => ty == Float
    case DoubleValue(_) => ty == Double
    case ObjectValue(id) => ty == Object && FitsId(id, idSize)
  }

  function EValue(v: FieldValue, idSize: IdSize): Bytes {
    match v
    case BoolValue(b) => E8(if b then 1 else 0)
    case ByteValue(n) => E8(Unsigned(n, 0x100))
    case CharValue(n) => E16(n)
    case ShortValue(n) => E16(Unsigned(n, 0x1_0000))
    case IntValue(n) => E32(Unsigned(n, 0x1_0000_0000))
    case LongValue(n) => E64(Unsigned(n, 0x1_0000_0000_0000_0000))
    case FloatValue(n) => E32(n)
    case DoubleValue(n) => E64(n)
    case ObjectValue(id) => EId(id, idSize)
  }

  function ConstEncoder(idSize: IdSize): ((ConstFieldInfo, FieldValue)) -> Bytes {
    (c: (ConstFieldInfo, FieldValue)) => (E16(c.0.constPoolIdx) + EFieldType(c.0.constType)) + EValue(c.1, idSize)
  }

  function StaticEncoder(idSize: IdSize): ((FieldInfo, FieldValue)) -> Bytes {
    (c: (FieldInfo, FieldValue)) => (EId(c.0.nameId, idSize) + EFieldType(c.0.fieldType)) + EValue(c.1, idSize)
  }

  function FieldEncoder(idSize: IdSize): FieldInfo -> Bytes {
    (f: FieldInfo) => EId(f.nameId, idSize) + EFieldType(f.fieldType)
  }

  /** A list preceded by its 16-bit length. */
  function ECounted<T>(encode: T -> Bytes, items: seq<T>): Bytes {
    E16(|items| % 0x1_0000) + EAll(encode, items)
  }

  function EClassDump(c: ClassDumpFields, hidden: (u64, u64, u64, u64, u64), idSize: IdSize): Bytes {
    Cat4(
      Cat3(
        Cat4(EId(c.classObjectId, idSize), E32(c.stackTraceSerialNumber), EId(c.superClassObjectId, idSize),
             EId(hidden.0, idSize)),
        Cat4(EId(hidden.1, idSize), EId(hidden.2, idSize), EId(hidden.3, idSize), EId(hidden.4, idSize)),
        E32(c.instanceSize)),
      ECounted(ConstEncoder(idSize), c.constFields),
      ECounted(StaticEncoder(idSize), c.staticFields),
      ECounted(FieldEncoder(idSize), c.instanceFields))
  }

  predicate ClassDumpFits(c: ClassDumpFields, hidden: (u64, u64, u64, u64, u64), idSize: IdSize) {
    && FitsId(c.classObjectId, idSize) && FitsId(c.superClassObjectId, idSize)
    && FitsId(hidden.0, idSize) && FitsId(hidden.1, idSize) && FitsId(hidden.2, idSize)
    && FitsId(hidden.3, idSize) && FitsId(hidden.4, idSize)
    && |c.constFields| < 0x1_0000 && |c.staticFields| < 0x1_0000 && |c.instanceFields| < 0x1_0000
    && (forall k :: 0 <= k < |c.constFields| ==> ValueFits(c.constFields[k].0.constType, c.constFields[k].1, idSize))
    && (forall k :: 0 <= k < |c.staticFields| ==>
          && FitsId(c.staticFields[k].0.nameId, idSize)
          && ValueFits(c.staticFields[k].0.fieldType, c.staticFields[k].1, idSize))
    && (forall k :: 0 <= k < |c.instanceFields| ==> FitsId(c.instanceFields[k].nameId, idSize))
  }

  // ---- GC sub-records ----

  /** A sub-record as written: a class dump with the five identifiers the parser drops (class
      loader, signers, protection domain and two reserved ones), an instance or array with its
      contents, or a record the parser keeps in full. */
  datatype WireGc =
    | WireClass(fields: ClassDumpFields, hidden: (u64, u64, u64, u64, u64))
    | WireDump(gc: GcRecord, contents: Bytes)
    | WireRoot(root: GcRecord)

  function Erase(w: WireGc): GcRecord {
    match w
    case WireClass(c, _) => ClassDump(c)
    case WireDump(gc, _) => gc
    case WireRoot(root) => root
  }

  function GcTag(gc: GcRecord): byte {
    match gc
    case RootUnknown(_) => 0xFF
    case RootJniGlobal(_, _) => 0x01
    case RootJniLocal(_, _, _) => 0x02
    case RootJavaFrame(_, _, _) => 0x03
    case RootNativeStack(_, _) => 0x04
    case RootStickyClass(_) => 0x05
    case RootThreadBlock(_, _) => 0x06
    case RootMonitorUsed(_) => 0x07
    case RootThreadObject(_, _, _) => 0x08
    case ClassDump(_) => 0x20
    case InstanceDump(_, _, _, _) => 0x21
    case ObjectArrayDump(_, _, _, _) => 0x22
    case PrimitiveArrayDump(_, _, _, _) => 0x23
    case RootInternedString(_) => 0x89
    case RootFinalizing(_) => 0x8A
    case RootDebugger(_) => 0x8B
    case RootReferenceCleanup(_) => 0x8C
    case RootVmInternal(_) => 0x8D
    case RootJniMonitor(_, _, _) => 0x8E
    case Unreachable(_) => 0x90
    case PrimitiveArrayNoDataDump(_, _, _, _) => 0xC3
    case HeapDumpInfo(_, _) => 0xFE
  }

  function ElementWidth(ty: PrimitiveType): nat {
    match ty
    case Bool => 1
    case Byte => 1
    case Char => 2
    case Short => 2
    case Float => 4
    case Int => 4
    case Double => 8
    case Long => 8
  }

  /** The three dumps that are followed by contents. */
  predicate HasContents(gc: GcRecord) {
    gc.InstanceDump? || gc.ObjectArrayDump? || gc.PrimitiveArrayDump?
  }

  function ContentsLen(gc: GcRecord, idSize: IdSize): nat
    requires HasContents(gc)
  {
    match gc
    case InstanceDump(_, _, _, dataSize) => dataSize
    case ObjectArrayDump(_, _, n, _) => if idSize == 4 then n as int * 4 else n as int * 8
    case PrimitiveArrayDump(_, _, n, ty) =>
      var w := ElementWidth(ty);
      if w == 1 then n else if w == 2 then n as int * 2 else if w == 4 then n as int * 4 else n as int * 8
  }

  function EDumpHead(gc: GcRecord, idSize: IdSize): Bytes
    requires HasContents(gc)
  {
    match gc
    case InstanceDump(o, s, c, n) => Cat4(EId(o, idSize), E32(s), EId(c, idSize), E32(n))
    case ObjectArrayDump(o, s, n, c) => Cat4(EId(o, idSize), E32(s), E32(n), EId(c, idSize))
    case PrimitiveArrayDump(o, s, n, ty) => Cat4(EId(o, idSize), E32(s), E32(n), EFieldType(ty))
  }

  predicate IsRoot(gc: GcRecord) {
    !HasContents(gc) && !gc.ClassDump?
  }

  function ERoot(gc: GcRecord, idSize: IdSize): Bytes
    requires IsRoot(gc)
  {
    match gc
    case RootUnknown(o) => EId(o, idSize)
    case RootJniGlobal(o, j) => EId(o, idSize) + EId(j, idSize)
    case RootJniLocal(o, t, f) => Cat3(EId(o, idSize), E32(t), E32(f))
    case RootJavaFrame(o, t, f) => Cat3(EId(o, idSize), E32(t), E32(f))
    case RootNativeStack(o, t) => EId(o, idSize) + E32(t)
    case RootStickyClass(o) => EId(o, idSize)
    case RootThreadBlock(o, t) => EId(o, idSize) + E32(t)
    case RootMonitorUsed(o) => EId(o, idSize)
    case RootThreadObject(o, t, f) => Cat3(EId(o, idSize), E32(t), E32(f))
    case RootInternedString(o) => EId(o, idSize)
    case RootFinalizing(o) => EId(o, idSize)
    case RootDebugger(o) => EId(o, idSize)
    case RootReferenceCleanup(o) => EId(o, idSize)
    case RootVmInternal(o) => EId(o, idSize)
    case RootJniMonitor(o, t, f) => Cat3(EId(o, idSize), E32(t), E32(f))
    case Unreachable(o) => EId(o, idSize)
    case PrimitiveArrayNoDataDump(o, s, n, ty) => Cat4(EId(o, idSize), E32(s), E32(n), EFieldType(ty))
    case HeapDumpInfo(t, h) => E32(t) + EId(h, idSize)
  }

  predicate IdsFit(gc: GcRecord, idSize: IdSize) {
    match gc
    case RootThreadObject(o, _, _) => FitsId(o, idSize)
    case RootJniGlobal(o, j) => FitsId(o, idSize) && FitsId(j, idSize)
    case HeapDumpInfo(_, h) => FitsId(h, idSize)
    case InstanceDump(o, _, c, _) => FitsId(o, idSize) && FitsId(c, idSize)
    case ObjectArrayDump(o, _, _, c) => FitsId(o, idSize) && FitsId(c, idSize)
    case ClassDump(_) => true
    case _ => FitsId(gc.objectId, idSize)
  }

  predicate GcFits(w: WireGc, idSize: IdSize) {
    match w
    case WireClass(c, hidden) => ClassDumpFits(c, hidden, idSize)
    case WireDump(gc, contents) => HasContents(gc) && IdsFit(gc, idSize) && |contents| == ContentsLen(gc, idSize)
    case WireRoot(root) => IsRoot(root) && IdsFit(root, idSize)
  }

  function EGcBody(w: WireGc, idSize: IdSize): Bytes
    requires GcFits(w, idSize)
  {
    match w
    case WireClass(c, hidden) => EClassDump(c, hidden, idSize)
    case WireDump(gc, contents) => EDumpHead(gc, idSize) + contents
    case WireRoot(root) => ERoot(root, idSize)
  }

  function EGc(w: WireGc, idSize: IdSize): Bytes
    requires GcFits(w, idSize)
  {
    [GcTag(Erase(w))] + EGcBody(w, idSize)
  }

  function EGcs(ws: seq<WireGc>, idSize: IdSize): Bytes
    requires forall k :: 0 <= k < |ws| ==> GcFits(ws[k], idSize)
  {
    if ws == [] then [] else EGc(ws[0], idSize) + EGcs(ws[1..], idSize)
  }

  // ---- top-level records ----

  function SiteEncoder(): AllocationSite -> Bytes {
    (s: AllocationSite) =>
      Cat4(E8(s.isArray), E32(s.classSerialNumber), E32(s.stackTraceSerialNumber),
           Cat4(E32(s.bytesAlive), E32(s.instancesAlive), E32(s.bytesAllocated), E32(s.instancesAllocated)))
  }

  function SampleEncoder(): CpuSample -> Bytes {
    (s: CpuSample) => E32(s.numberOfSamples) + E32(s.stackTraceSerialNumber)
  }

  /** Records that stand alone: all but the segments, whose content are sub-records. */
  predicate StandsAlone(r: Record) {
    !r.HeapDumpStart? && !r.GcSegment?
  }

  function TopTag(r: Record): byte
    requires StandsAlone(r)
  {
    match r
    case Utf8String(_, _) => 0x01
    case LoadClass(_) => 0x02
    case UnloadClass(_) => 0x03
    case StackFrame(_) => 0x04
    case StackTrace(_) => 0x05
    case AllocationSites(_, _, _, _, _, _, _, _) => 0x06
    case HeapSummary(_, _, _, _) => 0x07
    case StartThread(_, _, _, _, _, _) => 0x0A
    case EndThread(_) => 0x0B
    case ControlSettings(_, _) => 0x0E
    case CpuSamples(_, _, _) => 0x0D
    case HeapDumpEnd(_) => 0x2C
  }

  function ETopBody(r: Record, idSize: IdSize): Bytes
    requires StandsAlone(r)
  {
    match r
    case Utf8String(id, str) => EId(id, idSize) + str
    case LoadClass(d) =>
      Cat4(E32(d.serialNumber), EId(d.classObjectId, idSize), E32(d.stackTraceSerialNumber), EId(d.classNameId, idSize))
    case UnloadClass(n) => E32(n)
    case StackFrame(f) =>
      Cat3(
        Cat4(EId(f.stackFrameId, idSize), EId(f.methodNameId, idSize), EId(f.methodSignatureId, idSize),
             EId(f.sourceFileNameId, idSize)),
        E32(f.classSerialNumber),
        E32(Unsigned(f.lineNumber, 0x1_0000_0000)))
    case StackTrace(t) =>
      Cat4(E32(t.serialNumber), E32(t.threadSerialNumber), E32(t.numberOfFrames),
           EAll(IdEncoder(idSize), t.stackFrameIds))
    case AllocationSites(flags, ratio, live, liveInstances, bytes, instances, n, sites) =>
      Cat4(E16(flags), E32(ratio), E32(live), Cat4(E32(liveInstances), E64(bytes), E64(instances), E32(n)))
      + EAll(SiteEncoder(), sites)
    case HeapSummary(live, liveInstances, bytes, instances) =>
      Cat4(E32(live), E32(liveInstances), E64(bytes), E64(instances))
    case StartThread(serial, thread, trace, name, group, parent) =>
      Cat3(Cat4(E32(serial), EId(thread, idSize), E32(trace), EId(name, idSize)),
           EId(group, idSize), EId(parent, idSize))
    case EndThread(n) => E32(n)
    case ControlSettings(flags, depth) => E32(flags) + E16(depth)
    case CpuSamples(total, traces, samples) => (E32(total) + E32(traces)) + EAll(SampleEncoder(), samples)
    case HeapDumpEnd(_) => []
  }

  /** What the format asks of a record: identifiers fit, counts tell the length of their list, and
      the body length fits its 32-bit field. */
  predicate RecordFits(r: Record, idSize: IdSize) {
    && StandsAlone(r)
    && |ETopBody(r, idSize)| < 0x1_0000_0000
    && match r
       case Utf8String(id, _) => FitsId(id, idSize)
       case LoadClass(d) => FitsId(d.classObjectId, idSize) && FitsId(d.classNameId, idSize)
       case StackFrame(f) =>
         && FitsId(f.stackFrameId, idSize) && FitsId(f.methodNameId, idSize)
         && FitsId(f.methodSignatureId, idSize) && FitsId(f.sourceFileNameId, idSize)
       case StackTrace(t) =>
         && t.numberOfFrames == |t.stackFrameIds|
         && (forall k :: 0 <= k < |t.stackFrameIds| ==> FitsId(t.stackFrameIds[k], idSize))
       case AllocationSites(_, _, _, _, _, _, n, sites) => n == |sites|
       case StartThread(_, thread, _, name, group, parent) =>
         FitsId(thread, idSize) && FitsId(name, idSize) && FitsId(group, idSize) && FitsId(parent, idSize)
       case CpuSamples(_, traces, samples) => traces == |samples|
       case HeapDumpEnd(length) => length == 0
       case _ => true
  }

  /** A record as written: its timestamp and itself, or a heap dump segment. Segments come with
      either of two tags. */
  datatype WireRecord =
    | WireTop(timestamp: u32, record: Record)
    | WireSegment(segmentTag: bool, timestamp: u32, subs: seq<WireGc>)

  predicate WireFits(w: WireRecord, idSize: IdSize) {
    match w
    case WireTop(_, r) => RecordFits(r, idSize)
    case WireSegment(_, _, subs) =>
      (forall k :: 0 <= k < |subs| ==> GcFits(subs[k], idSize)) && |EGcs(subs, idSize)| < 0x1_0000_0000
  }

  function EHeader(timestamp: u32, length: u32): Bytes {
    E32(timestamp) + E32(length)
  }

  function EWire(w: WireRecord, idSize: IdSize): Bytes
    requires WireFits(w, idSize)
  {
    match w
    case WireTop(timestamp, r) =>
      var body := ETopBody(r, idSize);
      [TopTag(r)] + (EHeader(timestamp, |body|) + body)
    case WireSegment(segmentTag, timestamp, subs) =>
      var body := EGcs(subs, idSize);
      ([if segmentTag then 0x1C else 0x0C] + EHeader(timestamp, |body|)) + body
  }

  function EDump(ws: seq<WireRecord>, idSize: IdSize): Bytes
    requires forall k :: 0 <= k < |ws| ==> WireFits(ws[k], idSize)
  {
    if ws == [] then [] else EWire(ws[0], idSize) + EDump(ws[1..], idSize)
  }

  /** The records a reader should get from a written record. */
  function Expected(w: WireRecord, idSize: IdSize): seq<Record>
    requires WireFits(w, idSize)
  {
    match w
    case WireTop(_, r) => [r]
    case WireSegment(_, _, subs) => [HeapDumpStart(|EGcs(subs, idSize)|)] + ExpectedSubs(subs)
  }

  function ExpectedSubs(subs: seq<WireGc>): seq<Record> {
    seq(|subs|, k requires 0 <= k < |subs| => GcSegment(Erase(subs[k])))
  }

  function ExpectedAll(ws: seq<WireRecord>, idSize: IdSize): seq<Record>
    requires forall k :: 0 <= k < |ws| ==> WireFits(ws[k], idSize)
  {
    if ws == [] then [] else Expected(ws[0], idSize) + ExpectedAll(ws[1..], idSize)
  }
}
