/** The recorder: how each record changes the counters and tables. */
module Recorder {
  import opened Nom
  import opened Records
  import opened Sequences

  datatype ClassInfo = ClassInfo(superClassObjectId: u64, instanceFieldTypes: seq<FieldType>)

  datatype ArrayCounter = ArrayCounter(numberOfArrays: nat, maxSizeBytesSeen: nat, totalSizeBytes: nat) {
    function AddArray(sizeBytes: nat): ArrayCounter {
      ArrayCounter(
        numberOfArrays + 1,
        if sizeBytes > maxSizeBytesSeen then sizeBytes else maxSizeBytesSeen,
        totalSizeBytes + sizeBytes)
    }
  }

  const EMPTY_COUNTER := ArrayCounter(0, 0, 0)

  // ---- sizes ----

  const OBJECT_ALIGN: int := 8

  function NextMultipleOf(x: nat, m: int): nat
    requires m == 4 || m == 8
  {
    if m == 4 then x + (4 - x % 4) % 4 else x + (8 - x % 8) % 8
  }

  function FieldSize(ty: FieldType, idSize: IdSize): nat {
    match ty
    case Object => idSize
    case Byte => 1
    case Bool => 1
    case Char => 2
    case Short => 2
    case Float => 4
    case Int => 4
    case Double => 8
    case Long => 8
  }

  function ObjectHeaderSize(idSize: IdSize): nat {
    if idSize == 4 then 8 else 16
  }

  function ArrayHeaderSize(idSize: IdSize): nat {
    if idSize == 4 then 12 else 16
  }

  function PrimitiveArraySize(idSize: IdSize, ty: PrimitiveType, n: u32): nat {
    var w := FieldSize(ty, idSize);
    var elements: nat :=
      if w == 1 then n else if w == 2 then n as int * 2 else if w == 4 then n as int * 4 else n as int * 8;
    NextMultipleOf(ArrayHeaderSize(idSize) + elements, OBJECT_ALIGN)
  }

  function ObjectArraySize(idSize: IdSize, n: u32): nat {
    var elements: nat := if idSize == 4 then n as int * 4 else n as int * 8;
    NextMultipleOf(ArrayHeaderSize(idSize) + elements, OBJECT_ALIGN)
  }

  // ---- state ----

  /** Tag counters. */
  datatype TagCounters = TagCounters(
    classesUnloaded: nat,
    stackFrames: nat,
    stackTraces: nat,
    startThreads: nat,
    endThreads: nat,
    heapSummaries: nat,
    heapDumps: nat,
    allocationSites: nat,
    controlSettings: nat,
    cpuSamples: nat)

  /** GC tag counters. */
  datatype GcCounters = GcCounters(
    allSubRecords: nat,
    rootUnknown: nat,
    rootThreadObject: nat,
    rootJniGlobal: nat,
    rootJniLocal: nat,
    rootJavaFrame: nat,
    rootNativeStack: nat,
    rootStickyClass: nat,
    rootThreadBlock: nat,
    rootMonitorUsed: nat,
    objectArrayDumps: nat,
    instanceDumps: nat,
    primitiveArrayDumps: nat,
    classDumps: nat)

  /** Counters and captured state. */
  datatype RecorderState = RecorderState(
    tags: TagCounters,
    gcTags: GcCounters,
    utf8StringsById: map<u64, Bytes>,
    classData: seq<LoadClassData>,
    classDataById: map<u64, nat>,
    classDataBySerialNumber: map<u32, nat>,
    classes: map<u64, ClassInfo>,
    instanceCounts: map<u64, nat>,
    primitiveArrays: map<FieldType, ArrayCounter>,
    objectArrays: map<u64, ArrayCounter>,
    stackTraceBySerialNumber: map<u32, StackTraceData>,
    stackFrameById: map<u64, StackFrameData>)

  const NO_TAGS := TagCounters(0, 0, 0, 0, 0, 0, 0, 0, 0, 0)
  const NO_GC_TAGS := GcCounters(0, 0, 0, 0, 0, 0, 0, 0, 0, 0, 0, 0, 0, 0)

  function Fresh(): RecorderState {
    RecorderState(NO_TAGS, NO_GC_TAGS, map[], [], map[], map[], map[], map[], map[], map[], map[], map[])
  }

  // ---- one record ----

  /** The counter of a top-level record; strings, class loads and the end mark have none. */
  function CountTag(t: TagCounters, r: Record): TagCounters {
    match r
    case UnloadClass(_) => t.(classesUnloaded := t.classesUnloaded + 1)
    case StackFrame(_) => t.(stackFrames := t.stackFrames + 1)
    case StackTrace(_) => t.(stackTraces := t.stackTraces + 1)
    case StartThread(_, _, _, _, _, _) => t.(startThreads := t.startThreads + 1)
    case EndThread(_) => t.(endThreads := t.endThreads + 1)
    case AllocationSites(_, _, _, _, _, _, _, _) => t.(allocationSites := t.allocationSites + 1)
    case HeapSummary(_, _, _, _) => t.(heapSummaries := t.heapSummaries + 1)
    case ControlSettings(_, _) => t.(controlSettings := t.controlSettings + 1)
    case CpuSamples(_, _, _) => t.(cpuSamples := t.cpuSamples + 1)
    case HeapDumpStart(_) => t.(heapDumps := t.heapDumps + 1)
    case _ => t
  }

  /** The total and the counter of a sub-record; the Android extensions have only the total. */
  function CountSub(g: GcCounters, gc: GcRecord): GcCounters {
    var c := g.(allSubRecords := g.allSubRecords + 1);
    match gc
    case RootUnknown(_) => c.(rootUnknown := c.rootUnknown + 1)
    case RootThreadObject(_, _, _) => c.(rootThreadObject := c.rootThreadObject + 1)
    case RootJniGlobal(_, _) => c.(rootJniGlobal := c.rootJniGlobal + 1)
    case RootJniLocal(_, _, _) => c.(rootJniLocal := c.rootJniLocal + 1)
    case RootJavaFrame(_, _, _) => c.(rootJavaFrame := c.rootJavaFrame + 1)
    case RootNativeStack(_, _) => c.(rootNativeStack := c.rootNativeStack + 1)
    case RootStickyClass(_) => c.(rootStickyClass := c.rootStickyClass + 1)
    case RootThreadBlock(_, _) => c.(rootThreadBlock := c.rootThreadBlock + 1)
    case RootMonitorUsed(_) => c.(rootMonitorUsed := c.rootMonitorUsed + 1)
    case InstanceDump(_, _, _, _) => c.(instanceDumps := c.instanceDumps + 1)
    case ObjectArrayDump(_, _, _, _) => c.(objectArrayDumps := c.objectArrayDumps + 1)
    case PrimitiveArrayDump(_, _, _, _) => c.(primitiveArrayDumps := c.primitiveArrayDumps + 1)
    case PrimitiveArrayNoDataDump(_, _, _, _) => c.(primitiveArrayDumps := c.primitiveArrayDumps + 1)
    case ClassDump(_) => c.(classDumps := c.classDumps + 1)
    case _ => c
  }

  function CountArray<K>(counters: map<K, ArrayCounter>, key: K, sizeBytes: nat): map<K, ArrayCounter> {
    counters[key := (if key in counters then counters[key] else EMPTY_COUNTER).AddArray(sizeBytes)]
  }

  function CountInstance(counts: map<u64, nat>, c: u64): map<u64, nat> {
    counts[c := (if c in counts then counts[c] else 0) + 1]
  }

  function FieldTypes(fields: seq<FieldInfo>): seq<FieldType> {
    seq(|fields|, k requires 0 <= k < |fields| => fields[k].fieldType)
  }

  /** The first dump of a class wins. */
  function DefineClass(classes: map<u64, ClassInfo>, f: ClassDumpFields): map<u64, ClassInfo> {
    if f.classObjectId in classes then classes
    else classes[f.classObjectId := ClassInfo(f.superClassObjectId, FieldTypes(f.instanceFields))]
  }

  /** The table a sub-record goes to. An array without data counts with size zero. */
  function KeepGc(idSize: IdSize, s: RecorderState, gc: GcRecord): RecorderState {
    match gc
    case InstanceDump(_, _, c, _) => s.(instanceCounts := CountInstance(s.instanceCounts, c))
    case ObjectArrayDump(_, _, n, c) =>
      s.(objectArrays := CountArray(s.objectArrays, c, ObjectArraySize(idSize, n)))
    case PrimitiveArrayDump(_, _, n, ty) =>
      s.(primitiveArrays := CountArray<FieldType>(s.primitiveArrays, ty, PrimitiveArraySize(idSize, ty, n)))
    case PrimitiveArrayNoDataDump(_, _, _, ty) => s.(primitiveArrays := CountArray(s.primitiveArrays, ty, 0))
    case ClassDump(f) => s.(classes := DefineClass(s.classes, f))
    case _ => s
  }

  function RecordGc(idSize: IdSize, s: RecorderState, gc: GcRecord): RecorderState {
    KeepGc(idSize, s.(gcTags := CountSub(s.gcTags, gc)), gc)
  }

  /** The tables a top-level record goes to. */
  function KeepTop(s: RecorderState, r: Record): RecorderState {
    match r
    case Utf8String(id, str) => s.(utf8StringsById := s.utf8StringsById[id := str])
    case LoadClass(d) =>
      s.(classData := s.classData + [d],
         classDataById := s.classDataById[d.classObjectId := |s.classData|],
         classDataBySerialNumber := s.classDataBySerialNumber[d.serialNumber := |s.classData|])
    case StackFrame(f) => s.(stackFrameById := s.stackFrameById[f.stackFrameId := f])
    case StackTrace(t) => s.(stackTraceBySerialNumber := s.stackTraceBySerialNumber[t.serialNumber := t])
    case _ => s
  }

  function RecordOne(idSize: IdSize, s: RecorderState, r: Record): RecorderState {
    match r
    case GcSegment(gc) => RecordGc(idSize, s, gc)
    case _ => KeepTop(s.(tags := CountTag(s.tags, r)), r)
  }

  function RecordWith(idSize: IdSize): (RecorderState, Record) -> RecorderState {
    (s: RecorderState, r: Record) => RecordOne(idSize, s, r)
  }

  function RecordAll(idSize: IdSize, s: RecorderState, records: seq<Record>): RecorderState {
    Fold(RecordWith(idSize), s, records)
  }
}
