/** The records of a heap dump as the parser hands them over. */
module Records {
  import opened Nom

  datatype Option<+T> = None | Some(value: T) {
    function UnwrapOr(default: T): T {
      if Some? then value else default
    }
  }

  datatype FieldType = Object | Bool | Char | Float | Double | Byte | Short | Int | Long

  /** Element types an array of primitives can have. */
  type PrimitiveType = t: FieldType | t != Object witness Bool

  datatype ConstFieldInfo = ConstFieldInfo(constPoolIdx: u16, constType: FieldType)

  datatype FieldInfo = FieldInfo(nameId: u64, fieldType: FieldType)

  /** Floating-point values are kept as their bit patterns. */
  datatype FieldValue =
    | BoolValue(bool)
    | ByteValue(i8)
    | CharValue(u16)
    | ShortValue(i16)
    | IntValue(i32)
    | LongValue(i64)
    | FloatValue(u32)
    | DoubleValue(u64)
    | ObjectValue(objectId: u64)

  datatype ArrayValue =
    | BoolArray(seq<bool>)
    | ByteArray(seq<i8>)
    | CharArray(seq<u16>)
    | ShortArray(seq<i16>)
    | IntArray(seq<i32>)
    | LongArray(seq<i64>)
    | FloatArray(seq<u32>)
    | DoubleArray(seq<u64>)

  datatype ClassDumpFields = ClassDumpFields(
    classObjectId: u64,
    stackTraceSerialNumber: u32,
    superClassObjectId: u64,
    instanceSize: u32,
    constFields: seq<(ConstFieldInfo, FieldValue)>,
    staticFields: seq<(FieldInfo, FieldValue)>,
    instanceFields: seq<FieldInfo>)

  datatype GcRecord =
    | RootUnknown(objectId: u64)
    | RootThreadObject(threadObjectId: u64, threadSequenceNumber: u32, stackSequenceNumber: u32)
    | RootJniGlobal(objectId: u64, jniGlobalRefId: u64)
    | RootJniLocal(objectId: u64, threadSerialNumber: u32, frameNumberInStackTrace: u32)
    | RootJavaFrame(objectId: u64, threadSerialNumber: u32, frameNumberInStackTrace: u32)
    | RootNativeStack(objectId: u64, threadSerialNumber: u32)
    | RootStickyClass(objectId: u64)
    | RootThreadBlock(objectId: u64, threadSerialNumber: u32)
    | RootMonitorUsed(objectId: u64)
      // Android extensions
    | RootInternedString(objectId: u64)
    | RootFinalizing(objectId: u64)
    | RootDebugger(objectId: u64)
    | RootReferenceCleanup(objectId: u64)
    | RootVmInternal(objectId: u64)
    | RootJniMonitor(objectId: u64, threadSerialNumber: u32, frameNumberInStackTrace: u32)
    | Unreachable(objectId: u64)
    | HeapDumpInfo(heapType: u32, heapNameId: u64)
    | PrimitiveArrayNoDataDump(
        objectId: u64, stackTraceSerialNumber: u32, numberOfElements: u32, elementType: FieldType)
    | InstanceDump(objectId: u64, stackTraceSerialNumber: u32, classObjectId: u64, dataSize: u32)
    | ObjectArrayDump(objectId: u64, stackTraceSerialNumber: u32, numberOfElements: u32, arrayClassId: u64)
    | PrimitiveArrayDump(
        objectId: u64, stackTraceSerialNumber: u32, numberOfElements: u32, primitiveType: PrimitiveType)
    | ClassDump(fields: ClassDumpFields)

  datatype RecordHeader = RecordHeader(timestamp: u32, length: u32)

  datatype AllocationSite = AllocationSite(
    isArray: byte,
    classSerialNumber: u32,
    stackTraceSerialNumber: u32,
    bytesAlive: u32,
    instancesAlive: u32,
    bytesAllocated: u32,
    instancesAllocated: u32)

  datatype CpuSample = CpuSample(numberOfSamples: u32, stackTraceSerialNumber: u32)

  datatype StackFrameData = StackFrameData(
    stackFrameId: u64,
    methodNameId: u64,
    methodSignatureId: u64,
    sourceFileNameId: u64,
    classSerialNumber: u32,
    lineNumber: i32)

  datatype StackTraceData = StackTraceData(
    serialNumber: u32,
    threadSerialNumber: u32,
    numberOfFrames: u32,
    stackFrameIds: seq<u64>)

  datatype LoadClassData = LoadClassData(
    serialNumber: u32,
    classObjectId: u64,
    stackTraceSerialNumber: u32,
    classNameId: u64)

  datatype Record =
    | Utf8String(id: u64, str: Bytes)
    | LoadClass(classData: LoadClassData)
    | UnloadClass(serialNumber: u32)
    | StackFrame(frame: StackFrameData)
    | StackTrace(trace: StackTraceData)
    | AllocationSites(
        flags: u16,
        cutoffRatio: u32,
        totalLiveBytes: u32,
        totalLiveInstances: u32,
        totalBytesAllocated: u64,
        totalInstancesAllocated: u64,
        numberOfSites: u32,
        allocationSites: seq<AllocationSite>)
    | StartThread(
        threadSerialNumber: u32,
        threadObjectId: u64,
        stackTraceSerialNumber: u32,
        threadNameId: u64,
        threadGroupNameId: u64,
        threadGroupParentNameId: u64)
    | EndThread(threadSerialNumber: u32)
    | HeapSummary(
        totalLiveBytes: u32,
        totalLiveInstances: u32,
        totalBytesAllocated: u64,
        totalInstancesAllocated: u64)
    | HeapDumpStart(length: u32)
    | HeapDumpEnd(length: u32)
    | ControlSettings(settingFlags: u32, stackTraceDepth: u16)
    | CpuSamples(totalNumberOfSamples: u32, numberOfTraces: u32, cpuSamples: seq<CpuSample>)
    | GcSegment(gc: GcRecord)
}
