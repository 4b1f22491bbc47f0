/** What the recorder's counters and tables say about the whole stream of records recorded. */
module Accounting {
  import opened Nom
  import opened Records
  import opened Sequences
  import opened Recorder

  // ---- reference definitions, over the stream alone ----

  /** Which counter a record belongs to. */
  datatype Kind =
    | KUnload | KFrame | KTrace | KStart | KEnd | KSummary | KHeapDump | KSites | KSettings | KSamples
    | KUnknown | KThreadObject | KJniGlobal | KJniLocal | KJavaFrame | KNativeStack | KStickyClass
    | KThreadBlock | KMonitorUsed | KObjectArray | KInstance | KPrimitiveArray | KClass
    | KExtension | KUncounted

  function GcKind(gc: GcRecord): Kind {
    match gc
    case RootUnknown(_) => KUnknown
    case RootThreadObject(_, _, _) => KThreadObject
    case RootJniGlobal(_, _) => KJniGlobal
    case RootJniLocal(_, _, _) => KJniLocal
    case RootJavaFrame(_, _, _) => KJavaFrame
    case RootNativeStack(_, _) => KNativeStack
    case RootStickyClass(_) => KStickyClass
    case RootThreadBlock(_, _) => KThreadBlock
    case RootMonitorUsed(_) => KMonitorUsed
    case ObjectArrayDump(_, _, _, _) => KObjectArray
    case InstanceDump(_, _, _, _) => KInstance
    case PrimitiveArrayDump(_, _, _, _) => KPrimitiveArray
    case PrimitiveArrayNoDataDump(_, _, _, _) => KPrimitiveArray
    case ClassDump(_) => KClass
    case _ => KExtension
  }

  function KindOf(r: Record): Kind {
    match r
    case UnloadClass(_) => KUnload
    case StackFrame(_) => KFrame
    case StackTrace(_) => KTrace
    case StartThread(_, _, _, _, _, _) => KStart
    case EndThread(_) => KEnd
    case HeapSummary(_, _, _, _) => KSummary
    case HeapDumpStart(_) => KHeapDump
    case AllocationSites(_, _, _, _, _, _, _, _) => KSites
    case ControlSettings(_, _) => KSettings
    case CpuSamples(_, _, _) => KSamples
    case GcSegment(gc) => GcKind(gc)
    case _ => KUncounted
  }

  function CountKind(k: Kind, rs: seq<Record>): nat {
    if rs == [] then 0
    else CountKind(k, rs[..|rs| - 1]) + if KindOf(rs[|rs| - 1]) == k then 1 else 0
  }

  function Lookup<K, V>(m: map<K, V>, k: K): Option<V> {
    if k in m then Some(m[k]) else None
  }

  function NonZero(n: nat): Option<nat> {
    if n == 0 then None else Some(n)
  }

  /** Instances of a class in the stream. */
  function Instances(c: u64, rs: seq<Record>): nat {
    if rs == [] then 0
    else
      var r := rs[|rs| - 1];
      Instances(c, rs[..|rs| - 1]) + if r.GcSegment? && r.gc.InstanceDump? && r.gc.classObjectId == c then 1 else 0
  }

  /** Sizes of the object arrays of a class, in stream order. */
  function ObjectArraySizes(idSize: IdSize, c: u64, rs: seq<Record>): seq<nat> {
    if rs == [] then []
    else
      var r := rs[|rs| - 1];
      ObjectArraySizes(idSize, c, rs[..|rs| - 1])
      + if r.GcSegment? && r.gc.ObjectArrayDump? && r.gc.arrayClassId == c
        then [ObjectArraySize(idSize, r.gc.numberOfElements)] else []
  }

  /** Sizes of the arrays of a primitive type, in stream order; zero for those without data. */
  function PrimitiveArraySizes(idSize: IdSize, ty: FieldType, rs: seq<Record>): seq<nat> {
    if rs == [] then []
    else
      var r := rs[|rs| - 1];
      PrimitiveArraySizes(idSize, ty, rs[..|rs| - 1])
      + if r.GcSegment? && r.gc.PrimitiveArrayDump? && r.gc.primitiveType == ty
        then [PrimitiveArraySize(idSize, r.gc.primitiveType, r.gc.numberOfElements)]
        else if r.GcSegment? && r.gc.PrimitiveArrayNoDataDump? && r.gc.elementType == ty then [0]
        else []
  }

  function Sum(sizes: seq<nat>): nat {
    if sizes == [] then 0 else Sum(sizes[..|sizes| - 1]) + sizes[|sizes| - 1]
  }

  function Max(sizes: seq<nat>): nat {
    if sizes == [] then 0
    else
      var m := Max(sizes[..|sizes| - 1]);
      if sizes[|sizes| - 1] > m then sizes[|sizes| - 1] else m
  }

  /** Classes loaded, in stream order. */
  function Loads(rs: seq<Record>): seq<LoadClassData> {
    if rs == [] then []
    else
      var r := rs[|rs| - 1];
      Loads(rs[..|rs| - 1]) + if r.LoadClass? then [r.classData] else []
  }

  /** The first dump of a class. */
  function FirstDump(c: u64, rs: seq<Record>): Option<ClassDumpFields> {
    if rs == [] then None
    else
      var r, before := rs[|rs| - 1], FirstDump(c, rs[..|rs| - 1]);
      if before.Some? then before
      else if r.GcSegment? && r.gc.ClassDump? && r.gc.fields.classObjectId == c
      then Some(r.gc.fields)
      else None
  }

  /** What is kept of a class: the superclass of its dump, and the type of each of its fields. */
  predicate Describes(info: Option<ClassInfo>, dump: Option<ClassDumpFields>) {
    match dump
    case None => info.None?
    case Some(f) =>
      && info.Some?
      && info.value.superClassObjectId == f.superClassObjectId
      && |info.value.instanceFieldTypes| == |f.instanceFields|
      && forall k :: 0 <= k < |f.instanceFields| ==> info.value.instanceFieldTypes[k] == f.instanceFields[k].fieldType
  }

  /** The last string with an identifier. */
  function LastString(id: u64, rs: seq<Record>): Option<Bytes> {
    if rs == [] then None
    else
      var r := rs[|rs| - 1];
      if r.Utf8String? && r.id == id then Some(r.str) else LastString(id, rs[..|rs| - 1])
  }

  /** The last stack frame with an identifier. */
  function LastFrame(id: u64, rs: seq<Record>): Option<StackFrameData> {
    if rs == [] then None
    else
      var r := rs[|rs| - 1];
      if r.StackFrame? && r.frame.stackFrameId == id then Some(r.frame) else LastFrame(id, rs[..|rs| - 1])
  }

  /** The last stack trace with a serial number. */
  function LastTrace(serial: u32, rs: seq<Record>): Option<StackTraceData> {
    if rs == [] then None
    else
      var r := rs[|rs| - 1];
      if r.StackTrace? && r.trace.serialNumber == serial then Some(r.trace) else LastTrace(serial, rs[..|rs| - 1])
  }

  // ---- counters ----

  predicate IsTopKind(k: Kind) {
    || k.KUnload? || k.KFrame? || k.KTrace? || k.KStart? || k.KEnd? || k.KSummary? || k.KHeapDump? || k.KSites?
    || k.KSettings? || k.KSamples?
  }

  /** The kinds of sub-records that have a counter: all but the Android extensions. */
  predicate IsGcKind(k: Kind) {
    || k.KUnknown? || k.KThreadObject? || k.KJniGlobal? || k.KJniLocal? || k.KJavaFrame? || k.KNativeStack?
    || k.KStickyClass? || k.KThreadBlock? || k.KMonitorUsed? || k.KObjectArray? || k.KInstance?
    || k.KPrimitiveArray? || k.KClass?
  }

  function TopCounter(t: TagCounters, k: Kind): nat {
    match k
    case KUnload => t.classesUnloaded
    case KFrame => t.stackFrames
    case KTrace => t.stackTraces
    case KStart => t.startThreads
    case KEnd => t.endThreads
    case KSummary => t.heapSummaries
    case KHeapDump => t.heapDumps
    case KSites => t.allocationSites
    case KSettings => t.controlSettings
    case KSamples => t.cpuSamples
    case _ => 0
  }

  function GcCounter(g: GcCounters, k: Kind): nat {
    match k
    case KUnknown => g.rootUnknown
    case KThreadObject => g.rootThreadObject
    case KJniGlobal => g.rootJniGlobal
    case KJniLocal => g.rootJniLocal
    case KJavaFrame => g.rootJavaFrame
    case KNativeStack => g.rootNativeStack
    case KStickyClass => g.rootStickyClass
    case KThreadBlock => g.rootThreadBlock
    case KMonitorUsed => g.rootMonitorUsed
    case KObjectArray => g.objectArrayDumps
    case KInstance => g.instanceDumps
    case KPrimitiveArray => g.primitiveArrayDumps
    case KClass => g.classDumps
    case _ => 0
  }

  function CounterSum(g: GcCounters): nat {
    g.rootUnknown + g.rootThreadObject + g.rootJniGlobal + g.rootJniLocal + g.rootJavaFrame + g.rootNativeStack
    + g.rootStickyClass + g.rootThreadBlock + g.rootMonitorUsed + g.objectArrayDumps + g.instanceDumps
    + g.primitiveArrayDumps + g.classDumps
  }

  /** Each counter is the number of records of its kind. */
  ghost predicate TagsExact(t: TagCounters, rs: seq<Record>) {
    forall k :: IsTopKind(k) ==> TopCounter(t, k) == CountKind(k, rs)
  }

  ghost predicate GcTagsExact(g: GcCounters, rs: seq<Record>) {
    forall k :: IsGcKind(k) ==> GcCounter(g, k) == CountKind(k, rs)
  }

  /** The sub-record total is the sum of the thirteen tag counters and the uncounted Android
      extensions. */
  ghost predicate TotalExact(g: GcCounters, rs: seq<Record>) {
    g.allSubRecords == CounterSum(g) + CountKind(KExtension, rs)
  }

  lemma KindOfSub(gc: GcRecord)
    ensures IsGcKind(GcKind(gc)) || GcKind(gc) == KExtension
  {
  }

  lemma KindOfTop(r: Record)
    requires !r.GcSegment?
    ensures !IsGcKind(KindOf(r)) && KindOf(r) != KExtension
  {
  }

  lemma TagRaised(t: TagCounters, r: Record, k: Kind)
    requires IsTopKind(k)
    ensures TopCounter(CountTag(t, r), k) == TopCounter(t, k) + if KindOf(r) == k then 1 else 0
  {
    hide GcKind;
    if r.GcSegment? {
      KindOfSub(r.gc);
    }
  }

  lemma SubRaised(g: GcCounters, gc: GcRecord, k: Kind)
    requires IsGcKind(k)
    ensures GcCounter(CountSub(g, gc), k) == GcCounter(g, k) + if GcKind(gc) == k then 1 else 0
  {
    hide CountSub, GcCounter, GcKind;
    if k.KObjectArray? || k.KPrimitiveArray? {
      ArrayRaised(g, gc, k);
    } else if k.KInstance? || k.KClass? {
      ObjectRaised(g, gc, k);
    } else if k.KUnknown? || k.KThreadObject? || k.KJniGlobal? || k.KJniLocal? {
      RootRaised(g, gc, k);
    } else {
      OtherRootRaised(g, gc, k);
    }
  }

  lemma ArrayRaised(g: GcCounters, gc: GcRecord, k: Kind)
    requires k.KObjectArray? || k.KPrimitiveArray?
    ensures GcCounter(CountSub(g, gc), k) == GcCounter(g, k) + if GcKind(gc) == k then 1 else 0
  {
  }

  lemma ObjectRaised(g: GcCounters, gc: GcRecord, k: Kind)
    requires k.KInstance? || k.KClass?
    ensures GcCounter(CountSub(g, gc), k) == GcCounter(g, k) + if GcKind(gc) == k then 1 else 0
  {
  }

  lemma RootRaised(g: GcCounters, gc: GcRecord, k: Kind)
    requires k.KUnknown? || k.KThreadObject? || k.KJniGlobal? || k.KJniLocal?
    ensures GcCounter(CountSub(g, gc), k) == GcCounter(g, k) + if GcKind(gc) == k then 1 else 0
  {
  }

  lemma OtherRootRaised(g: GcCounters, gc: GcRecord, k: Kind)
    requires k.KJavaFrame? || k.KNativeStack? || k.KStickyClass? || k.KThreadBlock? || k.KMonitorUsed?
    ensures GcCounter(CountSub(g, gc), k) == GcCounter(g, k) + if GcKind(gc) == k then 1 else 0
  {
  }

  lemma TotalRaised(g: GcCounters, gc: GcRecord)
    ensures CountSub(g, gc).allSubRecords == g.allSubRecords + 1
    ensures CounterSum(CountSub(g, gc)) == CounterSum(g) + if GcKind(gc) == KExtension then 0 else 1
  {
  }

  /** Every top-level counter is the number of its records in the stream. */
  lemma {:induction false} TagsCounted(idSize: IdSize, rs: seq<Record>)
    ensures TagsExact(RecordAll(idSize, Fresh(), rs).tags, rs)
  {
    hide RecordOne, KindOf, CountTag;
    if rs != [] {
      var before, r := RecordAll(idSize, Fresh(), rs[..|rs| - 1]), rs[|rs| - 1];
      TagsCounted(idSize, rs[..|rs| - 1]);
      RecordTables(idSize, before, r);
      forall k | IsTopKind(k)
        ensures TopCounter(CountTag(before.tags, r), k) == CountKind(k, rs)
      {
        TagRaised(before.tags, r, k);
      }
    }
  }

  lemma KindOfSegment(gc: GcRecord)
    ensures KindOf(GcSegment(gc)) == GcKind(gc)
  {
  }

  lemma GcTagsStep(g: GcCounters, rs: seq<Record>)
    requires rs != [] && GcTagsExact(g, rs[..|rs| - 1]) && TotalExact(g, rs[..|rs| - 1])
    ensures var r := rs[|rs| - 1];
            var g' := if r.GcSegment? then CountSub(g, r.gc) else g;
            GcTagsExact(g', rs) && TotalExact(g', rs)
  {
    hide CountSub, GcKind, KindOf, IsGcKind, CounterSum, GcCounter;
    var r := rs[|rs| - 1];
    if r.GcSegment? {
      KindOfSegment(r.gc);
      TotalRaised(g, r.gc);
      forall k | IsGcKind(k)
        ensures GcCounter(CountSub(g, r.gc), k) == CountKind(k, rs)
      {
        SubRaised(g, r.gc, k);
      }
    } else {
      KindOfTop(r);
    }
  }

  /** Every sub-record counter is the number of its records in the stream, and they add up. */
  lemma {:induction false} GcTagsCounted(idSize: IdSize, rs: seq<Record>)
    ensures GcTagsExact(RecordAll(idSize, Fresh(), rs).gcTags, rs)
    ensures TotalExact(RecordAll(idSize, Fresh(), rs).gcTags, rs)
  {
    hide RecordOne, RecordGc, CountSub, GcTagsExact, TotalExact;
    if rs == [] {
      NothingCounted();
    } else {
      var before, r := RecordAll(idSize, Fresh(), rs[..|rs| - 1]), rs[|rs| - 1];
      GcTagsCounted(idSize, rs[..|rs| - 1]);
      GcTagsStep(before.gcTags, rs);
      RecordTables(idSize, before, r);
      if r.GcSegment? {
        DumpTables(idSize, before, r.gc);
      }
    }
  }

  lemma NothingCounted()
    ensures GcTagsExact(NO_GC_TAGS, []) && TotalExact(NO_GC_TAGS, [])
  {
  }

  // ---- tables of sub-records ----

  lemma DumpTables(idSize: IdSize, s: RecorderState, gc: GcRecord)
    ensures var u := RecordGc(idSize, s, gc);
            && u.tags == s.tags && u.gcTags == CountSub(s.gcTags, gc)
            && u.instanceCounts ==
               (if gc.InstanceDump? then CountInstance(s.instanceCounts, gc.classObjectId) else s.instanceCounts)
            && u.objectArrays ==
               (if !gc.ObjectArrayDump? then s.objectArrays
                else CountArray(s.objectArrays, gc.arrayClassId, ObjectArraySize(idSize, gc.numberOfElements)))
            && u.primitiveArrays ==
               (if gc.PrimitiveArrayDump? then
                  CountArray<FieldType>(s.primitiveArrays, gc.primitiveType,
                                        PrimitiveArraySize(idSize, gc.primitiveType, gc.numberOfElements))
                else if gc.PrimitiveArrayNoDataDump? then CountArray(s.primitiveArrays, gc.elementType, 0)
                else s.primitiveArrays)
            && u.classes == (if gc.ClassDump? then DefineClass(s.classes, gc.fields) else s.classes)
            && u.utf8StringsById == s.utf8StringsById && u.classData == s.classData
            && u.classDataById == s.classDataById && u.classDataBySerialNumber == s.classDataBySerialNumber
            && u.stackFrameById == s.stackFrameById && u.stackTraceBySerialNumber == s.stackTraceBySerialNumber
  {
    hide CountArray, ObjectArraySize, PrimitiveArraySize, CountInstance, DefineClass, CountSub;
  }

  lemma KeepTables(s: RecorderState, r: Record)
    ensures var u := KeepTop(s, r);
            && u.tags == s.tags && u.gcTags == s.gcTags
            && u.instanceCounts == s.instanceCounts && u.classes == s.classes
            && u.objectArrays == s.objectArrays && u.primitiveArrays == s.primitiveArrays
            && u.utf8StringsById == (if r.Utf8String? then s.utf8StringsById[r.id := r.str] else s.utf8StringsById)
            && (!r.LoadClass? ==>
                  && u.classData == s.classData && u.classDataById == s.classDataById
                  && u.classDataBySerialNumber == s.classDataBySerialNumber)
            && u.stackFrameById ==
               (if r.StackFrame? then s.stackFrameById[r.frame.stackFrameId := r.frame] else s.stackFrameById)
            && u.stackTraceBySerialNumber ==
               (if r.StackTrace? then s.stackTraceBySerialNumber[r.trace.serialNumber := r.trace]
                else s.stackTraceBySerialNumber)
  {
  }

  lemma SegmentsHaveNoTag(t: TagCounters, r: Record)
    requires r.GcSegment?
    ensures CountTag(t, r) == t
  {
  }

  lemma RecordTables(idSize: IdSize, s: RecorderState, r: Record)
    ensures var u := RecordOne(idSize, s, r);
            && u.tags == CountTag(s.tags, r)
            && (r.GcSegment? ==> u == RecordGc(idSize, s, r.gc))
            && (!r.GcSegment? ==>
                  && u.gcTags == s.gcTags && u.instanceCounts == s.instanceCounts && u.classes == s.classes
                  && u.objectArrays == s.objectArrays && u.primitiveArrays == s.primitiveArrays)
            && u.utf8StringsById == (if r.Utf8String? then s.utf8StringsById[r.id := r.str] else s.utf8StringsById)
            && (!r.LoadClass? ==>
                  && u.classData == s.classData && u.classDataById == s.classDataById
                  && u.classDataBySerialNumber == s.classDataBySerialNumber)
            && u.stackFrameById ==
               (if r.StackFrame? then s.stackFrameById[r.frame.stackFrameId := r.frame] else s.stackFrameById)
            && u.stackTraceBySerialNumber ==
               (if r.StackTrace? then s.stackTraceBySerialNumber[r.trace.serialNumber := r.trace]
                else s.stackTraceBySerialNumber)
  {
    hide RecordGc, KeepTop, CountTag;
    if r.GcSegment? {
      SegmentsHaveNoTag(s.tags, r);
      DumpTables(idSize, s, r.gc);
    } else {
      KeepTables(s.(tags := CountTag(s.tags, r)), r);
    }
  }

  /** Per-class instance counts are exact. */
  lemma {:induction false} InstancesCounted(idSize: IdSize, rs: seq<Record>, c: u64)
    ensures Lookup(RecordAll(idSize, Fresh(), rs).instanceCounts, c) == NonZero(Instances(c, rs))
  {
    hide RecordOne, RecordGc;
    if rs != [] {
      var before, r := RecordAll(idSize, Fresh(), rs[..|rs| - 1]), rs[|rs| - 1];
      InstancesCounted(idSize, rs[..|rs| - 1], c);
      if r.GcSegment? {
        RecordTables(idSize, before, r);
        DumpTables(idSize, before, r.gc);
      } else {
        RecordTables(idSize, before, r);
      }
    }
  }

  function SumOver<K>(keys: seq<K>, m: map<K, nat>): nat {
    if keys == [] then 0 else (if keys[0] in m then m[keys[0]] else 0) + SumOver(keys[1..], m)
  }

  lemma {:induction false} SumRaised<K(!new)>(keys: seq<K>, m: map<K, nat>, k: K, v: nat)
    requires Distinct(keys)
    ensures SumOver(keys, m[k := v]) ==
            SumOver(keys, m) + if k in keys then v - (if k in m then m[k] else 0) else 0
  {
    if keys != [] {
      SumRaised(keys[1..], m, k, v);
      assert keys == [keys[0]] + keys[1..];
    }
  }

  /** Per-class instance counts add up to the instance counter, whichever way the table is
      listed. */
  lemma {:induction false} InstancesAddUp(idSize: IdSize, rs: seq<Record>, keys: seq<u64>)
    requires Distinct(keys)
    requires forall c :: c in RecordAll(idSize, Fresh(), rs).instanceCounts ==> c in keys
    ensures SumOver(keys, RecordAll(idSize, Fresh(), rs).instanceCounts) == CountKind(KInstance, rs)
  {
    hide RecordOne, RecordGc, KindOf;
    if rs == [] {
      EmptySum(keys);
    } else {
      InstanceKind(rs[|rs| - 1]);
      var before, r := RecordAll(idSize, Fresh(), rs[..|rs| - 1]), rs[|rs| - 1];
      if r.GcSegment? {
        RecordTables(idSize, before, r);
        DumpTables(idSize, before, r.gc);
        if r.gc.InstanceDump? {
          var c, m := r.gc.classObjectId, before.instanceCounts;
          SumRaised(keys, m, c, (if c in m then m[c] else 0) + 1);
        }
      } else {
        RecordTables(idSize, before, r);
      }
      InstancesAddUp(idSize, rs[..|rs| - 1], keys);
    }
  }

  lemma InstanceKind(r: Record)
    ensures KindOf(r) == KInstance <==> r.GcSegment? && r.gc.InstanceDump?
  {
  }

  lemma {:induction false} EmptySum<K>(keys: seq<K>)
    ensures SumOver(keys, map[]) == 0
  {
    if keys != [] {
      EmptySum(keys[1..]);
    }
  }

  // ---- array counters ----

  /** What a counter should hold after arrays of these sizes. */
  function Tally(sizes: seq<nat>): ArrayCounter {
    ArrayCounter(|sizes|, Max(sizes), Sum(sizes))
  }

  /** The counter kept for a key is the number, maximum and sum of the sizes recorded for it. */
  ghost predicate Tallied<K>(m: map<K, ArrayCounter>, key: K, sizes: seq<nat>) {
    (key in m <==> sizes != []) && (key in m ==> m[key] == Tally(sizes))
  }

  lemma {:induction false} MaxIsLargest(sizes: seq<nat>)
    ensures forall size :: size in sizes ==> size <= Max(sizes)
    ensures if sizes == [] then Max(sizes) == 0 else Max(sizes) in sizes
  {
    if sizes != [] {
      var n := |sizes| - 1;
      assert sizes == sizes[..n] + [sizes[n]];
      MaxIsLargest(sizes[..n]);
    }
  }

  lemma TallyGrows<K>(m: map<K, ArrayCounter>, key: K, sizes: seq<nat>, k: K, size: nat)
    requires Tallied(m, key, sizes)
    ensures Tallied(CountArray(m, k, size), key, if k == key then sizes + [size] else sizes)
  {
    var grown := sizes + [size];
    assert grown[..|grown| - 1] == sizes && grown[|grown| - 1] == size;
    assert Tally([]) == EMPTY_COUNTER;
    assert Tally(grown) == Tally(sizes).AddArray(size);
  }

  lemma {:induction false} ObjectArraysTallied(idSize: IdSize, rs: seq<Record>, c: u64)
    ensures Tallied(RecordAll(idSize, Fresh(), rs).objectArrays, c, ObjectArraySizes(idSize, c, rs))
  {
    hide RecordOne, RecordGc, CountArray, ObjectArraySize;
    if rs != [] {
      var before, r := RecordAll(idSize, Fresh(), rs[..|rs| - 1]), rs[|rs| - 1];
      var sizes := ObjectArraySizes(idSize, c, rs[..|rs| - 1]);
      ObjectArraysTallied(idSize, rs[..|rs| - 1], c);
      assert sizes + [] == sizes;
      if r.GcSegment? {
        RecordTables(idSize, before, r);
        DumpTables(idSize, before, r.gc);
        if r.gc.ObjectArrayDump? {
          TallyGrows(before.objectArrays, c, sizes, r.gc.arrayClassId, ObjectArraySize(idSize, r.gc.numberOfElements));
        }
      } else {
        RecordTables(idSize, before, r);
      }
    }
  }

  lemma {:induction false} PrimitiveArraysTallied(idSize: IdSize, rs: seq<Record>, ty: FieldType)
    ensures Tallied(RecordAll(idSize, Fresh(), rs).primitiveArrays, ty, PrimitiveArraySizes(idSize, ty, rs))
  {
    hide RecordOne, RecordGc, CountArray, PrimitiveArraySize;
    if rs != [] {
      var before, r := RecordAll(idSize, Fresh(), rs[..|rs| - 1]), rs[|rs| - 1];
      var sizes := PrimitiveArraySizes(idSize, ty, rs[..|rs| - 1]);
      PrimitiveArraysTallied(idSize, rs[..|rs| - 1], ty);
      assert sizes + [] == sizes;
      if r.GcSegment? {
        RecordTables(idSize, before, r);
        DumpTables(idSize, before, r.gc);
        if r.gc.PrimitiveArrayDump? {
          TallyGrows<FieldType>(before.primitiveArrays, ty, sizes, r.gc.primitiveType,
                                PrimitiveArraySize(idSize, r.gc.primitiveType, r.gc.numberOfElements));
        } else if r.gc.PrimitiveArrayNoDataDump? {
          TallyGrows(before.primitiveArrays, ty, sizes, r.gc.elementType, 0);
        }
      } else {
        RecordTables(idSize, before, r);
      }
    }
  }

  // ---- classes and strings ----

  /** `index` sends every key of the list to its last position. */
  ghost predicate Latest<K(!new)>(index: map<K, nat>, keys: seq<K>) {
    && (forall i :: 0 <= i < |keys| ==> keys[i] in index)
    && (forall k :: k in index ==>
          && index[k] < |keys| && keys[index[k]] == k
          && (forall i :: index[k] < i < |keys| ==> keys[i] != k))
  }

  lemma LatestPush<K(!new)>(index: map<K, nat>, keys: seq<K>, k: K)
    requires Latest(index, keys)
    ensures Latest(index[k := |keys|], keys + [k])
  {
  }

  function LoadedIds(loads: seq<LoadClassData>): seq<u64> {
    seq(|loads|, k requires 0 <= k < |loads| => loads[k].classObjectId)
  }

  function LoadedSerials(loads: seq<LoadClassData>): seq<u32> {
    seq(|loads|, k requires 0 <= k < |loads| => loads[k].serialNumber)
  }

  /** Class loads are kept in order; each index points at the latest load of its identifier or
      serial number. */
  ghost predicate LoadsExact(s: RecorderState, loads: seq<LoadClassData>) {
    && s.classData == loads
    && Latest(s.classDataById, LoadedIds(loads))
    && Latest(s.classDataBySerialNumber, LoadedSerials(loads))
  }

  lemma {:induction false} LoadsKept(idSize: IdSize, rs: seq<Record>)
    ensures LoadsExact(RecordAll(idSize, Fresh(), rs), Loads(rs))
  {
    hide RecordGc, RecordOne, LoadedIds, LoadedSerials;
    if rs == [] {
      assert |LoadedIds([])| == 0 && |LoadedSerials([])| == 0 by { NothingLoaded(); }
    } else {
      var before, r := RecordAll(idSize, Fresh(), rs[..|rs| - 1]), rs[|rs| - 1];
      LoadsKept(idSize, rs[..|rs| - 1]);
      assert Loads(rs[..|rs| - 1]) + [] == Loads(rs[..|rs| - 1]);
      if r.GcSegment? {
        RecordTables(idSize, before, r);
        DumpTables(idSize, before, r.gc);
      } else if r.LoadClass? {
        LoadRecorded(idSize, before, r, Loads(rs[..|rs| - 1]));
      } else {
        RecordTables(idSize, before, r);
      }
    }
  }

  lemma NothingLoaded()
    ensures LoadedIds([]) == [] && LoadedSerials([]) == []
  {
  }

  lemma LoadRecorded(idSize: IdSize, s: RecorderState, r: Record, loads: seq<LoadClassData>)
    requires r.LoadClass? && LoadsExact(s, loads)
    ensures LoadsExact(RecordOne(idSize, s, r), loads + [r.classData])
  {
    hide RecordGc, Latest;
    var d := r.classData;
    LatestPush(s.classDataById, LoadedIds(loads), d.classObjectId);
    LatestPush(s.classDataBySerialNumber, LoadedSerials(loads), d.serialNumber);
    assert LoadedIds(loads + [d]) == LoadedIds(loads) + [d.classObjectId];
    assert LoadedSerials(loads + [d]) == LoadedSerials(loads) + [d.serialNumber];
  }

  /** The first dump of a class is the one that counts; the last string of an identifier is. */
  lemma {:induction false} DefinitionsKept(idSize: IdSize, rs: seq<Record>, id: u64)
    ensures var s := RecordAll(idSize, Fresh(), rs);
            Describes(Lookup(s.classes, id), FirstDump(id, rs)) && Lookup(s.utf8StringsById, id) == LastString(id, rs)
  {
    hide RecordGc, RecordOne;
    if rs != [] {
      var before, r := RecordAll(idSize, Fresh(), rs[..|rs| - 1]), rs[|rs| - 1];
      DefinitionsKept(idSize, rs[..|rs| - 1], id);
      if r.GcSegment? {
        RecordTables(idSize, before, r);
        DumpTables(idSize, before, r.gc);
      } else {
        RecordTables(idSize, before, r);
      }
    }
  }

  /** The last frame of an identifier and the last trace of a serial number are the ones kept. */
  lemma {:induction false} StacksKept(idSize: IdSize, rs: seq<Record>, id: u64, serial: u32)
    ensures var s := RecordAll(idSize, Fresh(), rs);
            && Lookup(s.stackFrameById, id) == LastFrame(id, rs)
            && Lookup(s.stackTraceBySerialNumber, serial) == LastTrace(serial, rs)
  {
    hide RecordOne;
    if rs != [] {
      StacksKept(idSize, rs[..|rs| - 1], id, serial);
      RecordTables(idSize, RecordAll(idSize, Fresh(), rs[..|rs| - 1]), rs[|rs| - 1]);
    }
  }

  // ---- the whole account ----

  /** Every counter and every table entry is what the stream says it should be. */
  ghost predicate Exact(idSize: IdSize, s: RecorderState, rs: seq<Record>) {
    && TagsExact(s.tags, rs) && GcTagsExact(s.gcTags, rs) && TotalExact(s.gcTags, rs)
    && LoadsExact(s, Loads(rs))
    && TablesExact(idSize, s, rs)
  }

  ghost predicate TablesExact(idSize: IdSize, s: RecorderState, rs: seq<Record>) {
    && (forall c: u64 :: Lookup(s.instanceCounts, c) == NonZero(Instances(c, rs)))
    && (forall c: u64 :: Tallied(s.objectArrays, c, ObjectArraySizes(idSize, c, rs)))
    && (forall ty: FieldType :: Tallied(s.primitiveArrays, ty, PrimitiveArraySizes(idSize, ty, rs)))
    && (forall c: u64 :: Describes(Lookup(s.classes, c), FirstDump(c, rs)))
    && (forall id: u64 :: Lookup(s.utf8StringsById, id) == LastString(id, rs))
    && (forall id: u64 :: Lookup(s.stackFrameById, id) == LastFrame(id, rs))
    && (forall n: u32 :: Lookup(s.stackTraceBySerialNumber, n) == LastTrace(n, rs))
  }

  lemma TablesKept(idSize: IdSize, rs: seq<Record>)
    ensures TablesExact(idSize, RecordAll(idSize, Fresh(), rs), rs)
  {
    hide RecordAll, Tallied, Lookup, NonZero, Describes;
    var s := RecordAll(idSize, Fresh(), rs);
    forall c: u64
      ensures Lookup(s.instanceCounts, c) == NonZero(Instances(c, rs))
      ensures Tallied(s.objectArrays, c, ObjectArraySizes(idSize, c, rs))
      ensures Describes(Lookup(s.classes, c), FirstDump(c, rs))
      ensures Lookup(s.utf8StringsById, c) == LastString(c, rs)
      ensures Lookup(s.stackFrameById, c) == LastFrame(c, rs)
    {
      InstancesCounted(idSize, rs, c);
      ObjectArraysTallied(idSize, rs, c);
      DefinitionsKept(idSize, rs, c);
      StacksKept(idSize, rs, c, 0);
    }
    forall ty: FieldType
      ensures Tallied(s.primitiveArrays, ty, PrimitiveArraySizes(idSize, ty, rs))
    {
      PrimitiveArraysTallied(idSize, rs, ty);
    }
    forall n: u32
      ensures Lookup(s.stackTraceBySerialNumber, n) == LastTrace(n, rs)
    {
      StacksKept(idSize, rs, 0, n);
    }
  }

  /** Recording a stream gives its account. */
  lemma RecordingExact(idSize: IdSize, rs: seq<Record>)
    ensures Exact(idSize, RecordAll(idSize, Fresh(), rs), rs)
  {
    hide RecordAll, TagsExact, GcTagsExact, TotalExact, LoadsExact, TablesExact;
    TagsCounted(idSize, rs);
    GcTagsCounted(idSize, rs);
    LoadsKept(idSize, rs);
    TablesKept(idSize, rs);
  }

  lemma SameTable<K(!new), V>(m: map<K, V>, m': map<K, V>)
    requires forall k :: Lookup(m, k) == Lookup(m', k)
    ensures m == m'
  {
    forall k
      ensures k in m <==> k in m'
      ensures k in m ==> m[k] == m'[k]
    {
      assert Lookup(m, k) == Lookup(m', k);
    }
  }

  lemma SameTags(t: TagCounters, t': TagCounters, rs: seq<Record>)
    requires TagsExact(t, rs) && TagsExact(t', rs)
    ensures t == t'
  {
    hide CountKind;
    assert forall k :: IsTopKind(k) ==> TopCounter(t, k) == TopCounter(t', k);
    assert TopCounter(t, KUnload) == TopCounter(t', KUnload) && TopCounter(t, KFrame) == TopCounter(t', KFrame);
    assert TopCounter(t, KTrace) == TopCounter(t', KTrace) && TopCounter(t, KStart) == TopCounter(t', KStart);
    assert TopCounter(t, KEnd) == TopCounter(t', KEnd) && TopCounter(t, KSummary) == TopCounter(t', KSummary);
    assert TopCounter(t, KHeapDump) == TopCounter(t', KHeapDump) && TopCounter(t, KSites) == TopCounter(t', KSites);
    assert TopCounter(t, KSettings) == TopCounter(t', KSettings);
    assert TopCounter(t, KSamples) == TopCounter(t', KSamples);
  }

  lemma SameRoots(g: GcCounters, g': GcCounters)
    requires forall k :: IsGcKind(k) ==> GcCounter(g, k) == GcCounter(g', k)
    ensures g.rootUnknown == g'.rootUnknown && g.rootThreadObject == g'.rootThreadObject
    ensures g.rootJniGlobal == g'.rootJniGlobal && g.rootJniLocal == g'.rootJniLocal
    ensures g.rootJavaFrame == g'.rootJavaFrame && g.rootNativeStack == g'.rootNativeStack
  {
    assert GcCounter(g, KUnknown) == GcCounter(g', KUnknown);
    assert GcCounter(g, KThreadObject) == GcCounter(g', KThreadObject);
    assert GcCounter(g, KJniGlobal) == GcCounter(g', KJniGlobal);
    assert GcCounter(g, KJniLocal) == GcCounter(g', KJniLocal);
    assert GcCounter(g, KJavaFrame) == GcCounter(g', KJavaFrame);
    assert GcCounter(g, KNativeStack) == GcCounter(g', KNativeStack);
  }

  lemma SameHolders(g: GcCounters, g': GcCounters)
    requires forall k :: IsGcKind(k) ==> GcCounter(g, k) == GcCounter(g', k)
    ensures g.rootStickyClass == g'.rootStickyClass && g.rootThreadBlock == g'.rootThreadBlock
    ensures g.rootMonitorUsed == g'.rootMonitorUsed
  {
    assert GcCounter(g, KStickyClass) == GcCounter(g', KStickyClass);
    assert GcCounter(g, KThreadBlock) == GcCounter(g', KThreadBlock);
    assert GcCounter(g, KMonitorUsed) == GcCounter(g', KMonitorUsed);
  }

  lemma SameDumps(g: GcCounters, g': GcCounters)
    requires forall k :: IsGcKind(k) ==> GcCounter(g, k) == GcCounter(g', k)
    ensures g.objectArrayDumps == g'.objectArrayDumps && g.instanceDumps == g'.instanceDumps
    ensures g.primitiveArrayDumps == g'.primitiveArrayDumps && g.classDumps == g'.classDumps
  {
    assert GcCounter(g, KObjectArray) == GcCounter(g', KObjectArray);
    assert GcCounter(g, KInstance) == GcCounter(g', KInstance);
    assert GcCounter(g, KPrimitiveArray) == GcCounter(g', KPrimitiveArray);
    assert GcCounter(g, KClass) == GcCounter(g', KClass);
  }

  lemma SameGcTags(g: GcCounters, g': GcCounters, rs: seq<Record>)
    requires GcTagsExact(g, rs) && GcTagsExact(g', rs) && TotalExact(g, rs) && TotalExact(g', rs)
    ensures g == g'
  {
    hide CountKind, GcCounter, IsGcKind;
    SameRoots(g, g');
    SameHolders(g, g');
    SameDumps(g, g');
  }

  lemma SameIndex<K(!new)>(index: map<K, nat>, index': map<K, nat>, keys: seq<K>)
    requires Latest(index, keys) && Latest(index', keys)
    ensures index == index'
  {
    SameKeys(index, index', keys);
    SameKeys(index', index, keys);
  }

  lemma SameKeys<K(!new)>(index: map<K, nat>, index': map<K, nat>, keys: seq<K>)
    requires Latest(index, keys) && Latest(index', keys)
    ensures forall k :: k in index ==> k in index' && index[k] == index'[k]
  {
    forall k | k in index
      ensures k in index' && index[k] == index'[k]
    {
      assert keys[index[k]] in index';
    }
  }

  lemma SameTally<K(!new)>(m: map<K, ArrayCounter>, m': map<K, ArrayCounter>, key: K, sizes: seq<nat>)
    requires Tallied(m, key, sizes) && Tallied(m', key, sizes)
    ensures Lookup(m, key) == Lookup(m', key)
  {
  }

  lemma SameDescription(a: Option<ClassInfo>, b: Option<ClassInfo>, dump: Option<ClassDumpFields>)
    requires Describes(a, dump) && Describes(b, dump)
    ensures a == b
  {
    if dump.Some? {
      assert a.value.instanceFieldTypes == b.value.instanceFieldTypes;
    }
  }

  /** The account leaves nothing open: it holds of one state only. */
  lemma ExactDetermines(idSize: IdSize, s: RecorderState, s': RecorderState, rs: seq<Record>)
    requires Exact(idSize, s, rs) && Exact(idSize, s', rs)
    ensures s == s'
  {
    hide Latest, TagsExact, GcTagsExact, TotalExact, Tallied, Loads, LoadedIds, LoadedSerials, Lookup, NonZero,
      Describes;
    SameTags(s.tags, s'.tags, rs);
    SameGcTags(s.gcTags, s'.gcTags, rs);
    SameIndex(s.classDataById, s'.classDataById, LoadedIds(Loads(rs)));
    SameIndex(s.classDataBySerialNumber, s'.classDataBySerialNumber, LoadedSerials(Loads(rs)));
    SameTable(s.instanceCounts, s'.instanceCounts);
    forall c: u64
      ensures Lookup(s.objectArrays, c) == Lookup(s'.objectArrays, c)
    {
      SameTally(s.objectArrays, s'.objectArrays, c, ObjectArraySizes(idSize, c, rs));
    }
    SameTable(s.objectArrays, s'.objectArrays);
    forall ty: FieldType
      ensures Lookup(s.primitiveArrays, ty) == Lookup(s'.primitiveArrays, ty)
    {
      SameTally(s.primitiveArrays, s'.primitiveArrays, ty, PrimitiveArraySizes(idSize, ty, rs));
    }
    SameTable(s.primitiveArrays, s'.primitiveArrays);
    forall c: u64
      ensures Lookup(s.classes, c) == Lookup(s'.classes, c)
    {
      SameDescription(Lookup(s.classes, c), Lookup(s'.classes, c), FirstDump(c, rs));
    }
    SameTable(s.classes, s'.classes);
    SameTable(s.utf8StringsById, s'.utf8StringsById);
    SameTable(s.stackFrameById, s'.stackFrameById);
    SameTable(s.stackTraceBySerialNumber, s'.stackTraceBySerialNumber);
  }

  /** So an exact account stays exact when a record is recorded. */
  lemma ExactNext(idSize: IdSize, s: RecorderState, rs: seq<Record>, r: Record)
    requires Exact(idSize, s, rs)
    ensures Exact(idSize, RecordOne(idSize, s, r), rs + [r])
  {
    hide Exact, RecordOne;
    RecordingExact(idSize, rs);
    ExactDetermines(idSize, s, RecordAll(idSize, Fresh(), rs), rs);
    RecordingExact(idSize, rs + [r]);
    assert (rs + [r])[..|rs|] == rs;
  }
}
