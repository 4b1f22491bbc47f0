/** The object of the recording thread. */
module ResultRecorders {
  import opened Nom
  import opened Records
  import opened Recorder
  import opened Accounting

  /** Counters and tables, updated in place. `seen` is everything recorded so far: the object is
      valid as long as each counter and each table says of `seen` what it should. */
  class ResultRecorder {
    const idSize: IdSize
    var tags: TagCounters
    var gcTags: GcCounters
    var utf8StringsById: map<u64, Bytes>
    var classData: seq<LoadClassData>
    var classDataById: map<u64, nat>
    var classDataBySerialNumber: map<u32, nat>
    var classes: map<u64, ClassInfo>
    var instanceCounts: map<u64, nat>
    var primitiveArrays: map<FieldType, ArrayCounter>
    var objectArrays: map<u64, ArrayCounter>
    var stackTraceBySerialNumber: map<u32, StackTraceData>
    var stackFrameById: map<u64, StackFrameData>
    ghost var seen: seq<Record>

    ghost function State(): RecorderState
      reads this
    {
      RecorderState(
        tags, gcTags, utf8StringsById, classData, classDataById, classDataBySerialNumber, classes,
        instanceCounts, primitiveArrays, objectArrays, stackTraceBySerialNumber, stackFrameById)
    }

    ghost predicate Valid()
      reads this
    {
      Exact(idSize, State(), seen)
    }

    constructor (idSize: IdSize)
      ensures Valid() && this.idSize == idSize && seen == []
    {
      this.idSize := idSize;
      tags, gcTags := NO_TAGS, NO_GC_TAGS;
      utf8StringsById, classData, classDataById, classDataBySerialNumber := map[], [], map[], map[];
      classes, instanceCounts, primitiveArrays, objectArrays := map[], map[], map[], map[];
      stackTraceBySerialNumber, stackFrameById := map[], map[];
      seen := [];
      new;
      hide Exact;
      RecordingExact(idSize, []);
    }

    /** A batch extends the account by its records. */
    method RecordRecords(records: seq<Record>)
      requires Valid()
      modifies this
      ensures Valid() && seen == old(seen) + records
    {
      hide Exact;
      for k := 0 to |records|
        invariant Valid() && seen == old(seen) + records[..k]
      {
        assert records[..k + 1] == records[..k] + [records[k]];
        RecordRecord(records[k]);
      }
      assert records[..|records|] == records;
    }

    method RecordRecord(record: Record)
      requires Valid()
      modifies this
      ensures Valid() && seen == old(seen) + [record]
    {
      hide Exact, RecordOne;
      ghost var before := State();
      Update(record);
      ExactNext(idSize, before, seen, record);
      seen := seen + [record];
    }

    /** The fields after one record. */
    method Update(record: Record)
      modifies this
      ensures State() == RecordOne(idSize, old(State()), record) && seen == old(seen)
    {
      hide CountTag, CountSub, KeepTop, KeepGc;
      match record {
        case GcSegment(gc) =>
          gcTags := CountSub(gcTags, gc);
          StoreGc(gc);
        case _ =>
          tags := CountTag(tags, record);
          StoreTop(record);
      }
    }

    method StoreTop(record: Record)
      modifies this
      ensures State() == KeepTop(old(State()), record) && seen == old(seen)
    {
      hide KeepTop;
      if record.LoadClass? {
        StoreLoad(record.classData);
      } else {
        StoreOther(record);
      }
    }

    method StoreLoad(d: LoadClassData)
      modifies this`classData, this`classDataById, this`classDataBySerialNumber
      ensures State() == KeepTop(old(State()), LoadClass(d))
    {
      classData := classData + [d];
      var dataIndex := |classData| - 1;
      classDataById := classDataById[d.classObjectId := dataIndex];
      classDataBySerialNumber := classDataBySerialNumber[d.serialNumber := dataIndex];
    }

    method StoreOther(record: Record)
      requires !record.LoadClass?
      modifies this`utf8StringsById, this`stackFrameById, this`stackTraceBySerialNumber
      ensures State() == KeepTop(old(State()), record)
    {
      match record {
        case Utf8String(id, str) =>
          utf8StringsById := utf8StringsById[id := str];
        case StackFrame(f) =>
          stackFrameById := stackFrameById[f.stackFrameId := f];
        case StackTrace(t) =>
          stackTraceBySerialNumber := stackTraceBySerialNumber[t.serialNumber := t];
        case _ =>
      }
    }

    method StoreGc(gc: GcRecord)
      modifies this
      ensures State() == KeepGc(idSize, old(State()), gc) && seen == old(seen)
    {
      hide KeepGc;
      if gc.InstanceDump? || gc.ClassDump? {
        StoreObject(gc);
      } else if gc.ObjectArrayDump? {
        StoreObjectArray(gc);
      } else {
        StorePrimitiveArray(gc);
      }
    }

    method StoreObject(gc: GcRecord)
      requires gc.InstanceDump? || gc.ClassDump?
      modifies this`instanceCounts, this`classes
      ensures State() == KeepGc(idSize, old(State()), gc)
    {
      hide CountInstance, DefineClass;
      match gc {
        case InstanceDump(_, _, c, _) => instanceCounts := CountInstance(instanceCounts, c);
        case ClassDump(f) => classes := DefineClass(classes, f);
      }
    }

    method StoreObjectArray(gc: GcRecord)
      requires gc.ObjectArrayDump?
      modifies this`objectArrays
      ensures State() == KeepGc(idSize, old(State()), gc)
    {
      hide CountArray, ObjectArraySize;
      objectArrays := CountArray(objectArrays, gc.arrayClassId, ObjectArraySize(idSize, gc.numberOfElements));
    }

    method StorePrimitiveArray(gc: GcRecord)
      requires !gc.InstanceDump? && !gc.ClassDump? && !gc.ObjectArrayDump?
      modifies this`primitiveArrays
      ensures State() == KeepGc(idSize, old(State()), gc)
    {
      hide CountArray, PrimitiveArraySize;
      match gc {
        case PrimitiveArrayDump(_, _, n, ty) =>
          primitiveArrays := CountArray<FieldType>(primitiveArrays, ty, PrimitiveArraySize(idSize, ty, n));
        case PrimitiveArrayNoDataDump(_, _, _, ty) => primitiveArrays := CountArray(primitiveArrays, ty, 0);
        case _ =>
      }
    }
  }
}
