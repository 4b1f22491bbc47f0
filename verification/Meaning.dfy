/** What the report says about the stream of records that was read. */
module Meaning {
  import opened Nom
  import opened Records
  import opened Sequences
  import opened Recorder
  import opened Accounting
  import opened InstanceSize
  import opened Sorting
  import opened Report

  // ---- names ----

  /** The last load of a class. */
  function LastLoad(c: u64, rs: seq<Record>): Option<LoadClassData> {
    if rs == [] then None
    else
      var r := rs[|rs| - 1];
      if r.LoadClass? && r.classData.classObjectId == c then Some(r.classData) else LastLoad(c, rs[..|rs| - 1])
  }

  /** The last string that the last load of a class names. */
  function NameInStream(c: u64, rs: seq<Record>): Option<Bytes> {
    match LastLoad(c, rs)
    case None => None
    case Some(d) => LastString(d.classNameId, rs)
  }

  lemma {:induction false} LoadIsLatest(c: u64, rs: seq<Record>, index: map<u64, nat>)
    requires Latest(index, LoadedIds(Loads(rs)))
    ensures LastLoad(c, rs) == if c in index then Some(Loads(rs)[index[c]]) else None
  {
    LastLoadIn(c, rs);
    var loads := Loads(rs);
    var ids := LoadedIds(loads);
    assert forall i :: 0 <= i < |loads| ==> loads[i].classObjectId == ids[i];
    if c in index {
      LastIn(c, loads, index[c]);
    } else {
      NotIn(c, loads);
    }
  }

  function LastWithId(c: u64, loads: seq<LoadClassData>): Option<LoadClassData> {
    if loads == [] then None
    else
      var d := loads[|loads| - 1];
      if d.classObjectId == c then Some(d) else LastWithId(c, loads[..|loads| - 1])
  }

  lemma {:induction false} LastLoadIn(c: u64, rs: seq<Record>)
    ensures LastLoad(c, rs) == LastWithId(c, Loads(rs))
  {
    if rs != [] {
      LastLoadIn(c, rs[..|rs| - 1]);
      assert Loads(rs[..|rs| - 1]) + [] == Loads(rs[..|rs| - 1]);
      assert rs[|rs| - 1].LoadClass? ==> Loads(rs)[..|Loads(rs)| - 1] == Loads(rs[..|rs| - 1]);
    }
  }

  lemma {:induction false} LastIn(c: u64, loads: seq<LoadClassData>, k: nat)
    requires k < |loads| && loads[k].classObjectId == c
    requires forall i :: k < i < |loads| ==> loads[i].classObjectId != c
    ensures LastWithId(c, loads) == Some(loads[k])
  {
    if k < |loads| - 1 {
      LastIn(c, loads[..|loads| - 1], k);
    }
  }

  lemma {:induction false} NotIn(c: u64, loads: seq<LoadClassData>)
    requires forall i :: 0 <= i < |loads| ==> loads[i].classObjectId != c
    ensures LastWithId(c, loads) == None
  {
    if loads != [] {
      NotIn(c, loads[..|loads| - 1]);
    }
  }

  /** A class is shown under the last string of its last load. */
  lemma NamesFromStream(idSize: IdSize, rs: seq<Record>, c: u64)
    ensures ResolvedName(RecordAll(idSize, Fresh(), rs), c) == NameInStream(c, rs)
  {
    hide RecordAll, Latest, LoadedIds, Loads;
    var s := RecordAll(idSize, Fresh(), rs);
    LoadsKept(idSize, rs);
    LoadIsLatest(c, rs, s.classDataById);
    if c in s.classDataById {
      InRange(s.classDataById, Loads(rs), c);
      DefinitionsKept(idSize, rs, s.classData[s.classDataById[c]].classNameId);
    }
  }

  lemma InRange(index: map<u64, nat>, loads: seq<LoadClassData>, c: u64)
    requires Latest(index, LoadedIds(loads)) && c in index
    ensures index[c] < |loads|
  {
  }

  /** The name shown: the last string of the last load with a dot for each slash, or a placeholder. */
  function ShownName(c: u64, rs: seq<Record>): Bytes {
    match NameInStream(c, rs)
    case Some(name) => SlashToDot(name)
    case None => Ascii("<unknown class 0x") + Hex(c) + Ascii(">")
  }

  // ---- missing classes ----

  /** The `n`-th superclass by the first dumps of the stream. */
  function SuperInStream(rs: seq<Record>, c: u64, n: nat): Option<u64>
    decreases n
  {
    if n == 0 then Some(c)
    else
      match FirstDump(c, rs)
      case None => None
      case Some(f) => if f.superClassObjectId == 0 then None else SuperInStream(rs, f.superClassObjectId, n - 1)
  }

  /** Without a name though it has objects, or without a dump though a class with instances has it
      among its superclasses. */
  ghost predicate MissingInStream(idSize: IdSize, rs: seq<Record>, x: u64) {
    || ((Instances(x, rs) > 0 || ObjectArraySizes(idSize, x, rs) != []) && NameInStream(x, rs).None?)
    || (FirstDump(x, rs).None? && exists c: u64 :: Instances(c, rs) > 0 && ReachesInStream(rs, c, x))
  }

  ghost predicate ReachesInStream(rs: seq<Record>, c: u64, x: u64) {
    exists n: nat :: SuperInStream(rs, c, n) == Some(x)
  }

  lemma {:induction false} SupersFromStream(idSize: IdSize, s: RecorderState, rs: seq<Record>, c: u64, n: nat)
    requires TablesExact(idSize, s, rs)
    ensures NthSuper(s.classes, c, n) == SuperInStream(rs, c, n)
    decreases n
  {
    hide Instances, ObjectArraySizes, PrimitiveArraySizes, FirstDump, LastString, LastFrame, LastTrace;
    if n > 0 {
      assert Describes(Lookup(s.classes, c), FirstDump(c, rs));
      if c in s.classes && s.classes[c].superClassObjectId != 0 {
        SupersFromStream(idSize, s, rs, s.classes[c].superClassObjectId, n - 1);
      }
    }
  }

  lemma ReachedFromStream(idSize: IdSize, s: RecorderState, rs: seq<Record>, c: u64, x: u64)
    requires TablesExact(idSize, s, rs)
    ensures Reaches(s.classes, c, x) <==> ReachesInStream(rs, c, x)
  {
    hide TablesExact, NthSuper, SuperInStream;
    if Reaches(s.classes, c, x) {
      var n: nat :| NthSuper(s.classes, c, n) == Some(x);
      SupersFromStream(idSize, s, rs, c, n);
      assert SuperInStream(rs, c, n) == Some(x);
    }
    if ReachesInStream(rs, c, x) {
      var n: nat :| SuperInStream(rs, c, n) == Some(x);
      SupersFromStream(idSize, s, rs, c, n);
      assert NthSuper(s.classes, c, n) == Some(x);
    }
  }

  lemma KeysFromStream(idSize: IdSize, s: RecorderState, rs: seq<Record>, x: u64)
    requires TablesExact(idSize, s, rs)
    ensures x in s.instanceCounts <==> Instances(x, rs) > 0
    ensures x in s.objectArrays <==> ObjectArraySizes(idSize, x, rs) != []
    ensures x in s.classes <==> FirstDump(x, rs).Some?
  {
    hide Instances, ObjectArraySizes, PrimitiveArraySizes, FirstDump, LastString, LastFrame, LastTrace;
    assert Lookup(s.instanceCounts, x) == NonZero(Instances(x, rs));
    assert Tallied(s.objectArrays, x, ObjectArraySizes(idSize, x, rs));
    assert Describes(Lookup(s.classes, x), FirstDump(x, rs));
  }

  /** The missing classes of a report are those of the stream. */
  lemma MissingFromStream(idSize: IdSize, rs: seq<Record>, x: u64)
    ensures IsMissing(RecordAll(idSize, Fresh(), rs), x) <==> MissingInStream(idSize, rs, x)
  {
    hide RecordAll, TablesExact, ResolvedName, NameInStream, Reaches, FirstDump, Instances, ObjectArraySizes,
      ReachesInStream;
    var s := RecordAll(idSize, Fresh(), rs);
    TablesKept(idSize, rs);
    NamesFromStream(idSize, rs, x);
    forall c: u64
      ensures c in s.instanceCounts <==> Instances(c, rs) > 0
      ensures c in s.objectArrays <==> ObjectArraySizes(idSize, c, rs) != []
      ensures c in s.classes <==> FirstDump(c, rs).Some?
      ensures Reaches(s.classes, c, x) <==> ReachesInStream(rs, c, x)
    {
      KeysFromStream(idSize, s, rs, c);
      ReachedFromStream(idSize, s, rs, c, x);
    }
  }

  // ---- rows ----

  /** A row per class: its instances, the size of one, and their product. */
  function StreamClassRow(t: ClassTable, idSize: IdSize, rs: seq<Record>, c: u64): ClassAllocationStats {
    var n, size := Instances(c, rs), SizeOrZero(t, idSize, c);
    ClassAllocationStats(ShownName(c, rs), n, size, Times(size, n))
  }

  /** A row per primitive type: its arrays, the largest of them, and their sum. */
  function StreamPrimitiveRow(idSize: IdSize, rs: seq<Record>, ty: FieldType): ClassAllocationStats {
    var sizes := PrimitiveArraySizes(idSize, ty, rs);
    ClassAllocationStats(PrimitiveLabel(ty), |sizes|, Max(sizes), Sum(sizes))
  }

  /** A row per class of arrays. */
  function StreamArrayRow(idSize: IdSize, rs: seq<Record>, c: u64): ClassAllocationStats {
    var sizes, raw := ObjectArraySizes(idSize, c, rs), ShownName(c, rs);
    ClassAllocationStats(CleanArrayName(raw).UnwrapOr(raw) + Ascii("[]"), |sizes|, Max(sizes), Sum(sizes))
  }

  /** One row for each key of each listing, all of it from the stream. */
  function StreamRows(t: ClassTable, idSize: IdSize, rs: seq<Record>, it: Iteration): seq<ClassAllocationStats> {
    seq(|it.classes|, k requires 0 <= k < |it.classes| => StreamClassRow(t, idSize, rs, it.classes[k]))
    + seq(|it.primitives|, k requires 0 <= k < |it.primitives| => StreamPrimitiveRow(idSize, rs, it.primitives[k]))
    + seq(|it.arrays|, k requires 0 <= k < |it.arrays| => StreamArrayRow(idSize, rs, it.arrays[k]))
  }

  lemma NameShown(idSize: IdSize, rs: seq<Record>, c: u64)
    ensures ClassName(RecordAll(idSize, Fresh(), rs), c) == ShownName(c, rs)
  {
    hide RecordAll, NameInStream, ResolvedName, Ascii, Hex, SlashToDot;
    NamesFromStream(idSize, rs, c);
  }

  lemma ClassRowFromStream(idSize: IdSize, rs: seq<Record>, c: u64)
    ensures var s := RecordAll(idSize, Fresh(), rs);
            ClassRow(s, idSize, c) == StreamClassRow(s.classes, idSize, rs, c)
  {
    hide RecordAll, ClassName, ShownName, Instances, Ends, SizeOf;
    NameShown(idSize, rs, c);
    InstancesCounted(idSize, rs, c);
  }

  lemma PrimitiveRowFromStream(idSize: IdSize, rs: seq<Record>, ty: FieldType)
    ensures PrimitiveRow(RecordAll(idSize, Fresh(), rs), ty) == StreamPrimitiveRow(idSize, rs, ty)
  {
    hide RecordAll, PrimitiveLabel, PrimitiveArraySizes;
    PrimitiveArraysTallied(idSize, rs, ty);
  }

  lemma ArrayRowFromStream(idSize: IdSize, rs: seq<Record>, c: u64)
    ensures ArrayRow(RecordAll(idSize, Fresh(), rs), c) == StreamArrayRow(idSize, rs, c)
  {
    hide RecordAll, ClassName, ShownName, CleanArrayName, Ascii, ObjectArraySizes;
    NameShown(idSize, rs, c);
    ObjectArraysTallied(idSize, rs, c);
  }

  lemma AllRowsFromStream(idSize: IdSize, rs: seq<Record>, it: Iteration)
    ensures var s := RecordAll(idSize, Fresh(), rs);
            AllRows(s, idSize, it) == StreamRows(s.classes, idSize, rs, it)
  {
    hide RecordAll, MapSeq, ClassRow, PrimitiveRow, ArrayRow, StreamClassRow, StreamPrimitiveRow, StreamArrayRow;
    var s := RecordAll(idSize, Fresh(), rs);
    MapSeqAt(ClassRows(s, idSize), it.classes);
    MapSeqAt(PrimitiveRows(s), it.primitives);
    MapSeqAt(ArrayRows(s), it.arrays);
    forall k | 0 <= k < |it.classes|
      ensures MapSeq(ClassRows(s, idSize), it.classes)[k] == StreamClassRow(s.classes, idSize, rs, it.classes[k])
    {
      ClassRowFromStream(idSize, rs, it.classes[k]);
    }
    forall k | 0 <= k < |it.primitives|
      ensures MapSeq(PrimitiveRows(s), it.primitives)[k] == StreamPrimitiveRow(idSize, rs, it.primitives[k])
    {
      PrimitiveRowFromStream(idSize, rs, it.primitives[k]);
    }
    forall k | 0 <= k < |it.arrays|
      ensures MapSeq(ArrayRows(s), it.arrays)[k] == StreamArrayRow(idSize, rs, it.arrays[k])
    {
      ArrayRowFromStream(idSize, rs, it.arrays[k]);
    }
  }

  /** Every row of a report, column by column, is what the stream says of its class or type; there is
      exactly one row for each class and type with objects. */
  lemma RowsFromStream(idSize: IdSize, rs: seq<Record>, it: Iteration, rows: seq<ClassAllocationStats>)
    requires var s := RecordAll(idSize, Fresh(), rs);
             IteratesOver(it, s) && IsReport(s, idSize, it, rows)
    ensures var s := RecordAll(idSize, Fresh(), rs);
            multiset(rows) == multiset(StreamRows(s.classes, idSize, rs, it))
    ensures Distinct(it.classes) && Distinct(it.primitives) && Distinct(it.arrays)
    ensures forall c: u64 :: c in it.classes <==> Instances(c, rs) > 0
    ensures forall c: u64 :: c in it.arrays <==> ObjectArraySizes(idSize, c, rs) != []
    ensures forall ty: FieldType :: ty in it.primitives <==> PrimitiveArraySizes(idSize, ty, rs) != []
  {
    hide RecordAll, AllRows, StreamRows, Instances, ObjectArraySizes, PrimitiveArraySizes, SortedBy;
    AllRowsFromStream(idSize, rs, it);
    forall c: u64
      ensures c in it.classes <==> Instances(c, rs) > 0
      ensures c in it.arrays <==> ObjectArraySizes(idSize, c, rs) != []
    {
      InstancesCounted(idSize, rs, c);
      ObjectArraysTallied(idSize, rs, c);
    }
    forall ty: FieldType
      ensures ty in it.primitives <==> PrimitiveArraySizes(idSize, ty, rs) != []
    {
      PrimitiveArraysTallied(idSize, rs, ty);
    }
  }

  // ---- bytes ----

  function SizeOrZero(t: ClassTable, idSize: IdSize, c: u64): nat {
    if Ends(t, c) then SizeOf(t, idSize, c) else 0
  }

  /** The shallow size of the object a record dumps; arrays without data and other records have none. */
  function ShallowSize(t: ClassTable, idSize: IdSize, r: Record): nat {
    if !r.GcSegment? then 0
    else
      match r.gc
      case InstanceDump(_, _, c, _) => SizeOrZero(t, idSize, c)
      case ObjectArrayDump(_, _, n, _) => ObjectArraySize(idSize, n)
      case PrimitiveArrayDump(_, _, n, ty) => PrimitiveArraySize(idSize, ty, n)
      case _ => 0
  }

  /** Over all objects of the stream, with the class table of the whole stream. */
  function ShallowTotal(t: ClassTable, idSize: IdSize, rs: seq<Record>): nat {
    if rs == [] then 0
    else ShallowTotal(t, idSize, rs[..|rs| - 1]) + ShallowSize(t, idSize, rs[|rs| - 1])
  }

  function Times(size: nat, n: nat): nat {
    size * n
  }

  function ClassBytes(t: ClassTable, idSize: IdSize, keys: seq<u64>, rs: seq<Record>): nat {
    if keys == [] then 0
    else
      var c := keys[|keys| - 1];
      ClassBytes(t, idSize, keys[..|keys| - 1], rs) + Times(SizeOrZero(t, idSize, c), Instances(c, rs))
  }

  function ArrayBytes(idSize: IdSize, keys: seq<u64>, rs: seq<Record>): nat {
    if keys == [] then 0
    else ArrayBytes(idSize, keys[..|keys| - 1], rs) + Sum(ObjectArraySizes(idSize, keys[|keys| - 1], rs))
  }

  function PrimitiveBytes(idSize: IdSize, keys: seq<FieldType>, rs: seq<Record>): nat {
    if keys == [] then 0
    else PrimitiveBytes(idSize, keys[..|keys| - 1], rs) + Sum(PrimitiveArraySizes(idSize, keys[|keys| - 1], rs))
  }

  predicate DumpsInstance(r: Record) {
    r.GcSegment? && r.gc.InstanceDump?
  }

  predicate DumpsArray(r: Record) {
    r.GcSegment? && r.gc.ObjectArrayDump?
  }

  predicate DumpsPrimitives(r: Record) {
    r.GcSegment? && r.gc.PrimitiveArrayDump?
  }

  lemma SumPush(sizes: seq<nat>, v: nat)
    ensures Sum(sizes + [v]) == Sum(sizes) + v
  {
    assert (sizes + [v])[..|sizes|] == sizes;
  }

  lemma OneMoreInstance(size: nat, n: nat)
    ensures Times(size, n + 1) == Times(size, n) + size
  {
  }

  lemma InstancesGrow(c: u64, rs: seq<Record>)
    requires rs != []
    ensures var r := rs[|rs| - 1];
            Instances(c, rs) == Instances(c, rs[..|rs| - 1])
            + if DumpsInstance(r) && r.gc.classObjectId == c then 1 else 0
  {
  }

  /** One more record adds its size to the class it is an instance of. */
  lemma {:induction false} ClassBytesGrow(t: ClassTable, idSize: IdSize, keys: seq<u64>, rs: seq<Record>)
    requires rs != [] && Distinct(keys)
    ensures var r := rs[|rs| - 1];
            ClassBytes(t, idSize, keys, rs) == ClassBytes(t, idSize, keys, rs[..|rs| - 1])
            + if DumpsInstance(r) && r.gc.classObjectId in keys then SizeOrZero(t, idSize, r.gc.classObjectId) else 0
    decreases |keys|
  {
    hide SizeOrZero, Times, Instances;
    if keys != [] {
      var n := |keys| - 1;
      ClassBytesGrow(t, idSize, keys[..n], rs);
      assert keys == keys[..n] + [keys[n]];
      InstancesGrow(keys[n], rs);
      OneMoreInstance(SizeOrZero(t, idSize, keys[n]), Instances(keys[n], rs[..|rs| - 1]));
    }
  }

  lemma ArraySizesGrow(idSize: IdSize, c: u64, rs: seq<Record>)
    requires rs != []
    ensures var r := rs[|rs| - 1];
            Sum(ObjectArraySizes(idSize, c, rs)) == Sum(ObjectArraySizes(idSize, c, rs[..|rs| - 1]))
            + if DumpsArray(r) && r.gc.arrayClassId == c then ObjectArraySize(idSize, r.gc.numberOfElements) else 0
  {
    hide ObjectArraySize, Sum;
    var r, sizes := rs[|rs| - 1], ObjectArraySizes(idSize, c, rs[..|rs| - 1]);
    assert sizes + [] == sizes;
    if DumpsArray(r) {
      SumPush(sizes, ObjectArraySize(idSize, r.gc.numberOfElements));
    }
  }

  lemma PrimitiveSizesGrow(idSize: IdSize, ty: FieldType, rs: seq<Record>)
    requires rs != []
    ensures var r := rs[|rs| - 1];
            Sum(PrimitiveArraySizes(idSize, ty, rs)) == Sum(PrimitiveArraySizes(idSize, ty, rs[..|rs| - 1]))
            + if DumpsPrimitives(r) && r.gc.primitiveType == ty
              then PrimitiveArraySize(idSize, r.gc.primitiveType, r.gc.numberOfElements) else 0
  {
    hide PrimitiveArraySize, Sum;
    var r, sizes := rs[|rs| - 1], PrimitiveArraySizes(idSize, ty, rs[..|rs| - 1]);
    assert sizes + [] == sizes;
    SumPush(sizes, 0);
    if DumpsPrimitives(r) {
      SumPush(sizes, PrimitiveArraySize(idSize, r.gc.primitiveType, r.gc.numberOfElements));
    }
  }

  lemma {:induction false} ArrayBytesGrow(idSize: IdSize, keys: seq<u64>, rs: seq<Record>)
    requires rs != [] && Distinct(keys)
    ensures var r := rs[|rs| - 1];
            ArrayBytes(idSize, keys, rs) == ArrayBytes(idSize, keys, rs[..|rs| - 1])
            + if DumpsArray(r) && r.gc.arrayClassId in keys then ObjectArraySize(idSize, r.gc.numberOfElements) else 0
    decreases |keys|
  {
    hide ObjectArraySize, ObjectArraySizes, Sum;
    if keys != [] {
      var n := |keys| - 1;
      ArrayBytesGrow(idSize, keys[..n], rs);
      assert keys == keys[..n] + [keys[n]];
      ArraySizesGrow(idSize, keys[n], rs);
    }
  }

  lemma {:induction false} PrimitiveBytesGrow(idSize: IdSize, keys: seq<FieldType>, rs: seq<Record>)
    requires rs != [] && Distinct(keys)
    ensures var r := rs[|rs| - 1];
            PrimitiveBytes(idSize, keys, rs) == PrimitiveBytes(idSize, keys, rs[..|rs| - 1])
            + if DumpsPrimitives(r) && r.gc.primitiveType in keys
              then PrimitiveArraySize(idSize, r.gc.primitiveType, r.gc.numberOfElements) else 0
    decreases |keys|
  {
    hide PrimitiveArraySize, PrimitiveArraySizes, Sum;
    if keys != [] {
      var n := |keys| - 1;
      PrimitiveBytesGrow(idSize, keys[..n], rs);
      assert keys == keys[..n] + [keys[n]];
      PrimitiveSizesGrow(idSize, keys[n], rs);
    }
  }

  /** The listings name every class and type with an object in the stream. */
  ghost predicate Covers(it: Iteration, idSize: IdSize, rs: seq<Record>) {
    && (forall c: u64 :: Instances(c, rs) > 0 ==> c in it.classes)
    && (forall c: u64 :: ObjectArraySizes(idSize, c, rs) != [] ==> c in it.arrays)
    && (forall ty: FieldType :: PrimitiveArraySizes(idSize, ty, rs) != [] ==> ty in it.primitives)
  }

  lemma NothingYet(t: ClassTable, idSize: IdSize, it: Iteration)
    ensures ClassBytes(t, idSize, it.classes, []) == 0
    ensures ArrayBytes(idSize, it.arrays, []) == 0
    ensures PrimitiveBytes(idSize, it.primitives, []) == 0
  {
    NoClassBytes(t, idSize, it.classes);
    NoArrayBytes(idSize, it.arrays);
    NoPrimitiveBytes(idSize, it.primitives);
  }

  lemma {:induction false} NoClassBytes(t: ClassTable, idSize: IdSize, keys: seq<u64>)
    ensures ClassBytes(t, idSize, keys, []) == 0
  {
    if keys != [] {
      NoClassBytes(t, idSize, keys[..|keys| - 1]);
    }
  }

  lemma {:induction false} NoArrayBytes(idSize: IdSize, keys: seq<u64>)
    ensures ArrayBytes(idSize, keys, []) == 0
  {
    if keys != [] {
      NoArrayBytes(idSize, keys[..|keys| - 1]);
    }
  }

  lemma {:induction false} NoPrimitiveBytes(idSize: IdSize, keys: seq<FieldType>)
    ensures PrimitiveBytes(idSize, keys, []) == 0
  {
    if keys != [] {
      NoPrimitiveBytes(idSize, keys[..|keys| - 1]);
    }
  }

  /** Sums by class and type are the sum over the objects. */
  lemma {:induction false} BytesByKey(t: ClassTable, idSize: IdSize, it: Iteration, rs: seq<Record>)
    requires Distinct(it.classes) && Distinct(it.arrays) && Distinct(it.primitives) && Covers(it, idSize, rs)
    ensures ClassBytes(t, idSize, it.classes, rs) + PrimitiveBytes(idSize, it.primitives, rs)
            + ArrayBytes(idSize, it.arrays, rs) == ShallowTotal(t, idSize, rs)
    decreases |rs|
  {
    hide SizeOrZero, ClassBytes, ArrayBytes, PrimitiveBytes, Distinct, ObjectArraySize, PrimitiveArraySize;
    if rs == [] {
      NothingYet(t, idSize, it);
    } else {
      CoversPrefix(it, idSize, rs);
      BytesByKey(t, idSize, it, rs[..|rs| - 1]);
      ClassBytesGrow(t, idSize, it.classes, rs);
      PrimitiveBytesGrow(idSize, it.primitives, rs);
      ArrayBytesGrow(idSize, it.arrays, rs);
      LastCovered(it, idSize, rs);
    }
  }

  lemma CoversPrefix(it: Iteration, idSize: IdSize, rs: seq<Record>)
    requires rs != [] && Covers(it, idSize, rs)
    ensures Covers(it, idSize, rs[..|rs| - 1])
  {
  }

  lemma LastCovered(it: Iteration, idSize: IdSize, rs: seq<Record>)
    requires rs != [] && Covers(it, idSize, rs)
    ensures var r := rs[|rs| - 1];
            && (DumpsInstance(r) ==> r.gc.classObjectId in it.classes)
            && (DumpsArray(r) ==> r.gc.arrayClassId in it.arrays)
            && (DumpsPrimitives(r) ==> r.gc.primitiveType in it.primitives)
  {
    var r := rs[|rs| - 1];
    if DumpsInstance(r) {
      assert Instances(r.gc.classObjectId, rs) > 0;
    } else if DumpsArray(r) {
      assert ObjectArraySizes(idSize, r.gc.arrayClassId, rs) != [];
    } else if DumpsPrimitives(r) {
      assert PrimitiveArraySizes(idSize, r.gc.primitiveType, rs) != [];
    }
  }

  // ---- from rows to sums ----

  lemma {:induction false} TotalBytesSplit(a: seq<ClassAllocationStats>, b: seq<ClassAllocationStats>)
    ensures TotalBytes(a + b) == TotalBytes(a) + TotalBytes(b)
    decreases |b|
  {
    if b == [] {
      assert a + b == a;
    } else {
      var n := |b| - 1;
      TotalBytesSplit(a, b[..n]);
      assert (a + b)[..|a + b| - 1] == a + b[..n];
    }
  }

  lemma {:induction false} TotalBytesPermuted(a: seq<ClassAllocationStats>, b: seq<ClassAllocationStats>)
    requires multiset(a) == multiset(b)
    ensures TotalBytes(a) == TotalBytes(b)
  {
    if a == [] {
      assert |multiset(b)| == 0;
    } else {
      var j := FindLast(a, b);
      TotalBytesPermuted(a[..|a| - 1], b[..j] + b[j + 1..]);
      TotalBytesSplit(b[..j], b[j + 1..]);
      TotalBytesSplit(b[..j] + [b[j]], b[j + 1..]);
      assert (b[..j] + [b[j]])[..j] == b[..j];
    }
  }

  lemma {:induction false} ClassRowsBytes(s: RecorderState, idSize: IdSize, keys: seq<u64>, rs: seq<Record>)
    requires forall c: u64 :: Lookup(s.instanceCounts, c) == NonZero(Instances(c, rs))
    ensures TotalBytes(MapSeq(ClassRows(s, idSize), keys)) == ClassBytes(s.classes, idSize, keys, rs)
    decreases |keys|
  {
    hide Ends, SizeOf, ClassName, Instances;
    if keys != [] {
      var n := |keys| - 1;
      ClassRowsBytes(s, idSize, keys[..n], rs);
      assert Lookup(s.instanceCounts, keys[n]) == NonZero(Instances(keys[n], rs));
      assert ClassRow(s, idSize, keys[n]).allocationSizeBytes ==
             Times(SizeOrZero(s.classes, idSize, keys[n]), Instances(keys[n], rs));
    }
  }

  lemma {:induction false} ArrayRowsBytes(s: RecorderState, idSize: IdSize, keys: seq<u64>, rs: seq<Record>)
    requires forall c: u64 :: Tallied(s.objectArrays, c, ObjectArraySizes(idSize, c, rs))
    ensures TotalBytes(MapSeq(ArrayRows(s), keys)) == ArrayBytes(idSize, keys, rs)
    decreases |keys|
  {
    hide ClassName, CleanArrayName, Ascii, ObjectArraySizes;
    if keys != [] {
      var n := |keys| - 1;
      ArrayRowsBytes(s, idSize, keys[..n], rs);
      assert Tallied(s.objectArrays, keys[n], ObjectArraySizes(idSize, keys[n], rs));
    }
  }

  lemma {:induction false} PrimitiveRowsBytes(s: RecorderState, idSize: IdSize, keys: seq<FieldType>, rs: seq<Record>)
    requires forall ty: FieldType :: Tallied(s.primitiveArrays, ty, PrimitiveArraySizes(idSize, ty, rs))
    ensures TotalBytes(MapSeq(PrimitiveRows(s), keys)) == PrimitiveBytes(idSize, keys, rs)
    decreases |keys|
  {
    hide PrimitiveLabel, PrimitiveArraySizes;
    if keys != [] {
      var n := |keys| - 1;
      PrimitiveRowsBytes(s, idSize, keys[..n], rs);
      assert Tallied(s.primitiveArrays, keys[n], PrimitiveArraySizes(idSize, keys[n], rs));
    }
  }

  lemma IterationCovers(it: Iteration, idSize: IdSize, s: RecorderState, rs: seq<Record>)
    requires IteratesOver(it, s) && TablesExact(idSize, s, rs)
    ensures Covers(it, idSize, rs) && Distinct(it.classes) && Distinct(it.arrays) && Distinct(it.primitives)
  {
    hide Instances, ObjectArraySizes, PrimitiveArraySizes;
    forall c: u64 | Instances(c, rs) > 0
      ensures c in it.classes
    {
      assert Lookup(s.instanceCounts, c) == NonZero(Instances(c, rs));
    }
    forall c: u64 | ObjectArraySizes(idSize, c, rs) != []
      ensures c in it.arrays
    {
      assert Tallied(s.objectArrays, c, ObjectArraySizes(idSize, c, rs));
    }
    forall ty: FieldType | PrimitiveArraySizes(idSize, ty, rs) != []
      ensures ty in it.primitives
    {
      assert Tallied(s.primitiveArrays, ty, PrimitiveArraySizes(idSize, ty, rs));
    }
  }

  /** The bytes of the report are the shallow sizes of all objects in the stream. */
  lemma TotalFromStream(idSize: IdSize, rs: seq<Record>, it: Iteration, rows: seq<ClassAllocationStats>)
    requires var s := RecordAll(idSize, Fresh(), rs);
             IteratesOver(it, s) && IsReport(s, idSize, it, rows)
    ensures TotalBytes(rows) == ShallowTotal(RecordAll(idSize, Fresh(), rs).classes, idSize, rs)
  {
    hide RecordAll, Covers, Distinct, TotalBytes, ShallowTotal, IteratesOver, MapSeq;
    var s := RecordAll(idSize, Fresh(), rs);
    TablesKept(idSize, rs);
    IterationCovers(it, idSize, s, rs);
    BytesByKey(s.classes, idSize, it, rs);
    ClassRowsBytes(s, idSize, it.classes, rs);
    PrimitiveRowsBytes(s, idSize, it.primitives, rs);
    ArrayRowsBytes(s, idSize, it.arrays, rs);
    var classRows, primitiveRows := MapSeq(ClassRows(s, idSize), it.classes), MapSeq(PrimitiveRows(s), it.primitives);
    TotalBytesSplit(classRows, primitiveRows);
    TotalBytesSplit(classRows + primitiveRows, MapSeq(ArrayRows(s), it.arrays));
    TotalBytesPermuted(rows, AllRows(s, idSize, it));
  }
}
