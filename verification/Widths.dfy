/** The numbers of a report fit the integers the program keeps them in. */
module Widths {
  import opened Nom
  import opened Records
  import opened Streaming
  import opened Recorder
  import opened Accounting
  import opened InstanceSize
  import opened ClassTables
  import opened Sorting
  import opened Report
  import opened Meaning

  /** Every counted class has a superclass chain of at most 8192 classes. */
  ghost predicate ShortChains(s: RecorderState) {
    forall c :: c in s.instanceCounts ==> Ends(s.classes, c) && Depth(s.classes, c) <= 8192
  }

  // ---- the whole report ----

  lemma {:induction false} ShallowWithin(t: ClassTable, idSize: IdSize, rs: seq<Record>)
    requires forall c: u64 :: Instances(c, rs) > 0 ==> SizeOrZero(t, idSize, c) < 0x1_0000_0000
    ensures ShallowTotal(t, idSize, rs) <= TotalWeight(idSize, rs)
  {
    hide SizeOrZero, ObjectArraySize, PrimitiveArraySize;
    if rs != [] {
      var r := rs[|rs| - 1];
      ShallowWithin(t, idSize, rs[..|rs| - 1]);
      if DumpsInstance(r) {
        assert Instances(r.gc.classObjectId, rs) > 0;
      }
    }
  }

  /** For every file: sizes of counted classes fit 32 bits, and the bytes of the report are at most
      2^28 times the length of the file. */
  lemma TotalFits(idSize: IdSize, body: Bytes, it: Iteration, rows: seq<ClassAllocationStats>)
    requires var s := RecordAll(idSize, Fresh(), Drain(HprofStep(idSize), 0, body).records);
             IteratesOver(it, s) && IsReport(s, idSize, it, rows) && ShortChains(s)
    ensures var s := RecordAll(idSize, Fresh(), Drain(HprofStep(idSize), 0, body).records);
            forall c: u64 :: c in s.instanceCounts ==> SizeOrZero(s.classes, idSize, c) < 0x1_0000_0000
    ensures TotalBytes(rows) <= RATE * |body|
  {
    hide HprofStep, RecordAll, Drain, Ends, Depth, SizeOf, IteratesOver, IsReport, TotalWeight, ShallowTotal;
    var rs := Drain(HprofStep(idSize), 0, body).records;
    var s := RecordAll(idSize, Fresh(), rs);
    forall c: u64
      ensures c in s.instanceCounts ==> SizeOrZero(s.classes, idSize, c) < 0x1_0000_0000
      ensures Instances(c, rs) > 0 ==> c in s.instanceCounts
    {
      InstancesCounted(idSize, rs, c);
      if c in s.instanceCounts {
        AnalysedSizesFit(idSize, body, c);
      }
    }
    TotalFromStream(idSize, rs, it, rows);
    ShallowWithin(s.classes, idSize, rs);
    DrainYields(idSize, 0, body);
  }

  // ---- row by row ----

  lemma {:induction false} InTotal(rows: seq<ClassAllocationStats>, row: ClassAllocationStats)
    requires row in rows
    ensures row.allocationSizeBytes <= TotalBytes(rows)
  {
    var n := |rows| - 1;
    if row != rows[n] {
      assert row in rows[..n];
      InTotal(rows[..n], row);
    }
  }

  lemma {:induction false} FewInstances(c: u64, rs: seq<Record>)
    ensures Instances(c, rs) <= |rs|
  {
    if rs != [] {
      FewInstances(c, rs[..|rs| - 1]);
    }
  }

  lemma {:induction false} FewArrays(idSize: IdSize, c: u64, ty: FieldType, rs: seq<Record>)
    ensures |ObjectArraySizes(idSize, c, rs)| <= |rs| && |PrimitiveArraySizes(idSize, ty, rs)| <= |rs|
  {
    hide ObjectArraySize, PrimitiveArraySize;
    if rs != [] {
      FewArrays(idSize, c, ty, rs[..|rs| - 1]);
    }
  }

  lemma {:induction false} MaxWithinSum(sizes: seq<nat>)
    ensures Max(sizes) <= Sum(sizes)
  {
    if sizes != [] {
      MaxWithinSum(sizes[..|sizes| - 1]);
    }
  }

  /** Counts are at most `n`, and the largest object is no larger than the total. */
  predicate RowWithin(row: ClassAllocationStats, n: nat) {
    row.instanceCount <= n && row.largestAllocationBytes <= row.allocationSizeBytes
  }

  lemma AtLeastOnce(size: nat, n: nat)
    requires n > 0
    ensures size <= size * n
  {
  }

  lemma ClassRowWithin(s: RecorderState, idSize: IdSize, c: u64, rs: seq<Record>)
    requires c in s.instanceCounts && TablesExact(idSize, s, rs)
    ensures RowWithin(ClassRow(s, idSize, c), |rs|)
  {
    hide Instances, Ends, SizeOf, ClassName, ObjectArraySizes, PrimitiveArraySizes;
    assert Lookup(s.instanceCounts, c) == NonZero(Instances(c, rs));
    FewInstances(c, rs);
    AtLeastOnce(ClassRow(s, idSize, c).largestAllocationBytes, s.instanceCounts[c]);
  }

  lemma ArrayRowWithin(s: RecorderState, idSize: IdSize, c: u64, rs: seq<Record>)
    requires TablesExact(idSize, s, rs)
    ensures RowWithin(ArrayRow(s, c), |rs|)
  {
    hide ObjectArraySizes, ClassName, CleanArrayName, Ascii, Instances, PrimitiveArraySizes;
    var sizes := ObjectArraySizes(idSize, c, rs);
    assert Tallied(s.objectArrays, c, sizes);
    FewArrays(idSize, c, Bool, rs);
    MaxWithinSum(sizes);
  }

  lemma PrimitiveRowWithin(s: RecorderState, idSize: IdSize, ty: FieldType, rs: seq<Record>)
    requires TablesExact(idSize, s, rs)
    ensures RowWithin(PrimitiveRow(s, ty), |rs|)
  {
    hide PrimitiveArraySizes, PrimitiveLabel, Instances, ObjectArraySizes;
    var sizes := PrimitiveArraySizes(idSize, ty, rs);
    assert Tallied(s.primitiveArrays, ty, sizes);
    FewArrays(idSize, 0, ty, rs);
    MaxWithinSum(sizes);
  }

  lemma {:induction false} MadeFrom<K, R>(f: K -> R, keys: seq<K>, r: R) returns (k: K)
    requires r in MapSeq(f, keys)
    ensures k in keys && f(k) == r
  {
    var n := |keys| - 1;
    if r == f(keys[n]) {
      k := keys[n];
    } else {
      k := MadeFrom(f, keys[..n], r);
    }
  }

  lemma RowsWithin(s: RecorderState, idSize: IdSize, it: Iteration, rs: seq<Record>, row: ClassAllocationStats)
    requires IteratesOver(it, s) && TablesExact(idSize, s, rs) && row in AllRows(s, idSize, it)
    ensures RowWithin(row, |rs|)
  {
    hide MapSeq, TablesExact, RowWithin, ClassRow, ArrayRow, PrimitiveRow;
    if row in MapSeq(ClassRows(s, idSize), it.classes) {
      var c := MadeFrom(ClassRows(s, idSize), it.classes, row);
      ClassRowWithin(s, idSize, c, rs);
    } else if row in MapSeq(PrimitiveRows(s), it.primitives) {
      var ty := MadeFrom(PrimitiveRows(s), it.primitives, row);
      PrimitiveRowWithin(s, idSize, ty, rs);
    } else {
      var c := MadeFrom(ArrayRows(s), it.arrays, row);
      ArrayRowWithin(s, idSize, c, rs);
    }
  }

  /** No number of a report leaves its width. For a file below 64 GiB whose counted classes have
      superclass chains of up to 8192 classes: instance sizes fit 32 bits, and every count, size and
      total of a row, and the total of all rows, fit 64 bits; below 32 GiB they fit the signed 64 bits
      that differences are taken in. */
  lemma ReportFits(idSize: IdSize, body: Bytes, it: Iteration, rows: seq<ClassAllocationStats>)
    requires var s := RecordAll(idSize, Fresh(), Drain(HprofStep(idSize), 0, body).records);
             IteratesOver(it, s) && IsReport(s, idSize, it, rows) && ShortChains(s)
    ensures var s := RecordAll(idSize, Fresh(), Drain(HprofStep(idSize), 0, body).records);
            forall c: u64 :: c in s.instanceCounts ==> SizeOrZero(s.classes, idSize, c) < 0x1_0000_0000
    ensures forall row :: row in rows ==>
              && row.instanceCount <= |body|
              && row.largestAllocationBytes <= row.allocationSizeBytes <= TotalBytes(rows) <= RATE * |body|
    ensures |body| < 0x10_0000_0000 ==> TotalBytes(rows) < 0x1_0000_0000_0000_0000
    ensures |body| < 0x8_0000_0000 ==> TotalBytes(rows) < 0x8000_0000_0000_0000
  {
    hide HprofStep, RecordAll, Drain, ShortChains, IteratesOver, TotalBytes, AllRows, SizeOrZero, TablesExact;
    var rs := Drain(HprofStep(idSize), 0, body).records;
    var s := RecordAll(idSize, Fresh(), rs);
    TotalFits(idSize, body, it, rows);
    TablesKept(idSize, rs);
    DrainYields(idSize, 0, body);
    forall row | row in rows
      ensures RowWithin(row, |rs|) && row.allocationSizeBytes <= TotalBytes(rows)
    {
      SamePermuted(rows, AllRows(s, idSize, it), row);
      RowsWithin(s, idSize, it, rs, row);
      InTotal(rows, row);
    }
  }

  // ---- counters ----

  lemma {:induction false} KindWithin(k: Kind, rs: seq<Record>)
    ensures CountKind(k, rs) <= |rs|
  {
    if rs != [] {
      KindWithin(k, rs[..|rs| - 1]);
    }
  }

  lemma {:induction false} TotalWithin(idSize: IdSize, rs: seq<Record>)
    ensures RecordAll(idSize, Fresh(), rs).gcTags.allSubRecords <= |rs|
  {
    hide RecordOne, RecordGc;
    if rs != [] {
      var before, r := RecordAll(idSize, Fresh(), rs[..|rs| - 1]), rs[|rs| - 1];
      TotalWithin(idSize, rs[..|rs| - 1]);
      RecordTables(idSize, before, r);
      if r.GcSegment? {
        DumpTables(idSize, before, r.gc);
        TotalRaised(before.gcTags, r.gc);
      }
    }
  }

  /** No tag counter exceeds the length of the file: below 4 GiB none leaves its 32 bits. */
  lemma CountersFit(idSize: IdSize, body: Bytes, k: Kind)
    ensures var s := RecordAll(idSize, Fresh(), Drain(HprofStep(idSize), 0, body).records);
            && (IsTopKind(k) ==> TopCounter(s.tags, k) <= |body|)
            && (IsGcKind(k) ==> GcCounter(s.gcTags, k) <= |body|)
            && s.gcTags.allSubRecords <= |body|
  {
    hide HprofStep, RecordAll, Drain, TopCounter, GcCounter, IsTopKind, IsGcKind, TotalWeight;
    var rs := Drain(HprofStep(idSize), 0, body).records;
    DrainYields(idSize, 0, body);
    TagsCounted(idSize, rs);
    GcTagsCounted(idSize, rs);
    KindWithin(k, rs);
    TotalWithin(idSize, rs);
  }
}
