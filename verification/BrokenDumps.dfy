/** Files on which the analysis gives no report, as bytes of the format. */
module BrokenDumps {
  import opened Nom
  import opened Records
  import opened Streaming
  import opened Encoding
  import Framing
  import Pipeline
  import opened Recorder
  import opened Accounting
  import opened InstanceSize
  import opened Report
  import opened Meaning
  import opened Slurp

  // ---- a class named by an array marker and nothing else ----

  const MARKED_LOAD := LoadClassData(1, 5, 0, 7)
  const MARKED_ARRAY: GcRecord := ObjectArrayDump(1, 0, 0, 5)

  /** The string `[L`, a class of that name, and an array of that class. */
  function BareMarkerDump(): seq<WireRecord> {
    [WireTop(0, Utf8String(7, OBJECT_ARRAY)),
     WireTop(0, LoadClass(MARKED_LOAD)),
     WireSegment(true, 0, [WireDump(MARKED_ARRAY, [])])]
  }

  function BareMarkerRecords(length: u32): seq<Record> {
    [Utf8String(7, OBJECT_ARRAY), LoadClass(MARKED_LOAD), HeapDumpStart(length), GcSegment(MARKED_ARRAY)]
  }

  lemma ArraySegment(idSize: IdSize)
    ensures GcFits(WireDump(MARKED_ARRAY, []), idSize)
    ensures EGcs([WireDump(MARKED_ARRAY, [])], idSize) == EGc(WireDump(MARKED_ARRAY, []), idSize)
    ensures |EGc(WireDump(MARKED_ARRAY, []), idSize)| < 100
  {
    var w := WireDump(MARKED_ARRAY, []);
    assert [w][1..] == [];
  }

  lemma BareMarkerFits(idSize: IdSize)
    ensures forall k :: 0 <= k < |BareMarkerDump()| ==> WireFits(BareMarkerDump()[k], idSize)
    ensures Framing.AllCountsAgree(BareMarkerDump())
  {
    hide EGc, GcFits, EGcs;
    ArraySegment(idSize);
    var ws := BareMarkerDump();
    assert WireFits(ws[0], idSize) && WireFits(ws[1], idSize) && WireFits(ws[2], idSize);
  }

  function BareMarkerFile(idSize: IdSize): Bytes {
    BareMarkerFits(idSize);
    EDump(BareMarkerDump(), idSize)
  }

  lemma BareMarkerExpected(idSize: IdSize) returns (length: u32)
    ensures forall k :: 0 <= k < |BareMarkerDump()| ==> WireFits(BareMarkerDump()[k], idSize)
    ensures ExpectedAll(BareMarkerDump(), idSize) == BareMarkerRecords(length)
  {
    hide EGc, GcFits, EGcs, RecordFits;
    BareMarkerFits(idSize);
    ArraySegment(idSize);
    var ws, w := BareMarkerDump(), WireDump(MARKED_ARRAY, []);
    length := |EGcs([w], idSize)|;
    assert ws[1..] == [ws[1], ws[2]] && ws[1..][1..] == [ws[2]] && ws[1..][1..][1..] == [];
    assert ExpectedSubs([w]) == [GcSegment(MARKED_ARRAY)];
    assert ExpectedAll([ws[2]], idSize) == [HeapDumpStart(length), GcSegment(MARKED_ARRAY)];
  }

  lemma BareMarkerStream(length: u32)
    ensures var rs := BareMarkerRecords(length);
            && NameInStream(5, rs) == Some(OBJECT_ARRAY)
            && (forall c: u64 :: Instances(c, rs) == 0)
            && (forall idSize: IdSize :: ObjectArraySizes(idSize, 5, rs) != [])
  {
    hide ObjectArraySize;
    var rs := BareMarkerRecords(length);
    var one, two, three := [rs[0]], [rs[0], rs[1]], [rs[0], rs[1], rs[2]];
    assert one[..0] == [] && two[..1] == one && three[..2] == two && rs[..3] == three;
    assert LastLoad(5, two) == LastLoad(5, three) == LastLoad(5, rs) == Some(MARKED_LOAD);
    assert LastString(7, one) == LastString(7, two) == LastString(7, three) == LastString(7, rs) == Some(OBJECT_ARRAY);
    forall c: u64
      ensures Instances(c, rs) == 0
    {
      assert Instances(c, []) == 0 && Instances(c, one) == 0 && Instances(c, two) == 0 && Instances(c, three) == 0;
    }
  }

  lemma BareMarkerState(idSize: IdSize, length: u32)
    ensures var s := RecordAll(idSize, Fresh(), BareMarkerRecords(length));
            ChainsEnd(s) && 5 in s.objectArrays && ClassName(s, 5) == OBJECT_ARRAY && !NamesCut(s)
  {
    hide RecordAll, BareMarkerRecords, ResolvedName, NameInStream, Instances, ObjectArraySizes;
    var rs := BareMarkerRecords(length);
    var s := RecordAll(idSize, Fresh(), rs);
    BareMarkerStream(length);
    NamesFromStream(idSize, rs, 5);
    ObjectArraysTallied(idSize, rs, 5);
    forall c: u64
      ensures c !in s.instanceCounts
    {
      InstancesCounted(idSize, rs, c);
    }
    assert SlashToDot(OBJECT_ARRAY) == OBJECT_ARRAY;
  }

  /** Every analysis of that file, of any schedule and read size, panics. */
  lemma BareMarkerPanics(idSize: IdSize, readSize: nat, schedule: seq<Pipeline.Action>)
    requires Finishes(Analysis(idSize, BareMarkerFile(idSize), readSize), schedule)
    ensures FinalState(idSize, BareMarkerFile(idSize), readSize, schedule).main == Pipeline.MainPanicked
  {
    hide EDump, WireFits, ExpectedAll, FinalState, BareMarkerDump, RecordAll, ChainsEnd, NamesCut, ClassName;
    BareMarkerFits(idSize);
    var length := BareMarkerExpected(idSize);
    SlurpReadsDump(BareMarkerDump(), idSize, readSize, schedule);
    BareMarkerState(idSize, length);
  }

  // ---- a class that names itself as its superclass ----

  const LOOPED: ClassDumpFields := ClassDumpFields(1, 0, 1, 0, [], [], [])
  const LOOPED_CLASS: WireGc := WireClass(LOOPED, (0, 0, 0, 0, 0))
  const LOOPED_INSTANCE: GcRecord := InstanceDump(2, 0, 1, 0)

  /** Such a class and an instance of it. */
  function SelfSuperDump(): seq<WireRecord> {
    [WireSegment(true, 0, [LOOPED_CLASS, WireDump(LOOPED_INSTANCE, [])])]
  }

  function SelfSuperRecords(length: u32): seq<Record> {
    [HeapDumpStart(length), GcSegment(ClassDump(LOOPED)), GcSegment(LOOPED_INSTANCE)]
  }

  lemma LoopedSegment(idSize: IdSize)
    ensures GcFits(LOOPED_CLASS, idSize) && GcFits(WireDump(LOOPED_INSTANCE, []), idSize)
    ensures |EGc(LOOPED_CLASS, idSize)| < 100 && |EGc(WireDump(LOOPED_INSTANCE, []), idSize)| < 100
  {
  }

  lemma SelfSuperFits(idSize: IdSize)
    ensures forall k :: 0 <= k < |SelfSuperDump()| ==> WireFits(SelfSuperDump()[k], idSize)
    ensures Framing.AllCountsAgree(SelfSuperDump())
  {
    hide EGc, GcFits;
    LoopedSegment(idSize);
    var subs := [LOOPED_CLASS, WireDump(LOOPED_INSTANCE, [])];
    assert subs[1..] == [subs[1]] && subs[1..][1..] == [];
    assert EGcs([subs[1]], idSize) == EGc(subs[1], idSize) + [];
    assert |EGcs(subs, idSize)| < 200;
    assert WireFits(SelfSuperDump()[0], idSize);
  }

  function SelfSuperFile(idSize: IdSize): Bytes {
    SelfSuperFits(idSize);
    EDump(SelfSuperDump(), idSize)
  }

  lemma SelfSuperExpected(idSize: IdSize) returns (length: u32)
    ensures forall k :: 0 <= k < |SelfSuperDump()| ==> WireFits(SelfSuperDump()[k], idSize)
    ensures ExpectedAll(SelfSuperDump(), idSize) == SelfSuperRecords(length)
  {
    hide EGcs, GcFits;
    SelfSuperFits(idSize);
    var subs, ws := [LOOPED_CLASS, WireDump(LOOPED_INSTANCE, [])], SelfSuperDump();
    assert WireFits(ws[0], idSize);
    length := |EGcs(subs, idSize)|;
    assert ws[1..] == [];
    assert ExpectedSubs(subs) == [GcSegment(ClassDump(LOOPED)), GcSegment(LOOPED_INSTANCE)];
  }

  lemma SelfSuperStream(length: u32)
    ensures var rs := SelfSuperRecords(length);
            FirstDump(1, rs) == Some(LOOPED) && Instances(1, rs) == 1
  {
    var rs := SelfSuperRecords(length);
    var one, two := [rs[0]], [rs[0], rs[1]];
    assert one[..0] == [] && two[..1] == one && rs[..2] == two;
    assert FirstDump(1, one) == None && FirstDump(1, two) == Some(LOOPED);
    assert Instances(1, []) == 0 && Instances(1, one) == 0 && Instances(1, two) == 0;
  }

  lemma SelfSuperLoops(t: ClassTable, c: u64)
    requires c in t && t[c].superClassObjectId == c && c != 0
    ensures OnCycle(t, c) && RunsIntoCycle(t, c) && !Ends(t, c)
  {
    assert NthSuper(t, c, 1) == Some(c);
    assert NthSuper(t, c, 0) == Some(c);
    EndsUnlessCycle(t, c);
  }

  lemma SelfSuperState(idSize: IdSize, length: u32)
    ensures !ChainsEnd(RecordAll(idSize, Fresh(), SelfSuperRecords(length)))
  {
    hide RecordAll, SelfSuperRecords, FirstDump, Instances, Ends;
    var rs := SelfSuperRecords(length);
    var s := RecordAll(idSize, Fresh(), rs);
    SelfSuperStream(length);
    DefinitionsKept(idSize, rs, 1);
    InstancesCounted(idSize, rs, 1);
    SelfSuperLoops(s.classes, 1);
    assert 1 in s.instanceCounts;
  }

  /** Every analysis of that file overflows the stack. */
  lemma SelfSuperAborts(idSize: IdSize, readSize: nat, schedule: seq<Pipeline.Action>)
    requires Finishes(Analysis(idSize, SelfSuperFile(idSize), readSize), schedule)
    ensures FinalState(idSize, SelfSuperFile(idSize), readSize, schedule).main == Pipeline.Aborted
  {
    hide EDump, WireFits, ExpectedAll, FinalState, SelfSuperDump, RecordAll, ChainsEnd, NamesCut;
    SelfSuperFits(idSize);
    var length := SelfSuperExpected(idSize);
    SlurpReadsDump(SelfSuperDump(), idSize, readSize, schedule);
    SelfSuperState(idSize, length);
  }

  // ---- CPU samples at the end of a file ----

  /** A well-formed dump, then a record of CPU samples that counts more samples than traces. */
  function SamplesFile(ws: seq<WireRecord>, w: WireRecord, idSize: IdSize): Bytes
    requires forall k :: 0 <= k < |ws| ==> WireFits(ws[k], idSize)
    requires WireFits(w, idSize)
  {
    EDump(ws, idSize) + EWire(w, idSize)
  }

  lemma SamplesRead(ws: seq<WireRecord>, w: WireRecord, idSize: IdSize)
    requires forall k :: 0 <= k < |ws| ==> WireFits(ws[k], idSize)
    requires Framing.AllCountsAgree(ws) && WireFits(w, idSize)
    requires w.WireTop? && w.record.CpuSamples? && w.record.totalNumberOfSamples > w.record.numberOfTraces
    ensures var d := Drain(HprofStep(idSize), 0, SamplesFile(ws, w, idSize));
            d.records == ExpectedAll(ws, idSize) && d.stop.NeedMore?
  {
    hide HprofStep, EDump, EWire, WireFits, ExpectedAll, Framing.CountsAgree;
    Framing.DumpRead(ws, idSize, EWire(w, idSize));
    Framing.TrailingSamplesLost(w, idSize);
    assert ExpectedAll(ws, idSize) + [] == ExpectedAll(ws, idSize);
  }

  /** Every analysis of that file ends as if the record were not there: it is lost without a word. */
  lemma SamplesSilentlyLost(ws: seq<WireRecord>, w: WireRecord, idSize: IdSize, readSize: nat,
                            schedule: seq<Pipeline.Action>)
    requires forall k :: 0 <= k < |ws| ==> WireFits(ws[k], idSize)
    requires Framing.AllCountsAgree(ws) && WireFits(w, idSize)
    requires w.WireTop? && w.record.CpuSamples? && w.record.totalNumberOfSamples > w.record.numberOfTraces
    requires Finishes(Analysis(idSize, SamplesFile(ws, w, idSize), readSize), schedule)
    ensures FinalState(idSize, SamplesFile(ws, w, idSize), readSize, schedule).main ==
            PlainVerdict(idSize, ExpectedAll(ws, idSize), false)
  {
    hide Drain, HprofStep, WireFits, SamplesFile, ExpectedAll, FinalState, PlainVerdict, Framing.CountsAgree;
    SamplesRead(ws, w, idSize);
    SlurpRefinesPlainRead(idSize, SamplesFile(ws, w, idSize), readSize, schedule);
  }

  /** Two samples in one trace. */
  const ONE_TRACE: WireRecord := WireTop(0, CpuSamples(2, 1, [CpuSample(2, 0)]))

  lemma OneTraceFits(idSize: IdSize)
    ensures WireFits(ONE_TRACE, idSize) && !Framing.CountsAgree(ONE_TRACE.record)
  {
    var sample := CpuSample(2, 0);
    assert [sample][1..] == [];
    assert |EAll(SampleEncoder(), [sample])| == 8;
  }

  function OneTraceFile(idSize: IdSize): Bytes {
    OneTraceFits(idSize);
    EWire(ONE_TRACE, idSize)
  }

  /** A file with that record alone: every analysis returns the report of an empty file. */
  lemma OneTraceLost(idSize: IdSize, readSize: nat, schedule: seq<Pipeline.Action>)
    requires Finishes(Analysis(idSize, OneTraceFile(idSize), readSize), schedule)
    ensures FinalState(idSize, OneTraceFile(idSize), readSize, schedule).main == Pipeline.ReturnedOk(Fresh())
  {
    hide WireFits, EWire, FinalState, Finishes, ChainsEnd, NamesCut, Drain;
    OneTraceFits(idSize);
    assert [] + EWire(ONE_TRACE, idSize) == EWire(ONE_TRACE, idSize);
    assert SamplesFile([], ONE_TRACE, idSize) == OneTraceFile(idSize);
    SamplesSilentlyLost([], ONE_TRACE, idSize, readSize, schedule);
    FreshReports();
  }

  lemma FreshReports()
    ensures ChainsEnd(Fresh()) && NamesCut(Fresh())
  {
  }
}
