/** One analysis from file to report: the pipeline running the HPROF parser and the recorder. */
module Slurp {
  import opened Nom
  import opened Records
  import opened Streaming
  import opened Encoding
  import Framing
  import Pipeline
  import PipelineProofs
  import opened Recorder
  import InstanceSize
  import opened Report
  import Meaning
  import Widths

  /** How building the report ends: sizing the classes comes first and does not return on a cycle of
      superclasses; naming the arrays comes last and panics on a name it cannot cut. */
  function ReportOf(s: RecorderState): Pipeline.Building {
    if !ChainsEnd(s) then Pipeline.BuildOverflows
    else if !NamesCut(s) then Pipeline.BuildPanics
    else Pipeline.Built
  }

  /** The analysis of a file with the given contents after its header. */
  function Analysis(idSize: IdSize, body: Bytes, readSize: nat): Pipeline.Config<RecorderState> {
    Pipeline.Config(HprofStep(idSize), RecordWith(idSize), (s: RecorderState) => ReportOf(s), Fresh(), body, readSize)
  }

  /** The header: the format and version with its closing zero, the identifier size, the time. */
  lemma HeaderLength()
    ensures Pipeline.HEADER_LEN == |Ascii("JAVA PROFILE 1.0.2")| + 1 + |E32(8)| + |E64(0)|
  {
  }

  /** A run that has come to its end. */
  ghost predicate Finishes(cfg: Pipeline.Config<RecorderState>, schedule: seq<Pipeline.Action>) {
    cfg.Valid() && Pipeline.Run(cfg, schedule).Some? && Pipeline.Run(cfg, schedule).value.Finished()
  }

  function FinalState(idSize: IdSize, body: Bytes, readSize: nat, schedule: seq<Pipeline.Action>)
    : Pipeline.State<RecorderState>
    requires Finishes(Analysis(idSize, body, readSize), schedule)
  {
    Pipeline.Run(Analysis(idSize, body, readSize), schedule).value
  }

  lemma SomeRunFinishes(idSize: IdSize, body: Bytes, readSize: nat) returns (schedule: seq<Pipeline.Action>)
    requires readSize > 0
    ensures Finishes(Analysis(idSize, body, readSize), schedule)
  {
    schedule := PipelineProofs.RunCompletes(Analysis(idSize, body, readSize), []);
  }

  /** What the plain program does: record the records one after the other, then build the report. */
  function PlainVerdict(idSize: IdSize, records: seq<Record>, readPanics: bool): Pipeline.Main<RecorderState> {
    var s := RecordAll(idSize, Fresh(), records);
    if !ChainsEnd(s) then Pipeline.Aborted
    else if !NamesCut(s) then Pipeline.MainPanicked
    else if readPanics then Pipeline.ReturnedErr
    else Pipeline.ReturnedOk(s)
  }

  /** The concurrent analysis is the plain one: read the whole file, record the records one after the
      other, build the report. Where the read panics, so with the records sent on by then. */
  lemma SlurpRefinesPlainRead(idSize: IdSize, body: Bytes, readSize: nat, schedule: seq<Pipeline.Action>)
    requires Finishes(Analysis(idSize, body, readSize), schedule)
    ensures var s, d := FinalState(idSize, body, readSize, schedule), Drain(HprofStep(idSize), 0, body);
            && s.main == PlainVerdict(idSize, s.recorded, d.stop.Panicked?)
            && s.recorded <= d.records
            && (!d.stop.Panicked? ==> s.recorded == d.records)
  {
    hide Drain, ChainsEnd, NamesCut;
    PipelineProofs.FinishedRun(Analysis(idSize, body, readSize), schedule);
  }

  /** A report is returned if and only if the read does not panic, no counted class runs into a cycle
      of superclasses, and the name of every counted array can be cut. */
  lemma ReportExactly(idSize: IdSize, body: Bytes, readSize: nat, schedule: seq<Pipeline.Action>)
    requires Finishes(Analysis(idSize, body, readSize), schedule)
    ensures var d := Drain(HprofStep(idSize), 0, body);
            var final := RecordAll(idSize, Fresh(), d.records);
            FinalState(idSize, body, readSize, schedule).main == Pipeline.ReturnedOk(final)
            <==> && !d.stop.Panicked?
                 && (forall c :: c in final.instanceCounts ==> !InstanceSize.RunsIntoCycle(final.classes, c))
                 && (forall c :: c in final.objectArrays ==> !Uncuttable(ClassName(final, c)))
  {
    hide Drain, RecordAll, InstanceSize.RunsIntoCycle, InstanceSize.Ends, Uncuttable, ClassName;
    SlurpRefinesPlainRead(idSize, body, readSize, schedule);
    var d := Drain(HprofStep(idSize), 0, body);
    var final := RecordAll(idSize, Fresh(), d.records);
    forall c: u64
      ensures InstanceSize.Ends(final.classes, c) <==> !InstanceSize.RunsIntoCycle(final.classes, c)
    {
      InstanceSize.EndsUnlessCycle(final.classes, c);
    }
  }

  /** From writer to report: on a file that encodes a list of records, every schedule and every read
      size end as recording exactly those records does, bodies of arrays and instances erased. */
  lemma SlurpReadsDump(ws: seq<WireRecord>, idSize: IdSize, readSize: nat, schedule: seq<Pipeline.Action>)
    requires forall k :: 0 <= k < |ws| ==> WireFits(ws[k], idSize)
    requires Framing.AllCountsAgree(ws)
    requires Finishes(Analysis(idSize, EDump(ws, idSize), readSize), schedule)
    ensures FinalState(idSize, EDump(ws, idSize), readSize, schedule).main ==
            PlainVerdict(idSize, ExpectedAll(ws, idSize), false)
  {
    hide WireFits, Framing.CountsAgree, EDump, ExpectedAll, PlainVerdict, Drain;
    SlurpRefinesPlainRead(idSize, EDump(ws, idSize), readSize, schedule);
    Framing.WholeDumpRead(ws, idSize);
  }

  /** Reports agree: two analyses of one file, whatever their read sizes and schedules and however
      their hash maps iterate, have the same rows in the same order, and the bytes of the rows are
      the shallow sizes of the objects read, which fit 64 bits for files below 64 GiB. */
  lemma SameReport(idSize: IdSize, body: Bytes,
                   readSize: nat, schedule: seq<Pipeline.Action>, state: RecorderState, it: Iteration,
                   rows: seq<ClassAllocationStats>,
                   readSize': nat, schedule': seq<Pipeline.Action>, state': RecorderState, it': Iteration,
                   rows': seq<ClassAllocationStats>)
    requires Finishes(Analysis(idSize, body, readSize), schedule)
    requires Finishes(Analysis(idSize, body, readSize'), schedule')
    requires FinalState(idSize, body, readSize, schedule).main == Pipeline.ReturnedOk(state)
    requires FinalState(idSize, body, readSize', schedule').main == Pipeline.ReturnedOk(state')
    requires IteratesOver(it, state) && IteratesOver(it', state')
    requires IsReport(state, idSize, it, rows) && IsReport(state', idSize, it', rows')
    ensures state == state' && rows == rows' && ChainsEnd(state) && NamesCut(state)
    ensures TotalBytes(rows) ==
            Meaning.ShallowTotal(state.classes, idSize, Drain(HprofStep(idSize), 0, body).records)
    ensures Widths.ShortChains(state) && |body| < 0x10_0000_0000 ==> TotalBytes(rows) < 0x1_0000_0000_0000_0000
  {
    hide IteratesOver, IsReport, Drain, ChainsEnd, NamesCut, FinalState, Finishes, Meaning.ShallowTotal;
    SlurpRefinesPlainRead(idSize, body, readSize, schedule);
    SlurpRefinesPlainRead(idSize, body, readSize', schedule');
    OrderIndependent(state, idSize, it, it', rows, rows');
    Meaning.TotalFromStream(idSize, Drain(HprofStep(idSize), 0, body).records, it, rows);
    if Widths.ShortChains(state) {
      Widths.ReportFits(idSize, body, it, rows);
    }
  }
}
