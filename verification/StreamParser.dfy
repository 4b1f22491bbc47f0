/** The two objects of the parsing thread: the record parser with its mode, and the stream parser
    with its carry-over buffer. */
module StreamParser {
  import opened Nom
  import opened Records
  import opened Streaming
  import opened Sequences
  import RecordParser

  class HprofRecordParser {
    const topRecord: ConsumingParser<Record>
    const gcRecord: ConsumingParser<GcRecord>
    var heapDumpRemainingLen: u32

    constructor (idSize: IdSize)
      ensures Step() == HprofStep(idSize) && heapDumpRemainingLen == 0
    {
      topRecord, gcRecord := RecordParser.ParseTopRecord(idSize), RecordParser.ParseGcRecord(idSize);
      heapDumpRemainingLen := 0;
    }

    ghost function Step(): RecordStep {
      StepOf(topRecord, gcRecord)
    }

    /** One record; the mode changes only when a record is returned. */
    method ParseHprofRecord(i: Bytes) returns (res: PResult<Record>)
      modifies this
      ensures match Step()(old(heapDumpRemainingLen), i)
              case Ok(r, v) => res == Ok(r, v.0) && heapDumpRemainingLen == v.1
              case Incomplete(n) => res == Incomplete(n) && heapDumpRemainingLen == old(heapDumpRemainingLen)
              case Panic => res == Panic && heapDumpRemainingLen == old(heapDumpRemainingLen)
    {
      if heapDumpRemainingLen == 0 {
        res := topRecord(i);
        if res.Ok? && res.value.HeapDumpStart? {
          heapDumpRemainingLen := res.value.length;
        }
      } else {
        var sub := gcRecord(i);
        match sub {
          case Ok(r, gc) =>
            var gcSubLen := RecordParser.SaturatingSub(|i|, |r|);
            heapDumpRemainingLen := RecordParser.LeaveSubRecord(heapDumpRemainingLen, gcSubLen);
            res := Ok(r, GcSegment(gc));
          case Incomplete(n) => res := Incomplete(n);
          case Panic => res := Panic;
        }
      }
    }

    /** `lazy_many1` over this parser, pushing into a pooled vector: incomplete only when not even
        one record could be read. The parser never succeeds without consuming, so the error that
        `lazy_many1` reserves for that case cannot occur. */
    method ParseStreaming(i: Bytes, pooledVec: seq<Record>) returns (res: PResult<()>, vec: seq<Record>)
      modifies this
      ensures var d := Drain(Step(), old(heapDumpRemainingLen), i);
              match d.stop
              case Panicked => res == Panic
              case NeedMore(n) =>
                && res == (if d.records == [] then Incomplete(n) else Ok(d.rest, ()))
                && vec == pooledVec + d.records
                && heapDumpRemainingLen == d.remaining
    {
      ghost var p, m0 := Step(), heapDumpRemainingLen;
      ghost var seen: seq<Record> := [];
      vec := pooledVec;
      var rest := i;
      var first := true;
      assert Drain(p, m0, i).Prepend([]) == Drain(p, m0, i);
      while true
        invariant vec == pooledVec + seen && (first <==> seen == [])
        invariant Drain(p, m0, i) == Drain(p, heapDumpRemainingLen, rest).Prepend(seen)
        decreases |rest|
      {
        ghost var m := heapDumpRemainingLen;
        var one := ParseHprofRecord(rest);
        match one {
          case Panic =>
            return Panic, vec;
          case Incomplete(n) =>
            return if first then Incomplete(n) else Ok(rest, ()), vec;
          case Ok(r, record) =>
            DrainStep(p, m, rest, seen);
            seen := seen + [record];
            vec := vec + [record];
            rest, first := r, false;
        }
      }
    }
  }

  class HprofRecordStreamParser {
    const parser: HprofRecordParser
    const fileLen: nat
    var processedLen: nat
    var loopBuffer: Bytes
    var pooledVec: seq<Record>
    var needed: nat

    ghost function State(): ParserState
      reads this, parser
    {
      ParserState(loopBuffer, needed, parser.heapDumpRemainingLen, processedLen, pooledVec)
    }

    constructor (idSize: IdSize, fileLen: nat, processedLen: nat)
      ensures fresh(parser) && parser.Step() == HprofStep(idSize) && this.fileLen == fileLen
      ensures State() == ParserState([], 0, 0, processedLen, [])
    {
      parser := new HprofRecordParser(idSize);
      this.fileLen := fileLen;
      this.processedLen := processedLen;
      loopBuffer, pooledVec, needed := [], [], 0;
    }

    /** One turn of the loop up to the channel operations: append the chunk, then the gate and
        the parse. */
    method OnChunk(chunk: Bytes) returns (outcome: Outcome)
      modifies this, parser
      ensures outcome == Attempt(parser.Step(), old(State()).(loopBuffer := old(loopBuffer) + chunk))
      ensures !outcome.Crashed? ==> State() == outcome.state
    {
      loopBuffer := loopBuffer + chunk;
      if needed > |loopBuffer| {
        return Waiting(ParserState(loopBuffer, needed, parser.heapDumpRemainingLen, processedLen, pooledVec));
      }
      DrainStops(parser.Step(), parser.heapDumpRemainingLen, loopBuffer);
      var res, vec := parser.ParseStreaming(loopBuffer, pooledVec);
      match res {
        case Panic =>
          return Crashed;
        case Incomplete(n) =>
          needed := n + |loopBuffer|;
          return Waiting(ParserState(loopBuffer, needed, parser.heapDumpRemainingLen, processedLen, pooledVec));
        case Ok(rest, _) =>
          pooledVec := vec;
          var iterationProcessed := |loopBuffer| - |rest|;
          processedLen := processedLen + iterationProcessed;
          loopBuffer := loopBuffer[iterationProcessed..];
          return Parsed(ParserState(loopBuffer, needed, parser.heapDumpRemainingLen, processedLen, pooledVec));
      }
    }

    /** The whole loop over the chunks received. However the bytes are cut, the batches sent put
        together, the final mode and the bytes left over are those of one read of all the bytes,
        and the thread panics exactly when that read does. */
    method Start(chunks: seq<Bytes>) returns (batches: seq<seq<Record>>, progress: seq<nat>, panicked: bool)
      requires State() == ParserState([], 0, 0, processedLen, [])
      requires processedLen + |Flatten(chunks)| == fileLen
      modifies this, parser
      ensures var d := Drain(parser.Step(), 0, Flatten(chunks));
              && (panicked <==> d.stop.Panicked?)
              && Flatten(batches) <= d.records
              && (!panicked ==>
                    && Flatten(batches) == d.records
                    && parser.heapDumpRemainingLen == d.remaining
                    && loopBuffer == d.rest
                    && processedLen == old(processedLen) + |Flatten(chunks)| - |d.rest|)
      ensures forall b :: b in batches ==> b != []
      ensures |progress| == |batches| && RisesTo([old(processedLen)] + progress, fileLen)
    {
      hide InStep, Attempt, Drain, Flatten, RisesTo;
      ghost var p, start := parser.Step(), processedLen;
      batches, progress, panicked := [], [], false;
      InStepAtStart(p, start, chunks);
      for k := 0 to |chunks|
        invariant InStep(p, start, chunks, k, batches, progress, State())
      {
        Turn(p, start, chunks, k, batches, progress, State());
        var outcome := OnChunk(chunks[k]);
        match outcome {
          case Crashed =>
            panicked := true;
            return;
          case Waiting(_) =>
          case Parsed(_) =>
            assert processedLen <= fileLen;
            progress := progress + [processedLen];
            var nextPooledVec := [];
            nextPooledVec, pooledVec := pooledVec, nextPooledVec;
            batches := batches + [nextPooledVec];
            needed := 0;
            assert State() == outcome.state.(needed := 0, pooledVec := []);
        }
      }
      AllFed(p, start, chunks, batches, progress, State());
    }
  }

  // ---- the loop, turn by turn ----

  /** After `k` chunks: the parser keeps up with them, each batch sent holds a record, and there was
      one progress value for each, rising strictly. */
  ghost predicate InStep(
    p: RecordStep, start: nat, chunks: seq<Bytes>, k: nat, batches: seq<seq<Record>>, progress: seq<nat>,
    s: ParserState)
  {
    && k <= |chunks|
    && KeepsUp(p, start, Flatten(chunks[..k]), Flatten(batches), s)
    && AllSent(start, batches, progress, s.processedLen)
  }

  ghost predicate AllSent(start: nat, batches: seq<seq<Record>>, progress: seq<nat>, processedLen: nat) {
    && (forall b :: b in batches ==> b != [])
    && |progress| == |batches| && RisesTo([start] + progress, processedLen)
  }

  lemma InStepAtStart(p: RecordStep, start: nat, chunks: seq<Bytes>)
    ensures InStep(p, start, chunks, 0, [], [], ParserState([], 0, 0, start, []))
  {
    KeepsUpAtStart(p, start);
    assert chunks[..0] == [];
  }

  /** A parsed batch is sent with the length processed. */
  lemma BatchSent(start: nat, batches: seq<seq<Record>>, progress: seq<nat>, before: nat, batch: seq<Record>, now: nat)
    requires AllSent(start, batches, progress, before) && batch != [] && before < now
    ensures AllSent(start, batches + [batch], progress + [now], now)
    ensures Flatten(batches + [batch]) == Flatten(batches) + batch
  {
    hide RisesTo, Flatten;
    RisePush([start] + progress, before, now);
    assert [start] + (progress + [now]) == ([start] + progress) + [now];
    FlattenPush(batches, batch);
  }

  /** A panic on the bytes fed so far is a panic on all of them, after at least the same records. */
  lemma CrashFinal(p: RecordStep, chunks: seq<Bytes>, k: nat, sent: seq<Record>)
    requires k < |chunks|
    requires Drain(p, 0, Flatten(chunks[..k + 1])).stop.Panicked?
    requires sent <= Drain(p, 0, Flatten(chunks[..k + 1])).records
    ensures Drain(p, 0, Flatten(chunks)).stop.Panicked? && sent <= Drain(p, 0, Flatten(chunks)).records
  {
    hide Drain, Flatten;
    FlattenPrefix(chunks, k);
    var fed := Flatten(chunks[..k + 1]);
    var later := Flatten(chunks)[|fed|..];
    assert Flatten(chunks) == fed + later;
    DrainPrefix(p, 0, fed, later);
  }

  /** Where a turn leaves the loop: crashed as one read of everything would, still in step, or in step
      once the batch has been sent. */
  ghost predicate GoesOn(
    p: RecordStep, start: nat, chunks: seq<Bytes>, k: nat, batches: seq<seq<Record>>, progress: seq<nat>,
    outcome: Outcome)
  {
    if outcome.Crashed? then
      && Drain(p, 0, Flatten(chunks)).stop.Panicked?
      && Flatten(batches) <= Drain(p, 0, Flatten(chunks)).records
      && AllSent(start, batches, progress, start + |Flatten(chunks)|)
    else if outcome.Waiting? then
      InStep(p, start, chunks, k + 1, batches, progress, outcome.state)
    else
      && outcome.state.processedLen <= start + |Flatten(chunks)|
      && InStep(p, start, chunks, k + 1, batches + [outcome.state.pooledVec], progress + [outcome.state.processedLen],
                outcome.state.(needed := 0, pooledVec := []))
  }

  /** One turn of the loop. */
  lemma Turn(
    p: RecordStep, start: nat, chunks: seq<Bytes>, k: nat, batches: seq<seq<Record>>, progress: seq<nat>,
    s: ParserState)
    requires k < |chunks| && InStep(p, start, chunks, k, batches, progress, s)
    ensures GoesOn(p, start, chunks, k, batches, progress, Attempt(p, s.(loopBuffer := s.loopBuffer + chunks[k])))
  {
    hide Attempt, Drain, Flatten;
    ChunkKeepsUp(p, start, Flatten(chunks[..k]), Flatten(batches), s, chunks[k]);
    FlattenPrefix(chunks, k);
    match Attempt(p, s.(loopBuffer := s.loopBuffer + chunks[k]))
    case Crashed => CrashFinal(p, chunks, k, Flatten(batches));
    case Waiting(_) =>
    case Parsed(t) => BatchSent(start, batches, progress, s.processedLen, t.pooledVec, t.processedLen);
  }

  /** Once all chunks have been fed, the parser has kept up with the whole input. */
  lemma AllFed(
    p: RecordStep, start: nat, chunks: seq<Bytes>, batches: seq<seq<Record>>, progress: seq<nat>, s: ParserState)
    requires InStep(p, start, chunks, |chunks|, batches, progress, s)
    ensures KeepsUp(p, start, Flatten(chunks), Flatten(batches), s)
    ensures AllSent(start, batches, progress, start + |Flatten(chunks)|)
  {
    hide Drain, Flatten;
    assert chunks[..|chunks|] == chunks;
  }

  lemma {:induction false} FlattenPrefix<T>(ss: seq<seq<T>>, k: nat)
    requires k < |ss|
    ensures Flatten(ss[..k + 1]) == Flatten(ss[..k]) + ss[k]
    ensures Flatten(ss[..k + 1]) <= Flatten(ss)
    decreases |ss| - k
  {
    assert ss[..k + 1] == ss[..k] + [ss[k]];
    FlattenPush(ss[..k], ss[k]);
    if k + 1 < |ss| {
      FlattenPrefix(ss, k + 1);
    } else {
      assert ss[..k + 1] == ss;
    }
  }
}
