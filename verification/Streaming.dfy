/** Repeated parsing: reading as many records as the bytes allow, and the carry-over buffer with
    its `needed` gate. Stated for any record step that reacts to more input as a streaming parser
    must, so that nothing here depends on the record formats. */
module Streaming {
  import opened Nom
  import opened Records
  import RecordParser

  ghost predicate StepStreams(p: (u32, Bytes) -> PResult<(Record, u32)>) {
    forall m: u32, i: Bytes, x: Bytes {:trigger StreamsOn(p(m, i), p(m, i + x), i, x)} ::
      && StreamsOn(p(m, i), p(m, i + x), i, x)
      && (p(m, i).Ok? ==> |p(m, i).rest| < |i|)
      && (i == [] ==> p(m, i) == Incomplete(1))
  }

  type RecordStep = p: (u32, Bytes) -> PResult<(Record, u32)> | StepStreams(p)
    witness ((m: u32, i: Bytes) => if i == [] then Incomplete(1) else Panic)

  /** The two-mode record parser as a step. */
  function StepOf(top: ConsumingParser<Record>, gc: ConsumingParser<GcRecord>): RecordStep {
    var p := (m: u32, i: Bytes) => RecordParser.TwoModes(top, gc, m, i);
    assert StepStreams(p) by {
      forall m: u32, i: Bytes, x: Bytes {:trigger StreamsOn(p(m, i), p(m, i + x), i, x)}
        ensures StreamsOn(p(m, i), p(m, i + x), i, x) && (p(m, i).Ok? ==> |p(m, i).rest| < |i|)
        ensures i == [] ==> p(m, i) == Incomplete(1)
      {
        RecordParser.TwoModesStream(top, gc, m, i, x);
      }
    }
    p
  }

  /** The record parser of the program, for a given identifier size. */
  function HprofStep(idSize: IdSize): RecordStep {
    StepOf(RecordParser.ParseTopRecord(idSize), RecordParser.ParseGcRecord(idSize))
  }

  lemma StepExtends(p: RecordStep, m: u32, i: Bytes, x: Bytes)
    ensures Extends(p(m, i), p(m, i + x), x)
    ensures p(m, i).Ok? ==> IsTail(i, p(m, i).rest) && |p(m, i).rest| < |i|
    ensures p(m, i).Incomplete? ==> p(m, i).needed > 0
    ensures i == [] ==> p(m, i) == Incomplete(1)
  {
    assert StreamsOn(p(m, i), p(m, i + x), i, x);
  }

  // ---- reading everything that can be read ----

  datatype Stop = NeedMore(needed: nat) | Panicked

  datatype Drained = Drained(records: seq<Record>, remaining: u32, rest: Bytes, stop: Stop) {
    function Prepend(first: seq<Record>): Drained {
      this.(records := first + records)
    }
  }

  /** A plain read of `i` from mode `m`: record after record until the bytes run short. */
  function Drain(p: RecordStep, m: u32, i: Bytes): Drained
    decreases |i|
  {
    match p(m, i)
    case Ok(r, v) =>
      StepExtends(p, m, i, []);
      Drain(p, v.1, r).Prepend([v.0])
    case Incomplete(n) => Drained([], m, i, NeedMore(n))
    case Panic => Drained([], m, i, Panicked)
  }

  lemma DrainStep(p: RecordStep, m: u32, i: Bytes, seen: seq<Record>)
    requires p(m, i).Ok?
    ensures |p(m, i).rest| < |i|
    ensures var Ok(r, v) := p(m, i);
            Drain(p, m, i).Prepend(seen) == Drain(p, v.1, r).Prepend(seen + [v.0])
  {
    StepExtends(p, m, i, []);
    var Ok(r, v) := p(m, i);
    var later := Drain(p, v.1, r).records;
    assert seen + ([v.0] + later) == (seen + [v.0]) + later;
  }

  /** Where a read stops for lack of bytes, the next record is incomplete by exactly that much. */
  lemma {:induction false} DrainStops(p: RecordStep, m: u32, i: Bytes)
    ensures var d := Drain(p, m, i);
            && IsTail(i, d.rest)
            && (d.records != [] ==> |d.rest| < |i|)
            && (d.records == [] ==> d.rest == i && d.remaining == m)
            && match d.stop
               case NeedMore(n) => n > 0 && p(d.remaining, d.rest) == Incomplete(n)
               case Panicked => p(d.remaining, d.rest) == Panic
    decreases |i|
  {
    StepExtends(p, m, i, []);
    if p(m, i).Ok? {
      var r, m' := p(m, i).rest, p(m, i).value.1;
      DrainStops(p, m', r);
      TailTransitive(i, r, Drain(p, m', r).rest);
    }
  }

  /** Reading `i + x` at once is reading `i`, then resuming on what it left followed by `x`. */
  lemma {:induction false} DrainExtends(p: RecordStep, m: u32, i: Bytes, x: Bytes)
    ensures var d := Drain(p, m, i);
            match d.stop
            case NeedMore(_) => Drain(p, m, i + x) == Drain(p, d.remaining, d.rest + x).Prepend(d.records)
            case Panicked => Drain(p, m, i + x) == d.(rest := d.rest + x)
    decreases |i|
  {
    StepExtends(p, m, i, x);
    var d := Drain(p, m, i);
    match p(m, i)
    case Ok(r, v) =>
      DrainExtends(p, v.1, r, x);
      var d' := Drain(p, v.1, r);
      if d'.stop.NeedMore? {
        var e := Drain(p, d'.remaining, d'.rest + x);
        assert [v.0] + (d'.records + e.records) == ([v.0] + d'.records) + e.records;
      }
    case Incomplete(n) =>
      assert [] + Drain(p, m, i + x).records == Drain(p, m, i + x).records;
    case Panic =>
  }

  /** A longer input only adds records, and cannot undo a panic. */
  lemma DrainPrefix(p: RecordStep, m: u32, i: Bytes, x: Bytes)
    ensures Drain(p, m, i).records <= Drain(p, m, i + x).records
    ensures Drain(p, m, i).stop.Panicked? ==> Drain(p, m, i + x).stop.Panicked?
  {
    DrainExtends(p, m, i, x);
  }

  // ---- the carry-over buffer and the gate ----

  datatype ParserState = ParserState(
    loopBuffer: Bytes,
    needed: nat,
    remaining: u32,
    processedLen: nat,
    pooledVec: seq<Record>)

  datatype Outcome = Waiting(state: ParserState) | Parsed(state: ParserState) | Crashed

  /** One turn of the parser loop once a chunk has been appended: the gate, then the parse. */
  function Attempt(p: RecordStep, s: ParserState): Outcome {
    if s.needed > |s.loopBuffer| then
      Waiting(s)
    else
      var d := Drain(p, s.remaining, s.loopBuffer);
      match d.stop
      case Panicked => Crashed
      case NeedMore(n) =>
        if d.records == [] then
          Waiting(s.(needed := n + |s.loopBuffer|))
        else
          DrainStops(p, s.remaining, s.loopBuffer);
          Parsed(s.(
            loopBuffer := d.rest,
            remaining := d.remaining,
            processedLen := s.processedLen + (|s.loopBuffer| - |d.rest|),
            pooledVec := s.pooledVec + d.records))
  }

  /** While the gate is shut, the buffer starts with a record that lacks exactly the bytes the
      gate waits for: every attempt it skips would have come back incomplete. */
  ghost predicate GateSound(p: RecordStep, s: ParserState) {
    s.needed > |s.loopBuffer| ==> p(s.remaining, s.loopBuffer) == Incomplete(s.needed - |s.loopBuffer|)
  }

  lemma GateStaysSound(p: RecordStep, s: ParserState, x: Bytes)
    requires GateSound(p, s)
    ensures GateSound(p, s.(loopBuffer := s.loopBuffer + x))
  {
    StepExtends(p, s.remaining, s.loopBuffer, x);
  }

  /** No bytes shorter than the gate asks for can complete the record it waits for. */
  lemma GateLosesNothing(p: RecordStep, s: ParserState, x: Bytes)
    requires GateSound(p, s)
    requires |s.loopBuffer| + |x| < s.needed
    ensures Drain(p, s.remaining, s.loopBuffer + x) ==
            Drained([], s.remaining, s.loopBuffer + x, NeedMore(s.needed - |s.loopBuffer| - |x|))
  {
    StepExtends(p, s.remaining, s.loopBuffer, x);
  }

  /** An attempt behind a sound gate does what an ungated read of the buffer does, and leaves the
      buffer at an incomplete record with the gate sound again. */
  lemma AttemptIsDrain(p: RecordStep, s: ParserState)
    requires GateSound(p, s)
    ensures var d := Drain(p, s.remaining, s.loopBuffer);
            match Attempt(p, s)
            case Crashed => d.stop.Panicked?
            case Waiting(t) =>
              && d == Drained([], t.remaining, t.loopBuffer, d.stop) && d.stop.NeedMore?
              && t == s.(needed := t.needed) && t.needed > |t.loopBuffer| && GateSound(p, t)
            case Parsed(t) =>
              && d.stop.NeedMore? && d.records != []
              && t.pooledVec == s.pooledVec + d.records && t.remaining == d.remaining && t.loopBuffer == d.rest
              && t.processedLen - s.processedLen == |s.loopBuffer| - |d.rest| > 0
              && Drain(p, t.remaining, t.loopBuffer) == Drained([], t.remaining, t.loopBuffer, d.stop)
  {
    DrainStops(p, s.remaining, s.loopBuffer);
    StepExtends(p, s.remaining, s.loopBuffer, []);
  }

  /** Between two chunks the gate is shut or not set; of the bytes fed so far, the records sent are
      all that one read of them would give, and the carry-over buffer and mode are what that read
      would leave. */
  ghost predicate KeepsUp(p: RecordStep, start: nat, fed: Bytes, sent: seq<Record>, s: ParserState) {
    var d := Drain(p, 0, fed);
    && d.stop.NeedMore? && d == Drained(sent, s.remaining, s.loopBuffer, d.stop)
    && s.processedLen + |s.loopBuffer| == start + |fed|
    && s.pooledVec == []
    && GateSound(p, s) && (s.needed > 0 ==> s.needed > |s.loopBuffer|)
  }

  lemma KeepsUpAtStart(p: RecordStep, start: nat)
    ensures KeepsUp(p, start, [], [], ParserState([], 0, 0, start, []))
  {
    StepExtends(p, 0, [], []);
  }

  /** Each chunk, however it is cut, keeps the parser in step with a read of everything fed. */
  lemma ChunkKeepsUp(p: RecordStep, start: nat, fed: Bytes, sent: seq<Record>, s: ParserState, chunk: Bytes)
    requires KeepsUp(p, start, fed, sent, s)
    ensures match Attempt(p, s.(loopBuffer := s.loopBuffer + chunk))
            case Crashed => Drain(p, 0, fed + chunk).stop.Panicked? && sent <= Drain(p, 0, fed + chunk).records
            case Waiting(t) => t.processedLen == s.processedLen && KeepsUp(p, start, fed + chunk, sent, t)
            case Parsed(t) =>
              && t.pooledVec != [] && s.processedLen < t.processedLen
              && KeepsUp(p, start, fed + chunk, sent + t.pooledVec, t.(needed := 0, pooledVec := []))
  {
    var s' := s.(loopBuffer := s.loopBuffer + chunk);
    var d := Drain(p, s.remaining, s'.loopBuffer);
    assert Drain(p, 0, fed + chunk) == d.Prepend(sent) by { DrainExtends(p, 0, fed, chunk); }
    assert GateSound(p, s') by { GateStaysSound(p, s, chunk); }
    AttemptIsDrain(p, s');
    match Attempt(p, s')
    case Crashed =>
    case Waiting(t) => assert sent + [] == sent;
    case Parsed(t) => assert [] + d.records == d.records;
  }
}
