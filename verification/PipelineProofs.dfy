/** What every schedule of the pipeline keeps, and what every finished one returns. */
module PipelineProofs {
  import opened Nom
  import opened Records
  import opened Streaming
  import opened Sequences
  import opened Pipeline

  // ---- what is where ----

  /** The bytes the parser has taken from its channel. */
  function Fed(body: Bytes, readLen: nat, data: seq<Bytes>): Bytes {
    if |Flatten(data)| <= readLen <= |body| then body[..readLen - |Flatten(data)|] else []
  }

  /** The records that have left the parser's own vector, in order. */
  function Sent<S>(s: State<S>): seq<Record> {
    s.recorded + Flatten(s.batches)
  }

  /** Bytes read are bytes fed to the parser or queued; what the prefetcher holds comes next. */
  ghost predicate BytesConserved<S>(
    cfg: Config<S>, prefetcher: Prefetcher, readLen: nat, data: seq<Bytes>, pc: ParserPc)
  {
    && |Flatten(data)| <= readLen <= |cfg.body|
    && cfg.body[..readLen] == Fed(cfg.body, readLen, data) + Flatten(data)
    && (forall k :: 0 <= k < |data| ==> data[k] != [])
    && (pc.ParserDone? ==> data == [] && prefetcher.PrefetchDone?)
    && match prefetcher
       case Reading => true
       case Holding(c) => readLen < |cfg.body| && c == cfg.NextChunk(readLen)
       case PrefetchDone => readLen == |cfg.body|
       case PrefetchPanicked => pc.ParserPanicked?
  }

  /** The parser is in step with one read of the bytes it has been fed. */
  ghost predicate ParserInStep(
    step: RecordStep, body: Bytes, pc: ParserPc, fed: Bytes, sent: seq<Record>, parser: ParserState)
  {
    match pc
    case AwaitData => KeepsUp(step, HEADER_LEN, fed, sent, parser)
    case ReturnBuffer(c) => Appended(step, fed, sent, parser, c)
    case TryParse(c) => Appended(step, fed, sent, parser, c)
    case SendProgress => BatchReady(step, fed, sent, parser, parser.pooledVec)
    case AwaitVec => BatchReady(step, fed, sent, parser, parser.pooledVec)
    case SendBatch(b) => parser.pooledVec == [] && BatchReady(step, fed, sent, parser, b)
    case ParserDone => KeepsUp(step, HEADER_LEN, body, sent, parser)
    case ParserPanicked => Drain(step, 0, body).stop.Panicked? && sent <= Drain(step, 0, body).records
  }

  /** A chunk has been appended to the carry-over buffer and not been looked at yet. */
  ghost predicate Appended(step: RecordStep, fed: Bytes, sent: seq<Record>, parser: ParserState, c: Bytes) {
    && |c| <= |fed| && |c| <= |parser.loopBuffer|
    && fed == fed[..|fed| - |c|] + c
    && parser.loopBuffer == parser.loopBuffer[..|parser.loopBuffer| - |c|] + c
    && KeepsUp(step, HEADER_LEN, fed[..|fed| - |c|], sent,
               parser.(loopBuffer := parser.loopBuffer[..|parser.loopBuffer| - |c|]))
  }

  ghost predicate BatchReady(
    step: RecordStep, fed: Bytes, sent: seq<Record>, parser: ParserState, batch: seq<Record>)
  {
    batch != [] && KeepsUp(step, HEADER_LEN, fed, sent + batch, parser.(needed := 0, pooledVec := []))
  }

  /** Until a thread has gone, two byte buffers circulate. */
  ghost predicate BuffersConserved<S>(s: State<S>) {
    !s.PrefetcherGone() && !s.ParserGone() ==>
      |s.bufferPool| + |s.data| + (if s.prefetcher.Holding? then 1 else 0)
      + (if s.parserPc.ReturnBuffer? then 1 else 0) == 2
  }

  /** Until the parser has gone, two record vectors circulate, its own being one of them. */
  ghost predicate VecsConserved<S>(s: State<S>) {
    !s.ParserGone() ==>
      1 + |s.vecPool| + |s.batches| + (if s.recorderPc.ReturnVec? then 1 else 0)
      + (if s.parserPc.SendBatch? then 1 else 0) == 2
  }

  /** Vectors come back empty, and every batch sent holds a record. */
  ghost predicate PoolsClean<S>(s: State<S>) {
    && (forall k :: 0 <= k < |s.vecPool| ==> s.vecPool[k] == [])
    && (forall k :: 0 <= k < |s.batches| ==> s.batches[k] != [])
  }

  ghost predicate RecorderInStep<S>(cfg: Config<S>, s: State<S>) {
    && s.recorder == Fold(cfg.record, cfg.initial, s.recorded)
    && (s.RecorderGone() ==> s.ParserGone() && s.batches == [])
    && (s.recorderPc.RecorderDone? ==> cfg.report(s.recorder).Built?)
    && (s.recorderPc.RecorderPanicked? ==> cfg.report(s.recorder).BuildPanics?)
    && (s.recorderPc.RecorderOverflowed? ==> cfg.report(s.recorder).BuildOverflows? && s.main.Aborted?)
  }

  /** Progress values rise strictly and never pass the file length. */
  ghost predicate ProgressRises<S>(cfg: Config<S>, s: State<S>) {
    && s.parser.processedLen <= cfg.FileLen()
    && s.parser.processedLen > 0
    && RisesTo([s.shown] + s.progress,
               if s.parserPc.SendProgress? then s.parser.processedLen - 1 else s.parser.processedLen)
  }

  /** Exactly one result is sent, after all batches, and the main thread takes that one; it panics
      when the recorder has, and the process is gone when building the report overflowed. */
  ghost predicate MainInStep<S>(s: State<S>) {
    match s.main
    case ShowProgress => s.results == (if s.recorderPc.RecorderDone? then [s.recorder] else [])
    case AwaitResult => s.ParserGone() && s.results == (if s.recorderPc.RecorderDone? then [s.recorder] else [])
    case JoinPrefetcher(r) => TookResult(s, r)
    case JoinParser(r) => TookResult(s, r) && s.prefetcher.PrefetchDone?
    case JoinRecorder(r) => TookResult(s, r) && s.prefetcher.PrefetchDone? && s.parserPc.ParserDone?
    case ReturnedOk(r) => TookResult(s, r) && s.prefetcher.PrefetchDone? && s.parserPc.ParserDone?
    case ReturnedErr =>
      s.PrefetcherGone() && s.parserPc.ParserPanicked? && s.recorderPc.RecorderDone? && s.results == []
    case MainPanicked => s.ParserGone() && s.recorderPc.RecorderPanicked? && s.results == []
    case Aborted => s.ParserGone() && s.recorderPc.RecorderOverflowed? && s.results == []
  }

  ghost predicate TookResult<S>(s: State<S>, r: S) {
    s.ParserGone() && s.recorderPc.RecorderDone? && r == s.recorder && s.results == []
  }

  ghost predicate Inv<S>(cfg: Config<S>, s: State<S>) {
    CoreInv(cfg, s) && SideInv(cfg, s)
  }

  ghost predicate CoreInv<S>(cfg: Config<S>, s: State<S>) {
    && BytesConserved(cfg, s.prefetcher, s.readLen, s.data, s.parserPc)
    && ParserInStep(cfg.step, cfg.body, s.parserPc, Fed(cfg.body, s.readLen, s.data), Sent(s), s.parser)
  }

  ghost predicate SideInv<S>(cfg: Config<S>, s: State<S>) {
    && BuffersConserved(s)
    && VecsConserved(s)
    && PoolsClean(s)
    && RecorderInStep(cfg, s)
    && ProgressRises(cfg, s)
    && MainInStep(s)
  }

  // ---- helper facts ----

  lemma InitInv<S>(cfg: Config<S>)
    ensures Inv(cfg, Init(cfg))
  {
    var s := Init(cfg);
    KeepsUpAtStart(cfg.step, HEADER_LEN);
    assert Fed(cfg.body, 0, []) == [];
  }

  /** A panic of the prefetcher is always the consequence of one of the parser. */
  ghost predicate PanicOrder<S>(s: State<S>) {
    s.prefetcher.PrefetchPanicked? ==> s.parserPc.ParserPanicked?
  }

  // ---- each part is kept by every action ----

  lemma PrefetchSide<S>(cfg: Config<S>, s: State<S>, a: Action, t: State<S>)
    requires a.PrefetchRecv? || a.PrefetchSend? || a.PrefetchExit?
    requires SideInv(cfg, s) && Next(cfg, s, a) == Some(t)
    ensures SideInv(cfg, t)
  {
    hide Fold, RisesTo;
  }

  lemma RecorderBatchSide<S>(cfg: Config<S>, s: State<S>, t: State<S>)
    requires SideInv(cfg, s) && s.batches != [] && NextRecorderRecv(cfg, s) == Some(t)
    ensures SideInv(cfg, t)
  {
    hide Fold, RisesTo;
    FoldSplit(cfg.record, cfg.initial, s.recorded, s.batches[0]);
  }

  lemma RecorderReportSide<S>(cfg: Config<S>, s: State<S>, t: State<S>)
    requires !s.main.Aborted? && SideInv(cfg, s) && s.batches == [] && NextRecorderRecv(cfg, s) == Some(t)
    ensures SideInv(cfg, t)
  {
    hide Fold, RisesTo;
  }

  lemma RecorderSide<S>(cfg: Config<S>, s: State<S>, a: Action, t: State<S>)
    requires a.RecorderRecv? || a.RecorderReturn?
    requires SideInv(cfg, s) && Next(cfg, s, a) == Some(t)
    ensures SideInv(cfg, t)
  {
    hide Fold, RisesTo, NextRecorderRecv;
    if a.RecorderRecv? {
      hide SideInv;
      if s.batches != [] {
        RecorderBatchSide(cfg, s, t);
      } else {
        RecorderReportSide(cfg, s, t);
      }
    }
  }

  lemma ShownRises<S>(cfg: Config<S>, s: State<S>, t: State<S>)
    requires ProgressRises(cfg, s) && s.progress != []
    requires t == s.(shown := s.progress[0], progress := s.progress[1..])
    ensures ProgressRises(cfg, t)
  {
    RisePop([s.shown] + s.progress, s.parser.processedLen);
    assert [t.shown] + t.progress == ([s.shown] + s.progress)[1..];
  }

  lemma MainSide<S>(cfg: Config<S>, s: State<S>, t: State<S>)
    requires SideInv(cfg, s) && PanicOrder(s) && Next(cfg, s, MainStep) == Some(t)
    ensures SideInv(cfg, t)
  {
    hide Fold, RisesTo;
    if s.main.ShowProgress? && s.progress != [] {
      ShownRises(cfg, s, t);
    }
  }

  lemma ParserSide<S>(cfg: Config<S>, s: State<S>, a: Action, t: State<S>)
    requires a.ParserRecv? || a.ParserReturn? || a.ParserSwap? || a.ParserSend?
    requires SideInv(cfg, s) && Next(cfg, s, a) == Some(t)
    requires s.parserPc.SendBatch? ==> s.parserPc.batch != []
    ensures SideInv(cfg, t)
  {
    hide Fold;
  }

  lemma ParserProgressSide<S>(cfg: Config<S>, s: State<S>, t: State<S>)
    requires SideInv(cfg, s) && Next(cfg, s, ParserProgress) == Some(t)
    ensures SideInv(cfg, t) && t.parserPc.AwaitVec?
  {
    hide Fold, RisesTo;
    var mark := s.parser.processedLen;
    RisePush([s.shown] + s.progress, mark - 1, mark);
    assert [s.shown] + (s.progress + [mark]) == ([s.shown] + s.progress) + [mark];
  }

  // ---- bytes and records stay in step ----

  lemma PrefetchSendBytes<S>(cfg: Config<S>, readLen: nat, data: seq<Bytes>, pc: ParserPc)
    requires cfg.Valid() && readLen < |cfg.body| && !pc.ParserDone?
    requires BytesConserved(cfg, Holding(cfg.NextChunk(readLen)), readLen, data, pc)
    ensures var c := cfg.NextChunk(readLen);
            && BytesConserved(cfg, Reading, readLen + |c|, data + [c], pc)
            && Fed(cfg.body, readLen + |c|, data + [c]) == Fed(cfg.body, readLen, data)
  {
    hide Flatten;
    var c, queued, fed := cfg.NextChunk(readLen), Flatten(data), Fed(cfg.body, readLen, data);
    FlattenPush(data, c);
    assert cfg.body[..readLen + |c|] == cfg.body[..readLen] + c;
    assert (fed + queued) + c == fed + (queued + c);
  }

  lemma PrefetchSendCore<S>(cfg: Config<S>, s: State<S>, t: State<S>)
    requires cfg.Valid() && CoreInv(cfg, s) && NextPrefetchSend(s) == Some(t)
    ensures CoreInv(cfg, t)
  {
    hide Flatten, Fed, Drain, KeepsUp;
    assert Sent(t) == Sent(s) && t.parserPc == s.parserPc && t.parser == s.parser;
    if !s.ParserGone() {
      PrefetchSendBytes(cfg, s.readLen, s.data, s.parserPc);
    }
  }

  lemma PrefetchCore<S>(cfg: Config<S>, s: State<S>, a: Action, t: State<S>)
    requires a.PrefetchRecv? || a.PrefetchExit?
    requires cfg.Valid() && CoreInv(cfg, s) && Next(cfg, s, a) == Some(t)
    ensures CoreInv(cfg, t)
  {
    assert Sent(t) == Sent(s) && t.parserPc == s.parserPc && t.parser == s.parser;
  }

  lemma RecorderCore<S>(cfg: Config<S>, s: State<S>, a: Action, t: State<S>)
    requires a.RecorderRecv? || a.RecorderReturn?
    requires CoreInv(cfg, s) && Next(cfg, s, a) == Some(t)
    ensures CoreInv(cfg, t)
  {
    hide Flatten, Drain, KeepsUp, Fold;
    if a.RecorderRecv? && s.batches != [] {
      FlattenPop(s.batches);
      var b, later := s.batches[0], Flatten(t.batches);
      assert s.recorded + (b + later) == (s.recorded + b) + later;
    }
    assert Sent(t) == Sent(s);
  }

  lemma MainFrame<S>(s: State<S>, t: State<S>)
    requires NextMain(s) == Some(t)
    ensures t == s.(main := t.main, progress := t.progress, shown := t.shown, results := t.results)
  {
  }

  lemma MainCore<S>(cfg: Config<S>, s: State<S>, t: State<S>)
    requires CoreInv(cfg, s)
    requires t == s.(main := t.main, progress := t.progress, shown := t.shown, results := t.results)
    ensures CoreInv(cfg, t)
  {
    assert Sent(t) == Sent(s);
  }

  lemma ParserRecvBytes<S>(cfg: Config<S>, prefetcher: Prefetcher, readLen: nat, data: seq<Bytes>, pc: ParserPc)
    requires data != [] && !pc.ParserDone?
    requires BytesConserved(cfg, prefetcher, readLen, data, pc)
    ensures BytesConserved(cfg, prefetcher, readLen, data[1..], pc)
    ensures Fed(cfg.body, readLen, data[1..]) == Fed(cfg.body, readLen, data) + data[0]
  {
    FlattenPop(data);
    var c, later, fed := data[0], Flatten(data[1..]), Fed(cfg.body, readLen, data);
    assert cfg.body[..readLen] == (fed + c) + later;
    assert cfg.body[..readLen][..|fed| + |c|] == cfg.body[..|fed| + |c|];
  }

  lemma AppendedFits(step: RecordStep, fed: Bytes, sent: seq<Record>, parser: ParserState, c: Bytes)
    requires KeepsUp(step, HEADER_LEN, fed, sent, parser)
    ensures Appended(step, fed + c, sent, parser.(loopBuffer := parser.loopBuffer + c), c)
  {
    var parser' := parser.(loopBuffer := parser.loopBuffer + c);
    assert (fed + c)[..|fed|] == fed;
    assert (parser.loopBuffer + c)[..|parser.loopBuffer|] == parser.loopBuffer;
    assert parser'.(loopBuffer := parser.loopBuffer) == parser;
  }

  lemma ParserRecvCore<S>(cfg: Config<S>, s: State<S>, t: State<S>)
    requires CoreInv(cfg, s) && NextParserRecv(s) == Some(t)
    ensures CoreInv(cfg, t)
  {
    assert Sent(t) == Sent(s);
    if s.data == [] {
      assert cfg.body[..s.readLen] == Fed(cfg.body, s.readLen, s.data);
      assert s.prefetcher.PrefetchDone? ==> cfg.body[..s.readLen] == cfg.body;
    } else {
      ParserRecvBytes(cfg, s.prefetcher, s.readLen, s.data, s.parserPc);
      AppendedFits(cfg.step, Fed(cfg.body, s.readLen, s.data), Sent(s), s.parser, s.data[0]);
    }
  }

  /** An attempt on what has been appended, at the level of bytes and records. */
  lemma AttemptInStep(
    step: RecordStep, body: Bytes, fed: Bytes, sent: seq<Record>, parser: ParserState, c: Bytes)
    requires fed <= body && Appended(step, fed, sent, parser, c)
    ensures match Attempt(step, parser)
            case Crashed => ParserInStep(step, body, ParserPanicked, fed, sent, parser)
            case Waiting(u) =>
              u.processedLen == parser.processedLen && ParserInStep(step, body, AwaitData, fed, sent, u)
            case Parsed(u) =>
              && parser.processedLen < u.processedLen <= HEADER_LEN + |fed|
              && ParserInStep(step, body, SendProgress, fed, sent, u)
  {
    hide Drain, Attempt;
    var fed0, carried := fed[..|fed| - |c|], parser.loopBuffer[..|parser.loopBuffer| - |c|];
    var before := parser.(loopBuffer := carried);
    assert before.(loopBuffer := carried + c) == parser;
    ChunkKeepsUp(step, HEADER_LEN, fed0, sent, before, c);
    if Attempt(step, parser).Crashed? {
      var later := body[|fed|..];
      assert body == fed + later;
      DrainPrefix(step, 0, fed, later);
    }
  }

  lemma ParserParseCore<S>(cfg: Config<S>, s: State<S>, t: State<S>)
    requires CoreInv(cfg, s) && NextParserParse(cfg, s) == Some(t)
    ensures CoreInv(cfg, t)
    ensures match Attempt(cfg.step, s.parser)
            case Crashed => t == s.(parserPc := ParserPanicked)
            case Waiting(u) => t == s.(parser := u, parserPc := AwaitData) && u.processedLen == s.parser.processedLen
            case Parsed(u) => t == s.(parser := u, parserPc := SendProgress)
                              && s.parser.processedLen < u.processedLen <= cfg.FileLen()
  {
    hide Drain, Attempt, Flatten, KeepsUp, Appended, BatchReady;
    AttemptInStep(cfg.step, cfg.body, Fed(cfg.body, s.readLen, s.data), Sent(s), s.parser, s.parserPc.chunk);
    assert Sent(t) == Sent(s);
  }

  lemma ParserParseSide<S>(cfg: Config<S>, s: State<S>, u: ParserState, t: State<S>)
    requires SideInv(cfg, s) && s.parserPc.TryParse?
    requires || t == s.(parserPc := ParserPanicked)
             || (t == s.(parser := u, parserPc := AwaitData) && u.processedLen == s.parser.processedLen)
             || (t == s.(parser := u, parserPc := SendProgress)
                 && s.parser.processedLen < u.processedLen <= cfg.FileLen())
    ensures SideInv(cfg, t)
  {
    hide Fold;
  }

  lemma ParserSendCore<S>(cfg: Config<S>, s: State<S>, t: State<S>)
    requires CoreInv(cfg, s) && SideInv(cfg, s) && NextParserSend(s) == Some(t)
    ensures CoreInv(cfg, t)
  {
    FlattenPush(s.batches, s.parserPc.batch);
    assert Sent(t) == Sent(s) + s.parserPc.batch;
    assert t.parser == s.parser.(needed := 0, pooledVec := []);
  }

  lemma ParserReturnCore<S>(cfg: Config<S>, s: State<S>, t: State<S>)
    requires CoreInv(cfg, s) && NextParserReturn(s) == Some(t)
    ensures CoreInv(cfg, t)
  {
    assert Sent(t) == Sent(s);
  }

  lemma ParserProgressCore<S>(cfg: Config<S>, s: State<S>, t: State<S>)
    requires CoreInv(cfg, s) && MainInStep(s) && NextParserProgress(s) == Some(t)
    ensures CoreInv(cfg, t)
  {
    assert Sent(t) == Sent(s);
  }

  lemma ParserSwapCore<S>(cfg: Config<S>, s: State<S>, t: State<S>)
    requires CoreInv(cfg, s) && PoolsClean(s) && RecorderInStep(cfg, s) && NextParserSwap(s) == Some(t)
    ensures CoreInv(cfg, t)
  {
    assert Sent(t) == Sent(s);
  }

  lemma PrefetchKeeps<S>(cfg: Config<S>, s: State<S>, a: Action, t: State<S>)
    requires a.PrefetchRecv? || a.PrefetchSend? || a.PrefetchExit?
    requires cfg.Valid() && Inv(cfg, s) && Next(cfg, s, a) == Some(t)
    ensures Inv(cfg, t)
  {
    PrefetchSide(cfg, s, a, t);
    if a.PrefetchSend? {
      PrefetchSendCore(cfg, s, t);
    } else {
      PrefetchCore(cfg, s, a, t);
    }
  }

  lemma ParserReadKeeps<S>(cfg: Config<S>, s: State<S>, a: Action, t: State<S>)
    requires a.ParserRecv? || a.ParserReturn?
    requires Inv(cfg, s) && Next(cfg, s, a) == Some(t)
    ensures Inv(cfg, t)
  {
    ParserSide(cfg, s, a, t);
    if a.ParserRecv? {
      ParserRecvCore(cfg, s, t);
    } else {
      ParserReturnCore(cfg, s, t);
    }
  }

  lemma ParserParseKeeps<S>(cfg: Config<S>, s: State<S>, t: State<S>)
    requires Inv(cfg, s) && Next(cfg, s, ParserParse) == Some(t)
    ensures Inv(cfg, t)
  {
    ParserParseCore(cfg, s, t);
    ParserParseSide(cfg, s, t.parser, t);
  }

  lemma ParserWriteKeeps<S>(cfg: Config<S>, s: State<S>, a: Action, t: State<S>)
    requires a.ParserSwap? || a.ParserSend?
    requires Inv(cfg, s) && Next(cfg, s, a) == Some(t)
    ensures Inv(cfg, t)
  {
    ParserSide(cfg, s, a, t);
    if a.ParserSend? {
      ParserSendCore(cfg, s, t);
    } else {
      ParserSwapCore(cfg, s, t);
    }
  }

  lemma ParserProgressKeeps<S>(cfg: Config<S>, s: State<S>, t: State<S>)
    requires Inv(cfg, s) && Next(cfg, s, ParserProgress) == Some(t)
    ensures Inv(cfg, t)
  {
    ParserProgressCore(cfg, s, t);
    ParserProgressSide(cfg, s, t);
  }

  lemma RecorderKeeps<S>(cfg: Config<S>, s: State<S>, a: Action, t: State<S>)
    requires a.RecorderRecv? || a.RecorderReturn?
    requires Inv(cfg, s) && Next(cfg, s, a) == Some(t)
    ensures Inv(cfg, t)
  {
    RecorderCore(cfg, s, a, t);
    RecorderSide(cfg, s, a, t);
  }

  lemma MainKeeps<S>(cfg: Config<S>, s: State<S>, t: State<S>)
    requires Inv(cfg, s) && Next(cfg, s, MainStep) == Some(t)
    ensures Inv(cfg, t)
  {
    MainFrame(s, t);
    MainCore(cfg, s, t);
    MainSide(cfg, s, t);
  }

  /** Every action keeps every part of the invariant. */
  lemma StepKeeps<S>(cfg: Config<S>, s: State<S>, a: Action, t: State<S>)
    requires cfg.Valid() && Inv(cfg, s) && Next(cfg, s, a) == Some(t)
    ensures Inv(cfg, t)
  {
    match a
    case PrefetchRecv => PrefetchKeeps(cfg, s, a, t);
    case PrefetchSend => PrefetchKeeps(cfg, s, a, t);
    case PrefetchExit => PrefetchKeeps(cfg, s, a, t);
    case ParserRecv => ParserReadKeeps(cfg, s, a, t);
    case ParserReturn => ParserReadKeeps(cfg, s, a, t);
    case ParserParse => ParserParseKeeps(cfg, s, t);
    case ParserProgress => ParserProgressKeeps(cfg, s, t);
    case ParserSwap => ParserWriteKeeps(cfg, s, a, t);
    case ParserSend => ParserWriteKeeps(cfg, s, a, t);
    case RecorderRecv => RecorderKeeps(cfg, s, a, t);
    case RecorderReturn => RecorderKeeps(cfg, s, a, t);
    case MainStep => MainKeeps(cfg, s, t);
  }

  // ---- runs ----

  lemma {:induction false} RunKeeps<S>(cfg: Config<S>, schedule: seq<Action>)
    requires cfg.Valid() && Run(cfg, schedule).Some?
    ensures Inv(cfg, Run(cfg, schedule).value)
  {
    if schedule == [] {
      InitInv(cfg);
    } else {
      var n := |schedule| - 1;
      RunKeeps(cfg, schedule[..n]);
      StepKeeps(cfg, Run(cfg, schedule[..n]).value, schedule[n], Run(cfg, schedule).value);
    }
  }

  /** Header, parsed, carried-over and queued bytes add up to the bytes read. */
  ghost predicate BytesAddUp<S>(s: State<S>) {
    s.parser.processedLen + |s.parser.loopBuffer| + |Flatten(s.data)| == HEADER_LEN + s.readLen
  }

  lemma QueueMoves<S>(s: State<S>, a: Action, t: State<S>)
    requires BytesAddUp(s)
    requires (a.PrefetchSend? && NextPrefetchSend(s) == Some(t)) || (a.ParserRecv? && NextParserRecv(s) == Some(t))
    ensures BytesAddUp(t)
  {
    hide Flatten;
    if a.PrefetchSend? {
      FlattenPush(s.data, s.prefetcher.chunk);
    } else if s.data != [] {
      FlattenPop(s.data);
    }
  }

  lemma ParseMoves<S>(cfg: Config<S>, s: State<S>, t: State<S>)
    requires BytesAddUp(s) && NextParserParse(cfg, s) == Some(t)
    ensures BytesAddUp(t)
  {
    hide Flatten, Drain;
    DrainStops(cfg.step, s.parser.remaining, s.parser.loopBuffer);
  }

  lemma OthersMoveNothing<S>(cfg: Config<S>, s: State<S>, a: Action, t: State<S>)
    requires !a.PrefetchSend? && !a.ParserRecv? && !a.ParserParse?
    requires Next(cfg, s, a) == Some(t)
    ensures t.readLen == s.readLen && t.data == s.data
    ensures t.parser == s.parser.(needed := t.parser.needed, pooledVec := t.parser.pooledVec)
  {
    hide Fold;
  }

  lemma {:induction false} AlwaysAddUp<S>(cfg: Config<S>, schedule: seq<Action>)
    requires Run(cfg, schedule).Some?
    ensures BytesAddUp(Run(cfg, schedule).value)
  {
    if schedule != [] {
      var n := |schedule| - 1;
      var s, a, t := Run(cfg, schedule[..n]).value, schedule[n], Run(cfg, schedule).value;
      hide Run, Flatten, NextPrefetchSend, NextParserRecv, NextParserParse;
      AlwaysAddUp(cfg, schedule[..n]);
      if a.PrefetchSend? || a.ParserRecv? {
        QueueMoves(s, a, t);
      } else if a.ParserParse? {
        ParseMoves(cfg, s, t);
      } else {
        OthersMoveNothing(cfg, s, a, t);
      }
    }
  }

  /** The bytes read are accounted for exactly in every run, up to its end: header, parsed, carried
      over and queued; what the prefetcher holds is the next stretch of the file. Progress values rise
      strictly and stay within the file, so the length assertion never fires. */
  lemma BytesAccounted<S>(cfg: Config<S>, schedule: seq<Action>)
    requires cfg.Valid() && Run(cfg, schedule).Some?
    ensures var s := Run(cfg, schedule).value;
            && s.parser.processedLen + |s.parser.loopBuffer| + |Flatten(s.data)| == HEADER_LEN + s.readLen
            && s.readLen <= |cfg.body|
            && (s.prefetcher.Holding? ==> cfg.body[..s.readLen] + s.prefetcher.chunk <= cfg.body)
            && RisesTo([s.shown] + s.progress, cfg.FileLen())
  {
    hide Run, Flatten, ParserInStep;
    RunKeeps(cfg, schedule);
    AlwaysAddUp(cfg, schedule);
    var s := Run(cfg, schedule).value;
    if s.prefetcher.Holding? {
      var c := s.prefetcher.chunk;
      assert cfg.body[..s.readLen] + c == cfg.body[..s.readLen + |c|];
    }
  }

  /** Buffers and vectors are conserved over every run: none is lost or duplicated while its two
      ends are alive, every recycled vector is empty and every queued batch is not. */
  lemma PoolsAccounted<S>(cfg: Config<S>, schedule: seq<Action>)
    requires cfg.Valid() && Run(cfg, schedule).Some?
    ensures var s := Run(cfg, schedule).value;
            BuffersConserved(s) && VecsConserved(s) && PoolsClean(s)
  {
    hide Run, CoreInv, Flatten, RisesTo, Fold;
    RunKeeps(cfg, schedule);
  }

  lemma InStepPrefix(step: RecordStep, body: Bytes, pc: ParserPc, fed: Bytes, sent: seq<Record>, parser: ParserState)
    requires fed <= body && ParserInStep(step, body, pc, fed, sent, parser)
    ensures sent <= Drain(step, 0, body).records
  {
    if !pc.ParserDone? && !pc.ParserPanicked? {
      var seen := if pc.ReturnBuffer? || pc.TryParse? then fed[..|fed| - |pc.chunk|] else fed;
      assert sent <= Drain(step, 0, seen).records;
      assert body == seen + body[|seen|..];
      DrainPrefix(step, 0, seen, body[|seen|..]);
    }
  }

  /** The records the recorder and its channel hold are always a prefix of those of one read of
      the whole file: none is dropped, repeated or reordered. */
  lemma RecordsInOrder<S>(cfg: Config<S>, schedule: seq<Action>)
    requires cfg.Valid() && Run(cfg, schedule).Some?
    ensures var s := Run(cfg, schedule).value;
            && Sent(s) <= Drain(cfg.step, 0, cfg.body).records
            && s.recorder == Fold(cfg.record, cfg.initial, s.recorded)
  {
    RunKeeps(cfg, schedule);
    var s := Run(cfg, schedule).value;
    InStepPrefix(cfg.step, cfg.body, s.parserPc, Fed(cfg.body, s.readLen, s.data), Sent(s), s.parser);
  }

  lemma GateSoundAfterAppend(
    step: RecordStep, fed: Bytes, sent: seq<Record>, parser: ParserState, c: Bytes)
    requires Appended(step, fed, sent, parser, c)
    ensures GateSound(step, parser)
  {
    hide Drain, GateSound;
    var before := parser.(loopBuffer := parser.loopBuffer[..|parser.loopBuffer| - |c|]);
    GateStaysSound(step, before, c);
    assert before.(loopBuffer := before.loopBuffer + c) == parser;
  }

  /** The gate loses and delays nothing in any run. Between chunks it is shut exactly when it is set;
      and whenever it is shut, before an attempt as well, neither the bytes at hand nor any more that
      leave it shut would complete a record. */
  lemma GateNeverDelays<S>(cfg: Config<S>, schedule: seq<Action>, x: Bytes)
    requires cfg.Valid() && Run(cfg, schedule).Some?
    ensures var s := Run(cfg, schedule).value;
            s.parserPc.AwaitData? && s.parser.needed > 0 ==> s.parser.needed > |s.parser.loopBuffer|
    ensures var s := Run(cfg, schedule).value;
            && (s.parserPc.AwaitData? || s.parserPc.ReturnBuffer? || s.parserPc.TryParse?)
            && |s.parser.loopBuffer| + |x| < s.parser.needed ==>
              Drain(cfg.step, s.parser.remaining, s.parser.loopBuffer + x) ==
              Drained([], s.parser.remaining, s.parser.loopBuffer + x,
                      NeedMore(s.parser.needed - |s.parser.loopBuffer| - |x|))
  {
    hide Drain, Run, SideInv, BytesConserved, Fed, Sent, GateSound, Appended, BatchReady;
    RunKeeps(cfg, schedule);
    var s := Run(cfg, schedule).value;
    if s.parserPc.ReturnBuffer? || s.parserPc.TryParse? {
      GateSoundAfterAppend(cfg.step, Fed(cfg.body, s.readLen, s.data), Sent(s), s.parser, s.parserPc.chunk);
    }
    if (s.parserPc.AwaitData? || s.parserPc.ReturnBuffer? || s.parserPc.TryParse?)
       && |s.parser.loopBuffer| + |x| < s.parser.needed {
      GateLosesNothing(cfg.step, s.parser, x);
    }
  }

  /** At most one result is sent, by the recorder as its last act, after the parser has gone and the
      last batch has been recorded; it is the one the main thread takes. None is sent only where
      building the report fails. */
  lemma OneResult<S>(cfg: Config<S>, schedule: seq<Action>)
    requires cfg.Valid() && Run(cfg, schedule).Some?
    ensures var s := Run(cfg, schedule).value;
            && |s.results| + (if s.main.TookResult() then 1 else 0) == (if s.recorderPc.RecorderDone? then 1 else 0)
            && (s.recorderPc.RecorderDone? ==> s.ParserGone() && s.batches == [] && cfg.report(s.recorder).Built?)
            && (s.results != [] ==> s.results == [Fold(cfg.record, cfg.initial, s.recorded)])
            && (s.Finished() && !s.recorderPc.RecorderDone? ==> !cfg.report(s.recorder).Built?)
  {
    hide Run, Drain, Flatten, CoreInv, RisesTo, Fold;
    RunKeeps(cfg, schedule);
  }

  /** A thread panics only where the read of the whole file does, where building the report does,
      or, for the main thread, where it waits for the result of a recorder that has panicked: no
      other channel `expect` fires, nor does the length assertion. */
  lemma OnlyTheirPanics<S>(cfg: Config<S>, schedule: seq<Action>)
    requires cfg.Valid() && Run(cfg, schedule).Some?
    ensures var s := Run(cfg, schedule).value;
            && (s.prefetcher.PrefetchPanicked? || s.parserPc.ParserPanicked? ==>
                  Drain(cfg.step, 0, cfg.body).stop.Panicked?)
            && (s.recorderPc.RecorderPanicked? ==>
                  s.ParserGone() && s.batches == [] && cfg.report(s.recorder).BuildPanics?)
            && (s.main.MainPanicked? ==> s.recorderPc.RecorderPanicked?)
            && (s.main.Aborted? ==> s.ParserGone() && s.batches == [] && cfg.report(s.recorder).BuildOverflows?)
  {
    hide Run, Drain, Flatten, RisesTo, Fold, KeepsUp, Appended, BatchReady, Fed, Sent;
    RunKeeps(cfg, schedule);
  }

  /** What the main thread should come to, once the recorder has been given `records`. */
  function Verdict<S>(cfg: Config<S>, records: seq<Record>, readPanics: bool): Main<S> {
    var state := Fold(cfg.record, cfg.initial, records);
    match cfg.report(state)
    case Built => if readPanics then ReturnedErr else ReturnedOk(state)
    case BuildPanics => MainPanicked
    case BuildOverflows => Aborted
  }

  /** Schedule independence. Where the read of the whole file does not panic, every finished run, of
      any interleaving and read size, ends in one and the same way: with the recorder state obtained
      by recording, in order, the records of that read, if its report can be built, and otherwise
      with the main thread panicking or the process aborted. Where the read panics, the same is said
      of the records that had been sent on by then, and a report that can be built is dropped for an
      error. */
  lemma FinishedRun<S>(cfg: Config<S>, schedule: seq<Action>)
    requires cfg.Valid() && Run(cfg, schedule).Some? && Run(cfg, schedule).value.Finished()
    ensures var s, d := Run(cfg, schedule).value, Drain(cfg.step, 0, cfg.body);
            && s.recorded <= d.records
            && (!d.stop.Panicked? ==> s.recorded == d.records)
            && s.main == Verdict(cfg, s.recorded, d.stop.Panicked?)
            && s.ParserGone() && s.batches == [] && s.results == []
            && (!d.stop.Panicked? ==>
                  s.parser.processedLen + |s.parser.loopBuffer| == cfg.FileLen() && s.parser.loopBuffer == d.rest)
            && (s.main.ReturnedOk? || s.main.ReturnedErr? ==> s.PrefetcherGone() && s.recorderPc.RecorderDone?)
  {
    RunKeeps(cfg, schedule);
    var s := Run(cfg, schedule).value;
    assert s.batches == [] && Sent(s) == s.recorded;
    RecordsInOrder(cfg, schedule);
  }

  // ---- progress and termination ----

  /** Until the main thread has returned, some thread can move. */
  lemma NeverStuck<S>(cfg: Config<S>, s: State<S>) returns (a: Action)
    requires Inv(cfg, s) && !s.Finished()
    ensures Next(cfg, s, a).Some?
  {
    hide Fold, RisesTo, ParserInStep, Drain;
    if s.prefetcher.Holding? {
      a := PrefetchSend;
    } else if s.prefetcher.Reading? && s.readLen == |cfg.body| {
      a := PrefetchExit;
    } else if s.prefetcher.Reading? && (s.bufferPool != [] || s.ParserGone()) {
      a := PrefetchRecv;
    } else {
      match s.parserPc
      case AwaitData => a := ParserRecv;
      case ReturnBuffer(_) => a := ParserReturn;
      case TryParse(_) => a := ParserParse;
      case SendProgress => a := ParserProgress;
      case SendBatch(_) => a := ParserSend;
      case AwaitVec =>
        a := if s.vecPool != [] then ParserSwap else if s.recorderPc.ReturnVec? then RecorderReturn else RecorderRecv;
      case _ =>
        a := if s.recorderPc.ReturnVec? then RecorderReturn
             else if s.recorderPc.AwaitBatch? then RecorderRecv else MainStep;
    }
  }

  /** Work left: unread bytes, messages in flight and how far each thread is from its end. */
  function WorkLeft<S>(cfg: Config<S>, s: State<S>): nat {
    (if s.readLen <= |cfg.body| then 11 * (|cfg.body| - s.readLen) else 0)
    + 9 * |s.data| + |s.progress| + 2 * |s.batches|
    + (match s.prefetcher case Reading => 2 case Holding(_) => 1 case _ => 0)
    + ParserWork(s.parserPc)
    + (match s.recorderPc case ReturnVec => 2 case AwaitBatch => 1 case _ => 0)
    + MainWork(s.main)
  }

  function ParserWork(pc: ParserPc): nat {
    match pc
    case ReturnBuffer(_) => 9
    case TryParse(_) => 8
    case SendProgress => 7
    case AwaitVec => 5
    case SendBatch(_) => 4
    case AwaitData => 1
    case _ => 0
  }

  function MainWork<S>(main: Main<S>): nat {
    match main
    case ShowProgress => 5
    case AwaitResult => 4
    case JoinPrefetcher(_) => 3
    case JoinParser(_) => 2
    case JoinRecorder(_) => 1
    case _ => 0
  }

  lemma PrefetchWorks<S>(cfg: Config<S>, s: State<S>, a: Action, t: State<S>)
    requires a.PrefetchRecv? || a.PrefetchSend? || a.PrefetchExit?
    requires cfg.Valid() && BytesConserved(cfg, s.prefetcher, s.readLen, s.data, s.parserPc)
    requires Next(cfg, s, a) == Some(t)
    ensures WorkLeft(cfg, t) < WorkLeft(cfg, s)
  {
  }

  lemma ParserReadWorks<S>(cfg: Config<S>, s: State<S>, t: State<S>)
    requires NextParserRecv(s) == Some(t) || NextParserReturn(s) == Some(t)
    ensures WorkLeft(cfg, t) < WorkLeft(cfg, s)
  {
    hide MainWork;
  }

  lemma ParserParseWorks<S>(cfg: Config<S>, s: State<S>, t: State<S>)
    requires NextParserParse(cfg, s) == Some(t)
    ensures WorkLeft(cfg, t) < WorkLeft(cfg, s)
  {
    hide MainWork, Attempt;
  }

  lemma ParserWriteWorks<S>(cfg: Config<S>, s: State<S>, t: State<S>)
    requires NextParserProgress(s) == Some(t) || NextParserSwap(s) == Some(t) || NextParserSend(s) == Some(t)
    ensures WorkLeft(cfg, t) < WorkLeft(cfg, s)
  {
    hide MainWork;
  }

  lemma RecorderWorks<S>(cfg: Config<S>, s: State<S>, t: State<S>)
    requires NextRecorderRecv(cfg, s) == Some(t) || NextRecorderReturn(s) == Some(t)
    ensures WorkLeft(cfg, t) < WorkLeft(cfg, s)
  {
    hide ParserWork, Fold;
  }

  lemma MainComesCloser<S>(s: State<S>, t: State<S>)
    requires NextMain(s) == Some(t)
    ensures MainWork(t.main) + |t.progress| < MainWork(s.main) + |s.progress|
  {
  }

  lemma MainWorks<S>(cfg: Config<S>, s: State<S>, t: State<S>)
    requires NextMain(s) == Some(t)
    ensures WorkLeft(cfg, t) < WorkLeft(cfg, s)
  {
    hide ParserWork, MainWork, NextMain;
    MainFrame(s, t);
    MainComesCloser(s, t);
  }

  /** Every action uses up work. */
  lemma StepWorks<S>(cfg: Config<S>, s: State<S>, a: Action, t: State<S>)
    requires cfg.Valid() && BytesConserved(cfg, s.prefetcher, s.readLen, s.data, s.parserPc)
    requires Next(cfg, s, a) == Some(t)
    ensures WorkLeft(cfg, t) < WorkLeft(cfg, s)
  {
    hide WorkLeft, NextPrefetchRecv, NextPrefetchSend, NextParserRecv, NextParserReturn, NextParserParse,
      NextParserProgress, NextParserSwap, NextParserSend, NextRecorderRecv, NextRecorderReturn, NextMain;
    match a
    case PrefetchRecv => PrefetchWorks(cfg, s, a, t);
    case PrefetchSend => PrefetchWorks(cfg, s, a, t);
    case PrefetchExit => PrefetchWorks(cfg, s, a, t);
    case ParserRecv => ParserReadWorks(cfg, s, t);
    case ParserReturn => ParserReadWorks(cfg, s, t);
    case ParserParse => ParserParseWorks(cfg, s, t);
    case ParserProgress => ParserWriteWorks(cfg, s, t);
    case ParserSwap => ParserWriteWorks(cfg, s, t);
    case ParserSend => ParserWriteWorks(cfg, s, t);
    case RecorderRecv => RecorderWorks(cfg, s, t);
    case RecorderReturn => RecorderWorks(cfg, s, t);
    case MainStep => MainWorks(cfg, s, t);
  }

  /** Every run is finite: its length is at most linear in the length of the file. */
  lemma {:induction false} RunsEnd<S>(cfg: Config<S>, schedule: seq<Action>)
    requires cfg.Valid() && Run(cfg, schedule).Some?
    ensures |schedule| + WorkLeft(cfg, Run(cfg, schedule).value) <= 11 * |cfg.body| + 9
  {
    if schedule != [] {
      var n := |schedule| - 1;
      RunsEnd(cfg, schedule[..n]);
      RunKeeps(cfg, schedule[..n]);
      StepWorks(cfg, Run(cfg, schedule[..n]).value, schedule[n], Run(cfg, schedule).value);
    }
  }

  /** Any run can be completed, and by `FinishedRun` every completion returns the same. */
  lemma {:induction false} RunCompletes<S>(cfg: Config<S>, schedule: seq<Action>) returns (whole: seq<Action>)
    requires cfg.Valid() && Run(cfg, schedule).Some?
    ensures schedule <= whole && Run(cfg, whole).Some? && Run(cfg, whole).value.Finished()
    decreases 11 * |cfg.body| + 9 - |schedule|
  {
    whole := schedule;
    var s := Run(cfg, schedule).value;
    if !s.Finished() {
      RunKeeps(cfg, schedule);
      var a := NeverStuck(cfg, s);
      var longer := schedule + [a];
      assert longer[..|longer| - 1] == schedule;
      RunsEnd(cfg, longer);
      whole := RunCompletes(cfg, longer);
    }
  }
}
