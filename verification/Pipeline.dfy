/** The threads of one analysis as a step relation: the prefetcher, the parser, the recorder and
    the main thread, joined by unbounded FIFO channels. Every receive, send and join is an action;
    a schedule is any sequence of enabled actions. A channel end is closed when the thread that
    owns it has ended, normally or by a panic. */
module Pipeline {
  import opened Nom
  import opened Records
  import opened Streaming
  import opened Sequences

  const HEADER_LEN: nat := 31

  /** How building the report from the recorder's tables ends: a panic of the recorder, or a
      recursion without end, which overflows the stack and takes the whole process with it. */
  datatype Building = Built | BuildPanics | BuildOverflows

  /** What is fixed for one analysis: the record parser, how a record changes the recorder, how
      building its report ends, the recorder at the start, the file after its header, and the read
      size. */
  datatype Config<!S> = Config(
    step: RecordStep,
    record: (S, Record) -> S,
    report: S -> Building,
    initial: S,
    body: Bytes,
    readSize: nat)
  {
    predicate Valid() {
      readSize > 0
    }

    function FileLen(): nat {
      HEADER_LEN + |body|
    }

    /** The next read: as much as fits, and no more than the file still holds. */
    function NextChunk(readLen: nat): Bytes
      requires readLen <= |body|
    {
      var size := if |body| - readLen < readSize then |body| - readLen else readSize;
      body[readLen..readLen + size]
    }

    /** How much of the body the first `k` reads cover. */
    function Cut(k: nat): nat
      ensures Cut(k) <= |body|
    {
      if k == 0 then 0 else Cut(k - 1) + |NextChunk(Cut(k - 1))|
    }
  }

  // ---- thread positions ----

  datatype Prefetcher = Reading | Holding(chunk: Bytes) | PrefetchDone | PrefetchPanicked

  /** `ReturnBuffer` and `TryParse` remember the chunk that was just appended. */
  datatype ParserPc =
    | AwaitData
    | ReturnBuffer(chunk: Bytes)
    | TryParse(chunk: Bytes)
    | SendProgress
    | AwaitVec
    | SendBatch(batch: seq<Record>)
    | ParserDone
    | ParserPanicked

  datatype RecorderPc = AwaitBatch | ReturnVec | RecorderDone | RecorderPanicked | RecorderOverflowed

  datatype Main<S> =
    | ShowProgress
    | AwaitResult
    | JoinPrefetcher(result: S)
    | JoinParser(result: S)
    | JoinRecorder(result: S)
    | ReturnedOk(result: S)
    | ReturnedErr
    | MainPanicked
    | Aborted
  {
    predicate TookResult() {
      JoinPrefetcher? || JoinParser? || JoinRecorder? || ReturnedOk? || ReturnedErr?
    }
  }

  /** `readLen` counts the bytes of the body handed to the parser's channel; `recorded` is the
      history of what the recorder has been given. */
  datatype State<S> = State(
    prefetcher: Prefetcher,
    readLen: nat,
    data: seq<Bytes>,
    bufferPool: seq<Bytes>,
    parserPc: ParserPc,
    parser: ParserState,
    progress: seq<nat>,
    batches: seq<seq<Record>>,
    vecPool: seq<seq<Record>>,
    recorderPc: RecorderPc,
    recorder: S,
    recorded: seq<Record>,
    results: seq<S>,
    main: Main<S>,
    shown: nat)
  {
    predicate PrefetcherGone() {
      prefetcher.PrefetchDone? || prefetcher.PrefetchPanicked?
    }

    predicate ParserGone() {
      parserPc.ParserDone? || parserPc.ParserPanicked?
    }

    predicate RecorderGone() {
      recorderPc.RecorderDone? || recorderPc.RecorderPanicked? || recorderPc.RecorderOverflowed?
    }

    predicate Finished() {
      main.ReturnedOk? || main.ReturnedErr? || main.MainPanicked? || main.Aborted?
    }
  }

  /** Two byte buffers and one record vector are put in circulation; the parser owns a second
      vector. */
  function Init<S>(cfg: Config<S>): State<S> {
    State(Reading, 0, [], [[], []],
          AwaitData, ParserState([], 0, 0, HEADER_LEN, []),
          [], [], [[]],
          AwaitBatch, cfg.initial, [], [], ShowProgress, 0)
  }

  // ---- actions ----

  datatype Action =
    | PrefetchRecv | PrefetchSend | PrefetchExit
    | ParserRecv | ParserReturn | ParserParse | ParserProgress | ParserSwap | ParserSend
    | RecorderRecv | RecorderReturn
    | MainStep

  /** The state after an action, or `None` where the action is not enabled: it is another thread
      position's, or it waits on an empty channel whose sender is alive, or the process is gone. */
  function Next<S>(cfg: Config<S>, s: State<S>, a: Action): Option<State<S>> {
    if s.main.Aborted? then None
    else
      match a
      case PrefetchRecv => NextPrefetchRecv(cfg, s)
      case PrefetchSend => NextPrefetchSend(s)
      case PrefetchExit =>
        if s.prefetcher.Reading? && s.readLen == |cfg.body| then Some(s.(prefetcher := PrefetchDone)) else None
      case ParserRecv => NextParserRecv(s)
      case ParserReturn => NextParserReturn(s)
      case ParserParse => NextParserParse(cfg, s)
      case ParserProgress => NextParserProgress(s)
      case ParserSwap => NextParserSwap(s)
      case ParserSend => NextParserSend(s)
      case RecorderRecv => NextRecorderRecv(cfg, s)
      case RecorderReturn => NextRecorderReturn(s)
      case MainStep => NextMain(s)
  }

  function NextPrefetchRecv<S>(cfg: Config<S>, s: State<S>): Option<State<S>> {
    if !s.prefetcher.Reading? || s.readLen >= |cfg.body| then None
    else if s.bufferPool != [] then
      Some(s.(prefetcher := Holding(cfg.NextChunk(s.readLen)), bufferPool := s.bufferPool[1..]))
    else if s.ParserGone() then Some(s.(prefetcher := PrefetchPanicked))
    else None
  }

  function NextPrefetchSend<S>(s: State<S>): Option<State<S>> {
    if !s.prefetcher.Holding? then None
    else if s.ParserGone() then Some(s.(prefetcher := PrefetchPanicked))
    else
      var chunk := s.prefetcher.chunk;
      Some(s.(prefetcher := Reading, data := s.data + [chunk], readLen := s.readLen + |chunk|))
  }

  function NextParserRecv<S>(s: State<S>): Option<State<S>> {
    if !s.parserPc.AwaitData? then None
    else if s.data != [] then
      var chunk := s.data[0];
      Some(s.(data := s.data[1..], parserPc := ReturnBuffer(chunk),
              parser := s.parser.(loopBuffer := s.parser.loopBuffer + chunk)))
    else if s.PrefetcherGone() then Some(s.(parserPc := ParserDone))
    else None
  }

  /** A buffer sent after the prefetcher has gone is dropped without an error. */
  function NextParserReturn<S>(s: State<S>): Option<State<S>> {
    if !s.parserPc.ReturnBuffer? then None
    else
      var pool := if s.PrefetcherGone() then s.bufferPool else s.bufferPool + [[]];
      Some(s.(bufferPool := pool, parserPc := TryParse(s.parserPc.chunk)))
  }

  function NextParserParse<S>(cfg: Config<S>, s: State<S>): Option<State<S>> {
    if !s.parserPc.TryParse? then None
    else
      match Attempt(cfg.step, s.parser)
      case Crashed => Some(s.(parserPc := ParserPanicked))
      case Waiting(t) => Some(s.(parser := t, parserPc := AwaitData))
      case Parsed(t) =>
        if t.processedLen > cfg.FileLen() then Some(s.(parserPc := ParserPanicked))
        else Some(s.(parser := t, parserPc := SendProgress))
  }

  function NextParserProgress<S>(s: State<S>): Option<State<S>> {
    if !s.parserPc.SendProgress? then None
    else if s.Finished() then Some(s.(parserPc := ParserPanicked))
    else Some(s.(progress := s.progress + [s.parser.processedLen], parserPc := AwaitVec))
  }

  function NextParserSwap<S>(s: State<S>): Option<State<S>> {
    if !s.parserPc.AwaitVec? then None
    else if s.vecPool != [] then
      Some(s.(parserPc := SendBatch(s.parser.pooledVec), vecPool := s.vecPool[1..],
              parser := s.parser.(pooledVec := s.vecPool[0])))
    else if s.RecorderGone() then Some(s.(parserPc := ParserPanicked))
    else None
  }

  function NextParserSend<S>(s: State<S>): Option<State<S>> {
    if !s.parserPc.SendBatch? then None
    else if s.RecorderGone() then Some(s.(parserPc := ParserPanicked))
    else
      Some(s.(batches := s.batches + [s.parserPc.batch], parserPc := AwaitData,
              parser := s.parser.(needed := 0)))
  }

  /** Once the parser has gone and its batches are used up, the report is built and sent. */
  function NextRecorderRecv<S>(cfg: Config<S>, s: State<S>): Option<State<S>> {
    if !s.recorderPc.AwaitBatch? then None
    else if s.batches != [] then
      var batch := s.batches[0];
      Some(s.(batches := s.batches[1..], recorderPc := ReturnVec,
              recorder := Fold(cfg.record, s.recorder, batch), recorded := s.recorded + batch))
    else if !s.ParserGone() then None
    else
      match cfg.report(s.recorder)
      case BuildOverflows => Some(s.(recorderPc := RecorderOverflowed, main := Aborted))
      case BuildPanics => Some(s.(recorderPc := RecorderPanicked))
      case Built =>
        if s.Finished() then Some(s.(recorderPc := RecorderPanicked))
        else Some(s.(results := s.results + [s.recorder], recorderPc := RecorderDone))
  }

  /** The vector goes back cleared; after the parser has gone it is dropped without an error. */
  function NextRecorderReturn<S>(s: State<S>): Option<State<S>> {
    if !s.recorderPc.ReturnVec? then None
    else
      var pool := if s.ParserGone() then s.vecPool else s.vecPool + [[]];
      Some(s.(vecPool := pool, recorderPc := AwaitBatch))
  }

  function NextMain<S>(s: State<S>): Option<State<S>> {
    match s.main
    case ShowProgress =>
      if s.progress != [] then Some(s.(shown := s.progress[0], progress := s.progress[1..]))
      else if s.ParserGone() then Some(s.(main := AwaitResult))
      else None
    case AwaitResult =>
      if s.results != [] then Some(s.(main := JoinPrefetcher(s.results[0]), results := s.results[1..]))
      else if s.RecorderGone() then Some(s.(main := MainPanicked))
      else None
    case JoinPrefetcher(r) =>
      if s.prefetcher.PrefetchPanicked? then Some(s.(main := ReturnedErr))
      else if s.prefetcher.PrefetchDone? then Some(s.(main := JoinParser(r)))
      else None
    case JoinParser(r) =>
      if s.parserPc.ParserPanicked? then Some(s.(main := ReturnedErr))
      else if s.parserPc.ParserDone? then Some(s.(main := JoinRecorder(r)))
      else None
    case JoinRecorder(r) =>
      if s.recorderPc.RecorderPanicked? then Some(s.(main := ReturnedErr))
      else if s.recorderPc.RecorderDone? then Some(s.(main := ReturnedOk(r)))
      else None
    case _ => None
  }

  /** The state after a whole schedule, or `None` if some action of it was not enabled. */
  function Run<S>(cfg: Config<S>, schedule: seq<Action>): Option<State<S>> {
    if schedule == [] then Some(Init(cfg))
    else
      match Run(cfg, schedule[..|schedule| - 1])
      case None => None
      case Some(s) => Next(cfg, s, schedule[|schedule| - 1])
  }
}
