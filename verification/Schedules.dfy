/** Files whose read panics: what has been sent on by then depends on the read size alone, so that on
    every file all schedules end alike. */
module Schedules {
  import opened Nom
  import opened Records
  import opened Streaming
  import opened Sequences
  import opened Pipeline
  import opened PipelineProofs

  /** The parser has been fed exactly the first `j` reads; the others are queued, in order. */
  ghost predicate QueueAt<S>(cfg: Config<S>, readLen: nat, data: seq<Bytes>, j: nat) {
    && readLen == cfg.Cut(j + |data|)
    && readLen - |Flatten(data)| == cfg.Cut(j)
    && (forall k :: 0 <= k < |data| ==> |data[k]| == ReadLen(cfg, j + k))
  }

  function ReadLen<S>(cfg: Config<S>, k: nat): nat {
    |cfg.NextChunk(cfg.Cut(k))|
  }

  ghost predicate AtRead<S>(cfg: Config<S>, s: State<S>, j: nat) {
    && QueueAt(cfg, s.readLen, s.data, j)
    && match s.parserPc
       case ReturnBuffer(c) => j > 0 && |c| == ReadLen(cfg, j - 1)
       case TryParse(c) => j > 0 && |c| == ReadLen(cfg, j - 1)
       case _ => true
  }

  /** The read of the body panics in its `j + 1`-st chunk, and all records before it are `sent`. */
  ghost predicate CrashedAt<S>(cfg: Config<S>, j: nat, sent: seq<Record>) {
    && Drain(cfg.step, 0, cfg.body[..cfg.Cut(j)]).stop.NeedMore?
    && Drain(cfg.step, 0, cfg.body[..cfg.Cut(j)]).records == sent
    && Drain(cfg.step, 0, cfg.body[..cfg.Cut(j + 1)]).stop.Panicked?
  }

  ghost predicate ReadByRead<S>(cfg: Config<S>, s: State<S>) {
    if s.parserPc.ParserPanicked? then exists j: nat :: CrashedAt(cfg, j, Sent(s))
    else exists j: nat :: AtRead(cfg, s, j)
  }

  // ---- kept by every action ----

  lemma QueuePush<S>(cfg: Config<S>, readLen: nat, data: seq<Bytes>, j: nat)
    requires QueueAt(cfg, readLen, data, j) && readLen <= |cfg.body|
    ensures var c := cfg.NextChunk(readLen);
            QueueAt(cfg, readLen + |c|, data + [c], j)
  {
    hide Flatten;
    FlattenPush(data, cfg.NextChunk(readLen));
  }

  lemma QueuePop<S>(cfg: Config<S>, readLen: nat, data: seq<Bytes>, j: nat)
    requires QueueAt(cfg, readLen, data, j) && data != []
    ensures QueueAt(cfg, readLen, data[1..], j + 1) && |data[0]| == ReadLen(cfg, j)
  {
    hide Flatten, ReadLen;
    FlattenPop(data);
    assert |data[0]| == ReadLen(cfg, j + 0);
    CutNext(cfg, j);
    forall k | 0 <= k < |data[1..]|
      ensures |data[1..][k]| == ReadLen(cfg, j + 1 + k)
    {
      assert |data[k + 1]| == ReadLen(cfg, j + (k + 1));
    }
  }

  lemma CutNext<S>(cfg: Config<S>, j: nat)
    ensures cfg.Cut(j + 1) == cfg.Cut(j) + ReadLen(cfg, j)
  {
  }

  lemma PrefetchReads<S>(cfg: Config<S>, s: State<S>, a: Action, t: State<S>)
    requires a.PrefetchRecv? || a.PrefetchSend? || a.PrefetchExit?
    requires cfg.Valid() && CoreInv(cfg, s) && ReadByRead(cfg, s) && Next(cfg, s, a) == Some(t)
    ensures ReadByRead(cfg, t)
  {
    hide ParserInStep, Drain, Fed, Flatten, QueueAt, ReadLen, CrashedAt;
    assert Sent(t) == Sent(s) && t.parserPc == s.parserPc;
    if !s.parserPc.ParserPanicked? {
      var j: nat :| AtRead(cfg, s, j);
      if a.PrefetchSend? && !s.ParserGone() {
        QueuePush(cfg, s.readLen, s.data, j);
      }
      assert AtRead(cfg, t, j);
    }
  }

  lemma ParserTakes<S>(cfg: Config<S>, s: State<S>, t: State<S>)
    requires ReadByRead(cfg, s) && NextParserRecv(s) == Some(t)
    ensures ReadByRead(cfg, t)
  {
    hide QueueAt, ReadLen, CrashedAt;
    var j: nat :| AtRead(cfg, s, j);
    if s.data == [] {
      assert AtRead(cfg, t, j);
    } else {
      QueuePop(cfg, s.readLen, s.data, j);
      assert AtRead(cfg, t, j + 1);
    }
  }

  lemma FedAt<S>(cfg: Config<S>, readLen: nat, data: seq<Bytes>, j: nat)
    requires QueueAt(cfg, readLen, data, j) && |Flatten(data)| <= readLen <= |cfg.body|
    ensures Fed(cfg.body, readLen, data) == cfg.body[..cfg.Cut(j)]
    ensures j > 0 ==> cfg.body[..cfg.Cut(j - 1)] == cfg.body[..cfg.Cut(j)][..cfg.Cut(j) - ReadLen(cfg, j - 1)]
  {
    hide Flatten, ReadLen;
    if j > 0 {
      CutNext(cfg, j - 1);
      assert cfg.body[..cfg.Cut(j)][..cfg.Cut(j - 1)] == cfg.body[..cfg.Cut(j - 1)];
    }
  }

  lemma CrashHere<S>(cfg: Config<S>, s: State<S>, j: nat)
    requires CoreInv(cfg, s) && s.parserPc.TryParse? && AtRead(cfg, s, j) && Attempt(cfg.step, s.parser).Crashed?
    ensures j > 0 && CrashedAt(cfg, j - 1, Sent(s))
  {
    hide Drain, Flatten, Attempt, ReadLen;
    var c, fed, buffer := s.parserPc.chunk, Fed(cfg.body, s.readLen, s.data), s.parser.loopBuffer;
    var fed0, before := fed[..|fed| - |c|], s.parser.(loopBuffer := buffer[..|buffer| - |c|]);
    assert before.(loopBuffer := before.loopBuffer + c) == s.parser;
    ChunkKeepsUp(cfg.step, HEADER_LEN, fed0, Sent(s), before, c);
    FedAt(cfg, s.readLen, s.data, j);
  }

  lemma ParserTries<S>(cfg: Config<S>, s: State<S>, t: State<S>)
    requires CoreInv(cfg, s) && ReadByRead(cfg, s) && NextParserParse(cfg, s) == Some(t)
    ensures ReadByRead(cfg, t)
  {
    hide CoreInv, QueueAt, Attempt, CrashedAt;
    ParserParseCore(cfg, s, t);
    var j: nat :| AtRead(cfg, s, j);
    if Attempt(cfg.step, s.parser).Crashed? {
      CrashHere(cfg, s, j);
      assert Sent(t) == Sent(s);
      assert CrashedAt(cfg, j - 1, Sent(t));
    } else {
      assert AtRead(cfg, t, j);
    }
  }

  lemma ParserGoesOn<S>(cfg: Config<S>, s: State<S>, a: Action, t: State<S>)
    requires a.ParserReturn? || a.ParserProgress? || a.ParserSwap? || a.ParserSend?
    requires SideInv(cfg, s) && ReadByRead(cfg, s) && Next(cfg, s, a) == Some(t)
    ensures ReadByRead(cfg, t)
  {
    hide Fold, RisesTo, Flatten, Drain;
    var j: nat :| AtRead(cfg, s, j);
    assert AtRead(cfg, t, j);
  }

  lemma OthersRead<S>(cfg: Config<S>, s: State<S>, t: State<S>)
    requires ReadByRead(cfg, s) && t.readLen == s.readLen && t.data == s.data && t.parserPc == s.parserPc
    requires Sent(t) == Sent(s)
    ensures ReadByRead(cfg, t)
  {
    hide Drain, Flatten, Sent;
    if s.parserPc.ParserPanicked? {
      var j: nat :| CrashedAt(cfg, j, Sent(s));
      assert CrashedAt(cfg, j, Sent(t));
    } else {
      var j: nat :| AtRead(cfg, s, j);
      assert AtRead(cfg, t, j);
    }
  }

  lemma RecorderReads<S>(cfg: Config<S>, s: State<S>, a: Action, t: State<S>)
    requires a.RecorderRecv? || a.RecorderReturn?
    requires ReadByRead(cfg, s) && Next(cfg, s, a) == Some(t)
    ensures ReadByRead(cfg, t)
  {
    hide ReadByRead, Flatten, Fold;
    if a.RecorderRecv? && s.batches != [] {
      FlattenPop(s.batches);
      var b, later := s.batches[0], Flatten(t.batches);
      assert s.recorded + (b + later) == (s.recorded + b) + later;
    }
    OthersRead(cfg, s, t);
  }

  lemma StepReads<S>(cfg: Config<S>, s: State<S>, a: Action, t: State<S>)
    requires cfg.Valid() && Inv(cfg, s) && ReadByRead(cfg, s) && Next(cfg, s, a) == Some(t)
    ensures ReadByRead(cfg, t)
  {
    hide ReadByRead, CoreInv, SideInv;
    match a
    case PrefetchRecv => PrefetchReads(cfg, s, a, t);
    case PrefetchSend => PrefetchReads(cfg, s, a, t);
    case PrefetchExit => PrefetchReads(cfg, s, a, t);
    case ParserRecv => ParserTakes(cfg, s, t);
    case ParserParse => ParserTries(cfg, s, t);
    case RecorderRecv => RecorderReads(cfg, s, a, t);
    case RecorderReturn => RecorderReads(cfg, s, a, t);
    case MainStep =>
      MainFrame(s, t);
      OthersRead(cfg, s, t);
    case _ => ParserGoesOn(cfg, s, a, t);
  }

  lemma {:induction false} RunReads<S>(cfg: Config<S>, schedule: seq<Action>)
    requires cfg.Valid() && Run(cfg, schedule).Some?
    ensures ReadByRead(cfg, Run(cfg, schedule).value)
  {
    if schedule == [] {
      assert AtRead(cfg, Init(cfg), 0);
    } else {
      var n := |schedule| - 1;
      RunReads(cfg, schedule[..n]);
      RunKeeps(cfg, schedule[..n]);
      StepReads(cfg, Run(cfg, schedule[..n]).value, schedule[n], Run(cfg, schedule).value);
    }
  }

  // ---- all schedules end alike ----

  lemma {:induction false} CutsRise<S>(cfg: Config<S>, i: nat, j: nat)
    requires i <= j
    ensures cfg.Cut(i) <= cfg.Cut(j)
    decreases j
  {
    if i < j {
      CutsRise(cfg, i, j - 1);
    }
  }

  /** Each read is a full one, but for the last. */
  lemma {:induction false} CutsAreMultiples<S>(cfg: Config<S>, k: nat)
    ensures cfg.Cut(k) == if k * cfg.readSize <= |cfg.body| then k * cfg.readSize else |cfg.body|
  {
    if k > 0 {
      CutsAreMultiples(cfg, k - 1);
      assert k * cfg.readSize == (k - 1) * cfg.readSize + cfg.readSize;
    }
  }

  lemma CrashedOnce<S>(cfg: Config<S>, i: nat, sent: seq<Record>, j: nat, sent': seq<Record>)
    requires CrashedAt(cfg, i, sent) && CrashedAt(cfg, j, sent')
    ensures i >= j
  {
    hide Drain;
    if i < j {
      CutsRise(cfg, i + 1, j);
      var early, late := cfg.body[..cfg.Cut(i + 1)], cfg.body[..cfg.Cut(j)];
      assert late == early + late[|early|..];
      DrainPrefix(cfg.step, 0, early, late[|early|..]);
      assert false;
    }
  }

  /** Schedule independence on every file, also where its read panics: two finished runs with the same
      read size have recorded the same records and end in the same way. */
  lemma AllSchedulesEndAlike<S>(cfg: Config<S>, schedule: seq<Action>, schedule': seq<Action>)
    requires cfg.Valid()
    requires Run(cfg, schedule).Some? && Run(cfg, schedule).value.Finished()
    requires Run(cfg, schedule').Some? && Run(cfg, schedule').value.Finished()
    ensures Run(cfg, schedule).value.recorded == Run(cfg, schedule').value.recorded
    ensures Run(cfg, schedule).value.main == Run(cfg, schedule').value.main
  {
    hide Run, Drain, Verdict;
    var s, s' := Run(cfg, schedule).value, Run(cfg, schedule').value;
    FinishedRun(cfg, schedule);
    FinishedRun(cfg, schedule');
    if Drain(cfg.step, 0, cfg.body).stop.Panicked? {
      var j := CrashFound(cfg, schedule);
      var j' := CrashFound(cfg, schedule');
      CrashedOnce(cfg, j, s.recorded, j', s'.recorded);
      CrashedOnce(cfg, j', s'.recorded, j, s.recorded);
    }
  }

  lemma CrashFound<S>(cfg: Config<S>, schedule: seq<Action>) returns (j: nat)
    requires cfg.Valid() && Run(cfg, schedule).Some? && Run(cfg, schedule).value.Finished()
    requires Drain(cfg.step, 0, cfg.body).stop.Panicked?
    ensures CrashedAt(cfg, j, Run(cfg, schedule).value.recorded)
  {
    hide Run, Drain, RisesTo, Fold;
    var s := Run(cfg, schedule).value;
    RunKeeps(cfg, schedule);
    RunReads(cfg, schedule);
    FinishedRun(cfg, schedule);
    assert s.parserPc.ParserPanicked?;
    j :| CrashedAt(cfg, j, Sent(s));
    assert Sent(s) == s.recorded;
  }
}
