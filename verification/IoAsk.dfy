/** Dispatch: which commands are refused at once, and with which error. */
module IoAsk {
  import opened Base
  import opened Tags
  import opened Chunk
  import opened IoCore
  import opened IoBook
  import opened IoPath
  import opened IoKeep
  import opened IoSend

  function RcOf(turn: Turn): int { if turn == Sent then ASYNC else turn.err }

  /** One command carries the request. */
  ghost predicate WholeGoes(env: Env, k: Core, live: bool, sqe: Sqe, off: nat, rc: int) {
    exists turn :: Answers(env, k, live, sqe, off, turn) && rc == RcOf(turn)
  }

  /** A context carries it: refused while the controller is not live, without memory
      for the context, or when its first chunk fails; a first chunk that is only
      held up is parked with the context. */
  ghost predicate ChunksGo(cfg: Config, env: Env, s: State, op: Op, unit: Unit, lba: nat, bytes: nat, off: nat,
                           rc: int) {
    if !s.live then rc == IOERR_UNITBUSY
    else if !env.grant(s.core.clock) then rc == IOERR_SELFTEST
    else
      var first := Sqe(op, unit.shift, lba, NextBytes(cfg.limits, unit, op, lba, bytes), 0);
      exists turn :: Answers(env, s.core.(clock := s.core.clock + 1), true, first, off, turn)
                     && rc == if turn.Fault? then turn.err else ASYNC
  }

  /** A range buffer and one command carry it. */
  ghost predicate RangesGo(env: Env, s: State, ranges: seq<Range>, ok: bool, rc: int) {
    if !env.grant(s.core.clock) then rc == IOERR_SELFTEST
    else if !ok then rc == IOERR_BADADDRESS
    else exists turn :: DsmAnswers(env, s.core, s.live, ranges, turn) && rc == RcOf(turn)
  }

  /** Past the end of the namespace, in the 64-bit sum the driver compares. */
  predicate Beyond(u: Unit, lba: nat, blocks: nat) {
    u.logicalSectors > 0 && (lba + blocks) % 0x1_0000_0000_0000_0000 > u.logicalSectors
  }

  /** What dispatch answers to a command, check by check. */
  ghost predicate GoesAs(cfg: Config, env: Env, s: State, cmd: Cmd, rc: int) {
    match cmd
    case RwCmd(unit, write, lba, blocks, nullBuf, bufOff, _, _) =>
      var op := if write then Write else Read;
      var bytes := blocks * BlockSize(unit.shift);
      var cap := RwCap(cfg.limits, unit.shift, lba);
      if blocks == 0 then rc == IOERR_BADLENGTH
      else if nullBuf || Beyond(unit, lba, blocks) then rc == IOERR_BADADDRESS
      else if cap == 0 || bytes <= cap then
        WholeGoes(env, s.core, s.live, Sqe(op, unit.shift, lba, bytes, 0), bufOff, rc)
      else ChunksGo(cfg, env, s, op, unit, lba, bytes, bufOff, rc)
    case ZeroesCmd(unit, lba, blocks, _) =>
      var bytes := blocks * BlockSize(unit.shift);
      if blocks == 0 then rc == IOERR_BADLENGTH
      else if Beyond(unit, lba, blocks) then rc == IOERR_BADADDRESS
      else if cfg.deallocZeroes then RangesGo(env, s, [Range(lba, blocks)], true, rc)
      else if cfg.maxZeroes == 0 then rc == IOERR_NOCMD
      else if bytes <= unit.wzMax then
        WholeGoes(env, s.core, s.live, Sqe(Zeroes, unit.shift, lba, bytes, 0), 0, rc)
      else ChunksGo(cfg, env, s, Zeroes, unit, lba, bytes, 0, rc)
    case FlushCmd(unit, _) => WholeGoes(env, s.core, s.live, Sqe(Flush, unit.shift, 0, 0, 0), 0, rc)
    case TrimCmd(unit, ranges, _) =>
      if |ranges| == 0 || |ranges| > 256 then rc == IOERR_BADLENGTH
      else RangesGo(env, s, ranges, GoodRanges(unit, ranges), rc)
  }

  /** Every range names blocks, all of them in the namespace. */
  ghost predicate GoodRanges(unit: Unit, ranges: seq<Range>) {
    forall r :: r in ranges ==> r.blocks > 0 && !Beyond(unit, r.lba, r.blocks)
  }

  /** A context that holds `io` has been pumped as far as it goes. */
  ghost predicate Filled(cfg: Config, env: Env, s: State, io: nat) {
    forall c :: c in s.book.ctxs && s.book.ctxs[c].io == io ==> exists tried :: PumpEnd(cfg, env, s, c, tried)
  }

  /** What dispatch accepted rests in one command or in a pumped context. */
  ghost predicate Rests(cfg: Config, env: Env, io: nat, s: State, rc: int) { rc == ASYNC ==> Filled(cfg, env, s, io) }

  lemma NoCtxYet(cfg: Config, s: State, io: nat)
    requires Dispatching(cfg, s, io)
    ensures forall c :: c in s.book.ctxs ==> s.book.ctxs[c].io != io
  {
    assert OwnersOk(s.book, Some(io));
  }

  lemma SameCtxsFilled(cfg: Config, env: Env, s: State, io: nat, s': State)
    requires s'.book.ctxs == s.book.ctxs && forall c :: c in s.book.ctxs ==> s.book.ctxs[c].io != io
    ensures Filled(cfg, env, s', io)
  {
    hide PumpEnd;
  }

  lemma SingleRests(cfg: Config, env: Env, s: State, io: nat, job: Job)
    requires Dispatching(cfg, s, io) && OneShot(cfg, job) && CoreOk(s.core, None, {})
    ensures var (s', rc) := SingleShot(cfg, env, s, io, job); Rests(cfg, env, io, s', rc)
  {
    NoCtxYet(cfg, s, io);
    SingleCtxs(cfg, env, s, io, job);
    hide Dispatching, OneShot, CoreOk, SingleShot, Filled;
    SameCtxsFilled(cfg, env, s, io, SingleShot(cfg, env, s, io, job).0);
  }

  lemma SingleCtxs(cfg: Config, env: Env, s: State, io: nat, job: Job)
    requires Dispatching(cfg, s, io) && OneShot(cfg, job) && CoreOk(s.core, None, {})
    ensures SingleShot(cfg, env, s, io, job).0.book.ctxs == s.book.ctxs
  {
    hide Dispatching, Dispatched, CoreOk, OneShot, Launched, Spent, Sendable, TryCommand;
    WholeSendable(cfg, job, WholeTile(s.core.nextReq, job));
  }

  lemma TrimRests(cfg: Config, env: Env, s: State, io: nat, unit: Unit, ranges: seq<Range>, ok: bool, length: nat)
    requires Dispatching(cfg, s, io)
    ensures var (s', rc) := SubmitTrim(cfg, env, s, io, unit, ranges, ok, length); Rests(cfg, env, io, s', rc)
  {
    NoCtxYet(cfg, s, io);
    TrimCtxs(cfg, env, s, io, unit, ranges, ok, length);
    hide Dispatching, SubmitTrim, Filled;
    SameCtxsFilled(cfg, env, s, io, SubmitTrim(cfg, env, s, io, unit, ranges, ok, length).0);
  }

  lemma TrimCtxs(cfg: Config, env: Env, s: State, io: nat, unit: Unit, ranges: seq<Range>, ok: bool, length: nat)
    requires Dispatching(cfg, s, io)
    ensures SubmitTrim(cfg, env, s, io, unit, ranges, ok, length).0.book.ctxs == s.book.ctxs
  {
    DispatchingCore(cfg, s, io);
    TrimGoes(cfg, env, s, io, unit, ranges, ok, length);
    var job := Dataless(unit, Trim(ranges), length);
    var p := Single(io, job, WholeTile(s.core.nextReq, job));
    assert AddSingle(s.book, s.core.nextReq, p).ctxs == s.book.ctxs;
    hide *;
  }

  lemma PumpedFilled(cfg: Config, env: Env, s: State, io: nat, c: nat, s2: State, tried: Option<Core>)
    requires PumpEnd(cfg, env, s2, c, tried) && OwnersOk(s2.book, None) && c in s2.book.ctxs
    requires s2.book.ctxs[c].io == io
    ensures Filled(cfg, env, s2, io)
  {
    hide PumpEnd;
    forall d | d in s2.book.ctxs && s2.book.ctxs[d].io == io ensures exists t :: PumpEnd(cfg, env, s2, d, t) {
      assert d == c;
    }
  }

  lemma MultiRests(cfg: Config, env: Env, s: State, io: nat, job: Job)
    requires Dispatching(cfg, s, io) && JobOk(cfg.limits, job) && IsData(job.op) && job.total > 0
    ensures var (s', rc) := MultiShot(cfg, env, s, io, job); Rests(cfg, env, io, s', rc)
  {
    OpenedFrame(s, io, job);
    hide Inv, Dispatching, JobOk, Asked, Opened, MultiShot, Pump, PumpEnd, Filled, Pumpable, PumpFrame;
    if s.live && env.grant(s.core.clock) {
      MultiPumps(cfg, env, s, io, job);
      var s1, c := Opened(s, io, job), s.book.nextCtx;
      var (s2, rc) := Pump(cfg, env, s1, c);
      var tried := PumpExact(cfg, env, s1, c);
      FrameIo(s1, s2, c);
      if rc == ASYNC {
        MultiOwners(cfg, env, s, io, job);
        PumpedFilled(cfg, env, s, io, c, s2, tried);
      }
    } else {
      MultiIdle(cfg, env, s, io, job);
    }
  }

  lemma FrameIo(s: State, s': State, c: nat)
    requires PumpFrame(s, s', c)
    ensures c in s.book.ctxs && c in s'.book.ctxs && s'.book.ctxs[c].io == s.book.ctxs[c].io
  {
  }

  lemma MultiOwners(cfg: Config, env: Env, s: State, io: nat, job: Job)
    requires Dispatching(cfg, s, io) && JobOk(cfg.limits, job) && IsData(job.op) && job.total > 0
    ensures var (s', rc) := MultiShot(cfg, env, s, io, job); rc == ASYNC ==> OwnersOk(s'.book, None)
  {
    var (s', rc) := MultiShot(cfg, env, s, io, job);
    assert Dispatched(cfg, s, io, s', rc);
    hide MultiShot, Dispatching, OwnersOk;
  }

  lemma SingleExact(cfg: Config, env: Env, s: State, io: nat, job: Job)
    requires Dispatching(cfg, s, io) && OneShot(cfg, job) && CoreOk(s.core, None, {})
    ensures var sqe := Sqe(job.op, job.unit.shift, job.lba, job.total, 0);
            WholeGoes(env, s.core, s.live, sqe, job.bufOff, SingleShot(cfg, env, s, io, job).1)
  {
    hide Dispatching, Dispatched, CoreOk, OneShot, Launched, Spent, Sendable, TryCommand, Answers;
    var t := WholeTile(s.core.nextReq, job);
    WholeSendable(cfg, job, t);
    TryExact(env, s.core, s.live, SqeOf(job, t), job.bufOff);
  }

  /** The first pump of a context fails exactly when its first chunk does. */
  lemma FirstPump(cfg: Config, env: Env, s: State, c: nat)
    requires Pumpable(cfg, s, c) && c in s.book.ctxs && s.book.ctxs[c].dispatched == 0
    requires s.book.ctxs[c].job.total > 0 && s.book.ctxs[c].inflight == 0 && 0 < SibCap(cfg)
    ensures var turn := PumpTurn(cfg, env, s, c).1;
            Pump(cfg, env, s, c).1 == if turn.Fault? then turn.err else ASYNC
  {
    hide Pumpable, PumpFrame, PumpTurn, Pump, Inv, Stall, Latch;
    var (s1, turn) := PumpTurn(cfg, env, s, c);
    if turn == Sent {
      PumpNext(cfg, env, s, c);
      PumpGoesOn(cfg, env, s, c);
      FlyingPump(cfg, env, s1, c);
    } else {
      PumpBreaks(cfg, env, s, c);
    }
  }

  /** With a chunk in flight the pump leaves the answer to the completions. */
  lemma FlyingPump(cfg: Config, env: Env, s: State, c: nat)
    requires Pumpable(cfg, s, c) && c in s.book.ctxs && s.book.ctxs[c].inflight > 0
    requires s.book.ctxs[c].dispatched <= s.book.ctxs[c].job.total
    ensures Pump(cfg, env, s, c).1 == ASYNC
    decreases s.book.ctxs[c].job.total - s.book.ctxs[c].dispatched
  {
    hide Pumpable, PumpFrame, PumpTurn, Pump, Inv, Stall, Latch, SibCap;
    var k := s.book.ctxs[c];
    if k.dispatched == k.job.total || k.inflight >= SibCap(cfg) {
      PumpEnds(cfg, env, s, c);
    } else {
      var (s1, turn) := PumpTurn(cfg, env, s, c);
      if turn == Sent {
        PumpNext(cfg, env, s, c);
        PumpGoesOn(cfg, env, s, c);
        FlyingPump(cfg, env, s1, c);
      } else {
        PumpBreaks(cfg, env, s, c);
      }
    }
  }

  lemma SomeCap(cfg: Config, s: State, io: nat)
    requires Dispatching(cfg, s, io)
    ensures 0 < SibCap(cfg)
  {
  }

  lemma OpenedFirst(cfg: Config, s: State, io: nat, job: Job)
    requires job.bufOff < PAGE && job.total > 0
    ensures var s1 := Opened(s, io, job);
            var c := s.book.nextCtx;
            && s1.core == s.core.(clock := s.core.clock + 1)
            && c in s1.book.ctxs && s1.book.ctxs[c].dispatched == 0 && s1.book.ctxs[c].inflight == 0
            && s1.book.ctxs[c].job == job
            && NextSqe(cfg.limits, s1.book.ctxs[c])
               == Sqe(job.op, job.unit.shift, job.lba, NextBytes(cfg.limits, job.unit, job.op, job.lba, job.total), 0)
            && NextOff(s1.book.ctxs[c]) == job.bufOff
  {
    assert 0 / BlockSize(job.unit.shift) == 0;
    hide NextBytes, BlockSize;
  }

  lemma ChunksWith(cfg: Config, env: Env, s: State, job: Job, s1: State, k: Ctx, turn: Turn, rc: int)
    requires s.live && env.grant(s.core.clock) && s1.core == s.core.(clock := s.core.clock + 1)
    requires k.dispatched <= k.job.total && NextOff(k) == job.bufOff
    requires NextSqe(cfg.limits, k)
             == Sqe(job.op, job.unit.shift, job.lba, NextBytes(cfg.limits, job.unit, job.op, job.lba, job.total), 0)
    requires Answers(env, s1.core, true, NextSqe(cfg.limits, k), NextOff(k), turn)
    requires rc == if turn.Fault? then turn.err else ASYNC
    ensures ChunksGo(cfg, env, s, job.op, job.unit, job.lba, job.total, job.bufOff, rc)
  {
    hide Answers, NextSqe, NextOff, NextBytes;
  }

  lemma MultiFirst(cfg: Config, env: Env, s: State, io: nat, job: Job)
    requires Dispatching(cfg, s, io) && JobOk(cfg.limits, job) && IsData(job.op) && job.total > 0
    requires s.live && env.grant(s.core.clock)
    ensures ChunksGo(cfg, env, s, job.op, job.unit, job.lba, job.total, job.bufOff, MultiShot(cfg, env, s, io, job).1)
  {
    SomeCap(cfg, s, io);
    OpenedFirst(cfg, s, io, job);
    assert job.bufOff < PAGE;
    hide *;
    MultiPumps(cfg, env, s, io, job);
    var s1, c := Opened(s, io, job), s.book.nextCtx;
    FirstPump(cfg, env, s1, c);
    TurnExact(cfg, env, s1, c);
    ChunksWith(cfg, env, s, job, s1, s1.book.ctxs[c], PumpTurn(cfg, env, s1, c).1, MultiShot(cfg, env, s, io, job).1);
  }

  lemma MultiExact(cfg: Config, env: Env, s: State, io: nat, job: Job)
    requires Dispatching(cfg, s, io) && JobOk(cfg.limits, job) && IsData(job.op) && job.total > 0
    ensures ChunksGo(cfg, env, s, job.op, job.unit, job.lba, job.total, job.bufOff, MultiShot(cfg, env, s, io, job).1)
  {
    hide Inv, Dispatching, JobOk, Asked, MultiShot;
    if s.live && env.grant(s.core.clock) { MultiFirst(cfg, env, s, io, job); } else { MultiIdle(cfg, env, s, io, job); }
  }

  lemma TrimExact(cfg: Config, env: Env, s: State, io: nat, unit: Unit, ranges: seq<Range>, ok: bool, length: nat)
    requires Dispatching(cfg, s, io)
    ensures RangesGo(env, s, ranges, ok, SubmitTrim(cfg, env, s, io, unit, ranges, ok, length).1)
  {
    DispatchingCore(cfg, s, io);
    var job := Dataless(unit, Trim(ranges), length);
    var sqe := SqeOf(job, WholeTile(s.core.nextReq, job));
    assert sqe.op == Trim(ranges);
    TrimGoes(cfg, env, s, io, unit, ranges, ok, length);
    DsmExact(env, s.core, s.live, sqe);
    hide Inv, Dispatching, SubmitTrim, DsmAnswers, CoreOk, TryDsm, Dataless, WholeTile, SqeOf, AddSingle, Asked;
  }

  lemma NoBytes(blocks: nat, bs: nat)
    requires bs > 0
    ensures blocks * bs == 0 <==> blocks == 0
  {
  }

  lemma BeyondIs(u: Unit, lba: nat, blocks: nat)
    ensures OutOfRange(u, lba, blocks) <==> Beyond(u, lba, blocks)
  {
  }

  lemma RwExact(cfg: Config, env: Env, s: State, io: nat, cmd: Cmd)
    requires cmd.RwCmd? && CmdOk(cfg, cmd) && Dispatching(cfg, s, io)
    ensures GoesAs(cfg, env, s, cmd, SubmitRw(cfg, env, s, io, cmd).1)
    ensures Rests(cfg, env, io, SubmitRw(cfg, env, s, io, cmd).0, SubmitRw(cfg, env, s, io, cmd).1)
  {
    var bytes := cmd.blocks * BlockSize(cmd.unit.shift) % U32;
    Fits32(cmd.blocks, BlockSize(cmd.unit.shift));
    NoBytes(cmd.blocks, BlockSize(cmd.unit.shift));
    BeyondIs(cmd.unit, cmd.lba, cmd.blocks);
    var cap := RwCap(cfg.limits, cmd.unit.shift, cmd.lba);
    var job := Job(cmd.unit, if cmd.write then Write else Read, cmd.lba, bytes, cmd.bufOff, cmd.length, cmd.trackdisk);
    JobFits(cfg, job, cmd.blocks);
    DispatchingCore(cfg, s, io);
    hide Inv, Dispatching, Dispatched, JobOk, OneShot, RwCap, SingleShot, MultiShot, CoreOk, WholeGoes, ChunksGo,
      OutOfRange, Beyond;
    if bytes == 0 || cmd.nullBuf || OutOfRange(cmd.unit, cmd.lba, cmd.blocks) {
    } else if cap == 0 || bytes <= cap {
      SingleExact(cfg, env, s, io, job);
      SingleRests(cfg, env, s, io, job);
    } else {
      MultiExact(cfg, env, s, io, job);
      MultiRests(cfg, env, s, io, job);
    }
  }

  lemma ZeroesExact(cfg: Config, env: Env, s: State, io: nat, cmd: Cmd)
    requires cmd.ZeroesCmd? && CmdOk(cfg, cmd) && Dispatching(cfg, s, io)
    ensures GoesAs(cfg, env, s, cmd, SubmitZeroes(cfg, env, s, io, cmd).1)
    ensures Rests(cfg, env, io, SubmitZeroes(cfg, env, s, io, cmd).0, SubmitZeroes(cfg, env, s, io, cmd).1)
  {
    var bytes := cmd.blocks * BlockSize(cmd.unit.shift) % U32;
    Fits32(cmd.blocks, BlockSize(cmd.unit.shift));
    BeyondIs(cmd.unit, cmd.lba, cmd.blocks);
    var job := Job(cmd.unit, Zeroes, cmd.lba, bytes, 0, cmd.length, true);
    ZeroesJob(cfg, cmd, job);
    DispatchingCore(cfg, s, io);
    hide Inv, Dispatching, Dispatched, JobOk, OneShot, RwCap, SingleShot, MultiShot, SubmitTrim, CoreOk, WholeGoes,
      ChunksGo, RangesGo, OutOfRange, Beyond, CmdOk, BlockSize;
    if cmd.blocks != 0 && !OutOfRange(cmd.unit, cmd.lba, cmd.blocks) {
      if cfg.deallocZeroes {
        TrimExact(cfg, env, s, io, cmd.unit, [Range(cmd.lba, cmd.blocks)], true, cmd.length);
        TrimRests(cfg, env, s, io, cmd.unit, [Range(cmd.lba, cmd.blocks)], true, cmd.length);
      } else if cfg.maxZeroes == 0 {
      } else if bytes <= cmd.unit.wzMax {
        SingleExact(cfg, env, s, io, job);
        SingleRests(cfg, env, s, io, job);
      } else {
        MultiExact(cfg, env, s, io, job);
        MultiRests(cfg, env, s, io, job);
      }
    }
  }

  lemma FlushExact(cfg: Config, env: Env, s: State, io: nat, cmd: Cmd)
    requires cmd.FlushCmd? && CmdOk(cfg, cmd) && Dispatching(cfg, s, io)
    ensures GoesAs(cfg, env, s, cmd, SubmitCmd(cfg, env, s, io, cmd).1)
    ensures Rests(cfg, env, io, SubmitCmd(cfg, env, s, io, cmd).0, SubmitCmd(cfg, env, s, io, cmd).1)
  {
    var job := Dataless(cmd.unit, Flush, cmd.length);
    DsmJob(cfg, job);
    DispatchingCore(cfg, s, io);
    assert job.op == Flush && job.unit == cmd.unit && job.lba == 0 && job.total == 0 && job.bufOff == 0;
    hide Inv, Dispatching, Dispatched, OneShot, CoreOk, SingleShot, CmdOk, WholeGoes, Dataless;
    SingleExact(cfg, env, s, io, job);
    SingleRests(cfg, env, s, io, job);
  }

  lemma RangesAgree(unit: Unit, ranges: seq<Range>)
    ensures RangesIn(unit, ranges) <==> GoodRanges(unit, ranges)
  {
    forall r: Range ensures OutOfRange(unit, r.lba, r.blocks) <==> Beyond(unit, r.lba, r.blocks) {
      BeyondIs(unit, r.lba, r.blocks);
    }
    hide OutOfRange, Beyond;
    if GoodRanges(unit, ranges) {
      forall i | 0 <= i < |ranges| ensures ranges[i].blocks != 0 && !OutOfRange(unit, ranges[i].lba, ranges[i].blocks) {
        assert ranges[i] in ranges;
      }
    }
  }

  lemma TrimCmdExact(cfg: Config, env: Env, s: State, io: nat, cmd: Cmd)
    requires cmd.TrimCmd? && CmdOk(cfg, cmd) && Dispatching(cfg, s, io)
    ensures GoesAs(cfg, env, s, cmd, SubmitCmd(cfg, env, s, io, cmd).1)
    ensures Rests(cfg, env, io, SubmitCmd(cfg, env, s, io, cmd).0, SubmitCmd(cfg, env, s, io, cmd).1)
  {
    RangesAgree(cmd.unit, cmd.ranges);
    hide Inv, Dispatching, Dispatched, CoreOk, SubmitTrim, CmdOk, RangesIn, GoodRanges, RangesGo, Dataless;
    if 0 < |cmd.ranges| <= DSM_MAX_RANGES {
      TrimExact(cfg, env, s, io, cmd.unit, cmd.ranges, RangesIn(cmd.unit, cmd.ranges), cmd.length);
      TrimRests(cfg, env, s, io, cmd.unit, cmd.ranges, RangesIn(cmd.unit, cmd.ranges), cmd.length);
      assert SubmitCmd(cfg, env, s, io, cmd)
             == SubmitTrim(cfg, env, s, io, cmd.unit, cmd.ranges, RangesIn(cmd.unit, cmd.ranges), cmd.length);
      hide SubmitCmd;
    }
  }

  lemma CmdExact(cfg: Config, env: Env, s: State, io: nat, cmd: Cmd)
    requires CmdOk(cfg, cmd) && Dispatching(cfg, s, io)
    ensures GoesAs(cfg, env, s, cmd, SubmitCmd(cfg, env, s, io, cmd).1)
    ensures Rests(cfg, env, io, SubmitCmd(cfg, env, s, io, cmd).0, SubmitCmd(cfg, env, s, io, cmd).1)
  {
    hide Dispatching, Dispatched, SubmitRw, SubmitZeroes, CmdOk, GoesAs;
    if cmd.RwCmd? {
      RwExact(cfg, env, s, io, cmd);
    } else if cmd.ZeroesCmd? {
      ZeroesExact(cfg, env, s, io, cmd);
    } else if cmd.FlushCmd? {
      FlushExact(cfg, env, s, io, cmd);
    } else {
      TrimCmdExact(cfg, env, s, io, cmd);
    }
  }

  /** A command is refused at once, with the code its checks give, or taken over
      under the job it asks for, in one command or in a context pumped as far as it
      goes. */
  lemma AcceptExact(cfg: Config, env: Env, s: State, cmd: Cmd) returns (rc: int)
    requires Rest(cfg, s) && CmdOk(cfg, cmd)
    ensures GoesAs(cfg, env, s, cmd, rc)
    ensures var io := s.book.nextIo;
            var b := Accept(cfg, env, s, cmd).book;
            if rc == ASYNC then
              && io !in b.replies && (exists job :: AskedFor(cfg, cmd, job) && HasJob(b, io, job))
              && Filled(cfg, env, Accept(cfg, env, s, cmd), io)
            else io in b.replies && b.replies[io] == Refusal(rc)
  {
    var io := s.book.nextIo;
    var s1 := s.(book := Arrive(s.book));
    ArriveInv(cfg, s);
    hide Inv, Dispatching, CmdOk, Rest, SubmitCmd, Carries, AskedFor, HasJob, Arrive, PostReply, GoesAs;
    var s2;
    s2, rc := SubmitCmd(cfg, env, s1, io, cmd).0, SubmitCmd(cfg, env, s1, io, cmd).1;
    CmdExact(cfg, env, s1, io, cmd);
    SameAnswer(cfg, env, s, s1, cmd, rc);
    var job := CmdTakes(cfg, env, s1, io, cmd);
    if rc != ASYNC {
      Posted(s2.book, io, Refusal(rc));
    } else {
      Unanswered(cfg, s1, io);
    }
  }

  /** The answer does not depend on the books. */
  lemma SameAnswer(cfg: Config, env: Env, s: State, s1: State, cmd: Cmd, rc: int)
    requires s1.core == s.core && s1.live == s.live
    ensures GoesAs(cfg, env, s1, cmd, rc) <==> GoesAs(cfg, env, s, cmd, rc)
  {
    hide Answers, DsmAnswers, WholeGoes, NextBytes, RwCap, Beyond, GoodRanges;
  }

  lemma Unanswered(cfg: Config, s: State, io: nat)
    requires Dispatching(cfg, s, io)
    ensures io !in s.book.replies
  {
    assert OwnersOk(s.book, Some(io));
  }
}
