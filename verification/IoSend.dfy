/** What becomes of one command, read off the environment, the free tags and the
    ring before it: sent, held up, or failed, and with which code. */
module IoSend {
  import opened Base
  import opened Tags
  import opened Chunk
  import opened IoCore
  import opened IoBook
  import opened IoPath
  import opened IoRing

  /** No slot is left between the tail and the head the host compares with. */
  predicate RingFull(k: Core) { Depth(k) == 0 || (k.sqTail + 1) % Depth(k) == k.cqHead }

  predicate NeedsData(op: Op) { op.Read? || op.Write? }

  /** The answer to a command, in the order in which things can go wrong. */
  ghost predicate Answers(env: Env, k: Core, ready: bool, sqe: Sqe, off: nat, turn: Turn) {
    if !env.grant(k.clock) then turn == Pressure(IOERR_SELFTEST)
    else if k.pool.free == [] then turn == Pressure(IOERR_UNITBUSY)
    else if !ready then turn == Fault(IOERR_UNITBUSY)
    else if NeedsData(sqe.op) && !Supplied(env, k.clock + 1, sqe.bytes, off) then turn == Fault(IOERR_SELFTEST)
    else if !k.sqUp then turn == Fault(IOERR_BADADDRESS)
    else if RingFull(k) then turn == Pressure(IOERR_UNITBUSY)
    else turn == Sent
  }

  /** ... and a data command that went out has just what its data needs. */
  ghost predicate Equipped(env: Env, k: Core, sqe: Sqe, off: nat, k': Core) {
    && k.nextReq in k'.reqs
    && (NeedsData(sqe.op) ==> SetUp(env, k.clock + 1, sqe.bytes, off, k'.reqs[k.nextReq]))
  }

  lemma AllocExact(env: Env, k: Core)
    requires Shape(k.pool)
    ensures var g := AllocIo(env, k);
            && (g.Got? <==> env.grant(k.clock) && k.pool.free != [])
            && (g.Refused? ==> g.err == if env.grant(k.clock) then IOERR_UNITBUSY else IOERR_SELFTEST)
            && g.k.clock == k.clock + 1
  {
    hide Take;
  }

  lemma SetupExact(env: Env, k: Core, r: nat, op: Op, len: nat, off: nat)
    requires r in k.reqs && k.reqs[r].pages == []
    ensures var (k', err) := Setup(env, k, r, op, len, off);
            && (err == 0 <==> (NeedsData(op) ==> Supplied(env, k.clock, len, off)))
            && (err == 0 || err == IOERR_SELFTEST) && r in k'.reqs
            && (err == 0 && NeedsData(op) ==> SetUp(env, k.clock, len, off, k'.reqs[r]))
  {
    hide SetupRw, Supplied, SetUp;
    if NeedsData(op) { SetupRwExact(env, k, r, len, off); }
  }

  lemma SubmitExact(k: Core, r: nat)
    requires Shape(k.pool) && r in k.reqs && k.reqs[r].cid.tag < |k.pool.table|
    ensures var (k', err) := SubmitIo(k, r);
            && err == (if !k.sqUp then IOERR_BADADDRESS else if RingFull(k) then IOERR_UNITBUSY else ASYNC)
            && (err == ASYNC ==> k'.reqs == k.reqs)
  {
    hide Destroy;
  }

  lemma SameFull(k: Core, k': Core)
    requires SameRing(k, k')
    ensures RingFull(k') <==> RingFull(k)
  {
  }

  /** Setup and submission of a request just taken. */
  lemma PrepareExact(env: Env, k: Core, k0: Core, r: nat, sqe: Sqe, off: nat)
    requires SameRing(k, k0) && CoreOk(k0, None, {}) && r in k0.reqs && r !in k0.retryList && k0.clock == k.clock + 1
    requires k0.reqs[r].pages == [] && k0.reqs[r].bounce.None?
    ensures var k1 := SetSqe(k0, r, sqe);
            var (k2, serr) := Setup(env, k1, r, sqe.op, sqe.bytes, off);
            && Shape(k2.pool) && r in k2.reqs && k2.reqs[r].cid.tag < |k2.pool.table|
            && (serr == 0 <==> (NeedsData(sqe.op) ==> Supplied(env, k.clock + 1, sqe.bytes, off)))
            && (serr == 0 || serr == IOERR_SELFTEST)
            && var (k3, err) := SubmitIo(k2, r);
            && err == (if !k.sqUp then IOERR_BADADDRESS else if RingFull(k) then IOERR_UNITBUSY else ASYNC)
            && (serr == 0 && err == ASYNC ==>
                  r in k3.reqs && (NeedsData(sqe.op) ==> SetUp(env, k.clock + 1, sqe.bytes, off, k3.reqs[r])))
  {
    var k1 := SetSqe(k0, r, sqe);
    SetSqeOk(k0, r, sqe, {});
    SetupExact(env, k1, r, sqe.op, sqe.bytes, off);
    SetupOk(env, k1, r, sqe.op, sqe.bytes, off);
    SetupRing(env, k1, r, sqe.op, sqe.bytes, off);
    var k2 := Setup(env, k1, r, sqe.op, sqe.bytes, off).0;
    CoreShape(k2);
    assert SameRing(k, k2);
    hide Setup, SubmitIo, CoreOk, Supplied, SetUp, RingFull;
    SubmitExact(k2, r);
    SameFull(k, k2);
  }

  /** One command: the answer, and what a sent one holds. */
  lemma TryExact(env: Env, k: Core, ready: bool, sqe: Sqe, off: nat)
    requires CoreOk(k, None, {}) && Sendable(sqe, off)
    ensures var (k', turn) := TryCommand(env, k, ready, sqe, off);
            Answers(env, k, ready, sqe, off, turn) && (turn == Sent ==> Equipped(env, k, sqe, off, k'))
  {
    CoreShape(k);
    AllocIoAllocated(env, k, {});
    AllocRing(env, k);
    AllocExact(env, k);
    var g := AllocIo(env, k);
    hide AllocIo, Destroy, SubmitIo, Setup, SameRing, Spent, Launched, CoreOk, Sendable, SetSqe, Allocated, Supplied,
      SetUp, RingFull;
    if g.Got? && ready {
      NotParked(g.k, k, g.r);
      PrepareExact(env, k, g.k, g.r, sqe, off);
    }
  }

  /** A Dataset Management command, whose range buffer was asked for at `k.clock`. */
  ghost predicate DsmAnswers(env: Env, k: Core, ready: bool, ranges: seq<Range>, turn: Turn) {
    if !env.grant(k.clock + 1) then turn == Pressure(IOERR_SELFTEST)
    else if k.pool.free == [] then turn == Pressure(IOERR_UNITBUSY)
    else if !ready then turn == Fault(IOERR_UNITBUSY)
    else if |ranges| == 0 || |ranges| > 256 then turn == Fault(IOERR_SELFTEST)
    else if !k.sqUp then turn == Fault(IOERR_BADADDRESS)
    else if RingFull(k) then turn == Pressure(IOERR_UNITBUSY)
    else turn == Sent
  }

  lemma SendDsmExact(k: Core, kg: Core, sqe: Sqe)
    requires sqe.op.Trim? && k.nextReq in kg.reqs
    requires var q := kg.reqs[k.nextReq];
             q.pages == [] && q.bounce.None? && !q.prpSlab && q.cid.tag < |kg.pool.table|
    requires Allocated(AllocRanges(k), kg) && CoreOk(kg, None, {k.mem.next}) && SameRing(k, kg)
    ensures var (k', turn) := SendDsm(k, kg, sqe);
            turn == if !k.sqUp then Fault(IOERR_BADADDRESS)
                    else if RingFull(k) then Pressure(IOERR_UNITBUSY) else Sent
  {
    var a, r := k.mem.next, k.nextReq;
    hide CoreOk, Destroy, SubmitIo, Allocated, Launched, Spent;
    AllocRangesNext(k);
    CommandSet(AllocRanges(k), kg, sqe, {a});
    var k1 := SetSqe(kg, r, sqe);
    DsmOwned(k1, r, a);
    var k2 := SetupDsm(k1, r, a);
    assert SameRing(k, k2);
    SubmitExact(k2, r);
    SameFull(k, k2);
    hide SetupDsm, SetSqe, SameRing, RingFull;
  }

  lemma DsmExact(env: Env, k: Core, ready: bool, sqe: Sqe)
    requires CoreOk(k, None, {}) && sqe.op.Trim?
    ensures DsmAnswers(env, k, ready, sqe.op.ranges, TryDsm(env, k, ready, sqe).1)
  {
    AllocRangesOk(k);
    var a, k0 := k.mem.next, AllocRanges(k);
    assert k0.nextReq == k.nextReq && SameRing(k, k0) && k0.clock == k.clock + 1 && k0.pool == k.pool;
    LooseShape(k0, a);
    hide CoreOk, AllocRanges, FreeRanges, AllocIo, Destroy, SendDsm, Spent, Launched, Allocated;
    AllocIoAllocated(env, k0, {a});
    AllocRing(env, k0);
    AllocExact(env, k0);
    var g := AllocIo(env, k0);
    SameTrans(k, k0, g.k);
    hide SameRing, RingFull;
    if g.Refused? {
    } else if !ready || |sqe.op.ranges| == 0 || |sqe.op.ranges| > DSM_MAX_RANGES {
      LooseShape(g.k, a);
    } else {
      SendDsmExact(k, g.k, sqe);
      assert TryDsm(env, k, ready, sqe) == SendDsm(k, g.k, sqe);
      hide TryDsm;
    }
  }

  // ------------------------------------------------------------- chunk pump

  /** The command that carries the next chunk of a context: the block after those
      dispatched, as many bytes as the chunk rule gives, from that far into the
      buffer. */
  function NextSqe(l: Limits, k: Ctx): Sqe
    requires k.dispatched <= k.job.total
  {
    var lba := k.job.lba + k.dispatched / BlockSize(k.job.unit.shift);
    var bytes := NextBytes(l, k.job.unit, k.job.op, lba, k.job.total - k.dispatched);
    Sqe(k.job.op, k.job.unit.shift, lba, bytes, k.dispatched)
  }

  function NextOff(k: Ctx): nat { (k.job.bufOff + k.dispatched) % 4096 }

  lemma SqeIsNext(l: Limits, k: Ctx, r: nat)
    requires k.dispatched <= k.job.total
    ensures SqeOf(k.job, NextTile(l, k, r)) == NextSqe(l, k) && ChunkOff(k) == NextOff(k)
  {
    hide NextBytes;
  }

  /** One turn answers as its command does, and changes no books unless it sent. */
  lemma TurnExact(cfg: Config, env: Env, s: State, c: nat)
    requires Pumpable(cfg, s, c) && c in s.book.ctxs && s.book.ctxs[c].dispatched < s.book.ctxs[c].job.total
    requires s.book.ctxs[c].inflight < SibCap(cfg)
    ensures var k := s.book.ctxs[c];
            var (s1, turn) := PumpTurn(cfg, env, s, c);
            && Answers(env, s.core, true, NextSqe(cfg.limits, k), NextOff(k), turn)
            && (turn != Sent ==> Spent(s.core, s1.core, {}) && SameRing(s.core, s1.core))
  {
    var k := s.book.ctxs[c];
    hide Pumpable, PumpFrame, CoreOk, Dispatch, Rollback, Launched, Spent, Sendable, ChunkOff, NextTile, SqeOf,
      TryCommand, Answers, NextSqe, NextOff, SameRing, Wrote;
    PumpableCore(cfg, s, c);
    NextSendable(cfg, s, c, k);
    TurnRollback(cfg, s, c);
    var sqe := SqeOf(k.job, NextTile(cfg.limits, k, s.core.nextReq));
    TryExact(env, s.core, true, sqe, ChunkOff(k));
    TryRing(env, s.core, true, sqe, ChunkOff(k));
    SqeIsNext(cfg.limits, k, s.core.nextReq);
  }

  /** How the pump leaves context `c`.  Without a last attempt: all dispatched, or as
      many chunks in flight as allowed.  With one, from the transport `k0`, whose
      command was not sent: under pressure parked if nothing is in flight; on a
      failure with its code latched. */
  ghost predicate PumpEnd(cfg: Config, env: Env, s: State, c: nat, tried: Option<Core>) {
    && c in s.book.ctxs
    && var k := s.book.ctxs[c];
    match tried
    case None =>
      k.firstError == 0 && !k.stalled && (k.dispatched == k.job.total || k.inflight >= 16 || k.inflight >= cfg.ioMax)
    case Some(k0) =>
      && k.dispatched < k.job.total && k.inflight < 16 && k.inflight < cfg.ioMax
      && Spent(k0, s.core, {}) && SameRing(k0, s.core)
      && exists turn :: LastTurn(cfg, env, k, k0, turn)
  }

  ghost predicate LastTurn(cfg: Config, env: Env, k: Ctx, k0: Core, turn: Turn) {
    && k.dispatched <= k.job.total
    && Answers(env, k0, true, NextSqe(cfg.limits, k), NextOff(k), turn) && turn != Sent
    && (turn.Pressure? ==> k.firstError == 0 && (k.stalled <==> k.inflight == 0))
    && (turn.Fault? ==> k.firstError == turn.err && !k.stalled)
  }

  lemma BrokenEnd(cfg: Config, env: Env, s: State, c: nat, turn: Turn, s1: State, s2: State)
    requires c in s.book.ctxs && s1.book == s.book && turn != Sent
    requires var k := s.book.ctxs[c];
             && k.dispatched < k.job.total && k.inflight < SibCap(cfg) && k.firstError == 0 && !k.stalled
             && Answers(env, s.core, true, NextSqe(cfg.limits, k), NextOff(k), turn)
    requires Spent(s.core, s1.core, {}) && SameRing(s.core, s1.core)
    requires s2 == if turn.Fault? then s1.(book := Latch(s.book, c, turn.err))
                   else if s.book.ctxs[c].inflight == 0 then s1.(book := Stall(s.book, c)) else s1
    ensures PumpEnd(cfg, env, s2, c, Some(s.core))
  {
    var k, k2 := s.book.ctxs[c], s2.book.ctxs[c];
    hide Answers, Spent, SameRing, NextBytes;
    assert NextSqe(cfg.limits, k2) == NextSqe(cfg.limits, k) && NextOff(k2) == NextOff(k);
    assert LastTurn(cfg, env, k2, s.core, turn);
  }

  /** The whole pump. */
  lemma {:induction false} PumpExact(cfg: Config, env: Env, s: State, c: nat) returns (tried: Option<Core>)
    requires Pumpable(cfg, s, c) && c in s.book.ctxs && s.book.ctxs[c].dispatched <= s.book.ctxs[c].job.total
    ensures PumpEnd(cfg, env, Pump(cfg, env, s, c).0, c, tried)
    decreases s.book.ctxs[c].job.total - s.book.ctxs[c].dispatched
  {
    PumpableIdle(cfg, s, c);
    var k := s.book.ctxs[c];
    hide Pumpable, Pumped, PumpTurn, PumpFrame, Inv, Pump, PumpEnd, Stall, Latch, Answers, Spent, SameRing;
    if k.dispatched == k.job.total || k.inflight >= SibCap(cfg) {
      PumpEnds(cfg, env, s, c);
      tried := None;
      NoAttempt(cfg, env, s, c);
    } else {
      var (s1, turn) := PumpTurn(cfg, env, s, c);
      TurnExact(cfg, env, s, c);
      if turn == Sent {
        PumpNext(cfg, env, s, c);
        PumpGoesOn(cfg, env, s, c);
        tried := PumpExact(cfg, env, s1, c);
      } else {
        PumpBreaks(cfg, env, s, c);
        tried := Some(s.core);
        BrokenEnd(cfg, env, s, c, turn, s1, Pump(cfg, env, s, c).0);
      }
    }
  }

  lemma NoAttempt(cfg: Config, env: Env, s: State, c: nat)
    requires c in s.book.ctxs && s.book.ctxs[c].firstError == 0 && !s.book.ctxs[c].stalled
    requires s.book.ctxs[c].dispatched == s.book.ctxs[c].job.total || s.book.ctxs[c].inflight >= SibCap(cfg)
    ensures PumpEnd(cfg, env, s, c, None)
  {
  }

  lemma PumpableIdle(cfg: Config, s: State, c: nat)
    requires Pumpable(cfg, s, c)
    ensures c in s.book.ctxs && s.book.ctxs[c].firstError == 0 && !s.book.ctxs[c].stalled
  {
  }
}
