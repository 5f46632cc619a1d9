/** The ring's full test seen from the requests.  With CQ heads that are the counts
    of completions consumed (Ring.EveryInterleaving) and completions that name
    occupied slots, the ring refuses exactly when commands in flight and
    completions of the running pass make depth - 1; a watchdog tick, between two
    passes, loses exactly the due requests beyond the free tags but one. */
module IoRing {
  import opened Base
  import opened Arith
  import opened Tags
  import opened Chunk
  import opened IoCore
  import opened IoBook
  import opened IoPath
  import opened IoRetry
  import opened IoLost
  import opened IoTheorems

  // ------------------------------------------------------- one step, the ring

  /** Nothing was written and no head or tail moved. */
  ghost predicate SameRing(k: Core, k': Core) {
    && k'.sqUp == k.sqUp && k'.sqTail == k.sqTail && k'.cqHead == k.cqHead && k'.sq == k.sq
    && Depth(k') == Depth(k)
  }

  /** One more command was written, into a ring that had room. */
  ghost predicate Wrote(k: Core, k': Core) {
    && !RingRefuses(k)
    && k'.sqUp == k.sqUp && k'.cqHead == k.cqHead && |k'.sq| == |k.sq| + 1
    && Depth(k') == Depth(k) && k'.sqTail == (k.sqTail + 1) % Depth(k)
  }

  /** The tail is the count of commands written; the head the host compares with
      stands at `seen` of them; fewer than depth lie between. */
  ghost predicate Spans(k: Core, seen: nat) {
    && Depth(k) > 0 && k.sqTail == |k.sq| % Depth(k) && k.cqHead == seen % Depth(k)
    && seen <= |k.sq| < seen + Depth(k)
  }

  /** A step that consumes no completion. */
  ghost predicate Steady(k: Core, k': Core) { Moves(k, k', 0) }

  /** A step that consumes `done` completions. */
  ghost predicate Moves(k: Core, k': Core, done: nat) {
    && Depth(k') == Depth(k) && k'.sqUp == k.sqUp
    && |k'.sq| - k'.pool.count == |k.sq| - k.pool.count + done
    && forall seen: nat :: Spans(k, seen) ==> Spans(k', seen)
  }

  lemma SteadyTrans(k: Core, k1: Core, k2: Core)
    requires Steady(k, k1) && Steady(k1, k2)
    ensures Steady(k, k2)
  {
    hide Spans;
  }

  lemma SameSteady(k: Core, k': Core)
    requires SameRing(k, k') && k'.pool.count == k.pool.count
    ensures Steady(k, k')
  {
  }

  /** The full test, in counts. */
  lemma SpanFull(k: Core, seen: nat)
    requires Spans(k, seen) && k.sqUp
    ensures RingRefuses(k) <==> |k.sq| + 1 == seen + Depth(k)
  {
    ShiftLeft(|k.sq|, 1, Depth(k));
    if |k.sq| + 1 < seen + Depth(k) {
      ModApart(|k.sq| + 1, seen, Depth(k));
    } else {
      AddWhole(seen, Depth(k));
    }
  }

  lemma WroteSpans(k: Core, k': Core, seen: nat)
    requires Wrote(k, k') && Spans(k, seen)
    ensures Spans(k', seen)
  {
    SpanFull(k, seen);
    ShiftLeft(|k.sq|, 1, Depth(k));
  }

  lemma WroteSteady(k: Core, k': Core)
    requires Wrote(k, k') && k'.pool.count == k.pool.count + 1
    ensures Steady(k, k')
  {
    assert |k'.sq| == |k.sq| + 1 && Depth(k') == Depth(k) && k'.sqUp == k.sqUp;
    hide Spans, Wrote;
    forall seen: nat | Spans(k, seen) ensures Spans(k', seen) { WroteSpans(k, k', seen); }
  }

  // ------------------------------------------------------ commands and chunks

  lemma AllocRing(env: Env, k: Core)
    requires Shape(k.pool)
    ensures SameRing(k, AllocIo(env, k).k)
  {
  }

  lemma SetupRing(env: Env, k: Core, r: nat, op: Op, len: nat, off: nat)
    requires r in k.reqs
    ensures SameRing(k, Setup(env, k, r, op, len, off).0)
  {
    hide BuildPages;
  }

  lemma DestroyRing(k: Core, r: nat)
    requires Shape(k.pool) && r in k.reqs && k.reqs[r].cid.tag < |k.pool.table|
    ensures SameRing(k, Destroy(k, r))
  {
    hide FreeAll;
  }

  /** A submission writes into a ring with room, or changes nothing in it. */
  lemma SubmitRing(k: Core, r: nat)
    requires Shape(k.pool) && r in k.reqs && k.reqs[r].cid.tag < |k.pool.table|
    ensures var (k', err) := SubmitIo(k, r); if err == ASYNC then Wrote(k, k') else SameRing(k, k')
  {
    hide Destroy;
    DestroyRing(k, r);
  }

  lemma SameTrans(k: Core, k1: Core, k2: Core)
    requires SameRing(k, k1)
    ensures SameRing(k1, k2) ==> SameRing(k, k2)
    ensures Wrote(k1, k2) ==> Wrote(k, k2)
  {
  }

  lemma TryRing(env: Env, k: Core, ready: bool, sqe: Sqe, off: nat)
    requires CoreOk(k, None, {}) && Sendable(sqe, off)
    ensures var (k', turn) := TryCommand(env, k, ready, sqe, off);
            if turn == Sent then Wrote(k, k') else SameRing(k, k')
  {
    CoreShape(k);
    AllocIoAllocated(env, k, {});
    AllocRing(env, k);
    var g := AllocIo(env, k);
    hide AllocIo, Destroy, SubmitIo, Setup, SameRing, Wrote, Spent, Launched, CoreOk, Sendable, SetSqe, Allocated;
    if g.Got? && !ready {
      CoreShape(g.k);
      DestroyRing(g.k, g.r);
      SameTrans(k, g.k, Destroy(g.k, g.r));
    } else if g.Got? {
      NotParked(g.k, k, g.r);
      SetupTry(env, k, g.k, g.r, sqe, off);
    }
  }

  lemma NotParked(k1: Core, k: Core, r: nat)
    requires Allocated(k, k1) && r == k.nextReq
    ensures r in k1.reqs && r !in k1.retryList
  {
  }

  /** From the readiness gate on. */
  lemma SetupTry(env: Env, k: Core, k0: Core, r: nat, sqe: Sqe, off: nat)
    requires SameRing(k, k0) && CoreOk(k0, None, {}) && r in k0.reqs && r !in k0.retryList
    requires k0.reqs[r].pages == [] && k0.reqs[r].bounce.None?
    ensures var k1 := SetSqe(k0, r, sqe);
            var k2 := Setup(env, k1, r, sqe.op, sqe.bytes, off).0;
            && Shape(k2.pool) && r in k2.reqs && k2.reqs[r].cid.tag < |k2.pool.table|
            && SameRing(k, Destroy(k2, r))
            && var (k3, err) := SubmitIo(k2, r);
            if err == ASYNC then Wrote(k, k3) else SameRing(k, k3)
  {
    var k1 := SetSqe(k0, r, sqe);
    SetSqeOk(k0, r, sqe, {});
    SetupOk(env, k1, r, sqe.op, sqe.bytes, off);
    SetupRing(env, k1, r, sqe.op, sqe.bytes, off);
    var k2 := Setup(env, k1, r, sqe.op, sqe.bytes, off).0;
    CoreShape(k2);
    hide Setup, Destroy, SubmitIo, CoreOk;
    assert SameRing(k, k2);
    DestroyRing(k2, r);
    SubmitRing(k2, r);
    hide SameRing, Wrote;
    SameTrans(k, k2, Destroy(k2, r));
    SameTrans(k, k2, SubmitIo(k2, r).0);
  }

  lemma TrySteady(env: Env, k: Core, ready: bool, sqe: Sqe, off: nat)
    requires CoreOk(k, None, {}) && Sendable(sqe, off)
    ensures Steady(k, TryCommand(env, k, ready, sqe, off).0)
  {
    TryRing(env, k, ready, sqe, off);
    var (k', turn) := TryCommand(env, k, ready, sqe, off);
    hide TryCommand, CoreOk, Steady, SameRing, Wrote;
    if turn == Sent { WroteSteady(k, k'); } else { SameSteady(k, k'); }
  }

  lemma SendDsmRing(k: Core, kg: Core, sqe: Sqe)
    requires sqe.op.Trim? && k.nextReq in kg.reqs
    requires var q := kg.reqs[k.nextReq];
             q.pages == [] && q.bounce.None? && !q.prpSlab && q.cid.tag < |kg.pool.table|
    requires Allocated(AllocRanges(k), kg) && CoreOk(kg, None, {k.mem.next}) && SameRing(k, kg)
    ensures var (k', turn) := SendDsm(k, kg, sqe); if turn == Sent then Wrote(k, k') else SameRing(k, k')
  {
    var a, r := k.mem.next, k.nextReq;
    hide CoreOk, Destroy, SubmitIo, Allocated, Launched, Spent;
    AllocRangesNext(k);
    CommandSet(AllocRanges(k), kg, sqe, {a});
    var k1 := SetSqe(kg, r, sqe);
    DsmOwned(k1, r, a);
    var k2 := SetupDsm(k1, r, a);
    assert SameRing(k, k2);
    SubmitRing(k2, r);
    hide SetupDsm, SetSqe, SameRing, Wrote;
    SameTrans(k, k2, SubmitIo(k2, r).0);
  }

  lemma FreeRangesRing(k: Core, k1: Core, a: nat)
    requires SameRing(k, k1)
    ensures SameRing(k, FreeRanges(k1, a))
  {
  }

  lemma DsmRing(env: Env, k: Core, ready: bool, sqe: Sqe)
    requires CoreOk(k, None, {}) && sqe.op.Trim?
    ensures var (k', turn) := TryDsm(env, k, ready, sqe); if turn == Sent then Wrote(k, k') else SameRing(k, k')
  {
    AllocRangesOk(k);
    var a, k0 := k.mem.next, AllocRanges(k);
    assert k0.nextReq == k.nextReq && SameRing(k, k0);
    LooseShape(k0, a);
    hide CoreOk, AllocRanges, FreeRanges, AllocIo, Destroy, SendDsm, Spent, Launched, Allocated;
    AllocIoAllocated(env, k0, {a});
    AllocRing(env, k0);
    var g := AllocIo(env, k0);
    SameTrans(k, k0, g.k);
    hide SameRing, Wrote;
    if g.Refused? {
      FreeRangesRing(k, g.k, a);
    } else if !ready || |sqe.op.ranges| == 0 || |sqe.op.ranges| > DSM_MAX_RANGES {
      DsmGone(k, g.k, g.r, a);
    } else {
      assert g.r == k.nextReq;
      SendDsmRing(k, g.k, sqe);
      assert TryDsm(env, k, ready, sqe) == SendDsm(k, g.k, sqe);
      hide TryDsm;
    }
  }

  lemma DsmGone(k: Core, kg: Core, r: nat, a: nat)
    requires SameRing(k, kg) && CoreOk(kg, None, {a}) && r in kg.reqs && kg.reqs[r].cid.tag < |kg.pool.table|
    ensures Shape(kg.pool) && SameRing(k, FreeRanges(Destroy(kg, r), a))
  {
    LooseShape(kg, a);
    hide CoreOk, Destroy, FreeRanges;
    DestroyRing(kg, r);
    SameTrans(k, kg, Destroy(kg, r));
    FreeRangesRing(k, Destroy(kg, r), a);
  }

  lemma DsmSteady(env: Env, k: Core, ready: bool, sqe: Sqe)
    requires CoreOk(k, None, {}) && sqe.op.Trim?
    ensures Steady(k, TryDsm(env, k, ready, sqe).0)
  {
    DsmRing(env, k, ready, sqe);
    var (k', turn) := TryDsm(env, k, ready, sqe);
    hide TryDsm, CoreOk, Steady, SameRing, Wrote;
    if turn == Sent { WroteSteady(k, k'); } else { SameSteady(k, k'); }
  }

  lemma TurnSteady(cfg: Config, env: Env, s: State, c: nat)
    requires Pumpable(cfg, s, c) && c in s.book.ctxs && s.book.ctxs[c].dispatched < s.book.ctxs[c].job.total
    requires s.book.ctxs[c].inflight < SibCap(cfg)
    ensures Steady(s.core, PumpTurn(cfg, env, s, c).0.core)
  {
    var k := s.book.ctxs[c];
    hide Pumpable, PumpFrame, CoreOk, Dispatch, Rollback, Launched, Spent, Sendable, ChunkOff, NextTile, SqeOf, Steady,
      TryCommand;
    PumpableCore(cfg, s, c);
    NextSendable(cfg, s, c, k);
    TurnRollback(cfg, s, c);
    TrySteady(env, s.core, true, SqeOf(k.job, NextTile(cfg.limits, k, s.core.nextReq)), ChunkOff(k));
  }

  lemma Still(k: Core)
    ensures Steady(k, k)
  {
  }

  lemma {:induction false} PumpSteady(cfg: Config, env: Env, s: State, c: nat)
    requires Pumpable(cfg, s, c) && c in s.book.ctxs && s.book.ctxs[c].dispatched <= s.book.ctxs[c].job.total
    ensures Steady(s.core, Pump(cfg, env, s, c).0.core)
    decreases s.book.ctxs[c].job.total - s.book.ctxs[c].dispatched
  {
    hide Pumpable, Pumped, Steady, PumpTurn, PumpFrame, Inv;
    var k := s.book.ctxs[c];
    Still(s.core);
    if k.dispatched < k.job.total && k.inflight < SibCap(cfg) {
      TurnSteady(cfg, env, s, c);
      var (s1, turn) := PumpTurn(cfg, env, s, c);
      if turn == Sent {
        PumpableBound(cfg, s1, c);
        SameJob(s, s1, c);
        PumpSteady(cfg, env, s1, c);
        SteadyTrans(s.core, s1.core, Pump(cfg, env, s1, c).0.core);
      }
    }
  }

  // ------------------------------------------------------- completion, retry

  lemma RefillSteady(cfg: Config, env: Env, s: State, c: nat)
    requires Inv(cfg, s, None, Some(c), None, {}) && c in s.book.ctxs && !s.book.ctxs[c].stalled
    requires s.book.ctxs[c].dispatched <= s.book.ctxs[c].job.total
    ensures Steady(s.core, Refill(cfg, env, s, c).core)
  {
    Still(s.core);
    hide Inv, Pumpable, Steady, Pump, Paused, Pumped, Rest;
    if s.book.ctxs[c].dispatched < s.book.ctxs[c].job.total && s.book.ctxs[c].firstError == 0 {
      RefillPumpable(cfg, s, c);
      PumpSteady(cfg, env, s, c);
    }
  }

  lemma RetireRing(k: Core, r: nat)
    requires r in k.reqs
    ensures SameRing(k, Retire(k, r)) && Retire(k, r).pool == k.pool
  {
    hide FreeAll;
  }

  lemma EndSteady(cfg: Config, env: Env, s: State, r: nat)
    requires Inv(cfg, s, Some(r), None, None, {}) && r in s.core.reqs && r in s.book.parents
    ensures Steady(s.core, EndReq(cfg, env, s, r).core)
  {
    RetireRing(s.core, r);
    SameSteady(s.core, Retire(s.core, r));
    hide Inv, Steady, SameRing, EndReq, Refill, Retire;
    if s.book.parents[r].Single? {
      SingleEnd(cfg, env, s, r);
    } else {
      var s1, c := SiblingEnd(cfg, env, s, r);
      RefillSteady(cfg, env, s1, c);
      SteadyTrans(s.core, s1.core, Refill(cfg, env, s1, c).core);
    }
  }

  lemma ParkSteady(cfg: Config, env: Env, s: State, r: nat)
    requires r in s.core.reqs && s.core.reqs[r].retries < MAX_RETRIES && Crd(s.core.reqs[r].status) != 0
    requires Handling(cfg, s, r)
    ensures Steady(s.core, ParkForDelay(cfg, env, s, r).core)
  {
    HandlingCfg(cfg, s, r);
    hide Handling, Inv, Rest, Settled, Nudged;
    assert SameRing(s.core, ParkForDelay(cfg, env, s, r).core);
    SameSteady(s.core, ParkForDelay(cfg, env, s, r).core);
  }

  lemma RelaunchSteady(k: Core, r: nat)
    requires r in k.reqs && |k.pool.free| > 0 && Writes(k.sq, r) <= k.reqs[r].retries && CoreOk(k, Some(r), {})
    ensures Steady(k, Relaunch(k, r).0)
  {
    var (k', err) := Relaunch(k, r);
    assert Relaunched(k, r, k', err);
    hide CoreOk, Relaunch, Steady;
    if err == ASYNC { WroteSteady(k, k'); } else { SameSteady(k, k'); }
  }

  lemma {:induction false} CompleteSteady(cfg: Config, env: Env, s: State, r: nat)
    requires r in s.core.reqs && Handling(cfg, s, r)
    ensures Steady(s.core, Complete(cfg, env, s, r).core)
    decreases 5 - s.core.reqs[r].retries, 1
  {
    HandlingHas(cfg, s, r);
    hide Handling, Inv, Rest, Settled, Steady, ParkForDelay, Resubmit, EndReq, Nudged, Crd, CfgOk;
    var q := s.core.reqs[r];
    if !RetryWorthy(q) {
      HandlingInv(cfg, s, r);
      EndSteady(cfg, env, s, r);
    } else if Crd(q.status) != 0 {
      ParkSteady(cfg, env, s, r);
    } else {
      BumpInv(cfg, s, r);
      RetryNow(cfg, env, s, r);
      BumpSteady(s.core, r);
      hide Retry;
      var s1 := s.(core := Bump(s.core, r));
      ResubmitSteady(cfg, env, s1, r);
      SteadyTrans(s.core, s1.core, Resubmit(cfg, env, s1, r).core);
    }
  }

  lemma HandlingInv(cfg: Config, s: State, r: nat)
    requires Handling(cfg, s, r)
    ensures Inv(cfg, s, Some(r), None, None, {})
  {
  }

  lemma BumpSteady(k: Core, r: nat)
    requires r in k.reqs
    ensures Steady(k, Bump(k, r))
  {
  }

  lemma SetStatusSteady(k: Core, r: nat, status: nat, cancelled: bool)
    requires r in k.reqs
    ensures Steady(k, SetStatus(k, r, status, cancelled))
  {
  }

  lemma {:induction false} ResubmitSteady(cfg: Config, env: Env, s: State, r: nat)
    requires r in s.core.reqs && Writes(s.core.sq, r) <= s.core.reqs[r].retries && Handling(cfg, s, r)
    ensures Steady(s.core, Resubmit(cfg, env, s, r).core)
    decreases 5 - s.core.reqs[r].retries, 2
  {
    HandlingCore(cfg, s, r);
    hide Handling, Rest, Inv, Settled, CoreOk, Nudged, Steady, Complete, Relaunch, Lose;
    if |s.core.pool.free| == 0 {
      SetStatusInv(cfg, s, r, SC_HOST_PATH_ERROR, false);
      SetStatusSteady(s.core, r, SC_HOST_PATH_ERROR, false);
      var s1 := s.(core := SetStatus(s.core, r, SC_HOST_PATH_ERROR, false));
      assert Resubmit(cfg, env, s, r) == Complete(cfg, env, s1, r);
      hide Resubmit, SetStatus;
      CompleteSteady(cfg, env, s1, r);
      SteadyTrans(s.core, s1.core, Complete(cfg, env, s1, r).core);
    } else {
      assert Resubmit(cfg, env, s, r).core == Relaunch(s.core, r).0;
      hide Resubmit;
      RelaunchSteady(s.core, r);
    }
  }

  // ---------------------------------------------------------------- dispatch

  lemma SingleSteady(cfg: Config, env: Env, s: State, io: nat, job: Job)
    requires Dispatching(cfg, s, io) && OneShot(cfg, job) && CoreOk(s.core, None, {})
    ensures Steady(s.core, SingleShot(cfg, env, s, io, job).0.core)
  {
    hide Dispatching, Dispatched, CoreOk, OneShot, Launched, Spent, Sendable, TryCommand, Steady;
    var t := WholeTile(s.core.nextReq, job);
    WholeSendable(cfg, job, t);
    TrySteady(env, s.core, s.live, SqeOf(job, t), job.bufOff);
  }

  lemma AskedSteady(k: Core)
    ensures Steady(k, Asked(k))
  {
  }

  lemma OpenedCore(s: State, io: nat, job: Job)
    ensures Opened(s, io, job).core == Asked(s.core) && s.book.nextCtx in Opened(s, io, job).book.ctxs
  {
  }

  lemma MultiSteady(cfg: Config, env: Env, s: State, io: nat, job: Job)
    requires Dispatching(cfg, s, io) && JobOk(cfg.limits, job) && IsData(job.op) && job.total > 0
    ensures Steady(s.core, MultiShot(cfg, env, s, io, job).0.core)
  {
    Still(s.core);
    AskedSteady(s.core);
    hide Inv, Dispatching, Dispatched, Pumpable, Pumped, CoreOk, Spent, JobOk, Pump, Steady, Asked, Opened;
    if s.live && env.grant(s.core.clock) {
      var c := s.book.nextCtx;
      var s1 := Opened(s, io, job);
      OpenedFrame(s, io, job);
      OpenedCore(s, io, job);
      CtxReady(cfg, s, io, job);
      var (s2, rc) := Pump(cfg, env, s1, c);
      PumpedHas(cfg, s1, c, s2, rc);
      PumpSteady(cfg, env, s1, c);
      SteadyTrans(s.core, s1.core, s2.core);
    }
  }

  lemma RangesSteady(k: Core)
    ensures Steady(k, FreeRanges(AllocRanges(k), k.mem.next))
  {
  }

  lemma TrimSteady(cfg: Config, env: Env, s: State, io: nat, unit: Unit, ranges: seq<Range>, ok: bool, length: nat)
    requires Dispatching(cfg, s, io)
    ensures Steady(s.core, SubmitTrim(cfg, env, s, io, unit, ranges, ok, length).0.core)
  {
    var job := Dataless(unit, Trim(ranges), length);
    DispatchingCore(cfg, s, io);
    AskedSteady(s.core);
    RangesSteady(s.core);
    var p := Single(io, job, WholeTile(s.core.nextReq, job));
    DsmSteady(env, s.core, s.live, SqeOf(job, p.tile));
    hide Inv, Dispatching, Dispatched, CoreOk, Launched, Spent, OneShot, TryDsm, Steady, AllocRanges, FreeRanges,
      Asked, SqeOf;
  }

  lemma RwSteady(cfg: Config, env: Env, s: State, io: nat, cmd: Cmd)
    requires cmd.RwCmd? && CmdOk(cfg, cmd) && Dispatching(cfg, s, io)
    ensures Steady(s.core, SubmitRw(cfg, env, s, io, cmd).0.core)
  {
    var op := if cmd.write then Write else Read;
    var bytes := cmd.blocks * BlockSize(cmd.unit.shift) % U32;
    var cap := RwCap(cfg.limits, cmd.unit.shift, cmd.lba);
    var job := Job(cmd.unit, op, cmd.lba, bytes, cmd.bufOff, cmd.length, cmd.trackdisk);
    JobFits(cfg, job, cmd.blocks);
    Still(s.core);
    DispatchingCore(cfg, s, io);
    hide Inv, Dispatching, Dispatched, JobOk, OneShot, RwCap, SingleShot, MultiShot, CoreOk, Steady;
    if bytes == 0 || cmd.nullBuf || OutOfRange(cmd.unit, cmd.lba, cmd.blocks) {
    } else if cap == 0 || bytes <= cap {
      SingleSteady(cfg, env, s, io, job);
    } else {
      MultiSteady(cfg, env, s, io, job);
    }
  }

  lemma ZeroesSteady(cfg: Config, env: Env, s: State, io: nat, cmd: Cmd)
    requires cmd.ZeroesCmd? && CmdOk(cfg, cmd) && Dispatching(cfg, s, io)
    ensures Steady(s.core, SubmitZeroes(cfg, env, s, io, cmd).0.core)
  {
    var bytes := cmd.blocks * BlockSize(cmd.unit.shift) % U32;
    var job := Job(cmd.unit, Zeroes, cmd.lba, bytes, 0, cmd.length, true);
    ZeroesJob(cfg, cmd, job);
    Still(s.core);
    DispatchingCore(cfg, s, io);
    hide Inv, Dispatching, Dispatched, JobOk, OneShot, RwCap, SingleShot, MultiShot, SubmitTrim, CoreOk, Steady,
      OutOfRange, CmdOk;
    if cmd.blocks != 0 && !OutOfRange(cmd.unit, cmd.lba, cmd.blocks) {
      if cfg.deallocZeroes {
        TrimSteady(cfg, env, s, io, cmd.unit, [Range(cmd.lba, cmd.blocks)], true, cmd.length);
      } else if cfg.maxZeroes == 0 {
      } else if bytes <= cmd.unit.wzMax {
        SingleSteady(cfg, env, s, io, job);
      } else {
        MultiSteady(cfg, env, s, io, job);
      }
    }
  }

  lemma FlushSteady(cfg: Config, env: Env, s: State, io: nat, cmd: Cmd)
    requires cmd.FlushCmd? && CmdOk(cfg, cmd) && Dispatching(cfg, s, io)
    ensures Steady(s.core, SubmitCmd(cfg, env, s, io, cmd).0.core)
  {
    var job := Dataless(cmd.unit, Flush, cmd.length);
    DsmJob(cfg, job);
    DispatchingCore(cfg, s, io);
    hide Inv, Dispatching, Dispatched, OneShot, CoreOk, SingleShot, Steady, CmdOk, Dataless;
    SingleSteady(cfg, env, s, io, job);
  }

  /** A TRIM with no or too many ranges is refused; any other goes on. */
  lemma TrimCmdIs(cfg: Config, env: Env, s: State, io: nat, cmd: Cmd)
    requires cmd.TrimCmd? && CmdOk(cfg, cmd) && Dispatching(cfg, s, io)
    ensures SubmitCmd(cfg, env, s, io, cmd)
            == if |cmd.ranges| == 0 || |cmd.ranges| > DSM_MAX_RANGES then (s, IOERR_BADLENGTH)
               else SubmitTrim(cfg, env, s, io, cmd.unit, cmd.ranges, RangesIn(cmd.unit, cmd.ranges), cmd.length)
  {
    hide Inv, Dispatching, Dispatched, CoreOk, SubmitTrim, CmdOk, RangesIn;
  }

  lemma TrimCmdSteady(cfg: Config, env: Env, s: State, io: nat, cmd: Cmd)
    requires cmd.TrimCmd? && CmdOk(cfg, cmd) && Dispatching(cfg, s, io)
    ensures Steady(s.core, SubmitCmd(cfg, env, s, io, cmd).0.core)
  {
    hide *;
    Still(s.core);
    TrimCmdIs(cfg, env, s, io, cmd);
    TrimSteady(cfg, env, s, io, cmd.unit, cmd.ranges, RangesIn(cmd.unit, cmd.ranges), cmd.length);
  }

  lemma CmdSteady(cfg: Config, env: Env, s: State, io: nat, cmd: Cmd)
    requires CmdOk(cfg, cmd) && Dispatching(cfg, s, io)
    ensures Steady(s.core, SubmitCmd(cfg, env, s, io, cmd).0.core)
  {
    hide Dispatching, Dispatched, SubmitRw, SubmitZeroes, Steady, CmdOk;
    if cmd.RwCmd? {
      RwSteady(cfg, env, s, io, cmd);
    } else if cmd.ZeroesCmd? {
      ZeroesSteady(cfg, env, s, io, cmd);
    } else if cmd.FlushCmd? {
      FlushSteady(cfg, env, s, io, cmd);
    } else {
      TrimCmdSteady(cfg, env, s, io, cmd);
    }
  }

  lemma AcceptSteady(cfg: Config, env: Env, s: State, cmd: Cmd)
    requires Rest(cfg, s) && CmdOk(cfg, cmd)
    ensures Steady(s.core, Accept(cfg, env, s, cmd).core)
  {
    hide Inv, Dispatching, CmdOk, Rest, SubmitCmd, Steady;
    ArriveInv(cfg, s);
    CmdSteady(cfg, env, s.(book := Arrive(s.book)), s.book.nextIo, cmd);
  }

  // -------------------------------------------------------- the other events

  /** A matched completion: one consumed. */
  lemma CqeMoves(cfg: Config, env: Env, s: State, raw: Cid, status: nat)
    requires Rest(cfg, s) && Lookup(s.core.pool, raw).Some?
    ensures Moves(s.core, OnCqe(cfg, env, s, raw, status).core, 1)
  {
    LookupSlot(s.core.pool, raw);
    var r := Lookup(s.core.pool, raw).value;
    hide Inv, Handling, ReleaseTag, Rest, Settled, Complete, Moves, Lookup;
    RestSlot(cfg, s, raw.tag);
    ReleaseInv(cfg, s, raw.tag, r);
    var s1 := s.(core := ReleaseTag(s.core, r));
    HandlingHas(cfg, s1, r);
    SetStatusInv(cfg, s1, r, status, false);
    var s2 := s1.(core := SetStatus(s1.core, r, status, false));
    HandlingHas(cfg, s2, r);
    ReleaseMoves(cfg, s, raw.tag, r);
    hide OnCqe;
    SetStatusSteady(s1.core, r, status, false);
    CompleteSteady(cfg, env, s2, r);
    hide SetStatus, Steady;
    SteadyTrans(s1.core, s2.core, Complete(cfg, env, s2, r).core);
    MovesThen(s.core, s1.core, Complete(cfg, env, s2, r).core, 1);
  }

  lemma ReleaseMoves(cfg: Config, s: State, t: nat, r: nat)
    requires Rest(cfg, s) && t < |s.core.pool.table| && s.core.pool.table[t].Busy? && r in s.core.reqs
    requires Shape(s.core.pool) && s.core.reqs[r].cid.tag == t
    ensures Moves(s.core, ReleaseTag(s.core, r), 1)
  {
    hide Rest;
  }

  lemma MovesThen(k: Core, k1: Core, k2: Core, done: nat)
    requires Moves(k, k1, done) && Steady(k1, k2)
    ensures Moves(k, k2, done)
  {
    hide Spans;
  }

  lemma {:induction false} TickWalkSteady(cfg: Config, env: Env, s: State, now: nat, todo: seq<nat>)
    requires Rest(cfg, s) && Parked(s, todo)
    ensures Steady(s.core, TickRetries(cfg, env, s, now, todo).core)
    decreases |todo|
  {
    hide Rest, Handling, Parked, Settled, KeepsLost, Steady, Resubmit, Unpark, Due;
    Still(s.core);
    if todo != [] {
      var r := todo[0];
      ParkedReq(cfg, s, todo);
      if !Due(now, s.core.reqs[r].deadline) {
        TickWalkSteady(cfg, env, s, now, todo[1..]);
      } else {
        UnparkInv(cfg, s, r);
        var s1 := s.(core := Unpark(s.core, r));
        var s2 := Resubmit(cfg, env, s1, r);
        TodoLeft(cfg, s, todo, s2);
        UnparkSteady(s.core, r);
        ResubmitSteady(cfg, env, s1, r);
        TickWalkSteady(cfg, env, s2, now, todo[1..]);
        SteadyTrans(s.core, s1.core, s2.core);
        SteadyTrans(s.core, s2.core, TickRetries(cfg, env, s2, now, todo[1..]).core);
      }
    }
  }

  lemma UnparkSteady(k: Core, r: nat)
    ensures Steady(k, Unpark(k, r))
  {
    hide Without;
  }

  lemma TickSteady(cfg: Config, env: Env, s: State, now: nat)
    requires Rest(cfg, s)
    ensures Steady(s.core, Tick(cfg, env, s, now).core)
  {
    RetryNoDup(cfg, s);
    hide Rest, Parked, TickRetries, Steady;
    TickWalkSteady(cfg, env, s, now, s.core.retryList);
  }

  lemma RepumpSteady(cfg: Config, env: Env, s: State)
    requires Rest(cfg, s) && s.book.stalled != []
    ensures Steady(s.core, Repump(cfg, env, s).core)
  {
    var c := s.book.stalled[0];
    UnstallInv(cfg, s);
    hide Inv, Pumpable, Pumped, Paused, Rest, Pump, Steady;
    var s1 := s.(book := Unstall(s.book));
    RepumpCore(cfg, env, s);
    hide Repump, Unstall;
    PumpSteady(cfg, env, s1, c);
  }

  lemma RepumpCore(cfg: Config, env: Env, s: State)
    requires Rest(cfg, s) && s.book.stalled != [] && s.book.stalled[0] in s.book.ctxs
    requires var s1 := s.(book := Unstall(s.book)); Pumpable(cfg, s1, s.book.stalled[0])
    requires var s1 := s.(book := Unstall(s.book));
             s1.book.ctxs[s.book.stalled[0]].dispatched <= s1.book.ctxs[s.book.stalled[0]].job.total
    ensures Repump(cfg, env, s).core == Pump(cfg, env, s.(book := Unstall(s.book)), s.book.stalled[0]).0.core
  {
    hide Inv, Pumpable, Pumped, Paused, Rest, Pump;
  }

  // -------------------------------------------------------------- honest runs

  /** Completions consumed, and those of them behind the head last published. */
  function Done(es: seq<Event>): nat {
    if es == [] then 0 else Done(es[..|es| - 1]) + if es[|es| - 1].Cqe? then 1 else 0
  }

  function Seen(es: seq<Event>): (n: nat)
    ensures n <= Done(es)
  {
    if es == [] then 0
    else if es[|es| - 1].PassEnd? then Done(es[..|es| - 1])
    else Seen(es[..|es| - 1])
  }

  /** An event of a queue that is not flushed, with a device that answers what was
      asked: a completion names an occupied slot under its CID, and the head a
      drain pass publishes is the count consumed. */
  ghost predicate Fair(depth: nat, k: Core, done: nat, e: Event) {
    match e
    case Cqe(raw, _) => Lookup(k.pool, raw).Some?
    case PassEnd(head) => depth > 0 && head == done % depth
    case FlushQueue => false
    case _ => true
  }

  ghost predicate Honest(cfg: Config, env: Env, boot: Boot, es: seq<Event>)
    requires Runnable(cfg, boot, es)
    decreases |es|
  {
    hide Rest, EventOk, Fair;
    es == [] ||
    (var n := |es| - 1;
     && Honest(cfg, env, boot, es[..n])
     && Fair(boot.depth, After(cfg, env, boot, es[..n]).core, Done(es[..n]), es[n]))
  }

  /** The ring after `done` completions, `seen` of them behind the head. */
  ghost predicate Counted(k: Core, depth: nat, done: nat, seen: nat) {
    && Depth(k) == depth && k.sqUp && |k.sq| == k.pool.count + done && Spans(k, seen) && seen <= done
  }

  lemma CountedSteady(k: Core, k': Core, depth: nat, done: nat, seen: nat)
    requires Counted(k, depth, done, seen) && Steady(k, k')
    ensures Counted(k', depth, done, seen)
  {
    hide Spans;
  }

  lemma CountedMoves(k: Core, k': Core, depth: nat, done: nat, seen: nat, more: nat)
    requires Counted(k, depth, done, seen) && Moves(k, k', more)
    ensures Counted(k', depth, done + more, seen)
  {
    hide Spans;
  }

  lemma CountedPass(k: Core, head: nat, depth: nat, done: nat, seen: nat)
    requires Counted(k, depth, done, seen) && k.pool.count >= 0 && depth > 0 && head == done % depth
    ensures Counted(k.(cqHead := head), depth, done, done)
  {
  }

  lemma CountNat(cfg: Config, s: State)
    requires Rest(cfg, s)
    ensures 0 <= s.core.pool.count <= Depth(s.core) && |s.core.pool.free| == Depth(s.core) - s.core.pool.count
  {
    assert Valid(s.core.pool);
    hide Rest;
    CountIsBusy(s.core.pool);
  }

  /** Completions consumed and behind the head after one event more. */
  function DoneAfter(done: nat, e: Event): nat { if e.Cqe? then done + 1 else done }

  function SeenAfter(done: nat, seen: nat, e: Event): nat { if e.PassEnd? then done else seen }

  lemma CountedStep(cfg: Config, env: Env, s: State, e: Event, depth: nat, done: nat, seen: nat)
    requires EventOk(cfg, e) && Counted(s.core, depth, done, seen) && Fair(depth, s.core, done, e) && Rest(cfg, s)
    ensures Counted(IoPath.Step(cfg, env, s, e).core, depth, DoneAfter(done, e), SeenAfter(done, seen, e))
  {
    CountNat(cfg, s);
    hide Rest, CmdOk, Accept, OnCqe, Tick, Repump, FlushFrom, AbortStalled, Counted, Steady, Moves, Lookup;
    var s' := IoPath.Step(cfg, env, s, e);
    match e
    case Command(cmd) =>
      AcceptSteady(cfg, env, s, cmd);
      CountedSteady(s.core, s'.core, depth, done, seen);
    case Cqe(raw, status) =>
      CqeMoves(cfg, env, s, raw, status);
      CountedMoves(s.core, s'.core, depth, done, seen, 1);
    case PassEnd(head) => CountedPass(s.core, head, depth, done, seen);
    case Watchdog(now) =>
      TickSteady(cfg, env, s, now);
      CountedSteady(s.core, s'.core, depth, done, seen);
    case RepumpOne =>
      if s.book.stalled != [] {
        RepumpSteady(cfg, env, s);
        CountedSteady(s.core, s'.core, depth, done, seen);
      }
    case StopTask =>
    case SetLive(_) =>
  }

  lemma CountedStart(depth: nat, skipGen: bool, live: bool)
    requires depth > 0
    ensures Counted(Start(depth, skipGen, live).core, depth, 0, 0)
  {
  }

  lemma HonestPush(cfg: Config, env: Env, boot: Boot, es: seq<Event>, e: Event)
    requires Runnable(cfg, boot, es + [e]) && Honest(cfg, env, boot, es + [e])
    ensures Runnable(cfg, boot, es) && EventOk(cfg, e)
    ensures Honest(cfg, env, boot, es) && Fair(boot.depth, After(cfg, env, boot, es).core, Done(es), e)
  {
    assert (es + [e])[..|es|] == es && (es + [e])[|es|] == e;
    assert forall i :: 0 <= i < |es| ==> (es + [e])[i] == es[i];
    hide Rest, EventOk, Fair, After, Done;
  }

  lemma DonePush(es: seq<Event>, e: Event)
    ensures Done(es + [e]) == DoneAfter(Done(es), e) && Seen(es + [e]) == SeenAfter(Done(es), Seen(es), e)
  {
    assert (es + [e])[..|es|] == es && (es + [e])[|es|] == e;
  }

  lemma HonestNext(cfg: Config, env: Env, boot: Boot, es: seq<Event>, e: Event)
    requires Runnable(cfg, boot, es + [e]) && Honest(cfg, env, boot, es + [e]) && Runnable(cfg, boot, es)
    requires Counted(After(cfg, env, boot, es).core, boot.depth, Done(es), Seen(es))
    ensures Counted(After(cfg, env, boot, es + [e]).core, boot.depth, Done(es + [e]), Seen(es + [e]))
  {
    hide Rest, EventOk, Fair, After, Counted, IoPath.Step, Runnable, Honest, Done, Seen;
    HonestPush(cfg, env, boot, es, e);
    DonePush(es, e);
    AfterPush(cfg, env, boot, es, e);
    CountedStep(cfg, env, After(cfg, env, boot, es), e, boot.depth, Done(es), Seen(es));
  }

  lemma HonestNone(cfg: Config, env: Env, boot: Boot)
    requires Runnable(cfg, boot, [])
    ensures Counted(After(cfg, env, boot, []).core, boot.depth, Done([]), Seen([]))
  {
    CountedStart(boot.depth, boot.skipGen, boot.live);
    hide Rest, Counted, Spans;
  }

  lemma {:induction false} HonestCounted(cfg: Config, env: Env, boot: Boot, es: seq<Event>)
    requires Runnable(cfg, boot, es) && Honest(cfg, env, boot, es)
    ensures Counted(After(cfg, env, boot, es).core, boot.depth, Done(es), Seen(es))
    decreases |es|
  {
    hide Rest, EventOk, Fair, After, Counted, IoPath.Step, Runnable, Honest, Done, Seen;
    if es == [] {
      HonestNone(cfg, env, boot);
    } else {
      var n := |es| - 1;
      assert es == es[..n] + [es[n]];
      HonestPush(cfg, env, boot, es[..n], es[n]);
      HonestCounted(cfg, env, boot, es[..n]);
      HonestNext(cfg, env, boot, es[..n], es[n]);
    }
  }

  /** After every honest run the ring refuses exactly when the commands in flight
      and the completions consumed since the last drain pass ended make depth - 1. */
  lemma RefusesExactly(cfg: Config, env: Env, boot: Boot, es: seq<Event>)
    requires Runnable(cfg, boot, es) && Honest(cfg, env, boot, es)
    ensures var k := After(cfg, env, boot, es).core;
            && 0 <= k.pool.count + (Done(es) - Seen(es)) <= boot.depth - 1
            && (RingRefuses(k) <==> k.pool.count + (Done(es) - Seen(es)) == boot.depth - 1)
  {
    hide Rest, Honest;
    HonestCounted(cfg, env, boot, es);
    CountNat(cfg, After(cfg, env, boot, es));
    hide After;
    SpanFull(After(cfg, env, boot, es).core, Seen(es));
  }

  // ---------------------------------------------- what a tick loses, in tags

  /** How many requests due at `now` stand before `x` in the walk. */
  function DueAhead(reqs: map<nat, Req>, now: nat, todo: seq<nat>, x: nat): nat
    decreases |todo|
  {
    if todo == [] || todo[0] == x then 0
    else
      DueAhead(reqs, now, todo[1..], x) + if todo[0] in reqs && Due(now, reqs[todo[0]].deadline) then 1 else 0
  }

  /** The ring's room and the free tags say the same. */
  ghost predicate Matched(m: Room) {
    m.depth > 0 && m.up && m.free <= m.depth && m.head == (m.tail + m.free) % m.depth
  }

  lemma MatchedFull(m: Room)
    requires Matched(m) && m.free > 0
    ensures Full(m) <==> m.free == 1
    ensures m.free > 1 ==> Matched(Taken(m))
  {
    ModApart(m.tail + m.free, m.tail + 1, m.depth);
    ShiftLeft(m.tail + 1, m.free - 1, m.depth);
  }

  lemma {:induction false} DoomedTail(reqs: map<nat, Req>, m: Room, now: nat, todo: seq<nat>, x: nat)
    requires Matched(m) && NoDup(todo) && x in todo && x in reqs
    ensures Doomed(reqs, m, now, todo, x) <==>
              Due(now, reqs[x].deadline) && 1 <= m.free <= 1 + DueAhead(reqs, now, todo, x)
    decreases |todo|
  {
    if m.free > 0 { MatchedFull(m); }
    hide Due, Full, Matched, Taken;
    var r := todo[0];
    if r != x {
      assert x in todo[1..];
      if r in reqs && Due(now, reqs[r].deadline) && m.free > 1 {
        TakenFree(m);
        DoomedTail(reqs, Taken(m), now, todo[1..], x);
      } else {
        DoomedTail(reqs, m, now, todo[1..], x);
      }
    } else if !Due(now, reqs[x].deadline) && Doomed(reqs, m, now, todo[1..], x) {
      DoomedListed(reqs, m, now, todo[1..], x);
    }
  }

  lemma TakenFree(m: Room)
    requires m.free > 0 && m.depth > 0
    ensures Taken(m).free == m.free - 1
  {
  }

  lemma RoomMatched(cfg: Config, s: State, depth: nat, done: nat)
    requires Counted(s.core, depth, done, done) && Rest(cfg, s)
    ensures Matched(RoomOf(s.core))
  {
    CountNat(cfg, s);
    hide Rest;
    var k := s.core;
    ShiftLeft(|k.sq|, |k.pool.free|, depth);
    AddWhole(done, depth);
    assert |k.sq| + |k.pool.free| == done + depth;
  }

  /** A watchdog tick between two drain passes of an honest run, where
      nvme_tick_watchdog puts it: a parked request is lost exactly when it is due,
      a tag is free, and the due requests before it on the list use up all free
      tags but one. */
  lemma TickLosesTail(cfg: Config, env: Env, boot: Boot, es: seq<Event>, now: nat, x: nat)
    requires Runnable(cfg, boot, es) && Honest(cfg, env, boot, es) && Seen(es) == Done(es)
    ensures var s := After(cfg, env, boot, es);
            && (x in s.core.retryList ==> x in s.core.reqs)
            && (x in Tick(cfg, env, s, now).book.lost && x !in s.book.lost <==>
                  && x in s.core.retryList && Due(now, s.core.reqs[x].deadline)
                  && 1 <= |s.core.pool.free| <= 1 + DueAhead(s.core.reqs, now, s.core.retryList, x))
  {
    hide Rest, Honest, Due, Tick, Doomed, Matched;
    HonestCounted(cfg, env, boot, es);
    var s := After(cfg, env, boot, es);
    hide After;
    RoomMatched(cfg, s, boot.depth, Done(es));
    RetryDistinct(cfg, s);
    TickLoses(cfg, env, s, now, x);
    if x in s.core.retryList {
      ListedLive(cfg, s, x);
      DoomedTail(s.core.reqs, RoomOf(s.core), now, s.core.retryList, x);
    } else if Doomed(s.core.reqs, RoomOf(s.core), now, s.core.retryList, x) {
      DoomedListed(s.core.reqs, RoomOf(s.core), now, s.core.retryList, x);
    }
  }

  lemma RetryDistinct(cfg: Config, s: State)
    requires Rest(cfg, s)
    ensures NoDup(s.core.retryList)
  {
    RetryNoDup(cfg, s);
    hide Rest;
  }

  /** A completion in an honest run: its request is lost exactly when it is to be
      retried at once and, the completion itself not counted, the commands in
      flight and the completions of this pass make depth - 1. */
  lemma CqeLosesTail(cfg: Config, env: Env, boot: Boot, es: seq<Event>, raw: Cid, status: nat, x: nat)
    requires Runnable(cfg, boot, es) && Honest(cfg, env, boot, es)
    ensures var s := After(cfg, env, boot, es);
            && (Lookup(s.core.pool, raw) == Some(x) ==> x in s.core.reqs)
            && (x in OnCqe(cfg, env, s, raw, status).book.lost && x !in s.book.lost <==>
                  && Lookup(s.core.pool, raw) == Some(x)
                  && RetryWorthy(s.core.reqs[x].(status := status)) && Crd(status) == 0
                  && s.core.pool.count + (Done(es) - Seen(es)) == boot.depth - 1)
  {
    hide Rest, Honest, OnCqe, RetryWorthy, Crd, Lookup, RingRefuses;
    RefusesExactly(cfg, env, boot, es);
    OnCqeLoses(cfg, env, After(cfg, env, boot, es), raw, status, x);
    hide After;
  }
}
