/** What no step takes back: a reply, a completion's status, a lost request, the
    job of whoever holds an IOStdReq, and the first error of a chunked transfer. */
module IoKeep {
  import opened Base
  import opened Tags
  import opened Chunk
  import opened IoCore
  import opened IoBook
  import opened IoPath
  import opened IoFlush
  import opened IoRetry
  import opened IoLost
  import opened IoRing
  import opened IoTheorems

  // ------------------------------------------------------------- the relation

  /** The AmigaOS error a status stands for, by its SCT and SC. */
  function ErrorFor(status: nat): int {
    var code := status % 0x800;
    if code == 0 then 0 else if code == 0x00B then 32 else if code == 0x080 || code == 0x081 then -5 else 20
  }

  /** A context lives on with its IOStdReq, its job and an error once latched, or
      has been answered with them. */
  ghost predicate CtxCarried(b: Book, c: nat, b': Book)
    requires c in b.ctxs
  {
    var k := b.ctxs[c];
    || (c in b'.ctxs && SameClaim(k, b'.ctxs[c]))
    || (k.io in b'.replies && AnswersCtx(k, b'.replies[k.io]))
  }

  ghost predicate SameClaim(k: Ctx, k': Ctx) {
    k'.io == k.io && k'.job == k.job && (k.firstError != 0 ==> k'.firstError == k.firstError)
  }

  ghost predicate AnswersCtx(k: Ctx, y: Reply) {
    y.Outcome? && y.chunked && y.job == k.job && (k.firstError != 0 ==> y.err == k.firstError)
  }

  /** A request lives on, is lost, or has ended; a single-shot one with a reply that
      carries its job and the error its status stands for. */
  ghost predicate ReqCarried(b: Book, r: nat, b': Book)
    requires r in b.parents
  {
    var p := b.parents[r];
    || (r in b'.parents && b'.parents[r] == p)
    || (r in b'.lost && b'.lost[r] == p)
    || (r in b'.done && (p.Single? ==> p.io in b'.replies && AnswersReq(p, b'.done[r], b'.replies[p.io])))
  }

  ghost predicate AnswersReq(p: Parent, status: nat, y: Reply)
    requires p.Single?
  {
    y.Outcome? && !y.chunked && y.job == p.job && y.tiles == [p.tile] && y.err == ErrorFor(status)
  }

  ghost predicate Carries(b: Book, b': Book) {
    && (forall io :: io in b.replies ==> io in b'.replies && b'.replies[io] == b.replies[io])
    && (forall r :: r in b.done ==> r in b'.done && b'.done[r] == b.done[r])
    && (forall r :: r in b.lost ==> r in b'.lost && b'.lost[r] == b.lost[r])
    && (forall c :: c in b.ctxs ==> CtxCarried(b, c, b'))
    && (forall r :: r in b.parents ==> ReqCarried(b, r, b'))
  }

  lemma CarriesTrans(b: Book, b1: Book, b2: Book)
    requires Carries(b, b1) && Carries(b1, b2)
    ensures Carries(b, b2)
  {
    hide AnswersReq;
    forall c | c in b.ctxs ensures CtxCarried(b, c, b2) {
      assert CtxCarried(b, c, b1);
      if c in b1.ctxs { assert CtxCarried(b1, c, b2); }
    }
    forall r | r in b.parents ensures ReqCarried(b, r, b2) {
      assert ReqCarried(b, r, b1);
      if r in b1.parents { assert ReqCarried(b1, r, b2); }
    }
  }

  lemma CarriesSelf(b: Book)
    ensures Carries(b, b)
  {
  }

  // ---------------------------------------------------------- the single steps

  lemma CarryDispatch(b: Book, c: nat, t: Tile)
    requires c in b.ctxs && t.req !in b.parents
    ensures Carries(b, Dispatch(b, c, t))
  {
  }

  lemma CarryLatch(b: Book, c: nat, err: int)
    requires c in b.ctxs && b.ctxs[c].firstError == 0
    ensures Carries(b, Latch(b, c, err))
  {
  }

  lemma CarryStall(b: Book, c: nat)
    requires c in b.ctxs
    ensures Carries(b, Stall(b, c))
  {
  }

  lemma CarryUnstall(b: Book)
    requires b.stalled != [] && b.stalled[0] in b.ctxs
    ensures Carries(b, Unstall(b))
  {
  }

  lemma CarryFinish(b: Book, c: nat)
    requires c in b.ctxs && b.ctxs[c].io !in b.replies
    ensures Carries(b, Finish(b, c))
  {
  }

  lemma CarryEndSingle(b: Book, r: nat, status: nat)
    requires r in b.parents && b.parents[r].Single? && r !in b.done && b.parents[r].io !in b.replies
    ensures Carries(b, EndSingle(b, r, status))
  {
  }

  lemma CarryEndSibling(b: Book, r: nat, status: nat, userLen: nat)
    requires r in b.parents && b.parents[r].Sibling? && b.parents[r].ctx in b.ctxs && r !in b.done
    ensures Carries(b, EndSibling(b, r, status, userLen))
  {
    hide ErrorStatus;
  }

  lemma CarryLose(b: Book, r: nat)
    requires r in b.parents && r !in b.lost
    ensures Carries(b, Lose(b, r))
  {
  }

  lemma CarryArrive(b: Book)
    ensures Carries(b, Arrive(b))
  {
  }

  lemma CarryAddSingle(b: Book, r: nat, p: Parent)
    requires p.Single? && r !in b.parents
    ensures Carries(b, AddSingle(b, r, p))
  {
  }

  lemma CarryNewCtx(b: Book, io: nat, job: Job)
    requires b.nextCtx !in b.ctxs
    ensures Carries(b, NewCtx(b, io, job))
  {
  }

  /** A context that came and went leaves nothing behind. */
  lemma CarryDropCtx(b: Book, b': Book, c: nat)
    requires Carries(b, b') && c !in b.ctxs && c in b'.ctxs
    ensures Carries(b, DropCtx(b', c))
  {
    var b2 := DropCtx(b', c);
    hide SameClaim, AnswersCtx, AnswersReq;
    forall d | d in b.ctxs ensures CtxCarried(b, d, b2) { assert CtxCarried(b, d, b'); }
    forall r | r in b.parents ensures ReqCarried(b, r, b2) { assert ReqCarried(b, r, b'); }
  }

  lemma CarryReply(b: Book, io: nat, y: Reply)
    requires io !in b.replies
    ensures Carries(b, PostReply(b, io, y))
  {
  }

  // ------------------------------------------------------------ chunks and ends

  /** A turn of the pump books the next chunk, or nothing. */
  lemma TurnBook(cfg: Config, env: Env, s: State, c: nat)
    requires Pumpable(cfg, s, c) && c in s.book.ctxs && s.book.ctxs[c].dispatched < s.book.ctxs[c].job.total
    requires s.book.ctxs[c].inflight < SibCap(cfg)
    ensures var b := PumpTurn(cfg, env, s, c).0.book;
            b == s.book || b == Dispatch(s.book, c, NextTile(cfg.limits, s.book.ctxs[c], s.core.nextReq))
  {
    var k := s.book.ctxs[c];
    hide Pumpable, PumpFrame, CoreOk, Dispatch, Rollback, Launched, Spent;
    hide Sendable, ChunkOff, NextTile, SqeOf, TryCommand;
    PumpableCore(cfg, s, c);
    NextSendable(cfg, s, c, k);
    TurnRollback(cfg, s, c);
  }

  lemma TurnCarries(cfg: Config, env: Env, s: State, c: nat)
    requires Pumpable(cfg, s, c) && c in s.book.ctxs && s.book.ctxs[c].dispatched < s.book.ctxs[c].job.total
    requires s.book.ctxs[c].inflight < SibCap(cfg)
    ensures Carries(s.book, PumpTurn(cfg, env, s, c).0.book)
  {
    FreshReq(cfg, s, Some(c));
    PumpableCore(cfg, s, c);
    hide Pumpable, Carries, Dispatch, PumpTurn, NextTile;
    TurnBook(cfg, env, s, c);
    CarriesSelf(s.book);
    CarryDispatch(s.book, c, NextTile(cfg.limits, s.book.ctxs[c], s.core.nextReq));
  }

  lemma FreshReq(cfg: Config, s: State, hot: Option<nat>)
    requires Inv(cfg, s, None, hot, None, {})
    ensures s.core.nextReq !in s.book.parents
  {
    FreshId(cfg, s, hot, None, {});
    hide Inv;
  }

  lemma {:induction false} PumpCarries(cfg: Config, env: Env, s: State, c: nat)
    requires Pumpable(cfg, s, c) && c in s.book.ctxs && s.book.ctxs[c].dispatched <= s.book.ctxs[c].job.total
    ensures Carries(s.book, Pump(cfg, env, s, c).0.book)
    decreases s.book.ctxs[c].job.total - s.book.ctxs[c].dispatched
  {
    PumpableClean(cfg, s, c);
    var k := s.book.ctxs[c];
    CarriesSelf(s.book);
    CarryStall(s.book, c);
    hide Pumpable, Pumped, PumpTurn, PumpFrame, Inv, Carries, Stall, Latch, Pump, SibCap;
    if k.dispatched == k.job.total || k.inflight >= SibCap(cfg) {
      PumpEnds(cfg, env, s, c);
    } else {
      var (s1, turn) := PumpTurn(cfg, env, s, c);
      if turn == Sent {
        PumpNext(cfg, env, s, c);
        PumpGoesOn(cfg, env, s, c);
        TurnCarries(cfg, env, s, c);
        PumpCarries(cfg, env, s1, c);
        CarriesTrans(s.book, s1.book, Pump(cfg, env, s1, c).0.book);
      } else {
        PumpBreaks(cfg, env, s, c);
        if turn.Fault? { CarryLatch(s.book, c, turn.err); }
      }
    }
  }

  /** Nothing but context `c` and the requests sent for it is new. */
  ghost predicate OthersSame(b: Book, c: nat, b': Book) {
    && c in b.ctxs && c in b'.ctxs && b.ctxs[c].tiles <= b'.ctxs[c].tiles
    && b'.ctxs[c].io == b.ctxs[c].io && b'.ctxs[c].job == b.ctxs[c].job
    && b'.done == b.done && b'.replies == b.replies && b'.lost == b.lost
    && (forall d :: d in b.ctxs && d != c ==> d in b'.ctxs && b'.ctxs[d] == b.ctxs[d])
    && (forall r :: r in b.parents ==> r in b'.parents && b'.parents[r] == b.parents[r])
  }

  lemma OthersTrans(b: Book, c: nat, b1: Book, b2: Book)
    requires OthersSame(b, c, b1) && OthersSame(b1, c, b2)
    ensures OthersSame(b, c, b2)
  {
  }

  lemma DispatchLocal(b: Book, c: nat, t: Tile)
    requires c in b.ctxs && t.req !in b.parents
    ensures OthersSame(b, c, Dispatch(b, c, t))
  {
  }

  lemma MarkLocal(b: Book, c: nat, err: int)
    requires c in b.ctxs
    ensures OthersSame(b, c, Stall(b, c)) && OthersSame(b, c, Latch(b, c, err)) && OthersSame(b, c, b)
  {
  }

  lemma TurnLocal(cfg: Config, env: Env, s: State, c: nat)
    requires Pumpable(cfg, s, c) && c in s.book.ctxs && s.book.ctxs[c].dispatched < s.book.ctxs[c].job.total
    requires s.book.ctxs[c].inflight < SibCap(cfg)
    ensures OthersSame(s.book, c, PumpTurn(cfg, env, s, c).0.book)
  {
    FreshReq(cfg, s, Some(c));
    PumpableCore(cfg, s, c);
    hide Pumpable, OthersSame, Dispatch, PumpTurn, NextTile;
    TurnBook(cfg, env, s, c);
    MarkLocal(s.book, c, 0);
    DispatchLocal(s.book, c, NextTile(cfg.limits, s.book.ctxs[c], s.core.nextReq));
  }

  lemma {:induction false} PumpLocal(cfg: Config, env: Env, s: State, c: nat)
    requires Pumpable(cfg, s, c) && c in s.book.ctxs && s.book.ctxs[c].dispatched <= s.book.ctxs[c].job.total
    ensures OthersSame(s.book, c, Pump(cfg, env, s, c).0.book)
    decreases s.book.ctxs[c].job.total - s.book.ctxs[c].dispatched
  {
    var k := s.book.ctxs[c];
    hide Pumpable, Pumped, PumpTurn, PumpFrame, Inv, OthersSame, Stall, Latch, Pump, SibCap;
    MarkLocal(s.book, c, 0);
    if k.dispatched == k.job.total || k.inflight >= SibCap(cfg) {
      PumpEnds(cfg, env, s, c);
    } else {
      var (s1, turn) := PumpTurn(cfg, env, s, c);
      if turn == Sent {
        PumpNext(cfg, env, s, c);
        PumpGoesOn(cfg, env, s, c);
        TurnLocal(cfg, env, s, c);
        PumpLocal(cfg, env, s1, c);
        OthersTrans(s.book, c, s1.book, Pump(cfg, env, s1, c).0.book);
      } else {
        PumpBreaks(cfg, env, s, c);
        if turn.Fault? { MarkLocal(s.book, c, turn.err); }
      }
    }
  }

  lemma PumpableClean(cfg: Config, s: State, c: nat)
    requires Pumpable(cfg, s, c)
    ensures c in s.book.ctxs && s.book.ctxs[c].firstError == 0
  {
  }

  lemma AnswerCarries(s: State, c: nat)
    requires c in s.book.ctxs && s.book.ctxs[c].io !in s.book.replies
    ensures Carries(s.book, Answer(s, c).book)
  {
    CarriesSelf(s.book);
    CarryFinish(s.book, c);
    hide Carries, Finish;
  }

  lemma UnrepliedCtx(cfg: Config, s: State, hot: Option<nat>, c: nat)
    requires Inv(cfg, s, None, hot, None, {}) && c in s.book.ctxs
    ensures s.book.ctxs[c].io !in s.book.replies
  {
    CtxUnreplied(s.book, c);
  }

  lemma PausedUnreplied(cfg: Config, s: State, c: nat, s1: State)
    requires Paused(cfg, s, c, s1)
    ensures c in s1.book.ctxs && s1.book.ctxs[c].io !in s1.book.replies
  {
    UnrepliedCtx(cfg, s1, if s1.book.ctxs[c].stalled then None else Some(c), c);
    hide Inv;
  }

  lemma RefillCarries(cfg: Config, env: Env, s: State, c: nat)
    requires Inv(cfg, s, None, Some(c), None, {}) && c in s.book.ctxs && !s.book.ctxs[c].stalled
    requires s.book.ctxs[c].dispatched <= s.book.ctxs[c].job.total
    ensures Carries(s.book, Refill(cfg, env, s, c).book)
  {
    UnrepliedCtx(cfg, s, Some(c), c);
    hide Inv, Pumpable, Pump, Paused, Rest, Carries, Answer, Refill;
    if s.book.ctxs[c].dispatched < s.book.ctxs[c].job.total && s.book.ctxs[c].firstError == 0 {
      RefillPumps(cfg, env, s, c);
      var s1 := Pump(cfg, env, s, c).0;
      PausedUnreplied(cfg, s, c, s1);
      PumpCarries(cfg, env, s, c);
      AnswerCarries(s1, c);
      CarriesTrans(s.book, s1.book, Answer(s1, c).book);
    } else {
      RefillRests(cfg, env, s, c);
      AnswerCarries(s, c);
    }
  }

  lemma PumpedPaused(cfg: Config, s: State, c: nat, s1: State, rc: int)
    requires Pumped(cfg, s, c, s1, rc)
    ensures Paused(cfg, s, c, s1)
  {
    hide Paused;
  }

  lemma EndFacts(cfg: Config, s: State, r: nat)
    requires Inv(cfg, s, Some(r), None, None, {}) && r in s.book.parents
    ensures r !in s.book.done && r !in s.book.lost
    ensures s.book.parents[r].Single? ==> s.book.parents[r].io !in s.book.replies
    ensures s.book.parents[r].Sibling? ==> s.book.parents[r].ctx in s.book.ctxs
  {
    assert OwnersOk(s.book, None) && LinksOk(cfg.limits, s.book);
    hide Inv, BookOk, CtxsOk;
  }

  lemma EndCarries(cfg: Config, env: Env, s: State, r: nat)
    requires Inv(cfg, s, Some(r), None, None, {}) && r in s.core.reqs && r in s.book.parents
    ensures Carries(s.book, EndReq(cfg, env, s, r).book)
  {
    EndFacts(cfg, s, r);
    hide Inv, Carries, EndReq, Refill, Retire, EndSingle, EndSibling;
    var q := s.core.reqs[r];
    if s.book.parents[r].Single? {
      SingleEnd(cfg, env, s, r);
      CarryEndSingle(s.book, r, q.status);
    } else {
      var s1, c := SiblingEnd(cfg, env, s, r);
      CarryEndSibling(s.book, r, q.status, q.userLen);
      RefillCarries(cfg, env, s1, c);
      CarriesTrans(s.book, s1.book, Refill(cfg, env, s1, c).book);
    }
  }

  lemma ParkBook(cfg: Config, env: Env, s: State, r: nat)
    requires r in s.core.reqs && s.core.reqs[r].retries < MAX_RETRIES && Crd(s.core.reqs[r].status) != 0
    requires Handling(cfg, s, r)
    ensures ParkForDelay(cfg, env, s, r).book == s.book && Retry(cfg, env, s, r) == ParkForDelay(cfg, env, s, r)
  {
    ParkLosesNone(cfg, env, s, r);
  }

  lemma {:induction false} CompleteCarries(cfg: Config, env: Env, s: State, r: nat)
    requires r in s.core.reqs && Handling(cfg, s, r)
    ensures Carries(s.book, Complete(cfg, env, s, r).book)
    decreases 5 - s.core.reqs[r].retries, 1
  {
    HandlingHas(cfg, s, r);
    CarriesSelf(s.book);
    hide Handling, Inv, Rest, Settled, Carries, ParkForDelay, Resubmit, EndReq, Nudged, Crd, CfgOk;
    var q := s.core.reqs[r];
    if !RetryWorthy(q) {
      HandlingInv(cfg, s, r);
      EndCarries(cfg, env, s, r);
    } else if Crd(q.status) != 0 {
      ParkBook(cfg, env, s, r);
    } else {
      BumpInv(cfg, s, r);
      RetryNow(cfg, env, s, r);
      hide Retry;
      ResubmitCarries(cfg, env, s.(core := Bump(s.core, r)), r);
    }
  }

  lemma {:induction false} ResubmitCarries(cfg: Config, env: Env, s: State, r: nat)
    requires r in s.core.reqs && Writes(s.core.sq, r) <= s.core.reqs[r].retries && Handling(cfg, s, r)
    ensures Carries(s.book, Resubmit(cfg, env, s, r).book)
    decreases 5 - s.core.reqs[r].retries, 2
  {
    HandlingCore(cfg, s, r);
    HandlingHas(cfg, s, r);
    CarriesSelf(s.book);
    CarryLose(s.book, r);
    hide Handling, Rest, Inv, Settled, CoreOk, Nudged, Carries, Complete, Relaunch, Lose;
    if |s.core.pool.free| == 0 {
      SetStatusInv(cfg, s, r, SC_HOST_PATH_ERROR, false);
      var s1 := s.(core := SetStatus(s.core, r, SC_HOST_PATH_ERROR, false));
      assert Resubmit(cfg, env, s, r) == Complete(cfg, env, s1, r);
      hide Resubmit, SetStatus;
      CompleteCarries(cfg, env, s1, r);
    } else {
      ResubmitBook(cfg, env, s, r);
      hide Resubmit;
    }
  }

  lemma ResubmitBook(cfg: Config, env: Env, s: State, r: nat)
    requires r in s.core.reqs && Writes(s.core.sq, r) <= s.core.reqs[r].retries && Handling(cfg, s, r)
    requires r in s.book.parents && |s.core.pool.free| > 0
    ensures Resubmit(cfg, env, s, r).book in {s.book, Lose(s.book, r)}
  {
    HandlingCore(cfg, s, r);
    hide Handling, Rest, Inv, Settled, CoreOk, Nudged, Complete, Relaunch, Lose;
  }

  // ---------------------------------------------------------------- dispatch

  /** `job` is what the command asks for. */
  ghost predicate AskedFor(cfg: Config, cmd: Cmd, job: Job) {
    && job.unit == cmd.unit && job.ioLength == cmd.length
    && match cmd
       case RwCmd(unit, write, lba, blocks, _, bufOff, _, trackdisk) =>
         && (if write then job.op.Write? else job.op.Read?)
         && job.lba == lba && job.total == blocks * BlockSize(unit.shift) && job.bufOff == bufOff
         && job.trackdisk == trackdisk
       case ZeroesCmd(unit, lba, blocks, _) =>
         if cfg.deallocZeroes then job.op == Trim([Range(lba, blocks)])
         else job.op.Zeroes? && job.lba == lba && job.total == blocks * BlockSize(unit.shift)
       case TrimCmd(_, ranges, _) => job.op == Trim(ranges)
       case FlushCmd(_, _) => job.op.Flush?
  }

  /** IOStdReq `io` is held, lost or answered under this job. */
  ghost predicate HasJob(b: Book, io: nat, job: Job) {
    || (exists r :: r in b.parents && OfIo(b.parents[r], io, job))
    || (exists r :: r in b.lost && OfIo(b.lost[r], io, job))
    || (exists c :: c in b.ctxs && b.ctxs[c].io == io && b.ctxs[c].job == job)
    || (io in b.replies && b.replies[io].Outcome? && b.replies[io].job == job)
  }

  ghost predicate OfIo(p: Parent, io: nat, job: Job) { p.Single? && p.io == io && p.job == job }

  lemma HasJobStays(b: Book, b': Book, io: nat, job: Job)
    requires HasJob(b, io, job) && Carries(b, b')
    ensures HasJob(b', io, job)
  {
    if r :| r in b.parents && OfIo(b.parents[r], io, job) {
      assert ReqCarried(b, r, b');
    } else if c :| c in b.ctxs && b.ctxs[c].io == io && b.ctxs[c].job == job {
      assert CtxCarried(b, c, b');
    }
  }

  /** Nothing on record ended or changed. */
  ghost predicate Untouched(b: Book, b': Book) {
    && b'.replies == b.replies && b'.done == b.done && b'.lost == b.lost
    && (forall c :: c in b.ctxs ==> c in b'.ctxs && b'.ctxs[c] == b.ctxs[c])
    && (forall r :: r in b.parents ==> r in b'.parents && b'.parents[r] == b.parents[r])
  }

  /** A dispatch changed nothing on record, and what it accepted it holds under the
      job. */
  ghost predicate Took(s: State, io: nat, job: Job, s': State, rc: int) {
    Carries(s.book, s'.book) && Untouched(s.book, s'.book) && (rc == ASYNC ==> HasJob(s'.book, io, job))
  }

  lemma SingleTakes(cfg: Config, env: Env, s: State, io: nat, job: Job)
    requires Dispatching(cfg, s, io) && OneShot(cfg, job) && CoreOk(s.core, None, {})
    ensures var (s', rc) := SingleShot(cfg, env, s, io, job); Took(s, io, job, s', rc)
  {
    FreshTask(cfg, s, io);
    var p := Single(io, job, WholeTile(s.core.nextReq, job));
    CarryAddSingle(s.book, s.core.nextReq, p);
    CarriesSelf(s.book);
    SingleHas(s.book, s.core.nextReq, p);
    hide Dispatching, Dispatched, CoreOk, OneShot, Launched, Spent, Sendable, TryCommand, Carries, HasJob, AddSingle,
      Untouched;
    WholeSendable(cfg, job, p.tile);
  }

  lemma SingleHas(b: Book, r: nat, p: Parent)
    requires p.Single?
    ensures HasJob(AddSingle(b, r, p), p.io, p.job) && (r !in b.parents ==> Untouched(b, AddSingle(b, r, p)))
    ensures Untouched(b, b)
  {
    var b' := AddSingle(b, r, p);
    assert r in b'.parents && OfIo(b'.parents[r], p.io, p.job);
  }

  lemma FreshTask(cfg: Config, s: State, io: nat)
    requires Dispatching(cfg, s, io)
    ensures s.core.nextReq !in s.book.parents && s.book.nextCtx !in s.book.ctxs
  {
    FreshId(cfg, s, None, Some(io), {});
    assert OwnersOk(s.book, Some(io));
  }

  /** How the multi-chunk path goes once it has its context. */
  lemma MultiPumps(cfg: Config, env: Env, s: State, io: nat, job: Job)
    requires Dispatching(cfg, s, io) && JobOk(cfg.limits, job) && IsData(job.op) && job.total > 0
    requires s.live && env.grant(s.core.clock)
    ensures var (s1, c) := (Opened(s, io, job), s.book.nextCtx);
            && Pumpable(cfg, s1, c) && c in s1.book.ctxs && s1.book.ctxs[c].dispatched <= s1.book.ctxs[c].job.total
            && var (s2, rc) := Pump(cfg, env, s1, c);
            && c in s2.book.ctxs && PumpFrame(s1, s2, c)
            && MultiShot(cfg, env, s, io, job)
               == if rc != ASYNC then (s2.(book := DropCtx(s2.book, c)), rc) else (s2, ASYNC)
  {
    DispatchingCore(cfg, s, io);
    OpenedFrame(s, io, job);
    CtxReady(cfg, s, io, job);
    var s1, c := Opened(s, io, job), s.book.nextCtx;
    var (s2, rc) := Pump(cfg, env, s1, c);
    PumpedHas(cfg, s1, c, s2, rc);
    PumpedFrame(cfg, s1, c, s2, rc);
    hide Inv, Dispatching, Dispatched, Pumpable, Pumped, CoreOk, Spent, JobOk, Asked, Opened, NewCtx, Pump, PumpFrame,
      DropCtx;
    AskedOk(s.core);
  }

  lemma PumpedFrame(cfg: Config, s: State, c: nat, s': State, rc: int)
    requires Pumped(cfg, s, c, s', rc)
    ensures PumpFrame(s, s', c)
  {
    hide PumpFrame, Inv;
  }

  lemma MultiIdle(cfg: Config, env: Env, s: State, io: nat, job: Job)
    requires Dispatching(cfg, s, io) && JobOk(cfg.limits, job) && IsData(job.op) && job.total > 0
    requires !s.live || !env.grant(s.core.clock)
    ensures MultiShot(cfg, env, s, io, job)
            == if !s.live then (s, IOERR_UNITBUSY) else (s.(core := Asked(s.core)), IOERR_SELFTEST)
  {
    DispatchingCore(cfg, s, io);
    hide Inv, Dispatching, Dispatched, Pumpable, Pumped, CoreOk, Spent, JobOk, Asked, Opened, NewCtx, Pump;
    AskedOk(s.core);
  }

  lemma MultiTakes(cfg: Config, env: Env, s: State, io: nat, job: Job)
    requires Dispatching(cfg, s, io) && JobOk(cfg.limits, job) && IsData(job.op) && job.total > 0
    ensures var (s', rc) := MultiShot(cfg, env, s, io, job); Took(s, io, job, s', rc)
  {
    FreshTask(cfg, s, io);
    CarriesSelf(s.book);
    CarryNewCtx(s.book, io, job);
    OpenedFrame(s, io, job);
    OpenedBook(s, io, job);
    SelfTakes(s, io, job, IOERR_UNITBUSY);
    hide Inv, Dispatching, Pumpable, JobOk, Carries, HasJob, Asked, Opened, NewCtx, Pump, PumpFrame, MultiShot, DropCtx,
      Untouched, OthersSame;
    if !s.live || !env.grant(s.core.clock) {
      MultiIdle(cfg, env, s, io, job);
    } else {
      MultiPumps(cfg, env, s, io, job);
      var s1, c := Opened(s, io, job), s.book.nextCtx;
      var (s2, rc) := Pump(cfg, env, s1, c);
      PumpCarries(cfg, env, s1, c);
      CarriesTrans(s.book, s1.book, s2.book);
      CtxHas(s1, s2, c, io, job);
      PumpLocal(cfg, env, s1, c);
      NewPumped(s.book, s1.book, c, s2.book);
      if rc != ASYNC { CarryDropCtx(s.book, s2.book, c); }
    }
  }

  /** A new context pumped, and possibly dropped again. */
  lemma NewPumped(b: Book, b1: Book, c: nat, b2: Book)
    requires Untouched(b, b1) && OthersSame(b1, c, b2) && c !in b.ctxs
    ensures Untouched(b, b2) && Untouched(b, DropCtx(b2, c))
  {
  }

  lemma OpenedBook(s: State, io: nat, job: Job)
    ensures Opened(s, io, job).book == NewCtx(s.book, io, job)
    ensures s.book.nextCtx !in s.book.ctxs ==> Untouched(s.book, Opened(s, io, job).book)
  {
  }

  lemma CtxHas(s1: State, s2: State, c: nat, io: nat, job: Job)
    requires PumpFrame(s1, s2, c) && c in s1.book.ctxs && s1.book.ctxs[c].io == io && s1.book.ctxs[c].job == job
    ensures HasJob(s2.book, io, job)
  {
    assert c in s2.book.ctxs && s2.book.ctxs[c].io == io && s2.book.ctxs[c].job == job;
  }

  /** The three ways a TRIM goes: no range buffer, a bad range, or one command. */
  lemma TrimGoes(cfg: Config, env: Env, s: State, io: nat, unit: Unit, ranges: seq<Range>, ok: bool, length: nat)
    requires Dispatching(cfg, s, io) && CoreOk(s.core, None, {})
    ensures var job := Dataless(unit, Trim(ranges), length);
            var p := Single(io, job, WholeTile(s.core.nextReq, job));
            var sqe := SqeOf(job, p.tile);
            && sqe.op.Trim?
            && var (core, turn) := TryDsm(env, s.core, s.live, sqe);
            var res := SubmitTrim(cfg, env, s, io, unit, ranges, ok, length);
            if !env.grant(s.core.clock) then res == (s.(core := Asked(s.core)), IOERR_SELFTEST)
            else if !ok then res.0.book == s.book && res.1 == IOERR_BADADDRESS
            else if turn == Sent then res == (State(core, AddSingle(s.book, s.core.nextReq, p), s.live), ASYNC)
            else res == (s.(core := core), turn.err)
  {
    hide Inv, Dispatching, Dispatched, CoreOk, Launched, Spent, OneShot, TryDsm, AllocRanges, FreeRanges, Asked,
      AddSingle, WholeTile;
  }

  lemma TrimTakes(cfg: Config, env: Env, s: State, io: nat, unit: Unit, ranges: seq<Range>, ok: bool, length: nat)
    requires Dispatching(cfg, s, io)
    ensures var (s', rc) := SubmitTrim(cfg, env, s, io, unit, ranges, ok, length);
            Took(s, io, Dataless(unit, Trim(ranges), length), s', rc)
  {
    var job := Dataless(unit, Trim(ranges), length);
    var p := Single(io, job, WholeTile(s.core.nextReq, job));
    DispatchingCore(cfg, s, io);
    FreshTask(cfg, s, io);
    CarriesSelf(s.book);
    CarryAddSingle(s.book, s.core.nextReq, p);
    SingleHas(s.book, s.core.nextReq, p);
    TrimGoes(cfg, env, s, io, unit, ranges, ok, length);
    var (core, turn) := TryDsm(env, s.core, s.live, SqeOf(job, p.tile));
    hide *;
    TakesIf(s, io, job, SubmitTrim(cfg, env, s, io, unit, ranges, ok, length).0,
            SubmitTrim(cfg, env, s, io, unit, ranges, ok, length).1, AddSingle(s.book, s.core.nextReq, p));
  }

  lemma TakesIf(s: State, io: nat, job: Job, s': State, rc: int, held: Book)
    requires (s'.book == s.book && rc != ASYNC) || s'.book == held
    requires Carries(s.book, s.book) && Carries(s.book, held) && HasJob(held, io, job)
    requires Untouched(s.book, held) && Untouched(s.book, s.book)
    ensures Took(s, io, job, s', rc)
  {
    hide Carries, HasJob, Untouched;
  }

  lemma SelfTakes(s: State, io: nat, job: Job, rc: int)
    requires rc != ASYNC
    ensures Took(s, io, job, s, rc)
  {
    CarriesSelf(s.book);
    hide Carries;
  }

  /** A product below 2^32 is what the 32-bit register holds. */
  lemma Fits32(blocks: nat, bs: nat)
    requires blocks * bs < U32
    ensures blocks * bs % U32 == blocks * bs
  {
  }

  lemma RwTakes(cfg: Config, env: Env, s: State, io: nat, cmd: Cmd) returns (job: Job)
    requires cmd.RwCmd? && CmdOk(cfg, cmd) && Dispatching(cfg, s, io)
    ensures AskedFor(cfg, cmd, job)
    ensures var (s', rc) := SubmitRw(cfg, env, s, io, cmd); Took(s, io, job, s', rc)
  {
    var bytes := cmd.blocks * BlockSize(cmd.unit.shift) % U32;
    Fits32(cmd.blocks, BlockSize(cmd.unit.shift));
    var cap := RwCap(cfg.limits, cmd.unit.shift, cmd.lba);
    job := Job(cmd.unit, if cmd.write then Write else Read, cmd.lba, bytes, cmd.bufOff, cmd.length, cmd.trackdisk);
    assert AskedFor(cfg, cmd, job);
    JobFits(cfg, job, cmd.blocks);
    DispatchingCore(cfg, s, io);
    SelfTakes(s, io, job, IOERR_BADLENGTH);
    SelfTakes(s, io, job, IOERR_BADADDRESS);
    hide Inv, Dispatching, Dispatched, JobOk, OneShot, RwCap, SingleShot, MultiShot, CoreOk, Took, AskedFor;
    if bytes == 0 || cmd.nullBuf || OutOfRange(cmd.unit, cmd.lba, cmd.blocks) {
    } else if cap == 0 || bytes <= cap {
      SingleTakes(cfg, env, s, io, job);
    } else {
      MultiTakes(cfg, env, s, io, job);
    }
  }

  lemma ZeroesTakes(cfg: Config, env: Env, s: State, io: nat, cmd: Cmd) returns (job: Job)
    requires cmd.ZeroesCmd? && CmdOk(cfg, cmd) && Dispatching(cfg, s, io)
    ensures AskedFor(cfg, cmd, job)
    ensures var (s', rc) := SubmitZeroes(cfg, env, s, io, cmd); Took(s, io, job, s', rc)
  {
    var bytes := cmd.blocks * BlockSize(cmd.unit.shift) % U32;
    Fits32(cmd.blocks, BlockSize(cmd.unit.shift));
    var ranges := [Range(cmd.lba, cmd.blocks)];
    var zeroes := Job(cmd.unit, Zeroes, cmd.lba, bytes, 0, cmd.length, true);
    job := if cfg.deallocZeroes then Dataless(cmd.unit, Trim(ranges), cmd.length) else zeroes;
    assert AskedFor(cfg, cmd, job);
    ZeroesJob(cfg, cmd, zeroes);
    DispatchingCore(cfg, s, io);
    SelfTakes(s, io, job, IOERR_BADLENGTH);
    SelfTakes(s, io, job, IOERR_BADADDRESS);
    SelfTakes(s, io, job, IOERR_NOCMD);
    hide Inv, Dispatching, Dispatched, JobOk, OneShot, RwCap, SingleShot, MultiShot, SubmitTrim, CoreOk, Took,
      AskedFor, OutOfRange, CmdOk, Dataless;
    if cmd.blocks != 0 && !OutOfRange(cmd.unit, cmd.lba, cmd.blocks) {
      if cfg.deallocZeroes {
        TrimTakes(cfg, env, s, io, cmd.unit, ranges, true, cmd.length);
      } else if cfg.maxZeroes == 0 {
      } else if bytes <= cmd.unit.wzMax {
        SingleTakes(cfg, env, s, io, job);
      } else {
        MultiTakes(cfg, env, s, io, job);
      }
    }
  }

  lemma FlushTakes(cfg: Config, env: Env, s: State, io: nat, cmd: Cmd) returns (job: Job)
    requires cmd.FlushCmd? && CmdOk(cfg, cmd) && Dispatching(cfg, s, io)
    ensures AskedFor(cfg, cmd, job)
    ensures var (s', rc) := SubmitCmd(cfg, env, s, io, cmd); Took(s, io, job, s', rc)
  {
    job := Dataless(cmd.unit, Flush, cmd.length);
    DsmJob(cfg, job);
    DispatchingCore(cfg, s, io);
    hide Inv, Dispatching, Dispatched, OneShot, CoreOk, SingleShot, CmdOk, Took;
    SingleTakes(cfg, env, s, io, job);
  }

  lemma TrimCmdTakes(cfg: Config, env: Env, s: State, io: nat, cmd: Cmd) returns (job: Job)
    requires cmd.TrimCmd? && CmdOk(cfg, cmd) && Dispatching(cfg, s, io)
    ensures AskedFor(cfg, cmd, job)
    ensures var (s', rc) := SubmitCmd(cfg, env, s, io, cmd); Took(s, io, job, s', rc)
  {
    job := Dataless(cmd.unit, Trim(cmd.ranges), cmd.length);
    assert AskedFor(cfg, cmd, job);
    hide *;
    TrimCmdIs(cfg, env, s, io, cmd);
    SelfTakes(s, io, job, IOERR_BADLENGTH);
    TrimTakes(cfg, env, s, io, cmd.unit, cmd.ranges, RangesIn(cmd.unit, cmd.ranges), cmd.length);
  }

  lemma CmdTakes(cfg: Config, env: Env, s: State, io: nat, cmd: Cmd) returns (job: Job)
    requires CmdOk(cfg, cmd) && Dispatching(cfg, s, io)
    ensures AskedFor(cfg, cmd, job)
    ensures var (s', rc) := SubmitCmd(cfg, env, s, io, cmd); Took(s, io, job, s', rc)
  {
    hide Dispatching, Dispatched, SubmitRw, SubmitZeroes, Took, CmdOk, AskedFor;
    if cmd.RwCmd? {
      job := RwTakes(cfg, env, s, io, cmd);
    } else if cmd.ZeroesCmd? {
      job := ZeroesTakes(cfg, env, s, io, cmd);
    } else if cmd.FlushCmd? {
      job := FlushTakes(cfg, env, s, io, cmd);
    } else {
      job := TrimCmdTakes(cfg, env, s, io, cmd);
    }
  }

  /** An accepted command is refused at once, or held under the job it asks for. */
  ghost predicate Entrusted(cfg: Config, b: Book, io: nat, cmd: Cmd) {
    || (io in b.replies && b.replies[io].Refusal?)
    || (exists job :: AskedFor(cfg, cmd, job) && HasJob(b, io, job))
  }

  /** Contexts and statuses on record are the same. */
  ghost predicate Undisturbed(b: Book, b': Book) {
    b'.done == b.done && forall c :: c in b.ctxs ==> c in b'.ctxs && b'.ctxs[c] == b.ctxs[c]
  }

  lemma TookQuietly(s: State, io: nat, job: Job, s': State, rc: int, y: Reply)
    requires Took(s, io, job, s', rc)
    ensures Undisturbed(s.book, s'.book)
    ensures Undisturbed(s.book, PostReply(s'.book, io, y))
  {
    hide Carries, HasJob;
  }

  lemma ArrivedQuietly(b: Book, b': Book)
    requires Undisturbed(Arrive(b), b')
    ensures Undisturbed(b, b')
  {
  }

  lemma AcceptTakes(cfg: Config, env: Env, s: State, cmd: Cmd)
    requires Rest(cfg, s) && CmdOk(cfg, cmd)
    ensures var b := Accept(cfg, env, s, cmd).book;
            Carries(s.book, b) && Entrusted(cfg, b, s.book.nextIo, cmd) && Undisturbed(s.book, b)
  {
    var io := s.book.nextIo;
    var s1 := s.(book := Arrive(s.book));
    ArriveInv(cfg, s);
    CarryArrive(s.book);
    hide Inv, Dispatching, CmdOk, Rest, SubmitCmd, Carries, AskedFor, HasJob, Arrive, PostReply, Undisturbed;
    var job := CmdTakes(cfg, env, s1, io, cmd);
    var (s2, rc) := SubmitCmd(cfg, env, s1, io, cmd);
    CarriesTrans(s.book, s1.book, s2.book);
    TookQuietly(s1, io, job, s2, rc, Refusal(rc));
    ArrivedQuietly(s.book, Accept(cfg, env, s, cmd).book);
    if rc != ASYNC {
      StillMine(cfg, s1, io, s2, rc);
      CarryReply(s2.book, io, Refusal(rc));
      var b := PostReply(s2.book, io, Refusal(rc));
      CarriesTrans(s.book, s2.book, b);
      Posted(s2.book, io, Refusal(rc));
    }
  }

  lemma Posted(b: Book, io: nat, y: Reply)
    ensures io in PostReply(b, io, y).replies && PostReply(b, io, y).replies[io] == y
  {
  }

  lemma StillMine(cfg: Config, s: State, io: nat, s': State, rc: int)
    requires Dispatched(cfg, s, io, s', rc) && rc != ASYNC
    ensures io !in s'.book.replies && Inv(cfg, s', None, None, Some(io), {}) && rc < 0
  {
    assert OwnersOk(s'.book, Some(io));
  }

  // -------------------------------------------------------- the other events

  lemma CqeCarries(cfg: Config, env: Env, s: State, raw: Cid, status: nat)
    requires Rest(cfg, s)
    ensures Carries(s.book, OnCqe(cfg, env, s, raw, status).book)
  {
    CarriesSelf(s.book);
    hide Rest, Complete, Handling, Carries;
    if r :| Lookup(s.core.pool, raw) == Some(r) {
      var s2 := OnCqeHits(cfg, env, s, raw, status, r);
      hide OnCqe, Lookup;
      CompleteCarries(cfg, env, s2, r);
    }
  }

  lemma {:induction false} TickWalkCarries(cfg: Config, env: Env, s: State, now: nat, todo: seq<nat>)
    requires Rest(cfg, s) && Parked(s, todo)
    ensures Carries(s.book, TickRetries(cfg, env, s, now, todo).book)
    decreases |todo|
  {
    CarriesSelf(s.book);
    hide Rest, Handling, Parked, Settled, KeepsLost, Carries, Resubmit, Unpark, Due;
    if todo != [] {
      var r := todo[0];
      ParkedReq(cfg, s, todo);
      if !Due(now, s.core.reqs[r].deadline) {
        TickWalkCarries(cfg, env, s, now, todo[1..]);
      } else {
        UnparkInv(cfg, s, r);
        var s1 := s.(core := Unpark(s.core, r));
        var s2 := Resubmit(cfg, env, s1, r);
        TodoLeft(cfg, s, todo, s2);
        ResubmitCarries(cfg, env, s1, r);
        TickWalkCarries(cfg, env, s2, now, todo[1..]);
        CarriesTrans(s.book, s2.book, TickRetries(cfg, env, s2, now, todo[1..]).book);
      }
    }
  }

  lemma CancelCarries(cfg: Config, env: Env, s: State, i: nat)
    requires Rest(cfg, s) && i < |s.core.pool.table| && s.core.pool.table[i].Busy?
    ensures Carries(s.book, CancelSlot(cfg, env, s, i).book)
  {
    hide Inv, Handling, ReleaseTag, SetStatus, Rest, Settled, Carries, Complete;
    var r := s.core.pool.table[i].req;
    RestSlot(cfg, s, i);
    ReleaseInv(cfg, s, i, r);
    var s1 := s.(core := ReleaseTag(s.core, r));
    HandlingHas(cfg, s1, r);
    SetStatusInv(cfg, s1, r, SC_HOST_ABORTED, true);
    var s2 := s1.(core := SetStatus(s1.core, r, SC_HOST_ABORTED, true));
    HandlingHas(cfg, s2, r);
    CompleteCarries(cfg, env, s2, r);
  }

  lemma {:induction false} FlushCarries(cfg: Config, env: Env, s: State, i: nat)
    requires Rest(cfg, s)
    ensures Carries(s.book, FlushFrom(cfg, env, s, i).book)
    decreases |s.core.pool.table| - i
  {
    CarriesSelf(s.book);
    hide Rest, CancelSlot, Carries;
    if i < |s.core.pool.table| {
      if s.core.pool.table[i].Empty? {
        FlushCarries(cfg, env, s, i + 1);
      } else {
        var s1 := CancelSlot(cfg, env, s, i);
        CancelCarries(cfg, env, s, i);
        FlushCarries(cfg, env, s1, i + 1);
        CarriesTrans(s.book, s1.book, FlushFrom(cfg, env, s1, i + 1).book);
      }
    }
  }

  lemma RepumpCarries(cfg: Config, env: Env, s: State)
    requires Rest(cfg, s) && s.book.stalled != []
    ensures Carries(s.book, Repump(cfg, env, s).book)
  {
    var c := s.book.stalled[0];
    UnstallInv(cfg, s);
    CarryUnstall(s.book);
    var s1 := s.(book := Unstall(s.book));
    RepumpGoes(cfg, env, s);
    hide Inv, Pumpable, Pumped, Rest, Pump, Carries, Unstall, Repump;
    var (s2, rc) := Pump(cfg, env, s1, c);
    PumpedPaused(cfg, s1, c, s2, rc);
    hide Paused;
    PausedUnreplied(cfg, s1, c, s2);
    PumpCarries(cfg, env, s1, c);
    CarriesTrans(s.book, s1.book, s2.book);
    AnswerCarries(s2, c);
    CarriesTrans(s.book, s2.book, Answer(s2, c).book);
  }

  /** A re-pump: the first parked context is taken up, pumped, and answered if it
      failed outright. */
  lemma RepumpGoes(cfg: Config, env: Env, s: State)
    requires Rest(cfg, s) && s.book.stalled != []
    ensures var c := s.book.stalled[0];
            && c in s.book.ctxs
            && var s1 := s.(book := Unstall(s.book));
            && Pumpable(cfg, s1, c) && c in s1.book.ctxs && s1.book.ctxs[c].dispatched < s1.book.ctxs[c].job.total
            && c in Pump(cfg, env, s1, c).0.book.ctxs
            && Repump(cfg, env, s) == Answer(Pump(cfg, env, s1, c).0, c)
  {
    var c := s.book.stalled[0];
    UnstallInv(cfg, s);
    hide Inv, Pumpable, Pumped, Paused, Rest, Pump;
    var s1 := s.(book := Unstall(s.book));
    var (s2, rc) := Pump(cfg, env, s1, c);
    RepumpAnswer(cfg, s1, c, s2, rc);
  }

  lemma AbortedCarries(cfg: Config, s: State)
    requires Rest(cfg, s) && s.book.stalled != [] && s.book.stalled[0] in s.book.ctxs
    ensures Carries(s.book, Aborted(s.book))
  {
    var c := s.book.stalled[0];
    UnstallInv(cfg, s);
    UnrepliedRest(cfg, s, c);
    CarryUnstall(s.book);
    var b1 := Unstall(s.book);
    PumpableClean(cfg, s.(book := b1), c);
    CarryLatch(b1, c, IOERR_ABORTED);
    var b2 := Latch(b1, c, IOERR_ABORTED);
    CarryFinish(b2, c);
    hide Rest, Carries, Finish, Inv;
    CarriesTrans(s.book, b1, b2);
    CarriesTrans(s.book, b2, Finish(b2, c));
  }

  lemma UnrepliedRest(cfg: Config, s: State, c: nat)
    requires Rest(cfg, s) && c in s.book.ctxs
    ensures s.book.ctxs[c].io !in s.book.replies
  {
    UnrepliedCtx(cfg, s, None, c);
    hide Inv;
  }

  lemma {:induction false} AbortCarries(cfg: Config, s: State)
    requires Rest(cfg, s)
    ensures Carries(s.book, AbortStalled(cfg, s).book)
    decreases |s.book.stalled|
  {
    CarriesSelf(s.book);
    hide Rest, Carries, Aborted;
    if s.book.stalled != [] {
      UnstallInv(cfg, s);
      AbortInv(cfg, s);
      AbortedCarries(cfg, s);
      var s1 := s.(book := Aborted(s.book));
      AbortCarries(cfg, s1);
      CarriesTrans(s.book, s1.book, AbortStalled(cfg, s1).book);
    }
  }

  /** No event takes anything back. */
  lemma StepCarries(cfg: Config, env: Env, s: State, e: Event)
    requires Rest(cfg, s) && EventOk(cfg, e)
    ensures Carries(s.book, IoPath.Step(cfg, env, s, e).book)
  {
    CarriesSelf(s.book);
    hide Rest, CmdOk, Accept, OnCqe, TickRetries, Repump, FlushFrom, AbortStalled, Carries, Entrusted;
    match e
    case Command(cmd) => AcceptTakes(cfg, env, s, cmd);
    case Cqe(raw, status) => CqeCarries(cfg, env, s, raw, status);
    case PassEnd(head) =>
    case Watchdog(now) =>
      RetryNoDup(cfg, s);
      hide Parked;
      TickWalkCarries(cfg, env, s, now, s.core.retryList);
    case FlushQueue => FlushCarries(cfg, env, s, 0);
    case RepumpOne => if s.book.stalled != [] { RepumpCarries(cfg, env, s); }
    case StopTask => AbortCarries(cfg, s);
    case SetLive(_) =>
  }

  // -------------------------------------------------------------------- runs

  /** Over any further run: replies, statuses and lost requests stay, jobs stay with
      their IOStdReqs, and a context's first error is the one it answers with. */
  lemma {:induction false} RunCarries(cfg: Config, env: Env, s: State, es: seq<Event>)
    requires EventsOk(cfg, es) && Rest(cfg, s)
    ensures Carries(s.book, IoPath.Run(cfg, env, s, es).book)
    decreases |es|
  {
    CarriesSelf(s.book);
    hide Rest, EventOk, Carries, IoPath.Step;
    if es != [] {
      var n := |es| - 1;
      RunCarries(cfg, env, s, es[..n]);
      var s1 := IoPath.Run(cfg, env, s, es[..n]);
      StepCarries(cfg, env, s1, es[n]);
      CarriesTrans(s.book, s1.book, IoPath.Step(cfg, env, s1, es[n]).book);
    }
  }

  lemma EntrustedStays(cfg: Config, b: Book, b': Book, io: nat, cmd: Cmd)
    requires Entrusted(cfg, b, io, cmd) && Carries(b, b')
    ensures Entrusted(cfg, b', io, cmd)
  {
    hide AskedFor, HasJob;
    if job :| AskedFor(cfg, cmd, job) && HasJob(b, io, job) {
      HasJobStays(b, b', io, job);
    }
  }

  ghost predicate AllEntrusted(cfg: Config, b: Book, cmds: seq<Cmd>) {
    forall io: nat :: io < |cmds| ==> Entrusted(cfg, b, io, cmds[io])
  }

  lemma AllStay(cfg: Config, b: Book, b': Book, cmds: seq<Cmd>)
    requires AllEntrusted(cfg, b, cmds) && Carries(b, b')
    ensures AllEntrusted(cfg, b', cmds)
  {
    hide Entrusted, Carries;
    forall io: nat | io < |cmds| ensures Entrusted(cfg, b', io, cmds[io]) { EntrustedStays(cfg, b, b', io, cmds[io]); }
  }

  lemma AllPush(cfg: Config, b: Book, cmds: seq<Cmd>, cmd: Cmd)
    requires AllEntrusted(cfg, b, cmds) && Entrusted(cfg, b, |cmds|, cmd)
    ensures AllEntrusted(cfg, b, cmds + [cmd])
  {
    hide Entrusted;
  }

  /** One event: the IOStdReqs stay entrusted, and a command's is. */
  lemma StepEntrusts(cfg: Config, env: Env, s: State, e: Event, cmds: seq<Cmd>)
    requires Rest(cfg, s) && EventOk(cfg, e) && |cmds| == s.book.nextIo && AllEntrusted(cfg, s.book, cmds)
    ensures AllEntrusted(cfg, IoPath.Step(cfg, env, s, e).book, cmds + if e.Command? then [e.cmd] else [])
  {
    hide Rest, Carries, Entrusted, IoPath.Step, Accept, AllEntrusted;
    var b := IoPath.Step(cfg, env, s, e).book;
    StepCarries(cfg, env, s, e);
    AllStay(cfg, s.book, b, cmds);
    if e.Command? {
      CommandStep(cfg, env, s, e);
      AcceptTakes(cfg, env, s, e.cmd);
      AllPush(cfg, b, cmds, e.cmd);
    } else {
      assert cmds + [] == cmds;
    }
  }

  lemma CommandStep(cfg: Config, env: Env, s: State, e: Event)
    requires Rest(cfg, s) && EventOk(cfg, e) && e.Command?
    ensures CmdOk(cfg, e.cmd) && IoPath.Step(cfg, env, s, e) == Accept(cfg, env, s, e.cmd)
  {
    hide Rest, CmdOk, Accept;
  }

  /** Every IOStdReq accepted in a run is refused, or held, lost or answered under
      the job its own command asked for. */
  lemma {:induction false} RunEntrusts(cfg: Config, env: Env, boot: Boot, es: seq<Event>)
    requires Runnable(cfg, boot, es)
    ensures AllEntrusted(cfg, After(cfg, env, boot, es).book, Commands(es))
    decreases |es|
  {
    hide Rest, EventOk, Entrusted, IoPath.Step, After;
    if es != [] {
      var n := |es| - 1;
      var e := es[n];
      assert es == es[..n] + [e];
      RunEntrusts(cfg, env, boot, es[..n]);
      AfterPush(cfg, env, boot, es[..n], e);
      CommandsPush(es[..n], e);
      hide Commands;
      StepEntrusts(cfg, env, After(cfg, env, boot, es[..n]), e, Commands(es[..n]));
    }
  }

  /** Whoever holds, lost or answered `io` has a job the command asks for. */
  ghost predicate JobsFit(cfg: Config, b: Book, io: nat, cmd: Cmd) {
    && (forall r :: r in b.parents && b.parents[r].Single? && b.parents[r].io == io ==>
          AskedFor(cfg, cmd, b.parents[r].job))
    && (forall r :: r in b.lost && b.lost[r].Single? && b.lost[r].io == io ==> AskedFor(cfg, cmd, b.lost[r].job))
    && (forall c :: c in b.ctxs && b.ctxs[c].io == io ==> AskedFor(cfg, cmd, b.ctxs[c].job))
    && (io in b.replies && b.replies[io].Outcome? ==> AskedFor(cfg, cmd, b.replies[io].job))
  }

  /** After every run the job behind every IOStdReq, held, lost or answered, is the
      one its own command asked for: a write stays a write, at its address, of its
      length, from its buffer. */
  lemma JobsAsAsked(cfg: Config, env: Env, boot: Boot, es: seq<Event>, io: nat)
    requires Runnable(cfg, boot, es) && io < |Commands(es)|
    ensures JobsFit(cfg, After(cfg, env, boot, es).book, io, Commands(es)[io])
  {
    hide Rest, EventsOk, Entrusted, After, Commands;
    RunEntrusts(cfg, env, boot, es);
    RestOwners(cfg, After(cfg, env, boot, es));
    EntrustedFits(cfg, After(cfg, env, boot, es).book, io, Commands(es)[io]);
  }

  lemma RestOwners(cfg: Config, s: State)
    requires Rest(cfg, s)
    ensures OwnersOk(s.book, None)
  {
  }

  lemma EntrustedFits(cfg: Config, b: Book, io: nat, cmd: Cmd)
    requires OwnersOk(b, None) && Entrusted(cfg, b, io, cmd)
    ensures JobsFit(cfg, b, io, cmd)
  {
    hide AskedFor;
    if job :| AskedFor(cfg, cmd, job) && HasJob(b, io, job) {
      OneJob(b, io, job);
      hide OwnersOk, HasJob;
    } else {
      hide HasJob;
    }
  }

  /** An IOStdReq is held, lost or answered under one job. */
  lemma OneJob(b: Book, io: nat, job: Job)
    requires OwnersOk(b, None) && HasJob(b, io, job)
    ensures forall r :: r in b.parents && b.parents[r].Single? && b.parents[r].io == io ==> b.parents[r].job == job
    ensures forall r :: r in b.lost && b.lost[r].Single? && b.lost[r].io == io ==> b.lost[r].job == job
    ensures forall c :: c in b.ctxs && b.ctxs[c].io == io ==> b.ctxs[c].job == job
    ensures io in b.replies && b.replies[io].Outcome? ==> b.replies[io].job == job
  {
    hide OwnerMatches;
  }

  /** The command on the ring for chunk `t` of a read or write: the direction asked
      for, the block the chunk starts at, its bytes, and where in the client's
      buffer they lie. */
  ghost predicate SentFor(w: map<nat, Entry>, cmd: Cmd, t: Tile)
    requires cmd.RwCmd?
  {
    && t.req in w
    && var q := w[t.req].sqe;
    && (q.op.Write? <==> cmd.write) && (q.op.Read? <==> !cmd.write) && q.shift == cmd.unit.shift
    && q.slba == cmd.lba + t.off / BlockSize(cmd.unit.shift) && q.bytes == t.len && q.at == t.off
  }

  /** A read or write answered with io_Error 0: commands in the direction asked for
      went to the ring, they cover the blocks asked for end to end, each for its part
      of the client's buffer, and each last completed with SCT and SC zero. */
  lemma Acknowledged(cfg: Config, env: Env, boot: Boot, es: seq<Event>, io: nat)
    requires Runnable(cfg, boot, es) && io < |Commands(es)| && Commands(es)[io].RwCmd?
    ensures var s := After(cfg, env, boot, es);
            var cmd := Commands(es)[io];
            io in s.book.replies && s.book.replies[io].err == 0 ==>
              && s.book.replies[io].Outcome?
              && var tiles := s.book.replies[io].tiles;
              && EndToEnd(s.book.replies[io].job, tiles) && s.book.replies[io].job.lba == cmd.lba
              && End(tiles) == cmd.blocks * BlockSize(cmd.unit.shift)
              && forall t :: t in tiles ==>
                   SentFor(s.core.wire, cmd, t) && t.req in s.book.done && s.book.done[t.req] % 0x800 == 0
  {
    var s := After(cfg, env, boot, es);
    var cmd := Commands(es)[io];
    hide Rest, EventsOk, After, Commands, EndToEnd, GoodChunk, JobsFit;
    if io in s.book.replies && s.book.replies[io].err == 0 {
      CleanReply(cfg, env, boot, es, io);
      JobsAsAsked(cfg, env, boot, es, io);
      ReplyTiles(cfg, s, io, cmd);
    }
  }

  lemma ReplyTiles(cfg: Config, s: State, io: nat, cmd: Cmd)
    requires Rest(cfg, s) && cmd.RwCmd? && JobsFit(cfg, s.book, io, cmd)
    requires io in s.book.replies && s.book.replies[io].Outcome? && s.book.replies[io].err == 0
    requires var y := s.book.replies[io];
             && (forall t :: t in y.tiles ==> t.req in s.book.done && SctSc(s.book.done[t.req]) == 0)
             && (forall t :: t in y.tiles ==> Wired(s.core.wire, y.job, t))
             && (IsData(y.job.op) ==> Tiling(cfg.limits, y.job, y.tiles) && End(y.tiles) == y.job.total)
    ensures var y := s.book.replies[io];
            && EndToEnd(y.job, y.tiles) && y.job.lba == cmd.lba
            && End(y.tiles) == cmd.blocks * BlockSize(cmd.unit.shift)
            && forall t :: t in y.tiles ==>
                 SentFor(s.core.wire, cmd, t) && t.req in s.book.done && s.book.done[t.req] % 0x800 == 0
  {
    var y := s.book.replies[io];
    assert AskedFor(cfg, cmd, y.job);
    assert ReplyOk(cfg.limits, s.book.done, y);
    assert JobOk(cfg.limits, y.job);
    hide Rest, JobsFit, JobOk, ReplyOk, Tiling, EndToEnd;
    TilingGood(cfg.limits, y.job, y.tiles);
    forall t | t in y.tiles ensures SentFor(s.core.wire, cmd, t) && s.book.done[t.req] % 0x800 == 0 {
      assert GoodChunk(cfg.limits, y.job, t);
    }
  }
}
