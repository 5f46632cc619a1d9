/** Runs step by step, on a queue of any depth: flushes until the ring is full and
    a retry that is lost, a flush that a shutdown forgets, and a read that reports
    more than it moved. */
module IoRuns {
  import opened Base
  import opened Tags
  import opened Chunk
  import opened IoCore
  import opened IoBook
  import opened IoPath
  import opened IoFlush
  import opened IoLost
  import opened IoStop
  import opened IoTheorems

  /** A controller without quirks; `depth - 1` commands may be in flight and a
      retry delay is one second. */
  function QueueConfig(depth: nat): Config
    requires depth >= 2
  {
    Config(Limits(8 * 1024 * 1024, false, U32 - 1), depth - 1, [10, 10, 10], 0, false)
  }

  const disk: Unit := Unit(9, 0, 0)

  // ---------------------------------------------------- one command goes out

  /** A command that needs no memory but the request: a flush, or a read within
      one page that DMA can reach. */
  ghost predicate Light(env: Env, clock: nat, sqe: Sqe, off: nat) {
    sqe.op.Flush? || (sqe.op.Read? && !env.bounce(clock) && sqe.bytes <= PAGE - off % PAGE)
  }

  /** What the next request changes in the transport. */
  ghost predicate OneMore(k: Core, k': Core) {
    var r := k.nextReq;
    && Shape(k.pool) && k'.pool == Take(k.pool, r).0
    && k'.nextReq == r + 1 && r in k'.reqs && k'.reqs[r].retries == 0 && !k'.reqs[r].cancelled
    && k'.retryList == k.retryList && Spares(k.reqs, k'.reqs, r) && Depth(k) > 0
    && k'.sqUp == k.sqUp && k'.cqHead == k.cqHead && k'.sqTail == (k.sqTail + 1) % Depth(k)
  }

  lemma SetupLight(env: Env, k: Core, r: nat, sqe: Sqe, off: nat)
    requires r in k.reqs && Light(env, k.clock, sqe, off)
    ensures var (k', err) := Setup(env, k, r, sqe.op, sqe.bytes, off);
            && err == 0 && r in k'.reqs
            && k' == k.(clock := k'.clock, mem := k'.mem, reqs := k.reqs[r := k'.reqs[r]])
            && k'.reqs[r].retries == k.reqs[r].retries && k'.reqs[r].cancelled == k.reqs[r].cancelled
            && (sqe.op.Flush? ==> k'.clock == k.clock)
  {
    assert k.reqs[r := k.reqs[r]] == k.reqs;
  }

  lemma CommandSent(env: Env, k: Core, sqe: Sqe, off: nat)
    requires CoreOk(k, None, {}) && Sendable(sqe, off) && Light(env, k.clock + 1, sqe, off)
    requires env.grant(k.clock) && |k.pool.free| > 0 && !RingRefuses(k)
    ensures var (k', turn) := TryCommand(env, k, true, sqe, off);
            turn == Sent && OneMore(k, k') && (sqe.op.Flush? ==> k'.clock == k.clock + 1)
  {
    CoreShape(k);
    AllocIoAllocated(env, k, {});
    var g := AllocIo(env, k);
    var k1 := SetSqe(g.k, g.r, sqe);
    SetupLight(env, k1, g.r, sqe, off);
    hide CoreOk, Spent, Sendable, Destroy, Light, Take;
    assert TryCommand(env, k, true, sqe, off).1 == Sent;
    LaunchedSpares(k, TryCommand(env, k, true, sqe, off).0, sqe);
    hide Launched;
  }

  lemma LaunchedSpares(k: Core, k': Core, sqe: Sqe)
    requires Launched(k, k', sqe)
    ensures Spares(k.reqs, k'.reqs, k.nextReq) && k'.retryList == k.retryList
  {
    hide CoreOk;
  }

  /** A single-shot command the ring takes, as seen from outside. */
  lemma SingleOut(cfg: Config, env: Env, s: State, io: nat, job: Job)
    requires Dispatching(cfg, s, io) && OneShot(cfg, job) && CoreOk(s.core, None, {})
    requires Sendable(SqeOf(job, Tile(s.core.nextReq, 0, job.total, job.lba)), job.bufOff)
    requires TryCommand(env, s.core, s.live, SqeOf(job, Tile(s.core.nextReq, 0, job.total, job.lba)), job.bufOff).1
             == Sent
    ensures var r := s.core.nextReq;
            var t := Tile(r, 0, job.total, job.lba);
            var (s', rc) := SingleShot(cfg, env, s, io, job);
            && rc == ASYNC && s'.core == TryCommand(env, s.core, s.live, SqeOf(job, t), job.bufOff).0
            && s'.book == AddSingle(s.book, r, Single(io, job, t)) && s'.live == s.live
  {
    hide Dispatching, CoreOk, OneShot, TryCommand, Sendable, Dispatched, Launched;
  }

  /** Dispatch of `cmd` as IOStdReq `io` takes the single-shot path with this job. */
  ghost predicate Singly(cfg: Config, env: Env, s: State, cmd: Cmd, job: Job) {
    var s0 := s.(book := Arrive(s.book));
    && CmdOk(cfg, cmd) && Dispatching(cfg, s0, s.book.nextIo) && OneShot(cfg, job) && CoreOk(s0.core, None, {})
    && SubmitCmd(cfg, env, s0, s.book.nextIo, cmd) == SingleShot(cfg, env, s0, s.book.nextIo, job)
  }

  /** An accepted command that goes out single-shot. */
  lemma AcceptedSingly(cfg: Config, env: Env, s: State, cmd: Cmd, job: Job)
    requires Rest(cfg, s) && s.live && Singly(cfg, env, s, cmd, job)
    requires var sqe := SqeOf(job, Tile(s.core.nextReq, 0, job.total, job.lba));
             Sendable(sqe, job.bufOff) && Light(env, s.core.clock + 1, sqe, job.bufOff)
    requires env.grant(s.core.clock) && |s.core.pool.free| > 0 && !RingRefuses(s.core) && CmdOk(cfg, cmd)
    ensures var r := s.core.nextReq;
            var s' := Accept(cfg, env, s, cmd);
            && OneMore(s.core, s'.core) && (job.op.Flush? ==> s'.core.clock == s.core.clock + 1) && s'.live
            && s'.book == AddSingle(Arrive(s.book), r, Single(s.book.nextIo, job, Tile(r, 0, job.total, job.lba)))
  {
    hide Rest, CmdOk, CoreOk, TryCommand, Dispatching, OneShot, SubmitCmd, SingleShot, Sendable, Light, OneMore;
    var s0 := s.(book := Arrive(s.book));
    CommandSent(env, s.core, SqeOf(job, Tile(s.core.nextReq, 0, job.total, job.lba)), job.bufOff);
    SingleOut(cfg, env, s0, s.book.nextIo, job);
  }

  // ------------------------------------------------------------------ flushes

  const flush: Cmd := FlushCmd(disk, 0)

  function FlushJob(): Job { Job(disk, Flush, 0, 0, 0, 0, false) }

  lemma FlushReady(depth: nat, r: nat)
    requires depth >= 2
    ensures CmdOk(QueueConfig(depth), flush) && OneShot(QueueConfig(depth), FlushJob())
    ensures Sendable(SqeOf(FlushJob(), Tile(r, 0, 0, 0)), 0) && SqeOf(FlushJob(), Tile(r, 0, 0, 0)).op.Flush?
  {
  }

  lemma FlushSingly(depth: nat, env: Env, s: State)
    requires depth >= 2 && Rest(QueueConfig(depth), s)
    ensures Singly(QueueConfig(depth), env, s, flush, FlushJob())
  {
    var cfg := QueueConfig(depth);
    FlushReady(depth, 0);
    hide Rest, CoreOk, Inv, SingleShot, CmdOk, OneShot, SubmitRw, SubmitZeroes, SubmitTrim;
    ArriveInv(cfg, s);
    DispatchingCore(cfg, s.(book := Arrive(s.book)), s.book.nextIo);
    hide Dispatching;
  }

  /** `n` flushes are out on a fresh queue: request, IOStdReq and tag `i` belong
      together, and tags are handed out from 0 up. */
  ghost predicate Flooded(s: State, depth: nat, n: nat) {
    && n < depth && s.live && FloodedCore(s.core, depth, n) && FloodedBook(s.book, n)
  }

  ghost predicate FloodedPool(p: Pool, depth: nat, n: nat) {
    && n < depth == |p.table| && |p.free| == depth - n && p.count == n
    && (forall t :: 0 <= t < depth ==> p.table[t] == if t < n then Busy(t, Cid(0, t)) else Empty)
    && (forall i :: 0 <= i < depth - n ==> p.free[i] == Cid(0, depth - 1 - i))
  }

  ghost predicate FloodedCore(k: Core, depth: nat, n: nat) {
    && n < depth == Depth(k)
    && FloodedPool(k.pool, depth, n)
    && (forall r: nat :: r < n ==> r in k.reqs && k.reqs[r].retries == 0 && !k.reqs[r].cancelled)
    && k.retryList == []
    && k.nextReq == k.clock == k.sqTail == n && k.cqHead == 0 && k.sqUp
  }

  ghost predicate FloodedBook(b: Book, n: nat) {
    && (forall r: nat :: r in b.parents <==> r < n)
    && (forall r: nat :: r < n ==> b.parents[r] == Single(r, FlushJob(), Tile(r, 0, 0, 0)))
    && b.nextIo == n && b.lost == map[] && b.replies == map[]
  }

  lemma FloodStart(depth: nat, skipGen: bool)
    requires depth >= 2
    ensures Flooded(Start(depth, skipGen, true), depth, 0)
  {
  }

  lemma FloodTake(p: Pool, depth: nat, n: nat)
    requires Shape(p) && FloodedPool(p, depth, n) && n + 1 < depth
    ensures FloodedPool(Take(p, n).0, depth, n + 1)
  {
    assert p.free[depth - n - 1] == Cid(0, n);
  }

  /** One tag and one slot more. */
  lemma FloodTag(k: Core, k': Core, depth: nat, n: nat)
    requires FloodedCore(k, depth, n) && n + 1 < depth && OneMore(k, k') && k'.clock == n + 1
    ensures FloodedCore(k', depth, n + 1)
  {
    FloodTake(k.pool, depth, n);
    assert Depth(k) == depth == |Take(k.pool, n).0.table|;
    assert (n + 1) % depth == n + 1;
    hide FloodedPool, Take, Shape;
  }

  lemma FloodRoom(k: Core, depth: nat, n: nat)
    requires FloodedCore(k, depth, n)
    ensures |k.pool.free| == depth - n && (RingRefuses(k) <==> n == depth - 1)
  {
    if n + 1 < depth { assert (n + 1) % depth == n + 1; }
  }

  lemma FloodBook(b: Book, n: nat)
    requires FloodedBook(b, n)
    ensures FloodedBook(AddSingle(Arrive(b), n, Single(n, FlushJob(), Tile(n, 0, 0, 0))), n + 1)
  {
  }

  lemma FloodStep(depth: nat, env: Env, s: State, n: nat)
    requires Flooded(s, depth, n) && n + 1 < depth && env.grant(n) && Rest(QueueConfig(depth), s)
    ensures CmdOk(QueueConfig(depth), flush) && Flooded(Accept(QueueConfig(depth), env, s, flush), depth, n + 1)
  {
    var cfg := QueueConfig(depth);
    FlushReady(depth, s.core.nextReq);
    FloodRoom(s.core, depth, n);
    FlushSingly(depth, env, s);
    hide Rest, Singly, Accept, RingRefuses, CmdOk, OneShot, Sendable, OneMore, AddSingle;
    AcceptedSingly(cfg, env, s, flush, FlushJob());
    hide FloodedCore;
    FloodBook(s.book, n);
    hide FloodedBook, Arrive;
    FloodTag(s.core, Accept(cfg, env, s, flush).core, depth, n);
  }

  function Flushes(n: nat): seq<Event> {
    if n == 0 then [] else Flushes(n - 1) + [Command(flush)]
  }

  lemma CommandPush(cfg: Config, env: Env, boot: Boot, es: seq<Event>, cmd: Cmd)
    requires Runnable(cfg, boot, es) && CmdOk(cfg, cmd)
    ensures Runnable(cfg, boot, es + [Command(cmd)])
    ensures After(cfg, env, boot, es + [Command(cmd)]) == Accept(cfg, env, After(cfg, env, boot, es), cmd)
  {
    hide Rest, CmdOk, Accept, After, Runnable;
    AfterPush(cfg, env, boot, es, Command(cmd));
  }

  lemma CqePush(cfg: Config, env: Env, boot: Boot, es: seq<Event>, raw: Cid, status: nat)
    requires Runnable(cfg, boot, es)
    ensures Runnable(cfg, boot, es + [Cqe(raw, status)])
    ensures After(cfg, env, boot, es + [Cqe(raw, status)]) == OnCqe(cfg, env, After(cfg, env, boot, es), raw, status)
  {
    hide Rest, OnCqe, After, Runnable;
    AfterPush(cfg, env, boot, es, Cqe(raw, status));
  }

  lemma NoEvents(cfg: Config, env: Env, boot: Boot)
    requires CfgOk(cfg) && 0 < boot.depth <= 256
    ensures Runnable(cfg, boot, []) && After(cfg, env, boot, []) == Start(boot.depth, boot.skipGen, boot.live)
  {
    hide Rest;
  }

  /** The run of `n` flushes; each but the last leaves the queue below its
      in-flight ceiling. */
  ghost predicate FloodsRun(depth: nat, skipGen: bool, env: Env, n: nat)
    requires 2 <= depth <= 256
  {
    && Runnable(QueueConfig(depth), Boot(depth, skipGen, true), Flushes(n))
    && Flooded(After(QueueConfig(depth), env, Boot(depth, skipGen, true), Flushes(n)), depth, n)
  }

  lemma FloodNext(depth: nat, skipGen: bool, env: Env, n: nat)
    requires 2 <= depth <= 256 && n + 1 < depth && env.grant(n) && FloodsRun(depth, skipGen, env, n)
    ensures FloodsRun(depth, skipGen, env, n + 1)
  {
    var cfg, boot := QueueConfig(depth), Boot(depth, skipGen, true);
    assert Flushes(n + 1) == Flushes(n) + [Command(flush)];
    hide Flooded, Rest, CmdOk, After, EventsOk, Runnable, QueueConfig, Flushes;
    FlushReady(depth, 0);
    hide OneShot, Sendable;
    CommandPush(cfg, env, boot, Flushes(n), flush);
    FloodStep(depth, env, After(cfg, env, boot, Flushes(n)), n);
  }

  lemma FloodFirst(depth: nat, skipGen: bool, env: Env)
    requires 2 <= depth <= 256
    ensures FloodsRun(depth, skipGen, env, 0)
  {
    hide Flooded, Rest, CmdOk, After, EventsOk;
    NoEvents(QueueConfig(depth), env, Boot(depth, skipGen, true));
    FloodStart(depth, skipGen);
  }

  /** The first `n` allocations succeed. */
  ghost predicate Grants(env: Env, n: nat) { forall i: nat :: i < n ==> env.grant(i) }

  lemma {:induction false} FloodRun(depth: nat, skipGen: bool, env: Env, n: nat)
    requires 2 <= depth <= 256 && n < depth && Grants(env, n)
    ensures FloodsRun(depth, skipGen, env, n)
  {
    hide FloodsRun;
    if n == 0 {
      FloodFirst(depth, skipGen, env);
    } else {
      FloodRun(depth, skipGen, env, n - 1);
      FloodNext(depth, skipGen, env, n - 1);
    }
  }

  /** Request `i` is matched by its CID; 0x281 (unrecovered read error) is to be
      retried, at once as it stands and after a delay with CRD 1. */
  lemma FloodMatch(k: Core, depth: nat, n: nat, i: nat)
    requires FloodedCore(k, depth, n) && i < n
    ensures Lookup(k.pool, Cid(0, i)) == Some(i) && i in k.reqs
    ensures RetryWorthy(k.reqs[i].(status := 0x281)) && Crd(0x281) == 0
    ensures RetryWorthy(k.reqs[i].(status := 0xA81)) && Crd(0xA81) == 1
  {
  }

  // ------------------------------------------------------------ a lost flush

  /** The completion of flush `i` on a full ring. */
  lemma FloodLoses(depth: nat, env: Env, s: State, i: nat)
    requires depth >= 2 && Flooded(s, depth, depth - 1) && i < depth - 1 && Rest(QueueConfig(depth), s)
    ensures i in OnCqe(QueueConfig(depth), env, s, Cid(0, i), 0x281).book.lost
    ensures OnCqe(QueueConfig(depth), env, s, Cid(0, i), 0x281).book.lost[i].Single?
    ensures OnCqe(QueueConfig(depth), env, s, Cid(0, i), 0x281).book.lost[i].io == i
  {
    FloodMatch(s.core, depth, depth - 1, i);
    FloodRoom(s.core, depth, depth - 1);
    hide Rest, OnCqe, RetryWorthy, RingRefuses, Crd, Lookup;
    OnCqeLoses(QueueConfig(depth), env, s, Cid(0, i), 0x281, i);
  }

  /** The run in which flush `i` of a full ring is lost. */
  ghost predicate FloodLost(depth: nat, skipGen: bool, env: Env, i: nat)
    requires 2 <= depth <= 256
  {
    && var es := Flushes(depth - 1) + [Cqe(Cid(0, i), 0x281)];
    && Runnable(QueueConfig(depth), Boot(depth, skipGen, true), es)
    && var b := After(QueueConfig(depth), env, Boot(depth, skipGen, true), es).book;
    i in b.lost && b.lost[i].Single? && b.lost[i].io == i
  }

  lemma FullRingLoses(depth: nat, skipGen: bool, env: Env, i: nat)
    requires 2 <= depth <= 256 && i < depth - 1 && FloodsRun(depth, skipGen, env, depth - 1)
    ensures FloodLost(depth, skipGen, env, i)
  {
    var cfg, boot := QueueConfig(depth), Boot(depth, skipGen, true);
    hide Grants, Rest, EventsOk, Flooded, OnCqe, After, Runnable, QueueConfig, Flushes;
    CqePush(cfg, env, boot, Flushes(depth - 1), Cid(0, i), 0x281);
    FloodLoses(depth, env, After(cfg, env, boot, Flushes(depth - 1)), i);
  }

  /** On a queue of any depth: as many flushes as the ring takes, then the
      completion of any one of them with a transient media error before the drain
      pass publishes its head.  The retry finds the ring full, and that flush is
      never answered, whatever follows. */
  lemma LostFlush(depth: nat, skipGen: bool, env: Env, i: nat, later: seq<Event>)
    requires 2 <= depth <= 256 && i < depth - 1 && Grants(env, depth - 1)
    requires EventsOk(QueueConfig(depth), later)
    ensures var cfg, boot := QueueConfig(depth), Boot(depth, skipGen, true);
            var es := Flushes(depth - 1) + [Cqe(Cid(0, i), 0x281)];
            && Runnable(cfg, boot, es)
            && var s := After(cfg, env, boot, es);
            && i in s.book.lost
            && var b := IoPath.Run(cfg, env, s, later).book;
            i in b.lost && i < b.nextIo && multiset(b.replyLog)[i] == 0
  {
    hide FloodsRun;
    FloodRun(depth, skipGen, env, depth - 1);
    FullRingLoses(depth, skipGen, env, i);
    hide Grants, Rest, EventsOk, After, Runnable, QueueConfig, Flushes, IoPath.Run;
    var es := Flushes(depth - 1) + [Cqe(Cid(0, i), 0x281)];
    LostUnanswered(QueueConfig(depth), env, After(QueueConfig(depth), env, Boot(depth, skipGen, true), es),
                   later, i, i);
  }

  /** A lost single-shot request's IOStdReq was accepted and stays unanswered. */
  lemma LostUnanswered(cfg: Config, env: Env, s: State, later: seq<Event>, r: nat, io: nat)
    requires EventsOk(cfg, later) && Rest(cfg, s)
    requires r in s.book.lost && s.book.lost[r].Single? && s.book.lost[r].io == io
    ensures var b := IoPath.Run(cfg, env, s, later).book;
            r in b.lost && io < b.nextIo && multiset(b.replyLog)[io] == 0
  {
    assert OwnersOk(s.book, None);
    hide Rest, EventsOk, BookOk;
    LostForGood(cfg, env, s, later, r);
  }

  // -------------------------------------- a flush that the shutdown forgets

  /** The completion of flush `i` with a retry delay. */
  lemma FloodParks(depth: nat, env: Env, s: State, n: nat, i: nat)
    requires depth >= 2 && Flooded(s, depth, n) && i < n && Rest(QueueConfig(depth), s)
    ensures OnCqe(QueueConfig(depth), env, s, Cid(0, i), 0xA81).book == s.book
    ensures OnCqe(QueueConfig(depth), env, s, Cid(0, i), 0xA81).core.retryList == [i]
  {
    FloodMatch(s.core, depth, n, i);
    hide Rest, OnCqe, RetryWorthy, RingRefuses, Crd, Lookup;
    OnCqeParks(QueueConfig(depth), env, s, Cid(0, i), 0xA81, i);
  }

  /** Nobody but its own request works for a flush. */
  lemma FloodServes(b: Book, n: nat, i: nat, j: nat)
    requires FloodedBook(b, n) && i < n && j < n
    ensures (exists r :: (r in [i] || r in b.lost) && Serves(b, r, j)) <==> i == j
  {
    if i == j { assert i in [i] && Serves(b, i, j); }
  }

  /** Any number of flushes, one of them completed with a retry delay, and then
      the shutdown: flush and task exit.  Every other flush is answered with an
      error, and that one never. */
  lemma ForgottenFlush(depth: nat, skipGen: bool, env: Env, n: nat, i: nat)
    requires 2 <= depth <= 256 && i < n < depth && Grants(env, n)
    ensures var cfg, boot := QueueConfig(depth), Boot(depth, skipGen, true);
            var es := Flushes(n) + [Cqe(Cid(0, i), 0xA81)] + [FlushQueue] + [StopTask];
            && Runnable(cfg, boot, es)
            && var b := After(cfg, env, boot, es).book;
            && multiset(b.replyLog)[i] == 0 && b.lost == map[]
            && forall j: nat :: j < n && j != i ==> multiset(b.replyLog)[j] == 1 && FailedIo(b, j)
  {
    hide FloodsRun, Grants, Rest, After, Runnable, QueueConfig, Flushes, FloodedBook, FlushFrom, AbortStalled;
    FloodRun(depth, skipGen, env, n);
    var s := ParkedRun(depth, skipGen, env, n, i);
    ShutdownPush(QueueConfig(depth), env, Boot(depth, skipGen, true), Flushes(n) + [Cqe(Cid(0, i), 0xA81)]);
    ParkedShutdown(QueueConfig(depth), env, s, n, i);
  }

  lemma ParkedRun(depth: nat, skipGen: bool, env: Env, n: nat, i: nat) returns (s: State)
    requires 2 <= depth <= 256 && i < n < depth && FloodsRun(depth, skipGen, env, n)
    ensures var cfg, boot := QueueConfig(depth), Boot(depth, skipGen, true);
            && Rest(cfg, s) && FloodedBook(s.book, n) && s.core.retryList == [i]
            && Runnable(cfg, boot, Flushes(n) + [Cqe(Cid(0, i), 0xA81)])
            && s == After(cfg, env, boot, Flushes(n) + [Cqe(Cid(0, i), 0xA81)])
  {
    var cfg, boot := QueueConfig(depth), Boot(depth, skipGen, true);
    hide Rest, EventsOk, OnCqe, After, Runnable, QueueConfig, Flushes, FloodedBook, FloodedCore;
    CqePush(cfg, env, boot, Flushes(n), Cid(0, i), 0xA81);
    FloodParks(depth, env, After(cfg, env, boot, Flushes(n)), n, i);
    s := After(cfg, env, boot, Flushes(n) + [Cqe(Cid(0, i), 0xA81)]);
  }

  lemma ShutdownPush(cfg: Config, env: Env, boot: Boot, es: seq<Event>)
    requires Runnable(cfg, boot, es)
    ensures Runnable(cfg, boot, es + [FlushQueue] + [StopTask])
    ensures After(cfg, env, boot, es + [FlushQueue] + [StopTask])
            == AbortStalled(cfg, FlushFrom(cfg, env, After(cfg, env, boot, es), 0))
  {
    hide Rest, FlushFrom, AbortStalled, After, Runnable;
    AfterPush(cfg, env, boot, es, FlushQueue);
    AfterPush(cfg, env, boot, es + [FlushQueue], StopTask);
  }

  /** The shutdown with flush `i` parked. */
  lemma ParkedShutdown(cfg: Config, env: Env, s: State, n: nat, i: nat)
    requires Rest(cfg, s) && FloodedBook(s.book, n) && s.core.retryList == [i] && i < n
    ensures var b := AbortStalled(cfg, FlushFrom(cfg, env, s, 0)).book;
            && multiset(b.replyLog)[i] == 0 && b.lost == map[]
            && forall j: nat :: j < n && j != i ==> multiset(b.replyLog)[j] == 1 && FailedIo(b, j)
  {
    FlushFromDoes(cfg, env, s, 0);
    FlushedFrame(s, FlushFrom(cfg, env, s, 0));
    hide Rest, FlushFrom, AbortStalled, FailedIo, Serves, Flushed;
    var b := AbortStalled(cfg, FlushFrom(cfg, env, s, 0)).book;
    forall j: nat | j < n
      ensures if i == j then multiset(b.replyLog)[j] == 0 else multiset(b.replyLog)[j] == 1 && FailedIo(b, j)
    {
      FloodServes(s.book, n, i, j);
      ShutdownLeaves(cfg, env, s, j);
    }
  }

  // --------------------------------------------------- a read that over-reports

  /** 513 bytes asked of 512-byte blocks. */
  const oddRead: Cmd := RwCmd(disk, false, 0, 1, false, 0, 513, true)

  function OddJob(): Job { Job(disk, Read, 0, 512, 0, 513, true) }

  lemma OddOneShot(depth: nat)
    requires depth >= 2
    ensures CmdOk(QueueConfig(depth), oddRead) && OneShot(QueueConfig(depth), OddJob())
    ensures Sendable(SqeOf(OddJob(), Tile(0, 0, 512, 0)), 0)
    ensures RwCap(QueueConfig(depth).limits, 9, 0) == 8 * 1024 * 1024
  {
  }

  /** Up to clock `n` every buffer asked about is within reach of DMA. */
  ghost predicate Reaches(env: Env, n: nat) { forall i: nat :: i <= n ==> !env.bounce(i) }

  lemma OddLight(env: Env, clock: nat)
    requires Grants(env, 1) && Reaches(env, 1) && clock < 1
    ensures env.grant(clock) && Light(env, clock + 1, SqeOf(OddJob(), Tile(clock, 0, 512, 0)), 0)
  {
  }

  /** A read within the cap takes the single-shot path. */
  lemma ReadSingly(cfg: Config, env: Env, s: State, io: nat, cmd: Cmd, job: Job)
    requires cmd.RwCmd? && !cmd.write && !cmd.nullBuf && !OutOfRange(cmd.unit, cmd.lba, cmd.blocks)
    requires job == Job(cmd.unit, Read, cmd.lba, cmd.blocks * BlockSize(cmd.unit.shift) % U32, cmd.bufOff, cmd.length,
                        cmd.trackdisk)
    requires 0 < job.total <= RwCap(cfg.limits, cmd.unit.shift, cmd.lba)
    requires CmdOk(cfg, cmd) && OneShot(cfg, job) && CoreOk(s.core, None, {}) && Dispatching(cfg, s, io)
    ensures SubmitCmd(cfg, env, s, io, cmd) == SingleShot(cfg, env, s, io, job)
  {
    hide CmdOk, OneShot, CoreOk, Dispatching, Dispatched, SingleShot, MultiShot, RwCap, OutOfRange, JobOk;
  }

  lemma OddSingly(depth: nat, env: Env, s: State)
    requires depth >= 2 && Rest(QueueConfig(depth), s)
    ensures Singly(QueueConfig(depth), env, s, oddRead, OddJob())
  {
    var cfg := QueueConfig(depth);
    OddOneShot(depth);
    hide Rest, CoreOk, Inv, SingleShot, CmdOk, OneShot, RwCap, SubmitCmd;
    ArriveInv(cfg, s);
    var s0 := s.(book := Arrive(s.book));
    DispatchingCore(cfg, s0, s.book.nextIo);
    hide Dispatching;
    ReadSingly(cfg, env, s0, s.book.nextIo, oddRead, OddJob());
  }

  /** A single-shot command, first on a fresh queue. */
  lemma FirstSent(depth: nat, env: Env, s: State, cmd: Cmd, job: Job)
    requires depth >= 2 && Flooded(s, depth, 0) && env.grant(s.core.clock) && Rest(QueueConfig(depth), s)
    requires CmdOk(QueueConfig(depth), cmd) && Singly(QueueConfig(depth), env, s, cmd, job)
    requires var sqe := SqeOf(job, Tile(s.core.nextReq, 0, job.total, job.lba));
             Sendable(sqe, job.bufOff) && Light(env, s.core.clock + 1, sqe, job.bufOff)
    ensures var s' := Accept(QueueConfig(depth), env, s, cmd);
            && Lookup(s'.core.pool, Cid(0, 0)) == Some(0)
            && 0 in s'.book.parents && s'.book.parents[0] == Single(0, job, Tile(0, 0, job.total, job.lba))
  {
    FreshQueue(s, depth);
    hide *;
    AcceptedSingly(QueueConfig(depth), env, s, cmd, job);
    FirstTag(s.core, Accept(QueueConfig(depth), env, s, cmd).core, depth);
    AddedSingle(Arrive(s.book), 0, Single(0, job, Tile(0, 0, job.total, job.lba)));
  }

  lemma OddSent(depth: nat, env: Env, s: State)
    requires depth >= 2 && Flooded(s, depth, 0) && Grants(env, 1) && Reaches(env, 1) && Rest(QueueConfig(depth), s)
    ensures CmdOk(QueueConfig(depth), oddRead)
    ensures var s' := Accept(QueueConfig(depth), env, s, oddRead);
            && Lookup(s'.core.pool, Cid(0, 0)) == Some(0)
            && 0 in s'.book.parents && s'.book.parents[0] == Single(0, OddJob(), Tile(0, 0, 512, 0))
  {
    OddOneShot(depth);
    FreshQueue(s, depth);
    OddLight(env, s.core.clock);
    hide Grants, Reaches;
    OddSingly(depth, env, s);
    hide Rest, Singly, Accept, CmdOk, OneShot, Sendable, RwCap, Light, Flooded, QueueConfig, Lookup;
    FirstSent(depth, env, s, oddRead, OddJob());
  }

  lemma FreshQueue(s: State, depth: nat)
    requires Flooded(s, depth, 0) && depth >= 2
    ensures s.live && s.core.nextReq == s.core.clock == s.book.nextIo == 0
    ensures |s.core.pool.free| > 0 && !RingRefuses(s.core) && FloodedCore(s.core, depth, 0)
  {
    FloodRoom(s.core, depth, 0);
  }

  lemma FirstTag(k: Core, k': Core, depth: nat)
    requires FloodedCore(k, depth, 0) && depth >= 2 && OneMore(k, k')
    ensures Lookup(k'.pool, Cid(0, 0)) == Some(0)
  {
    FloodTake(k.pool, depth, 0);
    hide Take;
  }

  lemma AddedSingle(b: Book, r: nat, p: Parent)
    requires p.Single?
    ensures r in AddSingle(b, r, p).parents && AddSingle(b, r, p).parents[r] == p
  {
  }

  /** A clean completion of a single-shot request answers it. */
  lemma CleanEnd(cfg: Config, env: Env, s: State, raw: Cid, r: nat)
    requires Lookup(s.core.pool, raw) == Some(r) && r in s.book.parents && s.book.parents[r].Single? && Rest(cfg, s)
    ensures OnCqe(cfg, env, s, raw, 0).book == EndSingle(s.book, r, 0)
  {
    hide Rest, Handling, EndSingle;
    var s2 := OnCqeHits(cfg, env, s, raw, 0, r);
    hide OnCqe, Lookup;
    EndsClean(cfg, env, s2, r);
  }

  lemma EndsClean(cfg: Config, env: Env, s: State, r: nat)
    requires r in s.core.reqs && s.core.reqs[r].status == 0 && r in s.book.parents && s.book.parents[r].Single?
    requires Handling(cfg, s, r)
    ensures Complete(cfg, env, s, r).book == EndSingle(s.book, r, 0)
  {
    hide BookOk, CoreOk, WireOk, SibsCapped, IdsOk, EndSingle, Retire;
    assert Inv(cfg, s, Some(r), None, None, {});
    hide Handling, Inv;
  }

  /** The 513-byte read moves one block and is answered with io_Actual 513. */
  lemma OverReported(depth: nat, skipGen: bool, env: Env)
    requires 2 <= depth <= 256 && Grants(env, 1) && Reaches(env, 1)
    ensures var cfg, boot := QueueConfig(depth), Boot(depth, skipGen, true);
            var es := [] + [Command(oddRead)] + [Cqe(Cid(0, 0), 0)];
            && Runnable(cfg, boot, es)
            && var b := After(cfg, env, boot, es).book;
            && 0 in b.replies && b.replies[0].Outcome? && b.replies[0].err == 0
            && b.replies[0].actual == 513 && End(b.replies[0].tiles) == 512
  {
    var cfg, boot := QueueConfig(depth), Boot(depth, skipGen, true);
    FloodFirst(depth, skipGen, env);
    hide Rest, CmdOk, OnCqe, Accept, Lookup, After, EventsOk, Runnable, Flooded, QueueConfig;
    var s := After(cfg, env, boot, Flushes(0));
    OddSent(depth, env, s);
    CommandPush(cfg, env, boot, [], oddRead);
    CqePush(cfg, env, boot, [] + [Command(oddRead)], Cid(0, 0), 0);
    CleanEnd(cfg, env, Accept(cfg, env, s, oddRead), Cid(0, 0), 0);
  }
}
