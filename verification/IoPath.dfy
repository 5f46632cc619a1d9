/** The I/O path as one state machine: dispatch, chunk pump, completion, retry,
    watchdog resubmission, cancellation.  Every function is a step of the unit
    task and keeps `Inv`; `Run` strings steps together in any order. */
module IoPath {
  import opened Base
  import opened Arith
  import opened Tags
  import opened Chunk
  import opened IoCore
  import opened IoBook

  datatype Config = Config(limits: Limits, ioMax: nat, crdt: seq<nat>, maxZeroes: nat, deallocZeroes: bool)

  /** `live`: the controller is in the LIVE state. */
  datatype State = State(core: Core, book: Book, live: bool)

  const SC_HOST_PATH_ERROR: nat := 0x370
  const SC_HOST_ABORTED: nat := 0x371
  const MAX_RETRIES: nat := 5
  const MAX_INFLIGHT_PER_IO: nat := 16

  ghost predicate CfgOk(cfg: Config) {
    0 < cfg.ioMax && |cfg.crdt| == 3
  }

  /** Request identities on record were handed out by the slab. */
  ghost predicate IdsOk(s: State) {
    && (forall r :: r in s.book.done ==> r < s.core.nextReq)
    && (forall r :: r in s.book.lost ==> r < s.core.nextReq)
  }

  /** hand: request being completed; hot: context being pumped; task: IOStdReq
      being dispatched; loose: blocks held by a dispatcher's caller. */
  ghost predicate Inv(cfg: Config, s: State, hand: Option<nat>, hot: Option<nat>, task: Option<nat>, loose: set<nat>) {
    && CfgOk(cfg)
    && CoreOk(s.core, hand, loose)
    && BookOk(cfg.limits, s.book, hot, task)
    && s.core.reqs.Keys == s.book.parents.Keys
    && IdsOk(s)
    && SibsCapped(cfg, s.book)
    && WireOk(s)
  }

  function SibCap(cfg: Config): nat {
    if cfg.ioMax < MAX_INFLIGHT_PER_IO then cfg.ioMax else MAX_INFLIGHT_PER_IO
  }

  /** No context ever has more than the cap of siblings in flight. */
  ghost predicate SibsCapped(cfg: Config, b: Book) {
    forall c :: c in b.ctxs ==> b.ctxs[c].inflight <= SibCap(cfg)
  }

  /** Between two steps of the unit task. */
  ghost predicate Rest(cfg: Config, s: State) {
    Whole(Inv(cfg, s, None, None, None, {}))
  }

  // ------------------------------------------------- chunks and their commands

  /** The command that carries chunk `t` of a job. */
  function SqeOf(job: Job, t: Tile): Sqe { Sqe(job.op, job.unit.shift, t.lba, t.len, t.off) }

  /** ... and it is the one that was written to the ring. */
  predicate Wired(w: map<nat, Entry>, job: Job, t: Tile) {
    && t.req in w
    && var q := w[t.req].sqe;
    && q.op == job.op && q.shift == job.unit.shift && q.slba == t.lba && q.bytes == t.len && q.at == t.off
  }

  ghost predicate TilesWired(w: map<nat, Entry>, b: Book) {
    && (forall c, t :: c in b.ctxs && t in b.ctxs[c].tiles ==> Wired(w, b.ctxs[c].job, t))
    && (forall r :: r in b.parents && b.parents[r].Single? ==> Wired(w, b.parents[r].job, b.parents[r].tile))
    && (forall io, t :: io in b.replies && b.replies[io].Outcome? && t in b.replies[io].tiles ==>
          Wired(w, b.replies[io].job, t))
  }

  /** Every command written fits its NLB field, and a live request has been
      written, last with the CID and the command it carries now. */
  ghost predicate WireIds(k: Core) {
    && (forall r :: r in k.sq ==> r in k.wire)
    && (forall r :: r in k.wire ==> r < k.nextReq && NlbFits(k.wire[r].sqe))
    && (forall r :: r in k.reqs ==> r in k.wire && k.wire[r] == Entry(k.reqs[r].cid, k.reqs[r].sqe))
  }

  /** Every chunk on record, in flight, completed or replied, is the command that
      was written. */
  ghost predicate WireOk(s: State) {
    Whole(WireIds(s.core) && TilesWired(s.core.wire, s.book))
  }

  /** No command on record changes; its CID may. */
  ghost predicate Grows(w: map<nat, Entry>, w': map<nat, Entry>) {
    forall r :: r in w ==> r in w' && w'[r].sqe == w[r].sqe
  }

  /** No chunk is on record in `b'` that was not in `b`. */
  ghost predicate TilesKept(b: Book, b': Book) {
    && (forall c :: c in b'.ctxs && b'.ctxs[c].tiles != [] ==>
          c in b.ctxs && b'.ctxs[c].tiles == b.ctxs[c].tiles && b'.ctxs[c].job == b.ctxs[c].job)
    && (forall r :: r in b'.parents && b'.parents[r].Single? ==> r in b.parents && b.parents[r] == b'.parents[r])
    && (forall io :: io in b'.replies && b'.replies[io].Outcome? ==> io in b.replies && b.replies[io] == b'.replies[io])
  }

  ghost predicate SqesKept(k: Core, k': Core) {
    && k.nextReq <= k'.nextReq && k'.wire == k.wire && k'.sq == k.sq
    && forall r :: r in k'.reqs ==> r in k.reqs && k'.reqs[r].sqe == k.reqs[r].sqe && k'.reqs[r].cid == k.reqs[r].cid
  }

  lemma TilesStay(w: map<nat, Entry>, b: Book, b': Book)
    requires TilesWired(w, b) && TilesKept(b, b')
    ensures TilesWired(w, b')
  {
    hide Wired;
    forall c, t | c in b'.ctxs && t in b'.ctxs[c].tiles ensures Wired(w, b'.ctxs[c].job, t) {
      assert c in b.ctxs && t in b.ctxs[c].tiles;
    }
    forall io, t | io in b'.replies && b'.replies[io].Outcome? && t in b'.replies[io].tiles
      ensures Wired(w, b'.replies[io].job, t)
    {
      assert io in b.replies && t in b.replies[io].tiles;
    }
  }

  lemma WireCore(s: State, s': State)
    requires WireOk(s) && SqesKept(s.core, s'.core) && s'.book == s.book
    ensures WireOk(s')
  {
    hide Wired;
  }

  lemma TilesGrow(w: map<nat, Entry>, w': map<nat, Entry>, b: Book)
    requires TilesWired(w, b) && Grows(w, w')
    ensures TilesWired(w', b)
  {
    forall job, t | Wired(w, job, t) ensures Wired(w', job, t) {}
    hide Wired;
    forall c, t | c in b.ctxs && t in b.ctxs[c].tiles ensures Wired(w', b.ctxs[c].job, t) {
      assert Wired(w, b.ctxs[c].job, t);
    }
    forall io, t | io in b.replies && b.replies[io].Outcome? && t in b.replies[io].tiles
      ensures Wired(w', b.replies[io].job, t)
    {
      assert Wired(w, b.replies[io].job, t);
    }
  }

  lemma DispatchWired(w: map<nat, Entry>, b: Book, c: nat, t: Tile)
    requires TilesWired(w, b) && c in b.ctxs && Wired(w, b.ctxs[c].job, t)
    ensures TilesWired(w, Dispatch(b, c, t))
  {
    hide Wired;
  }

  lemma SingleWired(w: map<nat, Entry>, b: Book, r: nat, p: Parent)
    requires TilesWired(w, b) && p.Single? && Wired(w, p.job, p.tile)
    ensures TilesWired(w, AddSingle(b, r, p))
  {
    hide Wired;
  }

  lemma FinishWired(w: map<nat, Entry>, b: Book, c: nat)
    requires TilesWired(w, b) && c in b.ctxs
    ensures TilesWired(w, Finish(b, c))
  {
    hide Wired;
  }

  lemma EndWired(w: map<nat, Entry>, b: Book, r: nat, status: nat, userLen: nat)
    requires TilesWired(w, b) && r in b.parents && (b.parents[r].Sibling? ==> b.parents[r].ctx in b.ctxs)
    ensures TilesWired(w, if b.parents[r].Single? then EndSingle(b, r, status) else EndSibling(b, r, status, userLen))
  {
    hide Wired, ErrorStatus;
  }

  lemma CappedSame(cfg: Config, b: Book, b': Book)
    requires SibsCapped(cfg, b) && b'.ctxs.Keys <= b.ctxs.Keys
    requires forall c :: c in b'.ctxs ==> b'.ctxs[c].inflight <= b.ctxs[c].inflight
    ensures SibsCapped(cfg, b')
  {
  }

  lemma CappedGrows(cfg: Config, b: Book, c: nat, t: Tile)
    requires SibsCapped(cfg, b) && c in b.ctxs && b.ctxs[c].inflight < SibCap(cfg)
    ensures SibsCapped(cfg, Dispatch(b, c, t))
  {
  }

  /** A slab identity is fresh for the book. */
  lemma FreshId(cfg: Config, s: State, hot: Option<nat>, task: Option<nat>, loose: set<nat>)
    requires Inv(cfg, s, None, hot, task, loose)
    ensures Fresh(s.book, s.core.nextReq)
  {
    assert s.core.nextReq !in s.core.reqs;
  }

  lemma KeepIds(s: State, s': State)
    requires IdsOk(s) && s'.book.done == s.book.done && s'.book.lost == s.book.lost && s.core.nextReq <= s'.core.nextReq
    ensures IdsOk(s')
  {
  }

  // ------------------------------------------------- one command to the ring

  /** Pressure: no tag, no request or no ring slot; Fault: setup failed. */
  datatype Turn = Sent | Pressure(err: int) | Fault(err: int)

  /** Setup of a freshly allocated request whose command is in place: buffers
      for a read or write. */
  function Setup(env: Env, k: Core, r: nat, op: Op, len: nat, off: nat): (res: (Core, int))
    requires r in k.reqs
  {
    if op.Read? || op.Write? then SetupRw(env, k, r, len, off) else (k, 0)
  }

  lemma SetupOk(env: Env, k: Core, r: nat, op: Op, len: nat, off: nat)
    requires CoreOk(k, None, {}) && r in k.reqs && k.reqs[r].pages == [] && k.reqs[r].bounce.None?
    requires r !in k.retryList
    ensures var (k', err) := Setup(env, k, r, op, len, off);
            && CoreOk(k', None, {}) && OnlyReq(k, k', r) && (err == 0 || err == IOERR_SELFTEST)
            && k'.reqs[r].cid.tag < |k'.pool.table|
            && (err == 0 && (op.Read? || op.Write?) && off < PAGE && off + len <= U32 ==> len <= 4089 * PAGE)
  {
    if op.Read? || op.Write? { SetupRwOk(env, k, r, len, off); }
    InSlot(k, None, r);
    hide CoreOk, SetupRw;
    assert k.reqs[r := k.reqs[r]] == k.reqs;
  }

  /** The transport after a request was taken and destroyed again. */
  ghost predicate Spent(k: Core, k': Core, loose: set<nat>) {
    && CoreOk(k', None, loose)
    && k'.reqs == k.reqs && k'.retryList == k.retryList && k'.sq == k.sq && k'.wire == k.wire
    && k.nextReq <= k'.nextReq
    && k'.pool.count == k.pool.count && |k'.pool.table| == |k.pool.table|
  }

  /** The transport after request `k.nextReq` entered the ring with command `sqe`. */
  ghost predicate Launched(k: Core, k': Core, sqe: Sqe) {
    && CoreOk(k', None, {})
    && k.nextReq !in k.reqs
    && k'.reqs.Keys == k.reqs.Keys + {k.nextReq} && k'.retryList == k.retryList
    && Spares(k.reqs, k'.reqs, k.nextReq) && k'.reqs[k.nextReq].sqe == sqe && NlbFits(sqe)
    && k'.sq == k.sq + [k.nextReq] && k'.wire == k.wire[k.nextReq := Entry(k'.reqs[k.nextReq].cid, sqe)]
    && k'.nextReq == k.nextReq + 1
    && k'.pool.count == k.pool.count + 1 && |k'.pool.table| == |k.pool.table|
  }

  /** A request was allocated, and only that. */
  ghost predicate Allocated(k: Core, k1: Core) {
    && var r := k.nextReq;
    && r !in k.reqs && r in k1.reqs && k1.reqs == k.reqs[r := k1.reqs[r]]
    && k1 == k.(clock := k1.clock, pool := k1.pool, reqs := k1.reqs, nextReq := k.nextReq + 1)
    && k1.pool.count == k.pool.count + 1 && |k1.pool.table| == |k.pool.table|
    && r !in k.retryList && Writes(k.sq, r) == 0
  }

  lemma DestroySpent(k: Core, k1: Core, k2: Core, loose: set<nat>)
    requires Allocated(k, k1)
    requires CoreOk(k2, None, loose) && OnlyReq(k1, k2, k.nextReq) && k2.reqs[k.nextReq].cid.tag < |k2.pool.table|
    ensures Spent(k, Destroy(k2, k.nextReq), loose)
  {
    hide Placed, SqOk, MemOk, Valid, Shape, Destroy;
    DestroyOk(k2, k.nextReq, loose);
    assert k2.reqs - {k.nextReq} == k.reqs;
  }

  lemma OnlyReqSelf(k: Core, r: nat)
    requires r in k.reqs
    ensures OnlyReq(k, k, r)
  {
    assert k.reqs[r := k.reqs[r]] == k.reqs;
  }

  lemma SubmitLaunched(k: Core, k1: Core, k2: Core)
    requires Allocated(k, k1) && k.nextReq in k2.reqs && NlbFits(k2.reqs[k.nextReq].sqe)
    requires CoreOk(k2, None, {}) && OnlyReq(k1, k2, k.nextReq) && k2.reqs[k.nextReq].cid.tag < |k2.pool.table|
    ensures var (k3, err) := SubmitIo(k2, k.nextReq);
            if err == ASYNC then Launched(k, k3, k2.reqs[k.nextReq].sqe)
            else (err == IOERR_UNITBUSY || err == IOERR_BADADDRESS) && k3 == Destroy(k2, k.nextReq)
  {
    hide Placed, SqOk, MemOk, Valid, Shape, Destroy;
    SubmitIoOk(k2, k.nextReq);
  }

  lemma AllocIoAllocated(env: Env, k: Core, loose: set<nat>)
    requires CoreOk(k, None, loose)
    ensures var g := AllocIo(env, k);
            if g.Refused? then Spent(k, g.k, loose) && (g.err == IOERR_SELFTEST || g.err == IOERR_UNITBUSY)
            else g.r == k.nextReq && CoreOk(g.k, None, loose) && Allocated(k, g.k)
                 && g.k.reqs[g.r].pages == [] && g.k.reqs[g.r].bounce.None? && !g.k.reqs[g.r].prpSlab
                 && g.k.reqs[g.r].cid.tag < |g.k.pool.table|
  {
    hide Placed, SqOk, MemOk, Valid, Take;
    AllocIoOk(env, k, loose);
    var g := AllocIo(env, k);
    if g.Got? { SlotShape(g.k, g.r, loose); }
    hide CoreOk, AllocIo;
  }

  lemma CommandSet(k: Core, k1: Core, sqe: Sqe, loose: set<nat>)
    requires Allocated(k, k1) && CoreOk(k1, None, loose)
    ensures Allocated(k, SetSqe(k1, k.nextReq, sqe)) && CoreOk(SetSqe(k1, k.nextReq, sqe), None, loose)
  {
    hide CoreOk;
    SetSqeOk(k1, k.nextReq, sqe, loose);
  }

  /** What a caller of the setup helpers ensures: a buffer in the address space
      for a read or write, a capped block count for Write Zeroes. */
  ghost predicate Sendable(sqe: Sqe, off: nat) {
    && (sqe.op.Read? || sqe.op.Write? ==>
          off < PAGE && off + sqe.bytes <= U32 && BlockSize(sqe.shift) <= sqe.bytes)
    && (sqe.op.Zeroes? ==> NlbFits(sqe))
  }

  lemma SentFits(sqe: Sqe, off: nat)
    requires Sendable(sqe, off) && (sqe.op.Read? || sqe.op.Write? ==> sqe.bytes <= 4089 * PAGE)
    ensures NlbFits(sqe)
  {
    assert sqe.bytes / BlockSize(sqe.shift) <= sqe.bytes / 512;
  }

  /** Tag, readiness gate, setup, ring for one command: the request is
      `k.nextReq`. */
  function TryCommand(env: Env, k: Core, ready: bool, sqe: Sqe, off: nat): (y: (Core, Turn))
    requires CoreOk(k, None, {}) && Sendable(sqe, off)
    ensures if y.1 == Sent then Launched(k, y.0, sqe) else Spent(k, y.0, {})
    ensures !y.1.Sent? ==> y.1.err < 0
  {
    CoreShape(k);
    hide CoreOk, Destroy, SubmitIo, Launched, Spent;
    AllocIoAllocated(env, k, {});
    match AllocIo(env, k)
    case Refused(k1, err) => (k1, Pressure(err))
    case Got(k0, r) =>
      CoreShape(k0);
      OnlyReqSelf(k0, r);
      DestroySpent(k, k0, k0, {});
      if !ready then (Destroy(k0, r), Fault(IOERR_UNITBUSY)) else
      CommandSet(k, k0, sqe, {});
      var k1 := SetSqe(k0, r, sqe);
      SetupOk(env, k1, r, sqe.op, sqe.bytes, off);
      var (k2, serr) := Setup(env, k1, r, sqe.op, sqe.bytes, off);
      CoreShape(k2);
      DestroySpent(k, k1, k2, {});
      if serr != 0 then (Destroy(k2, r), Fault(serr))
      else
        SentFits(sqe, off);
        SubmitLaunched(k, k1, k2);
        var (k3, err) := SubmitIo(k2, r);
        (k3, if err == ASYNC then Sent else if err == IOERR_UNITBUSY then Pressure(err) else Fault(err))
  }

  // ------------------------------------------------------------- chunk pump

  ghost predicate Pumpable(cfg: Config, s: State, c: nat) {
    && c in s.book.ctxs && !s.book.ctxs[c].stalled && s.book.ctxs[c].firstError == 0
    && Whole(Inv(cfg, s, None, Some(c), None, {}))
  }

  ghost predicate KeepsAll(reqs: map<nat, Req>, reqs': map<nat, Req>) {
    forall x :: x in reqs ==> x in reqs' && reqs'[x] == reqs[x]
  }

  /** Only context `c`'s record and the transport changed. */
  ghost predicate PumpFrame(s: State, s': State, c: nat) {
    && c in s.book.ctxs && c in s'.book.ctxs
    && s'.live == s.live
    && s'.core.retryList == s.core.retryList && Depth(s'.core) == Depth(s.core) && KeepsAll(s.core.reqs, s'.core.reqs)
    && s'.book.ctxs.Keys == s.book.ctxs.Keys
    && s'.book.ctxs[c].io == s.book.ctxs[c].io && s'.book.ctxs[c].job == s.book.ctxs[c].job
    && s'.book.owner == s.book.owner && s'.book.replies == s.book.replies && s'.book.nextIo == s.book.nextIo
    && s'.book.lost == s.book.lost
    && s'.core.pool.count >= s.core.pool.count
  }

  lemma NextTileExtends(cfg: Config, s: State, c: nat)
    requires Pumpable(cfg, s, c) && s.book.ctxs[c].dispatched < s.book.ctxs[c].job.total
    ensures Extends(cfg.limits, s.book.ctxs[c], NextTile(cfg.limits, s.book.ctxs[c], s.core.nextReq))
    ensures s.core.nextReq !in s.book.ctxs[c].sibs
  {
    var k := s.book.ctxs[c];
    hide CoreOk, OwnersOk, RepliesOk, WireOk, SibsCapped;
    FreshId(cfg, s, Some(c), None, {});
    PumpedLocal(cfg, s, c);
    hide BookOk, Tiling, JobOk;
    TilingGrows(cfg.limits, k, NextTile(cfg.limits, k, s.core.nextReq));
  }

  lemma PumpedLocal(cfg: Config, s: State, c: nat)
    requires Pumpable(cfg, s, c)
    ensures CtxLocal(cfg.limits, s.book.ctxs[c]) && SibsOk(s.book, c, s.book.ctxs[c].sibs)
  {
    assert CtxOk(cfg.limits, s.book, c, Some(c));
  }

  /** Where in its page the next chunk's buffer starts. */
  function ChunkOff(k: Ctx): nat { (k.job.bufOff + k.dispatched) % PAGE }

  lemma NextSendable(cfg: Config, s: State, c: nat, k: Ctx)
    requires Pumpable(cfg, s, c) && k == s.book.ctxs[c] && k.dispatched < k.job.total
    ensures Sendable(SqeOf(k.job, NextTile(cfg.limits, k, s.core.nextReq)), ChunkOff(k))
  {
    hide CoreOk, BookOk, WireOk, SibsCapped, Sendable;
    PumpedLocal(cfg, s, c);
    TileSendable(cfg.limits, k, s.core.nextReq);
  }

  /** A chunk is whole blocks, ends inside the transfer and respects its cap. */
  lemma TileLen(l: Limits, k: Ctx, r: nat)
    requires JobOk(l, k.job) && Tiling(l, k.job, k.tiles) && End(k.tiles) == k.dispatched < k.job.total
    ensures var n := NextTile(l, k, r).len;
            && 0 < n <= k.job.total - k.dispatched && n % BlockSize(k.job.unit.shift) == 0
            && (k.job.op.Zeroes? ==> n <= 0x1_0000 * BlockSize(k.job.unit.shift))
  {
    var bs := BlockSize(k.job.unit.shift);
    var t := NextTile(l, k, r);
    TilingEndBlocks(l, k.job, k.tiles);
    hide Tiling, RwCap, NextBytes, End;
    SubMod(k.job.total, k.dispatched, bs);
    ChunkBlocks(l, k.job.unit, k.job.op, t.lba, k.job.total - k.dispatched);
    hide BlockSize;
  }

  lemma OffsetFits(start: nat, n: nat)
    requires start + n <= U32
    ensures start % PAGE + n <= U32 && start % PAGE < PAGE
  {
  }

  lemma TileSendable(l: Limits, k: Ctx, r: nat)
    requires JobOk(l, k.job) && Tiling(l, k.job, k.tiles) && End(k.tiles) == k.dispatched < k.job.total
    ensures Sendable(SqeOf(k.job, NextTile(l, k, r)), ChunkOff(k))
  {
    TileLen(l, k, r);
    OffsetFits(k.job.bufOff + k.dispatched, NextTile(l, k, r).len);
    hide Tiling, JobOk, NextBytes, BlockSize, End;
    BlocksIn(NextTile(l, k, r).len, BlockSize(k.job.unit.shift));
  }

  lemma BlocksIn(n: nat, bs: nat)
    requires bs > 0 && n > 0 && n % bs == 0
    ensures n == n / bs * bs && n / bs > 0 && bs <= n
    ensures n <= 0x1_0000 * bs ==> n / bs <= 0x1_0000
  {
    var q := n / bs;
    assert n == q * bs;
    MulGap(0x1_0000, q, bs);
    MulGap(0, q, bs);
  }

  lemma LaunchedInv(cfg: Config, s: State, s': State, hot: Option<nat>, task: Option<nat>, sqe: Sqe)
    requires Inv(cfg, s, None, hot, task, {}) && Launched(s.core, s'.core, sqe)
    requires BookOk(cfg.limits, s'.book, hot, task) && TilesWired(s'.core.wire, s'.book)
    requires s'.book.parents.Keys == s.book.parents.Keys + {s.core.nextReq}
    requires s'.book.done == s.book.done && s'.book.lost == s.book.lost && SibsCapped(cfg, s'.book)
    ensures Inv(cfg, s', None, hot, task, {})
  {
    hide CoreOk, BookOk, TilesWired, NlbFits;
  }

  /** A launch leaves the chunks on record wired and wires its own. */
  lemma LaunchWires(s: State, k': Core, job: Job, t: Tile)
    requires WireOk(s) && t.req == s.core.nextReq && Launched(s.core, k', SqeOf(job, t))
    ensures TilesWired(k'.wire, s.book) && Wired(k'.wire, job, t)
  {
    hide CoreOk, NlbFits;
    assert Grows(s.core.wire, k'.wire);
    hide TilesWired;
    TilesGrow(s.core.wire, k'.wire, s.book);
  }

  lemma SpentInv(cfg: Config, s: State, s': State, hot: Option<nat>, task: Option<nat>, loose: set<nat>)
    requires Inv(cfg, s, None, hot, task, loose) && Spent(s.core, s'.core, loose) && s'.book == s.book
    ensures Inv(cfg, s', None, hot, task, loose)
  {
    hide CoreOk, BookOk, WireOk;
    WireCore(s, s');
  }

  /** Chunk `t` went out: context `c` has one more sibling in flight. */
  lemma TurnSent(cfg: Config, s: State, s': State, c: nat, t: Tile)
    requires Pumpable(cfg, s, c) && c in s.book.ctxs && Launched(s.core, s'.core, SqeOf(s.book.ctxs[c].job, t))
             && s'.live == s.live
    requires t.req == s.core.nextReq && Extends(cfg.limits, s.book.ctxs[c], t)
    requires s'.book == Dispatch(s.book, c, t) && s.book.ctxs[c].inflight < SibCap(cfg)
    ensures PumpFrame(s, s', c) && Pumpable(cfg, s', c) && s'.book.stalled == s.book.stalled
    ensures s'.book.ctxs[c].inflight > 0 && s'.book.ctxs[c].dispatched > s.book.ctxs[c].dispatched
    ensures s'.core.pool.count > s.core.pool.count
  {
    FreshId(cfg, s, Some(c), None, {});
    assert t.len > 0;
    CappedGrows(cfg, s.book, c, t);
    hide BookOk, CoreOk, IdsOk, Extends, SibsCapped, WireOk, TilesWired, Wired;
    LaunchWires(s, s'.core, s.book.ctxs[c].job, t);
    DispatchWired(s'.core.wire, s.book, c, t);
    TurnSentFrame(s, s', c, t);
    DispatchOk(cfg.limits, s.book, c, t);
    LaunchedInv(cfg, s, s', Some(c), None, SqeOf(s.book.ctxs[c].job, t));
    hide PumpFrame, Inv;
  }

  lemma TurnSentFrame(s: State, s': State, c: nat, t: Tile)
    requires c in s.book.ctxs && Launched(s.core, s'.core, SqeOf(s.book.ctxs[c].job, t)) && s'.live == s.live
             && s'.book == Dispatch(s.book, c, t)
    ensures PumpFrame(s, s', c) && s'.book.parents.Keys == s.book.parents.Keys + {t.req}
  {
    hide CoreOk;
  }

  lemma TurnSpent(cfg: Config, s: State, s': State, c: nat)
    requires Pumpable(cfg, s, c) && Spent(s.core, s'.core, {}) && s'.live == s.live && s'.book == s.book
    ensures PumpFrame(s, s', c) && Pumpable(cfg, s', c)
  {
    hide CtxsOk, OwnersOk, RepliesOk, CoreOk, IdsOk;
    SpentInv(cfg, s, s', Some(c), None, {});
  }

  lemma TurnRollback(cfg: Config, s: State, c: nat)
    requires Pumpable(cfg, s, c) && s.book.ctxs[c].dispatched < s.book.ctxs[c].job.total
    ensures var t := NextTile(cfg.limits, s.book.ctxs[c], s.core.nextReq);
            && var b := Dispatch(s.book, c, t);
            && b.ctxs[c].tiles != [] && t.len <= b.ctxs[c].dispatched && Rollback(b, c, t) == s.book
  {
    NextTileExtends(cfg, s, c);
    FreshId(cfg, s, Some(c), None, {});
    hide CoreOk, BookOk, NextBytes;
    RollbackUndoes(s.book, c, NextTile(cfg.limits, s.book.ctxs[c], s.core.nextReq));
  }

  lemma PumpableCore(cfg: Config, s: State, c: nat)
    requires Pumpable(cfg, s, c)
    ensures CoreOk(s.core, None, {}) && s.book.ctxs[c].dispatched <= s.book.ctxs[c].job.total
  {
    hide BookOk, CoreOk;
    InflightNat(cfg, s, c, Some(c));
  }

  /** One turn of the pump loop: carve the next chunk, book it, submit it, and
      roll the books back when the ring refuses it. */
  function PumpTurn(cfg: Config, env: Env, s: State, c: nat): (res: (State, Turn))
    requires Pumpable(cfg, s, c) && c in s.book.ctxs && s.book.ctxs[c].dispatched < s.book.ctxs[c].job.total
    requires s.book.ctxs[c].inflight < SibCap(cfg)
    ensures c in res.0.book.ctxs && PumpFrame(s, res.0, c) && Pumpable(cfg, res.0, c)
    ensures res.0.book.stalled == s.book.stalled
    ensures res.1 == Sent ==> res.0.book.ctxs[c].inflight > 0 && res.0.core.pool.count > s.core.pool.count
                              && res.0.book.ctxs[c].dispatched > s.book.ctxs[c].dispatched
    ensures res.1 != Sent ==> res.0.book == s.book && res.1.err < 0
  {
    var k := s.book.ctxs[c];
    hide Pumpable, PumpFrame, CoreOk, Extends, Dispatch, Rollback, Launched, Spent, NextBytes, Sendable,
      ChunkOff;
    PumpableCore(cfg, s, c);
    NextTileExtends(cfg, s, c);
    NextSendable(cfg, s, c, k);
    TurnRollback(cfg, s, c);
    var t := NextTile(cfg.limits, k, s.core.nextReq);
    var (core, turn) := TryCommand(env, s.core, true, SqeOf(k.job, t), ChunkOff(k));
    var booked := Dispatch(s.book, c, t);
    var s' := State(core, if turn == Sent then booked else Rollback(booked, c, t), s.live);
    if turn == Sent then TurnSent(cfg, s, s', c, t); (s', turn)
    else TurnSpent(cfg, s, s', c); (s', turn)
  }

  lemma SameJob(s: State, s': State, c: nat)
    requires PumpFrame(s, s', c)
    ensures c in s.book.ctxs && c in s'.book.ctxs && s'.book.ctxs[c].job == s.book.ctxs[c].job
  {
  }

  /** Context `c` put down after a pump or instead of one: parked, or with
      siblings in flight, or all dispatched, or with an error latched. */
  ghost predicate Paused(cfg: Config, s: State, c: nat, s': State) {
    && PumpFrame(s, s', c)
    && Inv(cfg, s', None, if s'.book.ctxs[c].stalled then None else Some(c), None, {})
    && (!s'.book.ctxs[c].stalled && s'.book.ctxs[c].inflight == 0 ==>
          s'.book.ctxs[c].firstError != 0 || s'.book.ctxs[c].dispatched == s'.book.ctxs[c].job.total)
  }

  /** How the pump leaves context `c`. */
  ghost predicate Pumped(cfg: Config, s: State, c: nat, s': State, rc: int) {
    && Paused(cfg, s, c, s')
    && (rc != ASYNC ==> rc < 0 && !s'.book.ctxs[c].stalled && s'.book.ctxs[c].inflight == 0
                        && s'.book.ctxs[c].firstError == rc)
    && (rc == ASYNC && (s.book.ctxs[c].dispatched < s.book.ctxs[c].job.total || s.book.ctxs[c].inflight > 0) ==>
          s'.book.ctxs[c].stalled || s'.book.ctxs[c].inflight > 0)
    && s'.book.stalled == if s'.book.ctxs[c].stalled then s.book.stalled + [c] else s.book.stalled
  }

  lemma InflightNat(cfg: Config, s: State, c: nat, hot: Option<nat>)
    requires Inv(cfg, s, None, hot, None, {}) && c in s.book.ctxs
    ensures s.book.ctxs[c].inflight >= 0 && s.book.ctxs[c].dispatched <= s.book.ctxs[c].job.total
  {
    assert CtxOk(cfg.limits, s.book, c, hot);
  }

  lemma PumpIdle(cfg: Config, s: State, c: nat)
    requires Pumpable(cfg, s, c)
    requires !(s.book.ctxs[c].dispatched < s.book.ctxs[c].job.total && s.book.ctxs[c].inflight < SibCap(cfg))
    ensures Pumped(cfg, s, c, s, ASYNC)
  {
    assert CtxOk(cfg.limits, s.book, c, Some(c));
  }

  /** A refused turn: park when nothing is in flight. */
  lemma PumpPressure(cfg: Config, s: State, c: nat, s1: State)
    requires PumpFrame(s, s1, c) && Pumpable(cfg, s1, c) && s1.book == s.book
    requires s.book.ctxs[c].dispatched < s.book.ctxs[c].job.total
    ensures Pumped(cfg, s, c, if s.book.ctxs[c].inflight == 0 then s1.(book := Stall(s1.book, c)) else s1, ASYNC)
  {
    hide BookOk, CoreOk;
    InflightNat(cfg, s1, c, Some(c));
    if s.book.ctxs[c].inflight == 0 { StallOk(cfg.limits, s1.book, c); }
  }

  lemma PumpFault(cfg: Config, s: State, c: nat, s1: State, err: int)
    requires PumpFrame(s, s1, c) && Pumpable(cfg, s1, c) && s1.book == s.book && err < 0
    ensures Pumped(cfg, s, c, s1.(book := Latch(s1.book, c, err)), if s.book.ctxs[c].inflight == 0 then err else ASYNC)
  {
    hide BookOk, CoreOk;
    InflightNat(cfg, s1, c, Some(c));
    LatchOk(cfg.limits, s1.book, c, err);
  }

  lemma PumpedAfter(cfg: Config, s: State, c: nat, s1: State, s2: State, rc: int)
    requires PumpFrame(s, s1, c) && Pumped(cfg, s1, c, s2, rc) && s1.book.ctxs[c].inflight > 0
    requires s1.book.stalled == s.book.stalled
    ensures Pumped(cfg, s, c, s2, rc)
  {
    hide Inv;
  }

  /** nvme_io_context_pump. */
  function Pump(cfg: Config, env: Env, s: State, c: nat): (res: (State, int))
    requires Pumpable(cfg, s, c) && c in s.book.ctxs && s.book.ctxs[c].dispatched <= s.book.ctxs[c].job.total
    ensures Pumped(cfg, s, c, res.0, res.1)
    decreases s.book.ctxs[c].job.total - s.book.ctxs[c].dispatched
  {
    hide Pumpable, Inv, Pumped;
    var k := s.book.ctxs[c];
    if !(k.dispatched < k.job.total && k.inflight < SibCap(cfg)) then
      PumpIdle(cfg, s, c);
      (s, ASYNC)
    else
      var (s1, turn) := PumpTurn(cfg, env, s, c);
      match turn
      case Sent =>
        PumpableBound(cfg, s1, c);
        var res := Pump(cfg, env, s1, c);
        PumpedAfter(cfg, s, c, s1, res.0, res.1);
        res
      case Pressure(_) =>
        PumpPressure(cfg, s, c, s1);
        (if k.inflight == 0 then s1.(book := Stall(s1.book, c)) else s1, ASYNC)
      case Fault(err) =>
        PumpFault(cfg, s, c, s1, err);
        (s1.(book := Latch(s1.book, c, err)), if k.inflight == 0 then err else ASYNC)
  }

  /** The pump, one turn at a time: after a chunk went out it goes on from there. */
  lemma PumpNext(cfg: Config, env: Env, s: State, c: nat)
    requires Pumpable(cfg, s, c) && c in s.book.ctxs && s.book.ctxs[c].dispatched < s.book.ctxs[c].job.total
    requires s.book.ctxs[c].inflight < SibCap(cfg) && PumpTurn(cfg, env, s, c).1 == Sent
    ensures var s1 := PumpTurn(cfg, env, s, c).0;
            && Pumpable(cfg, s1, c) && c in s1.book.ctxs && s1.book.ctxs[c].job == s.book.ctxs[c].job
            && s.book.ctxs[c].dispatched < s1.book.ctxs[c].dispatched <= s1.book.ctxs[c].job.total
  {
    var s1 := PumpTurn(cfg, env, s, c).0;
    hide *;
    PumpableBound(cfg, s1, c);
    SameJob(s, s1, c);
  }

  lemma PumpGoesOn(cfg: Config, env: Env, s: State, c: nat)
    requires Pumpable(cfg, s, c) && c in s.book.ctxs && s.book.ctxs[c].dispatched < s.book.ctxs[c].job.total
    requires s.book.ctxs[c].inflight < SibCap(cfg) && PumpTurn(cfg, env, s, c).1 == Sent
    requires var s1 := PumpTurn(cfg, env, s, c).0;
             Pumpable(cfg, s1, c) && c in s1.book.ctxs && s1.book.ctxs[c].dispatched <= s1.book.ctxs[c].job.total
    ensures Pump(cfg, env, s, c) == Pump(cfg, env, PumpTurn(cfg, env, s, c).0, c)
  {
    hide Pumpable, Inv, Pumped, PumpTurn, PumpFrame, SibCap, Stall, Latch;
  }

  lemma PumpBreaks(cfg: Config, env: Env, s: State, c: nat)
    requires Pumpable(cfg, s, c) && c in s.book.ctxs && s.book.ctxs[c].dispatched < s.book.ctxs[c].job.total
    requires s.book.ctxs[c].inflight < SibCap(cfg) && PumpTurn(cfg, env, s, c).1 != Sent
    ensures var (s1, turn) := PumpTurn(cfg, env, s, c);
            var idle := s.book.ctxs[c].inflight == 0;
            && s1.book == s.book
            && Pump(cfg, env, s, c) ==
               match turn
               case Pressure(_) => (if idle then s1.(book := Stall(s.book, c)) else s1, ASYNC)
               case Fault(err) => (s1.(book := Latch(s.book, c, err)), if idle then err else ASYNC)
  {
    hide Pumpable, Inv, Pumped, PumpTurn, PumpFrame, Stall, Latch;
  }

  lemma PumpEnds(cfg: Config, env: Env, s: State, c: nat)
    requires Pumpable(cfg, s, c) && c in s.book.ctxs && s.book.ctxs[c].dispatched <= s.book.ctxs[c].job.total
    requires s.book.ctxs[c].dispatched == s.book.ctxs[c].job.total || s.book.ctxs[c].inflight >= SibCap(cfg)
    ensures Pump(cfg, env, s, c) == (s, ASYNC)
  {
    hide Pumpable, Inv, Pumped, PumpTurn, PumpFrame, Stall, Latch;
  }

  lemma PumpableBound(cfg: Config, s: State, c: nat)
    requires Pumpable(cfg, s, c)
    ensures s.book.ctxs[c].dispatched <= s.book.ctxs[c].job.total
  {
    InflightNat(cfg, s, c, Some(c));
  }

  // ------------------------------------------------------------- completion

  /** After a sibling of `c` ended: refill the slot unless an error is latched,
      and answer the IOStdReq when nothing of the context is left in flight. */
  function Refill(cfg: Config, env: Env, s: State, c: nat): (s': State)
    requires Inv(cfg, s, None, Some(c), None, {}) && c in s.book.ctxs && !s.book.ctxs[c].stalled
    requires s.book.ctxs[c].dispatched <= s.book.ctxs[c].job.total
    ensures Rest(cfg, s') && s'.core.retryList == s.core.retryList && s'.live == s.live
            && Depth(s'.core) == Depth(s.core)
    ensures KeepsAll(s.core.reqs, s'.core.reqs) && s'.book.nextIo == s.book.nextIo && s'.book.lost == s.book.lost
  {
    hide Inv, Paused, Rest;
    var k := s.book.ctxs[c];
    if k.dispatched < k.job.total && k.firstError == 0 then
      RefillPumpable(cfg, s, c);
      var s1 := Pump(cfg, env, s, c).0;
      SettleCtx(cfg, s, c, s1);
      Answer(s1, c)
    else
      RefillSkip(cfg, s, c);
      SettleCtx(cfg, s, c, s);
      Answer(s, c)
  }

  /** Reply when nothing is in flight and the context is not parked. */
  function Answer(s: State, c: nat): State
    requires c in s.book.ctxs
  {
    if s.book.ctxs[c].inflight == 0 && !s.book.ctxs[c].stalled then s.(book := Finish(s.book, c)) else s
  }

  lemma RefillPumps(cfg: Config, env: Env, s: State, c: nat)
    requires Inv(cfg, s, None, Some(c), None, {}) && c in s.book.ctxs && !s.book.ctxs[c].stalled
    requires s.book.ctxs[c].dispatched < s.book.ctxs[c].job.total && s.book.ctxs[c].firstError == 0
    ensures Pumpable(cfg, s, c) && c in Pump(cfg, env, s, c).0.book.ctxs
    ensures Paused(cfg, s, c, Pump(cfg, env, s, c).0)
    ensures Refill(cfg, env, s, c) == Answer(Pump(cfg, env, s, c).0, c)
  {
    RefillPumpable(cfg, s, c);
    var (s1, rc) := Pump(cfg, env, s, c);
    assert Pumped(cfg, s, c, s1, rc);
    hide Inv, Rest, PumpFrame, Pump, Answer, Pumpable;
  }

  lemma RefillRests(cfg: Config, env: Env, s: State, c: nat)
    requires Inv(cfg, s, None, Some(c), None, {}) && c in s.book.ctxs && !s.book.ctxs[c].stalled
    requires s.book.ctxs[c].dispatched <= s.book.ctxs[c].job.total
    requires s.book.ctxs[c].dispatched == s.book.ctxs[c].job.total || s.book.ctxs[c].firstError != 0
    ensures Refill(cfg, env, s, c) == Answer(s, c)
  {
    hide Inv, Rest, Pump, Answer, Pumpable, Paused;
  }

  lemma RefillPumpable(cfg: Config, s: State, c: nat)
    requires Inv(cfg, s, None, Some(c), None, {}) && c in s.book.ctxs && !s.book.ctxs[c].stalled
    requires s.book.ctxs[c].firstError == 0
    ensures Pumpable(cfg, s, c)
  {
  }

  lemma RefillSkip(cfg: Config, s: State, c: nat)
    requires c in s.book.ctxs && !s.book.ctxs[c].stalled
    requires !(s.book.ctxs[c].dispatched < s.book.ctxs[c].job.total && s.book.ctxs[c].firstError == 0)
    requires Inv(cfg, s, None, Some(c), None, {})
    ensures Paused(cfg, s, c, s)
  {
    hide BookOk, CoreOk, IdsOk;
    InflightNat(cfg, s, c, Some(c));
    hide Inv;
  }

  lemma SettleCtx(cfg: Config, s: State, c: nat, s1: State)
    requires Paused(cfg, s, c, s1)
    ensures c in s1.book.ctxs && Rest(cfg, Answer(s1, c))
    ensures Answer(s1, c).core == s1.core && Answer(s1, c).live == s1.live == s.live
    ensures Answer(s1, c).book.nextIo == s.book.nextIo && Answer(s1, c).book.lost == s.book.lost
    ensures s1.core.retryList == s.core.retryList && Depth(s1.core) == Depth(s.core)
    ensures s1.core.pool.count >= s.core.pool.count && KeepsAll(s.core.reqs, s1.core.reqs)
  {
    hide BookOk, CoreOk, IdsOk;
    if s1.book.ctxs[c].inflight == 0 && !s1.book.ctxs[c].stalled { FinishInv(cfg, s1, c); }
    else { CoolInv(cfg, s1, c); }
  }

  lemma FinishInv(cfg: Config, s: State, c: nat)
    requires Inv(cfg, s, None, Some(c), None, {}) && c in s.book.ctxs && !s.book.ctxs[c].stalled
    requires s.book.ctxs[c].inflight == 0
    requires s.book.ctxs[c].firstError != 0 || s.book.ctxs[c].dispatched == s.book.ctxs[c].job.total
    ensures Rest(cfg, s.(book := Finish(s.book, c)))
  {
    hide BookOk, CoreOk, SibsCapped, TilesWired, WireIds;
    FinishOk(cfg.limits, s.book, c);
    FinishWired(s.core.wire, s.book, c);
    CappedSame(cfg, s.book, Finish(s.book, c));
  }

  lemma CoolInv(cfg: Config, s: State, c: nat)
    requires c in s.book.ctxs
    requires Inv(cfg, s, None, if s.book.ctxs[c].stalled then None else Some(c), None, {})
    requires s.book.ctxs[c].stalled || s.book.ctxs[c].inflight != 0
    ensures Rest(cfg, s)
  {
    if !s.book.ctxs[c].stalled {
      assert CtxOk(cfg.limits, s.book, c, Some(c));
      hide BookOk, CoreOk;
      CoolOk(cfg.limits, s.book, c);
    }
  }

  /** nvme_cleanup_cmd and slab_free. */
  function Retire(k: Core, r: nat): (k': Core)
    requires r in k.reqs
  {
    Drop(FreeBuffers(k, r), r)
  }

  /** Request `r` is gone, with its blocks. */
  ghost predicate Retired(k: Core, r: nat, k': Core) {
    && CoreOk(k', None, {}) && k'.reqs.Keys == k.reqs.Keys - {r} && r < k.nextReq
    && k' == k.(mem := k'.mem, reqs := k'.reqs) && Spares(k.reqs, k'.reqs, r)
  }

  lemma RetireOk(k: Core, r: nat)
    requires r in k.reqs && CoreOk(k, Some(r), {})
    ensures Retired(k, r, Retire(k, r))
  {
    hide CoreOk, FreeAll, Blocks;
    HandId(k, r);
    FreeBuffersOk(k, r, Some(r), {});
    DropOk(FreeBuffers(k, r), r, {});
  }

  lemma HandId(k: Core, r: nat)
    requires CoreOk(k, Some(r), {})
    ensures r in k.reqs && r < k.nextReq
  {
  }

  lemma RetiredIds(k: Core, r: nat, k': Core)
    requires WireIds(k) && Retired(k, r, k')
    ensures WireIds(k')
  {
    hide CoreOk;
  }

  lemma EndInv(cfg: Config, s: State, r: nat, book: Book, hot: Option<nat>)
    requires Inv(cfg, s, Some(r), None, None, {}) && r in s.core.reqs
    requires BookOk(cfg.limits, book, hot, None)
    requires book.parents == s.book.parents - {r} && book.lost == s.book.lost
    requires book.done.Keys == s.book.done.Keys + {r} && SibsCapped(cfg, book) && TilesWired(s.core.wire, book)
    ensures var s' := State(Retire(s.core, r), book, s.live);
            && Inv(cfg, s', None, hot, None, {}) && s'.core.retryList == s.core.retryList
            && Depth(s'.core) == Depth(s.core)
            && Spares(s.core.reqs, s'.core.reqs, r)
  {
    hide BookOk, CoreOk, Retire, TilesWired, SibsCapped, WireIds;
    RetireOk(s.core, r);
    RetiredIds(s.core, r, Retire(s.core, r));
  }

  /** The COMPLETE branch of nvme_complete_rq. */
  function EndReq(cfg: Config, env: Env, s: State, r: nat): (s': State)
    requires Inv(cfg, s, Some(r), None, None, {}) && r in s.core.reqs && r in s.book.parents
    ensures Rest(cfg, s') && s'.core.retryList == s.core.retryList && s'.live == s.live
            && Depth(s'.core) == Depth(s.core)
    ensures Spares(s.core.reqs, s'.core.reqs, r) && s'.book.nextIo == s.book.nextIo && s'.book.lost == s.book.lost
  {
    hide CoreOk, BookOk, IdsOk, Retire, EndSingle, EndSibling, SibsCapped, TilesWired, WireIds;
    var q := s.core.reqs[r];
    var core := Retire(s.core, r);
    EndFrame(cfg, s.book, r, q.status, q.userLen);
    EndWired(s.core.wire, s.book, r, q.status, q.userLen);
    match s.book.parents[r]
    case Single(_, _, _) =>
      EndSingleOk(cfg.limits, s.book, r, q.status);
      var b := EndSingle(s.book, r, q.status);
      EndInv(cfg, s, r, b, None);
      State(core, b, s.live)
    case Sibling(c) =>
      EndSiblingOk(cfg.limits, s.book, r, q.status, q.userLen);
      var b := EndSibling(s.book, r, q.status, q.userLen);
      EndInv(cfg, s, r, b, Some(c));
      EndSiblingBound(cfg, s.book, r, q.status, q.userLen);
      Refill(cfg, env, State(core, b, s.live), c)
  }

  /** The end of a sibling, up to the refill. */
  lemma SiblingEnd(cfg: Config, env: Env, s: State, r: nat) returns (s1: State, c: nat)
    requires Inv(cfg, s, Some(r), None, None, {}) && r in s.core.reqs && r in s.book.parents
    requires s.book.parents[r].Sibling?
    ensures c == s.book.parents[r].ctx && c in s.book.ctxs
    ensures s1 == State(Retire(s.core, r), EndSibling(s.book, r, s.core.reqs[r].status, s.core.reqs[r].userLen), s.live)
    ensures Inv(cfg, s1, None, Some(c), None, {}) && c in s1.book.ctxs && !s1.book.ctxs[c].stalled
    ensures s1.book.ctxs[c].dispatched <= s1.book.ctxs[c].job.total
    ensures EndReq(cfg, env, s, r) == Refill(cfg, env, s1, c)
  {
    var q := s.core.reqs[r];
    hide CoreOk, BookOk, IdsOk, Retire, EndSingle, EndSibling, SibsCapped, TilesWired, WireIds, Refill;
    c := s.book.parents[r].ctx;
    EndFrame(cfg, s.book, r, q.status, q.userLen);
    EndWired(s.core.wire, s.book, r, q.status, q.userLen);
    EndSiblingOk(cfg.limits, s.book, r, q.status, q.userLen);
    var b := EndSibling(s.book, r, q.status, q.userLen);
    EndInv(cfg, s, r, b, Some(c));
    EndSiblingBound(cfg, s.book, r, q.status, q.userLen);
    hide Inv;
    s1 := State(Retire(s.core, r), b, s.live);
  }

  lemma SingleEnd(cfg: Config, env: Env, s: State, r: nat)
    requires Inv(cfg, s, Some(r), None, None, {}) && r in s.core.reqs && r in s.book.parents
    requires s.book.parents[r].Single?
    ensures EndReq(cfg, env, s, r)
            == State(Retire(s.core, r), EndSingle(s.book, r, s.core.reqs[r].status), s.live)
  {
    hide Inv, Retire, EndSingle, EndSibling, Refill;
  }

  lemma EndFrame(cfg: Config, b: Book, r: nat, status: nat, userLen: nat)
    requires BookOk(cfg.limits, b, None, None) && r in b.parents
    ensures var b' := if b.parents[r].Single? then EndSingle(b, r, status)
                      else assert b.parents[r].ctx in b.ctxs; EndSibling(b, r, status, userLen);
            && b'.parents == b.parents - {r} && b'.lost == b.lost && b'.nextIo == b.nextIo
            && b'.done.Keys == b.done.Keys + {r}
            && (b.parents[r].Sibling? ==> b.parents[r].ctx in b'.ctxs && b.parents[r].ctx in b.ctxs)
            && (SibsCapped(cfg, b) ==> SibsCapped(cfg, b'))
  {
  }

  lemma EndSiblingBound(cfg: Config, b: Book, r: nat, status: nat, userLen: nat)
    requires BookOk(cfg.limits, b, None, None) && r in b.parents && b.parents[r].Sibling?
    ensures b.parents[r].ctx in b.ctxs
    ensures var k := EndSibling(b, r, status, userLen).ctxs[b.parents[r].ctx]; k.dispatched <= k.job.total
  {
    assert CtxOk(cfg.limits, b, b.parents[r].ctx, None);
  }

  // ------------------------------------------------------------------ retry

  predicate RetryWorthy(q: Req) {
    && q.status != 0
    && !q.cancelled
    && q.status / 0x4000 % 2 == 0                 // DNR
    && q.retries < MAX_RETRIES
    && !(q.status / 0x100 % 8 == 0 && q.status % 0x100 != 0)   // generic errors repeat themselves
  }

  /** Command Retry Delay selector. */
  function Crd(status: nat): nat { status / 0x800 % 4 }

  /** A completed request has left its slot; the retry list may have gained it. */
  ghost predicate Settled(cfg: Config, s: State, r: nat, s': State) {
    && Rest(cfg, s') && s'.live == s.live && Depth(s'.core) == Depth(s.core) && Spares(s.core.reqs, s'.core.reqs, r)
    && (s'.core.retryList == s.core.retryList || s'.core.retryList == s.core.retryList + [r])
    && LosesAtMost(s.book, r, s'.book)
  }

  /** No IOStdReq arrives, and of the lost requests on record none goes; at most
      `r` joins them. */
  ghost predicate LosesAtMost(b: Book, r: nat, b': Book) {
    && b'.nextIo == b.nextIo
    && (b'.lost == b.lost || (r in b.parents && b'.lost == b.lost[r := b.parents[r]]))
  }

  /** A lost request stays lost. */
  ghost predicate LostStays(b: Book, b': Book) {
    forall x :: x in b.lost ==> x in b'.lost && b'.lost[x] == b.lost[x]
  }

  /** No IOStdReq arrives and the lost requests on record stay. */
  ghost predicate KeepsLost(b: Book, b': Book) {
    b'.nextIo == b.nextIo && LostStays(b, b')
  }

  ghost predicate Handling(cfg: Config, s: State, r: nat) {
    Whole(Inv(cfg, s, Some(r), None, None, {}) && r in s.core.reqs && r in s.book.parents
          && s.core.reqs[r].retries <= MAX_RETRIES)
  }

  /** nvme_complete_rq. */
  function Complete(cfg: Config, env: Env, s: State, r: nat): (s': State)
    requires r in s.core.reqs && Handling(cfg, s, r)
    ensures Settled(cfg, s, r, s')
    decreases 5 - s.core.reqs[r].retries, 2
  {
    if RetryWorthy(s.core.reqs[r]) then Retry(cfg, env, s, r)
    else EndReq(cfg, env, s, r)
  }

  /** nvme_retry_req. */
  function Retry(cfg: Config, env: Env, s: State, r: nat): (s': State)
    requires r in s.core.reqs && s.core.reqs[r].retries < MAX_RETRIES && Handling(cfg, s, r)
    ensures Settled(cfg, s, r, s')
    decreases 5 - s.core.reqs[r].retries, 1
  {
    hide Handling, Rest, Inv, Settled, Nudged;
    var s1 := s.(core := Bump(s.core, r));
    BumpInv(cfg, s, r);
    if Crd(s.core.reqs[r].status) != 0 then ParkForDelay(cfg, env, s, r)
    else
      var s2 := Resubmit(cfg, env, s1, r);
      SettledVia(cfg, s, s1, r, s2);
      s2
  }

  /** The 32-bit clock `delay` microseconds after `now`. */
  function Later(now: nat, delay: nat): nat { (now + delay) % U32 }

  /** The branch of nvme_retry_req that honours a Command Retry Delay. */
  function ParkForDelay(cfg: Config, env: Env, s: State, r: nat): (s': State)
    requires r in s.core.reqs && s.core.reqs[r].retries < MAX_RETRIES && Crd(s.core.reqs[r].status) != 0
    requires Handling(cfg, s, r)
    ensures Settled(cfg, s, r, s')
  {
    hide Handling, Rest, Inv, Settled, Park, Nudged;
    BumpInv(cfg, s, r);
    var s1 := s.(core := Bump(s.core, r));
    var delay := cfg.crdt[Crd(s.core.reqs[r].status) - 1] * 100 * 1000;
    var deadline := Later(env.now(s.core.clock), delay);
    ParkInv(cfg, s1, r, deadline);
    var s2 := s1.(core := Park(s1.core, r, deadline));
    SettledVia(cfg, s, s1, r, s2);
    s2
  }

  /** Only request `r`'s record differs. */
  ghost predicate Nudged(s: State, s1: State, r: nat) {
    && s1.live == s.live && s1.core.retryList == s.core.retryList && Depth(s1.core) == Depth(s.core)
    && Spares(s.core.reqs, s1.core.reqs, r) && s1.book == s.book
  }

  lemma SettledVia(cfg: Config, s: State, s1: State, r: nat, s2: State)
    ensures Nudged(s, s1, r) && Settled(cfg, s1, r, s2) ==> Settled(cfg, s, r, s2)
  {
    hide Rest;
  }

  lemma BumpInv(cfg: Config, s: State, r: nat)
    requires r in s.core.reqs && s.core.reqs[r].retries < MAX_RETRIES && Handling(cfg, s, r)
    ensures var s1 := s.(core := Bump(s.core, r));
            && Handling(cfg, s1, r) && r in s1.core.reqs && Writes(s1.core.sq, r) <= s1.core.reqs[r].retries
            && CfgOk(cfg)
            && Nudged(s, s1, r)
  {
    hide CoreOk, BookOk, IdsOk, WireOk;
    BumpOk(s.core, r);
    KeepIds(s, s.(core := Bump(s.core, r)));
    WireCore(s, s.(core := Bump(s.core, r)));
  }

  lemma ParkInv(cfg: Config, s: State, r: nat, deadline: nat)
    requires r in s.core.reqs && Writes(s.core.sq, r) <= s.core.reqs[r].retries && Handling(cfg, s, r)
    ensures Settled(cfg, s, r, s.(core := Park(s.core, r, deadline)))
  {
    hide CoreOk, BookOk, IdsOk, WireOk;
    ParkOk(s.core, r, deadline);
    KeepIds(s, s.(core := Park(s.core, r, deadline)));
    WireCore(s, s.(core := Park(s.core, r, deadline)));
  }

  /** nvme_resubmit_io.  A refusal by the full ring destroys the request and its
      result is ignored by both callers: the request is lost. */
  function Resubmit(cfg: Config, env: Env, s: State, r: nat): (s': State)
    requires r in s.core.reqs && Writes(s.core.sq, r) <= s.core.reqs[r].retries && Handling(cfg, s, r)
    ensures Settled(cfg, s, r, s')
    decreases 5 - s.core.reqs[r].retries, 3
  {
    HandlingCore(cfg, s, r);
    hide Handling, Rest, Inv, Settled, CoreOk, Nudged;
    if |s.core.pool.free| == 0 then
      var s1 := s.(core := SetStatus(s.core, r, SC_HOST_PATH_ERROR, false));
      SetStatusInv(cfg, s, r, SC_HOST_PATH_ERROR, false);
      var s2 := Complete(cfg, env, s1, r);
      SettledVia(cfg, s, s1, r, s2);
      s2
    else
      var (core, err) := Relaunch(s.core, r);
      RelaunchInv(cfg, s, r, core, err);
      State(core, if err == ASYNC then s.book else Lose(s.book, r), s.live)
  }

  lemma HandlingCore(cfg: Config, s: State, r: nat)
    requires Handling(cfg, s, r)
    ensures CoreOk(s.core, Some(r), {})
  {
  }

  lemma SetStatusInv(cfg: Config, s: State, r: nat, status: nat, cancelled: bool)
    requires Handling(cfg, s, r)
    ensures Handling(cfg, s.(core := SetStatus(s.core, r, status, cancelled)), r)
    ensures Nudged(s, s.(core := SetStatus(s.core, r, status, cancelled)), r)
  {
    hide CoreOk, BookOk, IdsOk, WireOk;
    SetStatusOk(s.core, r, status, cancelled, Some(r));
    KeepIds(s, s.(core := SetStatus(s.core, r, status, cancelled)));
    WireCore(s, s.(core := SetStatus(s.core, r, status, cancelled)));
  }

  /** The ring took the request's command again, or refused it and the request
      was destroyed. */
  ghost predicate Resent(k: Core, r: nat, k': Core, err: int) {
    && r in k.reqs
    && CoreOk(k', None, {}) && k'.retryList == k.retryList && k'.nextReq == k.nextReq && Depth(k') == Depth(k)
    && Spares(k.reqs, k'.reqs, r)
    && (err == ASYNC || err == IOERR_UNITBUSY || err == IOERR_BADADDRESS)
    && (err == ASYNC <==> !RingRefuses(k))
    && k'.sqUp == k.sqUp && k'.cqHead == k.cqHead
    && k'.sqTail == (if err == ASYNC then (k.sqTail + 1) % Depth(k) else k.sqTail)
    && k'.reqs.Keys == (if err == ASYNC then k.reqs.Keys else k.reqs.Keys - {r})
    && k'.sq == (if err == ASYNC then k.sq + [r] else k.sq)
    && (err == ASYNC ==> k'.reqs[r].sqe == k.reqs[r].sqe)
    && k'.wire == (if err == ASYNC then k.wire[r := Entry(k'.reqs[r].cid, k.reqs[r].sqe)] else k.wire)
  }

  /** The same, one tag later: a resubmission is back in the ring with its command
      under a fresh tag exactly when the ring does not refuse it. */
  ghost predicate Relaunched(k: Core, r: nat, k': Core, err: int) {
    Resent(k, r, k', err) && k'.pool.count == if err == ASYNC then k.pool.count + 1 else k.pool.count
  }

  /** The transport of a resubmission: a fresh tag, then the ring. */
  function Relaunch(k: Core, r: nat): (res: (Core, int))
    requires r in k.reqs && |k.pool.free| > 0 && Writes(k.sq, r) <= k.reqs[r].retries && CoreOk(k, Some(r), {})
    ensures Relaunched(k, r, res.0, res.1)
  {
    RetagOk(k, r);
    var k1 := Retag(k, r);
    CoreShape(k1);
    hide CoreOk, Retag, Relaunched, Resent;
    ResendOk(k1, r);
    RelaunchedVia(k, r, k1, SubmitIo(k1, r).0, SubmitIo(k1, r).1);
    SubmitIo(k1, r)
  }

  lemma RelaunchedVia(k: Core, r: nat, k1: Core, k2: Core, err: int)
    requires r in k.reqs && r in k1.reqs && k1 == k.(pool := k1.pool, reqs := k.reqs[r := k1.reqs[r]])
    requires k1.reqs[r].sqe == k.reqs[r].sqe && |k1.pool.table| == |k.pool.table| && Resent(k1, r, k2, err)
    requires k1.pool.count == k.pool.count + 1
             && k2.pool.count == if err == ASYNC then k1.pool.count else k1.pool.count - 1
    ensures Relaunched(k, r, k2, err)
  {
    hide CoreOk;
  }

  lemma ResendOk(k: Core, r: nat)
    requires Shape(k.pool) && r in k.reqs && r !in k.retryList
    requires k.reqs[r].cid.tag < |k.pool.table| && Writes(k.sq, r) <= k.reqs[r].retries
    requires CoreOk(k, None, {})
    ensures var (k', err) := SubmitIo(k, r);
            Resent(k, r, k', err) && k'.pool.count == if err == ASYNC then k.pool.count else k.pool.count - 1
  {
    hide CoreOk, Destroy, RingRefuses;
    SubmitIoOk(k, r);
    DestroyOk(k, r, {});
  }

  lemma RelaunchWires(s: State, r: nat, core: Core, err: int)
    requires r in s.core.reqs && r < s.core.nextReq && WireOk(s) && Relaunched(s.core, r, core, err)
    ensures WireIds(core) && TilesWired(core.wire, s.book)
  {
    hide CoreOk, TilesWired;
    assert Grows(s.core.wire, core.wire);
    TilesGrow(s.core.wire, core.wire, s.book);
  }

  lemma LoseWired(w: map<nat, Entry>, b: Book, r: nat)
    requires TilesWired(w, b) && r in b.parents
    ensures TilesWired(w, Lose(b, r))
  {
    hide Wired;
  }

  lemma RelaunchInv(cfg: Config, s: State, r: nat, core: Core, err: int)
    requires r in s.core.reqs && Handling(cfg, s, r) && Relaunched(s.core, r, core, err)
    ensures Settled(cfg, s, r, State(core, if err == ASYNC then s.book else Lose(s.book, r), s.live))
  {
    hide BookOk, CoreOk, SibsCapped, TilesWired, WireIds;
    HandId(s.core, r);
    RelaunchWires(s, r, core, err);
    LoseWired(core.wire, s.book, r);
    CappedSame(cfg, s.book, Lose(s.book, r));
    LoseOk(cfg.limits, s.book, r);
  }

  lemma CoreShape(k: Core)
    requires CoreOk(k, None, {})
    ensures Shape(k.pool)
  {
  }

  // --------------------------------------------------------------- dispatch

  /** Dispatch of IOStdReq `io` ended: held by the completion path on ASYNC,
      still with the unit task on an error. */
  ghost predicate Dispatched(cfg: Config, s: State, io: nat, s': State, rc: int) {
    && Inv(cfg, s', None, None, if rc == ASYNC then None else Some(io), {})
    && (rc != ASYNC ==> rc < 0)
    && s'.core.pool.count >= s.core.pool.count
    && s'.core.retryList == s.core.retryList && s'.live == s.live
    && s'.book.nextIo == s.book.nextIo && s'.book.lost == s.book.lost
  }

  ghost predicate Dispatching(cfg: Config, s: State, io: nat) {
    Inv(cfg, s, None, None, Some(io), {})
  }

  /** A job one command carries whole. */
  ghost predicate OneShot(cfg: Config, job: Job) {
    IsData(job.op) ==> JobOk(cfg.limits, job) && job.total > 0
                       && NextBytes(cfg.limits, job.unit, job.op, job.lba, job.total) == job.total
  }

  lemma SingleTile(cfg: Config, p: Parent, r: nat)
    requires p.Single? && OneShot(cfg, p.job) && p.tile == Tile(r, 0, p.job.total, p.job.lba)
    ensures SingleOk(cfg.limits, r, p)
  {
    hide NextBytes, Aligned;
    assert [p.tile][..0] == [];
    assert End([]) == 0 && 0 / BlockSize(p.job.unit.shift) == 0;
    assert TileAt(cfg.limits, p.job, 0, p.tile) || !IsData(p.job.op);
    assert Tiling(cfg.limits, p.job, []);
  }

  lemma SingleSent(cfg: Config, s: State, io: nat, p: Parent, core: Core)
    requires p.Single? && p.io == io && OneShot(cfg, p.job)
    requires p.tile == Tile(s.core.nextReq, 0, p.job.total, p.job.lba)
    requires Launched(s.core, core, SqeOf(p.job, p.tile)) && Dispatching(cfg, s, io)
    ensures Dispatched(cfg, s, io, State(core, AddSingle(s.book, s.core.nextReq, p), s.live), ASYNC)
  {
    hide BookOk, CoreOk, SingleOk, OneShot, IdsOk, AddSingle, SibsCapped, TilesWired, WireOk;
    FreshId(cfg, s, None, Some(io), {});
    hide Fresh;
    var r := s.core.nextReq;
    SingleTile(cfg, p, r);
    AddSingleOk(cfg.limits, s.book, r, p);
    AddSingleFrame(s.book, r, p);
    CappedSame(cfg, s.book, AddSingle(s.book, r, p));
    LaunchWires(s, core, p.job, p.tile);
    SingleWired(core.wire, s.book, r, p);
    SingleInv(cfg, s, State(core, AddSingle(s.book, r, p), s.live), io, SqeOf(p.job, p.tile));
  }

  lemma SingleInv(cfg: Config, s: State, s': State, io: nat, sqe: Sqe)
    requires Inv(cfg, s, None, None, Some(io), {}) && Launched(s.core, s'.core, sqe)
    requires BookOk(cfg.limits, s'.book, None, None) && TilesWired(s'.core.wire, s'.book) && SibsCapped(cfg, s'.book)
    requires s'.book.parents.Keys == s.book.parents.Keys + {s.core.nextReq}
    requires s'.book.done == s.book.done && s'.book.lost == s.book.lost
    ensures Inv(cfg, s', None, None, None, {})
  {
    hide CoreOk, BookOk, TilesWired, SibsCapped, NlbFits;
  }

  lemma AddSingleFrame(b: Book, r: nat, p: Parent)
    requires p.Single?
    ensures var b' := AddSingle(b, r, p);
            && b'.parents.Keys == b.parents.Keys + {r} && b'.done == b.done && b'.lost == b.lost
            && b'.nextIo == b.nextIo && b'.ctxs == b.ctxs
  {
  }

  lemma SingleSpent(cfg: Config, s: State, io: nat, core: Core, err: int)
    requires Dispatching(cfg, s, io) && Spent(s.core, core, {}) && err < 0
    ensures Dispatched(cfg, s, io, s.(core := core), err)
  {
    hide BookOk, CoreOk;
  }

  lemma WholeSendable(cfg: Config, job: Job, t: Tile)
    requires OneShot(cfg, job) && t.len == job.total
    ensures Sendable(SqeOf(job, t), job.bufOff)
  {
    hide RwCap, IsPow2;
    if IsData(job.op) {
      var bs := BlockSize(job.unit.shift);
      BlocksIn(job.total, bs);
      hide BlockSize;
    }
  }

  /** The one chunk of a job that is not cut up. */
  function WholeTile(r: nat, job: Job): Tile { Tile(r, 0, job.total, job.lba) }

  /** The single-shot path of the public dispatchers. */
  function SingleShot(cfg: Config, env: Env, s: State, io: nat, job: Job): (res: (State, int))
    requires Dispatching(cfg, s, io) && OneShot(cfg, job) && CoreOk(s.core, None, {})
    ensures Dispatched(cfg, s, io, res.0, res.1)
  {
    hide Dispatching, Dispatched, CoreOk, OneShot, Launched, Spent, Sendable;
    var r := s.core.nextReq;
    var p := Single(io, job, WholeTile(r, job));
    WholeSendable(cfg, job, p.tile);
    var (core, turn) := TryCommand(env, s.core, s.live, SqeOf(job, p.tile), job.bufOff);
    if turn == Sent then
      SingleSent(cfg, s, io, p, core);
      (State(core, AddSingle(s.book, r, p), s.live), ASYNC)
    else
      SingleSpent(cfg, s, io, core, turn.err);
      (s.(core := core), turn.err)
  }

  /** An allocator has been asked. */
  function Asked(k: Core): Core { k.(clock := k.clock + 1) }

  /** ... and has given a context for `io`. */
  function Opened(s: State, io: nat, job: Job): State {
    State(Asked(s.core), NewCtx(s.book, io, job), s.live)
  }

  lemma CtxReady(cfg: Config, s: State, io: nat, job: Job)
    requires Dispatching(cfg, s, io) && JobOk(cfg.limits, job) && IsData(job.op) && job.total > 0
    ensures Pumpable(cfg, Opened(s, io, job), s.book.nextCtx)
  {
    hide BookOk, CoreOk;
    NewCtxOk(cfg.limits, s.book, io, job);
    AskedOk(s.core);
  }

  lemma AskedOk(k: Core)
    requires CoreOk(k, None, {})
    ensures CoreOk(Asked(k), None, {}) && Spent(k, Asked(k), {}) && Spent(k, k, {})
  {
    var k' := Asked(k);
    assert TableOk(k', None);
    assert SqOk(k');
  }

  lemma OpenedFrame(s: State, io: nat, job: Job)
    ensures var s1 := Opened(s, io, job);
            && s1.live == s.live && s1.core.retryList == s.core.retryList && s1.core.pool == s.core.pool
            && s1.book.nextIo == s.book.nextIo && s1.book.lost == s.book.lost
            && var c := s.book.nextCtx;
            c in s1.book.ctxs && s1.book.ctxs[c].io == io && s1.book.ctxs[c].dispatched == 0
            && s1.book.ctxs[c].job == job
  {
  }

  lemma CtxFailed(cfg: Config, s: State, io: nat, s1: State, c: nat, s2: State, rc: int)
    requires c in s1.book.ctxs && s1.book.ctxs[c].io == io && Pumped(cfg, s1, c, s2, rc) && rc != ASYNC
    requires s1.live == s.live && s1.core.retryList == s.core.retryList && s1.core.pool.count == s.core.pool.count
    requires s1.book.nextIo == s.book.nextIo && s1.book.lost == s.book.lost
    ensures Dispatched(cfg, s, io, s2.(book := DropCtx(s2.book, c)), rc)
  {
    hide BookOk, CoreOk;
    DropCtxOk(cfg.limits, s2.book, c);
  }

  lemma CtxHeld(cfg: Config, s: State, io: nat, s1: State, c: nat, s2: State)
    requires c in s1.book.ctxs && Pumped(cfg, s1, c, s2, ASYNC)
    requires s1.book.ctxs[c].dispatched < s1.book.ctxs[c].job.total
    requires s1.live == s.live && s1.core.retryList == s.core.retryList && s1.core.pool.count == s.core.pool.count
    requires s1.book.nextIo == s.book.nextIo && s1.book.lost == s.book.lost
    ensures Dispatched(cfg, s, io, s2, ASYNC)
  {
    hide BookOk, CoreOk;
    CoolInv(cfg, s2, c);
  }

  /** The multi-chunk path: a parent context and its first pump. */
  function MultiShot(cfg: Config, env: Env, s: State, io: nat, job: Job): (res: (State, int))
    requires Dispatching(cfg, s, io) && JobOk(cfg.limits, job) && IsData(job.op) && job.total > 0
    ensures Dispatched(cfg, s, io, res.0, res.1)
  {
    DispatchingCore(cfg, s, io);
    hide Inv, Dispatching, Dispatched, Pumpable, Pumped, CoreOk, Spent, JobOk, Asked, Opened, NewCtx;
    AskedOk(s.core);
    if !s.live then SingleSpent(cfg, s, io, s.core, IOERR_UNITBUSY); (s, IOERR_UNITBUSY)
    else if !env.grant(s.core.clock) then
      SingleSpent(cfg, s, io, Asked(s.core), IOERR_SELFTEST);
      (s.(core := Asked(s.core)), IOERR_SELFTEST)
    else
      var c := s.book.nextCtx;
      var s1 := Opened(s, io, job);
      OpenedFrame(s, io, job);
      CtxReady(cfg, s, io, job);
      var (s2, rc) := Pump(cfg, env, s1, c);
      PumpedHas(cfg, s1, c, s2, rc);
      if rc != ASYNC then
        CtxFailed(cfg, s, io, s1, c, s2, rc);
        (s2.(book := DropCtx(s2.book, c)), rc)
      else
        CtxHeld(cfg, s, io, s1, c, s2);
        (s2, ASYNC)
  }

  lemma PumpedHas(cfg: Config, s: State, c: nat, s': State, rc: int)
    requires Pumped(cfg, s, c, s', rc)
    ensures c in s'.book.ctxs
  {
  }

  // ------------------------------------------------ Dataset Management (TRIM)

  const DSM_MAX_RANGES: nat := 256

  /** The caller's zeroed range buffer, not yet anybody's. */
  function AllocRanges(k: Core): Core {
    k.(clock := k.clock + 1, mem := Malloc(k.mem, DmaPool, 0))
  }

  lemma MemLend(m: Mem, reqs: map<nat, Req>)
    requires MemOk(m, reqs, {})
    ensures MemOk(Malloc(m, DmaPool, 0), reqs, {m.next})
  {
    forall r | r in reqs ensures ReqMem(Malloc(m, DmaPool, 0), r, reqs[r]) && Blocks(reqs[r]) !! {m.next} {
      assert ReqMem(m, r, reqs[r]);
    }
  }

  lemma MemReturn(m: Mem, reqs: map<nat, Req>, a: nat)
    requires MemOk(m, reqs, {a})
    ensures MemOk(Free(m, a, DmaPool), reqs, {})
  {
    forall r | r in reqs ensures ReqMem(Free(m, a, DmaPool), r, reqs[r]) {
      assert ReqMem(m, r, reqs[r]) && a !in Blocks(reqs[r]);
    }
  }

  lemma AllocRangesOk(k: Core)
    requires CoreOk(k, None, {})
    ensures CoreOk(AllocRanges(k), None, {k.mem.next})
  {
    hide TableOk, SqOk, MemOk;
    MemOnly(k, AllocRanges(k));
    MemLend(k.mem, k.reqs);
  }

  /** dma_free of a range buffer no request owns. */
  function FreeRanges(k: Core, a: nat): Core { k.(mem := Free(k.mem, a, DmaPool)) }

  lemma FreeRangesOk(k: Core, a: nat)
    requires CoreOk(k, None, {a})
    ensures CoreOk(FreeRanges(k, a), None, {})
  {
    hide TableOk, SqOk, MemOk;
    MemOnly(k, FreeRanges(k, a));
    MemReturn(k.mem, k.reqs, a);
  }

  /** The range buffer goes back and nothing else happened. */
  lemma DsmSpent(k: Core, k1: Core, a: nat)
    requires a == k.mem.next && Spent(AllocRanges(k), k1, {a})
    ensures Spent(k, FreeRanges(k1, a), {})
  {
    FreeRangesOk(k1, a);
    hide CoreOk;
  }

  /** The request owns the range buffer from nvme_setup_dsm on. */
  lemma DsmOwned(k1: Core, r: nat, a: nat)
    requires r in k1.reqs && CoreOk(k1, None, {a})
    requires var q := k1.reqs[r]; q.pages == [] && q.bounce.None? && !q.prpSlab && q.cid.tag < |k1.pool.table|
    ensures var k2 := SetupDsm(k1, r, a);
            && CoreOk(k2, None, {}) && OnlyReq(k1, k2, r) && Shape(k2.pool)
            && r in k2.reqs && k2.reqs[r].cid.tag < |k2.pool.table|
  {
    hide CoreOk;
    SetupDsmOk(k1, r, a);
    CoreShape(SetupDsm(k1, r, a));
  }

  lemma DsmLaunch(k: Core, k1: Core, k2: Core)
    requires CoreOk(k2, None, {}) && k.nextReq in k2.reqs && Shape(k2.pool)
             && k2.reqs[k.nextReq].cid.tag < |k2.pool.table|
    requires Allocated(AllocRanges(k), k1) && OnlyReq(k1, k2, k.nextReq) && NlbFits(k2.reqs[k.nextReq].sqe)
    ensures var (k3, err) := SubmitIo(k2, k.nextReq);
            if err == ASYNC then Launched(k, k3, k2.reqs[k.nextReq].sqe)
            else (err == IOERR_UNITBUSY || err == IOERR_BADADDRESS) && Spent(k, k3, {})
  {
    hide CoreOk, SubmitIo, Destroy;
    DestroySpent(AllocRanges(k), k1, k2, {});
    SubmitLaunched(AllocRanges(k), k1, k2);
  }

  /** nvme_io_submit_dsm with the range buffer `k.mem.next` its caller
      allocated; on every error return the buffer goes back to the pool. */
  function TryDsm(env: Env, k: Core, ready: bool, sqe: Sqe): (y: (Core, Turn))
    requires CoreOk(k, None, {}) && sqe.op.Trim?
    ensures if y.1 == Sent then Launched(k, y.0, sqe) else Spent(k, y.0, {})
    ensures !y.1.Sent? ==> y.1.err < 0
  {
    AllocRangesOk(k);
    var a, k0 := k.mem.next, AllocRanges(k);
    assert k0.nextReq == k.nextReq;
    hide CoreOk, Destroy, SubmitIo, SetupDsm, FreeRanges, AllocRanges, Launched, Spent, Allocated;
    LooseShape(k0, a);
    AllocIoAllocated(env, k0, {a});
    match AllocIo(env, k0)
    case Refused(k1, err) =>
      DsmSpent(k, k1, a);
      (FreeRanges(k1, a), Pressure(err))
    case Got(kg, r) =>
      LooseShape(kg, a);
      OnlyReqSelf(kg, r);
      DestroySpent(k0, kg, kg, {a});
      DsmSpent(k, Destroy(kg, r), a);
      if !ready || |sqe.op.ranges| == 0 || |sqe.op.ranges| > DSM_MAX_RANGES then
        (FreeRanges(Destroy(kg, r), a), Fault(if !ready then IOERR_UNITBUSY else IOERR_SELFTEST))
      else SendDsm(k, kg, sqe)
  }

  /** Setup and submission of a Dataset Management command: the request `kg` has
      for it takes over the range buffer. */
  function SendDsm(k: Core, kg: Core, sqe: Sqe): (y: (Core, Turn))
    requires sqe.op.Trim? && k.nextReq in kg.reqs
    requires var q := kg.reqs[k.nextReq]; q.pages == [] && q.bounce.None? && !q.prpSlab && q.cid.tag < |kg.pool.table|
    requires Allocated(AllocRanges(k), kg) && CoreOk(kg, None, {k.mem.next})
    ensures if y.1 == Sent then Launched(k, y.0, sqe) else Spent(k, y.0, {})
    ensures !y.1.Sent? ==> y.1.err < 0
  {
    hide CoreOk, Destroy, SubmitIo, SetupDsm, AllocRanges, Launched, Spent, Allocated;
    var a, r := k.mem.next, k.nextReq;
    AllocRangesNext(k);
    CommandSet(AllocRanges(k), kg, sqe, {a});
    var k1 := SetSqe(kg, r, sqe);
    DsmOwned(k1, r, a);
    var k2 := SetupDsm(k1, r, a);
    DsmLaunch(k, k1, k2);
    var (k3, err) := SubmitIo(k2, r);
    (k3, if err == ASYNC then Sent else if err == IOERR_UNITBUSY then Pressure(err) else Fault(err))
  }

  lemma AllocRangesNext(k: Core)
    ensures AllocRanges(k).nextReq == k.nextReq
  {
  }

  lemma LooseShape(k: Core, a: nat)
    requires CoreOk(k, None, {a})
    ensures Shape(k.pool)
  {
  }

  // ---------------------------------------------------------- unit commands

  /** A client command as ProcessCommand hands it to a dispatcher.  `length` is
      the IOStdReq's own io_Length. */
  datatype Cmd =
    | RwCmd(unit: Unit, write: bool, lba: nat, blocks: nat, nullBuf: bool, bufOff: nat, length: nat, trackdisk: bool)
    | FlushCmd(unit: Unit, length: nat)
    | ZeroesCmd(unit: Unit, lba: nat, blocks: nat, length: nat)
    | TrimCmd(unit: Unit, ranges: seq<Range>, length: nat)

  /** What the callers guarantee.  Limits are as Identify sets them
      (Chunk.IdentifyAligned, Chunk.ZeroesChunkNlb); a byte count fits 32 bits and
      trackdisk blocks are whole blocks of io_Length (Lba.TrackdiskNoWrap,
      Lba.ScsiNoWrap); the buffer lies in the 32-bit address space. */
  ghost predicate CmdOk(cfg: Config, cmd: Cmd) {
    && Aligned(cfg.limits, cmd.unit)
    && (cmd.RwCmd? || cmd.ZeroesCmd? ==> cmd.blocks * BlockSize(cmd.unit.shift) < U32)
    && (cmd.RwCmd? ==> cmd.bufOff < PAGE && cmd.bufOff + cmd.blocks * BlockSize(cmd.unit.shift) <= U32)
    && (cmd.ZeroesCmd? || (cmd.RwCmd? && cmd.trackdisk) ==> cmd.blocks == cmd.length / BlockSize(cmd.unit.shift))
    && (cmd.ZeroesCmd? ==> cfg.maxZeroes == 0 || cmd.unit.wzMax > 0)
  }

  predicate OutOfRange(u: Unit, lba: nat, blocks: nat) {
    u.logicalSectors > 0 && (lba + blocks) % U64 > u.logicalSectors
  }

  /** The range check of a TRIM, entry by entry. */
  predicate RangesIn(u: Unit, ranges: seq<Range>) {
    forall i :: 0 <= i < |ranges| ==>
      ranges[i].blocks != 0 && !OutOfRange(u, ranges[i].lba, ranges[i].blocks)
  }

  lemma RefusedNow(cfg: Config, s: State, io: nat, err: int)
    requires Dispatching(cfg, s, io) && err < 0
    ensures Dispatched(cfg, s, io, s, err)
  {
  }

  lemma JobFits(cfg: Config, job: Job, blocks: nat)
    requires Aligned(cfg.limits, job.unit) && job.total == blocks * BlockSize(job.unit.shift) < U32
    requires job.bufOff < PAGE && job.bufOff + job.total <= U32 && (job.op.Zeroes? ==> job.unit.wzMax > 0)
    requires job.trackdisk ==> blocks == job.ioLength / BlockSize(job.unit.shift)
    ensures JobOk(cfg.limits, job)
    ensures IsData(job.op) && job.total > 0
            && (Cap(cfg.limits, job.unit, job.op, job.lba) == 0
                || job.total <= Cap(cfg.limits, job.unit, job.op, job.lba))
            ==> OneShot(cfg, job)
  {
    hide RwCap;
    ModOfMul(blocks, BlockSize(job.unit.shift));
    assert job.ioLength == job.ioLength / BlockSize(job.unit.shift) * BlockSize(job.unit.shift)
                            + job.ioLength % BlockSize(job.unit.shift);
  }

  lemma DispatchingCore(cfg: Config, s: State, io: nat)
    requires Dispatching(cfg, s, io)
    ensures CoreOk(s.core, None, {})
  {
  }

  /** nvme_io_submit_rw. */
  function SubmitRw(cfg: Config, env: Env, s: State, io: nat, cmd: Cmd): (res: (State, int))
    requires cmd.RwCmd? && CmdOk(cfg, cmd) && Dispatching(cfg, s, io)
    ensures Dispatched(cfg, s, io, res.0, res.1)
  {
    var op := if cmd.write then Write else Read;
    var bytes := cmd.blocks * BlockSize(cmd.unit.shift) % U32;
    var cap := RwCap(cfg.limits, cmd.unit.shift, cmd.lba);
    var job := Job(cmd.unit, op, cmd.lba, bytes, cmd.bufOff, cmd.length, cmd.trackdisk);
    JobFits(cfg, job, cmd.blocks);
    hide Inv, Dispatching, Dispatched, JobOk, OneShot, RwCap;
    RefusedNow(cfg, s, io, IOERR_BADLENGTH);
    RefusedNow(cfg, s, io, IOERR_BADADDRESS);
    if bytes == 0 then (s, IOERR_BADLENGTH)
    else if cmd.nullBuf || OutOfRange(cmd.unit, cmd.lba, cmd.blocks) then (s, IOERR_BADADDRESS)
    else if cap == 0 || bytes <= cap then
      DispatchingCore(cfg, s, io);
      SingleShot(cfg, env, s, io, job)
    else MultiShot(cfg, env, s, io, job)
  }

  /** The job of a command without data of its own. */
  function Dataless(unit: Unit, op: Op, length: nat): Job { Job(unit, op, 0, 0, 0, length, false) }

  lemma DsmJob(cfg: Config, job: Job)
    requires job.op.Trim? || job.op.Flush?
    ensures OneShot(cfg, job)
  {
  }

  /** Allocate the range buffer, check the ranges, nvme_io_submit_dsm. */
  function SubmitTrim(cfg: Config, env: Env, s: State, io: nat, unit: Unit, ranges: seq<Range>, ok: bool, length: nat)
    : (res: (State, int))
    requires Dispatching(cfg, s, io)
    ensures Dispatched(cfg, s, io, res.0, res.1)
  {
    var job := Dataless(unit, Trim(ranges), length);
    DsmJob(cfg, job);
    DispatchingCore(cfg, s, io);
    hide Inv, Dispatching, Dispatched, CoreOk, Launched, Spent, OneShot, Asked;
    AskedOk(s.core);
    if !env.grant(s.core.clock) then
      SingleSpent(cfg, s, io, Asked(s.core), IOERR_SELFTEST);
      (s.(core := Asked(s.core)), IOERR_SELFTEST)
    else if !ok then
      var back := FreeRanges(AllocRanges(s.core), s.core.mem.next);
      RangesBack(s.core);
      SingleSpent(cfg, s, io, back, IOERR_BADADDRESS);
      (s.(core := back), IOERR_BADADDRESS)
    else
      var r := s.core.nextReq;
      var p := Single(io, job, WholeTile(r, job));
      var (core, turn) := TryDsm(env, s.core, s.live, SqeOf(job, p.tile));
      if turn == Sent then
        SingleSent(cfg, s, io, p, core);
        (State(core, AddSingle(s.book, r, p), s.live), ASYNC)
      else
        SingleSpent(cfg, s, io, core, turn.err);
        (s.(core := core), turn.err)
  }

  lemma RangesBack(k: Core)
    requires CoreOk(k, None, {})
    ensures Spent(k, FreeRanges(AllocRanges(k), k.mem.next), {})
  {
    AllocRangesOk(k);
    assert Spent(AllocRanges(k), AllocRanges(k), {k.mem.next});
    DsmSpent(k, AllocRanges(k), k.mem.next);
  }

  /** nvme_io_submit_write_zeroes. */
  function SubmitZeroes(cfg: Config, env: Env, s: State, io: nat, cmd: Cmd): (res: (State, int))
    requires cmd.ZeroesCmd? && CmdOk(cfg, cmd) && Dispatching(cfg, s, io)
    ensures Dispatched(cfg, s, io, res.0, res.1)
  {
    var bytes := cmd.blocks * BlockSize(cmd.unit.shift) % U32;
    var job := Job(cmd.unit, Zeroes, cmd.lba, bytes, 0, cmd.length, true);
    ZeroesJob(cfg, cmd, job);
    hide Inv, Dispatching, Dispatched, JobOk, OneShot, RwCap;
    RefusedNow(cfg, s, io, IOERR_BADLENGTH);
    RefusedNow(cfg, s, io, IOERR_BADADDRESS);
    RefusedNow(cfg, s, io, IOERR_NOCMD);
    if cmd.blocks == 0 then (s, IOERR_BADLENGTH)
    else if OutOfRange(cmd.unit, cmd.lba, cmd.blocks) then (s, IOERR_BADADDRESS)
    else if cfg.deallocZeroes then 
      SubmitTrim(cfg, env, s, io, cmd.unit, [Range(cmd.lba, cmd.blocks)], true, cmd.length)
    else if cfg.maxZeroes == 0 then (s, IOERR_NOCMD)
    else if bytes <= cmd.unit.wzMax then
      DispatchingCore(cfg, s, io);
      SingleShot(cfg, env, s, io, job)
    else MultiShot(cfg, env, s, io, job)
  }

  lemma ZeroesJob(cfg: Config, cmd: Cmd, job: Job)
    requires cmd.ZeroesCmd? && CmdOk(cfg, cmd)
    requires job == Job(cmd.unit, Zeroes, cmd.lba, cmd.blocks * BlockSize(cmd.unit.shift) % U32, 0, cmd.length, true)
    ensures cfg.maxZeroes != 0 ==> JobOk(cfg.limits, job)
    ensures cfg.maxZeroes != 0 && 0 < job.total <= cmd.unit.wzMax ==> OneShot(cfg, job)
    ensures cmd.blocks > 0 ==> job.total > 0
  {
    if cfg.maxZeroes != 0 { JobFits(cfg, job, cmd.blocks); }
  }

  function SubmitCmd(cfg: Config, env: Env, s: State, io: nat, cmd: Cmd): (res: (State, int))
    requires CmdOk(cfg, cmd) && Dispatching(cfg, s, io)
    ensures Dispatched(cfg, s, io, res.0, res.1)
  {
    match cmd
    case RwCmd(_, _, _, _, _, _, _, _) => SubmitRw(cfg, env, s, io, cmd)
    case ZeroesCmd(_, _, _, _) => SubmitZeroes(cfg, env, s, io, cmd)
    case FlushCmd(unit, length) =>
      DsmJob(cfg, Dataless(unit, Flush, length));
      DispatchingCore(cfg, s, io);
      hide Inv, Dispatching, Dispatched, OneShot, CoreOk;
      SingleShot(cfg, env, s, io, Dataless(unit, Flush, length))
    case TrimCmd(unit, ranges, length) =>
      if |ranges| == 0 || |ranges| > DSM_MAX_RANGES then
        RefusedNow(cfg, s, io, IOERR_BADLENGTH);
        (s, IOERR_BADLENGTH)
      else SubmitTrim(cfg, env, s, io, unit, ranges, RangesIn(unit, ranges), length)
  }

  /** ProcessCommand: an IOStdReq arrives, is dispatched, and is replied at once
      on a synchronous error. */
  function Accept(cfg: Config, env: Env, s: State, cmd: Cmd): (s': State)
    requires Rest(cfg, s) && CmdOk(cfg, cmd)
    ensures Rest(cfg, s') && s'.core.pool.count >= s.core.pool.count
    ensures s'.core.retryList == s.core.retryList && s'.live == s.live
    ensures s'.book.nextIo == s.book.nextIo + 1 && s'.book.lost == s.book.lost
  {
    var io := s.book.nextIo;
    var s1 := s.(book := Arrive(s.book));
    ArriveInv(cfg, s);
    hide Inv, Dispatching, CmdOk;
    var (s2, rc) := SubmitCmd(cfg, env, s1, io, cmd);
    if rc == ASYNC then s2
    else
      RefuseInv(cfg, s2, io, rc);
      s2.(book := PostReply(s2.book, io, Refusal(rc)))
  }

  lemma ArriveInv(cfg: Config, s: State)
    requires Rest(cfg, s)
    ensures Dispatching(cfg, s.(book := Arrive(s.book)), s.book.nextIo)
  {
    hide BookOk, CoreOk;
    ArriveOk(cfg.limits, s.book);
  }

  lemma RefuseInv(cfg: Config, s: State, io: nat, rc: int)
    requires Inv(cfg, s, None, None, Some(io), {}) && rc < 0
    ensures Rest(cfg, s.(book := PostReply(s.book, io, Refusal(rc))))
  {
    hide BookOk, CoreOk;
    RefuseOk(cfg.limits, s.book, io, rc);
  }

  // ------------------------------------------- completions from the CQ ring

  /** The slot's request leaves the table and is in hand. */
  ghost predicate InHand(cfg: Config, s: State, t: nat, r: nat, s1: State) {
    && Handling(cfg, s1, r) && t < |s.core.pool.table|
    && s1 == s.(core := s.core.(pool := s1.core.pool))
    && s1.core.pool.table == s.core.pool.table[t := Empty]
  }

  lemma RestSlot(cfg: Config, s: State, t: nat)
    requires t < |s.core.pool.table| && s.core.pool.table[t].Busy? && Rest(cfg, s)
    ensures var r := s.core.pool.table[t].req;
            r in s.core.reqs && s.core.reqs[r].cid.tag == t && r !in s.core.retryList && Shape(s.core.pool)
            && s.core.reqs[r].retries <= 5
  {
    hide BookOk, CoreOk, WireOk, SibsCapped;
    SlotOwner(s.core, t);
  }

  lemma ReleaseInv(cfg: Config, s: State, t: nat, r: nat)
    requires t < |s.core.pool.table| && s.core.pool.table[t].Busy? && r == s.core.pool.table[t].req && r in s.core.reqs
    requires Shape(s.core.pool) && s.core.reqs[r].cid.tag == t && r !in s.core.retryList && s.core.reqs[r].retries <= 5
    requires Rest(cfg, s)
    ensures InHand(cfg, s, t, r, s.(core := ReleaseTag(s.core, r)))
  {
    hide BookOk, CoreOk, WireOk, SibsCapped, ReleaseTag;
    ReleaseTagOk(s.core, r, {});
    WireCore(s, s.(core := ReleaseTag(s.core, r)));
  }

  lemma SlotOwner(k: Core, t: nat)
    requires CoreOk(k, None, {}) && t < |k.pool.table| && k.pool.table[t].Busy?
    ensures var r := k.pool.table[t].req;
            && r in k.reqs && k.reqs[r].cid.tag == t && r !in k.retryList && Shape(k.pool) && k.reqs[r].retries <= 5
  {
  }

  lemma LookupSlot(p: Pool, raw: Cid)
    ensures Lookup(p, raw).Some? ==>
              raw.tag < |p.table| && p.table[raw.tag].Busy? && p.table[raw.tag].req == Lookup(p, raw).value
  {
  }

  /** One CQE inside drain_cq: matched by full CID, or dropped. */
  function OnCqe(cfg: Config, env: Env, s: State, raw: Cid, status: nat): (s': State)
    requires Rest(cfg, s)
    ensures Rest(cfg, s') && s'.live == s.live && KeepsLost(s.book, s'.book)
  {
    LookupSlot(s.core.pool, raw);
    match Lookup(s.core.pool, raw)
    case None => s
    case Some(r) =>
      hide Inv, Handling, ReleaseTag, SetStatus, Rest, Settled;
      RestSlot(cfg, s, raw.tag);
      ReleaseInv(cfg, s, raw.tag, r);
      var s1 := s.(core := ReleaseTag(s.core, r));
      HandlingHas(cfg, s1, r);
      SetStatusInv(cfg, s1, r, status, false);
      var s2 := s1.(core := SetStatus(s1.core, r, status, false));
      HandlingHas(cfg, s2, r);
      var s3 := Complete(cfg, env, s2, r);
      SettledFrom(cfg, s2, r, s3);
      s3
  }

  lemma SettledFrom(cfg: Config, s: State, r: nat, s': State)
    requires Settled(cfg, s, r, s') && r !in s.book.lost
    ensures Rest(cfg, s') && s'.live == s.live && Depth(s'.core) == Depth(s.core) && KeepsLost(s.book, s'.book)
  {
    hide Rest;
  }

  lemma HandlingHas(cfg: Config, s: State, r: nat)
    requires Handling(cfg, s, r)
    ensures r in s.core.reqs && s.core.reqs[r].retries <= 5 && r in s.book.parents && r !in s.book.lost
  {
  }

  /** End of a drain pass: the new CQ head becomes the ring's full test. */
  function EndPass(cfg: Config, s: State, head: nat): (s': State)
    requires Rest(cfg, s)
    ensures Rest(cfg, s') && s'.book == s.book && s'.live == s.live
  {
    HeadOk(s.core, head);
    hide BookOk, CoreOk;
    s.(core := s.core.(cqHead := head))
  }

  lemma HeadOk(k: Core, head: nat)
    requires CoreOk(k, None, {})
    ensures CoreOk(k.(cqHead := head), None, {})
  {
    var k' := k.(cqHead := head);
    assert TableOk(k', None);
    assert SqOk(k');
  }

  // ------------------------------------------------------- watchdog, cancel

  /** Signed 32-bit comparison of clock values. */
  predicate Due(now: nat, deadline: nat) { (now - deadline) % U32 < 0x8000_0000 }

  /** The CRDT walk of nvme_tick_watchdog over the entries present at its start. */
  function TickRetries(cfg: Config, env: Env, s: State, now: nat, todo: seq<nat>): (s': State)
    requires Rest(cfg, s) && Parked(s, todo)
    ensures Rest(cfg, s') && s'.live == s.live && KeepsLost(s.book, s'.book)
    decreases |todo|
  {
    hide Rest, Handling, Parked, Settled, KeepsLost;
    KeepsLostSelf(s.book);
    if todo == [] then s
    else
      var r := todo[0];
      ParkedReq(cfg, s, todo);
      if !Due(now, s.core.reqs[r].deadline) then TickRetries(cfg, env, s, now, todo[1..])
      else
        UnparkInv(cfg, s, r);
        var s1 := s.(core := Unpark(s.core, r));
        var s2 := Resubmit(cfg, env, s1, r);
        TodoLeft(cfg, s, todo, s2);
        var s3 := TickRetries(cfg, env, s2, now, todo[1..]);
        KeepsLostTrans(s.book, s2.book, s3.book);
        s3
  }

  lemma KeepsLostSelf(b: Book)
    ensures KeepsLost(b, b)
  {
  }

  lemma KeepsLostTrans(b: Book, b1: Book, b2: Book)
    requires KeepsLost(b, b1) && KeepsLost(b1, b2)
    ensures KeepsLost(b, b2)
  {
  }

  /** The walk's remaining entries are on the retry list. */
  ghost predicate Parked(s: State, todo: seq<nat>) {
    NoDup(todo) && forall r :: r in todo ==> r in s.core.retryList
  }

  lemma TodoLeft(cfg: Config, s: State, todo: seq<nat>, s2: State)
    requires Parked(s, todo) && todo != []
    requires Settled(cfg, s.(core := Unpark(s.core, todo[0])), todo[0], s2) && todo[0] !in s.book.lost
    ensures Rest(cfg, s2) && s2.live == s.live && Parked(s2, todo[1..]) && KeepsLost(s.book, s2.book)
  {
    hide Rest;
    assert todo == [todo[0]] + todo[1..];
  }

  lemma ParkedReq(cfg: Config, s: State, todo: seq<nat>)
    requires Rest(cfg, s) && Parked(s, todo) && todo != []
    ensures todo[0] in s.core.reqs && todo[0] in s.core.retryList && Parked(s, todo[1..]) && todo[0] !in s.book.lost
  {
    hide BookOk, CoreOk, IdsOk, WireOk, SibsCapped;
    ParkedTail(s, todo);
    RetryListed(s.core, todo[0]);
    LiveNotLost(cfg, s.book, todo[0]);
  }

  lemma LiveNotLost(cfg: Config, b: Book, r: nat)
    requires BookOk(cfg.limits, b, None, None) && r in b.parents
    ensures r !in b.lost
  {
  }

  lemma ParkedTail(s: State, todo: seq<nat>)
    requires Parked(s, todo) && todo != []
    ensures todo[0] in s.core.retryList && Parked(s, todo[1..])
  {
    assert todo[0] in todo;
    assert todo == [todo[0]] + todo[1..];
  }

  lemma RetryListed(k: Core, r: nat)
    requires CoreOk(k, None, {}) && r in k.retryList
    ensures r in k.reqs && k.reqs[r].retries <= 5
  {
  }

  lemma UnparkInv(cfg: Config, s: State, r: nat)
    requires Rest(cfg, s) && r in s.core.retryList
    ensures var s1 := s.(core := Unpark(s.core, r));
            Handling(cfg, s1, r) && r in s1.core.reqs && Writes(s1.core.sq, r) <= s1.core.reqs[r].retries
  {
    hide BookOk, CoreOk;
    RetryListed(s.core, r);
    UnparkOk(s.core, r);
  }

  function Tick(cfg: Config, env: Env, s: State, now: nat): (s': State)
    requires Rest(cfg, s)
    ensures Rest(cfg, s') && KeepsLost(s.book, s'.book) && s'.live == s.live
  {
    RetryNoDup(cfg, s);
    TickRetries(cfg, env, s, now, s.core.retryList)
  }

  lemma RetryNoDup(cfg: Config, s: State)
    requires Rest(cfg, s)
    ensures Parked(s, s.core.retryList)
  {
  }

  /** nvme_flush_queue_inflight from slot `i` on. */
  function FlushFrom(cfg: Config, env: Env, s: State, i: nat): (s': State)
    requires Rest(cfg, s)
    ensures Rest(cfg, s') && KeepsLost(s.book, s'.book) && s'.live == s.live
    decreases |s.core.pool.table| - i
  {
    if i >= |s.core.pool.table| then s
    else if s.core.pool.table[i].Empty? then FlushFrom(cfg, env, s, i + 1)
    else
      FlushFrom(cfg, env, CancelSlot(cfg, env, s, i), i + 1)
  }

  /** Release the slot and force-complete its request as host-aborted. */
  function CancelSlot(cfg: Config, env: Env, s: State, i: nat): (s': State)
    requires Rest(cfg, s) && i < |s.core.pool.table| && s.core.pool.table[i].Busy?
    ensures Rest(cfg, s') && Depth(s'.core) == Depth(s.core) && KeepsLost(s.book, s'.book) && s'.live == s.live
  {
    hide Inv, Handling, ReleaseTag, SetStatus, Rest, Settled;
    var r := s.core.pool.table[i].req;
    RestSlot(cfg, s, i);
    ReleaseInv(cfg, s, i, r);
    var s1 := s.(core := ReleaseTag(s.core, r));
    HandlingHas(cfg, s1, r);
    SetStatusInv(cfg, s1, r, SC_HOST_ABORTED, true);
    var s2 := s1.(core := SetStatus(s1.core, r, SC_HOST_ABORTED, true));
    HandlingHas(cfg, s2, r);
    NudgedDepth(s1, s2, r);
    var s3 := Complete(cfg, env, s2, r);
    SettledFrom(cfg, s2, r, s3);
    s3
  }

  lemma NudgedDepth(s: State, s1: State, r: nat)
    requires Nudged(s, s1, r)
    ensures Depth(s1.core) == Depth(s.core)
  {
  }

  // ----------------------------------------------------- parked contexts

  /** One turn of nvme_drain_msgport's re-pump loop: a context whose pump failed
      outright with nothing in flight has no completion left to answer it. */
  function Repump(cfg: Config, env: Env, s: State): (s': State)
    requires Rest(cfg, s) && s.book.stalled != []
    ensures Rest(cfg, s') && s'.core.pool.count >= s.core.pool.count && s'.live == s.live
    ensures s'.book.nextIo == s.book.nextIo && s'.book.lost == s.book.lost
    ensures var c := s.book.stalled[0];
            (c in s'.book.ctxs && s'.book.ctxs[c].stalled) || |s'.book.stalled| < |s.book.stalled|
  {
    var c := s.book.stalled[0];
    UnstallInv(cfg, s);
    hide Inv, Pumpable, Pumped, Paused, Rest;
    var s1 := s.(book := Unstall(s.book));
    var (s2, rc) := Pump(cfg, env, s1, c);
    RepumpAnswer(cfg, s1, c, s2, rc);
    SettleCtx(cfg, s1, c, s2);
    if !s2.book.ctxs[c].stalled && rc != ASYNC && s2.book.ctxs[c].inflight == 0
    then s2.(book := Finish(s2.book, c)) else s2
  }

  lemma RepumpAnswer(cfg: Config, s: State, c: nat, s': State, rc: int)
    requires Pumped(cfg, s, c, s', rc) && s.book.ctxs[c].dispatched < s.book.ctxs[c].job.total
    ensures Paused(cfg, s, c, s') && c in s'.book.ctxs
    ensures s'.book.stalled == if s'.book.ctxs[c].stalled then s.book.stalled + [c] else s.book.stalled
    ensures !s'.book.ctxs[c].stalled && s'.book.ctxs[c].inflight == 0 <==>
              !s'.book.ctxs[c].stalled && rc != ASYNC && s'.book.ctxs[c].inflight == 0
  {
    hide Inv;
  }

  lemma UnstallInv(cfg: Config, s: State)
    requires Rest(cfg, s) && s.book.stalled != []
    ensures var c := s.book.stalled[0];
            && c in s.book.ctxs
            && var s1 := s.(book := Unstall(s.book));
            && Pumpable(cfg, s1, c) && s1.book.ctxs[c].dispatched < s1.book.ctxs[c].job.total
  {
    hide BookOk, CoreOk;
    UnstallOk(cfg.limits, s.book);
  }

  /** Unit-task exit: parked contexts are answered with IOERR_ABORTED. */
  function AbortStalled(cfg: Config, s: State): (s': State)
    requires Rest(cfg, s)
    ensures Rest(cfg, s') && s'.book.stalled == [] && s'.core == s.core && s'.live == s.live
    ensures s'.book.nextIo == s.book.nextIo && s'.book.lost == s.book.lost && s'.book.parents == s.book.parents
    decreases |s.book.stalled|
  {
    if s.book.stalled == [] then s
    else
      UnstallInv(cfg, s);
      AbortInv(cfg, s);
      hide Inv, Rest, Aborted;
      AbortStalled(cfg, s.(book := Aborted(s.book)))
  }

  /** The first parked context taken up, failed and answered. */
  function Aborted(b: Book): Book
    requires b.stalled != [] && b.stalled[0] in b.ctxs
  {
    Finish(Latch(Unstall(b), b.stalled[0], IOERR_ABORTED), b.stalled[0])
  }

  lemma AbortedOk(cfg: Config, b: Book)
    requires b.stalled != [] && b.stalled[0] in b.ctxs && BookOk(cfg.limits, b, None, None)
    ensures BookOk(cfg.limits, Aborted(b), None, None)
  {
    hide BookOk;
    UnstallOk(cfg.limits, b);
    LatchOk(cfg.limits, Unstall(b), b.stalled[0], IOERR_ABORTED);
    FinishOk(cfg.limits, Latch(Unstall(b), b.stalled[0], IOERR_ABORTED), b.stalled[0]);
  }

  lemma AbortedFrame(cfg: Config, b: Book)
    requires b.stalled != [] && b.stalled[0] in b.ctxs && SibsCapped(cfg, b)
    ensures var b' := Aborted(b);
            && b'.parents == b.parents && b'.done == b.done && b'.lost == b.lost && b'.nextIo == b.nextIo
            && |b'.stalled| < |b.stalled| && SibsCapped(cfg, b')
  {
    CappedSame(cfg, b, Aborted(b));
  }

  lemma AbortedWired(w: map<nat, Entry>, b: Book)
    requires b.stalled != [] && b.stalled[0] in b.ctxs && TilesWired(w, b)
    ensures TilesWired(w, Aborted(b))
  {
    var b1 := Latch(Unstall(b), b.stalled[0], IOERR_ABORTED);
    TilesStay(w, b, b1);
    hide TilesWired;
    FinishWired(w, b1, b.stalled[0]);
  }

  lemma AbortInv(cfg: Config, s: State)
    requires s.book.stalled != [] && s.book.stalled[0] in s.book.ctxs && Rest(cfg, s)
    ensures Rest(cfg, s.(book := Aborted(s.book))) && |Aborted(s.book).stalled| < |s.book.stalled|
    ensures Aborted(s.book).parents == s.book.parents && Aborted(s.book).lost == s.book.lost
            && Aborted(s.book).nextIo == s.book.nextIo
  {
    hide BookOk, CoreOk, SibsCapped, Aborted, TilesWired, WireIds;
    AbortedOk(cfg, s.book);
    AbortedFrame(cfg, s.book);
    AbortedWired(s.core.wire, s.book);
  }

  // -------------------------------------------------------------------- runs

  datatype Event =
    | Command(cmd: Cmd)
    | Cqe(raw: Cid, status: nat)
    | PassEnd(head: nat)
    | Watchdog(now: nat)
    | FlushQueue
    | RepumpOne
    | StopTask
    | SetLive(live: bool)

  ghost predicate EventOk(cfg: Config, e: Event) {
    e.Command? ==> CmdOk(cfg, e.cmd)
  }

  function Step(cfg: Config, env: Env, s: State, e: Event): (s': State)
    requires Rest(cfg, s) && EventOk(cfg, e)
    ensures Rest(cfg, s')
  {
    hide Rest, CmdOk;
    match e
    case Command(cmd) => Accept(cfg, env, s, cmd)
    case Cqe(raw, status) => OnCqe(cfg, env, s, raw, status)
    case PassEnd(head) => EndPass(cfg, s, head)
    case Watchdog(now) => Tick(cfg, env, s, now)
    case FlushQueue => FlushFrom(cfg, env, s, 0)
    case RepumpOne => if s.book.stalled == [] then s else Repump(cfg, env, s)
    case StopTask => AbortStalled(cfg, s)
    case SetLive(b) => SetLiveRest(cfg, s, b); s.(live := b)
  }

  /** Only a command brings an IOStdReq, a lost request stays lost, and only its own
      event changes the controller state. */
  lemma StepKeeps(cfg: Config, env: Env, s: State, e: Event)
    requires Rest(cfg, s) && EventOk(cfg, e)
    ensures LostStays(s.book, Step(cfg, env, s, e).book)
    ensures Step(cfg, env, s, e).live == if e.SetLive? then e.live else s.live
    ensures Step(cfg, env, s, e).book.nextIo == s.book.nextIo + if e.Command? then 1 else 0
  {
    hide Rest, CmdOk, Accept, OnCqe, EndPass, Tick, FlushFrom, Repump, AbortStalled;
  }

  lemma SetLiveRest(cfg: Config, s: State, live: bool)
    requires Rest(cfg, s)
    ensures Rest(cfg, s.(live := live))
  {
    hide BookOk, CoreOk, SibsCapped, TilesWired, WireIds;
  }

  function Start(depth: nat, skipGen: bool, live: bool): State {
    State(Core(true, 0, 0, Tags.Init(depth, skipGen), map[], 0, [], [], Mem(map[], 0, false), 0, map[]),
          Book(map[], map[], 0, [], map[], 0, [], map[], map[], map[]), live)
  }

  lemma StartRest(cfg: Config, depth: nat, skipGen: bool, live: bool)
    requires CfgOk(cfg) && 0 < depth <= 256
    ensures Rest(cfg, Start(depth, skipGen, live))
  {
    var s := Start(depth, skipGen, live);
    InitValid(depth, skipGen);
    assert TableOk(s.core, None) && SqOk(s.core) && MemOk(s.core.mem, s.core.reqs, {});
    assert CtxsOk(cfg.limits, s.book, None) && OwnersOk(s.book, None);
  }

  ghost predicate EventsOk(cfg: Config, es: seq<Event>) {
    forall i :: 0 <= i < |es| ==> EventOk(cfg, es[i])
  }

  /** Any sequence of steps of the unit task, in any order: each keeps the
      invariant, and a request once lost stays lost. */
  ghost function Run(cfg: Config, env: Env, s: State, es: seq<Event>): (s': State)
    requires EventsOk(cfg, es) && Rest(cfg, s)
    ensures Rest(cfg, s') && LostStays(s.book, s'.book)
    ensures s'.book.nextIo == s.book.nextIo + |Commands(es)|
    decreases |es|
  {
    hide Rest, EventOk, Step;
    if es == [] then s
    else
      var n := |es| - 1;
      var s1 := Run(cfg, env, s, es[..n]);
      StepKeeps(cfg, env, s1, es[n]);
      Step(cfg, env, s1, es[n])
  }

  /** The commands among some events, in order. */
  function Commands(es: seq<Event>): seq<Cmd> {
    if es == [] then []
    else Commands(es[..|es| - 1]) + if es[|es| - 1].Command? then [es[|es| - 1].cmd] else []
  }

  lemma CommandsPush(es: seq<Event>, e: Event)
    ensures Commands(es + [e]) == Commands(es) + if e.Command? then [e.cmd] else []
  {
    assert (es + [e])[..|es|] == es;
  }

  /** One event more. */
  lemma RunPush(cfg: Config, env: Env, s: State, es: seq<Event>, e: Event)
    requires EventsOk(cfg, es + [e]) && EventsOk(cfg, es) && EventOk(cfg, e) && Rest(cfg, s)
    ensures Run(cfg, env, s, es + [e]) == Step(cfg, env, Run(cfg, env, s, es), e)
  {
    hide Rest, EventOk, Step;
    assert (es + [e])[..|es|] == es;
  }
}
