/** The ownership half of an I/O request's life: which request or chunked
    context holds each accepted IOStdReq, how a context's chunks tile its
    transfer, and what has been replied.

    Besides the driver's own fields (`dispatched`, `inflight`, `first_error`,
    `stalled`, ...) the records carry history: `owner`, `sibs`, `tiles`,
    `replyLog`, `replies`, `done` (final status of every completed request) and
    `lost` (requests destroyed by a resubmission the full ring refused). */
module IoBook {
  import opened Base
  import opened Arith
  import opened Tags
  import opened Chunk

  datatype Tile = Tile(req: nat, off: nat, len: nat, lba: nat)

  /** What was asked for.  `bufOff` is the user buffer's offset in its page,
      `ioLength` the IOStdReq's io_Length; `trackdisk` says that the block count
      was derived from it, as for every command but a SCSI one. */
  datatype Job = Job(unit: Unit, op: Op, lba: nat, total: nat, bufOff: nat, ioLength: nat, trackdisk: bool)

  datatype Parent = Single(io: nat, job: Job, tile: Tile) | Sibling(ctx: nat)

  datatype Owner = ByTask | ByReq(r: nat) | ByCtx(c: nat) | Replied | Lost(r: nat)

  datatype Ctx = Ctx(io: nat, job: Job, dispatched: nat, completed: nat, inflight: int, firstError: int,
                     stalled: bool, tiles: seq<Tile>, sibs: set<nat>)

  /** One ReplyMsg: from a dispatcher, from a single-shot request, or from a
      context (`chunked`).  `job` and `tiles` say what it stands for. */
  datatype Reply = Refusal(err: int) | Outcome(err: int, actual: nat, chunked: bool, job: Job, tiles: seq<Tile>)

  datatype Book = Book(parents: map<nat, Parent>, ctxs: map<nat, Ctx>, nextCtx: nat, stalled: seq<nat>,
                       owner: map<nat, Owner>, nextIo: nat, replyLog: seq<nat>, replies: map<nat, Reply>,
                       done: map<nat, nat>, lost: map<nat, Parent>)

  // ------------------------------------------------------------------- status

  /** SCT and SC, the fields masked by NVME_SCT_SC_MASK. */
  function SctSc(status: nat): nat { status % 0x800 }

  /** nvme_error_status. */
  function ErrorStatus(status: nat): int {
    if SctSc(status) == 0 then 0
    else if SctSc(status) == 0x0B then TDERR_BAD_UNIT_NUM
    else if SctSc(status) == 0x81 || SctSc(status) == 0x80 then IOERR_BADADDRESS
    else TDERR_NOT_SPECIFIED
  }

  // -------------------------------------------------------------------- tiles

  function End(tiles: seq<Tile>): nat {
    if tiles == [] then 0 else tiles[|tiles| - 1].off + tiles[|tiles| - 1].len
  }

  /** A chunk starts at `start`, at the matching LBA, and has the length the
      chunk rule gives for what then remains. */
  ghost predicate TileAt(l: Limits, job: Job, start: nat, t: Tile) {
    && t.off == start < job.total
    && t.lba == job.lba + start / BlockSize(job.unit.shift)
    && t.len == NextBytes(l, job.unit, job.op, t.lba, job.total - start)
  }

  /** Each chunk starts where the one before it ended; the first one at 0. */
  ghost predicate Tiling(l: Limits, job: Job, tiles: seq<Tile>)
    decreases |tiles|
  {
    tiles == [] ||
    (var n := |tiles| - 1;
     Tiling(l, job, tiles[..n]) && TileAt(l, job, End(tiles[..n]), tiles[n]))
  }

  predicate IsData(op: Op) { op.Read? || op.Write? || op.Zeroes? }

  // --------------------------------------------------------------- invariants

  ghost predicate Clean(done: map<nat, nat>, t: Tile) {
    t.req in done && SctSc(done[t.req]) == 0
  }

  /** An error-free reply: the chunks cover the transfer exactly and each of
      them finally completed with SCT and SC zero. */
  ghost predicate ReplyOk(l: Limits, done: map<nat, nat>, y: Reply) {
    && (y.Refusal? ==> y.err != 0)
    && (y.Outcome? ==> y.actual == if y.err != 0 then 0 else if y.chunked then y.job.total else y.job.ioLength)
    && (y.Outcome? && y.err == 0 ==>
          && y.tiles != []
          && (forall t :: t in y.tiles ==> Clean(done, t))
          && (IsData(y.job.op) ==> JobOk(l, y.job) && Tiling(l, y.job, y.tiles) && End(y.tiles) == y.job.total))
  }

  ghost predicate JobOk(l: Limits, job: Job) {
    && Aligned(l, job.unit)
    && job.total < U32
    && job.total % BlockSize(job.unit.shift) == 0
    && job.bufOff < PAGE && job.bufOff + job.total <= U32
    && (job.op.Zeroes? ==> job.unit.wzMax > 0)
    && (job.trackdisk ==> job.total == job.ioLength - job.ioLength % BlockSize(job.unit.shift))
  }

  ghost predicate SingleOk(l: Limits, r: nat, p: Parent)
    requires p.Single?
  {
    && p.tile.req == r
    && (IsData(p.job.op) ==> JobOk(l, p.job) && p.job.total > 0 && Tiling(l, p.job, [p.tile])
                               && p.tile.len == p.job.total)
  }

  /** What a context's own fields promise. */
  ghost predicate CtxLocal(l: Limits, k: Ctx) {
    && IsData(k.job.op) && JobOk(l, k.job) && k.job.total > 0
    && k.inflight == |k.sibs|
    && Tiling(l, k.job, k.tiles) && End(k.tiles) == k.dispatched <= k.job.total
    && (k.stalled ==> k.inflight == 0 && k.firstError == 0 && k.dispatched < k.job.total)
  }

  /** The siblings of context `c` are the live and the lost requests naming it. */
  ghost predicate SibsOk(b: Book, c: nat, sibs: set<nat>) {
    forall r :: r in sibs <==>
      (r in b.parents && b.parents[r] == Sibling(c)) || (r in b.lost && b.lost[r] == Sibling(c))
  }

  /** Chunks are in flight or completed, and cleanly so without an error. */
  ghost predicate TilesOk(k: Ctx, done: map<nat, nat>) {
    && (forall t :: t in k.tiles ==> t.req in k.sibs || t.req in done)
    && (k.firstError == 0 ==> forall t :: t in k.tiles && t.req in done ==> SctSc(done[t.req]) == 0)
  }

  /** `hot` is the context the unit task is working on. */
  ghost predicate CtxOk(l: Limits, b: Book, c: nat, hot: Option<nat>)
    requires c in b.ctxs
  {
    var k := b.ctxs[c];
    && CtxLocal(l, k)
    && SibsOk(b, c, k.sibs)
    && TilesOk(k, b.done)
    && (k.stalled <==> c in b.stalled)
    && (k.stalled ==> hot != Some(c))
    && (!k.stalled && hot != Some(c) ==> k.inflight > 0)
  }

  ghost predicate OwnerMatches(b: Book, io: nat, task: Option<nat>)
    requires io in b.owner
  {
    match b.owner[io]
    case ByTask => task == Some(io)
    case ByReq(r) => r in b.parents && b.parents[r].Single? && b.parents[r].io == io
    case ByCtx(c) => c in b.ctxs && b.ctxs[c].io == io
    case Replied => io in b.replies
    case Lost(r) => r in b.lost && b.lost[r].Single? && b.lost[r].io == io
  }

  /** Every accepted IOStdReq has one owner, and owners agree. */
  ghost predicate OwnersOk(b: Book, task: Option<nat>) {
    && (forall io :: io in b.owner ==> OwnerMatches(b, io, task))
    && (forall io: nat :: io in b.owner <==> io < b.nextIo)
    && (task.Some? ==> task.value in b.owner && b.owner[task.value] == ByTask)
    && (forall r :: r in b.parents && b.parents[r].Single? ==>
          b.parents[r].io in b.owner && b.owner[b.parents[r].io] == ByReq(r))
    && (forall c :: c in b.ctxs ==> c < b.nextCtx && b.ctxs[c].io in b.owner && b.owner[b.ctxs[c].io] == ByCtx(c))
    && (forall r :: r in b.lost && b.lost[r].Single? ==>
          b.lost[r].io in b.owner && b.owner[b.lost[r].io] == Lost(r))
    && (forall io :: io in b.replies ==> io in b.owner && b.owner[io] == Replied)
    && (forall io: nat :: multiset(b.replyLog)[io] == if io in b.replies then 1 else 0)
  }

  ghost predicate LinksOk(l: Limits, b: Book) {
    && b.parents.Keys !! b.done.Keys && b.parents.Keys !! b.lost.Keys && b.done.Keys !! b.lost.Keys
    && (forall r :: r in b.parents ==>
          if b.parents[r].Single? then SingleOk(l, r, b.parents[r]) else b.parents[r].ctx in b.ctxs)
    && (forall r :: r in b.lost && b.lost[r].Sibling? ==> b.lost[r].ctx in b.ctxs)
    && NoDup(b.stalled)
    && (forall c :: c in b.stalled ==> c in b.ctxs)
  }

  ghost predicate CtxsOk(l: Limits, b: Book, hot: Option<nat>) {
    LinksOk(l, b) && forall c :: c in b.ctxs ==> CtxOk(l, b, c, hot)
  }

  ghost predicate RepliesOk(l: Limits, done: map<nat, nat>, replies: map<nat, Reply>) {
    forall io :: io in replies ==> ReplyOk(l, done, replies[io])
  }

  ghost predicate BookOk(l: Limits, b: Book, hot: Option<nat>, task: Option<nat>) {
    Whole(CtxsOk(l, b, hot) && OwnersOk(b, task) && RepliesOk(l, b.done, b.replies))
  }

  /** A request identity that no record mentions. */
  ghost predicate Fresh(b: Book, r: nat) {
    r !in b.parents && r !in b.done && r !in b.lost
  }

  // ------------------------------------------------------------------- frames

  /** Contexts are untouched by steps that leave their lists and their
      siblings alone; a completed request is no one's sibling. */
  lemma CtxsKept(l: Limits, b: Book, b': Book, hot: Option<nat>)
    requires CtxsOk(l, b, hot) && LinksOk(l, b')
    requires b'.ctxs == b.ctxs && b'.stalled == b.stalled && b'.lost == b.lost
    requires forall r :: (r in b.parents && b.parents[r].Sibling?) <==> (r in b'.parents && b'.parents[r].Sibling?)
    requires forall r :: r in b.parents && b.parents[r].Sibling? ==> b'.parents[r] == b.parents[r]
    requires forall r :: r in b.done ==> r in b'.done && b'.done[r] == b.done[r]
    requires forall r :: r in b'.done && r !in b.done ==> r in b.parents && b.parents[r].Single?
    ensures CtxsOk(l, b', hot)
  {
    forall c | c in b'.ctxs ensures CtxOk(l, b', c, hot) {
      assert CtxOk(l, b, c, hot);
      var k := b.ctxs[c];
      forall t | t in k.tiles && t.req in b'.done ensures t.req in b.done {
        assert t.req in k.sibs || t.req in b.done;
      }
    }
  }

  /** Owners are untouched by steps that leave single-shot requests, replies and
      the set of contexts alone. */
  lemma OwnersKept(b: Book, b': Book, task: Option<nat>)
    requires OwnersOk(b, task)
    requires b'.owner == b.owner && b'.nextIo == b.nextIo && b'.replyLog == b.replyLog && b'.replies == b.replies
    requires b'.nextCtx == b.nextCtx && b'.ctxs.Keys == b.ctxs.Keys
    requires forall c :: c in b.ctxs ==> b'.ctxs[c].io == b.ctxs[c].io
    requires forall r :: (r in b.parents && b.parents[r].Single?) <==> (r in b'.parents && b'.parents[r].Single?)
    requires forall r :: r in b.parents && b.parents[r].Single? ==> b'.parents[r] == b.parents[r]
    requires b'.lost == b.lost
    ensures OwnersOk(b', task)
  {
    forall x | x in b'.owner ensures OwnerMatches(b', x, task) { assert OwnerMatches(b, x, task); }
  }

  /** Replies stay justified as more requests complete. */
  lemma RepliesGrow(l: Limits, done: map<nat, nat>, replies: map<nat, Reply>, r: nat, status: nat)
    requires RepliesOk(l, done, replies) && r !in done
    ensures RepliesOk(l, done[r := status], replies)
  {
    forall io | io in replies ensures ReplyOk(l, done[r := status], replies[io]) {
      var y := replies[io];
      assert ReplyOk(l, done, y);
      if y.Outcome? && y.err == 0 {
        forall t | t in y.tiles ensures Clean(done[r := status], t) { assert Clean(done, t); }
      }
    }
  }

  // ----------------------------------------------------- arrival and refusal

  /** A message reaches the unit task. */
  function Arrive(b: Book): Book {
    b.(owner := b.owner[b.nextIo := ByTask], nextIo := b.nextIo + 1)
  }

  lemma ArriveOwners(b: Book)
    requires OwnersOk(b, None)
    ensures OwnersOk(Arrive(b), Some(b.nextIo))
  {
    var b' := Arrive(b);
    forall io | io in b.owner ensures OwnerMatches(b', io, Some(b.nextIo)) { assert OwnerMatches(b, io, None); }
  }

  lemma ArriveOk(l: Limits, b: Book)
    requires BookOk(l, b, None, None)
    ensures BookOk(l, Arrive(b), None, Some(b.nextIo))
  {
    ArriveOwners(b);
    hide OwnersOk, RepliesOk;
    CtxsKept(l, b, Arrive(b), None);
  }

  function PostReply(b: Book, io: nat, y: Reply): Book {
    b.(owner := b.owner[io := Replied], replyLog := b.replyLog + [io], replies := b.replies[io := y])
  }

  /** The log after a reply to an IOStdReq not replied before. */
  lemma PostReplyLog(b: Book, io: nat, y: Reply)
    requires forall x: nat :: multiset(b.replyLog)[x] == if x in b.replies then 1 else 0
    requires io !in b.replies
    ensures var b' := PostReply(b, io, y);
            forall x: nat :: multiset(b'.replyLog)[x] == if x in b'.replies then 1 else 0
  {
    assert multiset(b.replyLog + [io]) == multiset(b.replyLog) + multiset{io};
  }

  lemma PostReplyOwners(b: Book, io: nat, y: Reply)
    requires OwnersOk(b, Some(io))
    ensures OwnersOk(PostReply(b, io, y), None)
  {
    var b' := PostReply(b, io, y);
    PostReplyLog(b, io, y);
    forall x | x in b'.owner ensures OwnerMatches(b', x, None) { assert OwnerMatches(b, x, Some(io)); }
  }

  /** reply_io with a synchronous error. */
  lemma RefuseOk(l: Limits, b: Book, io: nat, err: int)
    requires BookOk(l, b, None, Some(io)) && err != 0
    ensures BookOk(l, PostReply(b, io, Refusal(err)), None, None)
  {
    PostReplyOwners(b, io, Refusal(err));
    CtxsKept(l, b, PostReply(b, io, Refusal(err)), None);
  }

  // ------------------------------------------------------ single-shot requests

  function AddSingle(b: Book, r: nat, p: Parent): Book
    requires p.Single?
  {
    b.(parents := b.parents[r := p], owner := b.owner[p.io := ByReq(r)])
  }

  lemma AddSingleOwners(b: Book, r: nat, p: Parent)
    requires p.Single? && OwnersOk(b, Some(p.io)) && Fresh(b, r)
    ensures OwnersOk(AddSingle(b, r, p), None)
  {
    var b' := AddSingle(b, r, p);
    forall x | x in b'.owner ensures OwnerMatches(b', x, None) { assert OwnerMatches(b, x, Some(p.io)); }
  }

  lemma AddSingleCtxs(l: Limits, b: Book, r: nat, p: Parent)
    requires p.Single? && CtxsOk(l, b, None) && Fresh(b, r) && SingleOk(l, r, p)
    ensures CtxsOk(l, AddSingle(b, r, p), None)
  {
    hide CtxOk, SingleOk;
    CtxsKept(l, b, AddSingle(b, r, p), None);
  }

  lemma AddSingleOk(l: Limits, b: Book, r: nat, p: Parent)
    requires p.Single? && Fresh(b, r) && SingleOk(l, r, p) && BookOk(l, b, None, Some(p.io))
    ensures BookOk(l, AddSingle(b, r, p), None, None)
  {
    hide CtxsOk, OwnersOk, RepliesOk, SingleOk;
    AddSingleOwners(b, r, p);
    AddSingleCtxs(l, b, r, p);
  }

  /** nvme_end_req for a request that answers its IOStdReq alone. */
  function EndSingle(b: Book, r: nat, status: nat): Book
    requires r in b.parents && b.parents[r].Single?
  {
    var p := b.parents[r];
    var err := ErrorStatus(status);
    PostReply(b.(parents := b.parents - {r}, done := b.done[r := status]), p.io,
              Outcome(err, if err == 0 then p.job.ioLength else 0, false, p.job, [p.tile]))
  }

  lemma EndSingleOwners(b: Book, r: nat, status: nat)
    requires OwnersOk(b, None) && r in b.parents && b.parents[r].Single?
    ensures OwnersOk(EndSingle(b, r, status), None)
  {
    var io := b.parents[r].io;
    var b' := EndSingle(b, r, status);
    PostReplyLog(b, io, b'.replies[io]);
    forall x | x in b'.owner ensures OwnerMatches(b', x, None) { assert OwnerMatches(b, x, None); }
  }

  lemma EndSingleReply(l: Limits, r: nat, p: Parent, done: map<nat, nat>, status: nat, y: Reply)
    requires p.Single? && SingleOk(l, r, p) && y.Outcome? && y.err == ErrorStatus(status)
    requires y.job == p.job && y.tiles == [p.tile] && r in done && done[r] == status
    requires !y.chunked && y.actual == if y.err == 0 then p.job.ioLength else 0
    ensures ReplyOk(l, done, y)
  {
    assert [p.tile][..0] == [];
  }

  lemma EndSingleCtxs(l: Limits, b: Book, r: nat, status: nat)
    requires CtxsOk(l, b, None) && r in b.parents && b.parents[r].Single?
    ensures CtxsOk(l, EndSingle(b, r, status), None)
  {
    hide CtxOk, ErrorStatus, SingleOk;
    CtxsKept(l, b, EndSingle(b, r, status), None);
  }

  lemma EndSingleReplies(l: Limits, b: Book, r: nat, status: nat)
    requires r in b.parents && b.parents[r].Single? && SingleOk(l, r, b.parents[r]) && r !in b.done
    requires RepliesOk(l, b.done, b.replies)
    ensures RepliesOk(l, EndSingle(b, r, status).done, EndSingle(b, r, status).replies)
  {
    var p, b' := b.parents[r], EndSingle(b, r, status);
    hide ReplyOk, SingleOk;
    RepliesGrow(l, b.done, b.replies, r, status);
    EndSingleReply(l, r, p, b'.done, status, b'.replies[p.io]);
  }

  lemma EndSingleOk(l: Limits, b: Book, r: nat, status: nat)
    requires r in b.parents && b.parents[r].Single? && BookOk(l, b, None, None)
    ensures BookOk(l, EndSingle(b, r, status), None, None)
  {
    hide CtxOk, OwnersOk, RepliesOk, SingleOk, EndSingle;
    EndSingleOwners(b, r, status);
    EndSingleReplies(l, b, r, status);
    hide LinksOk;
    EndSingleCtxs(l, b, r, status);
  }

  // ---------------------------------------------------------- chunked contexts

  function NewCtx(b: Book, io: nat, job: Job): Book {
    b.(ctxs := b.ctxs[b.nextCtx := Ctx(io, job, 0, 0, 0, 0, false, [], {})], nextCtx := b.nextCtx + 1,
       owner := b.owner[io := ByCtx(b.nextCtx)])
  }

  lemma NewCtxOwners(b: Book, io: nat, job: Job)
    requires OwnersOk(b, Some(io))
    ensures OwnersOk(NewCtx(b, io, job), None)
  {
    var b' := NewCtx(b, io, job);
    forall x | x in b'.owner ensures OwnerMatches(b', x, None) { assert OwnerMatches(b, x, Some(io)); }
  }

  lemma NewCtxCtxs(l: Limits, b: Book, io: nat, job: Job)
    requires CtxsOk(l, b, None) && JobOk(l, job) && IsData(job.op) && job.total > 0
    requires forall c :: c in b.ctxs ==> c < b.nextCtx
    ensures CtxsOk(l, NewCtx(b, io, job), Some(b.nextCtx))
  {
    var b' := NewCtx(b, io, job);
    forall c | c in b'.ctxs ensures CtxOk(l, b', c, Some(b.nextCtx)) {
      if c != b.nextCtx { assert CtxOk(l, b, c, None); }
    }
  }

  lemma NewCtxOk(l: Limits, b: Book, io: nat, job: Job)
    requires BookOk(l, b, None, Some(io)) && JobOk(l, job) && IsData(job.op) && job.total > 0
    ensures BookOk(l, NewCtx(b, io, job), Some(b.nextCtx), None)
  {
    NewCtxOwners(b, io, job);
    NewCtxCtxs(l, b, io, job);
  }

  /** The pump's accounting before it submits chunk `t` as request `t.req`. */
  function Dispatch(b: Book, c: nat, t: Tile): Book
    requires c in b.ctxs
  {
    var k := b.ctxs[c];
    b.(parents := b.parents[t.req := Sibling(c)],
       ctxs := b.ctxs[c := k.(dispatched := k.dispatched + t.len, inflight := k.inflight + 1,
                              tiles := k.tiles + [t], sibs := k.sibs + {t.req})])
  }

  /** The pump's rollback when the ring refuses the chunk. */
  function Rollback(b: Book, c: nat, t: Tile): Book
    requires c in b.ctxs && b.ctxs[c].tiles != [] && t.len <= b.ctxs[c].dispatched
  {
    var k := b.ctxs[c];
    b.(parents := b.parents - {t.req},
       ctxs := b.ctxs[c := k.(dispatched := k.dispatched - t.len, inflight := k.inflight - 1,
                              tiles := k.tiles[..|k.tiles| - 1], sibs := k.sibs - {t.req})])
  }

  lemma RollbackUndoes(b: Book, c: nat, t: Tile)
    requires c in b.ctxs && t.req !in b.parents && t.req !in b.ctxs[c].sibs
    ensures Rollback(Dispatch(b, c, t), c, t) == b
  {
    var k := b.ctxs[c];
    var b1 := Dispatch(b, c, t);
    assert (k.tiles + [t])[..|k.tiles|] == k.tiles;
    assert k.sibs + {t.req} - {t.req} == k.sibs;
    assert b.parents[t.req := Sibling(c)] - {t.req} == b.parents;
    assert b.ctxs[c := b1.ctxs[c]][c := k] == b.ctxs;
  }

  /** The chunk the pump carves next. */
  function NextTile(l: Limits, k: Ctx, r: nat): Tile
    requires k.dispatched <= k.job.total
  {
    var lba := k.job.lba + k.dispatched / BlockSize(k.job.unit.shift);
    Tile(r, k.dispatched, NextBytes(l, k.job.unit, k.job.op, lba, k.job.total - k.dispatched), lba)
  }

  /** A tiling ends on a block boundary inside the transfer. */
  lemma {:induction false} TilingEndBlocks(l: Limits, job: Job, tiles: seq<Tile>)
    requires Tiling(l, job, tiles) && JobOk(l, job)
    ensures End(tiles) % BlockSize(job.unit.shift) == 0 && End(tiles) <= job.total
    ensures tiles != [] ==> tiles[|tiles| - 1].len > 0
    decreases |tiles|
  {
    if tiles != [] {
      var n := |tiles| - 1;
      var bs := BlockSize(job.unit.shift);
      TilingEndBlocks(l, job, tiles[..n]);
      SubMod(job.total, tiles[n].off, bs);
      ChunkBlocks(l, job.unit, job.op, tiles[n].lba, job.total - tiles[n].off);
      AddMod(tiles[n].off, tiles[n].len, bs);
    }
  }

  lemma TilingGrows(l: Limits, k: Ctx, t: Tile)
    requires JobOk(l, k.job) && Tiling(l, k.job, k.tiles) && End(k.tiles) == k.dispatched < k.job.total
    requires t == NextTile(l, k, t.req)
    ensures Tiling(l, k.job, k.tiles + [t]) && End(k.tiles + [t]) == k.dispatched + t.len <= k.job.total
    ensures t.len > 0
  {
    var ts := k.tiles + [t];
    assert ts[..|k.tiles|] == k.tiles;
    TilingEndBlocks(l, k.job, ts);
  }

  /** `t` continues the context's tiling. */
  ghost predicate Extends(l: Limits, k: Ctx, t: Tile) {
    Tiling(l, k.job, k.tiles + [t]) && t.len > 0 && End(k.tiles + [t]) == k.dispatched + t.len <= k.job.total
  }

  lemma DispatchLinks(l: Limits, b: Book, c: nat, t: Tile)
    requires LinksOk(l, b) && c in b.ctxs && Fresh(b, t.req)
    ensures LinksOk(l, Dispatch(b, c, t))
  {
  }

  lemma DispatchSibs(b: Book, c: nat, t: Tile, d: nat)
    requires c in b.ctxs && d in b.ctxs && Fresh(b, t.req) && SibsOk(b, d, b.ctxs[d].sibs)
    ensures SibsOk(Dispatch(b, c, t), d, Dispatch(b, c, t).ctxs[d].sibs)
  {
  }

  lemma DispatchTiles(b: Book, c: nat, t: Tile, d: nat)
    requires c in b.ctxs && d in b.ctxs && Fresh(b, t.req) && TilesOk(b.ctxs[d], b.done)
    ensures TilesOk(Dispatch(b, c, t).ctxs[d], b.done)
  {
  }

  lemma DispatchCtx(l: Limits, b: Book, c: nat, t: Tile, d: nat)
    requires c in b.ctxs && d in b.ctxs && Fresh(b, t.req) && !b.ctxs[c].stalled && Extends(l, b.ctxs[c], t)
    requires CtxOk(l, b, d, Some(c))
    ensures CtxOk(l, Dispatch(b, c, t), d, Some(c))
  {
    DispatchSibs(b, c, t, d);
    DispatchTiles(b, c, t, d);
    assert t.req !in b.ctxs[d].sibs;
    hide SibsOk, TilesOk, Tiling, JobOk, Fresh;
  }

  lemma DispatchOwners(b: Book, c: nat, t: Tile)
    requires OwnersOk(b, None) && c in b.ctxs && Fresh(b, t.req)
    ensures OwnersOk(Dispatch(b, c, t), None)
  {
    OwnersKept(b, Dispatch(b, c, t), None);
  }

  lemma DispatchOk(l: Limits, b: Book, c: nat, t: Tile)
    requires BookOk(l, b, Some(c), None) && c in b.ctxs && Fresh(b, t.req) && !b.ctxs[c].stalled
    requires Extends(l, b.ctxs[c], t)
    ensures BookOk(l, Dispatch(b, c, t), Some(c), None)
    ensures Dispatch(b, c, t).ctxs[c].inflight > 0
  {
    DispatchLinks(l, b, c, t);
    DispatchOwners(b, c, t);
    forall d | d in b.ctxs ensures CtxOk(l, Dispatch(b, c, t), d, Some(c)) { DispatchCtx(l, b, c, t, d); }
    assert CtxOk(l, b, c, Some(c));
  }

  function SetCtx(b: Book, c: nat, k: Ctx): Book { b.(ctxs := b.ctxs[c := k]) }

  function Latch(b: Book, c: nat, err: int): Book
    requires c in b.ctxs
  {
    SetCtx(b, c, b.ctxs[c].(firstError := err))
  }

  lemma LatchCtxs(l: Limits, b: Book, c: nat, err: int)
    requires CtxsOk(l, b, Some(c)) && c in b.ctxs && !b.ctxs[c].stalled && err != 0
    ensures CtxsOk(l, Latch(b, c, err), Some(c))
  {
    var b' := Latch(b, c, err);
    forall d | d in b'.ctxs ensures CtxOk(l, b', d, Some(c)) { assert CtxOk(l, b, d, Some(c)); }
  }

  lemma LatchOk(l: Limits, b: Book, c: nat, err: int)
    requires BookOk(l, b, Some(c), None) && c in b.ctxs && !b.ctxs[c].stalled && err != 0
    ensures BookOk(l, Latch(b, c, err), Some(c), None)
  {
    LatchCtxs(l, b, c, err);
    hide CtxsOk, RepliesOk;
    OwnersKept(b, Latch(b, c, err), None);
  }

  /** Park on ctx_stalled. */
  function Stall(b: Book, c: nat): Book
    requires c in b.ctxs
  {
    SetCtx(b, c, b.ctxs[c].(stalled := true)).(stalled := b.stalled + [c])
  }

  lemma StallCtxs(l: Limits, b: Book, c: nat)
    requires CtxsOk(l, b, Some(c)) && c in b.ctxs && !b.ctxs[c].stalled
    requires b.ctxs[c].inflight == 0 && b.ctxs[c].firstError == 0 && b.ctxs[c].dispatched < b.ctxs[c].job.total
    ensures CtxsOk(l, Stall(b, c), None)
  {
    var b' := Stall(b, c);
    assert CtxOk(l, b, c, Some(c));
    forall d | d in b'.ctxs ensures CtxOk(l, b', d, None) { assert CtxOk(l, b, d, Some(c)); }
  }

  lemma StallOk(l: Limits, b: Book, c: nat)
    requires c in b.ctxs && !b.ctxs[c].stalled
    requires b.ctxs[c].inflight == 0 && b.ctxs[c].firstError == 0 && b.ctxs[c].dispatched < b.ctxs[c].job.total
    requires BookOk(l, b, Some(c), None)
    ensures BookOk(l, Stall(b, c), None, None)
  {
    hide CtxsOk, OwnersOk, RepliesOk;
    StallCtxs(l, b, c);
    OwnersKept(b, Stall(b, c), None);
  }

  /** RemHead of ctx_stalled. */
  function Unstall(b: Book): Book
    requires b.stalled != [] && b.stalled[0] in b.ctxs
  {
    var c := b.stalled[0];
    SetCtx(b, c, b.ctxs[c].(stalled := false)).(stalled := b.stalled[1..])
  }

  lemma UnstallLinks(l: Limits, b: Book)
    requires LinksOk(l, b) && b.stalled != []
    ensures b.stalled[0] in b.ctxs && LinksOk(l, Unstall(b)) && NoDup(b.stalled)
  {
    assert b.stalled[0] in b.stalled;
    hide SingleOk;
  }

  lemma UnstallCtxs(l: Limits, b: Book)
    requires CtxsOk(l, b, None) && b.stalled != []
    ensures b.stalled[0] in b.ctxs && CtxsOk(l, Unstall(b), Some(b.stalled[0]))
  {
    hide LinksOk, CtxOk;
    UnstallLinks(l, b);
    forall d | d in Unstall(b).ctxs ensures CtxOk(l, Unstall(b), d, Some(b.stalled[0])) { UnstallCtx(l, b, d); }
  }

  lemma UnstallCtx(l: Limits, b: Book, d: nat)
    requires b.stalled != [] && b.stalled[0] in b.ctxs && NoDup(b.stalled) && d in b.ctxs && CtxOk(l, b, d, None)
    ensures CtxOk(l, Unstall(b), d, Some(b.stalled[0]))
  {
    var c, b' := b.stalled[0], Unstall(b);
    assert b.stalled == [c] + b.stalled[1..];
    assert SibsOk(b', d, b'.ctxs[d].sibs);
    assert TilesOk(b'.ctxs[d], b'.done);
    hide SibsOk, TilesOk, Tiling, JobOk;
  }

  lemma ParkedIdle(l: Limits, b: Book)
    requires CtxsOk(l, b, None) && b.stalled != []
    ensures var c := b.stalled[0];
            && c in b.ctxs && b.ctxs[c].inflight == 0 && b.ctxs[c].firstError == 0
            && b.ctxs[c].dispatched < b.ctxs[c].job.total
  {
    assert b.stalled[0] in b.stalled;
    assert CtxOk(l, b, b.stalled[0], None);
  }

  lemma UnstallOk(l: Limits, b: Book)
    requires b.stalled != [] && BookOk(l, b, None, None)
    ensures var c := b.stalled[0];
            && c in b.ctxs && BookOk(l, Unstall(b), Some(c), None)
            && b.ctxs[c].inflight == 0 && b.ctxs[c].firstError == 0 && b.ctxs[c].dispatched < b.ctxs[c].job.total
  {
    hide CtxsOk, OwnersOk, RepliesOk;
    ParkedIdle(l, b);
    UnstallCtxs(l, b);
    OwnersKept(b, Unstall(b), None);
  }

  /** The sibling half of nvme_complete_rq, up to the refill. */
  function EndSibling(b: Book, r: nat, status: nat, userLen: nat): Book
    requires r in b.parents && b.parents[r].Sibling? && b.parents[r].ctx in b.ctxs
  {
    var c := b.parents[r].ctx;
    var k := b.ctxs[c];
    var err := if status != 0 && k.firstError == 0 then ErrorStatus(status) else k.firstError;
    b.(parents := b.parents - {r}, done := b.done[r := status],
       ctxs := b.ctxs[c := k.(firstError := err, completed := k.completed + userLen, inflight := k.inflight - 1,
                              sibs := k.sibs - {r})])
  }

  lemma EndSiblingLinks(l: Limits, b: Book, r: nat, status: nat, userLen: nat)
    requires LinksOk(l, b) && r in b.parents && b.parents[r].Sibling?
    ensures LinksOk(l, EndSibling(b, r, status, userLen))
  {
  }

  lemma EndSiblingTiles(k: Ctx, k': Ctx, done: map<nat, nat>, r: nat, status: nat)
    requires TilesOk(k, done) && r !in done && k'.tiles == k.tiles
    requires k'.sibs == k.sibs - {r}
    requires k'.firstError == if status != 0 && k.firstError == 0 then ErrorStatus(status) else k.firstError
    ensures TilesOk(k', done[r := status])
  {
  }

  lemma EndSiblingCtxs(l: Limits, b: Book, r: nat, status: nat, userLen: nat)
    requires CtxsOk(l, b, None) && r in b.parents && b.parents[r].Sibling?
    ensures var c := b.parents[r].ctx;
            && c in b.ctxs
            && CtxsOk(l, EndSibling(b, r, status, userLen), Some(c))
            && !EndSibling(b, r, status, userLen).ctxs[c].stalled
  {
    var c := b.parents[r].ctx;
    var b' := EndSibling(b, r, status, userLen);
    assert CtxOk(l, b, c, None);
    assert r in b.ctxs[c].sibs;
    EndSiblingLinks(l, b, r, status, userLen);
    forall d | d in b'.ctxs ensures CtxOk(l, b', d, Some(c)) {
      assert CtxOk(l, b, d, None);
      hide CtxOk, LinksOk, EndSibling;
      EndSiblingCtx(l, b, r, status, userLen, d);
    }
    hide CtxOk, LinksOk;
  }

  lemma EndSiblingCtx(l: Limits, b: Book, r: nat, status: nat, userLen: nat, d: nat)
    requires r in b.parents && b.parents[r].Sibling? && b.parents[r].ctx in b.ctxs && r !in b.done && r !in b.lost
    requires d in b.ctxs && CtxOk(l, b, d, None)
    ensures CtxOk(l, EndSibling(b, r, status, userLen), d, Some(b.parents[r].ctx))
  {
    var b' := EndSibling(b, r, status, userLen);
    assert SibsOk(b', d, b'.ctxs[d].sibs);
    if d == b.parents[r].ctx {
      EndSiblingTiles(b.ctxs[d], b'.ctxs[d], b.done, r, status);
    } else {
      assert r !in b.ctxs[d].sibs;
      assert TilesOk(b'.ctxs[d], b'.done);
    }
    hide SibsOk, TilesOk, ErrorStatus, Tiling, JobOk;
  }

  lemma EndSiblingOwners(b: Book, r: nat, status: nat, userLen: nat)
    requires OwnersOk(b, None) && r in b.parents && b.parents[r].Sibling? && b.parents[r].ctx in b.ctxs
    ensures OwnersOk(EndSibling(b, r, status, userLen), None)
  {
    OwnersKept(b, EndSibling(b, r, status, userLen), None);
  }

  lemma EndSiblingOk(l: Limits, b: Book, r: nat, status: nat, userLen: nat)
    requires BookOk(l, b, None, None) && r in b.parents && b.parents[r].Sibling?
    ensures var c := b.parents[r].ctx;
            && c in b.ctxs
            && BookOk(l, EndSibling(b, r, status, userLen), Some(c), None)
            && !EndSibling(b, r, status, userLen).ctxs[c].stalled
  {
    EndSiblingCtxs(l, b, r, status, userLen);
    assert r !in b.done;
    hide CtxsOk, RepliesOk, CtxOk;
    EndSiblingOwners(b, r, status, userLen);
    RepliesGrow(l, b.done, b.replies, r, status);
  }

  /** nvme_io_context_finish. */
  function Finish(b: Book, c: nat): Book
    requires c in b.ctxs
  {
    var k := b.ctxs[c];
    PostReply(b.(ctxs := b.ctxs - {c}), k.io,
              Outcome(k.firstError, if k.firstError == 0 then k.job.total else 0, true, k.job, k.tiles))
  }

  lemma FinishOwners(b: Book, c: nat)
    requires OwnersOk(b, None) && c in b.ctxs
    ensures OwnersOk(Finish(b, c), None)
  {
    var io := b.ctxs[c].io;
    var b' := Finish(b, c);
    FinishLog(b, c);
    FinishMatches(b, c);
    hide OwnerMatches;
    assert b'.replyLog == b.replyLog + [io] && b'.ctxs == b.ctxs - {c};
  }

  lemma FinishLog(b: Book, c: nat)
    requires OwnersOk(b, None) && c in b.ctxs
    ensures var b' := Finish(b, c);
            forall io: nat :: multiset(b'.replyLog)[io] == if io in b'.replies then 1 else 0
  {
    var io := b.ctxs[c].io;
    assert OwnerMatches(b, io, None);
    assert io !in b.replies;
    PostReplyLog(b, io, Finish(b, c).replies[io]);
  }

  lemma FinishMatches(b: Book, c: nat)
    requires OwnersOk(b, None) && c in b.ctxs
    ensures forall x :: x in Finish(b, c).owner ==> OwnerMatches(Finish(b, c), x, None)
  {
    forall x | x in b.owner ensures OwnerMatches(Finish(b, c), x, None) { assert OwnerMatches(b, x, None); }
  }

  lemma FinishCtxs(l: Limits, b: Book, c: nat)
    requires CtxsOk(l, b, Some(c)) && c in b.ctxs && !b.ctxs[c].stalled && b.ctxs[c].inflight == 0
    ensures CtxsOk(l, Finish(b, c), None)
  {
    var b' := Finish(b, c);
    assert CtxOk(l, b, c, Some(c));
    assert b.ctxs[c].sibs == {};
    forall r | r in b.parents && b.parents[r].Sibling? ensures b.parents[r].ctx != c {
      assert r !in b.ctxs[c].sibs;
    }
    forall r | r in b.lost && b.lost[r].Sibling? ensures b.lost[r].ctx != c {
      assert r !in b.ctxs[c].sibs;
    }
    forall d | d in b'.ctxs ensures CtxOk(l, b', d, None) { assert CtxOk(l, b, d, Some(c)); }
  }

  lemma FinishReply(l: Limits, b: Book, c: nat)
    requires c in b.ctxs && CtxOk(l, b, c, Some(c))
    requires var k := b.ctxs[c]; k.inflight == 0 && (k.firstError != 0 || k.dispatched == k.job.total)
    ensures ReplyOk(l, b.done, Finish(b, c).replies[b.ctxs[c].io])
  {
    assert b.ctxs[c].sibs == {};
  }

  /** A context may be finished once nothing of it is in flight, it is not
      parked, and it either carries an error or has dispatched everything. */
  lemma FinishOk(l: Limits, b: Book, c: nat)
    requires c in b.ctxs
    requires var k := b.ctxs[c];
             !k.stalled && k.inflight == 0 && (k.firstError != 0 || k.dispatched == k.job.total)
    requires BookOk(l, b, Some(c), None)
    ensures BookOk(l, Finish(b, c), None, None)
  {
    hide CtxOk, OwnersOk, ReplyOk, LinksOk;
    FinishReply(l, b, c);
    FinishOwners(b, c);
    FinishCtxs(l, b, c);
    hide CtxsOk;
  }

  /** The first pump failed outright: the context goes, the unit task keeps the
      IOStdReq. */
  function DropCtx(b: Book, c: nat): Book
    requires c in b.ctxs
  {
    b.(ctxs := b.ctxs - {c}, owner := b.owner[b.ctxs[c].io := ByTask])
  }

  lemma DropCtxOk(l: Limits, b: Book, c: nat)
    requires BookOk(l, b, Some(c), None) && c in b.ctxs && !b.ctxs[c].stalled && b.ctxs[c].inflight == 0
    ensures BookOk(l, DropCtx(b, c), None, Some(b.ctxs[c].io))
  {
    var io := b.ctxs[c].io;
    var b' := DropCtx(b, c);
    FinishCtxs(l, b, c);
    CtxsKept(l, Finish(b, c), b', None);
    DropCtxOwners(b, c);
  }

  lemma DropCtxOwners(b: Book, c: nat)
    requires OwnersOk(b, None) && c in b.ctxs
    ensures OwnersOk(DropCtx(b, c), Some(b.ctxs[c].io))
  {
    var b' := DropCtx(b, c);
    forall x | x in b'.owner ensures OwnerMatches(b', x, Some(b.ctxs[c].io)) { assert OwnerMatches(b, x, None); }
  }

  // ---------------------------------------------------------- lost requests

  /** A resubmission the ring refused: the request is destroyed and nobody is
      told. */
  function Lose(b: Book, r: nat): Book
    requires r in b.parents
  {
    var p := b.parents[r];
    b.(parents := b.parents - {r}, lost := b.lost[r := p],
       owner := if p.Single? then b.owner[p.io := Lost(r)] else b.owner)
  }

  lemma LoseOwners(b: Book, r: nat)
    requires OwnersOk(b, None) && r in b.parents && r !in b.lost
    ensures OwnersOk(Lose(b, r), None)
  {
    var b' := Lose(b, r);
    forall x | x in b'.owner ensures OwnerMatches(b', x, None) { assert OwnerMatches(b, x, None); }
  }

  lemma LoseCtxs(l: Limits, b: Book, r: nat)
    requires CtxsOk(l, b, None) && r in b.parents
    ensures CtxsOk(l, Lose(b, r), None) && r !in b.lost
  {
    var b' := Lose(b, r);
    forall d | d in b'.ctxs ensures CtxOk(l, b', d, None) { assert CtxOk(l, b, d, None); }
  }

  lemma LoseOk(l: Limits, b: Book, r: nat)
    requires BookOk(l, b, None, None) && r in b.parents
    ensures BookOk(l, Lose(b, r), None, None)
  {
    LoseCtxs(l, b, r);
    hide CtxsOk, RepliesOk;
    LoseOwners(b, r);
  }

  /** The unit task has put the context down. */
  lemma CoolOk(l: Limits, b: Book, c: nat)
    requires BookOk(l, b, Some(c), None)
    requires c in b.ctxs ==> b.ctxs[c].inflight > 0
    ensures BookOk(l, b, None, None)
  {
    forall d | d in b.ctxs ensures CtxOk(l, b, d, None) { assert CtxOk(l, b, d, Some(c)); }
  }
}
