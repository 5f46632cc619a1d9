/** What every run of the I/O path guarantees, from a freshly set-up queue on:
    each result speaks of the state after an arbitrary sequence of commands,
    completions, drain ends, watchdog ticks, flushes, re-pumps and task stops,
    under an arbitrary environment. */
module IoTheorems {
  import opened Arith
  import opened Tags
  import opened Chunk
  import opened IoCore
  import opened IoBook
  import opened IoPath

  datatype Boot = Boot(depth: nat, skipGen: bool, live: bool)

  ghost predicate Runnable(cfg: Config, boot: Boot, es: seq<Event>) {
    CfgOk(cfg) && 0 < boot.depth <= 256 && EventsOk(cfg, es)
  }

  /** The state after the events `es`. */
  ghost function After(cfg: Config, env: Env, boot: Boot, es: seq<Event>): (s: State)
    requires Runnable(cfg, boot, es)
    ensures Rest(cfg, s) && s.book.nextIo == |Commands(es)|
  {
    hide Rest, EventsOk;
    StartRest(cfg, boot.depth, boot.skipGen, boot.live);
    IoPath.Run(cfg, env, Start(boot.depth, boot.skipGen, boot.live), es)
  }

  /** One event more. */
  lemma AfterPush(cfg: Config, env: Env, boot: Boot, es: seq<Event>, e: Event)
    requires Runnable(cfg, boot, es) && EventOk(cfg, e)
    ensures Runnable(cfg, boot, es + [e])
    ensures After(cfg, env, boot, es + [e]) == IoPath.Step(cfg, env, After(cfg, env, boot, es), e)
  {
    hide Rest, EventOk, IoPath.Step;
    StartRest(cfg, boot.depth, boot.skipGen, boot.live);
    RunPush(cfg, env, Start(boot.depth, boot.skipGen, boot.live), es, e);
  }

  // ------------------------------------------------------------ one reply

  datatype Holder = ByRequest(r: nat) | ByContext(c: nat) | ByLost(r: nat)

  /** `h` is what will answer IOStdReq `io`; for a lost request, what would have. */
  ghost predicate Holds(b: Book, io: nat, h: Holder) {
    match h
    case ByRequest(r) => r in b.parents && b.parents[r].Single? && b.parents[r].io == io
    case ByContext(c) => c in b.ctxs && b.ctxs[c].io == io
    case ByLost(r) => r in b.lost && b.lost[r].Single? && b.lost[r].io == io
  }

  lemma OwnersHold(b: Book, io: nat)
    requires OwnersOk(b, None) && io < b.nextIo
    ensures io in b.replies <==> !exists h :: Holds(b, io, h)
    ensures forall h1, h2 :: Holds(b, io, h1) && Holds(b, io, h2) ==> h1 == h2
  {
    assert OwnerMatches(b, io, None);
    match b.owner[io]
    case ByReq(r) => assert Holds(b, io, ByRequest(r));
    case ByCtx(c) => assert Holds(b, io, ByContext(c));
    case Lost(r) => assert Holds(b, io, ByLost(r));
    case Replied =>
  }

  /** Every accepted IOStdReq is replied at most once; until then exactly one
      single-shot request or one context holds it, or it is stranded with the
      one request a full ring swallowed on resubmission. */
  lemma RepliedOnceOrHeld(cfg: Config, env: Env, boot: Boot, es: seq<Event>, io: nat)
    requires Runnable(cfg, boot, es)
    ensures var b := After(cfg, env, boot, es).book;
            && multiset(b.replyLog)[io] <= 1
            && (io >= b.nextIo ==> multiset(b.replyLog)[io] == 0)
            && (io < b.nextIo ==>
                  && (multiset(b.replyLog)[io] == 0 <==> exists h :: Holds(b, io, h))
                  && forall h1, h2 :: Holds(b, io, h1) && Holds(b, io, h2) ==> h1 == h2)
  {
    var s := After(cfg, env, boot, es);
    assert OwnersOk(s.book, None);
    hide After, CtxsOk, RepliesOk, CoreOk, IdsOk, BookOk, Rest;
    if io < s.book.nextIo { OwnersHold(s.book, io); }
    hide OwnerMatches;
  }

  /** The slots of the in-flight table that hold request `r`. */
  ghost predicate InTable(k: Core, r: nat, t: nat) {
    t < |k.pool.table| && k.pool.table[t].Busy? && k.pool.table[t].req == r
  }

  /** A live request sits in exactly one table slot, or on the retry list; never
      in both. */
  lemma RequestPlaced(cfg: Config, s: State, r: nat)
    requires Rest(cfg, s)
    ensures r in s.book.parents <==> (r in s.core.retryList || exists t :: InTable(s.core, r, t))
    ensures r in s.core.retryList ==> !exists t :: InTable(s.core, r, t)
    ensures forall t, u :: InTable(s.core, r, t) && InTable(s.core, r, u) ==> t == u
    ensures NoDup(s.core.retryList)
  {
    var k := s.core;
    assert r in s.book.parents <==> r in k.reqs;
    assert Placed(k, None) && Valid(k.pool);
    hide CoreOk, BookOk, IdsOk, Inv, Rest;
    SlotsOf(k, r);
  }

  lemma SlotsOf(k: Core, r: nat)
    requires Placed(k, None) && Valid(k.pool)
    ensures r in k.reqs <==> (r in k.retryList || exists t :: InTable(k, r, t))
    ensures r in k.retryList ==> !exists t :: InTable(k, r, t)
    ensures forall t, u :: InTable(k, r, t) && InTable(k, r, u) ==> t == u
  {
    if r in k.reqs && r !in k.retryList {
      assert InTable(k, r, k.reqs[r].cid.tag);
    }
    forall t: nat | InTable(k, r, t) ensures r in k.reqs && r !in k.retryList && k.reqs[r].cid.tag == t {
      assert k.pool.table[t].cid == Stamp(k.pool, t);
    }
  }

  ghost function LiveSibs(b: Book, c: nat): set<nat> {
    set r | r in b.parents && b.parents[r] == Sibling(c)
  }

  ghost function LostSibs(b: Book, c: nat): set<nat> {
    set r | r in b.lost && b.lost[r] == Sibling(c)
  }

  /** `ctx->inflight` counts the siblings in the table and on the retry list;
      it runs ahead only by the siblings lost to a full ring. */
  lemma InflightCounts(cfg: Config, env: Env, boot: Boot, es: seq<Event>, c: nat)
    requires Runnable(cfg, boot, es)
    ensures var s := After(cfg, env, boot, es);
            && (c in s.book.ctxs ==>
                  s.book.ctxs[c].inflight == |LiveSibs(s.book, c)| + |LostSibs(s.book, c)|)
            && (c in s.book.ctxs && !s.book.ctxs[c].stalled ==> s.book.ctxs[c].inflight > 0)
            && (c in s.book.ctxs ==> s.book.ctxs[c].inflight <= 16 && s.book.ctxs[c].inflight <= cfg.ioMax)
            && (forall r :: r in LiveSibs(s.book, c) ==>
                  (r in s.core.retryList <==> !exists t :: InTable(s.core, r, t)))
            && (c !in s.book.ctxs ==> LiveSibs(s.book, c) == {})
  {
    hide After, Rest, InTable, LiveSibs, LostSibs;
    var s := After(cfg, env, boot, es);
    SibsPlaced(cfg, s, c);
    SibsBooked(cfg, s, c);
  }

  lemma SibsPlaced(cfg: Config, s: State, c: nat)
    requires Rest(cfg, s)
    ensures forall r :: r in LiveSibs(s.book, c) ==> (r in s.core.retryList <==> !exists t :: InTable(s.core, r, t))
  {
    hide Rest, InTable;
    forall r | r in LiveSibs(s.book, c) ensures r in s.core.retryList <==> !exists t :: InTable(s.core, r, t) {
      RequestPlaced(cfg, s, r);
    }
  }

  lemma SibsBooked(cfg: Config, s: State, c: nat)
    requires Rest(cfg, s)
    ensures c in s.book.ctxs ==>
              && s.book.ctxs[c].inflight == |LiveSibs(s.book, c)| + |LostSibs(s.book, c)|
              && (!s.book.ctxs[c].stalled ==> s.book.ctxs[c].inflight > 0)
              && s.book.ctxs[c].inflight <= 16 && s.book.ctxs[c].inflight <= cfg.ioMax
    ensures c !in s.book.ctxs ==> LiveSibs(s.book, c) == {}
  {
    assert CtxsOk(cfg.limits, s.book, None) && LinksOk(cfg.limits, s.book) && SibsCapped(cfg, s.book);
    hide Rest, CtxsOk, LinksOk;
    if c in s.book.ctxs { SibsCount(cfg.limits, s.book, c); } else { OrphansNone(cfg.limits, s.book, c); }
  }

  lemma OrphansNone(l: Limits, b: Book, c: nat)
    requires LinksOk(l, b) && c !in b.ctxs
    ensures LiveSibs(b, c) == {}
  {
    assert forall r :: r in b.parents && b.parents[r].Sibling? ==> b.parents[r].ctx in b.ctxs;
  }

  lemma SibsCount(l: Limits, b: Book, c: nat)
    requires CtxsOk(l, b, None) && c in b.ctxs
    ensures b.ctxs[c].inflight == |LiveSibs(b, c)| + |LostSibs(b, c)|
    ensures !b.ctxs[c].stalled ==> b.ctxs[c].inflight > 0
  {
    assert CtxOk(l, b, c, None);
    assert b.parents.Keys !! b.lost.Keys;
    hide CtxsOk, LinksOk;
    SibsSplit(b, c, b.ctxs[c].sibs);
    hide TilesOk, SibsOk, JobOk, Tiling;
  }

  lemma SibsSplit(b: Book, c: nat, sibs: set<nat>)
    requires SibsOk(b, c, sibs) && b.parents.Keys !! b.lost.Keys
    ensures |sibs| == |LiveSibs(b, c)| + |LostSibs(b, c)|
  {
    assert LiveSibs(b, c) !! LostSibs(b, c);
    assert sibs == LiveSibs(b, c) + LostSibs(b, c);
  }

  // --------------------------------------------------------------- tiling

  /** The chunks lie end to end from offset 0, at matching block addresses. */
  ghost predicate EndToEnd(job: Job, tiles: seq<Tile>) {
    && (tiles != [] ==> tiles[0].off == 0 && tiles[0].lba == job.lba)
    && (forall i :: 0 < i < |tiles| ==>
          && tiles[i].off == tiles[i - 1].off + tiles[i - 1].len
          && tiles[i].lba == tiles[i - 1].lba + tiles[i - 1].len / BlockSize(job.unit.shift))
  }

  /** One chunk: whole blocks, inside the transfer, within the cap at its own
      LBA, and within one stripe under the stripe quirk. */
  ghost predicate GoodChunk(l: Limits, job: Job, t: Tile) {
    var bs := BlockSize(job.unit.shift);
    && t.off % bs == 0 && t.lba == job.lba + t.off / bs
    && 0 < t.len && t.len % bs == 0 && t.off + t.len <= job.total
    && (Cap(l, job.unit, job.op, t.lba) != 0 ==> t.len <= Cap(l, job.unit, job.op, t.lba))
    && (l.stripe && IsPow2(l.maxHw) && StripeBlocks(l, job.unit.shift) != 0 && !job.op.Zeroes? ==>
          t.lba / StripeBlocks(l, job.unit.shift) == (t.lba + t.len / bs - 1) / StripeBlocks(l, job.unit.shift))
  }

  lemma ChunkGood(l: Limits, job: Job, start: nat, t: Tile)
    requires JobOk(l, job) && IsData(job.op) && TileAt(l, job, start, t) && start % BlockSize(job.unit.shift) == 0
    ensures GoodChunk(l, job, t)
  {
    hide Aligned, Cap, IsPow2, StripeBlocks, NextBytes;
    SubMod(job.total, start, BlockSize(job.unit.shift));
    ChunkBlocks(l, job.unit, job.op, t.lba, job.total - start);
    if l.stripe && IsPow2(l.maxHw) && StripeBlocks(l, job.unit.shift) != 0 && !job.op.Zeroes? {
      ChunkInStripe(l, job.unit, job.op, t.lba, job.total - start);
    }
  }

  lemma {:induction false} TilingGood(l: Limits, job: Job, tiles: seq<Tile>)
    requires JobOk(l, job) && IsData(job.op) && Tiling(l, job, tiles)
    ensures EndToEnd(job, tiles)
    ensures forall t :: t in tiles ==> GoodChunk(l, job, t)
    decreases |tiles|
  {
    if tiles != [] {
      var n := |tiles| - 1;
      var rest := tiles[..n];
      assert tiles == rest + [tiles[n]];
      TilingGood(l, job, rest);
      TilingEndBlocks(l, job, rest);
      hide JobOk, GoodChunk, Tiling, NextBytes, EndToEnd;
      ChunkGood(l, job, End(rest), tiles[n]);
      Appended(l, job, rest, tiles[n]);
    }
  }

  lemma Appended(l: Limits, job: Job, rest: seq<Tile>, t: Tile)
    requires EndToEnd(job, rest) && (forall u :: u in rest ==> GoodChunk(l, job, u))
    requires t.off == End(rest) && t.lba == job.lba + t.off / BlockSize(job.unit.shift)
    ensures EndToEnd(job, rest + [t])
  {
    hide GoodChunk;
    if rest == [] {
      assert 0 / BlockSize(job.unit.shift) == 0;
    } else {
      var n := |rest| - 1;
      assert rest[n] in rest;
      LbaStep(l, job, rest[n], t);
    }
  }

  lemma LbaStep(l: Limits, job: Job, t: Tile, u: Tile)
    requires GoodChunk(l, job, t) && u.off == t.off + t.len && u.lba == job.lba + u.off / BlockSize(job.unit.shift)
    ensures u.lba == t.lba + t.len / BlockSize(job.unit.shift)
  {
    DivSum(t.off, t.len, BlockSize(job.unit.shift));
  }

  /** At every moment of every context's life the commands written to the ring
      for it tile the part of the transfer dispatched so far, in order, without
      gap or overlap. */
  lemma ContextTiles(cfg: Config, env: Env, boot: Boot, es: seq<Event>, c: nat)
    requires Runnable(cfg, boot, es)
    ensures var b := After(cfg, env, boot, es).book;
            c in b.ctxs ==>
              && EndToEnd(b.ctxs[c].job, b.ctxs[c].tiles)
              && (forall t :: t in b.ctxs[c].tiles ==> GoodChunk(cfg.limits, b.ctxs[c].job, t))
              && (forall t :: t in b.ctxs[c].tiles ==> Wired(After(cfg, env, boot, es).core.wire, b.ctxs[c].job, t))
              && End(b.ctxs[c].tiles) == b.ctxs[c].dispatched <= b.ctxs[c].job.total
  {
    var b := After(cfg, env, boot, es).book;
    assert TilesWired(After(cfg, env, boot, es).core.wire, b);
    hide After, CoreOk, OwnersOk, RepliesOk, EndToEnd, GoodChunk, Wired;
    if c in b.ctxs {
      assert CtxOk(cfg.limits, b, c, None);
      TilingGood(cfg.limits, b.ctxs[c].job, b.ctxs[c].tiles);
    }
  }

  /** A reply with io_Error 0: its chunks cover the whole transfer end to end,
      each was the command written to the ring and finally completed with SCT and
      SC zero.  A refusal at dispatch never carries error 0. */
  lemma CleanReply(cfg: Config, env: Env, boot: Boot, es: seq<Event>, io: nat)
    requires Runnable(cfg, boot, es)
    ensures var b := After(cfg, env, boot, es).book;
            io in b.replies && b.replies[io].err == 0 ==>
              && var y := b.replies[io];
              && y.Outcome? && y.tiles != []
              && (forall t :: t in y.tiles ==> t.req in b.done && SctSc(b.done[t.req]) == 0)
              && (forall t :: t in y.tiles ==> Wired(After(cfg, env, boot, es).core.wire, y.job, t))
              && (IsData(y.job.op) ==> Tiling(cfg.limits, y.job, y.tiles) && End(y.tiles) == y.job.total)
  {
    var b := After(cfg, env, boot, es).book;
    assert RepliesOk(cfg.limits, b.done, b.replies);
    assert TilesWired(After(cfg, env, boot, es).core.wire, b);
    hide After, CoreOk, OwnersOk, CtxsOk, BookOk, Rest, Tiling, SctSc, Wired;
    if io in b.replies {
      var y := b.replies[io];
      assert ReplyOk(cfg.limits, b.done, y);
      if y.err == 0 {
        forall t | t in y.tiles ensures t.req in b.done && SctSc(b.done[t.req]) == 0 { assert Clean(b.done, t); }
      }
    }
  }

  ghost predicate ActualAsMoved(y: Reply) {
    y.Outcome? && y.err == 0 && IsData(y.job.op) ==>
      && y.actual == (if y.chunked then End(y.tiles) else y.job.ioLength)
      && (y.job.trackdisk ==>
            (y.actual == End(y.tiles) <==> y.chunked || y.job.ioLength % BlockSize(y.job.unit.shift) == 0))
  }

  /** io_Actual after a read, write or Write Zeroes without error, against the
      bytes that moved.  A context answers with exactly those; a single-shot
      request answers with io_Length, which for a trackdisk command is what moved
      exactly when io_Length is a whole number of blocks. */
  lemma ActualIff(cfg: Config, env: Env, boot: Boot, es: seq<Event>, io: nat)
    requires Runnable(cfg, boot, es)
    ensures var b := After(cfg, env, boot, es).book;
            io in b.replies ==> ActualAsMoved(b.replies[io])
  {
    var b := After(cfg, env, boot, es).book;
    hide After, Rest, ActualAsMoved;
    RestReplies(cfg, After(cfg, env, boot, es));
    hide RepliesOk, ReplyOk;
    if io in b.replies { ActualOf(cfg.limits, b.done, b.replies[io]); }
  }

  lemma RestReplies(cfg: Config, s: State)
    requires Rest(cfg, s)
    ensures forall io :: io in s.book.replies ==> ReplyOk(cfg.limits, s.book.done, s.book.replies[io])
  {
    assert RepliesOk(cfg.limits, s.book.done, s.book.replies);
    hide Rest, ReplyOk;
  }

  lemma ActualOf(l: Limits, done: map<nat, nat>, y: Reply)
    requires ReplyOk(l, done, y)
    ensures ActualAsMoved(y)
  {
    hide Clean, Aligned, End, Tiling, BlockSize;
  }

  // ----------------------------------------------------- memory, submissions

  /** The live PRP lists, bounce buffers and range buffers are exactly the
      blocks of live requests, each of one request and of the heap that request
      will free it to; nothing was ever freed twice or to the wrong heap. */
  lemma LedgerExact(cfg: Config, env: Env, boot: Boot, es: seq<Event>)
    requires Runnable(cfg, boot, es)
    ensures var k := After(cfg, env, boot, es).core;
            && !k.mem.fault
            && (forall a :: a in k.mem.live <==> exists r :: r in k.reqs && a in Blocks(k.reqs[r]))
            && (forall q, r :: q in k.reqs && r in k.reqs && q != r ==> Blocks(k.reqs[q]) !! Blocks(k.reqs[r]))
            && (forall r, a :: r in k.reqs && a in k.reqs[r].pages ==> k.mem.live[a].heap == HeapOf(k.reqs[r]))
            && (forall r :: r in k.reqs && k.reqs[r].bounce.Some? ==>
                  k.mem.live[k.reqs[r].bounce.value].heap == DmaPool)
  {
    var k := After(cfg, env, boot, es).core;
    assert MemOk(k.mem, k.reqs, {});
    hide After, Rest, Inv, CoreOk, LiveOk, ReqsOk, Blocks;
    assert LiveOk(k.mem, k.reqs, {}) && ReqsOk(k.mem, k.reqs, {});
    BlocksOwned(k);
  }

  lemma BlocksOwned(k: Core)
    requires LiveOk(k.mem, k.reqs, {}) && ReqsOk(k.mem, k.reqs, {})
    ensures forall a :: a in k.mem.live <==> exists r :: r in k.reqs && a in Blocks(k.reqs[r])
    ensures forall q, r :: q in k.reqs && r in k.reqs && q != r ==> Blocks(k.reqs[q]) !! Blocks(k.reqs[r])
    ensures forall r, a :: r in k.reqs && a in k.reqs[r].pages ==> k.mem.live[a].heap == HeapOf(k.reqs[r])
    ensures forall r :: r in k.reqs && k.reqs[r].bounce.Some? ==> k.mem.live[k.reqs[r].bounce.value].heap == DmaPool
  {
    forall r, a | r in k.reqs && a in Blocks(k.reqs[r]) ensures a in k.mem.live && k.mem.live[a].owner == r {
      assert ReqMem(k.mem, r, k.reqs[r]);
    }
    forall a | a in k.mem.live ensures exists r :: r in k.reqs && a in Blocks(k.reqs[r]) {
      assert k.mem.live[a].owner in k.reqs && a in Blocks(k.reqs[k.mem.live[a].owner]);
    }
    forall r | r in k.reqs ensures ReqMem(k.mem, r, k.reqs[r]) {}
  }

  /** No request is placed on the submission queue more than six times. */
  lemma SixSubmissions(cfg: Config, env: Env, boot: Boot, es: seq<Event>, r: nat)
    requires Runnable(cfg, boot, es)
    ensures Writes(After(cfg, env, boot, es).core.sq, r) <= 6
  {
    assert SqOk(After(cfg, env, boot, es).core);
  }

  /** At rest the tag pool is partitioned, and `inflight_count` counts slots. */
  lemma TagsPartition(cfg: Config, env: Env, boot: Boot, es: seq<Event>)
    requires Runnable(cfg, boot, es)
    ensures var p := After(cfg, env, boot, es).core.pool;
            && NoDup(TagsOf(p.free))
            && BusyTags(p) !! Elems(TagsOf(p.free))
            && BusyTags(p) + Elems(TagsOf(p.free)) == Upto(|p.table|)
            && p.count == |BusyTags(p)| == |p.table| - |p.free|
  {
    var p := After(cfg, env, boot, es).core.pool;
    assert Valid(p);
    hide After, Rest, Inv;
    CountIsBusy(p);
  }

  // ------------------------------------------------------- 16-bit block count

  /** Every read, write and Write Zeroes command ever placed on the ring, first
      submissions and resubmissions alike, has between 1 and 65536 blocks, so its
      16-bit NLB field holds the count untruncated. */
  lemma NlbUntruncated(cfg: Config, env: Env, boot: Boot, es: seq<Event>, r: nat)
    requires Runnable(cfg, boot, es)
    ensures var k := After(cfg, env, boot, es).core;
            && (r in k.sq ==> r in k.wire)
            && (r in k.wire ==> NlbFits(k.wire[r].sqe))
  {
    hide NlbFits;
    assert WireIds(After(cfg, env, boot, es).core);
  }

  /** The command of a busy slot has been written to the ring, last under the very
      CID the slot expects: its completion will be matched to its request. */
  lemma BusyIsWritten(cfg: Config, s: State, t: nat)
    requires t < |s.core.pool.table| && s.core.pool.table[t].Busy? && Rest(cfg, s)
    ensures var r := s.core.pool.table[t].req;
            && r in s.core.wire && s.core.wire[r].cid == s.core.pool.table[t].cid
            && Lookup(s.core.pool, s.core.wire[r].cid) == Some(r)
  {
    RestSlot(cfg, s, t);
    assert WireIds(s.core) && Placed(s.core, None) && Valid(s.core.pool);
    hide Rest, Inv, BookOk;
  }
}
