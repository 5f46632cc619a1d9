/** The transport half of an I/O request's life: tag, slot in the submission
    ring, retry list, and the memory blocks the request owns.

    Requests are slab objects, modelled as a map from identity to record; an
    identity is never reused, so it names one lifetime.  Allocators, the clock
    and the "is this buffer reachable by DMA" test are answers of an arbitrary
    environment `Env`, consulted in order through `clock`. */
module IoCore {
  import opened Base
  import opened Tags
  import opened Chunk
  import Prp

  datatype Env = Env(grant: nat -> bool, bounce: nat -> bool, offset: nat -> nat, now: nat -> nat)

  // ------------------------------------------------------------------ memory

  datatype Heap = SmallSlab | LargeSlab | DmaPool

  datatype Block = Block(heap: Heap, owner: nat)

  /** Live blocks.  `fault` records a block freed twice or to the wrong heap. */
  datatype Mem = Mem(live: map<nat, Block>, next: nat, fault: bool)

  /** The new block is `m.next`. */
  function Malloc(m: Mem, heap: Heap, owner: nat): Mem {
    m.(live := m.live[m.next := Block(heap, owner)], next := m.next + 1)
  }

  function Free(m: Mem, a: nat, heap: Heap): Mem {
    if a in m.live && m.live[a].heap == heap then m.(live := m.live - {a}) else m.(fault := true)
  }

  function FreeAll(m: Mem, pages: seq<nat>, heap: Heap): Mem
    decreases |pages|
  {
    if pages == [] then m
    else FreeAll(Free(m, pages[|pages| - 1], heap), pages[..|pages| - 1], heap)
  }

  lemma {:induction false} FreeAllOk(m: Mem, pages: seq<nat>, heap: Heap)
    requires NoDup(pages)
    requires forall a :: a in pages ==> a in m.live && m.live[a].heap == heap
    ensures FreeAll(m, pages, heap) == m.(live := m.live - Elems(pages))
    decreases |pages|
  {
    if pages == [] {
      assert m.live - Elems(pages) == m.live;
    } else {
      var n := |pages| - 1;
      var last, rest := pages[n], pages[..n];
      assert pages == rest + [last];
      assert last !in rest;
      FreeAllOk(Free(m, last, heap), rest, heap);
      assert Elems(pages) == Elems(rest) + {last};
      assert (m.live - {last}) - Elems(rest) == m.live - Elems(pages);
    }
  }

  // ---------------------------------------------------------------- requests

  datatype Req = Req(cid: Cid, status: nat, retries: nat, cancelled: bool, deadline: nat, userLen: nat,
                     prpList: bool, prpSlab: bool, prpSmall: bool, pages: seq<nat>, bounce: Option<nat>, sqe: Sqe)

  /** What a command says of its data: start LBA, bytes (the block count is
      `bytes >> shift`), and how far into the caller's buffer they lie. */
  datatype Sqe = Sqe(op: Op, shift: Shift, slba: nat, bytes: nat, at: nat)

  /** An SQE as it stands in the ring. */
  datatype Entry = Entry(cid: Cid, sqe: Sqe)

  /** The 16-bit NLB field, blocks less one, holds the block count untruncated. */
  predicate NlbFits(q: Sqe) {
    q.op.Read? || q.op.Write? || q.op.Zeroes? ==> 0 < q.bytes / BlockSize(q.shift) <= 0x1_0000
  }

  /** `sq` lists the request behind every SQE written, in order; `wire` is what
      was last written for each request. */
  datatype Core = Core(sqUp: bool, sqTail: nat, cqHead: nat, pool: Pool, reqs: map<nat, Req>, nextReq: nat,
                       retryList: seq<nat>, sq: seq<nat>, mem: Mem, clock: nat, wire: map<nat, Entry>)

  function Depth(k: Core): nat { |k.pool.table| }

  /** How often request `r` has been placed on the submission queue. */
  function Writes(sq: seq<nat>, r: nat): nat { multiset(sq)[r] }

  function HeapOf(q: Req): Heap {
    if !q.prpSlab then DmaPool else if q.prpSmall then SmallSlab else LargeSlab
  }

  function Blocks(q: Req): set<nat> {
    Elems(q.pages) + (if q.bounce.Some? then {q.bounce.value} else {})
  }

  // --------------------------------------------------------------- invariant

  ghost predicate ReqMem(m: Mem, r: nat, q: Req) {
    && NoDup(q.pages)
    && (q.pages != [] ==> q.prpList)
    && (q.bounce.Some? ==> q.bounce.value !in q.pages)
    && (forall a :: a in q.pages ==> a in m.live && m.live[a] == Block(HeapOf(q), r))
    && (q.bounce.Some? ==> q.bounce.value in m.live && m.live[q.bounce.value] == Block(DmaPool, r))
  }

  /** The live blocks are exactly the requests' blocks plus `loose`, the blocks
      the caller of a dispatcher still holds. */
  ghost predicate MemOk(m: Mem, reqs: map<nat, Req>, loose: set<nat>) {
    !m.fault && LiveOk(m, reqs, loose) && ReqsOk(m, reqs, loose)
  }

  ghost predicate LiveOk(m: Mem, reqs: map<nat, Req>, loose: set<nat>) {
    && (forall a :: a in m.live ==> a < m.next)
    && (forall a :: a in loose ==> a in m.live && m.live[a].heap == DmaPool)
    && (forall a :: a in m.live && a !in loose ==>
          m.live[a].owner in reqs && a in Blocks(reqs[m.live[a].owner]))
  }

  ghost predicate ReqsOk(m: Mem, reqs: map<nat, Req>, loose: set<nat>) {
    forall r :: r in reqs ==> ReqMem(m, r, reqs[r]) && Blocks(reqs[r]) !! loose
  }

  /** Where a live request is: its table slot, the retry list, or `hand`, the
      request the completion path is working on. */
  ghost predicate Placed(k: Core, hand: Option<nat>) {
    && (forall r :: r in k.reqs ==> r < k.nextReq)
    && (forall t :: 0 <= t < |k.pool.table| && k.pool.table[t].Busy? ==>
          && k.pool.table[t].req in k.reqs
          && k.reqs[k.pool.table[t].req].cid == k.pool.table[t].cid
          && k.pool.table[t].req !in k.retryList
          && hand != Some(k.pool.table[t].req))
    && (forall r :: r in k.reqs && hand != Some(r) && r !in k.retryList ==>
          && k.reqs[r].cid.tag < |k.pool.table|
          && k.pool.table[k.reqs[r].cid.tag] == Busy(r, k.reqs[r].cid))
    && NoDup(k.retryList)
    && (forall r :: r in k.retryList ==> r in k.reqs && hand != Some(r))
  }

  ghost predicate TableOk(k: Core, hand: Option<nat>) {
    Shape(k.pool) && Valid(k.pool) && (hand.Some? ==> hand.value in k.reqs) && Placed(k, hand)
  }

  /** A request outside the retry list and not in hand sits in its slot. */
  lemma InSlot(k: Core, hand: Option<nat>, r: nat)
    requires TableOk(k, hand) && r in k.reqs && r !in k.retryList && hand != Some(r)
    ensures k.reqs[r].cid.tag < |k.pool.table|
    ensures k.pool.table[k.reqs[r].cid.tag] == Busy(r, k.reqs[r].cid)
  {
  }

  /** Six submissions at most, one per attempt. */
  ghost predicate SqOk(k: Core) {
    && (forall r: nat :: Writes(k.sq, r) <= 6)
    && (forall r: nat :: k.nextReq <= r ==> Writes(k.sq, r) == 0)
    && (forall r :: r in k.reqs ==> k.reqs[r].retries <= 5 && Writes(k.sq, r) <= k.reqs[r].retries + 1)
    && (forall r :: r in k.retryList && r in k.reqs ==> Writes(k.sq, r) <= k.reqs[r].retries)
  }

  ghost predicate CoreOk(k: Core, hand: Option<nat>, loose: set<nat>) {
    Whole(TableOk(k, hand) && SqOk(k) && MemOk(k.mem, k.reqs, loose))
  }

  // -------------------------------------------------------------- allocation

  datatype Got = Got(k: Core, r: nat) | Refused(k: Core, err: int)

  /** nvme_req_alloc_io. */
  function AllocIo(env: Env, k: Core): (g: Got)
    requires Shape(k.pool)
  {
    if !env.grant(k.clock) then Refused(k.(clock := k.clock + 1), IOERR_SELFTEST)
    else
      var (pool, cid) := Take(k.pool, k.nextReq);
      if |k.pool.free| == 0 then Refused(k.(clock := k.clock + 1), IOERR_UNITBUSY)
      else
        var q := Req(cid, 0, 0, false, 0, 0, false, false, false, [], None, Sqe(Flush, 9, 0, 0, 0));
        Got(k.(clock := k.clock + 1, pool := pool, reqs := k.reqs[k.nextReq := q], nextReq := k.nextReq + 1),
            k.nextReq)
  }

  /** What an allocation hands over, the invariant aside. */
  ghost predicate AllocResult(k: Core, g: Got) {
    && (g.Refused? ==> g.k == k.(clock := g.k.clock) && (g.err == IOERR_SELFTEST || g.err == IOERR_UNITBUSY))
    && (g.Got? ==>
          && g.r == k.nextReq && g.r in g.k.reqs && g.r !in k.reqs && g.r !in g.k.retryList
          && g.k.reqs == k.reqs[g.r := g.k.reqs[g.r]]
          && g.k.reqs[g.r].pages == [] && g.k.reqs[g.r].bounce.None? && !g.k.reqs[g.r].prpSlab
          && Writes(g.k.sq, g.r) == 0
          && g.k == k.(clock := g.k.clock, pool := g.k.pool, reqs := g.k.reqs, nextReq := k.nextReq + 1)
          && g.k.pool.count == k.pool.count + 1
          && |g.k.pool.table| == |k.pool.table|)
  }

  lemma AllocIoResult(env: Env, k: Core)
    requires Valid(k.pool) && k.nextReq !in k.reqs && k.nextReq !in k.retryList && Writes(k.sq, k.nextReq) == 0
    ensures AllocResult(k, AllocIo(env, k))
  {
    TakeValid(k.pool, k.nextReq);
    hide Valid, Take;
  }

  lemma NextFresh(k: Core)
    requires TableOk(k, None) && SqOk(k)
    ensures Valid(k.pool) && k.nextReq !in k.reqs && k.nextReq !in k.retryList && Writes(k.sq, k.nextReq) == 0
  {
  }

  lemma AllocIoOk(env: Env, k: Core, loose: set<nat>)
    requires CoreOk(k, None, loose)
    ensures CoreOk(AllocIo(env, k).k, None, loose) && AllocResult(k, AllocIo(env, k))
  {
    hide LiveOk, ReqsOk, Placed, SqOk;
    NextFresh(k);
    AllocIoResult(env, k);
    var g := AllocIo(env, k);
    hide AllocResult, Valid;
    if g.Got? {
      AllocIoTable(k, g.k, g.k.reqs[k.nextReq]);
      MemAdmit(k.mem, k.reqs, k.nextReq, g.k.reqs[k.nextReq], loose);
    } else {
      MemOnly(k, g.k);
    }
  }

  /** Only memory and the clock changed. */
  lemma MemOnly(k: Core, k': Core)
    requires TableOk(k, None) && SqOk(k) && k' == k.(clock := k'.clock, mem := k'.mem)
    ensures TableOk(k', None) && SqOk(k')
  {
  }

  lemma AllocIoTable(k: Core, k': Core, q: Req)
    requires TableOk(k, None) && SqOk(k) && |k.pool.free| > 0
    requires var (pool, cid) := Take(k.pool, k.nextReq);
             && q.cid == cid && q.retries == 0
             && k' == k.(clock := k'.clock, pool := pool, reqs := k.reqs[k.nextReq := q], nextReq := k.nextReq + 1)
    ensures TableOk(k', None) && SqOk(k')
  {
    TakeValid(k.pool, k.nextReq);
  }

  lemma MemAdmit(m: Mem, reqs: map<nat, Req>, r: nat, q: Req, loose: set<nat>)
    requires MemOk(m, reqs, loose) && r !in reqs && q.pages == [] && q.bounce.None?
    ensures MemOk(m, reqs[r := q], loose)
  {
    assert Blocks(q) == {};
    forall a | a in m.live && a !in loose
      ensures m.live[a].owner in reqs[r := q] && a in Blocks(reqs[r := q][m.live[a].owner])
    {
      assert m.live[a].owner in reqs && a in Blocks(reqs[m.live[a].owner]);
    }
  }

  // ----------------------------------------------------------- command setup

  datatype Build = Build(mem: Mem, clock: nat, pages: seq<nat>, ok: bool)

  /** The page-allocation side of build_prps: at most 8 list pages, and on any
      refusal everything gathered so far goes back. */
  function BuildPages(env: Env, b: Build, r: nat, need: nat, heap: Heap): Build
    decreases need - |b.pages|
  {
    if |b.pages| >= need then b.(ok := true)
    else if |b.pages| >= 8 then Build(FreeAll(b.mem, b.pages, heap), b.clock, [], false)
    else if !env.grant(b.clock) then Build(FreeAll(b.mem, b.pages, heap), b.clock + 1, [], false)
    else BuildPages(env, Build(Malloc(b.mem, heap, r), b.clock + 1, b.pages + [b.mem.next], false), r, need, heap)
  }

  /** `b.pages` are live blocks of `r` outside `base`, and nothing else changed. */
  ghost predicate Grown(base: Mem, b: Build, r: nat, heap: Heap) {
    && NoDup(b.pages)
    && (forall a :: a in b.pages ==> base.next <= a < b.mem.next && a in b.mem.live && b.mem.live[a] == Block(heap, r))
    && b.mem.fault == base.fault && base.next <= b.mem.next
    && b.mem.live - Elems(b.pages) == base.live
  }

  lemma {:induction false} BuildPagesOk(env: Env, base: Mem, b: Build, r: nat, need: nat, heap: Heap)
    requires Grown(base, b, r, heap)
    requires forall a :: a in base.live ==> a < base.next
    ensures var c := BuildPages(env, b, r, need, heap);
            && Grown(base, c, r, heap)
            && (!c.ok ==> c.pages == [])
            && (c.ok && |b.pages| <= need ==> |c.pages| == need && (need <= 8 || need == |b.pages|))
    decreases need - |b.pages|
  {
    hide Grown, FreeAll;
    if |b.pages| >= need {
      GrownMark(base, b, r, heap);
    } else if |b.pages| >= 8 || !env.grant(b.clock) {
      GrownBack(base, b, r, heap, b.clock);
      GrownBack(base, b, r, heap, b.clock + 1);
    } else {
      var c := Build(Malloc(b.mem, heap, r), b.clock + 1, b.pages + [b.mem.next], false);
      GrownStep(base, b, c, r, heap);
      BuildPagesOk(env, base, c, r, need, heap);
    }
  }

  lemma GrownMark(base: Mem, b: Build, r: nat, heap: Heap)
    requires Grown(base, b, r, heap)
    ensures Grown(base, b.(ok := true), r, heap)
  {
  }

  /** The pages gathered go back: nothing is left of the attempt. */
  lemma GrownBack(base: Mem, b: Build, r: nat, heap: Heap, clock: nat)
    requires Grown(base, b, r, heap)
    ensures Grown(base, Build(FreeAll(b.mem, b.pages, heap), clock, [], false), r, heap)
  {
    FreeAllOk(b.mem, b.pages, heap);
    assert base.live - Elems([]) == base.live;
  }

  lemma GrownStep(base: Mem, b: Build, c: Build, r: nat, heap: Heap)
    requires Grown(base, b, r, heap)
    requires forall a :: a in base.live ==> a < base.next
    requires c.mem == Malloc(b.mem, heap, r) && c.pages == b.pages + [b.mem.next]
    ensures Grown(base, c, r, heap)
  {
    assert Elems(c.pages) == Elems(b.pages) + {b.mem.next};
    assert b.mem.next !in Elems(b.pages);
    assert b.mem.next !in b.mem.live - Elems(b.pages);
    assert c.mem.live - Elems(c.pages) == b.mem.live - Elems(b.pages);
  }

  /** The command itself. */
  function SetSqe(k: Core, r: nat, sqe: Sqe): Core
    requires r in k.reqs
  {
    k.(reqs := k.reqs[r := k.reqs[r].(sqe := sqe)])
  }

  lemma SetSqeTable(k: Core, r: nat, sqe: Sqe)
    requires TableOk(k, None) && SqOk(k) && r in k.reqs
    ensures TableOk(SetSqe(k, r, sqe), None) && SqOk(SetSqe(k, r, sqe))
  {
  }

  lemma SetSqeOk(k: Core, r: nat, sqe: Sqe, loose: set<nat>)
    requires CoreOk(k, None, loose) && r in k.reqs
    ensures CoreOk(SetSqe(k, r, sqe), None, loose)
  {
    hide Placed, Valid, Shape, SqOk, LiveOk, ReqsOk;
    SetSqeTable(k, r, sqe);
    SameBlocks(k.mem, k.reqs, r, SetSqe(k, r, sqe).reqs[r], loose);
  }

  /** Where in its page the bounce buffer asked for at `clock` starts. */
  function BounceOff(env: Env, clock: nat): nat { env.offset(clock) % PAGE }

  /** Bounce buffer when the data is out of DMA reach.  A block the pool grants
      lies in the 32-bit address space. */
  function Bounce(env: Env, k: Core, r: nat, bytes: nat): (res: (Core, int))
    requires r in k.reqs
  {
    var q := k.reqs[r].(userLen := bytes, bounce := None);
    var k1 := k.(clock := k.clock + 2, reqs := k.reqs[r := q]);
    if bytes == 0 || !env.bounce(k.clock) then (k1, 0)
    else if !env.grant(k.clock + 1) || BounceOff(env, k.clock) + bytes > U32 then (k1, IOERR_SELFTEST)
    else (k1.(mem := Malloc(k.mem, DmaPool, r), reqs := k.reqs[r := q.(bounce := Some(k.mem.next))]), 0)
  }

  /** build_prps for a buffer `off` bytes into its page. */
  function LayPrps(env: Env, k: Core, r: nat, bytes: nat, off: nat): (res: (Core, int))
    requires r in k.reqs
  {
    var nr := Prp.DataPages(off, bytes);
    var need := Prp.ListPages(nr);
    if need == 0 then (k, 0)
    else
      var small := nr <= 32;
      var b := BuildPages(env, Build(k.mem, k.clock, [], false), r, need, if small then SmallSlab else LargeSlab);
      var q := if b.ok then k.reqs[r].(pages := b.pages, prpList := true, prpSlab := true, prpSmall := small)
               else k.reqs[r].(pages := []);
      (k.(clock := b.clock, mem := b.mem, reqs := k.reqs[r := q]), if b.ok then 0 else IOERR_SELFTEST)
  }

  /** nvme_setup_rw.  `off` is the user buffer's offset in its page; a bounce
      buffer has its own. */
  function SetupRw(env: Env, k: Core, r: nat, bytes: nat, off: nat): (res: (Core, int))
    requires r in k.reqs
  {
    var (k1, err) := Bounce(env, k, r, bytes);
    if err != 0 then (k1, err)
    else LayPrps(env, k1, r, bytes, if k1.reqs[r].bounce.Some? then BounceOff(env, k.clock) else off)
  }

  /** Only memory, the clock and `r`'s own record change, and the record keeps
      what places it. */
  ghost predicate OnlyReq(k: Core, k': Core, r: nat) {
    && r in k.reqs && r in k'.reqs
    && k' == k.(clock := k'.clock, mem := k'.mem, reqs := k.reqs[r := k'.reqs[r]])
    && k'.reqs[r].cid == k.reqs[r].cid
    && k'.reqs[r].retries == k.reqs[r].retries && k'.reqs[r].sqe == k.reqs[r].sqe
  }

  /** Every request record but `r`'s is untouched. */
  ghost predicate Spares(reqs: map<nat, Req>, reqs': map<nat, Req>, r: nat) {
    forall x :: x in reqs && x != r ==> x in reqs' && reqs'[x] == reqs[x]
  }

  lemma OnlyReqTrans(k: Core, k1: Core, k2: Core, r: nat)
    requires OnlyReq(k, k1, r) && OnlyReq(k1, k2, r)
    ensures OnlyReq(k, k2, r)
  {
    assert k.reqs[r := k1.reqs[r]][r := k2.reqs[r]] == k.reqs[r := k2.reqs[r]];
  }

  lemma OnlyReqTable(k: Core, k': Core, r: nat, hand: Option<nat>)
    requires OnlyReq(k, k', r) && TableOk(k, hand) && SqOk(k)
    ensures TableOk(k', hand) && SqOk(k')
  {
  }

  lemma BounceMem(m: Mem, reqs: map<nat, Req>, r: nat, q: Req)
    requires MemOk(m, reqs, {}) && r in reqs && reqs[r].pages == [] && reqs[r].bounce.None?
    requires q.pages == [] && (q.bounce.None? || q.bounce == Some(m.next))
    ensures MemOk(if q.bounce.None? then m else Malloc(m, DmaPool, r), reqs[r := q], {})
  {
    BounceReqs(m, reqs, r, q);
    hide ReqsOk;
    assert Blocks(reqs[r]) == {};
    assert q.bounce.Some? ==> Blocks(q) == {m.next};
    assert q.bounce.None? ==> Blocks(q) == {};
  }

  lemma BounceReqs(m: Mem, reqs: map<nat, Req>, r: nat, q: Req)
    requires LiveOk(m, reqs, {}) && ReqsOk(m, reqs, {}) && r in reqs && reqs[r].pages == [] && reqs[r].bounce.None?
    requires q.pages == [] && (q.bounce.None? || q.bounce == Some(m.next))
    ensures ReqsOk(if q.bounce.None? then m else Malloc(m, DmaPool, r), reqs[r := q], {})
  {
    var m' := if q.bounce.None? then m else Malloc(m, DmaPool, r);
    forall x | x in reqs ensures ReqMem(m', x, reqs[r := q][x]) {
      assert ReqMem(m, x, reqs[x]);
    }
  }

  lemma BounceFrame(env: Env, k: Core, r: nat, bytes: nat)
    requires r in k.reqs && k.reqs[r].pages == [] && k.reqs[r].bounce.None?
    ensures var (k', err) := Bounce(env, k, r, bytes);
            && OnlyReq(k, k', r) && (err == 0 || err == IOERR_SELFTEST)
            && k'.reqs[r].userLen == bytes && k'.reqs[r].pages == []
            && (k'.reqs[r].bounce.None?
                || (k'.reqs[r].bounce == Some(k.mem.next) && BounceOff(env, k.clock) + bytes <= U32))
            && k'.mem == if k'.reqs[r].bounce.None? then k.mem else Malloc(k.mem, DmaPool, r)
  {
  }

  lemma BounceOk(env: Env, k: Core, r: nat, bytes: nat)
    requires r in k.reqs && k.reqs[r].pages == [] && k.reqs[r].bounce.None?
    requires CoreOk(k, None, {})
    ensures CoreOk(Bounce(env, k, r, bytes).0, None, {})
  {
    hide Placed, SqOk, LiveOk, ReqsOk, Valid, Shape;
    BounceFrame(env, k, r, bytes);
    hide Bounce;
    var k' := Bounce(env, k, r, bytes).0;
    OnlyReqTable(k, k', r, None);
    BounceMem(k.mem, k.reqs, r, k'.reqs[r]);
  }

  lemma LayPrpsFrame(env: Env, k: Core, r: nat, bytes: nat, off: nat)
    requires r in k.reqs && k.reqs[r].pages == []
    ensures var (k', err) := LayPrps(env, k, r, bytes, off);
            && OnlyReq(k, k', r)
            && (err == 0 || err == IOERR_SELFTEST)
            && k'.reqs[r].userLen == k.reqs[r].userLen && k'.reqs[r].bounce == k.reqs[r].bounce
  {
    hide Prp.DataPages, Prp.ListPages, BuildPages;
    assert k.reqs[r := k.reqs[r]] == k.reqs;
  }

  lemma LayPrpsMem(env: Env, k: Core, r: nat, bytes: nat, off: nat)
    requires MemOk(k.mem, k.reqs, {}) && r in k.reqs && k.reqs[r].pages == []
    ensures var (k', err) := LayPrps(env, k, r, bytes, off);
            && MemOk(k'.mem, k'.reqs, {})
            && (err == 0 ==> Prp.ListPages(Prp.DataPages(off, bytes)) <= 8)
  {
    var (k', err) := LayPrps(env, k, r, bytes, off);
    var nr := Prp.DataPages(off, bytes);
    var need := Prp.ListPages(nr);
    hide ReqsOk, Prp.DataPages, Prp.ListPages, BuildPages;
    if need > 0 {
      var heap := if nr <= 32 then SmallSlab else LargeSlab;
      var b := Build(k.mem, k.clock, [], false);
      assert k.mem.live - Elems([]) == k.mem.live;
      BuildPagesOk(env, k.mem, b, r, need, heap);
      hide Grown;
      MemAttach(k.mem, BuildPages(env, b, r, need, heap), k.reqs, r, k'.reqs[r], heap);
    }
  }

  lemma LayPrpsOk(env: Env, k: Core, r: nat, bytes: nat, off: nat)
    requires CoreOk(k, None, {}) && r in k.reqs && k.reqs[r].pages == []
    ensures var (k', err) := LayPrps(env, k, r, bytes, off);
            && CoreOk(k', None, {}) && OnlyReq(k, k', r)
            && (err == 0 || err == IOERR_SELFTEST)
            && k'.reqs[r].userLen == k.reqs[r].userLen
            && (err == 0 ==> Prp.ListPages(Prp.DataPages(off, bytes)) <= 8)
  {
    LayPrpsFrame(env, k, r, bytes, off);
    LayPrpsMem(env, k, r, bytes, off);
    hide Placed, Valid, Shape, SqOk, MemOk, LayPrps;
    OnlyReqTable(k, LayPrps(env, k, r, bytes, off).0, r, None);
  }

  lemma SetupRwOk(env: Env, k: Core, r: nat, bytes: nat, off: nat)
    requires CoreOk(k, None, {}) && r in k.reqs
    requires k.reqs[r].pages == [] && k.reqs[r].bounce.None?
    ensures var (k', err) := SetupRw(env, k, r, bytes, off);
            && CoreOk(k', None, {}) && OnlyReq(k, k', r)
            && (err == 0 || err == IOERR_SELFTEST)
            && k'.reqs[r].userLen == bytes
            && (err == 0 && off < PAGE && off + bytes <= U32 ==> bytes <= 4089 * PAGE)
  {
    hide CoreOk, LayPrps, Bounce;
    BounceOk(env, k, r, bytes);
    BounceFrame(env, k, r, bytes);
    var (k1, err) := Bounce(env, k, r, bytes);
    if err == 0 {
      var off' := if k1.reqs[r].bounce.Some? then BounceOff(env, k.clock) else off;
      LayPrpsOk(env, k1, r, bytes, off');
      if off < PAGE && off + bytes <= U32 && LayPrps(env, k1, r, bytes, off').1 == 0 { Prp.EightPages(off', bytes); }
      OnlyReqTrans(k, k1, LayPrps(env, k1, r, bytes, off').0, r);
    }
  }

  // ---------------------------------------------- setup, from the environment

  /** DMA cannot reach the caller's buffer, asked at `clock`. */
  predicate OutOfReach(env: Env, clock: nat, bytes: nat) { bytes > 0 && env.bounce(clock) }

  /** Where in its page the data that DMA will touch starts. */
  function DmaOff(env: Env, clock: nat, bytes: nat, off: nat): nat {
    if OutOfReach(env, clock, bytes) then env.offset(clock) % 4096 else off
  }

  /** List pages for that data. */
  function PagesFor(env: Env, clock: nat, bytes: nat, off: nat): nat {
    Prp.ListPages(Prp.DataPages(DmaOff(env, clock, bytes, off), bytes))
  }

  /** Every allocation the setup asks for is served, and at most eight list pages
      are needed. */
  ghost predicate Supplied(env: Env, clock: nat, bytes: nat, off: nat) {
    && (OutOfReach(env, clock, bytes) ==> BounceServed(env, clock, bytes))
    && PagesFor(env, clock, bytes, off) <= 8
    && PagesServed(env, clock + 2, PagesFor(env, clock, bytes, off))
  }

  ghost predicate BounceServed(env: Env, clock: nat, bytes: nat) {
    env.grant(clock + 1) && env.offset(clock) % 4096 + bytes <= U32
  }

  ghost predicate PagesServed(env: Env, clock: nat, n: nat) {
    forall t: nat :: clock <= t < clock + n ==> env.grant(t)
  }

  /** What a request holds after its setup: a bounce buffer exactly if DMA cannot
      reach the caller's, and the list pages for the data DMA will touch, small
      ones exactly for 2 to 32 listed pages. */
  ghost predicate SetUp(env: Env, clock: nat, bytes: nat, off: nat, q: Req) {
    && (q.bounce.Some? <==> OutOfReach(env, clock, bytes))
    && |q.pages| == PagesFor(env, clock, bytes, off)
    && (q.pages != [] ==>
          && q.prpList
          && HeapOf(q) == if Prp.DataPages(DmaOff(env, clock, bytes, off), bytes) <= 32 then SmallSlab else LargeSlab)
  }

  lemma BounceExact(env: Env, k: Core, r: nat, bytes: nat)
    requires r in k.reqs && k.reqs[r].pages == []
    ensures var (k', err) := Bounce(env, k, r, bytes);
            && (err == 0 <==> (OutOfReach(env, k.clock, bytes) ==> BounceServed(env, k.clock, bytes)))
            && k'.clock == k.clock + 2 && r in k'.reqs && k'.reqs[r].pages == []
            && (err == 0 ==> (k'.reqs[r].bounce.Some? <==> OutOfReach(env, k.clock, bytes)))
  {
  }

  lemma {:induction false} BuildPagesExact(env: Env, b: Build, r: nat, need: nat, heap: Heap)
    requires |b.pages| <= need && |b.pages| <= 8
    ensures var c := BuildPages(env, b, r, need, heap);
            && (c.ok <==> need <= 8 && PagesServed(env, b.clock, need - |b.pages|))
            && (c.ok ==> |c.pages| == need)
    decreases need - |b.pages|
  {
    hide FreeAll;
    if |b.pages| < need && |b.pages| < 8 && env.grant(b.clock) {
      var c := Build(Malloc(b.mem, heap, r), b.clock + 1, b.pages + [b.mem.next], false);
      BuildPagesExact(env, c, r, need, heap);
      ServedMore(env, b.clock, need - |b.pages|);
    } else if |b.pages| < need && |b.pages| < 8 {
      ServedMore(env, b.clock, need - |b.pages|);
    }
  }

  lemma ServedMore(env: Env, clock: nat, n: nat)
    requires n > 0
    ensures PagesServed(env, clock, n) <==> env.grant(clock) && PagesServed(env, clock + 1, n - 1)
  {
  }

  lemma LayPrpsExact(env: Env, k: Core, r: nat, bytes: nat, off: nat)
    requires r in k.reqs && k.reqs[r].pages == []
    ensures var (k', err) := LayPrps(env, k, r, bytes, off);
            var nr := Prp.DataPages(off, bytes);
            var need := Prp.ListPages(nr);
            && (err == 0 <==> need <= 8 && PagesServed(env, k.clock, need))
            && r in k'.reqs && k'.reqs[r].bounce == k.reqs[r].bounce
            && (err == 0 ==> |k'.reqs[r].pages| == need)
            && (err == 0 && need > 0 ==>
                  k'.reqs[r].prpList && HeapOf(k'.reqs[r]) == if nr <= 32 then SmallSlab else LargeSlab)
  {
    var nr := Prp.DataPages(off, bytes);
    var need := Prp.ListPages(nr);
    hide Prp.DataPages, Prp.ListPages, BuildPages, PagesServed;
    NoPages(env, k.clock);
    BuildPagesExact(env, Build(k.mem, k.clock, [], false), r, need, if nr <= 32 then SmallSlab else LargeSlab);
  }

  lemma NoPages(env: Env, clock: nat)
    ensures PagesServed(env, clock, 0)
  {
  }

  /** Setup of a read or write succeeds exactly when everything it asks for is
      supplied, and leaves the request with exactly what the data needs. */
  lemma SetupRwExact(env: Env, k: Core, r: nat, bytes: nat, off: nat)
    requires r in k.reqs && k.reqs[r].pages == []
    ensures var (k', err) := SetupRw(env, k, r, bytes, off);
            && (err == 0 <==> Supplied(env, k.clock, bytes, off)) && (err == 0 || err == IOERR_SELFTEST)
            && r in k'.reqs && (err == 0 ==> SetUp(env, k.clock, bytes, off, k'.reqs[r]))
  {
    var at := if OutOfReach(env, k.clock, bytes) then BounceOff(env, k.clock) else off;
    SupplyIs(env, k.clock, bytes, off, at);
    BounceExact(env, k, r, bytes);
    BounceErr(env, k, r, bytes);
    hide Bounce, LayPrps, Prp.DataPages, Prp.ListPages, PagesServed, BounceServed, HeapOf, BounceOff, Supplied, SetUp;
    var (k1, err) := Bounce(env, k, r, bytes);
    if err == 0 {
      LayPrpsExact(env, k1, r, bytes, at);
      LayPrpsFrame(env, k1, r, bytes, at);
      var k2 := LayPrps(env, k1, r, bytes, at).0;
      assert SetupRw(env, k, r, bytes, off) == LayPrps(env, k1, r, bytes, at);
      if LayPrps(env, k1, r, bytes, at).1 == 0 { SetUpIs(env, k.clock, bytes, off, at, k2.reqs[r]); }
      hide SetupRw, OutOfReach;
    }
  }

  lemma SupplyIs(env: Env, clock: nat, bytes: nat, off: nat, at: nat)
    requires at == if OutOfReach(env, clock, bytes) then BounceOff(env, clock) else off
    ensures var need := Prp.ListPages(Prp.DataPages(at, bytes));
            Supplied(env, clock, bytes, off) <==>
              && (OutOfReach(env, clock, bytes) ==> BounceServed(env, clock, bytes))
              && need <= 8 && PagesServed(env, clock + 2, need)
  {
    OffIs(env, clock, bytes, off);
    hide Prp.DataPages, Prp.ListPages;
  }

  lemma SetUpIs(env: Env, clock: nat, bytes: nat, off: nat, at: nat, q: Req)
    requires at == if OutOfReach(env, clock, bytes) then BounceOff(env, clock) else off
    requires q.bounce.Some? <==> OutOfReach(env, clock, bytes)
    requires var nr := Prp.DataPages(at, bytes);
             && |q.pages| == Prp.ListPages(nr)
             && (Prp.ListPages(nr) > 0 ==> q.prpList && HeapOf(q) == if nr <= 32 then SmallSlab else LargeSlab)
    ensures SetUp(env, clock, bytes, off, q)
  {
    OffIs(env, clock, bytes, off);
    hide Prp.DataPages, Prp.ListPages;
  }

  lemma OffIs(env: Env, clock: nat, bytes: nat, off: nat)
    ensures DmaOff(env, clock, bytes, off) == if OutOfReach(env, clock, bytes) then BounceOff(env, clock) else off
  {
  }

  lemma BounceErr(env: Env, k: Core, r: nat, bytes: nat)
    requires r in k.reqs
    ensures Bounce(env, k, r, bytes).1 == 0 || Bounce(env, k, r, bytes).1 == IOERR_SELFTEST
  {
  }

  /** A pageless request takes over the list pages gathered for it. */
  lemma MemAttach(m: Mem, b: Build, reqs: map<nat, Req>, r: nat, q: Req, heap: Heap)
    requires MemOk(m, reqs, {}) && r in reqs && reqs[r].pages == []
    requires Grown(m, b, r, heap)
    requires q.pages == b.pages && q.bounce == reqs[r].bounce && (b.pages != [] ==> q.prpList && HeapOf(q) == heap)
    ensures MemOk(b.mem, reqs[r := q], {})
  {
    MemAttachLive(m, b, reqs, r, q, heap);
    MemAttachReqs(m, b, reqs, r, q, heap);
    hide LiveOk, ReqsOk;
  }

  lemma MemAttachLive(m: Mem, b: Build, reqs: map<nat, Req>, r: nat, q: Req, heap: Heap)
    requires LiveOk(m, reqs, {}) && r in reqs && reqs[r].pages == [] && Grown(m, b, r, heap)
    requires q.pages == b.pages && q.bounce == reqs[r].bounce
    ensures LiveOk(b.mem, reqs[r := q], {})
  {
    assert Blocks(q) == Elems(b.pages) + Blocks(reqs[r]);
    forall a | a in b.mem.live && a !in b.pages ensures a in m.live && b.mem.live[a] == m.live[a] {
      assert a in b.mem.live - Elems(b.pages);
    }
  }

  lemma MemAttachReqs(m: Mem, b: Build, reqs: map<nat, Req>, r: nat, q: Req, heap: Heap)
    requires LiveOk(m, reqs, {}) && ReqsOk(m, reqs, {}) && r in reqs && Grown(m, b, r, heap)
    requires q.pages == b.pages && q.bounce == reqs[r].bounce && (b.pages != [] ==> q.prpList && HeapOf(q) == heap)
    ensures ReqsOk(b.mem, reqs[r := q], {})
  {
    forall a | a in m.live ensures a in b.mem.live && b.mem.live[a] == m.live[a] && a !in b.pages {
      assert a in b.mem.live - Elems(b.pages);
    }
    forall x | x in reqs ensures ReqMem(b.mem, x, reqs[r := q][x]) {
      assert ReqMem(m, x, reqs[x]);
    }
  }

  /** nvme_setup_dsm after its argument check: the range buffer becomes the
      request's.  The block's owner changes from the caller to `r`. */
  function SetupDsm(k: Core, r: nat, ranges: nat): Core
    requires r in k.reqs
  {
    k.(mem := k.mem.(live := k.mem.live[ranges := Block(DmaPool, r)]),
       reqs := k.reqs[r := k.reqs[r].(pages := [ranges], prpList := true)])
  }

  lemma SetupDsmMem(k: Core, r: nat, ranges: nat)
    requires MemOk(k.mem, k.reqs, {ranges}) && r in k.reqs
    requires k.reqs[r].pages == [] && k.reqs[r].bounce.None? && !k.reqs[r].prpSlab
    ensures MemOk(SetupDsm(k, r, ranges).mem, SetupDsm(k, r, ranges).reqs, {})
  {
    var k' := SetupDsm(k, r, ranges);
    assert Blocks(k'.reqs[r]) == {ranges};
    forall x | x in k'.reqs ensures ReqMem(k'.mem, x, k'.reqs[x]) {
      assert ReqMem(k.mem, x, k.reqs[x]);
      if x != r { assert ranges !in Blocks(k.reqs[x]); }
    }
  }

  lemma SetupDsmOk(k: Core, r: nat, ranges: nat)
    requires CoreOk(k, None, {ranges}) && r in k.reqs
    requires k.reqs[r].pages == [] && k.reqs[r].bounce.None? && !k.reqs[r].prpSlab
    ensures CoreOk(SetupDsm(k, r, ranges), None, {}) && OnlyReq(k, SetupDsm(k, r, ranges), r)
  {
    SetupDsmMem(k, r, ranges);
    hide Placed, SqOk, MemOk, Valid, Shape;
    OnlyReqTable(k, SetupDsm(k, r, ranges), r, None);
  }

  // ---------------------------------------------------------------- teardown

  /** nvme_req_free_dma_buffers. */
  function FreeBuffers(k: Core, r: nat): Core
    requires r in k.reqs
  {
    var q := k.reqs[r];
    var m1 := if q.prpList then FreeAll(k.mem, q.pages, HeapOf(q)) else k.mem;
    var q1 := if q.prpList then q.(pages := [], prpList := false, prpSlab := false, prpSmall := false) else q;
    var m2 := if q.bounce.Some? then Free(m1, q.bounce.value, DmaPool) else m1;
    k.(mem := m2, reqs := k.reqs[r := q1.(bounce := None)])
  }

  lemma FreeBuffersMem(k: Core, r: nat)
    requires r in k.reqs && ReqMem(k.mem, r, k.reqs[r])
    ensures FreeBuffers(k, r).mem == k.mem.(live := k.mem.live - Blocks(k.reqs[r]))
  {
    var q := k.reqs[r];
    if q.prpList { FreeAllOk(k.mem, q.pages, HeapOf(q)); }
    var pages := Elems(q.pages);
    assert q.bounce.Some? ==> q.bounce.value in k.mem.live - pages;
    assert q.bounce.Some? ==> (k.mem.live - pages) - {q.bounce.value} == k.mem.live - Blocks(q);
    assert !q.prpList ==> k.mem.live - pages == k.mem.live;
  }

  /** A request gives up all its blocks. */
  lemma MemShrink(m: Mem, reqs: map<nat, Req>, r: nat, q: Req, loose: set<nat>)
    requires MemOk(m, reqs, loose) && r in reqs
    requires q.pages == [] && q.bounce.None?
    ensures MemOk(m.(live := m.live - Blocks(reqs[r])), reqs[r := q], loose)
  {
    var gone := Blocks(reqs[r]);
    assert Blocks(q) == {};
    assert ReqMem(m, r, reqs[r]);
    MemShrinkReqs(m, reqs, r, q, loose);
    hide ReqsOk;
    forall a | a in m.live && m.live[a].owner == r && a !in loose ensures a in gone {}
  }

  lemma MemShrinkReqs(m: Mem, reqs: map<nat, Req>, r: nat, q: Req, loose: set<nat>)
    requires ReqsOk(m, reqs, loose) && r in reqs
    requires q.pages == [] && q.bounce.None?
    ensures ReqsOk(m.(live := m.live - Blocks(reqs[r])), reqs[r := q], loose)
  {
    var gone := Blocks(reqs[r]);
    var m' := m.(live := m.live - gone);
    assert ReqMem(m, r, reqs[r]);
    forall x | x in reqs && x != r ensures ReqMem(m', x, reqs[x]) {
      assert ReqMem(m, x, reqs[x]);
      forall a | a in Blocks(reqs[x]) ensures a !in gone {
        assert m.live[a].owner == x;
      }
    }
    assert Blocks(q) == {};
  }

  lemma FreeBuffersOk(k: Core, r: nat, hand: Option<nat>, loose: set<nat>)
    requires CoreOk(k, hand, loose) && r in k.reqs
    ensures var k' := FreeBuffers(k, r);
            && CoreOk(k', hand, loose) && OnlyReq(k, k', r)
            && k'.mem.live == k.mem.live - Blocks(k.reqs[r]) && k'.mem.next == k.mem.next
            && Blocks(k'.reqs[r]) == {} && k'.reqs[r].status == k.reqs[r].status
  {
    var k' := FreeBuffers(k, r);
    assert OnlyReq(k, k', r);
    FreeBuffersMem(k, r);
    MemShrink(k.mem, k.reqs, r, k'.reqs[r], loose);
    OnlyReqTable(k, k', r, hand);
  }

  /** slab_free of the request record. */
  function Drop(k: Core, r: nat): Core { k.(reqs := k.reqs - {r}) }

  lemma DropTable(k: Core, r: nat)
    requires TableOk(k, Some(r)) && SqOk(k)
    ensures TableOk(Drop(k, r), None) && SqOk(Drop(k, r))
  {
  }

  lemma DropMem(m: Mem, reqs: map<nat, Req>, r: nat, loose: set<nat>)
    requires MemOk(m, reqs, loose) && r in reqs && Blocks(reqs[r]) == {}
    ensures MemOk(m, reqs - {r}, loose)
  {
    hide ReqMem, Blocks;
  }

  lemma DropOk(k: Core, r: nat, loose: set<nat>)
    requires r in k.reqs && Blocks(k.reqs[r]) == {} && CoreOk(k, Some(r), loose)
    ensures CoreOk(Drop(k, r), None, loose)
  {
    hide Placed, Valid, Shape, SqOk, LiveOk, ReqsOk, Blocks;
    DropTable(k, r);
    DropMem(k.mem, k.reqs, r, loose);
  }

  function ReleaseTag(k: Core, r: nat): Core
    requires Shape(k.pool) && r in k.reqs && k.reqs[r].cid.tag < |k.pool.table|
  {
    k.(pool := Release(k.pool, k.reqs[r].cid))
  }

  /** Releasing a request's slot puts the request in hand. */
  lemma ReleaseTagOk(k: Core, r: nat, loose: set<nat>)
    requires CoreOk(k, None, loose) && r in k.reqs && r !in k.retryList
    ensures var k' := ReleaseTag(k, r);
            && CoreOk(k', Some(r), loose)
            && k' == k.(pool := k'.pool) && k'.pool.count == k.pool.count - 1
            && k'.pool.table == k.pool.table[k.reqs[r].cid.tag := Empty]
  {
    var t := k.reqs[r].cid.tag;
    ReleaseValid(k.pool, t);
    var k' := ReleaseTag(k, r);
    forall x | x in k'.reqs && x != r && x !in k'.retryList
      ensures k'.reqs[x].cid.tag < |k'.pool.table| && k'.pool.table[k'.reqs[x].cid.tag] == Busy(x, k'.reqs[x].cid)
    {
      assert k.pool.table[k.reqs[x].cid.tag] == Busy(x, k.reqs[x].cid);
    }
  }

  /** nvme_req_destroy. */
  function Destroy(k: Core, r: nat): Core
    requires Shape(k.pool) && r in k.reqs && k.reqs[r].cid.tag < |k.pool.table|
  {
    Drop(FreeBuffers(ReleaseTag(k, r), r), r)
  }

  /** Tag, blocks and record of `r` are gone; nothing else changed. */
  ghost predicate Destroyed(k: Core, r: nat, k': Core, loose: set<nat>) {
    && r in k.reqs && CoreOk(k', None, loose)
    && k' == k.(pool := k'.pool, mem := k'.mem, reqs := k.reqs - {r})
    && k'.pool.count == k.pool.count - 1
    && |k'.pool.table| == |k.pool.table|
    && k'.mem.live == k.mem.live - Blocks(k.reqs[r])
  }

  lemma DestroyInHand(k: Core, k1: Core, r: nat, loose: set<nat>)
    requires r in k1.reqs && k1 == k.(pool := k1.pool) && k1.pool.count == k.pool.count - 1
    requires |k1.pool.table| == |k.pool.table| && CoreOk(k1, Some(r), loose)
    ensures Destroyed(k, r, Drop(FreeBuffers(k1, r), r), loose)
  {
    hide CoreOk, FreeAll, Blocks;
    FreeBuffersOk(k1, r, Some(r), loose);
    DropOk(FreeBuffers(k1, r), r, loose);
  }

  lemma SlotShape(k: Core, r: nat, loose: set<nat>)
    requires CoreOk(k, None, loose) && r in k.reqs && r !in k.retryList
    ensures Shape(k.pool) && k.reqs[r].cid.tag < |k.pool.table|
  {
  }

  lemma DestroyOk(k: Core, r: nat, loose: set<nat>)
    requires Shape(k.pool) && r in k.reqs && k.reqs[r].cid.tag < |k.pool.table|
    requires r !in k.retryList && CoreOk(k, None, loose)
    ensures Destroyed(k, r, Destroy(k, r), loose)
  {
    hide CoreOk, Destroyed;
    ReleaseTagOk(k, r, loose);
    DestroyInHand(k, ReleaseTag(k, r), r, loose);
  }

  // -------------------------------------------------------------- submission

  /** nvme_submit_io: write the SQE, or destroy the request when the ring has
      no slot (full test against the host's own CQ head). */
  function SubmitIo(k: Core, r: nat): (res: (Core, int))
    requires Shape(k.pool) && r in k.reqs && k.reqs[r].cid.tag < |k.pool.table|
  {
    if !k.sqUp then (Destroy(k, r), IOERR_BADADDRESS)
    else
      var next := (k.sqTail + 1) % Depth(k);
      if next == k.cqHead then (Destroy(k, r), IOERR_UNITBUSY)
      else (k.(sqTail := next, sq := k.sq + [r], wire := k.wire[r := Entry(k.reqs[r].cid, k.reqs[r].sqe)]), ASYNC)
  }

  /** The ring takes no further command: it is down, or its next tail would meet
      the host's CQ head. */
  predicate RingRefuses(k: Core) {
    Depth(k) == 0 || !k.sqUp || (k.sqTail + 1) % Depth(k) == k.cqHead
  }

  /** One more write of `r`'s command, within its attempts. */
  lemma WrittenTable(k: Core, r: nat, k': Core)
    requires r in k.reqs && r !in k.retryList && Writes(k.sq, r) <= k.reqs[r].retries && TableOk(k, None) && SqOk(k)
    requires k' == k.(sqTail := k'.sqTail, sq := k.sq + [r], wire := k'.wire)
    ensures TableOk(k', None) && SqOk(k')
  {
    forall x: nat ensures Writes(k'.sq, x) == Writes(k.sq, x) + (if x == r then 1 else 0) {
      assert multiset(k.sq + [r]) == multiset(k.sq) + multiset{r};
    }
  }

  lemma SubmitIoOk(k: Core, r: nat)
    requires r in k.reqs && r !in k.retryList && Writes(k.sq, r) <= k.reqs[r].retries && CoreOk(k, None, {})
    ensures var (k', err) := SubmitIo(k, r);
            && CoreOk(k', None, {}) && |k'.pool.table| == |k.pool.table|
            && (err == ASYNC || err == IOERR_UNITBUSY || err == IOERR_BADADDRESS)
            && (err == ASYNC <==> !RingRefuses(k))
            && (err == ASYNC ==> k' == k.(sqTail := (k.sqTail + 1) % Depth(k), sq := k.sq + [r],
                                          wire := k.wire[r := Entry(k.reqs[r].cid, k.reqs[r].sqe)]))
            && (err != ASYNC ==> k' == Destroy(k, r) && k'.sq == k.sq && k'.reqs == k.reqs - {r})
  {
    SlotShape(k, r, {});
    hide Placed, Valid, SqOk, LiveOk, ReqsOk, Destroy;
    var (k', err) := SubmitIo(k, r);
    if err == ASYNC { WrittenTable(k, r, k'); } else { DestroyOk(k, r, {}); }
  }

  // ------------------------------------------------------------- retry list

  /** CRDT park (nvme_retry_req): status cleared, attempt counted. */
  function Bump(k: Core, r: nat): Core
    requires r in k.reqs
  {
    k.(reqs := k.reqs[r := k.reqs[r].(status := 0, retries := k.reqs[r].retries + 1)])
  }

  lemma BumpTable(k: Core, r: nat)
    requires TableOk(k, Some(r)) && SqOk(k) && k.reqs[r].retries < 5
    ensures TableOk(Bump(k, r), Some(r)) && SqOk(Bump(k, r)) && Writes(Bump(k, r).sq, r) <= Bump(k, r).reqs[r].retries
  {
  }

  lemma BumpOk(k: Core, r: nat)
    requires r in k.reqs && k.reqs[r].retries < 5 && CoreOk(k, Some(r), {})
    ensures CoreOk(Bump(k, r), Some(r), {}) && Writes(Bump(k, r).sq, r) <= Bump(k, r).reqs[r].retries
  {
    hide Placed, Valid, Shape, SqOk, LiveOk, ReqsOk;
    BumpTable(k, r);
    SameBlocks(k.mem, k.reqs, r, Bump(k, r).reqs[r], {});
  }

  lemma SameBlocks(m: Mem, reqs: map<nat, Req>, r: nat, q: Req, loose: set<nat>)
    requires MemOk(m, reqs, loose) && r in reqs
    requires q.pages == reqs[r].pages && q.bounce == reqs[r].bounce && q.prpList == reqs[r].prpList
    requires HeapOf(q) == HeapOf(reqs[r])
    ensures MemOk(m, reqs[r := q], loose)
  {
    assert ReqMem(m, r, reqs[r]);
    assert Blocks(q) == Blocks(reqs[r]);
  }

  function Park(k: Core, r: nat, deadline: nat): Core
    requires r in k.reqs
  {
    k.(clock := k.clock + 1, reqs := k.reqs[r := k.reqs[r].(deadline := deadline)], retryList := k.retryList + [r])
  }

  lemma ParkTable(k: Core, r: nat, deadline: nat)
    requires TableOk(k, Some(r)) && SqOk(k) && Writes(k.sq, r) <= k.reqs[r].retries
    ensures TableOk(Park(k, r, deadline), None) && SqOk(Park(k, r, deadline))
  {
  }

  lemma ParkOk(k: Core, r: nat, deadline: nat)
    requires CoreOk(k, Some(r), {}) && Writes(k.sq, r) <= k.reqs[r].retries
    ensures CoreOk(Park(k, r, deadline), None, {})
  {
    var k' := Park(k, r, deadline);
    ParkTable(k, r, deadline);
    hide TableOk, SqOk;
    SameBlocks(k.mem, k.reqs, r, k'.reqs[r], {});
  }

  function Without(s: seq<nat>, r: nat): (o: seq<nat>)
    ensures forall x :: x in o <==> x in s && x != r
    ensures NoDup(s) ==> NoDup(o)
  {
    if s == [] then []
    else
      var n := |s| - 1;
      var o := Without(s[..n], r);
      assert s == s[..n] + [s[n]];
      assert NoDup(s) ==> NoDup(s[..n]) && s[n] !in s[..n];
      if s[n] == r then o else o + [s[n]]
  }

  /** Remove from the retry list: the request is in hand, owing one attempt. */
  function Unpark(k: Core, r: nat): Core { k.(retryList := Without(k.retryList, r)) }

  lemma UnparkTable(k: Core, r: nat)
    requires r in k.retryList && TableOk(k, None) && SqOk(k)
    ensures TableOk(Unpark(k, r), Some(r)) && SqOk(Unpark(k, r))
    ensures r in k.reqs && Writes(k.sq, r) <= k.reqs[r].retries
  {
  }

  lemma UnparkOk(k: Core, r: nat)
    requires r in k.retryList && CoreOk(k, None, {})
    ensures CoreOk(Unpark(k, r), Some(r), {}) && r in k.reqs && Writes(k.sq, r) <= k.reqs[r].retries
  {
    hide Placed, Valid, Shape, SqOk, LiveOk, ReqsOk, Without;
    UnparkTable(k, r);
  }

  /** The request in hand takes a fresh tag (first half of nvme_resubmit_io). */
  function Retag(k: Core, r: nat): Core
    requires Shape(k.pool) && |k.pool.free| > 0 && r in k.reqs
  {
    var (pool, cid) := Take(k.pool, r);
    k.(pool := pool, reqs := k.reqs[r := k.reqs[r].(cid := cid)])
  }

  lemma RetagTable(k: Core, r: nat)
    requires TableOk(k, Some(r)) && SqOk(k) && |k.pool.free| > 0
    ensures TableOk(Retag(k, r), None) && SqOk(Retag(k, r))
    ensures r !in k.retryList
  {
    TakeValid(k.pool, r);
  }

  lemma RetagOk(k: Core, r: nat)
    requires CoreOk(k, Some(r), {}) && |k.pool.free| > 0
    ensures var k' := Retag(k, r);
            && CoreOk(k', None, {}) && r in k'.reqs && r !in k'.retryList && k'.reqs[r].cid.tag < |k'.pool.table|
            && k' == k.(pool := k'.pool, reqs := k.reqs[r := k'.reqs[r]])
            && k'.reqs[r].retries == k.reqs[r].retries && k'.reqs[r].sqe == k.reqs[r].sqe
            && Writes(k'.sq, r) == Writes(k.sq, r)
            && |k'.pool.table| == |k.pool.table| && k'.pool.count == k.pool.count + 1
  {
    var k' := Retag(k, r);
    RetagTable(k, r);
    TakeValid(k.pool, r);
    hide Placed, Valid, SqOk, Take;
    SameBlocks(k.mem, k.reqs, r, k'.reqs[r], {});
  }

  function SetStatus(k: Core, r: nat, status: nat, cancelled: bool): Core
    requires r in k.reqs
  {
    k.(reqs := k.reqs[r := k.reqs[r].(status := status, cancelled := cancelled || k.reqs[r].cancelled)])
  }

  lemma SetStatusOk(k: Core, r: nat, status: nat, cancelled: bool, hand: Option<nat>)
    requires CoreOk(k, hand, {}) && r in k.reqs
    ensures CoreOk(SetStatus(k, r, status, cancelled), hand, {})
    ensures Writes(SetStatus(k, r, status, cancelled).sq, r) == Writes(k.sq, r)
  {
    var k' := SetStatus(k, r, status, cancelled);
    SameBlocks(k.mem, k.reqs, r, k'.reqs[r], {});
    hide MemOk, Valid, Shape, Placed, SqOk;
    OnlyReqTable(k, k', r, hand);
  }
}
