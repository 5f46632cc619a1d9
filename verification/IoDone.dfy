/** What ends a request, and what that leaves of its context and its IOStdReq: the
    four ways a matched completion goes, a cancel, and a tick of the watchdog. */
module IoDone {
  import opened Base
  import opened Tags
  import opened IoCore
  import opened IoBook
  import opened IoPath
  import opened IoFlush
  import opened IoRetry
  import opened IoLost
  import opened IoRing
  import opened IoKeep
  import opened IoSend

  /** The request is not tried again: success, cancelled, Do Not Retry, six attempts
      made, or a generic error. */
  predicate Final(q: Req, status: nat) {
    || status == 0 || q.cancelled || status / 0x4000 % 2 == 1 || q.retries >= 5
    || (status / 0x100 % 8 == 0 && status % 0x100 != 0)
  }

  /** The retry delay the controller asks for: 0 for none. */
  function DelayIndex(status: nat): nat { status / 0x800 % 4 }

  lemma FinalIs(q: Req, status: nat)
    ensures RetryWorthy(q.(status := status)) <==> !Final(q, status)
    ensures Crd(status) == DelayIndex(status)
  {
  }

  // ------------------------------------------------------- a request that ends

  /** The error a context has once one more of its chunks ended with `status`: the
      first one counts. */
  function FirstError(k: Ctx, status: nat): int {
    if k.firstError != 0 then k.firstError else ErrorFor(status)
  }

  /** A single-shot request ended: its IOStdReq is answered with the error its status
      stands for, and with io_Length bytes if that is none. */
  ghost predicate SingleEnded(b: Book, r: nat, status: nat, b': Book)
    requires r in b.parents && b.parents[r].Single?
  {
    var p := b.parents[r];
    var err := ErrorFor(status);
    && b'.replies == b.replies[p.io := Outcome(err, if err == 0 then p.job.ioLength else 0, false, p.job, [p.tile])]
    && b'.replyLog == b.replyLog + [p.io] && p.io !in b.replies
    && b'.parents == b.parents - {r} && b'.ctxs == b.ctxs && b'.stalled == b.stalled
  }

  /** The record of context `c` after its chunk `r` ended, before anything else. */
  function LessChunk(k: Ctx, r: nat, status: nat, userLen: nat): Ctx {
    k.(firstError := FirstError(k, status), completed := k.completed + userLen, inflight := k.inflight - 1,
       sibs := k.sibs - {r})
  }

  function LastWords(k: Ctx): Reply {
    Outcome(k.firstError, if k.firstError == 0 then k.job.total else 0, true, k.job, k.tiles)
  }

  /** The last words of a completed chunk's context: when nothing of it is in flight
      and it is not parked, its IOStdReq is answered with its first error. */
  ghost predicate Concluded(b: Book, c: nat, b': Book)
    requires c in b.ctxs
  {
    var k := b.ctxs[c];
    if k.inflight == 0 && !k.stalled then
      && b'.replies == b.replies[k.io := LastWords(k)]
      && b'.replyLog == b.replyLog + [k.io] && k.io !in b.replies
      && b'.ctxs == b.ctxs - {c} && b'.parents == b.parents && b'.done == b.done && b'.lost == b.lost
      && b'.stalled == b.stalled
    else b' == b
  }

  /** A chunk of context `c` ended.  With an error now or before, or everything
      dispatched, nothing more is sent; otherwise the pump runs, up to `tried`.  Then
      the context answers if it has nothing left to wait for. */
  ghost predicate SiblingEnded(cfg: Config, env: Env, s: State, r: nat, status: nat, s': State, s2: State,
                               tried: Option<Core>)
    requires r in s.book.parents && s.book.parents[r].Sibling? && r in s.core.reqs
  {
    var c := s.book.parents[r].ctx;
    && c in s.book.ctxs && c in s2.book.ctxs && s'.core == s2.core
    && var k := s.book.ctxs[c];
    && var k1 := LessChunk(k, r, status, s.core.reqs[r].userLen);
    && Concluded(s2.book, c, s'.book)
    && s2.book.done == s.book.done[r := status] && s2.book.replies == s.book.replies && s2.book.lost == s.book.lost
    && (forall d :: d in s.book.ctxs && d != c ==> d in s2.book.ctxs && s2.book.ctxs[d] == s.book.ctxs[d])
    && if FirstError(k, status) != 0 || k.dispatched == k.job.total
       then s2.book.ctxs[c] == k1 && s2.core.sq == s.core.sq && s2.book.parents == s.book.parents - {r}
       else
         && PumpEnd(cfg, env, s2, c, tried) && k.tiles <= s2.book.ctxs[c].tiles
         && s2.book.ctxs[c].io == k.io && s2.book.ctxs[c].job == k.job
  }

  ghost predicate Ended(cfg: Config, env: Env, s: State, r: nat, status: nat, s': State) {
    && r in s.core.reqs && r in s.book.parents
    && s'.book.done == s.book.done[r := status] && s'.book.lost == s.book.lost && r !in s'.core.reqs
    && s'.core.retryList == s.core.retryList
    && if s.book.parents[r].Single? then SingleEnded(s.book, r, status, s'.book) && s'.core.sq == s.core.sq
       else exists s2, tried :: SiblingEnded(cfg, env, s, r, status, s', s2, tried)
  }

  lemma SingleBook(b: Book, r: nat, status: nat)
    requires r in b.parents && b.parents[r].Single? && b.parents[r].io !in b.replies
    ensures SingleEnded(b, r, status, EndSingle(b, r, status))
    ensures EndSingle(b, r, status).done == b.done[r := status] && EndSingle(b, r, status).lost == b.lost
  {
  }

  lemma SiblingBook(b: Book, r: nat, status: nat, userLen: nat)
    requires r in b.parents && b.parents[r].Sibling? && b.parents[r].ctx in b.ctxs
    ensures var c := b.parents[r].ctx;
            var b1 := EndSibling(b, r, status, userLen);
            && c in b1.ctxs && b1.ctxs[c] == LessChunk(b.ctxs[c], r, status, userLen)
            && b1.done == b.done[r := status] && b1.replies == b.replies && b1.lost == b.lost
            && b1.parents == b.parents - {r}
            && (forall d :: d in b.ctxs && d != c ==> d in b1.ctxs && b1.ctxs[d] == b.ctxs[d])
  {
  }

  lemma AnswerConcludes(s: State, c: nat)
    requires c in s.book.ctxs && s.book.ctxs[c].io !in s.book.replies
    ensures Concluded(s.book, c, Answer(s, c).book) && Answer(s, c).core == s.core
  {
  }

  /** The pump after a chunk's end, and the answer. */
  lemma RefillExact(cfg: Config, env: Env, s: State, c: nat) returns (s2: State, tried: Option<Core>)
    requires Inv(cfg, s, None, Some(c), None, {}) && c in s.book.ctxs && !s.book.ctxs[c].stalled
    requires s.book.ctxs[c].dispatched <= s.book.ctxs[c].job.total
    ensures c in s2.book.ctxs && Refill(cfg, env, s, c).core == s2.core
    ensures Concluded(s2.book, c, Refill(cfg, env, s, c).book) && OthersSame(s.book, c, s2.book)
    ensures if s.book.ctxs[c].firstError != 0 || s.book.ctxs[c].dispatched == s.book.ctxs[c].job.total
            then s2 == s else PumpEnd(cfg, env, s2, c, tried)
  {
    UnrepliedCtx(cfg, s, Some(c), c);
    MarkLocal(s.book, c, 0);
    hide Inv, Pumpable, Pump, Paused, Rest, Answer, Refill, Concluded, OthersSame, PumpEnd;
    tried := None;
    if s.book.ctxs[c].dispatched < s.book.ctxs[c].job.total && s.book.ctxs[c].firstError == 0 {
      RefillPumps(cfg, env, s, c);
      s2 := Pump(cfg, env, s, c).0;
      PausedUnreplied(cfg, s, c, s2);
      PumpLocal(cfg, env, s, c);
      tried := PumpExact(cfg, env, s, c);
    } else {
      RefillRests(cfg, env, s, c);
      s2 := s;
    }
    AnswerConcludes(s2, c);
  }

  lemma EndsSibling(cfg: Config, env: Env, s: State, r: nat)
    requires Inv(cfg, s, Some(r), None, None, {}) && r in s.core.reqs && r in s.book.parents
             && s.book.parents[r].Sibling?
    ensures exists s2, tried :: SiblingEnded(cfg, env, s, r, s.core.reqs[r].status, EndReq(cfg, env, s, r), s2, tried)
    ensures EndReq(cfg, env, s, r).book.done == s.book.done[r := s.core.reqs[r].status]
    ensures EndReq(cfg, env, s, r).book.lost == s.book.lost
  {
    hide Inv, EndReq, Refill, Retire, EndSibling, PumpEnd, Concluded;
    var q := s.core.reqs[r];
    var s1, c := SiblingEnd(cfg, env, s, r);
    SiblingBook(s.book, r, q.status, q.userLen);
    RetireRing(s.core, r);
    BoundedBefore(cfg, s, r);
    var s2, tried := RefillExact(cfg, env, s1, c);
    var s' := EndReq(cfg, env, s, r);
    assert s' == Refill(cfg, env, s1, c);
    ConcludedDone(s2.book, c, s'.book);
    SiblingIs(cfg, env, s, r, s1, s2, tried, s');
  }

  lemma BoundedBefore(cfg: Config, s: State, r: nat)
    requires Inv(cfg, s, Some(r), None, None, {}) && r in s.book.parents && s.book.parents[r].Sibling?
    ensures var c := s.book.parents[r].ctx;
            c in s.book.ctxs && s.book.ctxs[c].dispatched <= s.book.ctxs[c].job.total
  {
    hide CoreOk, OwnersOk, RepliesOk, WireOk, SibsCapped;
    assert CtxOk(cfg.limits, s.book, s.book.parents[r].ctx, None);
  }

  lemma ConcludedDone(b: Book, c: nat, b': Book)
    requires c in b.ctxs && Concluded(b, c, b')
    ensures b'.done == b.done && b'.lost == b.lost
  {
  }

  lemma SiblingIs(cfg: Config, env: Env, s: State, r: nat, s1: State, s2: State, tried: Option<Core>, s': State)
    requires r in s.book.parents && s.book.parents[r].Sibling? && r in s.core.reqs
    requires var c := s.book.parents[r].ctx;
             var q := s.core.reqs[r];
             && c in s.book.ctxs && c in s1.book.ctxs && c in s2.book.ctxs
             && s.book.ctxs[c].dispatched <= s.book.ctxs[c].job.total
             && s1.book.ctxs[c] == LessChunk(s.book.ctxs[c], r, q.status, q.userLen)
             && s1.book.done == s.book.done[r := q.status] && s1.book.replies == s.book.replies
             && s1.book.lost == s.book.lost && s1.book.parents == s.book.parents - {r}
             && (forall d :: d in s.book.ctxs && d != c ==> d in s1.book.ctxs && s1.book.ctxs[d] == s.book.ctxs[d])
             && SameRing(s.core, s1.core) && OthersSame(s1.book, c, s2.book)
             && s'.core == s2.core && Concluded(s2.book, c, s'.book)
             && if s1.book.ctxs[c].firstError != 0 || s1.book.ctxs[c].dispatched == s1.book.ctxs[c].job.total
                then s2 == s1 else PumpEnd(cfg, env, s2, c, tried)
    ensures SiblingEnded(cfg, env, s, r, s.core.reqs[r].status, s', s2, tried)
  {
    hide PumpEnd, Concluded;
  }

  lemma EndsSingle(cfg: Config, env: Env, s: State, r: nat)
    requires Inv(cfg, s, Some(r), None, None, {}) && r in s.core.reqs && r in s.book.parents
             && s.book.parents[r].Single?
    ensures var s' := EndReq(cfg, env, s, r);
            && SingleEnded(s.book, r, s.core.reqs[r].status, s'.book) && s'.core.sq == s.core.sq
            && s'.book.done == s.book.done[r := s.core.reqs[r].status] && s'.book.lost == s.book.lost
  {
    EndFacts(cfg, s, r);
    hide Inv, EndReq, Retire, EndSingle, SingleEnded;
    SingleEnd(cfg, env, s, r);
    SingleBook(s.book, r, s.core.reqs[r].status);
    RetireRing(s.core, r);
  }

  lemma EndsGone(cfg: Config, env: Env, s: State, r: nat)
    requires Inv(cfg, s, Some(r), None, None, {}) && r in s.core.reqs && r in s.book.parents
    ensures var s' := EndReq(cfg, env, s, r); s'.core.retryList == s.core.retryList && Rest(cfg, s')
  {
    hide Inv, EndReq, Rest;
  }

  lemma DoneGone(cfg: Config, s: State, r: nat)
    requires Rest(cfg, s) && r in s.book.done
    ensures r !in s.core.reqs
  {
  }

  lemma EndReqEnds(cfg: Config, env: Env, s: State, r: nat)
    requires Inv(cfg, s, Some(r), None, None, {}) && r in s.core.reqs && r in s.book.parents
    ensures Ended(cfg, env, s, r, s.core.reqs[r].status, EndReq(cfg, env, s, r))
  {
    hide Inv, EndReq, SingleEnded, SiblingEnded, Rest;
    EndsGone(cfg, env, s, r);
    if s.book.parents[r].Single? { EndsSingle(cfg, env, s, r); } else { EndsSibling(cfg, env, s, r); }
    DoneGone(cfg, EndReq(cfg, env, s, r), r);
  }

  // --------------------------------------------------- one matched completion

  /** Transport and books when the slot of `r` has been emptied for it. */
  ghost predicate TakenOut(s: State, t: nat, r: nat, s2: State) {
    && t < |s.core.pool.table| && s2.book == s.book && s2.live == s.live
    && s2.core.pool.table == s.core.pool.table[t := Empty]
    && s2.core.sq == s.core.sq && s2.core.retryList == s.core.retryList && s2.core.clock == s.core.clock
    && s2.core.sqUp == s.core.sqUp && s2.core.sqTail == s.core.sqTail && s2.core.cqHead == s.core.cqHead
    && s2.core.wire == s.core.wire
    && r in s.core.reqs && r in s2.core.reqs
  }

  lemma CqeInHand(cfg: Config, env: Env, s: State, raw: Cid, status: nat, r: nat) returns (s2: State)
    requires Lookup(s.core.pool, raw) == Some(r) && Rest(cfg, s)
    ensures Handling(cfg, s2, r) && TakenOut(s, raw.tag, r, s2) && r in s.book.parents && |s2.core.pool.free| > 0
    ensures s2.core.reqs[r] == s.core.reqs[r].(status := status)
    ensures OnCqe(cfg, env, s, raw, status) == Complete(cfg, env, s2, r)
  {
    LookupSlot(s.core.pool, raw);
    hide Inv, Handling, Rest, Settled, Complete;
    RestSlot(cfg, s, raw.tag);
    ReleaseInv(cfg, s, raw.tag, r);
    var s1 := s.(core := ReleaseTag(s.core, r));
    ReleasedRoom(cfg, s, raw.tag, r, s1);
    SetStatusInv(cfg, s1, r, status, false);
    s2 := s1.(core := SetStatus(s1.core, r, status, false));
    HandlingHas(cfg, s2, r);
  }

  /** Only the transport differs from `s`, and it holds the request alike. */
  ghost predicate SameClaims(s: State, s2: State, r: nat) {
    && s2.book == s.book && s2.core.sq == s.core.sq && s2.core.retryList == s.core.retryList
    && r in s.core.reqs && r in s2.core.reqs && s2.core.reqs[r].userLen == s.core.reqs[r].userLen
  }

  lemma EndedFrom(cfg: Config, env: Env, s: State, s2: State, r: nat, status: nat, s': State)
    requires SameClaims(s, s2, r) && Ended(cfg, env, s2, r, status, s')
    ensures Ended(cfg, env, s, r, status, s')
  {
    hide SingleEnded, Concluded, PumpEnd;
    if s.book.parents[r].Sibling? {
      var s3, tried :| SiblingEnded(cfg, env, s2, r, status, s', s3, tried);
      assert SiblingEnded(cfg, env, s, r, status, s', s3, tried);
    }
  }

  lemma CompleteFinal(cfg: Config, env: Env, s: State, r: nat, status: nat)
    requires r in s.core.reqs && s.core.reqs[r].status == status && Final(s.core.reqs[r], status)
    requires Handling(cfg, s, r)
    ensures Ended(cfg, env, s, r, status, Complete(cfg, env, s, r))
  {
    FinalIs(s.core.reqs[r], status);
    assert s.core.reqs[r].(status := status) == s.core.reqs[r];
    HandlingInv(cfg, s, r);
    HandlingHas(cfg, s, r);
    EndReqEnds(cfg, env, s, r);
    hide Handling, Inv, Settled, Rest, EndReq, Retry, Ended, RetryWorthy, Final;
  }

  /** A completion that is final ends its request, with the very status it carries. */
  lemma CqeEnds(cfg: Config, env: Env, s: State, raw: Cid, status: nat, r: nat)
    requires Lookup(s.core.pool, raw) == Some(r) && Rest(cfg, s)
    ensures r in s.core.reqs
    ensures Final(s.core.reqs[r], status) ==> Ended(cfg, env, s, r, status, OnCqe(cfg, env, s, raw, status))
  {
    var s2 := CqeInHand(cfg, env, s, raw, status, r);
    hide OnCqe, Complete, Handling, Rest, Ended, Lookup;
    if Final(s.core.reqs[r], status) {
      CompleteFinal(cfg, env, s2, r, status);
      EndedFrom(cfg, env, s, s2, r, status, OnCqe(cfg, env, s, raw, status));
    }
  }

  /** A completion whose CID no slot expects changes nothing. */
  lemma CqeDropped(cfg: Config, env: Env, s: State, raw: Cid, status: nat)
    requires Rest(cfg, s) && Lookup(s.core.pool, raw).None?
    ensures OnCqe(cfg, env, s, raw, status) == s
  {
    hide Rest;
  }

  /** A failure that is tried again after a delay: the request waits on the retry
      list, one attempt older, and nobody else notices. */
  ghost predicate Delayed(cfg: Config, env: Env, s: State, r: nat, status: nat, s': State) {
    && CfgOk(cfg) && DelayIndex(status) > 0 && r in s.core.reqs && r in s'.core.reqs
    && s'.book == s.book && s'.core.sq == s.core.sq && s'.core.retryList == s.core.retryList + [r]
    && s'.core.reqs[r].retries == s.core.reqs[r].retries + 1
    && s'.core.reqs[r].deadline
       == (env.now(s.core.clock) + cfg.crdt[DelayIndex(status) - 1] * 100_000) % 0x1_0000_0000
  }

  /** A failure that is tried again at once: the same command is back in the ring
      under a fresh CID, one attempt older. */
  ghost predicate SentAgain(s: State, r: nat, s': State) {
    && r in s.core.reqs && r in s'.core.reqs && s'.book == s.book
    && s'.core.sq == s.core.sq + [r] && s'.core.retryList == s.core.retryList
    && s'.core.reqs[r].retries == s.core.reqs[r].retries + 1 && s'.core.reqs[r].sqe == s.core.reqs[r].sqe
    && s'.core.wire == s.core.wire[r := Entry(s'.core.reqs[r].cid, s.core.reqs[r].sqe)]
  }

  /** ... or, with no slot in the ring, gone without a word. */
  ghost predicate Vanished(s: State, r: nat, s': State) {
    && r in s.book.parents && r !in s'.core.reqs && s'.core.sq == s.core.sq
    && s'.book.parents == s.book.parents - {r} && s'.book.lost == s.book.lost[r := s.book.parents[r]]
    && s'.book.ctxs == s.book.ctxs && s'.book.replies == s.book.replies && s'.book.done == s.book.done
  }

  lemma ParkExact(cfg: Config, env: Env, s: State, r: nat)
    requires r in s.core.reqs && s.core.reqs[r].retries < MAX_RETRIES && Crd(s.core.reqs[r].status) != 0
    requires Handling(cfg, s, r) && CfgOk(cfg)
    ensures var s' := ParkForDelay(cfg, env, s, r);
            && s'.book == s.book && s'.core.sq == s.core.sq && s'.core.retryList == s.core.retryList + [r]
            && r in s'.core.reqs && s'.core.reqs[r].retries == s.core.reqs[r].retries + 1
            && s'.core.reqs[r].deadline
               == Later(env.now(s.core.clock), cfg.crdt[Crd(s.core.reqs[r].status) - 1] * 100 * 1000)
  {
    hide Handling, Inv, Settled, Rest, Later, Crd, Nudged;
  }

  lemma LaterIs(now: nat, units: nat)
    ensures Later(now, units * 100 * 1000) == (now + units * 100_000) % 0x1_0000_0000
  {
  }

  lemma CompleteRetries(cfg: Config, env: Env, s: State, r: nat)
    requires r in s.core.reqs && RetryWorthy(s.core.reqs[r]) && s.core.reqs[r].retries < MAX_RETRIES
    requires Handling(cfg, s, r)
    ensures Complete(cfg, env, s, r) == Retry(cfg, env, s, r)
  {
    hide Handling, Inv, Settled, Rest, EndReq, Retry, RetryWorthy;
  }

  lemma DelayedIs(cfg: Config, env: Env, s: State, r: nat, status: nat, s': State)
    requires CfgOk(cfg) && DelayIndex(status) > 0 && r in s.core.reqs && r in s'.core.reqs
    requires DelayIndex(status) - 1 < |cfg.crdt|
    requires s'.book == s.book && s'.core.sq == s.core.sq && s'.core.retryList == s.core.retryList + [r]
    requires s'.core.reqs[r].retries == s.core.reqs[r].retries + 1
    requires s'.core.reqs[r].deadline
             == Later(env.now(s.core.clock), cfg.crdt[DelayIndex(status) - 1] * 100 * 1000)
    ensures Delayed(cfg, env, s, r, status, s')
  {
    LaterIs(env.now(s.core.clock), cfg.crdt[DelayIndex(status) - 1]);
    hide Later, DelayIndex, CfgOk;
  }

  /** What the fields of a status that is not final say. */
  lemma NotFinal(cfg: Config, s: State, r: nat, status: nat)
    requires r in s.core.reqs && s.core.reqs[r].status == status && !Final(s.core.reqs[r], status)
    requires Handling(cfg, s, r)
    ensures RetryWorthy(s.core.reqs[r]) && s.core.reqs[r].retries < MAX_RETRIES && CfgOk(cfg)
    ensures Crd(status) == DelayIndex(status) && (DelayIndex(status) > 0 ==> DelayIndex(status) - 1 < |cfg.crdt|)
  {
    FinalIs(s.core.reqs[r], status);
    assert s.core.reqs[r].(status := status) == s.core.reqs[r];
    HandlingCfg(cfg, s, r);
    RetryWorthyLeft(s.core.reqs[r]);
    hide Handling, Final, RetryWorthy;
  }

  lemma CompleteDelayed(cfg: Config, env: Env, s: State, r: nat, status: nat)
    requires r in s.core.reqs && s.core.reqs[r].status == status && !Final(s.core.reqs[r], status)
    requires DelayIndex(status) > 0 && Handling(cfg, s, r)
    ensures Delayed(cfg, env, s, r, status, Complete(cfg, env, s, r))
  {
    NotFinal(cfg, s, r, status);
    hide *;
    CompleteRetries(cfg, env, s, r);
    ParkLosesNone(cfg, env, s, r);
    ParkExact(cfg, env, s, r);
    DelayedIs(cfg, env, s, r, status, ParkForDelay(cfg, env, s, r));
  }

  lemma CfgDelays(cfg: Config, status: nat)
    requires CfgOk(cfg) && DelayIndex(status) > 0
    ensures DelayIndex(status) - 1 < |cfg.crdt|
  {
  }

  lemma CompleteAgain(cfg: Config, env: Env, s: State, r: nat, status: nat)
    requires r in s.core.reqs && s.core.reqs[r].status == status && !Final(s.core.reqs[r], status)
    requires DelayIndex(status) == 0 && |s.core.pool.free| > 0 && Handling(cfg, s, r)
    ensures var s' := Complete(cfg, env, s, r);
            if !s.core.sqUp || RingFull(s.core) then Vanished(s, r, s') else SentAgain(s, r, s')
  {
    NotFinal(cfg, s, r, status);
    BumpInv(cfg, s, r);
    var s1 := s.(core := Bump(s.core, r));
    HandlingHas(cfg, s1, r);
    FullIs(s1.core);
    Bumped(s.core, r);
    hide *;
    CompleteRetries(cfg, env, s, r);
    RetryNow(cfg, env, s, r);
    RelaunchOutcome(cfg, env, s1, r);
    AgainFrom(s, r, s1, Resubmit(cfg, env, s1, r));
  }

  lemma AgainFrom(s: State, r: nat, s1: State, s': State)
    requires s1.book == s.book && r in s.core.reqs && r in s1.core.reqs && s1.core == s.core.(reqs := s1.core.reqs)
    requires s1.core.reqs[r].retries == s.core.reqs[r].retries + 1 && s1.core.reqs[r].sqe == s.core.reqs[r].sqe
    ensures Vanished(s1, r, s') ==> Vanished(s, r, s')
    ensures s'.book == s1.book && InRingAgain(s1.core, r, s'.core) ==> SentAgain(s, r, s')
  {
  }

  lemma Bumped(k: Core, r: nat)
    requires r in k.reqs
    ensures var k1 := Bump(k, r);
            && k1 == k.(reqs := k1.reqs) && r in k1.reqs && k1.reqs[r].retries == k.reqs[r].retries + 1
            && k1.reqs[r].sqe == k.reqs[r].sqe && (RingFull(k1) <==> RingFull(k))
  {
  }

  lemma FullIs(k: Core)
    ensures RingRefuses(k) <==> !k.sqUp || RingFull(k)
  {
  }

  /** The transport of a resubmission the ring takes. */
  ghost predicate InRingAgain(k: Core, r: nat, k': Core) {
    && r in k.reqs && r in k'.reqs && k'.sq == k.sq + [r] && k'.retryList == k.retryList
    && k'.reqs[r].retries == k.reqs[r].retries && k'.reqs[r].sqe == k.reqs[r].sqe
    && k'.wire == k.wire[r := Entry(k'.reqs[r].cid, k.reqs[r].sqe)]
  }

  lemma RelaunchCore(k: Core, r: nat)
    requires r in k.reqs && |k.pool.free| > 0 && Writes(k.sq, r) <= k.reqs[r].retries && CoreOk(k, Some(r), {})
    ensures var (k', err) := Relaunch(k, r);
            && (err == ASYNC <==> !RingRefuses(k))
            && if err == ASYNC then InRingAgain(k, r, k') else r !in k'.reqs && k'.sq == k.sq
  {
    var (k', err) := Relaunch(k, r);
    assert Relaunched(k, r, k', err);
    RelaunchRetries(k, r);
    hide CoreOk, Relaunch, RingRefuses;
  }

  lemma LostBook(b: Book, r: nat)
    requires r in b.parents
    ensures var b' := Lose(b, r);
            && b'.parents == b.parents - {r} && b'.lost == b.lost[r := b.parents[r]]
            && b'.ctxs == b.ctxs && b'.replies == b.replies && b'.done == b.done
  {
  }

  lemma RelaunchOutcome(cfg: Config, env: Env, s: State, r: nat)
    requires r in s.core.reqs && Writes(s.core.sq, r) <= s.core.reqs[r].retries && Handling(cfg, s, r)
    requires |s.core.pool.free| > 0 && r in s.book.parents
    ensures var s' := Resubmit(cfg, env, s, r);
            if RingRefuses(s.core) then Vanished(s, r, s') else s'.book == s.book && InRingAgain(s.core, r, s'.core)
  {
    HandlingCore(cfg, s, r);
    RelaunchCore(s.core, r);
    LostBook(s.book, r);
    hide Handling, Settled, Rest, CoreOk, Relaunch, RingRefuses, Inv, Nudged, Lose, InRingAgain;
  }

  lemma RelaunchRetries(k: Core, r: nat)
    requires r in k.reqs && |k.pool.free| > 0 && Writes(k.sq, r) <= k.reqs[r].retries && CoreOk(k, Some(r), {})
    ensures var (k', err) := Relaunch(k, r);
            err == ASYNC ==> r in k'.reqs && k'.reqs[r].retries == k.reqs[r].retries
  {
    RetagOk(k, r);
    CoreShape(Retag(k, r));
    hide CoreOk, Retag, Destroy;
  }

  lemma OutcomeFrom(cfg: Config, env: Env, s: State, t: nat, s2: State, r: nat, status: nat, s': State)
    requires TakenOut(s, t, r, s2) && s2.core.reqs[r] == s.core.reqs[r].(status := status)
    ensures Delayed(cfg, env, s2, r, status, s') ==> Delayed(cfg, env, s, r, status, s')
    ensures SentAgain(s2, r, s') ==> SentAgain(s, r, s')
    ensures Vanished(s2, r, s') ==> Vanished(s, r, s')
    ensures RingFull(s2.core) <==> RingFull(s.core)
  {
    hide DelayIndex;
  }

  /** A completion that is not final: delayed, back in the ring, or lost, by the
      delay it asks for and the room in the ring. */
  lemma CqeRetries(cfg: Config, env: Env, s: State, raw: Cid, status: nat, r: nat)
    requires Lookup(s.core.pool, raw) == Some(r) && Rest(cfg, s)
    ensures r in s.core.reqs
    ensures !Final(s.core.reqs[r], status) ==>
              var s' := OnCqe(cfg, env, s, raw, status);
              if DelayIndex(status) > 0 then Delayed(cfg, env, s, r, status, s')
              else if !s.core.sqUp || RingFull(s.core) then Vanished(s, r, s')
              else SentAgain(s, r, s')
  {
    var s2 := CqeInHand(cfg, env, s, raw, status, r);
    TakenRing(s, raw.tag, r, s2);
    FinalSame(s.core.reqs[r], s2.core.reqs[r], status);
    hide OnCqe, Complete, Handling, Rest, Lookup, Delayed, SentAgain, Vanished, RingFull, DelayIndex, Final;
    if !Final(s.core.reqs[r], status) {
      OutcomeFrom(cfg, env, s, raw.tag, s2, r, status, OnCqe(cfg, env, s, raw, status));
      hide TakenOut;
      if DelayIndex(status) > 0 {
        CompleteDelayed(cfg, env, s2, r, status);
      } else {
        CompleteAgain(cfg, env, s2, r, status);
      }
    }
  }

  lemma TakenRing(s: State, t: nat, r: nat, s2: State)
    requires TakenOut(s, t, r, s2)
    ensures s2.core.sqUp == s.core.sqUp && r in s.core.reqs && r in s2.core.reqs
  {
  }

  lemma FinalSame(q: Req, q2: Req, status: nat)
    requires q2 == q.(status := status)
    ensures Final(q2, status) <==> Final(q, status)
  {
  }

  // ------------------------------------------------- ends by the driver's hand

  /** Context `c` has error `e`, or its IOStdReq `io` was answered with it. */
  ghost predicate ErrIs(b: Book, io: nat, c: nat, e: int) {
    || (c in b.ctxs && b.ctxs[c].io == io && b.ctxs[c].firstError == e)
    || (io in b.replies && b.replies[io].Outcome? && b.replies[io].err == e)
  }

  /** A chunk of context `c` is among `ended`. */
  ghost predicate HitBy(b: Book, c: nat, ended: set<nat>) {
    exists x :: x in ended && x in b.parents && b.parents[x] == Sibling(c)
  }

  ghost predicate CtxAfterEnds(b: Book, c: nat, ended: set<nat>, code: nat, b': Book)
    requires c in b.ctxs
  {
    if HitBy(b, c, ended) then ErrIs(b', b.ctxs[c].io, c, FirstError(b.ctxs[c], code))
    else c in b'.ctxs && b'.ctxs[c] == b.ctxs[c]
  }

  /** The requests `ended`, and no others, completed with the failure `code`: their
      contexts have it for an error unless they had one before, their own IOStdReqs
      are answered with it. */
  ghost predicate EndsAll(b: Book, ended: set<nat>, code: nat, b': Book) {
    && (forall x :: x in ended ==> x in b.parents && x !in b.done && x in b'.done && b'.done[x] == code)
    && (forall x :: x in b'.done && x !in ended ==> x in b.done && b'.done[x] == b.done[x])
    && (forall x :: x in b.done ==> x in b'.done)
    && (forall c :: c in b.ctxs ==> CtxAfterEnds(b, c, ended, code, b'))
    && (forall x :: x in ended && x in b.parents && b.parents[x].Single? ==> AnsweredWith(b', b.parents[x].io, code))
    && (forall x :: x in b'.parents ==> x in b.parents && b'.parents[x] == b.parents[x])
  }

  ghost predicate AnsweredWith(b: Book, io: nat, code: nat) {
    io in b.replies && b.replies[io].Outcome? && b.replies[io].err == ErrorFor(code)
  }

  lemma EndsNone(b: Book, code: nat, b': Book)
    requires b'.done == b.done && b'.ctxs == b.ctxs
    requires forall x :: x in b'.parents ==> x in b.parents && b'.parents[x] == b.parents[x]
    ensures EndsAll(b, {}, code, b')
  {
  }

  lemma HitEither(b: Book, c: nat, e1: set<nat>, e2: set<nat>, b1: Book)
    requires forall x :: x in e2 ==> x in b1.parents
    requires forall x :: x in b1.parents ==> x in b.parents && b1.parents[x] == b.parents[x]
    ensures HitBy(b, c, e1 + e2) <==> HitBy(b, c, e1) || HitBy(b1, c, e2)
  {
    if HitBy(b, c, e1 + e2) {
      var x :| x in e1 + e2 && x in b.parents && b.parents[x] == Sibling(c);
      assert x in e1 || x in e2;
    }
    if x :| x in e1 && x in b.parents && b.parents[x] == Sibling(c) { assert x in e1 + e2; }
    if x :| x in e2 && x in b1.parents && b1.parents[x] == Sibling(c) { assert x in e1 + e2; }
  }

  lemma EndsBothCtx(b: Book, e1: set<nat>, b1: Book, e2: set<nat>, b2: Book, code: nat, c: nat)
    requires EndsAll(b, e1, code, b1) && EndsAll(b1, e2, code, b2) && ErrorFor(code) != 0 && c in b.ctxs
    requires forall io :: io in b1.replies ==> io in b2.replies && b2.replies[io] == b1.replies[io]
    ensures CtxAfterEnds(b, c, e1 + e2, code, b2)
  {
    assert CtxAfterEnds(b, c, e1, code, b1);
    if c in b1.ctxs { assert CtxAfterEnds(b1, c, e2, code, b2); }
    HitEither(b, c, e1, e2, b1);
    hide HitBy, EndsAll, ErrorFor;
  }

  lemma EndsBoth(b: Book, e1: set<nat>, b1: Book, e2: set<nat>, b2: Book, code: nat)
    requires EndsAll(b, e1, code, b1) && EndsAll(b1, e2, code, b2) && ErrorFor(code) != 0
    requires forall io :: io in b1.replies ==> io in b2.replies && b2.replies[io] == b1.replies[io]
    ensures EndsAll(b, e1 + e2, code, b2)
  {
    forall c | c in b.ctxs ensures CtxAfterEnds(b, c, e1 + e2, code, b2) {
      EndsBothCtx(b, e1, b1, e2, b2, code, c);
    }
    hide CtxAfterEnds, ErrorFor;
    forall x | x in e1 + e2 && x in b.parents && b.parents[x].Single? ensures AnsweredWith(b2, b.parents[x].io, code) {
      if x in e1 { assert AnsweredWith(b1, b.parents[x].io, code); }
    }
  }

  /** One request ended with a failure. */
  lemma EndsOne(cfg: Config, env: Env, s: State, r: nat, code: nat, s': State)
    requires Ended(cfg, env, s, r, code, s') && ErrorFor(code) != 0 && r !in s.book.done
    ensures EndsAll(s.book, {r}, code, s'.book)
  {
    hide ErrorFor, PumpEnd;
    if s.book.parents[r].Single? {
      SingleEndsOne(s.book, r, code, s'.book);
    } else {
      var s2, tried :| SiblingEnded(cfg, env, s, r, code, s', s2, tried);
      SiblingEndsOne(cfg, env, s, r, code, s', s2, tried);
    }
  }

  lemma SingleEndsOne(b: Book, r: nat, code: nat, b': Book)
    requires r in b.parents && b.parents[r].Single? && SingleEnded(b, r, code, b') && r !in b.done
    requires b'.done == b.done[r := code]
    ensures EndsAll(b, {r}, code, b')
  {
    hide ErrorFor;
    forall c | c in b.ctxs ensures CtxAfterEnds(b, c, {r}, code, b') {}
  }

  lemma SiblingEndsOne(cfg: Config, env: Env, s: State, r: nat, code: nat, s': State, s2: State, tried: Option<Core>)
    requires r in s.book.parents && s.book.parents[r].Sibling? && r in s.core.reqs && r !in s.book.done
    requires ErrorFor(code) != 0 && s'.book.done == s.book.done[r := code]
    requires SiblingEnded(cfg, env, s, r, code, s', s2, tried)
    ensures EndsAll(s.book, {r}, code, s'.book)
  {
    hide ErrorFor, PumpEnd;
    var c := s.book.parents[r].ctx;
    assert HitBy(s.book, c, {r});
    forall d | d in s.book.ctxs ensures CtxAfterEnds(s.book, d, {r}, code, s'.book) {
      if d != c { assert !HitBy(s.book, d, {r}); }
    }
  }

  /** Cancelling a slot ends its request as host-aborted. */
  lemma CancelEnds(cfg: Config, env: Env, s: State, i: nat, r: nat, code: nat)
    requires Rest(cfg, s) && i < |s.core.pool.table| && s.core.pool.table[i].Busy? && r == s.core.pool.table[i].req
    requires code == SC_HOST_ABORTED
    ensures Ended(cfg, env, s, r, code, CancelSlot(cfg, env, s, i))
  {
    var s2 := CancelInHand(cfg, env, s, i, r);
    hide *;
    CompleteFinal(cfg, env, s2, r, code);
    EndedFrom(cfg, env, s, s2, r, code, Complete(cfg, env, s2, r));
  }

  lemma CancelInHand(cfg: Config, env: Env, s: State, i: nat, r: nat) returns (s2: State)
    requires Rest(cfg, s) && i < |s.core.pool.table| && s.core.pool.table[i].Busy? && r == s.core.pool.table[i].req
    ensures SameClaims(s, s2, r) && Handling(cfg, s2, r)
    ensures s2.core.reqs[r].status == SC_HOST_ABORTED && Final(s2.core.reqs[r], SC_HOST_ABORTED)
    ensures CancelSlot(cfg, env, s, i) == Complete(cfg, env, s2, r)
  {
    hide Inv, Handling, ReleaseTag, Rest, Settled, Complete;
    RestSlot(cfg, s, i);
    ReleaseInv(cfg, s, i, r);
    var s1 := s.(core := ReleaseTag(s.core, r));
    HandlingHas(cfg, s1, r);
    SetStatusInv(cfg, s1, r, SC_HOST_ABORTED, true);
    s2 := s1.(core := SetStatus(s1.core, r, SC_HOST_ABORTED, true));
    HandlingHas(cfg, s2, r);
  }

  /** Requests in the table from slot `i` on. */
  ghost function InSlots(k: Core, i: nat): set<nat> {
    set t: nat | i <= t < |k.pool.table| && k.pool.table[t].Busy? :: k.pool.table[t].req
  }

  /** One slot of the flush. */
  lemma CancelEndsOne(cfg: Config, env: Env, s: State, i: nat, r: nat, code: nat)
    requires Rest(cfg, s) && i < |s.core.pool.table| && s.core.pool.table[i].Busy? && r == s.core.pool.table[i].req
    requires code == SC_HOST_ABORTED
    ensures EndsAll(s.book, {r}, code, CancelSlot(cfg, env, s, i).book)
  {
    hide *;
    CancelledLive(cfg, s, i, r);
    AbortError(code);
    var s1 := CancelSlot(cfg, env, s, i);
    CancelEnds(cfg, env, s, i, r, code);
    EndsOneAt(cfg, env, s, r, code, s1);
  }

  lemma AbortError(code: nat)
    requires code == SC_HOST_ABORTED
    ensures ErrorFor(code) == 20 && code == 0x371
  {
  }

  lemma EndsOneAt(cfg: Config, env: Env, s: State, r: nat, code: nat, s': State)
    requires r !in s.book.done && ErrorFor(code) == 20 && Ended(cfg, env, s, r, code, s')
    ensures EndsAll(s.book, {r}, code, s'.book)
  {
    hide *;
    EndsOne(cfg, env, s, r, code, s');
  }

  lemma CancelledTable(cfg: Config, env: Env, s: State, i: nat)
    requires Rest(cfg, s) && i < |s.core.pool.table| && s.core.pool.table[i].Busy?
    ensures CancelSlot(cfg, env, s, i).core.pool.table == s.core.pool.table[i := Empty]
  {
    CancelSlotDoes(cfg, env, s, i);
    hide Rest, CancelSlot, BookCancel;
  }

  lemma SlotsLess(k: Core, k1: Core, i: nat)
    requires i < |k.pool.table| && k.pool.table[i].Busy? && k1.pool.table == k.pool.table[i := Empty]
    ensures InSlots(k, i) == {k.pool.table[i].req} + InSlots(k1, i + 1)
  {
    forall x | x in InSlots(k, i) ensures x == k.pool.table[i].req || x in InSlots(k1, i + 1) {
      var t: nat :| i <= t < |k.pool.table| && k.pool.table[t].Busy? && k.pool.table[t].req == x;
      assert t == i || k1.pool.table[t] == k.pool.table[t];
    }
    forall x | x in InSlots(k1, i + 1) ensures x in InSlots(k, i) {
      var t: nat :| i + 1 <= t < |k1.pool.table| && k1.pool.table[t].Busy? && k1.pool.table[t].req == x;
      assert k.pool.table[t] == k1.pool.table[t];
    }
  }

  lemma CancelledLive(cfg: Config, s: State, i: nat, r: nat)
    requires Rest(cfg, s) && i < |s.core.pool.table| && s.core.pool.table[i].Busy? && r == s.core.pool.table[i].req
    ensures r !in s.book.done
  {
    hide Rest;
    RestSlot(cfg, s, i);
    assert r in s.core.reqs;
    LiveNotDone(cfg, s, r);
    assert r !in s.book.done;
  }

  lemma FlushGoes(cfg: Config, env: Env, s: State, i: nat)
    requires Rest(cfg, s)
    ensures if i >= |s.core.pool.table| then FlushFrom(cfg, env, s, i) == s
            else if s.core.pool.table[i].Empty? then FlushFrom(cfg, env, s, i) == FlushFrom(cfg, env, s, i + 1)
            else FlushFrom(cfg, env, s, i) == FlushFrom(cfg, env, CancelSlot(cfg, env, s, i), i + 1)
  {
    hide Rest, CancelSlot;
  }

  lemma SlotsSkip(k: Core, i: nat)
    requires i < |k.pool.table| ==> k.pool.table[i].Empty?
    ensures InSlots(k, i) == if i < |k.pool.table| then InSlots(k, i + 1) else {}
  {
  }

  lemma FlushSlot(cfg: Config, env: Env, s: State, i: nat, code: nat)
    requires Rest(cfg, s) && i < |s.core.pool.table| && s.core.pool.table[i].Busy? && code == SC_HOST_ABORTED
    requires var s1 := CancelSlot(cfg, env, s, i);
             EndsAll(s1.book, InSlots(s1.core, i + 1), code, FlushFrom(cfg, env, s1, i + 1).book)
    ensures EndsAll(s.book, InSlots(s.core, i), code, FlushFrom(cfg, env, CancelSlot(cfg, env, s, i), i + 1).book)
  {
    hide *;
    var r := s.core.pool.table[i].req;
    var s1 := CancelSlot(cfg, env, s, i);
    AbortError(code);
    CancelledTable(cfg, env, s, i);
    SlotsLess(s.core, s1.core, i);
    CancelEndsOne(cfg, env, s, i, r, code);
    FlushReplies(cfg, env, s1, i + 1);
    EndsBoth(s.book, {r}, s1.book, InSlots(s1.core, i + 1), FlushFrom(cfg, env, s1, i + 1).book, code);
  }

  /** The flush from slot `i` on ends exactly the requests in those slots. */
  lemma {:induction false} FlushEnds(cfg: Config, env: Env, s: State, i: nat, code: nat)
    requires Rest(cfg, s) && code == SC_HOST_ABORTED
    ensures EndsAll(s.book, InSlots(s.core, i), code, FlushFrom(cfg, env, s, i).book)
    decreases |s.core.pool.table| - i
  {
    hide *;
    FlushGoes(cfg, env, s, i);
    if i >= |s.core.pool.table| {
      SlotsSkip(s.core, i);
      EndsNone(s.book, code, s.book);
    } else if s.core.pool.table[i].Empty? {
      SlotsSkip(s.core, i);
      FlushEnds(cfg, env, s, i + 1, code);
    } else {
      CancelledTable(cfg, env, s, i);
      FlushEnds(cfg, env, CancelSlot(cfg, env, s, i), i + 1, code);
      FlushSlot(cfg, env, s, i, code);
    }
  }

  lemma FlushReplies(cfg: Config, env: Env, s: State, i: nat)
    requires Rest(cfg, s)
    ensures var b := FlushFrom(cfg, env, s, i).book;
            forall io :: io in s.book.replies ==> io in b.replies && b.replies[io] == s.book.replies[io]
  {
    FlushCarries(cfg, env, s, i);
    hide Rest, FlushFrom, CtxCarried, ReqCarried;
  }

  lemma LiveNotDone(cfg: Config, s: State, r: nat)
    requires Rest(cfg, s) && r in s.core.reqs
    ensures r !in s.book.done && r in s.book.parents
  {
  }

  // -------------------------------------------- resubmissions without a tag

  lemma PathError(code: nat)
    requires code == SC_HOST_PATH_ERROR
    ensures code == 0x370 && Crd(code) == 0 && ErrorFor(code) == 20
  {
  }

  lemma WorthyOrFinal(q: Req, code: nat)
    requires q.status == code
    ensures Final(q, code) || RetryWorthy(q)
  {
    FinalIs(q, code);
    assert q.(status := code) == q;
    hide Final, RetryWorthy;
  }

  /** A resubmission with no tag to be had ends its request with a host path error,
      however many attempts it had left. */
  lemma {:induction false} TaglessEnds(cfg: Config, env: Env, s: State, r: nat, code: nat)
    requires code == SC_HOST_PATH_ERROR && r in s.core.reqs && s.core.reqs[r].status == code
    requires |s.core.pool.free| == 0 && Handling(cfg, s, r)
    ensures Ended(cfg, env, s, r, code, Complete(cfg, env, s, r))
    decreases 5 - s.core.reqs[r].retries, 1
  {
    PathError(code);
    WorthyOrFinal(s.core.reqs[r], code);
    HandlingHas(cfg, s, r);
    if Final(s.core.reqs[r], code) {
      hide *;
      CompleteFinal(cfg, env, s, r, code);
    } else {
      RetryWorthyLeft(s.core.reqs[r]);
      BumpInv(cfg, s, r);
      var s1 := s.(core := Bump(s.core, r));
      assert SameClaims(s, s1, r) && s1.core.reqs[r].retries == s.core.reqs[r].retries + 1;
      assert s1.core.pool == s.core.pool;
      hide *;
      CompleteRetries(cfg, env, s, r);
      RetryNow(cfg, env, s, r);
      NoTagEnds(cfg, env, s1, r, code);
      EndedFrom(cfg, env, s, s1, r, code, Resubmit(cfg, env, s1, r));
    }
  }

  lemma NoTagIs(cfg: Config, env: Env, s: State, r: nat)
    requires r in s.core.reqs && |s.core.pool.free| == 0 && Writes(s.core.sq, r) <= s.core.reqs[r].retries
    requires Handling(cfg, s, r)
    ensures var s1 := s.(core := SetStatus(s.core, r, SC_HOST_PATH_ERROR, false));
            && Handling(cfg, s1, r) && r in s1.core.reqs && Resubmit(cfg, env, s, r) == Complete(cfg, env, s1, r)
            && SameClaims(s, s1, r) && s1.core.reqs[r].retries == s.core.reqs[r].retries
            && s1.core.reqs[r].status == SC_HOST_PATH_ERROR && s1.core.pool == s.core.pool
  {
    HandlingCore(cfg, s, r);
    SetStatusInv(cfg, s, r, SC_HOST_PATH_ERROR, false);
    hide Handling, Rest, Inv, Settled, CoreOk, Nudged, Complete;
  }

  lemma {:induction false} NoTagEnds(cfg: Config, env: Env, s: State, r: nat, code: nat)
    requires code == SC_HOST_PATH_ERROR
    requires r in s.core.reqs && |s.core.pool.free| == 0 && Writes(s.core.sq, r) <= s.core.reqs[r].retries
    requires Handling(cfg, s, r)
    ensures Ended(cfg, env, s, r, code, Resubmit(cfg, env, s, r))
    decreases 5 - s.core.reqs[r].retries, 2
  {
    NoTagIs(cfg, env, s, r);
    var s1 := s.(core := SetStatus(s.core, r, SC_HOST_PATH_ERROR, false));
    assert s1.core.reqs[r].status == code;
    HandlingHas(cfg, s, r);
    hide *;
    TaglessEnds(cfg, env, s1, r, code);
    EndedFrom(cfg, env, s, s1, r, code, Complete(cfg, env, s1, r));
  }

  // -------------------------------------------------------- a watchdog tick

  /** The requests a tick sends again, in order, and those it ends: the due ones take
      tags and ring slots in the order of the list.  A due request is sent if a tag
      and a slot are left at its turn, ended if no tag is; with a tag but no slot it
      is lost (IoLost.Doomed). */
  function TickSent(reqs: map<nat, Req>, m: Room, now: nat, todo: seq<nat>): seq<nat>
    decreases |todo|
  {
    if todo == [] then []
    else
      var r := todo[0];
      if r in reqs && Due(now, reqs[r].deadline) && m.free > 0 && !Full(m)
      then [r] + TickSent(reqs, Taken(m), now, todo[1..])
      else TickSent(reqs, m, now, todo[1..])
  }

  ghost function TickEnded(reqs: map<nat, Req>, m: Room, now: nat, todo: seq<nat>): set<nat>
    decreases |todo|
  {
    if todo == [] then {}
    else
      var r := todo[0];
      if r !in reqs || !Due(now, reqs[r].deadline) then TickEnded(reqs, m, now, todo[1..])
      else if m.free == 0 then {r} + TickEnded(reqs, m, now, todo[1..])
      else if Full(m) then TickEnded(reqs, m, now, todo[1..])
      else TickEnded(reqs, Taken(m), now, todo[1..])
  }

  lemma {:induction false} TickSame(reqs: map<nat, Req>, reqs': map<nat, Req>, m: Room, now: nat, todo: seq<nat>)
    requires forall y :: y in todo ==> y in reqs && y in reqs' && reqs'[y] == reqs[y]
    ensures TickSent(reqs, m, now, todo) == TickSent(reqs', m, now, todo)
    ensures TickEnded(reqs, m, now, todo) == TickEnded(reqs', m, now, todo)
    decreases |todo|
  {
    if todo != [] {
      assert todo[0] in todo;
      forall y | y in todo[1..] ensures y in todo {}
      hide Due, Full, Taken;
      TickSame(reqs, reqs', m, now, todo[1..]);
      if m.free > 0 && !Full(m) {
        TakenDepth(m);
        TickSame(reqs, reqs', Taken(m), now, todo[1..]);
      }
    }
  }

  lemma TakenDepth(m: Room)
    requires !Full(m)
    ensures m.depth > 0
  {
  }

  /** What one resubmission by the tick does to ring and books. */
  ghost predicate TurnDid(s: State, r: nat, code: nat, s2: State) {
    var m := RoomOf(s.core);
    if m.free == 0 then s2.core.sq == s.core.sq && EndsAll(s.book, {r}, code, s2.book)
    else
      && EndsAll(s.book, {}, code, s2.book)
      && s2.core.sq == if Full(m) then s.core.sq else s.core.sq + [r]
  }

  lemma TurnDoes(cfg: Config, env: Env, s: State, r: nat, code: nat)
    requires r in s.core.reqs && Writes(s.core.sq, r) <= s.core.reqs[r].retries && Handling(cfg, s, r)
    requires code == SC_HOST_PATH_ERROR
    ensures TurnDid(s, r, code, Resubmit(cfg, env, s, r))
  {
    var s2 := Resubmit(cfg, env, s, r);
    HandlingHas(cfg, s, r);
    HandlingNotDone(cfg, s, r);
    PathError(code);
    hide Handling, Resubmit, Full, EndsAll, Ended, ErrorFor, RingRefuses, Crd;
    if |s.core.pool.free| == 0 {
      NoTagEnds(cfg, env, s, r, code);
      EndsOne(cfg, env, s, r, code, s2);
      EndedSq(cfg, env, s, r, code, s2);
    } else {
      RelaunchOutcome(cfg, env, s, r);
      RefusesIsFull(s.core);
      EndsNone(s.book, code, s2.book);
    }
  }

  lemma HandlingNotDone(cfg: Config, s: State, r: nat)
    requires Handling(cfg, s, r)
    ensures r !in s.book.done
  {
  }

  /** A request ended with a failure sends nothing. */
  lemma EndedSq(cfg: Config, env: Env, s: State, r: nat, code: nat, s': State)
    requires Ended(cfg, env, s, r, code, s') && ErrorFor(code) != 0
    ensures s'.core.sq == s.core.sq
  {
    hide ErrorFor, PumpEnd, Concluded, SingleEnded;
    if s.book.parents[r].Sibling? {
      var s2, tried :| SiblingEnded(cfg, env, s, r, code, s', s2, tried);
    }
  }

  /** The requests a tick sends and ends, from any point of its walk. */
  ghost predicate TickDid(s: State, now: nat, todo: seq<nat>, code: nat, s': State) {
    && s'.core.sq == s.core.sq + TickSent(s.core.reqs, RoomOf(s.core), now, todo)
    && EndsAll(s.book, TickEnded(s.core.reqs, RoomOf(s.core), now, todo), code, s'.book)
  }

  lemma TickNone(s: State, now: nat, code: nat)
    ensures TickDid(s, now, [], code, s)
  {
    EndsNone(s.book, code, s.book);
  }

  lemma TickSkips(s: State, now: nat, todo: seq<nat>, code: nat, s': State)
    requires todo != [] && todo[0] in s.core.reqs && !Due(now, s.core.reqs[todo[0]].deadline)
    requires TickDid(s, now, todo[1..], code, s')
    ensures TickDid(s, now, todo, code, s')
  {
    hide Due, Full, EndsAll;
  }

  lemma TickTurn(s: State, now: nat, todo: seq<nat>, code: nat, s2: State, s': State)
    requires todo != [] && todo[0] in s.core.reqs && Due(now, s.core.reqs[todo[0]].deadline)
    requires TurnDid(s, todo[0], code, s2) && ResubmitFate(s, todo[0], s2) && ErrorFor(code) != 0
    requires forall y :: y in todo[1..] ==> y in s.core.reqs && y in s2.core.reqs && s2.core.reqs[y] == s.core.reqs[y]
    requires TickDid(s2, now, todo[1..], code, s')
    requires forall io :: io in s2.book.replies ==> io in s'.book.replies && s'.book.replies[io] == s2.book.replies[io]
    ensures TickDid(s, now, todo, code, s')
  {
    var r, rest := todo[0], todo[1..];
    var m, m2 := RoomOf(s.core), RoomOf(s2.core);
    TickSame(s.core.reqs, s2.core.reqs, m2, now, rest);
    var ends := TickEnded(s2.core.reqs, m2, now, rest);
    hide Due, Full, EndsAll, ErrorFor, Taken, RoomOf;
    if m.free == 0 {
      EndsBoth(s.book, {r}, s2.book, ends, s'.book, code);
    } else {
      EndsBoth(s.book, {}, s2.book, ends, s'.book, code);
      assert {} + ends == ends;
    }
  }

  lemma {:induction false} TickDoes(cfg: Config, env: Env, s: State, now: nat, todo: seq<nat>, code: nat)
    requires Rest(cfg, s) && Parked(s, todo) && code == SC_HOST_PATH_ERROR
    ensures TickDid(s, now, todo, code, TickRetries(cfg, env, s, now, todo))
    decreases |todo|
  {
    if todo == [] {
      TickNone(s, now, code);
    } else {
      ParkedReq(cfg, s, todo);
      hide Rest, Resubmit, Handling, Settled, Due, Parked, Unpark, TickDid, TurnDid, ResubmitFate;
      if !Due(now, s.core.reqs[todo[0]].deadline) {
        TickDoes(cfg, env, s, now, todo[1..], code);
        TickSkips(s, now, todo, code, TickRetries(cfg, env, s, now, todo[1..]));
      } else {
        var s2 := DueTurn(cfg, env, s, now, todo);
        hide TickRetries;
        PathError(code);
        TurnDoes(cfg, env, s.(core := Unpark(s.core, todo[0])), todo[0], code);
        TurnUnparked(s, todo[0], code, s2);
        TickDoes(cfg, env, s2, now, todo[1..], code);
        TickReplies(cfg, env, s2, now, todo[1..]);
        TickTurn(s, now, todo, code, s2, TickRetries(cfg, env, s2, now, todo[1..]));
      }
    }
  }

  lemma TurnUnparked(s: State, r: nat, code: nat, s2: State)
    requires TurnDid(s.(core := Unpark(s.core, r)), r, code, s2)
    ensures TurnDid(s, r, code, s2)
  {
    hide Full, EndsAll;
  }

  lemma TickReplies(cfg: Config, env: Env, s: State, now: nat, todo: seq<nat>)
    requires Rest(cfg, s) && Parked(s, todo)
    ensures var b := TickRetries(cfg, env, s, now, todo).book;
            forall io :: io in s.book.replies ==> io in b.replies && b.replies[io] == s.book.replies[io]
  {
    TickWalkCarries(cfg, env, s, now, todo);
    hide Rest, TickRetries, CtxCarried, ReqCarried, Parked;
  }
}
