/** Ends without a refill.  nvme_flush_queue_inflight empties the table, writes no
    SQE, and answers everything that was in the table with an error; the unit
    task's exit answers every parked context with IOERR_ABORTED. */
module IoFlush {
  import opened Base
  import opened Tags
  import opened Chunk
  import opened IoCore
  import opened IoBook
  import opened IoPath

  /** `io` is answered in `b`, with an error. */
  ghost predicate FailedIo(b: Book, io: nat) {
    io in b.replies && b.replies[io].err != 0
  }

  /** Ends, and nothing else: requests and contexts may be gone, every new reply
      is an error, and the parked contexts and the lost requests are the same. */
  ghost predicate Shrunk(b: Book, b': Book) {
    && b'.lost == b.lost && b'.stalled == b.stalled && b'.nextIo == b.nextIo
    && (forall r :: r in b'.parents ==> r in b.parents && b'.parents[r] == b.parents[r])
    && (forall c :: c in b'.ctxs ==> c in b.ctxs && b'.ctxs[c].io == b.ctxs[c].io)
    && (forall io :: io in b.replies ==> io in b'.replies && b'.replies[io] == b.replies[io])
    && (forall io :: io in b'.replies && io !in b.replies ==> FailedIo(b', io))
  }

  lemma ShrunkTrans(b: Book, b1: Book, b2: Book)
    requires Shrunk(b, b1) && Shrunk(b1, b2)
    ensures Shrunk(b, b2)
  {
  }

  /** What cancelling request `r` does to the books: its context latches an error
      and so is never refilled; the last sibling's end answers it. */
  ghost predicate BookCancel(b: Book, r: nat, b': Book) {
    && r in b.parents && b'.parents == b.parents - {r} && Shrunk(b, b')
    && (b.parents[r].Single? ==> FailedIo(b', b.parents[r].io))
    && (forall c :: c in b.ctxs ==> CtxAfter(b, r, c, b'))
  }

  ghost predicate CtxAfter(b: Book, r: nat, c: nat, b': Book)
    requires c in b.ctxs
  {
    if b.ctxs[c].sibs == {r} then FailedIo(b', b.ctxs[c].io)
    else
      && c in b'.ctxs && b'.ctxs[c].io == b.ctxs[c].io
      && b'.ctxs[c].sibs == b.ctxs[c].sibs - {r}
  }

  ghost predicate Cancelled(s: State, i: nat, s': State) {
    && i < Depth(s.core) && s.core.pool.table[i].Busy?
    && s'.core.pool.table == s.core.pool.table[i := Empty]
    && s'.core.sq == s.core.sq && s'.core.retryList == s.core.retryList
    && BookCancel(s.book, s.core.pool.table[i].req, s'.book)
  }

  lemma CancelSingle(cfg: Config, b: Book, r: nat, status: nat)
    requires BookOk(cfg.limits, b, None, None) && r in b.parents && b.parents[r].Single? && ErrorStatus(status) != 0
    ensures BookCancel(b, r, EndSingle(b, r, status))
  {
    var b' := EndSingle(b, r, status);
    assert CtxsOk(cfg.limits, b, None);
    forall c | c in b.ctxs ensures CtxAfter(b, r, c, b') {
      assert CtxOk(cfg.limits, b, c, None);
      assert r !in b.ctxs[c].sibs;
      assert b.ctxs[c].sibs - {r} == b.ctxs[c].sibs;
    }
  }

  /** `r` is a sibling of its own context only, and counted there. */
  lemma SiblingOf(l: Limits, b: Book, r: nat, d: nat)
    requires CtxsOk(l, b, None) && r in b.parents && b.parents[r].Sibling? && d in b.ctxs
    ensures r in b.ctxs[d].sibs <==> d == b.parents[r].ctx
    ensures b.ctxs[d].inflight == |b.ctxs[d].sibs|
    ensures d == b.parents[r].ctx ==> !b.ctxs[d].stalled
  {
    assert CtxOk(l, b, d, None);
    assert SibsOk(b, d, b.ctxs[d].sibs);
  }

  lemma CtxUnreplied(b: Book, c: nat)
    requires OwnersOk(b, None) && c in b.ctxs
    ensures b.ctxs[c].io !in b.replies
  {
  }

  /** The sibling's end without a refill. */
  lemma CancelSibling(cfg: Config, s: State, r: nat, status: nat, userLen: nat)
    requires BookOk(cfg.limits, s.book, None, None) && r in s.book.parents && s.book.parents[r].Sibling?
    requires status != 0 && ErrorStatus(status) != 0
    ensures var c := s.book.parents[r].ctx;
            && c in s.book.ctxs
            && var s1 := s.(book := EndSibling(s.book, r, status, userLen));
            && s1.book.ctxs[c].firstError != 0
            && BookCancel(s.book, r, Answer(s1, c).book)
  {
    var b := s.book;
    var c := b.parents[r].ctx;
    assert CtxsOk(cfg.limits, b, None) && OwnersOk(b, None);
    assert c in b.ctxs;
    SiblingOf(cfg.limits, b, r, c);
    CtxUnreplied(b, c);
    if b.ctxs[c].sibs != {r} { StillHeld(b.ctxs[c].sibs, r); }
    forall d | d in b.ctxs ensures d != c ==> r !in b.ctxs[d].sibs { SiblingOf(cfg.limits, b, r, d); }
    hide BookOk, CtxsOk, OwnersOk, ErrorStatus;
    CancelSiblingBook(s, r, status, userLen);
  }

  /** What the sibling's end presupposes of the books. */
  ghost predicate SiblingEnds(b: Book, r: nat, status: nat) {
    && r in b.parents && b.parents[r].Sibling? && b.parents[r].ctx in b.ctxs
    && status != 0 && ErrorStatus(status) != 0
    && var k := b.ctxs[b.parents[r].ctx];
    && r in k.sibs && !k.stalled && k.inflight == |k.sibs| && k.io !in b.replies && (k.sibs != {r} ==> |k.sibs| >= 2)
    && forall d :: d in b.ctxs && d != b.parents[r].ctx ==> r !in b.ctxs[d].sibs
  }

  lemma CancelSiblingBook(s: State, r: nat, status: nat, userLen: nat)
    requires SiblingEnds(s.book, r, status)
    ensures var c := s.book.parents[r].ctx;
            && var s1 := s.(book := EndSibling(s.book, r, status, userLen));
            && s1.book.ctxs[c].firstError != 0
            && BookCancel(s.book, r, Answer(s1, c).book)
  {
    var b := s.book;
    var c := b.parents[r].ctx;
    SiblingShrunk(s, r, status, userLen);
    hide ErrorStatus, Shrunk;
    forall d | d in b.ctxs && d != c ensures b.ctxs[d].sibs - {r} == b.ctxs[d].sibs {}
  }

  lemma SiblingShrunk(s: State, r: nat, status: nat, userLen: nat)
    requires SiblingEnds(s.book, r, status)
    ensures var s1 := s.(book := EndSibling(s.book, r, status, userLen));
            Shrunk(s.book, Answer(s1, s.book.parents[r].ctx).book)
  {
    hide ErrorStatus;
  }

  lemma StillHeld(sibs: set<nat>, r: nat)
    requires r in sibs && sibs != {r}
    ensures |sibs| >= 2
  {
    var x :| x in sibs && x != r;
    assert {x, r} <= sibs;
    assert sibs == {x, r} + (sibs - {x, r});
  }

  /** Cancelling never retries, never refills and never touches the ring. */
  lemma CancelSlotDoes(cfg: Config, env: Env, s: State, i: nat)
    requires Rest(cfg, s) && i < |s.core.pool.table| && s.core.pool.table[i].Busy?
    ensures Cancelled(s, i, CancelSlot(cfg, env, s, i))
  {
    hide Rest, Inv, ReleaseTag, Handling;
    var r := s.core.pool.table[i].req;
    RestSlot(cfg, s, i);
    ReleaseInv(cfg, s, i, r);
    var s1 := s.(core := ReleaseTag(s.core, r));
    HandlingHas(cfg, s1, r);
    SetStatusInv(cfg, s1, r, SC_HOST_ABORTED, true);
    var s2 := s1.(core := SetStatus(s1.core, r, SC_HOST_ABORTED, true));
    HandlingHas(cfg, s2, r);
    assert CancelSlot(cfg, env, s, i) == Complete(cfg, env, s2, r);
    EndCancelled(cfg, env, s2, r);
    hide Complete, SetStatus, CancelSlot, BookCancel;
  }

  /** The transport after a request ended. */
  ghost predicate EndedCore(k: Core, k': Core) {
    && k'.pool == k.pool && k'.sq == k.sq && k'.retryList == k.retryList
    && k'.sqUp == k.sqUp && k'.sqTail == k.sqTail && k'.cqHead == k.cqHead
  }

  lemma EndCancelled(cfg: Config, env: Env, s: State, r: nat)
    requires r in s.core.reqs && s.core.reqs[r].cancelled && s.core.reqs[r].status == SC_HOST_ABORTED
    requires Handling(cfg, s, r)
    ensures EndedCore(s.core, Complete(cfg, env, s, r).core)
    ensures BookCancel(s.book, r, Complete(cfg, env, s, r).book)
  {
    hide BookOk, CoreOk, IdsOk, WireOk, SibsCapped, BookCancel, EndReq, Retry, EndedCore;
    assert ErrorStatus(SC_HOST_ABORTED) == TDERR_NOT_SPECIFIED;
    EndedInError(cfg, env, s, r);
  }

  /** A request that ends in error answers its IOStdReq or latches its context's
      error; nothing is refilled and the ring is not touched. */
  lemma EndedInError(cfg: Config, env: Env, s: State, r: nat)
    requires r in s.core.reqs && r in s.book.parents && ErrorStatus(s.core.reqs[r].status) != 0
    requires Inv(cfg, s, Some(r), None, None, {})
    ensures EndedCore(s.core, EndReq(cfg, env, s, r).core) && BookCancel(s.book, r, EndReq(cfg, env, s, r).book)
  {
    hide Inv, ErrorStatus, BookCancel, EndedCore, EndReq;
    if s.book.parents[r].Single? { EndedSingle(cfg, env, s, r); } else { EndedSibling(cfg, env, s, r); }
  }

  lemma EndedSingle(cfg: Config, env: Env, s: State, r: nat)
    requires r in s.core.reqs && r in s.book.parents && s.book.parents[r].Single?
    requires ErrorStatus(s.core.reqs[r].status) != 0 && Inv(cfg, s, Some(r), None, None, {})
    ensures EndedCore(s.core, EndReq(cfg, env, s, r).core) && BookCancel(s.book, r, EndReq(cfg, env, s, r).book)
  {
    hide BookOk, CoreOk, IdsOk, BookCancel, Retire, EndSingle, ErrorStatus, WireOk, SibsCapped;
    CancelSingle(cfg, s.book, r, s.core.reqs[r].status);
    RetireKeeps(s.core, r);
    hide Inv;
  }

  lemma EndedSibling(cfg: Config, env: Env, s: State, r: nat)
    requires r in s.core.reqs && r in s.book.parents && s.book.parents[r].Sibling?
    requires ErrorStatus(s.core.reqs[r].status) != 0 && Inv(cfg, s, Some(r), None, None, {})
    ensures EndedCore(s.core, EndReq(cfg, env, s, r).core) && BookCancel(s.book, r, EndReq(cfg, env, s, r).book)
  {
    ErrorNonzero(s.core.reqs[r].status);
    hide BookOk, CoreOk, IdsOk, BookCancel, Retire, EndSibling, EndReq, Answer, ErrorStatus, WireOk, SibsCapped;
    var q := s.core.reqs[r];
    var c := s.book.parents[r].ctx;
    CancelSibling(cfg, s, r, q.status, q.userLen);
    EndFrame(cfg, s.book, r, q.status, q.userLen);
    EndedNow(cfg, env, s, r);
    RetireKeeps(s.core, r);
    hide Inv;
    var b := EndSibling(s.book, r, q.status, q.userLen);
    AnswerBook(s.(book := b), State(Retire(s.core, r), b, s.live), c);
  }

  lemma ErrorNonzero(status: nat)
    requires ErrorStatus(status) != 0
    ensures status != 0
  {
  }

  /** With an error latched the last lines of the completion only answer. */
  lemma EndedNow(cfg: Config, env: Env, s: State, r: nat)
    requires Inv(cfg, s, Some(r), None, None, {}) && r in s.core.reqs && r in s.book.parents
             && s.book.parents[r].Sibling?
    requires var c := s.book.parents[r].ctx;
             && c in s.book.ctxs
             && c in EndSibling(s.book, r, s.core.reqs[r].status, s.core.reqs[r].userLen).ctxs
             && EndSibling(s.book, r, s.core.reqs[r].status, s.core.reqs[r].userLen).ctxs[c].firstError != 0
    ensures var b := EndSibling(s.book, r, s.core.reqs[r].status, s.core.reqs[r].userLen);
            EndReq(cfg, env, s, r) == Answer(State(Retire(s.core, r), b, s.live), s.book.parents[r].ctx)
  {
    hide Rest, Inv, BookOk, CoreOk, IdsOk, Retire, EndSibling, EndSingle, Answer;
  }

  lemma AnswerBook(s: State, s1: State, c: nat)
    requires c in s.book.ctxs && s1.book == s.book
    ensures Answer(s1, c).book == Answer(s, c).book && Answer(s1, c).core == s1.core
  {
  }

  lemma RetireKeeps(k: Core, r: nat)
    requires r in k.reqs
    ensures EndedCore(k, Retire(k, r))
  {
  }

  // ---------------------------------------------------------- the whole walk

  /** Every sibling of context `c` is in the table: none parked, none lost. */
  ghost predicate AllInTable(s: State, c: nat)
    requires c in s.book.ctxs
  {
    && s.book.ctxs[c].sibs != {}
    && forall r :: r in s.book.ctxs[c].sibs ==> r in s.book.parents && r !in s.core.retryList
  }

  /** What the walk leaves behind. */
  ghost predicate Flushed(s: State, s': State) {
    && Depth(s'.core) == Depth(s.core)
    && (forall t :: 0 <= t < Depth(s'.core) ==> s'.core.pool.table[t] == Empty)
    && s'.core.sq == s.core.sq && s'.core.retryList == s.core.retryList
    && Shrunk(s.book, s'.book)
    && (forall r :: r in s.book.parents && r !in s.core.retryList && s.book.parents[r].Single? ==>
          FailedIo(s'.book, s.book.parents[r].io))
    && (forall r :: r in s'.book.parents <==> r in s.book.parents && r in s.core.retryList)
    && (forall c :: c in s.book.ctxs && AllInTable(s, c) ==> FailedIo(s'.book, s.book.ctxs[c].io))
  }

  /** With an empty table every live request is parked. */
  lemma EmptyTable(cfg: Config, s: State)
    requires Rest(cfg, s) && EmptyUpto(s.core, Depth(s.core))
    ensures Flushed(s, s)
  {
    hide BookOk, IdsOk;
    Homeless(s.core);
    hide Rest, Inv;
  }

  ghost predicate EmptyUpto(k: Core, i: nat) {
    forall t :: 0 <= t < i && t < |k.pool.table| ==> k.pool.table[t] == Empty
  }

  lemma Homeless(k: Core)
    requires CoreOk(k, None, {}) && EmptyUpto(k, Depth(k))
    ensures forall r :: r in k.reqs ==> r in k.retryList
    ensures forall r :: r in k.retryList ==> r in k.reqs
  {
  }

  lemma FlushedStep(s: State, i: nat, s1: State, s2: State)
    requires Cancelled(s, i, s1) && Flushed(s1, s2) && s.core.pool.table[i].req !in s.core.retryList
    ensures Flushed(s, s2)
  {
    var r := s.core.pool.table[i].req;
    ShrunkTrans(s.book, s1.book, s2.book);
    forall c | c in s.book.ctxs && AllInTable(s, c) ensures FailedIo(s2.book, s.book.ctxs[c].io) {
      assert CtxAfter(s.book, r, c, s1.book);
      if s.book.ctxs[c].sibs != {r} {
        var x :| x in s.book.ctxs[c].sibs && x != r;
        assert x in s1.book.ctxs[c].sibs;
        assert AllInTable(s1, c);
      }
    }
    forall x | x in s.book.parents && x !in s.core.retryList && s.book.parents[x].Single?
      ensures FailedIo(s2.book, s.book.parents[x].io)
    {
      if x != r { assert x in s1.book.parents && s1.book.parents[x] == s.book.parents[x]; }
    }
  }

  lemma {:induction false} FlushFromDoes(cfg: Config, env: Env, s: State, i: nat)
    requires Rest(cfg, s)
    requires EmptyUpto(s.core, i)
    ensures Flushed(s, FlushFrom(cfg, env, s, i))
    decreases |s.core.pool.table| - i
  {
    hide Rest, Flushed, CancelSlot;
    if i >= |s.core.pool.table| {
      EmptyTable(cfg, s);
    } else if s.core.pool.table[i].Empty? {
      FlushFromDoes(cfg, env, s, i + 1);
    } else {
      var s1 := CancelSlot(cfg, env, s, i);
      CancelSlotDoes(cfg, env, s, i);
      BusyPlaced(cfg, s, i);
      FlushFromDoes(cfg, env, s1, i + 1);
      hide Cancelled;
      FlushedStep(s, i, s1, FlushFrom(cfg, env, s1, i + 1));
    }
  }

  lemma BusyPlaced(cfg: Config, s: State, i: nat)
    requires Rest(cfg, s) && i < |s.core.pool.table| && s.core.pool.table[i].Busy?
    ensures s.core.pool.table[i].req !in s.core.retryList
  {
    hide BookOk, IdsOk;
    SlotOwner(s.core, i);
  }

  lemma AllFree(p: Pool)
    requires Valid(p) && forall t :: 0 <= t < |p.table| ==> p.table[t] == Empty
    ensures |p.free| == |p.table| && p.count == 0
  {
    CountIsBusy(p);
    assert BusyTags(p) == {};
  }

  /** A reply the walk adds is the only one its IOStdReq ever gets. */
  lemma AnsweredOnce(cfg: Config, s: State, io: nat)
    requires Rest(cfg, s)
    ensures multiset(s.book.replyLog)[io] == if io in s.book.replies then 1 else 0
    ensures forall c :: c in s.book.ctxs ==> s.book.ctxs[c].io !in s.book.replies
    ensures forall r :: r in s.book.parents && s.book.parents[r].Single? ==> s.book.parents[r].io !in s.book.replies
  {
    assert OwnersOk(s.book, None);
    hide Rest, Inv, BookOk, CoreOk, OwnerMatches;
  }

  /** Flushing from any reachable state: an empty table and a full free stack, no
      SQE written, parked requests untouched, and every context whose siblings
      were all in the table, like every single-shot request in it, answered
      exactly once, with an error, by the flush. */
  lemma FlushEmpties(cfg: Config, env: Env, s: State)
    requires Rest(cfg, s)
    ensures var s' := FlushFrom(cfg, env, s, 0);
            && (forall t :: 0 <= t < Depth(s'.core) ==> s'.core.pool.table[t] == Empty)
            && |s'.core.pool.free| == Depth(s'.core) == Depth(s.core) && s'.core.pool.count == 0
            && s'.core.sq == s.core.sq && s'.core.retryList == s.core.retryList
            && (forall r :: r in s'.book.parents <==> r in s.book.parents && r in s.core.retryList)
            && (forall r :: r in s.book.parents && r !in s.core.retryList && s.book.parents[r].Single? ==>
                  FailsOnce(s.book, s'.book, s.book.parents[r].io))
            && (forall c :: c in s.book.ctxs && AllInTable(s, c) ==>
                  FailsOnce(s.book, s'.book, s.book.ctxs[c].io))
  {
    var s' := FlushFrom(cfg, env, s, 0);
    FlushFromDoes(cfg, env, s, 0);
    assert Valid(s'.core.pool);
    hide Rest, FlushFrom, AllInTable, FailedIo, FailsOnce;
    AllFree(s'.core.pool);
    hide Valid;
    FailsBoth(cfg, s, s');
  }

  lemma FailsBoth(cfg: Config, s: State, s': State)
    requires Rest(cfg, s) && Rest(cfg, s')
    ensures forall r :: r in s.book.parents && s.book.parents[r].Single? && FailedIo(s'.book, s.book.parents[r].io)
              ==> FailsOnce(s.book, s'.book, s.book.parents[r].io)
    ensures forall c :: c in s.book.ctxs && FailedIo(s'.book, s.book.ctxs[c].io)
              ==> FailsOnce(s.book, s'.book, s.book.ctxs[c].io)
  {
    hide Rest;
    forall io: nat ensures multiset(s.book.replyLog)[io] == (if io in s.book.replies then 1 else 0)
                      && multiset(s'.book.replyLog)[io] == (if io in s'.book.replies then 1 else 0)
    {
      AnsweredOnce(cfg, s, io);
      AnsweredOnce(cfg, s', io);
    }
    AnsweredOnce(cfg, s, 0);
  }

  /** `io` had no reply in `b` and has exactly one, an error, in `b'`. */
  ghost predicate FailsOnce(b: Book, b': Book, io: nat) {
    multiset(b.replyLog)[io] == 0 && multiset(b'.replyLog)[io] == 1 && FailedIo(b', io)
  }

  // -------------------------------------------------------------- task exit

  /** Every context on the parked list of `b` is answered with IOERR_ABORTED in
      `b'`; other contexts, requests and earlier replies are untouched. */
  ghost predicate ParkedAnswered(b: Book, b': Book) {
    && b'.parents == b.parents && b'.lost == b.lost && b'.done == b.done
    && (forall c :: c in b.stalled ==> c in b.ctxs && AbortedIo(b', b.ctxs[c].io))
    && (forall io :: io in b.replies ==> io in b'.replies && b'.replies[io] == b.replies[io])
    && (forall io :: io in b'.replies && io !in b.replies ==> AbortedIo(b', io))
    && (forall c :: c in b'.ctxs <==> c in b.ctxs && c !in b.stalled)
    && (forall c :: c in b'.ctxs ==> b'.ctxs[c] == b.ctxs[c])
  }

  ghost predicate AbortedIo(b: Book, io: nat) {
    io in b.replies && b.replies[io].Outcome? && b.replies[io].err == IOERR_ABORTED && b.replies[io].actual == 0
  }

  /** The first of them. */
  ghost predicate FirstAnswered(b: Book, b': Book)
    requires b.stalled != []
  {
    var c := b.stalled[0];
    && c in b.ctxs && AbortedIo(b', b.ctxs[c].io)
    && b'.parents == b.parents && b'.lost == b.lost && b'.done == b.done
    && b'.stalled == b.stalled[1..] && b'.ctxs == b.ctxs - {c}
    && (forall io :: io in b.replies ==> io in b'.replies && b'.replies[io] == b.replies[io])
    && (forall io :: io in b'.replies && io !in b.replies ==> AbortedIo(b', io))
  }

  lemma AbortedFirst(b: Book)
    requires b.stalled != [] && b.stalled[0] in b.ctxs && OwnersOk(b, None)
    ensures FirstAnswered(b, Aborted(b))
  {
    var c := b.stalled[0];
    CtxUnreplied(b, c);
    hide OwnersOk;
    var b1 := Latch(Unstall(b), c, IOERR_ABORTED);
    assert b1.ctxs - {c} == b.ctxs - {c};
  }

  lemma AnsweredStep(b: Book, b1: Book, b2: Book)
    requires b.stalled != [] && NoDup(b.stalled) && FirstAnswered(b, b1) && ParkedAnswered(b1, b2)
    ensures ParkedAnswered(b, b2)
  {
    var c := b.stalled[0];
    assert b.stalled == [c] + b.stalled[1..];
    forall d | d in b.stalled ensures d in b.ctxs && AbortedIo(b2, b.ctxs[d].io) {
      if d != c { assert d in b1.stalled && d in b1.ctxs && b1.ctxs[d] == b.ctxs[d]; }
    }
  }

  /** Task exit leaves the transport alone and answers every parked context. */
  lemma {:induction false} AbortStalledAnswers(cfg: Config, s: State)
    requires Rest(cfg, s)
    ensures var s' := AbortStalled(cfg, s);
            s'.core == s.core && s'.live == s.live && s'.book.stalled == [] && ParkedAnswered(s.book, s'.book)
    decreases |s.book.stalled|
  {
    StalledListed(cfg, s);
    hide Rest, ParkedAnswered, Aborted, OwnersOk, NoDup;
    if s.book.stalled == [] {
      NoneParked(s.book);
    } else {
      UnstallInv(cfg, s);
      AbortInv(cfg, s);
      AbortedFirst(s.book);
      var s1 := s.(book := Aborted(s.book));
      AbortStalledAnswers(cfg, s1);
      hide FirstAnswered;
      AnsweredStep(s.book, s1.book, AbortStalled(cfg, s1).book);
    }
  }

  lemma NoneParked(b: Book)
    requires b.stalled == []
    ensures ParkedAnswered(b, b)
  {
  }

  lemma StalledListed(cfg: Config, s: State)
    requires Rest(cfg, s)
    ensures OwnersOk(s.book, None) && NoDup(s.book.stalled)
  {
  }
}
