/** Shutdown.  nvme_ctrl_shutdown cancels what is in the table, the unit task's
    exit answers what is held back or parked on ctx_stalled, and nobody looks at
    the retry list.  Here is exactly which IOStdReqs are left without an answer. */
module IoStop {
  import opened Tags
  import opened Chunk
  import opened IoCore
  import opened IoBook
  import opened IoPath
  import opened IoFlush

  /** Request `r`, live or lost, works for IOStdReq `io`: as its single-shot
      request, or as a sibling of the context that holds it. */
  ghost predicate Serves(b: Book, r: nat, io: nat) {
    (r in b.parents && WorksFor(b, b.parents[r], io)) || (r in b.lost && WorksFor(b, b.lost[r], io))
  }

  ghost predicate WorksFor(b: Book, p: Parent, io: nat) {
    match p
    case Single(x, _, _) => x == io
    case Sibling(c) => c in b.ctxs && b.ctxs[c].io == io
  }

  /** With no context parked, an IOStdReq waits exactly when some request works
      for it. */
  lemma WaitsServed(cfg: Config, s: State, io: nat)
    requires Rest(cfg, s) && s.book.stalled == [] && io < s.book.nextIo
    ensures io !in s.book.replies <==> exists r :: Serves(s.book, r, io)
  {
    hide CoreOk, RepliesOk, IdsOk, WireOk, SibsCapped;
    WaitsServedBook(cfg.limits, s.book, io);
  }

  lemma WaitsServedBook(l: Limits, b: Book, io: nat)
    requires CtxsOk(l, b, None) && OwnersOk(b, None) && b.stalled == [] && io < b.nextIo
    ensures io !in b.replies <==> exists r :: Serves(b, r, io)
  {
    if io !in b.replies {
      assert OwnerMatches(b, io, None);
      match b.owner[io]
      case ByReq(r) => assert Serves(b, r, io);
      case Lost(r) => assert Serves(b, r, io);
      case ByCtx(c) =>
        var r := SomeSibling(l, b, c);
        assert Serves(b, r, io);
    }
  }

  lemma SomeSibling(l: Limits, b: Book, c: nat) returns (r: nat)
    requires CtxsOk(l, b, None) && b.stalled == [] && c in b.ctxs
    ensures (r in b.parents && b.parents[r] == Sibling(c)) || (r in b.lost && b.lost[r] == Sibling(c))
  {
    assert CtxOk(l, b, c, None);
    assert b.ctxs[c].sibs != {};
    r :| r in b.ctxs[c].sibs;
  }

  /** The same requests work for the same IOStdReqs, as far as they live on. */
  lemma ServesStays(l: Limits, b: Book, b': Book, r: nat, io: nat)
    requires LinksOk(l, b') && b'.lost == b.lost && b.parents.Keys !! b.lost.Keys
    requires forall x :: x in b'.parents ==> x in b.parents && b'.parents[x] == b.parents[x]
    requires forall c :: c in b'.ctxs ==> c in b.ctxs && b'.ctxs[c].io == b.ctxs[c].io
    ensures Serves(b', r, io) <==> (r in b'.parents || r in b.lost) && Serves(b, r, io)
  {
    if r in b'.parents && b'.parents[r].Sibling? { assert b'.parents[r].ctx in b'.ctxs; }
    if r in b'.lost && b'.lost[r].Sibling? { assert b'.lost[r].ctx in b'.ctxs; }
  }

  lemma RestLinks(cfg: Config, s: State)
    requires Rest(cfg, s)
    ensures LinksOk(cfg.limits, s.book) && s.book.parents.Keys !! s.book.lost.Keys
    ensures s.book.parents.Keys == s.core.reqs.Keys
    ensures forall r :: r in s.core.retryList ==> r in s.core.reqs
  {
    assert Placed(s.core, None);
    hide OwnersOk, RepliesOk, IdsOk, WireOk, SibsCapped, Valid, SqOk, MemOk;
  }

  /** Task exit from any state: left unanswered is exactly what some request,
      in the table, on the retry list or lost, still works for. */
  lemma StopLeaves(cfg: Config, s: State, io: nat)
    requires Rest(cfg, s) && io < s.book.nextIo
    ensures io !in AbortStalled(cfg, s).book.replies <==> exists r :: Serves(s.book, r, io)
  {
    var s' := AbortStalled(cfg, s);
    AbortStalledAnswers(cfg, s);
    RestLinks(cfg, s);
    RestLinks(cfg, s');
    hide Rest, LinksOk, Serves, AbortStalled;
    WaitsServed(cfg, s', io);
    forall r ensures Serves(s'.book, r, io) <==> Serves(s.book, r, io) {
      ServesStays(cfg.limits, s.book, s'.book, r, io);
      if Serves(s.book, r, io) { ServesPresent(s.book, r, io); }
    }
  }

  /** All of that at once. */
  ghost predicate LeftWaiting(b: Book, b': Book) {
    && b'.nextIo == b.nextIo
    && forall io: nat :: io < b'.nextIo ==> (io !in b'.replies <==> exists r :: Serves(b, r, io))
  }

  lemma StopLeavesAll(cfg: Config, s: State)
    requires Rest(cfg, s)
    ensures LeftWaiting(s.book, AbortStalled(cfg, s).book)
  {
    hide Rest, Serves, AbortStalled;
    forall io: nat | io < s.book.nextIo
      ensures io !in AbortStalled(cfg, s).book.replies <==> exists r :: Serves(s.book, r, io)
    {
      StopLeaves(cfg, s, io);
    }
  }

  lemma ServesPresent(b: Book, r: nat, io: nat)
    requires Serves(b, r, io)
    ensures r in b.parents || r in b.lost
  {
  }

  /** The whole shutdown, flush and task exit, from any state: an accepted
      IOStdReq is left unanswered exactly when a request parked for its retry
      delay, or lost before, works for it.  All others are answered, each once,
      and those the shutdown answers get an error. */
  lemma ShutdownLeaves(cfg: Config, env: Env, s: State, io: nat)
    requires Rest(cfg, s) && io < s.book.nextIo
    ensures var b := AbortStalled(cfg, FlushFrom(cfg, env, s, 0)).book;
            && (io !in b.replies <==>
                  exists r :: (r in s.core.retryList || r in s.book.lost) && Serves(s.book, r, io))
            && multiset(b.replyLog)[io] == (if io in b.replies then 1 else 0)
            && (io in b.replies && io !in s.book.replies ==> FailedIo(b, io))
  {
    var s1 := FlushFrom(cfg, env, s, 0);
    FlushFromDoes(cfg, env, s, 0);
    hide Rest, FlushFrom, AbortStalled, FailedIo, Serves;
    FlushedFrame(s, s1);
    hide Flushed;
    StopLeaves(cfg, s1, io);
    FlushServes(cfg, s, s1, io);
    StopFails(cfg, s1, io);
    AnsweredOnce(cfg, AbortStalled(cfg, s1), io);
    NewFails(s.book, s1.book, AbortStalled(cfg, s1).book, io);
  }

  lemma NewFails(b: Book, b1: Book, b2: Book, io: nat)
    requires Shrunk(b, b1) && (io in b1.replies ==> io in b2.replies && b2.replies[io] == b1.replies[io])
    requires io in b2.replies && io !in b1.replies ==> AbortedIo(b2, io)
    ensures io in b2.replies && io !in b.replies ==> FailedIo(b2, io)
  {
  }

  lemma FlushedFrame(s: State, s1: State)
    requires Flushed(s, s1)
    ensures Shrunk(s.book, s1.book)
    ensures forall r :: r in s1.book.parents <==> r in s.book.parents && r in s.core.retryList
  {
  }

  /** Who works for `io` after the flush. */
  lemma FlushServes(cfg: Config, s: State, s1: State, io: nat)
    requires Rest(cfg, s) && Rest(cfg, s1) && Shrunk(s.book, s1.book)
    requires forall r :: r in s1.book.parents <==> r in s.book.parents && r in s.core.retryList
    ensures (exists r :: Serves(s1.book, r, io)) <==>
              exists r :: (r in s.core.retryList || r in s.book.lost) && Serves(s.book, r, io)
  {
    RestLinks(cfg, s);
    RestLinks(cfg, s1);
    hide Rest, LinksOk, Serves;
    forall r ensures Serves(s1.book, r, io) <==> (r in s.core.retryList || r in s.book.lost) && Serves(s.book, r, io) {
      ServesStays(cfg.limits, s.book, s1.book, r, io);
    }
  }

  /** What the task exit answers, it answers with IOERR_ABORTED. */
  lemma StopFails(cfg: Config, s: State, io: nat)
    requires Rest(cfg, s)
    ensures var b := AbortStalled(cfg, s).book;
            && (io in s.book.replies ==> io in b.replies && b.replies[io] == s.book.replies[io])
            && (io in b.replies && io !in s.book.replies ==> AbortedIo(b, io))
  {
    AbortStalledAnswers(cfg, s);
    hide AbortStalled, AbortedIo;
  }
}
