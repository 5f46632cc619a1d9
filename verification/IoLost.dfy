/** Lost requests.  "Every accepted IOStdReq is answered" is false of the driver.
    One way it fails: a resubmission the ring refuses destroys its request, and
    nobody is told.  Here is when exactly that happens, and that it is for good.
    The other way, a request still on the retry list at shutdown, is in IoStop. */
module IoLost {
  import opened Base
  import opened Tags
  import opened Chunk
  import opened IoCore
  import opened IoBook
  import opened IoPath
  import opened IoFlush
  import opened IoRetry

  // ------------------------------------------------------- one resubmission

  /** What decides over a resubmission: tags free, and whether the ring has room. */
  datatype Room = Room(free: nat, up: bool, tail: nat, head: nat, depth: nat)

  function RoomOf(k: Core): Room { Room(|k.pool.free|, k.sqUp, k.sqTail, k.cqHead, Depth(k)) }

  predicate Full(m: Room) { m.depth == 0 || !m.up || (m.tail + 1) % m.depth == m.head }

  /** The room one accepted command leaves. */
  function Taken(m: Room): Room
    requires m.free > 0 && m.depth > 0
  {
    m.(free := m.free - 1, tail := (m.tail + 1) % m.depth)
  }

  /** A resubmission with a tag to be had but no room in the ring is lost; without
      a tag it ends in error; otherwise it is in the ring.  Room changes only in
      the last case. */
  ghost predicate ResubmitFate(s: State, r: nat, s': State) {
    && r in s.book.parents
    && var m := RoomOf(s.core);
    && (m.free > 0 && Full(m) ==> s'.book == Lose(s.book, r))
    && (m.free == 0 || !Full(m) ==> s'.book.lost == s.book.lost)
    && RoomOf(s'.core) == if m.free > 0 && !Full(m) then Taken(m) else m
  }

  lemma RefusesIsFull(k: Core)
    ensures RingRefuses(k) <==> Full(RoomOf(k))
  {
  }

  lemma FreeCount(k: Core, hand: Option<nat>)
    requires CoreOk(k, hand, {})
    ensures |k.pool.free| == Depth(k) - k.pool.count && Depth(k) > 0
  {
  }

  lemma RelaunchRoom(k: Core, r: nat, k': Core, err: int)
    requires CoreOk(k, Some(r), {}) && Relaunched(k, r, k', err) && |k.pool.free| > 0
    ensures RoomOf(k') == if Full(RoomOf(k)) then RoomOf(k) else Taken(RoomOf(k))
  {
    hide CoreOk;
    FreeCount(k, Some(r));
    FreeCount(k', None);
  }

  lemma {:induction false} ResubmitExact(cfg: Config, env: Env, s: State, r: nat)
    requires r in s.core.reqs && Writes(s.core.sq, r) <= s.core.reqs[r].retries && Handling(cfg, s, r)
    ensures ResubmitFate(s, r, Resubmit(cfg, env, s, r))
    decreases 5 - s.core.reqs[r].retries
  {
    HandlingCore(cfg, s, r);
    HandlingHas(cfg, s, r);
    hide Handling, Rest, Inv, CoreOk, Settled, Nudged, EndReq, BookOk;
    if |s.core.pool.free| == 0 {
      SetStatusInv(cfg, s, r, SC_HOST_PATH_ERROR, false);
      var s1 := s.(core := SetStatus(s.core, r, SC_HOST_PATH_ERROR, false));
      assert Resubmit(cfg, env, s, r) == Complete(cfg, env, s1, r);
      hide Resubmit;
      TaglessExact(cfg, env, s1, r);
    } else {
      var (core, err) := Relaunch(s.core, r);
      assert Resubmit(cfg, env, s, r) == State(core, if err == ASYNC then s.book else Lose(s.book, r), s.live);
      hide Resubmit, Relaunch, Lose;
      RelaunchRoom(s.core, r, core, err);
      RefusesIsFull(s.core);
      hide Full;
    }
  }

  /** A request no tag is free for loses nothing and takes no room: its retries
      run out at once, and it ends in error. */
  lemma {:induction false} TaglessExact(cfg: Config, env: Env, s: State, r: nat)
    requires r in s.core.reqs && s.core.reqs[r].status == SC_HOST_PATH_ERROR && |s.core.pool.free| == 0
    requires Handling(cfg, s, r)
    ensures Complete(cfg, env, s, r).book.lost == s.book.lost
    ensures RoomOf(Complete(cfg, env, s, r).core) == RoomOf(s.core)
    decreases 5 - s.core.reqs[r].retries, 1
  {
    hide Inv, Rest, Settled, EndReq, Retry;
    assert Crd(SC_HOST_PATH_ERROR) == 0;
    if RetryWorthy(s.core.reqs[r]) {
      HandlingHas(cfg, s, r);
      BumpInv(cfg, s, r);
      hide Handling, Crd, Nudged, Resubmit, CfgOk;
      RetryNow(cfg, env, s, r);
      ResubmitExact(cfg, env, s.(core := Bump(s.core, r)), r);
    } else {
      assert Inv(cfg, s, Some(r), None, None, {}) && r in s.book.parents;
      assert ErrorStatus(SC_HOST_PATH_ERROR) == TDERR_NOT_SPECIFIED;
      hide Handling, ErrorStatus, BookCancel;
      EndedInError(cfg, env, s, r);
    }
  }

  // ----------------------------------------------------- which step loses whom

  /** The request of a matched completion, in hand with its new status. */
  ghost predicate Hit(cfg: Config, s: State, r: nat, status: nat, s2: State) {
    && r in s.core.reqs && r in s2.core.reqs && Handling(cfg, s2, r) && s2.book == s.book && r !in s.book.lost
    && s2.core.reqs[r] == s.core.reqs[r].(status := status) && s2.core.retryList == s.core.retryList
    && |s2.core.pool.free| > 0 && (RingRefuses(s2.core) <==> RingRefuses(s.core))
  }

  lemma OnCqeHits(cfg: Config, env: Env, s: State, raw: Cid, status: nat, r: nat) returns (s2: State)
    requires Lookup(s.core.pool, raw) == Some(r) && Rest(cfg, s)
    ensures Hit(cfg, s, r, status, s2) && OnCqe(cfg, env, s, raw, status) == Complete(cfg, env, s2, r)
  {
    LookupSlot(s.core.pool, raw);
    hide Inv, Handling, ReleaseTag, Rest, Settled, Complete;
    RestSlot(cfg, s, raw.tag);
    ReleaseInv(cfg, s, raw.tag, r);
    var s1 := s.(core := ReleaseTag(s.core, r));
    ReleasedRoom(cfg, s, raw.tag, r, s1);
    SetStatusInv(cfg, s1, r, status, false);
    s2 := s1.(core := SetStatus(s1.core, r, status, false));
    HandlingHas(cfg, s2, r);
  }

  /** A completion loses its request exactly when it is to be retried at once and
      the ring is full: the tag it gave back is free, but no slot is. */
  lemma OnCqeLoses(cfg: Config, env: Env, s: State, raw: Cid, status: nat, x: nat)
    requires Rest(cfg, s)
    ensures Lookup(s.core.pool, raw) == Some(x) ==> x in s.core.reqs
    ensures x in OnCqe(cfg, env, s, raw, status).book.lost && x !in s.book.lost <==>
              && Lookup(s.core.pool, raw) == Some(x)
              && RetryWorthy(s.core.reqs[x].(status := status))
              && Crd(status) == 0
              && RingRefuses(s.core)
    ensures x in OnCqe(cfg, env, s, raw, status).book.lost && x !in s.book.lost ==>
              x in s.book.parents && OnCqe(cfg, env, s, raw, status).book.lost[x] == s.book.parents[x]
  {
    hide Rest, Complete, Handling, RetryWorthy, Crd, RingRefuses;
    match Lookup(s.core.pool, raw) {
      case None =>
      case Some(r) =>
        var s2 := OnCqeHits(cfg, env, s, raw, status, r);
        hide OnCqe, Lookup;
        CompleteLoses(cfg, env, s2, r);
    }
  }

  /** A completion that is retried after a delay parks its request and leaves the
      books alone. */
  lemma OnCqeParks(cfg: Config, env: Env, s: State, raw: Cid, status: nat, r: nat)
    requires Lookup(s.core.pool, raw) == Some(r) && r in s.core.reqs && Crd(status) != 0
    requires RetryWorthy(s.core.reqs[r].(status := status)) && Rest(cfg, s)
    ensures OnCqe(cfg, env, s, raw, status).book == s.book
    ensures OnCqe(cfg, env, s, raw, status).core.retryList == s.core.retryList + [r]
  {
    var s2 := OnCqeHits(cfg, env, s, raw, status, r);
    HandlingHas(cfg, s2, r);
    hide OnCqe, Lookup, Rest, Inv, Settled, Crd, Nudged, CfgOk;
    RetryWorthyLeft(s2.core.reqs[r]);
    ParkLosesNone(cfg, env, s2, r);
    HandlingCfg(cfg, s2, r);
    RetryParks(cfg, env, s2, r);
    assert Complete(cfg, env, s2, r) == Retry(cfg, env, s2, r);
    hide Complete, Handling;
  }

  lemma RetryWorthyLeft(q: Req)
    requires RetryWorthy(q)
    ensures q.retries < MAX_RETRIES
  {
  }

  lemma HandlingCfg(cfg: Config, s: State, r: nat)
    requires Handling(cfg, s, r)
    ensures CfgOk(cfg)
  {
  }

  lemma ReleasedRoom(cfg: Config, s: State, t: nat, r: nat, s1: State)
    requires InHand(cfg, s, t, r, s1)
    ensures |s1.core.pool.free| > 0 && (RingRefuses(s1.core) <==> RingRefuses(s.core))
    ensures r in s1.core.reqs && r !in s1.book.lost && s1.book == s.book
  {
    hide Handling;
    HandlingHas(cfg, s1, r);
    EmptyIsFree(cfg, s1, t, r);
  }

  lemma EmptyIsFree(cfg: Config, s: State, t: nat, r: nat)
    requires t < |s.core.pool.table| && s.core.pool.table[t] == Empty && Handling(cfg, s, r)
    ensures |s.core.pool.free| > 0
  {
    assert Valid(s.core.pool);
    assert t in TagsOf(s.core.pool.free);
  }

  lemma CompleteLoses(cfg: Config, env: Env, s: State, r: nat)
    requires r in s.core.reqs && r !in s.book.lost && |s.core.pool.free| > 0 && Handling(cfg, s, r)
    ensures forall x :: x in Complete(cfg, env, s, r).book.lost && x !in s.book.lost <==>
              x == r && RetryWorthy(s.core.reqs[r]) && Crd(s.core.reqs[r].status) == 0 && RingRefuses(s.core)
    ensures forall x :: x in Complete(cfg, env, s, r).book.lost && x !in s.book.lost ==>
              x in s.book.parents && Complete(cfg, env, s, r).book.lost[x] == s.book.parents[x]
  {
    HandlingHas(cfg, s, r);
    var q := s.core.reqs[r];
    if RetryWorthy(q) {
      RetryWorthyLeft(q);
      hide Handling, RetryWorthy, Inv, Rest, Settled, EndReq, Nudged, CfgOk, Crd, Retry;
      assert Complete(cfg, env, s, r) == Retry(cfg, env, s, r);
      hide Complete;
      RetryLoses(cfg, env, s, r);
    } else {
      assert Inv(cfg, s, Some(r), None, None, {}) && r in s.book.parents;
      hide Handling, RetryWorthy, Inv, Rest, EndReq, Crd, Retry, Settled;
    }
  }

  lemma RetryLoses(cfg: Config, env: Env, s: State, r: nat)
    requires r in s.core.reqs && s.core.reqs[r].retries < MAX_RETRIES && |s.core.pool.free| > 0 && Handling(cfg, s, r)
    requires r in s.book.parents && r !in s.book.lost
    ensures forall x :: x in Retry(cfg, env, s, r).book.lost && x !in s.book.lost <==>
              x == r && Crd(s.core.reqs[r].status) == 0 && RingRefuses(s.core)
    ensures forall x :: x in Retry(cfg, env, s, r).book.lost && x !in s.book.lost ==>
              x in s.book.parents && Retry(cfg, env, s, r).book.lost[x] == s.book.parents[x]
  {
    if Crd(s.core.reqs[r].status) == 0 {
      BumpInv(cfg, s, r);
      var s1 := s.(core := Bump(s.core, r));
      assert RoomOf(s1.core) == RoomOf(s.core);
      RefusesIsFull(s.core);
      hide Handling, Crd, Retry, Resubmit, Nudged, CfgOk, RingRefuses, Full, RoomOf, Bump;
      RetryNow(cfg, env, s, r);
      ResubmitExact(cfg, env, s1, r);
      RoomFree(s.core);
    } else {
      hide Handling, Crd, Retry, RingRefuses;
      ParkLosesNone(cfg, env, s, r);
      hide ParkForDelay;
    }
  }

  lemma RoomFree(k: Core)
    ensures RoomOf(k).free == |k.pool.free|
  {
  }

  lemma ParkLosesNone(cfg: Config, env: Env, s: State, r: nat)
    requires r in s.core.reqs && s.core.reqs[r].retries < MAX_RETRIES && Crd(s.core.reqs[r].status) != 0
    requires Handling(cfg, s, r)
    ensures ParkForDelay(cfg, env, s, r).book == s.book
    ensures Retry(cfg, env, s, r) == ParkForDelay(cfg, env, s, r)
  {
    hide Handling, Inv, Rest, Settled, Nudged, Resubmit;
  }

  /** Whether a watchdog tick loses request `x`: the due requests on the list take
      tags and ring slots in order, and `x` is lost exactly when at its turn a tag
      is left but no slot. */
  predicate Doomed(reqs: map<nat, Req>, m: Room, now: nat, todo: seq<nat>, x: nat)
    decreases |todo|
  {
    if todo == [] then false
    else
      var r := todo[0];
      if r !in reqs || !Due(now, reqs[r].deadline) then Doomed(reqs, m, now, todo[1..], x)
      else if r == x then m.free > 0 && Full(m)
      else if m.free > 0 && !Full(m) then Doomed(reqs, Taken(m), now, todo[1..], x)
      else Doomed(reqs, m, now, todo[1..], x)
  }

  lemma {:induction false} DoomedSame(reqs: map<nat, Req>, reqs': map<nat, Req>, m: Room, now: nat, todo: seq<nat>,
                                      x: nat)
    requires forall y :: y in todo ==> y in reqs && y in reqs' && reqs'[y] == reqs[y]
    ensures Doomed(reqs, m, now, todo, x) == Doomed(reqs', m, now, todo, x)
    decreases |todo|
  {
    if todo != [] {
      assert todo[0] in todo;
      forall y | y in todo[1..] ensures y in todo {}
      hide Due;
      DoomedSame(reqs, reqs', m, now, todo[1..], x);
      if m.free > 0 && !Full(m) { DoomedSame(reqs, reqs', Taken(m), now, todo[1..], x); }
    }
  }

  lemma {:induction false} DoomedListed(reqs: map<nat, Req>, m: Room, now: nat, todo: seq<nat>, x: nat)
    requires Doomed(reqs, m, now, todo, x)
    ensures x in todo
    decreases |todo|
  {
    hide Due;
    if todo[0] != x {
      if todo[0] in reqs && Due(now, reqs[todo[0]].deadline) && m.free > 0 && !Full(m) {
        DoomedListed(reqs, Taken(m), now, todo[1..], x);
      } else {
        DoomedListed(reqs, m, now, todo[1..], x);
      }
    }
  }

  lemma {:induction false} TickLosesFrom(cfg: Config, env: Env, s: State, now: nat, todo: seq<nat>, x: nat)
    requires Rest(cfg, s) && Parked(s, todo)
    ensures x in TickRetries(cfg, env, s, now, todo).book.lost && x !in s.book.lost <==>
              Doomed(s.core.reqs, RoomOf(s.core), now, todo, x)
    decreases |todo|
  {
    hide Rest, Resubmit, Handling, Settled, Due, Parked, Unpark, Full;
    if todo != [] {
      var r := todo[0];
      ParkedReq(cfg, s, todo);
      TodoUnique(s, todo);
      if !Due(now, s.core.reqs[r].deadline) {
        TickLosesFrom(cfg, env, s, now, todo[1..], x);
      } else {
        var s2 := DueTurn(cfg, env, s, now, todo);
        TickLosesFrom(cfg, env, s2, now, todo[1..], x);
        DoomedSame(s.core.reqs, s2.core.reqs, RoomOf(s2.core), now, todo[1..], x);
        LosesStep(cfg, env, s, now, todo, x, s2);
      }
    }
  }

  /** A due request's turn in the walk. */
  lemma DueTurn(cfg: Config, env: Env, s: State, now: nat, todo: seq<nat>) returns (s2: State)
    requires todo != [] && todo[0] in s.core.reqs && Due(now, s.core.reqs[todo[0]].deadline)
    requires Rest(cfg, s) && Parked(s, todo)
    ensures Rest(cfg, s2) && Parked(s2, todo[1..])
    ensures var s1 := s.(core := Unpark(s.core, todo[0]));
            && Handling(cfg, s1, todo[0]) && todo[0] in s1.core.reqs
            && Writes(s1.core.sq, todo[0]) <= s1.core.reqs[todo[0]].retries
            && s2 == Resubmit(cfg, env, s1, todo[0])
    ensures TickRetries(cfg, env, s, now, todo) == TickRetries(cfg, env, s2, now, todo[1..])
    ensures ResubmitFate(s, todo[0], s2) && KeepsLost(s.book, s2.book) && todo[0] !in s.book.lost
    ensures forall y :: y in todo[1..] ==> y in s.core.reqs && y in s2.core.reqs && s2.core.reqs[y] == s.core.reqs[y]
  {
    var r := todo[0];
    hide Rest, Resubmit, Handling, Settled, Due, Parked, Full, KeepsLost, ResubmitFate;
    ParkedReq(cfg, s, todo);
    UnparkInv(cfg, s, r);
    var s1 := s.(core := Unpark(s.core, r));
    s2 := Resubmit(cfg, env, s1, r);
    TodoLeft(cfg, s, todo, s2);
    ResubmitExact(cfg, env, s1, r);
    FateUnparked(s, r, s2);
    OthersSpared(cfg, s, todo, s2);
  }

  lemma FateUnparked(s: State, r: nat, s2: State)
    requires ResubmitFate(s.(core := Unpark(s.core, r)), r, s2)
    ensures ResubmitFate(s, r, s2)
  {
    hide Full;
  }

  lemma OthersSpared(cfg: Config, s: State, todo: seq<nat>, s2: State)
    requires todo != [] && Rest(cfg, s) && Parked(s, todo)
    requires Settled(cfg, s.(core := Unpark(s.core, todo[0])), todo[0], s2)
    ensures forall y :: y in todo[1..] ==> y in s.core.reqs && y in s2.core.reqs && s2.core.reqs[y] == s.core.reqs[y]
  {
    hide Rest;
    TodoUnique(s, todo);
    forall y | y in todo[1..] ensures y in s.core.reqs {
      assert y in todo;
      ListedLive(cfg, s, y);
    }
  }

  lemma LosesStep(cfg: Config, env: Env, s: State, now: nat, todo: seq<nat>, x: nat, s2: State)
    requires todo != [] && todo[0] in s.core.reqs && Due(now, s.core.reqs[todo[0]].deadline)
    requires ResubmitFate(s, todo[0], s2) && KeepsLost(s.book, s2.book) && todo[0] !in s.book.lost
             && todo[0] !in todo[1..]
    requires Rest(cfg, s2) && Parked(s2, todo[1..])
    requires x in TickRetries(cfg, env, s2, now, todo[1..]).book.lost && x !in s2.book.lost <==>
               Doomed(s.core.reqs, RoomOf(s2.core), now, todo[1..], x)
    ensures x in TickRetries(cfg, env, s2, now, todo[1..]).book.lost && x !in s.book.lost <==>
              Doomed(s.core.reqs, RoomOf(s.core), now, todo, x)
  {
    hide Rest, Due, Full, Parked;
    if Doomed(s.core.reqs, RoomOf(s2.core), now, todo[1..], x) {
      DoomedListed(s.core.reqs, RoomOf(s2.core), now, todo[1..], x);
    }
    assert KeepsLost(s2.book, TickRetries(cfg, env, s2, now, todo[1..]).book);
    hide TickRetries;
  }

  /** A watchdog tick loses exactly the doomed requests of its retry list. */
  lemma TickLoses(cfg: Config, env: Env, s: State, now: nat, x: nat)
    requires Rest(cfg, s)
    ensures x in Tick(cfg, env, s, now).book.lost && x !in s.book.lost <==>
              Doomed(s.core.reqs, RoomOf(s.core), now, s.core.retryList, x)
  {
    RetryNoDup(cfg, s);
    hide Rest, Parked, TickRetries, Doomed;
    TickLosesFrom(cfg, env, s, now, s.core.retryList, x);
  }

  // -------------------------------------------------------------- for good

  /** What a lost request leaves behind: an IOStdReq without a reply, or a context
      that counts it forever and so never answers. */
  ghost predicate Stranded(b: Book, r: nat) {
    && r in b.lost
    && match b.lost[r]
       case Single(io, _, _) => multiset(b.replyLog)[io] == 0 && io !in b.replies
       case Sibling(c) => c in b.ctxs && b.ctxs[c].inflight > 0 && multiset(b.replyLog)[b.ctxs[c].io] == 0
  }

  lemma LostStrands(cfg: Config, s: State, r: nat)
    requires r in s.book.lost && Rest(cfg, s)
    ensures Stranded(s.book, r)
  {
    hide CoreOk, WireOk, SibsCapped;
    StrandedBook(cfg.limits, s.book, r);
  }

  lemma StrandedBook(l: Limits, b: Book, r: nat)
    requires r in b.lost && BookOk(l, b, None, None)
    ensures Stranded(b, r)
  {
    if b.lost[r].Sibling? {
      var c := b.lost[r].ctx;
      assert CtxOk(l, b, c, None) && r in b.ctxs[c].sibs;
      assert b.ctxs[c].io in b.owner;
    }
  }

  /** Whatever happens later, nobody answers for a lost request. */
  lemma LostForGood(cfg: Config, env: Env, s: State, es: seq<Event>, r: nat)
    requires r in s.book.lost && EventsOk(cfg, es) && Rest(cfg, s)
    ensures var b := IoPath.Run(cfg, env, s, es).book;
            r in b.lost && b.lost[r] == s.book.lost[r] && Stranded(b, r)
  {
    hide Rest, EventsOk;
    LostStrands(cfg, IoPath.Run(cfg, env, s, es), r);
  }
}
