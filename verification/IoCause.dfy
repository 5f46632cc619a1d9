/** Whose status a completed request carries, and where the first error of a
    chunked transfer comes from. */
module IoCause {
  import opened Base
  import opened Tags
  import opened IoCore
  import opened IoBook
  import opened IoPath
  import opened IoFlush
  import opened IoLost
  import opened IoTheorems
  import opened IoKeep
  import opened IoSend
  import opened IoDone

  // ------------------------------------------------------------ one re-pump

  /** A re-pump runs the pump for the first parked context, up to `tried`, and the
      context answers if it has nothing left to wait for. */
  ghost predicate Repumped(cfg: Config, env: Env, s: State, s': State, s2: State, tried: Option<Core>) {
    && s.book.stalled != []
    && var c := s.book.stalled[0];
    && c in s.book.ctxs && c in s2.book.ctxs && s'.core == s2.core
    && PumpEnd(cfg, env, s2, c, tried) && Concluded(s2.book, c, s'.book)
    && s2.book.done == s.book.done && s2.book.replies == s.book.replies && s2.book.lost == s.book.lost
    && s2.book.ctxs[c].io == s.book.ctxs[c].io && s2.book.ctxs[c].job == s.book.ctxs[c].job
    && s.book.ctxs[c].tiles <= s2.book.ctxs[c].tiles
    && forall d :: d in s.book.ctxs && d != c ==> d in s2.book.ctxs && s2.book.ctxs[d] == s.book.ctxs[d]
  }

  lemma UnstalledOthers(b: Book, b2: Book)
    requires b.stalled != [] && b.stalled[0] in b.ctxs && OthersSame(Unstall(b), b.stalled[0], b2)
    ensures b2.done == b.done && b2.replies == b.replies && b2.lost == b.lost
    ensures var c := b.stalled[0];
            && c in b2.ctxs && b.ctxs[c].tiles <= b2.ctxs[c].tiles
            && b2.ctxs[c].io == b.ctxs[c].io && b2.ctxs[c].job == b.ctxs[c].job
    ensures forall d :: d in b.ctxs && d != b.stalled[0] ==> d in b2.ctxs && b2.ctxs[d] == b.ctxs[d]
  {
  }

  lemma RepumpedIs(cfg: Config, env: Env, s: State, s': State, s2: State, tried: Option<Core>, c: nat)
    requires s.book.stalled != [] && c == s.book.stalled[0] && c in s.book.ctxs && c in s2.book.ctxs
    requires OthersSame(Unstall(s.book), c, s2.book)
    requires s'.core == s2.core && Concluded(s2.book, c, s'.book) && PumpEnd(cfg, env, s2, c, tried)
    ensures Repumped(cfg, env, s, s', s2, tried)
  {
    UnstalledOthers(s.book, s2.book);
    hide PumpEnd, Concluded, OthersSame;
  }

  lemma RepumpExact(cfg: Config, env: Env, s: State) returns (s2: State, tried: Option<Core>)
    requires Rest(cfg, s) && s.book.stalled != []
    ensures Repumped(cfg, env, s, Repump(cfg, env, s), s2, tried)
  {
    hide *;
    RepumpGoes(cfg, env, s);
    var c := s.book.stalled[0];
    var s1 := s.(book := Unstall(s.book));
    s2 := Pump(cfg, env, s1, c).0;
    var rc := Pump(cfg, env, s1, c).1;
    PumpedPaused(cfg, s1, c, s2, rc);
    PausedUnreplied(cfg, s1, c, s2);
    PumpLocal(cfg, env, s1, c);
    tried := PumpExact(cfg, env, s1, c);
    AnswerConcludes(s2, c);
    RepumpedIs(cfg, env, s, Answer(s2, c), s2, tried, c);
  }

  // ----------------------------------------------- whose status, step by step

  /** The requests that completed by `s'`: those before, and by an event what the
      event says. */
  ghost predicate StatusStep(s: State, e: Event, s': State) {
    match e
    case Cqe(raw, status) =>
      (match Lookup(s.core.pool, raw)
       case None => s'.book.done == s.book.done
       case Some(r) =>
         && r in s.core.reqs && r !in s.book.done
         && s'.book.done == if Final(s.core.reqs[r], status) then s.book.done[r := status] else s.book.done)
    case Watchdog(now) =>
      OnlyThese(s.book, TickEnded(s.core.reqs, RoomOf(s.core), now, s.core.retryList), 0x370, s'.book)
    case FlushQueue => OnlyThese(s.book, InSlots(s.core, 0), 0x371, s'.book)
    case _ => s'.book.done == s.book.done
  }

  ghost predicate OnlyThese(b: Book, ended: set<nat>, code: nat, b': Book) {
    && (forall x :: x in b'.done <==> x in b.done || x in ended)
    && (forall x :: x in b.done ==> x in b'.done && b'.done[x] == b.done[x])
    && (forall x :: x in ended ==> x in b'.done && b'.done[x] == code)
  }

  lemma EndsOnly(b: Book, ended: set<nat>, code: nat, b': Book)
    requires EndsAll(b, ended, code, b')
    ensures OnlyThese(b, ended, code, b')
  {
    hide CtxAfterEnds, AnsweredWith;
  }

  lemma CqeStatus(cfg: Config, env: Env, s: State, raw: Cid, status: nat)
    requires Rest(cfg, s)
    ensures StatusStep(s, Cqe(raw, status), OnCqe(cfg, env, s, raw, status))
  {
    match Lookup(s.core.pool, raw) {
      case None => hide Rest;
      case Some(r) =>
        hide Rest, OnCqe, Final, Lookup, DelayIndex, RingFull, SingleEnded, SiblingEnded;
        CqeEnds(cfg, env, s, raw, status, r);
        CqeRetries(cfg, env, s, raw, status, r);
        LiveNotDone(cfg, s, r);
    }
  }

  lemma StepStatus(cfg: Config, env: Env, s: State, e: Event)
    requires Rest(cfg, s) && EventOk(cfg, e)
    ensures StatusStep(s, e, IoPath.Step(cfg, env, s, e))
  {
    hide Rest, CmdOk, Accept, OnCqe, TickRetries, Repump, FlushFrom, AbortStalled, OnlyThese, EndsAll, TickEnded,
      InSlots, Carries, Entrusted;
    match e
    case Command(cmd) => AcceptTakes(cfg, env, s, cmd);
    case Cqe(raw, status) => CqeStatus(cfg, env, s, raw, status);
    case PassEnd(head) =>
    case Watchdog(now) =>
      RetryNoDup(cfg, s);
      hide Parked;
      TickDoes(cfg, env, s, now, s.core.retryList, SC_HOST_PATH_ERROR);
      EndsOnly(s.book, TickEnded(s.core.reqs, RoomOf(s.core), now, s.core.retryList), SC_HOST_PATH_ERROR,
               IoPath.Step(cfg, env, s, e).book);
    case FlushQueue =>
      FlushEnds(cfg, env, s, 0, SC_HOST_ABORTED);
      EndsOnly(s.book, InSlots(s.core, 0), SC_HOST_ABORTED, IoPath.Step(cfg, env, s, e).book);
    case RepumpOne =>
      if s.book.stalled != [] {
        var s2, tried := RepumpExact(cfg, env, s);
        ConcludedDone(s2.book, s.book.stalled[0], Repump(cfg, env, s).book);
      }
    case StopTask => AbortStalledAnswers(cfg, s);
    case SetLive(_) =>
  }

  // --------------------------------------------------------------- over runs

  /** For every request the status its controller last reported for it, in a
      completion that was matched. */
  ghost function Heard(cfg: Config, env: Env, boot: Boot, es: seq<Event>): map<nat, nat>
    requires Runnable(cfg, boot, es)
    decreases |es|
  {
    hide Rest, EventOk;
    if es == [] then map[]
    else
      var n := |es| - 1;
      Hears(Heard(cfg, env, boot, es[..n]), After(cfg, env, boot, es[..n]).core.pool, es[n])
  }

  function Hears(heard: map<nat, nat>, pool: Pool, e: Event): map<nat, nat> {
    if e.Cqe? && Lookup(pool, e.raw).Some? then heard[Lookup(pool, e.raw).value := e.status] else heard
  }

  /** A status is the one last heard, or the driver's own: of a flush, or of a
      resubmission that found no tag. */
  ghost predicate Justified(heard: map<nat, nat>, es: seq<Event>, r: nat, status: nat) {
    || (r in heard && status == heard[r])
    || (status == 0x371 && exists i :: 0 <= i < |es| && es[i].FlushQueue?)
    || (status == 0x370 && exists i :: 0 <= i < |es| && es[i].Watchdog?)
  }

  ghost predicate AllJustified(done: map<nat, nat>, heard: map<nat, nat>, es: seq<Event>) {
    forall r :: r in done ==> Justified(heard, es, r, done[r])
  }

  lemma JustifiedLater(heard: map<nat, nat>, es: seq<Event>, r: nat, status: nat, heard': map<nat, nat>, e: Event)
    requires Justified(heard, es, r, status) && (r in heard ==> r in heard' && heard'[r] == heard[r])
    ensures Justified(heard', es + [e], r, status)
  {
    if i :| 0 <= i < |es| && es[i].FlushQueue? { assert (es + [e])[i].FlushQueue?; }
    if i :| 0 <= i < |es| && es[i].Watchdog? { assert (es + [e])[i].Watchdog?; }
  }

  lemma StepJustifies(s: State, e: Event, s': State, heard: map<nat, nat>, es: seq<Event>)
    requires StatusStep(s, e, s') && AllJustified(s.book.done, heard, es)
    ensures AllJustified(s'.book.done, Hears(heard, s.core.pool, e), es + [e])
  {
    var heard' := Hears(heard, s.core.pool, e);
    assert (es + [e])[|es|] == e;
    hide Lookup, Final, TickEnded, InSlots;
    forall r | r in s'.book.done ensures Justified(heard', es + [e], r, s'.book.done[r]) {
      if r in s.book.done {
        assert s'.book.done[r] == s.book.done[r];
        JustifiedLater(heard, es, r, s.book.done[r], heard', e);
      }
    }
  }

  lemma HeardPush(cfg: Config, env: Env, boot: Boot, es: seq<Event>, e: Event)
    requires Runnable(cfg, boot, es) && EventOk(cfg, e)
    ensures Runnable(cfg, boot, es + [e])
    ensures Heard(cfg, env, boot, es + [e])
            == Hears(Heard(cfg, env, boot, es), After(cfg, env, boot, es).core.pool, e)
  {
    assert (es + [e])[..|es|] == es && (es + [e])[|es|] == e;
    hide Rest, EventOk, After, Hears;
  }

  lemma StatusNext(cfg: Config, env: Env, boot: Boot, es: seq<Event>, e: Event)
    requires Runnable(cfg, boot, es) && EventOk(cfg, e)
    requires AllJustified(After(cfg, env, boot, es).book.done, Heard(cfg, env, boot, es), es)
    ensures Runnable(cfg, boot, es + [e])
    ensures AllJustified(After(cfg, env, boot, es + [e]).book.done, Heard(cfg, env, boot, es + [e]), es + [e])
  {
    hide *;
    var s := After(cfg, env, boot, es);
    AfterPush(cfg, env, boot, es, e);
    HeardPush(cfg, env, boot, es, e);
    StepStatus(cfg, env, s, e);
    StepJustifies(s, e, IoPath.Step(cfg, env, s, e), Heard(cfg, env, boot, es), es);
  }

  /** Every completed request carries the status its controller reported last, or
      0x371 of a flush, or 0x370 of a resubmission by the watchdog that found no
      tag.  No failure turns into a success, and no success into a failure. */
  lemma {:induction false} StatusAsHeard(cfg: Config, env: Env, boot: Boot, es: seq<Event>)
    requires Runnable(cfg, boot, es)
    ensures AllJustified(After(cfg, env, boot, es).book.done, Heard(cfg, env, boot, es), es)
    decreases |es|
  {
    if es == [] {
      NoneDone(cfg, env, boot);
    } else {
      var n := |es| - 1;
      assert EventOk(cfg, es[n]) && es == es[..n] + [es[n]];
      hide After, Heard, AllJustified, EventOk;
      StatusAsHeard(cfg, env, boot, es[..n]);
      StatusNext(cfg, env, boot, es[..n], es[n]);
    }
  }

  lemma NoneDone(cfg: Config, env: Env, boot: Boot)
    requires Runnable(cfg, boot, [])
    ensures After(cfg, env, boot, []).book.done == map[]
  {
    hide Rest;
  }

  // --------------------------------------------------------- the first error

  /** No error, or that of a chunk that could not be set up or handed to the ring. */
  predicate SetupError(err: int) { err == 0 || err == IOERR_SELFTEST || err == IOERR_BADADDRESS }

  /** The error of context `c`, none before, after one event: that of the chunk whose
      completion the event is; 20 if the event ends a chunk of it by the driver's own
      hand; IOERR_ABORTED if it is parked and the task stops; that of a failed chunk
      if it is pumped; none otherwise. */
  ghost predicate ErrorAfter(s: State, c: nat, e: Event, err: int) {
    match e
    case Cqe(raw, status) =>
      (match Lookup(s.core.pool, raw)
       case None => err == 0
       case Some(r) =>
         if r in s.core.reqs && r in s.book.parents && s.book.parents[r] == Sibling(c) && Final(s.core.reqs[r], status)
         then if ErrorFor(status) != 0 then err == ErrorFor(status) else SetupError(err)
         else err == 0)
    case Watchdog(now) =>
      err == if HitBy(s.book, c, TickEnded(s.core.reqs, RoomOf(s.core), now, s.core.retryList)) then 20 else 0
    case FlushQueue => err == if HitBy(s.book, c, InSlots(s.core, 0)) then 20 else 0
    case RepumpOne => if s.book.stalled != [] && s.book.stalled[0] == c then SetupError(err) else err == 0
    case StopTask => err == if c in s.book.stalled then -2 else 0
    case _ => err == 0
  }

  lemma SameError(b: Book, c: nat, b': Book)
    requires c in b.ctxs && c in b'.ctxs && b'.ctxs[c] == b.ctxs[c]
    ensures ErrIs(b', b.ctxs[c].io, c, b.ctxs[c].firstError)
  {
  }

  lemma ConcludedError(b: Book, c: nat, b': Book)
    requires c in b.ctxs && Concluded(b, c, b')
    ensures ErrIs(b', b.ctxs[c].io, c, b.ctxs[c].firstError)
  {
  }

  lemma ConcludedOther(b: Book, c: nat, b': Book, d: nat)
    requires c in b.ctxs && Concluded(b, c, b') && d in b.ctxs && d != c
    ensures d in b'.ctxs && b'.ctxs[d] == b.ctxs[d]
  {
  }

  /** What the pump may latch. */
  lemma PumpEndError(cfg: Config, env: Env, s: State, c: nat, tried: Option<Core>)
    requires PumpEnd(cfg, env, s, c, tried)
    ensures c in s.book.ctxs && SetupError(s.book.ctxs[c].firstError)
  {
    hide Supplied, Spent, NextSqe, NextOff, RingFull;
    if tried.Some? {
      var turn :| LastTurn(cfg, env, s.book.ctxs[c], tried.value, turn);
    }
  }

  lemma SiblingError(cfg: Config, env: Env, s: State, r: nat, status: nat, s': State, s2: State, tried: Option<Core>,
                     c: nat)
    returns (err: int)
    requires r in s.book.parents && s.book.parents[r].Sibling? && r in s.core.reqs && c in s.book.ctxs
    requires SiblingEnded(cfg, env, s, r, status, s', s2, tried) && s.book.ctxs[c].firstError == 0
    ensures ErrIs(s'.book, s.book.ctxs[c].io, c, err)
    ensures if s.book.parents[r].ctx == c
            then if ErrorFor(status) != 0 then err == ErrorFor(status) else SetupError(err)
            else err == 0
  {
    hide ErrorFor, PumpEnd, Concluded;
    var d := s.book.parents[r].ctx;
    if d != c {
      err := 0;
      ConcludedOther(s2.book, d, s'.book, c);
      SameError(s.book, c, s'.book);
    } else {
      err := s2.book.ctxs[c].firstError;
      ConcludedError(s2.book, c, s'.book);
      if ErrorFor(status) == 0 && s.book.ctxs[c].dispatched != s.book.ctxs[c].job.total {
        PumpEndError(cfg, env, s2, c, tried);
      }
    }
  }

  lemma EndedError(cfg: Config, env: Env, s: State, r: nat, status: nat, s': State, c: nat) returns (err: int)
    requires Ended(cfg, env, s, r, status, s') && c in s.book.ctxs && s.book.ctxs[c].firstError == 0
    ensures ErrIs(s'.book, s.book.ctxs[c].io, c, err)
    ensures if s.book.parents[r] == Sibling(c)
            then if ErrorFor(status) != 0 then err == ErrorFor(status) else SetupError(err) else err == 0
  {
    hide ErrorFor, SiblingEnded;
    if s.book.parents[r].Single? {
      err := 0;
      SameError(s.book, c, s'.book);
    } else {
      var s2, tried :| SiblingEnded(cfg, env, s, r, status, s', s2, tried);
      err := SiblingError(cfg, env, s, r, status, s', s2, tried, c);
    }
  }

  /** One event and the error of a context: one it has it keeps, and answers with; one
      it has not comes from where the event says. */
  ghost predicate ErrorStep(s: State, c: nat, e: Event, s': State)
    requires c in s.book.ctxs
  {
    var k := s.book.ctxs[c];
    if k.firstError != 0 then ErrIs(s'.book, k.io, c, k.firstError)
    else exists err :: ErrorAfter(s, c, e, err) && ErrIs(s'.book, k.io, c, err)
  }

  lemma KeptError(b: Book, c: nat, b': Book)
    requires c in b.ctxs && b.ctxs[c].firstError != 0 && Carries(b, b')
    ensures ErrIs(b', b.ctxs[c].io, c, b.ctxs[c].firstError)
  {
    assert CtxCarried(b, c, b');
  }

  lemma ErrorStepBy(s: State, c: nat, e: Event, s': State, err: int)
    requires c in s.book.ctxs && s.book.ctxs[c].firstError == 0
    requires ErrorAfter(s, c, e, err) && ErrIs(s'.book, s.book.ctxs[c].io, c, err)
    ensures ErrorStep(s, c, e, s')
  {
    hide ErrorAfter, ErrIs;
  }

  lemma AfterDrop(s: State, c: nat, raw: Cid, status: nat)
    requires Lookup(s.core.pool, raw).None?
    ensures ErrorAfter(s, c, Cqe(raw, status), 0)
  {
    hide Lookup, Final;
  }

  lemma AfterCqe(s: State, c: nat, raw: Cid, status: nat, r: nat, err: int)
    requires Lookup(s.core.pool, raw) == Some(r) && r in s.core.reqs && r in s.book.parents
    requires if s.book.parents[r] == Sibling(c) && Final(s.core.reqs[r], status)
             then if ErrorFor(status) != 0 then err == ErrorFor(status) else SetupError(err)
             else err == 0
    ensures ErrorAfter(s, c, Cqe(raw, status), err)
  {
    hide Lookup, Final, ErrorFor, SetupError;
  }

  /** A completion that is tried again leaves every context alone. */
  lemma RetriedCtxs(cfg: Config, env: Env, s: State, r: nat, status: nat, s': State)
    requires Delayed(cfg, env, s, r, status, s') || Vanished(s, r, s') || SentAgain(s, r, s')
    ensures s'.book.ctxs == s.book.ctxs
  {
    hide DelayIndex;
  }

  lemma HitError(cfg: Config, env: Env, s: State, raw: Cid, status: nat, r: nat, c: nat)
    requires Lookup(s.core.pool, raw) == Some(r)
    requires Rest(cfg, s) && c in s.book.ctxs && s.book.ctxs[c].firstError == 0
    ensures ErrorStep(s, c, Cqe(raw, status), OnCqe(cfg, env, s, raw, status))
  {
    hide *;
    var s' := OnCqe(cfg, env, s, raw, status);
    CqeEnds(cfg, env, s, raw, status, r);
    CqeRetries(cfg, env, s, raw, status, r);
    LiveNotDone(cfg, s, r);
    if Final(s.core.reqs[r], status) {
      var err := EndedError(cfg, env, s, r, status, s', c);
      AfterCqe(s, c, raw, status, r, err);
      ErrorStepBy(s, c, Cqe(raw, status), s', err);
    } else {
      RetriedCtxs(cfg, env, s, r, status, s');
      SameError(s.book, c, s'.book);
      AfterCqe(s, c, raw, status, r, 0);
      ErrorStepBy(s, c, Cqe(raw, status), s', 0);
    }
  }

  lemma CqeError(cfg: Config, env: Env, s: State, raw: Cid, status: nat, c: nat)
    requires Rest(cfg, s) && c in s.book.ctxs && s.book.ctxs[c].firstError == 0
    ensures ErrorStep(s, c, Cqe(raw, status), OnCqe(cfg, env, s, raw, status))
  {
    hide *;
    if Lookup(s.core.pool, raw).Some? {
      HitError(cfg, env, s, raw, status, Lookup(s.core.pool, raw).value, c);
    } else {
      CqeDropped(cfg, env, s, raw, status);
      SameError(s.book, c, s.book);
      AfterDrop(s, c, raw, status);
      ErrorStepBy(s, c, Cqe(raw, status), s, 0);
    }
  }

  /** Ends by the driver's own hand. */
  lemma EndsError(b: Book, ended: set<nat>, code: nat, b': Book, c: nat)
    requires EndsAll(b, ended, code, b') && c in b.ctxs && b.ctxs[c].firstError == 0 && ErrorFor(code) == 20
    ensures ErrIs(b', b.ctxs[c].io, c, if HitBy(b, c, ended) then 20 else 0)
  {
    hide ErrorFor, HitBy;
    assert CtxAfterEnds(b, c, ended, code, b');
  }

  lemma AfterTick(s: State, c: nat, now: nat)
    ensures var ended := TickEnded(s.core.reqs, RoomOf(s.core), now, s.core.retryList);
            ErrorAfter(s, c, Watchdog(now), if HitBy(s.book, c, ended) then 20 else 0)
  {
    hide HitBy, TickEnded;
  }

  lemma AfterFlush(s: State, c: nat)
    ensures ErrorAfter(s, c, FlushQueue, if HitBy(s.book, c, InSlots(s.core, 0)) then 20 else 0)
  {
    hide HitBy, InSlots;
  }

  lemma TickIs(cfg: Config, env: Env, s: State, now: nat)
    requires Rest(cfg, s)
    ensures Parked(s, s.core.retryList) && Tick(cfg, env, s, now) == TickRetries(cfg, env, s, now, s.core.retryList)
  {
    RetryNoDup(cfg, s);
    hide Rest, Parked, TickRetries;
  }

  lemma TickBooks(cfg: Config, env: Env, s: State, now: nat, code: nat)
    requires Rest(cfg, s) && code == SC_HOST_PATH_ERROR
    ensures EndsAll(s.book, TickEnded(s.core.reqs, RoomOf(s.core), now, s.core.retryList), code,
                    Tick(cfg, env, s, now).book)
  {
    hide Rest, TickRetries, EndsAll, TickEnded, Parked, Tick, RoomOf;
    TickIs(cfg, env, s, now);
    TickDoes(cfg, env, s, now, s.core.retryList, code);
  }

  lemma TickError(cfg: Config, env: Env, s: State, now: nat, c: nat)
    requires Rest(cfg, s) && c in s.book.ctxs && s.book.ctxs[c].firstError == 0
    ensures ErrorStep(s, c, Watchdog(now), Tick(cfg, env, s, now))
  {
    hide *;
    var ended := TickEnded(s.core.reqs, RoomOf(s.core), now, s.core.retryList);
    PathError(SC_HOST_PATH_ERROR);
    TickBooks(cfg, env, s, now, SC_HOST_PATH_ERROR);
    EndsError(s.book, ended, SC_HOST_PATH_ERROR, Tick(cfg, env, s, now).book, c);
    AfterTick(s, c, now);
    ErrorStepBy(s, c, Watchdog(now), Tick(cfg, env, s, now), if HitBy(s.book, c, ended) then 20 else 0);
  }

  lemma FlushError(cfg: Config, env: Env, s: State, c: nat)
    requires Rest(cfg, s) && c in s.book.ctxs && s.book.ctxs[c].firstError == 0
    ensures ErrorStep(s, c, FlushQueue, FlushFrom(cfg, env, s, 0))
  {
    hide *;
    AbortError(SC_HOST_ABORTED);
    FlushEnds(cfg, env, s, 0, SC_HOST_ABORTED);
    EndsError(s.book, InSlots(s.core, 0), SC_HOST_ABORTED, FlushFrom(cfg, env, s, 0).book, c);
    AfterFlush(s, c);
    ErrorStepBy(s, c, FlushQueue, FlushFrom(cfg, env, s, 0), if HitBy(s.book, c, InSlots(s.core, 0)) then 20 else 0);
  }

  lemma AfterRepump(s: State, c: nat, err: int)
    requires s.book.stalled != [] && if s.book.stalled[0] == c then SetupError(err) else err == 0
    ensures ErrorAfter(s, c, RepumpOne, err)
  {
    hide SetupError;
  }

  lemma RepumpFields(cfg: Config, env: Env, s: State, s': State, s2: State, tried: Option<Core>)
    requires Repumped(cfg, env, s, s', s2, tried) && s.book.stalled != []
    ensures var d := s.book.stalled[0];
            && d in s.book.ctxs && d in s2.book.ctxs && PumpEnd(cfg, env, s2, d, tried)
            && Concluded(s2.book, d, s'.book) && s2.book.ctxs[d].io == s.book.ctxs[d].io
            && forall c :: c in s.book.ctxs && c != d ==> c in s2.book.ctxs && s2.book.ctxs[c] == s.book.ctxs[c]
  {
    hide PumpEnd, Concluded;
  }

  lemma RepumpError(cfg: Config, env: Env, s: State, c: nat)
    requires Rest(cfg, s) && s.book.stalled != [] && c in s.book.ctxs && s.book.ctxs[c].firstError == 0
    ensures ErrorStep(s, c, RepumpOne, Repump(cfg, env, s))
  {
    hide *;
    var d := s.book.stalled[0];
    var s' := Repump(cfg, env, s);
    var s2, tried := RepumpExact(cfg, env, s);
    RepumpFields(cfg, env, s, s', s2, tried);
    var err := s2.book.ctxs[c].firstError;
    if c == d {
      PumpEndError(cfg, env, s2, c, tried);
      ConcludedError(s2.book, c, s'.book);
    } else {
      ConcludedOther(s2.book, d, s'.book, c);
      SameError(s.book, c, s'.book);
    }
    AfterRepump(s, c, err);
    ErrorStepBy(s, c, RepumpOne, s', err);
  }

  lemma StoppedError(b: Book, b': Book, c: nat)
    requires ParkedAnswered(b, b') && c in b.ctxs && b.ctxs[c].firstError == 0
    ensures ErrIs(b', b.ctxs[c].io, c, if c in b.stalled then -2 else 0)
  {
  }

  lemma AfterStop(s: State, c: nat)
    ensures ErrorAfter(s, c, StopTask, if c in s.book.stalled then -2 else 0)
  {
  }

  lemma StopError(cfg: Config, s: State, c: nat)
    requires Rest(cfg, s) && c in s.book.ctxs && s.book.ctxs[c].firstError == 0
    ensures ErrorStep(s, c, StopTask, AbortStalled(cfg, s))
  {
    hide *;
    AbortStalledAnswers(cfg, s);
    StoppedError(s.book, AbortStalled(cfg, s).book, c);
    AfterStop(s, c);
    ErrorStepBy(s, c, StopTask, AbortStalled(cfg, s), if c in s.book.stalled then -2 else 0);
  }

  lemma CommandError(cfg: Config, env: Env, s: State, cmd: Cmd, c: nat)
    requires Rest(cfg, s) && CmdOk(cfg, cmd) && c in s.book.ctxs && s.book.ctxs[c].firstError == 0
    ensures ErrorStep(s, c, Command(cmd), Accept(cfg, env, s, cmd))
  {
    hide Rest, Accept, CmdOk, Carries, Entrusted;
    AcceptTakes(cfg, env, s, cmd);
    SameError(s.book, c, Accept(cfg, env, s, cmd).book);
    assert ErrorAfter(s, c, Command(cmd), 0);
  }

  lemma NewErrorStep(cfg: Config, env: Env, s: State, e: Event, c: nat)
    requires Rest(cfg, s) && EventOk(cfg, e) && c in s.book.ctxs && s.book.ctxs[c].firstError == 0
    ensures ErrorStep(s, c, e, IoPath.Step(cfg, env, s, e))
  {
    hide Rest, CmdOk, Accept, OnCqe, Tick, Repump, FlushFrom, AbortStalled, ErrorStep;
    match e
    case Command(cmd) => CommandError(cfg, env, s, cmd, c);
    case Cqe(raw, status) => CqeError(cfg, env, s, raw, status, c);
    case PassEnd(head) => Unmoved(s, c, e, IoPath.Step(cfg, env, s, e));
    case Watchdog(now) => TickError(cfg, env, s, now, c);
    case FlushQueue => FlushError(cfg, env, s, c);
    case RepumpOne =>
      if s.book.stalled != [] { RepumpError(cfg, env, s, c); } else { Unmoved(s, c, e, s); }
    case StopTask => StopError(cfg, s, c);
    case SetLive(_) => Unmoved(s, c, e, IoPath.Step(cfg, env, s, e));
  }

  lemma OldErrorStep(s: State, c: nat, e: Event, s': State)
    requires c in s.book.ctxs && s.book.ctxs[c].firstError != 0 && Carries(s.book, s'.book)
    ensures ErrorStep(s, c, e, s')
  {
    KeptError(s.book, c, s'.book);
    hide Carries, ErrIs;
  }

  /** The first error of a chunked transfer, event by event. */
  lemma FirstErrorStep(cfg: Config, env: Env, s: State, e: Event, c: nat)
    requires Rest(cfg, s) && EventOk(cfg, e) && c in s.book.ctxs
    ensures ErrorStep(s, c, e, IoPath.Step(cfg, env, s, e))
  {
    hide *;
    if s.book.ctxs[c].firstError != 0 {
      StepCarries(cfg, env, s, e);
      OldErrorStep(s, c, e, IoPath.Step(cfg, env, s, e));
    } else {
      NewErrorStep(cfg, env, s, e, c);
    }
  }

  lemma Unmoved(s: State, c: nat, e: Event, s': State)
    requires c in s.book.ctxs && s'.book == s.book
    requires e.PassEnd? || e.SetLive? || (e.RepumpOne? && s.book.stalled == [])
    ensures ErrorStep(s, c, e, s')
  {
    SameError(s.book, c, s'.book);
    if s.book.ctxs[c].firstError == 0 { assert ErrorAfter(s, c, e, 0); }
  }

  /** Over any further run: an error once latched is there as long as the context is,
      and its IOStdReq is answered with it. */
  lemma LatchedForGood(cfg: Config, env: Env, s: State, es: seq<Event>, c: nat)
    requires EventsOk(cfg, es) && Rest(cfg, s) && c in s.book.ctxs && s.book.ctxs[c].firstError != 0
    ensures ErrIs(IoPath.Run(cfg, env, s, es).book, s.book.ctxs[c].io, c, s.book.ctxs[c].firstError)
  {
    hide Rest, EventsOk, Carries, ErrIs, IoPath.Run;
    RunCarries(cfg, env, s, es);
    KeptError(s.book, c, IoPath.Run(cfg, env, s, es).book);
  }
}
