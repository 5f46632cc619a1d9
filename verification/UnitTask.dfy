/** The loops of the I/O path, and the unit task that runs them: message port,
    back-pressure FIFO and the re-pump of parked contexts. */
module IoLoops {
  import opened Base
  import opened Chunk
  import opened IoCore
  import opened IoBook
  import opened IoPath

  /** nvme_io_context_pump as the loop it is. */
  method PumpLoop(cfg: Config, env: Env, start: State, c: nat) returns (s: State, rc: int)
    requires c in start.book.ctxs && start.book.ctxs[c].dispatched <= start.book.ctxs[c].job.total
    requires Pumpable(cfg, start, c)
    ensures (s, rc) == Pump(cfg, env, start, c)
  {
    hide Pumpable, Inv, PumpFrame, PumpTurn;
    s := start;
    while s.book.ctxs[c].dispatched < s.book.ctxs[c].job.total && s.book.ctxs[c].inflight < SibCap(cfg)
      invariant c in s.book.ctxs && s.book.ctxs[c].dispatched <= s.book.ctxs[c].job.total
      invariant Pumpable(cfg, s, c)
      invariant Pump(cfg, env, s, c) == Pump(cfg, env, start, c)
      decreases s.book.ctxs[c].job.total - s.book.ctxs[c].dispatched
    {
      ghost var was := s;
      var turn;
      s, turn := PumpTurn(cfg, env, s, c).0, PumpTurn(cfg, env, s, c).1;
      match turn
      case Sent =>
        PumpableBound(cfg, s, c);
        SameJob(was, s, c);
      case Pressure(_) =>
        if s.book.ctxs[c].inflight == 0 { s := s.(book := Stall(s.book, c)); }
        return s, ASYNC;
      case Fault(err) =>
        var idle := s.book.ctxs[c].inflight == 0;
        s := s.(book := Latch(s.book, c, err));
        return s, if idle then err else ASYNC;
    }
    rc := ASYNC;
  }

  /** nvme_flush_queue_inflight as the loop it is. */
  method FlushLoop(cfg: Config, env: Env, start: State) returns (s: State)
    requires Rest(cfg, start)
    ensures s == FlushFrom(cfg, env, start, 0)
  {
    hide Rest, CancelSlot;
    s := start;
    var i := 0;
    while i < |s.core.pool.table|
      invariant Rest(cfg, s) && FlushFrom(cfg, env, s, i) == FlushFrom(cfg, env, start, 0)
      decreases |s.core.pool.table| - i
    {
      if s.core.pool.table[i].Busy? { s := CancelSlot(cfg, env, s, i); }
      i := i + 1;
    }
  }

  /** The copy of a TRIM's ranges into the range buffer, as the loop it is: it ends
      at the first bad one. */
  method CopyRanges(unit: Unit, tr: seq<Range>) returns (ranges: seq<Range>, ok: bool)
    ensures ok <==> RangesIn(unit, tr)
    ensures ok ==> ranges == tr
  {
    ranges, ok := [], true;
    var i := 0;
    hide OutOfRange;
    while i < |tr| && ok
      invariant 0 <= i <= |tr| && (ok ==> ranges == tr[..i] && RangesIn(unit, tr[..i]))
      invariant !ok ==> !RangesIn(unit, tr)
      decreases |tr| - i, ok
    {
      if tr[i].blocks == 0 || OutOfRange(unit, tr[i].lba, tr[i].blocks) {
        ok := false;
      } else {
        assert tr[..i + 1] == tr[..i] + [tr[i]];
        ranges := ranges + [tr[i]];
        i := i + 1;
      }
    }
    assert ok ==> tr[..i] == tr;
  }

  /** The CRDT walk of nvme_tick_watchdog as the loop it is. */
  method TickLoop(cfg: Config, env: Env, start: State, now: nat) returns (s: State)
    requires Rest(cfg, start)
    ensures s == Tick(cfg, env, start, now)
  {
    RetryNoDup(cfg, start);
    hide Rest, Resubmit, Unpark, Parked, Handling, Settled, Due;
    s := start;
    var todo := s.core.retryList;
    while todo != []
      invariant Rest(cfg, s) && Parked(s, todo)
      invariant TickRetries(cfg, env, s, now, todo) == Tick(cfg, env, start, now)
      decreases |todo|
    {
      var r := todo[0];
      ParkedReq(cfg, s, todo);
      if Due(now, s.core.reqs[r].deadline) {
        ghost var was := s;
        UnparkInv(cfg, s, r);
        s := Resubmit(cfg, env, s.(core := Unpark(s.core, r)), r);
        TodoLeft(cfg, was, todo, s);
      }
      todo := todo[1..];
    }
  }
}

module UnitTask {
  import opened Tags
  import opened IoCore
  import opened IoBook
  import opened IoPath
  import opened IoTheorems
  import opened IoFlush
  import opened IoStop

  /** Work goes to a dispatcher; Local is answered without the I/O queue;
      AbortRequest is CMD_INTERNAL_ABORT_REQUEST. */
  datatype Msg = Work(id: nat, cmd: Cmd) | Local(id: nat) | AbortRequest(id: nat)

  /** The messages other than abort requests, in order. */
  function Clients(ms: seq<Msg>): seq<Msg> {
    if ms == [] then []
    else Clients(ms[..|ms| - 1]) + (if ms[|ms| - 1].AbortRequest? then [] else [ms[|ms| - 1]])
  }

  lemma ClientsPush(ms: seq<Msg>, m: Msg)
    ensures Clients(ms + [m]) == Clients(ms) + if m.AbortRequest? then [] else [m]
  {
    assert (ms + [m])[..|ms|] == ms;
  }

  lemma {:induction false} ClientsConcat(a: seq<Msg>, b: seq<Msg>)
    ensures Clients(a + b) == Clients(a) + Clients(b)
    decreases |b|
  {
    if b == [] {
      assert a + b == a;
    } else {
      var front, last := b[..|b| - 1], b[|b| - 1];
      ClientsConcat(a, front);
      ClientsPush(a + front, last);
      ClientsPush(front, last);
      hide Clients;
      assert (a + front) + [last] == a + b && front + [last] == b;
    }
  }

  lemma ClientsHead(ms: seq<Msg>)
    requires ms != []
    ensures Clients(ms) == (if ms[0].AbortRequest? then [] else [ms[0]]) + Clients(ms[1..])
  {
    ClientsConcat([ms[0]], ms[1..]);
    ClientsPush([], ms[0]);
    assert [] + [ms[0]] == [ms[0]] && [ms[0]] + ms[1..] == ms;
    assert Clients([]) == [];
    hide Clients;
  }

  ghost predicate MsgOk(cfg: Config, m: Msg) { m.Work? ==> CmdOk(cfg, m.cmd) }

  /** nvme_set_io_max_inflight. */
  function IoMax(qdepthOne: bool, depth: nat): (n: nat)
    ensures 0 < n && (depth > 1 ==> n < depth)
    ensures qdepthOne || depth <= 1 ==> n == 1
    ensures !qdepthOne && depth > 1 ==> n + 1 == depth
  {
    if qdepthOne then 1 else if depth > 1 then depth - 1 else 1
  }

  /** A queue at its ceiling has a request in its table whose command stands in
      the ring under the CID its slot expects: the completion that wakes the unit
      task will be matched. */
  lemma HeldWorkWakes(cfg: Config, s: State)
    requires s.core.pool.count >= cfg.ioMax && Rest(cfg, s)
    ensures exists t :: 0 <= t < |s.core.pool.table| && Awaited(s.core, t)
  {
    assert Valid(s.core.pool) && cfg.ioMax > 0;
    hide Rest;
    CountIsBusy(s.core.pool);
    assert BusyTags(s.core.pool) != {};
    var t :| t in BusyTags(s.core.pool);
    hide Valid;
    BusyIsWritten(cfg, s, t);
    assert Awaited(s.core, t);
  }

  /** Slot `t` waits for the completion of a command that was written for it. */
  ghost predicate Awaited(k: Core, t: nat) {
    && t < |k.pool.table| && k.pool.table[t].Busy?
    && var r := k.pool.table[t].req;
    && r in k.wire && k.wire[r].cid == k.pool.table[t].cid && Lookup(k.pool, k.wire[r].cid) == Some(r)
  }

  /** The commands among some messages, in order; and the messages answered on
      the spot. */
  function Works(ms: seq<Msg>): seq<Cmd> {
    if ms == [] then []
    else Works(ms[..|ms| - 1]) + if ms[|ms| - 1].Work? then [ms[|ms| - 1].cmd] else []
  }

  function Locals(ms: seq<Msg>): seq<Msg> {
    if ms == [] then []
    else Locals(ms[..|ms| - 1]) + if ms[|ms| - 1].Local? then [ms[|ms| - 1]] else []
  }

  lemma LogsPush(ms: seq<Msg>, m: Msg)
    ensures Works(ms + [m]) == Works(ms) + if m.Work? then [m.cmd] else []
    ensures Locals(ms + [m]) == Locals(ms) + if m.Local? then [m] else []
  {
    assert (ms + [m])[..|ms|] == ms;
  }

  /** Leaving out abort requests leaves the commands. */
  lemma {:induction false} WorksOfClients(ms: seq<Msg>)
    ensures Works(Clients(ms)) == Works(ms)
  {
    if ms != [] {
      var n := |ms| - 1;
      WorksOfClients(ms[..n]);
      if ms[n].AbortRequest? {
        assert Clients(ms) == Clients(ms[..n]) && Works(ms) == Works(ms[..n]);
      } else {
        LogsPush(Clients(ms[..n]), ms[n]);
      }
    }
  }

  /** A Work message's command sits where its number says. */
  lemma {:induction false} WorksAt(ms: seq<Msg>, i: nat)
    requires i < |ms| && ms[i].Work?
    ensures |Works(ms[..i])| < |Works(ms)| && Works(ms)[|Works(ms[..i])|] == ms[i].cmd
    decreases |ms|
  {
    var n := |ms| - 1;
    if i < n {
      WorksAt(ms[..n], i);
      assert ms[..n][..i] == ms[..i];
    }
  }

  /** The events that put new commands on the queue from outside a completion. */
  predicate Loads(e: Event) { e.Command? || e.RepumpOne? }

  /** Back-pressure: no command was dispatched, and no parked context re-pumped,
      with the queue at its ceiling. */
  ghost predicate Gated(cfg: Config, env: Env, boot: Boot, es: seq<Event>)
    requires Runnable(cfg, boot, es)
    decreases |es|
  {
    hide Rest, EventOk;
    es == [] ||
    (var n := |es| - 1;
     && Gated(cfg, env, boot, es[..n])
     && (Loads(es[n]) ==> After(cfg, env, boot, es[..n]).core.pool.count < cfg.ioMax))
  }

  lemma GatedPush(cfg: Config, env: Env, boot: Boot, es: seq<Event>, e: Event)
    requires Runnable(cfg, boot, es) && Runnable(cfg, boot, es + [e]) && Gated(cfg, env, boot, es)
    requires Loads(e) ==> After(cfg, env, boot, es).core.pool.count < cfg.ioMax
    ensures Gated(cfg, env, boot, es + [e])
  {
    hide After, EventsOk;
    assert (es + [e])[..|es|] == es;
  }

  /** The unit task's state is the run of the logged events, none of them a command at
      the ceiling; the commands among them are those of the dispatched messages,
      in order, and every dispatched message that needs no I/O has been
      answered. */
  ghost predicate Tied(cfg: Config, env: Env, boot: Boot, history: seq<Event>, s: State, dispatched: seq<Msg>,
                       answered: seq<Msg>) {
    && Runnable(cfg, boot, history) && s == After(cfg, env, boot, history) && Gated(cfg, env, boot, history)
    && Commands(history) == Works(dispatched) && answered == Locals(dispatched)
  }

  lemma TiedRest(cfg: Config, env: Env, boot: Boot, history: seq<Event>, s: State, dispatched: seq<Msg>,
                 answered: seq<Msg>)
    requires Tied(cfg, env, boot, history, s, dispatched, answered)
    ensures Rest(cfg, s) && s.book.nextIo == |Works(dispatched)|
  {
    hide After, Rest, EventsOk, Gated;
  }

  lemma TiedStep(cfg: Config, env: Env, boot: Boot, history: seq<Event>, s: State, dispatched: seq<Msg>,
                 answered: seq<Msg>, e: Event)
    requires Tied(cfg, env, boot, history, s, dispatched, answered) && EventOk(cfg, e) && !e.Command? && Rest(cfg, s)
    requires Loads(e) ==> s.core.pool.count < cfg.ioMax
    ensures Tied(cfg, env, boot, history + [e], IoPath.Step(cfg, env, s, e), dispatched, answered)
  {
    hide Rest, EventOk, IoPath.Step, After, Runnable, Gated;
    AfterPush(cfg, env, boot, history, e);
    GatedPush(cfg, env, boot, history, e);
    CommandsPush(history, e);
  }

  lemma TiedStop(cfg: Config, env: Env, boot: Boot, history: seq<Event>, s: State, dispatched: seq<Msg>,
                 answered: seq<Msg>)
    requires Tied(cfg, env, boot, history, s, dispatched, answered)
    ensures Rest(cfg, s)
    ensures Tied(cfg, env, boot, history + [StopTask], AbortStalled(cfg, s), dispatched, answered)
    ensures ParkedAnswered(s.book, AbortStalled(cfg, s).book) && LeftWaiting(s.book, AbortStalled(cfg, s).book)
  {
    hide Rest, AbortStalled, Tied, ParkedAnswered, LeftWaiting, IoPath.Step;
    TiedRest(cfg, env, boot, history, s, dispatched, answered);
    TiedStep(cfg, env, boot, history, s, dispatched, answered, StopTask);
    StopEvent(cfg, env, s);
    AbortStalledAnswers(cfg, s);
    StopLeavesAll(cfg, s);
  }

  lemma TiedWork(cfg: Config, env: Env, boot: Boot, history: seq<Event>, s: State, dispatched: seq<Msg>,
                 answered: seq<Msg>, m: Msg)
    requires m.Work? && CmdOk(cfg, m.cmd) && s.core.pool.count < cfg.ioMax
    requires Tied(cfg, env, boot, history, s, dispatched, answered) && Rest(cfg, s)
    ensures Tied(cfg, env, boot, history + [Command(m.cmd)], Accept(cfg, env, s, m.cmd), dispatched + [m], answered)
  {
    hide Rest, CmdOk, Accept, After, Runnable, Gated;
    AfterPush(cfg, env, boot, history, Command(m.cmd));
    GatedPush(cfg, env, boot, history, Command(m.cmd));
    CommandsPush(history, Command(m.cmd));
    LogsPush(dispatched, m);
  }

  lemma TiedOther(cfg: Config, env: Env, boot: Boot, history: seq<Event>, s: State, dispatched: seq<Msg>,
                  answered: seq<Msg>, m: Msg)
    requires !m.Work? && Tied(cfg, env, boot, history, s, dispatched, answered)
    ensures Tied(cfg, env, boot, history, s, dispatched + [m], if m.Local? then answered + [m] else answered)
  {
    hide After, Runnable, Gated;
    LogsPush(dispatched, m);
  }

  /** Re-pumps, as events. */
  function Repumps(n: nat): seq<Event> { seq(n, _ => RepumpOne) }

  /** Some messages' commands, as events. */
  function Arrivals(ms: seq<Msg>): seq<Event> {
    if ms == [] then []
    else Arrivals(ms[..|ms| - 1]) + if ms[|ms| - 1].Work? then [Command(ms[|ms| - 1].cmd)] else []
  }

  /** From `was` on, exactly the messages `now` has more were dispatched, in
      order, and nothing else happened. */
  ghost predicate OnlyDispatched(was: seq<Msg>, now: seq<Msg>, before: seq<Event>, after: seq<Event>) {
    was <= now && after == before + Arrivals(now[|was|..])
  }

  lemma DispatchedNone(was: seq<Msg>, before: seq<Event>)
    ensures OnlyDispatched(was, was, before, before)
  {
    assert was[|was|..] == [];
  }

  lemma DispatchedMore(was: seq<Msg>, now: seq<Msg>, before: seq<Event>, after: seq<Event>, m: Msg)
    requires OnlyDispatched(was, now, before, after)
    ensures OnlyDispatched(was, now + [m], before, after + if m.Work? then [Command(m.cmd)] else [])
  {
    var more := now[|was|..];
    assert (now + [m])[|was|..] == more + [m];
    assert (more + [m])[..|more|] == more;
  }

  lemma {:induction false} ArrivalsConcat(a: seq<Msg>, b: seq<Msg>)
    ensures Arrivals(a + b) == Arrivals(a) + Arrivals(b)
    decreases |b|
  {
    if b == [] {
      assert a + b == a;
    } else {
      var n := |b| - 1;
      ArrivalsConcat(a, b[..n]);
      assert (a + b)[..|a| + n] == a + b[..n];
    }
  }

  lemma DispatchedBoth(m1: seq<Msg>, m2: seq<Msg>, m3: seq<Msg>, h1: seq<Event>, h2: seq<Event>, h3: seq<Event>)
    requires OnlyDispatched(m1, m2, h1, h2) && OnlyDispatched(m2, m3, h2, h3)
    ensures OnlyDispatched(m1, m3, h1, h3)
  {
    ArrivalsConcat(m2[|m1|..], m3[|m2|..]);
    hide Arrivals;
    Restart(m1, m2, m3);
  }

  lemma Restart(m1: seq<Msg>, m2: seq<Msg>, m3: seq<Msg>)
    requires m1 <= m2 <= m3
    ensures m1 <= m3 && m3[|m1|..] == m2[|m1|..] + m3[|m2|..]
  {
  }

  /** No client message is lost, duplicated or reordered. */
  ghost predicate InOrder(dispatched: seq<Msg>, pending: seq<Msg>, port: seq<Msg>, arrived: seq<Msg>) {
    Clients(dispatched) + pending + Clients(port) == Clients(arrived)
  }

  lemma PendingDispatched(dispatched: seq<Msg>, pending: seq<Msg>, port: seq<Msg>, arrived: seq<Msg>)
    requires InOrder(dispatched, pending, port, arrived) && pending != [] && !pending[0].AbortRequest?
    ensures InOrder(dispatched + [pending[0]], pending[1..], port, arrived)
  {
    ClientsPush(dispatched, pending[0]);
    assert pending == [pending[0]] + pending[1..];
  }

  lemma PortStashed(dispatched: seq<Msg>, pending: seq<Msg>, port: seq<Msg>, arrived: seq<Msg>)
    requires InOrder(dispatched, pending, port, arrived) && port != [] && !port[0].AbortRequest?
    ensures InOrder(dispatched, pending + [port[0]], port[1..], arrived)
  {
    ClientsHead(port);
  }

  lemma PortDispatched(dispatched: seq<Msg>, pending: seq<Msg>, port: seq<Msg>, arrived: seq<Msg>)
    requires InOrder(dispatched, pending, port, arrived) && port != [] && (pending == [] || port[0].AbortRequest?)
    ensures InOrder(dispatched + [port[0]], pending, port[1..], arrived)
  {
    ClientsHead(port);
    ClientsPush(dispatched, port[0]);
  }

  lemma PortGrows(dispatched: seq<Msg>, pending: seq<Msg>, port: seq<Msg>, arrived: seq<Msg>, m: Msg)
    requires InOrder(dispatched, pending, port, arrived)
    ensures InOrder(dispatched, pending, port + [m], arrived + [m])
  {
    ClientsPush(port, m);
    ClientsPush(arrived, m);
  }

  /** Where the i-th client message is: dispatched, held back, or on the port. */
  ghost predicate Whereabouts(dispatched: seq<Msg>, pending: seq<Msg>, port: seq<Msg>, m: Msg, i: nat) {
    var d, p := |Clients(dispatched)|, |pending|;
    if i < d then Clients(dispatched)[i] == m
    else if i < d + p then pending[i - d] == m
    else i < d + p + |Clients(port)| && Clients(port)[i - d - p] == m
  }

  lemma Located(dispatched: seq<Msg>, pending: seq<Msg>, port: seq<Msg>, arrived: seq<Msg>, i: nat)
    requires InOrder(dispatched, pending, port, arrived) && i < |Clients(arrived)|
    ensures Whereabouts(dispatched, pending, port, Clients(arrived)[i], i)
  {
  }

  /** The fate of an accepted command: replied at most once, and until then held
      by exactly one request or context, or stranded with a lost request. */
  ghost predicate Accounted(b: Book, io: nat) {
    && io < b.nextIo && multiset(b.replyLog)[io] <= 1
    && (multiset(b.replyLog)[io] == 0 <==> exists h :: Holds(b, io, h))
    && forall h1, h2 :: Holds(b, io, h1) && Holds(b, io, h2) ==> h1 == h2
  }

  lemma TiedAccounts(cfg: Config, env: Env, boot: Boot, history: seq<Event>, s: State, dispatched: seq<Msg>,
                     answered: seq<Msg>, io: nat)
    requires io < |Works(dispatched)| && Tied(cfg, env, boot, history, s, dispatched, answered)
    ensures Accounted(s.book, io) && Commands(history) == Works(dispatched)
  {
    hide Rest, After, Works, EventsOk, Holds, Gated;
    RepliedOnceOrHeld(cfg, env, boot, history, io);
  }

  /** Per-controller task state; `arrived`, `dispatched` and `history` are
      history. */
  class UnitTask {
    const cfg: Config
    const env: Env
    const boot: Boot
    var s: State
    var port: seq<Msg>
    var pending: seq<Msg>
    var stopped: bool
    var frozen: bool
    var answered: seq<Msg>
    var aborted: seq<Msg>
    ghost var arrived: seq<Msg>
    ghost var dispatched: seq<Msg>
    ghost var history: seq<Event>

    /** The logs tell what happened to the state. */
    ghost predicate Logged()
      reads this
    {
      Tied(cfg, env, boot, history, s, dispatched, answered)
    }

    ghost predicate Ok()
      reads this
    {
      && Logged() && InOrder(dispatched, pending, port, arrived) && aborted == []
      && (forall m :: m in port ==> MsgOk(cfg, m)) && (forall m :: m in pending ==> MsgOk(cfg, m) && !m.AbortRequest?)
    }

    constructor (cfg: Config, env: Env, boot: Boot)
      requires CfgOk(cfg) && 0 < boot.depth <= 256
      ensures Ok() && s == Start(boot.depth, boot.skipGen, boot.live) && arrived == []
      ensures this.cfg == cfg && this.env == env && this.boot == boot
    {
      this.cfg, this.env, this.boot := cfg, env, boot;
      s := Start(boot.depth, boot.skipGen, boot.live);
      port, pending, answered, aborted := [], [], [], [];
      stopped, frozen := false, false;
      arrived, dispatched, history := [], [], [];
      hide Rest;
      StartRest(cfg, boot.depth, boot.skipGen, boot.live);
    }

    /** A client puts a message on the port. */
    method PutMsg(m: Msg)
      requires Ok() && MsgOk(cfg, m)
      modifies `port, `arrived
      ensures Ok() && port == old(port) + [m] && arrived == old(arrived) + [m]
    {
      hide Tied, InOrder;
      PortGrows(dispatched, pending, port, arrived, m);
      port := port + [m];
      arrived := arrived + [m];
    }

    /** ProcessCommand. */
    method Process(m: Msg)
      requires Logged() && MsgOk(cfg, m) && (m.Work? ==> s.core.pool.count < cfg.ioMax)
      modifies `s, `dispatched, `answered, `history
      ensures Logged() && dispatched == old(dispatched) + [m]
      ensures history == old(history) + if m.Work? then [Command(m.cmd)] else []
      ensures Rest(cfg, old(s)) && s == if m.Work? then Accept(cfg, env, old(s), m.cmd) else old(s)
      ensures answered == old(answered) + (if m.Local? then [m] else [])
      ensures s.core.pool.count >= old(s.core.pool.count)
    {
      hide Rest, Accept, Tied, CmdOk;
      TiedRest(cfg, env, boot, history, s, dispatched, answered);
      if m.Work? {
        TiedWork(cfg, env, boot, history, s, dispatched, answered, m);
        s := Accept(cfg, env, s, m.cmd);
        history := history + [Command(m.cmd)];
      } else {
        TiedOther(cfg, env, boot, history, s, dispatched, answered, m);
        if m.Local? { answered := answered + [m]; }
      }
      dispatched := dispatched + [m];
    }

    /** Re-pump parked contexts while the queue has room; one that parks again
        ends the loop. */
    method RepumpLoop() returns (tight: bool, ghost n: nat)
      requires Logged()
      modifies `s, `history
      ensures Logged() && history == old(history) + Repumps(n)
      ensures s.core.pool.count >= old(s.core.pool.count)
      ensures if tight then n > 0 && s.book.stalled != [] else s.core.pool.count >= cfg.ioMax || s.book.stalled == []
    {
      hide Rest, Repump, Tied, IoPath.Step;
      TiedRest(cfg, env, boot, history, s, dispatched, answered);
      tight, n := false, 0;
      while s.core.pool.count < cfg.ioMax && s.book.stalled != [] && !tight
        invariant Logged() && Rest(cfg, s) && history == old(history) + Repumps(n)
        invariant s.core.pool.count >= old(s.core.pool.count) && (tight ==> n > 0 && s.book.stalled != [])
        decreases !tight, |s.book.stalled|
      {
        var c := s.book.stalled[0];
        TiedStep(cfg, env, boot, history, s, dispatched, answered, RepumpOne);
        RepumpEvent(cfg, env, s);
        s := Repump(cfg, env, s);
        history := history + [RepumpOne];
        n := n + 1;
        tight := c in s.book.ctxs && s.book.ctxs[c].stalled;
        if tight { ParkedListed(cfg, s, c); }
      }
    }

    /** Stashed I/O first, oldest first, while the queue has room. */
    method PendingLoop()
      requires Ok()
      modifies `s, `pending, `dispatched, `answered, `history
      ensures Ok() && (pending != [] ==> s.core.pool.count >= cfg.ioMax)
      ensures dispatched + pending == old(dispatched) + old(pending)
      ensures OnlyDispatched(old(dispatched), dispatched, old(history), history)
    {
      hide Rest, InOrder, MsgOk, Tied, Accept, OnlyDispatched;
      DispatchedNone(dispatched, history);
      while s.core.pool.count < cfg.ioMax && pending != []
        invariant Ok() && dispatched + pending == old(dispatched) + old(pending)
        invariant OnlyDispatched(old(dispatched), dispatched, old(history), history)
        decreases |pending|
      {
        var m := pending[0];
        assert m in pending && pending == [m] + pending[1..];
        PendingDispatched(dispatched, pending, port, arrived);
        pending := pending[1..];
        DispatchedMore(old(dispatched), dispatched, old(history), history, m);
        Process(m);
      }
    }

    /** New messages: stashed behind earlier ones or when the queue is full;
        abort requests pass straight through. */
    method PortLoop()
      requires Ok() && (pending != [] ==> s.core.pool.count >= cfg.ioMax)
      modifies `s, `pending, `port, `dispatched, `answered, `history
      ensures Ok() && (pending != [] ==> s.core.pool.count >= cfg.ioMax) && port == []
      ensures OnlyDispatched(old(dispatched), dispatched, old(history), history)
    {
      hide Rest, InOrder, MsgOk, Tied, Accept, OnlyDispatched;
      DispatchedNone(dispatched, history);
      while port != []
        invariant Ok() && (pending != [] ==> s.core.pool.count >= cfg.ioMax)
        invariant OnlyDispatched(old(dispatched), dispatched, old(history), history)
        decreases |port|
      {
        var m := port[0];
        assert m in port;
        if !m.AbortRequest? && (s.core.pool.count >= cfg.ioMax || pending != []) {
          PortStashed(dispatched, pending, port, arrived);
          port := port[1..];
          pending := pending + [m];
        } else {
          PortDispatched(dispatched, pending, port, arrived);
          port := port[1..];
          DispatchedMore(old(dispatched), dispatched, old(history), history, m);
          Process(m);
        }
      }
    }

    /** nvme_drain_msgport.  Gated, it does nothing.  Otherwise it re-pumps `n`
        times and then dispatches, and does nothing else; the port is emptied,
        order is kept, and work is held back only while the queue is full. */
    method DrainMsgport() returns (ghost n: nat)
      requires Ok()
      modifies `s, `pending, `port, `dispatched, `answered, `history
      ensures Ok()
      ensures old(stopped || frozen) ==> s == old(s) && port == old(port) && pending == old(pending)
                                         && dispatched == old(dispatched) && history == old(history)
      ensures !old(stopped || frozen) ==> port == [] && (pending != [] ==> s.core.pool.count >= cfg.ioMax)
      ensures OnlyDispatched(old(dispatched), dispatched, old(history) + Repumps(n), history)
    {
      hide Rest, InOrder, Tied, MsgOk, OnlyDispatched;
      n := 0;
      assert history + Repumps(0) == history;
      DispatchedNone(dispatched, history);
      if stopped || frozen { return; }
      var tight;
      tight, n := RepumpLoop();
      PendingLoop();
      ghost var some, mid := dispatched, history;
      PortLoop();
      DispatchedBoth(old(dispatched), some, dispatched, old(history) + Repumps(n), mid, history);
    }

    /** Everything else the unit task does between two passes: completions, drain
        ends, watchdog ticks, cancellation.  Commands and re-pumps come by
        DrainMsgport only. */
    method Handle(e: Event)
      requires Ok() && EventOk(cfg, e) && !Loads(e)
      modifies `s, `history
      ensures Ok() && history == old(history) + [e]
    {
      hide Rest, IoPath.Step, Tied, EventOk;
      TiedRest(cfg, env, boot, history, s, dispatched, answered);
      TiedStep(cfg, env, boot, history, s, dispatched, answered, e);
      s := IoPath.Step(cfg, env, s, e);
      history := history + [e];
    }

    /** Every client message that ever arrived is dispatched, held back or on the
        port, and a dispatched command is an accepted IOStdReq, numbered by its
        rank among the commands, that is replied once, held, or lost. */
    lemma Fate(i: nat)
      requires Ok() && i < |Clients(arrived)|
      ensures Whereabouts(dispatched, pending, port, Clients(arrived)[i], i)
      ensures i < |Clients(dispatched)| && Clients(arrived)[i].Work? ==>
                var io := |Works(Clients(dispatched)[..i])|;
                Accounted(s.book, io) && io < |Commands(history)| && Commands(history)[io] == Clients(arrived)[i].cmd
    {
      hide Tied, InOrder, Accounted, Clients, Works, Commands;
      Located(dispatched, pending, port, arrived, i);
      if i < |Clients(dispatched)| && Clients(arrived)[i].Work? {
        WorksAt(Clients(dispatched), i);
        WorksOfClients(dispatched);
        TiedAccounts(cfg, env, boot, history, s, dispatched, answered, |Works(Clients(dispatched)[..i])|);
      }
    }

    /** Task exit: what is still held back, and every parked context, is
        answered with IOERR_ABORTED; left waiting is what a request in the table,
        on the retry list or lost still works for. */
    method Exit()
      requires Ok()
      modifies `s, `pending, `aborted, `history
      ensures Logged() && pending == [] && aborted == old(pending)
      ensures Clients(dispatched) + aborted + Clients(port) == Clients(arrived)
      ensures history == old(history) + [StopTask]
      ensures Rest(cfg, old(s)) && s == AbortStalled(cfg, old(s)) && ParkedAnswered(old(s).book, s.book)
      ensures LeftWaiting(old(s).book, s.book)
    {
      hide Rest, AbortStalled, Tied, ParkedAnswered, LeftWaiting, Clients;
      while pending != []
        invariant aborted + pending == old(pending) && s == old(s) && history == old(history)
        decreases |pending|
      {
        aborted := aborted + [pending[0]];
        pending := pending[1..];
      }
      TiedStop(cfg, env, boot, history, s, dispatched, answered);
      s := AbortStalled(cfg, s);
      history := history + [StopTask];
    }
  }

  lemma RepumpEvent(cfg: Config, env: Env, s: State)
    requires s.book.stalled != [] && Rest(cfg, s)
    ensures IoPath.Step(cfg, env, s, RepumpOne) == Repump(cfg, env, s)
  {
    hide Rest, Repump;
  }

  lemma StopEvent(cfg: Config, env: Env, s: State)
    requires Rest(cfg, s)
    ensures IoPath.Step(cfg, env, s, StopTask) == AbortStalled(cfg, s)
  {
    hide Rest, AbortStalled;
  }

  lemma ParkedListed(cfg: Config, s: State, c: nat)
    requires c in s.book.ctxs && s.book.ctxs[c].stalled && Rest(cfg, s)
    ensures s.book.stalled != []
  {
    hide CoreOk, OwnersOk, RepliesOk, WireOk, SibsCapped;
    assert CtxOk(cfg.limits, s.book, c, None);
  }
}
