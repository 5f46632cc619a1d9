/** The watchdog's timeout sweep over one queue's in-flight table: one Abort per
    request, then escalation. */
module Watchdog {
  import opened Base
  import opened Tags

  const IO_TIMEOUT_MS: nat := 30000
  const ADMIN_TIMEOUT_MS: nat := 60000
  const ABORT_TIMEOUT_MS: nat := 15000
  const ABORT_OPCODE: nat := 0x08

  /** The request fields the sweep reads and writes. */
  datatype Req = Req(submitUs: nat, isIo: bool, opcode: nat, aer: bool, abortSent: bool, abortUs: nat)

  /** Every request ever created, the table, and history: Aborts sent and
      escalations raised. */
  datatype World = World(reqs: map<nat, Req>, table: seq<Option<nat>>, sent: seq<nat>, escalations: nat)

  function LimitMs(q: Req): nat { if q.isIo then IO_TIMEOUT_MS else ADMIN_TIMEOUT_MS }

  /** Milliseconds between two readings of the 32-bit microsecond clock. */
  function ElapsedMs(now: nat, since: nat): nat { (now - since) % U32 / 1000 }

  datatype Verdict = Leave | Escalate | SendAbort

  /** What the sweep decides for one table entry. */
  function Judge(q: Req, now: nat): Verdict {
    if q.submitUs == 0 || q.aer then Leave
    else if q.abortSent then if ElapsedMs(now, q.abortUs) < ABORT_TIMEOUT_MS then Leave else Escalate
    else if ElapsedMs(now, q.submitUs) < LimitMs(q) then Leave
    else if q.opcode == ABORT_OPCODE then Escalate
    else SendAbort
  }

  function Marked(w: World, r: nat, now: nat): World
    requires r in w.reqs
  {
    w.(reqs := w.reqs[r := w.reqs[r].(abortSent := true, abortUs := now)], sent := w.sent + [r])
  }

  /** watchdog_scan_queue from slot `i` on; `ok(i)`: the Abort for slot `i` could
      be submitted.  One escalation ends the sweep. */
  function Scan(w: World, i: nat, now: nat, ok: nat -> bool): (w': World)
    ensures w'.table == w.table && w'.reqs.Keys == w.reqs.Keys && w.escalations <= w'.escalations
    decreases |w.table| - i
  {
    if i >= |w.table| then w
    else if w.table[i].None? || w.table[i].value !in w.reqs then Scan(w, i + 1, now, ok)
    else
      var r := w.table[i].value;
      match Judge(w.reqs[r], now)
      case Leave => Scan(w, i + 1, now, ok)
      case Escalate => w.(escalations := w.escalations + 1)
      case SendAbort => Scan(if ok(i) then Marked(w, r, now) else w, i + 1, now, ok)
  }

  /** The sweep as the loop it is. */
  method ScanQueue(start: World, now: nat, ok: nat -> bool) returns (w: World)
    ensures w == Scan(start, 0, now, ok)
  {
    w := start;
    var i := 0;
    while i < |w.table|
      invariant Scan(w, i, now, ok) == Scan(start, 0, now, ok)
      decreases |w.table| - i
    {
      if w.table[i].Some? && w.table[i].value in w.reqs {
        var r := w.table[i].value;
        match Judge(w.reqs[r], now)
        case Leave =>
        case Escalate =>
          w := w.(escalations := w.escalations + 1);
          return;
        case SendAbort =>
          if ok(i) { w := Marked(w, r, now); }
      }
      i := i + 1;
    }
  }

  // ---------------------------------------------------------- one Abort each

  /** What the rest of the driver may do between sweeps: create requests, move
      them in and out of the table, stamp resubmissions; never touch the Abort
      mark or the AER flag. */
  datatype Event =
    | Sweep(now: nat, ok: nat -> bool)
    | Create(r: nat, submitUs: nat, isIo: bool, opcode: nat, aer: bool)
    | Resubmit(r: nat, us: nat)
    | Retable(table: seq<Option<nat>>)

  function Step(w: World, e: Event): World {
    match e
    case Sweep(now, ok) => Scan(w, 0, now, ok)
    case Create(r, us, isIo, op, aer) =>
      if r in w.reqs then w else w.(reqs := w.reqs[r := Req(us, isIo, op, aer, false, 0)])
    case Resubmit(r, us) => if r in w.reqs then w.(reqs := w.reqs[r := w.reqs[r].(submitUs := us)]) else w
    case Retable(t) => w.(table := t)
  }

  function Run(w: World, es: seq<Event>): World
    decreases |es|
  {
    if es == [] then w else Run(Step(w, es[0]), es[1..])
  }

  /** The Aborts sent are exactly the marks, and no AER is marked. */
  ghost predicate MarksOk(w: World) {
    && (forall r: nat :: multiset(w.sent)[r] == if r in w.reqs && w.reqs[r].abortSent then 1 else 0)
    && (forall r :: r in w.reqs && w.reqs[r].aer ==> !w.reqs[r].abortSent)
  }

  lemma {:induction false} ScanMarks(w: World, i: nat, now: nat, ok: nat -> bool)
    requires MarksOk(w)
    ensures MarksOk(Scan(w, i, now, ok))
    decreases |w.table| - i
  {
    if i < |w.table| {
      if w.table[i].None? || w.table[i].value !in w.reqs {
        ScanMarks(w, i + 1, now, ok);
      } else {
        var r := w.table[i].value;
        match Judge(w.reqs[r], now)
        case Leave => ScanMarks(w, i + 1, now, ok);
        case Escalate =>
        case SendAbort =>
          MarkedMarks(w, r, now);
          ScanMarks(if ok(i) then Marked(w, r, now) else w, i + 1, now, ok);
      }
    }
  }

  lemma MarkedMarks(w: World, r: nat, now: nat)
    requires MarksOk(w) && r in w.reqs && !w.reqs[r].abortSent && !w.reqs[r].aer
    ensures MarksOk(Marked(w, r, now))
  {
    assert multiset(w.sent + [r]) == multiset(w.sent) + multiset{r};
  }

  lemma {:induction false} RunMarks(w: World, es: seq<Event>)
    requires MarksOk(w)
    ensures MarksOk(Run(w, es))
    decreases |es|
  {
    if es != [] {
      StepMarks(w, es[0]);
      RunMarks(Step(w, es[0]), es[1..]);
    }
  }

  lemma StepMarks(w: World, e: Event)
    requires MarksOk(w)
    ensures MarksOk(Step(w, e))
  {
    if e.Sweep? { ScanMarks(w, 0, e.now, e.ok); }
  }

  /** Over any history the watchdog sends at most one Abort per request lifetime
      and none for an Asynchronous Event Request. */
  lemma AbortOnce(es: seq<Event>, r: nat)
    ensures var w := Run(World(map[], [], [], 0), es);
            && multiset(w.sent)[r] <= 1
            && (r in w.reqs && w.reqs[r].aer ==> multiset(w.sent)[r] == 0)
  {
    RunMarks(World(map[], [], [], 0), es);
    hide Run;
  }

  // ------------------------------------------------- what a sweep escalates

  /** Slot `i` holds a request the sweep gives up on: an Abort past its limit, or
      a request whose mark is past its grace. */
  ghost predicate Wedged(w: World, i: nat, now: nat) {
    && i < |w.table| && w.table[i].Some? && w.table[i].value in w.reqs
    && var q := w.reqs[w.table[i].value];
    && q.submitUs != 0 && !q.aer
    && if q.abortSent then ElapsedMs(now, q.abortUs) >= 15_000
       else q.opcode == 0x08 && Overdue(q, now)
  }

  /** Past its limit: 30 s for I/O, 60 s for an admin command. */
  predicate Overdue(q: Req, now: nat) { ElapsedMs(now, q.submitUs) >= if q.isIo then 30_000 else 60_000 }

  /** The same in microseconds. */
  function AllowedUs(q: Req): nat { if q.isIo then 30_000_000 else 60_000_000 }

  /** The clock is a 32-bit counter of microseconds; a wrap does not disturb the
      time between two readings less than 2^32 apart. */
  lemma ElapsedAcrossWrap(t: nat, e: nat)
    requires e < U32
    ensures ElapsedMs((t + e) % U32, t % U32) == e / 1000
  {
    var a, b := (t + e) % U32, t % U32;
    var p, q := (t + e) / U32, t / U32;
    assert t + e == p * U32 + a && t == q * U32 + b;
    assert a - b == e + (q - p) * U32;
  }

  /** A mark set now leaves the other verdicts, and is never grounds itself. */
  lemma MarkedWedged(w: World, r: nat, now: nat, i: nat)
    requires r in w.reqs && Judge(w.reqs[r], now) == SendAbort
    ensures Wedged(Marked(w, r, now), i, now) <==> Wedged(w, i, now)
  {
  }

  /** From slot `i` on: one escalation if some slot is wedged, none otherwise. */
  lemma {:induction false} ScanEscalates(w: World, i: nat, now: nat, ok: nat -> bool)
    ensures Scan(w, i, now, ok).escalations
            == w.escalations + if exists k :: i <= k && Wedged(w, k, now) then 1 else 0
    decreases |w.table| - i
  {
    hide Wedged;
    if i >= |w.table| {
      NoneBeyond(w, i, now);
    } else if w.table[i].None? || w.table[i].value !in w.reqs {
      HereWedged(w, i, now);
      ScanEscalates(w, i + 1, now, ok);
    } else {
      var r := w.table[i].value;
      var judged := Judge(w.reqs[r], now);
      HereWedged(w, i, now);
      if judged != Escalate {
        var w1 := if judged == SendAbort && ok(i) then Marked(w, r, now) else w;
        assert Scan(w, i, now, ok) == Scan(w1, i + 1, now, ok);
        ScanEscalates(w1, i + 1, now, ok);
        forall k: nat ensures Wedged(w1, k, now) <==> Wedged(w, k, now) {
          if judged == SendAbort && ok(i) { MarkedWedged(w, r, now, k); }
        }
      }
    }
  }

  lemma NoneBeyond(w: World, i: nat, now: nat)
    requires i >= |w.table|
    ensures forall k :: i <= k ==> !Wedged(w, k, now)
  {
  }

  lemma HereWedged(w: World, i: nat, now: nat)
    requires i < |w.table|
    ensures Wedged(w, i, now) <==>
              w.table[i].Some? && w.table[i].value in w.reqs && Judge(w.reqs[w.table[i].value], now) == Escalate
  {
  }

  /** A sweep escalates exactly when some slot is wedged, and then once. */
  lemma SweepEscalatesIff(w: World, now: nat, ok: nat -> bool)
    ensures Scan(w, 0, now, ok).escalations > w.escalations <==> exists k: nat :: Wedged(w, k, now)
    ensures Scan(w, 0, now, ok).escalations <= w.escalations + 1
  {
    ScanEscalates(w, 0, now, ok);
    hide Wedged, Scan;
  }

  /** Slot `k` is request `r`'s cue for an Abort: overdue, and it can be submitted. */
  ghost predicate Cue(w: World, k: nat, now: nat, ok: nat -> bool, r: nat)
    requires r in w.reqs
  {
    && k < |w.table| && w.table[k] == Some(r) && ok(k)
    && w.reqs[r].submitUs != 0 && !w.reqs[r].aer && w.reqs[r].opcode != 0x08 && Overdue(w.reqs[r], now)
  }

  /** No slot from `i` to `k` ends the sweep. */
  ghost predicate Clear(w: World, i: nat, k: nat, now: nat) {
    forall j: nat :: i <= j < k ==> !Wedged(w, j, now)
  }

  /** An unmarked request gets its Abort exactly when the sweep reaches a slot that
      is its cue; the mark carries the time of the sweep. */
  lemma {:induction false} ScanMarksIff(w: World, i: nat, now: nat, ok: nat -> bool, r: nat)
    requires r in w.reqs && !w.reqs[r].abortSent
    ensures var q := Scan(w, i, now, ok).reqs[r];
            && (q.abortSent <==> exists k: nat :: i <= k && Cue(w, k, now, ok, r) && Clear(w, i, k, now))
            && (q.abortSent ==> q.abortUs == now)
    decreases |w.table| - i
  {
    ScanSweeps(w, i, now, ok, r);
    if i < |w.table| {
      HereWedged(w, i, now);
      var x := w.table[i];
      if x.Some? && x.value in w.reqs && Judge(w.reqs[x.value], now) == Escalate {
        assert forall k: nat :: i < k ==> !Clear(w, i, k, now);
        assert !Cue(w, i, now, ok, r);
      } else if Cue(w, i, now, ok, r) {
        assert Clear(w, i, i, now);
        MarkStays(Marked(w, r, now), i + 1, now, ok, r);
      } else {
        var sent := x.Some? && x.value in w.reqs && Judge(w.reqs[x.value], now) == SendAbort && ok(i);
        var w1 := if sent then Marked(w, x.value, now) else w;
        assert Scan(w, i, now, ok) == Scan(w1, i + 1, now, ok);
        ScanMarksIff(w1, i + 1, now, ok, r);
        forall k: nat ensures Wedged(w1, k, now) <==> Wedged(w, k, now) {
          if sent { MarkedWedged(w, x.value, now, k); }
        }
        hide Wedged, Scan;
        CueNext(w, w1, i, now, ok, r);
      }
    }
  }

  lemma MarkStays(w: World, i: nat, now: nat, ok: nat -> bool, r: nat)
    requires r in w.reqs && w.reqs[r].abortSent
    ensures Scan(w, i, now, ok).reqs[r] == w.reqs[r]
  {
    ScanSweeps(w, i, now, ok, r);
  }

  lemma CueNext(w: World, w1: World, i: nat, now: nat, ok: nat -> bool, r: nat)
    requires r in w.reqs && r in w1.reqs && w1.reqs[r] == w.reqs[r] && w1.table == w.table
    requires !Wedged(w, i, now) && !Cue(w, i, now, ok, r)
    requires forall k: nat :: Wedged(w1, k, now) <==> Wedged(w, k, now)
    ensures (exists k: nat :: i <= k && Cue(w, k, now, ok, r) && Clear(w, i, k, now)) <==>
              exists k: nat :: i + 1 <= k && Cue(w1, k, now, ok, r) && Clear(w1, i + 1, k, now)
  {
    forall k: nat ensures Cue(w1, k, now, ok, r) <==> Cue(w, k, now, ok, r) {}
    hide Wedged;
    forall k: nat | i + 1 <= k ensures Clear(w1, i + 1, k, now) <==> Clear(w, i, k, now) {}
    hide Cue;
  }

  /** The mark outlives the attempt it was set for: a request resubmitted a moment
      ago is given up on if its Abort is 15 s old, however little of its own time
      it has used. */
  lemma StaleMark(w: World, i: nat, r: nat, now: nat, ok: nat -> bool)
    requires i < |w.table| && w.table[i] == Some(r) && r in w.reqs && !w.reqs[r].aer && now != 0
    requires w.reqs[r].abortSent && ElapsedMs(now, w.reqs[r].abortUs) >= 15_000
    ensures var w1 := Step(w, Resubmit(r, now));
            && r in w1.reqs && ElapsedMs(now, w1.reqs[r].submitUs) == 0
            && Step(w1, Sweep(now, ok)).escalations == w.escalations + 1
  {
    var w1 := Step(w, Resubmit(r, now));
    assert Wedged(w1, i, now);
    ScanEscalates(w1, 0, now, ok);
    hide Wedged, Scan;
  }

  // ------------------------------------------------------ bounded escalation

  /** What a sweep leaves of a request: the same, or marked now. */
  ghost predicate Swept(q: Req, q': Req, now: nat) {
    q' == q || (!q.abortSent && q' == q.(abortSent := true, abortUs := now))
  }

  lemma {:induction false} ScanSweeps(w: World, i: nat, now: nat, ok: nat -> bool, r: nat)
    requires r in w.reqs
    ensures Swept(w.reqs[r], Scan(w, i, now, ok).reqs[r], now)
    decreases |w.table| - i
  {
    if i < |w.table| {
      if w.table[i].None? || w.table[i].value !in w.reqs {
        ScanSweeps(w, i + 1, now, ok, r);
      } else {
        var x := w.table[i].value;
        match Judge(w.reqs[x], now)
        case Leave => ScanSweeps(w, i + 1, now, ok, r);
        case Escalate =>
        case SendAbort => ScanSweeps(if ok(i) then Marked(w, x, now) else w, i + 1, now, ok, r);
      }
    }
  }

  /** A sweep that raises no escalation has dealt with every entry: an overdue
      one is marked, and no mark has outlived its grace. */
  lemma {:induction false} QuietScan(w: World, i: nat, now: nat, ok: nat -> bool, r: nat, at: nat)
    requires i <= at < |w.table| && w.table[at] == Some(r) && r in w.reqs && ok(at)
    requires w.reqs[r].submitUs != 0 && !w.reqs[r].aer && w.reqs[r].opcode != 0x08
    requires Scan(w, i, now, ok).escalations == w.escalations
    ensures var q := Scan(w, i, now, ok).reqs[r];
            && (Overdue(w.reqs[r], now) ==> q.abortSent)
            && (w.reqs[r].abortSent ==> ElapsedMs(now, w.reqs[r].abortUs) < 15_000)
    decreases at - i
  {
    var x := w.table[i];
    if x.None? || x.value !in w.reqs {
      QuietScan(w, i + 1, now, ok, r, at);
    } else {
      var judged := Judge(w.reqs[x.value], now);
      assert judged != Escalate;
      var w1 := if judged == SendAbort && ok(i) then Marked(w, x.value, now) else w;
      assert Scan(w, i, now, ok) == Scan(w1, i + 1, now, ok);
      if i == at {
        ScanSweeps(w1, i + 1, now, ok, r);
      } else {
        QuietScan(w1, i + 1, now, ok, r, at);
      }
    }
  }

  /** A history around request `r`: `ws[k]` is the world before the tick at
      `times[k]`; in between anything happens that leaves `r` in the table and
      its record alone. */
  datatype Trace = Trace(ws: seq<World>, times: seq<nat>, r: nat, gap: nat)

  ghost predicate InTable(w: World, r: nat) { r in w.reqs && exists i :: 0 <= i < |w.table| && w.table[i] == Some(r) }

  const always: nat -> bool := _ => true

  function After(t: Trace, k: nat): World
    requires k < |t.ws| == |t.times|
  {
    Scan(t.ws[k], 0, t.times[k], always)
  }

  ghost predicate Left(t: Trace, k: nat)
    requires k < |t.ws| == |t.times|
  {
    InTable(t.ws[k], t.r)
    && (k + 1 < |t.ws| ==> t.r in t.ws[k + 1].reqs && t.ws[k + 1].reqs[t.r] == After(t, k).reqs[t.r])
  }

  ghost predicate Timed(t: Trace) {
    && (forall k :: 0 <= k < |t.times| ==> t.times[k] < U32)
    && (forall k :: 0 <= k < |t.times| - 1 ==> t.times[k] <= t.times[k + 1] <= t.times[k] + t.gap)
  }

  ghost predicate Stuck(t: Trace, s: nat) {
    && 0 < |t.ws| == |t.times| && Timed(t) && (forall k :: 0 <= k < |t.ws| ==> Left(t, k))
    && t.r in t.ws[0].reqs
    && var q := t.ws[0].reqs[t.r];
    && q.submitUs == s && 0 < s <= t.times[0] && !q.aer && q.opcode != 0x08
    && (q.abortSent ==> q.abortUs <= t.times[0])
  }

  /** The tick escalates, for this request or an earlier entry. */
  ghost predicate Escalates(t: Trace, k: nat)
    requires k < |t.ws| == |t.times|
  {
    After(t, k).escalations > t.ws[k].escalations
  }

  /** The request's record before each tick: only the mark can have changed, and
      a mark carries the time of a past tick. */
  lemma {:induction false} RecordKept(t: Trace, s: nat, k: nat)
    requires Stuck(t, s) && k < |t.ws|
    ensures t.r in t.ws[k].reqs
    ensures var q, q0 := t.ws[k].reqs[t.r], t.ws[0].reqs[t.r];
            && q.submitUs == s && !q.aer && q.opcode != 0x08 && q.isIo == q0.isIo
            && (q.abortSent ==> q.abortUs <= t.times[k]) && s <= t.times[k]
  {
    if k > 0 {
      RecordKept(t, s, k - 1);
      assert Left(t, k - 1);
      ScanSweeps(t.ws[k - 1], 0, t.times[k - 1], always, t.r);
    }
  }

  /** Once set, the mark and its time stay. */
  lemma {:induction false} MarkKept(t: Trace, s: nat, a: nat, k: nat)
    requires Stuck(t, s) && a <= k < |t.ws| && t.r in t.ws[a].reqs && t.ws[a].reqs[t.r].abortSent
    ensures t.r in t.ws[k].reqs && t.ws[k].reqs[t.r].abortSent && t.ws[k].reqs[t.r].abortUs == t.ws[a].reqs[t.r].abortUs
    decreases k
  {
    if a < k {
      MarkKept(t, s, a, k - 1);
      assert Left(t, k - 1);
      ScanSweeps(t.ws[k - 1], 0, t.times[k - 1], always, t.r);
    }
  }

  lemma QuietTick(t: Trace, s: nat, k: nat)
    requires Stuck(t, s) && k < |t.ws| && !Escalates(t, k)
    ensures t.r in t.ws[k].reqs
    ensures var q, q' := t.ws[k].reqs[t.r], After(t, k).reqs[t.r];
            && (t.times[k] >= s + AllowedUs(q) ==> q'.abortSent)
            && (q.abortSent ==> q' == q && t.times[k] < q.abortUs + 15_000_000)
            && (!q.abortSent && q'.abortSent ==> q'.abortUs == t.times[k])
  {
    RecordKept(t, s, k);
    assert Left(t, k);
    var w := t.ws[k];
    var i :| 0 <= i < |w.table| && w.table[i] == Some(t.r);
    QuietScan(w, 0, t.times[k], always, t.r, i);
    ScanSweeps(w, 0, t.times[k], always, t.r);
  }

  /** Some tick falls within one gap after `x`. */
  lemma {:induction false} TickNear(t: Trace, a: nat, x: nat) returns (k: nat)
    requires 0 < |t.times| && Timed(t) && a < |t.times|
    requires t.times[a] <= x + t.gap && x <= t.times[|t.times| - 1]
    ensures a <= k < |t.times| && x <= t.times[k] <= x + t.gap
    decreases |t.times| - a
  {
    if t.times[a] >= x { k := a; } else { k := TickNear(t, a + 1, x); }
  }

  /** A request other than an AER or an Abort that stays in the table, with Aborts
      submittable, ticks at most `gap` apart and no wrap of the clock, leads to an
      escalation within its limit plus 15 s plus two tick gaps of its
      submission. */
  lemma EscalatesInTime(t: Trace, s: nat) returns (k: nat)
    requires Stuck(t, s)
    requires t.times[0] <= s + AllowedUs(t.ws[0].reqs[t.r]) + t.gap
    requires t.times[|t.times| - 1] >= s + AllowedUs(t.ws[0].reqs[t.r]) + 15_000_000 + t.gap
    ensures k < |t.ws| == |t.times| && Escalates(t, k)
    ensures t.times[k] <= s + AllowedUs(t.ws[0].reqs[t.r]) + 15_000_000 + 2 * t.gap
  {
    var due := s + AllowedUs(t.ws[0].reqs[t.r]);
    var a := TickNear(t, 0, due);
    k := a;
    if !Escalates(t, a) {
      RecordKept(t, s, a);
      QuietTick(t, s, a);
      assert Left(t, a);
      var since := After(t, a).reqs[t.r].abortUs;
      assert since <= t.times[a] < since + 15_000_000;
      k := TickNear(t, a, since + 15_000_000);
      MarkKept(t, s, a + 1, k);
      if !Escalates(t, k) { QuietTick(t, s, k); }
    }
  }
}
