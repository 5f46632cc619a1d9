/** The Command Retry Delay: who waits on the retry list, how long, and what a
    watchdog tick takes off it. */
module IoRetry {
  import opened Base
  import opened Tags
  import opened IoCore
  import opened IoBook
  import opened IoPath

  const HALF: nat := 0x8000_0000

  /** A resubmission never parks its request again: without a free tag it ends in
      a host path error, whose retry delay selector is 0, and retries at once
      until the attempts are used up.  So the tick's walk over the live list sees
      only the entries that were there when it began. */
  lemma {:induction false} ResubmitNeverParks(cfg: Config, env: Env, s: State, r: nat)
    requires Handling(cfg, s, r) && r in s.core.reqs && Writes(s.core.sq, r) <= s.core.reqs[r].retries
    ensures Resubmit(cfg, env, s, r).core.retryList == s.core.retryList
    decreases 5 - s.core.reqs[r].retries
  {
    HandlingCore(cfg, s, r);
    HandlingHas(cfg, s, r);
    hide Handling, Rest, Inv, CoreOk, Settled, Nudged, EndReq, BookOk;
    if |s.core.pool.free| == 0 {
      SetStatusInv(cfg, s, r, SC_HOST_PATH_ERROR, false);
      var s1 := s.(core := SetStatus(s.core, r, SC_HOST_PATH_ERROR, false));
      assert Resubmit(cfg, env, s, r) == Complete(cfg, env, s1, r);
      assert s1.core.retryList == s.core.retryList && Writes(s1.core.sq, r) == Writes(s.core.sq, r);
      hide Resubmit;
      FailedTag(cfg, env, s1, r);
    }
  }

  lemma {:induction false} FailedTag(cfg: Config, env: Env, s: State, r: nat)
    requires r in s.core.reqs && s.core.reqs[r].status == SC_HOST_PATH_ERROR && Handling(cfg, s, r)
    ensures Complete(cfg, env, s, r).core.retryList == s.core.retryList
    decreases 5 - s.core.reqs[r].retries, 1
  {
    hide Inv, Rest, Settled, EndReq, Retry;
    assert Crd(SC_HOST_PATH_ERROR) == 0;
    if RetryWorthy(s.core.reqs[r]) {
      HandlingHas(cfg, s, r);
      BumpInv(cfg, s, r);
      hide Handling, Crd, Nudged, Resubmit, CfgOk;
      RetryNow(cfg, env, s, r);
      ResubmitNeverParks(cfg, env, s.(core := Bump(s.core, r)), r);
    } else {
      assert Inv(cfg, s, Some(r), None, None, {}) && r in s.book.parents;
    }
  }

  lemma RetryNow(cfg: Config, env: Env, s: State, r: nat)
    requires r in s.core.reqs && Crd(s.core.reqs[r].status) == 0 && s.core.reqs[r].retries < MAX_RETRIES
    requires Handling(cfg, s, r) && Handling(cfg, s.(core := Bump(s.core, r)), r)
    requires Writes(s.core.sq, r) <= Bump(s.core, r).reqs[r].retries
    ensures Retry(cfg, env, s, r) == Resubmit(cfg, env, s.(core := Bump(s.core, r)), r)
  {
    hide Handling, Inv, Rest, Settled, Resubmit, Nudged;
  }

  /** Disposition by the fields of the 15-bit status: a failed command is retried
      unless Do Not Retry is set, it was cancelled, its attempts are used up, or
      it failed with a generic status, which the same command would get again.
      Invalid namespace is TDERR_BadUnitNum, capacity exceeded and LBA out of range
      are IOERR_BADADDRESS, every other error TDERR_NotSpecified. */
  lemma DispositionFields(q: Req, dnr: bool, more: bool, crd: nat, sct: nat, sc: nat)
    requires crd < 4 && sct < 8 && sc < 256
    requires q.status == (if dnr then 0x4000 else 0) + (if more then 0x2000 else 0) + crd * 0x800 + sct * 0x100 + sc
    ensures Crd(q.status) == crd && SctSc(q.status) == sct * 0x100 + sc
    ensures RetryWorthy(q) <==>
              q.status != 0 && !dnr && !q.cancelled && q.retries < 5 && (sct != 0 || sc == 0)
    ensures ErrorStatus(q.status) == if sct == 0 && sc == 0 then 0
                                     else if sct == 0 && sc == 0x0B then 32
                                     else if sct == 0 && (sc == 0x80 || sc == 0x81) then -5
                                     else 20
  {
    var hi := (if dnr then 8 else 0) + (if more then 4 else 0) + crd;
    LowFields(q.status, hi, sct, sc);
    HighFields(q.status, hi);
  }

  lemma LowFields(s: nat, hi: nat, sct: nat, sc: nat)
    requires sct < 8 && sc < 256 && s == hi * 0x800 + sct * 0x100 + sc
    ensures s % 0x100 == sc && s / 0x100 % 8 == sct && s % 0x800 == sct * 0x100 + sc && s / 0x800 == hi
  {
    assert s / 0x100 == hi * 8 + sct;
  }

  lemma HighFields(s: nat, hi: nat)
    requires s / 0x800 == hi && hi < 16
    ensures s / 0x4000 % 2 == if hi >= 8 then 1 else 0
  {
    assert s / 0x4000 == hi / 8;
  }

  lemma {:induction false} TickTakes(cfg: Config, env: Env, s: State, now: nat, todo: seq<nat>, x: nat)
    requires Rest(cfg, s) && Parked(s, todo)
    requires x in s.core.retryList ==> x in s.core.reqs
    ensures x in TickRetries(cfg, env, s, now, todo).core.retryList <==>
              x in s.core.retryList && (x in todo ==> !Due(now, s.core.reqs[x].deadline))
    decreases |todo|
  {
    hide Rest, Resubmit, Handling, Settled, Due, Parked, Unpark;
    if todo != [] {
      var r := todo[0];
      assert todo == [r] + todo[1..];
      ParkedReq(cfg, s, todo);
      TodoUnique(s, todo);
      if !Due(now, s.core.reqs[r].deadline) {
        TickTakes(cfg, env, s, now, todo[1..], x);
      } else {
        UnparkInv(cfg, s, r);
        var s1 := s.(core := Unpark(s.core, r));
        var s2 := Resubmit(cfg, env, s1, r);
        TodoLeft(cfg, s, todo, s2);
        ResubmitNeverParks(cfg, env, s1, r);
        SparedOthers(cfg, s, r, s2, x);
        TickTakes(cfg, env, s2, now, todo[1..], x);
      }
    }
  }

  lemma TodoUnique(s: State, todo: seq<nat>)
    requires Parked(s, todo) && todo != []
    ensures todo[0] !in todo[1..]
  {
  }

  lemma SparedOthers(cfg: Config, s: State, r: nat, s2: State, x: nat)
    requires Settled(cfg, s.(core := Unpark(s.core, r)), r, s2) && s2.core.retryList == Unpark(s.core, r).retryList
    ensures x in s2.core.retryList <==> x in s.core.retryList && x != r
    ensures x in s2.core.retryList && x in s.core.reqs ==> x in s2.core.reqs && s2.core.reqs[x] == s.core.reqs[x]
  {
    hide Rest;
  }

  /** A tick takes off the retry list exactly the requests whose deadline has
      passed, and every one of them. */
  lemma TickTakesDue(cfg: Config, env: Env, s: State, now: nat, x: nat)
    requires Rest(cfg, s)
    ensures x in s.core.retryList ==> x in s.core.reqs
    ensures x in Tick(cfg, env, s, now).core.retryList <==> x in s.core.retryList && !Due(now, s.core.reqs[x].deadline)
  {
    RetryNoDup(cfg, s);
    if x in s.core.retryList { ListedLive(cfg, s, x); }
    hide Rest, Due, Parked, TickRetries;
    TickTakes(cfg, env, s, now, s.core.retryList, x);
  }

  lemma ListedLive(cfg: Config, s: State, x: nat)
    requires Rest(cfg, s) && x in s.core.retryList
    ensures x in s.core.reqs
  {
    hide BookOk, CoreOk;
    RetryListed(s.core, x);
  }

  // ------------------------------------------------------------- the delay

  /** The 32-bit comparison at `t + e` microseconds for a deadline set at `t`. */
  predicate DueAfter(t: nat, delay: nat, e: nat) { Due((t + e) % U32, (t + delay) % U32) }

  lemma DueDiff(t: nat, delay: nat, e: nat)
    ensures DueAfter(t, delay, e) <==> (e - delay) % U32 < HALF
  {
    var a, b := (t + e) % U32, (t + delay) % U32;
    var p, q := (t + e) / U32, (t + delay) / U32;
    assert t + e == p * U32 + a && t + delay == q * U32 + b;
    assert e - delay == (p - q) * U32 + (a - b);
    ShiftMod(a - b, p - q);
  }

  lemma ShiftMod(x: int, k: int)
    ensures (k * U32 + x) % U32 == x % U32
  {
  }

  /** A retry delay is honoured (never due early) exactly when it is at most 2^31
      microseconds; longer ones fall to the signed 32-bit comparison. */
  lemma DelayHonouredIff(t: nat, delay: nat)
    ensures (forall e: nat :: e < delay ==> !DueAfter(t, delay, e)) <==> delay <= HALF
  {
    if delay <= HALF {
      forall e: nat | e < delay ensures !DueAfter(t, delay, e) { DueDiff(t, delay, e); }
    } else {
      var e := if delay < U32 then 0 else delay % U32;
      DueDiff(t, delay, e);
      if delay >= U32 { ShiftMod(0, -(delay / U32)); }
      assert e < delay && DueAfter(t, delay, e);
    }
  }

  /** A concrete delay cut short: CRDT 21475 asks for 2147.5 s, and the request is
      due at once. */
  lemma CrdtTooLong(t: nat)
    ensures 21475 * 100 * 1000 > HALF && DueAfter(t, 21475 * 100 * 1000, 0)
  {
    DueDiff(t, 21475 * 100 * 1000, 0);
  }

  /** Once due, a request stays due for the next 2^31 microseconds. */
  lemma DueStays(t: nat, delay: nat, e: nat)
    requires delay <= e < delay + HALF
    ensures DueAfter(t, delay, e)
  {
    DueDiff(t, delay, e);
  }

  /** The delay nvme_retry_req asks for, in microseconds. */
  function CrdtDelay(cfg: Config, status: nat): nat
    requires CfgOk(cfg) && Crd(status) != 0
  {
    cfg.crdt[Crd(status) - 1] * 100 * 1000
  }

  /** A completion that is retried with a CRD hint: the request waits on the list,
      no tick before its delay has passed resubmits it, and any tick in the 2^31
      microseconds after does, for every CRDT up to 21474 (35 minutes). */
  lemma RetryWaits(cfg: Config, env: Env, s: State, r: nat, e: nat)
    requires r in s.core.reqs && RetryWorthy(s.core.reqs[r]) && Crd(s.core.reqs[r].status) != 0
    requires Handling(cfg, s, r) && CfgOk(cfg)
    requires var delay := CrdtDelay(cfg, s.core.reqs[r].status); delay <= HALF && e < delay + HALF
    ensures var s' := Complete(cfg, env, s, r);
            && Rest(cfg, s') && s'.core.retryList == s.core.retryList + [r]
            && (r in Tick(cfg, env, s', (env.now(s.core.clock) + e) % U32).core.retryList <==>
                  e < CrdtDelay(cfg, s.core.reqs[r].status))
  {
    hide Handling, Rest, Inv, Settled, Tick, CfgOk;
    var delay := CrdtDelay(cfg, s.core.reqs[r].status);
    var t := env.now(s.core.clock);
    var s' := Complete(cfg, env, s, r);
    SettledRest(cfg, s, r, s');
    RetryParks(cfg, env, s, r);
    hide Complete, CrdtDelay, RetryWorthy, Crd;
    TickTakesDue(cfg, env, s', (t + e) % U32, r);
    DueDiff(t, delay, e);
    Window(e, delay);
  }

  lemma RetryParks(cfg: Config, env: Env, s: State, r: nat)
    requires r in s.core.reqs && RetryWorthy(s.core.reqs[r]) && Crd(s.core.reqs[r].status) != 0
    requires Handling(cfg, s, r) && CfgOk(cfg)
    ensures var s' := Complete(cfg, env, s, r);
            && s'.core.retryList == s.core.retryList + [r] && r in s'.core.reqs
            && s'.core.reqs[r].deadline == (env.now(s.core.clock) + CrdtDelay(cfg, s.core.reqs[r].status)) % U32
  {
    hide Handling, Rest, Inv, Settled;
    assert Complete(cfg, env, s, r) == Retry(cfg, env, s, r);
    hide Complete;
  }

  lemma Window(e: nat, delay: nat)
    requires delay <= HALF && e < delay + HALF
    ensures (e - delay) % U32 < HALF <==> e >= delay
  {
  }

  lemma SettledRest(cfg: Config, s: State, r: nat, s': State)
    requires Settled(cfg, s, r, s')
    ensures Rest(cfg, s')
  {
    hide Rest;
  }
}
