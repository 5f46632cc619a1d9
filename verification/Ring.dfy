/** The submission/completion ring pair as a host/device transition system.

    The host never reads the SQ head.  It takes its own `cq_head`, published only
    at the end of a drain pass, as the full test, and finds fresh completions by
    their phase bit alone.  The device fetches what the tail doorbell has
    published and posts one completion per fetched command, in any order
    (sections 4.1.2 and 4.6 of NVM Express 1.4).  `subs`, `published`, `fetched`,
    `posts`, `taken` and `freed` are history. */
module Ring {
  import opened Arith

  datatype Cqe = Cqe(cmd: nat, phase: bool)

  /** The locals of drain_cq while it runs. */
  datatype Pass = Idle | Draining(head: nat, phase: bool, drained: nat)

  /** Host fields, doorbells, device fields, then history.  `subs`, `posts` and
      `taken` list the commands submitted, completed by the device, and consumed
      by the host; `freed` counts the completions behind the published head. */
  datatype Ring = Ring(sq: seq<nat>, cq: seq<Cqe>, sqTail: nat, lastSqTail: nat, cqHead: nat, cqPhase: bool,
                       batch: nat, pass: Pass,
                       sqDb: nat, cqDb: nat, devHead: nat, devTail: nat, devPhase: bool,
                       subs: seq<nat>, published: nat, fetched: nat, posts: seq<nat>, taken: seq<nat>, freed: nat)

  function Depth(r: Ring): nat { |r.sq| }

  // -------------------------------------------------------------- ring indices

  function Slot(j: nat, d: nat): (s: nat)
    requires d > 0
    ensures s < d
  {
    j % d
  }

  /** The phase of lap `j / d`; the first lap has phase 1. */
  function Lap(j: nat, d: nat): bool
    requires d > 0
  {
    j / d % 2 == 0
  }

  lemma SlotStep(j: nat, d: nat)
    requires d > 0
    ensures Slot(j + 1, d) == (Slot(j, d) + 1) % d
    ensures Slot(j + 1, d) == if Slot(j, d) + 1 == d then 0 else Slot(j, d) + 1
    ensures Lap(j + 1, d) == if Slot(j, d) + 1 == d then !Lap(j, d) else Lap(j, d)
  {
    var q, m := j / d, j % d;
    assert j == q * d + m;
    NextMod(m, d);
    if m + 1 == d {
      assert (q + 1) * d == q * d + d;
      DivMod(j + 1, d, q + 1, 0);
    } else {
      DivMod(j + 1, d, q, m + 1);
    }
  }

  lemma NextMod(m: nat, d: nat)
    requires m < d
    ensures (m + 1) % d == if m + 1 == d then 0 else m + 1
  {
    if m + 1 == d { DivMod(d, d, 1, 0); } else { DivMod(m + 1, d, 0, m + 1); }
  }

  lemma DivMod(a: nat, d: nat, q: nat, m: nat)
    requires d > 0 && m < d && a == q * d + m
    ensures a / d == q && a % d == m
  {
    DivUnique(a, d, q, m);
    assert a == a / d * d + a % d;
  }

  lemma SlotLapBack(j: nat, d: nat)
    requires d > 0
    ensures Slot(j + d, d) == Slot(j, d) && Lap(j + d, d) == !Lap(j, d)
  {
    var q, m := j / d, j % d;
    assert j == q * d + m;
    assert (q + 1) * d == q * d + d;
    DivMod(j + d, d, q + 1, m);
  }

  /** Within one lap equal slots mean equal positions. */
  lemma SlotApart(i: nat, j: nat, d: nat)
    requires d > 0 && i <= j < i + d
    ensures Slot(i, d) == Slot(j, d) <==> i == j
  {
    var p, q := i / d, j / d;
    assert i == p * d + i % d && j == q * d + j % d;
    MulGap(p, q, d);
    MulGap(q, p, d);
  }

  lemma FirstLap(j: nat, d: nat)
    requires j < d
    ensures Slot(j, d) == j && Lap(j, d)
  {
    DivMod(j, d, 0, j);
  }

  // ---------------------------------------------------------------- invariant

  ghost predicate Shape(r: Ring) {
    && 2 <= Depth(r) <= 256 && |r.cq| == Depth(r)
    && r.sqTail < Depth(r) && r.devHead < Depth(r) && r.devTail < Depth(r)
    && (r.pass.Draining? ==> r.pass.head < Depth(r))
  }

  /** consumed <= drained <= posted <= fetched <= published <= submitted, and the
      whole span fits the ring less one. */
  predicate Ordered(r: Ring) {
    r.freed <= |r.taken| <= |r.posts| <= r.fetched <= r.published <= |r.subs| < r.freed + Depth(r)
  }

  /** Every ring index is its counter modulo the depth. */
  ghost predicate Indexed(r: Ring)
    requires Depth(r) > 0
  {
    var d := Depth(r);
    && r.sqTail == Slot(|r.subs|, d)
    && r.lastSqTail == r.sqDb == Slot(r.published, d)
    && r.devHead == Slot(r.fetched, d)
    && r.devTail == Slot(|r.posts|, d) && r.devPhase == Lap(|r.posts|, d)
    && r.cqHead == r.cqDb == Slot(r.freed, d) && r.cqPhase == Lap(r.freed, d)
  }

  ghost predicate PassOk(r: Ring)
    requires Depth(r) > 0
  {
    match r.pass
    case Idle => |r.taken| == r.freed
    case Draining(head, phase, drained) =>
      head == Slot(|r.taken|, Depth(r)) && phase == Lap(|r.taken|, Depth(r)) && |r.taken| == r.freed + drained
  }

  /** Unfetched SQEs are intact. */
  ghost predicate SqIntact(r: Ring)
    requires Depth(r) > 0
  {
    forall j :: r.fetched <= j < |r.subs| ==> r.sq[Slot(j, Depth(r))] == r.subs[j]
  }

  /** The last lap of completions is in the ring with its phase; slots not yet
      reached still have the zeroed phase. */
  ghost predicate CqIntact(r: Ring)
    requires |r.cq| == Depth(r) > 0
  {
    && (forall j :: 0 <= j < |r.posts| <= j + Depth(r) ==> r.cq[Slot(j, Depth(r))] == Cqe(r.posts[j], Lap(j, Depth(r))))
    && (forall j :: |r.posts| <= j < Depth(r) ==> !r.cq[j].phase)
  }

  ghost predicate LogsOk(r: Ring) {
    && |r.taken| <= |r.posts| && r.taken == r.posts[..|r.taken|]
    && r.fetched <= |r.subs| && multiset(r.posts) <= multiset(r.subs[..r.fetched])
    && (r.batch == 0 ==> r.published == |r.subs|)
  }

  ghost predicate Valid(r: Ring) {
    Shape(r) && Ordered(r) && Indexed(r) && PassOk(r) && SqIntact(r) && CqIntact(r) && LogsOk(r)
  }

  // --------------------------------------------------------------------- host

  function Init(depth: nat): Ring {
    Ring(seq(depth, _ => 0), seq(depth, _ => Cqe(0, false)), 0, 0, 0, true, 0, Idle, 0, 0, 0, 0, true, [], 0, 0,
         [], [], 0)
  }

  /** nvme_sq_commit. */
  function Commit(r: Ring): Ring {
    if r.sqTail != r.lastSqTail then r.(sqDb := r.sqTail, lastSqTail := r.sqTail, published := |r.subs|) else r
  }

  function Full(r: Ring): bool
    requires Depth(r) > 0
  {
    (r.sqTail + 1) % Depth(r) == r.cqHead
  }

  /** nvme_submit_io from the full test on. */
  function Submit(r: Ring, cmd: nat): Ring
    requires Shape(r)
  {
    if Full(r) then r
    else
      var w := r.(sq := r.sq[r.sqTail := cmd], sqTail := (r.sqTail + 1) % Depth(r), subs := r.subs + [cmd]);
      if r.batch == 0 then Commit(w) else w
  }

  function BatchBegin(r: Ring): Ring { r.(batch := r.batch + 1) }

  function BatchEnd(r: Ring): Ring {
    if r.batch == 0 then r
    else
      var e := r.(batch := r.batch - 1);
      if e.batch == 0 then Commit(e) else e
  }

  function PassBegin(r: Ring): Ring {
    if r.pass.Idle? then r.(pass := Draining(r.cqHead, r.cqPhase, 0)) else r
  }

  /** drain_cq's freshness test. */
  predicate Fresh(r: Ring)
    requires Shape(r)
  {
    r.pass.Draining? && r.cq[r.pass.head].phase == r.pass.phase
  }

  /** One turn of drain_cq's loop. */
  function Take(r: Ring): Ring
    requires Shape(r)
  {
    if !Fresh(r) then r
    else
      var wrap := r.pass.head + 1 == Depth(r);
      r.(pass := Draining(if wrap then 0 else r.pass.head + 1, if wrap then !r.pass.phase else r.pass.phase,
                          r.pass.drained + 1),
         taken := r.taken + [r.cq[r.pass.head].cmd])
  }

  /** The loop's exit: publish the head if anything was drained. */
  function PassEnd(r: Ring): Ring
    requires Shape(r)
  {
    if r.pass.Idle? || Fresh(r) then r
    else if r.pass.drained == 0 then r.(pass := Idle)
    else r.(pass := Idle, cqHead := r.pass.head, cqPhase := r.pass.phase, cqDb := r.pass.head, freed := |r.taken|)
  }

  // ------------------------------------------------------------------- device

  /** Fetch the next published SQE. */
  function Fetch(r: Ring): Ring
    requires Shape(r)
  {
    if r.devHead == r.sqDb then r
    else r.(devHead := (r.devHead + 1) % Depth(r), fetched := r.fetched + 1)
  }

  /** Commands fetched and not yet completed. */
  ghost function Outstanding(r: Ring): multiset<nat>
    requires r.fetched <= |r.subs|
  {
    multiset(r.subs[..r.fetched]) - multiset(r.posts)
  }

  /** Complete an outstanding command.  The device trusts the host: it posts
      without asking whether the completion queue has room. */
  function Post(r: Ring, cmd: nat): Ring
    requires Shape(r)
  {
    var wrap := r.devTail + 1 == Depth(r);
    r.(cq := r.cq[r.devTail := Cqe(cmd, r.devPhase)], devTail := if wrap then 0 else r.devTail + 1,
       devPhase := if wrap then !r.devPhase else r.devPhase, posts := r.posts + [cmd])
  }

  // --------------------------------------------------------------- every step

  datatype Act =
    | DoSubmit(cmd: nat) | DoBatchBegin | DoBatchEnd
    | DoPassBegin | DoTake | DoPassEnd
    | DevFetch | DevPost(cmd: nat)

  ghost function Step(r: Ring, a: Act): Ring
    requires Valid(r)
  {
    match a
    case DoSubmit(cmd) => Submit(r, cmd)
    case DoBatchBegin => BatchBegin(r)
    case DoBatchEnd => BatchEnd(r)
    case DoPassBegin => PassBegin(r)
    case DoTake => Take(r)
    case DoPassEnd => PassEnd(r)
    case DevFetch => Fetch(r)
    case DevPost(cmd) => if cmd in Outstanding(r) then Post(r, cmd) else r
  }

  lemma InitValid(depth: nat)
    requires 2 <= depth <= 256
    ensures Valid(Init(depth))
  {
    FirstLap(0, depth);
    assert multiset(Init(depth).posts) <= multiset(Init(depth).subs[..0]);
  }

  /** The full test is exact: it refuses when and only when depth - 1 commands
      are submitted and not yet behind the published CQ head. */
  lemma FullExact(r: Ring)
    requires Valid(r)
    ensures Full(r) <==> |r.subs| - r.freed == Depth(r) - 1
  {
    SlotStep(|r.subs|, Depth(r));
    var n := |r.subs| + 1;
    if n < r.freed + Depth(r) {
      SlotApart(r.freed, n, Depth(r));
    } else {
      SlotLapBack(r.freed, Depth(r));
    }
  }

  /** Something is unpublished exactly when the two tails differ: no full lap
      can hide behind equal tails. */
  lemma UnpublishedExact(r: Ring)
    requires Valid(r)
    ensures r.sqTail != r.lastSqTail <==> r.published < |r.subs|
    ensures r.sqTail == r.lastSqTail ==> r.sqDb == r.sqTail
  {
    SlotApart(r.published, |r.subs|, Depth(r));
  }

  lemma CommitValid(r: Ring)
    requires Shape(r) && Ordered(r) && Indexed(r) && PassOk(r) && SqIntact(r) && CqIntact(r)
    requires LogsOk(r.(batch := 1))
    ensures Valid(Commit(r)) && Commit(r).published == |r.subs|
  {
    SlotApart(r.published, |r.subs|, Depth(r));
  }

  lemma SubmitValid(r: Ring, cmd: nat)
    requires Valid(r)
    ensures Valid(Submit(r, cmd))
  {
    FullExact(r);
    if !Full(r) {
      var w := r.(sq := r.sq[r.sqTail := cmd], sqTail := (r.sqTail + 1) % Depth(r), subs := r.subs + [cmd]);
      SlotStep(|r.subs|, Depth(r));
      assert w.subs[..w.fetched] == r.subs[..r.fetched];
      hide Slot, Lap;
      SubmitIntact(r, cmd, w);
      hide SqIntact;
      if r.batch == 0 { CommitValid(w); }
    }
  }

  /** The new entry goes where no unfetched one is. */
  lemma SubmitIntact(r: Ring, cmd: nat, w: Ring)
    requires Shape(r) && SqIntact(r) && r.fetched <= |r.subs| < r.fetched + Depth(r)
    requires r.sqTail == Slot(|r.subs|, Depth(r))
    requires Depth(w) == Depth(r) && w.fetched == r.fetched && w.subs == r.subs + [cmd] && w.sq == r.sq[r.sqTail := cmd]
    ensures SqIntact(w)
  {
    hide Slot;
    forall j | w.fetched <= j < |w.subs| ensures w.sq[Slot(j, Depth(w))] == w.subs[j] {
      SlotApart(j, |r.subs|, Depth(r));
    }
  }

  lemma BatchEndValid(r: Ring)
    requires Valid(r)
    ensures Valid(BatchEnd(r))
    ensures r.batch == 1 ==> BatchEnd(r).sqDb == BatchEnd(r).sqTail
  {
    if r.batch > 0 {
      var e := r.(batch := r.batch - 1);
      hide Slot, Lap;
      RebatchKeeps(r, e);
      hide Indexed, PassOk, SqIntact, CqIntact;
      if e.batch == 0 {
        CommitValid(e);
        hide Commit;
        UnpublishedExact(Commit(e));
      }
    }
  }

  lemma RebatchKeeps(r: Ring, e: Ring)
    requires Valid(r) && e == r.(batch := e.batch)
    ensures Shape(e) && Ordered(e) && Indexed(e) && PassOk(e) && SqIntact(e) && CqIntact(e)
  {
    hide Slot, Lap;
  }

  /** The phase bit tells exactly whether a completion is waiting, and the entry
      under the head is then the next one in posting order. */
  lemma FreshExact(r: Ring)
    requires Valid(r) && r.pass.Draining?
    ensures Fresh(r) <==> |r.taken| < |r.posts|
    ensures Fresh(r) ==> r.cq[r.pass.head].cmd == r.posts[|r.taken|]
  {
    var n, d := |r.taken|, Depth(r);
    if n < |r.posts| {
      assert r.cq[Slot(n, d)] == Cqe(r.posts[n], Lap(n, d));
    } else if n < d {
      FirstLap(n, d);
    } else {
      SlotLapBack(n - d, d);
      assert r.cq[Slot(n - d, d)] == Cqe(r.posts[n - d], Lap(n - d, d));
    }
  }

  lemma TakeValid(r: Ring)
    requires Valid(r)
    ensures Valid(Take(r))
  {
    if r.pass.Draining? {
      FreshExact(r);
      SlotStep(|r.taken|, Depth(r));
      hide Slot, Lap;
    }
  }

  lemma PassEndValid(r: Ring)
    requires Valid(r)
    ensures Valid(PassEnd(r))
    ensures r.pass.Draining? && PassEnd(r).pass.Idle? ==> r.taken == r.posts
  {
    if r.pass.Draining? { FreshExact(r); }
    hide Slot, Lap;
  }

  /** What the device reads is what was submitted: no SQE is overwritten before
      it is fetched, and none is fetched before it is published. */
  lemma FetchExact(r: Ring)
    requires Valid(r)
    ensures r.devHead != r.sqDb <==> r.fetched < r.published
    ensures r.fetched < |r.subs| ==> r.sq[r.devHead] == r.subs[r.fetched]
  {
    SlotApart(r.fetched, r.published, Depth(r));
  }

  lemma FetchValid(r: Ring)
    requires Valid(r)
    ensures Valid(Fetch(r))
  {
    hide Slot, Lap, LogsOk, CqIntact, SqIntact, Indexed, PassOk;
    FetchExact(r);
    FetchCounters(r);
    FetchMemory(r);
    if r.devHead != r.sqDb { FetchLogs(r); }
  }

  lemma FetchCounters(r: Ring)
    requires Shape(r) && Ordered(r) && Indexed(r) && PassOk(r) && (r.devHead != r.sqDb ==> r.fetched < r.published)
    ensures Shape(Fetch(r)) && Ordered(Fetch(r)) && Indexed(Fetch(r)) && PassOk(Fetch(r))
  {
    SlotStep(r.fetched, Depth(r));
    hide Slot, Lap;
  }

  lemma FetchMemory(r: Ring)
    requires Shape(r) && SqIntact(r) && CqIntact(r) && LogsOk(r)
    ensures SqIntact(Fetch(r)) && CqIntact(Fetch(r))
  {
    hide Slot, Lap;
  }

  lemma FetchLogs(r: Ring)
    requires LogsOk(r) && r.fetched < |r.subs| && Depth(r) > 0
    ensures LogsOk(r.(devHead := (r.devHead + 1) % Depth(r), fetched := r.fetched + 1))
  {
    var n := r.fetched;
    assert r.subs[..n + 1] == r.subs[..n] + [r.subs[n]];
  }

  /** A completion never overtakes the host: the device's own full test (section
      4.1.2) passes for every outstanding command, so the slot written holds an
      entry the host has consumed and given back, or none. */
  lemma PostRoom(r: Ring, cmd: nat)
    requires Valid(r) && cmd in Outstanding(r)
    ensures |r.posts| < r.fetched && |r.posts| - r.freed < Depth(r) - 1
    ensures (r.devTail + 1) % Depth(r) != r.cqDb
  {
    var left, right := multiset(r.subs[..r.fetched]), multiset(r.posts);
    assert |left| == r.fetched && |right| == |r.posts|;
    assert right + multiset{cmd} <= left;
    SubsetSize(right + multiset{cmd}, left);
    SlotStep(|r.posts|, Depth(r));
    SlotApart(r.freed, |r.posts| + 1, Depth(r));
  }

  lemma SubsetSize(a: multiset<nat>, b: multiset<nat>)
    requires a <= b
    ensures |a| <= |b|
  {
    assert b == a + (b - a);
  }

  lemma PostValid(r: Ring, cmd: nat)
    requires Valid(r) && cmd in Outstanding(r)
    ensures Valid(Post(r, cmd))
  {
    PostRoom(r, cmd);
    PostCq(r, cmd);
    hide Slot, Lap, CqIntact, LogsOk, Indexed, PassOk;
    PostCounters(r, cmd);
    PostLogs(r, cmd);
  }

  lemma PostCounters(r: Ring, cmd: nat)
    requires Shape(r) && Ordered(r) && Indexed(r) && PassOk(r) && |r.posts| < r.fetched
    ensures Shape(Post(r, cmd)) && Ordered(Post(r, cmd)) && Indexed(Post(r, cmd)) && PassOk(Post(r, cmd))
  {
    SlotStep(|r.posts|, Depth(r));
    hide Slot, Lap;
  }

  lemma PostLogs(r: Ring, cmd: nat)
    requires Shape(r) && LogsOk(r) && cmd in Outstanding(r)
    ensures LogsOk(Post(r, cmd))
  {
    var w := Post(r, cmd);
    assert w.taken == w.posts[..|w.taken|];
    assert multiset(w.posts) == multiset(r.posts) + multiset{cmd};
  }

  lemma PostCq(r: Ring, cmd: nat)
    requires Valid(r)
    ensures CqIntact(Post(r, cmd))
  {
    var w, n, d := Post(r, cmd), |r.posts|, Depth(r);
    forall j | 0 <= j < |w.posts| <= j + d ensures w.cq[Slot(j, d)] == Cqe(w.posts[j], Lap(j, d)) {
      if j < n { SlotApart(j, n, d); }
    }
    forall j | |w.posts| <= j < d ensures !w.cq[j].phase { FirstLap(n, d); }
  }

  lemma StepValid(r: Ring, a: Act)
    requires Valid(r)
    ensures Valid(Step(r, a)) && Depth(Step(r, a)) == Depth(r)
  {
    assert Shape(r) && Ordered(r);
    hide Valid, Outstanding;
    match a
    case DoSubmit(cmd) => SubmitValid(r, cmd);
    case DoBatchEnd => BatchEndValid(r);
    case DoTake => TakeValid(r);
    case DoPassEnd => PassEndValid(r);
    case DevFetch => FetchValid(r);
    case DevPost(cmd) => if cmd in Outstanding(r) { PostValid(r, cmd); }
    case DoBatchBegin => BatchBeginValid(r);
    case DoPassBegin => PassBeginValid(r);
  }

  lemma BatchBeginValid(r: Ring)
    requires Valid(r)
    ensures Valid(BatchBegin(r))
  {
    RebatchKeeps(r, BatchBegin(r));
    hide Indexed, PassOk, SqIntact, CqIntact;
  }

  lemma PassBeginValid(r: Ring)
    requires Valid(r)
    ensures Valid(PassBegin(r))
  {
    hide Slot, Lap;
  }

  // --------------------------------------------------------------------- runs

  /** Host and device steps in any interleaving. */
  ghost function Run(r: Ring, acts: seq<Act>): Ring
    requires Valid(r)
    decreases |acts|
  {
    if acts == [] then r
    else
      StepValid(r, acts[0]);
      Run(Step(r, acts[0]), acts[1..])
  }

  lemma {:induction false} RunValid(r: Ring, acts: seq<Act>)
    requires Valid(r)
    ensures Valid(Run(r, acts)) && Depth(Run(r, acts)) == Depth(r)
    decreases |acts|
  {
    hide Valid;
    if acts != [] {
      StepValid(r, acts[0]);
      RunValid(Step(r, acts[0]), acts[1..]);
    }
  }

  /** In every interleaving from a fresh queue: the six counters stay ordered and
      span less than the ring, the next SQE the device would fetch is the one
      submitted, a completion always has room, the consumed completions are
      exactly the first ones posted, the head the host publishes is the count of
      those consumed when its last pass ended, and outside a batch nothing is
      withheld. */
  lemma EveryInterleaving(depth: nat, acts: seq<Act>)
    requires 2 <= depth <= 256
    ensures Valid(Init(depth))
    ensures var r := Run(Init(depth), acts);
            && Depth(r) == depth
            && r.freed <= |r.taken| <= |r.posts| <= r.fetched <= r.published <= |r.subs| <= r.freed + depth - 1
            && r.taken == r.posts[..|r.taken|] && multiset(r.posts) <= multiset(r.subs[..r.fetched])
            && (forall j :: r.fetched <= j < |r.subs| ==> r.sq[Slot(j, depth)] == r.subs[j])
            && (r.batch == 0 ==> r.sqDb == r.sqTail && r.published == |r.subs|)
            && r.cqHead == r.freed % depth && (r.pass.Idle? ==> r.freed == |r.taken|)
  {
    InitValid(depth);
    RunValid(Init(depth), acts);
    var r := Run(Init(depth), acts);
    UnpublishedExact(r);
    assert Indexed(r) && PassOk(r) && Slot(r.freed, depth) == r.freed % depth;
    hide Run, Slot, Lap;
  }
}

/** The rings in place: the queue's fields and the two DMA arrays, with the
    device as the other party that writes them. */
module RingArrays {
  import opened Ring
  import Tags

  /** What resubmissions and device steps between two reads of the completion
      queue leave alone. */
  ghost predicate Aside(r: Ring, r': Ring) {
    && r'.pass == r.pass && r'.taken == r.taken && r'.freed == r.freed && r'.batch == r.batch
    && Depth(r') == Depth(r) && Onward(r, r')
  }

  /** What was submitted, published, fetched and posted stays so. */
  ghost predicate Onward(r: Ring, r': Ring) {
    && r.subs <= r'.subs && r.published <= r'.published && r.fetched <= r'.fetched && r.posts <= r'.posts
  }

  /** The bounds the in-place code relies on. */
  lemma SpanOk(r: Ring)
    requires Valid(r)
    ensures Shape(r) && r.fetched <= r.published <= |r.subs| < r.freed + Depth(r)
    ensures multiset(r.posts) <= multiset(r.subs[..r.fetched])
  {
  }

  lemma SubmitAside(r: Ring, cmd: nat)
    requires Valid(r)
    ensures Shape(r) && Aside(r, Submit(r, cmd)) && Submit(r, cmd).fetched == r.fetched <= |r.subs|
    ensures Outstanding(Submit(r, cmd)) == Outstanding(r)
  {
    hide Slot, Lap, Indexed, PassOk, SqIntact, CqIntact;
    assert (r.subs + [cmd])[..r.fetched] == r.subs[..r.fetched];
  }

  lemma FetchAside(r: Ring)
    requires Valid(r)
    ensures Shape(r) && Valid(Fetch(r)) && Aside(r, Fetch(r))
    ensures r.fetched <= |r.subs| && Fetch(r).fetched <= |r.subs|
    ensures Outstanding(Fetch(r))
            == Outstanding(r) + if r.devHead == r.sqDb then multiset{} else multiset{r.sq[r.devHead]}
  {
    hide Valid;
    SpanOk(r);
    FetchValid(r);
    FetchExact(r);
    if r.devHead != r.sqDb { OutstandingGrows(r, Fetch(r)); }
    hide Outstanding;
  }

  lemma OutstandingGrows(r: Ring, w: Ring)
    requires r.fetched < |r.subs| && w.subs == r.subs && w.posts == r.posts && w.fetched == r.fetched + 1
    requires multiset(r.posts) <= multiset(r.subs[..r.fetched])
    ensures Outstanding(w) == Outstanding(r) + multiset{r.subs[r.fetched]}
  {
    assert r.subs[..r.fetched + 1] == r.subs[..r.fetched] + [r.subs[r.fetched]];
  }

  lemma PostAside(r: Ring, cmd: nat)
    requires Valid(r) && r.fetched <= |r.subs| && cmd in Outstanding(r)
    ensures Shape(r) && Valid(Post(r, cmd)) && Aside(r, Post(r, cmd)) && Post(r, cmd).fetched <= |Post(r, cmd).subs|
    ensures Outstanding(Post(r, cmd)) == Outstanding(r) - multiset{cmd}
  {
    PostValid(r, cmd);
    hide Slot, Lap, Indexed, PassOk, SqIntact, CqIntact, Valid;
    assert multiset(r.posts + [cmd]) == multiset(r.posts) + multiset{cmd};
  }

  class QueuePair {
    const sq: array<nat>
    const cq: array<Cqe>
    var sqTail: nat
    var lastSqTail: nat
    var cqHead: nat
    var cqPhase: bool
    var batchDepth: nat
    var sqDoorbell: nat
    var cqDoorbell: nat
    // the device
    var devHead: nat
    var devTail: nat
    var devPhase: bool
    var outstanding: multiset<nat>
    // history
    ghost var pass: Pass
    ghost var subs: seq<nat>
    ghost var published: nat
    ghost var fetched: nat
    ghost var posts: seq<nat>
    ghost var taken: seq<nat>
    ghost var freed: nat

    ghost function Value(): Ring
      reads this, sq, cq
    {
      Ring(sq[..], cq[..], sqTail, lastSqTail, cqHead, cqPhase, batchDepth, pass, sqDoorbell, cqDoorbell,
           devHead, devTail, devPhase, subs, published, fetched, posts, taken, freed)
    }

    ghost predicate Ok()
      reads this, sq, cq
    {
      Tags.Whole(Valid(Value())) && fetched <= |subs| && outstanding == Outstanding(Value())
    }

    constructor (depth: nat)
      requires 2 <= depth <= 256
      ensures Ok() && Value() == Init(depth) && fresh(sq) && fresh(cq)
    {
      sq := new nat[depth](_ => 0);
      cq := new Cqe[depth](_ => Cqe(0, false));
      sqTail, lastSqTail, cqHead, cqPhase, batchDepth := 0, 0, 0, true, 0;
      sqDoorbell, cqDoorbell, devHead, devTail, devPhase, outstanding := 0, 0, 0, 0, true, multiset{};
      pass, subs, published, fetched, posts, taken, freed := Idle, [], 0, 0, [], [], 0;
      new;
      InitValid(depth);
      assert sq[..] == Init(depth).sq && cq[..] == Init(depth).cq;
    }

    method SqCommit()
      modifies this
      ensures Value() == Commit(old(Value())) && outstanding == old(outstanding)
    {
      if sqTail != lastSqTail {
        sqDoorbell := sqTail;
        lastSqTail := sqTail;
        published := |subs|;
      }
    }

    method SubmitIo(cmd: nat) returns (ok: bool)
      requires Ok()
      modifies this, sq
      ensures Ok() && Aside(old(Value()), Value())
      ensures Value() == (SpanOk(old(Value())); Submit(old(Value()), cmd))
      ensures ok <==> |old(subs)| - old(freed) < sq.Length - 1
    {
      hide Valid, Outstanding;
      ghost var was := Value();
      SpanOk(was);
      FullExact(was);
      SubmitValid(was, cmd);
      SubmitAside(was, cmd);
      var next := (sqTail + 1) % sq.Length;
      if next == cqHead { return false; }
      sq[sqTail] := cmd;
      sqTail := next;
      subs := subs + [cmd];
      assert sq[..] == was.sq[was.sqTail := cmd];
      if batchDepth == 0 { SqCommit(); }
      ok := true;
    }

    method SqBatchBegin()
      requires Ok()
      modifies this
      ensures Ok() && Value() == BatchBegin(old(Value()))
    {
      hide Valid;
      BatchBeginValid(Value());
      batchDepth := batchDepth + 1;
    }

    method SqBatchEnd()
      requires Ok()
      modifies this
      ensures Ok() && Value() == BatchEnd(old(Value()))
      ensures old(batchDepth) == 1 ==> sqDoorbell == sqTail
    {
      hide Valid;
      BatchEndValid(Value());
      if batchDepth != 0 {
        batchDepth := batchDepth - 1;
        if batchDepth == 0 { SqCommit(); }
      }
    }

    /** The device takes the next published SQE; it is the one submitted. */
    method DeviceFetch()
      requires Ok()
      modifies this
      ensures Ok() && Aside(old(Value()), Value())
      ensures Value() == (SpanOk(old(Value())); Fetch(old(Value())))
    {
      hide Valid, Outstanding;
      ghost var was := Value();
      SpanOk(was);
      FetchAside(was);
      if devHead == sqDoorbell { return; }
      outstanding := outstanding + multiset{sq[devHead]};
      devHead := (devHead + 1) % sq.Length;
      fetched := fetched + 1;
      assert Value() == Fetch(was);
    }

    /** The device completes a command it fetched. */
    method DevicePost(cmd: nat)
      requires Ok()
      modifies this, cq
      ensures Ok() && Aside(old(Value()), Value())
      ensures Value() == if cmd in old(outstanding) then Post(old(Value()), cmd) else old(Value())
    {
      hide Valid, Outstanding, Post;
      ghost var was := Value();
      SpanOk(was);
      if cmd !in outstanding { return; }
      PostAside(was, cmd);
      WriteCqe(cmd);
      outstanding := outstanding - multiset{cmd};
    }

    /** The entry, its phase, and the device's own tail. */
    method WriteCqe(cmd: nat)
      requires Shape(Value())
      modifies this, cq
      ensures Value() == Post(old(Value()), cmd) && outstanding == old(outstanding)
    {
      ghost var was := Value();
      cq[devTail] := Cqe(cmd, devPhase);
      devTail := devTail + 1;
      if devTail == cq.Length { devTail, devPhase := 0, !devPhase; }
      posts := posts + [cmd];
      assert cq[..] == was.cq[was.devTail := Cqe(cmd, was.devPhase)];
    }

    /** Whatever happens while the host works on one completion: resubmissions
        by nvme_complete_rq and any number of device steps. */
    method Meanwhile(acts: seq<Act>)
      requires Ok()
      modifies this, sq, cq
      ensures Ok() && Aside(old(Value()), Value())
    {
      hide Valid;
      for i := 0 to |acts|
        invariant Ok() && Aside(old(Value()), Value())
      {
        ghost var was := Value();
        match acts[i]
        case DoSubmit(cmd) => var _ := SubmitIo(cmd);
        case DevFetch => DeviceFetch();
        case DevPost(cmd) => DevicePost(cmd);
        case _ =>
        AsideTrans(old(Value()), was, Value());
      }
    }

    /** drain_cq, with `script(n)` happening before the n-th look at the ring.
        However the device and the completions behave, the pass consumes exactly
        the completions posted and not yet consumed, in posting order, and ends
        after at most depth - 1 of them. */
    method DrainCq(script: nat -> seq<Act>) returns (drained: nat)
      requires Ok() && pass.Idle?
      modifies this, sq, cq
      ensures Ok() && Drained(old(Value()), Value(), drained)
    {
      hide Valid, Take, PassEnd, Fresh, Taken, Since, Aside, Outstanding, Submit, Fetch, Post, Step, BatchEnd, Commit;
      var head: nat, phase := cqHead, cqPhase;
      drained := 0;
      Begin(Value());
      RecordBegin();
      ghost var seen := Value();
      while true
        invariant Ok() && pass == Draining(head, phase, drained)
        invariant Since(old(Value()), Value())
        decreases sq.Length - drained
      {
        ghost var before := Value();
        Meanwhile(script(drained));
        seen := Value();
        SinceAside(old(Value()), before, seen);
        Look(seen);
        if cq[head].phase != phase { break; }
        RecordTake(head, phase, drained);
        SinceTaken(old(Value()), seen);
        head := head + 1;
        if head == cq.Length { head, phase := 0, !phase; }
        drained := drained + 1;
      }
      DrainedNow(old(Value()), seen);
      RecordEnd();
      if drained > 0 { PublishHead(head, phase); }
    }

    /** History of one turn of the loop. */
    ghost method RecordTake(head: nat, phase: bool, drained: nat)
      requires pass == Draining(head, phase, drained) && head < cq.Length
      modifies this
      ensures Value() == Taken(old(Value())) && outstanding == old(outstanding)
      ensures pass == if head + 1 == cq.Length then Draining(0, !phase, drained + 1)
                      else Draining(head + 1, phase, drained + 1)
    {
      taken := taken + [cq[head].cmd];
      pass := if head + 1 == cq.Length then Draining(0, !phase, drained + 1)
              else Draining(head + 1, phase, drained + 1);
    }

    ghost method RecordBegin()
      requires pass.Idle?
      modifies this
      ensures Value() == PassBegin(old(Value())) && outstanding == old(outstanding)
    {
      pass := Draining(cqHead, cqPhase, 0);
    }

    ghost method RecordEnd()
      modifies this
      ensures Value() == old(Value()).(pass := Idle) && outstanding == old(outstanding)
    {
      pass := Idle;
    }

    /** The new head goes to the queue and to its doorbell. */
    method PublishHead(head: nat, phase: bool)
      modifies this
      ensures Value() == old(Value()).(cqHead := head, cqPhase := phase, cqDb := head, freed := |old(taken)|)
      ensures outstanding == old(outstanding)
    {
      cqHead, cqPhase, cqDoorbell := head, phase, head;
      freed := |taken|;
    }
  }

  /** A whole pass: it consumed every completion posted by its end, in order,
      each once, and fewer than `depth` of them. */
  ghost predicate Drained(r: Ring, r': Ring, n: nat) {
    && r'.pass == Idle && Depth(r') == Depth(r) && r'.batch == r.batch && Onward(r, r')
    && r.taken <= r'.taken == r'.posts
    && |r'.taken| == |r.taken| + n && n < Depth(r)
  }

  /** How far a pass has come since it began. */
  ghost predicate Since(r: Ring, r': Ring) {
    && Depth(r') == Depth(r) && r'.freed == r.freed == |r.taken| && r'.batch == r.batch
    && r.taken <= r'.taken && Onward(r, r')
  }

  lemma DrainedNow(r: Ring, s: Ring)
    requires Since(r, s) && s.pass.Draining? && s.taken == s.posts && |s.taken| == s.freed + s.pass.drained
    requires s.pass.drained < Depth(s) && s.fetched <= |s.subs|
    ensures Drained(r, Ended(s), s.pass.drained) && Outstanding(Ended(s)) == Outstanding(s)
  {
  }

  lemma SinceTaken(r: Ring, s: Ring)
    requires Since(r, s) && s.pass.Draining? && s.pass.head < |s.cq| && s.fetched <= |s.subs|
    ensures Since(r, Taken(s)) && Taken(s).fetched <= |Taken(s).subs| && Outstanding(Taken(s)) == Outstanding(s)
  {
  }

  lemma SinceAside(r: Ring, b: Ring, s: Ring)
    requires Since(r, b) && Aside(b, s)
    ensures Since(r, s) && s.pass == b.pass
  {
  }

  lemma Begin(r: Ring)
    requires Valid(r) && r.pass.Idle? && r.fetched <= |r.subs|
    ensures Valid(PassBegin(r)) && Since(r, PassBegin(r)) && Outstanding(PassBegin(r)) == Outstanding(r)
  {
    hide Slot, Lap;
    PassBeginValid(r);
  }

  /** The take and the end of a pass, written without their guards. */
  ghost function Taken(r: Ring): Ring
    requires r.pass.Draining? && r.pass.head < |r.cq|
  {
    var wrap := r.pass.head + 1 == |r.cq|;
    r.(pass := Draining(if wrap then 0 else r.pass.head + 1, if wrap then !r.pass.phase else r.pass.phase,
                        r.pass.drained + 1),
       taken := r.taken + [r.cq[r.pass.head].cmd])
  }

  ghost function Ended(r: Ring): Ring
    requires r.pass.Draining?
  {
    if r.pass.drained == 0 then r.(pass := Idle)
    else r.(pass := Idle, cqHead := r.pass.head, cqPhase := r.pass.phase, cqDb := r.pass.head, freed := |r.taken|)
  }

  /** What one look at the completion queue tells, and what taking the entry
      leaves. */
  lemma Look(r: Ring)
    requires Valid(r) && r.pass.Draining?
    ensures Shape(r) && |r.taken| == r.freed + r.pass.drained && r.pass.drained < Depth(r) && r.fetched <= |r.subs|
    ensures if r.cq[r.pass.head].phase == r.pass.phase
            then Valid(Taken(r)) && r.pass.drained + 1 < Depth(r)
            else Valid(Ended(r)) && r.taken == r.posts
  {
    FreshExact(r);
    TakeValid(r);
    PassEndValid(r);
    assert PassOk(r);
    hide Slot, Lap, Valid;
    assert Fresh(r) ==> Taken(r) == Take(r);
    assert !Fresh(r) ==> Ended(r) == PassEnd(r);
    hide Taken, Ended, Take, PassEnd;
  }

  lemma AsideTrans(a: Ring, b: Ring, c: Ring)
    requires Aside(a, b) && Aside(b, c)
    ensures Aside(a, c)
  {
  }
}
