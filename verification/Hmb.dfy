/** The Host Memory Buffer: a greedy allocator that takes what the pool gives.
    Whether the pool can serve the n-th allocation is an arbitrary oracle. */
module Hmb {
  import opened Base

  const START_CHUNK: nat := 16 * 1024 * 1024
  const MIN_CHUNK: nat := 8 * 1024

  /** The least chunk: HMMINDS pages or 8 KiB, whichever is more. */
  function Floor(hmminds: nat): (f: nat)
    ensures f >= hmminds * 4096 && f >= 8192 && (f == hmminds * 4096 || f == 8192)
  {
    if hmminds * PAGE > MIN_CHUNK then hmminds * PAGE else MIN_CHUNK
  }

  /** The most descriptors: HMMAXD, or, when the controller does not say, as many
      least chunks as it takes to hold the preferred size. */
  function Cap(hmmaxd: nat, preferred: nat, floor: nat): (c: nat)
    requires floor > 0
    ensures hmmaxd != 0 ==> c == hmmaxd
    ensures hmmaxd == 0 ==> preferred <= c * floor && (c > 0 ==> (c - 1) * floor < preferred)
  {
    CeilDiv(preferred, floor);
    if hmmaxd != 0 then hmmaxd else (preferred + floor - 1) / floor
  }

  lemma CeilDiv(x: nat, d: nat)
    requires d > 0
    ensures var c := (x + d - 1) / d; x <= c * d && (c > 0 ==> (c - 1) * d < x)
  {
    var c, r := (x + d - 1) / d, (x + d - 1) % d;
    assert x + d - 1 == c * d + r;
    assert c > 0 ==> c * d == (c - 1) * d + d;
  }

  function Min(a: nat, b: nat): nat { if a < b then a else b }

  function Sum(s: seq<nat>): nat { if s == [] then 0 else Sum(s[..|s| - 1]) + s[|s| - 1] }

  /** Pages as the descriptors count them. */
  function Pages(s: seq<nat>): nat { if s == [] then 0 else Pages(s[..|s| - 1]) + s[|s| - 1] / PAGE }

  lemma SumPush(s: seq<nat>, x: nat)
    ensures Sum(s + [x]) == Sum(s) + x && Pages(s + [x]) == Pages(s) + x / PAGE
  {
    assert (s + [x])[..|s|] == s;
  }

  datatype Job = Job(preferred: nat, floor: nat, cap: nat)

  /** The greedy fill from the n-th allocation on: a refusal halves the attempt. */
  function Fill(yes: nat -> bool, n: nat, j: Job, attempt: nat, sizes: seq<nat>): seq<nat>
    requires j.floor > 0
    decreases if Sum(sizes) < j.preferred then j.preferred - Sum(sizes) else 0, attempt
  {
    SumPush(sizes, Min(attempt, if Sum(sizes) < j.preferred then j.preferred - Sum(sizes) else 0));
    if Sum(sizes) < j.preferred && |sizes| < j.cap && attempt >= j.floor then
      var chunk := Min(attempt, j.preferred - Sum(sizes));
      if chunk < j.floor then sizes
      else if yes(n) then Fill(yes, n + 1, j, attempt, sizes + [chunk])
      else Fill(yes, n + 1, j, attempt / 2, sizes)
    else sizes
  }

  lemma FillStep(yes: nat -> bool, n: nat, j: Job, attempt: nat, sizes: seq<nat>)
    requires j.floor > 0
    ensures Fill(yes, n, j, attempt, sizes) ==
            if Sum(sizes) < j.preferred && |sizes| < j.cap && attempt >= j.floor
               && Min(attempt, j.preferred - Sum(sizes)) >= j.floor
            then if yes(n) then Fill(yes, n + 1, j, attempt, sizes + [Min(attempt, j.preferred - Sum(sizes))])
                 else Fill(yes, n + 1, j, attempt / 2, sizes)
            else sizes
  {
    hide Sum, Min;
  }

  /** Both phases; allocation 0 was the descriptor table, 1 the single shot. */
  function Gather(yes: nat -> bool, j: Job): seq<nat>
    requires j.floor > 0
  {
    if j.preferred >= j.floor then
      Fill(yes, 2, j, Min(START_CHUNK, j.preferred), if yes(1) then [j.preferred] else [])
    else Fill(yes, 1, j, Min(START_CHUNK, j.preferred), [])
  }

  // ------------------------------------------------------------- its bounds

  /** Within the descriptor cap, each chunk at least the floor, never above the
      preferred size. */
  ghost predicate Bounded(j: Job, sizes: seq<nat>) {
    && |sizes| <= j.cap && Sum(sizes) <= j.preferred
    && forall i :: 0 <= i < |sizes| ==> sizes[i] >= j.floor
  }

  lemma {:induction false} FillBounded(yes: nat -> bool, n: nat, j: Job, attempt: nat, sizes: seq<nat>)
    requires j.floor > 0 && Bounded(j, sizes)
    ensures Bounded(j, Fill(yes, n, j, attempt, sizes))
    decreases if Sum(sizes) < j.preferred then j.preferred - Sum(sizes) else 0, attempt
  {
    if Sum(sizes) < j.preferred && |sizes| < j.cap && attempt >= j.floor {
      var chunk := Min(attempt, j.preferred - Sum(sizes));
      SumPush(sizes, chunk);
      if chunk >= j.floor {
        if yes(n) { FillBounded(yes, n + 1, j, attempt, sizes + [chunk]); }
        else { FillBounded(yes, n + 1, j, attempt / 2, sizes); }
      }
    }
  }

  lemma GatherBounded(yes: nat -> bool, j: Job)
    requires j.floor > 0 && (j.preferred >= j.floor ==> j.cap > 0)
    ensures Bounded(j, Gather(yes, j))
  {
    assert Sum([]) == 0;
    SumPush([], j.preferred);
    assert [] + [j.preferred] == [j.preferred];
    hide Fill;
    if j.preferred >= j.floor {
      FillBounded(yes, 2, j, Min(START_CHUNK, j.preferred), if yes(1) then [j.preferred] else []);
    } else {
      FillBounded(yes, 1, j, Min(START_CHUNK, j.preferred), []);
    }
  }

  // ----------------------------------------------------- what was tried, and had

  /** One request to the pool. */
  datatype Try = Try(size: nat, granted: bool)

  /** The sizes granted, in order; and how many requests were refused. */
  function Had(t: seq<Try>): seq<nat> {
    if t == [] then [] else Had(t[..|t| - 1]) + if t[|t| - 1].granted then [t[|t| - 1].size] else []
  }

  function Refusals(t: seq<Try>): nat {
    if t == [] then 0 else Refusals(t[..|t| - 1]) + if t[|t| - 1].granted then 0 else 1
  }

  function Halved(x: nat, times: nat): nat { if times == 0 then x else Halved(x, times - 1) / 2 }

  /** The size to ask for next: `first` halved once per refusal, but no more than
      what is still missing. */
  function NextAsk(preferred: nat, first: nat, refused: nat, total: nat): nat
    requires total <= preferred
  {
    Min(Halved(first, refused), preferred - total)
  }

  /** The fill goes on: something is missing, a descriptor is left, and the size to
      ask for next is no less than the floor. */
  predicate GoesOn(preferred: nat, floor: nat, cap: nat, first: nat, refused: nat, had: seq<nat>) {
    Sum(had) < preferred && |had| < cap && NextAsk(preferred, first, refused, Sum(had)) >= floor
  }

  /** `t` is the greedy fill on top of `had`: every request is the next size to ask
      for, the n-th answer is the pool's, and it stops only when it has to. */
  ghost predicate Tries(yes: nat -> bool, n: nat, preferred: nat, floor: nat, cap: nat, first: nat, had: seq<nat>,
                        t: seq<Try>)
  {
    Asked(yes, n, preferred, floor, cap, first, had, t) &&
    !GoesOn(preferred, floor, cap, first, Refusals(t), had + Had(t))
  }

  ghost predicate Asked(yes: nat -> bool, n: nat, preferred: nat, floor: nat, cap: nat, first: nat, had: seq<nat>,
                        t: seq<Try>)
  {
    forall k :: 0 <= k < |t| ==> AskedOne(yes, n, preferred, floor, cap, first, had, t, k)
  }

  ghost predicate AskedOne(yes: nat -> bool, n: nat, preferred: nat, floor: nat, cap: nat, first: nat, had: seq<nat>,
                           t: seq<Try>, k: nat)
    requires k < |t|
  {
    var now := had + Had(t[..k]);
    && GoesOn(preferred, floor, cap, first, Refusals(t[..k]), now)
    && t[k] == Try(NextAsk(preferred, first, Refusals(t[..k]), Sum(now)), yes(n + k))
  }

  lemma HadPush(t: seq<Try>, x: Try)
    ensures Had(t + [x]) == Had(t) + if x.granted then [x.size] else []
    ensures Refusals(t + [x]) == Refusals(t) + if x.granted then 0 else 1
  {
    assert (t + [x])[..|t|] == t;
  }

  lemma AskedSame(yes: nat -> bool, n: nat, preferred: nat, floor: nat, cap: nat, first: nat, had: seq<nat>,
                  t: seq<Try>, u: seq<Try>, k: nat)
    requires k < |t| && k < |u| && t[..k + 1] == u[..k + 1]
    requires AskedOne(yes, n, preferred, floor, cap, first, had, t, k)
    ensures AskedOne(yes, n, preferred, floor, cap, first, had, u, k)
  {
    assert t[..k] == t[..k + 1][..k] && u[..k] == u[..k + 1][..k];
    assert t[k] == t[..k + 1][k] && u[k] == u[..k + 1][k];
    hide GoesOn, Had, Refusals, NextAsk;
  }

  lemma AskedPush(yes: nat -> bool, n: nat, preferred: nat, floor: nat, cap: nat, first: nat, had: seq<nat>,
                  t: seq<Try>, x: Try)
    requires Asked(yes, n, preferred, floor, cap, first, had, t)
    requires GoesOn(preferred, floor, cap, first, Refusals(t), had + Had(t))
    requires x == Try(NextAsk(preferred, first, Refusals(t), Sum(had + Had(t))), yes(n + |t|))
    ensures Asked(yes, n, preferred, floor, cap, first, had, t + [x])
  {
    var u := t + [x];
    assert u[..|t|] == t;
    assert AskedOne(yes, n, preferred, floor, cap, first, had, u, |t|);
    hide AskedOne, GoesOn, NextAsk, Sum;
    forall k | 0 <= k < |u| ensures AskedOne(yes, n, preferred, floor, cap, first, had, u, k) {
      if k < |t| {
        assert t[..k + 1] == u[..k + 1];
        AskedSame(yes, n, preferred, floor, cap, first, had, t, u, k);
      }
    }
  }

  lemma AskBounds(preferred: nat, first: nat, refused: nat, total: nat)
    requires total <= preferred
    ensures var ask := NextAsk(preferred, first, refused, total);
            ask <= Halved(first, refused) && ask <= preferred - total
            && ask == Min(Halved(first, refused), preferred - total)
  {
  }

  /** The state of the fill after the requests `t`. */
  function FillFrom(yes: nat -> bool, n: nat, j: Job, first: nat, had: seq<nat>, t: seq<Try>): seq<nat>
    requires j.floor > 0
  {
    Fill(yes, n + |t|, j, Halved(first, Refusals(t)), had + Had(t))
  }

  lemma FillTurn(yes: nat -> bool, m: nat, j: Job, first: nat, refused: nat, now: seq<nat>)
    requires j.floor > 0 && GoesOn(j.preferred, j.floor, j.cap, first, refused, now)
    ensures var ask := NextAsk(j.preferred, first, refused, Sum(now));
            && j.floor <= ask && Sum(now) + ask <= j.preferred && Halved(first, refused + 1) < Halved(first, refused)
            && Fill(yes, m, j, Halved(first, refused), now)
               == if yes(m) then Fill(yes, m + 1, j, Halved(first, refused), now + [ask])
                  else Fill(yes, m + 1, j, Halved(first, refused + 1), now)
  {
    hide Fill, Sum, Halved;
    HalfIs(first, refused);
    FillStep(yes, m, j, Halved(first, refused), now);
    AskBounds(j.preferred, first, refused, Sum(now));
  }

  lemma HalfIs(x: nat, times: nat)
    ensures Halved(x, times + 1) == Halved(x, times) / 2
    ensures Halved(x, times) > 0 ==> Halved(x, times + 1) < Halved(x, times)
  {
  }

  lemma FillGoesOn(yes: nat -> bool, n: nat, j: Job, first: nat, had: seq<nat>, t: seq<Try>, x: Try)
    requires j.floor > 0 && GoesOn(j.preferred, j.floor, j.cap, first, Refusals(t), had + Had(t))
    requires x == Try(NextAsk(j.preferred, first, Refusals(t), Sum(had + Had(t))), yes(n + |t|))
    ensures FillFrom(yes, n, j, first, had, t + [x]) == FillFrom(yes, n, j, first, had, t)
    ensures x.granted ==> Sum(had + Had(t + [x])) == Sum(had + Had(t)) + x.size <= j.preferred && x.size > 0
    ensures !x.granted ==> had + Had(t + [x]) == had + Had(t)
                           && Halved(first, Refusals(t + [x])) < Halved(first, Refusals(t))
  {
    hide *;
    var now := had + Had(t);
    FillTurn(yes, n + |t|, j, first, Refusals(t), now);
    HadPush(t, x);
    SumPush(now, x.size);
    FromIs(yes, n, j, first, had, t, n + |t|, now, Refusals(t));
    if x.granted {
      assert had + Had(t + [x]) == now + [x.size];
      FromIs(yes, n, j, first, had, t + [x], n + |t| + 1, now + [x.size], Refusals(t));
    } else {
      assert had + Had(t + [x]) == now;
      FromIs(yes, n, j, first, had, t + [x], n + |t| + 1, now, Refusals(t) + 1);
    }
  }

  lemma FromIs(yes: nat -> bool, n: nat, j: Job, first: nat, had: seq<nat>, t: seq<Try>, m: nat, now: seq<nat>,
               refused: nat)
    requires j.floor > 0 && m == n + |t| && now == had + Had(t) && refused == Refusals(t)
    ensures FillFrom(yes, n, j, first, had, t) == Fill(yes, m, j, Halved(first, refused), now)
  {
    hide Fill;
  }

  lemma FillStops(yes: nat -> bool, n: nat, j: Job, first: nat, had: seq<nat>, t: seq<Try>)
    requires j.floor > 0 && Sum(had + Had(t)) <= j.preferred
    requires !GoesOn(j.preferred, j.floor, j.cap, first, Refusals(t), had + Had(t))
    ensures FillFrom(yes, n, j, first, had, t) == had + Had(t)
  {
    hide Had, Halved, Sum;
  }

  /** The recursive fill is the greedy fill. */
  lemma {:induction false} FillTries(yes: nat -> bool, n: nat, j: Job, first: nat, had: seq<nat>, t: seq<Try>)
    returns (all: seq<Try>)
    requires j.floor > 0 && Sum(had + Had(t)) <= j.preferred
    requires Asked(yes, n, j.preferred, j.floor, j.cap, first, had, t)
    ensures Tries(yes, n, j.preferred, j.floor, j.cap, first, had, all)
    ensures FillFrom(yes, n, j, first, had, t) == had + Had(all)
    decreases j.preferred - Sum(had + Had(t)), Halved(first, Refusals(t))
  {
    hide Asked, Refusals, Sum, Had, Halved, NextAsk, FillFrom;
    if GoesOn(j.preferred, j.floor, j.cap, first, Refusals(t), had + Had(t)) {
      GoesOnSum(j.preferred, j.floor, j.cap, first, Refusals(t), had + Had(t));
      hide GoesOn;
      var x := Try(NextAsk(j.preferred, first, Refusals(t), Sum(had + Had(t))), yes(n + |t|));
      AskedPush(yes, n, j.preferred, j.floor, j.cap, first, had, t, x);
      FillGoesOn(yes, n, j, first, had, t, x);
      all := FillTries(yes, n, j, first, had, t + [x]);
    } else {
      FillStops(yes, n, j, first, had, t);
      all := t;
    }
  }

  lemma GoesOnSum(preferred: nat, floor: nat, cap: nat, first: nat, refused: nat, had: seq<nat>)
    requires GoesOn(preferred, floor, cap, first, refused, had)
    ensures Sum(had) <= preferred
  {
  }

  /** What nvme_alloc_host_mem gathers, from its own arguments: the preferred size
      in one piece first, if that is a legal chunk; then the greedy fill from
      16 MiB down. */
  ghost predicate Gathered(yes: nat -> bool, preferred: nat, hmminds: nat, hmmaxd: nat, sizes: seq<nat>) {
    exists floor: nat, cap: nat, t: seq<Try> ::
      && LeastChunk(hmminds, floor) && MostDescs(hmmaxd, preferred, floor, cap)
      && var single := preferred >= floor;
      && var had := if single && yes(1) then [preferred] else [];
      && Tries(yes, if single then 2 else 1, preferred, floor, cap, Min(0x100_0000, preferred), had, t)
      && sizes == had + Had(t)
  }

  ghost predicate LeastChunk(hmminds: nat, floor: nat) {
    floor >= hmminds * 4096 && floor >= 8192 && (floor == hmminds * 4096 || floor == 8192)
  }

  ghost predicate MostDescs(hmmaxd: nat, preferred: nat, floor: nat, cap: nat) {
    if hmmaxd != 0 then cap == hmmaxd else preferred <= cap * floor && (cap > 0 ==> (cap - 1) * floor < preferred)
  }

  lemma GatherTries(yes: nat -> bool, preferred: nat, hmminds: nat, hmmaxd: nat)
    ensures var floor := Floor(hmminds);
            Gathered(yes, preferred, hmminds, hmmaxd, Gather(yes, Job(preferred, floor, Cap(hmmaxd, preferred, floor))))
  {
    var floor := Floor(hmminds);
    var j := Job(preferred, floor, Cap(hmmaxd, preferred, floor));
    var single := preferred >= floor;
    var had := if single && yes(1) then [preferred] else [];
    assert Sum([]) == 0;
    SumPush([], preferred);
    assert [] + [preferred] == [preferred] && had + [] == had;
    assert Halved(Min(START_CHUNK, preferred), 0) == Min(START_CHUNK, preferred) && Had([]) == [] && Refusals([]) == 0;
    hide Fill, Sum, Floor, Cap, Tries;
    var t := FillTries(yes, if single then 2 else 1, j, Min(START_CHUNK, preferred), had, []);
    assert LeastChunk(hmminds, floor) && MostDescs(hmmaxd, preferred, floor, j.cap);
  }

  /** Never more descriptors than the controller takes, or, where it does not say,
      than least chunks fit the preferred size; every chunk of legal size; no more
      bytes than preferred. */
  ghost predicate Legal(preferred: nat, hmminds: nat, hmmaxd: nat, sizes: seq<nat>) {
    && (hmmaxd != 0 ==> |sizes| <= hmmaxd)
    && |sizes| * hmminds * 4096 <= preferred && |sizes| * 8192 <= preferred
    && Sum(sizes) <= preferred
    && forall i :: 0 <= i < |sizes| ==> sizes[i] >= hmminds * 4096 && sizes[i] >= 8192
  }

  lemma BoundedLegal(j: Job, hmminds: nat, hmmaxd: nat, sizes: seq<nat>)
    requires Bounded(j, sizes) && j.floor == Floor(hmminds) && j.cap == Cap(hmmaxd, j.preferred, j.floor)
    ensures Legal(j.preferred, hmminds, hmmaxd, sizes)
  {
    SumAtLeast(sizes, j.floor);
    Factor(|sizes|, hmminds * 4096, j.floor);
    Factor(|sizes|, 8192, j.floor);
    assert |sizes| * hmminds * 4096 == |sizes| * (hmminds * 4096);
  }

  lemma Factor(n: nat, x: nat, y: nat)
    requires x <= y
    ensures n * x <= n * y
  {
  }

  lemma {:induction false} SumAtLeast(sizes: seq<nat>, floor: nat)
    requires forall i :: 0 <= i < |sizes| ==> sizes[i] >= floor
    ensures |sizes| * floor <= Sum(sizes)
  {
    if sizes != [] {
      var n := |sizes| - 1;
      SumAtLeast(sizes[..n], floor);
      assert (n + 1) * floor == n * floor + floor;
    }
  }

  // ------------------------------------------------- exactness of the page sum

  ghost predicate WholePages(sizes: seq<nat>) { forall i :: 0 <= i < |sizes| ==> sizes[i] % PAGE == 0 }

  /** The descriptors cover the gathered bytes exactly when every chunk is a
      whole number of pages; otherwise they fall short. */
  lemma {:induction false} PagesExact(sizes: seq<nat>)
    ensures PAGE * Pages(sizes) <= Sum(sizes)
    ensures PAGE * Pages(sizes) == Sum(sizes) <==> WholePages(sizes)
  {
    if sizes != [] {
      var n := |sizes| - 1;
      PagesExact(sizes[..n]);
      assert sizes == sizes[..n] + [sizes[n]];
      assert sizes[n] == PAGE * (sizes[n] / PAGE) + sizes[n] % PAGE;
      assert WholePages(sizes) <==> WholePages(sizes[..n]) && sizes[n] % PAGE == 0;
    }
  }

  /** Every attempt size the halving can still reach is a whole number of pages. */
  predicate PageHalves(attempt: nat, floor: nat)
    requires floor > 0
    decreases attempt
  {
    attempt < floor || (attempt % PAGE == 0 && PageHalves(attempt / 2, floor))
  }

  lemma {:induction false} FillWhole(yes: nat -> bool, n: nat, j: Job, attempt: nat, sizes: seq<nat>)
    requires j.floor > 0 && j.preferred % PAGE == 0 && PageHalves(attempt, j.floor)
    requires WholePages(sizes) && Sum(sizes) % PAGE == 0
    ensures WholePages(Fill(yes, n, j, attempt, sizes))
    decreases if Sum(sizes) < j.preferred then j.preferred - Sum(sizes) else 0, attempt
  {
    FillStep(yes, n, j, attempt, sizes);
    hide Fill;
    if Sum(sizes) < j.preferred && |sizes| < j.cap && attempt >= j.floor {
      var chunk := Min(attempt, j.preferred - Sum(sizes));
      SumPush(sizes, chunk);
      ChunkWhole(j.preferred, Sum(sizes), attempt);
      hide Min, Sum;
      if chunk >= j.floor {
        if yes(n) { FillWhole(yes, n + 1, j, attempt, sizes + [chunk]); }
        else { FillWhole(yes, n + 1, j, attempt / 2, sizes); }
      }
    }
  }

  lemma ChunkWhole(preferred: nat, total: nat, attempt: nat)
    requires preferred % PAGE == 0 && total % PAGE == 0 && attempt % PAGE == 0 && total <= preferred
    ensures var chunk := Min(attempt, preferred - total); chunk % PAGE == 0 && (total + chunk) % PAGE == 0
  {
  }

  /** A pool that serves only the allocation numbered `k`. */
  function OnlyAt(k: nat): nat -> bool { i => i == k }

  lemma {:induction false} FillRefused(k: nat, n: nat, j: Job, attempt: nat, sizes: seq<nat>)
    requires j.floor > 0 && k < n
    ensures Fill(OnlyAt(k), n, j, attempt, sizes) == sizes
    decreases attempt
  {
    if attempt >= j.floor { FillRefused(k, n + 1, j, attempt / 2, sizes); }
  }

  /** If the halving can reach a broken size, some pool makes it the only chunk. */
  lemma {:induction false} BrokenChunk(n: nat, j: Job, attempt: nat) returns (k: nat, chunk: nat)
    requires j.floor > 0 && j.cap > 0 && attempt <= j.preferred && !PageHalves(attempt, j.floor)
    ensures k >= n && chunk % PAGE != 0 && Fill(OnlyAt(k), n, j, attempt, []) == [chunk]
    decreases attempt
  {
    assert Sum([]) == 0;
    if attempt % PAGE != 0 {
      k, chunk := n, attempt;
      assert [] + [attempt] == [attempt];
      FillRefused(n, n + 1, j, attempt, [attempt]);
    } else {
      k, chunk := BrokenChunk(n + 1, j, attempt / 2);
    }
  }

  ghost predicate Exact(yes: nat -> bool, j: Job)
    requires j.floor > 0
  {
    PAGE * Pages(Gather(yes, j)) == Sum(Gather(yes, j))
  }

  /** The descriptors' pages add up to the buffer size under every allocator
      behaviour exactly when no reachable halving breaks a page. */
  lemma ExactIff(j: Job)
    requires j.floor > 0 && j.cap > 0 && j.preferred % PAGE == 0
    ensures (forall yes: nat -> bool :: Exact(yes, j)) <==> PageHalves(Min(START_CHUNK, j.preferred), j.floor)
  {
    var attempt := Min(START_CHUNK, j.preferred);
    if PageHalves(attempt, j.floor) {
      forall yes: nat -> bool ensures Exact(yes, j) { GatherWhole(yes, j); }
    } else {
      var k := BrokenGather(j);
      assert !Exact(OnlyAt(k), j);
    }
  }

  lemma GatherWhole(yes: nat -> bool, j: Job)
    requires j.floor > 0 && j.preferred % PAGE == 0 && PageHalves(Min(START_CHUNK, j.preferred), j.floor)
    ensures Exact(yes, j)
  {
    assert Sum([]) == 0 && [] + [j.preferred] == [j.preferred];
    SumPush([], j.preferred);
    var attempt := Min(START_CHUNK, j.preferred);
    hide Fill, PageHalves;
    if j.preferred >= j.floor {
      FillWhole(yes, 2, j, attempt, if yes(1) then [j.preferred] else []);
    } else {
      FillWhole(yes, 1, j, attempt, []);
    }
    PagesExact(Gather(yes, j));
  }

  lemma BrokenGather(j: Job) returns (k: nat)
    requires j.floor > 0 && j.cap > 0 && !PageHalves(Min(START_CHUNK, j.preferred), j.floor)
    ensures !Exact(OnlyAt(k), j)
  {
    assert j.preferred >= j.floor;
    var chunk;
    k, chunk := BrokenChunk(2, j, Min(START_CHUNK, j.preferred));
    hide Fill, PageHalves;
    PagesExact([chunk]);
    assert [chunk][0] % PAGE != 0;
  }

  /** A concrete shortfall: five pages preferred, the 8 KiB floor, and a pool that
      refuses 20 KiB and grants 10 KiB.  The buffer is 10 KiB, its descriptor
      announces two pages. */
  lemma FivePages()
    ensures var j := Job(5 * PAGE, MIN_CHUNK, 2);
            && Gather(OnlyAt(3), j) == [10240]
            && Sum(Gather(OnlyAt(3), j)) == 10240 && PAGE * Pages(Gather(OnlyAt(3), j)) == 8192
  {
    var j := Job(5 * PAGE, MIN_CHUNK, 2);
    assert Sum([]) == 0;
    FillRefused(3, 4, j, 10240, [10240]);
    FillStep(OnlyAt(3), 3, j, 10240, []);
    FillStep(OnlyAt(3), 2, j, 20480, []);
    hide Fill;
    assert [] + [10240] == [10240];
    SumPush([], 10240);
  }

  /** From 16 MiB up the sum is exact for every controller and every pool: the
      halvings of the start chunk above 8 KiB are whole pages. */
  lemma LargeExact(j: Job, yes: nat -> bool)
    requires j.floor >= MIN_CHUNK && j.preferred % PAGE == 0 && j.preferred >= START_CHUNK
    ensures Exact(yes, j)
  {
    StartHalves(12, j.floor);
    StartIsPow();
    hide PagesPow, PageHalves;
    GatherWhole(yes, j);
  }

  function PagesPow(n: nat): nat { if n == 0 then PAGE else 2 * PagesPow(n - 1) }

  lemma {:induction false} StartHalves(n: nat, floor: nat)
    requires floor >= MIN_CHUNK
    ensures PageHalves(PagesPow(n), floor) && PagesPow(n) % PAGE == 0
  {
    if n > 0 { StartHalves(n - 1, floor); }
  }

  lemma StartIsPow()
    ensures PagesPow(12) == START_CHUNK
  {
    assert PagesPow(6) == 64 * PAGE;
  }

  function OddPart(m: nat): (o: nat)
    requires m > 0
    ensures o > 0
  {
    if m % 2 == 0 then OddPart(m / 2) else m
  }

  /** Below 16 MiB: a preferred size of m pages is safe exactly when half a page
      times the odd part of m is already below the floor. */
  lemma {:induction false} HalvesOddPart(m: nat, floor: nat)
    requires m > 0 && floor >= MIN_CHUNK
    ensures PageHalves(PAGE * m, floor) <==> OddPart(m) * (PAGE / 2) < floor
    decreases m
  {
    OddPartAtMost(m);
    if m % 2 == 0 {
      HalvesOddPart(m / 2, floor);
      assert PAGE * m / 2 == PAGE * (m / 2);
      if PAGE * m < floor { assert OddPart(m) * (PAGE / 2) <= m * (PAGE / 2); }
    } else {
      assert PAGE * m / 2 == m * (PAGE / 2);
      assert m * (PAGE / 2) % PAGE != 0;
      assert PAGE * m % PAGE == 0;
    }
  }

  lemma {:induction false} OddPartAtMost(m: nat)
    requires m > 0
    ensures OddPart(m) <= m
  {
    if m % 2 == 0 { OddPartAtMost(m / 2); }
  }

  // --------------------------------------------------------------- in place

  datatype Desc = Desc(addr: nat, pages: nat)

  /** Addresses `a .. a + n`. */
  function Block(a: nat, n: nat): (b: set<nat>)
    ensures forall x :: x in b <==> a <= x < a + n
  {
    if n == 0 then {} else Block(a, n - 1) + {a + n - 1}
  }

  /** The controller's HMB fields and the pool its chunks come from.  Pool
      addresses are handed out in order and never reused. */
  class HostMem {
    var descs: array?<Desc>
    var table: nat
    var nrDescs: nat
    var hmbSize: nat
    var live: set<nat>
    var next: nat

    ghost predicate Ok()
      reads this, descs
    {
      && (forall a :: a in live ==> a < next)
      && (descs != null ==>
            nrDescs <= descs.Length && forall i :: 0 <= i < nrDescs ==> descs[i].addr == table + 1 + i)
    }

    method DmaAlloc(granted: bool) returns (a: nat, ok: bool)
      requires forall x :: x in live ==> x < next
      modifies `live, `next
      ensures ok == granted && a == old(next)
      ensures next == old(next) + (if ok then 1 else 0)
      ensures live == old(live) + (if ok then {a} else {})
      ensures forall x :: x in live ==> x < next
    {
      a, ok := next, granted;
      if ok {
        live := live + {a};
        next := next + 1;
      }
    }

    /** The table describes chunks of these sizes, gathered on top of `base`. */
    ghost predicate Holds(sizes: seq<nat>, base: set<nat>)
      reads this, descs
    {
      && descs != null && nrDescs == |sizes| <= descs.Length && next == table + 1 + nrDescs
      && live == base + Block(table, nrDescs + 1) && (forall a :: a in base ==> a < table)
      && forall i :: 0 <= i < |sizes| ==> descs[i] == Desc(table + 1 + i, sizes[i] / PAGE)
    }

    /** One allocation and, if granted, its descriptor. */
    method TakeChunk(granted: bool, chunk: nat, ghost sizes: seq<nat>, ghost base: set<nat>)
      requires Holds(sizes, base) && nrDescs < descs.Length
      modifies this, descs
      ensures descs == old(descs) && table == old(table)
      ensures Holds(if granted then sizes + [chunk] else sizes, base)
    {
      var a, ok := DmaAlloc(granted);
      if ok {
        descs[nrDescs] := Desc(a, chunk / PAGE);
        nrDescs := nrDescs + 1;
      }
    }

    /** Phase 2: take chunks, halving the attempt on refusal. */
    method GreedyFill(yes: nat -> bool, start: nat, j: Job, first: nat, had: nat, ghost sizes0: seq<nat>,
                      ghost base: set<nat>)
      returns (total: nat)
      requires j.floor > 0 && Holds(sizes0, base) && descs.Length == j.cap && had == Sum(sizes0)
      modifies this, descs
      ensures descs == old(descs) && table == old(table) && Holds(Fill(yes, start, j, first, sizes0), base)
      ensures total == Sum(Fill(yes, start, j, first, sizes0))
    {
      hide Fill, Sum;
      ghost var sizes: seq<nat> := sizes0;
      total := had;
      var n, attempt: nat := start, first;
      while total < j.preferred && nrDescs < j.cap && attempt >= j.floor
        invariant descs == old(descs) && table == old(table) && Holds(sizes, base) && total == Sum(sizes)
        invariant Fill(yes, n, j, attempt, sizes) == Fill(yes, start, j, first, sizes0)
        decreases if total < j.preferred then j.preferred - total else 0, attempt
      {
        FillStep(yes, n, j, attempt, sizes);
        var chunk := Min(attempt, j.preferred - total);
        if chunk < j.floor { break; }
        TakeChunk(yes(n), chunk, sizes, base);
        SumPush(sizes, chunk);
        if yes(n) { sizes, total := sizes + [chunk], total + chunk; } else { attempt := attempt / 2; }
        n := n + 1;
      }
      FillStep(yes, n, j, attempt, sizes);
    }

    /** nvme_alloc_host_mem.  `sizes` is what the pool gave, within the controller's
        limits.  It succeeds exactly when the table and at least `min` bytes could
        be had; on failure every block goes back. */
    method AllocHostMem(yes: nat -> bool, min: nat, preferred: nat, hmminds: nat, hmmaxd: nat)
      returns (ok: bool, ghost sizes: seq<nat>)
      requires Ok() && descs == null
      modifies this
      ensures Gathered(yes, preferred, hmminds, hmmaxd, sizes) && Legal(preferred, hmminds, hmmaxd, sizes)
      ensures ok <==> yes(0) && Sum(sizes) >= min
      ensures ok ==> Holds(sizes, old(live)) && hmbSize == Sum(sizes)
      ensures !ok ==> descs == null && live == old(live)
      ensures !ok && yes(0) ==> nrDescs == 0 && hmbSize == 0
    {
      var floor := Floor(hmminds);
      var cap := Cap(hmmaxd, preferred, floor);
      var j := Job(preferred, floor, cap);
      ghost var base := live;
      CapPositive(hmmaxd, preferred, floor);
      GatherBounded(yes, j);
      GatherTries(yes, preferred, hmminds, hmmaxd);
      BoundedLegal(j, hmminds, hmmaxd, Gather(yes, j));
      sizes := Gather(yes, j);
      hide Bounded, Legal, Gathered, Floor, Cap, Fill, Gather, Block;
      var granted := OpenTable(yes(0), cap);
      if !granted { return false, sizes; }
      ghost var taken: seq<nat> := [];
      var total: nat, n: nat := 0, 1;
      assert Sum([]) == 0;
      if preferred >= floor {
        TakeChunk(yes(1), preferred, taken, base);
        SumPush([], preferred);
        n := 2;
        if yes(1) { taken, total := [] + [preferred], preferred; }
      }
      GatherIs(yes, j);
      total := GreedyFill(yes, n, j, Min(START_CHUNK, preferred), total, taken, base);
      ok := Settle(total, min, sizes, base);
    }

    /** The descriptor table, worst-case sized. */
    method OpenTable(granted: bool, cap: nat) returns (ok: bool)
      requires Ok() && descs == null
      modifies this
      ensures ok == granted
      ensures ok ==> Holds([], old(live)) && fresh(descs) && descs.Length == cap
      ensures !ok ==> descs == null && live == old(live)
    {
      table, ok := DmaAlloc(granted);
      if ok {
        descs := new Desc[cap](_ => Desc(0, 0));
        nrDescs, hmbSize := 0, 0;
      }
    }

    /** Below the minimum everything goes back. */
    method Settle(total: nat, min: nat, ghost sizes: seq<nat>, ghost base: set<nat>) returns (ok: bool)
      requires Holds(sizes, base)
      modifies this
      ensures ok <==> total >= min
      ensures ok ==> Holds(sizes, base) && hmbSize == total && descs == old(descs)
      ensures !ok ==> descs == null && live == base && nrDescs == 0 && hmbSize == 0
    {
      hmbSize := total;
      ok := total >= min;
      if !ok {
        BackToBase(base, table, nrDescs + 1);
        ChunksFree();
      }
    }

    /** hmb_chunks_free: each chunk by the address in its descriptor, then the
        table. */
    method ChunksFree()
      requires Ok()
      modifies this
      ensures descs == null && nrDescs == 0 && hmbSize == 0
      ensures live == old(live) - (if old(descs) == null then {} else Block(old(table), old(nrDescs) + 1))
    {
      if descs != null {
        for i := 0 to nrDescs
          invariant descs == old(descs) && table == old(table) && nrDescs == old(nrDescs) && next == old(next)
          invariant live == old(live) - Block(table + 1, i)
        {
          live := live - {descs[i].addr};
        }
        live := live - {table};
        descs := null;
      }
      nrDescs, hmbSize := 0, 0;
    }
  }

  lemma BackToBase(base: set<nat>, a: nat, n: nat)
    requires forall x :: x in base ==> x < a
    ensures base + Block(a, n) - Block(a, n) == base
  {
  }

  lemma GatherIs(yes: nat -> bool, j: Job)
    requires j.floor > 0
    ensures var first := Min(START_CHUNK, j.preferred);
            Gather(yes, j) == if j.preferred < j.floor then Fill(yes, 1, j, first, [])
                              else if yes(1) then Fill(yes, 2, j, first, [] + [j.preferred])
                              else Fill(yes, 2, j, first, [])
  {
    hide Fill;
    assert [] + [j.preferred] == [j.preferred];
  }

  lemma CapPositive(hmmaxd: nat, preferred: nat, floor: nat)
    requires floor > 0
    ensures preferred >= floor ==> Cap(hmmaxd, preferred, floor) > 0
  {
  }
}
