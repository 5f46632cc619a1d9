/** Command identifiers of one queue: the in-flight table, the free stack of
    encoded CIDs and the 4-bit generation that rides on every CID.

    `Pool` is the value of the queue's tag state; `TagTable` is the same state
    held in the two arrays the queue owns (module TagArrays).  An encoded CID is
    `generation * 4096 + tag`. */
module Tags {

  /** A 16-bit command identifier, read as its two fields. */
  datatype Cid = Cid(gen: nat, tag: nat)

  datatype Slot = Empty | Busy(req: nat, cid: Cid)

  datatype Option<+T> = None | Some(value: T)

  /** `releases[t]` is history: how often tag `t` has gone back to the stack. */
  datatype Pool = Pool(skipGen: bool, table: seq<Slot>, free: seq<Cid>, count: int, releases: seq<nat>)

  /** 0xFFFF, the "queue is fully busy" answer of the allocator. */
  const NO_CID: Cid := Cid(15, 4095)

  function Encode(c: Cid): nat { c.gen * 0x1000 + c.tag }

  function Decode(raw: nat): Cid { Cid(raw / 0x1000, raw % 0x1000) }

  /** The two fields are exactly the 16-bit word. */
  lemma CidCodec(c: Cid, raw: nat)
    ensures Encode(Decode(raw)) == raw
    ensures c.tag < 0x1000 ==> Decode(Encode(c)) == c
    ensures c.tag < 0x1000 && c.gen < 16 ==> Encode(c) < 0x10000
  {
  }

  function GenOf(p: Pool, t: nat): nat
    requires t < |p.releases|
  {
    if p.skipGen then 0 else p.releases[t] % 16
  }

  /** The CID tag `t` carries for its current use. */
  function Stamp(p: Pool, t: nat): Cid
    requires t < |p.releases|
  {
    Cid(GenOf(p, t), t)
  }

  function TagsOf(cids: seq<Cid>): (ts: seq<nat>)
    ensures |ts| == |cids|
    ensures forall i :: 0 <= i < |cids| ==> ts[i] == cids[i].tag
  {
    seq(|cids|, i requires 0 <= i < |cids| => cids[i].tag)
  }

  /** Keeps a conjunction in one piece where it is passed along whole. */
  ghost predicate Whole(p: bool) { p == true }

  ghost predicate NoDup<T>(s: seq<T>) {
    forall i, j :: 0 <= i < j < |s| ==> s[i] != s[j]
  }

  /** What the operations need in order to index. */
  ghost predicate Shape(p: Pool) {
    |p.releases| == |p.table| && forall i :: 0 <= i < |p.free| ==> p.free[i].tag < |p.table|
  }

  /** Free stack and occupied slots partition [0, depth). */
  ghost predicate Valid(p: Pool) {
    && Shape(p)
    && 0 < |p.table| <= 256
    && p.count + |p.free| == |p.table|
    && (forall i :: 0 <= i < |p.free| ==>
          p.free[i] == Stamp(p, p.free[i].tag) && p.table[p.free[i].tag] == Empty)
    && NoDup(TagsOf(p.free))
    && (forall t :: 0 <= t < |p.table| && p.table[t].Busy? ==> p.table[t].cid == Stamp(p, t))
    && (forall t :: 0 <= t < |p.table| && p.table[t].Empty? ==> t in TagsOf(p.free))
  }

  // ------------------------------------------------------------- operations

  function Init(depth: nat, skipGen: bool): Pool {
    Pool(skipGen, seq(depth, _ => Empty),
         seq(depth, i requires 0 <= i < depth => Cid(0, depth - 1 - i)), 0, seq(depth, _ => 0))
  }

  function AllocCid(p: Pool): (r: (Pool, Cid)) {
    if |p.free| == 0 then (p, NO_CID)
    else (p.(free := p.free[..|p.free| - 1]), p.free[|p.free| - 1])
  }

  function Claim(p: Pool, cid: Cid, req: nat): Pool
    requires cid.tag < |p.table|
  {
    var t := cid.tag;
    p.(table := p.table[t := Busy(req, cid)],
       count := if p.table[t].Empty? then p.count + 1 else p.count)
  }

  function NextCid(p: Pool, cid: Cid): Cid {
    if p.skipGen then Cid(0, cid.tag) else Cid((cid.gen + 1) % 16, cid.tag)
  }

  function Release(p: Pool, cid: Cid): Pool
    requires Shape(p) && cid.tag < |p.table|
  {
    var t := cid.tag;
    if p.table[t].Empty? then p
    else p.(table := p.table[t := Empty], count := p.count - 1,
            free := p.free + [NextCid(p, cid)],
            releases := p.releases[t := p.releases[t] + 1])
  }

  /** The request a completion with this raw CID is matched to (drain_cq). */
  function Lookup(p: Pool, raw: Cid): Option<nat> {
    var t := raw.tag;
    if t < |p.table| && p.table[t].Busy? && p.table[t].cid == raw then Some(p.table[t].req) else None
  }

  /** AllocCid followed by Claim: how every caller takes a tag. */
  function Take(p: Pool, req: nat): (r: (Pool, Cid))
    requires Shape(p)
  {
    var (q, cid) := AllocCid(p);
    if |p.free| == 0 then (q, NO_CID) else (Claim(q, cid, req), cid)
  }

  // ------------------------------------------------------------- invariants

  lemma InitValid(depth: nat, skipGen: bool)
    requires 0 < depth <= 256
    ensures Valid(Init(depth, skipGen))
    ensures Init(depth, skipGen).free[depth - 1] == Cid(0, 0)
  {
    var p := Init(depth, skipGen);
    forall t | 0 <= t < depth ensures t in TagsOf(p.free) {
      assert TagsOf(p.free)[depth - 1 - t] == t;
    }
  }

  lemma TakeValid(p: Pool, req: nat)
    requires Valid(p)
    ensures var (q, cid) := Take(p, req);
            && Valid(q)
            && (cid == NO_CID <==> |p.free| == 0)
            && (cid == NO_CID ==> q == p)
            && (cid != NO_CID ==>
                  && cid.tag < |p.table| && p.table[cid.tag] == Empty
                  && cid == Stamp(p, cid.tag)
                  && q.table == p.table[cid.tag := Busy(req, cid)]
                  && q.count == p.count + 1 && q.releases == p.releases && q.skipGen == p.skipGen)
  {
    if |p.free| > 0 {
      var n := |p.free| - 1;
      var (q, cid) := Take(p, req);
      assert TagsOf(p.free)[n] == cid.tag;
      assert TagsOf(q.free) == TagsOf(p.free)[..n];
      forall t | 0 <= t < |q.table| && q.table[t].Empty? ensures t in TagsOf(q.free) {
        assert t in TagsOf(p.free) && t != TagsOf(p.free)[n];
      }
    }
  }

  lemma PushTag(free: seq<Cid>, c: Cid)
    ensures TagsOf(free + [c]) == TagsOf(free) + [c.tag]
    ensures NoDup(TagsOf(free)) && c.tag !in TagsOf(free) ==> NoDup(TagsOf(free + [c]))
    ensures forall u :: u in TagsOf(free + [c]) <==> u in TagsOf(free) || u == c.tag
  {
    assert TagsOf(free + [c]) == TagsOf(free) + [c.tag];
  }

  lemma BusyNotFree(p: Pool, t: nat)
    requires Valid(p) && t < |p.table| && p.table[t].Busy?
    ensures t !in TagsOf(p.free)
  {
  }

  lemma ReleaseValid(p: Pool, t: nat)
    requires Valid(p) && t < |p.table| && p.table[t].Busy?
    ensures var q := Release(p, p.table[t].cid);
            && p.table[t].cid.tag == t
            && Valid(q) && q.table == p.table[t := Empty]
            && q.count == p.count - 1 && q.skipGen == p.skipGen
            && q.releases == p.releases[t := p.releases[t] + 1]
  {
    var q := Release(p, p.table[t].cid);
    BusyNotFree(p, t);
    PushTag(p.free, Stamp(q, t));
    assert q.free == p.free + [Stamp(q, t)];
    hide TagsOf, NoDup;
  }

  ghost function BusyTags(p: Pool): set<nat> {
    set t: nat | t < |p.table| && p.table[t].Busy?
  }

  function Elems(s: seq<nat>): set<nat> { set x | x in s }

  lemma {:induction false} NoDupCard(s: seq<nat>)
    requires NoDup(s)
    ensures |Elems(s)| == |s|
  {
    if s == [] {
      assert Elems(s) == {};
    } else {
      var n := |s| - 1;
      NoDupCard(s[..n]);
      var before := Elems(s[..n]);
      assert s[n] !in before;
      assert Elems(s) == before + {s[n]};
    }
  }

  function Upto(n: nat): (s: set<nat>)
    ensures |s| == n
    ensures forall t :: t in s <==> 0 <= t < n
  {
    if n == 0 then {} else Upto(n - 1) + {n - 1}
  }

  /** `inflight_count` is the number of occupied slots, and free stack and
      occupied slots split the tags without overlap. */
  lemma CountIsBusy(p: Pool)
    requires Valid(p)
    ensures p.count == |BusyTags(p)|
    ensures BusyTags(p) !! Elems(TagsOf(p.free))
    ensures BusyTags(p) + Elems(TagsOf(p.free)) == Upto(|p.table|)
  {
    var fs := Elems(TagsOf(p.free));
    NoDupCard(TagsOf(p.free));
    forall t | t in fs ensures t < |p.table| && p.table[t].Empty? {
      var i :| 0 <= i < |p.free| && TagsOf(p.free)[i] == t;
      assert p.table[p.free[i].tag] == Empty;
    }
    assert BusyTags(p) !! fs;
    assert BusyTags(p) + fs == Upto(|p.table|);
    assert |BusyTags(p) + fs| == |BusyTags(p)| + |fs|;
  }

  lemma BusyLeavesRoom(p: Pool, t: nat)
    requires Valid(p) && t < |p.table| && p.table[t].Busy?
    ensures |p.free| < |p.table|
  {
    CountIsBusy(p);
    assert t in BusyTags(p);
  }

  // ------------------------------------------------ stale completions, runs

  datatype TagOp = Acquire(req: nat) | Return(tag: nat)

  /** One allocation or one release; a release of an empty slot is a no-op. */
  function Step(p: Pool, op: TagOp): Pool
    requires Shape(p)
  {
    match op
    case Acquire(req) => Take(p, req).0
    case Return(t) => if t < |p.table| && p.table[t].Busy? && p.table[t].cid.tag == t
                    then Release(p, p.table[t].cid) else p
  }

  lemma StepValid(p: Pool, op: TagOp)
    requires Valid(p)
    ensures Valid(Step(p, op)) && |Step(p, op).table| == |p.table| && Step(p, op).skipGen == p.skipGen
    ensures forall t :: 0 <= t < |p.table| ==> p.releases[t] <= Step(p, op).releases[t]
  {
    match op
    case Acquire(req) => TakeValid(p, req);
    case Return(t) => if t < |p.table| && p.table[t].Busy? { ReleaseValid(p, t); }
  }

  ghost function Run(p: Pool, ops: seq<TagOp>): Pool
    requires Valid(p)
    decreases |ops|
  {
    if ops == [] then p else StepValid(p, ops[0]); Run(Step(p, ops[0]), ops[1..])
  }

  lemma {:induction false} RunValid(p: Pool, ops: seq<TagOp>)
    requires Valid(p)
    ensures Valid(Run(p, ops)) && |Run(p, ops).table| == |p.table| && Run(p, ops).skipGen == p.skipGen
    ensures forall t :: 0 <= t < |p.table| ==> p.releases[t] <= Run(p, ops).releases[t]
    decreases |ops|
  {
    if ops != [] {
      StepValid(p, ops[0]);
      RunValid(Step(p, ops[0]), ops[1..]);
    }
  }

  lemma Mod16(a: nat, b: nat)
    requires a <= b
    ensures a % 16 == b % 16 <==> (b - a) % 16 == 0
  {
  }

  /** A completion carrying the CID of an earlier use of a tag is matched after
      any run of allocations and releases exactly when the slot is occupied and
      the tag has been released a multiple of 16 times since (0 included: the
      same use). */
  lemma StaleCqe(p: Pool, t: nat, ops: seq<TagOp>)
    requires Valid(p) && t < |p.table| && p.table[t].Busy? && !p.skipGen
    ensures var q := Run(p, ops);
            && |q.table| == |p.table| && |q.releases| == |p.table|
            && p.releases[t] <= q.releases[t]
            && (Lookup(q, p.table[t].cid).Some? <==>
                  q.table[t].Busy? && (q.releases[t] - p.releases[t]) % 16 == 0)
  {
    RunValid(p, ops);
    var q := Run(p, ops);
    assert q.table[t].Busy? ==> q.table[t].cid == Stamp(q, t);
    hide Run, Valid;
    Mod16(p.releases[t], q.releases[t]);
  }
}

/** The queue's tag state in place: the `inflight` and `free_stack` arrays. */
module TagArrays {
  import opened Tags

  /** The queue's `inflight` and `free_stack` arrays, updated in place. */
  class TagTable {
    const skipGen: bool
    const inflight: array<Slot>
    const freeStack: array<Cid>
    var freeTop: nat
    var inflightCount: int
    ghost var releases: seq<nat>

    ghost predicate Sized()
      reads this
    {
      freeTop <= freeStack.Length == inflight.Length
    }

    ghost function Value(): Pool
      requires Sized()
      reads this, inflight, freeStack
    {
      Pool(skipGen, inflight[..], freeStack[..freeTop], inflightCount, releases)
    }

    ghost predicate Ok()
      reads this, inflight, freeStack
    {
      Sized() && Valid(Value())
    }

    constructor (depth: nat, skipGen: bool)
      requires 0 < depth <= 256
      ensures Ok() && fresh(inflight) && fresh(freeStack)
      ensures Value() == Init(depth, skipGen)
    {
      this.skipGen := skipGen;
      var table := new Slot[depth](_ => Empty);
      var stack := new Cid[depth](_ => Cid(0, 0));
      for i := 0 to depth
        invariant forall j :: 0 <= j < i ==> stack[j] == Cid(0, depth - 1 - j)
        invariant forall j :: 0 <= j < depth ==> table[j] == Empty
      {
        stack[i] := Cid(0, depth - 1 - i);
      }
      inflight, freeStack := table, stack;
      freeTop, inflightCount := depth, 0;
      releases := seq(depth, _ => 0);
      new;
      assert freeStack[..freeTop] == Init(depth, skipGen).free;
      assert inflight[..] == Init(depth, skipGen).table;
      InitValid(depth, skipGen);
    }

    method AllocCid() returns (cid: Cid)
      requires Sized()
      modifies `freeTop
      ensures Sized()
      ensures (Value(), cid) == Tags.AllocCid(old(Value()))
    {
      if freeTop == 0 { return NO_CID; }
      freeTop := freeTop - 1;
      cid := freeStack[freeTop];
      assert freeStack[..freeTop] == old(freeStack[..freeTop])[..freeTop];
    }

    method Claim(cid: Cid, req: nat)
      requires Sized() && cid.tag < inflight.Length
      modifies `inflightCount, inflight
      ensures Sized()
      ensures Value() == Tags.Claim(old(Value()), cid, req)
    {
      var tag := cid.tag;
      if inflight[tag].Empty? { inflightCount := inflightCount + 1; }
      inflight[tag] := Busy(req, cid);
    }

    method Release(cid: Cid)
      requires Ok() && cid.tag < inflight.Length
      modifies this, inflight, freeStack
      ensures Sized()
      ensures Value() == Tags.Release(old(Value()), cid)
    {
      var tag := cid.tag;
      if inflight[tag].Empty? { return; }
      BusyLeavesRoom(Value(), tag);
      inflight[tag] := Empty;
      inflightCount := inflightCount - 1;
      var next := if skipGen then Cid(0, tag) else Cid((cid.gen + 1) % 16, tag);
      freeStack[freeTop] := next;
      freeTop := freeTop + 1;
      releases := releases[tag := releases[tag] + 1];
      assert freeStack[..freeTop] == old(freeStack[..freeTop]) + [next];
    }
  }
}
