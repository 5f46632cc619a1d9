/** PRP entries: how build_prps lays a transfer's page list, and what a device
    following section 4.3 of NVM Express 1.4 makes of it. */
module Prp {
  import opened Base
  import opened Tags
  import opened Seqs

  /** Pages after the first one that a transfer of `bytes` starting `off` bytes
      into its first page touches (u32 arithmetic of build_prps). */
  function DataPages(off: nat, bytes: nat): nat {
    var first := PAGE - off % PAGE;
    if bytes <= first then 0 else (bytes - first + PAGE - 1) % 0x1_0000_0000 / PAGE
  }

  /** List pages build_prps lays for `nr` listed data pages: it chains after
      every 511 entries whenever more data remain. */
  function ListPages(nr: nat): nat {
    if nr <= 1 then 0 else (nr + 510) / 511
  }

  /** Eight list pages hold 4088 entries: 4089 pages at most. */
  lemma EightPages(off: nat, bytes: nat)
    requires off < PAGE && off + bytes <= U32 && ListPages(DataPages(off, bytes)) <= 8
    ensures bytes <= 4089 * PAGE
  {
  }

  // --------------------------------------------------------- the device's view

  /** Words `at`, `at + 8`, ...: `n` of them. */
  function ReadWords(words: map<nat, nat>, at: nat, n: nat): (r: Option<seq<nat>>)
    ensures r.Some? ==> |r.value| == n
  {
    if n == 0 then Some([])
    else
      match ReadWords(words, at, n - 1)
      case None => None
      case Some(s) =>
        if at + 8 * (n - 1) in words then Some(s + [words[at + 8 * (n - 1)]]) else None
  }

  /** The device walks a list for `n` data pages: entries up to the end of the
      list's page; when more than fit remain, the last slot there points to the
      next list, which starts a page. */
  function Walk(words: map<nat, nat>, at: nat, n: nat): Option<seq<nat>>
    decreases n, at % PAGE
  {
    var room := (PAGE - at % PAGE) / 8;
    if at % 8 != 0 then None
    else if n <= room then ReadWords(words, at, n)
    else
      match ReadWords(words, at, room - 1)
      case None => None
      case Some(here) =>
        var last := at + 8 * (room - 1);
        if last !in words || words[last] % PAGE != 0 then None
        else
          match Walk(words, words[last], n - (room - 1))
          case None => None
          case Some(rest) => Some(here + rest)
  }

  /** The pages after the first that the device takes from the two PRP fields. */
  function DevicePages(words: map<nat, nat>, prp1: nat, prp2: nat, bytes: nat): Option<seq<nat>> {
    var first := PAGE - prp1 % PAGE;
    if bytes <= first then Some([])
    else
      var n := (bytes - first + PAGE - 1) / PAGE;
      if n == 1 then Some([prp2]) else Walk(words, prp2, n)
  }

  /** The addresses the device transfers, byte by byte. */
  ghost function DeviceBytes(words: map<nat, nat>, prp1: nat, prp2: nat, bytes: nat): Option<seq<nat>> {
    var first := PAGE - prp1 % PAGE;
    match DevicePages(words, prp1, prp2, bytes)
    case None => None
    case Some(pages) =>
      if bytes <= first + PAGE * |pages| then Some(seq(bytes, j requires 0 <= j < bytes => ByteAt(prp1, pages, j)))
      else None
  }

  function ByteAt(prp1: nat, pages: seq<nat>, j: nat): nat
    requires j < PAGE - prp1 % PAGE + PAGE * |pages|
  {
    var first := PAGE - prp1 % PAGE;
    if j < first then prp1 + j else pages[(j - first) / PAGE] + (j - first) % PAGE
  }

  // ------------------------------------------------------- what the host lays

  /** The page after the first that listed entry `i` describes. */
  function Entry(buf: nat, i: nat): nat { buf + (PAGE - buf % PAGE) + i * PAGE }

  function Entries(buf: nat, nr: nat): (s: seq<nat>)
    ensures |s| == nr
  {
    seq(nr, i requires 0 <= i < nr => Entry(buf, i))
  }

  /** Entry `i` sits in slot `i % 511` of list page `i / 511`, and every list
      page but the last chains to its successor from slot 511. */
  ghost predicate Laid(words: map<nat, nat>, pages: seq<nat>, buf: nat, nr: nat) {
    && (forall i :: 0 <= i < nr ==> i / 511 < |pages| && WordIs(words, pages[i / 511] + 8 * (i % 511), Entry(buf, i)))
    && (forall p :: 0 <= p < |pages| - 1 ==> WordIs(words, pages[p] + 8 * 511, pages[p + 1]))
  }

  predicate WordIs(words: map<nat, nat>, a: nat, v: nat) { a in words && words[a] == v }

  /** A list block: 256 bytes within a page for up to 32 entries, else a page. */
  predicate ListBlock(small: bool, a: nat) { if small then a % 256 == 0 else a % PAGE == 0 }

  function ListBytes(small: bool): nat { if small then 256 else PAGE }

  /** What the slab hands out: aligned blocks, all different, away from the
      buffer being described. */
  ghost predicate SlabOk(slab: nat -> Option<nat>, small: bool, buf: nat, bytes: nat) {
    && (forall n :: slab(n).Some? ==> ListBlock(small, slab(n).value))
    && (forall m, n :: m != n && slab(m).Some? && slab(n).Some? ==> slab(m).value != slab(n).value)
    && (forall n :: slab(n).Some? ==> slab(n).value + ListBytes(small) <= buf || buf + bytes <= slab(n).value)
  }

  // -------------------------------------------------------------- the walk

  lemma {:induction false} ReadRun(words: map<nat, nat>, at: nat, vals: seq<nat>)
    requires forall i :: 0 <= i < |vals| ==> WordIs(words, at + 8 * i, vals[i])
    ensures ReadWords(words, at, |vals|) == Some(vals)
  {
    if vals != [] {
      var n := |vals| - 1;
      ReadRun(words, at, vals[..n]);
      assert WordIs(words, at + 8 * n, vals[n]);
      assert vals == vals[..n] + [vals[n]];
    }
  }

  /** The listed page counts at which host and device part: the host chains one
      entry early, where the device still expects data in the last slot. */
  predicate ChainsEarly(nr: nat) { nr > 511 && nr % 511 == 1 }

  /** What the walk of 4 KiB lists yields from list page `p` on. */
  function Walked(pages: seq<nat>, buf: nat, nr: nat, p: nat): seq<nat>
    requires 511 * p < nr && (ChainsEarly(nr) ==> nr / 511 < |pages|)
  {
    if ChainsEarly(nr) then Entries(buf, nr)[511 * p..nr - 1] + [pages[nr / 511]] else Entries(buf, nr)[511 * p..]
  }

  lemma SlotOf(p: nat, i: nat)
    requires i < 511
    ensures (511 * p + i) / 511 == p && (511 * p + i) % 511 == i
  {
  }

  /** One list page of a chain read off. */
  lemma PageEntries(words: map<nat, nat>, pages: seq<nat>, buf: nat, nr: nat, p: nat, n: nat)
    requires Laid(words, pages, buf, nr) && p < |pages| && n <= 511 && 511 * p + n <= nr
    ensures ReadWords(words, pages[p], n) == Some(Entries(buf, nr)[511 * p..511 * p + n])
  {
    var vals := Entries(buf, nr)[511 * p..511 * p + n];
    forall i | 0 <= i < n ensures WordIs(words, pages[p] + 8 * i, vals[i]) {
      SlotOf(p, i);
      assert WordIs(words, pages[(511 * p + i) / 511] + 8 * ((511 * p + i) % 511), Entry(buf, 511 * p + i));
    }
    ReadRun(words, pages[p], vals);
  }

  lemma {:induction false} WalkChain(words: map<nat, nat>, pages: seq<nat>, buf: nat, nr: nat, p: nat)
    requires Laid(words, pages, buf, nr) && 1 < nr && |pages| == ListPages(nr)
    requires forall q :: 0 <= q < |pages| ==> pages[q] % PAGE == 0
    requires 511 * p < nr && (ChainsEarly(nr) ==> 511 * (p + 1) < nr)
    ensures Walk(words, pages[p], nr - 511 * p) == Some(Walked(pages, buf, nr, p))
    decreases nr - 511 * p
  {
    var rem := nr - 511 * p;
    hide Laid, Entries, ChainsEarly, Walked, ReadWords, Walk;
    WalkHere(words, pages[p], rem);
    if rem <= 511 {
      LastList(words, pages, buf, nr, p);
    } else if rem == 512 {
      EarlyList(words, pages, buf, nr, p);
    } else {
      PageEntries(words, pages, buf, nr, p, 511);
      ChainWord(words, pages, buf, nr, p);
      ChainGoesOn(nr, p);
      WalkChain(words, pages, buf, nr, p + 1);
      WalkOn(words, pages[p], rem, Entries(buf, nr)[511 * p..511 * p + 511], pages[p + 1],
             Walked(pages, buf, nr, p + 1));
      WalkedStep(pages, buf, nr, p);
    }
  }

  lemma WalkHere(words: map<nat, nat>, at: nat, n: nat)
    requires at % PAGE == 0
    ensures n <= 512 ==> Walk(words, at, n) == ReadWords(words, at, n)
  {
    PageWord(at);
    hide ReadWords;
  }

  lemma PageWord(at: nat)
    requires at % PAGE == 0
    ensures at % 8 == 0
  {
    assert at == 8 * (at / PAGE * 512);
  }

  lemma WalkOn(words: map<nat, nat>, at: nat, n: nat, here: seq<nat>, next: nat, rest: seq<nat>)
    requires at % PAGE == 0 && n > 512 && ReadWords(words, at, 511) == Some(here)
    requires WordIs(words, at + 8 * 511, next) && next % PAGE == 0 && Walk(words, next, n - 511) == Some(rest)
    ensures Walk(words, at, n) == Some(here + rest)
  {
    PageWord(at);
    hide ReadWords;
  }

  lemma ChainWord(words: map<nat, nat>, pages: seq<nat>, buf: nat, nr: nat, p: nat)
    requires Laid(words, pages, buf, nr) && p + 1 < |pages|
    ensures WordIs(words, pages[p] + 8 * 511, pages[p + 1])
  {
  }

  lemma LastList(words: map<nat, nat>, pages: seq<nat>, buf: nat, nr: nat, p: nat)
    requires Laid(words, pages, buf, nr) && p < |pages| && 511 * p < nr <= 511 * (p + 1) && !ChainsEarly(nr)
    ensures ReadWords(words, pages[p], nr - 511 * p) == Some(Walked(pages, buf, nr, p))
  {
    var e := Entries(buf, nr);
    PageEntries(words, pages, buf, nr, p, nr - 511 * p);
    hide Laid, Entries, ReadWords, ChainsEarly;
    TailFrom(e, 511 * p, nr - 511 * p);
  }

  lemma TailFrom(e: seq<nat>, from: nat, n: nat)
    requires from + n == |e|
    ensures e[from..from + n] == e[from..]
  {
  }

  /** The device still expects data in the slot that already chains. */
  lemma EarlyList(words: map<nat, nat>, pages: seq<nat>, buf: nat, nr: nat, p: nat)
    requires Laid(words, pages, buf, nr) && p + 1 < |pages| && nr == 511 * (p + 1) + 1
    ensures ChainsEarly(nr) && nr / 511 == p + 1
    ensures ReadWords(words, pages[p], 512) == Some(Walked(pages, buf, nr, p))
  {
    SlotOf(p + 1, 1);
    PageEntries(words, pages, buf, nr, p, 511);
    ChainWord(words, pages, buf, nr, p);
    hide Laid;
  }

  lemma ChainGoesOn(nr: nat, p: nat)
    requires nr - 511 * p > 512
    ensures ChainsEarly(nr) ==> 511 * (p + 2) < nr && nr / 511 < ListPages(nr)
  {
  }

  lemma WalkedStep(pages: seq<nat>, buf: nat, nr: nat, p: nat)
    requires 511 * (p + 1) < nr && (ChainsEarly(nr) ==> nr / 511 < |pages| && 511 * (p + 2) < nr)
    ensures Walked(pages, buf, nr, p) == Entries(buf, nr)[511 * p..511 * p + 511] + Walked(pages, buf, nr, p + 1)
  {
    var e := Entries(buf, nr);
    var hi := if ChainsEarly(nr) then nr - 1 else nr;
    assert e[511 * p..hi] == e[511 * p..511 * p + 511] + e[511 * (p + 1)..hi];
  }

  /** The pages the device takes from a laid list, for either kind of list. */
  lemma WalkLaid(words: map<nat, nat>, pages: seq<nat>, buf: nat, nr: nat)
    requires 1 < nr && |pages| == ListPages(nr) && Laid(words, pages, buf, nr)
    requires forall p :: 0 <= p < |pages| ==> ListBlock(nr <= 32, pages[p])
    ensures ChainsEarly(nr) ==> nr / 511 < |pages|
    ensures Walk(words, pages[0], nr) == Some(Walked(pages, buf, nr, 0))
  {
    var e := Entries(buf, nr);
    if nr <= 32 {
      PageEntries(words, pages, buf, nr, 0, nr);
      SmallRoom(pages[0]);
      assert e[0..nr] == e[0..] == e;
    } else {
      WalkChain(words, pages, buf, nr, 0);
    }
  }

  lemma SmallRoom(a: nat)
    requires a % 256 == 0
    ensures a % 8 == 0 && (PAGE - a % PAGE) / 8 >= 32
  {
  }

  // ----------------------------------------------------------- bytes in order

  lemma PageCount(buf: nat, bytes: nat)
    requires buf + bytes <= U32
    ensures var first := PAGE - buf % PAGE;
            bytes > first ==>
              var nr := DataPages(buf, bytes);
              && nr == (bytes - first + PAGE - 1) / PAGE && nr >= 1
              && first + PAGE * (nr - 1) < bytes <= first + PAGE * nr
  {
  }

  /** Listing the right pages is reading the right bytes. */
  lemma RightBytes(buf: nat, pages: seq<nat>, bytes: nat)
    requires var first := PAGE - buf % PAGE; first + PAGE * (|pages| - 1) < bytes <= first + PAGE * |pages|
    ensures (forall j :: 0 <= j < bytes ==> ByteAt(buf, pages, j) == buf + j) <==> pages == Entries(buf, |pages|)
  {
    var first := PAGE - buf % PAGE;
    var e := Entries(buf, |pages|);
    if pages == e {
      forall j | 0 <= j < bytes ensures ByteAt(buf, pages, j) == buf + j {
        if j >= first { PageByte(j - first); }
      }
    } else {
      var i :| 0 <= i < |pages| && pages[i] != e[i];
      var j := first + PAGE * i;
      PageStart(i);
      assert ByteAt(buf, pages, j) == pages[i];
      assert buf + j == e[i];
    }
  }

  lemma PageByte(x: nat)
    ensures x / PAGE * PAGE + x % PAGE == x
  {
  }

  lemma PageStart(i: nat)
    ensures PAGE * i / PAGE == i && PAGE * i % PAGE == 0
  {
  }

  /** A list page is no page of the buffer, so reading one as data is wrong. */
  lemma WalkedRight(pages: seq<nat>, buf: nat, nr: nat)
    requires 1 < nr && (ChainsEarly(nr) ==> nr / 511 < |pages|)
    requires forall p :: 0 <= p < |pages| ==> pages[p] != Entry(buf, nr - 1)
    ensures Walked(pages, buf, nr, 0) == Entries(buf, nr) <==> !ChainsEarly(nr)
    ensures |Walked(pages, buf, nr, 0)| == nr
  {
    var e := Entries(buf, nr);
    assert e[0..] == e;
    if ChainsEarly(nr) {
      assert Walked(pages, buf, nr, 0)[nr - 1] == pages[nr / 511];
    }
  }

  // ---------------------------------------------------------------- the build

  datatype Built =
    | Built(prp1: nat, prp2: nat, pages: seq<nat>)
    | Failed(returned: seq<nat>)

  /** Whether the slab can serve the list pages the transfer needs. */
  ghost predicate Served(slab: nat -> Option<nat>, nr: nat) {
    ListPages(nr) <= 8 && forall n :: 0 <= n < ListPages(nr) ==> slab(n).Some?
  }

  /** Blocks in use by one list; a small list has only one. */
  ghost predicate BlocksOk(pages: seq<nat>, small: bool) {
    && NoDup(pages) && (small ==> |pages| <= 1)
    && forall p :: 0 <= p < |pages| ==> ListBlock(small, pages[p])
  }

  /** Words of different list pages are different words. */
  lemma Apart(pages: seq<nat>, small: bool, p: nat, q: nat, x: nat, y: nat)
    requires BlocksOk(pages, small) && p < |pages| && q < |pages| && x < 512 && y < 512
    ensures pages[p] + 8 * x == pages[q] + 8 * y <==> p == q && x == y
  {
    if p != q {
      assert !small && pages[p] != pages[q];
      var m, n := pages[p] / PAGE, pages[q] / PAGE;
      assert pages[p] == m * PAGE && pages[q] == n * PAGE && m != n;
    }
  }

  lemma LayEntry(words: map<nat, nat>, pages: seq<nat>, small: bool, buf: nat, i: nat)
    requires Laid(words, pages, buf, i) && BlocksOk(pages, small) && |pages| == i / 511 + 1
    ensures Laid(words[pages[i / 511] + 8 * (i % 511) := Entry(buf, i)], pages, buf, i + 1)
  {
    var w := words[pages[i / 511] + 8 * (i % 511) := Entry(buf, i)];
    hide BlocksOk, Entry;
    forall k | 0 <= k < i + 1 ensures WordIs(w, pages[k / 511] + 8 * (k % 511), Entry(buf, k)) {
      if k < i {
        assert WordIs(words, pages[k / 511] + 8 * (k % 511), Entry(buf, k));
        Apart(pages, small, k / 511, i / 511, k % 511, i % 511);
        SplitMod(k, i);
      }
    }
    forall p | 0 <= p < |pages| - 1 ensures WordIs(w, pages[p] + 8 * 511, pages[p + 1]) {
      assert WordIs(words, pages[p] + 8 * 511, pages[p + 1]);
      Apart(pages, small, p, i / 511, 511, i % 511);
    }
  }

  lemma SplitMod(k: nat, i: nat)
    ensures k / 511 == i / 511 && k % 511 == i % 511 <==> k == i
  {
  }

  lemma LayChain(words: map<nat, nat>, pages: seq<nat>, buf: nat, i: nat, a: nat)
    requires Laid(words, pages, buf, i) && i == 511 * |pages| && pages != [] && BlocksOk(pages, false)
    ensures Laid(words[pages[|pages| - 1] + 8 * 511 := a], pages + [a], buf, i)
  {
    var last := |pages| - 1;
    var w := words[pages[last] + 8 * 511 := a];
    hide BlocksOk, Entry;
    forall k | 0 <= k < i ensures WordIs(w, (pages + [a])[k / 511] + 8 * (k % 511), Entry(buf, k)) {
      assert WordIs(words, pages[k / 511] + 8 * (k % 511), Entry(buf, k));
      Apart(pages, false, k / 511, last, k % 511, 511);
    }
    forall p | 0 <= p < last ensures WordIs(w, pages[p] + 8 * 511, pages[p + 1]) {
      assert WordIs(words, pages[p] + 8 * 511, pages[p + 1]);
      Apart(pages, false, p, last, 511, 511);
    }
  }

  /** `pages` are the first answers of the slab. */
  ghost predicate FromSlab(slab: nat -> Option<nat>, pages: seq<nat>) {
    forall n :: 0 <= n < |pages| ==> slab(n) == Some(pages[n])
  }

  lemma SlabBlocks(slab: nat -> Option<nat>, pages: seq<nat>, small: bool, buf: nat, bytes: nat)
    requires SlabOk(slab, small, buf, bytes) && FromSlab(slab, pages) && (small ==> |pages| <= 1)
    ensures BlocksOk(pages, small)
  {
    forall p | 0 <= p < |pages| ensures ListBlock(small, pages[p]) { assert slab(p).Some?; }
    forall p, q | 0 <= p < q < |pages| ensures pages[p] != pages[q] { assert slab(p).Some? && slab(q).Some?; }
  }

  /** The device reads exactly the buffer, in order. */
  ghost predicate ReadsBuffer(words: map<nat, nat>, prp1: nat, prp2: nat, buf: nat, bytes: nat) {
    var r := DeviceBytes(words, prp1, prp2, bytes);
    r.Some? && |r.value| == bytes && forall j :: 0 <= j < bytes ==> r.value[j] == buf + j
  }

  /** Laid lists are read back exactly, but for the counts 511k + 1. */
  lemma LaidReadsBack(words: map<nat, nat>, pages: seq<nat>, buf: nat, bytes: nat)
    requires buf + bytes <= U32 && DataPages(buf, bytes) > 1
    requires var nr := DataPages(buf, bytes);
             && |pages| == ListPages(nr) && Laid(words, pages, buf, nr)
             && forall p :: 0 <= p < |pages| ==>
                  ListBlock(nr <= 32, pages[p]) && (pages[p] + ListBytes(nr <= 32) <= buf || buf + bytes <= pages[p])
    ensures ReadsBuffer(words, buf, pages[0], buf, bytes) <==> !ChainsEarly(DataPages(buf, bytes))
  {
    var nr := DataPages(buf, bytes);
    PageCount(buf, bytes);
    WalkLaid(words, pages, buf, nr);
    assert buf < Entry(buf, nr - 1) < buf + bytes;
    var walked := Walked(pages, buf, nr, 0);
    WalkedRight(pages, buf, nr);
    assert DevicePages(words, buf, pages[0], bytes) == Some(walked);
    RightBytes(buf, walked, bytes);
    hide Walk, Walked, Laid, DevicePages, DataPages, Entries, ChainsEarly;
    var r := DeviceBytes(words, buf, pages[0], bytes);
    assert r.Some? && forall j :: 0 <= j < bytes ==> r.value[j] == ByteAt(buf, walked, j);
  }

  lemma ShortReads(words: map<nat, nat>, buf: nat, prp2: nat, bytes: nat)
    requires buf + bytes <= U32 && DataPages(buf, bytes) <= 1
    requires DataPages(buf, bytes) == 1 ==> prp2 == Entry(buf, 0)
    ensures ReadsBuffer(words, buf, prp2, buf, bytes)
  {
    PageCount(buf, bytes);
    var first := PAGE - buf % PAGE;
    if bytes > first {
      assert [prp2] == Entries(buf, 1);
      RightBytes(buf, [prp2], bytes);
    }
  }

  /** Address `a` lies in one of the list blocks. */
  ghost predicate Within(pages: seq<nat>, small: bool, a: nat) {
    exists p :: 0 <= p < |pages| && pages[p] <= a < pages[p] + ListBytes(small)
  }

  /** Memory outside the list blocks is untouched. */
  ghost predicate OnlyLists(mem: map<nat, nat>, words: map<nat, nat>, pages: seq<nat>, small: bool) {
    forall a: nat :: !Within(pages, small, a) ==>
      (a in words <==> a in mem) && (a in mem && a in words ==> words[a] == mem[a])
  }

  lemma WriteWithin(mem: map<nat, nat>, words: map<nat, nat>, pages: seq<nat>, small: bool, p: nat, slot: nat, v: nat)
    requires OnlyLists(mem, words, pages, small) && p < |pages| && 8 * slot < ListBytes(small)
    ensures OnlyLists(mem, words[pages[p] + 8 * slot := v], pages, small)
  {
    assert Within(pages, small, pages[p] + 8 * slot);
    hide Within;
  }

  lemma MorePages(mem: map<nat, nat>, words: map<nat, nat>, pages: seq<nat>, small: bool, a: nat)
    requires OnlyLists(mem, words, pages, small)
    ensures OnlyLists(mem, words, pages + [a], small)
  {
    forall x: nat | Within(pages, small, x) ensures Within(pages + [a], small, x) {
      var p :| 0 <= p < |pages| && pages[p] <= x < pages[p] + ListBytes(small);
      assert (pages + [a])[p] == pages[p];
    }
    hide Within;
  }

  /** The list blocks a build took, given back or not. */
  function TakenPages(res: Built): seq<nat> { if res.Built? then res.pages else LastFirst(res.returned) }

  /** build_prps.  `slab(n)` is the answer to the n-th allocation.  It succeeds
      exactly when at most eight list pages are needed and the slab serves them;
      otherwise everything taken goes back.  After success the device reads the
      buffer's bytes in order, exactly when the listed page count is not
      511k + 1.  Nothing outside the list blocks is written. */
  method BuildPrps(mem: map<nat, nat>, slab: nat -> Option<nat>, buf: nat, bytes: nat)
    returns (res: Built, words: map<nat, nat>)
    requires buf + bytes <= U32 && SlabOk(slab, DataPages(buf, bytes) <= 32, buf, bytes)
    ensures res.Built? <==> Served(slab, DataPages(buf, bytes))
    ensures res.Built? ==>
              && |res.pages| == ListPages(DataPages(buf, bytes)) && FromSlab(slab, res.pages)
              && (ReadsBuffer(words, res.prp1, res.prp2, buf, bytes) <==> !ChainsEarly(DataPages(buf, bytes)))
    ensures res.Failed? ==> FromSlab(slab, LastFirst(res.returned))
                            && (|res.returned| >= 8 || slab(|res.returned|).None?)
    ensures OnlyLists(mem, words, TakenPages(res), DataPages(buf, bytes) <= 32)
  {
    hide SlabOk, BlocksOk, Laid, ReadsBuffer, Served, FromSlab;
    NothingWritten(mem, DataPages(buf, bytes) <= 32);
    hide OnlyLists;
    words := mem;
    var first := PAGE - buf % PAGE;
    PageCount(buf, bytes);
    ShortServed(slab);
    if bytes <= first {
      ShortReads(words, buf, 0, bytes);
      return Built(buf, 0, []), words;
    }
    var remain := bytes - first;
    var nr := (remain + PAGE - 1) / PAGE;
    if nr == 1 {
      ShortReads(words, buf, buf + first, bytes);
      return Built(buf, buf + first, []), words;
    }
    var small := nr <= 32;
    var pages: seq<nat> := [];
    var list: Option<nat> := None;
    var prp2, pos, i := 0, 0, 0;
    hide DataPages;
    NothingLaid(slab, words, buf);
    while i < nr
      invariant 0 <= i <= nr && |pages| == (i + 510) / 511 <= 8
      invariant FromSlab(slab, pages) && Laid(words, pages, buf, i) && OnlyLists(mem, words, pages, small)
      invariant pages != [] ==> prp2 == pages[0]
      invariant list.None? ==> i == 511 * |pages|
      invariant list.Some? ==> pages != [] && list.value == pages[|pages| - 1]
                               && 1 <= pos == i - 511 * (|pages| - 1) <= 511 && (pos == 511 ==> i == nr)
    {
      SlabBlocks(slab, pages, small, buf, bytes);
      if list.None? {
        if |pages| >= 8 || slab(|pages|).None? {
          NotServed(slab, pages, i, nr);
          var back := GiveBack(pages);
          return Failed(back), words;
        }
        var a := slab(|pages|).value;
        SlabMore(slab, pages);
        MorePages(mem, words, pages, small, a);
        if pages == [] { LayFirst(words, buf, a); prp2 := a; } else {
          LayChain(words, pages, buf, i, a);
          WriteWithin(mem, words, pages + [a], small, |pages| - 1, 511, a);
          words := words[pages[|pages| - 1] + 8 * 511 := a];
        }
        pages, list, pos := pages + [a], Some(a), 0;
        SlabBlocks(slab, pages, small, buf, bytes);
      }
      LayEntry(words, pages, small, buf, i);
      WriteWithin(mem, words, pages, small, |pages| - 1, pos, buf + first + i * PAGE);
      words := words[list.value + 8 * pos := buf + first + i * PAGE];
      pos, i := pos + 1, i + 1;
      if pos == 511 && i < nr { list := None; }
    }
    BuiltRight(slab, words, pages, buf, bytes);
    res := Built(buf, prp2, pages);
  }

  lemma NothingWritten(mem: map<nat, nat>, small: bool)
    ensures OnlyLists(mem, mem, [], small)
  {
  }

  lemma ShortServed(slab: nat -> Option<nat>)
    ensures Served(slab, 0) && Served(slab, 1) && FromSlab(slab, [])
  {
  }

  lemma NothingLaid(slab: nat -> Option<nat>, words: map<nat, nat>, buf: nat)
    ensures FromSlab(slab, []) && Laid(words, [], buf, 0)
  {
  }

  lemma LayFirst(words: map<nat, nat>, buf: nat, a: nat)
    ensures Laid(words, [] + [a], buf, 0)
  {
  }

  lemma SlabMore(slab: nat -> Option<nat>, pages: seq<nat>)
    requires FromSlab(slab, pages) && slab(|pages|).Some?
    ensures FromSlab(slab, pages + [slab(|pages|).value])
  {
  }

  lemma BuiltRight(slab: nat -> Option<nat>, words: map<nat, nat>, pages: seq<nat>, buf: nat, bytes: nat)
    requires buf + bytes <= U32 && DataPages(buf, bytes) > 1 && SlabOk(slab, DataPages(buf, bytes) <= 32, buf, bytes)
    requires FromSlab(slab, pages) && |pages| == ListPages(DataPages(buf, bytes)) <= 8
    requires Laid(words, pages, buf, DataPages(buf, bytes))
    ensures Served(slab, DataPages(buf, bytes))
    ensures ReadsBuffer(words, buf, pages[0], buf, bytes) <==> !ChainsEarly(DataPages(buf, bytes))
  {
    var nr := DataPages(buf, bytes);
    var small := nr <= 32;
    SlabBlocks(slab, pages, small, buf, bytes);
    forall p | 0 <= p < |pages|
      ensures pages[p] + ListBytes(small) <= buf || buf + bytes <= pages[p]
    {
      assert slab(p).Some?;
    }
    hide DataPages, Laid;
    LaidReadsBack(words, pages, buf, bytes);
  }

  lemma NotServed(slab: nat -> Option<nat>, pages: seq<nat>, i: nat, nr: nat)
    requires i == 511 * |pages| < nr && nr > 1 && (|pages| >= 8 || slab(|pages|).None?)
    ensures !Served(slab, nr)
  {
    assert |pages| < ListPages(nr);
  }

  /** The free_lists loop: last page first. */
  method GiveBack(pages: seq<nat>) returns (back: seq<nat>)
    ensures |back| == |pages| && LastFirst(back) == pages
  {
    back := [];
    var n := |pages|;
    while n > 0
      invariant 0 <= n <= |pages| && |back| == |pages| - n && LastFirst(back) == pages[n..]
    {
      n := n - 1;
      LastFirstPush(back, pages[n]);
      back := back + [pages[n]];
    }
  }

  /** A concrete transfer the device misreads: 513 pages from a page boundary
      (2 MiB and a page) list 512 pages, one more than the host puts in a list
      page and exactly as many as the device expects in one. */
  lemma MisreadTransfer(words: map<nat, nat>, list0: nat, list1: nat)
    requires Laid(words, [list0, list1], 0x10_0000, 512) && list0 % PAGE == 0 && list1 % PAGE == 0
    requires list0 >= 0x40_0000 && list1 >= 0x40_0000
    ensures DataPages(0x10_0000, 513 * PAGE) == 512
    ensures !ReadsBuffer(words, 0x10_0000, list0, 0x10_0000, 513 * PAGE)
  {
    assert DataPages(0x10_0000, 513 * PAGE) == 512;
    hide Laid;
    LaidReadsBack(words, [list0, list1], 0x10_0000, 513 * PAGE);
  }
}
