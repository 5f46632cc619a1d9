/** The active-namespace scan: pages of 1024 NSIDs, each NSID identified and
    added, revalidated or dropped, and everything not listed removed. */
module NsScan {
  import opened Base
  import opened Tags

  const ENOMEM: int := -12
  const PAGE_ENTRIES: nat := 1024

  /** Namespace identifiers; 0 stands for "all bytes zero". */
  datatype Ids = Ids(uuid: nat, nguid: nat, eui64: nat, csi: nat)

  datatype Ns = Ns(nsid: nat, ids: Ids)

  /** What Identify says of one NSID, and whether the pool could hold it. */
  datatype Info = Info(ret: int, removed: bool, ready: bool, ids: Ids, poolOk: bool)

  datatype Reply = Fail(status: int) | Page(entries: seq<nat>)

  // ------------------------------------------------------ the namespace list

  /** nvme_find_ns. */
  function Get(nss: seq<Ns>, n: nat): Option<Ids> {
    if nss == [] then None else if nss[0].nsid == n then Some(nss[0].ids) else Get(nss[1..], n)
  }

  /** nvme_ns_remove_by_nsid. */
  function Remove(nss: seq<Ns>, n: nat): seq<Ns> {
    if nss == [] then [] else if nss[0].nsid == n then nss[1..] else [nss[0]] + Remove(nss[1..], n)
  }

  /** nvme_remove_invalid_namespaces. */
  function UpTo(nss: seq<Ns>, top: nat): seq<Ns> {
    if nss == [] then []
    else if nss[0].nsid <= top then [nss[0]] + UpTo(nss[1..], top)
    else UpTo(nss[1..], top)
  }

  /** No NSID appears twice. */
  ghost predicate Unique(nss: seq<Ns>) {
    nss == [] || (Get(nss[1..], nss[0].nsid).None? && Unique(nss[1..]))
  }

  lemma {:induction false} GetRemove(nss: seq<Ns>, m: nat, n: nat)
    requires Unique(nss)
    ensures Get(Remove(nss, m), n) == if n == m then None else Get(nss, n)
  {
    if nss != [] {
      GetRemove(nss[1..], m, n);
      assert nss[0].nsid != m ==> Remove(nss, m)[1..] == Remove(nss[1..], m);
    }
  }

  lemma {:induction false} RemoveUnique(nss: seq<Ns>, m: nat)
    requires Unique(nss)
    ensures Unique(Remove(nss, m))
  {
    if nss != [] && nss[0].nsid != m {
      RemoveUnique(nss[1..], m);
      GetRemove(nss[1..], m, nss[0].nsid);
      assert Remove(nss, m)[1..] == Remove(nss[1..], m);
    }
  }

  lemma {:induction false} GetPush(nss: seq<Ns>, x: Ns, n: nat)
    ensures Get(nss + [x], n) == if Get(nss, n).Some? then Get(nss, n) else if x.nsid == n then Some(x.ids) else None
  {
    if nss != [] {
      GetPush(nss[1..], x, n);
      assert (nss + [x])[1..] == nss[1..] + [x];
    } else {
      assert [x][1..] == [];
    }
  }

  lemma {:induction false} PushUnique(nss: seq<Ns>, x: Ns)
    requires Unique(nss) && Get(nss, x.nsid).None?
    ensures Unique(nss + [x])
  {
    if nss != [] {
      PushUnique(nss[1..], x);
      assert (nss + [x])[1..] == nss[1..] + [x];
      GetPush(nss[1..], x, nss[0].nsid);
    } else {
      assert [x][1..] == [];
    }
  }

  lemma {:induction false} GetUpTo(nss: seq<Ns>, top: nat, n: nat)
    ensures Get(UpTo(nss, top), n) == if n <= top then Get(nss, n) else None
  {
    if nss != [] {
      GetUpTo(nss[1..], top, n);
      if nss[0].nsid <= top { assert UpTo(nss, top)[1..] == UpTo(nss[1..], top); }
    }
  }

  lemma {:induction false} UpToUnique(nss: seq<Ns>, top: nat)
    requires Unique(nss)
    ensures Unique(UpTo(nss, top))
  {
    if nss != [] {
      UpToUnique(nss[1..], top);
      GetUpTo(nss[1..], top, nss[0].nsid);
      if nss[0].nsid <= top { assert UpTo(nss, top)[1..] == UpTo(nss[1..], top); }
    }
  }

  lemma {:induction false} GetMember(nss: seq<Ns>, k: nat)
    requires k < |nss|
    ensures Get(nss, nss[k].nsid).Some?
  {
    if k > 0 { GetMember(nss[1..], k - 1); }
  }

  lemma {:induction false} UniqueApart(nss: seq<Ns>, i: nat, j: nat)
    requires Unique(nss) && i < j < |nss|
    ensures nss[i].nsid != nss[j].nsid
  {
    if i == 0 {
      GetMember(nss[1..], j - 1);
    } else {
      UniqueApart(nss[1..], i - 1, j - 1);
    }
  }

  // -------------------------------------------------------------- one NSID

  /** nvme_ns_ids_duplicate. */
  predicate Duplicate(nss: seq<Ns>, ids: Ids) {
    (ids.eui64 != 0 || ids.nguid != 0 || ids.uuid != 0) &&
    exists k :: 0 <= k < |nss| &&
      ((ids.eui64 != 0 && nss[k].ids.eui64 == ids.eui64) || (ids.nguid != 0 && nss[k].ids.nguid == ids.nguid)
       || (ids.uuid != 0 && nss[k].ids.uuid == ids.uuid))
  }

  /** nvme_scan_ns on the list and the bogus-NID quirk. */
  function ScanNs(nss: seq<Ns>, bogus: bool, n: nat, info: Info): (seq<Ns>, bool) {
    var nss1 := if info.removed then Remove(nss, n) else nss;
    if info.ret != 0 || !info.ready then (nss1, bogus)
    else
      match Get(nss1, n)
      case Some(ids) => (if ids == info.ids then nss1 else Remove(nss1, n), bogus)
      case None =>
        var dup := !bogus && Duplicate(nss1, info.ids);
        var ids := if dup then Ids(0, 0, 0, info.ids.csi) else info.ids;
        (if info.poolOk then nss1 + [Ns(n, ids)] else nss1, bogus || dup)
  }

  /** Whether a listed NSID ends up on the controller's list. */
  predicate Kept(was: Option<Ids>, info: Info) {
    var now := if info.removed then None else was;
    if info.ret != 0 || !info.ready then now.Some?
    else if now.Some? then now.value == info.ids
    else info.poolOk
  }

  /** Two namespaces claim the same identifier; all bytes zero is none. */
  predicate Shares(a: Ids, b: Ids) {
    || (a.uuid != 0 && a.uuid == b.uuid)
    || (a.nguid != 0 && a.nguid == b.nguid)
    || (a.eui64 != 0 && a.eui64 == b.eui64)
  }

  /** Another namespace than `n` on the list claims one of these identifiers. */
  ghost predicate Twin(nss: seq<Ns>, n: nat, ids: Ids) {
    exists x :: x in nss && x.nsid != n && Shares(x.ids, ids)
  }

  ghost predicate NoTwins(nss: seq<Ns>) {
    forall x, y :: x in nss && y in nss && x.nsid != y.nsid ==> !Shares(x.ids, y.ids)
  }

  /** The identifiers struck out, the command set kept. */
  function Bare(ids: Ids): Ids { Ids(0, 0, 0, ids.csi) }

  /** Identify finds a namespace that is not on the list, or no longer. */
  predicate Found(was: Option<Ids>, info: Info) { info.ret == 0 && info.ready && (was.None? || info.removed) }

  /** What the list holds for an NSID that is kept: what it held, or what Identify
      says, struck out if the controller's identifiers are known to be bogus. */
  predicate Stored(was: Option<Ids>, info: Info, bogus: bool, ids: Ids) {
    if was.Some? && !info.removed then ids == was.value else ids == info.ids || (bogus && ids == Bare(info.ids))
  }

  lemma {:induction false} RemoveMembers(nss: seq<Ns>, n: nat, x: Ns)
    requires Unique(nss)
    ensures x in Remove(nss, n) <==> x in nss && x.nsid != n
  {
    if nss != [] {
      RemoveMembers(nss[1..], n, x);
      assert nss == [nss[0]] + nss[1..];
      if nss[0].nsid == n && x in nss[1..] { MemberGet(nss[1..], x); }
    }
  }

  lemma {:induction false} MemberGet(nss: seq<Ns>, x: Ns)
    requires x in nss
    ensures Get(nss, x.nsid).Some?
  {
    var k :| 0 <= k < |nss| && nss[k] == x;
    GetMember(nss, k);
  }

  lemma {:induction false} GetIn(nss: seq<Ns>, n: nat)
    requires Get(nss, n).Some?
    ensures Ns(n, Get(nss, n).value) in nss
  {
    if nss[0].nsid != n { GetIn(nss[1..], n); }
  }

  /** Looking for duplicates among the entries but `n` is looking for a twin. */
  lemma DuplicateIsTwin(nss: seq<Ns>, n: nat, ids: Ids)
    requires forall x :: x in nss ==> x.nsid != n
    ensures Duplicate(nss, ids) <==> Twin(nss, n, ids)
  {
    if Duplicate(nss, ids) {
      var k :| 0 <= k < |nss| &&
        ((ids.eui64 != 0 && nss[k].ids.eui64 == ids.eui64) || (ids.nguid != 0 && nss[k].ids.nguid == ids.nguid)
         || (ids.uuid != 0 && nss[k].ids.uuid == ids.uuid));
      assert nss[k] in nss && Shares(nss[k].ids, ids);
    }
    if Twin(nss, n, ids) {
      var x :| x in nss && x.nsid != n && Shares(x.ids, ids);
      var k :| 0 <= k < |nss| && nss[k] == x;
    }
  }

  /** One NSID scanned.  A found namespace whose identifiers another one already
      claims is stored without them and marks the controller's identifiers as bogus
      for good; until then no two namespaces share one. */
  lemma ScanNsIds(nss: seq<Ns>, bogus: bool, n: nat, info: Info)
    requires Unique(nss)
    ensures var (nss', bogus') := ScanNs(nss, bogus, n, info);
            && (bogus' <==> bogus || (Found(Get(nss, n), info) && Twin(nss, n, info.ids)))
            && (Found(Get(nss, n), info) && info.poolOk ==>
                  Get(nss', n) == Some(if !bogus && Twin(nss, n, info.ids) then Bare(info.ids) else info.ids))
            && (Get(nss', n).Some? ==> Stored(Get(nss, n), info, bogus', Get(nss', n).value))
  {
    var nss1 := if info.removed then Remove(nss, n) else nss;
    GetRemove(nss, n, n);
    RemoveUnique(nss, n);
    if Found(Get(nss, n), info) {
      OthersOnly(nss, nss1, n, info.removed);
      DuplicateIsTwin(nss1, n, info.ids);
      hide Duplicate, Shares;
      assert Twin(nss1, n, info.ids) <==> Twin(nss, n, info.ids);
      GetPush(nss1, Ns(n, if !bogus && Duplicate(nss1, info.ids) then Bare(info.ids) else info.ids), n);
    }
    hide Remove, Unique, Duplicate, Twin;
    GetRemove(nss1, n, n);
  }

  lemma OthersOnly(nss: seq<Ns>, nss1: seq<Ns>, n: nat, removed: bool)
    requires Unique(nss) && nss1 == (if removed then Remove(nss, n) else nss) && (removed || Get(nss, n).None?)
    ensures forall x :: x in nss1 <==> x in nss && x.nsid != n
    ensures Get(nss1, n).None?
  {
    GetRemove(nss, n, n);
    forall x ensures x in nss1 <==> x in nss && x.nsid != n {
      if removed { RemoveMembers(nss, n, x); }
      if x in nss && x.nsid == n && !removed { MemberGet(nss, x); }
    }
  }

  /** Identifiers stay unclaimed twice while they are not known to be bogus. */
  lemma ScanNsTwins(nss: seq<Ns>, bogus: bool, n: nat, info: Info)
    requires Unique(nss) && (!bogus ==> NoTwins(nss))
    ensures var (nss', bogus') := ScanNs(nss, bogus, n, info); !bogus' ==> NoTwins(nss')
  {
    var (nss', bogus') := ScanNs(nss, bogus, n, info);
    var nss1 := if info.removed then Remove(nss, n) else nss;
    RemoveUnique(nss, n);
    if !bogus' {
      RemoveTwins(nss, n);
      RemoveTwins(nss1, n);
      if info.ret == 0 && info.ready && Get(nss1, n).None? && info.poolOk {
        AbsentMembers(nss1, n);
        DuplicateIsTwin(nss1, n, info.ids);
        assert nss' == nss1 + [Ns(n, info.ids)];
        PushTwins(nss1, Ns(n, info.ids));
      }
    }
  }

  lemma AbsentMembers(nss: seq<Ns>, n: nat)
    requires Get(nss, n).None?
    ensures forall x :: x in nss ==> x.nsid != n
  {
    forall x | x in nss ensures x.nsid != n { MemberGet(nss, x); }
  }

  lemma RemoveTwins(nss: seq<Ns>, n: nat)
    requires Unique(nss) && NoTwins(nss)
    ensures NoTwins(Remove(nss, n))
  {
    forall x ensures x in Remove(nss, n) <==> x in nss && x.nsid != n { RemoveMembers(nss, n, x); }
    hide Shares, Remove;
  }

  lemma PushTwins(nss: seq<Ns>, x: Ns)
    requires NoTwins(nss) && !Twin(nss, x.nsid, x.ids)
    ensures NoTwins(nss + [x])
  {
    forall a, b | a in nss + [x] && b in nss + [x] && a.nsid != b.nsid ensures !Shares(a.ids, b.ids) {
      assert Shares(a.ids, b.ids) <==> Shares(b.ids, a.ids);
    }
  }

  lemma {:induction false} UpToMembers(nss: seq<Ns>, top: nat, x: Ns)
    ensures x in UpTo(nss, top) ==> x in nss
  {
    if nss != [] { UpToMembers(nss[1..], top, x); }
  }

  lemma UpToTwins(nss: seq<Ns>, top: nat)
    requires NoTwins(nss)
    ensures NoTwins(UpTo(nss, top))
  {
    forall x | x in UpTo(nss, top) ensures x in nss { UpToMembers(nss, top, x); }
    hide Shares, UpTo;
  }

  lemma ScanNsDoes(nss: seq<Ns>, bogus: bool, n: nat, info: Info, m: nat)
    requires Unique(nss)
    ensures var nss' := ScanNs(nss, bogus, n, info).0;
            && Unique(nss')
            && (if m == n then Get(nss', n).Some? <==> Kept(Get(nss, n), info) else Get(nss', m) == Get(nss, m))
  {
    var nss1 := if info.removed then Remove(nss, n) else nss;
    GetRemove(nss, n, m);
    GetRemove(nss, n, n);
    RemoveUnique(nss, n);
    GetRemove(nss1, n, m);
    RemoveUnique(nss1, n);
    hide Get, Remove, Unique, Duplicate;
    if info.ret == 0 && info.ready && Get(nss1, n).None? && info.poolOk {
      var x := Ns(n, if !bogus && Duplicate(nss1, info.ids) then Ids(0, 0, 0, info.ids.csi) else info.ids);
      GetPush(nss1, x, m);
      PushUnique(nss1, x);
    }
  }

  // ------------------------------------------------------------ the list scan

  /** A page answers "above `prev`": nonzero entries ascend from beyond it. */
  ghost predicate Ascends(prev: nat, entries: seq<nat>) {
    && |entries| == PAGE_ENTRIES
    && (forall i :: 0 <= i < |entries| ==> entries[i] < U32)
    && (forall i :: 0 <= i < |entries| && Live(entries, i) ==> entries[i] > (if i == 0 then prev else entries[i - 1]))
  }

  /** No end-of-list mark up to `i`. */
  ghost predicate Live(entries: seq<nat>, i: nat) { i < |entries| && forall k :: 0 <= k <= i ==> entries[k] != 0 }

  /** Entries before the end-of-list mark. */
  function Filled(entries: seq<nat>): (n: nat)
    ensures n <= |entries| && (forall k :: 0 <= k < n ==> entries[k] != 0) && (n < |entries| ==> entries[n] == 0)
  {
    if entries == [] || entries[0] == 0 then 0 else 1 + Filled(entries[1..])
  }

  /** A controller that pages upwards and fails with a status. */
  ghost predicate Paging(page: (nat, nat) -> Reply) {
    && (forall k, p :: page(k, p).Page? ==> Ascends(p, page(k, p).entries))
    && (forall k, p :: page(k, p).Fail? ==> page(k, p).status != 0)
  }

  /** Where a full page ends, the next one starts beyond. */
  lemma FullPage(prev: nat, entries: seq<nat>)
    requires Ascends(prev, entries) && Filled(entries) == PAGE_ENTRIES
    ensures prev < entries[PAGE_ENTRIES - 1] < U32
  {
    Climbs(prev, entries, PAGE_ENTRIES - 1);
  }

  lemma {:induction false} Climbs(prev: nat, entries: seq<nat>, i: nat)
    requires Ascends(prev, entries) && i < Filled(entries)
    ensures prev < entries[i]
  {
    assert Live(entries, i);
    assert entries[i] > if i == 0 then prev else entries[i - 1];
    if i > 0 { Climbs(prev, entries, i - 1); }
  }

  /** The active list: the NSIDs of the chain of pages that starts with the
      `calls`-th Identify, asked from `prev` on, up to the first zero entry. */
  ghost function Listed(page: (nat, nat) -> Reply, calls: nat, prev: nat): set<nat>
    requires Paging(page) && prev < U32
    decreases U32 - prev
  {
    match page(calls, prev)
    case Fail(_) => {}
    case Page(entries) =>
      var n := Filled(entries);
      Elems(entries[..n]) +
      if n < PAGE_ENTRIES then {} else FullPage(prev, entries); Listed(page, calls + 1, entries[n - 1])
  }

  /** The status of the first Identify of that chain that fails; 0 if none does. */
  ghost function Outcome(page: (nat, nat) -> Reply, calls: nat, prev: nat): int
    requires Paging(page) && prev < U32
    decreases U32 - prev
  {
    match page(calls, prev)
    case Fail(status) => status
    case Page(entries) =>
      var n := Filled(entries);
      if n < PAGE_ENTRIES then 0 else FullPage(prev, entries); Outcome(page, calls + 1, entries[n - 1])
  }

  /** The list between two steps of the scan: below `prev` exactly the listed
      NSIDs that Identify keeps, above it what was there before. */
  ghost predicate Scanned(nss: seq<Ns>, bogus: bool, nss0: seq<Ns>, seen: set<nat>, prev: nat, info: nat -> Info) {
    && Unique(nss) && (!bogus ==> NoTwins(nss))
    && (forall n :: n in seen ==> n <= prev)
    && (forall n: nat :: if n <= prev then Get(nss, n).Some? <==> (n in seen && Kept(Get(nss0, n), info(n)))
                         else Get(nss, n) == Get(nss0, n))
    && (forall n :: n in seen && Get(nss, n).Some? ==> Stored(Get(nss0, n), info(n), bogus, Get(nss, n).value))
  }

  /** The same while the gap below the NSID just scanned is being cleared. */
  ghost predicate Clearing(nss: seq<Ns>, bogus: bool, nss0: seq<Ns>, seen: set<nat>, prev: nat, nsid: nat,
                           info: nat -> Info)
  {
    && Unique(nss) && prev < nsid && (!bogus ==> NoTwins(nss))
    && (forall n :: n in seen ==> n <= prev)
    && (forall n: nat :: if n <= prev then Get(nss, n).Some? <==> (n in seen && Kept(Get(nss0, n), info(n)))
                         else if n == nsid then Get(nss, n).Some? <==> Kept(Get(nss0, n), info(n))
                         else Get(nss, n) == Get(nss0, n))
    && (forall n :: (n in seen || n == nsid) && Get(nss, n).Some? ==>
          Stored(Get(nss0, n), info(n), bogus, Get(nss, n).value))
  }

  lemma StartClearing(nss: seq<Ns>, nss0: seq<Ns>, seen: set<nat>, prev: nat, nsid: nat, bogus: bool, info: nat -> Info)
    requires Scanned(nss, bogus, nss0, seen, prev, info) && prev < nsid
    ensures var (nss', bogus') := ScanNs(nss, bogus, nsid, info(nsid));
            Clearing(nss', bogus', nss0, seen, prev, nsid, info)
  {
    var (nss', bogus') := ScanNs(nss, bogus, nsid, info(nsid));
    hide Get, Unique, Kept, ScanNs, NoTwins, Twin;
    ScanNsDoes(nss, bogus, nsid, info(nsid), nsid);
    ScanNsIds(nss, bogus, nsid, info(nsid));
    ScanNsTwins(nss, bogus, nsid, info(nsid));
    forall n: nat | n != nsid ensures Get(nss', n) == Get(nss, n) { ScanNsDoes(nss, bogus, nsid, info(nsid), n); }
  }

  lemma ClearOne(nss: seq<Ns>, bogus: bool, nss0: seq<Ns>, seen: set<nat>, prev: nat, nsid: nat, info: nat -> Info)
    requires Clearing(nss, bogus, nss0, seen, prev, nsid, info) && prev + 1 < nsid
    ensures Clearing(Remove(nss, prev + 1), bogus, nss0, seen, prev + 1, nsid, info)
  {
    var nss' := Remove(nss, prev + 1);
    hide Get, Unique, Kept, Remove, Stored, NoTwins;
    RemoveUnique(nss, prev + 1);
    if !bogus { RemoveTwins(nss, prev + 1); }
    forall n: nat ensures Get(nss', n) == if n == prev + 1 then None else Get(nss, n) { GetRemove(nss, prev + 1, n); }
  }

  lemma EndClearing(nss: seq<Ns>, bogus: bool, nss0: seq<Ns>, seen: set<nat>, nsid: nat, info: nat -> Info)
    requires nsid > 0 && Clearing(nss, bogus, nss0, seen, nsid - 1, nsid, info)
    ensures Scanned(nss, bogus, nss0, seen + {nsid}, nsid, info)
  {
    hide Get, Unique, Kept, Stored, NoTwins;
  }

  /** What the scan leaves: exactly the listed NSIDs that Identify keeps, with their
      identifiers. */
  ghost predicate ListIs(nss: seq<Ns>, bogus: bool, nss0: seq<Ns>, listed: set<nat>, info: nat -> Info) {
    && (forall n: nat :: Get(nss, n).Some? <==> (n in listed && Kept(Get(nss0, n), info(n))))
    && (forall n: nat :: Get(nss, n).Some? ==> Stored(Get(nss0, n), info(n), bogus, Get(nss, n).value))
  }

  lemma Pruned(nss: seq<Ns>, bogus: bool, nss0: seq<Ns>, seen: set<nat>, prev: nat, info: nat -> Info)
    requires Scanned(nss, bogus, nss0, seen, prev, info)
    ensures Unique(UpTo(nss, prev)) && (!bogus ==> NoTwins(UpTo(nss, prev)))
    ensures ListIs(UpTo(nss, prev), bogus, nss0, seen, info)
  {
    hide Get, Unique, Kept, UpTo, Stored, NoTwins;
    UpToUnique(nss, prev);
    if !bogus { UpToTwins(nss, prev); }
    forall n: nat ensures Get(UpTo(nss, prev), n) == if n <= prev then Get(nss, n) else None { GetUpTo(nss, prev, n); }
  }

  lemma NoneScanned(nss: seq<Ns>, bogus: bool, info: nat -> Info)
    requires Unique(nss) && Get(nss, 0).None? && (!bogus ==> NoTwins(nss))
    ensures Scanned(nss, bogus, nss, {}, 0, info)
  {
    hide Get, Unique, NoTwins, Kept;
  }

  lemma ScannedSound(nss: seq<Ns>, bogus: bool, nss0: seq<Ns>, seen: set<nat>, prev: nat, info: nat -> Info)
    requires Scanned(nss, bogus, nss0, seen, prev, info) && 0 !in seen
    ensures Unique(nss) && Get(nss, 0).None? && (!bogus ==> NoTwins(nss))
  {
    hide Get, Unique, NoTwins, Kept, Stored;
  }

  lemma StaysBogus(nss: seq<Ns>, bogus: bool, n: nat, info: Info)
    requires bogus
    ensures ScanNs(nss, bogus, n, info).1
  {
  }

  lemma NoneListed(nss: seq<Ns>, bogus: bool, nss0: seq<Ns>, listed: set<nat>, info: nat -> Info)
    requires ListIs(nss, bogus, nss0, listed, info) && 0 !in listed
    ensures Get(nss, 0).None?
  {
    hide Get, Kept, Stored;
  }

  /** The controller's namespace list, scanned in place. */
  class Controller {
    var namespaces: seq<Ns>
    var bogusNid: bool

    /** NSIDs are unique, and 0 is none; so are identifiers, unless known to be
        bogus. */
    ghost predicate Ok()
      reads this
    {
      Unique(namespaces) && Get(namespaces, 0).None? && (!bogusNid ==> NoTwins(namespaces))
    }

    constructor ()
      ensures Ok() && namespaces == [] && !bogusNid
    {
      namespaces, bogusNid := [], false;
    }

    method RemoveInvalid(top: nat)
      modifies `namespaces
      ensures namespaces == UpTo(old(namespaces), top)
    {
      var kept: seq<Ns> := [];
      var i := 0;
      assert namespaces[0..] == namespaces;
      while i < |namespaces|
        invariant 0 <= i <= |namespaces| && kept + UpTo(namespaces[i..], top) == UpTo(namespaces, top)
      {
        assert namespaces[i..][1..] == namespaces[i + 1..];
        if namespaces[i].nsid <= top { kept := kept + [namespaces[i]]; }
        i := i + 1;
      }
      namespaces := kept;
    }

    /** One listed NSID: scan it, then clear the gap below it. */
    method ScanEntry(nsid: nat, prev: nat, info: nat -> Info, ghost nss0: seq<Ns>, ghost seen: set<nat>)
      requires Scanned(namespaces, bogusNid, nss0, seen, prev, info) && prev < nsid
      modifies this
      ensures Scanned(namespaces, bogusNid, nss0, seen + {nsid}, nsid, info) && (old(bogusNid) ==> bogusNid)
    {
      hide Scanned, Clearing, ScanNs;
      StartClearing(namespaces, nss0, seen, prev, nsid, bogusNid, info);
      if bogusNid { StaysBogus(namespaces, bogusNid, nsid, info(nsid)); }
      var r := ScanNs(namespaces, bogusNid, nsid, info(nsid));
      namespaces, bogusNid := r.0, r.1;
      var p := prev;
      while p + 1 < nsid
        invariant p < nsid && Clearing(namespaces, bogusNid, nss0, seen, p, nsid, info) && (old(bogusNid) ==> bogusNid)
        decreases nsid - p
      {
        ClearOne(namespaces, bogusNid, nss0, seen, p, nsid, info);
        p := p + 1;
        namespaces := Remove(namespaces, p);
      }
      EndClearing(namespaces, bogusNid, nss0, seen, nsid, info);
    }

    /** nvme_scan_ns_list.  `page(n, prev)` is the answer to the n-th Identify.
        With ascending pages it ends with the chain's status, and on success the
        list holds, each once, exactly the NSIDs of the active list that Identify
        keeps. */
    method ScanNsList(bufOk: bool, page: (nat, nat) -> Reply, info: nat -> Info) returns (ret: int)
      requires Ok() && Paging(page)
      modifies this
      ensures Ok()
      ensures ret == if bufOk then Outcome(page, 0, 0) else ENOMEM
      ensures ret == 0 ==> ListIs(namespaces, bogusNid, old(namespaces), Listed(page, 0, 0), info)
      ensures old(bogusNid) ==> bogusNid
      ensures !bufOk ==> namespaces == old(namespaces)
    {
      if !bufOk { return ENOMEM; }
      ghost var nss0, seen: set<nat> := namespaces, {};
      var prev: nat, calls: nat := 0, 0;
      var more := true;
      NoneScanned(namespaces, bogusNid, info);
      hide Kept, Get, Unique, Stored, NoTwins, ListIs, Scanned;
      while more
        invariant prev < U32 && 0 !in seen && Scanned(namespaces, bogusNid, nss0, seen, prev, info)
        invariant old(bogusNid) ==> bogusNid
        invariant more ==> seen + Listed(page, calls, prev) == Listed(page, 0, 0)
        invariant more ==> Outcome(page, calls, prev) == Outcome(page, 0, 0)
        invariant !more ==> seen == Listed(page, 0, 0) && Outcome(page, 0, 0) == 0
        decreases more, U32 - prev
      {
        var reply := page(calls, prev);
        if reply.Fail? {
          ScannedSound(namespaces, bogusNid, nss0, seen, prev, info);
          return reply.status;
        }
        var entries := reply.entries;
        var n;
        n, prev := ScanPage(entries, prev, info, nss0, seen);
        seen := seen + Elems(entries[..n]);
        more := n == PAGE_ENTRIES;
        calls := calls + 1;
      }
      Pruned(namespaces, bogusNid, nss0, seen, prev, info);
      NoneListed(UpTo(namespaces, prev), bogusNid, nss0, seen, info);
      RemoveInvalid(prev);
      ret := 0;
    }

    /** One page of the list, up to its end mark. */
    method ScanPage(entries: seq<nat>, start: nat, info: nat -> Info, ghost nss0: seq<Ns>, ghost seen: set<nat>)
      returns (n: nat, prev: nat)
      requires Ascends(start, entries) && start < U32 && Scanned(namespaces, bogusNid, nss0, seen, start, info)
      modifies this
      ensures n == Filled(entries) && Scanned(namespaces, bogusNid, nss0, seen + Elems(entries[..n]), prev, info)
      ensures old(bogusNid) ==> bogusNid
      ensures prev == if n == 0 then start else entries[n - 1]
      ensures start <= prev < U32 && (n > 0 ==> start < prev)
    {
      hide Scanned;
      n, prev := 0, start;
      ghost var done := seen;
      assert seen + Elems(entries[..0]) == seen;
      while n < PAGE_ENTRIES && entries[n] != 0
        invariant 0 <= n <= PAGE_ENTRIES && done == seen + Elems(entries[..n])
        invariant Scanned(namespaces, bogusNid, nss0, done, prev, info) && (old(bogusNid) ==> bogusNid)
        invariant forall k :: 0 <= k < n ==> entries[k] != 0
        invariant prev == (if n == 0 then start else entries[n - 1]) && start <= prev < U32 && (n > 0 ==> start < prev)
      {
        assert Live(entries, n);
        ScanEntry(entries[n], prev, info, nss0, done);
        assert entries[..n + 1] == entries[..n] + [entries[n]];
        done := done + {entries[n]};
        prev := entries[n];
        n := n + 1;
      }
    }
  }
}
