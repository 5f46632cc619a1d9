/** Transfer limits and the size of one chunk of a split read, write or
    write-zeroes, in the 32-bit arithmetic of the driver. */
module Chunk {
  import opened Base
  import opened Arith

  /** log2 of a namespace's block size. */
  type Shift = s: nat | 9 <= s <= 12 witness 9

  /** Blocks to deallocate. */
  datatype Range = Range(lba: nat, blocks: nat)

  datatype Op = Read | Write | Zeroes | Flush | Trim(ranges: seq<Range>)

  datatype Limits = Limits(maxTransfer: nat, stripe: bool, maxHw: nat)

  datatype Unit = Unit(shift: Shift, wzMax: nat, logicalSectors: nat)

  function BlockSize(s: Shift): (b: nat)
    ensures b in {512, 1024, 2048, 4096}
  {
    if s == 9 then 512 else if s == 10 then 1024 else if s == 11 then 2048 else 4096
  }

  predicate IsPow2(m: nat) {
    m == 1 || (m > 0 && m % 2 == 0 && IsPow2(m / 2))
  }

  /** nvme_rw_chunk_cap: 0 means "no limit". */
  function RwCap(l: Limits, shift: Shift, lba: nat): nat {
    var stripeBlocks := l.maxHw / (BlockSize(shift) / 512);
    if l.stripe && l.maxHw != 0 && IsPow2(l.maxHw) && stripeBlocks != 0 then
      var toBytes := (stripeBlocks - lba % stripeBlocks) * BlockSize(shift) % U32;
      if l.maxTransfer == 0 || toBytes < l.maxTransfer then toBytes else l.maxTransfer
    else l.maxTransfer
  }

  function Cap(l: Limits, u: Unit, op: Op, lba: nat): nat {
    if op.Zeroes? then u.wzMax else RwCap(l, u.shift, lba)
  }

  /** Bytes of the chunk that starts at `lba` with `remaining` bytes to go. */
  function NextBytes(l: Limits, u: Unit, op: Op, lba: nat, remaining: nat): nat {
    var cap := Cap(l, u, op, lba);
    if cap != 0 && remaining > cap then cap else remaining
  }

  // ------------------------------------------------- where the limits come from

  /** nvme_mps_to_sectors with CAP.MPSMIN and a power-of-two exponent. */
  function MpsToSectors(mpsMin: nat, units: nat): nat {
    var n := units + mpsMin + 12 - 9;
    if n >= 32 then U32 - 1 else Pow2(n)
  }

  /** nvme_set_limits. */
  function MaxTransfer(maxHw: nat): nat {
    if maxHw == 0 || maxHw == U32 - 1 then 8 * 1024 * 1024 else maxHw * 512 % U32
  }

  /** The ceilings nvme_init_identify derives from Identify (MDTS 0: unreported). */
  function IdentifyLimits(mpsMin: nat, mdts: nat, stripe: bool): Limits {
    var maxHw := if mdts == 0 then U32 - 1 else MpsToSectors(mpsMin, mdts);
    Limits(MaxTransfer(maxHw), stripe, maxHw)
  }

  /** nvme_alloc_nvmeunit's Write Zeroes cap. */
  function ZeroesCap(shift: Shift, maxZeroes: nat): nat {
    var bs := BlockSize(shift);
    var lim := if maxZeroes * 512 < 0x10000 * bs then maxZeroes * 512 else 0x10000 * bs;
    var lim32 := if lim > U32 - 1 then U32 - 1 else lim;
    lim32 - lim32 % bs
  }

  /** What the chunk arithmetic needs of the limits. */
  ghost predicate Aligned(l: Limits, u: Unit) {
    && l.maxTransfer % PAGE == 0
    && u.wzMax % BlockSize(u.shift) == 0 && u.wzMax <= 0x1_0000 * BlockSize(u.shift)
  }

  lemma {:induction false} Pow2Pages(n: nat)
    requires n >= 3
    ensures Pow2(n) * 512 % 4096 == 0
    decreases n
  {
    if n > 3 { Pow2Pages(n - 1); }
  }

  /** A power of two is what the bit trick `m & (m - 1) == 0` says it is. */
  lemma {:induction false} PowersOnly(m: nat)
    ensures IsPow2(m) <==> exists n: nat :: m == Pow2(n)
    decreases m
  {
    if m == 1 {
      assert m == Pow2(0);
    } else if m > 0 && m % 2 == 0 {
      PowersOnly(m / 2);
      if IsPow2(m / 2) {
        var n: nat :| m / 2 == Pow2(n);
        assert m == Pow2(n + 1);
      } else {
        forall n: nat ensures m != Pow2(n) { if n > 0 { assert m / 2 != Pow2(n - 1); } }
      }
    } else {
      forall n: nat ensures m != Pow2(n) { if n > 0 { assert Pow2(n) == 2 * Pow2(n - 1); } }
    }
  }

  /** The device's own limit: 2^MDTS of its smallest pages. */
  function DeviceLimit(mpsMin: nat, mdts: nat): nat { Pow2(mdts) * (4096 * Pow2(mpsMin)) }

  lemma DeviceLimitIs(mpsMin: nat, mdts: nat)
    ensures DeviceLimit(mpsMin, mdts) == Pow2(mdts + mpsMin + 12) == Pow2(mdts + mpsMin + 3) * 512
  {
    Pow2Values();
    hide Pow2;
    Pow2Sum(mdts, mpsMin);
    Pow2Sum(mdts + mpsMin, 12);
    Pow2Sum(mdts + mpsMin + 3, 9);
    Regroup3(Pow2(mdts), 4096, Pow2(mpsMin));
  }

  lemma Regroup3(a: nat, b: nat, c: nat)
    ensures a * (b * c) == a * c * b
  {
  }

  /** The ceiling recorded from Identify.  With no limit reported, or one beyond
      32 bits of sectors, 8 MiB; with a limit of 4 GiB or more none, for no
      transfer reaches it; else the device's limit itself. */
  lemma MdtsExact(mpsMin: nat, mdts: nat, stripe: bool)
    ensures var l := IdentifyLimits(mpsMin, mdts, stripe);
            && l.stripe == stripe
            && l.maxTransfer == (if mdts == 0 || mdts + mpsMin >= 29 then 0x80_0000
                                 else if DeviceLimit(mpsMin, mdts) >= U32 then 0
                                 else DeviceLimit(mpsMin, mdts))
            && (if mdts != 0 && mdts + mpsMin < 29 then l.maxHw * 512 == DeviceLimit(mpsMin, mdts)
                else l.maxHw == 0xFFFF_FFFF)
  {
    var n := mdts + mpsMin + 3;
    DeviceLimitIs(mpsMin, mdts);
    Pow2Values();
    if mdts != 0 && n < 32 {
      Pow2Mono(n, 31);
      if n + 9 >= 32 {
        Pow2Sum(n + 9 - 32, 32);
        ModOfMul(Pow2(n + 9 - 32), U32);
      } else {
        Pow2Mono(n + 9, 31);
      }
    }
    hide Pow2;
  }

  /** No read or write, chunked or not, is longer than the device allows. */
  lemma MdtsRespected(mpsMin: nat, mdts: nat, stripe: bool, u: Unit, op: Op, lba: nat, remaining: nat)
    requires mdts != 0 && !op.Zeroes? && remaining < U32
    ensures NextBytes(IdentifyLimits(mpsMin, mdts, stripe), u, op, lba, remaining) <= DeviceLimit(mpsMin, mdts)
  {
    var l := IdentifyLimits(mpsMin, mdts, stripe);
    MdtsExact(mpsMin, mdts, stripe);
    if mdts + mpsMin >= 29 { Pow2Mono(32, mdts + mpsMin + 12); DeviceLimitIs(mpsMin, mdts); Pow2Values(); }
    hide Pow2, DeviceLimit;
    if l.maxTransfer != 0 {
      assert l.maxTransfer == MaxTransfer(l.maxHw);
      hide IdentifyLimits, RwCap;
      ChunkWithinMdts(l, u, op, lba, remaining);
    }
  }

  /** The Write Zeroes cap: the most whole blocks within the device's limit, the
      16-bit NLB and 32 bits of bytes. */
  lemma ZeroesCapIs(shift: Shift, maxZeroes: nat)
    ensures var bs, cap := BlockSize(shift), ZeroesCap(shift, maxZeroes);
            && cap % bs == 0 && cap <= maxZeroes * 512 && cap <= 0x1_0000 * bs && cap < U32
            && (cap + bs > maxZeroes * 512 || cap + bs > 0x1_0000 * bs || cap + bs >= U32)
  {
    var bs := BlockSize(shift);
    var lim := if maxZeroes * 512 < 0x10000 * bs then maxZeroes * 512 else 0x10000 * bs;
    RoundDown(if lim > U32 - 1 then U32 - 1 else lim, bs);
    hide BlockSize;
  }

  /** Limits derived from Identify keep every cap block-aligned. */
  lemma IdentifyAligned(mpsMin: nat, mdts: nat, stripe: bool, shift: Shift, maxZeroes: nat, sectors: nat)
    ensures Aligned(IdentifyLimits(mpsMin, mdts, stripe), Unit(shift, ZeroesCap(shift, maxZeroes), sectors))
  {
    if mdts != 0 && mdts + mpsMin + 3 < 32 {
      Pow2Pages(mdts + mpsMin + 3);
      WrapPages(Pow2(mdts + mpsMin + 3) * 512);
    }
    var bs := BlockSize(shift);
    var lim := if maxZeroes * 512 < 0x10000 * bs then maxZeroes * 512 else 0x10000 * bs;
    RoundDown(if lim > U32 - 1 then U32 - 1 else lim, bs);
  }

  lemma WrapPages(x: nat)
    requires x % 4096 == 0
    ensures x % U32 % 4096 == 0
  {
    MulMod(x / 4096, 4096);
    assert x / 4096 * 4096 == x;
  }

  // --------------------------------------------------------- chunk properties

  lemma MulMod(a: nat, bs: nat)
    requires bs in {512, 1024, 2048, 4096}
    ensures a * bs % U32 % bs == 0
    ensures a * bs % U32 <= a * bs
    ensures a * bs % U32 == 0 ==> a == 0 || a * bs >= U32
  {
    var x := a * bs;
    var c, q := U32 / bs, x / U32;
    assert c * bs == U32;
    assert x == q * U32 + x % U32;
    assert q * (c * bs) == (q * c) * bs;
    assert x % U32 == (a - q * c) * bs;
    assert a - q * c >= 0;
    ModOfMul(a - q * c, bs);
  }

  /** Every chunk is a positive whole number of blocks, no longer than what
      remains and no longer than a nonzero cap, and as long as that lets it be. */
  lemma ChunkBlocks(l: Limits, u: Unit, op: Op, lba: nat, remaining: nat)
    requires Aligned(l, u) && 0 < remaining && remaining % BlockSize(u.shift) == 0
    ensures var n := NextBytes(l, u, op, lba, remaining);
            && 0 < n <= remaining && n % BlockSize(u.shift) == 0
            && (Cap(l, u, op, lba) != 0 ==> n <= Cap(l, u, op, lba))
            && (n == remaining || n == Cap(l, u, op, lba))
  {
    var bs := BlockSize(u.shift);
    PageBlocks(l.maxTransfer, bs);
    RwCapBlocks(l, u.shift, lba);
    hide RwCap;
  }

  lemma RwCapBlocks(l: Limits, shift: Shift, lba: nat)
    requires l.maxTransfer % BlockSize(shift) == 0
    ensures RwCap(l, shift, lba) % BlockSize(shift) == 0
  {
    var sb := l.maxHw / (BlockSize(shift) / 512);
    if sb != 0 { MulMod(sb - lba % sb, BlockSize(shift)); }
    hide IsPow2;
  }

  lemma PageBlocks(x: nat, bs: nat)
    requires bs in {512, 1024, 2048, 4096} && x % 4096 == 0
    ensures x % bs == 0
  {
    var q, c := x / 4096, 4096 / bs;
    assert c * bs == 4096;
    assert x == q * (c * bs) == (q * c) * bs;
    ModOfMul(q * c, bs);
  }

  /** Blocks in one stripe. */
  function StripeBlocks(l: Limits, shift: Shift): nat { l.maxHw / (BlockSize(shift) / 512) }

  /** The cap reaches no further than the stripe end, or the stripe end is out
      of reach of any 32-bit transfer. */
  lemma CapReach(l: Limits, shift: Shift, lba: nat)
    requires l.stripe && IsPow2(l.maxHw) && StripeBlocks(l, shift) != 0
    ensures var sb := StripeBlocks(l, shift);
            var reach := (sb - lba % sb) * BlockSize(shift);
            var cap := RwCap(l, shift, lba);
            if cap == 0 then reach >= U32 else cap <= reach
  {
    var sb := StripeBlocks(l, shift);
    var bs := BlockSize(shift);
    var dist := sb - lba % sb;
    var reach := dist * bs;
    MulMod(dist, bs);
    hide IsPow2;
    var toBytes := reach % U32;
    assert RwCap(l, shift, lba) == if l.maxTransfer == 0 || toBytes < l.maxTransfer then toBytes else l.maxTransfer;
    assert reach > 0;
  }

  /** The cap itself.  Without the stripe quirk, or with a stripe size that is no
      power of two, the transfer ceiling; with it, the shorter of ceiling and
      distance to the stripe end, of which 32 bits are kept. */
  lemma CapExact(l: Limits, shift: Shift, lba: nat)
    ensures !l.stripe || !IsPow2(l.maxHw) || StripeBlocks(l, shift) == 0 ==> RwCap(l, shift, lba) == l.maxTransfer
    ensures l.stripe && IsPow2(l.maxHw) && StripeBlocks(l, shift) != 0 ==>
              var sb := StripeBlocks(l, shift);
              var reach := (sb - lba % sb) * BlockSize(shift) % 0x1_0000_0000;
              RwCap(l, shift, lba) == if l.maxTransfer != 0 && l.maxTransfer < reach then l.maxTransfer else reach
  {
    hide IsPow2, BlockSize;
  }

  lemma WholeBlocks(n: nat, dist: nat, bs: nat)
    requires bs > 0 && n % bs == 0 && 0 < n <= dist * bs
    ensures 0 < n / bs <= dist
  {
    var q := n / bs;
    assert n == q * bs;
    MulGap(dist, q, bs);
  }

  /** Under the stripe quirk no read or write command crosses a stripe
      boundary, whatever the power of two: when the 32-bit byte distance wraps,
      it wraps to something shorter, or to "no limit" only when the stripe end is
      further away than any 32-bit transfer. */
  lemma ChunkInStripe(l: Limits, u: Unit, op: Op, lba: nat, remaining: nat)
    requires Aligned(l, u) && l.stripe && IsPow2(l.maxHw) && !op.Zeroes?
    requires 0 < remaining < U32 && remaining % BlockSize(u.shift) == 0
    requires StripeBlocks(l, u.shift) != 0
    ensures var sb := StripeBlocks(l, u.shift);
            var blocks := NextBytes(l, u, op, lba, remaining) / BlockSize(u.shift);
            blocks > 0 && lba / sb == (lba + blocks - 1) / sb
  {
    var bs := BlockSize(u.shift);
    var sb := StripeBlocks(l, u.shift);
    var dist := sb - lba % sb;
    ChunkBlocks(l, u, op, lba, remaining);
    CapReach(l, u.shift, lba);
    hide StripeBlocks, IsPow2, RwCap, BlockSize;
    var n := NextBytes(l, u, op, lba, remaining);
    assert n <= dist * bs;
    WholeBlocks(n, dist, bs);
    DivSame(lba, n / bs, sb);
  }

  lemma {:induction false} Pow2Divides(m: nat, n: nat) returns (k: nat)
    requires IsPow2(m) && m >= Pow2(n)
    ensures m == k * Pow2(n)
  {
    if n == 0 {
      k := m;
    } else {
      k := Pow2Divides(m / 2, n - 1);
      assert m == 2 * (m / 2);
      assert 2 * (k * Pow2(n - 1)) == k * (2 * Pow2(n - 1));
    }
  }

  lemma {:induction false} Pow2Odd(m: nat)
    requires IsPow2(m)
    ensures m != U32 - 1
  {
    assert (U32 - 1) % 2 == 1;
  }

  /** A stripe is as many whole blocks as its sectors hold. */
  lemma StripeBytes(l: Limits, shift: Shift)
    ensures StripeBlocks(l, shift) * BlockSize(shift) <= l.maxHw * 512
    ensures l.maxHw * 512 < (StripeBlocks(l, shift) + 1) * BlockSize(shift)
  {
    var f := BlockSize(shift) / 512;
    assert BlockSize(shift) == f * 512;
    var sb := l.maxHw / f;
    assert sb * f <= l.maxHw < sb * f + f;
    assert sb * (f * 512) == sb * f * 512 && (sb + 1) * (f * 512) == sb * f * 512 + f * 512;
  }

  /** The MDTS ceiling binds every read and write, stripe quirk or not. */
  lemma ChunkWithinMdts(l: Limits, u: Unit, op: Op, lba: nat, remaining: nat)
    requires !op.Zeroes? && l.maxTransfer == MaxTransfer(l.maxHw) != 0
    ensures NextBytes(l, u, op, lba, remaining) <= l.maxTransfer
  {
    var sb := StripeBlocks(l, u.shift);
    if l.stripe && l.maxHw != 0 && IsPow2(l.maxHw) && sb != 0 && RwCap(l, u.shift, lba) == 0 {
      CapReach(l, u.shift, lba);
      StripeBytes(l, u.shift);
      assert (sb - lba % sb) * BlockSize(u.shift) <= sb * BlockSize(u.shift);
      assert Pow2(10) == 1024 && Pow2(20) == 0x10_0000 && Pow2(23) == 0x80_0000;
      var k := Pow2Divides(l.maxHw, 23);
      Pow2Odd(l.maxHw);
      MaxTransferWraps(l.maxHw, k);
      assert false;
    }
  }

  lemma MaxTransferWraps(maxHw: nat, k: nat)
    requires maxHw == k * 0x80_0000 && 0 < maxHw != U32 - 1
    ensures MaxTransfer(maxHw) == 0
  {
    assert maxHw * 512 == k * U32;
    ModOfMul(k, U32);
  }

  /** A Write Zeroes chunk fits the 16-bit NLB: Identify reports its limit in
      pages, so the cap is never below one block. */
  lemma ZeroesChunkNlb(l: Limits, u: Unit, maxZeroes: nat, lba: nat, remaining: nat)
    requires u.wzMax == ZeroesCap(u.shift, maxZeroes) && maxZeroes >= 8
    ensures 0 < u.wzMax <= 0x1_0000 * BlockSize(u.shift)
    ensures NextBytes(l, u, Zeroes, lba, remaining) / BlockSize(u.shift) <= 0x1_0000
  {
    var bs, n := BlockSize(u.shift), NextBytes(l, u, Zeroes, lba, remaining);
    var q := n / bs;
    assert n == q * bs + n % bs;
    MulGap(0x1_0000, q, bs);
  }
}
