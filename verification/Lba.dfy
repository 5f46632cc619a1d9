/** From a client's byte offset or SCSI CDB to a block address and count. */
module Lba {
  import opened Base
  import opened Arith
  import opened Chunk
  import opened IoPath

  // -------------------------------------------------- two 32-bit offset halves

  /** Bitwise or. */
  function Or(x: nat, y: nat): nat
    decreases x + y
  {
    if x == 0 && y == 0 then 0
    else 2 * Or(x / 2, y / 2) + if x % 2 == 1 || y % 2 == 1 then 1 else 0
  }

  /** decode_lba, in the 32-bit registers it works in; `<<` drops what leaves the
      register. */
  function DecodeLba(actual: nat, offset: nat, shift: Shift): nat {
    var hi := actual / Pow2(shift);
    var lo := Or(actual * Pow2(32 - shift) % U32, offset / Pow2(shift));
    Or(hi * U32, lo)
  }

  /** Fields that do not overlap: or is plus. */
  lemma {:induction false} OrDisjoint(q: nat, y: nat, k: nat)
    requires y < Pow2(k)
    ensures Or(q * Pow2(k), y) == q * Pow2(k) + y
    decreases k
  {
    if k == 0 {
      OrZero(q);
    } else {
      var x := q * Pow2(k);
      assert x == 2 * (q * Pow2(k - 1));
      assert y / 2 < Pow2(k - 1);
      OrDisjoint(q, y / 2, k - 1);
      assert x / 2 == q * Pow2(k - 1) && x % 2 == 0;
    }
  }

  lemma {:induction false} OrZero(x: nat)
    ensures Or(x, 0) == x
  {
    if x > 0 { OrZero(x / 2); }
  }

  /** `x << up` in the register keeps the low bits of `x`, moved up. */
  lemma ShiftedOut(a: nat, bs: nat, up: nat)
    requires bs > 0 && bs * up == U32
    ensures a * up % U32 == a % bs * up
  {
    var q, r := a / bs, a % bs;
    assert a == q * bs + r;
    assert a * up == q * U32 + r * up by { assert (q * bs) * up == q * (bs * up); }
    assert r * up < U32 by { MulGap(r, bs, up); }
    DivUnique(a * up, U32, q, r * up);
  }

  lemma QuotientBelow(o: nat, bs: nat, up: nat)
    requires bs > 0 && o < bs * up
    ensures o / bs < up
  {
    var c := o / bs;
    assert o == c * bs + o % bs;
    if c >= up { MulAtLeast(c, up, bs); }
  }

  lemma MulAtLeast(x: nat, y: nat, m: nat)
    requires y <= x
    ensures y * m <= x * m
  {
    MulGap(y, x, m);
  }

  /** Positional identity behind the split of an offset at a block boundary. */
  lemma Regroup(q: nat, r: nat, c: nat, e: nat, bs: nat, up: nat)
    requires bs * up == U32
    ensures (q * bs + r) * U32 + (c * bs + e) == (q * U32 + (r * up + c)) * bs + e
  {
    assert (q * bs + r) * U32 == (q * bs) * U32 + r * U32;
    assert (q * bs) * U32 == (q * U32) * bs;
    assert r * (bs * up) == (r * up) * bs;
    assert (q * U32 + (r * up + c)) * bs == (q * U32) * bs + (r * up) * bs + c * bs;
  }

  /** The low word is exact: the bits leaving the high half meet the low half. */
  lemma LowWord(a: nat, o: nat, bs: nat, up: nat)
    requires bs > 0 && bs * up == U32 && o < U32
    ensures o / bs < up
    ensures (a * U32 + o) / bs == a / bs * U32 + (a % bs * up + o / bs)
    ensures a % bs * up + o / bs < U32
  {
    var q, r, c, e := a / bs, a % bs, o / bs, o % bs;
    assert a == q * bs + r && o == c * bs + e;
    QuotientBelow(o, bs, up);
    MulGap(r, bs, up);
    Regroup(q, r, c, e, bs, up);
    DivUnique(a * U32 + o, bs, q * U32 + (r * up + c), e);
  }

  lemma ShiftPair(shift: Shift)
    ensures Pow2(shift) == BlockSize(shift) && Pow2(shift) * Pow2(32 - shift) == U32 == Pow2(32)
  {
    Pow2Values();
    hide Pow2;
    if shift == 9 {
    } else if shift == 10 {
    } else if shift == 11 {
    }
  }

  /** The 32-bit arithmetic is the 64-bit byte offset divided by the block size:
      no bit is lost, doubled or mixed. */
  lemma DecodeIsDivision(actual: nat, offset: nat, shift: Shift)
    requires actual < U32 && offset < U32
    ensures DecodeLba(actual, offset, shift) == (actual * U32 + offset) / BlockSize(shift)
  {
    ShiftPair(shift);
    hide Pow2, BlockSize, Or;
    var bs, up := Pow2(shift), Pow2(32 - shift);
    ShiftedOut(actual, bs, up);
    LowWord(actual, offset, bs, up);
    OrDisjoint(actual % bs, offset / bs, 32 - shift);
    OrDisjoint(actual / bs, actual % bs * up + offset / bs, 32);
  }

  // ---------------------------------------------------------- block counts

  /** The block count of a trackdisk command, from its 32-bit io_Length. */
  function TrackdiskBlocks(length: nat, shift: Shift): nat { length / BlockSize(shift) }

  /** `blocks << blockShift` on the trackdisk path never wraps: it is the length
      rounded down to whole blocks, and the dispatchers get what they rely on. */
  lemma TrackdiskNoWrap(cfg: Config, unit: Unit, write: bool, lba: nat, length: nat, nullBuf: bool, bufOff: nat)
    requires Aligned(cfg.limits, unit) && bufOff < PAGE && length < U32 && bufOff + length <= U32
    requires unit.wzMax == ZeroesCap(unit.shift, cfg.maxZeroes) && (cfg.maxZeroes == 0 || cfg.maxZeroes >= 8)
    ensures var blocks := TrackdiskBlocks(length, unit.shift);
            && blocks * BlockSize(unit.shift) % U32 == length - length % BlockSize(unit.shift)
            && CmdOk(cfg, RwCmd(unit, write, lba, blocks, nullBuf, bufOff, length, true))
            && CmdOk(cfg, ZeroesCmd(unit, lba, blocks, length))
  {
    var bs := BlockSize(unit.shift);
    assert length == length / bs * bs + length % bs;
    if cfg.maxZeroes >= 8 { ZeroesChunkNlb(cfg.limits, unit, cfg.maxZeroes, lba, 0); }
    hide ZeroesCap, BlockSize;
  }

  // ---------------------------------------------------------------- SCSI CDBs

  /** READ/WRITE 6, 10 and 16: the bytes of the CDB that name the transfer. */
  datatype Cdb =
    | Cdb6(hi: Byte, mid: Byte, lo: Byte, len: Byte)
    | Cdb10(lba: (Byte, Byte, Byte, Byte), len2: (Byte, Byte))
    | Cdb16(lbaHi: (Byte, Byte, Byte, Byte), lbaLo: (Byte, Byte, Byte, Byte), len4: (Byte, Byte, Byte, Byte))

  function Be32(b: (Byte, Byte, Byte, Byte)): (v: nat)
    ensures v < U32
  {
    b.0 * 0x100_0000 + b.1 * 0x1_0000 + b.2 * 0x100 + b.3
  }

  function CdbLba(c: Cdb): (lba: nat)
    ensures lba < U64
  {
    match c
    case Cdb6(hi, mid, lo, _) => hi % 0x20 * 0x1_0000 + mid * 0x100 + lo
    case Cdb10(lba, _) => Be32(lba)
    case Cdb16(hi, lo, _) => Be32(hi) * U32 + Be32(lo)
  }

  function CdbCount(c: Cdb): (n: nat)
    ensures n < U32
  {
    match c
    case Cdb6(_, _, _, len) => if len != 0 then len else 256
    case Cdb10(_, len) => len.0 * 0x100 + len.1
    case Cdb16(_, _, len) => Be32(len)
  }

  /** The byte of `x` that starts at bit `8 * n`. */
  function ByteOf(x: nat, n: nat): (b: Byte)
  {
    if n == 0 then x % 256 else ByteOf(x / 256, n - 1)
  }

  function Bytes32(x: nat): (Byte, Byte, Byte, Byte) { (ByteOf(x, 3), ByteOf(x, 2), ByteOf(x, 1), ByteOf(x, 0)) }

  lemma {:induction false} Be32Reads(x: nat)
    requires x < U32
    ensures Be32(Bytes32(x)) == x
  {
    var a := x / 256;
    var b := a / 256;
    var c := b / 256;
    assert ByteOf(x, 1) == a % 256;
    assert ByteOf(x, 2) == ByteOf(a, 1) == b % 256;
    assert ByteOf(x, 3) == ByteOf(a, 2) == ByteOf(b, 1) == c % 256;
    hide ByteOf;
    assert x == 256 * a + x % 256 && a == 256 * b + a % 256 && b == 256 * c + b % 256 && c < 256;
  }

  /** A 6-byte CDB names 21 bits of address under three bits that do not count, and
      1 to 256 blocks, with 0 for 256. */
  lemma Cdb6Reads(lba: nat, count: nat, lun: nat)
    requires lba < 0x20_0000 && 1 <= count <= 256 && lun < 8
    ensures var hi := lun * 32 + lba / 0x1_0000;
            && hi < 256
            && CdbLba(Cdb6(hi, ByteOf(lba, 1), ByteOf(lba, 0), count % 256)) == lba
            && CdbCount(Cdb6(hi, ByteOf(lba, 1), ByteOf(lba, 0), count % 256)) == count
  {
    var a := lba / 256;
    assert ByteOf(lba, 1) == a % 256 && a / 256 == lba / 0x1_0000 < 32;
    assert lba == 256 * a + lba % 256 && a == 256 * (lba / 0x1_0000) + a % 256;
  }

  /** The longer ones are big-endian throughout. */
  lemma LongCdbsRead(lba10: nat, count10: nat, lba16: nat, count16: nat)
    requires lba10 < U32 && count10 < 0x1_0000 && lba16 < U64 && count16 < U32
    ensures var c := Cdb10(Bytes32(lba10), (ByteOf(count10, 1), ByteOf(count10, 0)));
            CdbLba(c) == lba10 && CdbCount(c) == count10
    ensures var c := Cdb16(Bytes32(lba16 / U32), Bytes32(lba16 % U32), Bytes32(count16));
            CdbLba(c) == lba16 && CdbCount(c) == count16
  {
    Be32Reads(lba10);
    Be32Reads(lba16 / U32);
    Be32Reads(lba16 % U32);
    Be32Reads(count16);
    assert ByteOf(count10, 1) == count10 / 256 % 256;
    hide Be32, Bytes32;
  }

  datatype Transfer = Go(cmd: Cmd) | Refuse(err: int)

  /** do_scsi_transfer: CDB count against buffer length, compared in blocks.  The
      direction is that of scsi_Flags, whatever the opcode says. */
  function ScsiTransfer(unit: Unit, c: Cdb, write: bool, length: nat, nullBuf: bool, bufOff: nat,
                        ioLength: nat): Transfer {
    if length / BlockSize(unit.shift) < CdbCount(c) then Refuse(IOERR_BADLENGTH)
    else Go(RwCmd(unit, write, CdbLba(c), CdbCount(c), nullBuf, bufOff, ioLength, false))
  }

  /** The guard lets through exactly the CDBs whose transfer fits the caller's
      buffer, as the CDB names it; nothing that passes can wrap the 32-bit byte
      count. */
  lemma ScsiNoWrap(cfg: Config, unit: Unit, c: Cdb, write: bool, length: nat, nullBuf: bool, bufOff: nat, ioLength: nat)
    requires Aligned(cfg.limits, unit) && bufOff < PAGE && length < U32 && bufOff + length <= U32
    ensures var t := ScsiTransfer(unit, c, write, length, nullBuf, bufOff, ioLength);
            && (t.Go? <==> CdbCount(c) * BlockSize(unit.shift) <= length)
            && (t.Refuse? ==> t.err == IOERR_BADLENGTH)
            && (t.Go? ==> t.cmd.RwCmd? && t.cmd.unit == unit && t.cmd.write == write && t.cmd.lba == CdbLba(c)
                          && t.cmd.blocks == CdbCount(c) && t.cmd.nullBuf == nullBuf && t.cmd.bufOff == bufOff
                          && t.cmd.length == ioLength && !t.cmd.trackdisk)
            && (t.Go? ==> CmdOk(cfg, t.cmd) && t.cmd.blocks * BlockSize(unit.shift) % U32 <= length)
  {
    hide CdbCount, CdbLba, BlockSize, Aligned;
    BlocksFit(length, CdbCount(c), BlockSize(unit.shift));
  }

  /** Comparing in blocks is comparing in bytes, without the wrap. */
  lemma BlocksFit(length: nat, n: nat, bs: nat)
    requires bs > 0
    ensures length / bs < n <==> n * bs > length
  {
    var q := length / bs;
    assert length == q * bs + length % bs;
    MulGap(q, n, bs);
    MulGap(n, q, bs);
  }

  /** Comparing bytes instead of blocks would not do: this READ(16) asks for 2 TiB
      and its byte count, wrapped to 32 bits, is 0. */
  lemma ByteCompareWraps(unit: Unit)
    requires unit.shift == 9
    ensures var n := CdbCount(Cdb16((0, 0, 0, 0), (0, 0, 0, 0), (0x80, 0, 0, 0)));
            n * BlockSize(unit.shift) % U32 == 0 && n * BlockSize(unit.shift) > U32
  {
  }
}
