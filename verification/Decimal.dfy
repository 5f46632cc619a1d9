/** Wide little-endian integers in nvmeadm: in-place byte arithmetic and the
    decimal printer used for SMART counters. */
module Decimal {
  import opened Base
  import opened Arith
  import opened Seqs

  /** The number a little-endian byte string stands for. */
  function Val(s: seq<Byte>): nat { if s == [] then 0 else s[0] + 256 * Val(s[1..]) }

  function Pow(b: nat, e: nat): (p: nat)
    requires b > 0
    ensures p > 0
  {
    if e == 0 then 1 else b * Pow(b, e - 1)
  }

  lemma ValEmpty()
    ensures Val([]) == 0 && Pow(256, 0) == 1
  {
  }

  lemma PowNext(b: nat, e: nat)
    requires b > 0
    ensures Pow(b, e + 1) == b * Pow(b, e)
  {
  }

  lemma {:induction false} ValZero(s: seq<Byte>)
    ensures Val(s) == 0 <==> forall i :: 0 <= i < |s| ==> s[i] == 0
  {
    if s != [] {
      ValZero(s[1..]);
      assert s == [s[0]] + s[1..];
    }
  }

  lemma {:induction false} ValBound(s: seq<Byte>)
    ensures Val(s) < Pow(256, |s|)
  {
    if s != [] { ValBound(s[1..]); }
  }

  lemma {:induction false} ValPush(s: seq<Byte>, b: Byte)
    ensures Val(s + [b]) == Val(s) + b * Pow(256, |s|)
  {
    if s == [] {
      assert [b][1..] == [];
    } else {
      ValPush(s[1..], b);
      assert (s + [b])[1..] == s[1..] + [b];
      assert 256 * (b * Pow(256, |s| - 1)) == b * Pow(256, |s|);
    }
  }

  /** bytes_all_zero. */
  method BytesAllZero(a: array<Byte>) returns (zero: bool)
    ensures zero <==> Val(a[..]) == 0
  {
    ValZero(a[..]);
    for i := 0 to a.Length
      invariant forall k :: 0 <= k < i ==> a[k] == 0
    {
      if a[i] != 0 { return false; }
    }
    return true;
  }

  // -------------------------------------------------------------- division

  /** One byte of a long division: what the bytes above left over comes down. */
  lemma DivideStep(hi: nat, rem: nat, byte: nat, d: nat)
    requires d > 0
    ensures var cur := rem * 256 + byte;
            256 * (hi * d + rem) + byte == (256 * hi + cur / d) * d + cur % d
  {
    var cur := rem * 256 + byte;
    assert cur == cur / d * d + cur % d;
    assert (256 * hi + cur / d) * d == 256 * (hi * d) + cur / d * d by { Distribute(hi, cur / d, d); }
  }

  lemma Distribute(hi: nat, q: nat, d: nat)
    ensures (256 * hi + q) * d == 256 * (hi * d) + q * d
  {
  }

  lemma QuotientByte(rem: nat, byte: Byte, d: nat)
    requires rem < d
    ensures (rem * 256 + byte) / d < 256
  {
    var cur := rem * 256 + byte;
    var q := cur / d;
    assert cur == q * d + cur % d;
    MulGap(rem, d, 256);
    MulGap(255, q, d);
  }

  /** One byte of the quotient, and what is left over for the next. */
  function QuotByte(rem: nat, byte: Byte, d: nat): Byte
    requires rem < d
  {
    QuotientByte(rem, byte, d);
    (rem * 256 + byte) / d
  }

  function RemByte(rem: nat, byte: Byte, d: nat): (r: nat)
    requires rem < d
    ensures r < d
  {
    (rem * 256 + byte) % d
  }

  /** le_bytes_divide_u16: quotient in place, remainder returned. */
  method DivideU16(a: array<Byte>, divisor: nat) returns (rem: nat)
    requires 0 < divisor < 0x1_0000
    modifies a
    ensures Val(old(a[..])) == Val(a[..]) * divisor + rem && rem < divisor
  {
    hide Val, QuotByte, RemByte;
    ValEmpty();
    rem := 0;
    var i := a.Length;
    ghost var was := a[..];
    assert was[i..] == [] && a[i..] == [];
    while i > 0
      invariant 0 <= i <= a.Length && rem < divisor && |was| == a.Length
      invariant a[..i] == was[..i]
      invariant Val(was[i..]) == Val(a[i..]) * divisor + rem
    {
      i := i - 1;
      ghost var above := a[i + 1..];
      assert a[i] == a[..i + 1][i] == was[i];
      DivideByte(was, above, i, rem, divisor);
      var byte := a[i];
      a[i] := QuotByte(rem, byte, divisor);
      rem := RemByte(rem, byte, divisor);
      assert a[i..] == [a[i]] + above;
    }
    assert a[0..] == a[..] && was[0..] == was;
  }

  lemma DivideByte(was: seq<Byte>, above: seq<Byte>, i: nat, rem: nat, d: nat)
    requires i < |was| && rem < d && Val(was[i + 1..]) == Val(above) * d + rem
    ensures Val(was[i..]) == Val([QuotByte(rem, was[i], d)] + above) * d + RemByte(rem, was[i], d)
  {
    QuotientByte(rem, was[i], d);
    DivideStep(Val(above), rem, was[i], d);
    var cur := rem * 256 + was[i];
    assert was[i..][1..] == was[i + 1..];
    assert ([cur / d] + above)[1..] == above;
  }

  // -------------------------------------------------------- multiplication

  /** The 32-bit product of byte `i` and the carry into it. */
  function Product(value: seq<Byte>, m: nat, i: nat): nat
    requires i < |value|
    decreases i, 1
  {
    (value[i] * m + CarryInto(value, m, i)) % U32
  }

  function CarryInto(value: seq<Byte>, m: nat, i: nat): nat
    requires i <= |value|
    decreases i, 0
  {
    if i == 0 then 0 else Product(value, m, i - 1) / 256
  }

  /** What the 32-bit products below byte `i` have dropped. */
  function Dropped(value: seq<Byte>, m: nat, i: nat): nat
    requires i <= |value|
  {
    if i == 0 then 0
    else Dropped(value, m, i - 1) + (value[i - 1] * m + CarryInto(value, m, i - 1)) / U32 * (U32 * Pow(256, i - 1))
  }

  function LowBytes(value: seq<Byte>, m: nat, i: nat): (s: seq<Byte>)
    requires i <= |value|
    ensures |s| == i
  {
    if i == 0 then [] else LowBytes(value, m, i - 1) + [Product(value, m, i - 1) % 256]
  }

  lemma CarryStep(low: nat, carry: nat, w: nat)
    ensures low + carry % 256 * w + carry / 256 * (256 * w) == low + carry * w
  {
    assert carry == carry / 256 * 256 + carry % 256;
    assert carry / 256 * (256 * w) == carry / 256 * 256 * w;
  }

  /** One byte of a long multiplication, at weight `w`, in a register that drops
      multiples of 2^32. */
  lemma MulStep(low: nat, v: nat, carry: nat, drop: nat, byte: nat, m: nat, w: nat)
    requires low + carry * w + drop == v * m
    ensures var full := byte * m + carry;
            low + full % U32 % 256 * w + full % U32 / 256 * (256 * w) + (drop + full / U32 * (U32 * w))
              == (v + byte * w) * m
  {
    var full := byte * m + carry;
    var q, p := full / U32, full % U32;
    assert full == q * U32 + p;
    CarryStep(low, p, w);
    assert full * w == q * (U32 * w) + p * w by { assert (q * U32) * w == q * (U32 * w); }
    assert full * w == (byte * m) * w + carry * w;
    assert (v + byte * w) * m == v * m + (byte * m) * w by { assert (byte * w) * m == (byte * m) * w; }
  }

  /** Written bytes, carry and what was dropped make up the product. */
  lemma {:induction false} MulBalance(value: seq<Byte>, m: nat, i: nat)
    requires i <= |value|
    ensures Val(LowBytes(value, m, i)) + CarryInto(value, m, i) * Pow(256, i) + Dropped(value, m, i)
            == Val(value[..i]) * m
  {
    if i == 0 {
      assert value[..0] == [];
    } else {
      var k := i - 1;
      MulBalance(value, m, k);
      assert value[..i] == value[..k] + [value[k]];
      ValPush(value[..k], value[k]);
      ValPush(LowBytes(value, m, k), Product(value, m, k) % 256);
      hide Val, Pow;
      PowNext(256, k);
      MulStep(Val(LowBytes(value, m, k)), Val(value[..k]), CarryInto(value, m, k), Dropped(value, m, k), value[k], m,
              Pow(256, k));
    }
  }

  lemma NoOverflow(byte: Byte, m: nat, carry: nat)
    requires m <= 0x100_0000 && (carry < m || carry == 0)
    ensures var full := byte * m + carry;
            full / U32 == 0 && full % U32 == full && (full / 256 < m || full / 256 == 0)
  {
    MulGap(byte, 256, m);
    var full := byte * m + carry;
    assert full < U32;
  }

  /** Up to 2^24 no product overflows its register. */
  lemma {:induction false} NothingDropped(value: seq<Byte>, m: nat, i: nat)
    requires i <= |value| && m <= 0x100_0000
    ensures Dropped(value, m, i) == 0 && (CarryInto(value, m, i) < m || CarryInto(value, m, i) == 0)
  {
    if i > 0 {
      NothingDropped(value, m, i - 1);
      var full := value[i - 1] * m + CarryInto(value, m, i - 1);
      NoOverflow(value[i - 1], m, CarryInto(value, m, i - 1));
      assert Product(value, m, i - 1) == full;
      assert CarryInto(value, m, i) == full / 256;
      hide Pow, Product, CarryInto;
      MulAtMost(0, U32 * Pow(256, i - 1), U32 * Pow(256, i - 1));
    }
  }

  lemma {:induction false} DroppedGrows(value: seq<Byte>, m: nat, i: nat, j: nat)
    requires i <= j <= |value|
    ensures Dropped(value, m, i) <= Dropped(value, m, j)
    decreases j
  {
    if i < j {
      DroppedGrows(value, m, i, j - 1);
      hide Pow, CarryInto;
      MulAtMost((value[j - 1] * m + CarryInto(value, m, j - 1)) / U32, 0, U32 * Pow(256, j - 1));
    }
  }

  function AllOnes(n: nat): (s: seq<Byte>)
    ensures |s| == n && forall k :: 0 <= k < n ==> s[k] == 255
  {
    seq(n, _ => 255)
  }

  lemma {:induction false} AllOnesVal(n: nat)
    ensures Val(AllOnes(n)) == Pow(256, n) - 1
  {
    if n > 0 {
      AllOnesVal(n - 1);
      assert AllOnes(n)[1..] == AllOnes(n - 1);
    }
  }

  /** A carry is a 32-bit product shifted down. */
  lemma CarryBelow(value: seq<Byte>, m: nat, i: nat)
    requires 0 < i <= |value|
    ensures CarryInto(value, m, i) < 0x100_0000
  {
  }

  /** Above 2^24 the all-ones value overflows: otherwise its carry would climb to
      m - 1, which no carry can reach. */
  lemma OnesOverflow(m: nat)
    requires 0x100_0000 < m < U32
    ensures Dropped(AllOnes(16), m, 16) > 0
  {
    var v := AllOnes(16);
    DroppedGrows(v, m, 5, 16);
    MulBalance(v, m, 5);
    assert v[..5] == AllOnes(5);
    AllOnesVal(5);
    assert Pow(256, 5) == 0x100_0000_0000;
    ValBound(LowBytes(v, m, 5));
    CarryBelow(v, m, 5);
    hide Val, Pow, CarryInto;
    if Dropped(v, m, 5) == 0 { ClimbedCarry(Val(LowBytes(v, m, 5)), CarryInto(v, m, 5), m); }
  }

  lemma ClimbedCarry(low: nat, carry: nat, m: nat)
    requires 0 < m < U32 && low < 0x100_0000_0000
    requires low + carry * 0x100_0000_0000 == (0x100_0000_0000 - 1) * m
    ensures carry == m - 1
  {
  }

  /** The multiplication is exact for every 16-byte value exactly up to 2^24. */
  lemma MulExactIff(m: nat)
    requires m < U32
    ensures (forall value: seq<Byte> :: |value| == 16 ==> Dropped(value, m, 16) == 0) <==> m <= 0x100_0000
  {
    if m <= 0x100_0000 {
      forall value: seq<Byte> | |value| == 16 ensures Dropped(value, m, 16) == 0 { NothingDropped(value, m, 16); }
    } else {
      OnesOverflow(m);
    }
  }

  lemma {:induction false} ZeroTail(s: seq<Byte>, i: nat)
    requires i <= |s| && forall k :: i <= k < |s| ==> s[k] == 0
    ensures Val(s) == Val(s[..i])
    decreases |s| - i
  {
    if i < |s| {
      ValPush(s[..i], s[i]);
      assert s[..i + 1] == s[..i] + [s[i]];
      ZeroTail(s, i + 1);
    } else {
      assert s[..i] == s;
    }
  }

  /** What mul_u128_small computes: the product of the value bytes the buffer has
      room for, less what its registers dropped, cut to the buffer. */
  ghost function MulResult(value: seq<Byte>, m: nat, outLen: nat): int
    requires |value| == 16
  {
    var n := if outLen < 16 then outLen else 16;
    (Val(value[..n]) * m - Dropped(value, m, n)) % Pow(256, outLen)
  }

  /** mul_u128_small, for any 32-bit multiplier and any buffer. */
  method MulU128Small(value: seq<Byte>, multiplier: nat, outLen: nat) returns (out: array<Byte>)
    requires |value| == 16 && multiplier < U32
    ensures fresh(out) && out.Length == outLen
    ensures Val(out[..]) == MulResult(value, multiplier, outLen)
  {
    hide Val, Pow, Product, Dropped;
    out := new Byte[outLen](_ => 0);
    var carry: nat, i: nat := 0, 0;
    ghost var n := if outLen < 16 then outLen else 16;
    while i < 16 && i < outLen
      invariant i <= n && carry == CarryInto(value, multiplier, i)
      invariant out[..i] == LowBytes(value, multiplier, i) && forall k :: i <= k < outLen ==> out[k] == 0
    {
      ghost var low := out[..i];
      var product := (value[i] * multiplier + carry) % U32;
      ProductIs(value, multiplier, i);
      out[i] := product % 256;
      assert out[..i + 1] == low + [product % 256];
      carry := product / 256;
      i := i + 1;
    }
    MulBalance(value, multiplier, n);
    ghost var x := Val(value[..n]) * multiplier - Dropped(value, multiplier, n);
    if i == 16 { carry := SpillCarry(out, carry, x); }
    ValBound(out[..]);
    assert out[..outLen] == out[..];
    Cut(x, Val(out[..]), carry, Pow(256, outLen));
  }

  lemma ProductIs(value: seq<Byte>, m: nat, i: nat)
    requires i < |value|
    ensures Product(value, m, i) == (value[i] * m + CarryInto(value, m, i)) % U32
    ensures CarryInto(value, m, i + 1) == Product(value, m, i) / 256
  {
  }

  lemma Cut(x: int, low: nat, carry: nat, p: nat)
    requires low < p && x == low + carry * p
    ensures x % p == low
  {
    DivUnique(x, p, carry, low);
    assert x == x / p * p + x % p;
  }

  /** The carry spills into the bytes above the sixteenth. */
  method SpillCarry(out: array<Byte>, start: nat, ghost x: int) returns (carry: nat)
    requires 16 <= out.Length && Val(out[..16]) + start * Pow(256, 16) == x
    requires forall k :: 16 <= k < out.Length ==> out[k] == 0
    modifies out
    ensures Val(out[..]) + carry * Pow(256, out.Length) == x
  {
    hide Val, Pow;
    carry := start;
    var i := 16;
    while i < out.Length && carry != 0
      invariant 16 <= i <= out.Length && (forall k :: i <= k < out.Length ==> out[k] == 0)
      invariant Val(out[..i]) + carry * Pow(256, i) == x
    {
      CarryStep(Val(out[..i]), carry, Pow(256, i));
      PowNext(256, i);
      ValPush(out[..i], carry % 256);
      ghost var low := out[..i];
      out[i] := carry % 256;
      assert out[..i + 1] == low + [carry % 256];
      carry := carry / 256;
      i := i + 1;
    }
    ZeroTail(out[..], i);
    assert out[..][..i] == out[..i];
    assert i == out.Length || carry == 0;
  }

  /** Into 19 bytes or more, a multiplier up to 2^24 gives the product itself. */
  lemma SmallMultiplier(value: seq<Byte>, m: nat, outLen: nat)
    requires |value| == 16 && m <= 0x100_0000 && outLen >= 19
    ensures MulResult(value, m, outLen) == Val(value) * m
  {
    assert value[..16] == value;
    hide Val, Pow, Dropped;
    NothingDropped(value, m, 16);
    ProductFits(value, m, outLen);
    SmallMod(Val(value) * m, Pow(256, outLen));
  }

  lemma ProductFits(value: seq<Byte>, m: nat, outLen: nat)
    requires |value| == 16 && m <= 0x100_0000 && outLen >= 19
    ensures Val(value) * m < Pow(256, outLen)
  {
    hide Val, Pow;
    ValBound(value);
    PowThree();
    PowSplit(16, 3);
    PowMono256(19, outLen);
    var v, p := Val(value), Pow(256, 16);
    MulAtMost(p, m, 0x100_0000);
    Below(v, p, m);
  }

  lemma Below(v: nat, p: nat, m: nat)
    requires v < p
    ensures v * m <= p * m && (m > 0 ==> v * m < p * m) && (m == 0 ==> v * m == 0)
  {
    MulGap(v, p, m);
  }

  lemma PowThree()
    ensures Pow(256, 3) == 0x100_0000
  {
    assert Pow(256, 1) == 256 && Pow(256, 2) == 0x1_0000;
  }

  lemma MulAtMost(p: nat, m: nat, n: nat)
    requires m <= n
    ensures p * m <= p * n
  {
  }

  lemma {:induction false} PowSplit(a: nat, b: nat)
    ensures Pow(256, a + b) == Pow(256, a) * Pow(256, b)
    decreases b
  {
    if b > 0 {
      PowSplit(a, b - 1);
      assert Pow(256, a + b) == 256 * Pow(256, a + (b - 1));
    }
  }

  lemma {:induction false} PowMono256(a: nat, b: nat)
    requires a <= b
    ensures Pow(256, a) <= Pow(256, b)
    decreases b
  {
    if a < b { PowMono256(a, b - 1); }
  }

  // ------------------------------------------------------------ decimal text

  type Digit = c: char | '0' <= c <= '9' witness '0'

  function DigitVal(c: Digit): (d: nat)
    ensures d < 10
  {
    (c - '0') as int
  }

  function DigitChar(d: nat): (c: Digit)
    requires d < 10
    ensures DigitVal(c) == d
  {
    '0' + d as char
  }

  /** Digits least significant first, as the loop produces them. */
  function Low(ds: seq<Digit>): nat { if ds == [] then 0 else DigitVal(ds[0]) + 10 * Low(ds[1..]) }

  /** A decimal text read the usual way. */
  function Parse(text: seq<Digit>): nat {
    if text == [] then 0 else 10 * Parse(text[..|text| - 1]) + DigitVal(text[|text| - 1])
  }

  lemma {:induction false} LowPush(ds: seq<Digit>, c: Digit)
    ensures Low(ds + [c]) == Low(ds) + DigitVal(c) * Pow(10, |ds|)
  {
    if ds == [] {
      assert [c][1..] == [];
    } else {
      LowPush(ds[1..], c);
      assert (ds + [c])[1..] == ds[1..] + [c];
      TenTimes(DigitVal(c), |ds| - 1);
      hide DigitVal, Pow;
    }
  }

  lemma TenTimes(d: nat, e: nat)
    ensures 10 * (d * Pow(10, e)) == d * Pow(10, e + 1)
  {
    PowNext(10, e);
    hide Pow;
    assert d * (10 * Pow(10, e)) == 10 * (d * Pow(10, e));
  }

  lemma {:induction false} LowBound(ds: seq<Digit>)
    ensures Low(ds) < Pow(10, |ds|)
  {
    if ds != [] { LowBound(ds[1..]); }
  }

  lemma {:induction false} ParseLow(ds: seq<Digit>)
    ensures Parse(LastFirst(ds)) == Low(ds)
  {
    if ds != [] {
      ParseLow(ds[1..]);
      LastFirstBottom(ds[0], ds[1..]);
      assert [ds[0]] + ds[1..] == ds;
      assert LastFirst(ds)[..|ds| - 1] == LastFirst(ds[1..]);
    }
  }

  /** Capacity of the digit buffer. */
  const MAX_DIGITS: nat := 39

  /** What the printer's digit loop yields for value `v`: its decimal digits,
      cut to the lowest 39 when there are more; no leading zero otherwise. */
  ghost predicate Digits(v: nat, ds: seq<Digit>) {
    && |ds| <= MAX_DIGITS && Low(ds) == v % Pow(10, MAX_DIGITS)
    && (v < Pow(10, MAX_DIGITS) ==> ds != [] && DigitVal(ds[|ds| - 1]) != 0)
    && (v >= Pow(10, MAX_DIGITS) ==> |ds| == MAX_DIGITS)
  }

  lemma DigitStep(low: nat, v: nat, q: nat, d: nat, w: nat)
    requires v == 10 * q + d
    ensures low + w * v == (low + d * w) + 10 * w * q
  {
    assert w * (10 * q + d) == w * (10 * q) + w * d;
  }

  lemma DigitsDone(v: nat, ds: seq<Digit>, left: nat)
    requires Low(ds) + Pow(10, |ds|) * left == v && |ds| <= MAX_DIGITS
    requires left == 0 || |ds| == MAX_DIGITS
    requires left == 0 ==> ds != [] && DigitVal(ds[|ds| - 1]) != 0
    ensures Digits(v, ds)
  {
    hide Low, Pow;
    LowBound(ds);
    var p := Pow(10, MAX_DIGITS);
    PowMono(|ds|, MAX_DIGITS);
    Remainder(v, p, left, Low(ds));
  }

  lemma Remainder(v: nat, p: nat, left: nat, low: nat)
    requires low < p && (left == 0 ==> v == low) && (left > 0 ==> v == low + p * left)
    ensures v % p == low && (v >= p <==> left > 0)
  {
    assert v == left * p + low;
    DivUnique(v, p, left, low);
    assert v == v / p * p + v % p;
    MulGap(0, left, p);
  }

  lemma {:induction false} PowMono(a: nat, b: nat)
    requires a <= b
    ensures Pow(10, a) <= Pow(10, b)
    decreases b
  {
    if a < b { PowMono(a, b - 1); }
  }

  /** The digit loop: divide the copy by ten in place until nothing is left or
      the buffer is full. */
  method DigitLoop(tmp: array<Byte>) returns (ds: seq<Digit>)
    requires Val(tmp[..]) > 0
    modifies tmp
    ensures Digits(old(Val(tmp[..])), ds)
  {
    ds := [];
    ghost var v := Val(tmp[..]);
    var zero := false;
    hide Val, Pow, Low;
    LowEmpty();
    while !zero && |ds| < MAX_DIGITS
      invariant |ds| <= MAX_DIGITS && Low(ds) + Pow(10, |ds|) * Val(tmp[..]) == v
      invariant zero <==> Val(tmp[..]) == 0
      invariant zero ==> ds != [] && DigitVal(ds[|ds| - 1]) != 0
      decreases MAX_DIGITS - |ds|
    {
      ghost var before := Val(tmp[..]);
      var carry := DivideU16(tmp, 10);
      LowPush(ds, DigitChar(carry));
      DigitStep(Low(ds), before, Val(tmp[..]), carry, Pow(10, |ds|));
      PowNext(10, |ds|);
      ds := ds + [DigitChar(carry)];
      zero := BytesAllZero(tmp);
    }
    DigitsDone(v, ds, Val(tmp[..]));
  }

  lemma LowEmpty()
    ensures Low([]) == 0 && Pow(10, 0) == 1
  {
  }

  /** How many digits the text of `v` has: as few as hold it, 39 at most. */
  function TextLen(v: nat): (n: nat)
    ensures 1 <= n <= MAX_DIGITS
    ensures n < MAX_DIGITS ==> v < Pow(10, n)
    ensures n > 1 ==> Pow(10, n - 1) <= v
  {
    hide Pow;
    FitLen(v, 1)
  }

  function FitLen(v: nat, from: nat): (n: nat)
    requires 1 <= from <= MAX_DIGITS && (from > 1 ==> Pow(10, from - 1) <= v)
    ensures from <= n <= MAX_DIGITS
    ensures n < MAX_DIGITS ==> v < Pow(10, n)
    ensures n > 1 ==> Pow(10, n - 1) <= v
    decreases MAX_DIGITS - from
  {
    hide Pow;
    if from == MAX_DIGITS || v < Pow(10, from) then from else FitLen(v, from + 1)
  }

  /** Only one length is short enough and long enough. */
  lemma TextLenIs(v: nat, n: nat)
    requires 1 <= n <= MAX_DIGITS && (n < MAX_DIGITS ==> v < Pow(10, n)) && (n > 1 ==> Pow(10, n - 1) <= v)
    ensures TextLen(v) == n
  {
    hide Pow;
    var m := TextLen(v);
    if m < n { PowMono(m, n - 1); }
    if n < m { PowMono(n, m - 1); }
  }

  /** The top digit of the lowest digits weighs in. */
  lemma TopDigit(ds: seq<Digit>)
    requires ds != [] && DigitVal(ds[|ds| - 1]) != 0
    ensures Low(ds) >= Pow(10, |ds| - 1)
  {
    var n := |ds| - 1;
    assert ds == ds[..n] + [ds[n]];
    LowPush(ds[..n], ds[n]);
    hide Low, Pow;
    MulGap(0, DigitVal(ds[n]), Pow(10, n));
  }

  lemma DigitsLen(v: nat, ds: seq<Digit>)
    requires Digits(v, ds)
    ensures |ds| == TextLen(v)
  {
    hide Pow, Low, DigitVal;
    CutIff(v, Pow(10, MAX_DIGITS));
    LowBound(ds);
    if v < Pow(10, MAX_DIGITS) {
      TopDigit(ds);
    } else {
      PowMono(MAX_DIGITS - 1, MAX_DIGITS);
    }
    TextLenIs(v, |ds|);
  }

  /** A text cut short parses to its value without the digits cut off. */
  lemma {:induction false} ParsePrefix(text: seq<Digit>, k: nat)
    requires k <= |text|
    ensures Parse(text[..k]) == Parse(text) / Pow(10, |text| - k)
    decreases |text| - k
  {
    if k == |text| {
      assert text[..k] == text;
    } else {
      ParsePrefix(text, k + 1);
      assert text[..k + 1][..k] == text[..k];
      var a, p := Parse(text), Pow(10, |text| - k - 1);
      PowNext(10, |text| - k - 1);
      TenthOf(Parse(text[..k]), DigitVal(text[k]));
      hide Parse, Pow, DigitVal;
      DivTwice(a, p, 10);
    }
  }

  lemma TenthOf(x: nat, d: nat)
    requires d < 10
    ensures (10 * x + d) / 10 == x
  {
  }

  lemma DivTwice(a: nat, p: nat, q: nat)
    requires p > 0 && q > 0
    ensures q * p > 0 && a / p / q == a / (q * p)
  {
    var x, r := a / p, a % p;
    var y, t := x / q, x % q;
    assert a == x * p + r && x == y * q + t;
    assert a == (y * q + t) * p + r == y * (q * p) + (t * p + r);
    MulGap(t, q, p);
    MulGap(0, q, p);
    DivUnique(a, q * p, y, t * p + r);
  }

  /** format_le_decimal; `outLen` counts the terminator.  The text is the value's
      lowest 39 digits, cut at the end when the buffer is short.  A too long value
      gives the empty text. */
  method FormatLeDecimal(value: seq<Byte>, outLen: nat) returns (out: seq<Digit>)
    ensures outLen <= 1 || |value| > 24 ==> out == []
    ensures outLen > 0 && |value| <= 24 ==>
              var n := TextLen(Val(value));
              && |out| == (if n < outLen then n else outLen - 1)
              && Parse(out) == Val(value) % Pow(10, MAX_DIGITS) / Pow(10, n - |out|)
    ensures outLen > MAX_DIGITS && |value| <= 24 ==>
              && 0 < |out| <= MAX_DIGITS
              && Parse(out) == Val(value) % Pow(10, MAX_DIGITS)
              && (Parse(out) == Val(value) <==> Val(value) < Pow(10, MAX_DIGITS))
              && (Val(value) < Pow(10, MAX_DIGITS) && out[0] == '0' ==> out == "0")
  {
    hide Val, Pow, Low, Parse, LastFirst;
    CutIff(Val(value), Pow(10, MAX_DIGITS));
    if outLen == 0 || |value| > 24 { return []; }
    var tmp := new Byte[|value|](i requires 0 <= i < |value| => value[i]);
    assert tmp[..] == value;
    var zero := BytesAllZero(tmp);
    if zero {
      ZeroText(value);
      ZeroLen(outLen);
      if outLen > 1 { return "0"; } else { return []; }
    }
    var digits := DigitLoop(tmp);
    TextRight(Val(value), digits);
    DigitsLen(Val(value), digits);
    out := CopyDigits(digits, outLen);
    ParsePrefix(LastFirst(digits), |out|);
    assert outLen > MAX_DIGITS ==> out == LastFirst(digits);
  }

  lemma ZeroLen(outLen: nat)
    ensures TextLen(0) == 1 && 0 % Pow(10, MAX_DIGITS) / Pow(10, 0) == 0 && 0 % Pow(10, MAX_DIGITS) / Pow(10, 1) == 0
    ensures Parse([]) == 0 && Parse("0") == 0
  {
    assert "0"[..0] == [];
    DivUnique(0, Pow(10, MAX_DIGITS), 0, 0);
  }

  lemma ZeroText(value: seq<Byte>)
    requires Val(value) == 0
    ensures Parse("0") == Val(value) % Pow(10, MAX_DIGITS)
  {
    assert "0"[..0] == [];
    assert Parse("0") == 0;
    DivUnique(0, Pow(10, MAX_DIGITS), 0, 0);
  }

  lemma TextRight(v: nat, ds: seq<Digit>)
    requires Digits(v, ds)
    ensures |LastFirst(ds)| == |ds| <= MAX_DIGITS && Parse(LastFirst(ds)) == v % Pow(10, MAX_DIGITS) && ds != []
    ensures v < Pow(10, MAX_DIGITS) ==> DigitVal(LastFirst(ds)[0]) != 0
  {
    ParseLow(ds);
    LastFirstAt(ds, 0);
  }

  /** The digits backwards, as far as the output buffer reaches. */
  method CopyDigits(digits: seq<Digit>, outLen: nat) returns (out: seq<Digit>)
    ensures |out| == if outLen == 0 then 0 else if |digits| < outLen then |digits| else outLen - 1
    ensures out == LastFirst(digits)[..|out|]
  {
    out := [];
    var count := |digits|;
    while count > 0 && |out| + 1 < outLen
      invariant 0 <= count <= |digits| && |out| == |digits| - count && (|out| == 0 || |out| < outLen)
      invariant out == LastFirst(digits)[..|out|]
    {
      count := count - 1;
      LastFirstAt(digits, |out|);
      out := out + [digits[count]];
    }
  }

  // --------------------------------------------------------------- scaling

  function ReadLe16(s: seq<Byte>): nat
    requires |s| >= 2
  {
    var lo: nat, hi: nat := s[0], s[1];
    lo + 256 * hi
  }

  /** le_bytes_ge_u16. */
  method GeU16(a: array<Byte>, threshold: nat) returns (ge: bool)
    requires a.Length >= 2 && threshold < 0x1_0000
    ensures ge <==> Val(a[..]) >= threshold
  {
    var i := a.Length;
    TwoBytes(a[..]);
    ValZero(a[2..]);
    hide Val;
    while i > 2
      invariant 2 <= i <= a.Length && forall k :: i <= k < a.Length ==> a[k] == 0
    {
      i := i - 1;
      if a[i] != 0 {
        assert a[2..][i - 2] != 0;
        return true;
      }
    }
    return ReadLe16(a[..]) >= threshold;
  }

  lemma TwoBytes(s: seq<Byte>)
    requires |s| >= 2
    ensures Val(s) == ReadLe16(s) + 0x1_0000 * Val(s[2..])
  {
    assert s[1..][1..] == s[2..];
  }

  /** Division by 1024 `u` times. */
  function Scaled(v: nat, u: nat): nat { if u == 0 then v else Scaled(v, u - 1) / 1024 }

  /** The scaling loop of print_le_bytes_scaled: up to four exact divisions by
      1024 in place, stopping as soon as the value is below 1024. */
  method ScaleLoop(a: array<Byte>) returns (unit: nat, rem: nat)
    requires a.Length >= 2
    modifies a
    ensures unit <= 4 && Val(a[..]) == Scaled(old(Val(a[..])), unit)
    ensures unit == 4 || Val(a[..]) < 1024
    ensures forall u: nat :: u < unit ==> Scaled(old(Val(a[..])), u) >= 1024
    ensures rem == if unit == 0 then 0 else Scaled(old(Val(a[..])), unit - 1) % 1024
  {
    hide Val;
    unit, rem := 0, 0;
    ghost var v := Val(a[..]);
    var big := GeU16(a, 1024);
    while unit < 4 && big
      invariant unit <= 4 && Val(a[..]) == Scaled(v, unit) && (big <==> Val(a[..]) >= 1024)
      invariant forall u: nat :: u < unit ==> Scaled(v, u) >= 1024
      invariant rem == if unit == 0 then 0 else Scaled(v, unit - 1) % 1024
      decreases 4 - unit
    {
      rem := DivideU16(a, 1024);
      QuotRem(Scaled(v, unit), Val(a[..]), rem);
      unit := unit + 1;
      big := GeU16(a, 1024);
    }
  }

  lemma QuotRem(v: nat, q: nat, r: nat)
    requires v == q * 1024 + r && r < 1024
    ensures v / 1024 == q && v % 1024 == r
  {
  }

  /** The tenths digit print_le_bytes_scaled shows. */
  function Tenths(unit: nat, rem: nat): nat { if unit == 0 || rem == 0 then 0 else rem * 10 / 1024 }

  lemma {:induction false} ScaledBound(v: nat, u: nat, hi: nat)
    requires v <= hi * Pow(1024, u)
    ensures Scaled(v, u) <= hi
    decreases u
  {
    if u > 0 {
      assert hi * Pow(1024, u) == (hi * 1024) * Pow(1024, u - 1);
      ScaledBound(v, u - 1, hi * 1024);
    }
  }

  lemma TenthsRight(x: nat, q: nat, rem: nat)
    requires x / 1024 == q && x % 1024 == rem
    ensures 10 * q + rem * 10 / 1024 == 10 * x / 1024
  {
    assert x == 1024 * q + rem;
  }

  /** print_smart_data_amount up to the text: units of 512000 bytes into 24
      bytes, scaled, printed.  Every 16-byte counter comes out exactly, whatever
      its size: no product, quotient or digit is lost. */
  method SmartAmount(value: seq<Byte>) returns (text: seq<Digit>, unit: nat, tenths: nat)
    requires |value| == 16
    ensures var bytes := Val(value) * 512000;
            && unit <= 4 && |text| <= MAX_DIGITS
            && Parse(text) == Scaled(bytes, unit)
            && (unit < 4 ==> Parse(text) < 1024)
            && (forall u: nat :: u < unit ==> Scaled(bytes, u) >= 1024)
            && tenths < 10
            && (unit > 0 ==> 10 * Parse(text) + tenths == 10 * Scaled(bytes, unit - 1) / 1024)
  {
    hide Val, Pow, Parse;
    var scaled := MulU128Small(value, 512000, 24);
    SmallMultiplier(value, 512000, 24);
    var rem;
    unit, rem := ScaleLoop(scaled);
    ghost var bytes := Val(value) * 512000;
    SmartFits(value, Scaled(bytes, unit), unit);
    text := FormatLeDecimal(scaled[..], 40);
    SmallMod(Scaled(bytes, unit), Pow(10, MAX_DIGITS));
    tenths := Tenths(unit, rem);
    if unit > 0 { TenthsRight(Scaled(bytes, unit - 1), Scaled(bytes, unit), rem); }
  }

  lemma SmallMod(x: nat, p: nat)
    requires x < p
    ensures x % p == x
  {
    DivUnique(x, p, 0, x);
    assert x == x / p * p + x % p;
  }

  /** 10^39 exceeds both 2^128 and the largest scaled SMART amount. */
  lemma TenTo39()
    ensures Pow(10, 39) == 1_000_000_000_000_000_000_000_000_000_000_000_000_000
    ensures Pow(256, 16) == 0x1_0000_0000_0000_0000_0000_0000_0000_0000
    ensures Pow(256, 16) < Pow(10, 39)
  {
    assert Pow(10, 13) == 10_000_000_000_000;
    assert Pow(10, 26) == 100_000_000_000_000_000_000_000_000;
    assert Pow(256, 8) == 0x1_0000_0000_0000_0000;
    assert Pow(256, 12) == 0x1_0000_0000_0000_0000_0000_0000;
  }

  lemma PowFour()
    ensures Pow(1024, 4) == 0x100_0000_0000
  {
    assert Pow(1024, 1) == 1024 && Pow(1024, 2) == 0x10_0000 && Pow(1024, 3) == 0x4000_0000;
  }

  lemma SmartFits(value: seq<Byte>, x: nat, unit: nat)
    requires |value| == 16 && unit <= 4 && x == Scaled(Val(value) * 512000, unit) && (unit < 4 ==> x < 1024)
    ensures x < Pow(10, MAX_DIGITS)
  {
    TenTo39();
    ValBound(value);
    hide Val, Scaled;
    if unit == 4 {
      PowFour();
      hide Pow;
      ScaledBound(Val(value) * 512000, 4, Pow(256, 16));
    }
  }

  /** format_le128_decimal: every 16-byte value in at most 39 digits, exactly. */
  method FormatLe128(value: seq<Byte>) returns (text: seq<Digit>)
    requires |value| == 16
    ensures 0 < |text| <= MAX_DIGITS && Parse(text) == Val(value) && (text[0] == '0' ==> text == "0")
  {
    hide Val, Pow, Parse;
    TenTo39();
    ValBound(value);
    text := FormatLeDecimal(value, 40);
    SmallMod(Val(value), Pow(10, MAX_DIGITS));
  }

  lemma CutIff(v: nat, p: nat)
    requires p > 0
    ensures v % p == v <==> v < p
  {
    if v < p { SmallMod(v, p); }
  }
}
