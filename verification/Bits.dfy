/** Bit sequences and the numbers they denote, most significant bit first. */
module Bits {
  function Pow2(n: nat): (r: nat)
    ensures r > 0
  {
    if n == 0 then 1 else 2 * Pow2(n - 1)
  }

  /** The low n bits of v. */
  function ToBits(v: nat, n: nat): (b: seq<bool>)
    ensures |b| == n
  {
    if n == 0 then [] else ToBits(v / 2, n - 1) + [v % 2 == 1]
  }

  function FromBits(b: seq<bool>): nat {
    if b == [] then 0 else 2 * FromBits(b[..|b| - 1]) + if b[|b| - 1] then 1 else 0
  }

  /** v >> n. */
  function Shr(v: nat, n: nat): nat {
    if n == 0 then v else Shr(v / 2, n - 1)
  }

  lemma {:induction false} ShrDivides(v: nat, n: nat)
    ensures Shr(v, n) == v / Pow2(n)
  {
    if n > 0 {
      ShrDivides(v / 2, n - 1);
      HalfThen(v, Pow2(n - 1));
    }
  }

  lemma {:induction false} FromBitsBound(b: seq<bool>)
    ensures FromBits(b) < Pow2(|b|)
  {
    if b != [] {
      FromBitsBound(b[..|b| - 1]);
    }
  }

  /** Printing a bit string undoes reading it. */
  lemma {:induction false} ToBitsFromBits(b: seq<bool>)
    ensures ToBits(FromBits(b), |b|) == b
  {
    if b != [] {
      ToBitsFromBits(b[..|b| - 1]);
    }
  }

  /** Reading undoes printing, for a value of at most n bits. */
  lemma {:induction false} FromBitsToBits(v: nat, n: nat)
    requires v < Pow2(n)
    ensures FromBits(ToBits(v, n)) == v
  {
    if n > 0 {
      FromBitsToBits(v / 2, n - 1);
      var b := ToBits(v, n);
      assert b[..n - 1] == ToBits(v / 2, n - 1);
    }
  }

  lemma {:induction false} FromBitsConcat(a: seq<bool>, b: seq<bool>)
    ensures FromBits(a + b) == FromBits(a) * Pow2(|b|) + FromBits(b)
  {
    if b == [] {
      assert a + b == a;
    } else {
      var c := a + b;
      assert c[..|c| - 1] == a + b[..|b| - 1];
      FromBitsConcat(a, b[..|b| - 1]);
      Distribute(FromBits(a), Pow2(|b| - 1), FromBits(b[..|b| - 1]));
    }
  }

  lemma Distribute(x: nat, y: nat, z: nat)
    ensures 2 * (x * y + z) == x * (2 * y) + 2 * z
  {
  }

  /** Dropping the low bits by a right shift. */
  lemma {:induction false} FromBitsShift(a: seq<bool>, b: seq<bool>)
    ensures Shr(FromBits(a + b), |b|) == FromBits(a)
  {
    if b == [] {
      assert a + b == a;
    } else {
      var c := a + b;
      assert c[..|c| - 1] == a + b[..|b| - 1];
      FromBitsShift(a, b[..|b| - 1]);
    }
  }

  lemma Quotient(q: nat, d: nat, r: nat)
    requires r < d
    ensures (q * d + r) / d == q
  {
    var e := (q * d + r) / d;
    var x := (q * d + r) % d;
    assert (q - e) * d == x - r;
    MultipleOf(q - e, d);
  }

  lemma MultipleOf(a: int, d: int)
    requires d > 0
    ensures a == 0 || a * d >= d || a * d <= -d
  {
  }

  lemma {:induction false} ToBitsConcat(v: nat, m: nat, n: nat)
    ensures ToBits(v, m + n) == ToBits(Shr(v, n), m) + ToBits(v, n)
  {
    if n > 0 {
      ToBitsConcat(v / 2, m, n - 1);
    }
  }

  lemma HalfThen(v: nat, d: nat)
    requires d > 0
    ensures v / 2 / d == v / (2 * d)
  {
    var q := v / 2 / d;
    var r := v / 2 % d;
    assert v == (q * d + r) * 2 + v % 2;
    assert v == q * (2 * d) + (2 * r + v % 2) by {
      Distribute(q, d, r);
    }
    Quotient(q, 2 * d, 2 * r + v % 2);
  }

  /** The h bits of v that follow its first k bits (of n). */
  lemma ToBitsSlice(v: nat, n: nat, k: nat, h: nat)
    requires k + h <= n
    ensures ToBits(v, n)[k..k + h] == ToBits(Shr(v, n - k - h), h)
  {
    hide ToBits, Shr;
    var t := n - k - h;
    ToBitsConcat(v, k + h, t);
    ToBitsConcat(Shr(v, t), k, h);
  }

  lemma {:induction false} ToBitsLow(v: nat, m: nat, n: nat)
    requires n <= m
    ensures ToBits(v % Pow2(m), n) == ToBits(v, n)
  {
    if n > 0 {
      ModHalf(v, Pow2(m - 1));
      ToBitsLow(v / 2, m - 1, n - 1);
    }
  }

  lemma ModHalf(v: nat, d: nat)
    requires d > 0
    ensures v % (2 * d) % 2 == v % 2 && v % (2 * d) / 2 == v / 2 % d
  {
    var q := v / 2 / d;
    var r := v / 2 % d;
    assert v == q * (2 * d) + (2 * r + v % 2) by {
      Distribute(q, d, r);
    }
    Quotient(q, 2 * d, 2 * r + v % 2);
    assert v % (2 * d) == v - q * (2 * d);
  }

  lemma {:induction false} FromBitsZeros(z: seq<bool>, b: seq<bool>)
    requires forall i :: 0 <= i < |z| ==> !z[i]
    ensures FromBits(z + b) == FromBits(b)
  {
    FromBitsConcat(z, b);
    ZerosAreZero(z);
  }

  lemma {:induction false} ZerosAreZero(z: seq<bool>)
    requires forall i :: 0 <= i < |z| ==> !z[i]
    ensures FromBits(z) == 0
  {
    if z != [] {
      ZerosAreZero(z[..|z| - 1]);
    }
  }

  /** The i-th bit, by shifting and masking. */
  lemma FromBitsBit(b: seq<bool>, i: nat)
    requires i < |b|
    ensures Shr(FromBits(b), |b| - 1 - i) % 2 == (if b[i] then 1 else 0)
  {
    hide Shr, FromBits;
    var a := b[..i + 1];
    assert a + b[i + 1..] == b;
    FromBitsShift(a, b[i + 1..]);
    FromBitsLast(a);
  }

  lemma FromBitsLast(a: seq<bool>)
    requires a != []
    ensures FromBits(a) % 2 == (if a[|a| - 1] then 1 else 0)
  {
  }

  /** a with the bits from p on replaced by v. */
  function Splice(a: seq<bool>, p: nat, v: seq<bool>): (r: seq<bool>)
    requires p + |v| <= |a|
    ensures |r| == |a|
  {
    a[..p] + v + a[p + |v|..]
  }

  lemma SpliceAt(a: seq<bool>, p: nat, v: seq<bool>, i: nat)
    requires p + |v| <= |a| && i < |a|
    ensures Splice(a, p, v)[i] == if p <= i < p + |v| then v[i - p] else a[i]
  {
  }

  lemma SpliceMore(a: seq<bool>, p: nat, v: seq<bool>, w: seq<bool>)
    requires p + |v| + |w| <= |a|
    ensures Splice(Splice(a, p, v), p + |v|, w) == Splice(a, p, v + w)
  {
  }

  /** What is written at a place is read there as the same value, and nothing else changes. */
  lemma WrittenIsRead(a: seq<bool>, p: nat, v: nat, n: nat)
    requires p + n <= |a| && v < Pow2(n)
    ensures var r := Splice(a, p, ToBits(v, n));
            FromBits(r[p..p + n]) == v && r[..p] == a[..p] && r[p + n..] == a[p + n..]
  {
    FromBitsToBits(v, n);
  }

  function Zeros(n: nat): (z: seq<bool>)
    ensures |z| == n && forall i :: 0 <= i < n ==> !z[i]
  {
    seq(n, _ => false)
  }

  function Xor(a: seq<bool>, b: seq<bool>): (r: seq<bool>)
    requires |a| == |b|
    ensures |r| == |a|
  {
    seq(|a|, i requires 0 <= i < |a| => a[i] != b[i])
  }

  // ---------------------------------------------------------------- bytes

  predicate BitAt(b: bv8, k: nat)
    requires k < 8
  {
    (b >> (7 - k)) & 1 == 1
  }

  function ByteBits(b: bv8): (r: seq<bool>)
    ensures |r| == 8 && forall k :: 0 <= k < 8 ==> r[k] == BitAt(b, k)
  {
    seq(8, k requires 0 <= k < 8 => BitAt(b, k))
  }

  /** The bits of a byte string. */
  function AllBits(buf: seq<bv8>): (r: seq<bool>)
    ensures |r| == 8 * |buf|
  {
    seq(8 * |buf|, i requires 0 <= i < 8 * |buf| => BitAt(buf[i / 8], i % 8))
  }

  lemma AllBitsAt(buf: seq<bv8>, i: nat)
    requires i < 8 * |buf|
    ensures AllBits(buf)[i] == BitAt(buf[i / 8], i % 8)
  {
    hide BitAt;
  }

  lemma SmallPowers()
    ensures Pow2(0) == 1 && Pow2(1) == 2 && Pow2(2) == 4 && Pow2(3) == 8
    ensures Pow2(4) == 16 && Pow2(5) == 32 && Pow2(6) == 64 && Pow2(7) == 128 && Pow2(8) == 256
  {
  }

  lemma ByteBit(x: nat, k: nat)
    requires x < 256 && k < 8
    ensures BitAt(x as bv8, k) == (Shr(x, 7 - k) % 2 == 1)
  {
    SmallPowers();
    ShrDivides(x, 7 - k);
    ByteDigit(x, k);
  }

  lemma ByteDigit(x: nat, k: nat)
    requires x < 256 && k < 8
    ensures BitAt(x as bv8, k) == (x / Pow2(7 - k) % 2 == 1)
  {
    SmallPowers();
    if k == 7 {
    } else if k == 6 {
    } else if k == 5 {
    } else if k == 4 {
    } else if k == 3 {
    } else if k == 2 {
    } else if k == 1 {
    } else {
      assert k == 0;
    }
  }

  /** The bits of a byte given as a number. */
  lemma ByteOfNumber(x: nat)
    requires x < 256
    ensures ByteBits(x as bv8) == ToBits(x, 8)
  {
    hide BitAt, ToBits;
    forall k | 0 <= k < 8 ensures ByteBits(x as bv8)[k] == ToBits(x, 8)[k] {
      ByteBit(x, k);
      ToBitsSlice(x, 8, k, 1);
      LastBit(Shr(x, 7 - k));
      assert ToBits(x, 8)[k..k + 1][0] == ToBits(x, 8)[k];
    }
  }

  lemma LastBit(x: nat)
    ensures ToBits(x, 1) == [x % 2 == 1]
  {
  }

  /** The number a byte denotes. */
  lemma NumberOfByte(b: bv8)
    ensures FromBits(ByteBits(b)) == b as nat
  {
    hide BitAt;
    assert (b as nat) as bv8 == b;
    ByteOfNumber(b as nat);
    SmallPowers();
    FromBitsToBits(b as nat, 8);
  }

  // The bitwise operators on bytes, bit by bit.

  function And8(a: bv8, b: bv8): bv8 { a & b }
  function Or8(a: bv8, b: bv8): bv8 { a | b }
  function Not8(a: bv8): bv8 { !a }
  function Shl8(a: bv8, k: nat): bv8 requires k <= 8 { a << k }
  function Shr8(a: bv8, k: nat): bv8 requires k <= 8 { a >> k }
  function Ones8(h: nat): bv8 requires h < 8 { (1 << h) - 1 }

  lemma AndBit(a: bv8, b: bv8, j: nat)
    requires j < 8
    ensures BitAt(And8(a, b), j) == (BitAt(a, j) && BitAt(b, j))
  {
  }

  lemma OrBit(a: bv8, b: bv8, j: nat)
    requires j < 8
    ensures BitAt(Or8(a, b), j) == (BitAt(a, j) || BitAt(b, j))
  {
  }

  lemma NotBit(a: bv8, j: nat)
    requires j < 8
    ensures BitAt(Not8(a), j) == !BitAt(a, j)
  {
  }

  lemma OnesBit(h: nat, j: nat)
    requires h < 8 && j < 8
    ensures BitAt(Ones8(h), j) == (j >= 8 - h)
  {
  }

  lemma ShiftNone(a: bv8)
    ensures Shl8(a, 0) == Shr8(a, 0) == a
  {
  }

  lemma ShlMore(a: bv8, k: nat)
    requires 0 < k <= 8
    ensures Shl8(a, k) == Shl8(Shl8(a, k - 1), 1)
  {
  }

  lemma ShlOne(a: bv8, j: nat)
    requires j < 8
    ensures BitAt(Shl8(a, 1), j) == (j < 7 && BitAt(a, j + 1))
  {
  }

  lemma {:induction false} ShlBit(a: bv8, k: nat, j: nat)
    requires k <= 8 && j < 8
    ensures BitAt(Shl8(a, k), j) == (j + k < 8 && BitAt(a, j + k))
  {
    hide BitAt, Shl8;
    ShiftNone(a);
    if k > 0 {
      ShlMore(a, k);
      ShlOne(Shl8(a, k - 1), j);
      if j < 7 {
        ShlBit(a, k - 1, j + 1);
      }
    }
  }

  lemma ShrMore(a: bv8, k: nat)
    requires 0 < k <= 8
    ensures Shr8(a, k) == Shr8(Shr8(a, k - 1), 1)
  {
  }

  lemma ShrOne(a: bv8, j: nat)
    requires j < 8
    ensures BitAt(Shr8(a, 1), j) == (j > 0 && BitAt(a, j - 1))
  {
  }

  lemma {:induction false} ShrBit(a: bv8, k: nat, j: nat)
    requires k <= 8 && j < 8
    ensures BitAt(Shr8(a, k), j) == (j >= k && BitAt(a, j - k))
  {
    hide BitAt, Shr8;
    ShiftNone(a);
    if k > 0 {
      ShrMore(a, k);
      ShrOne(Shr8(a, k - 1), j);
      if j > 0 {
        ShrBit(a, k - 1, j - 1);
      }
    }
  }

  /** Replacing h bits of a byte at an offset by the low h bits of x, with masks. */
  function Masked(b: bv8, x: bv8, off: nat, h: nat): bv8
    requires h <= 7 && off + h <= 8
  {
    var shift := 8 - (off + h);
    Or8(And8(b, Not8(Shl8(Ones8(h), shift))), Shl8(And8(x, Ones8(h)), shift))
  }

  lemma MaskedBit(b: bv8, x: bv8, off: nat, h: nat, j: nat)
    requires h <= 7 && off + h <= 8 && j < 8
    ensures BitAt(Masked(b, x, off, h), j) == if off <= j < off + h then BitAt(x, 8 - h + j - off) else BitAt(b, j)
  {
    hide BitAt, And8, Or8, Not8, Shl8, Ones8;
    var shift := 8 - (off + h);
    var ones := Ones8(h);
    OrBit(And8(b, Not8(Shl8(ones, shift))), Shl8(And8(x, ones), shift), j);
    AndBit(b, Not8(Shl8(ones, shift)), j);
    NotBit(Shl8(ones, shift), j);
    ShlBit(ones, shift, j);
    ShlBit(And8(x, ones), shift, j);
    if j + shift < 8 {
      OnesBit(h, j + shift);
      AndBit(x, ones, j + shift);
    }
  }

  /** Reading h bits of a byte at an offset, with a shift and a mask. */
  function Field(b: bv8, off: nat, h: nat): bv8
    requires h <= 7 && off + h <= 8
  {
    And8(Shr8(b, 8 - off - h), Ones8(h))
  }

  lemma FieldBit(b: bv8, off: nat, h: nat, j: nat)
    requires h <= 7 && off + h <= 8 && j < 8
    ensures BitAt(Field(b, off, h), j) == (j >= 8 - h && BitAt(b, off + j - (8 - h)))
  {
    hide BitAt, And8, Shr8, Ones8;
    AndBit(Shr8(b, 8 - off - h), Ones8(h), j);
    OnesBit(h, j);
    ShrBit(b, 8 - off - h, j);
  }

  lemma FieldValue(b: bv8, off: nat, h: nat)
    requires h <= 7 && off + h <= 8
    ensures Field(b, off, h) as nat == FromBits(ByteBits(b)[off..off + h])
  {
    hide BitAt, Field;
    var f := Field(b, off, h);
    var z := ByteBits(f)[..8 - h];
    forall j | 0 <= j < 8 ensures ByteBits(f)[j] == (j >= 8 - h && BitAt(b, off + j - (8 - h))) {
      FieldBit(b, off, h, j);
    }
    assert ByteBits(f) == z + ByteBits(b)[off..off + h];
    FromBitsZeros(z, ByteBits(b)[off..off + h]);
    NumberOfByte(f);
  }

  /** Changing some bits of one byte splices them into the byte string. */
  lemma WriteField(buf: seq<bv8>, i: nat, b: bv8, off: nat, v: seq<bool>)
    requires i < |buf| && off + |v| <= 8
    requires forall j :: 0 <= j < 8 ==> BitAt(b, j) == if off <= j < off + |v| then v[j - off] else BitAt(buf[i], j)
    ensures AllBits(buf[i := b]) == Splice(AllBits(buf), 8 * i + off, v)
  {
    hide BitAt, AllBits, Splice;
    var l, r := AllBits(buf[i := b]), Splice(AllBits(buf), 8 * i + off, v);
    forall k | 0 <= k < 8 * |buf| ensures l[k] == r[k] {
      AllBitsAt(buf[i := b], k);
      AllBitsAt(buf, k);
      SpliceAt(AllBits(buf), 8 * i + off, v, k);
    }
  }

  lemma ByteOfAll(buf: seq<bv8>, i: nat)
    requires i < |buf|
    ensures AllBits(buf)[8 * i..8 * i + 8] == ByteBits(buf[i])
  {
    hide BitAt;
    var l := AllBits(buf)[8 * i..8 * i + 8];
    forall k | 0 <= k < 8 ensures l[k] == ByteBits(buf[i])[k] {
      assert (8 * i + k) / 8 == i && (8 * i + k) % 8 == k;
    }
  }

  lemma AllBitsConcat(a: seq<bv8>, b: seq<bv8>)
    ensures AllBits(a + b) == AllBits(a) + AllBits(b)
  {
    hide BitAt;
    var l, r := AllBits(a + b), AllBits(a) + AllBits(b);
    forall k | 0 <= k < |l| ensures l[k] == r[k] {
      if k >= 8 * |a| {
        assert (k - 8 * |a|) / 8 == k / 8 - |a| && (k - 8 * |a|) % 8 == k % 8;
      }
    }
  }
}
