/** The bit buffer: a byte vector with a window and a cursor, read and written in byte-sized
    pieces with shifts and masks. Every operation is proved against the plain bit sequence
    the bytes denote. */
module BitBuffers {
  import opened Wrappers
  import opened Bits

  function DivCeil8(n: nat): nat {
    (n + 7) / 8
  }

  function Min(a: nat, b: nat): nat {
    if a <= b then a else b
  }

  function Max(a: nat, b: nat): nat {
    if a <= b then b else a
  }

  /** x as u8. */
  function LowByte(x: nat): bv8 {
    (x % 256) as bv8
  }

  /** a, lengthened with zero bits to n. */
  function Padded(a: seq<bool>, n: nat): (r: seq<bool>)
    requires |a| <= n
    ensures |r| == n
  {
    a + Zeros(n - |a|)
  }

  // ---------------------------------------------------------------- one byte at a time

  lemma ZeroBytes(n: nat)
    ensures AllBits(seq(n, _ => 0)) == Zeros(8 * n)
  {
    hide Zeros;
    var z: seq<bv8> := seq(n, _ => 0);
    forall i | 0 <= i < 8 * n ensures AllBits(z)[i] == Zeros(8 * n)[i] {
      NoBits(i % 8);
    }
  }

  lemma NoBits(k: nat)
    requires k < 8
    ensures !BitAt(0, k)
  {
  }

  /** Masking the low h bits of x into the byte under the cursor writes those bits there. */
  lemma FieldWritten(buf: seq<bv8>, cur: nat, x: nat, h: nat)
    requires cur < 8 * |buf| && h <= 7 && cur % 8 + h <= 8
    ensures AllBits(buf[cur / 8 := Masked(buf[cur / 8], LowByte(x), cur % 8, h)])
      == Splice(AllBits(buf), cur, ToBits(x, h))
  {
    hide BitAt, Masked, ToBits, AllBits, Splice, LowByte;
    var off := cur % 8;
    var y := LowByte(x);
    var b := Masked(buf[cur / 8], y, off, h);
    var v := ToBits(x, h);
    LowBitsOfByte(x, h);
    forall j | 0 <= j < 8 ensures BitAt(b, j) == if off <= j < off + h then v[j - off] else BitAt(buf[cur / 8], j) {
      MaskedBit(buf[cur / 8], y, off, h, j);
      if off <= j < off + h {
        assert v[j - off] == ByteBits(y)[8 - h + (j - off)];
      }
    }
    WriteField(buf, cur / 8, b, off, v);
  }

  lemma LowBitsOfByte(x: nat, h: nat)
    requires h <= 8
    ensures ByteBits(LowByte(x))[8 - h..] == ToBits(x, h)
  {
    hide ToBits, ByteBits, Shr;
    ByteOfNumber(x % 256);
    SmallPowers();
    ToBitsLow(x, 8, 8);
    ToBitsConcat(x, 8 - h, h);
  }

  lemma ByteWritten(buf: seq<bv8>, cur: nat, x: nat)
    requires cur < 8 * |buf| && cur % 8 == 0
    ensures AllBits(buf[cur / 8 := LowByte(x)]) == Splice(AllBits(buf), cur, ToBits(x, 8))
  {
    hide BitAt, ToBits, AllBits, Splice, LowByte;
    LowBitsOfByte(x, 8);
    WriteField(buf, cur / 8, LowByte(x), 0, ToBits(x, 8));
  }

  /** After the first bits of v, its next h bits. */
  lemma NextBits(a: seq<bool>, p: nat, v: nat, n: nat, rem: nat, h: nat)
    requires h <= rem <= n && p + n <= |a|
    ensures Splice(Splice(a, p, ToBits(v, n)[..n - rem]), p + n - rem, ToBits(Shr(v, rem - h), h))
         == Splice(a, p, ToBits(v, n)[..n - rem + h])
  {
    hide ToBits, Shr, Splice;
    var w := ToBits(v, n);
    ToBitsSlice(v, n, n - rem, h);
    SpliceMore(a, p, w[..n - rem], w[n - rem..n - rem + h]);
    assert w[..n - rem] + w[n - rem..n - rem + h] == w[..n - rem + h];
  }

  lemma PutField(buf: seq<bv8>, a: seq<bool>, p: nat, v: nat, n: nat, rem: nat, h: nat)
    requires h <= rem <= n && p + n <= |a| == 8 * |buf|
    requires var cur := p + n - rem; cur < |a| && h <= 7 && cur % 8 + h <= 8
    requires AllBits(buf) == Splice(a, p, ToBits(v, n)[..n - rem])
    ensures var cur := p + n - rem;
            AllBits(buf[cur / 8 := Masked(buf[cur / 8], LowByte(Shr(v, rem - h)), cur % 8, h)])
            == Splice(a, p, ToBits(v, n)[..n - rem + h])
  {
    hide *;
    FieldWritten(buf, p + n - rem, Shr(v, rem - h), h);
    NextBits(a, p, v, n, rem, h);
  }

  lemma PutByte(buf: seq<bv8>, a: seq<bool>, p: nat, v: nat, n: nat, rem: nat)
    requires 8 <= rem <= n && p + n <= |a| == 8 * |buf|
    requires (p + n - rem) % 8 == 0 && AllBits(buf) == Splice(a, p, ToBits(v, n)[..n - rem])
    ensures AllBits(buf[(p + n - rem) / 8 := LowByte(Shr(v, rem - 8))]) == Splice(a, p, ToBits(v, n)[..n - rem + 8])
  {
    hide *;
    ByteWritten(buf, p + n - rem, Shr(v, rem - 8));
    NextBits(a, p, v, n, rem, 8);
  }

  lemma SliceOfSlice<T>(a: seq<T>, x: nat, y: nat, i: nat, j: nat)
    requires x <= y <= |a| && i <= j <= y - x
    ensures a[x..y][i..j] == a[x + i..x + j]
  {
    var l, r := a[x..y][i..j], a[x + i..x + j];
    forall k | 0 <= k < j - i ensures l[k] == r[k] {
      assert l[k] == a[x..y][i + k] == a[x + i + k];
    }
  }

  lemma FieldRead(buf: seq<bv8>, p: nat, h: nat)
    requires h <= 7 && p < 8 * |buf| && p % 8 + h <= 8
    ensures Field(buf[p / 8], p % 8, h) as nat == FromBits(AllBits(buf)[p..p + h])
  {
    hide AllBits, Field, FromBits, ByteBits;
    FieldValue(buf[p / 8], p % 8, h);
    ByteOfAll(buf, p / 8);
    SliceOfSlice(AllBits(buf), 8 * (p / 8), 8 * (p / 8) + 8, p % 8, p % 8 + h);
  }

  lemma ByteRead(buf: seq<bv8>, p: nat, q: nat)
    requires p <= q && q % 8 == 0 && q + 8 <= 8 * |buf|
    ensures FromBits(AllBits(buf)[p..q + 8]) == FromBits(AllBits(buf)[p..q]) * 256 + buf[q / 8] as nat
  {
    hide AllBits, FromBits, ByteBits, Pow2;
    var b := buf[q / 8];
    ByteOfAll(buf, q / 8);
    NumberOfByte(b);
    SmallPowers();
    FromBitsConcat(AllBits(buf)[p..q], ByteBits(b));
    assert AllBits(buf)[p..q] + ByteBits(b) == AllBits(buf)[p..q + 8];
  }

  lemma BitRead(buf: seq<bv8>, p: nat, q: nat)
    requires p <= q < 8 * |buf|
    ensures FromBits(AllBits(buf)[p..q + 1]) == 2 * FromBits(AllBits(buf)[p..q]) + if AllBits(buf)[q] then 1 else 0
  {
    hide AllBits;
    var b := AllBits(buf)[p..q + 1];
    assert b[..|b| - 1] == AllBits(buf)[p..q];
  }

  // ---------------------------------------------------------------- the buffer

  class BitBuffer {
    var buffer: seq<bv8>
    var start: nat
    var pos: nat
    var end: nat
    var autoexpand: bool

    predicate Valid()
      reads this
    {
      start <= pos <= end <= 8 * |buffer|
    }

    function All(): seq<bool>
      reads this
    {
      AllBits(buffer)
    }

    function Window(): seq<bool>
      requires Valid()
      reads this
    {
      All()[start..end]
    }

    /** What has been read or written so far. */
    function Text(): seq<bool>
      requires Valid()
      reads this
    {
      All()[start..pos]
    }

    /** What is still to be read, or room to write. */
    function Rest(): seq<bool>
      requires Valid()
      reads this
    {
      All()[pos..end]
    }

    /** A zeroed buffer of exactly this many bits. */
    constructor (len: nat)
      ensures Valid() && start == pos == 0 && end == len && !autoexpand
      ensures |buffer| == DivCeil8(len) && Window() == Zeros(len)
    {
      buffer := seq(DivCeil8(len), _ => 0);
      start, pos, end, autoexpand := 0, 0, len, false;
      new;
      ZeroBytes(DivCeil8(len));
    }

    /** An empty buffer that grows as it is written. */
    constructor Autoexpand(len: nat)
      ensures Valid() && start == pos == end == 0 && autoexpand
      ensures |buffer| == DivCeil8(len) && All() == Zeros(8 * |buffer|)
    {
      buffer := seq(DivCeil8(len), _ => 0);
      start, pos, end, autoexpand := 0, 0, 0, true;
      new;
      ZeroBytes(DivCeil8(len));
    }

    /** A copy of another buffer's window, copied as whole bytes. */
    constructor FromBitbuffer(src: BitBuffer)
      requires src.Valid()
      ensures Valid() && !autoexpand && Window() == src.Window() && pos == start
    {
      hide AllBits;
      CopiedWindow(src.buffer, src.start, src.end);
      var startByte := src.start / 8;
      var endByte := DivCeil8(src.end);
      buffer := src.buffer[startByte..endByte];
      start := src.start % 8;
      pos := src.start % 8;
      end := src.start % 8 + (src.end - src.start);
      autoexpand := false;
    }

    /** A copy of what is still to be read in another buffer. */
    constructor FromBitbufferPos(src: BitBuffer)
      requires src.Valid()
      ensures Valid() && !autoexpand && Window() == src.Rest() && pos == start
    {
      hide AllBits;
      CopiedWindow(src.buffer, src.pos, src.end);
      var startByte := src.pos / 8;
      var endByte := DivCeil8(src.end);
      buffer := src.buffer[startByte..endByte];
      start := src.pos % 8;
      pos := src.pos % 8;
      end := src.pos % 8 + (src.end - src.pos);
      autoexpand := false;
    }

    // -------------------------------------------------------------- reading

    /** The bits from p on as a big-endian number, in three phases: the rest of the first byte,
        whole bytes, the first bits of the last byte. */
    method ReadBitsAtUnchecked(p: nat, n: nat) returns (r: nat)
      requires n <= 64 && p + n <= 8 * |buffer|
      ensures r == FromBits(All()[p..p + n]) && r < Pow2(n)
    {
      hide AllBits, FromBits, Field, BitAt, Pow2;
      FromBitsBound(All()[p..p + n]);
      r := 0;
      var cur: nat, rem: nat := p, n;
      NoBitsRead(All()[p..p]);
      var head := cur % 8;
      if head != 0 && rem > 0 {
        var take := Min(8 - head, rem);
        r := Field(buffer[cur / 8], head, take) as nat;
        FieldRead(buffer, cur, take);
        cur := cur + take;
        rem := rem - take;
      }
      while rem >= 8
        invariant rem <= n && cur == p + n - rem && (rem > 0 ==> cur % 8 == 0)
        invariant r == FromBits(All()[p..cur])
      {
        ByteRead(buffer, p, cur);
        r := r * 256 + buffer[cur / 8] as nat;
        cur := cur + 8;
        rem := rem - 8;
      }
      if rem > 0 {
        r := ReadTail(p, cur, rem, r);
      }
    }

    method ReadTail(ghost p: nat, cur: nat, rem: nat, acc: nat) returns (r: nat)
      requires p <= cur && rem < 8 && cur % 8 == 0 && cur + rem <= 8 * |buffer|
      requires acc == FromBits(All()[p..cur])
      ensures r == FromBits(All()[p..cur + rem])
    {
      hide FromBits, BitAt;
      r := acc;
      var byte := if rem > 0 then buffer[cur / 8] else 0;
      for i := 0 to rem
        invariant r == FromBits(All()[p..cur + i])
      {
        BitRead(buffer, p, cur + i);
        assert (cur + i) / 8 == cur / 8 && (cur + i) % 8 == i;
        r := r * 2 + if BitAt(byte, i) then 1 else 0;
      }
    }

    method ReadBitAtUnchecked(p: nat) returns (r: bool)
      requires p < 8 * |buffer|
      ensures r == All()[p]
    {
      r := (buffer[p / 8] >> (7 - p % 8)) & 1 == 1;
    }

    method PeekBitsStartoffset(offset: nat, n: nat) returns (r: Option<nat>)
      requires Valid()
      ensures r.Some? <==> n <= 64 && start + offset + n <= end
      ensures r.Some? ==> r.value == FromBits(All()[start + offset..start + offset + n]) && r.value < Pow2(n)
    {
      if n > 64 || start + offset + n > end {
        return None;
      }
      var v := ReadBitsAtUnchecked(start + offset, n);
      r := Some(v);
    }

    /** Peek at a signed distance from the cursor; an offset before the window is an error. */
    method PeekBitsPosoffset(offset: int, n: nat) returns (r: Option<nat>)
      requires Valid()
      ensures r.Some? <==> n <= 64 && start <= pos + offset && pos + offset + n <= end
      ensures r.Some? ==> r.value == FromBits(All()[pos + offset..pos + offset + n]) && r.value < Pow2(n)
    {
      var o := pos - start + offset;
      if o < 0 {
        return None;
      }
      r := PeekBitsStartoffset(o, n);
    }

    method PeekBits(n: nat) returns (r: Option<nat>)
      requires Valid()
      ensures r.Some? <==> n <= 64 && n <= |Rest()|
      ensures r.Some? ==> r.value == FromBits(Rest()[..n]) && r.value < Pow2(n)
    {
      hide AllBits;
      r := PeekBitsPosoffset(0, n);
      if n <= |Rest()| {
        SliceOfSlice(All(), pos, end, 0, n);
      }
    }

    /** Reading advances on success and leaves the buffer alone otherwise. */
    method ReadBits(n: nat) returns (r: Option<nat>)
      requires Valid()
      modifies this`pos
      ensures Valid() && (r.Some? <==> n <= 64 && n <= |old(Rest())|)
      ensures r.Some? ==> r.value == FromBits(old(Rest())[..n]) && r.value < Pow2(n) && pos == old(pos) + n
      ensures r.None? ==> pos == old(pos)
    {
      r := PeekBits(n);
      if r.Some? {
        pos := pos + n;
      }
    }

    // -------------------------------------------------------------- the cursor

    method TrySeek(offset: nat) returns (ok: bool)
      requires Valid()
      modifies this`pos
      ensures Valid() && (ok <==> start + offset <= end)
      ensures pos == if ok then start + offset else old(pos)
    {
      if start + offset > end {
        return false;
      }
      pos := start + offset;
      ok := true;
    }

    method TrySeekRel(offset: int) returns (ok: bool)
      requires Valid()
      modifies this`pos
      ensures Valid() && (ok <==> start <= old(pos) + offset <= end)
      ensures pos == if ok then old(pos) + offset else old(pos)
    {
      var p := pos + offset;
      if p < start || p > end {
        return false;
      }
      pos := p;
      ok := true;
    }

    /** The panicking form: its callers must stay inside the window. */
    method SeekRel(offset: int)
      requires Valid() && start <= pos + offset <= end
      modifies this`pos
      ensures Valid() && pos == old(pos) + offset
    {
      var ok := TrySeekRel(offset);
      assert ok;
    }

    method SetRawPos(p: nat)
      requires Valid() && start <= p <= end
      modifies this`pos
      ensures Valid() && pos == p
    {
      pos := p;
    }

    // -------------------------------------------------------------- writing

    /** Move the end, reallocating when the capacity does not reach: to the needed size or twice
        the old one, whichever is more. */
    method MoveEnd(extra: nat)
      requires Valid()
      modifies this`end, this`buffer
      ensures Valid() && end == old(end) + extra
      ensures |buffer| == if extra > 8 * |old(buffer)| - old(end)
                          then DivCeil8(Max(old(end) + extra, 16 * |old(buffer)|)) else |old(buffer)|
      ensures |old(buffer)| <= |buffer| && All() == Padded(old(All()), 8 * |buffer|)
    {
      hide AllBits;
      var free := 8 * |buffer| - end;
      var needed := end + extra;
      if extra > free {
        var cap := Max(needed, 8 * |buffer| * 2);
        var grown := DivCeil8(cap) - |buffer|;
        AllBitsConcat(buffer, seq(grown, _ => 0));
        ZeroBytes(grown);
        buffer := buffer + seq(grown, _ => 0);
      }
      end := end + extra;
    }

    /** Where a write of n bits leaves the end. */
    ghost function EndAfter(n: nat): nat
      reads this
    {
      if pos + n > end then end + n else end
    }

    predicate Writable(n: nat)
      reads this
    {
      pos + n <= end || autoexpand
    }

    /** Write the n bits of a value in three phases: into the rest of the current byte, as whole
        bytes, into the first bits of the last byte. Every other bit keeps its value. */
    method WriteBits(value: nat, n: nat)
      requires Valid() && n <= 64 && value < Pow2(n) && Writable(n)
      modifies this`pos, this`end, this`buffer
      ensures Valid() && pos == old(pos) + n && end == old(EndAfter(n)) && |old(buffer)| <= |buffer|
      ensures end == old(end) ==> |buffer| == |old(buffer)|
      ensures All() == Splice(Padded(old(All()), 8 * |buffer|), old(pos), ToBits(value, n))
    {
      hide AllBits, ToBits, Splice, Masked, Shr, Pow2;
      if pos + n > end {
        MoveEnd(n);
      }
      assert Padded(old(All()), 8 * |buffer|) == All();
      PutBits(value, n);
      pos := pos + n;
    }

    method PutBits(v: nat, n: nat)
      requires pos + n <= 8 * |buffer|
      modifies this`buffer
      ensures |buffer| == |old(buffer)| && All() == Splice(old(All()), pos, ToBits(v, n))
    {
      hide AllBits, ToBits, Splice, Masked, Shr, Pow2, LowByte;
      ghost var a := All();
      var rem: nat, cur: nat := n, pos;
      ghost var w := ToBits(v, n);
      NothingWritten(a, pos);
      var off := cur % 8;
      if off != 0 && rem > 0 {
        var h := Min(rem, 8 - off);
        PutField(buffer, a, pos, v, n, rem, h);
        buffer := buffer[cur / 8 := Masked(buffer[cur / 8], LowByte(Shr(v, rem - h)), off, h)];
        cur := cur + h;
        rem := rem - h;
      }
      while rem >= 8
        invariant rem <= n && cur == pos + n - rem && (rem > 0 ==> cur % 8 == 0)
        invariant |buffer| == |old(buffer)| && All() == Splice(a, pos, w[..n - rem])
      {
        PutByte(buffer, a, pos, v, n, rem);
        buffer := buffer[cur / 8 := LowByte(Shr(v, rem - 8))];
        cur := cur + 8;
        rem := rem - 8;
      }
      if rem > 0 {
        PutField(buffer, a, pos, v, n, rem, rem);
        NoShift(v);
        buffer := buffer[cur / 8 := Masked(buffer[cur / 8], LowByte(v), cur % 8, rem)];
        rem := 0;
      }
      assert w[..n] == w;
    }

    /** Clear and set one bit. */
    method WriteBit(value: bool)
      requires Valid() && Writable(1)
      modifies this`pos, this`end, this`buffer
      ensures Valid() && pos == old(pos) + 1 && end == old(EndAfter(1)) && |old(buffer)| <= |buffer|
      ensures end == old(end) ==> |buffer| == |old(buffer)|
      ensures All() == Splice(Padded(old(All()), 8 * |buffer|), old(pos), [value])
    {
      hide AllBits, Splice;
      if pos + 1 > end {
        MoveEnd(1);
      }
      ghost var a := All();
      assert Padded(old(All()), 8 * |buffer|) == a;
      var i, off := pos / 8, pos % 8;
      var b := SetBit(buffer[i], off, value);
      WriteField(buffer, i, b, off, [value]);
      buffer := buffer[i := b];
      pos := pos + 1;
    }

    // -------------------------------------------------------------- chunked operations

    /** Copy n bits from another buffer, 64 at a time. Every piece that crosses the end moves it. */
    method CopyBits(src: BitBuffer, n: nat)
      requires Valid() && src.Valid() && src != this && n <= |src.Rest()| && Writable(n)
      modifies this`pos, this`end, this`buffer, src`pos
      ensures Valid() && src.Valid() && src.pos == old(src.pos) + n
      ensures pos == old(pos) + n && end == old(end) + GrownBy(n, |old(Rest())|) && |old(buffer)| <= |buffer|
      ensures All() == Splice(Padded(old(All()), 8 * |buffer|), old(pos), old(src.Rest())[..n])
    {
      hide AllBits, Splice, Padded, GrownBy;
      ghost var a, s, p0, reached := All(), src.Rest(), pos, end + GrownBy(n, end - pos);
      var rem := n;
      ghost var k := 0;
      NothingCopied(a, pos, s);
      while rem > 0
        invariant k <= n && rem == n - k && src.pos == old(src.pos) + k && autoexpand == old(autoexpand)
        invariant Copied(src, a, s, p0, k)
        invariant Writable(rem) && end + GrownBy(rem, end - pos) == reached
      {
        var c := Min(rem, 64);
        GrownStep(rem, end - pos);
        CopyChunk(src, c, a, s, p0, k);
        rem, k := rem - c, k + c;
      }
      NoneGrown(end - pos);
    }

    /** From a buffer with bits a and the cursor at p, the first k bits of s have been copied and the
        others are still to be read. */
    ghost predicate Copied(src: BitBuffer, a: seq<bool>, s: seq<bool>, p: nat, k: nat)
      reads this, src
    {
      && Valid() && src.Valid() && k <= |s| && src.Rest() == s[k..]
      && pos == p + k && |a| <= 8 * |buffer| && All() == Splice(Padded(a, 8 * |buffer|), p, s[..k])
    }

    method CopyChunk(src: BitBuffer, c: nat, ghost a: seq<bool>, ghost s: seq<bool>, ghost p: nat, ghost k: nat)
      requires src != this && Copied(src, a, s, p, k) && c <= 64 && k + c <= |s| && Writable(c)
      modifies this`pos, this`end, this`buffer, src`pos
      ensures Copied(src, a, s, p, k + c) && src.pos == old(src.pos) + c && end == old(EndAfter(c))
    {
      hide AllBits, ToBits, FromBits, Splice, Padded, Pow2;
      ghost var m := 8 * |buffer|;
      var v := src.ReadBits(c);
      ToBitsFromBits(s[k..][..c]);
      WriteBits(v.value, c);
      NextPiece(s, k, c);
      CopyMore(a, m, 8 * |buffer|, p, s[..k], s[k..][..c]);
    }

    /** Read as many bits as the array has elements, one bit per element; all or nothing. */
    method TryToBitarr(out: array<bv8>) returns (ok: bool)
      requires Valid()
      modifies this`pos, out
      ensures Valid() && (ok <==> out.Length <= |old(Rest())|)
      ensures pos == if ok then old(pos) + out.Length else old(pos)
      ensures ok ==> forall i :: 0 <= i < out.Length ==> out[i] == if old(Rest())[i] then 1 else 0
      ensures !ok ==> out[..] == old(out[..])
    {
      hide AllBits, FromBits, Pow2, Shr;
      if end - pos < out.Length {
        return false;
      }
      ghost var s := Rest();
      var n := out.Length;
      var rem := n;
      while rem > 0
        invariant 0 <= rem <= n && Valid() && pos == old(pos) + n - rem && Rest() == s[n - rem..]
        invariant forall i :: 0 <= i < n - rem ==> out[i] == if s[i] then 1 else 0
      {
        var c := Min(rem, 64);
        ghost var w := s[n - rem..][..c];
        var v := ReadBits(c);
        var i := 0;
        while i < c
          invariant 0 <= i <= c
          invariant forall j :: 0 <= j < n - rem + i ==> out[j] == if s[j] then 1 else 0
          modifies out
        {
          FromBitsBit(w, i);
          out[n - rem + i] := if Shr(v.value, c - 1 - i) % 2 == 1 then 1 else 0;
          assert w[i] == s[n - rem + i];
          i := i + 1;
        }
        rem := rem - c;
        assert Rest() == s[n - rem..];
      }
      ok := true;
    }

    /** Xor the first n bits of a byte string into the buffer, 64 at a time. When the window is too
        short, the whole chunks that fit have been changed. */
    method XorBytearr(data: seq<bv8>, n: nat) returns (ok: bool)
      requires Valid() && n <= 8 * |data|
      modifies this`pos, this`end, this`buffer
      ensures Valid() && start == old(start) && end == old(end) && |buffer| == |old(buffer)|
      ensures ok <==> n <= old(end - pos)
      ensures pos == old(pos) + Chunked(n, old(end - pos))
      ensures All() == XorredWith(old(All()), old(pos), AllBits(data), Chunked(n, old(end - pos)))
    {
      hide AllBits, FromBits, ToBits, Splice, Xor, Pow2, Xor64, Chunked, XorredWith;
      ghost var a, d, p := All(), AllBits(data), pos;
      XorNothing(a, p, d);
      var rem, k := n, 0;
      ghost var chunks := 0;
      while rem > 0
        invariant 0 <= rem <= n && k == n - rem && Valid() && pos == p + k && (rem > 0 ==> k == 64 * chunks)
        invariant end == old(end) && |buffer| == |old(buffer)|
        invariant All() == XorredWith(a, p, d, k)
      {
        var c := Min(rem, 64);
        rem := rem - c;
        var done := XorOneChunk(data, k, c);
        if !done {
          ChunkedStops(n, old(end - pos), k);
          return false;
        }
        XorChunk(a, p, k, d, c);
        k, chunks := k + c, chunks + 1;
      }
      ChunkedDone(n, old(end - pos));
      ok := true;
    }

    /** Read a chunk, go back, and write it xored with the data from bit k on. */
    method XorOneChunk(data: seq<bv8>, k: nat, c: nat) returns (ok: bool)
      requires Valid() && c <= 64 && k % 8 == 0 && k + c <= 8 * |data|
      modifies this`pos, this`end, this`buffer
      ensures Valid() && end == old(end) && |buffer| == |old(buffer)|
      ensures ok <==> c <= old(end - pos)
      ensures !ok ==> pos == old(pos) && buffer == old(buffer)
      ensures ok ==> pos == old(pos) + c && All() == Splice(old(All()), old(pos), ToBits(
                       Xor64(FromBits(old(All())[old(pos)..old(pos) + c]), FromBits(AllBits(data)[k..k + c])), c))
    {
      hide AllBits, FromBits, ToBits, Splice, Xor, Pow2, Xor64;
      SliceOfSlice(All(), pos, end, 0, Min(c, end - pos));
      var val := ReadBits(c);
      if val.None? {
        return false;
      }
      var x := DataChunk(data, k / 8, c);
      XorValue(All()[old(pos)..old(pos) + c], AllBits(data)[k..k + c]);
      var back: int := c;
      SeekRel(-back);
      PadNothing(All());
      WriteBits(Xor64(val.value, x), c);
      ok := true;
    }
  }

  lemma NothingWritten(a: seq<bool>, p: nat)
    requires p <= |a|
    ensures Splice(a, p, []) == a
  {
  }

  lemma NoShift(v: nat)
    ensures Shr(v, 0) == v
  {
  }

  /** A byte with one bit cleared and set anew. */
  method SetBit(b: bv8, off: nat, value: bool) returns (r: bv8)
    requires off < 8
    ensures forall j :: 0 <= j < 8 ==> BitAt(r, j) == if j == off then value else BitAt(b, j)
  {
    hide BitAt, And8, Or8, Not8, Shl8;
    var one: bv8 := if value then 1 else 0;
    r := Or8(And8(b, Not8(Shl8(1, 7 - off))), Shl8(one, 7 - off));
    forall j | 0 <= j < 8 ensures BitAt(r, j) == if j == off then value else BitAt(b, j) {
      OrBit(And8(b, Not8(Shl8(1, 7 - off))), Shl8(one, 7 - off), j);
      AndBit(b, Not8(Shl8(1, 7 - off)), j);
      NotBit(Shl8(1, 7 - off), j);
      ShlBit(1, 7 - off, j);
      ShlBit(one, 7 - off, j);
      if j <= off {
        OneBit(j + 7 - off);
        NoBits(j + 7 - off);
      }
    }
  }

  lemma OneBit(k: nat)
    requires k < 8
    ensures BitAt(1, k) == (k == 7)
  {
  }

  lemma NoBitsRead(b: seq<bool>)
    requires b == []
    ensures FromBits(b) == 0
  {
  }

  /** Copying whole bytes and cutting off the odd bits copies the window. */
  lemma CopiedWindow(buf: seq<bv8>, s: nat, e: nat)
    requires s <= e <= 8 * |buf|
    ensures s / 8 <= DivCeil8(e) <= |buf| && s % 8 + (e - s) <= 8 * (DivCeil8(e) - s / 8)
    ensures AllBits(buf[s / 8..DivCeil8(e)])[s % 8..s % 8 + (e - s)] == AllBits(buf)[s..e]
  {
    hide AllBits;
    SubBytes(buf, s / 8, DivCeil8(e));
    SliceOfSlice(AllBits(buf), 8 * (s / 8), 8 * DivCeil8(e), s % 8, s % 8 + (e - s));
  }

  lemma SubBytes(buf: seq<bv8>, i: nat, j: nat)
    requires i <= j <= |buf|
    ensures AllBits(buf[i..j]) == AllBits(buf)[8 * i..8 * j]
  {
    hide AllBits;
    AllBitsConcat(buf[..i], buf[i..j]);
    AllBitsConcat(buf[..j], buf[j..]);
    assert buf[..i] + buf[i..j] == buf[..j] && buf[..j] + buf[j..] == buf;
  }

  lemma NothingCopied(a: seq<bool>, p: nat, s: seq<bool>)
    requires p <= |a|
    ensures Splice(Padded(a, |a|), p, s[..0]) == a
  {
  }

  lemma PadNothing(a: seq<bool>)
    ensures Padded(a, |a|) == a
  {
  }

  lemma NextPiece<T>(s: seq<T>, k: nat, c: nat)
    requires k + c <= |s|
    ensures s[..k] + s[k..][..c] == s[..k + c] && s[k..][c..] == s[k + c..]
  {
  }

  lemma CopyMore(a: seq<bool>, m: nat, n: nat, p: nat, v: seq<bool>, w: seq<bool>)
    requires |a| <= m <= n && p + |v| <= m && p + |v| + |w| <= n
    ensures Splice(Padded(Splice(Padded(a, m), p, v), n), p + |v|, w) == Splice(Padded(a, n), p, v + w)
  {
    var x := Padded(a, n);
    assert Padded(Splice(Padded(a, m), p, v), n) == Splice(x, p, v);
    SpliceMore(x, p, v, w);
  }

  /** By how much a copy of n bits in pieces of 64 moves an end that is this far away: not at all
      when there is room; otherwise by every piece after the room / 64 that fit, but for a last
      short one that fits the bits left over from them. */
  function GrownBy(n: nat, room: nat): nat {
    if n <= room then 0
    else
      var m := n - room / 64 * 64;
      if m % 64 <= room % 64 then m / 64 * 64 else m
  }

  lemma GrownStep(n: nat, room: nat)
    requires n > 0
    ensures var c := Min(n, 64);
            GrownBy(n, room) == if c <= room then GrownBy(n - c, room - c) else c + GrownBy(n - c, room)
  {
  }

  lemma NoneGrown(room: nat)
    ensures GrownBy(0, room) == 0
  {
  }

  /** How many of n bits are processed in chunks of 64 when there is room for so many. */
  function Chunked(n: nat, room: nat): (m: nat)
    ensures m <= n && m <= room
  {
    if n <= room then n else room / 64 * 64
  }

  lemma ChunkedStops(n: nat, room: nat, k: nat)
    requires k % 64 == 0 && k <= room && k < n && k + Min(n - k, 64) > room
    ensures Chunked(n, room) == k && n > room
  {
  }

  lemma ChunkedDone(n: nat, room: nat)
    requires n <= room
    ensures Chunked(n, room) == n
  {
  }

  /** Exclusive or of two 64-bit values. */
  function Xor64(a: nat, b: nat): nat {
    XorWord(a, b, 64)
  }

  function XorWord(a: nat, b: nat, m: nat): nat {
    FromBits(Xor(ToBits(a, m), ToBits(b, m)))
  }

  lemma Widened(x: seq<bool>, m: nat)
    requires |x| <= m
    ensures ToBits(FromBits(x), m) == Zeros(m - |x|) + x
  {
    var z := Zeros(m - |x|);
    FromBitsZeros(z, x);
    ToBitsFromBits(z + x);
  }

  /** On values of n bits, Xor64 is the bitwise exclusive or of the n bits. */
  lemma XorValue(x: seq<bool>, y: seq<bool>)
    requires |x| == |y| <= 64
    ensures Xor64(FromBits(x), FromBits(y)) < Pow2(|x|)
    ensures ToBits(Xor64(FromBits(x), FromBits(y)), |x|) == Xor(x, y)
  {
    hide FromBits, ToBits, Pow2, Xor, XorWord;
    XorNumber(x, y, 64);
    FromBitsBound(Xor(x, y));
    ToBitsFromBits(Xor(x, y));
  }

  lemma XorNumber(x: seq<bool>, y: seq<bool>, m: nat)
    requires |x| == |y| <= m
    ensures XorWord(FromBits(x), FromBits(y), m) == FromBits(Xor(x, y))
  {
    hide FromBits, ToBits, Xor, Zeros;
    var z := Zeros(m - |x|);
    Widened(x, m);
    Widened(y, m);
    XorPrefix(z, x, y);
    FromBitsZeros(z, Xor(x, y));
  }

  lemma XorPrefix(z: seq<bool>, x: seq<bool>, y: seq<bool>)
    requires |x| == |y| && forall i :: 0 <= i < |z| ==> !z[i]
    ensures Xor(z + x, z + y) == z + Xor(x, y)
  {
  }

  /** The next c bits of the data as a number: whole bytes, then shifted back. */
  method DataChunk(data: seq<bv8>, at: nat, c: nat) returns (x: nat)
    requires c <= 64 && 8 * at + c <= 8 * |data|
    ensures x == FromBits(AllBits(data)[8 * at..8 * at + c])
  {
    hide AllBits, FromBits, Pow2, Shr;
    x := 0;
    var n := DivCeil8(c);
    NoBitsRead(AllBits(data)[8 * at..8 * at]);
    for i := 0 to n
      invariant x == FromBits(AllBits(data)[8 * at..8 * (at + i)])
    {
      ByteRead(data, 8 * at, 8 * (at + i));
      x := x * 256 + data[at + i] as nat;
    }
    var shift := (8 - c % 8) % 8;
    var d := AllBits(data);
    FromBitsShift(d[8 * at..8 * at + c], d[8 * at + c..8 * (at + n)]);
    assert d[8 * at..8 * at + c] + d[8 * at + c..8 * (at + n)] == d[8 * at..8 * (at + n)];
    x := Shr(x, shift);
  }

  /** a with the k bits from p on xored with the first k bits of d. */
  function XorredWith(a: seq<bool>, p: nat, d: seq<bool>, k: nat): (r: seq<bool>)
    requires p + k <= |a| && k <= |d|
    ensures |r| == |a|
  {
    Splice(a, p, Xor(a[p..p + k], d[..k]))
  }

  /** Xoring twice with the same data restores the buffer. */
  lemma XorTwice(a: seq<bool>, p: nat, d: seq<bool>, k: nat)
    requires p + k <= |a| && k <= |d|
    ensures XorredWith(XorredWith(a, p, d, k), p, d, k) == a
  {
    var v, once := Xor(a[p..p + k], d[..k]), XorredWith(a, p, d, k);
    assert once[p..p + k] == v;
    assert Xor(v, d[..k]) == a[p..p + k];
  }

  lemma XorNothing(a: seq<bool>, p: nat, d: seq<bool>)
    requires p <= |a|
    ensures XorredWith(a, p, d, 0) == a
  {
  }

  /** One more chunk: the bits read are still the original ones. */
  lemma XorChunk(a: seq<bool>, p: nat, k: nat, d: seq<bool>, c: nat)
    requires p + k + c <= |a| && k + c <= |d| && c <= 64
    ensures var now := XorredWith(a, p, d, k);
            var w := Xor64(FromBits(now[p + k..p + k + c]), FromBits(d[k..k + c]));
            Splice(now, p + k, ToBits(w, c)) == XorredWith(a, p, d, k + c)
  {
    hide FromBits, ToBits, Pow2, Xor64;
    var v := Xor(a[p..p + k], d[..k]);
    var now := Splice(a, p, v);
    assert now[p + k..p + k + c] == a[p + k..p + k + c];
    XorValue(now[p + k..p + k + c], d[k..k + c]);
    assert v + Xor(a[p + k..p + k + c], d[k..k + c]) == Xor(a[p..p + k + c], d[..k + c]);
    SpliceMore(a, p, v, Xor(a[p + k..p + k + c], d[k..k + c]));
  }
}
