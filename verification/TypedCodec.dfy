/** The writers and parsers of optional elements on a bit buffer. The parsers are proved to do to
    the rest of the window, and the writers to the window, what the functions of TypedFields say. */
module TypedCodec {
  import opened Wrappers
  import opened Bits
  import opened BitBuffers
  import opened TypedFields

  // ---------------------------------------------------------------- writing

  /** Room for n more bits: inside the window, or in a buffer that grows. */
  ghost predicate Ready(b: BitBuffer, n: nat)
    reads b
  {
    b.Valid() && Room(b.autoexpand, b.Rest(), n)
  }

  ghost predicate Room(autoexpand: bool, rest: seq<bool>, n: nat) {
    n <= |rest| || autoexpand
  }

  lemma StillReady(b: BitBuffer, text: seq<bool>, rest: seq<bool>, x: seq<bool>, n: nat)
    requires Wrote(b, text, rest, x) && Room(b.autoexpand, rest, |x| + n)
    ensures Ready(b, n)
  {
    hide AllBits;
  }

  lemma LessRoom(autoexpand: bool, rest: seq<bool>, n: nat, m: nat)
    requires Room(autoexpand, rest, n) && m <= n
    ensures Room(autoexpand, rest, m)
  {
  }

  /** The room left after n bits written inside the window or at its end. A write that starts
      before the end and crosses it moves the end by its whole width instead. */
  ghost predicate RoomAfter(rest: seq<bool>, n: nat, left: seq<bool>) {
    && (n <= |rest| ==> left == rest[n..])
    && (rest == [] ==> left == [])
  }

  /** From a buffer with this text and this room, x has been written. */
  ghost predicate Wrote(b: BitBuffer, text: seq<bool>, rest: seq<bool>, x: seq<bool>)
    reads b
  {
    b.Valid() && b.Text() == text + x && RoomAfter(rest, |x|, b.Rest())
  }

  /** Writing x and then, with this room in between, y. */
  lemma WroteMore(b: BitBuffer, text: seq<bool>, rest: seq<bool>, x: seq<bool>, mid: seq<bool>, y: seq<bool>)
    requires RoomAfter(rest, |x|, mid) && Wrote(b, text + x, mid, y)
    ensures Wrote(b, text, rest, x + y)
  {
    hide AllBits;
    assert text + x + y == text + (x + y);
    if |x + y| <= |rest| {
      assert rest[|x|..][|y|..] == rest[|x| + |y|..];
    }
  }

  lemma Resumed(b: BitBuffer, text: seq<bool>, rest: seq<bool>, x: seq<bool>)
    requires Wrote(b, text, rest, x)
    ensures b.Valid() && b.Text() == text + x && RoomAfter(rest, |x|, b.Rest())
  {
  }

  lemma WroteNothing(b: BitBuffer)
    requires b.Valid()
    ensures Wrote(b, b.Text(), b.Rest(), [])
  {
    hide AllBits;
    assert b.Text() + [] == b.Text() && b.Rest()[0..] == b.Rest();
  }

  /** What a write at the cursor does to the text and to the room. */
  lemma SplitWindow(a: seq<bool>, m: nat, s: nat, p: nat, e: nat, v: seq<bool>)
    requires s <= p <= e <= |a| <= m && p + |v| <= m
    ensures Splice(Padded(a, m), p, v)[s..p + |v|] == a[s..p] + v
    ensures p + |v| <= e ==> Splice(Padded(a, m), p, v)[p + |v|..e] == a[p..e][|v|..]
  {
    var w := Splice(Padded(a, m), p, v);
    if p + |v| <= e {
      var l, r := w[p + |v|..e], a[p..e][|v|..];
      forall k | 0 <= k < e - p - |v| ensures l[k] == r[k] {
        assert l[k] == w[p + |v| + k] == a[p + |v| + k];
      }
    }
  }

  lemma BackfilledText(a: seq<bool>, s: nat, t: nat, e: nat, p: nat, v: seq<bool>)
    requires s <= p && p + |v| <= t <= e <= |a|
    ensures Splice(a, p, v)[s..t] == Splice(a[s..t], p - s, v) && Splice(a, p, v)[t..e] == a[t..e]
  {
  }

  method PutNumber(b: BitBuffer, v: nat, n: nat)
    requires Ready(b, n) && n <= 64 && v < Pow2(n)
    modifies b`pos, b`end, b`buffer
    ensures Wrote(b, old(b.Text()), old(b.Rest()), ToBits(v, n))
  {
    hide AllBits, ToBits, Splice, Padded, Pow2;
    ghost var a := b.All();
    b.WriteBits(v, n);
    SplitWindow(a, 8 * |b.buffer|, b.start, old(b.pos), old(b.end), ToBits(v, n));
  }

  method PutBit(b: BitBuffer, v: bool)
    requires Ready(b, 1)
    modifies b`pos, b`end, b`buffer
    ensures Wrote(b, old(b.Text()), old(b.Rest()), [v])
  {
    hide AllBits, Splice, Padded;
    ghost var a := b.All();
    b.WriteBit(v);
    SplitWindow(a, 8 * |b.buffer|, b.start, old(b.pos), old(b.end), [v]);
  }

  /** Go back, overwrite n bits of the text, and return. */
  method Backfill(b: BitBuffer, at: nat, v: nat, n: nat)
    requires b.Valid() && n <= 64 && v < Pow2(n) && b.start <= at && at + n <= b.pos
    modifies b`pos, b`end, b`buffer
    ensures b.Valid() && b.Text() == Splice(old(b.Text()), at - b.start, ToBits(v, n)) && b.Rest() == old(b.Rest())
  {
    hide AllBits, ToBits, Splice, Padded, Pow2;
    ghost var a := b.All();
    var posEnd := b.pos;
    b.SetRawPos(at);
    b.WriteBits(v, n);
    PadNothing(a);
    BackfilledText(a, b.start, posEnd, b.end, at, ToBits(v, n));
    b.SetRawPos(posEnd);
  }

  /** An element writer: whatever it does, it writes the encoding of its value. */
  method RunWriter<V>(b: BitBuffer, v: V, c: Codec<V>)
    requires Ready(b, |c.enc(v)|)
    modifies b`pos, b`end, b`buffer
    ensures Wrote(b, old(b.Text()), old(b.Rest()), c.enc(v))
  {
    hide AllBits;
    var e := c.enc(v);
    WroteNothing(b);
    for i := 0 to |e|
      invariant Wrote(b, old(b.Text()), old(b.Rest()), e[..i])
    {
      ghost var mid := b.Rest();
      PutBit(b, e[i]);
      WroteMore(b, old(b.Text()), old(b.Rest()), e[..i], mid, [e[i]]);
      assert e[..i] + [e[i]] == e[..i + 1];
    }
    assert e[..|e|] == e;
  }

  /** An element parser: it consumes what its decoder says. */
  method RunParser<V(!new)>(b: BitBuffer, c: Codec<V>) returns (r: Result<V>)
    requires b.Valid() && Bounded(c)
    modifies b`pos
    ensures b.Valid()
    ensures match c.dec(old(b.Rest())) {
              case Err(e) => r == Err(e)
              case Ok((v, k)) => r == Ok(v) && b.pos == old(b.pos) + k && b.Rest() == old(b.Rest())[k..]
            }
  {
    var rest := b.Rest();
    match c.dec(rest)
    case Err(e) => r := Err(e);
    case Ok((v, k)) =>
      b.SeekRel(k);
      r := Ok(v);
  }

  // ---------------------------------------------------------------- type 2

  method ParseType2Struct<V(!new)>(obit: bool, b: BitBuffer, c: Codec<V>) returns (r: Result<Option<V>>)
    requires b.Valid() && Bounded(c)
    modifies b`pos
    ensures b.Valid() && Parsed(b, old(b.pos), r, DecType2(obit, old(b.Rest()), c))
  {
    if !obit {
      return Ok(None);
    }
    var p := b.ReadBits(1);
    if p.None? {
      return Err(BufferEnded);
    }
    OneBitRead(old(b.Rest()));
    if p.value == 0 {
      return Ok(None);
    }
    var v := RunParser(b, c);
    r := if v.Ok? then Ok(Some(v.value)) else Err(v.error);
  }

  /** What a parser returns and where it leaves the cursor, against the decoder's answer. */
  ghost predicate Parsed<T>(b: BitBuffer, pos: nat, r: Result<T>, d: Result<(T, nat)>)
    reads b
  {
    match d
    case Err(e) => r == Err(e)
    case Ok((v, k)) => r == Ok(v) && b.pos == pos + k
  }

  lemma OneBitRead(bits: seq<bool>)
    requires bits != []
    ensures FromBits(bits[..1]) == if bits[0] then 1 else 0
  {
    assert bits[..1][..0] == [];
  }

  method WriteType2Struct<V>(obit: bool, b: BitBuffer, v: Option<V>, c: Codec<V>)
    requires Ready(b, |EncType2(obit, v, c)|) && (!obit ==> v.None?)
    modifies b`pos, b`end, b`buffer
    ensures Wrote(b, old(b.Text()), old(b.Rest()), EncType2(obit, v, c))
  {
    hide AllBits;
    if !obit {
      WroteNothing(b);
      return;
    }
    match v
    case None =>
      PutBit(b, false);
    case Some(x) =>
      PutBit(b, true);
      ghost var mid := b.Rest();
      RunWriter(b, x, c);
      WroteMore(b, old(b.Text()), old(b.Rest()), [true], mid, c.enc(x));
  }

  // ---------------------------------------------------------------- type 3 and 4 headers

  method PeekType34MbitAndId(b: BitBuffer, id: nat) returns (r: Result<bool>)
    requires b.Valid()
    ensures r == PeekId(b.Rest(), id)
  {
    hide AllBits, FromBits;
    var mbit := b.PeekBits(1);
    if mbit.None? {
      return Err(BufferEnded);
    }
    OneBitRead(b.Rest());
    if mbit.value == 0 {
      return Ok(false);
    }
    var idBits := b.PeekBitsPosoffset(1, 4);
    if idBits.None? {
      return Err(BufferEnded);
    }
    SliceOfSlice(b.All(), b.pos, b.end, 1, 5);
    r := Ok(idBits.value == id);
  }

  method WriteType34HeaderGeneric(b: BitBuffer, id: nat)
    requires Ready(b, 5) && id < 16
    modifies b`pos, b`end, b`buffer
    ensures Wrote(b, old(b.Text()), old(b.Rest()), [true] + ToBits(id, 4))
  {
    hide ToBits, AllBits;
    FieldPowers();
    PutBit(b, true);
    ghost var mid := b.Rest();
    PutNumber(b, id, 4);
    WroteMore(b, old(b.Text()), old(b.Rest()), [true], mid, ToBits(id, 4));
  }

  // ---------------------------------------------------------------- type 3

  method ParseType3Struct<V(!new)>(obit: bool, b: BitBuffer, id: nat, c: Codec<V>) returns (r: Result<Option<V>>)
    requires b.Valid() && Bounded(c)
    modifies b`pos
    ensures b.Valid() && Parsed(b, old(b.pos), r, DecType3(obit, old(b.Rest()), id, c))
  {
    hide AllBits, FromBits;
    if !obit {
      return Ok(None);
    }
    var present := PeekType34MbitAndId(b, id);
    if present.Err? {
      return Err(present.error);
    }
    if !present.value {
      return Ok(None);
    }
    b.SeekRel(5);
    ghost var bits := old(b.Rest());
    assert b.Rest() == bits[5..];
    var len := b.ReadBits(11);
    if len.None? {
      return Err(BufferEnded);
    }
    assert bits[5..][..11] == bits[5..16];
    assert b.Rest() == bits[16..];
    var startPos := b.pos;
    var v := RunParser(b, c);
    if v.Err? {
      return Err(v.error);
    }
    if startPos + len.value != b.pos {
      return Err(InconsistentLength(len.value, b.pos - startPos));
    }
    r := Ok(Some(v.value));
  }

  /** The length is written as zero first and filled in once the element has been written. */
  method WriteType3Struct<V>(obit: bool, b: BitBuffer, v: Option<V>, id: nat, c: Codec<V>) returns (r: Result<()>)
    requires id < 16 && (v.Some? && obit ==> |c.enc(v.value)| < 2048)
    requires Ready(b, if obit then |EncType3(v, id, c)| else 0)
    modifies b`pos, b`end, b`buffer
    ensures r == if !obit && v.Some? then Err(InvalidValue) else Ok(())
    ensures Wrote(b, old(b.Text()), old(b.Rest()), if obit then EncType3(v, id, c) else [])
  {
    hide AllBits, ToBits, Splice, Pow2, Wrote;
    WroteNothing(b);
    if !obit && v.Some? {
      return Err(InvalidValue);
    }
    r := Ok(());
    if v.Some? {
      WriteElement3(b, v.value, id, c);
    }
  }

  /** Write the start of the header and n zero bits for what will be filled in later. */
  method ReserveHeader(b: BitBuffer, id: nat, n: nat) returns (posLen: nat)
    requires Ready(b, 5 + n) && id < 16 && n <= 64
    modifies b`pos, b`end, b`buffer
    ensures Wrote(b, old(b.Text()), old(b.Rest()), [true] + ToBits(id, 4) + ToBits(0, n))
    ensures posLen == old(b.pos) + 5 && b.pos == posLen + n
  {
    hide AllBits, ToBits;
    ghost var t, r, h := b.Text(), b.Rest(), [true] + ToBits(id, 4);
    WriteType34HeaderGeneric(b, id);
    posLen := b.pos;
    ghost var mid := b.Rest();
    PutNumber(b, 0, n);
    WroteMore(b, t, r, h, mid, ToBits(0, n));
  }

  /** Changing the text in place does not change the room. */
  lemma Refilled(b: BitBuffer, text: seq<bool>, rest: seq<bool>, x: seq<bool>, n: nat)
    requires b.Valid() && b.Text() == text + x && n == |x| && RoomAfter(rest, n, b.Rest())
    ensures Wrote(b, text, rest, x)
  {
  }

  method WriteElement3<V>(b: BitBuffer, v: V, id: nat, c: Codec<V>)
    requires id < 16 && |c.enc(v)| < 2048 && Ready(b, 16 + |c.enc(v)|)
    modifies b`pos, b`end, b`buffer
    ensures Wrote(b, old(b.Text()), old(b.Rest()), Header(id, |c.enc(v)|) + c.enc(v))
  {
    hide AllBits, ToBits, Splice, Pow2, Wrote, RoomAfter;
    ghost var t, r, e := b.Text(), b.Rest(), c.enc(v);
    ghost var h, z := [true] + ToBits(id, 4), ToBits(0, 11);
    FieldPowers();
    var posLen := ReserveHeader(b, id, 11);
    Resumed(b, t, r, h + z);
    StillReady(b, t, r, h + z, |e|);
    ghost var mid := b.Rest();
    RunWriter(b, v, c);
    WroteMore(b, t, r, h + z, mid, e);
    Resumed(b, t, r, h + z + e);
    var len := b.pos - posLen - 11;
    Backfill(b, posLen, len, 11);
    Filled(t, h, z, ToBits(|e|, 11), e);
    Refilled(b, t, r, h + ToBits(|e|, 11) + e, |h + z + e|);
  }

  /** Overwriting the placeholder z behind t and h by y. */
  lemma Filled(t: seq<bool>, h: seq<bool>, z: seq<bool>, y: seq<bool>, e: seq<bool>)
    requires |z| == |y|
    ensures Splice(t + (h + z + e), |t| + |h|, y) == t + (h + y + e)
  {
  }

  // ---------------------------------------------------------------- numbers as type 2

  method ParseType2Generic(obit: bool, b: BitBuffer, n: nat) returns (r: Result<Option<nat>>)
    requires b.Valid() && n <= 64
    modifies b`pos
    ensures b.Valid() && Parsed(b, old(b.pos), r, DecType2(obit, old(b.Rest()), Number(n)))
  {
    hide AllBits, FromBits, ToBits;
    if !obit {
      return Ok(None);
    }
    var p := b.ReadBits(1);
    if p.None? {
      return Err(BufferEnded);
    }
    OneBitRead(old(b.Rest()));
    if p.value == 0 {
      return Ok(None);
    }
    var v := b.ReadBits(n);
    r := if v.Some? then Ok(Some(v.value)) else Err(BufferEnded);
  }

  method WriteType2Generic(obit: bool, b: BitBuffer, v: Option<nat>, n: nat)
    requires Ready(b, |EncType2(obit, v, Number(n))|) && (!obit ==> v.None?)
    requires n <= 64 && (v.Some? ==> v.value < Pow2(n))
    modifies b`pos, b`end, b`buffer
    ensures Wrote(b, old(b.Text()), old(b.Rest()), EncType2(obit, v, Number(n)))
  {
    hide ToBits, Pow2, AllBits;
    if !obit {
      WroteNothing(b);
      return;
    }
    match v
    case None =>
      PutBit(b, false);
    case Some(x) =>
      PutBit(b, true);
      ghost var mid := b.Rest();
      PutNumber(b, x, n);
      WroteMore(b, old(b.Text()), old(b.Rest()), [true], mid, ToBits(x, n));
  }

  // ---------------------------------------------------------------- type 4

  method ParseType4Header(b: BitBuffer, id: nat) returns (r: Result<Option<(nat, nat)>>)
    requires b.Valid()
    modifies b`pos
    ensures b.Valid() && r == DecHeader4(old(b.Rest()), id)
    ensures r.Ok? ==> b.pos == if r.value.Some? then old(b.pos) + 22 else old(b.pos)
  {
    hide AllBits, FromBits;
    var present := PeekType34MbitAndId(b, id);
    if present.Err? {
      return Err(present.error);
    }
    if !present.value {
      return Ok(None);
    }
    b.SeekRel(5);
    ghost var bits := old(b.Rest());
    assert b.Rest() == bits[5..];
    var len := b.ReadBits(11);
    if len.None? {
      return Err(BufferEnded);
    }
    assert bits[5..][..11] == bits[5..16];
    assert b.Rest() == bits[16..];
    var n := b.ReadBits(6);
    if n.None? {
      return Err(BufferEnded);
    }
    assert bits[16..][..6] == bits[16..22];
    if len.value < 6 {
      return Err(InconsistentLength(6, len.value));
    }
    if len.value - 6 > b.end - b.pos {
      return Err(BufferEnded);
    }
    r := Ok(Some((n.value, len.value - 6)));
  }

  method ParseType4Struct<V(!new)>(obit: bool, b: BitBuffer, id: nat, c: Codec<V>) returns (r: Result<Option<seq<V>>>)
    requires b.Valid() && Bounded(c)
    modifies b`pos
    ensures b.Valid() && Parsed(b, old(b.pos), r, DecType4(obit, old(b.Rest()), id, c))
  {
    hide AllBits, FromBits, PeekId, DecHeader4, DecAll;
    if !obit {
      return Ok(None);
    }
    var h := ParseType4Header(b, id);
    if h.Err? {
      return Err(h.error);
    }
    if h.value.None? {
      return Ok(None);
    }
    HeaderIsInside(old(b.Rest()), id);
    assert b.Rest() == old(b.Rest())[22..];
    var (n, len) := h.value.value;
    var startPos := b.pos;
    var elems := ParseElements(b, c, n);
    if elems.Err? {
      return Err(elems.error);
    }
    if startPos + len != b.pos {
      return Err(InconsistentLength(len, b.pos - startPos));
    }
    r := Ok(Some(elems.value));
  }

  method ParseElements<V(!new)>(b: BitBuffer, c: Codec<V>, n: nat) returns (r: Result<seq<V>>)
    requires b.Valid() && Bounded(c)
    modifies b`pos
    ensures b.Valid()
    ensures match DecAll(old(b.Rest()), c, n) {
              case Err(e) => r == Err(e)
              case Ok((vs, k)) => r == Ok(vs) && b.pos == old(b.pos) + k
            }
  {
    hide AllBits, DecAll, Bounded;
    ghost var total := DecAll(b.Rest(), c, n);
    var vs: seq<V> := [];
    ghost var k := 0;
    assert total.Ok? ==> vs + total.value.0 == total.value.0;
    for i := 0 to n
      invariant b.Valid() && b.pos == old(b.pos) + k
      invariant var t := DecAll(b.Rest(), c, n - i);
                if t.Err? then total == t else total == Ok((vs + t.value.0, k + t.value.1))
    {
      ghost var rest := b.Rest();
      DecAllStep(rest, c, n - i);
      BoundedAt(c, rest);
      var v := RunParser(b, c);
      if v.Err? {
        return Err(v.error);
      }
      k := k + c.dec(rest).value.1;
      ghost var t := DecAll(b.Rest(), c, n - i - 1);
      assert t.Ok? ==> vs + ([v.value] + t.value.0) == vs + [v.value] + t.value.0;
      vs := vs + [v.value];
    }
    DecAllDone(b.Rest(), c);
    assert vs + [] == vs;
    r := Ok(vs);
  }

  lemma BoundedAt<V(!new)>(c: Codec<V>, bits: seq<bool>)
    requires Bounded(c)
    ensures c.dec(bits).Ok? ==> c.dec(bits).value.1 <= |bits|
  {
  }

  lemma DecAllDone<V>(bits: seq<bool>, c: Codec<V>)
    ensures DecAll(bits, c, 0) == Ok(([], 0))
  {
  }

  lemma DecAllStep<V>(bits: seq<bool>, c: Codec<V>, n: nat)
    requires n > 0
    ensures match c.dec(bits) {
              case Err(e) => DecAll(bits, c, n) == Err(e)
              case Ok((v, k)) =>
                k <= |bits| ==>
                  match DecAll(bits[k..], c, n - 1) {
                    case Err(e) => DecAll(bits, c, n) == Err(e)
                    case Ok((vs, m)) => DecAll(bits, c, n) == Ok(([v] + vs, k + m))
                  }
            }
  {
  }

  /** Length and count are written as zeros first and filled in at the end. */
  method WriteType4Struct<V>(obit: bool, b: BitBuffer, v: Option<seq<V>>, id: nat, c: Codec<V>) returns (r: Result<()>)
    requires id < 16 && (v.Some? && obit ==> |v.value| < 64 && 6 + |EncAll(v.value, c)| < 2048)
    requires Ready(b, if obit then |EncType4(v, id, c)| else 0)
    modifies b`pos, b`end, b`buffer
    ensures r == if !obit && v.Some? then Err(InvalidValue) else Ok(())
    ensures Wrote(b, old(b.Text()), old(b.Rest()), if obit then EncType4(v, id, c) else [])
  {
    hide AllBits, ToBits, Splice, Pow2, EncAll, Wrote;
    WroteNothing(b);
    if !obit && v.Some? {
      return Err(InvalidValue);
    }
    r := Ok(());
    if v.Some? {
      WriteElement4(b, v.value, id, c);
    }
  }

  method WriteElement4<V>(b: BitBuffer, vs: seq<V>, id: nat, c: Codec<V>)
    requires id < 16 && |vs| < 64 && 6 + |EncAll(vs, c)| < 2048 && Ready(b, 22 + |EncAll(vs, c)|)
    modifies b`pos, b`end, b`buffer
    ensures Wrote(b, old(b.Text()), old(b.Rest()), EncType4(Some(vs), id, c))
  {
    hide AllBits, ToBits, Splice, Pow2, EncAll, Wrote, RoomAfter;
    ghost var t, r, e := b.Text(), b.Rest(), EncAll(vs, c);
    ghost var h, z := [true] + ToBits(id, 4), ToBits(0, 17);
    FieldPowers();
    var posLen := ReserveHeader(b, id, 17);
    Resumed(b, t, r, h + z);
    StillReady(b, t, r, h + z, |e|);
    ghost var mid := b.Rest();
    WriteElements(b, vs, c);
    WroteMore(b, t, r, h + z, mid, e);
    Resumed(b, t, r, h + z + e);
    var len := b.pos - posLen - 11;
    BackfillPair(b, posLen, len, |vs|);
    ghost var x := ToBits(6 + |e|, 11) + ToBits(|vs|, 6);
    Filled(t, h, z, x, e);
    Refilled(b, t, r, h + x + e, |h + z + e|);
    assert h + x + e == EncType4(Some(vs), id, c);
  }

  method WriteElements<V>(b: BitBuffer, vs: seq<V>, c: Codec<V>)
    requires Ready(b, |EncAll(vs, c)|)
    modifies b`pos, b`end, b`buffer
    ensures Wrote(b, old(b.Text()), old(b.Rest()), EncAll(vs, c))
  {
    hide EncAll, AllBits, Wrote, RoomAfter, Room;
    EncAllDone(vs, c);
    assert vs[0..] == vs;
    WroteNothing(b);
    ghost var done: seq<bool> := [];
    assert done + EncAll(vs, c) == EncAll(vs, c);
    for i := 0 to |vs|
      invariant Wrote(b, old(b.Text()), old(b.Rest()), done) && done + EncAll(vs[i..], c) == EncAll(vs, c)
    {
      EncAllStep(vs, c, i);
      LessRoom(b.autoexpand, old(b.Rest()), |EncAll(vs, c)|, |done| + |c.enc(vs[i])|);
      StillReady(b, old(b.Text()), old(b.Rest()), done, |c.enc(vs[i])|);
      Resumed(b, old(b.Text()), old(b.Rest()), done);
      ghost var mid := b.Rest();
      RunWriter(b, vs[i], c);
      WroteMore(b, old(b.Text()), old(b.Rest()), done, mid, c.enc(vs[i]));
      assert done + c.enc(vs[i]) + EncAll(vs[i + 1..], c) == done + (c.enc(vs[i]) + EncAll(vs[i + 1..], c));
      done := done + c.enc(vs[i]);
    }
    assert done + [] == done;
  }

  lemma EncAllDone<V>(vs: seq<V>, c: Codec<V>)
    ensures EncAll(vs[|vs|..], c) == []
  {
  }

  lemma EncAllStep<V>(vs: seq<V>, c: Codec<V>, i: nat)
    requires i < |vs|
    ensures EncAll(vs[i..], c) == c.enc(vs[i]) + EncAll(vs[i + 1..], c)
  {
    assert vs[i..][1..] == vs[i + 1..];
  }

  method BackfillPair(b: BitBuffer, at: nat, len: nat, n: nat)
    requires b.Valid() && len < Pow2(11) && n < Pow2(6) && b.start <= at && at + 17 <= b.pos
    modifies b`pos, b`end, b`buffer
    ensures b.Valid() && b.Rest() == old(b.Rest())
    ensures b.Text() == Splice(old(b.Text()), at - b.start, ToBits(len, 11) + ToBits(n, 6))
  {
    hide AllBits, ToBits, Splice, Padded, Pow2;
    ghost var a := b.All();
    var posEnd := b.pos;
    b.SetRawPos(at);
    b.WriteBits(len, 11);
    PadNothing(a);
    ghost var a1 := b.All();
    b.WriteBits(n, 6);
    PadNothing(a1);
    SpliceMore(a, at, ToBits(len, 11), ToBits(n, 6));
    BackfilledText(a, b.start, posEnd, b.end, at, ToBits(len, 11) + ToBits(n, 6));
    b.SetRawPos(posEnd);
  }

  // ---------------------------------------------------------------- uninterpreted elements

  /** For every buffer content: no seek leaves the window, nothing is consumed when the element is
      absent, and a parsed element consumes its header and exactly its stated length. */
  method ParseType3Generic(obit: bool, b: BitBuffer, id: nat) returns (r: Result<Option<Generic3>>)
    requires b.Valid()
    modifies b`pos
    ensures b.Valid() && Parsed(b, old(b.pos), r, DecGeneric3(obit, old(b.Rest()), id))
  {
    hide AllBits, FromBits;
    if !obit {
      return Ok(None);
    }
    var present := PeekType34MbitAndId(b, id);
    if present.Err? {
      return Err(present.error);
    }
    if !present.value {
      return Ok(None);
    }
    b.SeekRel(5);
    ghost var bits := old(b.Rest());
    assert b.Rest() == bits[5..];
    var len := b.ReadBits(11);
    if len.None? {
      return Err(BufferEnded);
    }
    assert bits[5..][..11] == bits[5..16];
    assert b.Rest() == bits[16..];
    if len.value > b.end - b.pos {
      return Err(BufferEnded);
    }
    var data := ReadWide(b, Min(len.value, 128));
    assert bits[16..][..Min(len.value, 128)] == bits[16..16 + Min(len.value, 128)];
    if len.value > 128 {
      var ok := b.TrySeekRel(len.value - 128);
      if !ok {
        return Err(BufferEnded);
      }
    }
    r := Ok(Some(Generic3(id, len.value, data)));
  }

  /** Up to 128 bits, read as a high and a low half when they do not fit 64. */
  method ReadWide(b: BitBuffer, n: nat) returns (data: nat)
    requires b.Valid() && n <= 128 && n <= |b.Rest()|
    modifies b`pos
    ensures b.Valid() && b.pos == old(b.pos) + n && data == FromBits(old(b.Rest())[..n])
  {
    hide AllBits, FromBits, Pow2;
    if n <= 64 {
      var v := b.ReadBits(n);
      data := v.value;
    } else {
      ghost var bits := b.Rest();
      var hi := b.ReadBits(n - 64);
      assert b.Rest() == bits[n - 64..];
      var lo := b.ReadBits(64);
      FromBitsConcat(bits[..n - 64], bits[n - 64..][..64]);
      assert bits[..n - 64] + bits[n - 64..][..64] == bits[..n];
      data := hi.value * Pow2(64) + lo.value;
    }
  }

  method WriteType3Generic(obit: bool, b: BitBuffer, v: Option<Generic3>, id: nat) returns (r: Result<()>)
    requires id < 16 && (v.Some? && obit ==> v.value.len <= 128 && v.value.data < Pow2(v.value.len))
    requires Ready(b, if obit then |EncGeneric3(v, id)| else 0)
    modifies b`pos, b`end, b`buffer
    ensures r == if !obit && v.Some? then Err(InvalidValue) else Ok(())
    ensures Wrote(b, old(b.Text()), old(b.Rest()), if obit then EncGeneric3(v, id) else [])
  {
    hide AllBits, ToBits, Pow2;
    WroteNothing(b);
    if !obit && v.Some? {
      return Err(InvalidValue);
    }
    r := Ok(());
    if v.Some? {
      FieldPowers();
      ghost var t, w := b.Text(), b.Rest();
      ghost var h, l, x := [true] + ToBits(id, 4), ToBits(v.value.len, 11), ToBits(v.value.data, v.value.len);
      WriteType34HeaderGeneric(b, id);
      ghost var w1 := b.Rest();
      PutNumber(b, v.value.len, 11);
      WroteMore(b, t, w, h, w1, l);
      ghost var w2 := b.Rest();
      PutWide(b, v.value.data, v.value.len);
      WroteMore(b, t, w, h + l, w2, x);
    }
  }

  /** Up to 128 bits, written as a high and a low half when they do not fit 64. */
  method PutWide(b: BitBuffer, d: nat, n: nat)
    requires Ready(b, n) && n <= 128 && d < Pow2(n)
    modifies b`pos, b`end, b`buffer
    ensures Wrote(b, old(b.Text()), old(b.Rest()), ToBits(d, n))
  {
    hide AllBits, ToBits, Pow2, Shr;
    if n <= 64 {
      PutNumber(b, d, n);
    } else {
      Halves(d, n);
      PutNumber(b, Shr(d, 64), n - 64);
      ghost var mid := b.Rest();
      PutNumber(b, d % Pow2(64), 64);
      WroteMore(b, old(b.Text()), old(b.Rest()), ToBits(Shr(d, 64), n - 64), mid, ToBits(d % Pow2(64), 64));
    }
  }

  lemma Halves(d: nat, n: nat)
    requires 64 < n && d < Pow2(n)
    ensures Shr(d, 64) < Pow2(n - 64) && ToBits(d, n) == ToBits(Shr(d, 64), n - 64) + ToBits(d % Pow2(64), 64)
  {
    ShrBound(d, n, 64);
    ToBitsConcat(d, n - 64, 64);
    ToBitsLow(d, 64, 64);
  }

  lemma {:induction false} ShrBound(d: nat, n: nat, k: nat)
    requires k <= n && d < Pow2(n)
    ensures Shr(d, k) < Pow2(n - k)
  {
    if k > 0 {
      ShrBound(d / 2, n - 1, k - 1);
    }
  }

  method ParseType4Generic(obit: bool, b: BitBuffer, id: nat) returns (r: Result<Option<Generic4>>)
    requires b.Valid()
    modifies b`pos
    ensures b.Valid() && Parsed(b, old(b.pos), r, DecGeneric4(obit, old(b.Rest()), id))
  {
    hide AllBits, FromBits, DecHeader4;
    if !obit {
      return Ok(None);
    }
    var h := ParseType4Header(b, id);
    if h.Err? {
      return Err(h.error);
    }
    if h.value.None? {
      return Ok(None);
    }
    ghost var bits := old(b.Rest());
    HeaderIsInside(bits, id);
    assert b.Rest() == bits[22..];
    var (n, len) := h.value.value;
    var val := b.ReadBits(Min(len, 64));
    if val.None? {
      return Err(BufferEnded);
    }
    assert bits[22..][..Min(len, 64)] == bits[22..22 + Min(len, 64)];
    if len > 64 {
      var ok := b.TrySeekRel(len - 64);
      if !ok {
        return Err(BufferEnded);
      }
    }
    r := Ok(Some(Generic4(id, len, n, val.value)));
  }

  // ---------------------------------------------------------------- the whole tail

  ghost predicate AllPrintable<V>(fs: seq<Field<V>>, vs: seq<Val<V>>) {
    |fs| == |vs| && forall i :: 0 <= i < |fs| ==> Printable(fs[i], vs[i]) && (!fs[i].Type2? ==> fs[i].id < 16)
  }

  /** Write the o-bit and, if any field is present, all fields in order and the closing m-bit. */
  method WriteTail<V>(b: BitBuffer, fs: seq<Field<V>>, vs: seq<Val<V>>)
    requires AllPrintable(fs, vs)
    requires Ready(b, |PrintTail(fs, vs)|)
    modifies b`pos, b`end, b`buffer
    ensures Wrote(b, old(b.Text()), old(b.Rest()), PrintTail(fs, vs))
  {
    hide AllBits, EncFields, Printable;
    ghost var t, r, e := b.Text(), b.Rest(), EncFields(fs, vs);
    var obit := AnyPresent(vs);
    PutBit(b, obit);
    if !obit {
      return;
    }
    ghost var r1 := b.Rest();
    WriteFields(b, fs, vs);
    WroteMore(b, t, r, [true], r1, e);
    ghost var r2 := b.Rest();
    PutBit(b, false);
    WroteMore(b, t, r, [true] + e, r2, [false]);
    assert [true] + e + [false] == [true] + (e + [false]);
  }

  method WriteFields<V>(b: BitBuffer, fs: seq<Field<V>>, vs: seq<Val<V>>)
    requires AllPrintable(fs, vs)
    requires Ready(b, |EncFields(fs, vs)|)
    modifies b`pos, b`end, b`buffer
    ensures Wrote(b, old(b.Text()), old(b.Rest()), EncFields(fs, vs))
  {
    hide AllBits, EncFields, Printable, EncField, Wrote, RoomAfter, Room;
    EncFieldsDone(fs, vs);
    assert fs[0..] == fs && vs[0..] == vs;
    WroteNothing(b);
    ghost var done: seq<bool> := [];
    assert done + EncFields(fs, vs) == EncFields(fs, vs);
    for i := 0 to |fs|
      invariant Wrote(b, old(b.Text()), old(b.Rest()), done) && done + EncFields(fs[i..], vs[i..]) == EncFields(fs, vs)
    {
      EncFieldsStep(fs, vs, i);
      ghost var x := EncField(fs[i], vs[i]);
      LessRoom(b.autoexpand, old(b.Rest()), |EncFields(fs, vs)|, |done| + |x|);
      StillReady(b, old(b.Text()), old(b.Rest()), done, |x|);
      Resumed(b, old(b.Text()), old(b.Rest()), done);
      ghost var mid := b.Rest();
      WriteField(b, fs[i], vs[i]);
      WroteMore(b, old(b.Text()), old(b.Rest()), done, mid, x);
      assert done + x + EncFields(fs[i + 1..], vs[i + 1..]) == done + (x + EncFields(fs[i + 1..], vs[i + 1..]));
      done := done + x;
    }
    assert done + [] == done;
  }

  method WriteField<V>(b: BitBuffer, f: Field<V>, v: Val<V>)
    requires Ready(b, |EncField(f, v)|) && Printable(f, v) && (!f.Type2? ==> f.id < 16)
    modifies b`pos, b`end, b`buffer
    ensures Wrote(b, old(b.Text()), old(b.Rest()), EncField(f, v))
  {
    hide AllBits, EncType2, EncType3, EncType4, EncGeneric3, EncAll, Wrote, Pow2;
    match f
    case Type2(c) =>
      WriteType2Struct(true, b, Single(v), c);
    case Type3(id, c) =>
      var _ := WriteType3Struct(true, b, Single(v), id, c);
    case Type4(id, c) =>
      var _ := WriteType4Struct(true, b, ListOf(v), id, c);
    case Type3Generic(id) =>
      var _ := WriteType3Generic(true, b, Generic3Of(v), id);
    case Type4Generic(_) =>
      WroteNothing(b);
  }

  lemma EncFieldsDone<V>(fs: seq<Field<V>>, vs: seq<Val<V>>)
    requires |fs| == |vs|
    ensures EncFields(fs[|fs|..], vs[|fs|..]) == []
  {
  }

  lemma EncFieldsStep<V>(fs: seq<Field<V>>, vs: seq<Val<V>>, i: nat)
    requires i < |fs| == |vs|
    ensures EncFields(fs[i..], vs[i..]) == EncField(fs[i], vs[i]) + EncFields(fs[i + 1..], vs[i + 1..])
  {
    hide EncField;
    assert fs[i..][1..] == fs[i + 1..] && vs[i..][1..] == vs[i + 1..];
  }

  ghost predicate BoundedField<V(!new)>(f: Field<V>) {
    f.Type2? || f.Type3? || f.Type4? ==> Bounded(f.codec)
  }

  method ParseField<V(!new)>(b: BitBuffer, f: Field<V>, obit: bool) returns (r: Result<Val<V>>)
    requires b.Valid() && BoundedField(f)
    modifies b`pos
    ensures b.Valid() && Parsed(b, old(b.pos), r, DecField(f, obit, old(b.Rest())))
  {
    hide AllBits, DecType2, DecType3, DecType4, DecGeneric3, DecGeneric4, Bounded;
    match f
    case Type2(c) =>
      var v := ParseType2Struct(obit, b, c);
      r := if v.Ok? then Ok(Listed(v.value)) else Err(v.error);
    case Type3(id, c) =>
      var v := ParseType3Struct(obit, b, id, c);
      r := if v.Ok? then Ok(Listed(v.value)) else Err(v.error);
    case Type4(id, c) =>
      var v := ParseType4Struct(obit, b, id, c);
      r := if v.Ok? then Ok(FromList(v.value)) else Err(v.error);
    case Type3Generic(id) =>
      var v := ParseType3Generic(obit, b, id);
      r := if v.Ok? then Ok(FromGeneric3(v.value)) else Err(v.error);
    case Type4Generic(id) =>
      var v := ParseType4Generic(obit, b, id);
      r := if v.Ok? then Ok(FromGeneric4(v.value)) else Err(v.error);
  }

  /** Read the o-bit, the fields in order, and the closing m-bit, which must be 0. */
  method ReadTail<V(!new)>(b: BitBuffer, fs: seq<Field<V>>) returns (r: Result<seq<Val<V>>>)
    requires b.Valid() && forall i :: 0 <= i < |fs| ==> BoundedField(fs[i])
    modifies b`pos
    ensures b.Valid() && Parsed(b, old(b.pos), r, ParseTail(fs, old(b.Rest())))
  {
    hide AllBits, DecFields, FromBits;
    ghost var bits := b.Rest();
    var o := b.ReadBits(1);
    if o.None? {
      return Err(BufferEnded);
    }
    OneBitRead(bits);
    assert b.Rest() == bits[1..];
    ghost var d := DecFields(fs, bits[0], bits[1..]);
    var vs := ReadFields(b, fs, o.value == 1);
    if vs.Err? {
      return Err(vs.error);
    }
    if o.value == 1 {
      assert b.Rest() == bits[1 + d.value.1..];
      var m := b.ReadBits(1);
      if m.None? {
        return Err(BufferEnded);
      }
      OneBitRead(bits[1 + d.value.1..]);
      if m.value == 1 {
        return Err(InvalidTrailingMbit);
      }
    }
    r := Ok(vs.value);
  }

  method ReadFields<V(!new)>(b: BitBuffer, fs: seq<Field<V>>, obit: bool) returns (r: Result<seq<Val<V>>>)
    requires b.Valid() && forall i :: 0 <= i < |fs| ==> BoundedField(fs[i])
    modifies b`pos
    ensures b.Valid() && Parsed(b, old(b.pos), r, DecFields(fs, obit, old(b.Rest())))
  {
    hide AllBits, DecFields, DecField, BoundedField;
    ghost var total := DecFields(fs, obit, b.Rest());
    var vs: seq<Val<V>> := [];
    ghost var k := 0;
    assert fs[0..] == fs;
    assert total.Ok? ==> vs + total.value.0 == total.value.0;
    for i := 0 to |fs|
      invariant b.Valid() && b.pos == old(b.pos) + k
      invariant var t := DecFields(fs[i..], obit, b.Rest());
                if t.Err? then total == Err(t.error) else total == Ok((vs + t.value.0, k + t.value.1))
    {
      ghost var rest := b.Rest();
      DecFieldsStep(fs, obit, rest, i);
      var v := ParseField(b, fs[i], obit);
      if v.Err? {
        return Err(v.error);
      }
      ghost var c := DecField(fs[i], obit, rest).value.1;
      assert b.Rest() == rest[c..];
      ghost var t := DecFields(fs[i + 1..], obit, b.Rest());
      assert t.Ok? ==> vs + ([v.value] + t.value.0) == vs + [v.value] + t.value.0;
      k := k + c;
      vs := vs + [v.value];
    }
    DecFieldsDone(fs, obit, b.Rest());
    assert vs + [] == vs;
    r := Ok(vs);
  }

  lemma DecFieldsDone<V>(fs: seq<Field<V>>, obit: bool, bits: seq<bool>)
    ensures DecFields(fs[|fs|..], obit, bits) == Ok(([], 0))
  {
  }

  lemma DecFieldsStep<V>(fs: seq<Field<V>>, obit: bool, bits: seq<bool>, i: nat)
    requires i < |fs|
    ensures match DecField(fs[i], obit, bits) {
              case Err(e) => DecFields(fs[i..], obit, bits) == Err(e)
              case Ok((v, k)) =>
                k <= |bits| ==>
                  match DecFields(fs[i + 1..], obit, bits[k..]) {
                    case Err(e) => DecFields(fs[i..], obit, bits) == Err(e)
                    case Ok((vs, m)) => DecFields(fs[i..], obit, bits) == Ok(([v] + vs, k + m))
                  }
            }
  {
    hide DecField;
    assert fs[i..][1..] == fs[i + 1..];
  }
}
