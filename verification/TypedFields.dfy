/** The optional tail of a layer-3 PDU (annex E of ETSI EN 300 392-2) on plain bit sequences:
    what the writers produce, what the parsers accept, and that the parsers undo the writers. */
module TypedFields {
  import opened Wrappers
  import opened Bits
  import opened BitBuffers

  /** Other stands for the errors that only the parser of a single element gives. */
  datatype Error =
    | BufferEnded
    | InconsistentLength(expected: nat, found: nat)
    | InvalidValue
    | InvalidTrailingMbit
    | Other(kind: nat)

  datatype Result<+T> = Ok(value: T) | Err(error: Error)

  /** An element codec: what its writer appends, and what its parser makes of the bits that are
      left, a value with the number of bits it consumes or an error of its own. `fits` are the
      values the writer is meant for. */
  datatype Codec<!V> = Codec(enc: V -> seq<bool>, dec: seq<bool> -> Result<(V, nat)>, fits: V -> bool)

  /** The parser undoes the writer, whatever follows. */
  ghost predicate Undoes<V(!new)>(c: Codec<V>) {
    forall v, rest :: c.fits(v) ==> c.dec(c.enc(v) + rest) == Ok((v, |c.enc(v)|))
  }

  /** The parser stays inside the window. */
  ghost predicate Bounded<V(!new)>(c: Codec<V>) {
    forall b :: c.dec(b).Ok? ==> c.dec(b).value.1 <= |b|
  }

  /** A number of n bits. */
  function Number(n: nat): Codec<nat> {
    Codec(
      v => ToBits(v, n),
      b => if |b| < n then Err(BufferEnded) else Ok((FromBits(b[..n]), n)),
      v => v < Pow2(n))
  }

  lemma NumberUndoes(n: nat)
    ensures Undoes(Number(n)) && Bounded(Number(n))
  {
    hide ToBits, FromBits, Pow2;
    var c := Number(n);
    forall v: nat, rest | c.fits(v) ensures c.dec(c.enc(v) + rest) == Ok((v, |c.enc(v)|)) {
      assert (c.enc(v) + rest)[..n] == ToBits(v, n);
      FromBitsToBits(v, n);
    }
  }

  // ---------------------------------------------------------------- type 2

  function EncType2<V>(obit: bool, v: Option<V>, c: Codec<V>): seq<bool> {
    if !obit then [] else if v.None? then [false] else [true] + c.enc(v.value)
  }

  /** The value, if present, and the number of bits consumed. */
  function DecType2<V>(obit: bool, bits: seq<bool>, c: Codec<V>): Result<(Option<V>, nat)> {
    if !obit then Ok((None, 0))
    else if bits == [] then Err(BufferEnded)
    else if !bits[0] then Ok((None, 1))
    else
      match c.dec(bits[1..])
      case Err(e) => Err(e)
      case Ok((v, k)) => Ok((Some(v), 1 + k))
  }

  lemma Type2RoundTrip<V(!new)>(v: Option<V>, c: Codec<V>, rest: seq<bool>)
    requires Undoes(c) && (v.Some? ==> c.fits(v.value))
    ensures DecType2(true, EncType2(true, v, c) + rest, c) == Ok((v, |EncType2(true, v, c)|))
  {
    var e := EncType2(true, v, c);
    if v.Some? {
      assert (e + rest)[1..] == c.enc(v.value) + rest;
    }
  }

  // ---------------------------------------------------------------- type 3 and 4 headers

  /** Whether the next element is the one with this identifier; nothing is consumed. */
  function PeekId(bits: seq<bool>, id: nat): Result<bool> {
    if bits == [] then Err(BufferEnded)
    else if !bits[0] then Ok(false)
    else if |bits| < 5 then Err(BufferEnded)
    else Ok(FromBits(bits[1..5]) == id)
  }

  /** m-bit, identifier and length indicator. */
  function Header(id: nat, len: nat): (h: seq<bool>)
    ensures |h| == 16
  {
    [true] + ToBits(id, 4) + ToBits(len, 11)
  }

  lemma HeaderRead(id: nat, len: nat, rest: seq<bool>)
    requires id < 16 && len < 2048
    ensures var b := Header(id, len) + rest;
            && b[0] && FromBits(b[1..5]) == id && FromBits(b[5..16]) == len && b[16..] == rest
            && forall other :: PeekId(b, other) == Ok(id == other)
  {
    hide ToBits, FromBits;
    var b := Header(id, len) + rest;
    assert b[1..5] == ToBits(id, 4) && b[5..16] == ToBits(len, 11) && b[16..] == rest;
    FieldPowers();
    FromBitsToBits(id, 4);
    FromBitsToBits(len, 11);
  }

  lemma FieldPowers()
    ensures Pow2(4) == 16 && Pow2(6) == 64 && Pow2(11) == 2048
  {
    SmallPowers();
    assert Pow2(9) == 512;
    assert Pow2(10) == 1024;
  }

  // ---------------------------------------------------------------- type 3

  function EncType3<V>(v: Option<V>, id: nat, c: Codec<V>): seq<bool> {
    if v.None? then [] else Header(id, |c.enc(v.value)|) + c.enc(v.value)
  }

  function DecType3<V>(obit: bool, bits: seq<bool>, id: nat, c: Codec<V>): Result<(Option<V>, nat)> {
    if !obit then Ok((None, 0))
    else
      match PeekId(bits, id)
      case Err(e) => Err(e)
      case Ok(false) => Ok((None, 0))
      case Ok(true) =>
        if |bits| < 16 then Err(BufferEnded)
        else
          var len := FromBits(bits[5..16]);
          match c.dec(bits[16..])
          case Err(e) => Err(e)
          case Ok((v, k)) => if k == len then Ok((Some(v), 16 + k)) else Err(InconsistentLength(len, k))
  }

  lemma Type3RoundTrip<V(!new)>(v: V, id: nat, c: Codec<V>, rest: seq<bool>)
    requires Undoes(c) && c.fits(v) && |c.enc(v)| < 2048 && id < 16
    ensures DecType3(true, EncType3(Some(v), id, c) + rest, id, c) == Ok((Some(v), |EncType3(Some(v), id, c)|))
  {
    hide Header, FromBits, PeekId;
    var p := c.enc(v);
    HeaderRead(id, |p|, p + rest);
    assert EncType3(Some(v), id, c) + rest == Header(id, |p|) + (p + rest);
  }

  // ---------------------------------------------------------------- type 4

  function EncAll<V>(vs: seq<V>, c: Codec<V>): seq<bool> {
    if vs == [] then [] else c.enc(vs[0]) + EncAll(vs[1..], c)
  }

  function DecAll<V>(bits: seq<bool>, c: Codec<V>, n: nat): Result<(seq<V>, nat)> {
    if n == 0 then Ok(([], 0))
    else
      match c.dec(bits)
      case Err(e) => Err(e)
      case Ok((v, k)) =>
        if k > |bits| then Err(BufferEnded)
        else
          match DecAll(bits[k..], c, n - 1)
          case Err(e) => Err(e)
          case Ok((vs, m)) => Ok(([v] + vs, k + m))
  }

  lemma {:induction false} AllRoundTrip<V(!new)>(vs: seq<V>, c: Codec<V>, rest: seq<bool>)
    requires Undoes(c) && forall i :: 0 <= i < |vs| ==> c.fits(vs[i])
    ensures DecAll(EncAll(vs, c) + rest, c, |vs|) == Ok((vs, |EncAll(vs, c)|))
  {
    if vs != [] {
      var e, t := c.enc(vs[0]), EncAll(vs[1..], c) + rest;
      assert EncAll(vs, c) + rest == e + t;
      assert c.dec(e + t) == Ok((vs[0], |e|));
      assert (e + t)[|e|..] == t;
      AllRoundTrip(vs[1..], c, rest);
      assert [vs[0]] + vs[1..] == vs;
    }
  }

  function EncType4<V>(v: Option<seq<V>>, id: nat, c: Codec<V>): seq<bool> {
    if v.None? then []
    else
      var p := EncAll(v.value, c);
      Header(id, 6 + |p|) + (ToBits(|v.value|, 6) + p)
  }

  /** Element count and payload length, for a present element. */
  function DecHeader4(bits: seq<bool>, id: nat): Result<Option<(nat, nat)>> {
    match PeekId(bits, id)
    case Err(e) => Err(e)
    case Ok(false) => Ok(None)
    case Ok(true) =>
      if |bits| < 22 then Err(BufferEnded)
      else
        var len := FromBits(bits[5..16]);
        if len < 6 then Err(InconsistentLength(6, len))
        else if len - 6 > |bits| - 22 then Err(BufferEnded)
        else Ok(Some((FromBits(bits[16..22]), len - 6)))
  }

  lemma HeaderIsInside(bits: seq<bool>, id: nat)
    ensures DecHeader4(bits, id).Ok? && DecHeader4(bits, id).value.Some?
            ==> 22 + DecHeader4(bits, id).value.value.1 <= |bits|
  {
    hide FromBits, PeekId;
  }

  function DecType4<V>(obit: bool, bits: seq<bool>, id: nat, c: Codec<V>): Result<(Option<seq<V>>, nat)> {
    if !obit then Ok((None, 0))
    else
      match DecHeader4(bits, id)
      case Err(e) => Err(e)
      case Ok(None) => Ok((None, 0))
      case Ok(Some((n, len))) =>
        HeaderIsInside(bits, id);
        match DecAll(bits[22..], c, n)
        case Err(e) => Err(e)
        case Ok((vs, k)) => if k == len then Ok((Some(vs), 22 + k)) else Err(InconsistentLength(len, k))
  }

  lemma Type4RoundTrip<V(!new)>(vs: seq<V>, id: nat, c: Codec<V>, rest: seq<bool>)
    requires Undoes(c) && (forall i :: 0 <= i < |vs| ==> c.fits(vs[i]))
    requires id < 16 && |vs| < 64 && 6 + |EncAll(vs, c)| < 2048
    ensures DecType4(true, EncType4(Some(vs), id, c) + rest, id, c) == Ok((Some(vs), |EncType4(Some(vs), id, c)|))
  {
    hide Header, FromBits, ToBits, PeekId, EncAll, DecAll;
    var p, n := EncAll(vs, c), ToBits(|vs|, 6);
    var b := EncType4(Some(vs), id, c) + rest;
    HeaderRead(id, 6 + |p|, n + p + rest);
    assert b == Header(id, 6 + |p|) + (n + p + rest);
    assert b[16..22] == b[16..][..6] == n;
    assert b[22..] == b[16..][6..] == p + rest;
    FieldPowers();
    FromBitsToBits(|vs|, 6);
    AllRoundTrip(vs, c, rest);
  }

  // ---------------------------------------------------------------- uninterpreted elements

  datatype Generic3 = Generic3(id: nat, len: nat, data: nat)
  datatype Generic4 = Generic4(id: nat, len: nat, elems: nat, data: nat)

  function EncGeneric3(v: Option<Generic3>, id: nat): seq<bool> {
    if v.None? then [] else Header(id, v.value.len) + ToBits(v.value.data, v.value.len)
  }

  /** An element taken as opaque bits: the first 128 are kept, the rest is skipped. */
  function DecGeneric3(obit: bool, bits: seq<bool>, id: nat): Result<(Option<Generic3>, nat)> {
    if !obit then Ok((None, 0))
    else
      match PeekId(bits, id)
      case Err(e) => Err(e)
      case Ok(false) => Ok((None, 0))
      case Ok(true) =>
        if |bits| < 16 then Err(BufferEnded)
        else
          var len := FromBits(bits[5..16]);
          if len > |bits| - 16 then Err(BufferEnded)
          else Ok((Some(Generic3(id, len, FromBits(bits[16..16 + Min(len, 128)]))), 16 + len))
  }

  lemma Generic3RoundTrip(v: Generic3, rest: seq<bool>)
    requires v.id < 16 && v.len <= 128 && v.data < Pow2(v.len)
    ensures DecGeneric3(true, EncGeneric3(Some(v), v.id) + rest, v.id) == Ok((Some(v), 16 + v.len))
  {
    hide Header, FromBits, ToBits, PeekId, Pow2;
    var p := ToBits(v.data, v.len);
    var b := EncGeneric3(Some(v), v.id) + rest;
    HeaderRead(v.id, v.len, p + rest);
    assert b == Header(v.id, v.len) + (p + rest);
    assert b[16..16 + v.len] == b[16..][..v.len] == p;
    FromBitsToBits(v.data, v.len);
  }

  function DecGeneric4(obit: bool, bits: seq<bool>, id: nat): Result<(Option<Generic4>, nat)> {
    if !obit then Ok((None, 0))
    else
      match DecHeader4(bits, id)
      case Err(e) => Err(e)
      case Ok(None) => Ok((None, 0))
      case Ok(Some((n, len))) =>
        HeaderIsInside(bits, id);
        Ok((Some(Generic4(id, len, n, FromBits(bits[22..22 + Min(len, 64)]))), 22 + len))
  }

  /** What a reader that takes the element for opaque bits sees of a coded one: its length, and the
      number of its first bits. */
  function Opaque3<V>(id: nat, v: V, c: Codec<V>): Generic3 {
    var p := c.enc(v);
    Generic3(id, |p|, FromBits(p[..Min(|p|, 128)]))
  }

  function Opaque4<V>(id: nat, vs: seq<V>, c: Codec<V>): Generic4 {
    var p := EncAll(vs, c);
    Generic4(id, |p|, |vs|, FromBits(p[..Min(|p|, 64)]))
  }

  /** Read opaquely, every type 3 element is consumed whole, beyond the 128 bits kept too. */
  lemma Type3ReadOpaquely<V>(v: V, id: nat, c: Codec<V>, rest: seq<bool>)
    requires id < 16 && |c.enc(v)| < 2048
    ensures DecGeneric3(true, EncType3(Some(v), id, c) + rest, id)
         == Ok((Some(Opaque3(id, v, c)), |EncType3(Some(v), id, c)|))
  {
    hide Header, FromBits, PeekId;
    var p := c.enc(v);
    var b := EncType3(Some(v), id, c) + rest;
    HeaderRead(id, |p|, p + rest);
    assert b == Header(id, |p|) + (p + rest);
    assert b[16..16 + Min(|p|, 128)] == b[16..][..Min(|p|, 128)] == p[..Min(|p|, 128)];
  }

  /** Read opaquely, every type 4 element is consumed whole, with its count, beyond the 64 bits kept
      too. */
  lemma Type4ReadOpaquely<V>(vs: seq<V>, id: nat, c: Codec<V>, rest: seq<bool>)
    requires id < 16 && |vs| < 64 && 6 + |EncAll(vs, c)| < 2048
    ensures DecGeneric4(true, EncType4(Some(vs), id, c) + rest, id)
         == Ok((Some(Opaque4(id, vs, c)), |EncType4(Some(vs), id, c)|))
  {
    hide Header, FromBits, ToBits, PeekId, EncAll;
    var p, n := EncAll(vs, c), ToBits(|vs|, 6);
    var b := EncType4(Some(vs), id, c) + rest;
    HeaderRead(id, 6 + |p|, n + p + rest);
    assert b == Header(id, 6 + |p|) + (n + p + rest);
    assert b[16..22] == b[16..][..6] == n;
    assert b[22..22 + Min(|p|, 64)] == b[16..][6..][..Min(|p|, 64)] == p[..Min(|p|, 64)];
    FieldPowers();
    FromBitsToBits(|vs|, 6);
  }

  // ---------------------------------------------------------------- the whole tail

  /** The kinds of fields: with a codec, or of opaque bits. */
  datatype Field<!V> =
    | Type2(codec: Codec<V>)
    | Type3(id: nat, codec: Codec<V>)
    | Type4(id: nat, codec: Codec<V>)
    | Type3Generic(id: nat)
    | Type4Generic(id: nat)

  /** The optional value of a field; a type 2 or type 3 field with a codec has one element. */
  datatype Val<V> = Absent | Elements(list: seq<V>) | Generic3Value(elem3: Generic3) | Generic4Value(elem4: Generic4)

  function Single<V>(v: Val<V>): Option<V> {
    if v.Elements? && v.list != [] then Some(v.list[0]) else None
  }

  function Listed<V>(v: Option<V>): Val<V> {
    if v.None? then Absent else Elements([v.value])
  }

  function ListOf<V>(v: Val<V>): Option<seq<V>> {
    if v.Elements? then Some(v.list) else None
  }

  function FromList<V>(v: Option<seq<V>>): Val<V> {
    if v.None? then Absent else Elements(v.value)
  }

  function Generic3Of<V>(v: Val<V>): Option<Generic3> {
    if v.Generic3Value? then Some(v.elem3) else None
  }

  function FromGeneric3<V>(v: Option<Generic3>): Val<V> {
    if v.None? then Absent else Generic3Value(v.value)
  }

  function FromGeneric4<V>(v: Option<Generic4>): Val<V> {
    if v.None? then Absent else Generic4Value(v.value)
  }

  /** There is no writer for a present type 4 field of opaque bits. */
  function EncField<V>(f: Field<V>, v: Val<V>): seq<bool> {
    match f
    case Type2(c) => EncType2(true, Single(v), c)
    case Type3(id, c) => EncType3(Single(v), id, c)
    case Type4(id, c) => EncType4(ListOf(v), id, c)
    case Type3Generic(id) => EncGeneric3(Generic3Of(v), id)
    case Type4Generic(_) => []
  }

  function DecField<V>(f: Field<V>, obit: bool, bits: seq<bool>): Result<(Val<V>, nat)> {
    match f
    case Type2(c) =>
      (match DecType2(obit, bits, c) case Err(e) => Err(e) case Ok((v, k)) => Ok((Listed(v), k)))
    case Type3(id, c) =>
      (match DecType3(obit, bits, id, c) case Err(e) => Err(e) case Ok((v, k)) => Ok((Listed(v), k)))
    case Type4(id, c) =>
      (match DecType4(obit, bits, id, c) case Err(e) => Err(e) case Ok((v, k)) => Ok((FromList(v), k)))
    case Type3Generic(id) =>
      (match DecGeneric3(obit, bits, id) case Err(e) => Err(e) case Ok((v, k)) => Ok((FromGeneric3(v), k)))
    case Type4Generic(id) =>
      (match DecGeneric4(obit, bits, id) case Err(e) => Err(e) case Ok((v, k)) => Ok((FromGeneric4(v), k)))
  }

  function EncFields<V>(fs: seq<Field<V>>, vs: seq<Val<V>>): seq<bool>
    requires |fs| == |vs|
  {
    if fs == [] then [] else EncField(fs[0], vs[0]) + EncFields(fs[1..], vs[1..])
  }

  function DecFields<V>(fs: seq<Field<V>>, obit: bool, bits: seq<bool>): Result<(seq<Val<V>>, nat)> {
    if fs == [] then Ok(([], 0))
    else
      match DecField(fs[0], obit, bits)
      case Err(e) => Err(e)
      case Ok((v, k)) =>
        if k > |bits| then Err(BufferEnded)
        else
          match DecFields(fs[1..], obit, bits[k..])
          case Err(e) => Err(e)
          case Ok((vs, m)) => Ok(([v] + vs, k + m))
  }

  predicate AnyPresent<V>(vs: seq<Val<V>>) {
    exists i :: 0 <= i < |vs| && !vs[i].Absent?
  }

  /** o-bit; if set, the fields in order and a closing m-bit 0. */
  function PrintTail<V>(fs: seq<Field<V>>, vs: seq<Val<V>>): seq<bool>
    requires |fs| == |vs|
  {
    if AnyPresent(vs) then [true] + (EncFields(fs, vs) + [false]) else [false]
  }

  function ParseTail<V>(fs: seq<Field<V>>, bits: seq<bool>): Result<(seq<Val<V>>, nat)> {
    if bits == [] then Err(BufferEnded)
    else
      match DecFields(fs, bits[0], bits[1..])
      case Err(e) => Err(e)
      case Ok((vs, k)) =>
        if !bits[0] then Ok((vs, 1 + k))
        else if |bits| <= 1 + k then Err(BufferEnded)
        else if bits[1 + k] then Err(InvalidTrailingMbit)
        else Ok((vs, 2 + k))
  }

  /** The codec undoes itself and the identifier has 4 bits. */
  ghost predicate Sound<V(!new)>(f: Field<V>) {
    && (f.Type2? || f.id < 16)
    && (f.Type2? || f.Type3? || f.Type4? ==> Undoes(f.codec))
  }

  /** Type 2 fields come first; type 3 and 4 fields have different identifiers. */
  ghost predicate WellFormed<V(!new)>(fs: seq<Field<V>>) {
    && (forall i :: 0 <= i < |fs| ==> Sound(fs[i]))
    && (forall i, j :: 0 <= i < j < |fs| && !fs[i].Type2? ==> !fs[j].Type2? && fs[i].id != fs[j].id)
  }

  /** The value can be written: of the field's kind, within the 11-bit length and the 6-bit count,
      opaque bits within the 128 bits of the writer. */
  predicate Printable<V>(f: Field<V>, v: Val<V>) {
    !v.Absent? ==>
      match f
      case Type2(_) => v.Elements? && |v.list| == 1
      case Type3(_, c) => v.Elements? && |v.list| == 1 && |c.enc(v.list[0])| < 2048
      case Type4(_, c) => v.Elements? && |v.list| < 64 && 6 + |EncAll(v.list, c)| < 2048
      case Type3Generic(_) => v.Generic3Value? && v.elem3.len <= 128 && v.elem3.data < Pow2(v.elem3.len)
      case Type4Generic(_) => false
  }

  /** Moreover, its elements are those the codec is meant for, and opaque bits carry the field's
      own identifier: the writer ignores theirs. */
  predicate FitsField<V>(f: Field<V>, v: Val<V>) {
    && Printable(f, v)
    && (v.Elements? && !f.Type3Generic? && !f.Type4Generic? ==>
          forall i :: 0 <= i < |v.list| ==> f.codec.fits(v.list[i]))
    && (v.Generic3Value? && f.Type3Generic? ==> v.elem3.id == f.id)
  }

  predicate Fits<V>(fs: seq<Field<V>>, vs: seq<Val<V>>) {
    |fs| == |vs| && forall i :: 0 <= i < |fs| ==> FitsField(fs[i], vs[i])
  }

  /** The field as its reader knows it: with its codec, or as opaque bits. */
  function ReadAs<V>(f: Field<V>, opaquely: bool): Field<V> {
    if opaquely && f.Type3? then Type3Generic(f.id)
    else if opaquely && f.Type4? then Type4Generic(f.id)
    else f
  }

  /** What that reader sees of a value. */
  function SeenAs<V>(f: Field<V>, opaquely: bool, v: Val<V>): Val<V> {
    if !opaquely || !v.Elements? then v
    else if f.Type3? && v.list != [] then Generic3Value(Opaque3(f.id, v.list[0], f.codec))
    else if f.Type4? then Generic4Value(Opaque4(f.id, v.list, f.codec))
    else v
  }

  function AllReadAs<V>(fs: seq<Field<V>>, o: seq<bool>): (r: seq<Field<V>>)
    requires |o| == |fs|
    ensures |r| == |fs| && forall i :: 0 <= i < |fs| ==> r[i] == ReadAs(fs[i], o[i])
  {
    seq(|fs|, i requires 0 <= i < |fs| => ReadAs(fs[i], o[i]))
  }

  function AllSeenAs<V>(fs: seq<Field<V>>, o: seq<bool>, vs: seq<Val<V>>): (r: seq<Val<V>>)
    requires |o| == |fs| == |vs|
    ensures |r| == |fs| && forall i :: 0 <= i < |fs| ==> r[i] == SeenAs(fs[i], o[i], vs[i])
  {
    seq(|fs|, i requires 0 <= i < |fs| => SeenAs(fs[i], o[i], vs[i]))
  }

  /** A present field is read back as its reader sees it, and so is a type 2 field that is absent. */
  lemma FieldRead<V(!new)>(f: Field<V>, opaquely: bool, v: Val<V>, rest: seq<bool>)
    requires Sound(f) && FitsField(f, v) && (f.Type2? || !v.Absent?)
    ensures DecField(ReadAs(f, opaquely), true, EncField(f, v) + rest) == Ok((SeenAs(f, opaquely, v), |EncField(f, v)|))
  {
    hide EncType3, EncType4, DecGeneric3, DecGeneric4, EncAll, Opaque3, Opaque4, EncField;
    if opaquely && f.Type3? {
      Type3ReadOpaquely(v.list[0], f.id, f.codec, rest);
      EncFieldIs(f, v);
    } else if opaquely && f.Type4? {
      Type4ReadOpaquely(v.list, f.id, f.codec, rest);
      EncFieldIs(f, v);
    } else {
      FieldRoundTrip(f, v, rest);
    }
  }

  lemma EncFieldIs<V>(f: Field<V>, v: Val<V>)
    requires v.Elements?
    ensures f.Type3? && v.list != [] ==> EncField(f, v) == EncType3(Some(v.list[0]), f.id, f.codec)
    ensures f.Type4? ==> EncField(f, v) == EncType4(Some(v.list), f.id, f.codec)
  {
  }

  /** A present field is parsed back, and so is a type 2 field that is absent. */
  lemma FieldRoundTrip<V(!new)>(f: Field<V>, v: Val<V>, rest: seq<bool>)
    requires Sound(f) && FitsField(f, v) && (f.Type2? || !v.Absent?)
    ensures DecField(f, true, EncField(f, v) + rest) == Ok((v, |EncField(f, v)|))
  {
    hide EncType2, DecType2, EncType3, DecType3, EncType4, DecType4, DecGeneric3, EncAll, Undoes, ToBits, Pow2, Header;
    assert v.Elements? && |v.list| == 1 ==> v.list == [v.list[0]];
    match f
    case Type2(c) => Type2RoundTrip(Single(v), c, rest);
    case Type3(id, c) => Type3RoundTrip(v.list[0], id, c, rest);
    case Type4(id, c) => Type4RoundTrip(v.list, id, c, rest);
    case Type3Generic(_) => Generic3RoundTrip(v.elem3, rest);
    case Type4Generic(_) =>
  }

  /** What follows an absent type 3 or 4 field cannot be taken for it: it is another field with
      another identifier or the closing m-bit. */
  lemma {:induction false} NotMine<V(!new)>(fs: seq<Field<V>>, vs: seq<Val<V>>, id: nat, rest: seq<bool>)
    requires WellFormed(fs) && Fits(fs, vs) && forall i :: 0 <= i < |fs| ==> !fs[i].Type2? && fs[i].id != id
    ensures PeekId(EncFields(fs, vs) + [false] + rest, id) == Ok(false)
  {
    hide EncAll, Undoes, FromBits, ToBits, PeekId;
    if fs == [] {
      ClosingMbit(rest, id);
      assert EncFields(fs, vs) + [false] + rest == [false] + rest;
    } else if vs[0].Absent? {
      NotMine(fs[1..], vs[1..], id, rest);
      assert EncFields(fs, vs) == EncFields(fs[1..], vs[1..]);
    } else {
      PresentField(fs[0], vs[0], EncFields(fs[1..], vs[1..]) + [false] + rest, id);
      assert EncFields(fs, vs) + [false] + rest
        == EncField(fs[0], vs[0]) + (EncFields(fs[1..], vs[1..]) + [false] + rest);
    }
  }

  lemma ClosingMbit(rest: seq<bool>, id: nat)
    ensures PeekId([false] + rest, id) == Ok(false)
  {
  }

  lemma PresentField<V>(f: Field<V>, v: Val<V>, rest: seq<bool>, id: nat)
    requires !f.Type2? && !v.Absent? && FitsField(f, v) && f.id < 16 && f.id != id
    ensures PeekId(EncField(f, v) + rest, id) == Ok(false)
  {
    hide EncAll, FromBits, ToBits, PeekId, Header, Pow2;
    match f
    case Type3(_, c) =>
      var p := c.enc(v.list[0]);
      HeaderRead(f.id, |p|, p + rest);
      assert EncField(f, v) + rest == Header(f.id, |p|) + (p + rest);
    case Type4(_, c) =>
      var p := EncAll(v.list, c);
      var q := ToBits(|v.list|, 6) + p;
      HeaderRead(f.id, 6 + |p|, q + rest);
      assert EncField(f, v) + rest == Header(f.id, 6 + |p|) + (q + rest);
    case Type3Generic(_) =>
      var p := ToBits(v.elem3.data, v.elem3.len);
      HeaderRead(f.id, v.elem3.len, p + rest);
      assert EncField(f, v) + rest == Header(f.id, v.elem3.len) + (p + rest);
    case Type4Generic(_) =>
  }

  lemma {:induction false} FieldsRead<V(!new)>(fs: seq<Field<V>>, o: seq<bool>, vs: seq<Val<V>>, rest: seq<bool>)
    requires WellFormed(fs) && Fits(fs, vs) && |o| == |fs|
    ensures DecFields(AllReadAs(fs, o), true, EncFields(fs, vs) + [false] + rest)
         == Ok((AllSeenAs(fs, o, vs), |EncFields(fs, vs)|))
  {
    hide EncField, DecField, Undoes, FitsField, ReadAs, SeenAs;
    if fs != [] {
      var e, t := EncField(fs[0], vs[0]), EncFields(fs[1..], vs[1..]) + [false] + rest;
      FirstField(fs, o[0], vs, rest);
      FieldsRead(fs[1..], o[1..], vs[1..], rest);
      assert EncFields(fs, vs) + [false] + rest == e + t;
      assert (e + t)[|e|..] == t;
      assert AllReadAs(fs, o)[1..] == AllReadAs(fs[1..], o[1..]);
      assert [SeenAs(fs[0], o[0], vs[0])] + AllSeenAs(fs[1..], o[1..], vs[1..]) == AllSeenAs(fs, o, vs);
    }
  }

  lemma FirstField<V(!new)>(fs: seq<Field<V>>, opaquely: bool, vs: seq<Val<V>>, rest: seq<bool>)
    requires fs != [] && WellFormed(fs) && Fits(fs, vs)
    ensures DecField(ReadAs(fs[0], opaquely), true,
                     EncField(fs[0], vs[0]) + (EncFields(fs[1..], vs[1..]) + [false] + rest))
         == Ok((SeenAs(fs[0], opaquely, vs[0]), |EncField(fs[0], vs[0])|))
  {
    hide Undoes, FitsField, EncFields, EncAll, PeekId, EncType2, DecType2, Opaque3, Opaque4;
    var t := EncFields(fs[1..], vs[1..]) + [false] + rest;
    if fs[0].Type2? || !vs[0].Absent? {
      FieldRead(fs[0], opaquely, vs[0], t);
    } else {
      NotMine(fs[1..], vs[1..], fs[0].id, rest);
      assert EncField(fs[0], vs[0]) + t == t;
    }
  }

  lemma {:induction false} NoneParsed<V>(fs: seq<Field<V>>, bits: seq<bool>)
    ensures DecFields(fs, false, bits).Ok? && DecFields(fs, false, bits).value.1 == 0
    ensures |DecFields(fs, false, bits).value.0| == |fs|
    ensures forall i :: 0 <= i < |fs| ==> DecFields(fs, false, bits).value.0[i] == Absent
  {
    hide DecField;
    if fs != [] {
      assert bits[0..] == bits;
      WithoutObit(fs[0], bits);
      NoneParsed(fs[1..], bits);
    }
  }

  lemma WithoutObit<V>(f: Field<V>, bits: seq<bool>)
    ensures DecField(f, false, bits) == Ok((Absent, 0))
  {
  }

  /** Every tail that can be written, read by a parser that knows only some of its codecs: the fields
      it takes for opaque bits are seen as such, every other field has its value, and exactly the
      tail's own bits are consumed, whatever follows. */
  lemma TailReadOpaquely<V(!new)>(fs: seq<Field<V>>, o: seq<bool>, vs: seq<Val<V>>, rest: seq<bool>)
    requires WellFormed(fs) && Fits(fs, vs) && |o| == |fs|
    ensures ParseTail(AllReadAs(fs, o), PrintTail(fs, vs) + rest) == Ok((AllSeenAs(fs, o, vs), |PrintTail(fs, vs)|))
  {
    hide WellFormed, FitsField, EncFields, DecFields, ReadAs;
    var b := PrintTail(fs, vs) + rest;
    if AnyPresent(vs) {
      var e := EncFields(fs, vs);
      assert b[1..] == e + [false] + rest;
      FieldsRead(fs, o, vs, rest);
    } else {
      assert b[1..] == rest;
      NoneParsed(AllReadAs(fs, o), rest);
      assert DecFields(AllReadAs(fs, o), false, rest).value.0 == AllSeenAs(fs, o, vs);
    }
  }

  /** Every tail that can be written is parsed back to the same values, whatever follows it, and
      exactly its own bits are consumed. */
  lemma TailRoundTrip<V(!new)>(fs: seq<Field<V>>, vs: seq<Val<V>>, rest: seq<bool>)
    requires WellFormed(fs) && Fits(fs, vs)
    ensures ParseTail(fs, PrintTail(fs, vs) + rest) == Ok((vs, |PrintTail(fs, vs)|))
  {
    hide WellFormed, FitsField, ParseTail, PrintTail;
    var o := seq(|fs|, _ => false);
    TailReadOpaquely(fs, o, vs, rest);
    assert AllReadAs(fs, o) == fs && AllSeenAs(fs, o, vs) == vs;
  }

  // ---------------------------------------------------------------- nothing else is accepted

  /** The parser accepts only what the writer writes. */
  ghost predicate Exact<V(!new)>(c: Codec<V>) {
    forall b :: c.dec(b).Ok? ==> var (v, k) := c.dec(b).value; k <= |b| && c.enc(v) == b[..k]
  }

  lemma NumberExact(n: nat)
    ensures Exact(Number(n))
  {
    hide ToBits, FromBits, Pow2;
    var c := Number(n);
    forall b | c.dec(b).Ok? ensures var (v, k) := c.dec(b).value; k <= |b| && c.enc(v) == b[..k] {
      ToBitsFromBits(b[..n]);
    }
  }

  lemma Type2Exact<V(!new)>(bits: seq<bool>, c: Codec<V>)
    requires Exact(c) && DecType2(true, bits, c).Ok?
    ensures var (v, k) := DecType2(true, bits, c).value; k <= |bits| && EncType2(true, v, c) == bits[..k]
  {
    if bits[0] {
      var (v, k) := c.dec(bits[1..]).value;
      assert c.enc(v) == bits[1..][..k];
      assert bits[..1 + k] == [true] + bits[1..][..k];
    }
  }

  /** An accepted header is the one the writer makes. */
  lemma HeaderExact(bits: seq<bool>, id: nat)
    requires |bits| >= 16 && PeekId(bits, id) == Ok(true)
    ensures Header(id, FromBits(bits[5..16])) == bits[..16]
  {
    hide ToBits, FromBits;
    ToBitsFromBits(bits[1..5]);
    ToBitsFromBits(bits[5..16]);
    assert bits[..16] == [bits[0]] + bits[1..5] + bits[5..16];
  }

  lemma Type3Exact<V(!new)>(bits: seq<bool>, id: nat, c: Codec<V>)
    requires Exact(c) && DecType3(true, bits, id, c).Ok?
    ensures var (v, k) := DecType3(true, bits, id, c).value; k <= |bits| && EncType3(v, id, c) == bits[..k]
  {
    hide Header, FromBits, PeekId;
    if PeekId(bits, id).value {
      HeaderExact(bits, id);
      var (v, k) := c.dec(bits[16..]).value;
      assert c.enc(v) == bits[16..][..k];
      NextPiece(bits, 16, k);
    }
  }

  lemma {:induction false} AllExact<V(!new)>(bits: seq<bool>, c: Codec<V>, n: nat)
    requires Exact(c) && DecAll(bits, c, n).Ok?
    ensures var (vs, k) := DecAll(bits, c, n).value; |vs| == n && k <= |bits| && EncAll(vs, c) == bits[..k]
  {
    if n > 0 {
      var (v, k) := c.dec(bits).value;
      AllExact(bits[k..], c, n - 1);
      var (vs, m) := DecAll(bits[k..], c, n - 1).value;
      assert ([v] + vs)[1..] == vs;
      NextPiece(bits, k, m);
    }
  }

  lemma Type4Exact<V(!new)>(bits: seq<bool>, id: nat, c: Codec<V>)
    requires Exact(c) && DecType4(true, bits, id, c).Ok?
    ensures var (v, k) := DecType4(true, bits, id, c).value; k <= |bits| && EncType4(v, id, c) == bits[..k]
  {
    hide Header, FromBits, ToBits, PeekId, EncAll, DecAll;
    var h := DecHeader4(bits, id).value;
    if h.Some? {
      HeaderExact(bits, id);
      AllExact(bits[22..], c, h.value.0);
      var (vs, k) := DecAll(bits[22..], c, h.value.0).value;
      ToBitsFromBits(bits[16..22]);
      assert bits[..22 + k] == bits[..16] + (bits[16..22] + bits[22..][..k]);
    }
  }

  lemma Generic3Exact(bits: seq<bool>, id: nat)
    requires DecGeneric3(true, bits, id).Ok?
    ensures var (v, k) := DecGeneric3(true, bits, id).value;
            k <= |bits| && (EncGeneric3(v, id) == bits[..k] || (v.Some? && v.value.len > 128))
  {
    hide Header, FromBits, ToBits, PeekId;
    if PeekId(bits, id).value {
      HeaderExact(bits, id);
      var len := FromBits(bits[5..16]);
      if len <= 128 {
        ToBitsFromBits(bits[16..16 + len]);
        assert bits[..16 + len] == bits[..16] + bits[16..16 + len];
      }
    }
  }

  ghost predicate ExactField<V(!new)>(f: Field<V>) {
    f.Type2? || f.Type3? || f.Type4? ==> Exact(f.codec)
  }

  /** Nothing of the element was cut off and there is a writer for it. */
  predicate Whole<V>(v: Val<V>) {
    !v.Generic4Value? && (v.Generic3Value? ==> v.elem3.len <= 128)
  }

  lemma FieldExact<V(!new)>(f: Field<V>, bits: seq<bool>)
    requires ExactField(f) && DecField(f, true, bits).Ok? && Whole(DecField(f, true, bits).value.0)
    ensures var (v, k) := DecField(f, true, bits).value; k <= |bits| && EncField(f, v) == bits[..k]
  {
    hide EncType2, DecType2, EncType3, DecType3, EncType4, DecType4, EncGeneric3, DecGeneric3, Exact, DecHeader4,
      FromBits;
    match f
    case Type2(c) => Type2Exact(bits, c);
    case Type3(id, c) => Type3Exact(bits, id, c);
    case Type4(id, c) => Type4Exact(bits, id, c);
    case Type3Generic(id) => Generic3Exact(bits, id);
    case Type4Generic(_) =>
  }

  lemma {:induction false} FieldsExact<V(!new)>(fs: seq<Field<V>>, bits: seq<bool>)
    requires (forall i :: 0 <= i < |fs| ==> ExactField(fs[i])) && DecFields(fs, true, bits).Ok?
    requires var vs := DecFields(fs, true, bits).value.0; forall i :: 0 <= i < |vs| ==> Whole(vs[i])
    ensures var (vs, k) := DecFields(fs, true, bits).value;
            |vs| == |fs| && k <= |bits| && EncFields(fs, vs) == bits[..k]
  {
    hide EncField, DecField, ExactField, Whole;
    if fs != [] {
      var (v, k) := DecField(fs[0], true, bits).value;
      var (vs, m) := DecFields(fs[1..], true, bits[k..]).value;
      assert DecFields(fs, true, bits).value.0 == [v] + vs;
      assert ([v] + vs)[0] == v && ([v] + vs)[1..] == vs;
      assert forall i :: 0 <= i < |vs| ==> vs[i] == ([v] + vs)[i + 1];
      FieldExact(fs[0], bits);
      FieldsExact(fs[1..], bits[k..]);
      NextPiece(bits, k, m);
    }
  }

  /** Whatever is accepted, with nothing cut off, is the tail that is written for the values found; only
      an o-bit that announces nothing is accepted besides. */
  lemma TailExact<V(!new)>(fs: seq<Field<V>>, bits: seq<bool>)
    requires (forall i :: 0 <= i < |fs| ==> ExactField(fs[i])) && ParseTail(fs, bits).Ok?
    requires var vs := ParseTail(fs, bits).value.0; forall i :: 0 <= i < |vs| ==> Whole(vs[i])
    ensures var (vs, k) := ParseTail(fs, bits).value;
            && |vs| == |fs| && k <= |bits|
            && (bits[0] <== AnyPresent(vs))
            && (bits[0] ==> bits[..k] == [true] + (EncFields(fs, vs) + [false]))
            && (bits[0] == AnyPresent(vs) ==> bits[..k] == PrintTail(fs, vs))
  {
    hide EncFields, DecFields, ExactField, Whole;
    var (vs, k) := DecFields(fs, bits[0], bits[1..]).value;
    if bits[0] {
      FieldsExact(fs, bits[1..]);
      assert bits[..2 + k] == [bits[0]] + (bits[1..][..k] + [bits[1 + k]]);
    } else {
      NoneParsed(fs, bits[1..]);
    }
  }

  // ---------------------------------------------------------------- refusals

  /** A type 3 or 4 element is taken for absent only where another one, or none, is announced. */
  lemma AbsentIsNotMine<V>(f: Field<V>, bits: seq<bool>)
    requires !f.Type2? && DecField(f, true, bits).Ok? && DecField(f, true, bits).value.0.Absent?
    ensures bits != [] && (bits[0] ==> |bits| >= 5 && FromBits(bits[1..5]) != f.id)
    ensures DecField(f, true, bits).value.1 == 0
  {
    hide FromBits, DecAll;
  }

  /** An announced element whose stated length does not fit is refused, for what reason: the length is
      cut off, a type 4 length leaves no room for the count, or it claims more than there is. */
  lemma LyingLength<V>(f: Field<V>, bits: seq<bool>)
    requires !f.Type2? && bits != [] && bits[0] && |bits| >= 5 && FromBits(bits[1..5]) == f.id
    ensures |bits| < 16 ==> DecField(f, true, bits) == Err(BufferEnded)
    ensures |bits| < 22 && (f.Type4? || f.Type4Generic?) ==> DecField(f, true, bits) == Err(BufferEnded)
    ensures |bits| >= 22 && (f.Type4? || f.Type4Generic?) ==>
              var len := FromBits(bits[5..16]);
              && (len < 6 ==> DecField(f, true, bits) == Err(InconsistentLength(6, len)))
              && (len - 6 > |bits| - 22 ==> DecField(f, true, bits) == Err(BufferEnded))
    ensures |bits| >= 16 && f.Type3Generic? ==>
              (FromBits(bits[5..16]) > |bits| - 16 ==> DecField(f, true, bits) == Err(BufferEnded))
  {
    hide FromBits, DecAll;
  }

  /** An element that does not fill its stated length exactly is refused, with both lengths. */
  lemma MismatchedLength<V>(bits: seq<bool>, id: nat, c: Codec<V>)
    requires |bits| >= 16 && PeekId(bits, id) == Ok(true)
    ensures var len, d := FromBits(bits[5..16]), c.dec(bits[16..]);
            d.Ok? && d.value.1 != len ==> DecType3(true, bits, id, c) == Err(InconsistentLength(len, d.value.1))
    ensures |bits| >= 22 && 6 <= FromBits(bits[5..16]) <= |bits| - 16 ==>
              var len, d := FromBits(bits[5..16]) - 6, DecAll(bits[22..], c, FromBits(bits[16..22]));
              d.Ok? && d.value.1 != len ==> DecType4(true, bits, id, c) == Err(InconsistentLength(len, d.value.1))
  {
    hide FromBits, DecAll, PeekId;
  }

  /** The parser of an element tells a cut-off encoding by the end of the buffer. */
  ghost predicate Notices<V(!new)>(c: Codec<V>) {
    forall v, n {:trigger c.enc(v)[..n]} ::
      c.fits(v) && 0 <= n < |c.enc(v)| ==> c.dec(c.enc(v)[..n]) == Err(BufferEnded)
  }

  lemma NumberNotices(n: nat)
    ensures Notices(Number(n))
  {
    hide ToBits, FromBits, Pow2;
  }

  ghost predicate NoticesField<V(!new)>(f: Field<V>) {
    f.Type2? || f.Type3? || f.Type4? ==> Notices(f.codec)
  }

  lemma Type2CutOff<V(!new)>(v: Option<V>, c: Codec<V>, n: nat)
    requires Notices(c) && (v.Some? ==> c.fits(v.value)) && n < |EncType2(true, v, c)|
    ensures DecType2(true, EncType2(true, v, c)[..n], c) == Err(BufferEnded)
  {
    var b := EncType2(true, v, c)[..n];
    if n > 0 {
      assert b[1..] == c.enc(v.value)[..n - 1];
    }
  }

  /** A header cut off before its length is complete, and one that is whole. */
  lemma HeaderCutOff(id: nat, len: nat, p: seq<bool>, n: nat)
    requires id < 16 && len < 2048 && n < 16 + |p|
    ensures var b := (Header(id, len) + p)[..n];
            && (n < 5 ==> PeekId(b, id) == Err(BufferEnded))
            && (n >= 5 ==> PeekId(b, id) == Ok(true))
            && (n >= 16 ==> FromBits(b[5..16]) == len && b[16..] == p[..n - 16])
  {
    hide FromBits, ToBits;
    var w := Header(id, len) + p;
    var b := w[..n];
    HeaderRead(id, len, p);
    if n >= 5 {
      assert b[1..5] == w[1..5];
    }
    if n >= 16 {
      assert b[5..16] == w[5..16];
      assert b[16..] == p[..n - 16];
    }
  }

  lemma Type3CutOff<V(!new)>(v: V, id: nat, c: Codec<V>, n: nat)
    requires Notices(c) && c.fits(v) && |c.enc(v)| < 2048 && id < 16 && n < |EncType3(Some(v), id, c)|
    ensures DecType3(true, EncType3(Some(v), id, c)[..n], id, c) == Err(BufferEnded)
  {
    hide Header, FromBits, PeekId;
    HeaderCutOff(id, |c.enc(v)|, c.enc(v), n);
  }

  lemma Type4CutOff<V(!new)>(vs: seq<V>, id: nat, c: Codec<V>, n: nat)
    requires |vs| < 64 && 6 + |EncAll(vs, c)| < 2048 && id < 16 && n < |EncType4(Some(vs), id, c)|
    ensures DecHeader4(EncType4(Some(vs), id, c)[..n], id) == Err(BufferEnded)
  {
    hide Header, FromBits, ToBits, PeekId, EncAll;
    HeaderCutOff(id, 6 + |EncAll(vs, c)|, ToBits(|vs|, 6) + EncAll(vs, c), n);
  }

  lemma Generic3CutOff(v: Generic3, n: nat)
    requires v.id < 16 && v.len <= 128 && n < |EncGeneric3(Some(v), v.id)|
    ensures DecGeneric3(true, EncGeneric3(Some(v), v.id)[..n], v.id) == Err(BufferEnded)
  {
    hide Header, FromBits, ToBits, PeekId;
    HeaderCutOff(v.id, v.len, ToBits(v.data, v.len), n);
  }

  lemma FieldCutOff<V(!new)>(f: Field<V>, v: Val<V>, n: nat)
    requires Sound(f) && NoticesField(f) && FitsField(f, v) && n < |EncField(f, v)|
    ensures DecField(f, true, EncField(f, v)[..n]) == Err(BufferEnded)
  {
    hide EncType2, DecType2, EncType3, DecType3, EncType4, DecHeader4, EncGeneric3, DecGeneric3, EncAll, DecAll,
      Notices, Undoes, Pow2;
    AbsentIsEmpty(f, v);
    match f
    case Type2(c) => Type2CutOff(Single(v), c, n);
    case Type3(id, c) => Type3CutOff(v.list[0], id, c, n);
    case Type4(id, c) => Type4CutOff(v.list, id, c, n);
    case Type3Generic(_) => Generic3CutOff(v.elem3, n);
    case Type4Generic(_) =>
  }

  lemma AbsentIsEmpty<V>(f: Field<V>, v: Val<V>)
    ensures v.Absent? && !f.Type2? ==> EncField(f, v) == []
  {
  }

  /** What is left of the fields behind an absent one, cut off, is not taken for it either. */
  lemma CutOffIsNotMine<V(!new)>(fs: seq<Field<V>>, vs: seq<Val<V>>, id: nat, n: nat)
    requires WellFormed(fs) && Fits(fs, vs) && forall i :: 0 <= i < |fs| ==> !fs[i].Type2? && fs[i].id != id
    requires n <= |EncFields(fs, vs)|
    ensures var b := (EncFields(fs, vs) + [false])[..n]; PeekId(b, id) == Ok(false) || PeekId(b, id) == Err(BufferEnded)
  {
    hide FromBits, EncFields, WellFormed, FitsField;
    var w := EncFields(fs, vs) + [false];
    NotMine(fs, vs, id, []);
    assert w + [] == w;
    if n >= 5 && w[0] {
      assert w[..n][1..5] == w[1..5];
    }
  }

  lemma {:induction false} FieldsCutOff<V(!new)>(fs: seq<Field<V>>, vs: seq<Val<V>>, n: nat)
    requires WellFormed(fs) && Fits(fs, vs) && (forall i :: 0 <= i < |fs| ==> NoticesField(fs[i]))
    requires n <= |EncFields(fs, vs)|
    ensures var d := DecFields(fs, true, (EncFields(fs, vs) + [false])[..n]);
            d == Err(BufferEnded) || (d.Ok? && d.value.1 == n == |EncFields(fs, vs)|)
  {
    hide EncField, DecField, FitsField, NoticesField, Sound, PeekId;
    if fs != [] {
      var e, t := EncField(fs[0], vs[0]), EncFields(fs[1..], vs[1..]) + [false];
      var b := (EncFields(fs, vs) + [false])[..n];
      assert EncFields(fs, vs) + [false] == e + t;
      assert Sound(fs[0]) && FitsField(fs[0], vs[0]);
      if n < |e| {
        assert b == e[..n];
        FieldCutOff(fs[0], vs[0], n);
      } else {
        assert b == e + t[..n - |e|];
        FirstCutOff(fs, vs, n - |e|);
        FieldsCutOff(fs[1..], vs[1..], n - |e|);
        assert b[|e|..] == t[..n - |e|];
      }
    }
  }

  lemma FirstCutOff<V(!new)>(fs: seq<Field<V>>, vs: seq<Val<V>>, m: nat)
    requires fs != [] && WellFormed(fs) && Fits(fs, vs) && m <= |EncFields(fs[1..], vs[1..])|
    ensures var e := EncField(fs[0], vs[0]);
            var d := DecField(fs[0], true, e + (EncFields(fs[1..], vs[1..]) + [false])[..m]);
            d == Err(BufferEnded) || d == Ok((vs[0], |e|))
  {
    hide Undoes, FitsField, EncFields, EncAll, PeekId, EncType2, DecType2;
    var t := (EncFields(fs[1..], vs[1..]) + [false])[..m];
    if fs[0].Type2? || !vs[0].Absent? {
      FieldRoundTrip(fs[0], vs[0], t);
    } else {
      CutOffIsNotMine(fs[1..], vs[1..], fs[0].id, m);
      assert EncField(fs[0], vs[0]) + t == t;
    }
  }

  /** A tail that is cut off anywhere is refused, and for that reason: never is a shorter one read. */
  lemma TailCutOff<V(!new)>(fs: seq<Field<V>>, vs: seq<Val<V>>, n: nat)
    requires WellFormed(fs) && Fits(fs, vs) && (forall i :: 0 <= i < |fs| ==> NoticesField(fs[i]))
    requires n < |PrintTail(fs, vs)|
    ensures ParseTail(fs, PrintTail(fs, vs)[..n]) == Err(BufferEnded)
  {
    hide WellFormed, FitsField, EncFields, DecFields, NoticesField;
    if n > 0 {
      var b := PrintTail(fs, vs)[..n];
      FieldsCutOff(fs, vs, n - 1);
      assert b[1..] == (EncFields(fs, vs) + [false])[..n - 1];
    }
  }

  // ---------------------------------------------------------------- a PDU that uses all kinds

  /** The tail of D-LOCATION UPDATE ACCEPT: five type 2 fields, the group identity location accept
      with its own codec, five opaque type 3 and two opaque type 4 fields. */
  function LocationUpdateAccept<V>(c: seq<Codec<V>>): seq<Field<V>>
    requires |c| == 6
  {
    [Type2(c[0]), Type2(c[1]), Type2(c[2]), Type2(c[3]), Type2(c[4]),
     Type4Generic(2), Type3Generic(3), Type3(5, c[5]), Type3Generic(1), Type3Generic(10),
     Type4Generic(12), Type3Generic(13), Type3Generic(15)]
  }

  lemma LocationUpdateAcceptRoundTrip<V(!new)>(c: seq<Codec<V>>, vs: seq<Val<V>>, rest: seq<bool>)
    requires |c| == 6 && (forall i :: 0 <= i < 6 ==> Undoes(c[i])) && Fits(LocationUpdateAccept(c), vs)
    ensures var fs := LocationUpdateAccept(c);
            ParseTail(fs, PrintTail(fs, vs) + rest) == Ok((vs, |PrintTail(fs, vs)|))
  {
    hide Undoes, Fits, ParseTail, PrintTail;
    TailRoundTrip(LocationUpdateAccept(c), vs, rest);
  }
}
