/** RTP towards the PBX (section 5.1 of RFC 3550): the packetizer that cuts a byte stream into
    packets, and the parser that finds the payload of a packet. */
module Rtp {
  import opened Wrappers
  import Bits

  type Byte = bv8
  type Bytes = seq<bv8>

  const PCMU_SAMPLES_PER_MS: nat := 8
  const SEQ_WRAP: nat := 0x1_0000
  const TIMESTAMP_WRAP: nat := 0x1_0000_0000

  type U16 = x: nat | x < SEQ_WRAP
  type U32 = x: nat | x < TIMESTAMP_WRAP

  function ToByte(x: nat): bv8
    requires x < 0x100
  {
    x as bv8
  }

  lemma ByteNumber(x: nat)
    requires x < 0x100
    ensures ToByte(x) as nat == x
  {
    hide Bits.BitAt, Bits.FromBits, Bits.ToBits, Bits.ByteBits;
    Bits.NumberOfByte(ToByte(x));
    Bits.ByteOfNumber(x);
    Bits.SmallPowers();
    Bits.FromBitsToBits(x, 8);
  }

  function Be16(x: U16): (r: Bytes)
    ensures |r| == 2
  {
    [ToByte(x / 0x100), ToByte(x % 0x100)]
  }

  function Be32(x: U32): (r: Bytes)
    ensures |r| == 4
  {
    Be16(x / 0x1_0000) + Be16(x % 0x1_0000)
  }

  // ---------------------------------------------------------------- the packetizer

  /** Version 2, no padding, no extension, no CSRC; payload type 0. */
  function Packet(marker: bool, sequence: U16, timestamp: U32, ssrc: U32, chunk: Bytes): Bytes {
    [0x80, if marker then 0x80 else 0] + Be16(sequence) + Be32(timestamp) + Be32(ssrc) + chunk
  }

  datatype State = State(ssrc: U32, size: nat, sequence: U16, timestamp: U32, pending: Bytes, marker: bool)

  function Build(s: State, chunk: Bytes): (Bytes, State) {
    (Packet(s.marker, s.sequence, s.timestamp, s.ssrc, chunk),
     s.(marker := false, sequence := (s.sequence + 1) % SEQ_WRAP,
       timestamp := (s.timestamp + |chunk|) % TIMESTAMP_WRAP))
  }

  /** Cut off full packets while there are any. */
  function Cut(s: State): (seq<Bytes>, State)
    requires s.size > 0
    decreases |s.pending|
  {
    if |s.pending| < s.size then ([], s)
    else
      var (p, s1) := Build(s.(pending := s.pending[s.size..]), s.pending[..s.size]);
      var (ps, s2) := Cut(s1);
      ([p] + ps, s2)
  }

  class RtpPacketizer {
    const ssrc: U32
    const payloadBytes: nat
    var sequence: U16
    var timestamp: U32
    var pending: Bytes
    var marker: bool

    ghost function View(): State
      reads this
    {
      State(ssrc, payloadBytes, sequence, timestamp, pending, marker)
    }

    constructor (ssrc: U32, ptime: nat)
      ensures payloadBytes > 0 && View() == Created(ssrc, ptime)
    {
      this.ssrc := ssrc;
      payloadBytes := PCMU_SAMPLES_PER_MS * if ptime < 1 then 1 else ptime;
      sequence, timestamp, pending, marker := 1, 0, [], true;
    }

    method MarkTalkspurt()
      modifies this`marker
      ensures View() == old(View()).(marker := true)
    {
      marker := true;
    }

    method Push(payload: Bytes) returns (packets: seq<Bytes>)
      requires payloadBytes > 0
      modifies this
      ensures (packets, View()) == Cut(old(View()).(pending := old(pending) + payload))
    {
      hide Cut;
      pending := pending + payload;
      ghost var all := Cut(View());
      packets := [];
      assert packets + all.0 == all.0;
      while |pending| >= payloadBytes
        invariant (packets + Cut(View()).0, Cut(View()).1) == all
        decreases |pending|
      {
        CutStep(View());
        var chunk := pending[..payloadBytes];
        pending := pending[payloadBytes..];
        ghost var before := packets;
        var p := BuildPacket(chunk);
        packets := packets + [p];
        assert before + ([p] + Cut(View()).0) == packets + Cut(View()).0;
      }
      CutStep(View());
      assert packets + [] == packets;
    }

    method BuildPacket(chunk: Bytes) returns (packet: Bytes)
      modifies this`marker, this`sequence, this`timestamp
      ensures (packet, View()) == Build(old(View()), chunk)
    {
      hide Be16, Be32;
      packet := [0x80];
      var flags := Flags(marker);
      packet := packet + [flags];
      packet := packet + Be16(sequence);
      packet := packet + Be32(timestamp);
      packet := packet + Be32(ssrc);
      packet := packet + chunk;
      assert packet == Packet(marker, sequence, timestamp, ssrc, chunk);
      marker := false;
      sequence := (sequence + 1) % SEQ_WRAP;
      timestamp := (timestamp + |chunk|) % TIMESTAMP_WRAP;
    }
  }

  method Flags(marker: bool) returns (b: bv8)
    ensures b == if marker then 0x80 else 0
  {
    b := 0 | if marker then 0x80 else 0;
  }

  lemma CutStep(s: State)
    requires s.size > 0
    ensures if |s.pending| < s.size then Cut(s) == ([], s)
            else var b := Build(s.(pending := s.pending[s.size..]), s.pending[..s.size]);
              Cut(s) == ([b.0] + Cut(b.1).0, Cut(b.1).1)
  {
  }

  // ---------------------------------------------------------------- whole streams

  datatype Op = Push(payload: Bytes) | Mark

  function Created(ssrc: U32, ptime: nat): State {
    State(ssrc, PCMU_SAMPLES_PER_MS * if ptime < 1 then 1 else ptime, 1, 0, [], true)
  }

  /** The packets emitted by a run from a fresh packetizer, and its state afterwards. */
  function Run(ssrc: U32, ptime: nat, ops: seq<Op>): (r: (seq<Bytes>, State))
    ensures r.1.size == Created(ssrc, ptime).size
  {
    if ops == [] then ([], Created(ssrc, ptime))
    else
      var (ps, s) := Run(ssrc, ptime, ops[..|ops| - 1]);
      match ops[|ops| - 1]
      case Push(payload) =>
        CutKeepsSize(s.(pending := s.pending + payload));
        var (more, s') := Cut(s.(pending := s.pending + payload));
        (ps + more, s')
      case Mark => (ps, s.(marker := true))
  }

  lemma CutKeepsSize(s: State)
    requires s.size > 0
    ensures Cut(s).1.size == s.size
    decreases |s.pending|
  {
    CutStep(s);
    if |s.pending| >= s.size {
      CutKeepsSize(Build(s.(pending := s.pending[s.size..]), s.pending[..s.size]).1);
    }
  }

  /** All bytes pushed. */
  function Stream(ops: seq<Op>): Bytes {
    if ops == [] then []
    else Stream(ops[..|ops| - 1]) + if ops[|ops| - 1].Push? then ops[|ops| - 1].payload else []
  }

  /** Packet k starts a talkspurt: it is the first, or one was marked when k packets were full. */
  ghost predicate Starts(ops: seq<Op>, size: nat, k: nat)
    requires size > 0
  {
    k == 0 || exists i :: 0 <= i < |ops| && ops[i].Mark? && |Stream(ops[..i])| / size == k
  }

  /** Where packet k starts in the stream. */
  function Place(k: nat, size: nat): nat {
    k * size
  }

  lemma NextPlace(k: nat, size: nat)
    ensures Place(k + 1, size) == Place(k, size) + size
  {
  }

  function SequenceOf(k: nat): U16 {
    (1 + k) % SEQ_WRAP
  }

  function TimestampOf(k: nat, size: nat): U32 {
    Place(k, size) % TIMESTAMP_WRAP
  }

  lemma NextCounters(k: nat, size: nat)
    ensures SequenceOf(k + 1) == (SequenceOf(k) + 1) % SEQ_WRAP
    ensures TimestampOf(k + 1, size) == (TimestampOf(k, size) + size) % TIMESTAMP_WRAP
  {
    hide Place;
    NextPlace(k, size);
  }

  /** Packet k of a stream, from first principles. */
  ghost function Nth(ssrc: U32, size: nat, ops: seq<Op>, k: nat): Bytes
    requires size > 0 && Place(k, size) + size <= |Stream(ops)|
  {
    Packet(Starts(ops, size, k), SequenceOf(k), TimestampOf(k, size), ssrc,
      Stream(ops)[Place(k, size)..Place(k, size) + size])
  }

  /** Every mark so far came when at most n packets were full. */
  ghost predicate MarksUpTo(ops: seq<Op>, size: nat, n: nat)
    requires size > 0
  {
    forall i :: 0 <= i < |ops| && ops[i].Mark? ==> |Stream(ops[..i])| / size <= n
  }

  /** These are the first packets of the stream. */
  ghost predicate Emitted(ssrc: U32, size: nat, ops: seq<Op>, ps: seq<Bytes>)
    requires size > 0
  {
    forall k :: 0 <= k < |ps| ==> Place(k, size) + size <= |Stream(ops)| && ps[k] == Nth(ssrc, size, ops, k)
  }

  /** The state after n packets of the stream. */
  ghost predicate Here(ssrc: U32, ops: seq<Op>, n: nat, s: State) {
    && s.ssrc == ssrc && s.size > 0 && Place(n, s.size) <= |Stream(ops)| && s.pending == Stream(ops)[Place(n, s.size)..]
    && s.sequence == SequenceOf(n) && s.timestamp == TimestampOf(n, s.size)
    && (s.marker <==> Starts(ops, s.size, n)) && MarksUpTo(ops, s.size, n)
  }

  ghost predicate Along(ssrc: U32, ops: seq<Op>, ps: seq<Bytes>, s: State) {
    s.size > 0 && Here(ssrc, ops, |ps|, s) && Emitted(ssrc, s.size, ops, ps)
  }

  lemma {:induction false} AlongCut(ssrc: U32, ops: seq<Op>, ps: seq<Bytes>, s: State)
    requires Along(ssrc, ops, ps, s)
    ensures Along(ssrc, ops, ps + Cut(s).0, Cut(s).1) && |Cut(s).1.pending| < Cut(s).1.size
    decreases |s.pending|
  {
    hide Stream, Cut, Build, Here, Emitted;
    CutStep(s);
    if |s.pending| < s.size {
      assert ps + [] == ps;
    } else {
      var b := Build(s.(pending := s.pending[s.size..]), s.pending[..s.size]);
      AlongBuild(ssrc, ops, ps, s);
      BuildKeeps(s.(pending := s.pending[s.size..]), s.pending[..s.size]);
      AlongCut(ssrc, ops, ps + [b.0], b.1);
      assert ps + [b.0] + Cut(b.1).0 == ps + ([b.0] + Cut(b.1).0);
    }
  }

  lemma BuildKeeps(s: State, chunk: Bytes)
    ensures Build(s, chunk).1.pending == s.pending && Build(s, chunk).1.size == s.size
  {
  }

  lemma AlongBuild(ssrc: U32, ops: seq<Op>, ps: seq<Bytes>, s: State)
    requires Along(ssrc, ops, ps, s) && |s.pending| >= s.size
    ensures var b := Build(s.(pending := s.pending[s.size..]), s.pending[..s.size]);
            Along(ssrc, ops, ps + [b.0], b.1)
  {
    hide Stream, Starts, MarksUpTo, Packet, Place, SequenceOf, TimestampOf;
    var n := |ps|;
    var all := Stream(ops);
    var b := Build(s.(pending := s.pending[s.size..]), s.pending[..s.size]);
    NextPlace(n, s.size);
    assert s.pending[..s.size] == all[Place(n, s.size)..Place(n, s.size) + s.size];
    assert s.pending[s.size..] == all[Place(n + 1, s.size)..];
    assert b.0 == Nth(ssrc, s.size, ops, n);
    NoMarkAhead(ops, s.size, n);
    NextCounters(n, s.size);
  }

  lemma NoMarkAhead(ops: seq<Op>, size: nat, n: nat)
    requires size > 0 && MarksUpTo(ops, size, n)
    ensures !Starts(ops, size, n + 1) && MarksUpTo(ops, size, n + 1)
  {
  }

  lemma AlongPush(ssrc: U32, ops: seq<Op>, ps: seq<Bytes>, s: State, payload: Bytes)
    requires Along(ssrc, ops, ps, s)
    ensures Along(ssrc, ops + [Push(payload)], ps, s.(pending := s.pending + payload))
  {
    hide Stream, Starts, MarksUpTo, Place, SequenceOf, TimestampOf, Emitted;
    StreamMore(ops, Push(payload));
    MarksMore(ops, Push(payload), s.size);
    assert s.pending + payload == Stream(ops + [Push(payload)])[Place(|ps|, s.size)..];
    StillEmitted(ssrc, s.size, ops, Push(payload), ps);
  }

  lemma AlongMark(ssrc: U32, ops: seq<Op>, ps: seq<Bytes>, s: State)
    requires Along(ssrc, ops, ps, s) && |s.pending| < s.size
    ensures Along(ssrc, ops + [Mark], ps, s.(marker := true))
  {
    hide Stream, Starts, MarksUpTo, SequenceOf, TimestampOf, Emitted;
    StreamMore(ops, Mark);
    MarksMore(ops, Mark, s.size);
    assert Stream(ops) + [] == Stream(ops);
    FullPackets(|ps|, s.size, |Stream(ops)|);
    StillEmitted(ssrc, s.size, ops, Mark, ps);
  }

  /** A later operation changes none of the packets already emitted. */
  lemma StillEmitted(ssrc: U32, size: nat, ops: seq<Op>, op: Op, ps: seq<Bytes>)
    requires size > 0 && Emitted(ssrc, size, ops, ps)
    requires op.Mark? ==> |Stream(ops)| / size == |ps|
    ensures Emitted(ssrc, size, ops + [op], ps)
  {
    hide Stream, Starts, MarksUpTo, Place, SequenceOf, TimestampOf, Packet;
    StreamMore(ops, op);
    MarksMore(ops, op, size);
    forall k | 0 <= k < |ps| ensures Place(k, size) + size <= |Stream(ops + [op])|
      && ps[k] == Nth(ssrc, size, ops + [op], k) {
      var i := Place(k, size);
      assert Stream(ops + [op])[i..i + size] == Stream(ops)[i..i + size];
    }
  }

  lemma FullPackets(n: nat, size: nat, len: nat)
    requires size > 0 && n * size <= len < n * size + size
    ensures len / size == n
  {
    var q, r := len / size, len % size;
    assert (q - n) * size == (len - n * size) - r;
    Apart(q - n, size);
  }

  lemma Apart(a: int, size: int)
    requires size > 0
    ensures a == 0 || a * size >= size || a * size <= -size
  {
  }

  lemma StreamMore(ops: seq<Op>, op: Op)
    ensures Stream(ops + [op]) == Stream(ops) + if op.Push? then op.payload else []
  {
    var all := ops + [op];
    assert all[..|all| - 1] == ops;
  }

  /** One more operation: a mark starts exactly the packet that is next, a push starts none. */
  lemma MarksMore(ops: seq<Op>, op: Op, size: nat)
    requires size > 0
    ensures forall k: nat ::
              Starts(ops + [op], size, k) <==> Starts(ops, size, k) || (op.Mark? && |Stream(ops)| / size == k)
    ensures forall n: nat ::
              MarksUpTo(ops + [op], size, n) <==> MarksUpTo(ops, size, n) && (op.Mark? ==> |Stream(ops)| / size <= n)
  {
    hide Stream;
    var all := ops + [op];
    assert all[..|ops|] == ops && all[|ops|] == op;
    assert forall i :: 0 <= i < |ops| ==> all[i] == ops[i] && all[..i] == ops[..i];
  }

  lemma {:induction false} AlongRun(ssrc: U32, ptime: nat, ops: seq<Op>)
    ensures var (ps, s) := Run(ssrc, ptime, ops); Along(ssrc, ops, ps, s) && |s.pending| < s.size
  {
    hide Along, Cut;
    if ops == [] {
      AlongNothing(ssrc, ptime);
    } else {
      var before := ops[..|ops| - 1];
      AlongRun(ssrc, ptime, before);
      var (ps, s) := Run(ssrc, ptime, before);
      assert before + [ops[|ops| - 1]] == ops;
      match ops[|ops| - 1]
      case Push(payload) =>
        AlongPush(ssrc, before, ps, s, payload);
        AlongCut(ssrc, ops, ps, s.(pending := s.pending + payload));
      case Mark =>
        AlongMark(ssrc, before, ps, s);
    }
  }

  lemma AlongNothing(ssrc: U32, ptime: nat)
    ensures Along(ssrc, [], [], Created(ssrc, ptime))
  {
    hide SequenceOf, TimestampOf, Place;
    FirstCounters(Created(ssrc, ptime).size);
    assert Stream([]) == [];
  }

  lemma FirstCounters(size: nat)
    ensures Place(0, size) == 0 && SequenceOf(0) == 1 && TimestampOf(0, size) == 0
  {
  }

  /** Every stream in closed form: the number of packets, each packet byte for byte (sequence 1 + k
      and timestamp k times the size, both wrapped, the marker on talkspurt starts only, the k-th
      piece of the bytes pushed), and the bytes still pending. */
  lemma StreamPackets(ssrc: U32, ptime: nat, ops: seq<Op>)
    ensures var (ps, s) := Run(ssrc, ptime, ops);
            var all := Stream(ops);
            && |ps| == |all| / s.size && Place(|ps|, s.size) <= |all| && s.pending == all[Place(|ps|, s.size)..]
            && forall k :: 0 <= k < |ps| ==> Place(k, s.size) + s.size <= |all| && ps[k] == Nth(ssrc, s.size, ops, k)
  {
    hide Stream, Nth, Run, Starts, MarksUpTo;
    AlongRun(ssrc, ptime, ops);
    var (ps, s) := Run(ssrc, ptime, ops);
    FullPackets(|ps|, s.size, |Stream(ops)|);
  }

  /** The number of some bytes, most significant first. */
  function Number(b: Bytes): nat {
    if b == [] then 0 else 0x100 * Number(b[..|b| - 1]) + b[|b| - 1] as nat
  }

  lemma Be16Number(x: U16)
    ensures Number(Be16(x)) == x
  {
    hide ToByte;
    ByteNumber(x / 0x100);
    ByteNumber(x % 0x100);
    NumberOfTwo(Be16(x)[0], Be16(x)[1]);
  }

  lemma NumberOfTwo(hi: bv8, lo: bv8)
    ensures Number([hi, lo]) == 0x100 * (hi as nat) + lo as nat
  {
    assert [hi, lo][..1] == [hi] && [hi][..0] == [];
    assert Number([hi]) == hi as nat;
  }

  lemma Be32Number(x: U32)
    ensures Number(Be32(x)) == x
  {
    hide ToByte;
    var b, hi, lo := Be32(x), Be16(x / 0x1_0000), Be16(x % 0x1_0000);
    Be16Number(x / 0x1_0000);
    Be16Number(x % 0x1_0000);
    assert b[..3] == hi + [lo[0]] && b[..3][..2] == hi;
    NumberOfTwo(lo[0], lo[1]);
  }

  /** The fixed header, field by field (section 5.1 of RFC 3550): version 2 without padding, extension
      and CSRC; marker and payload type 0; sequence number, timestamp and SSRC; then the payload. */
  lemma PacketFields(marker: bool, sequence: U16, timestamp: U32, ssrc: U32, chunk: Bytes)
    ensures var p := Packet(marker, sequence, timestamp, ssrc, chunk);
            && |p| == 12 + |chunk| && p[0] == 0x80 && p[1] == (if marker then 0x80 else 0)
            && Number(p[2..4]) == sequence && Number(p[4..8]) == timestamp && Number(p[8..12]) == ssrc
            && p[12..] == chunk
  {
    hide ToByte, Be16, Be32, Number;
    var p := Packet(marker, sequence, timestamp, ssrc, chunk);
    assert p[2..4] == Be16(sequence) && p[4..8] == Be32(timestamp) && p[8..12] == Be32(ssrc);
    Be16Number(sequence);
    Be32Number(timestamp);
    Be32Number(ssrc);
  }

  /** Every packet of every stream, field by field. */
  lemma StreamFields(ssrc: U32, ptime: nat, ops: seq<Op>, k: nat)
    requires k < |Run(ssrc, ptime, ops).0|
    ensures var (ps, s) := Run(ssrc, ptime, ops);
            var p := ps[k];
            && s.size == (if ptime < 1 then 8 else 8 * ptime) && |p| == 12 + s.size && p[0] == 0x80
            && p[1] == (if Starts(ops, s.size, k) then 0x80 else 0)
            && Number(p[2..4]) == (1 + k) % SEQ_WRAP && Number(p[4..8]) == k * s.size % TIMESTAMP_WRAP
            && Number(p[8..12]) == ssrc
            && k * s.size + s.size <= |Stream(ops)| && p[12..] == Stream(ops)[k * s.size..k * s.size + s.size]
  {
    hide Number, Packet, Stream, Run, Starts;
    StreamPackets(ssrc, ptime, ops);
    var size := Run(ssrc, ptime, ops).1.size;
    PacketFields(Starts(ops, size, k), SequenceOf(k), TimestampOf(k, size), ssrc,
      Stream(ops)[Place(k, size)..Place(k, size) + size]);
  }

  // ---------------------------------------------------------------- the parser

  function FromBe16(hi: bv8, lo: bv8): nat {
    hi as nat * 0x100 + lo as nat
  }

  /** Payload type and payload of a packet, or None if it is malformed. */
  function RtpPayload(packet: Bytes): (r: Option<(bv8, Bytes)>) {
    if |packet| < 12 || FirstOf(packet[0]).version != 2 then None
    else
      var f := FirstOf(packet[0]);
      match PayloadAt(packet, f.padding, f.extension, f.csrcCount)
      case None => None
      case Some(payload) => Some((TypeOf(packet[1]), payload))
  }

  datatype First = First(version: bv8, padding: bool, extension: bool, csrcCount: nat)

  /** The fields of the first byte. */
  function FirstOf(b: bv8): First {
    First(b >> 6, b & 0x20 != 0, b & 0x10 != 0, (b & 0x0f) as nat)
  }

  /** The payload type in the second byte. */
  function TypeOf(b: bv8): bv8 {
    b & 0x7f
  }

  function PayloadAt(packet: Bytes, hasPadding: bool, hasExtension: bool, csrcCount: nat): Option<Bytes>
    requires |packet| >= 12
  {
    var padding := if hasPadding then packet[|packet| - 1] as nat else 0;
    if hasPadding && (padding == 0 || padding > |packet|) then None
    else
      var end := |packet| - padding;
      var offset := 12 + csrcCount * 4;
      if offset > end then None
      else if !hasExtension then Some(packet[offset..end])
      else if offset + 4 > end then None
      else
        var body := offset + 4 + FromBe16(packet[offset + 2], packet[offset + 3]) * 4;
        if body > end then None else Some(packet[body..end])
  }

  /** A packet as section 5.1 of RFC 3550 lays it out; fixed is sequence number, timestamp and SSRC,
      csrc a list of up to 15 words, extension an optional profile and words, padding any bytes of which
      the last holds their number. */
  datatype Header = Header(
    marker: bool, payloadType: bv8, fixed: Bytes, csrc: Bytes, extension: Option<(Bytes, Bytes)>, padding: Bytes)

  predicate Valid(h: Header) {
    && h.payloadType < 0x80 && |h.fixed| == 10 && |h.csrc| % 4 == 0 && |h.csrc| <= 60
    && (h.padding != [] ==> h.padding[|h.padding| - 1] as nat == |h.padding|)
    && (h.extension.Some? ==>
          && |h.extension.value.0| == 2 && |h.extension.value.1| % 4 == 0
          && |h.extension.value.1| / 4 < SEQ_WRAP)
  }

  function FirstByte(h: Header): bv8
    requires |h.csrc| <= 60
  {
    0x80 | (if h.padding != [] then 0x20 else 0) | (if h.extension.Some? then 0x10 else 0) | ToByte(|h.csrc| / 4)
  }

  function Extension(h: Header): Bytes
    requires Valid(h)
  {
    if h.extension.None? then [] else h.extension.value.0 + Be16(|h.extension.value.1| / 4) + h.extension.value.1
  }

  function Encode(h: Header, payload: Bytes): Bytes
    requires Valid(h)
  {
    [FirstByte(h), (if h.marker then 0x80 else 0) | h.payloadType] + h.fixed + h.csrc + Extension(h) + payload
      + h.padding
  }

  lemma FirstByteRead(h: Header)
    requires |h.csrc| <= 60 && |h.csrc| % 4 == 0
    ensures FirstOf(FirstByte(h)) == First(2, h.padding != [], h.extension.Some?, |h.csrc| / 4)
  {
    var n := ToByte(|h.csrc| / 4);
    assert n < 16;
    assert FirstByte(h) & 0x0f == n;
    ByteNumber(|h.csrc| / 4);
  }

  lemma SecondByteRead(marker: bool, t: bv8)
    requires t < 0x80
    ensures TypeOf((if marker then 0x80 else 0) | t) == t
  {
  }

  lemma Be16Read(x: U16)
    ensures FromBe16(Be16(x)[0], Be16(x)[1]) == x
  {
    hide ToByte;
    ByteNumber(x / 0x100);
    ByteNumber(x % 0x100);
  }

  /** Where things are in an encoded packet. */
  lemma Layout(h: Header, payload: Bytes)
    requires Valid(h)
    ensures var p, x, offset := Encode(h, payload), Extension(h), 12 + |h.csrc|;
            && |p| == offset + |x| + |payload| + |h.padding|
            && p[0] == FirstByte(h) && p[1] == (if h.marker then 0x80 else 0) | h.payloadType
            && (h.padding != [] ==> p[|p| - 1] as nat == |h.padding|)
            && p[offset..offset + |x|] == x && p[offset + |x|..|p| - |h.padding|] == payload
  {
    hide FirstByte, Extension;
  }

  lemma ExtensionLayout(h: Header)
    requires Valid(h) && h.extension.Some?
    ensures var x, n := Extension(h), |h.extension.value.1|;
            |x| == 4 + n && FromBe16(x[2], x[3]) * 4 == n
  {
    hide Be16, FromBe16;
    Be16Read(|h.extension.value.1| / 4);
  }

  lemma PayloadPlace(h: Header, payload: Bytes)
    requires Valid(h)
    ensures |Encode(h, payload)| >= 12
    ensures PayloadAt(Encode(h, payload), h.padding != [], h.extension.Some?, |h.csrc| / 4) == Some(payload)
  {
    hide FirstByte, FromBe16, Encode, Extension;
    var p, x, offset := Encode(h, payload), Extension(h), 12 + |h.csrc|;
    Layout(h, payload);
    if h.extension.Some? {
      ExtensionLayout(h);
      assert x[2] == p[offset..offset + |x|][2] == p[offset + 2];
      assert x[3] == p[offset..offset + |x|][3] == p[offset + 3];
    } else {
      NoExtension(h);
    }
  }

  /** Whatever CSRC words, extension and padding a packet carries, its payload is found. */
  lemma PayloadFound(h: Header, payload: Bytes)
    requires Valid(h)
    ensures RtpPayload(Encode(h, payload)) == Some((h.payloadType, payload))
  {
    hide FirstByte, Encode, Extension, PayloadAt, FirstOf, TypeOf;
    Layout(h, payload);
    FirstByteRead(h);
    SecondByteRead(h.marker, h.payloadType);
    PayloadPlace(h, payload);
  }

  /** Where the CSRC list, the payload and the padding of a packet end. */
  function CsrcEnd(p: Bytes): nat
    requires p != []
  {
    12 + FirstOf(p[0]).csrcCount * 4
  }

  function BodyAt(p: Bytes): nat
    requires p != [] && (FirstOf(p[0]).extension ==> CsrcEnd(p) + 4 <= |p|)
  {
    var o := CsrcEnd(p);
    if FirstOf(p[0]).extension then o + 4 + FromBe16(p[o + 2], p[o + 3]) * 4 else o
  }

  function BodyEnd(p: Bytes): int
    requires p != []
  {
    |p| - if FirstOf(p[0]).padding then p[|p| - 1] as nat else 0
  }

  predicate Placed(p: Bytes) {
    && |p| >= 12 && FirstOf(p[0]).version == 2
    && (FirstOf(p[0]).extension ==> CsrcEnd(p) + 4 <= |p|)
    && 12 <= CsrcEnd(p) <= BodyAt(p) <= BodyEnd(p) <= |p|
    && (FirstOf(p[0]).padding <==> BodyEnd(p) < |p|)
  }

  lemma Places(p: Bytes)
    requires RtpPayload(p).Some?
    ensures Placed(p)
    ensures RtpPayload(p).value == (TypeOf(p[1]), p[BodyAt(p)..BodyEnd(p)])
  {
    hide FirstOf, TypeOf, FromBe16;
  }

  /** Which header an accepted packet has. */
  function HeaderOf(p: Bytes): Header
    requires Placed(p)
  {
    var o := CsrcEnd(p);
    Header(p[1] & 0x80 != 0, TypeOf(p[1]), p[2..12], p[12..o],
           if FirstOf(p[0]).extension then Some((p[o..o + 2], p[o + 4..BodyAt(p)])) else None, p[BodyEnd(p)..])
  }

  lemma FirstByteBack(b: bv8, h: Header)
    requires FirstOf(b).version == 2 && |h.csrc| <= 60 && |h.csrc| == 4 * FirstOf(b).csrcCount
    requires (h.padding != [] <==> FirstOf(b).padding) && (h.extension.Some? <==> FirstOf(b).extension)
    ensures FirstByte(h) == b
  {
    var n := b & 0x0f;
    assert b == 0x80 | (b & 0x20) | (b & 0x10) | n;
    assert b & 0x20 == (if b & 0x20 != 0 then 0x20 else 0) && b & 0x10 == if b & 0x10 != 0 then 0x10 else 0;
    NumberByte(n);
  }

  lemma NumberByte(n: bv8)
    ensures n as nat < 0x100 && ToByte(n as nat) == n
  {
  }

  lemma SecondByteBack(b: bv8)
    ensures TypeOf(b) < 0x80 && (if b & 0x80 != 0 then 0x80 else 0) | TypeOf(b) == b
  {
  }

  lemma FirstBounds(b: bv8)
    ensures FirstOf(b).csrcCount <= 15
  {
    assert b & 0x0f <= 15;
    ByteOrder(b & 0x0f, 15);
  }

  lemma ByteOrder(a: bv8, b: bv8)
    requires a <= b
    ensures a as nat <= b as nat
  {
  }

  lemma HeaderIsValid(p: Bytes)
    requires Placed(p)
    ensures Valid(HeaderOf(p))
  {
    hide FirstOf, FromBe16;
    var h, o := HeaderOf(p), CsrcEnd(p);
    FirstBounds(p[0]);
    SecondByteBack(p[1]);
    if h.extension.Some? {
      Be16Back(p[o + 2], p[o + 3]);
    }
    assert h.padding != [] ==> h.padding[|h.padding| - 1] == p[|p| - 1];
  }

  /** Nothing else is accepted: every packet with a payload is laid out as above, and what is returned
      is its type and its payload. */
  lemma OnlyLaidOut(p: Bytes)
    requires RtpPayload(p).Some?
    ensures var (t, payload) := RtpPayload(p).value;
            exists h :: Valid(h) && h.payloadType == t && Encode(h, payload) == p
  {
    hide FromBe16, FirstByte, ToByte, Be16, FirstOf, TypeOf, Extension, RtpPayload, Valid, Encode;
    Places(p);
    HeaderIsValid(p);
    var h, o := HeaderOf(p), CsrcEnd(p);
    FirstBounds(p[0]);
    FirstByteBack(p[0], h);
    SecondByteBack(p[1]);
    ExtensionBack(p, o, h);
    assert Extension(h) == p[o..BodyAt(p)];
    Reassembled(p, h, o, BodyAt(p), BodyEnd(p));
  }

  lemma ExtensionBack(p: Bytes, offset: nat, h: Header)
    requires Valid(h) && (h.extension.None? || offset + 4 <= |p|)
    requires h.extension.Some? ==>
               var x := FromBe16(p[offset + 2], p[offset + 3]) * 4;
               && offset + 4 + x <= |p|
               && h.extension.value == (p[offset..offset + 2], p[offset + 4..offset + 4 + x])
    ensures h.extension.None? ==> Extension(h) == []
    ensures h.extension.Some? ==> Extension(h) == p[offset..offset + 4 + FromBe16(p[offset + 2], p[offset + 3]) * 4]
  {
    hide FromBe16, Be16;
    if h.extension.Some? {
      Be16Back(p[offset + 2], p[offset + 3]);
    }
  }

  lemma Reassembled(p: Bytes, h: Header, offset: nat, body: nat, end: nat)
    requires Valid(h) && 12 <= offset <= body <= end <= |p|
    requires FirstByte(h) == p[0] && (if h.marker then 0x80 else 0) | h.payloadType == p[1]
    requires h.fixed == p[2..12] && h.csrc == p[12..offset] && Extension(h) == p[offset..body] && h.padding == p[end..]
    ensures Encode(h, p[body..end]) == p
  {
    hide FirstByte, Extension, Valid;
    Rejoined(p, offset, body, end);
  }

  lemma Rejoined(p: Bytes, offset: nat, body: nat, end: nat)
    requires 12 <= offset <= body <= end <= |p|
    ensures p == [p[0], p[1]] + p[2..12] + p[12..offset] + p[offset..body] + p[body..end] + p[end..]
  {
  }

  lemma Be16Back(hi: bv8, lo: bv8)
    ensures FromBe16(hi, lo) < SEQ_WRAP && Be16(FromBe16(hi, lo)) == [hi, lo]
  {
    NumberByte(hi);
    NumberByte(lo);
    Be16Of(hi as nat, lo as nat);
  }

  lemma Be16Of(hi: nat, lo: nat)
    requires hi < 0x100 && lo < 0x100
    ensures Be16(hi * 0x100 + lo) == [ToByte(hi), ToByte(lo)]
  {
    hide ToByte;
  }

  lemma NoExtension(h: Header)
    requires Valid(h) && h.extension.None?
    ensures Extension(h) == []
  {
  }

  /** Each packet of a stream gives back its piece of the stream. */
  lemma PacketPayload(marker: bool, sequence: U16, timestamp: U32, ssrc: U32, chunk: Bytes)
    ensures RtpPayload(Packet(marker, sequence, timestamp, ssrc, chunk)) == Some((0, chunk))
  {
    hide Be16, Be32, RtpPayload;
    var h := Header(marker, 0, Be16(sequence) + Be32(timestamp) + Be32(ssrc), [], None, []);
    PlainFirstByte(h);
    PayloadFound(h, chunk);
    assert (if marker then 0x80 else 0) | 0 as bv8 == if marker then 0x80 else 0;
    assert Encode(h, chunk) == Packet(marker, sequence, timestamp, ssrc, chunk);
  }

  lemma PlainFirstByte(h: Header)
    requires h.csrc == [] && h.extension.None? && h.padding == []
    ensures FirstByte(h) == 0x80
  {
  }

  /** What a receiver gets out of these packets. */
  function Collected(ps: seq<Bytes>): Bytes {
    if ps == [] then []
    else
      Collected(ps[..|ps| - 1]) +
      match RtpPayload(ps[|ps| - 1])
      case Some((_, payload)) => payload
      case None => []
  }

  lemma {:induction false} CollectedPrefix(ssrc: U32, size: nat, ops: seq<Op>, ps: seq<Bytes>, m: nat)
    requires size > 0 && Emitted(ssrc, size, ops, ps) && m <= |ps|
    ensures Place(m, size) <= |Stream(ops)| && Collected(ps[..m]) == Stream(ops)[..Place(m, size)]
  {
    hide Stream, Starts, RtpPayload, Packet, SequenceOf, TimestampOf;
    if m > 0 {
      hide Place;
      CollectedPrefix(ssrc, size, ops, ps, m - 1);
      NextPlace(m - 1, size);
      assert ps[..m][..m - 1] == ps[..m - 1];
      var i := Place(m - 1, size);
      PacketPayload(Starts(ops, size, m - 1), SequenceOf(m - 1), TimestampOf(m - 1, size), ssrc,
        Stream(ops)[i..i + size]);
      assert Stream(ops)[..i] + Stream(ops)[i..i + size] == Stream(ops)[..i + size];
    }
  }

  /** Nothing is lost, repeated or reordered: the payloads of the packets emitted, followed by the
      bytes still pending, are the bytes pushed. */
  lemma Conserved(ssrc: U32, ptime: nat, ops: seq<Op>)
    ensures var (ps, s) := Run(ssrc, ptime, ops); Collected(ps) + s.pending == Stream(ops)
  {
    hide Stream, Starts, RtpPayload, Run, Place;
    AlongRun(ssrc, ptime, ops);
    var (ps, s) := Run(ssrc, ptime, ops);
    CollectedPrefix(ssrc, s.size, ops, ps, |ps|);
    assert ps[..|ps|] == ps;
  }
}
