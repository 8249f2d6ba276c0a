/** The LLC basic link as step functions on values: what each entry point of the entity does
    to its queues, branch by branch. The class in Llc.dfy is proved against these functions. */
module LlcModel {
  import opened Wrappers
  import opened Tdma
  import opened Links
  import opened TxReceipt

  /** A one-bit sequence number or sequence variable. */
  type Bit = x: int | 0 <= x <= 1

  function Flip(b: Bit): Bit {
    1 - b
  }

  /** A retry timer that the wrapped clock can measure. */
  type RetryTimer = t: int | 0 < t < TIME_INT_WRAP / 2 - 1 witness 16

  /** Sender retry timer, in slots. The source sets 16 (four frames); nothing here depends on it. */
  const T251: RetryTimer

  /** Retransmissions allowed after the first transmission. The source sets 3; nothing here depends
      on it. */
  const N252: nat

  datatype Pdu = BlData(ns: Bit) | BlAdata(nr: Bit, ns: Bit) | BlAck(nr: Bit) | BlUdata

  /** A TMA-UNITDATA request handed to the UMAC. `reporter` names the message whose reporter
      travels with this copy; `answers` names the received N(S) that its N(R) repeats. */
  datatype Msg = Msg(
    ssi: int, carrier: int, pdu: Pdu, sdu: seq<bool>, stealing: bool, link: int,
    reporter: Option<nat>, answers: Option<nat>)

  /** A queued acknowledged message. `serial` counts the acknowledged messages accepted before
      it on the same SSI; together with the SSI it identifies the message. R is the reporter:
      its state here, a shared object in the class. */
  datatype Entry<R> = Entry(
    ssi: int, serial: nat, carrier: int, ns: Bit, tFirst: Time,
    submitted: Option<Time>, done: Option<Time>, msg: Msg, retries: nat, rep: R)

  type E = Entry<TxState>

  /** An acknowledgement still owed to the peer. `ord` counts the numbers received before on the
      same SSI and carrier. */
  datatype OutAck = OutAck(ssi: int, carrier: int, slot: int, nr: Bit, ord: nat)

  datatype State = State(
    main: int, now: Time, acks: seq<OutAck>, queue: seq<E>, udata: seq<Msg>,
    vs: map<int, Bit>, accepted: map<int, nat>, received: map<(int, int), nat>)

  /** A TL-DATA or TL-UNITDATA request. */
  datatype Req = Req(ssi: int, group: bool, chanCarrier: Option<int>, stealing: bool, link: int, sdu: seq<bool>)

  /** A received basic-link PDU that parsed; fcsOk is false when a frame check failed. */
  datatype Ind = Ind(ssi: int, carrier: int, pdu: Pdu, sdu: seq<bool>, fcsOk: bool)

  /** An indication to the MLE. */
  datatype Upward = DataInd(ssi: int, sdu: seq<bool>) | UnitdataInd(ssi: int, sdu: seq<bool>)

  function Init(main: int): State {
    State(main, DEFAULT_TIME, [], [], [], map[], map[], map[])
  }

  function Carrier(s: State, r: Req): int {
    if r.chanCarrier.Some? then r.chanCarrier.value else s.main
  }

  function VsOf(s: State, ssi: int): Bit {
    if ssi in s.vs then s.vs[ssi] else 0
  }

  function AcceptedOf(s: State, ssi: int): nat {
    if ssi in s.accepted then s.accepted[ssi] else 0
  }

  function ReceivedOf(s: State, ssi: int, carrier: int): nat {
    if (ssi, carrier) in s.received then s.received[(ssi, carrier)] else 0
  }

  // ---------------------------------------------------------------- acknowledgements owed

  /** Index of the oldest acknowledgement owed to this SSI on this carrier, or the length. */
  function FirstAck(a: seq<OutAck>, ssi: int, carrier: int): (i: nat)
    ensures i <= |a|
    ensures i < |a| ==> a[i].ssi == ssi && a[i].carrier == carrier
    ensures forall j :: 0 <= j < i ==> !(a[j].ssi == ssi && a[j].carrier == carrier)
  {
    if a == [] then 0
    else if a[0].ssi == ssi && a[0].carrier == carrier then 0
    else 1 + FirstAck(a[1..], ssi, carrier)
  }

  function TakeAck(a: seq<OutAck>, ssi: int, carrier: int): (Option<OutAck>, seq<OutAck>) {
    var i := FirstAck(a, ssi, carrier);
    if i == |a| then (None, a) else (Some(a[i]), a[..i] + a[i + 1..])
  }

  // ---------------------------------------------------------------- requests

  /** A TL-DATA request: on a stealing channel it rides on an owed BL-ACK if there is one, group
      and other stealing traffic goes out as BL-UDATA, anything else is queued as BL-DATA or,
      when an acknowledgement is owed, BL-ADATA. `rep` is the state of its reporter. */
  function DataReq(s: State, r: Req, rep: TxState): State {
    var c := Carrier(s, r);
    var (ack, rest) := TakeAck(s.acks, r.ssi, c);
    if r.stealing && ack.Some? then
      var m := Msg(r.ssi, c, BlAck(ack.value.nr), r.sdu, true, r.link, None, Some(ack.value.ord));
      s.(acks := rest, udata := s.udata + [m])
    else if r.stealing || r.group then
      s.(udata := s.udata + [Msg(r.ssi, c, BlUdata, r.sdu, r.stealing, 0, None, None)])
    else
      var ns := VsOf(s, r.ssi);
      var k := AcceptedOf(s, r.ssi);
      var m := DataPdu(r, c, ns, k, ack);
      s.(acks := rest, queue := s.queue + [Entry(r.ssi, k, c, ns, s.now, None, None, m, 0, rep)],
         vs := s.vs[r.ssi := Flip(ns)], accepted := s.accepted[r.ssi := k + 1])
  }

  /** BL-DATA, or BL-ADATA when an acknowledgement rides along. */
  function DataPdu(r: Req, c: int, ns: Bit, serial: nat, ack: Option<OutAck>): Msg {
    if ack.None? then Msg(r.ssi, c, BlData(ns), r.sdu, false, 0, Some(serial), None)
    else Msg(r.ssi, c, BlAdata(ack.value.nr, ns), r.sdu, false, 0, Some(serial), Some(ack.value.ord))
  }

  function UnitdataReq(s: State, r: Req): State {
    s.(udata := s.udata + [Msg(r.ssi, Carrier(s, r), BlUdata, r.sdu, r.stealing, r.link, None, None)])
  }

  // ---------------------------------------------------------------- received PDUs

  /** Index of the first submitted message for this SSI and carrier, or the queue length. */
  function FirstSubmitted<R>(q: seq<Entry<R>>, ssi: int, carrier: int): (i: nat)
    ensures i <= |q|
    ensures i < |q| ==> q[i].ssi == ssi && q[i].carrier == carrier && q[i].submitted.Some?
    ensures forall j :: 0 <= j < i ==> !(q[j].ssi == ssi && q[j].carrier == carrier && q[j].submitted.Some?)
  {
    if q == [] then 0
    else if q[0].ssi == ssi && q[0].carrier == carrier && q[0].submitted.Some? then 0
    else 1 + FirstSubmitted(q[1..], ssi, carrier)
  }

  /** What an acknowledgement does: the new queue, the message that left it (if any), and
      whether the reporter refused the transition. */
  datatype AckEffect = AckEffect(queue: seq<E>, left: Option<E>, panicked: bool)

  function ProcessAck(q: seq<E>, ssi: int, carrier: int, nr: Bit): AckEffect {
    var i := FirstSubmitted(q, ssi, carrier);
    if i == |q| then AckEffect(q, None, false)
    else
      var e := q[i];
      var rest := q[..i] + q[i + 1..];
      if e.done.None? || e.ns != nr then AckEffect([e] + rest, None, false)
      else if e.rep.Transmitted? then AckEffect(rest, Some(e.(rep := Acknowledged)), false)
      else AckEffect(rest, Some(e), true)
  }

  function NsOf(p: Pdu): Option<Bit> {
    match p case BlData(ns) => Some(ns) case BlAdata(_, ns) => Some(ns) case _ => None
  }

  function NrOf(p: Pdu): Option<Bit> {
    match p case BlAdata(nr, _) => Some(nr) case BlAck(nr) => Some(nr) case _ => None
  }

  function UpwardOf(i: Ind): Option<Upward> {
    match i.pdu
    case BlAck(_) => if i.sdu == [] then None else Some(DataInd(i.ssi, i.sdu))
    case BlUdata => Some(UnitdataInd(i.ssi, i.sdu))
    case _ => Some(DataInd(i.ssi, i.sdu))
  }

  datatype RxEffect = RxEffect(state: State, left: Option<E>, up: Option<Upward>, panicked: bool)

  /** A received PDU: owe an acknowledgement for its N(S), apply its N(R), pass the SDU up. */
  function Receive(s: State, i: Ind): RxEffect {
    if !i.fcsOk then RxEffect(s, None, None, false)
    else
      var s1 := if NsOf(i.pdu).Some? then Owe(s, i, NsOf(i.pdu).value) else s;
      if NrOf(i.pdu).None? then RxEffect(s1, None, UpwardOf(i), false)
      else
        var a := ProcessAck(s.queue, i.ssi, i.carrier, NrOf(i.pdu).value);
        RxEffect(s1.(queue := a.queue), a.left, if a.panicked then None else UpwardOf(i), a.panicked)
  }

  /** Schedule the acknowledgement of a received N(S). */
  function Owe(s: State, i: Ind, ns: Bit): State {
    var n := ReceivedOf(s, i.ssi, i.carrier);
    s.(acks := s.acks + [OutAck(i.ssi, i.carrier, UplinkSlot(s.now), ns, n)],
       received := s.received[(i.ssi, i.carrier) := n + 1])
  }

  // ---------------------------------------------------------------- end of tick

  /** The age in slots is compared as an unsigned number. */
  predicate Due(now: Time, done: Time) {
    var age := Elapsed(now, done);
    age < 0 || age >= T251
  }

  /** On the router's clock the retry test fires exactly T251 ticks after the done mark, and keeps
      firing for a whole wrap, across the hyperframe rollover. */
  lemma DueAfterT251(start: Time, i: nat, j: nat)
    requires i <= j && j - i < TIME_INT_WRAP
    ensures Due(AfterTicks(start, j), AfterTicks(start, i)) <==> j - i >= T251
  {
    DiffCountsTicks(start, i, j);
  }

  /** Notice that the UMAC is done with the current copy. */
  function Noticed(e: E, now: Time): E {
    if e.done.None? && (IsTransmitted(e.rep) || e.rep.Discarded?) then e.(done := Some(now)) else e
  }

  predicate TimedOut(e: E, now: Time) {
    var n := Noticed(e, now);
    n.done.Some? && Due(now, n.done.value)
  }

  predicate Resends(e: E, now: Time) {
    TimedOut(e, now) && e.retries < N252
  }

  predicate Exhausted(e: E, now: Time) {
    TimedOut(e, now) && e.retries >= N252
  }

  /** Hand a copy to the UMAC and restart the reporter. */
  function Submit(e: E, now: Time): (r: E)
    ensures r.ssi == e.ssi && r.serial == e.serial
  {
    e.(submitted := Some(SlotOf(now, e.tFirst)), done := None, rep := Pending)
  }

  /** One round of the retransmission loop. */
  function Retried(e: E, now: Time): (r: E)
    ensures r.ssi == e.ssi && r.serial == e.serial
  {
    if Resends(e, now) then Submit(e.(retries := e.retries + 1), now) else Noticed(e, now)
  }

  function RetryPass(q: seq<E>, now: Time): (r: seq<E>) {
    Map(e => Retried(e, now), q)
  }

  /** The messages resubmitted by the retransmission loop, in order. */
  function Resent(q: seq<E>, now: Time): seq<E> {
    if q == [] then []
    else
      var e := q[|q| - 1];
      Resent(q[..|q| - 1], now) + if Resends(e, now) then [Retried(e, now)] else []
  }

  /** The keys the loop collects for give-up, in order. */
  function ExhaustedKeys(q: seq<E>, now: Time): seq<(int, int)> {
    if q == [] then []
    else
      var e := q[|q| - 1];
      ExhaustedKeys(q[..|q| - 1], now) + if Exhausted(e, now) then [(e.ssi, e.carrier)] else []
  }

  /** The last state a message's reporter takes when it is given up. */
  function GivenUp(e: E): E {
    if e.rep.Transmitted? then e.(rep := Lost) else e
  }

  /** Remove, key by key, the first submitted message that matches. */
  function GiveUp(q: seq<E>, keys: seq<(int, int)>): (seq<E>, seq<E>)
    decreases |keys|
  {
    if keys == [] then (q, [])
    else
      var i := FirstSubmitted(q, keys[0].0, keys[0].1);
      if i == |q| then GiveUp(q, keys[1..])
      else
        var (r, left) := GiveUp(q[..i] + q[i + 1..], keys[1..]);
        (r, [GivenUp(q[i])] + left)
  }

  /** A message that is not submitted and has no predecessor of its SSI in the queue. */
  predicate Free(q: seq<E>, i: nat)
    requires i < |q|
  {
    q[i].submitted.None? && forall j :: 0 <= j < i ==> q[j].ssi != q[i].ssi
  }

  function FreePass(q: seq<E>, now: Time): (r: seq<E>)
    ensures |r| == |q|
    ensures forall i :: 0 <= i < |q| ==> r[i] == if Free(q, i) then Submit(q[i], now) else q[i]
  {
    seq(|q|, i requires 0 <= i < |q| => if Free(q, i) then Submit(q[i], now) else q[i])
  }

  function Released(q: seq<E>, now: Time): seq<E> {
    if q == [] then []
    else
      Released(q[..|q| - 1], now) + if Free(q, |q| - 1) then [Submit(q[|q| - 1], now)] else []
  }

  /** After the pass the first message of every SSI is with the UMAC, no other message has been
      touched, and nothing is left to hand down: a second pass does nothing. */
  lemma FreePassSettles(q: seq<E>, now: Time)
    ensures var r := FreePass(q, now);
            && (forall i :: 0 <= i < |q| && (forall j :: 0 <= j < i ==> q[j].ssi != q[i].ssi) ==> r[i].submitted.Some?)
            && (forall i, j :: 0 <= j < i < |q| && q[j].ssi == q[i].ssi ==> r[i] == q[i])
            && FreePass(r, now) == r && Released(r, now) == []
  {
    var r := FreePass(q, now);
    assert forall i :: 0 <= i < |r| ==> !Free(r, i) by {
      hide FreePass;
      assert forall i :: 0 <= i < |q| ==> r[i].ssi == q[i].ssi;
    }
    assert FreePass(r, now) == r;
    NoneReleased(r, now);
  }

  lemma {:induction false} NoneReleased(q: seq<E>, now: Time)
    requires forall i :: 0 <= i < |q| ==> !Free(q, i)
    ensures Released(q, now) == []
  {
    if q != [] {
      var p := q[..|q| - 1];
      assert forall i :: 0 <= i < |p| ==> Free(p, i) == Free(q, i);
      NoneReleased(p, now);
    }
  }

  /** A plain BL-ACK; it steals from the traffic slot it answers, or uses slot 1. */
  function AckReply(a: OutAck): Msg {
    var steal := 2 <= a.slot <= 4;
    Msg(a.ssi, a.carrier, BlAck(a.nr), [], steal, if steal then a.slot else 0, None, Some(a.ord))
  }

  function Copies(q: seq<E>): seq<Msg> {
    Map((e: E) => e.msg, q)
  }

  datatype TickEffect = TickEffect(state: State, resent: seq<E>, left: seq<E>, released: seq<E>, out: seq<Msg>)

  /** The four phases of tick_end: retransmissions and give-ups, free messages, owed
      acknowledgements, unacknowledged data. */
  function TickEnd(s: State): TickEffect {
    var q1 := RetryPass(s.queue, s.now);
    var (q2, left) := GiveUp(q1, ExhaustedKeys(s.queue, s.now));
    var resent := Resent(s.queue, s.now);
    var released := Released(q2, s.now);
    TickEffect(
      s.(queue := FreePass(q2, s.now), acks := [], udata := []),
      resent, left, released,
      Copies(resent) + Copies(released) + Map(AckReply, s.acks) + s.udata)
  }
}
