/** The LLC in its environment: requests, received PDUs, ticks, and a UMAC that sends or discards
    each copy once. Every run of this system is, for every SSI, a run of the link machine. */
module LlcSystem {
  import opened Wrappers
  import opened Tdma
  import opened Links
  import opened TxReceipt
  import opened LlcModel
  import L = LlcLink

  /** A copy of a message on its way: whose it is and the N(S) its PDU carries. */
  datatype Copy = Copy(ssi: int, serial: nat, ns: Bit)

  /** The ord-th acknowledgement number for one SSI on one carrier. */
  datatype Owed = Owed(ssi: int, carrier: int, nr: Bit, ord: nat)

  /** fin: messages that left the queue, with their reporters' last states; umac: copies not yet
      sent or discarded; subs: all submissions; heard: N(S) values received; built: N(R) values
      placed in newly built PDUs; handed: N(R) values of the PDUs handed to the UMAC for the first
      time, in that order. */
  datatype Sys = Sys(
    llc: State, fin: seq<E>, umac: seq<Copy>, subs: seq<L.Sub>,
    tick: nat, clock: Time, open: bool, heard: seq<Owed>, built: seq<Owed>, handed: seq<Owed>)

  /** The reporter handed over with a request is in its initial state and belongs to that request
      alone; the UMAC marks each copy at most once. */
  datatype Event =
    | DataRequest(r: Req)
    | UnitdataRequest(r: Req)
    | Rx(i: Ind)
    | UmacMark(k: nat, to: TxState)
    | StartTick
    | EndTick

  predicate Enabled(y: Sys, ev: Event) {
    match ev
    case UmacMark(k, to) => k < |y.umac| && (to.Transmitted? || to.Discarded?)
    case StartTick => !y.open
    case EndTick => y.open
    case _ => true
  }

  function EntrySsi(e: E): int { e.ssi }
  function CopySsi(c: Copy): int { c.ssi }
  function SubSsi(s: L.Sub): int { s.ssi }
  function KeySsi(k: (int, int)): int { k.0 }
  function CopySerial(c: Copy): nat { c.serial }
  function AsCopy(e: E): Copy { Copy(e.ssi, e.serial, if NsOf(e.msg.pdu).Some? then NsOf(e.msg.pdu).value else 0) }

  function ToSeq<T>(o: Option<T>): seq<T> {
    if o.Some? then [o.value] else []
  }

  function MarkedIn(e: E, c: Copy, to: TxState): (r: E)
    ensures r.ssi == e.ssi && r.serial == e.serial
  {
    if e.ssi == c.ssi then L.Marked(e, c.serial, to) else e
  }

  /** N(R) of a newly built PDU. */
  function BuiltBy(m: Msg): seq<Owed> {
    if NrOf(m.pdu).Some? && m.answers.Some? then [Owed(m.ssi, m.carrier, NrOf(m.pdu).value, m.answers.value)] else []
  }

  /** The N(R) values of some PDUs, in order. */
  function Numbers(ms: seq<Msg>): seq<Owed> {
    if ms == [] then [] else Numbers(ms[..|ms| - 1]) + BuiltBy(ms[|ms| - 1])
  }

  function AckOwed(a: OutAck): Owed { Owed(a.ssi, a.carrier, a.nr, a.ord) }

  function Next(y: Sys, ev: Event): Sys
    requires Enabled(y, ev)
  {
    match ev
    case DataRequest(r) =>
      var s' := DataReq(y.llc, r, Pending);
      y.(llc := s', built := y.built + NewPdus(y.llc, s'))
    case UnitdataRequest(r) =>
      y.(llc := UnitdataReq(y.llc, r))
    case Rx(i) =>
      var e := Receive(y.llc, i);
      y.(llc := e.state, fin := y.fin + ToSeq(e.left), heard := y.heard + Heard(y.llc, i))
    case UmacMark(k, to) =>
      var f := (e: E) => MarkedIn(e, y.umac[k], to);
      y.(llc := y.llc.(queue := Map(f, y.llc.queue)), fin := Map(f, y.fin), umac := y.umac[..k] + y.umac[k + 1..])
    case StartTick =>
      y.(llc := y.llc.(now := y.clock), open := true)
    case EndTick =>
      var t := TickEnd(y.llc);
      var sent := t.resent + t.released;
      y.(llc := t.state, fin := y.fin + t.left, umac := y.umac + Map(AsCopy, sent),
         subs := y.subs + L.SubsFor(sent, y.tick + 1), tick := y.tick + 1,
         clock := Tick(y.clock), open := false,
         built := y.built + Numbers(Map(AckReply, y.llc.acks)),
         handed := y.handed + Numbers(Copies(t.released) + Map(AckReply, y.llc.acks) + y.llc.udata))
  }

  function Heard(s: State, i: Ind): seq<Owed> {
    if i.fcsOk && NsOf(i.pdu).Some?
    then [Owed(i.ssi, i.carrier, NsOf(i.pdu).value, ReceivedOf(s, i.ssi, i.carrier))] else []
  }

  /** The N(R) values of the PDUs a request adds to the message queue or to the unacknowledged
      queue. */
  function NewPdus(s: State, s': State): seq<Owed> {
    (if |s'.queue| > |s.queue| then BuiltBy(s'.queue[|s.queue|].msg) else [])
    + (if |s'.udata| > |s.udata| then BuiltBy(s'.udata[|s.udata|]) else [])
  }

  // ---------------------------------------------------------------- one SSI of the system

  function Proj(y: Sys, s: int): L.Link {
    L.Link(Sel(EntrySsi, y.llc.queue, s), Sel(EntrySsi, y.fin, s), VsOf(y.llc, s),
           Map(CopySerial, Sel(CopySsi, y.umac, s)), Sel(SubSsi, y.subs, s),
           y.tick, y.clock, y.llc.now, y.open)
  }

  ghost predicate Inv(y: Sys) {
    forall s: int {:trigger Proj(y, s)} ::
      && L.Inv(Proj(y, s))
      && AcceptedOf(y.llc, s) == |Proj(y, s).fin + Proj(y, s).q|
  }

  /** Of the messages of one SSI only the first can be submitted. */
  ghost predicate HeadOnly(q: seq<E>) {
    forall s: int, i: int {:trigger Sel(EntrySsi, q, s)[i]} ::
      1 <= i < |Sel(EntrySsi, q, s)| ==> Sel(EntrySsi, q, s)[i].submitted.None?
  }

  lemma InvHeadOnly(y: Sys)
    requires Inv(y)
    ensures HeadOnly(y.llc.queue)
  {
    forall s: int, i: int | 1 <= i < |Sel(EntrySsi, y.llc.queue, s)|
      ensures Sel(EntrySsi, y.llc.queue, s)[i].submitted.None?
    {
      assert Proj(y, s).q[i] == Sel(EntrySsi, y.llc.queue, s)[i];
    }
  }

  /** The lookup by SSI and carrier finds the first message of that SSI or nothing. */
  lemma FirstSubmittedIsHead(q: seq<E>, ssi: int, carrier: int)
    requires HeadOnly(q)
    ensures var i := FirstSubmitted(q, ssi, carrier);
            var l := Sel(EntrySsi, q, ssi);
            && (i < |q| ==> Sel(EntrySsi, q[..i], ssi) == [] && l != [] && l[0] == q[i])
            && (i == |q| && l != [] ==> !(l[0].submitted.Some? && l[0].carrier == carrier))
  {
    var i := FirstSubmitted(q, ssi, carrier);
    var l := Sel(EntrySsi, q, ssi);
    if i < |q| {
      SelSplit(EntrySsi, q, i, ssi);
      SelOne(EntrySsi, q[i], ssi);
      var a := |Sel(EntrySsi, q[..i], ssi)|;
      assert l[a] == q[i];
    } else if l != [] {
      var _ := SelAt(EntrySsi, q, ssi, 0);
    }
  }

  /** Taking out the first message of its SSI, seen from any SSI. */
  lemma TakeHead(q: seq<E>, i: nat, s: int)
    requires i < |q| && Sel(EntrySsi, q[..i], q[i].ssi) == []
    ensures var l := Sel(EntrySsi, q, s);
            && (s == q[i].ssi ==> l != [] && l[0] == q[i] && Sel(EntrySsi, q[..i] + q[i + 1..], s) == l[1..])
            && (s != q[i].ssi ==> Sel(EntrySsi, q[..i] + q[i + 1..], s) == l)
  {
    SelSplit(EntrySsi, q, i, s);
    SelOne(EntrySsi, q[i], s);
    SelConcat(EntrySsi, q[..i], q[i + 1..], s);
  }

  /** Putting an ignored acknowledgement's message back at the very front reorders messages of
      different SSIs but never those of one SSI. */
  lemma PushFrontKeepsLinks(q: seq<E>, i: nat, s: int)
    requires i < |q| && Sel(EntrySsi, q[..i], q[i].ssi) == []
    ensures Sel(EntrySsi, [q[i]] + (q[..i] + q[i + 1..]), s) == Sel(EntrySsi, q, s)
  {
    hide Sel;
    TakeHead(q, i, s);
    SelConcat(EntrySsi, [q[i]], q[..i] + q[i + 1..], s);
    SelOne(EntrySsi, q[i], s);
  }

  lemma ProcessAckOnLink(q: seq<E>, ssi: int, carrier: int, nr: Bit, s: int, l: L.Link)
    requires HeadOnly(q) && l.q == Sel(EntrySsi, q, s)
    ensures var a := ProcessAck(q, ssi, carrier, nr);
            var l' := if s == ssi then L.Ack(l, carrier, nr) else l;
            && Sel(EntrySsi, a.queue, s) == l'.q
            && l.fin + Sel(EntrySsi, ToSeq(a.left), s) == l'.fin
  {
    hide Sel, HeadOnly;
    var i := FirstSubmitted(q, ssi, carrier);
    var a := ProcessAck(q, ssi, carrier, nr);
    FirstSubmittedIsHead(q, ssi, carrier);
    if i < |q| {
      TakeHead(q, i, s);
      PushFrontKeepsLinks(q, i, s);
      if a.left.Some? {
        SelOne(EntrySsi, a.left.value, s);
      }
    }
    SelEmpty(s);
  }

  lemma SelEmpty(s: int)
    ensures Sel(EntrySsi, [], s) == []
  {
  }

  // ---------------------------------------------------------------- end of tick, SSI by SSI

  lemma RetryPassOnLink(q: seq<E>, now: Time, s: int)
    ensures Sel(EntrySsi, RetryPass(q, now), s) == RetryPass(Sel(EntrySsi, q, s), now)
  {
    SelMap(EntrySsi, EntrySsi, e => Retried(e, now), q, s);
  }

  lemma {:induction false} ResentOnLink(q: seq<E>, now: Time, s: int)
    ensures Sel(EntrySsi, Resent(q, now), s) == Resent(Sel(EntrySsi, q, s), now)
  {
    hide Resends, Retried;
    if q != [] {
      var n := |q| - 1;
      ResentOnLink(q[..n], now, s);
      var x := if Resends(q[n], now) then [Retried(q[n], now)] else [];
      SelConcat(EntrySsi, Resent(q[..n], now), x, s);
      SelOne(EntrySsi, Retried(q[n], now), s);
      var l := Sel(EntrySsi, q[..n], s);
      assert Sel(EntrySsi, q, s) == if q[n].ssi == s then l + [q[n]] else l;
      assert (l + [q[n]])[..|l + [q[n]]| - 1] == l;
    }
  }

  lemma {:induction false} ExhaustedKeysOnLink(q: seq<E>, now: Time, s: int)
    ensures Sel(KeySsi, ExhaustedKeys(q, now), s) == ExhaustedKeys(Sel(EntrySsi, q, s), now)
  {
    hide Exhausted;
    if q != [] {
      var n := |q| - 1;
      ExhaustedKeysOnLink(q[..n], now, s);
      var x := if Exhausted(q[n], now) then [(q[n].ssi, q[n].carrier)] else [];
      SelConcat(KeySsi, ExhaustedKeys(q[..n], now), x, s);
      SelOne(KeySsi, (q[n].ssi, q[n].carrier), s);
      var l := Sel(EntrySsi, q[..n], s);
      assert Sel(EntrySsi, q, s) == if q[n].ssi == s then l + [q[n]] else l;
      assert (l + [q[n]])[..|l + [q[n]]| - 1] == l;
    }
  }

  /** Messages that no round of the loop would touch contribute nothing. */
  lemma {:induction false} QuietTail(l: seq<E>, now: Time)
    requires forall i :: 1 <= i < |l| ==> L.Waiting(l[i])
    ensures Resent(l, now) == if l != [] && Resends(l[0], now) then [Retried(l[0], now)] else []
    ensures ExhaustedKeys(l, now) == if l != [] && Exhausted(l[0], now) then [(l[0].ssi, l[0].carrier)] else []
  {
    hide Elapsed, Tick, SlotOf, Resends, Retried, Exhausted;
    if |l| >= 1 {
      var n := |l| - 1;
      QuietTail(l[..n], now);
      if n > 0 {
        L.WaitingIsLeftAlone(l[n], now);
        assert l[..n][0] == l[0];
      }
    }
  }

  /** Each key names a different SSI, and the first message of that SSI. */
  ghost predicate KeysMatch(q: seq<E>, keys: seq<(int, int)>) {
    forall s: int {:trigger Sel(KeySsi, keys, s)} ::
      Sel(KeySsi, keys, s) != [] ==>
        var l := Sel(EntrySsi, q, s);
        l != [] && l[0].submitted.Some? && Sel(KeySsi, keys, s) == [(s, l[0].carrier)]
  }

  lemma GiveUpStep(q: seq<E>, keys: seq<(int, int)>) returns (i: nat)
    requires HeadOnly(q) && KeysMatch(q, keys) && keys != []
    ensures i == FirstSubmitted(q, keys[0].0, keys[0].1) && i < |q| && q[i].ssi == keys[0].0
    ensures Sel(EntrySsi, q[..i], q[i].ssi) == []
    ensures HeadOnly(q[..i] + q[i + 1..]) && KeysMatch(q[..i] + q[i + 1..], keys[1..])
    ensures forall s: int :: Sel(KeySsi, keys, s) == (if s == keys[0].0 then [keys[0]] else Sel(KeySsi, keys[1..], s))
    ensures Sel(KeySsi, keys[1..], keys[0].0) == []
  {
    hide Sel;
    var s0 := keys[0].0;
    i := FirstSubmitted(q, s0, keys[0].1);
    FirstSubmittedIsHead(q, s0, keys[0].1);
    forall s: int
      ensures Sel(KeySsi, keys, s) == (if s == s0 then [keys[0]] else []) + Sel(KeySsi, keys[1..], s)
    {
      assert keys == [keys[0]] + keys[1..];
      SelConcat(KeySsi, [keys[0]], keys[1..], s);
      SelOne(KeySsi, keys[0], s);
    }
    assert Sel(KeySsi, keys, s0)[0] == keys[0];
    assert |Sel(KeySsi, keys, s0)| == 1;
    assert keys[0] == (s0, Sel(EntrySsi, q, s0)[0].carrier);
    var q' := q[..i] + q[i + 1..];
    forall s: int
      ensures Sel(EntrySsi, q', s) == if s == s0 then Sel(EntrySsi, q, s)[1..] else Sel(EntrySsi, q, s)
    {
      TakeHead(q, i, s);
    }
    assert HeadOnly(q') by {
      forall s: int, j: int | 1 <= j < |Sel(EntrySsi, q', s)| ensures Sel(EntrySsi, q', s)[j].submitted.None? {
        if s == s0 {
          assert Sel(EntrySsi, q', s)[j] == Sel(EntrySsi, q, s)[j + 1];
        } else {
          assert Sel(EntrySsi, q', s)[j] == Sel(EntrySsi, q, s)[j];
        }
      }
    }
    forall s: int | Sel(KeySsi, keys[1..], s) != []
      ensures Sel(EntrySsi, q', s) != [] && Sel(EntrySsi, q', s)[0].submitted.Some?
           && Sel(KeySsi, keys[1..], s) == [(s, Sel(EntrySsi, q', s)[0].carrier)]
    {
      assert s != s0;
      assert Sel(KeySsi, keys, s) == Sel(KeySsi, keys[1..], s);
    }
  }

  /** The lookup by key removes exactly the flagged message of each flagged SSI and nothing of
      any other SSI. */
  lemma {:induction false} GiveUpOnLink(q: seq<E>, keys: seq<(int, int)>, s: int)
    requires HeadOnly(q) && KeysMatch(q, keys)
    ensures Sel(KeySsi, keys, s) != [] ==> Sel(EntrySsi, q, s) != []
    ensures Sel(EntrySsi, GiveUp(q, keys).0, s)
         == if Sel(KeySsi, keys, s) == [] then Sel(EntrySsi, q, s) else Sel(EntrySsi, q, s)[1..]
    ensures Sel(EntrySsi, GiveUp(q, keys).1, s)
         == if Sel(KeySsi, keys, s) == [] then [] else [GivenUp(Sel(EntrySsi, q, s)[0])]
    decreases |keys|
  {
    hide Sel;
    if keys == [] {
      SelNone(KeySsi, keys, s);
      SelEmpty(s);
    } else {
      var i := GiveUpStep(q, keys);
      var q' := q[..i] + q[i + 1..];
      GiveUpOnLink(q', keys[1..], s);
      TakeHead(q, i, s);
      var left := GiveUp(q', keys[1..]).1;
      SelConcat(EntrySsi, [GivenUp(q[i])], left, s);
      SelOne(EntrySsi, GivenUp(q[i]), s);
    }
  }

  lemma FreeInLink(q: seq<E>, s: int)
    requires q != [] && q[|q| - 1].ssi == s
    ensures var l := Sel(EntrySsi, q, s);
            l != [] && l[|l| - 1] == q[|q| - 1] && Free(l, |l| - 1) == Free(q, |q| - 1)
  {
    var n := |q| - 1;
    var p, l := Sel(EntrySsi, q[..n], s), Sel(EntrySsi, q, s);
    assert l == p + [q[n]];
    if p != [] {
      var j := SelAt(EntrySsi, q[..n], s, 0);
      assert q[j].ssi == s;
      assert l[0] == p[0] && l[0].ssi == s;
    } else if exists j :: 0 <= j < n && q[j].ssi == s {
      var j :| 0 <= j < n && q[j].ssi == s;
      SelSplit(EntrySsi, q[..n], j, s);
      SelOne(EntrySsi, q[..n][j], s);
      assert false;
    }
  }

  lemma FreePrefix(p: seq<E>, e: E, i: nat)
    requires i < |p|
    ensures Free(p + [e], i) == Free(p, i)
  {
    assert forall j :: 0 <= j <= i ==> (p + [e])[j] == p[j];
  }

  lemma FreePassSnoc(p: seq<E>, e: E, now: Time)
    ensures FreePass(p + [e], now) == FreePass(p, now) + [if Free(p + [e], |p|) then Submit(e, now) else e]
  {
    hide Submit, Free;
    var x := if Free(p + [e], |p|) then Submit(e, now) else e;
    var a, b := FreePass(p + [e], now), FreePass(p, now) + [x];
    forall i | 0 <= i < |a| ensures a[i] == b[i] {
      if i < |p| {
        FreePrefix(p, e, i);
        assert (p + [e])[i] == p[i];
      } else {
        assert (p + [e])[i] == e;
      }
    }
  }

  lemma ReleasedSnoc(p: seq<E>, e: E, now: Time)
    ensures Released(p + [e], now) == Released(p, now) + if Free(p + [e], |p|) then [Submit(e, now)] else []
  {
    hide Submit, Free;
    assert (p + [e])[..|p + [e]| - 1] == p;
  }

  lemma {:induction false} FreePassOnLink(q: seq<E>, now: Time, s: int)
    ensures Sel(EntrySsi, FreePass(q, now), s) == FreePass(Sel(EntrySsi, q, s), now)
    ensures Sel(EntrySsi, Released(q, now), s) == Released(Sel(EntrySsi, q, s), now)
  {
    hide Submit, Free, FreePass, Released, Sel;
    if q == [] {
      SelEmpty(s);
      FreePassNil(now);
    } else {
      var n := |q| - 1;
      var p, e := q[..n], q[n];
      assert q == p + [e];
      FreePassOnLink(p, now, s);
      FreePassSnoc(p, e, now);
      ReleasedSnoc(p, e, now);
      SelConcat(EntrySsi, p, [e], s);
      SelOne(EntrySsi, e, s);
      var x := if Free(q, n) then Submit(e, now) else e;
      SelConcat(EntrySsi, FreePass(p, now), [x], s);
      SelOne(EntrySsi, x, s);
      SelConcat(EntrySsi, Released(p, now), if Free(q, n) then [x] else [], s);
      SelEmpty(s);
      if e.ssi == s {
        FreeInLink(q, s);
        FreePassSnoc(Sel(EntrySsi, p, s), e, now);
        ReleasedSnoc(Sel(EntrySsi, p, s), e, now);
      } else {
        assert Sel(EntrySsi, q, s) == Sel(EntrySsi, p, s);
      }
    }
  }

  lemma FreePassNil(now: Time)
    ensures FreePass([], now) == [] && Released([], now) == []
  {
  }

  lemma NotFree(l: seq<E>, i: nat)
    requires 1 <= i < |l| && l[0].ssi == l[i].ssi
    ensures !Free(l, i)
  {
  }

  /** Among the messages of one SSI only the first can be free. */
  lemma {:induction false} FreeOnOneLink(l: seq<E>, now: Time, s: int)
    requires forall i :: 0 <= i < |l| ==> l[i].ssi == s
    ensures var h := if l != [] && l[0].submitted.None? then [Submit(l[0], now)] else [];
            Released(l, now) == h && FreePass(l, now) == if h == [] then l else h + l[1..]
  {
    if |l| <= 1 {
      FreeOnOne(l, now);
    } else {
      hide Submit, Free, FreePass, Released;
      var n := |l| - 1;
      var p, e := l[..n], l[n];
      assert l == p + [e];
      FreeOnOneLink(p, now, s);
      FreePassSnoc(p, e, now);
      ReleasedSnoc(p, e, now);
      NotFree(l, n);
    }
  }

  lemma FreeOnOne(l: seq<E>, now: Time)
    requires |l| <= 1
    ensures var h := if l != [] && l[0].submitted.None? then [Submit(l[0], now)] else [];
            Released(l, now) == h && FreePass(l, now) == if h == [] then l else h + l[1..]
  {
    hide SlotOf;
  }

  // ---------------------------------------------------------------- the system refines its links

  /** The message a request queues, if it queues one. */
  predicate Queues(r: Req) {
    !r.stealing && !r.group
  }

  /** What an event means to one SSI. */
  function OnLink(y: Sys, ev: Event, s: int): L.Link
    requires Enabled(y, ev)
  {
    var l := Proj(y, s);
    match ev
    case DataRequest(r) =>
      if Queues(r) && s == r.ssi then L.Request(l, Next(y, ev).llc.queue[|y.llc.queue|]) else l
    case UnitdataRequest(_) => l
    case Rx(i) =>
      if i.fcsOk && NrOf(i.pdu).Some? && s == i.ssi then L.Ack(l, i.carrier, NrOf(i.pdu).value) else l
    case UmacMark(k, to) =>
      if s == y.umac[k].ssi && |Sel(CopySsi, y.umac[..k], s)| < |l.umac|
      then L.Mark(l, |Sel(CopySsi, y.umac[..k], s)|, to)
      else l
    case StartTick => L.TickStart(l)
    case EndTick => L.TickEnd(l)
  }

  lemma RequestRefines(y: Sys, r: Req, s: int)
    ensures Proj(Next(y, DataRequest(r)), s) == OnLink(y, DataRequest(r), s)
    ensures Proj(Next(y, UnitdataRequest(r)), s) == Proj(y, s)
  {
    hide Sel, TakeAck, NewPdus;
    if Queues(r) {
      var e := Next(y, DataRequest(r)).llc.queue[|y.llc.queue|];
      SelConcat(EntrySsi, y.llc.queue, [e], s);
      SelOne(EntrySsi, e, s);
    }
  }

  lemma RxRefines(y: Sys, i: Ind, s: int)
    requires Inv(y)
    ensures Proj(Next(y, Rx(i)), s) == OnLink(y, Rx(i), s)
  {
    hide Sel, L.Inv;
    InvHeadOnly(y);
    SelEmpty(s);
    var e := Receive(y.llc, i);
    SelConcat(EntrySsi, y.fin, ToSeq(e.left), s);
    if i.fcsOk && NrOf(i.pdu).Some? {
      ProcessAckOnLink(y.llc.queue, i.ssi, i.carrier, NrOf(i.pdu).value, s, Proj(y, s));
    }
  }

  lemma MarkOthers(q: seq<E>, c: Copy, to: TxState, s: int)
    ensures Sel(EntrySsi, Map((e: E) => MarkedIn(e, c, to), q), s)
         == if s == c.ssi then Map((e: E) => L.Marked(e, c.serial, to), Sel(EntrySsi, q, s)) else Sel(EntrySsi, q, s)
  {
    SelMap(EntrySsi, EntrySsi, (e: E) => MarkedIn(e, c, to), q, s);
    var l := Sel(EntrySsi, q, s);
    forall i | 0 <= i < |l| ensures l[i].ssi == s {
      var _ := SelAt(EntrySsi, q, s, i);
    }
  }

  lemma MarkRefines(y: Sys, k: nat, to: TxState, s: int)
    requires Enabled(y, UmacMark(k, to))
    ensures Proj(Next(y, UmacMark(k, to)), s) == OnLink(y, UmacMark(k, to), s)
    ensures s == y.umac[k].ssi ==> |Sel(CopySsi, y.umac[..k], s)| < |Proj(y, s).umac|
  {
    hide Sel;
    var c := y.umac[k];
    MarkOthers(y.llc.queue, c, to, s);
    MarkOthers(y.fin, c, to, s);
    SelSplit(CopySsi, y.umac, k, s);
    SelOne(CopySsi, c, s);
    SelConcat(CopySsi, y.umac[..k], y.umac[k + 1..], s);
    var a, b := Sel(CopySsi, y.umac[..k], s), Sel(CopySsi, y.umac[k + 1..], s);
    MapConcat(CopySerial, a, b);
    if s == c.ssi {
      assert Sel(CopySsi, y.umac, s) == a + [c] + b;
      var u := Proj(y, s).umac;
      assert u[|a|] == c.serial;
      assert u[..|a|] == Map(CopySerial, a) && u[|a| + 1..] == Map(CopySerial, b);
    } else {
      assert Sel(CopySsi, y.umac, s) == a + b;
    }
  }

  lemma ExhaustedAfterRetry(e: E, now: Time)
    ensures Exhausted(Retried(e, now), now) == Exhausted(e, now)
    ensures Exhausted(e, now) ==> Retried(e, now).carrier == e.carrier && Retried(e, now).submitted == e.submitted
  {
    hide Elapsed, Tick, SlotOf;
  }

  /** The flags collected on the shared queue, seen from one SSI, and why the lookup by key
      finds the flagged message. */
  lemma FlagsOnLink(y: Sys, s: int)
    requires Inv(y) && y.open
    ensures var l := Proj(y, s);
            && Sel(KeySsi, ExhaustedKeys(y.llc.queue, y.llc.now), s)
               == (if l.q != [] && Exhausted(l.q[0], l.now) then [(s, l.q[0].carrier)] else [])
            && Sel(EntrySsi, Resent(y.llc.queue, y.llc.now), s) == L.HeadResent(l)
            && Sel(EntrySsi, RetryPass(y.llc.queue, y.llc.now), s) == L.RetryStage(l).q
            && (l.q != [] && Exhausted(l.q[0], l.now) ==> l.q[0].submitted.Some?)
            && (forall i :: 1 <= i < |l.q| ==> L.RetryStage(l).q[i].submitted.None?)
  {
    hide Elapsed, Tick, SlotOf, Exhausted, Retried, Resends, Sel;
    var l := Proj(y, s);
    assert L.Inv(l);
    ExhaustedKeysOnLink(y.llc.queue, y.llc.now, s);
    ResentOnLink(y.llc.queue, y.llc.now, s);
    RetryPassOnLink(y.llc.queue, y.llc.now, s);
    QuietTail(l.q, l.now);
    L.RetryTouchesHeadOnly(l);
    if l.q != [] {
      var _ := SelAt(EntrySsi, y.llc.queue, s, 0);
      if L.Waiting(l.q[0]) {
        L.WaitingIsLeftAlone(l.q[0], l.now);
      }
    }
  }

  lemma GiveUpReady(y: Sys)
    requires Inv(y) && y.open
    ensures HeadOnly(RetryPass(y.llc.queue, y.llc.now))
    ensures KeysMatch(RetryPass(y.llc.queue, y.llc.now), ExhaustedKeys(y.llc.queue, y.llc.now))
  {
    hide Elapsed, Tick, SlotOf, Exhausted, Retried, Resends, Sel, L.Inv, ExhaustedKeys, RetryPass, L.RetryStage;
    var q1, keys := RetryPass(y.llc.queue, y.llc.now), ExhaustedKeys(y.llc.queue, y.llc.now);
    forall s: int, i: int | 1 <= i < |Sel(EntrySsi, q1, s)| ensures Sel(EntrySsi, q1, s)[i].submitted.None? {
      FlagsOnLink(y, s);
      RetryLength(Proj(y, s));
    }
    forall s: int | Sel(KeySsi, keys, s) != []
      ensures Sel(EntrySsi, q1, s) != [] && Sel(EntrySsi, q1, s)[0].submitted.Some?
           && Sel(KeySsi, keys, s) == [(s, Sel(EntrySsi, q1, s)[0].carrier)]
    {
      FlagsOnLink(y, s);
      RetryLength(Proj(y, s));
      ExhaustedAfterRetry(Proj(y, s).q[0], y.llc.now);
    }
  }

  lemma RetryLength(l: L.Link)
    ensures |L.RetryStage(l).q| == |l.q|
    ensures l.q != [] ==> L.RetryStage(l).q[0] == Retried(l.q[0], l.now)
  {
  }

  lemma HandRefines(umac: seq<Copy>, subs: seq<L.Sub>, sent: seq<E>, l: L.Link, s: int)
    requires l.umac == Map(CopySerial, Sel(CopySsi, umac, s)) && l.subs == Sel(SubSsi, subs, s)
    ensures var h := L.Hand(l, Sel(EntrySsi, sent, s));
            && Map(CopySerial, Sel(CopySsi, umac + Map(AsCopy, sent), s)) == h.umac
            && Sel(SubSsi, subs + L.SubsFor(sent, l.tick + 1), s) == h.subs
  {
    hide Sel;
    SelConcat(CopySsi, umac, Map(AsCopy, sent), s);
    SelMap(EntrySsi, CopySsi, AsCopy, sent, s);
    MapConcat(CopySerial, Sel(CopySsi, umac, s), Map(AsCopy, Sel(EntrySsi, sent, s)));
    assert Map(CopySerial, Map(AsCopy, Sel(EntrySsi, sent, s))) == L.Serials(Sel(EntrySsi, sent, s));
    SelConcat(SubSsi, subs, L.SubsFor(sent, l.tick + 1), s);
    SelMap(EntrySsi, SubSsi, (e: E) => L.Sub(e.ssi, e.serial, l.tick + 1), sent, s);
  }

  lemma HandTwice(l: L.Link, a: seq<E>, b: seq<E>)
    ensures L.Hand(L.Hand(l, a), b) == L.Hand(l, a + b)
    ensures L.Hand(l, []) == l
  {
    MapConcat((e: E) => e.serial, a, b);
    MapConcat((e: E) => L.Sub(e.ssi, e.serial, l.tick + 1), a, b);
    assert l.umac + L.Serials(a) + L.Serials(b) == l.umac + L.Serials(a + b);
    assert l.subs + L.SubsFor(a, l.tick + 1) + L.SubsFor(b, l.tick + 1) == l.subs + L.SubsFor(a + b, l.tick + 1);
    L.HandNone(l);
  }

  /** The queue after retransmissions and give-ups, seen from one SSI. */
  lemma GiveUpQueueOnLink(y: Sys, s: int)
    requires Inv(y) && y.open
    ensures var (q2, left) := GiveUp(RetryPass(y.llc.queue, y.llc.now), ExhaustedKeys(y.llc.queue, y.llc.now));
            var l2 := L.GiveUpStage(L.RetryStage(Proj(y, s)));
            && Sel(EntrySsi, q2, s) == l2.q
            && Proj(y, s).fin + Sel(EntrySsi, left, s) == l2.fin
            && l2.now == y.llc.now
  {
    hide Elapsed, Exhausted, Retried, Resends, Sel, L.Inv, ExhaustedKeys, RetryPass, L.RetryStage, Inv, GiveUp;
    var l := Proj(y, s);
    GiveUpReady(y);
    FlagsOnLink(y, s);
    RetryLength(l);
    if l.q != [] {
      ExhaustedAfterRetry(l.q[0], l.now);
    }
    GiveUpOnLink(RetryPass(y.llc.queue, y.llc.now), ExhaustedKeys(y.llc.queue, y.llc.now), s);
    StageFrame(l);
  }

  /** The queue part of the end of a tick. */
  lemma TickQueueOnLink(y: Sys, s: int)
    requires Inv(y) && y.open
    ensures var t := TickEnd(y.llc);
            var l2 := L.GiveUpStage(L.RetryStage(Proj(y, s)));
            && Sel(EntrySsi, t.state.queue, s) == L.ReleaseStage(l2).q
            && Proj(y, s).fin + Sel(EntrySsi, t.left, s) == l2.fin
            && Sel(EntrySsi, t.released, s) == L.HeadReleased(l2)
  {
    hide Sel, L.RetryStage, L.GiveUpStage, Submit, Inv, GiveUp, ExhaustedKeys, RetryPass, FreePass, Released, Resent;
    GiveUpQueueOnLink(y, s);
    var q2 := GiveUp(RetryPass(y.llc.queue, y.llc.now), ExhaustedKeys(y.llc.queue, y.llc.now)).0;
    FreePassOnLink(q2, y.llc.now, s);
    var m := Sel(EntrySsi, q2, s);
    forall i | 0 <= i < |m| ensures m[i].ssi == s {
      var _ := SelAt(EntrySsi, q2, s, i);
    }
    FreeOnOneLink(m, y.llc.now, s);
  }

  lemma StageFrame(l: L.Link)
    ensures var l1 := L.RetryStage(l);
            && l1.now == l.now && l1.fin == l.fin && l1.tick == l.tick
            && l1.umac == L.Hand(l, L.HeadResent(l)).umac && l1.subs == L.Hand(l, L.HeadResent(l)).subs
            && l1.vs == l.vs && l1.clock == l.clock
  {
  }

  lemma TickEndRefines(y: Sys, s: int)
    requires Inv(y) && y.open
    ensures Proj(Next(y, EndTick), s) == L.TickEnd(Proj(y, s))
  {
    hide Elapsed, Tick, SlotOf, Exhausted, Retried, Resends, Sel, L.Inv, Inv, ExhaustedKeys, RetryPass, L.RetryStage,
      Submit, L.HeadResent, GiveUp, FreePass, Released, Numbers, Copies, AckReply, Resent;
    var l := Proj(y, s);
    var t := TickEnd(y.llc);
    var l2 := L.GiveUpStage(L.RetryStage(l));
    TickQueueOnLink(y, s);
    FlagsOnLink(y, s);
    StageFrame(l);
    SelConcat(EntrySsi, y.fin, t.left, s);
    SelConcat(EntrySsi, t.resent, t.released, s);
    HandRefines(y.umac, y.subs, t.resent + t.released, l, s);
    HandTwice(l, L.HeadResent(l), L.HeadReleased(l2));
    HandTwice(l2, [], []);
  }
}
