/** What the LLC says: the messages it hands to the UMAC and the indications it gives to the MLE over
    a run, field by field, read off the events. */
module LlcContent {
  import opened Wrappers
  import opened Tdma
  import opened Links
  import opened TxReceipt
  import opened LlcModel
  import opened LlcSystem
  import L = LlcLink
  import T = LlcTheorems

  // ---------------------------------------------------------------- what the events say

  /** The requests for acknowledged transfer to one SSI, in order. */
  function Accepted(evs: seq<Event>, s: int): seq<Req> {
    if evs == [] then [] else Accepted(evs[..|evs| - 1], s) + AcceptedNow(evs[|evs| - 1], s)
  }

  function AcceptedNow(ev: Event, s: int): seq<Req> {
    if ev.DataRequest? && !ev.r.stealing && !ev.r.group && ev.r.ssi == s then [ev.r] else []
  }

  /** The carrier of a request: that of its channel, else the main one. */
  function On(main: int, r: Req): int {
    match r.chanCarrier case Some(c) => c case None => main
  }

  /** A received number and the timeslot it came in, two before the downlink's. */
  datatype Num = Num(nr: Bit, slot: int)

  /** The numbers received on one SSI and carrier in good PDUs, in order. */
  function HeardOn(main: int, clock: Time, evs: seq<Event>, k: (int, int)): seq<Num> {
    if evs == [] then []
    else
      var n := |evs| - 1;
      HeardOn(main, clock, evs[..n], k) + HeardNow(T.After(T.Start(main, clock), evs[..n]).llc.now, evs[n], k)
  }

  function HeardNow(now: Time, ev: Event, k: (int, int)): seq<Num> {
    if ev.Rx? && ev.i.fcsOk && (ev.i.ssi, ev.i.carrier) == k then
      match ev.i.pdu
      case BlData(ns) => [Num(ns, (now.t + 1) % 4 + 1)]
      case BlAdata(_, ns) => [Num(ns, (now.t + 1) % 4 + 1)]
      case _ => []
    else []
  }

  /** A copy of an acknowledged message: it carries the SDU of the request its reporter names, on that
      request's carrier, the parity of its number as N(S), and, if it answers one, a received number
      as N(R). */
  ghost predicate Carries(main: int, clock: Time, evs: seq<Event>, m: Msg) {
    && m.reporter.Some?
    && var a, k := Accepted(evs, m.ssi), m.reporter.value;
       && k < |a| && m.sdu == a[k].sdu && m.carrier == On(main, a[k]) && !m.stealing && m.link == 0
       && match m.answers {
            case None => m.pdu == BlData(k % 2)
            case Some(n) =>
              var h := HeardOn(main, clock, evs, (m.ssi, m.carrier));
              n < |h| && m.pdu == BlAdata(h[n].nr, k % 2)
          }
  }

  /** A plain reply: it carries a received number and no SDU, and steals from the slot in which that
      number came unless that was slot 1. */
  ghost predicate Replies(main: int, clock: Time, evs: seq<Event>, m: Msg) {
    && m.reporter.None? && m.answers.Some? && m.sdu == []
    && var h, n := HeardOn(main, clock, evs, (m.ssi, m.carrier)), m.answers.value;
       && n < |h| && m.pdu == BlAck(h[n].nr)
       && m.stealing == (h[n].slot != 1) && m.link == (if h[n].slot == 1 then 0 else h[n].slot)
  }

  /** What goes out without a reporter, in request order: unitdata as BL-UDATA on the request's link; on
      a stealing channel the SDU rides on the oldest acknowledgement owed, if there is one, and is
      BL-UDATA otherwise, as it is for groups. */
  function Unacknowledged(main: int, clock: Time, evs: seq<Event>): seq<Msg> {
    if evs == [] then []
    else
      var n := |evs| - 1;
      Unacknowledged(main, clock, evs[..n])
      + UnackedNow(main, T.After(T.Start(main, clock), evs[..n]).llc.acks, evs[n])
  }

  function UnackedNow(main: int, acks: seq<OutAck>, ev: Event): seq<Msg> {
    match ev
    case UnitdataRequest(r) => [Msg(r.ssi, On(main, r), BlUdata, r.sdu, r.stealing, r.link, None, None)]
    case DataRequest(r) =>
      var c := On(main, r);
      var i := FirstAck(acks, r.ssi, c);
      if r.stealing && i < |acks|
      then [Msg(r.ssi, c, BlAck(acks[i].nr), r.sdu, true, r.link, None, Some(acks[i].ord))]
      else if r.stealing || r.group then [Msg(r.ssi, c, BlUdata, r.sdu, r.stealing, 0, None, None)]
      else []
    case _ => []
  }

  /** The indications owed to the MLE, by PDU kind. The one lost is that of a PDU whose
      acknowledgement meets a message with a discarded copy. */
  function Indications(main: int, clock: Time, evs: seq<Event>): seq<Upward> {
    if evs == [] then []
    else
      var n := |evs| - 1;
      Indications(main, clock, evs[..n]) + IndicatedNow(T.After(T.Start(main, clock), evs[..n]), evs[n])
  }

  function IndicatedNow(y: Sys, ev: Event): seq<Upward> {
    if !ev.Rx? || !ev.i.fcsOk then []
    else
      var i := ev.i;
      match i.pdu
      case BlData(_) => [DataInd(i.ssi, i.sdu)]
      case BlAdata(nr, _) => if MeetsDiscarded(y, i, nr) then [] else [DataInd(i.ssi, i.sdu)]
      case BlAck(nr) => if i.sdu == [] || MeetsDiscarded(y, i, nr) then [] else [DataInd(i.ssi, i.sdu)]
      case BlUdata => [UnitdataInd(i.ssi, i.sdu)]
  }

  /** The message of this SSI in flight waits for this number on this carrier and its copy was
      discarded. */
  predicate MeetsDiscarded(y: Sys, i: Ind, nr: Bit) {
    var q := Proj(y, i.ssi).q;
    && q != [] && q[0].submitted.Some? && q[0].carrier == i.carrier && q[0].done.Some? && q[0].ns == nr
    && q[0].rep.Discarded?
  }

  // ---------------------------------------------------------------- what the LLC does

  /** What the end of a tick hands down: copies, then replies, then unacknowledged data. */
  function TickUdata(s: State): seq<Msg> { Last(TickEnd(s).out, |s.udata|) }
  function TickReplies(s: State): seq<Msg> { Last(Before(TickEnd(s).out, |s.udata|), |s.acks|) }
  function TickCopies(s: State): seq<Msg> { Before(Before(TickEnd(s).out, |s.udata|), |s.acks|) }

  function Last(q: seq<Msg>, n: nat): seq<Msg> {
    if n <= |q| then q[|q| - n..] else q
  }

  function Before(q: seq<Msg>, n: nat): seq<Msg> {
    if n <= |q| then q[..|q| - n] else []
  }

  /** A part of what is handed to the UMAC, over a run. */
  function Sent(part: State -> seq<Msg>, main: int, clock: Time, evs: seq<Event>): seq<Msg> {
    if evs == [] then []
    else
      var n := |evs| - 1;
      var p := T.After(T.Start(main, clock), evs[..n]);
      Sent(part, main, clock, evs[..n]) + if evs[n].EndTick? && p.open then part(p.llc) else []
  }

  /** What is passed to the MLE over a run. */
  function Passed(main: int, clock: Time, evs: seq<Event>): seq<Upward> {
    if evs == [] then []
    else
      var n := |evs| - 1;
      var p := T.After(T.Start(main, clock), evs[..n]);
      Passed(main, clock, evs[..n]) + if evs[n].Rx? then ToSeq(Receive(p.llc, evs[n].i).up) else []
  }

  /** The three parts are all there is. */
  lemma TickParts(s: State)
    ensures TickEnd(s).out == TickCopies(s) + TickReplies(s) + TickUdata(s)
    ensures TickCopies(s) == Copies(TickEnd(s).resent + TickEnd(s).released)
    ensures TickReplies(s) == Map(AckReply, s.acks) && TickUdata(s) == s.udata
  {
    hide GiveUp, FreePass, Resent, Released, RetryPass, ExhaustedKeys, AckReply;
    var t := TickEnd(s);
    assert Copies(t.resent + t.released) == Copies(t.resent) + Copies(t.released);
    assert Before(t.out, |s.udata|) == Copies(t.resent) + Copies(t.released) + Map(AckReply, s.acks);
  }

  // ---------------------------------------------------------------- one event more

  lemma OneMore(main: int, clock: Time, evs: seq<Event>, ev: Event)
    ensures var all, p := evs + [ev], T.After(T.Start(main, clock), evs);
            && all[..|all| - 1] == evs
            && T.After(T.Start(main, clock), all) == (if Enabled(p, ev) then Next(p, ev) else p)
            && (forall s :: Accepted(all, s) == Accepted(evs, s) + AcceptedNow(ev, s))
            && (forall k :: HeardOn(main, clock, all, k) == HeardOn(main, clock, evs, k) + HeardNow(p.llc.now, ev, k))
  {
    hide Next, Enabled;
    var all := evs + [ev];
    assert all[..|all| - 1] == evs;
  }

  lemma StillCarries(main: int, clock: Time, evs: seq<Event>, ev: Event, m: Msg)
    ensures Carries(main, clock, evs, m) ==> Carries(main, clock, evs + [ev], m)
    ensures Replies(main, clock, evs, m) ==> Replies(main, clock, evs + [ev], m)
  {
    hide Accepted, HeardOn, T.After;
    OneMore(main, clock, evs, ev);
  }

  /** The counters of the entity count what the events say. */
  ghost predicate Counted(main: int, clock: Time, evs: seq<Event>, s: State) {
    && s.main == main
    && (forall x: int :: AcceptedOf(s, x) == |Accepted(evs, x)| && VsOf(s, x) == |Accepted(evs, x)| % 2)
    && (forall x: int, c: int :: ReceivedOf(s, x, c) == |HeardOn(main, clock, evs, (x, c))|)
  }

  ghost predicate AckOk(main: int, clock: Time, evs: seq<Event>, a: OutAck) {
    var h := HeardOn(main, clock, evs, (a.ssi, a.carrier));
    a.ord < |h| && h[a.ord] == Num(a.nr, a.slot)
  }

  ghost predicate AcksOk(main: int, clock: Time, evs: seq<Event>, acks: seq<OutAck>) {
    forall i :: 0 <= i < |acks| ==> AckOk(main, clock, evs, acks[i])
  }

  /** A queued message is looked up under the SSI, carrier and numbers of its own PDU, and is handed down
      for the timeslot in which it was asked for. */
  ghost predicate EntryOk(main: int, clock: Time, evs: seq<Event>, e: E) {
    && Carries(main, clock, evs, e.msg) && e.msg.ssi == e.ssi && e.msg.carrier == e.carrier
    && e.msg.reporter == Some(e.serial) && NsOf(e.msg.pdu) == Some(e.ns)
    && (e.submitted.Some? ==> e.submitted.value.t == e.tFirst.t)
  }

  ghost predicate QueueOk(main: int, clock: Time, evs: seq<Event>, q: seq<E>) {
    forall i :: 0 <= i < |q| ==> EntryOk(main, clock, evs, q[i])
  }

  ghost predicate Content(main: int, clock: Time, evs: seq<Event>) {
    var s := T.After(T.Start(main, clock), evs).llc;
    Counted(main, clock, evs, s) && AcksOk(main, clock, evs, s.acks) && QueueOk(main, clock, evs, s.queue)
  }

  lemma CountersStep(y: Sys, ev: Event)
    requires Enabled(y, ev)
    ensures var s, s' := y.llc, Next(y, ev).llc;
            && s'.main == s.main
            && (forall x: int :: AcceptedOf(s', x) == AcceptedOf(s, x) + |AcceptedNow(ev, x)|)
            && (forall x: int :: VsOf(s', x) == (VsOf(s, x) + |AcceptedNow(ev, x)|) % 2)
            && (forall x: int, c: int :: ReceivedOf(s', x, c) == ReceivedOf(s, x, c) + |HeardNow(s.now, ev, (x, c))|)
  {
    hide TickEnd, DataReq, Receive, NewPdus, Numbers, Copies, AcceptedOf, VsOf, ReceivedOf;
    match ev
    case DataRequest(r) => RequestCounters(y.llc, r);
    case Rx(i) => RxCounters(y.llc, i);
    case EndTick => TickCounters(y.llc);
    case _ => SameCounters(y.llc, Next(y, ev).llc, ev);
  }

  lemma RequestCounters(s: State, r: Req)
    ensures var s', ev := DataReq(s, r, Pending), DataRequest(r);
            && s'.main == s.main && s'.received == s.received
            && (forall x: int :: AcceptedOf(s', x) == AcceptedOf(s, x) + |AcceptedNow(ev, x)|)
            && (forall x: int :: VsOf(s', x) == (VsOf(s, x) + |AcceptedNow(ev, x)|) % 2)
            && (forall x: int, c: int :: ReceivedOf(s', x, c) == ReceivedOf(s, x, c) + |HeardNow(s.now, ev, (x, c))|)
  {
    hide TakeAck, DataPdu;
  }

  lemma RxCounters(s: State, i: Ind)
    ensures var s', ev := Receive(s, i).state, Rx(i);
            && s'.main == s.main
            && (forall x: int :: AcceptedOf(s', x) == AcceptedOf(s, x) + |AcceptedNow(ev, x)|)
            && (forall x: int :: VsOf(s', x) == (VsOf(s, x) + |AcceptedNow(ev, x)|) % 2)
            && (forall x: int, c: int :: ReceivedOf(s', x, c) == ReceivedOf(s, x, c) + |HeardNow(s.now, ev, (x, c))|)
  {
    hide ProcessAck, UplinkSlot, UpwardOf;
  }

  lemma TickCounters(s: State)
    ensures var s' := TickEnd(s).state;
            && s'.main == s.main
            && (forall x: int :: AcceptedOf(s', x) == AcceptedOf(s, x) && VsOf(s', x) == VsOf(s, x) % 2)
            && (forall x: int, c: int :: ReceivedOf(s', x, c) == ReceivedOf(s, x, c))
  {
    hide GiveUp, FreePass, Resent, Released, RetryPass, ExhaustedKeys;
  }

  lemma SameCounters(s: State, s': State, ev: Event)
    requires s'.main == s.main && s'.accepted == s.accepted && s'.vs == s.vs && s'.received == s.received
    requires !ev.Rx? && !ev.DataRequest?
    ensures forall x: int :: AcceptedOf(s', x) == AcceptedOf(s, x) + |AcceptedNow(ev, x)|
    ensures forall x: int :: VsOf(s', x) == (VsOf(s, x) + |AcceptedNow(ev, x)|) % 2
    ensures forall x: int, c: int :: ReceivedOf(s', x, c) == ReceivedOf(s, x, c) + |HeardNow(s.now, ev, (x, c))|
  {
  }

  lemma CountedStep(main: int, clock: Time, evs: seq<Event>, ev: Event)
    requires var p := T.After(T.Start(main, clock), evs); Counted(main, clock, evs, p.llc) && Enabled(p, ev)
    ensures Counted(main, clock, evs + [ev], Next(T.After(T.Start(main, clock), evs), ev).llc)
  {
    hide Accepted, HeardOn, T.After, Next, AcceptedOf, VsOf, ReceivedOf, AcceptedNow, HeardNow;
    OneMore(main, clock, evs, ev);
    CountersStep(T.After(T.Start(main, clock), evs), ev);
  }

  /** Nothing new in the queue, the owed numbers or the counters. */
  lemma Kept(main: int, clock: Time, evs: seq<Event>, ev: Event, acks: seq<OutAck>, q: seq<E>)
    requires AcksOk(main, clock, evs, acks) && QueueOk(main, clock, evs, q)
    ensures AcksOk(main, clock, evs + [ev], acks) && QueueOk(main, clock, evs + [ev], q)
  {
    hide Accepted, HeardOn, T.After, Carries;
    OneMore(main, clock, evs, ev);
    forall i | 0 <= i < |q| ensures EntryOk(main, clock, evs + [ev], q[i]) {
      StillCarries(main, clock, evs, ev, q[i].msg);
    }
  }

  // ---------------------------------------------------------------- entries keep their message

  lemma RetriedOk(main: int, clock: Time, evs: seq<Event>, e: E, now: Time)
    requires EntryOk(main, clock, evs, e)
    ensures EntryOk(main, clock, evs, Retried(e, now)) && EntryOk(main, clock, evs, Submit(e, now))
  {
    hide Carries, Resends, SlotOf;
    L.RetriedKeeps(e, now);
    SameSlot(now, e.tFirst);
  }

  lemma SameSlot(now: Time, first: Time)
    ensures SlotOf(now, first).t == first.t
  {
    ForwardIsNextOccurrence(now, first.t);
  }

  lemma {:induction false} HandedOk(main: int, clock: Time, evs: seq<Event>, q: seq<E>, now: Time)
    requires QueueOk(main, clock, evs, q)
    ensures QueueOk(main, clock, evs, Resent(q, now)) && QueueOk(main, clock, evs, Released(q, now))
  {
    hide Resends, Free, Retried, Submit, EntryOk;
    if q != [] {
      HandedOk(main, clock, evs, q[..|q| - 1], now);
      RetriedOk(main, clock, evs, q[|q| - 1], now);
    }
  }

  lemma {:induction false} GiveUpOk(main: int, clock: Time, evs: seq<Event>, q: seq<E>, keys: seq<(int, int)>)
    requires QueueOk(main, clock, evs, q)
    ensures QueueOk(main, clock, evs, GiveUp(q, keys).0)
    decreases |keys|
  {
    hide EntryOk;
    if keys != [] {
      var i := FirstSubmitted(q, keys[0].0, keys[0].1);
      GiveUpOk(main, clock, evs, if i == |q| then q else q[..i] + q[i + 1..], keys[1..]);
    }
  }

  lemma AckOkQueue(main: int, clock: Time, evs: seq<Event>, q: seq<E>, ssi: int, carrier: int, nr: Bit)
    requires QueueOk(main, clock, evs, q)
    ensures QueueOk(main, clock, evs, ProcessAck(q, ssi, carrier, nr).queue)
  {
    hide EntryOk;
  }

  lemma TickOk(main: int, clock: Time, evs: seq<Event>, s: State)
    requires QueueOk(main, clock, evs, s.queue)
    ensures var t := TickEnd(s);
            && QueueOk(main, clock, evs, t.state.queue)
            && QueueOk(main, clock, evs, t.resent) && QueueOk(main, clock, evs, t.released)
  {
    hide Resends, Exhausted, Retried, GiveUp, EntryOk, FreePass, Resent, Released, Submit, AckReply;
    var q1 := RetryPass(s.queue, s.now);
    forall i | 0 <= i < |q1| ensures EntryOk(main, clock, evs, q1[i]) {
      RetriedOk(main, clock, evs, s.queue[i], s.now);
    }
    GiveUpOk(main, clock, evs, q1, ExhaustedKeys(s.queue, s.now));
    var q2 := GiveUp(q1, ExhaustedKeys(s.queue, s.now)).0;
    HandedOk(main, clock, evs, s.queue, s.now);
    HandedOk(main, clock, evs, q2, s.now);
    forall i | 0 <= i < |q2| ensures EntryOk(main, clock, evs, FreePass(q2, s.now)[i]) {
      RetriedOk(main, clock, evs, q2[i], s.now);
    }
  }

  lemma MarkOk(main: int, clock: Time, evs: seq<Event>, y: Sys, k: nat, to: TxState)
    requires QueueOk(main, clock, evs, y.llc.queue) && k < |y.umac| && (to.Transmitted? || to.Discarded?)
    ensures QueueOk(main, clock, evs, Next(y, UmacMark(k, to)).llc.queue)
  {
    hide Carries;
    var q := y.llc.queue;
    forall i | 0 <= i < |q| ensures EntryOk(main, clock, evs, MarkedIn(q[i], y.umac[k], to)) {
    }
  }

  // ---------------------------------------------------------------- every run

  lemma RequestContent(main: int, clock: Time, evs: seq<Event>, r: Req)
    requires Content(main, clock, evs)
    ensures var s := Next(T.After(T.Start(main, clock), evs), DataRequest(r)).llc;
            AcksOk(main, clock, evs + [DataRequest(r)], s.acks) && QueueOk(main, clock, evs + [DataRequest(r)], s.queue)
  {
    hide Accepted, HeardOn, T.After, NewPdus, DataReq, EntryOk, AckOk, Counted;
    var ev := DataRequest(r);
    var y := T.After(T.Start(main, clock), evs);
    Kept(main, clock, evs, ev, y.llc.acks, y.llc.queue);
    RequestShape(y.llc, r);
    if !r.stealing && !r.group {
      NewEntryOk(main, clock, evs, r, y.llc);
    }
  }

  /** A request may take an acknowledgement along, and appends at most one message. */
  lemma RequestShape(s: State, r: Req)
    ensures var s' := DataReq(s, r, Pending);
            && (forall i :: 0 <= i < |s'.acks| ==> s'.acks[i] in s.acks)
            && (r.stealing || r.group ==> s'.queue == s.queue)
            && (!r.stealing && !r.group ==> s'.queue == s.queue + [NewEntry(s, r)])
  {
    hide DataPdu;
  }

  function NewEntry(s: State, r: Req): E {
    var ns, k, c := VsOf(s, r.ssi), AcceptedOf(s, r.ssi), Carrier(s, r);
    Entry(r.ssi, k, c, ns, s.now, None, None, DataPdu(r, c, ns, k, TakeAck(s.acks, r.ssi, c).0), 0, Pending)
  }

  lemma NewEntryOk(main: int, clock: Time, evs: seq<Event>, r: Req, s: State)
    requires Counted(main, clock, evs, s) && AcksOk(main, clock, evs, s.acks) && !r.stealing && !r.group
    ensures EntryOk(main, clock, evs + [DataRequest(r)], NewEntry(s, r))
  {
    hide Accepted, HeardOn, T.After, AcceptedOf, VsOf, ReceivedOf;
    OneMore(main, clock, evs, DataRequest(r));
    var i := FirstAck(s.acks, r.ssi, Carrier(s, r));
    if i < |s.acks| {
      assert AckOk(main, clock, evs, s.acks[i]);
    }
    assert AcceptedOf(s, r.ssi) == |Accepted(evs, r.ssi)|;
  }

  lemma RxContent(main: int, clock: Time, evs: seq<Event>, i: Ind)
    requires Content(main, clock, evs)
    ensures var s := Next(T.After(T.Start(main, clock), evs), Rx(i)).llc;
            AcksOk(main, clock, evs + [Rx(i)], s.acks) && QueueOk(main, clock, evs + [Rx(i)], s.queue)
  {
    hide Accepted, HeardOn, T.After, UplinkSlot, ProcessAck, EntryOk;
    var y := T.After(T.Start(main, clock), evs);
    OneMore(main, clock, evs, Rx(i));
    UplinkIsTwoBefore(y.llc.now);
    Kept(main, clock, evs, Rx(i), y.llc.acks, y.llc.queue);
    if i.fcsOk && NrOf(i.pdu).Some? {
      AckOkQueue(main, clock, evs + [Rx(i)], y.llc.queue, i.ssi, i.carrier, NrOf(i.pdu).value);
    }
  }

  lemma StepContent(main: int, clock: Time, evs: seq<Event>, ev: Event)
    requires Content(main, clock, evs)
    ensures Content(main, clock, evs + [ev])
  {
    hide T.After, TickEnd, DataReq, Receive, Counted, AcksOk, QueueOk, UnitdataReq, NewPdus, Numbers, Copies;
    var y := T.After(T.Start(main, clock), evs);
    OneMore(main, clock, evs, ev);
    Kept(main, clock, evs, ev, y.llc.acks, y.llc.queue);
    if Enabled(y, ev) {
      CountedStep(main, clock, evs, ev);
      match ev
      case DataRequest(r) => RequestContent(main, clock, evs, r);
      case UnitdataRequest(r) => UnitdataKeeps(y.llc, r);
      case Rx(i) => RxContent(main, clock, evs, i);
      case UmacMark(k, to) =>
        MarkOk(main, clock, evs + [ev], y, k, to);
      case StartTick =>
      case EndTick =>
        TickOk(main, clock, evs + [ev], y.llc);
        NoneOwed(main, clock, evs + [ev], y.llc);
    } else {
      Unheard(main, clock, evs, ev, y.llc);
    }
  }

  lemma UnitdataKeeps(s: State, r: Req)
    ensures UnitdataReq(s, r).acks == s.acks && UnitdataReq(s, r).queue == s.queue
  {
  }

  lemma NoneOwed(main: int, clock: Time, evs: seq<Event>, s: State)
    ensures TickEnd(s).state.acks == [] && AcksOk(main, clock, evs, [])
  {
  }

  /** An event that is not enabled says nothing. */
  lemma Unheard(main: int, clock: Time, evs: seq<Event>, ev: Event, s: State)
    requires Counted(main, clock, evs, s) && !ev.Rx? && !ev.DataRequest?
    ensures Counted(main, clock, evs + [ev], s)
  {
    hide Accepted, HeardOn, T.After, AcceptedOf, VsOf, ReceivedOf;
    OneMore(main, clock, evs, ev);
  }

  lemma {:induction false} RunContent(main: int, clock: Time, evs: seq<Event>)
    ensures Content(main, clock, evs)
  {
    if evs == [] {
      assert T.After(T.Start(main, clock), []) == T.Start(main, clock);
    } else {
      hide Content, T.After;
      var n := |evs| - 1;
      RunContent(main, clock, evs[..n]);
      StepContent(main, clock, evs[..n], evs[n]);
      assert evs[..n] + [evs[n]] == evs;
    }
  }

  // ---------------------------------------------------------------- the theorems

  /** Over every run, every copy of an acknowledged message handed to the UMAC, first or repeated,
      carries what its request asked for. */
  lemma {:induction false} CopiesCarryTheirRequest(main: int, clock: Time, evs: seq<Event>, i: nat)
    requires i < |Sent(TickCopies, main, clock, evs)|
    ensures Carries(main, clock, evs, Sent(TickCopies, main, clock, evs)[i])
  {
    hide Carries, T.After, TickEnd, TickCopies, Copies;
    var n := |evs| - 1;
    var before := Sent(TickCopies, main, clock, evs[..n]);
    assert evs[..n] + [evs[n]] == evs;
    var m := Sent(TickCopies, main, clock, evs)[i];
    if i < |before| {
      CopiesCarryTheirRequest(main, clock, evs[..n], i);
    } else {
      RunContent(main, clock, evs[..n]);
      CopyCarries(main, clock, evs[..n], T.After(T.Start(main, clock), evs[..n]).llc, i - |before|);
    }
    StillCarries(main, clock, evs[..n], evs[n], m);
  }

  lemma CopyCarries(main: int, clock: Time, evs: seq<Event>, s: State, i: nat)
    requires QueueOk(main, clock, evs, s.queue) && i < |TickCopies(s)|
    ensures Carries(main, clock, evs, TickCopies(s)[i])
  {
    hide Carries, TickEnd, TickCopies, QueueOk;
    TickParts(s);
    TickOk(main, clock, evs, s);
    Joined(main, clock, evs, TickEnd(s).resent, TickEnd(s).released);
    EachCarries(main, clock, evs, TickEnd(s).resent + TickEnd(s).released, i);
  }

  lemma Joined(main: int, clock: Time, evs: seq<Event>, a: seq<E>, b: seq<E>)
    requires QueueOk(main, clock, evs, a) && QueueOk(main, clock, evs, b)
    ensures QueueOk(main, clock, evs, a + b)
  {
    hide EntryOk;
  }

  lemma EachCarries(main: int, clock: Time, evs: seq<Event>, q: seq<E>, i: nat)
    requires QueueOk(main, clock, evs, q) && i < |q|
    ensures Carries(main, clock, evs, Copies(q)[i])
  {
    hide Carries;
  }

  /** Over every run, every plain reply carries a received number and steals from the slot it came in. */
  lemma {:induction false} RepliesAnswer(main: int, clock: Time, evs: seq<Event>, i: nat)
    requires i < |Sent(TickReplies, main, clock, evs)|
    ensures Replies(main, clock, evs, Sent(TickReplies, main, clock, evs)[i])
  {
    hide Replies, T.After, TickEnd, TickReplies;
    var n := |evs| - 1;
    var before := Sent(TickReplies, main, clock, evs[..n]);
    assert evs[..n] + [evs[n]] == evs;
    var m := Sent(TickReplies, main, clock, evs)[i];
    if i < |before| {
      RepliesAnswer(main, clock, evs[..n], i);
    } else {
      RunContent(main, clock, evs[..n]);
      ReplyAnswers(main, clock, evs[..n], i - |before|);
    }
    StillCarries(main, clock, evs[..n], evs[n], m);
  }

  lemma ReplyAnswers(main: int, clock: Time, evs: seq<Event>, i: nat)
    requires var s := T.After(T.Start(main, clock), evs).llc;
             AcksOk(main, clock, evs, s.acks) && i < |TickReplies(s)|
    ensures Replies(main, clock, evs, TickReplies(T.After(T.Start(main, clock), evs).llc)[i])
  {
    hide T.After, TickEnd, TickReplies;
    var s := T.After(T.Start(main, clock), evs).llc;
    TickParts(s);
    assert AckOk(main, clock, evs, s.acks[i]);
    HeardInASlot(main, clock, evs, (s.acks[i].ssi, s.acks[i].carrier));
  }

  lemma {:induction false} HeardInASlot(main: int, clock: Time, evs: seq<Event>, k: (int, int))
    ensures forall i :: 0 <= i < |HeardOn(main, clock, evs, k)| ==> 1 <= HeardOn(main, clock, evs, k)[i].slot <= 4
  {
    hide T.After;
    if evs != [] {
      HeardInASlot(main, clock, evs[..|evs| - 1], k);
    }
  }

  /** Over every run, what has been handed down without a reporter, followed by what waits for the end
      of the tick, is what the requests asked for, in their order. */
  lemma {:induction false} UnacknowledgedInOrder(main: int, clock: Time, evs: seq<Event>)
    ensures Sent(TickUdata, main, clock, evs) + T.After(T.Start(main, clock), evs).llc.udata
         == Unacknowledged(main, clock, evs)
  {
    hide T.After, TickUdata, UnackedNow, Next, Accepted, HeardOn, TickEnd;
    if evs == [] {
      StartEmpty(main, clock);
    } else {
      var n := |evs| - 1;
      UnacknowledgedInOrder(main, clock, evs[..n]);
      var p := T.After(T.Start(main, clock), evs[..n]);
      OneMore(main, clock, evs[..n], evs[n]);
      assert evs[..n] + [evs[n]] == evs;
      SameMain(main, clock, evs[..n]);
      UdataStep(main, p, evs[n]);
      TickParts(p.llc);
      var q := T.After(T.Start(main, clock), evs).llc.udata;
      var x, now := Sent(TickUdata, main, clock, evs[..n]), UnackedNow(main, p.llc.acks, evs[n]);
      if evs[n].EndTick? && p.open {
        assert Sent(TickUdata, main, clock, evs) + q == x + p.llc.udata + now;
      } else {
        assert Sent(TickUdata, main, clock, evs) == x;
        assert x + q == x + p.llc.udata + now;
      }
    }
  }

  lemma SameMain(main: int, clock: Time, evs: seq<Event>)
    ensures T.After(T.Start(main, clock), evs).llc.main == main
  {
    RunContent(main, clock, evs);
  }

  lemma StartEmpty(main: int, clock: Time)
    ensures T.After(T.Start(main, clock), []).llc.udata == []
  {
  }

  lemma UdataStep(main: int, y: Sys, ev: Event)
    requires y.llc.main == main
    ensures !Enabled(y, ev) ==> UnackedNow(main, y.llc.acks, ev) == [] && !(ev.EndTick? && y.open)
    ensures Enabled(y, ev) ==>
              Next(y, ev).llc.udata == (if ev.EndTick? then [] else y.llc.udata) + UnackedNow(main, y.llc.acks, ev)
  {
    hide GiveUp, FreePass, Resent, Released, RetryPass, ExhaustedKeys, ProcessAck, NewPdus;
  }

  /** Over every run, the MLE is given exactly the indications the received PDUs call for, in order. */
  lemma {:induction false} IndicationsInOrder(main: int, clock: Time, evs: seq<Event>)
    ensures Passed(main, clock, evs) == Indications(main, clock, evs)
  {
    hide T.After, Receive, IndicatedNow;
    if evs != [] {
      var n := |evs| - 1;
      IndicationsInOrder(main, clock, evs[..n]);
      T.RunInv(main, clock, evs[..n]);
      IndicationStep(T.After(T.Start(main, clock), evs[..n]), evs[n]);
    }
  }

  lemma IndicationStep(y: Sys, ev: Event)
    requires Inv(y)
    ensures (if ev.Rx? then ToSeq(Receive(y.llc, ev.i).up) else []) == IndicatedNow(y, ev)
  {
    hide Inv, ProcessAck, Proj;
    if ev.Rx? && ev.i.fcsOk && NrOf(ev.i.pdu).Some? {
      T.AckOutcome(y, ev.i);
    }
  }

  /** The submissions that SubmissionOrder and the bounds speak of are these copies, one for one. */
  lemma {:induction false} CopiesAreSubmissions(main: int, clock: Time, evs: seq<Event>)
    ensures var c, s := Sent(TickCopies, main, clock, evs), T.After(T.Start(main, clock), evs).subs;
            |c| == |s| && forall i :: 0 <= i < |c| ==> c[i].ssi == s[i].ssi && c[i].reporter == Some(s[i].serial)
  {
    hide T.After, TickCopies, Next;
    if evs == [] {
      StartUnsent(main, clock);
    } else {
      var n := |evs| - 1;
      CopiesAreSubmissions(main, clock, evs[..n]);
      var p := T.After(T.Start(main, clock), evs[..n]);
      OneMore(main, clock, evs[..n], evs[n]);
      assert evs[..n] + [evs[n]] == evs;
      RunContent(main, clock, evs[..n]);
      if Enabled(p, evs[n]) {
        SubsStep(main, clock, evs[..n], evs[n]);
      }
    }
  }

  lemma StartUnsent(main: int, clock: Time)
    ensures T.After(T.Start(main, clock), []).subs == []
  {
  }

  lemma SubsStep(main: int, clock: Time, evs: seq<Event>, ev: Event)
    requires Content(main, clock, evs) && Enabled(T.After(T.Start(main, clock), evs), ev)
    ensures var p := T.After(T.Start(main, clock), evs);
            var more := Next(p, ev).subs[|p.subs|..];
            && |p.subs| <= |Next(p, ev).subs| && Next(p, ev).subs[..|p.subs|] == p.subs
            && |more| == (if ev.EndTick? then |TickCopies(p.llc)| else 0)
            && (ev.EndTick? ==> forall i :: 0 <= i < |more| ==>
                  TickCopies(p.llc)[i].ssi == more[i].ssi && TickCopies(p.llc)[i].reporter == Some(more[i].serial))
  {
    hide T.After, TickCopies, TickEnd, DataReq, UnitdataReq, Receive, NewPdus, Numbers, Carries;
    var p := T.After(T.Start(main, clock), evs);
    if ev.EndTick? {
      TickParts(p.llc);
      TickOk(main, clock, evs, p.llc);
    }
  }

  /** Over every run, a good PDU on the carrier of the message in flight that repeats the N(S) of its
      PDU, once the LLC has noticed that the UMAC is done with the current copy, completes that message
      and no other: it leaves the queue, Acknowledged unless that copy was discarded. */
  lemma AnswerCompletes(main: int, clock: Time, evs: seq<Event>, i: Ind)
    requires var q := Proj(T.After(T.Start(main, clock), evs), i.ssi).q;
             && i.fcsOk && (i.pdu.BlAck? || i.pdu.BlAdata?)
             && q != [] && q[0].submitted.Some? && q[0].done.Some? && q[0].msg.carrier == i.carrier
             && (q[0].msg.pdu.BlData? || q[0].msg.pdu.BlAdata?) && q[0].msg.pdu.ns == i.pdu.nr
    ensures var y := T.After(T.Start(main, clock), evs);
            var q := Proj(y, i.ssi).q;
            && Next(y, Rx(i)).fin == y.fin + [q[0].(rep := if q[0].rep.Discarded? then Discarded else Acknowledged)]
            && Proj(Next(y, Rx(i)), i.ssi).q == q[1..]
            && forall s :: s != i.ssi ==> Proj(Next(y, Rx(i)), s).q == Proj(y, s).q
  {
    hide T.After, Content, Carries, Inv, Proj, Receive;
    var y := T.After(T.Start(main, clock), evs);
    RunContent(main, clock, evs);
    T.RunInv(main, clock, evs);
    HeadOk(main, clock, evs, i.ssi);
    T.AckOutcome(y, i);
    forall s ensures Proj(Next(y, Rx(i)), s) == OnLink(y, Rx(i), s) {
      T.Refines(y, Rx(i), s);
    }
  }

  /** Over every run, a message handed down is due in the timeslot in which it was asked for. */
  lemma SubmittedInItsSlot(main: int, clock: Time, evs: seq<Event>, i: nat)
    requires var q := T.After(T.Start(main, clock), evs).llc.queue; i < |q| && q[i].submitted.Some?
    ensures var e := T.After(T.Start(main, clock), evs).llc.queue[i]; e.submitted.value.t == e.tFirst.t
  {
    hide T.After, Carries;
    RunContent(main, clock, evs);
    assert EntryOk(main, clock, evs, T.After(T.Start(main, clock), evs).llc.queue[i]);
  }

  lemma HeadOk(main: int, clock: Time, evs: seq<Event>, s: int)
    requires Content(main, clock, evs)
    requires Proj(T.After(T.Start(main, clock), evs), s).q != []
    ensures EntryOk(main, clock, evs, Proj(T.After(T.Start(main, clock), evs), s).q[0])
  {
    hide T.After, EntryOk, Sel;
    var j := SelAt(EntrySsi, T.After(T.Start(main, clock), evs).llc.queue, s, 0);
  }
}
