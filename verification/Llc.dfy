/** The LLC entity itself: queues updated in place and reporters shared with the UMAC. Every
    method is proved to do to the entity's view what its step function in LlcModel.dfy says. */
module Llc {
  import opened Wrappers
  import opened Tdma
  import opened Links
  import opened TxReceipt
  import M = LlcModel
  import opened LlcModel

  /** The message router's queue towards the UMAC. */
  class MessageQueue {
    var messages: seq<Msg>

    constructor ()
      ensures messages == []
    {
      messages := [];
    }

    method PushBack(m: Msg)
      modifies this
      ensures messages == old(messages) + [m]
    {
      messages := messages + [m];
    }
  }

  /** A queued message with its shared reporter. */
  type Held = Entry<TxReporter>

  ghost function Reporters(q: seq<Held>): set<TxReporter> {
    set i | 0 <= i < |q| :: q[i].rep
  }

  /** No two queued messages share a reporter, and all of them expect an acknowledgement. */
  ghost predicate Separate(q: seq<Held>) {
    && (forall i, j :: 0 <= i < j < |q| ==> q[i].rep != q[j].rep)
    && (forall i :: 0 <= i < |q| ==> q[i].rep.expectsAck)
  }

  ghost function ViewOf(e: Held): E
    reads e.rep
  {
    Entry(e.ssi, e.serial, e.carrier, e.ns, e.tFirst, e.submitted, e.done, e.msg, e.retries, e.rep.state)
  }

  ghost function ViewQueue(q: seq<Held>): (r: seq<E>)
    reads Reporters(q)
    ensures |r| == |q|
    ensures forall i :: 0 <= i < |q| ==> r[i] == ViewOf(q[i])
  {
    if q == [] then []
    else
      assert forall i :: 0 <= i < |q| - 1 ==> q[..|q| - 1][i] == q[i];
      ViewQueue(q[..|q| - 1]) + [ViewOf(q[|q| - 1])]
  }

  lemma ReporterOf(q: seq<Held>, i: nat)
    requires i < |q|
    ensures q[i].rep in Reporters(q)
  {
  }

  lemma AckCases(v: seq<E>, ssi: int, carrier: int, nr: Bit)
    ensures var a := ProcessAck(v, ssi, carrier, nr);
            var i := FirstSubmitted(v, ssi, carrier);
            if i == |v| then a == AckEffect(v, None, false)
            else if v[i].done.None? || v[i].ns != nr then a == AckEffect([v[i]] + (v[..i] + v[i + 1..]), None, false)
            else a == AckEffect(v[..i] + v[i + 1..],
                                Some(if v[i].rep.Transmitted? then v[i].(rep := Acknowledged) else v[i]),
                                  !v[i].rep.Transmitted?)
  {
  }

  twostate lemma ViewKept(q: seq<Held>)
    requires forall i :: 0 <= i < |q| ==> q[i].rep.state == old(q[i].rep.state)
    ensures ViewQueue(q) == old(ViewQueue(q))
  {
    hide ViewQueue;
    assert forall i :: 0 <= i < |q| ==> ViewOf(q[i]) == old(ViewOf(q[i]));
  }

  lemma FirstSubmittedInView(q: seq<Held>, ssi: int, carrier: int)
    ensures FirstSubmitted(ViewQueue(q), ssi, carrier) == FirstSubmitted(q, ssi, carrier)
  {
    hide ViewQueue;
    var v := ViewQueue(q);
    assert forall i :: 0 <= i < |q| ==>
      v[i].ssi == q[i].ssi && v[i].carrier == q[i].carrier && v[i].submitted == q[i].submitted;
  }

  lemma ViewWithout(q: seq<Held>, i: nat)
    requires i < |q|
    ensures ViewQueue(q[..i] + q[i + 1..]) == ViewQueue(q)[..i] + ViewQueue(q)[i + 1..]
  {
    hide ViewQueue, ViewOf;
    var r := q[..i] + q[i + 1..];
    var a, b := ViewQueue(r), ViewQueue(q)[..i] + ViewQueue(q)[i + 1..];
    forall j | 0 <= j < |r| ensures a[j] == b[j] {
      assert r[j] == q[if j < i then j else j + 1];
    }
  }

  lemma SeparateWithout(q: seq<Held>, i: nat)
    requires i < |q| && Separate(q)
    ensures Separate(q[..i] + q[i + 1..]) && q[i].rep !in Reporters(q[..i] + q[i + 1..])
    ensures Reporters(q[..i] + q[i + 1..]) <= Reporters(q)
  {
    var r := q[..i] + q[i + 1..];
    forall j | 0 <= j < |r| ensures r[j] == q[if j < i then j else j + 1] {
    }
    forall x | x in Reporters(r) ensures x in Reporters(q) && x != q[i].rep {
      var j :| 0 <= j < |r| && r[j].rep == x;
      assert q[if j < i then j else j + 1].rep == x;
    }
  }

  lemma ViewFront(e: Held, q: seq<Held>)
    ensures ViewQueue([e] + q) == [ViewOf(e)] + ViewQueue(q)
  {
    hide ViewQueue, ViewOf;
    var r := [e] + q;
    var a, b := ViewQueue(r), [ViewOf(e)] + ViewQueue(q);
    forall j | 0 <= j < |r| ensures a[j] == b[j] {
      assert r[j] == if j == 0 then e else q[j - 1];
    }
  }

  lemma SeparateFront(e: Held, q: seq<Held>)
    requires Separate(q) && e.rep.expectsAck && e.rep !in Reporters(q)
    ensures Separate([e] + q) && Reporters([e] + q) <= {e.rep} + Reporters(q)
  {
    hide FirstSubmitted;
    var r := [e] + q;
    forall j | 0 <= j < |r| ensures r[j] == if j == 0 then e else q[j - 1] {
    }
    forall j | 0 <= j < |q| ensures q[j].rep in Reporters(q) {
    }
  }

  lemma ViewBack(q: seq<Held>, e: Held)
    ensures ViewQueue(q + [e]) == ViewQueue(q) + [ViewOf(e)]
  {
    assert (q + [e])[..|q + [e]| - 1] == q;
  }

  lemma SeparateBack(q: seq<Held>, e: Held)
    requires Separate(q) && e.rep.expectsAck && e.rep !in Reporters(q)
    ensures Separate(q + [e]) && Reporters(q + [e]) <= Reporters(q) + {e.rep}
  {
    var r := q + [e];
    forall j | 0 <= j < |r| ensures r[j] == if j < |q| then q[j] else e {
    }
    forall j | 0 <= j < |q| ensures q[j].rep in Reporters(q) {
    }
  }

  lemma ViewFields(e: Held)
    ensures ViewOf(e).ssi == e.ssi && ViewOf(e).carrier == e.carrier && ViewOf(e).msg == e.msg
      && ViewOf(e).submitted == e.submitted
  {
  }

  lemma RetryRound(v: seq<E>, i: nat, now: Time)
    requires i < |v|
    ensures ExhaustedKeys(v[..i + 1], now)
         == ExhaustedKeys(v[..i], now) + if Exhausted(v[i], now) then [(v[i].ssi, v[i].carrier)] else []
    ensures Copies(Resent(v[..i + 1], now))
         == Copies(Resent(v[..i], now)) + if Resends(v[i], now) then [v[i].msg] else []
    ensures Resent(v[..i + 1], now) != [] <==> Resent(v[..i], now) != [] || Resends(v[i], now)
    ensures Retried(v[i], now).ssi == v[i].ssi && Retried(v[i], now).carrier == v[i].carrier
  {
    hide Due, SlotOf;
    assert v[..i + 1][..i] == v[..i];
    MapConcat((e: E) => e.msg, Resent(v[..i], now), if Resends(v[i], now) then [Retried(v[i], now)] else []);
  }

  lemma NoRetryRound(now: Time)
    ensures ExhaustedKeys([], now) == [] && Resent([], now) == [] && Copies([]) == []
  {
  }

  lemma NoRelease(now: Time)
    ensures Released([], now) == [] && Copies([]) == []
  {
  }

  lemma FreeWhen(v: seq<E>, i: nat)
    requires i < |v|
    ensures Free(v, i) <==> v[i].submitted.None? && !Seen(v, i, v[i].ssi)
    ensures forall x :: Seen(v, i + 1, x) <==> Seen(v, i, x) || x == v[i].ssi
  {
  }

  /** One of the first i messages is for this SSI. */
  ghost predicate Seen(v: seq<E>, i: nat, ssi: int)
    requires i <= |v|
  {
    exists j :: 0 <= j < i && v[j].ssi == ssi
  }

  lemma NoneSeen(v: seq<E>)
    ensures forall x :: !Seen(v, 0, x)
  {
  }

  lemma ReleaseRound(v: seq<E>, i: nat, now: Time)
    requires i < |v|
    ensures Copies(Released(v[..i + 1], now)) == Copies(Released(v[..i], now)) + if Free(v, i) then [v[i].msg] else []
    ensures Released(v[..i + 1], now) != [] <==> Released(v[..i], now) != [] || Free(v, i)
  {
    hide SlotOf;
    assert v[..i + 1][..i] == v[..i];
    assert Free(v[..i + 1], i) == Free(v, i);
    MapConcat((e: E) => e.msg, Released(v[..i], now), if Free(v, i) then [Submit(v[i], now)] else []);
  }

  lemma NoGiveUp(q: seq<E>, keys: seq<(int, int)>)
    ensures GiveUp(q, keys[|keys|..]) == (q, [])
  {
  }

  lemma GiveUpStep(q: seq<E>, keys: seq<(int, int)>, k: nat)
    requires k < |keys|
    ensures var i := FirstSubmitted(q, keys[k].0, keys[k].1);
            if i == |q| then GiveUp(q, keys[k..]) == GiveUp(q, keys[k + 1..])
            else var g := GiveUp(q[..i] + q[i + 1..], keys[k + 1..]);
              GiveUp(q, keys[k..]) == (g.0, [GivenUp(q[i])] + g.1)
  {
    assert keys[k..][1..] == keys[k + 1..];
  }

  lemma ReportersBack(q: seq<Held>, e: Held)
    ensures Reporters(q + [e]) == Reporters(q) + {e.rep}
  {
    var r := q + [e];
    forall j | 0 <= j < |r| ensures r[j].rep in Reporters(q) + {e.rep} {
      if j < |q| { assert q[j].rep in Reporters(q); }
    }
    forall x | x in Reporters(q) ensures x in Reporters(r) {
      var j :| 0 <= j < |q| && q[j].rep == x;
      assert r[j].rep == x;
    }
    assert r[|q|].rep == e.rep;
  }

  lemma OutAssoc(m: seq<Msg>, a: seq<Msg>, b: seq<Msg>, c: seq<Msg>, d: seq<Msg>)
    ensures m + a + b + c + d == m + (a + b + c + d)
  {
  }

  lemma TickParts(s: State, q: seq<E>, left: seq<E>)
    requires (q, left) == GiveUp(RetryPass(s.queue, s.now), ExhaustedKeys(s.queue, s.now))
    ensures var t := M.TickEnd(s);
            && t.state == s.(queue := FreePass(q, s.now), acks := [], udata := []) && t.left == left
            && t.out == Copies(Resent(s.queue, s.now)) + Copies(Released(q, s.now)) + Map(AckReply, s.acks) + s.udata
            && (t.out != [] <==>
                Resent(s.queue, s.now) != [] || Released(q, s.now) != [] || s.acks != [] || s.udata != [])
  {
    hide GiveUp, RetryPass, ExhaustedKeys, Resent, Released, FreePass;
  }

  class Llc {
    const main: int
    var now: Time
    var acks: seq<OutAck>
    var queue: seq<Held>
    var udata: seq<Msg>
    var vs: map<int, Bit>
    var accepted: map<int, nat>
    var received: map<(int, int), nat>

    ghost predicate Valid()
      reads this
    {
      Separate(queue)
    }

    ghost function View(): State
      reads this, Reporters(queue)
    {
      State(main, now, acks, ViewQueue(queue), udata, vs, accepted, received)
    }

    constructor (main: int)
      ensures Valid() && View() == M.Init(main)
    {
      this.main := main;
      now := DEFAULT_TIME;
      acks, queue, udata := [], [], [];
      vs, accepted, received := map[], map[], map[];
    }

    /** Scan for the oldest acknowledgement owed to this SSI and carrier and take it out. */
    method GetOutAckSeqIfAny(ssi: int, carrier: int) returns (ack: Option<OutAck>)
      modifies this`acks
      ensures (ack, acks) == TakeAck(old(acks), ssi, carrier)
      ensures ack.None? ==> acks == old(acks)
    {
      var i := 0;
      while i < |acks|
        invariant 0 <= i <= |acks| && acks == old(acks)
        invariant forall j :: 0 <= j < i ==> !(acks[j].ssi == ssi && acks[j].carrier == carrier)
      {
        if acks[i].ssi == ssi && acks[i].carrier == carrier {
          ack := Some(acks[i]);
          acks := acks[..i] + acks[i + 1..];
          return;
        }
        i := i + 1;
      }
      ack := None;
    }

    /** N(S) := V(S), then toggle V(S). */
    method GetNextSendSeq(ssi: int) returns (ns: Bit)
      modifies this`vs
      ensures ns == (if ssi in old(vs) then old(vs)[ssi] else 0)
      ensures vs == old(vs)[ssi := Flip(ns)]
    {
      if ssi !in vs {
        vs := vs[ssi := 0];
      }
      ns := vs[ssi];
      vs := vs[ssi := Flip(ns)];
    }

    /** Take out the first submitted message of this SSI and carrier. */
    method TakeExpectedAckForSsi(ssi: int, carrier: int) returns (taken: Option<Held>)
      requires Valid()
      modifies this`queue
      ensures Valid() && Reporters(queue) <= old(Reporters(queue))
      ensures var v := old(ViewQueue(queue));
              var i := FirstSubmitted(v, ssi, carrier);
              if i == |v| then taken == None && ViewQueue(queue) == v
              else taken.Some? && ViewOf(taken.value) == v[i] && ViewQueue(queue) == v[..i] + v[i + 1..]
      ensures taken.Some? ==> taken.value.rep in old(Reporters(queue)) && taken.value.rep !in Reporters(queue)
      ensures taken.Some? ==> taken.value.rep.expectsAck
    {
      hide ViewQueue, FirstSubmitted, ViewOf;
      FirstSubmittedInView(queue, ssi, carrier);
      var i := 0;
      while i < |queue|
        invariant 0 <= i <= |queue| && queue == old(queue)
        invariant forall j :: 0 <= j < i ==>
          !(queue[j].ssi == ssi && queue[j].carrier == carrier && queue[j].submitted.Some?)
      {
        if queue[i].ssi == ssi && queue[i].carrier == carrier && queue[i].submitted.Some? {
          taken := Some(queue[i]);
          ViewWithout(queue, i);
          SeparateWithout(queue, i);
          queue := queue[..i] + queue[i + 1..];
          return;
        }
        i := i + 1;
      }
      taken := None;
    }

    /** An acknowledgement: completes the submitted message or puts it back at the front. The
        reporter of the message that leaves ends in the state the step function gives it; no other
        reporter changes. */
    method ProcessIncomingAck(ssi: int, carrier: int, nr: Bit) returns (panicked: bool, ghost left: Option<Held>)
      requires Valid()
      modifies this`queue, Reporters(queue)
      ensures Valid() && Reporters(queue) <= old(Reporters(queue))
      ensures var a := ProcessAck(old(View().queue), ssi, carrier, nr);
              && View().queue == a.queue && panicked == a.panicked
              && left.Some? == a.left.Some? && (left.Some? ==> ViewOf(left.value) == a.left.value)
    {
      hide ViewQueue, FirstSubmitted, Separate, Reporters, ProcessAck;
      AckCases(ViewQueue(queue), ssi, carrier, nr);
      var taken := TakeExpectedAckForSsi(ssi, carrier);
      panicked, left := false, None;
      if taken.None? {
        return;
      }
      var e := taken.value;
      if e.done.None? || e.ns != nr {
        ViewFront(e, queue);
        SeparateFront(e, queue);
        queue := [e] + queue;
        return;
      }
      left := Some(e);
      panicked := Complete(e);
    }

    /** Mark a message that has left the queue acknowledged; the queued ones do not notice. */
    method Complete(e: Held) returns (panicked: bool)
      requires e.rep !in Reporters(queue) && e.rep.expectsAck
      modifies e.rep
      ensures ViewQueue(queue) == old(ViewQueue(queue))
      ensures panicked == !old(e.rep.state).Transmitted?
      ensures ViewOf(e) == if panicked then old(ViewOf(e)) else old(ViewOf(e)).(rep := Acknowledged)
    {
      hide ViewQueue, Reporters;
      forall j | 0 <= j < |queue| ensures queue[j].rep != e.rep {
        ReporterOf(queue, j);
      }
      var ok := e.rep.Apply(ToAcknowledged);
      ViewKept(queue);
      panicked := !ok;
    }

    /** Accept a TL-DATA request. A reporter handed in must be one that expects an acknowledgement
        and is not already attached to a queued message. */
    method RxTlaTlDataReqBl(r: Req, reporter: TxReporter?)
      requires Valid()
      requires reporter != null ==> reporter.expectsAck && reporter !in Reporters(queue)
      modifies this
      ensures Valid() && unchanged(Reporters(old(queue)))
      ensures View() == DataReq(old(View()), r, if reporter == null then Pending else old(reporter.state))
      ensures forall x :: x in Reporters(queue) && x !in old(Reporters(queue)) ==> x == reporter || fresh(x)
    {
      hide ViewQueue, TakeAck;
      var c := if r.chanCarrier.Some? then r.chanCarrier.value else main;
      if r.stealing {
        var n := GetOutAckSeqIfAny(r.ssi, c);
        if n.Some? {
          udata := udata + [Msg(r.ssi, c, BlAck(n.value.nr), r.sdu, true, r.link, None, Some(n.value.ord))];
          return;
        }
      }
      if r.stealing || r.group {
        udata := udata + [Msg(r.ssi, c, BlUdata, r.sdu, r.stealing, 0, None, None)];
        return;
      }
      var tx: TxReporter;
      if reporter != null {
        tx := reporter;
      } else {
        tx := new TxReporter(true);
      }
      QueueAcknowledged(r, c, tx);
    }

    /** Number the message, let an owed acknowledgement ride on it, and queue it. */
    method QueueAcknowledged(r: Req, c: int, tx: TxReporter)
      requires Valid() && !r.stealing && !r.group && c == Carrier(View(), r)
      requires tx.expectsAck && tx !in Reporters(queue)
      modifies this
      ensures Valid() && Reporters(queue) <= old(Reporters(queue)) + {tx}
      ensures View() == DataReq(old(View()), r, tx.state)
    {
      hide ViewQueue, TakeAck;
      var outAck := GetOutAckSeqIfAny(r.ssi, c);
      var ns := GetNextSendSeq(r.ssi);
      var k := if r.ssi in accepted then accepted[r.ssi] else 0;
      accepted := accepted[r.ssi := k + 1];
      var m := DataPdu(r, c, ns, k, outAck);
      var e := Entry(r.ssi, k, c, ns, now, None, None, m, 0, tx);
      ViewBack(queue, e);
      SeparateBack(queue, e);
      queue := queue + [e];
    }

    method RxTlaTlUnitdataReqBl(r: Req)
      requires Valid()
      modifies this`udata
      ensures Valid() && View() == UnitdataReq(old(View()), r)
    {
      var c := if r.chanCarrier.Some? then r.chanCarrier.value else main;
      udata := udata + [Msg(r.ssi, c, BlUdata, r.sdu, r.stealing, r.link, None, None)];
    }

    method ScheduleOutgoingAck(i: Ind, ns: Bit)
      modifies this`acks, this`received
      ensures View() == Owe(old(View()), i, ns)
    {
      var n := if (i.ssi, i.carrier) in received then received[(i.ssi, i.carrier)] else 0;
      acks := acks + [OutAck(i.ssi, i.carrier, UplinkSlot(now), ns, n)];
      received := received[(i.ssi, i.carrier) := n + 1];
    }

    /** A received basic-link PDU. */
    method RxTmaUnitdataIndBl(i: Ind) returns (up: Option<Upward>, panicked: bool, ghost left: Option<Held>)
      requires Valid()
      modifies this`acks, this`received, this`queue, Reporters(queue)
      ensures Valid() && Reporters(queue) <= old(Reporters(queue))
      ensures var e := Receive(old(View()), i);
              && View() == e.state && up == e.up && panicked == e.panicked
              && left.Some? == e.left.Some? && (left.Some? ==> ViewOf(left.value) == e.left.value)
    {
      hide ViewQueue, ProcessAck, UplinkSlot;
      up, panicked, left := None, false, None;
      if !i.fcsOk {
        return;
      }
      var ns := NsOf(i.pdu);
      if ns.Some? {
        ScheduleOutgoingAck(i, ns.value);
      }
      var nr := NrOf(i.pdu);
      if nr.Some? {
        panicked, left := ProcessIncomingAck(i.ssi, i.carrier, nr.value);
        if panicked {
          return;
        }
      }
      up := UpwardOf(i);
    }

    method TickStart(ts: Time)
      requires Valid()
      modifies this`now
      ensures Valid() && View() == old(View()).(now := ts)
    {
      now := ts;
    }

    /** Hand a copy of the i-th message to the UMAC; its reporter starts over. */
    method SubmitForAcknowledgedTransmission(mq: MessageQueue, i: nat)
      requires Valid() && i < |queue|
      modifies this`queue, queue[i].rep, mq
      ensures |queue| == |old(queue)| && forall j :: 0 <= j < |queue| ==> queue[j].rep == old(queue)[j].rep
      ensures Valid()
      ensures ViewOf(queue[i]) == Submit(old(ViewOf(queue[i])), now)
      ensures forall j :: 0 <= j < |queue| && j != i ==> queue[j] == old(queue)[j]
      ensures mq.messages == old(mq.messages) + [old(queue)[i].msg]
    {
      hide ViewQueue, SlotOf;
      var e := queue[i];
      queue := queue[i := e.(submitted := Some(SlotOf(now, e.tFirst)), done := None)];
      e.rep.Reset();
      mq.PushBack(e.msg);
    }

    /** The age test of the retry timer, on the unsigned age. */
    method TimerFired(done: Time) returns (fired: bool)
      ensures fired == Due(now, done)
    {
      var age := TimeIntDiff(now.ToInt(), done.ToInt());
      var unsigned := if age < 0 then age + 0x1_0000_0000 else age;
      fired := unsigned >= T251;
    }

    /** One round of the retransmission loop, for the i-th message. */
    method RetryOne(mq: MessageQueue, i: nat) returns (resent: bool, exhausted: bool)
      requires Valid() && i < |queue|
      modifies this`queue, queue[i].rep, mq
      ensures Valid() && |queue| == |old(queue)| && forall j :: 0 <= j < |queue| ==> queue[j].rep == old(queue)[j].rep
      ensures forall j :: 0 <= j < |queue| && j != i ==> queue[j] == old(queue)[j]
      ensures resent == Resends(old(ViewOf(queue[i])), now)
      ensures exhausted == Exhausted(old(ViewOf(queue[i])), now)
      ensures ViewOf(queue[i]) == Retried(old(ViewOf(queue[i])), now)
      ensures mq.messages == old(mq.messages) + if resent then [old(queue)[i].msg] else []
    {
      hide ViewQueue, Elapsed, SlotOf;
      resent, exhausted := false, false;
      var e := queue[i];
      if e.done.None? && (IsTransmitted(e.rep.state) || e.rep.state.Discarded?) {
        queue := queue[i := e.(done := Some(now))];
      }
      if queue[i].done.None? {
        return;
      }
      var fired := TimerFired(queue[i].done.value);
      if fired {
        if queue[i].retries < N252 {
          queue := queue[i := queue[i].(retries := queue[i].retries + 1)];
          SubmitForAcknowledgedTransmission(mq, i);
          resent := true;
        } else {
          exhausted := true;
        }
      }
    }

    /** The retransmission loop: every message gets one round; the keys of the exhausted ones are
        collected in queue order. */
    method RetryAll(mq: MessageQueue) returns (keys: seq<(int, int)>, activity: bool)
      requires Valid()
      modifies this`queue, Reporters(queue), mq
      ensures Valid() && Reporters(queue) == old(Reporters(queue))
      ensures ViewQueue(queue) == RetryPass(old(ViewQueue(queue)), now)
      ensures keys == ExhaustedKeys(old(ViewQueue(queue)), now)
      ensures mq.messages == old(mq.messages) + Copies(Resent(old(ViewQueue(queue)), now))
      ensures activity == (Resent(old(ViewQueue(queue)), now) != [])
    {
      hide ViewQueue, Retried, Resends, Exhausted, ViewOf, Due, Resent, ExhaustedKeys, Copies;
      ghost var q0, v0, m0 := queue, ViewQueue(queue), mq.messages;
      NoRetryRound(now);
      keys, activity := [], false;
      var i := 0;
      while i < |queue|
        invariant 0 <= i <= |queue| == |q0| && Valid()
        invariant forall j :: 0 <= j < |q0| ==> queue[j].rep == q0[j].rep
        invariant forall j :: 0 <= j < i ==> ViewOf(queue[j]) == Retried(v0[j], now)
        invariant forall j :: i <= j < |q0| ==> queue[j] == q0[j] && ViewOf(queue[j]) == v0[j]
        invariant keys == ExhaustedKeys(v0[..i], now)
        invariant mq.messages == m0 + Copies(Resent(v0[..i], now))
        invariant activity == (Resent(v0[..i], now) != [])
      {
        assert queue[i].rep in Reporters(q0);
        ViewFields(queue[i]);
        var resent, exhausted := RetryOne(mq, i);
        RetryRound(v0, i, now);
        ViewFields(queue[i]);
        if exhausted {
          keys := keys + [(queue[i].ssi, queue[i].carrier)];
        }
        activity := activity || resent;
        i := i + 1;
      }
      assert v0[..i] == v0;
    }

    /** Take out, key by key, the message each key looks up; a transmitted one is marked lost. */
    method GiveUpAll(keys: seq<(int, int)>) returns (ghost left: seq<Held>)
      requires Valid()
      modifies this`queue, Reporters(queue)
      ensures Valid() && Reporters(queue) + Reporters(left) <= old(Reporters(queue))
        && Reporters(left) !! Reporters(queue)
      ensures (ViewQueue(queue), ViewQueue(left)) == GiveUp(old(ViewQueue(queue)), keys)
    {
      hide ViewQueue, GiveUp, FirstSubmitted, Separate;
      ghost var total := GiveUp(ViewQueue(queue), keys);
      left := [];
      var k := 0;
      assert keys[0..] == keys;
      while k < |keys|
        invariant 0 <= k <= |keys| && Valid()
        invariant Reporters(queue) <= old(Reporters(queue)) && Reporters(left) <= old(Reporters(queue))
        invariant Reporters(left) !! Reporters(queue)
        invariant GiveUp(ViewQueue(queue), keys[k..]).0 == total.0
        invariant ViewQueue(left) + GiveUp(ViewQueue(queue), keys[k..]).1 == total.1
      {
        GiveUpStep(ViewQueue(queue), keys, k);
        left := GiveUpOne(keys[k].0, keys[k].1, left);
        k := k + 1;
      }
      NoGiveUp(ViewQueue(queue), keys);
      assert ViewQueue(left) + [] == ViewQueue(left);
    }

    method GiveUpOne(ssi: int, carrier: int, ghost left: seq<Held>) returns (ghost left': seq<Held>)
      requires Valid() && Reporters(left) !! Reporters(queue)
      modifies this`queue, Reporters(queue)
      ensures Valid() && Reporters(queue) <= old(Reporters(queue))
      ensures Reporters(left') !! Reporters(queue) && Reporters(left') <= Reporters(left) + old(Reporters(queue))
      ensures var q := old(ViewQueue(queue));
              var i := FirstSubmitted(q, ssi, carrier);
              if i == |q| then ViewQueue(queue) == q && ViewQueue(left') == old(ViewQueue(left))
              else ViewQueue(queue) == q[..i] + q[i + 1..] && ViewQueue(left') == old(ViewQueue(left)) + [GivenUp(q[i])]
    {
      hide ViewQueue, FirstSubmitted;
      left' := left;
      var taken := TakeExpectedAckForSsi(ssi, carrier);
      if taken.None? {
        return;
      }
      var e := taken.value;
      if e.rep.state.Transmitted? {
        var ok := e.rep.Apply(ToLost);
        assert ok;
      }
      left' := left + [e];
      ViewBack(left, e);
      ReportersBack(left, e);
    }

    method SubmitRetransmissionsToUmac(mq: MessageQueue) returns (activity: bool, ghost left: seq<Held>)
      requires Valid()
      modifies this`queue, Reporters(queue), mq
      ensures Valid() && Reporters(queue) + Reporters(left) <= old(Reporters(queue))
        && Reporters(left) !! Reporters(queue)
      ensures (ViewQueue(queue), ViewQueue(left))
           == GiveUp(RetryPass(old(ViewQueue(queue)), now), ExhaustedKeys(old(ViewQueue(queue)), now))
      ensures mq.messages == old(mq.messages) + Copies(Resent(old(ViewQueue(queue)), now))
      ensures activity == (Resent(old(ViewQueue(queue)), now) != [])
    {
      hide *;
      var keys;
      keys, activity := RetryAll(mq);
      left := GiveUpAll(keys);
    }

    /** The first message of every SSI is handed down unless it already was; `blocked` holds the
        SSIs seen so far. */
    method SubmitFreeMessagesToUmac(mq: MessageQueue) returns (activity: bool)
      requires Valid()
      modifies this`queue, Reporters(queue), mq
      ensures Valid() && Reporters(queue) == old(Reporters(queue))
      ensures ViewQueue(queue) == FreePass(old(ViewQueue(queue)), now)
      ensures mq.messages == old(mq.messages) + Copies(Released(old(ViewQueue(queue)), now))
      ensures activity == (Released(old(ViewQueue(queue)), now) != [])
    {
      hide ViewQueue, Submit, ViewOf, Released, Copies, FreePass, SlotOf, Free, Seen;
      NoneSeen(ViewQueue(queue));
      ghost var q0, v0, m0 := queue, ViewQueue(queue), mq.messages;
      NoRelease(now);
      activity := false;
      var blocked := {};
      var i := 0;
      while i < |queue|
        invariant 0 <= i <= |queue| == |q0| && Valid()
        invariant forall j :: 0 <= j < |q0| ==> queue[j].rep == q0[j].rep
        invariant forall x :: x in blocked <==> Seen(v0, i, x)
        invariant forall j :: 0 <= j < i ==> ViewOf(queue[j]) == if Free(v0, j) then Submit(v0[j], now) else v0[j]
        invariant forall j :: i <= j < |q0| ==> queue[j] == q0[j] && ViewOf(queue[j]) == v0[j]
        invariant mq.messages == m0 + Copies(Released(v0[..i], now))
        invariant activity == (Released(v0[..i], now) != [])
      {
        assert queue[i].rep in Reporters(q0);
        ViewFields(queue[i]);
        ReleaseRound(v0, i, now);
        FreeWhen(v0, i);
        if queue[i].submitted.Some? {
          blocked := blocked + {queue[i].ssi};
        } else if queue[i].ssi !in blocked {
          blocked := blocked + {queue[i].ssi};
          SubmitForAcknowledgedTransmission(mq, i);
          activity := true;
        }
        i := i + 1;
      }
      assert v0[..i] == v0;
    }

    method SubmitAckRepliesToUmac(mq: MessageQueue) returns (activity: bool)
      modifies this`acks, mq
      ensures acks == [] && activity == (old(acks) != [])
      ensures mq.messages == old(mq.messages) + Map(AckReply, old(acks))
    {
      activity := acks != [];
      ghost var n := 0;
      while acks != []
        invariant 0 <= n <= |old(acks)| && acks == old(acks)[n..]
        invariant mq.messages == old(mq.messages) + Map(AckReply, old(acks))[..n]
        decreases |acks|
      {
        var a := acks[0];
        acks := acks[1..];
        var steal := 2 <= a.slot <= 4;
        mq.PushBack(Msg(a.ssi, a.carrier, BlAck(a.nr), [], steal, if steal then a.slot else 0, None, Some(a.ord)));
        n := n + 1;
      }
    }

    method SubmitUdataMsgsToUmac(mq: MessageQueue) returns (activity: bool)
      modifies this`udata, mq
      ensures udata == [] && activity == (old(udata) != [])
      ensures mq.messages == old(mq.messages) + old(udata)
    {
      activity := udata != [];
      ghost var n := 0;
      while udata != []
        invariant 0 <= n <= |old(udata)| && udata == old(udata)[n..]
        invariant mq.messages == old(mq.messages) + old(udata)[..n]
        decreases |udata|
      {
        var m := udata[0];
        udata := udata[1..];
        mq.PushBack(m);
        n := n + 1;
      }
    }

    /** The end of a tick: the four phases in order. `left` are the messages given up. */
    method TickEnd(mq: MessageQueue) returns (activity: bool, ghost left: seq<Held>)
      requires Valid()
      modifies this`queue, this`acks, this`udata, Reporters(queue), mq
      ensures Valid() && Reporters(queue) <= old(Reporters(queue))
      ensures var t := M.TickEnd(old(View()));
              && View() == t.state && ViewQueue(left) == t.left
              && mq.messages == old(mq.messages) + t.out && (activity <==> t.out != [])
    {
      hide ViewQueue, RetryPass, ExhaustedKeys, Resent, GiveUp, Released, FreePass, Separate, Reporters, Copies,
        M.TickEnd;
      ghost var s0, m0 := View(), mq.messages;
      var retried, released, replied, sent;
      retried, left := SubmitRetransmissionsToUmac(mq);
      ghost var q2 := ViewQueue(queue);
      forall i | 0 <= i < |left| ensures left[i].rep in Reporters(left) && left[i].rep !in Reporters(queue) {
        ReporterOf(left, i);
      }
      label L:
      released := SubmitFreeMessagesToUmac(mq);
      replied := SubmitAckRepliesToUmac(mq);
      sent := SubmitUdataMsgsToUmac(mq);
      activity := retried || released || replied || sent;
      ViewKept@L(left);
      TickParts(s0, q2, ViewQueue(left));
      assert mq.messages == m0 + M.TickEnd(s0).out by {
        var resent, released := Copies(Resent(s0.queue, now)), Copies(Released(q2, now));
        OutAssoc(m0, resent, released, Map(AckReply, s0.acks), s0.udata);
      }
    }
  }
}
