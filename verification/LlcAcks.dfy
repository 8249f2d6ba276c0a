/** The acknowledgements the LLC sends back: each received N(S) becomes the N(R) of exactly one PDU,
    and when those PDUs are handed to the UMAC in the order the numbers were received. */
module LlcAcks {
  import opened Wrappers
  import opened Tdma
  import opened Links
  import opened TxReceipt
  import opened LlcModel
  import opened LlcSystem
  import T = LlcTheorems
  import L = LlcLink

  function OwedKey(o: Owed): (int, int) {
    (o.ssi, o.carrier)
  }

  /** Per SSI and carrier, the N(S) values heard are the N(R) values built so far followed by
      those still owed, oldest first. */
  ghost predicate OwedInv(y: Sys) {
    forall k: (int, int) {:trigger Sel(OwedKey, y.heard, k)} ::
      Sel(OwedKey, y.heard, k) == Sel(OwedKey, y.built, k) + Sel(OwedKey, Map(AckOwed, y.llc.acks), k)
  }

  /** The replies of a tick carry exactly the acknowledgements owed, in order. */
  lemma {:induction false} RepliesCarryTheOwed(a: seq<OutAck>)
    ensures Numbers(Map(AckReply, a)) == Map(AckOwed, a)
  {
    if a != [] {
      var n := |a| - 1;
      RepliesCarryTheOwed(a[..n]);
      assert Map(AckReply, a)[..n] == Map(AckReply, a[..n]);
      assert Map(AckOwed, a) == Map(AckOwed, a[..n]) + [AckOwed(a[n])];
    }
  }

  /** Taking the oldest matching acknowledgement, seen from any key. */
  lemma TakeAckOnKey(a: seq<OutAck>, ssi: int, carrier: int, k: (int, int))
    ensures var (ack, rest) := TakeAck(a, ssi, carrier);
            Sel(OwedKey, Map(AckOwed, a), k)
            == (if ack.Some? && k == (ssi, carrier) then [AckOwed(ack.value)] else [])
               + Sel(OwedKey, Map(AckOwed, rest), k)
  {
    hide Sel;
    var i := FirstAck(a, ssi, carrier);
    if i < |a| {
      var m := Map(AckOwed, a);
      SelSplit(OwedKey, m, i, k);
      SelOne(OwedKey, m[i], k);
      var rest := a[..i] + a[i + 1..];
      MapConcat(AckOwed, a[..i], a[i + 1..]);
      assert m[..i] == Map(AckOwed, a[..i]) && m[i + 1..] == Map(AckOwed, a[i + 1..]);
      SelConcat(OwedKey, m[..i], m[i + 1..], k);
      if k == (ssi, carrier) {
        forall x | x in m[..i] ensures OwedKey(x) != k {
          var j :| 0 <= j < i && m[j] == x;
          assert !(a[j].ssi == ssi && a[j].carrier == carrier);
        }
        SelNone(OwedKey, m[..i], k);
      }
    }
  }

  /** A request consumes the oldest matching acknowledgement exactly when it puts it in a PDU. */
  lemma RequestBuilds(y: Sys, r: Req)
    ensures var y' := Next(y, DataRequest(r));
            var c := Carrier(y.llc, r);
            var (ack, rest) := TakeAck(y.llc.acks, r.ssi, c);
            && y'.heard == y.heard
            && (if ack.Some? && (r.stealing || !r.group)
                then y'.llc.acks == rest && y'.built == y.built + [AckOwed(ack.value)]
                else y'.llc.acks == y.llc.acks && y'.built == y.built)
  {
    hide TakeAck;
    var c := Carrier(y.llc, r);
    TakeAckFacts(y.llc.acks, r.ssi, c);
    var ack := TakeAck(y.llc.acks, r.ssi, c).0;
    assert ack.None? ==> TakeAck(y.llc.acks, r.ssi, c).1 == y.llc.acks;
    assert y.built + [] == y.built;
  }

  lemma TakeAckFacts(a: seq<OutAck>, ssi: int, carrier: int)
    ensures var (ack, rest) := TakeAck(a, ssi, carrier);
            && (ack.None? ==> rest == a)
            && (ack.Some? ==> ack.value.ssi == ssi && ack.value.carrier == carrier)
  {
  }

  lemma RequestOwed(y: Sys, r: Req, k: (int, int))
    ensures var y' := Next(y, DataRequest(r));
            && y'.heard == y.heard
            && Sel(OwedKey, y'.built, k) + Sel(OwedKey, Map(AckOwed, y'.llc.acks), k)
               == Sel(OwedKey, y.built, k) + Sel(OwedKey, Map(AckOwed, y.llc.acks), k)
  {
    hide Sel, Next, DataReq, TakeAck;
    RequestBuilds(y, r);
    TakeAckFacts(y.llc.acks, r.ssi, Carrier(y.llc, r));
    var c := Carrier(y.llc, r);
    TakeAckOnKey(y.llc.acks, r.ssi, c, k);
    var ack := TakeAck(y.llc.acks, r.ssi, c).0;
    if ack.Some? {
      var o := AckOwed(ack.value);
      SelConcat(OwedKey, y.built, [o], k);
      SelOne(OwedKey, o, k);
    }
  }

  lemma RxOwed(y: Sys, i: Ind, k: (int, int))
    ensures var y' := Next(y, Rx(i));
            && y'.built == y.built
            && Sel(OwedKey, y'.heard, k) == Sel(OwedKey, y.heard, k) + Sel(OwedKey, Heard(y.llc, i), k)
            && Sel(OwedKey, Map(AckOwed, y'.llc.acks), k)
               == Sel(OwedKey, Map(AckOwed, y.llc.acks), k) + Sel(OwedKey, Heard(y.llc, i), k)
  {
    hide Sel, ProcessAck;
    var y' := Next(y, Rx(i));
    SelConcat(OwedKey, y.heard, Heard(y.llc, i), k);
    SelNone(OwedKey, [], k);
    if i.fcsOk && NsOf(i.pdu).Some? {
      var o := y'.llc.acks[|y.llc.acks|];
      MapConcat(AckOwed, y.llc.acks, [o]);
      assert Map(AckOwed, [o]) == Heard(y.llc, i);
      SelConcat(OwedKey, Map(AckOwed, y.llc.acks), Heard(y.llc, i), k);
    }
  }

  lemma NextOwed(y: Sys, ev: Event)
    requires OwedInv(y) && Enabled(y, ev)
    ensures OwedInv(Next(y, ev))
    ensures ev.EndTick? ==> Next(y, ev).llc.acks == []
  {
    hide Sel, GiveUp, FreePass, Resent, Released, RetryPass, ExhaustedKeys, ProcessAck, DataReq, Receive;
    var y' := Next(y, ev);
    forall k: (int, int)
      ensures Sel(OwedKey, y'.heard, k) == Sel(OwedKey, y'.built, k) + Sel(OwedKey, Map(AckOwed, y'.llc.acks), k)
    {
      assert Sel(OwedKey, y.heard, k) == Sel(OwedKey, y.built, k) + Sel(OwedKey, Map(AckOwed, y.llc.acks), k);
      match ev
      case DataRequest(r) => RequestOwed(y, r, k);
      case Rx(i) => RxOwed(y, i, k);
      case EndTick =>
        RepliesCarryTheOwed(y.llc.acks);
        SelConcat(OwedKey, y.built, Map(AckOwed, y.llc.acks), k);
        SelNone(OwedKey, [], k);
      case _ =>
    }
  }

  /** Over every run each N(S) received is placed as N(R) in exactly one newly built PDU for the
      same SSI and carrier, oldest first; after the end of a tick none is still owed. */
  lemma {:induction false} EveryAckIsBuiltOnce(main: int, clock: Time, evs: seq<Event>, k: (int, int))
    ensures var y := T.After(T.Start(main, clock), evs);
            && OwedInv(y)
            && Sel(OwedKey, y.built, k) <= Sel(OwedKey, y.heard, k)
            && (y.open ==>
                  var z := Next(y, EndTick);
                  z.llc.acks == [] && Sel(OwedKey, z.heard, k) == Sel(OwedKey, z.built, k))
  {
    hide Sel, Next;
    var y := T.After(T.Start(main, clock), evs);
    if evs == [] {
      forall k': (int, int) ensures Sel(OwedKey, [], k') == [] {
        SelNone(OwedKey, [], k');
      }
    } else {
      var n := |evs| - 1;
      EveryAckIsBuiltOnce(main, clock, evs[..n], k);
      var p := T.After(T.Start(main, clock), evs[..n]);
      if Enabled(p, evs[n]) {
        NextOwed(p, evs[n]);
      }
    }
    assert Sel(OwedKey, y.heard, k) == Sel(OwedKey, y.built, k) + Sel(OwedKey, Map(AckOwed, y.llc.acks), k);
    if y.open {
      NextOwed(y, EndTick);
      var z := Next(y, EndTick);
      SelNone(OwedKey, [], k);
      assert Sel(OwedKey, z.heard, k) == Sel(OwedKey, z.built, k) + Sel(OwedKey, Map(AckOwed, z.llc.acks), k);
    }
  }
}
