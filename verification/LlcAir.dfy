/** The LLC, its UMAC and a peer over two lossy first-in-first-out channels per SSI. The peer
    answers every data PDU it receives with an acknowledgement carrying that PDU's N(S). */
module LlcAir {
  import opened Wrappers
  import opened Tdma
  import opened Links
  import opened TxReceipt
  import opened LlcModel
  import opened LlcSystem
  import T = LlcTheorems
  import L = LlcLink

  /** down: data PDUs on the air; up: acknowledgements on the air, each named after the data it
      answers; got: messages the peer has received. */
  datatype World = World(y: Sys, down: seq<Copy>, up: seq<Copy>, got: set<(int, nat)>)

  datatype Step =
    | Llc(ev: Event)
    | Transmit(k: nat)
    | LoseData(k: nat)
    | LoseAck(k: nat)
    | PeerGets(k: nat)
    | AckArrives(k: nat, carrier: int, sdu: seq<bool>)

  /** The k-th item is the oldest of its SSI. */
  predicate Oldest(q: seq<Copy>, k: nat) {
    k < |q| && forall j :: 0 <= j < k ==> q[j].ssi != q[k].ssi
  }

  /** Acknowledgements reach the LLC only through the channel, and a transmission puts the copy
      on the air. */
  predicate Can(w: World, st: Step) {
    match st
    case Llc(ev) => Enabled(w.y, ev) && (ev.UmacMark? ==> ev.to.Discarded?) && (ev.Rx? ==> NrOf(ev.i.pdu).None?)
    case Transmit(k) => k < |w.y.umac|
    case LoseData(k) => k < |w.down|
    case LoseAck(k) => k < |w.up|
    case PeerGets(k) => Oldest(w.down, k)
    case AckArrives(k, _, _) => Oldest(w.up, k)
  }

  function Without(q: seq<Copy>, k: nat): seq<Copy>
    requires k < |q|
  {
    q[..k] + q[k + 1..]
  }

  /** The LLC event inside a step. */
  function LlcPart(w: World, st: Step): Option<Event>
    requires Can(w, st)
  {
    match st
    case Llc(ev) => Some(ev)
    case Transmit(k) => Some(UmacMark(k, Transmitted))
    case AckArrives(k, carrier, sdu) => Some(Rx(Ind(w.up[k].ssi, carrier, BlAck(w.up[k].ns), sdu, true)))
    case _ => None
  }

  function Go(w: World, st: Step): World
    requires Can(w, st)
  {
    var y' := if LlcPart(w, st).Some? then Next(w.y, LlcPart(w, st).value) else w.y;
    match st
    case Llc(_) => w.(y := y')
    case Transmit(k) => w.(y := y', down := w.down + [w.y.umac[k]])
    case LoseData(k) => w.(down := Without(w.down, k))
    case LoseAck(k) => w.(up := Without(w.up, k))
    case PeerGets(k) =>
      w.(down := Without(w.down, k), up := w.up + [w.down[k]], got := w.got + {(w.down[k].ssi, w.down[k].serial)})
    case AckArrives(k, _, _) => w.(y := y', up := Without(w.up, k))
  }

  function Begin(main: int, clock: Time): World {
    World(T.Start(main, clock), [], [], {})
  }

  function Run(w: World, sts: seq<Step>): World {
    if sts == [] then w
    else
      var p := Run(w, sts[..|sts| - 1]);
      if Can(p, sts[|sts| - 1]) then Go(p, sts[|sts| - 1]) else p
  }

  // ---------------------------------------------------------------- one link on the air

  /** Everything of one SSI on the air, oldest first: acknowledgements answer older data than
      the data still underway. */
  function Air(w: World, s: int): seq<Copy> {
    Sel(CopySsi, w.up, s) + Sel(CopySsi, w.down, s)
  }

  /** The air holds, in order, only the message in flight and its predecessor; what is answered
      was received; nothing beyond the message in flight was received. */
  ghost predicate AirOk(l: L.Link, air: seq<Copy>, ups: nat, got: set<(int, nat)>, s: int) {
    var n := |l.fin|;
    && ups <= |air|
    && (forall i {:trigger air[i]} :: 0 <= i < |air| ==> n - 1 <= air[i].serial <= n && air[i].ns == air[i].serial % 2)
    && (forall i {:trigger air[i]} :: 0 <= i < |air| && air[i].serial == n ==> L.Current(l.q) != [])
    && (forall i, j :: 0 <= i < j < |air| ==> air[i].serial <= air[j].serial)
    && (forall i :: 0 <= i < ups ==> (s, air[i].serial) in got)
    && (forall k: nat {:trigger (s, k) in got} :: (s, k) in got ==> k <= n && (k == n ==> L.Current(l.q) != []))
    && (forall i :: 0 <= i < n && l.fin[i].rep.Acknowledged? ==> (s, i) in got)
  }

  ghost predicate LinkOk(w: World, s: int) {
    AirOk(Proj(w.y, s), Air(w, s), |Sel(CopySsi, w.up, s)|, w.got, s)
  }

  /** The PDU of a queued message is for the message's SSI and carries its N(S), its request number
      modulo two. */
  ghost predicate WellNumbered(e: E) {
    e.msg.ssi == e.ssi && NsOf(e.msg.pdu) == Some(e.ns) && e.ns == e.serial % 2
  }

  ghost predicate AllWell(q: seq<E>) {
    forall i {:trigger q[i]} :: 0 <= i < |q| ==> WellNumbered(q[i])
  }

  ghost predicate Labelled(y: Sys) {
    && AllWell(y.llc.queue)
    && (forall i {:trigger y.umac[i]} :: 0 <= i < |y.umac| ==> y.umac[i].ns == y.umac[i].serial % 2)
  }

  /** No message is given up while something of an older message of its SSI is on the air. */
  ghost predicate CleanTick(w: World) {
    forall s: int {:trigger Proj(w.y, s)} ::
      var l := Proj(w.y, s);
      l.q != [] && Exhausted(l.q[0], l.now) ==> forall i :: 0 <= i < |Air(w, s)| ==> Air(w, s)[i].serial == |l.fin|
  }

  // link-level preservation

  lemma AirTransmit(l: L.Link, air: seq<Copy>, ups: nat, got: set<(int, nat)>, s: int, i: nat, c: Copy)
    requires L.Inv(l) && AirOk(l, air, ups, got, s) && i < |l.umac|
    requires c.serial == l.umac[i] && c.ns == c.serial % 2
    ensures AirOk(L.Mark(l, i, Transmitted), air + [c], ups, got, s)
  {
    hide Elapsed, Tick, SlotOf, L.Attempts;
    L.MarkInv(l, i, Transmitted);
    T.LinkNumbers(l, 0);
  }

  lemma AirLose(l: L.Link, air: seq<Copy>, ups: nat, got: set<(int, nat)>, s: int, k: nat)
    requires AirOk(l, air, ups, got, s) && k < |air|
    ensures AirOk(l, air[..k] + air[k + 1..], if k < ups then ups - 1 else ups, got, s)
  {
    var a := air[..k] + air[k + 1..];
    forall i | 0 <= i < |a| ensures a[i] == air[if i < k then i else i + 1] {
    }
  }

  lemma AirPeerGets(l: L.Link, air: seq<Copy>, ups: nat, got: set<(int, nat)>, s: int)
    requires AirOk(l, air, ups, got, s) && ups < |air|
    ensures AirOk(l, air, ups + 1, got + {(s, air[ups].serial)}, s)
  {
  }

  /** The heart of the matter: the oldest acknowledgement on the air can complete the message in
      flight only if it answers that very message. */
  lemma AckAnswersCurrent(l: L.Link, air: seq<Copy>, ups: nat, got: set<(int, nat)>, s: int, carrier: int)
    requires L.Numbered(l.fin + l.q) && AirOk(l, air, ups, got, s) && ups > 0
    requires L.Completes(l, carrier, air[0].ns)
    ensures air[0].serial == l.q[0].serial == |l.fin| && (s, |l.fin|) in got
  {
    T.LinkNumbers(l, 0);
  }

  /** Once the message in flight leaves and everything on the air is about it, it becomes the
      predecessor. */
  lemma AirPop(l: L.Link, l': L.Link, air: seq<Copy>, ups: nat, got: set<(int, nat)>, s: int)
    requires AirOk(l, air, ups, got, s)
    requires forall i :: 0 <= i < |air| ==> air[i].serial == |l.fin|
    requires |l'.fin| == |l.fin| + 1 && l'.fin[..|l.fin|] == l.fin
    requires l'.fin[|l.fin|].rep.Acknowledged? ==> (s, |l.fin|) in got
    ensures AirOk(l', air, ups, got, s)
  {
    assert forall i :: 0 <= i < |l.fin| ==> l'.fin[i] == l.fin[i];
  }

  lemma AirAck(l: L.Link, air: seq<Copy>, ups: nat, got: set<(int, nat)>, s: int, carrier: int)
    requires L.Numbered(l.fin + l.q) && ups > 0 && ups <= |air| && AirOk(l, air, ups, got, s)
    ensures AirOk(L.Ack(l, carrier, air[0].ns), air[1..], ups - 1, got, s)
  {
    hide AirOk, L.Numbered;
    AirLose(l, air, ups, got, s, 0);
    assert air[..0] + air[1..] == air[1..];
    if L.Completes(l, carrier, air[0].ns) {
      AckAnswersCurrent(l, air, ups, got, s, carrier);
      var a := air[1..];
      forall i | 0 <= i < |a| ensures a[i].serial == |l.fin| {
        AirMonotone(l, air, ups, got, s, i + 1);
      }
      var l' := L.Ack(l, carrier, air[0].ns);
      assert l'.fin[..|l.fin|] == l.fin;
      AirPop(l, l', a, ups - 1, got, s);
    }
  }

  lemma AirMonotone(l: L.Link, air: seq<Copy>, ups: nat, got: set<(int, nat)>, s: int, i: nat)
    requires AirOk(l, air, ups, got, s) && 0 < i < |air|
    ensures air[0].serial <= air[i].serial <= |l.fin|
  {
  }

  lemma TickEffectOnLink(l: L.Link)
    requires L.Inv(l) && l.open
    ensures var l' := L.TickEnd(l);
            if l.q != [] && Exhausted(l.q[0], l.now)
            then |l'.fin| == |l.fin| + 1 && l'.fin[..|l.fin|] == l.fin && !l'.fin[|l.fin|].rep.Acknowledged?
              && L.Current(l.q) != []
            else l'.fin == l.fin && (L.Current(l.q) != [] ==> L.Current(l'.q) != [])
  {
    hide Elapsed, Tick, SlotOf, L.Attempts, Resends, Retried, Exhausted, Submit;
    L.RetryStageInv(l);
    StageFrame(l);
    RetryLength(l);
    if l.q != [] {
      ExhaustedAfterRetry(l.q[0], l.now);
      if L.Waiting(l.q[0]) {
        L.WaitingIsLeftAlone(l.q[0], l.now);
      } else {
        L.RetriedInFlight(l.q[0], l.clock);
      }
    }
  }

  lemma AirTickEnd(l: L.Link, air: seq<Copy>, ups: nat, got: set<(int, nat)>, s: int)
    requires L.Inv(l) && l.open && AirOk(l, air, ups, got, s)
    requires l.q != [] && Exhausted(l.q[0], l.now) ==> forall i :: 0 <= i < |air| ==> air[i].serial == |l.fin|
    ensures AirOk(L.TickEnd(l), air, ups, got, s)
  {
    hide Elapsed, Tick, SlotOf, L.Attempts, L.TickEnd, Exhausted;
    TickEffectOnLink(l);
    if l.q != [] && Exhausted(l.q[0], l.now) {
      AirPop(l, L.TickEnd(l), air, ups, got, s);
    }
  }

  // ---------------------------------------------------------------- numbering of the copies

  lemma {:induction false} ResentWell(q: seq<E>, now: Time)
    requires AllWell(q)
    ensures AllWell(Resent(q, now)) && AllWell(Released(q, now))
  {
    hide Resends, Free;
    if q != [] {
      ResentWell(q[..|q| - 1], now);
      L.RetriedKeeps(q[|q| - 1], now);
    }
  }

  lemma {:induction false} GiveUpWell(q: seq<E>, keys: seq<(int, int)>)
    requires AllWell(q)
    ensures AllWell(GiveUp(q, keys).0)
    decreases |keys|
  {
    if keys != [] {
      var i := FirstSubmitted(q, keys[0].0, keys[0].1);
      GiveUpWell(if i == |q| then q else q[..i] + q[i + 1..], keys[1..]);
    }
  }

  lemma TickWell(s: State)
    requires AllWell(s.queue)
    ensures AllWell(TickEnd(s).state.queue) && AllWell(TickEnd(s).resent) && AllWell(TickEnd(s).released)
  {
    hide Resends, Exhausted, Retried, GiveUp;
    var q1 := RetryPass(s.queue, s.now);
    forall i | 0 <= i < |q1| ensures WellNumbered(q1[i]) {
      L.RetriedKeeps(s.queue[i], s.now);
    }
    GiveUpWell(q1, ExhaustedKeys(s.queue, s.now));
    ResentWell(s.queue, s.now);
    ResentWell(GiveUp(q1, ExhaustedKeys(s.queue, s.now)).0, s.now);
  }

  lemma RequestLabelled(y: Sys, r: Req)
    requires Inv(y) && Labelled(y)
    ensures Labelled(Next(y, DataRequest(r)))
  {
    hide Elapsed, Tick, SlotOf, L.Inv, TakeAck, NewPdus;
    var l := Proj(y, r.ssi);
    assert L.Inv(l) && AcceptedOf(y.llc, r.ssi) == |l.fin + l.q|;
    VsIsParity(l);
    hide Inv;
    var q' := Next(y, DataRequest(r)).llc.queue;
    if Queues(r) {
      assert q' == y.llc.queue + [q'[|y.llc.queue|]];
      assert WellNumbered(q'[|y.llc.queue|]);
    }
  }

  lemma AckWell(q: seq<E>, ssi: int, carrier: int, nr: Bit)
    requires AllWell(q)
    ensures AllWell(ProcessAck(q, ssi, carrier, nr).queue)
  {
  }

  lemma RxLabelled(y: Sys, i: Ind)
    requires Labelled(y)
    ensures Labelled(Next(y, Rx(i)))
  {
    hide ProcessAck;
    if NrOf(i.pdu).Some? {
      AckWell(y.llc.queue, i.ssi, i.carrier, NrOf(i.pdu).value);
    }
  }

  lemma TickLabelled(y: Sys)
    requires Labelled(y) && y.open
    ensures Labelled(Next(y, EndTick))
  {
    hide TickEnd, Tick, L.SubsFor;
    TickWell(y.llc);
    var t := TickEnd(y.llc);
    var sent := t.resent + t.released;
    var u := Next(y, EndTick).umac;
    forall i | 0 <= i < |u| ensures u[i].ns == u[i].serial % 2 {
      if i >= |y.umac| {
        assert u[i] == AsCopy(sent[i - |y.umac|]);
      }
    }
  }

  lemma NextLabelled(y: Sys, ev: Event)
    requires Inv(y) && Labelled(y) && Enabled(y, ev)
    ensures Labelled(Next(y, ev))
  {
    hide Elapsed, Tick, SlotOf, L.Inv, Inv, TickEnd, DataReq, Receive;
    match ev
    case DataRequest(r) => RequestLabelled(y, r);
    case Rx(i) => RxLabelled(y, i);
    case EndTick => TickLabelled(y);
    case _ =>
  }

  lemma VsIsParity(l: L.Link)
    requires L.Inv(l)
    ensures l.vs == |l.fin + l.q| % 2
  {
  }

  // ---------------------------------------------------------------- every step of a clean run

  ghost predicate WorldInv(w: World) {
    Inv(w.y) && Labelled(w.y) && forall s: int {:trigger LinkOk(w, s)} :: LinkOk(w, s)
  }

  /** Only the message in flight matters to the air. */
  lemma AirFrame(l: L.Link, l': L.Link, air: seq<Copy>, ups: nat, got: set<(int, nat)>, s: int)
    requires AirOk(l, air, ups, got, s)
    requires l'.fin == l.fin && (L.Current(l.q) != [] ==> L.Current(l'.q) != [])
    ensures AirOk(l', air, ups, got, s)
  {
  }

  /** Receptions by other SSIs do not matter either. */
  lemma AirOtherGot(l: L.Link, air: seq<Copy>, ups: nat, got: set<(int, nat)>, s: int, x: (int, nat))
    requires AirOk(l, air, ups, got, s) && x.0 != s
    ensures AirOk(l, air, ups, got + {x}, s)
  {
    forall k: nat | (s, k) in got + {x} ensures (s, k) in got {
    }
  }

  lemma LlcStepOk(w: World, ev: Event, s: int)
    requires WorldInv(w) && Can(w, Llc(ev)) && (ev.EndTick? ==> CleanTick(w))
    ensures LinkOk(Go(w, Llc(ev)), s)
  {
    hide Elapsed, Tick, SlotOf, L.Inv, Sel, AirOk, L.TickEnd, Exhausted, Next;
    var l := Proj(w.y, s);
    assert LinkOk(w, s) && L.Inv(l);
    T.Refines(w.y, ev, s);
    var ups := |Sel(CopySsi, w.up, s)|;
    match ev
    case EndTick =>
      AirTickEnd(l, Air(w, s), ups, w.got, s);
    case UmacMark(k, to) =>
      if s == w.y.umac[k].ssi && |Sel(CopySsi, w.y.umac[..k], s)| < |l.umac| {
        L.MarkInv(l, |Sel(CopySsi, w.y.umac[..k], s)|, to);
      }
      AirFrame(l, OnLink(w.y, ev, s), Air(w, s), ups, w.got, s);
    case _ =>
      AirFrame(l, OnLink(w.y, ev, s), Air(w, s), ups, w.got, s);
  }

  lemma TransmitOk(w: World, k: nat, s: int)
    requires WorldInv(w) && Can(w, Transmit(k))
    ensures LinkOk(Go(w, Transmit(k)), s)
  {
    hide Elapsed, Tick, SlotOf, L.Inv, Sel, AirOk, Next;
    var l := Proj(w.y, s);
    assert LinkOk(w, s) && L.Inv(l);
    var c := w.y.umac[k];
    T.Refines(w.y, UmacMark(k, Transmitted), s);
    MarkRefines(w.y, k, Transmitted, s);
    SelConcat(CopySsi, w.down, [c], s);
    SelOne(CopySsi, c, s);
    var ups := |Sel(CopySsi, w.up, s)|;
    if s == c.ssi {
      var i := |Sel(CopySsi, w.y.umac[..k], s)|;
      SelPlace(CopySsi, w.y.umac, k);
      assert l.umac[i] == c.serial;
      AirTransmit(l, Air(w, s), ups, w.got, s, i, c);
      assert Air(w, s) + [c] == Air(Go(w, Transmit(k)), s);
    } else {
      assert Air(Go(w, Transmit(k)), s) == Air(w, s);
    }
  }

  lemma WithoutOnLink(q: seq<Copy>, k: nat, s: int)
    requires k < |q|
    ensures var l := Sel(CopySsi, q, s);
            var i := |Sel(CopySsi, q[..k], s)|;
            if q[k].ssi == s
            then i < |l| && l[i] == q[k] && Sel(CopySsi, Without(q, k), s) == l[..i] + l[i + 1..]
            else Sel(CopySsi, Without(q, k), s) == l
  {
    hide Sel;
    SelSplit(CopySsi, q, k, s);
    SelOne(CopySsi, q[k], s);
    SelConcat(CopySsi, q[..k], q[k + 1..], s);
  }

  lemma LossOk(w: World, st: Step, s: int)
    requires WorldInv(w) && Can(w, st) && (st.LoseData? || st.LoseAck?)
    ensures LinkOk(Go(w, st), s)
  {
    hide Elapsed, Tick, SlotOf, L.Inv, Sel, AirOk, Next;
    assert LinkOk(w, s);
    var q := if st.LoseData? then w.down else w.up;
    var u, d := Sel(CopySsi, w.up, s), Sel(CopySsi, w.down, s);
    WithoutOnLink(q, st.k, s);
    if q[st.k].ssi == s {
      var i := |Sel(CopySsi, q[..st.k], s)| + if st.LoseData? then |u| else 0;
      AirLose(Proj(w.y, s), u + d, |u|, w.got, s, i);
      assert Air(Go(w, st), s) == (u + d)[..i] + (u + d)[i + 1..];
    }
  }

  lemma OldestOnLink(q: seq<Copy>, k: nat)
    requires Oldest(q, k)
    ensures Sel(CopySsi, q[..k], q[k].ssi) == []
  {
    SelNone(CopySsi, q[..k], q[k].ssi);
  }

  /** Reception moves the oldest data item of an SSI behind its acknowledgements: the air of that
      SSI, read as one sequence, does not change. */
  lemma PeerGetsAir(w: World, k: nat, s: int)
    requires Can(w, PeerGets(k))
    ensures var z, u, d := Go(w, PeerGets(k)), Sel(CopySsi, w.up, s), Sel(CopySsi, w.down, s);
            && Air(z, s) == Air(w, s)
            && |Sel(CopySsi, z.up, s)| == |u| + (if w.down[k].ssi == s then 1 else 0)
            && (w.down[k].ssi == s ==> d != [] && d[0] == w.down[k])
  {
    hide Sel, Next;
    var c := w.down[k];
    var u, d := Sel(CopySsi, w.up, s), Sel(CopySsi, w.down, s);
    WithoutOnLink(w.down, k, s);
    OldestOnLink(w.down, k);
    SelConcat(CopySsi, w.up, [c], s);
    SelOne(CopySsi, c, s);
    if c.ssi == s {
      assert u + [c] + d[1..] == u + d;
    }
  }

  lemma PeerGetsOk(w: World, k: nat, s: int)
    requires WorldInv(w) && Can(w, PeerGets(k))
    ensures LinkOk(Go(w, PeerGets(k)), s)
  {
    hide Elapsed, L.Inv, Sel, AirOk, Next, Air, Without, Proj;
    assert LinkOk(w, s);
    var c := w.down[k];
    var u := |Sel(CopySsi, w.up, s)|;
    PeerGetsAir(w, k, s);
    if c.ssi == s {
      AirAt(w, s);
      AirPeerGets(Proj(w.y, s), Air(w, s), u, w.got, s);
    } else {
      AirOtherGot(Proj(w.y, s), Air(w, s), u, w.got, s, (c.ssi, c.serial));
    }
  }

  lemma AirAt(w: World, s: int)
    requires Sel(CopySsi, w.down, s) != []
    ensures |Sel(CopySsi, w.up, s)| < |Air(w, s)| && Air(w, s)[|Sel(CopySsi, w.up, s)|] == Sel(CopySsi, w.down, s)[0]
  {
    hide Sel;
  }

  lemma AckArrivesOk(w: World, k: nat, carrier: int, sdu: seq<bool>, s: int)
    requires WorldInv(w) && Can(w, AckArrives(k, carrier, sdu))
    ensures LinkOk(Go(w, AckArrives(k, carrier, sdu)), s)
  {
    hide Elapsed, Tick, SlotOf, L.Inv, Sel, AirOk, Next, L.Ack;
    var l := Proj(w.y, s);
    assert LinkOk(w, s) && L.Inv(l);
    var c := w.up[k];
    var ev := Rx(Ind(c.ssi, carrier, BlAck(c.ns), sdu, true));
    T.Refines(w.y, ev, s);
    var u, d := Sel(CopySsi, w.up, s), Sel(CopySsi, w.down, s);
    WithoutOnLink(w.up, k, s);
    OldestOnLink(w.up, k);
    if c.ssi == s {
      LinkNumbered(l);
      AirAck(l, u + d, |u|, w.got, s, carrier);
      assert Air(Go(w, AckArrives(k, carrier, sdu)), s) == (u + d)[1..];
    }
  }

  lemma LinkNumbered(l: L.Link)
    requires L.Inv(l)
    ensures L.Numbered(l.fin + l.q)
  {
  }

  lemma GoInv(w: World, st: Step)
    requires WorldInv(w) && Can(w, st) && (st.Llc? && st.ev.EndTick? ==> CleanTick(w))
    ensures WorldInv(Go(w, st))
  {
    hide Elapsed, Tick, SlotOf, L.Inv, Sel, AirOk, LinkOk, Next, Labelled, Inv;
    if LlcPart(w, st).Some? {
      T.NextInv(w.y, LlcPart(w, st).value);
      NextLabelled(w.y, LlcPart(w, st).value);
    }
    forall s: int ensures LinkOk(Go(w, st), s) {
      match st
      case Llc(ev) => LlcStepOk(w, ev, s);
      case Transmit(k) => TransmitOk(w, k, s);
      case LoseData(_) => LossOk(w, st, s);
      case LoseAck(_) => LossOk(w, st, s);
      case PeerGets(k) => PeerGetsOk(w, k, s);
      case AckArrives(k, carrier, sdu) => AckArrivesOk(w, k, carrier, sdu, s);
    }
  }

  /** A run whose give-ups all happen with nothing older of that SSI on the air; in particular
      every run without a give-up. */
  ghost predicate CleanRun(w: World, sts: seq<Step>) {
    sts != [] ==>
      var n := |sts| - 1;
      CleanRun(w, sts[..n]) && (sts[n].Llc? && sts[n].ev.EndTick? ==> CleanTick(Run(w, sts[..n])))
  }

  lemma {:induction false} CleanRunInv(main: int, clock: Time, sts: seq<Step>)
    requires CleanRun(Begin(main, clock), sts)
    ensures WorldInv(Run(Begin(main, clock), sts))
  {
    hide Elapsed, Tick, SlotOf, L.Inv, Sel, AirOk, Next, Labelled, Inv;
    if sts == [] {
      BeginInv(main, clock);
    } else {
      var n := |sts| - 1;
      CleanRunInv(main, clock, sts[..n]);
      var p := Run(Begin(main, clock), sts[..n]);
      if Can(p, sts[n]) {
        GoInv(p, sts[n]);
      }
    }
  }

  lemma BeginInv(main: int, clock: Time)
    ensures WorldInv(Begin(main, clock))
  {
    T.StartInv(main, clock);
  }

  /** End to end, over every clean run: a message is marked acknowledged only after the peer has
      received that very message. */
  lemma NoFalseAck(main: int, clock: Time, sts: seq<Step>, i: nat)
    requires CleanRun(Begin(main, clock), sts)
    requires i < |Run(Begin(main, clock), sts).y.fin| && Run(Begin(main, clock), sts).y.fin[i].rep.Acknowledged?
    ensures (Run(Begin(main, clock), sts).y.fin[i].ssi,
      Run(Begin(main, clock), sts).y.fin[i].serial) in Run(Begin(main, clock), sts).got
  {
    hide Elapsed, Tick, SlotOf, Sel, Next, Labelled, Run;
    CleanRunInv(main, clock, sts);
    var w := Run(Begin(main, clock), sts);
    var s := w.y.fin[i].ssi;
    var l := Proj(w.y, s);
    assert LinkOk(w, s) && L.Inv(l);
    SelPlace(EntrySsi, w.y.fin, i);
    var a := |Sel(EntrySsi, w.y.fin[..i], s)|;
    assert l.fin[a] == w.y.fin[i];
    assert (l.fin + l.q)[a].serial == a;
  }
}
