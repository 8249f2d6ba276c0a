/** Why the end-to-end theorem needs clean give-ups: whenever a message is given up while an older
    item of its SSI is on the air, that older item can still acknowledge the next message, which
    the peer never received. */
module LlcGiveUp {
  import opened Wrappers
  import opened Tdma
  import opened Links
  import opened TxReceipt
  import opened LlcModel
  import opened LlcSystem
  import opened LlcAir
  import T = LlcTheorems
  import L = LlcLink

  lemma {:induction false} OldestOf(q: seq<Copy>, s: int) returns (k: nat)
    requires Sel(CopySsi, q, s) != []
    ensures Oldest(q, k) && q[k].ssi == s && q[k] == Sel(CopySsi, q, s)[0]
  {
    k := SelAt(CopySsi, q, s, 0);
    if !Oldest(q, k) {
      var n := |q| - 1;
      if Sel(CopySsi, q[..n], s) != [] {
        k := OldestOf(q[..n], s);
      } else {
        k := n;
        forall j | 0 <= j < n ensures q[j].ssi != s {
          if q[j].ssi == s {
            SelPlace(CopySsi, q[..n], j);
          }
        }
      }
    }
  }

  /** Giving up the message in flight hands the next one to the UMAC in the same tick. */
  lemma GiveUpReleasesNext(l: L.Link)
    requires L.Inv(l) && l.open && |l.q| >= 2 && Exhausted(l.q[0], l.now)
    ensures var l' := L.TickEnd(l);
            && L.Inv(l') && !l'.open
            && |l'.fin| == |l.fin| + 1 && |l'.q| == |l.q| - 1
            && l'.q[0] == Submit(l.q[1], l.now) && l'.umac == [l.q[1].serial] && l'.q[0].serial == |l.fin| + 1
  {
    hide Elapsed, Tick, SlotOf, L.Attempts, Resends, Retried, Exhausted, Submit;
    L.TickEndInv(l);
    L.RetryStageInv(l);
    StageFrame(l);
    RetryLength(l);
    L.RetryTouchesHeadOnly(l);
    ExhaustedAfterRetry(l.q[0], l.now);
    T.LinkNumbers(L.TickEnd(l), 0);
    FreshPending(l.q[1], l.now);
  }

  lemma FreshPending(e: E, now: Time)
    ensures Submit(e, now).rep.Pending? && Submit(e, now).submitted.Some? && Submit(e, now).done.None?
    ensures Submit(e, now).ns == e.ns && Submit(e, now).carrier == e.carrier
  {
  }

  /** The end of the tick in which the UMAC is found to be done. */
  lemma NoticeTick(l: L.Link)
    requires L.Inv(l) && l.open && L.Current(l.q) != [] && l.q[0].done.None? && !l.q[0].rep.Pending?
    ensures L.TickEnd(l).q == l.q[0 := l.q[0].(done := Some(l.now))]
    ensures L.TickEnd(l).fin == l.fin
  {
    hide Elapsed, Tick, SlotOf, L.Attempts, Submit;
    ElapsedSelf(l.now);
    var e := l.q[0];
    assert Retried(e, l.now) == e.(done := Some(l.now));
    L.RetryTouchesHeadOnly(l);
    assert !Exhausted(e.(done := Some(l.now)), l.now);
  }

  // ---------------------------------------------------------------- building runs step by step

  /** A run so far: the steps taken from the start and the world reached, with everything one SSI
      shows of it. */
  ghost predicate Reached(w: World, sts: seq<Step>, z: World) {
    z == Run(w, sts) && Inv(z.y) && Labelled(z.y)
  }

  lemma TakeStep(w: World, sts: seq<Step>, z: World, st: Step, s: int)
    requires Reached(w, sts, z) && Can(z, st)
    ensures Reached(w, sts + [st], Go(z, st))
    ensures L.Inv(Proj(Go(z, st).y, s))
    ensures LlcPart(z, st).Some? ==> Proj(Go(z, st).y, s) == OnLink(z.y, LlcPart(z, st).value, s)
    ensures LlcPart(z, st).None? ==> Go(z, st).y == z.y
  {
    hide L.Inv, Sel, Next, L.TickEnd, OnLink, Labelled;
    assert (sts + [st])[..|sts + [st]| - 1] == sts;
    if LlcPart(z, st).Some? {
      T.NextInv(z.y, LlcPart(z, st).value);
      NextLabelled(z.y, LlcPart(z, st).value);
      T.Refines(z.y, LlcPart(z, st).value, s);
    }
    assert L.Inv(Proj(Go(z, st).y, s));
  }

  /** What is on the air and what was received. */
  ghost predicate SameAir(w: World, z: World) {
    z.up == w.up && z.down == w.down && z.got == w.got
  }

  lemma DoLlc(w: World, sts: seq<Step>, z: World, ev: Event, s: int) returns (sts': seq<Step>, z': World)
    requires Reached(w, sts, z) && Can(z, Llc(ev))
    ensures Reached(w, sts', z') && SameAir(z, z') && L.Inv(Proj(z'.y, s))
    ensures Proj(z'.y, s) == OnLink(z.y, ev, s)
  {
    hide L.Inv, Sel, Next, OnLink;
    sts', z' := sts + [Llc(ev)], Go(z, Llc(ev));
    TakeStep(w, sts, z, Llc(ev), s);
  }

  /** The UMAC sends the pending copy of an SSI. */
  lemma DoTransmit(w: World, sts: seq<Step>, z: World, s: int) returns (sts': seq<Step>, z': World)
    requires Reached(w, sts, z) && Proj(z.y, s).umac != []
    ensures Reached(w, sts', z') && z'.up == z.up && z'.got == z.got && L.Inv(Proj(z'.y, s))
    ensures var l := Proj(z.y, s);
            && L.Current(l.q) != [] && l.q[0].rep.Pending?
            && Proj(z'.y, s) == l.(umac := [], q := l.q[0 := l.q[0].(rep := Transmitted)])
            && |Sel(CopySsi, z'.down, s)| == |Sel(CopySsi, z.down, s)| + 1
            && Sel(CopySsi, z'.down, s)[|Sel(CopySsi, z.down, s)|].serial == l.q[0].serial
            && Sel(CopySsi, z'.down, s)[|Sel(CopySsi, z.down, s)|].ns == l.q[0].serial % 2
            && Sel(CopySsi, z'.down, s)[..|Sel(CopySsi, z.down, s)|] == Sel(CopySsi, z.down, s)
  {
    hide L.Attempts, Sel, Next, Elapsed, Tick, SlotOf;
    var l := Proj(z.y, s);
    assert L.Inv(l);
    var k := SelAt(CopySsi, z.y.umac, s, 0);
    var c := z.y.umac[k];
    assert l.umac[0] == c.serial;
    sts', z' := sts + [Transmit(k)], Go(z, Transmit(k));
    TakeStep(w, sts, z, Transmit(k), s);
    MarkRefines(z.y, k, Transmitted, s);
    L.MarkInv(l, |Sel(CopySsi, z.y.umac[..k], s)|, Transmitted);
    SelConcat(CopySsi, z.down, [c], s);
    SelOne(CopySsi, c, s);
  }

  lemma DoPeerGets(w: World, sts: seq<Step>, z: World, s: int) returns (sts': seq<Step>, z': World)
    requires Reached(w, sts, z) && Sel(CopySsi, z.down, s) != []
    ensures Reached(w, sts', z') && z'.y == z.y
    ensures var d := Sel(CopySsi, z.down, s);
            && Sel(CopySsi, z'.down, s) == d[1..] && Sel(CopySsi, z'.up, s) == Sel(CopySsi, z.up, s) + [d[0]]
            && z'.got == z.got + {(s, d[0].serial)}
  {
    hide L.Inv, Sel, Next, Inv;
    var k := OldestOf(z.down, s);
    sts', z' := sts + [PeerGets(k)], Go(z, PeerGets(k));
    TakeStep(w, sts, z, PeerGets(k), s);
    WithoutOnLink(z.down, k, s);
    OldestOnLink(z.down, k);
    SelConcat(CopySsi, z.up, [z.down[k]], s);
    SelOne(CopySsi, z.down[k], s);
  }

  lemma DoLoseData(w: World, sts: seq<Step>, z: World, s: int) returns (sts': seq<Step>, z': World)
    requires Reached(w, sts, z) && Sel(CopySsi, z.down, s) != []
    ensures Reached(w, sts', z') && z'.y == z.y && z'.up == z.up && z'.got == z.got
    ensures Sel(CopySsi, z'.down, s) == Sel(CopySsi, z.down, s)[1..]
  {
    hide L.Inv, Sel, Next, Inv;
    var k := OldestOf(z.down, s);
    sts', z' := sts + [LoseData(k)], Go(z, LoseData(k));
    TakeStep(w, sts, z, LoseData(k), s);
    WithoutOnLink(z.down, k, s);
    OldestOnLink(z.down, k);
  }

  lemma DoAck(w: World, sts: seq<Step>, z: World, s: int, carrier: int) returns (sts': seq<Step>, z': World)
    requires Reached(w, sts, z) && Sel(CopySsi, z.up, s) != []
    ensures Reached(w, sts', z') && z'.down == z.down && z'.got == z.got && L.Inv(Proj(z'.y, s))
    ensures Sel(CopySsi, z'.up, s) == Sel(CopySsi, z.up, s)[1..]
    ensures Proj(z'.y, s) == L.Ack(Proj(z.y, s), carrier, Sel(CopySsi, z.up, s)[0].ns)
  {
    hide L.Inv, Sel, Next, Inv, L.Ack;
    var k := OldestOf(z.up, s);
    var st := AckArrives(k, carrier, []);
    sts', z' := sts + [st], Go(z, st);
    TakeStep(w, sts, z, st, s);
    WithoutOnLink(z.up, k, s);
    OldestOnLink(z.up, k);
  }

  lemma TickCloses(l: L.Link)
    ensures !L.TickEnd(l).open && L.TickEnd(l).clock == Tick(l.clock) && L.TickEnd(l).now == l.now
  {
    hide Elapsed, Tick, SlotOf;
  }

  /** A whole tick. */
  lemma DoTick(w: World, sts: seq<Step>, z: World, s: int) returns (sts': seq<Step>, z': World)
    requires Reached(w, sts, z) && !z.y.open
    ensures Reached(w, sts', z') && !z'.y.open && SameAir(z, z') && L.Inv(Proj(z'.y, s))
    ensures Proj(z'.y, s) == L.TickEnd(L.TickStart(Proj(z.y, s)))
  {
    hide L.Inv, Sel, Inv, L.TickEnd, Reached, Next;
    var a, b := DoLlc(w, sts, z, StartTick, s);
    assert Proj(b.y, s).open;
    sts', z' := DoLlc(w, a, b, EndTick, s);
    TickCloses(Proj(b.y, s));
    assert Proj(z'.y, s).open == z'.y.open;
  }

  /** Either the copy in flight was lost, or the peer has it and its answer is on the air. */
  ghost predicate PeerSees(z: World, z': World, s: int, lose: bool)
    requires Proj(z.y, s).q != []
  {
    var u, u', k := Sel(CopySsi, z.up, s), Sel(CopySsi, z'.up, s), Proj(z.y, s).q[0].serial;
    if lose then u' == u && z'.got == z.got
    else z'.got == z.got + {(s, k)} && |u'| == |u| + 1 && u'[..|u|] == u && u'[|u|].ns == k % 2
  }

  /** The pending copy is sent and the next tick notices it. */
  lemma SendAndNotice(w: World, sts: seq<Step>, z: World, s: int, lose: bool) returns (sts': seq<Step>, z': World)
    requires Reached(w, sts, z) && !z.y.open && L.Inv(Proj(z.y, s))
    requires L.Current(Proj(z.y, s).q) != [] && Proj(z.y, s).q[0].rep.Pending? && Sel(CopySsi, z.down, s) == []
    ensures Reached(w, sts', z') && !z'.y.open && L.Inv(Proj(z'.y, s)) && Sel(CopySsi, z'.down, s) == []
    ensures var l, l' := Proj(z.y, s), Proj(z'.y, s);
            && l'.fin == l.fin
            && l'.q == l.q[0 := l.q[0].(rep := Transmitted, done := Some(l.clock))]
            && l'.clock == Tick(l.clock)
    ensures PeerSees(z, z', s, lose)
  {
    hide Sel, Inv, L.TickEnd, Reached, Next, Elapsed, Tick, SlotOf, L.Attempts;
    var l := Proj(z.y, s);
    PendingIsNotDone(l);
    var a, b := DoTransmit(w, sts, z, s);
    var c, d := a, b;
    if lose {
      c, d := DoLoseData(w, a, b, s);
    } else {
      c, d := DoPeerGets(w, a, b, s);
    }
    var l1 := Proj(d.y, s);
    assert d.y == b.y;
    assert l1.open == b.y.open && l1.open == l.open;
    sts', z' := DoTick(w, c, d, s);
    L.TickStartInv(l1);
    NoticeTick(L.TickStart(l1));
    TickCloses(L.TickStart(l1));
  }

  lemma PendingIsNotDone(l: L.Link)
    requires L.Inv(l) && L.Current(l.q) != [] && l.q[0].rep.Pending?
    ensures l.umac == [l.q[0].serial] && l.q[0].done.None?
  {
    hide Elapsed, Tick, SlotOf, L.Attempts;
  }

  /** A tick before the timer has run out changes nothing but the clock. */
  lemma EarlyTick(l: L.Link)
    requires L.Inv(l) && l.open && L.Current(l.q) != [] && l.q[0].done.Some?
      && Elapsed(l.clock, l.q[0].done.value) < T251
    ensures L.TickEnd(l).q == l.q && L.TickEnd(l).fin == l.fin
    ensures Elapsed(L.TickEnd(l).clock, l.q[0].done.value) == Elapsed(l.clock, l.q[0].done.value) + 1
  {
    hide Elapsed, Tick, SlotOf, L.Attempts, Submit;
    var e := l.q[0];
    L.TimesOutExactlyAtT251(e, l.now);
    assert Retried(e, l.now) == e;
    L.RetryTouchesHeadOnly(l);
    assert l.q[0 := e] == l.q;
    ElapsedTick(l.clock, e.done.value);
  }

  lemma {:induction false} Wait(w: World, sts: seq<Step>, z: World, s: int, n: nat) returns (sts': seq<Step>, z': World)
    requires Reached(w, sts, z) && !z.y.open && L.Inv(Proj(z.y, s))
    requires var l := Proj(z.y, s);
             L.Current(l.q) != [] && l.q[0].done.Some? && 0 <= Elapsed(l.clock, l.q[0].done.value)
               && Elapsed(l.clock, l.q[0].done.value) + n <= T251
    ensures Reached(w, sts', z') && !z'.y.open && SameAir(z, z') && L.Inv(Proj(z'.y, s))
    ensures var l, l' := Proj(z.y, s), Proj(z'.y, s);
            && l'.q == l.q && l'.fin == l.fin
            && Elapsed(l'.clock, l.q[0].done.value) == Elapsed(l.clock, l.q[0].done.value) + n
    decreases n
  {
    hide Sel, Inv, L.TickEnd, Reached, Next, Elapsed, Tick, SlotOf, L.Inv;
    if n == 0 {
      sts', z' := sts, z;
    } else {
      var a, b := DoTick(w, sts, z, s);
      L.TickStartInv(Proj(z.y, s));
      EarlyTick(L.TickStart(Proj(z.y, s)));
      sts', z' := Wait(w, a, b, s, n - 1);
    }
  }

  /** One whole attempt: sent, noticed, and waited out until the timer is about to fire. */
  lemma Attempt(w: World, sts: seq<Step>, z: World, s: int, lose: bool) returns (sts': seq<Step>, z': World)
    requires Reached(w, sts, z) && !z.y.open && L.Inv(Proj(z.y, s))
    requires L.Current(Proj(z.y, s).q) != [] && Proj(z.y, s).q[0].rep.Pending? && Sel(CopySsi, z.down, s) == []
    ensures Reached(w, sts', z') && !z'.y.open && L.Inv(Proj(z'.y, s)) && Sel(CopySsi, z'.down, s) == []
    ensures var l, l' := Proj(z.y, s), Proj(z'.y, s);
            && l'.fin == l.fin
            && l'.q == l.q[0 := l.q[0].(rep := Transmitted, done := Some(l.clock))]
            && Elapsed(l'.clock, l.clock) == T251
    ensures PeerSees(z, z', s, lose)
  {
    hide Sel, Inv, L.TickEnd, Reached, Next, Elapsed, Tick, SlotOf, L.Inv;
    var l := Proj(z.y, s);
    var a, b := SendAndNotice(w, sts, z, s, lose);
    ElapsedSelf(l.clock);
    ElapsedTick(l.clock, l.clock);
    sts', z' := Wait(w, a, b, s, T251 - 1);
  }

  /** The timer fires and the message is sent again. */
  lemma ResendTick(l: L.Link)
    requires L.Inv(l) && l.open && L.Current(l.q) != [] && l.q[0].done.Some?
      && Elapsed(l.clock, l.q[0].done.value) == T251
    requires l.q[0].retries < N252
    ensures var l' := L.TickEnd(l);
            && l'.fin == l.fin && |l'.q| == |l.q| && l'.q[1..] == l.q[1..]
            && L.Current(l'.q) != [] && l'.q[0].rep.Pending?
            && l'.q[0].retries == l.q[0].retries + 1 && l'.q[0].serial == l.q[0].serial
  {
    hide Elapsed, Tick, SlotOf, L.Attempts;
    L.TimesOutExactlyAtT251(l.q[0], l.now);
    L.RetryTouchesHeadOnly(l);
    L.RetriedInFlight(l.q[0], l.now);
  }

  lemma AttemptAndResend(w: World, sts: seq<Step>, z: World, s: int, lose: bool) returns (sts': seq<Step>, z': World)
    requires Reached(w, sts, z) && !z.y.open && L.Inv(Proj(z.y, s))
    requires L.Current(Proj(z.y, s).q) != [] && Proj(z.y, s).q[0].rep.Pending? && Sel(CopySsi, z.down, s) == []
    requires Proj(z.y, s).q[0].retries < N252
    ensures Reached(w, sts', z') && !z'.y.open && L.Inv(Proj(z'.y, s)) && Sel(CopySsi, z'.down, s) == []
    ensures var l, l' := Proj(z.y, s), Proj(z'.y, s);
            && l'.fin == l.fin && |l'.q| == |l.q| && l'.q[1..] == l.q[1..]
            && L.Current(l'.q) != [] && l'.q[0].rep.Pending?
            && l'.q[0].retries == l.q[0].retries + 1 && l'.q[0].serial == l.q[0].serial
    ensures PeerSees(z, z', s, lose)
  {
    hide Sel, Inv, L.TickEnd, Reached, Next, Elapsed, Tick, SlotOf, L.Inv;
    var a, b := Attempt(w, sts, z, s, lose);
    sts', z' := DoTick(w, a, b, s);
    L.TickStartInv(Proj(b.y, s));
    ResendTick(L.TickStart(Proj(b.y, s)));
  }

  // ---------------------------------------------------------------- the broken case

  /** From the tick that gives a message up to the false acknowledgement of the next one. */
  lemma StaleAckCompletesNext(w: World, sts: seq<Step>, z: World, s: int) returns (sts': seq<Step>, z': World)
    requires Reached(w, sts, z) && z.y.open && L.Inv(Proj(z.y, s)) && Sel(CopySsi, z.down, s) == []
    requires var l := Proj(z.y, s);
             |l.q| >= 2 && Exhausted(l.q[0], l.now) &&
             var u := Sel(CopySsi, z.up, s);
             u != [] && u[0].ns == (|l.fin| + 1) % 2
    ensures Reached(w, sts', z') && z'.got == z.got
    ensures var f := Sel(EntrySsi, z'.y.fin, s);
            var n := |Proj(z.y, s).fin| + 1;
            |f| == n + 1 && f[n].serial == n && f[n].rep.Acknowledged?
  {
    hide Sel, Inv, L.TickEnd, Reached, Next, Elapsed, Tick, SlotOf, L.Inv, Exhausted, Submit;
    var l := Proj(z.y, s);
    var a, b := DoLlc(w, sts, z, EndTick, s);
    GiveUpReleasesNext(l);
    FreshPending(l.q[1], l.now);
    assert Proj(b.y, s).open == b.y.open;
    var c, d := SendAndNotice(w, a, b, s, true);
    var l' := Proj(d.y, s);
    NumbersOf(l');
    sts', z' := DoAck(w, c, d, s, l'.q[0].carrier);
  }

  lemma NumbersOf(l: L.Link)
    requires L.Inv(l) && l.q != []
    ensures l.q[0].serial == |l.fin| && l.q[0].ns == |l.fin| % 2
  {
    T.LinkNumbers(l, 0);
  }

  /** The end-to-end claim for a world: what is marked acknowledged was received. */
  ghost predicate Honest(w: World) {
    forall i :: 0 <= i < |w.y.fin| && w.y.fin[i].rep.Acknowledged? ==> (w.y.fin[i].ssi, w.y.fin[i].serial) in w.got
  }

  lemma {:induction false} DrainDown(w: World, sts: seq<Step>, z: World, s: int) returns (sts': seq<Step>, z': World)
    requires Reached(w, sts, z)
    ensures Reached(w, sts', z') && z'.y == z.y && z'.up == z.up && z'.got == z.got && Sel(CopySsi, z'.down, s) == []
    decreases |Sel(CopySsi, z.down, s)|
  {
    hide Sel, Reached, Inv, Next;
    if Sel(CopySsi, z.down, s) == [] {
      sts', z' := sts, z;
    } else {
      var a, b := DoLoseData(w, sts, z, s);
      sts', z' := DrainDown(w, a, b, s);
    }
  }

  /** Bring the oldest item of an SSI, if it is still data, to the peer. */
  lemma AnswerOldest(w: World, s: int) returns (sts: seq<Step>, z: World)
    requires WorldInv(w) && Air(w, s) != []
    ensures Reached(w, sts, z) && z.y == w.y && z.got <= w.got + {(s, Air(w, s)[0].serial)}
    ensures Sel(CopySsi, z.up, s) != [] && Sel(CopySsi, z.up, s)[0] == Air(w, s)[0]
    ensures Sel(CopySsi, z.down, s) == []
  {
    hide Sel, Inv, Next, Labelled, LinkOk;
    var a, b := [], w;
    assert Reached(w, a, b);
    hide Reached;
    if Sel(CopySsi, w.up, s) == [] {
      a, b := DoPeerGets(w, a, b, s);
    }
    sts, z := DrainDown(w, a, b, s);
  }

  /** A give-up with something older of its SSI on the air is not only outside the theorem: from
      every world in which the tick would end with one, some continuation breaks the claim. */
  lemma DirtyGiveUpBreaks(w: World)
    requires WorldInv(w) && w.y.open && !CleanTick(w)
    ensures exists sts: seq<Step> :: !Honest(Run(w, sts))
  {
    hide WorldInv, Proj, Exhausted, Air, Run, Honest;
    var s: int :| var l := Proj(w.y, s);
      l.q != [] && Exhausted(l.q[0], l.now) && exists i :: 0 <= i < |Air(w, s)| && Air(w, s)[i].serial != |l.fin|;
    DirtyLinkBreaks(w, s);
  }

  lemma DirtyLinkBreaks(w: World, s: int)
    requires WorldInv(w) && w.y.open
    requires var l := Proj(w.y, s);
             l.q != [] && Exhausted(l.q[0], l.now) && exists i :: 0 <= i < |Air(w, s)| && Air(w, s)[i].serial != |l.fin|
    ensures exists sts: seq<Step> :: !Honest(Run(w, sts))
  {
    hide L.TickEnd, Next, Elapsed, Tick, SlotOf, Exhausted, Labelled, Sel, WorldInv, LinkOk, Proj, Air, Honest, Run,
      Inv, L.Inv, Reached;
    var l := Proj(w.y, s);
    StaleIsOldest(w, s);
    var a, b := AnswerOldest(w, s);
    a, b := OneMoreWaiting(w, a, b, s);
    var sts, z := StaleAckCompletesNext(w, a, b, s);
    FalseAck(z, s, |l.fin| + 1);
    ReachedByRun(w, sts, z);
  }

  lemma ReachedByRun(w: World, sts: seq<Step>, z: World)
    requires Reached(w, sts, z)
    ensures z == Run(w, sts)
  {
  }

  lemma StaleIsOldest(w: World, s: int)
    requires WorldInv(w) && exists i :: 0 <= i < |Air(w, s)| && Air(w, s)[i].serial != |Proj(w.y, s).fin|
    ensures var n := |Proj(w.y, s).fin|;
            Air(w, s) != [] && Air(w, s)[0].serial == n - 1 && Air(w, s)[0].ns == (n + 1) % 2 && (s, n + 1) !in w.got
  {
    hide AirOk, Inv, Labelled, Sel, Proj;
    assert LinkOk(w, s);
    OldestIsStale(Proj(w.y, s), Air(w, s), |Sel(CopySsi, w.up, s)|, w.got, s);
  }

  /** Another message for the SSI, so that one waits behind the message in flight. */
  lemma OneMoreWaiting(w: World, sts: seq<Step>, z: World, s: int) returns (sts': seq<Step>, z': World)
    requires Reached(w, sts, z) && z.y.open && Proj(z.y, s).q != []
    ensures Reached(w, sts', z') && SameAir(z, z') && z'.y.open && L.Inv(Proj(z'.y, s))
    ensures var l, l' := Proj(z.y, s), Proj(z'.y, s);
            |l'.q| >= 2 && l'.q[0] == l.q[0] && l'.fin == l.fin && l'.now == l.now
  {
    hide Sel, Inv, L.TickEnd, Reached, Elapsed, Tick, SlotOf, L.Inv, Exhausted, Next;
    sts', z' := DoLlc(w, sts, z, DataRequest(Req(s, false, None, false, 0, [])), s);
    OpenIsShared(z'.y, s);
    OpenIsShared(z.y, s);
  }

  lemma OldestIsStale(l: L.Link, air: seq<Copy>, ups: nat, got: set<(int, nat)>, s: int)
    requires AirOk(l, air, ups, got, s)
    requires exists i :: 0 <= i < |air| && air[i].serial != |l.fin|
    ensures air[0].serial == |l.fin| - 1 && air[0].ns == (|l.fin| + 1) % 2
    ensures (s, |l.fin| + 1) !in got
  {
  }

  lemma FalseAck(z: World, s: int, n: nat)
    requires n < |Sel(EntrySsi, z.y.fin, s)|
    requires Sel(EntrySsi, z.y.fin, s)[n].serial == n && Sel(EntrySsi, z.y.fin, s)[n].rep.Acknowledged?
    requires (s, n) !in z.got
    ensures !Honest(z)
  {
    var i := SelAt(EntrySsi, z.y.fin, s, n);
  }

  // ---------------------------------------------------------------- it does happen

  const PLAIN: Req := Req(1, false, None, false, 0, [])

  lemma PlainIsQueued(y: Sys)
    ensures |Next(y, DataRequest(PLAIN)).llc.queue| == |y.llc.queue| + 1
    ensures Next(y, DataRequest(PLAIN)).llc.queue[|y.llc.queue|].submitted.None?
  {
  }

  /** The head of a link with nothing in flight is handed over. */
  lemma ReleaseTick(l: L.Link)
    requires L.Inv(l) && l.open && l.q != [] && l.q[0].submitted.None?
    ensures L.TickEnd(l).q == l.q[0 := Submit(l.q[0], l.now)] && L.TickEnd(l).fin == l.fin
    ensures Submit(l.q[0], l.now).rep.Pending? && Submit(l.q[0], l.now).submitted.Some?
    ensures Submit(l.q[0], l.now).done.None? && Submit(l.q[0], l.now).retries == 0
    ensures Submit(l.q[0], l.now).serial == |l.fin|
  {
    hide L.Inv, Tick, SlotOf, L.RetryStage, L.GiveUpStage;
    NumbersOf(l);
    L.IdleStages(l);
  }

  lemma ExhaustedNow(l: L.Link)
    requires L.Inv(l) && l.open && L.Current(l.q) != [] && l.q[0].done.Some?
      && Elapsed(l.clock, l.q[0].done.value) == T251
    requires l.q[0].retries == N252
    ensures Exhausted(l.q[0], l.now)
  {
    hide Elapsed, Tick, SlotOf, L.Attempts;
    L.TimesOutExactlyAtT251(l.q[0], l.now);
  }

  lemma OpenIsShared(y: Sys, s: int)
    ensures Proj(y, s).open == y.open
  {
  }

  /** Three messages are requested and the first is handed over. */
  lemma ThreeQueued(main: int, clock: Time) returns (sts: seq<Step>, z: World)
    ensures Reached(Begin(main, clock), sts, z) && !z.y.open && L.Inv(Proj(z.y, 1))
    ensures Sel(CopySsi, z.up, 1) == [] && Sel(CopySsi, z.down, 1) == [] && z.got == {}
    ensures var l := Proj(z.y, 1);
            l.fin == [] && |l.q| == 3 && L.Current(l.q) != [] && l.q[0].rep.Pending? && l.q[0].retries == 0
              && l.q[0].serial == 0
  {
    hide Sel, Inv, L.TickEnd, Next, Elapsed, Tick, SlotOf, L.Inv, Submit, Labelled, L.Attempts;
    var w := Begin(main, clock);
    BeginInv(main, clock);
    var a, b := [], w;
    assert Reached(w, a, b);
    SelNone(EntrySsi, [], 1);
    SelNone(CopySsi, [], 1);
    hide Reached;
    PlainIsQueued(b.y);
    a, b := DoLlc(w, a, b, DataRequest(PLAIN), 1);
    a, b := DoLlc(w, a, b, DataRequest(PLAIN), 1);
    a, b := DoLlc(w, a, b, DataRequest(PLAIN), 1);
    var l := Proj(b.y, 1);
    OpenIsShared(b.y, 1);
    sts, z := DoTick(w, a, b, 1);
    L.TickStartInv(l);
    ReleaseTick(L.TickStart(l));
  }

  /** All remaining attempts: the first copy reaches the peer or not, the later ones are lost, and
      at the start of the last tick the message is exhausted. */
  lemma {:induction false} Exhaust(w: World, sts: seq<Step>, z: World, s: int, lose: bool)
    returns (sts': seq<Step>, z': World)
    requires Reached(w, sts, z) && !z.y.open && L.Inv(Proj(z.y, s))
    requires L.Current(Proj(z.y, s).q) != [] && Proj(z.y, s).q[0].rep.Pending? && Sel(CopySsi, z.down, s) == []
    requires Proj(z.y, s).q[0].retries <= N252
    ensures Reached(w, sts', z') && z'.y.open && L.Inv(Proj(z'.y, s)) && Sel(CopySsi, z'.down, s) == []
    ensures var l, l' := Proj(z.y, s), Proj(z'.y, s);
            l'.fin == l.fin && |l'.q| == |l.q| && Exhausted(l'.q[0], l'.now)
    ensures PeerSees(z, z', s, lose)
    decreases N252 - Proj(z.y, s).q[0].retries
  {
    hide Sel, Inv, L.TickEnd, Reached, Next, Elapsed, Tick, SlotOf, L.Inv, Exhausted, Proj;
    if Proj(z.y, s).q[0].retries < N252 {
      var a, b := AttemptAndResend(w, sts, z, s, lose);
      sts', z' := Exhaust(w, a, b, s, true);
    } else {
      var a, b := Attempt(w, sts, z, s, lose);
      var l := Proj(b.y, s);
      OpenIsShared(b.y, s);
      L.TickStartInv(l);
      sts', z' := DoLlc(w, a, b, StartTick, s);
      OpenIsShared(z'.y, s);
      ExhaustedNow(L.TickStart(l));
    }
  }

  /** Message 0 reaches the peer, but its answer stays on the air until message 0 has been given up
      and all copies of message 1 are lost. */
  lemma SecondExhausted(main: int, clock: Time) returns (sts: seq<Step>, z: World)
    ensures Reached(Begin(main, clock), sts, z) && z.y.open && L.Inv(Proj(z.y, 1))
    ensures Sel(CopySsi, z.down, 1) == [] && z.got == {(1, 0)}
    ensures Sel(CopySsi, z.up, 1) != [] && Sel(CopySsi, z.up, 1)[0].ns == 0
    ensures var l := Proj(z.y, 1);
            |l.fin| == 1 && |l.q| == 2 && Exhausted(l.q[0], l.now)
  {
    hide Sel, Inv, L.TickEnd, Reached, Next, Elapsed, Tick, SlotOf, L.Inv, Submit, Labelled, Proj, Exhausted;
    var w := Begin(main, clock);
    var a, b := ThreeQueued(main, clock);
    var a1, b1 := Exhaust(w, a, b, 1, false);
    var l := Proj(b1.y, 1);
    OpenIsShared(b1.y, 1);
    GiveUpReleasesNext(l);
    FreshPending(l.q[1], l.now);
    FreshRetries(l);
    var a2, b2 := DoLlc(w, a1, b1, EndTick, 1);
    OpenIsShared(b2.y, 1);
    sts, z := Exhaust(w, a2, b2, 1, true);
  }

  lemma FreshRetries(l: L.Link)
    requires L.Inv(l) && |l.q| >= 2
    ensures Submit(l.q[1], l.now).retries == 0
  {
  }

  /** Such a give-up does happen, whatever the timer and the retry limit: when message 1 is given up,
      the late answer to message 0 acknowledges message 2, which the peer never received. */
  lemma FalseAckIsReachable(main: int, clock: Time)
    ensures exists sts: seq<Step> :: !Honest(Run(Begin(main, clock), sts))
  {
    hide Sel, Inv, L.TickEnd, Next, Elapsed, Tick, SlotOf, L.Inv, Submit, Labelled, Proj, Exhausted, Honest, Run;
    var a, b := SecondExhausted(main, clock);
    var sts, z := StaleAckCompletesNext(Begin(main, clock), a, b, 1);
    FalseAck(z, 1, 2);
  }
}
