/** The acknowledgement that makes the reporter panic does arrive: runs in which it happens. */
module LlcPanic {
  import opened Wrappers
  import opened Tdma
  import opened Links
  import opened TxReceipt
  import opened LlcModel
  import opened LlcSystem
  import opened LlcAir
  import opened LlcGiveUp
  import T = LlcTheorems
  import L = LlcLink

  /** The step delivers an acknowledgement that the reporter refuses. */
  ghost predicate Panics(z: World, st: Step) {
    Can(z, st) && st.AckArrives? && Receive(z.y.llc, LlcPart(z, st).value.i).panicked
  }

  /** The message that leaves the queue in that step. */
  ghost function Victim(z: World, st: Step): E
    requires Panics(z, st)
  {
    Receive(z.y.llc, LlcPart(z, st).value.i).left.value
  }

  /** The UMAC discards the pending copy of an SSI. */
  lemma DoDiscard(w: World, sts: seq<Step>, z: World, s: int) returns (sts': seq<Step>, z': World)
    requires Reached(w, sts, z) && Proj(z.y, s).umac != []
    ensures Reached(w, sts', z') && SameAir(z, z') && L.Inv(Proj(z'.y, s))
    ensures var l := Proj(z.y, s);
            && L.Current(l.q) != [] && l.q[0].rep.Pending?
            && Proj(z'.y, s) == l.(umac := [], q := l.q[0 := l.q[0].(rep := Discarded)])
  {
    hide L.Attempts, Sel, Next, Elapsed, Tick, SlotOf;
    var l := Proj(z.y, s);
    assert L.Inv(l);
    var k := SelAt(CopySsi, z.y.umac, s, 0);
    assert l.umac[0] == z.y.umac[k].serial;
    sts', z' := DoLlc(w, sts, z, UmacMark(k, Discarded), s);
    MarkRefines(z.y, k, Discarded, s);
    L.MarkInv(l, |Sel(CopySsi, z.y.umac[..k], s)|, Discarded);
  }

  /** The pending copy is discarded, the next tick notices it, and an answer with its number is
      the oldest on the air: delivering that answer panics. */
  lemma DiscardThenAnswer(w: World, sts: seq<Step>, z: World, s: int) returns (sts': seq<Step>, z': World, st: Step)
    requires Reached(w, sts, z) && !z.y.open && L.Inv(Proj(z.y, s))
    requires L.Current(Proj(z.y, s).q) != [] && Proj(z.y, s).q[0].rep.Pending?
    requires Sel(CopySsi, z.up, s) != [] && Sel(CopySsi, z.up, s)[0].ns == |Proj(z.y, s).fin| % 2
    ensures z' == Run(w, sts') && z'.got == z.got && Panics(z', st)
    ensures Victim(z', st).ssi == s && Victim(z', st).serial == |Proj(z.y, s).fin| && Victim(z', st).rep.Discarded?
  {
    hide Sel, Inv, L.TickEnd, Next, Elapsed, Tick, SlotOf, L.Inv, Reached, Run, Proj, Receive;
    PendingIsNotDone(Proj(z.y, s));
    var a, b := DoDiscard(w, sts, z, s);
    var l := Proj(b.y, s);
    OpenIsShared(z.y, s);
    OpenIsShared(b.y, s);
    sts', z' := DoTick(w, a, b, s);
    L.TickStartInv(l);
    NoticeTick(L.TickStart(l));
    var l' := Proj(z'.y, s);
    NumbersOf(l');
    HeadSsi(z'.y, s);
    var k := OldestOf(z'.up, s);
    OldestOnLink(z'.up, k);
    st := AckArrives(k, l'.q[0].carrier, []);
    ReachedByRun(w, sts', z');
    ReachedInv(w, sts', z');
    T.AckOutcome(z'.y, LlcPart(z', st).value.i);
  }

  lemma ReachedInv(w: World, sts: seq<Step>, z: World)
    requires Reached(w, sts, z)
    ensures Inv(z.y)
  {
  }

  lemma HeadSsi(y: Sys, s: int)
    requires Proj(y, s).q != []
    ensures Proj(y, s).q[0].ssi == s
  {
    hide Sel;
    var _ := SelAt(EntrySsi, y.llc.queue, s, 0);
  }

  /** As soon as one retransmission is allowed, a message that the peer has received and answered can
      end Discarded, with a panic when the answer arrives: its first copy was answered, its second
      one discarded. */
  lemma AnsweredYetDiscarded(main: int, clock: Time) returns (sts: seq<Step>, st: Step)
    requires N252 > 0
    ensures var z := Run(Begin(main, clock), sts);
            && Panics(z, st) && Victim(z, st).rep.Discarded? && (Victim(z, st).ssi, Victim(z, st).serial) in z.got
  {
    hide Sel, Inv, L.TickEnd, Next, Elapsed, Tick, SlotOf, L.Inv, Reached, Run, Proj, Receive;
    var w := Begin(main, clock);
    var a, b := ThreeQueued(main, clock);
    var a1, b1 := AttemptAndResend(w, a, b, 1, false);
    var a2, b2, st2 := DiscardThenAnswer(w, a1, b1, 1);
    sts, st := a2, st2;
  }

  /** Without retransmissions it happens too, on a stale answer. */
  lemma PanicIsReachable(main: int, clock: Time) returns (sts: seq<Step>, st: Step)
    ensures Panics(Run(Begin(main, clock), sts), st)
  {
    hide Sel, Inv, L.TickEnd, Next, Elapsed, Tick, SlotOf, L.Inv, Reached, Run, Proj, Receive, Exhausted, Submit;
    var w := Begin(main, clock);
    var a, b := SecondExhausted(main, clock);
    var l := Proj(b.y, 1);
    OpenIsShared(b.y, 1);
    GiveUpReleasesNext(l);
    FreshPending(l.q[1], l.now);
    var a1, b1 := DoLlc(w, a, b, EndTick, 1);
    OpenIsShared(b1.y, 1);
    var a2, b2, st2 := DiscardThenAnswer(w, a1, b1, 1);
    sts, st := a2, st2;
  }
}
