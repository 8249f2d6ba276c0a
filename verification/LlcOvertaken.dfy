/** Acknowledgements do overtake each other: a run without any stealing in which the second number
    received is handed to the UMAC before the first. */
module LlcOvertaken {
  import opened Wrappers
  import opened Tdma
  import opened Links
  import opened TxReceipt
  import opened LlcModel
  import opened LlcSystem
  import opened LlcAir
  import opened LlcAcks
  import opened LlcAckOrder
  import G = LlcGiveUp
  import T = LlcTheorems
  import L = LlcLink

  /** A number that rides on a message waiting behind one that stays in flight is overtaken by every
      reply owed to the same SSI and carrier. */
  lemma WaitingIsOvertaken(y: Sys, k: (int, int))
    requires OwedCounts(y, k) != [] && Waits(y, k) != []
    requires var l := Proj(y, k.0); L.Current(l.q) != [] && !Exhausted(l.q[0], l.now)
    ensures !OrderlyTick(y, k)
  {
    hide Waits, Payloads, OwedCounts, Exhausted;
    assert Numbers(Copies([])) == [];
    CountsNone(k);
  }

  lemma AfterOne(y: Sys, evs: seq<Event>, ev: Event)
    requires Enabled(T.After(y, evs), ev)
    ensures T.After(y, evs + [ev]) == Next(T.After(y, evs), ev)
  {
    hide Next;
    assert (evs + [ev])[..|evs + [ev]| - 1] == evs;
  }

  function Heard(main: int, ns: Bit): Event {
    Rx(Ind(1, main, BlData(ns), [], true))
  }

  const REQUEST: Event := DataRequest(Req(1, false, None, false, 0, []))

  /** No request of the run asks for stealing. */
  ghost predicate NoStealing(evs: seq<Event>) {
    forall i :: 0 <= i < |evs| && (evs[i].DataRequest? || evs[i].UnitdataRequest?) ==> !evs[i].r.stealing
  }

  /** The acknowledgements owed are the n-th one alone, or none, and the first message of SSI 1 is in
      flight and not yet sent. */
  ghost predicate Stage(y: Sys, main: int, owed: Option<nat>, n: nat) {
    && y.llc.main == main && ReceivedOf(y.llc, 1, main) == n
    && (if owed.None? then y.llc.acks == []
        else
          && |y.llc.acks| == 1 && y.llc.acks[0].ssi == 1
          && y.llc.acks[0].carrier == main && y.llc.acks[0].ord == owed.value)
    && L.Current(Proj(y, 1).q) != [] && Proj(y, 1).q[0].rep.Pending? && Proj(y, 1).q[0].done.None?
  }

  /** A message is requested and handed down. */
  lemma First(main: int, clock: Time) returns (evs: seq<Event>)
    ensures Stage(T.After(T.Start(main, clock), evs), main, None, 0) && !T.After(T.Start(main, clock), evs).open
    ensures Waits(T.After(T.Start(main, clock), evs), (1, main)) == [] && NoStealing(evs)
  {
    hide Sel, L.TickEnd, Elapsed, Tick, SlotOf, TickEnd, T.After, Submit, Waiting, Counts, DataReq, Inv, L.Inv;
    var y := T.Start(main, clock);
    T.StartInv(main, clock);
    NoneYet(main, clock);
    var a := [] + [REQUEST];
    AfterOne(y, [], REQUEST);
    AfterOne(y, a, StartTick);
    var b := a + [StartTick];
    AfterOne(y, b, EndTick);
    evs := b + [EndTick];
    T.RunInv(main, clock, a);
    T.RunInv(main, clock, b);
    RequestRefines(y, REQUEST.r, 1);
    FirstRequest(main, clock);
    var l := Proj(T.After(y, b), 1);
    T.Refines(T.After(y, b), EndTick, 1);
    assert L.Inv(l) by { LinkInv(T.After(y, b), 1); }
    G.ReleaseTick(l);
    KeptAtTick(T.After(y, b));
    WaitingHead(L.TickEnd(l).q);
    WaitingNil();
    CountsNone((1, main));
    assert L.TickEnd(l).q[1..] == [];
  }

  lemma LinkInv(y: Sys, s: int)
    requires Inv(y)
    ensures L.Inv(Proj(y, s))
  {
  }

  lemma WaitingNil()
    ensures Waiting([]) == []
  {
  }

  lemma NoneYet(main: int, clock: Time)
    ensures T.After(T.Start(main, clock), []) == T.Start(main, clock)
    ensures Proj(T.Start(main, clock), 1).q == []
  {
    SelEmpty(1);
  }

  lemma FirstRequest(main: int, clock: Time)
    ensures var y := Next(T.Start(main, clock), REQUEST);
            && y.llc.acks == [] && y.llc.received == map[] && y.llc.main == main && !y.open
            && |y.llc.queue| == 1 && y.llc.queue[0].submitted.None?
  {
  }

  lemma KeptAtTick(y: Sys)
    requires y.open
    ensures var y' := Next(y, EndTick);
            y'.llc.acks == [] && y'.llc.received == y.llc.received && y'.llc.main == y.llc.main && !y'.open
  {
    hide GiveUp, FreePass, Resent, Released, RetryPass, ExhaustedKeys, Numbers, Copies;
  }

  /** A number is received. */
  lemma Hear(y: Sys, main: int, ns: Bit, n: nat)
    requires Inv(y) && Stage(y, main, None, n)
    ensures Stage(Next(y, Heard(main, ns)), main, Some(n), n + 1)
    ensures Next(y, Heard(main, ns)).open == y.open
    ensures Waits(Next(y, Heard(main, ns)), (1, main)) == Waits(y, (1, main))
  {
    hide Sel, Inv, Waiting, Counts, UplinkSlot;
    RxRefines(y, Ind(1, main, BlData(ns), [], true), 1);
  }

  /** The next message takes it along and waits. */
  lemma Ride(y: Sys, main: int, n: nat, m: nat)
    requires Stage(y, main, Some(n), m)
    ensures Stage(Next(y, REQUEST), main, None, m) && Next(y, REQUEST).open == y.open
    ensures Waits(Next(y, REQUEST), (1, main)) == Waits(y, (1, main)) + [n]
  {
    hide Sel, Waiting, Counts, NewPdus;
    RequestWaits(y, REQUEST.r, (1, main));
    RequestRefines(y, REQUEST.r, 1);
  }

  /** Number 0 rides on a message behind the one in flight; number 1 is sent at once. */
  lemma Overtaken(main: int, clock: Time) returns (evs: seq<Event>)
    ensures !CountsFrom(Handed(T.After(T.Start(main, clock), evs), (1, main)), 0) && NoStealing(evs)
  {
    hide Sel, T.After, Next, Inv, Good, Handed, Waits, Stage, OrderlyTick, CountsFrom;
    var y := T.Start(main, clock);
    var k := (1, main);
    var a := First(main, clock);
    T.RunInv(main, clock, a);
    AfterOne(y, a, Heard(main, 0));
    Hear(T.After(y, a), main, 0, 0);
    var b := a + [Heard(main, 0)];
    AfterOne(y, b, REQUEST);
    Ride(T.After(y, b), main, 0, 1);
    var c := b + [REQUEST];
    T.RunInv(main, clock, c);
    AfterOne(y, c, Heard(main, 1));
    Hear(T.After(y, c), main, 1, 1);
    var d := c + [Heard(main, 1)];
    AfterOne(y, d, StartTick);
    Opens(T.After(y, d), main, k);
    var e := d + [StartTick];
    RunGood(main, clock, e, k);
    var z := T.After(y, e);
    WaitingIsOvertaken(z, k);
    TickOrder(z, k);
    AfterOne(y, e, EndTick);
    evs := e + [EndTick];
  }

  lemma Opens(y: Sys, main: int, k: (int, int))
    requires Stage(y, main, Some(1), 2) && !y.open && k == (1, main)
    ensures var z := Next(y, StartTick);
            && z.open && Waits(z, k) == Waits(y, k) && OwedCounts(z, k) != []
            && L.Current(Proj(z, 1).q) != [] && !TimedOut(Proj(z, 1).q[0], Proj(z, 1).now)
  {
    hide Sel, Waiting, Elapsed;
    SelOne(OwedKey, AckOwed(y.llc.acks[0]), k);
    assert Map(AckOwed, y.llc.acks) == [AckOwed(y.llc.acks[0])];
  }
}
