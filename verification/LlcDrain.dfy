/** How long a message can stay in the queue behind others of its SSI. */
module LlcDrain {
  import opened Wrappers
  import opened Tdma
  import opened Links
  import opened TxReceipt
  import opened LlcModel
  import opened LlcSystem
  import T = LlcTheorems
  import L = LlcLink

  /** Ticks for n messages, one after the other, all of whose attempts are used up. */
  function Span(n: nat, d: nat): nat {
    n * L.Budget(1 + N252, d)
  }

  lemma SpanStep(n: nat, d: nat)
    ensures Span(n + 1, d) == Span(n, d) + L.Budget(1 + N252, d)
  {
  }

  /** When message n, still queued, is gone at the latest: the message in flight has its budget from
      its first submission on, each one behind it a whole budget. */
  function Deadline(l: L.Link, d: nat, n: nat): int
    requires n >= |l.fin|
  {
    if L.Current(l.q) != [] && |l.subs| > l.q[0].retries
    then L.FirstSubmission(l) + Span(n - |l.fin| + 1, d)
    else l.tick + 1 + Span(n - |l.fin| + 1, d)
  }

  lemma FlightSubs(l: L.Link)
    requires L.Inv(l) && L.Current(l.q) != []
    ensures |l.subs| > l.q[0].retries
  {
    T.EarlierAttempts(l);
  }

  /** Where the first submission of the message in flight stands after the end of a tick. */
  lemma IdleTick(l: L.Link)
    requires L.Inv(l) && l.open && l.q != [] && L.Current(l.q) == []
    ensures var l' := L.TickEnd(l);
            && l'.fin == l.fin && L.Current(l'.q) != [] && l'.q[0].retries == 0
            && |l'.subs| > 0 && L.FirstSubmission(l') == l.tick + 1
  {
    hide Elapsed, Tick, SlotOf, L.Attempts, Resends, Retried, Exhausted;
    L.IdleStages(l);
    L.HandOne(l, Submit(l.q[0], l.now));
  }

  lemma FlightTick(l: L.Link)
    requires L.Inv(l) && l.open && L.Current(l.q) != [] && !Exhausted(l.q[0], l.now)
    ensures var l' := L.TickEnd(l);
            && l'.fin == l.fin && L.Current(l'.q) != [] && |l'.q| == |l.q|
            && |l.subs| > l.q[0].retries && |l'.subs| > l'.q[0].retries && L.FirstSubmission(l') == L.FirstSubmission(l)
  {
    hide Elapsed, Tick, SlotOf, L.Attempts, Resends, Retried, Exhausted;
    FlightSubs(l);
    L.FlightFacts(l);
    L.RetryTouchesHeadOnly(l);
    L.RetriedInFlight(l.q[0], l.now);
    L.RetryStageSubs(l);
    ExhaustedAfterRetry(l.q[0], l.now);
    StageFrame(l);
  }

  lemma GiveUpTick(l: L.Link)
    requires L.Inv(l) && l.open && L.Current(l.q) != [] && Exhausted(l.q[0], l.now)
    ensures var l' := L.TickEnd(l);
            && |l'.fin| == |l.fin| + 1 && |l'.q| == |l.q| - 1
            && (l'.q != [] ==>
                  && L.Current(l'.q) != [] && l'.q[0].retries == 0 && |l'.subs| > 0
                  && L.FirstSubmission(l') == l.tick + 1)
  {
    hide Elapsed, Tick, SlotOf, L.Attempts, Resends, Retried, Exhausted;
    L.RetryStageInv(l);
    L.RetryTouchesHeadOnly(l);
    ExhaustedAfterRetry(l.q[0], l.now);
    StageFrame(l);
    var l2 := L.GiveUpStage(L.RetryStage(l));
    if l2.q != [] {
      L.HandOne(l2, Submit(l2.q[0], l2.now));
    }
  }

  /** No end of tick puts the deadline of a queued message off. */
  lemma TickDeadline(l: L.Link, d: nat, n: nat)
    requires L.Inv(l) && l.open && d > 0 && L.Timely(l, d, l.tick, 0)
    requires |l.fin| <= n < |l.fin| + |l.q| && n >= |L.TickEnd(l).fin|
    ensures Deadline(L.TickEnd(l), d, n) <= Deadline(l, d, n)
  {
    hide L.Inv, L.Timely, L.TickEnd, Exhausted, L.Budget, Span;
    L.StepLengths(l, 0, 0);
    if L.Current(l.q) == [] {
      IdleTick(l);
    } else if !Exhausted(l.q[0], l.now) {
      FlightTick(l);
    } else {
      GiveUpTick(l);
      L.FlightBound(l, d);
      SpanStep(n - |l.fin|, d);
    }
  }

  /** Neither does any other step. */
  lemma AckDeadline(l: L.Link, d: nat, n: nat, carrier: int, nr: Bit)
    requires L.Inv(l) && d > 0 && L.Timely(l, d, l.tick, 0)
    requires |l.fin| <= n < |l.fin| + |l.q| && n >= |L.Ack(l, carrier, nr).fin|
    ensures Deadline(L.Ack(l, carrier, nr), d, n) <= Deadline(l, d, n)
  {
    hide L.Inv, L.Timely, L.Budget, Span;
    if L.Completes(l, carrier, nr) {
      FlightSubs(l);
      L.FlightBound(l, d);
      SpanStep(n - |l.fin|, d);
      NextIsWaiting(l);
    }
  }

  lemma NextIsWaiting(l: L.Link)
    requires L.Inv(l) && l.q != []
    ensures L.Current(l.q[1..]) == []
  {
  }

  lemma StepDeadline(y: Sys, ev: Event, s: int, d: nat, n: nat)
    requires Inv(y) && Enabled(y, ev) && d > 0 && L.Timely(Proj(y, s), d, y.tick, 0)
    requires |Proj(y, s).fin| <= n < |Proj(y, s).fin| + |Proj(y, s).q| && n >= |OnLink(y, ev, s).fin|
    ensures Deadline(OnLink(y, ev, s), d, n) <= Deadline(Proj(y, s), d, n)
  {
    hide Elapsed, Tick, SlotOf, L.Inv, L.Timely, TickEnd, L.TickEnd, L.Ack, Span, Sel, Next;
    var l := Proj(y, s);
    assert L.Inv(l);
    match ev
    case Rx(i) =>
      if i.fcsOk && NrOf(i.pdu).Some? && s == i.ssi {
        AckDeadline(l, d, n, i.carrier, NrOf(i.pdu).value);
      }
    case UmacMark(k, to) =>
      if s == y.umac[k].ssi && |Sel(CopySsi, y.umac[..k], s)| < |l.umac| {
        L.MarkInv(l, |Sel(CopySsi, y.umac[..k], s)|, to);
      }
    case EndTick => TickDeadline(l, d, n);
    case _ =>
  }

  /** Submissions lie in the past. */
  ghost predicate Past(y: Sys) {
    forall j :: 0 <= j < |y.subs| ==> y.subs[j].tick <= y.tick
  }

  lemma {:induction false} RunPast(main: int, clock: Time, evs: seq<Event>)
    ensures Past(T.After(T.Start(main, clock), evs))
  {
    hide DataReq, Receive, TickEnd, Numbers;
    if evs != [] {
      RunPast(main, clock, evs[..|evs| - 1]);
    }
  }

  lemma {:induction false} PromptPrefix(y: Sys, evs: seq<Event>, more: seq<Event>, d: nat)
    requires T.Prompt(y, evs + more, d)
    ensures T.Prompt(y, evs, d)
  {
    if more == [] {
      assert evs + more == evs;
    } else {
      var n := |more| - 1;
      assert (evs + more)[..|evs + more| - 1] == evs + more[..n];
      PromptPrefix(y, evs, more[..n], d);
    }
  }

  /** Along a run, as long as message n has not left, its deadline only comes nearer. */
  lemma {:induction false} RunDeadline(
    main: int, clock: Time, evs: seq<Event>, more: seq<Event>, s: int, d: nat, n: nat)
    requires d > 0 && T.Prompt(T.Start(main, clock), evs + more, d)
    requires var l := Proj(T.After(T.Start(main, clock), evs), s);
             |l.fin| <= n < |l.fin| + |l.q|
    ensures var l, l' := Proj(T.After(T.Start(main, clock), evs), s),
                Proj(T.After(T.Start(main, clock), evs + more), s);
            && |l.fin| <= |l'.fin| && n < |l'.fin| + |l'.q|
            && (n >= |l'.fin| ==> Deadline(l', d, n) <= Deadline(l, d, n))
  {
    hide Elapsed, Tick, SlotOf, L.Timely, L.Inv, Inv, Next, OnLink, Deadline, L.PromptUmac, Proj;
    var y := T.Start(main, clock);
    if more == [] {
      assert evs + more == evs;
    } else {
      var m := |more| - 1;
      var all := evs + more;
      assert all[..|all| - 1] == evs + more[..m] && all[|all| - 1] == more[m];
      PromptPrefix(y, evs + more[..m], [more[m]], d);
      RunDeadline(main, clock, evs, more[..m], s, d, n);
      var p := T.After(y, evs + more[..m]);
      if Enabled(p, more[m]) {
        T.RunInv(main, clock, evs + more[..m]);
        T.RunTimely(main, clock, evs + more[..m], s, d);
        T.Refines(p, more[m], s);
        T.LinkHistoryLength(p, more[m], s);
        FinGrows(p, more[m], s);
        if n >= |OnLink(p, more[m], s).fin| {
          StepDeadline(p, more[m], s, d, n);
        }
      }
    }
  }

  lemma FinGrows(y: Sys, ev: Event, s: int)
    requires Inv(y) && Enabled(y, ev)
    ensures |Proj(y, s).fin| <= |OnLink(y, ev, s).fin|
  {
    hide Elapsed, Tick, SlotOf, Sel, Next, Exhausted, Retried, Resends, L.Inv;
  }

  lemma BeforeDeadline(l: L.Link, d: nat, n: nat)
    requires L.Inv(l) && d > 0 && L.Timely(l, d, l.tick, 0) && n >= |l.fin|
    ensures l.tick < Deadline(l, d, n)
  {
    hide L.Inv, L.Timely, L.Budget, Span;
    SpanStep(n - |l.fin|, d);
    if L.Current(l.q) != [] {
      L.FlightBound(l, d);
    }
  }

  lemma DeadlineAtFirst(y: Sys, s: int, d: nat, n: nat)
    requires Past(y) && n >= |Proj(y, s).fin|
    ensures Deadline(Proj(y, s), d, n) <= y.tick + 1 + Span(n - |Proj(y, s).fin| + 1, d)
  {
    hide Sel, Span;
    var l := Proj(y, s);
    if L.Current(l.q) != [] && |l.subs| > l.q[0].retries {
      var j := SelAt(SubSsi, y.subs, s, |l.subs| - 1 - l.q[0].retries);
    }
  }

  /** If the UMAC reports every copy within d ticks, a queued message with k messages of its SSI ahead
      of it has left the queue 1 + (k + 1) * (1 + N252) * (d + T251) ticks later. */
  lemma DrainBound(main: int, clock: Time, evs: seq<Event>, more: seq<Event>, s: int, d: nat, k: nat)
    requires d > 0 && T.Prompt(T.Start(main, clock), evs + more, d)
    requires k < |Proj(T.After(T.Start(main, clock), evs), s).q|
    requires T.After(T.Start(main, clock), evs + more).tick
          >= T.After(T.Start(main, clock), evs).tick + 1 + (k + 1) * ((1 + N252) * (d + T251))
    ensures var l, l' := Proj(T.After(T.Start(main, clock), evs), s),
                Proj(T.After(T.Start(main, clock), evs + more), s);
            |l'.fin| > |l.fin| + k
  {
    hide L.Inv, Inv, L.Timely, Deadline, T.After, T.Prompt, Sel;
    var y, y' := T.After(T.Start(main, clock), evs), T.After(T.Start(main, clock), evs + more);
    var n := |Proj(y, s).fin| + k;
    RunDeadline(main, clock, evs, more, s, d, n);
    if n >= |Proj(y', s).fin| {
      T.RunInv(main, clock, evs + more);
      assert L.Inv(Proj(y', s)) by { LinkInv(y', s); }
      T.RunTimely(main, clock, evs + more, s, d);
      BeforeDeadline(Proj(y', s), d, n);
      RunPast(main, clock, evs);
      DeadlineAtFirst(y, s, d, n);
    }
  }

  lemma LinkInv(y: Sys, s: int)
    requires Inv(y)
    ensures L.Inv(Proj(y, s))
  {
  }
}
