/** What holds in every run of the LLC, for every sequence of events. */
module LlcTheorems {
  import opened Wrappers
  import opened Tdma
  import opened Links
  import opened TxReceipt
  import opened LlcModel
  import opened LlcSystem
  import L = LlcLink

  function Start(main: int, clock: Time): Sys {
    Sys(Init(main), [], [], [], 0, clock, false, [], [], [])
  }

  /** The state after a sequence of events; an event that is not enabled does nothing. */
  function After(y: Sys, evs: seq<Event>): Sys {
    if evs == [] then y
    else
      var p := After(y, evs[..|evs| - 1]);
      if Enabled(p, evs[|evs| - 1]) then Next(p, evs[|evs| - 1]) else p
  }

  lemma StartInv(main: int, clock: Time)
    ensures Inv(Start(main, clock))
  {
    forall s: int ensures Proj(Start(main, clock), s) == L.Start(clock, DEFAULT_TIME) {
    }
    L.StartInv(clock, DEFAULT_TIME);
  }

  lemma OnLinkInv(y: Sys, ev: Event, s: int)
    requires Inv(y) && Enabled(y, ev)
    ensures L.Inv(OnLink(y, ev, s))
  {
    hide Elapsed, Tick, SlotOf, L.Inv;
    var l := Proj(y, s);
    assert L.Inv(l);
    match ev
    case DataRequest(r) =>
      if Queues(r) && s == r.ssi {
        var e := Next(y, ev).llc.queue[|y.llc.queue|];
        assert AcceptedOf(y.llc, s) == |l.fin + l.q|;
        L.RequestInv(l, e);
      }
    case UnitdataRequest(_) =>
    case Rx(i) =>
      if i.fcsOk && NrOf(i.pdu).Some? && s == i.ssi {
        L.AckInv(l, i.carrier, NrOf(i.pdu).value);
      }
    case UmacMark(k, to) =>
      if s == y.umac[k].ssi && |Sel(CopySsi, y.umac[..k], s)| < |l.umac| {
        L.MarkInv(l, |Sel(CopySsi, y.umac[..k], s)|, to);
      }
    case StartTick => L.TickStartInv(l);
    case EndTick => L.TickEndInv(l);
  }

  /** Each event is, for every SSI, one step of that SSI's link machine. */
  lemma Refines(y: Sys, ev: Event, s: int)
    requires Inv(y) && Enabled(y, ev)
    ensures Proj(Next(y, ev), s) == OnLink(y, ev, s)
  {
    hide Elapsed, Tick, SlotOf, L.Inv, Inv;
    match ev
    case DataRequest(r) => RequestRefines(y, r, s);
    case UnitdataRequest(r) => RequestRefines(y, r, s);
    case Rx(i) => RxRefines(y, i, s);
    case UmacMark(k, to) => MarkRefines(y, k, to, s);
    case StartTick =>
    case EndTick => TickEndRefines(y, s);
  }

  lemma LinkHistoryLength(y: Sys, ev: Event, s: int)
    requires Enabled(y, ev)
    ensures |OnLink(y, ev, s).fin| + |OnLink(y, ev, s).q|
         == |Proj(y, s).fin| + |Proj(y, s).q| + if ev.DataRequest? && Queues(ev.r) && s == ev.r.ssi then 1 else 0
  {
    hide L.TickEnd, Next, Proj;
    L.StepLengths(Proj(y, s),
                  if ev.Rx? then ev.i.carrier else 0,
                  if ev.Rx? && NrOf(ev.i.pdu).Some? then NrOf(ev.i.pdu).value else 0);
  }

  lemma AcceptedLength(y: Sys, ev: Event, s: int)
    requires Enabled(y, ev)
    ensures AcceptedOf(Next(y, ev).llc, s)
         == AcceptedOf(y.llc, s) + if ev.DataRequest? && Queues(ev.r) && s == ev.r.ssi then 1 else 0
  {
    hide GiveUp, FreePass, Resent, Released, RetryPass, ExhaustedKeys, ProcessAck;
  }

  lemma NextInv(y: Sys, ev: Event)
    requires Inv(y) && Enabled(y, ev)
    ensures Inv(Next(y, ev))
  {
    hide L.Inv;
    forall s: int
      ensures L.Inv(Proj(Next(y, ev), s))
      ensures AcceptedOf(Next(y, ev).llc, s) == |Proj(Next(y, ev), s).fin + Proj(Next(y, ev), s).q|
    {
      OnLinkInv(y, ev, s);
      Refines(y, ev, s);
      LinkHistoryLength(y, ev, s);
      AcceptedLength(y, ev, s);
      assert AcceptedOf(y.llc, s) == |Proj(y, s).fin + Proj(y, s).q|;
    }
  }

  /** The invariant of every link holds in every reachable state. */
  lemma {:induction false} RunInv(main: int, clock: Time, evs: seq<Event>)
    ensures Inv(After(Start(main, clock), evs))
  {
    if evs == [] {
      StartInv(main, clock);
    } else {
      var n := |evs| - 1;
      RunInv(main, clock, evs[..n]);
      var p := After(Start(main, clock), evs[..n]);
      if Enabled(p, evs[n]) {
        NextInv(p, evs[n]);
      }
    }
  }

  ghost predicate Reachable(y: Sys) {
    exists main: int, clock: Time, evs: seq<Event> :: y == After(Start(main, clock), evs)
  }

  lemma ReachableInv(y: Sys)
    requires Reachable(y)
    ensures Inv(y)
  {
    var main: int, clock: Time, evs: seq<Event> :| y == After(Start(main, clock), evs);
    RunInv(main, clock, evs);
  }

  // ---------------------------------------------------------------- one message in flight per SSI

  /** Of two queued messages of one SSI the later one is untouched, was requested later, and the
      N(S) values follow the request numbers modulo two. */
  lemma QueueOrder(y: Sys, i: nat, j: nat)
    requires Reachable(y) && i < j < |y.llc.queue| && y.llc.queue[i].ssi == y.llc.queue[j].ssi
    ensures var q := y.llc.queue;
            L.Waiting(q[j]) && q[i].serial < q[j].serial && q[i].ns == q[i].serial % 2 && q[j].ns == q[j].serial % 2
  {
    hide Elapsed, Tick, SlotOf, Sel, L.Attempts, After, Reachable;
    ReachableInv(y);
    var q := y.llc.queue;
    var l := Proj(y, q[i].ssi);
    SelPlace(EntrySsi, q, i);
    SelPlace(EntrySsi, q, j);
    SelOrder(EntrySsi, q, i, j);
    var a, b := |Sel(EntrySsi, q[..i], q[i].ssi)|, |Sel(EntrySsi, q[..j], q[i].ssi)|;
    assert L.Inv(l) && l.q[a] == q[i] && l.q[b] == q[j];
    LinkNumbers(l, a);
    LinkNumbers(l, b);
  }

  lemma LinkNumbers(l: L.Link, a: nat)
    requires L.Numbered(l.fin + l.q) && a < |l.q|
    ensures l.q[a].serial == |l.fin| + a && l.q[a].ns == (|l.fin| + a) % 2
  {
    assert (l.fin + l.q)[|l.fin| + a] == l.q[a];
  }

  /** After the end of a tick the first queued message of every SSI is in flight. */
  lemma FirstIsInFlight(y: Sys, i: nat)
    requires Reachable(y) && y.open
    requires var q := Next(y, EndTick).llc.queue;
             i < |q| && forall j :: 0 <= j < i ==> q[j].ssi != q[i].ssi
    ensures Next(y, EndTick).llc.queue[i].submitted.Some?
  {
    hide Elapsed, Tick, SlotOf, Sel, Next, Reachable;
    ReachableInv(y);
    var q := Next(y, EndTick).llc.queue;
    var s := q[i].ssi;
    assert L.Inv(Proj(y, s));
    Refines(y, EndTick, s);
    L.TickEndInv(Proj(y, s));
    SelPlace(EntrySsi, q, i);
    SelNone(EntrySsi, q[..i], s);
    assert Proj(Next(y, EndTick), s).q[0] == q[i];
  }

  // ---------------------------------------------------------------- reporters and UMAC copies

  /** Every copy the UMAC holds belongs to a queued message whose reporter is Pending, so marking
      it cannot fail; and no message has two live copies. */
  lemma LiveCopies(y: Sys, k: nat)
    requires Reachable(y) && k < |y.umac|
    ensures exists i ::
              && 0 <= i < |y.llc.queue| && y.llc.queue[i].ssi == y.umac[k].ssi
              && y.llc.queue[i].serial == y.umac[k].serial
              && y.llc.queue[i].submitted.Some? && y.llc.queue[i].rep.Pending?
    ensures forall m :: 0 <= m < |y.umac| && m != k ==> y.umac[m].ssi != y.umac[k].ssi
  {
    hide Elapsed, Tick, SlotOf, Sel, Reachable;
    ReachableInv(y);
    var s := y.umac[k].ssi;
    var l := Proj(y, s);
    assert L.Inv(l);
    SelPlace(CopySsi, y.umac, k);
    var c := Sel(CopySsi, y.umac, s);
    var a := |Sel(CopySsi, y.umac[..k], s)|;
    assert l.umac[a] == c[a].serial;
    var i := SelAt(EntrySsi, y.llc.queue, s, 0);
    assert y.llc.queue[i].ssi == y.umac[k].ssi && y.llc.queue[i].serial == y.umac[k].serial;
    forall m | 0 <= m < |y.umac| && m != k ensures y.umac[m].ssi != s {
      if y.umac[m].ssi == s {
        SelPlace(CopySsi, y.umac, m);
        if m < k {
          SelOrder(CopySsi, y.umac, m, k);
        } else {
          SelOrder(CopySsi, y.umac, k, m);
        }
      }
    }
  }

  /** The reporter of a message that has left the queue is final and never changes again, and no
      copy of it is outstanding. */
  lemma DoneIsDone(y: Sys, ev: Event)
    requires Reachable(y) && Enabled(y, ev)
    ensures y.fin <= Next(y, ev).fin
    ensures forall i :: 0 <= i < |y.fin| ==> L.Final(y.fin[i]) && AsCopy(y.fin[i]) !in y.umac
  {
    hide Elapsed, Tick, SlotOf, Sel, TickEnd, Receive, Reachable;
    ReachableInv(y);
    forall i | 0 <= i < |y.fin|
      ensures L.Final(y.fin[i]) && AsCopy(y.fin[i]) !in y.umac
    {
      LeftIsFinal(y, i);
    }
    if ev.UmacMark? {
      forall i | 0 <= i < |y.fin| ensures MarkedIn(y.fin[i], y.umac[ev.k], ev.to) == y.fin[i] {
        LeftIsFinal(y, i);
      }
    }
  }

  lemma LeftIsFinal(y: Sys, i: nat)
    requires Inv(y) && i < |y.fin|
    ensures L.Final(y.fin[i]) && AsCopy(y.fin[i]) !in y.umac
  {
    hide Elapsed, Tick, SlotOf, Sel;
    var s := y.fin[i].ssi;
    var l := Proj(y, s);
    assert L.Inv(l);
    SelPlace(EntrySsi, y.fin, i);
    var a := |Sel(EntrySsi, y.fin[..i], s)|;
    assert l.fin[a] == y.fin[i];
    assert (l.fin + l.q)[a] == y.fin[i];
    forall k | 0 <= k < |y.umac| ensures y.umac[k] != AsCopy(y.fin[i]) {
      if y.umac[k].ssi == s {
        SelPlace(CopySsi, y.umac, k);
        var c := |Sel(CopySsi, y.umac[..k], s)|;
        assert l.umac[c] == y.umac[k].serial;
        LinkNumbers(l, 0);
      }
    }
  }

  /** A message given up at the end of a tick was Transmitted (and becomes Lost) or Discarded, so
      mark_lost cannot fail and the "unexpected reporter state" branch is dead. */
  lemma GivenUpStates(y: Sys, k: nat)
    requires Reachable(y) && y.open && k < |TickEnd(y.llc).left|
    ensures TickEnd(y.llc).left[k].rep.Lost? || TickEnd(y.llc).left[k].rep.Discarded?
  {
    hide Elapsed, Tick, SlotOf, Sel, TickEnd, Exhausted, Retried, Reachable;
    ReachableInv(y);
    var left := TickEnd(y.llc).left;
    var s := left[k].ssi;
    var l := Proj(y, s);
    assert L.Inv(l);
    TickQueueOnLink(y, s);
    SelPlace(EntrySsi, left, k);
    L.RetryStageInv(l);
    StageFrame(l);
    var a := |Sel(EntrySsi, left[..k], s)|;
    var l1 := L.RetryStage(l);
    assert L.GiveUpStage(l1).fin[|l.fin| + a] == left[k];
    assert L.InFlight(l1.q[0], l1.clock);
  }

  /** An acknowledgement makes the reporter panic exactly when it completes a message whose
      current copy the UMAC discarded; in every other case where it completes a message, the
      message was Transmitted and becomes Acknowledged. */
  lemma AckPanicsIffDiscarded(y: Sys, i: Ind)
    requires Reachable(y) && i.fcsOk && NrOf(i.pdu).Some?
    ensures var l := Proj(y, i.ssi);
            var c := L.Completes(l, i.carrier, NrOf(i.pdu).value);
            var e := Receive(y.llc, i);
            && (e.panicked <==> c && l.q[0].rep.Discarded?)
            && (e.left.Some? <==> c)
            && (c && !e.panicked ==> e.left.value == l.q[0].(rep := Acknowledged) && l.q[0].rep.Transmitted?)
  {
    hide Receive, Reachable;
    ReachableInv(y);
    AckOutcome(y, i);
  }

  lemma AckOutcome(y: Sys, i: Ind)
    requires Inv(y) && i.fcsOk && NrOf(i.pdu).Some?
    ensures var l := Proj(y, i.ssi);
            var c := L.Completes(l, i.carrier, NrOf(i.pdu).value);
            var e := Receive(y.llc, i);
            && (e.panicked <==> c && l.q[0].rep.Discarded?)
            && (e.left.Some? <==> c)
            && (e.panicked ==> e.left.value == l.q[0])
            && (c && !e.panicked ==> e.left.value == l.q[0].(rep := Acknowledged) && l.q[0].rep.Transmitted?)
  {
    hide Elapsed, Tick, SlotOf, Sel;
    InvHeadOnly(y);
    FirstSubmittedIsHead(y.llc.queue, i.ssi, i.carrier);
    assert L.Inv(Proj(y, i.ssi));
    L.AckInv(Proj(y, i.ssi), i.carrier, NrOf(i.pdu).value);
  }

  // ---------------------------------------------------------------- conservation and numbering

  /** Each accepted message is, at all times, exactly one of: gone with a final reporter, in
      flight, waiting; they are listed in request order. */
  lemma Conservation(y: Sys, s: int, k: nat)
    requires Reachable(y) && k < AcceptedOf(y.llc, s)
    ensures var l := Proj(y, s);
            var h := l.fin + l.q;
            && |h| == AcceptedOf(y.llc, s)
            && (forall j :: 0 <= j < |h| ==> (h[j].serial == k <==> j == k))
            && (k < |l.fin| ==> L.Final(h[k]))
            && (k == |l.fin| ==> L.Waiting(h[k]) || L.InFlight(h[k], l.clock))
            && (k > |l.fin| ==> L.Waiting(h[k]))
  {
    hide Elapsed, Tick, SlotOf, Reachable;
    ReachableInv(y);
    assert L.Inv(Proj(y, s));
  }

  /** Neighbours in an SSI's queue alternate and the newest carries the complement of V(S). */
  lemma Alternation(y: Sys, s: int)
    requires Reachable(y)
    ensures var q := Sel(EntrySsi, y.llc.queue, s);
            && (forall j :: 0 < j < |q| ==> q[j].ns == Flip(q[j - 1].ns))
            && (q != [] ==> q[|q| - 1].ns == Flip(VsOf(y.llc, s)))
  {
    hide Elapsed, Tick, SlotOf, Sel, Reachable;
    ReachableInv(y);
    var l := Proj(y, s);
    assert L.Inv(l);
    forall j | 0 <= j < |l.q| ensures l.q[j].ns == (|l.fin| + j) % 2 {
      LinkNumbers(l, j);
    }
  }

  /** An N(R) that repeats the N(S) of the message that left last completes nothing. */
  lemma StaleAckIgnored(y: Sys, i: Ind)
    requires Reachable(y) && i.fcsOk && NrOf(i.pdu).Some?
    requires var f := Sel(EntrySsi, y.fin, i.ssi);
             f != [] && NrOf(i.pdu).value == f[|f| - 1].ns
    ensures Receive(y.llc, i).left.None? && !Receive(y.llc, i).panicked
  {
    hide Elapsed, Tick, SlotOf, Sel, Receive, Reachable;
    ReachableInv(y);
    var l := Proj(y, i.ssi);
    assert L.Inv(l);
    assert (l.fin + l.q)[|l.fin| - 1] == l.fin[|l.fin| - 1];
    if l.q != [] {
      LinkNumbers(l, 0);
    }
    AckPanicsIffDiscarded(y, i);
  }

  // ---------------------------------------------------------------- submissions

  lemma {:induction false} AttemptsShape(h: seq<E>, i: nat, j: nat)
    requires L.Numbered(h) && i <= j < |L.Attempts(h)|
    requires forall k :: 0 <= k < |h| ==> h[k].retries <= N252
    ensures L.Attempts(h)[i] <= L.Attempts(h)[j] < |h|
    ensures L.Attempts(h)[i] == L.Attempts(h)[j] ==> j - i <= N252
  {
    var n := |h| - 1;
    var p := L.Attempts(h[..n]);
    assert L.Numbered(h[..n]);
    if j < |p| {
      AttemptsShape(h[..n], i, j);
    } else if i < |p| {
      AttemptsShape(h[..n], i, i);
    }
  }

  /** The submissions of one SSI follow request order, and the copies of one message are
      consecutive and at most 1 + N252. */
  lemma SubmissionOrder(y: Sys, s: int, i: nat, j: nat)
    requires Reachable(y) && i <= j < |Sel(SubSsi, y.subs, s)|
    ensures var u := Sel(SubSsi, y.subs, s);
            u[i].serial <= u[j].serial && (u[i].serial == u[j].serial ==> j - i <= N252)
  {
    hide Elapsed, Tick, SlotOf, Sel, Reachable;
    ReachableInv(y);
    var l := Proj(y, s);
    assert L.Inv(l);
    SubmissionShape(l, i, j);
  }

  lemma SubmissionShape(l: L.Link, i: nat, j: nat)
    requires L.Inv(l) && i <= j < |l.subs|
    ensures l.subs[i].serial <= l.subs[j].serial && (l.subs[i].serial == l.subs[j].serial ==> j - i <= N252)
  {
    hide Elapsed, L.Attempts;
    var h := l.fin + L.Current(l.q);
    assert L.Numbered(h) by {
      assert forall k :: 0 <= k < |h| ==> h[k] == (l.fin + l.q)[k];
    }
    assert L.SubSerials(l.subs)[i] == l.subs[i].serial && L.SubSerials(l.subs)[j] == l.subs[j].serial;
    AttemptsShape(h, i, j);
  }

  /** A run in which the UMAC reports every copy by the d-th end of tick after its submission. */
  ghost predicate Prompt(y: Sys, evs: seq<Event>, d: nat) {
    evs != [] ==>
      var n := |evs| - 1;
      && Prompt(y, evs[..n], d)
      && (evs[n].EndTick? ==> forall s: int {:trigger Proj(After(y, evs[..n]), s)} ::
          L.PromptUmac(Proj(After(y, evs[..n]), s), d))
  }

  lemma OnLinkTimely(y: Sys, ev: Event, s: int, d: nat)
    requires Inv(y) && Enabled(y, ev) && d > 0
    requires L.Timely(Proj(y, s), d, y.tick, 0)
    requires ev.EndTick? ==> L.PromptUmac(Proj(y, s), d)
    ensures L.Timely(OnLink(y, ev, s), d, Next(y, ev).tick, 0)
  {
    hide Elapsed, Tick, SlotOf, L.Inv, L.Timely, TickEnd, L.TickEnd;
    var l := Proj(y, s);
    assert L.Inv(l);
    if ev.EndTick? {
      L.TickEndTimely(l, d);
    } else {
      var e := if ev.DataRequest? && Queues(ev.r) then Next(y, ev).llc.queue[|y.llc.queue|] else AnEntry();
      var k := if ev.UmacMark? && s == y.umac[ev.k].ssi then |Sel(CopySsi, y.umac[..ev.k], s)| else |l.umac|;
      L.OtherStepsTimely(l, d, e, if ev.Rx? then ev.i.carrier else 0,
                         if ev.Rx? && NrOf(ev.i.pdu).Some? then NrOf(ev.i.pdu).value else 0,
                         k, if ev.UmacMark? then ev.to else Transmitted);
    }
  }

  function AnEntry(): E {
    Entry(0, 0, 0, 0, DEFAULT_TIME, None, None, Msg(0, 0, BlUdata, [], false, 0, None, None), 0, Pending)
  }

  lemma {:induction false} RunTimely(main: int, clock: Time, evs: seq<Event>, s: int, d: nat)
    requires d > 0 && Prompt(Start(main, clock), evs, d)
    ensures var y := After(Start(main, clock), evs);
            L.Timely(Proj(y, s), d, y.tick, 0)
  {
    hide Elapsed, Tick, SlotOf, L.Timely, L.PromptUmac;
    if evs == [] {
      StartTimely(main, clock, s, d);
    } else {
      var n := |evs| - 1;
      RunTimely(main, clock, evs[..n], s, d);
      RunInv(main, clock, evs[..n]);
      var p := After(Start(main, clock), evs[..n]);
      if Enabled(p, evs[n]) {
        OnLinkTimely(p, evs[n], s, d);
        Refines(p, evs[n], s);
      }
    }
  }

  lemma StartTimely(main: int, clock: Time, s: int, d: nat)
    ensures L.Timely(Proj(Start(main, clock), s), d, 0, 0)
  {
  }

  /** If the UMAC reports every copy within d ticks, a message still in flight was first submitted
      less than (1 + N252) * (d + T251) ticks ago: by then it has been acknowledged or given up. */
  lemma TerminationBound(main: int, clock: Time, evs: seq<Event>, s: int, d: nat)
    requires d > 0 && Prompt(Start(main, clock), evs, d)
    requires L.Current(Proj(After(Start(main, clock), evs), s).q) != []
    ensures var l := Proj(After(Start(main, clock), evs), s);
            && |l.subs| > l.q[0].retries
            && (forall j :: 0 <= j < |l.subs| ==>
                  (l.subs[j].serial == l.q[0].serial <==> j >= |l.subs| - 1 - l.q[0].retries))
            && l.tick - l.subs[|l.subs| - 1 - l.q[0].retries].tick < L.Budget(1 + N252, d)
  {
    hide Elapsed, Tick, SlotOf, L.Timely, L.Inv, After, Prompt, L.Attempts, Sel;
    RunInv(main, clock, evs);
    RunTimely(main, clock, evs, s, d);
    var l := Proj(After(Start(main, clock), evs), s);
    assert L.Inv(l);
    BoundOnLink(l, d);
  }

  lemma BoundOnLink(l: L.Link, d: nat)
    requires L.Inv(l) && d > 0 && L.Timely(l, d, l.tick, 0) && L.Current(l.q) != []
    ensures |l.subs| > l.q[0].retries
    ensures forall j :: 0 <= j < |l.subs| ==>
              (l.subs[j].serial == l.q[0].serial <==> j >= |l.subs| - 1 - l.q[0].retries)
    ensures l.tick - l.subs[|l.subs| - 1 - l.q[0].retries].tick < L.Budget(1 + N252, d)
  {
    hide L.Inv, L.Timely;
    L.FlightBound(l, d);
    EarlierAttempts(l);
  }

  lemma EarlierAttempts(l: L.Link)
    requires L.Inv(l) && L.Current(l.q) != []
    ensures |l.subs| > l.q[0].retries
    ensures forall j :: 0 <= j < |l.subs| - 1 - l.q[0].retries ==> l.subs[j].serial < l.q[0].serial
  {
    hide Elapsed, Tick, SlotOf;
    L.AttemptsSnoc(l.fin, l.q[0]);
    var p := L.Attempts(l.fin);
    assert L.SubSerials(l.subs) == p + L.Repeat(l.q[0].serial, 1 + l.q[0].retries);
    assert (l.fin + l.q)[|l.fin|] == l.q[0];
    assert L.Numbered(l.fin) by {
      assert forall k :: 0 <= k < |l.fin| ==> l.fin[k] == (l.fin + l.q)[k];
    }
    forall j | 0 <= j < |p| ensures l.subs[j].serial < |l.fin| {
      assert L.SubSerials(l.subs)[j] == p[j];
      AttemptsShape(l.fin, j, j);
    }
  }
}
