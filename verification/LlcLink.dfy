/** One SSI seen on its own: a stop-and-wait sender together with the reporter states and the
    copies the UMAC still holds. What every step keeps is proved here; LlcSystem.dfy shows that
    the shared queue behaves, for every SSI, like this machine. */
module LlcLink {
  import opened Wrappers
  import opened Tdma
  import opened Links
  import opened TxReceipt
  import opened LlcModel

  /** One copy handed to the UMAC: whose it is and after how many completed ticks. */
  datatype Sub = Sub(ssi: int, serial: nat, tick: nat)

  /** q: queued messages; fin: messages that left the queue, oldest first; umac: serials of the
      copies the UMAC has neither sent nor discarded; subs: every submission so far; clock: time
      of the current tick (of the next one between ticks). */
  datatype Link = Link(
    q: seq<E>, fin: seq<E>, vs: Bit, umac: seq<nat>, subs: seq<Sub>,
    tick: nat, clock: Time, now: Time, open: bool)

  // ---------------------------------------------------------------- steps

  function Request(l: Link, e: E): Link {
    l.(q := l.q + [e], vs := Flip(l.vs))
  }

  /** The message an acknowledgement completes, if it completes one. */
  predicate Completes(l: Link, carrier: int, nr: Bit) {
    l.q != [] && l.q[0].submitted.Some? && l.q[0].carrier == carrier && l.q[0].done.Some? && l.q[0].ns == nr
  }

  function Ack(l: Link, carrier: int, nr: Bit): Link {
    if Completes(l, carrier, nr)
    then l.(q := l.q[1..], fin := l.fin + [if l.q[0].rep.Transmitted? then l.q[0].(rep := Acknowledged) else l.q[0]])
    else l
  }

  /** A compare-exchange from Pending on the reporter of one message. */
  function Marked(e: E, serial: nat, to: TxState): (r: E)
    ensures r.ssi == e.ssi && r.serial == e.serial
  {
    if e.serial == serial && e.rep.Pending? then e.(rep := to) else e
  }

  function Mark(l: Link, i: nat, to: TxState): Link
    requires i < |l.umac|
  {
    var f := (e: E) => Marked(e, l.umac[i], to);
    l.(umac := l.umac[..i] + l.umac[i + 1..], q := Map(f, l.q), fin := Map(f, l.fin))
  }

  function TickStart(l: Link): Link {
    l.(now := l.clock, open := true)
  }

  function Serials(s: seq<E>): seq<nat> {
    Map((e: E) => e.serial, s)
  }

  function SubsFor(s: seq<E>, tick: nat): seq<Sub> {
    Map((e: E) => Sub(e.ssi, e.serial, tick), s)
  }

  /** Copies handed to the UMAC in the running tick. */
  function Hand(l: Link, sent: seq<E>): Link {
    l.(umac := l.umac + Serials(sent), subs := l.subs + SubsFor(sent, l.tick + 1))
  }

  function HeadResent(l: Link): seq<E> {
    if l.q != [] && Resends(l.q[0], l.now) then [Retried(l.q[0], l.now)] else []
  }

  function RetryStage(l: Link): Link {
    Hand(l, HeadResent(l)).(q := RetryPass(l.q, l.now))
  }

  function Pop(l: Link, to: TxState): Link
    requires l.q != []
  {
    l.(q := l.q[1..], fin := l.fin + [l.q[0].(rep := to)])
  }

  function GiveUpStage(l: Link): Link {
    if l.q != [] && Exhausted(l.q[0], l.now) then Pop(l, GivenUp(l.q[0]).rep) else l
  }

  function HeadReleased(l: Link): seq<E> {
    if l.q != [] && l.q[0].submitted.None? then [Submit(l.q[0], l.now)] else []
  }

  function ReleaseStage(l: Link): Link {
    if HeadReleased(l) == [] then l else Hand(l, HeadReleased(l)).(q := HeadReleased(l) + l.q[1..])
  }

  function Advance(l: Link): Link {
    l.(tick := l.tick + 1, clock := Tick(l.clock), open := false)
  }

  function TickEnd(l: Link): Link {
    Advance(ReleaseStage(GiveUpStage(RetryStage(l))))
  }

  // ---------------------------------------------------------------- what every step keeps

  ghost predicate Waiting(e: E) {
    e.submitted.None? && e.done.None? && e.rep.Pending? && e.retries == 0
  }

  ghost predicate InFlight(e: E, clock: Time) {
    && e.submitted.Some? && e.retries <= N252
    && (e.rep.Pending? || e.rep.Transmitted? || e.rep.Discarded?)
    && (e.done.Some? ==> !e.rep.Pending? && 0 <= Elapsed(clock, e.done.value) <= T251)
  }

  ghost predicate Final(e: E) {
    && (e.rep.Acknowledged? || e.rep.Lost? || e.rep.Discarded?)
    && e.retries <= N252
  }

  /** The message that occupies the link. */
  function Current(q: seq<E>): seq<E> {
    if q != [] && q[0].submitted.Some? then [q[0]] else []
  }

  /** The copies the UMAC must be holding. */
  function Live(q: seq<E>): seq<nat> {
    if q != [] && q[0].submitted.Some? && q[0].rep.Pending? then [q[0].serial] else []
  }

  function Repeat(x: nat, n: nat): seq<nat> {
    seq(n, _ => x)
  }

  /** Each message of h in turn, once plus once per retransmission. */
  function Attempts(h: seq<E>): seq<nat> {
    if h == [] then [] else Attempts(h[..|h| - 1]) + Repeat(h[|h| - 1].serial, 1 + h[|h| - 1].retries)
  }

  function SubSerials(s: seq<Sub>): seq<nat> {
    Map((x: Sub) => x.serial, s)
  }

  ghost predicate Numbered(h: seq<E>) {
    forall i {:trigger h[i]} :: 0 <= i < |h| ==> h[i].serial == i && h[i].ns == i % 2
  }

  /** The history fin + q lists every accepted message in request order with alternating N(S);
      everything that left is final; at most the head is in flight and the rest untouched; the
      UMAC holds exactly the pending copy; the submissions are the attempts in that order. */
  ghost predicate Inv(l: Link) {
    && Numbered(l.fin + l.q)
    && l.vs == |l.fin + l.q| % 2
    && (forall i :: 0 <= i < |l.fin| ==> Final(l.fin[i]))
    && (forall i :: 1 <= i < |l.q| ==> Waiting(l.q[i]))
    && (l.q != [] ==> Waiting(l.q[0]) || InFlight(l.q[0], l.clock))
    && l.umac == Live(l.q)
    && SubSerials(l.subs) == Attempts(l.fin + Current(l.q))
    && (l.open ==> l.now == l.clock)
  }

  function Start(clock: Time, now: Time): Link {
    Link([], [], 0, [], [], 0, clock, now, false)
  }

  lemma StartInv(clock: Time, now: Time)
    ensures Inv(Start(clock, now))
  {
  }

  ghost predicate FreshFor(l: Link, e: E) {
    e.serial == |l.fin + l.q| && e.ns == l.vs && Waiting(e)
  }

  lemma RequestInv(l: Link, e: E)
    requires Inv(l) && FreshFor(l, e)
    ensures Inv(Request(l, e))
  {
    var l' := Request(l, e);
    assert l'.fin + l'.q == (l.fin + l.q) + [e];
    assert Current(l'.q) == Current(l.q);
  }

  lemma AttemptsSnoc(h: seq<E>, e: E)
    ensures Attempts(h + [e]) == Attempts(h) + Repeat(e.serial, 1 + e.retries)
  {
    assert (h + [e])[..|h + [e]| - 1] == h;
  }

  lemma PopNumbered(l: Link, to: TxState)
    requires l.q != [] && Numbered(l.fin + l.q)
    ensures |Pop(l, to).fin + Pop(l, to).q| == |l.fin + l.q|
    ensures Numbered(Pop(l, to).fin + Pop(l, to).q)
  {
    var l' := Pop(l, to);
    var h, h' := l.fin + l.q, l'.fin + l'.q;
    forall i | 0 <= i < |h'| ensures h'[i].serial == i && h'[i].ns == i % 2 {
      assert h'[i] == if i == |l.fin| then h[i].(rep := to) else h[i];
    }
  }

  /** A message in flight that the UMAC is done with leaves the queue in a final state. */
  lemma PopInv(l: Link, to: TxState)
    requires Inv(l) && Current(l.q) != [] && !l.q[0].rep.Pending?
    requires to.Acknowledged? || to.Lost? || to.Discarded?
    ensures Inv(Pop(l, to))
    ensures Pop(l, to).q != [] ==> Waiting(Pop(l, to).q[0])
  {
    hide Elapsed, Tick, SlotOf;
    var l' := Pop(l, to);
    PopNumbered(l, to);
    AttemptsSnoc(l.fin, l.q[0]);
    AttemptsSnoc(l.fin, l.q[0].(rep := to));
    assert l'.q != [] ==> l'.q[0] == l.q[1];
    assert l'.fin + Current(l'.q) == l'.fin;
  }

  /** Only a message the UMAC has sent or discarded can be completed, and the reporter accepts
      the acknowledgement exactly when that copy was not discarded. */
  lemma AckInv(l: Link, carrier: int, nr: Bit)
    requires Inv(l)
    ensures Inv(Ack(l, carrier, nr))
    ensures Completes(l, carrier, nr) ==> l.q[0].rep.Transmitted? || l.q[0].rep.Discarded?
  {
    hide Elapsed, Tick, SlotOf;
    if Completes(l, carrier, nr) {
      PopInv(l, if l.q[0].rep.Transmitted? then Acknowledged else l.q[0].rep);
    }
  }

  lemma MarkShape(l: Link, i: nat, to: TxState)
    requires Numbered(l.fin + l.q) && i < |l.umac| && l.umac == Live(l.q)
    ensures Mark(l, i, to) == l.(umac := [], q := l.q[0 := l.q[0].(rep := to)])
  {
    var l' := Mark(l, i, to);
    var h := l.fin + l.q;
    assert h[|l.fin|] == l.q[0];
    forall j | 0 <= j < |l.fin| ensures l'.fin[j] == l.fin[j] {
      assert h[j] == l.fin[j];
    }
    forall j | 1 <= j < |l.q| ensures l'.q[j] == l.q[j] {
      assert h[|l.fin| + j] == l.q[j];
    }
    assert l'.fin == l.fin;
    assert l'.q == l.q[0 := l.q[0].(rep := to)];
  }

  /** The copy the UMAC marks belongs to the message in flight, and its reporter is Pending, so
      neither mark_transmitted nor mark_discarded can fail. */
  lemma MarkInv(l: Link, i: nat, to: TxState)
    requires Inv(l) && i < |l.umac| && (to.Transmitted? || to.Discarded?)
    ensures Inv(Mark(l, i, to))
    ensures l.q != [] && l.q[0].serial == l.umac[i] && l.q[0].rep.Pending?
    ensures Mark(l, i, to) == l.(umac := [], q := l.q[0 := l.q[0].(rep := to)])
  {
    hide Elapsed, Attempts;
    MarkShape(l, i, to);
    var e' := l.q[0].(rep := to);
    ReplaceHeadNumbered(l, e');
    AttemptsSnoc(l.fin, l.q[0]);
    AttemptsSnoc(l.fin, e');
  }

  lemma TickStartInv(l: Link)
    requires Inv(l)
    ensures Inv(TickStart(l))
  {
  }

  // ---------------------------------------------------------------- the end of a tick

  lemma WaitingIsLeftAlone(e: E, now: Time)
    requires Waiting(e)
    ensures Retried(e, now) == e && !Resends(e, now) && !Exhausted(e, now)
  {
  }

  lemma RetryTouchesHeadOnly(l: Link)
    requires Inv(l)
    ensures l.q != [] ==> RetryPass(l.q, l.now) == l.q[0 := Retried(l.q[0], l.now)]
    ensures l.q == [] ==> RetryPass(l.q, l.now) == []
  {
    hide Elapsed, Tick, SlotOf;
    forall i | 1 <= i < |l.q| ensures RetryPass(l.q, l.now)[i] == l.q[i] {
      WaitingIsLeftAlone(l.q[i], l.now);
    }
  }

  lemma ReplaceHeadNumbered(l: Link, e: E)
    requires l.q != [] && Numbered(l.fin + l.q) && e.serial == l.q[0].serial && e.ns == l.q[0].ns
    ensures Numbered(l.fin + l.q[0 := e]) && |l.fin + l.q[0 := e]| == |l.fin + l.q|
  {
    var h, h' := l.fin + l.q, l.fin + l.q[0 := e];
    forall i | 0 <= i < |h'| ensures h'[i].serial == i && h'[i].ns == i % 2 {
      assert h[|l.fin|] == l.q[0];
      assert h'[i] == if i == |l.fin| then e else h[i];
    }
  }

  lemma HandNone(l: Link)
    ensures Hand(l, []) == l
  {
    assert l.umac + Serials([]) == l.umac && l.subs + SubsFor([], l.tick + 1) == l.subs;
  }

  lemma HandOne(l: Link, e: E)
    ensures Hand(l, [e]).umac == l.umac + [e.serial]
    ensures Hand(l, [e]).subs == l.subs + [Sub(e.ssi, e.serial, l.tick + 1)]
    ensures SubSerials(Hand(l, [e]).subs) == SubSerials(l.subs) + [e.serial]
    ensures Hand(l, []) == l
  {
    assert Serials([e]) == [e.serial];
    assert SubsFor([e], l.tick + 1) == [Sub(e.ssi, e.serial, l.tick + 1)];
    assert l.umac + Serials([]) == l.umac && l.subs + SubsFor([], l.tick + 1) == l.subs;
  }

  /** A message in flight times out exactly when T251 slots have passed since its done mark. */
  lemma TimesOutExactlyAtT251(e: E, clock: Time)
    requires InFlight(e, clock)
    ensures TimedOut(e, clock) <==> e.done.Some? && Elapsed(clock, e.done.value) == T251
  {
  }

  ghost predicate Settled(l: Link) {
    Current(l.q) != [] && l.q[0].done.Some? ==> Elapsed(l.clock, l.q[0].done.value) < T251
  }

  /** One round of the loop on the message in flight: a resubmission counts one more attempt
      and is pending again; otherwise the attempt count and the reporter stay. */
  lemma RetriedInFlight(e: E, clock: Time)
    requires InFlight(e, clock)
    ensures InFlight(Retried(e, clock), clock)
    ensures Resends(e, clock) ==>
              Retried(e, clock).retries == e.retries + 1 && Retried(e, clock).rep.Pending? && !e.rep.Pending?
    ensures !Resends(e, clock) ==> Retried(e, clock).retries == e.retries && Retried(e, clock).rep == e.rep
    ensures Exhausted(Retried(e, clock), clock) ==> !e.rep.Pending? && !Resends(e, clock)
    ensures !Exhausted(Retried(e, clock), clock) && Retried(e, clock).done.Some? ==>
              Elapsed(clock, Retried(e, clock).done.value) < T251
  {
    TimesOutExactlyAtT251(e, clock);
    ElapsedSelf(clock);
  }

  lemma RetryStageFlight(l: Link)
    requires Inv(l) && l.open && l.q != [] && !Waiting(l.q[0])
    ensures Inv(RetryStage(l))
  {
    hide Elapsed, Tick, SlotOf, Resends, Retried, Attempts, Repeat, SubSerials;
    var e, l' := l.q[0], RetryStage(l);
    RetryTouchesHeadOnly(l);
    RetriedInFlight(e, l.now);
    RetriedKeeps(e, l.now);
    ReplaceHeadNumbered(l, Retried(e, l.now));
    HandOne(l, Retried(e, l.now));
    AttemptsSnoc(l.fin, e);
    AttemptsSnoc(l.fin, l'.q[0]);
    RepeatSnoc(e.serial, 1 + e.retries);
  }

  lemma RetriedKeeps(e: E, now: Time)
    ensures Retried(e, now).ns == e.ns && Retried(e, now).msg == e.msg && Retried(e, now).carrier == e.carrier
  {
  }

  lemma RetryStageInv(l: Link)
    requires Inv(l) && l.open
    ensures Inv(RetryStage(l))
    ensures RetryStage(l).q != [] && !Exhausted(RetryStage(l).q[0], l.now) ==> Settled(RetryStage(l))
    ensures RetryStage(l).q != [] && Exhausted(RetryStage(l).q[0], l.now) ==>
              Current(RetryStage(l).q) != [] && !RetryStage(l).q[0].rep.Pending?
  {
    hide Elapsed, Tick, SlotOf;
    RetryTouchesHeadOnly(l);
    if l.q != [] {
      if Waiting(l.q[0]) {
        WaitingIsLeftAlone(l.q[0], l.now);
        HandOne(l, l.q[0]);
        assert l.q[0 := l.q[0]] == l.q;
      } else {
        RetryStageFlight(l);
        RetriedInFlight(l.q[0], l.now);
      }
    } else {
      assert RetryStage(l) == l by { assert Hand(l, []).umac == l.umac && Hand(l, []).subs == l.subs; }
    }
  }

  lemma RepeatSnoc(x: nat, n: nat)
    ensures Repeat(x, n + 1) == Repeat(x, n) + [x]
  {
  }

  lemma GiveUpStageInv(l: Link)
    requires Inv(l)
    requires l.q != [] && Exhausted(l.q[0], l.now) ==> Current(l.q) != [] && !l.q[0].rep.Pending?
    requires l.q != [] && !Exhausted(l.q[0], l.now) ==> Settled(l)
    ensures Inv(GiveUpStage(l)) && Settled(GiveUpStage(l))
  {
    hide Elapsed, Tick, SlotOf;
    if l.q != [] && Exhausted(l.q[0], l.now) {
      PopInv(l, GivenUp(l.q[0]).rep);
    }
  }

  lemma ReleaseStageInv(l: Link)
    requires Inv(l) && Settled(l)
    ensures Inv(ReleaseStage(l)) && Settled(ReleaseStage(l))
    ensures ReleaseStage(l).q != [] ==> InFlight(ReleaseStage(l).q[0], l.clock)
  {
    hide Elapsed, Tick, SlotOf, Attempts, SubSerials;
    if HeadReleased(l) != [] {
      var e := Submit(l.q[0], l.now);
      var l' := ReleaseStage(l);
      assert l'.q == l.q[0 := e];
      ReplaceHeadNumbered(l, e);
      HandOne(l, e);
      AttemptsSnoc(l.fin, e);
      RepeatSnoc(e.serial, 0);
      assert l.fin + Current(l.q) == l.fin;
    }
  }

  lemma AdvanceInv(l: Link)
    requires Inv(l) && Settled(l)
    ensures Inv(Advance(l))
  {
    hide Elapsed, Tick, SlotOf;
    if Current(l.q) != [] && l.q[0].done.Some? {
      ElapsedTick(l.clock, l.q[0].done.value);
    }
  }

  /** After the end of a tick the first message of the link is in flight. */
  lemma TickEndInv(l: Link)
    requires Inv(l) && l.open
    ensures Inv(TickEnd(l))
    ensures TickEnd(l).q != [] ==> InFlight(TickEnd(l).q[0], TickEnd(l).clock)
  {
    hide Elapsed, Tick, SlotOf;
    RetryStageInv(l);
    GiveUpStageInv(RetryStage(l));
    ReleaseStageInv(GiveUpStage(RetryStage(l)));
    AdvanceInv(ReleaseStage(GiveUpStage(RetryStage(l))));
  }

  /** With nothing in flight, nothing is retransmitted or given up. */
  lemma IdleStages(l: Link)
    requires Inv(l) && l.q != [] && l.q[0].submitted.None?
    ensures GiveUpStage(RetryStage(l)) == l && Waiting(l.q[0])
  {
    hide Elapsed, Resends, Retried, Exhausted, Hand, Attempts;
    RetryTouchesHeadOnly(l);
    WaitingIsLeftAlone(l.q[0], l.now);
    HandNone(l);
    assert l.q[0 := l.q[0]] == l.q;
  }

  // ---------------------------------------------------------------- how long a message can stay

  /** Completed ticks after which the newest copy, and after which the first copy of the message
      in flight, were handed over. */
  function LastSubmission(l: Link): nat
    requires |l.subs| > 0
  {
    l.subs[|l.subs| - 1].tick
  }

  function FirstSubmission(l: Link): nat
    requires l.q != [] && |l.subs| > l.q[0].retries
  {
    l.subs[|l.subs| - 1 - l.q[0].retries].tick
  }

  /** The UMAC reports a copy by the d-th end of tick after it was handed over. */
  ghost predicate PromptUmac(l: Link, d: nat) {
    l.umac != [] && |l.subs| > 0 ==> l.tick + 1 - LastSubmission(l) < d
  }

  function Budget(attempts: nat, d: nat): nat {
    attempts * (d + T251)
  }

  lemma BudgetStep(n: nat, d: nat)
    ensures Budget(n + 1, d) == Budget(n, d) + d + T251 && Budget(0, d) == 0
  {
  }

  lemma {:induction false} BudgetGrows(m: nat, n: nat, d: nat)
    requires m <= n
    ensures Budget(m, d) <= Budget(n, d)
    decreases n - m
  {
    if m < n {
      BudgetStep(m, d);
      BudgetGrows(m + 1, n, d);
    }
  }

  /** Every earlier attempt took at most d + T251 ticks; `tick` and `lag` let the same statement
      describe the state inside a tick. */
  ghost predicate Timely(l: Link, d: nat, tick: nat, lag: nat) {
    Current(l.q) != [] ==>
      && |l.subs| > l.q[0].retries
      && LastSubmission(l) <= tick
      && (l.q[0].done.None? ==> tick - LastSubmission(l) <= d - 1)
      && (l.q[0].done.Some? ==> tick - LastSubmission(l) <= d - 1 + Elapsed(l.clock, l.q[0].done.value) + lag)
      && LastSubmission(l) - FirstSubmission(l) <= Budget(l.q[0].retries, d)
  }

  lemma FlightFacts(l: Link)
    requires Inv(l) && Current(l.q) != []
    ensures InFlight(l.q[0], l.clock) && (l.q[0].rep.Pending? ==> l.umac != []) && (l.open ==> l.now == l.clock)
  {
    hide Elapsed, Attempts;
  }

  lemma RetryStageSubs(l: Link)
    ensures l.q != [] && Resends(l.q[0], l.now) ==>
              RetryStage(l).subs == l.subs + [Sub(l.q[0].ssi, l.q[0].serial, l.tick + 1)]
    ensures l.q != [] && !Resends(l.q[0], l.now) ==> RetryStage(l).subs == l.subs
    ensures RetryStage(l).clock == l.clock
  {
    hide Elapsed, Resends;
    if l.q != [] {
      HandOne(l, Retried(l.q[0], l.now));
      HandNone(l);
    }
  }

  lemma RetryFlightTimely(l: Link, l': Link, d: nat)
    requires d > 0 && PromptUmac(l, d) && Timely(l, d, l.tick, 0)
    requires Current(l.q) != [] && InFlight(l.q[0], l.clock) && (l.q[0].rep.Pending? ==> l.umac != [])
    requires l'.q != [] && l'.q[0] == Retried(l.q[0], l.clock) && l'.clock == l.clock
    requires l'.subs == if Resends(l.q[0], l.clock) then l.subs + [Sub(l.q[0].ssi, l.q[0].serial, l.tick + 1)]
      else l.subs
    ensures Timely(l', d, l.tick + 1, 1)
  {
    hide Elapsed, Budget, Retried, Resends;
    RetriedInFlight(l.q[0], l.clock);
    RetriedDone(l.q[0], l.clock);
    BudgetStep(l.q[0].retries, d);
    if Resends(l.q[0], l.clock) {
      assert FirstSubmission(l') == FirstSubmission(l);
    }
  }

  lemma RetryStageTimely(l: Link, d: nat)
    requires Inv(l) && l.open && d > 0 && PromptUmac(l, d) && Timely(l, d, l.tick, 0)
    ensures Timely(RetryStage(l), d, l.tick + 1, 1)
  {
    hide Elapsed, Budget, Attempts, Retried, Resends, Hand, Timely, PromptUmac;
    RetryTouchesHeadOnly(l);
    if Current(l.q) != [] {
      FlightFacts(l);
      RetryStageSubs(l);
      RetryFlightTimely(l, RetryStage(l), d);
    } else {
      IdleTimely(l, d);
    }
  }

  lemma IdleTimely(l: Link, d: nat)
    requires Inv(l) && Current(l.q) == []
    ensures Timely(RetryStage(l), d, l.tick + 1, 1)
  {
    hide Elapsed, Budget, Attempts;
    RetryTouchesHeadOnly(l);
    if l.q != [] {
      WaitingIsLeftAlone(l.q[0], l.now);
    }
  }

  /** What a round of the loop does to the done mark. */
  lemma RetriedDone(e: E, clock: Time)
    requires InFlight(e, clock)
    ensures Resends(e, clock) ==> Retried(e, clock).done.None? && e.done.Some? && Elapsed(clock, e.done.value) == T251
    ensures !Resends(e, clock) && e.done.Some? ==> Retried(e, clock).done == e.done
    ensures !Resends(e, clock) && e.done.None? && !e.rep.Pending? ==> Retried(e, clock).done == Some(clock)
    ensures !Resends(e, clock) && e.done.None? && e.rep.Pending? ==> Retried(e, clock).done.None?
    ensures Elapsed(clock, clock) == 0
  {
    TimesOutExactlyAtT251(e, clock);
    ElapsedSelf(clock);
  }

  lemma ReleaseStageTimely(l: Link, d: nat, tick: nat)
    requires Inv(l) && d > 0 && tick == l.tick + 1 && Timely(l, d, tick, 1)
    ensures Timely(ReleaseStage(l), d, tick, 1)
  {
    hide Elapsed, Tick, SlotOf, Budget, Attempts;
    if HeadReleased(l) != [] {
      HandOne(l, Submit(l.q[0], l.now));
      BudgetStep(0, d);
    }
  }

  lemma GiveUpStageTimely(l: Link, d: nat, tick: nat)
    requires Inv(l) && Timely(l, d, tick, 1)
    requires l.q != [] && Exhausted(l.q[0], l.now) ==> Current(l.q) != [] && !l.q[0].rep.Pending?
    ensures Timely(GiveUpStage(l), d, tick, 1)
  {
    hide Elapsed, Tick, SlotOf, Budget, Attempts;
    if l.q != [] && Exhausted(l.q[0], l.now) {
      PopInv(l, GivenUp(l.q[0]).rep);
    }
  }

  lemma AdvanceTimely(l: Link, d: nat)
    requires Inv(l) && Settled(l) && Timely(l, d, l.tick + 1, 1)
    ensures Timely(Advance(l), d, l.tick + 1, 0)
  {
    hide Elapsed, Tick, SlotOf, Budget, Attempts;
    if Current(l.q) != [] && l.q[0].done.Some? {
      ElapsedTick(l.clock, l.q[0].done.value);
    }
  }

  lemma TickEndTimely(l: Link, d: nat)
    requires Inv(l) && l.open && d > 0 && PromptUmac(l, d) && Timely(l, d, l.tick, 0)
    ensures Timely(TickEnd(l), d, l.tick + 1, 0)
  {
    hide Elapsed, Tick, SlotOf, Inv, Timely, Settled, Exhausted, Attempts;
    var l1 := RetryStage(l);
    RetryStageInv(l);
    RetryStageTimely(l, d);
    GiveUpStageInv(l1);
    GiveUpStageTimely(l1, d, l.tick + 1);
    ReleaseStageInv(GiveUpStage(l1));
    ReleaseStageTimely(GiveUpStage(l1), d, l.tick + 1);
    AdvanceTimely(ReleaseStage(GiveUpStage(l1)), d);
  }

  lemma OtherStepsTimely(l: Link, d: nat, e: E, carrier: int, nr: Bit, i: nat, to: TxState)
    requires Inv(l) && Timely(l, d, l.tick, 0)
    ensures Waiting(e) ==> Timely(Request(l, e), d, l.tick, 0)
    ensures Timely(Ack(l, carrier, nr), d, l.tick, 0)
    ensures i < |l.umac| && (to.Transmitted? || to.Discarded?) ==> Timely(Mark(l, i, to), d, l.tick, 0)
    ensures Timely(TickStart(l), d, l.tick, 0)
  {
    hide Elapsed, Budget, Attempts, Mark;
    if Completes(l, carrier, nr) {
      PopInv(l, if l.q[0].rep.Transmitted? then Acknowledged else Discarded);
    }
    if i < |l.umac| && (to.Transmitted? || to.Discarded?) {
      MarkInv(l, i, to);
    }
  }

  /** The message in flight was first handed over less than (1 + N252) * (d + T251) ticks ago,
      and its copies are the last 1 + retries of the submission log. */
  lemma FlightBound(l: Link, d: nat)
    requires Inv(l) && d > 0 && Timely(l, d, l.tick, 0) && Current(l.q) != []
    ensures l.q[0].retries <= N252
    ensures |l.subs| > l.q[0].retries
    ensures forall j :: |l.subs| - 1 - l.q[0].retries <= j < |l.subs| ==> l.subs[j].serial == l.q[0].serial
    ensures l.tick - FirstSubmission(l) < Budget(1 + N252, d)
  {
    hide Elapsed, Attempts, Budget;
    var e := l.q[0];
    AttemptsSnoc(l.fin, e);
    assert SubSerials(l.subs) == Attempts(l.fin) + Repeat(e.serial, 1 + e.retries);
    forall j | |l.subs| - 1 - e.retries <= j < |l.subs| ensures l.subs[j].serial == e.serial {
      assert SubSerials(l.subs)[j] == l.subs[j].serial;
    }
    BudgetGrows(e.retries, N252, d);
    BudgetStep(N252, d);
  }

  /** No step but a request changes the number of messages ever accepted. */
  lemma StepLengths(l: Link, carrier: int, nr: Bit)
    ensures |TickEnd(l).fin| + |TickEnd(l).q| == |l.fin| + |l.q|
    ensures |Ack(l, carrier, nr).fin| + |Ack(l, carrier, nr).q| == |l.fin| + |l.q|
  {
    hide Elapsed, Tick, SlotOf, Retried, Resends, Exhausted, Submit;
  }
}
