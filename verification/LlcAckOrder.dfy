/** In which order acknowledgements are handed to the UMAC. Received numbers of one SSI and carrier
    are counted 0, 1, 2, ..; the theorem says exactly when they are handed down in that order. */
module LlcAckOrder {
  import opened Wrappers
  import opened Tdma
  import opened Links
  import opened TxReceipt
  import opened LlcModel
  import opened LlcSystem
  import opened LlcAir
  import opened LlcAcks
  import T = LlcTheorems
  import L = LlcLink

  // ---------------------------------------------------------------- sequences of counts

  predicate Ascending(s: seq<nat>) {
    forall i, j :: 0 <= i < j < |s| ==> s[i] < s[j]
  }

  predicate NoRepeats(s: seq<nat>) {
    forall i, j :: 0 <= i < j < |s| ==> s[i] != s[j]
  }

  /** s is n, n + 1, n + 2, .. */
  predicate CountsFrom(s: seq<nat>, n: nat) {
    forall i :: 0 <= i < |s| ==> s[i] == n + i
  }

  /** Of the first b numbers each is exactly one of: handed down, waiting in the message queue,
      waiting in the unacknowledged queue. */
  ghost predicate Placed(h: seq<nat>, w: seq<nat>, u: seq<nat>, b: nat) {
    && (forall x: nat :: x < b <==> x in h || x in w || x in u)
    && (forall x: nat :: x in h ==> x !in w && x !in u)
    && (forall x: nat :: x in w ==> x !in u)
    && NoRepeats(h) && Ascending(w) && Ascending(u)
  }

  lemma PlacedWaiting(h: seq<nat>, w: seq<nat>, u: seq<nat>, b: nat)
    requires Placed(h, w, u, b)
    ensures Placed(h, w + [b], u, b + 1)
  {
    forall i | 0 <= i < |w| ensures w[i] < b {
      assert w[i] in w;
    }
    forall x: nat ensures x < b + 1 <==> x in h || x in w + [b] || x in u {
      assert x in w + [b] <==> x in w || x == b;
    }
  }

  lemma PlacedPayload(h: seq<nat>, w: seq<nat>, u: seq<nat>, b: nat)
    requires Placed(h, w, u, b)
    ensures Placed(h, w, u + [b], b + 1)
  {
    forall i | 0 <= i < |u| ensures u[i] < b {
      assert u[i] in u;
    }
    forall x: nat ensures x < b + 1 <==> x in h || x in w || x in u + [b] {
      assert x in u + [b] <==> x in u || x == b;
    }
  }

  /** The end of a tick: a goes down from the message queue and r stays, then the replies o, then u. */
  lemma PlacedTick(h: seq<nat>, a: seq<nat>, r: seq<nat>, o: seq<nat>, u: seq<nat>, b: nat)
    requires Placed(h, a + r, u, b) && CountsFrom(o, b)
    ensures Placed(h + (a + o + u), r, [], b + |o|)
  {
    var g := h + (a + o + u);
    forall x: nat ensures x in g <==> x in h || x in a || x in o || x in u {
    }
    forall x: nat ensures x in o <==> b <= x < b + |o| {
      if b <= x < b + |o| {
        assert o[x - b] == x;
      }
    }
    forall x: nat ensures x in a + r <==> x in a || x in r {
    }
    SplitAscending(a, r);
    TickNoRepeats(h, a, r, o, u, b);
  }

  lemma SplitAscending(a: seq<nat>, r: seq<nat>)
    requires Ascending(a + r)
    ensures Ascending(a) && Ascending(r) && forall i, j :: 0 <= i < |a| && 0 <= j < |r| ==> a[i] < r[j]
  {
    var w := a + r;
    assert forall i :: 0 <= i < |a| ==> w[i] == a[i];
    assert forall j :: 0 <= j < |r| ==> w[|a| + j] == r[j];
  }

  lemma TickNoRepeats(h: seq<nat>, a: seq<nat>, r: seq<nat>, o: seq<nat>, u: seq<nat>, b: nat)
    requires Placed(h, a + r, u, b) && CountsFrom(o, b) && Ascending(a)
    ensures NoRepeats(h + (a + o + u))
  {
    assert forall x: nat :: x in a ==> x in a + r;
    ApartNoRepeats(a, o);
    ApartNoRepeats(a + o, u);
    ApartNoRepeats(h, a + o + u);
  }

  lemma ApartNoRepeats(s: seq<nat>, t: seq<nat>)
    requires NoRepeats(s) && NoRepeats(t) && forall x: nat :: x in s ==> x !in t
    ensures NoRepeats(s + t)
  {
    var w := s + t;
    forall i, j | 0 <= i < j < |w| ensures w[i] != w[j] {
      if i < |s| && j >= |s| {
        assert s[i] in s && t[j - |s|] in t;
      }
    }
  }

  /** Nothing built earlier is overtaken: if replies go down, no other number is left behind or follows
      them; the released message goes before the payloads, and these before what stays. */
  predicate NoOvertaking(a: seq<nat>, r: seq<nat>, o: seq<nat>, u: seq<nat>) {
    && (o != [] ==> u == [] && r == [])
    && (forall i, j :: 0 <= i < |a| && 0 <= j < |u| ==> a[i] < u[j])
    && (forall i, j :: 0 <= i < |u| && 0 <= j < |r| ==> u[i] < r[j])
  }

  /** An ascending part of an interval, all below the rest of it, is its beginning. */
  lemma {:induction false} Beginning(s: seq<nat>, r: seq<nat>, n: nat, m: nat)
    requires Ascending(s) && (forall x: nat :: n <= x < m <==> x in s || x in r)
    requires forall i, j :: 0 <= i < |s| && 0 <= j < |r| ==> s[i] < r[j]
    ensures CountsFrom(s, n)
  {
    if s != [] {
      var t := s[1..];
      assert s == [s[0]] + t;
      forall x: nat | x in r ensures x > s[0] {
        var j :| 0 <= j < |r| && r[j] == x;
      }
      forall x: nat | x in t ensures x > s[0] {
        var j :| 0 <= j < |t| && t[j] == x;
        assert s[j + 1] == x;
      }
      assert s[0] in s;
      assert n in s || n in r;
      assert s[0] == n;
      forall i, j | 0 <= i < |t| && 0 <= j < |r| ensures t[i] < r[j] {
        assert s[i + 1] < r[j];
      }
      forall x: nat ensures n + 1 <= x < m <==> x in t || x in r {
        assert x in s <==> x == s[0] || x in t;
      }
      Beginning(t, r, n + 1, m);
    }
  }

  /** Handing down in order, one tick further: exactly when nothing is overtaken. */
  lemma OrderOneTick(h: seq<nat>, a: seq<nat>, r: seq<nat>, o: seq<nat>, u: seq<nat>, b: nat)
    requires Placed(h, a + r, u, b) && CountsFrom(o, b) && CountsFrom(h, 0)
    ensures CountsFrom(h + (a + o + u), 0) <==> NoOvertaking(a, r, o, u)
  {
    if NoOvertaking(a, r, o, u) {
      InOrder(h, a, r, o, u, b);
    }
    if CountsFrom(h + (a + o + u), 0) {
      NothingOvertaken(h, a, r, o, u, b);
    }
  }

  lemma InOrder(h: seq<nat>, a: seq<nat>, r: seq<nat>, o: seq<nat>, u: seq<nat>, b: nat)
    requires Placed(h, a + r, u, b) && CountsFrom(o, b) && CountsFrom(h, 0) && NoOvertaking(a, r, o, u)
    ensures CountsFrom(h + (a + o + u), 0)
  {
    hide Placed;
    var g := a + o + u;
    PlacedTick(h, a, r, o, u, b);
    PlacedFacts(h, a + r, u, b);
    SplitAscending(a, r);
    forall i | 0 <= i < |a| ensures a[i] < b {
      assert (a + r)[i] == a[i];
    }
    assert Ascending(g);
    forall i, j | 0 <= i < |g| && 0 <= j < |r| ensures g[i] < r[j] {
    }
    RemainingInterval(h, g, r, b + |o|);
    Beginning(g, r, |h|, b + |o|);
  }

  lemma PlacedFacts(h: seq<nat>, w: seq<nat>, u: seq<nat>, b: nat)
    requires Placed(h, w, u, b)
    ensures Ascending(w) && Ascending(u)
    ensures forall i :: 0 <= i < |w| ==> w[i] < b && w[i] !in h && w[i] !in u
    ensures forall i :: 0 <= i < |u| ==> u[i] < b && u[i] !in h
  {
    forall i | 0 <= i < |w| ensures w[i] < b && w[i] !in h && w[i] !in u {
      assert w[i] in w;
    }
    forall i | 0 <= i < |u| ensures u[i] < b && u[i] !in h {
      assert u[i] in u;
    }
  }

  /** What is not among the first numbers handed down is the interval above them. */
  lemma RemainingInterval(h: seq<nat>, g: seq<nat>, r: seq<nat>, m: nat)
    requires CountsFrom(h, 0) && Placed(h + g, r, [], m)
    ensures forall x: nat :: |h| <= x < m <==> x in g || x in r
  {
    assert forall x: nat :: x in h + g <==> x in h || x in g;
    forall x: nat ensures x in h <==> x < |h| {
      if x < |h| {
        assert h[x] == x;
      }
    }
    PartsApart(h, g);
  }

  lemma PartsApart(h: seq<nat>, g: seq<nat>)
    requires NoRepeats(h + g)
    ensures forall x :: x in g ==> x !in h
  {
    forall i, j | 0 <= i < |h| && 0 <= j < |g| ensures h[i] != g[j] {
      assert (h + g)[i] == h[i] && (h + g)[|h| + j] == g[j];
    }
  }

  lemma CountsContain(s: seq<nat>)
    requires CountsFrom(s, 0)
    ensures forall x: nat :: x < |s| ==> x in s
  {
    forall x: nat | x < |s| ensures x in s {
      assert s[x] == x;
    }
  }

  lemma NothingOvertaken(h: seq<nat>, a: seq<nat>, r: seq<nat>, o: seq<nat>, u: seq<nat>, b: nat)
    requires Placed(h, a + r, u, b) && CountsFrom(o, b) && CountsFrom(h + (a + o + u), 0)
    ensures NoOvertaking(a, r, o, u)
  {
    hide Placed;
    var all := h + (a + o + u);
    var n := |h|;
    PlacedTick(h, a, r, o, u, b);
    PlacedFacts(all, r, [], b + |o|);
    PlacedFacts(h, a + r, u, b);
    CountsContain(all);
    forall i | 0 <= i < |a| ensures a[i] == n + i {
      assert all[n + i] == a[i];
    }
    forall i | 0 <= i < |o| ensures o[i] == n + |a| + i {
      assert all[n + |a| + i] == o[i];
    }
    forall i | 0 <= i < |u| ensures u[i] == n + |a| + |o| + i {
      assert all[n + |a| + |o| + i] == u[i];
    }
    forall j | 0 <= j < |r| ensures r[j] >= |all| && r[j] < b {
      assert (a + r)[|a| + j] == r[j];
      assert r[j] !in all;
    }
    assert o != [] ==> o[0] == b && n + |a| == b;
    assert u != [] ==> u[0] < b;
    assert r != [] ==> |all| <= r[0] < b;
  }

  // ---------------------------------------------------------------- where the numbers are

  /** The counts of the numbers for one SSI and carrier. */
  function Counts(q: seq<Owed>, k: (int, int)): seq<nat> {
    Map((o: Owed) => o.ord, Sel(OwedKey, q, k))
  }

  lemma CountsConcat(a: seq<Owed>, b: seq<Owed>, k: (int, int))
    ensures Counts(a + b, k) == Counts(a, k) + Counts(b, k)
  {
    hide Sel;
    SelConcat(OwedKey, a, b, k);
    MapConcat((o: Owed) => o.ord, Sel(OwedKey, a, k), Sel(OwedKey, b, k));
  }

  lemma CountsNone(k: (int, int))
    ensures Counts([], k) == []
  {
    SelNone(OwedKey, [], k);
  }

  lemma CountsOne(o: Owed, k: (int, int))
    ensures Counts([o], k) == if OwedKey(o) == k then [o.ord] else []
  {
    SelOne(OwedKey, o, k);
  }

  /** The N(R) values of the messages that have not been handed down. */
  function Waiting(q: seq<E>): seq<Owed> {
    if q == [] then []
    else Waiting(q[..|q| - 1]) + if q[|q| - 1].submitted.None? then BuiltBy(q[|q| - 1].msg) else []
  }

  lemma {:induction false} WaitingConcat(a: seq<E>, b: seq<E>)
    ensures Waiting(a + b) == Waiting(a) + Waiting(b)
  {
    if b == [] {
      assert a + b == a;
    } else {
      assert (a + b)[..|a + b| - 1] == a + b[..|b| - 1];
      WaitingConcat(a, b[..|b| - 1]);
    }
  }

  lemma WaitingOne(e: E)
    ensures Waiting([e]) == if e.submitted.None? then BuiltBy(e.msg) else []
  {
    assert [e][..0] == [];
  }

  lemma WaitingHead(q: seq<E>)
    requires q != []
    ensures Waiting(q) == (if q[0].submitted.None? then BuiltBy(q[0].msg) else []) + Waiting(q[1..])
  {
    hide Waiting;
    assert q == [q[0]] + q[1..];
    WaitingConcat([q[0]], q[1..]);
    WaitingOne(q[0]);
  }

  lemma {:induction false} WaitingMap(f: E -> E, q: seq<E>)
    requires forall e: E :: f(e).submitted == e.submitted && f(e).msg == e.msg
    ensures Waiting(Map(f, q)) == Waiting(q)
  {
    if q != [] {
      WaitingMap(f, q[..|q| - 1]);
      assert Map(f, q)[..|q| - 1] == Map(f, q[..|q| - 1]);
    }
  }

  function Handed(y: Sys, k: (int, int)): seq<nat> { Counts(y.handed, k) }
  function Waits(y: Sys, k: (int, int)): seq<nat> { Counts(Waiting(Proj(y, k.0).q), k) }
  function Payloads(y: Sys, k: (int, int)): seq<nat> { Counts(Numbers(y.llc.udata), k) }
  function Built(y: Sys, k: (int, int)): nat { |Sel(OwedKey, y.built, k)| }
  function OwedCounts(y: Sys, k: (int, int)): seq<nat> { Counts(Map(AckOwed, y.llc.acks), k) }

  ghost predicate PlacedOn(y: Sys, k: (int, int)) {
    Placed(Handed(y, k), Waits(y, k), Payloads(y, k), Built(y, k))
  }

  /** The numbers received are counted without gaps. */
  ghost predicate Counted(y: Sys) {
    forall k: (int, int) {:trigger Sel(OwedKey, y.heard, k)} ::
      && |Sel(OwedKey, y.heard, k)| == ReceivedOf(y.llc, k.0, k.1)
      && forall i :: 0 <= i < |Sel(OwedKey, y.heard, k)| ==> Sel(OwedKey, y.heard, k)[i].ord == i
  }

  lemma RxCounted(y: Sys, i: Ind)
    requires Counted(y)
    ensures Counted(Next(y, Rx(i)))
  {
    hide Sel, ProcessAck, UplinkSlot;
    var y' := Next(y, Rx(i));
    forall k: (int, int)
      ensures |Sel(OwedKey, y'.heard, k)| == ReceivedOf(y'.llc, k.0, k.1)
      ensures forall j :: 0 <= j < |Sel(OwedKey, y'.heard, k)| ==> Sel(OwedKey, y'.heard, k)[j].ord == j
    {
      var h := Sel(OwedKey, y.heard, k);
      assert |h| == ReceivedOf(y.llc, k.0, k.1);
      SelConcat(OwedKey, y.heard, Heard(y.llc, i), k);
      SelNone(OwedKey, [], k);
      if Heard(y.llc, i) != [] {
        SelOne(OwedKey, Heard(y.llc, i)[0], k);
        assert Heard(y.llc, i) == [Heard(y.llc, i)[0]];
      }
    }
  }

  lemma NextCounted(y: Sys, ev: Event)
    requires Counted(y) && Enabled(y, ev)
    ensures Counted(Next(y, ev))
  {
    hide Sel, GiveUp, FreePass, Resent, Released, RetryPass, ExhaustedKeys, ProcessAck, TakeAck, Numbers;
    if ev.Rx? {
      RxCounted(y, ev.i);
    } else {
      assert Next(y, ev).heard == y.heard && Next(y, ev).llc.received == y.llc.received;
    }
  }

  /** The numbers still owed are counted on from those placed in PDUs. */
  lemma OwedFollowBuilt(y: Sys, k: (int, int))
    requires Counted(y) && OwedInv(y)
    ensures CountsFrom(OwedCounts(y, k), Built(y, k))
  {
    hide Sel;
    var h := Sel(OwedKey, y.heard, k);
    assert h == Sel(OwedKey, y.built, k) + Sel(OwedKey, Map(AckOwed, y.llc.acks), k);
    forall i | 0 <= i < |OwedCounts(y, k)| ensures OwedCounts(y, k)[i] == Built(y, k) + i {
      assert h[Built(y, k) + i].ord == Built(y, k) + i;
    }
  }

  // requests

  /** The acknowledgement a request takes along is the next one to be built. */
  lemma TakenIsNext(y: Sys, ssi: int, carrier: int)
    requires Counted(y) && OwedInv(y) && TakeAck(y.llc.acks, ssi, carrier).0.Some?
    ensures TakeAck(y.llc.acks, ssi, carrier).0.value.ord == Built(y, (ssi, carrier))
  {
    hide Sel, TakeAck;
    OwedFollowBuilt(y, (ssi, carrier));
    TakeAckOnKey(y.llc.acks, ssi, carrier, (ssi, carrier));
    var c := OwedCounts(y, (ssi, carrier));
    assert c[0] == Built(y, (ssi, carrier));
  }

  lemma DataPduNumbers(r: Req, c: int, ns: Bit, serial: nat, ack: Option<OutAck>)
    requires ack.Some? ==> ack.value.ssi == r.ssi && ack.value.carrier == c
    ensures BuiltBy(DataPdu(r, c, ns, serial, ack)) == if ack.Some? then [AckOwed(ack.value)] else []
  {
  }

  lemma NumbersSnoc(ms: seq<Msg>, m: Msg)
    ensures Numbers(ms + [m]) == Numbers(ms) + BuiltBy(m)
  {
    assert (ms + [m])[..|ms + [m]| - 1] == ms;
  }

  lemma WaitingSnoc(q: seq<E>, e: E)
    requires e.submitted.None?
    ensures Waiting(q + [e]) == Waiting(q) + BuiltBy(e.msg)
  {
    assert (q + [e])[..|q + [e]| - 1] == q;
  }

  /** A number that a request places goes behind those already waiting in the same queue. */
  lemma RequestWaits(y: Sys, r: Req, k: (int, int))
    requires Queues(r)
    ensures var y' := Next(y, DataRequest(r));
            var c := Carrier(y.llc, r);
            var ack := TakeAck(y.llc.acks, r.ssi, c).0;
            && Payloads(y', k) == Payloads(y, k) && Handed(y', k) == Handed(y, k)
            && Waits(y', k) == Waits(y, k) + if ack.Some? && k == (r.ssi, c) then [ack.value.ord] else []
  {
    hide Sel, Waiting, TakeAck, Counts, Numbers, BuiltBy, NewPdus;
    var y' := Next(y, DataRequest(r));
    var c := Carrier(y.llc, r);
    var ack := TakeAck(y.llc.acks, r.ssi, c).0;
    TakeAckFacts(y.llc.acks, r.ssi, c);
    RequestRefines(y, r, k.0);
    assert Waits(y, k) + [] == Waits(y, k);
    if k.0 == r.ssi {
      var e := y'.llc.queue[|y.llc.queue|];
      WaitingSnoc(Proj(y, k.0).q, e);
      DataPduNumbers(r, c, VsOf(y.llc, r.ssi), AcceptedOf(y.llc, r.ssi), ack);
      CountsConcat(Waiting(Proj(y, k.0).q), BuiltBy(e.msg), k);
      CountsNone(k);
      if ack.Some? {
        CountsOne(AckOwed(ack.value), k);
      }
    }
  }

  lemma RequestPays(y: Sys, r: Req, k: (int, int))
    requires !Queues(r)
    ensures var y' := Next(y, DataRequest(r));
            var c := Carrier(y.llc, r);
            var ack := TakeAck(y.llc.acks, r.ssi, c).0;
            && Waits(y', k) == Waits(y, k) && Handed(y', k) == Handed(y, k)
            && Payloads(y', k) == Payloads(y, k) + if r.stealing && ack.Some? && k == (r.ssi, c) then [ack.value.ord]
                else []
  {
    hide Sel, Waiting, TakeAck, Counts, Numbers, NewPdus;
    var y' := Next(y, DataRequest(r));
    var c := Carrier(y.llc, r);
    var ack := TakeAck(y.llc.acks, r.ssi, c).0;
    TakeAckFacts(y.llc.acks, r.ssi, c);
    RequestRefines(y, r, k.0);
    var m := y'.llc.udata[|y.llc.udata|];
    assert y'.llc.udata == y.llc.udata + [m];
    NumbersSnoc(y.llc.udata, m);
    CountsConcat(Numbers(y.llc.udata), BuiltBy(m), k);
    CountsNone(k);
    assert Payloads(y, k) + [] == Payloads(y, k);
    if r.stealing && ack.Some? {
      CountsOne(AckOwed(ack.value), k);
    }
  }

  lemma RequestPlaced(y: Sys, r: Req, k: (int, int))
    requires Counted(y) && OwedInv(y) && PlacedOn(y, k)
    ensures PlacedOn(Next(y, DataRequest(r)), k)
  {
    hide Sel, TakeAck, Counts, Next, Placed, Waits, Payloads, Handed, Counted, OwedInv;
    var c := Carrier(y.llc, r);
    var (ack, rest) := TakeAck(y.llc.acks, r.ssi, c);
    RequestBuilds(y, r);
    if Queues(r) {
      RequestWaits(y, r, k);
    } else {
      RequestPays(y, r, k);
    }
    assert Waits(y, k) + [] == Waits(y, k) && Payloads(y, k) + [] == Payloads(y, k);
    if ack.Some? && (r.stealing || !r.group) {
      var o := AckOwed(ack.value);
      TakeAckFacts(y.llc.acks, r.ssi, c);
      SelConcat(OwedKey, y.built, [o], k);
      SelOne(OwedKey, o, k);
      if k == (r.ssi, c) {
        TakenIsNext(y, r.ssi, c);
        PlacedWaiting(Handed(y, k), Waits(y, k), Payloads(y, k), Built(y, k));
        PlacedPayload(Handed(y, k), Waits(y, k), Payloads(y, k), Built(y, k));
      }
    }
  }

  // received PDUs and marks

  lemma RxPlaced(y: Sys, i: Ind, k: (int, int))
    requires Inv(y) && PlacedOn(y, k)
    ensures PlacedOn(Next(y, Rx(i)), k)
  {
    hide Sel, Waiting, Counts, Placed, L.Inv, Inv, ProcessAck;
    RxRefines(y, i, k.0);
    var l := Proj(y, k.0);
    var l' := Proj(Next(y, Rx(i)), k.0);
    if l'.q != l.q {
      WaitingHead(l.q);
      assert l'.q == l.q[1..] && [] + Waiting(l.q[1..]) == Waiting(l.q[1..]);
    }
    assert Waiting(l'.q) == Waiting(l.q);
    assert Next(y, Rx(i)).llc.udata == y.llc.udata;
  }

  lemma MarkPlaced(y: Sys, j: nat, to: TxState, k: (int, int))
    requires Inv(y) && j < |y.umac| && (to.Transmitted? || to.Discarded?) && PlacedOn(y, k)
    ensures PlacedOn(Next(y, UmacMark(j, to)), k)
  {
    hide Sel, Waiting, Counts, Placed, L.Inv, Inv;
    MarkRefines(y, j, to, k.0);
    var l := Proj(y, k.0);
    var i := |Sel(CopySsi, y.umac[..j], k.0)|;
    if k.0 == y.umac[j].ssi && i < |l.umac| {
      WaitingMap((e: E) => L.Marked(e, l.umac[i], to), l.q);
    }
  }

  // the end of a tick

  lemma {:induction false} NumbersConcat(a: seq<Msg>, b: seq<Msg>)
    ensures Numbers(a + b) == Numbers(a) + Numbers(b)
  {
    if b == [] {
      assert a + b == a;
    } else {
      assert (a + b)[..|a + b| - 1] == a + b[..|b| - 1];
      NumbersConcat(a, b[..|b| - 1]);
    }
  }

  /** The numbers of one SSI are those of its messages. */
  lemma {:induction false} NumbersOnLink(q: seq<E>, k: (int, int))
    requires AllWell(q)
    ensures Counts(Numbers(Copies(q)), k) == Counts(Numbers(Copies(Sel(EntrySsi, q, k.0))), k)
  {
    hide Counts, Numbers, Copies, BuiltBy;
    if q != [] {
      var n := |q| - 1;
      var p, e := q[..n], q[n];
      NumbersOnLink(p, k);
      CopiesSnoc(p, e);
      CopiesSnoc(Sel(EntrySsi, p, k.0), e);
      assert q == p + [e];
      assert WellNumbered(e);
      CountsConcat(Numbers(Copies(p)), BuiltBy(e.msg), k);
      CountsConcat(Numbers(Copies(Sel(EntrySsi, p, k.0))), BuiltBy(e.msg), k);
      CountsElsewhere(e.msg, k);
      var c := Counts(Numbers(Copies(p)), k);
      assert c + [] == c;
      assert Sel(EntrySsi, q, k.0) == if e.ssi == k.0 then Sel(EntrySsi, p, k.0) + [e] else Sel(EntrySsi, p, k.0);
    }
  }

  lemma CopiesSnoc(q: seq<E>, e: E)
    ensures Numbers(Copies(q + [e])) == Numbers(Copies(q)) + BuiltBy(e.msg)
  {
    hide Numbers, BuiltBy;
    assert Copies(q + [e]) == Copies(q) + [e.msg];
    NumbersSnoc(Copies(q), e.msg);
  }

  lemma CountsElsewhere(m: Msg, k: (int, int))
    ensures m.ssi != k.0 ==> Counts(BuiltBy(m), k) == []
  {
    CountsNone(k);
    if BuiltBy(m) != [] {
      CountsOne(BuiltBy(m)[0], k);
      assert BuiltBy(m) == [BuiltBy(m)[0]];
    }
  }

  /** Retransmissions and give-ups touch only messages already handed down. */
  lemma StagesKeepWaiting(l: L.Link)
    requires L.Inv(l) && l.open
    ensures Waiting(L.GiveUpStage(L.RetryStage(l)).q) == Waiting(l.q)
  {
    hide Elapsed, Tick, SlotOf, L.Attempts, Waiting, Resends, Retried, Exhausted, BuiltBy;
    if l.q != [] {
      var e := Retried(l.q[0], l.now);
      var l1 := L.RetryStage(l);
      L.RetryTouchesHeadOnly(l);
      L.RetryStageInv(l);
      L.RetriedKeeps(l.q[0], l.now);
      assert l1.q == l.q[0 := e] && l1.q[1..] == l.q[1..];
      WaitingHead(l.q);
      WaitingHead(l1.q);
      if L.Waiting(l.q[0]) {
        L.WaitingIsLeftAlone(l.q[0], l.now);
      } else {
        L.RetriedInFlight(l.q[0], l.now);
      }
      StageFrame(l);
    } else {
      assert L.RetryStage(l).q == [];
    }
  }

  lemma ReleaseSplitsWaiting(l: L.Link)
    ensures Waiting(l.q) == Numbers(Copies(L.HeadReleased(l))) + Waiting(L.ReleaseStage(l).q)
  {
    hide Elapsed, SlotOf, Waiting, BuiltBy;
    if L.HeadReleased(l) != [] {
      var e := L.HeadReleased(l)[0];
      WaitingHead(l.q);
      WaitingHead([e] + l.q[1..]);
      assert ([e] + l.q[1..])[1..] == l.q[1..];
      CopiesSnoc([], e);
      assert [] + [e] == [e];
    }
  }

  /** The numbers that go down with a released message. */
  function Leaving(y: Sys, k: (int, int)): seq<nat> {
    Counts(Numbers(Copies(TickEnd(y.llc).released)), k)
  }

  lemma TickWaits(y: Sys, k: (int, int))
    requires Inv(y) && Labelled(y) && y.open
    ensures Waits(y, k) == Leaving(y, k) + Waits(Next(y, EndTick), k)
  {
    hide Elapsed, Tick, SlotOf, Sel, Waiting, Counts, L.Inv, Next, TickEnd, L.HeadReleased, L.RetryStage, L.GiveUpStage,
      L.ReleaseStage, Numbers, Copies, AllWell;
    var s := k.0;
    var l := Proj(y, s);
    assert L.Inv(l);
    hide Inv;
    var l2 := L.GiveUpStage(L.RetryStage(l));
    T.Refines(y, EndTick, s);
    TickQueueOnLink(y, s);
    TickWell(y.llc);
    NumbersOnLink(TickEnd(y.llc).released, k);
    StagesKeepWaiting(l);
    ReleaseSplitsWaiting(l2);
    CountsConcat(Numbers(Copies(L.HeadReleased(l2))), Waiting(L.ReleaseStage(l2).q), k);
  }

  lemma TickHanded(y: Sys, k: (int, int))
    requires y.open
    ensures var y' := Next(y, EndTick);
            && Handed(y', k) == Handed(y, k) + (Leaving(y, k) + OwedCounts(y, k) + Payloads(y, k))
            && Payloads(y', k) == [] && Built(y', k) == Built(y, k) + |OwedCounts(y, k)|
  {
    hide Sel, Counts, TickEnd, Numbers, Copies, Map;
    var rel, acks, ud := Copies(TickEnd(y.llc).released), Map(AckReply, y.llc.acks), y.llc.udata;
    RepliesCarryTheOwed(y.llc.acks);
    NumbersConcat(rel + acks, ud);
    NumbersConcat(rel, acks);
    CountsConcat(y.handed, Numbers(rel + acks + ud), k);
    CountsConcat(Numbers(rel) + Numbers(acks), Numbers(ud), k);
    CountsConcat(Numbers(rel), Numbers(acks), k);
    TickEmpties(y, k);
    BuiltMore(y.built, Map(AckOwed, y.llc.acks), k);
  }

  lemma TickEmpties(y: Sys, k: (int, int))
    requires y.open
    ensures Payloads(Next(y, EndTick), k) == []
  {
    hide Sel, GiveUp, FreePass, Resent, Released, RetryPass, ExhaustedKeys;
    CountsNone(k);
  }

  lemma BuiltMore(a: seq<Owed>, b: seq<Owed>, k: (int, int))
    ensures |Sel(OwedKey, a + b, k)| == |Sel(OwedKey, a, k)| + |Counts(b, k)|
  {
    hide Sel;
    SelConcat(OwedKey, a, b, k);
  }

  lemma TickPlaced(y: Sys, k: (int, int))
    requires Inv(y) && Labelled(y) && Counted(y) && OwedInv(y) && PlacedOn(y, k) && y.open
    ensures PlacedOn(Next(y, EndTick), k)
  {
    hide Inv, Labelled, Counted, OwedInv, Placed, Next, Waits, Payloads, Handed, Built, OwedCounts, Leaving;
    TickWaits(y, k);
    TickHanded(y, k);
    OwedFollowBuilt(y, k);
    PlacedTick(Handed(y, k), Leaving(y, k), Waits(Next(y, EndTick), k), OwedCounts(y, k), Payloads(y, k), Built(y, k));
  }

  // ---------------------------------------------------------------- every run

  ghost predicate Good(y: Sys, k: (int, int)) {
    Inv(y) && Labelled(y) && OwedInv(y) && Counted(y) && PlacedOn(y, k)
  }

  lemma NextGood(y: Sys, ev: Event, k: (int, int))
    requires Good(y, k) && Enabled(y, ev)
    ensures Good(Next(y, ev), k)
  {
    hide Inv, Labelled, OwedInv, Counted, Next, PlacedOn;
    T.NextInv(y, ev);
    NextLabelled(y, ev);
    NextOwed(y, ev);
    NextCounted(y, ev);
    match ev
    case DataRequest(r) => RequestPlaced(y, r, k);
    case UnitdataRequest(r) => UnitdataPlaced(y, r, k);
    case Rx(i) => RxPlaced(y, i, k);
    case UmacMark(j, to) => MarkPlaced(y, j, to, k);
    case StartTick => StartPlaced(y, k);
    case EndTick => TickPlaced(y, k);
  }

  lemma UnitdataPlaced(y: Sys, r: Req, k: (int, int))
    requires PlacedOn(y, k)
    ensures PlacedOn(Next(y, UnitdataRequest(r)), k)
  {
    hide Sel, Waiting, Counts, Placed, Numbers;
    RequestRefines(y, r, k.0);
    var m := Msg(r.ssi, Carrier(y.llc, r), BlUdata, r.sdu, r.stealing, r.link, None, None);
    NumbersSnoc(y.llc.udata, m);
    assert Numbers(y.llc.udata) + [] == Numbers(y.llc.udata);
  }

  lemma StartPlaced(y: Sys, k: (int, int))
    requires PlacedOn(y, k) && !y.open
    ensures PlacedOn(Next(y, StartTick), k)
  {
    hide Placed;
  }

  lemma StartGood(main: int, clock: Time, k: (int, int))
    ensures Good(T.Start(main, clock), k)
  {
    T.StartInv(main, clock);
    var y := T.Start(main, clock);
    forall j: (int, int) ensures Sel(OwedKey, [], j) == [] {
      SelNone(OwedKey, [], j);
    }
    CountsNone(k);
    SelEmpty(k.0);
  }

  lemma {:induction false} RunGood(main: int, clock: Time, evs: seq<Event>, k: (int, int))
    ensures Good(T.After(T.Start(main, clock), evs), k)
  {
    hide Good, Next;
    if evs == [] {
      StartGood(main, clock, k);
    } else {
      var n := |evs| - 1;
      RunGood(main, clock, evs[..n], k);
      var p := T.After(T.Start(main, clock), evs[..n]);
      if Enabled(p, evs[n]) {
        NextGood(p, evs[n], k);
      }
    }
  }

  /** Over every run each number received on an SSI and carrier is, exactly once, in one of four places:
      handed to the UMAC, riding on a queued message, riding on a queued payload, still owed. */
  lemma NumbersConserved(main: int, clock: Time, evs: seq<Event>, k: (int, int))
    ensures var y := T.After(T.Start(main, clock), evs);
            && Placed(Handed(y, k), Waits(y, k), Payloads(y, k), Built(y, k))
            && CountsFrom(OwedCounts(y, k), Built(y, k))
            && Built(y, k) + |OwedCounts(y, k)| == ReceivedOf(y.llc, k.0, k.1)
  {
    hide T.After, Sel, Placed, Inv, Labelled;
    RunGood(main, clock, evs, k);
    var y := T.After(T.Start(main, clock), evs);
    OwedFollowBuilt(y, k);
    assert Sel(OwedKey, y.heard, k) == Sel(OwedKey, y.built, k) + Sel(OwedKey, Map(AckOwed, y.llc.acks), k);
  }

  /** The message of a link that the end of this tick hands down for the first time: the first one,
      or the one behind a message that is given up. */
  function NextUp(l: L.Link): seq<E> {
    if l.q == [] then []
    else if l.q[0].submitted.None? then [l.q[0]]
    else if Exhausted(l.q[0], l.now) && |l.q| > 1 then [l.q[1]]
    else []
  }

  /** The numbers riding on it, and those on the messages that go on waiting. */
  function Riding(y: Sys, k: (int, int)): seq<nat> {
    Counts(Numbers(Copies(NextUp(Proj(y, k.0)))), k)
  }

  function Staying(y: Sys, k: (int, int)): seq<nat> {
    if |Riding(y, k)| <= |Waits(y, k)| then Waits(y, k)[|Riding(y, k)|..] else []
  }

  lemma RidingLeave(y: Sys, k: (int, int))
    requires Inv(y) && Labelled(y) && y.open
    ensures Leaving(y, k) == Riding(y, k) && Waits(Next(y, EndTick), k) == Staying(y, k)
  {
    hide Sel, Counts, Next, TickEnd, Numbers, AllWell, L.Inv, Submit, Waits, L.RetryStage, L.GiveUpStage, Exhausted;
    assert L.Inv(Proj(y, k.0));
    TickWaits(y, k);
    TickQueueOnLink(y, k.0);
    TickWell(y.llc);
    NumbersOnLink(TickEnd(y.llc).released, k);
    NextUpIsReleased(Proj(y, k.0));
  }

  lemma NextUpIsReleased(l: L.Link)
    requires L.Inv(l) && l.open
    ensures Copies(L.HeadReleased(L.GiveUpStage(L.RetryStage(l)))) == Copies(NextUp(l))
  {
    hide Elapsed, Tick, SlotOf, L.Attempts, Retried, Resends, Exhausted;
    if l.q != [] && l.q[0].submitted.None? {
      L.IdleStages(l);
    } else if l.q != [] {
      L.RetryTouchesHeadOnly(l);
      L.RetriedInFlight(l.q[0], l.now);
      ExhaustedAfterRetry(l.q[0], l.now);
      StageFrame(l);
    }
  }

  /** The tick that ends now hands the numbers of this SSI and carrier down in order. */
  ghost predicate OrderlyTick(y: Sys, k: (int, int)) {
    NoOvertaking(Riding(y, k), Staying(y, k), OwedCounts(y, k), Payloads(y, k))
  }

  ghost predicate AllOrderly(y: Sys, evs: seq<Event>, k: (int, int)) {
    evs != [] ==>
      var n := |evs| - 1;
      && AllOrderly(y, evs[..n], k)
      && (evs[n].EndTick? && T.After(y, evs[..n]).open ==> OrderlyTick(T.After(y, evs[..n]), k))
  }

  /** The numbers received on an SSI and carrier are handed to the UMAC in the order received if and
      only if no tick of the run lets one overtake another. */
  lemma {:induction false} HandedInOrder(main: int, clock: Time, evs: seq<Event>, k: (int, int))
    ensures var y := T.Start(main, clock);
            CountsFrom(Handed(T.After(y, evs), k), 0) <==> AllOrderly(y, evs, k)
  {
    hide Good, Next, Handed, OrderlyTick;
    var y := T.Start(main, clock);
    if evs == [] {
      NothingHanded(main, clock, k);
    } else {
      var n := |evs| - 1;
      HandedInOrder(main, clock, evs[..n], k);
      RunGood(main, clock, evs[..n], k);
      var p := T.After(y, evs[..n]);
      if Enabled(p, evs[n]) {
        if evs[n].EndTick? {
          TickOrder(p, k);
        } else {
          HandedOnlyAtTicks(p, evs[n], k);
        }
      }
    }
  }

  lemma NothingHanded(main: int, clock: Time, k: (int, int))
    ensures Handed(T.After(T.Start(main, clock), []), k) == []
  {
    CountsNone(k);
  }

  lemma HandedOnlyAtTicks(y: Sys, ev: Event, k: (int, int))
    requires Enabled(y, ev) && !ev.EndTick?
    ensures Handed(Next(y, ev), k) == Handed(y, k)
  {
    hide Counts, ProcessAck, TakeAck;
  }

  lemma TickOrder(y: Sys, k: (int, int))
    requires Good(y, k) && y.open
    ensures CountsFrom(Handed(Next(y, EndTick), k), 0) <==> CountsFrom(Handed(y, k), 0) && OrderlyTick(y, k)
  {
    hide Inv, Labelled, Counted, OwedInv, Placed, Next, Waits, Payloads, Handed, Built, OwedCounts, Leaving,
      NoOvertaking, CountsFrom, Riding, Staying;
    TickWaits(y, k);
    RidingLeave(y, k);
    TickHanded(y, k);
    OwedFollowBuilt(y, k);
    var h, more := Handed(y, k), Leaving(y, k) + OwedCounts(y, k) + Payloads(y, k);
    CountsPrefix(h, more);
    if CountsFrom(h, 0) {
      OrderOneTick(h, Leaving(y, k), Waits(Next(y, EndTick), k), OwedCounts(y, k), Payloads(y, k), Built(y, k));
    }
  }

  lemma CountsPrefix(h: seq<nat>, more: seq<nat>)
    ensures CountsFrom(h + more, 0) ==> CountsFrom(h, 0)
  {
    assert forall i :: 0 <= i < |h| ==> (h + more)[i] == h[i];
  }

  // ---------------------------------------------------------------- repeats

  /** The number riding on a message that has been handed down has been handed down. */
  ghost predicate SubmittedHanded(y: Sys, s: int) {
    var q := Proj(y, s).q;
    forall i :: 0 <= i < |q| && q[i].submitted.Some? ==> forall o :: o in BuiltBy(q[i].msg) ==> o in y.handed
  }

  lemma TickSubmittedHanded(y: Sys, s: int)
    requires Inv(y) && y.open && SubmittedHanded(y, s)
    ensures SubmittedHanded(Next(y, EndTick), s)
  {
    hide Elapsed, Tick, SlotOf, Sel, L.Attempts, Retried, Exhausted, Resends, TickEnd, Numbers, Copies, BuiltBy, L.Inv,
      L.RetryStage, L.GiveUpStage, Submit;
    var l := Proj(y, s);
    assert L.Inv(l);
    hide Inv;
    T.Refines(y, EndTick, s);
    TickQueueOnLink(y, s);
    var l2 := L.GiveUpStage(L.RetryStage(l));
    StagesFromQueue(l);
    ReleasedHanded(y, s);
    var q' := Proj(Next(y, EndTick), s).q;
    forall i | 0 <= i < |q'| && q'[i].submitted.Some?
      ensures forall o :: o in BuiltBy(q'[i].msg) ==> o in Next(y, EndTick).handed
    {
      if L.HeadReleased(l2) != [] && i == 0 {
        assert q'[0] == L.HeadReleased(l2)[0];
      } else {
        assert q'[i] == l2.q[i];
      }
    }
  }

  /** The stages before the release only drop the head or change it in place. */
  lemma StagesFromQueue(l: L.Link)
    requires L.Inv(l) && l.open
    ensures var q := L.GiveUpStage(L.RetryStage(l)).q;
            forall i :: 0 <= i < |q| && q[i].submitted.Some? ==>
              exists j :: 0 <= j < |l.q| && l.q[j].submitted.Some? && l.q[j].msg == q[i].msg
  {
    hide Elapsed, Tick, SlotOf, L.Attempts, Retried, Exhausted, Resends;
    if l.q != [] {
      L.RetryTouchesHeadOnly(l);
      L.RetryStageInv(l);
      L.RetriedKeeps(l.q[0], l.now);
      if L.Waiting(l.q[0]) {
        L.WaitingIsLeftAlone(l.q[0], l.now);
      }
      StageFrame(l);
    }
  }

  lemma ReleasedHanded(y: Sys, s: int)
    requires y.open
    ensures forall i :: 0 <= i < |Sel(EntrySsi, TickEnd(y.llc).released, s)| ==>
              forall o :: o in BuiltBy(Sel(EntrySsi, TickEnd(y.llc).released, s)[i].msg)
                ==> o in Next(y, EndTick).handed
  {
    hide Sel, TickEnd, Numbers, BuiltBy, Copies;
    var rel := TickEnd(y.llc).released;
    var acks, ud := Map(AckReply, y.llc.acks), y.llc.udata;
    NumbersConcat(Copies(rel) + acks, ud);
    NumbersConcat(Copies(rel), acks);
    forall i | 0 <= i < |Sel(EntrySsi, rel, s)|
      ensures forall o :: o in BuiltBy(Sel(EntrySsi, rel, s)[i].msg) ==> o in Next(y, EndTick).handed
    {
      var j := SelAt(EntrySsi, rel, s, i);
      NumbersOf(rel, j);
    }
  }

  lemma {:induction false} NumbersOf(q: seq<E>, j: nat)
    requires j < |q|
    ensures forall o :: o in BuiltBy(q[j].msg) ==> o in Numbers(Copies(q))
  {
    var n := |q| - 1;
    assert q == q[..n] + [q[n]];
    CopiesSnoc(q[..n], q[n]);
    if j < n {
      NumbersOf(q[..n], j);
    }
  }

  lemma NextSubmittedHanded(y: Sys, ev: Event, s: int)
    requires Inv(y) && Enabled(y, ev) && SubmittedHanded(y, s)
    ensures SubmittedHanded(Next(y, ev), s)
  {
    if ev.EndTick? {
      TickSubmittedHanded(y, s);
    } else {
      OtherSubmittedHanded(y, ev, s);
    }
  }

  lemma OtherSubmittedHanded(y: Sys, ev: Event, s: int)
    requires Inv(y) && Enabled(y, ev) && !ev.EndTick? && SubmittedHanded(y, s)
    ensures SubmittedHanded(Next(y, ev), s)
  {
    hide Elapsed, Tick, SlotOf, Sel, L.Inv, Inv, TakeAck, ProcessAck, BuiltBy, NewPdus;
    T.Refines(y, ev, s);
    var q, q' := Proj(y, s).q, Proj(Next(y, ev), s).q;
    assert Next(y, ev).handed == y.handed;
    forall i | 0 <= i < |q'| && q'[i].submitted.Some?
      ensures exists j :: 0 <= j < |q| && q[j].submitted.Some? && q[j].msg == q'[i].msg
    {
      if ev.Rx? && q' != q {
        assert q'[i] == q[i + 1];
      } else {
        assert i < |q| && q[i].submitted.Some? && q[i].msg == q'[i].msg;
      }
    }
  }

  lemma {:induction false} RunSubmittedHanded(main: int, clock: Time, evs: seq<Event>, s: int)
    ensures SubmittedHanded(T.After(T.Start(main, clock), evs), s)
  {
    hide SubmittedHanded, Next;
    if evs == [] {
      NothingSubmitted(main, clock, s);
    } else {
      var n := |evs| - 1;
      RunSubmittedHanded(main, clock, evs[..n], s);
      T.RunInv(main, clock, evs[..n]);
      var p := T.After(T.Start(main, clock), evs[..n]);
      if Enabled(p, evs[n]) {
        NextSubmittedHanded(p, evs[n], s);
      }
    }
  }

  lemma NothingSubmitted(main: int, clock: Time, s: int)
    ensures SubmittedHanded(T.After(T.Start(main, clock), []), s)
  {
    SelEmpty(s);
  }

  /** A retransmission repeats an N(R) that was handed down before; it never brings a new one. */
  lemma ResentIsRepeat(main: int, clock: Time, evs: seq<Event>, i: nat)
    requires i < |TickEnd(T.After(T.Start(main, clock), evs).llc).resent|
    ensures var y := T.After(T.Start(main, clock), evs);
            forall o :: o in BuiltBy(TickEnd(y.llc).resent[i].msg) ==> o in y.handed
  {
    hide T.After, Sel, Resent, L.Inv, BuiltBy, Retried, Resends, GiveUp, FreePass, Released, RetryPass, ExhaustedKeys;
    var y := T.After(T.Start(main, clock), evs);
    var q := y.llc.queue;
    var r := TickEnd(y.llc).resent;
    T.RunInv(main, clock, evs);
    var j := ResentFrom(q, y.llc.now, i);
    L.RetriedKeeps(q[j], y.llc.now);
    var s := q[j].ssi;
    assert L.Inv(Proj(y, s));
    SelPlace(EntrySsi, q, j);
    var a := |Sel(EntrySsi, q[..j], s)|;
    OnlySubmittedResent(Proj(y, s), a, y.llc.now);
    RunSubmittedHanded(main, clock, evs, s);
  }

  lemma {:induction false} ResentFrom(q: seq<E>, now: Time, i: nat) returns (j: nat)
    requires i < |Resent(q, now)|
    ensures j < |q| && Resends(q[j], now) && Resent(q, now)[i] == Retried(q[j], now)
  {
    hide Resends, Retried;
    var n := |q| - 1;
    if i < |Resent(q[..n], now)| {
      j := ResentFrom(q[..n], now, i);
    } else {
      j := n;
    }
  }

  lemma OnlySubmittedResent(l: L.Link, a: nat, now: Time)
    requires L.Inv(l) && a < |l.q| && Resends(l.q[a], now)
    ensures l.q[a].submitted.Some?
  {
    hide Elapsed, L.Attempts;
  }
}
