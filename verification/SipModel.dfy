/** The life of a SIP dialog towards the PBX: what each handler does to one dialog, which messages
    it sends, and what holds of the trace of every dialog over every run. */
module SipModel {
  import opened Wrappers

  datatype DialogState = Inviting | Ringing | Cancelling | Established

  datatype Dialog = Dialog(
    inbound: bool, cseq: nat, branch: int, authRetrySent: bool, state: DialogState, releasedAt: Option<int>)

  /** What happens on one dialog, in order. What comes in: its start, responses to our INVITE, the peer's
      BYE or CANCEL, and CMCE's messages, a setup that cannot be served among them. What goes out:
      SIP requests with Via branch and CSeq number, replies, and messages to CMCE. */
  datatype Item =
    | Start(inbound: bool) | Unavailable
    | GotRinging | Got2xx | GotFailure(code: nat, challenge: bool) | HungUp
    | RejectIn(code: nat) | AlertIn | ConnectIn | ReleaseIn
    | Invite(branch: int, cseq: nat) | Cancel(branch: int, cseq: nat) | AckFailure(branch: int, cseq: nat)
    | Ack2xx(branch: int, cseq: nat) | Bye(branch: int, cseq: nat) | Reply(code: nat)
    | SetupRequest | SetupAccept | SetupReject | Alert | ConnectRequest | ConnectConfirm | ReleaseOut

  const U32_MAX: nat := 0xFFFF_FFFF
  /** A cancelled dialog without a final response is dropped after so many seconds. */
  const CANCEL_REAP_AFTER: int := 32
  /** An inbound dialog has sent no INVITE, so its branch is the empty string. */
  const NO_BRANCH: int := -1

  /** Branches are told apart by a 64-bit counter. */
  const BRANCHES: nat := 0x1_0000_0000_0000_0000

  /** The branch of the b-th request that drew one. */
  function Wire(b: nat): nat {
    b % BRANCHES
  }

  function SaturatingInc(x: nat): nat {
    if x >= U32_MAX then U32_MAX else x + 1
  }

  /** The dialog after a handler (None: removed), the items it adds and the number of the next
      branch to be drawn; the first one drawn has number 1. */
  datatype Outcome = Outcome(d: Option<Dialog>, items: seq<Item>, branch: nat)

  // ---------------------------------------------------------------- handlers

  /** A call set up by CMCE; ok is false for an empty number or when no port or codec is free. A
      dialog already stored under the uuid stays on a refusal and is overwritten otherwise. */
  function StartOutbound(d: Option<Dialog>, ok: bool, b: nat): Outcome {
    if !ok then Outcome(d, [Unavailable, SetupReject], b)
    else
      var items := [Start(false), SetupAccept, Invite(Wire(b), 1)];
      Outcome(Some(Dialog(false, 1, Wire(b), false, Inviting, None)), items, b + 1)
  }

  /** An accepted INVITE from the PBX. */
  function StartInbound(b: nat): Outcome {
    Outcome(Some(Dialog(true, 1, NO_BRANCH, false, Inviting, None)), [Start(true), Reply(100), SetupRequest], b)
  }

  /** BYE or CANCEL; a fresh branch is drawn in both cases. */
  function ByeOrCancel(d: Dialog, cancel: bool, b: nat): Item {
    if cancel then Cancel(d.branch, d.cseq) else Bye(Wire(b), SaturatingInc(d.cseq))
  }

  /** CMCE releases the call. */
  function OnRelease(d: Dialog, now: int, b: nat): Outcome {
    var cancel := !d.state.Established?;
    if d.inbound && cancel then Outcome(None, [ReleaseIn, Reply(480)], b)
    else if cancel then
      Outcome(Some(d.(state := Cancelling, releasedAt := Some(now))), [ReleaseIn, ByeOrCancel(d, true, b)], b + 1)
    else Outcome(None, [ReleaseIn, ByeOrCancel(d, false, b)], b + 1)
  }

  /** CMCE refuses, alerts on or answers an inbound call. */
  function OnReject(d: Dialog, code: nat, b: nat): Outcome {
    if !d.inbound then Outcome(Some(d), [], b) else Outcome(None, [RejectIn(code), Reply(code)], b)
  }

  function OnAlert(d: Dialog, b: nat): Outcome {
    if !d.inbound then Outcome(Some(d), [], b)
    else Outcome(Some(d.(state := Ringing)), [AlertIn, Reply(180)], b)
  }

  function OnConnect(d: Dialog, b: nat): Outcome {
    if !d.inbound then Outcome(Some(d), [], b)
    else Outcome(Some(d.(state := Established)), [ConnectIn, Reply(200), ConnectConfirm], b)
  }

  /** A BYE or CANCEL request from the PBX. */
  function OnPeerHangup(d: Dialog, b: nat): Outcome {
    Outcome(None, if d.state.Cancelling? then [HungUp] else [HungUp, ReleaseOut], b)
  }

  /** A response to our INVITE; challenge is whether a 401 or 407 carries one. */
  function OnResponse(d: Dialog, code: nat, challenge: bool, b: nat): Outcome {
    var cancelling := d.state.Cancelling?;
    if code == 180 || code == 183 then
      if cancelling then Outcome(Some(d), [GotRinging], b)
      else Outcome(Some(d.(state := Ringing)), [GotRinging, Alert], b)
    else if 200 <= code <= 299 then
      if cancelling then Outcome(None, [Got2xx, Ack2xx(Wire(b), d.cseq), ByeOrCancel(d, false, b + 1)], b + 2)
      else Outcome(Some(d.(state := Established)), [Got2xx, Ack2xx(Wire(b), d.cseq), ConnectRequest], b + 1)
    else if code == 401 || code == 407 then
      var got, ack := GotFailure(code, challenge), AckFailure(d.branch, d.cseq);
      if cancelling then Outcome(None, [got, ack], b)
      else if challenge && !d.authRetrySent then
        var n := SaturatingInc(d.cseq);
        Outcome(Some(d.(authRetrySent := true, cseq := n, branch := Wire(b))), [got, ack, Invite(Wire(b), n)], b + 1)
      else Outcome(Some(d), [got, ack], b)
    else if 300 <= code <= 699 then
      var got, ack := GotFailure(code, challenge), AckFailure(d.branch, d.cseq);
      Outcome(None, if cancelling then [got, ack] else [got, ack, ReleaseOut], b)
    else Outcome(Some(d), [], b)
  }

  predicate Stale(d: Dialog, now: int) {
    d.releasedAt.Some? && now - d.releasedAt.value >= CANCEL_REAP_AFTER
  }

  // ---------------------------------------------------------------- one dialog over a run

  /** A call on one dialog; the uuid is chosen fresh for the two that start one. */
  datatype Call =
    | CallStart(ok: bool) | CallInbound | CallRelease(now: int) | CallReject(code: nat) | CallAlert | CallConnect
    | CallPeerHangup | CallResponse(code: nat, challenge: bool)

  predicate Starts(c: Call) {
    c.CallStart? || c.CallInbound?
  }

  function React(d: Option<Dialog>, c: Call, b: nat): Outcome {
    match c
    case CallStart(ok) => StartOutbound(d, ok, b)
    case CallInbound => StartInbound(b)
    case CallRelease(now) => if d.None? then Outcome(None, [ReleaseIn], b) else OnRelease(d.value, now, b)
    case CallReject(code) => if d.None? then Outcome(None, [], b) else OnReject(d.value, code, b)
    case CallAlert => if d.None? then Outcome(None, [], b) else OnAlert(d.value, b)
    case CallConnect => if d.None? then Outcome(None, [], b) else OnConnect(d.value, b)
    case CallPeerHangup => if d.None? then Outcome(None, [], b) else OnPeerHangup(d.value, b)
    case CallResponse(code, challenge) =>
      if d.None? then Outcome(None, [], b) else OnResponse(d.value, code, challenge, b)
  }

  // What the trace of a dialog says.

  predicate Outbound(t: seq<Item>) {
    t != [] && t[0] == Start(false)
  }

  function Invites(t: seq<Item>): nat {
    if t == [] then 0 else Invites(t[..|t| - 1]) + if t[|t| - 1].Invite? then 1 else 0
  }

  /** The latest INVITE sent. */
  function Latest(t: seq<Item>): Option<Item> {
    if t == [] then None
    else if t[|t| - 1].Invite? then Some(t[|t| - 1])
    else Latest(t[..|t| - 1])
  }

  /** The call has been answered and not gone back to ringing. */
  predicate Up(t: seq<Item>) {
    && t != []
    && var x := t[|t| - 1];
       x.Got2xx? || x.ConnectIn? || (!x.Alert? && !x.AlertIn? && Up(t[..|t| - 1]))
  }

  predicate Started(t: seq<Item>) {
    t != [] && t[0].Start?
  }

  /** The call has been released from either side, or refused by CMCE. */
  predicate Ended(t: seq<Item>) {
    exists i :: 0 <= i < |t| && (t[i].ReleaseIn? || t[i].ReleaseOut? || t[i].RejectIn?)
  }

  predicate Cancelled(t: seq<Item>) {
    exists i :: 0 <= i < |t| && t[i].Cancel?
  }

  predicate ToCmce(x: Item) {
    || x.SetupRequest? || x.SetupAccept? || x.SetupReject? || x.Alert?
    || x.ConnectRequest? || x.ConnectConfirm? || x.ReleaseOut?
  }

  predicate HasBranch(x: Item) {
    x.Invite? || x.Cancel? || x.AckFailure? || x.Ack2xx? || x.Bye?
  }

  /** Requests that open a transaction of their own. */
  predicate Opens(x: Item) {
    x.Invite? || x.Ack2xx? || x.Bye?
  }

  /** Which draw of the first 2^64 gave this branch. */
  function Drawn(v: int): int {
    if v == 0 then BRANCHES else v
  }

  predicate Below(t: seq<Item>, b: int) {
    forall i :: 0 <= i < |t| && HasBranch(t[i]) ==> Drawn(t[i].branch) < b
  }

  predicate Same(x: Item, invite: Item) {
    HasBranch(x) && HasBranch(invite) && x.branch == invite.branch && x.cseq == invite.cseq
  }

  /** Sections 9.1 and 17.1.1.3 of RFC 3261, for an item x after the trace p: INVITEs are numbered
      from 1 and none follows a CANCEL; CANCEL and the ACK of a failure stay inside the latest
      INVITE's transaction; the ACK of a 2xx repeats its number; BYE takes the next number. */
  predicate InTransaction(p: seq<Item>, x: Item) {
    match x
    case Invite(_, c) => c == Invites(p) + 1 && !Cancelled(p)
    case Cancel(_, _) => Latest(p).Some? && Same(x, Latest(p).value)
    case AckFailure(_, _) => Latest(p).Some? && Same(x, Latest(p).value)
    case Ack2xx(_, c) => Latest(p).Some? && Latest(p).value.Invite? && c == Latest(p).value.cseq
    case Bye(_, c) => Latest(p).Some? && Latest(p).value.Invite? && c == Latest(p).value.cseq + 1
    case _ => true
  }

  /** What must follow at once on what comes in, after the trace before it. */
  predicate Answered(t: seq<Item>, i: nat)
    requires i < |t|
  {
    var p, a, b := t[..i], At(t, i + 1), At(t, i + 2);
    match t[i]
    case Start(true) => a == Some(Reply(100)) && b == Some(SetupRequest)
    case Start(false) => a == Some(SetupAccept) && b.Some? && b.value.Invite?
    case Unavailable => a == Some(SetupReject)
    case GotRinging => Cancelled(p) || a == Some(Alert)
    case Got2xx =>
      && a.Some? && a.value.Ack2xx?
      && (if Cancelled(p) then b.Some? && b.value.Bye? else b == Some(ConnectRequest))
    case GotFailure(code, challenge) =>
      && a.Some? && a.value.AckFailure?
      && (if code == 401 || code == 407
          then Outbound(p) && challenge && Invites(p) == 1 && !Cancelled(p) ==> b.Some? && b.value.Invite?
          else Cancelled(p) || b == Some(ReleaseOut))
    case HungUp => Cancelled(p) || a == Some(ReleaseOut)
    case RejectIn(code) => a == Some(Reply(code))
    case AlertIn => a == Some(Reply(180))
    case ConnectIn => a == Some(Reply(200)) && b == Some(ConnectConfirm)
    case ReleaseIn =>
      Started(p) && !Ended(p) ==>
        && a.Some?
        && (if Up(p) then a.value.Bye? else if Outbound(p) then a.value.Cancel? else a.value == Reply(480))
    case _ => true
  }

  function At(t: seq<Item>, i: nat): Option<Item> {
    if i < |t| then Some(t[i]) else None
  }

  /** What comes in; everything else goes out. */
  predicate ComesIn(x: Item) {
    || x.Start? || x.Unavailable? || x.GotRinging? || x.Got2xx? || x.GotFailure? || x.HungUp?
    || x.RejectIn? || x.AlertIn? || x.ConnectIn? || x.ReleaseIn?
  }

  /** Nothing goes out of itself: what must stand just before it. */
  predicate Caused(p: seq<Item>, x: Item) {
    var y := if p == [] then None else Some(p[|p| - 1]);
    match x
    case Invite(_, _) => y.Some? && (y.value.SetupAccept? || y.value.AckFailure?)
    case Cancel(_, _) => y == Some(ReleaseIn)
    case AckFailure(_, _) => y.Some? && y.value.GotFailure?
    case Ack2xx(_, _) => y == Some(Got2xx)
    case Bye(_, _) => y.Some? && (y.value.Ack2xx? || y.value.ReleaseIn?)
    case Reply(code) =>
      || (code == 100 && y == Some(Start(true))) || (code == 180 && y == Some(AlertIn))
      || (code == 200 && y == Some(ConnectIn)) || (code == 480 && y == Some(ReleaseIn)) || y == Some(RejectIn(code))
    case SetupRequest => y == Some(Reply(100))
    case SetupAccept => y == Some(Start(false))
    case SetupReject => y == Some(Unavailable)
    case Alert => y == Some(GotRinging)
    case ConnectRequest => y.Some? && y.value.Ack2xx?
    case ConnectConfirm => y == Some(Reply(200))
    case ReleaseOut => y.Some? && (y.value.AckFailure? || y.value.HungUp?)
    case _ => true
  }

  /** Nothing is sent to CMCE after a release in either direction. */
  predicate Silent(t: seq<Item>, i: nat, j: nat)
    requires i < j < |t|
  {
    t[i].ReleaseIn? || t[i].ReleaseOut? ==> !ToCmce(t[j])
  }

  /** What the requests of an outbound dialog and the messages to CMCE obey. */
  ghost predicate Orderly(t: seq<Item>) {
    && (Outbound(t) ==> Invites(t) <= 2 && forall i :: 0 <= i < |t| ==> InTransaction(t[..i], t[i]))
    && (forall i, j :: 0 <= i < j < |t| ==> Silent(t, i, j))
    && (forall i :: 0 <= i < |t| ==> Caused(t[..i], t[i]))
  }

  ghost predicate AllAnswered(t: seq<Item>) {
    forall i :: 0 <= i < |t| ==> Answered(t, i)
  }

  ghost predicate GoodTrace(t: seq<Item>) {
    Orderly(t) && AllAnswered(t)
  }

  /** How a live dialog reflects its trace. */
  ghost predicate Reflects(d: Dialog, t: seq<Item>) {
    && t != [] && t[0] == Start(d.inbound)
    && (d.state.Cancelling? <==> d.releasedAt.Some?)
    && (d.state.Cancelling? <==> Cancelled(t))
    && (d.state.Cancelling? <==> ReleaseIn in t)
    && ReleaseOut !in t && (forall i :: 0 <= i < |t| ==> !t[i].RejectIn?)
    && (d.inbound ==> !d.state.Cancelling?)
    && (!d.state.Cancelling? ==> (d.state.Established? <==> Up(t)))
    && (!d.inbound ==>
          && d.cseq == Invites(t) == (if d.authRetrySent then 2 else 1)
          && Latest(t) == Some(Invite(d.branch, d.cseq)))
  }

  /** A request that opens a transaction was drawn after every branch before it. */
  ghost predicate Fresh(t: seq<Item>) {
    forall i :: 0 <= i < |t| && Opens(t[i]) ==> Below(t[..i], Drawn(t[i].branch))
  }

  /** No branch is used twice while at most 2^64 have been drawn. */
  ghost predicate FreshInv(d: Option<Dialog>, t: seq<Item>, b: nat) {
    b <= BRANCHES + 1 ==> Fresh(t) && Below(t, b) && (d.Some? ==> Drawn(d.value.branch) < b)
  }

  ghost predicate LegInv(d: Option<Dialog>, t: seq<Item>, b: nat) {
    && GoodTrace(t) && b > 0 && FreshInv(d, t, b)
    && (if d.Some? then Reflects(d.value, t) else Started(t) ==> Ended(t))
  }

  // ---------------------------------------------------------------- adding items

  lemma Added(t: seq<Item>, x: Item)
    ensures Invites(t + [x]) == Invites(t) + if x.Invite? then 1 else 0
    ensures Latest(t + [x]) == if x.Invite? then Some(x) else Latest(t)
    ensures Up(t + [x]) == (x.Got2xx? || x.ConnectIn? || (!x.Alert? && !x.AlertIn? && Up(t)))
    ensures Ended(t + [x]) == (Ended(t) || x.ReleaseIn? || x.ReleaseOut? || x.RejectIn?)
    ensures Cancelled(t + [x]) == (Cancelled(t) || x.Cancel?)
    ensures Outbound(t + [x]) == if t == [] then x == Start(false) else Outbound(t)
  {
    hide Ended, Cancelled;
    AddedMark(t, x);
    assert (t + [x])[..|t + [x]| - 1] == t;
  }

  lemma AddedMark(t: seq<Item>, x: Item)
    ensures Ended(t + [x]) == (Ended(t) || x.ReleaseIn? || x.ReleaseOut? || x.RejectIn?)
    ensures Cancelled(t + [x]) == (Cancelled(t) || x.Cancel?)
  {
    var u := t + [x];
    assert u[|t|] == x;
    assert forall i :: 0 <= i < |t| ==> u[i] == t[i];
  }

  /** An item that may come next. */
  ghost predicate MayFollow(t: seq<Item>, x: Item) {
    && (Outbound(t) ==> InTransaction(t, x) && (x.Invite? ==> Invites(t) < 2))
    && (ToCmce(x) ==> ReleaseIn !in t && ReleaseOut !in t) && Caused(t, x)
  }

  lemma StaysOrderly(t: seq<Item>, x: Item)
    requires Orderly(t) && MayFollow(t, x)
    ensures Orderly(t + [x])
  {
    hide InTransaction, Invites, Caused;
    var u := t + [x];
    Added(t, x);
    forall i | 0 <= i < |u| ensures Caused(u[..i], u[i]) {
      assert u[..i] == if i < |t| then t[..i] else t;
    }
    if Outbound(u) {
      forall i | 0 <= i < |u| ensures InTransaction(u[..i], u[i]) {
        if i < |t| {
          assert u[..i] == t[..i];
        } else {
          assert u[..i] == t;
          FirstIsNoRequest(u);
        }
      }
      if t == [] {
        NoInvites();
      }
    }
    forall i, j | 0 <= i < j < |u| ensures Silent(u, i, j) {
      if j < |t| {
        assert Silent(t, i, j);
      } else {
        assert u[i] in t;
      }
    }
  }

  lemma FirstIsNoRequest(u: seq<Item>)
    requires Outbound(u)
    ensures InTransaction([], u[0])
  {
  }

  lemma NoInvites()
    ensures Invites([]) == 0
  {
  }

  /** Something that comes in, with what follows on it. */
  lemma NowAnswered(t: seq<Item>, more: seq<Item>)
    requires AllAnswered(t) && (more != [] ==> Answered(t + more, |t|))
    requires forall i :: 1 <= i < |more| ==> !ComesIn(more[i])
    ensures AllAnswered(t + more)
  {
    hide Cancelled, Up, Ended, Invites;
    var u := t + more;
    forall i | 0 <= i < |u| ensures Answered(u, i) {
      if i < |t| {
        assert Answered(t, i);
        assert u[..i] == t[..i];
      }
    }
  }

  lemma AddedTwo(t: seq<Item>, x: Item, y: Item)
    requires Orderly(t) && MayFollow(t, x) && MayFollow(t + [x], y)
    ensures Orderly(t + [x, y]) && t + [x, y] == (t + [x]) + [y]
  {
    hide Orderly, MayFollow;
    assert t + [x, y] == (t + [x]) + [y];
    StaysOrderly(t, x);
    StaysOrderly(t + [x], y);
  }

  lemma AddedThree(t: seq<Item>, x: Item, y: Item, z: Item)
    requires Orderly(t) && MayFollow(t, x) && MayFollow(t + [x], y) && MayFollow(t + [x] + [y], z)
    ensures Orderly(t + [x, y, z]) && t + [x, y, z] == (t + [x]) + [y] + [z]
  {
    hide Orderly, MayFollow;
    assert t + [x, y, z] == (t + [x]) + [y] + [z];
    StaysOrderly(t, x);
    StaysOrderly(t + [x], y);
    StaysOrderly(t + [x] + [y], z);
  }

  /** The next item's branch is an older one or, if it opens a transaction, a later one. */
  lemma StaysFresh(t: seq<Item>, x: Item, b: int, b': int)
    requires Fresh(t) && Below(t, b) && b <= b'
    requires HasBranch(x) ==> Drawn(x.branch) < b' && (Opens(x) ==> b <= Drawn(x.branch))
    ensures Fresh(t + [x]) && Below(t + [x], b')
  {
    var u := t + [x];
    forall i | 0 <= i < |u| && Opens(u[i]) ensures Below(u[..i], Drawn(u[i].branch)) {
      if i < |t| {
        assert u[..i] == t[..i];
      } else {
        assert u[..i] == t;
      }
    }
  }

  /** The items of one handler: an opening one draws the next branch, and no other is new. */
  lemma {:induction false} ItemsFresh(t: seq<Item>, items: seq<Item>, b: int, b': int)
    requires Fresh(t) && Below(t, b)
    requires DrawInOrder(items, b, b')
    ensures Fresh(t + items) && Below(t + items, b')
    decreases |items|
  {
    if items == [] {
      assert t + items == t;
    } else {
      var x := items[0];
      var next := Past(x, b);
      StaysFresh(t, x, b, next);
      ItemsFresh(t + [x], items[1..], next, b');
      assert t + items == t + [x] + items[1..];
    }
  }

  /** Numbers are drawn upwards from b and b' has not been reached. */
  predicate DrawInOrder(items: seq<Item>, b: int, b': int) {
    if items == [] then b <= b'
    else InPlace(items[0], b) && DrawInOrder(items[1..], Past(items[0], b), b')
  }

  predicate InPlace(x: Item, b: int) {
    HasBranch(x) ==> (Opens(x) <==> b <= Drawn(x.branch))
  }

  function Past(x: Item, b: int): int {
    if Opens(x) then Drawn(x.branch) + 1 else b
  }

  lemma DrawnBack(b: nat)
    ensures 0 < b <= BRANCHES ==> Drawn(Wire(b)) == b
  {
  }

  /** Every handler keeps the branches apart. */
  lemma KeepsFresh(d: Option<Dialog>, t: seq<Item>, c: Call, b: nat)
    requires FreshInv(d, t, b) && b > 0
    ensures var o := React(d, c, b); FreshInv(o.d, t + o.items, o.branch)
  {
    hide Fresh, Below, Wire, Drawn, DrawInOrder;
    var o := React(d, c, b);
    if o.branch <= BRANCHES + 1 {
      DrawnBack(b);
      DrawnBack(b + 1);
      DrawnNone();
      InOrder(d, c, b);
      ItemsFresh(t, o.items, b, o.branch);
    }
  }

  lemma DrawnNone()
    ensures Drawn(NO_BRANCH) < 0
  {
  }

  lemma InOrder(d: Option<Dialog>, c: Call, b: nat)
    requires d.Some? ==> Drawn(d.value.branch) < b
    requires b > 0 && React(d, c, b).branch <= BRANCHES + 1
    ensures var o := React(d, c, b); b <= o.branch && DrawInOrder(o.items, b, o.branch)
  {
    hide Wire, Drawn, DrawInOrder;
    DrawnBack(b);
    DrawnBack(b + 1);
    var o := React(d, c, b);
    UpToThree(o.items, b, o.branch);
  }

  lemma UpToThree(items: seq<Item>, b: int, b': int)
    requires |items| <= 3
    requires |items| == 0 ==> b <= b'
    requires |items| > 0 ==> InPlace(items[0], b) && Past(items[0], b) <= b'
    requires |items| > 1 ==> InPlace(items[1], Past(items[0], b)) && Past(items[1], Past(items[0], b)) <= b'
    requires |items| > 2 ==> var m := Past(items[1], Past(items[0], b)); InPlace(items[2], m) && Past(items[2], m) <= b'
    ensures DrawInOrder(items, b, b')
  {
    hide InPlace, Past;
    if |items| == 3 {
      UpToTwo(items[1..], Past(items[0], b), b');
    } else {
      UpToTwo(items, b, b');
    }
  }

  lemma UpToTwo(items: seq<Item>, b: int, b': int)
    requires |items| <= 2
    requires |items| == 0 ==> b <= b'
    requires |items| > 0 ==> InPlace(items[0], b) && Past(items[0], b) <= b'
    requires |items| > 1 ==> InPlace(items[1], Past(items[0], b)) && Past(items[1], Past(items[0], b)) <= b'
    ensures DrawInOrder(items, b, b')
  {
    hide InPlace, Past;
    if |items| == 2 {
      assert items[1..] == [items[1]];
    }
  }

  // ---------------------------------------------------------------- every handler keeps the invariant

  lemma OutboundStartKeeps(ok: bool, b: nat)
    requires LegInv(None, [], b)
    ensures var o := StartOutbound(None, ok, b); LegInv(o.d, [] + o.items, o.branch)
  {
    hide Invites, Latest, Up, Orderly, AllAnswered, Cancelled, FreshInv, Ended, Answered, MayFollow;
    var o := StartOutbound(None, ok, b);
    KeepsFresh(None, [], CallStart(ok), b);
    OutboundStartOrderly(Wire(b));
    RefusalOrderly();
    assert [] + o.items == o.items;
  }

  lemma OutboundStartOrderly(b: int)
    ensures var t := [Start(false), SetupAccept, Invite(b, 1)];
            && Orderly(t) && AllAnswered(t) && !Up(t) && !Cancelled(t)
            && Invites(t) == 1 && Latest(t) == Some(Invite(b, 1))
  {
    hide Invites, Latest, Up, Orderly, AllAnswered, Cancelled, Ended;
    var t := [Start(false), SetupAccept, Invite(b, 1)];
    NoItems();
    Added([], Start(false));
    Added([] + [Start(false)], SetupAccept);
    Added([] + [Start(false)] + [SetupAccept], Invite(b, 1));
    AddedThree([], Start(false), SetupAccept, Invite(b, 1));
    assert [] + t == t;
    NowAnswered([], t);
  }

  lemma RefusalOrderly()
    ensures Orderly([Unavailable, SetupReject]) && AllAnswered([Unavailable, SetupReject])
  {
    hide Invites, Latest, Up, Orderly, AllAnswered, Cancelled, Ended;
    var t := [Unavailable, SetupReject];
    NoItems();
    Added([], Unavailable);
    AddedTwo([], Unavailable, SetupReject);
    assert [] + t == t;
    NowAnswered([], t);
  }

  lemma NoItems()
    ensures GoodTrace([]) && Invites([]) == 0 && Latest([]) == None && !Up([]) && !Cancelled([]) && !Ended([])
  {
  }

  lemma InboundStartKeeps(b: nat)
    requires LegInv(None, [], b)
    ensures var o := StartInbound(b); LegInv(o.d, [] + o.items, o.branch)
  {
    hide Invites, Latest, Up, Orderly, AllAnswered, Cancelled, FreshInv, Ended, Answered, MayFollow;
    var o := StartInbound(b);
    KeepsFresh(None, [], CallInbound, b);
    InboundStartOrderly();
    assert [] + o.items == o.items;
  }

  lemma InboundStartOrderly()
    ensures var t := [Start(true), Reply(100), SetupRequest];
            Orderly(t) && AllAnswered(t) && !Up(t) && !Cancelled(t)
  {
    hide Invites, Latest, Up, Orderly, AllAnswered, Cancelled, Ended;
    var t := [Start(true), Reply(100), SetupRequest];
    NoItems();
    Added([], Start(true));
    Added([] + [Start(true)], Reply(100));
    Added([] + [Start(true)] + [Reply(100)], SetupRequest);
    AddedThree([], Start(true), Reply(100), SetupRequest);
    assert [] + t == t;
    NowAnswered([], t);
  }

  lemma NotEnded(d: Dialog, t: seq<Item>)
    requires Reflects(d, t)
    ensures Started(t) && (Ended(t) <==> d.state.Cancelling?) && (Outbound(t) <==> !d.inbound)
  {
    hide Invites, Latest, Up, Cancelled;
    if d.state.Cancelling? {
      var i :| 0 <= i < |t| && t[i] == ReleaseIn;
    }
  }

  lemma ReleaseKeeps(d: Dialog, t: seq<Item>, now: int, b: nat)
    requires LegInv(Some(d), t, b)
    ensures var o := OnRelease(d, now, b); LegInv(o.d, t + o.items, o.branch)
  {
    hide Invites, Latest, Up, Orderly, AllAnswered, Cancelled, FreshInv, Ended;
    var o := OnRelease(d, now, b);
    KeepsFresh(Some(d), t, CallRelease(now), b);
    NotEnded(d, t);
    var y := o.items[1];
    assert o.items == [ReleaseIn, y];
    Added(t, ReleaseIn);
    AddedTwo(t, ReleaseIn, y);
    Added(t + [ReleaseIn], y);
    assert (t + o.items)[..|t|] == t;
    NowAnswered(t, o.items);
  }

  lemma RejectKeeps(d: Dialog, t: seq<Item>, code: nat, b: nat)
    requires LegInv(Some(d), t, b)
    ensures var o := OnReject(d, code, b); LegInv(o.d, t + o.items, o.branch)
  {
    hide Invites, Latest, Up, Orderly, AllAnswered, Cancelled, FreshInv, Ended;
    KeepsFresh(Some(d), t, CallReject(code), b);
    assert t + [] == t;
    if d.inbound {
      Added(t, RejectIn(code));
      AddedTwo(t, RejectIn(code), Reply(code));
      Added(t + [RejectIn(code)], Reply(code));
      NowAnswered(t, [RejectIn(code), Reply(code)]);
    }
  }

  lemma AlertKeeps(d: Dialog, t: seq<Item>, b: nat)
    requires LegInv(Some(d), t, b)
    ensures var o := OnAlert(d, b); LegInv(o.d, t + o.items, o.branch)
  {
    hide Invites, Latest, Up, Orderly, AllAnswered, Cancelled, FreshInv, Ended;
    KeepsFresh(Some(d), t, CallAlert, b);
    assert t + [] == t;
    if d.inbound {
      Added(t, AlertIn);
      AddedTwo(t, AlertIn, Reply(180));
      Added(t + [AlertIn], Reply(180));
      NowAnswered(t, [AlertIn, Reply(180)]);
    }
  }

  lemma ConnectKeeps(d: Dialog, t: seq<Item>, b: nat)
    requires LegInv(Some(d), t, b)
    ensures var o := OnConnect(d, b); LegInv(o.d, t + o.items, o.branch)
  {
    hide Invites, Latest, Up, Orderly, AllAnswered, Cancelled, FreshInv, Ended;
    KeepsFresh(Some(d), t, CallConnect, b);
    if d.inbound {
      Added(t, ConnectIn);
      Added(t + [ConnectIn], Reply(200));
      AddedThree(t, ConnectIn, Reply(200), ConnectConfirm);
      Added(t + [ConnectIn] + [Reply(200)], ConnectConfirm);
      NowAnswered(t, [ConnectIn, Reply(200), ConnectConfirm]);
    } else {
      assert t + [] == t;
    }
  }

  lemma PeerHangupKeeps(d: Dialog, t: seq<Item>, b: nat)
    requires LegInv(Some(d), t, b)
    ensures var o := OnPeerHangup(d, b); LegInv(o.d, t + o.items, o.branch)
  {
    hide Invites, Latest, Up, Orderly, AllAnswered, Cancelled, FreshInv, Ended;
    var o := OnPeerHangup(d, b);
    KeepsFresh(Some(d), t, CallPeerHangup, b);
    NotEnded(d, t);
    Added(t, HungUp);
    assert (t + o.items)[..|t|] == t;
    if d.state.Cancelling? {
      StaysOrderly(t, HungUp);
    } else {
      AddedTwo(t, HungUp, ReleaseOut);
      Added(t + [HungUp], ReleaseOut);
    }
    NowAnswered(t, o.items);
  }

  lemma ProvisionalKeeps(d: Dialog, t: seq<Item>, code: nat, challenge: bool, b: nat)
    requires LegInv(Some(d), t, b) && (code == 180 || code == 183)
    ensures var o := OnResponse(d, code, challenge, b); LegInv(o.d, t + o.items, o.branch)
  {
    hide Invites, Latest, Up, Orderly, AllAnswered, Cancelled, FreshInv, Ended;
    var o := OnResponse(d, code, challenge, b);
    KeepsFresh(Some(d), t, CallResponse(code, challenge), b);
    Added(t, GotRinging);
    assert (t + o.items)[..|t|] == t;
    if d.state.Cancelling? {
      StaysOrderly(t, GotRinging);
    } else {
      AddedTwo(t, GotRinging, Alert);
      Added(t + [GotRinging], Alert);
    }
    NowAnswered(t, o.items);
  }

  lemma AnswerKeeps(d: Dialog, t: seq<Item>, code: nat, challenge: bool, b: nat)
    requires LegInv(Some(d), t, b) && 200 <= code <= 299
    ensures var o := OnResponse(d, code, challenge, b); LegInv(o.d, t + o.items, o.branch)
  {
    hide Invites, Latest, Up, Orderly, AllAnswered, Cancelled, FreshInv, Ended;
    var o := OnResponse(d, code, challenge, b);
    KeepsFresh(Some(d), t, CallResponse(code, challenge), b);
    NotEnded(d, t);
    var y, z := o.items[1], o.items[2];
    assert o.items == [Got2xx, y, z];
    Added(t, Got2xx);
    Added(t + [Got2xx], y);
    Added(t + [Got2xx] + [y], z);
    AddedThree(t, Got2xx, y, z);
    assert (t + o.items)[..|t|] == t;
    NowAnswered(t, o.items);
  }

  lemma ChallengeKeeps(d: Dialog, t: seq<Item>, code: nat, challenge: bool, b: nat)
    requires LegInv(Some(d), t, b) && (code == 401 || code == 407)
    ensures var o := OnResponse(d, code, challenge, b); LegInv(o.d, t + o.items, o.branch)
  {
    hide Invites, Latest, Up, Orderly, AllAnswered, Cancelled, FreshInv, Ended;
    var o := OnResponse(d, code, challenge, b);
    KeepsFresh(Some(d), t, CallResponse(code, challenge), b);
    NotEnded(d, t);
    var x, y := GotFailure(code, challenge), AckFailure(d.branch, d.cseq);
    Added(t, x);
    Added(t + [x], y);
    if |o.items| == 3 {
      var z := o.items[2];
      AddedThree(t, x, y, z);
      Added(t + [x] + [y], z);
    } else {
      AddedTwo(t, x, y);
    }
    assert (t + o.items)[..|t|] == t;
    NowAnswered(t, o.items);
  }

  lemma FailureKeeps(d: Dialog, t: seq<Item>, code: nat, challenge: bool, b: nat)
    requires LegInv(Some(d), t, b) && 300 <= code <= 699 && code != 401 && code != 407
    ensures var o := OnResponse(d, code, challenge, b); LegInv(o.d, t + o.items, o.branch)
  {
    hide Invites, Latest, Up, Orderly, AllAnswered, Cancelled, FreshInv, Ended;
    var o := OnResponse(d, code, challenge, b);
    KeepsFresh(Some(d), t, CallResponse(code, challenge), b);
    NotEnded(d, t);
    var x, y := GotFailure(code, challenge), AckFailure(d.branch, d.cseq);
    Added(t, x);
    Added(t + [x], y);
    if d.state.Cancelling? {
      AddedTwo(t, x, y);
    } else {
      AddedThree(t, x, y, ReleaseOut);
      Added(t + [x] + [y], ReleaseOut);
    }
    assert (t + o.items)[..|t|] == t;
    NowAnswered(t, o.items);
  }

  lemma ResponseKeeps(d: Dialog, t: seq<Item>, code: nat, challenge: bool, b: nat)
    requires LegInv(Some(d), t, b)
    ensures var o := OnResponse(d, code, challenge, b); LegInv(o.d, t + o.items, o.branch)
  {
    hide LegInv;
    if code == 180 || code == 183 {
      ProvisionalKeeps(d, t, code, challenge, b);
    } else if 200 <= code <= 299 {
      AnswerKeeps(d, t, code, challenge, b);
    } else if code == 401 || code == 407 {
      ChallengeKeeps(d, t, code, challenge, b);
    } else if 300 <= code <= 699 {
      FailureKeeps(d, t, code, challenge, b);
    } else {
      assert t + [] == t;
    }
  }

  /** Every call keeps the invariant of the dialog it concerns. */
  lemma ReactKeeps(d: Option<Dialog>, t: seq<Item>, c: Call, b: nat)
    requires LegInv(d, t, b) && (Starts(c) ==> t == [])
    ensures var o := React(d, c, b); LegInv(o.d, t + o.items, o.branch)
  {
    hide LegInv, OnRelease, OnReject, OnAlert, OnConnect, OnPeerHangup, OnResponse, StartOutbound, StartInbound;
    assert t + [] == t;
    match c
    case CallStart(ok) =>
      NotLive(d, b);
      OutboundStartKeeps(ok, b);
    case CallInbound =>
      NotLive(d, b);
      InboundStartKeeps(b);
    case CallRelease(now) => if d.Some? { ReleaseKeeps(d.value, t, now, b); } else { UnknownReleaseKeeps(t, b); }
    case CallReject(code) => if d.Some? { RejectKeeps(d.value, t, code, b); }
    case CallAlert => if d.Some? { AlertKeeps(d.value, t, b); }
    case CallConnect => if d.Some? { ConnectKeeps(d.value, t, b); }
    case CallPeerHangup => if d.Some? { PeerHangupKeeps(d.value, t, b); }
    case CallResponse(code, challenge) => if d.Some? { ResponseKeeps(d.value, t, code, challenge, b); }
  }

  lemma NotLive(d: Option<Dialog>, b: nat)
    requires LegInv(d, [], b)
    ensures d.None?
  {
  }

  /** Only a cancelled dialog has a release time. */
  lemma Reaped(d: Dialog, t: seq<Item>, b: nat)
    requires LegInv(Some(d), t, b) && d.releasedAt.Some?
    ensures LegInv(None, t, b)
  {
    hide GoodTrace, Ended, Invites, Latest, Up, Cancelled;
    NotEnded(d, t);
  }

  lemma UnknownReleaseKeeps(t: seq<Item>, b: nat)
    requires LegInv(None, t, b)
    ensures LegInv(None, t + [ReleaseIn], b)
  {
    hide Orderly, AllAnswered, FreshInv, Ended, Up, Cancelled, Invites;
    KeepsFresh(None, t, CallRelease(0), b);
    Added(t, ReleaseIn);
    StaysOrderly(t, ReleaseIn);
    assert (t + [ReleaseIn])[..|t|] == t;
    NowAnswered(t, [ReleaseIn]);
  }
}
