/** All dialogs together: runs of the entity and what holds of every dialog in every run. */
module SipRuns {
  import opened Wrappers
  import opened SipModel

  /** branch is the number of the next branch to be drawn. */
  datatype Sys = Sys(dialogs: map<int, Dialog>, branch: nat, log: seq<(int, Item)>)

  /** A call concerning the dialog with this uuid, the reaper, or a REGISTER or OPTIONS request, which
      draws a branch too. A lookup by Call-ID picks some dialog; the results hold whichever it picks. */
  datatype Event = On(u: int, c: Call) | Reap(now: int) | Keepalive

  function Get(s: Sys, u: int): Option<Dialog> {
    if u in s.dialogs then Some(s.dialogs[u]) else None
  }

  function Put(m: map<int, Dialog>, u: int, d: Option<Dialog>): map<int, Dialog> {
    if d.Some? then m[u := d.value] else m - {u}
  }

  function Tag(u: int, items: seq<Item>): (r: seq<(int, Item)>)
    ensures |r| == |items| && forall i :: 0 <= i < |r| ==> r[i] == (u, items[i])
  {
    seq(|items|, i requires 0 <= i < |items| => (u, items[i]))
  }

  function Apply(s: Sys, u: int, o: Outcome): Sys {
    Sys(Put(s.dialogs, u, o.d), o.branch, s.log + Tag(u, o.items))
  }

  function Fresher(m: map<int, Dialog>, now: int): map<int, Dialog> {
    map u | u in m && !Stale(m[u], now) :: m[u]
  }

  function Next(s: Sys, e: Event): Sys {
    match e
    case On(u, c) => Apply(s, u, React(Get(s, u), c, s.branch))
    case Reap(now) => s.(dialogs := Fresher(s.dialogs, now))
    case Keepalive => s.(branch := s.branch + 1)
  }

  /** What happened on one dialog. */
  function Trace(log: seq<(int, Item)>, u: int): seq<Item> {
    if log == [] then []
    else Trace(log[..|log| - 1], u) + if log[|log| - 1].0 == u then [log[|log| - 1].1] else []
  }

  /** A new call uses a uuid that has not been used before. */
  predicate Enabled(s: Sys, e: Event) {
    e.On? && Starts(e.c) ==> Trace(s.log, e.u) == []
  }

  const EMPTY: Sys := Sys(map[], 1, [])

  function After(evs: seq<Event>): Sys {
    if evs == [] then EMPTY else Next(After(evs[..|evs| - 1]), evs[|evs| - 1])
  }

  predicate Legal(evs: seq<Event>) {
    evs != [] ==> Legal(evs[..|evs| - 1]) && Enabled(After(evs[..|evs| - 1]), evs[|evs| - 1])
  }

  ghost predicate Inv(s: Sys) {
    forall u :: LegInv(Get(s, u), Trace(s.log, u), s.branch)
  }

  lemma {:induction false} TraceOfMore(log: seq<(int, Item)>, w: int, items: seq<Item>, u: int)
    ensures Trace(log + Tag(w, items), u) == Trace(log, u) + if u == w then items else []
  {
    if items == [] {
      assert log + Tag(w, items) == log;
    } else {
      var n := |items| - 1;
      var all := log + Tag(w, items);
      assert all[..|all| - 1] == log + Tag(w, items[..n]);
      TraceOfMore(log, w, items[..n], u);
      assert items == items[..n] + [items[n]];
    }
  }

  lemma LaterBranch(d: Option<Dialog>, t: seq<Item>, b: nat, b': nat)
    requires LegInv(d, t, b) && b <= b'
    ensures LegInv(d, t, b')
  {
  }

  lemma BranchGrows(d: Option<Dialog>, c: Call, b: nat)
    ensures React(d, c, b).branch >= b
  {
  }

  lemma NextInv(s: Sys, e: Event)
    requires Inv(s) && Enabled(s, e)
    ensures Inv(Next(s, e))
  {
    hide LegInv, React, Trace;
    var s' := Next(s, e);
    match e
    case On(w, c) =>
      var o := React(Get(s, w), c, s.branch);
      BranchGrows(Get(s, w), c, s.branch);
      forall u ensures LegInv(Get(s', u), Trace(s'.log, u), s'.branch) {
        TraceOfMore(s.log, w, o.items, u);
        assert LegInv(Get(s, u), Trace(s.log, u), s.branch);
        if u == w {
          ReactKeeps(Get(s, u), Trace(s.log, u), c, s.branch);
        } else {
          assert Trace(s.log, u) + [] == Trace(s.log, u);
          LaterBranch(Get(s, u), Trace(s.log, u), s.branch, s'.branch);
        }
      }
    case Reap(now) =>
      forall u ensures LegInv(Get(s', u), Trace(s'.log, u), s'.branch) {
        assert LegInv(Get(s, u), Trace(s.log, u), s.branch);
        if Get(s', u).None? && Get(s, u).Some? {
          Reaped(s.dialogs[u], Trace(s.log, u), s.branch);
        }
      }
    case Keepalive =>
      forall u ensures LegInv(Get(s', u), Trace(s'.log, u), s'.branch) {
        assert LegInv(Get(s, u), Trace(s.log, u), s.branch);
        LaterBranch(Get(s, u), Trace(s.log, u), s.branch, s'.branch);
      }
  }

  lemma {:induction false} RunInv(evs: seq<Event>)
    requires Legal(evs)
    ensures Inv(After(evs))
  {
    if evs == [] {
      NoItems();
      assert forall u :: Get(EMPTY, u) == None && Trace(EMPTY.log, u) == [];
    } else {
      RunInv(evs[..|evs| - 1]);
      NextInv(After(evs[..|evs| - 1]), evs[|evs| - 1]);
    }
  }

  /** In every run, on every dialog: what comes in is answered at once as Answered says, and nothing goes
      out without its cause; CMCE hears nothing after a release in either direction, so at most one
      release is sent and none after its own. On an outbound dialog, at most two INVITEs are sent, and
      every INVITE, CANCEL, ACK and BYE carries the number its transaction demands, and CANCEL and the
      ACK of a failure its branch. A request that opens a transaction has a branch not used before, as
      long as the entity has drawn at most 2^64. */
  lemma DialogTraces(evs: seq<Event>, u: int)
    requires Legal(evs)
    ensures var t := Trace(After(evs).log, u);
            && (forall i :: 0 <= i < |t| ==> Answered(t, i) && Caused(t[..i], t[i]))
            && (forall i, j :: 0 <= i < j < |t| && (t[i].ReleaseIn? || t[i].ReleaseOut?) ==> !ToCmce(t[j]))
            && (Outbound(t) ==> Invites(t) <= 2 && forall i :: 0 <= i < |t| ==> InTransaction(t[..i], t[i]))
            && (After(evs).branch <= BRANCHES + 1 ==>
                  forall i, j :: 0 <= j < i < |t| && Opens(t[i]) && HasBranch(t[j]) ==> t[j].branch != t[i].branch)
  {
    hide After, Legal, Trace, InTransaction, Invites, Answered, Caused;
    RunInv(evs);
    var s := After(evs);
    var t := Trace(s.log, u);
    assert LegInv(Get(s, u), t, s.branch);
    forall i, j | 0 <= i < j < |t| && (t[i].ReleaseIn? || t[i].ReleaseOut?) ensures !ToCmce(t[j]) {
      assert Silent(t, i, j);
    }
    if s.branch <= BRANCHES + 1 {
      AllDiffer(t);
    }
  }

  /** In every run, a dialog that was started and is gone has been released from one side or refused
      by CMCE, and one that is there has not, but for CMCE's release of a call whose INVITE is still
      being cancelled. */
  lemma GoneWhenEnded(evs: seq<Event>, u: int)
    requires Legal(evs)
    ensures var t, d := Trace(After(evs).log, u), Get(After(evs), u);
            && (d.None? && Started(t) ==> Ended(t))
            && (d.Some? ==> Started(t) && (Ended(t) <==> d.value.state.Cancelling?))
            && (d.Some? && Ended(t) ==> Cancelled(t) && ReleaseIn in t && ReleaseOut !in t)
  {
    hide After, Legal, Trace, Ended, Started, Cancelled, GoodTrace, FreshInv;
    RunInv(evs);
    var s := After(evs);
    var t := Trace(s.log, u);
    assert LegInv(Get(s, u), t, s.branch);
    if Get(s, u).Some? {
      NotEnded(s.dialogs[u], t);
    }
  }

  lemma AllDiffer(t: seq<Item>)
    requires Fresh(t)
    ensures forall i, j :: 0 <= j < i < |t| && Opens(t[i]) && HasBranch(t[j]) ==> t[j].branch != t[i].branch
  {
    hide Drawn;
    forall i, j | 0 <= j < i < |t| && Opens(t[i]) && HasBranch(t[j]) ensures t[j].branch != t[i].branch {
      assert t[..i][j] == t[j];
    }
  }

  /** What an event brings in, on a dialog that is there where it needs one. */
  function Brings(d: Option<Dialog>, c: Call): seq<Item> {
    match c
    case CallStart(ok) => if ok then [Start(false)] else [Unavailable]
    case CallInbound => [Start(true)]
    case CallRelease(_) => [ReleaseIn]
    case CallReject(code) => if d.Some? && d.value.inbound then [RejectIn(code)] else []
    case CallAlert => if d.Some? && d.value.inbound then [AlertIn] else []
    case CallConnect => if d.Some? && d.value.inbound then [ConnectIn] else []
    case CallPeerHangup => if d.Some? then [HungUp] else []
    case CallResponse(code, challenge) =>
      if d.None? then []
      else if code == 180 || code == 183 then [GotRinging]
      else if 200 <= code <= 299 then [Got2xx]
      else if 300 <= code <= 699 then [GotFailure(code, challenge)]
      else []
  }

  function BroughtIn(evs: seq<Event>, u: int): seq<Item> {
    if evs == [] then []
    else
      var n := |evs| - 1;
      BroughtIn(evs[..n], u)
      + if evs[n].On? && evs[n].u == u then Brings(Get(After(evs[..n]), u), evs[n].c) else []
  }

  /** The items that come in, in order. */
  function Incoming(t: seq<Item>): seq<Item> {
    if t == [] then [] else Incoming(t[..|t| - 1]) + if ComesIn(t[|t| - 1]) then [t[|t| - 1]] else []
  }

  lemma {:induction false} IncomingConcat(a: seq<Item>, b: seq<Item>)
    ensures Incoming(a + b) == Incoming(a) + Incoming(b)
  {
    if b == [] {
      assert a + b == a;
    } else {
      assert (a + b)[..|a + b| - 1] == a + b[..|b| - 1];
      IncomingConcat(a, b[..|b| - 1]);
    }
  }

  lemma {:induction false} NothingIncoming(t: seq<Item>)
    requires forall i :: 0 <= i < |t| ==> !ComesIn(t[i])
    ensures Incoming(t) == []
  {
    if t != [] {
      NothingIncoming(t[..|t| - 1]);
    }
  }

  lemma FirstIncoming(t: seq<Item>)
    requires t != [] && ComesIn(t[0]) && forall i :: 1 <= i < |t| ==> !ComesIn(t[i])
    ensures Incoming(t) == [t[0]]
  {
    hide ComesIn, Incoming;
    assert t == [t[0]] + t[1..];
    IncomingConcat([t[0]], t[1..]);
    NothingIncoming(t[1..]);
    OneIncoming(t[0]);
  }

  lemma OneIncoming(x: Item)
    requires ComesIn(x)
    ensures Incoming([x]) == [x]
  {
    hide ComesIn;
    assert [x][..0] == [];
    assert Incoming([]) == [];
  }

  /** Nothing that happens is missed or invented: in every run the items of a dialog that come in are
      those the events bring, in order. */
  lemma {:induction false} NothingMissed(evs: seq<Event>, u: int)
    requires Legal(evs)
    ensures Incoming(Trace(After(evs).log, u)) == BroughtIn(evs, u)
  {
    hide Incoming, Brings, React, Enabled;
    if evs == [] {
      NothingIncoming([]);
    } else {
      var n := |evs| - 1;
      var s, e := After(evs[..n]), evs[n];
      NothingMissed(evs[..n], u);
      if e.On? {
        var o := React(Get(s, e.u), e.c, s.branch);
        TraceOfMore(s.log, e.u, o.items, u);
        IncomingConcat(Trace(s.log, u), if u == e.u then o.items else []);
        NothingIncoming([]);
        ReactBrings(Get(s, e.u), e.c, s.branch);
      }
    }
  }

  lemma ReactBrings(d: Option<Dialog>, c: Call, b: nat)
    ensures Incoming(React(d, c, b).items) == Brings(d, c)
  {
    hide Incoming;
    var items := React(d, c, b).items;
    if items == [] {
      NothingIncoming(items);
    } else {
      FirstIncoming(items);
    }
  }

  lemma ReactEnds(d: Option<Dialog>, t: seq<Item>, c: Call, b: nat)
    requires LegInv(d, t, b) && (Starts(c) ==> t == [])
    ensures var d' := React(d, c, b).d;
            && (d.Some? && d.value.state.Cancelling? ==> d'.None? || d'.value.state.Cancelling?)
            && (d.None? && t != [] ==> d'.None?)
  {
  }

  /** A cancelled dialog stays cancelled until it is removed, and a removed one never comes back. */
  lemma CancellingEndsInRemoval(evs: seq<Event>, e: Event, u: int)
    requires Legal(evs + [e])
    ensures var s, s' := After(evs), After(evs + [e]);
            && (Get(s, u).Some? && Get(s, u).value.state.Cancelling?
                ==> Get(s', u).None? || Get(s', u).value.state.Cancelling?)
            && (Get(s, u).None? && Trace(s.log, u) != [] ==> Get(s', u).None?)
  {
    hide React, Trace, LegInv;
    var all := evs + [e];
    assert all[..|all| - 1] == evs;
    RunInv(evs);
    var s := After(evs);
    assert LegInv(Get(s, u), Trace(s.log, u), s.branch);
    if e.On? && e.u == u {
      ReactEnds(Get(s, u), Trace(s.log, u), e.c, s.branch);
    }
  }

  /** When CMCE last released this call. */
  function LastRelease(evs: seq<Event>, u: int): Option<int> {
    if evs == [] then None
    else
      match evs[|evs| - 1]
      case On(w, CallRelease(now)) => if w == u then Some(now) else LastRelease(evs[..|evs| - 1], u)
      case _ => LastRelease(evs[..|evs| - 1], u)
  }

  /** In every run a dialog has a release time exactly while it is being cancelled, and it is the time of
      CMCE's last release. */
  lemma {:induction false} ReleaseTime(evs: seq<Event>, u: int)
    requires Legal(evs)
    ensures Timed(Get(After(evs), u), LastRelease(evs, u))
  {
    hide Timed, Next, Enabled;
    if evs == [] {
      NothingTimed(u);
    } else {
      var n := |evs| - 1;
      ReleaseTime(evs[..n], u);
      RunInv(evs[..n]);
      hide Trace, LegInv, After;
      TimedStep(After(evs[..n]), evs[n], u, LastRelease(evs[..n], u));
      AfterLast(evs);
    }
  }

  ghost predicate Timed(d: Option<Dialog>, released: Option<int>) {
    d.Some? ==> d.value.releasedAt == if d.value.state.Cancelling? then released else None
  }

  lemma NothingTimed(u: int)
    ensures Timed(Get(After([]), u), None)
  {
  }

  lemma TimedStep(s: Sys, e: Event, u: int, released: Option<int>)
    requires Inv(s) && Enabled(s, e) && Timed(Get(s, u), released)
    ensures Timed(Get(Next(s, e), u), if e.On? && e.u == u && e.c.CallRelease? then Some(e.c.now) else released)
  {
    hide Trace, GoodTrace, FreshInv, React;
    assert LegInv(Get(s, u), Trace(s.log, u), s.branch);
    if e.On? && e.u == u {
      TimedReact(Get(s, u), Trace(s.log, u), e.c, s.branch, released);
    }
  }

  lemma TimedReact(d: Option<Dialog>, t: seq<Item>, c: Call, b: nat, released: Option<int>)
    requires (if d.Some? then Reflects(d.value, t) else true) && (Starts(c) ==> t == []) && Timed(d, released)
    ensures Timed(React(d, c, b).d, if c.CallRelease? then Some(c.now) else released)
  {
    hide Invites, Latest, Up, Cancelled;
  }

  lemma AfterLast(evs: seq<Event>)
    requires evs != []
    ensures After(evs) == Next(After(evs[..|evs| - 1]), evs[|evs| - 1])
  {
  }

  /** The reaper drops exactly the dialogs that CMCE released 32 seconds ago or more. */
  lemma ReapedAfter32(evs: seq<Event>, u: int, now: int)
    requires Legal(evs)
    ensures var d, d' := Get(After(evs), u), Get(Next(After(evs), Reap(now)), u);
            var r := LastRelease(evs, u);
            if d.Some? && d.value.state.Cancelling? && r.Some? && now - r.value >= 32 then d'.None? else d' == d
  {
    hide After, Legal, LastRelease;
    ReleaseTime(evs, u);
    RunInv(evs);
  }

  /** CMCE's release of a live outbound call goes out as a BYE exactly when, since the callee last
      rang, it has answered; otherwise as a CANCEL. */
  lemma HangUp(evs: seq<Event>, u: int, now: int)
    requires Legal(evs)
    requires var d := Get(After(evs), u); d.Some? && !d.value.inbound && !d.value.state.Cancelling?
    ensures var s := After(evs);
            var o := React(Get(s, u), CallRelease(now), s.branch);
            |o.items| == 2 && o.items[1] == (if Up(Trace(s.log, u)) then Bye(Wire(s.branch), s.dialogs[u].cseq + 1)
                                             else Cancel(s.dialogs[u].branch, s.dialogs[u].cseq))
  {
    hide After, Legal, Trace, Up;
    RunInv(evs);
    var s := After(evs);
    assert LegInv(Get(s, u), Trace(s.log, u), s.branch);
  }

  /** One more call on a dialog, in terms of that dialog alone. */
  lemma OneMore(evs: seq<Event>, u: int, c: Call)
    requires Legal(evs) && (Starts(c) ==> Trace(After(evs).log, u) == [])
    ensures var s, s' := After(evs), After(evs + [On(u, c)]);
            var o := React(Get(s, u), c, s.branch);
            && Legal(evs + [On(u, c)]) && Get(s', u) == o.d && s'.branch == o.branch
            && Trace(s'.log, u) == Trace(s.log, u) + o.items
  {
    hide React, Trace;
    var all := evs + [On(u, c)];
    assert all[..|all| - 1] == evs;
    var s := After(evs);
    TraceOfMore(s.log, u, React(Get(s, u), c, s.branch).items, u);
  }

  /** A ringing indication that arrives after the answer takes the call back to ringing: a run in
      which an answered and acknowledged call is then hung up with a CANCEL. */
  lemma LateRinging() returns (evs: seq<Event>)
    ensures Legal(evs)
    ensures Trace(After(evs).log, 7) == [Start(false), SetupAccept, Invite(1, 1), Got2xx, Ack2xx(2, 1),
                                         ConnectRequest, GotRinging, Alert, ReleaseIn, Cancel(1, 1)]
  {
    hide Trace, After, Legal;
    var d := Dialog(false, 1, 1, false, Inviting, None);
    Beginning(7);
    OneMore([], 7, CallStart(true));
    evs := [] + [On(7, CallStart(true))];
    assert Get(After(evs), 7) == Some(d) && After(evs).branch == 2;
    OneMore(evs, 7, CallResponse(200, false));
    evs := evs + [On(7, CallResponse(200, false))];
    assert Get(After(evs), 7) == Some(d.(state := Established)) && After(evs).branch == 3;
    OneMore(evs, 7, CallResponse(180, false));
    evs := evs + [On(7, CallResponse(180, false))];
    assert Get(After(evs), 7) == Some(d.(state := Ringing));
    OneMore(evs, 7, CallRelease(0));
    evs := evs + [On(7, CallRelease(0))];
  }

  lemma Beginning(u: int)
    ensures Legal([]) && Get(After([]), u) == None && After([]).branch == 1 && Trace(After([]).log, u) == []
  {
  }

  lemma {:induction false} ManyKeepalives(evs: seq<Event>, n: nat) returns (more: seq<Event>)
    requires Legal(evs)
    ensures Legal(more) && After(more) == After(evs).(branch := After(evs).branch + n)
  {
    if n == 0 {
      more := evs;
    } else {
      var part := ManyKeepalives(evs, n - 1);
      more := part + [Keepalive];
      assert more[..|more| - 1] == part;
    }
  }

  /** One branch more than 2^64 and the bound of DialogTraces fails: a run in which the ACK of the
      2xx carries the branch of the INVITE. */
  lemma BranchReused() returns (evs: seq<Event>)
    ensures Legal(evs) && After(evs).branch == BRANCHES + 2
    ensures Trace(After(evs).log, 7) == [Start(false), SetupAccept, Invite(1, 1), Got2xx, Ack2xx(1, 1), ConnectRequest]
  {
    hide Trace, After, Legal;
    Beginning(7);
    OneMore([], 7, CallStart(true));
    evs := [] + [On(7, CallStart(true))];
    assert Get(After(evs), 7) == Some(Dialog(false, 1, 1, false, Inviting, None)) && After(evs).branch == 2;
    evs := ManyKeepalives(evs, BRANCHES - 1);
    OneMore(evs, 7, CallResponse(200, false));
    evs := evs + [On(7, CallResponse(200, false))];
  }
}
