/** The SIP side of the PBX entity: the dialog table updated in place by the handlers. Each entry
    point is proved to take the step SipRuns gives it. */
module Asterisk {
  import opened Wrappers
  import opened SipModel
  import opened SipRuns

  class AsteriskEntity {
    var dialogs: map<int, Dialog>
    /** A 64-bit counter that wraps around. */
    var branchCounter: nat
    /** The same without wrapping. */
    ghost var draws: nat
    /** Everything sent and received that the dialogs' traces speak of, in order. */
    var log: seq<(int, Item)>

    ghost predicate Valid()
      reads this`branchCounter, this`draws
    {
      branchCounter == Wire(draws)
    }

    ghost function View(): Sys
      reads this
    {
      Sys(dialogs, draws, log)
    }

    constructor ()
      ensures Valid() && View() == EMPTY
    {
      dialogs, branchCounter, draws, log := map[], 1, 1, [];
    }

    method Log(u: int, x: Item)
      modifies this`log
      ensures log == old(log) + [(u, x)]
    {
      log := log + [(u, x)];
    }

    method NextBranch() returns (b: nat)
      requires Valid()
      modifies this`branchCounter, this`draws
      ensures Valid() && b == Wire(old(draws)) && draws == old(draws) + 1
    {
      b := branchCounter;
      branchCounter := if branchCounter + 1 == BRANCHES then 0 else branchCounter + 1;
      draws := draws + 1;
    }

    /** REGISTER and OPTIONS draw a branch and concern no dialog. */
    method SendKeepalive()
      requires Valid()
      modifies this`branchCounter, this`draws
      ensures Valid() && View() == Next(old(View()), Keepalive)
    {
      var _ := NextBranch();
    }

    /** Remember the branch of the INVITE and send it. */
    method SendInvite(u: int)
      requires Valid() && u in dialogs
      modifies this
      ensures Valid() && dialogs == old(dialogs)[u := old(dialogs)[u].(branch := Wire(old(draws)))]
      ensures draws == old(draws) + 1
      ensures log == old(log) + [(u, Invite(Wire(old(draws)), old(dialogs)[u].cseq))]
    {
      var b := NextBranch();
      dialogs := dialogs[u := dialogs[u].(branch := b)];
      Log(u, Invite(b, dialogs[u].cseq));
    }

    method SendByeOrCancel(u: int, cancel: bool)
      requires Valid() && u in dialogs
      modifies this`branchCounter, this`draws, this`log
      ensures Valid() && draws == old(draws) + 1
      ensures log == old(log) + [(u, ByeOrCancel(dialogs[u], cancel, old(draws)))]
    {
      var d := dialogs[u];
      var freshBranch := NextBranch();
      var branch := if cancel then d.branch else freshBranch;
      var cseq := if cancel then d.cseq else SaturatingInc(d.cseq);
      Log(u, if cancel then Cancel(branch, cseq) else Bye(branch, cseq));
    }

    method DropDialog(u: int)
      modifies this`dialogs
      ensures dialogs == old(dialogs) - {u}
    {
      dialogs := dialogs - {u};
    }

    method StartOutboundCall(u: int, ok: bool)
      requires Valid()
      modifies this
      ensures Valid() && View() == Next(old(View()), On(u, CallStart(ok)))
    {
      if !ok {
        Unchanged(dialogs, u);
        Log(u, Unavailable);
        Log(u, SetupReject);
        return;
      }
      Log(u, Start(false));
      dialogs := dialogs[u := Dialog(false, 1, NO_BRANCH, false, Inviting, None)];
      Log(u, SetupAccept);
      SendInvite(u);
    }

    method StartInboundCall(u: int)
      requires Valid()
      modifies this
      ensures Valid() && View() == Next(old(View()), On(u, CallInbound))
    {
      Log(u, Start(true));
      dialogs := dialogs[u := Dialog(true, 1, NO_BRANCH, false, Inviting, None)];
      Log(u, Reply(100));
      Log(u, SetupRequest);
    }

    method HandleInboundSetupReject(u: int, code: nat)
      requires Valid()
      modifies this
      ensures Valid() && View() == Next(old(View()), On(u, CallReject(code)))
    {
      Unchanged(dialogs, u);
      if u !in dialogs || !dialogs[u].inbound {
        return;
      }
      Log(u, RejectIn(code));
      Log(u, Reply(code));
      ReleaseDialog(u, false, 0);
    }

    method HandleInboundAlert(u: int)
      requires Valid()
      modifies this
      ensures Valid() && View() == Next(old(View()), On(u, CallAlert))
    {
      Unchanged(dialogs, u);
      if u !in dialogs || !dialogs[u].inbound {
        return;
      }
      Log(u, AlertIn);
      dialogs := dialogs[u := dialogs[u].(state := Ringing)];
      Log(u, Reply(180));
    }

    method HandleInboundConnectRequest(u: int)
      requires Valid()
      modifies this
      ensures Valid() && View() == Next(old(View()), On(u, CallConnect))
    {
      Unchanged(dialogs, u);
      if u !in dialogs || !dialogs[u].inbound {
        return;
      }
      Log(u, ConnectIn);
      dialogs := dialogs[u := dialogs[u].(state := Established)];
      Log(u, Reply(200));
      Log(u, ConnectConfirm);
    }

    /** Tear a dialog down. One that is cancelled on CMCE's behalf stays until its INVITE ends. */
    method ReleaseDialog(u: int, fromCmce: bool, now: int)
      requires Valid()
      modifies this
      ensures Valid() && (u !in old(dialogs) ==> View() == old(View()))
      ensures u in old(dialogs) && !fromCmce ==> View() == old(View()).(dialogs := old(dialogs) - {u})
      ensures u in old(dialogs) && fromCmce ==>
                var o := OnRelease(old(dialogs)[u], now, old(draws));
                View() == Sys(Put(old(dialogs), u, o.d), o.branch, old(log) + Tag(u, o.items[1..]))
    {
      if u !in dialogs {
        return;
      }
      var d := dialogs[u];
      var cancel := !d.state.Established?;
      if fromCmce {
        if d.inbound && cancel {
          Log(u, Reply(480));
        } else {
          SendByeOrCancel(u, cancel);
        }
      }
      if fromCmce && cancel && !d.inbound {
        dialogs := dialogs[u := d.(state := Cancelling, releasedAt := Some(now))];
        return;
      }
      DropDialog(u);
    }

    /** CMCE's release. */
    method RxRelease(u: int, now: int)
      requires Valid()
      modifies this
      ensures Valid() && View() == Next(old(View()), On(u, CallRelease(now)))
    {
      Unchanged(dialogs, u);
      Log(u, ReleaseIn);
      ReleaseDialog(u, true, now);
    }

    /** A BYE or CANCEL request for this dialog. */
    method HandlePeerHangup(u: int)
      requires Valid()
      modifies this
      ensures Valid() && View() == Next(old(View()), On(u, CallPeerHangup))
    {
      Unchanged(dialogs, u);
      if u in dialogs {
        Log(u, HungUp);
        if !dialogs[u].state.Cancelling? {
          Log(u, ReleaseOut);
        }
        ReleaseDialog(u, false, 0);
      }
    }

    method AckNon2xx(u: int)
      requires u in dialogs
      modifies this`log
      ensures log == old(log) + [(u, AckFailure(dialogs[u].branch, dialogs[u].cseq))]
    {
      Log(u, AckFailure(dialogs[u].branch, dialogs[u].cseq));
    }

    /** A response to the INVITE of this dialog. */
    method HandleInviteResponse(u: int, code: nat, challenge: bool)
      requires Valid()
      modifies this
      ensures Valid() && View() == Next(old(View()), On(u, CallResponse(code, challenge)))
    {
      Unchanged(dialogs, u);
      if u !in dialogs {
        return;
      }
      var cancelling := dialogs[u].state.Cancelling?;
      if code == 100 {
      } else if code == 180 || code == 183 {
        Log(u, GotRinging);
        if cancelling {
          return;
        }
        dialogs := dialogs[u := dialogs[u].(state := Ringing)];
        Log(u, Alert);
      } else if 200 <= code <= 299 {
        HandleAnswer(u, code, challenge);
      } else if code == 401 || code == 407 {
        HandleChallenge(u, code, challenge);
      } else if 300 <= code <= 699 {
        Log(u, GotFailure(code, challenge));
        AckNon2xx(u);
        if cancelling {
          DropDialog(u);
          return;
        }
        Log(u, ReleaseOut);
        ReleaseDialog(u, false, 0);
      }
    }

    method HandleAnswer(u: int, code: nat, challenge: bool)
      requires Valid() && u in dialogs && 200 <= code <= 299
      modifies this
      ensures Valid() && View() == Next(old(View()), On(u, CallResponse(code, challenge)))
    {
      var cancelling := dialogs[u].state.Cancelling?;
      Log(u, Got2xx);
      if !cancelling {
        dialogs := dialogs[u := dialogs[u].(state := Established)];
      }
      var b := NextBranch();
      Log(u, Ack2xx(b, dialogs[u].cseq));
      if cancelling {
        SendByeOrCancel(u, false);
        DropDialog(u);
        return;
      }
      Log(u, ConnectRequest);
    }

    /** A challenge: acknowledge it, then retry the INVITE once with the next number. */
    method HandleChallenge(u: int, code: nat, challenge: bool)
      requires Valid() && u in dialogs && (code == 401 || code == 407)
      modifies this
      ensures Valid() && View() == Next(old(View()), On(u, CallResponse(code, challenge)))
    {
      Unchanged(dialogs, u);
      Log(u, GotFailure(code, challenge));
      AckNon2xx(u);
      if dialogs[u].state.Cancelling? {
        DropDialog(u);
        return;
      }
      if challenge {
        var retry := false;
        if !dialogs[u].authRetrySent {
          var cseq := SaturatingInc(dialogs[u].cseq);
          dialogs := dialogs[u := dialogs[u].(authRetrySent := true, cseq := cseq)];
          retry := true;
        }
        if retry {
          SendInvite(u);
        }
      }
    }

    /** Drop the cancelled dialogs whose final response never came. */
    method MaybePeriodicSip(now: int)
      requires Valid()
      modifies this`dialogs
      ensures Valid() && View() == Next(old(View()), Reap(now))
    {
      hide Fresher, Stale;
      var stale := set u | u in dialogs && Stale(dialogs[u], now);
      while stale != {}
        invariant stale <= dialogs.Keys
        invariant forall u :: u in stale ==> Stale(dialogs[u], now)
        invariant Fresher(dialogs, now) == Fresher(old(dialogs), now)
        invariant forall u :: u in dialogs && u !in stale ==> !Stale(dialogs[u], now)
        decreases |stale|
      {
        Inhabited(stale);
        var u :| u in stale;
        FresherWithout(dialogs, u, now);
        DropDialog(u);
        stale := stale - {u};
      }
      FresherIsAll(dialogs, now);
    }
  }

  lemma FresherWithout(m: map<int, Dialog>, u: int, now: int)
    requires u in m && Stale(m[u], now)
    ensures Fresher(m - {u}, now) == Fresher(m, now)
  {
  }

  lemma FresherIsAll(m: map<int, Dialog>, now: int)
    requires forall u :: u in m ==> !Stale(m[u], now)
    ensures Fresher(m, now) == m
  {
    hide Stale;
    var f := Fresher(m, now);
    forall u ensures u in f <==> u in m {
    }
    assert f.Keys == m.Keys;
  }

  lemma Unchanged(m: map<int, Dialog>, u: int)
    ensures Put(m, u, if u in m then Some(m[u]) else None) == m
    ensures forall log: seq<(int, Item)> :: log + Tag(u, []) == log
  {
  }
}
