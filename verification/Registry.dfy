/** The subscriber registry: who is registered, which groups each subscriber is attached to, and
    the set of groups with at least one member, kept up to date by every operation. */
module Registry {
  import opened Wrappers

  /** Subscribers and their attached groups. */
  type Groups = map<int, set<int>>

  datatype DgnaGroup = DgnaGroup(mnemonic: Option<string>, attachmentMode: int)

  datatype DeviceGroup = DeviceGroup(
    gssi: int, mnemonic: Option<string>, attachmentMode: Option<int>, isDynamic: bool, isAttached: bool)

  predicate Member(m: Groups, issi: int, gssi: int) {
    issi in m && gssi in m[issi]
  }

  /** The group index holds exactly the groups some subscriber is attached to. */
  ghost predicate Indexed(m: Groups, index: set<int>) {
    forall g :: g in index <==> exists i :: Member(m, i, g)
  }

  datatype Op =
    | Register(issi: int) | Deregister(issi: int)
    | Affiliate(issi: int, gssi: int) | Deaffiliate(issi: int, gssi: int)

  function Of(m: Groups, issi: int): set<int> {
    if issi in m then m[issi] else {}
  }

  function Step(m: Groups, op: Op): Groups {
    match op
    case Register(i) => m[i := {}]
    case Deregister(i) => m - {i}
    case Affiliate(i, g) => m[i := Of(m, i) + {g}]
    case Deaffiliate(i, g) => m[i := Of(m, i) - {g}]
  }

  function After(ops: seq<Op>): Groups {
    if ops == [] then map[] else Step(After(ops[..|ops| - 1]), ops[|ops| - 1])
  }

  /** Attachment read off the history alone: the last operation that concerns the subscriber and
      either the group or the whole registration is an affiliation. */
  ghost predicate Attached(ops: seq<Op>, issi: int, gssi: int) {
    exists k :: 0 <= k < |ops| && ops[k] == Affiliate(issi, gssi) && Unbroken(ops, k, issi, gssi)
  }

  predicate Ends(op: Op, issi: int, gssi: int) {
    op == Register(issi) || op == Deregister(issi) || op == Deaffiliate(issi, gssi)
  }

  ghost predicate Unbroken(ops: seq<Op>, k: nat, issi: int, gssi: int) {
    forall j :: k < j < |ops| ==> !Ends(ops[j], issi, gssi)
  }

  /** After any run, a subscriber is attached to a group exactly when the history says so. */
  lemma {:induction false} RunIsHistory(ops: seq<Op>, issi: int, gssi: int)
    ensures Member(After(ops), issi, gssi) <==> Attached(ops, issi, gssi)
  {
    if ops != [] {
      var before, op := ops[..|ops| - 1], ops[|ops| - 1];
      RunIsHistory(before, issi, gssi);
      if Attached(before, issi, gssi) && !Ends(op, issi, gssi) {
        var k :| 0 <= k < |before| && before[k] == Affiliate(issi, gssi) && Unbroken(before, k, issi, gssi);
        assert Unbroken(ops, k, issi, gssi);
        assert Attached(ops, issi, gssi);
      }
      if op == Affiliate(issi, gssi) {
        assert Unbroken(ops, |ops| - 1, issi, gssi);
      }
      if Attached(ops, issi, gssi) && op != Affiliate(issi, gssi) {
        var k :| 0 <= k < |ops| && ops[k] == Affiliate(issi, gssi) && Unbroken(ops, k, issi, gssi);
        assert Unbroken(before, k, issi, gssi) && before[k] == Affiliate(issi, gssi);
      }
    }
  }

  /** Registered read off the history: something registered the subscriber, and it has not been
      deregistered since. Affiliations of either kind register a subscriber that is not. */
  ghost predicate Registered(ops: seq<Op>, issi: int) {
    exists k :: 0 <= k < |ops| && ops[k].issi == issi && !ops[k].Deregister? && NotSince(ops, k, issi)
  }

  ghost predicate NotSince(ops: seq<Op>, k: nat, issi: int) {
    forall j :: k < j < |ops| ==> ops[j] != Op.Deregister(issi)
  }

  /** After any run, a subscriber is registered exactly when the history says so. */
  lemma {:induction false} RegisteredIsHistory(ops: seq<Op>, issi: int)
    ensures issi in After(ops) <==> Registered(ops, issi)
  {
    if ops != [] {
      var n := |ops| - 1;
      var before, op := ops[..n], ops[n];
      RegisteredIsHistory(before, issi);
      if Registered(before, issi) && op != Op.Deregister(issi) {
        var k :| 0 <= k < n && before[k].issi == issi && !before[k].Deregister? && NotSince(before, k, issi);
        assert ops[k] == before[k] && NotSince(ops, k, issi);
      }
      if op.issi == issi && !op.Deregister? {
        assert NotSince(ops, n, issi);
      }
      if Registered(ops, issi) && op.issi != issi {
        var k :| 0 <= k <= n && ops[k].issi == issi && !ops[k].Deregister? && NotSince(ops, k, issi);
        assert before[k] == ops[k] && NotSince(before, k, issi);
      }
    }
  }

  class SubscriberRegistry {
    var subscribers: Groups
    var allAttachedGroups: set<int>
    var dgnaGroups: map<int, map<int, DgnaGroup>>

    ghost predicate Valid()
      reads this
    {
      Indexed(subscribers, allAttachedGroups)
    }

    constructor ()
      ensures Valid() && subscribers == After([]) && dgnaGroups == map[]
    {
      subscribers, allAttachedGroups, dgnaGroups := map[], {}, map[];
    }

    /** Whether any subscriber is attached to this group, by scanning them all. */
    method StillHasMembers(gssi: int) returns (found: bool)
      ensures found <==> exists i :: Member(subscribers, i, gssi)
    {
      var todo := subscribers.Keys;
      while todo != {}
        invariant todo <= subscribers.Keys
        invariant forall i :: i in subscribers && i !in todo ==> gssi !in subscribers[i]
        decreases |todo|
      {
        Inhabited(todo);
        var i :| i in todo;
        if gssi in subscribers[i] {
          assert Member(subscribers, i, gssi);
          return true;
        }
        todo := todo - {i};
      }
      found := false;
    }

    /** Remove a subscriber, and from the index the groups nobody else is attached to. */
    method Deregister(issi: int)
      requires Valid()
      modifies this`subscribers, this`allAttachedGroups
      ensures Valid() && subscribers == Step(old(subscribers), Op.Deregister(issi))
    {
      if issi !in subscribers {
        assert subscribers - {issi} == subscribers;
        return;
      }
      var groups := subscribers[issi];
      subscribers := subscribers - {issi};
      ghost var m := subscribers;
      var todo := groups;
      IndexWithout(old(subscribers), allAttachedGroups, issi);
      while todo != {}
        invariant todo <= groups && subscribers == m
        invariant forall g :: g in allAttachedGroups <==> g in todo || exists i :: Member(m, i, g)
        decreases |todo|
      {
        Inhabited(todo);
        var gssi :| gssi in todo;
        var still := StillHasMembers(gssi);
        if !still {
          allAttachedGroups := allAttachedGroups - {gssi};
        }
        todo := todo - {gssi};
      }
    }

    /** Register afresh: an old registration and its attachments go first. */
    method Register(issi: int)
      requires Valid()
      modifies this`subscribers, this`allAttachedGroups
      ensures Valid() && subscribers == Step(old(subscribers), Op.Register(issi))
    {
      Deregister(issi);
      IndexWithNone(subscribers, allAttachedGroups, issi);
      subscribers := subscribers[issi := {}];
    }

    method Affiliate(issi: int, gssi: int)
      requires Valid()
      modifies this`subscribers, this`allAttachedGroups
      ensures Valid() && subscribers == Step(old(subscribers), Op.Affiliate(issi, gssi))
    {
      IndexWith(subscribers, allAttachedGroups, issi, gssi);
      if issi !in subscribers {
        subscribers := subscribers[issi := {}];
      }
      subscribers := subscribers[issi := subscribers[issi] + {gssi}];
      assert subscribers == old(subscribers)[issi := Of(old(subscribers), issi) + {gssi}];
      allAttachedGroups := allAttachedGroups + {gssi};
    }

    method Deaffiliate(issi: int, gssi: int)
      requires Valid()
      modifies this`subscribers, this`allAttachedGroups
      ensures Valid() && subscribers == Step(old(subscribers), Op.Deaffiliate(issi, gssi))
    {
      IndexLess(subscribers, allAttachedGroups, issi, gssi);
      if issi !in subscribers {
        subscribers := subscribers[issi := {}];
      }
      assert subscribers[issi] == Of(old(subscribers), issi);
      assert gssi !in subscribers[issi] ==> subscribers[issi] - {gssi} == subscribers[issi];
      assert subscribers[issi := subscribers[issi] - {gssi}] == Step(old(subscribers), Op.Deaffiliate(issi, gssi));
      if gssi in subscribers[issi] {
        subscribers := subscribers[issi := subscribers[issi] - {gssi}];
        var still := StillHasMembers(gssi);
        if !still {
          allAttachedGroups := allAttachedGroups - {gssi};
        }
      }
    }

    method HasGroupMembers(gssi: int) returns (r: bool)
      requires Valid()
      ensures r <==> exists i :: Member(subscribers, i, gssi)
    {
      r := gssi in allAttachedGroups;
    }

    /** What is known about a group of a device. */
    ghost function Expected(issi: int, gssi: int): DeviceGroup
      reads this
    {
      var dynamic := issi in dgnaGroups && gssi in dgnaGroups[issi];
      DeviceGroup(
        gssi,
        if dynamic then dgnaGroups[issi][gssi].mnemonic else None,
        if dynamic then Some(dgnaGroups[issi][gssi].attachmentMode) else None,
        dynamic, Member(subscribers, issi, gssi))
    }

    predicate Remembered(issi: int, gssi: int)
      reads this
    {
      issi in dgnaGroups && gssi in dgnaGroups[issi]
    }

    ghost function Memory(issi: int): map<int, DgnaGroup>
      reads this
    {
      if issi in dgnaGroups then dgnaGroups[issi] else map[]
    }

    method RememberDgnaGroup(issi: int, gssi: int, mnemonic: Option<string>, mode: int)
      modifies this`dgnaGroups
      ensures Memory(issi) == old(Memory(issi))[gssi := DgnaGroup(mnemonic, mode)]
      ensures forall i :: i != issi ==> Memory(i) == old(Memory(i))
    {
      if issi !in dgnaGroups {
        dgnaGroups := dgnaGroups[issi := map[]];
      }
      dgnaGroups := dgnaGroups[issi := dgnaGroups[issi][gssi := DgnaGroup(mnemonic, mode)]];
    }

    /** Forget one group; a device without remembered groups leaves the table. */
    method ForgetDgnaGroup(issi: int, gssi: int) returns (removed: bool)
      modifies this`dgnaGroups
      ensures removed <==> old(Remembered(issi, gssi))
      ensures Memory(issi) == old(Memory(issi)) - {gssi}
      ensures forall i :: i != issi ==> Memory(i) == old(Memory(i))
      ensures issi in dgnaGroups ==> dgnaGroups[issi] != map[]
    {
      if issi !in dgnaGroups {
        assert Memory(issi) - {gssi} == Memory(issi);
        return false;
      }
      removed := gssi in dgnaGroups[issi];
      dgnaGroups := dgnaGroups[issi := dgnaGroups[issi] - {gssi}];
      if dgnaGroups[issi] == map[] {
        dgnaGroups := dgnaGroups - {issi};
      }
    }

    /** The attached and the remembered groups of a device, each once, in ascending order, with the
        right flags. */
    method DeviceGroupsOf(issi: int) returns (r: seq<DeviceGroup>)
      ensures forall j, k :: 0 <= j < k < |r| ==> r[j].gssi < r[k].gssi
      ensures forall g ::
                (exists k :: 0 <= k < |r| && r[k].gssi == g) <==> Member(subscribers, issi, g) || Remembered(issi, g)
      ensures forall k :: 0 <= k < |r| ==> r[k] == Expected(issi, r[k].gssi)
    {
      var groups := AttachedEntries(issi);
      if issi in dgnaGroups {
        var dynamic := dgnaGroups[issi];
        var todo := dynamic.Keys;
        while todo != {}
          invariant todo <= dynamic.Keys
          invariant forall g :: g in groups <==> Member(subscribers, issi, g) || (g in dynamic && g !in todo)
          invariant forall g :: g in groups ==> groups[g] == if g in todo then Plain(g) else Expected(issi, g)
          decreases |todo|
        {
          Inhabited(todo);
          var g :| g in todo;
          var d := dynamic[g];
          if g in groups {
            groups := groups[g := groups[g].(isDynamic := true, mnemonic := d.mnemonic,
              attachmentMode := Some(d.attachmentMode))];
          } else {
            groups := groups[g := DeviceGroup(g, d.mnemonic, Some(d.attachmentMode), true,
              Member(subscribers, issi, g))];
          }
          todo := todo - {g};
        }
      }
      r := IntoValues(groups);
    }

    method AttachedEntries(issi: int) returns (groups: map<int, DeviceGroup>)
      ensures forall g :: g in groups <==> Member(subscribers, issi, g)
      ensures forall g :: g in groups ==> groups[g] == Plain(g)
    {
      groups := map[];
      if issi in subscribers {
        var todo := subscribers[issi];
        while todo != {}
          invariant todo <= subscribers[issi]
          invariant forall g :: g in groups <==> g in subscribers[issi] && g !in todo
          invariant forall g :: g in groups ==> groups[g] == Plain(g)
          decreases |todo|
        {
          Inhabited(todo);
          var g :| g in todo;
          groups := groups[g := Plain(g)];
          todo := todo - {g};
        }
      }
    }
  }

  /** An attached group without dynamic assignment. */
  function Plain(gssi: int): DeviceGroup {
    DeviceGroup(gssi, None, None, false, true)
  }

  /** The values of an ordered map, in key order. */
  method IntoValues(m: map<int, DeviceGroup>) returns (r: seq<DeviceGroup>)
    requires forall g :: g in m ==> m[g].gssi == g
    ensures forall j, k :: 0 <= j < k < |r| ==> r[j].gssi < r[k].gssi
    ensures forall g :: (exists k :: 0 <= k < |r| && r[k].gssi == g) <==> g in m
    ensures forall k :: 0 <= k < |r| ==> r[k].gssi in m && r[k] == m[r[k].gssi]
  {
    r := [];
    var todo := m.Keys;
    while todo != {}
      invariant todo <= m.Keys
      invariant forall j, k :: 0 <= j < k < |r| ==> r[j].gssi < r[k].gssi
      invariant forall k :: 0 <= k < |r| ==> r[k].gssi in m && r[k].gssi !in todo && r[k] == m[r[k].gssi]
      invariant forall g :: g in m && g !in todo ==> exists k :: 0 <= k < |r| && r[k].gssi == g
      invariant forall k, g :: 0 <= k < |r| && g in todo ==> r[k].gssi < g
      decreases |todo|
    {
      var least := Least(todo);
      ghost var before := r;
      r := r + [m[least]];
      assert forall k :: 0 <= k < |before| ==> r[k] == before[k];
      assert r[|before|].gssi == least;
      todo := todo - {least};
    }
  }

  method Least(s: set<int>) returns (x: int)
    requires s != {}
    ensures x in s && forall y :: y in s ==> x <= y
  {
    Inhabited(s);
    x :| x in s;
    var todo := s - {x};
    while todo != {}
      invariant todo <= s && x in s
      invariant forall y :: y in s && y !in todo ==> x <= y
      decreases |todo|
    {
      Inhabited(todo);
      var y :| y in todo;
      if y < x {
        x := y;
      }
      todo := todo - {y};
    }
  }

  lemma IndexWithout(m: Groups, index: set<int>, issi: int)
    requires Indexed(m, index) && issi in m
    ensures forall g :: g in index <==> g in m[issi] || exists i :: Member(m - {issi}, i, g)
  {
    forall g ensures g in index <==> g in m[issi] || exists i :: Member(m - {issi}, i, g) {
      if g in index {
        var i :| Member(m, i, g);
        assert i != issi ==> Member(m - {issi}, i, g);
      }
      if g in m[issi] {
        assert Member(m, issi, g);
      }
      if i :| Member(m - {issi}, i, g) {
        assert Member(m, i, g);
      }
    }
  }

  lemma IndexWithNone(m: Groups, index: set<int>, issi: int)
    requires Indexed(m, index) && issi !in m
    ensures Indexed(m[issi := {}], index)
  {
    var m' := m[issi := {}];
    forall i, g ensures Member(m', i, g) <==> Member(m, i, g) {
    }
  }

  lemma IndexWith(m: Groups, index: set<int>, issi: int, gssi: int)
    requires Indexed(m, index)
    ensures Indexed(m[issi := Of(m, issi) + {gssi}], index + {gssi})
  {
    var m' := m[issi := Of(m, issi) + {gssi}];
    assert Member(m', issi, gssi);
    forall i, g ensures Member(m', i, g) <==> Member(m, i, g) || (i == issi && g == gssi) {
    }
  }

  lemma IndexLess(m: Groups, index: set<int>, issi: int, gssi: int)
    requires Indexed(m, index)
    ensures var m' := m[issi := Of(m, issi) - {gssi}];
            forall g :: g != gssi ==> (g in index <==> exists i :: Member(m', i, g))
    ensures var m' := m[issi := Of(m, issi) - {gssi}];
            !Member(m, issi, gssi) ==> Indexed(m', index)
    ensures Member(m, issi, gssi) ==> gssi in index
  {
    var m' := m[issi := Of(m, issi) - {gssi}];
    forall i, g ensures Member(m', i, g) <==> Member(m, i, g) && !(i == issi && g == gssi) {
    }
  }
}
