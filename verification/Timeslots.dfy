/** The timeslot allocator: four slots on each configured carrier, slot 1 of the first one kept for
    common control. */
module Timeslots {
  import opened Wrappers

  datatype Owner = Brew | Cmce

  datatype Slot = Slot(carrier: int, ts: int)

  datatype Error =
    | InvalidTimeslot(ts: int) | InvalidCarrier(carrier: int) | InUse(slot: Slot, owner: Owner)
    | NotAllocated(slot: Slot) | OwnerMismatch(slot: Slot, owner: Owner, actual: Owner)

  datatype Result = Ok | Err(error: Error)

  /** One row of four owners per carrier. */
  type Row = r: seq<Option<Owner>> | |r| == 4 witness [None, None, None, None]

  const FREE_ROW: Row := [None, None, None, None]

  datatype State = State(carriers: seq<int>, owners: seq<Row>)

  predicate Distinct(c: seq<int>) {
    forall i, j :: 0 <= i < j < |c| ==> c[i] != c[j]
  }

  predicate Valid(s: State) {
    s.carriers != [] && Distinct(s.carriers) && |s.owners| == |s.carriers|
  }

  const INITIAL: State := State([0], [FREE_ROW])

  /** Position of a carrier, or the length. */
  function IndexOf(c: seq<int>, x: int): (i: nat)
    ensures i <= |c| && (forall j :: 0 <= j < i ==> c[j] != x) && (i < |c| ==> c[i] == x)
  {
    if c == [] then 0 else if c[0] == x then 0 else 1 + IndexOf(c[1..], x)
  }

  predicate Supported(carrier: nat, ts: int) {
    (if carrier == 0 then 2 else 1) <= ts <= 4
  }

  // All slots in scan order: slot q is timeslot q % 4 + 1 of carrier q / 4. Slot 0 is reserved.

  function OwnerAt(s: State, q: nat): Option<Owner>
    requires q / 4 < |s.owners|
  {
    s.owners[q / 4][q % 4]
  }

  function SlotAt(s: State, q: nat): Slot
    requires q / 4 < |s.carriers|
  {
    Slot(s.carriers[q / 4], q % 4 + 1)
  }

  function SetAt(s: State, q: nat, o: Option<Owner>): State
    requires q / 4 < |s.owners|
  {
    s.(owners := s.owners[q / 4 := s.owners[q / 4][q % 4 := o]])
  }

  lemma SetAtOnly(s: State, q: nat, o: Option<Owner>, p: nat)
    requires q / 4 < |s.owners| && p / 4 < |s.owners|
    ensures OwnerAt(SetAt(s, q, o), p) == if p == q then o else OwnerAt(s, p)
  {
    assert p == 4 * (p / 4) + p % 4 && q == 4 * (q / 4) + q % 4;
  }

  /** Free slots among q, q + 1, .. up to the last one. */
  function FreeFrom(s: State, q: nat): nat
    requires q <= 4 * |s.owners|
    decreases 4 * |s.owners| - q
  {
    if q == 4 * |s.owners| then 0 else FreeFrom(s, q + 1) + if OwnerAt(s, q).None? then 1 else 0
  }

  function OwnedFrom(s: State, q: nat): nat
    requires q <= 4 * |s.owners|
    decreases 4 * |s.owners| - q
  {
    if q == 4 * |s.owners| then 0 else OwnedFrom(s, q + 1) + if OwnerAt(s, q).Some? then 1 else 0
  }

  /** Free and owned allocatable slots together are four per carrier, less the reserved one. */
  lemma {:induction false} FreeAndOwned(s: State, q: nat)
    requires q <= 4 * |s.owners|
    ensures FreeFrom(s, q) + OwnedFrom(s, q) == 4 * |s.owners| - q
    decreases 4 * |s.owners| - q
  {
    if q < 4 * |s.owners| {
      FreeAndOwned(s, q + 1);
    }
  }

  lemma {:induction false} NoneFree(s: State, q: nat)
    requires q <= 4 * |s.owners|
    ensures FreeFrom(s, q) == 0 <==> forall p :: q <= p < 4 * |s.owners| ==> OwnerAt(s, p).Some?
    decreases 4 * |s.owners| - q
  {
    hide OwnerAt;
    if q < 4 * |s.owners| {
      NoneFree(s, q + 1);
    }
  }

  // ---------------------------------------------------------------- operations on values

  datatype Op =
    | Allocate(who: Owner) | Reserve(who: Owner, slot: Slot) | Release(who: Owner, slot: Slot)
    | Configure(carriers: seq<int>)

  /** The first free allocatable slot from q on, or the number of slots. */
  function FirstFree(s: State, q: nat): (r: nat)
    requires q <= 4 * |s.owners|
    ensures q <= r <= 4 * |s.owners|
    ensures r < 4 * |s.owners| ==> OwnerAt(s, r).None?
    ensures forall p :: q <= p < r ==> OwnerAt(s, p).Some?
    decreases 4 * |s.owners| - q
  {
    if q == 4 * |s.owners| then q else if OwnerAt(s, q).None? then q else FirstFree(s, q + 1)
  }

  /** The slot's number, or why it is not one. */
  datatype Located = At(q: nat) | Not(error: Error)

  function Locate(s: State, slot: Slot): (l: Located)
    requires Valid(s)
    ensures l.At? ==> 1 <= l.q < 4 * |s.owners| && SlotAt(s, l.q) == slot
  {
    var i := IndexOf(s.carriers, slot.carrier);
    if i == |s.carriers| then Not(InvalidCarrier(slot.carrier))
    else if !Supported(i, slot.ts) then Not(InvalidTimeslot(slot.ts))
    else At(4 * i + slot.ts - 1)
  }

  /** Every allocatable slot is found under its own name. */
  lemma LocateFinds(s: State, q: nat)
    requires Valid(s) && 1 <= q < 4 * |s.owners|
    ensures Locate(s, SlotAt(s, q)) == At(q)
  {
    FirstIndex(s.carriers, s.carriers[q / 4], q / 4);
  }

  function ReserveResult(s: State, who: Owner, slot: Slot): (Result, State)
    requires Valid(s)
  {
    match Locate(s, slot)
    case Not(e) => (Err(e), s)
    case At(q) =>
      if OwnerAt(s, q).Some? then (Err(InUse(slot, OwnerAt(s, q).value)), s) else (Ok, SetAt(s, q, Some(who)))
  }

  function ReleaseResult(s: State, who: Owner, slot: Slot): (Result, State)
    requires Valid(s)
  {
    match Locate(s, slot)
    case Not(e) => (Err(e), s)
    case At(q) =>
      if OwnerAt(s, q).None? then (Err(NotAllocated(slot)), s)
      else if OwnerAt(s, q).value != who then (Err(OwnerMismatch(slot, who, OwnerAt(s, q).value)), s)
      else (Ok, SetAt(s, q, None))
  }

  /** What an allocation answers. */
  function AllocateResult(s: State): Option<Slot>
    requires Valid(s)
  {
    var q := FirstFree(s, 1);
    if q == 4 * |s.owners| then None else Some(SlotAt(s, q))
  }

  function Dedup(c: seq<int>): (r: seq<int>)
    ensures Distinct(r) && forall x :: x in r <==> x in c
  {
    if c == [] then []
    else
      var r := Dedup(c[..|c| - 1]);
      assert c == c[..|c| - 1] + [c[|c| - 1]];
      if c[|c| - 1] in r then r else r + [c[|c| - 1]]
  }

  function NewCarriers(c: seq<int>): (r: seq<int>)
    ensures Distinct(r) && r != []
  {
    if Dedup(c) == [] then [0] else Dedup(c)
  }

  /** Rows follow their carrier; a new carrier starts free. */
  function Reconfigured(s: State, c: seq<int>): (r: State)
    requires Valid(s)
    ensures Valid(r)
  {
    var n := NewCarriers(c);
    State(n, seq(|n|, i requires 0 <= i < |n| =>
      var j := IndexOf(s.carriers, n[i]); if j < |s.carriers| then s.owners[j] else FREE_ROW))
  }

  function Step(s: State, op: Op): (r: State)
    requires Valid(s)
    ensures Valid(r)
  {
    match op
    case Allocate(who) =>
      var q := FirstFree(s, 1);
      if q == 4 * |s.owners| then s else SetAt(s, q, Some(who))
    case Reserve(who, slot) => ReserveResult(s, who, slot).1
    case Release(who, slot) => ReleaseResult(s, who, slot).1
    case Configure(c) => Reconfigured(s, c)
  }

  function After(ops: seq<Op>): (s: State)
    ensures Valid(s)
  {
    if ops == [] then INITIAL else Step(After(ops[..|ops| - 1]), ops[|ops| - 1])
  }

  /** The owner of a slot, None for one that is free or cannot be allocated. */
  function OwnerOf(s: State, slot: Slot): Option<Owner>
    requires Valid(s)
  {
    match Locate(s, slot)
    case Not(_) => None
    case At(q) => OwnerAt(s, q)
  }

  predicate Allocatable(s: State, slot: Slot)
    requires Valid(s)
  {
    Locate(s, slot).At?
  }

  // ---------------------------------------------------------------- what every run keeps

  /** A slot allocatable before and after an operation changes its owner in two ways only: a free one
      is taken by the one who asks, or its owner releases it. */
  lemma OwnerChange(s: State, op: Op, slot: Slot)
    requires Valid(s) && Allocatable(s, slot) && Allocatable(Step(s, op), slot)
    ensures var before, after := OwnerOf(s, slot), OwnerOf(Step(s, op), slot);
            || before == after
            || (before.None? && !op.Configure? && !op.Release? && after == Some(op.who)
              && (op.Reserve? ==> op.slot == slot))
            || (before.Some? && op == Release(before.value, slot) && after.None?)
  {
    hide IndexOf, OwnerAt, SetAt;
    var q := Locate(s, slot).q;
    match op
    case Allocate(who) =>
      var f := FirstFree(s, 1);
      if f < 4 * |s.owners| {
        SetAtOnly(s, f, Some(who), q);
        SetKeepsCarriers(s, f, Some(who));
      }
    case Reserve(who, x) =>
      var l := Locate(s, x);
      if l.At? && OwnerAt(s, l.q).None? {
        SetAtOnly(s, l.q, Some(who), q);
        SetKeepsCarriers(s, l.q, Some(who));
      }
    case Release(who, x) =>
      var l := Locate(s, x);
      if l.At? && OwnerAt(s, l.q) == Some(who) {
        SetAtOnly(s, l.q, None, q);
        SetKeepsCarriers(s, l.q, None);
      }
    case Configure(c) => RowsFollow(s, c, slot);
  }

  lemma SetKeepsCarriers(s: State, q: nat, o: Option<Owner>)
    requires q / 4 < |s.owners|
    ensures SetAt(s, q, o).carriers == s.carriers && |SetAt(s, q, o).owners| == |s.owners|
  {
  }

  lemma RowsFollow(s: State, c: seq<int>, slot: Slot)
    requires Valid(s) && Allocatable(s, slot) && Allocatable(Reconfigured(s, c), slot)
    ensures OwnerOf(Reconfigured(s, c), slot) == OwnerOf(s, slot)
  {
    var r := Reconfigured(s, c);
    var i, j := IndexOf(r.carriers, slot.carrier), IndexOf(s.carriers, slot.carrier);
    assert r.owners[i] == s.owners[j];
  }

  /** Over any run: while a slot stays allocatable, only its owner's release takes it away. */
  lemma {:induction false} KeptUntilReleased(ops: seq<Op>, more: seq<Op>, slot: Slot, who: Owner)
    requires OwnerOf(After(ops), slot) == Some(who)
    requires forall k :: 0 <= k <= |more| ==> Allocatable(After(ops + more[..k]), slot)
    requires Release(who, slot) !in more
    ensures OwnerOf(After(ops + more), slot) == Some(who)
  {
    hide OwnerOf, Allocatable, Step;
    if more == [] {
      assert ops + more == ops;
    } else {
      var n := |more| - 1;
      assert forall k :: 0 <= k <= n ==> more[..n][..k] == more[..k];
      KeptUntilReleased(ops, more[..n], slot, who);
      var all := ops + more;
      assert all[..|all| - 1] == ops + more[..n] && all[|all| - 1] == more[n];
      assert more[..|more|] == more;
      assert Allocatable(After(ops + more[..n]), slot) && Allocatable(After(ops + more[..|more|]), slot);
      OwnerChange(After(ops + more[..n]), more[n], slot);
    }
  }

  lemma {:induction false} CountSet(s: State, q: nat, o: Option<Owner>, from: nat)
    requires from <= q < 4 * |s.owners|
    ensures FreeFrom(SetAt(s, q, o), from) - (if o.None? then 1 else 0)
      == FreeFrom(s, from) - (if OwnerAt(s, q).None? then 1 else 0)
    decreases q - from
  {
    hide SetAt, OwnerAt;
    SetKeepsCarriers(s, q, o);
    SetAtOnly(s, q, o, from);
    if from < q {
      CountSet(s, q, o, from + 1);
    } else {
      CountBeyond(s, q, o, q + 1);
    }
  }

  lemma {:induction false} CountBeyond(s: State, q: nat, o: Option<Owner>, from: nat)
    requires q < from <= 4 * |s.owners|
    ensures |SetAt(s, q, o).owners| == |s.owners| && FreeFrom(SetAt(s, q, o), from) == FreeFrom(s, from)
    decreases 4 * |s.owners| - from
  {
    hide SetAt, OwnerAt;
    SetKeepsCarriers(s, q, o);
    if from < 4 * |s.owners| {
      SetAtOnly(s, q, o, from);
      CountBeyond(s, q, o, from + 1);
    }
  }

  /** Allocation fails exactly when no slot is free; otherwise it takes the first one, and one fewer
      is free. */
  lemma AllocateTakesFirst(s: State, who: Owner)
    requires Valid(s)
    ensures var q, s' := FirstFree(s, 1), Step(s, Allocate(who));
            if FreeFrom(s, 1) == 0 then s' == s
            else
              && q < 4 * |s.owners| && OwnerAt(s, q).None? && (forall p :: 1 <= p < q ==> OwnerAt(s, p).Some?)
              && OwnerOf(s', SlotAt(s, q)) == Some(who) && FreeFrom(s', 1) == FreeFrom(s, 1) - 1
  {
    hide SetAt, OwnerAt, Locate;
    var q := FirstFree(s, 1);
    NoneFree(s, 1);
    if q < 4 * |s.owners| {
      CountSet(s, q, Some(who), 1);
      SetKeepsCarriers(s, q, Some(who));
      SetAtOnly(s, q, Some(who), q);
      LocateFinds(Step(s, Allocate(who)), q);
    }
  }

  lemma SetOwner(s: State, slot: Slot, o: Option<Owner>)
    requires Valid(s) && Allocatable(s, slot)
    ensures var s' := SetAt(s, Locate(s, slot).q, o);
            && Valid(s') && s'.carriers == s.carriers && OwnerOf(s', slot) == o
            && (forall x :: x != slot ==> OwnerOf(s', x) == OwnerOf(s, x))
            && FreeFrom(s', 1) - (if o.None? then 1 else 0)
               == FreeFrom(s, 1) - (if OwnerOf(s, slot).None? then 1 else 0)
  {
    hide SetAt, OwnerAt, IndexOf, FreeFrom;
    var q := Locate(s, slot).q;
    var s' := SetAt(s, q, o);
    SetKeepsCarriers(s, q, o);
    SetAtOnly(s, q, o, q);
    CountSet(s, q, o, 1);
    forall x | x != slot ensures OwnerOf(s', x) == OwnerOf(s, x) {
      if Locate(s, x).At? {
        SetAtOnly(s, q, o, Locate(s, x).q);
      }
    }
  }

  /** A release is granted exactly to the owner; the slot is then free, one more is, and no other slot
      has changed. A refusal names its reason and changes nothing. */
  lemma ReleaseFrees(s: State, who: Owner, slot: Slot)
    requires Valid(s)
    ensures var (r, s') := ReleaseResult(s, who, slot);
            && (r.Ok? <==> OwnerOf(s, slot) == Some(who))
            && (r.Ok? ==> Valid(s') && s'.carriers == s.carriers && OwnerOf(s', slot).None?
                          && FreeFrom(s', 1) == FreeFrom(s, 1) + 1
                          && forall x :: x != slot ==> OwnerOf(s', x) == OwnerOf(s, x))
            && (r.Err? ==> s' == s && (r.error.InvalidCarrier? <==> slot.carrier !in s.carriers)
                           && (r.error.NotAllocated? <==> Allocatable(s, slot) && OwnerOf(s, slot).None?)
                           && (r.error.OwnerMismatch? ==>
                                 OwnerOf(s, slot) == Some(r.error.actual) && r.error.actual != who))
  {
    hide SetAt, OwnerAt, FreeFrom;
    if Allocatable(s, slot) {
      SetOwner(s, slot, None);
    }
  }

  /** A reservation is granted exactly for an allocatable slot that is free; the slot is then the
      asker's, one fewer is free, and no other slot has changed. */
  lemma ReserveTakes(s: State, who: Owner, slot: Slot)
    requires Valid(s)
    ensures var (r, s') := ReserveResult(s, who, slot);
            && (r.Ok? <==> Allocatable(s, slot) && OwnerOf(s, slot).None?)
            && (r.Ok? ==> Valid(s') && s'.carriers == s.carriers && OwnerOf(s', slot) == Some(who)
                          && FreeFrom(s', 1) == FreeFrom(s, 1) - 1
                          && forall x :: x != slot ==> OwnerOf(s', x) == OwnerOf(s, x))
            && (r.Err? ==> s' == s && (r.error.InvalidCarrier? <==> slot.carrier !in s.carriers)
                           && (r.error.InUse? <==> OwnerOf(s, slot).Some?)
                           && (r.error.InUse? ==> OwnerOf(s, slot) == Some(r.error.owner)))
  {
    hide SetAt, OwnerAt, FreeFrom;
    if Allocatable(s, slot) {
      SetOwner(s, slot, Some(who));
    }
  }

  // ---------------------------------------------------------------- ownership read off the history

  /** The owner kept for a slot of a configured carrier, allocatable now or not. */
  function Kept(s: State, slot: Slot): Option<Owner>
    requires Valid(s)
  {
    var i := IndexOf(s.carriers, slot.carrier);
    if i < |s.carriers| && 1 <= slot.ts <= 4 then s.owners[i][slot.ts - 1] else None
  }

  /** The answer to this operation gave the slot to who. */
  predicate Gives(s: State, op: Op, slot: Slot, who: Owner)
    requires Valid(s)
  {
    || (op == Reserve(who, slot) && ReserveResult(s, who, slot).0.Ok?)
    || (op == Allocate(who) && AllocateResult(s) == Some(slot))
  }

  /** The answer to this operation took the slot from who, or its carrier went away. */
  predicate Takes(s: State, op: Op, slot: Slot, who: Owner)
    requires Valid(s)
  {
    || (op == Release(who, slot) && ReleaseResult(s, who, slot).0.Ok?)
    || (op.Configure? && slot.carrier !in NewCarriers(op.carriers))
  }

  /** Somebody was given the slot and it has not been taken since. */
  ghost predicate Holds(ops: seq<Op>, slot: Slot, who: Owner) {
    exists k :: 0 <= k < |ops| && GivenAt(ops, k, slot, who) && Unbroken(ops, k, slot, who)
  }

  ghost predicate GivenAt(ops: seq<Op>, k: nat, slot: Slot, who: Owner)
    requires k < |ops|
  {
    Gives(After(ops[..k]), ops[k], slot, who)
  }

  ghost predicate Unbroken(ops: seq<Op>, k: nat, slot: Slot, who: Owner) {
    forall j :: k < j < |ops| ==> !Takes(After(ops[..j]), ops[j], slot, who)
  }

  lemma KeptStep(s: State, op: Op, slot: Slot, who: Owner)
    requires Valid(s)
    ensures Kept(Step(s, op), slot) == Some(who)
        <==> Gives(s, op, slot, who) || (Kept(s, slot) == Some(who) && !Takes(s, op, slot, who))
  {
    hide IndexOf, FirstFree;
    match op
    case Configure(c) => KeptMoves(s, c, slot);
    case Allocate(w) =>
      var q := FirstFree(s, 1);
      if q < 4 * |s.owners| {
        KeptSet(s, q, Some(w), slot);
      }
    case Reserve(w, x) =>
      if Allocatable(s, x) {
        KeptSet(s, Locate(s, x).q, Some(w), slot);
      }
    case Release(w, x) =>
      if Allocatable(s, x) {
        KeptSet(s, Locate(s, x).q, None, slot);
      }
  }

  lemma KeptMoves(s: State, c: seq<int>, slot: Slot)
    requires Valid(s)
    ensures Kept(Reconfigured(s, c), slot) == if slot.carrier in NewCarriers(c) then Kept(s, slot) else None
  {
    hide IndexOf, NewCarriers;
    var r := Reconfigured(s, c);
    var i := IndexOf(r.carriers, slot.carrier);
    assert slot.carrier in r.carriers <==> i < |r.carriers|;
  }

  lemma KeptSet(s: State, q: nat, o: Option<Owner>, slot: Slot)
    requires Valid(s) && q < 4 * |s.owners|
    ensures Kept(SetAt(s, q, o), slot) == if SlotAt(s, q) == slot then o else Kept(s, slot)
    ensures SlotAt(s, q) == slot ==> Kept(s, slot) == OwnerAt(s, q)
  {
    hide IndexOf;
    var i := IndexOf(s.carriers, slot.carrier);
    FirstIndex(s.carriers, s.carriers[q / 4], q / 4);
  }

  /** After any run a slot is kept for exactly the one it was last given to, unless it was released or
      its carrier dropped since; and that one owns it whenever it is allocatable. */
  lemma {:induction false} OwnershipIsHistory(ops: seq<Op>, slot: Slot, who: Owner)
    ensures Kept(After(ops), slot) == Some(who) <==> Holds(ops, slot, who)
    ensures OwnerOf(After(ops), slot) == Some(who) <==> Holds(ops, slot, who) && Allocatable(After(ops), slot)
  {
    hide Gives, Takes, Step, IndexOf, Locate;
    KeptIsOwner(After(ops), slot);
    if ops != [] {
      var n := |ops| - 1;
      var before, op := ops[..n], ops[n];
      OwnershipIsHistory(before, slot, who);
      KeptStep(After(before), op, slot, who);
      HoldsStep(ops, slot, who);
    } else {
      assert !Holds(ops, slot, who);
      NothingKept(slot);
    }
  }

  lemma NothingKept(slot: Slot)
    ensures Kept(INITIAL, slot).None?
  {
  }

  lemma KeptIsOwner(s: State, slot: Slot)
    requires Valid(s)
    ensures OwnerOf(s, slot) == if Allocatable(s, slot) then Kept(s, slot) else None
  {
    hide IndexOf;
  }

  lemma HoldsStep(ops: seq<Op>, slot: Slot, who: Owner)
    requires ops != []
    ensures var n := |ops| - 1;
            var s := After(ops[..n]);
            Holds(ops, slot, who)
            <==> Gives(s, ops[n], slot, who) || (Holds(ops[..n], slot, who) && !Takes(s, ops[n], slot, who))
  {
    hide Gives, Takes, After;
    var n := |ops| - 1;
    var before := ops[..n];
    forall k | 0 <= k <= n ensures k < n ==> before[..k] == ops[..k] {
    }
    if Gives(After(before), ops[n], slot, who) {
      assert GivenAt(ops, n, slot, who) && Unbroken(ops, n, slot, who);
    }
    if Holds(before, slot, who) && !Takes(After(before), ops[n], slot, who) {
      var k :| 0 <= k < n && GivenAt(before, k, slot, who) && Unbroken(before, k, slot, who);
      assert GivenAt(ops, k, slot, who);
      forall j | k < j < |ops| ensures !Takes(After(ops[..j]), ops[j], slot, who) {
        if j < n {
          assert !Takes(After(before[..j]), before[j], slot, who);
        }
      }
      assert Unbroken(ops, k, slot, who);
    }
    if Holds(ops, slot, who) && !Gives(After(before), ops[n], slot, who) {
      var k :| 0 <= k < |ops| && GivenAt(ops, k, slot, who) && Unbroken(ops, k, slot, who);
      assert k < n && GivenAt(before, k, slot, who);
      forall j | k < j < n ensures !Takes(After(before[..j]), before[j], slot, who) {
        assert before[..j] == ops[..j];
      }
      assert Unbroken(before, k, slot, who);
    }
  }

  /** A slot that is kept for somebody can be released by them unless it is the first carrier's timeslot
      1: exactly that one is then held where nobody can release it. */
  lemma HeldOutOfReach(s: State, slot: Slot, who: Owner)
    requires Valid(s) && Kept(s, slot) == Some(who)
    ensures ReleaseResult(s, who, slot).0.Ok? <==> slot != Slot(s.carriers[0], 1)
  {
    hide IndexOf;
    var i := IndexOf(s.carriers, slot.carrier);
    assert i == 0 <==> slot.carrier == s.carriers[0];
  }

  /** It happens: a slot of a second carrier that becomes the only one. */
  lemma OutOfReach()
    ensures var s := After([Configure([0, 5]), Reserve(Cmce, Slot(5, 1)), Configure([5])]);
            && s.carriers == [5] && Kept(s, Slot(5, 1)) == Some(Cmce)
            && ReleaseResult(s, Cmce, Slot(5, 1)) == (Err(InvalidTimeslot(1)), s)
  {
    hide After, Step;
    var a: seq<Op> := [Configure([0, 5])];
    var b := a + [Reserve(Cmce, Slot(5, 1))];
    var c := b + [Configure([5])];
    assert c == [Configure([0, 5]), Reserve(Cmce, Slot(5, 1)), Configure([5])];
    OneStep([], Configure([0, 5]));
    assert [] + [Configure([0, 5])] == a;
    TwoCarriers();
    OneStep(a, Reserve(Cmce, Slot(5, 1)));
    OneStep(b, Configure([5]));
    OneCarrier();
  }

  lemma OneStep(ops: seq<Op>, op: Op)
    ensures After(ops + [op]) == Step(After(ops), op) && After([]) == INITIAL
  {
    hide Step;
    assert (ops + [op])[..|ops|] == ops;
  }

  lemma TwoCarriers()
    ensures Step(INITIAL, Configure([0, 5])) == State([0, 5], [FREE_ROW, FREE_ROW])
    ensures Step(State([0, 5], [FREE_ROW, FREE_ROW]), Reserve(Cmce, Slot(5, 1)))
         == State([0, 5], [FREE_ROW, [Some(Cmce), None, None, None]])
  {
    assert [0, 5][..1] == [0] && [0][..0] == [];
    assert Dedup([0]) == [0];
    assert Dedup([0, 5]) == [0, 5];
    FirstIndex([0, 5], 5, 1);
    FirstIndex([0], 5, 1);
    var s := State([0, 5], [FREE_ROW, FREE_ROW]);
    assert Locate(s, Slot(5, 1)) == At(4);
    assert s.owners[1][0 := Some(Cmce)] == [Some(Cmce), None, None, None];
    assert SetAt(s, 4, Some(Cmce)).owners == [FREE_ROW, s.owners[1][0 := Some(Cmce)]];
  }

  lemma OneCarrier()
    ensures var s := Step(State([0, 5], [FREE_ROW, [Some(Cmce), None, None, None]]), Configure([5]));
            s == State([5], [[Some(Cmce), None, None, None]]) && Kept(s, Slot(5, 1)) == Some(Cmce)
            && ReleaseResult(s, Cmce, Slot(5, 1)) == (Err(InvalidTimeslot(1)), s)
  {
    assert [5][..0] == [];
    assert Dedup([5]) == [5];
    FirstIndex([0, 5], 5, 1);
    FirstIndex([5], 5, 0);
  }

  // ---------------------------------------------------------------- which carriers there are

  /** Without repeats, in the order of first occurrence; [0] when none is given. */
  lemma {:induction false} FirstOccurrences(c: seq<int>)
    ensures var r := Dedup(c); (forall x :: x in r <==> x in c) && Distinct(r) && InOrderOf(r, c)
    ensures NewCarriers(c) == if c == [] then [0] else Dedup(c)
  {
    hide IndexOf, Distinct, InOrderOf;
    if c == [] {
      NothingInOrder(c);
    } else {
      var n := |c| - 1;
      assert c[n] in Dedup(c);
      FirstOccurrences(c[..n]);
      StillInOrder(Dedup(c[..n]), c, n);
    }
  }

  /** The entries of r come in the order of their first occurrence in c. */
  ghost predicate InOrderOf(r: seq<int>, c: seq<int>) {
    forall i, j :: 0 <= i < j < |r| ==> IndexOf(c, r[i]) < IndexOf(c, r[j])
  }

  lemma NothingInOrder(c: seq<int>)
    ensures InOrderOf([], c)
  {
  }

  lemma StillInOrder(r: seq<int>, c: seq<int>, n: nat)
    requires n < |c| && InOrderOf(r, c[..n]) && forall x :: x in r <==> x in c[..n]
    ensures InOrderOf(r, c) && (c[n] !in r ==> InOrderOf(r + [c[n]], c))
  {
    hide IndexOf;
    forall i | 0 <= i < |r| ensures IndexOf(c, r[i]) == IndexOf(c[..n], r[i]) < n {
      assert r[i] in r;
      EarlierIndex(c, n, r[i]);
    }
    if c[n] !in r {
      FirstIndex(c, c[n], n);
    }
  }

  lemma EarlierIndex(c: seq<int>, n: nat, y: int)
    requires n <= |c| && y in c[..n]
    ensures IndexOf(c, y) == IndexOf(c[..n], y) < n
  {
    hide IndexOf;
    FirstIndex(c, y, IndexOf(c[..n], y));
  }

  /** The carriers after any run are those of the last configuration. */
  lemma {:induction false} CarriersAreLast(ops: seq<Op>, k: nat)
    requires k < |ops| && ops[k].Configure? && forall j :: k < j < |ops| ==> !ops[j].Configure?
    ensures After(ops).carriers == if ops[k].carriers == [] then [0] else Dedup(ops[k].carriers)
  {
    hide Step, NewCarriers, Dedup;
    var n := |ops| - 1;
    StepCarriers(After(ops[..n]), ops[n]);
    if k == n {
      FirstOccurrences(ops[k].carriers);
    } else {
      CarriersAreLast(ops[..n], k);
    }
  }

  lemma StepCarriers(s: State, op: Op)
    requires Valid(s)
    ensures Step(s, op).carriers == if op.Configure? then NewCarriers(op.carriers) else s.carriers
  {
    hide IndexOf, FirstFree, NewCarriers;
  }

  // ---------------------------------------------------------------- the allocator

  class TimeslotAllocator {
    var carriers: seq<int>
    var owners: seq<Row>

    ghost function View(): State
      reads this
    {
      State(carriers, owners)
    }

    constructor ()
      ensures View() == INITIAL
    {
      carriers, owners := [0], [FREE_ROW];
    }

    method CarrierIdx(carrier: int) returns (i: nat)
      ensures i == IndexOf(carriers, carrier)
    {
      i := 0;
      while i < |carriers| && carriers[i] != carrier
        invariant i <= |carriers| && forall j :: 0 <= j < i ==> carriers[j] != carrier
      {
        i := i + 1;
      }
      FirstIndex(carriers, carrier, i);
    }

    /** Carrier number first, then the timeslot. */
    method LocateSlot(slot: Slot) returns (l: Located)
      requires Valid(View())
      ensures l == Locate(View(), slot)
    {
      var i := CarrierIdx(slot.carrier);
      if i == |carriers| {
        return Not(InvalidCarrier(slot.carrier));
      }
      if !((if i == 0 then 2 else 1) <= slot.ts <= 4) {
        return Not(InvalidTimeslot(slot.ts));
      }
      l := At(4 * i + slot.ts - 1);
    }

    /** Scan the carriers and their timeslots in order. */
    method AllocateAnySlot(who: Owner) returns (r: Option<Slot>)
      requires Valid(View())
      modifies this`owners
      ensures View() == Step(old(View()), Allocate(who))
      ensures r == AllocateResult(old(View()))
    {
      hide OwnerAt, FirstFree, Step, AllocateResult;
      var i := 0;
      while i < |owners|
        invariant 0 <= i <= |owners| && owners == old(owners)
        invariant FirstFree(View(), 1) == FirstFree(View(), if i == 0 then 1 else 4 * i)
      {
        var ts := if i == 0 then 2 else 1;
        while ts <= 4
          invariant (if i == 0 then 2 else 1) <= ts <= 5 && owners == old(owners)
          invariant FirstFree(View(), 1) == FirstFree(View(), 4 * i + ts - 1)
        {
          ScanStep(View(), 4 * i + ts - 1);
          SlotNumber(View(), i, ts);
          if owners[i][ts - 1].None? {
            Allocated(View(), who, i, ts);
            owners := owners[i := owners[i][ts - 1 := Some(who)]];
            return Some(Slot(carriers[i], ts));
          }
          ts := ts + 1;
        }
        i := i + 1;
      }
      ScanEnd(View());
      NoneLeft(View(), who);
      r := None;
    }

    method ReserveSlot(who: Owner, slot: Slot) returns (r: Result)
      requires Valid(View())
      modifies this`owners
      ensures (r, View()) == ReserveResult(old(View()), who, slot)
    {
      var l := LocateSlot(slot);
      if l.Not? {
        return Err(l.error);
      }
      var i, idx := l.q / 4, l.q % 4;
      match owners[i][idx]
      case None =>
        owners := owners[i := owners[i][idx := Some(who)]];
        r := Ok;
      case Some(existing) =>
        r := Err(InUse(slot, existing));
    }

    method ReleaseSlot(who: Owner, slot: Slot) returns (r: Result)
      requires Valid(View())
      modifies this`owners
      ensures (r, View()) == ReleaseResult(old(View()), who, slot)
    {
      var l := LocateSlot(slot);
      if l.Not? {
        return Err(l.error);
      }
      var i, idx := l.q / 4, l.q % 4;
      match owners[i][idx]
      case None =>
        r := Err(NotAllocated(slot));
      case Some(existing) =>
        if existing != who {
          return Err(OwnerMismatch(slot, who, existing));
        }
        owners := owners[i := owners[i][idx := None]];
        r := Ok;
    }

    method SlotOwner(slot: Slot) returns (o: Option<Owner>)
      requires Valid(View())
      ensures o == OwnerOf(View(), slot)
    {
      var l := LocateSlot(slot);
      o := if l.Not? then None else owners[l.q / 4][l.q % 4];
    }

    method FreeSlotCount() returns (n: nat)
      requires Valid(View())
      ensures n == FreeFrom(View(), 1)
    {
      hide OwnerAt, FreeFrom;
      n := 0;
      var i := |owners|;
      CountEnd(View());
      while i > 0
        invariant 0 <= i <= |owners|
        invariant n == FreeFrom(View(), if i == 0 then 1 else 4 * i)
      {
        i := i - 1;
        var ts := 4;
        while ts >= (if i == 0 then 2 else 1)
          invariant (if i == 0 then 1 else 0) <= ts <= 4
          invariant n == FreeFrom(View(), 4 * i + ts)
        {
          CountStep(View(), 4 * i + ts - 1);
          SlotNumber(View(), i, ts);
          n := n + if owners[i][ts - 1].None? then 1 else 0;
          ts := ts - 1;
        }
      }
    }

    /** Take over a new carrier list without repeats; rows follow their carrier. */
    method ConfigureCarriers(c: seq<int>)
      requires Valid(View())
      modifies this
      ensures View() == Step(old(View()), Configure(c))
    {
      hide RowOf, IndexOf, Dedup;
      ghost var s := View();
      var fresher := Deduplicated(c);
      NoRows(s);
      var rows: seq<Row> := seq(|fresher|, _ => FREE_ROW);
      for k := 0 to |carriers|
        invariant |rows| == |fresher| && View() == s
        invariant forall i :: 0 <= i < |fresher| ==> rows[i] == RowOf(s, k, fresher[i])
      {
        NextRow(s, k);
        var i := PositionOf(fresher, carriers[k]);
        if i < |fresher| {
          rows := rows[i := owners[k]];
        }
      }
      carriers, owners := fresher, rows;
      AllRows(s, c);
      assert owners == Reconfigured(s, c).owners;
    }
  }

  /** The row a carrier gets once the first k old carriers have been looked at. */
  function RowOf(s: State, k: nat, carrier: int): Row
    requires Valid(s) && k <= |s.carriers|
  {
    var j := IndexOf(s.carriers, carrier);
    if j < k then s.owners[j] else FREE_ROW
  }

  lemma NoRows(s: State)
    requires Valid(s)
    ensures forall x :: RowOf(s, 0, x) == FREE_ROW
  {
  }

  lemma NextRow(s: State, k: nat)
    requires Valid(s) && k < |s.carriers|
    ensures forall x :: RowOf(s, k + 1, x) == if x == s.carriers[k] then s.owners[k] else RowOf(s, k, x)
  {
    hide IndexOf;
    FirstIndex(s.carriers, s.carriers[k], k);
    forall x ensures RowOf(s, k + 1, x) == if x == s.carriers[k] then s.owners[k] else RowOf(s, k, x) {
      var j := IndexOf(s.carriers, x);
      assert j == k ==> s.carriers[k] == x;
    }
  }

  lemma AllRows(s: State, c: seq<int>)
    requires Valid(s)
    ensures var n := NewCarriers(c);
            forall i :: 0 <= i < |n| ==> Reconfigured(s, c).owners[i] == RowOf(s, |s.carriers|, n[i])
  {
    hide IndexOf, Dedup;
  }

  method Deduplicated(c: seq<int>) returns (r: seq<int>)
    ensures r == NewCarriers(c)
  {
    r := [];
    for k := 0 to |c|
      invariant r == Dedup(c[..k])
    {
      assert c[..k + 1][..k] == c[..k];
      if c[k] !in r {
        r := r + [c[k]];
      }
    }
    assert c[..|c|] == c;
    if r == [] {
      r := [0];
    }
  }

  method PositionOf(c: seq<int>, x: int) returns (i: nat)
    ensures i == IndexOf(c, x)
  {
    i := 0;
    while i < |c| && c[i] != x
      invariant i <= |c| && forall j :: 0 <= j < i ==> c[j] != x
    {
      i := i + 1;
    }
    FirstIndex(c, x, i);
  }

  lemma FirstIndex(c: seq<int>, x: int, i: nat)
    requires i <= |c| && (forall j :: 0 <= j < i ==> c[j] != x) && (i < |c| ==> c[i] == x)
    ensures i == IndexOf(c, x)
  {
    hide IndexOf;
    var j := IndexOf(c, x);
    assert !(i < j) && !(j < i);
  }

  lemma SlotNumber(s: State, i: nat, ts: int)
    requires i < |s.owners| && 1 <= ts <= 4
    ensures var q := 4 * i + ts - 1; q / 4 == i && q % 4 == ts - 1 && OwnerAt(s, q) == s.owners[i][ts - 1]
  {
  }

  lemma ScanStep(s: State, q: nat)
    requires q < 4 * |s.owners|
    ensures FirstFree(s, q) == if OwnerAt(s, q).None? then q else FirstFree(s, q + 1)
  {
  }

  lemma Allocated(s: State, who: Owner, i: nat, ts: int)
    requires Valid(s) && i < |s.owners| && 1 <= ts <= 4 && 4 * i + ts - 1 >= 1 && FirstFree(s, 1) == 4 * i + ts - 1
    ensures Step(s, Allocate(who)) == s.(owners := s.owners[i := s.owners[i][ts - 1 := Some(who)]])
    ensures AllocateResult(s) == Some(Slot(s.carriers[i], ts))
  {
    hide FirstFree;
  }

  lemma NoneLeft(s: State, who: Owner)
    requires Valid(s) && FirstFree(s, 1) == 4 * |s.owners|
    ensures Step(s, Allocate(who)) == s && AllocateResult(s) == None
  {
  }

  lemma ScanEnd(s: State)
    ensures FirstFree(s, 4 * |s.owners|) == 4 * |s.owners|
  {
  }

  lemma CountStep(s: State, q: nat)
    requires q < 4 * |s.owners|
    ensures FreeFrom(s, q) == FreeFrom(s, q + 1) + if OwnerAt(s, q).None? then 1 else 0
  {
  }

  lemma CountEnd(s: State)
    ensures FreeFrom(s, 4 * |s.owners|) == 0
  {
  }
}
