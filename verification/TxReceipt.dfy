/** Transmit receipts: the small state machine shared by the originator of a message, the LLC and
    the MAC. */
module TxReceipt {

  datatype TxState = Pending | Discarded | Transmitted | Lost | Acknowledged

  /** The stored encoding; "transmitted" and "acknowledged" are comparisons on it. */
  function Raw(s: TxState): int {
    match s
    case Pending => 0
    case Discarded => 1
    case Transmitted => 2
    case Lost => 3
    case Acknowledged => 4
  }

  predicate IsTransmitted(s: TxState) {
    Raw(s) >= Raw(Transmitted)
  }

  predicate IsFinal(expectsAck: bool, s: TxState) {
    match s
    case Pending => false
    case Transmitted => !expectsAck
    case _ => true
  }

  datatype Mark = ToTransmitted | ToDiscarded | ToAcknowledged | ToLost

  function From(m: Mark): TxState {
    if m.ToTransmitted? || m.ToDiscarded? then Pending else Transmitted
  }

  function To(m: Mark): TxState {
    match m
    case ToTransmitted => Transmitted
    case ToDiscarded => Discarded
    case ToAcknowledged => Acknowledged
    case ToLost => Lost
  }

  /** A mark is accepted in exactly one state, and the two that conclude an acknowledged transfer
      only if one was asked for. */
  predicate Accepts(expectsAck: bool, s: TxState, m: Mark) {
    s == From(m) && (m.ToAcknowledged? || m.ToLost? ==> expectsAck)
  }

  /** The marks accepted one after the other, without a reset in between; a refused mark panics
      and leaves the state alone. */
  function After(expectsAck: bool, s: TxState, ms: seq<Mark>): TxState {
    if ms == [] then s
    else
      var p := After(expectsAck, s, ms[..|ms| - 1]);
      if Accepts(expectsAck, p, ms[|ms| - 1]) then To(ms[|ms| - 1]) else p
  }

  /** The lives of a message: dropped, sent and forgotten, or, if an acknowledgement is asked for, sent and
      then lost or acknowledged; "transmitted" covers all that was sent. */
  lemma Lives(expectsAck: bool)
    ensures After(expectsAck, Pending, [ToDiscarded]) == Discarded
    ensures After(expectsAck, Pending, [ToTransmitted]) == Transmitted
    ensures After(expectsAck, Pending, [ToTransmitted, ToLost]) == if expectsAck then Lost else Transmitted
    ensures After(expectsAck, Pending, [ToTransmitted, ToAcknowledged])
         == if expectsAck then Acknowledged else Transmitted
    ensures forall s :: IsTransmitted(s) <==> s.Transmitted? || s.Lost? || s.Acknowledged?
  {
    Lived(expectsAck, [], ToDiscarded);
    Lived(expectsAck, [], ToTransmitted);
    Lived(expectsAck, [ToTransmitted], ToLost);
    Lived(expectsAck, [ToTransmitted], ToAcknowledged);
  }

  lemma Lived(expectsAck: bool, ms: seq<Mark>, m: Mark)
    ensures var p := After(expectsAck, Pending, ms);
            After(expectsAck, Pending, ms + [m]) == if Accepts(expectsAck, p, m) then To(m) else p
    ensures [] + [m] == [m] && After(expectsAck, Pending, []) == Pending
  {
    assert (ms + [m])[..|ms + [m]| - 1] == ms;
  }

  /** A state is final exactly when no sequence of marks ever leaves it. */
  lemma {:induction false} FinalIsStuck(expectsAck: bool, s: TxState)
    ensures IsFinal(expectsAck, s) <==> forall ms: seq<Mark> :: After(expectsAck, s, ms) == s
  {
    if IsFinal(expectsAck, s) {
      forall ms: seq<Mark> ensures After(expectsAck, s, ms) == s {
        Stuck(expectsAck, s, ms);
      }
    } else {
      var m := if s.Pending? then ToTransmitted else ToLost;
      var ms := [m];
      assert ms[..|ms| - 1] == [];
      assert After(expectsAck, s, ms[..|ms| - 1]) == s;
      assert After(expectsAck, s, ms) == To(m);
    }
  }

  lemma {:induction false} Stuck(expectsAck: bool, s: TxState, ms: seq<Mark>)
    requires IsFinal(expectsAck, s)
    ensures After(expectsAck, s, ms) == s
  {
    if ms != [] {
      Stuck(expectsAck, s, ms[..|ms| - 1]);
    }
  }

  /** The reporting half; every holder of a reference shares the one state cell. `ok` is false
      where the source panics. */
  class TxReporter {
    const expectsAck: bool
    var state: TxState

    constructor (expectsAck: bool)
      ensures this.expectsAck == expectsAck && state == Pending
    {
      this.expectsAck := expectsAck;
      state := Pending;
    }

    method Apply(m: Mark) returns (ok: bool)
      modifies this
      ensures ok <==> Accepts(expectsAck, old(state), m)
      ensures state == if ok then To(m) else old(state)
    {
      if (m.ToAcknowledged? || m.ToLost?) && !expectsAck {
        return false;
      }
      ok := state == From(m);
      if ok {
        state := To(m);
      }
    }

    method Reset()
      modifies this
      ensures state == Pending
    {
      state := Pending;
    }
  }
}
