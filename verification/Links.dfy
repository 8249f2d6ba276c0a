/** Selecting, from a queue shared by many links, the items of one link. */
module Links {

  /** The items whose key is k, in queue order. */
  function Sel<T, K(==)>(key: T -> K, q: seq<T>, k: K): seq<T> {
    if q == [] then []
    else
      var n := |q| - 1;
      Sel(key, q[..n], k) + if key(q[n]) == k then [q[n]] else []
  }

  lemma {:induction false} SelConcat<T, K>(key: T -> K, a: seq<T>, b: seq<T>, k: K)
    ensures Sel(key, a + b, k) == Sel(key, a, k) + Sel(key, b, k)
  {
    if b == [] {
      assert a + b == a;
    } else {
      var n := |b| - 1;
      assert (a + b)[..|a + b| - 1] == a + b[..n];
      SelConcat(key, a, b[..n], k);
    }
  }

  lemma SelOne<T, K>(key: T -> K, x: T, k: K)
    ensures Sel(key, [x], k) == if key(x) == k then [x] else []
  {
    assert [x][..0] == [];
  }

  /** Where a selected item stands in the queue. */
  lemma {:induction false} SelAt<T, K>(key: T -> K, q: seq<T>, k: K, i: nat) returns (j: nat)
    requires i < |Sel(key, q, k)|
    ensures j < |q| && q[j] == Sel(key, q, k)[i] && key(q[j]) == k
  {
    var n := |q| - 1;
    if i < |Sel(key, q[..n], k)| {
      j := SelAt(key, q[..n], k, i);
    } else {
      j := n;
    }
  }

  /** A queue split at one item. */
  lemma {:induction false} SelSplit<T, K>(key: T -> K, q: seq<T>, i: nat, k: K)
    requires i < |q|
    ensures Sel(key, q, k) == Sel(key, q[..i], k) + Sel(key, [q[i]], k) + Sel(key, q[i + 1..], k)
  {
    hide Sel;
    assert q == q[..i] + [q[i]] + q[i + 1..];
    SelConcat(key, q[..i] + [q[i]], q[i + 1..], k);
    SelConcat(key, q[..i], [q[i]], k);
  }

  /** Items of other links leave a selection alone. */
  lemma {:induction false} SelNone<T, K>(key: T -> K, q: seq<T>, k: K)
    requires forall x :: x in q ==> key(x) != k
    ensures Sel(key, q, k) == []
  {
    if q != [] {
      var n := |q| - 1;
      assert forall x :: x in q[..n] ==> x in q;
      SelNone(key, q[..n], k);
      assert q[n] in q;
    }
  }

  /** The place of a queue item in the selection of its own key. */
  lemma SelPlace<T, K>(key: T -> K, q: seq<T>, i: nat)
    requires i < |q|
    ensures var a := |Sel(key, q[..i], key(q[i]))|;
            var l := Sel(key, q, key(q[i]));
            a < |l| && l[a] == q[i]
  {
    SelSplit(key, q, i, key(q[i]));
    SelOne(key, q[i], key(q[i]));
  }

  /** Selection keeps the order of two items with the same key. */
  lemma SelOrder<T, K>(key: T -> K, q: seq<T>, i: nat, j: nat)
    requires i < j < |q| && key(q[i]) == key(q[j])
    ensures |Sel(key, q[..i], key(q[i]))| < |Sel(key, q[..j], key(q[i]))|
  {
    SelSplit(key, q[..j], i, key(q[i]));
    SelOne(key, q[i], key(q[i]));
    assert q[..j][..i] == q[..i] && q[..j][i] == q[i];
  }

  function Map<T, U>(f: T -> U, q: seq<T>): (r: seq<U>)
    ensures |r| == |q|
    ensures forall i :: 0 <= i < |q| ==> r[i] == f(q[i])
  {
    seq(|q|, i requires 0 <= i < |q| => f(q[i]))
  }

  /** A change that keeps the key commutes with selection. */
  lemma {:induction false} SelMap<T, U, K>(key: T -> K, key': U -> K, f: T -> U, q: seq<T>, k: K)
    requires forall x :: x in q ==> key'(f(x)) == key(x)
    ensures Sel(key', Map(f, q), k) == Map(f, Sel(key, q, k))
  {
    if q != [] {
      var n := |q| - 1;
      assert forall x :: x in q[..n] ==> x in q;
      SelMap(key, key', f, q[..n], k);
      assert Map(f, q)[..n] == Map(f, q[..n]);
      assert q[n] in q;
    }
  }

  lemma MapConcat<T, U>(f: T -> U, a: seq<T>, b: seq<T>)
    ensures Map(f, a + b) == Map(f, a) + Map(f, b)
  {
  }
}
