/** Unordered element stores into a buffer.

    An indexed tensor assignment and the program instances of a kernel both
    issue stores whose order nothing fixes. `Outcome` is what any order can
    leave behind; every proof about a scattered buffer starts from it. */
module Scatter {

  ghost predicate InBounds<T>(stores: seq<(nat, T)>, size: nat) {
    forall s | s in stores :: s.0 < size
  }

  // Cell k holds one of the values stored to it, or its old value if none was.
  ghost predicate Cell<T>(before: seq<T>, stores: seq<(nat, T)>, after: seq<T>, k: nat)
    requires k < |before| && k < |after|
  {
    || (k, after[k]) in stores
    || (after[k] == before[k] && forall s | s in stores :: s.0 != k)
  }

  ghost predicate Outcome<T>(before: seq<T>, stores: seq<(nat, T)>, after: seq<T>) {
    && |after| == |before|
    && forall k: nat | k < |before| :: Cell(before, stores, after, k)
  }

  // One particular order: left to right.
  function Apply<T>(before: seq<T>, stores: seq<(nat, T)>): (after: seq<T>)
    requires InBounds(stores, |before|)
    ensures |after| == |before|
    decreases |stores|
  {
    if stores == [] then before
    else
      assert stores[0] in stores;
      Apply(before[stores[0].0 := stores[0].1], stores[1..])
  }

  lemma {:induction false} ApplyIsOutcome<T>(before: seq<T>, stores: seq<(nat, T)>)
    requires InBounds(stores, |before|)
    ensures Outcome(before, stores, Apply(before, stores))
    decreases |stores|
  {
    if stores != [] {
      assert stores[0] in stores;
      var mid := before[stores[0].0 := stores[0].1];
      var after := Apply(before, stores);
      ApplyIsOutcome(mid, stores[1..]);
      forall k: nat | k < |before|
        ensures Cell(before, stores, after, k)
      {
        assert Cell(mid, stores[1..], after, k);
        assert stores == [stores[0]] + stores[1..];
      }
    }
  }

  // Whatever order the stores are performed in, the result is an Outcome.
  lemma AnyOrderIsOutcome<T>(before: seq<T>, stores: seq<(nat, T)>, order: seq<(nat, T)>)
    requires multiset(order) == multiset(stores)
    requires InBounds(stores, |before|)
    ensures InBounds(order, |before|)
    ensures Outcome(before, stores, Apply(before, order))
  {
    SameElements(order, stores);
    ApplyIsOutcome(before, order);
    var after := Apply(before, order);
    forall k: nat | k < |before|
      ensures Cell(before, stores, after, k)
    {
      assert Cell(before, order, after, k);
    }
  }

  lemma SameElements<T>(a: seq<T>, b: seq<T>)
    requires multiset(a) == multiset(b)
    ensures forall x :: x in a <==> x in b
  {
    forall x
      ensures x in a <==> x in b
    {
      assert x in a <==> x in multiset(a);
      assert x in b <==> x in multiset(b);
    }
  }

  // A cell all of whose stores agree holds the agreed value.
  lemma Written<T>(before: seq<T>, stores: seq<(nat, T)>, after: seq<T>, k: nat, v: T)
    requires Outcome(before, stores, after) && k < |before|
    requires (k, v) in stores
    requires forall s | s in stores && s.0 == k :: s.1 == v
    ensures after[k] == v
  {
    assert Cell(before, stores, after, k);
  }

  lemma Untouched<T>(before: seq<T>, stores: seq<(nat, T)>, after: seq<T>, k: nat)
    requires Outcome(before, stores, after) && k < |before|
    requires forall s | s in stores :: s.0 != k
    ensures after[k] == before[k]
  {
    assert Cell(before, stores, after, k);
  }

  // An indexed assignment on a buffer, performed left to right.
  method ScatterInto<T>(buffer: array<T>, stores: seq<(nat, T)>)
    requires InBounds(stores, buffer.Length)
    modifies buffer
    ensures Outcome(old(buffer[..]), stores, buffer[..])
  {
    ghost var before := buffer[..];
    ghost var target := Apply(before, stores);
    for i := 0 to |stores|
      invariant Apply(buffer[..], stores[i..]) == target
    {
      assert stores[i] in stores;
      ghost var now := buffer[..];
      buffer[stores[i].0] := stores[i].1;
      assert buffer[..] == now[stores[i].0 := stores[i].1];
      assert stores[i..][1..] == stores[i + 1..];
    }
    assert stores[|stores|..] == [];
    ApplyIsOutcome(before, stores);
  }
}
