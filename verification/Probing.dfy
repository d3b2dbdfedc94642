/** Linear probing over a circular table of `cap` slots: the slot reached after a
    number of hops from a home slot, and the hop count that reaches a given slot. */
module Probing {

  function At(cap: nat, home: nat, hops: nat): nat
    requires home < cap && hops < cap
  {
    if home + hops < cap then home + hops else home + hops - cap
  }

  function Dist(cap: nat, home: nat, slot: nat): nat
    requires home < cap && slot < cap
  {
    if home <= slot then slot - home else slot + cap - home
  }

  /** The successor slot, `(slot + 1) & mask` for a power-of-two capacity. */
  function Next(cap: nat, slot: nat): nat
    requires slot < cap
  {
    if slot + 1 == cap then 0 else slot + 1
  }
}

/** The slot of an ever-growing cursor in a ring. */
module Slots {

  function Slot(capacity: nat, cursor: nat): nat
    requires capacity > 0
  {
    cursor % capacity
  }

  /** Cursors less than a capacity apart use different slots. */
  lemma SlotsDiffer(capacity: nat, i: nat, j: nat)
    requires capacity > 0 && i < j < i + capacity
    ensures Slot(capacity, i) != Slot(capacity, j)
  {
    var a, b := i / capacity, j / capacity;
    assert i == capacity * a + i % capacity && j == capacity * b + j % capacity;
    assert capacity * (b - a) == capacity * b - capacity * a;
    Scale(capacity, b - a);
  }

  lemma Scale(c: int, k: int)
    requires c > 0
    ensures if k >= 1 then c * k >= c else if k <= -1 then c * k <= -c else c * k == 0
  {
    if k >= 1 {
      assert c * (k - 1) >= 0;
    } else if k <= -1 {
      assert c * (-1 - k) >= 0;
    }
  }
}

/** Keeps a large invariant folded: a definition of the form `forall n :: Unfold(n) ==> body`
    shows its body only to a proof that mentions `Unfold`. */
module Folding {

  predicate Unfold(n: int) {
    true
  }
}
