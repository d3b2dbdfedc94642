/** One price level: a fixed array of order slots threaded by an intrusive doubly
    linked list in arrival order, with aggregate quantity and count. Levels are plain
    values because the book moves them with memmove. */
module PriceLevels {

  const NONE := -1

  datatype OrderSlot = OrderSlot(orderId: nat, qty: int, active: bool, bid: bool, next: int, prev: int)

  datatype PriceLevel = PriceLevel(orders: seq<OrderSlot>, price: int, totalQty: int, orderCount: int, head: int)

  /** A resting order as the plain book sees it. */
  datatype Resting = Resting(ref: nat, qty: int)

  const FREE_SLOT := OrderSlot(0, 0, false, false, NONE, NONE)

  function EmptyLevel(slots: nat, price: int): PriceLevel {
    PriceLevel(seq(slots, _ => FREE_SLOT), price, 0, 0, NONE)
  }

  // ----- The list as a sequence of slot numbers -----

  /** Following `next` links from `cur`, for at most `fuel` hops. */
  function Walk(orders: seq<OrderSlot>, cur: int, fuel: nat): (q: seq<int>)
    ensures forall k :: 0 <= k < |q| ==> 0 <= q[k] < |orders|
    decreases fuel
  {
    if fuel == 0 || !(0 <= cur < |orders|) then [] else [cur] + Walk(orders, orders[cur].next, fuel - 1)
  }

  function Queue(l: PriceLevel): seq<int> {
    Walk(l.orders, l.head, |l.orders|)
  }

  ghost predicate Indices(orders: seq<OrderSlot>, q: seq<int>) {
    (forall k :: 0 <= k < |q| ==> 0 <= q[k] < |orders|) &&
    (forall j, k :: 0 <= j < k < |q| ==> q[j] != q[k])
  }

  /** `q` is the list from the head: next and prev links agree with it. */
  ghost predicate Chain(orders: seq<OrderSlot>, head: int, q: seq<int>) {
    Indices(orders, q) &&
    head == (if q == [] then NONE else q[0]) &&
    (forall k {:trigger orders[q[k]].next} ::
      0 <= k < |q| ==> orders[q[k]].next == (if k + 1 < |q| then q[k + 1] else NONE)) &&
    (forall k {:trigger orders[q[k]].prev} :: 0 <= k < |q| ==> orders[q[k]].prev == (if k == 0 then NONE else q[k - 1]))
  }

  /** Distinct slot numbers below `n` are at most `n` many. */
  lemma {:induction false} IndicesBounded(q: seq<int>, n: nat)
    requires forall k :: 0 <= k < |q| ==> 0 <= q[k] < n
    requires forall j, k :: 0 <= j < k < |q| ==> q[j] != q[k]
    ensures |q| <= n
  {
    if q != [] {
      assert 0 <= q[0] < n;
      if k :| 0 <= k < |q| && q[k] == n - 1 {
        IndicesBounded(q[..k] + q[k + 1..], n - 1);
      } else {
        IndicesBounded(q, n - 1);
      }
    }
  }

  lemma {:induction false} WalkFollows(orders: seq<OrderSlot>, head: int, q: seq<int>, k: nat, fuel: nat)
    requires Chain(orders, head, q) && k <= |q| && |q| - k <= fuel
    ensures Walk(orders, if k < |q| then q[k] else NONE, fuel) == q[k..]
    decreases |q| - k
  {
    if k < |q| {
      WalkFollows(orders, head, q, k + 1, fuel - 1);
    }
  }

  /** The links determine the list: any sequence they spell is the walked one. */
  lemma QueueUnique(l: PriceLevel, q: seq<int>)
    requires Chain(l.orders, l.head, q)
    ensures Queue(l) == q
  {
    IndicesBounded(q, |l.orders|);
    WalkFollows(l.orders, l.head, q, 0, |l.orders|);
  }

  // ----- Aggregates and the level invariant -----

  function SumQty(orders: seq<OrderSlot>, q: seq<int>): int
    requires forall k :: 0 <= k < |q| ==> 0 <= q[k] < |orders|
  {
    if q == [] then 0 else SumQty(orders, q[..|q| - 1]) + orders[q[|q| - 1]].qty
  }

  function Rests(orders: seq<OrderSlot>, q: seq<int>): seq<Resting>
    requires forall k :: 0 <= k < |q| ==> 0 <= q[k] < |orders|
  {
    seq(|q|, k requires 0 <= k < |q| => Resting(orders[q[k]].orderId, orders[q[k]].qty))
  }

  function SumResting(r: seq<Resting>): int {
    if r == [] then 0 else SumResting(r[..|r| - 1]) + r[|r| - 1].qty
  }

  /** `q` visits exactly the active slots, every quantity is in range, and the
      aggregates are those of `q`. */
  ghost predicate Tally(l: PriceLevel, q: seq<int>, maxQty: int) {
    Indices(l.orders, q) &&
    (forall s :: 0 <= s < |l.orders| ==> (l.orders[s].active <==> s in q)) &&
    (forall s :: 0 <= s < |l.orders| && l.orders[s].active ==> 0 < l.orders[s].qty <= maxQty) &&
    l.orderCount == |q| &&
    l.totalQty == SumQty(l.orders, q)
  }

  ghost predicate LevelQ(l: PriceLevel, q: seq<int>, maxQty: int) {
    Chain(l.orders, l.head, q) && Tally(l, q, maxQty)
  }

  ghost predicate LevelOk(l: PriceLevel, maxQty: int) {
    LevelQ(l, Queue(l), maxQty)
  }

  /** The orders resting at the level, in arrival order. */
  function RestingAt(l: PriceLevel): seq<Resting> {
    Rests(l.orders, Queue(l))
  }

  lemma LevelIs(l: PriceLevel, q: seq<int>, maxQty: int)
    requires LevelQ(l, q, maxQty)
    ensures Queue(l) == q && LevelOk(l, maxQty) && RestingAt(l) == Rests(l.orders, q)
  {
    QueueUnique(l, q);
  }

  /** Sums depend only on the quantities of the slots they visit. */
  lemma {:induction false} SumFrame(a: seq<OrderSlot>, b: seq<OrderSlot>, q: seq<int>)
    requires forall k :: 0 <= k < |q| ==> 0 <= q[k] < |a| && q[k] < |b| && a[q[k]].qty == b[q[k]].qty
    ensures SumQty(a, q) == SumQty(b, q)
  {
    if q != [] {
      SumFrame(a, b, q[..|q| - 1]);
    }
  }

  /** Taking one position out of the list takes its quantity out of the sum. */
  lemma {:induction false} SumWithout(orders: seq<OrderSlot>, q: seq<int>, i: nat)
    requires i < |q| && forall k :: 0 <= k < |q| ==> 0 <= q[k] < |orders|
    ensures SumQty(orders, q[..i] + q[i + 1..]) == SumQty(orders, q) - orders[q[i]].qty
  {
    var r := q[..i] + q[i + 1..];
    if i == |q| - 1 {
      assert r == q[..i];
    } else {
      SumWithout(orders, q[..|q| - 1], i);
      assert r[..|r| - 1] == q[..|q| - 1][..i] + q[..|q| - 1][i + 1..];
      assert r[|r| - 1] == q[|q| - 1];
    }
  }

  /** Changing one listed quantity changes the sum by the difference. */
  lemma SumUpdate(orders: seq<OrderSlot>, q: seq<int>, i: nat, s: OrderSlot)
    requires i < |q| && Indices(orders, q)
    ensures SumQty(orders[q[i] := s], q) == SumQty(orders, q) - orders[q[i]].qty + s.qty
  {
    var orders' := orders[q[i] := s];
    SumWithout(orders, q, i);
    SumWithout(orders', q, i);
    SumFrame(orders, orders', q[..i] + q[i + 1..]);
  }

  lemma {:induction false} SumBounds(orders: seq<OrderSlot>, q: seq<int>, maxQty: int)
    requires maxQty >= 0
    requires forall k :: 0 <= k < |q| ==> 0 <= q[k] < |orders| && 0 < orders[q[k]].qty <= maxQty
    ensures |q| <= SumQty(orders, q) <= |q| * maxQty
  {
    if q != [] {
      SumBounds(orders, q[..|q| - 1], maxQty);
    }
  }

  lemma Scale(a: nat, b: nat, c: int)
    requires a <= b && c >= 0
    ensures a * c <= b * c
  {
  }

  /** A level's aggregate can never approach the 64-bit limit. */
  lemma TotalBounded(l: PriceLevel, maxQty: int)
    requires LevelOk(l, maxQty) && maxQty >= 0
    ensures 0 <= l.totalQty <= |l.orders| * maxQty
  {
    var q := Queue(l);
    IndicesBounded(q, |l.orders|);
    SumBounds(l.orders, q, maxQty);
    Scale(|q|, |l.orders|, maxQty);
  }

  lemma {:induction false} RestingSum(orders: seq<OrderSlot>, q: seq<int>)
    requires forall k :: 0 <= k < |q| ==> 0 <= q[k] < |orders|
    ensures SumResting(Rests(orders, q)) == SumQty(orders, q)
  {
    if q != [] {
      RestingSum(orders, q[..|q| - 1]);
      assert Rests(orders, q)[..|q| - 1] == Rests(orders, q[..|q| - 1]);
    }
  }

  /** The level's stored aggregate is the total quantity of the orders resting there. */
  lemma TotalIsResting(l: PriceLevel, maxQty: int)
    requires LevelOk(l, maxQty)
    ensures l.totalQty == SumResting(RestingAt(l))
  {
    RestingSum(l.orders, Queue(l));
  }

  // ----- Operations -----

  /** First inactive slot, or -1 when the level is full. */
  method AllocSlot(l: PriceLevel) returns (slot: int)
    ensures slot == NONE <==> forall s :: 0 <= s < |l.orders| ==> l.orders[s].active
    ensures slot != NONE ==> 0 <= slot < |l.orders| && !l.orders[slot].active
    ensures slot != NONE ==> forall s :: 0 <= s < slot ==> l.orders[s].active
  {
    for i := 0 to |l.orders|
      invariant forall s :: 0 <= s < i ==> l.orders[s].active
    {
      if !l.orders[i].active {
        return i;
      }
    }
    return NONE;
  }

  /** Everything but the links is equal. */
  ghost predicate SamePayload(a: seq<OrderSlot>, b: seq<OrderSlot>) {
    |a| == |b| && forall s :: 0 <= s < |a| ==> b[s] == a[s].(next := b[s].next, prev := b[s].prev)
  }

  /** A chain with one more slot behind its last one. */
  lemma LinkedLast(a: seq<OrderSlot>, head: int, q: seq<int>, slot: int, b: seq<OrderSlot>, head': int)
    requires Chain(a, head, q) && 0 <= slot < |a| == |b| && slot !in q && head' == (if q == [] then slot else head)
    requires b[slot].next == NONE && b[slot].prev == (if q == [] then NONE else q[|q| - 1])
    requires forall k {:trigger b[q[k]].next} :: 0 <= k < |q| ==>
               b[q[k]].next == (if k == |q| - 1 then slot else a[q[k]].next)
    requires forall k {:trigger b[q[k]].prev} :: 0 <= k < |q| ==> b[q[k]].prev == a[q[k]].prev
    ensures Chain(b, head', q + [slot])
  {
    var all := q + [slot];
    forall k | 0 <= k < |all|
      ensures b[all[k]].next == (if k + 1 < |all| then all[k + 1] else NONE)
      ensures b[all[k]].prev == (if k == 0 then NONE else all[k - 1])
    {
      if k < |q| {
        assert all[k] == q[k] && a[q[k]].next == (if k + 1 < |q| then q[k + 1] else NONE);
        assert a[q[k]].prev == (if k == 0 then NONE else q[k - 1]);
      }
    }
  }

  /** Appends a slot at the tail by walking from the head. */
  method LinkSlot(l: PriceLevel, slot: int, ghost q: seq<int>) returns (r: PriceLevel)
    requires Chain(l.orders, l.head, q) && 0 <= slot < |l.orders| && slot !in q
    ensures Chain(r.orders, r.head, q + [slot])
    ensures r.price == l.price && r.totalQty == l.totalQty && r.orderCount == l.orderCount
    ensures SamePayload(l.orders, r.orders)
  {
    var orders := l.orders[slot := l.orders[slot].(next := NONE)];
    if l.head == NONE {
      orders := orders[slot := orders[slot].(prev := NONE)];
      r := l.(orders := orders, head := slot);
      LinkedLast(l.orders, l.head, q, slot, orders, slot);
    } else {
      var cur := l.head;
      ghost var k := 0;
      while orders[cur].next != NONE
        invariant 0 <= k < |q| && cur == q[k]
        decreases |q| - k
      {
        assert l.orders[q[k]].next == (if k + 1 < |q| then q[k + 1] else NONE);
        cur := orders[cur].next;
        k := k + 1;
      }
      orders := orders[cur := orders[cur].(next := slot)];
      orders := orders[slot := orders[slot].(prev := cur)];
      r := l.(orders := orders);
      LinkedLast(l.orders, l.head, q, slot, orders, l.head);
    }
  }

  /** Bridging position `i` in the links gives the list without it. */
  lemma Unlinked(a: seq<OrderSlot>, head: int, b: seq<OrderSlot>, head': int, q: seq<int>, i: nat)
    requires Chain(a, head, q) && i < |q| && |a| == |b|
    requires head' == (if i == 0 then a[q[i]].next else head)
    requires forall j {:trigger b[q[j]].next} :: 0 <= j < |q| && j != i ==>
               b[q[j]].next == (if j == i - 1 then a[q[i]].next else a[q[j]].next)
    requires forall j {:trigger b[q[j]].prev} :: 0 <= j < |q| && j != i ==>
               b[q[j]].prev == (if j == i + 1 then a[q[i]].prev else a[q[j]].prev)
    ensures Chain(b, head', q[..i] + q[i + 1..])
  {
    var rest := q[..i] + q[i + 1..];
    assert a[q[i]].next == (if i + 1 < |q| then q[i + 1] else NONE);
    assert a[q[i]].prev == (if i == 0 then NONE else q[i - 1]);
    forall k | 0 <= k < |rest|
      ensures b[rest[k]].next == (if k + 1 < |rest| then rest[k + 1] else NONE)
      ensures b[rest[k]].prev == (if k == 0 then NONE else rest[k - 1])
    {
      var j := if k < i then k else k + 1;
      assert b[q[j]].next == (if j == i - 1 then a[q[i]].next else a[q[j]].next);
      assert b[q[j]].prev == (if j == i + 1 then a[q[i]].prev else a[q[j]].prev);
      assert a[q[j]].next == (if j + 1 < |q| then q[j + 1] else NONE);
      assert a[q[j]].prev == (if j == 0 then NONE else q[j - 1]);
      Bridged(q, i, rest, k, a[q[i]], a[q[j]], b[q[j]]);
    }
  }

  /** The links of one slot when position `i` has been bridged. */
  lemma Bridged(q: seq<int>, i: nat, rest: seq<int>, k: nat, gone: OrderSlot, was: OrderSlot, now: OrderSlot)
    requires i < |q| && rest == q[..i] + q[i + 1..] && k < |rest|
    requires var j := if k < i then k else k + 1;
             was.next == (if j + 1 < |q| then q[j + 1] else NONE) && was.prev == (if j == 0 then NONE else q[j - 1]) &&
             now.next == (if j == i - 1 then gone.next else was.next) &&
             now.prev == (if j == i + 1 then gone.prev else was.prev)
    requires gone.next == (if i + 1 < |q| then q[i + 1] else NONE) && gone.prev == (if i == 0 then NONE else q[i - 1])
    ensures rest[k] == q[if k < i then k else k + 1]
    ensures now.next == (if k + 1 < |rest| then rest[k + 1] else NONE)
    ensures now.prev == (if k == 0 then NONE else rest[k - 1])
  {
  }

  /** Takes a slot out of the list in constant time. */
  method UnlinkSlot(l: PriceLevel, slot: int, ghost q: seq<int>, ghost i: nat) returns (r: PriceLevel)
    requires Chain(l.orders, l.head, q) && i < |q| && q[i] == slot
    ensures Chain(r.orders, r.head, q[..i] + q[i + 1..])
    ensures r.price == l.price && r.totalQty == l.totalQty && r.orderCount == l.orderCount
    ensures SamePayload(l.orders, r.orders)
    ensures 0 <= slot < |r.orders| && r.orders[slot].next == r.orders[slot].prev == NONE
  {
    var s := l.orders[slot];
    var orders := l.orders;
    var head := l.head;
    assert s.prev == (if i == 0 then NONE else q[i - 1]);
    assert s.next == (if i + 1 < |q| then q[i + 1] else NONE);
    if s.prev != NONE {
      orders := orders[s.prev := orders[s.prev].(next := s.next)];
    } else {
      head := s.next;
    }
    if s.next != NONE {
      orders := orders[s.next := orders[s.next].(prev := s.prev)];
    }
    orders := orders[slot := orders[slot].(prev := NONE, next := NONE)];
    r := l.(orders := orders, head := head);
    Unlinked(l.orders, l.head, orders, head, q, i);
  }

  /** Identity and quantity of every slot but one are equal. */
  ghost predicate SameElsewhere(a: seq<OrderSlot>, b: seq<OrderSlot>, slot: int) {
    |a| == |b| && forall s :: 0 <= s < |a| && s != slot ==>
      b[s].active == a[s].active && b[s].orderId == a[s].orderId && b[s].qty == a[s].qty
  }

  /** The aggregate facts of a level whose list gained one slot at the tail. */
  lemma PlacedTally(l: PriceLevel, q: seq<int>, r: PriceLevel, slot: int, maxQty: int)
    requires Tally(l, q, maxQty) && 0 <= slot < |l.orders| && SameElsewhere(l.orders, r.orders, slot)
    requires slot !in q && r.orders[slot].active && 0 < r.orders[slot].qty <= maxQty
    requires r.totalQty == l.totalQty + r.orders[slot].qty && r.orderCount == l.orderCount + 1
    ensures Tally(r, q + [slot], maxQty)
  {
    SumFrame(l.orders, r.orders, q);
    assert (q + [slot])[..|q|] == q;
  }

  /** Initialises a free slot, links it at the tail and updates the aggregates. */
  method PlaceOrder(l: PriceLevel, slot: int, ref: nat, qty: int, bid: bool, ghost q: seq<int>, ghost maxQty: int)
    returns (r: PriceLevel)
    requires LevelQ(l, q, maxQty) && 0 < qty <= maxQty
    requires 0 <= slot < |l.orders| && !l.orders[slot].active
    ensures LevelQ(r, q + [slot], maxQty)
    ensures r.price == l.price && SameElsewhere(l.orders, r.orders, slot)
    ensures r.orders[slot].active && r.orders[slot].orderId == ref && r.orders[slot].qty == qty &&
            r.orders[slot].bid == bid
  {
    var s := l.orders[slot].(orderId := ref, qty := qty, active := true, bid := bid);
    r := LinkSlot(l.(orders := l.orders[slot := s]), slot, q);
    r := r.(totalQty := r.totalQty + qty, orderCount := r.orderCount + 1);
    PlacedTally(l, q, r, slot, maxQty);
  }

  lemma PlacedResting(l: PriceLevel, q: seq<int>, r: PriceLevel, slot: int)
    requires Indices(l.orders, q) && slot !in q && 0 <= slot < |l.orders| && SameElsewhere(l.orders, r.orders, slot)
    ensures Rests(r.orders, q + [slot]) == Rests(l.orders, q) + [Resting(r.orders[slot].orderId, r.orders[slot].qty)]
  {
  }

  ghost function Without<T>(q: seq<T>, i: nat): seq<T>
    requires i < |q|
  {
    q[..i] + q[i + 1..]
  }

  lemma WithoutMembers(orders: seq<OrderSlot>, q: seq<int>, i: nat, rest: seq<int>)
    requires i < |q| && Indices(orders, q) && rest == Without(q, i)
    ensures Indices(orders, rest) && |rest| == |q| - 1
    ensures forall x :: x in rest <==> x in q && x != q[i]
    ensures forall k :: 0 <= k < |rest| ==> rest[k] != q[i]
  {
    assert q == q[..i] + [q[i]] + q[i + 1..];
  }

  /** The aggregate facts of a level whose list lost position `i`. */
  lemma RetiredTally(l: PriceLevel, q: seq<int>, i: nat, r: PriceLevel, maxQty: int)
    requires Tally(l, q, maxQty) && i < |q| && SameElsewhere(l.orders, r.orders, q[i]) && !r.orders[q[i]].active
    requires r.totalQty == l.totalQty - l.orders[q[i]].qty && r.orderCount == l.orderCount - 1
    ensures Tally(r, Without(q, i), maxQty)
  {
    var rest := Without(q, i);
    SumWithout(l.orders, q, i);
    WithoutMembers(l.orders, q, i, rest);
    SumFrame(l.orders, r.orders, rest);
  }

  lemma RetiredResting(l: PriceLevel, q: seq<int>, i: nat, r: PriceLevel)
    requires Indices(l.orders, q) && i < |q| && SameElsewhere(l.orders, r.orders, q[i])
    ensures Rests(r.orders, Without(q, i)) == Without(Rests(l.orders, q), i)
  {
  }

  /** Unlinks and deactivates the slot at list position `i`; the caller has already
      taken its quantity out of the aggregate (and possibly out of the slot). */
  method RetireSlot(l: PriceLevel, slot: int, ghost was: PriceLevel, ghost q: seq<int>, ghost i: nat, ghost maxQty: int)
    returns (r: PriceLevel)
    requires LevelQ(was, q, maxQty) && i < |q| && q[i] == slot
    requires l.head == was.head && l.price == was.price && l.orderCount == was.orderCount
    requires Chain(l.orders, l.head, q) && SameElsewhere(was.orders, l.orders, slot)
    requires l.totalQty == was.totalQty - was.orders[slot].qty
    ensures LevelQ(r, Without(q, i), maxQty)
    ensures r.price == was.price && SameElsewhere(was.orders, r.orders, slot) &&
            r.orders[slot] == OrderSlot(0, 0, false, false, NONE, NONE)
  {
    r := UnlinkSlot(l, slot, q, i);
    r := r.(orders := r.orders[slot := r.orders[slot].(active := false, bid := false, orderId := 0, qty := 0)],
            orderCount := r.orderCount - 1);
    RetiredTally(was, q, i, r, maxQty);
    WithoutMembers(l.orders, q, i, Without(q, i));
  }

  /** Taking part of a listed quantity out of its slot and the aggregate. */
  lemma ReducedTally(l: PriceLevel, q: seq<int>, i: nat, s: OrderSlot, r: PriceLevel, maxQty: int)
    requires Tally(l, q, maxQty) && i < |q| && 0 < s.qty <= maxQty && s.active
    requires r == l.(orders := l.orders[q[i] := s], totalQty := l.totalQty - l.orders[q[i]].qty + s.qty)
    ensures Tally(r, q, maxQty)
  {
    SumUpdate(l.orders, q, i, s);
  }

  lemma ReducedResting(l: PriceLevel, q: seq<int>, i: nat, s: OrderSlot)
    requires Indices(l.orders, q) && i < |q|
    ensures Rests(l.orders[q[i] := s], q) == Rests(l.orders, q)[i := Resting(s.orderId, s.qty)]
  {
  }

  /** A listed order never exceeds the aggregate, so clamping to it changes nothing. */
  lemma PartBelowTotal(l: PriceLevel, q: seq<int>, i: nat, maxQty: int)
    requires Tally(l, q, maxQty) && maxQty >= 0 && i < |q|
    ensures 0 < l.orders[q[i]].qty <= l.totalQty
  {
    var rest := Without(q, i);
    assert q[i] in q;
    SumWithout(l.orders, q, i);
    WithoutMembers(l.orders, q, i, rest);
    forall k | 0 <= k < |rest|
      ensures 0 <= rest[k] < |l.orders| && 0 < l.orders[rest[k]].qty <= maxQty
    {
      assert rest[k] in q;
    }
    SumBounds(l.orders, rest, maxQty);
  }

  // ----- Whole-level operations, stated on the resting orders -----

  /** `r` is `l` with one order more, in `slot`, at the back of the queue. */
  ghost predicate Appended(l: PriceLevel, r: PriceLevel, slot: int, ref: nat, qty: int, maxQty: int) {
    LevelOk(r, maxQty) && RestingAt(r) == RestingAt(l) + [Resting(ref, qty)] && Queue(r) == Queue(l) + [slot] &&
    r.price == l.price && r.orderCount == l.orderCount + 1 && r.totalQty == l.totalQty + qty &&
    SameElsewhere(l.orders, r.orders, slot) && 0 <= slot < |r.orders| &&
    r.orders[slot].active && r.orders[slot].orderId == ref && r.orders[slot].qty == qty
  }

  /** `r` is `l` without the order at queue position `i`, which was in `slot`. */
  ghost predicate Cut(l: PriceLevel, r: PriceLevel, slot: int, i: nat, maxQty: int) {
    i < |RestingAt(l)| && LevelOk(r, maxQty) && RestingAt(r) == Without(RestingAt(l), i) &&
    r.price == l.price && r.orderCount == l.orderCount - 1 &&
    SameElsewhere(l.orders, r.orders, slot) && 0 <= slot < |r.orders| && !r.orders[slot].active
  }

  /** `r` is `l` with the order at queue position `i`, in `slot`, smaller by `delta`. */
  ghost predicate Shrunk(l: PriceLevel, r: PriceLevel, slot: int, i: nat, delta: int, maxQty: int) {
    LevelOk(r, maxQty) && r.orderCount == l.orderCount && Lessened(l, r, slot, i, delta)
  }

  ghost predicate Lessened(l: PriceLevel, r: PriceLevel, slot: int, i: nat, delta: int) {
    i < |RestingAt(l)| && 0 <= slot < |l.orders| && r.price == l.price &&
    RestingAt(r) == RestingAt(l)[i := Resting(l.orders[slot].orderId, l.orders[slot].qty - delta)] &&
    SameElsewhere(l.orders, r.orders, slot) && r.orders[slot] == l.orders[slot].(qty := l.orders[slot].qty - delta)
  }

  /** `r` holds the same orders as `l`, with `slot` free in both. */
  ghost predicate Restored(l: PriceLevel, r: PriceLevel, slot: int, maxQty: int) {
    LevelOk(r, maxQty) && RestingAt(r) == RestingAt(l) && r.price == l.price && r.orderCount == l.orderCount &&
    SameElsewhere(l.orders, r.orders, slot) && 0 <= slot < |r.orders| && !r.orders[slot].active
  }

  /** Places an order in a free slot at the back of the queue. */
  method AppendOrder(l: PriceLevel, slot: int, ref: nat, qty: int, bid: bool, ghost maxQty: int) returns (r: PriceLevel)
    requires LevelOk(l, maxQty) && 0 < qty <= maxQty && 0 <= slot < |l.orders| && !l.orders[slot].active
    ensures Appended(l, r, slot, ref, qty, maxQty) && r.orders[slot].bid == bid
  {
    ghost var q := Queue(l);
    r := PlaceOrder(l, slot, ref, qty, bid, q, maxQty);
    AppendedIs(l, q, r, slot, maxQty);
  }

  lemma AppendedIs(l: PriceLevel, q: seq<int>, r: PriceLevel, slot: int, maxQty: int)
    requires LevelQ(l, q, maxQty) && slot !in q && LevelQ(r, q + [slot], maxQty) && 0 <= slot < |l.orders|
    requires SameElsewhere(l.orders, r.orders, slot)
    ensures LevelOk(r, maxQty) && Queue(r) == q + [slot] && r.totalQty == l.totalQty + r.orders[slot].qty
    ensures RestingAt(r) == RestingAt(l) + [Resting(r.orders[slot].orderId, r.orders[slot].qty)]
  {
    LevelIs(l, q, maxQty);
    LevelIs(r, q + [slot], maxQty);
    PlacedResting(l, q, r, slot);
    SumFrame(l.orders, r.orders, q);
    assert (q + [slot])[..|q|] == q;
  }

  function Clamped(requested: int, available: int): int {
    if requested <= 0 || available <= 0 then 0 else if requested < available then requested else available
  }

  /** Takes the order at list position `i` out of the level. */
  method DropOrder(l: PriceLevel, slot: int, ghost i: nat, ghost maxQty: int) returns (r: PriceLevel)
    requires LevelOk(l, maxQty) && 0 <= maxQty && i < |Queue(l)| && Queue(l)[i] == slot
    ensures Cut(l, r, slot, i, maxQty) && r.orders[slot] == OrderSlot(0, 0, false, false, NONE, NONE)
  {
    ghost var q := Queue(l);
    PartBelowTotal(l, q, i, maxQty);
    r := RetireSlot(l.(totalQty := l.totalQty - Clamped(l.orders[slot].qty, l.totalQty)), slot, l, q, i, maxQty);
    DroppedIs(l, q, i, r, maxQty);
  }

  lemma DroppedIs(l: PriceLevel, q: seq<int>, i: nat, r: PriceLevel, maxQty: int)
    requires q == Queue(l) && LevelQ(l, q, maxQty) && i < |q| && LevelQ(r, Without(q, i), maxQty)
    requires SameElsewhere(l.orders, r.orders, q[i]) && !r.orders[q[i]].active && r.price == l.price
    ensures Cut(l, r, q[i], i, maxQty)
  {
    LevelIs(r, Without(q, i), maxQty);
    RetiredResting(l, q, i, r);
  }

  /** Takes up to `qty` out of the order at list position `i`, and the order out of the
      level when nothing remains: the common body of execute and cancel. */
  method ReduceOrder(l: PriceLevel, slot: int, qty: int, ghost i: nat, ghost maxQty: int)
      returns (r: PriceLevel, gone: bool)
    requires LevelOk(l, maxQty) && 0 < qty && 0 <= maxQty && i < |Queue(l)| && Queue(l)[i] == slot
    ensures gone <==> l.orders[slot].qty <= qty
    ensures if gone then Cut(l, r, slot, i, maxQty) else Shrunk(l, r, slot, i, qty, maxQty)
  {
    ghost var q := Queue(l);
    PartBelowTotal(l, q, i, maxQty);
    var delta := Clamped(qty, l.orders[slot].qty);
    var s := l.orders[slot].(qty := l.orders[slot].qty - delta);
    r := l.(orders := l.orders[slot := s], totalQty := l.totalQty - delta);
    gone := s.qty <= 0;
    if gone {
      ResizedChain(l.orders, l.head, q, slot, s);
      r := RetireSlot(r, slot, l, q, i, maxQty);
      DroppedIs(l, q, i, r, maxQty);
    } else {
      ReducedIs(l, q, i, qty, r, maxQty);
    }
  }

  lemma ResizedChain(orders: seq<OrderSlot>, head: int, q: seq<int>, slot: int, s: OrderSlot)
    requires Chain(orders, head, q) && 0 <= slot < |orders| && s == orders[slot].(qty := s.qty)
    ensures Chain(orders[slot := s], head, q)
  {
  }

  lemma ReducedIs(l: PriceLevel, q: seq<int>, i: nat, delta: int, r: PriceLevel, maxQty: int)
    requires q == Queue(l) && LevelQ(l, q, maxQty) && i < |q| && 0 < delta < l.orders[q[i]].qty
    requires r == l.(orders := l.orders[q[i] := l.orders[q[i]].(qty := l.orders[q[i]].qty - delta)],
                     totalQty := l.totalQty - delta)
    ensures Shrunk(l, r, q[i], i, delta, maxQty)
  {
    var s := l.orders[q[i]].(qty := l.orders[q[i]].qty - delta);
    assert q[i] in q;
    ReducedTally(l, q, i, s, r, maxQty);
    ResizedChain(l.orders, l.head, q, q[i], s);
    LevelIs(r, q, maxQty);
    ReducedResting(l, q, i, s);
  }

  /** Undoes `AppendOrder` after the index refused the reference. */
  method UndoAppend(l: PriceLevel, placed: PriceLevel, slot: int, qty: int, ghost maxQty: int) returns (r: PriceLevel)
    requires LevelOk(l, maxQty) && 0 <= slot < |l.orders| && !l.orders[slot].active
    requires exists ref :: Appended(l, placed, slot, ref, qty, maxQty)
    ensures Restored(l, r, slot, maxQty)
  {
    ghost var q, i := Queue(placed), |Queue(l)|;
    r := RetireSlot(placed.(totalQty := placed.totalQty - qty), slot, placed, q, i, maxQty);
    DroppedIs(placed, q, i, r, maxQty);
    assert Without(RestingAt(placed), i) == RestingAt(l);
  }
}
