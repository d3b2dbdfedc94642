/** The auction cross: the indicative price that pairs the most volume. */
module Auction {

  const INT64_MAX: int := 0x7FFF_FFFF_FFFF_FFFF

  datatype AuctionOrder = AuctionOrder(id: nat, symbol: nat, buy: bool, price: int, qty: int, market: bool,
      active: bool)

  datatype ImbalanceSide = NoSide | BuySide | SellSide

  datatype Noii = Noii(price: int, paired: int, imbalance: int, side: ImbalanceSide)

  predicate Counts(o: AuctionOrder, symbol: nat) {
    o.active && o.symbol == symbol
  }

  /** The order would trade at price `p`. */
  predicate Trades(o: AuctionOrder, p: int) {
    o.market || (if o.buy then o.price >= p else o.price <= p)
  }

  function Volume(orders: seq<AuctionOrder>, symbol: nat, buy: bool, p: int): int {
    if orders == [] then 0
    else
      var o := orders[|orders| - 1];
      Volume(orders[..|orders| - 1], symbol, buy, p) + if Counts(o, symbol) && o.buy == buy &&
      Trades(o, p) then o.qty else 0
  }

  function Paired(orders: seq<AuctionOrder>, symbol: nat, p: int): int {
    Min(Volume(orders, symbol, true, p), Volume(orders, symbol, false, p))
  }

  function Imbalance(orders: seq<AuctionOrder>, symbol: nat, p: int): int {
    Abs(Volume(orders, symbol, true, p) - Volume(orders, symbol, false, p))
  }

  function Min(a: int, b: int): int {
    if a < b then a else b
  }

  function Abs(x: int): int {
    if x < 0 then -x else x
  }

  /** A limit price of some active order of the symbol. */
  ghost predicate IsLimit(orders: seq<AuctionOrder>, symbol: nat, p: int) {
    exists i {:trigger orders[i]} ::
      0 <= i < |orders| && orders[i].active && orders[i].symbol == symbol && !orders[i].market && orders[i].price == p
  }

  predicate Positive(orders: seq<AuctionOrder>) {
    forall i {:trigger orders[i]} :: 0 <= i < |orders| && orders[i].active ==> orders[i].qty > 0
  }

  /** At no limit price does either side's volume exceed a signed 64-bit sum. */
  ghost predicate Summable(orders: seq<AuctionOrder>, symbol: nat) {
    forall p, buy {:trigger Volume(orders, symbol, buy, p)} ::
        IsLimit(orders, symbol, p) ==> Volume(orders, symbol, buy, p) <= INT64_MAX
  }

  /** What one order adds to a side's volume at a price: all of it if it is a market order, or a buy
      at that price or above, or a sell at that price or below; and nothing to the other side or
      another symbol. */
  function Adds(o: AuctionOrder, symbol: nat, buy: bool, p: int): int {
    if o.active && o.symbol == symbol &&
      ((buy && o.buy && (o.market || o.price >= p)) || (!buy && !o.buy && (o.market || o.price <= p)))
    then o.qty else 0
  }

  lemma {:induction false} VolumeOfOne(orders: seq<AuctionOrder>, i: nat, o: AuctionOrder, symbol: nat, buy: bool,
      p: int)
    requires i < |orders|
    ensures Volume(orders[i := o], symbol, buy, p) ==
            Volume(orders, symbol, buy, p) - Adds(orders[i], symbol, buy, p) + Adds(o, symbol, buy, p)
  {
    var last := |orders| - 1;
    if i < last {
      VolumeOfOne(orders[..last], i, o, symbol, buy, p);
      assert orders[i := o][..last] == orders[..last][i := o];
    } else {
      assert orders[i := o][..last] == orders[..last];
    }
  }

  /** Quantity of a side's market orders. */
  function MarketQty(orders: seq<AuctionOrder>, symbol: nat, buy: bool): int {
    if orders == [] then 0
    else
      var o := orders[|orders| - 1];
      MarketQty(orders[..|orders| - 1], symbol, buy) +
      if o.active && o.symbol == symbol && o.buy == buy && o.market then o.qty else 0
  }

  /** Market orders trade at every price. */
  lemma {:induction false} MarketTrades(orders: seq<AuctionOrder>, symbol: nat, buy: bool, p: int)
    requires Positive(orders)
    ensures 0 <= MarketQty(orders, symbol, buy) <= Volume(orders, symbol, buy, p)
  {
    if orders != [] {
      MarketTrades(orders[..|orders| - 1], symbol, buy, p);
    }
  }

  /** Paired volume is the smaller side, the imbalance what the larger one has more. */
  lemma PairedIs(orders: seq<AuctionOrder>, symbol: nat, p: int)
    ensures var buys, sells := Volume(orders, symbol, true, p), Volume(orders, symbol, false, p);
            var paired, imbalance := Paired(orders, symbol, p), Imbalance(orders, symbol, p);
            (buys == paired && sells == paired + imbalance) || (sells == paired && buys == paired + imbalance)
    ensures Imbalance(orders, symbol, p) >= 0
  {
  }

  /** Buy volume falls and sell volume rises with the price. */
  lemma {:induction false} VolumeMonotone(orders: seq<AuctionOrder>, symbol: nat, p: int, q: int)
    requires Positive(orders) && p <= q
    ensures 0 <= Volume(orders, symbol, true, q) <= Volume(orders, symbol, true, p)
    ensures 0 <= Volume(orders, symbol, false, p) <= Volume(orders, symbol, false, q)
  {
    if orders != [] {
      VolumeMonotone(orders[..|orders| - 1], symbol, p, q);
    }
  }

  /** Between limit prices the volumes do not change. */
  lemma {:induction false} VolumeFlat(orders: seq<AuctionOrder>, symbol: nat, buy: bool, p: int, q: int)
    requires forall i {:trigger orders[i]} ::
               0 <= i < |orders| && Counts(orders[i], symbol) && !orders[i].market && orders[i].buy == buy ==>
               (if buy then !(p <= orders[i].price < q) &&
               !(q <= orders[i].price < p) else !(p < orders[i].price <= q) && !(q < orders[i].price <= p))
    ensures Volume(orders, symbol, buy, p) == Volume(orders, symbol, buy, q)
  {
    if orders != [] {
      VolumeFlat(orders[..|orders| - 1], symbol, buy, p, q);
    }
  }

  /** Some limit price pairs at least as much as any given price. */
  lemma LimitPairsAsMuch(orders: seq<AuctionOrder>, symbol: nat, prices: seq<int>, p: int)
    requires Positive(orders) && prices != [] && forall x :: x in prices <==> IsLimit(orders, symbol, x)
    requires forall i, j :: 0 <= i < j < |prices| ==> prices[i] < prices[j]
    ensures exists k :: 0 <= k < |prices| && Paired(orders, symbol, prices[k]) >= Paired(orders, symbol, p)
  {
    var last := |prices| - 1;
    if prices[last] < p {
      Quiet(orders, symbol, prices, prices[last] + 1, p + 1);
      VolumeFlat(orders, symbol, false, prices[last], p);
      VolumeMonotone(orders, symbol, prices[last], p);
      assert Paired(orders, symbol, prices[last]) >= Paired(orders, symbol, p);
    } else {
      var k := FirstAtLeast(prices, p);
      Quiet(orders, symbol, prices, p, prices[k]);
      VolumeFlat(orders, symbol, true, p, prices[k]);
      VolumeMonotone(orders, symbol, p, prices[k]);
      assert Paired(orders, symbol, prices[k]) >= Paired(orders, symbol, p);
    }
  }

  ghost function FirstAtLeast(prices: seq<int>, p: int): (k: nat)
    requires prices != [] && prices[|prices| - 1] >= p
    ensures k < |prices| && prices[k] >= p && forall i :: 0 <= i < k ==> prices[i] < p
  {
    if prices[0] >= p then 0 else assert forall i ::
        0 < i < |prices| ==> prices[i] == prices[1..][i - 1]; 1 + FirstAtLeast(prices[1..], p)
  }

  /** No order has a limit from `p` up to but not including `q`. */
  lemma Quiet(orders: seq<AuctionOrder>, symbol: nat, prices: seq<int>, p: int, q: int)
    requires forall x :: x in prices <==> IsLimit(orders, symbol, x)
    requires p <= q && forall i :: 0 <= i < |prices| ==> prices[i] < p || prices[i] >= q
    ensures forall i {:trigger orders[i]} ::
              0 <= i < |orders| && Counts(orders[i], symbol) && !orders[i].market ==>
                orders[i].price < p || orders[i].price >= q
  {
    forall i | 0 <= i < |orders| && Counts(orders[i], symbol) && !orders[i].market
      ensures orders[i].price < p || orders[i].price >= q
    {
      assert IsLimit(orders, symbol, orders[i].price);
    }
  }

  // ----- The engine -----

  function ActiveCount(orders: seq<AuctionOrder>): (n: nat)
    ensures n <= |orders| && (n == |orders| <==> forall i :: 0 <= i < |orders| ==> orders[i].active)
  {
    if orders == [] then 0
    else
      var last := |orders| - 1;
      assert forall i :: 0 <= i < last ==> orders[..last][i] == orders[i];
      ActiveCount(orders[..last]) + if orders[last].active then 1 else 0
  }

  lemma {:induction false} ActivateOne(orders: seq<AuctionOrder>, i: nat, o: AuctionOrder)
    requires i < |orders| && !orders[i].active && o.active
    ensures ActiveCount(orders[i := o]) == ActiveCount(orders) + 1
  {
    var last := |orders| - 1;
    if i < last {
      ActivateOne(orders[..last], i, o);
      assert orders[i := o][..last] == orders[..last][i := o];
    } else {
      assert orders[i := o][..last] == orders[..last];
    }
  }

  /** The candidate is the best of the first `n` prices: most paired, then least imbalance, then lowest. */
  ghost predicate BestOf(orders: seq<AuctionOrder>, symbol: nat, prices: seq<int>, n: nat, b: nat)
    requires b < n <= |prices|
  {
    forall i {:trigger prices[i]} :: 0 <= i < n ==>
      var pi, pb := Paired(orders, symbol, prices[i]), Paired(orders, symbol, prices[b]);
      pi < pb || (pi == pb && Imbalance(orders, symbol, prices[i]) >= Imbalance(orders, symbol, prices[b]) &&
                  (Imbalance(orders, symbol, prices[i]) == Imbalance(orders, symbol, prices[b]) ==> b <= i))
  }

  /** The state of the scan after `n` prices: nothing beat the reference, or the best so far is known. */
  ghost predicate Scanned(orders: seq<AuctionOrder>, symbol: nat, prices: seq<int>, n: nat, reference: int, best: int,
      paired: int, imbalance: int) {
    n <= |prices| &&
    ((best == reference && paired == 0 && imbalance == INT64_MAX && Hopeless(orders, symbol, prices, n)) ||
     exists b :: 0 <= b < n && best == prices[b] && Leads(orders, symbol, prices, n, b, paired, imbalance))
  }

  /** Nothing pairs at any of the first `n` prices, and every imbalance is the largest integer. */
  ghost predicate Hopeless(orders: seq<AuctionOrder>, symbol: nat, prices: seq<int>, n: nat)
    requires n <= |prices|
  {
    forall i {:trigger prices[i]} ::
        0 <= i < n ==> Paired(orders, symbol, prices[i]) == 0 && Imbalance(orders, symbol, prices[i]) == INT64_MAX
  }

  /** The best of the first `n` prices is `prices[b]`, and it beats the reference. */
  ghost predicate Leads(orders: seq<AuctionOrder>, symbol: nat, prices: seq<int>, n: nat, b: nat, paired: int,
      imbalance: int) {
    b < n <= |prices| && paired == Paired(orders, symbol, prices[b]) &&
    imbalance == Imbalance(orders, symbol, prices[b]) &&
    BestOf(orders, symbol, prices, n, b) && !Hopeless(orders, symbol, prices, n)
  }

  lemma LeadsScanned(orders: seq<AuctionOrder>, symbol: nat, prices: seq<int>, n: nat, b: nat, reference: int,
      paired: int, imbalance: int)
    requires Leads(orders, symbol, prices, n, b, paired, imbalance)
    ensures Scanned(orders, symbol, prices, n, reference, prices[b], paired, imbalance)
  {
  }

  /** A first price that beats the reference. */
  lemma FirstLeader(orders: seq<AuctionOrder>, symbol: nat, prices: seq<int>, n: nat, p: int, m: int)
    requires n < |prices| && Hopeless(orders, symbol, prices, n) && p == Paired(orders, symbol, prices[n]) &&
             m == Imbalance(orders, symbol, prices[n])
    requires p > 0 || (p == 0 && m < INT64_MAX)
    ensures Leads(orders, symbol, prices, n + 1, n, p, m)
  {
    assert !(Paired(orders, symbol, prices[n]) == 0 && Imbalance(orders, symbol, prices[n]) == INT64_MAX);
  }

  /** A price that beats the leader, or does not. */
  lemma NextLeader(orders: seq<AuctionOrder>, symbol: nat, prices: seq<int>, n: nat, b: nat, paired: int,
      imbalance: int, p: int, m: int)
    requires n < |prices| && Leads(orders, symbol, prices, n, b, paired, imbalance) &&
             p == Paired(orders, symbol, prices[n]) && m == Imbalance(orders, symbol, prices[n])
    ensures if p > paired || (p == paired && m < imbalance) then Leads(orders, symbol, prices, n + 1, n, p, m)
            else Leads(orders, symbol, prices, n + 1, b, paired, imbalance)
  {
    var k :| 0 <= k < n && !(Paired(orders, symbol, prices[k]) == 0 &&
      Imbalance(orders, symbol, prices[k]) == INT64_MAX);
    assert !Hopeless(orders, symbol, prices, n + 1);
  }

  lemma ScanStep(orders: seq<AuctionOrder>, symbol: nat, prices: seq<int>, n: nat, reference: int, best: int,
      paired: int, imbalance: int, p: int, m: int)
    requires Positive(orders) && Summable(orders, symbol) && n < |prices| && IsLimit(orders, symbol, prices[n])
    requires Scanned(orders, symbol, prices, n, reference, best, paired, imbalance)
    requires p == Paired(orders, symbol, prices[n]) && m == Imbalance(orders, symbol, prices[n])
    ensures if p > paired || (p == paired && m < imbalance) then
            Scanned(orders, symbol, prices, n + 1, reference, prices[n], p, m)
            else Scanned(orders, symbol, prices, n + 1, reference, best, paired, imbalance)
  {
    VolumeMonotone(orders, symbol, prices[n], prices[n]);
    assert 0 <= p && m <= INT64_MAX;
    if Hopeless(orders, symbol, prices, n) {
      if p > 0 || m < INT64_MAX {
        FirstLeader(orders, symbol, prices, n, p, m);
        LeadsScanned(orders, symbol, prices, n + 1, n, reference, p, m);
      } else {
        assert Hopeless(orders, symbol, prices, n + 1);
      }
    } else {
      var b :| 0 <= b < n && best == prices[b] && Leads(orders, symbol, prices, n, b, paired, imbalance);
      NextLeader(orders, symbol, prices, n, b, paired, imbalance, p, m);
      if p > paired || (p == paired && m < imbalance) {
        LeadsScanned(orders, symbol, prices, n + 1, n, reference, p, m);
      } else {
        LeadsScanned(orders, symbol, prices, n + 1, b, reference, paired, imbalance);
      }
    }
  }

  class CrossEngine {
    const orders: array<AuctionOrder>
    var count: nat

    ghost predicate Valid()
      reads this, orders
    {
      Positive(orders[..]) && count == ActiveCount(orders[..])
    }

    constructor (capacity: nat)
      ensures Valid() && fresh(orders) && orders.Length == capacity && count == 0
      ensures forall i :: 0 <= i < capacity ==> !orders[i].active
    {
      orders := new AuctionOrder[capacity](_ => AuctionOrder(0, 0, true, 0, 0, false, false));
      count := 0;
      new;
      Inactive(orders[..]);
    }

    /** Enters an order in the first inactive slot. */
    method AddAuctionOrder(id: nat, symbol: nat, buy: bool, price: int, qty: int, market: bool) returns (ok: bool)
      requires Valid()
      modifies this, orders
      ensures Valid() && (ok <==> qty > 0 && exists i :: 0 <= i < orders.Length && !old(orders[i]).active)
      ensures ok ==>
                exists i ::
                  0 <= i < orders.Length && !old(orders[i]).active &&
                  (forall j :: 0 <= j < i ==> old(orders[j]).active) &&
                       orders[..] == old(orders[..])[i := AuctionOrder(id, symbol, buy, if market then 0 else price,
                       qty, market, true)]
      ensures !ok ==> orders[..] == old(orders[..])
      ensures ok ==> forall s, side, p {:trigger Volume(orders[..], s, side, p)} ::
                Volume(orders[..], s, side, p) == Volume(old(orders[..]), s, side, p) +
                  if s == symbol && side == buy && (market || (buy && price >= p) || (!buy && price <= p)) then qty
                  else 0
    {
      if count >= orders.Length || qty <= 0 {
        assert count == orders.Length ==> forall i :: 0 <= i < orders.Length ==> orders[i] == orders[..][i];
        return false;
      }
      var i := 0;
      while i < orders.Length
        invariant i <= orders.Length && forall j :: 0 <= j < i ==> orders[j].active
      {
        if !orders[i].active {
          var o := AuctionOrder(id, symbol, buy, if market then 0 else price, qty, market, true);
          ActivateOne(orders[..], i, o);
          ghost var was := orders[..];
          orders[i] := o;
          assert orders[..] == was[i := o];
          forall s, side, p {:trigger Volume(orders[..], s, side, p)} ensures Volume(orders[..], s, side, p) ==
            Volume(was, s, side, p) +
              if s == symbol && side == buy && (market || (buy && price >= p) || (!buy && price <= p)) then qty else 0
          {
            VolumeOfOne(was, i, o, s, side, p);
          }
          count := count + 1;
          return true;
        }
        i := i + 1;
      }
      return false;
    }

    method Reset()
      modifies this, orders
      ensures Valid() && count == 0 &&
              forall i :: 0 <= i < orders.Length ==> orders[i] == old(orders[i]).(active := false)
      ensures forall s, side, p {:trigger Volume(orders[..], s, side, p)} :: Volume(orders[..], s, side, p) == 0
    {
      var i := 0;
      while i < orders.Length
        invariant i <= orders.Length
        invariant forall j :: 0 <= j < i ==> orders[j] == old(orders[j]).(active := false)
        invariant forall j :: i <= j < orders.Length ==> orders[j] == old(orders[j])
      {
        orders[i] := orders[i].(active := false);
        i := i + 1;
      }
      count := 0;
      Inactive(orders[..]);
      forall s, side, p {:trigger Volume(orders[..], s, side, p)} ensures Volume(orders[..], s, side, p) == 0 {
        NoVolume(orders[..], s, side, p);
      }
    }

    /** The distinct limit prices of the symbol. */
    method CollectPrices(symbol: nat) returns (prices: seq<int>)
      ensures forall x :: x in prices <==> IsLimit(orders[..], symbol, x)
      ensures forall i, j :: 0 <= i < j < |prices| ==> prices[i] != prices[j]
    {
      prices := [];
      var i := 0;
      while i < orders.Length
        invariant i <= orders.Length
        invariant forall x ::
                    x in prices <==>
                      exists k :: 0 <= k < i && Counts(orders[k], symbol) && !orders[k].market && orders[k].price == x
        invariant forall i, j :: 0 <= i < j < |prices| ==> prices[i] != prices[j]
      {
        if Counts(orders[i], symbol) && !orders[i].market && orders[i].price !in prices {
          prices := prices + [orders[i].price];
        }
        i := i + 1;
      }
      forall x ensures x in prices <==> IsLimit(orders[..], symbol, x) {
        if x in prices {
          var k :| 0 <= k < i && Counts(orders[k], symbol) && !orders[k].market && orders[k].price == x;
          assert orders[..][k] == orders[k];
        }
      }
    }

    /** Buy and sell volume that would trade at a price. */
    method Volumes(symbol: nat, p: int) returns (buys: int, sells: int)
      ensures buys == Volume(orders[..], symbol, true, p) && sells == Volume(orders[..], symbol, false, p)
    {
      buys, sells := 0, 0;
      var i := 0;
      while i < orders.Length
        invariant i <= orders.Length
        invariant buys == Volume(orders[..i], symbol, true, p) && sells == Volume(orders[..i], symbol, false, p)
      {
        assert orders[..i + 1][..i] == orders[..i];
        var o := orders[i];
        if Counts(o, symbol) {
          if o.buy {
            if o.market || o.price >= p {
              buys := buys + o.qty;
            }
          } else {
            if o.market || o.price <= p {
              sells := sells + o.qty;
            }
          }
        }
        i := i + 1;
      }
      assert orders[..i] == orders[..];
    }

    /** The indicative price: with at least one limit order it pairs the most volume over all
        integer prices, and among limit prices that do it has the least imbalance and then the
        lowest price. The one exception keeps the reference price: nothing pairs at any limit
        price and every imbalance there is the largest integer. */
    method ComputeNoii(symbol: nat, reference: int) returns (r: Noii)
      requires Positive(orders[..]) && Summable(orders[..], symbol)
      ensures (!exists p :: IsLimit(orders[..], symbol, p)) ==> r == Noii(reference, 0, 0, NoSide)
      ensures (exists p :: IsLimit(orders[..], symbol, p)) ==>
                r.paired == Paired(orders[..], symbol, r.price) &&
                r.imbalance == Imbalance(orders[..], symbol, r.price) &&
                SideIs(orders[..], symbol, r) && MostPaired(orders[..], symbol, r)
      ensures (exists p :: IsLimit(orders[..], symbol, p)) ==>
                Volume(orders[..], symbol, true, r.price) >= MarketQty(orders[..], symbol, true) &&
                Volume(orders[..], symbol, false, r.price) >= MarketQty(orders[..], symbol, false)
      ensures (exists p :: IsLimit(orders[..], symbol, p)) ==>
                var buys, sells := Volume(orders[..], symbol, true, r.price),
                  Volume(orders[..], symbol, false, r.price);
                match r.side
                case BuySide => buys > sells && r.paired == sells && r.imbalance == buys - sells
                case SellSide => sells > buys && r.paired == buys && r.imbalance == sells - buys
                case NoSide => buys == sells == r.paired && r.imbalance == 0
      ensures (exists p :: IsLimit(orders[..], symbol, p)) ==>
                if forall p ::
                    IsLimit(orders[..], symbol, p) ==>
                      Paired(orders[..], symbol, p) == 0 && Imbalance(orders[..], symbol, p) == INT64_MAX
                then r.price == reference
                else IsLimit(orders[..], symbol, r.price) && LeastImbalance(orders[..], symbol, r)
    {
      var prices := CollectPrices(symbol);
      if prices == [] {
        assert forall p :: !IsLimit(orders[..], symbol, p) by { assert forall p :: p !in prices; }
        return Noii(reference, 0, 0, NoSide);
      }
      assert IsLimit(orders[..], symbol, prices[0]);
      prices := SortPrices(prices);
      var best, paired, imbalance := Scan(symbol, prices, reference);
      ScanResult(orders[..], symbol, prices, reference, best, paired, imbalance);
      var buys, sells := Volumes(symbol, best);
      MarketTrades(orders[..], symbol, true, best);
      MarketTrades(orders[..], symbol, false, best);
      r := Noii(best, Min(buys, sells), Abs(buys - sells),
        if buys > sells then BuySide else if sells > buys then SellSide else NoSide);
    }

    method Scan(symbol: nat, prices: seq<int>, reference: int) returns (best: int, paired: int, imbalance: int)
      requires Positive(orders[..]) && Summable(orders[..], symbol) &&
               forall x :: x in prices ==> IsLimit(orders[..], symbol, x)
      ensures Scanned(orders[..], symbol, prices, |prices|, reference, best, paired, imbalance)
    {
      best, paired, imbalance := reference, 0, INT64_MAX;
      var n := 0;
      while n < |prices|
        invariant n <= |prices| && Scanned(orders[..], symbol, prices, n, reference, best, paired, imbalance)
      {
        var buys, sells := Volumes(symbol, prices[n]);
        ScanStep(orders[..], symbol, prices, n, reference, best, paired, imbalance, Min(buys, sells),
          Abs(buys - sells));
        if Min(buys, sells) > paired || (Min(buys, sells) == paired && Abs(buys - sells) < imbalance) {
          paired, imbalance, best := Min(buys, sells), Abs(buys - sells), prices[n];
        }
        n := n + 1;
      }
    }
  }

  lemma LoneOrder(orders: seq<AuctionOrder>, o: AuctionOrder, p: int)
    requires orders == [o] && o.active && o.buy && !o.market
    ensures Volume(orders, o.symbol, true, p) == (if o.price >= p then o.qty else 0) &&
            Volume(orders, o.symbol, false, p) == 0
  {
    assert orders[..0] == [];
  }

  /** One bid for the largest quantity: nothing pairs, and its imbalance ties with the starting
      value of the scan, so the reference price stays although there is a limit price. */
  method ReferenceKept(id: nat, symbol: nat, price: int, reference: int) returns (engine: CrossEngine, r: Noii)
    ensures IsLimit(engine.orders[..], symbol, price) && r.price == reference && r.paired == 0
    ensures forall p :: IsLimit(engine.orders[..], symbol, p) ==> p == price
  {
    engine := new CrossEngine(1);
    assert !engine.orders[..][0].active;
    var ok := engine.AddAuctionOrder(id, symbol, true, price, INT64_MAX, false);
    ghost var orders, o := engine.orders[..], AuctionOrder(id, symbol, true, price, INT64_MAX, false, true);
    assert orders == [o];
    forall p
      ensures Volume(orders, symbol, true, p) == (if price >= p then INT64_MAX else 0) &&
              Volume(orders, symbol, false, p) == 0
    {
      LoneOrder(orders, o, p);
    }
    assert orders[0] == o && IsLimit(orders, symbol, price);
    r := engine.ComputeNoii(symbol, reference);
  }

  lemma {:induction false} Inactive(orders: seq<AuctionOrder>)
    requires forall i {:trigger orders[i]} :: 0 <= i < |orders| ==> !orders[i].active
    ensures Positive(orders) && ActiveCount(orders) == 0
  {
    if orders != [] {
      Inactive(orders[..|orders| - 1]);
    }
  }

  lemma {:induction false} NoVolume(orders: seq<AuctionOrder>, symbol: nat, buy: bool, p: int)
    requires forall i {:trigger orders[i]} :: 0 <= i < |orders| ==> !orders[i].active
    ensures Volume(orders, symbol, buy, p) == 0
  {
    if orders != [] {
      NoVolume(orders[..|orders| - 1], symbol, buy, p);
    }
  }

  method SortPrices(prices: seq<int>) returns (sorted: seq<int>)
    requires forall i, j :: 0 <= i < j < |prices| ==> prices[i] != prices[j]
    ensures (forall i, j :: 0 <= i < j < |sorted| ==> sorted[i] < sorted[j]) && forall x :: x in sorted <==> x in prices
  {
    sorted := [];
    var n := 0;
    while n < |prices|
      invariant n <= |prices| && (forall i, j :: 0 <= i < j < |sorted| ==> sorted[i] < sorted[j]) &&
                forall x :: x in sorted <==> x in prices[..n]
    {
      var x := prices[n];
      assert x !in prices[..n];
      var at := 0;
      while at < |sorted| && sorted[at] < x
        invariant at <= |sorted| && forall i :: 0 <= i < at ==> sorted[i] < x
      {
        at := at + 1;
      }
      assert prices[..n + 1] == prices[..n] + [x];
      InsertPrice(sorted, x, at);
      sorted := sorted[..at] + [x] + sorted[at..];
      n := n + 1;
    }
    assert prices[..n] == prices;
  }

  lemma InsertPrice(sorted: seq<int>, x: int, at: nat)
    requires (forall i, j :: 0 <= i < j < |sorted| ==> sorted[i] < sorted[j]) && at <= |sorted| && x !in sorted
    requires (forall i :: 0 <= i < at ==> sorted[i] < x) && (at < |sorted| ==> sorted[at] >= x)
    ensures var next := sorted[..at] + [x] + sorted[at..];
            (forall i, j :: 0 <= i < j < |next| ==> next[i] < next[j]) &&
            forall y :: y in next <==> y in sorted || y == x
  {
    var next := sorted[..at] + [x] + sorted[at..];
    assert at < |sorted| ==> sorted[at] > x;
    forall i | 0 <= i < |next| ensures next[i] == if i < at then sorted[i] else if i == at then x else sorted[i - 1] {
    }
    assert sorted == sorted[..at] + sorted[at..];
  }

  ghost predicate MostPaired(orders: seq<AuctionOrder>, symbol: nat, r: Noii) {
    forall p: int :: Paired(orders, symbol, p) <= r.paired
  }

  ghost predicate LeastImbalance(orders: seq<AuctionOrder>, symbol: nat, r: Noii) {
    forall p: int :: IsLimit(orders, symbol, p) && Paired(orders, symbol, p) == r.paired ==>
      Imbalance(orders, symbol, p) >= r.imbalance && (Imbalance(orders, symbol, p) == r.imbalance ==> p >= r.price)
  }

  predicate SideIs(orders: seq<AuctionOrder>, symbol: nat, r: Noii) {
    var buys, sells := Volume(orders, symbol, true, r.price), Volume(orders, symbol, false, r.price);
    r.side == if buys > sells then BuySide else if sells > buys then SellSide else NoSide
  }

  lemma ScanIsMaximum(orders: seq<AuctionOrder>, symbol: nat, prices: seq<int>, reference: int, best: int, paired: int,
      imbalance: int, p: int)
    requires Positive(orders) && prices != [] && forall x :: x in prices <==> IsLimit(orders, symbol, x)
    requires forall i, j :: 0 <= i < j < |prices| ==> prices[i] < prices[j]
    requires Scanned(orders, symbol, prices, |prices|, reference, best, paired, imbalance)
    ensures Paired(orders, symbol, p) <= Paired(orders, symbol, best)
  {
    VolumeMonotone(orders, symbol, best, best);
    LimitPairsAsMuch(orders, symbol, prices, p);
    var k :| 0 <= k < |prices| && Paired(orders, symbol, prices[k]) >= Paired(orders, symbol, p);
    assert Paired(orders, symbol, prices[k]) <= Paired(orders, symbol, best);
  }

  /** The scan over the sorted limit prices is a maximum over all prices. */
  lemma ScanResult(orders: seq<AuctionOrder>, symbol: nat, prices: seq<int>, reference: int, best: int, paired: int,
      imbalance: int)
    requires Positive(orders) && prices != [] && forall x :: x in prices <==> IsLimit(orders, symbol, x)
    requires forall i, j :: 0 <= i < j < |prices| ==> prices[i] < prices[j]
    requires Scanned(orders, symbol, prices, |prices|, reference, best, paired, imbalance)
    ensures forall p: int :: Paired(orders, symbol, p) <= Paired(orders, symbol, best)
    ensures if forall p ::
              IsLimit(orders, symbol, p) ==> Paired(orders, symbol, p) == 0 && Imbalance(orders, symbol, p) == INT64_MAX
            then best == reference
            else IsLimit(orders, symbol, best) &&
                 forall p :: IsLimit(orders, symbol, p) && Paired(orders, symbol, p) == Paired(orders, symbol, best) ==>
                   Imbalance(orders, symbol, p) >= Imbalance(orders, symbol, best) &&
                   (Imbalance(orders, symbol, p) == Imbalance(orders, symbol, best) ==> p >= best)
  {
    forall p: int ensures Paired(orders, symbol, p) <= Paired(orders, symbol, best) {
      ScanIsMaximum(orders, symbol, prices, reference, best, paired, imbalance, p);
    }
    if Hopeless(orders, symbol, prices, |prices|) {
      forall p | IsLimit(orders, symbol, p)
        ensures Paired(orders, symbol, p) == 0 && Imbalance(orders, symbol, p) == INT64_MAX
      {
        assert p in prices;
      }
    } else {
      var i :| 0 <= i < |prices| &&
        !(Paired(orders, symbol, prices[i]) == 0 && Imbalance(orders, symbol, prices[i]) == INT64_MAX);
      assert IsLimit(orders, symbol, prices[i]);
      var b :| 0 <= b < |prices| && best == prices[b] && BestOf(orders, symbol, prices, |prices|, b);
      forall p | IsLimit(orders, symbol, p) && Paired(orders, symbol, p) == Paired(orders, symbol, best)
        ensures Imbalance(orders, symbol, p) >= Imbalance(orders, symbol, best) &&
                (Imbalance(orders, symbol, p) == Imbalance(orders, symbol, best) ==> p >= best)
      {
        var k :| 0 <= k < |prices| && prices[k] == p;
      }
    }
  }
}
