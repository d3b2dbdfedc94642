/** The historical replay engine: eligible orders are matched in price-time priority against
    each snapshot; strategy callbacks run after matching and may submit and cancel. */
module Backtest {
  import opened Folding
  import opened Matching
  import opened Sequences

  const MAX_PRICE: int := 1_000_000_000
  const MAX_QTY: int := 1_000_000_000
  const UINT64_MAX: int := 0xFFFF_FFFF_FFFF_FFFF

  // ----- Priority -----

  /** Buys before sells, market orders before limit orders, then the more aggressive limit,
      then the earlier identifier. */
  predicate Ahead(a: Order, b: Order) {
    if a.side != b.side then a.side == Buy
    else if (a.limit == 0) != (b.limit == 0) then a.limit == 0
    else if a.limit != b.limit then (if a.side == Buy then a.limit > b.limit else a.limit < b.limit)
    else a.id < b.id
  }

  predicate InPriority(orders: seq<Order>, queue: seq<nat>) {
    (forall i :: 0 <= i < |queue| ==> queue[i] < |orders|) &&
    forall i, j :: 0 <= i < j < |queue| ==> !Ahead(orders[queue[j]], orders[queue[i]])
  }

  /** An order behind accepts no price that the one ahead would not. */
  lemma BehindAcceptsLess(cfg: Settings, a: Order, b: Order, price: int)
    requires !Ahead(b, a) && a.side == b.side && Acceptable(cfg, b, price) && a.limit >= 0 && b.limit >= 0
    ensures Acceptable(cfg, a, price)
  {
  }

  /** Buys come before sells; on one side market orders before limit orders, then limits from the
      most aggressive on, then at one limit the smaller identifiers first. */
  ghost predicate PriorityOrder(orders: seq<Order>, queue: seq<nat>) {
    (forall i :: 0 <= i < |queue| ==> queue[i] < |orders|) &&
    forall i, j {:trigger queue[i], queue[j]} :: 0 <= i < j < |queue| ==>
      var a, b := orders[queue[i]], orders[queue[j]];
      (a.side == Sell ==> b.side == Sell) &&
      (a.side == b.side && b.limit == 0 ==> a.limit == 0) &&
      (a.side == b.side && a.limit != 0 ==> if a.side == Buy then b.limit <= a.limit else b.limit >= a.limit) &&
      (a.side == b.side && a.limit == b.limit ==> a.id <= b.id)
  }

  lemma PrioritySpelled(orders: seq<Order>, queue: seq<nat>)
    requires InPriority(orders, queue) && forall i :: 0 <= i < |queue| ==> orders[queue[i]].limit >= 0
    ensures PriorityOrder(orders, queue)
  {
    forall i, j {:trigger queue[i], queue[j]} | 0 <= i < j < |queue|
      ensures var a, b := orders[queue[i]], orders[queue[j]];
              (a.side == Sell ==> b.side == Sell) &&
              (a.side == b.side && b.limit == 0 ==> a.limit == 0) &&
              (a.side == b.side && a.limit != 0 ==> if a.side == Buy then b.limit <= a.limit else b.limit >= a.limit) &&
              (a.side == b.side && a.limit == b.limit ==> a.id <= b.id)
    {
      assert !Ahead(orders[queue[j]], orders[queue[i]]);
    }
  }

  /** Sorts slot indices into priority order. */
  method SortByPriority(orders: seq<Order>, indices: seq<nat>) returns (queue: seq<nat>)
    requires forall i :: 0 <= i < |indices| ==> indices[i] < |orders|
    ensures multiset(queue) == multiset(indices) && InPriority(orders, queue)
    ensures (forall i :: 0 <= i < |orders| ==> orders[i].limit >= 0) ==> PriorityOrder(orders, queue)
  {
    queue := [];
    var n := 0;
    while n < |indices|
      invariant n <= |indices| && multiset(queue) == multiset(indices[..n]) && InPriority(orders, queue)
    {
      var x := indices[n];
      var at := 0;
      while at < |queue| && !Ahead(orders[x], orders[queue[at]])
        invariant at <= |queue| && forall i :: 0 <= i < at ==> !Ahead(orders[x], orders[queue[i]])
      {
        at := at + 1;
      }
      InsertSorted(orders, queue, x, at);
      InsertCounts(queue, x, at);
      queue := queue[..at] + [x] + queue[at..];
      assert indices[..n + 1] == indices[..n] + [x];
      n := n + 1;
    }
    assert indices[..n] == indices;
    if forall i :: 0 <= i < |orders| ==> orders[i].limit >= 0 {
      PrioritySpelled(orders, queue);
    }
  }

  lemma InsertSorted(orders: seq<Order>, queue: seq<nat>, x: nat, at: nat)
    requires InPriority(orders, queue) && x < |orders| && at <= |queue|
    requires forall i :: 0 <= i < at ==> !Ahead(orders[x], orders[queue[i]])
    requires at < |queue| ==> Ahead(orders[x], orders[queue[at]])
    ensures InPriority(orders, queue[..at] + [x] + queue[at..])
  {
    var next := queue[..at] + [x] + queue[at..];
    forall i, j | 0 <= i < j < |next| ensures !Ahead(orders[next[j]], orders[next[i]]) {
      if i == at {
        assert next[j] == queue[j - 1];
      } else if j == at {
        assert next[i] == queue[i];
      } else {
        assert next[i] == queue[if i < at then i else i - 1] && next[j] == queue[if j < at then j else j - 1];
      }
    }
  }

  // ----- State -----

  datatype Submission = Submission(sent: nat, symbol: nat, side: Side, qty: int, limit: int)

  datatype State = State(cash: real, positions: seq<Position>, orders: seq<Order>, fills: seq<Fill>, nextId: nat,
      subs: map<nat, Submission>)

  function TotalCost(ps: seq<Position>): real {
    if ps == [] then 0.0 else TotalCost(ps[..|ps| - 1]) + ps[|ps| - 1].cost
  }

  function TotalRealized(ps: seq<Position>): real {
    if ps == [] then 0.0 else TotalRealized(ps[..|ps| - 1]) + ps[|ps| - 1].realized
  }

  lemma {:induction false} TotalsUpdate(ps: seq<Position>, s: nat, p: Position)
    requires s < |ps|
    ensures TotalCost(ps[s := p]) == TotalCost(ps) - ps[s].cost + p.cost
    ensures TotalRealized(ps[s := p]) == TotalRealized(ps) - ps[s].realized + p.realized
  {
    var last := |ps| - 1;
    if s < last {
      TotalsUpdate(ps[..last], s, p);
      assert ps[s := p][..last] == ps[..last][s := p];
    } else {
      assert ps[s := p][..last] == ps[..last];
    }
  }

  /** Cash plus open cost is the initial cash plus the realised profit. */
  ghost predicate MoneyOk(cfg: Settings, g: State) {
    g.cash >= 0.0 && g.cash + TotalCost(g.positions) == cfg.initialCash + TotalRealized(g.positions) &&
    g.cash == cfg.initialCash + FlowOf(g.fills) &&
    forall s {:trigger g.positions[s]} :: 0 <= s < |g.positions| ==> PositionOk(cfg, g.positions[s])
  }

  /** Signed fills sum to positions, and reported gains to realised profit. */
  ghost predicate NetsOk(g: State) {
    forall s {:trigger g.positions[s]} :: 0 <= s < |g.positions| ==>
      g.positions[s].qty == NetOf(g.fills, s) && g.positions[s].realized == GainOf(g.fills, s)
  }

  predicate IsSubmission(o: Order, s: Submission) {
    s.sent == o.sent && s.symbol == o.symbol && s.side == o.side && s.limit == o.limit
  }

  /** A live order is its submission less its fills. */
  ghost predicate OrderOk(g: State, o: Order) {
    o.remaining >= 0 && o.id <= g.nextId &&
    (o.remaining > 0 ==> o.id in g.subs && IsSubmission(o, g.subs[o.id]) && o.symbol < |g.positions| && o.limit >= 0 &&
                         o.remaining + FilledOf(g.fills, o.id) == g.subs[o.id].qty)
  }

  ghost predicate OrdersOk(g: State) {
    (forall i {:trigger g.orders[i]} :: 0 <= i < |g.orders| ==> OrderOk(g, g.orders[i])) &&
    (forall i, j {:trigger g.orders[i], g.orders[j]} ::
      0 <= i < j < |g.orders| && g.orders[i].id == g.orders[j].id ==> g.orders[i].id == 0) &&
    (forall k {:trigger k in g.subs} :: k in g.subs ==> 0 < k <= g.nextId)
  }

  /** A fill is strictly later than its order's submission, at least the latency after it, and
      within the submitted limit. */
  predicate Justified(cfg: Settings, f: Fill, s: Submission) {
    f.symbol == s.symbol && f.side == s.side && f.qty > 0 && f.time > s.sent && f.time - s.sent >= cfg.latency &&
    (s.limit == 0 || (if s.side == Buy then f.price <= s.limit else f.price >= s.limit))
  }

  ghost predicate FillsOk(cfg: Settings, g: State) {
    (forall i {:trigger g.fills[i]} ::
      0 <= i < |g.fills| ==> g.fills[i].orderId in g.subs && Justified(cfg, g.fills[i], g.subs[g.fills[i].orderId])) &&
    (forall k {:trigger g.subs[k]} :: k in g.subs ==> FilledOf(g.fills, k) <= g.subs[k].qty)
  }

  /** The four parts, each folded. */
  ghost predicate Sound(cfg: Settings, g: State) {
    (forall n :: Unfold(n) ==> MoneyOk(cfg, g)) && (forall n :: Unfold(n) ==> NetsOk(g)) &&
    (forall n :: Unfold(n) ==> OrdersOk(g)) && (forall n :: Unfold(n) ==> FillsOk(cfg, g))
  }

  // ----- One matched order -----

  lemma {:induction false} OthersZero(cfg: Settings, now: nat, o: Order, levels: seq<Level>, fl: seq<Fill>, id: nat,
      symbol: nat)
    requires forall i {:trigger fl[i]} :: 0 <= i < |fl| ==> FillOk(cfg, fl[i], now, o, levels)
    ensures id != o.id ==> FilledOf(fl, id) == 0
    ensures symbol != o.symbol ==> NetOf(fl, symbol) == 0 && GainOf(fl, symbol) == 0.0
  {
    if fl != [] {
      OthersZero(cfg, now, o, levels, fl[..|fl| - 1], id, symbol);
    }
  }

  /** The state after one order's pass. */
  function Dealt(g: State, i: nat, o': Order, d': Desk, fl: seq<Fill>): State
    requires i < |g.orders| && o'.symbol < |g.positions|
  {
    g.(cash := d'.cash, positions := g.positions[o'.symbol := d'.p], orders := g.orders[i := o'], fills := g.fills + fl)
  }

  /** What the pass is about: a live, eligible order and its desk. */
  ghost predicate Deal(cfg: Settings, now: nat, g: State, i: nat, o: Order, o': Order, d: Desk, d': Desk,
      fl: seq<Fill>) {
    i < |g.orders| && o == g.orders[i] && o.remaining > 0 && o.symbol < |g.positions| && d.cash == g.cash &&
    d.p == g.positions[o.symbol] &&
    o.sent < now && now - o.sent >= cfg.latency && Passed(cfg, now, o, o', d, d', fl) &&
    Pass(cfg, now, o, o', d, d', fl)
  }

  lemma DealMoney(cfg: Settings, now: nat, g: State, i: nat, o: Order, o': Order, d: Desk, d': Desk, fl: seq<Fill>)
    requires Deal(cfg, now, g, i, o, o', d, d', fl) && MoneyOk(cfg, g)
    ensures MoneyOk(cfg, Dealt(g, i, o', d', fl))
  {
    TotalsUpdate(g.positions, o.symbol, d'.p);
    FlowOfConcat(g.fills, fl);
  }

  lemma DealNets(cfg: Settings, now: nat, g: State, i: nat, o: Order, o': Order, d: Desk, d': Desk, fl: seq<Fill>)
    requires Deal(cfg, now, g, i, o, o', d, d', fl) && NetsOk(g)
    ensures NetsOk(Dealt(g, i, o', d', fl))
  {
    var g' := Dealt(g, i, o', d', fl);
    forall s | 0 <= s < |g'.positions|
      ensures g'.positions[s].qty == NetOf(g'.fills, s) && g'.positions[s].realized == GainOf(g'.fills, s)
    {
      NetOfConcat(g.fills, fl, s);
      GainOfConcat(g.fills, fl, s);
      OthersZero(cfg, now, o, d.levels, fl, 0, s);
    }
  }

  lemma DealOrders(cfg: Settings, now: nat, g: State, i: nat, o: Order, o': Order, d: Desk, d': Desk, fl: seq<Fill>)
    requires Deal(cfg, now, g, i, o, o', d, d', fl) && OrdersOk(g)
    ensures OrdersOk(Dealt(g, i, o', d', fl))
  {
    var g' := Dealt(g, i, o', d', fl);
    assert OrderOk(g, o);
    FilledOfConcat(g.fills, fl, o.id);
    forall j | 0 <= j < |g'.orders| ensures OrderOk(g', g'.orders[j]) {
      if j != i {
        assert OrderOk(g, g.orders[j]);
        FilledOfConcat(g.fills, fl, g.orders[j].id);
        OthersZero(cfg, now, o, d.levels, fl, g.orders[j].id, 0);
      }
    }
  }

  lemma DealFills(cfg: Settings, now: nat, g: State, i: nat, o: Order, o': Order, d: Desk, d': Desk, fl: seq<Fill>)
    requires Deal(cfg, now, g, i, o, o', d, d', fl) && FillsOk(cfg, g) && OrderOk(g, o)
    ensures FillsOk(cfg, Dealt(g, i, o', d', fl))
  {
    var g' := Dealt(g, i, o', d', fl);
    forall k | k in g'.subs ensures FilledOf(g'.fills, k) <= g'.subs[k].qty {
      FilledOfConcat(g.fills, fl, k);
      OthersZero(cfg, now, o, d.levels, fl, k, 0);
    }
    forall j | 0 <= j < |g'.fills|
      ensures g'.fills[j].orderId in g'.subs && Justified(cfg, g'.fills[j], g'.subs[g'.fills[j].orderId])
    {
      if j < |g.fills| {
        assert g'.fills[j] == g.fills[j];
      } else {
        assert FillOk(cfg, fl[j - |g.fills|], now, o, d.levels);
      }
    }
  }

  lemma DealKeeps(cfg: Settings, now: nat, g: State, i: nat, o: Order, o': Order, d: Desk, d': Desk, fl: seq<Fill>)
    requires Deal(cfg, now, g, i, o, o', d, d', fl) && Sound(cfg, g)
    ensures Sound(cfg, Dealt(g, i, o', d', fl))
  {
    assert MoneyOk(cfg, Dealt(g, i, o', d', fl)) by {
      assert MoneyOk(cfg, g) by { assert Unfold(0); }
      DealMoney(cfg, now, g, i, o, o', d, d', fl);
    }
    assert NetsOk(Dealt(g, i, o', d', fl)) by {
      assert NetsOk(g) by { assert Unfold(0); }
      DealNets(cfg, now, g, i, o, o', d, d', fl);
    }
    assert OrdersOk(Dealt(g, i, o', d', fl)) by {
      assert OrdersOk(g) by { assert Unfold(0); }
      DealOrders(cfg, now, g, i, o, o', d, d', fl);
    }
    assert FillsOk(cfg, Dealt(g, i, o', d', fl)) by {
      assert FillsOk(cfg, g) && OrdersOk(g) by { assert Unfold(0); }
      DealFills(cfg, now, g, i, o, o', d, d', fl);
    }
  }

  // ----- One snapshot -----

  datatype Book = Book(bids: seq<Level>, asks: seq<Level>)

  function DeskFor(side: Side, cash: real, p: Position, book: Book): Desk {
    Desk(cash, p, if side == Buy then book.asks else book.bids)
  }

  /** What is left of a quoted side: the quoted quantities less what the fills took. */
  ghost predicate LeftOf(quoted: seq<Level>, left: seq<Level>, fills: seq<Fill>, side: Side) {
    |left| == |quoted| && forall k {:trigger left[k]} :: 0 <= k < |left| ==>
      left[k].price == quoted[k].price && left[k].qty == quoted[k].qty - TakenFrom(fills, side, k) && left[k].qty >= 0
  }

  /** Distinct live orders in priority order. */
  ghost predicate QueueOk(orders: seq<Order>, queue: seq<nat>) {
    InPriority(orders, queue) &&
    (forall i :: 0 <= i < |queue| ==> orders[queue[i]].remaining > 0 && orders[queue[i]].limit >= 0) &&
    (forall i, j :: 0 <= i < j < |queue| ==> queue[i] != queue[j] && orders[queue[i]].id != orders[queue[j]].id)
  }

  /** No trade-through among the first `n`: an order that traded in this snapshot has no
      same-side order ahead of it with anything left. */
  ghost predicate NoTradeThrough(was: seq<Order>, queue: seq<nat>, orders: seq<Order>, fills: seq<Fill>, n: nat)
    requires n <= |queue| && |orders| == |was| && forall i :: 0 <= i < |queue| ==> queue[i] < |was|
  {
    forall a, b {:trigger was[queue[a]], was[queue[b]]} ::
      0 <= a < b < n && was[queue[a]].side == was[queue[b]].side && FilledOf(fills, was[queue[b]].id) > 0 ==>
        orders[queue[a]].remaining == 0
  }

  /** Fills of this snapshot: at this time and symbol, each at the slipped price of a quoted level. */
  ghost predicate FromQuotes(cfg: Settings, now: nat, symbol: nat, quoted: Book, fills: seq<Fill>) {
    forall i {:trigger fills[i]} :: 0 <= i < |fills| ==>
      var levels := if fills[i].side == Buy then quoted.asks else quoted.bids;
      fills[i].time == now && fills[i].symbol == symbol && fills[i].level < |levels| &&
      fills[i].price == Px(cfg, fills[i].side, levels[fills[i].level].price)
  }

  /** An order's remainder is what was not filled, or nothing. */
  ghost predicate Remains(o: Order, o': Order, fills: seq<Fill>) {
    0 <= FilledOf(fills, o.id) <= o.remaining &&
    (o'.remaining == o.remaining - FilledOf(fills, o.id) || o'.remaining == 0)
  }

  /** Nothing but remainders changes, and those only of queued orders. */
  ghost predicate SameButRemainders(was: seq<Order>, orders: seq<Order>, queue: seq<nat>) {
    |orders| == |was| &&
    (forall i {:trigger orders[i]} ::
      0 <= i < |was| ==> orders[i] == was[i].(remaining := orders[i].remaining) && orders[i].remaining >= 0) &&
    (forall i {:trigger orders[i]} :: 0 <= i < |was| && i !in queue ==> orders[i] == was[i])
  }

  ghost predicate Unseen(fills: seq<Fill>, id: nat) {
    forall i {:trigger fills[i]} :: 0 <= i < |fills| ==> fills[i].orderId != id
  }

  /** Matching has reached position `n` of the queue. */
  ghost predicate Progress(was: seq<Order>, quoted: Book, queue: seq<nat>, n: nat, orders: seq<Order>, book: Book,
      fills: seq<Fill>) {
    n <= |queue| && QueueOk(was, queue) && SameButRemainders(was, orders, queue) &&
    (forall j {:trigger queue[j]} ::
      n <= j < |queue| ==>
        orders[queue[j]] == was[queue[j]] && FilledOf(fills, was[queue[j]].id) == 0 &&
        Unseen(fills, was[queue[j]].id)) &&
    (forall j {:trigger queue[j]} :: 0 <= j < n ==> Remains(was[queue[j]], orders[queue[j]], fills)) &&
    LeftOf(quoted.asks, book.asks, fills, Buy) && LeftOf(quoted.bids, book.bids, fills, Sell) &&
    NoTradeThrough(was, queue, orders, fills, n)
  }

  /** Cash and holding at some point of the matching. */
  datatype Stand = Stand(cash: real, held: int)

  function StandOf(cash: real, p: Position): Stand {
    Stand(cash, p.qty)
  }

  /** Cash flow of the buys. */
  function BuyFlow(fills: seq<Fill>): real {
    if fills == [] then 0.0 else BuyFlow(fills[..|fills| - 1]) + if fills[|fills| - 1].side == Buy then
      Flow(fills[|fills| - 1]) else 0.0
  }

  /** Quantity bought. */
  function BuyQty(fills: seq<Fill>): int {
    if fills == [] then 0 else BuyQty(fills[..|fills| - 1]) + if fills[|fills| - 1].side == Buy then
      fills[|fills| - 1].qty else 0
  }

  /** Where the buys left off: all of them precede the sells. */
  function AfterBuys(start: Stand, fills: seq<Fill>): Stand {
    Stand(start.cash + BuyFlow(fills), start.held + BuyQty(fills))
  }

  lemma {:induction false} AfterBuysConcat(start: Stand, a: seq<Fill>, b: seq<Fill>)
    ensures AfterBuys(start, a + b) == AfterBuys(AfterBuys(start, a), b)
  {
    if b == [] {
      assert a + b == a;
    } else {
      AfterBuysConcat(start, a, b[..|b| - 1]);
      assert (a + b)[..|a + b| - 1] == a + b[..|b| - 1];
    }
  }

  lemma {:induction false} BuysOfOne(cfg: Settings, now: nat, o: Order, levels: seq<Level>, fl: seq<Fill>)
    requires forall i {:trigger fl[i]} :: 0 <= i < |fl| ==> FillOk(cfg, fl[i], now, o, levels)
    ensures BuyFlow(fl) == (if o.side == Buy then FlowOf(fl) else 0.0) &&
            BuyQty(fl) == if o.side == Buy then NetOf(fl, o.symbol) else 0
  {
    if fl != [] {
      BuysOfOne(cfg, now, o, levels, fl[..|fl| - 1]);
    }
  }

  /** The order was matched as far as it goes: what is unfilled is kept by risk alone out of every
      level it accepts that still has quantity. A market order leaves nothing behind; a limit
      order keeps what is unfilled, except that it is dropped if such a level gave it nothing. */
  ghost predicate Served(cfg: Settings, o: Order, o': Order, fills: seq<Fill>, buys: Stand, sells: Stand, book: Book) {
    var at, levels := if o.side == Buy then buys else sells, if o.side == Buy then book.asks else book.bids;
    Waiting(cfg, o, o.remaining - FilledOf(fills, o.id), at.cash, at.held, levels) &&
    o'.remaining == Kept(cfg, o, levels, fills)
  }

  ghost predicate AllServed(cfg: Settings, was: seq<Order>, queue: seq<nat>, n: nat, orders: seq<Order>,
      fills: seq<Fill>, buys: Stand, sells: Stand, book: Book)
    requires n <= |queue| && |orders| == |was| && forall i :: 0 <= i < |queue| ==> queue[i] < |was|
  {
    forall a {:trigger queue[a]} ::
        0 <= a < n ==> Served(cfg, was[queue[a]], orders[queue[a]], fills, buys, sells, book)
  }

  /** The quoted side an order trades against is all that changes. */
  function BookAfter(side: Side, book: Book, levels: seq<Level>): Book {
    if side == Buy then book.(asks := levels) else book.(bids := levels)
  }

  lemma {:induction false} OtherSideUntouched(cfg: Settings, now: nat, o: Order, levels: seq<Level>, fl: seq<Fill>,
      side: Side, k: nat)
    requires forall i {:trigger fl[i]} :: 0 <= i < |fl| ==> FillOk(cfg, fl[i], now, o, levels)
    ensures side != o.side ==> TakenFrom(fl, side, k) == 0
  {
    if fl != [] {
      OtherSideUntouched(cfg, now, o, levels, fl[..|fl| - 1], side, k);
    }
  }

  lemma LevelsStep(cfg: Settings, now: nat, o: Order, o': Order, d: Desk, d': Desk, fl: seq<Fill>, quoted: seq<Level>,
      left: seq<Level>, fills: seq<Fill>, side: Side)
    requires Passed(cfg, now, o, o', d, d', fl) && Pass(cfg, now, o, o', d, d', fl) &&
             LeftOf(quoted, left, fills, side) && (o.side == side ==> d.levels == left)
    ensures LeftOf(quoted, if o.side == side then d'.levels else left, fills + fl, side)
  {
    forall k | 0 <= k < |quoted|
      ensures TakenFrom(fills + fl, side, k) == TakenFrom(fills, side, k) + TakenFrom(fl, side, k)
    {
      TakenFromConcat(fills, fl, side, k);
    }
    forall k | 0 <= k < |quoted| && o.side != side ensures TakenFrom(fl, side, k) == 0 {
      OtherSideUntouched(cfg, now, o, d.levels, fl, side, k);
    }
    if o.side == side {
      forall k | 0 <= k < |quoted| ensures d'.levels[k].qty == quoted[k].qty - TakenFrom(fills + fl, side, k) {
      }
    }
  }

  /** If the next order trades, no order ahead of it on its side has anything left. */
  lemma NoneLeftAhead(cfg: Settings, was: seq<Order>, quoted: Book, queue: seq<nat>, n: nat, orders: seq<Order>,
      book: Book, fills: seq<Fill>, d: Desk, buys: Stand, sells: Stand, a: nat, k: nat)
    requires Progress(was, quoted, queue, n, orders, book, fills) && a < n < |queue|
    requires Served(cfg, was[queue[a]], orders[queue[a]], fills, buys, sells, book)
    requires was[queue[a]].side == was[queue[n]].side &&
             StandOf(d.cash, d.p) == (if was[queue[n]].side == Buy then buys else sells)
    requires d.levels == if was[queue[n]].side == Buy then book.asks else book.bids
    requires k < |d.levels| && Wants(cfg, was[queue[n]], d, k) &&
             !Blocked(cfg, was[queue[n]].side, d.cash, d.p.qty, Px(cfg, was[queue[n]].side, d.levels[k].price))
    ensures orders[queue[a]].remaining <= 0
  {
    var first, o := was[queue[a]], was[queue[n]];
    assert !Ahead(o, first) && first.limit >= 0 && o.limit >= 0;
    BehindAcceptsLess(cfg, first, o, d.levels[k].price);
    assert Remains(first, orders[queue[a]], fills);
    assert !(first.remaining - FilledOf(fills, first.id) > 0);
  }

  lemma FillsStep(cfg: Settings, now: nat, was: seq<Order>, queue: seq<nat>, n: nat, fills: seq<Fill>, o: Order,
      levels: seq<Level>, fl: seq<Fill>)
    requires QueueOk(was, queue) && n < |queue| && o == was[queue[n]]
    requires forall i {:trigger fl[i]} :: 0 <= i < |fl| ==> FillOk(cfg, fl[i], now, o, levels)
    ensures forall j {:trigger queue[j]} :: 0 <= j < |queue| ==>
              FilledOf(fills + fl, was[queue[j]].id) == FilledOf(fills, was[queue[j]].id) + if j == n then
              FilledOf(fl, o.id) else 0
  {
    forall j {:trigger queue[j]} | 0 <= j < |queue|
      ensures FilledOf(fills + fl, was[queue[j]].id) == FilledOf(fills, was[queue[j]].id) + if j == n then
              FilledOf(fl, o.id) else 0
    {
      FilledOfConcat(fills, fl, was[queue[j]].id);
      OthersZero(cfg, now, o, levels, fl, was[queue[j]].id, 0);
      assert j != n ==> was[queue[j]].id != was[queue[n]].id;
    }
  }

  /** The order table after one pass. */
  lemma TableStep(was: seq<Order>, queue: seq<nat>, n: nat, orders: seq<Order>, o': Order)
    requires QueueOk(was, queue) && n < |queue| && SameButRemainders(was, orders, queue)
    requires o' == was[queue[n]].(remaining := o'.remaining) && o'.remaining >= 0
    ensures SameButRemainders(was, orders[queue[n] := o'], queue)
    ensures forall j {:trigger queue[j]} ::
              0 <= j < |queue| ==> orders[queue[n] := o'][queue[j]] == if j == n then o' else orders[queue[j]]
  {
    var orders' := orders[queue[n] := o'];
    assert queue[n] in queue;
    forall i {:trigger orders'[i]} | 0 <= i < |was|
      ensures orders'[i] == was[i].(remaining := orders'[i].remaining) && orders'[i].remaining >= 0 &&
              (i !in queue ==> orders'[i] == was[i])
    {
      assert orders[i] == orders[i];
    }
    forall j {:trigger queue[j]} | 0 <= j < |queue|
      ensures orders'[queue[j]] == if j == n then o' else orders[queue[j]]
    {
      assert j != n ==> queue[j] != queue[n];
    }
  }

  /** A pass trades through no order ahead. */
  lemma PriorityStep(cfg: Settings, now: nat, was: seq<Order>, quoted: Book, queue: seq<nat>, n: nat,
      orders: seq<Order>, book: Book, fills: seq<Fill>, o: Order, o': Order, d: Desk, fl: seq<Fill>, buys: Stand,
      sells: Stand)
    requires Progress(was, quoted, queue, n, orders, book, fills) && n < |queue| &&
             AllServed(cfg, was, queue, n, orders, fills, buys, sells, book)
    requires o == was[queue[n]] && StandOf(d.cash, d.p) == (if o.side == Buy then buys else sells)
    requires d.levels == (if o.side == Buy then book.asks else book.bids) && o' == o.(remaining := o'.remaining) &&
             o'.remaining >= 0
    requires forall i {:trigger fl[i]} :: 0 <= i < |fl| ==> FillOk(cfg, fl[i], now, o, d.levels)
    requires FromOpen(cfg, o, d, fl)
    ensures NoTradeThrough(was, queue, orders[queue[n] := o'], fills + fl, n + 1)
  {
    var orders' := orders[queue[n] := o'];
    TableStep(was, queue, n, orders, o');
    FillsStep(cfg, now, was, queue, n, fills, o, d.levels, fl);
    forall a, b {:trigger was[queue[a]], was[queue[b]]} | 0 <= a < b < n + 1 &&
      was[queue[a]].side == was[queue[b]].side && FilledOf(fills + fl, was[queue[b]].id) > 0
      ensures orders'[queue[a]].remaining == 0
    {
      assert orders'[queue[a]] == orders[queue[a]];
      if b == n {
        TradesPast(cfg, was, quoted, queue, n, orders, book, fills, o, d, fl, buys, sells, a);
      }
    }
  }

  lemma TradesPast(cfg: Settings, was: seq<Order>, quoted: Book, queue: seq<nat>, n: nat, orders: seq<Order>,
      book: Book, fills: seq<Fill>, o: Order, d: Desk, fl: seq<Fill>, buys: Stand, sells: Stand, a: nat)
    requires Progress(was, quoted, queue, n, orders, book, fills) && a < n < |queue| &&
             AllServed(cfg, was, queue, n, orders, fills, buys, sells, book)
    requires o == was[queue[n]] && was[queue[a]].side == o.side &&
             StandOf(d.cash, d.p) == (if o.side == Buy then buys else sells)
    requires d.levels == (if o.side == Buy then book.asks else book.bids) && FilledOf(fl, o.id) > 0 &&
             FromOpen(cfg, o, d, fl)
    ensures orders[queue[a]].remaining == 0
  {
    assert fl != [];
    var k := fl[0].level;
    assert OpenTo(cfg, o, d, k);
    assert Served(cfg, was[queue[a]], orders[queue[a]], fills, buys, sells, book);
    NoneLeftAhead(cfg, was, quoted, queue, n, orders, book, fills, d, buys, sells, a, k);
    assert orders[queue[a]].remaining >= 0;
  }

  lemma ProgressStep(cfg: Settings, now: nat, was: seq<Order>, quoted: Book, queue: seq<nat>, n: nat,
      orders: seq<Order>, book: Book, fills: seq<Fill>, o: Order, o': Order, d: Desk, d': Desk, fl: seq<Fill>)
    requires Progress(was, quoted, queue, n, orders, book, fills) && n < |queue| && o == was[queue[n]]
    requires d.levels == (if o.side == Buy then book.asks else book.bids) && Passed(cfg, now, o, o', d, d', fl) &&
             Pass(cfg, now, o, o', d, d', fl)
    requires NoTradeThrough(was, queue, orders[queue[n] := o'], fills + fl, n + 1)
    ensures Progress(was, quoted, queue, n + 1, orders[queue[n] := o'], BookAfter(o.side, book, d'.levels), fills + fl)
  {
    var orders' := orders[queue[n] := o'];
    TableStep(was, queue, n, orders, o');
    LevelsStep(cfg, now, o, o', d, d', fl, quoted.asks, book.asks, fills, Buy);
    LevelsStep(cfg, now, o, o', d, d', fl, quoted.bids, book.bids, fills, Sell);
    FillsStep(cfg, now, was, queue, n, fills, o, d.levels, fl);
    forall j {:trigger queue[j]} | 0 <= j < n + 1 ensures Remains(was[queue[j]], orders'[queue[j]], fills + fl) {
      if j < n {
        assert Remains(was[queue[j]], orders[queue[j]], fills);
      }
    }
    forall j {:trigger queue[j]} | n + 1 <= j < |queue| ensures Unseen(fills + fl, was[queue[j]].id) {
      assert was[queue[n]].id != was[queue[j]].id;
      StillUnseen(cfg, now, o, d.levels, fills, fl, was[queue[j]].id);
    }
  }

  lemma StillUnseen(cfg: Settings, now: nat, o: Order, levels: seq<Level>, fills: seq<Fill>, fl: seq<Fill>, id: nat)
    requires Unseen(fills, id) && id != o.id
    requires forall i {:trigger fl[i]} :: 0 <= i < |fl| ==> FillOk(cfg, fl[i], now, o, levels)
    ensures Unseen(fills + fl, id)
  {
  }

  /** An order served earlier stays served. */
  lemma StaysServed(cfg: Settings, now: nat, first: Order, first': Order, o: Order, o': Order, fills: seq<Fill>,
      fl: seq<Fill>, d: Desk, d': Desk, buys: Stand, buys': Stand, sells: Stand, sells': Stand, book: Book, book': Book)
    requires Served(cfg, first, first', fills, buys, sells, book) && first.id != o.id &&
             FilledOf(fills + fl, first.id) == FilledOf(fills, first.id) <= first.remaining
    requires Pass(cfg, now, o, o', d, d', fl) && FromOpen(cfg, o, d, fl)
    requires d.levels == (if o.side == Buy then book.asks else book.bids) &&
             book' == BookAfter(o.side, book, d'.levels)
    requires if o.side == Buy then first.side == Buy && buys == StandOf(d.cash, d.p) && buys' == StandOf(d'.cash, d'.p)
             else sells == StandOf(d.cash, d.p) && sells' == StandOf(d'.cash, d'.p) && buys' == buys
    ensures Served(cfg, first, first', fills + fl, buys', sells', book')
  {
    if first.side == o.side {
      WaitingStays(cfg, first, first.remaining - FilledOf(fills, first.id), d, d');
      KeptStays(cfg, now, first, o, fills, fl, d, d');
    } else {
      OthersKeep(cfg, now, first, o, fills, fl, d, if first.side == Buy then book.asks else book.bids);
    }
  }

  lemma OthersKeep(cfg: Settings, now: nat, first: Order, o: Order, fills: seq<Fill>, fl: seq<Fill>, d: Desk,
      levels: seq<Level>)
    requires first.id != o.id && FilledOf(fills + fl, first.id) == FilledOf(fills, first.id)
    requires forall i {:trigger fl[i]} :: 0 <= i < |fl| ==> FillOk(cfg, fl[i], now, o, d.levels)
    ensures Kept(cfg, first, levels, fills + fl) == Kept(cfg, first, levels, fills)
  {
    forall k | 0 <= k < |levels| ensures Untouched(fills + fl, first.id, k) <==> Untouched(fills, first.id, k) {
      UntouchedStays(cfg, now, first, o, fills, fl, d.levels, k);
    }
    assert PassedOver(cfg, first, levels, fills + fl) <==> PassedOver(cfg, first, levels, fills);
  }

  /** Fills of earlier orders do not matter to what an order keeps. */
  lemma OwnFillsOnly(cfg: Settings, o: Order, fills: seq<Fill>, fl: seq<Fill>, levels: seq<Level>)
    requires Unseen(fills, o.id) && FilledOf(fills + fl, o.id) == FilledOf(fl, o.id)
    ensures Kept(cfg, o, levels, fills + fl) == Kept(cfg, o, levels, fl)
  {
    forall k | 0 <= k < |levels| ensures Untouched(fills + fl, o.id, k) <==> Untouched(fl, o.id, k) {
      var all := fills + fl;
      if Untouched(all, o.id, k) {
        forall i {:trigger fl[i]} | 0 <= i < |fl| && fl[i].orderId == o.id ensures fl[i].level != k {
          assert all[i + |fills|] == fl[i];
        }
      }
    }
    assert PassedOver(cfg, o, levels, fills + fl) <==> PassedOver(cfg, o, levels, fl);
  }

  lemma ServedStep(cfg: Settings, now: nat, was: seq<Order>, quoted: Book, queue: seq<nat>, n: nat, orders: seq<Order>,
      book: Book, fills: seq<Fill>, o: Order, o': Order, d: Desk, d': Desk, fl: seq<Fill>, buys: Stand, buys': Stand,
      sells: Stand, sells': Stand)
    requires Progress(was, quoted, queue, n, orders, book, fills) && n < |queue| &&
             AllServed(cfg, was, queue, n, orders, fills, buys, sells, book)
    requires o == was[queue[n]] && d.levels == (if o.side == Buy then book.asks else book.bids)
    requires Passed(cfg, now, o, o', d, d', fl) && Pass(cfg, now, o, o', d, d', fl)
    requires sells == StandOf(d.cash, d.p) && sells' == StandOf(d'.cash, d'.p)
    requires if o.side == Buy then buys == sells && buys' == sells' else buys' == buys
    requires Waiting(cfg, o, o.remaining - FilledOf(fl, o.id), d'.cash, d'.p.qty, d'.levels) &&
             o'.remaining == Kept(cfg, o, d'.levels, fl) && FromOpen(cfg, o, d, fl)
    ensures AllServed(cfg, was, queue, n + 1, orders[queue[n] := o'], fills + fl, buys', sells',
            BookAfter(o.side, book, d'.levels))
  {
    var orders', book' := orders[queue[n] := o'], BookAfter(o.side, book, d'.levels);
    TableStep(was, queue, n, orders, o');
    FillsStep(cfg, now, was, queue, n, fills, o, d.levels, fl);
    forall a {:trigger queue[a]} | 0 <= a < n + 1
      ensures Served(cfg, was[queue[a]], orders'[queue[a]], fills + fl, buys', sells', book')
    {
      if a < n {
        assert !Ahead(o, was[queue[a]]) && Served(cfg, was[queue[a]], orders[queue[a]], fills, buys, sells, book);
        assert Remains(was[queue[a]], orders[queue[a]], fills) && was[queue[a]].id != was[queue[n]].id;
        StaysServed(cfg, now, was[queue[a]], orders[queue[a]], o, o', fills, fl, d, d', buys, buys', sells, sells',
          book, book');
      } else {
        assert Unseen(fills, was[queue[n]].id);
        OwnFillsOnly(cfg, o, fills, fl, d'.levels);
      }
    }
  }

  /** Fills from the quotes, and matching as far as position `n`; kept folded. */
  ghost predicate Far(cfg: Settings, now: nat, symbol: nat, was: seq<Order>, quoted: Book, queue: seq<nat>, n: nat,
      orders: seq<Order>, book: Book, fills: seq<Fill>) {
    n <= |queue| &&
    forall u :: Unfold(u) ==>
      IsQueue(cfg, was, symbol, now, queue) && Progress(was, quoted, queue, n, orders, book, fills) &&
      FromQuotes(cfg, now, symbol, quoted, fills) && Rising(book.asks)
  }

  /** Everyone passed is served, and the buys are still going on if the next order is one; kept folded. */
  ghost predicate Fair(cfg: Settings, was: seq<Order>, queue: seq<nat>, n: nat, orders: seq<Order>, book: Book,
      fills: seq<Fill>, start: Stand, here: Stand) {
    forall u :: Unfold(u) ==>
      n <= |queue| && |orders| == |was| && (forall i :: 0 <= i < |queue| ==> queue[i] < |was|) &&
      AllServed(cfg, was, queue, n, orders, fills, AfterBuys(start, fills), here, book) &&
      (n < |queue| && was[queue[n]].side == Buy ==> AfterBuys(start, fills) == here)
  }

  /** The next order of the queue and its desk. */
  lemma NextOrder(cfg: Settings, now: nat, symbol: nat, g: State, was: seq<Order>, quoted: Book, queue: seq<nat>,
      n: nat, book: Book, fills: seq<Fill>)
    requires Far(cfg, now, symbol, was, quoted, queue, n, g.orders, book, fills) && n < |queue|
    requires Sound(cfg, g) && symbol < |g.positions|
    ensures queue[n] < |was| == |g.orders| && g.orders[queue[n]] == was[queue[n]] && was[queue[n]].remaining > 0
    ensures Eligible(cfg, was[queue[n]], symbol, now) &&
            DeskOk(cfg, DeskFor(was[queue[n]].side, g.cash, g.positions[symbol], book))
    ensures was[queue[n]].side == Buy ==> Rising(book.asks)
  {
    assert IsQueue(cfg, was, symbol, now, queue) && Progress(was, quoted, queue, n, g.orders, book, fills) &&
           Rising(book.asks) by { assert Unfold(0); }
    var o := was[queue[n]];
    DeskStarts(cfg, g, symbol, o.side, quoted, book, fills);
  }

  lemma QuotesStep(cfg: Settings, now: nat, symbol: nat, quoted: Book, book: Book, fills: seq<Fill>, o: Order, d: Desk,
      fl: seq<Fill>)
    requires FromQuotes(cfg, now, symbol, quoted, fills) && o.symbol == symbol &&
             d.levels == (if o.side == Buy then book.asks else book.bids)
    requires LeftOf(quoted.asks, book.asks, fills, Buy) && LeftOf(quoted.bids, book.bids, fills, Sell)
    requires forall i {:trigger fl[i]} :: 0 <= i < |fl| ==> FillOk(cfg, fl[i], now, o, d.levels)
    ensures FromQuotes(cfg, now, symbol, quoted, fills + fl)
  {
    var all := fills + fl;
    forall i {:trigger all[i]} | 0 <= i < |all|
      ensures var levels := if all[i].side == Buy then quoted.asks else quoted.bids;
              all[i].time == now && all[i].symbol == symbol && all[i].level < |levels| &&
              all[i].price == Px(cfg, all[i].side, levels[all[i].level].price)
    {
      if i < |fills| {
        assert all[i] == fills[i];
      } else {
        assert FillOk(cfg, fl[i - |fills|], now, o, d.levels) && all[i] == fl[i - |fills|];
      }
    }
  }

  /** One more order of the queue is matched. */
  lemma FarStep(cfg: Settings, now: nat, symbol: nat, was: seq<Order>, quoted: Book, queue: seq<nat>, n: nat,
      orders: seq<Order>, book: Book, fills: seq<Fill>, start: Stand, here: Stand, o: Order, o': Order, d: Desk,
      d': Desk, fl: seq<Fill>)
    requires Far(cfg, now, symbol, was, quoted, queue, n, orders, book, fills) &&
             Fair(cfg, was, queue, n, orders, book, fills, start, here)
    requires n < |queue| && queue[n] < |was| == |orders| && o == was[queue[n]] && o.symbol == symbol &&
             StandOf(d.cash, d.p) == here
    requires d.levels == (if o.side == Buy then book.asks else book.bids) && Passed(cfg, now, o, o', d, d', fl) &&
             FromOpen(cfg, o, d, fl)
    ensures Far(cfg, now, symbol, was, quoted, queue, n + 1, orders[queue[n] := o'], BookAfter(o.side, book, d'.levels),
            fills + fl)
  {
    assert IsQueue(cfg, was, symbol, now, queue) && Progress(was, quoted, queue, n, orders, book, fills) &&
           FromQuotes(cfg, now, symbol, quoted, fills) && Rising(book.asks) &&
           AllServed(cfg, was, queue, n, orders, fills, AfterBuys(start, fills), here, book) &&
           (o.side == Buy ==> AfterBuys(start, fills) == here) &&
           Pass(cfg, now, o, o', d, d', fl) by { assert Unfold(0); }
    PriorityStep(cfg, now, was, quoted, queue, n, orders, book, fills, o, o', d, fl, AfterBuys(start, fills), here);
    ProgressStep(cfg, now, was, quoted, queue, n, orders, book, fills, o, o', d, d', fl);
    QuotesStep(cfg, now, symbol, quoted, book, fills, o, d, fl);
    if o.side == Buy {
      RisingStays(o.side, d, d');
    }
    SealFar(cfg, now, symbol, was, quoted, queue, n + 1, orders[queue[n] := o'], BookAfter(o.side, book, d'.levels),
      fills + fl);
  }

  lemma SealFar(cfg: Settings, now: nat, symbol: nat, was: seq<Order>, quoted: Book, queue: seq<nat>, n: nat,
      orders: seq<Order>, book: Book, fills: seq<Fill>)
    requires IsQueue(cfg, was, symbol, now, queue) && Progress(was, quoted, queue, n, orders, book, fills)
    requires FromQuotes(cfg, now, symbol, quoted, fills) && Rising(book.asks)
    ensures Far(cfg, now, symbol, was, quoted, queue, n, orders, book, fills)
  {
  }

  lemma FairStep(cfg: Settings, now: nat, symbol: nat, was: seq<Order>, quoted: Book, queue: seq<nat>, n: nat,
      orders: seq<Order>, book: Book, fills: seq<Fill>, start: Stand, here: Stand, o: Order, o': Order, d: Desk,
      d': Desk, fl: seq<Fill>)
    requires Far(cfg, now, symbol, was, quoted, queue, n, orders, book, fills) &&
             Fair(cfg, was, queue, n, orders, book, fills, start, here)
    requires n < |queue| && queue[n] < |was| == |orders| && o == was[queue[n]] && StandOf(d.cash, d.p) == here
    requires d.levels == (if o.side == Buy then book.asks else book.bids) && Passed(cfg, now, o, o', d, d', fl)
    requires Waiting(cfg, o, o.remaining - FilledOf(fl, o.id), d'.cash, d'.p.qty, d'.levels) &&
             o'.remaining == Kept(cfg, o, d'.levels, fl) && FromOpen(cfg, o, d, fl)
    ensures Fair(cfg, was, queue, n + 1, orders[queue[n] := o'], BookAfter(o.side, book, d'.levels), fills + fl, start,
            StandOf(d'.cash, d'.p))
  {
    assert Progress(was, quoted, queue, n, orders, book, fills) &&
           AllServed(cfg, was, queue, n, orders, fills, AfterBuys(start, fills), here, book) &&
           (o.side == Buy ==> AfterBuys(start, fills) == here) &&
           Pass(cfg, now, o, o', d, d', fl) by { assert Unfold(0); }
    AfterBuysConcat(start, fills, fl);
    BuysOfOne(cfg, now, o, d.levels, fl);
    ServedStep(cfg, now, was, quoted, queue, n, orders, book, fills, o, o', d, d', fl,
               AfterBuys(start, fills), AfterBuys(start, fills + fl), here, StandOf(d'.cash, d'.p));
    if n + 1 < |queue| {
      assert !Ahead(was[queue[n + 1]], was[queue[n]]);
    }
    SealFair(cfg, was, queue, n + 1, orders[queue[n] := o'], BookAfter(o.side, book, d'.levels), fills + fl, start,
      StandOf(d'.cash, d'.p));
  }

  lemma SealFair(cfg: Settings, was: seq<Order>, queue: seq<nat>, n: nat, orders: seq<Order>, book: Book,
      fills: seq<Fill>, start: Stand, here: Stand)
    requires n <= |queue| && |orders| == |was| && (forall i :: 0 <= i < |queue| ==> queue[i] < |was|)
    requires AllServed(cfg, was, queue, n, orders, fills, AfterBuys(start, fills), here, book)
    requires n < |queue| && was[queue[n]].side == Buy ==> AfterBuys(start, fills) == here
    ensures Fair(cfg, was, queue, n, orders, book, fills, start, here)
  {
  }

  // ----- The engine -----

  datatype Kind = Open | Bar | Quote

  datatype Event = Event(time: nat, symbol: nat, kind: Kind, book: Book, open: int, high: int, low: int, close: int,
      volume: int)

  const MAX_VOLUME: int := 1_000_000_000_000

  predicate IsPrice(p: int) {
    0 < p <= MAX_PRICE
  }

  predicate LevelOk(l: Level) {
    0 <= l.qty <= MAX_QTY && (l.price == 0 || IsPrice(l.price)) && (l.price == 0 ==> l.qty == 0)
  }

  /** A usable event: a consistent bar, or a two-sided book of strictly worsening prices. */
  predicate Usable(e: Event, symbols: nat, depth: nat) {
    e.time != 0 && e.symbol < symbols && |e.book.bids| == |e.book.asks| == depth > 0 &&
    if e.kind == Bar then
      IsPrice(e.open) && IsPrice(e.close) && IsPrice(e.low) && IsPrice(e.high) && e.low <= Min(e.open, e.close) &&
      e.high >= e.open && e.high >= e.close && 0 <= e.volume <= MAX_VOLUME
    else
      (forall i :: 0 <= i < depth ==> LevelOk(e.book.bids[i]) && LevelOk(e.book.asks[i])) &&
      (forall i :: 1 <= i < depth && e.book.bids[i].price != 0 ==>
         e.book.bids[i - 1].price != 0 && e.book.bids[i].price < e.book.bids[i - 1].price) &&
      (forall i :: 1 <= i < depth && e.book.asks[i].price != 0 ==>
         e.book.asks[i - 1].price != 0 && e.book.asks[i].price > e.book.asks[i - 1].price) &&
      IsPrice(e.book.bids[0].price) && IsPrice(e.book.asks[0].price) && e.book.bids[0].price <= e.book.asks[0].price
  }

  /** A side of a usable book: prices from the best to the worst, without gaps; `down` for bids. */
  ghost predicate Worsening(levels: seq<Level>, down: bool) {
    (forall i {:trigger levels[i]} :: 0 <= i < |levels| ==>
       0 <= levels[i].qty <= MAX_QTY && 0 <= levels[i].price <= MAX_PRICE &&
       (levels[i].price == 0 ==> levels[i].qty == 0)) &&
    forall i, j {:trigger levels[i], levels[j]} :: 0 <= i < j < |levels| && levels[j].price != 0 ==>
      levels[i].price != 0 && if down then levels[j].price < levels[i].price else levels[j].price > levels[i].price
  }

  /** Which events are usable: bars whose open and close lie within a priced range, and two-sided
      books that fall away from an uncrossed top. */
  lemma UsableIff(e: Event, symbols: nat, depth: nat)
    requires |e.book.bids| == |e.book.asks| == depth
    ensures Usable(e, symbols, depth) <==>
            e.time != 0 && e.symbol < symbols && depth > 0 &&
            if e.kind == Bar then
              0 < e.low && e.low <= e.open <= e.high && e.low <= e.close <= e.high && e.high <= MAX_PRICE &&
              0 <= e.volume <= MAX_VOLUME
            else Worsening(e.book.bids, true) && Worsening(e.book.asks, false) &&
                 0 < e.book.bids[0].price <= e.book.asks[0].price
  {
    if e.time != 0 && e.symbol < symbols && depth > 0 && e.kind != Bar {
      if Usable(e, symbols, depth) {
        Worsens(e.book.bids, true);
        Worsens(e.book.asks, false);
      }
    }
  }

  lemma Worsens(levels: seq<Level>, down: bool)
    requires forall i :: 0 <= i < |levels| ==> LevelOk(levels[i])
    requires forall i {:trigger levels[i]} :: 1 <= i < |levels| && levels[i].price != 0 ==>
               levels[i - 1].price != 0 &&
               if down then levels[i].price < levels[i - 1].price else levels[i].price > levels[i - 1].price
    ensures Worsening(levels, down)
  {
    forall i, j {:trigger levels[i], levels[j]} | 0 <= i < j < |levels| && levels[j].price != 0
      ensures levels[i].price != 0 &&
              if down then levels[j].price < levels[i].price else levels[j].price > levels[i].price
    {
      WorseBehind(levels, down, i, j);
    }
  }

  lemma {:induction false} WorseBehind(levels: seq<Level>, down: bool, i: nat, j: nat)
    requires i < j < |levels| && levels[j].price != 0
    requires forall k {:trigger levels[k]} :: 1 <= k < |levels| && levels[k].price != 0 ==>
               levels[k - 1].price != 0 &&
               if down then levels[k].price < levels[k - 1].price else levels[k].price > levels[k - 1].price
    ensures levels[i].price != 0 &&
            if down then levels[j].price < levels[i].price else levels[j].price > levels[i].price
    decreases j - i
  {
    assert levels[j].price != 0;
    if i + 1 < j {
      WorseBehind(levels, down, i, j - 1);
    }
  }

  datatype Command = Submit(symbol: nat, side: Side, qty: int, limit: int) | Cancel(id: nat)

  /** The `i`-th event stops a replay: it is not usable or earlier than the one before, or the sample buffer
      is full by then. */
  ghost predicate Stops(sizes: Sizes, events: seq<Event>, i: nat, samples: nat, started: bool, now: nat) {
    i < |events| &&
    (!Usable(events[i], sizes.symbols, sizes.depth) || samples + i == sizes.samples ||
     (if i == 0 then started && events[0].time < now else events[i].time < events[i - 1].time))
  }

  /** A replay that has taken `i` events: none of them stopped it. Kept folded. */
  ghost predicate Going(sizes: Sizes, events: seq<Event>, i: nat, samples: nat, started: bool, now: nat, samples': nat,
      started': bool, now': nat) {
    forall n :: Unfold(n) ==>
      i <= |events| && samples' == samples + i && (i == 0 ==> started' == started && now' == now) &&
      (i > 0 ==> started' && now' == events[i - 1].time) &&
      forall j :: 0 <= j < i ==> !Stops(sizes, events, j, samples, started, now)
  }

  /** A replay that was stopped by one of the first `i` events or by a full fill buffer. Kept folded. */
  ghost predicate Ended(sizes: Sizes, events: seq<Event>, i: nat, samples: nat, started: bool, now: nat, fills: nat) {
    forall n :: Unfold(n) ==>
      fills == sizes.fills || exists j :: 0 <= j < i && Stops(sizes, events, j, samples, started, now)
  }

  lemma Goes(sizes: Sizes, events: seq<Event>, i: nat, samples: nat, started: bool, now: nat, samples': nat,
      started': bool, now': nat)
    requires i < |events| && Going(sizes, events, i, samples, started, now, samples', started', now')
    ensures Stops(sizes, events, i, samples, started, now) <==>
            !Usable(events[i], sizes.symbols, sizes.depth) || (started' && events[i].time < now') ||
            samples' == sizes.samples
    ensures !Stops(sizes, events, i, samples, started, now) ==>
              Going(sizes, events, i + 1, samples, started, now, samples' + 1, true, events[i].time)
  {
    assert Unfold(0);
  }

  lemma Ends(sizes: Sizes, events: seq<Event>, i: nat, samples: nat, started: bool, now: nat, fills: nat, was: bool)
    requires if was then Ended(sizes, events, i, samples, started, now, fills)
             else Stops(sizes, events, i, samples, started, now) || fills == sizes.fills
    ensures Ended(sizes, events, i + 1, samples, started, now, fills)
  {
    assert was ==> Unfold(0);
  }

  lemma HowItEnded(sizes: Sizes, events: seq<Event>, samples: nat, started: bool, now: nat, samples': nat,
      started': bool, now': nat, fills: nat)
    ensures Going(sizes, events, |events|, samples, started, now, samples', started', now') ==>
              !exists i :: Stops(sizes, events, i, samples, started, now)
    ensures Ended(sizes, events, |events|, samples, started, now, fills) ==>
              fills == sizes.fills || exists i :: Stops(sizes, events, i, samples, started, now)
  {
    assert Unfold(0);
  }

  datatype Sizes = Sizes(symbols: nat, depth: nat, orders: nat, fills: nat, samples: nat)

  /** The order slots and the last identifier given out. */
  datatype Table = Table(orders: seq<Order>, nextId: nat)

  function FirstIdle(orders: seq<Order>, from: nat): nat
    decreases |orders| - from
  {
    if from < |orders| && orders[from].remaining != 0 then FirstIdle(orders, from + 1) else from
  }

  lemma {:induction false} FirstIdleIs(orders: seq<Order>, from: nat)
    requires from <= |orders|
    ensures from <= FirstIdle(orders, from) <= |orders|
    ensures forall i :: from <= i < FirstIdle(orders, from) ==> orders[i].remaining != 0
    ensures FirstIdle(orders, from) < |orders| ==> orders[FirstIdle(orders, from)].remaining == 0
    decreases |orders| - from
  {
    if from < |orders| && orders[from].remaining != 0 {
      FirstIdleIs(orders, from + 1);
    }
  }

  function Withdrawn(orders: seq<Order>, id: nat): seq<Order> {
    seq(|orders|, i requires 0 <= i < |orders| =>
      if orders[i].id == id then orders[i].(remaining := 0) else orders[i])
  }

  predicate Orderly(cfg: Settings, symbols: nat, now: nat, symbol: nat, qty: int, limit: int) {
    symbol < symbols && 0 < qty <= cfg.maxPosition && 0 <= limit <= MAX_PRICE && now + cfg.latency <= UINT64_MAX
  }

  /** What one call of the strategy does to the order slots. */
  function Obeyed(cfg: Settings, symbols: nat, now: nat, t: Table, command: Command): Table {
    match command
    case Submit(symbol, side, qty, limit) =>
      var i := FirstIdle(t.orders, 0);
      if Orderly(cfg, symbols, now, symbol, qty, limit) && i < |t.orders| then
        Table(t.orders[i := Order(t.nextId + 1, now, symbol, side, qty, limit)], t.nextId + 1)
      else t
    case Cancel(id) => t.(orders := Withdrawn(t.orders, id))
  }

  function ObeyedAll(cfg: Settings, symbols: nat, now: nat, t: Table, commands: seq<Command>): Table {
    if commands == [] then t
    else Obeyed(cfg, symbols, now, ObeyedAll(cfg, symbols, now, t, commands[..|commands| - 1]),
                commands[|commands| - 1])
  }

  class Engine {
    const cfg: Settings
    const sizes: Sizes
    var cash: real
    var positions: seq<Position>
    var books: seq<Book>
    var orders: seq<Order>
    var fills: seq<Fill>
    var samples: nat
    var now: nat
    var nextId: nat
    var started: bool
    var failed: bool
    /** Every order ever accepted, as submitted. */
    ghost var subs: map<nat, Submission>

    ghost function G(): State
      reads this
    {
      State(cash, positions, orders, fills, nextId, subs)
    }

    ghost function Slots(): Table
      reads this
    {
      Table(orders, nextId)
    }

    ghost predicate Valid()
      reads this
    {
      cfg.Valid() && |positions| == |books| == sizes.symbols && |orders| == sizes.orders && |fills| <= sizes.fills &&
      Sound(cfg, G())
    }

    constructor (cfg: Settings, sizes: Sizes)
      requires cfg.Valid()
      ensures Valid() && this.cfg == cfg && this.sizes == sizes && cash == cfg.initialCash && fills == [] && !failed &&
              !started && samples == now == nextId == 0 && subs == map[]
      ensures positions == seq(sizes.symbols, _ => Position(0, 0.0, 0.0)) && |orders| == sizes.orders &&
              forall i :: 0 <= i < |orders| ==> orders[i].remaining == 0
    {
      this.cfg, this.sizes := cfg, sizes;
      cash := cfg.initialCash;
      positions := seq(sizes.symbols, _ => Position(0, 0.0, 0.0));
      books := seq(sizes.symbols, _ => Book([], []));
      orders := seq(sizes.orders, _ => Order(0, 0, 0, Buy, 0, 0));
      fills, samples, now, nextId, started, failed, subs := [], 0, 0, 0, false, false, map[];
      new;
      StartsSound(cfg, G());
    }

    /** The eligible slots, in slot order. */
    method CollectEligible(symbol: nat) returns (indices: seq<nat>)
      ensures forall i :: 0 <= i < |indices| ==> indices[i] < |orders| && Eligible(cfg, orders[indices[i]], symbol, now)
      ensures forall i, j :: 0 <= i < j < |indices| ==> indices[i] < indices[j]
      ensures forall i :: 0 <= i < |orders| && Eligible(cfg, orders[i], symbol, now) ==> i in indices
    {
      indices := [];
      var i := 0;
      while i < |orders|
        invariant i <= |orders|
        invariant forall k :: 0 <= k < |indices| ==> indices[k] < i && Eligible(cfg, orders[indices[k]], symbol, now)
        invariant forall k, j :: 0 <= k < j < |indices| ==> indices[k] < indices[j]
        invariant forall k :: 0 <= k < i && Eligible(cfg, orders[k], symbol, now) ==> k in indices
      {
        if Eligible(cfg, orders[i], symbol, now) {
          indices := indices + [i];
        }
        i := i + 1;
      }
    }

    /** Matches the `n`-th order of the queue and writes the outcome back. */
    method MatchNext(symbol: nat, ghost was: seq<Order>, ghost quoted: Book, queue: seq<nat>, n: nat,
        ghost since: seq<Fill>, ghost start: Stand)
      returns (ok: bool, ghost fl: seq<Fill>)
      requires Valid() && symbol < sizes.symbols && n < |queue|
      requires Far(cfg, now, symbol, was, quoted, queue, n, orders, books[symbol], since)
      requires Fair(cfg, was, queue, n, orders, books[symbol], since, start, StandOf(cash, positions[symbol]))
      modifies this`cash, this`positions, this`orders, this`fills, this`nextId, this`subs, this`books
      ensures Valid() && fills == old(fills) + fl && nextId == old(nextId) && subs == old(subs)
      ensures books == old(books)[symbol := books[symbol]] &&
              forall s :: 0 <= s < sizes.symbols && s != symbol ==> positions[s] == old(positions)[s]
      ensures Far(cfg, now, symbol, was, quoted, queue, n + 1, orders, books[symbol], since + fl)
      ensures ok ==>
                Fair(cfg, was, queue, n + 1, orders, books[symbol], since + fl, start, StandOf(cash, positions[symbol]))
      ensures !ok ==> |fills| == sizes.fills
    {
      NextOrder(cfg, now, symbol, G(), was, quoted, queue, n, books[symbol], since);
      // Callbacks are deferred, so an order that was eligible still has its remainder.
      var o := orders[queue[n]];
      var d := DeskFor(o.side, cash, positions[symbol], books[symbol]);
      var o', d', out, outcome := MatchOrder(cfg, now, o, d, sizes.fills - |fills|);
      fl, ok := out, outcome == Matched;
      FarStep(cfg, now, symbol, was, quoted, queue, n, orders, books[symbol], since, start,
        StandOf(cash, positions[symbol]), o, o', d, d', fl);
      if ok {
        FairStep(cfg, now, symbol, was, quoted, queue, n, orders, books[symbol], since, start,
          StandOf(cash, positions[symbol]), o, o', d, d', fl);
      }
      Enter(symbol, queue[n], o, o', d, d', out);
    }

    /** Writes the outcome of one order's pass back. */
    method Enter(symbol: nat, i: nat, ghost o: Order, o': Order, ghost d: Desk, d': Desk, out: seq<Fill>)
      requires Valid() && symbol < sizes.symbols && i < |orders| && o == orders[i] && o.remaining > 0 &&
               o.symbol == o'.symbol == symbol
      requires d == DeskFor(o.side, cash, positions[symbol], books[symbol]) && Passed(cfg, now, o, o', d, d', out) &&
               |fills| + |out| <= sizes.fills
      requires o.sent < now && now - o.sent >= cfg.latency && o'.side == o.side
      modifies this`cash, this`positions, this`orders, this`fills, this`nextId, this`subs, this`books
      ensures Valid() && fills == old(fills) + out && orders == old(orders)[i := o'] && cash == d'.cash &&
              positions == old(positions)[symbol := d'.p]
      ensures books == old(books)[symbol := BookAfter(o.side, old(books)[symbol], d'.levels)] &&
              nextId == old(nextId) && subs == old(subs)
    {
      ghost var g := DealMade(cfg, now, G(), i, o, o', d, d', out);
      books := books[symbol := BookAfter(o'.side, books[symbol], d'.levels)];
      Store(d'.cash, positions[symbol := d'.p], orders[i := o'], fills + out, nextId, g);
    }

    /** Matches every eligible order of the symbol against its book, in priority order. */
    method MatchSnapshot(symbol: nat) returns (ok: bool, ghost m: Session)
      requires Valid() && symbol < sizes.symbols && QuotesOk(books[symbol])
      modifies this`cash, this`positions, this`orders, this`fills, this`nextId, this`subs, this`books
      ensures Valid() && fills == old(fills) + m.fills && MatchedAll(cfg, now, symbol, m) && m.matched &&
              m.complete == ok
      ensures m.was == old(orders) && m.after == orders && m.quoted == old(books)[symbol] && m.left == books[symbol]
      ensures m.start == StandOf(old(cash), old(positions)[symbol]) && m.end == StandOf(cash, positions[symbol])
      ensures nextId == old(nextId) &&
              forall s :: 0 <= s < sizes.symbols && s != symbol ==> positions[s] == old(positions)[s]
      ensures !ok ==> |fills| == sizes.fills
    {
      var indices := CollectEligible(symbol);
      var sorted := SortByPriority(orders, indices);
      QueueFrom(cfg, G(), symbol, now, indices, sorted);
      ok, m := MatchQueue(symbol, sorted);
    }

    method MatchQueue(symbol: nat, queue: seq<nat>) returns (ok: bool, ghost m: Session)
      requires Valid() && symbol < sizes.symbols && QuotesOk(books[symbol]) && IsQueue(cfg, orders, symbol, now, queue)
      modifies this`cash, this`positions, this`orders, this`fills, this`nextId, this`subs, this`books
      ensures Valid() && fills == old(fills) + m.fills && MatchedAll(cfg, now, symbol, m) && m.matched &&
              m.complete == ok
      ensures m.was == old(orders) && m.after == orders && m.quoted == old(books)[symbol] && m.left == books[symbol]
      ensures m.start == StandOf(old(cash), old(positions)[symbol]) && m.end == StandOf(cash, positions[symbol])
      ensures nextId == old(nextId) &&
              forall s :: 0 <= s < sizes.symbols && s != symbol ==> positions[s] == old(positions)[s]
      ensures !ok ==> |fills| == sizes.fills
    {
      ghost var g, was, quoted, start := G(), orders, books[symbol], StandOf(cash, positions[symbol]);
      MatchingStarts(cfg, G(), symbol, now, queue, quoted, start);
      ghost var n, since;
      ok, n, since := Sweep(symbol, was, quoted, queue, start);
      m := Session(true, ok, was, orders, queue, quoted, books[symbol], since, start, StandOf(cash, positions[symbol]));
      MatchingEnds(cfg, g, now, symbol, n, m);
    }

    /** One order of the queue; `before` are the fills before the first one. */
    method SweepNext(symbol: nat, ghost was: seq<Order>, ghost quoted: Book, queue: seq<nat>, n: nat,
        ghost since: seq<Fill>, ghost start: Stand, ghost before: seq<Fill>)
      returns (ok: bool, ghost later: seq<Fill>)
      requires Valid() && symbol < sizes.symbols && n < |queue| && fills == before + since
      requires Far(cfg, now, symbol, was, quoted, queue, n, orders, books[symbol], since)
      requires Fair(cfg, was, queue, n, orders, books[symbol], since, start, StandOf(cash, positions[symbol]))
      modifies this`cash, this`positions, this`orders, this`fills, this`nextId, this`subs, this`books
      ensures Valid() && fills == before + later && nextId == old(nextId)
      ensures forall s :: 0 <= s < sizes.symbols && s != symbol ==> positions[s] == old(positions)[s]
      ensures Far(cfg, now, symbol, was, quoted, queue, n + 1, orders, books[symbol], later)
      ensures ok ==>
                Fair(cfg, was, queue, n + 1, orders, books[symbol], later, start, StandOf(cash, positions[symbol]))
      ensures !ok ==> |fills| == sizes.fills
    {
      ghost var fl;
      ok, fl := MatchNext(symbol, was, quoted, queue, n, since, start);
      Regroup(before, since, fl);
      later := since + fl;
    }

    /** The loop over the queue; it stops early when the fill buffer is full. */
    method Sweep(symbol: nat, ghost was: seq<Order>, ghost quoted: Book, queue: seq<nat>, ghost start: Stand)
      returns (ok: bool, ghost reached: nat, ghost since: seq<Fill>)
      requires Valid() && symbol < sizes.symbols &&
               Far(cfg, now, symbol, was, quoted, queue, 0, orders, books[symbol], [])
      requires Fair(cfg, was, queue, 0, orders, books[symbol], [], start, StandOf(cash, positions[symbol]))
      modifies this`cash, this`positions, this`orders, this`fills, this`nextId, this`subs, this`books
      ensures Valid() && fills == old(fills) + since &&
              Far(cfg, now, symbol, was, quoted, queue, reached, orders, books[symbol], since)
      ensures ok ==>
                reached == |queue| && Fair(cfg, was, queue, reached, orders, books[symbol], since, start,
                StandOf(cash, positions[symbol]))
      ensures nextId == old(nextId) &&
              forall s :: 0 <= s < sizes.symbols && s != symbol ==> positions[s] == old(positions)[s]
      ensures !ok ==> |fills| == sizes.fills
    {
      ok, since := true, [];
      var n := 0;
      while n < |queue|
        invariant n <= |queue| && Valid() && fills == old(fills) + since && nextId == old(nextId)
        invariant Far(cfg, now, symbol, was, quoted, queue, n, orders, books[symbol], since)
        invariant Fair(cfg, was, queue, n, orders, books[symbol], since, start, StandOf(cash, positions[symbol]))
        invariant forall s :: 0 <= s < sizes.symbols && s != symbol ==> positions[s] == old(positions)[s]
      {
        ok, since := SweepNext(symbol, was, quoted, queue, n, since, start, old(fills));
        n := n + 1;
        if !ok {
          return false, n, since;
        }
      }
      return true, n, since;
    }

    /** Accepts an order into the first idle slot; 0 when it is refused. */
    method Submit(symbol: nat, side: Side, qty: int, limit: int) returns (id: nat)
      requires Valid()
      modifies this`cash, this`positions, this`orders, this`fills, this`nextId, this`subs
      ensures Valid() && fills == old(fills) && cash == old(cash) && positions == old(positions)
      ensures id != 0 <==>
                !failed && started && symbol < sizes.symbols && 0 < qty <= cfg.maxPosition && 0 <= limit <= MAX_PRICE &&
                           now + cfg.latency <= UINT64_MAX &&
                           exists i :: 0 <= i < |old(orders)| && old(orders)[i].remaining == 0
      ensures id == 0 ==> subs == old(subs) && orders == old(orders)
      ensures id != 0 ==> id !in old(subs) && subs == old(subs)[id := Submission(now, symbol, side, qty, limit)]
      ensures id != 0 ==>
                id == nextId == old(nextId) + 1 &&
                exists i ::
                  0 <= i < |old(orders)| && old(orders)[i].remaining == 0 &&
                  (forall j :: 0 <= j < i ==> old(orders)[j].remaining != 0) &&
                  orders == old(orders)[i := Order(id, now, symbol, side, qty, limit)]
      ensures !failed && started ==>
                Slots() == Obeyed(cfg, sizes.symbols, now, old(Slots()), Command.Submit(symbol, side, qty, limit))
    {
      if failed || !started || symbol >= sizes.symbols || qty <= 0 || qty > cfg.maxPosition || limit < 0 ||
        limit > MAX_PRICE ||
         cfg.latency > UINT64_MAX - now {
        return 0;
      }
      var i := 0;
      while i < |orders|
        invariant i <= |orders| && forall j :: 0 <= j < i ==> orders[j].remaining != 0
        invariant FirstIdle(orders, 0) == FirstIdle(orders, i)
      {
        if orders[i].remaining == 0 {
          id := nextId + 1;
          var o := Order(id, now, symbol, side, qty, limit);
          SubmitKeeps(cfg, G(), i, o);
          Store(cash, positions, orders[i := o], fills, id, Submitted(G(), i, o));
          return;
        }
        i := i + 1;
      }
      return 0;
    }

    /** Drops the remainder of a live order. */
    method Withdraw(id: nat) returns (ok: bool)
      requires Valid()
      modifies this`cash, this`positions, this`orders, this`fills, this`nextId, this`subs
      ensures Valid() && fills == old(fills) && cash == old(cash) && positions == old(positions) && subs == old(subs)
      ensures ok <==> exists i :: 0 <= i < |old(orders)| && old(orders)[i].id == id && old(orders)[i].remaining != 0
      ensures |orders| == |old(orders)| && forall i :: 0 <= i < |orders| ==>
                orders[i] == if ok && old(orders)[i].id == id then old(orders)[i].(remaining := 0) else old(orders)[i]
      ensures Slots() == Obeyed(cfg, sizes.symbols, now, old(Slots()), Command.Cancel(id))
    {
      assert forall i :: 0 <= i < |orders| ==> orders[i].remaining >= 0 by {
        assert OrdersOk(G()) by { assert Unfold(0); }
        forall i | 0 <= i < |orders| ensures orders[i].remaining >= 0 {
          assert OrderOk(G(), orders[i]);
        }
      }
      var i := 0;
      while i < |orders|
        invariant i <= |orders| && forall j :: 0 <= j < i ==> !(orders[j].id == id && orders[j].remaining != 0)
      {
        if orders[i].id == id && orders[i].remaining != 0 {
          WithdrawKeeps(cfg, G(), i);
          var o := orders[i].(remaining := 0);
          Store(cash, positions, orders[i := o], fills, nextId, G().(orders := orders[i := o]));
          return true;
        }
        i := i + 1;
      }
      return false;
    }

    /** The strategy's calls, in any number and order. */
    method RunCommands(commands: seq<Command>)
      requires Valid()
      modifies this`cash, this`positions, this`orders, this`fills, this`nextId, this`subs
      ensures Valid() && fills == old(fills) && cash == old(cash) && positions == old(positions)
      ensures !failed && started ==> Slots() == ObeyedAll(cfg, sizes.symbols, now, old(Slots()), commands)
    {
      var i := 0;
      while i < |commands|
        invariant i <= |commands| && Valid() && fills == old(fills) && cash == old(cash) && positions == old(positions)
        invariant !failed && started ==> Slots() == ObeyedAll(cfg, sizes.symbols, now, old(Slots()), commands[..i])
      {
        assert commands[..i + 1][..i] == commands[..i];
        match commands[i] {
          case Submit(symbol, side, qty, limit) => var _ := Submit(symbol, side, qty, limit);
          case Cancel(id) => var _ := Withdraw(id);
        }
        i := i + 1;
      }
      assert commands[..i] == commands;
    }

    /** One event: check, match, then the callbacks. The engine stops for good at the first
        event it cannot use, at a full sample buffer or a full fill buffer. `m` tells of the
        matching, before the callbacks. */
    method Step(e: Event, commands: seq<Command>) returns (ok: bool, ghost m: Session)
      requires Valid()
      modifies this
      ensures Valid() && (failed <==> !ok) && (ok ==> now == e.time && started && samples == old(samples) + 1)
      ensures !old(Accepts(e)) ==> !ok && G() == old(G())
      ensures old(Accepts(e)) && !ok ==> e.kind != Bar && |fills| == sizes.fills
      ensures m.matched <==> old(Accepts(e)) && e.kind != Bar
      ensures (ok ==> old(Accepts(e))) && m.complete == ok
      ensures Stepped(cfg, sizes.symbols, e, commands, old(G()), G(), m)
    {
      m := NoSession(false);
      ghost var g := G();
      NotTaken(cfg, sizes.symbols, e, commands, g);
      if failed {
        return false, m;
      }
      if !Usable(e, sizes.symbols, sizes.depth) || (started && e.time < now) || samples == sizes.samples {
        failed := true;
        return false, m;
      }
      ok, m := Proceed(e, commands, g);
      failed := !ok;
      OpenStep(cfg, sizes.symbols, e, commands, g, G(), m);
    }

    /** An acceptable event. */
    method Proceed(e: Event, commands: seq<Command>, ghost g: State) returns (ok: bool, ghost m: Session)
      requires Valid() && Usable(e, sizes.symbols, sizes.depth) && !failed && g == G()
      modifies this`cash, this`positions, this`orders, this`fills, this`nextId, this`subs, this`books, this`now,
               this`started, this`samples
      ensures Valid() && now == e.time && started && (ok ==> samples == old(samples) + 1)
      ensures (m.matched <==> e.kind != Bar) && m.complete == ok && (!ok ==> e.kind != Bar && |fills| == sizes.fills)
      ensures StepDone(cfg, sizes.symbols, e, commands, g, G(), m)
    {
      ok, m := TakeEvent(e, g);
      if ok {
        Callbacks(e, commands, g, m);
      } else {
        ThenCalls(cfg, sizes.symbols, e, commands, g, G(), G(), m);
      }
    }

    /** The strategy's calls after the matching, and the sample. */
    method Callbacks(e: Event, commands: seq<Command>, ghost g: State, ghost m: Session)
      requires Valid() && !failed && started && now == e.time && m.complete && Took(cfg, e, g, G(), m)
      modifies this`cash, this`positions, this`orders, this`fills, this`nextId, this`subs, this`samples
      ensures Valid() && samples == old(samples) + 1 && StepDone(cfg, sizes.symbols, e, commands, g, G(), m)
    {
      ghost var taken := G();
      RunCommands(commands);
      ThenCalls(cfg, sizes.symbols, e, commands, g, taken, G(), m);
      samples := samples + 1;
    }

    /** Moves the clock and, for a snapshot, installs the book and matches against it. */
    method TakeEvent(e: Event, ghost g: State) returns (ok: bool, ghost m: Session)
      requires Valid() && Usable(e, sizes.symbols, sizes.depth) && g == G()
      modifies this`cash, this`positions, this`orders, this`fills, this`nextId, this`subs, this`books, this`now,
               this`started
      ensures Valid() && now == e.time && started && Took(cfg, e, g, G(), m)
      ensures (m.matched <==> e.kind != Bar) && m.complete == ok && (!ok ==> e.kind != Bar && |fills| == sizes.fills)
    {
      now, started := e.time, true;
      if e.kind == Bar {
        ok, m := true, NoSession(true);
        assert g.fills + [] == g.fills;
      } else {
        UsableQuotes(e, sizes.symbols, sizes.depth);
        books := books[e.symbol := e.book];
        ok, m := MatchSnapshot(e.symbol);
      }
      SealTook(cfg, e, g, G(), m);
    }

    /** The event is matched rather than refused. */
    predicate Accepts(e: Event)
      reads this
    {
      !failed && Usable(e, sizes.symbols, sizes.depth) && !(started && e.time < now) && samples != sizes.samples
    }

    /** A whole replay, with whatever the strategy does after each event: what each snapshot's
        matching did, and the accounts at the end. */
    method Replay(events: seq<Event>, commands: seq<seq<Command>>)
        returns (ghost states: seq<State>, ghost sessions: seq<Session>)
      requires Valid() && |commands| == |events|
      modifies this
      ensures Valid() && Chronicle(cfg, sizes.symbols, events, commands, states, sessions)
      ensures states[0] == old(G()) && states[|events|] == G()
      ensures !failed ==> AllMatched(events, sessions)
      ensures old(failed) ==> failed
      ensures !old(failed) && (exists i :: Stops(sizes, events, i, old(samples), old(started), old(now))) ==> failed
      ensures !old(failed) && failed ==>
                |fills| == sizes.fills || exists i :: Stops(sizes, events, i, old(samples), old(started), old(now))
      ensures MoneyOk(cfg, G()) && NetsOk(G()) && OrdersOk(G()) && FillsOk(cfg, G())
    {
      ghost var first := G();
      states, sessions := [first], [];
      var i := 0;
      TaleStarts(cfg, sizes.symbols, failed, events, commands, first);
      assert Going(sizes, events, 0, samples, started, now, samples, started, now);
      while i < |events|
        invariant i <= |events| && Valid()
        invariant Tale(cfg, sizes.symbols, failed, events, commands, i, first, G(), states, sessions)
        invariant old(failed) ==> failed
        invariant !failed ==> Going(sizes, events, i, old(samples), old(started), old(now), samples, started, now)
        invariant !old(failed) && failed ==> Ended(sizes, events, i, old(samples), old(started), old(now), |fills|)
      {
        states, sessions := Advance(events, commands, i, first, states, sessions, old(samples), old(started), old(now),
          !old(failed));
        i := i + 1;
      }
      HowItEnded(sizes, events, old(samples), old(started), old(now), samples, started, now, |fills|);
      TaleEnds(cfg, sizes.symbols, failed, events, commands, first, G(), states, sessions);
      Audit(cfg, G());
    }

    /** One event of a replay. */
    method Advance(events: seq<Event>, commands: seq<seq<Command>>, i: nat, ghost first: State,
        ghost states: seq<State>, ghost sessions: seq<Session>, ghost samples0: nat, ghost started0: bool,
        ghost now0: nat, ghost sound: bool)
        returns (ghost states': seq<State>, ghost sessions': seq<Session>)
      requires Valid() && i < |events| == |commands| &&
               Tale(cfg, sizes.symbols, failed, events, commands, i, first, G(), states, sessions)
      requires !failed ==> Going(sizes, events, i, samples0, started0, now0, samples, started, now)
      requires sound && failed ==> Ended(sizes, events, i, samples0, started0, now0, |fills|)
      modifies this
      ensures Valid() && (old(failed) ==> failed) &&
              Tale(cfg, sizes.symbols, failed, events, commands, i + 1, first, G(), states', sessions')
      ensures !failed ==> Going(sizes, events, i + 1, samples0, started0, now0, samples, started, now)
      ensures sound && failed ==> Ended(sizes, events, i + 1, samples0, started0, now0, |fills|)
    {
      ghost var g, was := G(), failed;
      if !failed {
        Goes(sizes, events, i, samples0, started0, now0, samples, started, now);
      }
      var ok;
      ghost var m;
      ok, m := Step(events[i], commands[i]);
      states', sessions' := TaleGrows(cfg, sizes.symbols, was, failed, events, commands, i, first, g, G(), states,
        sessions, m);
      if sound && failed {
        Ends(sizes, events, i, samples0, started0, now0, |fills|, was);
      }
    }

    method Store(cash': real, positions': seq<Position>, orders': seq<Order>, fills': seq<Fill>, nextId': nat,
        ghost g: State)
      requires g.cash == cash' && g.positions == positions' && g.orders == orders' && g.fills == fills' &&
               g.nextId == nextId'
      modifies this`cash, this`positions, this`orders, this`fills, this`nextId, this`subs
      ensures G() == g
    {
      cash, positions, orders, fills, nextId, subs := cash', positions', orders', fills', nextId', g.subs;
    }
  }

  lemma DeskStarts(cfg: Settings, g: State, symbol: nat, side: Side, quoted: Book, book: Book, fills: seq<Fill>)
    requires Sound(cfg, g) && symbol < |g.positions| && LeftOf(quoted.asks, book.asks, fills, Buy) &&
             LeftOf(quoted.bids, book.bids, fills, Sell)
    ensures DeskOk(cfg, DeskFor(side, g.cash, g.positions[symbol], book))
  {
    assert MoneyOk(cfg, g) by { assert Unfold(0); }
  }

  /** Live, of this symbol, submitted strictly before now and at least the latency ago. */
  predicate Eligible(cfg: Settings, o: Order, symbol: nat, now: nat) {
    o.remaining != 0 && o.symbol == symbol && o.sent < now && now - o.sent >= cfg.latency
  }

  /** The queue is exactly the eligible orders, in priority order. */
  ghost predicate IsQueue(cfg: Settings, orders: seq<Order>, symbol: nat, now: nat, queue: seq<nat>) {
    QueueOk(orders, queue) && (forall i :: 0 <= i < |queue| ==> Eligible(cfg, orders[queue[i]], symbol, now)) &&
    forall i :: 0 <= i < |orders| && Eligible(cfg, orders[i], symbol, now) ==> i in queue
  }

  lemma QueueFrom(cfg: Settings, g: State, symbol: nat, now: nat, indices: seq<nat>, queue: seq<nat>)
    requires Sound(cfg, g) && multiset(queue) == multiset(indices) && InPriority(g.orders, queue)
    requires forall i ::
               0 <= i < |indices| ==> indices[i] < |g.orders| && Eligible(cfg, g.orders[indices[i]], symbol, now)
    requires forall i, j :: 0 <= i < j < |indices| ==> indices[i] < indices[j]
    requires forall i :: 0 <= i < |g.orders| && Eligible(cfg, g.orders[i], symbol, now) ==> i in indices
    ensures IsQueue(cfg, g.orders, symbol, now, queue)
  {
    assert OrdersOk(g) by { assert Unfold(0); }
    forall i | 0 <= i < |queue| ensures queue[i] in indices {
      assert queue[i] in multiset(queue);
    }
    forall i | i in indices ensures i in queue {
      assert i in multiset(indices);
    }
    OnceEach(indices, queue);
    forall i | 0 <= i < |queue| ensures OrderOk(g, g.orders[queue[i]]) && g.orders[queue[i]].remaining > 0 {
      var k :| 0 <= k < |indices| && indices[k] == queue[i];
    }
    forall i, j | 0 <= i < j < |queue| ensures g.orders[queue[i]].id != g.orders[queue[j]].id {
      assert queue[i] != queue[j] && g.orders[queue[i]].id in g.subs;
    }
  }

  lemma {:induction false} StrictlyOnce(s: seq<nat>, x: nat)
    requires forall i, j :: 0 <= i < j < |s| ==> s[i] < s[j]
    ensures multiset(s)[x] <= 1
  {
    if s != [] {
      var last := |s| - 1;
      StrictlyOnce(s[..last], x);
      assert s == s[..last] + [s[last]];
      if s[last] == x {
        assert x !in s[..last];
        assert x !in multiset(s[..last]);
      }
    }
  }

  /** A rearrangement of distinct indices is distinct. */
  lemma OnceEach(indices: seq<nat>, queue: seq<nat>)
    requires multiset(queue) == multiset(indices) && forall i, j :: 0 <= i < j < |indices| ==> indices[i] < indices[j]
    ensures forall i, j :: 0 <= i < j < |queue| ==> queue[i] != queue[j]
  {
    forall i, j | 0 <= i < j < |queue| ensures queue[i] != queue[j] {
      StrictlyOnce(indices, queue[i]);
      assert queue == queue[..i] + [queue[i]] + queue[i + 1..j] + [queue[j]] + queue[j + 1..];
    }
  }

  /** The matching of one snapshot: the order tables before and after, the queue, the quotes and
      what is left of them, the fills, and cash and holding before and after. It is incomplete
      when the event was refused or the fill buffer ran full. */
  datatype Session = Session(matched: bool, complete: bool, was: seq<Order>, after: seq<Order>, queue: seq<nat>,
                             quoted: Book, left: Book, fills: seq<Fill>, start: Stand, end: Stand)

  function NoSession(complete: bool): Session {
    Session(false, complete, [], [], [], Book([], []), Book([], []), [], Stand(0.0, 0), Stand(0.0, 0))
  }

  /** The order is live, of the symbol, sent strictly before now and at least the latency ago. */
  ghost predicate Due(cfg: Settings, now: nat, symbol: nat, o: Order) {
    o.remaining > 0 && o.symbol == symbol && o.sent < now && now >= o.sent + cfg.latency
  }

  /** Price-time priority over the order slots: of two due orders of one side, one that was filled
      leaves nothing of one that goes first, be it a market order before a limit order, the more
      aggressive limit, or the smaller identifier at the same limit. */
  ghost predicate PriceTime(cfg: Settings, now: nat, symbol: nat, m: Session) {
    |m.after| == |m.was| &&
    forall i, j {:trigger m.was[i], m.was[j]} :: 0 <= i < |m.was| && 0 <= j < |m.was| ==>
      var a, b := m.was[i], m.was[j];
      Due(cfg, now, symbol, a) && Due(cfg, now, symbol, b) && a.side == b.side && FilledOf(m.fills, b.id) > 0 &&
      ((a.limit == 0 && b.limit != 0) || (a.limit == b.limit && a.id < b.id) ||
       (a.limit != 0 && b.limit != 0 && if a.side == Buy then a.limit > b.limit else a.limit < b.limit)) ==>
        m.after[i].remaining == 0
  }

  /** Every due order is served, and no other order changes. */
  ghost predicate EachServed(cfg: Settings, now: nat, symbol: nat, m: Session) {
    |m.after| == |m.was| &&
    forall i {:trigger m.was[i]} :: 0 <= i < |m.was| ==>
      if Due(cfg, now, symbol, m.was[i]) then
        m.after[i] == m.was[i].(remaining := m.after[i].remaining) && m.after[i].remaining >= 0 &&
        Remains(m.was[i], m.after[i], m.fills) &&
        (m.complete ==> Served(cfg, m.was[i], m.after[i], m.fills, AfterBuys(m.start, m.fills), m.end, m.left))
      else m.after[i] == m.was[i]
  }

  /** One snapshot's matching: every due order is served in price-time priority, every fill is from
      a quoted level, every level short by exactly what was taken from it, and nothing but the
      remainders of due orders changed. In a complete one what is unfilled of a due order was kept
      out by risk at the end of its side's pass, and its remainder is exactly what `Kept` says. */
  ghost predicate MatchedAll(cfg: Settings, now: nat, symbol: nat, m: Session) {
    EachServed(cfg, now, symbol, m) && PriceTime(cfg, now, symbol, m) &&
    FromQuotes(cfg, now, symbol, m.quoted, m.fills) &&
    LeftOf(m.quoted.asks, m.left.asks, m.fills, Buy) && LeftOf(m.quoted.bids, m.left.bids, m.fills, Sell)
  }

  /** What one event does: fills only as the matching says, and the strategy's calls on the
      order slots the matching left, unless the event was refused or cut short. */
  ghost predicate Stepped(cfg: Settings, symbols: nat, e: Event, commands: seq<Command>, g: State, g': State,
      m: Session) {
    Accounted(cfg, e, g, g', m) &&
    var left := Table(if m.matched then m.after else g.orders, g.nextId);
    Table(g'.orders, g'.nextId) == if m.complete then ObeyedAll(cfg, symbols, e.time, left, commands) else left
  }

  /** The event before the strategy's calls. */
  ghost predicate Taken(cfg: Settings, e: Event, g: State, g': State, m: Session) {
    Accounted(cfg, e, g, g', m) && g'.nextId == g.nextId && g'.orders == if m.matched then m.after else g.orders
  }

  /** Both, folded. */
  ghost predicate StepDone(cfg: Settings, symbols: nat, e: Event, commands: seq<Command>, g: State, g': State,
      m: Session) {
    forall n :: Unfold(n) ==> Stepped(cfg, symbols, e, commands, g, g', m)
  }

  ghost predicate Took(cfg: Settings, e: Event, g: State, g': State, m: Session) {
    forall n :: Unfold(n) ==> Taken(cfg, e, g, g', m)
  }

  lemma OpenStep(cfg: Settings, symbols: nat, e: Event, commands: seq<Command>, g: State, g': State, m: Session)
    requires StepDone(cfg, symbols, e, commands, g, g', m)
    ensures Stepped(cfg, symbols, e, commands, g, g', m)
  {
    assert Unfold(0);
  }

  lemma SealTook(cfg: Settings, e: Event, g: State, g': State, m: Session)
    requires Taken(cfg, e, g, g', m)
    ensures Took(cfg, e, g, g', m)
  {
  }

  lemma ThenCalls(cfg: Settings, symbols: nat, e: Event, commands: seq<Command>, g: State, taken: State, g': State,
      m: Session)
    requires Took(cfg, e, g, taken, m)
    requires g'.fills == taken.fills && g'.cash == taken.cash && g'.positions == taken.positions
    requires var left := Table(taken.orders, taken.nextId);
             Table(g'.orders, g'.nextId) == if m.complete then ObeyedAll(cfg, symbols, e.time, left, commands) else left
    ensures StepDone(cfg, symbols, e, commands, g, g', m)
  {
    assert Taken(cfg, e, g, taken, m) by { assert Unfold(0); }
    assert Stepped(cfg, symbols, e, commands, g, g', m);
  }

  lemma NotTaken(cfg: Settings, symbols: nat, e: Event, commands: seq<Command>, g: State)
    ensures Stepped(cfg, symbols, e, commands, g, g, NoSession(false))
  {
    assert g.fills + [] == g.fills;
  }

  ghost predicate Accounted(cfg: Settings, e: Event, g: State, g': State, m: Session) {
    g'.fills == g.fills + m.fills && |g'.positions| == |g.positions| &&
    if !m.matched then m.fills == [] && g'.cash == g.cash && g'.positions == g.positions
    else
      e.symbol < |g.positions| && m.was == g.orders && m.quoted == e.book && MatchedAll(cfg, e.time, e.symbol, m) &&
      m.start == StandOf(g.cash, g.positions[e.symbol]) && m.end == StandOf(g'.cash, g'.positions[e.symbol]) &&
      forall s {:trigger g'.positions[s]} ::
          0 <= s < |g.positions| && s != e.symbol ==> g'.positions[s] == g.positions[s]
  }

  /** The states of a replay, one more than its events, and what happened between them. */
  ghost predicate Chronicle(cfg: Settings, symbols: nat, events: seq<Event>, commands: seq<seq<Command>>,
      states: seq<State>, sessions: seq<Session>) {
    |states| == |events| + 1 && |sessions| == |events| == |commands| &&
    forall i {:trigger sessions[i]} ::
        0 <= i < |events| ==> Stepped(cfg, symbols, events[i], commands[i], states[i], states[i + 1], sessions[i])
  }

  /** Every snapshot was matched, and completely. */
  ghost predicate AllMatched(events: seq<Event>, sessions: seq<Session>) {
    |sessions| == |events| && forall i {:trigger sessions[i]} :: 0 <= i < |events| ==>
      (sessions[i].matched <==> events[i].kind != Bar) && sessions[i].complete
  }

  /** What a replay keeps after `n` events, folded. */
  ghost predicate Tale(cfg: Settings, symbols: nat, failed: bool, events: seq<Event>, commands: seq<seq<Command>>,
      n: nat, first: State, last: State, states: seq<State>, sessions: seq<Session>) {
    forall u :: Unfold(u) ==>
      n <= |events| == |commands| && Chronicle(cfg, symbols, events[..n], commands[..n], states, sessions) &&
      states[0] == first && states[n] == last && (!failed ==> AllMatched(events[..n], sessions))
  }

  lemma TaleStarts(cfg: Settings, symbols: nat, failed: bool, events: seq<Event>, commands: seq<seq<Command>>, g: State)
    requires |commands| == |events|
    ensures Tale(cfg, symbols, failed, events, commands, 0, g, g, [g], [])
  {
  }

  lemma TaleGrows(cfg: Settings, symbols: nat, was: bool, failed: bool, events: seq<Event>,
      commands: seq<seq<Command>>, n: nat, first: State, last: State, g: State, states: seq<State>,
      sessions: seq<Session>, m: Session)
      returns (states': seq<State>, sessions': seq<Session>)
    requires n < |events| == |commands| &&
             Tale(cfg, symbols, was, events, commands, n, first, last, states, sessions)
    requires Stepped(cfg, symbols, events[n], commands[n], last, g, m) && (was ==> failed)
    requires !failed ==> (m.matched <==> events[n].kind != Bar) && m.complete
    ensures Tale(cfg, symbols, failed, events, commands, n + 1, first, g, states', sessions')
  {
    states', sessions' := states + [g], sessions + [m];
    assert events[..n + 1] == events[..n] + [events[n]] && commands[..n + 1] == commands[..n] + [commands[n]];
    assert Unfold(0);
    ChronicleGrows(cfg, symbols, events[..n], commands[..n], states, sessions, events[n], commands[n], g, m);
  }

  lemma TaleEnds(cfg: Settings, symbols: nat, failed: bool, events: seq<Event>, commands: seq<seq<Command>>,
      first: State, last: State, states: seq<State>, sessions: seq<Session>)
    requires Tale(cfg, symbols, failed, events, commands, |events|, first, last, states, sessions)
    ensures Chronicle(cfg, symbols, events, commands, states, sessions) && states[0] == first &&
            states[|events|] == last
    ensures !failed ==> AllMatched(events, sessions)
  {
    assert Unfold(0);
    assert events[..|events|] == events && commands[..|events|] == commands;
  }

  lemma Audit(cfg: Settings, g: State)
    requires Sound(cfg, g)
    ensures MoneyOk(cfg, g) && NetsOk(g) && OrdersOk(g) && FillsOk(cfg, g)
  {
    assert Unfold(0);
  }

  lemma ChronicleGrows(cfg: Settings, symbols: nat, events: seq<Event>, commands: seq<seq<Command>>,
      states: seq<State>, sessions: seq<Session>, e: Event, calls: seq<Command>, g: State, m: Session)
    requires Chronicle(cfg, symbols, events, commands, states, sessions) &&
             Stepped(cfg, symbols, e, calls, states[|events|], g, m)
    ensures Chronicle(cfg, symbols, events + [e], commands + [calls], states + [g], sessions + [m])
  {
  }

  predicate QuotesOk(book: Book) {
    (forall k :: 0 <= k < |book.asks| ==> book.asks[k].qty >= 0) &&
    (forall k :: 0 <= k < |book.bids| ==> book.bids[k].qty >= 0) &&
    Rising(book.asks)
  }

  lemma {:induction false} RisesTo(asks: seq<Level>, i: nat, j: nat)
    requires i <= j < |asks| && asks[j].price != 0 && forall k :: 0 <= k < |asks| ==> asks[k].price >= 0
    requires forall k ::
               1 <= k < |asks| && asks[k].price != 0 ==> asks[k - 1].price != 0 && asks[k].price > asks[k - 1].price
    ensures asks[i].price <= asks[j].price
  {
    if i < j {
      RisesTo(asks, i, j - 1);
    }
  }

  lemma UsableQuotes(e: Event, symbols: nat, depth: nat)
    requires Usable(e, symbols, depth) && e.kind != Bar
    ensures QuotesOk(e.book)
  {
    var asks := e.book.asks;
    forall k | 0 <= k < |asks| ensures LevelOk(asks[k]) && LevelOk(e.book.bids[k]) {
    }
    forall i, j | 0 <= i < j < |asks| && asks[j].qty > 0 ensures 0 <= asks[i].price <= asks[j].price {
      RisesTo(asks, i, j);
    }
  }

  lemma MatchingStarts(cfg: Settings, g: State, symbol: nat, now: nat, queue: seq<nat>, quoted: Book, start: Stand)
    requires Sound(cfg, g) && IsQueue(cfg, g.orders, symbol, now, queue) && QuotesOk(quoted)
    ensures Far(cfg, now, symbol, g.orders, quoted, queue, 0, g.orders, quoted, [])
    ensures Fair(cfg, g.orders, queue, 0, g.orders, quoted, [], start, start)
  {
    assert OrdersOk(g) by { assert Unfold(0); }
    assert (forall k :: TakenFrom([], Buy, k) == 0) && (forall k :: TakenFrom([], Sell, k) == 0) &&
           forall id :: FilledOf([], id) == 0;
    forall i | 0 <= i < |g.orders| ensures g.orders[i].remaining >= 0 {
      assert OrderOk(g, g.orders[i]);
    }
    SealFar(cfg, now, symbol, g.orders, quoted, queue, 0, g.orders, quoted, []);
    assert AfterBuys(start, []) == start;
    SealFair(cfg, g.orders, queue, 0, g.orders, quoted, [], start, start);
  }

  lemma MatchingEnds(cfg: Settings, g: State, now: nat, symbol: nat, n: nat, m: Session)
    requires Sound(cfg, g) && m.was == g.orders
    requires Far(cfg, now, symbol, m.was, m.quoted, m.queue, n, m.after, m.left, m.fills)
    requires m.complete ==> n == |m.queue| && Fair(cfg, m.was, m.queue, n, m.after, m.left, m.fills, m.start, m.end)
    ensures MatchedAll(cfg, now, symbol, m)
  {
    assert IsQueue(cfg, m.was, symbol, now, m.queue) &&
           Progress(m.was, m.quoted, m.queue, n, m.after, m.left, m.fills) &&
           FromQuotes(cfg, now, symbol, m.quoted, m.fills) &&
           (m.complete ==> AllServed(cfg, m.was, m.queue, n, m.after, m.fills, AfterBuys(m.start, m.fills), m.end,
           m.left)) by { assert Unfold(0); }
    forall i | 0 <= i < |m.was| ensures m.was[i].remaining >= 0 {
      RemainderKept(cfg, g, i);
    }
    SlotsServed(cfg, now, symbol, n, m);
    SlotsInTime(cfg, now, symbol, n, m);
  }

  lemma RemainderKept(cfg: Settings, g: State, i: nat)
    requires Sound(cfg, g) && i < |g.orders|
    ensures g.orders[i].remaining >= 0
  {
    assert OrdersOk(g) by { assert Unfold(0); }
    assert OrderOk(g, g.orders[i]);
  }

  /** The queue holds exactly the due orders. */
  lemma DueIsQueued(cfg: Settings, now: nat, symbol: nat, orders: seq<Order>, queue: seq<nat>, i: nat)
    requires IsQueue(cfg, orders, symbol, now, queue) && i < |orders| && orders[i].remaining >= 0
    ensures Due(cfg, now, symbol, orders[i]) <==> i in queue
  {
    assert Due(cfg, now, symbol, orders[i]) <==> Eligible(cfg, orders[i], symbol, now);
    if i in queue {
      var k :| 0 <= k < |queue| && queue[k] == i;
    }
  }

  lemma SlotsServed(cfg: Settings, now: nat, symbol: nat, n: nat, m: Session)
    requires IsQueue(cfg, m.was, symbol, now, m.queue) && forall i :: 0 <= i < |m.was| ==> m.was[i].remaining >= 0
    requires Progress(m.was, m.quoted, m.queue, n, m.after, m.left, m.fills)
    requires m.complete ==> n == |m.queue|
    requires m.complete ==>
               AllServed(cfg, m.was, m.queue, n, m.after, m.fills, AfterBuys(m.start, m.fills), m.end, m.left)
    ensures EachServed(cfg, now, symbol, m)
  {
    forall i {:trigger m.was[i]} | 0 <= i < |m.was|
      ensures if Due(cfg, now, symbol, m.was[i]) then
                m.after[i] == m.was[i].(remaining := m.after[i].remaining) && m.after[i].remaining >= 0 &&
                Remains(m.was[i], m.after[i], m.fills) &&
                (m.complete ==> Served(cfg, m.was[i], m.after[i], m.fills, AfterBuys(m.start, m.fills), m.end, m.left))
              else m.after[i] == m.was[i]
    {
      DueIsQueued(cfg, now, symbol, m.was, m.queue, i);
      assert m.after[i] == m.after[i];
      if i in m.queue {
        var k :| 0 <= k < |m.queue| && m.queue[k] == i;
        assert k < n || m.after[i] == m.was[i];
      }
    }
  }

  lemma SlotsInTime(cfg: Settings, now: nat, symbol: nat, n: nat, m: Session)
    requires IsQueue(cfg, m.was, symbol, now, m.queue) && forall i :: 0 <= i < |m.was| ==> m.was[i].remaining >= 0
    requires Progress(m.was, m.quoted, m.queue, n, m.after, m.left, m.fills)
    ensures PriceTime(cfg, now, symbol, m)
  {
    forall i, j {:trigger m.was[i], m.was[j]} | 0 <= i < |m.was| && 0 <= j < |m.was| &&
      Due(cfg, now, symbol, m.was[i]) && Due(cfg, now, symbol, m.was[j]) && m.was[i].side == m.was[j].side &&
      FilledOf(m.fills, m.was[j].id) > 0 && Ahead(m.was[i], m.was[j])
      ensures m.after[i].remaining == 0
    {
      DueIsQueued(cfg, now, symbol, m.was, m.queue, i);
      DueIsQueued(cfg, now, symbol, m.was, m.queue, j);
      var a :| 0 <= a < |m.queue| && m.queue[a] == i;
      var b :| 0 <= b < |m.queue| && m.queue[b] == j;
      assert a < b;
      assert b < n;
    }
  }

  /** The state after one order's pass, still sound. */
  lemma DealMade(cfg: Settings, now: nat, g: State, i: nat, o: Order, o': Order, d: Desk, d': Desk, fl: seq<Fill>)
      returns (g': State)
    requires i < |g.orders| && o == g.orders[i] && o.remaining > 0 && o.symbol < |g.positions| && d.cash == g.cash &&
             d.p == g.positions[o.symbol]
    requires o.sent < now && now - o.sent >= cfg.latency && Passed(cfg, now, o, o', d, d', fl) && Sound(cfg, g)
    ensures o'.symbol == o.symbol && g' == Dealt(g, i, o', d', fl) && Sound(cfg, g')
  {
    assert Pass(cfg, now, o, o', d, d', fl) by { assert Unfold(0); }
    DealKeeps(cfg, now, g, i, o, o', d, d', fl);
    g' := Dealt(g, i, o', d', fl);
  }

  lemma {:induction false} UnknownZero(fills: seq<Fill>, id: nat)
    requires forall i :: 0 <= i < |fills| ==> fills[i].orderId != id
    ensures FilledOf(fills, id) == 0
  {
    if fills != [] {
      UnknownZero(fills[..|fills| - 1], id);
    }
  }

  function Submitted(g: State, i: nat, o: Order): State
    requires i < |g.orders|
  {
    g.(orders := g.orders[i := o], nextId := o.id,
    subs := g.subs[o.id := Submission(o.sent, o.symbol, o.side, o.remaining, o.limit)])
  }

  /** A fresh identifier has no fills yet, and reusing an idle slot loses nothing. */
  lemma SubmitKeeps(cfg: Settings, g: State, i: nat, o: Order)
    requires Sound(cfg, g) && i < |g.orders| && g.orders[i].remaining == 0 && o.id == g.nextId + 1 &&
             o.symbol < |g.positions|
    requires o.remaining > 0 && o.limit >= 0
    ensures o.id !in g.subs && Sound(cfg, Submitted(g, i, o))
  {
    var g' := Submitted(g, i, o);
    assert MoneyOk(cfg, g') && NetsOk(g') by { assert MoneyOk(cfg, g) && NetsOk(g) by { assert Unfold(0); } }
    assert OrdersOk(g) && FillsOk(cfg, g) by { assert Unfold(0); }
    UnknownZero(g.fills, o.id);
    SubmitOrders(cfg, g, i, o);
    assert FillsOk(cfg, g');
  }

  lemma SubmitOrders(cfg: Settings, g: State, i: nat, o: Order)
    requires OrdersOk(g) && i < |g.orders| && o.id == g.nextId + 1 && o.symbol < |g.positions| && o.remaining > 0 &&
             o.limit >= 0
    requires FilledOf(g.fills, o.id) == 0
    ensures OrdersOk(Submitted(g, i, o))
  {
    var g' := Submitted(g, i, o);
    forall j | 0 <= j < |g'.orders| ensures OrderOk(g', g'.orders[j]) && (j != i ==> g'.orders[j].id < o.id) {
      if j != i {
        assert OrderOk(g, g.orders[j]);
      }
    }
  }

  lemma WithdrawKeeps(cfg: Settings, g: State, i: nat)
    requires Sound(cfg, g) && i < |g.orders|
    ensures Sound(cfg, g.(orders := g.orders[i := g.orders[i].(remaining := 0)]))
    ensures g.orders[i].remaining > 0 ==> forall j :: 0 <= j < |g.orders| && j != i ==> g.orders[j].id != g.orders[i].id
  {
    var g' := g.(orders := g.orders[i := g.orders[i].(remaining := 0)]);
    assert MoneyOk(cfg, g') && NetsOk(g') by { assert MoneyOk(cfg, g) && NetsOk(g) by { assert Unfold(0); } }
    assert FillsOk(cfg, g') by { assert FillsOk(cfg, g) by { assert Unfold(0); } }
    assert OrdersOk(g) by { assert Unfold(0); }
    assert OrderOk(g, g.orders[i]);
    forall j | 0 <= j < |g'.orders| ensures OrderOk(g', g'.orders[j]) {
      assert OrderOk(g, g.orders[j]);
    }
    assert OrdersOk(g');
  }

  lemma {:induction false} IdleTotals(ps: seq<Position>)
    requires forall s :: 0 <= s < |ps| ==> ps[s] == Position(0, 0.0, 0.0)
    ensures TotalCost(ps) == TotalRealized(ps) == 0.0
  {
    if ps != [] {
      IdleTotals(ps[..|ps| - 1]);
    }
  }

  lemma StartsSound(cfg: Settings, g: State)
    requires cfg.Valid() && g.cash == cfg.initialCash && g.fills == [] && g.nextId == 0 && g.subs == map[]
    requires forall s :: 0 <= s < |g.positions| ==> g.positions[s] == Position(0, 0.0, 0.0)
    requires forall i :: 0 <= i < |g.orders| ==> g.orders[i] == Order(0, 0, 0, Buy, 0, 0)
    ensures Sound(cfg, g)
  {
    IdleTotals(g.positions);
    assert MoneyOk(cfg, g);
  }
}
