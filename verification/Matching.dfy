/** Matching one resting order against one quoted side of a historical snapshot. Amounts of
    money are exact reals; prices and quantities are integers. */
module Matching {
  import opened Folding

  datatype Side = Buy | Sell

  datatype Level = Level(price: int, qty: int)

  datatype Position = Position(qty: int, cost: real, realized: real)

  /** limit 0 is a market order. */
  datatype Order = Order(id: nat, sent: nat, symbol: nat, side: Side, remaining: int, limit: int)

  /** `level` is the index of the quoted level the fill came from. */
  datatype Fill = Fill(time: nat, orderId: nat, symbol: nat, side: Side, qty: int, price: int,
                       commission: real, slippage: real, realized: real, level: nat)

  datatype Settings = Settings(initialCash: real, commissionBps: real, slippageBps: real, maxPosition: int,
      latency: nat)
  {
    predicate Valid() {
      0.0 < initialCash && 0.0 <= commissionBps <= 1000.0 && 0.0 <= slippageBps <= 1000.0 && 0 < maxPosition
    }
  }

  function Min(a: int, b: int): int {
    if a < b then a else b
  }

  function Ceil(x: real): int {
    -((-x).Floor)
  }

  function Slip(cfg: Settings, price: int): int {
    Ceil(price as real * cfg.slippageBps / 10000.0)
  }

  /** The execution price at a quoted price: worse by the slippage. */
  function Px(cfg: Settings, side: Side, price: int): int {
    if side == Buy then price + Slip(cfg, price) else price - Slip(cfg, price)
  }

  /** A buyer pays the quoted price plus the slippage, rounded up to a whole price; a seller gets
      the quoted price less it. */
  lemma SlippedPrice(cfg: Settings, price: int)
    ensures var exact := price as real * cfg.slippageBps / 10000.0;
            price as real + exact <= Px(cfg, Buy, price) as real < price as real + exact + 1.0 &&
            price as real - exact - 1.0 < Px(cfg, Sell, price) as real <= price as real - exact
  {
  }

  predicate Acceptable(cfg: Settings, o: Order, price: int) {
    var px := Px(cfg, o.side, price);
    px > 0 && (o.limit == 0 || (if o.side == Buy then px <= o.limit else px >= o.limit))
  }

  /** A level is acceptable when its price with the exact slippage is no worse than the limit; a
      market order takes any, as long as a positive price is left. */
  lemma AcceptsIff(cfg: Settings, o: Order, price: int, exact: real)
    requires exact == price as real * cfg.slippageBps / 10000.0
    ensures Acceptable(cfg, o, price) <==>
            (if o.side == Buy then price as real + exact > 0.0 else price as real - exact >= 1.0) &&
            (o.limit == 0 || (if o.side == Buy then price as real + exact <= o.limit as real
                              else price as real - exact >= o.limit as real))
  {
    RoundedUp(price, o.limit, exact, Slip(cfg, price));
  }

  lemma RoundedUp(price: int, limit: int, exact: real, slip: int)
    requires slip == Ceil(exact)
    ensures price + slip > 0 <==> price as real + exact > 0.0
    ensures price - slip > 0 <==> price as real - exact >= 1.0
    ensures price + slip <= limit <==> price as real + exact <= limit as real
    ensures price - slip >= limit <==> price as real - exact >= limit as real
  {
    CeilIff(exact, -price);
    CeilIff(exact, price - 1);
    CeilIff(exact, limit - price);
    CeilIff(exact, price - limit);
  }

  lemma CeilIff(x: real, n: int)
    ensures Ceil(x) <= n <==> x <= n as real
  {
  }

  function Value(qty: int, px: int): real {
    qty as real * (px as real / 100.0)
  }

  function Commission(cfg: Settings, notional: real): real {
    notional * cfg.commissionBps / 10000.0
  }

  /** Cash needed for one unit, commission included. */
  function Unit(cfg: Settings, px: int): real {
    px as real / 100.0 * (1.0 + cfg.commissionBps / 10000.0)
  }

  lemma UnitPositive(cfg: Settings, px: int)
    requires cfg.Valid() && px > 0
    ensures Unit(cfg, px) > 0.0
  {
    var scale := 1.0 + cfg.commissionBps / 10000.0;
    assert scale >= 1.0;
    assert px as real / 100.0 > 0.0;
  }

  /** A unit costs a hundredth of its price and the commission on that. */
  lemma UnitIsCost(cfg: Settings, px: int)
    ensures Unit(cfg, px) == Value(1, px) + Commission(cfg, Value(1, px))
    ensures 100.0 * Value(1, px) == px as real &&
            1000000.0 * (Unit(cfg, px) - Value(1, px)) == px as real * cfg.commissionBps
  {
    Price(cfg, 1, px);
  }

  /** Notional is proportional to the quantity, and commission to the notional. */
  lemma Proportional(cfg: Settings, a: int, b: int, px: int)
    ensures Value(a + b, px) == Value(a, px) + Value(b, px)
    ensures Commission(cfg, Value(a + b, px)) == Commission(cfg, Value(a, px)) + Commission(cfg, Value(b, px))
  {
    var v, c := px as real / 100.0, cfg.commissionBps;
    Spreads(a as real, b as real, v);
    Spreads(Value(a, px), Value(b, px), c);
  }

  lemma Spreads(x: real, y: real, u: real)
    ensures (x + y) * u == x * u + y * u
  {
  }

  /** Blocked is: one more unit would exceed the cap or the cash, or one less is not held. */
  lemma BlockedIffOneMore(cfg: Settings, side: Side, cash: real, held: int, px: int)
    ensures Blocked(cfg, side, cash, held, px) <==>
            if side == Buy then held + 1 > cfg.maxPosition || cash - Value(1, px) - Commission(cfg, Value(1, px)) < 0.0
            else held - 1 < 0
  {
    UnitIsCost(cfg, px);
  }

  /** The cost of a position leaves with its shares in proportion. */
  lemma BasisShares(p: Position, a: int, b: int)
    requires p.qty != 0
    ensures Basis(p, a + b) == Basis(p, a) + Basis(p, b) && Basis(p, p.qty) == p.cost
  {
    var q := p.qty as real;
    assert (a + b) as real / q == a as real / q + b as real / q;
    Spreads(a as real / q, b as real / q, p.cost);
    assert p.qty as real / q == 1.0;
  }

  /** What risk allows of a wanted quantity: the position cap and the cash for buys, the
      inventory for sells. */
  function Allowed(cfg: Settings, side: Side, cash: real, held: int, want: int, px: int): int
    requires cfg.Valid() && px > 0
  {
    UnitPositive(cfg, px);
    if side == Buy then
      Min(Min(want, cfg.maxPosition - held), ((if cash > 0.0 then cash else 0.0) / Unit(cfg, px)).Floor)
    else Min(want, held)
  }

  /** No unit can trade at this price: the cap is reached or the cash too short, or nothing is held. */
  predicate Blocked(cfg: Settings, side: Side, cash: real, held: int, px: int) {
    if side == Buy then held >= cfg.maxPosition || cash < Unit(cfg, px) else held <= 0
  }

  lemma BlockedIffNone(cfg: Settings, side: Side, cash: real, held: int, want: int, px: int)
    requires cfg.Valid() && px > 0 && want > 0 && cash >= 0.0
    ensures Allowed(cfg, side, cash, held, want, px) <= 0 <==> Blocked(cfg, side, cash, held, px)
  {
    UnitPositive(cfg, px);
    var u := Unit(cfg, px);
    Quotient(cash, u, (cash / u).Floor);
  }

  lemma Quotient(cash: real, u: real, q: int)
    requires cash >= 0.0 && u > 0.0 && q == (cash / u).Floor
    ensures q >= 0 && (q <= 0 <==> cash < u)
    ensures q as real * u <= cash < q as real * u + u
  {
    var x := cash / u;
    Divided(cash, u, x);
    Bracket(cash, u, x, q as real);
    OneUnit(cash, u, x);
  }

  /** A quotient between `r` and `r + 1` puts the dividend between those multiples. */
  lemma Bracket(cash: real, u: real, x: real, r: real)
    requires u > 0.0 && x * u == cash && r <= x < r + 1.0
    ensures r * u <= cash < r * u + u
  {
    ScaleLe(r, x, u);
    var over, top := r + 1.0 - x, r * u + u;
    ScaleLt(0.0, over, u);
    Spread(x, over, r, u, top);
  }

  lemma Spread(x: real, over: real, r: real, u: real, top: real)
    requires x + over == r + 1.0 && top == r * u + u
    ensures x * u + over * u == top
  {
    assert (x + over) * u == x * u + over * u;
    OneMore(r, u);
  }

  lemma OneUnit(cash: real, u: real, x: real)
    requires u > 0.0 && x * u == cash
    ensures x < 1.0 <==> cash < u
  {
    if x < 1.0 {
      ScaleLt(x, 1.0, u);
    } else {
      ScaleLe(1.0, x, u);
    }
  }

  lemma OneMore(m: real, u: real)
    ensures (m + 1.0) * u == m * u + u
  {
  }

  lemma Divided(cash: real, u: real, x: real)
    requires cash >= 0.0 && u > 0.0 && x == cash / u
    ensures x * u == cash && x >= 0.0
  {
  }

  lemma ScaleLe(a: real, b: real, u: real)
    requires a <= b && u > 0.0
    ensures a * u <= b * u
  {
  }

  lemma ScaleLt(a: real, b: real, u: real)
    requires a < b && u > 0.0
    ensures a * u < b * u
  {
  }

  /** Cash and position after a fill. */
  function Bought(cfg: Settings, p: Position, qty: int, px: int): Position {
    var notional := Value(qty, px);
    p.(qty := p.qty + qty, cost := p.cost + (notional + Commission(cfg, notional)))
  }

  /** The share of the cost that leaves with a sale. */
  function Basis(p: Position, qty: int): real
    requires p.qty != 0
  {
    p.cost * (qty as real / p.qty as real)
  }

  function Gain(cfg: Settings, p: Position, qty: int, px: int): real
    requires p.qty != 0
  {
    Value(qty, px) - Commission(cfg, Value(qty, px)) - Basis(p, qty)
  }

  function Sold(cfg: Settings, p: Position, qty: int, px: int): Position
    requires p.qty != 0
  {
    Position(p.qty - qty, if p.qty == qty then 0.0 else p.cost - Basis(p, qty), p.realized + Gain(cfg, p, qty, px))
  }

  /** After a sale the cost is to what it was as the shares kept are to the shares held. */
  lemma CostLeft(cfg: Settings, p: Position, qty: int, px: int)
    requires p.qty != 0
    ensures Sold(cfg, p, qty, px).cost * p.qty as real == p.cost * (p.qty - qty) as real
  {
    var held, sold := p.qty as real, qty as real;
    if p.qty != qty {
      Portion(p.cost, sold, held, sold / held);
    }
  }

  lemma Portion(cost: real, sold: real, held: real, share: real)
    requires share * held == sold
    ensures (cost - cost * share) * held == cost * (held - sold)
  {
    assert cost * share * held == cost * (share * held);
    assert (cost - cost * share) * held == cost * held - cost * share * held;
  }

  predicate PositionOk(cfg: Settings, p: Position) {
    0 <= p.qty <= cfg.maxPosition && p.cost >= 0.0
  }

  /** Paying for `qty` units of price `u` when the cash buys `most` and no more. */
  lemma Paid(cash: real, u: real, qty: real, most: real, due: real, limit: real)
    requires u > 0.0 && 0.0 <= qty <= most && due == qty * u && limit == most * u && limit <= cash < limit + u
    ensures 0.0 <= cash - due <= cash
    ensures qty == most ==> cash - due < u
  {
    ScaleLe(qty, most, u);
    Positive(qty, u);
  }

  lemma Positive(a: real, u: real)
    requires a >= 0.0 && u > 0.0
    ensures a * u >= 0.0
  {
  }

  /** A buy of an allowed quantity: the cash covers it, and what leaves the cash enters the cost.
      If risk was what limited it, the level is blocked afterwards. */
  lemma BuyKeeps(cfg: Settings, cash: real, p: Position, want: int, qty: int, px: int)
    requires cfg.Valid() && PositionOk(cfg, p) && cash >= 0.0 && px > 0
    requires qty == Allowed(cfg, Buy, cash, p.qty, want, px) > 0
    ensures var cash' := cash - (Value(qty, px) + Commission(cfg, Value(qty, px)));
            0.0 <= cash' <= cash && PositionOk(cfg, Bought(cfg, p, qty, px)) && qty <= want &&
            (qty < want ==> Blocked(cfg, Buy, cash', p.qty + qty, px))
  {
    UnitPositive(cfg, px);
    var u := Unit(cfg, px);
    Price(cfg, qty, px);
    var most := (cash / u).Floor;
    Quotient(cash, u, most);
    Paid(cash, u, qty as real, most as real, qty as real * u, most as real * u);
  }

  /** Notional plus commission is quantity times unit. */
  lemma Price(cfg: Settings, qty: int, px: int)
    ensures Value(qty, px) + Commission(cfg, Value(qty, px)) == qty as real * Unit(cfg, px)
  {
    var q, v, c := qty as real, px as real / 100.0, cfg.commissionBps / 10000.0;
    assert Commission(cfg, Value(qty, px)) == (q * v) * c;
    assert q * (v * (1.0 + c)) == q * v + (q * v) * c;
  }

  /** A sale of an allowed quantity: cash plus cost grows by exactly the realised gain. */
  lemma SellKeeps(cfg: Settings, cash: real, p: Position, want: int, qty: int, px: int)
    requires cfg.Valid() && PositionOk(cfg, p) && cash >= 0.0 && px > 0
    requires qty == Allowed(cfg, Sell, cash, p.qty, want, px) > 0
    ensures var cash' := cash + (Value(qty, px) - Commission(cfg, Value(qty, px)));
            var p' := Sold(cfg, p, qty, px);
            cash' >= cash && PositionOk(cfg, p') && cash' + p'.cost - p'.realized == cash + p.cost - p.realized &&
            qty <= want &&
            (qty < want ==> Blocked(cfg, Sell, cash', p.qty - qty, px))
  {
    var v, c := Value(qty, px), cfg.commissionBps / 10000.0;
    ScaleLe(0.0, qty as real, px as real / 100.0);
    assert Commission(cfg, v) == v * c;
    ScaleLess(v, c);
    Share(p.cost, qty, p.qty);
  }

  lemma ScaleLess(v: real, c: real)
    requires v >= 0.0 && 0.0 <= c <= 1.0
    ensures 0.0 <= v * c <= v
  {
  }

  lemma Share(cost: real, part: int, whole: int)
    requires cost >= 0.0 && 0 < part <= whole
    ensures 0.0 <= cost * (part as real / whole as real) <= cost
    ensures part == whole ==> cost * (part as real / whole as real) == cost
  {
    var r := part as real / whole as real;
    assert r * whole as real == part as real;
    assert 0.0 <= r <= 1.0;
    ScaleLess(cost, r);
  }

  // ----- One order against one side -----

  /** Quantity of the fills that belong to an order. */
  function FilledOf(fills: seq<Fill>, id: nat): int {
    if fills == [] then 0
    else FilledOf(fills[..|fills| - 1], id) + if fills[|fills| - 1].orderId == id then fills[|fills| - 1].qty else 0
  }

  /** Quantity taken from one level of a quoted side. */
  function TakenFrom(fills: seq<Fill>, side: Side, level: nat): int {
    if fills == [] then 0
    else
      var f := fills[|fills| - 1];
      TakenFrom(fills[..|fills| - 1], side, level) + if f.side == side && f.level == level then f.qty else 0
  }

  /** Signed quantity of the fills in a symbol. */
  function NetOf(fills: seq<Fill>, symbol: nat): int {
    if fills == [] then 0
    else
      var f := fills[|fills| - 1];
      NetOf(fills[..|fills| - 1], symbol) + if f.symbol != symbol then 0 else if f.side == Buy then f.qty else -f.qty
  }

  /** What a fill does to the cash. */
  function Flow(f: Fill): real {
    if f.side == Buy then -(Value(f.qty, f.price) + f.commission) else Value(f.qty, f.price) - f.commission
  }

  /** Cash flow of all fills. */
  function FlowOf(fills: seq<Fill>): real {
    if fills == [] then 0.0 else FlowOf(fills[..|fills| - 1]) + Flow(fills[|fills| - 1])
  }

  /** Gains reported by the fills in a symbol. */
  function GainOf(fills: seq<Fill>, symbol: nat): real {
    if fills == [] then 0.0
    else GainOf(fills[..|fills| - 1], symbol) + if fills[|fills| - 1].symbol == symbol then
      fills[|fills| - 1].realized else 0.0
  }

  lemma {:induction false} FlowOfConcat(a: seq<Fill>, b: seq<Fill>)
    ensures FlowOf(a + b) == FlowOf(a) + FlowOf(b)
  {
    if b == [] {
      assert a + b == a;
    } else {
      FlowOfConcat(a, b[..|b| - 1]);
      assert (a + b)[..|a + b| - 1] == a + b[..|b| - 1];
    }
  }

  lemma {:induction false} GainOfConcat(a: seq<Fill>, b: seq<Fill>, symbol: nat)
    ensures GainOf(a + b, symbol) == GainOf(a, symbol) + GainOf(b, symbol)
  {
    if b == [] {
      assert a + b == a;
    } else {
      GainOfConcat(a, b[..|b| - 1], symbol);
      assert (a + b)[..|a + b| - 1] == a + b[..|b| - 1];
    }
  }

  lemma {:induction false} FilledOfConcat(a: seq<Fill>, b: seq<Fill>, id: nat)
    ensures FilledOf(a + b, id) == FilledOf(a, id) + FilledOf(b, id)
  {
    if b == [] {
      assert a + b == a;
    } else {
      FilledOfConcat(a, b[..|b| - 1], id);
      assert (a + b)[..|a + b| - 1] == a + b[..|b| - 1];
    }
  }

  lemma {:induction false} TakenFromConcat(a: seq<Fill>, b: seq<Fill>, side: Side, level: nat)
    ensures TakenFrom(a + b, side, level) == TakenFrom(a, side, level) + TakenFrom(b, side, level)
  {
    if b == [] {
      assert a + b == a;
    } else {
      TakenFromConcat(a, b[..|b| - 1], side, level);
      assert (a + b)[..|a + b| - 1] == a + b[..|b| - 1];
    }
  }

  lemma {:induction false} NetOfConcat(a: seq<Fill>, b: seq<Fill>, symbol: nat)
    ensures NetOf(a + b, symbol) == NetOf(a, symbol) + NetOf(b, symbol)
  {
    if b == [] {
      assert a + b == a;
    } else {
      NetOfConcat(a, b[..|b| - 1], symbol);
      assert (a + b)[..|a + b| - 1] == a + b[..|b| - 1];
    }
  }

  /** Cash, position and quoted side while one order is matched. */
  datatype Desk = Desk(cash: real, p: Position, levels: seq<Level>)

  predicate DeskOk(cfg: Settings, d: Desk) {
    d.cash >= 0.0 && PositionOk(cfg, d.p) && forall k :: 0 <= k < |d.levels| ==> d.levels[k].qty >= 0
  }

  /** What cash and cost add up to beyond the realised gains. */
  function Worth(d: Desk): real {
    d.cash + d.p.cost - d.p.realized
  }

  /** A fill of this order from that level, at the slipped price and within the limit. */
  predicate FillOk(cfg: Settings, f: Fill, now: nat, o: Order, levels: seq<Level>) {
    f.time == now && f.orderId == o.id && f.symbol == o.symbol && f.side == o.side && f.qty > 0 && f.level < |levels| &&
    f.price == Px(cfg, o.side, levels[f.level].price) && Acceptable(cfg, o, levels[f.level].price) &&
    f.commission == Commission(cfg, Value(f.qty, f.price)) &&
    f.slippage == Value(f.qty, Slip(cfg, levels[f.level].price))
  }

  /** The order could still trade at this level. */
  predicate Wants(cfg: Settings, o: Order, d: Desk, k: nat)
    requires k < |d.levels|
  {
    d.levels[k].qty > 0 && Acceptable(cfg, o, d.levels[k].price)
  }

  /** An order with `left` unfilled is kept by risk alone out of every level that still has
      quantity at a price it accepts. */
  ghost predicate Waiting(cfg: Settings, o: Order, left: int, cash: real, held: int, levels: seq<Level>) {
    left > 0 ==>
      forall k {:trigger levels[k]} :: 0 <= k < |levels| && levels[k].qty > 0 && Acceptable(cfg, o, levels[k].price) ==>
        Blocked(cfg, o.side, cash, held, Px(cfg, o.side, levels[k].price))
  }

  /** The order has no fill from the level. */
  ghost predicate Untouched(fills: seq<Fill>, id: nat, k: nat) {
    forall i {:trigger fills[i]} :: 0 <= i < |fills| && fills[i].orderId == id ==> fills[i].level != k
  }

  /** A level that has quantity left at a price the order accepts, and of which it got nothing. */
  ghost predicate PassedOver(cfg: Settings, o: Order, levels: seq<Level>, fills: seq<Fill>) {
    exists k {:trigger levels[k]} ::
      0 <= k < |levels| && levels[k].qty > 0 && Acceptable(cfg, o, levels[k].price) && Untouched(fills, o.id, k)
  }

  /** What an order keeps of its remainder: a market order nothing, a limit order what is not
      filled, unless risk turned it away from a level. */
  ghost function Kept(cfg: Settings, o: Order, levels: seq<Level>, fills: seq<Fill>): int {
    if o.limit == 0 || PassedOver(cfg, o, levels, fills) then 0 else o.remaining - FilledOf(fills, o.id)
  }

  /** Quoted prices do not improve from level to level. */
  predicate Rising(levels: seq<Level>) {
    forall i, j :: 0 <= i < j < |levels| && levels[j].qty > 0 ==> 0 <= levels[i].price <= levels[j].price
  }

  /** A worse ask costs more, slippage and commission included. */
  lemma WorseCostsMore(cfg: Settings, p: int, q: int)
    requires cfg.Valid() && 0 <= p <= q
    ensures Px(cfg, Buy, p) <= Px(cfg, Buy, q) && Unit(cfg, Px(cfg, Buy, p)) <= Unit(cfg, Px(cfg, Buy, q))
  {
    var m, n := p as real * cfg.slippageBps, q as real * cfg.slippageBps;
    Scaled(p as real, q as real, cfg.slippageBps);
    SlipLe(cfg, p, q, m, n);
    UnitLe(cfg, Px(cfg, Buy, p), Px(cfg, Buy, q));
  }

  lemma SlipLe(cfg: Settings, p: int, q: int, m: real, n: real)
    requires m == p as real * cfg.slippageBps && n == q as real * cfg.slippageBps && m <= n
    ensures Slip(cfg, p) <= Slip(cfg, q)
  {
    CeilLe(m / 10000.0, n / 10000.0);
  }

  lemma UnitLe(cfg: Settings, x: int, y: int)
    requires cfg.Valid() && x <= y
    ensures Unit(cfg, x) <= Unit(cfg, y)
  {
    var u := 1.0 + cfg.commissionBps / 10000.0;
    var a, b := x as real / 100.0, y as real / 100.0;
    Scaled(a, b, u);
  }

  lemma CeilLe(x: real, y: real)
    requires x <= y
    ensures Ceil(x) <= Ceil(y)
  {
  }

  lemma Scaled(a: real, b: real, u: real)
    requires a <= b && u >= 0.0
    ensures a * u <= b * u
  {
    if u > 0.0 {
      ScaleLe(a, b, u);
    }
  }

  /** Blocked at one level, blocked at all worse ones. */
  lemma BlockedBehind(cfg: Settings, side: Side, d: Desk, i: nat, j: nat)
    requires cfg.Valid() && i <= j < |d.levels| && (side == Buy ==> Rising(d.levels)) && d.levels[j].qty > 0
    requires Blocked(cfg, side, d.cash, d.p.qty, Px(cfg, side, d.levels[i].price))
    ensures Blocked(cfg, side, d.cash, d.p.qty, Px(cfg, side, d.levels[j].price))
  {
    if side == Buy && i < j {
      WorseCostsMore(cfg, d.levels[i].price, d.levels[j].price);
    }
  }

  /** Later states of the same side: no more room, no more quoted quantity. */
  ghost predicate Tighter(side: Side, d: Desk, d': Desk) {
    |d.levels| == |d'.levels| &&
    (forall k {:trigger d'.levels[k]} ::
      0 <= k < |d.levels| ==> d'.levels[k].price == d.levels[k].price && d'.levels[k].qty <= d.levels[k].qty) &&
    (if side == Buy then d'.cash <= d.cash && d'.p.qty >= d.p.qty else d'.p.qty <= d.p.qty)
  }

  lemma WaitingStays(cfg: Settings, o: Order, left: int, d: Desk, d': Desk)
    requires Waiting(cfg, o, left, d.cash, d.p.qty, d.levels) && Tighter(o.side, d, d')
    ensures Waiting(cfg, o, left, d'.cash, d'.p.qty, d'.levels)
  {
    if left > 0 {
      forall k | 0 <= k < |d'.levels| && d'.levels[k].qty > 0 && Acceptable(cfg, o, d'.levels[k].price)
        ensures Blocked(cfg, o.side, d'.cash, d'.p.qty, Px(cfg, o.side, d'.levels[k].price))
      {
        assert d.levels[k].price == d'.levels[k].price;
      }
    }
  }

  /** One execution at a level: cash, position and the level move, and the fill is reported. */
  method Execute(cfg: Settings, now: nat, o: Order, d: Desk, k: nat, qty: int) returns (d': Desk, f: Fill)
    requires cfg.Valid() && DeskOk(cfg, d) && k < |d.levels| && Wants(cfg, o, d, k) && o.remaining > 0
    requires qty == Allowed(cfg, o.side, d.cash, d.p.qty, Min(o.remaining, d.levels[k].qty),
             Px(cfg, o.side, d.levels[k].price)) > 0
    ensures DeskOk(cfg, d') && Worth(d') == Worth(d) && Tighter(o.side, d, d') && FillOk(cfg, f, now, o, d.levels) &&
            f.level == k && f.qty == qty
    ensures qty <= o.remaining && d'.levels == d.levels[k := d.levels[k].(qty := d.levels[k].qty - qty)]
    ensures d'.p.qty == d.p.qty + if o.side == Buy then qty else -qty
    ensures qty < o.remaining && d'.levels[k].qty > 0 ==> Blocked(cfg, o.side, d'.cash, d'.p.qty, f.price)
    ensures f.realized == d'.p.realized - d.p.realized && d'.cash == d.cash + Flow(f)
    ensures o.side == Buy ==> d'.p.realized == d.p.realized && d'.p.cost - d.p.cost == d.cash - d'.cash
    ensures o.side == Sell ==> d'.p.cost * d.p.qty as real == d.p.cost * (d.p.qty - qty) as real
  {
    var px := Px(cfg, o.side, d.levels[k].price);
    var want := Min(o.remaining, d.levels[k].qty);
    var notional := Value(qty, px);
    var commission := Commission(cfg, notional);
    var slippage := Value(qty, Slip(cfg, d.levels[k].price));
    var levels := d.levels[k := d.levels[k].(qty := d.levels[k].qty - qty)];
    if o.side == Buy {
      BuyKeeps(cfg, d.cash, d.p, want, qty, px);
      d' := Desk(d.cash - (notional + commission), Bought(cfg, d.p, qty, px), levels);
      f := Fill(now, o.id, o.symbol, o.side, qty, px, commission, slippage, 0.0, k);
    } else {
      SellKeeps(cfg, d.cash, d.p, want, qty, px);
      CostLeft(cfg, d.p, qty, px);
      var p := Sold(cfg, d.p, qty, px);
      d' := Desk(d.cash + (notional - commission), p, levels);
      f := Fill(now, o.id, o.symbol, o.side, qty, px, commission, slippage, Gain(cfg, d.p, qty, px), k);
    }
  }

  datatype Outcome = Matched | OutOfFills

  /** Everything one order's pass over the levels from `d` to `d'` promises. */
  ghost predicate Passed(cfg: Settings, now: nat, o: Order, o': Order, d: Desk, d': Desk, fills: seq<Fill>) {
    DeskOk(cfg, d') && |d'.levels| == |d.levels| && o' == o.(remaining := o'.remaining) && o'.remaining >= 0 &&
    forall n :: Unfold(n) ==> Pass(cfg, now, o, o', d, d', fills)
  }

  ghost predicate Pass(cfg: Settings, now: nat, o: Order, o': Order, d: Desk, d': Desk, fills: seq<Fill>) {
    Worth(d') == Worth(d) && Tighter(o.side, d, d') &&
    (forall i {:trigger fills[i]} :: 0 <= i < |fills| ==> FillOk(cfg, fills[i], now, o, d.levels)) &&
    0 <= FilledOf(fills, o.id) <= o.remaining &&
    (o'.remaining == o.remaining - FilledOf(fills, o.id) || o'.remaining == 0) &&
    (forall k {:trigger d'.levels[k]} ::
      0 <= k < |d.levels| ==> d'.levels[k].qty == d.levels[k].qty - TakenFrom(fills, o.side, k)) &&
    d'.p.qty == d.p.qty + NetOf(fills, o.symbol) &&
    d'.cash == d.cash + FlowOf(fills) && d'.p.realized == d.p.realized + GainOf(fills, o.symbol)
  }

  lemma PassStep(cfg: Settings, now: nat, o: Order, o1: Order, d: Desk, d1: Desk, d2: Desk, fills: seq<Fill>, f: Fill,
      k: nat, qty: int)
    requires Passed(cfg, now, o, o1, d, d1, fills) && k < |d.levels| && 0 < qty <= o1.remaining
    requires DeskOk(cfg, d2) && Worth(d2) == Worth(d1) && Tighter(o.side, d1, d2) &&
             FillOk(cfg, f, now, o1, d1.levels) && f.level == k && f.qty == qty
    requires d2.levels == d1.levels[k := d1.levels[k].(qty := d1.levels[k].qty - qty)]
    requires d2.p.qty == d1.p.qty + if o.side == Buy then qty else -qty
    requires f.realized == d2.p.realized - d1.p.realized && d2.cash == d1.cash + Flow(f)
    ensures Passed(cfg, now, o, o1.(remaining := o1.remaining - qty), d, d2, fills + [f])
  {
    assert Pass(cfg, now, o, o1, d, d1, fills) by { assert Unfold(0); }
    assert (fills + [f])[..|fills|] == fills;
    assert d1.levels[k].price == d.levels[k].price;
    assert Pass(cfg, now, o, o1.(remaining := o1.remaining - qty), d, d2, fills + [f]);
  }

  lemma PassStart(cfg: Settings, now: nat, o: Order, d: Desk)
    requires DeskOk(cfg, d) && o.remaining >= 0
    ensures Passed(cfg, now, o, o, d, d, [])
  {
    assert FilledOf([], o.id) == 0 && NetOf([], o.symbol) == 0 && FlowOf([]) == 0.0 && GainOf([], o.symbol) == 0.0 &&
           forall j :: TakenFrom([], o.side, j) == 0;
    assert Pass(cfg, now, o, o, d, d, []);
  }

  /** Dropping the remainder. */
  lemma PassDrop(cfg: Settings, now: nat, o: Order, o1: Order, d: Desk, d1: Desk, fills: seq<Fill>)
    requires Passed(cfg, now, o, o1, d, d1, fills)
    ensures Passed(cfg, now, o, o1.(remaining := 0), d, d1, fills)
  {
    assert Pass(cfg, now, o, o1, d, d1, fills) by { assert Unfold(0); }
    assert Pass(cfg, now, o, o1.(remaining := 0), d, d1, fills);
  }

  /** The levels before `k` are shut to the order. */
  ghost predicate Shut(cfg: Settings, o: Order, d: Desk, k: nat)
    requires k <= |d.levels|
  {
    forall j {:trigger d.levels[j]} :: 0 <= j < k && Wants(cfg, o, d, j) ==>
      Blocked(cfg, o.side, d.cash, d.p.qty, Px(cfg, o.side, d.levels[j].price))
  }

  lemma ShutStays(cfg: Settings, o: Order, d: Desk, d': Desk, k: nat)
    requires k <= |d.levels| && Shut(cfg, o, d, k) && Tighter(o.side, d, d')
    ensures Shut(cfg, o, d', k)
  {
    forall j | 0 <= j < k && Wants(cfg, o, d', j)
      ensures Blocked(cfg, o.side, d'.cash, d'.p.qty, Px(cfg, o.side, d'.levels[j].price))
    {
      assert Wants(cfg, o, d, j) && d.levels[j].price == d'.levels[j].price;
    }
  }

  /** A level that risk blocks shuts all of them. */
  lemma ShutAll(cfg: Settings, o: Order, d: Desk, k: nat)
    requires cfg.Valid() && k < |d.levels| && Shut(cfg, o, d, k) && (o.side == Buy ==> Rising(d.levels))
    requires Blocked(cfg, o.side, d.cash, d.p.qty, Px(cfg, o.side, d.levels[k].price))
    ensures Shut(cfg, o, d, |d.levels|)
  {
    forall j | 0 <= j < |d.levels| && Wants(cfg, o, d, j)
      ensures Blocked(cfg, o.side, d.cash, d.p.qty, Px(cfg, o.side, d.levels[j].price))
    {
      if j >= k {
        BlockedBehind(cfg, o.side, d, k, j);
      }
    }
  }

  lemma ShutIsWaiting(cfg: Settings, o: Order, d: Desk, left: int)
    requires left > 0 ==> Shut(cfg, o, d, |d.levels|)
    ensures Waiting(cfg, o, left, d.cash, d.p.qty, d.levels)
  {
    if left > 0 {
      forall k | 0 <= k < |d.levels| && d.levels[k].qty > 0 && Acceptable(cfg, o, d.levels[k].price)
        ensures Blocked(cfg, o.side, d.cash, d.p.qty, Px(cfg, o.side, d.levels[k].price))
      {
        assert Wants(cfg, o, d, k);
      }
    }
  }

  /** Where the pass stands after the levels before `k`: it has a fill from each of them that
      still has quantity for it. */
  ghost predicate Walked(cfg: Settings, now: nat, o: Order, o': Order, d: Desk, d': Desk, fills: seq<Fill>, k: nat) {
    Passed(cfg, now, o, o', d, d', fills) && k <= |d'.levels| && o'.remaining == o.remaining - FilledOf(fills, o.id) &&
    (o'.remaining > 0 ==> Shut(cfg, o, d', k) && Tried(cfg, o, d', fills, k)) &&
    FromOpen(cfg, o, d, fills) && forall i {:trigger fills[i]} :: 0 <= i < |fills| ==> fills[i].level < k
  }

  ghost predicate Tried(cfg: Settings, o: Order, d: Desk, fills: seq<Fill>, k: nat)
    requires k <= |d.levels|
  {
    forall j :: 0 <= j < k && Wants(cfg, o, d, j) ==> !Untouched(fills, o.id, j)
  }

  /** A level at which risk lets the order trade. */
  ghost predicate OpenTo(cfg: Settings, o: Order, d: Desk, k: nat) {
    k < |d.levels| && Wants(cfg, o, d, k) && !Blocked(cfg, o.side, d.cash, d.p.qty, Px(cfg, o.side, d.levels[k].price))
  }

  /** Every fill is from a level that was open to the order at the start. */
  ghost predicate FromOpen(cfg: Settings, o: Order, d: Desk, fills: seq<Fill>) {
    forall i {:trigger fills[i]} :: 0 <= i < |fills| ==> OpenTo(cfg, o, d, fills[i].level)
  }

  lemma {:induction false} NothingTaken(fills: seq<Fill>, side: Side, k: nat)
    requires forall i {:trigger fills[i]} :: 0 <= i < |fills| ==> fills[i].level != k
    ensures TakenFrom(fills, side, k) == 0
  {
    if fills != [] {
      NothingTaken(fills[..|fills| - 1], side, k);
    }
  }

  /** A level that turned one order away turns away the next ones of that side too, so the pass
      of another order changes nothing in what the first one keeps. */
  lemma KeptStays(cfg: Settings, now: nat, first: Order, o: Order, fills: seq<Fill>, fl: seq<Fill>, d: Desk, d': Desk)
    requires first.side == o.side && first.id != o.id && FilledOf(fills + fl, first.id) == FilledOf(fills, first.id)
    requires first.remaining >= FilledOf(fills, first.id)
    requires Waiting(cfg, first, first.remaining - FilledOf(fills, first.id), d.cash, d.p.qty, d.levels)
    requires FromOpen(cfg, o, d, fl) && Tighter(o.side, d, d')
    requires forall i {:trigger fl[i]} :: 0 <= i < |fl| ==> FillOk(cfg, fl[i], now, o, d.levels)
    requires forall k {:trigger d'.levels[k]} ::
               0 <= k < |d.levels| ==> d'.levels[k].qty == d.levels[k].qty - TakenFrom(fl, o.side, k)
    ensures Kept(cfg, first, d'.levels, fills + fl) == Kept(cfg, first, d.levels, fills)
  {
    if first.remaining > FilledOf(fills, first.id) {
      if PassedOver(cfg, first, d.levels, fills) {
        var k :| 0 <= k < |d.levels| && d.levels[k].qty > 0 && Acceptable(cfg, first, d.levels[k].price) &&
          Untouched(fills, first.id, k);
        assert Blocked(cfg, o.side, d.cash, d.p.qty, Px(cfg, o.side, d.levels[k].price));
        forall i | 0 <= i < |fl| ensures fl[i].level != k {
          assert OpenTo(cfg, o, d, fl[i].level);
        }
        NothingTaken(fl, o.side, k);
        UntouchedStays(cfg, now, first, o, fills, fl, d.levels, k);
        assert d'.levels[k].qty > 0 && d'.levels[k].price == d.levels[k].price;
      }
      if PassedOver(cfg, first, d'.levels, fills + fl) {
        var k :| 0 <= k < |d'.levels| && d'.levels[k].qty > 0 && Acceptable(cfg, first, d'.levels[k].price) &&
          Untouched(fills + fl, first.id, k);
        UntouchedStays(cfg, now, first, o, fills, fl, d.levels, k);
        assert d.levels[k].qty > 0 && d'.levels[k].price == d.levels[k].price;
      }
    }
  }

  lemma UntouchedStays(cfg: Settings, now: nat, first: Order, o: Order, fills: seq<Fill>, fl: seq<Fill>,
      levels: seq<Level>, k: nat)
    requires first.id != o.id
    requires forall i {:trigger fl[i]} :: 0 <= i < |fl| ==> FillOk(cfg, fl[i], now, o, levels)
    ensures Untouched(fills + fl, first.id, k) <==> Untouched(fills, first.id, k)
  {
    var all := fills + fl;
    if Untouched(all, first.id, k) {
      forall i {:trigger fills[i]} | 0 <= i < |fills| && fills[i].orderId == first.id ensures fills[i].level != k {
        assert all[i] == fills[i];
      }
    }
    if Untouched(fills, first.id, k) {
      forall i {:trigger all[i]} | 0 <= i < |all| && all[i].orderId == first.id ensures all[i].level != k {
        assert i < |fills| ==> all[i] == fills[i];
      }
    }
  }

  lemma RisingStays(side: Side, d: Desk, d': Desk)
    requires Tighter(side, d, d') && Rising(d.levels)
    ensures Rising(d'.levels)
  {
    forall i, j | 0 <= i < j < |d'.levels| && d'.levels[j].qty > 0
      ensures 0 <= d'.levels[i].price <= d'.levels[j].price
    {
      assert d.levels[i].price == d'.levels[i].price && d.levels[j].price == d'.levels[j].price;
    }
  }

  lemma PassTighter(cfg: Settings, now: nat, o: Order, o': Order, d: Desk, d': Desk, fills: seq<Fill>)
    requires Passed(cfg, now, o, o', d, d', fills)
    ensures Tighter(o.side, d, d') && 0 <= FilledOf(fills, o.id) <= o.remaining
  {
    assert Pass(cfg, now, o, o', d, d', fills) by { assert Unfold(0); }
  }

  /** The pass over the levels in order. An order trades only at levels open to it at the start;
      one not filled in full is waiting, whether it rests, is dropped by risk or was a market
      order. It rests unless risk turned it away from a level. */
  method MatchOrder(cfg: Settings, now: nat, o: Order, d: Desk, room: nat)
    returns (o': Order, d': Desk, fills: seq<Fill>, outcome: Outcome)
    requires cfg.Valid() && DeskOk(cfg, d) && o.remaining > 0 && (o.side == Buy ==> Rising(d.levels))
    ensures Passed(cfg, now, o, o', d, d', fills) && |fills| <= room
    ensures outcome == OutOfFills ==> |fills| == room
    ensures outcome == Matched ==>
              Waiting(cfg, o, o.remaining - FilledOf(fills, o.id), d'.cash, d'.p.qty, d'.levels) &&
              o'.remaining == Kept(cfg, o, d'.levels, fills)
    ensures FromOpen(cfg, o, d, fills)
  {
    o', d', fills, outcome := o, d, [], Matched;
    var k := 0;
    PassStart(cfg, now, o, d);
    while k < |d.levels|
      invariant Walked(cfg, now, o, o', d, d', fills, k) && |fills| <= room
    {
      if o'.remaining != 0 && d'.levels[k].qty != 0 && Acceptable(cfg, o, d'.levels[k].price) {
        var px := Px(cfg, o.side, d'.levels[k].price);
        var want := Min(o'.remaining, d'.levels[k].qty);
        var qty := Allowed(cfg, o.side, d'.cash, d'.p.qty, want, px);
        BlockedIffNone(cfg, o.side, d'.cash, d'.p.qty, want, px);
        if qty <= 0 {
          Dropped(cfg, now, o, o', d, d', fills, k);
          o' := o'.(remaining := 0);
          return;
        }
        if |fills| == room {
          outcome := OutOfFills;
          return;
        }
        var e, f := Execute(cfg, now, o', d', k, qty);
        WalkStep(cfg, now, o, o', d, d', e, fills, f, k, qty);
        o', d', fills := o'.(remaining := o'.remaining - qty), e, fills + [f];
      }
      k := k + 1;
    }
    ShutIsWaiting(cfg, o, d', o'.remaining);
    Rests(cfg, o, d', fills, o'.remaining);
    if o.limit == 0 {
      PassDrop(cfg, now, o, o', d, d', fills);
      o' := o'.(remaining := 0);
    }
  }

  /** Risk allows nothing at level `k`: the rest is dropped and every level is shut. */
  lemma Dropped(cfg: Settings, now: nat, o: Order, o': Order, d: Desk, d': Desk, fills: seq<Fill>, k: nat)
    requires cfg.Valid() && Walked(cfg, now, o, o', d, d', fills, k) && k < |d'.levels| && o'.remaining > 0 &&
             (o.side == Buy ==> Rising(d.levels))
    requires Blocked(cfg, o.side, d'.cash, d'.p.qty, Px(cfg, o.side, d'.levels[k].price))
    ensures Passed(cfg, now, o, o'.(remaining := 0), d, d', fills)
    ensures Waiting(cfg, o, o.remaining - FilledOf(fills, o.id), d'.cash, d'.p.qty, d'.levels)
    ensures Wants(cfg, o, d', k) ==> Kept(cfg, o, d'.levels, fills) == 0
  {
    PassTighter(cfg, now, o, o', d, d', fills);
    if o.side == Buy {
      RisingStays(o.side, d, d');
    }
    ShutAll(cfg, o, d', k);
    ShutIsWaiting(cfg, o, d', o.remaining - FilledOf(fills, o.id));
    PassDrop(cfg, now, o, o', d, d', fills);
  }

  /** At the end of the levels every one with quantity for the order has been tried. */
  lemma Rests(cfg: Settings, o: Order, d: Desk, fills: seq<Fill>, left: int)
    requires left == o.remaining - FilledOf(fills, o.id) && left >= 0 &&
             (left > 0 ==> Tried(cfg, o, d, fills, |d.levels|))
    ensures Kept(cfg, o, d.levels, fills) == if o.limit == 0 then 0 else left
  {
    if left > 0 {
      forall k | 0 <= k < |d.levels| && d.levels[k].qty > 0 && Acceptable(cfg, o, d.levels[k].price)
        ensures !Untouched(fills, o.id, k)
      {
        assert Wants(cfg, o, d, k);
      }
    }
  }

  lemma Blocking(cfg: Settings, o: Order, d: Desk, d': Desk, k: nat)
    requires Tighter(o.side, d, d') && k < |d.levels| && Wants(cfg, o, d', k)
    requires !Blocked(cfg, o.side, d'.cash, d'.p.qty, Px(cfg, o.side, d'.levels[k].price))
    ensures OpenTo(cfg, o, d, k)
  {
    assert d'.levels[k].price == d.levels[k].price && d'.levels[k].qty <= d.levels[k].qty;
  }

  lemma TriedNext(cfg: Settings, o: Order, d1: Desk, d2: Desk, fills: seq<Fill>, f: Fill, k: nat)
    requires k < |d1.levels| && Tried(cfg, o, d1, fills, k) && Tighter(o.side, d1, d2) && f.orderId == o.id &&
             f.level == k
    ensures Tried(cfg, o, d2, fills + [f], k + 1)
  {
    var all := fills + [f];
    forall j | 0 <= j < k + 1 && Wants(cfg, o, d2, j) ensures !Untouched(all, o.id, j) {
      if j == k {
        assert all[|fills|] == f;
      } else {
        assert d1.levels[j].price == d2.levels[j].price && Wants(cfg, o, d1, j);
        var i :| 0 <= i < |fills| && fills[i].orderId == o.id && fills[i].level == j;
        assert all[i] == fills[i];
      }
    }
  }

  /** An execution at level `k` takes the pass past it. */
  lemma WalkStep(cfg: Settings, now: nat, o: Order, o1: Order, d: Desk, d1: Desk, d2: Desk, fills: seq<Fill>, f: Fill,
      k: nat, qty: int)
    requires Walked(cfg, now, o, o1, d, d1, fills, k) && k < |d1.levels| && 0 < qty <= o1.remaining
    requires DeskOk(cfg, d2) && Worth(d2) == Worth(d1) && Tighter(o.side, d1, d2) &&
             FillOk(cfg, f, now, o1, d1.levels) && f.level == k && f.qty == qty
    requires d2.levels == d1.levels[k := d1.levels[k].(qty := d1.levels[k].qty - qty)]
    requires d2.p.qty == d1.p.qty + if o.side == Buy then qty else -qty
    requires f.realized == d2.p.realized - d1.p.realized && d2.cash == d1.cash + Flow(f)
    requires qty < o1.remaining && d2.levels[k].qty > 0 ==> Blocked(cfg, o.side, d2.cash, d2.p.qty, f.price)
    requires Wants(cfg, o, d1, k) && !Blocked(cfg, o.side, d1.cash, d1.p.qty, Px(cfg, o.side, d1.levels[k].price))
    ensures Walked(cfg, now, o, o1.(remaining := o1.remaining - qty), d, d2, fills + [f], k + 1)
  {
    PassStep(cfg, now, o, o1, d, d1, d2, fills, f, k, qty);
    assert (fills + [f])[..|fills|] == fills;
    ShutStays(cfg, o, d1, d2, k);
    TriedNext(cfg, o, d1, d2, fills, f, k);
    PassTighter(cfg, now, o, o1, d, d1, fills);
    Blocking(cfg, o, d, d1, k);
    assert d2.levels[k].price == d1.levels[k].price;
  }

  /** When all fills are one order's from one level, they add up the same every way. */
  lemma {:induction false} OneLevel(cfg: Settings, now: nat, o: Order, levels: seq<Level>, fills: seq<Fill>)
    requires |levels| == 1 && o.side == Buy
    requires forall i {:trigger fills[i]} :: 0 <= i < |fills| ==> FillOk(cfg, fills[i], now, o, levels)
    ensures FilledOf(fills, o.id) == NetOf(fills, o.symbol) == TakenFrom(fills, Buy, 0) >= |fills|
  {
    if fills != [] {
      OneLevel(cfg, now, o, levels, fills[..|fills| - 1]);
    }
  }

  /** An order that risk cuts short rests with the remainder if no other level turned it away: a
      limit buy of more than the position cap allows, against one level with quantity to spare. */
  method CutShort(cfg: Settings, now: nat, o: Order, d: Desk) returns (o': Order, d': Desk)
    requires cfg.Valid() && DeskOk(cfg, d) && |d.levels| == 1 && o.side == Buy && o.limit != 0 && OpenTo(cfg, o, d, 0)
    requires cfg.maxPosition - d.p.qty < Min(o.remaining, d.levels[0].qty)
    ensures o'.remaining > 0 && |d'.levels| == 1 && d'.levels[0].qty > 0 && Acceptable(cfg, o', d'.levels[0].price)
  {
    var fills, outcome;
    o', d', fills, outcome := MatchOrder(cfg, now, o, d, o.remaining + 1);
    assert Pass(cfg, now, o, o', d, d', fills) by { assert Unfold(0); }
    OneLevel(cfg, now, o, d.levels, fills);
    assert d'.levels[0].price == d.levels[0].price;
    assert fills != [];
    assert fills[0].level == 0 && fills[0].orderId == o.id;
  }
}
