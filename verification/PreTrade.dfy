/** The pre-trade risk check: a mask of independent tests over fixed-width integers. */
module PreTrade {

  const INT64_MAX: int := 0x7FFF_FFFF_FFFF_FFFF
  const INT64_MIN: int := -0x8000_0000_0000_0000
  const UINT64_RANGE: int := 0x1_0000_0000_0000_0000
  const UINT32_MAX: int := 0xFFFF_FFFF

  datatype RiskLimits = RiskLimits(
    maxOrderQty: int, maxAbsPosition: int, maxAlphaAge: int, minPrice: int, maxPrice: int,
    referencePrice: int, collarPct: int, maxGrossLoss: int, maxRejections: nat)
  {
    predicate Valid() {
      0 < maxOrderQty <= 1_000_000_000 && 0 <= maxAbsPosition <= INT64_MAX && 0 < minPrice <= maxPrice <= UINT32_MAX &&
      0 <= referencePrice <= INT64_MAX && 0 <= collarPct <= 100 && 0 <= maxGrossLoss
    }
  }

  datatype RiskState = RiskState(net: int, gross: int, drawdown: int, orderCount: nat, rejects: nat, halted: bool)

  datatype OrderIntent = OrderIntent(symbol: nat, side: nat, qty: int, price: int, alphaTime: nat, now: nat, id: nat)

  datatype Reason = BadQty | BadPosition | StaleAlpha | Halted | OrderCapacity | InvalidSymbol | BadPrice

  datatype Decision = Decision(pass: bool, reasons: set<Reason>)

  predicate IsInt64(x: int) {
    INT64_MIN <= x <= INT64_MAX
  }

  /** A value modulo 2^64 as a signed word, the result an overflowing builtin stores. */
  function Wrap(x: int): int {
    var u := x % UINT64_RANGE;
    if u <= INT64_MAX then u else u - UINT64_RANGE
  }

  function SignedQty(side: nat, qty: int): int {
    if side % 2 == 1 then -qty else qty
  }

  function Abs(x: int): nat {
    if x < 0 then -x else x
  }

  /** The distance test against the reference price, in unsigned 64-bit arithmetic. */
  predicate CollarOk(limits: RiskLimits, price: int) {
    limits.referencePrice > 0 && limits.collarPct > 0 ==>
      Abs(price % UINT64_RANGE - limits.referencePrice) <=
        (limits.referencePrice * limits.collarPct) % UINT64_RANGE / 100
  }

  predicate PositionPasses(limits: RiskLimits, net: int, delta: int) {
    var projected := Wrap(net + delta);
    IsInt64(net + delta) && limits.maxAbsPosition >= 0 && Abs(projected) <= limits.maxAbsPosition
  }

  predicate PricePasses(limits: RiskLimits, price: int) {
    var least := if limits.minPrice > 0 then limits.minPrice else 1;
    var most := if limits.maxPrice > 0 then limits.maxPrice else UINT32_MAX;
    var word := price % UINT64_RANGE;
    price >= least && word <= most && word <= UINT32_MAX && CollarOk(limits, price)
  }

  predicate NotionalPasses(gross: int, price: int, qty: int) {
    var notional := Wrap(price * qty);
    IsInt64(price * qty) && IsInt64(gross + notional) && gross >= 0
  }

  function Evaluate(limits: RiskLimits, risk: RiskState, intent: OrderIntent): Decision {
    var validQty := 0 < intent.qty <= limits.maxOrderQty;
    var safeQty := if validQty then intent.qty else 0;
    var delta := SignedQty(intent.side, safeQty);
    var ordered := intent.now >= intent.alphaTime;
    var age := if ordered then intent.now - intent.alphaTime else 0;
    var validPos := PositionPasses(limits, risk.net, delta);
    var validAlpha := ordered && age <= limits.maxAlphaAge;
    var validPrice := PricePasses(limits, intent.price);
    var lossOk := limits.maxGrossLoss <= 0 || risk.drawdown <= limits.maxGrossLoss;
    var validNotional := validPrice && NotionalPasses(risk.gross, intent.price, safeQty);
    var pass := validQty && validPos && validAlpha && !risk.halted && validPrice && validNotional && lossOk;
    var reasons := (if validQty then {} else {BadQty}) + (if validPos then {} else {BadPosition}) +
                   (if validAlpha then {} else {StaleAlpha}) + (if !risk.halted && lossOk then {} else {Halted}) +
                   (if validPrice && validNotional then {} else {BadPrice});
    Decision(pass, if pass then {} else reasons)
  }

  /** The collar over the integers: within a percentage of the reference price. */
  predicate WithinCollar(limits: RiskLimits, price: int) {
    limits.referencePrice > 0 && limits.collarPct > 0 ==>
      100 * (price - limits.referencePrice) <= limits.referencePrice * limits.collarPct &&
      100 * (limits.referencePrice - price) <= limits.referencePrice * limits.collarPct
  }

  /** A full collar around a reference price whose product does not fit 64 bits. */
  predicate CollarWraps(limits: RiskLimits) {
    limits.collarPct == 100 && limits.referencePrice * 100 >= UINT64_RANGE
  }

  /** The position the order leads to when `qty` of it is filled: a buy (even side byte) adds to
      it, a sell takes away. */
  predicate WithinPosition(limits: RiskLimits, net: int, side: nat, qty: int) {
    if side % 2 == 0 then -limits.maxAbsPosition <= net + qty <= limits.maxAbsPosition
    else -limits.maxAbsPosition <= net - qty <= limits.maxAbsPosition
  }

  predicate WithinAge(limits: RiskLimits, intent: OrderIntent) {
    intent.alphaTime <= intent.now <= intent.alphaTime + limits.maxAlphaAge
  }

  predicate MayTrade(limits: RiskLimits, risk: RiskState) {
    !risk.halted && (limits.maxGrossLoss == 0 || risk.drawdown <= limits.maxGrossLoss)
  }

  predicate WithinPrices(limits: RiskLimits, risk: RiskState, price: int, qty: int) {
    limits.minPrice <= price <= limits.maxPrice && WithinCollar(limits, price) &&
    0 <= risk.gross && risk.gross + price * qty <= INT64_MAX
  }

  /** The limits an order has to respect, over the integers. */
  predicate WithinLimits(limits: RiskLimits, risk: RiskState, intent: OrderIntent) {
    0 < intent.qty <= limits.maxOrderQty && WithinPosition(limits, risk.net, intent.side, intent.qty) &&
    WithinAge(limits, intent) && MayTrade(limits, risk) && WithinPrices(limits, risk, intent.price, intent.qty)
  }

  lemma WrapExact(x: int)
    ensures IsInt64(x) ==> Wrap(x) == x
  {
  }

  lemma WordOfPrice(price: int)
    requires price < UINT64_RANGE
    ensures price >= 0 ==> price % UINT64_RANGE == price
  {
  }

  /** The reasons of a refusal are exactly the limits that are broken. An order of a refused
      quantity counts as one of none. */
  predicate Blamed(limits: RiskLimits, risk: RiskState, intent: OrderIntent, reasons: set<Reason>) {
    var qty := if 0 < intent.qty <= limits.maxOrderQty then intent.qty else 0;
    (BadQty in reasons <==> intent.qty <= 0 || intent.qty > limits.maxOrderQty) &&
    (BadPosition in reasons <==> !WithinPosition(limits, risk.net, intent.side, qty)) &&
    (StaleAlpha in reasons <==> !WithinAge(limits, intent)) &&
    (Halted in reasons <==> !MayTrade(limits, risk)) &&
    (BadPrice in reasons <==> !WithinPrices(limits, risk, intent.price, qty) || CollarWraps(limits)) &&
    OrderCapacity !in reasons && InvalidSymbol !in reasons
  }

  /** The masked arithmetic passes an order exactly when it is within the limits over the
      integers and the collar does not wrap: no wrapped sum or product ever lets an order
      through, and the only one that turns orders away is the collar's, which then turns away
      every order. A refusal always carries the reasons for it. */
  lemma EvaluateMeaning(limits: RiskLimits, risk: RiskState, intent: OrderIntent)
    requires limits.Valid() && IsInt64(risk.net) && IsInt64(risk.gross) && IsInt64(intent.price)
    ensures Evaluate(limits, risk, intent).pass <==> WithinLimits(limits, risk, intent) && !CollarWraps(limits)
    ensures Evaluate(limits, risk, intent).pass <==> Evaluate(limits, risk, intent).reasons == {}
    ensures !Evaluate(limits, risk, intent).pass ==>
              Blamed(limits, risk, intent, Evaluate(limits, risk, intent).reasons)
  {
    var qty := if 0 < intent.qty <= limits.maxOrderQty then intent.qty else 0;
    PositionMeans(limits, risk.net, intent.side, qty);
    PriceMeans(limits, risk, intent.price, qty);
    var r := Evaluate(limits, risk, intent).reasons;
    assert r == {} ==> BadQty !in r && BadPosition !in r && StaleAlpha !in r && Halted !in r && BadPrice !in r;
  }

  lemma PositionMeans(limits: RiskLimits, net: int, side: nat, qty: nat)
    requires limits.Valid()
    ensures PositionPasses(limits, net, SignedQty(side, qty)) <==> WithinPosition(limits, net, side, qty)
  {
    WrapExact(net + SignedQty(side, qty));
  }

  lemma PriceMeans(limits: RiskLimits, risk: RiskState, price: int, qty: nat)
    requires limits.Valid() && IsInt64(risk.gross) && IsInt64(price)
    ensures PricePasses(limits, price) && NotionalPasses(risk.gross, price, qty) <==>
            WithinPrices(limits, risk, price, qty) && !CollarWraps(limits)
  {
    WordOfPrice(price);
    if limits.minPrice <= price <= limits.maxPrice {
      CollarMeaning(limits, price);
      if CollarWraps(limits) {
        WrappedCollarRefuses(limits, price);
      }
      NotionalMeans(risk.gross, price, qty);
    }
  }

  lemma NotionalMeans(gross: int, price: nat, qty: nat)
    requires IsInt64(gross)
    ensures NotionalPasses(gross, price, qty) <==> 0 <= gross && gross + price * qty <= INT64_MAX
  {
    assert price * qty >= 0;
    WrapExact(price * qty);
  }

  /** The 64-bit product wraps for huge reference prices. For any encodable price the test
      still agrees with the percentage, except that a full collar (100 %) around a reference
      whose product wraps refuses every price. */
  lemma CollarMeaning(limits: RiskLimits, price: int)
    requires limits.Valid() && 1 <= price <= UINT32_MAX
    ensures (CollarOk(limits, price) <==> WithinCollar(limits, price)) <==> !CollarWraps(limits)
  {
    var r, x := limits.referencePrice, limits.referencePrice * limits.collarPct;
    WordOfPrice(price);
    if r > 0 && limits.collarPct > 0 {
      Scaled(r, limits.collarPct);
      CollarCases(r, x, price, limits.collarPct == 100);
    }
  }

  /** The family that disagrees: every encodable price is within the percentage and refused. */
  lemma WrappedCollarRefuses(limits: RiskLimits, price: int)
    requires limits.Valid() && 1 <= price <= UINT32_MAX && CollarWraps(limits)
    ensures WithinCollar(limits, price) && !CollarOk(limits, price)
  {
    CollarMeaning(limits, price);
  }

  /** One of them: with a reference of 2 * 10^17 an order of one at a price of one is within
      every limit, and refused. */
  lemma WrappedCollarExample()
    ensures var limits := RiskLimits(1, 1, 1, 1, UINT32_MAX, 200_000_000_000_000_000, 100, 0, 1);
            var risk, intent := RiskState(0, 0, 0, 0, 0, false), OrderIntent(0, 0, 1, 1, 0, 0, 1);
            limits.Valid() && WithinLimits(limits, risk, intent) && !Evaluate(limits, risk, intent).pass
  {
    var limits := RiskLimits(1, 1, 1, 1, UINT32_MAX, 200_000_000_000_000_000, 100, 0, 1);
    WrappedCollarRefuses(limits, 1);
    EvaluateMeaning(limits, RiskState(0, 0, 0, 0, 0, false), OrderIntent(0, 0, 1, 1, 0, 0, 1));
  }

  lemma Scaled(r: nat, p: nat)
    requires p <= 100
    ensures 0 <= r * p <= r * 100 && (p < 100 ==> r * p <= r * 99)
  {
    assert r * (100 - p) >= 0;
    assert p < 100 ==> r * (99 - p) >= 0;
  }

  lemma CollarCases(r: nat, x: nat, price: int, full: bool)
    requires 0 < r && 1 <= price <= UINT32_MAX && (if full then x == r * 100 else x <= r * 99)
    ensures (Abs(price - r) <= x % UINT64_RANGE / 100 <==> 100 * Abs(price - r) <= x) <==> !(full && x >= UINT64_RANGE)
  {
    var w := x % UINT64_RANGE;
    if x >= UINT64_RANGE {
      WordBelow(x);
      HundredthBelow(w, r - price);
    } else {
      WordOfPrice(x);
      Hundredth(w, Abs(price - r));
    }
  }

  lemma WordBelow(x: nat)
    requires x >= UINT64_RANGE
    ensures x % UINT64_RANGE <= x - UINT64_RANGE
  {
    assert x % UINT64_RANGE == (x - UINT64_RANGE) % UINT64_RANGE;
  }

  lemma HundredthBelow(w: nat, y: int)
    requires w < 100 * y
    ensures w / 100 < y
  {
  }

  lemma Hundredth(w: nat, y: nat)
    ensures y <= w / 100 <==> 100 * y <= w
  {
  }
}
