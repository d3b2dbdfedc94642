/** What the gateway's structures say about open orders, and how one slot change carries
    through all of them. */
module GatewayState {
  import opened Folding
  import opened PreTrade
  import Recovery

  datatype SlotState = Free | Working | Partial | Done

  datatype ActiveOrder = ActiveOrder(id: nat, price: int, qty: int, filled: int, side: nat, state: SlotState)
  {
    predicate IsLive() {
      state == Working || state == Partial
    }
  }

  const EMPTY_SLOT := ActiveOrder(0, 0, 0, 0, 0, Free)

  datatype SymbolState = SymbolState(orders: seq<ActiveOrder>, risk: RiskState)

  datatype Config = Config(symbols: nat, slots: nat, maxPending: nat, ledgerCapacity: nat)

  /** Number, signed quantity and notional of open orders. */
  datatype Sums = Sums(count: int, signed: int, notional: int)
  {
    function Plus(other: Sums): Sums {
      Sums(count + other.count, signed + other.signed, notional + other.notional)
    }

    function Minus(other: Sums): Sums {
      Sums(count - other.count, signed - other.signed, notional - other.notional)
    }
  }

  function Weight(o: ActiveOrder): Sums {
    if o.IsLive() then Sums(1, SignedQty(o.side, o.qty), o.price * o.qty) else Sums(0, 0, 0)
  }

  function Open(orders: seq<ActiveOrder>): (r: Sums)
    ensures 0 <= r.count <= |orders|
  {
    if orders == [] then Sums(0, 0, 0) else Open(orders[..|orders| - 1]).Plus(Weight(orders[|orders| - 1]))
  }

  lemma {:induction false} OpenUpdate(orders: seq<ActiveOrder>, i: nat, o: ActiveOrder)
    requires i < |orders|
    ensures Open(orders[i := o]) == Open(orders).Minus(Weight(orders[i])).Plus(Weight(o))
  {
    var last := |orders| - 1;
    if i < last {
      OpenUpdate(orders[..last], i, o);
      assert orders[i := o][..last] == orders[..last][i := o];
    } else {
      assert orders[i := o][..last] == orders[..last];
    }
  }

  /** Fewer open orders than slots: some slot is free or done. */
  lemma {:induction false} RoomHasSlot(orders: seq<ActiveOrder>)
    requires Open(orders).count < |orders|
    ensures exists i :: 0 <= i < |orders| && !orders[i].IsLive()
  {
    var last := |orders| - 1;
    if orders[last].IsLive() {
      RoomHasSlot(orders[..last]);
      var i :| 0 <= i < last && !orders[..last][i].IsLive();
      assert !orders[i].IsLive();
    }
  }

  /** Open orders over all symbols. */
  function TotalOpen(states: seq<SymbolState>): (n: int)
    ensures n >= 0
  {
    if states == [] then 0 else TotalOpen(states[..|states| - 1]) + Open(states[|states| - 1].orders).count
  }

  lemma {:induction false} TotalUpdate(states: seq<SymbolState>, s: nat, st: SymbolState)
    requires s < |states|
    ensures TotalOpen(states[s := st]) == TotalOpen(states) - Open(states[s].orders).count + Open(st.orders).count
  {
    var last, next := |states| - 1, states[s := st];
    assert TotalOpen(next) == TotalOpen(next[..last]) + Open(next[last].orders).count;
    if s < last {
      TotalUpdate(states[..last], s, st);
      assert next[..last] == states[..last][s := st] && states[..last][s] == states[s];
    } else {
      assert next[..last] == states[..last];
    }
  }

  predicate SlotOk(o: ActiveOrder) {
    (o.state == Free ==> o == EMPTY_SLOT) && (o.state != Free ==> o.id != 0) && (o.IsLive() ==> o.qty > 0 && o.side < 2)
  }

  predicate SlotsOk(orders: seq<ActiveOrder>) {
    forall i {:trigger orders[i]} :: 0 <= i < |orders| ==> SlotOk(orders[i])
  }

  predicate Balanced(risk: RiskState, open: Sums, settled: int, notional: int) {
    risk.orderCount == open.count && risk.net == settled + open.signed && risk.gross == notional + open.notional
  }

  /** Reservation accounting of one symbol: the open-order count, the position as settled plus
      open quantity, the exposure as fill notional plus open notional. */
  ghost predicate SymbolOk(c: Config, st: SymbolState, settled: int, notional: int) {
    |st.orders| == c.slots && SlotsOk(st.orders) && Balanced(st.risk, Open(st.orders), settled, notional)
  }

  ghost predicate Accounts(c: Config, states: seq<SymbolState>, settled: seq<int>, notional: seq<int>) {
    |states| == |settled| == |notional| == c.symbols &&
    forall s {:trigger states[s]} :: 0 <= s < |states| ==> SymbolOk(c, states[s], settled[s], notional[s])
  }

  datatype Place = Place(symbol: nat, slot: nat)

  /** A slot and a logged order agree. The log keeps the side byte as sent, the slot its low bit. */
  predicate Matches(o: ActiveOrder, t: Recovery.Terms) {
    o.qty == t.remaining && o.price == t.price && o.side == t.side % 2
  }

  /** Live slots, the ledger and the book of open orders are in one-to-one correspondence;
      done slots hold identifiers that are no longer open. */
  ghost predicate Linked(states: seq<SymbolState>, ledger: map<nat, int>, book: Recovery.Orders,
      places: map<nat, Place>, used: set<nat>) {
    places.Keys == book.Keys == ledger.Keys && book.Keys <= used && 0 !in used &&
    (forall k {:trigger places[k]} :: k in places ==>
       places[k].symbol < |states| && places[k].slot < |states[places[k].symbol].orders| &&
       Holds(states[places[k].symbol].orders[places[k].slot], k, ledger, book)) &&
    (forall s, i {:trigger states[s].orders[i]} :: 0 <= s < |states| && 0 <= i < |states[s].orders| ==>
       SlotLinked(states[s].orders[i], Place(s, i), places, used))
  }

  ghost predicate Holds(o: ActiveOrder, k: nat, ledger: map<nat, int>, book: Recovery.Orders)
    requires k in ledger && k in book
  {
    o.IsLive() && o.id == k && ledger[k] == o.qty && Matches(o, book[k])
  }

  ghost predicate SlotLinked(o: ActiveOrder, at: Place, places: map<nat, Place>, used: set<nat>) {
    (o.state != Free ==> o.id in used) &&
    (o.IsLive() ==> o.id in places && places[o.id] == at) &&
    (o.state == Done ==> o.id !in places)
  }

  // ----- One slot changes -----

  function SetSlot(states: seq<SymbolState>, at: Place, o: ActiveOrder, risk: RiskState): seq<SymbolState>
    requires at.symbol < |states| && at.slot < |states[at.symbol].orders|
  {
    var st := states[at.symbol];
    states[at.symbol := SymbolState(st.orders[at.slot := o], risk)]
  }

  /** The risk figures follow the weight of the slot and what was settled. */
  ghost predicate Booked(old_: RiskState, new_: RiskState, was: Sums, now: Sums, settled: int, notional: int) {
    new_.orderCount == old_.orderCount - was.count + now.count &&
    new_.net == old_.net - was.signed + now.signed + settled &&
    new_.gross == old_.gross - was.notional + now.notional + notional
  }

  lemma SymbolSlot(c: Config, st: SymbolState, settled: int, notional: int, slot: nat, o: ActiveOrder, risk: RiskState,
      was: Sums, now: Sums, ds: int, dn: int)
    requires SymbolOk(c, st, settled, notional) && slot < c.slots && SlotOk(o) && was == Weight(st.orders[slot]) &&
             now == Weight(o)
    requires Booked(st.risk, risk, was, now, ds, dn)
    ensures SymbolOk(c, SymbolState(st.orders[slot := o], risk), settled + ds, notional + dn)
    ensures Open(st.orders[slot := o]).count == Open(st.orders).count - was.count + now.count
  {
    var orders' := st.orders[slot := o];
    assert SlotsOk(orders');
    OpenUpdate(st.orders, slot, o);
    StayBalanced(st.risk, risk, Open(st.orders), Open(st.orders[slot := o]), was, now, settled, notional, ds, dn);
  }

  lemma StayBalanced(a: RiskState, b: RiskState, open: Sums, open': Sums, was: Sums, now: Sums, settled: int,
      notional: int, ds: int, dn: int)
    requires Balanced(a, open, settled, notional) && Booked(a, b, was, now, ds, dn) &&
             open' == open.Minus(was).Plus(now)
    ensures Balanced(b, open', settled + ds, notional + dn)
  {
  }

  lemma AccountSlot(c: Config, states: seq<SymbolState>, settled: seq<int>, notional: seq<int>, at: Place,
      o: ActiveOrder, risk: RiskState, was: Sums, now: Sums, ds: int, dn: int)
    requires Accounts(c, states, settled, notional) && at.symbol < c.symbols && at.slot < c.slots && SlotOk(o)
    requires SymbolOk(c, states[at.symbol], settled[at.symbol], notional[at.symbol])
    requires was == Weight(states[at.symbol].orders[at.slot]) && now == Weight(o) &&
             Booked(states[at.symbol].risk, risk, was, now, ds, dn)
    ensures Accounts(c, SetSlot(states, at, o, risk), Settle(settled, at.symbol, ds), Settle(notional, at.symbol, dn))
    ensures TotalOpen(SetSlot(states, at, o, risk)) == TotalOpen(states) - was.count + now.count
  {
    var st, s := states[at.symbol], at.symbol;
    SymbolSlot(c, st, settled[s], notional[s], at.slot, o, risk, was, now, ds, dn);
    TotalUpdate(states, s, SymbolState(st.orders[at.slot := o], risk));
    AccountSymbol(c, states, settled, notional, s, SymbolState(st.orders[at.slot := o], risk), settled[s] + ds,
      notional[s] + dn);
  }

  lemma AccountSymbol(c: Config, states: seq<SymbolState>, settled: seq<int>, notional: seq<int>, s: nat,
      st: SymbolState, se: int, no: int)
    requires Accounts(c, states, settled, notional) && s < c.symbols && SymbolOk(c, st, se, no)
    ensures Accounts(c, states[s := st], settled[s := se], notional[s := no])
  {
  }

  /** A slot other than the one that changes. */
  lemma OtherSlot(states: seq<SymbolState>, at: Place, o: ActiveOrder, risk: RiskState, states': seq<SymbolState>,
      s: nat, i: nat)
    requires at.symbol < |states| && at.slot < |states[at.symbol].orders| && states' == SetSlot(states, at, o, risk)
    requires s < |states'| && i < |states'[s].orders|
    ensures s < |states| && i < |states[s].orders| &&
            states'[s].orders[i] == if Place(s, i) == at then o else states[s].orders[i]
  {
  }

  /** An order whose slot does not change is held as before. */
  lemma StillHeld(states: seq<SymbolState>, at: Place, o: ActiveOrder, risk: RiskState, states': seq<SymbolState>,
      k: nat, p: Place, ledger: map<nat, int>, book: Recovery.Orders, ledger': map<nat, int>, book': Recovery.Orders)
    requires at.symbol < |states| && at.slot < |states[at.symbol].orders| && states' == SetSlot(states, at, o, risk) &&
             p != at
    requires p.symbol < |states| && p.slot < |states[p.symbol].orders| && k in ledger && k in book &&
             Holds(states[p.symbol].orders[p.slot], k, ledger, book)
    requires k in ledger' && ledger'[k] == ledger[k] && k in book' && book'[k] == book[k]
    ensures p.symbol < |states'| && p.slot < |states'[p.symbol].orders| &&
            Holds(states'[p.symbol].orders[p.slot], k, ledger', book')
  {
    assert states'[p.symbol].orders[p.slot] == states[p.symbol].orders[p.slot];
  }

  /** A new order takes a slot that is not live. */
  lemma LinkNew(states: seq<SymbolState>, states': seq<SymbolState>, ledger: map<nat, int>, book: Recovery.Orders,
      places: map<nat, Place>, used: set<nat>, at: Place, o: ActiveOrder, risk: RiskState, t: Recovery.Terms)
    requires Linked(states, ledger, book, places, used)
    requires at.symbol < |states| && at.slot < |states[at.symbol].orders| && states' == SetSlot(states, at, o, risk)
    requires !states[at.symbol].orders[at.slot].IsLive() && o.IsLive() && o.id != 0 && o.id !in used && Matches(o, t)
    ensures Linked(states', ledger[o.id := o.qty], book[o.id := t], places[o.id := at], used + {o.id})
  {
    var places', ledger', book' := places[o.id := at], ledger[o.id := o.qty], book[o.id := t];
    forall s, i {:trigger states'[s].orders[i]} | 0 <= s < |states'| && 0 <= i < |states'[s].orders|
      ensures SlotLinked(states'[s].orders[i], Place(s, i), places', used + {o.id})
    {
      OtherSlot(states, at, o, risk, states', s, i);
      assert SlotLinked(states[s].orders[i], Place(s, i), places, used);
    }
    forall k {:trigger places'[k]} | k in places'
      ensures places'[k].symbol < |states'| && places'[k].slot < |states'[places'[k].symbol].orders| &&
              Holds(states'[places'[k].symbol].orders[places'[k].slot], k, ledger', book')
    {
      if k != o.id {
        assert places[k] != at;
        StillHeld(states, at, o, risk, states', k, places[k], ledger, book, ledger', book');
      }
    }
  }

  /** A live order keeps its slot and changes quantity or price. */
  lemma LinkAmended(states: seq<SymbolState>, states': seq<SymbolState>, ledger: map<nat, int>, book: Recovery.Orders,
      places: map<nat, Place>, used: set<nat>, at: Place, o: ActiveOrder, risk: RiskState, t: Recovery.Terms)
    requires Linked(states, ledger, book, places, used)
    requires at.symbol < |states| && at.slot < |states[at.symbol].orders| && states' == SetSlot(states, at, o, risk)
    requires states[at.symbol].orders[at.slot].IsLive() && states[at.symbol].orders[at.slot].id == o.id && o.IsLive() &&
             Matches(o, t)
    ensures o.id in book && Linked(states', ledger[o.id := o.qty], book[o.id := t], places, used)
  {
    assert SlotLinked(states[at.symbol].orders[at.slot], at, places, used);
    var ledger', book' := ledger[o.id := o.qty], book[o.id := t];
    forall s, i {:trigger states'[s].orders[i]} | 0 <= s < |states'| && 0 <= i < |states'[s].orders|
      ensures SlotLinked(states'[s].orders[i], Place(s, i), places, used)
    {
      OtherSlot(states, at, o, risk, states', s, i);
      assert SlotLinked(states[s].orders[i], Place(s, i), places, used);
    }
    forall k {:trigger places[k]} | k in places
      ensures places[k].symbol < |states'| && places[k].slot < |states'[places[k].symbol].orders| &&
              Holds(states'[places[k].symbol].orders[places[k].slot], k, ledger', book')
    {
      if k != o.id {
        assert places[k] != at;
        StillHeld(states, at, o, risk, states', k, places[k], ledger, book, ledger', book');
      }
    }
  }

  /** A live order leaves; its slot becomes free or keeps a terminal snapshot. */
  lemma LinkGone(states: seq<SymbolState>, states': seq<SymbolState>, ledger: map<nat, int>, book: Recovery.Orders,
      places: map<nat, Place>, used: set<nat>, at: Place, o: ActiveOrder, risk: RiskState, id: nat)
    requires Linked(states, ledger, book, places, used)
    requires at.symbol < |states| && at.slot < |states[at.symbol].orders| && states' == SetSlot(states, at, o, risk)
    requires states[at.symbol].orders[at.slot].IsLive() && states[at.symbol].orders[at.slot].id == id
    requires o == EMPTY_SLOT || (o.state == Done && o.id == id)
    ensures id in book && Linked(states', ledger - {id}, book - {id}, places - {id}, used)
  {
    assert SlotLinked(states[at.symbol].orders[at.slot], at, places, used);
    var places', ledger', book' := places - {id}, ledger - {id}, book - {id};
    forall s, i {:trigger states'[s].orders[i]} | 0 <= s < |states'| && 0 <= i < |states'[s].orders|
      ensures SlotLinked(states'[s].orders[i], Place(s, i), places', used)
    {
      OtherSlot(states, at, o, risk, states', s, i);
      assert SlotLinked(states[s].orders[i], Place(s, i), places, used);
    }
    forall k {:trigger places'[k]} | k in places'
      ensures places'[k].symbol < |states'| && places'[k].slot < |states'[places'[k].symbol].orders| &&
              Holds(states'[places'[k].symbol].orders[places'[k].slot], k, ledger', book')
    {
      assert places[k] != at;
      StillHeld(states, at, o, risk, states', k, places[k], ledger, book, ledger', book');
    }
  }

  /** One state of the gateway: what it keeps, and what the proofs keep beside it. */
  datatype Snapshot = Snapshot(states: seq<SymbolState>, pending: nat, ledger: map<nat, int>, book: Recovery.Orders,
                               places: map<nat, Place>, settled: seq<int>, notional: seq<int>, used: set<nat>)

  /** The reservation accounting of every symbol, folded. */
  ghost predicate Balances(c: Config, g: Snapshot) {
    forall n :: Unfold(n) ==> Accounts(c, g.states, g.settled, g.notional)
  }

  /** Slots, ledger and book agree, folded. */
  ghost predicate Links(g: Snapshot) {
    forall n :: Unfold(n) ==> Linked(g.states, g.ledger, g.book, g.places, g.used)
  }

  /** The whole invariant: beside the two above, the rate limiter, the ledger, the book and
      the slots count the same number of open orders. */
  ghost predicate Coherent(c: Config, g: Snapshot) {
    Balances(c, g) && Links(g) && g.pending == |g.ledger| == |g.book| == TotalOpen(g.states) &&
    g.pending <= c.maxPending
  }

  function Settle(amounts: seq<int>, s: nat, d: int): seq<int>
    requires s < |amounts|
  {
    amounts[s := amounts[s] + d]
  }

  predicate HasPlace(g: Snapshot, at: Place) {
    at.symbol < |g.states| && at.symbol < |g.settled| && at.symbol < |g.notional| &&
    at.slot < |g.states[at.symbol].orders|
  }

  function Admitted(g: Snapshot, at: Place, o: ActiveOrder, risk: RiskState, t: Recovery.Terms): Snapshot
    requires HasPlace(g, at)
  {
    g.(states := SetSlot(g.states, at, o, risk), pending := g.pending + 1, ledger := g.ledger[o.id := o.qty],
       book := g.book[o.id := t], places := g.places[o.id := at], used := g.used + {o.id})
  }

  function Amended(g: Snapshot, at: Place, o: ActiveOrder, risk: RiskState, t: Recovery.Terms, ds: int,
      dn: int): Snapshot
    requires HasPlace(g, at)
  {
    g.(states := SetSlot(g.states, at, o, risk), ledger := g.ledger[o.id := o.qty], book := g.book[o.id := t],
       settled := Settle(g.settled, at.symbol, ds), notional := Settle(g.notional, at.symbol, dn))
  }

  function Gone(g: Snapshot, at: Place, o: ActiveOrder, risk: RiskState, id: nat, ds: int, dn: int): Snapshot
    requires HasPlace(g, at) && g.pending > 0
  {
    g.(states := SetSlot(g.states, at, o, risk), pending := g.pending - 1, ledger := g.ledger - {id},
      book := g.book - {id},
       places := g.places - {id}, settled := Settle(g.settled, at.symbol, ds),
       notional := Settle(g.notional, at.symbol, dn))
  }

  predicate InRange(c: Config, g: Snapshot, at: Place) {
    |g.states| == |g.settled| == |g.notional| == c.symbols && at.symbol < c.symbols &&
    at.slot < |g.states[at.symbol].orders| == c.slots
  }

  lemma Ranges(c: Config, g: Snapshot)
    requires Coherent(c, g)
    ensures |g.states| == |g.settled| == |g.notional| == c.symbols &&
            forall s :: 0 <= s < c.symbols ==> |g.states[s].orders| == c.slots
    ensures g.pending == |g.ledger| == |g.book| == TotalOpen(g.states) <= c.maxPending && g.ledger.Keys == g.book.Keys
    ensures 0 !in g.ledger
  {
    assert Unfold(0);
    forall s | 0 <= s < c.symbols ensures |g.states[s].orders| == c.slots {
      assert SymbolOk(c, g.states[s], g.settled[s], g.notional[s]);
    }
  }

  lemma BalanceSlot(c: Config, g: Snapshot, g': Snapshot, at: Place, o: ActiveOrder, risk: RiskState, was: Sums,
      now: Sums, ds: int, dn: int)
    requires Balances(c, g) && InRange(c, g, at) && SlotOk(o)
    requires was == Weight(g.states[at.symbol].orders[at.slot]) && now == Weight(o) &&
             Booked(g.states[at.symbol].risk, risk, was, now, ds, dn)
    requires g'.states == SetSlot(g.states, at, o, risk)
    requires g'.settled == Settle(g.settled, at.symbol, ds) && g'.notional == Settle(g.notional, at.symbol, dn)
    ensures Balances(c, g') && TotalOpen(g'.states) == TotalOpen(g.states) - was.count + now.count
  {
    assert Accounts(c, g.states, g.settled, g.notional) by { assert Unfold(0); }
    assert SymbolOk(c, g.states[at.symbol], g.settled[at.symbol], g.notional[at.symbol]);
    AccountSlot(c, g.states, g.settled, g.notional, at, o, risk, was, now, ds, dn);
    SealBalances(c, g');
  }

  lemma SealBalances(c: Config, g: Snapshot)
    requires Accounts(c, g.states, g.settled, g.notional)
    ensures Balances(c, g)
  {
  }

  lemma DropOne<V>(m: map<nat, V>, k: nat)
    requires k in m
    ensures |m - {k}| == |m| - 1
  {
    assert m.Keys == (m - {k}).Keys + {k};
    assert |m| == |m.Keys| && |m - {k}| == |(m - {k}).Keys|;
  }

  lemma SetOne<V>(m: map<nat, V>, k: nat, v: V)
    requires k in m
    ensures |m[k := v]| == |m|
  {
    assert m.Keys == m[k := v].Keys;
    assert |m| == |m.Keys| && |m[k := v]| == |m[k := v].Keys|;
  }

  /** The four structures in plain terms: one count of open orders, one remaining quantity per
      open order, and per symbol a position and an exposure made of settled plus open parts. */
  /** Quantity of the open orders of one side (0 buys, 1 sells). */
  function OpenQty(orders: seq<ActiveOrder>, side: nat): int {
    if orders == [] then 0
    else
      var o := orders[|orders| - 1];
      OpenQty(orders[..|orders| - 1], side) +
      if (o.state == Working || o.state == Partial) && o.side == side then o.qty else 0
  }

  /** Notional of the open orders, whatever their side. */
  function OpenNotional(orders: seq<ActiveOrder>): int {
    if orders == [] then 0
    else
      var o := orders[|orders| - 1];
      OpenNotional(orders[..|orders| - 1]) + if o.state == Working || o.state == Partial then o.price * o.qty else 0
  }

  /** The slots of the open orders. */
  function OpenSlots(orders: seq<ActiveOrder>): set<nat> {
    set i: nat | i < |orders| && (orders[i].state == Working || orders[i].state == Partial)
  }

  lemma {:induction false} OpenBySide(orders: seq<ActiveOrder>)
    requires SlotsOk(orders)
    ensures Open(orders).signed == OpenQty(orders, 0) - OpenQty(orders, 1)
    ensures Open(orders).notional == OpenNotional(orders)
  {
    if orders != [] {
      var n := |orders| - 1;
      OpenBySide(orders[..n]);
      assert SlotOk(orders[n]);
      assert Open(orders) == Open(orders[..n]).Plus(Weight(orders[n]));
    }
  }

  lemma {:induction false} OpenCounted(orders: seq<ActiveOrder>)
    ensures Open(orders).count == |OpenSlots(orders)|
  {
    if orders != [] {
      var n := |orders| - 1;
      OpenCounted(orders[..n]);
      assert Open(orders) == Open(orders[..n]).Plus(Weight(orders[n]));
      OneMoreSlot(orders, n, OpenSlots(orders[..n]), OpenSlots(orders));
    }
  }

  lemma OneMoreSlot(orders: seq<ActiveOrder>, n: nat, before: set<nat>, all: set<nat>)
    requires n + 1 == |orders| && before == OpenSlots(orders[..n]) && all == OpenSlots(orders)
    ensures |all| == |before| + if orders[n].IsLive() then 1 else 0
  {
    assert n !in before;
    if orders[n].IsLive() {
      assert all == before + {n};
    } else {
      assert all == before;
    }
  }

  /** Everything the gateway keeps tells the same: of every symbol, the position is what was bought
      less what was sold, plus the open buys, less the open sells; the exposure is the notional of
      the fills and of the open orders. */
  lemma OneStory(c: Config, g: Snapshot)
    requires Coherent(c, g)
    ensures g.pending == |g.ledger| == TotalOpen(g.states) && |g.states| == |g.settled| == |g.notional| == c.symbols
    ensures forall s {:trigger g.states[s]} :: 0 <= s < c.symbols ==>
              g.states[s].risk.orderCount == |OpenSlots(g.states[s].orders)| &&
              g.states[s].risk.net ==
              g.settled[s] + OpenQty(g.states[s].orders, 0) - OpenQty(g.states[s].orders, 1) &&
              g.states[s].risk.gross == g.notional[s] + OpenNotional(g.states[s].orders)
    ensures forall s, i {:trigger g.states[s].orders[i]} ::
              0 <= s < c.symbols && 0 <= i < |g.states[s].orders| && g.states[s].orders[i].IsLive() ==>
              g.states[s].orders[i].id in g.ledger && g.ledger[g.states[s].orders[i].id] == g.states[s].orders[i].qty
  {
    assert Accounts(c, g.states, g.settled, g.notional) by { assert Unfold(0); }
    forall s {:trigger g.states[s]} | 0 <= s < c.symbols
      ensures g.states[s].risk.orderCount == |OpenSlots(g.states[s].orders)|
      ensures g.states[s].risk.net ==
              g.settled[s] + OpenQty(g.states[s].orders, 0) - OpenQty(g.states[s].orders, 1)
      ensures g.states[s].risk.gross == g.notional[s] + OpenNotional(g.states[s].orders)
    {
      assert SymbolOk(c, g.states[s], g.settled[s], g.notional[s]);
      OpenBySide(g.states[s].orders);
      OpenCounted(g.states[s].orders);
    }
    forall s, i | 0 <= s < c.symbols && 0 <= i < |g.states[s].orders| && g.states[s].orders[i].IsLive()
      ensures g.states[s].orders[i].id in g.ledger && g.ledger[g.states[s].orders[i].id] == g.states[s].orders[i].qty
    {
      SlotInLedger(g, Place(s, i));
    }
  }

  lemma SlotInLedger(g: Snapshot, at: Place)
    requires Links(g) && at.symbol < |g.states| && at.slot < |g.states[at.symbol].orders| &&
             g.states[at.symbol].orders[at.slot].IsLive()
    ensures var o := g.states[at.symbol].orders[at.slot]; o.id in g.ledger && g.ledger[o.id] == o.qty
  {
    assert Linked(g.states, g.ledger, g.book, g.places, g.used) by { assert Unfold(0); }
    assert SlotLinked(g.states[at.symbol].orders[at.slot], at, g.places, g.used);
  }

  /** Admission: slot, risk figures, ledger, book and pending count move together. */
  lemma KeepNew(c: Config, g: Snapshot, g': Snapshot, at: Place, o: ActiveOrder, risk: RiskState, t: Recovery.Terms)
    requires Coherent(c, g) && InRange(c, g, at) && g.pending < c.maxPending
    requires !g.states[at.symbol].orders[at.slot].IsLive() && o.IsLive() && SlotOk(o) && o.id !in g.used &&
             Matches(o, t)
    requires Booked(g.states[at.symbol].risk, risk, Sums(0, 0, 0), Weight(o), 0, 0)
    requires g' == Admitted(g, at, o, risk, t)
    ensures Coherent(c, g')
  {
    SameAmounts(g, at.symbol);
    BalanceSlot(c, g, g', at, o, risk, Sums(0, 0, 0), Weight(o), 0, 0);
    assert Links(g') && o.id !in g.ledger && o.id !in g.book by {
      assert Linked(g.states, g.ledger, g.book, g.places, g.used) by { assert Unfold(0); }
      LinkNew(g.states, g'.states, g.ledger, g.book, g.places, g.used, at, o, risk, t);
    }
  }

  lemma SameAmounts(g: Snapshot, s: nat)
    requires s < |g.settled| == |g.notional|
    ensures g.settled == Settle(g.settled, s, 0) && g.notional == Settle(g.notional, s, 0)
  {
  }

  /** A fill that leaves the order open, or a replacement. */
  lemma KeepAmended(c: Config, g: Snapshot, g': Snapshot, at: Place, o: ActiveOrder, risk: RiskState, t: Recovery.Terms,
      was: Sums, ds: int, dn: int)
    requires Coherent(c, g) && InRange(c, g, at) && o.IsLive() && SlotOk(o) && Matches(o, t)
    requires g.states[at.symbol].orders[at.slot].IsLive() && g.states[at.symbol].orders[at.slot].id == o.id
    requires was == Weight(g.states[at.symbol].orders[at.slot]) &&
             Booked(g.states[at.symbol].risk, risk, was, Weight(o), ds, dn)
    requires g' == Amended(g, at, o, risk, t, ds, dn)
    ensures Coherent(c, g')
  {
    BalanceSlot(c, g, g', at, o, risk, was, Weight(o), ds, dn);
    assert Links(g') && o.id in g.ledger && o.id in g.book by {
      assert Linked(g.states, g.ledger, g.book, g.places, g.used) by { assert Unfold(0); }
      LinkAmended(g.states, g'.states, g.ledger, g.book, g.places, g.used, at, o, risk, t);
    }
    SetOne(g.ledger, o.id, o.qty);
    SetOne(g.book, o.id, t);
  }

  /** A cancel, a rejection or a closing fill. */
  lemma KeepGone(c: Config, g: Snapshot, g': Snapshot, at: Place, o: ActiveOrder, risk: RiskState, id: nat, was: Sums,
      ds: int, dn: int)
    requires Coherent(c, g) && InRange(c, g, at) && SlotOk(o) && (o == EMPTY_SLOT || (o.state == Done && o.id == id))
    requires g.states[at.symbol].orders[at.slot].IsLive() && g.states[at.symbol].orders[at.slot].id == id &&
             g.pending > 0
    requires was == Weight(g.states[at.symbol].orders[at.slot]) &&
             Booked(g.states[at.symbol].risk, risk, was, Sums(0, 0, 0), ds, dn)
    requires g' == Gone(g, at, o, risk, id, ds, dn)
    ensures Coherent(c, g')
  {
    BalanceSlot(c, g, g', at, o, risk, was, Sums(0, 0, 0), ds, dn);
    assert Links(g') && id in g.ledger && id in g.book by {
      assert Linked(g.states, g.ledger, g.book, g.places, g.used) by { assert Unfold(0); }
      LinkGone(g.states, g'.states, g.ledger, g.book, g.places, g.used, at, o, risk, id);
    }
    DropOne(g.ledger, id);
    DropOne(g.book, id);
  }

  /** The order is open and belongs to the symbol. */
  predicate OpenAt(g: Snapshot, symbol: nat, id: nat) {
    id in g.book && id in g.places && g.places[id].symbol == symbol
  }

  predicate Bears(o: ActiveOrder, id: nat, skipDone: bool) {
    o.id == id && o.state != Free && !(skipDone && o.state == Done)
  }

  /** The first slot that bears the identifier, the slot count when there is none. */
  predicate FirstBearing(orders: seq<ActiveOrder>, id: nat, skipDone: bool, i: nat) {
    i <= |orders| && (i < |orders| ==> Bears(orders[i], id, skipDone)) &&
    forall j :: 0 <= j < i ==> !Bears(orders[j], id, skipDone)
  }

  /** The scan ends on a live slot exactly when the order is open at the symbol. */
  lemma ScanFindsOpen(c: Config, g: Snapshot, symbol: nat, id: nat, skipDone: bool, i: nat)
    requires Coherent(c, g) && symbol < |g.states| && FirstBearing(g.states[symbol].orders, id, skipDone, i)
    ensures (i < |g.states[symbol].orders| && g.states[symbol].orders[i].IsLive()) <==> OpenAt(g, symbol, id)
    ensures OpenAt(g, symbol, id) ==>
              i < c.slots && g.places[id] == Place(symbol, i) && id in g.ledger &&
              Holds(g.states[symbol].orders[i], id, g.ledger, g.book) &&
              SlotOk(g.states[symbol].orders[i]) && g.pending > 0 && g.states[symbol].risk.orderCount > 0 && id != 0
    ensures !OpenAt(g, symbol, id) && i < |g.states[symbol].orders| ==> id !in g.ledger
  {
    var orders := g.states[symbol].orders;
    assert SymbolOk(c, g.states[symbol], g.settled[symbol], g.notional[symbol]) && symbol < c.symbols by {
      assert Accounts(c, g.states, g.settled, g.notional) by { assert Unfold(0); }
    }
    assert Linked(g.states, g.ledger, g.book, g.places, g.used) by { assert Unfold(0); }
    if i < |orders| {
      assert SlotLinked(orders[i], Place(symbol, i), g.places, g.used);
    }
    if OpenAt(g, symbol, id) {
      var at := g.places[id];
      assert Holds(orders[at.slot], id, g.ledger, g.book) && Bears(orders[at.slot], id, skipDone);
      OpenUpdate(orders, at.slot, EMPTY_SLOT);
    }
  }

  /** Outcome of the scan for an identifier among a symbol's slots. */
  ghost predicate Located(c: Config, g: Snapshot, symbol: nat, id: nat, i: nat) {
    |g.states| == |g.settled| == |g.notional| == c.symbols && symbol < c.symbols &&
    |g.states[symbol].orders| == c.slots && i <= c.slots &&
    (OpenAt(g, symbol, id) <==> i < c.slots && g.states[symbol].orders[i].IsLive()) &&
    (OpenAt(g, symbol, id) ==> OpenSlot(c, g, Place(symbol, i), id) && g.places[id] == Place(symbol, i)) &&
    (!OpenAt(g, symbol, id) && i < c.slots ==>
       id !in g.ledger && g.states[symbol].orders[i].state == Done && g.states[symbol].orders[i].id == id)
  }

  /** The slot of an open order, and what the other structures say of it. */
  ghost predicate OpenSlot(c: Config, g: Snapshot, at: Place, id: nat) {
    InRange(c, g, at) && id != 0 && id in g.places && g.places[id] == at && id in g.ledger && id in g.book &&
    Holds(g.states[at.symbol].orders[at.slot], id, g.ledger, g.book) &&
    SlotOk(g.states[at.symbol].orders[at.slot]) && g.pending > 0 && g.states[at.symbol].risk.orderCount > 0
  }

  lemma Locate(c: Config, g: Snapshot, symbol: nat, id: nat, skipDone: bool, i: nat)
    requires Coherent(c, g) && symbol < c.symbols && |g.states| == c.symbols &&
             FirstBearing(g.states[symbol].orders, id, skipDone, i)
    ensures Located(c, g, symbol, id, i)
  {
    Ranges(c, g);
    ScanFindsOpen(c, g, symbol, id, skipDone, i);
  }

  lemma UnusedIsNew(c: Config, g: Snapshot, id: nat)
    requires Coherent(c, g) && id !in g.used
    ensures id !in g.book && id !in g.ledger && id !in g.places
  {
    assert Linked(g.states, g.ledger, g.book, g.places, g.used) by { assert Unfold(0); }
  }

  lemma OpenSomewhere(c: Config, g: Snapshot, id: nat)
    requires Coherent(c, g)
    ensures id in g.book <==> id in g.places && g.places[id].symbol < c.symbols && OpenAt(g, g.places[id].symbol, id)
    ensures id == 0 ==> id !in g.book
  {
    assert Linked(g.states, g.ledger, g.book, g.places, g.used) by { assert Unfold(0); }
    if id in g.book {
      OpenInRange(c, g, g.places[id].symbol, id);
    }
  }

  /** An open order has a live slot with its terms. */
  lemma OpenHasSlot(c: Config, g: Snapshot, id: nat)
    requires Coherent(c, g) && id in g.book
    ensures id in g.places && HasPlace(g, g.places[id])
    ensures var o := g.states[g.places[id].symbol].orders[g.places[id].slot];
            o.IsLive() && o.id == id && Matches(o, g.book[id])
  {
    Ranges(c, g);
    assert Linked(g.states, g.ledger, g.book, g.places, g.used) by { assert Unfold(0); }
  }

  /** An open order is in the ledger with what remains of it. */
  lemma OpenInLedger(c: Config, g: Snapshot, id: nat)
    requires Coherent(c, g) && id in g.book
    ensures id != 0 && id in g.ledger && g.ledger[id] == g.book[id].remaining
  {
    assert Linked(g.states, g.ledger, g.book, g.places, g.used) by { assert Unfold(0); }
  }

  /** A live slot holds an open order with the slot's terms. */
  lemma SlotIsOpen(c: Config, g: Snapshot, s: nat, i: nat)
    requires Coherent(c, g) && s < |g.states| && i < |g.states[s].orders| && g.states[s].orders[i].IsLive()
    ensures g.states[s].orders[i].id in g.book && Matches(g.states[s].orders[i], g.book[g.states[s].orders[i].id])
  {
    assert Linked(g.states, g.ledger, g.book, g.places, g.used) by { assert Unfold(0); }
  }

  lemma {:induction false} IdleOpen(orders: seq<ActiveOrder>)
    requires forall i :: 0 <= i < |orders| ==> orders[i] == EMPTY_SLOT
    ensures Open(orders) == Sums(0, 0, 0)
  {
    if orders != [] {
      var last := |orders| - 1;
      IdleOpen(orders[..last]);
      assert !orders[last].IsLive();
    }
  }

  lemma {:induction false} IdleTotal(states: seq<SymbolState>)
    requires forall s :: 0 <= s < |states| ==> Open(states[s].orders).count == 0
    ensures TotalOpen(states) == 0
  {
    if states != [] {
      IdleTotal(states[..|states| - 1]);
    }
  }

  lemma StartsCoherent(c: Config, g: Snapshot, idle: SymbolState)
    requires |g.states| == |g.settled| == |g.notional| == c.symbols && |idle.orders| == c.slots
    requires forall s :: 0 <= s < c.symbols ==> g.states[s] == idle && g.settled[s] == 0 && g.notional[s] == 0
    requires forall i :: 0 <= i < c.slots ==> idle.orders[i] == EMPTY_SLOT
    requires idle.risk.orderCount == idle.risk.net == idle.risk.gross == 0
    requires g.pending == 0 && g.ledger == map[] && g.book == map[] && g.places == map[] && g.used == {}
    ensures Coherent(c, g)
  {
    IdleOpen(idle.orders);
    IdleTotal(g.states);
    StartsBalanced(c, g, idle);
    StartsLinked(c, g, idle);
  }

  lemma StartsBalanced(c: Config, g: Snapshot, idle: SymbolState)
    requires |g.states| == |g.settled| == |g.notional| == c.symbols && SymbolOk(c, idle, 0, 0)
    requires forall s :: 0 <= s < c.symbols ==> g.states[s] == idle && g.settled[s] == 0 && g.notional[s] == 0
    ensures Balances(c, g)
  {
    SealBalances(c, g);
  }

  lemma StartsLinked(c: Config, g: Snapshot, idle: SymbolState)
    requires |g.states| == c.symbols && |idle.orders| == c.slots
    requires forall s :: 0 <= s < c.symbols ==> g.states[s] == idle
    requires forall i :: 0 <= i < c.slots ==> idle.orders[i] == EMPTY_SLOT
    requires g.ledger == map[] && g.book == map[] && g.places == map[] && g.used == {}
    ensures Links(g)
  {
    forall s, i | 0 <= s < |g.states| && 0 <= i < |g.states[s].orders|
      ensures SlotLinked(g.states[s].orders[i], Place(s, i), g.places, g.used)
    {
      assert g.states[s].orders[i] == EMPTY_SLOT;
    }
  }

  lemma OpenInRange(c: Config, g: Snapshot, symbol: nat, id: nat)
    requires Coherent(c, g) && OpenAt(g, symbol, id)
    ensures symbol < c.symbols
  {
    assert Unfold(0);
  }

  /** Nothing but halt flags and rejection counts has changed. */
  ghost predicate Unmoved(g: Snapshot, g': Snapshot) {
    g'.(states := g.states) == g && SameBooks(g.states, g'.states)
  }

  lemma OpenSlotUnmoved(c: Config, g: Snapshot, g': Snapshot, at: Place, id: nat)
    requires OpenSlot(c, g, at, id) && Unmoved(g, g')
    ensures OpenSlot(c, g', at, id) && g'.states[at.symbol].orders[at.slot] == g.states[at.symbol].orders[at.slot]
  {
    assert g.states[at.symbol].orders == g'.states[at.symbol].orders;
  }

  /** Scanning for a nonzero identifier alone, whatever the slot's state, finds the same slot. */
  lemma IdIsEnough(c: Config, g: Snapshot, symbol: nat, id: nat, i: nat)
    requires Coherent(c, g) && symbol < c.symbols && |g.states| == c.symbols && id != 0 &&
             i <= |g.states[symbol].orders|
    requires i < |g.states[symbol].orders| ==> g.states[symbol].orders[i].id == id
    requires forall j :: 0 <= j < i ==> g.states[symbol].orders[j].id != id
    ensures Located(c, g, symbol, id, i)
  {
    var orders := g.states[symbol].orders;
    assert SlotsOk(orders) by {
      assert Accounts(c, g.states, g.settled, g.notional) by { assert Unfold(0); }
      assert SymbolOk(c, g.states[symbol], g.settled[symbol], g.notional[symbol]);
    }
    assert i < |orders| ==> SlotOk(orders[i]);
    assert FirstBearing(orders, id, false, i);
    Locate(c, g, symbol, id, false, i);
  }

  /** Room in the open-order count means a slot that is not live. */
  lemma SlotForNew(c: Config, g: Snapshot, symbol: nat)
    requires Coherent(c, g) && symbol < c.symbols && |g.states| == c.symbols &&
             g.states[symbol].risk.orderCount < c.slots
    ensures |g.states[symbol].orders| == c.slots && exists i :: 0 <= i < c.slots && !g.states[symbol].orders[i].IsLive()
  {
    assert Accounts(c, g.states, g.settled, g.notional) by { assert Unfold(0); }
    assert SymbolOk(c, g.states[symbol], g.settled[symbol], g.notional[symbol]);
    RoomHasSlot(g.states[symbol].orders);
  }

  /** As before, but for halt flags, rejection counts and perhaps a free slot where a
      terminal snapshot was. */
  ghost predicate Restored(g: Snapshot, g': Snapshot) {
    g'.(states := g.states, used := g.used) == g && |g.states| == |g'.states| &&
    (forall s {:trigger g'.states[s]} :: 0 <= s < |g.states| ==>
       g.states[s].risk.(halted := false, rejects := 0) == g'.states[s].risk.(halted := false, rejects := 0) &&
       |g.states[s].orders| == |g'.states[s].orders|) &&
    (forall s, i {:trigger g'.states[s].orders[i]} :: 0 <= s < |g.states| && 0 <= i < |g.states[s].orders| ==>
       g'.states[s].orders[i] == g.states[s].orders[i] ||
       (!g.states[s].orders[i].IsLive() && g'.states[s].orders[i] == EMPTY_SLOT))
  }

  lemma UnmovedIsRestored(g: Snapshot, g': Snapshot)
    requires Unmoved(g, g')
    ensures Restored(g, g')
  {
    forall s | 0 <= s < |g.states|
      ensures g.states[s].risk.(halted := false, rejects := 0) == g'.states[s].risk.(halted := false, rejects := 0) &&
              g.states[s].orders == g'.states[s].orders
    {
    }
  }

  lemma RestoredThenFlagged(a: Snapshot, b: Snapshot, d: Snapshot)
    requires Restored(a, b) && Unmoved(b, d)
    ensures Restored(a, d)
  {
    forall s | 0 <= s < |a.states|
      ensures b.states[s].risk.(halted := false, rejects := 0) == d.states[s].risk.(halted := false, rejects := 0) &&
              b.states[s].orders == d.states[s].orders
    {
    }
  }

  // ----- Flags -----

  /** Equal but for halt flags and rejection counts. */
  ghost predicate SameBooks(a: seq<SymbolState>, b: seq<SymbolState>) {
    |a| == |b| && forall s {:trigger a[s]} {:trigger b[s]} :: 0 <= s < |a| ==>
      a[s].orders == b[s].orders &&
      a[s].risk.(halted := false, rejects := 0) == b[s].risk.(halted := false, rejects := 0)
  }

  lemma {:induction false} SameTotal(a: seq<SymbolState>, b: seq<SymbolState>)
    requires SameBooks(a, b)
    ensures TotalOpen(a) == TotalOpen(b)
  {
    if a != [] {
      SameTotal(a[..|a| - 1], b[..|b| - 1]);
    }
  }

  lemma FlagsKeep(c: Config, g: Snapshot, b: seq<SymbolState>)
    requires Coherent(c, g) && SameBooks(g.states, b)
    ensures Coherent(c, g.(states := b))
  {
    assert Accounts(c, g.states, g.settled, g.notional) &&
           Linked(g.states, g.ledger, g.book, g.places, g.used) by { assert Unfold(0); }
    SameTotal(g.states, b);
    FlagsAccounts(c, g.states, b, g.settled, g.notional);
    FlagsLinked(g.states, b, g.ledger, g.book, g.places, g.used);
  }

  lemma FlagsAccounts(c: Config, a: seq<SymbolState>, b: seq<SymbolState>, settled: seq<int>, notional: seq<int>)
    requires Accounts(c, a, settled, notional) && SameBooks(a, b)
    ensures Accounts(c, b, settled, notional)
  {
    forall s | 0 <= s < |b| ensures SymbolOk(c, b[s], settled[s], notional[s]) {
      assert SymbolOk(c, a[s], settled[s], notional[s]);
    }
  }

  lemma FlagsLinked(a: seq<SymbolState>, b: seq<SymbolState>, ledger: map<nat, int>, book: Recovery.Orders,
      places: map<nat, Place>, used: set<nat>)
    requires Linked(a, ledger, book, places, used) && SameBooks(a, b)
    ensures Linked(b, ledger, book, places, used)
  {
    forall s, i | 0 <= s < |b| && 0 <= i < |b[s].orders|
      ensures SlotLinked(b[s].orders[i], Place(s, i), places, used)
    {
      assert SlotLinked(a[s].orders[i], Place(s, i), places, used);
    }
  }
}
