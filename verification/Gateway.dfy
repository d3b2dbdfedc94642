/** The execution gateway: admission, fills, cancels, replacements and rejections keep the
    slots, the risk figures, the reconciliation ledger, the rate limiter and the write-ahead
    log telling the same story. */
module Gateway {
  import opened GatewayState
  import opened PreTrade
  import opened Folding
  import opened Options
  import L = Ledger
  import R = Recovery

  /** The ledger's fill report, as the finite map it stands for. */
  function LedgerFill(m: map<nat, int>, id: nat, filled: int, terminal: bool): (map<nat, int>, bool) {
    if id in m && 0 < filled <= m[id] then
      (if terminal || filled == m[id] then m - {id} else m[id := m[id] - filled], true)
    else (m, false)
  }

  /** What a fill leaves of the open orders. */
  function Filled(m: R.Orders, id: nat, filled: int, terminal: bool): R.Orders
    requires id in m
  {
    if terminal || filled == m[id].remaining then m - {id} else m[id := m[id].(remaining := m[id].remaining - filled)]
  }

  /** The other symbols are untouched. */
  ghost predicate OthersSame(g: Snapshot, g': Snapshot, symbol: nat) {
    |g.states| == |g'.states| && forall s {:trigger g'.states[s]} ::
      0 <= s < |g.states| && s != symbol ==> g'.states[s] == g.states[s]
  }

  /** The symbol, if it exists, is halted and no other one is touched. */
  ghost predicate Halts(g: Snapshot, g': Snapshot, symbol: nat) {
    OthersSame(g, g', symbol) &&
    (symbol < |g'.states| ==>
      g'.states[symbol].risk.halted && g'.states[symbol].risk.rejects == g.states[symbol].risk.rejects)
  }

  /** Of the symbol's slots only this one changes, and of its risk figures only position, exposure and order
      count, besides the flags. */
  ghost predicate OnlyAt(g: Snapshot, g': Snapshot, at: Place) {
    HasPlace(g, at) && HasPlace(g', at) && OthersSame(g, g', at.symbol) &&
    g'.states[at.symbol].orders == g.states[at.symbol].orders[at.slot := SlotAt(g', at)] &&
    g'.states[at.symbol].risk.drawdown == g.states[at.symbol].risk.drawdown
  }

  /** The risk figures of the symbol moved by these amounts; a buy counts up and a sell down. */
  ghost predicate Shifted(g: Snapshot, g': Snapshot, symbol: nat, side: nat, qty: int, notional: int, orders: int) {
    symbol < |g.states| == |g'.states| &&
    var was, risk := g.states[symbol].risk, g'.states[symbol].risk;
    risk.net == (if side % 2 == 0 then was.net + qty else was.net - qty) && risk.gross == was.gross + notional &&
    risk.orderCount == was.orderCount + orders
  }

  /** The symbol's flags are as they were. */
  ghost predicate SameFlags(g: Snapshot, g': Snapshot, symbol: nat) {
    symbol < |g.states| == |g'.states| && g'.states[symbol].risk.halted == g.states[symbol].risk.halted &&
    g'.states[symbol].risk.rejects == g.states[symbol].risk.rejects
  }

  /** A terminal snapshot of the order is still in a slot of the symbol. */
  ghost predicate Finished(g: Snapshot, symbol: nat, id: nat) {
    symbol < |g.states| && exists i ::
      0 <= i < |g.states[symbol].orders| && g.states[symbol].orders[i].state == Done &&
      g.states[symbol].orders[i].id == id
  }

  /** One more rejection is counted; the symbol is halted if it was or is to be. */
  ghost predicate Flagged(g: Snapshot, g': Snapshot, symbol: nat, halt: bool) {
    symbol < |g.states| == |g'.states| && g'.states[symbol].risk.rejects == g.states[symbol].risk.rejects + 1 &&
    g'.states[symbol].risk.halted == (g.states[symbol].risk.halted || halt)
  }

  /** The order is gone with what was reserved for it, nothing is settled. */
  ghost predicate AfterCancel(g: Snapshot, g': Snapshot, symbol: nat, id: nat) {
    id in g.places && g.places[id].symbol == symbol && OnlyAt(g, g', g.places[id]) &&
    SlotAt(g', g.places[id]) == EMPTY_SLOT &&
    (var o := SlotAt(g, g.places[id]); Shifted(g, g', symbol, o.side, -o.qty, -(o.price * o.qty), -1)) &&
    g'.book == g.book - {id} && g'.ledger == g.ledger - {id} && g'.settled == g.settled && g'.notional == g.notional &&
    g'.used == g.used && g'.pending == g.pending - 1 && g'.places == g.places - {id}
  }

  /** The order has a new quantity and price, and the reservation follows; nothing is settled. */
  ghost predicate AfterReplace(g: Snapshot, g': Snapshot, symbol: nat, id: nat, qty: int, price: int) {
    id in g.places && g.places[id].symbol == symbol && OnlyAt(g, g', g.places[id]) &&
    SlotAt(g', g.places[id]) == SlotAt(g, g.places[id]).(qty := qty, price := price) &&
    (var o := SlotAt(g, g.places[id]); Shifted(g, g', symbol, o.side, qty - o.qty, price * qty - o.price * o.qty, 0)) &&
    id in g.book && g'.book == g.book[id := g.book[id].(remaining := qty, price := price)] &&
    g'.ledger == g.ledger[id := qty] && g'.settled == g.settled && g'.notional == g.notional && g'.used == g.used &&
    g'.pending == g.pending && g'.places == g.places
  }

  /** The slot counts the fill, and becomes a terminal snapshot if the order is closed. What was reserved stays
      counted, except what a closing fill leaves unfilled. */
  ghost predicate SlotFilled(g: Snapshot, g': Snapshot, id: nat, filled: int, terminal: bool) {
    id in g.places && OnlyAt(g, g', g.places[id]) &&
    var o := SlotAt(g, g.places[id]);
    SlotAt(g', g.places[id]) ==
      o.(qty := o.qty - filled, filled := o.filled + filled,
      state := if terminal || o.qty == filled then Done else Partial) &&
    if terminal then
      Shifted(g, g', g.places[id].symbol, o.side, filled - o.qty, o.price * filled - o.price * o.qty, -1)
    else Shifted(g, g', g.places[id].symbol, o.side, 0, 0, if o.qty == filled then -1 else 0)
  }

  ghost function SlotAt(g: Snapshot, at: Place): ActiveOrder
    requires HasPlace(g, at)
  {
    g.states[at.symbol].orders[at.slot]
  }

  /** A fill moves the order, the settled quantity and the fill notional, all at the order's own price and side. */
  ghost predicate AfterFill(g: Snapshot, g': Snapshot, symbol: nat, id: nat, filled: int, terminal: bool) {
    id in g.book && id in g.ledger && symbol < |g.settled| == |g.notional| && g'.used == g.used &&
    SlotFilled(g, g', id, filled, terminal) && g.places[id].symbol == symbol &&
    (if terminal || filled == g.book[id].remaining then
       g'.book == g.book - {id} && g'.ledger == g.ledger - {id} && g'.places == g.places - {id} &&
       g'.pending == g.pending - 1
     else
       g'.book == g.book[id := g.book[id].(remaining := g.book[id].remaining - filled)] &&
       g'.ledger == g.ledger[id := g.ledger[id] - filled] && g'.places == g.places && g'.pending == g.pending) &&
    g'.settled == g.settled[symbol := if g.book[id].side % 2 == 0 then g.settled[symbol] + filled
                                      else g.settled[symbol] - filled] &&
    g'.notional == g.notional[symbol := g.notional[symbol] + g.book[id].price * filled]
  }

  /** Every check that precedes the reservation. */
  ghost predicate Passes(c: Config, limits: seq<RiskLimits>, g: Snapshot, intent: OrderIntent, allowed: bool) {
    intent.symbol < c.symbols && |g.states| == |limits| == c.symbols && allowed && g.pending < c.maxPending &&
    Evaluate(limits[intent.symbol], g.states[intent.symbol].risk, intent).pass &&
    g.states[intent.symbol].risk.orderCount < c.slots &&
    intent.id != 0 && |g.ledger| < c.ledgerCapacity
  }

  /** A refused order halts its symbol when the breaker or the rate limit refused it, or when it
      passed the risk checks and the symbol has no slot left. */
  ghost predicate Stops(c: Config, limits: seq<RiskLimits>, g: Snapshot, intent: OrderIntent, allowed: bool) {
    intent.symbol < |limits| && intent.symbol < |g.states| &&
    (!allowed || g.pending == c.maxPending ||
     (Evaluate(limits[intent.symbol], g.states[intent.symbol].risk, intent).pass &&
      g.states[intent.symbol].risk.orderCount >= c.slots))
  }

  /** A refused order trips the breaker when every check passed and the ledger, the audit or the log was what
      refused it. */
  ghost predicate Trips(c: Config, limits: seq<RiskLimits>, g: Snapshot, intent: OrderIntent, allowed: bool) {
    intent.symbol < |limits| && intent.symbol < |g.states| && allowed && g.pending < c.maxPending &&
    Evaluate(limits[intent.symbol], g.states[intent.symbol].risk, intent).pass &&
    g.states[intent.symbol].risk.orderCount < c.slots
  }

  /** The reasons of a refusal: the broken limits and a lack of slots; `Halted` for the breaker, the
      rate limit and a failed write; `BadPosition` for the ledger. */
  ghost function Blames(c: Config, limits: seq<RiskLimits>, g: Snapshot, intent: OrderIntent,
      allowed: bool): set<Reason>
  {
    if intent.symbol >= |limits| || intent.symbol >= |g.states| then {InvalidSymbol}
    else if !allowed || g.pending == c.maxPending then {Halted}
    else
      var d := Evaluate(limits[intent.symbol], g.states[intent.symbol].risk, intent);
      if !d.pass || g.states[intent.symbol].risk.orderCount >= c.slots then
        d.reasons + (if g.states[intent.symbol].risk.orderCount >= c.slots then {OrderCapacity} else {})
      else if intent.id == 0 || |g.ledger| >= c.ledgerCapacity then {BadPosition}
      else {Halted}
  }

  class ExecutionGateway {
    const c: Config
    const logging: bool
    var limits: seq<RiskLimits>
    var states: seq<SymbolState>
    var pending: nat
    var ledger: map<nat, int>
    const log: R.RecoveryLedger
    var tripped: bool
    /** Open orders by identifier, and where their slots are. */
    ghost var book: R.Orders
    ghost var places: map<nat, Place>
    /** Signed filled quantity and fill notional of every symbol. */
    ghost var settled: seq<int>
    ghost var notional: seq<int>
    /** Identifiers ever admitted. */
    ghost var used: set<nat>

    ghost function Now(): Snapshot
      reads this
    {
      Snapshot(states, pending, ledger, book, places, settled, notional, used)
    }

    ghost predicate Valid()
      reads this
    {
      |limits| == c.symbols && Coherent(c, Now())
    }

    /** The log replays to the open orders. */
    ghost predicate Recorded()
      reads this, log
    {
      logging && UpTo(book)
    }

    ghost predicate UpTo(m: R.Orders)
      reads this, log
    {
      R.Replayed(log.records, c.maxPending) == Some(m)
    }

    constructor (c: Config, logging: bool, limits: seq<RiskLimits>)
      requires |limits| == c.symbols
      ensures Valid() && this.c == c && this.logging == logging && this.limits == limits
      ensures book == map[] && ledger == map[] && pending == 0 && fresh(log) && log.records == [] && used == {} &&
              (logging ==> Recorded())
      ensures settled == notional == seq(c.symbols, _ => 0) && !tripped && |states| == c.symbols
      ensures forall s :: 0 <= s < c.symbols ==>
                states[s] == SymbolState(seq(c.slots, _ => EMPTY_SLOT), RiskState(0, 0, 0, 0, 0, false))
    {
      this.c, this.logging, this.limits := c, logging, limits;
      var idle := SymbolState(seq(c.slots, _ => EMPTY_SLOT), RiskState(0, 0, 0, 0, 0, false));
      states := seq(c.symbols, _ => idle);
      log := new R.RecoveryLedger();
      pending, ledger, tripped := 0, map[], false;
      book, places, used := map[], map[], {};
      settled, notional := seq(c.symbols, _ => 0), seq(c.symbols, _ => 0);
      new;
      StartsCoherent(c, Now(), idle);
    }

    method HaltSymbol(symbol: nat)
      requires Valid() && symbol < c.symbols
      modifies this`states
      ensures Valid() && SameBooks(old(states), states) && Halts(old(Now()), Now(), symbol)
    {
      Ranges(c, Now());
      FlagsKeep(c, Now(), states[symbol := states[symbol].(risk := states[symbol].risk.(halted := true))]);
      states := states[symbol := states[symbol].(risk := states[symbol].risk.(halted := true))];
    }

    /** First slot of the symbol that bears the identifier; the slot count when none does. */
    method FindSlot(symbol: nat, id: nat, skipDone: bool) returns (i: nat)
      requires Valid() && symbol < c.symbols
      ensures Located(c, Now(), symbol, id, i) && FirstBearing(states[symbol].orders, id, skipDone, i)
    {
      Ranges(c, Now());
      i := 0;
      while i < c.slots
        invariant i <= c.slots
        invariant forall j :: 0 <= j < i ==> !Bears(states[symbol].orders[j], id, skipDone)
      {
        if Bears(states[symbol].orders[i], id, skipDone) {
          break;
        }
        i := i + 1;
      }
      Locate(c, Now(), symbol, id, skipDone, i);
    }

    /** Appends a record that describes the change from the open orders `before` to `next`. */
    method Log(e: R.Event, stored: bool, ghost before: R.Orders, ghost next: R.Orders) returns (ok: bool)
      requires e.id != 0 && e.quantity > 0 && R.Applied(before, e, c.maxPending) == Some(next)
      modifies log
      ensures ok <==> (logging ==> stored)
      ensures log.records == if ok && logging then old(log.records) + [e] else old(log.records)
      ensures ok && logging && old(UpTo(before)) ==> UpTo(next)
    {
      if !logging {
        return true;
      }
      R.ReplayedAppend(log.records, e, c.maxPending);
      ok := log.Append(e, stored);
    }

    method Store(nextStates: seq<SymbolState>, nextPending: nat, nextLedger: map<nat, int>, ghost g: Snapshot)
      requires g.states == nextStates && g.pending == nextPending && g.ledger == nextLedger
      modifies this`states, this`pending, this`ledger, this`book, this`places, this`settled, this`notional, this`used
      ensures Now() == g
    {
      states, pending, ledger := nextStates, nextPending, nextLedger;
      book, places, settled, notional, used := g.book, g.places, g.settled, g.notional, g.used;
    }

    /** Takes an open order out of its slot. */
    method Close(at: Place, o: ActiveOrder, risk: RiskState, id: nat, ghost was: Sums, ghost ds: int, ghost dn: int)
      requires Valid() && InRange(c, Now(), at) && SlotOk(o) && (o == EMPTY_SLOT || (o.state == Done && o.id == id))
      requires states[at.symbol].orders[at.slot].IsLive() && states[at.symbol].orders[at.slot].id == id && pending > 0
      requires was == Weight(states[at.symbol].orders[at.slot]) &&
               Booked(states[at.symbol].risk, risk, was, Sums(0, 0, 0), ds, dn)
      modifies this`states, this`pending, this`ledger, this`book, this`places, this`settled, this`notional, this`used
      ensures Valid() && Now() == Gone(old(Now()), at, o, risk, id, ds, dn)
    {
      ghost var g := Now();
      ghost var g' := Gone(g, at, o, risk, id, ds, dn);
      KeepGone(c, g, g', at, o, risk, id, was, ds, dn);
      Store(SetSlot(states, at, o, risk), pending - 1, ledger - {id}, g');
    }

    /** Changes an open order in its slot. */
    method Amend(at: Place, o: ActiveOrder, risk: RiskState, ghost t: R.Terms, ghost was: Sums, ghost ds: int,
        ghost dn: int)
      requires Valid() && InRange(c, Now(), at) && o.IsLive() && SlotOk(o) && Matches(o, t)
      requires states[at.symbol].orders[at.slot].IsLive() && states[at.symbol].orders[at.slot].id == o.id
      requires was == Weight(states[at.symbol].orders[at.slot]) &&
               Booked(states[at.symbol].risk, risk, was, Weight(o), ds, dn)
      modifies this`states, this`pending, this`ledger, this`book, this`places, this`settled, this`notional, this`used
      ensures Valid() && Now() == Amended(old(Now()), at, o, risk, t, ds, dn)
    {
      ghost var g := Now();
      ghost var g' := Amended(g, at, o, risk, t, ds, dn);
      KeepAmended(c, g, g', at, o, risk, t, was, ds, dn);
      Store(SetSlot(states, at, o, risk), pending, ledger[o.id := o.qty], g');
    }

    /** Refuses a report: the symbol is halted and the breaker tripped, nothing else moves. */
    method Refuse(symbol: nat)
      requires Valid() && symbol < c.symbols
      modifies this`states, this`tripped
      ensures Valid() && Unmoved(old(Now()), Now()) && tripped && Halts(old(Now()), Now(), symbol)
    {
      HaltSymbol(symbol);
      tripped := true;
    }

    /** A fill report. It succeeds exactly for an open order of that symbol, a quantity within
        what remains and a log that takes the record; a record once written is never refused
        by the ledger. */
    method ApplyExecution(symbol: nat, id: nat, filled: int, terminal: bool, now: nat, stored: bool) returns (ok: bool)
      requires Valid()
      modifies this, log
      ensures Valid() && limits == old(limits) && (old(Recorded()) ==> Recorded())
      ensures ok <==> OpenAt(old(Now()), symbol, id) && 0 < filled <= old(book)[id].remaining && (logging ==> stored)
      ensures !ok ==> Unmoved(old(Now()), Now())
      ensures !ok ==> tripped && Halts(old(Now()), Now(), symbol)
      ensures ok ==>
                AfterFill(old(Now()), Now(), symbol, id, filled, terminal) && SameFlags(old(Now()), Now(), symbol) &&
                tripped == old(tripped)
      ensures !(ok && logging) ==> log.records == old(log.records)
      ensures ok && logging ==>
                id in old(book) &&
                var t := old(book)[id];
                log.records == old(log.records) + [R.Event(if terminal && filled < t.remaining then R.TerminalFill
                  else R.Fill, id, filled, t.price, t.side % 2, now)]
    {
      if symbol >= c.symbols {
        Ranges(c, Now());
        if OpenAt(Now(), symbol, id) {
          OpenInRange(c, Now(), symbol, id);
        }
        tripped := true;
        return false;
      }
      var i := FindSlot(symbol, id, false);
      if i == c.slots {
        Refuse(symbol);
        return false;
      }
      var o := states[symbol].orders[i];
      if filled <= 0 || filled > o.qty || id !in ledger {
        Refuse(symbol);
        return false;
      }
      ok := CommitFill(Place(symbol, i), o, filled, terminal, now, stored);
    }

    method CommitFill(at: Place, o: ActiveOrder, filled: int, terminal: bool, now: nat, stored: bool) returns (ok: bool)
      requires Valid() && OpenSlot(c, Now(), at, o.id) && o == states[at.symbol].orders[at.slot] && 0 < filled <= o.qty
      modifies this, log
      ensures Valid() && limits == old(limits) && (old(Recorded()) ==> Recorded())
      ensures ok <==> (logging ==> stored)
      ensures !ok ==> Unmoved(old(Now()), Now())
      ensures !ok ==> tripped && Halts(old(Now()), Now(), at.symbol)
      ensures ok ==>
                AfterFill(old(Now()), Now(), at.symbol, o.id, filled, terminal) &&
                SameFlags(old(Now()), Now(), at.symbol) && tripped == old(tripped)
      ensures !(ok && logging) ==> log.records == old(log.records)
      ensures ok && logging ==>
                o.id in old(book) &&
                var t := old(book)[o.id];
                log.records == old(log.records) + [R.Event(if terminal && filled < t.remaining then R.TerminalFill
                  else R.Fill, o.id, filled, t.price, t.side % 2, now)]
    {
      var left := o.qty - filled;
      var e := R.Event(if terminal && left > 0 then R.TerminalFill else R.Fill, o.id, filled, o.price, o.side, now);
      ok := Log(e, stored, book, Filled(book, o.id, filled, terminal));
      if !ok {
        Refuse(at.symbol);
        return;
      }
      // The ledger's refusal after this point is unreachable.
      assert LedgerFill(ledger, o.id, filled, terminal).1;
      Fill(at, o, filled, terminal);
    }

    /** The slot, risk and ledger updates of an accepted fill. */
    method Fill(at: Place, o: ActiveOrder, filled: int, terminal: bool)
      requires Valid() && OpenSlot(c, Now(), at, o.id) && o == states[at.symbol].orders[at.slot] && 0 < filled <= o.qty
      modifies this`states, this`pending, this`ledger, this`book, this`places, this`settled, this`notional, this`used
      ensures Valid() && AfterFill(old(Now()), Now(), at.symbol, o.id, filled, terminal) &&
              SameFlags(old(Now()), Now(), at.symbol)
    {
      var left, risk := o.qty - filled, AfterFillRisk(states[at.symbol].risk, o, filled, terminal);
      var closes := terminal || left == 0;
      var next := o.(filled := o.filled + filled, qty := left, state := if closes then Done else Partial);
      FillBooks(states[at.symbol].risk, o, next, filled, terminal);
      FillShows(c, Now(), at, o, next, risk, filled, terminal);
      if closes {
        Close(at, next, risk, o.id, Weight(o), SignedQty(o.side, filled), o.price * filled);
      } else {
        Amend(at, next, risk, book[o.id].(remaining := left), Weight(o), SignedQty(o.side, filled), o.price * filled);
      }
    }

    /** A cancel report. A terminal order is left alone without halting the symbol. */
    method ApplyCancel(symbol: nat, id: nat, now: nat, stored: bool) returns (ok: bool)
      requires Valid()
      modifies this, log
      ensures Valid() && limits == old(limits) && (old(Recorded()) ==> Recorded())
      ensures ok <==> OpenAt(old(Now()), symbol, id) && (logging ==> stored)
      ensures !ok ==> Unmoved(old(Now()), Now())
      ensures !ok && (OpenAt(old(Now()), symbol, id) || !Finished(old(Now()), symbol, id)) ==>
                tripped && Halts(old(Now()), Now(), symbol)
      ensures !OpenAt(old(Now()), symbol, id) && Finished(old(Now()), symbol, id) ==>
                Now() == old(Now()) && tripped == old(tripped)
      ensures ok ==>
                AfterCancel(old(Now()), Now(), symbol, id) && SameFlags(old(Now()), Now(), symbol) &&
                tripped == old(tripped)
      ensures !(ok && logging) ==> log.records == old(log.records)
      ensures ok && logging ==>
                id in old(book) &&
                var t := old(book)[id];
                log.records == old(log.records) + [R.Event(R.Cancel, id, t.remaining, t.price, t.side % 2, now)]
    {
      if symbol >= c.symbols {
        Ranges(c, Now());
        if OpenAt(Now(), symbol, id) {
          OpenInRange(c, Now(), symbol, id);
        }
        tripped := true;
        return false;
      }
      var i := FindSlot(symbol, id, false);
      if i == c.slots {
        Refuse(symbol);
        return false;
      }
      var o := states[symbol].orders[i];
      if o.state == Done {
        return false;
      }
      assert id in ledger;
      ok := CommitCancel(Place(symbol, i), o, now, stored);
    }

    method CommitCancel(at: Place, o: ActiveOrder, now: nat, stored: bool) returns (ok: bool)
      requires Valid() && OpenSlot(c, Now(), at, o.id) && o == states[at.symbol].orders[at.slot]
      modifies this, log
      ensures Valid() && limits == old(limits) && (old(Recorded()) ==> Recorded())
      ensures ok <==> (logging ==> stored)
      ensures !ok ==> Unmoved(old(Now()), Now())
      ensures !ok ==> tripped && Halts(old(Now()), Now(), at.symbol)
      ensures ok ==>
                AfterCancel(old(Now()), Now(), at.symbol, o.id) && SameFlags(old(Now()), Now(), at.symbol) &&
                tripped == old(tripped)
      ensures !(ok && logging) ==> log.records == old(log.records)
      ensures ok && logging ==>
                o.id in old(book) &&
                var t := old(book)[o.id];
                log.records == old(log.records) + [R.Event(R.Cancel, o.id, t.remaining, t.price, t.side % 2, now)]
    {
      ok := Log(R.Event(R.Cancel, o.id, o.qty, o.price, o.side, now), stored, book, book - {o.id});
      if !ok {
        Refuse(at.symbol);
        return;
      }
      // The ledger's refusal after this point is unreachable.
      assert L.MapStep(c.ledgerCapacity, ledger, L.Close(o.id)).1;
      Withdraw(at, o);
    }

    /** Clears the slot of an open order and gives its reservation back. */
    method Withdraw(at: Place, o: ActiveOrder)
      requires Valid() && OpenSlot(c, Now(), at, o.id) && o == states[at.symbol].orders[at.slot]
      modifies this`states, this`pending, this`ledger, this`book, this`places, this`settled, this`notional, this`used
      ensures Valid() && AfterCancel(old(Now()), Now(), at.symbol, o.id)
      ensures pending == old(pending) - 1 && places == old(places) - {o.id}
      ensures states == SetSlot(old(states), at, EMPTY_SLOT, Withdrawn(old(states)[at.symbol].risk, o))
    {
      SameAmounts(Now(), at.symbol);
      Close(at, EMPTY_SLOT, Withdrawn(states[at.symbol].risk, o), o.id, Weight(o), 0, 0);
    }

    /** A replacement report: new quantity and price in the same slot. */
    method ApplyReplace(symbol: nat, id: nat, qty: int, price: int, now: nat, stored: bool) returns (ok: bool)
      requires Valid()
      modifies this, log
      ensures Valid() && limits == old(limits) && (old(Recorded()) ==> Recorded())
      ensures ok <==> OpenAt(old(Now()), symbol, id) && qty > 0 && price > 0 && (logging ==> stored)
      ensures !ok ==> Unmoved(old(Now()), Now())
      ensures !ok ==> tripped && Halts(old(Now()), Now(), symbol)
      ensures ok ==>
                AfterReplace(old(Now()), Now(), symbol, id, qty, price) && SameFlags(old(Now()), Now(), symbol) &&
                tripped == old(tripped)
      ensures !(ok && logging) ==> log.records == old(log.records)
      ensures ok && logging ==>
                id in old(book) &&
                log.records ==
                old(log.records) + [R.Event(R.Replace, id, qty, price, old(book)[id].side % 2, now)]
    {
      if symbol >= c.symbols {
        Ranges(c, Now());
        if OpenAt(Now(), symbol, id) {
          OpenInRange(c, Now(), symbol, id);
        }
        tripped := true;
        return false;
      }
      var i := FindSlot(symbol, id, true);
      if i == c.slots {
        Refuse(symbol);
        return false;
      }
      var o := states[symbol].orders[i];
      if id !in ledger || qty <= 0 || price <= 0 {
        Refuse(symbol);
        return false;
      }
      ok := CommitReplace(Place(symbol, i), o, qty, price, now, stored);
    }

    method CommitReplace(at: Place, o: ActiveOrder, qty: int, price: int, now: nat, stored: bool) returns (ok: bool)
      requires Valid() && OpenSlot(c, Now(), at, o.id) && o == states[at.symbol].orders[at.slot] && qty > 0 && price > 0
      modifies this, log
      ensures Valid() && limits == old(limits) && (old(Recorded()) ==> Recorded())
      ensures ok <==> (logging ==> stored)
      ensures !ok ==> Unmoved(old(Now()), Now())
      ensures !ok ==> tripped && Halts(old(Now()), Now(), at.symbol)
      ensures ok ==>
                AfterReplace(old(Now()), Now(), at.symbol, o.id, qty, price) &&
                SameFlags(old(Now()), Now(), at.symbol) && tripped == old(tripped)
      ensures !(ok && logging) ==> log.records == old(log.records)
      ensures ok && logging ==>
                o.id in old(book) &&
                log.records ==
                old(log.records) + [R.Event(R.Replace, o.id, qty, price, old(book)[o.id].side % 2, now)]
    {
      ghost var t := book[o.id].(remaining := qty, price := price);
      ok := Log(R.Event(R.Replace, o.id, qty, price, o.side, now), stored, book, book[o.id := t]);
      if !ok {
        Refuse(at.symbol);
        return;
      }
      // The ledger's refusal after this point is unreachable.
      assert L.MapStep(c.ledgerCapacity, ledger, L.Amend(o.id, qty)).1;
      var risk := states[at.symbol].risk;
      SameAmounts(Now(), at.symbol);
      Amend(at, o.(qty := qty, price := price),
            risk.(net := risk.net + (SignedQty(o.side, qty) - SignedQty(o.side, o.qty)),
              gross := risk.gross + price * qty - o.price * o.qty),
            t, Weight(o), 0, 0);
    }

    /** A rejection report. It undoes the reservation like a cancel but writes no record: from
        then on the log no longer describes the open orders. */
    method ApplyReject(symbol: nat, id: nat) returns (ok: bool)
      requires Valid()
      modifies this
      ensures Valid() && limits == old(limits) && log.records == old(log.records)
      ensures ok <==> OpenAt(old(Now()), symbol, id)
      ensures !ok ==> Unmoved(old(Now()), Now())
      ensures !ok && Finished(old(Now()), symbol, id) ==> Now() == old(Now()) && tripped == old(tripped)
      ensures !ok && !Finished(old(Now()), symbol, id) ==>
                tripped && OthersSame(old(Now()), Now(), symbol) &&
                (symbol < |old(states)| && symbol < |limits| ==>
                  Flagged(old(Now()), Now(), symbol,
                  old(states)[symbol].risk.rejects + 1 >= limits[symbol].maxRejections))
      ensures ok ==>
                AfterCancel(old(Now()), Now(), symbol, id) && tripped && symbol < |old(states)| && symbol < |limits| &&
                     Flagged(old(Now()), Now(), symbol,
                     old(states)[symbol].risk.rejects + 1 >= limits[symbol].maxRejections)
      ensures old(Recorded()) ==> (Recorded() <==> !ok)
    {
      if symbol >= c.symbols {
        Ranges(c, Now());
        if OpenAt(Now(), symbol, id) {
          OpenInRange(c, Now(), symbol, id);
        }
        tripped := true;
        return false;
      }
      var i := FindSlot(symbol, id, false);
      if i < c.slots && states[symbol].orders[i].state == Done {
        return false;
      }
      var halt := states[symbol].risk.rejects + 1 >= limits[symbol].maxRejections;
      tripped := true;
      if i == c.slots {
        Flag(symbol, halt);
        return false;
      }
      CommitReject(Place(symbol, i), id, halt);
      return true;
    }

    method CommitReject(at: Place, id: nat, halt: bool)
      requires Valid() && OpenSlot(c, Now(), at, id)
      modifies this`states, this`pending, this`ledger, this`book, this`places, this`settled, this`notional, this`used
      ensures Valid() && id in old(book) && AfterCancel(old(Now()), Now(), at.symbol, id) &&
              Flagged(old(Now()), Now(), at.symbol, halt)
    {
      ghost var g := Now();
      Flag(at.symbol, halt);
      OpenSlotUnmoved(c, g, Now(), at, id);
      Withdraw(at, states[at.symbol].orders[at.slot]);
    }

    /** Counts a rejection against the symbol and halts it if asked to. */
    method Flag(symbol: nat, halt: bool)
      requires Valid() && symbol < c.symbols
      modifies this`states
      ensures Valid() && Unmoved(old(Now()), Now()) && OthersSame(old(Now()), Now(), symbol) &&
              Flagged(old(Now()), Now(), symbol, halt)
    {
      Ranges(c, Now());
      var st := states[symbol];
      var next := states[symbol := st.(risk := st.risk.(rejects := st.risk.rejects + 1,
        halted := st.risk.halted || halt))];
      FlagsKeep(c, Now(), next);
      states := next;
    }

    /** Admission: rate limit, pre-trade risk, capacity, ledger, slot, audit and log, in that
        order, each failure undoing what came before it. */
    method Admit(intent: OrderIntent, allowed: bool, audited: bool, stored: bool) returns (d: Decision)
      requires Valid() && intent.id !in used
      modifies this, log
      ensures Valid() && limits == old(limits) && (old(Recorded()) ==> Recorded())
      ensures d.pass <==> old(Admissible(intent, allowed)) && audited && (logging ==> stored)
      ensures old(Sized(intent)) ==> (d.pass <==> old(Promised(intent, allowed)) && audited && (logging ==> stored))
      ensures d.pass <==> d.reasons == {}
      ensures !d.pass ==> Restored(old(Now()), Now()) && log.records == old(log.records)
      ensures intent.symbol >= c.symbols ==> states == old(states)
      ensures !d.pass ==> d.reasons == Blames(c, limits, old(Now()), intent, allowed)
      ensures intent.symbol < c.symbols && !d.pass ==>
                Flagged(old(Now()), Now(), intent.symbol, Stops(c, limits, old(Now()), intent, allowed))
      ensures old(used) <= used <= old(used) + NewId(intent)
      ensures d.pass ==> AfterAdmit(old(Now()), Now(), intent) && tripped == old(tripped)
      ensures !d.pass ==> tripped == (old(tripped) || Trips(c, limits, old(Now()), intent, allowed))
      ensures d.pass && intent.side % 2 == 0 ==>
                Held(old(states), states, intent.symbol) &&
                states[intent.symbol].risk.net == old(states)[intent.symbol].risk.net + intent.qty
      ensures d.pass && intent.side % 2 == 1 ==>
                Held(old(states), states, intent.symbol) &&
                states[intent.symbol].risk.net == old(states)[intent.symbol].risk.net - intent.qty
      ensures d.pass ==>
                Held(old(states), states, intent.symbol) && intent.symbol < |limits| &&
                -limits[intent.symbol].maxAbsPosition <= states[intent.symbol].risk.net <=
                limits[intent.symbol].maxAbsPosition &&
                states[intent.symbol].risk.gross ==
                old(states)[intent.symbol].risk.gross + intent.price * intent.qty &&
                states[intent.symbol].risk.orderCount == old(states)[intent.symbol].risk.orderCount + 1
      ensures log.records == if d.pass && logging
              then old(log.records) + [R.Event(R.Add, intent.id, intent.qty, intent.price, intent.side, intent.now)]
              else old(log.records)
    {
      PassedPosition(intent, allowed);
      if Sized(intent) {
        AdmissibleMeaning(intent, allowed);
      }
      Ranges(c, Now());
      d := Screen(intent, allowed);
      if d.pass {
        var ok := CommitAdmit(intent, audited, stored);
        if !ok {
          return Decision(false, {Halted});
        }
      }
    }

    /** The checks before the reservation; a failure counts a rejection and may halt the symbol. */
    method Screen(intent: OrderIntent, allowed: bool) returns (d: Decision)
      requires Valid() && intent.id !in used
      modifies this`states, this`tripped
      ensures Valid() && (d.pass <==> old(Admissible(intent, allowed))) && (d.pass <==> d.reasons == {})
      ensures if d.pass then states == old(states) && tripped == old(tripped) && intent.qty > 0
              else Restored(old(Now()), Now())
      ensures intent.symbol >= c.symbols ==> states == old(states)
      ensures !d.pass ==> d.reasons == Blames(c, limits, old(Now()), intent, allowed)
      ensures intent.symbol < c.symbols && !d.pass ==>
                Flagged(old(Now()), Now(), intent.symbol, Stops(c, limits, old(Now()), intent, allowed))
      ensures !d.pass ==> tripped == (old(tripped) || Trips(c, limits, old(Now()), intent, allowed))
    {
      Ranges(c, Now());
      UnusedIsNew(c, Now(), intent.id);
      if intent.symbol >= c.symbols {
        UnmovedIsRestored(Now(), Now());
        return Decision(false, {InvalidSymbol});
      }
      if !allowed || pending == c.maxPending {
        RejectNew(intent.symbol, true);
        return Decision(false, {Halted});
      }
      d := Weigh(intent);
    }

    ghost predicate Admissible(intent: OrderIntent, allowed: bool)
      reads this
    {
      Passes(c, limits, Now(), intent, allowed)
    }

    /** The checks once the breaker and the rate limit let the order through. */
    method Weigh(intent: OrderIntent) returns (d: Decision)
      requires Valid() && intent.symbol < c.symbols && intent.id !in used && intent.id !in ledger &&
               pending < c.maxPending && |states| == c.symbols
      modifies this`states, this`tripped
      ensures Valid() && (d.pass <==> old(Admissible(intent, true))) && (d.pass <==> d.reasons == {})
      ensures if d.pass then states == old(states) && tripped == old(tripped) && intent.qty > 0
              else Restored(old(Now()), Now())
      ensures !d.pass ==> d.reasons == Blames(c, limits, old(Now()), intent, true) &&
                          Flagged(old(Now()), Now(), intent.symbol, Stops(c, limits, old(Now()), intent, true))
      ensures !d.pass ==> tripped == (old(tripped) || Trips(c, limits, old(Now()), intent, true))
    {
      var risk := states[intent.symbol].risk;
      d := Judge(intent);
      if !d.pass || risk.orderCount >= c.slots {
        RejectNew(intent.symbol, d.pass);
        return Decision(false, if risk.orderCount < c.slots then d.reasons else d.reasons + {OrderCapacity});
      }
      if !L.MapStep(c.ledgerCapacity, ledger, L.Open(intent.id, intent.qty)).1 {
        RejectNew(intent.symbol, false);
        tripped := true;
        return Decision(false, {BadPosition});
      }
    }

    /** The pre-trade checks, and what follows from them with the symbol's open slots. */
    method Judge(intent: OrderIntent) returns (d: Decision)
      requires intent.symbol < c.symbols == |limits| == |states| && pending < c.maxPending
      ensures (d.pass <==> d.reasons == {}) && (d.pass ==> intent.qty > 0)
      ensures var full := states[intent.symbol].risk.orderCount >= c.slots;
              (Stops(c, limits, Now(), intent, true) <==> d.pass && full) &&
              (Trips(c, limits, Now(), intent, true) <==> d.pass && !full) &&
              (Admissible(intent, true) <==>
                d.pass && !full && intent.id != 0 && |ledger| < c.ledgerCapacity) &&
              Blames(c, limits, Now(), intent, true) ==
                if !d.pass || full then d.reasons + (if full then {OrderCapacity} else {})
                else if intent.id == 0 || |ledger| >= c.ledgerCapacity then {BadPosition} else {Halted}
    {
      d := Evaluate(limits[intent.symbol], states[intent.symbol].risk, intent);
      JudgeReasons(limits[intent.symbol], states[intent.symbol].risk, intent, d);
      JudgeStops(c, limits, Now(), intent, d);
      JudgePasses(c, limits, Now(), intent, d);
      JudgeBlames(c, limits, Now(), intent, d);
    }

    /** The checks before the reservation, without taking it. */
    method WouldReserve(intent: OrderIntent, allowed: bool) returns (b: bool)
      requires Valid()
      ensures b <==> Admissible(intent, allowed)
    {
      Ranges(c, Now());
      b := intent.symbol < c.symbols && allowed && pending < c.maxPending &&
        Evaluate(limits[intent.symbol], states[intent.symbol].risk, intent).pass &&
        states[intent.symbol].risk.orderCount < c.slots && intent.id != 0 && |ledger| < c.ledgerCapacity;
    }

    /** The symbol's limits are valid and its figures and the price are 64-bit words. */
    ghost predicate Sized(intent: OrderIntent)
      reads this
    {
      intent.symbol < c.symbols && |states| == |limits| == c.symbols ==>
        limits[intent.symbol].Valid() && IsInt64(intent.price) &&
        IsInt64(states[intent.symbol].risk.net) && IsInt64(states[intent.symbol].risk.gross)
    }

    /** What admission promises: limits over the integers, a collar that does not wrap, and room. */
    ghost predicate Promised(intent: OrderIntent, allowed: bool)
      reads this
    {
      intent.symbol < c.symbols && |states| == |limits| == c.symbols && allowed && pending < c.maxPending &&
      WithinLimits(limits[intent.symbol], states[intent.symbol].risk, intent) && !CollarWraps(limits[intent.symbol]) &&
      states[intent.symbol].risk.orderCount < c.slots &&
      intent.id != 0 && |ledger| < c.ledgerCapacity
    }

    /** An order that passes respects the position limit. */
    lemma PassedPosition(intent: OrderIntent, allowed: bool)
      ensures Admissible(intent, allowed) ==>
                var net := states[intent.symbol].risk.net +
                  (if intent.side % 2 == 0 then intent.qty else -intent.qty);
                -limits[intent.symbol].maxAbsPosition <= net <= limits[intent.symbol].maxAbsPosition
    {
      if Admissible(intent, allowed) {
        WrapExact(states[intent.symbol].risk.net + SignedQty(intent.side, intent.qty));
      }
    }

    lemma AdmissibleMeaning(intent: OrderIntent, allowed: bool)
      requires Sized(intent)
      ensures Admissible(intent, allowed) <==> Promised(intent, allowed)
    {
      if intent.symbol < c.symbols && |states| == |limits| == c.symbols {
        EvaluateMeaning(limits[intent.symbol], states[intent.symbol].risk, intent);
      }
    }

    method RejectNew(symbol: nat, halt: bool)
      requires Valid() && symbol < c.symbols
      modifies this`states
      ensures Valid() && Restored(old(Now()), Now()) && Flagged(old(Now()), Now(), symbol, halt)
    {
      ghost var g := Now();
      Flag(symbol, halt);
      UnmovedIsRestored(g, Now());
    }

    /** Reserves ledger entry, slot and risk, then writes audit and log; a failed write takes
        the reservation back. */
    method CommitAdmit(intent: OrderIntent, audited: bool, stored: bool) returns (ok: bool)
      requires Valid() && intent.id !in used && Admissible(intent, true) && intent.qty > 0
      modifies this, log
      ensures Valid() && limits == old(limits) && (old(Recorded()) ==> Recorded())
      ensures ok <==> audited && (logging ==> stored)
      ensures !ok ==> Restored(old(Now()), Now()) && log.records == old(log.records) && used == old(used) + {intent.id}
      ensures !ok ==> Flagged(old(Now()), Now(), intent.symbol, false) && tripped
      ensures ok ==> AfterAdmit(old(Now()), Now(), intent) && tripped == old(tripped)
      ensures log.records == if ok && logging then old(log.records) + [AddEvent(intent)] else old(log.records)
    {
      ghost var before := Now();
      AddFits(c, before, intent);
      ghost var at := Reserve(intent);
      ok := Persist(intent, audited, stored, before, at);
    }

    /** The audit record and the log record of a fresh reservation. */
    method Persist(intent: OrderIntent, audited: bool, stored: bool, ghost before: Snapshot, ghost at: Place)
        returns (ok: bool)
      requires Valid() && intent.symbol == at.symbol < c.symbols && intent.id != 0 && intent.qty > 0
      requires intent.id !in before.book && intent.id !in before.ledger && intent.id !in before.places
      requires HasPlace(before, at) && !before.states[at.symbol].orders[at.slot].IsLive() &&
               Now() == Reserved(before, at, intent)
      requires R.Applied(before.book, AddEvent(intent), c.maxPending) == Some(book)
      modifies this, log
      ensures Valid() && limits == old(limits) && (ok <==> audited && (logging ==> stored))
      ensures if ok then Now() == old(Now()) && tripped == old(tripped)
              else Restored(before, Now()) && used == before.used + {intent.id} &&
                   Flagged(before, Now(), intent.symbol, false) && tripped
      ensures log.records == if ok && logging then old(log.records) + [AddEvent(intent)] else old(log.records)
      ensures logging && old(UpTo(before.book)) ==> UpTo(book)
    {
      if !audited {
        Rollback(intent, before, at);
        return false;
      }
      ok := Log(AddEvent(intent), stored, before.book, book);
      if !ok {
        Rollback(intent, before, at);
      }
    }

    /** First slot that is free or done; the capacity check made sure there is one. */
    method FreeSlot(symbol: nat) returns (i: nat)
      requires Valid() && symbol < c.symbols && |states| == c.symbols && states[symbol].risk.orderCount < c.slots
      ensures InRange(c, Now(), Place(symbol, i)) && !states[symbol].orders[i].IsLive()
      ensures forall j :: 0 <= j < i ==> states[symbol].orders[j].IsLive()
    {
      SlotForNew(c, Now(), symbol);
      Ranges(c, Now());
      i := 0;
      while states[symbol].orders[i].IsLive()
        invariant i < c.slots && forall j :: 0 <= j < i ==> states[symbol].orders[j].IsLive()
        decreases c.slots - i
      {
        i := i + 1;
      }
    }

    /** Reserves a slot, the risk figures, a ledger entry and a place in the rate limit. */
    method Reserve(intent: OrderIntent) returns (ghost at: Place)
      requires Valid() && intent.id !in used && Admissible(intent, true) && intent.qty > 0
      modifies this`states, this`pending, this`ledger, this`book, this`places, this`settled, this`notional, this`used
      ensures Valid() && AfterAdmit(old(Now()), Now(), intent)
      ensures at.symbol == intent.symbol && HasPlace(old(Now()), at) && !old(states)[at.symbol].orders[at.slot].IsLive()
      ensures Now() == Reserved(old(Now()), at, intent)
    {
      var s := intent.symbol;
      var i := FreeSlot(s);
      at := Place(s, i);
      UnusedIsNew(c, Now(), intent.id);
      var o, risk := OrderOf(intent), Grown(states[s].risk, intent);
      ghost var g := Now();
      ghost var g' := Reserved(g, at, intent);
      KeepNew(c, g, g', at, o, risk, TermsOf(intent));
      Store(SetSlot(states, Place(s, i), o, risk), pending + 1, ledger[o.id := o.qty], g');
    }

    /** First slot with the identifier, whatever its state. */
    method FindId(symbol: nat, id: nat) returns (i: nat)
      requires Valid() && symbol < c.symbols && id != 0
      ensures Located(c, Now(), symbol, id, i)
    {
      Ranges(c, Now());
      i := 0;
      while i < c.slots && states[symbol].orders[i].id != id
        invariant i <= c.slots && forall j :: 0 <= j < i ==> states[symbol].orders[j].id != id
      {
        i := i + 1;
      }
      IdIsEnough(c, Now(), symbol, id, i);
    }

    /** Finds the slot by identifier, clears it and gives ledger entry, reservation and rate back. */
    method Rollback(intent: OrderIntent, ghost before: Snapshot, ghost at: Place)
      requires Valid() && intent.symbol == at.symbol < c.symbols && intent.id != 0
      requires intent.id !in before.book && intent.id !in before.ledger && intent.id !in before.places
      requires HasPlace(before, at) && !before.states[at.symbol].orders[at.slot].IsLive() &&
               Now() == Reserved(before, at, intent)
      modifies this
      ensures Valid() && Restored(before, Now()) && used == before.used + {intent.id} && limits == old(limits)
      ensures Flagged(before, Now(), intent.symbol, false) && tripped
    {
      Unreserve(intent, before, at);
      ghost var g := Now();
      Flag(intent.symbol, false);
      RestoredThenFlagged(before, g, Now());
      tripped := true;
    }

    method Unreserve(intent: OrderIntent, ghost before: Snapshot, ghost at: Place)
      requires Valid() && intent.symbol == at.symbol < c.symbols && intent.id != 0
      requires intent.id !in before.book && intent.id !in before.ledger && intent.id !in before.places
      requires HasPlace(before, at) && !before.states[at.symbol].orders[at.slot].IsLive() &&
               Now() == Reserved(before, at, intent)
      modifies this`states, this`pending, this`ledger, this`book, this`places, this`settled, this`notional, this`used
      ensures Valid() && Restored(before, Now()) && used == before.used + {intent.id}
      ensures Held(before.states, states, intent.symbol) &&
              states[intent.symbol].risk == before.states[intent.symbol].risk
    {
      ghost var held := Now();
      var i := FindId(intent.symbol, intent.id);
      Withdraw(Place(intent.symbol, i), states[intent.symbol].orders[i]);
      Undone(before, held, Now(), at, intent);
    }

    /** Cancels an order wherever it rests. */
    method CancelOrder(id: nat, now: nat, stored: bool) returns (ok: bool)
      requires Valid()
      modifies this, log
      ensures Valid() && limits == old(limits) && (old(Recorded()) ==> Recorded())
      ensures ok <==> id in old(book) && (logging ==> stored)
      ensures ok ==> id in old(places) && AfterCancel(old(Now()), Now(), old(places)[id].symbol, id)
      ensures !ok ==> Unmoved(old(Now()), Now()) && log.records == old(log.records)
    {
      OpenSomewhere(c, Now(), id);
      if id == 0 {
        return false;
      }
      var symbol := 0;
      while symbol < c.symbols
        invariant symbol <= c.symbols && Valid() && unchanged(this) && unchanged(log)
        invariant forall s :: 0 <= s < symbol ==> !OpenAt(Now(), s, id)
      {
        var i := FindSlot(symbol, id, true);
        if i < c.slots && states[symbol].orders[i].IsLive() {
          ok := ApplyCancel(symbol, id, now, stored);
          return;
        }
        symbol := symbol + 1;
      }
      return false;
    }

    /** One request; it answers whether it was honoured. */
    method Perform(r: Request) returns (ok: bool)
      requires Valid() && (r.Admit? ==> r.intent.id !in used)
      modifies this, log
      ensures Valid() && limits == old(limits) &&
              old(used) <= used <= old(used) + (if r.Admit? then NewId(r.intent) else {})
      ensures Outcome(c, logging, limits, r, old(Now()), Now())
      ensures ok <==> Honoured(c, logging, limits, r, old(Now()))
      ensures old(log.records) <= log.records && |log.records| <= |old(log.records)| + 1
      ensures !r.Reject? && old(Recorded()) ==> Recorded()
    {
      match r
      case Admit(intent, allowed, audited, stored) =>
        var d := Admit(intent, allowed, audited, stored);
        ok := d.pass;
      case Fill(symbol, id, filled, terminal, now, stored) =>
        ok := ApplyExecution(symbol, id, filled, terminal, now, stored);
      case Cancel(symbol, id, now, stored) => ok := ApplyCancel(symbol, id, now, stored);
      case Replace(symbol, id, qty, price, now, stored) => ok := ApplyReplace(symbol, id, qty, price, now, stored);
      case Reject(symbol, id) => ok := ApplyReject(symbol, id);
    }

    /** One request of a run. */
    method Advance(requests: seq<Request>, i: nat, ghost faithful: bool, ghost first: Snapshot,
        ghost start: seq<R.Event>, ghost trace: seq<Snapshot>, ghost marks: seq<nat>)
      returns (ghost trace': seq<Snapshot>, ghost marks': seq<nat>)
      requires Valid() && i < |requests| && Fresh(requests[i..], used) &&
               (faithful ==> Recorded() && NoRejects(requests))
      requires Story(c, logging, limits, faithful, requests[..i], first, Now(), start, log.records, trace, marks)
      modifies this, log
      ensures Valid() && limits == old(limits) && Fresh(requests[i + 1..], used) && (faithful ==> Recorded())
      ensures Story(c, logging, limits, faithful, requests[..i + 1], first, Now(), start, log.records, trace', marks')
    {
      ghost var had, was, g := used, log.records, Now();
      var _ := Perform(requests[i]);
      FreshNext(requests, i, had, used);
      trace', marks' := StoryGrows(c, logging, limits, faithful, requests, i, first, g, Now(), start, was, log.records,
        trace, marks);
    }

    /** Any run of requests with fresh identifiers. The trace has the state before the first
        request and after each one: all are coherent, and each request has its whole effect
        exactly when it is honoured. Without rejection reports the log is a faithful record of the run: `marks` has
        its length at each state, a request writes at most one record, and wherever the log
        is cut the rest replays to the open orders of a state of the trace. */
    method Drive(requests: seq<Request>) returns (ghost trace: seq<Snapshot>, ghost marks: seq<nat>)
      requires Valid() && Fresh(requests, used)
      modifies this, log
      ensures Valid() && limits == old(limits) && Trail(c, logging, limits, requests, trace)
      ensures trace[0] == old(Now()) && trace[|requests|] == Now()
      ensures forall s :: 0 <= s < c.symbols ==> Accounted(c, logging, limits, requests, trace, s)
      ensures old(log.records) <= log.records
      ensures NoRejects(requests) && old(Recorded()) ==>
                Recorded() && Faithful(log.records, c.maxPending, trace, marks) &&
                marks[0] == |old(log.records)| && marks[|requests|] == |log.records| &&
                forall k ::
                    |old(log.records)| <= k <= |log.records| ==> CutAt(log.records, k, c.maxPending, trace, marks)
    {
      ghost var faithful, first, start := NoRejects(requests) && Recorded(), Now(), log.records;
      trace, marks := Travel(requests, faithful);
      StoryEnds(c, logging, limits, faithful, requests, first, Now(), start, log.records, trace, marks);
      RunAccounts(c, logging, limits, requests, trace);
    }

    method Travel(requests: seq<Request>, ghost faithful: bool)
        returns (ghost trace: seq<Snapshot>, ghost marks: seq<nat>)
      requires Valid() && Fresh(requests, used) && (faithful ==> Recorded() && NoRejects(requests))
      modifies this, log
      ensures Valid() && limits == old(limits) && (faithful ==> Recorded()) &&
              Story(c, logging, limits, faithful, requests, old(Now()), Now(), old(log.records), log.records, trace,
              marks)
    {
      trace, marks := [Now()], [|log.records|];
      ghost var first, start := Now(), log.records;
      assert requests[..0] == [] && requests[0..] == requests;
      StoryStarts(c, logging, limits, faithful, start, first);
      var i := 0;
      while i < |requests|
        invariant i <= |requests| && Valid() && Fresh(requests[i..], used) && (faithful ==> Recorded())
        invariant limits == old(limits)
        invariant Story(c, logging, limits, faithful, requests[..i], first, Now(), start, log.records, trace, marks)
      {
        trace, marks := Advance(requests, i, faithful, first, start, trace, marks);
        i := i + 1;
      }
      assert requests[..i] == requests;
    }
  }

  /** What `Drive` keeps, folded: the trace leads from `first` to `last`, and the log grew from
      `was` to `records` along it. */
  ghost predicate Story(c: Config, logging: bool, limits: seq<RiskLimits>, faithful: bool, requests: seq<Request>,
      first: Snapshot, last: Snapshot, was: seq<R.Event>, records: seq<R.Event>, trace: seq<Snapshot>,
      marks: seq<nat>) {
    forall n :: Unfold(n) ==> Told(c, logging, limits, faithful, requests, first, last, was, records, trace, marks)
  }

  ghost predicate Told(c: Config, logging: bool, limits: seq<RiskLimits>, faithful: bool, requests: seq<Request>,
      first: Snapshot, last: Snapshot, was: seq<R.Event>, records: seq<R.Event>, trace: seq<Snapshot>,
      marks: seq<nat>) {
    Trail(c, logging, limits, requests, trace) && trace[0] == first && trace[|requests|] == last && was <= records &&
    (faithful ==>
      Faithful(records, c.maxPending, trace, marks) && marks[0] == |was| && marks[|requests|] == |records|)
  }

  lemma OpenStory(c: Config, logging: bool, limits: seq<RiskLimits>, faithful: bool, requests: seq<Request>,
      first: Snapshot, last: Snapshot, was: seq<R.Event>, records: seq<R.Event>, trace: seq<Snapshot>, marks: seq<nat>)
    requires Story(c, logging, limits, faithful, requests, first, last, was, records, trace, marks)
    ensures Told(c, logging, limits, faithful, requests, first, last, was, records, trace, marks)
  {
    assert Unfold(0);
  }

  lemma SealStory(c: Config, logging: bool, limits: seq<RiskLimits>, faithful: bool, requests: seq<Request>,
      first: Snapshot, last: Snapshot, was: seq<R.Event>, records: seq<R.Event>, trace: seq<Snapshot>, marks: seq<nat>)
    requires Told(c, logging, limits, faithful, requests, first, last, was, records, trace, marks)
    ensures Story(c, logging, limits, faithful, requests, first, last, was, records, trace, marks)
  {
  }

  lemma StoryStarts(c: Config, logging: bool, limits: seq<RiskLimits>, faithful: bool, records: seq<R.Event>,
      g: Snapshot)
    requires Coherent(c, g) && (faithful ==> R.Replayed(records, c.maxPending) == Some(g.book))
    ensures Story(c, logging, limits, faithful, [], g, g, records, records, [g], [|records|])
  {
    if faithful {
      FaithfulStarts(records, c.maxPending, g);
    }
    SealStory(c, logging, limits, faithful, [], g, g, records, records, [g], [|records|]);
  }

  lemma FaithfulStarts(records: seq<R.Event>, capacity: nat, g: Snapshot)
    requires R.Replayed(records, capacity) == Some(g.book)
    ensures Faithful(records, capacity, [g], [|records|])
  {
    assert records[..|records|] == records;
  }

  lemma StoryGrows(c: Config, logging: bool, limits: seq<RiskLimits>, faithful: bool, requests: seq<Request>, i: nat,
      first: Snapshot, last: Snapshot, g: Snapshot, start: seq<R.Event>, was: seq<R.Event>, records: seq<R.Event>,
      trace: seq<Snapshot>, marks: seq<nat>)
      returns (trace': seq<Snapshot>, marks': seq<nat>)
    requires i < |requests| && Coherent(c, g) && Outcome(c, logging, limits, requests[i], last, g)
    requires Story(c, logging, limits, faithful, requests[..i], first, last, start, was, trace, marks)
    requires was <= records && |records| <= |was| + 1 &&
             (faithful ==> R.Replayed(records, c.maxPending) == Some(g.book))
    ensures Story(c, logging, limits, faithful, requests[..i + 1], first, g, start, records, trace', marks')
  {
    trace', marks' := trace + [g], marks + [|records|];
    var before := requests[..i];
    assert requests[..i + 1] == before + [requests[i]];
    OpenStory(c, logging, limits, faithful, before, first, last, start, was, trace, marks);
    ToldGrows(c, logging, limits, faithful, before, requests[i], first, last, g, start, was, records, trace, marks);
    SealStory(c, logging, limits, faithful, before + [requests[i]], first, g, start, records, trace', marks');
  }

  lemma ToldGrows(c: Config, logging: bool, limits: seq<RiskLimits>, faithful: bool, requests: seq<Request>,
      r: Request, first: Snapshot, last: Snapshot, g: Snapshot, start: seq<R.Event>, was: seq<R.Event>,
      records: seq<R.Event>, trace: seq<Snapshot>, marks: seq<nat>)
    requires Told(c, logging, limits, faithful, requests, first, last, start, was, trace, marks)
    requires Coherent(c, g) && Outcome(c, logging, limits, r, last, g)
    requires was <= records && |records| <= |was| + 1 &&
             (faithful ==> R.Replayed(records, c.maxPending) == Some(g.book))
    ensures Told(c, logging, limits, faithful, requests + [r], first, g, start, records, trace + [g],
            marks + [|records|])
  {
    TrailGrows(c, logging, limits, requests, trace, r, g);
    if faithful {
      FaithfulGrows(was, records, c.maxPending, trace, marks, g);
    }
  }

  lemma FreshNext(requests: seq<Request>, i: nat, had: set<nat>, used: set<nat>)
    requires i < |requests| && Fresh(requests[i..], had) &&
             used <= had + (if requests[i].Admit? then NewId(requests[i].intent) else {})
    ensures Fresh(requests[i + 1..], used)
  {
    assert requests[i..][0] == requests[i] && requests[i..][1..] == requests[i + 1..];
    FreshShrinks(requests[i + 1..], had + (if requests[i].Admit? then NewId(requests[i].intent) else {}), used);
  }

  lemma StoryEnds(c: Config, logging: bool, limits: seq<RiskLimits>, faithful: bool, requests: seq<Request>,
      first: Snapshot, last: Snapshot, was: seq<R.Event>, records: seq<R.Event>, trace: seq<Snapshot>, marks: seq<nat>)
    requires Story(c, logging, limits, faithful, requests, first, last, was, records, trace, marks)
    ensures Trail(c, logging, limits, requests, trace) && trace[0] == first && trace[|requests|] == last &&
            was <= records
    ensures faithful ==>
              Faithful(records, c.maxPending, trace, marks) && marks[0] == |was| && marks[|requests|] == |records|
    ensures faithful ==> forall k :: |was| <= k <= |records| ==> CutAt(records, k, c.maxPending, trace, marks)
  {
    OpenStory(c, logging, limits, faithful, requests, first, last, was, records, trace, marks);
    if faithful {
      forall k | |was| <= k <= |records| ensures CutAt(records, k, c.maxPending, trace, marks) {
        var i := CutPoint(records, c.maxPending, trace, marks, k, |requests|);
      }
    }
  }

  /** When a request is honoured: its checks pass, the order is open, and the writes go through. */
  ghost predicate Honoured(c: Config, logging: bool, limits: seq<RiskLimits>, r: Request, g: Snapshot) {
    match r
    case Admit(intent, allowed, audited, stored) =>
      Passes(c, limits, g, intent, allowed) && audited && (logging ==> stored)
    case Fill(symbol, id, filled, _, _, stored) =>
      OpenAt(g, symbol, id) && 0 < filled <= g.book[id].remaining && (logging ==> stored)
    case Cancel(symbol, id, _, stored) => OpenAt(g, symbol, id) && (logging ==> stored)
    case Replace(symbol, id, qty, price, _, stored) =>
      OpenAt(g, symbol, id) && qty > 0 && price > 0 && (logging ==> stored)
    case Reject(symbol, id) => OpenAt(g, symbol, id)
  }

  /** The whole effect of a request. */
  ghost predicate Effect(r: Request, g: Snapshot, g': Snapshot) {
    match r
    case Admit(intent, _, _, _) => AfterAdmit(g, g', intent)
    case Fill(symbol, id, filled, terminal, _, _) => AfterFill(g, g', symbol, id, filled, terminal)
    case Cancel(symbol, id, _, _) => AfterCancel(g, g', symbol, id)
    case Replace(symbol, id, qty, price, _, _) => AfterReplace(g, g', symbol, id, qty, price)
    case Reject(symbol, id) => AfterCancel(g, g', symbol, id)
  }

  /** A request has its whole effect if it is honoured, and none otherwise. */
  ghost predicate Outcome(c: Config, logging: bool, limits: seq<RiskLimits>, r: Request, g: Snapshot, g': Snapshot) {
    if Honoured(c, logging, limits, r, g) then Effect(r, g, g')
    else if r.Admit? then Restored(g, g')
    else Unmoved(g, g')
  }

  /** The states of a run, one more than its requests. */
  ghost predicate Trail(c: Config, logging: bool, limits: seq<RiskLimits>, requests: seq<Request>,
      trace: seq<Snapshot>) {
    |trace| == |requests| + 1 &&
    (forall i {:trigger trace[i]} :: 0 <= i < |trace| ==> Coherent(c, trace[i])) &&
    (forall i {:trigger requests[i]} ::
      0 <= i < |requests| ==> Outcome(c, logging, limits, requests[i], trace[i], trace[i + 1]))
  }

  lemma TrailGrows(c: Config, logging: bool, limits: seq<RiskLimits>, requests: seq<Request>, trace: seq<Snapshot>,
      r: Request, g: Snapshot)
    requires Trail(c, logging, limits, requests, trace) && Coherent(c, g) &&
             Outcome(c, logging, limits, r, trace[|requests|], g)
    ensures Trail(c, logging, limits, requests + [r], trace + [g])
  {
  }

  /** Quantity that the fills of a run traded in a symbol on one side (0 bought, 1 sold). */
  ghost function Traded(c: Config, logging: bool, limits: seq<RiskLimits>, requests: seq<Request>, trace: seq<Snapshot>,
      s: nat, side: nat): int
    requires |trace| == |requests| + 1
  {
    if requests == [] then 0
    else
      var n := |requests| - 1;
      var r, g := requests[n], trace[n];
      Traded(c, logging, limits, requests[..n], trace[..n + 1], s, side) +
      if r.Fill? && Honoured(c, logging, limits, r, g) && r.symbol == s && g.book[r.id].side % 2 == side then r.filled
      else 0
  }

  /** After a run the position of the symbol is what was settled before, plus what the run bought,
      less what it sold, plus the open buys, less the open sells. */
  ghost predicate Accounted(c: Config, logging: bool, limits: seq<RiskLimits>, requests: seq<Request>,
      trace: seq<Snapshot>, s: nat) {
    |trace| == |requests| + 1 && s < |trace[0].settled| && s < |trace[|requests|].states| &&
    var st := trace[|requests|].states[s];
    st.risk.net == trace[0].settled[s] + Traded(c, logging, limits, requests, trace, s, 0) -
                   Traded(c, logging, limits, requests, trace, s, 1) + OpenQty(st.orders, 0) - OpenQty(st.orders, 1)
  }

  lemma {:induction false} RunSettles(c: Config, logging: bool, limits: seq<RiskLimits>, requests: seq<Request>,
      trace: seq<Snapshot>, s: nat)
    requires Trail(c, logging, limits, requests, trace) && s < c.symbols
    ensures s < |trace[0].settled| && s < |trace[|requests|].settled| && s < |trace[|requests|].states|
    ensures trace[|requests|].settled[s] == trace[0].settled[s] + Traded(c, logging, limits, requests, trace, s, 0) -
                                            Traded(c, logging, limits, requests, trace, s, 1)
  {
    OneStory(c, trace[0]);
    OneStory(c, trace[|requests|]);
    if requests != [] {
      var n := |requests| - 1;
      TrailPrefix(c, logging, limits, requests, trace);
      RunSettles(c, logging, limits, requests[..n], trace[..n + 1], s);
      assert Outcome(c, logging, limits, requests[n], trace[n], trace[n + 1]);
      OutcomeSettles(c, logging, limits, requests[n], trace[n], trace[n + 1], s);
    }
  }

  lemma TrailPrefix(c: Config, logging: bool, limits: seq<RiskLimits>, requests: seq<Request>, trace: seq<Snapshot>)
    requires Trail(c, logging, limits, requests, trace) && requests != []
    ensures Trail(c, logging, limits, requests[..|requests| - 1], trace[..|requests|])
  {
    var n := |requests| - 1;
    forall i {:trigger requests[..n][i]} | 0 <= i < n
      ensures Outcome(c, logging, limits, requests[..n][i], trace[..n + 1][i], trace[..n + 1][i + 1])
    {
      assert requests[..n][i] == requests[i];
    }
  }

  /** What one request settles. */
  lemma OutcomeSettles(c: Config, logging: bool, limits: seq<RiskLimits>, r: Request, g: Snapshot, g': Snapshot, s: nat)
    requires Outcome(c, logging, limits, r, g, g') && s < |g.settled|
    ensures |g'.settled| == |g.settled|
    ensures g'.settled[s] == g.settled[s] +
            if r.Fill? && Honoured(c, logging, limits, r, g) && r.symbol == s then
              (if g.book[r.id].side % 2 == 0 then r.filled else -r.filled) else 0
  {
  }

  /** Over every run the position of every symbol is accounted for. */
  lemma RunAccounts(c: Config, logging: bool, limits: seq<RiskLimits>, requests: seq<Request>, trace: seq<Snapshot>)
    requires Trail(c, logging, limits, requests, trace)
    ensures forall s :: 0 <= s < c.symbols ==> Accounted(c, logging, limits, requests, trace, s)
  {
    forall s | 0 <= s < c.symbols ensures Accounted(c, logging, limits, requests, trace, s) {
      RunSettles(c, logging, limits, requests, trace, s);
      OneStory(c, trace[|requests|]);
      assert trace[|requests|].states[s] == trace[|requests|].states[s];
    }
  }

  /** The log up to each mark replays to the open orders of that state, and no request writes
      more than one record. */
  ghost predicate Faithful(records: seq<R.Event>, capacity: nat, trace: seq<Snapshot>, marks: seq<nat>) {
    |marks| == |trace| && Paced(marks) &&
    forall i {:trigger marks[i]} :: 0 <= i < |marks| ==> ReplaysTo(records, marks[i], capacity, trace[i].book)
  }

  ghost predicate ReplaysTo(records: seq<R.Event>, k: nat, capacity: nat, m: R.Orders) {
    k <= |records| && R.Replayed(records[..k], capacity) == Some(m)
  }

  ghost predicate Paced(marks: seq<nat>) {
    forall i, j {:trigger marks[i], marks[j]} :: 0 <= i && j == i + 1 < |marks| ==> marks[i] <= marks[j] <= marks[i] + 1
  }

  /** Some state of the trace has the log at this length, and its open orders are what that much replays to. */
  ghost predicate CutAt(records: seq<R.Event>, k: nat, capacity: nat, trace: seq<Snapshot>, marks: seq<nat>) {
    exists i :: 0 <= i < |marks| == |trace| && marks[i] == k && ReplaysTo(records, k, capacity, trace[i].book)
  }

  lemma ReplaysStill(was: seq<R.Event>, records: seq<R.Event>, k: nat, capacity: nat, m: R.Orders)
    requires was <= records && ReplaysTo(was, k, capacity, m)
    ensures ReplaysTo(records, k, capacity, m)
  {
    assert records[..k] == was[..k];
  }

  lemma PacedGrows(marks: seq<nat>, n: nat)
    requires Paced(marks) && marks != [] && marks[|marks| - 1] <= n <= marks[|marks| - 1] + 1
    ensures Paced(marks + [n])
  {
    var marks' := marks + [n];
    forall i, j {:trigger marks'[i], marks'[j]} | 0 <= i && j == i + 1 < |marks'|
      ensures marks'[i] <= marks'[j] <= marks'[i] + 1
    {
      assert j < |marks| ==> marks[i] <= marks[j] <= marks[i] + 1;
    }
  }

  lemma FaithfulGrows(was: seq<R.Event>, records: seq<R.Event>, capacity: nat, trace: seq<Snapshot>, marks: seq<nat>,
      g: Snapshot)
    requires Faithful(was, capacity, trace, marks) && was <= records && |records| <= |was| + 1
    requires marks != [] && marks[|marks| - 1] == |was| && R.Replayed(records, capacity) == Some(g.book)
    ensures Faithful(records, capacity, trace + [g], marks + [|records|])
  {
    var trace', marks' := trace + [g], marks + [|records|];
    PacedGrows(marks, |records|);
    forall i {:trigger marks'[i]} | 0 <= i < |marks'| ensures ReplaysTo(records, marks'[i], capacity, trace'[i].book) {
      if i < |marks| {
        ReplaysStill(was, records, marks[i], capacity, trace[i].book);
      } else {
        assert records[..|records|] == records;
      }
    }
  }

  /** Every length between the first and the last mark is the mark of some state. */
  lemma {:induction false} CutPoint(records: seq<R.Event>, capacity: nat, trace: seq<Snapshot>, marks: seq<nat>, k: nat,
      n: nat) returns (i: nat)
    requires Faithful(records, capacity, trace, marks) && n < |marks| && marks[0] <= k <= marks[n]
    ensures i <= n && marks[i] == k && R.Replayed(records[..k], capacity) == Some(trace[i].book)
  {
    if marks[n] == k {
      i := n;
    } else {
      assert marks[n - 1] <= marks[n] <= marks[n - 1] + 1;
      i := CutPoint(records, capacity, trace, marks, k, n - 1);
    }
  }

  /** A recovered row says what the slot says: remaining quantity, price and side. */
  ghost predicate IsRow(o: ActiveOrder, r: R.RecoveredOrder) {
    o.IsLive() && o.id == r.id && o.qty == r.remaining && o.price == r.price && o.side == r.side % 2
  }

  /** The rows are the open slots, one for one. */
  ghost predicate Recovered(g: Snapshot, rows: seq<R.RecoveredOrder>, pos: map<nat, nat>) {
    (forall j {:trigger rows[j]} :: 0 <= j < |rows| ==>
       rows[j].id in g.places && HasPlace(g, g.places[rows[j].id]) &&
       IsRow(SlotAt(g, g.places[rows[j].id]), rows[j])) &&
    (forall s, i {:trigger g.states[s].orders[i]} ::
      0 <= s < |g.states| && 0 <= i < |g.states[s].orders| && g.states[s].orders[i].IsLive() ==>
       g.states[s].orders[i].id in pos && pos[g.states[s].orders[i].id] < |rows| &&
       IsRow(g.states[s].orders[i], rows[pos[g.states[s].orders[i].id]])) &&
    (forall j {:trigger rows[j]} :: 0 <= j < |rows| ==> rows[j].id in pos && pos[rows[j].id] == j)
  }

  lemma RowsAreSlots(c: Config, g: Snapshot, rows: seq<R.RecoveredOrder>, pos: map<nat, nat>)
    requires Coherent(c, g) && R.Represents(rows, g.book, pos)
    ensures Recovered(g, rows, pos) && |rows| == TotalOpen(g.states)
  {
    Ranges(c, g);
    assert R.Rows(rows, g.book, pos) by { assert Unfold(0); }
    forall j {:trigger rows[j]} | 0 <= j < |rows|
      ensures rows[j].id in g.places && HasPlace(g, g.places[rows[j].id]) &&
              IsRow(SlotAt(g, g.places[rows[j].id]), rows[j])
    {
      OpenHasSlot(c, g, rows[j].id);
    }
    forall s, i {:trigger g.states[s].orders[i]} | 0 <= s < |g.states| && 0 <= i < |g.states[s].orders| &&
      g.states[s].orders[i].IsLive()
      ensures g.states[s].orders[i].id in pos && pos[g.states[s].orders[i].id] < |rows| &&
              IsRow(g.states[s].orders[i], rows[pos[g.states[s].orders[i].id]])
    {
      var k := g.states[s].orders[i].id;
      SlotIsOpen(c, g, s, i);
      assert rows[pos[k]].id == k;
    }
  }

  /** Restart: the first `k` records of a log are replayed. If they describe the open orders
      of a coherent state, the rows are its open slots. */
  method Recover(records: seq<R.Event>, k: nat, output: array<R.RecoveredOrder>, capacity: nat, ghost c: Config,
      ghost g: Snapshot)
    returns (ok: bool, count: nat, ghost pos: map<nat, nat>)
    requires k <= |records| && Coherent(c, g) && R.Replayed(records[..k], c.maxPending) == Some(g.book)
    requires 0 < capacity && c.maxPending <= capacity <= output.Length
    modifies output
    ensures ok && count == TotalOpen(g.states) && count <= output.Length && Recovered(g, output[..count], pos)
  {
    R.RoomierReplay(records[..k], c.maxPending, capacity);
    var disk := new R.RecoveryLedger.From(records[..k]);
    ok, count, pos := disk.Replay(output, capacity);
    RowsAreSlots(c, g, output[..count], pos);
  }

  /** A run that stops after `more` new records (or at its end), and the restart that follows:
      the rows are the open slots of a state the run went through, namely of the one at which
      the log was that long. */
  method CrashAndRecover(gateway: ExecutionGateway, requests: seq<Request>, more: nat, output: array<R.RecoveredOrder>,
      capacity: nat)
    returns (ok: bool, count: nat, k: nat, ghost trace: seq<Snapshot>, ghost marks: seq<nat>, ghost i: nat,
      ghost pos: map<nat, nat>)
    requires gateway.Valid() && gateway.Recorded() && Fresh(requests, gateway.used) && NoRejects(requests)
    requires 0 < capacity && gateway.c.maxPending <= capacity <= output.Length
    modifies gateway, gateway.log, output
    ensures gateway.limits == old(gateway.limits) && Trail(gateway.c, gateway.logging, gateway.limits, requests, trace)
    ensures trace[0] == old(gateway.Now()) && trace[|requests|] == gateway.Now()
    ensures Faithful(gateway.log.records, gateway.c.maxPending, trace, marks)
    ensures i <= |requests| && marks[i] == k
    ensures var cut := |old(gateway.log.records)| + more;
            k == if cut <= |gateway.log.records| then cut else |gateway.log.records|
    ensures ok && count == TotalOpen(trace[i].states) && count <= output.Length &&
            Recovered(trace[i], output[..count], pos)
  {
    var start := |gateway.log.records|;
    trace, marks := gateway.Drive(requests);
    k := if start + more <= |gateway.log.records| then start + more else |gateway.log.records|;
    i := CutPoint(gateway.log.records, gateway.c.maxPending, trace, marks, k, |requests|);
    ok, count, pos := Recover(gateway.log.records, k, output, capacity, gateway.c, trace[i]);
  }

  datatype Request =
    | Admit(intent: OrderIntent, allowed: bool, audited: bool, stored: bool)
    | Fill(symbol: nat, id: nat, filled: int, terminal: bool, now: nat, stored: bool)
    | Cancel(symbol: nat, id: nat, now: nat, stored: bool)
    | Replace(symbol: nat, id: nat, qty: int, price: int, now: nat, stored: bool)
    | Reject(symbol: nat, id: nat)

  predicate NoRejects(requests: seq<Request>) {
    forall i :: 0 <= i < |requests| ==> !requests[i].Reject?
  }

  ghost function NewId(intent: OrderIntent): set<nat> {
    if intent.id == 0 then {} else {intent.id}
  }

  /** Identifiers of new orders are never reused. */
  ghost predicate Fresh(requests: seq<Request>, used: set<nat>)
    decreases |requests|
  {
    requests != [] ==>
      (requests[0].Admit? ==> requests[0].intent.id !in used) &&
      Fresh(requests[1..], used + if requests[0].Admit? then NewId(requests[0].intent) else {})
  }

  lemma {:induction false} FreshShrinks(requests: seq<Request>, more: set<nat>, fewer: set<nat>)
    requires fewer <= more && Fresh(requests, more)
    ensures Fresh(requests, fewer)
    decreases |requests|
  {
    if requests != [] {
      var added := if requests[0].Admit? then NewId(requests[0].intent) else {};
      FreshShrinks(requests[1..], more + added, fewer + added);
    }
  }

  function OrderOf(intent: OrderIntent): ActiveOrder {
    ActiveOrder(intent.id, intent.price, intent.qty, 0, intent.side % 2, Working)
  }

  function TermsOf(intent: OrderIntent): R.Terms {
    R.Terms(intent.qty, intent.price, intent.side, intent.now)
  }

  function AddEvent(intent: OrderIntent): R.Event {
    R.Event(R.Add, intent.id, intent.qty, intent.price, intent.side, intent.now)
  }

  /** The risk figures with the order's full quantity reserved. */
  function Grown(risk: RiskState, intent: OrderIntent): RiskState {
    risk.(net := risk.net + SignedQty(intent.side, intent.qty), gross := risk.gross + intent.price * intent.qty,
    orderCount := risk.orderCount + 1)
  }

  ghost function Reserved(g: Snapshot, at: Place, intent: OrderIntent): Snapshot
    requires HasPlace(g, at)
  {
    Admitted(g, at, OrderOf(intent), Grown(g.states[at.symbol].risk, intent), TermsOf(intent))
  }

  predicate Held(was: seq<SymbolState>, states: seq<SymbolState>, symbol: nat) {
    symbol < |was| == |states|
  }

  /** The order is open with the intent's terms, and its quantity and notional are reserved in the
      figures of its symbol: a buy counts up, a sell down. Nothing is settled. */
  ghost predicate AfterAdmit(g: Snapshot, g': Snapshot, intent: OrderIntent) {
    intent.id !in g.book &&
    g'.book == g.book[intent.id := R.Terms(intent.qty, intent.price, intent.side, intent.now)] &&
    g'.ledger == g.ledger[intent.id := intent.qty] &&
    g'.settled == g.settled && g'.notional == g.notional && g'.used == g.used + {intent.id} &&
    OthersSame(g, g', intent.symbol) &&
    g'.pending == g.pending + 1 && OpenAt(g', intent.symbol, intent.id) &&
    HasPlace(g', g'.places[intent.id]) &&
    SlotAt(g', g'.places[intent.id]) ==
      ActiveOrder(intent.id, intent.price, intent.qty, 0, intent.side % 2, Working) &&
    Held(g.states, g'.states, intent.symbol) &&
    var was := g.states[intent.symbol].risk;
    g'.states[intent.symbol].risk ==
      was.(net := if intent.side % 2 == 0 then was.net + intent.qty else was.net - intent.qty,
           gross := was.gross + intent.price * intent.qty, orderCount := was.orderCount + 1)
  }

  lemma JudgeReasons(limits: RiskLimits, risk: RiskState, intent: OrderIntent, d: Decision)
    requires d == Evaluate(limits, risk, intent)
    ensures (d.pass <==> d.reasons == {}) && (d.pass ==> intent.qty > 0)
  {
    EvaluateReasons(limits, risk, intent);
  }

  lemma JudgeStops(c: Config, limits: seq<RiskLimits>, g: Snapshot, intent: OrderIntent, d: Decision)
    requires intent.symbol < c.symbols == |limits| == |g.states| && g.pending < c.maxPending
    requires d == Evaluate(limits[intent.symbol], g.states[intent.symbol].risk, intent)
    ensures Stops(c, limits, g, intent, true) <==> d.pass && g.states[intent.symbol].risk.orderCount >= c.slots
    ensures Trips(c, limits, g, intent, true) <==> d.pass && g.states[intent.symbol].risk.orderCount < c.slots
  {
  }

  lemma JudgePasses(c: Config, limits: seq<RiskLimits>, g: Snapshot, intent: OrderIntent, d: Decision)
    requires intent.symbol < c.symbols == |limits| == |g.states| && g.pending < c.maxPending
    requires d == Evaluate(limits[intent.symbol], g.states[intent.symbol].risk, intent)
    ensures Passes(c, limits, g, intent, true) <==>
            d.pass && g.states[intent.symbol].risk.orderCount < c.slots && intent.id != 0 &&
            |g.ledger| < c.ledgerCapacity
  {
  }

  lemma JudgeBlames(c: Config, limits: seq<RiskLimits>, g: Snapshot, intent: OrderIntent, d: Decision)
    requires intent.symbol < c.symbols == |limits| == |g.states| && g.pending < c.maxPending
    requires d == Evaluate(limits[intent.symbol], g.states[intent.symbol].risk, intent)
    ensures Blames(c, limits, g, intent, true) ==
            var full := g.states[intent.symbol].risk.orderCount >= c.slots;
            if !d.pass || full then d.reasons + (if full then {OrderCapacity} else {})
            else if intent.id == 0 || |g.ledger| >= c.ledgerCapacity then {BadPosition} else {Halted}
  {
  }

  /** A refusal always carries a reason. */
  lemma EvaluateReasons(limits: RiskLimits, risk: RiskState, intent: OrderIntent)
    ensures Evaluate(limits, risk, intent).pass <==> Evaluate(limits, risk, intent).reasons == {}
    ensures Evaluate(limits, risk, intent).pass ==> intent.qty > 0
  {
    var r := Evaluate(limits, risk, intent).reasons;
    assert r == {} ==> BadQty !in r && BadPosition !in r && StaleAlpha !in r && Halted !in r && BadPrice !in r;
  }

  /** Withdrawing a reservation just made restores every figure. */
  lemma Undone(g: Snapshot, held: Snapshot, g': Snapshot, at: Place, intent: OrderIntent)
    requires HasPlace(g, at) && held == Reserved(g, at, intent) && !g.states[at.symbol].orders[at.slot].IsLive()
    requires intent.id !in g.book && intent.id !in g.ledger && intent.id !in g.places
    requires AfterCancel(held, g', at.symbol, intent.id) && g'.pending == held.pending - 1 &&
             g'.places == held.places - {intent.id}
    requires g'.states == SetSlot(held.states, at, EMPTY_SLOT, Withdrawn(held.states[at.symbol].risk, OrderOf(intent)))
    ensures Restored(g, g') && g'.used == g.used + {intent.id}
    ensures |g'.states| == |g.states| && g'.states[at.symbol].risk == g.states[at.symbol].risk
  {
    assert g'.book == g.book && g'.ledger == g.ledger && g'.places == g.places;
    assert g'.states[at.symbol].risk == g.states[at.symbol].risk;
  }

  lemma AddFits(c: Config, g: Snapshot, intent: OrderIntent)
    requires Coherent(c, g) && intent.id !in g.used && g.pending < c.maxPending
    ensures intent.id !in g.book && intent.id !in g.ledger && intent.id !in g.places
    ensures R.Applied(g.book, AddEvent(intent), c.maxPending) == Some(g.book[intent.id := TermsOf(intent)])
  {
    Ranges(c, g);
    UnusedIsNew(c, g, intent.id);
  }

  /** The risk figures after a fill: a terminal one gives back what is left of the reservation. */
  function AfterFillRisk(risk: RiskState, o: ActiveOrder, filled: int, terminal: bool): RiskState
    requires risk.orderCount > 0
  {
    var left := o.qty - filled;
    var freed := if terminal && left > 0 then Release(risk, o.side, left, o.price) else risk;
    if terminal || left == 0 then freed.(orderCount := freed.orderCount - 1) else freed
  }

  /** They follow the slot and what the fill settles. */
  lemma FillBooks(risk: RiskState, o: ActiveOrder, next: ActiveOrder, filled: int, terminal: bool)
    requires risk.orderCount > 0 && o.IsLive() && 0 < filled <= o.qty && next.side == o.side && next.price == o.price &&
             next.qty == o.qty - filled
    requires next.state == if terminal || next.qty == 0 then Done else Partial
    ensures Booked(risk, AfterFillRisk(risk, o, filled, terminal), Weight(o), Weight(next), SignedQty(o.side, filled),
            o.price * filled)
  {
    Apportion(o.price, o.qty, filled);
  }

  /** The figures a fill leaves, spelled out. */
  lemma FillMoves(risk: RiskState, o: ActiveOrder, filled: int, terminal: bool)
    requires risk.orderCount > 0 && o.IsLive() && 0 < filled <= o.qty
    ensures var r := AfterFillRisk(risk, o, filled, terminal);
            r.drawdown == risk.drawdown && r.halted == risk.halted && r.rejects == risk.rejects &&
            if terminal then
              r.net == (if o.side % 2 == 0 then risk.net + (filled - o.qty) else risk.net - (filled - o.qty)) &&
              r.gross == risk.gross + (o.price * filled - o.price * o.qty) && r.orderCount == risk.orderCount - 1
            else
              r.net == risk.net && r.gross == risk.gross &&
              r.orderCount == risk.orderCount + if o.qty == filled then -1 else 0
  {
    Apportion(o.price, o.qty, filled);
  }

  /** Closing or amending the slot that way is what a fill does. */
  lemma FillShows(c: Config, g: Snapshot, at: Place, o: ActiveOrder, next: ActiveOrder, risk: RiskState, filled: int,
      terminal: bool)
    requires OpenSlot(c, g, at, o.id) && HasPlace(g, at) && o == g.states[at.symbol].orders[at.slot] &&
             0 < filled <= o.qty
    requires next == o.(filled := o.filled + filled, qty := o.qty - filled,
             state := if terminal || o.qty == filled then Done else Partial)
    requires risk == AfterFillRisk(g.states[at.symbol].risk, o, filled, terminal)
    ensures o.id in g.book
    ensures var (ds, dn) := (SignedQty(o.side, filled), o.price * filled);
            if terminal || o.qty == filled then
              AfterFill(g, Gone(g, at, next, risk, o.id, ds, dn), at.symbol, o.id, filled, terminal)
            else AfterFill(g, Amended(g, at, next, risk, g.book[o.id].(remaining := o.qty - filled), ds, dn), at.symbol,
              o.id, filled, terminal)
  {
    FillMoves(g.states[at.symbol].risk, o, filled, terminal);
  }

  lemma Apportion(price: int, qty: int, part: int)
    ensures price * (qty - part) == price * qty - price * part
  {
  }

  function Withdrawn(risk: RiskState, o: ActiveOrder): RiskState
    requires risk.orderCount > 0
  {
    Release(risk, o.side, o.qty, o.price).(orderCount := risk.orderCount - 1)
  }

  /** Gives back the reservation of an open quantity. */
  function Release(risk: RiskState, side: nat, qty: int, price: int): RiskState {
    risk.(net := risk.net - SignedQty(side, qty), gross := risk.gross - price * qty)
  }
}
