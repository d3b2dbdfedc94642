/** The synthetic feed: the ticker table it fills, the messages it generates, and the window in
    which it reorders them. */
module FeedSim {
  import opened Folding
  import opened Options
  import opened SymbolTable
  import opened Itch

  const OPEN_TIME: nat := 34_200_000_000_000
  const UINT32_MAX: nat := 0xFFFF_FFFF
  const MESSAGE_SPACE: nat := 50

  datatype SimConfig = SimConfig(symbols: nat, minQty: nat, maxQty: nat, minPrice: nat, maxPrice: nat)
  {
    predicate InRange(limit: nat) {
      1 <= symbols <= limit && 1 <= minQty <= maxQty <= MAX_QUANTITY && 1 <= minPrice <= maxPrice <= MAX_PRICE
    }
  }

  /** The random words one message may use. */
  datatype Draw = Draw(roll: nat, sym: nat, side: nat, shares: nat, price: nat, ref: nat, matchNum: nat, gap: nat)

  /** An execution draws its quantity between one and half the largest quantity; with a largest
      quantity of one that range is empty and the source divides by zero. */
  predicate Drawable(cfg: SimConfig, d: Draw) {
    60 <= d.roll % 100 < 75 ==> 2 <= cfg.maxQty
  }

  /** The number of values a draw divides by: a 64-bit word. */
  function Span(lo: int, hi: int): nat {
    ((hi - lo) % 0x1_0000_0000_0000_0000 + 1) % 0x1_0000_0000_0000_0000
  }

  /** Whatever the settings, an execution is the only draw that can divide by zero, and it does
      exactly when the largest quantity is one. */
  lemma DrawableIff(cfg: SimConfig, d: Draw)
    requires cfg.InRange(NOT_FOUND)
    ensures Divides(0, cfg.symbols - 1) && Divides(cfg.minQty, cfg.maxQty) && Divides(1, cfg.maxQty) &&
            Divides(cfg.minPrice, cfg.maxPrice)
    ensures Divides(1, cfg.maxQty / 2) <==> cfg.maxQty != 1
    ensures Drawable(cfg, d) <==> (60 <= d.roll % 100 < 75 ==> Divides(1, cfg.maxQty / 2))
  {
    SpanIs(1, cfg.maxQty / 2);
    SpanIs(0, cfg.symbols - 1);
    SpanIs(cfg.minQty, cfg.maxQty);
    SpanIs(1, cfg.maxQty);
    SpanIs(cfg.minPrice, cfg.maxPrice);
  }

  /** The draw does not divide by zero; kept folded. */
  ghost predicate Divides(lo: int, hi: int) {
    forall n :: Unfold(n) ==> Span(lo, hi) != 0
  }

  lemma SpanIs(lo: int, hi: int)
    requires 0 <= hi - lo + 1 < 0x1_0000_0000_0000_0000
    ensures Divides(lo, hi) <==> hi - lo + 1 != 0
  {
    assert Unfold(0);
    var x := hi - lo;
    if x >= 0 {
      assert x % 0x1_0000_0000_0000_0000 == x;
    } else {
      assert (x + 0x1_0000_0000_0000_0000) % 0x1_0000_0000_0000_0000 == x % 0x1_0000_0000_0000_0000;
    }
  }

  /** Settings in range that reach it. */
  lemma DividesByZero(d: Draw)
    requires 60 <= d.roll % 100 < 75
    ensures var cfg := SimConfig(1, 1, 1, 1, 1);
            cfg.InRange(NOT_FOUND) && !Drawable(cfg, d) && !Divides(1, cfg.maxQty / 2)
  {
    DrawableIff(SimConfig(1, 1, 1, 1, 1), d);
  }

  function Uniform(lo: nat, hi: nat, word: nat): (r: nat)
    requires lo <= hi
    ensures lo <= r <= hi
  {
    lo + word % (hi - lo + 1)
  }

  /** Time of the `i`-th message. */
  function Clock(draws: seq<Draw>, i: nat): (t: nat)
    requires i <= |draws|
    ensures OPEN_TIME <= t <= OPEN_TIME + 10_000 * i
  {
    if i == 0 then OPEN_TIME else Clock(draws, i - 1) + Uniform(100, 10_000, draws[i - 1].gap)
  }

  predicate IsAdd(d: Draw) {
    d.roll % 100 < 60
  }

  /** The next order reference at the `i`-th message. */
  function NextRef(draws: seq<Draw>, i: nat): (r: nat)
    requires i <= |draws|
    ensures 1 <= r <= i + 1
  {
    if i == 0 then 1 else NextRef(draws, i - 1) + if IsAdd(draws[i - 1]) then 1 else 0
  }

  /** A plausible earlier reference. */
  function PastRef(next: nat, word: nat): (r: nat)
    requires next >= 1
    ensures 1 <= r && (next > 1 ==> r < next)
  {
    if next > 1 then Uniform(1, next - 1, word) else 1
  }

  /** The fields the feed means to send. */
  function Meant(cfg: SimConfig, d: Draw, ts: nat, next: nat): Tick
    requires cfg.InRange(NOT_FOUND) && Drawable(cfg, d) && next >= 1
  {
    var sym, roll := Uniform(0, cfg.symbols - 1, d.sym), d.roll % 100;
    if roll < 60 then
      Tick(ADD, ts, sym, next, Uniform(cfg.minQty, cfg.maxQty, d.shares), Uniform(cfg.minPrice, cfg.maxPrice, d.price),
      0, if d.side % 2 == 1 then FLAG_BUY else 0)
    else if roll < 75 then
      Tick(EXECUTED, ts, sym, PastRef(next, d.ref), Uniform(1, cfg.maxQty / 2, d.shares), 0, d.matchNum, FLAG_PRINTABLE)
    else if roll < 90 then Tick(CANCEL, ts, sym, PastRef(next, d.ref), Uniform(1, cfg.maxQty, d.shares), 0, 0, 0)
    else Tick(DELETE, ts, sym, PastRef(next, d.ref), 0, 0, 0, 0)
  }

  /** How many orders the first `i` messages add. */
  function Added(ticks: seq<Tick>, i: nat): (n: nat)
    requires i <= |ticks|
    ensures n <= i
  {
    if i == 0 then 0 else Added(ticks, i - 1) + if ticks[i - 1].kind == ADD then 1 else 0
  }

  /** What the `i`-th message of a feed is, in its own terms. Out of a hundred rolls sixty add an order,
      fifteen execute, fifteen cancel and ten delete. Added orders take the references one, two, three
      and so on; every other message names an order that was added before it, or the first one when
      there is none yet. Each message is between a hundred nanoseconds and ten microseconds later than
      the one before. Kept folded. */
  ghost predicate Plausible(cfg: SimConfig, ticks: seq<Tick>, i: nat, roll: nat)
    requires i < |ticks|
  {
    forall n :: Unfold(n) ==>
      var t, added := ticks[i], Added(ticks, i);
      (t.kind == ADD <==> roll < 60) && (t.kind == EXECUTED <==> 60 <= roll < 75) &&
      (t.kind == CANCEL <==> 75 <= roll < 90) && (t.kind == DELETE <==> 90 <= roll) && t.symbol < cfg.symbols &&
      (t.kind == ADD ==>
        t.ref == added + 1 && cfg.minQty <= t.qty <= cfg.maxQty && cfg.minPrice <= t.price <= cfg.maxPrice) &&
      (t.kind != ADD ==> 1 <= t.ref && (t.ref <= added || (added == 0 && t.ref == 1)) && t.price == 0) &&
      (t.kind == EXECUTED ==> 1 <= t.qty && 2 * t.qty <= cfg.maxQty) &&
      (t.kind == CANCEL ==> 1 <= t.qty <= cfg.maxQty) && (t.kind == DELETE ==> t.qty == 0) &&
      (if i == 0 then t.time == OPEN_TIME else 100 <= t.time - ticks[i - 1].time <= 10_000)
  }

  /** The next reference counts the orders added. */
  lemma {:induction false} RefCounts(draws: seq<Draw>, ticks: seq<Tick>, i: nat)
    requires i <= |draws| == |ticks|
    requires forall j {:trigger ticks[j]} :: 0 <= j < |draws| ==> (ticks[j].kind == ADD <==> draws[j].roll % 100 < 60)
    ensures NextRef(draws, i) == Added(ticks, i) + 1
  {
    if i > 0 {
      RefCounts(draws, ticks, i - 1);
    }
  }

  /** Every message the feed means to send is plausible. */
  lemma {:induction false} FeedPlausible(cfg: SimConfig, draws: seq<Draw>, ticks: seq<Tick>, i: nat)
    requires cfg.InRange(NOT_FOUND) && i < |draws| == |ticks|
    requires forall j {:trigger draws[j]} :: 0 <= j < |draws| ==> Drawable(cfg, draws[j])
    requires forall j {:trigger ticks[j]} :: 0 <= j < |draws| ==>
               ticks[j] == Meant(cfg, draws[j], Clock(draws, j), NextRef(draws, j))
    ensures Plausible(cfg, ticks, i, draws[i].roll % 100)
  {
    RefCounts(draws, ticks, i);
    assert i > 0 ==> ticks[i - 1].time == Clock(draws, i - 1);
  }

  lemma {:induction false} AllPlausible(cfg: SimConfig, draws: seq<Draw>, ticks: seq<Tick>)
    requires cfg.InRange(NOT_FOUND) && |draws| == |ticks|
    requires forall j {:trigger draws[j]} :: 0 <= j < |draws| ==> Drawable(cfg, draws[j])
    requires forall j {:trigger ticks[j]} :: 0 <= j < |draws| ==>
               ticks[j] == Meant(cfg, draws[j], Clock(draws, j), NextRef(draws, j))
    ensures forall i :: 0 <= i < |ticks| ==> Plausible(cfg, ticks, i, draws[i].roll % 100)
  {
    forall i | 0 <= i < |ticks| ensures Plausible(cfg, ticks, i, draws[i].roll % 100) {
      FeedPlausible(cfg, draws, ticks, i);
    }
  }

  /** The table knows the first `n` generated tickers, and nothing else. */
  ghost predicate Lists(m: map<Ticker, nat>, n: nat) {
    |m| == n && (forall i {:trigger Stock(i)} :: 0 <= i < n ==> Stock(i) in m && m[Stock(i)] == i) &&
    (forall k {:trigger k in m} :: k in m ==> m[k] < n && k == Stock(m[k]))
  }

  lemma ListsMore(m: map<Ticker, nat>, n: nat)
    requires Lists(m, n) && n < 10_000_000
    ensures Lists(m[Stock(n) := n], n + 1)
  {
    if Stock(n) in m {
      StocksDiffer(n, m[Stock(n)]);
    }
    forall i | 0 <= i < n ensures Stock(i) != Stock(n) {
      if Stock(i) == Stock(n) {
        StocksDiffer(i, n);
      }
    }
  }

  /** Enters every ticker; with no more symbols than half the table none is refused. */
  method InitSymbols(cfg: SimConfig, table: Table)
    requires table.Valid() && table.contents == map[] && cfg.symbols <= table.g.symbols && cfg.symbols <= table.g.Half()
    modifies table, table.keys, table.values
    ensures table.Valid() && Lists(table.contents, cfg.symbols)
  {
    var i := 0;
    while i < cfg.symbols
      invariant i <= cfg.symbols && table.Valid() && Lists(table.contents, i)
    {
      var ticker := FormatStock(i);
      ListsMore(table.contents, i);
      var _ := table.Insert(ticker, i);
      i := i + 1;
    }
  }

  /** A table filled to half refuses even a ticker it knows. */
  method KnownRefused(g: Shape) returns (table: Table, ok: bool)
    requires g.Valid() && 1 <= g.Half() <= g.symbols
    ensures table.g == g && Stock(0) in table.contents && table.contents[Stock(0)] == 0 && !ok
  {
    table := new Table(g);
    InitSymbols(SimConfig(g.Half(), 1, 1, 1, 1), table);
    var ticker := FormatStock(0);
    ok := table.Insert(ticker, 0);
  }

  /** One message into the buffer. */
  method Generate(cfg: SimConfig, dst: array<byte>, d: Draw, ts: nat, next: nat, ghost symbols: nat,
      ghost m: map<Ticker, nat>)
    returns (len: nat)
    requires cfg.InRange(symbols) && symbols <= NOT_FOUND && dst.Length >= MESSAGE_SPACE && ts < DAY &&
             1 <= next <= UINT32_MAX + 1
    requires Lists(m, cfg.symbols) && Drawable(cfg, d) && d.matchNum < 0x1_0000_0000_0000_0000
    modifies dst
    ensures len <= MESSAGE_SPACE && (forall k :: k in m ==> m[k] < NOT_FOUND)
    ensures Decode(dst[..len], symbols, m) == Some(Meant(cfg, d, ts, next))
  {
    var sym, roll := Uniform(0, cfg.symbols - 1, d.sym), d.roll % 100;
    ListsKnow(m, cfg.symbols, sym);
    if roll < 60 {
      len := GenerateAdd(cfg, dst, d, ts, next, sym, symbols, m);
    } else if roll < 75 {
      len := GenerateExecuted(cfg, dst, d, ts, next, sym, symbols, m);
    } else if roll < 90 {
      len := GenerateCancel(cfg, dst, d, ts, next, sym, symbols, m);
    } else {
      var ref := PastRef(next, d.ref);
      len := GenOrderDelete(dst, ts, ref, sym);
      DeleteRoundTrip(ts, sym, symbols, ref, m);
    }
  }

  lemma ListsKnow(m: map<Ticker, nat>, n: nat, sym: nat)
    requires Lists(m, n) && sym < n <= NOT_FOUND
    ensures Knows(m, sym)
  {
  }

  method GenerateAdd(cfg: SimConfig, dst: array<byte>, d: Draw, ts: nat, next: nat, sym: nat, ghost symbols: nat,
      ghost m: map<Ticker, nat>) returns (len: nat)
    requires cfg.InRange(symbols) && symbols <= NOT_FOUND && dst.Length >= MESSAGE_SPACE && ts < DAY &&
             1 <= next <= UINT32_MAX + 1
    requires d.roll % 100 < 60 && sym == Uniform(0, cfg.symbols - 1, d.sym) && Knows(m, sym)
    modifies dst
    ensures len <= MESSAGE_SPACE && Decode(dst[..len], symbols, m) == Some(Meant(cfg, d, ts, next))
  {
    var shares, price := Uniform(cfg.minQty, cfg.maxQty, d.shares), Uniform(cfg.minPrice, cfg.maxPrice, d.price);
    len := GenAddOrder(dst, ts, next, sym, d.side % 2 == 1, shares, price);
    AddRoundTrip(ts, sym, symbols, next, d.side % 2 == 1, shares, price, m);
  }

  method GenerateExecuted(cfg: SimConfig, dst: array<byte>, d: Draw, ts: nat, next: nat, sym: nat, ghost symbols: nat,
      ghost m: map<Ticker, nat>) returns (len: nat)
    requires cfg.InRange(symbols) && symbols <= NOT_FOUND && dst.Length >= MESSAGE_SPACE && ts < DAY &&
             1 <= next <= UINT32_MAX + 1
    requires 60 <= d.roll % 100 < 75 && Drawable(cfg, d) && sym == Uniform(0, cfg.symbols - 1, d.sym) &&
             Knows(m, sym) && d.matchNum < 0x1_0000_0000_0000_0000
    modifies dst
    ensures len <= MESSAGE_SPACE && Decode(dst[..len], symbols, m) == Some(Meant(cfg, d, ts, next))
  {
    var ref, shares := PastRef(next, d.ref), Uniform(1, cfg.maxQty / 2, d.shares);
    len := GenOrderExecuted(dst, ts, ref, sym, shares, d.matchNum);
    ExecutedRoundTrip(ts, sym, symbols, ref, shares, d.matchNum, m);
  }

  method GenerateCancel(cfg: SimConfig, dst: array<byte>, d: Draw, ts: nat, next: nat, sym: nat, ghost symbols: nat,
      ghost m: map<Ticker, nat>) returns (len: nat)
    requires cfg.InRange(symbols) && symbols <= NOT_FOUND && dst.Length >= MESSAGE_SPACE && ts < DAY &&
             1 <= next <= UINT32_MAX + 1
    requires 75 <= d.roll % 100 < 90 && sym == Uniform(0, cfg.symbols - 1, d.sym) && Knows(m, sym)
    modifies dst
    ensures len <= MESSAGE_SPACE && Decode(dst[..len], symbols, m) == Some(Meant(cfg, d, ts, next))
  {
    var ref, shares := PastRef(next, d.ref), Uniform(1, cfg.maxQty, d.shares);
    len := GenOrderCancel(dst, ts, ref, sym, shares);
    CancelRoundTrip(ts, sym, symbols, ref, shares, m);
  }

  /** The `i`-th message, the time and the next reference after it. */
  method GenerateNext(cfg: SimConfig, draws: seq<Draw>, i: nat, ts: nat, next: nat, ghost symbols: nat,
      ghost m: map<Ticker, nat>)
    returns (raw: seq<byte>, later: nat, following: nat)
    requires cfg.InRange(symbols) && symbols <= NOT_FOUND && Lists(m, cfg.symbols) && i < |draws| <= UINT32_MAX
    requires draws[i].matchNum < 0x1_0000_0000_0000_0000 && Drawable(cfg, draws[i]) && ts == Clock(draws, i) &&
             next == NextRef(draws, i)
    ensures Faithful(cfg, draws, i, raw, symbols, m) && later == Clock(draws, i + 1) &&
            following == NextRef(draws, i + 1)
  {
    var dst := new byte[MESSAGE_SPACE](_ => 0);
    var len := Generate(cfg, dst, draws[i], ts, next, symbols, m);
    raw := dst[..len];
    Seal(cfg, draws, i, raw, symbols, m);
    following := if IsAdd(draws[i]) then next + 1 else next;
    later := ts + Uniform(100, 10_000, draws[i].gap);
  }

  /** The whole buffer of messages: for any random words and any 32-bit count, each message
      decodes to exactly the fields it was generated from. */
  method GenerateAll(cfg: SimConfig, draws: seq<Draw>, ghost symbols: nat, ghost m: map<Ticker, nat>)
      returns (messages: seq<seq<byte>>)
    requires cfg.InRange(symbols) && symbols <= NOT_FOUND && Lists(m, cfg.symbols) && |draws| <= UINT32_MAX
    requires forall i :: 0 <= i < |draws| ==> draws[i].matchNum < 0x1_0000_0000_0000_0000 && Drawable(cfg, draws[i])
    ensures |messages| == |draws| && forall k :: k in m ==> m[k] < NOT_FOUND
    ensures forall i {:trigger messages[i]} :: 0 <= i < |draws| ==>
              Decode(messages[i], symbols, m) == Some(Meant(cfg, draws[i], Clock(draws, i), NextRef(draws, i)))
  {
    messages := [];
    var ts, next, i := OPEN_TIME, 1, 0;
    while i < |draws|
      invariant i <= |draws| && |messages| == i && ts == Clock(draws, i) && next == NextRef(draws, i)
      invariant forall j :: 0 <= j < i ==> Faithful(cfg, draws, j, messages[j], symbols, m)
    {
      var raw;
      raw, ts, next := GenerateNext(cfg, draws, i, ts, next, symbols, m);
      messages := messages + [raw];
      i := i + 1;
    }
    forall j {:trigger messages[j]} | 0 <= j < |draws|
      ensures (forall k :: k in m ==> m[k] < NOT_FOUND) &&
              Decode(messages[j], symbols, m) == Some(Meant(cfg, draws[j], Clock(draws, j), NextRef(draws, j)))
    {
      Unseal(cfg, draws, j, messages[j], symbols, m);
    }
  }

  /** From the empty ticker table to the decoded messages: the tickers are entered, the feed is
      generated, and decoding it through the table gives back the fields that were drawn. */
  method Simulate(cfg: SimConfig, draws: seq<Draw>, g: Shape) returns (ticks: seq<Tick>)
    requires g.Valid() && cfg.InRange(g.symbols) && cfg.symbols <= g.Half() && g.symbols <= NOT_FOUND
    requires |draws| <= UINT32_MAX &&
             forall i :: 0 <= i < |draws| ==> draws[i].matchNum < 0x1_0000_0000_0000_0000 && Drawable(cfg, draws[i])
    ensures |ticks| == |draws| && forall i {:trigger ticks[i]} :: 0 <= i < |draws| ==>
              ticks[i] == Meant(cfg, draws[i], Clock(draws, i), NextRef(draws, i))
    ensures forall i :: 0 <= i < |ticks| ==> Plausible(cfg, ticks, i, draws[i].roll % 100)
  {
    var table := new Table(g);
    InitSymbols(cfg, table);
    var messages := GenerateAll(cfg, draws, g.symbols, table.contents);
    ghost var meant := seq(|draws|, i requires 0 <= i < |draws| =>
      Meant(cfg, draws[i], Clock(draws, i), NextRef(draws, i)));
    ticks := DecodeAll(messages, table, meant);
    assert forall i {:trigger ticks[i]} :: 0 <= i < |draws| ==>
        ticks[i] == Meant(cfg, draws[i], Clock(draws, i), NextRef(draws, i));
    AllPlausible(cfg, draws, ticks);
  }

  method DecodeAll(messages: seq<seq<byte>>, table: Table, ghost meant: seq<Tick>) returns (ticks: seq<Tick>)
    requires table.Valid() && (forall k :: k in table.contents ==> table.contents[k] < NOT_FOUND) &&
             |messages| == |meant|
    requires forall i {:trigger messages[i]} ::
               0 <= i < |messages| ==> Decode(messages[i], table.g.symbols, table.contents) == Some(meant[i])
    ensures ticks == meant
  {
    ticks := [];
    var i := 0;
    while i < |messages|
      invariant i <= |messages| && ticks == meant[..i]
    {
      var r := DecodeItch(messages[i], table);
      assert r == Some(meant[i]);
      ticks := ticks + [r.value];
      i := i + 1;
    }
  }

  /** The message decodes to what was meant; folded. */
  ghost predicate Faithful(cfg: SimConfig, draws: seq<Draw>, i: nat, raw: seq<byte>, symbols: nat,
      m: map<Ticker, nat>) {
    forall n :: Unfold(n) ==>
      cfg.InRange(NOT_FOUND) && i < |draws| && Drawable(cfg, draws[i]) && (forall k :: k in m ==> m[k] < NOT_FOUND) &&
      Decode(raw, symbols, m) == Some(Meant(cfg, draws[i], Clock(draws, i), NextRef(draws, i)))
  }

  lemma Seal(cfg: SimConfig, draws: seq<Draw>, i: nat, raw: seq<byte>, symbols: nat, m: map<Ticker, nat>)
    requires cfg.InRange(NOT_FOUND) && i < |draws| && Drawable(cfg, draws[i]) &&
             (forall k :: k in m ==> m[k] < NOT_FOUND)
    requires Decode(raw, symbols, m) == Some(Meant(cfg, draws[i], Clock(draws, i), NextRef(draws, i)))
    ensures Faithful(cfg, draws, i, raw, symbols, m)
  {
  }

  lemma Unseal(cfg: SimConfig, draws: seq<Draw>, i: nat, raw: seq<byte>, symbols: nat, m: map<Ticker, nat>)
    requires Faithful(cfg, draws, i, raw, symbols, m)
    ensures cfg.InRange(NOT_FOUND) && i < |draws| && Drawable(cfg, draws[i]) &&
            (forall k :: k in m ==> m[k] < NOT_FOUND)
    ensures Decode(raw, symbols, m) == Some(Meant(cfg, draws[i], Clock(draws, i), NextRef(draws, i)))
  {
    assert Unfold(0);
  }

  // ----- The reorder window -----

  /** The indices 0 to n - 1, each once. */
  function Range(n: nat): multiset<nat> {
    if n == 0 then multiset{} else Range(n - 1) + multiset{n - 1}
  }

  lemma {:induction false} InRangeOnce(n: nat, x: nat)
    ensures Range(n)[x] == if x < n then 1 else 0
  {
    if n > 0 {
      InRangeOnce(n - 1, x);
    }
  }

  lemma SwapRemoved(pending: seq<nat>, choice: nat)
    requires choice < |pending|
    ensures multiset(pending) == multiset(pending[choice :=
            pending[|pending| - 1]][..|pending| - 1]) + multiset{pending[choice]}
  {
    var last := |pending| - 1;
    var rest := pending[choice := pending[last]][..last];
    assert pending == pending[..last] + [pending[last]];
    if choice < last {
      assert rest == pending[..last][choice := pending[last]];
      assert multiset(rest) == multiset(pending[..last])[pending[..last][choice] :=
             multiset(pending[..last])[pending[..last][choice]] - 1] + multiset{pending[last]};
    } else {
      assert rest == pending[..last];
    }
  }

  /** Handed out and waiting indices are together 0 to n - 1, each once. */
  ghost predicate Together(given: seq<nat>, pending: seq<nat>, n: nat) {
    |given| + |pending| == n && Once(given, pending, n)
  }

  ghost predicate Once(given: seq<nat>, pending: seq<nat>, n: nat) {
    forall u :: Unfold(u) ==> multiset(given) + multiset(pending) == Range(n)
  }

  lemma OpenOnce(given: seq<nat>, pending: seq<nat>, n: nat)
    requires Once(given, pending, n)
    ensures multiset(given) + multiset(pending) == Range(n)
  {
    assert Unfold(0);
  }

  lemma SealOnce(given: seq<nat>, pending: seq<nat>, n: nat)
    requires multiset(given) + multiset(pending) == Range(n)
    ensures Once(given, pending, n)
  {
  }

  ghost predicate WindowOk(count: nat, capacity: nat, given: seq<nat>, pending: seq<nat>, cursor: nat, remaining: nat)
    requires capacity <= count
  {
    remaining <= count - capacity && cursor == (if remaining == 0 then 0 else count - remaining) &&
    (if pending == [] then remaining == 0
     else Together(given, pending, count - remaining) &&
          (if remaining > 0 then |pending| == capacity - 1 else |pending| < capacity))
  }

  /** The window after one index was drawn from a full one, or at the end of a round. */
  lemma AfterDraw(count: nat, capacity: nat, given: seq<nat>, pending: seq<nat>, cursor: nat, remaining: nat)
    requires 2 <= capacity <= count && remaining <= count - capacity &&
             cursor == (if remaining == 0 then 0 else count - remaining)
    requires Together(given, pending, count - remaining) && |pending| < capacity &&
             (remaining > 0 ==> |pending| == capacity - 1)
    ensures WindowOk(count, capacity, given, pending, cursor, remaining) &&
            (pending == [] ==> Together(given, pending, count))
  {
  }

  lemma DrawFrom(count: nat, capacity: nat, given: seq<nat>, pending: seq<nat>, cursor: nat, remaining: nat,
      choice: nat) returns (gone: seq<nat>, rest: seq<nat>)
    requires 2 <= capacity <= count && 0 < |pending| <= capacity && choice < |pending| && remaining <= count - capacity
    requires Together(given, pending, count - remaining) &&
             cursor == (if remaining == 0 then 0 else count - remaining) && (remaining > 0 ==> |pending| == capacity)
    ensures gone == given + [pending[choice]] && rest == pending[choice := pending[|pending| - 1]][..|pending| - 1]
    ensures pending[choice] < |given| + capacity && pending[choice] < count
    ensures WindowOk(count, capacity, gone, rest, cursor, remaining) && (rest == [] ==> Together(gone, rest, count))
  {
    gone, rest := given + [pending[choice]], pending[choice := pending[|pending| - 1]][..|pending| - 1];
    Drawn(given, pending, rest, count - remaining, choice);
    AfterDraw(count, capacity, gone, rest, cursor, remaining);
  }

  class ReorderWindow {
    const count: nat
    const capacity: nat
    var pending: seq<nat>
    var cursor: nat
    var remaining: nat
    /** The indices handed out in this round. */
    ghost var given: seq<nat>

    ghost predicate Valid()
      reads this
    {
      capacity <= count && 0 < count && cursor < count && (if capacity < 2 then pending == [] else Window())
    }

    /** Handed out and waiting indices are together the ones loaded in this round. */
    ghost predicate Window()
      requires capacity <= count
      reads this
    {
      WindowOk(count, capacity, given, pending, cursor, remaining)
    }

    ghost predicate Loaded()
      requires remaining <= count
      reads this
    {
      Together(given, pending, count - remaining)
    }

    constructor (count: nat, capacity: nat)
      requires capacity <= count && 0 < count
      ensures Valid() && this.count == count && this.capacity == capacity && given == []
    {
      this.count, this.capacity := count, capacity;
      pending, cursor, remaining, given := [], 0, 0, [];
    }

    /** Hands out the next message index: in order without a window of at least two, else a random
        member of the window. A round hands out every index exactly once, none of them more than
        the window ahead of its turn. */
    method Next(word: nat) returns (index: nat)
      requires Valid()
      modifies this
      ensures Valid() && index < count
      ensures capacity < 2 ==> index == old(cursor) && cursor == (if index + 1 == count then 0 else index + 1)
      ensures capacity >= 2 ==>
                given == (if old(pending) == [] then [] else old(given)) + [index] && index < |given| - 1 + capacity
      ensures capacity >= 2 && pending == [] ==> |given| == count && multiset(given) == Range(count)
    {
      if capacity == 0 {
        index := cursor;
        cursor := if cursor + 1 == count then 0 else cursor + 1;
        return;
      }
      if capacity == 1 {
        index := NextOnly(word);
      } else {
        index := NextDrawn(word);
        if pending == [] {
          AllGiven(given, pending, count);
        }
      }
    }

    /** A window of one holds the next index alone. */
    method NextOnly(word: nat) returns (index: nat)
      requires Valid() && capacity == 1
      modifies this
      ensures Valid() && index == old(cursor) && cursor == (if index + 1 == count then 0 else index + 1)
    {
      Refill();
      var choice := Pick(|pending|, word);
      index := Remove(choice, given + [pending[choice]], pending[choice := pending[|pending| - 1]][..|pending| - 1]);
    }

    /** The next index from a window of at least two. */
    method NextDrawn(word: nat) returns (index: nat)
      requires Valid() && 2 <= capacity
      modifies this
      ensures Valid() && index < count
      ensures given == (if old(pending) == [] then [] else old(given)) + [index] && index < |given| - 1 + capacity
      ensures pending == [] ==> Together(given, pending, count)
    {
      Refill();
      index := DrawLoaded(word);
    }

    /** Draws from a loaded window. */
    method DrawLoaded(word: nat) returns (index: nat)
      requires 2 <= capacity <= count && cursor < count && 0 < |pending| <= capacity && remaining <= count - capacity &&
               Loaded()
      requires cursor == (if remaining == 0 then 0 else count - remaining) && (remaining > 0 ==> |pending| == capacity)
      modifies this`pending, this`given
      ensures Valid() && index < count && given == old(given) + [index] && index < |given| - 1 + capacity
      ensures pending == [] ==> Together(given, pending, count)
    {
      var choice := Pick(|pending|, word);
      ghost var gone, rest := DrawFrom(count, capacity, given, pending, cursor, remaining, choice);
      index := Remove(choice, gone, rest);
    }

    /** Moves the last member into the place of the chosen one. */
    method Remove(choice: nat, ghost gone: seq<nat>, ghost rest: seq<nat>) returns (index: nat)
      requires choice < |pending| && gone == given + [pending[choice]] &&
               rest == pending[choice := pending[|pending| - 1]][..|pending| - 1]
      modifies this`pending, this`given
      ensures index == old(pending[choice]) && given == gone && pending == rest
    {
      index := pending[choice];
      given, pending := gone, pending[choice := pending[|pending| - 1]][..|pending| - 1];
    }

    /** Fills the window at the start of a round and tops it up while the round lasts. */
    method Refill()
      requires Valid() && 0 < capacity
      modifies this`pending, this`cursor, this`remaining, this`given
      ensures 0 < |pending| <= capacity && remaining <= count - capacity && cursor < count
      ensures capacity == 1 ==>
                pending == [old(cursor)] && cursor == (if old(cursor) + 1 == count then 0 else old(cursor) + 1)
      ensures capacity >= 2 ==>
                Loaded() && cursor == (if remaining == 0 then 0 else count - remaining) &&
                (remaining > 0 ==> |pending| == capacity)
      ensures capacity >= 2 ==> given == if old(pending) == [] then [] else old(given)
    {
      if pending == [] {
        given := [];
        Fill();
        if capacity >= 2 {
          AllPending(pending, capacity);
        }
        remaining := count - capacity;
      } else if remaining != 0 {
        TopUp();
      }
    }

    method TopUp()
      requires remaining > 0 && remaining < count && Loaded() && cursor == count - remaining
      modifies this`pending, this`cursor, this`remaining
      ensures remaining == old(remaining) - 1 && Loaded() && |pending| == |old(pending)| + 1 &&
              cursor == (if remaining == 0 then 0 else count - remaining)
    {
      LoadOne(given, pending, cursor);
      pending := pending + [cursor];
      cursor := if cursor + 1 == count then 0 else cursor + 1;
      remaining := remaining - 1;
    }

    method Fill()
      requires 0 < capacity <= count && pending == [] && cursor < count && (capacity >= 2 ==> cursor == 0)
      modifies this`pending, this`cursor
      ensures |pending| == capacity
      ensures if capacity >= 2 then multiset(pending) == Range(capacity) &&
              cursor == (if capacity == count then 0 else capacity)
              else pending == [old(cursor)] && cursor == (if old(cursor) + 1 == count then 0 else old(cursor) + 1)
    {
      ghost var start := cursor;
      while |pending| < capacity
        invariant |pending| <= capacity && cursor < count
        invariant capacity >= 2 ==>
                    multiset(pending) == Range(|pending|) && cursor == (if |pending| == count then 0 else |pending|)
        invariant capacity < 2 ==>
                    if pending == [] then cursor == start
                    else pending == [start] && cursor == (if start + 1 == count then 0 else start + 1)
        decreases capacity - |pending|
      {
        pending := pending + [cursor];
        cursor := if cursor + 1 == count then 0 else cursor + 1;
      }
    }

    static method Pick(n: nat, word: nat) returns (choice: nat)
      requires n > 0
      ensures choice < n
    {
      choice := Uniform(0, n - 1, word);
    }
  }

  lemma LoadOne(given: seq<nat>, pending: seq<nat>, n: nat)
    requires Together(given, pending, n)
    ensures Together(given, pending + [n], n + 1)
  {
    OpenOnce(given, pending, n);
    assert multiset(pending + [n]) == multiset(pending) + multiset{n};
    assert Range(n + 1) == Range(n) + multiset{n};
    SealOnce(given, pending + [n], n + 1);
  }

  lemma AllPending(pending: seq<nat>, n: nat)
    requires multiset(pending) == Range(n) && |pending| == n
    ensures Together([], pending, n)
  {
    SealOnce([], pending, n);
  }

  lemma AllGiven(given: seq<nat>, pending: seq<nat>, n: nat)
    requires Together(given, pending, n) && pending == []
    ensures |given| == n && multiset(given) == Range(n)
  {
    OpenOnce(given, pending, n);
  }

  lemma Drawn(given: seq<nat>, pending: seq<nat>, rest: seq<nat>, loaded: nat, choice: nat)
    requires Together(given, pending, loaded) && choice < |pending|
    requires rest == pending[choice := pending[|pending| - 1]][..|pending| - 1]
    ensures pending[choice] < loaded && Together(given + [pending[choice]], rest, loaded)
  {
    OpenOnce(given, pending, loaded);
    SwapRemoved(pending, choice);
    InRangeOnce(loaded, pending[choice]);
    assert pending[choice] in multiset(pending);
    assert multiset(given + [pending[choice]]) == multiset(given) + multiset{pending[choice]};
    SealOnce(given + [pending[choice]], rest, loaded);
  }
}
