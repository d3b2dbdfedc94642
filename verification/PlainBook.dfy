/** The plain book as a specification: what each feed message does to a map of live
    orders and an arrival-ordered queue per row and price, and what whole runs keep. */
module PlainBook {
  import opened Folding
  import opened OrderIndex
  import opened PriceLevels
  import opened Sequences
  import opened BookState

  datatype Kind = Add | Execute | Cancel | Delete | Replace | Trade | Unsupported

  /** A decoded feed message; `matchNum` carries the new reference of a replace. */
  datatype Tick = Tick(kind: Kind, symbol: nat, buy: bool, price: int, qty: int, ref: nat, matchNum: nat)

  predicate ValidQty(c: Limits, qty: int) {
    1 <= qty <= c.maxQty
  }

  predicate ValidPrice(c: Limits, price: int) {
    1 <= price <= c.maxPrice
  }

  /** Messages refused before any handler runs. */
  predicate Malformed(c: Limits, t: Tick) {
    t.symbol >= c.symbols ||
    match t.kind
    case Add => t.ref == 0 || !ValidQty(c, t.qty) || !ValidPrice(c, t.price)
    case Execute | Cancel => t.ref == 0 || !ValidQty(c, t.qty)
    case Delete => t.ref == 0
    case Replace => t.ref == 0 || t.matchNum == 0 || t.ref == t.matchNum || !ValidQty(c, t.qty) ||
      !ValidPrice(c, t.price)
    case Trade => !ValidQty(c, t.qty) || !ValidPrice(c, t.price)
    case Unsupported => true
  }

  /** The plain book has room at a price: its queue is short of a full level, and a new
      price is within depth. */
  ghost predicate Fits(c: Limits, b: Book, k: (nat, int))
    requires k in b.queues
  {
    |b.queues[k]| < c.slots && (b.queues[k] != [] || |PricesOf(b, k.0)| < c.levels)
  }

  /** What replace does to the plain book, `room` being the index pre-flight. */
  ghost function Replaced(c: Limits, b: Book, ref: nat, newRef: nat, price: int, qty: int, room: bool): Book {
    if ref in b.live && Key(b.live[ref]) in b.queues && room then
      var o := b.live[ref].(price := price, qty := qty);
      var b1 := Removed(b, ref);
      if Key(o) in b1.queues && Fits(c, b1, Key(o)) then Added(b1, newRef, o) else b1
    else b
  }

  lemma ReplacedIs(c: Limits, b: Book, ref: nat, newRef: nat, o: Order, b1: Book, ok: bool)
    requires ref in b.live && Key(b.live[ref]) in b.queues && b1 == Removed(b, ref)
    requires o.symbol == b.live[ref].symbol && o.side == b.live[ref].side
    requires Key(o) in b1.queues && ok == Fits(c, b1, Key(o))
    ensures Replaced(c, b, ref, newRef, o.price, o.qty, true) == if ok then Added(b1, newRef, o) else b1
  {
    assert o == b.live[ref].(price := o.price, qty := o.qty);
  }

  /** One message. A trade print changes nothing. */
  ghost function Step(c: Limits, b: Book, t: Tick, room: bool): Book {
    if Malformed(c, t) then b else
    match t.kind
    case Add =>
      var o := Order(t.symbol, if t.buy then 0 else 1, t.price, t.qty);
      if t.ref !in b.live && room && Key(o) in b.queues && Fits(c, b, Key(o)) then Added(b, t.ref, o) else b
    case Execute | Cancel =>
      if t.ref in b.live && Key(b.live[t.ref]) in b.queues then Reduced(b, t.ref, t.qty) else b
    case Delete =>
      if t.ref in b.live && Key(b.live[t.ref]) in b.queues then Removed(b, t.ref) else b
    case Replace => Replaced(c, b, t.ref, t.matchNum, t.price, t.qty, room)
    case Trade => b
  }

  lemma AddStep(c: Limits, b: Book, t: Tick, o: Order)
    requires t.kind.Add? && !Malformed(c, t) && o == Order(t.symbol, if t.buy then 0 else 1, t.price, t.qty)
    ensures forall room :: Step(c, b, t, room) ==
              if t.ref !in b.live && room && Key(o) in b.queues && Fits(c, b, Key(o)) then Added(b, t.ref, o) else b
  {
  }

  ghost function Run(c: Limits, b: Book, ticks: seq<Tick>, rooms: seq<bool>): Book
    requires |ticks| == |rooms|
  {
    if ticks == [] then b
    else Step(c, Run(c, b, ticks[..|ticks| - 1], rooms[..|ticks| - 1]), ticks[|ticks| - 1], rooms[|ticks| - 1])
  }

  // ----- What every run keeps -----

  ghost predicate DistinctQueue(q: seq<Resting>) {
    forall i, j :: 0 <= i < j < |q| ==> q[i].ref != q[j].ref
  }

  ghost predicate Queued(q: seq<Resting>, ref: nat) {
    exists i :: 0 <= i < |q| && q[i].ref == ref
  }

  /** A queue holds live orders of its own row and price, once each, with their quantity. */
  ghost predicate QueueTrue(b: Book, k: (nat, int), q: seq<Resting>) {
    DistinctQueue(q) &&
    forall i :: 0 <= i < |q| ==> q[i].ref in b.live && Key(b.live[q[i].ref]) == k && b.live[q[i].ref].qty == q[i].qty
  }

  /** The live map and the queues tell the same story. */
  ghost predicate Consistent(b: Book) {
    (forall k :: k in b.queues ==> QueueTrue(b, k, b.queues[k])) &&
    (forall ref :: ref in b.live ==> Key(b.live[ref]) in b.queues && Queued(b.queues[Key(b.live[ref])], ref))
  }

  /** `x` stands before `y` in the queue at `k`. */
  ghost predicate Ahead(b: Book, k: (nat, int), x: nat, y: nat) {
    k in b.queues && exists i, j :: 0 <= i < j < |b.queues[k]| && b.queues[k][i].ref == x && b.queues[k][j].ref == y
  }

  lemma AddedConsistent(b: Book, ref: nat, o: Order)
    requires Consistent(b) && ref !in b.live && Key(o) in b.queues
    ensures Consistent(Added(b, ref, o))
  {
    var b' := Added(b, ref, o);
    var q := b.queues[Key(o)];
    forall k | k in b'.queues ensures QueueTrue(b', k, b'.queues[k]) {
      assert QueueTrue(b, k, b.queues[k]);
    }
    forall r | r in b'.live ensures Key(b'.live[r]) in b'.queues && Queued(b'.queues[Key(b'.live[r])], r) {
      if r == ref {
        assert b'.queues[Key(o)][|q|].ref == ref;
      } else {
        var i :| 0 <= i < |b.queues[Key(b.live[r])]| && b.queues[Key(b.live[r])][i].ref == r;
        assert b'.queues[Key(b.live[r])][i].ref == r;
      }
    }
  }

  lemma PositionIn(b: Book, ref: nat) returns (i: nat)
    requires Consistent(b) && ref in b.live
    ensures Key(b.live[ref]) in b.queues && QueueTrue(b, Key(b.live[ref]), b.queues[Key(b.live[ref])])
    ensures i < |b.queues[Key(b.live[ref])]| && b.queues[Key(b.live[ref])][i] == Resting(ref, b.live[ref].qty)
    ensures forall j :: 0 <= j < |b.queues[Key(b.live[ref])]| && j != i ==> b.queues[Key(b.live[ref])][j].ref != ref
  {
    var q := b.queues[Key(b.live[ref])];
    assert QueueTrue(b, Key(b.live[ref]), q);
    i :| 0 <= i < |q| && q[i].ref == ref;
  }

  /** A queue without one of its entries. */
  lemma DropOne(q: seq<Resting>, i: nat, q': seq<Resting>)
    requires DistinctQueue(q) && i < |q| && q' == q[..i] + q[i + 1..]
    ensures DistinctQueue(q') && forall j :: 0 <= j < |q'| ==> q'[j] in q && q'[j].ref != q[i].ref
    ensures forall j :: 0 <= j < |q| && j != i ==> Queued(q', q[j].ref)
  {
    forall j | 0 <= j < |q| && j != i ensures Queued(q', q[j].ref) {
      assert q'[if j > i then j - 1 else j] == q[j];
    }
  }

  lemma RemovedQueue(b: Book, ref: nat, k: (nat, int))
    requires Consistent(b) && ref in b.live && Key(b.live[ref]) in b.queues && k in b.queues
    ensures QueueTrue(Removed(b, ref), k, Removed(b, ref).queues[k])
    ensures forall r :: Queued(b.queues[k], r) && r != ref ==> Queued(Removed(b, ref).queues[k], r)
  {
    var q, b' := b.queues[k], Removed(b, ref);
    assert QueueTrue(b, k, q);
    if k == Key(b.live[ref]) {
      var i := PositionIn(b, ref);
      DroppedAt(q, i);
      DropOne(q, i, b'.queues[k]);
      StillTrue(b, ref, k, q, b'.queues[k]);
    } else {
      NotElsewhere(b, k, ref);
    }
  }

  lemma StillTrue(b: Book, ref: nat, k: (nat, int), q: seq<Resting>, q': seq<Resting>)
    requires QueueTrue(b, k, q) && ref in b.live && Key(b.live[ref]) in b.queues && DistinctQueue(q')
    requires forall j :: 0 <= j < |q'| ==> q'[j] in q && q'[j].ref != ref
    ensures QueueTrue(Removed(b, ref), k, q')
  {
  }

  lemma RemovedConsistent(b: Book, ref: nat)
    requires Consistent(b) && ref in b.live
    ensures Key(b.live[ref]) in b.queues && Consistent(Removed(b, ref))
  {
    var b' := Removed(b, ref);
    forall k | k in b'.queues ensures QueueTrue(b', k, b'.queues[k]) {
      RemovedQueue(b, ref, k);
    }
    forall r | r in b'.live ensures Key(b'.live[r]) in b'.queues && Queued(b'.queues[Key(b'.live[r])], r) {
      RemovedQueue(b, ref, Key(b.live[r]));
    }
  }

  /** An order is queued nowhere but at its own price. */
  lemma NotElsewhere(b: Book, k: (nat, int), ref: nat)
    requires Consistent(b) && k in b.queues && ref in b.live && k != Key(b.live[ref])
    ensures forall j :: 0 <= j < |b.queues[k]| ==> b.queues[k][j].ref != ref
  {
    assert QueueTrue(b, k, b.queues[k]);
  }

  /** A queue with one entry resized. */
  lemma ResizeOne(q: seq<Resting>, i: nat, qty: int, q': seq<Resting>)
    requires DistinctQueue(q) && i < |q| && q' == q[i := Resting(q[i].ref, qty)]
    ensures DistinctQueue(q') && forall r :: Queued(q, r) ==> Queued(q', r)
  {
    forall r | Queued(q, r) ensures Queued(q', r) {
      var j :| 0 <= j < |q| && q[j].ref == r;
      assert q'[j].ref == r;
    }
  }

  lemma ReducedQueue(b: Book, ref: nat, delta: int, k: (nat, int))
    requires Consistent(b) && ref in b.live && Key(b.live[ref]) in b.queues && delta < b.live[ref].qty && k in b.queues
    ensures QueueTrue(Reduced(b, ref, delta), k, Reduced(b, ref, delta).queues[k])
    ensures forall r :: Queued(b.queues[k], r) ==> Queued(Reduced(b, ref, delta).queues[k], r)
  {
    var q, o, b' := b.queues[k], b.live[ref], Reduced(b, ref, delta);
    assert QueueTrue(b, k, q);
    if k == Key(o) {
      var i := PositionIn(b, ref);
      SizedAt(q, i, o.qty - delta);
      ResizeOne(q, i, o.qty - delta, b'.queues[k]);
    } else {
      NotElsewhere(b, k, ref);
    }
  }

  /** A reduction takes the order off exactly when nothing of it remains. */
  lemma ReducedLive(b: Book, ref: nat, delta: int)
    requires ref in b.live && Key(b.live[ref]) in b.queues
    ensures ref in Reduced(b, ref, delta).live <==> delta < b.live[ref].qty
    ensures delta >= b.live[ref].qty ==> Reduced(b, ref, delta) == Removed(b, ref)
  {
  }

  lemma ReducedConsistent(b: Book, ref: nat, delta: int)
    requires Consistent(b) && ref in b.live
    ensures Key(b.live[ref]) in b.queues && Consistent(Reduced(b, ref, delta))
  {
    if delta >= b.live[ref].qty {
      RemovedConsistent(b, ref);
    } else {
      var b' := Reduced(b, ref, delta);
      forall k | k in b'.queues ensures QueueTrue(b', k, b'.queues[k]) {
        ReducedQueue(b, ref, delta, k);
      }
      forall r | r in b'.live ensures Key(b'.live[r]) in b'.queues && Queued(b'.queues[Key(b'.live[r])], r) {
        ReducedQueue(b, ref, delta, Key(b.live[r]));
      }
    }
  }

  /** Size of the order index: its load limit and the slots it probes. */
  datatype IndexSize = IndexSize(maxEntries: nat, maxProbe: nat)

  /** What the index may answer about the reference of an add or the new reference of a replace,
      in terms of the book alone. It accepts usable references below the load limit (a replace
      only unknown ones). It refuses an add only at the load limit or with a whole probe window
      of orders live, a replace only at the load limit or with a window's worth of index slots
      written at some time; `used` is how many were. */
  ghost predicate RoomIsTrue(x: IndexSize, b: Book, t: Tick, room: bool, used: nat) {
    (t.kind.Add? && room ==> IsRef(t.ref) && |b.live| < x.maxEntries) &&
    (t.kind.Add? && !room ==> !IsRef(t.ref) || |b.live| >= x.maxEntries || |b.live| >= x.maxProbe) &&
    (t.kind.Replace? && room ==> IsRef(t.matchNum) && t.matchNum !in b.live && |b.live| < x.maxEntries) &&
    (t.kind.Replace? && !room ==>
      !IsRef(t.matchNum) || t.matchNum in b.live || |b.live| >= x.maxEntries || used >= x.maxProbe)
  }

  lemma StepConsistent(c: Limits, b: Book, t: Tick, room: bool)
    requires Consistent(b) && (t.kind.Replace? && room ==> t.matchNum !in b.live)
    ensures Consistent(Step(c, b, t, room))
  {
    if !Malformed(c, t) {
      match t.kind {
        case Add =>
          var o := Order(t.symbol, if t.buy then 0 else 1, t.price, t.qty);
          if t.ref !in b.live && Key(o) in b.queues {
            AddedConsistent(b, t.ref, o);
          }
        case Execute | Cancel =>
          if t.ref in b.live {
            ReducedConsistent(b, t.ref, t.qty);
          }
        case Delete =>
          if t.ref in b.live {
            RemovedConsistent(b, t.ref);
          }
        case Replace =>
          if t.ref in b.live && room {
            RemovedConsistent(b, t.ref);
            var o := b.live[t.ref].(price := t.price, qty := t.qty);
            if Key(o) in b.queues {
              AddedConsistent(Removed(b, t.ref), t.matchNum, o);
            }
          }
        case Trade =>
      }
    }
  }

  /** Messages that may insert a reference. */
  function Inserts(ticks: seq<Tick>): nat {
    if ticks == [] then 0
    else Inserts(ticks[..|ticks| - 1]) + if ticks[|ticks| - 1].kind.Add? ||
      ticks[|ticks| - 1].kind.Replace? then 1 else 0
  }

  /** Every message of a run was answered truthfully by an index with `used` slots written before it. */
  ghost predicate RoomsTrue(c: Limits, x: IndexSize, b: Book, ticks: seq<Tick>, rooms: seq<bool>, used: nat)
    requires |ticks| == |rooms|
  {
    ticks == [] ||
    (RoomsTrue(c, x, b, ticks[..|ticks| - 1], rooms[..|ticks| - 1], used) &&
     RoomIsTrue(x, Run(c, b, ticks[..|ticks| - 1], rooms[..|ticks| - 1]), ticks[|ticks| - 1], rooms[|ticks| - 1],
                used + Inserts(ticks[..|ticks| - 1])))
  }

  /** What the index says to a message: of an add whether it would take the reference, of a
      replace whether the pre-flight passes. */
  ghost predicate Answer(g: Geometry, b: Book, keys: seq<nat>, t: Tick)
    requires g.Valid() && |keys| == g.capacity
  {
    if t.kind.Add? then RoomIn(g, keys, |b.live|, t.ref)
    else t.matchNum !in b.live && PreflightIn(g, keys, |b.live|, t.matchNum)
  }

  /** What a message that takes the book from `b` to `b'` does to the index: a tombstone for an
      order that left, then a new order at the first free slot of its window. */
  ghost function KeysAfter(g: Geometry, keys: seq<nat>, t: Tick, b: Book, b': Book): (after: seq<nat>)
    requires g.Valid() && |keys| == g.capacity
    ensures |after| == |keys|
  {
    var left := if t.ref in b.live && t.ref !in b'.live then Erased(keys, t.ref) else keys;
    var ref := if t.kind.Replace? then t.matchNum else t.ref;
    if ref !in b.live && ref in b'.live then WithKey(g, left, ref) else left
  }

  /** The answers of an index over a run, and the slots it ends with. */
  datatype IndexLog = IndexLog(rooms: seq<bool>, keys: seq<nat>)

  ghost function IndexRun(c: Limits, g: Geometry, b: Book, keys: seq<nat>, ticks: seq<Tick>): (log: IndexLog)
    requires g.Valid() && |keys| == g.capacity
    ensures |log.rooms| == |ticks| && |log.keys| == g.capacity
  {
    if ticks == [] then IndexLog([], keys)
    else
      var t, log := ticks[|ticks| - 1], IndexRun(c, g, b, keys, ticks[..|ticks| - 1]);
      var was := Run(c, b, ticks[..|ticks| - 1], log.rooms);
      var room := Answer(g, was, log.keys, t);
      IndexLog(log.rooms + [room], KeysAfter(g, log.keys, t, was, Step(c, was, t, room)))
  }

  lemma IndexRunStep(c: Limits, g: Geometry, b: Book, keys: seq<nat>, ticks: seq<Tick>, i: nat, log: IndexLog,
      was: Book, room: bool, now: seq<nat>)
    requires g.Valid() && |keys| == g.capacity && i < |ticks| && log == IndexRun(c, g, b, keys, ticks[..i])
    requires was == Run(c, b, ticks[..i], log.rooms) && room == Answer(g, was, log.keys, ticks[i])
    requires now == KeysAfter(g, log.keys, ticks[i], was, Step(c, was, ticks[i], room))
    ensures IndexRun(c, g, b, keys, ticks[..i + 1]) == IndexLog(log.rooms + [room], now)
  {
    assert ticks[..i + 1][..i] == ticks[..i];
  }

  /** A message that leaves the live orders alone leaves the index alone. */
  lemma NoKeys(g: Geometry, keys: seq<nat>, t: Tick, b: Book)
    requires g.Valid() && |keys| == g.capacity
    ensures KeysAfter(g, keys, t, b, b) == keys
  {
  }

  /** A message writes at most one slot that was never written. */
  lemma StepTouches(c: Limits, g: Geometry, keys: seq<nat>, b: Book, t: Tick, room: bool)
    requires g.Valid() && |keys| == g.capacity
    ensures |Touched(KeysAfter(g, keys, t, b, Step(c, b, t, room)))| <=
            |Touched(keys)| + if t.kind.Add? || t.kind.Replace? then 1 else 0
  {
    var b' := Step(c, b, t, room);
    var left := if t.ref in b.live && t.ref !in b'.live then Erased(keys, t.ref) else keys;
    TouchesFew(g, keys, t.ref);
    TouchesFew(g, left, if t.kind.Replace? then t.matchNum else t.ref);
  }

  lemma KeysOnReplace(g: Geometry, keys: seq<nat>, t: Tick, b: Book, b': Book)
    requires g.Valid() && |keys| == g.capacity && t.kind.Replace? && t.matchNum !in b.live
    requires t.ref in b.live && t.ref !in b'.live
    ensures KeysAfter(g, keys, t, b, b') ==
            if t.matchNum in b'.live then WithKey(g, Erased(keys, t.ref), t.matchNum) else Erased(keys, t.ref)
  {
  }

  /** A message that adds nothing. */
  lemma KeysOnLeave(g: Geometry, keys: seq<nat>, t: Tick, b: Book, b': Book)
    requires g.Valid() && |keys| == g.capacity && !t.kind.Replace? && (t.ref in b'.live ==> t.ref in b.live)
    ensures KeysAfter(g, keys, t, b, b') ==
            if t.ref in b.live && t.ref !in b'.live then Erased(keys, t.ref) else keys
  {
  }

  lemma KeysOnAdd(g: Geometry, keys: seq<nat>, t: Tick, b: Book, o: Order, ok: bool)
    requires g.Valid() && |keys| == g.capacity && t.kind.Add? && t.ref !in b.live && Key(o) in b.queues
    ensures KeysAfter(g, keys, t, b, if ok then Added(b, t.ref, o) else b) ==
            if ok then WithKey(g, keys, t.ref) else keys
  {
  }

  /** A book whose index never runs short: it refuses reserved references and, for a replace,
      known ones. */
  ghost predicate AlwaysRoom(b: Book, t: Tick) {
    if t.kind.Add? then IsRef(t.ref) else IsRef(t.matchNum) && t.matchNum !in b.live
  }

  ghost function PlainRun(c: Limits, b: Book, ticks: seq<Tick>): Book {
    if ticks == [] then b
    else
      var before := PlainRun(c, b, ticks[..|ticks| - 1]);
      Step(c, before, ticks[|ticks| - 1], AlwaysRoom(before, ticks[|ticks| - 1]))
  }

  /** Up to each message the index is short of its load limit and of a probe window. */
  ghost predicate Spacious(c: Limits, x: IndexSize, b: Book, ticks: seq<Tick>, used: nat) {
    forall n {:trigger ticks[..n]} :: 0 <= n < |ticks| ==>
      |PlainRun(c, b, ticks[..n]).live| < x.maxEntries && |PlainRun(c, b, ticks[..n]).live| < x.maxProbe &&
      (ticks[n].kind.Replace? ==> used + Inserts(ticks[..n]) < x.maxProbe)
  }

  /** While the index is spacious its hash does not show: the book is that of the unlimited index. */
  lemma {:induction false} SpaciousRun(c: Limits, x: IndexSize, b: Book, ticks: seq<Tick>, rooms: seq<bool>, used: nat)
    requires |ticks| == |rooms| && RoomsTrue(c, x, b, ticks, rooms, used) && Spacious(c, x, b, ticks, used)
    ensures Run(c, b, ticks, rooms) == PlainRun(c, b, ticks)
  {
    if ticks != [] {
      var n := |ticks| - 1;
      var before, t, room := PlainRun(c, b, ticks[..n]), ticks[n], rooms[n];
      forall m | 0 <= m < n ensures ticks[..n][..m] == ticks[..m] && ticks[..n][m] == ticks[m] {
      }
      SpaciousRun(c, x, b, ticks[..n], rooms[..n], used);
      SpaciousAnswer(x, before, t, room, used + Inserts(ticks[..n]));
    }
  }

  /** A bound on the slots written serves as well as their number. */
  lemma MoreRoom(x: IndexSize, b: Book, t: Tick, room: bool, used: nat, more: nat)
    requires RoomIsTrue(x, b, t, room, used) && used <= more
    ensures RoomIsTrue(x, b, t, room, more)
  {
  }

  /** Where a run stands after `i` messages: the book, the answers and the slots of the index;
      kept folded. */
  ghost predicate Fed(c: Limits, x: IndexSize, g: Geometry, b: Book, keys: seq<nat>, ticks: seq<Tick>, i: nat,
      rooms: seq<bool>, now: Book, held: seq<nat>) {
    i <= |ticks| && |rooms| == i && g.Valid() && |keys| == |held| == g.capacity &&
    forall n :: Unfold(n) ==>
      now == Run(c, b, ticks[..i], rooms) && IndexLog(rooms, held) == IndexRun(c, g, b, keys, ticks[..i]) &&
      RoomsTrue(c, x, b, ticks[..i], rooms, |Touched(keys)|) &&
      |Touched(held)| <= |Touched(keys)| + Inserts(ticks[..i])
  }

  lemma FedStarts(c: Limits, x: IndexSize, g: Geometry, b: Book, keys: seq<nat>, ticks: seq<Tick>)
    requires g.Valid() && |keys| == g.capacity
    ensures Fed(c, x, g, b, keys, ticks, 0, [], b, keys)
  {
    assert ticks[..0] == [];
  }

  /** One more message of a run. */
  lemma FedStep(c: Limits, x: IndexSize, g: Geometry, b: Book, keys: seq<nat>, ticks: seq<Tick>, i: nat,
      rooms: seq<bool>, room: bool, was: Book, had: seq<nat>, held: seq<nat>) returns (more: seq<bool>)
    requires i < |ticks| && Fed(c, x, g, b, keys, ticks, i, rooms, was, had)
    requires RoomIsTrue(x, was, ticks[i], room, |Touched(had)|) && room == Answer(g, was, had, ticks[i])
    requires held == KeysAfter(g, had, ticks[i], was, Step(c, was, ticks[i], room))
    ensures Fed(c, x, g, b, keys, ticks, i + 1, more, Step(c, was, ticks[i], room), held)
  {
    more := rooms + [room];
    var t := ticks[i];
    assert was == Run(c, b, ticks[..i], rooms) && IndexLog(rooms, had) == IndexRun(c, g, b, keys, ticks[..i]) &&
           RoomsTrue(c, x, b, ticks[..i], rooms, |Touched(keys)|) &&
           |Touched(had)| <= |Touched(keys)| + Inserts(ticks[..i]) by { assert Unfold(0); }
    FeedStep(c, x, b, ticks, rooms, i, room, |Touched(keys)|, was, |Touched(had)|);
    IndexRunStep(c, g, b, keys, ticks, i, IndexLog(rooms, had), was, room, held);
    StepTouches(c, g, had, was, t, room);
    SealFed(c, x, g, b, keys, ticks, i + 1, more, Step(c, was, t, room), held);
  }

  lemma SealFed(c: Limits, x: IndexSize, g: Geometry, b: Book, keys: seq<nat>, ticks: seq<Tick>, i: nat,
      rooms: seq<bool>, now: Book, held: seq<nat>)
    requires i <= |ticks| && |rooms| == i && g.Valid() && |keys| == |held| == g.capacity
    requires now == Run(c, b, ticks[..i], rooms) && IndexLog(rooms, held) == IndexRun(c, g, b, keys, ticks[..i]) &&
             RoomsTrue(c, x, b, ticks[..i], rooms, |Touched(keys)|) &&
             |Touched(held)| <= |Touched(keys)| + Inserts(ticks[..i])
    ensures Fed(c, x, g, b, keys, ticks, i, rooms, now, held)
  {
  }

  lemma FedEnds(c: Limits, x: IndexSize, g: Geometry, b: Book, keys: seq<nat>, ticks: seq<Tick>, rooms: seq<bool>,
      now: Book, held: seq<nat>)
    requires Fed(c, x, g, b, keys, ticks, |ticks|, rooms, now, held)
    ensures now == Run(c, b, ticks, rooms) && IndexLog(rooms, held) == IndexRun(c, g, b, keys, ticks) &&
            RoomsTrue(c, x, b, ticks, rooms, |Touched(keys)|) && |Touched(held)| <= |Touched(keys)| + Inserts(ticks)
  {
    assert Unfold(0);
    assert ticks[..|ticks|] == ticks;
  }

  lemma FeedStep(c: Limits, x: IndexSize, b: Book, ticks: seq<Tick>, rooms: seq<bool>, i: nat, room: bool, used: nat,
      was: Book, had: nat)
    requires i < |ticks| && |rooms| == i && was == Run(c, b, ticks[..i], rooms) &&
             RoomsTrue(c, x, b, ticks[..i], rooms, used)
    requires RoomIsTrue(x, was, ticks[i], room, had) && had <= used + Inserts(ticks[..i])
    ensures Run(c, b, ticks[..i + 1], rooms + [room]) == Step(c, was, ticks[i], room) &&
            RoomsTrue(c, x, b, ticks[..i + 1], rooms + [room], used)
    ensures Inserts(ticks[..i + 1]) == Inserts(ticks[..i]) + if ticks[i].kind.Add? ||
            ticks[i].kind.Replace? then 1 else 0
  {
    MoreRoom(x, was, ticks[i], room, had, used + Inserts(ticks[..i]));
    assert ticks[..i + 1][..i] == ticks[..i] && (rooms + [room])[..i] == rooms;
  }

  lemma SpaciousAnswer(x: IndexSize, b: Book, t: Tick, room: bool, used: nat)
    requires RoomIsTrue(x, b, t, room, used) && |b.live| < x.maxEntries && |b.live| < x.maxProbe
    requires t.kind.Replace? ==> used < x.maxProbe
    ensures t.kind.Add? || t.kind.Replace? ==> room == AlwaysRoom(b, t)
  {
  }

  /** Over every feed the live map and the queues stay consistent. */
  lemma {:induction false} RunConsistent(c: Limits, x: IndexSize, b: Book, ticks: seq<Tick>, rooms: seq<bool>,
      used: nat)
    requires |ticks| == |rooms| && Consistent(b) && RoomsTrue(c, x, b, ticks, rooms, used)
    ensures Consistent(Run(c, b, ticks, rooms))
  {
    if ticks != [] {
      var n := |ticks| - 1;
      RunConsistent(c, x, b, ticks[..n], rooms[..n], used);
      StepConsistent(c, Run(c, b, ticks[..n], rooms[..n]), ticks[n], rooms[n]);
    }
  }

  lemma AddedAhead(b: Book, ref: nat, o: Order, k: (nat, int), x: nat, y: nat)
    requires Ahead(b, k, x, y) && Key(o) in b.queues
    ensures Ahead(Added(b, ref, o), k, x, y)
  {
    var i, j :| 0 <= i < j < |b.queues[k]| && b.queues[k][i].ref == x && b.queues[k][j].ref == y;
    var q := Added(b, ref, o).queues[k];
    assert q[i].ref == x && q[j].ref == y;
  }

  lemma RemovedAhead(b: Book, ref: nat, k: (nat, int), x: nat, y: nat)
    requires Consistent(b) && ref in b.live && Key(b.live[ref]) in b.queues && Ahead(b, k, x, y) && x != ref && y != ref
    ensures Ahead(Removed(b, ref), k, x, y)
  {
    var i, j :| 0 <= i < j < |b.queues[k]| && b.queues[k][i].ref == x && b.queues[k][j].ref == y;
    if k == Key(b.live[ref]) {
      var at := PositionIn(b, ref);
      DroppedAt(b.queues[k], at);
      StillBefore(b.queues[k], at, i, j, Removed(b, ref).queues[k]);
    }
    var q := Removed(b, ref).queues[k];
    assert k in Removed(b, ref).queues && exists i, j :: 0 <= i < j < |q| && q[i].ref == x && q[j].ref == y;
  }

  /** Dropping a third entry keeps two others in order. */
  lemma StillBefore(q: seq<Resting>, at: nat, i: nat, j: nat, q': seq<Resting>)
    requires at < |q| && i < j < |q| && i != at && j != at && q' == q[..at] + q[at + 1..]
    ensures exists i', j' :: 0 <= i' < j' < |q'| && q'[i'].ref == q[i].ref && q'[j'].ref == q[j].ref
  {
    var i', j' := if i > at then i - 1 else i, if j > at then j - 1 else j;
    assert q'[i'].ref == q[i].ref && q'[j'].ref == q[j].ref;
  }

  lemma ReducedAhead(b: Book, ref: nat, delta: int, k: (nat, int), x: nat, y: nat)
    requires Consistent(b) && ref in b.live && Key(b.live[ref]) in b.queues && Ahead(b, k, x, y)
    requires x in Reduced(b, ref, delta).live && y in Reduced(b, ref, delta).live
    ensures Ahead(Reduced(b, ref, delta), k, x, y)
  {
    if delta >= b.live[ref].qty {
      RemovedAhead(b, ref, k, x, y);
    } else {
      var i, j :| 0 <= i < j < |b.queues[k]| && b.queues[k][i].ref == x && b.queues[k][j].ref == y;
      ReducedRefs(b, ref, delta, k);
      var q := Reduced(b, ref, delta).queues[k];
      assert q[i].ref == x && q[j].ref == y;
    }
  }

  /** A reduction leaves the references of every queue in place. */
  lemma ReducedRefs(b: Book, ref: nat, delta: int, k: (nat, int))
    requires Consistent(b) && ref in b.live && Key(b.live[ref]) in b.queues && delta < b.live[ref].qty && k in b.queues
    ensures k in Reduced(b, ref, delta).queues && |Reduced(b, ref, delta).queues[k]| == |b.queues[k]|
    ensures forall i :: 0 <= i < |b.queues[k]| ==> Reduced(b, ref, delta).queues[k][i].ref == b.queues[k][i].ref
  {
    if k == Key(b.live[ref]) {
      var at := PositionIn(b, ref);
      SizedAt(b.queues[k], at, b.live[ref].qty - delta);
    }
  }

  /** One message never lets an order overtake another that stays live. */
  lemma StepKeepsAhead(c: Limits, b: Book, t: Tick, room: bool, k: (nat, int), x: nat, y: nat)
    requires Consistent(b) && (t.kind.Replace? && room ==> t.matchNum !in b.live) && Ahead(b, k, x, y)
    requires x in Step(c, b, t, room).live && y in Step(c, b, t, room).live
    ensures Ahead(Step(c, b, t, room), k, x, y)
  {
    if !Malformed(c, t) {
      match t.kind {
        case Add =>
          var o := Order(t.symbol, if t.buy then 0 else 1, t.price, t.qty);
          if Key(o) in b.queues {
            AddedAhead(b, t.ref, o, k, x, y);
          }
        case Execute | Cancel =>
          if t.ref in b.live && Key(b.live[t.ref]) in b.queues {
            ReducedAhead(b, t.ref, t.qty, k, x, y);
          }
        case Delete =>
          if t.ref in b.live && Key(b.live[t.ref]) in b.queues {
            RemovedAhead(b, t.ref, k, x, y);
          }
        case Replace =>
          if t.ref in b.live && Key(b.live[t.ref]) in b.queues && room {
            ReplacedAhead(c, b, t, k, x, y);
          }
        case Trade =>
      }
    }
  }

  lemma ReplacedAhead(c: Limits, b: Book, t: Tick, k: (nat, int), x: nat, y: nat)
    requires Consistent(b) && t.ref in b.live && Key(b.live[t.ref]) in b.queues && Ahead(b, k, x, y)
    requires t.matchNum !in b.live && t.ref != t.matchNum
    requires x in Replaced(c, b, t.ref, t.matchNum, t.price, t.qty, true).live
    requires y in Replaced(c, b, t.ref, t.matchNum, t.price, t.qty, true).live
    ensures Ahead(Replaced(c, b, t.ref, t.matchNum, t.price, t.qty, true), k, x, y)
  {
    assert QueueTrue(b, k, b.queues[k]);
    RemovedAhead(b, t.ref, k, x, y);
    var o := b.live[t.ref].(price := t.price, qty := t.qty);
    if Key(o) in b.queues {
      AddedAhead(Removed(b, t.ref), t.matchNum, o, k, x, y);
    }
  }

  /** The book after the first `n` messages. */
  ghost function BookAt(c: Limits, b: Book, ticks: seq<Tick>, rooms: seq<bool>, n: nat): Book
    requires n <= |ticks| == |rooms|
  {
    Run(c, b, ticks[..n], rooms[..n])
  }

  lemma NextBook(c: Limits, b: Book, ticks: seq<Tick>, rooms: seq<bool>, n: nat)
    requires n < |ticks| == |rooms|
    ensures BookAt(c, b, ticks, rooms, n + 1) == Step(c, BookAt(c, b, ticks, rooms, n), ticks[n], rooms[n])
  {
    assert ticks[..n + 1][..n] == ticks[..n] && rooms[..n + 1][..n] == rooms[..n];
  }

  lemma {:induction false} PrefixTrue(c: Limits, i: IndexSize, b: Book, ticks: seq<Tick>, rooms: seq<bool>, used: nat,
      n: nat)
    requires n <= |ticks| == |rooms| && RoomsTrue(c, i, b, ticks, rooms, used)
    ensures RoomsTrue(c, i, b, ticks[..n], rooms[..n], used)
    decreases |ticks| - n
  {
    if n == |ticks| {
      assert ticks[..n] == ticks && rooms[..n] == rooms;
    } else {
      PrefixTrue(c, i, b, ticks, rooms, used, n + 1);
      assert ticks[..n + 1][..n] == ticks[..n] && rooms[..n + 1][..n] == rooms[..n];
    }
  }

  /** At every position of a run the book is consistent and the next answer truthful. */
  lemma TrueAt(c: Limits, i: IndexSize, b: Book, ticks: seq<Tick>, rooms: seq<bool>, used: nat, n: nat)
    requires n < |ticks| == |rooms| && Consistent(b) && RoomsTrue(c, i, b, ticks, rooms, used)
    ensures Consistent(BookAt(c, b, ticks, rooms, n))
    ensures ticks[n].kind.Replace? && rooms[n] ==> ticks[n].matchNum !in BookAt(c, b, ticks, rooms, n).live
  {
    PrefixTrue(c, i, b, ticks, rooms, used, n);
    PrefixTrue(c, i, b, ticks, rooms, used, n + 1);
    assert ticks[..n + 1][..n] == ticks[..n] && rooms[..n + 1][..n] == rooms[..n];
    RunConsistent(c, i, b, ticks[..n], rooms[..n], used);
  }

  /** Both orders are live after `m` messages, after `n`, and after any number in between. */
  ghost predicate StayLive(c: Limits, b: Book, ticks: seq<Tick>, rooms: seq<bool>, m: nat, n: nat, x: nat, y: nat)
    requires m <= n <= |ticks| == |rooms|
  {
    forall i {:trigger BookAt(c, b, ticks, rooms, i)} ::
      m <= i <= n ==> x in BookAt(c, b, ticks, rooms, i).live && y in BookAt(c, b, ticks, rooms, i).live
  }

  /** No two orders that stay live change places, from wherever in the run one is ahead. */
  ghost predicate OrderKept(c: Limits, b: Book, ticks: seq<Tick>, rooms: seq<bool>)
    requires |ticks| == |rooms|
  {
    forall m: nat, n: nat, k, x, y
      {:trigger Ahead(BookAt(c, b, ticks, rooms, m), k, x, y), BookAt(c, b, ticks, rooms, n)} ::
      m <= n <= |ticks| && Ahead(BookAt(c, b, ticks, rooms, m), k, x, y) && StayLive(c, b, ticks, rooms, m, n, x, y) ==>
        Ahead(BookAt(c, b, ticks, rooms, n), k, x, y)
  }

  /** Time priority over whole feeds: while both stay live, the order in a queue never turns round. */
  lemma {:induction false} RunKeepsAhead(c: Limits, i: IndexSize, b: Book, ticks: seq<Tick>, rooms: seq<bool>,
      used: nat, m: nat, n: nat, k: (nat, int), x: nat, y: nat)
    requires m <= n <= |ticks| == |rooms| && Consistent(b) && RoomsTrue(c, i, b, ticks, rooms, used)
    requires Ahead(BookAt(c, b, ticks, rooms, m), k, x, y) && StayLive(c, b, ticks, rooms, m, n, x, y)
    ensures Ahead(BookAt(c, b, ticks, rooms, n), k, x, y)
    decreases n
  {
    if m < n {
      var was, now := BookAt(c, b, ticks, rooms, n - 1), BookAt(c, b, ticks, rooms, n);
      RunKeepsAhead(c, i, b, ticks, rooms, used, m, n - 1, k, x, y);
      AheadNext(c, i, b, ticks, rooms, used, n - 1, k, x, y, was, now);
    }
  }

  lemma AheadNext(c: Limits, i: IndexSize, b: Book, ticks: seq<Tick>, rooms: seq<bool>, used: nat, n: nat,
      k: (nat, int), x: nat, y: nat, was: Book, now: Book)
    requires n < |ticks| == |rooms| && Consistent(b) && RoomsTrue(c, i, b, ticks, rooms, used)
    requires was == BookAt(c, b, ticks, rooms, n) && now == BookAt(c, b, ticks, rooms, n + 1)
    requires Ahead(was, k, x, y) && x in now.live && y in now.live
    ensures Ahead(now, k, x, y)
  {
    TrueAt(c, i, b, ticks, rooms, used, n);
    NextBook(c, b, ticks, rooms, n);
    StepKeepsAhead(c, was, ticks[n], rooms[n], k, x, y);
  }

  lemma RunKeepsOrder(c: Limits, i: IndexSize, b: Book, ticks: seq<Tick>, rooms: seq<bool>, used: nat)
    requires |ticks| == |rooms| && Consistent(b) && RoomsTrue(c, i, b, ticks, rooms, used)
    ensures OrderKept(c, b, ticks, rooms)
  {
    forall m: nat, n: nat, k, x, y
      {:trigger Ahead(BookAt(c, b, ticks, rooms, m), k, x, y), BookAt(c, b, ticks, rooms, n)} |
      m <= n <= |ticks| && Ahead(BookAt(c, b, ticks, rooms, m), k, x, y) && StayLive(c, b, ticks, rooms, m, n, x, y)
      ensures Ahead(BookAt(c, b, ticks, rooms, n), k, x, y)
    {
      RunKeepsAhead(c, i, b, ticks, rooms, used, m, n, k, x, y);
    }
  }

  // ----- What each message does, in plain terms -----

  /** The queues hold the same references in the same order. */
  ghost predicate SameRefs(b: Book, b': Book) {
    b'.queues.Keys == b.queues.Keys &&
    forall k {:trigger b'.queues[k]} :: k in b.queues ==>
      |b'.queues[k]| == |b.queues[k]| &&
      forall i {:trigger b'.queues[k][i]} :: 0 <= i < |b.queues[k]| ==> b'.queues[k][i].ref == b.queues[k][i].ref
  }

  /** One entry left the queue at `key`; the others closed up behind it. */
  ghost predicate OneLess(b: Book, b': Book, key: (nat, int), ref: nat) {
    key in b.queues && exists i {:trigger b.queues[key][i]} ::
      0 <= i < |b.queues[key]| && b.queues[key][i].ref == ref &&
      b'.queues == b.queues[key := b.queues[key][..i] + b.queues[key][i + 1..]]
  }

  /** One entry joined the queue at `key`, behind all others. */
  ghost predicate OneMore(b: Book, b': Book, key: (nat, int), ref: nat, qty: int) {
    key in b.queues && b'.queues == b.queues[key := b.queues[key] + [Resting(ref, qty)]]
  }

  /** Execution and cancel: a known order is reduced in its place, or leaves when nothing remains. */
  ghost predicate Shrinks(c: Limits, t: Tick, b: Book, b': Book) {
    if t.symbol < c.symbols && t.ref != 0 && 1 <= t.qty <= c.maxQty && t.ref in b.live then
      var o := b.live[t.ref];
      if t.qty < o.qty then b'.live == b.live[t.ref := o.(qty := o.qty - t.qty)] && SameRefs(b, b')
      else b'.live == b.live - {t.ref} && OneLess(b, b', (2 * o.symbol + o.side, o.price), t.ref)
    else b' == b
  }

  /** Delete: a known order leaves, whatever its quantity. */
  ghost predicate Leaves(c: Limits, t: Tick, b: Book, b': Book) {
    if t.symbol < c.symbols && t.ref != 0 && t.ref in b.live then
      var o := b.live[t.ref];
      b'.live == b.live - {t.ref} && OneLess(b, b', (2 * o.symbol + o.side, o.price), t.ref)
    else b' == b
  }

  /** Add: a new order on the side it names, if the index and the price have room for it. */
  ghost predicate Joins(c: Limits, t: Tick, room: bool, b: Book, b': Book) {
    var side := if t.buy then 0 else 1;
    var key := (2 * t.symbol + side, t.price);
    if t.symbol < c.symbols && t.ref != 0 && 1 <= t.qty <= c.maxQty && 1 <= t.price <= c.maxPrice &&
      t.ref !in b.live && room && key in b.queues && |b.queues[key]| < c.slots &&
      (b.queues[key] != [] || |PricesOf(b, key.0)| < c.levels)
    then b'.live == b.live[t.ref := Order(t.symbol, side, t.price, t.qty)] && OneMore(b, b', key, t.ref, t.qty)
    else b' == b
  }

  /** Replace: the original leaves; an order of its symbol and side with the new reference, price
      and quantity joins the back of its queue, if the price has room. */
  ghost predicate Moves(c: Limits, t: Tick, room: bool, b: Book, b': Book) {
    if t.symbol < c.symbols && t.ref != 0 && t.matchNum != 0 && t.ref != t.matchNum && 1 <= t.qty <= c.maxQty &&
      1 <= t.price <= c.maxPrice && t.ref in b.live && room
    then
      var o := b.live[t.ref];
      var from, to := (2 * o.symbol + o.side, o.price), (2 * o.symbol + o.side, t.price);
      exists b1: Book :: b1.live == b.live - {t.ref} && OneLess(b, b1, from, t.ref) &&
        if to in b1.queues && |b1.queues[to]| < c.slots &&
          (b1.queues[to] != [] || |PricesOf(b1, to.0)| < c.levels)
        then
          b'.live == b1.live[t.matchNum := Order(o.symbol, o.side, t.price, t.qty)] &&
          OneMore(b1, b', to, t.matchNum, t.qty)
        else b' == b1
    else b' == b
  }

  /** What a message of each kind does. */
  ghost predicate Obeys(c: Limits, t: Tick, room: bool, b: Book, b': Book) {
    (t.kind.Execute? || t.kind.Cancel? ==> Shrinks(c, t, b, b')) && (t.kind.Delete? ==> Leaves(c, t, b, b')) &&
    (t.kind.Add? ==> Joins(c, t, room, b, b')) && (t.kind.Replace? ==> Moves(c, t, room, b, b')) &&
    (t.kind.Trade? || t.kind.Unsupported? ==> b' == b)
  }

  lemma RemovedLess(b: Book, ref: nat)
    requires Consistent(b) && ref in b.live
    ensures Key(b.live[ref]) in b.queues && OneLess(b, Removed(b, ref), Key(b.live[ref]), ref)
  {
    var i := PositionIn(b, ref);
    var q := b.queues[Key(b.live[ref])];
    DroppedAt(q, i);
    assert q[i].ref == ref;
  }

  lemma ReducedSame(b: Book, ref: nat, delta: int)
    requires Consistent(b) && ref in b.live && Key(b.live[ref]) in b.queues && delta < b.live[ref].qty
    ensures SameRefs(b, Reduced(b, ref, delta))
  {
    forall k {:trigger Reduced(b, ref, delta).queues[k]} | k in b.queues
      ensures |Reduced(b, ref, delta).queues[k]| == |b.queues[k]|
      ensures forall i :: 0 <= i < |b.queues[k]| ==> Reduced(b, ref, delta).queues[k][i].ref == b.queues[k][i].ref
    {
      ReducedRefs(b, ref, delta, k);
    }
  }

  lemma StepShrinks(c: Limits, b: Book, t: Tick, room: bool)
    requires Consistent(b) && (t.kind.Execute? || t.kind.Cancel?)
    ensures Shrinks(c, t, b, Step(c, b, t, room))
  {
    if t.ref in b.live {
      RemovedLess(b, t.ref);
      if t.qty < b.live[t.ref].qty {
        ReducedSame(b, t.ref, t.qty);
      }
    }
  }

  lemma StepLeaves(c: Limits, b: Book, t: Tick, room: bool)
    requires Consistent(b) && t.kind.Delete?
    ensures Leaves(c, t, b, Step(c, b, t, room))
  {
    if t.ref in b.live {
      RemovedLess(b, t.ref);
    }
  }

  lemma StepJoins(c: Limits, b: Book, t: Tick, room: bool)
    requires t.kind.Add?
    ensures Joins(c, t, room, b, Step(c, b, t, room))
  {
  }

  lemma StepMoves(c: Limits, b: Book, t: Tick, room: bool)
    requires Consistent(b) && t.kind.Replace?
    ensures Moves(c, t, room, b, Step(c, b, t, room))
  {
    if t.ref in b.live {
      RemovedLess(b, t.ref);
      var o, b1 := b.live[t.ref], Removed(b, t.ref);
      assert b1.live == b.live - {t.ref} && OneLess(b, b1, (2 * o.symbol + o.side, o.price), t.ref);
    }
  }

  lemma StepObeys(c: Limits, b: Book, t: Tick, room: bool)
    requires Consistent(b)
    ensures Obeys(c, t, room, b, Step(c, b, t, room))
  {
    match t.kind {
      case Execute | Cancel => StepShrinks(c, b, t, room);
      case Delete => StepLeaves(c, b, t, room);
      case Add => StepJoins(c, b, t, room);
      case Replace => StepMoves(c, b, t, room);
      case Trade | Unsupported =>
    }
  }

  /** The books of a run, one more than its messages, each message doing what its kind says. */
  ghost predicate Obedient(c: Limits, ticks: seq<Tick>, rooms: seq<bool>, books: seq<Book>) {
    |rooms| == |ticks| && |books| == |ticks| + 1 &&
    forall i {:trigger ticks[i]} :: 0 <= i < |ticks| ==> Obeys(c, ticks[i], rooms[i], books[i], books[i + 1])
  }

  lemma RunObeys(c: Limits, x: IndexSize, b: Book, ticks: seq<Tick>, rooms: seq<bool>, used: nat)
      returns (books: seq<Book>)
    requires |ticks| == |rooms| && Consistent(b) && RoomsTrue(c, x, b, ticks, rooms, used)
    ensures Obedient(c, ticks, rooms, books) && books[0] == b && books[|ticks|] == Run(c, b, ticks, rooms)
  {
    books := seq(|ticks| + 1, i requires 0 <= i <= |ticks| => BookAt(c, b, ticks, rooms, i));
    forall i {:trigger ticks[i]} | 0 <= i < |ticks| ensures Obeys(c, ticks[i], rooms[i], books[i], books[i + 1]) {
      TrueAt(c, x, b, ticks, rooms, used, i);
      NextBook(c, b, ticks, rooms, i);
      StepObeys(c, books[i], ticks[i], rooms[i]);
    }
    assert ticks[..|ticks|] == ticks && rooms[..|ticks|] == rooms;
  }

  // ----- When a replace loses the order -----

  /** Whether the new order finds a place, judged before the message: always at the same price;
      elsewhere when the queue is short of a level and either it is populated, or the depth is
      not exhausted, or the original leaves a level of its own behind. */
  ghost predicate ReplaceFits(c: Limits, b: Book, ref: nat, price: int)
    requires ref in b.live && Key(b.live[ref]) in b.queues && (Key(b.live[ref]).0, price) in b.queues
  {
    var (row, was) := Key(b.live[ref]);
    price == was ||
    (|b.queues[(row, price)]| < c.slots &&
     (b.queues[(row, price)] != [] || |PricesOf(b, row)| < c.levels || |b.queues[(row, was)]| == 1))
  }

  /** A pre-flighted replace always takes the original off. It leaves the new order on the book
      exactly when the target had room; otherwise nothing of either is left. */
  lemma ReplaceKeepsIff(c: Limits, b: Book, ref: nat, newRef: nat, price: int, qty: int)
    requires Consistent(b) && ref in b.live && newRef !in b.live && (Key(b.live[ref]).0, price) in b.queues
    requires Key(b.live[ref]) in b.queues && |b.queues[Key(b.live[ref])]| <= c.slots &&
             |PricesOf(b, Key(b.live[ref]).0)| <= c.levels
    ensures ref !in Replaced(c, b, ref, newRef, price, qty, true).live
    ensures newRef in Replaced(c, b, ref, newRef, price, qty, true).live <==> ReplaceFits(c, b, ref, price)
  {
    var (row, was) := Key(b.live[ref]);
    var i := PositionIn(b, ref);
    DroppedAt(b.queues[(row, was)], i);
    PricesAfter(b, ref);
  }

  /** Taking an order off removes its price exactly when it was alone there. */
  lemma PricesAfter(b: Book, ref: nat)
    requires Consistent(b) && ref in b.live
    ensures Key(b.live[ref]) in b.queues
    ensures |PricesOf(Removed(b, ref), Key(b.live[ref]).0)| ==
            |PricesOf(b, Key(b.live[ref]).0)| - if |b.queues[Key(b.live[ref])]| == 1 then 1 else 0
  {
    var key := Key(b.live[ref]);
    var row, q, b' := key.0, b.queues[key], Removed(b, ref);
    var i := PositionIn(b, ref);
    assert key.1 in PricesOf(b, row);
    forall p | p in PricesOf(b, row) ensures p == key.1 || p in PricesOf(b', row) {
      var r :| r in b.live && Key(b.live[r]).0 == row && b.live[r].price == p;
      assert r == ref || r in b'.live;
    }
    forall p | p in PricesOf(b', row) ensures p in PricesOf(b, row) {
      var r :| r in b'.live && Key(b'.live[r]).0 == row && b'.live[r].price == p;
      assert r in b.live;
    }
    if |q| == 1 {
      forall r | r in b'.live && Key(b'.live[r]).0 == row ensures b'.live[r].price != key.1 {
        assert Queued(b.queues[Key(b.live[r])], r);
      }
      assert PricesOf(b, row) == PricesOf(b', row) + {key.1};
    } else {
      var other := q[if i == 0 then 1 else 0].ref;
      assert other in b'.live && Key(b'.live[other]) == key;
      assert key.1 in PricesOf(b', row);
      assert PricesOf(b, row) == PricesOf(b', row);
    }
  }

  /** The target level is full, or it would be a new one beyond the depth. */
  ghost predicate NoPlace(c: Limits, b: Book, ref: nat, o: Order)
    requires ref in b.live && Key(b.live[ref]) in b.queues && Key(o) in b.queues
  {
    Key(o) != Key(b.live[ref]) &&
    (|b.queues[Key(o)]| >= c.slots ||
     (b.queues[Key(o)] == [] && |PricesOf(b, Key(o).0)| >= c.levels && |b.queues[Key(b.live[ref])]| > 1))
  }

  /** Under any limits, moving an order to a price that has no place for it deletes it. */
  lemma ReplaceLosesAnOrder(c: Limits, b: Book, ref: nat, newRef: nat, o: Order)
    requires Consistent(b) && ref in b.live && newRef !in b.live && Key(b.live[ref]) in b.queues && Key(o) in b.queues
    requires o.symbol == b.live[ref].symbol && o.side == b.live[ref].side && NoPlace(c, b, ref, o)
    ensures Replaced(c, b, ref, newRef, o.price, o.qty, true) == Removed(b, ref)
    ensures ref !in Removed(b, ref).live && newRef !in Removed(b, ref).live
  {
    PricesAfter(b, ref);
    ReplacedIs(c, b, ref, newRef, o, Removed(b, ref), false);
  }

  /** An order and a crowded price beside it: orders `o` and `mate` on one side, at two prices. */
  ghost predicate Neighbours(c: Limits, o: Order, mate: Order) {
    o.symbol == mate.symbol && o.side == mate.side <= 1 && o.price != mate.price && 0 < c.slots && 2 <= c.levels &&
    o.symbol < c.symbols &&
    ValidQty(c, o.qty) && ValidQty(c, mate.qty) && ValidPrice(c, o.price) && ValidPrice(c, mate.price)
  }

  function AddOf(o: Order, ref: nat): Tick {
    Tick(Add, o.symbol, o.side == 0, o.price, o.qty, ref, 0)
  }

  /** One order, then `n` at the other price, with consecutive references. */
  function Crowd(o: Order, mate: Order, ref: nat, n: nat): (ticks: seq<Tick>)
    ensures |ticks| == n + 1
  {
    if n == 0 then [AddOf(o, ref)] else Crowd(o, mate, ref, n - 1) + [AddOf(mate, ref + n)]
  }

  lemma {:induction false} CrowdInserts(o: Order, mate: Order, ref: nat, n: nat)
    ensures Inserts(Crowd(o, mate, ref, n)) == n + 1
  {
    var ticks := Crowd(o, mate, ref, n);
    if n == 0 {
      assert ticks[..0] == [];
    } else {
      CrowdInserts(o, mate, ref, n - 1);
      assert ticks[..n] == Crowd(o, mate, ref, n - 1);
    }
  }

  /** The first order is live, and `n` orders stand at the other price; kept folded. */
  ghost predicate Crowded(b: Book, o: Order, mate: Order, ref: nat, n: nat) {
    forall u :: Unfold(u) ==> Beside(b, o, mate, ref, n)
  }

  ghost predicate Beside(b: Book, o: Order, mate: Order, ref: nat, n: nat) {
    Consistent(b) && ref in b.live && b.live[ref] == o && Key(o) in b.queues && Key(mate) in b.queues &&
    |b.queues[Key(mate)]| == n && |b.live| == n + 1 &&
    (n == 0 ==> b.live.Keys == {ref}) && forall r :: r in b.live ==> r <= ref + n
  }

  /** An empty book with a queue for either order; kept folded. */
  ghost predicate Vacant(b: Book, o: Order, mate: Order) {
    forall u :: Unfold(u) ==>
      Consistent(b) && b.live == map[] && Key(o) in b.queues && Key(mate) in b.queues &&
      b.queues[Key(o)] == b.queues[Key(mate)] == []
  }

  lemma CrowdStarts(c: Limits, b: Book, o: Order, mate: Order, ref: nat, last: Book)
    requires Neighbours(c, o, mate) && ref != 0 && Vacant(b, o, mate) && last == Step(c, b, AddOf(o, ref), true)
    ensures Crowded(last, o, mate, ref, 0)
  {
    assert Unfold(0);
    assert PricesOf(b, Key(o).0) == {};
    AddStep(c, b, AddOf(o, ref), o);
    AddedConsistent(b, ref, o);
  }

  lemma OnePrice(b: Book, ref: nat, o: Order, row: nat)
    requires b.live.Keys == {ref} && b.live[ref] == o
    ensures |PricesOf(b, row)| <= 1
  {
    Smaller(PricesOf(b, row), {o.price});
  }

  lemma CrowdGrows(c: Limits, b: Book, o: Order, mate: Order, ref: nat, n: nat, b': Book)
    requires Neighbours(c, o, mate) && Crowded(b, o, mate, ref, n) && n < c.slots &&
             b' == Step(c, b, AddOf(mate, ref + n + 1), true)
    ensures Crowded(b', o, mate, ref, n + 1)
  {
    assert Beside(b, o, mate, ref, n) by { assert Unfold(0); }
    if n == 0 {
      OnePrice(b, ref, o, Key(mate).0);
    }
    assert Fits(c, b, Key(mate));
    AddStep(c, b, AddOf(mate, ref + n + 1), mate);
    OneMoreBeside(b, o, mate, ref, n, ref + n + 1, b');
  }

  lemma OneMoreBeside(b: Book, o: Order, mate: Order, ref: nat, n: nat, next: nat, b': Book)
    requires Beside(b, o, mate, ref, n) && next == ref + n + 1 && Key(o) != Key(mate) && b' == Added(b, next, mate)
    ensures Crowded(b', o, mate, ref, n + 1)
  {
    AddedConsistent(b, next, mate);
    assert Beside(b', o, mate, ref, n + 1);
  }

  /** The answer to the last message of a truthful run. */
  lemma LastTrue(c: Limits, x: IndexSize, b: Book, ticks: seq<Tick>, t: Tick, rooms: seq<bool>, used: nat)
    requires |rooms| == |ticks| + 1 && RoomsTrue(c, x, b, ticks + [t], rooms, used)
    ensures RoomsTrue(c, x, b, ticks, rooms[..|ticks|], used)
    ensures RoomIsTrue(x, Run(c, b, ticks, rooms[..|ticks|]), t, rooms[|ticks|], used + Inserts(ticks))
    ensures Run(c, b, ticks + [t], rooms) == Step(c, Run(c, b, ticks, rooms[..|ticks|]), t, rooms[|ticks|])
  {
    assert (ticks + [t])[..|ticks|] == ticks;
  }

  /** The references of the crowd are usable, and the index is large enough for all of it. */
  ghost predicate Roomy(x: IndexSize, ref: nat, n: nat) {
    0 < ref && ref + n < TOMBSTONE && n < x.maxEntries && n < x.maxProbe
  }

  lemma FirstOfCrowd(c: Limits, x: IndexSize, b: Book, o: Order, mate: Order, ref: nat, ticks: seq<Tick>,
      rooms: seq<bool>, used: nat)
    requires Neighbours(c, o, mate) && Vacant(b, o, mate) && Roomy(x, ref, 0)
    requires ticks == [AddOf(o, ref)] && |rooms| == 1 && RoomsTrue(c, x, b, ticks, rooms, used)
    ensures Crowded(Run(c, b, ticks, rooms), o, mate, ref, 0)
  {
    assert [] + [AddOf(o, ref)] == ticks;
    LastTrue(c, x, b, [], AddOf(o, ref), rooms, used);
    assert b.live == map[] by { assert Unfold(0); }
    CrowdStarts(c, b, o, mate, ref, Run(c, b, ticks, rooms));
  }

  /** The other price takes a full level's worth of orders. */
  lemma {:induction false} CrowdRun(c: Limits, x: IndexSize, b: Book, o: Order, mate: Order, ref: nat, n: nat,
      ticks: seq<Tick>, rooms: seq<bool>, used: nat)
    requires Neighbours(c, o, mate) && Vacant(b, o, mate) && n <= c.slots && Roomy(x, ref, n)
    requires ticks == Crowd(o, mate, ref, n) && |rooms| == n + 1 && RoomsTrue(c, x, b, ticks, rooms, used)
    ensures Crowded(Run(c, b, ticks, rooms), o, mate, ref, n)
    decreases n
  {
    if n == 0 {
      FirstOfCrowd(c, x, b, o, mate, ref, ticks, rooms, used);
    } else {
      var before, t := Crowd(o, mate, ref, n - 1), AddOf(mate, ref + n);
      LastTrue(c, x, b, before, t, rooms, used);
      CrowdRun(c, x, b, o, mate, ref, n - 1, before, rooms[..n], used);
      CrowdNext(c, x, Run(c, b, before, rooms[..n]), o, mate, ref, n - 1, t, rooms[n], used + Inserts(before),
        Run(c, b, ticks, rooms));
    }
  }

  lemma CrowdNext(c: Limits, x: IndexSize, was: Book, o: Order, mate: Order, ref: nat, n: nat, t: Tick, room: bool,
      used: nat, now: Book)
    requires Neighbours(c, o, mate) && n < c.slots && Roomy(x, ref, n + 1) && Crowded(was, o, mate, ref, n)
    requires t == AddOf(mate, ref + n + 1) && RoomIsTrue(x, was, t, room, used) && now == Step(c, was, t, room)
    ensures Crowded(now, o, mate, ref, n + 1)
  {
    assert |was.live| == n + 1 by { assert Beside(was, o, mate, ref, n) by { assert Unfold(0); } }
    CrowdGrows(c, was, o, mate, ref, n, now);
  }

  /** Under any limits and from any empty book an order can be lost, whatever the index is, if it
      is large enough to take the orders of the run: fill a level beside it, then move it there. */
  lemma SomeRunLoses(c: Limits, x: IndexSize, b: Book, o: Order, mate: Order, ref: nat, newRef: nat, t: Tick,
      rooms: seq<bool>, used: nat)
    requires Neighbours(c, o, mate) && Roomy(x, ref, c.slots + 1) && used + c.slots + 1 < x.maxProbe
    requires ref + c.slots < newRef < TOMBSTONE && Vacant(b, o, mate)
    requires t == Tick(Replace, o.symbol, true, mate.price, mate.qty, ref, newRef)
    requires |rooms| == c.slots + 2 && RoomsTrue(c, x, b, Crowd(o, mate, ref, c.slots) + [t], rooms, used)
    ensures var ticks, n := Crowd(o, mate, ref, c.slots), c.slots + 1;
            ref in Run(c, b, ticks, rooms[..n]).live && newRef !in Run(c, b, ticks + [t], rooms).live &&
            Run(c, b, ticks + [t], rooms) == Step(c, Run(c, b, ticks, rooms[..n]), t, true) &&
            Run(c, b, ticks + [t], rooms).live == Run(c, b, ticks, rooms[..n]).live - {ref}
  {
    var ticks, n := Crowd(o, mate, ref, c.slots), c.slots + 1;
    var full := Run(c, b, ticks, rooms[..n]);
    LastTrue(c, x, b, ticks, t, rooms, used);
    CrowdInserts(o, mate, ref, c.slots);
    CrowdRun(c, x, b, o, mate, ref, c.slots, ticks, rooms[..n], used);
    CrowdLoses(c, x, full, o, mate, ref, newRef, t, rooms[n], used + n, Run(c, b, ticks + [t], rooms));
  }

  lemma CrowdLoses(c: Limits, x: IndexSize, full: Book, o: Order, mate: Order, ref: nat, newRef: nat, t: Tick,
      room: bool, used: nat, now: Book)
    requires Neighbours(c, o, mate) && Roomy(x, ref, c.slots + 1) && used < x.maxProbe
    requires ref + c.slots < newRef < TOMBSTONE && Crowded(full, o, mate, ref, c.slots)
    requires t == Tick(Replace, o.symbol, true, mate.price, mate.qty, ref, newRef)
    requires RoomIsTrue(x, full, t, room, used) && now == Step(c, full, t, room)
    ensures room && ref in full.live && now.live == full.live - {ref} && newRef !in now.live
  {
    assert Beside(full, o, mate, ref, c.slots) by { assert Unfold(0); }
    ReplaceLosesAnOrder(c, full, ref, newRef, mate);
  }

  // ----- Queries -----

  /** An order of the symbol rests on the side (0 bid, 1 ask) at the price. */
  ghost predicate RestsAt(b: Book, sym: nat, side: nat, price: int) {
    exists r {:trigger b.live[r]} ::
      r in b.live && b.live[r].symbol == sym && b.live[r].side == side && b.live[r].price == price
  }

  /** `prices` are the best prices of the side, best first: falling bids or rising asks with
      orders, and none left out is better than any of them. */
  ghost predicate Tops(b: Book, sym: nat, side: nat, prices: seq<int>) {
    (forall i, j :: 0 <= i < j < |prices| ==> if side == 0 then prices[i] > prices[j] else prices[i] < prices[j]) &&
    (forall i :: 0 <= i < |prices| ==> RestsAt(b, sym, side, prices[i])) &&
    (forall p, i {:trigger RestsAt(b, sym, side, p), prices[i]} ::
      RestsAt(b, sym, side, p) && p !in prices && 0 <= i < |prices| ==>
        if side == 0 then p < prices[i] else p > prices[i])
  }

  ghost predicate Complete(b: Book, sym: nat, side: nat, prices: seq<int>) {
    forall p :: RestsAt(b, sym, side, p) ==> p in prices
  }

  /** The orders of a side at one of the prices. */
  ghost function RefsAt(b: Book, sym: nat, side: nat, prices: seq<int>): set<nat> {
    set r | r in b.live && b.live[r].symbol == sym && b.live[r].side == side && b.live[r].price in prices
  }

  /** Their quantity. */
  ghost function QtyOf(live: map<nat, Order>, refs: set<nat>): int
    requires refs <= live.Keys
  {
    if refs == {} then 0 else var r :| r in refs; live[r].qty + QtyOf(live, refs - {r})
  }

  lemma {:induction false} QtyWithout(live: map<nat, Order>, refs: set<nat>, x: nat)
    requires refs <= live.Keys && x in refs
    ensures QtyOf(live, refs) == live[x].qty + QtyOf(live, refs - {x})
    decreases |refs|
  {
    var r :| r in refs && QtyOf(live, refs) == live[r].qty + QtyOf(live, refs - {r});
    if r != x {
      QtyWithout(live, refs - {r}, x);
      QtyWithout(live, refs - {x}, r);
      assert refs - {r} - {x} == refs - {x} - {r};
    }
  }

  lemma {:induction false} QtyUnion(live: map<nat, Order>, xs: set<nat>, ys: set<nat>)
    requires xs <= live.Keys && ys <= live.Keys && xs !! ys
    ensures QtyOf(live, xs + ys) == QtyOf(live, xs) + QtyOf(live, ys)
    decreases |ys|
  {
    if ys == {} {
      assert xs + ys == xs;
    } else {
      var y :| y in ys;
      QtyWithout(live, ys, y);
      QtyWithout(live, xs + ys, y);
      assert xs + ys - {y} == xs + (ys - {y});
      QtyUnion(live, xs, ys - {y});
    }
  }

  ghost function RefsIn(q: seq<Resting>): set<nat> {
    set i | 0 <= i < |q| :: q[i].ref
  }

  /** A queue adds up to the quantity of its orders. */
  lemma {:induction false} QueueQty(b: Book, k: (nat, int), q: seq<Resting>)
    requires QueueTrue(b, k, q)
    ensures RefsIn(q) <= b.live.Keys && SumResting(q) == QtyOf(b.live, RefsIn(q))
  {
    if q != [] {
      var n := |q| - 1;
      QueueQty(b, k, q[..n]);
      assert RefsIn(q) == RefsIn(q[..n]) + {q[n].ref} && q[n].ref !in RefsIn(q[..n]);
      QtyUnion(b.live, RefsIn(q[..n]), {q[n].ref});
      QtyWithout(b.live, {q[n].ref}, q[n].ref);
      assert {q[n].ref} - {q[n].ref} == {};
    }
  }
}
