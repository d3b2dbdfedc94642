/** The book's arrays as plain values, the invariants that tie them to the order
    index, and what each elementary change does to both. */
module BookState {
  import opened Folding
  import opened OrderIndex
  import opened PriceLevels

  datatype Limits = Limits(symbols: nat, levels: nat, slots: nat, maxQty: int, maxPrice: int)

  /** One side of one symbol: a fixed array of levels of which the first `count`
      are in use, best price first. */
  datatype BookSide = BookSide(levels: seq<PriceLevel>, count: nat)

  predicate Better(side: nat, p: int, q: int) {
    if side == 0 then p > q else p < q
  }

  function Row(loc: Location): nat {
    2 * loc.symbol + loc.side
  }

  ghost predicate Shaped(c: Limits, b: BookSide) {
    |b.levels| == c.levels && b.count <= c.levels &&
    forall i :: 0 <= i < |b.levels| ==> |b.levels[i].orders| == c.slots
  }

  ghost predicate Sorted(side: nat, b: BookSide) {
    b.count <= |b.levels| &&
    forall i, j :: 0 <= i < j < b.count ==> Better(side, b.levels[i].price, b.levels[j].price)
  }

  /** A new price belongs at position `pos`: behind better levels, ahead of worse ones. */
  ghost predicate SortedAt(side: nat, b: BookSide, pos: nat, price: int) {
    pos <= b.count <= |b.levels| &&
    (forall i :: 0 <= i < pos ==> Better(side, b.levels[i].price, price)) &&
    (forall i :: pos <= i < b.count ==> Better(side, price, b.levels[i].price))
  }

  ghost predicate SideOk(c: Limits, side: nat, b: BookSide) {
    Shaped(c, b) && Sorted(side, b) &&
    forall i :: 0 <= i < b.count ==> LevelOk(b.levels[i], c.maxQty)
  }

  ghost predicate RowsOk(c: Limits, rows: seq<BookSide>) {
    |rows| == 2 * c.symbols && forall r :: 0 <= r < |rows| ==> SideOk(c, r % 2, rows[r])
  }

  /** No level in use is empty, except possibly one. */
  ghost predicate PopulatedBut(b: BookSide, but: int) {
    b.count <= |b.levels| && forall i :: 0 <= i < b.count && i != but ==> b.levels[i].orderCount > 0
  }

  // ----- Orders and their locations -----

  ghost predicate InBook(rows: seq<BookSide>, loc: Location) {
    loc.side <= 1 && Row(loc) < |rows| && loc.level < rows[Row(loc)].count <= |rows[Row(loc)].levels| &&
    loc.slot < |rows[Row(loc)].levels[loc.level].orders|
  }

  ghost function SlotAt(rows: seq<BookSide>, loc: Location): OrderSlot
    requires InBook(rows, loc)
  {
    rows[Row(loc)].levels[loc.level].orders[loc.slot]
  }

  ghost predicate Live(rows: seq<BookSide>, loc: Location) {
    InBook(rows, loc) && SlotAt(rows, loc).active
  }

  /** Index entries and active slots are in one-to-one correspondence. */
  ghost predicate Linked(rows: seq<BookSide>, contents: map<nat, Location>) {
    (forall ref :: ref in contents ==> Live(rows, contents[ref]) && SlotAt(rows, contents[ref]).orderId == ref) &&
    (forall loc :: Live(rows, loc) ==>
       SlotAt(rows, loc).orderId in contents && contents[SlotAt(rows, loc).orderId] == loc)
  }

  // ----- Level shifts -----

  ghost function Inserted(b: BookSide, pos: nat, l: PriceLevel): BookSide
    requires pos <= b.count < |b.levels|
  {
    BookSide(b.levels[..pos] + [l] + b.levels[pos..b.count] + b.levels[b.count + 1..], b.count + 1)
  }

  ghost function Deleted(b: BookSide, pos: nat, l: PriceLevel): BookSide
    requires pos < b.count <= |b.levels|
  {
    BookSide(b.levels[..pos] + b.levels[pos + 1..b.count] + [l] + b.levels[b.count..], b.count - 1)
  }

  ghost function Bumped(loc: Location, row: nat, pos: nat): Location {
    if Row(loc) == row && pos <= loc.level then loc.(level := loc.level + 1) else loc
  }

  ghost function Lowered(loc: Location, row: nat, pos: nat): Location {
    if Row(loc) == row && pos < loc.level then loc.(level := loc.level - 1) else loc
  }

  ghost function BumpedAll(contents: map<nat, Location>, row: nat, pos: nat): map<nat, Location> {
    map ref | ref in contents :: Bumped(contents[ref], row, pos)
  }

  ghost function LoweredAll(contents: map<nat, Location>, row: nat, pos: nat): map<nat, Location> {
    map ref | ref in contents :: Lowered(contents[ref], row, pos)
  }

  lemma InsertedLevels(b: BookSide, pos: nat, l: PriceLevel, i: nat)
    requires pos <= b.count < |b.levels| && i < |b.levels|
    ensures |Inserted(b, pos, l).levels| == |b.levels|
    ensures Inserted(b, pos, l).levels[i] ==
            if i < pos then b.levels[i] else if i == pos then l else if i <= b.count then b.levels[i - 1]
              else b.levels[i]
  {
  }

  lemma DeletedLevels(b: BookSide, pos: nat, l: PriceLevel, i: nat)
    requires pos < b.count <= |b.levels| && i < |b.levels|
    ensures |Deleted(b, pos, l).levels| == |b.levels|
    ensures Deleted(b, pos, l).levels[i] ==
            if i < pos then b.levels[i] else if i < b.count - 1 then b.levels[i + 1] else if i == b.count - 1 then l
              else b.levels[i]
  {
  }

  /** An order moves with its level when a level is opened. */
  lemma BumpedOrder(rows: seq<BookSide>, row: nat, pos: nat, l: PriceLevel, loc: Location, rows': seq<BookSide>)
    requires row < |rows| && pos <= rows[row].count < |rows[row].levels| &&
             rows' == rows[row := Inserted(rows[row], pos, l)] && Live(rows, loc)
    ensures Live(rows', Bumped(loc, row, pos)) && SlotAt(rows', Bumped(loc, row, pos)) == SlotAt(rows, loc)
    ensures OrderAt(rows', Bumped(loc, row, pos)) == OrderAt(rows, loc)
  {
    if Row(loc) == row {
      InsertedLevels(rows[row], pos, l, Bumped(loc, row, pos).level);
    }
  }

  /** And every order there afterwards came that way. */
  lemma BumpedFrom(rows: seq<BookSide>, row: nat, pos: nat, l: PriceLevel, loc: Location, rows': seq<BookSide>)
      returns (was: Location)
    requires row < |rows| && pos <= rows[row].count < |rows[row].levels| &&
             rows' == rows[row := Inserted(rows[row], pos, l)] && Live(rows', loc)
    requires forall s :: 0 <= s < |l.orders| ==> !l.orders[s].active
    ensures Live(rows, was) && SlotAt(rows', loc) == SlotAt(rows, was) && Bumped(was, row, pos) == loc
  {
    was := loc;
    if Row(loc) == row {
      InsertedLevels(rows[row], pos, l, loc.level);
      was := if loc.level < pos then loc else loc.(level := loc.level - 1);
    }
  }

  /** Opening an empty level and bumping the locations behind it keeps the index exact. */
  lemma InsertKeepsLinks(rows: seq<BookSide>, contents: map<nat, Location>, row: nat, pos: nat, l: PriceLevel,
                         rows': seq<BookSide>, contents': map<nat, Location>)
    requires Linked(rows, contents) && row < |rows| && pos <= rows[row].count < |rows[row].levels|
    requires rows' == rows[row := Inserted(rows[row], pos, l)] && contents' == BumpedAll(contents, row, pos)
    requires forall s :: 0 <= s < |l.orders| ==> !l.orders[s].active
    ensures Linked(rows', contents')
  {
    forall ref | ref in contents' ensures Live(rows', contents'[ref]) && SlotAt(rows', contents'[ref]).orderId == ref {
      BumpedOrder(rows, row, pos, l, contents[ref], rows');
    }
    forall loc | Live(rows', loc)
      ensures SlotAt(rows', loc).orderId in contents' && contents'[SlotAt(rows', loc).orderId] == loc
    {
      var was := BumpedFrom(rows, row, pos, l, loc, rows');
    }
  }

  /** An order moves with its level when another level is closed. */
  lemma LoweredOrder(rows: seq<BookSide>, row: nat, pos: nat, l: PriceLevel, loc: Location, rows': seq<BookSide>)
    requires row < |rows| && pos < rows[row].count <= |rows[row].levels| &&
             rows' == rows[row := Deleted(rows[row], pos, l)] && Live(rows, loc)
    requires forall s :: 0 <= s < |rows[row].levels[pos].orders| ==> !rows[row].levels[pos].orders[s].active
    ensures Live(rows', Lowered(loc, row, pos)) && SlotAt(rows', Lowered(loc, row, pos)) == SlotAt(rows, loc)
    ensures OrderAt(rows', Lowered(loc, row, pos)) == OrderAt(rows, loc)
  {
    if Row(loc) == row {
      DeletedLevels(rows[row], pos, l, Lowered(loc, row, pos).level);
    }
  }

  lemma LoweredFrom(rows: seq<BookSide>, row: nat, pos: nat, l: PriceLevel, loc: Location, rows': seq<BookSide>)
      returns (was: Location)
    requires row < |rows| && pos < rows[row].count <= |rows[row].levels| &&
             rows' == rows[row := Deleted(rows[row], pos, l)] && Live(rows', loc)
    ensures Live(rows, was) && SlotAt(rows', loc) == SlotAt(rows, was) && Lowered(was, row, pos) == loc
  {
    was := loc;
    if Row(loc) == row {
      DeletedLevels(rows[row], pos, l, loc.level);
      was := if loc.level < pos then loc else loc.(level := loc.level + 1);
    }
  }

  /** Closing an empty level and lowering the locations behind it keeps the index exact. */
  lemma DeleteKeepsLinks(rows: seq<BookSide>, contents: map<nat, Location>, row: nat, pos: nat, l: PriceLevel,
                         rows': seq<BookSide>, contents': map<nat, Location>)
    requires Linked(rows, contents) && row < |rows| && pos < rows[row].count <= |rows[row].levels|
    requires rows' == rows[row := Deleted(rows[row], pos, l)] && contents' == LoweredAll(contents, row, pos)
    requires forall s :: 0 <= s < |rows[row].levels[pos].orders| ==> !rows[row].levels[pos].orders[s].active
    ensures Linked(rows', contents')
  {
    forall ref | ref in contents' ensures Live(rows', contents'[ref]) && SlotAt(rows', contents'[ref]).orderId == ref {
      LoweredOrder(rows, row, pos, l, contents[ref], rows');
    }
    forall loc | Live(rows', loc)
      ensures SlotAt(rows', loc).orderId in contents' && contents'[SlotAt(rows', loc).orderId] == loc
    {
      var was := LoweredFrom(rows, row, pos, l, loc, rows');
    }
  }

  // ----- One level changes in place -----

  ghost function WithLevel(b: BookSide, i: nat, l: PriceLevel): BookSide
    requires i < |b.levels|
  {
    b.(levels := b.levels[i := l])
  }

  ghost function SetLevel(rows: seq<BookSide>, loc: Location, l: PriceLevel): seq<BookSide>
    requires Row(loc) < |rows| && loc.level < |rows[Row(loc)].levels|
  {
    rows[Row(loc) := WithLevel(rows[Row(loc)], loc.level, l)]
  }

  /** Activating a free slot for a new reference. */
  lemma PutKeepsLinks(rows: seq<BookSide>, contents: map<nat, Location>, loc: Location, l: PriceLevel, ref: nat)
    requires Linked(rows, contents) && InBook(rows, loc) && !Live(rows, loc) && ref !in contents
    requires SameElsewhere(rows[Row(loc)].levels[loc.level].orders, l.orders, loc.slot)
    requires l.orders[loc.slot].active && l.orders[loc.slot].orderId == ref
    ensures Linked(SetLevel(rows, loc, l), contents[ref := loc])
  {
    var rows' := SetLevel(rows, loc, l);
    var contents' := contents[ref := loc];
    forall r | r in contents'
      ensures Live(rows', contents'[r]) && SlotAt(rows', contents'[r]).orderId == r
    {
      if r != ref { assert Live(rows, contents[r]); }
    }
    forall x | Live(rows', x)
      ensures SlotAt(rows', x).orderId in contents' && contents'[SlotAt(rows', x).orderId] == x
    {
      if x != loc { assert Live(rows, x); }
    }
  }

  /** Deactivating the slot of a reference. */
  lemma DropKeepsLinks(rows: seq<BookSide>, contents: map<nat, Location>, ref: nat, loc: Location, l: PriceLevel)
    requires Linked(rows, contents) && ref in contents
    requires loc == contents[ref] && Live(rows, loc)
    requires SameElsewhere(rows[Row(loc)].levels[loc.level].orders, l.orders, loc.slot) && !l.orders[loc.slot].active
    ensures Linked(SetLevel(rows, loc, l), contents - {ref})
  {
    var rows' := SetLevel(rows, loc, l);
    forall r | r in contents && r != ref
      ensures Live(rows', contents[r]) && SlotAt(rows', contents[r]).orderId == r
    {
      assert contents[r] != loc;
    }
    forall x | Live(rows', x)
      ensures SlotAt(rows', x).orderId in contents - {ref} && contents[SlotAt(rows', x).orderId] == x
    {
      assert x != loc;
      assert Live(rows, x);
    }
  }

  /** Changing only the quantity of one live slot. */
  lemma ResizeKeepsLinks(rows: seq<BookSide>, contents: map<nat, Location>, loc: Location, l: PriceLevel)
    requires Linked(rows, contents) && Live(rows, loc)
    requires SameElsewhere(rows[Row(loc)].levels[loc.level].orders, l.orders, loc.slot)
    requires l.orders[loc.slot].active && l.orders[loc.slot].orderId == SlotAt(rows, loc).orderId
    ensures Linked(SetLevel(rows, loc, l), contents)
  {
    var rows' := SetLevel(rows, loc, l);
    forall x | Live(rows', x)
      ensures SlotAt(rows', x).orderId in contents && contents[SlotAt(rows', x).orderId] == x
    {
      assert Live(rows, x);
    }
  }

  // ----- Side invariants -----

  lemma InsertedOk(c: Limits, side: nat, b: BookSide, pos: nat, price: int)
    requires SideOk(c, side, b) && pos <= b.count < c.levels
    requires SortedAt(side, b, pos, price)
    ensures SideOk(c, side, Inserted(b, pos, EmptyLevel(c.slots, price)))
  {
    var l := EmptyLevel(c.slots, price);
    var b' := Inserted(b, pos, l);
    EmptyOk(c.slots, price, c.maxQty);
    forall i {:trigger b'.levels[i]} | 0 <= i < |b'.levels|
      ensures |b'.levels[i].orders| == c.slots && (i < b'.count ==> LevelOk(b'.levels[i], c.maxQty))
    {
      InsertedLevels(b, pos, l, i);
    }
    forall i, j | 0 <= i < j < b'.count ensures Better(side, b'.levels[i].price, b'.levels[j].price) {
      InsertedLevels(b, pos, l, i);
      InsertedLevels(b, pos, l, j);
    }
  }

  lemma EmptyOk(slots: nat, price: int, maxQty: int)
    ensures LevelOk(EmptyLevel(slots, price), maxQty) && RestingAt(EmptyLevel(slots, price)) == []
  {
  }

  lemma DeletedOk(c: Limits, side: nat, b: BookSide, pos: nat, price: int)
    requires SideOk(c, side, b) && pos < b.count
    ensures SideOk(c, side, Deleted(b, pos, EmptyLevel(c.slots, price)))
  {
    var l := EmptyLevel(c.slots, price);
    var b' := Deleted(b, pos, l);
    forall i {:trigger b'.levels[i]} | 0 <= i < |b'.levels|
      ensures |b'.levels[i].orders| == c.slots && (i < b'.count ==> LevelOk(b'.levels[i], c.maxQty))
    {
      DeletedLevels(b, pos, l, i);
    }
    forall i, j | 0 <= i < j < b'.count ensures Better(side, b'.levels[i].price, b'.levels[j].price) {
      DeletedLevels(b, pos, l, i);
      DeletedLevels(b, pos, l, j);
    }
  }

  lemma WithLevelOk(c: Limits, side: nat, b: BookSide, i: nat, l: PriceLevel)
    requires SideOk(c, side, b) && i < b.count && LevelOk(l, c.maxQty)
    requires l.price == b.levels[i].price && |l.orders| == c.slots
    ensures SideOk(c, side, WithLevel(b, i, l))
  {
  }

  /** An empty level has no active slot, and conversely. */
  lemma EmptyInactive(l: PriceLevel, maxQty: int)
    requires LevelOk(l, maxQty)
    ensures l.orderCount == 0 <==> RestingAt(l) == []
    ensures l.orderCount == 0 <==> forall s :: 0 <= s < |l.orders| ==> !l.orders[s].active
    ensures l.orderCount >= 0
  {
    var q := Queue(l);
    if l.orderCount != 0 {
      assert q[0] in q;
    }
  }

  // ----- The queue at each price -----

  /** Orders resting at a price, in arrival order; none when the price has no level. */
  ghost function QueueOf(b: BookSide, price: int): seq<Resting> {
    if i :| 0 <= i < b.count <= |b.levels| && b.levels[i].price == price then RestingAt(b.levels[i]) else []
  }

  lemma QueueAtLevel(side: nat, b: BookSide, i: nat)
    requires Sorted(side, b) && i < b.count
    ensures QueueOf(b, b.levels[i].price) == RestingAt(b.levels[i])
  {
  }

  /** Opening an empty level changes no queue. */
  lemma InsertKeepsQueue(c: Limits, side: nat, b: BookSide, pos: nat, price: int, p: int)
    requires Shaped(c, b) && Sorted(side, b) && pos <= b.count < c.levels
    requires Sorted(side, Inserted(b, pos, EmptyLevel(c.slots, price)))
    ensures QueueOf(Inserted(b, pos, EmptyLevel(c.slots, price)), p) == QueueOf(b, p)
  {
    var l := EmptyLevel(c.slots, price);
    var b' := Inserted(b, pos, l);
    if i :| 0 <= i < b.count && b.levels[i].price == p {
      InsertedHas(side, b, pos, l, i, b');
    } else if j :| 0 <= j < b'.count && b'.levels[j].price == p {
      EmptyOk(c.slots, price, c.maxQty);
      InsertedLevels(b, pos, l, j);
      QueueAtLevel(side, b', j);
    }
  }

  lemma InsertedHas(side: nat, b: BookSide, pos: nat, l: PriceLevel, i: nat, b': BookSide)
    requires Sorted(side, b) && pos <= b.count < |b.levels| && b' == Inserted(b, pos, l) && Sorted(side, b') &&
             i < b.count
    ensures QueueOf(b', b.levels[i].price) == QueueOf(b, b.levels[i].price)
  {
    var j := if i < pos then i else i + 1;
    InsertedLevels(b, pos, l, j);
    QueueAtLevel(side, b, i);
    QueueAtLevel(side, b', j);
  }

  /** Closing an empty level changes no queue. */
  lemma DeleteKeepsQueue(c: Limits, side: nat, b: BookSide, pos: nat, l: PriceLevel, p: int)
    requires Shaped(c, b) && Sorted(side, b) && pos < b.count && RestingAt(b.levels[pos]) == []
    requires Sorted(side, Deleted(b, pos, l))
    ensures QueueOf(Deleted(b, pos, l), p) == QueueOf(b, p)
  {
    var b' := Deleted(b, pos, l);
    if j :| 0 <= j < b'.count && b'.levels[j].price == p {
      DeletedLevels(b, pos, l, j);
      var i := if j < pos then j else j + 1;
      QueueAtLevel(side, b', j);
      QueueAtLevel(side, b, i);
    } else if i :| 0 <= i < b.count && b.levels[i].price == p {
      QueueAtLevel(side, b, i);
      if i != pos {
        DeletedLevels(b, pos, l, if i < pos then i else i - 1);
      }
    }
  }

  /** Changing a level changes the queue at its price and no other. */
  lemma WithLevelQueue(side: nat, b: BookSide, i: nat, l: PriceLevel, p: int)
    requires Sorted(side, b) && i < b.count && l.price == b.levels[i].price
    ensures QueueOf(WithLevel(b, i, l), p) == if p == l.price then RestingAt(l) else QueueOf(b, p)
  {
    var b' := WithLevel(b, i, l);
    assert Sorted(side, b');
    if p == l.price {
      QueueAtLevel(side, b', i);
    } else if j :| 0 <= j < b.count && b.levels[j].price == p {
      assert b'.levels[j] == b.levels[j];
      QueueAtLevel(side, b, j);
      QueueAtLevel(side, b', j);
    }
  }

  // ----- The plain book -----

  datatype Order = Order(symbol: nat, side: nat, price: int, qty: int)

  /** Live orders by reference, and the arrival-ordered queue at every row and price. */
  datatype Book = Book(live: map<nat, Order>, queues: imap<(nat, int), seq<Resting>>)

  /** The whole book invariant; all but the number of rows is kept folded, see `OpenBook`. */
  ghost predicate BookOk(c: Limits, rows: seq<BookSide>, contents: map<nat, Location>) {
    |rows| == 2 * c.symbols &&
    forall n :: Unfold(n) ==> RowsOk(c, rows) && Linked(rows, contents)
  }

  lemma OpenBook(c: Limits, rows: seq<BookSide>, contents: map<nat, Location>)
    requires BookOk(c, rows, contents)
    ensures RowsOk(c, rows) && Linked(rows, contents)
  {
    assert Unfold(0);
  }

  ghost function OrderAt(rows: seq<BookSide>, loc: Location): Order
    requires InBook(rows, loc)
  {
    Order(loc.symbol, loc.side, rows[Row(loc)].levels[loc.level].price, SlotAt(rows, loc).qty)
  }

  ghost function Queues(rows: seq<BookSide>): imap<(nat, int), seq<Resting>> {
    imap k: (nat, int) | k.0 < |rows| :: QueueOf(rows[k.0], k.1)
  }

  ghost function Abs(rows: seq<BookSide>, contents: map<nat, Location>): Book {
    Book(map ref | ref in contents && InBook(rows, contents[ref]) :: OrderAt(rows, contents[ref]), Queues(rows))
  }

  lemma SealBook(c: Limits, rows: seq<BookSide>, contents: map<nat, Location>)
    requires RowsOk(c, rows) && Linked(rows, contents)
    ensures BookOk(c, rows, contents)
  {
  }

  lemma OpenLinks(c: Limits, rows: seq<BookSide>, contents: map<nat, Location>)
    requires BookOk(c, rows, contents)
    ensures Linked(rows, contents)
  {
    assert Unfold(0);
  }

  /** Replacing one row by another with the same queues leaves all queues equal. */
  lemma SameQueues(rows: seq<BookSide>, row: nat, b: BookSide)
    requires row < |rows| && forall p: int :: QueueOf(b, p) == QueueOf(rows[row], p)
    ensures Queues(rows[row := b]) == Queues(rows)
  {
  }

  lemma SideAt(c: Limits, rows: seq<BookSide>, row: nat, side: nat, b: BookSide)
    requires RowsOk(c, rows) && row < |rows| && side == row % 2 && b == rows[row]
    ensures SideOk(c, side, b)
  {
  }

  /** Rows stay well-formed when the changed row is. */
  lemma RowOk(c: Limits, rows: seq<BookSide>, row: nat, b: BookSide)
    requires RowsOk(c, rows) && row < |rows| && SideOk(c, row % 2, b)
    ensures RowsOk(c, rows[row := b])
  {
  }

  lemma InsertKeepsLive(rows: seq<BookSide>, contents: map<nat, Location>, row: nat, pos: nat, l: PriceLevel,
                        rows': seq<BookSide>, contents': map<nat, Location>)
    requires Linked(rows, contents) && row < |rows| && pos <= rows[row].count < |rows[row].levels|
    requires rows' == rows[row := Inserted(rows[row], pos, l)] && contents' == BumpedAll(contents, row, pos)
    requires forall s :: 0 <= s < |l.orders| ==> !l.orders[s].active
    ensures Linked(rows', contents') && contents'.Keys == contents.Keys
    ensures forall ref :: ref in contents ==> OrderAt(rows', contents'[ref]) == OrderAt(rows, contents[ref])
  {
    InsertKeepsLinks(rows, contents, row, pos, l, rows', contents');
    forall ref | ref in contents
      ensures Live(rows', contents'[ref]) && OrderAt(rows', contents'[ref]) == OrderAt(rows, contents[ref])
    {
      BumpedOrder(rows, row, pos, l, contents[ref], rows');
    }
  }

  lemma DeleteKeepsLive(rows: seq<BookSide>, contents: map<nat, Location>, row: nat, pos: nat, l: PriceLevel,
                        rows': seq<BookSide>, contents': map<nat, Location>)
    requires Linked(rows, contents) && row < |rows| && pos < rows[row].count <= |rows[row].levels|
    requires rows' == rows[row := Deleted(rows[row], pos, l)] && contents' == LoweredAll(contents, row, pos)
    requires forall s :: 0 <= s < |rows[row].levels[pos].orders| ==> !rows[row].levels[pos].orders[s].active
    ensures Linked(rows', contents') && contents'.Keys == contents.Keys
    ensures forall ref :: ref in contents ==> OrderAt(rows', contents'[ref]) == OrderAt(rows, contents[ref])
  {
    DeleteKeepsLinks(rows, contents, row, pos, l, rows', contents');
    forall ref | ref in contents
      ensures Live(rows', contents'[ref]) && OrderAt(rows', contents'[ref]) == OrderAt(rows, contents[ref])
    {
      LoweredOrder(rows, row, pos, l, contents[ref], rows');
    }
  }

  lemma AbsEqual(rows: seq<BookSide>, contents: map<nat, Location>, rows': seq<BookSide>, contents': map<nat, Location>)
    requires Linked(rows, contents) && Linked(rows', contents') && contents.Keys == contents'.Keys
    requires forall ref :: ref in contents ==> OrderAt(rows', contents'[ref]) == OrderAt(rows, contents[ref])
    requires Queues(rows) == Queues(rows')
    ensures Abs(rows', contents') == Abs(rows, contents)
  {
  }

  lemma InsertKeepsQueues(c: Limits, rows: seq<BookSide>, row: nat, pos: nat, price: int)
    requires RowsOk(c, rows) && row < |rows| && pos <= rows[row].count < c.levels
    requires SideOk(c, row % 2, Inserted(rows[row], pos, EmptyLevel(c.slots, price)))
    ensures Queues(rows[row := Inserted(rows[row], pos, EmptyLevel(c.slots, price))]) == Queues(rows)
  {
    var b := rows[row];
    var b' := Inserted(b, pos, EmptyLevel(c.slots, price));
    assert SideOk(c, row % 2, b);
    forall p: int ensures QueueOf(b', p) == QueueOf(b, p) {
      InsertKeepsQueue(c, row % 2, b, pos, price, p);
    }
    SameQueues(rows, row, b');
  }

  lemma DeleteKeepsQueues(c: Limits, rows: seq<BookSide>, row: nat, pos: nat, l: PriceLevel)
    requires RowsOk(c, rows) && row < |rows| && pos < rows[row].count && RestingAt(rows[row].levels[pos]) == []
    requires SideOk(c, row % 2, Deleted(rows[row], pos, l))
    ensures Queues(rows[row := Deleted(rows[row], pos, l)]) == Queues(rows)
  {
    var b := rows[row];
    var b' := Deleted(b, pos, l);
    assert SideOk(c, row % 2, b);
    forall p: int ensures QueueOf(b', p) == QueueOf(b, p) {
      DeleteKeepsQueue(c, row % 2, b, pos, l, p);
    }
    SameQueues(rows, row, b');
  }

  lemma InsertKeepsOk(c: Limits, rows: seq<BookSide>, contents: map<nat, Location>, row: nat, pos: nat, price: int)
    requires BookOk(c, rows, contents) && row < |rows| && pos <= rows[row].count < |rows[row].levels|
    requires SortedAt(row % 2, rows[row], pos, price)
    ensures SideOk(c, row % 2, Inserted(rows[row], pos, EmptyLevel(c.slots, price)))
    ensures RowsOk(c, rows[row := Inserted(rows[row], pos, EmptyLevel(c.slots, price))])
  {
    OpenBook(c, rows, contents);
    SideAt(c, rows, row, row % 2, rows[row]);
    InsertedOk(c, row % 2, rows[row], pos, price);
    RowOk(c, rows, row, Inserted(rows[row], pos, EmptyLevel(c.slots, price)));
  }

  lemma DeleteKeepsOk(c: Limits, rows: seq<BookSide>, contents: map<nat, Location>, row: nat, pos: nat)
    requires BookOk(c, rows, contents) && row < |rows| && pos < rows[row].count <= |rows[row].levels|
    ensures SideOk(c, row % 2, Deleted(rows[row], pos, EmptyLevel(c.slots, 0)))
    ensures RowsOk(c, rows[row := Deleted(rows[row], pos, EmptyLevel(c.slots, 0))])
  {
    OpenBook(c, rows, contents);
    SideAt(c, rows, row, row % 2, rows[row]);
    DeletedOk(c, row % 2, rows[row], pos, 0);
    RowOk(c, rows, row, Deleted(rows[row], pos, EmptyLevel(c.slots, 0)));
  }

  /** Opening a level at its sorted position is invisible in the plain book. */
  lemma InsertKeepsBook(c: Limits, rows: seq<BookSide>, contents: map<nat, Location>, row: nat, pos: nat, price: int,
                        rows': seq<BookSide>, contents': map<nat, Location>)
    requires BookOk(c, rows, contents) && row < |rows| && pos <= rows[row].count < |rows[row].levels|
    requires SortedAt(row % 2, rows[row], pos, price)
    requires rows' == rows[row := Inserted(rows[row], pos, EmptyLevel(c.slots, price))]
    requires contents' == BumpedAll(contents, row, pos)
    ensures BookOk(c, rows', contents') && Abs(rows', contents') == Abs(rows, contents)
  {
    OpenBook(c, rows, contents);
    InsertKeepsOk(c, rows, contents, row, pos, price);
    InsertKeepsLive(rows, contents, row, pos, EmptyLevel(c.slots, price), rows', contents');
    InsertKeepsQueues(c, rows, row, pos, price);
    AbsEqual(rows, contents, rows', contents');
    SealBook(c, rows', contents');
  }

  /** Closing an empty level is invisible in the plain book. */
  lemma DeleteKeepsBook(c: Limits, rows: seq<BookSide>, contents: map<nat, Location>, row: nat, pos: nat,
                        rows': seq<BookSide>, contents': map<nat, Location>)
    requires BookOk(c, rows, contents) && row < |rows| && pos < rows[row].count <= |rows[row].levels|
    requires rows[row].levels[pos].orderCount == 0
    requires rows' == rows[row := Deleted(rows[row], pos, EmptyLevel(c.slots, 0))]
    requires contents' == LoweredAll(contents, row, pos)
    ensures BookOk(c, rows', contents') && Abs(rows', contents') == Abs(rows, contents)
  {
    OpenBook(c, rows, contents);
    SideAt(c, rows, row, row % 2, rows[row]);
    EmptyInactive(rows[row].levels[pos], c.maxQty);
    DeleteKeepsOk(c, rows, contents, row, pos);
    DeleteKeepsLive(rows, contents, row, pos, EmptyLevel(c.slots, 0), rows', contents');
    DeleteKeepsQueues(c, rows, row, pos, EmptyLevel(c.slots, 0));
    AbsEqual(rows, contents, rows', contents');
    SealBook(c, rows', contents');
  }

  // ----- What the plain book does -----

  function Key(o: Order): (nat, int) {
    (2 * o.symbol + o.side, o.price)
  }

  function Dropped(q: seq<Resting>, ref: nat): seq<Resting> {
    if q == [] then [] else if q[0].ref == ref then q[1..] else [q[0]] + Dropped(q[1..], ref)
  }

  function Sized(q: seq<Resting>, ref: nat, qty: int): seq<Resting> {
    if q == [] then [] else if q[0].ref == ref then [Resting(ref, qty)] + q[1..] else [q[0]] + Sized(q[1..], ref, qty)
  }

  /** A new order joins the back of the queue at its price. */
  ghost function Added(b: Book, ref: nat, o: Order): Book
    requires Key(o) in b.queues
  {
    Book(b.live[ref := o], b.queues[Key(o) := b.queues[Key(o)] + [Resting(ref, o.qty)]])
  }

  /** An order leaves its queue; the others keep their order. */
  ghost function Removed(b: Book, ref: nat): Book
    requires ref in b.live && Key(b.live[ref]) in b.queues
  {
    var k := Key(b.live[ref]);
    Book(b.live - {ref}, b.queues[k := Dropped(b.queues[k], ref)])
  }

  /** An order keeps its place with a smaller quantity, or leaves when nothing remains. */
  ghost function Reduced(b: Book, ref: nat, delta: int): Book
    requires ref in b.live && Key(b.live[ref]) in b.queues
  {
    var o := b.live[ref];
    if delta < o.qty
    then Book(b.live[ref := o.(qty := o.qty - delta)], b.queues[Key(o) := Sized(b.queues[Key(o)], ref, o.qty - delta)])
    else Removed(b, ref)
  }

  lemma {:induction false} DroppedAt(q: seq<Resting>, i: nat)
    requires i < |q| && forall j :: 0 <= j < i ==> q[j].ref != q[i].ref
    ensures Dropped(q, q[i].ref) == Without(q, i)
  {
    if i > 0 {
      DroppedAt(q[1..], i - 1);
      assert Without(q, i) == [q[0]] + Without(q[1..], i - 1);
    }
  }

  lemma {:induction false} SizedAt(q: seq<Resting>, i: nat, qty: int)
    requires i < |q| && forall j :: 0 <= j < i ==> q[j].ref != q[i].ref
    ensures Sized(q, q[i].ref, qty) == q[i := Resting(q[i].ref, qty)]
  {
    if i > 0 {
      SizedAt(q[1..], i - 1, qty);
      assert q[i := Resting(q[i].ref, qty)] == [q[0]] + q[1..][i - 1 := Resting(q[i].ref, qty)];
    }
  }

  /** Slots queued at one level hold distinct references. */
  lemma DistinctRefs(rows: seq<BookSide>, contents: map<nat, Location>, loc: Location, l: PriceLevel, q: seq<int>,
      maxQty: int)
    requires Linked(rows, contents) && InBook(rows, loc) && l == rows[Row(loc)].levels[loc.level] && Tally(l, q, maxQty)
    ensures forall i, j :: 0 <= i < j < |q| ==> l.orders[q[i]].orderId != l.orders[q[j]].orderId
  {
    forall i, j | 0 <= i < j < |q| ensures l.orders[q[i]].orderId != l.orders[q[j]].orderId {
      assert q[i] in q && q[j] in q;
      assert Live(rows, loc.(slot := q[i])) && Live(rows, loc.(slot := q[j]));
    }
  }

  /** The list position of a live slot; no other queued order has its reference. */
  lemma PositionOf(c: Limits, rows: seq<BookSide>, contents: map<nat, Location>, loc: Location, l: PriceLevel,
      q: seq<int>)
    returns (i: nat)
    requires Linked(rows, contents) && Live(rows, loc) && l == rows[Row(loc)].levels[loc.level]
    requires Tally(l, q, c.maxQty)
    ensures i < |q| && q[i] == loc.slot
    ensures Rests(l.orders, q)[i] == Resting(SlotAt(rows, loc).orderId, SlotAt(rows, loc).qty)
    ensures forall j :: 0 <= j < |q| && j != i ==> Rests(l.orders, q)[j].ref != SlotAt(rows, loc).orderId
  {
    assert loc.slot in q;
    i :| 0 <= i < |q| && q[i] == loc.slot;
    DistinctRefs(rows, contents, loc, l, q, c.maxQty);
  }

  /** Rewriting one level changes one queue. */
  lemma SetLevelQueues(side: nat, rows: seq<BookSide>, loc: Location, l: PriceLevel, rows': seq<BookSide>)
    requires InBook(rows, loc) && Sorted(side, rows[Row(loc)])
    requires l.price == rows[Row(loc)].levels[loc.level].price && rows' == SetLevel(rows, loc, l)
    ensures (Row(loc), l.price) in Queues(rows)
    ensures Queues(rows)[(Row(loc), l.price)] == RestingAt(rows[Row(loc)].levels[loc.level])
    ensures Queues(rows') == Queues(rows)[(Row(loc), l.price) := RestingAt(l)]
  {
    var b := rows[Row(loc)];
    QueueAtLevel(side, b, loc.level);
    forall p: int ensures QueueOf(rows'[Row(loc)], p) == if p == l.price then RestingAt(l) else QueueOf(b, p) {
      WithLevelQueue(side, b, loc.level, l, p);
    }
    RowQueues(rows, rows', Row(loc), (Row(loc), l.price), RestingAt(l));
  }

  /** One queue of one row changes. */
  lemma RowQueues(rows: seq<BookSide>, rows': seq<BookSide>, row: nat, k: (nat, int), q: seq<Resting>)
    requires row < |rows| == |rows'| && k.0 == row && forall r :: 0 <= r < |rows| && r != row ==> rows'[r] == rows[r]
    requires forall p: int :: QueueOf(rows'[row], p) == if p == k.1 then q else QueueOf(rows[row], p)
    ensures Queues(rows') == Queues(rows)[k := q]
  {
    var now, want := Queues(rows'), Queues(rows)[k := q];
    forall x | x in now ensures x in want && now[x] == want[x] {
      assert now[x] == QueueOf(rows'[x.0], x.1);
    }
  }

  lemma SetLevelOk(c: Limits, rows: seq<BookSide>, loc: Location, l: PriceLevel, rows': seq<BookSide>)
    requires RowsOk(c, rows) && InBook(rows, loc) && LevelOk(l, c.maxQty) && |l.orders| == c.slots
    requires l.price == rows[Row(loc)].levels[loc.level].price && rows' == SetLevel(rows, loc, l)
    ensures RowsOk(c, rows')
  {
    assert SideOk(c, Row(loc) % 2, rows[Row(loc)]);
    WithLevelOk(c, Row(loc) % 2, rows[Row(loc)], loc.level, l);
    RowOk(c, rows, Row(loc), rows'[Row(loc)]);
  }

  /** Orders at other slots look the same after one level is rewritten. */
  lemma OrdersElsewhere(rows: seq<BookSide>, loc: Location, l: PriceLevel, rows': seq<BookSide>, x: Location)
    requires InBook(rows, loc) && l.price == rows[Row(loc)].levels[loc.level].price && rows' == SetLevel(rows, loc, l)
    requires SameElsewhere(rows[Row(loc)].levels[loc.level].orders, l.orders, loc.slot)
    requires InBook(rows, x)
    ensures InBook(rows', x) && (x != loc ==> OrderAt(rows', x) == OrderAt(rows, x))
  {
  }

  /** Live orders after a free slot is activated. */
  lemma PutLive(rows: seq<BookSide>, contents: map<nat, Location>, loc: Location, l: PriceLevel, ref: nat,
                rows': seq<BookSide>, contents': map<nat, Location>)
    requires Linked(rows, contents) && InBook(rows, loc) && !Live(rows, loc) && ref !in contents
    requires l.price == rows[Row(loc)].levels[loc.level].price
    requires SameElsewhere(rows[Row(loc)].levels[loc.level].orders, l.orders, loc.slot)
    requires l.orders[loc.slot].active && l.orders[loc.slot].orderId == ref
    requires rows' == SetLevel(rows, loc, l) && contents' == contents[ref := loc]
    ensures Linked(rows', contents')
    ensures Abs(rows', contents').live ==
            Abs(rows, contents).live[ref := Order(loc.symbol, loc.side, l.price, l.orders[loc.slot].qty)]
  {
    PutKeepsLinks(rows, contents, loc, l, ref);
    PutElsewhere(rows, contents, loc, l, rows');
    PutOne(rows, contents, loc, ref, Order(loc.symbol, loc.side, l.price, l.orders[loc.slot].qty), rows');
  }

  /** One more entry, the others unchanged. */
  lemma PutOne(rows: seq<BookSide>, contents: map<nat, Location>, loc: Location, ref: nat, o: Order,
      rows': seq<BookSide>)
    requires ref !in contents && InBook(rows', loc) && OrderAt(rows', loc) == o
    requires forall r ::
               r in contents ==>
                 InBook(rows, contents[r]) && InBook(rows', contents[r]) &&
                 OrderAt(rows', contents[r]) == OrderAt(rows, contents[r])
    ensures Abs(rows', contents[ref := loc]).live == Abs(rows, contents).live[ref := o]
  {
    var now, want := Abs(rows', contents[ref := loc]).live, Abs(rows, contents).live[ref := o];
    assert now.Keys == contents.Keys + {ref} == want.Keys;
    forall r | r in now ensures now[r] == want[r] {
      assert r == ref || r in contents;
    }
  }

  lemma PutElsewhere(rows: seq<BookSide>, contents: map<nat, Location>, loc: Location, l: PriceLevel,
      rows': seq<BookSide>)
    requires Linked(rows, contents) && InBook(rows, loc) && !Live(rows, loc)
    requires l.price == rows[Row(loc)].levels[loc.level].price
    requires SameElsewhere(rows[Row(loc)].levels[loc.level].orders, l.orders, loc.slot)
    requires rows' == SetLevel(rows, loc, l)
    ensures forall r ::
              r in contents ==>
                InBook(rows, contents[r]) && InBook(rows', contents[r]) &&
                OrderAt(rows', contents[r]) == OrderAt(rows, contents[r])
  {
    forall r | r in contents
      ensures InBook(rows, contents[r]) && InBook(rows', contents[r]) &&
              OrderAt(rows', contents[r]) == OrderAt(rows, contents[r])
    {
      assert Live(rows, contents[r]);
      OrdersElsewhere(rows, loc, l, rows', contents[r]);
    }
  }

  /** Activating a free slot at the tail of a level is the plain book's add. */
  lemma PutBook(rows: seq<BookSide>, contents: map<nat, Location>, loc: Location, l: PriceLevel, ref: nat,
                rows': seq<BookSide>, contents': map<nat, Location>)
    requires Linked(rows, contents) && InBook(rows, loc) && !Live(rows, loc) && ref !in contents
    requires Sorted(Row(loc) % 2, rows[Row(loc)])
    requires l.price == rows[Row(loc)].levels[loc.level].price
    requires SameElsewhere(rows[Row(loc)].levels[loc.level].orders, l.orders, loc.slot)
    requires l.orders[loc.slot].active && l.orders[loc.slot].orderId == ref
    requires RestingAt(l) == RestingAt(rows[Row(loc)].levels[loc.level]) + [Resting(ref, l.orders[loc.slot].qty)]
    requires rows' == SetLevel(rows, loc, l) && contents' == contents[ref := loc]
    ensures Linked(rows', contents')
    ensures (Row(loc), l.price) in Abs(rows, contents).queues
    ensures Abs(rows', contents') ==
            Added(Abs(rows, contents), ref, Order(loc.symbol, loc.side, l.price, l.orders[loc.slot].qty))
  {
    var o := Order(loc.symbol, loc.side, l.price, l.orders[loc.slot].qty);
    PutLive(rows, contents, loc, l, ref, rows', contents');
    SetLevelQueues(Row(loc) % 2, rows, loc, l, rows');
    AddedBook(Abs(rows, contents), ref, o, (Row(loc), l.price), Abs(rows', contents'));
  }

  lemma AddedBook(b: Book, ref: nat, o: Order, key: (nat, int), b': Book)
    requires key == Key(o) && key in b.queues && b'.live == b.live[ref := o]
    requires b'.queues == b.queues[key := b.queues[key] + [Resting(ref, o.qty)]]
    ensures b' == Added(b, ref, o)
  {
  }

  lemma DropLive(rows: seq<BookSide>, contents: map<nat, Location>, ref: nat, loc: Location, l: PriceLevel,
                 rows': seq<BookSide>, contents': map<nat, Location>)
    requires Linked(rows, contents) && ref in contents && loc == contents[ref] && Live(rows, loc)
    requires l.price == rows[Row(loc)].levels[loc.level].price
    requires SameElsewhere(rows[Row(loc)].levels[loc.level].orders, l.orders, loc.slot) && !l.orders[loc.slot].active
    requires rows' == SetLevel(rows, loc, l) && contents' == contents - {ref}
    ensures Linked(rows', contents') && Abs(rows', contents').live == Abs(rows, contents).live - {ref}
  {
    DropKeepsLinks(rows, contents, ref, loc, l);
    forall r | r in contents'
      ensures OrderAt(rows', contents[r]) == OrderAt(rows, contents[r])
    {
      assert Live(rows, contents[r]);
      OrdersElsewhere(rows, loc, l, rows', contents[r]);
    }
  }

  /** Position `i` of `was` is the only order with the reference. */
  ghost predicate OnlyAt(was: seq<Resting>, i: nat, ref: nat) {
    i < |was| && was[i].ref == ref && forall j :: 0 <= j < |was| && j != i ==> was[j].ref != ref
  }

  lemma DropQueues(side: nat, rows: seq<BookSide>, loc: Location, l: PriceLevel, ref: nat, i: nat, was: seq<Resting>,
                   rows': seq<BookSide>)
    requires InBook(rows, loc) && Sorted(side, rows[Row(loc)])
    requires l.price == rows[Row(loc)].levels[loc.level].price && rows' == SetLevel(rows, loc, l)
    requires was == RestingAt(rows[Row(loc)].levels[loc.level]) && OnlyAt(was, i, ref) &&
             RestingAt(l) == Without(was, i)
    ensures var k := (Row(loc), l.price);
            k in Queues(rows) && Queues(rows') == Queues(rows)[k := Dropped(Queues(rows)[k], ref)]
  {
    SetLevelQueues(side, rows, loc, l, rows');
    DroppedAt(was, i);
  }

  /** Deactivating a slot and taking it out of the list is the plain book's removal. */
  lemma DropBook(rows: seq<BookSide>, contents: map<nat, Location>, ref: nat, loc: Location, l: PriceLevel,
                 i: nat, was: seq<Resting>, rows': seq<BookSide>, contents': map<nat, Location>)
    requires Linked(rows, contents) && ref in contents && loc == contents[ref] && Live(rows, loc)
    requires Sorted(Row(loc) % 2, rows[Row(loc)])
    requires l.price == rows[Row(loc)].levels[loc.level].price
    requires SameElsewhere(rows[Row(loc)].levels[loc.level].orders, l.orders, loc.slot) && !l.orders[loc.slot].active
    requires rows' == SetLevel(rows, loc, l) && contents' == contents - {ref}
    requires was == RestingAt(rows[Row(loc)].levels[loc.level]) && OnlyAt(was, i, ref) &&
             RestingAt(l) == Without(was, i)
    ensures Linked(rows', contents') && ref in Abs(rows, contents).live
    ensures Key(Abs(rows, contents).live[ref]) in Abs(rows, contents).queues
    ensures Abs(rows', contents') == Removed(Abs(rows, contents), ref)
  {
    DropLive(rows, contents, ref, loc, l, rows', contents');
    DropQueues(Row(loc) % 2, rows, loc, l, ref, i, was, rows');
    assert Key(Abs(rows, contents).live[ref]) == (Row(loc), l.price);
  }

  lemma ResizeLive(rows: seq<BookSide>, contents: map<nat, Location>, ref: nat, loc: Location, l: PriceLevel,
                   rows': seq<BookSide>)
    requires Linked(rows, contents) && ref in contents && loc == contents[ref] && Live(rows, loc)
    requires l.price == rows[Row(loc)].levels[loc.level].price
    requires SameElsewhere(rows[Row(loc)].levels[loc.level].orders, l.orders, loc.slot)
    requires l.orders[loc.slot].active && l.orders[loc.slot].orderId == ref
    requires rows' == SetLevel(rows, loc, l)
    ensures Linked(rows', contents)
    ensures ref in Abs(rows, contents).live && Key(Abs(rows, contents).live[ref]) == (Row(loc), l.price)
    ensures Abs(rows, contents).live[ref].qty == SlotAt(rows, loc).qty
    ensures Abs(rows', contents).live ==
            Abs(rows, contents).live[ref := Abs(rows, contents).live[ref].(qty := l.orders[loc.slot].qty)]
  {
    ResizeKeepsLinks(rows, contents, loc, l);
    forall r | r in contents && r != ref
      ensures OrderAt(rows', contents[r]) == OrderAt(rows, contents[r])
    {
      assert Live(rows, contents[r]);
      OrdersElsewhere(rows, loc, l, rows', contents[r]);
    }
  }

  lemma ResizeQueues(side: nat, rows: seq<BookSide>, loc: Location, l: PriceLevel, ref: nat, i: nat, qty: int,
                     was: seq<Resting>, rows': seq<BookSide>)
    requires InBook(rows, loc) && Sorted(side, rows[Row(loc)])
    requires l.price == rows[Row(loc)].levels[loc.level].price && rows' == SetLevel(rows, loc, l)
    requires was == RestingAt(rows[Row(loc)].levels[loc.level]) && OnlyAt(was, i, ref)
    requires RestingAt(l) == was[i := Resting(ref, qty)]
    ensures var k := (Row(loc), l.price);
            k in Queues(rows) && Queues(rows') == Queues(rows)[k := Sized(Queues(rows)[k], ref, qty)]
  {
    SetLevelQueues(side, rows, loc, l, rows');
    SizedAt(was, i, qty);
  }

  /** Shrinking a slot in place is the plain book's partial reduction. */
  lemma ResizeBook(rows: seq<BookSide>, contents: map<nat, Location>, ref: nat, loc: Location, l: PriceLevel,
                   i: nat, delta: int, was: seq<Resting>, rows': seq<BookSide>)
    requires Linked(rows, contents) && ref in contents && loc == contents[ref] && Live(rows, loc)
    requires Sorted(Row(loc) % 2, rows[Row(loc)])
    requires l.price == rows[Row(loc)].levels[loc.level].price
    requires SameElsewhere(rows[Row(loc)].levels[loc.level].orders, l.orders, loc.slot)
    requires l.orders[loc.slot].active && l.orders[loc.slot].orderId == ref
    requires l.orders[loc.slot].qty == SlotAt(rows, loc).qty - delta > 0
    requires rows' == SetLevel(rows, loc, l)
    requires was == RestingAt(rows[Row(loc)].levels[loc.level]) && OnlyAt(was, i, ref)
    requires RestingAt(l) == was[i := Resting(ref, l.orders[loc.slot].qty)]
    ensures Linked(rows', contents) && ref in Abs(rows, contents).live
    ensures Key(Abs(rows, contents).live[ref]) in Abs(rows, contents).queues
    ensures Abs(rows', contents) == Reduced(Abs(rows, contents), ref, delta)
  {
    ResizeLive(rows, contents, ref, loc, l, rows');
    ResizeQueues(Row(loc) % 2, rows, loc, l, ref, i, l.orders[loc.slot].qty, was, rows');
    PartialReduction(
      Abs(rows, contents), ref, delta, l.orders[loc.slot].qty, (Row(loc), l.price), Abs(rows', contents));
  }

  lemma PartialReduction(b: Book, ref: nat, delta: int, qty: int, key: (nat, int), b': Book)
    requires ref in b.live && b.live[ref].qty - delta == qty > 0 && key == Key(b.live[ref]) && key in b.queues
    requires b'.live == b.live[ref := b.live[ref].(qty := qty)]
    requires b'.queues == b.queues[key := Sized(b.queues[key], ref, qty)]
    ensures Key(b.live[ref]) in b.queues && b' == Reduced(b, ref, delta)
  {
  }

  /** Swapping a level for one with the same orders at the same slots changes nothing. */
  lemma SwapBook(rows: seq<BookSide>, contents: map<nat, Location>, loc: Location, l: PriceLevel, rows': seq<BookSide>)
    requires Linked(rows, contents) && InBook(rows, loc) && !Live(rows, loc)
    requires Sorted(Row(loc) % 2, rows[Row(loc)])
    requires l.price == rows[Row(loc)].levels[loc.level].price
    requires SameElsewhere(rows[Row(loc)].levels[loc.level].orders, l.orders, loc.slot) && !l.orders[loc.slot].active
    requires RestingAt(l) == RestingAt(rows[Row(loc)].levels[loc.level])
    requires rows' == SetLevel(rows, loc, l)
    ensures Linked(rows', contents) && Abs(rows', contents) == Abs(rows, contents)
  {
    SetLevelQueues(Row(loc) % 2, rows, loc, l, rows');
    SwapLinks(rows, contents, loc, l, rows');
    AbsEqual(rows, contents, rows', contents);
  }

  lemma SwapLinks(rows: seq<BookSide>, contents: map<nat, Location>, loc: Location, l: PriceLevel, rows': seq<BookSide>)
    requires Linked(rows, contents) && InBook(rows, loc) && !Live(rows, loc)
    requires l.price == rows[Row(loc)].levels[loc.level].price
    requires SameElsewhere(rows[Row(loc)].levels[loc.level].orders, l.orders, loc.slot) && !l.orders[loc.slot].active
    requires rows' == SetLevel(rows, loc, l)
    ensures Linked(rows', contents)
    ensures forall ref :: ref in contents ==> OrderAt(rows', contents[ref]) == OrderAt(rows, contents[ref])
  {
    forall x | Live(rows', x)
      ensures SlotAt(rows', x).orderId in contents && contents[SlotAt(rows', x).orderId] == x
    {
      assert Live(rows, x);
    }
    forall ref | ref in contents
      ensures Live(rows', contents[ref]) && SlotAt(rows', contents[ref]).orderId == ref
      ensures OrderAt(rows', contents[ref]) == OrderAt(rows, contents[ref])
    {
      assert Live(rows, contents[ref]);
      OrdersElsewhere(rows, loc, l, rows', contents[ref]);
    }
  }

  // ----- Depth -----

  /** The prices at which a row has live orders. */
  ghost function PricesOf(b: Book, row: nat): set<int> {
    set ref | ref in b.live && Key(b.live[ref]).0 == row :: b.live[ref].price
  }

  ghost function LevelPrices(levels: seq<PriceLevel>, n: nat): set<int>
    requires n <= |levels|
  {
    set i | 0 <= i < n :: levels[i].price
  }

  lemma {:induction false} DistinctPrices(side: nat, levels: seq<PriceLevel>, n: nat)
    requires n <= |levels| && forall i, j :: 0 <= i < j < n ==> Better(side, levels[i].price, levels[j].price)
    ensures |LevelPrices(levels, n)| == n
  {
    if n > 0 {
      DistinctPrices(side, levels, n - 1);
      NewPrice(side, levels, n);
    }
  }

  lemma NewPrice(side: nat, levels: seq<PriceLevel>, n: nat)
    requires 0 < n <= |levels| && forall i, j :: 0 <= i < j < n ==> Better(side, levels[i].price, levels[j].price)
    ensures LevelPrices(levels, n) == LevelPrices(levels, n - 1) + {levels[n - 1].price}
    ensures levels[n - 1].price !in LevelPrices(levels, n - 1)
  {
    forall i | 0 <= i < n - 1 ensures levels[i].price != levels[n - 1].price {
      assert Better(side, levels[i].price, levels[n - 1].price);
    }
  }

  /** A populated level has a live order at its price. */
  lemma PriceIsLive(rows: seq<BookSide>, contents: map<nat, Location>, row: nat, i: nat, l: PriceLevel, maxQty: int)
    requires Linked(rows, contents) && row < |rows| && i < rows[row].count <= |rows[row].levels|
    requires l == rows[row].levels[i] && LevelOk(l, maxQty) && l.orderCount > 0
    ensures l.price in PricesOf(Abs(rows, contents), row)
  {
    var s := ActiveSlot(l, maxQty);
    var loc := Location(row / 2, row % 2, i, s);
    assert Row(loc) == row;
    LiveIsPriced(rows, contents, loc);
  }

  lemma ActiveSlot(l: PriceLevel, maxQty: int) returns (s: nat)
    requires LevelOk(l, maxQty) && l.orderCount > 0
    ensures s < |l.orders| && l.orders[s].active
  {
    EmptyInactive(l, maxQty);
    s :| 0 <= s < |l.orders| && l.orders[s].active;
  }

  lemma LiveIsPriced(rows: seq<BookSide>, contents: map<nat, Location>, loc: Location)
    requires Linked(rows, contents) && Live(rows, loc)
    ensures rows[Row(loc)].levels[loc.level].price in PricesOf(Abs(rows, contents), Row(loc))
  {
    var ref := SlotAt(rows, loc).orderId;
    assert Abs(rows, contents).live[ref] == OrderAt(rows, loc);
  }

  /** The level count of a row is the number of prices with live orders. */
  lemma CountIsDepth(c: Limits, rows: seq<BookSide>, contents: map<nat, Location>, row: nat)
    requires BookOk(c, rows, contents) && row < |rows| && PopulatedBut(rows[row], -1)
    ensures rows[row].count == |PricesOf(Abs(rows, contents), row)|
  {
    var b := rows[row];
    assert Linked(rows, contents) && SideOk(c, row % 2, b) by {
      OpenBook(c, rows, contents);
      SideAt(c, rows, row, row % 2, b);
    }
    DistinctPrices(row % 2, b.levels, b.count);
    PricesAreLevels(c, rows, contents, row, PricesOf(Abs(rows, contents), row), LevelPrices(b.levels, b.count));
  }

  lemma PricesAreLevels(c: Limits, rows: seq<BookSide>, contents: map<nat, Location>, row: nat, prices: set<int>,
      quoted: set<int>)
    requires Linked(rows, contents) && row < |rows| && SideOk(c, row % 2, rows[row]) && PopulatedBut(rows[row], -1)
    requires prices == PricesOf(Abs(rows, contents), row) && quoted == LevelPrices(rows[row].levels, rows[row].count)
    ensures prices == quoted
  {
    forall p | p in quoted ensures p in prices {
      LevelHasLive(c, rows, contents, row, p);
    }
    forall p | p in prices ensures p in quoted {
      LiveHasLevel(rows, contents, row, p);
    }
  }

  lemma LevelHasLive(c: Limits, rows: seq<BookSide>, contents: map<nat, Location>, row: nat, p: int)
    requires Linked(rows, contents) && row < |rows| && SideOk(c, row % 2, rows[row]) && PopulatedBut(rows[row], -1)
    requires p in LevelPrices(rows[row].levels, rows[row].count)
    ensures p in PricesOf(Abs(rows, contents), row)
  {
    var i: nat :| i < rows[row].count && rows[row].levels[i].price == p;
    PriceIsLive(rows, contents, row, i, rows[row].levels[i], c.maxQty);
  }

  /** The price of a live order of the row is the price of a level in use. */
  lemma LiveHasLevel(rows: seq<BookSide>, contents: map<nat, Location>, row: nat, p: int)
    requires Linked(rows, contents) && row < |rows| && rows[row].count <= |rows[row].levels| &&
             p in PricesOf(Abs(rows, contents), row)
    ensures p in LevelPrices(rows[row].levels, rows[row].count)
  {
    var ref :| ref in Abs(rows, contents).live && Key(Abs(rows, contents).live[ref]).0 == row &&
      Abs(rows, contents).live[ref].price == p;
    var loc := contents[ref];
    assert Live(rows, loc);
    assert rows[row].levels[loc.level].price == p;
  }
}
