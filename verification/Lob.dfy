/** The limit order book engine: every message handler, run against the level
    arrays and the order index, does to the plain book exactly what `Step` says. */
module Lob {
  import opened Folding
  import opened OrderIndex
  import opened PriceLevels
  import opened BookState
  import opened PlainBook

  const INT64_MAX: int := 0x7FFF_FFFF_FFFF_FFFF

  /** Slots per level and the quantity bound (16 and 10^9 in the source) keep a level's
      total far below 2^63. */
  predicate InRange(c: Limits) {
    0 < c.slots <= 0x10_0000 && 0 < c.maxQty <= 0x100_0000_0000
  }

  // ----- Searching one side -----

  /** Binary search of the sorted levels. */
  method FindLevel(side: nat, b: BookSide, price: int) returns (i: int)
    requires Sorted(side, b)
    ensures -1 <= i < b.count
    ensures i >= 0 ==> b.levels[i].price == price
    ensures i == -1 ==> NoLevel(b, price)
  {
    var low, high := 0, b.count - 1;
    while low <= high
      invariant 0 <= low <= high + 1 <= b.count
      invariant forall k :: 0 <= k < low ==> Better(side, b.levels[k].price, price)
      invariant forall k :: high < k < b.count ==> Better(side, price, b.levels[k].price)
    {
      var mid := low + (high - low) / 2;
      if b.levels[mid].price == price {
        return mid;
      }
      if Better(side, price, b.levels[mid].price) {
        high := mid - 1;
      } else {
        low := mid + 1;
      }
    }
    return -1;
  }

  /** Where a new price belongs: before the first worse level. */
  method InsertPos(side: nat, b: BookSide, price: int) returns (pos: nat)
    requires Sorted(side, b) && NoLevel(b, price)
    ensures SortedAt(side, b, pos, price)
  {
    pos := 0;
    while pos < b.count && !Better(side, price, b.levels[pos].price)
      invariant pos <= b.count
      invariant forall k :: 0 <= k < pos ==> Better(side, b.levels[k].price, price)
    {
      pos := pos + 1;
    }
  }

  // ----- Rewriting index entries after a shift -----

  /** The target entry of `ref` lies at or after the scan position and its slot holds `ref`. */
  ghost predicate Pending(levels: seq<PriceLevel>, ref: nat, loc: Location, at: Location, last: int) {
    loc.symbol == at.symbol && loc.side == at.side &&
    (at.level < loc.level || (at.level == loc.level && at.slot <= loc.slot)) &&
    loc.level <= last && loc.level < |levels| && loc.slot < |levels[loc.level].orders| &&
    levels[loc.level].orders[loc.slot].active && levels[loc.level].orders[loc.slot].orderId == ref
  }

  /** Every entry is already right or still ahead of the scan. */
  ghost predicate Scanning(levels: seq<PriceLevel>, contents: map<nat, Location>, target: map<nat, Location>,
                           at: Location, last: int)
  {
    contents.Keys == target.Keys &&
    forall ref :: ref in contents ==> contents[ref] == target[ref] || Pending(levels, ref, target[ref], at, last)
  }

  /** Each active slot of the scanned levels has its own position as target. */
  ghost predicate Targets(levels: seq<PriceLevel>, target: map<nat, Location>, sym: nat, side: nat, first: nat,
      last: int) {
    last < |levels| &&
    forall lv, s :: first <= lv <= last && 0 <= s < |levels[lv].orders| && levels[lv].orders[s].active ==>
      levels[lv].orders[s].orderId in target && target[levels[lv].orders[s].orderId] == Location(sym, side, lv, s)
  }

  lemma InsertReaches(c: Limits, rows: seq<BookSide>, contents: map<nat, Location>, sym: nat, side: nat, pos: nat,
      b: BookSide, moved: seq<PriceLevel>, target: map<nat, Location>)
    requires BookOk(c, rows, contents) && side <= 1 && 2 * sym + side < |rows|
    requires b == rows[2 * sym + side] && pos < b.count < |b.levels|
    requires moved == b.levels[..pos + 1] + b.levels[pos..b.count] + b.levels[b.count + 1..]
    requires target == BumpedAll(contents, 2 * sym + side, pos)
    ensures Targets(moved, target, sym, side, pos + 1, b.count)
  {
    OpenLinks(c, rows, contents);
    forall lv, s | pos + 1 <= lv <= b.count && 0 <= s < |moved[lv].orders| && moved[lv].orders[s].active
      ensures moved[lv].orders[s].orderId in target && target[moved[lv].orders[s].orderId] == Location(sym, side, lv, s)
    {
      assert moved[lv] == b.levels[lv - 1];
      assert Live(rows, Location(sym, side, lv - 1, s));
    }
  }

  lemma InsertTargets(c: Limits, rows: seq<BookSide>, contents: map<nat, Location>, sym: nat, side: nat, pos: nat,
      b: BookSide, moved: seq<PriceLevel>, target: map<nat, Location>)
    requires BookOk(c, rows, contents) && side <= 1 && 2 * sym + side < |rows|
    requires b == rows[2 * sym + side] && pos < b.count < |b.levels|
    requires moved == b.levels[..pos + 1] + b.levels[pos..b.count] + b.levels[b.count + 1..]
    requires target == BumpedAll(contents, 2 * sym + side, pos)
    ensures Targets(moved, target, sym, side, pos + 1, b.count)
    ensures Scanning(moved, contents, target, Location(sym, side, pos + 1, 0), b.count)
  {
    InsertReaches(c, rows, contents, sym, side, pos, b, moved, target);
    OpenLinks(c, rows, contents);
    forall ref | ref in contents && contents[ref] != target[ref]
      ensures Pending(moved, ref, target[ref], Location(sym, side, pos + 1, 0), b.count)
    {
      var loc := contents[ref];
      assert Live(rows, loc);
      assert moved[loc.level + 1] == b.levels[loc.level];
    }
  }

  lemma DeleteTargets(c: Limits, rows: seq<BookSide>, contents: map<nat, Location>, sym: nat, side: nat, pos: nat,
      b: BookSide, moved: seq<PriceLevel>, target: map<nat, Location>)
    requires BookOk(c, rows, contents) && side <= 1 && 2 * sym + side < |rows|
    requires b == rows[2 * sym + side] && pos < b.count <= |b.levels| && |moved| == |b.levels|
    requires forall lv :: pos <= lv < b.count - 1 ==> moved[lv] == b.levels[lv + 1]
    requires target == LoweredAll(contents, 2 * sym + side, pos)
    ensures Targets(moved, target, sym, side, pos, b.count - 2)
  {
    OpenLinks(c, rows, contents);
    forall lv, s | pos <= lv <= b.count - 2 && 0 <= s < |moved[lv].orders| && moved[lv].orders[s].active
      ensures moved[lv].orders[s].orderId in target && target[moved[lv].orders[s].orderId] == Location(sym, side, lv, s)
    {
      assert Live(rows, Location(sym, side, lv + 1, s));
    }
  }

  lemma DeleteScanning(c: Limits, rows: seq<BookSide>, contents: map<nat, Location>, sym: nat, side: nat, pos: nat,
      b: BookSide, moved: seq<PriceLevel>, target: map<nat, Location>)
    requires BookOk(c, rows, contents) && side <= 1 && 2 * sym + side < |rows|
    requires b == rows[2 * sym + side] && pos < b.count <= |b.levels| && |moved| == |b.levels|
    requires forall lv :: pos <= lv < b.count - 1 ==> moved[lv] == b.levels[lv + 1]
    requires target == LoweredAll(contents, 2 * sym + side, pos)
    ensures Scanning(moved, contents, target, Location(sym, side, pos, 0), b.count - 2)
  {
    OpenLinks(c, rows, contents);
    forall ref | ref in contents && contents[ref] != target[ref]
      ensures Pending(moved, ref, target[ref], Location(sym, side, pos, 0), b.count - 2)
    {
      var loc := contents[ref];
      assert Live(rows, loc);
      assert moved[loc.level - 1] == b.levels[loc.level];
    }
  }

  /** Writing the entry of the slot under the scan moves the scan past it. */
  lemma ScanSlot(levels: seq<PriceLevel>, contents: map<nat, Location>, target: map<nat, Location>,
                 at: Location, last: int, contents': map<nat, Location>)
    requires Scanning(levels, contents, target, at, last) && at.level <= last < |levels|
    requires at.slot < |levels[at.level].orders|
    requires var o := levels[at.level].orders[at.slot];
             if o.active then o.orderId in target && target[o.orderId] == at && contents' == contents[o.orderId := at]
             else contents' == contents
    ensures Scanning(levels, contents', target, at.(slot := at.slot + 1), last)
  {
  }

  /** Past the last slot of a level the scan is at the next level. */
  lemma ScanLevel(levels: seq<PriceLevel>, contents: map<nat, Location>, target: map<nat, Location>, at: Location,
      last: int)
    requires Scanning(levels, contents, target, at, last) && at.level <= last < |levels|
    requires at.slot == |levels[at.level].orders|
    ensures Scanning(levels, contents, target, at.(level := at.level + 1, slot := 0), last)
  {
  }

  /** Past the last level every entry is right. */
  lemma ScanDone(levels: seq<PriceLevel>, contents: map<nat, Location>, target: map<nat, Location>, at: Location,
      last: int)
    requires Scanning(levels, contents, target, at, last) && last < at.level
    ensures contents == target
  {
  }

  /** The inner loop: one level. */
  method RefreshLevel(index: OrderRefMap, levels: seq<PriceLevel>, sym: nat, side: nat, lv: nat, ghost last: int,
                      ghost target: map<nat, Location>)
    requires index.Valid() && lv <= last && Targets(levels, target, sym, side, lv, last)
    requires Scanning(levels, index.contents, target, Location(sym, side, lv, 0), last)
    modifies index`contents, index.values
    ensures index.Valid() && Scanning(levels, index.contents, target, Location(sym, side, lv + 1, 0), last)
  {
    var at := Location(sym, side, lv, 0);
    while at.slot < |levels[lv].orders|
      invariant at == Location(sym, side, lv, at.slot) && at.slot <= |levels[lv].orders|
      invariant index.Valid()
      invariant Scanning(levels, index.contents, target, at, last)
    {
      ghost var before := index.contents;
      if levels[lv].orders[at.slot].active {
        var ref := levels[lv].orders[at.slot].orderId;
        var entry := index.Lookup(ref);
        index.SetLocation(ref, entry, at);
      }
      ScanSlot(levels, before, target, at, last, index.contents);
      at := at.(slot := at.slot + 1);
    }
    ScanLevel(levels, index.contents, target, at, last);
  }

  /** Points the index entry of every active slot in levels first..last at that slot. */
  method RefreshLevelLocations(index: OrderRefMap, levels: seq<PriceLevel>, sym: nat, side: nat, first: nat, last: int,
                               ghost target: map<nat, Location>)
    requires index.Valid() && first <= last + 1
    requires Targets(levels, target, sym, side, first, last)
    requires Scanning(levels, index.contents, target, Location(sym, side, first, 0), last)
    modifies index`contents, index.values
    ensures index.Valid() && index.contents == target
  {
    var lv := first;
    ghost var at := Location(sym, side, first, 0);
    while lv <= last
      invariant first <= lv <= last + 1 && at == Location(sym, side, lv, 0)
      invariant index.Valid()
      invariant Scanning(levels, index.contents, target, at, last)
    {
      RefreshLevel(index, levels, sym, side, lv, last, target);
      lv := lv + 1;
      at := Location(sym, side, lv, 0);
    }
    ScanDone(levels, index.contents, target, at, last);
  }

  class Engine {
    const c: Limits
    const rows: array<BookSide>
    const index: OrderRefMap

    /** The arrays and the index agree; levels may still be empty in mid-operation. */
    ghost predicate Sound()
      reads rows, index, index.keys, index.values
    {
      index.Valid() && index.g.symbols == c.symbols && index.g.levels == c.levels && index.g.slots == c.slots &&
      InRange(c) &&
      BookOk(c, rows[..], index.contents)
    }

    ghost predicate Valid()
      reads rows, index, index.keys, index.values
    {
      Sound() && Populated(rows[..], -1, -1)
    }

    /** The plain book this engine stands for. */
    ghost function Contents(): Book
      requires Sound()
      reads rows, index, index.keys, index.values
    {
      Abs(rows[..], index.contents)
    }

    /** Arena memory starts zeroed: a head of 0 rather than -1, harmless because no level is in use. */
    constructor (c: Limits, g: Geometry)
      requires g.Valid() && g.symbols == c.symbols && g.levels == c.levels && g.slots == c.slots
      requires InRange(c)
      ensures Valid() && this.c == c && index.g == g && fresh(rows) && fresh(index) && fresh(index.keys) &&
              fresh(index.values)
      ensures Contents().live == map[] && index.keys[..] == Blank(g.capacity) &&
              forall k :: k in Contents().queues ==> Contents().queues[k] == []
      ensures Consistent(Contents())
    {
      this.c := c;
      var zeroed := PriceLevel(seq(c.slots, _ => OrderSlot(0, 0, false, false, 0, 0)), 0, 0, 0, 0);
      rows := new BookSide[2 * c.symbols](_ => BookSide(seq(c.levels, _ => zeroed), 0));
      index := new OrderRefMap(g);
      new;
      EmptyBook(c, rows[..], zeroed);
    }

    method WriteRow(row: nat, b: BookSide, ghost was: seq<BookSide>)
      requires was == rows[..] && row < rows.Length
      modifies rows
      ensures rows[..] == was[row := b]
    {
      rows[row] := b;
    }

    /** memmove by one, index refresh and reset of the opened level. */
    method OpenLevel(sym: nat, side: nat, pos: nat, price: int, ghost was: seq<BookSide>, ghost row: nat,
                     ghost target: map<nat, Location>)
      requires was == rows[..] && row == 2 * sym + side < rows.Length && side <= 1
      requires index.Valid() && BookOk(c, was, index.contents) && pos <= was[row].count < |was[row].levels|
      requires target == BumpedAll(index.contents, row, pos)
      modifies rows, index`contents, index.values
      ensures rows[..] == was[row := Inserted(was[row], pos, EmptyLevel(c.slots, price))]
      ensures index.Valid() && index.contents == target
    {
      var r := 2 * sym + side;
      var b := rows[r];
      if pos < b.count {
        var moved := b.levels[..pos + 1] + b.levels[pos..b.count] + b.levels[b.count + 1..];
        InsertTargets(c, was, index.contents, sym, side, pos, b, moved, target);
        RefreshLevelLocations(index, moved, sym, side, pos + 1, b.count, target);
        b := b.(levels := moved);
      } else {
        LastBump(c, was, index.contents, row, pos);
      }
      MoveIsInsert(was[row], pos, EmptyLevel(c.slots, price));
      WriteRow(r, BookSide(b.levels[pos := EmptyLevel(c.slots, price)], b.count + 1), was);
    }

    /** Opens a level at the sorted position of a price that has none. */
    method OpenSorted(sym: nat, side: nat, price: int, ghost row: nat) returns (i: nat)
      requires Valid() && row == 2 * sym + side < rows.Length && side <= 1 && NoLevel(rows[row], price)
      requires rows[row].count < c.levels
      modifies rows, index`contents, index.values
      ensures Sound() && Contents() == old(Contents()) && index.contents.Keys == old(index.contents).Keys
      ensures i < rows[row].count <= |rows[row].levels| && Populated(rows[..], row, i) &&
              rows[row].levels[i] == EmptyLevel(c.slots, price)
    {
      ghost var was, had := rows[..], index.contents;
      var b := rows[2 * sym + side];
      SortedRow(c, was, had, row, side, b);
      i := InsertPos(side, b, price);
      OpenLevel(sym, side, i, price, was, row, BumpedAll(had, row, i));
      InsertKeepsBook(c, was, had, row, i, price, rows[..], index.contents);
      InsertKeepsPopulated(was, row, b, i, EmptyLevel(c.slots, price));
    }

    /** Opens a level for a price that has none, or refuses at full depth. */
    method InsertLevel(sym: nat, side: nat, price: int, ghost row: nat) returns (i: int)
      requires Valid() && row == 2 * sym + side < rows.Length && side <= 1 && NoLevel(rows[row], price)
      modifies rows, index`contents, index.values
      ensures Sound() && Contents() == old(Contents()) && index.contents.Keys == old(index.contents).Keys
      ensures -1 <= i && (i == -1 <==> old(rows[row].count) == c.levels)
      ensures i == -1 ==> Valid()
      ensures i >= 0 ==> i < rows[row].count <= |rows[row].levels| && Populated(rows[..], row, i)
      ensures i >= 0 ==> rows[row].levels[i] == EmptyLevel(c.slots, price)
    {
      SortedRow(c, rows[..], index.contents, row, side, rows[row]);
      if rows[2 * sym + side].count >= c.levels {
        return -1;
      }
      i := OpenSorted(sym, side, price, row);
    }

    /** memmove by one the other way, index refresh and reset of the vacated level. */
    method CloseLevel(sym: nat, side: nat, pos: nat, ghost was: seq<BookSide>, ghost row: nat,
        ghost target: map<nat, Location>)
      requires was == rows[..] && row == 2 * sym + side < rows.Length && side <= 1
      requires index.Valid() && BookOk(c, was, index.contents) && pos < was[row].count <= |was[row].levels|
      requires target == LoweredAll(index.contents, row, pos)
      modifies rows, index`contents, index.values
      ensures rows[..] == was[row := Deleted(was[row], pos, EmptyLevel(c.slots, 0))]
      ensures index.Valid() && index.contents == target
    {
      var b := rows[2 * sym + side];
      var levels := MoveDown(sym, side, pos, b, was, row, target);
      ClosedSide(b, pos, EmptyLevel(c.slots, 0), levels);
      WriteRow(2 * sym + side, BookSide(levels[b.count - 1 := EmptyLevel(c.slots, 0)], b.count - 1), was);
    }

    /** The levels behind the closed one move up by one, and the index follows. */
    method MoveDown(sym: nat, side: nat, pos: nat, b: BookSide, ghost was: seq<BookSide>, ghost row: nat,
        ghost target: map<nat, Location>) returns (levels: seq<PriceLevel>)
      requires row == 2 * sym + side < |was| && side <= 1 && b == was[row]
      requires index.Valid() && BookOk(c, was, index.contents) && pos < b.count <= |b.levels|
      requires target == LoweredAll(index.contents, row, pos)
      modifies index`contents, index.values
      ensures index.Valid() && index.contents == target
      ensures levels == if pos < b.count - 1
                        then b.levels[..pos] + b.levels[pos + 1..b.count] + b.levels[b.count - 1..] else b.levels
    {
      if pos < b.count - 1 {
        levels := b.levels[..pos] + b.levels[pos + 1..b.count] + b.levels[b.count - 1..];
        MovedUp(b, pos, levels);
        DeleteTargets(c, was, index.contents, sym, side, pos, b, levels, target);
        DeleteScanning(c, was, index.contents, sym, side, pos, b, levels, target);
        RefreshLevelLocations(index, levels, sym, side, pos, b.count - 2, target);
      } else {
        levels := b.levels;
        LastLower(c, was, index.contents, row, pos);
      }
    }

    /** Writes one level of one row. */
    method WriteLevel(row: nat, i: nat, l: PriceLevel, ghost was: seq<BookSide>)
      requires was == rows[..] && row < rows.Length && i < |rows[row].levels|
      modifies rows
      ensures rows[..] == was[row := WithLevel(was[row], i, l)]
    {
      rows[row] := rows[row].(levels := rows[row].levels[i := l]);
    }

    /** Writes the level with the new order, registers the order, and writes the level
        without it again when the index refuses. */
    method Commit(loc: Location, ref: nat, placed: PriceLevel, undone: PriceLevel, ghost was: seq<BookSide>)
        returns (ok: bool)
      requires index.Valid() && was == rows[..] && index.g.Holds(loc) && ref !in index.contents
      requires Row(loc) < |was| && loc.level < |was[Row(loc)].levels|
      modifies rows, index, index.keys, index.values
      ensures index.Valid() && ok == old(index.Room(ref)) && index.keys[..] == Entered(ref, ok, old(index.keys[..]))
      ensures index.contents == if ok then old(index.contents)[ref := loc] else old(index.contents)
      ensures rows[..] == SetLevel(was, loc, if ok then placed else undone)
    {
      var row := 2 * loc.symbol + loc.side;
      WriteLevel(row, loc.level, placed, was);
      ok := index.Insert(ref, loc);
      if !ok {
        WriteLevel(row, loc.level, undone, rows[..]);
        SetTwice(was, loc, placed, undone);
      }
    }

    /** Tries a new order in a free slot. */
    method Place(lvl: PriceLevel, loc: Location, ref: nat, qty: int, ghost was: seq<BookSide>,
        ghost had: map<nat, Location>)
      returns (ok: bool)
      requires Sound() && was == rows[..] && had == index.contents && ref !in had && 0 < qty <= c.maxQty
      requires InBook(was, loc) && !Live(was, loc) && lvl == was[Row(loc)].levels[loc.level] && index.g.Holds(loc)
      modifies rows, index, index.keys, index.values
      ensures Sound() && ok == old(index.Room(ref)) && index.keys[..] == Entered(ref, ok, old(index.keys[..]))
      ensures Contents() == if ok then Added(Abs(was, had), ref, Order(loc.symbol, loc.side, lvl.price, qty))
              else Abs(was, had)
      ensures exists l :: rows[..] == SetLevel(was, loc, l) && l.orderCount == lvl.orderCount + if ok then 1 else 0
    {
      var placed := PlaceOn(c, lvl, loc, ref, qty, was, had);
      var undone := UndoOn(c, lvl, placed, loc, ref, qty, was, had);
      ok := Commit(loc, ref, placed, undone, was);
    }

    /** Tries a new order on an existing level, dropping the level again if it stays empty. */
    method PlaceAt(sym: nat, side: nat, i: nat, ref: nat, qty: int, ghost row: nat, ghost b: Book) returns (ok: bool)
      requires Sound() && b == Contents() && row == 2 * sym + side < rows.Length && side <= 1 &&
               i < rows[row].count <= |rows[row].levels|
      requires Populated(rows[..], row, i) && ref !in index.contents && 0 < qty <= c.maxQty
      modifies rows, index, index.keys, index.values
      ensures Valid() && ok == (|RestingAt(old(rows[row].levels[i]))| < c.slots && old(index.Room(ref))) &&
              index.keys[..] == Entered(ref, ok, old(index.keys[..]))
      ensures Contents() == if ok then Added(b, ref, Order(sym, side, old(rows[row].levels[i].price), qty)) else b
    {
      ghost var was, had := rows[..], index.contents;
      var lvl := rows[2 * sym + side].levels[i];
      var slot := FindSlot(c, lvl, was, had, row, i);
      if slot == NONE {
        PopulatedAgain(was, row, i);
        return false;
      }
      var loc := Location(sym, side, i, slot);
      ok := Place(lvl, loc, ref, qty, was, had);
      ghost var l :| rows[..] == SetLevel(was, loc, l) && l.orderCount == lvl.orderCount + if ok then 1 else 0;
      PopulatedLevel(was, row, loc, l);
      if !ok {
        RemoveLevelIfEmpty(sym, side, i, row);
      }
    }

    /** Finds or opens the level of a price and tries the order there: the shared body of
        add and of the second half of replace. */
    method AddOrder(sym: nat, side: nat, price: int, ref: nat, qty: int, ghost row: nat, ghost b: Book)
        returns (ok: bool)
      requires Valid() && b == Contents() && row == 2 * sym + side < rows.Length && side <= 1
      requires ref !in index.contents && 0 < qty <= c.maxQty
      modifies rows, index, index.keys, index.values
      ensures Valid() && index.keys[..] == Entered(ref, ok, old(index.keys[..]))
      ensures ok == (Fits(c, b, (row, price)) && old(index.Room(ref)))
      ensures Contents() == if ok then Added(b, ref, Order(sym, side, price, qty)) else b
    {
      ghost var was, had := rows[..], index.contents;
      SortedRow(c, was, had, row, side, was[row]);
      var i := FindLevel(side, rows[2 * sym + side], price);
      FitsLevel(c, was, had, row, i, price);
      if i < 0 {
        i := InsertLevel(sym, side, price, row);
        if i < 0 {
          return false;
        }
        EmptyOk(c.slots, price, c.maxQty);
      } else {
        PopulatedStill(was, row, i);
      }
      ok := PlaceAt(sym, side, i, ref, qty, row, b);
    }

    /** Looks an order up and checks its location; the check never fails for an indexed order. */
    method FindOrder(ref: nat) returns (found: bool, loc: Location)
      requires Sound()
      ensures found <==> ref in index.contents
      ensures found ==> loc == index.contents[ref] && Live(rows[..], loc) && SlotAt(rows[..], loc).orderId == ref
      ensures found ==> loc.side <= 1 && loc.symbol < c.symbols
    {
      var entry := index.Lookup(ref);
      if entry == -1 {
        return false, Location(0, 0, 0, 0);
      }
      loc := index.values[entry];
      LocationValid(c, rows[..], index.contents, ref, loc);
      found := ValidLocation(c, rows[2 * loc.symbol + loc.side], ref, loc);
    }

    /** Writes the level without the order, forgets the order and closes the level if empty. */
    method TakeOut(ref: nat, loc: Location, l: PriceLevel, ghost was: seq<BookSide>, ghost had: map<nat, Location>)
      requires Valid() && was == rows[..] && had == index.contents && ref in had && loc == had[ref] && Live(was, loc)
      requires Gone(c, was, had, loc, l, ref)
      modifies rows, index, index.keys, index.values
      ensures Valid() && Contents() == Removed(Abs(was, had), ref)
      ensures index.contents.Keys == had.Keys - {ref} && index.count == old(index.count) - 1
      ensures KeepsEmpty(old(index.keys[..]), index.keys[..]) && index.keys[..] == Erased(old(index.keys[..]), ref)
    {
      Strike(ref, loc, l, was, had);
      RemoveLevelIfEmpty(loc.symbol, loc.side, loc.level, Row(loc));
    }

    /** Writes the level without the order and forgets the order; the level may now be empty. */
    method Strike(ref: nat, loc: Location, l: PriceLevel, ghost was: seq<BookSide>, ghost had: map<nat, Location>)
      requires Valid() && was == rows[..] && had == index.contents && ref in had && loc == had[ref] && Live(was, loc)
      requires Gone(c, was, had, loc, l, ref)
      modifies rows, index, index.keys, index.values
      ensures Sound() && Contents() == Removed(Abs(was, had), ref) && rows[..] == SetLevel(was, loc, l) &&
              Populated(rows[..], Row(loc), loc.level)
      ensures index.contents.Keys == had.Keys - {ref} && index.count == old(index.count) - 1
      ensures KeepsEmpty(old(index.keys[..]), index.keys[..]) && index.keys[..] == Erased(old(index.keys[..]), ref)
    {
      PopulatedStill(was, Row(loc), loc.level);
      PopulatedLevel(was, Row(loc), loc, l);
      PutLevel(loc, l, was);
      index.Remove(ref);
    }

    /** Execute and cancel: take up to `qty` from an order; unknown references are ignored. */
    method Reduce(ref: nat, qty: int)
      requires Valid() && 0 < qty
      modifies rows, index, index.keys, index.values
      ensures Valid() && index.keys[..] == Left(ref, old(index.keys[..]), old(Contents()))
      ensures Contents() == if ref in old(Contents()).live then Reduced(old(Contents()), ref, qty) else old(Contents())
    {
      ghost var was, had := rows[..], index.contents;
      LiveKeys(c, was, had, ref);
      var found, loc := FindOrder(ref);
      if found {
        ReduceAt(ref, loc, rows[2 * loc.symbol + loc.side].levels[loc.level], qty, was, had, Contents());
      }
    }

    method ReduceAt(ref: nat, loc: Location, lvl: PriceLevel, qty: int, ghost was: seq<BookSide>,
        ghost had: map<nat, Location>, ghost b: Book)
      requires Valid() && was == rows[..] && had == index.contents && ref in had && loc == had[ref] && Live(was, loc) &&
               lvl == was[Row(loc)].levels[loc.level]
      requires 0 < qty && b == Abs(was, had) && ref in b.live && Key(b.live[ref]) in b.queues
      modifies rows, index, index.keys, index.values
      ensures Valid() && Contents() == Reduced(b, ref, qty)
      ensures index.keys[..] == if ref in Reduced(b, ref, qty).live then old(index.keys[..])
              else Erased(old(index.keys[..]), ref)
    {
      ghost var smaller := Reduced(b, ref, qty);
      assert (ref in smaller.live <==> qty < SlotAt(was, loc).qty) &&
             (qty >= SlotAt(was, loc).qty ==> smaller == Removed(b, ref)) by {
        LiveKeys(c, was, had, ref);
        ReducedLive(b, ref, qty);
      }
      var l, gone := ShrinkOn(c, lvl, loc, ref, qty, was, had);
      if gone {
        TakeOut(ref, loc, l, was, had);
      } else {
        Shave(ref, loc, qty, l, was, had);
      }
    }

    /** Writes the level with a smaller order. */
    method Shave(ref: nat, loc: Location, qty: int, l: PriceLevel, ghost was: seq<BookSide>,
        ghost had: map<nat, Location>)
      requires Valid() && was == rows[..] && had == index.contents && InBook(was, loc) &&
               Smaller(c, was, had, loc, l, ref, qty)
      modifies rows
      ensures Valid() && Contents() == Reduced(Abs(was, had), ref, qty)
    {
      ghost var b := Reduced(Abs(was, had), ref, qty);
      PopulatedStill(was, Row(loc), loc.level);
      PopulatedLevel(was, Row(loc), loc, l);
      PutLevel(loc, l, was);
      assert Abs(rows[..], had) == b;
    }

    /** Writes the level at a location. */
    method PutLevel(loc: Location, l: PriceLevel, ghost was: seq<BookSide>)
      requires was == rows[..] && InBook(was, loc) && index.Valid()
      modifies rows
      ensures rows[..] == SetLevel(was, loc, l) && index.Valid()
    {
      WriteLevel(2 * loc.symbol + loc.side, loc.level, l, was);
    }

    /** Delete: remove an order outright; unknown references are ignored. */
    method Delete(ref: nat)
      requires Valid()
      modifies rows, index, index.keys, index.values
      ensures Valid() && index.keys[..] == Left(ref, old(index.keys[..]), old(Contents()))
      ensures Contents() == if ref in old(Contents()).live then Removed(old(Contents()), ref) else old(Contents())
    {
      ghost var was, had := rows[..], index.contents;
      LiveKeys(c, was, had, ref);
      var found, loc := FindOrder(ref);
      if !found {
        return;
      }
      var l := CutOn(c, rows[2 * loc.symbol + loc.side].levels[loc.level], loc, ref, was, had);
      TakeOut(ref, loc, l, was, had);
    }

    /** Removes an order and answers whether a pre-flighted reference still has room. */
    method Vacate(ref: nat, loc: Location, newRef: nat, ghost b: Book)
      requires Valid() && b == Contents() && ref in index.contents && loc == index.contents[ref] && Live(rows[..], loc)
      requires index.Preflight(newRef)
      modifies rows, index, index.keys, index.values
      ensures Valid() && ref in b.live && Key(b.live[ref]) in b.queues
      ensures b.live[ref].symbol == loc.symbol && b.live[ref].side == loc.side
      ensures Contents() == Removed(b, ref) && newRef !in index.contents && index.Room(newRef) &&
              index.keys[..] == Erased(old(index.keys[..]), ref)
    {
      ghost var keys, was, had := index.keys[..], rows[..], index.contents;
      LiveKeys(c, was, had, ref);
      var l := CutOn(c, rows[2 * loc.symbol + loc.side].levels[loc.level], loc, ref, was, had);
      TakeOut(ref, loc, l, was, had);
      PreflightSurvives(index.g, keys, index.keys[..], newRef);
    }

    /** The second half of replace, once the original is found and the index pre-flighted. */
    method Swap(ref: nat, loc: Location, newRef: nat, price: int, qty: int, ghost b: Book)
      requires Valid() && b == Contents() && ref in index.contents && loc == index.contents[ref] && Live(rows[..], loc)
      requires index.Preflight(newRef) && 0 < qty <= c.maxQty
      modifies rows, index, index.keys, index.values
      ensures Valid() && Contents() == Replaced(c, b, ref, newRef, price, qty, true) && ref !in Contents().live
      ensures index.keys[..] == Entered(newRef, newRef in Contents().live, Erased(old(index.keys[..]), ref))
    {
      Vacate(ref, loc, newRef, b);
      ghost var between := Contents();
      var ok := Resubmit(loc.symbol, loc.side, price, newRef, qty);
      ReplacedIs(c, b, ref, newRef, Order(loc.symbol, loc.side, price, qty), between, ok);
    }

    /** Tries the new order of a replace; the index has room for it. */
    method Resubmit(sym: nat, side: nat, price: int, ref: nat, qty: int) returns (ok: bool)
      requires Valid() && sym < c.symbols && side <= 1 && ref !in index.contents && index.Room(ref) &&
               0 < qty <= c.maxQty
      modifies rows, index, index.keys, index.values
      ensures Valid() && Key(Order(sym, side, price, qty)) in old(Contents()).queues
      ensures ok == Fits(c, old(Contents()), Key(Order(sym, side, price, qty))) &&
              index.keys[..] == Entered(ref, ok, old(index.keys[..]))
      ensures Contents() == if ok then Added(old(Contents()), ref, Order(sym, side, price, qty)) else old(Contents())
    {
      ghost var row := 2 * sym + side;
      assert Key(Order(sym, side, price, qty)) == (row, price);
      ok := AddOrder(sym, side, price, ref, qty, row, Contents());
    }

    /** The slots of the index once a new reference was entered, or not. */
    ghost function Entered(ref: nat, ok: bool, keys: seq<nat>): seq<nat>
      requires index.g.Valid() && |keys| == index.g.capacity
    {
      if ok then WithKey(index.g, keys, ref) else keys
    }

    /** The slots of the index now, for an order that was live in `b` and may have left. */
    ghost function Left(ref: nat, keys: seq<nat>, b: Book): seq<nat>
      requires Sound()
      reads rows, index, index.keys, index.values
    {
      if ref in b.live && ref !in Contents().live then Erased(keys, ref) else keys
    }

    /** The live map and the queues agree. */
    lemma AlwaysConsistent()
      requires Sound()
      ensures Consistent(Contents())
    {
      ConsistentBook(c, rows[..], index.contents);
    }

    /** No queue exceeds a level, and no side has more prices than levels. */
    lemma Bounds(row: nat, price: int)
      requires Valid() && row < rows.Length
      ensures (row, price) in Contents().queues && |Contents().queues[(row, price)]| <= c.slots
      ensures |PricesOf(Contents(), row)| <= c.levels
    {
      SortedRow(c, rows[..], index.contents, row, row % 2, rows[row]);
      OpenPopulated(rows[..], row);
      CountIsDepth(c, rows[..], index.contents, row);
      if i :| 0 <= i < rows[row].count && rows[row].levels[i].price == price {
        LevelQueue(c, rows[..], index.contents, row, i, price, rows[row].levels[i]);
        LevelFits(c, rows[..], index.contents, row, i, rows[row].levels[i]);
      }
    }

    /** When a replace keeps the order, for the book of any engine. */
    lemma ReplaceOutcome(ref: nat, newRef: nat, price: int, qty: int)
      requires Valid() && ref in Contents().live && newRef !in Contents().live
      ensures Key(Contents().live[ref]) in Contents().queues &&
              (Key(Contents().live[ref]).0, price) in Contents().queues
      ensures ref !in Replaced(c, Contents(), ref, newRef, price, qty, true).live
      ensures newRef in Replaced(c, Contents(), ref, newRef, price, qty, true).live <==>
                ReplaceFits(c, Contents(), ref, price)
    {
      LiveKeys(c, rows[..], index.contents, ref);
      AlwaysConsistent();
      var (row, was) := Key(Contents().live[ref]);
      Bounds(row, was);
      Bounds(row, price);
      ReplaceKeepsIff(c, Contents(), ref, newRef, price, qty);
    }

    /** Replace: the original leaves, then the new order is tried on the same side. The
        pre-flight covers only the index, so a full level or full depth loses the original. */
    method Replace(ref: nat, newRef: nat, price: int, qty: int)
      requires Valid() && newRef != ref && 0 < qty <= c.maxQty
      modifies rows, index, index.keys, index.values
      ensures Valid()
      ensures Contents() == Replaced(c, old(Contents()), ref, newRef, price, qty, old(index.Preflight(newRef)))
      ensures index.keys[..] ==
              if old(ref in Contents().live && index.Preflight(newRef))
              then Entered(newRef, newRef in Contents().live, Erased(old(index.keys[..]), ref))
              else old(index.keys[..])
      ensures old(ref in Contents().live && index.Preflight(newRef)) ==>
                ref !in Contents().live && Key(old(Contents()).live[ref]) in old(Contents()).queues &&
                (Key(old(Contents()).live[ref]).0, price) in old(Contents()).queues &&
                (newRef in Contents().live <==> ReplaceFits(c, old(Contents()), ref, price))
    {
      LiveKeys(c, rows[..], index.contents, ref);
      LiveKeys(c, rows[..], index.contents, newRef);
      if ref in Contents().live && index.Preflight(newRef) {
        ReplaceOutcome(ref, newRef, price, qty);
      }
      var found, loc := FindOrder(ref);
      if !found {
        return;
      }
      var can := index.CanInsert(newRef);
      if !can {
        return;
      }
      Swap(ref, loc, newRef, price, qty, Contents());
    }

    /** Any message. `room` reports what the order index said about a new reference; the clauses by
        kind say in plain terms what becomes of the book, and `Step` says it as a function. */
    method Process(t: Tick) returns (ghost room: bool)
      requires Valid()
      modifies rows, index, index.keys, index.values
      ensures Valid() && Contents() == Step(c, old(Contents()), t, room)
      ensures t.kind.Execute? || t.kind.Cancel? ==> Shrinks(c, t, old(Contents()), Contents())
      ensures t.kind.Delete? ==> Leaves(c, t, old(Contents()), Contents())
      ensures t.kind.Add? ==> Joins(c, t, room, old(Contents()), Contents())
      ensures t.kind.Replace? ==> Moves(c, t, room, old(Contents()), Contents())
      ensures t.kind.Trade? || t.kind.Unsupported? ==> Contents() == old(Contents())
      ensures room == Answer(index.g, old(Contents()), old(index.keys[..]), t)
      ensures RoomIsTrue(Size(), old(Contents()), t, room, old(index.Used()))
      ensures index.keys[..] == KeysAfter(index.g, old(index.keys[..]), t, old(Contents()), Contents())
    {
      ghost var b := Contents();
      AlwaysConsistent();
      room := Dispatch(t);
      StepObeys(c, b, t, room);
    }

    /** Message dispatch. */
    method Dispatch(t: Tick) returns (ghost room: bool)
      requires Valid()
      modifies rows, index, index.keys, index.values
      ensures Valid() && Contents() == Step(c, old(Contents()), t, room)
      ensures room == Answer(index.g, old(Contents()), old(index.keys[..]), t)
      ensures RoomIsTrue(Size(), old(Contents()), t, room, old(index.Used()))
      ensures index.keys[..] == KeysAfter(index.g, old(index.keys[..]), t, old(Contents()), Contents())
    {
      Answers(t);
      room := if t.kind.Add? then index.Room(t.ref) else index.Preflight(t.matchNum);
      ghost var b, keys := Contents(), index.keys[..];
      NoKeys(index.g, keys, t, b);
      if Malformed(c, t) {
        return;
      }
      match t.kind {
        case Add =>
          OnAdd(t, Contents());
        case Execute | Cancel =>
          OnReduce(t, Contents());
        case Delete =>
          OnDelete(t, Contents());
        case Replace =>
          OnReplace(t, Contents());
        case Trade =>
      }
    }

    method OnReduce(t: Tick, ghost b: Book)
      requires Valid() && b == Contents() && !Malformed(c, t) && (t.kind.Execute? || t.kind.Cancel?)
      modifies rows, index, index.keys, index.values
      ensures Valid() && forall room :: Contents() == Step(c, b, t, room)
      ensures index.keys[..] == KeysAfter(index.g, old(index.keys[..]), t, b, Contents())
    {
      LiveKeys(c, rows[..], index.contents, t.ref);
      ghost var keys := index.keys[..];
      Reduce(t.ref, t.qty);
      KeysOnLeave(index.g, keys, t, b, Contents());
    }

    method OnDelete(t: Tick, ghost b: Book)
      requires Valid() && b == Contents() && !Malformed(c, t) && t.kind.Delete?
      modifies rows, index, index.keys, index.values
      ensures Valid() && forall room :: Contents() == Step(c, b, t, room)
      ensures index.keys[..] == KeysAfter(index.g, old(index.keys[..]), t, b, Contents())
    {
      LiveKeys(c, rows[..], index.contents, t.ref);
      ghost var keys := index.keys[..];
      Delete(t.ref);
      KeysOnLeave(index.g, keys, t, b, Contents());
    }

    method OnReplace(t: Tick, ghost b: Book)
      requires Valid() && b == Contents() && !Malformed(c, t) && t.kind.Replace?
      modifies rows, index, index.keys, index.values
      ensures Valid() && Contents() == Step(c, b, t, old(index.Preflight(t.matchNum)))
      ensures index.keys[..] == KeysAfter(index.g, old(index.keys[..]), t, b, Contents())
    {
      LiveKeys(c, rows[..], index.contents, t.ref);
      LiveKeys(c, rows[..], index.contents, t.matchNum);
      ghost var keys, pass := index.keys[..], t.ref in b.live && index.Preflight(t.matchNum);
      Replace(t.ref, t.matchNum, t.price, t.qty);
      if pass {
        KeysOnReplace(index.g, keys, t, b, Contents());
      } else {
        NoKeys(index.g, keys, t, b);
      }
    }

    /** Add: refused when the reference is already live. */
    method OnAdd(t: Tick, ghost b: Book)
      requires Valid() && b == Contents() && !Malformed(c, t) && t.kind.Add?
      modifies rows, index, index.keys, index.values
      ensures Valid() && Contents() == Step(c, b, t, old(index.Room(t.ref)))
      ensures index.keys[..] == KeysAfter(index.g, old(index.keys[..]), t, b, Contents())
    {
      var side := if t.buy then 0 else 1;
      ghost var row, o := 2 * t.symbol + side, Order(t.symbol, side, t.price, t.qty);
      AddStep(c, b, t, o);
      assert Key(o) == (row, t.price);
      LiveKeys(c, rows[..], index.contents, t.ref);
      var at := index.Lookup(t.ref);
      if at != -1 {
        return;
      }
      ghost var keys := index.keys[..];
      var ok := AddOrder(t.symbol, side, t.price, t.ref, t.qty, row, b);
      KeysOnAdd(index.g, keys, t, b, o, ok);
    }

    function Size(): IndexSize {
      IndexSize(index.g.maxEntries, index.g.maxProbe)
    }

    /** The index answers truthfully. */
    lemma Answers(t: Tick)
      requires Valid()
      ensures var room := if t.kind.Add? then index.Room(t.ref) else index.Preflight(t.matchNum);
              room == Answer(index.g, Contents(), index.keys[..], t) &&
              RoomIsTrue(Size(), Contents(), t, room, index.Used())
    {
      LiveKeys(c, rows[..], index.contents, t.matchNum);
      LiveCount(c, rows[..], index.contents);
      index.RefusalMeans(if t.kind.Add? then t.ref else t.matchNum);
    }

    /** Replays a whole feed: the book is the plain book after the same messages, with the
        answers of the index that `IndexRun` computes from its slots; they are bounded by the
        orders live and inserted. The book is consistent and keeps time priority. */
    method Replay(ticks: seq<Tick>) returns (ghost rooms: seq<bool>, ghost books: seq<Book>)
      requires Valid()
      modifies rows, index, index.keys, index.values
      ensures Valid() && |rooms| == |ticks| && Contents() == Run(c, old(Contents()), ticks, rooms)
      ensures IndexLog(rooms, index.keys[..]) ==
              IndexRun(c, index.g, old(Contents()), old(index.keys[..]), ticks)
      ensures RoomsTrue(c, Size(), old(Contents()), ticks, rooms, old(index.Used()))
      ensures index.Used() <= old(index.Used()) + Inserts(ticks)
      ensures Spacious(c, Size(), old(Contents()), ticks, old(index.Used())) ==>
                Contents() == PlainRun(c, old(Contents()), ticks)
      ensures Consistent(Contents()) && OrderKept(c, old(Contents()), ticks, rooms)
      ensures Obedient(c, ticks, rooms, books) && books[0] == old(Contents()) && books[|ticks|] == Contents()
    {
      ghost var b, used := Contents(), index.Used();
      AlwaysConsistent();
      rooms := Feed(ticks);
      AlwaysConsistent();
      if Spacious(c, Size(), b, ticks, used) {
        SpaciousRun(c, Size(), b, ticks, rooms, used);
      }
      RunKeepsOrder(c, Size(), b, ticks, rooms, used);
      books := RunObeys(c, Size(), b, ticks, rooms, used);
    }

    /** The loop over the messages. */
    method Feed(ticks: seq<Tick>) returns (ghost rooms: seq<bool>)
      requires Valid()
      modifies rows, index, index.keys, index.values
      ensures Valid() && |rooms| == |ticks| && Contents() == Run(c, old(Contents()), ticks, rooms)
      ensures IndexLog(rooms, index.keys[..]) ==
              IndexRun(c, index.g, old(Contents()), old(index.keys[..]), ticks)
      ensures RoomsTrue(c, Size(), old(Contents()), ticks, rooms, old(index.Used())) &&
              index.Used() <= old(index.Used()) + Inserts(ticks)
    {
      rooms := [];
      ghost var b, keys := Contents(), index.keys[..];
      FedStarts(c, Size(), index.g, b, keys, ticks);
      for i := 0 to |ticks|
        invariant Valid() && Fed(c, Size(), index.g, b, keys, ticks, i, rooms, Contents(), index.keys[..])
      {
        ghost var was, had := Contents(), index.keys[..];
        ghost var room := Process(ticks[i]);
        rooms := FedStep(c, Size(), index.g, b, keys, ticks, i, rooms, room, was, had, index.keys[..]);
      }
      FedEnds(c, Size(), index.g, b, keys, ticks, rooms, Contents(), index.keys[..]);
    }

    /** Best price of a side (0 bid, 1 ask), or 0 when the side is empty. */
    method BestPrice(sym: nat, side: nat) returns (price: int)
      requires Valid() && side <= 1
      ensures sym >= c.symbols ==> price == 0
      ensures sym < c.symbols && (exists p :: RestsAt(Contents(), sym, side, p)) ==>
                RestsAt(Contents(), sym, side, price)
      ensures sym < c.symbols && side == 0 ==> forall p :: RestsAt(Contents(), sym, side, p) ==> p <= price
      ensures sym < c.symbols && side == 1 ==> forall p :: RestsAt(Contents(), sym, side, p) ==> p >= price
      ensures (forall p :: !RestsAt(Contents(), sym, side, p)) ==> price == 0
    {
      if sym >= c.symbols {
        return 0;
      }
      ghost var n := if rows[2 * sym + side].count == 0 then 0 else 1;
      SortedRow(c, rows[..], index.contents, 2 * sym + side, side, rows[2 * sym + side]);
      TopOfBook(c, rows[..], index.contents, sym, side, n);
      price := if rows[2 * sym + side].count == 0 then 0 else rows[2 * sym + side].levels[0].price;
      FirstIsBest(Contents(), sym, side, PricePrefix(rows[2 * sym + side], n), price);
    }

    /** Total quantity resting at the best `levels` prices of a side. */
    method DepthQty(sym: nat, side: nat, levels: nat) returns (total: int, ghost prices: seq<int>)
      requires Valid() && side <= 1
      ensures sym >= c.symbols ==> total == 0
      ensures sym < c.symbols ==> Tops(Contents(), sym, side, prices) && |prices| <= levels
      ensures sym < c.symbols && |prices| < levels ==> Complete(Contents(), sym, side, prices)
      ensures sym < c.symbols ==> total == QtyOf(Contents().live, RefsAt(Contents(), sym, side, prices))
    {
      if sym >= c.symbols {
        return 0, [];
      }
      var b := rows[2 * sym + side];
      SortedRow(c, rows[..], index.contents, 2 * sym + side, side, b);
      var n := if levels < b.count then levels else b.count;
      TopOfBook(c, rows[..], index.contents, sym, side, n);
      DepthTotal(c, rows[..], index.contents, sym, side, n);
      prices := PricePrefix(b, n);
      total := SumLevels(b, n);
    }

    /** Closes a level that holds no order; otherwise does nothing. */
    method RemoveLevelIfEmpty(sym: nat, side: nat, pos: nat, ghost row: nat)
      requires Sound() && row == 2 * sym + side < rows.Length && side <= 1 &&
               pos < rows[row].count <= |rows[row].levels|
      requires Populated(rows[..], row, pos)
      modifies rows, index`contents, index.values
      ensures Valid() && Contents() == old(Contents()) && index.contents.Keys == old(index.contents).Keys
    {
      ghost var was, had := rows[..], index.contents;
      var b := rows[2 * sym + side];
      LevelCount(c, was, had, row, pos, b.levels[pos]);
      if b.levels[pos].orderCount > 0 {
        return;
      }
      CloseLevel(sym, side, pos, was, row, LoweredAll(had, row, pos));
      DeleteKeepsBook(c, was, had, row, pos, rows[..], index.contents);
      DeleteKeepsPopulated(was, row, b, pos, EmptyLevel(c.slots, 0));
    }
  }

  /** A run that loses an order: any engine whose index can take one level and two orders more. */
  method LoseAnOrder(c: Limits, g: Geometry, o: Order, mate: Order, ref: nat, newRef: nat)
      returns (e: Engine, ghost start: Book, ghost rooms: seq<bool>, ghost before: Book)
    requires g.Valid() && g.symbols == c.symbols && g.levels == c.levels && g.slots == c.slots && InRange(c)
    requires Neighbours(c, o, mate) && Roomy(IndexSize(g.maxEntries, g.maxProbe), ref, c.slots + 1)
    requires ref + c.slots < newRef < TOMBSTONE
    ensures fresh(e) && e.Valid() && e.c == c && start.live == map[]
    ensures |rooms| == c.slots + 1 && before == Run(c, start, Crowd(o, mate, ref, c.slots), rooms)
    ensures e.Contents() == Step(c, before, Tick(Replace, o.symbol, true, mate.price, mate.qty, ref, newRef), true)
    ensures ref in before.live && e.Contents().live == before.live - {ref} && newRef !in e.Contents().live
  {
    e := new Engine(c, g);
    start := e.Contents();
    var t := Tick(Replace, o.symbol, true, mate.price, mate.qty, ref, newRef);
    var ticks := Crowd(o, mate, ref, c.slots);
    assert Vacant(start, o, mate) && Touched(Blank(g.capacity)) == {};
    ghost var answers := e.Feed(ticks + [t]);
    SomeRunLoses(c, e.Size(), start, o, mate, ref, newRef, t, answers, 0);
    rooms := answers[..c.slots + 1];
    before := Run(c, start, ticks, rooms);
  }

  // ----- The live map and the queues of any engine agree -----

  /** The order in a live slot. */
  lemma SlotIsLive(rows: seq<BookSide>, contents: map<nat, Location>, loc: Location, ref: nat)
    requires Linked(rows, contents) && Live(rows, loc) && ref == SlotAt(rows, loc).orderId
    ensures ref in contents && contents[ref] == loc && ref in Abs(rows, contents).live &&
            Abs(rows, contents).live[ref] == OrderAt(rows, loc)
  {
  }

  /** The order at one queue position of a level. */
  lemma RestsActive(l: PriceLevel, maxQty: int, j: nat)
    requires LevelOk(l, maxQty) && j < |RestingAt(l)|
    ensures j < |Queue(l)| && 0 <= Queue(l)[j] < |l.orders| && l.orders[Queue(l)[j]].active
    ensures RestingAt(l)[j] == Resting(l.orders[Queue(l)[j]].orderId, l.orders[Queue(l)[j]].qty)
  {
    assert Queue(l)[j] in Queue(l);
  }

  lemma RestsLive(rows: seq<BookSide>, contents: map<nat, Location>, row: nat, i: nat, l: PriceLevel, slot: nat,
      loc: Location, ref: nat)
    requires Linked(rows, contents) && row < |rows| && i < rows[row].count <= |rows[row].levels|
    requires l == rows[row].levels[i] && slot < |l.orders| && l.orders[slot].active && ref == l.orders[slot].orderId
    requires loc == Location(row / 2, row % 2, i, slot)
    ensures ref in contents && contents[ref] == loc && ref in Abs(rows, contents).live
    ensures Key(Abs(rows, contents).live[ref]) == (row, l.price) &&
            Abs(rows, contents).live[ref].qty == l.orders[slot].qty
  {
    HalfRow(row);
    SlotIsLive(rows, contents, loc, ref);
  }

  lemma HalfRow(row: nat)
    ensures 2 * (row / 2) + row % 2 == row && row % 2 <= 1
  {
  }

  lemma LevelTrue(rows: seq<BookSide>, contents: map<nat, Location>, row: nat, i: nat, l: PriceLevel, maxQty: int,
      q: seq<Resting>, b: Book)
    requires Linked(rows, contents) && row < |rows| && i < rows[row].count <= |rows[row].levels|
    requires l == rows[row].levels[i] && LevelOk(l, maxQty) && q == RestingAt(l) && b == Abs(rows, contents)
    ensures QueueTrue(b, (row, l.price), q)
  {
    forall j | 0 <= j < |q|
      ensures q[j].ref in contents && contents[q[j].ref] == Location(row / 2, row % 2, i, Queue(l)[j])
      ensures q[j].ref in b.live && Key(b.live[q[j].ref]) == (row, l.price) && b.live[q[j].ref].qty == q[j].qty
    {
      RestsActive(l, maxQty, j);
      RestsLive(rows, contents, row, i, l, Queue(l)[j], Location(row / 2, row % 2, i, Queue(l)[j]), q[j].ref);
    }
    forall j, k | 0 <= j < k < |q| ensures q[j].ref != q[k].ref {
      assert Queue(l)[j] != Queue(l)[k];
    }
  }

  lemma OrderQueued(c: Limits, rows: seq<BookSide>, contents: map<nat, Location>, ref: nat, loc: Location,
      l: PriceLevel)
    requires BookOk(c, rows, contents) && ref in contents && loc == contents[ref] && Live(rows, loc) &&
             l == rows[Row(loc)].levels[loc.level]
    ensures Queued(QueueOf(rows[Row(loc)], l.price), ref)
  {
    var i := QueuePosition(c, rows, contents, loc, l, ref);
    SortedRow(c, rows, contents, Row(loc), Row(loc) % 2, rows[Row(loc)]);
    QueueAtLevel(Row(loc) % 2, rows[Row(loc)], loc.level);
    assert RestingAt(l)[i].ref == ref;
  }

  lemma QueueHolds(c: Limits, rows: seq<BookSide>, contents: map<nat, Location>, row: nat, price: int)
    requires BookOk(c, rows, contents) && row < |rows|
    ensures QueueTrue(Abs(rows, contents), (row, price), QueueOf(rows[row], price))
  {
    OpenBook(c, rows, contents);
    SideAt(c, rows, row, row % 2, rows[row]);
    if i :| 0 <= i < rows[row].count && rows[row].levels[i].price == price {
      QueueAtLevel(row % 2, rows[row], i);
      LevelTrue(rows, contents, row, i, rows[row].levels[i], c.maxQty, RestingAt(rows[row].levels[i]),
        Abs(rows, contents));
    }
  }

  lemma ConsistentBook(c: Limits, rows: seq<BookSide>, contents: map<nat, Location>)
    requires BookOk(c, rows, contents)
    ensures Consistent(Abs(rows, contents))
  {
    var b := Abs(rows, contents);
    forall k | k in b.queues ensures QueueTrue(b, k, b.queues[k]) {
      QueueHolds(c, rows, contents, k.0, k.1);
      assert k == (k.0, k.1);
    }
    forall ref | ref in b.live ensures Key(b.live[ref]) in b.queues && Queued(b.queues[Key(b.live[ref])], ref) {
      LiveKeys(c, rows, contents, ref);
      var loc := contents[ref];
      OrderQueued(c, rows, contents, ref, loc, rows[Row(loc)].levels[loc.level]);
    }
  }

  /** Rows without levels in use are an empty book. */
  lemma EmptyBook(c: Limits, rows: seq<BookSide>, zeroed: PriceLevel)
    requires |rows| == 2 * c.symbols && |zeroed.orders| == c.slots
    requires forall r :: 0 <= r < |rows| ==> rows[r] == BookSide(seq(c.levels, _ => zeroed), 0)
    ensures BookOk(c, rows, map[]) && Populated(rows, -1, -1) && Abs(rows, map[]).live == map[]
    ensures (forall k :: k in Abs(rows, map[]).queues ==> Abs(rows, map[]).queues[k] == []) &&
            Consistent(Abs(rows, map[]))
  {
    forall r {:trigger rows[r]} | 0 <= r < |rows| ensures SideOk(c, r % 2, rows[r]) && PopulatedBut(rows[r], -1) {
    }
    assert RowsOk(c, rows) && Linked(rows, map[]);
    SealBook(c, rows, map[]);
  }

  /** Level `l` in place of the one at `loc` realises the plain book's add. */
  ghost predicate Placed(c: Limits, was: seq<BookSide>, had: map<nat, Location>, loc: Location, l: PriceLevel, ref: nat,
      qty: int)
    requires InBook(was, loc)
  {
    var price := was[Row(loc)].levels[loc.level].price;
    BookOk(c, SetLevel(was, loc, l), had[ref := loc]) && (Row(loc), price) in Abs(was, had).queues &&
    Abs(SetLevel(was, loc, l), had[ref := loc]) == Added(Abs(was, had), ref, Order(loc.symbol, loc.side, price, qty)) &&
    l.orderCount == was[Row(loc)].levels[loc.level].orderCount + 1
  }

  /** Level `l` in place of the one at `loc` leaves the plain book alone. */
  ghost predicate Undone(c: Limits, was: seq<BookSide>, had: map<nat, Location>, loc: Location, l: PriceLevel)
    requires InBook(was, loc)
  {
    BookOk(c, SetLevel(was, loc, l), had) && Abs(SetLevel(was, loc, l), had) == Abs(was, had) &&
    l.orderCount == was[Row(loc)].levels[loc.level].orderCount
  }

  lemma SetTwice(was: seq<BookSide>, loc: Location, a: PriceLevel, b: PriceLevel)
    requires Row(loc) < |was| && loc.level < |was[Row(loc)].levels|
    ensures SetLevel(SetLevel(was, loc, a), loc, b) == SetLevel(was, loc, b)
  {
    var levels := was[Row(loc)].levels;
    assert levels[loc.level := a][loc.level := b] == levels[loc.level := b];
  }

  /** In every reachable book the level total plus a new quantity fits 64 bits: the branch that
      takes an order back after a failed checked addition is never entered. */
  lemma OverflowUnreachable(c: Limits, was: seq<BookSide>, had: map<nat, Location>, loc: Location, qty: int)
    requires InRange(c) && BookOk(c, was, had) && InBook(was, loc) && !Live(was, loc) && 0 < qty <= c.maxQty
    ensures 0 <= was[Row(loc)].levels[loc.level].totalQty && was[Row(loc)].levels[loc.level].totalQty + qty <= INT64_MAX
  {
    OpenBook(c, was, had);
    SideAt(c, was, Row(loc), Row(loc) % 2, was[Row(loc)]);
    var l := was[Row(loc)].levels[loc.level];
    TotalBounded(l, c.maxQty);
    Product(|l.orders|, 0x10_0000, c.maxQty, 0x100_0000_0000);
  }

  lemma Product(a: nat, a': nat, b: nat, b': nat)
    requires a <= a' && b <= b'
    ensures a * b <= a' * b'
  {
    assert a * b <= a' * b;
    assert a' * b <= a' * b';
  }

  method PlaceOn(c: Limits, lvl: PriceLevel, loc: Location, ref: nat, qty: int, ghost was: seq<BookSide>,
      ghost had: map<nat, Location>)
    returns (l: PriceLevel)
    requires InRange(c) && BookOk(c, was, had) && InBook(was, loc) && !Live(was, loc) && ref !in had &&
             0 < qty <= c.maxQty
    requires lvl == was[Row(loc)].levels[loc.level]
    ensures Appended(lvl, l, loc.slot, ref, qty, c.maxQty) && Placed(c, was, had, loc, l, ref, qty)
    ensures l.orders[loc.slot].bid <==> loc.side == 0
  {
    // The checked addition of the level total cannot fail.
    assert lvl.totalQty + qty <= INT64_MAX by { OverflowUnreachable(c, was, had, loc, qty); }
    OpenBook(c, was, had);
    SideAt(c, was, Row(loc), Row(loc) % 2, was[Row(loc)]);
    l := AppendOrder(lvl, loc.slot, ref, qty, loc.side == 0, c.maxQty);
    PlacedBook(c, was, had, loc, lvl, l, ref, qty);
  }

  method UndoOn(c: Limits, lvl: PriceLevel, placed: PriceLevel, loc: Location, ref: nat, qty: int,
                ghost was: seq<BookSide>, ghost had: map<nat, Location>)
    returns (l: PriceLevel)
    requires BookOk(c, was, had) && InBook(was, loc) && !Live(was, loc) && lvl == was[Row(loc)].levels[loc.level]
    requires Appended(lvl, placed, loc.slot, ref, qty, c.maxQty)
    ensures Undone(c, was, had, loc, l)
  {
    OpenBook(c, was, had);
    SideAt(c, was, Row(loc), Row(loc) % 2, was[Row(loc)]);
    l := UndoAppend(lvl, placed, loc.slot, qty, c.maxQty);
    UndoneBook(c, was, had, loc, lvl, l);
  }

  lemma RowsKept(c: Limits, was: seq<BookSide>, had: map<nat, Location>, loc: Location, lvl: PriceLevel, l: PriceLevel,
      rows': seq<BookSide>)
    requires BookOk(c, was, had) && InBook(was, loc) && lvl == was[Row(loc)].levels[loc.level]
    requires LevelOk(l, c.maxQty) && |l.orders| == |lvl.orders| && l.price == lvl.price &&
             rows' == SetLevel(was, loc, l)
    ensures RowsOk(c, rows')
  {
    OpenBook(c, was, had);
    SetLevelOk(c, was, loc, l, rows');
  }

  lemma PlacedBook(c: Limits, was: seq<BookSide>, had: map<nat, Location>, loc: Location, lvl: PriceLevel,
      l: PriceLevel, ref: nat, qty: int)
    requires BookOk(c, was, had) && InBook(was, loc) && !Live(was, loc) && ref !in had &&
             lvl == was[Row(loc)].levels[loc.level]
    requires Appended(lvl, l, loc.slot, ref, qty, c.maxQty)
    ensures Placed(c, was, had, loc, l, ref, qty)
  {
    var rows', contents' := SetLevel(was, loc, l), had[ref := loc];
    RowsKept(c, was, had, loc, lvl, l, rows');
    OpenLinks(c, was, had);
    SortedRow(c, was, had, Row(loc), Row(loc) % 2, was[Row(loc)]);
    PutBook(was, had, loc, l, ref, rows', contents');
    SealBook(c, rows', contents');
  }

  lemma UndoneBook(c: Limits, was: seq<BookSide>, had: map<nat, Location>, loc: Location, lvl: PriceLevel,
      l: PriceLevel)
    requires BookOk(c, was, had) && InBook(was, loc) && !Live(was, loc) && lvl == was[Row(loc)].levels[loc.level]
    requires Restored(lvl, l, loc.slot, c.maxQty)
    ensures Undone(c, was, had, loc, l)
  {
    var rows' := SetLevel(was, loc, l);
    RowsKept(c, was, had, loc, lvl, l, rows');
    OpenLinks(c, was, had);
    SortedRow(c, was, had, Row(loc), Row(loc) % 2, was[Row(loc)]);
    SwapBook(was, had, loc, l, rows');
    SealBook(c, rows', had);
  }

  /** A full level has as many queued orders as slots, and conversely. */
  lemma FullLevel(l: PriceLevel, maxQty: int)
    requires LevelOk(l, maxQty)
    ensures |RestingAt(l)| == l.orderCount <= |l.orders|
    ensures |RestingAt(l)| == |l.orders| <==> forall s :: 0 <= s < |l.orders| ==> l.orders[s].active
  {
    var q := Queue(l);
    IndicesBounded(q, |l.orders|);
    if forall s :: 0 <= s < |l.orders| ==> l.orders[s].active {
      AllListed(q, |l.orders|);
    } else {
      var s :| 0 <= s < |l.orders| && !l.orders[s].active;
      assert s !in q;
      IndicesBounded(q + [s], |l.orders|);
    }
  }

  lemma {:induction false} AllListed(q: seq<int>, n: nat)
    requires forall j, k :: 0 <= j < k < |q| ==> q[j] != q[k]
    requires forall s :: 0 <= s < n ==> s in q
    ensures |q| >= n
  {
    if n > 0 {
      assert n - 1 in q;
      var k :| 0 <= k < |q| && q[k] == n - 1;
      var r := q[..k] + q[k + 1..];
      forall s | 0 <= s < n - 1 ensures s in r {
        assert s in q;
        var j :| 0 <= j < |q| && q[j] == s;
        assert r[if j < k then j else j - 1] == s;
      }
      assert forall x, y :: 0 <= x < y < |r| ==> r[x] != r[y] by {
        forall x, y | 0 <= x < y < |r| ensures r[x] != r[y] {
          assert q[if x < k then x else x + 1] != q[if y < k then y else y + 1];
        }
      }
      AllListed(r, n - 1);
    }
  }

  lemma LevelQueue(c: Limits, rows: seq<BookSide>, contents: map<nat, Location>, row: nat, i: nat, price: int,
      l: PriceLevel)
    requires BookOk(c, rows, contents) && row < |rows| && i < rows[row].count <= |rows[row].levels| &&
             l == rows[row].levels[i] && l.price == price
    ensures (row, price) in Abs(rows, contents).queues && Abs(rows, contents).queues[(row, price)] == RestingAt(l)
  {
    assert Sorted(row % 2, rows[row]) by {
      OpenBook(c, rows, contents);
      SideAt(c, rows, row, row % 2, rows[row]);
    }
    QueueAtLevel(row % 2, rows[row], i);
  }

  lemma PopulatedLevel(rows: seq<BookSide>, row: nat, loc: Location, l: PriceLevel)
    requires Row(loc) < |rows| && row == Row(loc) && Populated(rows, row, loc.level) && loc.level < |rows[row].levels|
    ensures Populated(SetLevel(rows, loc, l), row, loc.level)
    ensures l.orderCount > 0 ==> Populated(SetLevel(rows, loc, l), -1, -1)
  {
    assert Unfold(0);
    var rows' := SetLevel(rows, loc, l);
    forall r | 0 <= r < |rows'|
      ensures PopulatedBut(rows'[r], if r == row then loc.level else -1)
      ensures l.orderCount > 0 ==> PopulatedBut(rows'[r], -1)
    {
      assert PopulatedBut(rows[r], if r == row then loc.level else -1);
    }
  }

  ghost function PricePrefix(b: BookSide, n: nat): seq<int>
    requires n <= b.count <= |b.levels|
  {
    seq(n, i requires 0 <= i < n => b.levels[i].price)
  }

  /** What is queued at a price rests there. */
  lemma QueuedRests(c: Limits, rows: seq<BookSide>, contents: map<nat, Location>, sym: nat, side: nat, p: int, r: nat,
      b: Book)
    requires BookOk(c, rows, contents) && side <= 1 && 2 * sym + side < |rows| && b == Abs(rows, contents)
    requires Queued(QueueOf(rows[2 * sym + side], p), r)
    ensures r in b.live && b.live[r].symbol == sym && b.live[r].side == side && b.live[r].price == p
  {
    var q := QueueOf(rows[2 * sym + side], p);
    QueueHolds(c, rows, contents, 2 * sym + side, p);
    var i :| 0 <= i < |q| && q[i].ref == r;
    assert r in b.live && Key(b.live[r]) == (2 * sym + side, p);
    SideOf(c, rows, contents, r, b);
    SameRow(b.live[r].symbol, b.live[r].side, sym, side);
  }

  lemma SameRow(s: nat, side: nat, s': nat, side': nat)
    requires side <= 1 && side' <= 1 && 2 * s + side == 2 * s' + side'
    ensures s == s' && side == side'
  {
  }

  /** A live order is queued where it rests. */
  lemma RestsQueued(c: Limits, rows: seq<BookSide>, contents: map<nat, Location>, r: nat, b: Book)
    requires BookOk(c, rows, contents) && b == Abs(rows, contents) && r in b.live
    ensures 2 * b.live[r].symbol + b.live[r].side < |rows| &&
            Queued(QueueOf(rows[2 * b.live[r].symbol + b.live[r].side], b.live[r].price), r)
  {
    LiveKeys(c, rows, contents, r);
    OrderQueued(c, rows, contents, r, contents[r], rows[Row(contents[r])].levels[contents[r].level]);
  }

  /** Orders of the plain book rest exactly where a queue is not empty. */
  lemma RestsIff(c: Limits, rows: seq<BookSide>, contents: map<nat, Location>, sym: nat, side: nat, p: int, b: Book)
    requires BookOk(c, rows, contents) && side <= 1 && 2 * sym + side < |rows| && b == Abs(rows, contents)
    ensures RestsAt(b, sym, side, p) <==> QueueOf(rows[2 * sym + side], p) != []
  {
    var q := QueueOf(rows[2 * sym + side], p);
    if RestsAt(b, sym, side, p) {
      var r :| r in b.live && b.live[r].symbol == sym && b.live[r].side == side && b.live[r].price == p;
      RestsQueued(c, rows, contents, r, b);
    }
    if q != [] {
      assert Queued(q, q[0].ref);
      QueuedRests(c, rows, contents, sym, side, p, q[0].ref, b);
    }
  }

  lemma SideOf(c: Limits, rows: seq<BookSide>, contents: map<nat, Location>, r: nat, b: Book)
    requires BookOk(c, rows, contents) && b == Abs(rows, contents) && r in b.live
    ensures b.live[r].side <= 1
  {
    LiveKeys(c, rows, contents, r);
  }

  /** The first `n` levels are the `n` best prices of the plain book. */
  lemma TopOfBook(c: Limits, rows: seq<BookSide>, contents: map<nat, Location>, sym: nat, side: nat, n: nat)
    requires BookOk(c, rows, contents) && Populated(rows, -1, -1) && side <= 1 && 2 * sym + side < |rows|
    requires n <= rows[2 * sym + side].count <= |rows[2 * sym + side].levels|
    ensures Tops(Abs(rows, contents), sym, side, PricePrefix(rows[2 * sym + side], n))
    ensures n == rows[2 * sym + side].count ==>
              Complete(Abs(rows, contents), sym, side, PricePrefix(rows[2 * sym + side], n))
  {
    var row, b := 2 * sym + side, Abs(rows, contents);
    var prices := PricePrefix(rows[row], n);
    SortedRow(c, rows, contents, row, side, rows[row]);
    forall i | 0 <= i < rows[row].count ensures RestsAt(b, sym, side, rows[row].levels[i].price) {
      LevelRests(c, rows, contents, sym, side, i, b);
    }
    forall p | RestsAt(b, sym, side, p)
      ensures exists i :: 0 <= i < rows[row].count && rows[row].levels[i].price == p
    {
      RestsIff(c, rows, contents, sym, side, p, b);
    }
    Prefixes(side, rows[row], b, sym, n, prices);
  }

  lemma LevelRests(c: Limits, rows: seq<BookSide>, contents: map<nat, Location>, sym: nat, side: nat, i: nat, b: Book)
    requires BookOk(c, rows, contents) && Populated(rows, -1, -1) && side <= 1 && 2 * sym + side < |rows|
    requires i < rows[2 * sym + side].count <= |rows[2 * sym + side].levels| && b == Abs(rows, contents)
    ensures RestsAt(b, sym, side, rows[2 * sym + side].levels[i].price)
  {
    var row := 2 * sym + side;
    SortedRow(c, rows, contents, row, side, rows[row]);
    OpenPopulated(rows, row);
    QueueAtLevel(side, rows[row], i);
    LevelCount(c, rows, contents, row, i, rows[row].levels[i]);
    RestsIff(c, rows, contents, sym, side, rows[row].levels[i].price, b);
  }

  /** A prefix of sorted levels has the best prices. */
  lemma Prefixes(side: nat, s: BookSide, b: Book, sym: nat, n: nat, prices: seq<int>)
    requires Sorted(side, s) && n <= s.count && prices == PricePrefix(s, n)
    requires forall i :: 0 <= i < s.count ==> RestsAt(b, sym, side, s.levels[i].price)
    requires forall p :: RestsAt(b, sym, side, p) ==> exists i :: 0 <= i < s.count && s.levels[i].price == p
    ensures Tops(b, sym, side, prices) && (n == s.count ==> Complete(b, sym, side, prices))
  {
    forall p | RestsAt(b, sym, side, p)
      ensures p in prices || exists i :: n <= i < s.count && s.levels[i].price == p
    {
      var i :| 0 <= i < s.count && s.levels[i].price == p;
      if i < n {
        assert prices[i] == p;
      }
    }
  }

  lemma FirstIsBest(b: Book, sym: nat, side: nat, prices: seq<int>, price: int)
    requires side <= 1 && Tops(b, sym, side, prices) && |prices| <= 1
    requires if prices == [] then Complete(b, sym, side, prices) && price == 0 else price == prices[0]
    ensures (exists p :: RestsAt(b, sym, side, p)) ==> RestsAt(b, sym, side, price)
    ensures forall p :: RestsAt(b, sym, side, p) ==> if side == 0 then p <= price else p >= price
    ensures (forall p :: !RestsAt(b, sym, side, p)) ==> price == 0
  {
    forall p | RestsAt(b, sym, side, p) ensures if side == 0 then p <= price else p >= price {
      assert prices != [];
    }
  }

  ghost function TotalOf(b: BookSide, n: nat): int
    requires n <= b.count <= |b.levels|
  {
    if n == 0 then 0 else TotalOf(b, n - 1) + b.levels[n - 1].totalQty
  }

  method SumLevels(b: BookSide, n: nat) returns (total: int)
    requires n <= b.count <= |b.levels|
    ensures total == TotalOf(b, n)
  {
    total := 0;
    for i := 0 to n
      invariant total == TotalOf(b, i)
    {
      total := total + b.levels[i].totalQty;
    }
  }

  /** The stored aggregates of the first `n` levels add up to the plain book's quantity there. */
  lemma {:induction false} DepthTotal(c: Limits, rows: seq<BookSide>, contents: map<nat, Location>, sym: nat, side: nat,
      n: nat)
    requires BookOk(c, rows, contents) && side <= 1 && 2 * sym + side < |rows|
    requires n <= rows[2 * sym + side].count <= |rows[2 * sym + side].levels|
    ensures var b := Abs(rows, contents);
            TotalOf(rows[2 * sym + side], n) ==
            QtyOf(b.live, RefsAt(b, sym, side, PricePrefix(rows[2 * sym + side], n)))
  {
    var s, b := rows[2 * sym + side], Abs(rows, contents);
    if n == 0 {
      assert RefsAt(b, sym, side, PricePrefix(s, 0)) == {};
    } else {
      DepthTotal(c, rows, contents, sym, side, n - 1);
      LevelQty(c, rows, contents, sym, side, n - 1, b);
      SplitRefs(c, rows, contents, sym, side, n - 1, b);
      QtyUnion(b.live, RefsAt(b, sym, side, PricePrefix(s, n - 1)), RefsAt(b, sym, side, [s.levels[n - 1].price]));
    }
  }

  lemma SplitRefs(c: Limits, rows: seq<BookSide>, contents: map<nat, Location>, sym: nat, side: nat, n: nat, b: Book)
    requires BookOk(c, rows, contents) && side <= 1 && 2 * sym + side < |rows| && b == Abs(rows, contents)
    requires n < rows[2 * sym + side].count <= |rows[2 * sym + side].levels|
    ensures var s := rows[2 * sym + side];
            var before, here := RefsAt(b, sym, side, PricePrefix(s, n)), RefsAt(b, sym, side, [s.levels[n].price]);
            before !! here && RefsAt(b, sym, side, PricePrefix(s, n + 1)) == before + here
  {
    var s := rows[2 * sym + side];
    SortedRow(c, rows, contents, 2 * sym + side, side, s);
    var p, p' := PricePrefix(s, n), PricePrefix(s, n + 1);
    assert p' == p + [s.levels[n].price] && s.levels[n].price !in p;
  }

  lemma LevelQty(c: Limits, rows: seq<BookSide>, contents: map<nat, Location>, sym: nat, side: nat, i: nat, b: Book)
    requires BookOk(c, rows, contents) && side <= 1 && 2 * sym + side < |rows| && b == Abs(rows, contents)
    requires i < rows[2 * sym + side].count <= |rows[2 * sym + side].levels|
    ensures var l := rows[2 * sym + side].levels[i];
            l.totalQty == QtyOf(b.live, RefsAt(b, sym, side, [l.price]))
  {
    var row := 2 * sym + side;
    var l := rows[row].levels[i];
    SortedRow(c, rows, contents, row, side, rows[row]);
    QueueAtLevel(side, rows[row], i);
    QueueHolds(c, rows, contents, row, l.price);
    QueueQty(b, (row, l.price), RestingAt(l));
    LevelTotal(c, rows, contents, row, i, l);
    QueueRefs(c, rows, contents, sym, side, l.price, RestingAt(l), b);
  }

  lemma LevelTotal(c: Limits, rows: seq<BookSide>, contents: map<nat, Location>, row: nat, i: nat, l: PriceLevel)
    requires BookOk(c, rows, contents) && row < |rows| && i < rows[row].count <= |rows[row].levels| &&
             l == rows[row].levels[i]
    ensures l.totalQty == SumResting(RestingAt(l))
  {
    OpenBook(c, rows, contents);
    SideAt(c, rows, row, row % 2, rows[row]);
    TotalIsResting(l, c.maxQty);
  }

  lemma QueuedIff(c: Limits, rows: seq<BookSide>, contents: map<nat, Location>, sym: nat, side: nat, p: int, r: nat,
      q: seq<Resting>, b: Book)
    requires BookOk(c, rows, contents) && side <= 1 && 2 * sym + side < |rows| && b == Abs(rows, contents)
    requires q == QueueOf(rows[2 * sym + side], p)
    ensures r in RefsIn(q) <==> r in RefsAt(b, sym, side, [p])
  {
    InRefs(q, r);
    AtOnePrice(b, sym, side, p, r);
    if Queued(q, r) {
      QueuedRests(c, rows, contents, sym, side, p, r, b);
    } else if r in RefsAt(b, sym, side, [p]) {
      RestsQueued(c, rows, contents, r, b);
    }
  }

  lemma AtOnePrice(b: Book, sym: nat, side: nat, p: int, r: nat)
    ensures r in RefsAt(b, sym, side, [p]) <==>
            r in b.live && b.live[r].symbol == sym && b.live[r].side == side && b.live[r].price == p
  {
  }

  lemma InRefs(q: seq<Resting>, r: nat)
    ensures r in RefsIn(q) <==> Queued(q, r)
  {
  }

  /** The queue at a price holds exactly the orders that rest there. */
  lemma QueueRefs(c: Limits, rows: seq<BookSide>, contents: map<nat, Location>, sym: nat, side: nat, p: int,
      q: seq<Resting>, b: Book)
    requires BookOk(c, rows, contents) && side <= 1 && 2 * sym + side < |rows| && b == Abs(rows, contents)
    requires q == QueueOf(rows[2 * sym + side], p)
    ensures RefsIn(q) == RefsAt(b, sym, side, [p])
  {
    var x, y := RefsIn(q), RefsAt(b, sym, side, [p]);
    forall r ensures r in x <==> r in y {
      QueuedIff(c, rows, contents, sym, side, p, r, q, b);
    }
  }

  lemma SortedRow(c: Limits, rows: seq<BookSide>, contents: map<nat, Location>, row: nat, side: nat, b: BookSide)
    requires BookOk(c, rows, contents) && row < |rows| && side == row % 2 && b == rows[row]
    ensures Sorted(side, b) && b.count <= |b.levels| == c.levels
  {
    OpenBook(c, rows, contents);
    SideAt(c, rows, row, side, b);
  }

  lemma LevelCount(c: Limits, rows: seq<BookSide>, contents: map<nat, Location>, row: nat, i: nat, l: PriceLevel)
    requires BookOk(c, rows, contents) && row < |rows| && i < rows[row].count <= |rows[row].levels| &&
             l == rows[row].levels[i]
    ensures 0 <= l.orderCount == |RestingAt(l)|
  {
    OpenBook(c, rows, contents);
    SideAt(c, rows, row, row % 2, rows[row]);
    FullLevel(l, c.maxQty);
  }

  lemma LevelFits(c: Limits, rows: seq<BookSide>, contents: map<nat, Location>, row: nat, i: nat, l: PriceLevel)
    requires BookOk(c, rows, contents) && row < |rows| && i < rows[row].count <= |rows[row].levels| &&
             l == rows[row].levels[i]
    ensures |RestingAt(l)| <= c.slots
  {
    OpenBook(c, rows, contents);
    SideAt(c, rows, row, row % 2, rows[row]);
    FullLevel(l, c.maxQty);
  }

  lemma OpenPopulated(rows: seq<BookSide>, row: nat)
    requires Populated(rows, -1, -1) && row < |rows|
    ensures PopulatedBut(rows[row], -1)
  {
    assert Unfold(0);
  }

  lemma PopulatedAgain(rows: seq<BookSide>, row: nat, i: nat)
    requires Populated(rows, row, i) && row < |rows| && i < |rows[row].levels| && rows[row].levels[i].orderCount > 0
    ensures Populated(rows, -1, -1)
  {
    assert Unfold(0);
    forall r | 0 <= r < |rows| ensures PopulatedBut(rows[r], -1) {
      assert PopulatedBut(rows[r], if r == row then i else -1);
    }
  }

  lemma PopulatedStill(rows: seq<BookSide>, row: nat, i: int)
    requires Populated(rows, -1, -1) && row < |rows|
    ensures Populated(rows, row, i)
  {
    assert Unfold(0);
    forall r | 0 <= r < |rows| ensures PopulatedBut(rows[r], if r == row then i else -1) {
      assert PopulatedBut(rows[r], -1);
    }
  }

  /** Room in the plain book, read off the level found for the price. */
  lemma FitsLevel(c: Limits, rows: seq<BookSide>, contents: map<nat, Location>, row: nat, i: int, price: int)
    requires BookOk(c, rows, contents) && row < |rows| && Populated(rows, -1, -1) &&
             -1 <= i < rows[row].count <= |rows[row].levels| && 0 < c.slots
    requires if i == -1 then NoLevel(rows[row], price) else rows[row].levels[i].price == price
    ensures Fits(c, Abs(rows, contents), (row, price)) <==>
            if i == -1 then rows[row].count < c.levels else |RestingAt(rows[row].levels[i])| < c.slots
  {
    OpenPopulated(rows, row);
    if i == -1 {
      CountIsDepth(c, rows, contents, row);
    } else {
      LevelQueue(c, rows, contents, row, i, price, rows[row].levels[i]);
      LevelCount(c, rows, contents, row, i, rows[row].levels[i]);
    }
  }

  /** An indexed reference is a live order, and conversely. */
  lemma LiveKeys(c: Limits, rows: seq<BookSide>, contents: map<nat, Location>, ref: nat)
    requires BookOk(c, rows, contents)
    ensures ref in Abs(rows, contents).live <==> ref in contents
    ensures ref in contents ==> Live(rows, contents[ref]) && SlotAt(rows, contents[ref]).orderId == ref
    ensures ref in contents ==> Abs(rows, contents).live[ref] == OrderAt(rows, contents[ref])
    ensures ref in contents ==> Key(Abs(rows, contents).live[ref]) in Abs(rows, contents).queues
  {
    OpenLinks(c, rows, contents);
  }

  lemma LiveCount(c: Limits, rows: seq<BookSide>, contents: map<nat, Location>)
    requires BookOk(c, rows, contents)
    ensures |Abs(rows, contents).live| == |contents|
  {
    OpenLinks(c, rows, contents);
    var live := Abs(rows, contents).live;
    assert live.Keys == contents.Keys;
    assert |live| == |live.Keys| && |contents| == |contents.Keys|;
  }

  predicate ValidLocation(c: Limits, b: BookSide, ref: nat, loc: Location) {
    loc.symbol < c.symbols && loc.side <= 1 && loc.level < b.count <= |b.levels| &&
    loc.slot < |b.levels[loc.level].orders| &&
    var l := b.levels[loc.level];
    l.orders[loc.slot].active && l.orders[loc.slot].orderId == ref && l.orders[loc.slot].qty >= 0 &&
    l.totalQty >= 0 && l.orderCount > 0
  }

  lemma LocationValid(c: Limits, rows: seq<BookSide>, contents: map<nat, Location>, ref: nat, loc: Location)
    requires BookOk(c, rows, contents) && ref in contents && loc == contents[ref] && 0 < c.maxQty
    ensures Live(rows, loc) && SlotAt(rows, loc).orderId == ref && Row(loc) < |rows|
    ensures ValidLocation(c, rows[Row(loc)], ref, loc)
  {
    LiveKeys(c, rows, contents, ref);
    var l := rows[Row(loc)].levels[loc.level];
    OpenBook(c, rows, contents);
    SideAt(c, rows, Row(loc), Row(loc) % 2, rows[Row(loc)]);
    var i := PositionOf(c, rows, contents, loc, l, Queue(l));
    PartBelowTotal(l, Queue(l), i, c.maxQty);
  }

  /** Level `l` in place of the one at `loc` realises the plain book's removal of `ref`. */
  ghost predicate Gone(c: Limits, was: seq<BookSide>, had: map<nat, Location>, loc: Location, l: PriceLevel, ref: nat)
    requires InBook(was, loc)
  {
    BookOk(c, SetLevel(was, loc, l), had - {ref}) &&
    ref in Abs(was, had).live && Key(Abs(was, had).live[ref]) in Abs(was, had).queues &&
    Abs(SetLevel(was, loc, l), had - {ref}) == Removed(Abs(was, had), ref)
  }

  ghost predicate Smaller(c: Limits, was: seq<BookSide>, had: map<nat, Location>, loc: Location, l: PriceLevel,
      ref: nat, qty: int)
    requires InBook(was, loc)
  {
    BookOk(c, SetLevel(was, loc, l), had) &&
    ref in Abs(was, had).live && Key(Abs(was, had).live[ref]) in Abs(was, had).queues &&
    Abs(SetLevel(was, loc, l), had) == Reduced(Abs(was, had), ref, qty) && l.orderCount > 0
  }

  lemma CutBook(c: Limits, was: seq<BookSide>, had: map<nat, Location>, loc: Location, lvl: PriceLevel, l: PriceLevel,
      ref: nat, i: nat)
    requires BookOk(c, was, had) && ref in had && loc == had[ref] && Live(was, loc) &&
             lvl == was[Row(loc)].levels[loc.level]
    requires OnlyAt(RestingAt(lvl), i, ref) && Cut(lvl, l, loc.slot, i, c.maxQty)
    ensures Gone(c, was, had, loc, l, ref)
  {
    var rows' := SetLevel(was, loc, l);
    RowsKept(c, was, had, loc, lvl, l, rows');
    OpenLinks(c, was, had);
    SortedRow(c, was, had, Row(loc), Row(loc) % 2, was[Row(loc)]);
    DropBook(was, had, ref, loc, l, i, RestingAt(lvl), rows', had - {ref});
    SealBook(c, rows', had - {ref});
  }

  lemma ShrunkLinks(c: Limits, was: seq<BookSide>, had: map<nat, Location>, loc: Location, lvl: PriceLevel,
      l: PriceLevel, ref: nat, qty: int, i: nat, rows': seq<BookSide>)
    requires BookOk(c, was, had) && ref in had && loc == had[ref] && Live(was, loc) &&
             lvl == was[Row(loc)].levels[loc.level]
    requires OnlyAt(RestingAt(lvl), i, ref) && Lessened(lvl, l, loc.slot, i, qty) && qty < lvl.orders[loc.slot].qty
    requires lvl.orders[loc.slot].orderId == ref && rows' == SetLevel(was, loc, l)
    ensures Linked(rows', had) && ref in Abs(was, had).live && Key(Abs(was, had).live[ref]) in Abs(was, had).queues
    ensures Abs(rows', had) == Reduced(Abs(was, had), ref, qty)
  {
    OpenLinks(c, was, had);
    SortedRow(c, was, had, Row(loc), Row(loc) % 2, was[Row(loc)]);
    ResizeBook(was, had, ref, loc, l, i, qty, RestingAt(lvl), rows');
  }

  lemma ShrunkBook(c: Limits, was: seq<BookSide>, had: map<nat, Location>, loc: Location, lvl: PriceLevel,
      l: PriceLevel, ref: nat, qty: int, i: nat)
    requires BookOk(c, was, had) && ref in had && loc == had[ref] && Live(was, loc) &&
             lvl == was[Row(loc)].levels[loc.level]
    requires OnlyAt(RestingAt(lvl), i, ref) && Shrunk(lvl, l, loc.slot, i, qty, c.maxQty) &&
             qty < lvl.orders[loc.slot].qty
    requires lvl.orders[loc.slot].orderId == ref && lvl.orderCount > 0
    ensures Smaller(c, was, had, loc, l, ref, qty)
  {
    var rows' := SetLevel(was, loc, l);
    RowsKept(c, was, had, loc, lvl, l, rows');
    ShrunkLinks(c, was, had, loc, lvl, l, ref, qty, i, rows');
    SealBook(c, rows', had);
  }

  /** Queue position of an indexed order. */
  lemma QueuePosition(c: Limits, was: seq<BookSide>, had: map<nat, Location>, loc: Location, lvl: PriceLevel,
      ref: nat) returns (i: nat)
    requires BookOk(c, was, had) && ref in had && loc == had[ref] && Live(was, loc) &&
             lvl == was[Row(loc)].levels[loc.level]
    ensures LevelOk(lvl, c.maxQty) && i < |Queue(lvl)| && Queue(lvl)[i] == loc.slot && OnlyAt(RestingAt(lvl), i, ref)
    ensures lvl.orders[loc.slot].orderId == ref && lvl.orderCount > 0
  {
    OpenBook(c, was, had);
    SideAt(c, was, Row(loc), Row(loc) % 2, was[Row(loc)]);
    i := PositionOf(c, was, had, loc, lvl, Queue(lvl));
  }

  method CutOn(c: Limits, lvl: PriceLevel, loc: Location, ref: nat, ghost was: seq<BookSide>,
      ghost had: map<nat, Location>)
    returns (l: PriceLevel)
    requires BookOk(c, was, had) && ref in had && loc == had[ref] && Live(was, loc) &&
             lvl == was[Row(loc)].levels[loc.level]
    requires 0 < c.maxQty
    ensures Gone(c, was, had, loc, l, ref)
  {
    ghost var i := QueuePosition(c, was, had, loc, lvl, ref);
    l := DropOrder(lvl, loc.slot, i, c.maxQty);
    CutBook(c, was, had, loc, lvl, l, ref, i);
  }

  method ShrinkOn(c: Limits, lvl: PriceLevel, loc: Location, ref: nat, qty: int, ghost was: seq<BookSide>,
      ghost had: map<nat, Location>)
    returns (l: PriceLevel, gone: bool)
    requires BookOk(c, was, had) && ref in had && loc == had[ref] && Live(was, loc) &&
             lvl == was[Row(loc)].levels[loc.level]
    requires 0 < c.maxQty && 0 < qty
    ensures gone <==> SlotAt(was, loc).qty <= qty
    ensures if gone then Gone(c, was, had, loc, l, ref) else Smaller(c, was, had, loc, l, ref, qty)
  {
    ghost var i := QueuePosition(c, was, had, loc, lvl, ref);
    l, gone := ReduceOrder(lvl, loc.slot, qty, i, c.maxQty);
    if gone {
      CutBook(c, was, had, loc, lvl, l, ref, i);
    } else {
      ShrunkBook(c, was, had, loc, lvl, l, ref, qty, i);
    }
  }

  /** A free slot of a level in use, or -1 when the level is full. */
  method FindSlot(c: Limits, lvl: PriceLevel, ghost was: seq<BookSide>, ghost had: map<nat, Location>, ghost row: nat,
      ghost i: nat)
    returns (slot: int)
    requires BookOk(c, was, had) && row < |was| && i < was[row].count <= |was[row].levels| &&
             lvl == was[row].levels[i] && 0 < c.slots
    ensures slot == NONE ==> |RestingAt(lvl)| == c.slots && lvl.orderCount > 0
    ensures |lvl.orders| == c.slots && i < c.levels
    ensures slot != NONE ==> 0 <= slot < c.slots && !lvl.orders[slot].active && |RestingAt(lvl)| < c.slots
    ensures 0 <= lvl.orderCount
  {
    OpenBook(c, was, had);
    SideAt(c, was, row, row % 2, was[row]);
    FullLevel(lvl, c.maxQty);
    slot := AllocSlot(lvl);
  }

  ghost predicate NoLevel(b: BookSide, price: int) {
    forall k :: 0 <= k < b.count <= |b.levels| ==> b.levels[k].price != price
  }

  /** Every level in use holds an order, except possibly one. */
  ghost predicate Populated(rows: seq<BookSide>, row: int, level: int) {
    forall n :: Unfold(n) ==> forall r :: 0 <= r < |rows| ==> PopulatedBut(rows[r], if r == row then level else -1)
  }

  lemma InsertKeepsPopulated(rows: seq<BookSide>, row: nat, b: BookSide, pos: nat, l: PriceLevel)
    requires row < |rows| && b == rows[row] && pos <= b.count < |b.levels| && Populated(rows, -1, -1)
    ensures Populated(rows[row := Inserted(b, pos, l)], row, pos) && Inserted(b, pos, l).levels[pos] == l
  {
    assert Unfold(0);
    assert PopulatedBut(b, -1);
    forall i: nat | i <= b.count && i != pos ensures Inserted(b, pos, l).levels[i].orderCount > 0 {
      InsertedLevels(b, pos, l, i);
    }
  }

  lemma DeleteKeepsPopulated(rows: seq<BookSide>, row: nat, b: BookSide, pos: nat, l: PriceLevel)
    requires row < |rows| && b == rows[row] && pos < b.count <= |b.levels| && Populated(rows, row, pos)
    ensures Populated(rows[row := Deleted(b, pos, l)], -1, -1)
  {
    assert Unfold(0);
    assert PopulatedBut(b, pos);
    forall i: nat | i < b.count - 1 ensures Deleted(b, pos, l).levels[i].orderCount > 0 {
      DeletedLevels(b, pos, l, i);
    }
  }

  lemma MovedUp(b: BookSide, pos: nat, moved: seq<PriceLevel>)
    requires pos < b.count <= |b.levels|
    requires moved == b.levels[..pos] + b.levels[pos + 1..b.count] + b.levels[b.count - 1..]
    ensures |moved| == |b.levels| && forall lv :: pos <= lv < b.count - 1 ==> moved[lv] == b.levels[lv + 1]
  {
  }

  lemma ClosedSide(b: BookSide, pos: nat, l: PriceLevel, levels: seq<PriceLevel>)
    requires pos < b.count <= |b.levels|
    requires levels == if pos < b.count - 1
                       then b.levels[..pos] + b.levels[pos + 1..b.count] + b.levels[b.count - 1..] else b.levels
    ensures |levels| == |b.levels| && BookSide(levels[b.count - 1 := l], b.count - 1) == Deleted(b, pos, l)
  {
    MoveIsDelete(b, pos, l);
  }

  /** The moved block with its last copy overwritten is the deletion. */
  lemma MoveIsDelete(b: BookSide, pos: nat, l: PriceLevel)
    requires pos < b.count <= |b.levels|
    ensures pos < b.count - 1 ==>
              (b.levels[..pos] + b.levels[pos + 1..b.count] + b.levels[b.count - 1..])[b.count - 1 := l] ==
              Deleted(b, pos, l).levels
    ensures pos == b.count - 1 ==> b.levels[b.count - 1 := l] == Deleted(b, pos, l).levels
  {
  }

  /** No location lies behind the last level. */
  lemma LastLower(c: Limits, rows: seq<BookSide>, contents: map<nat, Location>, row: nat, pos: nat)
    requires BookOk(c, rows, contents) && row < |rows| && pos == rows[row].count - 1
    ensures LoweredAll(contents, row, pos) == contents
  {
    OpenLinks(c, rows, contents);
    forall ref | ref in contents ensures Lowered(contents[ref], row, pos) == contents[ref] {
      assert Live(rows, contents[ref]);
    }
  }

  /** The moved block with its gap overwritten is the insertion. */
  lemma MoveIsInsert(b: BookSide, pos: nat, l: PriceLevel)
    requires pos <= b.count < |b.levels|
    ensures pos < b.count ==>
      (b.levels[..pos + 1] + b.levels[pos..b.count] + b.levels[b.count + 1..])[pos := l] == Inserted(b, pos, l).levels
    ensures pos == b.count ==> b.levels[pos := l] == Inserted(b, pos, l).levels
  {
  }

  /** No location lies behind a level appended at the end. */
  lemma LastBump(c: Limits, rows: seq<BookSide>, contents: map<nat, Location>, row: nat, pos: nat)
    requires BookOk(c, rows, contents) && row < |rows| && pos == rows[row].count
    ensures BumpedAll(contents, row, pos) == contents
  {
    OpenLinks(c, rows, contents);
    forall ref | ref in contents ensures Bumped(contents[ref], row, pos) == contents[ref] {
      assert Live(rows, contents[ref]);
    }
  }
}
