/** The write-ahead log of order events and its replay into an array of recovered orders.
    A log is a sequence of intact records. */
module Recovery {
  import opened Options
  import opened Folding

  datatype EventKind = New | Add | Ack | Fill | TerminalFill | Replace | Cancel

  datatype Event = Event(kind: EventKind, id: nat, quantity: int, price: int, side: nat, time: nat)

  datatype RecoveredOrder = RecoveredOrder(id: nat, remaining: int, price: int, side: nat, time: nat)

  datatype Terms = Terms(remaining: int, price: int, side: nat, time: nat)

  type Orders = map<nat, Terms>

  /** What one record does to the open orders; `None` when it does not fit them. */
  function Applied(m: Orders, e: Event, capacity: nat): Option<Orders> {
    if e.kind == New || e.kind == Add then
      if e.id in m || |m| >= capacity then None else Some(m[e.id := Terms(e.quantity, e.price, e.side, e.time)])
    else if e.id !in m then None
    else
      match e.kind
      case TerminalFill => if 0 < e.quantity <= m[e.id].remaining then Some(m - {e.id}) else None
      case Fill =>
        if e.quantity > m[e.id].remaining then None
        else if e.quantity == m[e.id].remaining then Some(m - {e.id})
        else Some(m[e.id := m[e.id].(remaining := m[e.id].remaining - e.quantity)])
      case Replace =>
        if e.quantity <= 0 then None
        else Some(m[e.id := m[e.id].(remaining := e.quantity, price := if e.price > 0 then e.price else m[e.id].price)])
      case Cancel => Some(m - {e.id})
      case _ => None
  }

  /** Each kind of record by itself. A new order needs a free number and a free row and is open with the
      terms of the record; a fill takes its quantity off the order, which is gone when nothing is left; a
      closing fill and a cancel remove the order; a replacement sets the quantity, and the price if the
      record has one; an acknowledgement is never replayed. Side and time never change, and neither does
      any other order. Kept folded. */
  ghost predicate Recorded(m: Orders, e: Event, capacity: nat, r: Option<Orders>) {
    forall n :: Unfold(n) ==>
      (e.kind == New || e.kind == Add ==> (r.Some? <==> e.id !in m && |m| < capacity)) &&
      (e.kind == Fill ==> (r.Some? <==> e.id in m && e.quantity <= m[e.id].remaining)) &&
      (e.kind == TerminalFill ==> (r.Some? <==> e.id in m && 0 < e.quantity <= m[e.id].remaining)) &&
      (e.kind == Replace ==> (r.Some? <==> e.id in m && e.quantity > 0)) &&
      (e.kind == Cancel ==> (r.Some? <==> e.id in m)) && (e.kind == Ack ==> r == None) &&
      (r.Some? ==> Others(m, e, r.value) && Terminal(m, e, r.value) && Changed(m, e, r.value))
  }

  /** No other order changes. */
  ghost predicate Others(m: Orders, e: Event, m': Orders) {
    forall k :: k != e.id ==> (k in m' <==> k in m) && (k in m ==> m'[k] == m[k])
  }

  /** Which records leave their order open. */
  ghost predicate Terminal(m: Orders, e: Event, m': Orders) {
    match e.kind
    case Fill => e.id in m && (e.id in m' <==> e.quantity < m[e.id].remaining)
    case TerminalFill => e.id !in m'
    case Cancel => e.id !in m'
    case _ => e.id in m'
  }

  /** What the order of the record is like afterwards, if it is open. */
  ghost predicate Changed(m: Orders, e: Event, m': Orders) {
    e.id in m' ==>
      if e.kind == New || e.kind == Add then m'[e.id] == Terms(e.quantity, e.price, e.side, e.time)
      else
        e.id in m && m'[e.id].side == m[e.id].side && m'[e.id].time == m[e.id].time &&
        if e.kind == Fill then
          m'[e.id].remaining + e.quantity == m[e.id].remaining && m'[e.id].price == m[e.id].price
        else
          m'[e.id].remaining == e.quantity && m'[e.id].price == if e.price > 0 then e.price else m[e.id].price
  }

  lemma AppliedMeans(m: Orders, e: Event, capacity: nat)
    ensures Recorded(m, e, capacity, Applied(m, e, capacity))
  {
  }

  /** The open orders a log describes. */
  function Replayed(log: seq<Event>, capacity: nat): Option<Orders> {
    if log == [] then Some(map[])
    else
      match Replayed(log[..|log| - 1], capacity)
      case None => None
      case Some(m) => Applied(m, log[|log| - 1], capacity)
  }

  lemma ReplayedAppend(log: seq<Event>, e: Event, capacity: nat)
    ensures Replayed(log + [e], capacity) ==
            match Replayed(log, capacity) case None => None case Some(m) => Applied(m, e, capacity)
  {
    assert (log + [e])[..|log|] == log;
  }

  /** A log that replays has replayable prefixes: it can be cut at any record. */
  lemma {:induction false} PrefixReplays(log: seq<Event>, k: nat, capacity: nat)
    requires k <= |log| && Replayed(log, capacity).Some?
    ensures Replayed(log[..k], capacity).Some?
  {
    if k == |log| {
      assert log[..k] == log;
    } else {
      PrefixReplays(log[..|log| - 1], k, capacity);
      assert log[..|log| - 1][..k] == log[..k];
    }
  }

  /** The next record of a log, and that the log does not replay if that record does not fit. */
  lemma NextRecord(log: seq<Event>, i: nat, capacity: nat, m: Orders)
    requires i < |log| && Replayed(log[..i], capacity) == Some(m)
    ensures Replayed(log[..i + 1], capacity) == Applied(m, log[i], capacity)
    ensures Applied(m, log[i], capacity) == None ==> Replayed(log, capacity) == None
  {
    assert log[..i + 1] == log[..i] + [log[i]];
    ReplayedAppend(log[..i], log[i], capacity);
    if Replayed(log, capacity).Some? {
      PrefixReplays(log, i + 1, capacity);
    }
  }

  /** More room never changes the outcome of a successful replay. */
  lemma {:induction false} RoomierReplay(log: seq<Event>, small: nat, large: nat)
    requires small <= large && Replayed(log, small).Some?
    ensures Replayed(log, large) == Replayed(log, small)
  {
    if log != [] {
      RoomierReplay(log[..|log| - 1], small, large);
    }
  }

  function TermsOf(r: RecoveredOrder): Terms {
    Terms(r.remaining, r.price, r.side, r.time)
  }

  /** The rows are exactly the entries of the map, each once; `pos` says where each one is. */
  ghost predicate Represents(rows: seq<RecoveredOrder>, m: Orders, pos: map<nat, nat>) {
    forall n :: Unfold(n) ==> Rows(rows, m, pos)
  }

  ghost predicate Rows(rows: seq<RecoveredOrder>, m: Orders, pos: map<nat, nat>) {
    |m| == |rows| && pos.Keys == m.Keys &&
    (forall k {:trigger pos[k]} :: k in pos ==> pos[k] < |rows| && rows[pos[k]].id == k) &&
    (forall i {:trigger rows[i]} ::
      0 <= i < |rows| ==>
        rows[i].id in m && pos[rows[i].id] == i &&
        m[rows[i].id] == Terms(rows[i].remaining, rows[i].price, rows[i].side, rows[i].time))
  }

  /** Dropping a row by moving the last one into its place. */
  lemma SwapRemove(rows: seq<RecoveredOrder>, m: Orders, pos: map<nat, nat>, i: nat)
    requires Rows(rows, m, pos) && i < |rows|
    ensures var last := |rows| - 1;
            Rows(rows[i := rows[last]][..last], m - {rows[i].id}, pos[rows[last].id := i] - {rows[i].id})
  {
    var last, id := |rows| - 1, rows[i].id;
    var rows', m', pos' := rows[i := rows[last]][..last], m - {id}, pos[rows[last].id := i] - {id};
    assert m.Keys == m'.Keys + {id};
    forall k | 0 <= k < |rows'|
      ensures rows'[k].id in m' && m'[rows'[k].id] == TermsOf(rows'[k]) && pos'[rows'[k].id] == k
    {
      assert rows'[k] == if k == i then rows[last] else rows[k];
      assert pos[rows[k].id] == k && pos[rows[last].id] == last;
    }
    forall k | k in pos' ensures pos'[k] < |rows'| && rows'[pos'[k]].id == k {
      assert rows[pos[k]].id == k;
    }
  }

  lemma RowAt(rows: seq<RecoveredOrder>, m: Orders, pos: map<nat, nat>, i: nat)
    requires Represents(rows, m, pos) && i < |rows|
    ensures rows[i].id in m && |m| == |rows|
  {
    assert Rows(rows, m, pos) by { assert Unfold(0); }
  }

  lemma SwapRemoved(rows: seq<RecoveredOrder>, m: Orders, pos: map<nat, nat>, i: nat)
    requires Represents(rows, m, pos) && i < |rows|
    ensures var last := |rows| - 1;
            Represents(rows[i := rows[last]][..last], m - {rows[i].id}, pos[rows[last].id := i] - {rows[i].id})
  {
    assert Rows(rows, m, pos) by { assert Unfold(0); }
    SwapRemove(rows, m, pos, i);
  }

  lemma RowSet(rows: seq<RecoveredOrder>, m: Orders, pos: map<nat, nat>, i: nat, r: RecoveredOrder)
    requires Represents(rows, m, pos) && i < |rows| && r.id == rows[i].id
    ensures Represents(rows[i := r], m[r.id := TermsOf(r)], pos)
  {
    assert Rows(rows, m, pos) by { assert Unfold(0); }
    assert m[r.id := TermsOf(r)].Keys == m.Keys;
  }

  lemma RowAdded(rows: seq<RecoveredOrder>, m: Orders, pos: map<nat, nat>, r: RecoveredOrder)
    requires Represents(rows, m, pos) && r.id !in m
    ensures Represents(rows + [r], m[r.id := TermsOf(r)], pos[r.id := |rows|])
  {
    assert Rows(rows, m, pos) by { assert Unfold(0); }
  }

  class RecoveryLedger {
    var records: seq<Event>

    constructor ()
      ensures records == []
    {
      records := [];
    }

    /** The ledger of a machine that starts up on a log. */
    constructor From(records: seq<Event>)
      ensures this.records == records
    {
      this.records := records;
    }

    /** Appends a record; `stored` is whether the disk took it. */
    method Append(e: Event, stored: bool) returns (ok: bool)
      modifies this
      ensures ok <==> e.id != 0 && e.quantity > 0 && stored
      ensures records == if ok then old(records) + [e] else old(records)
    {
      if e.id == 0 || e.quantity <= 0 || !stored {
        return false;
      }
      records := records + [e];
      return true;
    }

    /** Applies one record to the rows below `count`. */
    static method Apply(e: Event, output: array<RecoveredOrder>, capacity: nat, count: nat, ghost m: Orders,
        ghost pos: map<nat, nat>)
      returns (ok: bool, n: nat, ghost m': Orders, ghost pos': map<nat, nat>)
      requires count <= capacity <= output.Length && Represents(output[..count], m, pos)
      modifies output
      ensures Applied(m, e, capacity) == if ok then Some(m') else None
      ensures Recorded(m, e, capacity, if ok then Some(m') else None)
      ensures ok ==> n <= capacity && Represents(output[..n], m', pos')
    {
      AppliedMeans(m, e, capacity);
      n, m', pos' := count, m, pos;
      var index := Locate(e.id, output, count, m, pos);
      if e.kind == Add || e.kind == New {
        if index != count || count == capacity {
          return false, n, m, pos;
        }
        n, m', pos' := Insert(output, count, RecoveredOrder(e.id, e.quantity, e.price, e.side, e.time), m, pos);
        return true, n, m', pos';
      }
      if index == count {
        return false, n, m, pos;
      }
      if e.kind == TerminalFill {
        if e.quantity <= 0 || e.quantity > output[index].remaining {
          return false, n, m, pos;
        }
        n, m', pos' := Remove(output, count, index, m, pos);
        return true, n, m', pos';
      }
      if e.kind == Fill {
        if e.quantity > output[index].remaining {
          return false, n, m, pos;
        }
        if output[index].remaining == e.quantity {
          n, m', pos' := Remove(output, count, index, m, pos);
        } else {
          m' := Update(output, count, index, output[index].(remaining := output[index].remaining - e.quantity), m, pos);
        }
        return true, n, m', pos';
      }
      if e.kind == Replace {
        if e.quantity <= 0 {
          return false, n, m, pos;
        }
        var price := if e.price > 0 then e.price else output[index].price;
        m' := Update(output, count, index, output[index].(remaining := e.quantity, price := price), m, pos);
        return true, n, m', pos';
      }
      if e.kind == Cancel {
        n, m', pos' := Remove(output, count, index, m, pos);
        return true, n, m', pos';
      }
      return false, n, m, pos;
    }

    /** Linear search; the row count when the order is not there. */
    static method Locate(id: nat, output: array<RecoveredOrder>, count: nat, ghost m: Orders,
        ghost pos: map<nat, nat>) returns (index: nat)
      requires count <= output.Length && Represents(output[..count], m, pos)
      ensures index <= count == |m| && (index == count <==> id !in m)
      ensures index < count ==> output[index].id == id && m[id] == TermsOf(output[index])
    {
      ghost var rows := output[..count];
      assert Rows(rows, m, pos) by { assert Unfold(0); }
      index := 0;
      while index < count && output[index].id != id
        invariant index <= count
        invariant id in m ==> pos[id] >= index
      {
        assert rows[index].id != id;
        index := index + 1;
      }
      assert index < count ==> rows[index].id == id;
    }

    static method Insert(output: array<RecoveredOrder>, count: nat, r: RecoveredOrder, ghost m: Orders,
        ghost pos: map<nat, nat>)
      returns (n: nat, ghost m': Orders, ghost pos': map<nat, nat>)
      requires count < output.Length && Represents(output[..count], m, pos) && r.id !in m
      modifies output
      ensures n == count + 1 && m' == m[r.id := TermsOf(r)] && Represents(output[..n], m', pos')
    {
      ghost var rows := output[..count];
      RowAdded(rows, m, pos, r);
      output[count] := r;
      n, m', pos' := count + 1, m[r.id := TermsOf(r)], pos[r.id := count];
      assert output[..n] == rows + [r];
    }

    static method Update(output: array<RecoveredOrder>, count: nat, index: nat, r: RecoveredOrder, ghost m: Orders,
        ghost pos: map<nat, nat>)
      returns (ghost m': Orders)
      requires index < count <= output.Length && Represents(output[..count], m, pos) && r.id == output[index].id
      modifies output
      ensures m' == m[r.id := TermsOf(r)] && Represents(output[..count], m', pos)
    {
      ghost var rows := output[..count];
      RowSet(rows, m, pos, index, r);
      output[index] := r;
      m' := m[r.id := TermsOf(r)];
      assert output[..count] == rows[index := r];
    }

    /** Fills the gap with the last row. */
    static method Remove(output: array<RecoveredOrder>, count: nat, index: nat, ghost m: Orders,
        ghost pos: map<nat, nat>)
      returns (n: nat, ghost m': Orders, ghost pos': map<nat, nat>)
      requires index < count <= output.Length && Represents(output[..count], m, pos)
      modifies output
      ensures n == count - 1 && m' == m - {old(output[index]).id} && Represents(output[..n], m', pos')
    {
      ghost var rows := output[..count];
      RowAt(rows, m, pos, index);
      SwapRemoved(rows, m, pos, index);
      m', pos' := m - {rows[index].id}, pos[rows[count - 1].id := index] - {rows[index].id};
      output[index] := output[count - 1];
      n := count - 1;
      assert output[..n] == rows[index := rows[count - 1]][..n];
    }

    /** Replays the whole log: succeeds exactly when every record fits, and then leaves the
        open orders in the first `count` rows. */
    method Replay(output: array<RecoveredOrder>, capacity: nat) returns (ok: bool, count: nat, ghost pos: map<nat, nat>)
      requires capacity <= output.Length
      modifies output
      ensures ok <==> capacity > 0 && Replayed(records, capacity).Some?
      ensures ok ==> count <= capacity && Represents(output[..count], Replayed(records, capacity).value, pos)
    {
      count, pos := 0, map[];
      if capacity == 0 {
        return false, 0, pos;
      }
      ghost var m: Orders := map[];
      var index := 0;
      while index < |records|
        invariant index <= |records| && count <= capacity
        invariant Replayed(records[..index], capacity) == Some(m)
        invariant Represents(output[..count], m, pos)
      {
        NextRecord(records, index, capacity, m);
        var applied;
        applied, count, m, pos := Apply(records[index], output, capacity, count, m, pos);
        if !applied {
          return false, count, pos;
        }
        index := index + 1;
      }
      assert records[..index] == records;
      return true, count, pos;
    }
  }
}
