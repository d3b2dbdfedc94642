/** The reconciliation ledger: open-addressing table without tombstones, whose cancel
    repairs the probe cluster by reinserting every entry behind the freed slot. */
module Ledger {
  import opened Folding
  import opened Probing

  const UINT32_MAX: nat := 0xFFFF_FFFF

  datatype Shape = Shape(capacity: nat, hash: nat -> nat)
  {
    ghost predicate Valid() {
      0 < capacity && forall k: nat :: hash(k) < capacity
    }

    function Home(k: nat): nat {
      hash(k)
    }
  }

  /** Identifiers and slots match one to one; 0 marks an empty slot. */
  ghost predicate Table(g: Shape, ids: seq<nat>, slotOf: map<nat, nat>) {
    g.Valid() && |ids| == g.capacity &&
    (forall k {:trigger slotOf[k]} :: k in slotOf ==> k != 0 && slotOf[k] < g.capacity && ids[slotOf[k]] == k) &&
    (forall s :: 0 <= s < |ids| && ids[s] != 0 ==> ids[s] in slotOf && slotOf[ids[s]] == s)
  }

  /** The probe for the entry in slot `s` meets no empty slot, except possibly `hole`. */
  ghost predicate ReachedBut(g: Shape, ids: seq<nat>, s: nat, hole: int)
    requires g.Valid() && |ids| == g.capacity && s < g.capacity
  {
    forall p :: 0 <= p < Dist(g.capacity, g.Home(ids[s]), s) ==>
      var x := At(g.capacity, g.Home(ids[s]), p); ids[x] == 0 ==> x == hole
  }

  /** Every entry is reached by its own probe. */
  ghost predicate AllReached(g: Shape, ids: seq<nat>) {
    g.Valid() && |ids| == g.capacity &&
    forall s :: 0 <= s < |ids| && ids[s] != 0 ==> ReachedBut(g, ids, s, -1)
  }

  /** Repair in progress: only `hole` may break a probe, and only for entries that lie at
      least `j` slots behind it. */
  ghost predicate Repairing(g: Shape, ids: seq<nat>, hole: nat, j: nat) {
    g.Valid() && |ids| == g.capacity && hole < g.capacity && 1 <= j <= g.capacity && ids[hole] == 0 &&
    forall s :: 0 <= s < |ids| && ids[s] != 0 ==>
      ReachedBut(g, ids, s, if Dist(g.capacity, hole, s) < j then -1 else hole)
  }

  /** Sum of the distances of all entries from their home slots. */
  ghost function Displacement(g: Shape, ids: seq<nat>, n: nat): nat
    requires g.Valid() && |ids| == g.capacity && n <= g.capacity
  {
    if n == 0 then 0
    else Displacement(g, ids, n - 1) + (if ids[n - 1] == 0 then 0 else Dist(g.capacity, g.Home(ids[n - 1]), n - 1))
  }

  lemma {:induction false} DisplacementMove(g: Shape, a: seq<nat>, b: seq<nat>, n: nat, s: nat, d: int)
    requires g.Valid() && |a| == |b| == g.capacity && n <= g.capacity && s < g.capacity
    requires forall x :: 0 <= x < n && x != s ==> a[x] == b[x]
    requires d == (if b[s] == 0 then 0 else Dist(g.capacity, g.Home(b[s]), s)) - (if a[s] == 0 then 0
             else Dist(g.capacity, g.Home(a[s]), s))
    ensures Displacement(g, b, n) == Displacement(g, a, n) + if s < n then d else 0
  {
    if n > 0 {
      DisplacementMove(g, a, b, n - 1, s, d);
    }
  }

  /** Freeing one slot of a sound table starts a repair right behind it. */
  lemma StartRepair(g: Shape, ids: seq<nat>, h: nat)
    requires AllReached(g, ids) && h < g.capacity
    ensures Repairing(g, ids[h := 0], h, 1)
  {
    var ids' := ids[h := 0];
    forall s | 0 <= s < |ids'| && ids'[s] != 0
      ensures ReachedBut(g, ids', s, if Dist(g.capacity, h, s) < 1 then -1 else h)
    {
      assert ReachedBut(g, ids, s, -1);
    }
  }

  /** A repair that meets an empty slot is finished. */
  lemma EndRepair(g: Shape, ids: seq<nat>, h: nat, j: nat)
    requires Repairing(g, ids, h, j) && (j == g.capacity || ids[At(g.capacity, h, j)] == 0)
    ensures AllReached(g, ids)
  {
    forall s | 0 <= s < |ids| && ids[s] != 0
      ensures ReachedBut(g, ids, s, -1)
    {
      var home := g.Home(ids[s]);
      var stop := if j == g.capacity then h else At(g.capacity, h, j);
      assert At(g.capacity, home, Dist(g.capacity, home, stop)) == stop;
    }
  }

  /** The entry in the scanned slot can move into the hole, its own probe leading there:
      the hole moves to the scanned slot and every probe is whole but for it. */
  lemma MoveIntoHole(g: Shape, ids: seq<nat>, h: nat, j: nat, s: nat, id: nat)
    requires Repairing(g, ids, h, j) && j < g.capacity && s == At(g.capacity, h, j) && ids[s] == id != 0
    requires Dist(g.capacity, g.Home(id), h) < Dist(g.capacity, g.Home(id), s)
    ensures Repairing(g, ids[s := 0][h := id], s, 1)
    ensures Displacement(g, ids[s := 0][h := id], g.capacity) < Displacement(g, ids, g.capacity)
  {
    var mid, ids' := ids[s := 0], ids[s := 0][h := id];
    forall x | 0 <= x < |ids'| && ids'[x] != 0
      ensures ReachedBut(g, ids', x, if Dist(g.capacity, s, x) < 1 then -1 else s)
    {
      if x == h {
        assert ReachedBut(g, ids, s, h);
      } else {
        assert ReachedBut(g, ids, x, if Dist(g.capacity, h, x) < j then -1 else h);
      }
    }
    DisplacementMove(g, ids, mid, g.capacity, s, 0 - Dist(g.capacity, g.Home(id), s));
    DisplacementMove(g, mid, ids', g.capacity, h, Dist(g.capacity, g.Home(id), h));
  }

  /** An entry whose probe does not cross the hole stays where it is. */
  lemma StayPut(g: Shape, ids: seq<nat>, h: nat, j: nat, s: nat)
    requires Repairing(g, ids, h, j) && j < g.capacity && s == At(g.capacity, h, j) && ids[s] != 0
    requires Dist(g.capacity, g.Home(ids[s]), h) >= Dist(g.capacity, g.Home(ids[s]), s)
    ensures Repairing(g, ids, h, j + 1)
  {
    forall x | 0 <= x < |ids| && ids[x] != 0
      ensures ReachedBut(g, ids, x, if Dist(g.capacity, h, x) < j + 1 then -1 else h)
    {
      assert ReachedBut(g, ids, x, if Dist(g.capacity, h, x) < j then -1 else h);
      if Dist(g.capacity, h, x) == j {
        assert x == s;
      }
    }
  }

  /** Where the reinsertion probe of the lifted entry stops: the hole if its probe crosses
      it, otherwise its own slot. */
  lemma FirstFree(g: Shape, ids: seq<nat>, slotOf: map<nat, nat>, h: nat, j: nat, s: nat, dest: nat)
    requires Table(g, ids, slotOf) && Repairing(g, ids, h, j) && j < g.capacity && s == At(g.capacity, h, j) &&
             ids[s] != 0
    requires FirstOf(g, ids[s := 0], ids[s], dest)
    ensures dest == if Dist(g.capacity, g.Home(ids[s]), h) < Dist(g.capacity, g.Home(ids[s]), s) then h else s
  {
    var home := g.Home(ids[s]);
    assert ReachedBut(g, ids, s, h);
    assert At(g.capacity, home, Dist(g.capacity, home, h)) == h;
    assert At(g.capacity, home, Dist(g.capacity, home, s)) == s;
    assert At(g.capacity, home, Dist(g.capacity, home, dest)) == dest;
  }

  /** The first slot of the probe for `id` that holds `id` or is empty. */
  ghost predicate FirstOf(g: Shape, ids: seq<nat>, id: nat, dest: nat)
    requires g.Valid() && |ids| == g.capacity
  {
    dest < g.capacity && (ids[dest] == id || ids[dest] == 0) &&
    forall p :: 0 <= p < Dist(g.capacity, g.Home(id), dest) ==>
      ids[At(g.capacity, g.Home(id), p)] != id && ids[At(g.capacity, g.Home(id), p)] != 0
  }

  // ----- Lookup as a function -----

  /** The slot a lookup of `id` returns from hop `p` on, or -1. */
  function Probe(g: Shape, ids: seq<nat>, id: nat, p: nat): int
    requires g.hash(id) < g.capacity == |ids|
    decreases g.capacity - p
  {
    if p >= g.capacity then -1
    else
      var x := At(g.capacity, g.Home(id), p);
      if ids[x] == id then x else if ids[x] == 0 then -1 else Probe(g, ids, id, p + 1)
  }

  lemma {:induction false} ProbeStops(g: Shape, ids: seq<nat>, id: nat, p: nat, dest: nat)
    requires g.Valid() && |ids| == g.capacity && id != 0 && FirstOf(g, ids, id, dest) &&
             p <= Dist(g.capacity, g.Home(id), dest)
    ensures Probe(g, ids, id, p) == if ids[dest] == id then dest else -1
    decreases g.capacity - p
  {
    if p < Dist(g.capacity, g.Home(id), dest) {
      ProbeStops(g, ids, id, p + 1, dest);
    } else {
      assert At(g.capacity, g.Home(id), p) == dest;
    }
  }

  lemma {:induction false} ProbeRejects(g: Shape, ids: seq<nat>, id: nat, p: nat, x: nat)
    requires g.Valid() && |ids| == g.capacity && id != 0 && p <= x < g.capacity
    requires ids[At(g.capacity, g.Home(id), x)] == 0
    requires forall q :: p <= q <= x ==> ids[At(g.capacity, g.Home(id), q)] != id
    ensures Probe(g, ids, id, p) == -1
    decreases x - p
  {
    if p < x {
      ProbeRejects(g, ids, id, p + 1, x);
    }
  }

  /** An entry is found by lookup exactly when its probe meets no empty slot. */
  lemma FoundIffReached(g: Shape, ids: seq<nat>, slotOf: map<nat, nat>, id: nat, s: nat)
    requires Table(g, ids, slotOf) && id in slotOf && s == slotOf[id]
    ensures Probe(g, ids, id, 0) == s <==> ReachedBut(g, ids, s, -1)
  {
    var home, d := g.Home(id), Dist(g.capacity, g.Home(id), s);
    assert At(g.capacity, home, d) == s;
    if ReachedBut(g, ids, s, -1) {
      forall p | 0 <= p < d ensures ids[At(g.capacity, home, p)] != id {
        assert At(g.capacity, home, p) != s;
      }
      ProbeStops(g, ids, id, 0, s);
    } else {
      var x :| 0 <= x < d && ids[At(g.capacity, home, x)] == 0;
      forall q | 0 <= q <= x ensures ids[At(g.capacity, home, q)] != id {
        assert At(g.capacity, home, q) != s;
      }
      ProbeRejects(g, ids, id, 0, x);
    }
  }

  /** No other entry's probe passes through `slot`. */
  ghost predicate NoneCross(g: Shape, ids: seq<nat>, slot: nat)
    requires g.Valid() && |ids| == g.capacity && slot < g.capacity
  {
    forall s :: 0 <= s < |ids| && s != slot && ids[s] != 0 ==>
      Dist(g.capacity, g.Home(ids[s]), s) <= Dist(g.capacity, g.Home(ids[s]), slot)
  }

  /** No other entry's probe passes through the slot of `id`. */
  ghost predicate Uncrossed(g: Shape, ids: seq<nat>, id: nat)
    requires g.Valid() && |ids| == g.capacity
  {
    forall slot {:trigger ids[slot]} :: 0 <= slot < g.capacity && ids[slot] == id ==> NoneCross(g, ids, slot)
  }

  /** Clearing a slot without repair, as a terminal fill does, keeps every other order
      findable exactly when no other entry's probe passes through it. */
  lemma RetireKeepsOthersIff(g: Shape, ids: seq<nat>, slotOf: map<nat, nat>, id: nat)
    requires Table(g, ids, slotOf) && AllReached(g, ids) && id in slotOf
    ensures (forall k :: k in slotOf && k != id ==> Probe(g, ids[slotOf[id] := 0], k, 0) == slotOf[k])
            <==> NoneCross(g, ids, slotOf[id])
  {
    var slot := slotOf[id];
    var ids' := ids[slot := 0];
    forall k | k in slotOf && k != id
      ensures Probe(g, ids', k, 0) == slotOf[k] <==>
              Dist(g.capacity, g.Home(k), slotOf[k]) <= Dist(g.capacity, g.Home(k), slot)
    {
      FoundIffReached(g, ids', slotOf - {id}, k, slotOf[k]);
      assert ReachedBut(g, ids, slotOf[k], -1);
      assert At(g.capacity, g.Home(k), Dist(g.capacity, g.Home(k), slot)) == slot;
    }
    if NoneCross(g, ids, slot) {
      forall k | k in slotOf && k != id ensures Probe(g, ids', k, 0) == slotOf[k] {
        assert ids[slotOf[k]] == k;
      }
    } else {
      var s :| 0 <= s < |ids| && s != slot && ids[s] != 0 &&
               Dist(g.capacity, g.Home(ids[s]), s) > Dist(g.capacity, g.Home(ids[s]), slot);
      assert ids[s] in slotOf && slotOf[ids[s]] == s;
    }
  }

  /** Two orders with one home in an empty table: the first sits at home, the second behind it.
      Clearing the first ends the second's probe at its first slot. */
  lemma CollidersHide(g: Shape, empty: seq<nat>, a: nat, b: nat, s: nat, t: nat, u: nat)
    requires g.Valid() && |empty| == g.capacity && (forall x :: 0 <= x < |empty| ==> empty[x] == 0)
    requires a != 0 && b != 0 && a != b && g.Home(a) == g.Home(b)
    requires FirstOf(g, empty, a, s) && FirstOf(g, empty[s := a], b, t) && empty[s := a][t] == 0
    requires u < g.capacity && empty[s := a][t := b][u] == a
    ensures Probe(g, empty[s := a][t := b], b, 0) == t && Probe(g, empty[s := a][t := b][u := 0], b, 0) == -1
  {
    assert At(g.capacity, g.Home(a), 0) == g.Home(a) == s == u;
    ProbeStops(g, empty[s := a][t := b], b, 0, t);
  }

  /** Remaining quantities belong to the identifiers beside them. */
  ghost predicate Carries(g: Shape, remaining: seq<int>, slotOf: map<nat, nat>, contents: map<nat, int>) {
    |remaining| == g.capacity && contents.Keys == slotOf.Keys &&
    forall k {:trigger slotOf[k]} :: k in slotOf ==> slotOf[k] < g.capacity && contents[k] == remaining[slotOf[k]]
  }

  /** The table as a whole, kept folded. */
  ghost predicate Kept(g: Shape, ids: seq<nat>, remaining: seq<int>, slotOf: map<nat, nat>, contents: map<nat, int>) {
    forall n :: Unfold(n) ==> Table(g, ids, slotOf) && AllReached(g, ids) && Carries(g, remaining, slotOf, contents)
  }

  lemma Keep(g: Shape, ids: seq<nat>, remaining: seq<int>, slotOf: map<nat, nat>, contents: map<nat, int>)
    requires Table(g, ids, slotOf) && AllReached(g, ids) && Carries(g, remaining, slotOf, contents)
    ensures Kept(g, ids, remaining, slotOf, contents)
  {
  }

  ghost predicate HasEmpty(ids: seq<nat>) {
    exists s :: 0 <= s < |ids| && ids[s] == 0
  }

  /** Placing a new identifier in the first empty slot of its probe. */
  lemma PlaceEntry(g: Shape, ids: seq<nat>, slotOf: map<nat, nat>, id: nat, s: nat)
    requires Table(g, ids, slotOf) && AllReached(g, ids) && id != 0 && id !in slotOf && FirstOf(g, ids, id, s) &&
             ids[s] == 0
    ensures Table(g, ids[s := id], slotOf[id := s]) && AllReached(g, ids[s := id])
  {
    var ids' := ids[s := id];
    forall x | 0 <= x < |ids'| && ids'[x] != 0 ensures ReachedBut(g, ids', x, -1) {
      if x != s {
        assert ReachedBut(g, ids, x, -1);
      }
    }
  }

  ghost function KeysBelow(ids: seq<nat>, n: nat): set<nat>
    requires n <= |ids|
  {
    set s | 0 <= s < n && ids[s] != 0 :: ids[s]
  }

  lemma HasEmptyMore(ids: seq<nat>, n: nat)
    requires 0 < n <= |ids|
    ensures HasEmpty(ids[..n]) <==> HasEmpty(ids[..n - 1]) || ids[n - 1] == 0
  {
    if HasEmpty(ids[..n - 1]) {
      var x :| 0 <= x < n - 1 && ids[..n - 1][x] == 0;
      assert ids[..n][x] == 0;
    }
    if ids[n - 1] == 0 {
      assert ids[..n][n - 1] == 0;
    }
    if HasEmpty(ids[..n]) {
      var x :| 0 <= x < n && ids[..n][x] == 0;
      assert x < n - 1 ==> ids[..n - 1][x] == 0;
    }
  }

  lemma {:induction false} CountKeys(g: Shape, ids: seq<nat>, slotOf: map<nat, nat>, n: nat)
    requires Table(g, ids, slotOf) && n <= g.capacity
    ensures |KeysBelow(ids, n)| <= n && (|KeysBelow(ids, n)| == n <==> !HasEmpty(ids[..n]))
  {
    if n == 0 {
      assert KeysBelow(ids, 0) == {};
    } else {
      CountKeys(g, ids, slotOf, n - 1);
      HasEmptyMore(ids, n);
      if ids[n - 1] == 0 {
        assert KeysBelow(ids, n) == KeysBelow(ids, n - 1);
      } else {
        assert KeysBelow(ids, n) == KeysBelow(ids, n - 1) + {ids[n - 1]};
        assert ids[n - 1] !in KeysBelow(ids, n - 1);
      }
    }
  }

  /** A slot is empty exactly while fewer orders are open than the table has slots. */
  lemma RoomIffEmpty(g: Shape, ids: seq<nat>, slotOf: map<nat, nat>, contents: map<nat, int>)
    requires Table(g, ids, slotOf) && contents.Keys == slotOf.Keys
    ensures HasEmpty(ids) <==> |contents| < g.capacity
  {
    assert |contents| == |contents.Keys|;
    CountKeys(g, ids, slotOf, g.capacity);
    assert ids[..g.capacity] == ids;
    assert KeysBelow(ids, g.capacity) == slotOf.Keys by {
      assert forall k :: k in slotOf ==> ids[slotOf[k]] == k;
    }
  }

  // ----- Runs -----

  datatype Op = Open(id: nat, quantity: int) | Amend(id: nat, quantity: int) | Fill(id: nat,
      filled: int) | Close(id: nat)

  /** What one call does to the finite map of open orders, and whether it succeeds. */
  function MapStep(capacity: nat, m: map<nat, int>, op: Op): (map<nat, int>, bool) {
    match op
    case Open(id, q) => if id != 0 && q > 0 && id !in m && |m| < capacity then (m[id := q], true) else (m, false)
    case Amend(id, q) => if id in m && q > 0 then (m[id := q], true) else (m, false)
    case Fill(id, q) => if id in m && 0 < q < m[id] then (m[id := m[id] - q], true) else (m, false)
    case Close(id) => (m - {id}, id in m)
  }

  function MapRun(capacity: nat, m: map<nat, int>, ops: seq<Op>): (map<nat, int>, seq<bool>)
    decreases |ops|
  {
    if ops == [] then (m, [])
    else
      var (m', ok) := MapStep(capacity, m, ops[0]);
      var (end, oks) := MapRun(capacity, m', ops[1..]);
      (end, [ok] + oks)
  }

  /** A fill leaves the order open or is refused, and 0 is cancelled only on a full table. */
  predicate Allowed(capacity: nat, m: map<nat, int>, op: Op) {
    (op.Fill? && op.id in m ==> op.filled != m[op.id]) && (op.Close? && op.id == 0 ==> |m| >= capacity)
  }

  predicate InScope(capacity: nat, m: map<nat, int>, ops: seq<Op>)
    decreases |ops|
  {
    ops != [] ==> Allowed(capacity, m, ops[0]) && InScope(capacity, MapStep(capacity, m, ops[0]).0, ops[1..])
  }

  /** One more call of a run. */
  lemma FirstOp(capacity: nat, m: map<nat, int>, ops: seq<Op>, i: nat, all: (map<nat, int>, seq<bool>), oks: seq<bool>)
    requires i < |ops| && InScope(capacity, m, ops[i..])
    requires all.0 == MapRun(capacity, m, ops[i..]).0 && all.1 == oks + MapRun(capacity, m, ops[i..]).1
    ensures Allowed(capacity, m, ops[i])
    ensures var (m', ok) := MapStep(capacity, m, ops[i]);
            InScope(capacity, m', ops[i + 1..]) && all.0 == MapRun(capacity, m', ops[i + 1..]).0 &&
            all.1 == (oks + [ok]) + MapRun(capacity, m', ops[i + 1..]).1
  {
    assert ops[i..][0] == ops[i] && ops[i..][1..] == ops[i + 1..];
  }

  class ReconciliationLedger {
    const g: Shape
    const ids: array<nat>
    const remaining: array<int>
    var open: nat
    ghost var slotOf: map<nat, nat>
    /** The finite map this ledger stands for: open orders and what remains of them. */
    ghost var contents: map<nat, int>

    ghost predicate Valid()
      reads this, ids, remaining
    {
      Tidy() && open == |contents|
    }

    /** The table is sound, whatever the counter says. */
    ghost predicate Tidy()
      reads this, ids, remaining
    {
      g.Valid() && ids.Length == g.capacity && remaining.Length == g.capacity &&
      Kept(g, ids[..], remaining[..], slotOf, contents)
    }

    constructor (g: Shape)
      requires g.Valid()
      ensures Valid() && this.g == g && contents == map[] && fresh(ids) && fresh(remaining)
      ensures forall s :: 0 <= s < ids.Length ==> ids[s] == 0
    {
      this.g := g;
      ids := new nat[g.capacity](_ => 0);
      remaining := new int[g.capacity](_ => 0);
      open := 0;
      slotOf := map[];
      contents := map[];
    }

    /** First slot of the probe holding `id` or nothing; the capacity when there is none. */
    method FindOrEmpty(id: nat) returns (slot: nat)
      requires g.Valid() && ids.Length == g.capacity
      ensures slot <= g.capacity
      ensures slot < g.capacity ==> FirstOf(g, ids[..], id, slot)
      ensures slot == g.capacity ==> id !in ids[..] && !HasEmpty(ids[..])
    {
      slot := g.Home(id);
      var probe := 0;
      while probe < g.capacity
        invariant probe <= g.capacity && slot < g.capacity
        invariant probe < g.capacity ==> slot == At(g.capacity, g.Home(id), probe)
        invariant forall p :: 0 <= p < probe ==>
                    ids[At(g.capacity, g.Home(id), p)] != id && ids[At(g.capacity, g.Home(id), p)] != 0
      {
        if ids[slot] == id || ids[slot] == 0 {
          return;
        }
        slot := Next(g.capacity, slot);
        probe := probe + 1;
      }
      forall s | 0 <= s < g.capacity ensures ids[s] != id && ids[s] != 0 {
        assert At(g.capacity, g.Home(id), Dist(g.capacity, g.Home(id), s)) == s;
      }
      slot := g.capacity;
    }

    /** The slot of an order, or -1. */
    method Find(id: nat) returns (slot: int)
      requires Valid() && id != 0
      ensures -1 <= slot < g.capacity && (slot == -1 <==> id !in contents)
      ensures slot != -1 ==> ids[slot] == id && remaining[slot] == contents[id]
    {
      var at := FindOrEmpty(id);
      ProbeMeans(g, ids[..], remaining[..], slotOf, contents, id, at);
      slot := if at == g.capacity || ids[at] == 0 then -1 else at;
    }

    /** The lookup as it is, on any table. */
    method Search(id: nat) returns (slot: int)
      requires g.Valid() && ids.Length == g.capacity
      ensures slot == Probe(g, ids[..], id, 0)
    {
      slot := g.Home(id);
      var probe := 0;
      while probe < g.capacity
        invariant probe <= g.capacity && 0 <= slot < g.capacity
        invariant probe < g.capacity ==> slot == At(g.capacity, g.Home(id), probe)
        invariant Probe(g, ids[..], id, 0) == Probe(g, ids[..], id, probe)
      {
        if ids[slot] == id {
          return;
        }
        if ids[slot] == 0 {
          return -1;
        }
        slot := Next(g.capacity, slot);
        probe := probe + 1;
      }
      return -1;
    }

    method Contains(id: nat) returns (found: bool)
      requires Valid()
      ensures found <==> id in contents
    {
      if id == 0 {
        assert id !in contents by { assert Unfold(0); }
        return false;
      }
      var slot := Find(id);
      found := slot != -1;
    }

    /** Opens an order; refused for a zero or known identifier, a non-positive quantity or a full table. */
    method Register(id: nat, quantity: int) returns (ok: bool)
      requires Valid()
      modifies this, ids, remaining
      ensures Valid()
      ensures ok <==> id != 0 && quantity > 0 && id !in old(contents) && old(|contents|) < g.capacity
      ensures contents == if ok then old(contents)[id := quantity] else old(contents)
      ensures ok ==>
                exists slot :: 0 <= slot < g.capacity && FirstOf(g, old(ids[..]), id, slot) && old(ids[slot]) == 0 &&
                                    ids[..] == old(ids[..])[slot := id]
    {
      if id == 0 || quantity <= 0 {
        return false;
      }
      var slot := FindOrEmpty(id);
      ProbeMeans(g, ids[..], remaining[..], slotOf, contents, id, slot);
      if slot == g.capacity || ids[slot] != 0 {
        return false;
      }
      PutKept(g, ids[..], remaining[..], slotOf, contents, id, quantity, slot);
      Write(slot, id, quantity);
      open := open + 1;
      slotOf, contents := slotOf[id := slot], contents[id := quantity];
      return true;
    }

    method Write(slot: nat, id: nat, quantity: int)
      requires slot < ids.Length == remaining.Length
      modifies ids, remaining
      ensures ids[..] == old(ids[..])[slot := id] && remaining[..] == old(remaining[..])[slot := quantity]
    {
      ids[slot] := id;
      remaining[slot] := quantity;
    }

    /** Sets what remains of an open order. */
    method Replace(id: nat, quantity: int) returns (ok: bool)
      requires Valid()
      modifies this, ids, remaining
      ensures Valid() && (ok <==> id in old(contents) && quantity > 0)
      ensures contents == if ok then old(contents)[id := quantity] else old(contents)
    {
      assert id == 0 ==> id !in contents by { assert Unfold(0); }
      if id == 0 || quantity <= 0 {
        return false;
      }
      var slot := Find(id);
      if slot == -1 {
        return false;
      }
      Resize(slot, id, quantity);
      return true;
    }

    method Resize(slot: nat, id: nat, quantity: int)
      requires Valid() && slot < g.capacity && ids[slot] == id && id != 0 && id in contents
      modifies this`contents, ids, remaining
      ensures Valid() && contents == old(contents)[id := quantity]
    {
      ResizeKept(g, ids[..], remaining[..], slotOf, contents, id, quantity, slot);
      Write(slot, id, quantity);
      contents := contents[id := quantity];
    }

    /** A fill report. A fill that leaves the order open is the map update; one that closes
        it clears the slot and repairs nothing. */
    method Apply(id: nat, filled: int, terminal: bool) returns (ok: bool)
      requires Valid()
      modifies this, ids, remaining
      ensures ok <==> id in old(contents) && 0 < filled <= old(contents)[id]
      ensures !ok ==> Valid() && contents == old(contents)
      ensures ok && !terminal && filled < old(contents)[id] ==>
                Valid() && contents == old(contents)[id := old(contents)[id] - filled]
      ensures ok && (terminal || filled == old(contents)[id]) ==>
                contents == old(contents) - {id} && open == old(open) - 1 &&
                exists slot :: 0 <= slot < g.capacity && old(ids[slot]) == id && ids[..] == old(ids[..])[slot := 0] &&
                               (Valid() <==> NoneCross(g, old(ids[..]), slot))
      ensures ok && (terminal || filled == old(contents)[id]) ==> (Valid() <==> Uncrossed(g, old(ids[..]), id))
    {
      assert id == 0 ==> id !in contents by { assert Unfold(0); }
      if id == 0 || filled <= 0 {
        return false;
      }
      var slot := Find(id);
      if slot == -1 || filled > remaining[slot] {
        return false;
      }
      var left := remaining[slot] - filled;
      if terminal || left == 0 {
        UncrossedAt(slot, id);
        Retire(slot, id);
      } else {
        Resize(slot, id, left);
      }
      return true;
    }

    lemma UncrossedAt(slot: nat, id: nat)
      requires Tidy() && slot < g.capacity && ids[slot] == id && id != 0
      ensures Uncrossed(g, ids[..], id) <==> NoneCross(g, ids[..], slot)
    {
      assert Table(g, ids[..], slotOf) by { assert Unfold(0); }
      assert forall s :: 0 <= s < g.capacity && ids[..][s] == id ==> s == slotOf[id];
      assert ids[..][slot] == id;
    }

    /** Whether another entry's probe passes through the slot of an open order. */
    method Watch(id: nat) returns (crossed: bool)
      requires Valid() && id in contents
      ensures crossed <==> !Uncrossed(g, ids[..], id)
    {
      NoZero();
      var slot := Find(id);
      UncrossedAt(slot, id);
      var s := 0;
      while s < g.capacity
        invariant s <= g.capacity
        invariant forall k :: 0 <= k < s && k != slot && ids[k] != 0 ==>
                    Dist(g.capacity, g.Home(ids[k]), k) <= Dist(g.capacity, g.Home(ids[k]), slot)
      {
        if s != slot && ids[s] != 0 && Dist(g.capacity, g.Home(ids[s]), s) > Dist(g.capacity, g.Home(ids[s]), slot) {
          assert ids[..][s] == ids[s];
          return true;
        }
        s := s + 1;
      }
      return false;
    }

    /** Clears a slot and nothing else. The ledger stays sound exactly when no other
        order's probe passes through it. */
    method Retire(slot: nat, id: nat)
      requires Valid() && slot < g.capacity && ids[slot] == id && id != 0
      modifies this, ids, remaining
      ensures id in old(contents) && contents == old(contents) - {id} && open == old(open) - 1
      ensures ids[..] == old(ids[..])[slot := 0]
      ensures Valid() <==> NoneCross(g, old(ids[..]), slot)
      ensures Table(g, ids[..], slotOf) && Carries(g, remaining[..], slotOf, contents) && open == |contents|
    {
      RetireKept(g, ids[..], remaining[..], slotOf, contents, slot, id);
      Clear(slot, slotOf - {id}, contents - {id});
    }

    method Clear(slot: nat, ghost left: map<nat, nat>, ghost rest: map<nat, int>)
      requires slot < ids.Length == remaining.Length && open > 0
      modifies this, ids, remaining
      ensures ids[..] == old(ids[..])[slot := 0] && remaining[..] == old(remaining[..])[slot := 0]
      ensures open == old(open) - 1 && slotOf == left && contents == rest
    {
      Write(slot, 0, 0);
      open, slotOf, contents := open - 1, left, rest;
    }

    /** Lifts the entry in the scanned slot and puts it back at the first free slot of its probe:
        either it moves into the hole, which is now the scanned slot, or nothing changes and the
        scan has gone one slot further. */
    method Reseat(slot: nat, ghost h: nat, ghost j: nat) returns (ghost hole: nat, ghost behind: nat)
      requires g.Valid() && ids.Length == remaining.Length == g.capacity &&
               Broken(g, ids[..], remaining[..], slotOf, contents, h, j)
      requires h < g.capacity && j < g.capacity && slot == At(g.capacity, h, j) && ids[slot] != 0
      modifies this`slotOf, ids, remaining
      ensures Broken(g, ids[..], remaining[..], slotOf, contents, hole, behind)
      ensures ids[..] == if Crosses(g, old(ids[slot]), h, slot) then old(ids[..])[slot := 0][h := old(ids[slot])]
              else old(ids[..])
      ensures if Crosses(g, old(ids[slot]), h, slot) then hole == slot && behind == 1 else hole == h && behind == j + 1
      ensures hole == slot ==> Displacement(g, ids[..], g.capacity) < old(Displacement(g, ids[..], g.capacity))
    {
      ghost var was, held := ids[..], remaining[..];
      var id, left := ids[slot], remaining[slot];
      Write(slot, 0, 0);
      var dest := FindOrEmpty(id);
      dest, hole, behind := Destination(id, dest, was, held, slot, h, j);
      Write(dest, id, left);
      slotOf := slotOf[id := dest];
    }

    /** Where the lifted entry goes. */
    method Destination(id: nat, found: nat, ghost was: seq<nat>, ghost held: seq<int>, ghost slot: nat, ghost h: nat,
        ghost j: nat)
      returns (dest: nat, ghost hole: nat, ghost behind: nat)
      requires g.Valid() && |was| == |held| == g.capacity && Broken(g, was, held, slotOf, contents, h, j)
      requires h < g.capacity && j < g.capacity && slot == At(g.capacity, h, j) && was[slot] == id != 0 &&
               found <= g.capacity
      requires if found < g.capacity then FirstOf(g, was[slot := 0], id, found) else !HasEmpty(was[slot := 0])
      ensures dest < g.capacity && dest == if Crosses(g, id, h, slot) then h else slot
      ensures was[slot := 0][dest := id] == if dest == h then was[slot := 0][h := id] else was
      ensures Broken(g, was[slot := 0][dest := id], held[slot := 0][dest := held[slot]], slotOf[id := dest], contents,
              hole, behind)
      ensures if Crosses(g, id, h, slot) then hole == slot && behind == 1 else hole == h && behind == j + 1
      ensures hole == slot ==>
                Displacement(g, was[slot := 0][dest := id], g.capacity) < Displacement(g, was, g.capacity)
    {
      assert was[slot := 0][slot] == 0;
      dest := found;
      hole, behind := Reseated(g, was, held, slotOf, contents, h, j, slot, id, dest);
    }

    /** Walks the cluster behind a freed slot and reseats every entry, up to the next empty
        slot. The hole wanders with the entries that move into it; each such move brings an
        entry nearer its home, so the walk ends. */
    method ReinsertCluster(freed: nat)
      requires g.Valid() && ids.Length == remaining.Length == g.capacity && freed < g.capacity
      requires Broken(g, ids[..], remaining[..], slotOf, contents, freed, 1)
      modifies this`slotOf, ids, remaining
      ensures Kept(g, ids[..], remaining[..], slotOf, contents)
    {
      var slot := Next(g.capacity, freed);
      ghost var h: nat, j: nat := freed, 1;
      BrokenFacts(g, ids[..], remaining[..], slotOf, contents, h, j);
      while ids[slot] != 0
        invariant h < g.capacity && 1 <= j <= g.capacity && slot == if j == g.capacity then h else At(g.capacity, h, j)
        invariant Broken(g, ids[..], remaining[..], slotOf, contents, h, j)
        decreases Displacement(g, ids[..], g.capacity), g.capacity - j
      {
        BrokenFacts(g, ids[..], remaining[..], slotOf, contents, h, j);
        h, j := Reseat(slot, h, j);
        BrokenFacts(g, ids[..], remaining[..], slotOf, contents, h, j);
        slot := Next(g.capacity, slot);
      }
      Mended(g, ids[..], remaining[..], slotOf, contents, h, j, slot);
    }

    /** Removes an order and repairs the table: every other order keeps its remaining quantity.
        Zero is not guarded against. It matches the first empty slot, if there is one: the orders
        stay as they are, and the counter loses one it never counted (from 0 it wraps). */
    method Cancel(id: nat) returns (ok: bool)
      requires Valid()
      modifies this, ids, remaining
      ensures id != 0 ==> Valid() && (ok <==> id in old(contents)) && contents == old(contents) - {id}
      ensures id == 0 ==> Tidy() && contents == old(contents) && (ok <==> |contents| < g.capacity)
      ensures id == 0 ==> open == if !ok then old(open) else if old(open) == 0 then UINT32_MAX else old(open) - 1
    {
      if id == 0 {
        ok := CancelZero();
        return;
      }
      var slot := Find(id);
      ok := slot != -1;
      if ok {
        Erase(slot, id);
      }
    }

    /** Clears a slot and mends the cluster behind it. */
    method Erase(slot: nat, id: nat)
      requires Valid() && slot < g.capacity && ids[slot] == id && id != 0
      modifies this, ids, remaining
      ensures Valid() && id in old(contents) && contents == old(contents) - {id}
    {
      EraseBreaks(g, ids[..], remaining[..], slotOf, contents, slot, id);
      Clear(slot, slotOf - {id}, contents - {id});
      ReinsertCluster(slot);
    }

    method CancelZero() returns (ok: bool)
      requires Tidy()
      modifies this, ids, remaining
      ensures Tidy() && contents == old(contents) && (ok <==> |contents| < g.capacity)
      ensures open == if !ok then old(open) else if old(open) == 0 then UINT32_MAX else old(open) - 1
    {
      var slot := FindOrEmpty(0);
      ZeroBreaks(g, ids[..], remaining[..], slotOf, contents, slot);
      if slot == g.capacity {
        return false;
      }
      Write(slot, 0, 0);
      open := if open == 0 then UINT32_MAX else open - 1;
      ReinsertCluster(slot);
      return true;
    }

    lemma NoZero()
      requires Tidy()
      ensures 0 !in contents && contents - {0} == contents
    {
      assert Unfold(0);
    }

    method Perform(op: Op) returns (ok: bool)
      requires Valid() && Allowed(g.capacity, contents, op)
      modifies this, ids, remaining
      ensures Valid() && (contents, ok) == MapStep(g.capacity, old(contents), op)
    {
      NoZero();
      match op
      case Open(id, q) => ok := Register(id, q);
      case Amend(id, q) => ok := Replace(id, q);
      case Fill(id, q) => ok := Apply(id, q, false);
      case Close(id) => ok := Cancel(id);
    }

    /** Every run of registrations, amendments, partial fills and cancels gives the answers
        and the contents of the finite map. */
    method Play(ops: seq<Op>) returns (oks: seq<bool>)
      requires Valid() && InScope(g.capacity, contents, ops)
      modifies this, ids, remaining
      ensures Valid() && contents == MapRun(g.capacity, old(contents), ops).0 &&
              oks == MapRun(g.capacity, old(contents), ops).1
    {
      oks := [];
      var i := 0;
      ghost var all := MapRun(g.capacity, contents, ops);
      assert ops[0..] == ops;
      while i < |ops|
        invariant i <= |ops| && Valid()
        invariant InScope(g.capacity, contents, ops[i..])
        invariant all.0 == MapRun(g.capacity, contents, ops[i..]).0
        invariant all.1 == oks + MapRun(g.capacity, contents, ops[i..]).1
      {
        FirstOp(g.capacity, contents, ops, i, all, oks);
        var ok := Perform(ops[i]);
        oks := oks + [ok];
        i := i + 1;
      }
      assert ops[i..] == [];
    }
  }

  /** What the probe of a nonzero identifier says about a sound table. */
  lemma ProbeMeans(g: Shape, ids: seq<nat>, remaining: seq<int>, slotOf: map<nat, nat>, contents: map<nat, int>,
      id: nat, slot: nat)
    requires g.Valid() && |ids| == |remaining| == g.capacity && Kept(g, ids, remaining, slotOf, contents) && id != 0 &&
             slot <= g.capacity
    requires if slot < g.capacity then FirstOf(g, ids, id, slot) else id !in ids && !HasEmpty(ids)
    ensures id in contents <==> slot < g.capacity && ids[slot] == id
    ensures id in contents ==> remaining[slot] == contents[id]
    ensures slot < g.capacity && ids[slot] == 0 <==> id !in contents && |contents| < g.capacity
  {
    assert Table(g, ids, slotOf) && AllReached(g, ids) &&
           Carries(g, remaining, slotOf, contents) by { assert Unfold(0); }
    RoomIffEmpty(g, ids, slotOf, contents);
    if id in slotOf {
      assert ids[slotOf[id]] == id;
      StopsAtKey(g, ids, slotOf, id, slot);
    }
  }

  lemma PutKept(g: Shape, ids: seq<nat>, remaining: seq<int>, slotOf: map<nat, nat>, contents: map<nat, int>, id: nat,
      quantity: int, slot: nat)
    requires g.Valid() && |ids| == |remaining| == g.capacity && Kept(g, ids, remaining, slotOf, contents) && id != 0 &&
             id !in contents
    requires slot < g.capacity && FirstOf(g, ids, id, slot) && ids[slot] == 0
    ensures Kept(g, ids[slot := id], remaining[slot := quantity], slotOf[id := slot], contents[id := quantity])
    ensures |contents[id := quantity]| == |contents| + 1
  {
    assert Table(g, ids, slotOf) && AllReached(g, ids) &&
           Carries(g, remaining, slotOf, contents) by { assert Unfold(0); }
    PlaceEntry(g, ids, slotOf, id, slot);
    forall k | k in slotOf ensures slotOf[k] != slot {
      assert ids[slotOf[k]] == k;
    }
    Keep(g, ids[slot := id], remaining[slot := quantity], slotOf[id := slot], contents[id := quantity]);
  }

  lemma ResizeKept(g: Shape, ids: seq<nat>, remaining: seq<int>, slotOf: map<nat, nat>, contents: map<nat, int>,
      id: nat, quantity: int, slot: nat)
    requires g.Valid() && |ids| == |remaining| == g.capacity && Kept(g, ids, remaining, slotOf, contents) &&
             id in contents
    requires slot < g.capacity && ids[slot] == id != 0
    ensures Kept(g, ids[slot := id], remaining[slot := quantity], slotOf, contents[id := quantity]) &&
            |contents[id := quantity]| == |contents|
  {
    assert Table(g, ids, slotOf) && AllReached(g, ids) &&
           Carries(g, remaining, slotOf, contents) by { assert Unfold(0); }
    assert slotOf[id] == slot && ids[slot := id] == ids && contents[id := quantity].Keys == contents.Keys;
    forall k | k in slotOf && k != id ensures slotOf[k] != slot {
      assert ids[slotOf[k]] == k;
    }
    Keep(g, ids, remaining[slot := quantity], slotOf, contents[id := quantity]);
  }

  /** Clearing a slot without repair. */
  lemma RetireKept(g: Shape, ids: seq<nat>, remaining: seq<int>, slotOf: map<nat, nat>, contents: map<nat, int>,
      slot: nat, id: nat)
    requires g.Valid() && |ids| == |remaining| == g.capacity && Kept(g, ids, remaining, slotOf, contents) &&
             slot < g.capacity && ids[slot] == id != 0
    ensures id in contents && |contents - {id}| == |contents| - 1
    ensures Table(g, ids[slot := 0], slotOf - {id}) && Carries(g, remaining[slot := 0], slotOf - {id}, contents - {id})
    ensures Kept(g, ids[slot := 0], remaining[slot := 0], slotOf - {id}, contents - {id}) <==> NoneCross(g, ids, slot)
  {
    assert Table(g, ids, slotOf) && AllReached(g, ids) &&
           Carries(g, remaining, slotOf, contents) by { assert Unfold(0); }
    RemoveEntry(g, ids, remaining, slotOf, contents, slot);
    RetireReachedIff(g, ids, slot);
    KeptIff(g, ids[slot := 0], remaining[slot := 0], slotOf - {id}, contents - {id});
  }

  lemma KeptIff(g: Shape, ids: seq<nat>, remaining: seq<int>, slotOf: map<nat, nat>, contents: map<nat, int>)
    requires Table(g, ids, slotOf) && Carries(g, remaining, slotOf, contents)
    ensures Kept(g, ids, remaining, slotOf, contents) <==> AllReached(g, ids)
  {
    assert Unfold(0);
  }

  /** A repair in progress, with the quantities; kept folded. */
  ghost predicate Broken(g: Shape, ids: seq<nat>, remaining: seq<int>, slotOf: map<nat, nat>, contents: map<nat, int>,
      h: nat, j: nat) {
    forall n ::
        Unfold(n) ==> Table(g, ids, slotOf) && Carries(g, remaining, slotOf, contents) && Repairing(g, ids, h, j)
  }

  lemma Break(g: Shape, ids: seq<nat>, remaining: seq<int>, slotOf: map<nat, nat>, contents: map<nat, int>, h: nat,
      j: nat)
    requires Table(g, ids, slotOf) && Carries(g, remaining, slotOf, contents) && Repairing(g, ids, h, j)
    ensures Broken(g, ids, remaining, slotOf, contents, h, j)
  {
  }

  lemma BrokenFacts(g: Shape, ids: seq<nat>, remaining: seq<int>, slotOf: map<nat, nat>, contents: map<nat, int>,
      h: nat, j: nat)
    requires Broken(g, ids, remaining, slotOf, contents, h, j)
    ensures h < g.capacity == |ids| && 1 <= j <= g.capacity && ids[h] == 0
  {
    assert Repairing(g, ids, h, j) by { assert Unfold(0); }
  }

  /** The entry's probe reaches the hole before its own slot. */
  predicate Crosses(g: Shape, id: nat, h: nat, slot: nat)
    requires g.hash(id) < g.capacity && h < g.capacity && slot < g.capacity
  {
    Dist(g.capacity, g.Home(id), h) < Dist(g.capacity, g.Home(id), slot)
  }

  lemma Reseated(g: Shape, was: seq<nat>, held: seq<int>, slotOf: map<nat, nat>, contents: map<nat, int>, h: nat,
      j: nat, slot: nat, id: nat, dest: nat)
      returns (hole: nat, behind: nat)
    requires g.Valid() && |was| == |held| == g.capacity && Broken(g, was, held, slotOf, contents, h, j)
    requires h < g.capacity && j < g.capacity && slot == At(g.capacity, h, j) && was[slot] == id != 0 &&
             dest < g.capacity && FirstOf(g, was[slot := 0], id, dest)
    ensures dest == if Crosses(g, id, h, slot) then h else slot
    ensures was[slot := 0][dest := id] == if dest == h then was[slot := 0][h := id] else was
    ensures Broken(g, was[slot := 0][dest := id], held[slot := 0][dest := held[slot]], slotOf[id := dest], contents,
            hole, behind)
    ensures if Crosses(g, id, h, slot) then hole == slot && behind == 1 else hole == h && behind == j + 1
    ensures hole == slot ==> Displacement(g, was[slot := 0][dest := id], g.capacity) < Displacement(g, was, g.capacity)
  {
    assert Table(g, was, slotOf) && Carries(g, held, slotOf, contents) &&
           Repairing(g, was, h, j) by { assert Unfold(0); }
    FirstFree(g, was, slotOf, h, j, slot, dest);
    MovedEntry(g, was, held, slotOf, contents, slot, id, dest);
    if Crosses(g, id, h, slot) {
      MoveIntoHole(g, was, h, j, slot, id);
      hole, behind := slot, 1;
    } else {
      assert was[slot := 0][slot := id] == was;
      StayPut(g, was, h, j, slot);
      hole, behind := h, j + 1;
    }
    Break(g, was[slot := 0][dest := id], held[slot := 0][dest := held[slot]], slotOf[id := dest], contents, hole,
      behind);
  }

  /** An entry moved to an empty slot, or put back. */
  lemma MovedEntry(g: Shape, ids: seq<nat>, remaining: seq<int>, slotOf: map<nat, nat>, contents: map<nat, int>,
      slot: nat, id: nat, dest: nat)
    requires Table(g, ids, slotOf) && Carries(g, remaining, slotOf, contents) && slot < g.capacity &&
             ids[slot] == id != 0
    requires dest < g.capacity && (dest == slot || ids[dest] == 0)
    ensures Table(g, ids[slot := 0][dest := id], slotOf[id := dest]) &&
            Carries(g, remaining[slot := 0][dest := remaining[slot]], slotOf[id := dest], contents)
  {
    assert slotOf[id] == slot;
    var ids', slotOf' := ids[slot := 0][dest := id], slotOf[id := dest];
    forall k | k in slotOf'
      ensures k != 0 && slotOf'[k] < g.capacity && ids'[slotOf'[k]] == k &&
              (k != id ==> slotOf[k] != slot && slotOf[k] != dest)
    {
      assert k in slotOf && ids[slotOf[k]] == k;
    }
  }

  lemma Mended(g: Shape, ids: seq<nat>, remaining: seq<int>, slotOf: map<nat, nat>, contents: map<nat, int>, h: nat,
      j: nat, slot: nat)
    requires Broken(g, ids, remaining, slotOf, contents, h, j) && h < g.capacity == |ids| && 1 <= j <= g.capacity
    requires slot == (if j == g.capacity then h else At(g.capacity, h, j)) && ids[slot] == 0
    ensures Kept(g, ids, remaining, slotOf, contents)
  {
    assert Table(g, ids, slotOf) && Carries(g, remaining, slotOf, contents) &&
           Repairing(g, ids, h, j) by { assert Unfold(0); }
    EndRepair(g, ids, h, j);
    Keep(g, ids, remaining, slotOf, contents);
  }

  /** Clearing an occupied slot of a sound table. */
  lemma EraseBreaks(g: Shape, ids: seq<nat>, remaining: seq<int>, slotOf: map<nat, nat>, contents: map<nat, int>,
      slot: nat, id: nat)
    requires Kept(g, ids, remaining, slotOf, contents) && slot < g.capacity == |ids| == |remaining| &&
             ids[slot] == id != 0
    ensures id in contents && |contents - {id}| == |contents| - 1
    ensures Broken(g, ids[slot := 0], remaining[slot := 0], slotOf - {id}, contents - {id}, slot, 1)
  {
    assert Table(g, ids, slotOf) && AllReached(g, ids) &&
           Carries(g, remaining, slotOf, contents) by { assert Unfold(0); }
    RemoveEntry(g, ids, remaining, slotOf, contents, slot);
    StartRepair(g, ids, slot);
    Break(g, ids[slot := 0], remaining[slot := 0], slotOf - {id}, contents - {id}, slot, 1);
  }

  /** Clearing an empty one; there is one exactly while the table has room. */
  lemma ZeroBreaks(g: Shape, ids: seq<nat>, remaining: seq<int>, slotOf: map<nat, nat>, contents: map<nat, int>,
      slot: nat)
    requires Kept(g, ids, remaining, slotOf, contents) && g.Valid() && slot <= g.capacity == |ids| == |remaining|
    requires if slot < g.capacity then ids[slot] == 0 else !HasEmpty(ids)
    ensures slot < g.capacity <==> |contents| < g.capacity
    ensures slot < g.capacity ==> Broken(g, ids[slot := 0], remaining[slot := 0], slotOf, contents, slot, 1)
  {
    assert Table(g, ids, slotOf) && AllReached(g, ids) &&
           Carries(g, remaining, slotOf, contents) by { assert Unfold(0); }
    RoomIffEmpty(g, ids, slotOf, contents);
    if slot < g.capacity {
      assert HasEmpty(ids);
      ZeroEntry(g, ids, remaining, slotOf, contents, slot);
      StartRepair(g, ids, slot);
      Break(g, ids[slot := 0], remaining[slot := 0], slotOf, contents, slot, 1);
    }
  }

  /** Writing zeros over an empty slot changes no entry. */
  lemma ZeroEntry(g: Shape, ids: seq<nat>, remaining: seq<int>, slotOf: map<nat, nat>, contents: map<nat, int>,
      slot: nat)
    requires Table(g, ids, slotOf) && Carries(g, remaining, slotOf, contents) && slot < g.capacity && ids[slot] == 0
    ensures ids[slot := 0] == ids && Carries(g, remaining[slot := 0], slotOf, contents)
  {
    forall k | k in slotOf ensures slotOf[k] != slot {
      assert ids[slotOf[k]] == k;
    }
  }

  lemma LeftOver(a: nat, b: nat, qa: int, qb: int)
    requires a != b
    ensures map[a := qa][b := qb] - {a} == map[b := qb]
  {
  }

  /** Registers two orders in a new ledger. */
  method RegisterTwo(g: Shape, a: nat, b: nat, qa: int, qb: int)
      returns (ledger: ReconciliationLedger, ghost empty: seq<nat>, ghost s: nat, ghost t: nat)
    requires g.Valid() && g.capacity >= 2 && a != 0 && b != 0 && a != b && 0 < qa && 0 < qb
    ensures fresh(ledger) && fresh(ledger.ids) && fresh(ledger.remaining)
    ensures ledger.Valid() && ledger.g == g && ledger.contents == map[a := qa][b := qb]
    ensures |empty| == g.capacity && forall x :: 0 <= x < |empty| ==> empty[x] == 0
    ensures FirstOf(g, empty, a, s) && FirstOf(g, empty[s := a], b, t) && empty[s := a][t] == 0 &&
            ledger.ids[..] == empty[s := a][t := b]
  {
    ledger := new ReconciliationLedger(g);
    empty := ledger.ids[..];
    var _ := ledger.Register(a, qa);
    ghost var one: seq<nat> := ledger.ids[..];
    s :| s < g.capacity && FirstOf(g, empty, a, s) && empty[s] == 0 && one == empty[s := a];
    var _ := ledger.Register(b, qb);
    t :| t < g.capacity && FirstOf(g, one, b, t) && one[t] == 0 && ledger.ids[..] == one[t := b];
  }

  /** Two registrations and one closing fill, for any two orders that share a home slot: the
      second order is open and can no longer be found. */
  method ClosingFillHides(g: Shape, a: nat, b: nat, qa: int, qb: int, filled: int, terminal: bool)
      returns (ledger: ReconciliationLedger, before: int, after: int)
    requires g.Valid() && g.capacity >= 2 && a != 0 && b != 0 && a != b && g.Home(a) == g.Home(b)
    requires 0 < qb && 0 < filled <= qa && (terminal || filled == qa)
    ensures ledger.contents == map[b := qb] && before != -1 && after == -1
    ensures ledger.g == g && ledger.ids.Length == g.capacity && after == Probe(g, ledger.ids[..], b, 0)
  {
    ghost var empty, s, t;
    ledger, empty, s, t := RegisterTwo(g, a, b, qa, qb);
    ghost var two: seq<nat> := ledger.ids[..];
    before := ledger.Search(b);
    var ok := ledger.Apply(a, filled, terminal);
    ghost var u: nat :| u < g.capacity && two[u] == a && ledger.ids[..] == two[u := 0];
    CollidersHide(g, empty, a, b, s, t, u);
    LeftOver(a, b, qa, qb);
    after := ledger.Search(b);
  }

  lemma RemoveEntry(g: Shape, ids: seq<nat>, remaining: seq<int>, slotOf: map<nat, nat>, contents: map<nat, int>,
      slot: nat)
    requires Table(g, ids, slotOf) && Carries(g, remaining, slotOf, contents) && slot < g.capacity && ids[slot] != 0
    ensures ids[slot] in contents && Table(g, ids[slot := 0], slotOf - {ids[slot]})
    ensures Carries(g, remaining[slot := 0], slotOf - {ids[slot]}, contents - {ids[slot]})
    ensures |contents - {ids[slot]}| == |contents| - 1
  {
    var id := ids[slot];
    assert contents.Keys == (contents - {id}).Keys + {id};
  }

  lemma RetireReachedIff(g: Shape, ids: seq<nat>, slot: nat)
    requires AllReached(g, ids) && slot < g.capacity
    ensures AllReached(g, ids[slot := 0]) <==> NoneCross(g, ids, slot)
  {
    var ids' := ids[slot := 0];
    forall s | 0 <= s < |ids| && s != slot && ids[s] != 0
      ensures ReachedBut(g, ids', s, -1) <==>
                Dist(g.capacity, g.Home(ids[s]), s) <= Dist(g.capacity, g.Home(ids[s]), slot)
    {
      assert ReachedBut(g, ids, s, -1) && ids'[s] == ids[s];
      var d := Dist(g.capacity, g.Home(ids[s]), slot);
      assert At(g.capacity, g.Home(ids'[s]), d) == slot;
      if ReachedBut(g, ids', s, -1) {
        assert ids'[At(g.capacity, g.Home(ids'[s]), d)] == 0;
      }
    }
    if AllReached(g, ids') {
      forall s | 0 <= s < |ids| && s != slot && ids[s] != 0
        ensures Dist(g.capacity, g.Home(ids[s]), s) <= Dist(g.capacity, g.Home(ids[s]), slot)
      {
        assert ids'[s] == ids[s];
      }
    }
  }

  /** The probe of a present order stops at its slot. */
  lemma StopsAtKey(g: Shape, ids: seq<nat>, slotOf: map<nat, nat>, id: nat, at: nat)
    requires Table(g, ids, slotOf) && AllReached(g, ids) && id in slotOf && FirstOf(g, ids, id, at)
    ensures at == slotOf[id] && ids[at] == id
  {
    var s := slotOf[id];
    assert ids[s] == id && ReachedBut(g, ids, s, -1);
    assert At(g.capacity, g.Home(id), Dist(g.capacity, g.Home(id), s)) == s;
    assert At(g.capacity, g.Home(id), Dist(g.capacity, g.Home(id), at)) == at;
  }
}
