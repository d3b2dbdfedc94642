/** The order-reference index: an open-addressing table with tombstones and a
    bounded probe, refining a finite map from order reference to location. */
module OrderIndex {
  import opened Folding
  import opened Probing
  import opened Sequences

  const EMPTY_KEY: nat := 0
  const TOMBSTONE: nat := 0xFFFF_FFFF_FFFF_FFFF

  /** Where an order rests: symbol, side (0 bid, 1 ask), level and slot. */
  datatype Location = Location(symbol: nat, side: nat, level: nat, slot: nat)

  /** Table geometry; the hash is any function into the table. */
  datatype Geometry = Geometry(capacity: nat, maxProbe: nat, maxEntries: nat,
                               symbols: nat, levels: nat, slots: nat, hash: nat -> nat)
  {
    ghost predicate Valid() {
      0 < maxProbe <= capacity && forall k: nat :: hash(k) < capacity
    }

    predicate Holds(loc: Location) {
      loc.symbol < symbols && loc.side <= 1 && loc.level < levels && loc.slot < slots
    }
  }

  predicate IsRef(k: nat) {
    k != EMPTY_KEY && k != TOMBSTONE
  }

  /** The bounded probe for `k` reaches `slot` before any empty slot. */
  ghost predicate Reaches(g: Geometry, keys: seq<nat>, k: nat, slot: nat)
    requires g.Valid() && |keys| == g.capacity && slot < g.capacity
  {
    Dist(g.capacity, g.hash(k), slot) < g.maxProbe &&
    forall p :: 0 <= p < Dist(g.capacity, g.hash(k), slot) ==> keys[At(g.capacity, g.hash(k), p)] != EMPTY_KEY
  }

  /** Every live key sits in exactly one slot, and its own probe reaches it. */
  ghost predicate Indexed(g: Geometry, keys: seq<nat>, slotOf: map<nat, nat>) {
    g.Valid() && |keys| == g.capacity &&
    (forall k {:trigger slotOf[k]} :: k in slotOf ==>
       IsRef(k) && slotOf[k] < g.capacity && keys[slotOf[k]] == k && Reaches(g, keys, k, slotOf[k])) &&
    (forall s :: 0 <= s < g.capacity && IsRef(keys[s]) ==> keys[s] in slotOf && slotOf[keys[s]] == s)
  }

  /** An untouched slot lies in the probe window of `k`: the `can_insert` test. */
  ghost predicate EmptyInWindow(g: Geometry, keys: seq<nat>, k: nat)
    requires g.Valid() && |keys| == g.capacity
  {
    exists p :: 0 <= p < g.maxProbe && keys[At(g.capacity, g.hash(k), p)] == EMPTY_KEY
  }

  /** An untouched slot or a tombstone lies in the probe window of `k`. */
  ghost predicate FreeInWindow(g: Geometry, keys: seq<nat>, k: nat)
    requires g.Valid() && |keys| == g.capacity
  {
    exists p :: 0 <= p < g.maxProbe && !IsRef(keys[At(g.capacity, g.hash(k), p)])
  }

  /** Hop of the first free slot, tombstone or untouched, from hop `p` on; the window's length
      when there is none. */
  ghost function FirstFree(g: Geometry, keys: seq<nat>, k: nat, p: nat): (hop: nat)
    requires g.Valid() && |keys| == g.capacity && p <= g.maxProbe
    ensures p <= hop <= g.maxProbe && (hop < g.maxProbe ==> !IsRef(keys[At(g.capacity, g.hash(k), hop)]))
    ensures forall q :: p <= q < hop ==> IsRef(keys[At(g.capacity, g.hash(k), q)])
    decreases g.maxProbe - p
  {
    if p == g.maxProbe || !IsRef(keys[At(g.capacity, g.hash(k), p)]) then p else FirstFree(g, keys, k, p + 1)
  }

  /** The table with a new reference at the first free slot of its window. */
  ghost function WithKey(g: Geometry, keys: seq<nat>, k: nat): (after: seq<nat>)
    requires g.Valid() && |keys| == g.capacity
    ensures |after| == |keys|
  {
    var p := FirstFree(g, keys, k, 0);
    if p < g.maxProbe then keys[At(g.capacity, g.hash(k), p) := k] else keys
  }

  /** The table with a tombstone in place of a reference. */
  ghost function Erased(keys: seq<nat>, k: nat): seq<nat> {
    seq(|keys|, s requires 0 <= s < |keys| => if keys[s] == k then TOMBSTONE else keys[s])
  }

  /** A table with `n` references has room for a new one. */
  ghost predicate RoomIn(g: Geometry, keys: seq<nat>, n: nat, k: nat)
    requires g.Valid() && |keys| == g.capacity
  {
    IsRef(k) && n < g.maxEntries && FreeInWindow(g, keys, k)
  }

  /** A table with `n` references passes the pre-flight for a new one. */
  ghost predicate PreflightIn(g: Geometry, keys: seq<nat>, n: nat, k: nat)
    requires g.Valid() && |keys| == g.capacity
  {
    IsRef(k) && n < g.maxEntries && EmptyInWindow(g, keys, k)
  }

  /** The first `p` probes for `k` met neither `k` nor an empty slot. */
  ghost predicate Scanned(g: Geometry, keys: seq<nat>, k: nat, p: nat)
    requires g.Valid() && |keys| == g.capacity && p <= g.capacity
  {
    forall q :: 0 <= q < p ==>
      keys[At(g.capacity, g.hash(k), q)] != k && keys[At(g.capacity, g.hash(k), q)] != EMPTY_KEY
  }

  /** A live key is never hidden: if the first `p` probes met neither it nor an
      empty slot, the window is not exhausted and hop `p` is not empty. */
  lemma ProbeFindsKey(g: Geometry, keys: seq<nat>, slotOf: map<nat, nat>, k: nat, p: nat)
    requires Indexed(g, keys, slotOf) && p <= g.maxProbe && IsRef(k) && Scanned(g, keys, k, p)
    ensures k in slotOf ==> p < g.maxProbe && keys[At(g.capacity, g.hash(k), p)] != EMPTY_KEY
    ensures p < g.maxProbe && keys[At(g.capacity, g.hash(k), p)] == k ==>
              k in slotOf && slotOf[k] == At(g.capacity, g.hash(k), p)
  {
    if k in slotOf {
      var d := Dist(g.capacity, g.hash(k), slotOf[k]);
      assert At(g.capacity, g.hash(k), d) == slotOf[k];
    }
  }

  /** A free slot met by the probe is a legal destination. */
  lemma FreeHop(g: Geometry, keys: seq<nat>, k: nat, p: nat, hop: nat)
    requires g.Valid() && |keys| == g.capacity && p <= g.maxProbe && Scanned(g, keys, k, p)
    requires hop <= p && hop < g.maxProbe && !IsRef(keys[At(g.capacity, g.hash(k), hop)])
    ensures FreeInWindow(g, keys, k) && Reaches(g, keys, k, At(g.capacity, g.hash(k), hop))
  {
  }

  /** Writing a fresh key over an empty slot or tombstone reached by its probe. */
  lemma PlaceKey(g: Geometry, keys: seq<nat>, slotOf: map<nat, nat>, k: nat, slot: nat)
    requires Indexed(g, keys, slotOf) && IsRef(k) && k !in slotOf
    requires slot < g.capacity && !IsRef(keys[slot]) && Reaches(g, keys, k, slot)
    ensures Indexed(g, keys[slot := k], slotOf[k := slot])
  {
    var keys' := keys[slot := k];
    var slotOf' := slotOf[k := slot];
    forall j | j in slotOf'
      ensures IsRef(j) && slotOf'[j] < g.capacity && keys'[slotOf'[j]] == j && Reaches(g, keys', j, slotOf'[j])
    {
      if j != k {
        assert Reaches(g, keys, j, slotOf[j]);
      }
    }
  }

  /** Replacing a live key by a tombstone keeps every other probe chain intact. */
  lemma BuryKey(g: Geometry, keys: seq<nat>, slotOf: map<nat, nat>, k: nat)
    requires Indexed(g, keys, slotOf) && k in slotOf
    ensures Indexed(g, keys[slotOf[k] := TOMBSTONE], slotOf - {k})
  {
    var keys' := keys[slotOf[k] := TOMBSTONE];
    forall j | j in slotOf && j != k
      ensures keys'[slotOf[j]] == j && Reaches(g, keys', j, slotOf[j])
    {
      assert Reaches(g, keys, j, slotOf[j]);
    }
  }

  /** No untouched slot is taken. */
  ghost predicate KeepsEmpty(before: seq<nat>, after: seq<nat>) {
    |before| == |after| && forall s :: 0 <= s < |before| && before[s] == EMPTY_KEY ==> after[s] == EMPTY_KEY
  }

  /** Burying other keys never takes an untouched slot away, so a successful
      pre-flight for `k` still guarantees room for it afterwards. */
  lemma PreflightSurvives(g: Geometry, before: seq<nat>, after: seq<nat>, k: nat)
    requires g.Valid() && |before| == g.capacity && KeepsEmpty(before, after)
    requires EmptyInWindow(g, before, k)
    ensures EmptyInWindow(g, after, k) && FreeInWindow(g, after, k)
  {
    var p :| 0 <= p < g.maxProbe && before[At(g.capacity, g.hash(k), p)] == EMPTY_KEY;
    assert after[At(g.capacity, g.hash(k), p)] == EMPTY_KEY;
  }

  /** A table never written to. */
  ghost function Blank(capacity: nat): seq<nat> {
    seq(capacity, _ => EMPTY_KEY)
  }

  /** Each key's value lies in the key's slot. */
  ghost predicate Files(g: Geometry, keys: seq<nat>, values: seq<Location>, slotOf: map<nat, nat>,
      contents: map<nat, Location>) {
    Indexed(g, keys, slotOf) && |values| == g.capacity && contents.Keys == slotOf.Keys &&
    forall k {:trigger slotOf[k]} :: k in contents ==> contents[k] == values[slotOf[k]]
  }

  /** The slots written at least once: keys and tombstones. */
  ghost function Touched(keys: seq<nat>): set<nat> {
    set s: nat | s < |keys| && keys[s] != EMPTY_KEY
  }

  lemma TouchOne(keys: seq<nat>, slot: nat, k: nat)
    requires slot < |keys|
    ensures |Touched(keys[slot := k])| <= |Touched(keys)| + 1
    ensures keys[slot] != EMPTY_KEY ==> |Touched(keys[slot := k])| <= |Touched(keys)|
  {
    Smaller(Touched(keys[slot := k]), Touched(keys) + {slot});
    assert keys[slot] != EMPTY_KEY ==> Touched(keys) + {slot} == Touched(keys);
  }

  /** Inserting touches at most one more slot, removing none. */
  lemma TouchesFew(g: Geometry, keys: seq<nat>, k: nat)
    requires g.Valid() && |keys| == g.capacity
    ensures |Touched(WithKey(g, keys, k))| <= |Touched(keys)| + 1
    ensures k != EMPTY_KEY ==> Touched(Erased(keys, k)) == Touched(keys)
  {
    var p := FirstFree(g, keys, k, 0);
    if p < g.maxProbe {
      TouchOne(keys, At(g.capacity, g.hash(k), p), k);
    }
  }

  /** The keys at the first `n` probes of `k`, when all of them are live. */
  lemma {:induction false} WindowKeys(g: Geometry, keys: seq<nat>, slotOf: map<nat, nat>, k: nat, n: nat)
      returns (met: set<nat>)
    requires Indexed(g, keys, slotOf) && n <= g.maxProbe
    requires forall p :: 0 <= p < n ==> IsRef(keys[At(g.capacity, g.hash(k), p)])
    ensures |met| == n && forall x {:trigger x in met} ::
              x in met ==> x in slotOf && Dist(g.capacity, g.hash(k), slotOf[x]) < n
  {
    if n == 0 {
      met := {};
    } else {
      met := WindowKeys(g, keys, slotOf, k, n - 1);
      var s := At(g.capacity, g.hash(k), n - 1);
      assert IsRef(keys[s]) && slotOf[keys[s]] == s;
      assert keys[s] !in met;
      met := met + {keys[s]};
    }
  }

  /** A window without a free slot holds as many live keys as it has slots. */
  lemma FullWindow(g: Geometry, keys: seq<nat>, slotOf: map<nat, nat>, k: nat)
    requires Indexed(g, keys, slotOf) && !FreeInWindow(g, keys, k)
    ensures |slotOf| >= g.maxProbe
  {
    var met := WindowKeys(g, keys, slotOf, k, g.maxProbe);
    Smaller(met, slotOf.Keys);
    assert |slotOf| == |slotOf.Keys|;
  }

  lemma {:induction false} WindowSlots(g: Geometry, keys: seq<nat>, k: nat, n: nat) returns (met: set<nat>)
    requires g.Valid() && |keys| == g.capacity && n <= g.maxProbe
    requires forall p :: 0 <= p < n ==> keys[At(g.capacity, g.hash(k), p)] != EMPTY_KEY
    ensures |met| == n && forall x {:trigger x in met} ::
              x in met ==> x in Touched(keys) && Dist(g.capacity, g.hash(k), x) < n
  {
    if n == 0 {
      met := {};
    } else {
      met := WindowSlots(g, keys, k, n - 1);
      var s := At(g.capacity, g.hash(k), n - 1);
      assert s !in met && keys[s] != EMPTY_KEY;
      met := met + {s};
    }
  }

  /** A window without an untouched slot: at least that many slots were written once. */
  lemma UsedWindow(g: Geometry, keys: seq<nat>, k: nat)
    requires g.Valid() && |keys| == g.capacity && !EmptyInWindow(g, keys, k)
    ensures |Touched(keys)| >= g.maxProbe
  {
    var met := WindowSlots(g, keys, k, g.maxProbe);
    Smaller(met, Touched(keys));
  }

  /** What the pre-flight turns away although an insertion would succeed: exactly the windows
      that hold tombstones and no untouched slot. */
  lemma PreflightGap(g: Geometry, keys: seq<nat>, k: nat)
    requires g.Valid() && |keys| == g.capacity
    ensures EmptyInWindow(g, keys, k) ==> FreeInWindow(g, keys, k)
    ensures FreeInWindow(g, keys, k) && !EmptyInWindow(g, keys, k) <==>
            (forall p :: 0 <= p < g.maxProbe ==> keys[At(g.capacity, g.hash(k), p)] != EMPTY_KEY) &&
            (exists p :: 0 <= p < g.maxProbe && keys[At(g.capacity, g.hash(k), p)] == TOMBSTONE)
  {
    if p :| 0 <= p < g.maxProbe && keys[At(g.capacity, g.hash(k), p)] == EMPTY_KEY {
      assert !IsRef(keys[At(g.capacity, g.hash(k), p)]);
    }
    if p :| 0 <= p < g.maxProbe && keys[At(g.capacity, g.hash(k), p)] == TOMBSTONE {
      assert !IsRef(keys[At(g.capacity, g.hash(k), p)]);
    }
    if p :| 0 <= p < g.maxProbe && !IsRef(keys[At(g.capacity, g.hash(k), p)]) {
      assert keys[At(g.capacity, g.hash(k), p)] == EMPTY_KEY || keys[At(g.capacity, g.hash(k), p)] == TOMBSTONE;
    }
  }

  /** The table as a whole, kept folded. */
  ghost predicate Faithful(g: Geometry, keys: seq<nat>, values: seq<Location>, slotOf: map<nat, nat>,
      contents: map<nat, Location>) {
    forall n :: Unfold(n) ==> Files(g, keys, values, slotOf, contents)
  }

  lemma PutFaithful(g: Geometry, keys: seq<nat>, values: seq<Location>, slotOf: map<nat, nat>,
      contents: map<nat, Location>, ref: nat, loc: Location, slot: nat)
    requires g.Valid() && |keys| == |values| == g.capacity && Faithful(g, keys, values, slotOf, contents) &&
             IsRef(ref) && ref !in contents
    requires slot < g.capacity && !IsRef(keys[slot]) && Reaches(g, keys, ref, slot)
    ensures Faithful(g, keys[slot := ref], values[slot := loc], slotOf[ref := slot], contents[ref := loc])
    ensures |contents[ref := loc]| == |contents| + 1
  {
    assert Unfold(0);
    PlaceKey(g, keys, slotOf, ref, slot);
  }

  lemma BuryFaithful(g: Geometry, keys: seq<nat>, values: seq<Location>, slotOf: map<nat, nat>,
      contents: map<nat, Location>, ref: nat, slot: nat)
    requires g.Valid() && |keys| == |values| == g.capacity && Faithful(g, keys, values, slotOf, contents)
    requires ref in contents && slot < g.capacity && keys[slot] == ref
    ensures Faithful(g, keys[slot := TOMBSTONE], values, slotOf - {ref}, contents - {ref})
    ensures |contents - {ref}| == |contents| - 1 && KeepsEmpty(keys, keys[slot := TOMBSTONE])
    ensures keys[slot := TOMBSTONE] == Erased(keys, ref)
  {
    assert Unfold(0);
    Buried(g, keys, values, slotOf, contents, ref, slot);
    assert forall s :: 0 <= s < |keys| && keys[s] == ref ==> s == slotOf[ref];
  }

  lemma MoveFaithful(g: Geometry, keys: seq<nat>, values: seq<Location>, slotOf: map<nat, nat>,
      contents: map<nat, Location>, ref: nat, loc: Location, slot: nat)
    requires g.Valid() && |keys| == |values| == g.capacity && Faithful(g, keys, values, slotOf, contents)
    requires ref in contents && slot < g.capacity && keys[slot] == ref
    ensures Faithful(g, keys, values[slot := loc], slotOf, contents[ref := loc])
    ensures |contents[ref := loc]| == |contents|
  {
    assert Unfold(0);
    assert IsRef(keys[slot]) && slotOf[ref] == slot;
    assert contents[ref := loc].Keys == contents.Keys;
  }

  class OrderRefMap {
    const g: Geometry
    const keys: array<nat>
    const values: array<Location>
    var count: nat
    ghost var slotOf: map<nat, nat>
    /** The finite map this table stands for. */
    ghost var contents: map<nat, Location>

    /** The table is sound; all but sizes and count is kept folded. */
    ghost predicate Valid()
      reads this, keys, values
    {
      g.Valid() && keys.Length == g.capacity && values.Length == g.capacity && count == |contents| &&
      Faithful(g, keys[..], values[..], slotOf, contents)
    }

    /** The slots written at least once. */
    ghost function Used(): nat
      reads keys
    {
      |Touched(keys[..])|
    }

    /** A new reference would be accepted: below the load limit with a free slot in its window. */
    ghost predicate Room(ref: nat)
      requires Valid()
      reads this, keys, values
    {
      RoomIn(g, keys[..], count, ref)
    }

    /** The pre-flight answer: an untouched slot in the window of a new reference. */
    ghost predicate Preflight(ref: nat)
      requires Valid()
      reads this, keys, values
    {
      ref !in contents && PreflightIn(g, keys[..], count, ref)
    }

    constructor (g: Geometry)
      requires g.Valid()
      ensures Valid() && this.g == g && contents == map[] && count == 0 && keys[..] == Blank(g.capacity)
      ensures fresh(keys) && fresh(values)
    {
      this.g := g;
      keys := new nat[g.capacity](_ => EMPTY_KEY);
      values := new Location[g.capacity](_ => Location(0, 0, 0, 0));
      count := 0;
      slotOf := map[];
      contents := map[];
      new;
    }

    /** A refusal in plain terms. Without the pre-flight, the reference is reserved, the load limit
        is reached or a whole window of references is live; the pre-flight refuses known
        references too, and a window's worth of written slots may exhaust it. */
    lemma RefusalMeans(ref: nat)
      requires Valid()
      ensures !Room(ref) ==> !IsRef(ref) || |contents| >= g.maxEntries || |contents| >= g.maxProbe
      ensures !Preflight(ref) ==> !IsRef(ref) || ref in contents || |contents| >= g.maxEntries || Used() >= g.maxProbe
    {
      assert Unfold(0);
      if !FreeInWindow(g, keys[..], ref) {
        FullWindow(g, keys[..], slotOf, ref);
        assert |slotOf| == |slotOf.Keys| == |contents.Keys| == |contents|;
      }
      if !EmptyInWindow(g, keys[..], ref) {
        UsedWindow(g, keys[..], ref);
      }
    }

    /** For a new reference the pre-flight refuses more than an insertion would exactly when the
        window holds tombstones but no untouched slot. */
    lemma RoomWithoutPreflight(ref: nat)
      requires Valid() && ref !in contents
      ensures Preflight(ref) ==> Room(ref)
      ensures Room(ref) && !Preflight(ref) <==>
              IsRef(ref) && count < g.maxEntries &&
              (forall p :: 0 <= p < g.maxProbe ==> keys[..][At(g.capacity, g.hash(ref), p)] != EMPTY_KEY) &&
              (exists p :: 0 <= p < g.maxProbe && keys[..][At(g.capacity, g.hash(ref), p)] == TOMBSTONE)
    {
      PreflightGap(g, keys[..], ref);
    }

    /** The slot holding `ref`, or `None` as -1; the source returns a pointer to the value. */
    method Lookup(ref: nat) returns (slot: int)
      requires Valid()
      ensures -1 <= slot < g.capacity && (slot == -1 <==> ref !in contents)
      ensures slot != -1 ==> keys[slot] == ref && values[slot] == contents[ref]
    {
      assert Unfold(0);
      if !IsRef(ref) {
        return -1;
      }
      slot := g.hash(ref);
      var probed := 0;
      while probed < g.maxProbe
        invariant probed <= g.maxProbe
        invariant probed < g.capacity ==> slot == At(g.capacity, g.hash(ref), probed)
        invariant Scanned(g, keys[..], ref, probed)
        invariant 0 <= slot < g.capacity
      {
        ProbeFindsKey(g, keys[..], slotOf, ref, probed);
        if keys[slot] == ref {
          return;
        }
        if keys[slot] == EMPTY_KEY {
          return -1;
        }
        slot := Next(g.capacity, slot);
        probed := probed + 1;
      }
      ProbeFindsKey(g, keys[..], slotOf, ref, probed);
      slot := -1;
    }

    /** Pre-flight of a new insertion. */
    method CanInsert(ref: nat) returns (ok: bool)
      requires Valid()
      ensures ok == Preflight(ref)
    {
      assert Unfold(0);
      if !IsRef(ref) || count >= g.maxEntries {
        return false;
      }
      var slot := g.hash(ref);
      var probed := 0;
      while probed < g.maxProbe
        invariant probed <= g.maxProbe
        invariant 0 <= slot < g.capacity
        invariant probed < g.capacity ==> slot == At(g.capacity, g.hash(ref), probed)
        invariant Scanned(g, keys[..], ref, probed)
      {
        ProbeFindsKey(g, keys[..], slotOf, ref, probed);
        if keys[slot] == ref {
          return false;
        }
        if keys[slot] == EMPTY_KEY {
          assert keys[..][At(g.capacity, g.hash(ref), probed)] == EMPTY_KEY;
          return true;
        }
        slot := Next(g.capacity, slot);
        probed := probed + 1;
      }
      return false;
    }

    lemma ProbeMeets(ref: nat, p: nat, ks: seq<nat>)
      requires Valid() && IsRef(ref) && p <= g.maxProbe && ks == keys[..] && Scanned(g, ks, ref, p)
      ensures ref in contents ==> p < g.maxProbe && ks[At(g.capacity, g.hash(ref), p)] != EMPTY_KEY
      ensures p < g.maxProbe && ks[At(g.capacity, g.hash(ref), p)] == ref ==> ref in contents
    {
      assert Unfold(0);
      ProbeFindsKey(g, ks, slotOf, ref, p);
    }

    /** The probe of an insertion: the slot already holding `ref`, else the first
        tombstone, else the first untouched slot; `g.capacity` when the window has none. */
    method ProbeForInsert(ref: nat) returns (slot: nat)
      requires Valid() && IsRef(ref)
      ensures ref in contents ==> slot < g.capacity && keys[slot] == ref
      ensures ref !in contents ==>
                if FreeInWindow(g, keys[..], ref)
                then slot < g.capacity && !IsRef(keys[slot]) && Reaches(g, keys[..], ref, slot) &&
                  keys[..][slot := ref] == WithKey(g, keys[..], ref)
                else slot == g.capacity
    {
      ghost var ks := keys[..];
      slot := g.hash(ref);
      var tombstone: nat := g.capacity;
      ghost var hop: nat := 0;
      var probed := 0;
      while probed < g.maxProbe
        invariant probed <= g.maxProbe && slot < g.capacity && tombstone <= g.capacity
        invariant probed < g.capacity ==> slot == At(g.capacity, g.hash(ref), probed)
        invariant Scanned(g, ks, ref, probed)
        invariant tombstone == g.capacity ==>
                    forall q :: 0 <= q < probed ==> IsRef(ks[At(g.capacity, g.hash(ref), q)])
        invariant FirstFree(g, ks, ref, 0) == if tombstone < g.capacity then hop else FirstFree(g, ks, ref, probed)
        invariant tombstone < g.capacity ==>
                    0 <= hop < probed && tombstone == At(g.capacity, g.hash(ref), hop) && keys[tombstone] == TOMBSTONE
      {
        ProbeMeets(ref, probed, ks);
        if keys[slot] == ref {
          return;
        }
        if keys[slot] == TOMBSTONE && tombstone == g.capacity {
          tombstone, hop := slot, probed;
        } else if keys[slot] == EMPTY_KEY {
          hop := if tombstone == g.capacity then probed else hop;
          FreeHop(g, ks, ref, probed, hop);
          return if tombstone == g.capacity then slot else tombstone;
        }
        slot := Next(g.capacity, slot);
        probed := probed + 1;
      }
      ProbeMeets(ref, probed, ks);
      if tombstone != g.capacity {
        FreeHop(g, ks, ref, probed, hop);
      }
      slot := tombstone;
    }

    /** Insert or update. Fails, changing nothing, exactly when the arguments are
        invalid or a new key has no free slot in its window or the load is reached. */
    method Insert(ref: nat, loc: Location) returns (ok: bool)
      requires Valid()
      modifies this, keys, values
      ensures Valid()
      ensures ok <==> g.Holds(loc) && (ref in old(contents) || old(Room(ref)))
      ensures contents == if ok then old(contents)[ref := loc] else old(contents)
      ensures keys[..] == if ok && ref !in old(contents) then WithKey(g, old(keys[..]), ref) else old(keys[..])
    {
      if !IsRef(ref) || !g.Holds(loc) {
        assert !IsRef(ref) ==> ref !in contents by { assert Unfold(0); }
        return false;
      }
      var slot := ProbeForInsert(ref);
      if slot < g.capacity && keys[slot] == ref {
        SetLocation(ref, slot, loc);
        return true;
      }
      if slot == g.capacity || count >= g.maxEntries {
        return false;
      }
      Put(ref, loc, slot);
      return true;
    }

    /** The three writes shared by both insertion paths. */
    method Put(ref: nat, loc: Location, slot: nat)
      requires Valid() && IsRef(ref) && ref !in contents
      requires slot < g.capacity && !IsRef(keys[slot]) && Reaches(g, keys[..], ref, slot)
      modifies this, keys, values
      ensures Valid() && contents == old(contents)[ref := loc] && keys[..] == old(keys[..])[slot := ref]
    {
      PutFaithful(g, keys[..], values[..], slotOf, contents, ref, loc, slot);
      WriteKey(slot, ref);
      WriteValue(slot, loc);
      count := count + 1;
      slotOf := slotOf[ref := slot];
      contents := contents[ref := loc];
    }

    /** Writes a location through the pointer a lookup returned. */
    method SetLocation(ref: nat, slot: nat, loc: Location)
      requires Valid() && ref in contents && slot < g.capacity && keys[slot] == ref
      modifies this`contents, values
      ensures Valid() && contents == old(contents)[ref := loc]
    {
      MoveFaithful(g, keys[..], values[..], slotOf, contents, ref, loc, slot);
      WriteValue(slot, loc);
      contents := contents[ref := loc];
    }

    /** Removes `ref`, leaving a tombstone; absent or invalid references are ignored. */
    method Remove(ref: nat)
      requires Valid()
      modifies this, keys
      ensures Valid() && contents == old(contents) - {ref}
      ensures count == old(count) - (if ref in old(contents) then 1 else 0)
      ensures KeepsEmpty(old(keys[..]), keys[..])
      ensures keys[..] == if ref in old(contents) then Erased(old(keys[..]), ref) else old(keys[..])
    {
      var slot := Lookup(ref);
      if slot != -1 {
        Bury(ref, slot);
      }
    }

    method WriteKey(slot: nat, key: nat)
      requires slot < keys.Length
      modifies keys
      ensures keys[..] == old(keys[..])[slot := key]
    {
      keys[slot] := key;
    }

    method WriteValue(slot: nat, loc: Location)
      requires slot < values.Length
      modifies values
      ensures values[..] == old(values[..])[slot := loc]
    {
      values[slot] := loc;
    }

    method Forget(ghost left: map<nat, nat>, ghost rest: map<nat, Location>)
      requires count > 0
      modifies this`count, this`slotOf, this`contents
      ensures count == old(count) - 1 && slotOf == left && contents == rest
    {
      count, slotOf, contents := count - 1, left, rest;
    }

    method Bury(ref: nat, slot: nat)
      requires Valid() && ref in contents && slot < g.capacity && keys[slot] == ref
      modifies this, keys
      ensures Valid() && contents == old(contents) - {ref} && count == old(count) - 1
      ensures KeepsEmpty(old(keys[..]), keys[..]) && keys[..] == Erased(old(keys[..]), ref)
    {
      ghost var ks, held, left, rest := keys[..], values[..], slotOf - {ref}, contents - {ref};
      BuryFaithful(g, ks, held, slotOf, contents, ref, slot);
      WriteKey(slot, TOMBSTONE);
      assert values[..] == held;
      Forget(left, rest);
    }
  }

  /** Different references with one home. */
  ghost predicate Colliding(g: Geometry, refs: seq<nat>, home: nat) {
    (forall i :: 0 <= i < |refs| ==> IsRef(refs[i]) && g.hash(refs[i]) == home) &&
    forall i, j :: 0 <= i < j < |refs| ==> refs[i] != refs[j]
  }

  /** The first `n` of the references stand at the first hops, and nothing else in the window;
      kept folded. */
  ghost predicate Lined(g: Geometry, keys: seq<nat>, refs: seq<nat>, home: nat, n: nat) {
    g.Valid() && |keys| == g.capacity && home < g.capacity && n <= |refs| <= g.maxProbe &&
    forall u :: Unfold(u) ==> InLine(g, keys, refs, home, n)
  }

  ghost predicate InLine(g: Geometry, keys: seq<nat>, refs: seq<nat>, home: nat, n: nat)
    requires g.Valid() && |keys| == g.capacity && home < g.capacity && n <= |refs| <= g.maxProbe
  {
    forall p {:trigger At(g.capacity, home, p)} ::
      0 <= p < g.maxProbe ==> keys[At(g.capacity, home, p)] == if p < n then refs[p] else EMPTY_KEY
  }

  lemma LineGrows(g: Geometry, keys: seq<nat>, refs: seq<nat>, home: nat, n: nat)
    requires Lined(g, keys, refs, home, n) && n < |refs| && Colliding(g, refs, home)
    ensures FreeInWindow(g, keys, refs[n]) && Lined(g, WithKey(g, keys, refs[n]), refs, home, n + 1)
  {
    assert InLine(g, keys, refs, home, n) by { assert Unfold(0); }
    assert !IsRef(keys[At(g.capacity, home, n)]);
    assert FirstFree(g, keys, refs[n], 0) == n;
    assert InLine(g, WithKey(g, keys, refs[n]), refs, home, n + 1);
  }

  lemma LineBreaks(g: Geometry, keys: seq<nat>, refs: seq<nat>, home: nat, k: nat)
    requires Lined(g, keys, refs, home, |refs|) && |refs| == g.maxProbe && Colliding(g, refs, home) &&
             g.hash(k) == home
    ensures FreeInWindow(g, Erased(keys, refs[0]), k) && !EmptyInWindow(g, Erased(keys, refs[0]), k)
  {
    var left := Erased(keys, refs[0]);
    assert InLine(g, keys, refs, home, |refs|) by { assert Unfold(0); }
    assert left[At(g.capacity, home, 0)] == TOMBSTONE;
    forall p | 0 <= p < g.maxProbe ensures left[At(g.capacity, home, p)] != EMPTY_KEY {
      assert keys[At(g.capacity, home, p)] == refs[p];
    }
  }

  /** A window of tombstones is reached: a window's worth of references with one home, and the
      first of them removed. An insertion would take another one, and the pre-flight refuses it. */
  method WearOut(g: Geometry, refs: seq<nat>, k: nat, loc: Location) returns (t: OrderRefMap)
    requires g.Valid() && |refs| == g.maxProbe <= g.maxEntries && g.Holds(loc) && Colliding(g, refs + [k], g.hash(k))
    ensures fresh(t) && t.Valid() && t.g == g && k !in t.contents && t.Room(k) && !t.Preflight(k)
  {
    ghost var home := g.hash(k);
    LastApart(g, refs, k, home);
    t := LineUp(g, refs, home, loc);
    LineBreaks(g, t.keys[..], refs, home, k);
    assert refs[0] in Seen(refs, |refs|);
    t.Remove(refs[0]);
  }

  lemma LastApart(g: Geometry, refs: seq<nat>, k: nat, home: nat)
    requires Colliding(g, refs + [k], home)
    ensures Colliding(g, refs, home) && k !in refs && IsRef(k) && g.hash(k) == home
  {
    var all := refs + [k];
    assert all[|refs|] == k && forall i :: 0 <= i < |refs| ==> all[i] == refs[i];
  }

  /** Inserts the references one after the other. */
  method LineUp(g: Geometry, refs: seq<nat>, ghost home: nat, loc: Location) returns (t: OrderRefMap)
    requires g.Valid() && 0 < |refs| <= g.maxProbe && |refs| <= g.maxEntries && g.Holds(loc) && Colliding(g, refs, home)
    ensures fresh(t) && fresh(t.keys) && fresh(t.values) && t.Valid() && t.g == g
    ensures t.contents.Keys == Seen(refs, |refs|) && t.count == |refs| && Lined(g, t.keys[..], refs, home, |refs|)
  {
    t := new OrderRefMap(g);
    assert home == g.hash(refs[0]) && Lined(g, t.keys[..], refs, home, 0);
    var n := 0;
    while n < |refs|
      invariant n <= |refs| && t.Valid() && t.g == g && fresh(t) && fresh(t.keys) && fresh(t.values)
      invariant t.contents.Keys == Seen(refs, n) && t.count == n && Lined(g, t.keys[..], refs, home, n)
    {
      LineOne(t, refs, n, home, loc);
      n := n + 1;
    }
  }

  method LineOne(t: OrderRefMap, refs: seq<nat>, n: nat, ghost home: nat, loc: Location)
    requires t.Valid() && n < |refs| <= t.g.maxEntries && t.g.Holds(loc) && Colliding(t.g, refs, home)
    requires t.contents.Keys == Seen(refs, n) && t.count == n && Lined(t.g, t.keys[..], refs, home, n)
    modifies t, t.keys, t.values
    ensures t.Valid() && t.contents.Keys == Seen(refs, n + 1) && t.count == n + 1 &&
            Lined(t.g, t.keys[..], refs, home, n + 1)
  {
    LineGrows(t.g, t.keys[..], refs, home, n);
    SeenMore(refs, n);
    ghost var held := t.contents;
    var _ := t.Insert(refs[n], loc);
    assert |held[refs[n] := loc]| == |held| + 1;
  }

  lemma SeenMore(refs: seq<nat>, n: nat)
    requires n < |refs| && forall i, j :: 0 <= i < j < |refs| ==> refs[i] != refs[j]
    ensures refs[n] !in Seen(refs, n) && Seen(refs, n + 1) == Seen(refs, n) + {refs[n]}
  {
  }

  ghost function Seen(refs: seq<nat>, n: nat): set<nat>
    requires n <= |refs|
  {
    set i | 0 <= i < n :: refs[i]
  }

  lemma Buried(g: Geometry, keys: seq<nat>, values: seq<Location>, slotOf: map<nat, nat>, contents: map<nat, Location>,
      ref: nat, slot: nat)
    requires Files(g, keys, values, slotOf, contents) && ref in contents && slot < g.capacity && keys[slot] == ref
    ensures Files(g, keys[slot := TOMBSTONE], values, slotOf - {ref}, contents - {ref})
    ensures |contents - {ref}| == |contents| - 1 && KeepsEmpty(keys, keys[slot := TOMBSTONE]) && IsRef(ref)
  {
    assert IsRef(keys[slot]) && slotOf[ref] == slot;
    BuryKey(g, keys, slotOf, ref);
    assert contents.Keys == (contents - {ref}).Keys + {ref};
    assert |contents| == |contents.Keys| && |contents - {ref}| == |(contents - {ref}).Keys|;
  }
}
