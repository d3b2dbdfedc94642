/** The ticker table of the decoder: open addressing without deletion, filled to at most half,
    whose lookup gives up after half the slots. */
module SymbolTable {
  import opened Folding
  import opened Probing
  import opened Sequences

  type byte = x: int | 0 <= x < 256

  /** Eight raw bytes. */
  type Ticker = seq<byte>

  const NOT_FOUND: int := 0xFFFF

  datatype Shape = Shape(capacity: nat, symbols: nat, hash: Ticker -> nat)
  {
    ghost predicate Valid() {
      0 < capacity && capacity % 2 == 0 && symbols <= NOT_FOUND && forall k :: hash(k) < capacity
    }

    function Half(): (h: nat)
      ensures 2 * h <= capacity <= 2 * h + 1
    {
      capacity / 2
    }
  }

  /** Keys and occupied slots match one to one, and no probe for a key meets an empty slot. */
  ghost predicate Filed(g: Shape, keys: seq<Ticker>, values: seq<int>, slotOf: map<Ticker, nat>,
      contents: map<Ticker, nat>) {
    g.Valid() && |keys| == |values| == g.capacity && slotOf.Keys == contents.Keys && |slotOf| <= g.Half() &&
    (forall k {:trigger slotOf[k]} :: k in slotOf ==>
       slotOf[k] < g.capacity && keys[slotOf[k]] == k && values[slotOf[k]] == contents[k] != NOT_FOUND &&
       Reached(g, values, k, slotOf[k])) &&
    (forall s {:trigger values[s]} ::
      0 <= s < |values| && values[s] != NOT_FOUND ==> keys[s] in slotOf && slotOf[keys[s]] == s)
  }

  ghost predicate Reached(g: Shape, values: seq<int>, k: Ticker, s: nat)
    requires g.Valid() && |values| == g.capacity && s < g.capacity
  {
    forall p {:trigger At(g.capacity, g.hash(k), p)} ::
        0 <= p < Dist(g.capacity, g.hash(k), s) ==> values[At(g.capacity, g.hash(k), p)] != NOT_FOUND
  }

  /** The keys met in the first `n` hops are as many as the hops. */
  lemma {:induction false} MetDistinct(g: Shape, keys: seq<Ticker>, values: seq<int>, slotOf: map<Ticker, nat>,
      contents: map<Ticker, nat>, home: nat, n: nat)
      returns (met: set<Ticker>)
    requires Filed(g, keys, values, slotOf, contents) && home < g.capacity && n <= g.capacity
    requires forall p :: 0 <= p < n ==> values[At(g.capacity, home, p)] != NOT_FOUND
    ensures |met| == n && forall x {:trigger x in met} ::
              x in met ==> x in slotOf && Dist(g.capacity, home, slotOf[x]) < n
  {
    if n == 0 {
      met := {};
    } else {
      met := MetDistinct(g, keys, values, slotOf, contents, home, n - 1);
      var s := At(g.capacity, home, n - 1);
      assert values[s] != NOT_FOUND && slotOf[keys[s]] == s;
      assert keys[s] !in met;
      met := met + {keys[s]};
    }
  }

  /** A chain of occupied slots is no longer than the number of keys. */
  lemma ChainWithinHalf(g: Shape, keys: seq<Ticker>, values: seq<int>, slotOf: map<Ticker, nat>,
      contents: map<Ticker, nat>, home: nat, n: nat)
    requires Filed(g, keys, values, slotOf, contents) && home < g.capacity && n <= g.capacity
    requires forall p :: 0 <= p < n ==> values[At(g.capacity, home, p)] != NOT_FOUND
    ensures n <= |slotOf| <= g.Half()
  {
    var met := MetDistinct(g, keys, values, slotOf, contents, home, n);
    Smaller(met, slotOf.Keys);
    assert |slotOf| == |slotOf.Keys|;
  }

  /** The table as a whole, kept folded. */
  ghost predicate Kept(g: Shape, keys: seq<Ticker>, values: seq<int>, slotOf: map<Ticker, nat>,
      contents: map<Ticker, nat>) {
    forall n :: Unfold(n) ==> Filed(g, keys, values, slotOf, contents)
  }

  lemma Keep(g: Shape, keys: seq<Ticker>, values: seq<int>, slotOf: map<Ticker, nat>, contents: map<Ticker, nat>)
    requires Filed(g, keys, values, slotOf, contents)
    ensures Kept(g, keys, values, slotOf, contents)
  {
  }

  lemma Open(g: Shape, keys: seq<Ticker>, values: seq<int>, slotOf: map<Ticker, nat>, contents: map<Ticker, nat>)
    requires Kept(g, keys, values, slotOf, contents)
    ensures Filed(g, keys, values, slotOf, contents) && |slotOf| == |contents|
  {
    assert Unfold(0);
    assert |slotOf| == |slotOf.Keys| == |contents.Keys| == |contents|;
  }

  /** The first `n` probes for a key met occupied slots of other keys. */
  ghost predicate Passed(g: Shape, keys: seq<Ticker>, values: seq<int>, key: Ticker, n: nat)
    requires g.Valid() && |keys| == |values| == g.capacity && n <= g.capacity
  {
    forall p {:trigger At(g.capacity, g.hash(key), p)} :: 0 <= p < n ==>
      values[At(g.capacity, g.hash(key), p)] != NOT_FOUND && keys[At(g.capacity, g.hash(key), p)] != key
  }

  /** The probe of a table that is not half full has not ended after `n` hops. */
  lemma NotYetHalf(g: Shape, keys: seq<Ticker>, values: seq<int>, slotOf: map<Ticker, nat>, contents: map<Ticker, nat>,
      key: Ticker, n: nat)
    requires g.Valid() && |keys| == |values| == g.capacity && Kept(g, keys, values, slotOf, contents) &&
             |contents| < g.Half() && n < g.Half()
    requires Passed(g, keys, values, key, n) && values[At(g.capacity, g.hash(key), n)] != NOT_FOUND
    ensures n + 1 < g.Half()
  {
    Open(g, keys, values, slotOf, contents);
    ChainWithinHalf(g, keys, values, slotOf, contents, g.hash(key), n + 1);
  }

  class Table {
    const g: Shape
    const keys: array<Ticker>
    const values: array<int>
    var count: nat
    ghost var slotOf: map<Ticker, nat>
    /** The map this table stands for. */
    ghost var contents: map<Ticker, nat>

    ghost predicate Valid()
      reads this, keys, values
    {
      g.Valid() && keys.Length == values.Length == g.capacity && count == |contents| && |contents| <= g.Half() &&
      Kept(g, keys[..], values[..], slotOf, contents)
    }

    constructor (g: Shape)
      requires g.Valid()
      ensures Valid() && this.g == g && contents == map[] && fresh(keys) && fresh(values)
    {
      this.g := g;
      keys := new Ticker[g.capacity](_ => []);
      values := new int[g.capacity](_ => NOT_FOUND);
      count, slotOf, contents := 0, map[], map[];
    }

    /** Enters a ticker or renames a known one. Refused once the table is half full, even for a
        known ticker. */
    method Insert(key: Ticker, idx: nat) returns (ok: bool)
      requires Valid()
      modifies this, keys, values
      ensures Valid() && (ok <==> idx < g.symbols && |old(contents)| < g.Half())
      ensures contents == if ok then old(contents)[key := idx] else old(contents)
    {
      if idx >= g.symbols || count >= g.Half() {
        return false;
      }
      var slot := FindSlot(key);
      if values[slot] != NOT_FOUND {
        Rename(key, slot, idx);
      } else {
        Enter(key, slot, idx);
      }
      return true;
    }

    /** The first slot of the probe that is empty or holds the key; a half-full table has one. */
    method FindSlot(key: Ticker) returns (slot: nat)
      requires Valid() && |contents| < g.Half()
      ensures slot < g.capacity && (values[slot] == NOT_FOUND || keys[slot] == key)
      ensures Passed(g, keys[..], values[..], key, Dist(g.capacity, g.hash(key), slot))
    {
      slot := g.hash(key);
      ghost var hops, ks, vs := 0, keys[..], values[..];
      while values[slot] != NOT_FOUND
        invariant slot < g.capacity && hops < g.Half() && slot == At(g.capacity, g.hash(key), hops) &&
                  Passed(g, ks, vs, key, hops)
        decreases g.capacity - hops
      {
        assert vs[slot] == values[slot] && ks[slot] == keys[slot];
        if keys[slot] == key {
          return;
        }
        NotYetHalf(g, ks, vs, slotOf, contents, key, hops);
        slot := Next(g.capacity, slot);
        hops := hops + 1;
      }
    }

    method Write(slot: nat, key: Ticker, idx: int)
      requires slot < keys.Length == values.Length
      modifies keys, values
      ensures keys[..] == old(keys[..])[slot := key] && values[..] == old(values[..])[slot := idx]
    {
      keys[slot] := key;
      values[slot] := idx;
    }

    method Rename(key: Ticker, slot: nat, idx: nat)
      requires Valid() && slot < g.capacity && values[slot] != NOT_FOUND && keys[slot] == key && idx < g.symbols
      modifies this`contents, keys, values
      ensures Valid() && contents == old(contents)[key := idx]
    {
      Renamed(g, keys[..], values[..], slotOf, contents, key, slot, idx);
      Write(slot, key, idx);
      contents := contents[key := idx];
    }

    method Enter(key: Ticker, slot: nat, idx: nat)
      requires Valid() && |contents| < g.Half() && slot < g.capacity && values[slot] == NOT_FOUND && idx < g.symbols
      requires Passed(g, keys[..], values[..], key, Dist(g.capacity, g.hash(key), slot))
      modifies this, keys, values
      ensures Valid() && contents == old(contents)[key := idx]
    {
      Entered(g, keys[..], values[..], slotOf, contents, key, slot, idx);
      Write(slot, key, idx);
      slotOf, contents := slotOf[key := slot], contents[key := idx];
      count := count + 1;
    }

    /** The symbol of a ticker. Looking at half the slots is always enough. */
    method Lookup(key: Ticker) returns (r: int)
      requires Valid()
      ensures r == if key in contents then contents[key] else NOT_FOUND
    {
      var slot, probed := g.hash(key), 0;
      ghost var ks, vs := keys[..], values[..];
      Open(g, ks, vs, slotOf, contents);
      while probed < g.Half()
        invariant probed <= g.Half() < g.capacity && slot == At(g.capacity, g.hash(key), probed) &&
                  Passed(g, ks, vs, key, probed)
      {
        assert vs[slot] == values[slot] && ks[slot] == keys[slot];
        if values[slot] == NOT_FOUND {
          MissedIsAbsent(g, ks, vs, slotOf, contents, key, probed);
          return NOT_FOUND;
        }
        if keys[slot] == key {
          return values[slot];
        }
        slot := Next(g.capacity, slot);
        probed := probed + 1;
      }
      HalfIsEnough(g, ks, vs, slotOf, contents, key);
      return NOT_FOUND;
    }
  }

  lemma Renamed(g: Shape, keys: seq<Ticker>, values: seq<int>, slotOf: map<Ticker, nat>, contents: map<Ticker, nat>,
      key: Ticker, slot: nat, idx: nat)
    requires g.Valid() && |keys| == |values| == g.capacity && Kept(g, keys, values, slotOf, contents)
    requires slot < g.capacity && values[slot] != NOT_FOUND && keys[slot] == key && idx < g.symbols
    ensures key in contents && Kept(g, keys[slot := key], values[slot := idx], slotOf, contents[key := idx]) &&
            |contents[key := idx]| == |contents|
  {
    Open(g, keys, values, slotOf, contents);
    var values', contents' := values[slot := idx], contents[key := idx];
    assert key in slotOf && slotOf[key] == slot && keys[slot := key] == keys;
    assert contents'.Keys == contents.Keys;
    assert |contents'.Keys| == |contents.Keys|;
    forall k {:trigger slotOf[k]} | k in slotOf
      ensures values'[slotOf[k]] == contents'[k] != NOT_FOUND && Reached(g, values', k, slotOf[k])
    {
      assert Reached(g, values, k, slotOf[k]) && keys[slotOf[k]] == k;
    }
    Keep(g, keys, values', slotOf, contents');
  }

  lemma Entered(g: Shape, keys: seq<Ticker>, values: seq<int>, slotOf: map<Ticker, nat>, contents: map<Ticker, nat>,
      key: Ticker, slot: nat, idx: nat)
    requires g.Valid() && |keys| == |values| == g.capacity && Kept(g, keys, values, slotOf, contents) &&
             |contents| < g.Half()
    requires slot < g.capacity && values[slot] == NOT_FOUND && idx < g.symbols &&
             Passed(g, keys, values, key, Dist(g.capacity, g.hash(key), slot))
    ensures key !in contents &&
            Kept(g, keys[slot := key], values[slot := idx], slotOf[key := slot], contents[key := idx])
    ensures |contents[key := idx]| == |contents| + 1
  {
    Open(g, keys, values, slotOf, contents);
    assert At(g.capacity, g.hash(key), Dist(g.capacity, g.hash(key), slot)) == slot;
    MissedIsAbsent(g, keys, values, slotOf, contents, key, Dist(g.capacity, g.hash(key), slot));
    EnterKeys(g, keys, values, slotOf, contents, key, slot, idx);
    EnterSlots(g, keys, values, slotOf, contents, key, slot, idx);
    Keep(g, keys[slot := key], values[slot := idx], slotOf[key := slot], contents[key := idx]);
  }

  lemma EnterKeys(g: Shape, keys: seq<Ticker>, values: seq<int>, slotOf: map<Ticker, nat>, contents: map<Ticker, nat>,
      key: Ticker, slot: nat, idx: nat)
    requires Filed(g, keys, values, slotOf, contents) && slot < g.capacity && values[slot] == NOT_FOUND &&
             idx < g.symbols && key !in contents
    requires Passed(g, keys, values, key, Dist(g.capacity, g.hash(key), slot))
    ensures var keys', values', slotOf', contents' := keys[slot := key], values[slot := idx], slotOf[key := slot],
            contents[key := idx];
            forall k {:trigger slotOf'[k]} :: k in slotOf' ==>
              slotOf'[k] < g.capacity && keys'[slotOf'[k]] == k && values'[slotOf'[k]] == contents'[k] != NOT_FOUND &&
              Reached(g, values', k, slotOf'[k])
  {
    var values', slotOf' := values[slot := idx], slotOf[key := slot];
    forall k {:trigger slotOf'[k]} | k in slotOf'
      ensures Reached(g, values', k, slotOf'[k]) && (k != key ==> slotOf[k] != slot)
    {
      if k != key {
        assert Reached(g, values, k, slotOf[k]);
      }
    }
  }

  lemma EnterSlots(g: Shape, keys: seq<Ticker>, values: seq<int>, slotOf: map<Ticker, nat>, contents: map<Ticker, nat>,
      key: Ticker, slot: nat, idx: nat)
    requires Filed(g, keys, values, slotOf, contents) && slot < g.capacity && values[slot] == NOT_FOUND &&
             idx < g.symbols && key !in contents
    ensures var keys', values', slotOf' := keys[slot := key], values[slot := idx], slotOf[key := slot];
            forall s {:trigger values'[s]} ::
                0 <= s < |values'| && values'[s] != NOT_FOUND ==> keys'[s] in slotOf' && slotOf'[keys'[s]] == s
    ensures |slotOf[key := slot]| == |slotOf| + 1 && |contents[key := idx]| == |contents| + 1
  {
    var keys', values', slotOf' := keys[slot := key], values[slot := idx], slotOf[key := slot];
    forall s {:trigger values'[s]} | 0 <= s < |values'| && values'[s] != NOT_FOUND
      ensures keys'[s] in slotOf' && slotOf'[keys'[s]] == s
    {
      if s != slot {
        assert values[s] != NOT_FOUND && keys[s] in slotOf;
      }
    }
  }

  /** A key whose probe meets an empty slot before it is not in the table. */
  lemma MissedIsAbsent(g: Shape, keys: seq<Ticker>, values: seq<int>, slotOf: map<Ticker, nat>,
      contents: map<Ticker, nat>, key: Ticker, n: nat)
    requires Filed(g, keys, values, slotOf, contents) && n < g.capacity &&
             values[At(g.capacity, g.hash(key), n)] == NOT_FOUND
    requires forall p :: 0 <= p < n ==> keys[At(g.capacity, g.hash(key), p)] != key
    ensures key !in contents
  {
    if key in slotOf {
      PresentIsMet(g, keys, values, slotOf, contents, key);
    }
  }

  /** A key not met in the first half of the slots is not in the table. */
  lemma HalfIsEnough(g: Shape, keys: seq<Ticker>, values: seq<int>, slotOf: map<Ticker, nat>,
      contents: map<Ticker, nat>, key: Ticker)
    requires Filed(g, keys, values, slotOf, contents)
    requires forall p :: 0 <= p < g.Half() ==> keys[At(g.capacity, g.hash(key), p)] != key
    ensures key !in contents
  {
    if key in slotOf {
      PresentIsMet(g, keys, values, slotOf, contents, key);
    }
  }

  /** A present key is met within the first half of its probe, before any empty slot. */
  lemma PresentIsMet(g: Shape, keys: seq<Ticker>, values: seq<int>, slotOf: map<Ticker, nat>,
      contents: map<Ticker, nat>, key: Ticker)
    requires Filed(g, keys, values, slotOf, contents) && key in slotOf
    ensures exists d {:trigger At(g.capacity, g.hash(key), d)} ::
              0 <= d < g.Half() && keys[At(g.capacity, g.hash(key), d)] == key &&
              values[At(g.capacity, g.hash(key), d)] != NOT_FOUND &&
              forall p {:trigger At(g.capacity, g.hash(key), p)} ::
                0 <= p < d ==> values[At(g.capacity, g.hash(key), p)] != NOT_FOUND
  {
    var home, at := g.hash(key), slotOf[key];
    var d := Dist(g.capacity, home, at);
    assert At(g.capacity, home, d) == at && Reached(g, values, key, at);
    ChainWithinHalf(g, keys, values, slotOf, contents, home, d + 1);
  }
}
