/** The lock-free block pool: a tagged head over an index free list, as interleaved atomic
    steps of any number of threads. Loads, link reads and writes, and compare-exchange are
    separate steps; a compare-exchange may also fail for no reason. Tags do not wrap. */
module BlockPool {

  const INVALID: nat := 0xFFFF_FFFF

  datatype Head = Head(index: nat, tag: nat)

  /** Where a thread is inside allocate or deallocate, with its local variables. */
  datatype Pc =
    | Idle
    | AllocLoaded(seen: Head)
    | AllocRead(seen: Head, link: nat)
    | FreeLoaded(block: nat, seen: Head)
    | FreeWritten(block: nat, seen: Head)

  datatype Owner = InPool | Held | Freeing(thread: nat)

  predicate Frees(pc: Pc, b: nat) {
    (pc.FreeLoaded? || pc.FreeWritten?) && pc.block == b
  }

  /** The list the head and the links describe, from the head to the invalid index. */
  ghost predicate Chain(next: seq<nat>, head: nat, free: seq<nat>) {
    |next| <= INVALID && head == (if free == [] then INVALID else free[0]) &&
    (forall i {:trigger free[i]} :: 0 <= i < |free| ==> free[i] < |next|) &&
    (forall i {:trigger next[free[i]]} ::
      0 <= i < |free| ==> next[free[i]] == if i + 1 < |free| then free[i + 1] else INVALID) &&
    (forall i, j {:trigger free[i], free[j]} :: 0 <= i < j < |free| ==> free[i] != free[j])
  }

  /** Every block is in the list, held by a client or being freed by one thread, as `owners` says. */
  ghost predicate Owned(owners: seq<Owner>, free: seq<nat>, pcs: map<nat, Pc>) {
    (forall i {:trigger free[i]} :: 0 <= i < |free| ==> free[i] < |owners| && owners[free[i]] == InPool) &&
    (forall b {:trigger owners[b]} :: 0 <= b < |owners| && owners[b] == InPool ==> b in free) &&
    (forall b {:trigger owners[b]} ::
      0 <= b < |owners| && owners[b].Freeing? ==> owners[b].thread in pcs && Frees(pcs[owners[b].thread], b)) &&
    (forall t {:trigger pcs[t]} :: t in pcs && (pcs[t].FreeLoaded? || pcs[t].FreeWritten?) ==>
       pcs[t].block < |owners| && owners[pcs[t].block] == Freeing(t))
  }

  /** A thread's view of the head is right whenever the tag is still the one it saw. */
  ghost predicate Current(pc: Pc, head: Head, next: seq<nat>) {
    match pc
    case Idle => true
    case AllocLoaded(seen) => Saw(seen, head) && (seen.index == INVALID || seen.index < |next|)
    case AllocRead(seen, link) => Saw(seen, head) && seen.index < |next| &&
      (seen.tag == head.tag ==> link == next[seen.index])
    case FreeLoaded(_, seen) => Saw(seen, head)
    case FreeWritten(b, seen) => Saw(seen, head) && b < |next| && next[b] == seen.index
  }

  predicate Saw(seen: Head, head: Head) {
    seen.tag <= head.tag && (seen.tag == head.tag ==> seen.index == head.index)
  }

  ghost predicate AllCurrent(pcs: map<nat, Pc>, head: Head, next: seq<nat>) {
    forall t {:trigger pcs[t]} :: t in pcs ==> Current(pcs[t], head, next)
  }

  ghost predicate Inv(next: seq<nat>, head: Head, pcs: map<nat, Pc>, free: seq<nat>, owners: seq<Owner>) {
    |owners| == |next| && Chain(next, head.index, free) && Owned(owners, free, pcs) && AllCurrent(pcs, head, next)
  }

  /** Popping the head that a thread saw, with the link it read, is popping the list: the tag
      rules out a stale link. */
  lemma PopKeeps(next: seq<nat>, head: Head, pcs: map<nat, Pc>, free: seq<nat>, owners: seq<Owner>, t: nat)
    requires Inv(next, head, pcs, free, owners) && t in pcs && pcs[t].AllocRead? && pcs[t].seen == head
    ensures free != [] && free[0] == head.index &&
            Inv(next, Head(pcs[t].link, head.tag + 1), pcs[t := Idle], free[1..], owners[head.index := Held])
  {
    var link := pcs[t].link;
    assert Current(pcs[t], head, next) && link == next[head.index];
    assert free != [];
    var pcs', head', owners', free' := pcs[t := Idle], Head(link, head.tag + 1), owners[head.index := Held], free[1..];
    assert forall i :: 0 <= i < |free'| ==> free'[i] == free[i + 1];
    assert Chain(next, link, free');
    forall b | 0 <= b < |owners'| && owners'[b] == InPool ensures b in free' {
      assert owners[b] == InPool && b in free && b != free[0];
    }
    assert Owned(owners', free', pcs');
    forall u | u in pcs' ensures Current(pcs'[u], head', next) {
      assert u != t ==> Current(pcs[u], head, next);
    }
  }

  /** Pushing a block whose link is the head that a thread saw is pushing onto the list. */
  lemma PushKeeps(next: seq<nat>, head: Head, pcs: map<nat, Pc>, free: seq<nat>, owners: seq<Owner>, t: nat)
    requires Inv(next, head, pcs, free, owners) && t in pcs && pcs[t].FreeWritten? && pcs[t].seen == head
    ensures var b := pcs[t].block;
            b < |owners| && Inv(next, Head(b, head.tag + 1), pcs[t := Idle], [b] + free, owners[b := InPool])
  {
    var b := pcs[t].block;
    assert Current(pcs[t], head, next) && owners[b] == Freeing(t);
    var pcs', head', owners', free' := pcs[t := Idle], Head(b, head.tag + 1), owners[b := InPool], [b] + free;
    ChainPush(next, head.index, free, b);
    OwnedPush(owners, free, pcs, t, b);
    forall u | u in pcs' ensures Current(pcs'[u], head', next) {
      assert u != t ==> Current(pcs[u], head, next);
    }
  }

  lemma ChainPush(next: seq<nat>, head: nat, free: seq<nat>, b: nat)
    requires Chain(next, head, free) && b < |next| && next[b] == head && b !in free
    ensures Chain(next, b, [b] + free)
  {
    var free' := [b] + free;
    forall i | 0 <= i < |free'|
      ensures free'[i] < |next| && next[free'[i]] == if i + 1 < |free'| then free'[i + 1] else INVALID
    {
      if i > 0 {
        assert free'[i] == free[i - 1] && next[free[i - 1]] == next[free'[i]];
      }
    }
    forall i, j | 0 <= i < j < |free'| ensures free'[i] != free'[j] {
      assert free'[j] == free[j - 1] && (i > 0 ==> free'[i] == free[i - 1]);
    }
  }

  lemma OwnedPush(owners: seq<Owner>, free: seq<nat>, pcs: map<nat, Pc>, t: nat, b: nat)
    requires Owned(owners, free, pcs) && t in pcs && Frees(pcs[t], b) && b < |owners| && owners[b] == Freeing(t)
    ensures Owned(owners[b := InPool], [b] + free, pcs[t := Idle])
  {
    var owners', free' := owners[b := InPool], [b] + free;
    forall i | 0 <= i < |free'| ensures free'[i] < |owners'| && owners'[free'[i]] == InPool {
      if i > 0 {
        assert free'[i] == free[i - 1];
      }
    }
    forall x | 0 <= x < |owners'| && owners'[x] == InPool ensures x in free' {
      if x != b {
        assert owners[x] == InPool && x in free;
      }
    }
  }

  /** Writing the link of a block being freed disturbs neither the list nor any other thread. */
  lemma WriteKeeps(next: seq<nat>, head: Head, pcs: map<nat, Pc>, free: seq<nat>, owners: seq<Owner>, t: nat)
    requires Inv(next, head, pcs, free, owners) && t in pcs && pcs[t].FreeLoaded?
    ensures var pc := pcs[t];
            pc.block < |next| && Inv(next[pc.block := pc.seen.index], head, pcs[t := FreeWritten(pc.block, pc.seen)],
            free, owners)
  {
    var b, seen := pcs[t].block, pcs[t].seen;
    assert owners[b] == Freeing(t) && Current(pcs[t], head, next);
    var next', pcs' := next[b := seen.index], pcs[t := FreeWritten(b, seen)];
    assert forall i :: 0 <= i < |free| ==> free[i] != b;
    assert Chain(next', head.index, free);
    assert Owned(owners, free, pcs');
    forall u | u in pcs' ensures Current(pcs'[u], head, next') {
      if u != t {
        assert Current(pcs[u], head, next);
        if pcs[u].FreeWritten? {
          assert owners[pcs[u].block] == Freeing(u);
        }
        if pcs[u].AllocRead? && pcs[u].seen.tag == head.tag {
          assert free != [] && pcs[u].seen.index == free[0];
        }
      }
    }
  }

  /** A thread that only loads the head or looks at a link. */
  lemma LookKeeps(next: seq<nat>, head: Head, pcs: map<nat, Pc>, free: seq<nat>, owners: seq<Owner>, t: nat, pc: Pc)
    requires Inv(next, head, pcs, free, owners) && Current(pc, head, next)
    requires t in pcs && (pcs[t].FreeLoaded? || pcs[t].FreeWritten? ==> Frees(pc, pcs[t].block))
    requires pc.FreeLoaded? || pc.FreeWritten? ==> (pcs[t].FreeLoaded? || pcs[t].FreeWritten?)
    ensures Inv(next, head, pcs[t := pc], free, owners)
  {
  }

  /** A head seen by an allocating thread is a block or the end mark. */
  lemma SeenInRange(next: seq<nat>, head: Head, pcs: map<nat, Pc>, free: seq<nat>, owners: seq<Owner>, t: nat)
    requires Inv(next, head, pcs, free, owners) && t in pcs && pcs[t].AllocLoaded? && pcs[t].seen.index != INVALID
    ensures pcs[t].seen.index < |next| && Current(AllocRead(pcs[t].seen, next[pcs[t].seen.index]), head, next)
  {
    assert Current(pcs[t], head, next);
  }

  lemma HandBack(next: seq<nat>, head: Head, pcs: map<nat, Pc>, free: seq<nat>, owners: seq<Owner>, t: nat, b: nat)
    requires Inv(next, head, pcs, free, owners) && t in pcs && pcs[t].Idle? && b < |owners| && owners[b] == Held
    ensures Inv(next, head, pcs[t := FreeLoaded(b, head)], free, owners[b := Freeing(t)])
  {
    var pcs', owners' := pcs[t := FreeLoaded(b, head)], owners[b := Freeing(t)];
    forall u | u in pcs' && (pcs'[u].FreeLoaded? || pcs'[u].FreeWritten?)
      ensures pcs'[u].block < |owners'| && owners'[pcs'[u].block] == Freeing(u)
    {
      assert u != t ==> owners[pcs[u].block] == Freeing(u);
    }
    forall u | u in pcs' ensures Current(pcs'[u], head, next) {
      assert u != t ==> Current(pcs[u], head, next);
    }
  }

  lemma Starts(next: seq<nat>, head: Head, pcs: map<nat, Pc>, free: seq<nat>, owners: seq<Owner>)
    requires 0 < |next| == |free| == |owners| <= INVALID && head == Head(0, 0)
    requires forall i ::
               0 <= i < |next| ==>
                 free[i] == i && owners[i] == InPool && next[i] == if i + 1 < |next| then i + 1 else INVALID
    requires forall t :: t in pcs ==> pcs[t] == Idle
    ensures Inv(next, head, pcs, free, owners)
  {
    forall b | 0 <= b < |owners| ensures b in free {
      assert free[b] == b;
    }
  }

  datatype Action =
    | StartAllocate(t: nat)
    | ReadLink(t: nat)
    | FinishAllocate(t: nat, spurious: bool)
    | StartFree(t: nat, block: nat)
    | WriteLink(t: nat)
    | FinishFree(t: nat, spurious: bool)

  /** The pool as a value. */
  datatype PoolState = PoolState(next: seq<nat>, head: Head, pcs: map<nat, Pc>, owners: seq<Owner>, free: seq<nat>)

  /** A step the thread can take, freeing only what a client holds. */
  predicate CanTake(pcs: map<nat, Pc>, owners: seq<Owner>, a: Action) {
    a.t in pcs &&
    match a
    case StartAllocate(t) => pcs[t].Idle?
    case ReadLink(t) => pcs[t].AllocLoaded?
    case FinishAllocate(t, _) => pcs[t].AllocRead?
    case StartFree(t, b) => pcs[t].Idle? && b < |owners| && owners[b] == Held
    case WriteLink(t) => pcs[t].FreeLoaded?
    case FinishFree(t, _) => pcs[t].FreeWritten?
  }

  /** What one step does. Both operations load the head; an allocation then gives up on an empty pool or
      reads a link, a deallocation writes one; a compare-exchange that finds the head as it was seen takes
      the first free block or puts one in front, and moves the tag on, and any other starts again from the
      present head. */
  ghost predicate Did(a: Action, s: PoolState, s': PoolState)
    requires CanTake(s.pcs, s.owners, a)
  {
    match a
    case StartAllocate(t) => s' == s.(pcs := s.pcs[t := AllocLoaded(s.head)])
    case ReadLink(t) =>
      var seen := s.pcs[t].seen;
      if seen.index == INVALID then s' == s.(pcs := s.pcs[t := Idle])
      else seen.index < |s.next| && s' == s.(pcs := s.pcs[t := AllocRead(seen, s.next[seen.index])])
    case FinishAllocate(t, spurious) =>
      if spurious || s.pcs[t].seen != s.head then s' == s.(pcs := s.pcs[t := AllocLoaded(s.head)])
      else
        s.free != [] && s.free[0] < |s.owners| && s'.free == s.free[1..] && s'.pcs == s.pcs[t := Idle] &&
        s'.owners == s.owners[s.free[0] := Held] && s'.head.tag == s.head.tag + 1 && s'.next == s.next
    case StartFree(t, b) =>
      s' == s.(pcs := s.pcs[t := FreeLoaded(b, s.head)], owners := s.owners[b := Freeing(t)])
    case WriteLink(t) =>
      var pc := s.pcs[t];
      pc.block < |s.next| &&
      s' == s.(pcs := s.pcs[t := FreeWritten(pc.block, pc.seen)], next := s.next[pc.block := pc.seen.index])
    case FinishFree(t, spurious) =>
      var b := s.pcs[t].block;
      if spurious || s.pcs[t].seen != s.head then s' == s.(pcs := s.pcs[t := FreeLoaded(b, s.head)])
      else
        b < |s.owners| && s'.free == [b] + s.free && s'.pcs == s.pcs[t := Idle] &&
        s'.owners == s.owners[b := InPool] && s'.head.tag == s.head.tag + 1 && s'.next == s.next
  }

  /** The `i`-th step of the schedule leads from one state to the next; one that cannot be taken is passed over. */
  ghost predicate Step(schedule: seq<Action>, states: seq<PoolState>, i: nat)
    requires i < |schedule| < |states|
  {
    if CanTake(states[i].pcs, states[i].owners, schedule[i]) then Did(schedule[i], states[i], states[i + 1])
    else states[i + 1] == states[i]
  }

  ghost predicate Played(schedule: seq<Action>, states: seq<PoolState>) {
    |states| == |schedule| + 1 && forall i :: 0 <= i < |schedule| ==> Step(schedule, states, i)
  }

  lemma PlayedOne(schedule: seq<Action>, i: nat, states: seq<PoolState>, state: PoolState)
    requires i < |schedule| && Played(schedule[..i], states)
    requires if CanTake(states[i].pcs, states[i].owners, schedule[i]) then Did(schedule[i], states[i], state)
             else state == states[i]
    ensures Played(schedule[..i + 1], states + [state])
  {
    var done, after := schedule[..i + 1], states + [state];
    forall j | 0 <= j < |done| ensures Step(done, after, j) {
      assert j < i ==> Step(schedule[..i], states, j);
    }
  }

  class Pool {
    const next: array<nat>
    var head: Head
    /** The local state of every running thread. */
    var pcs: map<nat, Pc>
    /** Who has each block; clients free only what they hold. */
    var owners: seq<Owner>
    /** The free blocks from the head on. */
    ghost var free: seq<nat>

    ghost predicate Valid()
      reads this, next
    {
      Inv(next[..], head, pcs, free, owners)
    }

    ghost function State(): PoolState
      reads this, next
    {
      PoolState(next[..], head, pcs, owners, free)
    }

    constructor (capacity: nat, threads: set<nat>)
      requires 0 < capacity <= INVALID
      ensures Valid() && fresh(next) && next.Length == capacity && free == seq(capacity, i => i) && pcs.Keys == threads
      ensures head == Head(0, 0) && (forall t :: t in pcs ==> pcs[t] == Idle) && owners == seq(capacity, _ => InPool)
    {
      next := new nat[capacity](i => i + 1);
      head := Head(0, 0);
      pcs := map t | t in threads :: Idle;
      free := seq(capacity, i => i);
      owners := seq(capacity, _ => InPool);
      new;
      next[capacity - 1] := INVALID;
      Starts(next[..], head, pcs, free, owners);
    }

    /** Loads the head for an allocation. */
    method StartAllocate(t: nat)
      requires Valid() && t in pcs && pcs[t].Idle?
      modifies this`pcs
      ensures Valid() && pcs == old(pcs)[t := AllocLoaded(head)]
      ensures Did(Action.StartAllocate(t), old(State()), State())
    {
      LookKeeps(next[..], head, pcs, free, owners, t, AllocLoaded(head));
      pcs := pcs[t := AllocLoaded(head)];
    }

    /** Gives up when the pool was empty at the load, else reads the link of the block it saw.
        That block may have been taken meanwhile; the read is then stale. */
    method ReadLink(t: nat) returns (exhausted: bool)
      requires Valid() && t in pcs && pcs[t].AllocLoaded?
      modifies this`pcs
      ensures Valid() && (exhausted <==> old(pcs)[t].seen.index == INVALID)
      ensures exhausted ==> pcs == old(pcs)[t := Idle]
      ensures !exhausted ==> pcs.Keys == old(pcs).Keys && pcs[t].AllocRead? && pcs[t].seen == old(pcs)[t].seen
      ensures Did(Action.ReadLink(t), old(State()), State())
    {
      var seen := pcs[t].seen;
      exhausted := seen.index == INVALID;
      if exhausted {
        LookKeeps(next[..], head, pcs, free, owners, t, Idle);
        pcs := pcs[t := Idle];
      } else {
        SeenInRange(next[..], head, pcs, free, owners, t);
        LookKeeps(next[..], head, pcs, free, owners, t, AllocRead(seen, next[seen.index]));
        pcs := pcs[t := AllocRead(seen, next[seen.index])];
      }
    }

    /** The compare-exchange of an allocation: pops the first free block, or looks again. */
    method FinishAllocate(t: nat, spurious: bool) returns (block: int)
      requires Valid() && t in pcs && pcs[t].AllocRead?
      modifies this
      ensures Valid() && pcs.Keys == old(pcs).Keys
      ensures block >= 0 ==>
                old(free) == [block] + free && |owners| == |old(owners)| && old(owners)[block] == InPool &&
                owners == old(owners)[block := Held]
      ensures block < 0 ==> free == old(free) && owners == old(owners) && head == old(head)
      ensures block >= 0 <==> !spurious && old(pcs)[t].seen == old(head)
      ensures Did(Action.FinishAllocate(t, spurious), old(State()), State())
    {
      if !spurious && pcs[t].seen == head {
        block := head.index;
        PopKeeps(next[..], head, pcs, free, owners, t);
        owners := owners[head.index := Held];
        free := free[1..];
        head := Head(pcs[t].link, head.tag + 1);
        pcs := pcs[t := Idle];
      } else {
        block := -1;
        LookKeeps(next[..], head, pcs, free, owners, t, AllocLoaded(head));
        pcs := pcs[t := AllocLoaded(head)];
      }
    }

    /** A client hands back a block it holds. */
    method StartFree(t: nat, block: nat)
      requires Valid() && t in pcs && pcs[t].Idle? && block < |owners| && owners[block] == Held
      modifies this`pcs, this`owners
      ensures Valid() && pcs == old(pcs)[t := FreeLoaded(block, head)] && owners == old(owners)[block := Freeing(t)]
      ensures Did(Action.StartFree(t, block), old(State()), State())
    {
      HandBack(next[..], head, pcs, free, owners, t, block);
      owners := owners[block := Freeing(t)];
      pcs := pcs[t := FreeLoaded(block, head)];
    }

    method WriteLink(t: nat)
      requires Valid() && t in pcs && pcs[t].FreeLoaded?
      modifies this`pcs, next
      ensures Valid() && pcs == old(pcs)[t := FreeWritten(old(pcs)[t].block, old(pcs)[t].seen)]
      ensures Did(Action.WriteLink(t), old(State()), State())
    {
      var b, seen := pcs[t].block, pcs[t].seen;
      WriteKeeps(next[..], head, pcs, free, owners, t);
      ghost var was := next[..];
      next[b] := seen.index;
      assert next[..] == was[b := seen.index];
      pcs := pcs[t := FreeWritten(b, seen)];
    }

    /** The compare-exchange of a deallocation: pushes the block, or loads the head again. */
    method FinishFree(t: nat, spurious: bool) returns (done: bool)
      requires Valid() && t in pcs && pcs[t].FreeWritten?
      modifies this
      ensures Valid() && pcs.Keys == old(pcs).Keys && (done <==> !spurious && old(pcs)[t].seen == old(head))
      ensures done ==>
                free == [old(pcs)[t].block] + old(free) && old(pcs)[t].block < |old(owners)| &&
                owners == old(owners)[old(pcs)[t].block := InPool]
      ensures !done ==> free == old(free) && owners == old(owners) && head == old(head)
      ensures Did(Action.FinishFree(t, spurious), old(State()), State())
    {
      var b := pcs[t].block;
      done := !spurious && pcs[t].seen == head;
      if done {
        PushKeeps(next[..], head, pcs, free, owners, t);
        owners := owners[b := InPool];
        free := [b] + free;
        head := Head(b, head.tag + 1);
        pcs := pcs[t := Idle];
      } else {
        LookKeeps(next[..], head, pcs, free, owners, t, FreeLoaded(b, head));
        pcs := pcs[t := FreeLoaded(b, head)];
      }
    }

    method Take(a: Action)
      requires Valid() && CanTake(pcs, owners, a)
      modifies this, next
      ensures Valid() && Did(a, old(State()), State())
    {
      match a
      case StartAllocate(t) => StartAllocate(t);
      case ReadLink(t) => var _ := ReadLink(t);
      case FinishAllocate(t, spurious) => var _ := FinishAllocate(t, spurious);
      case StartFree(t, b) => StartFree(t, b);
      case WriteLink(t) => WriteLink(t);
      case FinishFree(t, spurious) => var _ := FinishFree(t, spurious);
    }

    /** Any interleaving of any threads: steps that a thread cannot take are passed over. */
    method Run(schedule: seq<Action>) returns (ghost states: seq<PoolState>)
      requires Valid()
      modifies this, next
      ensures Valid() && Played(schedule, states) && states[0] == old(State()) && states[|schedule|] == State()
    {
      var i := 0;
      states := [State()];
      while i < |schedule|
        invariant i <= |schedule| && Valid()
        invariant Played(schedule[..i], states) && states[0] == old(State()) && states[i] == State()
      {
        if CanTake(pcs, owners, schedule[i]) {
          Take(schedule[i]);
        }
        PlayedOne(schedule, i, states, State());
        states := states + [State()];
        i := i + 1;
      }
      assert schedule[..i] == schedule;
    }
  }

  /** In every reachable state a block is on the chain from the head exactly once, or held by
      one client, or in the hands of exactly one freeing thread. */
  lemma OneHolder(next: seq<nat>, head: Head, pcs: map<nat, Pc>, free: seq<nat>, owners: seq<Owner>, b: nat)
    requires Inv(next, head, pcs, free, owners) && b < |next|
    ensures multiset(free)[b] == if owners[b] == InPool then 1 else 0
    ensures forall t :: t in pcs ==> (Frees(pcs[t], b) <==> owners[b] == Freeing(t))
  {
    CountOnce(free, b);
    forall t | t in pcs ensures Frees(pcs[t], b) <==> owners[b] == Freeing(t) {
    }
  }

  lemma {:induction false} CountOnce(s: seq<nat>, b: nat)
    requires forall i, j {:trigger s[i], s[j]} :: 0 <= i < j < |s| ==> s[i] != s[j]
    ensures multiset(s)[b] == if b in s then 1 else 0
  {
    if s != [] {
      var last := |s| - 1;
      var front := s[..last];
      CountOnce(front, b);
      assert s == front + [s[last]];
      if s[last] == b {
        assert b !in front;
      }
    }
  }
}
