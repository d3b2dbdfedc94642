/** Single-producer, single-consumer rings. Loading a cursor, checking the other one, copying
    a slot and publishing are separate steps that interleave freely; a slot under copy is torn
    until the copy ends. Cursors do not wrap. */
module SpscRing {
  import opened Slots

  datatype Cell<T> = Torn | Whole(value: T)

  datatype Producer<T> = PIdle | PLoaded(head: nat, item: T) | Claimed(head: nat, item: T) | Writing(head: nat,
      item: T) | Written(head: nat, item: T)

  datatype Consumer<T> = CIdle | CLoaded(tail: nat) | Peeked(tail: nat) | Copying(tail: nat) | Copied(tail: nat,
      item: T)

  /** The slots between the cursors hold the published items that are not consumed yet. */
  ghost predicate InFlight<T>(slots: seq<Cell<T>>, tail: nat, head: nat, published: seq<T>) {
    0 < |slots| && tail <= head <= tail + |slots| && |published| == head &&
    forall i {:trigger published[i]} :: tail <= i < head ==> slots[Slot(|slots|, i)] == Whole(published[i])
  }

  /** The producer works on a slot outside that range, which only its own publish can enter. */
  ghost predicate ProducerOk<T>(p: Producer<T>, slots: seq<Cell<T>>, tail: nat, head: nat) {
    match p
    case PIdle => true
    case PLoaded(h, _) => h == head
    case Claimed(h, _) => h == head < tail + |slots|
    case Writing(h, _) => h == head < tail + |slots|
    case Written(h, x) => h == head < tail + |slots| && 0 < |slots| && slots[Slot(|slots|, h)] == Whole(x)
  }

  /** The consumer works on the oldest slot in flight. */
  ghost predicate ConsumerOk<T>(q: Consumer<T>, tail: nat, head: nat, published: seq<T>) {
    match q
    case CIdle => true
    case CLoaded(t) => t == tail
    case Peeked(t) => t == tail < head
    case Copying(t) => t == tail < head
    case Copied(t, x) => t == tail < head && t < |published| && x == published[t]
  }

  /** Changing the slot behind the head leaves everything in flight alone. */
  lemma WriteAside<T>(slots: seq<Cell<T>>, tail: nat, head: nat, published: seq<T>, cell: Cell<T>)
    requires InFlight(slots, tail, head, published) && head < tail + |slots|
    ensures InFlight(slots[Slot(|slots|, head) := cell], tail, head, published)
  {
    forall i | tail <= i < head ensures Slot(|slots|, i) != Slot(|slots|, head) {
      SlotsDiffer(|slots|, i, head);
    }
  }

  lemma PublishKeeps<T>(slots: seq<Cell<T>>, tail: nat, head: nat, published: seq<T>, item: T)
    requires InFlight(slots, tail, head, published) && head < tail + |slots| &&
             slots[Slot(|slots|, head)] == Whole(item)
    ensures InFlight(slots, tail, head + 1, published + [item])
  {
    var now := published + [item];
    forall i | tail <= i < head + 1 ensures slots[Slot(|slots|, i)] == Whole(now[i]) {
      if i < head {
        assert now[i] == published[i];
      }
    }
  }

  datatype Action<T> = Produce(item: T) | ProducerStep | Consume | ConsumerStep

  /** The ring as a value. */
  datatype RingState<T> = RingState(slots: seq<Cell<T>>, head: nat, tail: nat, producer: Producer<T>,
      consumer: Consumer<T>, published: seq<T>, consumed: seq<T>)

  /** What one action does: the side that acts goes one step further, the other side sees nothing of it
      until a cursor moves. A full ring refuses the producer and an empty one the consumer; the slot at the
      head is torn while the producer writes it; publishing adds the item to the queue, and what the
      consumer takes out is the oldest item in it. An action of a side that is not in the place for it does
      nothing. */
  ghost predicate Did<T>(a: Action<T>, s: RingState<T>, s': RingState<T>)
    requires 0 < |s.slots|
  {
    var at := Slot(|s.slots|, s.head);
    match a
    case Produce(item) => s' == if s.producer.PIdle? then s.(producer := PLoaded(s.head, item)) else s
    case Consume => s' == if s.consumer.CIdle? then s.(consumer := CLoaded(s.tail)) else s
    case ProducerStep => (
      match s.producer
      case PIdle => s' == s
      case PLoaded(_, x) => s' == s.(producer := if s.head - s.tail == |s.slots| then PIdle else Claimed(s.head, x))
      case Claimed(_, x) => s' == s.(slots := s.slots[at := Torn], producer := Writing(s.head, x))
      case Writing(_, x) => s' == s.(slots := s.slots[at := Whole(x)], producer := Written(s.head, x))
      case Written(_, x) => s' == s.(head := s.head + 1, published := s.published + [x], producer := PIdle))
    case ConsumerStep => (
      match s.consumer
      case CIdle => s' == s
      case CLoaded(_) => s' == s.(consumer := if s.head == s.tail then CIdle else Peeked(s.tail))
      case Peeked(_) => s' == s.(consumer := Copying(s.tail))
      case Copying(_) => |s.consumed| < |s.published| &&
        s' == s.(consumer := Copied(s.tail, s.published[|s.consumed|]))
      case Copied(_, x) => s' == s.(tail := s.tail + 1, consumed := s.consumed + [x], consumer := CIdle))
  }

  /** The `i`-th action of the schedule leads from one state to the next. */
  ghost predicate Step<T>(schedule: seq<Action<T>>, states: seq<RingState<T>>, i: nat)
    requires i < |schedule| < |states|
  {
    0 < |states[i].slots| && Did(schedule[i], states[i], states[i + 1])
  }

  /** A whole run: every action of the schedule was done, one after the other. */
  ghost predicate Played<T>(schedule: seq<Action<T>>, states: seq<RingState<T>>) {
    |states| == |schedule| + 1 && forall i :: 0 <= i < |schedule| ==> Step(schedule, states, i)
  }

  lemma PlayedOne<T>(schedule: seq<Action<T>>, i: nat, states: seq<RingState<T>>, state: RingState<T>)
    requires i < |schedule| && Played(schedule[..i], states) && 0 < |states[i].slots| &&
             Did(schedule[i], states[i], state)
    ensures Played(schedule[..i + 1], states + [state])
  {
    var done, after := schedule[..i + 1], states + [state];
    forall j | 0 <= j < |done| ensures Step(done, after, j) {
      assert j < i ==> Step(schedule[..i], states, j);
    }
  }

  class Ring<T(0)> {
    const slots: array<Cell<T>>
    var head: nat
    var tail: nat
    var producer: Producer<T>
    var consumer: Consumer<T>
    /** Items published and items taken out, in order. */
    ghost var published: seq<T>
    ghost var consumed: seq<T>

    ghost predicate Valid()
      reads this, slots
    {
      InFlight(slots[..], tail, head, published) && consumed == published[..tail] &&
      ProducerOk(producer, slots[..], tail, head) && ConsumerOk(consumer, tail, head, published)
    }

    ghost function State(): RingState<T>
      reads this, slots
    {
      RingState(slots[..], head, tail, producer, consumer, published, consumed)
    }

    constructor (capacity: nat)
      requires capacity > 0
      ensures Valid() && fresh(slots) && slots.Length == capacity && published == [] && consumed == []
      ensures producer == PIdle && consumer == CIdle
    {
      slots := new Cell<T>[capacity](_ => Torn);
      head, tail, producer, consumer := 0, 0, PIdle, CIdle;
      published, consumed := [], [];
    }

    /** The producer loads its own cursor. */
    method Produce(item: T)
      requires Valid() && producer.PIdle?
      modifies this`producer
      ensures Valid() && producer == PLoaded(head, item)
      ensures Did(Action.Produce(item), old(State()), State())
    {
      producer := PLoaded(head, item);
    }

    /** Compares with the consumer's cursor; refuses when the ring is full at that moment. */
    method Claim() returns (full: bool)
      requires Valid() && producer.PLoaded?
      modifies this`producer
      ensures Valid() && (full <==> head == tail + slots.Length)
      ensures producer == if full then PIdle else Claimed(head, old(producer).item)
      ensures Did(Action.ProducerStep, old(State()), State())
    {
      full := producer.head - tail >= slots.Length;
      producer := if full then PIdle else Claimed(producer.head, producer.item);
    }

    method BeginWrite()
      requires Valid() && producer.Claimed?
      modifies this`producer, slots
      ensures Valid() && producer == Writing(old(producer).head, old(producer).item)
      ensures Did(Action.ProducerStep, old(State()), State())
    {
      Put(producer.head, Torn);
      producer := Writing(producer.head, producer.item);
    }

    method Put(cursor: nat, cell: Cell<T>)
      requires InFlight(slots[..], tail, head, published) && cursor == head < tail + slots.Length
      modifies slots
      ensures slots[..] == old(slots[..])[Slot(slots.Length, cursor) := cell] &&
              InFlight(slots[..], tail, head, published)
    {
      WriteAside(slots[..], tail, head, published, cell);
      ghost var was := slots[..];
      slots[Slot(slots.Length, cursor)] := cell;
      assert slots[..] == was[Slot(slots.Length, cursor) := cell];
    }

    method EndWrite()
      requires Valid() && producer.Writing?
      modifies this`producer, slots
      ensures Valid() && producer == Written(old(producer).head, old(producer).item)
      ensures Did(Action.ProducerStep, old(State()), State())
    {
      Put(producer.head, Whole(producer.item));
      assert slots[..][Slot(slots.Length, head)] == Whole(producer.item);
      producer := Written(producer.head, producer.item);
    }

    /** The item in the claimed slot enters the queue. */
    method Publish()
      requires Valid() && producer.Written?
      modifies this`producer, this`head, this`published
      ensures Valid() && head == old(head) + 1 && published == old(published) + [old(producer).item]
      ensures Did(Action.ProducerStep, old(State()), State())
    {
      PublishKeeps(slots[..], tail, head, published, producer.item);
      published := published + [producer.item];
      head := producer.head + 1;
      producer := PIdle;
    }

    method Consume()
      requires Valid() && consumer.CIdle?
      modifies this`consumer
      ensures Valid() && consumer == CLoaded(tail)
      ensures Did(Action.Consume, old(State()), State())
    {
      consumer := CLoaded(tail);
    }

    /** Compares with the producer's cursor; refuses when the ring is empty at that moment. */
    method Peek() returns (empty: bool)
      requires Valid() && consumer.CLoaded?
      modifies this`consumer
      ensures Valid() && (empty <==> head == tail) && consumer == if empty then CIdle else Peeked(tail)
      ensures Did(Action.ConsumerStep, old(State()), State())
    {
      empty := head == consumer.tail;
      consumer := if empty then CIdle else Peeked(consumer.tail);
    }

    /** Starts copying the slot out: it is whole, and not the one under the producer's hands. */
    method BeginCopy()
      requires Valid() && consumer.Peeked?
      modifies this`consumer
      ensures Valid() && consumer == Copying(old(consumer).tail) &&
              slots[Slot(slots.Length, tail)] == Whole(published[tail])
      ensures producer.Writing? ==> Slot(slots.Length, producer.head) != Slot(slots.Length, tail)
      ensures Did(Action.ConsumerStep, old(State()), State())
    {
      assert slots[..][Slot(slots.Length, tail)] == Whole(published[tail]);
      if producer.Writing? {
        SlotsDiffer(slots.Length, tail, head);
      }
      consumer := Copying(consumer.tail);
    }

    /** Ends the copy: whatever happened meanwhile, the copy is the oldest published item. */
    method EndCopy() returns (item: T)
      requires Valid() && consumer.Copying?
      modifies this`consumer
      ensures Valid() && item == published[tail] && consumer == Copied(old(consumer).tail, item)
      ensures Did(Action.ConsumerStep, old(State()), State())
    {
      assert slots[..][Slot(slots.Length, tail)] == Whole(published[tail]);
      item := slots[Slot(slots.Length, consumer.tail)].value;
      consumer := Copied(consumer.tail, item);
    }

    method Release()
      requires Valid() && consumer.Copied?
      modifies this`consumer, this`tail, this`consumed
      ensures Valid() && tail == old(tail) + 1 && consumed == old(consumed) + [old(consumer).item]
      ensures Did(Action.ConsumerStep, old(State()), State())
    {
      assert published[..tail + 1] == published[..tail] + [published[tail]];
      consumed := consumed + [consumer.item];
      tail := consumer.tail + 1;
      consumer := CIdle;
    }

    method ProducerStep()
      requires Valid() && !producer.PIdle?
      modifies this, slots
      ensures Valid() && old(published) <= published && consumed == old(consumed)
      ensures Did(Action.ProducerStep, old(State()), State())
    {
      match producer
      case PLoaded(_, _) => var _ := Claim();
      case Claimed(_, _) => BeginWrite();
      case Writing(_, _) => EndWrite();
      case Written(_, _) => Publish();
    }

    method ConsumerStep()
      requires Valid() && !consumer.CIdle?
      modifies this
      ensures Valid() && published == old(published) && old(consumed) <= consumed
      ensures Did(Action.ConsumerStep, old(State()), State())
    {
      match consumer
      case CLoaded(_) => var _ := Peek();
      case Peeked(_) => BeginCopy();
      case Copying(_) => var _ := EndCopy();
      case Copied(_, _) => Release();
    }

    method Take(a: Action<T>)
      requires Valid()
      modifies this, slots
      ensures Valid() && old(published) <= published && old(consumed) <= consumed
      ensures Did(a, old(State()), State())
    {
      match a
      case Produce(item) => if producer.PIdle? { Produce(item); }
      case ProducerStep => if !producer.PIdle? { ProducerStep(); }
      case Consume => if consumer.CIdle? { Consume(); }
      case ConsumerStep => if !consumer.CIdle? { ConsumerStep(); }
    }

    /** Every interleaving keeps the ring a bounded FIFO queue. */
    method Run(schedule: seq<Action<T>>) returns (ghost states: seq<RingState<T>>)
      requires Valid()
      modifies this, slots
      ensures Valid() && old(published) <= published && old(consumed) <= consumed
      ensures Played(schedule, states) && states[0] == old(State()) && states[|schedule|] == State()
    {
      var i := 0;
      states := [State()];
      while i < |schedule|
        invariant i <= |schedule| && Valid() && old(published) <= published && old(consumed) <= consumed
        invariant Played(schedule[..i], states) && states[0] == old(State()) && states[i] == State()
      {
        Take(schedule[i]);
        PlayedOne(schedule, i, states, State());
        states := states + [State()];
        i := i + 1;
      }
      assert schedule[..i] == schedule;
    }
  }

  /** The items in the ring, oldest first. */
  ghost function Contents<T>(slots: seq<Cell<T>>, tail: nat, head: nat, published: seq<T>): seq<T>
    requires InFlight(slots, tail, head, published)
  {
    seq(head - tail, i requires 0 <= i < head - tail =>
      assert slots[Slot(|slots|, tail + i)] == Whole(published[tail + i]);
      slots[Slot(|slots|, tail + i)].value)
  }

  /** Consumed items followed by the ring's contents are the published items. */
  lemma NothingLost<T>(slots: seq<Cell<T>>, tail: nat, head: nat, published: seq<T>, consumed: seq<T>)
    requires InFlight(slots, tail, head, published) && consumed == published[..tail]
    ensures published == consumed + Contents(slots, tail, head, published) &&
            |Contents(slots, tail, head, published)| <= |slots|
  {
    var inside := Contents(slots, tail, head, published);
    forall i | 0 <= i < |inside| ensures inside[i] == published[tail + i] {
      assert slots[Slot(|slots|, tail + i)] == Whole(published[tail + i]);
    }
  }
}
