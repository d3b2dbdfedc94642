/** The multi-region cluster: hybrid logical clocks over exchanged log entries, and the commit
    index as the median of five acknowledged indices. Clocks and indices do not wrap. */
module Cluster {
  import opened Folding
  import opened Sequences
  import opened Slots

  const REGIONS: nat := 5

  datatype Entry = Entry(term: nat, index: nat, origin: nat, time: nat, hlc: nat, orderId: nat, kind: nat, price: nat,
      qty: nat)

  function Max(a: nat, b: nat): nat {
    if a > b then a else b
  }

  // ----- The median -----

  /** How many regions have acknowledged index `x`. */
  function AckedBy(acks: seq<nat>, x: nat): (n: nat)
    ensures n <= |acks|
  {
    if acks == [] then 0 else AckedBy(acks[..|acks| - 1], x) + if acks[|acks| - 1] >= x then 1 else 0
  }

  /** The largest index acknowledged by at least three regions. */
  ghost predicate IsCommit(acks: seq<nat>, c: nat) {
    AckedBy(acks, c) >= 3 && forall x: nat :: x > c ==> AckedBy(acks, x) < 3
  }

  lemma {:induction false} AckedByRemove(acks: seq<nat>, x: nat, i: nat)
    requires i < |acks|
    ensures AckedBy(acks, x) == AckedBy(acks[..i] + acks[i + 1..], x) + if acks[i] >= x then 1 else 0
  {
    var last := |acks| - 1;
    if i < last {
      AckedByRemove(acks[..last], x, i);
      assert (acks[..i] + acks[i + 1..])[..last - 1] == acks[..last][..i] + acks[..last][i + 1..];
      assert (acks[..i] + acks[i + 1..])[last - 1] == acks[last];
    } else {
      assert acks[..i] + acks[i + 1..] == acks[..last];
    }
  }

  lemma DropSame(a: seq<nat>, b: seq<nat>, i: nat)
    requires multiset(a) == multiset(b) && a != [] && i < |b| && b[i] == a[|a| - 1]
    ensures multiset(a[..|a| - 1]) == multiset(b[..i] + b[i + 1..])
  {
    var last := |a| - 1;
    RemoveCounts(a, last);
    RemoveCounts(b, i);
    assert a[..last] + a[last + 1..] == a[..last];
    Cancels(multiset(a[..last]), multiset(b[..i] + b[i + 1..]), b[i]);
  }

  /** The count does not depend on the order. */
  lemma {:induction false} AckedByPermutes(a: seq<nat>, b: seq<nat>, x: nat)
    requires multiset(a) == multiset(b)
    ensures AckedBy(a, x) == AckedBy(b, x)
    decreases |a|
  {
    if a == [] {
      assert |multiset(b)| == 0;
    } else {
      var last := |a| - 1;
      assert a[last] in multiset(b);
      var i :| 0 <= i < |b| && b[i] == a[last];
      AckedByRemove(b, x, i);
      DropSame(a, b, i);
      AckedByPermutes(a[..last], b[..i] + b[i + 1..], x);
    }
  }

  lemma SortedCounts(s: seq<nat>, x: nat)
    requires |s| == 5 && s[0] <= s[1] <= s[2] <= s[3] <= s[4]
    ensures x <= s[2] ==> AckedBy(s, x) >= 3
    ensures x > s[2] ==> AckedBy(s, x) < 3
  {
    var s4, s3, s2, s1 := s[..4], s[..3], s[..2], s[..1];
    assert s4[..3] == s3 && s3[..2] == s2 && s2[..1] == s1 && s1[..0] == [];
    assert AckedBy(s, x) == AckedBy(s4, x) + if s[4] >= x then 1 else 0;
    assert AckedBy(s4, x) == AckedBy(s3, x) + if s[3] >= x then 1 else 0;
    assert AckedBy(s3, x) == AckedBy(s2, x) + if s[2] >= x then 1 else 0;
  }

  /** The middle of the sorted acknowledgements is the majority commit index, and nothing else is. */
  lemma MedianCommits(acks: seq<nat>, s: seq<nat>, c: nat)
    requires |acks| == 5 && multiset(acks) == multiset(s) && |s| == 5 && s[0] <= s[1] <= s[2] <= s[3] <= s[4]
    ensures IsCommit(acks, c) <==> c == s[2]
  {
    forall x: nat ensures AckedBy(acks, x) == AckedBy(s, x) {
      AckedByPermutes(acks, s, x);
    }
    SortedCounts(s, c);
    SortedCounts(s, s[2]);
    forall x: nat | x > s[2] ensures AckedBy(acks, x) < 3 {
      SortedCounts(s, x);
    }
    if c < s[2] {
      assert AckedBy(acks, s[2]) >= 3;
    }
  }

  predicate Ordered(s: seq<nat>) {
    forall i, j :: 0 <= i < j < |s| ==> s[i] <= s[j]
  }

  lemma InsertAck(s: seq<nat>, x: nat, at: nat)
    requires Ordered(s) && at <= |s| && (forall i :: 0 <= i < at ==> s[i] <= x) && (at < |s| ==> s[at] > x)
    ensures Ordered(s[..at] + [x] + s[at..])
  {
    var next := s[..at] + [x] + s[at..];
    forall i, j | 0 <= i < j < |next| ensures next[i] <= next[j] {
      assert next[i] == if i < at then s[i] else if i == at then x else s[i - 1];
      assert next[j] == if j < at then s[j] else if j == at then x else s[j - 1];
    }
  }

  /** Puts one more value in its place. */
  method Insert(s: seq<nat>, x: nat) returns (next: seq<nat>)
    requires Ordered(s)
    ensures Ordered(next) && |next| == |s| + 1 && multiset(next) == multiset(s) + multiset{x}
  {
    var at := 0;
    while at < |s| && s[at] <= x
      invariant at <= |s| && forall i :: 0 <= i < at ==> s[i] <= x
    {
      at := at + 1;
    }
    InsertAck(s, x, at);
    InsertCounts(s, x, at);
    next := s[..at] + [x] + s[at..];
  }

  method SortAcks(acks: seq<nat>) returns (s: seq<nat>)
    ensures multiset(s) == multiset(acks) && |s| == |acks| && Ordered(s)
  {
    s := [];
    var n := 0;
    while n < |acks|
      invariant n <= |acks| && multiset(s) == multiset(acks[..n]) && |s| == n && Ordered(s)
    {
      s := Insert(s, acks[n]);
      assert acks[..n + 1] == acks[..n] + [acks[n]];
      n := n + 1;
    }
    assert acks[..n] == acks;
  }

  // ----- One node -----

  /** The ring keeps the latest entries: the slot of each recent index holds the entry of that index. */
  ghost predicate RingOk(log: seq<Entry>, history: seq<Entry>) {
    0 < |log| && forall i {:trigger log[Slot(|log|, i)]} ::
      0 < i <= |history| < i + |log| ==> log[Slot(|log|, i)] == history[i - 1]
  }

  lemma RingAppend(log: seq<Entry>, history: seq<Entry>, e: Entry)
    requires RingOk(log, history)
    ensures RingOk(log[Slot(|log|, |history| + 1) := e], history + [e])
  {
    var at := |history| + 1;
    var log' := log[Slot(|log|, at) := e];
    forall i | 0 < i <= at < i + |log'| ensures log'[Slot(|log'|, i)] == (history + [e])[i - 1] {
      if i < at {
        SlotsDiffer(|log|, i, at);
        assert log[Slot(|log|, i)] == history[i - 1];
      }
    }
  }

  /** What a node holds: its term and clock, how far its log reaches, what each region acknowledged,
      the entries of its log, and the entries in its causal past. */
  datatype NodeState = NodeState(leader: nat, term: nat, hlc: nat, commit: nat, logCount: nat, acks: seq<nat>,
      globalCommit: nat, history: seq<Entry>, known: set<Entry>)

  class Node {
    const region: nat
    const log: array<Entry>
    var leader: nat
    var term: nat
    var hlc: nat
    var commit: nat
    var logCount: nat
    var acks: seq<nat>
    var globalCommit: nat
    /** Every entry of the log, the first one first. */
    ghost var history: seq<Entry>
    /** The entries in this node's causal past: appended here, processed here, or in the past of
        one that was. */
    ghost var known: set<Entry>

    ghost predicate Valid()
      reads this, log
    {
      region < REGIONS && |acks| == REGIONS && commit == |history| && RingOk(log[..], history) &&
      (forall i {:trigger history[i]} :: 0 <= i < |history| ==> history[i].index == i + 1) &&
      IsCommit(acks, globalCommit) && forall d {:trigger d in known} :: d in known ==> d.hlc <= hlc
    }

    ghost function State(): NodeState
      reads this
    {
      NodeState(leader, term, hlc, commit, logCount, acks, globalCommit, history, known)
    }

    constructor (region: nat, capacity: nat)
      requires region < REGIONS && capacity > 0
      ensures Valid() && fresh(log) && this.region == region && log.Length == capacity
      ensures State() == NodeState(0, 1, 0, 0, 0, [0, 0, 0, 0, 0], 0, [], {})
    {
      this.region := region;
      log := new Entry[capacity](_ => Entry(1, 0, 0, 0, 0, 0, 0, 0, 0));
      leader, term, hlc, commit, logCount, globalCommit := 0, 1, 0, 0, 0, 0;
      acks := [0, 0, 0, 0, 0];
      history, known := [], {};
      new;
      MedianCommits(acks, acks, 0);
    }

    /** Recomputes the commit index from the acknowledgements. */
    method UpdateGlobalCommit()
      requires |acks| == REGIONS
      modifies this`globalCommit
      ensures IsCommit(acks, globalCommit)
    {
      var sorted := SortAcks(acks);
      MedianCommits(acks, sorted, sorted[2]);
      globalCommit := sorted[2];
    }

    method PeerHeartbeat(from: nat, acked: nat)
      requires Valid()
      modifies this`acks, this`globalCommit
      ensures Valid() && acks == if from < REGIONS then old(acks)[from := acked] else old(acks)
      ensures from >= REGIONS ==> globalCommit == old(globalCommit)
    {
      if from >= REGIONS {
        return;
      }
      acks := acks[from := acked];
      UpdateGlobalCommit();
    }

    method Put(e: Entry)
      requires RingOk(log[..], history) && commit == |history|
      modifies log, this`history, this`commit, this`logCount
      ensures RingOk(log[..], history) && history == old(history) + [e] && commit == |history| &&
              logCount == old(logCount) + 1
    {
      RingAppend(log[..], history, e);
      ghost var was := log[..];
      var next := commit + 1;
      log[Slot(log.Length, next)] := e;
      assert log[..] == was[Slot(log.Length, next) := e];
      history := history + [e];
      commit := next;
      logCount := logCount + 1;
    }

    /** Appends an event: its clock is above that of everything the node knows. */
    method AppendOrderEvent(orderId: nat, kind: nat, price: nat, qty: nat, now: nat) returns (ok: bool, e: Entry)
      requires Valid()
      modifies this, log
      ensures Valid() && (ok <==> old(logCount) < log.Length)
      ensures ok ==>
                e == Entry(old(term), old(commit) + 1, region, now, hlc, orderId, kind, price, qty) &&
                hlc == (if old(hlc) + 1 > now then old(hlc) + 1 else now)
      ensures ok ==> forall d :: d in old(known) ==> d.hlc < e.hlc
      ensures ok ==>
                State() == NodeState(old(leader), old(term), hlc, e.index, old(logCount) + 1,
                old(acks)[region := e.index], globalCommit, old(history) + [e], old(known) + {e})
      ensures !ok ==> State() == old(State())
    {
      e := Entry(term, commit + 1, region, now, Max(hlc + 1, now), orderId, kind, price, qty);
      if logCount >= log.Length {
        return false, e;
      }
      hlc := Max(hlc + 1, now);
      Put(e);
      acks := acks[region := e.index];
      known := known + {e};
      UpdateGlobalCommit();
      return true, e;
    }

    /** Processes an entry from elsewhere, whose own causal past is `past`. A stale term is
        ignored; otherwise the clock passes the entry's, whether or not it extends the log. */
    method ReplicateFromRemote(e: Entry, now: nat, ghost past: set<Entry>) returns (ok: bool)
      requires Valid() && e.origin < REGIONS && forall d :: d in past ==> d.hlc < e.hlc
      modifies this, log
      ensures Valid() && (ok <==> e.term >= old(term) && e.index == old(commit) + 1)
      ensures e.term < old(term) ==> State() == old(State())
      ensures e.term >= old(term) ==>
                term == e.term && leader == (if e.term > old(term) then e.origin else old(leader)) &&
                known == old(known) + {e} + past
      ensures e.term >= old(term) ==>
                hlc > e.hlc && hlc > old(hlc) && hlc > now && hlc - 1 in {e.hlc, old(hlc), now}
      ensures history == old(history) + (if ok then [e] else [])
      ensures logCount == old(logCount) + (if ok then 1 else 0)
      ensures acks == if ok then old(acks)[region := e.index][e.origin := e.index] else old(acks)
      ensures !ok ==> globalCommit == old(globalCommit)
    {
      if e.term < term {
        return false;
      }
      if e.term > term {
        term, leader := e.term, e.origin;
      }
      hlc := Max(Max(hlc, now), e.hlc) + 1;
      known := known + {e} + past;
      ok := e.index == commit + 1;
      if ok {
        Put(e);
        acks := acks[region := e.index][e.origin := e.index];
        UpdateGlobalCommit();
      }
    }
  }

  // ----- Many nodes -----

  datatype Action =
    | Append(node: nat, orderId: nat, kind: nat, price: nat, qty: nat, now: nat)
    | Deliver(node: nat, e: Entry, now: nat)
    | Heartbeat(node: nat, from: nat, acked: nat)

  /** Every entry in the causal past of an appended entry has a strictly smaller clock. */
  ghost predicate Causal(sent: map<Entry, set<Entry>>) {
    forall e, d {:trigger d in sent[e]} :: e in sent && d in sent[e] ==> d in sent && d.hlc < e.hlc
  }

  /** What a node knows was sent. */
  ghost predicate KnowsSent(nodes: seq<Node>, sent: map<Entry, set<Entry>>)
    reads nodes
  {
    forall n {:trigger nodes[n]} :: 0 <= n < |nodes| ==> nodes[n].known <= sent.Keys
  }

  /** An append: refused by a full log, else the next entry, with the clock one further or at the wall
      clock if that is ahead, acknowledged by its own region. */
  ghost predicate Appended(region: nat, room: nat, a: Action, was: NodeState, sent: map<Entry, set<Entry>>,
      post: NodeState, sent': map<Entry, set<Entry>>)
    requires a.Append?
  {
    if was.logCount >= room then post == was && sent' == sent
    else
      var e := Entry(was.term, was.commit + 1, region, a.now, post.hlc, a.orderId, a.kind, a.price, a.qty);
      post.hlc == (if was.hlc < a.now then a.now else was.hlc + 1) && post.history == was.history + [e] &&
      post.commit == was.commit + 1 && post.logCount == was.logCount + 1 && region < |was.acks| &&
      post.acks == was.acks[region := was.commit + 1] && post.term == was.term && post.leader == was.leader &&
      post.known == was.known + {e} && sent' == sent[e := (if e in sent then sent[e] else {}) + was.known]
  }

  /** The entry of an append and the state after it. */
  ghost predicate Grew(region: nat, orderId: nat, kind: nat, price: nat, qty: nat, now: nat, was: NodeState,
      post: NodeState, e: Entry)
  {
    forall n :: Unfold(n) ==>
      e == Entry(was.term, was.commit + 1, region, now, post.hlc, orderId, kind, price, qty) &&
      post.hlc == (if was.hlc + 1 > now then was.hlc + 1 else now) && region < |was.acks| &&
      post == NodeState(was.leader, was.term, post.hlc, e.index, was.logCount + 1, was.acks[region := e.index],
        post.globalCommit, was.history + [e], was.known + {e})
  }

  lemma AppendedAs(region: nat, room: nat, a: Action, was: NodeState, sent: map<Entry, set<Entry>>, post: NodeState,
      e: Entry)
    requires a.Append? && was.logCount < room && Grew(region, a.orderId, a.kind, a.price, a.qty, a.now, was, post, e)
    ensures Appended(region, room, a, was, sent, post, sent[e := (if e in sent then sent[e] else {}) + was.known])
  {
    assert Unfold(0);
  }

  /** A delivery: an older term changes nothing; else the clock moves past everything seen, a newer term
      brings its leader, and the entry extends the log if it is the next one. */
  ghost predicate Processed(region: nat, e: Entry, now: nat, past: set<Entry>, was: NodeState, post: NodeState) {
    if e.term < was.term then post == was
    else
      post.term == e.term && post.leader == (if e.term == was.term then was.leader else e.origin) &&
      post.hlc > e.hlc && post.hlc > was.hlc && post.hlc > now && post.hlc - 1 in {e.hlc, was.hlc, now} &&
      post.known == was.known + {e} + past &&
      if e.index == was.commit + 1 then
        post.history == was.history + [e] && post.commit == e.index && post.logCount == was.logCount + 1 &&
        region < |was.acks| && e.origin < |was.acks| &&
        post.acks == was.acks[region := e.index][e.origin := e.index]
      else
        post.history == was.history && post.commit == was.commit && post.logCount == was.logCount &&
        post.acks == was.acks && post.globalCommit == was.globalCommit
  }

  /** A heartbeat: the acknowledgement of a region, and nothing else, is replaced. */
  ghost predicate Acknowledged(from: nat, acked: nat, was: NodeState, post: NodeState) {
    if from >= REGIONS || |was.acks| != REGIONS then post == was
    else post == was.(acks := was.acks[from := acked], globalCommit := post.globalCommit)
  }

  /** One action: what it does at its node, and that it does nothing elsewhere. It does nothing at all if it
      names no node, or delivers an entry that was never sent. */
  ghost predicate Did(nodes: seq<Node>, a: Action, was: seq<NodeState>, sent: map<Entry, set<Entry>>,
      post: seq<NodeState>, sent': map<Entry, set<Entry>>)
  {
    |nodes| == |was| == |post| &&
    (forall m {:trigger post[m]} :: 0 <= m < |nodes| && m != a.node ==> post[m] == was[m]) &&
    if a.node >= |nodes| then sent' == sent
    else
      match a
      case Append(n, _, _, _, _, _) => Appended(nodes[n].region, nodes[n].log.Length, a, was[n], sent, post[n], sent')
      case Deliver(n, e, now) =>
        sent' == sent &&
        if e.origin < REGIONS && e in sent then Processed(nodes[n].region, e, now, sent[e], was[n], post[n])
        else post[n] == was[n]
      case Heartbeat(n, from, acked) => sent' == sent && Acknowledged(from, acked, was[n], post[n])
  }

  /** A whole run: every action of the schedule was done, one after the other. */
  ghost predicate Played(nodes: seq<Node>, schedule: seq<Action>, states: seq<seq<NodeState>>,
      pasts: seq<map<Entry, set<Entry>>>)
  {
    |states| == |pasts| == |schedule| + 1 && forall i {:trigger schedule[i]} :: 0 <= i < |schedule| ==>
      Did(nodes, schedule[i], states[i], pasts[i], states[i + 1], pasts[i + 1])
  }

  lemma PlayedOne(nodes: seq<Node>, schedule: seq<Action>, i: nat, states: seq<seq<NodeState>>,
      pasts: seq<map<Entry, set<Entry>>>, state: seq<NodeState>, sent: map<Entry, set<Entry>>)
    requires i < |schedule| && Played(nodes, schedule[..i], states, pasts)
    requires Did(nodes, schedule[i], states[i], pasts[i], state, sent)
    ensures Played(nodes, schedule[..i + 1], states + [state], pasts + [sent])
  {
    var after, behind := states + [state], pasts + [sent];
    forall j {:trigger schedule[..i + 1][j]} | 0 <= j < i + 1
      ensures Did(nodes, schedule[..i + 1][j], after[j], behind[j], after[j + 1], behind[j + 1])
    {
      if j < i {
        assert schedule[..i][j] == schedule[j];
      }
    }
  }

  class World {
    const nodes: seq<Node>
    /** Every entry appended anywhere. */
    var wire: set<Entry>
    /** The causal past of each. */
    ghost var sent: map<Entry, set<Entry>>

    ghost predicate Valid()
      reads this, nodes, set n | 0 <= n < |nodes| :: nodes[n].log
    {
      NodesValid() && KnowsSent(nodes, sent) && Causal(sent) && wire == sent.Keys
    }

    ghost predicate NodesValid()
      reads nodes, set n | 0 <= n < |nodes| :: nodes[n].log
    {
      (forall n {:trigger nodes[n]} :: 0 <= n < |nodes| ==> nodes[n].Valid()) &&
      (forall m, n {:trigger nodes[m], nodes[n]} ::
        0 <= m < n < |nodes| ==> nodes[m] != nodes[n] && nodes[m].log != nodes[n].log)
    }

    ghost function States(): (s: seq<NodeState>)
      reads nodes
      ensures |s| == |nodes| && forall n {:trigger s[n]} :: 0 <= n < |nodes| ==> s[n] == nodes[n].State()
    {
      seq(|nodes|, n requires 0 <= n < |nodes| reads nodes => nodes[n].State())
    }

    constructor (nodes: seq<Node>)
      requires forall n {:trigger nodes[n]} :: 0 <= n < |nodes| ==> nodes[n].Valid() && nodes[n].known == {}
      requires forall m, n {:trigger nodes[m], nodes[n]} ::
                 0 <= m < n < |nodes| ==> nodes[m] != nodes[n] && nodes[m].log != nodes[n].log
      ensures Valid() && this.nodes == nodes && sent == map[]
    {
      this.nodes, sent, wire := nodes, map[], {};
    }

    /** The new entry's causal past is everything the node knew, all of it with smaller clocks. */
    method AppendAt(n: nat, orderId: nat, kind: nat, price: nat, qty: nat, now: nat) returns (ok: bool, e: Entry)
      requires Valid() && n < |nodes|
      modifies this, nodes, set n | 0 <= n < |nodes| :: nodes[n].log
      ensures Valid() && SentKept(old(sent), sent) &&
              forall m {:trigger nodes[m]} :: 0 <= m < |nodes| ==> old(nodes[m].known) <= nodes[m].known
      ensures ok ==>
                e in sent && old(nodes[n].known) <= sent[e] && forall d :: d in old(nodes[n].known) ==> d.hlc < e.hlc
      ensures ok ==> e in nodes[n].known
      ensures Did(nodes, Append(n, orderId, kind, price, qty, now), old(States()), old(sent), States(), sent)
    {
      ghost var was := States();
      ok, e := AppendNode(n, orderId, kind, price, qty, now, was);
      if ok {
        AppendedAs(nodes[n].region, nodes[n].log.Length, Append(n, orderId, kind, price, qty, now), was[n], sent,
          nodes[n].State(), e);
        Publish(e, n, was[n].known);
      }
    }

    /** Puts a new entry on the wire. */
    method Publish(e: Entry, ghost n: nat, ghost past: set<Entry>)
      requires NodesValid() && Causal(sent) && wire == sent.Keys && n < |nodes| && nodes[n].known == past + {e}
      requires past <= sent.Keys && (forall d :: d in past ==> d.hlc < e.hlc) &&
               forall m {:trigger nodes[m]} :: 0 <= m < |nodes| && m != n ==> nodes[m].known <= sent.Keys
      modifies this`sent, this`wire
      ensures Valid() && sent == old(sent)[e := (if e in old(sent) then old(sent)[e] else {}) + past]
    {
      SentGrows(sent, e, past);
      sent, wire := sent[e := (if e in sent then sent[e] else {}) + past], wire + {e};
    }

    /** The step of the node alone; the entry is not on the wire yet. */
    method AppendNode(n: nat, orderId: nat, kind: nat, price: nat, qty: nat, now: nat, ghost was: seq<NodeState>)
        returns (ok: bool, e: Entry)
      requires Valid() && n < |nodes| && was == States()
      modifies nodes, set n | 0 <= n < |nodes| :: nodes[n].log
      ensures NodesValid()
      ensures forall m {:trigger nodes[m]} :: 0 <= m < |nodes| && m != n ==> nodes[m].State() == was[m]
      ensures forall d :: d in was[n].known ==> d.hlc < e.hlc || !ok
      ensures nodes[n].known == was[n].known + (if ok then {e} else {})
      ensures if ok then
                was[n].logCount < nodes[n].log.Length &&
                Grew(nodes[n].region, orderId, kind, price, qty, now, was[n], nodes[n].State(), e)
              else was[n].logCount >= nodes[n].log.Length && nodes[n].State() == was[n]
    {
      ok, e := nodes[n].AppendOrderEvent(orderId, kind, price, qty, now);
    }

    /** Delivers any entry ever sent, at any time, any number of times. */
    method DeliverTo(n: nat, e: Entry, now: nat)
      requires Valid() && n < |nodes| && e in sent && e.origin < REGIONS
      modifies nodes, set n | 0 <= n < |nodes| :: nodes[n].log
      ensures Valid() && forall m {:trigger nodes[m]} :: 0 <= m < |nodes| ==> old(nodes[m].known) <= nodes[m].known
      ensures e.term >= old(nodes[n].term) ==> e in nodes[n].known && sent[e] <= nodes[n].known
      ensures Did(nodes, Deliver(n, e, now), old(States()), sent, States(), sent)
    {
      DeliverKnows(sent, e);
      var _ := nodes[n].ReplicateFromRemote(e, now, sent[e]);
    }

    method HeartbeatAt(n: nat, from: nat, acked: nat)
      requires Valid() && n < |nodes|
      modifies nodes
      ensures Valid() && forall m {:trigger nodes[m]} :: 0 <= m < |nodes| ==> old(nodes[m].known) == nodes[m].known
      ensures Did(nodes, Heartbeat(n, from, acked), old(States()), sent, States(), sent)
    {
      nodes[n].PeerHeartbeat(from, acked);
    }

    /** Any exchange of entries and heartbeats keeps every clock above its causal past and every
        commit index at the majority of the acknowledgements; nothing known is forgotten. */
    method Run(schedule: seq<Action>)
        returns (ghost states: seq<seq<NodeState>>, ghost pasts: seq<map<Entry, set<Entry>>>)
      requires Valid()
      modifies this, nodes, set n | 0 <= n < |nodes| :: nodes[n].log
      ensures Valid() && SentKept(old(sent), sent) &&
              forall m {:trigger nodes[m]} :: 0 <= m < |nodes| ==> old(nodes[m].known) <= nodes[m].known
      ensures forall e, d :: e in sent && d in sent[e] ==> d.hlc < e.hlc
      ensures forall m {:trigger nodes[m]} :: 0 <= m < |nodes| ==> IsCommit(nodes[m].acks, nodes[m].globalCommit)
      ensures Played(nodes, schedule, states, pasts) && states[0] == old(States()) && pasts[0] == old(sent) &&
              states[|schedule|] == States() && pasts[|schedule|] == sent
    {
      var i := 0;
      states, pasts := [States()], [sent];
      while i < |schedule|
        invariant i <= |schedule| && Valid() && SentKept(old(sent), sent)
        invariant forall m {:trigger nodes[m]} :: 0 <= m < |nodes| ==> old(nodes[m].known) <= nodes[m].known
        invariant Played(nodes, schedule[..i], states, pasts) && states[0] == old(States()) && pasts[0] == old(sent)
        invariant states[i] == States() && pasts[i] == sent
      {
        Act(schedule[i]);
        PlayedOne(nodes, schedule, i, states, pasts, States(), sent);
        states, pasts := states + [States()], pasts + [sent];
        i := i + 1;
      }
      assert schedule[..i] == schedule;
    }

    /** One action; it does nothing if it names no node or an entry that was never sent. */
    method Act(a: Action)
      requires Valid()
      modifies this, nodes, set n | 0 <= n < |nodes| :: nodes[n].log
      ensures Valid() && SentKept(old(sent), sent) &&
              forall m {:trigger nodes[m]} :: 0 <= m < |nodes| ==> old(nodes[m].known) <= nodes[m].known
      ensures Did(nodes, a, old(States()), old(sent), States(), sent)
    {
      match a
      case Append(n, orderId, kind, price, qty, now) =>
        if n < |nodes| {
          var _, _ := AppendAt(n, orderId, kind, price, qty, now);
        }
      case Deliver(n, e, now) =>
        if n < |nodes| && e.origin < REGIONS && e in wire {
          DeliverTo(n, e, now);
        }
      case Heartbeat(n, from, acked) =>
        if n < |nodes| {
          HeartbeatAt(n, from, acked);
        }
    }

    /** Happened-before, end to end: once a node has processed an entry, whatever it appends
        later, after any exchange, has a larger clock than that entry and its whole past. */
    method ProcessThenAppend(n: nat, e: Entry, now: nat, schedule: seq<Action>, orderId: nat, kind: nat, price: nat,
        qty: nat, later: nat)
      returns (ok: bool, d: Entry)
      requires Valid() && n < |nodes| && e in sent && e.origin < REGIONS && e.term >= nodes[n].term
      modifies this, nodes, set n | 0 <= n < |nodes| :: nodes[n].log
      ensures Valid() && SentKept(old(sent), sent)
      ensures ok ==> d in sent && e in sent[d] && old(sent)[e] <= sent[d]
      ensures ok ==> e.hlc < d.hlc && forall x :: x in old(sent)[e] ==> x.hlc < d.hlc
    {
      DeliverTo(n, e, now);
      var _, _ := Run(schedule);
      ok, d := AppendAt(n, orderId, kind, price, qty, later);
    }
  }

  /** Entries stay sent, and their causal pasts only grow. */
  ghost predicate SentKept(was: map<Entry, set<Entry>>, sent: map<Entry, set<Entry>>) {
    forall e {:trigger e in sent} {:trigger e in was} :: e in was ==> e in sent && was[e] <= sent[e]
  }

  lemma DeliverKnows(sent: map<Entry, set<Entry>>, e: Entry)
    requires Causal(sent) && e in sent
    ensures sent[e] <= sent.Keys && forall d :: d in sent[e] ==> d.hlc < e.hlc
  {
  }

  lemma SentGrows(sent: map<Entry, set<Entry>>, e: Entry, past: set<Entry>)
    requires Causal(sent) && past <= sent.Keys && forall d :: d in past ==> d.hlc < e.hlc
    ensures Causal(sent[e := (if e in sent then sent[e] else {}) + past])
  {
  }
}
