/** The bridge between the HTTP thread and the execution owner: a request ring, a response
    ring with one spill slot, the table of outstanding identifiers and the client slots. Each
    ring operation is one step; the two threads interleave between steps. A connection number
    stands for a descriptor and is never reused. */
module Bridge {
  import opened Options
  import opened Folding

  const UINT64_MAX: nat := 0xFFFF_FFFF_FFFF_FFFF
  const UINT32_MAX: nat := 0xFFFF_FFFF

  datatype Command = Submit | Query | Cancel | Positions

  datatype Request = Request(command: Command, id: nat, orderId: nat)

  /** `body` stands for what the gateway answered. */
  datatype Response = Response(id: nat, body: nat)

  datatype Client = Client(open: bool, conn: nat, id: nat, command: Command, waiting: bool, sending: bool,
      ownsBody: bool)

  datatype Delivery = Delivery(id: nat, conn: nat, body: nat)

  const CLOSED := Client(false, 0, 0, Submit, false, false, false)

  /** Hands out identifiers 1, 2, ... up to the largest one, then 0 for ever. */
  method TakeId(next: nat, largest: nat) returns (id: nat, after: nat)
    requires next <= largest
    ensures id == next && after <= largest && (0 < id < largest ==> after == id + 1) &&
            (id == 0 || id == largest ==> after == 0)
    ensures id != 0 ==> Bound(next, largest) < Bound(after, largest) && id < Bound(after, largest)
  {
    id := next;
    after := if id == 0 || id == largest then 0 else id + 1;
  }

  /** Identifiers handed out so far lie below this. */
  function Bound(next: nat, largest: nat): nat {
    if next == 0 then largest + 1 else next
  }

  // ----- The pipeline -----

  function Ids(rs: seq<Response>): (ids: seq<nat>)
    ensures |ids| == |rs|
  {
    seq(|rs|, i requires 0 <= i < |rs| => rs[i].id)
  }

  function IdOf(r: Option<Response>): seq<nat> {
    if r.None? then [] else [r.value.id]
  }

  /** Identifiers of the queued requests that will be answered. */
  function Awaited(rs: seq<Request>): seq<nat> {
    if rs == [] then [] else Answers(rs[0]) + Awaited(rs[1..])
  }

  function Answers(r: Request): seq<nat> {
    if r.command == Submit then [] else [r.id]
  }

  lemma {:induction false} AwaitedAppend(rs: seq<Request>, r: Request)
    ensures Awaited(rs + [r]) == Awaited(rs) + Answers(r)
  {
    var all := rs + [r];
    if rs == [] {
      assert all == [r] && all[1..] == [];
      assert Awaited(all) == Answers(r) + [];
    } else {
      AwaitedAppend(rs[1..], r);
      assert all[0] == rs[0] && all[1..] == rs[1..] + [r];
      assert Answers(rs[0]) + (Awaited(rs[1..]) + Answers(r)) == (Answers(rs[0]) + Awaited(rs[1..])) + Answers(r);
    }
  }

  /** Where the accepted identifiers are, from the oldest on: drained, in the response ring,
      spilled, in the owner's hands, or still queued. */
  ghost predicate Flow(accepted: seq<nat>, drained: seq<nat>, responses: seq<Response>, spilled: Option<Response>,
      inHand: Option<Response>, requests: seq<Request>) {
    accepted == drained + Ids(responses) + IdOf(spilled) + IdOf(inHand) + Awaited(requests) &&
    (inHand.Some? ==> spilled.None?)
  }

  /** Accepted identifiers are nonzero and strictly increasing. */
  ghost predicate Ascending(accepted: seq<nat>, bound: nat) {
    forall n :: Unfold(n) ==> AscendingBody(accepted, bound)
  }

  ghost predicate AscendingBody(accepted: seq<nat>, bound: nat) {
    (forall i {:trigger accepted[i]} :: 0 <= i < |accepted| ==> 0 < accepted[i] < bound) &&
    (forall i, j {:trigger accepted[i], accepted[j]} :: 0 <= i < j < |accepted| ==> accepted[i] < accepted[j])
  }

  // ----- The HTTP side -----

  /** Outstanding identifiers are distinct and not drained yet. */
  ghost predicate TableOk(outstanding: seq<nat>, accepted: seq<nat>, drained: nat) {
    forall n :: Unfold(n) ==> TableOkBody(outstanding, accepted, drained)
  }

  ghost predicate TableOkBody(outstanding: seq<nat>, accepted: seq<nat>, drained: nat) {
    drained <= |accepted| &&
    (forall k {:trigger outstanding[k]} ::
      0 <= k < |outstanding| && outstanding[k] != 0 ==> outstanding[k] in accepted[drained..]) &&
    (forall j, k {:trigger outstanding[j], outstanding[k]} ::
      0 <= j < k < |outstanding| && outstanding[j] != 0 ==> outstanding[j] != outstanding[k])
  }

  /** A waiting client is open, its request is outstanding and was issued by its own connection. */
  ghost predicate ClientOk(c: Client, outstanding: seq<nat>, issuedTo: map<nat, nat>, nextConn: nat) {
    (c.open ==> c.conn < nextConn) && (!c.open ==> c == CLOSED) && !(c.waiting && c.sending) &&
    (c.waiting ==>
      c.open && c.id != 0 && c.id in outstanding && c.id in issuedTo && issuedTo[c.id] == c.conn &&
      (c.command == Positions ==> c.ownsBody))
  }

  ghost predicate ClientsOk(clients: seq<Client>, outstanding: seq<nat>, issuedTo: map<nat, nat>, nextConn: nat) {
    forall n :: Unfold(n) ==> ClientsOkBody(clients, outstanding, issuedTo, nextConn)
  }

  ghost predicate ClientsOkBody(clients: seq<Client>, outstanding: seq<nat>, issuedTo: map<nat, nat>, nextConn: nat) {
    (forall i {:trigger clients[i]} :: 0 <= i < |clients| ==> ClientOk(clients[i], outstanding, issuedTo, nextConn)) &&
    (forall i, j {:trigger clients[i], clients[j]} ::
      0 <= i < j < |clients| && clients[i].open && clients[j].open ==> clients[i].conn != clients[j].conn)
  }

  /** The shared positions body has at most one owner, and both sides agree on it. */
  ghost predicate BodyOk(clients: seq<Client>, owner: Option<nat>) {
    forall n :: Unfold(n) ==> BodyOkBody(clients, owner)
  }

  ghost predicate BodyOkBody(clients: seq<Client>, owner: Option<nat>) {
    (owner.Some? ==> owner.value < |clients| && clients[owner.value].ownsBody) &&
    (forall i {:trigger clients[i]} :: 0 <= i < |clients| && clients[i].ownsBody ==> owner == Some(i))
  }

  /** Every delivery went to the connection that issued the request, once, after draining it. */
  ghost predicate DeliveredOk(delivered: seq<Delivery>, drained: seq<nat>, issuedTo: map<nat, nat>) {
    forall n :: Unfold(n) ==> DeliveredOkBody(delivered, drained, issuedTo)
  }

  ghost predicate DeliveredOkBody(delivered: seq<Delivery>, drained: seq<nat>, issuedTo: map<nat, nat>) {
    (forall i {:trigger delivered[i]} :: 0 <= i < |delivered| ==>
       delivered[i].id in drained && delivered[i].id in issuedTo && issuedTo[delivered[i].id] == delivered[i].conn) &&
    (forall i, j {:trigger delivered[i], delivered[j]} ::
      0 <= i < j < |delivered| ==> delivered[i].id != delivered[j].id)
  }

  /** Every response under way and every delivery carries the answer the gateway gave to its request. */
  ghost predicate AnswersOk(responses: seq<Response>, spilled: Option<Response>, inHand: Option<Response>,
      delivered: seq<Delivery>, answers: map<nat, nat>) {
    forall n :: Unfold(n) ==> AnswersOkBody(responses, spilled, inHand, delivered, answers)
  }

  ghost predicate AnswersOkBody(responses: seq<Response>, spilled: Option<Response>, inHand: Option<Response>,
      delivered: seq<Delivery>, answers: map<nat, nat>) {
    (forall i {:trigger responses[i]} :: 0 <= i < |responses| ==> Carries(responses[i], answers)) &&
    (spilled.Some? ==> Carries(spilled.value, answers)) && (inHand.Some? ==> Carries(inHand.value, answers)) &&
    (forall i {:trigger delivered[i]} ::
      0 <= i < |delivered| ==> delivered[i].id in answers && answers[delivered[i].id] == delivered[i].body)
  }

  /** The gateway has answered nothing that is still among the last `waiting` accepted requests. */
  ghost predicate AnsweredOk(answers: map<nat, nat>, accepted: seq<nat>, waiting: nat) {
    forall n ::
        Unfold(n) ==>
          waiting <= |accepted| && forall id {:trigger id in answers} ::
            id in answers ==> id in accepted[..|accepted| - waiting]
  }

  predicate Carries(r: Response, answers: map<nat, nat>) {
    r.id in answers && answers[r.id] == r.body
  }

  /** What is in the owner's hand is the only answer outside the ring. */
  lemma OneAnswer(v: View)
    requires Sound(v) && v.inHand.Some?
    ensures v.spilled == None
  {
    Open(v);
  }

  /** The order counter is no part of the invariant. */
  lemma OrderIdSound(v: View, after: nat)
    requires Sound(v)
    ensures Sound(v.(nextOrderId := after))
  {
    Open(v);
    Seal(v.(nextOrderId := after));
  }

  /** Two waiting clients never share an identifier. */
  lemma WaitingDiffer(clients: seq<Client>, outstanding: seq<nat>, issuedTo: map<nat, nat>, nextConn: nat, i: nat,
      j: nat)
    requires ClientsOk(clients, outstanding, issuedTo, nextConn) && i < |clients| && j < |clients| && i != j &&
             clients[i].waiting && clients[j].waiting
    ensures clients[i].id != clients[j].id
  {
    assert ClientsOkBody(clients, outstanding, issuedTo, nextConn) by { assert Unfold(0); }
    assert ClientOk(clients[i], outstanding, issuedTo, nextConn) &&
           ClientOk(clients[j], outstanding, issuedTo, nextConn);
  }

  /** The bridge's state as a value. */
  datatype View = View(requests: seq<Request>, responses: seq<Response>, spilled: Option<Response>,
      inHand: Option<Response>, nextRequestId: nat, nextOrderId: nat, outstanding: seq<nat>, clients: seq<Client>,
      bodyOwner: Option<nat>, nextConn: nat, accepted: seq<nat>, drained: seq<nat>, issuedTo: map<nat, nat>,
      delivered: seq<Delivery>, answers: map<nat, nat>)

  /** The invariant, folded. */
  ghost predicate Sound(v: View) {
    forall n :: Unfold(n) ==> Parts(v)
  }

  ghost predicate Parts(v: View) {
    Flow(v.accepted, v.drained, v.responses, v.spilled, v.inHand, v.requests) &&
    Ascending(v.accepted, Bound(v.nextRequestId, UINT64_MAX)) &&
    TableOk(v.outstanding, v.accepted, |v.drained|) && ClientsOk(v.clients, v.outstanding, v.issuedTo, v.nextConn) &&
    BodyOk(v.clients, v.bodyOwner) &&
    DeliveredOk(v.delivered, v.drained, v.issuedTo) && (forall id :: id in v.accepted <==> id in v.issuedTo) &&
    AnswersOk(v.responses, v.spilled, v.inHand, v.delivered, v.answers) &&
    AnsweredOk(v.answers, v.accepted, |Awaited(v.requests)|)
  }

  lemma Open(v: View)
    requires Sound(v)
    ensures Parts(v)
  {
    assert Unfold(0);
  }

  lemma Seal(v: View)
    requires Parts(v)
    ensures Sound(v)
  {
  }

  datatype Action =
    | Flush | Pop(gateway: (Command, nat) -> nat) | Push
    | Connect | Ask(i: nat, command: Command, orderId: nat) | Order(i: nat) | Drain(formatted: bool)
    | Timeout(i: nat) | Hangup(i: nat) | Replace

  /** A client is turned to sending an error; it gives up the shared body. */
  ghost predicate TurnedDown(v: View, v': View, i: nat) {
    i < |v.clients| &&
    v'.clients == v.clients[i := v.clients[i].(ownsBody := false, waiting := false, sending := true)] &&
    v'.bodyOwner == Freed(v.bodyOwner, i)
  }

  /** The request is queued under its identifier, which is outstanding from now on, and its client waits for
      the answer, with the shared body if it asked for positions; kept folded. */
  ghost predicate Queued(v: View, v': View, i: nat, command: Command, id: nat, orderId: nat) {
    forall n :: Unfold(n) ==>
      i < |v.clients| && (exists k :: Rewritten(v.outstanding, v'.outstanding, k, 0, id)) &&
      v'.clients == v.clients[i := v.clients[i].(id := id, command := command, waiting := true,
        ownsBody := v.clients[i].ownsBody || command == Positions)] &&
      v' == v.(requests := v.requests + [Request(command, id, orderId)], accepted := v.accepted + [id],
        issuedTo := v.issuedTo[id := v.clients[i].conn],
        bodyOwner := if command == Positions then Some(i) else v.bodyOwner, outstanding := v'.outstanding,
        clients := v'.clients)
  }

  lemma QueuedAs(v: View, v': View, i: nat, command: Command, id: nat, orderId: nat, mid: seq<Client>)
    requires i < |v.clients| && exists k :: Rewritten(v.outstanding, v'.outstanding, k, 0, id)
    requires mid == v.clients[i := v.clients[i].(ownsBody := v.clients[i].ownsBody || command == Positions)]
    requires v'.clients == mid[i := mid[i].(id := id, command := command, waiting := true)]
    requires v' == v.(requests := v.requests + [Request(command, id, orderId)], accepted := v.accepted + [id],
             issuedTo := v.issuedTo[id := mid[i].conn],
             bodyOwner := if command == Positions then Some(i) else v.bodyOwner, outstanding := v'.outstanding,
             clients := v'.clients)
    ensures Queued(v, v', i, command, id, orderId)
  {
  }

  /** A request for an answer. It takes the next identifier. It is accepted when there was one, the positions
      body is free if it is asked for, and the table and the ring have room. Otherwise the client is turned
      down and nothing else changes. */
  ghost predicate Asked(v: View, v': View, room: nat, i: nat, command: Command, orderId: nat)
    requires i < |v.clients|
  {
    var id := v.nextRequestId;
    var after := if id == 0 || id == UINT64_MAX then 0 else id + 1;
    if id != 0 && (command == Positions ==> v.bodyOwner.None?) && 0 in v.outstanding && |v.requests| < room then
      Queued(v.(nextRequestId := after), v', i, command, id, orderId)
    else
      TurnedDown(v, v', i) && v' == v.(nextRequestId := after, clients := v'.clients, bodyOwner := v'.bodyOwner)
  }

  /** Client `i`, which was `c` when its answer came, is sending it: positions in the shared body, which it
      keeps, anything else inline. */
  ghost predicate Answered(was: seq<Client>, clients: seq<Client>, before: Option<nat>, owner: Option<nat>, i: nat,
      c: Client, formatted: bool) {
    var shared := c.command == Positions && c.ownsBody && formatted;
    i < |was| && clients == was[i := c.(waiting := false, sending := true, ownsBody := shared)] &&
    owner == if shared then before else Freed(before, i)
  }

  ghost predicate Waits(c: Client, id: nat) {
    c.open && c.waiting && c.id == id
  }

  /** The oldest response leaves the ring and its identifier the table; the client that waits for it, if there
      is one, is given it. */
  ghost predicate Drained(v: View, v': View, formatted: bool) {
    if v.responses == [] then v' == v
    else
      var r := v.responses[0];
      (if r.id in v.outstanding then exists k :: Rewritten(v.outstanding, v'.outstanding, k, r.id, 0)
       else v'.outstanding == v.outstanding) &&
      (if exists i :: 0 <= i < |v.clients| && Waits(v.clients[i], r.id) then
         exists i :: 0 <= i < |v.clients| && Waits(v.clients[i], r.id) &&
           Answered(v.clients, v'.clients, v.bodyOwner, v'.bodyOwner, i, v.clients[i], formatted) &&
           v'.delivered == v.delivered + [Delivery(r.id, v.clients[i].conn, r.body)]
       else v'.clients == v.clients && v'.bodyOwner == v.bodyOwner && v'.delivered == v.delivered) &&
      v' == v.(responses := v.responses[1..], drained := v.drained + [r.id], outstanding := v'.outstanding,
        clients := v'.clients, bodyOwner := v'.bodyOwner, delivered := v'.delivered)
  }

  /** The gateway sees the oldest request; anything but an order gets its answer into the owner's hand. */
  ghost predicate Popped(v: View, v': View, gateway: (Command, nat) -> nat) {
    if v.inHand.Some? || v.spilled.Some? || v.requests == [] then v' == v
    else
      var r := v.requests[0];
      if r.command == Submit then v' == v.(requests := v.requests[1..])
      else
        var body := gateway(r.command, r.orderId);
        v' == v.(requests := v.requests[1..], inHand := Some(Response(r.id, body)), answers := v.answers[r.id := body])
  }

  /** An open client that has a complete request and no answer pending. */
  predicate IsReady(clients: seq<Client>, i: nat) {
    i < |clients| && clients[i].open && !clients[i].waiting && !clients[i].sending
  }

  /** What one action does to the bridge. */
  ghost predicate Did(a: Action, requestRoom: nat, responseRoom: nat, v: View, v': View) {
    match a
    case Flush =>
      v' == if v.inHand.None? && v.spilled.Some? && |v.responses| < responseRoom
            then v.(responses := v.responses + [v.spilled.value], spilled := None) else v
    case Pop(gateway) => Popped(v, v', gateway)
    case Push =>
      v' == if v.inHand.None? then v
            else if |v.responses| < responseRoom then v.(responses := v.responses + [v.inHand.value], inHand := None)
            else v.(spilled := v.inHand, inHand := None)
    case Connect =>
      (if forall i :: 0 <= i < |v.clients| ==> v.clients[i].open then v'.clients == v.clients
       else exists i :: Seated(v.clients, v'.clients, i, v.nextConn)) &&
      v' == v.(nextConn := v.nextConn + 1, clients := v'.clients)
    case Ask(i, command, orderId) =>
      if IsReady(v.clients, i) && command != Submit then Asked(v, v', requestRoom, i, command, orderId) else v' == v
    case Order(i) =>
      if IsReady(v.clients, i) then
        var id := v.nextOrderId;
        var taken := id != 0 && |v.requests| < requestRoom;
        TurnedDown(v, v', i) &&
        v' == v.(nextOrderId := if id == 0 || id == UINT32_MAX then 0 else id + 1, clients := v'.clients,
          bodyOwner := v'.bodyOwner, requests := if taken then v.requests + [Request(Submit, 0, id)] else v.requests)
      else v' == v
    case Drain(formatted) => Drained(v, v', formatted)
    case Timeout(i) =>
      if i < |v.clients| && v.clients[i].open then
        v' == v.(bodyOwner := Freed(v.bodyOwner, i), clients := v.clients[i := if v.clients[i].sending then CLOSED
          else v.clients[i].(ownsBody := false, waiting := false, sending := true)])
      else v' == v
    case Hangup(i) =>
      v' == if i < |v.clients| then v.(bodyOwner := Freed(v.bodyOwner, i), clients := v.clients[i := CLOSED]) else v
    case Replace =>
      v' == v.(bodyOwner := None, clients := seq(|v.clients|, _ => CLOSED), outstanding := seq(|v.outstanding|, _ => 0))
  }

  /** The `i`-th action of the schedule leads from one state to the next. */
  ghost predicate Step(requestRoom: nat, responseRoom: nat, schedule: seq<Action>, views: seq<View>, i: nat)
    requires i < |schedule| < |views|
  {
    Did(schedule[i], requestRoom, responseRoom, views[i], views[i + 1])
  }

  /** A whole run: every action of the schedule was done, one after the other. */
  ghost predicate Played(requestRoom: nat, responseRoom: nat, schedule: seq<Action>, views: seq<View>) {
    |views| == |schedule| + 1 &&
    forall i :: 0 <= i < |schedule| ==> Step(requestRoom, responseRoom, schedule, views, i)
  }

  lemma PlayedOne(requestRoom: nat, responseRoom: nat, schedule: seq<Action>, i: nat, views: seq<View>, view: View)
    requires i < |schedule| && Played(requestRoom, responseRoom, schedule[..i], views)
    requires Did(schedule[i], requestRoom, responseRoom, views[i], view)
    ensures Played(requestRoom, responseRoom, schedule[..i + 1], views + [view])
  {
    var done, after := schedule[..i + 1], views + [view];
    forall j | 0 <= j < |done| ensures Step(requestRoom, responseRoom, done, after, j) {
      assert j < i ==> Step(requestRoom, responseRoom, schedule[..i], views, j);
    }
  }

  class ControlPlane {
    const requestCapacity: nat
    const responseCapacity: nat
    var requests: seq<Request>
    var responses: seq<Response>
    var spilled: Option<Response>
    /** The execution owner's local: a response not yet pushed. */
    var inHand: Option<Response>
    var nextRequestId: nat
    var nextOrderId: nat
    var outstanding: seq<nat>
    var clients: seq<Client>
    var bodyOwner: Option<nat>
    var nextConn: nat
    /** Accepted requests that expect an answer, and those whose answer left the ring, in order. */
    ghost var accepted: seq<nat>
    ghost var drained: seq<nat>
    ghost var issuedTo: map<nat, nat>
    ghost var delivered: seq<Delivery>
    /** What the gateway answered to each request it has seen. */
    ghost var answers: map<nat, nat>

    ghost function Now(): View
      reads this
    {
      View(requests, responses, spilled, inHand, nextRequestId, nextOrderId, outstanding, clients, bodyOwner, nextConn,
      accepted, drained, issuedTo, delivered, answers)
    }

    ghost predicate Valid()
      reads this
    {
      |requests| <= requestCapacity && |responses| <= responseCapacity && nextRequestId <= UINT64_MAX &&
      nextOrderId <= UINT32_MAX && Sound(Now())
    }

    constructor (requestCapacity: nat, responseCapacity: nat, pending: nat, slots: nat, firstOrderId: nat)
      requires firstOrderId <= UINT32_MAX
      ensures Valid() && this.requestCapacity == requestCapacity && this.responseCapacity == responseCapacity
      ensures Now() == View([], [], None, None, 1, firstOrderId, seq(pending, _ => 0), seq(slots, _ => CLOSED), None, 0,
              [], [], map[], [], map[])
    {
      this.requestCapacity, this.responseCapacity := requestCapacity, responseCapacity;
      requests, responses, spilled, inHand := [], [], None, None;
      nextRequestId, nextOrderId := 1, firstOrderId;
      outstanding := seq(pending, _ => 0);
      clients := seq(slots, _ => CLOSED);
      bodyOwner, nextConn := None, 0;
      accepted, drained, issuedTo, delivered, answers := [], [], map[], [], map[];
      new;
      StartSound(Now());
    }

    // ----- The execution owner -----

    /** Pushes a spilled response before anything else; false while the ring stays full. */
    method FlushSpilled() returns (clear: bool)
      requires Valid() && inHand.None?
      modifies this`responses, this`spilled
      ensures Valid() && (clear <==> spilled.None?) &&
              (clear <==> old(spilled).None? || |old(responses)| < responseCapacity)
      ensures responses == if old(spilled).Some? && clear then old(responses) + [old(spilled).value] else old(responses)
      ensures !clear ==> spilled == old(spilled)
    {
      if spilled.None? {
        return true;
      }
      if |responses| == responseCapacity {
        return false;
      }
      FlushSound(Now());
      responses, spilled := responses + [spilled.value], None;
      return true;
    }

    /** Pops a request and has the gateway, as it stands, answer it. An order submission needs
        no answer; anything else leaves one in hand. */
    method TakeRequest(gateway: (Command, nat) -> nat) returns (r: Option<Request>)
      requires Valid() && inHand.None? && spilled.None?
      modifies this`requests, this`inHand, this`answers
      ensures Valid() && (r.None? <==> old(requests) == [])
      ensures r.Some? ==> r.value == old(requests)[0] && requests == old(requests)[1..]
      ensures r.Some? && r.value.command != Submit ==>
                var body := gateway(r.value.command, r.value.orderId);
                inHand == Some(Response(r.value.id, body)) && r.value.id !in old(answers) &&
                answers == old(answers)[r.value.id := body]
      ensures r.None? || r.value.command == Submit ==> inHand == None && answers == old(answers)
      ensures Popped(old(Now()), Now(), gateway)
    {
      if requests == [] {
        return None;
      }
      r := Some(requests[0]);
      if r.value.command != Submit {
        TakeAnswered(gateway(r.value.command, r.value.orderId));
      } else {
        TakeOrderSound(Now());
        requests := requests[1..];
      }
    }

    method TakeAnswered(body: nat)
      requires Valid() && inHand.None? && spilled.None? && requests != [] && requests[0].command != Submit
      modifies this`requests, this`inHand, this`answers
      ensures Valid() && requests == old(requests)[1..] && inHand == Some(Response(old(requests)[0].id, body))
      ensures old(requests)[0].id !in old(answers) && answers == old(answers)[old(requests)[0].id := body]
    {
      TakeSound(Now(), body);
      var id := requests[0].id;
      requests, inHand, answers := requests[1..], Some(Response(id, body)), answers[id := body];
    }

    /** Pushes the response, or spills it when the ring is full: it is never dropped. */
    method Reply()
      requires Valid() && inHand.Some?
      modifies this`responses, this`spilled, this`inHand
      ensures Valid() && inHand == None
      ensures if |old(responses)| < responseCapacity then responses == old(responses) + [old(inHand).value] &&
              spilled == None
              else responses == old(responses) && spilled == old(inHand)
    {
      ReplySound(Now());
      if |responses| < responseCapacity {
        responses := responses + [inHand.value];
      } else {
        spilled := inHand;
      }
      inHand := None;
    }

    // ----- The HTTP thread -----

    /** Accepts a connection into the first closed slot. */
    method Accept() returns (taken: bool)
      requires Valid()
      modifies this`clients, this`nextConn
      ensures Valid() && nextConn == old(nextConn) + 1
      ensures taken <==> exists i :: 0 <= i < |old(clients)| && !old(clients)[i].open
      ensures taken ==> exists i :: Seated(old(clients), clients, i, old(nextConn))
      ensures !taken ==> clients == old(clients)
    {
      var conn := nextConn;
      var i := 0;
      while i < |clients|
        invariant i <= |clients| && clients == old(clients) && forall j :: 0 <= j < i ==> clients[j].open
      {
        if !clients[i].open {
          var c := Client(true, conn, 0, Submit, false, false, false);
          AcceptSound(Now(), i, c);
          clients, nextConn := clients[i := c], nextConn + 1;
          assert Seated(old(clients), clients, i, conn);
          return true;
        }
        i := i + 1;
      }
      RefuseSound(Now());
      nextConn := nextConn + 1;
      return false;
    }

    method ReleaseBody(i: nat)
      requires Valid() && i < |clients| && !(clients[i].waiting && clients[i].command == Positions)
      modifies this`clients, this`bodyOwner
      ensures Valid() && clients == old(clients)[i := old(clients)[i].(ownsBody := false)] &&
              bodyOwner == Freed(old(bodyOwner), i)
    {
      var c := clients[i].(ownsBody := false);
      ClientFacts(Now(), i);
      ClientSound(Now(), i, c);
      if clients[i].ownsBody && bodyOwner == Some(i) {
        bodyOwner := None;
      }
      clients := clients[i := c];
    }

    /** Turns the client to sending an error or an answer; it gives up the shared body. */
    method QueueInline(i: nat)
      requires Valid() && i < |clients| && clients[i].open
      modifies this`clients, this`bodyOwner
      ensures Valid() && clients == old(clients)[i := old(clients)[i].(ownsBody := false, waiting := false,
              sending := true)]
      ensures bodyOwner == Freed(old(bodyOwner), i)
    {
      var c := clients[i].(waiting := false, sending := true);
      ClientFacts(Now(), i);
      ClientSound(Now(), i, c);
      clients := clients[i := c];
      ReleaseBody(i);
    }

    method CloseClient(i: nat)
      requires Valid() && i < |clients|
      modifies this`clients, this`bodyOwner
      ensures Valid() && clients == old(clients)[i := CLOSED] && bodyOwner == Freed(old(bodyOwner), i)
    {
      ClientFacts(Now(), i);
      ClientSound(Now(), i, CLOSED);
      if clients[i].ownsBody && bodyOwner == Some(i) {
        bodyOwner := None;
      }
      clients := clients[i := CLOSED];
    }

    /** A query, cancel or positions request. It is accepted when an identifier, the positions
        body if needed, an outstanding entry and a request slot are all to be had; otherwise
        everything taken so far is given back. */
    method Dispatch(i: nat, command: Command, orderId: nat) returns (ok: bool)
      requires Valid() && i < |clients| && clients[i].open && !clients[i].waiting && !clients[i].sending &&
               command != Submit
      modifies this`clients, this`bodyOwner, this`nextRequestId, this`outstanding, this`requests, this`accepted,
               this`issuedTo
      ensures Valid()
      ensures ok <==> old(nextRequestId) != 0 && (command == Positions ==> old(bodyOwner).None?) &&
                      0 in old(outstanding) && |old(requests)| < requestCapacity
      ensures Asked(old(Now()), Now(), requestCapacity, i, command, orderId) && old(accepted) <= accepted
    {
      var id := NewRequestId();
      ok := id != 0;
      if ok {
        ok := AdmitRequest(i, command, id, orderId);
      }
      if !ok {
        QueueInline(i);
      }
    }

    /** Queues a request that has an identifier; a refusal may leave the body reserved. */
    method AdmitRequest(i: nat, command: Command, id: nat, orderId: nat) returns (ok: bool)
      requires Valid() && IsReady(clients, i) && command != Submit && 0 < id < Bound(nextRequestId, UINT64_MAX) &&
               Below(accepted, id)
      modifies this`clients, this`bodyOwner, this`outstanding, this`requests, this`accepted, this`issuedTo
      ensures Valid() && (ok <==> (command == Positions ==> old(bodyOwner).None?) && 0 in old(outstanding) &&
                                   |old(requests)| < requestCapacity)
      ensures ok ==> Queued(old(Now()), Now(), i, command, id, orderId) && accepted == old(accepted) + [id]
      ensures !ok ==>
                accepted == old(accepted) && requests == old(requests) && outstanding == old(outstanding) &&
                issuedTo == old(issuedTo) && Freed(bodyOwner, i) == Freed(old(bodyOwner), i) && i < |clients| &&
                clients == old(clients)[i := old(clients)[i].(ownsBody := clients[i].ownsBody)]
    {
      ghost var was := Now();
      ok := SecureBody(i, command);
      if ok {
        ghost var mid := clients;
        ok := Enqueue(i, command, id, orderId);
        if ok {
          QueuedAs(was, Now(), i, command, id, orderId, mid);
        }
      }
    }

    /** Reserves the shared body if the request needs it. */
    method SecureBody(i: nat, command: Command) returns (ok: bool)
      requires Valid() && IsReady(clients, i)
      modifies this`clients, this`bodyOwner
      ensures Valid() && (ok <==> (command == Positions ==> old(bodyOwner).None?))
      ensures ok ==>
                clients == old(clients)[i := old(clients)[i].(ownsBody :=
                  old(clients)[i].ownsBody || command == Positions)] &&
                bodyOwner == if command == Positions then Some(i) else old(bodyOwner)
      ensures !ok ==> clients == old(clients) && bodyOwner == old(bodyOwner)
    {
      if command != Positions {
        return true;
      }
      ClientFacts(Now(), i);
      if clients[i].ownsBody || bodyOwner.Some? {
        return false;
      }
      ReserveBody(i);
      return true;
    }

    method NewRequestId() returns (id: nat)
      requires Valid()
      modifies this`nextRequestId
      ensures Valid() && id == old(nextRequestId) &&
              (id != 0 ==> id < Bound(nextRequestId, UINT64_MAX) && Below(accepted, id))
      ensures nextRequestId == if id == 0 || id == UINT64_MAX then 0 else id + 1
    {
      var after;
      id, after := TakeId(nextRequestId, UINT64_MAX);
      NewIdSound(Now(), after);
      nextRequestId := after;
    }

    method ReserveBody(i: nat)
      requires Valid() && i < |clients| && clients[i].open && bodyOwner.None?
      modifies this`clients, this`bodyOwner
      ensures Valid() && bodyOwner == Some(i) && clients == old(clients)[i := old(clients)[i].(ownsBody := true)]
    {
      var c := clients[i].(ownsBody := true);
      ClientFacts(Now(), i);
      ClientSound(Now(), i, c);
      bodyOwner, clients := Some(i), clients[i := c];
    }

    /** Reserves an outstanding entry, then pushes the request; a full ring gives the entry back. */
    method Enqueue(i: nat, command: Command, id: nat, orderId: nat) returns (ok: bool)
      requires Valid() && i < |clients| && clients[i].open && !clients[i].waiting && !clients[i].sending &&
               command != Submit
      requires (command == Positions ==> clients[i].ownsBody) && 0 < id < Bound(nextRequestId, UINT64_MAX) &&
               Below(accepted, id)
      modifies this`clients, this`outstanding, this`requests, this`accepted, this`issuedTo
      ensures Valid() && (ok <==> 0 in old(outstanding) && |old(requests)| < requestCapacity)
      ensures ok ==> accepted == old(accepted) + [id] && requests == old(requests) + [Request(command, id, orderId)]
      ensures ok ==> issuedTo == old(issuedTo)[id := old(clients)[i].conn]
      ensures ok ==> clients == old(clients)[i := old(clients)[i].(id := id, command := command, waiting := true)]
      ensures ok ==> exists k :: Rewritten(old(outstanding), outstanding, k, 0, id)
      ensures !ok ==>
                accepted == old(accepted) && requests == old(requests) && outstanding == old(outstanding) &&
                clients == old(clients) && issuedTo == old(issuedTo)
    {
      var reserved, table, k := ReserveId(outstanding, id);
      if !reserved {
        return false;
      }
      FreshId(Now(), id);
      if |requests| == requestCapacity {
        assert table[k] == id;
        var _, back, _ := ReleaseId(table, id);
        assert back == outstanding;
        outstanding := back;
        return false;
      }
      Push(i, Request(command, id, orderId), table, k);
      return true;
    }

    method Push(i: nat, r: Request, table: seq<nat>, ghost k: nat)
      requires Valid() && i < |clients| && clients[i].open && !clients[i].waiting && !clients[i].sending &&
               |requests| < requestCapacity
      requires (r.command == Positions ==> clients[i].ownsBody) && 0 < r.id < Bound(nextRequestId, UINT64_MAX) &&
               Below(accepted, r.id)
      requires r.command != Submit && k < |outstanding| && outstanding[k] == 0 && table == outstanding[k := r.id] &&
               r.id !in outstanding && r.id !in accepted
      modifies this`clients, this`outstanding, this`requests, this`accepted, this`issuedTo
      ensures Valid() && accepted == old(accepted) + [r.id] && requests == old(requests) + [r] &&
              issuedTo == old(issuedTo)[r.id := old(clients)[i].conn]
      ensures clients == old(clients)[i := old(clients)[i].(id := r.id, command := r.command, waiting := true)] &&
              outstanding == table
    {
      var c := clients[i].(id := r.id, command := r.command, waiting := true);
      ghost var v := PushSound(Now(), i, r, c, table, k);
      Join(r, table, clients[i := c], v);
    }

    /** Puts the request on the ring. */
    method Join(r: Request, table: seq<nat>, next: seq<Client>, ghost v: View)
      requires v == Now().(requests := requests + [r], clients := next, outstanding := table, accepted := v.accepted,
               issuedTo := v.issuedTo)
      modifies this`clients, this`outstanding, this`requests, this`accepted, this`issuedTo
      ensures Now() == v
    {
      requests, clients, outstanding, accepted, issuedTo := requests + [r], next, table, v.accepted, v.issuedTo;
    }

    /** An order submission: acknowledged at once, never answered through the ring. */
    method SubmitOrder(i: nat) returns (orderId: nat)
      requires Valid() && i < |clients| && clients[i].open && !clients[i].waiting && !clients[i].sending
      modifies this`clients, this`bodyOwner, this`nextOrderId, this`requests
      ensures Valid() && (orderId != 0 <==> old(nextOrderId) != 0 && |old(requests)| < requestCapacity)
      ensures requests == if orderId != 0 then old(requests) + [Request(Submit, 0, orderId)] else old(requests)
      ensures orderId != 0 ==> orderId == old(nextOrderId) && orderId < Bound(nextOrderId, UINT32_MAX)
      ensures nextOrderId == if old(nextOrderId) == 0 || old(nextOrderId) == UINT32_MAX then 0 else old(nextOrderId) + 1
      ensures clients == old(clients)[i := old(clients)[i].(ownsBody := false, waiting := false, sending := true)] &&
              bodyOwner == Freed(old(bodyOwner), i)
    {
      var after;
      orderId, after := TakeId(nextOrderId, UINT32_MAX);
      OrderIdSound(Now(), after);
      nextOrderId := after;
      if orderId != 0 {
        if |requests| == requestCapacity {
          orderId := 0;
        } else {
          OrderSound(Now(), Request(Submit, 0, orderId));
          requests := requests + [Request(Submit, 0, orderId)];
        }
      }
      QueueInline(i);
    }

    /** Pops one response. If its identifier is still outstanding, the client waiting on it, if
        any, gets the answer. */
    method DrainOne(formatted: bool) returns (popped: bool)
      requires Valid()
      modifies this`responses, this`outstanding, this`clients, this`bodyOwner, this`drained, this`delivered
      ensures Valid() && (popped <==> old(responses) != []) && |clients| == |old(clients)|
      ensures popped ==> drained == old(drained) + [old(responses)[0].id] && responses == old(responses)[1..]
      ensures !popped ==> drained == old(drained) && delivered == old(delivered)
      ensures popped ==> Delivered(old(clients), clients, old(delivered), delivered, old(responses)[0])
      ensures popped && old(responses)[0].id !in old(outstanding) ==> delivered == old(delivered)
      ensures Drained(old(Now()), Now(), formatted)
    {
      if responses == [] {
        return false;
      }
      popped := true;
      var i := TakeResponse();
      if i < |clients| {
        Answer(i, formatted);
      }
    }

    /** Takes the oldest response off the ring and its identifier out of the table, and finds the client that
        waits for it. */
    method TakeResponse() returns (i: nat)
      requires Valid() && responses != []
      modifies this`responses, this`outstanding, this`clients, this`drained, this`delivered
      ensures Valid() && drained == old(drained) + [old(responses)[0].id] && responses == old(responses)[1..] &&
              i <= |clients| == |old(clients)|
      ensures if old(responses)[0].id in old(outstanding)
              then exists k :: Rewritten(old(outstanding), outstanding, k, old(responses)[0].id, 0)
              else outstanding == old(outstanding)
      ensures if i == |clients| then
                (forall j :: 0 <= j < i ==> !Waits(old(clients)[j], old(responses)[0].id)) &&
                clients == old(clients) && delivered == old(delivered)
              else
                Waits(old(clients)[i], old(responses)[0].id) && !old(clients)[i].sending &&
                old(responses)[0].id in old(outstanding) &&
                clients == old(clients)[i := old(clients)[i].(waiting := false)] && delivered == old(delivered) +
                  [Delivery(old(responses)[0].id, old(clients)[i].conn, old(responses)[0].body)]
    {
      var r := responses[0];
      var ours, table, k := Release(r.id);
      i := |clients|;
      if ours {
        i := FindWaiting(r.id);
      } else {
        NobodyWaits(Now(), r.id);
      }
      PopOne(r, i, table, k);
    }

    /** Takes the oldest response off the ring; `table` is without its identifier. Client `i`, if
        there is one, stops waiting. */
    method PopOne(r: Response, i: nat, table: seq<nat>, ghost k: nat)
      requires if responses != [] && responses[0].id in outstanding
               then Rewritten(outstanding, table, k, responses[0].id, 0) else table == outstanding
      requires Valid() && responses != [] && r == responses[0] && i <= |clients|
      requires i < |clients| ==> clients[i].waiting && clients[i].id == r.id
      requires i == |clients| ==>
                 forall j :: 0 <= j < i ==> !(clients[j].open && clients[j].waiting && clients[j].id == r.id)
      modifies this`responses, this`outstanding, this`clients, this`drained, this`delivered
      ensures Valid() && drained == old(drained) + [r.id] && responses == old(responses)[1..] && outstanding == table
      ensures if i == |old(clients)| then clients == old(clients) && delivered == old(delivered)
              else old(clients)[i].open && !old(clients)[i].sending &&
                   clients == old(clients)[i := old(clients)[i].(waiting := false)] &&
                   delivered == old(delivered) + [Delivery(r.id, old(clients)[i].conn, r.body)]
    {
      ghost var v, v' := Now(), Now();
      var next := clients;
      if i == |clients| {
        v' := PopUnclaimed(v, table, k);
      } else {
        var c := clients[i].(waiting := false);
        v' := PopClaimed(v, table, k, i, c);
        next := clients[i := c];
      }
      Shift(table, next, v');
    }

    method Release(id: nat) returns (ok: bool, table: seq<nat>, ghost k: nat)
      requires Valid() && responses != [] && id == responses[0].id
      ensures ok <==> id in outstanding
      ensures if ok then Rewritten(outstanding, table, k, id, 0) else table == outstanding
    {
      HeadNonzero(Now());
      ok, table, k := ReleaseId(outstanding, id);
    }

    /** Takes the oldest response off the ring. */
    method Shift(table: seq<nat>, next: seq<Client>, ghost v: View)
      requires responses != [] &&
               v == Now().(responses := responses[1..], outstanding := table, clients := next, drained := v.drained,
               delivered := v.delivered)
      modifies this`responses, this`outstanding, this`clients, this`drained, this`delivered
      ensures Now() == v
    {
      responses, outstanding, clients, drained, delivered := responses[1..], table, next, v.drained, v.delivered;
    }

    /** First open client waiting on the identifier; the slot count when none is. */
    method FindWaiting(x: nat) returns (i: nat)
      ensures i <= |clients| && (i < |clients| ==> clients[i].open && clients[i].waiting && clients[i].id == x)
      ensures forall j :: 0 <= j < i ==> !(clients[j].open && clients[j].waiting && clients[j].id == x)
    {
      i := 0;
      while i < |clients| && !(clients[i].open && clients[i].waiting && clients[i].id == x)
        invariant i <= |clients| && forall j ::
                    0 <= j < i ==> !(clients[j].open && clients[j].waiting && clients[j].id == x)
      {
        i := i + 1;
      }
    }

    /** Serializes the answer: positions go into the shared body, the rest inline. */
    method Answer(i: nat, formatted: bool)
      requires Valid() && i < |clients| && clients[i].open && !clients[i].waiting && !clients[i].sending
      modifies this`clients, this`bodyOwner
      ensures Valid() && Answered(old(clients), clients, old(bodyOwner), bodyOwner, i, old(clients)[i], formatted)
    {
      if clients[i].command == Positions && clients[i].ownsBody && formatted {
        var c := clients[i].(sending := true);
        ClientFacts(Now(), i);
        ClientSound(Now(), i, c);
        clients := clients[i := c];
      } else {
        QueueInline(i);
      }
    }

    /** A deadline passed: a slow reader is closed, anyone else gets an error. */
    method Expire(i: nat)
      requires Valid() && i < |clients| && clients[i].open
      modifies this`clients, this`bodyOwner
      ensures Valid() && bodyOwner == Freed(old(bodyOwner), i)
      ensures clients == old(clients)[i := if old(clients)[i].sending then CLOSED
                else old(clients)[i].(ownsBody := false, waiting := false, sending := true)]
    {
      if clients[i].sending {
        CloseClient(i);
      } else {
        QueueInline(i);
      }
    }

    /** A stopped listener closes its clients; its successor starts with an empty table while
        the rings keep what was in flight. */
    method Restart()
      requires Valid()
      modifies this`clients, this`bodyOwner, this`outstanding
      ensures Valid() && (forall i :: 0 <= i < |clients| ==> clients[i] == CLOSED) &&
              forall k :: 0 <= k < |outstanding| ==> outstanding[k] == 0
      ensures |clients| == |old(clients)| && |outstanding| == |old(outstanding)| && bodyOwner == None
    {
      var closed, cleared := seq(|clients|, _ => CLOSED), seq(|outstanding|, _ => 0);
      RestartSound(Now(), closed, cleared);
      clients, outstanding, bodyOwner := closed, cleared, None;
    }

    method Take(a: Action)
      requires Valid()
      modifies this
      ensures Valid() && old(accepted) <= accepted && old(drained) <= drained && old(delivered) <= delivered
      ensures forall id :: id in old(answers) ==> id in answers && answers[id] == old(answers)[id]
      ensures Did(a, requestCapacity, responseCapacity, old(Now()), Now())
    {
      match a
      case Flush => TakeOwner(a);
      case Pop(_) => TakeOwner(a);
      case Push => TakeOwner(a);
      case Ask(_, _, _) => TakeHttp(a);
      case Order(_) => TakeHttp(a);
      case Drain(_) => TakeHttp(a);
      case _ => TakeClient(a);
    }

    /** A request of a client, or the answer to one. */
    method TakeHttp(a: Action)
      requires Valid() && (a.Ask? || a.Order? || a.Drain?)
      modifies this
      ensures Valid() && old(accepted) <= accepted && old(drained) <= drained && old(delivered) <= delivered
      ensures answers == old(answers) && Did(a, requestCapacity, responseCapacity, old(Now()), Now())
    {
      match a
      case Ask(i, command, orderId) => if IsReady(clients, i) &&
        command != Submit { var _ := Dispatch(i, command, orderId); }
      case Order(i) => if IsReady(clients, i) { var _ := SubmitOrder(i); }
      case Drain(formatted) => var _ := DrainOne(formatted);
    }

    /** A step of the execution owner. */
    method TakeOwner(a: Action)
      requires Valid() && (a.Flush? || a.Pop? || a.Push?)
      modifies this`requests, this`responses, this`spilled, this`inHand, this`answers
      ensures Valid() && Did(a, requestCapacity, responseCapacity, old(Now()), Now())
      ensures forall id :: id in old(answers) ==> id in answers && answers[id] == old(answers)[id]
    {
      match a
      case Flush => if inHand.None? { var _ := FlushSpilled(); }
      case Pop(gateway) => if inHand.None? && spilled.None? { var _ := TakeRequest(gateway); }
      case Push => if inHand.Some? { OneAnswer(Now()); Reply(); }
    }

    /** A connection comes, runs out of time or goes, or the listener is replaced. */
    method TakeClient(a: Action)
      requires Valid() && (a.Connect? || a.Timeout? || a.Hangup? || a.Replace?)
      modifies this`clients, this`nextConn, this`bodyOwner, this`outstanding
      ensures Valid() && Did(a, requestCapacity, responseCapacity, old(Now()), Now())
    {
      match a
      case Connect => var _ := Accept();
      case Timeout(i) => if i < |clients| && clients[i].open { Expire(i); }
      case Hangup(i) => if i < |clients| { CloseClient(i); }
      case Replace => Restart();
    }

    /** Every interleaving of the owner, the HTTP thread, its clients and listener restarts.
        Accepted requests are answered once each and in order: the drained ones come first, the
        rest is under way. Answers go only to the connection that asked, once, and are what the
        gateway said when it saw the request. */
    method Run(schedule: seq<Action>) returns (ghost views: seq<View>)
      requires Valid()
      modifies this
      ensures Valid() && old(accepted) <= accepted && old(drained) <= drained && old(delivered) <= delivered
      ensures drained <= accepted && (forall i, j :: 0 <= i < j < |accepted| ==> accepted[i] != accepted[j])
      ensures accepted[|drained|..] == Ids(responses) + IdOf(spilled) + IdOf(inHand) + Awaited(requests)
      ensures forall i {:trigger delivered[i]} :: 0 <= i < |delivered| ==>
                delivered[i].id in drained && delivered[i].id in issuedTo &&
                issuedTo[delivered[i].id] == delivered[i].conn &&
                delivered[i].id in answers && answers[delivered[i].id] == delivered[i].body
      ensures forall i, j :: 0 <= i < j < |delivered| ==> delivered[i].id != delivered[j].id
      ensures forall id :: id in old(answers) ==> id in answers && answers[id] == old(answers)[id]
      ensures Played(requestCapacity, responseCapacity, schedule, views) && views[0] == old(Now()) &&
              views[|schedule|] == Now()
    {
      views := RunAll(schedule);
      Open(Now());
      InOrderOnce(accepted, drained, responses, spilled, inHand, requests, Bound(nextRequestId, UINT64_MAX));
      RightClientOnce(responses, spilled, inHand, delivered, drained, issuedTo, answers);
    }

    method RunAll(schedule: seq<Action>) returns (ghost views: seq<View>)
      requires Valid()
      modifies this
      ensures Valid() && old(accepted) <= accepted && old(drained) <= drained && old(delivered) <= delivered
      ensures forall id :: id in old(answers) ==> id in answers && answers[id] == old(answers)[id]
      ensures Played(requestCapacity, responseCapacity, schedule, views) && views[0] == old(Now()) &&
              views[|schedule|] == Now()
    {
      var i := 0;
      views := [Now()];
      while i < |schedule|
        invariant i <= |schedule| && Valid()
        invariant old(accepted) <= accepted && old(drained) <= drained && old(delivered) <= delivered
        invariant forall id :: id in old(answers) ==> id in answers && answers[id] == old(answers)[id]
        invariant Played(requestCapacity, responseCapacity, schedule[..i], views) && views[0] == old(Now()) &&
                  views[i] == Now()
      {
        Take(schedule[i]);
        PlayedOne(requestCapacity, responseCapacity, schedule, i, views, Now());
        views := views + [Now()];
        i := i + 1;
      }
      assert schedule[..i] == schedule;
    }

    /** Runs both sides without new requests until nothing is in flight: every accepted request
        has then been answered, in order. */
    method Quiesce(gateway: (Command, nat) -> nat)
      requires Valid() && responseCapacity > 0
      modifies this
      ensures Valid() && accepted == old(accepted) == drained
    {
      while responses != [] || spilled.Some? || inHand.Some? || requests != []
        invariant Valid() && accepted == old(accepted)
        decreases 4 * |requests| + (if inHand.Some? then 3 else 0) + (if spilled.Some? then 2 else 0) + |responses|
      {
        if responses != [] {
          var _ := DrainOne(true);
        } else if inHand.Some? {
          Reply();
        } else if spilled.Some? {
          var _ := FlushSpilled();
        } else {
          var _ := TakeRequest(gateway);
        }
      }
      AllDrained(Now());
    }
  }

  lemma SetClientOk(clients: seq<Client>, outstanding: seq<nat>, issuedTo: map<nat, nat>, nextConn: nat, i: nat,
      c: Client)
    requires ClientsOk(clients, outstanding, issuedTo, nextConn) && i < |clients| && c.conn == nextConn && c.open &&
             !c.waiting
    ensures ClientsOk(clients[i := c], outstanding, issuedTo, nextConn + 1)
  {
    assert ClientsOkBody(clients, outstanding, issuedTo, nextConn) by { assert Unfold(0); }
    var clients' := clients[i := c];
    forall k | 0 <= k < |clients'|
      ensures ClientOk(clients'[k], outstanding, issuedTo, nextConn + 1) && (k != i ==> clients'[k] == clients[k])
    {
      assert k != i ==> ClientOk(clients[k], outstanding, issuedTo, nextConn);
    }
  }

  /** A new connection sits in the first closed slot. */
  ghost predicate Seated(was: seq<Client>, clients: seq<Client>, i: nat, conn: nat) {
    i < |was| && !was[i].open && (forall j :: 0 <= j < i ==> was[j].open) &&
    clients == was[i := Client(true, conn, 0, Submit, false, false, false)]
  }

  ghost function Freed(owner: Option<nat>, i: nat): Option<nat> {
    if owner == Some(i) then None else owner
  }

  /** One client changes; the others keep their identifiers outstanding. */
  lemma ChangeClient(clients: seq<Client>, table: seq<nat>, table': seq<nat>, issued: map<nat, nat>,
      issued': map<nat, nat>, nextConn: nat, i: nat, c: Client)
    requires ClientsOk(clients, table, issued, nextConn) && i < |clients| && ClientOk(c, table', issued', nextConn)
    requires !c.open || (clients[i].open && c.conn == clients[i].conn)
    requires forall x :: x in table && x != 0 ==> x in table'
    requires forall x :: x in issued ==> x in issued' && (x in table ==> issued'[x] == issued[x])
    ensures ClientsOk(clients[i := c], table', issued', nextConn)
  {
    assert ClientsOkBody(clients, table, issued, nextConn) by { assert Unfold(0); }
    var clients' := clients[i := c];
    forall k | 0 <= k < |clients'|
      ensures ClientOk(clients'[k], table', issued', nextConn) && (k != i ==> clients'[k] == clients[k])
    {
      assert ClientOk(clients[k], table, issued, nextConn);
    }
  }

  /** The first entry that held `x` holds `y` now, and nothing else changed. */
  ghost predicate Rewritten(table: seq<nat>, table': seq<nat>, k: nat, x: nat, y: nat) {
    k < |table| && table[k] == x && (forall j :: 0 <= j < k ==> table[j] != x) && table' == table[k := y]
  }

  method ReserveId(table: seq<nat>, id: nat) returns (ok: bool, table': seq<nat>, ghost k: nat)
    requires id != 0
    ensures ok <==> 0 in table
    ensures if ok then Rewritten(table, table', k, 0, id) else table' == table
  {
    var i := 0;
    while i < |table|
      invariant i <= |table| && forall j :: 0 <= j < i ==> table[j] != 0
    {
      if table[i] == 0 {
        return true, table[i := id], i;
      }
      i := i + 1;
    }
    return false, table, 0;
  }

  method ReleaseId(table: seq<nat>, id: nat) returns (ok: bool, table': seq<nat>, ghost k: nat)
    requires id != 0
    ensures ok <==> id in table
    ensures if ok then Rewritten(table, table', k, id, 0) else table' == table
  {
    var i := 0;
    while i < |table|
      invariant i <= |table| && forall j :: 0 <= j < i ==> table[j] != id
    {
      if table[i] == id {
        return true, table[i := 0], i;
      }
      i := i + 1;
    }
    return false, table, 0;
  }

  /** A fresh identifier is in no table. */
  lemma NotYetOut(table: seq<nat>, accepted: seq<nat>, drained: nat, id: nat)
    requires TableOk(table, accepted, drained) && id != 0 && Below(accepted, id)
    ensures id !in table && id !in accepted
  {
    assert TableOkBody(table, accepted, drained) by { assert Unfold(0); }
    forall k | 0 <= k < |table| ensures table[k] != id {
      if table[k] != 0 {
        assert table[k] in accepted;
      }
    }
  }

  lemma TableGrows(table: seq<nat>, accepted: seq<nat>, drained: nat, id: nat, k: nat)
    requires TableOk(table, accepted, drained) && k < |table| && table[k] == 0 && id != 0 && id !in table
    ensures TableOk(table[k := id], accepted + [id], drained)
  {
    assert TableOkBody(table, accepted, drained) by { assert Unfold(0); }
    assert (accepted + [id])[drained..] == accepted[drained..] + [id];
    forall j | 0 <= j < |table| && j != k && table[j] != 0 ensures table[j] in (accepted + [id])[drained..] {
      assert table[j] in accepted[drained..];
    }
  }

  lemma DeliveredGrows(delivered: seq<Delivery>, drained: seq<nat>, issued: map<nat, nat>, id: nat, conn: nat)
    requires DeliveredOk(delivered, drained, issued) && id !in issued
    ensures DeliveredOk(delivered, drained, issued[id := conn])
  {
    assert DeliveredOkBody(delivered, drained, issued) by { assert Unfold(0); }
  }

  /** The oldest response is the oldest identifier in the pipeline, and occurs only once. */
  lemma PopFacts(accepted: seq<nat>, drained: seq<nat>, responses: seq<Response>, spilled: Option<Response>,
      inHand: Option<Response>, requests: seq<Request>, bound: nat)
    requires Flow(accepted, drained, responses, spilled, inHand, requests) && Ascending(accepted, bound) &&
             responses != []
    ensures var x := responses[0].id;
            x != 0 && |drained| < |accepted| && accepted[|drained|] == x && x !in drained &&
            x !in accepted[|drained| + 1..] &&
            Flow(accepted, drained + [x], responses[1..], spilled, inHand, requests)
  {
    assert AscendingBody(accepted, bound) by { assert Unfold(0); }
    var x, n := responses[0].id, |drained|;
    assert Ids(responses) == [x] + Ids(responses[1..]);
    assert accepted[n] == x;
    forall i | 0 <= i < n ensures drained[i] != x {
      assert accepted[i] == drained[i];
    }
  }

  lemma TableDrops(table: seq<nat>, table': seq<nat>, accepted: seq<nat>, n: nat, x: nat, k: nat)
    requires TableOk(table, accepted, n) && n < |accepted| && accepted[n] == x != 0
    requires if x in table then k < |table| && table[k] == x && table' == table[k := 0] else table' == table
    ensures TableOk(table', accepted, n + 1) && x !in table'
  {
    assert TableOkBody(table, accepted, n) by { assert Unfold(0); }
    assert accepted[n..] == [x] + accepted[n + 1..];
    forall j | 0 <= j < |table'| && table'[j] != 0 ensures table'[j] in accepted[n + 1..] && table'[j] != x {
      assert table[j] in accepted[n..];
    }
  }

  /** Nobody waits on the identifier, so nobody misses it. */
  lemma NoneLosesId(clients: seq<Client>, table: seq<nat>, table': seq<nat>, issued: map<nat, nat>, nextConn: nat,
      x: nat, k: nat)
    requires ClientsOk(clients, table, issued, nextConn) &&
             forall j :: 0 <= j < |clients| ==> !(clients[j].open && clients[j].waiting && clients[j].id == x)
    requires if x in table then k < |table| && table[k] == x && table' == table[k := 0] else table' == table
    ensures ClientsOk(clients, table', issued, nextConn)
  {
    assert ClientsOkBody(clients, table, issued, nextConn) by { assert Unfold(0); }
    forall j | 0 <= j < |clients| ensures ClientOk(clients[j], table', issued, nextConn) {
      assert ClientOk(clients[j], table, issued, nextConn);
      if clients[j].waiting {
        KeepsOther(table, table', x, k, clients[j].id);
      }
    }
  }

  lemma KeepsOther(table: seq<nat>, table': seq<nat>, x: nat, k: nat, y: nat)
    requires y in table && y != x
    requires if x in table then k < |table| && table[k] == x && table' == table[k := 0] else table' == table
    ensures y in table'
  {
    var j :| 0 <= j < |table| && table[j] == y;
    assert table'[j] == y;
  }

  /** Only the client being answered waits on the identifier. */
  lemma LoseId(clients: seq<Client>, table: seq<nat>, table': seq<nat>, issued: map<nat, nat>, nextConn: nat, x: nat,
      k: nat, i: nat)
    requires ClientsOk(clients, table, issued, nextConn) && i < |clients| && clients[i].waiting && clients[i].id == x
    requires if x in table then k < |table| && table[k] == x && table' == table[k := 0] else table' == table
    ensures clients[i].open && x in issued && issued[x] == clients[i].conn && !clients[i].sending && x in table
    ensures ClientsOk(clients[i := clients[i].(waiting := false)], table', issued, nextConn)
  {
    assert ClientsOkBody(clients, table, issued, nextConn) by { assert Unfold(0); }
    assert ClientOk(clients[i], table, issued, nextConn);
    var clients' := clients[i := clients[i].(waiting := false)];
    forall j | 0 <= j < |clients'|
      ensures ClientOk(clients'[j], table', issued, nextConn) && (j != i ==> clients'[j] == clients[j])
    {
      assert ClientOk(clients[j], table, issued, nextConn);
      if j != i && clients[j].waiting {
        WaitingDiffer(clients, table, issued, nextConn, i, j);
        KeepsOther(table, table', x, k, clients[j].id);
      }
    }
  }

  lemma DeliveredDrain(delivered: seq<Delivery>, drained: seq<nat>, issued: map<nat, nat>, x: nat, body: nat)
    requires DeliveredOk(delivered, drained, issued) && x !in drained
    ensures DeliveredOk(delivered, drained + [x], issued)
    ensures x in issued ==> DeliveredOk(delivered + [Delivery(x, issued[x], body)], drained + [x], issued)
  {
    assert DeliveredOkBody(delivered, drained, issued) by { assert Unfold(0); }
  }

  /** A response moves on through the pipeline: to the ring or to the spill slot. */
  lemma AnswersMove(responses: seq<Response>, spilled: Option<Response>, inHand: Option<Response>,
      delivered: seq<Delivery>, answers: map<nat, nat>, r: Response)
    requires AnswersOk(responses, spilled, inHand, delivered, answers) && (spilled == Some(r) || inHand == Some(r))
    ensures AnswersOk(responses + [r], None, None, delivered, answers)
    ensures spilled == Some(r) ==> AnswersOk(responses + [r], None, inHand, delivered, answers)
    ensures inHand == Some(r) ==>
              AnswersOk(responses + [r], spilled, None, delivered, answers) &&
              AnswersOk(responses, inHand, None, delivered, answers)
  {
    assert AnswersOkBody(responses, spilled, inHand, delivered, answers) by { assert Unfold(0); }
  }

  lemma AnswersPop(responses: seq<Response>, spilled: Option<Response>, inHand: Option<Response>,
      delivered: seq<Delivery>, answers: map<nat, nat>)
    requires AnswersOk(responses, spilled, inHand, delivered, answers) && responses != []
    ensures AnswersOk(responses[1..], spilled, inHand, delivered, answers)
  {
    assert AnswersOkBody(responses, spilled, inHand, delivered, answers) by { assert Unfold(0); }
    forall i | 0 <= i < |responses[1..]| ensures Carries(responses[1..][i], answers) {
      assert Carries(responses[i + 1], answers);
    }
  }

  lemma AnswersDeliver(responses: seq<Response>, spilled: Option<Response>, inHand: Option<Response>,
      delivered: seq<Delivery>, answers: map<nat, nat>, conn: nat)
    requires AnswersOk(responses, spilled, inHand, delivered, answers) && responses != []
    ensures AnswersOk(responses[1..], spilled, inHand, delivered + [Delivery(responses[0].id, conn, responses[0].body)],
            answers)
  {
    assert AnswersOkBody(responses, spilled, inHand, delivered, answers) by { assert Unfold(0); }
    forall i | 0 <= i < |responses[1..]| ensures Carries(responses[1..][i], answers) {
      assert Carries(responses[i + 1], answers);
    }
    assert Carries(responses[0], answers);
  }

  lemma HeadNonzero(v: View)
    requires Sound(v) && v.responses != []
    ensures v.responses[0].id != 0
  {
    Open(v);
    PopFacts(v.accepted, v.drained, v.responses, v.spilled, v.inHand, v.requests, Bound(v.nextRequestId, UINT64_MAX));
  }

  /** With nothing under way every accepted request has been answered. */
  lemma AllDrained(v: View)
    requires Sound(v) && v.responses == [] && v.spilled.None? && v.inHand.None? && v.requests == []
    ensures v.accepted == v.drained
  {
    Open(v);
    assert Ids(v.responses) == [];
  }

  /** A response that is not outstanding has no client waiting on it. */
  lemma NobodyWaits(v: View, x: nat)
    requires Sound(v) && x !in v.outstanding
    ensures forall j :: 0 <= j < |v.clients| ==> !(v.clients[j].open && v.clients[j].waiting && v.clients[j].id == x)
  {
    forall j | 0 <= j < |v.clients| ensures !(v.clients[j].open && v.clients[j].waiting && v.clients[j].id == x) {
      ClientFacts(v, j);
    }
  }

  /** Nobody waits on the oldest response. */
  lemma PopUnclaimed(v: View, table: seq<nat>, k: nat) returns (v': View)
    requires Sound(v) && v.responses != []
    requires var x := v.responses[0].id; if x in v.outstanding then k < |v.outstanding| && v.outstanding[k] == x &&
             table == v.outstanding[k := 0] else table == v.outstanding
    requires forall j ::
               0 <= j < |v.clients| ==>
                 !(v.clients[j].open && v.clients[j].waiting && v.clients[j].id == v.responses[0].id)
    ensures v' == v.(responses := v.responses[1..], outstanding := table, drained := v.drained + [v.responses[0].id]) &&
            Sound(v')
  {
    var x := v.responses[0].id;
    Open(v);
    PopFacts(v.accepted, v.drained, v.responses, v.spilled, v.inHand, v.requests, Bound(v.nextRequestId, UINT64_MAX));
    TableDrops(v.outstanding, table, v.accepted, |v.drained|, x, k);
    DeliveredDrain(v.delivered, v.drained, v.issuedTo, x, 0);
    AnswersPop(v.responses, v.spilled, v.inHand, v.delivered, v.answers);
    NoneLosesId(v.clients, v.outstanding, table, v.issuedTo, v.nextConn, x, k);
    v' := v.(responses := v.responses[1..], outstanding := table, drained := v.drained + [x]);
    Seal(v');
  }

  /** The client waiting on the oldest response gets it. */
  lemma PopClaimed(v: View, table: seq<nat>, k: nat, i: nat, c: Client) returns (v': View)
    requires Sound(v) && v.responses != [] && i < |v.clients| && v.clients[i].waiting &&
             v.clients[i].id == v.responses[0].id && c == v.clients[i].(waiting := false)
    requires var x := v.responses[0].id; if x in v.outstanding then k < |v.outstanding| && v.outstanding[k] == x &&
             table == v.outstanding[k := 0] else table == v.outstanding
    ensures v.clients[i].open && !v.clients[i].sending && Sound(v')
    ensures v' == v.(responses := v.responses[1..], outstanding := table, drained := v.drained + [v.responses[0].id],
            clients := v.clients[i := c],
                     delivered := v.delivered + [Delivery(v.responses[0].id, v.clients[i].conn, v.responses[0].body)])
  {
    var x := v.responses[0].id;
    Open(v);
    PopFacts(v.accepted, v.drained, v.responses, v.spilled, v.inHand, v.requests, Bound(v.nextRequestId, UINT64_MAX));
    TableDrops(v.outstanding, table, v.accepted, |v.drained|, x, k);
    LoseId(v.clients, v.outstanding, table, v.issuedTo, v.nextConn, x, k, i);
    DeliveredDrain(v.delivered, v.drained, v.issuedTo, x, v.responses[0].body);
    AnswersDeliver(v.responses, v.spilled, v.inHand, v.delivered, v.answers, v.clients[i].conn);
    BodyKeeps(v.clients, v.bodyOwner, i, c);
    v' := v.(responses := v.responses[1..], outstanding := table, drained := v.drained + [x],
      clients := v.clients[i := c],
             delivered := v.delivered + [Delivery(x, v.clients[i].conn, v.responses[0].body)]);
    Seal(v');
  }

  /** A new request joins the queue. */
  lemma PushSound(v: View, i: nat, r: Request, c: Client, table: seq<nat>, k: nat) returns (v': View)
    requires Sound(v) && i < |v.clients| && v.clients[i].open && !v.clients[i].waiting && !v.clients[i].sending
    requires (r.command == Positions ==> v.clients[i].ownsBody) && 0 < r.id < Bound(v.nextRequestId, UINT64_MAX) &&
             Below(v.accepted, r.id)
    requires r.command != Submit && k < |v.outstanding| && v.outstanding[k] == 0 && table == v.outstanding[k := r.id] &&
             r.id !in v.outstanding && r.id !in v.accepted
    requires c == v.clients[i].(id := r.id, command := r.command, waiting := true)
    ensures v' == v.(requests := v.requests + [r], clients := v.clients[i := c], outstanding := table,
            accepted := v.accepted + [r.id],
                     issuedTo := v.issuedTo[r.id := c.conn]) && Sound(v')
  {
    var issued := v.issuedTo[r.id := c.conn];
    Open(v);
    OneClient(v.clients, v.outstanding, v.issuedTo, v.nextConn, i);
    ReserveKeeps(v.outstanding, table, r.id, k);
    ChangeClient(v.clients, v.outstanding, table, v.issuedTo, issued, v.nextConn, i, c);
    BodyKeeps(v.clients, v.bodyOwner, i, c);
    AwaitedAppend(v.requests, r);
    AnsweredGrows(v.answers, v.accepted, |Awaited(v.requests)|, r.id);
    TableGrows(v.outstanding, v.accepted, |v.drained|, r.id, k);
    DeliveredGrows(v.delivered, v.drained, v.issuedTo, r.id, c.conn);
    AscendingGrows(v.accepted, Bound(v.nextRequestId, UINT64_MAX), r.id);
    v' := v.(requests := v.requests + [r], clients := v.clients[i := c], outstanding := table,
      accepted := v.accepted + [r.id], issuedTo := issued);
    Seal(v');
  }

  /** What is known of one client. */
  lemma ClientFacts(v: View, i: nat)
    requires Sound(v) && i < |v.clients|
    ensures ClientOk(v.clients[i], v.outstanding, v.issuedTo, v.nextConn) &&
            (v.clients[i].ownsBody <==> v.bodyOwner == Some(i))
  {
    Open(v);
    OneClient(v.clients, v.outstanding, v.issuedTo, v.nextConn, i);
    OwnerAgrees(v.clients, v.bodyOwner, i);
  }

  /** The owner of the shared body when client `i` becomes `c`. */
  ghost function OwnerAfter(owner: Option<nat>, i: nat, owned: bool, owns: bool): Option<nat> {
    if owns == owned then owner else if owns then Some(i) else Freed(owner, i)
  }

  /** One client changes and nothing else. */
  lemma ClientSound(v: View, i: nat, c: Client)
    requires Sound(v) && i < |v.clients| && ClientOk(c, v.outstanding, v.issuedTo, v.nextConn)
    requires !c.open || (v.clients[i].open && c.conn == v.clients[i].conn)
    requires c.ownsBody && !v.clients[i].ownsBody ==> v.bodyOwner.None?
    ensures Sound(v.(clients := v.clients[i := c],
            bodyOwner := OwnerAfter(v.bodyOwner, i, v.clients[i].ownsBody, c.ownsBody)))
  {
    Open(v);
    ChangeClient(v.clients, v.outstanding, v.outstanding, v.issuedTo, v.issuedTo, v.nextConn, i, c);
    if c.ownsBody == v.clients[i].ownsBody {
      BodyKeeps(v.clients, v.bodyOwner, i, c);
    } else if c.ownsBody {
      BodyTakes(v.clients, i, c);
    } else {
      BodyDrops(v.clients, v.bodyOwner, i, c);
    }
    Seal(v.(clients := v.clients[i := c], bodyOwner := OwnerAfter(v.bodyOwner, i, v.clients[i].ownsBody, c.ownsBody)));
  }

  lemma AcceptSound(v: View, i: nat, c: Client)
    requires Sound(v) && i < |v.clients| && !v.clients[i].open &&
             c == Client(true, v.nextConn, 0, Submit, false, false, false)
    ensures Sound(v.(clients := v.clients[i := c], nextConn := v.nextConn + 1))
  {
    ClientFacts(v, i);
    Open(v);
    SetClientOk(v.clients, v.outstanding, v.issuedTo, v.nextConn, i, c);
    BodyKeeps(v.clients, v.bodyOwner, i, c);
    Seal(v.(clients := v.clients[i := c], nextConn := v.nextConn + 1));
  }

  lemma RefuseSound(v: View)
    requires Sound(v)
    ensures Sound(v.(nextConn := v.nextConn + 1))
  {
    Open(v);
    MoreConns(v.clients, v.outstanding, v.issuedTo, v.nextConn);
    Seal(v.(nextConn := v.nextConn + 1));
  }

  lemma FlushSound(v: View)
    requires Sound(v) && v.spilled.Some? && v.inHand.None?
    ensures Sound(v.(responses := v.responses + [v.spilled.value], spilled := None))
  {
    Open(v);
    assert Ids(v.responses + [v.spilled.value]) == Ids(v.responses) + [v.spilled.value.id];
    AnswersMove(v.responses, v.spilled, v.inHand, v.delivered, v.answers, v.spilled.value);
    Seal(v.(responses := v.responses + [v.spilled.value], spilled := None));
  }

  lemma ReplySound(v: View)
    requires Sound(v) && v.inHand.Some?
    ensures v.spilled.None? && Sound(v.(responses := v.responses + [v.inHand.value], inHand := None)) &&
            Sound(v.(spilled := v.inHand, inHand := None))
  {
    Open(v);
    assert Ids(v.responses + [v.inHand.value]) == Ids(v.responses) + [v.inHand.value.id];
    AnswersMove(v.responses, v.spilled, v.inHand, v.delivered, v.answers, v.inHand.value);
    Seal(v.(responses := v.responses + [v.inHand.value], inHand := None));
    Seal(v.(spilled := v.inHand, inHand := None));
  }

  lemma TakeSound(v: View, body: nat)
    requires Sound(v) && v.inHand.None? && v.spilled.None? && v.requests != [] && v.requests[0].command != Submit
    ensures v.requests[0].id !in v.answers
    ensures Sound(v.(requests := v.requests[1..], inHand := Some(Response(v.requests[0].id, body)),
            answers := v.answers[v.requests[0].id := body]))
  {
    Open(v);
    var id := v.requests[0].id;
    AnsweredNew(v.accepted, v.drained, v.responses, v.requests, Bound(v.nextRequestId, UINT64_MAX), v.answers, body);
    AnswersNew(v.responses, v.delivered, v.answers, id, body);
    Seal(v.(requests := v.requests[1..], inHand := Some(Response(id, body)), answers := v.answers[id := body]));
  }

  lemma TakeOrderSound(v: View)
    requires Sound(v) && v.requests != [] && v.requests[0].command == Submit
    ensures Sound(v.(requests := v.requests[1..]))
  {
    Open(v);
    Seal(v.(requests := v.requests[1..]));
  }

  lemma OrderSound(v: View, r: Request)
    requires Sound(v) && r.command == Submit
    ensures Sound(v.(requests := v.requests + [r]))
  {
    Open(v);
    AwaitedAppend(v.requests, r);
    Seal(v.(requests := v.requests + [r]));
  }

  lemma NewIdSound(v: View, after: nat)
    requires Sound(v) && Bound(v.nextRequestId, UINT64_MAX) <= Bound(after, UINT64_MAX)
    ensures Sound(v.(nextRequestId := after)) && Below(v.accepted, Bound(v.nextRequestId, UINT64_MAX))
  {
    Open(v);
    BelowBound(v.accepted, Bound(v.nextRequestId, UINT64_MAX));
    RaiseBound(v.accepted, Bound(v.nextRequestId, UINT64_MAX), Bound(after, UINT64_MAX));
    Seal(v.(nextRequestId := after));
  }

  lemma FreshId(v: View, id: nat)
    requires Sound(v) && id != 0 && Below(v.accepted, id)
    ensures id !in v.outstanding && id !in v.accepted
  {
    Open(v);
    NotYetOut(v.outstanding, v.accepted, |v.drained|, id);
  }

  lemma RestartSound(v: View, clients: seq<Client>, outstanding: seq<nat>)
    requires Sound(v) && (forall i :: 0 <= i < |clients| ==> clients[i] == CLOSED) &&
             forall k :: 0 <= k < |outstanding| ==> outstanding[k] == 0
    ensures Sound(v.(clients := clients, outstanding := outstanding, bodyOwner := None))
  {
    Open(v);
    DrainedCount(v.outstanding, v.accepted, |v.drained|);
    FreshHttp(clients, outstanding, v.accepted, |v.drained|, v.issuedTo, v.nextConn);
    Seal(v.(clients := clients, outstanding := outstanding, bodyOwner := None));
  }

  lemma StartSound(v: View)
    requires v.requests == [] && v.responses == [] && v.spilled == None && v.inHand == None && v.accepted == [] &&
             v.drained == [] && v.delivered == []
    requires v.issuedTo == map[] && v.answers == map[] && v.bodyOwner == None
    requires (forall i :: 0 <= i < |v.clients| ==> v.clients[i] == CLOSED) &&
             forall k :: 0 <= k < |v.outstanding| ==> v.outstanding[k] == 0
    ensures Sound(v)
  {
    FreshHttp(v.clients, v.outstanding, [], 0, map[], v.nextConn);
    assert Ids(v.responses) == [];
    StartParts(v);
    Seal(v);
  }

  lemma StartParts(v: View)
    requires v.accepted == [] && v.drained == [] && v.delivered == [] && v.responses == [] && v.spilled == None &&
             v.inHand == None && v.answers == map[] && v.requests == []
    ensures Ascending(v.accepted, Bound(v.nextRequestId, UINT64_MAX)) && DeliveredOk(v.delivered, v.drained, v.issuedTo)
    ensures AnswersOk(v.responses, v.spilled, v.inHand, v.delivered, v.answers) &&
            AnsweredOk(v.answers, v.accepted, |Awaited(v.requests)|)
  {
  }

  lemma AnsweredGrows(answers: map<nat, nat>, accepted: seq<nat>, waiting: nat, id: nat)
    requires AnsweredOk(answers, accepted, waiting)
    ensures AnsweredOk(answers, accepted + [id], waiting + 1)
  {
    assert waiting <= |accepted| &&
           forall x {:trigger x in answers} ::
             x in answers ==> x in accepted[..|accepted| - waiting] by { assert Unfold(0); }
    assert (accepted + [id])[..|accepted| + 1 - (waiting + 1)] == accepted[..|accepted| - waiting];
  }

  /** The oldest queued request has no answer yet. */
  lemma AnsweredNew(accepted: seq<nat>, drained: seq<nat>, responses: seq<Response>, requests: seq<Request>, bound: nat,
      answers: map<nat, nat>, body: nat)
    requires Flow(accepted, drained, responses, None, None, requests) && Ascending(accepted, bound) &&
             AnsweredOk(answers, accepted, |Awaited(requests)|)
    requires requests != [] && requests[0].command != Submit
    ensures requests[0].id !in answers &&
            AnsweredOk(answers[requests[0].id := body], accepted, |Awaited(requests[1..])|)
  {
    var id, w := requests[0].id, |Awaited(requests)|;
    assert AscendingBody(accepted, bound) by { assert Unfold(0); }
    assert w <= |accepted| && forall x {:trigger x in answers} ::
             x in answers ==> x in accepted[..|accepted| - w] by { assert Unfold(0); }
    assert Awaited(requests) == [id] + Awaited(requests[1..]);
    var n := |accepted| - w;
    assert accepted[n] == id && accepted[..n + 1] == accepted[..n] + [id];
    forall i | 0 <= i < n ensures accepted[i] != id {
    }
    AnsweredMore(answers, accepted, n, id, body, |Awaited(requests[1..])|);
  }

  lemma AnsweredMore(answers: map<nat, nat>, accepted: seq<nat>, n: nat, id: nat, body: nat, waiting: nat)
    requires n < |accepted| && accepted[n] == id && waiting == |accepted| - (n + 1) &&
             forall x {:trigger x in answers} :: x in answers ==> x in accepted[..n]
    ensures AnsweredOk(answers[id := body], accepted, waiting)
  {
    assert accepted[..n + 1] == accepted[..n] + [id];
  }

  lemma AnswersNew(responses: seq<Response>, delivered: seq<Delivery>, answers: map<nat, nat>, id: nat, body: nat)
    requires AnswersOk(responses, None, None, delivered, answers) && id !in answers
    ensures AnswersOk(responses, None, Some(Response(id, body)), delivered, answers[id := body])
  {
    assert AnswersOkBody(responses, None, None, delivered, answers) by { assert Unfold(0); }
    assert AnswersOkBody(responses, None, Some(Response(id, body)), delivered, answers[id := body]);
  }

  predicate Below(ids: seq<nat>, bound: nat) {
    forall k {:trigger ids[k]} :: 0 <= k < |ids| ==> ids[k] < bound
  }

  lemma BelowBound(accepted: seq<nat>, bound: nat)
    requires Ascending(accepted, bound)
    ensures Below(accepted, bound)
  {
    assert AscendingBody(accepted, bound) by { assert Unfold(0); }
  }

  lemma RaiseBound(accepted: seq<nat>, bound: nat, bound': nat)
    requires Ascending(accepted, bound) && bound <= bound'
    ensures Ascending(accepted, bound')
  {
    assert AscendingBody(accepted, bound) by { assert Unfold(0); }
  }

  lemma AscendingGrows(accepted: seq<nat>, bound: nat, id: nat)
    requires Ascending(accepted, bound) && Below(accepted, id) && 0 < id < bound
    ensures Ascending(accepted + [id], bound)
  {
    assert AscendingBody(accepted, bound) by { assert Unfold(0); }
    assert AscendingBody(accepted + [id], bound);
  }

  lemma ReserveKeeps(table: seq<nat>, table': seq<nat>, id: nat, k: nat)
    requires k < |table| && table[k] == 0 && table' == table[k := id]
    ensures id in table' && forall x :: x in table && x != 0 ==> x in table'
  {
    assert table'[k] == id;
    forall x | x in table && x != 0 ensures x in table' {
      var j :| 0 <= j < |table| && table[j] == x;
      assert table'[j] == x;
    }
  }

  lemma OneClient(clients: seq<Client>, outstanding: seq<nat>, issuedTo: map<nat, nat>, nextConn: nat, i: nat)
    requires ClientsOk(clients, outstanding, issuedTo, nextConn) && i < |clients|
    ensures ClientOk(clients[i], outstanding, issuedTo, nextConn)
  {
    assert ClientsOkBody(clients, outstanding, issuedTo, nextConn) by { assert Unfold(0); }
  }

  lemma MoreConns(clients: seq<Client>, outstanding: seq<nat>, issuedTo: map<nat, nat>, nextConn: nat)
    requires ClientsOk(clients, outstanding, issuedTo, nextConn)
    ensures ClientsOk(clients, outstanding, issuedTo, nextConn + 1)
  {
    assert ClientsOkBody(clients, outstanding, issuedTo, nextConn) by { assert Unfold(0); }
    forall i | 0 <= i < |clients| ensures ClientOk(clients[i], outstanding, issuedTo, nextConn + 1) {
      assert ClientOk(clients[i], outstanding, issuedTo, nextConn);
    }
  }

  lemma OwnerAgrees(clients: seq<Client>, owner: Option<nat>, i: nat)
    requires BodyOk(clients, owner) && i < |clients|
    ensures clients[i].ownsBody <==> owner == Some(i)
  {
    assert BodyOkBody(clients, owner) by { assert Unfold(0); }
  }

  lemma BodyDrops(clients: seq<Client>, owner: Option<nat>, i: nat, c: Client)
    requires BodyOk(clients, owner) && i < |clients| && !c.ownsBody
    ensures BodyOk(clients[i := c], Freed(owner, i)) && (clients[i].ownsBody <==> owner == Some(i))
  {
    assert BodyOkBody(clients, owner) by { assert Unfold(0); }
    assert BodyOkBody(clients[i := c], Freed(owner, i));
  }

  lemma BodyKeeps(clients: seq<Client>, owner: Option<nat>, i: nat, c: Client)
    requires BodyOk(clients, owner) && i < |clients| && (c.ownsBody <==> clients[i].ownsBody)
    ensures BodyOk(clients[i := c], owner)
  {
    assert BodyOkBody(clients, owner) by { assert Unfold(0); }
    assert BodyOkBody(clients[i := c], owner);
  }

  lemma BodyTakes(clients: seq<Client>, i: nat, c: Client)
    requires BodyOk(clients, None) && i < |clients| && c.ownsBody
    ensures BodyOk(clients[i := c], Some(i))
  {
    assert BodyOkBody(clients, None) by { assert Unfold(0); }
    assert BodyOkBody(clients[i := c], Some(i));
  }

  lemma DrainedCount(outstanding: seq<nat>, accepted: seq<nat>, drained: nat)
    requires TableOk(outstanding, accepted, drained)
    ensures drained <= |accepted|
  {
    assert TableOkBody(outstanding, accepted, drained) by { assert Unfold(0); }
  }

  lemma FreshHttp(clients: seq<Client>, outstanding: seq<nat>, accepted: seq<nat>, drained: nat,
      issuedTo: map<nat, nat>, nextConn: nat)
    requires forall i :: 0 <= i < |clients| ==> clients[i] == CLOSED
    requires (forall k :: 0 <= k < |outstanding| ==> outstanding[k] == 0) && drained <= |accepted|
    ensures ClientsOk(clients, outstanding, issuedTo, nextConn) && BodyOk(clients, None) &&
            TableOk(outstanding, accepted, drained)
  {
  }

  /** The client waiting on the identifier, if there is one, was given the answer; nobody else was. */
  ghost predicate Delivered(was: seq<Client>, clients: seq<Client>, before: seq<Delivery>, after: seq<Delivery>,
      r: Response) {
    if exists i :: 0 <= i < |was| && was[i].open && was[i].waiting && was[i].id == r.id then
      exists i ::
        0 <= i < |was| && i < |clients| && was[i].waiting && was[i].id == r.id && clients[i].sending &&
        clients[i].conn == was[i].conn && after == before + [Delivery(r.id, was[i].conn, r.body)]
    else after == before
  }

  /** Exactly one answer each, in order: what was drained is a prefix of what was accepted, and
      the rest is still in flight. No identifier is ever accepted twice. */
  lemma InOrderOnce(accepted: seq<nat>, drained: seq<nat>, responses: seq<Response>, spilled: Option<Response>,
      inHand: Option<Response>, requests: seq<Request>, bound: nat)
    requires Flow(accepted, drained, responses, spilled, inHand, requests) && Ascending(accepted, bound)
    ensures drained <= accepted && forall i, j :: 0 <= i < j < |accepted| ==> accepted[i] != accepted[j]
    ensures accepted[|drained|..] == Ids(responses) + IdOf(spilled) + IdOf(inHand) + Awaited(requests)
  {
    assert AscendingBody(accepted, bound) by { assert Unfold(0); }
  }

  /** An answer reaches only the connection that asked, and only once, and is the gateway's. */
  lemma RightClientOnce(responses: seq<Response>, spilled: Option<Response>, inHand: Option<Response>,
      delivered: seq<Delivery>, drained: seq<nat>, issuedTo: map<nat, nat>, answers: map<nat, nat>)
    requires DeliveredOk(delivered, drained, issuedTo) && AnswersOk(responses, spilled, inHand, delivered, answers)
    ensures forall i {:trigger delivered[i]} :: 0 <= i < |delivered| ==>
              delivered[i].id in drained && delivered[i].id in issuedTo &&
              issuedTo[delivered[i].id] == delivered[i].conn &&
              delivered[i].id in answers && answers[delivered[i].id] == delivered[i].body
    ensures forall i, j :: 0 <= i < j < |delivered| ==> delivered[i].id != delivered[j].id
  {
    assert DeliveredOkBody(delivered, drained, issuedTo) &&
           AnswersOkBody(responses, spilled, inHand, delivered, answers) by { assert Unfold(0); }
  }
}
