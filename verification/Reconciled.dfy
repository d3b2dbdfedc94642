/** The gateway over the real reconciliation table instead of the finite map it stands for: every
    call the gateway makes on its ledger is made on a table as well, up to the first closing
    fill that another order's probe crosses. */
module Reconciled {
  import opened Folding
  import opened PreTrade
  import opened GatewayState
  import opened Gateway
  import L = Ledger

  /** A fill that closes its order. */
  predicate Closes(r: Request, ledger: map<nat, int>) {
    r.Fill? && r.id in ledger && (r.terminal || r.filled == ledger[r.id])
  }

  /** The request is an honoured closing fill, and another order's probe passes through the slot it clears. */
  ghost predicate Crosses(c: Config, logging: bool, limits: seq<RiskLimits>, shape: L.Shape, r: Request, g: Snapshot,
      ids: seq<nat>)
    requires shape.Valid() && |ids| == shape.capacity
  {
    Honoured(c, logging, limits, r, g) && Closes(r, g.ledger) && !L.Uncrossed(shape, ids, r.id)
  }

  /** The table is sound and stands for the gateway's ledger. */
  ghost predicate Agree(gateway: ExecutionGateway, table: L.ReconciliationLedger)
    reads gateway, table, table.ids, table.remaining
  {
    table.Valid() && table.contents == gateway.ledger && table.g.capacity == gateway.c.ledgerCapacity
  }

  /** The table's part in an admission: the entry is made once every check has passed, and given
      back if a write fails. */
  method Reserve(table: L.ReconciliationLedger, id: nat, qty: int, kept: bool)
    requires table.Valid() && id != 0 && qty > 0 && id !in table.contents && |table.contents| < table.g.capacity
    modifies table, table.ids, table.remaining
    ensures table.Valid()
    ensures table.contents == if kept then old(table.contents)[id := qty] else old(table.contents)
  {
    var made := table.Register(id, qty);
    assert made;
    if !kept {
      var gone := table.Cancel(id);
      assert gone && old(table.contents)[id := qty] - {id} == old(table.contents);
    }
  }

  /** The table's part in a fill. It agrees to every fill the gateway accepts. */
  method Take(table: L.ReconciliationLedger, id: nat, filled: int, terminal: bool) returns (crossed: bool)
    requires table.Valid() && id in table.contents && 0 < filled <= table.contents[id]
    modifies table, table.ids, table.remaining
    ensures table.contents == LedgerFill(old(table.contents), id, filled, terminal).0
    ensures crossed <==>
              (terminal || filled == old(table.contents)[id]) && !L.Uncrossed(table.g, old(table.ids[..]), id)
    ensures table.Valid() <==> !crossed
  {
    table.NoZero();
    var watched := table.Watch(id);
    var slot := table.Find(id);
    crossed := watched && (terminal || filled == table.remaining[slot]);
    var done := table.Apply(id, filled, terminal);
    assert done;
  }

  /** A request was answered `ok` exactly if it is honoured, with its whole effect, or else none; kept folded. */
  ghost predicate Went(c: Config, logging: bool, limits: seq<RiskLimits>, r: Request, g: Snapshot, g': Snapshot,
      ok: bool) {
    forall n :: Unfold(n) ==> Outcome(c, logging, limits, r, g, g') && (ok <==> Honoured(c, logging, limits, r, g))
  }

  lemma OpenWent(c: Config, logging: bool, limits: seq<RiskLimits>, r: Request, g: Snapshot, g': Snapshot, ok: bool)
    requires Went(c, logging, limits, r, g, g', ok)
    ensures Outcome(c, logging, limits, r, g, g') && (ok <==> Honoured(c, logging, limits, r, g))
  {
    assert Unfold(0);
  }

  /** One request on the gateway and its calls on the table. The table gives every answer the
      gateway relies on and stands for its ledger afterwards; it stays sound unless the request
      is a closing fill that another order crosses. */
  method Mirror(gateway: ExecutionGateway, table: L.ReconciliationLedger, r: Request) returns (ok: bool, crossed: bool)
    requires gateway.Valid() && Agree(gateway, table) && (r.Admit? ==> r.intent.id !in gateway.used)
    modifies gateway, gateway.log, table, table.ids, table.remaining
    ensures gateway.Valid() && gateway.limits == old(gateway.limits) &&
            old(gateway.used) <= gateway.used <= old(gateway.used) + (if r.Admit? then NewId(r.intent) else {})
    ensures Went(gateway.c, gateway.logging, gateway.limits, r, old(gateway.Now()), gateway.Now(), ok)
    ensures table.contents == gateway.ledger && (table.Valid() <==> !crossed)
    ensures table.g.Valid() && |old(table.ids[..])| == table.g.capacity
    ensures crossed <==>
              ok && Closes(r, old(gateway.ledger)) && !L.Uncrossed(table.g, old(table.ids[..]), r.id)
  {
    var reaches;
    ok, reaches := Carry(gateway, r);
    assert unchanged(table) && unchanged(table.ids) && unchanged(table.remaining);
    crossed := Follow(table, r, ok, reaches, gateway.ledger);
    assert gateway.Valid();
  }

  /** The gateway's part. */
  method Carry(gateway: ExecutionGateway, r: Request) returns (ok: bool, reaches: bool)
    requires gateway.Valid() && (r.Admit? ==> r.intent.id !in gateway.used)
    modifies gateway, gateway.log
    ensures gateway.Valid() && gateway.limits == old(gateway.limits) &&
            old(gateway.used) <= gateway.used <= old(gateway.used) + (if r.Admit? then NewId(r.intent) else {})
    ensures Went(gateway.c, gateway.logging, gateway.limits, r, old(gateway.Now()), gateway.Now(), ok)
    ensures Ledgered(r, ok, old(gateway.ledger), gateway.ledger) && Fitting(r, ok, old(gateway.ledger))
    ensures r.Admit? && ok ==> reaches
    ensures r.Admit? && reaches ==>
              r.intent.id != 0 && r.intent.qty > 0 && r.intent.id !in old(gateway.ledger) &&
              |old(gateway.ledger)| < gateway.c.ledgerCapacity
  {
    ghost var g := gateway.Now();
    reaches := false;
    if r.Admit? {
      reaches := gateway.WouldReserve(r.intent, r.allowed);
    }
    ok := gateway.Perform(r);
    LedgerAfter(gateway.c, gateway.logging, gateway.limits, r, g, gateway.Now(), ok);
  }

  /** What a request, honoured or not, does to the ledger. */
  ghost predicate Ledgered(r: Request, ok: bool, m: map<nat, int>, m': map<nat, int>) {
    if !ok then m' == m
    else
      match r
      case Admit(intent, _, _, _) => m' == m[intent.id := intent.qty]
      case Fill(_, id, filled, terminal, _, _) => m' == LedgerFill(m, id, filled, terminal).0
      case Cancel(_, id, _, _) => m' == m - {id}
      case Replace(_, id, qty, _, _, _) => m' == m[id := qty]
      case Reject(_, id) => m' == m - {id}
  }

  /** The ledger agrees to what is honoured. */
  ghost predicate Fitting(r: Request, ok: bool, m: map<nat, int>) {
    ok && !r.Admit? ==>
      r.id in m && r.id != 0 && (r.Fill? ==> 0 < r.filled <= m[r.id]) && (r.Replace? ==> r.qty > 0)
  }

  lemma LedgerAfter(c: Config, logging: bool, limits: seq<RiskLimits>, r: Request, g: Snapshot, g': Snapshot, ok: bool)
    requires Coherent(c, g) && Outcome(c, logging, limits, r, g, g') && (ok <==> Honoured(c, logging, limits, r, g))
    requires r.Admit? ==> r.intent.id !in g.used
    ensures Ledgered(r, ok, g.ledger, g'.ledger) && Fitting(r, ok, g.ledger)
    ensures r.Admit? ==> r.intent.id !in g.ledger
  {
    Facts(c, g, r);
  }

  /** The calls of one request on the table. */
  method Follow(table: L.ReconciliationLedger, r: Request, ok: bool, reaches: bool, ghost ledger: map<nat, int>)
      returns (crossed: bool)
    requires table.Valid() && Ledgered(r, ok, table.contents, ledger) && Fitting(r, ok, table.contents)
    requires r.Admit? && ok ==> reaches
    requires r.Admit? && reaches ==>
               r.intent.id != 0 && r.intent.qty > 0 && r.intent.id !in table.contents &&
               |table.contents| < table.g.capacity
    modifies table, table.ids, table.remaining
    ensures table.contents == ledger && (table.Valid() <==> !crossed)
    ensures table.g.Valid() && table.ids.Length == table.g.capacity
    ensures crossed <==>
              ok && Closes(r, old(table.contents)) && !L.Uncrossed(table.g, old(table.ids[..]), r.id)
  {
    crossed := false;
    match r
    case Admit(intent, _, _, _) =>
      if reaches {
        Reserve(table, intent.id, intent.qty, ok);
      }
    case Fill(_, id, filled, terminal, _, _) =>
      if ok {
        crossed := Take(table, id, filled, terminal);
      }
    case Cancel(_, id, _, _) =>
      if ok {
        var gone := table.Cancel(id);
        assert gone;
      }
    case Replace(_, id, qty, _, _, _) =>
      if ok {
        var done := table.Replace(id, qty);
        assert done;
      }
    case Reject(_, id) =>
      if ok {
        var gone := table.Cancel(id);
        assert gone;
      }
  }

  /** What the calls need to know of a coherent state. */
  lemma Facts(c: Config, g: Snapshot, r: Request)
    requires Coherent(c, g)
    ensures !r.Admit? && r.id in g.book ==> r.id in g.ledger && g.ledger[r.id] == g.book[r.id].remaining && r.id != 0
    ensures r.Admit? && r.intent.id !in g.used ==> r.intent.id !in g.ledger
  {
    if !r.Admit? && r.id in g.book {
      OpenInLedger(c, g, r.id);
    }
    if r.Admit? && r.intent.id !in g.used {
      UnusedIsNew(c, g, r.intent.id);
    }
  }

  /** A run on both sides from `first` to `last`: the gateway's trace, and the table's slots before
      each request. Only the last request can be a crossing, and it is one exactly if the run
      ended in one. */
  ghost predicate Alongside(c: Config, logging: bool, limits: seq<RiskLimits>, shape: L.Shape, requests: seq<Request>,
      first: Snapshot, last: Snapshot, trace: seq<Snapshot>, tables: seq<seq<nat>>, crossed: bool) {
    shape.Valid() && |tables| == |requests| && Trail(c, logging, limits, requests, trace) && trace[0] == first &&
    trace[|requests|] == last && (crossed ==> requests != []) &&
    forall i {:trigger tables[i]} :: 0 <= i < |requests| ==>
      |tables[i]| == shape.capacity &&
      (Crosses(c, logging, limits, shape, requests[i], trace[i], tables[i]) <==> crossed && i == |requests| - 1)
  }

  /** The same, folded. */
  ghost predicate Along(c: Config, logging: bool, limits: seq<RiskLimits>, shape: L.Shape, requests: seq<Request>,
      first: Snapshot, last: Snapshot, trace: seq<Snapshot>, tables: seq<seq<nat>>, crossed: bool) {
    forall n :: Unfold(n) ==> Alongside(c, logging, limits, shape, requests, first, last, trace, tables, crossed)
  }

  lemma OpenAlong(c: Config, logging: bool, limits: seq<RiskLimits>, shape: L.Shape, requests: seq<Request>,
      first: Snapshot, last: Snapshot, trace: seq<Snapshot>, tables: seq<seq<nat>>, crossed: bool)
    requires Along(c, logging, limits, shape, requests, first, last, trace, tables, crossed)
    ensures Alongside(c, logging, limits, shape, requests, first, last, trace, tables, crossed)
  {
    assert Unfold(0);
  }

  lemma SealAlong(c: Config, logging: bool, limits: seq<RiskLimits>, shape: L.Shape, requests: seq<Request>,
      first: Snapshot, last: Snapshot, trace: seq<Snapshot>, tables: seq<seq<nat>>, crossed: bool)
    requires Alongside(c, logging, limits, shape, requests, first, last, trace, tables, crossed)
    ensures Along(c, logging, limits, shape, requests, first, last, trace, tables, crossed)
  {
  }

  lemma AlongStarts(c: Config, logging: bool, limits: seq<RiskLimits>, shape: L.Shape, g: Snapshot)
    requires shape.Valid() && Coherent(c, g)
    ensures Along(c, logging, limits, shape, [], g, g, [g], [], false)
  {
    SealAlong(c, logging, limits, shape, [], g, g, [g], [], false);
  }

  lemma AlongGrows(c: Config, logging: bool, limits: seq<RiskLimits>, shape: L.Shape, all: seq<Request>, n: nat,
      first: Snapshot, last: Snapshot, trace: seq<Snapshot>, tables: seq<seq<nat>>, ids: seq<nat>, g: Snapshot,
      crossed: bool)
      returns (trace': seq<Snapshot>, tables': seq<seq<nat>>)
    requires n < |all| && Along(c, logging, limits, shape, all[..n], first, last, trace, tables, false)
    requires Coherent(c, g) && Outcome(c, logging, limits, all[n], last, g)
    requires shape.Valid() && |ids| == shape.capacity &&
             (crossed <==> Crosses(c, logging, limits, shape, all[n], last, ids))
    ensures Along(c, logging, limits, shape, all[..n + 1], first, g, trace', tables', crossed)
  {
    trace', tables' := trace + [g], tables + [ids];
    var requests := all[..n];
    assert all[..n + 1] == requests + [all[n]];
    OpenAlong(c, logging, limits, shape, requests, first, last, trace, tables, false);
    TrailGrows(c, logging, limits, requests, trace, all[n], g);
    forall i {:trigger tables'[i]} | 0 <= i < n + 1
      ensures |tables'[i]| == shape.capacity &&
              (Crosses(c, logging, limits, shape, all[..n + 1][i], trace'[i], tables'[i]) <==> crossed && i == n)
    {
      if i < n {
        assert tables'[i] == tables[i] && trace'[i] == trace[i] && all[..n + 1][i] == requests[i];
      }
    }
    SealAlong(c, logging, limits, shape, all[..n + 1], first, g, trace', tables', crossed);
  }

  /** One request of a run. */
  method MirrorNext(gateway: ExecutionGateway, table: L.ReconciliationLedger, requests: seq<Request>, n: nat,
      ghost first: Snapshot, ghost trace: seq<Snapshot>, ghost tables: seq<seq<nat>>)
    returns (crossed: bool, ghost trace': seq<Snapshot>, ghost tables': seq<seq<nat>>)
    requires gateway.Valid() && Agree(gateway, table) && n < |requests| && Fresh(requests[n..], gateway.used)
    requires Along(gateway.c, gateway.logging, gateway.limits, table.g, requests[..n], first, gateway.Now(), trace,
             tables, false)
    modifies gateway, gateway.log, table, table.ids, table.remaining
    ensures gateway.Valid() && gateway.limits == old(gateway.limits) && Fresh(requests[n + 1..], gateway.used)
    ensures table.contents == gateway.ledger && (table.Valid() <==> !crossed)
    ensures Along(gateway.c, gateway.logging, gateway.limits, table.g, requests[..n + 1], first, gateway.Now(), trace',
            tables', crossed)
  {
    ghost var g, ids, had := gateway.Now(), table.ids[..], gateway.used;
    assert requests[n..][0] == requests[n];
    var ok, met := Mirror(gateway, table, requests[n]);
    OpenWent(gateway.c, gateway.logging, gateway.limits, requests[n], g, gateway.Now(), ok);
    FreshNext(requests, n, had, gateway.used);
    trace', tables' := AlongGrows(gateway.c, gateway.logging, gateway.limits, table.g, requests, n, first, g, trace,
      tables, ids, gateway.Now(), met);
    crossed := met;
  }

  /** The gateway over the real table. Until a closing fill is crossed by another order's probe the
      table is sound, gives the gateway every answer the finite map would give, and stands for
      the gateway's ledger; the run stops at the first crossing, with the same open orders still
      in the table but at least one of them out of reach. */
  method RunBoth(gateway: ExecutionGateway, table: L.ReconciliationLedger, requests: seq<Request>)
      returns (n: nat, crossed: bool, ghost trace: seq<Snapshot>, ghost tables: seq<seq<nat>>)
    requires gateway.Valid() && Agree(gateway, table) && Fresh(requests, gateway.used)
    modifies gateway, gateway.log, table, table.ids, table.remaining
    ensures gateway.Valid() && n <= |requests| && (!crossed ==> n == |requests|)
    ensures table.contents == gateway.ledger && (table.Valid() <==> !crossed)
    ensures Alongside(gateway.c, gateway.logging, gateway.limits, table.g, requests[..n], old(gateway.Now()),
            gateway.Now(), trace, tables, crossed)
  {
    ghost var first := gateway.Now();
    trace, tables, n, crossed := [first], [], 0, false;
    assert requests[..0] == [] && requests[0..] == requests;
    AlongStarts(gateway.c, gateway.logging, gateway.limits, table.g, first);
    while n < |requests| && !crossed
      invariant n <= |requests| && gateway.Valid() && Fresh(requests[n..], gateway.used)
      invariant table.contents == gateway.ledger && (table.Valid() <==> !crossed)
      invariant Along(gateway.c, gateway.logging, gateway.limits, table.g, requests[..n], first, gateway.Now(), trace,
                tables, crossed)
    {
      crossed, trace, tables := MirrorNext(gateway, table, requests, n, first, trace, tables);
      n := n + 1;
    }
    OpenAlong(gateway.c, gateway.logging, gateway.limits, table.g, requests[..n], first, gateway.Now(), trace, tables,
      crossed);
  }
}
