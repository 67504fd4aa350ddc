/**
 Public references. Each creator counts its tenant's rows and numbers the new row after them:
 tickets come from requesters, from service requests and from assets, and share one sequence.
 */
module References {
  import opened Wrappers
  import opened Decimal

  type Tenant = nat

  datatype Row = Row(tenant: Tenant, ref: string)

  /** A request remembers the ticket generated for it. */
  datatype Request = Request(row: Row, ticket: Option<string>)

  datatype Tables = Tables(tickets: seq<Row>, requests: seq<Request>, assets: seq<Row>)

  function Count(rows: seq<Row>, tenant: Tenant): nat {
    if rows == [] then 0
    else Count(rows[..|rows| - 1], tenant) + (if rows[|rows| - 1].tenant == tenant then 1 else 0)
  }

  function RequestRows(requests: seq<Request>): seq<Row> {
    seq(|requests|, i requires 0 <= i < |requests| => requests[i].row)
  }

  function TicketRef(n: nat): string {
    "TKT-" + Digits(n + 1001)
  }

  function RequestRef(n: nat): string {
    "REQ-" + PadSix(Digits(n + 1))
  }

  function AssetRef(n: nat): string {
    "AST-" + PadSix(Digits(n + 1))
  }

  function NewTicket(t: Tables, tenant: Tenant): Row {
    Row(tenant, TicketRef(Count(t.tickets, tenant)))
  }

  datatype Op =
    | CreateTicket(tenant: Tenant)
    | TicketFromRequest(request: nat)
    | TicketFromAsset(asset: nat)
    | CreateRequest(tenant: Tenant)
    | CreateAsset(tenant: Tenant)

  /** A request that has its ticket gets no second one; an unknown request or asset gets none. */
  function Next(t: Tables, op: Op): Tables {
    match op
    case CreateTicket(tenant) => t.(tickets := t.tickets + [NewTicket(t, tenant)])
    case TicketFromRequest(i) =>
      if i >= |t.requests| || t.requests[i].ticket.Some? then t
      else
        var ticket := NewTicket(t, t.requests[i].row.tenant);
        t.(tickets := t.tickets + [ticket], requests := t.requests[i := t.requests[i].(ticket := Some(ticket.ref))])
    case TicketFromAsset(i) =>
      if i >= |t.assets| then t else t.(tickets := t.tickets + [NewTicket(t, t.assets[i].tenant)])
    case CreateRequest(tenant) =>
      t.(requests := t.requests + [Request(Row(tenant, RequestRef(Count(RequestRows(t.requests), tenant))), None)])
    case CreateAsset(tenant) => t.(assets := t.assets + [Row(tenant, AssetRef(Count(t.assets, tenant)))])
  }

  function Run(ops: seq<Op>): Tables {
    if ops == [] then Tables([], [], []) else Next(Run(ops[..|ops| - 1]), ops[|ops| - 1])
  }

  // ------------------------------------------------------------------
  // The creators
  // ------------------------------------------------------------------

  class ReferenceStore {
    var tickets: seq<Row>
    var requests: seq<Request>
    var assets: seq<Row>

    ghost function View(): Tables
      reads this
    {
      Tables(tickets, requests, assets)
    }

    constructor ()
      ensures View() == Run([])
    {
      tickets, requests, assets := [], [], [];
    }

    method CountRows(rows: seq<Row>, tenant: Tenant) returns (n: nat)
      ensures n == Count(rows, tenant)
    {
      n := 0;
      for i := 0 to |rows|
        invariant n == Count(rows[..i], tenant)
      {
        assert rows[..i + 1][..i] == rows[..i];
        if rows[i].tenant == tenant {
          n := n + 1;
        }
      }
      assert rows[..|rows|] == rows;
    }

    method InsertTicket(tenant: Tenant) returns (ref: string)
      modifies this`tickets
      ensures tickets == old(tickets) + [NewTicket(old(View()), tenant)] && ref == NewTicket(old(View()), tenant).ref
    {
      var count := CountRows(tickets, tenant);
      ref := "TKT-" + Digits(count + 1001);
      tickets := tickets + [Row(tenant, ref)];
    }

    method CreateTicket(tenant: Tenant) returns (ref: string)
      modifies this
      ensures View() == Next(old(View()), Op.CreateTicket(tenant))
    {
      ref := InsertTicket(tenant);
    }

    method GenerateTicket(request: nat) returns (ref: Option<string>)
      modifies this
      ensures View() == Next(old(View()), TicketFromRequest(request))
      ensures ref.Some? <==> request < |requests|
      ensures request < |requests| ==> requests[request].ticket == ref
    {
      if request >= |requests| {
        return None;
      }
      if requests[request].ticket.Some? {
        return requests[request].ticket;
      }
      var publicRef := InsertTicket(requests[request].row.tenant);
      requests := requests[request := requests[request].(ticket := Some(publicRef))];
      return Some(publicRef);
    }

    method CreateTicketFromAsset(asset: nat) returns (ref: Option<string>)
      modifies this
      ensures View() == Next(old(View()), TicketFromAsset(asset))
    {
      if asset >= |assets| {
        return None;
      }
      var publicRef := InsertTicket(assets[asset].tenant);
      return Some(publicRef);
    }

    method CreateRequest(tenant: Tenant) returns (ref: string)
      modifies this
      ensures View() == Next(old(View()), Op.CreateRequest(tenant))
    {
      var count := CountRows(RequestRows(requests), tenant);
      ref := "REQ-" + PadSix(Digits(count + 1));
      requests := requests + [Request(Row(tenant, ref), None)];
    }

    method CreateAsset(tenant: Tenant) returns (ref: string)
      modifies this
      ensures View() == Next(old(View()), Op.CreateAsset(tenant))
    {
      var count := CountRows(assets, tenant);
      ref := "AST-" + PadSix(Digits(count + 1));
      assets := assets + [Row(tenant, ref)];
    }
  }

  // ------------------------------------------------------------------
  // Sequences without gaps or repeats
  // ------------------------------------------------------------------

  ghost predicate NumberedAt(rows: seq<Row>, name: nat -> string, i: nat)
    requires i < |rows|
  {
    rows[i].ref == name(Count(rows[..i], rows[i].tenant))
  }

  /** Each row is numbered by how many rows of its tenant came before it. */
  ghost predicate Numbered(rows: seq<Row>, name: nat -> string) {
    forall i :: 0 <= i < |rows| ==> NumberedAt(rows, name, i)
  }

  ghost predicate Injective(name: nat -> string) {
    forall m: nat, n: nat :: name(m) == name(n) ==> m == n
  }

  lemma NumberedGrows(rows: seq<Row>, name: nat -> string, row: Row)
    requires Numbered(rows, name) && row.ref == name(Count(rows, row.tenant))
    ensures Numbered(rows + [row], name)
  {
    var more := rows + [row];
    forall i | 0 <= i < |more| ensures NumberedAt(more, name, i) {
      assert more[..i] == rows[..i];
      if i < |rows| {
        assert NumberedAt(rows, name, i);
      } else {
        assert rows[..i] == rows;
      }
    }
  }

  lemma NumberedShrinks(rows: seq<Row>, name: nat -> string, n: nat)
    requires Numbered(rows, name) && n <= |rows|
    ensures Numbered(rows[..n], name)
  {
    forall i | 0 <= i < n ensures NumberedAt(rows[..n], name, i) {
      assert rows[..n][..i] == rows[..i];
      assert NumberedAt(rows, name, i);
    }
  }

  lemma {:induction false} CountGrows(rows: seq<Row>, i: nat, j: nat, tenant: Tenant)
    requires i <= j <= |rows|
    ensures Count(rows[..i], tenant) <= Count(rows[..j], tenant)
    ensures i < j && rows[i].tenant == tenant ==> Count(rows[..i], tenant) < Count(rows[..j], tenant)
    decreases j
  {
    if i < j {
      assert rows[..j][..j - 1] == rows[..j - 1];
      CountGrows(rows, i, j - 1, tenant);
    }
  }

  /** A tenant's rows carry different references. */
  lemma NumberedIsDistinct(rows: seq<Row>, name: nat -> string, i: nat, j: nat)
    requires Numbered(rows, name) && Injective(name) && i < j < |rows| && rows[i].tenant == rows[j].tenant
    ensures rows[i].ref != rows[j].ref
  {
    CountGrows(rows, i, j, rows[i].tenant);
    assert NumberedAt(rows, name, i) && NumberedAt(rows, name, j);
  }

  /** Every number below the tenant's count is some row's number. */
  lemma {:induction false} NumberedHasNoGaps(rows: seq<Row>, name: nat -> string, tenant: Tenant, n: nat) returns (i: nat)
    requires Numbered(rows, name) && n < Count(rows, tenant)
    ensures i < |rows| && rows[i].tenant == tenant && rows[i].ref == name(n)
    decreases |rows|
  {
    var last := |rows| - 1;
    if n < Count(rows[..last], tenant) {
      NumberedShrinks(rows, name, last);
      i := NumberedHasNoGaps(rows[..last], name, tenant, n);
    } else {
      i := last;
      assert NumberedAt(rows, name, last);
    }
  }

  lemma TicketRefsInjective()
    ensures Injective(TicketRef)
  {
    forall m: nat, n: nat | TicketRef(m) == TicketRef(n) ensures m == n {
      SamePrefix("TKT-", Digits(m + 1001), Digits(n + 1001));
      DigitsInjective(m + 1001, n + 1001);
    }
  }

  lemma RequestRefsInjective()
    ensures Injective(RequestRef)
  {
    forall m: nat, n: nat | RequestRef(m) == RequestRef(n) ensures m == n {
      SamePrefix("REQ-", PadSix(Digits(m + 1)), PadSix(Digits(n + 1)));
      PaddedDigitsInjective(m + 1, n + 1);
    }
  }

  lemma AssetRefsInjective()
    ensures Injective(AssetRef)
  {
    forall m: nat, n: nat | AssetRef(m) == AssetRef(n) ensures m == n {
      SamePrefix("AST-", PadSix(Digits(m + 1)), PadSix(Digits(n + 1)));
      PaddedDigitsInjective(m + 1, n + 1);
    }
  }

  ghost predicate AllNumbered(t: Tables) {
    Numbered(t.tickets, TicketRef) && Numbered(RequestRows(t.requests), RequestRef) && Numbered(t.assets, AssetRef)
  }

  lemma NextIsNumbered(t: Tables, op: Op)
    requires AllNumbered(t)
    ensures AllNumbered(Next(t, op))
  {
    match op
    case CreateTicket(tenant) => NumberedGrows(t.tickets, TicketRef, NewTicket(t, tenant));
    case TicketFromRequest(i) =>
      if i < |t.requests| {
        NumberedGrows(t.tickets, TicketRef, NewTicket(t, t.requests[i].row.tenant));
        assert RequestRows(Next(t, op).requests) == RequestRows(t.requests);
      }
    case TicketFromAsset(i) =>
      if i < |t.assets| { NumberedGrows(t.tickets, TicketRef, NewTicket(t, t.assets[i].tenant)); }
    case CreateRequest(tenant) =>
      var row := Row(tenant, RequestRef(Count(RequestRows(t.requests), tenant)));
      NumberedGrows(RequestRows(t.requests), RequestRef, row);
      assert RequestRows(Next(t, op).requests) == RequestRows(t.requests) + [row];
    case CreateAsset(tenant) =>
      NumberedGrows(t.assets, AssetRef, Row(tenant, AssetRef(Count(t.assets, tenant))));
  }

  lemma {:induction false} RunIsNumbered(ops: seq<Op>)
    ensures AllNumbered(Run(ops))
    decreases |ops|
  {
    if ops != [] {
      RunIsNumbered(ops[..|ops| - 1]);
      NextIsNumbered(Run(ops[..|ops| - 1]), ops[|ops| - 1]);
    }
  }

  /** A tenant's row carries one of the first Count references. */
  lemma NumberedIsInRange(rows: seq<Row>, name: nat -> string, i: nat) returns (n: nat)
    requires Numbered(rows, name) && i < |rows|
    ensures n < Count(rows, rows[i].tenant) && rows[i].ref == name(n)
  {
    CountGrows(rows, i, |rows|, rows[i].tenant);
    assert rows[..|rows|] == rows;
    n := Count(rows[..i], rows[i].tenant);
    assert NumberedAt(rows, name, i);
  }

  ghost predicate Carries(rows: seq<Row>, tenant: Tenant, ref: string) {
    exists i :: 0 <= i < |rows| && rows[i] == Row(tenant, ref)
  }

  /** One of the first n ticket references, TKT-1001 to TKT-(1000 + n). */
  ghost predicate AmongFirst(ref: string, n: nat) {
    exists k: nat :: 1001 <= k <= 1000 + n && ref == "TKT-" + Digits(k)
  }

  lemma FirstTickets(ref: string, n: nat)
    ensures AmongFirst(ref, n) <==> exists k: nat :: k < n && ref == TicketRef(k)
  {
    if k: nat :| 1001 <= k <= 1000 + n && ref == "TKT-" + Digits(k) {
      assert k - 1001 < n && ref == TicketRef(k - 1001);
    }
  }

  /** One of the first n references of a padded kind, from prefix 000001 on. */
  ghost predicate AmongPadded(prefix: string, ref: string, n: nat) {
    exists k: nat :: 1 <= k <= n && ref == prefix + PadSix(Digits(k))
  }

  /**
   However tickets are created, a tenant's n tickets carry exactly the references TKT-1001 to
   TKT-(1000 + n).
   */
  lemma {:induction false} TicketReferencesAreExactly(ops: seq<Op>, tenant: Tenant, ref: string)
    ensures Carries(Run(ops).tickets, tenant, ref) <==> AmongFirst(ref, Count(Run(ops).tickets, tenant))
  {
    var rows := Run(ops).tickets;
    RunIsNumbered(ops);
    FirstTickets(ref, Count(rows, tenant));
    assert Numbered(rows, TicketRef);
    if Carries(rows, tenant, ref) {
      var i :| 0 <= i < |rows| && rows[i] == Row(tenant, ref);
      var n := NumberedIsInRange(rows, TicketRef, i);
    }
    if AmongFirst(ref, Count(rows, tenant)) {
      var k: nat :| k < Count(rows, tenant) && ref == TicketRef(k);
      var i := NumberedHasNoGaps(rows, TicketRef, tenant, k);
      assert rows[i] == Row(tenant, ref);
    }
  }

  lemma NumberedIsPadded(rows: seq<Row>, name: nat -> string, prefix: string, tenant: Tenant, ref: string)
    requires Numbered(rows, name) && forall n: nat :: name(n) == prefix + PadSix(Digits(n + 1))
    ensures Carries(rows, tenant, ref) <==> AmongPadded(prefix, ref, Count(rows, tenant))
  {
    if Carries(rows, tenant, ref) {
      var i :| 0 <= i < |rows| && rows[i] == Row(tenant, ref);
      var n := NumberedIsInRange(rows, name, i);
      assert ref == prefix + PadSix(Digits(n + 1));
    }
    if AmongPadded(prefix, ref, Count(rows, tenant)) {
      var k: nat :| 1 <= k <= Count(rows, tenant) && ref == prefix + PadSix(Digits(k));
      var i := NumberedHasNoGaps(rows, name, tenant, k - 1);
      assert rows[i] == Row(tenant, ref);
    }
  }

  /** A tenant's n requests carry exactly REQ-000001 to REQ-n, its n assets exactly AST-000001 to AST-n. */
  lemma PaddedReferencesAreExactly(ops: seq<Op>, tenant: Tenant, ref: string)
    ensures
      var rows := RequestRows(Run(ops).requests);
      Carries(rows, tenant, ref) <==> AmongPadded("REQ-", ref, Count(rows, tenant))
    ensures
      var rows := Run(ops).assets;
      Carries(rows, tenant, ref) <==> AmongPadded("AST-", ref, Count(rows, tenant))
  {
    RunIsNumbered(ops);
    NumberedIsPadded(RequestRows(Run(ops).requests), RequestRef, "REQ-", tenant, ref);
    NumberedIsPadded(Run(ops).assets, AssetRef, "AST-", tenant, ref);
  }

  /** No two tickets of a tenant share a reference. */
  lemma TicketReferencesAreDistinct(ops: seq<Op>, i: nat, j: nat)
    requires var rows := Run(ops).tickets; i < j < |rows| && rows[i].tenant == rows[j].tenant
    ensures Run(ops).tickets[i].ref != Run(ops).tickets[j].ref
  {
    RunIsNumbered(ops);
    TicketRefsInjective();
    NumberedIsDistinct(Run(ops).tickets, TicketRef, i, j);
  }

  /** Request and asset references of a tenant never repeat, also past six digits. */
  lemma PaddedReferencesAreDistinct(ops: seq<Op>, i: nat, j: nat)
    ensures var t := Run(ops);
      && (i < j < |t.requests| && t.requests[i].row.tenant == t.requests[j].row.tenant ==>
            t.requests[i].row.ref != t.requests[j].row.ref)
      && (i < j < |t.assets| && t.assets[i].tenant == t.assets[j].tenant ==> t.assets[i].ref != t.assets[j].ref)
  {
    var t := Run(ops);
    RunIsNumbered(ops);
    RequestRefsInjective();
    AssetRefsInjective();
    if i < j < |t.requests| && t.requests[i].row.tenant == t.requests[j].row.tenant {
      NumberedIsDistinct(RequestRows(t.requests), RequestRef, i, j);
    }
    if i < j < |t.assets| && t.assets[i].tenant == t.assets[j].tenant {
      NumberedIsDistinct(t.assets, AssetRef, i, j);
    }
  }

  /** The rows of a tenant. */
  ghost function OfTenant(rows: seq<Row>, tenant: Tenant): set<nat> {
    set i: nat | i < |rows| && rows[i].tenant == tenant
  }

  lemma {:induction false} CountIsSize(rows: seq<Row>, tenant: Tenant)
    ensures Count(rows, tenant) == |OfTenant(rows, tenant)|
    decreases |rows|
  {
    if rows != [] {
      var last := |rows| - 1;
      CountIsSize(rows[..last], tenant);
      if rows[last].tenant == tenant {
        assert OfTenant(rows, tenant) == OfTenant(rows[..last], tenant) + {last};
      } else {
        assert OfTenant(rows, tenant) == OfTenant(rows[..last], tenant);
      }
    }
  }

  /** One more ticket, for the tenant, and nothing else. */
  ghost predicate OneMoreTicket(before: seq<Row>, after: seq<Row>, tenant: Tenant) {
    |after| == |before| + 1 && after[..|before|] == before && after[|before|].tenant == tenant
  }

  /** Every ticket created is one more for its tenant. */
  lemma TicketsAreAddedOneByOne(ops: seq<Op>, tenant: Tenant)
    ensures
      var t, after := Run(ops), Run(ops + [Op.CreateTicket(tenant)]);
      after.requests == t.requests && after.assets == t.assets && OneMoreTicket(t.tickets, after.tickets, tenant)
  {
    RunOneMore(ops, Op.CreateTicket(tenant));
  }

  /** A request gets a ticket only if it has none, and remembers it. */
  lemma RequestGetsOneTicket(ops: seq<Op>, i: nat)
    ensures
      var t, after := Run(ops), Run(ops + [TicketFromRequest(i)]);
      if i < |t.requests| && t.requests[i].ticket == None then
        && after.assets == t.assets && OneMoreTicket(t.tickets, after.tickets, t.requests[i].row.tenant)
        && after.requests == t.requests[i := Request(t.requests[i].row, Some(after.tickets[|t.tickets|].ref))]
      else after == t
  {
    RunOneMore(ops, TicketFromRequest(i));
  }

  /** A known asset gets one more ticket each time. */
  lemma AssetGetsATicket(ops: seq<Op>, i: nat)
    ensures
      var t, after := Run(ops), Run(ops + [TicketFromAsset(i)]);
      if i < |t.assets| then
        after.requests == t.requests && after.assets == t.assets && OneMoreTicket(t.tickets, after.tickets, t.assets[i].tenant)
      else after == t
  {
    RunOneMore(ops, TicketFromAsset(i));
  }

  lemma RequestsAndAssetsAreAddedOneByOne(ops: seq<Op>, tenant: Tenant)
    ensures
      var t, after := Run(ops), Run(ops + [CreateRequest(tenant)]);
      && after.tickets == t.tickets && after.assets == t.assets
      && |after.requests| == |t.requests| + 1 && after.requests[..|t.requests|] == t.requests
      && after.requests[|t.requests|].row.tenant == tenant && after.requests[|t.requests|].ticket == None
    ensures
      var t, after := Run(ops), Run(ops + [CreateAsset(tenant)]);
      && after.tickets == t.tickets && after.requests == t.requests
      && |after.assets| == |t.assets| + 1 && after.assets[..|t.assets|] == t.assets
      && after.assets[|t.assets|].tenant == tenant
  {
    RunOneMore(ops, CreateRequest(tenant));
    RunOneMore(ops, CreateAsset(tenant));
  }

  lemma RunOneMore(ops: seq<Op>, op: Op)
    ensures Run(ops + [op]) == Next(Run(ops), op)
  {
    assert (ops + [op])[..|ops|] == ops;
  }
}
