/** The broker_orders table: its row, the guarded statements of OrdersRepository as functions on the
    table, and the repository itself as a class whose methods execute them. */
module Orders {

  import opened Decimals
  import opened Options
  import Strings

  type Id = int // broker_orders.id

  // The canonical text of a UUID.
  const NIL_UUID := "00000000-0000-0000-0000-000000000000"
  type Uuid = s: string | |s| == 36 witness NIL_UUID

  datatype Status = Pending | Submitted | Partial | Filled | Canceled | Rejected

  datatype Side = Buy | Sell

  datatype Order = Order(
    intent: Uuid,
    tenant: string,
    user: string,
    provider: string,
    symbol: string,
    side: Side,
    target: Dec,
    key: string,
    portfolio: string,
    hold: string,
    status: Status,
    poid: Option<string>, // provider_order_id, NULL until the order is confirmed
    filled: Dec,
    avg: Dec)

  type Table = map<Id, Order>

  // NUMERIC(28, 8) and NUMERIC(28, 4)
  const QUANTITY_SCALE := 8
  const PRICE_SCALE := 4

  function Quantity(d: Dec): Dec {
    Round(d, QUANTITY_SCALE)
  }

  function Price(d: Dec): Dec {
    Round(d, PRICE_SCALE)
  }

  // BrokerOrder.ProviderOrderID as scanOrder fills it
  function PoidText(o: Order): string {
    match o.poid
    case None => ""
    case Some(p) => p
  }

  // The status a Binance order answer maps to; never Pending.
  function MapOrderStatus(raw: string): (s: Status)
    ensures s != Pending
  {
    match Strings.ToUpper(raw)
    case "NEW" => Submitted
    case "PARTIALLY_FILLED" => Partial
    case "FILLED" => Filled
    case "CANCELED" => Canceled
    case "EXPIRED" => Canceled
    case "REJECTED" => Rejected
    case _ => Submitted
  }

  // ---------- statements ----------

  // The UNIQUE trade_intent_id and the partial unique index on (tenant_id, idempotency_key)
  predicate Conflict(a: Order, b: Order) {
    a.intent == b.intent || (a.tenant == b.tenant && a.key == b.key && a.key != "")
  }

  // The row INSERT writes for an order: PENDING, no provider order id, numbers in column scale
  function Reserved(o: Order): Order {
    o.(status := Pending, poid := None,
       target := Quantity(o.target), filled := Quantity(o.filled), avg := Price(o.avg))
  }

  predicate CanInsert(t: Table, id: Id, o: Order) {
    id !in t && forall other :: other in t ==> !Conflict(t[other], o)
  }

  // INSERT ... ON CONFLICT DO NOTHING
  function Insert(t: Table, id: Id, o: Order): Table {
    if CanInsert(t, id, o) then t[id := Reserved(o)] else t
  }

  // UPDATE ... WHERE id = ... AND status = PENDING
  function Confirm(t: Table, id: Id, poid: string, status: Status, filled: Dec, avg: Dec): Table {
    if id in t && t[id].status == Pending
    then t[id := t[id].(poid := Some(poid), status := status, filled := Quantity(filled), avg := Price(avg))]
    else t
  }

  // DELETE ... WHERE id = ... AND status = PENDING
  function Release(t: Table, id: Id): Table {
    if id in t && t[id].status == Pending then t - {id} else t
  }

  predicate IsProviderOrder(o: Order, provider: string, poid: string) {
    o.provider == provider && o.poid == Some(poid)
  }

  // UPDATE ... WHERE provider = ... AND provider_order_id = ...; a NULL id matches nothing
  function UpdateFill(t: Table, provider: string, poid: string, status: Status, filled: Dec, avg: Dec): Table {
    map id | id in t ::
      if IsProviderOrder(t[id], provider, poid)
      then t[id].(status := status, filled := Quantity(filled), avg := Price(avg))
      else t[id]
  }

  predicate IntentIs(t: Table, id: Id, intent: Uuid) {
    id in t && t[id].intent == intent
  }

  predicate KeyIs(t: Table, id: Id, tenant: string, key: string) {
    id in t && t[id].tenant == tenant && t[id].key == key
  }

  predicate ProviderOrderIs(t: Table, id: Id, provider: string, poid: string) {
    id in t && IsProviderOrder(t[id], provider, poid)
  }

  // No two rows share a trade intent or a (tenant, non-empty key).
  ghost predicate Unique(t: Table) {
    forall a, b :: a in t && b in t && a != b ==> !Conflict(t[a], t[b])
  }

  // ---------- what the statements write ----------

  // The row is the request's, field by field; the target as the column takes it.
  ghost predicate HoldsRequest(row: Order, order: Order) {
    && row.intent == order.intent && row.tenant == order.tenant && row.user == order.user
    && row.provider == order.provider && row.symbol == order.symbol && row.side == order.side
    && row.key == order.key && row.portfolio == order.portfolio && row.hold == order.hold
    && V(row.target) == RoundTo(V(order.target), 8)
  }

  // A row that the insert wrote
  ghost predicate FreshRow(row: Order, order: Order) {
    && HoldsRequest(row, order)
    && row.status == Pending && row.poid == None
    && V(row.filled) == RoundTo(V(order.filled), 8)
    && V(row.avg) == RoundTo(V(order.avg), 4)
  }

  // No row has the request's intent, or its tenant and its non-empty key. So orders without a key,
  // or of different tenants, never stand in each other's way unless they share the intent.
  ghost predicate NothingInTheWay(t: Table, order: Order) {
    forall other :: other in t ==>
      && t[other].intent != order.intent
      && (order.key != "" && t[other].tenant == order.tenant ==> t[other].key != order.key)
  }

  // The status is that of the exchange's text in any case.
  lemma StatusOfText(raw: string)
    ensures MapOrderStatus(raw) == Partial <==> Strings.SameLetters(raw, "PARTIALLY_FILLED")
    ensures MapOrderStatus(raw) == Filled <==> Strings.SameLetters(raw, "FILLED")
    ensures MapOrderStatus(raw) == Canceled <==>
              Strings.SameLetters(raw, "CANCELED") || Strings.SameLetters(raw, "EXPIRED")
    ensures MapOrderStatus(raw) == Rejected <==> Strings.SameLetters(raw, "REJECTED")
    ensures MapOrderStatus(raw) in {Submitted, Partial, Filled, Canceled, Rejected}
  {
    hide Strings.SameLetters, Strings.ToUpper;
    UpperText(raw, "PARTIALLY_FILLED");
    UpperText(raw, "FILLED");
    UpperText(raw, "CANCELED");
    UpperText(raw, "EXPIRED");
    UpperText(raw, "REJECTED");
  }

  lemma UpperText(raw: string, name: string)
    requires forall i :: 0 <= i < |name| ==> !('a' <= name[i] <= 'z')
    ensures Strings.ToUpper(raw) == name <==> Strings.SameLetters(raw, name)
  {
    Strings.UpperIff(raw, name);
  }

  // A fill writes status and figures of exactly the rows of that provider order, and nothing else.
  lemma FillWrites(t: Table, provider: string, poid: string, status: Status, filled: Dec, avg: Dec)
    ensures var t' := UpdateFill(t, provider, poid, status, filled, avg);
            && t'.Keys == t.Keys
            && forall id :: id in t ==>
                 if t[id].provider == provider && t[id].poid == Some(poid)
                 then
                   && t'[id].status == status
                   && V(t'[id].filled) == RoundTo(V(filled), 8)
                   && V(t'[id].avg) == RoundTo(V(avg), 4)
                   && t'[id] == t[id].(status := t'[id].status, filled := t'[id].filled, avg := t'[id].avg)
                 else t'[id] == t[id]
  {
    hide V, RoundTo;
  }

  // ---------- what the statements do to each other ----------

  lemma InsertKeepsUnique(t: Table, id: Id, o: Order)
    requires Unique(t)
    ensures Unique(Insert(t, id, o))
    ensures Insert(t, id, o) != t <==> CanInsert(t, id, o)
  {
    assert CanInsert(t, id, o) ==> id in Insert(t, id, o);
  }

  // Releasing a reservation undoes it completely, so that the same order can be reserved again.
  lemma ReleaseUndoesInsert(t: Table, id: Id, o: Order)
    requires CanInsert(t, id, o)
    ensures Release(Insert(t, id, o), id) == t
  {
  }

  // A confirmed reservation cannot be released or confirmed again: the first answer stays.
  lemma ConfirmIsFinal(t: Table, id: Id, poid: string, status: Status, filled: Dec, avg: Dec,
                       poid': string, status': Status, filled': Dec, avg': Dec)
    requires status != Pending
    ensures var t' := Confirm(t, id, poid, status, filled, avg);
            && Release(t', id) == (if id in t && t[id].status == Pending then t' else Release(t, id))
            && (id in t && t[id].status == Pending ==> Confirm(t', id, poid', status', filled', avg') == t')
  {
  }

  // A confirmed order is found under the id the exchange gave it, with the reported figures rounded
  // to the columns, and nothing else in the table has changed.
  lemma ConfirmRecords(t: Table, id: Id, poid: string, status: Status, filled: Dec, avg: Dec)
    requires id in t && t[id].status == Pending
    ensures var t' := Confirm(t, id, poid, status, filled, avg);
            && ProviderOrderIs(t', id, t[id].provider, poid)
            && t'[id].status == status
            && V(t'[id].filled) == RoundTo(V(filled), QUANTITY_SCALE)
            && V(t'[id].avg) == RoundTo(V(avg), PRICE_SCALE)
            && t'[id] == t[id].(poid := t'[id].poid, status := status, filled := t'[id].filled, avg := t'[id].avg)
            && t' - {id} == t - {id}
  {
  }

  // ---------- the repository ----------

  // What a caller learns from a statement. After Failed it does not know whether the statement
  // executed, will still execute, or never does.
  datatype DbResult<+T> = Ok(value: T) | NotFound | Failed

  // up: whether the statement executes and its answer comes back. The row update of a fill, which
  // may execute without its answer coming back, takes a Fate instead.
  datatype Fate = Acknowledged | Unacknowledged | Lost

  class OrdersRepo {
    var rows: Table

    constructor ()
      ensures rows == map[]
    {
      rows := map[];
    }

    method ReserveOrder(id: Id, order: Order, up: bool) returns (r: DbResult<bool>)
      modifies this
      ensures r.Failed? <==> !up
      ensures !r.NotFound?
      ensures r.Ok? ==> r.value == CanInsert(old(rows), id, order) && rows == Insert(old(rows), id, order)
      ensures r.Ok? ==> (r.value <==> id !in old(rows) && NothingInTheWay(old(rows), order))
      ensures r == Ok(true) ==> id in rows && FreshRow(rows[id], order) && rows - {id} == old(rows)
      ensures r == Ok(false) ==> rows == old(rows)
      ensures r.Failed? ==> rows == old(rows)
    {
      if !up { return Failed; }
      var free := id !in rows && forall other :: other in rows ==> !Conflict(rows[other], order);
      if free {
        rows := rows[id := Reserved(order)];
      }
      return Ok(free);
    }

    method GetOrderByIntentID(intent: Uuid, up: bool) returns (r: DbResult<Id>)
      ensures r.Failed? <==> !up
      ensures r.Ok? ==> IntentIs(rows, r.value, intent)
      ensures r.NotFound? ==> forall id :: !IntentIs(rows, id, intent)
    {
      if !up { return Failed; }
      if id :| id in rows && rows[id].intent == intent {
        return Ok(id);
      }
      return NotFound;
    }

    method GetOrderByIdempotencyKey(tenant: string, key: string, up: bool) returns (r: DbResult<Id>)
      ensures r.Failed? <==> !up
      ensures r.Ok? ==> KeyIs(rows, r.value, tenant, key)
      ensures r.NotFound? ==> forall id :: !KeyIs(rows, id, tenant, key)
    {
      if !up { return Failed; }
      if id :| id in rows && rows[id].tenant == tenant && rows[id].key == key {
        return Ok(id);
      }
      return NotFound;
    }

    method GetOrderByProviderOrderID(provider: string, poid: string, up: bool) returns (r: DbResult<Id>)
      ensures r.Failed? <==> !up
      ensures r.Ok? ==> ProviderOrderIs(rows, r.value, provider, poid)
      ensures r.NotFound? ==> forall id :: !ProviderOrderIs(rows, id, provider, poid)
    {
      if !up { return Failed; }
      if id :| id in rows && IsProviderOrder(rows[id], provider, poid) {
        return Ok(id);
      }
      return NotFound;
    }

    method ConfirmOrder(id: Id, poid: string, status: Status, filled: Dec, avg: Dec, up: bool)
      returns (r: DbResult<()>)
      modifies this
      ensures r.Failed? <==> !up
      ensures r.Failed? ==> rows == old(rows)
      ensures !r.Failed? ==> rows == Confirm(old(rows), id, poid, status, filled, avg)
      ensures r.Ok? ==> id in old(rows) && old(rows)[id].status == Pending
      ensures r.NotFound? ==> rows == old(rows) && (id !in rows || rows[id].status != Pending)
    {
      if !up { return Failed; }
      if id !in rows || rows[id].status != Pending {
        return NotFound;
      }
      var row := rows[id].(poid := Some(poid), status := status, filled := Quantity(filled), avg := Price(avg));
      rows := rows[id := row];
      return Ok(());
    }

    method ReleaseOrder(id: Id, up: bool) returns (r: DbResult<()>)
      modifies this
      ensures r.Failed? <==> !up
      ensures !r.NotFound?
      ensures r.Failed? ==> rows == old(rows)
      ensures r.Ok? ==> rows == Release(old(rows), id)
    {
      if !up { return Failed; }
      if id in rows && rows[id].status == Pending {
        rows := rows - {id};
      }
      return Ok(());
    }

    method UpdateOrderFill(provider: string, poid: string, status: Status, filled: Dec, avg: Dec, fate: Fate)
      returns (r: DbResult<()>)
      modifies this
      ensures r.Failed? <==> !fate.Acknowledged?
      ensures rows == if fate.Lost? then old(rows) else UpdateFill(old(rows), provider, poid, status, filled, avg)
      ensures r.NotFound? <==> fate.Acknowledged? && forall id :: !ProviderOrderIs(old(rows), id, provider, poid)
    {
      if fate.Lost? { return Failed; }
      ghost var before := rows;
      rows := map id | id in rows ::
        if IsProviderOrder(rows[id], provider, poid)
        then rows[id].(status := status, filled := Quantity(filled), avg := Price(avg))
        else rows[id];
      if fate.Unacknowledged? { return Failed; }
      if id :| id in rows && IsProviderOrder(rows[id], provider, poid) {
        assert ProviderOrderIs(before, id, provider, poid);
        return Ok(());
      }
      assert forall id :: id in before ==>
        id in rows && IsProviderOrder(before[id], provider, poid) == IsProviderOrder(rows[id], provider, poid);
      return NotFound;
    }
  }
}
