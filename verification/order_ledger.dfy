/** The rows of the `orders`, `order_events` and `audit_logs` tables, the
    administrative order form, and the pure row operations the handlers'
    SQL statements perform. Timestamps (`CURRENT_TIMESTAMP`) are plain
    integers supplied by the caller; a NULL text column is the empty string. */
module OrderLedger {
  import opened Wrappers
  import opened Text

  /** A row of `orders`. */
  datatype Order = Order(
    id: int,
    customerName: string,
    phone: string,
    deliveryArea: string,
    items: string,
    totalAmount: int,
    status: string,
    reference: string,
    paymentMethod: string,
    paymentStatus: string,
    sourceChannel: string,
    legalNotes: string,
    notes: string,
    customerId: Option<int>,
    createdAt: int,
    updatedAt: int)

  /** A row of `order_events`: one step of an order's status history. */
  datatype OrderEvent = OrderEvent(
    id: int,
    orderId: int,
    status: string,
    note: string,
    actorType: string,
    actorId: Option<int>,
    createdAt: int)

  /** A row of `audit_logs`: one privileged or customer action. */
  datatype AuditEntry = AuditEntry(
    id: int,
    actorType: string,
    actorId: Option<int>,
    action: string,
    entityType: string,
    entityId: int,
    details: string,
    createdAt: int)

  /** The `total_amount` form field: blank, a number (in minor units), or text
      that `float()` rejects. */
  datatype AmountInput = BlankAmount | Amount(minor: int) | NotANumber

  /** The administrative order form as posted; `status` is `None` when the
      field is absent (`request.form.get("status", "New")`). */
  datatype OrderForm = OrderForm(
    customerName: string,
    phone: string,
    deliveryArea: string,
    items: string,
    total: AmountInput,
    status: Option<string>,
    reference: string,
    paymentMethod: string,
    paymentStatus: string,
    sourceChannel: string,
    legalNotes: string,
    notes: string)

  /** Why a create or edit request wrote nothing. */
  datatype Rejection = EmptyCart | MissingFields | BadTotal

  /** The validation of the administrative form: required fields first, then
      the total; `None` when the form is accepted. */
  function CheckForm(f: OrderForm): (r: Option<Rejection>)
    ensures r == Some(MissingFields) <==>
              Blank(f.customerName) || Blank(f.phone) || Blank(f.deliveryArea) || Blank(f.items)
    ensures r == Some(BadTotal) <==>
              !(Blank(f.customerName) || Blank(f.phone) || Blank(f.deliveryArea) || Blank(f.items))
              && f.total.NotANumber?
    ensures r != Some(EmptyCart)
  {
    if Blank(f.customerName) || Blank(f.phone) || Blank(f.deliveryArea) || Blank(f.items) then Some(MissingFields)
    else if f.total.NotANumber? then Some(BadTotal)
    else None
  }

  /** `float(total_raw or 0)` for a total that parsed. */
  function FormTotal(a: AmountInput): (v: int)
    requires !a.NotANumber?
    ensures a.BlankAmount? ==> v == 0
    ensures a.Amount? ==> v == a.minor
  {
    match a
    case BlankAmount => 0
    case Amount(m) => m
  }

  /** An order row whose editable columns come from the form. */
  function ApplyForm(o: Order, f: OrderForm, reference: string, now: int): (r: Order)
    requires !f.total.NotANumber?
    ensures r.id == o.id && r.customerId == o.customerId && r.createdAt == o.createdAt
    ensures r.updatedAt == now && r.reference == reference
    ensures r.status == f.status.GetOr("New") && r.totalAmount == FormTotal(f.total)
    ensures r.customerName == Trim(f.customerName) && r.phone == Trim(f.phone)
    ensures r.deliveryArea == Trim(f.deliveryArea) && r.items == Trim(f.items)
    ensures r.paymentMethod == OrDefault(f.paymentMethod, "Cash")
    ensures r.paymentStatus == OrDefault(f.paymentStatus, "Unpaid")
    ensures r.sourceChannel == OrDefault(f.sourceChannel, "Admin")
    ensures r.legalNotes == Trim(f.legalNotes) && r.notes == Trim(f.notes)
  {
    o.(customerName := Trim(f.customerName),
       phone := Trim(f.phone),
       deliveryArea := Trim(f.deliveryArea),
       items := Trim(f.items),
       totalAmount := FormTotal(f.total),
       status := f.status.GetOr("New"),
       reference := reference,
       paymentMethod := OrDefault(f.paymentMethod, "Cash"),
       paymentStatus := OrDefault(f.paymentStatus, "Unpaid"),
       sourceChannel := OrDefault(f.sourceChannel, "Admin"),
       legalNotes := Trim(f.legalNotes),
       notes := Trim(f.notes),
       updatedAt := now)
  }

  /** Ids that strictly increase along the table. */
  predicate IdsIncrease(orders: seq<Order>) {
    forall i, j :: 0 <= i < j < |orders| ==> orders[i].id < orders[j].id
  }

  /** Ids strictly increase along the table and stay in `[1, next)`: what an
      AUTOINCREMENT key whose next value is `next` guarantees. */
  predicate OrdersAscending(orders: seq<Order>, next: int) {
    && IdsIncrease(orders)
    && (forall i :: 0 <= i < |orders| ==> 1 <= orders[i].id < next)
  }

  predicate EventsAscending(events: seq<OrderEvent>, next: int) {
    && (forall i, j :: 0 <= i < j < |events| ==> events[i].id < events[j].id)
    && (forall i :: 0 <= i < |events| ==> 1 <= events[i].id < next)
  }

  predicate AuditsAscending(audits: seq<AuditEntry>, next: int) {
    && (forall i, j :: 0 <= i < j < |audits| ==> audits[i].id < audits[j].id)
    && (forall i :: 0 <= i < |audits| ==> 1 <= audits[i].id < next)
  }

  /** `SELECT * FROM orders WHERE id = ?`: the position of the order, if any. */
  function FindOrder(orders: seq<Order>, id: int): (r: Option<nat>)
    ensures r.Some? ==> r.value < |orders| && orders[r.value].id == id
    ensures r.None? <==> forall k :: 0 <= k < |orders| ==> orders[k].id != id
  {
    if orders == [] then None
    else if orders[0].id == id then Some(0)
    else match FindOrder(orders[1..], id)
      case None => None
      case Some(k) => Some(k + 1)
  }

  /** `UPDATE orders SET status = ?, updated_at = now WHERE id = ?`. */
  function WithStatus(orders: seq<Order>, id: int, status: string, now: int): (r: seq<Order>)
    ensures |r| == |orders|
    ensures forall k :: 0 <= k < |orders| && orders[k].id == id ==>
              r[k] == orders[k].(status := status, updatedAt := now)
    ensures forall k :: 0 <= k < |orders| && orders[k].id != id ==> r[k] == orders[k]
  {
    if orders == [] then []
    else
      var rest := WithStatus(orders[..|orders| - 1], id, status, now);
      var last := orders[|orders| - 1];
      rest + [if last.id == id then last.(status := status, updatedAt := now) else last]
  }

  /** `DELETE FROM orders WHERE id = ?`: the other rows, in their order. */
  function WithoutOrder(orders: seq<Order>, id: int): (r: seq<Order>)
    ensures |r| <= |orders|
    ensures forall k :: 0 <= k < |r| ==> r[k].id != id
  {
    if orders == [] then []
    else if orders[0].id == id then WithoutOrder(orders[1..], id)
    else [orders[0]] + WithoutOrder(orders[1..], id)
  }

  
  /** In a table whose ids increase, deleting by id removes exactly the one row
      with that id, if there is one, and keeps the rest in place. */
  lemma {:induction false} WithoutOrderRemovesOne(orders: seq<Order>, id: int)
    requires IdsIncrease(orders)
    ensures FindOrder(orders, id).None? ==> WithoutOrder(orders, id) == orders
    ensures FindOrder(orders, id).Some? ==>
              var k := FindOrder(orders, id).value;
              WithoutOrder(orders, id) == orders[..k] + orders[k + 1..]
  {
    if orders != [] {
      var rest := orders[1..];
      assert IdsIncrease(rest);
      WithoutOrderRemovesOne(rest, id);
      if orders[0].id == id {
        HeadIdUnique(orders, id);
      } else {
        RemovalBehindHead(orders, id);
      }
    }
  }

  /** With increasing ids, a row matching at the head matches nowhere behind it. */
  lemma HeadIdUnique(orders: seq<Order>, id: int)
    requires IdsIncrease(orders) && orders != [] && orders[0].id == id
    ensures FindOrder(orders[1..], id).None?
  {
    forall k | 0 <= k < |orders[1..]| ensures orders[1..][k].id != id {
      assert orders[0].id < orders[k + 1].id;
    }
  }

  /** A delete that skips the head row acts on the rows behind it. */
  lemma RemovalBehindHead(orders: seq<Order>, id: int)
    requires orders != [] && orders[0].id != id
    requires FindOrder(orders[1..], id).None? ==> WithoutOrder(orders[1..], id) == orders[1..]
    requires FindOrder(orders[1..], id).Some? ==>
               var k := FindOrder(orders[1..], id).value;
               WithoutOrder(orders[1..], id) == orders[1..][..k] + orders[1..][k + 1..]
    ensures FindOrder(orders, id).None? ==> WithoutOrder(orders, id) == orders
    ensures FindOrder(orders, id).Some? ==>
              var k := FindOrder(orders, id).value;
              WithoutOrder(orders, id) == orders[..k] + orders[k + 1..]
  {
    var rest := orders[1..];
    assert WithoutOrder(orders, id) == [orders[0]] + WithoutOrder(rest, id);
    match FindOrder(rest, id) {
      case Some(m) =>
        assert FindOrder(orders, id) == Some(m + 1);
        assert orders[..m + 1] == [orders[0]] + rest[..m];
        assert orders[m + 2..] == rest[m + 1..];
      case None =>
        assert FindOrder(orders, id).None?;
        assert orders == [orders[0]] + rest;
    }
  }

  /** Every row left by a delete is a row of the table before it. */
  lemma WithoutOrderKeepsRows(orders: seq<Order>, id: int)
    ensures forall k :: 0 <= k < |WithoutOrder(orders, id)| ==>
              exists j :: 0 <= j < |orders| && WithoutOrder(orders, id)[k] == orders[j]
  {
    if orders != [] {
      WithoutOrderKeepsRows(orders[1..], id);
      var rest := WithoutOrder(orders[1..], id);
      var r := WithoutOrder(orders, id);
      forall k | 0 <= k < |r| ensures exists j :: 0 <= j < |orders| && r[k] == orders[j] {
        if orders[0].id == id {
          var j :| 0 <= j < |orders[1..]| && rest[k] == orders[1..][j];
          assert r[k] == orders[j + 1];
        } else if k == 0 {
          assert r[0] == orders[0];
        } else {
          var j :| 0 <= j < |orders[1..]| && rest[k - 1] == orders[1..][j];
          assert r[k] == orders[j + 1];
        }
      }
    } else {
      assert WithoutOrder(orders, id) == [];
    }
  }

  /** Deleting an order keeps the table's ids ascending below the counter. */
  lemma WithoutOrderAscending(orders: seq<Order>, id: int, next: int)
    requires OrdersAscending(orders, next)
    ensures OrdersAscending(WithoutOrder(orders, id), next)
  {
    WithoutOrderRemovesOne(orders, id);
    match FindOrder(orders, id) {
      case Some(k) => RemoveAtAscending(orders, k, next);
      case None =>
    }
  }

  /** Removing one row keeps the ids ascending below the counter. */
  lemma RemoveAtAscending(orders: seq<Order>, k: nat, next: int)
    requires OrdersAscending(orders, next) && k < |orders|
    ensures OrdersAscending(orders[..k] + orders[k + 1..], next)
  {
    var r := orders[..k] + orders[k + 1..];
    forall i, j | 0 <= i < j < |r| ensures r[i].id < r[j].id {
      var i', j' := if i < k then i else i + 1, if j < k then j else j + 1;
      assert r[i] == orders[i'] && r[j] == orders[j'];
    }
    forall i | 0 <= i < |r| ensures 1 <= r[i].id < next {
      assert r[i] == orders[if i < k then i else i + 1];
    }
  }

  /** `set of order_id over order_events`: the orders that have some history. */
  function LoggedOrderIds(events: seq<OrderEvent>): set<int> {
    set e | e in events :: e.orderId
  }

  /** The ids named by `create` audit entries about an `order`. */
  function CreatedOrderIds(audits: seq<AuditEntry>): set<int> {
    set a | a in audits && a.action == "create" && a.entityType == "order" :: a.entityId
  }

  /** The consistency of the three tables: AUTOINCREMENT keys below their
      counters, and every live order created together with a history event and
      a `create` audit entry naming it. */
  predicate Consistent(orders: seq<Order>, events: seq<OrderEvent>, audits: seq<AuditEntry>,
                       nextOrder: int, nextEvent: int, nextAudit: int)
  {
    && 1 <= nextOrder && 1 <= nextEvent && 1 <= nextAudit
    && OrdersAscending(orders, nextOrder)
    && EventsAscending(events, nextEvent)
    && AuditsAscending(audits, nextAudit)
    && (forall k :: 0 <= k < |orders| ==> orders[k].id in LoggedOrderIds(events))
    && (forall k :: 0 <= k < |orders| ==> orders[k].id in CreatedOrderIds(audits))
  }

  /** Appending a history event with the next event id keeps the tables consistent. */
  lemma AppendEventConsistent(orders: seq<Order>, events: seq<OrderEvent>, audits: seq<AuditEntry>,
                              nextOrder: int, nextEvent: int, nextAudit: int, e: OrderEvent)
    requires Consistent(orders, events, audits, nextOrder, nextEvent, nextAudit)
    requires e.id == nextEvent
    ensures Consistent(orders, events + [e], audits, nextOrder, nextEvent + 1, nextAudit)
  {
    assert LoggedOrderIds(events) <= LoggedOrderIds(events + [e]);
  }

  /** Appending an audit entry with the next audit id keeps the tables consistent. */
  lemma AppendAuditConsistent(orders: seq<Order>, events: seq<OrderEvent>, audits: seq<AuditEntry>,
                              nextOrder: int, nextEvent: int, nextAudit: int, a: AuditEntry)
    requires Consistent(orders, events, audits, nextOrder, nextEvent, nextAudit)
    requires a.id == nextAudit
    ensures Consistent(orders, events, audits + [a], nextOrder, nextEvent, nextAudit + 1)
  {
    assert CreatedOrderIds(audits) <= CreatedOrderIds(audits + [a]);
  }

  /** A new order row with the next order id, logged by an event and a `create`
      audit entry, keeps the tables consistent. */
  lemma AppendOrderConsistent(orders: seq<Order>, events: seq<OrderEvent>, audits: seq<AuditEntry>,
                              nextOrder: int, nextEvent: int, nextAudit: int, o: Order)
    requires Consistent(orders, events, audits, nextOrder, nextEvent, nextAudit)
    requires o.id == nextOrder && o.id in LoggedOrderIds(events) && o.id in CreatedOrderIds(audits)
    ensures Consistent(orders + [o], events, audits, nextOrder + 1, nextEvent, nextAudit)
  {
  }

  /** Rewriting rows in place without touching their ids keeps the tables consistent. */
  lemma SameIdsConsistent(orders: seq<Order>, orders': seq<Order>, events: seq<OrderEvent>,
                          audits: seq<AuditEntry>, nextOrder: int, nextEvent: int, nextAudit: int)
    requires Consistent(orders, events, audits, nextOrder, nextEvent, nextAudit)
    requires |orders'| == |orders| && forall k :: 0 <= k < |orders| ==> orders'[k].id == orders[k].id
    ensures Consistent(orders', events, audits, nextOrder, nextEvent, nextAudit)
  {
  }

  /** Overwriting one row with a row of the same id keeps the tables consistent. */
  lemma ReplaceAtConsistent(orders: seq<Order>, events: seq<OrderEvent>, audits: seq<AuditEntry>,
                            nextOrder: int, nextEvent: int, nextAudit: int, k: nat, updated: Order)
    requires Consistent(orders, events, audits, nextOrder, nextEvent, nextAudit)
    requires k < |orders| && updated.id == orders[k].id
    ensures Consistent(orders[k := updated], events, audits, nextOrder, nextEvent, nextAudit)
  {
    SameIdsConsistent(orders, orders[k := updated], events, audits, nextOrder, nextEvent, nextAudit);
  }

  /** Deleting an order by id keeps the tables consistent. */
  lemma DeleteConsistent(orders: seq<Order>, events: seq<OrderEvent>, audits: seq<AuditEntry>,
                         nextOrder: int, nextEvent: int, nextAudit: int, id: int)
    requires Consistent(orders, events, audits, nextOrder, nextEvent, nextAudit)
    ensures Consistent(WithoutOrder(orders, id), events, audits, nextOrder, nextEvent, nextAudit)
  {
    WithoutOrderAscending(orders, id, nextOrder);
    WithoutOrderKeepsRows(orders, id);
    var r := WithoutOrder(orders, id);
    forall k | 0 <= k < |r|
      ensures r[k].id in LoggedOrderIds(events) && r[k].id in CreatedOrderIds(audits)
    {
      var j :| 0 <= j < |orders| && r[k] == orders[j];
    }
  }
}
