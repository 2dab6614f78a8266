/** The order tables and the handlers that write them: `cart_checkout`,
    `order_request`, `admin_orders` (create), `admin_order_edit`,
    `admin_order_delete`, `admin_order_accept`, `admin_order_reject`,
    `admin_orders_clear` and `api_order_status_update`, with the two log
    helpers `log_order_event` and `log_audit_event`. Each handler commits its
    writes together, so each is one method. Session values (customer and admin
    ids), today's date, the random token bytes and the current timestamp are
    parameters. */
module OrderStore {
  import opened Wrappers
  import opened Text
  import opened OrderReference
  import opened SessionCart
  import opened CartPricing
  import opened OrderLedger

  /** The outcome of a create request: the new order's id and reference, or why
      nothing was written. */
  datatype CreateResult = Created(orderId: int, reference: string) | NotCreated(reason: Rejection)

  /** The outcome of an administrative edit. */
  datatype EditResult = EditNotFound | EditRejected(reason: Rejection) | Edited

  /** The JSON answer of the status API: `{"status": "ok", ...}` or an error with
      its HTTP code. */
  datatype ApiResponse = ApiOk(orderId: int, newStatus: string) | ApiError(code: int, message: string)

  /** `f"{item['name']} x{item['qty']}"`. */
  function ItemText(item: CartItem): string {
    item.name + " x" + IntToDecimal(item.qty)
  }

  /** `", ".join(...)` of the item texts: the order's `items` snapshot. */
  function ItemsSummary(items: seq<CartItem>): (r: string)
    ensures items == [] <==> r == []
  {
    if items == [] then []
    else if |items| == 1 then ItemText(items[0])
    else ItemsSummary(items[..|items| - 1]) + ", " + ItemText(items[|items| - 1])
  }

  /** The `details` text of a create audit entry. */
  function CreateDetails(reference: string): string {
    "order_reference=" + reference
  }

  class Store {
    var orders: seq<Order>
    var events: seq<OrderEvent>
    var audits: seq<AuditEntry>
    /** The next AUTOINCREMENT values of the three tables. */
    var nextOrderId: int
    var nextEventId: int
    var nextAuditId: int

    /** Keys are AUTOINCREMENT (ascending, never reused), and every live order
        was created together with its first history event and its `create`
        audit entry. */
    ghost predicate Valid()
      reads this
    {
      Consistent(orders, events, audits, nextOrderId, nextEventId, nextAuditId)
    }

    /** Freshly created tables. */
    constructor ()
      ensures Valid()
      ensures orders == [] && events == [] && audits == []
    {
      orders, events, audits := [], [], [];
      nextOrderId, nextEventId, nextAuditId := 1, 1, 1;
    }

    /** `log_order_event`: append one history row. */
    method LogOrderEvent(orderId: int, status: string, note: string, actorType: string,
                         actorId: Option<int>, now: int)
      modifies this
      ensures events == old(events) + [OrderEvent(old(nextEventId), orderId, status, note, actorType, actorId, now)]
      ensures nextEventId == old(nextEventId) + 1
      ensures orders == old(orders) && audits == old(audits)
      ensures nextOrderId == old(nextOrderId) && nextAuditId == old(nextAuditId)
    {
      events := events + [OrderEvent(nextEventId, orderId, status, note, actorType, actorId, now)];
      nextEventId := nextEventId + 1;
    }

    /** `log_audit_event`: append one audit row. */
    method LogAuditEvent(actorType: string, actorId: Option<int>, action: string, entityType: string,
                         entityId: int, details: string, now: int)
      modifies this
      ensures audits == old(audits) + [AuditEntry(old(nextAuditId), actorType, actorId, action, entityType, entityId, details, now)]
      ensures nextAuditId == old(nextAuditId) + 1
      ensures orders == old(orders) && events == old(events)
      ensures nextOrderId == old(nextOrderId) && nextEventId == old(nextEventId)
    {
      audits := audits + [AuditEntry(nextAuditId, actorType, actorId, action, entityType, entityId, details, now)];
      nextAuditId := nextAuditId + 1;
    }

    /** The three inserts every create handler performs: the order row (its id
        taken from the counter), the seed event and the `create` audit entry. */
    method CreateOrder(o: Order, eventStatus: string, eventNote: string, actorType: string,
                       actorId: Option<int>, now: int) returns (id: int)
      requires Valid()
      modifies this
      ensures Valid()
      ensures id == old(nextOrderId)
      ensures orders == old(orders) + [o.(id := id)]
      ensures events == old(events) + [OrderEvent(old(nextEventId), id, eventStatus, eventNote, actorType, actorId, now)]
      ensures audits == old(audits) + [AuditEntry(old(nextAuditId), actorType, actorId, "create", "order", id,
                                                  CreateDetails(o.reference), now)]
      ensures nextOrderId == old(nextOrderId) + 1
      ensures nextEventId == old(nextEventId) + 1 && nextAuditId == old(nextAuditId) + 1
    {
      id := nextOrderId;
      orders := orders + [o.(id := id)];
      nextOrderId := nextOrderId + 1;
      LogOrderEvent(id, eventStatus, eventNote, actorType, actorId, now);
      LogAuditEvent(actorType, actorId, "create", "order", id, CreateDetails(o.reference), now);
      var e := events[|events| - 1];
      var a := audits[|audits| - 1];
      AppendEventConsistent(old(orders), old(events), old(audits), id, old(nextEventId), old(nextAuditId), e);
      AppendAuditConsistent(old(orders), events, old(audits), id, nextEventId, old(nextAuditId), a);
      assert e in events && a in audits;
      AppendOrderConsistent(old(orders), events, audits, id, nextEventId, nextAuditId, o.(id := id));
    }

    /** `cart_checkout`: price the session cart, check the delivery fields, then
        create a "New" order for the customer in the session (if any) and empty
        the cart. An empty priced cart or a blank name, phone or area writes
        nothing. */
    method Checkout(cart: Cart, menu: Catalogue, name: string, phone: string, area: string, notes: string,
                    customerId: Option<int>, today: Date, token: Token, now: int) returns (r: CreateResult)
      requires Valid() && ValidDate(today)
      modifies this, cart
      ensures Valid()
      ensures var items := Priced(old(cart.lines), menu);
              r == if items == [] then NotCreated(EmptyCart)
                   else if Blank(name) || Blank(phone) || Blank(area) then NotCreated(MissingFields)
                   else Created(old(nextOrderId), FormatReference(today, token))
      ensures r.NotCreated? ==> unchanged(this) && unchanged(cart)
      ensures r.Created? ==>
                var items := Priced(old(cart.lines), menu);
                && orders == old(orders) + [Order(r.orderId, Trim(name), Trim(phone), Trim(area), ItemsSummary(items),
                                                  OrderTotal(Subtotal(items)), "New", r.reference, "Cash", "Pending",
                                                  "Website-Cart", "", Trim(notes), customerId, now, now)]
                && events == old(events) + [OrderEvent(old(nextEventId), r.orderId, "New", "Cart checkout",
                                                       "customer", customerId, now)]
                && audits == old(audits) + [AuditEntry(old(nextAuditId), "customer", customerId, "create", "order",
                                                       r.orderId, CreateDetails(r.reference), now)]
                && nextOrderId == old(nextOrderId) + 1 && nextEventId == old(nextEventId) + 1
                && nextAuditId == old(nextAuditId) + 1
                && cart.lines == []
    {
      var items, subtotal := GetCartItems(cart.lines, menu);
      if items == [] {
        return NotCreated(EmptyCart);
      }
      var n, p, a, nt := Trim(name), Trim(phone), Trim(area), Trim(notes);
      if n == [] || p == [] || a == [] {
        return NotCreated(MissingFields);
      }
      var reference := FormatReference(today, token);
      var id := PlaceCartOrder(cart, items, subtotal, n, p, a, nt, customerId, reference, now);
      r := Created(id, reference);
    }

    /** The writes of a checkout that passed its checks: the "New" order with
        the cart's item snapshot and total, its seed event and audit entry, and
        the emptied cart. */
    method PlaceCartOrder(cart: Cart, items: seq<CartItem>, subtotal: int, name: string, phone: string,
                          area: string, notes: string, customerId: Option<int>, reference: string, now: int)
      returns (id: int)
      requires Valid()
      modifies this, cart
      ensures Valid()
      ensures id == old(nextOrderId)
      ensures orders == old(orders) + [Order(id, name, phone, area, ItemsSummary(items), OrderTotal(subtotal), "New",
                                             reference, "Cash", "Pending", "Website-Cart", "", notes, customerId,
                                             now, now)]
      ensures events == old(events) + [OrderEvent(old(nextEventId), id, "New", "Cart checkout", "customer",
                                                  customerId, now)]
      ensures audits == old(audits) + [AuditEntry(old(nextAuditId), "customer", customerId, "create", "order", id,
                                                  CreateDetails(reference), now)]
      ensures nextOrderId == old(nextOrderId) + 1 && nextEventId == old(nextEventId) + 1
      ensures nextAuditId == old(nextAuditId) + 1
      ensures cart.lines == []
    {
      var o := Order(0, name, phone, area, ItemsSummary(items), OrderTotal(subtotal), "New", reference, "Cash",
                     "Pending", "Website-Cart", "", notes, customerId, now, now);
      id := CreateOrder(o, "New", "Cart checkout", "customer", customerId, now);
      cart.Clear();
    }

    /** `order_request`: a manually described order with total 0; a blank name,
        phone, area or item list writes nothing. */
    method RequestOrder(name: string, phone: string, area: string, items: string, notes: string,
                        customerId: Option<int>, today: Date, token: Token, now: int) returns (r: CreateResult)
      requires Valid() && ValidDate(today)
      modifies this
      ensures Valid()
      ensures r == if Blank(name) || Blank(phone) || Blank(area) || Blank(items) then NotCreated(MissingFields)
                   else Created(old(nextOrderId), FormatReference(today, token))
      ensures r.NotCreated? ==> unchanged(this)
      ensures r.Created? ==>
                && orders == old(orders) + [Order(r.orderId, Trim(name), Trim(phone), Trim(area), Trim(items), 0,
                                                  "New", r.reference, "Cash", "Pending", "Website", "", Trim(notes),
                                                  customerId, now, now)]
                && events == old(events) + [OrderEvent(old(nextEventId), r.orderId, "New", "Order requested",
                                                       "customer", customerId, now)]
                && audits == old(audits) + [AuditEntry(old(nextAuditId), "customer", customerId, "create", "order",
                                                       r.orderId, CreateDetails(r.reference), now)]
                && nextOrderId == old(nextOrderId) + 1 && nextEventId == old(nextEventId) + 1
                && nextAuditId == old(nextAuditId) + 1
    {
      var n, p, a, it, nt := Trim(name), Trim(phone), Trim(area), Trim(items), Trim(notes);
      if n == [] || p == [] || a == [] || it == [] {
        return NotCreated(MissingFields);
      }
      var reference := FormatReference(today, token);
      var o := Order(0, n, p, a, it, 0, "New", reference, "Cash", "Pending", "Website", "", nt, customerId, now, now);
      var id := CreateOrder(o, "New", "Order requested", "customer", customerId, now);
      r := Created(id, reference);
    }

    /** `admin_orders` (POST): an order keyed in by an administrator. The seed
        event carries the submitted status; a blank reference is generated. */
    method AdminCreate(form: OrderForm, adminId: Option<int>, today: Date, token: Token, now: int)
      returns (r: CreateResult)
      requires Valid() && ValidDate(today)
      modifies this
      ensures Valid()
      ensures r.NotCreated? <==> CheckForm(form).Some?
      ensures r.NotCreated? ==> r.reason == CheckForm(form).value && unchanged(this)
      ensures r.Created? ==>
                && r.orderId == old(nextOrderId)
                && r.reference == OrDefault(form.reference, FormatReference(today, token))
                && orders == old(orders) + [ApplyForm(Order(r.orderId, "", "", "", "", 0, "", "", "", "", "", "", "",
                                                            None, now, now), form, r.reference, now)]
                && events == old(events) + [OrderEvent(old(nextEventId), r.orderId, form.status.GetOr("New"),
                                                       "Order created", "admin", adminId, now)]
                && audits == old(audits) + [AuditEntry(old(nextAuditId), "admin", adminId, "create", "order",
                                                       r.orderId, CreateDetails(r.reference), now)]
                && nextOrderId == old(nextOrderId) + 1 && nextEventId == old(nextEventId) + 1
                && nextAuditId == old(nextAuditId) + 1
    {
      var check := CheckForm(form);
      if check.Some? {
        return NotCreated(check.value);
      }
      var reference := OrDefault(form.reference, FormatReference(today, token));
      var blank := Order(nextOrderId, "", "", "", "", 0, "", "", "", "", "", "", "", None, now, now);
      var o := ApplyForm(blank, form, reference, now);
      var id := CreateOrder(o, o.status, "Order created", "admin", adminId, now);
      r := Created(id, reference);
    }

    /** The writes of a successful edit: the row at position `k` is replaced by
        `updated` (same id), a history event is logged when the status differs,
        and an `update` audit entry is logged. */
    method ReplaceOrder(k: nat, updated: Order, adminId: Option<int>, now: int)
      requires Valid() && k < |orders| && updated.id == orders[k].id
      modifies this
      ensures Valid()
      ensures orders == old(orders)[k := updated]
      ensures var before := old(orders)[k];
              events == old(events) + (if before.status != updated.status
                                       then [OrderEvent(old(nextEventId), updated.id, updated.status,
                                                        "Status changed from " + before.status, "admin", adminId, now)]
                                       else [])
      ensures audits == old(audits) + [AuditEntry(old(nextAuditId), "admin", adminId, "update", "order",
                                                  updated.id, "Order details updated", now)]
      ensures nextOrderId == old(nextOrderId)
      ensures nextEventId == old(nextEventId) + (if old(orders)[k].status != updated.status then 1 else 0)
      ensures nextAuditId == old(nextAuditId) + 1
    {
      var before := orders[k];
      orders := orders[k := updated];
      ReplaceAtConsistent(old(orders), events, audits, nextOrderId, nextEventId, nextAuditId, k, updated);
      if before.status != updated.status {
        var e := OrderEvent(nextEventId, updated.id, updated.status, "Status changed from " + before.status,
                            "admin", adminId, now);
        AppendEventConsistent(orders, events, audits, nextOrderId, nextEventId, nextAuditId, e);
        LogOrderEvent(updated.id, updated.status, "Status changed from " + before.status, "admin", adminId, now);
      }
      var a := AuditEntry(nextAuditId, "admin", adminId, "update", "order", updated.id, "Order details updated", now);
      AppendAuditConsistent(orders, events, audits, nextOrderId, nextEventId, nextAuditId, a);
      LogAuditEvent("admin", adminId, "update", "order", updated.id, "Order details updated", now);
    }

    /** `admin_order_edit` (POST): replace the editable columns of an existing
        order. A history event is appended only when the status changes; an
        `update` audit entry always is. A blank reference keeps the stored one,
        or generates one when none is stored. */
    method AdminEdit(orderId: int, form: OrderForm, adminId: Option<int>, today: Date, token: Token, now: int)
      returns (r: EditResult)
      requires Valid() && ValidDate(today)
      modifies this
      ensures Valid()
      ensures r.EditNotFound? <==> FindOrder(old(orders), orderId).None?
      ensures r.EditRejected? <==> FindOrder(old(orders), orderId).Some? && CheckForm(form).Some?
      ensures r.EditRejected? ==> r.reason == CheckForm(form).value
      ensures !r.Edited? ==> unchanged(this)
      ensures r.Edited? ==>
                var k := FindOrder(old(orders), orderId).value;
                var before := old(orders)[k];
                var newStatus := form.status.GetOr("New");
                var reference := if !Blank(form.reference) then Trim(form.reference)
                                 else if before.reference != "" then before.reference
                                 else FormatReference(today, token);
                && orders == old(orders)[k := ApplyForm(before, form, reference, now)]
                && events == old(events) + (if before.status != newStatus
                                            then [OrderEvent(old(nextEventId), orderId, newStatus,
                                                             "Status changed from " + before.status,
                                                             "admin", adminId, now)]
                                            else [])
                && audits == old(audits) + [AuditEntry(old(nextAuditId), "admin", adminId, "update", "order",
                                                       orderId, "Order details updated", now)]
                && nextOrderId == old(nextOrderId)
                && nextEventId == old(nextEventId) + (if before.status != newStatus then 1 else 0)
                && nextAuditId == old(nextAuditId) + 1
    {
      var found := FindOrder(orders, orderId);
      if found.None? {
        return EditNotFound;
      }
      var k := found.value;
      var before := orders[k];
      var check := CheckForm(form);
      if check.Some? {
        return EditRejected(check.value);
      }
      var reference := Trim(form.reference);
      if reference == [] {
        reference := if before.reference != "" then before.reference else FormatReference(today, token);
      }
      ReplaceOrder(k, ApplyForm(before, form, reference, now), adminId, now);
      r := Edited;
    }

    /** `admin_order_delete`: an audit entry, then the row goes. The order's
        history events stay in the ledger. */
    method DeleteOrder(orderId: int, adminId: Option<int>, now: int)
      requires Valid()
      modifies this
      ensures Valid()
      ensures orders == WithoutOrder(old(orders), orderId)
      ensures events == old(events)
      ensures audits == old(audits) + [AuditEntry(old(nextAuditId), "admin", adminId, "delete", "order", orderId,
                                                  "Order deleted", now)]
      ensures nextOrderId == old(nextOrderId) && nextEventId == old(nextEventId)
      ensures nextAuditId == old(nextAuditId) + 1
    {
      var a := AuditEntry(nextAuditId, "admin", adminId, "delete", "order", orderId, "Order deleted", now);
      AppendAuditConsistent(orders, events, audits, nextOrderId, nextEventId, nextAuditId, a);
      LogAuditEvent("admin", adminId, "delete", "order", orderId, "Order deleted", now);
      DeleteConsistent(orders, events, audits, nextOrderId, nextEventId, nextAuditId, orderId);
      orders := WithoutOrder(orders, orderId);
    }

    /** The status change shared by accept and reject: the UPDATE (which touches
        no row when the id is unknown) and a history event, but no audit entry. */
    method SetStatusLogged(orderId: int, status: string, note: string, adminId: Option<int>, now: int)
      requires Valid()
      modifies this
      ensures Valid()
      ensures orders == WithStatus(old(orders), orderId, status, now)
      ensures events == old(events) + [OrderEvent(old(nextEventId), orderId, status, note, "admin", adminId, now)]
      ensures audits == old(audits)
      ensures nextOrderId == old(nextOrderId) && nextEventId == old(nextEventId) + 1
      ensures nextAuditId == old(nextAuditId)
    {
      orders := WithStatus(orders, orderId, status, now);
      SameIdsConsistent(old(orders), orders, events, audits, nextOrderId, nextEventId, nextAuditId);
      var e := OrderEvent(nextEventId, orderId, status, note, "admin", adminId, now);
      AppendEventConsistent(orders, events, audits, nextOrderId, nextEventId, nextAuditId, e);
      LogOrderEvent(orderId, status, note, "admin", adminId, now);
    }

    /** `admin_order_accept`: status "Preparing". */
    method Accept(orderId: int, adminId: Option<int>, now: int)
      requires Valid()
      modifies this
      ensures Valid()
      ensures orders == WithStatus(old(orders), orderId, "Preparing", now)
      ensures events == old(events) + [OrderEvent(old(nextEventId), orderId, "Preparing", "Accepted by admin",
                                                  "admin", adminId, now)]
      ensures audits == old(audits)
      ensures nextOrderId == old(nextOrderId) && nextEventId == old(nextEventId) + 1
      ensures nextAuditId == old(nextAuditId)
    {
      SetStatusLogged(orderId, "Preparing", "Accepted by admin", adminId, now);
    }

    /** `admin_order_reject`: status "Cancelled". */
    method Reject(orderId: int, adminId: Option<int>, now: int)
      requires Valid()
      modifies this
      ensures Valid()
      ensures orders == WithStatus(old(orders), orderId, "Cancelled", now)
      ensures events == old(events) + [OrderEvent(old(nextEventId), orderId, "Cancelled", "Rejected by admin",
                                                  "admin", adminId, now)]
      ensures audits == old(audits)
      ensures nextOrderId == old(nextOrderId) && nextEventId == old(nextEventId) + 1
      ensures nextAuditId == old(nextAuditId)
    {
      SetStatusLogged(orderId, "Cancelled", "Rejected by admin", adminId, now);
    }

    /** The writes of an accepted status update from the API: the status and
        `updated_at` of the matching row, one history event with the note, and
        one `update` audit entry naming the new status. */
    method SetStatusAudited(orderId: int, st: string, nt: string, adminId: Option<int>, now: int)
      requires Valid()
      modifies this
      ensures Valid()
      ensures orders == WithStatus(old(orders), orderId, st, now)
      ensures events == old(events) + [OrderEvent(old(nextEventId), orderId, st, nt, "admin", adminId, now)]
      ensures audits == old(audits) + [AuditEntry(old(nextAuditId), "admin", adminId, "update", "order",
                                                  orderId, "API status update: " + st, now)]
      ensures nextOrderId == old(nextOrderId) && nextEventId == old(nextEventId) + 1
      ensures nextAuditId == old(nextAuditId) + 1
    {
      SetStatusLogged(orderId, st, nt, adminId, now);
      var a := AuditEntry(nextAuditId, "admin", adminId, "update", "order", orderId, "API status update: " + st, now);
      AppendAuditConsistent(orders, events, audits, nextOrderId, nextEventId, nextAuditId, a);
      LogAuditEvent("admin", adminId, "update", "order", orderId, "API status update: " + st, now);
    }

    /** `api_order_status_update`: a blank status is a 400 and an unknown order a
        404, both writing nothing; otherwise the status is set and one history
        event and one `update` audit entry are appended. */
    method UpdateStatusApi(orderId: int, status: Option<string>, note: Option<string>, adminId: Option<int>,
                           now: int) returns (resp: ApiResponse)
      requires Valid()
      modifies this
      ensures Valid()
      ensures var st := Trim(status.GetOr(""));
              resp == if st == [] then ApiError(400, "Status is required")
                      else if FindOrder(old(orders), orderId).None? then ApiError(404, "Order not found")
                      else ApiOk(orderId, st)
      ensures resp.ApiError? ==> unchanged(this)
      ensures resp.ApiOk? ==>
                var nt := Trim(if note.None? || note.value == "" then "Status updated via API" else note.value);
                && orders == WithStatus(old(orders), orderId, resp.newStatus, now)
                && events == old(events) + [OrderEvent(old(nextEventId), orderId, resp.newStatus, nt, "admin",
                                                       adminId, now)]
                && audits == old(audits) + [AuditEntry(old(nextAuditId), "admin", adminId, "update", "order",
                                                       orderId, "API status update: " + resp.newStatus, now)]
                && nextOrderId == old(nextOrderId) && nextEventId == old(nextEventId) + 1
                && nextAuditId == old(nextAuditId) + 1
    {
      var st := Trim(status.GetOr(""));
      var nt := Trim(if note.None? || note.value == "" then "Status updated via API" else note.value);
      if st == [] {
        return ApiError(400, "Status is required");
      }
      if FindOrder(orders, orderId).None? {
        return ApiError(404, "Order not found");
      }
      SetStatusAudited(orderId, st, nt, adminId, now);
      resp := ApiOk(orderId, st);
    }

    /** `admin_orders_clear`: every order row goes and one bulk audit entry
        records how many there were. History events stay. */
    method ClearOrders(adminId: Option<int>, now: int)
      requires Valid()
      modifies this
      ensures Valid()
      ensures orders == [] && events == old(events)
      ensures audits == old(audits) + [AuditEntry(old(nextAuditId), "admin", adminId, "delete", "orders", 0,
                                                  "Cleared " + NatToDecimal(|old(orders)|) + " orders", now)]
      ensures nextOrderId == old(nextOrderId) && nextEventId == old(nextEventId)
      ensures nextAuditId == old(nextAuditId) + 1
    {
      var count := |orders|;
      orders := [];
      var a := AuditEntry(nextAuditId, "admin", adminId, "delete", "orders", 0,
                          "Cleared " + NatToDecimal(count) + " orders", now);
      AppendAuditConsistent(orders, events, audits, nextOrderId, nextEventId, nextAuditId, a);
      LogAuditEvent("admin", adminId, "delete", "orders", 0, "Cleared " + NatToDecimal(count) + " orders", now);
    }
  }
}
