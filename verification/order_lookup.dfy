/** The read side of the order tables: the `ORDER BY created_at DESC, id DESC`
    listing used everywhere, the public `track_order` lookup, the access rule
    and response of `api_order_detail`, and the grouping of a customer's
    history in `customer_dashboard`. */
module OrderLookup {
  import opened Wrappers
  import opened Text
  import opened OrderLedger

  /** The sort key of `ORDER BY created_at DESC, id DESC`. */
  datatype Stamp = Stamp(createdAt: int, id: int)

  function OrderStamp(o: Order): Stamp { Stamp(o.createdAt, o.id) }

  function EventStamp(e: OrderEvent): Stamp { Stamp(e.createdAt, e.id) }

  /** `a` may be listed before `b`: it is newer, or as new with an id at least
      as large. */
  predicate ListedFirst(a: Stamp, b: Stamp) {
    a.createdAt > b.createdAt || (a.createdAt == b.createdAt && a.id >= b.id)
  }

  /** Rows listed newest first. */
  ghost predicate NewestFirst<T>(s: seq<T>, key: T -> Stamp) {
    forall i, j :: 0 <= i < j < |s| ==> ListedFirst(key(s[i]), key(s[j]))
  }

  /** Inserts a row into a listing, before the first row it may precede. */
  function Insert<T>(x: T, s: seq<T>, key: T -> Stamp): (r: seq<T>)
    ensures multiset(r) == multiset(s) + multiset{x}
    ensures NewestFirst(s, key) ==> NewestFirst(r, key)
  {
    if s == [] then [x]
    else if ListedFirst(key(x), key(s[0])) then [x] + s
    else
      var rest := Insert(x, s[1..], key);
      assert s == [s[0]] + s[1..];
      assert NewestFirst(s, key) ==> NewestFirst([s[0]] + rest, key) by {
        if NewestFirst(s, key) {
          HeadListedFirst(x, s, rest, key);
          ConsNewestFirst(s[0], rest, key);
        }
      }
      [s[0]] + rest
  }

  /** In a listing, the head may precede every row behind it, and also a new
      row it may precede. */
  lemma HeadListedFirst<T>(x: T, s: seq<T>, rest: seq<T>, key: T -> Stamp)
    requires s != [] && NewestFirst(s, key) && ListedFirst(key(s[0]), key(x))
    requires multiset(rest) == multiset(s[1..]) + multiset{x}
    ensures forall y :: y in rest ==> ListedFirst(key(s[0]), key(y))
  {
    forall y | y in rest ensures ListedFirst(key(s[0]), key(y)) {
      assert y in multiset(s[1..]) + multiset{x};
      if y != x {
        var i :| 0 <= i < |s[1..]| && s[1..][i] == y;
        assert s[i + 1] == y;
      }
    }
  }

  /** A row that may precede every row of a listing can head it. */
  lemma ConsNewestFirst<T>(h: T, rest: seq<T>, key: T -> Stamp)
    requires NewestFirst(rest, key)
    requires forall y :: y in rest ==> ListedFirst(key(h), key(y))
    ensures NewestFirst([h] + rest, key)
  {
    var r := [h] + rest;
    forall i, j | 0 <= i < j < |r| ensures ListedFirst(key(r[i]), key(r[j])) {
      assert r[j] == rest[j - 1];
      if i > 0 {
        assert r[i] == rest[i - 1];
      }
    }
  }

  /** The rows of `s` in `ORDER BY created_at DESC, id DESC` order. */
  function SortNewest<T>(s: seq<T>, key: T -> Stamp): (r: seq<T>)
    ensures NewestFirst(r, key)
    ensures multiset(r) == multiset(s)
  {
    if s == [] then []
    else
      assert s == s[..|s| - 1] + [s[|s| - 1]];
      Insert(s[|s| - 1], SortNewest(s[..|s| - 1], key), key)
  }

  /** `SELECT * FROM order_events WHERE order_id = ?` in table order. */
  function EventsOf(events: seq<OrderEvent>, orderId: int): (r: seq<OrderEvent>)
    ensures |r| <= |events|
    ensures forall k :: 0 <= k < |r| ==> r[k].orderId == orderId
  {
    if events == [] then []
    else
      var last := events[|events| - 1];
      EventsOf(events[..|events| - 1], orderId) + (if last.orderId == orderId then [last] else [])
  }

  /** An order's history as every page shows it: newest first. */
  function History(events: seq<OrderEvent>, orderId: int): (r: seq<OrderEvent>)
    ensures NewestFirst(r, EventStamp)
    ensures multiset(r) == multiset(EventsOf(events, orderId))
  {
    SortNewest(EventsOf(events, orderId), EventStamp)
  }

  /** The rows `EventsOf` keeps are exactly the rows of the order, as often as
      they occur in the table. */
  lemma {:induction false} EventsOfCount(events: seq<OrderEvent>, orderId: int, e: OrderEvent)
    ensures multiset(EventsOf(events, orderId))[e] == if e.orderId == orderId then multiset(events)[e] else 0
  {
    if events != [] {
      var init := events[..|events| - 1];
      assert events == init + [events[|events| - 1]];
      EventsOfCount(init, orderId, e);
    }
  }

  /** Filtering a listing keeps it newest first. */
  lemma {:induction false} EventsOfNewestFirst(events: seq<OrderEvent>, orderId: int)
    requires NewestFirst(events, EventStamp)
    ensures NewestFirst(EventsOf(events, orderId), EventStamp)
  {
    if events != [] {
      var init := events[..|events| - 1];
      var last := events[|events| - 1];
      assert NewestFirst(init, EventStamp);
      EventsOfNewestFirst(init, orderId);
      var r := EventsOf(init, orderId);
      forall y | y in r ensures ListedFirst(EventStamp(y), EventStamp(last)) {
        EventsOfCount(init, orderId, y);
        assert y in multiset(init);
        var i :| 0 <= i < |init| && init[i] == y;
        assert events[i] == y;
      }
    }
  }

  /** The lookup a customer types into the tracking page: an order number or
      reference, together with the phone it was placed with. */
  predicate TrackMatches(o: Order, reference: string, phone: string) {
    (o.reference == reference || IntToDecimal(o.id) == reference) && o.phone == phone
  }

  /** `... WHERE (order_reference = ? OR CAST(id AS TEXT) = ?) AND phone = ?
      ORDER BY created_at DESC, id DESC LIMIT 1`. */
  function NewestMatch(orders: seq<Order>, reference: string, phone: string): (r: Option<Order>)
    ensures r.None? <==> forall k :: 0 <= k < |orders| ==> !TrackMatches(orders[k], reference, phone)
    ensures r.Some? ==> r.value in orders && TrackMatches(r.value, reference, phone)
    ensures r.Some? ==> forall k :: 0 <= k < |orders| && TrackMatches(orders[k], reference, phone) ==>
                          ListedFirst(OrderStamp(r.value), OrderStamp(orders[k]))
  {
    if orders == [] then None
    else
      var rest := NewestMatch(orders[..|orders| - 1], reference, phone);
      var last := orders[|orders| - 1];
      assert forall k :: 0 <= k < |orders| - 1 ==> orders[..|orders| - 1][k] == orders[k];
      if !TrackMatches(last, reference, phone) then rest
      else if rest.None? || ListedFirst(OrderStamp(last), OrderStamp(rest.value)) then Some(last)
      else rest
  }

  /** What the tracking page shows. */
  datatype TrackResult = NoQuery | TrackNotFound | Tracked(order: Order, history: seq<OrderEvent>)

  /** `track_order`: both fields are stripped; the lookup runs only when both
      are present. */
  function TrackOrder(orders: seq<Order>, events: seq<OrderEvent>, reference: string, phone: string)
    : (r: TrackResult)
    ensures r.NoQuery? <==> Blank(reference) || Blank(phone)
    ensures r.TrackNotFound? <==>
              !Blank(reference) && !Blank(phone) &&
              forall k :: 0 <= k < |orders| ==> !TrackMatches(orders[k], Trim(reference), Trim(phone))
    ensures r.Tracked? ==>
              && r.order in orders
              && TrackMatches(r.order, Trim(reference), Trim(phone))
              && (forall k :: 0 <= k < |orders| && TrackMatches(orders[k], Trim(reference), Trim(phone)) ==>
                    ListedFirst(OrderStamp(r.order), OrderStamp(orders[k])))
              && NewestFirst(r.history, EventStamp)
              && multiset(r.history) == multiset(EventsOf(events, r.order.id))
  {
    var ref, ph := Trim(reference), Trim(phone);
    if ref == [] || ph == [] then NoQuery
    else match NewestMatch(orders, ref, ph)
      case None => TrackNotFound
      case Some(o) => Tracked(o, History(events, o.id))
  }

  /** A customer who types in the reference (or the number) and phone of an
      order in a table with distinct ids is shown that very order, unless a
      newer order matches the same lookup. */
  lemma TrackFindsOrder(orders: seq<Order>, events: seq<OrderEvent>, k: nat, reference: string, phone: string)
    requires IdsIncrease(orders) && k < |orders|
    requires !Blank(reference) && !Blank(phone)
    requires TrackMatches(orders[k], Trim(reference), Trim(phone))
    requires forall j :: 0 <= j < |orders| && j != k && TrackMatches(orders[j], Trim(reference), Trim(phone)) ==>
               orders[j].createdAt < orders[k].createdAt
    ensures TrackOrder(orders, events, reference, phone) == Tracked(orders[k], History(events, orders[k].id))
  {
    var r := TrackOrder(orders, events, reference, phone);
    var j :| 0 <= j < |orders| && orders[j] == r.order;
    if j != k {
      assert false;
    }
  }

  /** `api_order_detail`'s access rule: an administrator, or a session whose
      customer id equals the order's (an absent id on both sides counts as
      equal). */
  predicate CanView(o: Order, adminId: Option<int>, customerId: Option<int>) {
    adminId.Some? || customerId == o.customerId
  }

  /** The JSON answer of `api_order_detail`. */
  datatype DetailResult = DetailNotFound | Unauthorized | Detail(order: Order, history: seq<OrderEvent>)

  function OrderDetail(orders: seq<Order>, events: seq<OrderEvent>, orderId: int,
                       adminId: Option<int>, customerId: Option<int>): (r: DetailResult)
    ensures r.DetailNotFound? <==> forall k :: 0 <= k < |orders| ==> orders[k].id != orderId
    ensures !r.DetailNotFound? ==>
              var row := orders[FindOrder(orders, orderId).value];
              && (r.Unauthorized? <==> !CanView(row, adminId, customerId))
              && (r.Detail? ==> r.order == row)
    ensures r.Detail? ==>
              && r.order in orders && r.order.id == orderId
              && CanView(r.order, adminId, customerId)
              && NewestFirst(r.history, EventStamp)
              && multiset(r.history) == multiset(EventsOf(events, orderId))
  {
    match FindOrder(orders, orderId)
    case None => DetailNotFound
    case Some(k) =>
      if !CanView(orders[k], adminId, customerId) then Unauthorized
      else Detail(orders[k], History(events, orderId))
  }

  /** In a table with distinct ids: an administrator sees every order, a
      customer sees exactly their own orders, and a visitor with no session
      sees exactly the orders that have no customer. */
  lemma DetailAccess(orders: seq<Order>, events: seq<OrderEvent>, k: nat, adminId: Option<int>, customerId: Option<int>)
    requires IdsIncrease(orders) && k < |orders|
    ensures adminId.Some? ==> OrderDetail(orders, events, orders[k].id, adminId, customerId).Detail?
    ensures adminId.None? ==>
              (OrderDetail(orders, events, orders[k].id, adminId, customerId).Detail? <==>
               orders[k].customerId == customerId)
    ensures adminId.None? && customerId.None? && orders[k].customerId.None? ==>
              OrderDetail(orders, events, orders[k].id, adminId, customerId).Detail?
  {
    var j := FindOrder(orders, orders[k].id).value;
    if j != k {
      assert false;
    }
  }

  /** `WHERE customer_id = ?`, in table order. */
  function OrdersOf(orders: seq<Order>, customerId: int): (r: seq<Order>)
    ensures |r| <= |orders|
    ensures forall k :: 0 <= k < |r| ==> r[k].customerId == Some(customerId)
  {
    if orders == [] then []
    else
      var last := orders[|orders| - 1];
      OrdersOf(orders[..|orders| - 1], customerId) + (if last.customerId == Some(customerId) then [last] else [])
  }

  /** Every order of the customer is kept, as often as the table holds it,
      and no other order is. */
  lemma {:induction false} OrdersOfCount(orders: seq<Order>, customerId: int, o: Order)
    ensures multiset(OrdersOf(orders, customerId))[o] ==
              if o.customerId == Some(customerId) then multiset(orders)[o] else 0
  {
    if orders != [] {
      var init := orders[..|orders| - 1];
      assert orders == init + [orders[|orders| - 1]];
      OrdersOfCount(init, customerId, o);
    }
  }

  /** `WHERE order_id IN (...)`, in table order. */
  function EventsOfOrders(events: seq<OrderEvent>, ids: set<int>): (r: seq<OrderEvent>)
    ensures |r| <= |events|
    ensures forall k :: 0 <= k < |r| ==> r[k].orderId in ids
  {
    if events == [] then []
    else
      var last := events[|events| - 1];
      EventsOfOrders(events[..|events| - 1], ids) + (if last.orderId in ids then [last] else [])
  }

  /** Narrowing a wider filter to one of its orders is the filter of that order. */
  lemma {:induction false} EventsOfNarrow(events: seq<OrderEvent>, ids: set<int>, orderId: int)
    requires orderId in ids
    ensures EventsOf(EventsOfOrders(events, ids), orderId) == EventsOf(events, orderId)
  {
    if events != [] {
      var init := events[..|events| - 1];
      var last := events[|events| - 1];
      assert events == init + [last];
      EventsOfNarrow(init, ids, orderId);
      var wide := EventsOfOrders(init, ids);
      if last.orderId in ids {
        var w := wide + [last];
        assert EventsOfOrders(events, ids) == w;
        assert w[..|w| - 1] == wide;
        assert EventsOf(w, orderId) == EventsOf(wide, orderId) + (if last.orderId == orderId then [last] else []);
      } else {
        assert EventsOfOrders(events, ids) == wide;
      }
    }
  }

  /** The events of one order inside any reordering of a table are a
      reordering of that order's events. */
  lemma EventsOfPermutation(s: seq<OrderEvent>, t: seq<OrderEvent>, orderId: int)
    requires multiset(s) == multiset(t)
    ensures multiset(EventsOf(s, orderId)) == multiset(EventsOf(t, orderId))
  {
    forall e ensures multiset(EventsOf(s, orderId))[e] == multiset(EventsOf(t, orderId))[e] {
      EventsOfCount(s, orderId, e);
      EventsOfCount(t, orderId, e);
    }
  }

  /** The grouping loop of `customer_dashboard`: `events_by_order.setdefault(
      event["order_id"], []).append(event)` over the listing. */
  method GroupByOrder(events: seq<OrderEvent>) returns (groups: map<int, seq<OrderEvent>>)
    ensures groups.Keys == LoggedOrderIds(events)
    ensures forall id :: id in groups ==> groups[id] == EventsOf(events, id)
  {
    groups := map[];
    var i := 0;
    while i < |events|
      invariant 0 <= i <= |events|
      invariant groups.Keys == LoggedOrderIds(events[..i])
      invariant forall id :: id in groups ==> groups[id] == EventsOf(events[..i], id)
    {
      var e := events[i];
      assert events[..i + 1] == events[..i] + [e];
      assert events[..i + 1][..i] == events[..i];
      if e.orderId in groups {
        groups := groups[e.orderId := groups[e.orderId] + [e]];
      } else {
        NotLoggedNoEvents(events[..i], e.orderId);
        groups := groups[e.orderId := [e]];
      }
      i := i + 1;
    }
    assert events[..i] == events;
  }

  lemma {:induction false} NotLoggedNoEvents(events: seq<OrderEvent>, orderId: int)
    requires orderId !in LoggedOrderIds(events)
    ensures EventsOf(events, orderId) == []
  {
    if events != [] {
      var init := events[..|events| - 1];
      assert forall e :: e in init ==> e in events;
      NotLoggedNoEvents(init, orderId);
    }
  }

  /** An order with an event in a reordering of `EventsOfOrders(events, ids)`
      is one of `ids`. */
  lemma GroupedOrderListed(listed: seq<OrderEvent>, filtered: seq<OrderEvent>, ids: set<int>, id: int)
    requires multiset(listed) == multiset(filtered)
    requires forall k :: 0 <= k < |filtered| ==> filtered[k].orderId in ids
    requires id in LoggedOrderIds(listed)
    ensures id in ids
  {
    var e :| e in listed && e.orderId == id;
    assert e in multiset(filtered);
    var k :| 0 <= k < |filtered| && filtered[k] == e;
  }

  /** The groups of a newest-first listing of `EventsOfOrders(events, ids)`
      are the histories of those orders of `ids` that have events. */
  lemma ListingGroups(events: seq<OrderEvent>, ids: set<int>, listed: seq<OrderEvent>,
                      groups: map<int, seq<OrderEvent>>)
    requires NewestFirst(listed, EventStamp) && multiset(listed) == multiset(EventsOfOrders(events, ids))
    requires groups.Keys == LoggedOrderIds(listed)
    requires forall id :: id in groups ==> groups[id] == EventsOf(listed, id)
    ensures forall id :: id in groups ==> id in ids
    ensures forall id :: id in ids ==> (id in groups <==> EventsOf(events, id) != [])
    ensures forall id :: id in groups ==>
              NewestFirst(groups[id], EventStamp) && multiset(groups[id]) == multiset(EventsOf(events, id))
  {
    var filtered := EventsOfOrders(events, ids);
    forall id | id in groups
      ensures id in ids
      ensures NewestFirst(groups[id], EventStamp) && multiset(groups[id]) == multiset(EventsOf(events, id))
    {
      GroupedOrderListed(listed, filtered, ids, id);
      EventsOfNewestFirst(listed, id);
      EventsOfPermutation(listed, filtered, id);
      EventsOfNarrow(events, ids, id);
    }
    forall id | id in ids
      ensures id in groups <==> EventsOf(events, id) != []
    {
      EventsOfNarrow(events, ids, id);
      EventsOfPermutation(listed, filtered, id);
      if id !in groups {
        NotLoggedNoEvents(listed, id);
      } else {
        var e :| e in listed && e.orderId == id;
        EventsOfCount(listed, id, e);
      }
    }
  }

  /** `customer_dashboard`: the customer's orders newest first, and the history
      of each of them that has any, newest first. */
  method CustomerDashboard(orders: seq<Order>, events: seq<OrderEvent>, customerId: int)
    returns (mine: seq<Order>, groups: map<int, seq<OrderEvent>>)
    ensures NewestFirst(mine, OrderStamp) && multiset(mine) == multiset(OrdersOf(orders, customerId))
    ensures forall id :: id in groups <==> (exists k :: 0 <= k < |mine| && mine[k].id == id) &&
                                            EventsOf(events, id) != []
    ensures forall id :: id in groups ==>
              NewestFirst(groups[id], EventStamp) && multiset(groups[id]) == multiset(EventsOf(events, id))
  {
    mine := SortNewest(OrdersOf(orders, customerId), OrderStamp);
    var ids := set k | 0 <= k < |mine| :: mine[k].id;
    groups := map[];
    if mine != [] {
      assert mine[0].id in ids;
      var listed := SortNewest(EventsOfOrders(events, ids), EventStamp);
      groups := GroupByOrder(listed);
      ListingGroups(events, ids, listed, groups);
    }
  }
}
