/** The read-side figures of the admin dashboard: the seven-day trend series
    (`build_trend_series`), the KPI counts and ratios, and the category mix of
    `get_admin_dashboard_context`. Days are proleptic Gregorian ordinals
    (day 1 is Monday 1 January of year 1), so "today" and the grouped rows'
    days are plain integers; money is in minor units. */
module DashboardAnalytics {
  import opened OrderLedger

  /** Multiplying by a positive number keeps and reflects the order. */
  lemma {:induction false} MulMonotone(x: int, y: int, p: int)
    requires p > 0
    ensures x <= y <==> x * p <= y * p
    decreases p
  {
    if p > 1 {
      MulMonotone(x, y, p - 1);
      assert x * p == x * (p - 1) + x && y * p == y * (p - 1) + y;
    }
  }

  /** Euclidean division of a non-negative number brackets it. */
  lemma DivBrackets(a: int, b: int)
    requires a >= 0 && b > 0
    ensures 0 <= (a / b) * b <= a < (a / b) * b + b
  {
    assert a == (a / b) * b + a % b;
    MulMonotone(0, a / b, b);
  }

  /** `int(x)` of the exact quotient `a / b`: truncation toward zero. */
  function TruncDiv(a: int, b: int): (q: int)
    requires b > 0
    ensures a >= 0 ==> 0 <= q * b <= a < q * b + b
    ensures a < 0 ==> q * b - b < a <= q * b <= 0
  {
    if a >= 0 then DivBrackets(a, b); a / b
    else DivBrackets(-a, b); -((-a) / b)
  }

  /** The quotient lies between the bounds its brackets allow. */
  lemma TruncDivSign(a: int, b: int)
    requires b > 0
    ensures a >= 0 ==> TruncDiv(a, b) >= 0
    ensures a <= 0 ==> TruncDiv(a, b) <= 0
  {
    var q := TruncDiv(a, b);
    if a >= 0 { MulMonotone(0, q, b); }
    if a <= 0 { MulMonotone(q, 0, b); }
  }

  /** Truncating division by a positive number is monotone. */
  lemma TruncDivMonotone(a: int, c: int, b: int)
    requires b > 0 && a <= c
    ensures TruncDiv(a, b) <= TruncDiv(c, b)
  {
    var qa, qc := TruncDiv(a, b), TruncDiv(c, b);
    TruncDivSign(a, b);
    TruncDivSign(c, b);
    if qa > qc {
      MulMonotone(qc + 1, qa, b);
      if c < 0 {
        assert qa * b - b < a <= c <= qc * b;
        MulMonotone(qa - 1, qc, b);
      }
    }
  }

  /** `n * 100 / n` truncates to exactly 100. */
  lemma TruncDivWhole(n: int, k: int)
    requires n > 0 && k >= 0
    ensures TruncDiv(n * k, n) == k
  {
    var a := n * k;
    MulMonotone(0, k, n);
    var q := TruncDiv(a, n);
    assert q * n <= a < q * n + n;
    assert a == k * n;
    if q < k {
      MulMonotone(q + 1, k, n);
    } else if q > k {
      MulMonotone(q, k, n);
    }
  }


  /* ---------------- trend series ---------------- */

  /** One row of the trend query: a day with its order count and revenue. */
  datatype TrendRow = TrendRow(day: int, orders: int, revenue: int)

  /** The `value_key` the series is built for. */
  datatype Measure = OrderCount | Revenue

  /** One bar of the series. */
  datatype TrendPoint = TrendPoint(weekday: string, value: int, day: int, width: int)

  function MeasureOf(row: TrendRow, m: Measure): int {
    match m
    case OrderCount => row.orders
    case Revenue => row.revenue
  }

  /** `{row["day"]: dict(row) for row in rows}`: a later row for the same day
      replaces an earlier one. */
  function Lookup(rows: seq<TrendRow>): map<int, TrendRow> {
    if rows == [] then map[]
    else Lookup(rows[..|rows| - 1])[rows[|rows| - 1].day := rows[|rows| - 1]]
  }

  /** `lookup.get(key, {}).get(value_key, 0) or 0`. */
  function DayValue(rows: seq<TrendRow>, m: Measure, day: int): int {
    var lookup := Lookup(rows);
    if day in lookup then MeasureOf(lookup[day], m) else 0
  }

  /** A day the query returned no row for is a zero bar; a day it returned
      rows for takes the value of the last of them. */
  lemma {:induction false} DayValueOfRows(rows: seq<TrendRow>, m: Measure, day: int)
    ensures (forall k :: 0 <= k < |rows| ==> rows[k].day != day) ==> DayValue(rows, m, day) == 0
    ensures forall k :: 0 <= k < |rows| && rows[k].day == day &&
                        (forall j :: k < j < |rows| ==> rows[j].day != day) ==>
                          DayValue(rows, m, day) == MeasureOf(rows[k], m)
  {
    if rows == [] {
      assert Lookup(rows) == map[];
    } else {
      var init := rows[..|rows| - 1];
      var last := rows[|rows| - 1];
      DayValueOfRows(init, m, day);
      assert Lookup(rows) == Lookup(init)[last.day := last];
      if last.day == day {
        assert DayValue(rows, m, day) == MeasureOf(last, m);
        forall k | 0 <= k < |rows| && rows[k].day == day && (forall j :: k < j < |rows| ==> rows[j].day != day)
          ensures k == |rows| - 1
        {
          assert k < |rows| - 1 ==> last.day != day;
        }
      } else {
        assert DayValue(rows, m, day) == DayValue(init, m, day);
        assert forall k :: 0 <= k < |init| ==> init[k] == rows[k];
      }
    }
  }

  /** `day.strftime("%a")` in the C locale. */
  function WeekdayLabel(day: int): (r: string)
    ensures r in {"Mon", "Tue", "Wed", "Thu", "Fri", "Sat", "Sun"}
    ensures |r| == 3
  {
    ["Mon", "Tue", "Wed", "Thu", "Fri", "Sat", "Sun"][(day - 1) % 7]
  }

  /** The weekday after a given one, Sunday wrapping round to Monday. */
  function NextWeekday(name: string): string {
    if name == "Mon" then "Tue"
    else if name == "Tue" then "Wed"
    else if name == "Wed" then "Thu"
    else if name == "Thu" then "Fri"
    else if name == "Fri" then "Sat"
    else if name == "Sat" then "Sun"
    else "Mon"
  }

  /** Day 1 (1 January of year 1) is a Monday, each day is named after the
      one before it, and the names repeat every seven days. */
  lemma WeekdayCycle(day: int)
    ensures WeekdayLabel(1) == "Mon"
    ensures WeekdayLabel(day + 1) == NextWeekday(WeekdayLabel(day))
    ensures WeekdayLabel(day + 7) == WeekdayLabel(day)
  {
    var i := (day - 1) % 7;
    assert day - 1 == 7 * ((day - 1) / 7) + i;
    if i < 6 {
      assert day == 7 * ((day - 1) / 7) + (i + 1);
      assert day % 7 == i + 1;
    } else {
      assert day == 7 * ((day - 1) / 7 + 1);
      assert day % 7 == 0;
    }
    assert day + 6 == 7 * ((day - 1) / 7 + 1) + i;
    assert (day + 6) % 7 == i;
  }

  /** `max(values) if values else 0`. */
  function Peak(values: seq<int>): (r: int)
    ensures values == [] ==> r == 0
    ensures forall i :: 0 <= i < |values| ==> values[i] <= r
    ensures values != [] ==> exists i :: 0 <= i < |values| && values[i] == r
  {
    if values == [] then 0
    else if |values| == 1 then values[0]
    else
      var rest := Peak(values[..|values| - 1]);
      assert forall i :: 0 <= i < |values| - 1 ==> values[..|values| - 1][i] == values[i];
      if values[|values| - 1] > rest then values[|values| - 1] else rest
  }

  /** `int((value / max_value) * 100) if max_value > 0 else 0`, on exact
      quotients. */
  function Width(value: int, peak: int): int {
    if peak > 0 then TruncDiv(value * 100, peak) else 0
  }

  /** The bar widths: at most 100 for any value up to the peak, never
      negative for a value that is not, exactly 100 for the peak itself, all
      0 when the peak is not positive, and ordered like the values. */
  lemma WidthBounds(value: int, other: int, peak: int)
    ensures value <= peak ==> Width(value, peak) <= 100
    ensures value >= 0 ==> Width(value, peak) >= 0
    ensures value == peak && peak > 0 ==> Width(value, peak) == 100
    ensures peak <= 0 ==> Width(value, peak) == 0
    ensures value <= other ==> Width(value, peak) <= Width(other, peak)
  {
    if peak > 0 {
      TruncDivSign(value * 100, peak);
      TruncDivWhole(peak, 100);
      if value <= peak {
        MulMonotone(value, peak, 100);
        TruncDivMonotone(value * 100, peak * 100, peak);
      }
      if value <= other {
        MulMonotone(value, other, 100);
        TruncDivMonotone(value * 100, other * 100, peak);
      }
    }
  }

  function Values(series: seq<TrendPoint>): (r: seq<int>)
    ensures |r| == |series| && forall i :: 0 <= i < |series| ==> r[i] == series[i].value
  {
    seq(|series|, i requires 0 <= i < |series| => series[i].value)
  }

  /** `build_trend_series`: one point per day for the `days` days ending
      `today`, oldest first, zero-filled, then every point gets its width
      against the largest value. `today - (days - 1)` must not fall before
      the first representable date. */
  method BuildTrendSeries(rows: seq<TrendRow>, days: int, m: Measure, today: int)
    returns (series: seq<TrendPoint>)
    requires days <= 0 || today - (days - 1) >= 1
    ensures |series| == if days > 0 then days else 0
    ensures forall i :: 0 <= i < |series| ==>
              && series[i].day == today - (|series| - 1) + i
              && series[i].weekday == WeekdayLabel(series[i].day)
              && series[i].value == DayValue(rows, m, series[i].day)
              && series[i].width == Width(series[i].value, Peak(Values(series)))
    ensures forall i :: 0 <= i < |series| ==>
              && series[i].width <= 100
              && (series[i].value >= 0 ==> series[i].width >= 0)
              && (series[i].value == Peak(Values(series)) > 0 ==> series[i].width == 100)
              && (Peak(Values(series)) <= 0 ==> series[i].width == 0)
  {
    var lookup := Lookup(rows);
    series := [];
    var values: seq<int> := [];
    var offset := days - 1;
    while offset >= 0
      invariant offset <= days - 1 && (offset >= -1 || offset == days - 1)
      invariant |series| == days - 1 - offset
      invariant values == Values(series)
      invariant forall i :: 0 <= i < |series| ==>
                  && series[i].day == today - (days - 1) + i
                  && series[i].weekday == WeekdayLabel(series[i].day)
                  && series[i].value == DayValue(rows, m, series[i].day)
    {
      var day := today - offset;
      var value := if day in lookup then MeasureOf(lookup[day], m) else 0;
      series := series + [TrendPoint(WeekdayLabel(day), value, day, 0)];
      values := values + [value];
      offset := offset - 1;
    }
    var maxValue := if values != [] then Peak(values) else 0;
    ghost var points := series;
    var j := 0;
    while j < |series|
      invariant 0 <= j <= |series| == |points|
      invariant Values(series) == Values(points)
      invariant forall i :: 0 <= i < |series| ==>
                  series[i] == points[i].(width := if i < j then Width(points[i].value, maxValue) else points[i].width)
    {
      series := series[j := series[j].(width := Width(series[j].value, maxValue))];
      j := j + 1;
    }
    assert maxValue == Peak(Values(series));
    SeriesWidths(series);
  }

  /** Bars scaled against the series' own peak: none is wider than 100, the
      peak's bar is exactly 100, and a series whose peak is not positive is flat. */
  lemma SeriesWidths(series: seq<TrendPoint>)
    requires forall i :: 0 <= i < |series| ==> series[i].width == Width(series[i].value, Peak(Values(series)))
    ensures forall i :: 0 <= i < |series| ==>
              && series[i].width <= 100
              && (series[i].value >= 0 ==> series[i].width >= 0)
              && (series[i].value == Peak(Values(series)) > 0 ==> series[i].width == 100)
              && (Peak(Values(series)) <= 0 ==> series[i].width == 0)
  {
    var peak := Peak(Values(series));
    forall i | 0 <= i < |series|
      ensures series[i].width <= 100 && (series[i].value >= 0 ==> series[i].width >= 0)
      ensures series[i].value == peak > 0 ==> series[i].width == 100
      ensures peak <= 0 ==> series[i].width == 0
    {
      assert Values(series)[i] == series[i].value;
      WidthBounds(series[i].value, series[i].value, peak);
    }
  }

  /* ---------------- KPIs ---------------- */

  /** `COUNT(*) ... WHERE status = ?`. */
  function CountStatus(orders: seq<Order>, status: string): (r: nat)
    ensures r <= |orders|
  {
    if orders == [] then 0
    else CountStatus(orders[..|orders| - 1], status) + (if orders[|orders| - 1].status == status then 1 else 0)
  }

  /** The `status` column of the table, row by row. */
  function StatusColumn(orders: seq<Order>): seq<string> {
    seq(|orders|, k requires 0 <= k < |orders| => orders[k].status)
  }

  /** The count is the number of rows holding that status: its multiplicity
      in the status column. */
  lemma {:induction false} CountStatusIsMultiplicity(orders: seq<Order>, status: string)
    ensures CountStatus(orders, status) == multiset(StatusColumn(orders))[status]
  {
    if orders != [] {
      var init := orders[..|orders| - 1];
      CountStatusIsMultiplicity(init, status);
      assert StatusColumn(orders) == StatusColumn(init) + [orders[|orders| - 1].status];
    }
  }

  /** The statuses the dashboard counts as pending. */
  predicate IsPending(status: string) {
    status == "New" || status == "Preparing" || status == "Out for delivery"
  }

  /** `COUNT(*) ... WHERE status IN ('New', 'Preparing', 'Out for delivery')`. */
  function CountPending(orders: seq<Order>): (r: nat)
    ensures r <= |orders|
  {
    if orders == [] then 0
    else CountPending(orders[..|orders| - 1]) + (if IsPending(orders[|orders| - 1].status) then 1 else 0)
  }

  /** The pending count is the sum of the three status counts it covers. */
  lemma {:induction false} CountPendingByStatus(orders: seq<Order>)
    ensures CountPending(orders) ==
              CountStatus(orders, "New") + CountStatus(orders, "Preparing") + CountStatus(orders, "Out for delivery")
  {
    if orders != [] {
      CountPendingByStatus(orders[..|orders| - 1]);
    }
  }

  /** `COALESCE(SUM(total_amount), 0)`. */
  function Revenue(orders: seq<Order>): int {
    if orders == [] then 0 else Revenue(orders[..|orders| - 1]) + orders[|orders| - 1].totalAmount
  }

  /** The sum is additive over a split of the rows, and one row contributes
      its own total. */
  lemma {:induction false} RevenueSplit(a: seq<Order>, b: seq<Order>)
    ensures Revenue(a + b) == Revenue(a) + Revenue(b)
    ensures |b| == 1 ==> Revenue(b) == b[0].totalAmount
  {
    if b == [] {
      assert a + b == a;
    } else {
      var init := b[..|b| - 1];
      RevenueSplit(a, init);
      assert (a + b)[..|a + b| - 1] == a + init;
      assert (a + b)[|a + b| - 1] == b[|b| - 1];
    }
  }

  /** The orders whose creation day (after the local-time conversion `dayOf`)
      is `day`: the `orders_today` query. */
  function OrdersOn(orders: seq<Order>, dayOf: int -> int, day: int): (r: seq<Order>)
    ensures |r| <= |orders|
    ensures forall k :: 0 <= k < |r| ==> dayOf(r[k].createdAt) == day
  {
    if orders == [] then []
    else
      var last := orders[|orders| - 1];
      OrdersOn(orders[..|orders| - 1], dayOf, day) + (if dayOf(last.createdAt) == day then [last] else [])
  }

  /** Every order created on the day is kept, as often as the table holds
      it, and no other order is. */
  lemma {:induction false} OrdersOnCount(orders: seq<Order>, dayOf: int -> int, day: int, o: Order)
    ensures multiset(OrdersOn(orders, dayOf, day))[o] == if dayOf(o.createdAt) == day then multiset(orders)[o] else 0
  {
    if orders != [] {
      var init := orders[..|orders| - 1];
      assert orders == init + [orders[|orders| - 1]];
      OrdersOnCount(init, dayOf, day, o);
    }
  }

  /** The distinct phones: `COUNT(DISTINCT phone)` is its size. */
  function Phones(orders: seq<Order>): (r: set<string>)
    ensures |r| <= |orders|
    ensures forall k :: 0 <= k < |orders| ==> orders[k].phone in r
  {
    if orders == [] then {}
    else
      var init := orders[..|orders| - 1];
      assert forall k :: 0 <= k < |init| ==> init[k] == orders[k];
      Phones(init) + {orders[|orders| - 1].phone}
  }

  /** Only phones of orders are in the set, so its size is the number of
      distinct phones. */
  lemma {:induction false} PhonesSound(orders: seq<Order>)
    ensures forall p :: p in Phones(orders) ==> exists k :: 0 <= k < |orders| && orders[k].phone == p
  {
    if orders != [] {
      var init := orders[..|orders| - 1];
      PhonesSound(init);
      forall p | p in Phones(orders)
        ensures exists k :: 0 <= k < |orders| && orders[k].phone == p
      {
        if p in Phones(init) {
          var k :| 0 <= k < |init| && init[k].phone == p;
          assert orders[k] == init[k];
        } else {
          assert orders[|orders| - 1].phone == p;
        }
      }
    }
  }

  function PhoneCount(orders: seq<Order>, phone: string): nat {
    if orders == [] then 0
    else PhoneCount(orders[..|orders| - 1], phone) + (if orders[|orders| - 1].phone == phone then 1 else 0)
  }

  /** `SELECT phone ... GROUP BY phone HAVING COUNT(*) > 1`. */
  function RepeatPhones(orders: seq<Order>): set<string> {
    set p | p in Phones(orders) && PhoneCount(orders, p) > 1
  }

  /** A row holding the phone makes its count positive. */
  lemma {:induction false} PhoneCountAt(orders: seq<Order>, p: string, k: nat)
    requires k < |orders| && orders[k].phone == p
    ensures PhoneCount(orders, p) > 0
  {
    var n := |orders| - 1;
    if k < n {
      PhoneCountAt(orders[..n], p, k);
    }
  }

  /** A positive count has a row holding the phone. */
  lemma {:induction false} PhoneCountWitness(orders: seq<Order>, p: string) returns (k: nat)
    requires PhoneCount(orders, p) > 0
    ensures k < |orders| && orders[k].phone == p
  {
    var n := |orders| - 1;
    if orders[n].phone == p {
      k := n;
    } else {
      k := PhoneCountWitness(orders[..n], p);
      assert orders[k] == orders[..n][k];
    }
  }

  /** Two different rows holding the phone make its count above 1. */
  lemma {:induction false} PhoneCountPair(orders: seq<Order>, p: string, i: nat, j: nat)
    requires i < j < |orders| && orders[i].phone == p && orders[j].phone == p
    ensures PhoneCount(orders, p) > 1
  {
    var n := |orders| - 1;
    var init := orders[..n];
    assert init[i] == orders[i];
    if j < n {
      PhoneCountPair(init, p, i, j);
    } else {
      PhoneCountAt(init, p, i);
    }
  }

  /** A count above 1 has two different rows holding the phone. */
  lemma {:induction false} PhoneCountPairWitness(orders: seq<Order>, p: string) returns (i: nat, j: nat)
    requires PhoneCount(orders, p) > 1
    ensures i < j < |orders| && orders[i].phone == p && orders[j].phone == p
  {
    var n := |orders| - 1;
    var init := orders[..n];
    if orders[n].phone == p {
      i := PhoneCountWitness(init, p);
      j := n;
      assert orders[i] == init[i];
    } else {
      i, j := PhoneCountPairWitness(init, p);
      assert orders[i] == init[i] && orders[j] == init[j];
    }
  }

  /** A phone occurs on two different rows exactly when its count is above 1. */
  lemma PhoneCountRepeat(orders: seq<Order>, p: string)
    ensures PhoneCount(orders, p) > 1 <==>
              exists i, j :: 0 <= i < j < |orders| && orders[i].phone == p && orders[j].phone == p
  {
    if PhoneCount(orders, p) > 1 {
      var i, j := PhoneCountPairWitness(orders, p);
    }
    if exists i, j :: 0 <= i < j < |orders| && orders[i].phone == p && orders[j].phone == p {
      var i: nat, j: nat :| i < j < |orders| && orders[i].phone == p && orders[j].phone == p;
      PhoneCountPair(orders, p, i, j);
    }
  }

  /** The repeat customers are exactly the phones that appear on two
      different orders. */
  lemma RepeatPhonesExact(orders: seq<Order>, p: string)
    ensures p in RepeatPhones(orders) <==>
              exists i, j :: 0 <= i < j < |orders| && orders[i].phone == p && orders[j].phone == p
  {
    PhoneCountRepeat(orders, p);
    if exists i, j :: 0 <= i < j < |orders| && orders[i].phone == p && orders[j].phone == p {
      var i, j :| 0 <= i < j < |orders| && orders[i].phone == p && orders[j].phone == p;
      assert orders[i].phone in Phones(orders);
    }
  }

  /** A subset is no larger than its superset. */
  lemma {:induction false} SubsetSize<T>(a: set<T>, b: set<T>)
    requires a <= b
    ensures |a| <= |b|
    decreases |b|
  {
    if a != {} {
      var x :| x in a;
      SubsetSize(a - {x}, b - {x});
    }
  }

  /** `(total_revenue / total_orders) if total_orders else 0`. */
  function AverageOrderValue(revenue: int, count: nat): (r: real)
    ensures count == 0 ==> r == 0.0
    ensures count > 0 ==> r * count as real == revenue as real
  {
    if count > 0 then revenue as real / count as real else 0.0
  }

  /** `(part / whole * 100) if whole else 0`. */
  function Percentage(part: nat, whole: nat): (r: real)
    ensures whole == 0 ==> r == 0.0
    ensures whole > 0 ==> r * whole as real == 100.0 * part as real
    ensures part <= whole ==> 0.0 <= r <= 100.0
  {
    if whole > 0 then part as real / whole as real * 100.0 else 0.0
  }

  /** The KPI figures the dashboard formats. */
  datatype Kpis = Kpis(
    totalOrders: nat,
    totalRevenue: int,
    ordersToday: nat,
    revenueToday: int,
    completedOrders: nat,
    pendingOrders: nat,
    uniqueCustomers: nat,
    repeatCustomers: nat,
    menuItems: nat,
    averageOrderValue: real,
    onTimeRate: real,
    repeatRate: real)

  /** The KPI block of `get_admin_dashboard_context`, from the orders table,
      the menu size, the local-time day of a timestamp and today's day.
      Completed plus pending orders never exceed all orders, repeat
      customers never exceed customers, and customers and today's orders
      never exceed orders. */
  function DashboardKpis(orders: seq<Order>, menuItems: nat, dayOf: int -> int, today: int): (k: Kpis)
    ensures k.completedOrders + k.pendingOrders <= k.totalOrders
    ensures k.repeatCustomers <= k.uniqueCustomers <= k.totalOrders
    ensures k.ordersToday <= k.totalOrders
  {
    CompletedAndPending(orders);
    SubsetSize(RepeatPhones(orders), Phones(orders));
    var today' := OrdersOn(orders, dayOf, today);
    var total := |orders|;
    var completed := CountStatus(orders, "Completed");
    var unique := |Phones(orders)|;
    var repeat := |RepeatPhones(orders)|;
    Kpis(total, Revenue(orders), |today'|, Revenue(today'), completed, CountPending(orders),
         unique, repeat, menuItems, AverageOrderValue(Revenue(orders), total),
         Percentage(completed, total), Percentage(repeat, unique))
  }

  /** Completed and pending orders are disjoint parts of all orders. */
  lemma {:induction false} CompletedAndPending(orders: seq<Order>)
    ensures CountStatus(orders, "Completed") + CountPending(orders) <= |orders|
  {
    if orders != [] {
      CompletedAndPending(orders[..|orders| - 1]);
    }
  }

  /** The KPI ratios: both rates are percentages, every ratio is 0 when its
      denominator is, and the average order value times the order count is
      the revenue. */
  lemma KpiRates(orders: seq<Order>, menuItems: nat, dayOf: int -> int, today: int)
    ensures var k := DashboardKpis(orders, menuItems, dayOf, today);
            && 0.0 <= k.onTimeRate <= 100.0
            && 0.0 <= k.repeatRate <= 100.0
            && (k.totalOrders == 0 ==> k.averageOrderValue == 0.0 && k.onTimeRate == 0.0)
            && (k.uniqueCustomers == 0 ==> k.repeatRate == 0.0)
            && (k.totalOrders > 0 ==> k.averageOrderValue * k.totalOrders as real == k.totalRevenue as real)
  {
  }

  /* ---------------- category mix ---------------- */

  /** A row of `SELECT category, COUNT(*) ... GROUP BY category`. */
  datatype CategoryRow = CategoryRow(category: string, count: nat)

  /** One bar of the category mix. */
  datatype MixEntry = MixEntry(category: string, count: nat, width: int)

  function CountSum(rows: seq<CategoryRow>): nat {
    if rows == [] then 0 else CountSum(rows[..|rows| - 1]) + rows[|rows| - 1].count
  }

  /** `sum(row["count"] for row in category_rows) or 1`. */
  function CategoryTotal(rows: seq<CategoryRow>): (t: int)
    ensures t >= 1 && t >= CountSum(rows)
    ensures CountSum(rows) > 0 ==> t == CountSum(rows)
    ensures CountSum(rows) == 0 ==> t == 1
  {
    var s := CountSum(rows);
    if s == 0 then 1 else s
  }

  /** The entries for `rows` against a given total. */
  function MixAgainst(rows: seq<CategoryRow>, total: int): (mix: seq<MixEntry>)
    requires total >= 1
    ensures |mix| == |rows|
    ensures forall i :: 0 <= i < |rows| ==>
              mix[i] == MixEntry(rows[i].category, rows[i].count, TruncDiv(rows[i].count * 100, total))
  {
    if rows == [] then []
    else MixAgainst(rows[..|rows| - 1], total) + [MixEntry(rows[|rows| - 1].category, rows[|rows| - 1].count,
                                                          TruncDiv(rows[|rows| - 1].count * 100, total))]
  }

  /** The `category_mix` list: the rows in query order, each with its share
      of the total in whole percent. */
  function CategoryMix(rows: seq<CategoryRow>): (mix: seq<MixEntry>)
    ensures |mix| == |rows|
    ensures forall i :: 0 <= i < |rows| ==> mix[i].category == rows[i].category && mix[i].count == rows[i].count
    ensures forall i :: 0 <= i < |rows| ==> 0 <= mix[i].width <= 100
    ensures forall i :: 0 <= i < |rows| ==>
              mix[i].width * CategoryTotal(rows) <= 100 * rows[i].count < mix[i].width * CategoryTotal(rows) + CategoryTotal(rows)
  {
    var total := CategoryTotal(rows);
    var mix := MixAgainst(rows, total);
    forall i | 0 <= i < |rows| ensures 0 <= mix[i].width <= 100 {
      CountBelowSum(rows, i);
      TruncDivSign(rows[i].count * 100, total);
      TruncDivMonotone(rows[i].count * 100, total * 100, total);
      TruncDivWhole(total, 100);
    }
    mix
  }

  lemma {:induction false} CountBelowSum(rows: seq<CategoryRow>, i: nat)
    requires i < |rows|
    ensures rows[i].count <= CountSum(rows)
  {
    if i < |rows| - 1 {
      CountBelowSum(rows[..|rows| - 1], i);
    }
  }

  function WidthSum(mix: seq<MixEntry>): int {
    if mix == [] then 0 else WidthSum(mix[..|mix| - 1]) + mix[|mix| - 1].width
  }

  /** Truncated shares never add up to more than the whole: the widths of the
      category mix sum to at most 100. */
  lemma CategoryWidthsSum(rows: seq<CategoryRow>)
    ensures WidthSum(CategoryMix(rows)) <= 100
  {
    var total := CategoryTotal(rows);
    ScaledWidthSum(rows, total);
    var w := WidthSum(MixAgainst(rows, total));
    assert w * total <= 100 * total;
    MulMonotone(w, 100, total);
  }

  lemma {:induction false} ScaledWidthSum(rows: seq<CategoryRow>, total: int)
    requires total >= 1
    ensures WidthSum(MixAgainst(rows, total)) * total <= 100 * CountSum(rows)
  {
    if rows != [] {
      var init := rows[..|rows| - 1];
      var last := rows[|rows| - 1];
      ScaledWidthSum(init, total);
      var before := MixAgainst(init, total);
      var e := MixEntry(last.category, last.count, TruncDiv(last.count * 100, total));
      assert MixAgainst(rows, total) == before + [e];
      WidthSumAppend(before, e);
      Distribute(WidthSum(before), e.width, total);
      assert CountSum(rows) == CountSum(init) + last.count;
    }
  }

  lemma WidthSumAppend(mix: seq<MixEntry>, e: MixEntry)
    ensures WidthSum(mix + [e]) == WidthSum(mix) + e.width
  {
    assert (mix + [e])[..|mix|] == mix;
  }

  lemma Distribute(a: int, b: int, t: int)
    ensures (a + b) * t == a * t + b * t
  {
  }
}
