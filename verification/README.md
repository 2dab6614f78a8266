# Swaad-e-Bihar order engine — a Dafny model

This project models the order-lifecycle core of the Swaad-e-Bihar food-ordering web
application (`app.py`). The core covers these parts:

- **Session cart.** A map from menu item id to quantity, kept in the dict's order within
  one request. The "add" and "remove" buttons edit it, and "clear" empties it.
- **Cart pricing.** The cart is looked up in the menu catalogue. Unknown items are
  dropped, each line is priced, and a subtotal is summed.
- **Checkout.** Required fields are checked, a flat delivery fee of 20 rupees is added,
  and the order is created.
- **Order reference.** The reference reads `ORD-YYYYMMDD-XXXXXX`.
- **Order store.** Three tables (`orders`, `order_events`, `audit_logs`) each carry an
  AUTOINCREMENT counter. Every route that writes to them is one atomic method:
  - customer checkout, customer order request and admin create;
  - admin edit and admin delete;
  - accept and reject;
  - the JSON status update;
  - clear all.
- **Order lookups.** Public tracking by reference or id plus phone, the access rule of
  the order-detail API, and the customer dashboard, which groups order history by order.
- **Admin analytics.** The 7-day trend series with bar widths, the KPI counts and
  ratios, and the menu category mix.

Money is kept in integer minor units (1/100 rupee), so the delivery fee is `2000`.
Python's `str.strip()` is modelled exactly over the `str.isspace()` character set. A
NULL text column is the empty string. Today's date, the three random token bytes, the
current timestamp, the session's cart and the session's admin and customer ids are
parameters.

Module layout:

| file | module | contents |
|---|---|---|
| `wrappers.dfy` | `Wrappers` | `Option` |
| `text.dfy` | `Text` | `strip()`, blank tests, `or` defaults, decimal rendering of ids |
| `order_reference.dfy` | `OrderReference` | reference format and its parser |
| `session_cart.dfy` | `SessionCart` | cart edit functions, the `Cart` class |
| `cart_pricing.dfy` | `CartPricing` | catalogue lookup, line totals, subtotal, delivery fee |
| `order_ledger.dfy` | `OrderLedger` | table rows, admin form validation, row updates, the ledger invariant |
| `order_store.dfy` | `OrderStore` | the `Store` class with one method per writing route |
| `order_lookup.dfy` | `OrderLookup` | newest-first ordering, tracking, detail access, dashboard grouping |
| `dashboard_analytics.dfy` | `DashboardAnalytics` | trend series, KPIs, category mix |

The ledger invariant `OrderStore.Store.Valid` (`OrderLedger.Consistent`) has three parts:

- row ids in each table strictly increase and stay below the table's counter;
- every live order has at least one event in `order_events`;
- every live order has a `create` entry in `audit_logs`.

Every writing method keeps the invariant.

## Model

| member | source | states |
|---|---|---|
| Text.Trim | app.py:303-306 | `strip()`: the result is no longer than the input, neither starts nor ends with white space, and is empty exactly when the input is all white space |
| Text.TrimIsSlice | app.py:303-306 | the stripped text is a slice of the input with only white space removed before and after it |
| Text.TrimIdempotent | app.py:303-306 | stripping twice is the same as stripping once |
| Text.BlankIffAllSpace | app.py:307 | a field fails the `not name` test exactly when every character is white space |
| Text.OrDefault | app.py:1571-1573 | `x.strip() or "Cash"`: the default is used exactly when the input is blank, otherwise the stripped, non-empty input is used |
| Text.NatToDecimal | app.py:254 | `CAST(id AS TEXT)`: all digits, decimal value equal to the id, no leading zero |
| Text.IntToDecimalInjective | app.py:254 | distinct ids have distinct textual forms, so an id-as-text match names one id |
| OrderReference.DateStamp | app.py:513 | `%Y%m%d`: 8 digits whose year, month and day fields read back as the date |
| OrderReference.ByteHex | app.py:514 | one random byte becomes two upper-case hex digits whose value is the byte |
| OrderReference.FormatReference | app.py:512-515 | 19 characters: `ORD-`, the date stamp of today, `-`, then 6 upper-case hex characters |
| OrderReference.ParseFormatted | app.py:512-515 | the reference round-trips: parsing it gives back the date and the 3 token bytes |
| OrderReference.ReferenceInjective | app.py:512-515 | different (date, token) pairs never produce the same reference |
| SessionCart.Find | app.py:371 | position of the key in the cart; none exactly when the key is absent |
| SessionCart.Added | app.py:368-372 | the cart after `cart[key] = cart.get(key, 0) + 1`; its meaning is stated by AddedQuantities, EditsKeepWellFormed and AddThenRemove |
| SessionCart.Removed | app.py:376-385 | the cart after `cart_remove`; its meaning is stated by RemovedQuantities, EditsKeepWellFormed and AddThenRemove |
| SessionCart.AddedQuantities | app.py:368-372 | add raises the item's quantity by exactly 1 and leaves every other item's quantity unchanged |
| SessionCart.RemovedQuantities | app.py:376-385 | remove decrements a quantity above 1, drops the key at 1 or below, does nothing for an absent key, and leaves other items unchanged |
| SessionCart.EditsKeepWellFormed | app.py:368-385 | add and remove keep the cart's keys unique and its quantities at least 1 |
| SessionCart.AddThenRemove | app.py:368-385 | n adds followed by n removes of one item give back the original cart, key order included |
| SessionCart.Cart.constructor | app.py:468-469 | a new session cart is empty |
| SessionCart.Cart.Add | app.py:368-372 | the cart becomes the "added" cart and stays well formed |
| SessionCart.Cart.Remove | app.py:376-385 | the cart becomes the "removed" cart and stays well formed |
| SessionCart.Cart.Clear | app.py:388-390 | the cart becomes empty |
| CartPricing.PriceLine | app.py:487-502 | an id missing from the catalogue yields nothing; a known id yields one line with the menu name, the catalogue price and `line_total = price * qty` |
| CartPricing.Priced | app.py:487-502 | the priced cart lines in cart order; PricedLines, PricedFromCart, PricedQuantities and PricedKeepsOrder state their content and GetCartItems computes them |
| CartPricing.PricedLines | app.py:487-502 | every priced line is a catalogue item whose line total is price times quantity, with a NULL price counted as 0 |
| CartPricing.PricedFromCart | app.py:487-502 | every priced line carries the menu's name for its id and the item id and quantity of some cart line |
| CartPricing.PricedQuantities | app.py:487-502 | in a well-formed cart every priced line's quantity is the cart's quantity for that item |
| CartPricing.GetCartItems | app.py:472-503 | the loop returns exactly the priced lines and their sum; an empty cart gives `([], 0)` |
| CartPricing.PricedKeepsOrder | app.py:472-503 | the priced ids are the cart's ids, in cart order, with the unknown ids removed |
| CartPricing.OrderTotal | app.py:310-311 | the delivery fee of 20 rupees is added exactly when the subtotal is above 0 |
| CartPricing.SubtotalUniformPrice | app.py:491-493 | a cart of same-priced lines costs the price times the total quantity |
| CartPricing.SubtotalNonNegative | app.py:491-503 | with non-negative prices the subtotal is non-negative, and the total adds the fee exactly when the subtotal is non-zero |
| OrderLedger.CheckForm | app.py:1475-1496 | the admin form is rejected for a blank name, phone, area or items, and then for a non-numeric total; it is never rejected for an empty cart |
| OrderLedger.FormTotal | app.py:1492 | `float(total_raw or 0)`: a blank amount is 0 |
| OrderLedger.ApplyForm | app.py:1563-1621 | the edited row keeps its id, customer and creation time; it takes the stripped fields, the `Cash`/`Unpaid`/`Admin` defaults, the submitted status and the new timestamp |
| OrderLedger.FindOrder | app.py:1559-1560 | `SELECT * FROM orders WHERE id = ?`: the row with that id, none exactly when no row has it |
| OrderLedger.WithStatus | app.py:1672-1675 | `UPDATE orders SET status, updated_at WHERE id = ?`: only the row with that id changes, and only in those two columns |
| OrderLedger.WithoutOrder | app.py:1661 | `DELETE FROM orders WHERE id = ?`: no remaining row has that id |
| OrderLedger.WithoutOrderRemovesOne | app.py:1661 | deleting removes exactly the one matching row and keeps the others in order; deleting an unknown id changes nothing |
| OrderLedger.WithoutOrderKeepsRows | app.py:1661 | every remaining row is an unchanged original row |
| OrderLedger.AppendEventConsistent | app.py:536-551 | appending an event with the next event id keeps the ledger invariant |
| OrderLedger.AppendAuditConsistent | app.py:518-533 | appending an audit entry with the next audit id keeps the ledger invariant |
| OrderLedger.AppendOrderConsistent | app.py:316-361 | appending an order that already has its event and `create` audit entry keeps the ledger invariant |
| OrderLedger.ReplaceAtConsistent | app.py:1588-1639 | overwriting a row with a row of the same id keeps the ledger invariant |
| OrderLedger.DeleteConsistent | app.py:1648-1665 | deleting an order keeps the ledger invariant; its events stay behind |
| OrderStore.ItemsSummary | app.py:312 | the `name xqty` summary is empty exactly when there are no items |
| OrderStore.Store.constructor | app.py:576-615 | empty tables satisfy the ledger invariant |
| OrderStore.Store.LogOrderEvent | app.py:536-551 | appends exactly one event with the next id and touches nothing else |
| OrderStore.Store.LogAuditEvent | app.py:518-533 | appends exactly one audit entry with the next id and touches nothing else |
| OrderStore.Store.CreateOrder | app.py:316-361 | appends one order, one event with the new order's id and one `create`/`order` audit entry with the same id; each counter advances by 1 |
| OrderStore.Store.Checkout | app.py:296-366 | an empty priced cart or a blank name, phone or area writes nothing; otherwise it appends one order with the priced items and total = subtotal + fee, a `New` event and a `create` audit entry, and empties the cart |
| OrderStore.Store.PlaceCartOrder | app.py:312-364 | one `New`/`Cash`/`Pending`/`Website-Cart` order carrying the item summary and the fee-inclusive total, one `Cart checkout` event, one `create` audit entry naming the reference, then an empty cart |
| OrderStore.Store.RequestOrder | app.py:888-946 | a blank name, phone, area or items writes nothing; otherwise one `New` order, one `New` event and one `create` audit entry |
| OrderStore.Store.AdminCreate | app.py:1472-1545 | it is rejected exactly when the form check fails, writing nothing; otherwise one order, an event carrying the submitted status and one `create` audit entry |
| OrderStore.Store.ReplaceOrder | app.py:1588-1639 | the row is replaced; one event `Status changed from <old>` is added only if the status differs; one `update` audit entry is always added |
| OrderStore.Store.AdminEdit | app.py:1555-1643 | an unknown id and a rejected form both write nothing; otherwise the row is rewritten from the form; a blank reference keeps the stored one, or a fresh one when that is empty; the event is added only on a status change and the audit entry always |
| OrderStore.Store.DeleteOrder | app.py:1648-1665 | removes the order row, keeps its events and appends one `delete` audit entry |
| OrderStore.Store.SetStatusLogged | app.py:1668-1687 | sets the status of the matching row and appends one event, with no audit entry |
| OrderStore.Store.Accept | app.py:1668-1687 | status `Preparing`, one `Accepted by admin` event, no audit entry |
| OrderStore.Store.Reject | app.py:1690-1709 | status `Cancelled`, one `Rejected by admin` event, no audit entry |
| OrderStore.Store.SetStatusAudited | app.py:1921-1941 | sets the status, appends one event and one `update` audit entry naming the new status |
| OrderStore.Store.UpdateStatusApi | app.py:1908-1944 | a blank status gives 400 and an unknown order 404, both with no writes; otherwise the status is set and one event and one audit entry are appended, with the note defaulting to `Status updated via API` |
| OrderStore.Store.ClearOrders | app.py:1712-1730 | every order is removed, events are kept, and one bulk `delete`/`orders` audit entry is appended |
| OrderLookup.Insert | app.py:256 | inserting into a newest-first list keeps it newest first, by `(created_at DESC, id DESC)`, and adds exactly that element |
| OrderLookup.SortNewest | app.py:256 | `ORDER BY created_at DESC, id DESC`: newest first and a permutation of the rows |
| OrderLookup.EventsOf | app.py:266 | `WHERE order_id = ?`: only the order's events |
| OrderLookup.EventsOfCount | app.py:266 | the filter keeps every copy of a matching event and no other event |
| OrderLookup.History | app.py:265-268 | the order's events, newest first, as a permutation of the events filtered by order id: every copy kept, so each event appears once when event ids are unique |
| OrderLookup.TrackMatches | app.py:254-255 | the tracking `WHERE` clause: the reference or the id as text matches, and the phone matches; NewestMatch states the row it selects |
| OrderLookup.NewestMatch | app.py:251-260 | none exactly when no order matches; otherwise a matching order listed first among all matches |
| OrderLookup.TrackOrder | app.py:236-275 | no query when the stripped reference or phone is blank; not found exactly when no order matches by reference or id-as-text together with phone; otherwise the newest match and its history |
| OrderLookup.TrackFindsOrder | app.py:251-268 | when an order matches and was created strictly later than every other matching order (a sole match included), tracking returns that order and its history |
| OrderLookup.OrderDetail | app.py:1861-1892 | 404 exactly when no row has the id; 403 exactly when the caller is not an admin and the session customer differs from the order's customer |
| OrderLookup.CanView | app.py:1868-1870 | the detail access rule: an admin session, or a customer id in the session equal to the order's; DetailAccess states its consequences |
| OrderLookup.DetailAccess | app.py:1868-1872 | an admin sees every order; a non-admin sees an order exactly when the customer ids are equal, including the case where neither is set |
| OrderLookup.OrdersOf | app.py:432-435 | `WHERE customer_id = ?`: only the customer's orders |
| OrderLookup.OrdersOfCount | app.py:432-435 | every order of the customer is kept, as many times as the table holds it, and no other order |
| OrderLookup.EventsOfOrders | app.py:440-447 | `WHERE order_id IN (...)`: only events of the listed orders |
| OrderLookup.EventsOfNarrow | app.py:440-447 | narrowing to a set of orders keeps every event of each order in the set |
| OrderLookup.GroupByOrder | app.py:448-449 | the `setdefault(...).append` loop builds one group per logged order holding exactly that order's events in listing order |
| OrderLookup.ListingGroups | app.py:436-449 | each group is newest first and holds exactly its order's events; a listed order has a group exactly when it has events |
| OrderLookup.CustomerDashboard | app.py:427-458 | the customer's orders newest first, and for each of them that has events the complete newest-first history |
| DashboardAnalytics.TruncDiv | app.py:811 | `int()` truncates toward zero: the quotient brackets the dividend from below for non-negative and from above for negative values |
| DashboardAnalytics.Lookup | app.py:800 | the `{row["day"]: row}` dictionary; DayValueOfRows states what it yields |
| DashboardAnalytics.DayValue | app.py:806 | `lookup.get(key, {}).get(value_key, 0) or 0`; DayValueOfRows states its value |
| DashboardAnalytics.DayValueOfRows | app.py:800-806 | a day with no row reads 0; otherwise it reads the value of the last row for that day |
| DashboardAnalytics.WeekdayLabel | app.py:807 | `%a` is one of the seven three-letter weekday names |
| DashboardAnalytics.WeekdayCycle | app.py:807 | day 1 is a Monday, each day is named after the day before it, and the names repeat every 7 days |
| DashboardAnalytics.Peak | app.py:809 | `max(values) if values else 0`: an upper bound attained by some value, and 0 for no values |
| DashboardAnalytics.Width | app.py:811 | the truncated percentage of the peak, 0 without a positive peak; WidthBounds states its bounds |
| DashboardAnalytics.WidthBounds | app.py:811 | a width is at most 100 for values up to the peak, non-negative for non-negative values, 100 at a positive peak, 0 when the peak is not positive, and monotone in the value |
| DashboardAnalytics.SeriesWidths | app.py:809-811 | every bar of the series is at most 100 wide, non-negative for a non-negative value, 100 for a value equal to a positive peak, and 0 throughout when the peak is not positive |
| DashboardAnalytics.BuildTrendSeries | app.py:798-812 | exactly `days` points for consecutive days ending today, oldest first, each zero-filled from the rows, with widths of at most 100, 100 at the peak and all 0 when the peak is 0 |
| DashboardAnalytics.CountStatus | app.py:825-827 | a status count never exceeds the number of orders |
| DashboardAnalytics.CountStatusIsMultiplicity | app.py:825-827 | the status count is the number of rows holding that status, its multiplicity in the status column |
| DashboardAnalytics.CountPending | app.py:828-830 | the pending count, over `New`, `Preparing` and `Out for delivery`, never exceeds the number of orders |
| DashboardAnalytics.CountPendingByStatus | app.py:828-830 | the pending count is the `New` count plus the `Preparing` count plus the `Out for delivery` count |
| DashboardAnalytics.Revenue | app.py:818 | `COALESCE(SUM(total_amount), 0)`; RevenueSplit states its value |
| DashboardAnalytics.RevenueSplit | app.py:818 | the revenue of two parts of a table adds up, and one row contributes its own total, so the revenue is the sum of the totals |
| DashboardAnalytics.OrdersOn | app.py:819-824 | only orders created on the given local day |
| DashboardAnalytics.OrdersOnCount | app.py:819-824 | every order created on the day is kept, as many times as the table holds it, and no other order |
| DashboardAnalytics.Phones | app.py:831-833 | `COUNT(DISTINCT phone)`: every order's phone, and no more distinct phones than orders |
| DashboardAnalytics.PhonesSound | app.py:831-833 | the set holds only phones of orders, so with Phones its size is `COUNT(DISTINCT phone)` |
| DashboardAnalytics.RepeatPhones | app.py:834-836 | the phones with more than one order; RepeatPhonesExact states which |
| DashboardAnalytics.PhoneCountRepeat | app.py:834-836 | a phone's count is above 1 exactly when it appears on two different orders |
| DashboardAnalytics.RepeatPhonesExact | app.py:834-836 | the repeat customers are exactly the phones appearing on two different orders |
| DashboardAnalytics.AverageOrderValue | app.py:853 | 0 when there are no orders, otherwise times the order count it gives back the revenue |
| DashboardAnalytics.Percentage | app.py:854-855 | 0 for an empty whole; otherwise exactly 100 * part / whole, and within [0, 100] when the part is within the whole |
| DashboardAnalytics.CompletedAndPending | app.py:825-830 | completed and pending orders together never exceed all orders |
| DashboardAnalytics.DashboardKpis | app.py:817-855 | completed plus pending orders, unique customers and today's orders never exceed all orders, and repeat customers never exceed unique customers |
| DashboardAnalytics.KpiRates | app.py:853-855 | the on-time and repeat rates lie in [0, 100]; each ratio is 0 when its denominator is 0; otherwise the average order value times the order count is the revenue |
| DashboardAnalytics.CategoryTotal | app.py:860 | `sum(...) or 1`: the true sum when it is positive, exactly 1 when it is 0 |
| DashboardAnalytics.MixAgainst | app.py:861-868 | one entry per category row, same label and count, with the width as the truncated share of the total |
| DashboardAnalytics.CategoryMix | app.py:860-868 | one entry per row with the same label and count, and a width within [0, 100] that is the truncated percentage share |
| DashboardAnalytics.CategoryWidthsSum | app.py:860-868 | the category widths add up to at most 100 |

## Left out

- Flask routing, templates, `flash`/`redirect`, security headers, robots.txt/sitemap and the static dashboards dictionary are presentation only; a route's outcome is a result value.
- SQLite connections, `init_db`, `ensure_column` and the seed data are left out; the tables are in-memory sequences and a failed write or rollback is not modelled.
- The SQL `localtime` conversion is left out: the KPIs take a `dayOf` function from timestamp to local day, and the trend rows and category rows (the SQL `GROUP BY` results) are inputs.
- Days are proleptic day numbers (day 1 is Monday 0001-01-01); `date.isoformat()` keys are those numbers, not strings.
- Session and cookie storage are left out: the cart, the admin id and the customer id are parameters.
- SessionCart.Cart and OrderStore.ItemsSummary: between requests the session serialiser sorts the cart's keys as strings, so the cart page and the items summary list items in string-key order; the model keeps insertion order across calls.
- `token_hex(3)`, `date.today()` and SQLite's `CURRENT_TIMESTAMP` are left out; their values are parameters.
- Password hashing, login, file upload and deletion, CSV export and JSON serialisation are foreign calls or I/O.
- `format_currency` and `apply_discount` depend on float formatting and rounding.
- Concurrency between requests is left out; each route is one atomic step.
- `api_customer_orders` and the admin order listing differ from the modelled lookups only in their filter, so they are covered by `OrderLookup.SortNewest` and not modelled separately.
- Characters outside Python's `isspace()` set are compared as code points; no Unicode normalisation is modelled.
- DashboardAnalytics.BuildTrendSeries: the source computes widths in floating point (`value / max * 100` then `int()`), which can land one below the exact quotient (29 / 100 * 100 is 28.999…); the model uses exact integer truncation.
- DashboardAnalytics.BuildTrendSeries: it requires the first day of the window to be day 1 or later; Python raises `OverflowError` before `date.min`, and that is not modelled.
- DashboardAnalytics.BuildTrendSeries: widths are non-negative only for non-negative values; a negative revenue (possible from an admin-entered negative total) gives a negative width, as in the source.
- DashboardAnalytics.CategoryMix: uses the same exact truncation instead of the floating-point quotient.
- DashboardAnalytics.AverageOrderValue and DashboardAnalytics.Percentage are exact rationals; the source's float results are not modelled.
- OrderLedger.FormTotal: the admin total is already parsed into minor units (`AmountInput`); float parsing of the text and `round(x, 2)` are not modelled.
- `strftime("%a")` is assumed to use the C locale's English weekday names.

Behaviour of `app.py` that the model keeps as it is:

- any status string is accepted by the admin forms and the status API; there is no transition check (app.py:1480, app.py:1569, app.py:1912);
- accept and reject log a history event but no audit entry (app.py:1668-1709);
- trend widths are truncated by `int()`, not rounded (app.py:811);
- admin create seeds its history event with the submitted status (app.py:1480, app.py:1534);
- a signed-out caller with no customer id passes the detail check for an order with no customer id, because `None == None` (app.py:1868-1870).
