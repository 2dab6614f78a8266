/** Pricing a session cart against the menu (`get_cart_items`) and the checkout
    total rule (`cart_page`, `cart_checkout`). Money is in integer minor units
    (hundredths), so Python's `round(x, 2)` is exact and disappears. */
module CartPricing {
  import opened Wrappers
  import opened SessionCart

  /** A `menu_items` row as the cart sees it; `price` is `None` for a NULL price. */
  datatype MenuItem = MenuItem(id: int, name: string, category: string, price: Option<int>)

  /** The menu looked up by id (`items_by_id`). */
  type Catalogue = map<int, MenuItem>

  /** One priced cart line (the dict appended to `cart_items`). */
  datatype CartItem = CartItem(id: int, name: string, price: int, qty: int, lineTotal: int)

  /** The delivery fee of 20 currency units, in minor units. */
  const DeliveryFee: int := 2000

  /** `float(item["price"]) if item["price"] is not None else 0`. */
  function UnitPrice(m: MenuItem): int {
    m.price.GetOr(0)
  }

  /** The priced line for one cart entry, or nothing when the id is not on the menu. */
  function PriceLine(line: Line, menu: Catalogue): (r: seq<CartItem>)
    ensures line.item !in menu <==> r == []
    ensures r != [] ==> |r| == 1 && r[0].id == line.item && r[0].qty == line.qty
    ensures r != [] ==> r[0].price == UnitPrice(menu[line.item]) && r[0].lineTotal == r[0].price * r[0].qty
    ensures r != [] ==> r[0].name == menu[line.item].name
  {
    if line.item in menu then
      var m := menu[line.item];
      [CartItem(line.item, m.name, UnitPrice(m), line.qty, UnitPrice(m) * line.qty)]
    else []
  }

  /** The priced lines of a cart, in the cart's key order, with unknown ids left out. */
  function Priced(lines: seq<Line>, menu: Catalogue): seq<CartItem> {
    if lines == [] then []
    else Priced(lines[..|lines| - 1], menu) + PriceLine(lines[|lines| - 1], menu)
  }

  /** Every priced line is a menu item at its catalogue price (a NULL price
      counting as 0), with `line_total = price * qty`. */
  lemma {:induction false} PricedLines(lines: seq<Line>, menu: Catalogue)
    ensures |Priced(lines, menu)| <= |lines|
    ensures forall k :: 0 <= k < |Priced(lines, menu)| ==>
              var c := Priced(lines, menu)[k];
              c.id in menu && c.price == UnitPrice(menu[c.id]) && c.lineTotal == c.price * c.qty
  {
    if lines != [] {
      var init := lines[..|lines| - 1];
      PricedLines(init, menu);
      var p: seq<CartItem> := Priced(init, menu);
      var q: seq<CartItem> := PriceLine(lines[|lines| - 1], menu);
      forall k | 0 <= k < |p + q|
        ensures (p + q)[k].id in menu && (p + q)[k].price == UnitPrice(menu[(p + q)[k].id])
        ensures (p + q)[k].lineTotal == (p + q)[k].price * (p + q)[k].qty
      {
        if k >= |p| {
          assert (p + q)[k] == q[0];
        }
      }
    }
  }

  /** Every priced line comes from a line of the cart: it carries that line's
      item id and quantity and the menu's name for the item. In a well-formed
      cart an id appears on one line only, so that quantity is the cart's. */
  lemma {:induction false} PricedFromCart(lines: seq<Line>, menu: Catalogue)
    ensures forall k :: 0 <= k < |Priced(lines, menu)| ==>
              var c := Priced(lines, menu)[k];
              && c.id in menu && c.name == menu[c.id].name
              && exists j :: 0 <= j < |lines| && lines[j].item == c.id && c.qty == lines[j].qty
  {
    if lines != [] {
      var n := |lines| - 1;
      var init := lines[..n];
      PricedFromCart(init, menu);
      var p: seq<CartItem> := Priced(init, menu);
      var q: seq<CartItem> := PriceLine(lines[n], menu);
      assert Priced(lines, menu) == p + q;
      forall k | 0 <= k < |p + q|
        ensures (p + q)[k].id in menu && (p + q)[k].name == menu[(p + q)[k].id].name
        ensures exists j :: 0 <= j < |lines| && lines[j].item == (p + q)[k].id && (p + q)[k].qty == lines[j].qty
      {
        if k < |p| {
          var c := p[k];
          assert (p + q)[k] == c;
          var j :| 0 <= j < |init| && init[j].item == c.id && c.qty == init[j].qty;
          assert lines[j] == init[j];
        } else {
          assert (p + q)[k] == q[0];
          assert lines[n].item == q[0].id && q[0].qty == lines[n].qty;
        }
      }
    }
  }

  /** In a well-formed cart each priced line's quantity is the cart's
      quantity for its item, `cart.get(item_id)`. */
  lemma PricedQuantities(lines: seq<Line>, menu: Catalogue)
    requires WellFormed(lines)
    ensures forall k :: 0 <= k < |Priced(lines, menu)| ==>
              Priced(lines, menu)[k].qty == QtyOf(lines, Priced(lines, menu)[k].id)
  {
    var r := Priced(lines, menu);
    PricedFromCart(lines, menu);
    forall k | 0 <= k < |r|
      ensures r[k].qty == QtyOf(lines, r[k].id)
    {
      var c := r[k];
      var j :| 0 <= j < |lines| && lines[j].item == c.id && c.qty == lines[j].qty;
      FindSpec(lines, c.id);
      assert Find(lines, c.id).Some?;
      assert Find(lines, c.id).value == j;
    }
  }

  /** The sum of the line totals. */
  function Subtotal(items: seq<CartItem>): int {
    if items == [] then 0 else Subtotal(items[..|items| - 1]) + items[|items| - 1].lineTotal
  }

  /** `get_cart_items(cart)`: the priced lines and their subtotal. */
  method GetCartItems(cart: seq<Line>, menu: Catalogue) returns (items: seq<CartItem>, subtotal: int)
    ensures items == Priced(cart, menu)
    ensures subtotal == Subtotal(items)
    ensures cart == [] ==> items == [] && subtotal == 0
  {
    if cart == [] {
      return [], 0;
    }
    items := [];
    subtotal := 0;
    var i := 0;
    while i < |cart|
      invariant 0 <= i <= |cart|
      invariant items == Priced(cart[..i], menu)
      invariant subtotal == Subtotal(items)
    {
      var line := cart[i];
      PricedStep(cart, i, menu);
      if line.item in menu {
        var item := menu[line.item];
        var price := UnitPrice(item);
        var lineTotal := price * line.qty;
        subtotal := subtotal + lineTotal;
        var entry := CartItem(line.item, item.name, price, line.qty, lineTotal);
        SubtotalAppend(items, entry);
        items := items + [entry];
      } else {
        assert items + PriceLine(line, menu) == items;
      }
      i := i + 1;
    }
    assert cart[..i] == cart;
  }

  lemma PricedStep(cart: seq<Line>, i: nat, menu: Catalogue)
    requires i < |cart|
    ensures Priced(cart[..i + 1], menu) == Priced(cart[..i], menu) + PriceLine(cart[i], menu)
  {
    assert cart[..i + 1][..i] == cart[..i];
  }

  lemma SubtotalAppend(items: seq<CartItem>, x: CartItem)
    ensures Subtotal(items + [x]) == Subtotal(items) + x.lineTotal
  {
    assert (items + [x])[..|items|] == items;
  }

  /** `20 if subtotal > 0 else 0` added to the subtotal: the order total. */
  function OrderTotal(subtotal: int): (total: int)
    ensures subtotal > 0 ==> total == subtotal + DeliveryFee
    ensures subtotal <= 0 ==> total == subtotal
  {
    subtotal + (if subtotal > 0 then DeliveryFee else 0)
  }

  /** The cart's ids that are on the menu, in cart order: the filter the
      pricing loop is meant to perform, written on the ids alone. */
  function KnownIds(ids: seq<int>, menu: Catalogue): seq<int> {
    if ids == [] then []
    else if ids[|ids| - 1] in menu then KnownIds(ids[..|ids| - 1], menu) + [ids[|ids| - 1]]
    else KnownIds(ids[..|ids| - 1], menu)
  }

  function ItemIds(items: seq<CartItem>): seq<int> {
    seq(|items|, k requires 0 <= k < |items| => items[k].id)
  }

  /** Pricing keeps the cart's key order and drops exactly the ids missing from
      the menu, without error. */
  lemma {:induction false} PricedKeepsOrder(lines: seq<Line>, menu: Catalogue)
    ensures ItemIds(Priced(lines, menu)) == KnownIds(LineIds(lines), menu)
  {
    if lines != [] {
      var init := lines[..|lines| - 1];
      var last := lines[|lines| - 1];
      PricedKeepsOrder(init, menu);
      assert LineIds(lines)[..|lines| - 1] == LineIds(init);
      var p := Priced(init, menu);
      assert ItemIds(p + PriceLine(last, menu)) == ItemIds(p) + ItemIds(PriceLine(last, menu));
    }
  }

  function SumQty(items: seq<CartItem>): int {
    if items == [] then 0 else SumQty(items[..|items| - 1]) + items[|items| - 1].qty
  }

  /** With every price equal to `p`, the subtotal is `p` times the number of
      portions: the subtotal really is the sum of `price * qty` over the lines. */
  lemma {:induction false} SubtotalUniformPrice(items: seq<CartItem>, p: int)
    requires forall k :: 0 <= k < |items| ==> items[k].price == p && items[k].lineTotal == p * items[k].qty
    ensures Subtotal(items) == p * SumQty(items)
  {
    if items != [] {
      SubtotalUniformPrice(items[..|items| - 1], p);
    }
  }

  /** Lines with non-negative prices and quantities have a non-negative
      subtotal, so such a cart is charged the fee exactly when its subtotal is
      not zero. */
  lemma {:induction false} SubtotalNonNegative(items: seq<CartItem>)
    requires forall k :: 0 <= k < |items| ==> items[k].price >= 0 && items[k].qty >= 0
    requires forall k :: 0 <= k < |items| ==> items[k].lineTotal == items[k].price * items[k].qty
    ensures Subtotal(items) >= 0
    ensures OrderTotal(Subtotal(items)) == Subtotal(items) + (if Subtotal(items) != 0 then DeliveryFee else 0)
  {
    if items != [] {
      SubtotalNonNegative(items[..|items| - 1]);
      var last := items[|items| - 1];
      assert last.price * last.qty >= 0;
    }
  }
}
