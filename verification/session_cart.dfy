/** The session cart of `cart_add`, `cart_remove` and `cart_clear`: a dictionary
    from item id to quantity, which within one request keeps the order in which
    ids were first added. It is modelled as a sequence of lines with distinct ids,
    in that order. */
module SessionCart {
  import opened Wrappers

  /** One dictionary entry: `cart[str(item)] == qty`. */
  datatype Line = Line(item: int, qty: int)

  /** The position of `item` in the cart, if it is a key. */
  function Find(lines: seq<Line>, item: int): (r: Option<nat>)
    ensures r.Some? ==> r.value < |lines| && lines[r.value].item == item
  {
    if lines == [] then None
    else if lines[0].item == item then Some(0)
    else match Find(lines[1..], item)
      case None => None
      case Some(k) => Some(k + 1)
  }

  /** `Find` reports the first position holding `item`, and nothing exactly when
      no line holds it. */
  lemma {:induction false} FindSpec(lines: seq<Line>, item: int)
    ensures Find(lines, item).Some? ==> forall j :: 0 <= j < Find(lines, item).value ==> lines[j].item != item
    ensures Find(lines, item).None? <==> forall j :: 0 <= j < |lines| ==> lines[j].item != item
  {
    if lines != [] && lines[0].item != item {
      FindSpec(lines[1..], item);
      assert forall j :: 1 <= j < |lines| ==> lines[j] == lines[1..][j - 1];
    }
  }

  /** `Find` gives the first position holding `item`. */
  lemma FindFirst(lines: seq<Line>, item: int, k: nat)
    requires k < |lines| && lines[k].item == item
    requires forall j :: 0 <= j < k ==> lines[j].item != item
    ensures Find(lines, item) == Some(k)
  {
    FindSpec(lines, item);
    var r := Find(lines, item);
    assert r.Some?;
    assert !(r.value < k);
    assert !(r.value > k);
  }

  /** `Find` depends only on the item ids, position by position. */
  lemma FindSameItems(a: seq<Line>, b: seq<Line>, item: int)
    requires |a| == |b| && forall j :: 0 <= j < |a| ==> a[j].item == b[j].item
    ensures Find(a, item) == Find(b, item)
  {
    FindSpec(a, item);
    FindSpec(b, item);
    match Find(a, item) {
      case Some(k) => FindFirst(b, item, k);
      case None =>
    }
  }

  /** The keys of the cart, in order. */
  function LineIds(lines: seq<Line>): seq<int> {
    seq(|lines|, k requires 0 <= k < |lines| => lines[k].item)
  }

  /** `cart.get(str(item), 0)`. */
  function QtyOf(lines: seq<Line>, item: int): int {
    match Find(lines, item)
    case Some(k) => lines[k].qty
    case None => 0
  }

  /** A cart as the handlers build it: no key twice, every quantity positive. */
  predicate WellFormed(lines: seq<Line>) {
    && (forall i, j :: 0 <= i < j < |lines| ==> lines[i].item != lines[j].item)
    && (forall i :: 0 <= i < |lines| ==> lines[i].qty >= 1)
  }

  /** The cart after `cart[key] = cart.get(key, 0) + 1`: an existing key keeps its
      place, a new key goes to the end. */
  function Added(lines: seq<Line>, item: int): seq<Line> {
    match Find(lines, item)
    case Some(k) => lines[k := Line(item, lines[k].qty + 1)]
    case None => lines + [Line(item, 1)]
  }

  /** The cart after `cart_remove`: an absent key changes nothing; otherwise the
      quantity drops by one and the key goes once it is at most zero. */
  function Removed(lines: seq<Line>, item: int): seq<Line> {
    match Find(lines, item)
    case Some(k) =>
      if lines[k].qty - 1 <= 0 then lines[..k] + lines[k + 1..]
      else lines[k := Line(item, lines[k].qty - 1)]
    case None => lines
  }

  /** Adding raises the quantity of that item by exactly one and leaves every
      other key's quantity as it was. */
  lemma AddedQuantities(lines: seq<Line>, item: int, other: int)
    ensures QtyOf(Added(lines, item), item) == QtyOf(lines, item) + 1
    ensures other != item ==> QtyOf(Added(lines, item), other) == QtyOf(lines, other)
  {
    FindSpec(lines, item);
    FindSpec(lines, other);
    var a := Added(lines, item);
    match Find(lines, item) {
      case Some(k) =>
        FindSameItems(a, lines, item);
        FindSameItems(a, lines, other);
      case None =>
        FindFirst(a, item, |lines|);
        if other != item {
          match Find(lines, other) {
            case Some(m) => FindFirst(a, other, m);
            case None =>
          }
        }
    }
  }

  /** Removing lowers the quantity of a present item by one, deleting the key when
      that reaches zero, and leaves every other key's quantity as it was. */
  lemma RemovedQuantities(lines: seq<Line>, item: int, other: int)
    requires WellFormed(lines)
    ensures Find(lines, item).Some? && QtyOf(lines, item) > 1 ==>
              QtyOf(Removed(lines, item), item) == QtyOf(lines, item) - 1
    ensures Find(lines, item).Some? && QtyOf(lines, item) <= 1 ==>
              Find(Removed(lines, item), item).None?
    ensures Find(lines, item).None? ==> Removed(lines, item) == lines
    ensures other != item ==> QtyOf(Removed(lines, item), other) == QtyOf(lines, other)
  {
    match Find(lines, item) {
      case Some(k) =>
        assert QtyOf(lines, item) == lines[k].qty;
        if lines[k].qty - 1 <= 0 {
          assert Removed(lines, item) == lines[..k] + lines[k + 1..];
          DropLine(lines, k, item);
          DropLine(lines, k, other);
        } else {
          var r := lines[k := Line(lines[k].item, lines[k].qty - 1)];
          assert Removed(lines, item) == r;
          FindAfterRewrite(lines, k, lines[k].qty - 1, item);
          FindAfterRewrite(lines, k, lines[k].qty - 1, other);
          assert QtyOf(r, item) == r[k].qty;
        }
      case None =>
    }
  }

  /** Dropping the line at `k` from a well-formed cart removes its key and keeps
      every other key's quantity. */
  lemma DropLine(lines: seq<Line>, k: nat, x: int)
    requires WellFormed(lines) && k < |lines|
    ensures x == lines[k].item ==> Find(lines[..k] + lines[k + 1..], x).None?
    ensures x != lines[k].item ==> QtyOf(lines[..k] + lines[k + 1..], x) == QtyOf(lines, x)
  {
    var r := lines[..k] + lines[k + 1..];
    assert forall j :: 0 <= j < |r| ==> r[j] == (if j < k then lines[j] else lines[j + 1]);
    FindSpec(r, x);
    FindSpec(lines, x);
    if x != lines[k].item {
      match Find(lines, x) {
        case Some(m) => FindFirst(r, x, if m < k then m else m - 1);
        case None =>
      }
    }
  }

  /** Both handlers keep a well-formed cart well formed. */
  lemma EditsKeepWellFormed(lines: seq<Line>, item: int)
    requires WellFormed(lines)
    ensures WellFormed(Added(lines, item))
    ensures WellFormed(Removed(lines, item))
  {
    FindSpec(lines, item);
    match Find(lines, item) {
      case Some(k) =>
        var r := Removed(lines, item);
        if lines[k].qty - 1 <= 0 {
          assert forall j :: 0 <= j < |r| ==> r[j] == (if j < k then lines[j] else lines[j + 1]);
        }
      case None =>
    }
  }

  /** `n` calls of `cart_add` for the same item. */
  function AddedTimes(lines: seq<Line>, item: int, n: nat): seq<Line> {
    if n == 0 then lines else Added(AddedTimes(lines, item, n - 1), item)
  }

  /** `n` calls of `cart_remove` for the same item. */
  function RemovedTimes(lines: seq<Line>, item: int, n: nat): seq<Line> {
    if n == 0 then lines else Removed(RemovedTimes(lines, item, n - 1), item)
  }

  /** Adding to an item already in the cart only raises its quantity in place. */
  lemma {:induction false} AddedTimesPresent(lines: seq<Line>, item: int, k: nat, n: nat)
    requires Find(lines, item) == Some(k)
    ensures AddedTimes(lines, item, n) == lines[k := Line(item, lines[k].qty + n)]
  {
    if n > 0 {
      AddedTimesPresent(lines, item, k, n - 1);
      AddedInPlace(lines, item, k, lines[k].qty + n - 1);
    }
  }

  /** One add to an item whose line was rewritten in place raises that line again. */
  lemma AddedInPlace(lines: seq<Line>, item: int, k: nat, c: int)
    requires Find(lines, item) == Some(k)
    ensures Added(lines[k := Line(item, c)], item) == lines[k := Line(item, c + 1)]
  {
    var prev := lines[k := Line(item, c)];
    FindAfterRewrite(lines, k, c, item);
    assert Find(prev, item) == Some(k) && prev[k].qty == c;
    assert Added(prev, item) == prev[k := Line(item, c + 1)];
    UpdateTwice(lines, k, Line(item, c), Line(item, c + 1));
  }

  /** A second write to the same position hides the first. */
  lemma UpdateTwice(lines: seq<Line>, k: nat, a: Line, b: Line)
    requires k < |lines|
    ensures lines[k := a][k := b] == lines[k := b]
  {
  }

  /** Rewriting the quantity of a line leaves every key's position unchanged. */
  lemma FindAfterRewrite(lines: seq<Line>, k: nat, c: int, x: int)
    requires k < |lines|
    ensures Find(lines[k := Line(lines[k].item, c)], x) == Find(lines, x)
  {
    var prev := lines[k := Line(lines[k].item, c)];
    assert forall j :: 0 <= j < |prev| ==> prev[j].item == lines[j].item;
    FindSameItems(prev, lines, x);
  }

  /** Adding to an absent item appends one line holding the number of adds. */
  lemma {:induction false} AddedTimesAbsent(lines: seq<Line>, item: int, n: nat)
    requires Find(lines, item).None? && n >= 1
    ensures AddedTimes(lines, item, n) == lines + [Line(item, n)]
  {
    FindSpec(lines, item);
    if n > 1 {
      AddedTimesAbsent(lines, item, n - 1);
      FindFirst(lines + [Line(item, n - 1)], item, |lines|);
    }
  }

  /** One removal from a line holding `q + 1`, with `q >= 1`, leaves `q` in place. */
  lemma RemovedDecrements(lines: seq<Line>, item: int, k: nat, q: int)
    requires Find(lines, item) == Some(k) && q >= 1 && lines[k].qty == q + 1
    ensures Removed(lines, item) == lines[k := Line(item, q)]
  {
  }

  /** Removing `m` times from a line holding `q + m`, with `q >= 1`, leaves `q`. */
  lemma {:induction false} RemovedTimesAbove(lines: seq<Line>, item: int, k: nat, q: int, m: nat)
    requires Find(lines, item) == Some(k) && q >= 1 && lines[k].qty == q + m
    ensures RemovedTimes(lines, item, m) == lines[k := Line(item, q)]
    decreases m
  {
    if m > 0 {
      RemovedTimesAbove(lines, item, k, q + 1, m - 1);
      RemovedInPlace(lines, item, k, q);
    } else {
      assert lines[k] == Line(item, q);
    }
  }

  /** One removal from an item whose line was rewritten in place to `q + 1`,
      with `q >= 1`, leaves `q` there. */
  lemma RemovedInPlace(lines: seq<Line>, item: int, k: nat, q: int)
    requires Find(lines, item) == Some(k) && q >= 1
    ensures Removed(lines[k := Line(item, q + 1)], item) == lines[k := Line(item, q)]
  {
    var prev := lines[k := Line(item, q + 1)];
    FindAfterRewrite(lines, k, q + 1, item);
    RemovedDecrements(prev, item, k, q);
    UpdateTwice(lines, k, Line(item, q + 1), Line(item, q));
  }

  /** Removing `m` times from a trailing line holding `m` drops the line. */
  lemma {:induction false} RemovedTimesLast(lines: seq<Line>, item: int, m: nat)
    requires Find(lines, item).None? && m >= 1
    ensures RemovedTimes(lines + [Line(item, m)], item, m) == lines
  {
    FindSpec(lines, item);
    var c := lines + [Line(item, m)];
    FindFirst(c, item, |lines|);
    var prev := lines + [Line(item, 1)];
    if m > 1 {
      RemovedTimesAbove(c, item, |lines|, 1, m - 1);
      assert c[|lines| := Line(item, 1)] == prev;
    } else {
      assert c == prev;
    }
    assert RemovedTimes(c, item, m) == Removed(prev, item);
    RemovedLastUnit(lines, item);
  }

  /** Removing an item held once, on the last line, drops that line. */
  lemma RemovedLastUnit(lines: seq<Line>, item: int)
    requires Find(lines, item).None?
    ensures Removed(lines + [Line(item, 1)], item) == lines
  {
    FindSpec(lines, item);
    var prev := lines + [Line(item, 1)];
    FindFirst(prev, item, |lines|);
    assert prev[..|lines|] + prev[|lines| + 1..] == lines;
  }

  /** Round trip: `n` adds of one item followed by `n` removes of it give back
      the original cart, key order included. */
  lemma AddThenRemove(lines: seq<Line>, item: int, n: nat)
    requires WellFormed(lines)
    ensures RemovedTimes(AddedTimes(lines, item, n), item, n) == lines
  {
    if n > 0 {
      match Find(lines, item) {
        case Some(k) =>
          AddedTimesPresent(lines, item, k, n);
          var up := lines[k := Line(item, lines[k].qty + n)];
          FindAfterRewrite(lines, k, lines[k].qty + n, item);
          RemovedTimesAbove(up, item, k, lines[k].qty, n);
          assert up[k := Line(item, lines[k].qty)] == lines;
        case None =>
          AddedTimesAbsent(lines, item, n);
          RemovedTimesLast(lines, item, n);
      }
    }
  }

  /** The cart held in the session. */
  class Cart {
    var lines: seq<Line>

    ghost predicate Valid()
      reads this
    {
      WellFormed(lines)
    }

    /** `session.get("cart", {})` on a fresh session. */
    constructor ()
      ensures Valid() && lines == []
    {
      lines := [];
    }

    /** `cart_add(item_id)`. */
    method Add(item: int)
      modifies this
      ensures lines == Added(old(lines), item)
      ensures old(Valid()) ==> Valid()
    {
      var i := 0;
      while i < |lines| && lines[i].item != item
        invariant 0 <= i <= |lines|
        invariant forall j :: 0 <= j < i ==> lines[j].item != item
      {
        i := i + 1;
      }
      if i < |lines| {
        FindFirst(lines, item, i);
        lines := lines[i := Line(item, lines[i].qty + 1)];
      } else {
        FindSpec(lines, item);
        lines := lines + [Line(item, 1)];
      }
      if WellFormed(old(lines)) {
        EditsKeepWellFormed(old(lines), item);
      }
    }

    /** `cart_remove(item_id)`. */
    method Remove(item: int)
      modifies this
      ensures lines == Removed(old(lines), item)
      ensures old(Valid()) ==> Valid()
    {
      var i := 0;
      while i < |lines| && lines[i].item != item
        invariant 0 <= i <= |lines|
        invariant forall j :: 0 <= j < i ==> lines[j].item != item
      {
        i := i + 1;
      }
      if i < |lines| {
        FindFirst(lines, item, i);
        var q := lines[i].qty - 1;
        if q <= 0 {
          lines := lines[..i] + lines[i + 1..];
        } else {
          lines := lines[i := Line(item, q)];
        }
      } else {
        FindSpec(lines, item);
      }
      if WellFormed(old(lines)) {
        EditsKeepWellFormed(old(lines), item);
      }
    }

    /** `cart_clear()`, and the `session.pop("cart")` after a checkout. */
    method Clear()
      modifies this
      ensures lines == []
    {
      lines := [];
    }
  }
}
