/** The in-memory shopping cart of the storefront page: the `Watch` and
    `CartItem` records, the add-or-increment and remove updates, and the
    two aggregates shown in the cart sheet (the total and the badge count).
    Everything here is a pure function of the cart sequence; the page's
    state holder lives in module Storefront. */
module Cart {

  datatype Option<T> = None | Some(value: T)

  /** A catalog product. Prices are whole roubles. */
  datatype Watch = Watch(
    id: int,
    name: string,
    brand: string,
    price: int,
    image: string,
    description: string)

  /** A cart line: every field of the watch it was made from, copied at the
      moment it was first added, plus how many of that watch are in the cart. */
  datatype CartItem = CartItem(
    id: int,
    name: string,
    brand: string,
    price: int,
    image: string,
    description: string,
    quantity: int)

  /** The watch a cart line was copied from: every field except the quantity. */
  function WatchOf(item: CartItem): Watch {
    Watch(item.id, item.name, item.brand, item.price, item.image, item.description)
  }

  /** The line addToCart builds for a watch: a copy of all its fields with the given quantity. */
  function WithQuantity(w: Watch, q: int): (r: CartItem)
    ensures WatchOf(r) == w && r.quantity == q
  {
    CartItem(w.id, w.name, w.brand, w.price, w.image, w.description, q)
  }

  predicate HasId(cart: seq<CartItem>, id: int) {
    exists i :: 0 <= i < |cart| && cart[i].id == id
  }

  /** Every line has a price of at least 0. */
  predicate PricesNonNegative(cart: seq<CartItem>) {
    forall i :: 0 <= i < |cart| ==> cart[i].price >= 0
  }

  /** Every line holds at least one unit. */
  predicate QuantitiesPositive(cart: seq<CartItem>) {
    forall i :: 0 <= i < |cart| ==> cart[i].quantity >= 1
  }

  /** The cart invariant: no two lines share an id and every quantity is at least 1. */
  predicate WellFormed(cart: seq<CartItem>) {
    (forall i, j :: 0 <= i < j < |cart| ==> cart[i].id != cart[j].id) &&
    QuantitiesPositive(cart)
  }

  /** The lookup addToCart starts with: the first line whose id equals the
      given one, if any. */
  function Find(cart: seq<CartItem>, id: int): (r: Option<CartItem>)
    ensures r.None? <==> !HasId(cart, id)
    ensures r.Some? ==> r.value in cart && r.value.id == id
  {
    if |cart| == 0 then None
    else if cart[0].id == id then Some(cart[0])
    else
      var r := Find(cart[1..], id);
      assert forall i :: 1 <= i < |cart| ==> cart[i] == cart[1..][i - 1];
      r
  }

  /** What addToCart does to one line when the watch is already in the cart:
      the line with the watch's id gets one more unit, every other line is
      kept as it is. */
  function Bump(item: CartItem, id: int): (r: CartItem)
    ensures WatchOf(r) == WatchOf(item)
    ensures r.quantity == if item.id == id then item.quantity + 1 else item.quantity
  {
    if item.id == id then item.(quantity := item.quantity + 1) else item
  }

  /** The rebuilt list of addToCart's existing-line branch: every line
      bumped for the id, in the original order. */
  function IncrementQuantity(cart: seq<CartItem>, id: int): (r: seq<CartItem>)
    ensures |r| == |cart|
    ensures forall i :: 0 <= i < |cart| ==> r[i] == Bump(cart[i], id)
  {
    if |cart| == 0 then [] else [Bump(cart[0], id)] + IncrementQuantity(cart[1..], id)
  }

  /** addToCart: raise the quantity of the line that already holds the
      watch's id, or append a copy of the watch with quantity 1. */
  function Add(cart: seq<CartItem>, watch: Watch): (r: seq<CartItem>)
    ensures HasId(r, watch.id)
    ensures |cart| <= |r|
    ensures forall i :: 0 <= i < |cart| && cart[i].id != watch.id ==> r[i] == cart[i]
  {
    match Find(cart, watch.id)
    case Some(_) =>
      var r := IncrementQuantity(cart, watch.id);
      var i :| 0 <= i < |cart| && cart[i].id == watch.id;
      assert r[i].id == watch.id;
      r
    case None =>
      var r := cart + [WithQuantity(watch, 1)];
      assert r[|cart|].id == watch.id;
      r
  }

  /** removeFromCart: keeps the lines whose id differs from the given one,
      in their order. */
  function Remove(cart: seq<CartItem>, id: int): (r: seq<CartItem>)
    ensures forall x :: x in r <==> x in cart && x.id != id
    ensures !HasId(r, id)
    ensures |r| <= |cart|
  {
    if |cart| == 0 then []
    else
      var rest := Remove(cart[1..], id);
      assert forall x :: x in cart <==> x == cart[0] || x in cart[1..];
      var r := if cart[0].id == id then rest else [cart[0]] + rest;
      assert forall i :: 0 <= i < |r| ==> r[i] in r;
      r
  }

  /** What one line contributes to the total: its snapshot price times its quantity. */
  function LineTotal(item: CartItem): (r: int)
    ensures item.price >= 0 && item.quantity >= 0 ==> r >= 0
  {
    item.price * item.quantity
  }

  /** cartTotal: the sum over the lines of price times quantity, accumulated
      from the first line to the last. */
  function Total(cart: seq<CartItem>): (r: int)
    ensures PricesNonNegative(cart) && QuantitiesPositive(cart) ==> r >= 0
  {
    if |cart| == 0 then 0
    else
      var init := cart[..|cart| - 1];
      assert PricesNonNegative(cart) ==> PricesNonNegative(init);
      assert QuantitiesPositive(cart) ==> QuantitiesPositive(init);
      Total(init) + LineTotal(cart[|cart| - 1])
  }

  /** cartItemsCount: the sum of the lines' quantities, accumulated from the
      first line to the last. */
  function ItemsCount(cart: seq<CartItem>): (r: int)
    ensures QuantitiesPositive(cart) ==> r >= |cart|
  {
    if |cart| == 0 then 0
    else
      var init := cart[..|cart| - 1];
      assert QuantitiesPositive(cart) ==> QuantitiesPositive(init);
      ItemsCount(init) + cart[|cart| - 1].quantity
  }

  // ---------------------------------------------------------------------
  // The aggregates split over concatenation and single-line updates.

  lemma {:induction false} TotalAppend(a: seq<CartItem>, b: seq<CartItem>)
    ensures Total(a + b) == Total(a) + Total(b)
    decreases |b|
  {
    if |b| == 0 {
      assert a + b == a;
    } else {
      var b' := b[..|b| - 1];
      assert (a + b)[..|a + b| - 1] == a + b';
      assert (a + b)[|a + b| - 1] == b[|b| - 1];
      TotalAppend(a, b');
    }
  }

  lemma {:induction false} ItemsCountAppend(a: seq<CartItem>, b: seq<CartItem>)
    ensures ItemsCount(a + b) == ItemsCount(a) + ItemsCount(b)
    decreases |b|
  {
    if |b| == 0 {
      assert a + b == a;
    } else {
      var b' := b[..|b| - 1];
      assert (a + b)[..|a + b| - 1] == a + b';
      assert (a + b)[|a + b| - 1] == b[|b| - 1];
      ItemsCountAppend(a, b');
    }
  }

  lemma Singleton(x: CartItem)
    ensures Total([x]) == LineTotal(x) && ItemsCount([x]) == x.quantity
  {
    assert [x][..0] == [];
  }

  /** A cart is its lines before k, line k, and its lines after k. */
  lemma Decompose(cart: seq<CartItem>, k: int)
    requires 0 <= k < |cart|
    ensures cart == cart[..k] + [cart[k]] + cart[k + 1..]
  {
  }

  /** The aggregates of a cart made of a head, one line and a tail. */
  lemma Split3(head: seq<CartItem>, x: CartItem, tail: seq<CartItem>)
    ensures Total(head + [x] + tail) == Total(head) + LineTotal(x) + Total(tail)
    ensures ItemsCount(head + [x] + tail) == ItemsCount(head) + x.quantity + ItemsCount(tail)
  {
    Singleton(x);
    TotalAppend(head + [x], tail);
    TotalAppend(head, [x]);
    ItemsCountAppend(head + [x], tail);
    ItemsCountAppend(head, [x]);
  }

  /** Splitting a cart around line k, for the update and removal lemmas. */
  lemma SplitAt(cart: seq<CartItem>, k: int)
    requires 0 <= k < |cart|
    ensures Total(cart) == Total(cart[..k]) + LineTotal(cart[k]) + Total(cart[k + 1..])
    ensures ItemsCount(cart) == ItemsCount(cart[..k]) + cart[k].quantity + ItemsCount(cart[k + 1..])
  {
    Decompose(cart, k);
    Split3(cart[..k], cart[k], cart[k + 1..]);
  }

  /** Replacing line k moves each aggregate by the difference between the new and the old line. */
  lemma UpdateAt(cart: seq<CartItem>, k: int, x: CartItem)
    requires 0 <= k < |cart|
    ensures Total(cart[k := x]) == Total(cart) - LineTotal(cart[k]) + LineTotal(x)
    ensures ItemsCount(cart[k := x]) == ItemsCount(cart) - cart[k].quantity + x.quantity
  {
    var c := cart[k := x];
    SplitAt(cart, k);
    SplitAt(c, k);
    assert c[..k] == cart[..k];
    assert c[k + 1..] == cart[k + 1..];
  }

  /** The badge is shown exactly when the cart list is non-empty (lines are never at quantity 0). */
  lemma ItemsCountPositive(cart: seq<CartItem>)
    requires WellFormed(cart)
    ensures ItemsCount(cart) >= |cart|
    ensures ItemsCount(cart) > 0 <==> |cart| > 0
  {
  }

  // ---------------------------------------------------------------------
  // addToCart

  /** Under the invariant, the line found for an id is the only line with that id. */
  lemma {:induction false} FindInWellFormed(cart: seq<CartItem>, k: int)
    requires WellFormed(cart)
    requires 0 <= k < |cart|
    ensures Find(cart, cart[k].id) == Some(cart[k])
    decreases |cart|
  {
    if k > 0 {
      assert cart[0].id != cart[k].id;
      assert WellFormed(cart[1..]);
      assert cart[1..][k - 1] == cart[k];
      FindInWellFormed(cart[1..], k - 1);
    }
  }

  /** Adding a watch already in the cart raises that line's quantity by one;
      every other line, and the order of the lines, stay as they were. */
  lemma AddExisting(cart: seq<CartItem>, watch: Watch, k: int)
    requires WellFormed(cart)
    requires 0 <= k < |cart| && cart[k].id == watch.id
    ensures Add(cart, watch) == cart[k := cart[k].(quantity := cart[k].quantity + 1)]
  {
    var r := Add(cart, watch);
    var expected := cart[k := cart[k].(quantity := cart[k].quantity + 1)];
    assert HasId(cart, watch.id);
    assert r == IncrementQuantity(cart, watch.id);
    forall i | 0 <= i < |cart|
      ensures r[i] == expected[i]
    {
      if i != k {
        assert i < k ==> cart[i].id != cart[k].id;
        assert i > k ==> cart[k].id != cart[i].id;
      }
    }
  }

  /** Adding a watch not yet in the cart appends one new line at the end,
      a copy of the watch with quantity 1; the earlier lines are untouched. */
  lemma AddNew(cart: seq<CartItem>, watch: Watch)
    requires !HasId(cart, watch.id)
    ensures |Add(cart, watch)| == |cart| + 1
    ensures Add(cart, watch)[..|cart|] == cart
    ensures var item := Add(cart, watch)[|cart|];
      item.id == watch.id && item.name == watch.name && item.brand == watch.brand &&
      item.price == watch.price && item.image == watch.image &&
      item.description == watch.description && item.quantity == 1
  {
    assert Add(cart, watch) == cart + [WithQuantity(watch, 1)];
  }

  lemma AddPreservesWellFormed(cart: seq<CartItem>, watch: Watch)
    requires WellFormed(cart)
    ensures WellFormed(Add(cart, watch))
  {
    if k :| 0 <= k < |cart| && cart[k].id == watch.id {
      AddExisting(cart, watch, k);
    } else {
      assert Add(cart, watch) == cart + [WithQuantity(watch, 1)];
    }
  }

  /** Adding the same new watch twice yields one line holding quantity 2. */
  lemma AddTwice(cart: seq<CartItem>, watch: Watch)
    requires !HasId(cart, watch.id)
    ensures Add(Add(cart, watch), watch) == cart + [WithQuantity(watch, 2)]
  {
    var once := cart + [WithQuantity(watch, 1)];
    assert Add(cart, watch) == once;
    assert HasId(once, watch.id) by {
      assert once[|cart|].id == watch.id;
    }
    var twice := Add(once, watch);
    assert twice == IncrementQuantity(once, watch.id);
    forall i | 0 <= i < |once|
      ensures twice[i] == (cart + [WithQuantity(watch, 2)])[i]
    {
      if i < |cart| {
        assert once[i] == cart[i] && cart[i].id != watch.id;
      }
    }
  }

  /** Every addToCart puts exactly one more unit in the cart. */
  lemma ItemsCountAfterAdd(cart: seq<CartItem>, watch: Watch)
    requires WellFormed(cart)
    ensures ItemsCount(Add(cart, watch)) == ItemsCount(cart) + 1
  {
    if k :| 0 <= k < |cart| && cart[k].id == watch.id {
      AddExisting(cart, watch, k);
      UpdateAt(cart, k, cart[k].(quantity := cart[k].quantity + 1));
    } else {
      ItemsCountAppend(cart, [WithQuantity(watch, 1)]);
      assert [WithQuantity(watch, 1)][..0] == [];
    }
  }

  lemma LineTotalBump(item: CartItem)
    ensures LineTotal(item.(quantity := item.quantity + 1)) == LineTotal(item) + item.price
  {
    calc {
      LineTotal(item.(quantity := item.quantity + 1));
      item.price * (item.quantity + 1);
      { assert item.price * (item.quantity + 1) == item.price * item.quantity + item.price; }
      item.price * item.quantity + item.price;
    }
  }

  /** addToCart raises the total by the price stored on the affected line:
      the price copied in when the line was first made, or the watch's own
      price when a new line is appended. */
  lemma TotalAfterAdd(cart: seq<CartItem>, watch: Watch)
    requires WellFormed(cart)
    ensures Total(Add(cart, watch)) == Total(cart) +
      match Find(cart, watch.id)
      case Some(item) => item.price
      case None => watch.price
  {
    if HasId(cart, watch.id) {
      var k :| 0 <= k < |cart| && cart[k].id == watch.id;
      FindInWellFormed(cart, k);
      AddExisting(cart, watch, k);
      TotalAfterBump(cart, k);
    } else {
      TotalAppend(cart, [WithQuantity(watch, 1)]);
      assert [WithQuantity(watch, 1)][..0] == [];
    }
  }

  /** Raising line k's quantity by one raises the total by that line's own price. */
  lemma TotalAfterBump(cart: seq<CartItem>, k: int)
    requires 0 <= k < |cart|
    ensures Total(cart[k := cart[k].(quantity := cart[k].quantity + 1)]) == Total(cart) + cart[k].price
  {
    UpdateAt(cart, k, cart[k].(quantity := cart[k].quantity + 1));
    LineTotalBump(cart[k]);
  }

  // ---------------------------------------------------------------------
  // removeFromCart

  /** Filtering distributes over concatenation: the kept lines stay in their relative order. */
  lemma {:induction false} RemoveAppend(a: seq<CartItem>, b: seq<CartItem>, id: int)
    ensures Remove(a + b, id) == Remove(a, id) + Remove(b, id)
    decreases |a|
  {
    if |a| == 0 {
      assert a + b == b;
    } else {
      assert (a + b)[0] == a[0];
      assert (a + b)[1..] == a[1..] + b;
      RemoveAppend(a[1..], b, id);
    }
  }

  /** Removing an id the cart does not hold changes nothing. */
  lemma {:induction false} RemoveAbsent(cart: seq<CartItem>, id: int)
    requires !HasId(cart, id)
    ensures Remove(cart, id) == cart
    decreases |cart|
  {
    if |cart| > 0 {
      assert cart[0].id != id;
      assert !HasId(cart[1..], id) by {
        forall i | 0 <= i < |cart[1..]| ensures cart[1..][i].id != id {
          assert cart[1..][i] == cart[i + 1];
        }
      }
      RemoveAbsent(cart[1..], id);
      assert cart == [cart[0]] + cart[1..];
    }
  }

  /** Under the invariant, the id of line k occurs nowhere before or after it. */
  lemma UniqueAt(cart: seq<CartItem>, k: int)
    requires WellFormed(cart)
    requires 0 <= k < |cart|
    ensures !HasId(cart[..k], cart[k].id) && !HasId(cart[k + 1..], cart[k].id)
  {
    var id, head, tail := cart[k].id, cart[..k], cart[k + 1..];
    forall i | 0 <= i < |head| ensures head[i].id != id {
      assert head[i] == cart[i];
    }
    forall i | 0 <= i < |tail| ensures tail[i].id != id {
      assert tail[i] == cart[k + 1 + i];
    }
  }

  /** Removing the id of a line that neither the head nor the tail holds leaves head + tail. */
  lemma RemoveMiddle(head: seq<CartItem>, x: CartItem, tail: seq<CartItem>)
    requires !HasId(head, x.id) && !HasId(tail, x.id)
    ensures Remove(head + [x] + tail, x.id) == head + tail
  {
    assert Remove([x], x.id) == [] by {
      assert [x][1..] == [];
    }
    assert Remove(head + [x], x.id) == head by {
      RemoveAppend(head, [x], x.id);
      RemoveAbsent(head, x.id);
    }
    assert Remove(tail, x.id) == tail by {
      RemoveAbsent(tail, x.id);
    }
    RemoveAppend(head + [x], tail, x.id);
  }

  /** Removing the id of a line that holds it alone deletes exactly that line. */
  lemma RemoveSingle(cart: seq<CartItem>, k: int)
    requires 0 <= k < |cart|
    requires !HasId(cart[..k], cart[k].id) && !HasId(cart[k + 1..], cart[k].id)
    ensures Remove(cart, cart[k].id) == cart[..k] + cart[k + 1..]
  {
    Decompose(cart, k);
    RemoveMiddle(cart[..k], cart[k], cart[k + 1..]);
  }

  /** Under the invariant, removing the id of line k deletes exactly that line. */
  lemma RemoveAt(cart: seq<CartItem>, k: int)
    requires WellFormed(cart)
    requires 0 <= k < |cart|
    ensures Remove(cart, cart[k].id) == cart[..k] + cart[k + 1..]
  {
    UniqueAt(cart, k);
    RemoveSingle(cart, k);
  }

  /** Putting a line in front of a well-formed cart that lacks its id keeps the invariant. */
  lemma ConsWellFormed(x: CartItem, rest: seq<CartItem>)
    requires WellFormed(rest) && x.quantity >= 1
    requires forall y :: y in rest ==> y.id != x.id
    ensures WellFormed([x] + rest)
  {
    var all := [x] + rest;
    forall i, j | 0 <= i < j < |all| ensures all[i].id != all[j].id {
      assert all[j] == rest[j - 1];
      if i > 0 {
        assert all[i] == rest[i - 1];
      } else {
        assert rest[j - 1] in rest;
      }
    }
  }

  lemma {:induction false} RemovePreservesWellFormed(cart: seq<CartItem>, id: int)
    requires WellFormed(cart)
    ensures WellFormed(Remove(cart, id))
    decreases |cart|
  {
    if |cart| > 0 {
      var rest := cart[1..];
      assert WellFormed(rest) by {
        forall i | 0 <= i < |rest| ensures rest[i] == cart[i + 1] { }
      }
      RemovePreservesWellFormed(rest, id);
      if cart[0].id != id {
        var r := Remove(rest, id);
        forall y | y in r ensures y.id != cart[0].id {
          assert y in rest;
          var j :| 0 <= j < |rest| && rest[j] == y;
          assert rest[j] == cart[j + 1];
        }
        ConsWellFormed(cart[0], r);
      }
    }
  }

  /** Removing line k lowers the badge count by its quantity and the total by its line total;
      removing an absent id leaves both as they were. */
  lemma AggregatesAfterRemove(cart: seq<CartItem>, id: int)
    requires WellFormed(cart)
    ensures HasId(cart, id) ==> forall k :: 0 <= k < |cart| && cart[k].id == id ==>
      ItemsCount(Remove(cart, id)) == ItemsCount(cart) - cart[k].quantity &&
      Total(Remove(cart, id)) == Total(cart) - LineTotal(cart[k])
    ensures !HasId(cart, id) ==>
      ItemsCount(Remove(cart, id)) == ItemsCount(cart) && Total(Remove(cart, id)) == Total(cart)
  {
    if HasId(cart, id) {
      forall k | 0 <= k < |cart| && cart[k].id == id
        ensures ItemsCount(Remove(cart, id)) == ItemsCount(cart) - cart[k].quantity
        ensures Total(Remove(cart, id)) == Total(cart) - LineTotal(cart[k])
      {
        RemoveAt(cart, k);
        SplitAt(cart, k);
        TotalAppend(cart[..k], cart[k + 1..]);
        ItemsCountAppend(cart[..k], cart[k + 1..]);
      }
    } else {
      RemoveAbsent(cart, id);
    }
  }
}
