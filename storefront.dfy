/** The storefront page's state: the fixed watch catalog and the page
    component, whose `cart` field is replaced wholesale by each handler
    (the new value always comes from a pure function of module Cart). */
module Storefront {
  import opened Cart

  /** The three catalog watches, in display order. */
  const Catalog: seq<Watch> := [
    Watch(1, "Seiko Presage", "SEIKO", 125000,
      "https://cdn.poehali.dev/projects/f7093d3a-57ba-4498-850a-54a1abf3cfc0/files/7a60fdf3-26b8-4869-8b00-43b5052d9c6a.jpg",
      "Автоматические часы с сапфировым стеклом"),
    Watch(2, "Citizen Eco-Drive", "CITIZEN", 95000,
      "https://cdn.poehali.dev/projects/f7093d3a-57ba-4498-850a-54a1abf3cfc0/files/6508b97d-340c-4d61-b800-6cadde0ee5cd.jpg",
      "Хронограф на солнечной батарее"),
    Watch(3, "Orient Bambino", "ORIENT", 78000,
      "https://cdn.poehali.dev/projects/f7093d3a-57ba-4498-850a-54a1abf3cfc0/files/5436aa99-9aa9-4443-bf8b-c482215a6b2a.jpg",
      "Классические часы с механизмом handwinding")
  ]

  /** The catalog has three watches with distinct ids and positive prices. */
  lemma CatalogWellFormed()
    ensures |Catalog| == 3
    ensures forall i, j :: 0 <= i < j < |Catalog| ==> Catalog[i].id != Catalog[j].id
    ensures forall i :: 0 <= i < |Catalog| ==> Catalog[i].price > 0
  {
  }

  /** The page component. Only the cart state is modelled. */
  class Index {
    var cart: seq<CartItem>

    ghost predicate Valid()
      reads this
    {
      WellFormed(cart)
    }

    /** The page mounts with an empty cart. */
    constructor ()
      ensures Valid()
      ensures cart == []
      ensures CartTotal() == 0 && CartItemsCount() == 0
    {
      cart := [];
    }

    /** The total shown in the cart sheet; never negative for a valid cart of
        non-negative prices. */
    function CartTotal(): (r: int)
      reads this
      ensures Valid() && PricesNonNegative(cart) ==> r >= 0
    {
      Total(cart)
    }

    /** The number shown on the cart badge. For a valid cart it is at least
        the number of lines, so the badge shows exactly when the cart list is
        not empty. */
    function CartItemsCount(): (r: int)
      reads this
      ensures Valid() ==> r >= |cart| && (r > 0 <==> |cart| > 0)
    {
      ItemsCount(cart)
    }

    /** The "add to cart" button of a catalog card. */
    method AddToCart(watch: Watch)
      requires Valid()
      modifies this
      ensures Valid()
      ensures cart == Add(old(cart), watch)
      ensures CartItemsCount() == old(CartItemsCount()) + 1
      ensures CartTotal() == old(CartTotal()) +
        match Find(old(cart), watch.id)
        case Some(item) => item.price
        case None => watch.price
    {
      AddPreservesWellFormed(cart, watch);
      ItemsCountAfterAdd(cart, watch);
      TotalAfterAdd(cart, watch);
      cart := Add(cart, watch);
    }

    /** The trash button of a cart line. */
    method RemoveFromCart(id: int)
      requires Valid()
      modifies this
      ensures Valid()
      ensures cart == Remove(old(cart), id)
      ensures !HasId(cart, id)
      ensures forall k :: 0 <= k < |old(cart)| && old(cart)[k].id == id ==>
        cart == old(cart)[..k] + old(cart)[k + 1..] &&
        CartItemsCount() == old(CartItemsCount()) - old(cart)[k].quantity &&
        CartTotal() == old(CartTotal()) - LineTotal(old(cart)[k])
      ensures !HasId(old(cart), id) ==> cart == old(cart)
    {
      RemovePreservesWellFormed(cart, id);
      AggregatesAfterRemove(cart, id);
      forall k | 0 <= k < |cart| && cart[k].id == id
        ensures Remove(cart, id) == cart[..k] + cart[k + 1..]
      {
        RemoveAt(cart, k);
      }
      if !HasId(cart, id) {
        RemoveAbsent(cart, id);
      }
      cart := Remove(cart, id);
    }
  }

  /** From an empty cart, adding w1, then w2, then w1 again leaves two lines
      in first-added order, with quantities 2 and 1. */
  lemma AddSequence(w1: Watch, w2: Watch)
    requires w1.id != w2.id
    ensures Add(Add(Add([], w1), w2), w1) == [WithQuantity(w1, 2), WithQuantity(w2, 1)]
  {
    var c1 := Add([], w1);
    assert c1 == [WithQuantity(w1, 1)] by {
      AddNew([], w1);
    }
    var c2 := Add(c1, w2);
    assert c2 == [WithQuantity(w1, 1), WithQuantity(w2, 1)] by {
      assert !HasId(c1, w2.id);
      AddNew(c1, w2);
    }
    AddExisting(c2, w1, 0);
  }

  /** The aggregates of a two-line cart. */
  lemma TwoLineAggregates(a: CartItem, b: CartItem)
    ensures Total([a, b]) == LineTotal(a) + LineTotal(b)
    ensures ItemsCount([a, b]) == a.quantity + b.quantity
  {
    var c := [a, b];
    assert c[..1] == [a] && [a][..0] == [];
    assert Total([a]) == LineTotal(a) && ItemsCount([a]) == a.quantity;
    assert Total(c) == Total(c[..1]) + LineTotal(b);
    assert ItemsCount(c) == ItemsCount(c[..1]) + b.quantity;
  }

  /** The catalog run: watch 1, watch 2, watch 1 gives [watch 1 x 2, watch 2 x 1],
      total 345000, count 3. */
  lemma WorkedExample()
    ensures var c := Add(Add(Add([], Catalog[0]), Catalog[1]), Catalog[0]);
      c == [WithQuantity(Catalog[0], 2), WithQuantity(Catalog[1], 1)] &&
      c[0].id == 1 && c[0].quantity == 2 && c[1].id == 2 && c[1].quantity == 1 &&
      Total(c) == 345000 && ItemsCount(c) == 3
  {
    CatalogWellFormed();
    AddSequence(Catalog[0], Catalog[1]);
    TwoLineAggregates(WithQuantity(Catalog[0], 2), WithQuantity(Catalog[1], 1));
  }
}
