# Watch storefront cart, modelled in Dafny

The storefront is a single React page. It lists a fixed catalog of three
watches and keeps an in-memory shopping cart. The cart is an ordered list of
lines. Each line copies every field of a watch (id, name, brand, price,
image, description) and adds a quantity. Two handlers change the cart:

- `addToCart` raises the quantity of the line holding the watch's id, or
  appends a copy of the watch with quantity 1;
- `removeFromCart` filters out every line with a given id.

Two aggregates are derived from the cart on every render. `cartTotal` is the
sum of price × quantity. `cartItemsCount` is the sum of quantities and is
shown on the cart badge.

The project has two modules:

- `Cart` (cart.dfy) holds the `Watch` and `CartItem` datatypes and the pure
  list computations: `Find` (`cart.find`), `IncrementQuantity` (`cart.map`),
  `Add`, `Remove` (`cart.filter`), and `Total` and `ItemsCount` (the two
  `reduce` folds, folded from the left as `reduce` does). It also holds the
  lemmas about them. `WellFormed` is the cart invariant: ids are pairwise
  distinct and every quantity is at least 1.
- `Storefront` (storefront.dfy) holds the catalog constant and the page
  component `Index`. `Index` is a class with a `cart` field. Its
  `AddToCart` and `RemoveFromCart` methods assign the result of `Cart.Add`
  or `Cart.Remove` to that field, as `setCart` does. Their contracts state
  the new cart and how far each aggregate moves. The class invariant
  `Valid()` is `WellFormed(cart)`. The constructor establishes it and both
  handlers keep it. This is why the handlers may require it: the page
  itself never produces a cart that breaks it.

Ids, prices and quantities are mathematical integers. Every catalog price
is a whole number of roubles.

Three points where the model follows the code closely:

- A cart line is a full copy of the watch, not just an id and a quantity.
  The total therefore uses the price copied in when the line was first
  added, not the catalog's current price.
- `addToCart` maps over the whole list. If the list ever held two lines
  with the same id, both would be incremented. `Cart.Add` does the same.
  Its "exactly one line changes" lemmas hold under `WellFormed`.
- This page has no quantity-adjust operation and no brand filter.

## Model

| member | source | states |
|---|---|---|
| `Cart.WithQuantity` | src/pages/Index.tsx:60 | The line built from a watch carries exactly that watch's fields (`WatchOf` of it gives the watch back) and the given quantity |
| `Cart.Find` | src/pages/Index.tsx:54 | No result exactly when no line has the id; otherwise the result is a line of the cart with that id |
| `Cart.FindInWellFormed` | src/pages/Index.tsx:54 | Under the invariant, looking up the id of line k finds line k itself |
| `Cart.Bump` | src/pages/Index.tsx:57 | Applied to one line, only the quantity can change: the copied watch fields stay equal, and the quantity rises by 1 exactly when the line's id is the watch's id |
| `Cart.IncrementQuantity` | src/pages/Index.tsx:56-58 | Same length as the cart; every line with the id has its quantity raised by one, and every other line is the same value at the same index |
| `Cart.Add` | src/pages/Index.tsx:53-62 | After adding, the watch's id is in the cart; no line is lost; every line with a different id stays unchanged at its index |
| `Cart.AddExisting` | src/pages/Index.tsx:54-58 | When line k already has the watch's id, the new cart is the old one with only line k's quantity raised by 1; all other lines and the order are unchanged |
| `Cart.AddNew` | src/pages/Index.tsx:59-60 | When the id is absent, the cart grows by one line at the end; earlier lines are unchanged; the new line copies every field of the watch and has quantity 1 |
| `Cart.AddTwice` | src/pages/Index.tsx:53-62 | For any cart without the watch's id (no invariant needed), adding the watch twice gives the old cart plus a single new line with quantity 2 |
| `Cart.AddPreservesWellFormed` | src/pages/Index.tsx:53-62 | Adding keeps ids pairwise distinct and every quantity at least 1 |
| `Cart.ItemsCountAfterAdd` | src/pages/Index.tsx:53-69 | Under the invariant, every add raises the badge count by exactly 1 |
| `Cart.TotalAfterBump` | src/pages/Index.tsx:57-68 | Raising one line's quantity by one raises the total by that line's stored price |
| `Cart.TotalAfterAdd` | src/pages/Index.tsx:53-68 | Under the invariant, an add raises the total by the price stored on the affected line. For an existing line this is the snapshot price in the cart, not the watch argument's price. For a new line it is the watch's price |
| `Cart.Remove` | src/pages/Index.tsx:64-66 | A value is in the result exactly when it is in the cart and has a different id; no line with the id is left; the cart never grows |
| `Cart.RemoveAppend` | src/pages/Index.tsx:65 | Removing from a concatenation gives the concatenation of the two removals, so the kept lines keep their relative order |
| `Cart.RemoveAbsent` | src/pages/Index.tsx:65 | Removing an id that no line has returns the cart unchanged |
| `Cart.RemoveAt` | src/pages/Index.tsx:64-66 | Under the invariant, removing the id of line k deletes exactly line k and keeps the others in order |
| `Cart.RemovePreservesWellFormed` | src/pages/Index.tsx:64-66 | Removing keeps ids pairwise distinct and every quantity at least 1 |
| `Cart.AggregatesAfterRemove` | src/pages/Index.tsx:64-69 | Removing line k's id lowers the badge count by that line's quantity and the total by its price × quantity; removing an absent id changes neither |
| `Cart.LineTotal` | src/pages/Index.tsx:68 | One line's share of the total, price × quantity; never negative when price and quantity are not |
| `Cart.Total` | src/pages/Index.tsx:68 | `cartTotal`: a left fold of price × quantity over the lines. Its own contract says it is never negative when every price is at least 0 and every quantity at least 1. Its other properties are in `TotalAppend`, `UpdateAt`, `TotalAfterBump`, `TotalAfterAdd` and `AggregatesAfterRemove` |
| `Cart.ItemsCount` | src/pages/Index.tsx:69 | `cartItemsCount`: a left fold of the quantities. Its own contract says it is at least the number of lines when every quantity is at least 1. Its other properties are in `ItemsCountAppend`, `UpdateAt`, `ItemsCountPositive`, `ItemsCountAfterAdd` and `AggregatesAfterRemove` |
| `Cart.TotalAppend` | src/pages/Index.tsx:68 | The total of two carts joined is the sum of their totals |
| `Cart.ItemsCountAppend` | src/pages/Index.tsx:69 | The item count of two carts joined is the sum of their counts |
| `Cart.UpdateAt` | src/pages/Index.tsx:68-69 | Replacing line k moves the total and the count by the difference between the new line and the old one |
| `Cart.ItemsCountPositive` | src/pages/Index.tsx:69-111 | Under the invariant the count is at least the number of lines. So the badge (count > 0) shows exactly when the cart list is non-empty |
| `Storefront.CatalogWellFormed` | src/pages/Index.tsx:22-47 | The `Catalog` constant (the `watches` list, carried verbatim) has three watches with distinct ids and positive prices; `WorkedExample` uses it for the distinct ids |
| `Storefront.Index.constructor` | src/pages/Index.tsx:51 | The page starts with an empty, valid cart whose total and count are 0 |
| `Storefront.Index.CartTotal` | src/pages/Index.tsx:68 | The total shown in the cart sheet is `Cart.Total` of the field; for a valid cart with non-negative prices it is not negative |
| `Storefront.Index.CartItemsCount` | src/pages/Index.tsx:69-111 | The badge number is `Cart.ItemsCount` of the field; for a valid cart it is at least the number of lines, so the badge (count > 0) shows exactly when the cart list is non-empty |
| `Storefront.Index.AddToCart` | src/pages/Index.tsx:53-62 | The field becomes `Cart.Add` of the old cart; the invariant is kept; the count rises by 1; the total rises by the affected line's stored price |
| `Storefront.Index.RemoveFromCart` | src/pages/Index.tsx:64-66 | The field becomes `Cart.Remove` of the old cart; no line has the id; the invariant is kept; a present line is deleted alone with count and total lowered by its share; an absent id is a no-op |
| `Storefront.AddSequence` | src/pages/Index.tsx:53-62 | For any two watches with different ids, adding the first, the second, then the first again from an empty cart gives [first × 2, second × 1], in first-added order |
| `Storefront.WorkedExample` | src/pages/Index.tsx:22-69 | From an empty cart, adding watch 1, watch 2, then watch 1 gives [watch 1 × 2, watch 2 × 1], total 345000, count 3 |

## Left out

- Rendering: the navigation bar, the cart sheet, the catalog cards and the
  marketing sections (src/pages/Index.tsx:77-334). They are presentational
  only.
- `scrollToSection` and the `activeSection` state
  (src/pages/Index.tsx:71-75). They only touch the DOM (`getElementById`,
  `scrollIntoView`) and hold no cart logic.
- `toLocaleString('ru-RU')` price formatting. It is a locale-dependent
  library call.
- The checkout button. It has no handler.
- React's `useState` mechanics: batching, re-rendering and stale closures.
  `setCart` is modelled as a plain assignment of the new sequence.
- Number precision: JavaScript numbers are doubles. Sums above 2^53 would
  lose precision, while the model's integers are exact. Catalog prices are
  far below that bound.
- Image URLs, names and descriptions are carried opaquely as strings.
- A quantity-adjust operation and a brand filter. This page does not have
  them.
- Storefront.Index.AddToCart and Storefront.Index.RemoveFromCart: both
  require the cart invariant. The page never breaks it, since the
  constructor establishes it and both handlers keep it. On a cart that
  broke it, `Cart.Add` and `Cart.Remove` still model the code exactly.
