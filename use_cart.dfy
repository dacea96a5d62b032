/**
 * frontend/src/hooks/useCart.js: the cart as a component reads it, with the
 * item count, the price total and the emptiness flag computed by `reduce`
 * over the items of the cart slice.  The items are the ones getCart returns:
 * the row's fields, the product under `Product`, and `total`.
 */
module UseCart {
  import opened Wrappers
  import opened JsValues
  import Pricing
  import CartController
  import CartSlice
  import Db

  type Item = CartController.PricedItem

  /** What the hook returns. */
  datatype CartHook = CartHook(items: seq<Item>, loading: bool, error: Option<string>, totalItems: int,
                               totalPrice: Number, isEmpty: bool)

  /** `items.reduce((sum, item) => sum + item.quantity, 0)`. */
  function TotalItems(items: seq<Item>): (r: int)
  {
    if items == [] then 0 else TotalItems(items[..|items| - 1]) + items[|items| - 1].line.quantity
  }

  /** With every quantity at least 1 (as CartItems rows have it) the count is at
      least the number of lines, and zero exactly for an empty cart. */
  lemma {:induction false} TotalItemsBound(items: seq<Item>)
    requires forall i :: 0 <= i < |items| ==> items[i].line.quantity >= 1
    ensures TotalItems(items) >= |items|
    ensures TotalItems(items) == 0 <==> items == []
    decreases |items|
  {
    if items != [] {
      var pre := items[..|items| - 1];
      assert forall i :: 0 <= i < |pre| ==> pre[i] == items[i];
      TotalItemsBound(pre);
    }
  }

  /** `items.reduce((sum, item) => sum + (item.price * item.quantity), 0)` as
      written: the items carry no `price` field, so `item.price` is undefined
      and every term is NaN. */
  function TotalPriceAsWritten(items: seq<Item>): Number {
    if items == [] then Num(0.0)
    else Add(TotalPriceAsWritten(items[..|items| - 1]), Mul(NaN, Num(items[|items| - 1].line.quantity as real)))
  }

  /** As written, the price total of every non-empty cart is NaN. */
  lemma TotalPriceAsWrittenIsNaN(items: seq<Item>)
    ensures items == [] ==> TotalPriceAsWritten(items) == Num(0.0)
    ensures items != [] ==> TotalPriceAsWritten(items) == NaN
  {
  }

  /** One line at 10.00 x 2: the written total is NaN, the intended one 20. */
  lemma TotalPriceExample(line: Db.CartItem, product: Db.Product)
    requires line.quantity == 2 && product.price == 10.0
    ensures TotalPriceAsWritten([CartController.PricedItem(line, product, 20.0)]) == NaN
    ensures TotalPrice([CartController.PricedItem(line, product, 20.0)]) == Num(20.0)
  {
    var items := [CartController.PricedItem(line, product, 20.0)];
    assert items[..0] == [];
    assert CartController.ItemLines(items) == [Pricing.Line(10.0, 2)];
    assert [Pricing.Line(10.0, 2)][..0] == [];
  }

  /** The price total read from each item's product: the sum of `Product.price
      * quantity`. */
  function TotalPrice(items: seq<Item>): Number {
    Num(Pricing.Subtotal(CartController.ItemLines(items)))
  }

  /** The hook, with the price total read from the products.  A store without a
      cart slice reads as no items, not loading, no error. */
  function UseCart(cart: Option<CartSlice.CartState>): (r: CartHook)
  {
    var items := if cart.Some? then cart.value.items else [];
    CartHook(items,
             cart.Some? && cart.value.loading,
             if cart.Some? then cart.value.error else None,
             TotalItems(items), TotalPrice(items), |items| == 0)
  }

  /** The hook's flags and totals: empty exactly when there are no items, and
      then both totals are zero; the defaults for a missing slice. */
  lemma UseCartFlags(cart: Option<CartSlice.CartState>)
    ensures var h := UseCart(cart);
            && (h.isEmpty <==> h.items == [])
            && (h.isEmpty ==> h.totalItems == 0 && h.totalPrice == Num(0.0))
            && (cart.None? ==> h.items == [] && !h.loading && h.error.None?)
            && (cart.Some? ==> h.items == cart.value.items && h.loading == cart.value.loading && h.error == cart.value.error)
  {
  }

  /** The hook's price total is the subtotal the slice shows whenever the
      slice's items add up to it, as they do after every fetch of getCart and
      every clearCart. */
  lemma TotalPriceIsShownSubtotal(s: CartSlice.CartState)
    requires CartSlice.ShowsTotals(s)
    ensures UseCart(Some(s)).totalPrice == Num(s.subtotal)
  {
  }
}
