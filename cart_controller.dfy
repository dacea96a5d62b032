/**
 * backend/src/controllers/cartController.js: reading the signed-in user's
 * cart with its line totals and subtotal, adding a product (merging into the
 * product's existing line), changing a line's quantity and removing a line.
 * Update and removal check that the line belongs to the caller's cart.
 */
module CartController {
  import opened Wrappers
  import opened Db
  import Pricing

  datatype CartError =
    | ProductNotFound   // 404
    | NotEnoughStock    // 400
    | ItemNotFound      // 404
    | NotAuthorized     // 401
    | ServerError       // an exception caught by the handler (status 500)

  /** `cartId` is the user's cart after `Cart.findOne({ where: { userId } })`
      and, when that finds none, `Cart.create({ userId })` with the next id. */
  predicate CartEnsured(carts: map<CartId, UserId>, next: nat, carts': map<CartId, UserId>, next': nat,
                        userId: UserId, cartId: CartId)
    requires OneCartPerUser(carts)
  {
    match CartOf(carts, userId)
    case Some(c) => cartId == c && carts' == carts && next' == next
    case None => cartId == next && carts' == carts[next := userId] && next' == next + 1
  }

  /** A cart id not yet handed out has no lines. */
  lemma {:induction false} FreshCartIsEmpty(t: Tables)
    requires ValidTables(t)
    ensures LinesOf(t.cartItems, t.nextCartId) == []
  {
    forall x | x in t.cartItems ensures x.cartId != t.nextCartId {
      assert x.cartId in t.carts;
    }
    NoRowsNoLines(t.cartItems, t.nextCartId);
  }

  lemma {:induction false} NoRowsNoLines(items: seq<CartItem>, c: CartId)
    requires forall x :: x in items ==> x.cartId != c
    ensures LinesOf(items, c) == []
  {
    if items != [] {
      assert items[0] in items;
      NoRowsNoLines(items[1..], c);
    }
  }

  /** Find the user's cart, creating it when there is none. */
  method EnsureCart(db: Database, userId: UserId) returns (cartId: CartId)
    requires db.Valid() && userId in db.users
    modifies db`carts, db`nextCartId
    ensures db.Valid()
    ensures CartEnsured(old(db.carts), old(db.nextCartId), db.carts, db.nextCartId, userId, cartId)
    ensures CartOf(db.carts, userId) == Some(cartId)
  {
    var found := CartOf(db.carts, userId);
    if found.Some? {
      return found.value;
    }
    cartId := db.nextCartId;
    db.carts := db.carts[cartId := userId];
    db.nextCartId := db.nextCartId + 1;
    assert OneCartPerUser(db.carts);
    assert db.carts[cartId] == userId;
    assert db.Valid();
  }

  /** A cart line as getCart returns it: the row, its product and `total`. */
  datatype PricedItem = PricedItem(line: CartItem, product: Product, total: real)

  /** The cart getCart returns: id, priced lines and `subtotal`. */
  datatype CartView = CartView(id: CartId, items: seq<PricedItem>, subtotal: real)

  /** Each item as a pricing line: its product's price and its quantity. */
  function ItemLines(items: seq<PricedItem>): (r: seq<Pricing.Line>)
    ensures |r| == |items|
    ensures forall i :: 0 <= i < |items| ==> r[i] == Pricing.Line(items[i].product.price, items[i].line.quantity)
  {
    seq(|items|, i requires 0 <= i < |items| => Pricing.Line(items[i].product.price, items[i].line.quantity))
  }

  /** A cart whose `subtotal` is the sum over its items. */
  predicate Totalled(v: CartView) {
    v.subtotal == Pricing.Subtotal(ItemLines(v.items))
  }

  /** The map callback of getCart: each line's `total = price * quantity`,
      added to `subtotal` as it goes.  A line whose product row is gone makes
      `item.Product.price` throw: `None`. */
  method PriceLines(products: map<ProductId, Product>, lines: seq<CartItem>) returns (r: Option<(seq<PricedItem>, real)>)
    ensures r.Some? <==> InCatalog(products, lines)
    ensures r.Some? ==>
              && |r.value.0| == |lines|
              && (forall i :: 0 <= i < |lines| ==>
                    r.value.0[i] == PricedItem(lines[i], products[lines[i].productId],
                                               Pricing.LineTotal(Pricing.Line(products[lines[i].productId].price, lines[i].quantity))))
              && r.value.1 == Pricing.Subtotal(Priced(products, lines))
  {
    var items: seq<PricedItem> := [];
    var subtotal := 0.0;
    var i := 0;
    while i < |lines|
      invariant 0 <= i <= |lines|
      invariant InCatalog(products, lines[..i])
      invariant |items| == i
      invariant forall k :: 0 <= k < i ==>
                  items[k] == PricedItem(lines[k], products[lines[k].productId],
                                         Pricing.LineTotal(Pricing.Line(products[lines[k].productId].price, lines[k].quantity)))
      invariant subtotal == Pricing.Subtotal(Priced(products, lines[..i]))
    {
      if lines[i].productId !in products {
        return None;
      }
      var product := products[lines[i].productId];
      var total := Pricing.LineTotal(Pricing.Line(product.price, lines[i].quantity));
      PricedSubtotalStep(products, lines, i);
      subtotal := subtotal + total;
      items := items + [PricedItem(lines[i], product, total)];
      i := i + 1;
    }
    assert lines[..i] == lines;
    r := Some((items, subtotal));
  }

  /** The subtotal of one more line is the subtotal so far plus its total. */
  lemma {:induction false} PricedSubtotalStep(products: map<ProductId, Product>, lines: seq<CartItem>, i: nat)
    requires i < |lines| && InCatalog(products, lines[..i]) && lines[i].productId in products
    ensures InCatalog(products, lines[..i + 1])
    ensures Pricing.Subtotal(Priced(products, lines[..i + 1])) ==
            Pricing.Subtotal(Priced(products, lines[..i])) +
            Pricing.LineTotal(Pricing.Line(products[lines[i].productId].price, lines[i].quantity))
  {
    var pre, next := lines[..i], lines[..i + 1];
    assert next[..i] == pre;
    assert forall k :: 0 <= k < |next| ==> next[k] == lines[k];
    assert Priced(products, next)[..i] == Priced(products, pre);
  }

  /** The priced view of cart `cartId`: each line's total and the subtotal, or
      `ServerError` when a line's product row is gone. */
  method ViewCart(db: Database, cartId: CartId) returns (r: Result<CartView, CartError>)
    requires db.Valid()
    ensures var lines := LinesOf(db.cartItems, cartId);
            && (r.Ok? <==> InCatalog(db.products, lines))
            && (r.Err? ==> r.error == ServerError)
            && (r.Ok? ==>
                  && r.value.id == cartId
                  && |r.value.items| == |lines|
                  && (forall i :: 0 <= i < |lines| ==>
                        (r.value.items[i].line == lines[i] &&
                         r.value.items[i].total == Pricing.LineTotal(Priced(db.products, lines)[i])))
                  && r.value.subtotal == Pricing.Subtotal(Priced(db.products, lines))
                  && ItemLines(r.value.items) == Priced(db.products, lines)
                  && Totalled(r.value))
  {
    var lines := LinesOf(db.cartItems, cartId);
    var priced := PriceLines(db.products, lines);
    if priced.None? {
      return Err(ServerError);
    }
    assert ItemLines(priced.value.0) == Priced(db.products, lines);
    r := Ok(CartView(cartId, priced.value.0, priced.value.1));
  }

  /** getCart as written.  The cart that `Cart.create` returns was not loaded
      with its `CartItems`, so for a user without a cart `cart.CartItems.map`
      throws: the new row stays and the answer is a 500. */
  method GetCartAsWritten(db: Database, userId: UserId) returns (r: Result<CartView, CartError>)
    requires db.Valid() && userId in db.users
    modifies db`carts, db`nextCartId
    ensures db.Valid()
    ensures CartOf(db.carts, userId).Some?
    ensures CartEnsured(old(db.carts), old(db.nextCartId), db.carts, db.nextCartId, userId, CartOf(db.carts, userId).value)
    ensures old(CartOf(db.carts, userId)).None? ==> r == Err(ServerError) && CartOf(db.carts, userId) == Some(old(db.nextCartId))
    ensures old(CartOf(db.carts, userId)).Some? ==>
              var lines := CartLines(db.carts, db.cartItems, userId);
              && (r.Ok? <==> InCatalog(db.products, lines))
              && (r.Err? ==> r.error == ServerError)
              && (r.Ok? ==>
                    && r.value.id == CartOf(db.carts, userId).value
                    && ItemLines(r.value.items) == Priced(db.products, lines)
                    && r.value.subtotal == Pricing.Subtotal(Priced(db.products, lines)))
  {
    var existing := CartOf(db.carts, userId);
    var cartId := EnsureCart(db, userId);
    if existing.None? {
      return Err(ServerError);
    }
    r := ViewCart(db, cartId);
  }

  /** getCart as evidently intended: a user without a cart gets the new, empty
      one.  Otherwise it answers as written. */
  method GetCart(db: Database, userId: UserId) returns (r: Result<CartView, CartError>)
    requires db.Valid() && userId in db.users
    modifies db`carts, db`nextCartId
    ensures db.Valid()
    ensures CartOf(db.carts, userId).Some?
    ensures CartEnsured(old(db.carts), old(db.nextCartId), db.carts, db.nextCartId, userId, CartOf(db.carts, userId).value)
    ensures var lines := CartLines(db.carts, db.cartItems, userId);
            && (r.Ok? <==> InCatalog(db.products, lines))
            && (r.Err? ==> r.error == ServerError)
            && (r.Ok? ==>
                  && r.value.id == CartOf(db.carts, userId).value
                  && |r.value.items| == |lines|
                  && (forall i :: 0 <= i < |lines| ==>
                        (r.value.items[i].line == lines[i] &&
                         r.value.items[i].total == Pricing.LineTotal(Priced(db.products, lines)[i])))
                  && r.value.subtotal == Pricing.Subtotal(Priced(db.products, lines))
                  && ItemLines(r.value.items) == Priced(db.products, lines)
                  && Totalled(r.value))
    ensures old(CartOf(db.carts, userId)).None? ==> r == Ok(CartView(old(db.nextCartId), [], 0.0))
  {
    ghost var before := db.Contents();
    var cartId := EnsureCart(db, userId);
    if cartId == before.nextCartId {
      FreshCartIsEmpty(before);
    }
    r := ViewCart(db, cartId);
  }

  /** `CartItem.findOne({ where: { cartId, productId } })`: the first such row. */
  function LineFor(items: seq<CartItem>, cartId: CartId, productId: ProductId): (r: Option<CartItem>)
    ensures r.None? <==> forall x :: x in items ==> !(x.cartId == cartId && x.productId == productId)
    ensures r.Some? ==> r.value in items && r.value.cartId == cartId && r.value.productId == productId
  {
    if items == [] then None
    else if items[0].cartId == cartId && items[0].productId == productId then Some(items[0])
    else LineFor(items[1..], cartId, productId)
  }

  /** The quantity of a product in a cart: its line's, or 0 without one. */
  function Quantity(items: seq<CartItem>, cartId: CartId, productId: ProductId): int {
    match LineFor(items, cartId, productId)
    case Some(x) => x.quantity
    case None => 0
  }

  /** `cartItem.quantity = q` and `save()` on the row with id `id`. */
  function SetQuantity(items: seq<CartItem>, id: ItemId, q: int): (r: seq<CartItem>)
    ensures |r| == |items|
    ensures forall i :: 0 <= i < |items| ==> r[i] == if items[i].id == id then items[i].(quantity := q) else items[i]
  {
    seq(|items|, i requires 0 <= i < |items| => if items[i].id == id then items[i].(quantity := q) else items[i])
  }

  /** `cartItem.destroy()` on the row with id `id`; the other rows keep their order. */
  function DeleteLine(items: seq<CartItem>, id: ItemId): (r: seq<CartItem>)
    ensures forall x :: x in r <==> x in items && x.id != id
    ensures |r| <= |items|
  {
    if items == [] then []
    else (if items[0].id == id then [] else [items[0]]) + DeleteLine(items[1..], id)
  }

  /** The write of addToCart once its guards pass: add to the product's line
      in the cart, or insert a line with the next id.  Returns the rows and
      the next free id. */
  function Merge(items: seq<CartItem>, next: nat, cartId: CartId, productId: ProductId, q: int): (seq<CartItem>, nat) {
    match LineFor(items, cartId, productId)
    case Some(x) => (SetQuantity(items, x.id, x.quantity + q), next)
    case None => (items + [CartItem(next, cartId, productId, q)], next + 1)
  }

  /** Two rows with the same id in an ascending table are the same row. */
  lemma {:induction false} IdsUnique(items: seq<CartItem>, x: CartItem, y: CartItem)
    requires IdsAscending(items) && x in items && y in items && x.id == y.id
    ensures x == y
  {
    var i :| 0 <= i < |items| && items[i] == x;
    var j :| 0 <= j < |items| && items[j] == y;
    assert i == j;
  }

  /** Rows with the same ids, carts and products as a valid table, in the same
      order, and quantities of at least 1, make a valid table too. */
  lemma {:induction false} SameKeysValid(items: seq<CartItem>, r: seq<CartItem>, carts: map<CartId, UserId>, next: nat)
    requires ValidLines(items, carts, next) && |r| == |items|
    requires forall i :: 0 <= i < |r| ==>
               r[i].id == items[i].id && r[i].cartId == items[i].cartId && r[i].productId == items[i].productId
    requires forall i :: 0 <= i < |r| ==> r[i].quantity >= 1
    ensures ValidLines(r, carts, next)
  {
    forall x | x in r ensures x.cartId in carts && x.id < next {
      var i :| 0 <= i < |r| && r[i] == x;
      assert items[i] in items;
    }
    assert IdsAscending(r) by {
      forall i, j | 0 <= i < j < |r| ensures r[i].id < r[j].id {
        assert items[i].id < items[j].id;
      }
    }
    forall x, y | x in r && y in r && x.cartId == y.cartId && x.productId == y.productId ensures x.id == y.id {
      var i :| 0 <= i < |r| && r[i] == x;
      var j :| 0 <= j < |r| && r[j] == y;
      assert items[i] in items && items[j] in items;
    }
  }

  /** Changing one row's quantity keeps the row constraints when the new
      quantity is at least 1. */
  lemma {:induction false} SetQuantityValid(items: seq<CartItem>, carts: map<CartId, UserId>, next: nat, id: ItemId, q: int)
    requires ValidLines(items, carts, next) && q >= 1
    ensures ValidLines(SetQuantity(items, id, q), carts, next)
  {
    var r := SetQuantity(items, id, q);
    forall i | 0 <= i < |r| ensures r[i].quantity >= 1 {
      assert items[i] in items;
    }
    SameKeysValid(items, r, carts, next);
  }

  lemma {:induction false} DeleteLineAscending(items: seq<CartItem>, id: ItemId)
    requires IdsAscending(items)
    ensures IdsAscending(DeleteLine(items, id))
  {
    if items != [] {
      HeadBelowTail(items);
      DeleteLineAscending(items[1..], id);
      if items[0].id != id {
        ConsAscending(items[0], DeleteLine(items[1..], id));
      }
    }
  }

  /** Deleting a row keeps the row constraints. */
  lemma {:induction false} DeleteLineValid(items: seq<CartItem>, carts: map<CartId, UserId>, next: nat, id: ItemId)
    requires ValidLines(items, carts, next)
    ensures ValidLines(DeleteLine(items, id), carts, next)
  {
    DeleteLineAscending(items, id);
    var r := DeleteLine(items, id);
    forall i | 0 <= i < |r| ensures r[i].quantity >= 1 && r[i].cartId in carts && r[i].id < next {
      assert r[i] in items;
    }
    forall i, j | 0 <= i < j < |r| ensures r[i].cartId != r[j].cartId || r[i].productId != r[j].productId {
      assert r[i] in items && r[j] in items;
      var a :| 0 <= a < |items| && items[a] == r[i];
      var b :| 0 <= b < |items| && items[b] == r[j];
      assert r[i].id < r[j].id;
      assert a != b;
    }
  }

  /** Inserting a row with a fresh id for a product the cart has no line for
      keeps the row constraints. */
  lemma {:induction false} AppendLineValid(items: seq<CartItem>, carts: map<CartId, UserId>, next: nat, x: CartItem)
    requires ValidLines(items, carts, next)
    requires x.id == next && x.cartId in carts && x.quantity >= 1
    requires LineFor(items, x.cartId, x.productId).None?
    ensures ValidLines(items + [x], carts, next + 1)
  {
    var r := items + [x];
    forall i, j | 0 <= i < j < |r| ensures r[i].id < r[j].id {
      if j == |items| {
        assert r[i] == items[i] && items[i] in items;
      } else {
        assert r[i] == items[i] && r[j] == items[j];
      }
    }
  }

  /** The merge keeps the row constraints, so a cart never has two lines for
      one product, provided the quantity it leaves is at least 1. */
  lemma {:induction false} MergeValid(items: seq<CartItem>, carts: map<CartId, UserId>, next: nat,
                                      cartId: CartId, productId: ProductId, q: int)
    requires ValidLines(items, carts, next) && cartId in carts
    requires Quantity(items, cartId, productId) + q >= 1
    ensures var m := Merge(items, next, cartId, productId, q);
            ValidLines(m.0, carts, m.1) && m.1 >= next
  {
    var found := LineFor(items, cartId, productId);
    if found.Some? {
      MergeExistingValid(items, carts, next, found.value, q);
    } else {
      AppendLineValid(items, carts, next, CartItem(next, cartId, productId, q));
    }
  }

  lemma {:induction false} MergeExistingValid(items: seq<CartItem>, carts: map<CartId, UserId>, next: nat,
                                              x: CartItem, q: int)
    requires ValidLines(items, carts, next)
    requires LineFor(items, x.cartId, x.productId) == Some(x) && x.quantity + q >= 1
    ensures ValidLines(Merge(items, next, x.cartId, x.productId, q).0, carts, next)
    ensures Merge(items, next, x.cartId, x.productId, q).1 == next
  {
    assert Merge(items, next, x.cartId, x.productId, q) == (SetQuantity(items, x.id, x.quantity + q), next);
    SetQuantityValid(items, carts, next, x.id, x.quantity + q);
  }

  /** Looking a line up after changing the quantity of row `x`: `x`'s line
      has the new quantity, the others are as before. */
  lemma {:induction false} LineForSetQuantity(items: seq<CartItem>, x: CartItem, q: int, cartId: CartId, productId: ProductId)
    requires IdsAscending(items) && x in items
    requires forall y :: y in items && y.cartId == x.cartId && y.productId == x.productId ==> y.id == x.id
    ensures LineFor(SetQuantity(items, x.id, q), cartId, productId) ==
            if cartId == x.cartId && productId == x.productId then Some(x.(quantity := q)) else LineFor(items, cartId, productId)
  {
    var r := SetQuantity(items, x.id, q);
    assert r[0] == if items[0].id == x.id then items[0].(quantity := q) else items[0];
    assert r[1..] == SetQuantity(items[1..], x.id, q);
    HeadBelowTail(items);
    if items[0].id == x.id {
      IdsUnique(items, items[0], x);
      assert SetQuantity(items[1..], x.id, q) == items[1..];
    } else if !(items[0].cartId == cartId && items[0].productId == productId) {
      assert x in items[1..] by {
        var i :| 0 <= i < |items| && items[i] == x;
        assert items[1..][i - 1] == x;
      }
      LineForSetQuantity(items[1..], x, q, cartId, productId);
    }
  }

  lemma {:induction false} LineForAppend(items: seq<CartItem>, x: CartItem, cartId: CartId, productId: ProductId)
    ensures LineFor(items + [x], cartId, productId) ==
            if LineFor(items, cartId, productId).Some? then LineFor(items, cartId, productId)
            else if x.cartId == cartId && x.productId == productId then Some(x) else None
  {
    if items != [] {
      assert (items + [x])[1..] == items[1..] + [x];
      LineForAppend(items[1..], x, cartId, productId);
    }
  }

  /** With one row per (cart, product), two rows with the same pair are one row. */
  lemma {:induction false} SameKeySameRow(items: seq<CartItem>, x: CartItem, y: CartItem)
    requires OneLinePerProduct(items) && x in items && y in items
    requires x.cartId == y.cartId && x.productId == y.productId
    ensures x == y
  {
    var i :| 0 <= i < |items| && items[i] == x;
    var j :| 0 <= j < |items| && items[j] == y;
    assert i == j;
  }

  /** addToCart's merge adds the requested quantity to the product's quantity
      in the cart. */
  lemma {:induction false} MergeAddsQuantity(items: seq<CartItem>, next: nat, cartId: CartId, productId: ProductId, q: int)
    requires IdsAscending(items) && OneLinePerProduct(items)
    ensures Quantity(Merge(items, next, cartId, productId, q).0, cartId, productId) == Quantity(items, cartId, productId) + q
  {
    var found := LineFor(items, cartId, productId);
    if found.Some? {
      var x := found.value;
      assert Merge(items, next, cartId, productId, q).0 == SetQuantity(items, x.id, x.quantity + q);
      forall y | y in items && y.cartId == x.cartId && y.productId == x.productId ensures y.id == x.id {
        SameKeySameRow(items, x, y);
      }
      LineForSetQuantity(items, x, x.quantity + q, cartId, productId);
    } else {
      var x := CartItem(next, cartId, productId, q);
      assert Merge(items, next, cartId, productId, q).0 == items + [x];
      LineForAppend(items, x, cartId, productId);
    }
  }

  /** addToCart's merge leaves every other (cart, product) line as it was. */
  lemma {:induction false} MergeKeepsOtherLines(items: seq<CartItem>, next: nat, cartId: CartId, productId: ProductId, q: int,
                                                c: CartId, p: ProductId)
    requires IdsAscending(items) && OneLinePerProduct(items)
    requires c != cartId || p != productId
    ensures LineFor(Merge(items, next, cartId, productId, q).0, c, p) == LineFor(items, c, p)
  {
    var found := LineFor(items, cartId, productId);
    if found.Some? {
      var x := found.value;
      assert Merge(items, next, cartId, productId, q).0 == SetQuantity(items, x.id, x.quantity + q);
      forall y | y in items && y.cartId == x.cartId && y.productId == x.productId ensures y.id == x.id {
        SameKeySameRow(items, x, y);
      }
      LineForSetQuantity(items, x, x.quantity + q, c, p);
    } else {
      var x := CartItem(next, cartId, productId, q);
      assert Merge(items, next, cartId, productId, q).0 == items + [x];
      LineForAppend(items, x, c, p);
    }
  }

  /** addToCart for the signed-in user, after its cart is found or created:
      the product must exist and have at least the requested quantity in
      stock (the line already in the cart is not counted), then the merge;
      a line left with a quantity below 1 fails the schema (status 500). */
  method AddLine(db: Database, cartId: CartId, productId: ProductId, quantity: int) returns (r: Result<(), CartError>)
    requires db.Valid() && cartId in db.carts
    modifies db`cartItems, db`nextItemId
    ensures db.Valid()
    ensures productId !in db.products ==> r == Err(ProductNotFound)
    ensures productId in db.products && db.products[productId].stock < quantity ==> r == Err(NotEnoughStock)
    ensures productId in db.products && db.products[productId].stock >= quantity ==>
              (r.Ok? <==> Quantity(old(db.cartItems), cartId, productId) + quantity >= 1)
    ensures r.Ok? ==> (db.cartItems, db.nextItemId) == Merge(old(db.cartItems), old(db.nextItemId), cartId, productId, quantity)
    ensures r.Err? ==> db.cartItems == old(db.cartItems) && db.nextItemId == old(db.nextItemId)
    ensures r.Err? ==> r != Err(ItemNotFound) && r != Err(NotAuthorized)
  {
    if productId !in db.products {
      return Err(ProductNotFound);
    }
    if db.products[productId].stock < quantity {
      return Err(NotEnoughStock);
    }
    if Quantity(db.cartItems, cartId, productId) + quantity < 1 {
      return Err(ServerError);
    }
    MergeInto(db, cartId, productId, quantity);
    r := Ok(());
  }

  /** The merge on the store: the line's `quantity += q` and `save()`, or
      `CartItem.create` with the next id. */
  method MergeInto(db: Database, cartId: CartId, productId: ProductId, q: int)
    requires db.Valid() && cartId in db.carts && Quantity(db.cartItems, cartId, productId) + q >= 1
    modifies db`cartItems, db`nextItemId
    ensures db.Valid()
    ensures (db.cartItems, db.nextItemId) == Merge(old(db.cartItems), old(db.nextItemId), cartId, productId, q)
  {
    var m := Merge(db.cartItems, db.nextItemId, cartId, productId, q);
    MergeValid(db.cartItems, db.carts, db.nextItemId, cartId, productId, q);
    WriteRows(db, m.0, m.1);
  }

  /** The CartItems writes: the new rows and the next free id. */
  method WriteRows(db: Database, rows: seq<CartItem>, next: nat)
    requires db.Valid() && ValidLines(rows, db.carts, next) && next >= db.nextItemId
    modifies db`cartItems, db`nextItemId
    ensures db.Valid()
    ensures db.cartItems == rows && db.nextItemId == next
  {
    db.cartItems, db.nextItemId := rows, next;
  }

  /** addToCart for the signed-in user `userId`.  The cart is created first,
      so it stays even when a guard then rejects the request. */
  method AddToCart(db: Database, userId: UserId, productId: ProductId, quantity: int) returns (r: Result<(), CartError>)
    requires db.Valid() && userId in db.users
    modifies db`carts, db`nextCartId, db`cartItems, db`nextItemId
    ensures db.Valid()
    ensures CartOf(db.carts, userId).Some?
    ensures CartEnsured(old(db.carts), old(db.nextCartId), db.carts, db.nextCartId, userId, CartOf(db.carts, userId).value)
    ensures var cartId := CartOf(db.carts, userId).value;
            && (productId !in db.products ==> r == Err(ProductNotFound))
            && (productId in db.products && db.products[productId].stock < quantity ==> r == Err(NotEnoughStock))
            && (productId in db.products && db.products[productId].stock >= quantity ==>
                  (r.Ok? <==> Quantity(old(db.cartItems), cartId, productId) + quantity >= 1))
            && (r.Ok? ==> (db.cartItems, db.nextItemId) == Merge(old(db.cartItems), old(db.nextItemId), cartId, productId, quantity))
            && (r.Err? ==> db.cartItems == old(db.cartItems) && db.nextItemId == old(db.nextItemId))
  {
    var cartId := EnsureCart(db, userId);
    r := AddLine(db, cartId, productId, quantity);
  }

  /** `CartItem.findByPk(id)`. */
  function ItemById(items: seq<CartItem>, id: ItemId): (r: Option<CartItem>)
    ensures r.None? <==> forall x :: x in items ==> x.id != id
    ensures r.Some? ==> r.value in items && r.value.id == id
  {
    if items == [] then None
    else if items[0].id == id then Some(items[0])
    else ItemById(items[1..], id)
  }

  /** The guards update and removal share: the line must exist, and the cart
      it is in must be the caller's (a line whose cart row is gone makes
      `cart.userId` throw). */
  function Access(items: seq<CartItem>, carts: map<CartId, UserId>, itemId: ItemId, userId: UserId)
    : (r: Result<CartItem, CartError>)
    ensures r == Err(ItemNotFound) <==> forall x :: x in items ==> x.id != itemId
    ensures r == Err(NotAuthorized) <==>
              ItemById(items, itemId).Some? && ItemById(items, itemId).value.cartId in carts &&
              carts[ItemById(items, itemId).value.cartId] != userId
    ensures r.Ok? ==> r.value in items && r.value.id == itemId && r.value.cartId in carts && carts[r.value.cartId] == userId
    ensures r.Err? ==> r.error in {ItemNotFound, NotAuthorized, ServerError}
  {
    match ItemById(items, itemId)
    case None => Err(ItemNotFound)
    case Some(x) =>
      if x.cartId !in carts then Err(ServerError)
      else if carts[x.cartId] != userId then Err(NotAuthorized)
      else Ok(x)
  }

  /** updateCartItem: after the guards, a quantity below 1 deletes the line and
      any other quantity replaces it. */
  method UpdateCartItem(db: Database, userId: UserId, itemId: ItemId, quantity: int) returns (r: Result<(), CartError>)
    requires db.Valid()
    modifies db`cartItems, db`nextItemId
    ensures db.nextItemId == old(db.nextItemId)
    ensures db.Valid()
    ensures var guard := Access(old(db.cartItems), db.carts, itemId, userId);
            && (guard.Err? ==> r == Err(guard.error) && db.cartItems == old(db.cartItems))
            && (guard.Ok? ==>
                  (r == Ok(()) &&
                   db.cartItems == if quantity < 1 then DeleteLine(old(db.cartItems), itemId)
                                   else SetQuantity(old(db.cartItems), itemId, quantity)))
  {
    var guard := Access(db.cartItems, db.carts, itemId, userId);
    if guard.Err? {
      return Err(guard.error);
    }
    if quantity < 1 {
      DeleteLineValid(db.cartItems, db.carts, db.nextItemId, itemId);
      WriteRows(db, DeleteLine(db.cartItems, itemId), db.nextItemId);
    } else {
      SetQuantityValid(db.cartItems, db.carts, db.nextItemId, itemId, quantity);
      WriteRows(db, SetQuantity(db.cartItems, itemId, quantity), db.nextItemId);
    }
    r := Ok(());
  }

  /** removeFromCart: after the guards, the line is deleted. */
  method RemoveFromCart(db: Database, userId: UserId, itemId: ItemId) returns (r: Result<(), CartError>)
    requires db.Valid()
    modifies db`cartItems, db`nextItemId
    ensures db.nextItemId == old(db.nextItemId)
    ensures db.Valid()
    ensures var guard := Access(old(db.cartItems), db.carts, itemId, userId);
            && (guard.Err? ==> r == Err(guard.error) && db.cartItems == old(db.cartItems))
            && (guard.Ok? ==> r == Ok(()) && db.cartItems == DeleteLine(old(db.cartItems), itemId))
  {
    var guard := Access(db.cartItems, db.carts, itemId, userId);
    if guard.Err? {
      return Err(guard.error);
    }
    DeleteLineValid(db.cartItems, db.carts, db.nextItemId, itemId);
    WriteRows(db, DeleteLine(db.cartItems, itemId), db.nextItemId);
    r := Ok(());
  }

  lemma {:induction false} LinesOfDeleteOther(items: seq<CartItem>, id: ItemId, c: CartId)
    requires forall y :: y in items && y.cartId == c ==> y.id != id
    ensures LinesOf(DeleteLine(items, id), c) == LinesOf(items, c)
  {
    if items != [] {
      assert items[0] in items;
      LinesOfDeleteOther(items[1..], id, c);
      var d := DeleteLine(items, id);
      if items[0].id != id {
        assert d == [items[0]] + DeleteLine(items[1..], id);
        assert d[0] == items[0] && d[1..] == DeleteLine(items[1..], id);
        assert LinesOf(d, c) == (if items[0].cartId == c then [items[0]] else []) + LinesOf(d[1..], c);
      } else {
        assert items[0].cartId != c;
        assert d == DeleteLine(items[1..], id);
        assert LinesOf(items, c) == LinesOf(items[1..], c);
      }
    }
  }

  /** Removing a line the guards let through takes exactly that line out of
      the caller's cart, and every other cart keeps all its lines in order. */
  lemma {:induction false} RemoveOnlyTarget(items: seq<CartItem>, carts: map<CartId, UserId>,
                                            itemId: ItemId, userId: UserId, c: CartId)
    requires IdsAscending(items)
    requires Access(items, carts, itemId, userId).Ok?
    ensures var x := Access(items, carts, itemId, userId).value;
            && (forall y :: y in LinesOf(DeleteLine(items, itemId), x.cartId) <==> y in LinesOf(items, x.cartId) && y != x)
            && (c != x.cartId ==> LinesOf(DeleteLine(items, itemId), c) == LinesOf(items, c))
  {
    var x := Access(items, carts, itemId, userId).value;
    forall y | y in items && y.id == itemId ensures y == x {
      IdsUnique(items, y, x);
    }
    if c != x.cartId {
      LinesOfDeleteOther(items, itemId, c);
    }
  }

  /** A quantity update the guards let through changes only the target line:
      it gets the new quantity (or goes, below 1), and every other line is
      looked up as before. */
  lemma {:induction false} UpdateOnlyTarget(items: seq<CartItem>, carts: map<CartId, UserId>,
                                            itemId: ItemId, userId: UserId, q: int, c: CartId, p: ProductId)
    requires IdsAscending(items) && OneLinePerProduct(items)
    requires Access(items, carts, itemId, userId).Ok?
    ensures var x := Access(items, carts, itemId, userId).value;
            var after := if q < 1 then DeleteLine(items, itemId) else SetQuantity(items, itemId, q);
            && Quantity(after, x.cartId, x.productId) == (if q < 1 then 0 else q)
            && ((c, p) != (x.cartId, x.productId) ==> LineFor(after, c, p) == LineFor(items, c, p))
  {
    var x := Access(items, carts, itemId, userId).value;
    forall y | y in items && y.cartId == x.cartId && y.productId == x.productId ensures y.id == x.id {
      SameKeySameRow(items, x, y);
    }
    if q < 1 {
      forall y | y in items && y.id == itemId ensures y == x {
        IdsUnique(items, y, x);
      }
      LineForDelete(items, x, c, p);
      LineForDelete(items, x, x.cartId, x.productId);
    } else {
      LineForSetQuantity(items, x, q, c, p);
      LineForSetQuantity(items, x, q, x.cartId, x.productId);
    }
  }

  lemma {:induction false} LineForDelete(items: seq<CartItem>, x: CartItem, cartId: CartId, productId: ProductId)
    requires x in items
    requires forall y :: y in items && y.id == x.id ==> y == x
    requires forall y :: y in items && y.cartId == x.cartId && y.productId == x.productId ==> y.id == x.id
    ensures LineFor(DeleteLine(items, x.id), cartId, productId) ==
            if cartId == x.cartId && productId == x.productId then None else LineFor(items, cartId, productId)
  {
    var rest := DeleteLine(items[1..], x.id);
    if items[0] == x {
      assert DeleteLine(items, x.id) == rest;
      if !(cartId == x.cartId && productId == x.productId) {
        if x !in items[1..] {
          LineForDeleteAbsent(items[1..], x.id, cartId, productId);
        } else {
          LineForDelete(items[1..], x, cartId, productId);
        }
      } else {
        assert forall y :: y in rest ==> !(y.cartId == cartId && y.productId == productId);
      }
    } else {
      assert items[0].id != x.id;
      assert DeleteLine(items, x.id) == [items[0]] + rest;
      assert ([items[0]] + rest)[1..] == rest;
      assert x in items[1..] by {
        var i :| 0 <= i < |items| && items[i] == x;
        assert items[1..][i - 1] == x;
      }
      LineForDelete(items[1..], x, cartId, productId);
    }
  }

  lemma {:induction false} LineForDeleteAbsent(items: seq<CartItem>, id: ItemId, cartId: CartId, productId: ProductId)
    requires forall y :: y in items ==> y.id != id
    ensures LineFor(DeleteLine(items, id), cartId, productId) == LineFor(items, cartId, productId)
  {
    if items != [] {
      assert DeleteLine(items, id) == [items[0]] + DeleteLine(items[1..], id);
      assert ([items[0]] + DeleteLine(items[1..], id))[1..] == DeleteLine(items[1..], id);
      LineForDeleteAbsent(items[1..], id, cartId, productId);
    }
  }
}
