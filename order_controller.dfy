/**
 * Order settlement (createOrder) and the order read guard (getOrderById) of
 * backend/src/controllers/orderController.js.
 *
 * The settlement runs as the source writes it, one step after the other:
 * load the cart, check every line's stock while summing the subtotal, check
 * and consume the discount code, redeem referral credit, insert the order,
 * insert the order items while lowering stock, delete the cart lines.  There
 * is no transaction: the code use and the credit debit are saved before the
 * order insert, so an order insert that fails after them leaves them in place.
 * `Settle` is the decision the steps compute, as a function of the state
 * before the call; `CreateOrder` is proved to perform it.
 */
module OrderController {
  import opened Wrappers
  import opened DiscountCodes
  import opened UserModel
  import opened Db
  import opened JsValues
  import Pricing

  datatype OrderError =
    | EmptyCart
    | OutOfStock(productName: string)
    | InvalidDiscountCode
    | DiscountExpired
    | DiscountLimitReached
    | ServerError          // an exception caught by the handler (status 500)

  /** The request body; `None` is a field left out of it. */
  datatype OrderRequest = OrderRequest(
    shippingAddress: Option<string>,
    paymentMethod: Option<string>,
    discountCode: Option<string>,
    useReferralCredits: bool)

  /** The line's product exists and has at least the line's quantity in stock. */
  predicate Stocked(products: map<ProductId, Product>, l: CartItem) {
    l.productId in products && products[l.productId].stock >= l.quantity
  }

  /** Why a line fails the stock check: a missing product row makes
      `item.Product.stock` throw; otherwise the product is out of stock. */
  function LineFailure(products: map<ProductId, Product>, l: CartItem): OrderError {
    if l.productId !in products then ServerError else OutOfStock(products[l.productId].name)
  }

  /** Step 2: the lines in order; the first failing line ends the check,
      otherwise the result is the subtotal at the current prices. */
  function StockCheck(products: map<ProductId, Product>, lines: seq<CartItem>): (r: Result<real, OrderError>)
    ensures r.Ok? <==> forall i :: 0 <= i < |lines| ==> Stocked(products, lines[i])
    decreases |lines|
  {
    if lines == [] then Ok(0.0)
    else
      var init, l := lines[..|lines| - 1], lines[|lines| - 1];
      assert forall i :: 0 <= i < |init| ==> init[i] == lines[i];
      match StockCheck(products, init)
      case Err(e) => Err(e)
      case Ok(s) =>
        if !Stocked(products, l) then Err(LineFailure(products, l))
        else Ok(s + Pricing.LineTotal(Pricing.Line(products[l.productId].price, l.quantity)))
  }

  /** A passed stock check yields the subtotal of the lines at the current prices. */
  lemma {:induction false} StockCheckSubtotal(products: map<ProductId, Product>, lines: seq<CartItem>)
    requires StockCheck(products, lines).Ok?
    ensures InCatalog(products, lines)
    ensures StockCheck(products, lines).value == Pricing.Subtotal(Priced(products, lines))
    decreases |lines|
  {
    if lines != [] {
      var init := lines[..|lines| - 1];
      assert forall i :: 0 <= i < |init| ==> init[i] == lines[i];
      StockCheckSubtotal(products, init);
      assert Priced(products, lines)[..|lines| - 1] == Priced(products, init);
    }
  }

  /** A failed stock check reports the first failing line. */
  lemma {:induction false} StockCheckFirstFailure(products: map<ProductId, Product>, lines: seq<CartItem>)
    requires StockCheck(products, lines).Err?
    ensures exists i :: 0 <= i < |lines| && !Stocked(products, lines[i]) &&
                        (forall k :: 0 <= k < i ==> Stocked(products, lines[k])) &&
                        StockCheck(products, lines).error == LineFailure(products, lines[i])
    decreases |lines|
  {
    var init := lines[..|lines| - 1];
    assert forall k :: 0 <= k < |init| ==> init[k] == lines[k];
    if StockCheck(products, init).Err? {
      StockCheckFirstFailure(products, init);
      var i :| 0 <= i < |init| && !Stocked(products, init[i]) &&
               (forall k :: 0 <= k < i ==> Stocked(products, init[k])) &&
               StockCheck(products, init).error == LineFailure(products, init[i]);
      assert lines[i] == init[i];
    } else {
      assert forall k :: 0 <= k < |lines| - 1 ==> Stocked(products, lines[k]);
    }
  }

  /** A failure in a prefix of the lines is the failure of all of them. */
  lemma {:induction false} StockCheckPrefixFailure(products: map<ProductId, Product>, lines: seq<CartItem>, k: nat)
    requires k <= |lines| && StockCheck(products, lines[..k]).Err?
    ensures StockCheck(products, lines) == StockCheck(products, lines[..k])
    decreases |lines| - k
  {
    if k < |lines| {
      var next := lines[..k + 1];
      assert next[..k] == lines[..k];
      StockCheckPrefixFailure(products, lines, k + 1);
    } else {
      assert lines[..k] == lines;
    }
  }

  /** One more line either fails the check or adds its total. */
  lemma StockCheckStep(products: map<ProductId, Product>, lines: seq<CartItem>, i: nat, subtotal: real)
    requires i < |lines| && StockCheck(products, lines[..i]) == Ok(subtotal)
    ensures StockCheck(products, lines[..i + 1]) ==
            if !Stocked(products, lines[i]) then Err(LineFailure(products, lines[i]))
            else Ok(subtotal + Pricing.LineTotal(Pricing.Line(products[lines[i].productId].price, lines[i].quantity)))
  {
    assert lines[..i + 1][..i] == lines[..i];
  }

  /** Step 2 as the source runs it: a loop that checks each line and adds its
      total to the subtotal. */
  method CheckLines(products: map<ProductId, Product>, lines: seq<CartItem>) returns (r: Result<real, OrderError>)
    ensures r == StockCheck(products, lines)
    ensures r.Ok? ==> InCatalog(products, lines)
  {
    var subtotal := 0.0;
    var i := 0;
    while i < |lines|
      invariant 0 <= i <= |lines|
      invariant StockCheck(products, lines[..i]) == Ok(subtotal)
    {
      var item := lines[i];
      StockCheckStep(products, lines, i, subtotal);
      if item.productId !in products {
        StockCheckPrefixFailure(products, lines, i + 1);
        return Err(ServerError);
      }
      if products[item.productId].stock < item.quantity {
        StockCheckPrefixFailure(products, lines, i + 1);
        return Err(OutOfStock(products[item.productId].name));
      }
      subtotal := subtotal + Pricing.LineTotal(Pricing.Line(products[item.productId].price, item.quantity));
      i := i + 1;
    }
    assert lines[..i] == lines;
    r := Ok(subtotal);
  }

  /** Step 3: no code supplied gives no discount; a supplied code must pass the
      guard chain, and then gives its percentage of the subtotal and is consumed. */
  function DiscountStep(codes: map<string, DiscountCode>, code: Option<string>, now: Timestamp, subtotal: real)
    : Result<(real, Option<string>), OrderError>
  {
    if !Supplied(code) then Ok((0.0, None))
    else
      match Check(codes, code.value, now)
      case Err(Invalid) => Err(InvalidDiscountCode)
      case Err(Expired) => Err(DiscountExpired)
      case Err(LimitReached) => Err(DiscountLimitReached)
      case Ok(d) => Ok((Pricing.DiscountAmount(subtotal, d.percentage), Some(code.value)))
  }

  /** Step 4: credit is redeemed only when asked for and the balance is positive. */
  function CreditsStep(requested: bool, balance: real, remaining: real): real {
    if requested && balance > 0.0 then Pricing.CreditsApplied(balance, remaining) else 0.0
  }

  datatype Settlement = Settlement(
    subtotal: real,
    discount: real,
    creditsUsed: real,
    total: real,
    consumed: Option<string>)   // the code whose usage count rises

  /** What createOrder decides for a cart, before anything is written. */
  function Settle(products: map<ProductId, Product>, codes: map<string, DiscountCode>, balance: real,
                  lines: seq<CartItem>, req: OrderRequest, now: Timestamp): (r: Result<Settlement, OrderError>)
    ensures r.Ok? ==> lines != [] && InCatalog(products, lines) && StockCheck(products, lines) == Ok(r.value.subtotal)
  {
    if lines == [] then Err(EmptyCart)
    else
      match StockCheck(products, lines)
      case Err(e) => Err(e)
      case Ok(subtotal) =>
        match DiscountStep(codes, req.discountCode, now, subtotal)
        case Err(e) => Err(e)
        case Ok((discount, consumed)) =>
          var credits := CreditsStep(req.useReferralCredits, balance, subtotal - discount);
          Ok(Settlement(subtotal, discount, credits, Pricing.OrderTotal(subtotal, discount, credits), consumed))
  }

  /** A settlement whose steps all succeed. */
  lemma SettleSucceeds(products: map<ProductId, Product>, codes: map<string, DiscountCode>, balance: real,
                       lines: seq<CartItem>, req: OrderRequest, now: Timestamp, subtotal: real, discount: (real, Option<string>))
    requires lines != [] && StockCheck(products, lines) == Ok(subtotal)
    requires DiscountStep(codes, req.discountCode, now, subtotal) == Ok(discount)
    ensures var credits := CreditsStep(req.useReferralCredits, balance, subtotal - discount.0);
            Settle(products, codes, balance, lines, req, now) ==
            Ok(Settlement(subtotal, discount.0, credits, Pricing.OrderTotal(subtotal, discount.0, credits), discount.1))
  {
  }

  /** The guards run in a fixed order, and each rejection happens exactly when
      its condition is the first to hold: empty cart, then a line's stock, then
      an unknown or inactive code, an expired code, an exhausted code. */
  lemma SettleGuards(products: map<ProductId, Product>, codes: map<string, DiscountCode>, balance: real,
                     lines: seq<CartItem>, req: OrderRequest, now: Timestamp)
    ensures var r := Settle(products, codes, balance, lines, req, now);
            var code := req.discountCode;
            && (r == Err(EmptyCart) <==> lines == [])
            && (lines != [] && StockCheck(products, lines).Err? ==> r == Err(StockCheck(products, lines).error))
            && (r == Err(InvalidDiscountCode) <==>
                  lines != [] && StockCheck(products, lines).Ok? && Supplied(code) && Check(codes, code.value, now) == Err(Invalid))
            && (r == Err(DiscountExpired) <==>
                  lines != [] && StockCheck(products, lines).Ok? && Supplied(code) && Check(codes, code.value, now) == Err(Expired))
            && (r == Err(DiscountLimitReached) <==>
                  lines != [] && StockCheck(products, lines).Ok? && Supplied(code) && Check(codes, code.value, now) == Err(LimitReached))
            && (r.Ok? <==>
                  lines != [] && StockCheck(products, lines).Ok? && (!Supplied(code) || Check(codes, code.value, now).Ok?))
  {
    if lines != [] && StockCheck(products, lines).Err? {
      StockCheckFirstFailure(products, lines);
    }
  }

  /** The amounts of a successful settlement: the subtotal at the current
      prices, the code's percentage of it when a code is supplied, the credit
      capped at what is left after the discount, and the floored total. */
  lemma SettleAmounts(products: map<ProductId, Product>, codes: map<string, DiscountCode>, balance: real,
                      lines: seq<CartItem>, req: OrderRequest, now: Timestamp)
    requires Settle(products, codes, balance, lines, req, now).Ok?
    ensures var p := Settle(products, codes, balance, lines, req, now).value;
            && InCatalog(products, lines)
            && p.subtotal == Pricing.Subtotal(Priced(products, lines))
            && (p.consumed.Some? <==> Supplied(req.discountCode))
            && (p.consumed.Some? ==> p.consumed == req.discountCode && p.consumed.value in codes &&
                                     p.discount == Pricing.DiscountAmount(p.subtotal, codes[p.consumed.value].percentage))
            && (p.consumed.None? ==> p.discount == 0.0)
            && (req.useReferralCredits && balance > 0.0 ==>
                  p.creditsUsed == Pricing.CreditsApplied(balance, p.subtotal - p.discount))
            && (!(req.useReferralCredits && balance > 0.0) ==> p.creditsUsed == 0.0)
            && p.total == Pricing.OrderTotal(p.subtotal, p.discount, p.creditsUsed)
  {
    StockCheckSubtotal(products, lines);
    if Supplied(req.discountCode) {
      assert Check(codes, req.discountCode.value, now).Ok?;
    }
  }

  /** A successful settlement consumes only a code that passed the guard
      chain, and never takes more credit than a non-negative balance holds. */
  lemma SettleSavesSafely(products: map<ProductId, Product>, codes: map<string, DiscountCode>, balance: real,
                          lines: seq<CartItem>, req: OrderRequest, now: Timestamp)
    requires balance >= 0.0
    requires Settle(products, codes, balance, lines, req, now).Ok?
    ensures var p := Settle(products, codes, balance, lines, req, now).value;
            && balance - p.creditsUsed >= 0.0
            && (p.consumed.Some? ==> Check(codes, p.consumed.value, now).Ok?)
  {
    if Supplied(req.discountCode) {
      assert Check(codes, req.discountCode.value, now).Ok?;
    }
  }

  predicate PricesNonNegative(products: map<ProductId, Product>) {
    forall p :: p in products ==> products[p].price >= 0.0
  }

  /** With no negative price and a schema-valid code, the discount never exceeds the
      subtotal, the credit used lies between 0 and the balance, and the total is
      exactly subtotal - discount - credit, never negative (the floor is never
      needed). */
  lemma SettleTotalIsExact(products: map<ProductId, Product>, codes: map<string, DiscountCode>, balance: real,
                           lines: seq<CartItem>, req: OrderRequest, now: Timestamp)
    requires PricesNonNegative(products) && CodesConsistent(codes) && balance >= 0.0
    requires forall i :: 0 <= i < |lines| ==> lines[i].quantity >= 1
    requires Settle(products, codes, balance, lines, req, now).Ok?
    ensures var p := Settle(products, codes, balance, lines, req, now).value;
            && 0.0 <= p.discount <= p.subtotal
            && 0.0 <= p.creditsUsed <= balance
            && p.total == p.subtotal - p.discount - p.creditsUsed
            && p.total >= 0.0
  {
    SettleAmounts(products, codes, balance, lines, req, now);
    var p := Settle(products, codes, balance, lines, req, now).value;
    var priced := Priced(products, lines);
    assert Pricing.NonNegative(priced) by {
      forall i | 0 <= i < |priced| ensures priced[i].price >= 0.0 && priced[i].quantity >= 0 {
        assert lines[i].productId in products;
      }
    }
  }

  /** The product table after step 6: each line's product loses the line's quantity. */
  function ApplyStock(products: map<ProductId, Product>, lines: seq<CartItem>): (r: map<ProductId, Product>)
    requires InCatalog(products, lines)
    ensures r.Keys == products.Keys
  {
    if lines == [] then products
    else
      var init, l := lines[..|lines| - 1], lines[|lines| - 1];
      InCatalogPrefix(products, lines, |lines| - 1);
      var before := ApplyStock(products, init);
      before[l.productId := before[l.productId].(stock := before[l.productId].stock - l.quantity)]
  }

  /** The total quantity the lines take of one product. */
  function QuantityOf(lines: seq<CartItem>, p: ProductId): int {
    if lines == [] then 0
    else QuantityOf(lines[..|lines| - 1], p) + (if lines[|lines| - 1].productId == p then lines[|lines| - 1].quantity else 0)
  }

  /** Each product's stock falls by exactly the quantity the lines take of it,
      and nothing else about any product changes. */
  lemma {:induction false} StockFallsByQuantity(products: map<ProductId, Product>, lines: seq<CartItem>, p: ProductId)
    requires InCatalog(products, lines) && p in products
    ensures ApplyStock(products, lines)[p] == products[p].(stock := products[p].stock - QuantityOf(lines, p))
  {
    if lines != [] {
      var init := lines[..|lines| - 1];
      InCatalogPrefix(products, lines, |lines| - 1);
      StockFallsByQuantity(products, init, p);
    }
  }

  /** With one line per product, a product takes exactly its line's quantity,
      or nothing when it has no line. */
  lemma {:induction false} QuantityOfDistinct(lines: seq<CartItem>, p: ProductId)
    requires forall i, j :: 0 <= i < j < |lines| ==> lines[i].productId != lines[j].productId
    ensures (forall i :: 0 <= i < |lines| ==> lines[i].productId != p) ==> QuantityOf(lines, p) == 0
    ensures forall i :: 0 <= i < |lines| && lines[i].productId == p ==> QuantityOf(lines, p) == lines[i].quantity
  {
    if lines != [] {
      var init := lines[..|lines| - 1];
      assert forall i :: 0 <= i < |init| ==> init[i] == lines[i];
      QuantityOfDistinct(init, p);
    }
  }

  /** A passed stock check over distinct products leaves no stock that was
      non-negative below zero, and leaves products without a line unchanged. */
  lemma StockStaysNonNegative(products: map<ProductId, Product>, lines: seq<CartItem>)
    requires StockCheck(products, lines).Ok?
    requires forall i, j :: 0 <= i < j < |lines| ==> lines[i].productId != lines[j].productId
    ensures InCatalog(products, lines)
    ensures forall p :: p in products && products[p].stock >= 0 ==> ApplyStock(products, lines)[p].stock >= 0
    ensures forall p :: p in products && (forall i :: 0 <= i < |lines| ==> lines[i].productId != p) ==>
                        ApplyStock(products, lines)[p] == products[p]
  {
    forall p | p in products
      ensures products[p].stock >= 0 ==> ApplyStock(products, lines)[p].stock >= 0
      ensures (forall i :: 0 <= i < |lines| ==> lines[i].productId != p) ==> ApplyStock(products, lines)[p] == products[p]
    {
      StockFallsByQuantity(products, lines, p);
      QuantityOfDistinct(lines, p);
      if exists i :: 0 <= i < |lines| && lines[i].productId == p {
        var i :| 0 <= i < |lines| && lines[i].productId == p;
        assert Stocked(products, lines[i]);
      }
    }
  }

  /** The order items of step 6, with the unit price read at settlement. */
  function OrderItemsFor(orderId: OrderId, products: map<ProductId, Product>, lines: seq<CartItem>): (r: seq<OrderItem>)
    requires InCatalog(products, lines)
    ensures |r| == |lines|
    ensures forall i :: 0 <= i < |lines| ==>
              r[i] == OrderItem(orderId, lines[i].productId, lines[i].quantity, products[lines[i].productId].price)
  {
    seq(|lines|, i requires 0 <= i < |lines| =>
      OrderItem(orderId, lines[i].productId, lines[i].quantity, products[lines[i].productId].price))
  }

  /** The captured order items add up to the settlement's subtotal, so
      subtotal - discount - credit over the captured prices is the order total. */
  lemma CapturedItemsAddUp(orderId: OrderId, products: map<ProductId, Product>, lines: seq<CartItem>)
    requires StockCheck(products, lines).Ok?
    ensures InCatalog(products, lines)
    ensures var items := OrderItemsFor(orderId, products, lines);
            Pricing.Subtotal(seq(|items|, i requires 0 <= i < |items| => Pricing.Line(items[i].price, items[i].quantity)))
              == StockCheck(products, lines).value
  {
    StockCheckSubtotal(products, lines);
    var items := OrderItemsFor(orderId, products, lines);
    assert seq(|items|, i requires 0 <= i < |items| => Pricing.Line(items[i].price, items[i].quantity)) == Priced(products, lines);
  }

  /** The discount table after step 3. */
  function ConsumeCode(codes: map<string, DiscountCode>, consumed: Option<string>): map<string, DiscountCode> {
    match consumed
    case None => codes
    case Some(c) => if c in codes then codes[c := Consume(codes[c])] else codes
  }

  /** The user table after step 4. */
  function Debit(users: map<UserId, User>, userId: UserId, amount: real): map<UserId, User>
    requires userId in users
  {
    users[userId := users[userId].(credits := users[userId].credits - amount)]
  }

  /** One more line adds one more order item. */
  lemma OrderItemsForSnoc(orderId: OrderId, products: map<ProductId, Product>, lines: seq<CartItem>, i: nat)
    requires InCatalog(products, lines) && i < |lines|
    ensures InCatalog(products, lines[..i]) && InCatalog(products, lines[..i + 1])
    ensures OrderItemsFor(orderId, products, lines[..i + 1]) ==
            OrderItemsFor(orderId, products, lines[..i]) +
            [OrderItem(orderId, lines[i].productId, lines[i].quantity, products[lines[i].productId].price)]
  {
    InCatalogPrefix(products, lines, i);
    InCatalogPrefix(products, lines, i + 1);
  }

  /** Step 6: one order item per line at the price read with the cart, and
      the product's stock lowered by the line's quantity; the new product
      table and the new order items. */
  method InsertItems(orderId: OrderId, snapshot: map<ProductId, Product>, lines: seq<CartItem>)
    returns (products: map<ProductId, Product>, added: seq<OrderItem>)
    requires InCatalog(snapshot, lines)
    ensures products == ApplyStock(snapshot, lines)
    ensures added == OrderItemsFor(orderId, snapshot, lines)
  {
    products, added := snapshot, [];
    var i := 0;
    while i < |lines|
      invariant 0 <= i <= |lines|
      invariant InCatalog(snapshot, lines[..i])
      invariant products == ApplyStock(snapshot, lines[..i])
      invariant added == OrderItemsFor(orderId, snapshot, lines[..i])
    {
      var item := lines[i];
      OrderItemsForSnoc(orderId, snapshot, lines, i);
      assert lines[..i + 1][..i] == lines[..i];
      added := added + [OrderItem(orderId, item.productId, item.quantity, snapshot[item.productId].price)];
      var product := products[item.productId];
      products := products[item.productId := product.(stock := product.stock - item.quantity)];
      i := i + 1;
    }
    assert lines[..i] == lines;
  }

  /** New order items of an existing order keep the foreign key valid. */
  lemma AppendedItemsValid(orderItems: seq<OrderItem>, orders: map<OrderId, Order>, orderId: OrderId, added: seq<OrderItem>)
    requires ValidOrderItems(orderItems, orders) && orderId in orders
    requires forall k :: 0 <= k < |added| ==> added[k].orderId == orderId
    ensures ValidOrderItems(orderItems + added, orders)
  {
    var all := orderItems + added;
    forall k | 0 <= k < |all| ensures all[k].orderId in orders {
      if k < |orderItems| { assert all[k] == orderItems[k]; } else { assert all[k] == added[k - |orderItems|]; }
    }
  }

  /** createOrder as a function of the store before the call: the response
      and the store after it.  A missing address or payment method fails the
      order insert after the code use and the credit debit are saved. */
  function CreateOrderSpec(t: Tables, userId: UserId, req: OrderRequest, now: Timestamp)
    : (Result<OrderId, OrderError>, Tables)
    requires OneCartPerUser(t.carts) && userId in t.users
  {
    var lines := CartLines(t.carts, t.cartItems, userId);
    match Settle(t.products, t.discounts, t.users[userId].credits, lines, req, now)
    case Err(e) => (Err(e), t)
    case Ok(p) =>
      if req.shippingAddress.None? || req.paymentMethod.None? then (Err(ServerError), Saved(t, userId, p))
      else
        (Ok(t.nextOrderId), Place(Saved(t, userId, p), NewOrder(userId, p, req), lines, CartOf(t.carts, userId).value))
  }

  /** The store after the code use and the credit debit of a settlement. */
  function Saved(t: Tables, userId: UserId, p: Settlement): Tables
    requires userId in t.users
  {
    t.(discounts := ConsumeCode(t.discounts, p.consumed), users := Debit(t.users, userId, p.creditsUsed))
  }

  /** The order row of a settled request that names an address and a payment method. */
  function NewOrder(userId: UserId, p: Settlement, req: OrderRequest): Order
    requires req.shippingAddress.Some? && req.paymentMethod.Some?
  {
    Order(userId, p.total, req.shippingAddress.value, req.paymentMethod.value, Pending)
  }

  /** The store after an order is placed with id `s.nextOrderId`: its row, its
      items at the current prices, the lowered stock and the cleared cart. */
  function Place(s: Tables, order: Order, lines: seq<CartItem>, cartId: CartId): Tables
    requires InCatalog(s.products, lines)
  {
    var id := s.nextOrderId;
    s.(orders := s.orders[id := order],
       nextOrderId := id + 1,
       orderItems := s.orderItems + OrderItemsFor(id, s.products, lines),
       products := ApplyStock(s.products, lines),
       cartItems := WithoutCart(s.cartItems, cartId))
  }

  /** The three outcomes of createOrder: a rejected settlement changes
      nothing; a settled one without an address or payment method keeps the
      code use and the credit debit; otherwise the order is placed. */
  lemma CreateOrderOutcomes(t: Tables, userId: UserId, req: OrderRequest, now: Timestamp)
    requires OneCartPerUser(t.carts) && userId in t.users
    ensures var lines := CartLines(t.carts, t.cartItems, userId);
            var plan := Settle(t.products, t.discounts, t.users[userId].credits, lines, req, now);
            var out := CreateOrderSpec(t, userId, req, now);
            && (plan.Err? ==> out == (Err(plan.error), t))
            && (plan.Ok? && (req.shippingAddress.None? || req.paymentMethod.None?) ==>
                  out == (Err(ServerError), Saved(t, userId, plan.value)))
            && (plan.Ok? && req.shippingAddress.Some? && req.paymentMethod.Some? ==>
                  && CartOf(t.carts, userId).Some?
                  && InCatalog(t.products, lines)
                  && out == (Ok(t.nextOrderId), Place(Saved(t, userId, plan.value), NewOrder(userId, plan.value, req),
                                                     lines, CartOf(t.carts, userId).value)))
  {
  }

  /** The tables after an order is placed: its row, its items, each product's
      stock lowered by what the lines take of it, the cart emptied and every
      other cart's lines as they were; users, codes and carts untouched. */
  lemma PlaceEffects(s: Tables, order: Order, lines: seq<CartItem>, c: CartId)
    requires InCatalog(s.products, lines)
    ensures var s' := Place(s, order, lines, c);
            && s'.orders == s.orders[s.nextOrderId := order]
            && s'.orderItems == s.orderItems + OrderItemsFor(s.nextOrderId, s.products, lines)
            && s'.products.Keys == s.products.Keys
            && (forall q :: q in s.products ==>
                  s'.products[q] == s.products[q].(stock := s.products[q].stock - QuantityOf(lines, q)))
            && s'.users == s.users && s'.discounts == s.discounts && s'.carts == s.carts
            && LinesOf(s'.cartItems, c) == []
            && (forall o :: o != c ==> LinesOf(s'.cartItems, o) == LinesOf(s.cartItems, o))
  {
    forall q | q in s.products
      ensures ApplyStock(s.products, lines)[q] == s.products[q].(stock := s.products[q].stock - QuantityOf(lines, q))
    {
      StockFallsByQuantity(s.products, lines, q);
    }
    ClearedCartIsEmpty(s.cartItems, c, c);
    forall o | o != c ensures LinesOf(WithoutCart(s.cartItems, c), o) == LinesOf(s.cartItems, o) {
      ClearedCartIsEmpty(s.cartItems, c, o);
    }
  }

  /** Consuming a code that passed the guard chain keeps the discount table consistent. */
  lemma ConsumeCodeKeepsConsistent(codes: map<string, DiscountCode>, consumed: Option<string>, now: Timestamp)
    requires CodesConsistent(codes)
    requires consumed.Some? ==> Check(codes, consumed.value, now).Ok?
    ensures CodesConsistent(ConsumeCode(codes, consumed))
  {
    if consumed.Some? {
      ConsumeKeepsCounterInRange(codes, consumed.value, now);
    }
  }

  /** A debit the balance covers keeps the user table's keys, its unique
      columns and its non-negative balances. */
  lemma DebitKeepsUsersValid(users: map<UserId, User>, userId: UserId, amount: real)
    requires userId in users && UniqueUserColumns(users) && CreditsNonNegative(users)
    requires users[userId].credits - amount >= 0.0
    ensures Debit(users, userId, amount).Keys == users.Keys
    ensures UniqueUserColumns(Debit(users, userId, amount)) && CreditsNonNegative(Debit(users, userId, amount))
  {
    var after := Debit(users, userId, amount);
    assert after.Keys == users.Keys;
    forall u | u in after ensures after[u].email == users[u].email && after[u].referralCode == users[u].referralCode {
    }
  }

  /** Saving a code use that passed the guard chain and a debit the balance
      covers keeps the store valid. */
  lemma SavedKeepsValid(t: Tables, userId: UserId, p: Settlement, now: Timestamp)
    requires ValidTables(t) && userId in t.users
    requires t.users[userId].credits - p.creditsUsed >= 0.0
    requires p.consumed.Some? ==> Check(t.discounts, p.consumed.value, now).Ok?
    ensures ValidTables(Saved(t, userId, p))
  {
    ConsumeCodeKeepsConsistent(t.discounts, p.consumed, now);
    DebitKeepsUsersValid(t.users, userId, p.creditsUsed);
  }

  /** Placing an order for an existing user keeps the store valid. */
  lemma PlaceKeepsValid(s: Tables, order: Order, lines: seq<CartItem>, cartId: CartId)
    requires ValidTables(s) && order.userId in s.users && InCatalog(s.products, lines)
    ensures ValidTables(Place(s, order, lines, cartId))
  {
    var id := s.nextOrderId;
    var orders := s.orders[id := order];
    assert ValidOrderItems(s.orderItems, orders);
    AppendedItemsValid(s.orderItems, orders, id, OrderItemsFor(id, s.products, lines));
    WithoutCartValid(s.cartItems, cartId, s.carts, s.nextItemId);
  }

  /** createOrder keeps every schema constraint and invariant of the store. */
  lemma CreateOrderKeepsValid(t: Tables, userId: UserId, req: OrderRequest, now: Timestamp)
    requires ValidTables(t) && userId in t.users
    ensures ValidTables(CreateOrderSpec(t, userId, req, now).1)
  {
    var lines := CartLines(t.carts, t.cartItems, userId);
    var plan := Settle(t.products, t.discounts, t.users[userId].credits, lines, req, now);
    CreateOrderOutcomes(t, userId, req, now);
    if plan.Ok? {
      SettleSavesSafely(t.products, t.discounts, t.users[userId].credits, lines, req, now);
      SavedKeepsValid(t, userId, plan.value, now);
      if req.shippingAddress.Some? && req.paymentMethod.Some? {
        PlaceKeepsValid(Saved(t, userId, plan.value), NewOrder(userId, plan.value, req), lines, CartOf(t.carts, userId).value);
      }
    }
  }

  /** Step 3 on the store: the code's guard chain, then `usedCount += 1` on it. */
  method RedeemCode(db: Database, code: Option<string>, now: Timestamp, subtotal: real)
    returns (r: Result<(real, Option<string>), OrderError>)
    modifies db`discounts
    ensures r == DiscountStep(old(db.discounts), code, now, subtotal)
    ensures db.discounts == if r.Ok? then ConsumeCode(old(db.discounts), r.value.1) else old(db.discounts)
  {
    if !Supplied(code) {
      return Ok((0.0, None));
    }
    var found := FindActive(db.discounts, code.value);
    if found.None? {
      return Err(InvalidDiscountCode);
    }
    var d := found.value;
    if now > d.expiry {
      return Err(DiscountExpired);
    }
    if d.usageLimit <= d.usedCount {
      return Err(DiscountLimitReached);
    }
    db.discounts := db.discounts[code.value := Consume(d)];
    r := Ok((Pricing.DiscountAmount(subtotal, d.percentage), Some(code.value)));
  }

  /** Step 4 on the store: the credit used is debited from the balance. */
  method RedeemCredits(db: Database, userId: UserId, requested: bool, remaining: real) returns (used: real)
    requires userId in db.users
    modifies db`users
    ensures used == CreditsStep(requested, old(db.users[userId].credits), remaining)
    ensures db.users == Debit(old(db.users), userId, used)
  {
    used := 0.0;
    if requested {
      var user := db.users[userId];
      if user.credits > 0.0 {
        if user.credits >= remaining {
          used := remaining;
        } else {
          used := user.credits;
        }
        db.users := db.users[userId := user.(credits := user.credits - used)];
        return;
      }
    }
    assert Debit(db.users, userId, 0.0) == db.users;
  }

  /** What steps 1 to 4 leave behind: the cart, its lines and the settlement. */
  datatype Prepared = Prepared(cartId: CartId, lines: seq<CartItem>, plan: Settlement)

  /** `r` and `after` are what steps 1 to 4 leave when run on `before`: the
      rejection and an untouched store, or the cart, its lines and the
      settlement with the code use and the credit debit saved. */
  ghost predicate PreparedBy(before: Tables, userId: UserId, req: OrderRequest, now: Timestamp,
                             r: Result<Prepared, OrderError>, after: Tables)
    requires OneCartPerUser(before.carts) && userId in before.users
  {
    var lines := CartLines(before.carts, before.cartItems, userId);
    var plan := Settle(before.products, before.discounts, before.users[userId].credits, lines, req, now);
    && (plan.Err? ==> r == Err(plan.error) && after == before)
    && (plan.Ok? ==> && r == Ok(Prepared(CartOf(before.carts, userId).value, lines, plan.value))
                     && after == Saved(before, userId, plan.value))
  }

  /** Steps 5 to 7 complete what steps 1 to 4 began to the specification. */
  lemma PreparedOutcome(before: Tables, userId: UserId, req: OrderRequest, now: Timestamp,
                        r: Result<Prepared, OrderError>, after: Tables)
    requires OneCartPerUser(before.carts) && userId in before.users
    requires PreparedBy(before, userId, req, now, r, after)
    ensures r.Err? ==> CreateOrderSpec(before, userId, req, now) == (Err(r.error), after)
    ensures r.Ok? ==>
              && InCatalog(after.products, r.value.lines)
              && CreateOrderSpec(before, userId, req, now) ==
                 if req.shippingAddress.None? || req.paymentMethod.None? then (Err(ServerError), after)
                 else (Ok(after.nextOrderId), Place(after, NewOrder(userId, r.value.plan, req), r.value.lines, r.value.cartId))
  {
    CreateOrderOutcomes(before, userId, req, now);
  }

  /** Steps 1 to 4 of createOrder: the checks, the code use and the credit debit. */
  method Prepare(db: Database, userId: UserId, req: OrderRequest, now: Timestamp) returns (r: Result<Prepared, OrderError>)
    requires OneCartPerUser(db.carts) && userId in db.users
    modifies db`discounts, db`users
    ensures PreparedBy(old(db.Contents()), userId, req, now, r, db.Contents())
  {
    // 1. The cart and its lines, joined with their products.
    ghost var before := db.Contents();
    var cart := CartOf(db.carts, userId);
    if cart.None? {
      assert CartLines(db.carts, db.cartItems, userId) == [];
      return Err(EmptyCart);
    }
    var cartId := cart.value;
    var lines := LinesOf(db.cartItems, cartId);
    assert lines == CartLines(db.carts, db.cartItems, userId);
    ghost var balance := db.users[userId].credits;
    if |lines| == 0 {
      return Err(EmptyCart);
    }

    // 2. Subtotal and stock.
    var checked := CheckLines(db.products, lines);
    if checked.Err? {
      assert Settle(db.products, db.discounts, balance, lines, req, now) == Err(checked.error);
      return Err(checked.error);
    }
    var subtotal := checked.value;

    // 3. Discount code.
    var discount := RedeemCode(db, req.discountCode, now, subtotal);
    if discount.Err? {
      assert Settle(db.products, old(db.discounts), balance, lines, req, now) == Err(discount.error);
      return Err(discount.error);
    }
    var discountAmount := discount.value.0;
    SettleSucceeds(db.products, old(db.discounts), old(db.users[userId].credits), lines, req, now, subtotal, discount.value);

    // 4. Referral credits.
    var creditsUsed := RedeemCredits(db, userId, req.useReferralCredits, subtotal - discountAmount);
    var total := Pricing.OrderTotal(subtotal, discountAmount, creditsUsed);
    r := Ok(Prepared(cartId, lines, Settlement(subtotal, discountAmount, creditsUsed, total, discount.value.1)));
    assert db.Contents() == Saved(before, userId, r.value.plan);
  }

  /** Steps 5 to 7 on the store: the order row with the next id, its items
      and the stock, and the cleared cart. */
  method PlaceOrder(db: Database, order: Order, lines: seq<CartItem>, cartId: CartId) returns (orderId: OrderId)
    requires InCatalog(db.products, lines)
    modifies db`orders, db`nextOrderId, db`products, db`orderItems, db`cartItems
    ensures orderId == old(db.nextOrderId)
    ensures db.Contents() == Place(old(db.Contents()), order, lines, cartId)
  {
    // 5. The order row.
    orderId := db.nextOrderId;
    db.orders := db.orders[orderId := order];
    db.nextOrderId := db.nextOrderId + 1;
    // 6. Order items at the prices read with the cart, and stock.
    var products, added := InsertItems(orderId, db.products, lines);
    db.products, db.orderItems := products, db.orderItems + added;
    // 7. Clear the cart.
    db.cartItems := WithoutCart(db.cartItems, cartId);
  }

  /** Steps 5 to 7 guarded by the schema: without an address or a payment
      method the order insert fails and nothing more is written. */
  method Finish(db: Database, userId: UserId, req: OrderRequest, p: Prepared) returns (r: Result<OrderId, OrderError>)
    requires InCatalog(db.products, p.lines)
    modifies db`orders, db`nextOrderId, db`products, db`orderItems, db`cartItems
    ensures req.shippingAddress.None? || req.paymentMethod.None? ==> r == Err(ServerError) && unchanged(db)
    ensures req.shippingAddress.Some? && req.paymentMethod.Some? ==>
              && r == Ok(old(db.nextOrderId))
              && db.Contents() == Place(old(db.Contents()), NewOrder(userId, p.plan, req), p.lines, p.cartId)
  {
    if req.shippingAddress.None? || req.paymentMethod.None? {
      return Err(ServerError);
    }
    var orderId := PlaceOrder(db, NewOrder(userId, p.plan, req), p.lines, p.cartId);
    r := Ok(orderId);
  }

  /** createOrder for the signed-in user `userId`, at time `now`. */
  method CreateOrder(db: Database, userId: UserId, req: OrderRequest, now: Timestamp) returns (r: Result<OrderId, OrderError>)
    requires db.Valid() && userId in db.users
    modifies db
    ensures db.Valid()
    ensures (r, db.Contents()) == CreateOrderSpec(old(db.Contents()), userId, req, now)
  {
    ghost var t := db.Contents();
    var prepared := Prepare(db, userId, req, now);
    PreparedOutcome(t, userId, req, now, prepared, db.Contents());
    if prepared.Err? {
      return Err(prepared.error);
    }
    r := Finish(db, userId, req, prepared.value);
    CreateOrderKeepsValid(t, userId, req, now);
  }

  datatype AccessError = OrderNotFound | NotAuthorized

  /** Order rows of one order. */
  function ItemsOf(orderItems: seq<OrderItem>, orderId: OrderId): (r: seq<OrderItem>)
    ensures forall x :: x in r <==> x in orderItems && x.orderId == orderId
  {
    if orderItems == [] then []
    else (if orderItems[0].orderId == orderId then [orderItems[0]] else []) + ItemsOf(orderItems[1..], orderId)
  }

  /** getOrderById: a missing order is not found; only its owner or an admin may read it. */
  function GetOrderById(orders: map<OrderId, Order>, orderItems: seq<OrderItem>, orderId: OrderId,
                        caller: UserId, callerRole: Role): (r: Result<(Order, seq<OrderItem>), AccessError>)
    ensures r == Err(OrderNotFound) <==> orderId !in orders
    ensures r == Err(NotAuthorized) <==> orderId in orders && orders[orderId].userId != caller && callerRole != Admin
    ensures r.Ok? ==> r.value.0 == orders[orderId] && (orders[orderId].userId == caller || callerRole == Admin)
    ensures r.Ok? ==> forall x :: x in r.value.1 <==> x in orderItems && x.orderId == orderId
  {
    if orderId !in orders then Err(OrderNotFound)
    else if orders[orderId].userId != caller && callerRole != Admin then Err(NotAuthorized)
    else Ok((orders[orderId], ItemsOf(orderItems, orderId)))
  }
}
