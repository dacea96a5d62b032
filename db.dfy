/**
 * The relational store the controllers read and write: one table per model,
 * kept as maps keyed by primary key (rows looked up with `findByPk`) or, for
 * the tables whose row order the controllers observe, as sequences in id
 * order.  `Valid` collects the schema constraints (unique columns, CartItem's
 * `quantity >= 1`, foreign keys, auto-increment ids) and the invariants the
 * controllers keep (one cart per user, one line per product in a cart,
 * non-negative credit balances, discount counters in range).
 */
module Db {
  import opened Wrappers
  import opened DiscountCodes
  import opened UserModel
  import Pricing

  type UserId = nat
  type ProductId = nat
  type CategoryId = nat
  type CartId = nat
  type ItemId = nat
  type OrderId = nat

  datatype Product = Product(name: string, description: string, price: real, stock: int, categoryId: Option<CategoryId>)

  /** A CartItems row. */
  datatype CartItem = CartItem(id: ItemId, cartId: CartId, productId: ProductId, quantity: int)

  datatype OrderStatus = Pending | Processing | Shipped | Delivered | Cancelled

  datatype Order = Order(userId: UserId, totalAmount: real, shippingAddress: string, paymentMethod: string, status: OrderStatus)

  /** An OrderItems row: the unit price is the one read at settlement. */
  datatype OrderItem = OrderItem(orderId: OrderId, productId: ProductId, quantity: int, price: real)

  datatype ReferralStatus = ReferralPending | ReferralCompleted

  datatype Referral = Referral(referrerId: UserId, referredUserId: UserId, status: ReferralStatus)

  /** `email` and `referral_code` are unique columns. */
  predicate UniqueUserColumns(users: map<UserId, User>) {
    forall a, b :: a in users && b in users && a != b ==>
      users[a].email != users[b].email && users[a].referralCode != users[b].referralCode
  }

  predicate CreditsNonNegative(users: map<UserId, User>) {
    forall u :: u in users ==> users[u].credits >= 0.0
  }

  /** The discount table is keyed by its unique `code` column. */
  predicate CodesConsistent(codes: map<string, DiscountCode>) {
    forall c :: c in codes ==> codes[c].code == c && WellFormed(codes[c]) && CounterInRange(codes[c])
  }

  predicate OneCartPerUser(carts: map<CartId, UserId>) {
    forall a, b :: a in carts && b in carts && carts[a] == carts[b] ==> a == b
  }

  /** Row ids strictly increase along the table. */
  predicate IdsAscending(items: seq<CartItem>) {
    forall i, j :: 0 <= i < j < |items| ==> items[i].id < items[j].id
  }

  /** CartItems rows in increasing id order, each in an existing cart with
      `quantity >= 1`, and at most one row per (cart, product). */
  predicate ValidLines(items: seq<CartItem>, carts: map<CartId, UserId>, nextItemId: nat) {
    && (forall i :: 0 <= i < |items| ==> items[i].quantity >= 1 && items[i].cartId in carts && items[i].id < nextItemId)
    && IdsAscending(items)
    && OneLinePerProduct(items)
  }

  /** No two rows share a (cart, product) pair. */
  predicate OneLinePerProduct(items: seq<CartItem>) {
    forall i, j :: 0 <= i < j < |items| ==> items[i].cartId != items[j].cartId || items[i].productId != items[j].productId
  }

  /** At most one inbound referral per user, between two existing users. */
  predicate ValidReferrals(refs: seq<Referral>, users: map<UserId, User>) {
    && (forall i :: 0 <= i < |refs| ==> refs[i].referrerId in users && refs[i].referredUserId in users)
    && (forall i, j :: 0 <= i < j < |refs| ==> refs[i].referredUserId != refs[j].referredUserId)
  }

  predicate ValidOrderItems(orderItems: seq<OrderItem>, orders: map<OrderId, Order>) {
    forall i :: 0 <= i < |orderItems| ==> orderItems[i].orderId in orders
  }

  /** The contents of every table and id counter at one moment. */
  datatype Tables = Tables(
    products: map<ProductId, Product>,
    discounts: map<string, DiscountCode>,
    users: map<UserId, User>,
    carts: map<CartId, UserId>,
    cartItems: seq<CartItem>,
    orders: map<OrderId, Order>,
    orderItems: seq<OrderItem>,
    referrals: seq<Referral>,
    nextUserId: nat,
    nextCartId: nat,
    nextItemId: nat,
    nextOrderId: nat)

  /** The schema constraints and the invariants the controllers keep. */
  predicate ValidTables(t: Tables) {
    && (forall u :: u in t.users ==> u < t.nextUserId)
    && UniqueUserColumns(t.users) && CreditsNonNegative(t.users)
    && CodesConsistent(t.discounts)
    && (forall c :: c in t.carts ==> c < t.nextCartId && t.carts[c] in t.users)
    && OneCartPerUser(t.carts)
    && ValidLines(t.cartItems, t.carts, t.nextItemId)
    && (forall o :: o in t.orders ==> o < t.nextOrderId && t.orders[o].userId in t.users)
    && ValidOrderItems(t.orderItems, t.orders)
    && ValidReferrals(t.referrals, t.users)
  }

  /** The empty store. */
  const Empty: Tables := Tables(map[], map[], map[], map[], [], map[], [], [], 0, 0, 0, 0)

  class Database {
    var products: map<ProductId, Product>
    var discounts: map<string, DiscountCode>
    var users: map<UserId, User>
    var carts: map<CartId, UserId>
    var cartItems: seq<CartItem>
    var orders: map<OrderId, Order>
    var orderItems: seq<OrderItem>
    var referrals: seq<Referral>
    var nextUserId: nat
    var nextCartId: nat
    var nextItemId: nat
    var nextOrderId: nat

    function Contents(): Tables
      reads this
    {
      Tables(products, discounts, users, carts, cartItems, orders, orderItems, referrals,
             nextUserId, nextCartId, nextItemId, nextOrderId)
    }

    ghost predicate Valid()
      reads this
    {
      ValidTables(Contents())
    }

    /** An empty database. */
    constructor ()
      ensures Valid()
      ensures Contents() == Empty
    {
      products, discounts, users, carts := map[], map[], map[], map[];
      cartItems, orders, orderItems, referrals := [], map[], [], [];
      nextUserId, nextCartId, nextItemId, nextOrderId := 0, 0, 0, 0;
    }
  }

  /** `Cart.findOne({ where: { userId } })`. */
  function CartOf(carts: map<CartId, UserId>, userId: UserId): (r: Option<CartId>)
    requires OneCartPerUser(carts)
    ensures r.None? <==> forall c :: c in carts ==> carts[c] != userId
    ensures r.Some? ==> r.value in carts && carts[r.value] == userId
  {
    if exists c :: c in carts && carts[c] == userId then
      var c :| c in carts && carts[c] == userId; Some(c)
    else None
  }

  /** The rows whose cart is (`keep`) or is not (`!keep`) the given one, in table order. */
  function Filter(items: seq<CartItem>, cartId: CartId, keep: bool): (r: seq<CartItem>)
    ensures forall x :: x in r <==> x in items && (x.cartId == cartId) == keep
    ensures |r| <= |items|
  {
    if items == [] then []
    else (if (items[0].cartId == cartId) == keep then [items[0]] else []) + Filter(items[1..], cartId, keep)
  }

  /** The rows of one cart, in table order (`include: [CartItem]`). */
  function LinesOf(items: seq<CartItem>, cartId: CartId): (r: seq<CartItem>)
    ensures forall x :: x in r <==> x in items && x.cartId == cartId
  {
    Filter(items, cartId, true)
  }

  /** The lines of a user's cart; none when the user has no cart. */
  function CartLines(carts: map<CartId, UserId>, items: seq<CartItem>, userId: UserId): seq<CartItem>
    requires OneCartPerUser(carts)
  {
    match CartOf(carts, userId)
    case None => []
    case Some(c) => LinesOf(items, c)
  }

  /** `CartItem.destroy({ where: { cartId } })`. */
  function WithoutCart(items: seq<CartItem>, cartId: CartId): (r: seq<CartItem>)
    ensures forall x :: x in r <==> x in items && x.cartId != cartId
  {
    Filter(items, cartId, false)
  }

  /** Clearing a cart leaves it with no lines and keeps every other cart's lines. */
  lemma {:induction false} ClearedCartIsEmpty(items: seq<CartItem>, cartId: CartId, other: CartId)
    ensures LinesOf(WithoutCart(items, cartId), cartId) == []
    ensures other != cartId ==> LinesOf(WithoutCart(items, cartId), other) == LinesOf(items, other)
  {
    if items != [] {
      ClearedCartIsEmpty(items[1..], cartId, other);
      var rest := WithoutCart(items[1..], cartId);
      if items[0].cartId != cartId {
        assert WithoutCart(items, cartId) == [items[0]] + rest;
        assert ([items[0]] + rest)[1..] == rest;
      } else {
        assert WithoutCart(items, cartId) == rest;
      }
    }
  }

  /** In an ascending table the first row's id is below every later row's. */
  lemma HeadBelowTail(items: seq<CartItem>)
    requires IdsAscending(items) && items != []
    ensures IdsAscending(items[1..])
    ensures forall x :: x in items[1..] ==> items[0].id < x.id
  {
    var tail := items[1..];
    forall i, j | 0 <= i < j < |tail| ensures tail[i].id < tail[j].id {
      assert tail[i] == items[i + 1] && tail[j] == items[j + 1];
    }
    forall x | x in tail ensures items[0].id < x.id {
      var k :| 0 <= k < |tail| && tail[k] == x;
      assert x == items[k + 1];
    }
  }

  /** A row below every row of an ascending table can go in front of it. */
  lemma ConsAscending(x: CartItem, rest: seq<CartItem>)
    requires IdsAscending(rest) && forall y :: y in rest ==> x.id < y.id
    ensures IdsAscending([x] + rest)
  {
    var r := [x] + rest;
    forall i, j | 0 <= i < j < |r| ensures r[i].id < r[j].id {
      assert r[j] == rest[j - 1];
      if i == 0 {
        assert rest[j - 1] in rest;
      } else {
        assert r[i] == rest[i - 1];
      }
    }
  }

  lemma {:induction false} FilterAscending(items: seq<CartItem>, cartId: CartId, keep: bool)
    requires IdsAscending(items)
    ensures IdsAscending(Filter(items, cartId, keep))
  {
    if items != [] {
      HeadBelowTail(items);
      FilterAscending(items[1..], cartId, keep);
      var rest := Filter(items[1..], cartId, keep);
      if (items[0].cartId == cartId) == keep {
        ConsAscending(items[0], rest);
      }
    }
  }

  /** Clearing a cart keeps the row constraints. */
  lemma WithoutCartValid(items: seq<CartItem>, cartId: CartId, carts: map<CartId, UserId>, next: nat)
    requires ValidLines(items, carts, next)
    ensures ValidLines(WithoutCart(items, cartId), carts, next)
  {
    FilterAscending(items, cartId, false);
  }

  /** The lines of one cart name distinct products. */
  lemma LinesOfDistinctProducts(items: seq<CartItem>, cartId: CartId, carts: map<CartId, UserId>, next: nat)
    requires ValidLines(items, carts, next)
    ensures var ls := LinesOf(items, cartId);
            forall i, j :: 0 <= i < j < |ls| ==> ls[i].productId != ls[j].productId
  {
    FilterAscending(items, cartId, true);
    var ls := LinesOf(items, cartId);
    forall i, j | 0 <= i < j < |ls| ensures ls[i].productId != ls[j].productId {
      assert ls[i] in ls && ls[j] in ls;
      assert ls[i].id < ls[j].id;
    }
  }

  /** Every line names an existing product row. */
  predicate InCatalog(products: map<ProductId, Product>, lines: seq<CartItem>) {
    forall i :: 0 <= i < |lines| ==> lines[i].productId in products
  }

  lemma InCatalogPrefix(products: map<ProductId, Product>, lines: seq<CartItem>, k: nat)
    requires InCatalog(products, lines) && k <= |lines|
    ensures InCatalog(products, lines[..k])
  {
    var pre := lines[..k];
    forall j | 0 <= j < |pre| ensures pre[j].productId in products {
      assert pre[j] == lines[j];
    }
  }

  /** The lines priced at the product rows read with the cart. */
  function Priced(products: map<ProductId, Product>, lines: seq<CartItem>): (r: seq<Pricing.Line>)
    requires InCatalog(products, lines)
    ensures |r| == |lines|
    ensures forall i :: 0 <= i < |lines| ==> r[i] == Pricing.Line(products[lines[i].productId].price, lines[i].quantity)
  {
    seq(|lines|, i requires 0 <= i < |lines| => Pricing.Line(products[lines[i].productId].price, lines[i].quantity))
  }

  /** `User.findOne({ where: { email } })`. */
  function UserByEmail(users: map<UserId, User>, email: string): (r: Option<UserId>)
    requires UniqueUserColumns(users)
    ensures r.None? <==> forall u :: u in users ==> users[u].email != email
    ensures r.Some? ==> r.value in users && users[r.value].email == email
  {
    if exists u :: u in users && users[u].email == email then
      var u :| u in users && users[u].email == email; Some(u)
    else None
  }

  /** `User.findOne({ where: { referral_code } })`. */
  function UserByReferralCode(users: map<UserId, User>, code: string): (r: Option<UserId>)
    requires UniqueUserColumns(users)
    ensures r.None? <==> forall u :: u in users ==> users[u].referralCode != code
    ensures r.Some? ==> r.value in users && users[r.value].referralCode == code
  {
    if exists u :: u in users && users[u].referralCode == code then
      var u :| u in users && users[u].referralCode == code; Some(u)
    else None
  }
}
