/**
 * frontend/src/redux/slices/cartSlice.js: the cart state of the store, the
 * reducer that updates it, and what the thunks dispatch.  `fetchCart` loads
 * the cart that getCart returns; `addToCart`, `updateCartItem` and
 * `removeFromCart` send their request and, when it succeeds, start a
 * `fetchCart`.  The mutations' own actions reach no reducer case.
 */
module CartSlice {
  import opened Wrappers
  import opened Requests
  import Pricing
  import CartController

  datatype CartState = CartState(items: seq<CartController.PricedItem>, subtotal: real, loading: bool,
                                 error: Option<string>)

  const Initial: CartState := CartState([], 0.0, false, None)

  datatype CartAction =
    | ClearCart
    | FetchPending
    | FetchFulfilled(cart: CartController.CartView)
    | FetchRejected(payload: Option<string>)
    | MutationPending                                // addToCart, updateCartItem, removeFromCart
    | MutationFulfilled
    | MutationRejected(payload: Option<string>)

  /** The slice reducer. */
  function Reduce(s: CartState, a: CartAction): CartState {
    match a
    case ClearCart => s.(items := [], subtotal := 0.0)
    case FetchPending => s.(loading := true)
    case FetchFulfilled(cart) => s.(loading := false, items := cart.items, subtotal := cart.subtotal)
    case FetchRejected(payload) => s.(loading := false, error := payload)
    case MutationPending => s
    case MutationFulfilled => s
    case MutationRejected(_) => s
  }

  /** Actions dispatched one after another. */
  function ReduceAll(s: CartState, actions: seq<CartAction>): CartState
    decreases |actions|
  {
    if actions == [] then s else ReduceAll(Reduce(s, actions[0]), actions[1..])
  }

  /** Dispatching one action, then the rest. */
  lemma ReduceAllCons(s: CartState, a: CartAction, rest: seq<CartAction>)
    ensures ReduceAll(s, [a] + rest) == ReduceAll(Reduce(s, a), rest)
  {
    assert ([a] + rest)[0] == a && ([a] + rest)[1..] == rest;
  }

  lemma ReduceAllOne(s: CartState, a: CartAction)
    ensures ReduceAll(s, [a]) == Reduce(s, a)
  {
    ReduceAllCons(s, a, []);
    assert [a] + [] == [a];
  }

  /** The actions of one `fetchCart`: pending, then the settled action. */
  function FetchActions(reply: Result<CartController.CartView, Failure>): seq<CartAction> {
    [FetchPending] + [if reply.Ok? then FetchFulfilled(reply.value) else FetchRejected(RejectValue(reply.error, FetchFallback))]
  }

  const FetchFallback: string := "Failed to fetch cart"

  /** The actions of one mutation thunk.  On success the thunk dispatches
      `fetchCart` (whose pending action comes first) before it settles; the
      fetch settles after.  On failure no fetch is started. */
  function MutationActions(mutation: Result<(), Failure>, fallback: string,
                           fetch: Result<CartController.CartView, Failure>): seq<CartAction> {
    if mutation.Ok? then [MutationPending, FetchPending, MutationFulfilled] + FetchActions(fetch)[1..]
    else [MutationPending, MutationRejected(RejectValue(mutation.error, fallback))]
  }

  /** A fetch that succeeds shows exactly the fetched cart and ends loading; a
      failed one keeps the cart shown and records the payload.  A success never
      clears an earlier error. */
  lemma FetchOutcome(s: CartState, reply: Result<CartController.CartView, Failure>)
    ensures var s' := ReduceAll(s, FetchActions(reply));
            && !s'.loading
            && (reply.Ok? ==> s'.items == reply.value.items && s'.subtotal == reply.value.subtotal && s'.error == s.error)
            && (reply.Err? ==> && s'.items == s.items && s'.subtotal == s.subtotal
                               && s'.error == RejectValue(reply.error, FetchFallback))
  {
    var last := FetchActions(reply)[1];
    assert FetchActions(reply) == [FetchPending] + [last];
    ReduceAllCons(s, FetchPending, [last]);
    ReduceAllOne(Reduce(s, FetchPending), last);
  }

  /** A mutation that fails leaves the cart state as it was: its message
      reaches no reducer.  One that succeeds ends exactly as a fetch from the
      same state would. */
  lemma MutationOutcome(s: CartState, mutation: Result<(), Failure>, fallback: string,
                        fetch: Result<CartController.CartView, Failure>)
    ensures mutation.Err? ==> ReduceAll(s, MutationActions(mutation, fallback, fetch)) == s
    ensures mutation.Ok? ==> ReduceAll(s, MutationActions(mutation, fallback, fetch)) ==
                             ReduceAll(s, FetchActions(fetch))
  {
    var acts := MutationActions(mutation, fallback, fetch);
    var last := FetchActions(fetch)[1];
    if mutation.Ok? {
      assert acts == [MutationPending] + ([FetchPending] + ([MutationFulfilled] + [last]));
      ReduceAllCons(s, MutationPending, [FetchPending] + ([MutationFulfilled] + [last]));
      ReduceAllCons(s, FetchPending, [MutationFulfilled] + [last]);
      ReduceAllCons(Reduce(s, FetchPending), MutationFulfilled, [last]);
      ReduceAllOne(Reduce(s, FetchPending), last);
      assert FetchActions(fetch) == [FetchPending] + [last];
      ReduceAllCons(s, FetchPending, [last]);
    } else {
      var rejected := acts[1];
      assert acts == [MutationPending] + [rejected];
      ReduceAllCons(s, MutationPending, [rejected]);
      ReduceAllOne(s, rejected);
    }
  }

  /** clearCart empties the cart and touches neither `loading` nor `error`. */
  lemma ClearCartEmpties(s: CartState)
    ensures var s' := Reduce(s, ClearCart);
            s'.items == [] && s'.subtotal == 0.0 && s'.loading == s.loading && s'.error == s.error
            && Pricing.Subtotal(CartController.ItemLines(s'.items)) == s'.subtotal
  {
  }

  /** The shown subtotal is the sum over the shown items. */
  predicate ShowsTotals(s: CartState) {
    s.subtotal == Pricing.Subtotal(CartController.ItemLines(s.items))
  }

  /** Every action keeps the shown subtotal equal to the sum over the shown
      items, as long as the carts fetched are the ones getCart totals. */
  lemma {:induction false} ReduceKeepsTotals(s: CartState, actions: seq<CartAction>)
    requires ShowsTotals(s)
    requires forall i :: 0 <= i < |actions| && actions[i].FetchFulfilled? ==> CartController.Totalled(actions[i].cart)
    ensures ShowsTotals(ReduceAll(s, actions))
    decreases |actions|
  {
    if actions != [] {
      assert actions[0].FetchFulfilled? ==> CartController.Totalled(actions[0].cart);
      var rest := actions[1..];
      assert forall i :: 0 <= i < |rest| ==> rest[i] == actions[i + 1];
      ReduceKeepsTotals(Reduce(s, actions[0]), rest);
    }
  }

  /** The store's cart slice, updated in place by each dispatched action. */
  class CartStore {
    var items: seq<CartController.PricedItem>
    var subtotal: real
    var loading: bool
    var error: Option<string>

    function Contents(): CartState
      reads this
    {
      CartState(items, subtotal, loading, error)
    }

    /** `initialState`. */
    constructor ()
      ensures Contents() == Initial
    {
      items, subtotal, loading, error := [], 0.0, false, None;
    }

    /** One reducer case. */
    method Dispatch(a: CartAction)
      modifies this
      ensures Contents() == Reduce(old(Contents()), a)
    {
      match a
      case ClearCart =>
        items := [];
        subtotal := 0.0;
      case FetchPending =>
        loading := true;
      case FetchFulfilled(cart) =>
        loading := false;
        items := cart.items;
        subtotal := cart.subtotal;
      case FetchRejected(payload) =>
        loading := false;
        error := payload;
      case MutationPending =>
      case MutationFulfilled =>
      case MutationRejected(_) =>
    }

    /** Dispatching a sequence of actions in order. */
    method DispatchAll(actions: seq<CartAction>)
      modifies this
      ensures Contents() == ReduceAll(old(Contents()), actions)
    {
      var i := 0;
      while i < |actions|
        invariant 0 <= i <= |actions|
        invariant ReduceAll(old(Contents()), actions) == ReduceAll(Contents(), actions[i..])
      {
        assert actions[i..][1..] == actions[i + 1..];
        Dispatch(actions[i]);
        i := i + 1;
      }
      assert actions[|actions|..] == [];
    }
  }
}
