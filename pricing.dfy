/**
 * The pricing formula shared by the order settlement (createOrder), the cart
 * read (getCart) and the checkout preview: subtotal, then the percentage
 * discount, then the referral credit, then a floor at zero.  Amounts are exact
 * reals.
 */
module Pricing {

  /** A priced cart line: unit price and quantity. */
  datatype Line = Line(price: real, quantity: int)

  /** `price * quantity` of one line. */
  function LineTotal(l: Line): real {
    l.price * l.quantity as real
  }

  /** No negative unit price and no negative quantity. */
  predicate NonNegative(lines: seq<Line>) {
    forall i :: 0 <= i < |lines| ==> lines[i].price >= 0.0 && lines[i].quantity >= 0
  }

  /** Sum of the line totals, accumulated from the first line to the last. */
  function Subtotal(lines: seq<Line>): (r: real)
    ensures NonNegative(lines) ==> r >= 0.0
  {
    if lines == [] then 0.0 else Subtotal(lines[..|lines| - 1]) + LineTotal(lines[|lines| - 1])
  }

  lemma {:induction false} SubtotalAppend(a: seq<Line>, b: seq<Line>)
    ensures Subtotal(a + b) == Subtotal(a) + Subtotal(b)
    decreases |b|
  {
    if b == [] {
      assert a + b == a;
    } else {
      var b' := b[..|b| - 1];
      assert (a + b)[..|a + b| - 1] == a + b';
      SubtotalAppend(a, b');
    }
  }

  /** The subtotal splits off its first line. */
  lemma SubtotalFirst(lines: seq<Line>)
    requires lines != []
    ensures Subtotal(lines) == LineTotal(lines[0]) + Subtotal(lines[1..])
  {
    SubtotalAppend([lines[0]], lines[1..]);
    assert [lines[0]] + lines[1..] == lines;
  }

  /** `subtotal * percentage / 100`. */
  function DiscountAmount(subtotal: real, percentage: int): (r: real)
    ensures subtotal >= 0.0 && 0 <= percentage <= 100 ==> 0.0 <= r <= subtotal
    ensures percentage == 100 ==> r == subtotal
  {
    subtotal * percentage as real / 100.0
  }

  /** The credit redeemed against what is left after the discount: the whole
      balance when it does not cover the rest, otherwise exactly the rest. */
  function CreditsApplied(balance: real, remaining: real): (r: real)
    ensures r <= balance && r <= remaining
    ensures r == balance || r == remaining
  {
    if balance >= remaining then remaining else balance
  }

  /** `finalTotal >= 0 ? finalTotal : 0` with `finalTotal = subtotal - discount - credits`. */
  function OrderTotal(subtotal: real, discount: real, credits: real): (r: real)
    ensures r >= 0.0
    ensures r >= subtotal - discount - credits
    ensures r == subtotal - discount - credits || r == 0.0
  {
    var t := subtotal - discount - credits;
    if t >= 0.0 then t else 0.0
  }

  /** Redeeming credit never overdraws a non-negative balance, never exceeds what
      is left to pay, and the order total is then exactly the rest of the price:
      the floor at zero is never needed. */
  lemma CreditRedemptionBounded(subtotal: real, discount: real, balance: real)
    requires balance > 0.0 && discount <= subtotal
    ensures var c := CreditsApplied(balance, subtotal - discount);
            && 0.0 <= c <= balance
            && balance - c >= 0.0
            && OrderTotal(subtotal, discount, c) == subtotal - discount - c
            && (OrderTotal(subtotal, discount, c) == 0.0 <==> balance >= subtotal - discount)
  {
  }

  /** Two worked examples of the credit rule: balance 30 against 100 to pay, and
      balance 150 against 100 to pay. */
  lemma CreditExamples()
    ensures CreditsApplied(30.0, 100.0) == 30.0 && OrderTotal(100.0, 0.0, 30.0) == 70.0
    ensures CreditsApplied(150.0, 100.0) == 100.0 && OrderTotal(100.0, 0.0, 100.0) == 0.0
    ensures 150.0 - CreditsApplied(150.0, 100.0) == 50.0
  {
  }

  /** Two lines at 10.00 x 2 and 5.00 x 1 with a 20% code: subtotal 25, discount 5, total 20. */
  lemma DiscountExample()
    ensures Subtotal([Line(10.0, 2), Line(5.0, 1)]) == 25.0
    ensures DiscountAmount(25.0, 20) == 5.0
    ensures OrderTotal(25.0, 5.0, 0.0) == 20.0
  {
    assert [Line(10.0, 2), Line(5.0, 1)][..1] == [Line(10.0, 2)];
    assert [Line(10.0, 2)][..0] == [];
  }
}
