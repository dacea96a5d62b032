/**
 * frontend/src/pages/CheckoutPage.jsx: the order form, the price preview it
 * shows beside the cart, and the two handlers that talk to the server.  The
 * cart's `subtotal` and the signed-in user's `referral_credits` come from the
 * store and are parameters here; `None` credits is a user object without the
 * field (or no user).  What `/discounts/validate` answers is a parameter too.
 */
module CheckoutPage {
  import opened Wrappers
  import Pricing
  import OrderController
  import DiscountCodes
  import DiscountController

  /** What the page makes of the validation request: the percentage of an
      accepted code, or any failure (an error status or no response). */
  datatype Validation = Accepted(percentage: int) | Refused

  /** The page's reading of validateDiscount's answer. */
  function ValidationOf(answer: Result<DiscountCodes.DiscountCode, DiscountController.DiscountError>): (v: Validation)
    ensures v.Accepted? <==> answer.Ok?
    ensures v.Accepted? ==> v.percentage == answer.value.percentage
  {
    if answer.Ok? then Accepted(answer.value.percentage) else Refused
  }

  /** The component state. */
  datatype Form = Form(shippingAddress: string, paymentMethod: string, discountCode: string,
                       useReferralCredits: bool, discountAmount: real, isProcessing: bool)

  const InitialForm: Form := Form("", "Credit Card", "", false, 0.0, false)

  /** handleApplyDiscount: an empty code sends no request; an accepted code
      sets the amount to its percentage of the subtotal; any failure resets
      the amount to 0. */
  function Applied(f: Form, subtotal: real, answer: Validation): (r: Form)
    ensures r == f.(discountAmount := r.discountAmount)
  {
    if f.discountCode == "" then f
    else
      match answer
      case Accepted(pct) => f.(discountAmount := Pricing.DiscountAmount(subtotal, pct))
      case Refused => f.(discountAmount := 0.0)
  }

  /** The three outcomes of applying a code, and the amount's bounds for a
      code whose percentage is in the schema's range. */
  lemma AppliedCases(f: Form, subtotal: real, answer: Validation)
    ensures f.discountCode == "" ==> Applied(f, subtotal, answer) == f
    ensures f.discountCode != "" && answer.Refused? ==> Applied(f, subtotal, answer).discountAmount == 0.0
    ensures f.discountCode != "" && answer.Accepted? ==>
              Applied(f, subtotal, answer).discountAmount == subtotal * answer.percentage as real / 100.0
    ensures f.discountCode != "" && answer.Accepted? && subtotal >= 0.0 && 1 <= answer.percentage <= 100 ==>
              0.0 <= Applied(f, subtotal, answer).discountAmount <= subtotal
  {
  }

  /** The credit `calculateTotal` subtracts: the user's credits when the box
      is ticked and they are truthy (present and not zero). */
  function Deducted(useReferralCredits: bool, credits: Option<real>): (r: real)
    ensures r != 0.0 ==> useReferralCredits && credits == Some(r)
    ensures useReferralCredits && credits.Some? ==> r == credits.value
  {
    if useReferralCredits && credits.Some? && credits.value != 0.0 then credits.value else 0.0
  }

  /** The "Referral Credits" line of the summary: shown when the box is ticked
      and the credits are positive; it shows the credits capped at what is
      left after the discount. */
  function CreditLine(f: Form, subtotal: real, credits: Option<real>): (r: Option<real>)
    ensures r.Some? <==> f.useReferralCredits && credits.Some? && credits.value > 0.0
    ensures r.Some? ==> r.value <= credits.value && r.value <= subtotal - f.discountAmount
    ensures r.Some? ==> r.value == credits.value || r.value == subtotal - f.discountAmount
  {
    if f.useReferralCredits && credits.Some? && credits.value > 0.0 then
      Some(if credits.value <= subtotal - f.discountAmount then credits.value else subtotal - f.discountAmount)
    else None
  }

  /** The order body: the code is sent only when a discount is shown. */
  function Body(f: Form): (r: OrderController.OrderRequest)
    ensures r.shippingAddress == Some(f.shippingAddress) && r.paymentMethod == Some(f.paymentMethod)
    ensures r.useReferralCredits == f.useReferralCredits
    ensures r.discountCode.Some? <==> f.discountAmount > 0.0
    ensures r.discountCode.Some? ==> r.discountCode.value == f.discountCode
  {
    OrderController.OrderRequest(Some(f.shippingAddress), Some(f.paymentMethod),
                                 if f.discountAmount > 0.0 then Some(f.discountCode) else None,
                                 f.useReferralCredits)
  }

  /** The preview agrees with the server on the discount: the code the page
      sends makes createOrder's discount step succeed with exactly the amount
      the page shows. */
  predicate Agrees(f: Form, codes: map<string, DiscountCodes.DiscountCode>, now: DiscountCodes.Timestamp,
                   subtotal: real) {
    var step := OrderController.DiscountStep(codes, Body(f).discountCode, now, subtotal);
    step.Ok? && step.value.0 == f.discountAmount
  }

  /** Every code in the table has its percentage in the schema's range. */
  predicate CodesWellFormed(codes: map<string, DiscountCodes.DiscountCode>) {
    forall k :: k in codes ==> DiscountCodes.WellFormed(codes[k])
  }

  /** Before anything is applied the page shows no discount and sends no code. */
  lemma InitialAgrees(codes: map<string, DiscountCodes.DiscountCode>, now: DiscountCodes.Timestamp, subtotal: real)
    ensures Agrees(InitialForm, codes, now, subtotal)
  {
  }

  /** Applying a non-empty code with the server's own answer, and placing the
      order at the same moment, brings the preview and the settlement into
      agreement, whatever the answer was. */
  lemma AppliedAgrees(f: Form, codes: map<string, DiscountCodes.DiscountCode>, now: DiscountCodes.Timestamp,
                      subtotal: real)
    requires subtotal >= 0.0 && CodesWellFormed(codes)
    requires f.discountCode != "" || Agrees(f, codes, now, subtotal)
    ensures Agrees(Applied(f, subtotal, ValidationOf(DiscountController.ValidateDiscount(codes, Some(f.discountCode), now))),
                   codes, now, subtotal)
  {
    if f.discountCode != "" {
      var answer := DiscountController.ValidateDiscount(codes, Some(f.discountCode), now);
      if answer.Ok? {
        assert DiscountCodes.WellFormed(codes[f.discountCode]);
        DiscountController.ValidationAgreesWithSettlement(codes, f.discountCode, now, subtotal);
      }
    }
  }

  /** `setDiscountCode` as written: typing in the code field keeps the amount
      shown for the code applied before. */
  function EditAsWritten(f: Form, code: string): Form {
    f.(discountCode := code)
  }

  /** A code of 10% applied to a subtotal of 100, then the field cleared: the
      page still shows 10 off, but sends the empty code, which createOrder
      treats as no code and charges the full 100. */
  lemma EditAsWrittenDisagrees()
    ensures var codes := map["SAVE10" := DiscountCodes.DiscountCode("SAVE10", 10, 1000, true, 100, 0)];
            var f := Applied(InitialForm.(discountCode := "SAVE10"), 100.0,
                             ValidationOf(DiscountController.ValidateDiscount(codes, Some("SAVE10"), 0)));
            && Agrees(f, codes, 0, 100.0)
            && f.discountAmount == 10.0
            && !Agrees(EditAsWritten(f, ""), codes, 0, 100.0)
  {
  }

  /** Editing the code field, corrected: a new code has not been validated,
      so the amount shown for the old one is dropped. */
  function Edit(f: Form, code: string): (r: Form)
    ensures r.discountCode == code && r.discountAmount == 0.0
  {
    f.(discountCode := code, discountAmount := 0.0)
  }

  /** What the user does in the discount box. */
  datatype CodeEvent = Type(code: string) | Apply

  /** The form after a sequence of edits and applications, each application
      answered by validateDiscount on the same table at the same moment. */
  function AfterEvents(f: Form, events: seq<CodeEvent>, codes: map<string, DiscountCodes.DiscountCode>,
                       now: DiscountCodes.Timestamp, subtotal: real): Form
    decreases |events|
  {
    if events == [] then f
    else
      var f' := match events[0]
                case Type(c) => Edit(f, c)
                case Apply => Applied(f, subtotal, ValidationOf(DiscountController.ValidateDiscount(codes, Some(f.discountCode), now)));
      AfterEvents(f', events[1..], codes, now, subtotal)
  }

  /** With the corrected edit, whatever the user types and applies, the order
      the page sends is settled with exactly the discount the page shows. */
  lemma {:induction false} EventsKeepAgreement(f: Form, events: seq<CodeEvent>,
                                               codes: map<string, DiscountCodes.DiscountCode>,
                                               now: DiscountCodes.Timestamp, subtotal: real)
    requires subtotal >= 0.0 && CodesWellFormed(codes)
    requires Agrees(f, codes, now, subtotal)
    ensures Agrees(AfterEvents(f, events, codes, now, subtotal), codes, now, subtotal)
    decreases |events|
  {
    if events != [] {
      match events[0]
      case Type(c) =>
        assert Agrees(Edit(f, c), codes, now, subtotal);
        EventsKeepAgreement(Edit(f, c), events[1..], codes, now, subtotal);
      case Apply =>
        AppliedAgrees(f, codes, now, subtotal);
        EventsKeepAgreement(Applied(f, subtotal, ValidationOf(DiscountController.ValidateDiscount(codes, Some(f.discountCode), now))),
                            events[1..], codes, now, subtotal);
    }
  }

  /** The preview total equals createOrder's total for the same discount and
      the same balance whenever the discount does not exceed the subtotal and
      the balance is not negative; the credit line then shows exactly the
      credit the server redeems. */
  lemma PreviewMatchesSettlement(f: Form, subtotal: real, credits: Option<real>)
    requires 0.0 <= f.discountAmount <= subtotal
    requires credits.Some? ==> credits.value >= 0.0
    ensures var balance := if credits.Some? then credits.value else 0.0;
            var server := OrderController.CreditsStep(f.useReferralCredits, balance, subtotal - f.discountAmount);
            && Pricing.OrderTotal(subtotal, f.discountAmount, Deducted(f.useReferralCredits, credits)) ==
               Pricing.OrderTotal(subtotal, f.discountAmount, server)
            && (CreditLine(f, subtotal, credits).Some? ==> CreditLine(f, subtotal, credits).value == server)
            && (CreditLine(f, subtotal, credits).None? ==> server == 0.0)
  {
  }

  /** The checkout component, whose state the handlers set in place. */
  class Checkout {
    var shippingAddress: string
    var paymentMethod: string
    var discountCode: string
    var useReferralCredits: bool
    var discountAmount: real
    var isProcessing: bool

    function Contents(): Form
      reads this
    {
      Form(shippingAddress, paymentMethod, discountCode, useReferralCredits, discountAmount, isProcessing)
    }

    /** The `useState` initial values. */
    constructor ()
      ensures Contents() == InitialForm
    {
      shippingAddress, paymentMethod, discountCode := "", "Credit Card", "";
      useReferralCredits, discountAmount, isProcessing := false, 0.0, false;
    }

    /** Typing in the code field (corrected: the old amount is dropped). */
    method SetDiscountCode(code: string)
      modifies this`discountCode, this`discountAmount
      ensures Contents() == Edit(old(Contents()), code)
    {
      discountCode := code;
      discountAmount := 0.0;
    }

    /** handleApplyDiscount with the server's answer. */
    method ApplyDiscount(subtotal: real, answer: Validation)
      modifies this`discountAmount
      ensures Contents() == Applied(old(Contents()), subtotal, answer)
    {
      if discountCode == "" {
        return;
      }
      match answer
      case Accepted(pct) =>
        discountAmount := subtotal * pct as real / 100.0;
      case Refused =>
        discountAmount := 0.0;
    }

    /** calculateTotal: the subtotal less the discount, less the credits when
        asked for and truthy, floored at 0.  It is createOrder's formula. */
    method CalculateTotal(subtotal: real, credits: Option<real>) returns (total: real)
      ensures total >= 0.0
      ensures total == Pricing.OrderTotal(subtotal, discountAmount, Deducted(useReferralCredits, credits))
    {
      total := subtotal - discountAmount;
      if useReferralCredits && credits.Some? && credits.value != 0.0 {
        total := total - credits.value;
      }
      if total <= 0.0 {
        total := 0.0;
      }
    }

    /** handlePlaceOrder.  Without a shipping address nothing is sent and
        nothing changes.  Otherwise the body is posted while `isProcessing` is
        set, and `finally` clears it; a placed order (`placed`, the server's
        answer) re-fetches the cart. */
    method PlaceOrder(placed: bool) returns (sent: Option<OrderController.OrderRequest>, refetch: bool)
      modifies this`isProcessing
      ensures shippingAddress == "" ==> sent.None? && !refetch && isProcessing == old(isProcessing)
      ensures shippingAddress != "" ==> sent == Some(Body(Contents())) && refetch == placed && !isProcessing
    {
      if shippingAddress == "" {
        return None, false;
      }
      isProcessing := true;
      sent := Some(Body(Contents()));
      refetch := placed;
      isProcessing := false;
    }
  }
}
