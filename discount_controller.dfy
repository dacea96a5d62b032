/**
 * backend/src/controllers/discountController.js: the read-only validation of
 * a code that the checkout page calls before placing an order, and the admin
 * operation that creates a code.
 */
module DiscountController {
  import opened Wrappers
  import opened DiscountCodes
  import opened Db
  import OrderController
  import Pricing

  datatype DiscountError =
    | InvalidCode          // 404
    | CodeExpired          // 400
    | UsageLimitReached    // 400
    | ServerError          // an exception caught by the handler (status 500)

  /** validateDiscount.  A request without a `code` field makes the ORM refuse
      the `where` clause, which is a server error; otherwise the guard chain
      decides, and a code that passes is returned as stored. */
  function ValidateDiscount(codes: map<string, DiscountCode>, code: Option<string>, now: Timestamp)
    : (r: Result<DiscountCode, DiscountError>)
    ensures code.None? ==> r == Err(ServerError)
    ensures code.Some? ==> (r == Err(InvalidCode) <==> !(code.value in codes && codes[code.value].isActive))
    ensures code.Some? ==>
              (r == Err(CodeExpired) <==>
               code.value in codes && codes[code.value].isActive && now > codes[code.value].expiry)
    ensures code.Some? ==>
              (r == Err(UsageLimitReached) <==>
               && code.value in codes && codes[code.value].isActive && now <= codes[code.value].expiry
               && codes[code.value].usageLimit <= codes[code.value].usedCount)
    ensures r.Ok? ==> code.Some? && code.value in codes && r.value == codes[code.value]
  {
    match code
    case None => Err(ServerError)
    case Some(c) =>
      match Check(codes, c, now)
      case Err(Invalid) => Err(InvalidCode)
      case Err(Expired) => Err(CodeExpired)
      case Err(LimitReached) => Err(UsageLimitReached)
      case Ok(d) => Ok(d)
  }

  /** A code the checkout page validates is a code the order settlement accepts
      at the same moment, and the other way round; the settlement's discount is
      then the validated code's percentage of the subtotal. */
  lemma ValidationAgreesWithSettlement(codes: map<string, DiscountCode>, code: string, now: Timestamp, subtotal: real)
    requires code != ""
    ensures ValidateDiscount(codes, Some(code), now).Ok? <==>
            OrderController.DiscountStep(codes, Some(code), now, subtotal).Ok?
    ensures ValidateDiscount(codes, Some(code), now).Ok? ==>
              OrderController.DiscountStep(codes, Some(code), now, subtotal).value ==
              (Pricing.DiscountAmount(subtotal, ValidateDiscount(codes, Some(code), now).value.percentage), Some(code))
  {
  }

  /** createDiscount: `DiscountCode.create` with the four body fields.  A
      missing field, a percentage outside 1..100 or a code already in the table
      is an ORM error (status 500) and stores nothing; otherwise exactly the
      given fields are stored, with the defaults for the rest. */
  method CreateDiscount(db: Database, code: Option<string>, percentage: Option<int>, expiry: Option<Timestamp>,
                        usageLimit: Option<int>) returns (r: Result<DiscountCode, DiscountError>)
    requires db.Valid()
    modifies db`discounts
    ensures db.Valid()
    ensures r.Ok? <==> Create(code, percentage, expiry, usageLimit).Some? && code.value !in old(db.discounts)
    ensures r.Ok? ==> && r.value == Create(code, percentage, expiry, usageLimit).value
                      && db.discounts == old(db.discounts)[code.value := r.value]
    ensures r.Err? ==> r == Err(ServerError) && db.discounts == old(db.discounts)
  {
    var created := Create(code, percentage, expiry, usageLimit);
    if created.None? {
      return Err(ServerError);
    }
    if code.value in db.discounts {
      return Err(ServerError);
    }
    db.discounts := db.discounts[code.value := created.value];
    r := Ok(created.value);
  }

  /** After a code is created, validating it succeeds until its expiry exactly
      when its limit is positive, and every other code validates as before. */
  lemma CreatedCodeValidates(codes: map<string, DiscountCode>, code: string, percentage: int, expiry: Timestamp,
                             usageLimit: Option<int>, now: Timestamp, other: string)
    requires code !in codes && 1 <= percentage <= 100
    ensures var d := Create(Some(code), Some(percentage), Some(expiry), usageLimit).value;
            && (ValidateDiscount(codes[code := d], Some(code), now).Ok? <==> now <= expiry && d.usageLimit > 0)
            && (other != code ==>
                  ValidateDiscount(codes[code := d], Some(other), now) == ValidateDiscount(codes, Some(other), now))
  {
  }
}
