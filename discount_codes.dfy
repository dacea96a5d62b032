/**
 * Discount codes: the schema of backend/src/models/DiscountCode.js and the
 * read-only guard chain (existence and active flag, expiry, usage limit) that
 * both validateDiscount and createOrder run.
 */
module DiscountCodes {
  import opened Wrappers

  /** Milliseconds since the epoch, as JavaScript `Date` values compare. */
  type Timestamp = int

  datatype DiscountCode = DiscountCode(
    code: string,
    percentage: int,
    expiry: Timestamp,
    isActive: bool,
    usageLimit: int,
    usedCount: int)

  /** `usageLimit` when the creator gives none. */
  const DefaultUsageLimit: int := 100

  /** The schema's range check on `discountPercentage`. */
  predicate WellFormed(d: DiscountCode) {
    1 <= d.percentage <= 100
  }

  /** The usage counter starts at 0 and only rises while it is below the limit,
      so it never exceeds the limit unless the limit was below 0 from the start. */
  predicate CounterInRange(d: DiscountCode) {
    0 <= d.usedCount && (d.usedCount <= d.usageLimit || d.usedCount == 0)
  }

  /** `DiscountCode.create({ code, discountPercentage, expiryDate, usageLimit })`:
      null checks and the percentage range, then the defaults (active, 0 uses,
      limit 100 when none is given).  `None` is the validation error. */
  function Create(code: Option<string>, percentage: Option<int>, expiry: Option<Timestamp>,
                  usageLimit: Option<int>): (r: Option<DiscountCode>)
    ensures r.Some? <==> code.Some? && percentage.Some? && 1 <= percentage.value <= 100 && expiry.Some?
    ensures r.Some? ==> WellFormed(r.value) && CounterInRange(r.value)
    ensures r.Some? ==> && r.value.code == code.value
                        && r.value.percentage == percentage.value
                        && r.value.expiry == expiry.value
                        && r.value.isActive && r.value.usedCount == 0
                        && r.value.usageLimit == (if usageLimit.Some? then usageLimit.value else DefaultUsageLimit)
  {
    if code.None? || percentage.None? || expiry.None? then None
    else if !(1 <= percentage.value <= 100) then None
    else
      var limit := match usageLimit case Some(l) => l case None => DefaultUsageLimit;
      Some(DiscountCode(code.value, percentage.value, expiry.value, true, limit, 0))
  }

  datatype CodeError = Invalid | Expired | LimitReached

  /** `findOne({ where: { code, isActive: true } })` on a table keyed by code. */
  function FindActive(codes: map<string, DiscountCode>, code: string): (r: Option<DiscountCode>)
    ensures r.Some? <==> code in codes && codes[code].isActive
    ensures r.Some? ==> r.value == codes[code]
  {
    if code in codes && codes[code].isActive then Some(codes[code]) else None
  }

  /** The guard chain: unknown or inactive, then `now > expiryDate`, then
      `usageLimit <= usedCount`.  Reads only. */
  function Check(codes: map<string, DiscountCode>, code: string, now: Timestamp): (r: Result<DiscountCode, CodeError>)
    ensures r == Err(Invalid) <==> !(code in codes && codes[code].isActive)
    ensures r == Err(Expired) <==> code in codes && codes[code].isActive && now > codes[code].expiry
    ensures r == Err(LimitReached) <==>
              && code in codes && codes[code].isActive && now <= codes[code].expiry
              && codes[code].usageLimit <= codes[code].usedCount
    ensures r.Ok? ==> r.value == codes[code]
  {
    match FindActive(codes, code)
    case None => Err(Invalid)
    case Some(d) =>
      if now > d.expiry then Err(Expired)
      else if d.usageLimit <= d.usedCount then Err(LimitReached)
      else Ok(d)
  }

  /** `code.usedCount += 1`. */
  function Consume(d: DiscountCode): (r: DiscountCode)
    ensures r.usedCount == d.usedCount + 1
    ensures r == d.(usedCount := r.usedCount)
  {
    d.(usedCount := d.usedCount + 1)
  }

  /** A code that passed the guard chain can be consumed without breaking the
      counter range: the count reaches the limit at most. */
  lemma ConsumeKeepsCounterInRange(codes: map<string, DiscountCode>, code: string, now: Timestamp)
    requires code in codes && CounterInRange(codes[code])
    requires Check(codes, code, now).Ok?
    ensures CounterInRange(Consume(codes[code]))
    ensures Consume(codes[code]).usedCount <= codes[code].usageLimit
  {
  }

  /** A freshly created code passes the guard chain until its expiry exactly
      when its limit is positive; at the expiry instant it still passes. */
  lemma FreshCodeChecks(code: string, percentage: int, expiry: Timestamp, usageLimit: Option<int>, now: Timestamp)
    requires 1 <= percentage <= 100
    requires now <= expiry
    ensures var d := Create(Some(code), Some(percentage), Some(expiry), usageLimit).value;
            Check(map[code := d], code, now).Ok? <==> d.usageLimit > 0
  {
  }
}
