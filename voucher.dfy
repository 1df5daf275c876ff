/**
 * Vouchers (app/apps/voucher/schemas.py): a percentage discount with an
 * optional absolute cap, and the bounds pydantic checks when a voucher is
 * created.
 */
module Voucher {
  import opened Wrappers

  datatype VoucherStatus = Active | Inactive | Expired | Used

  datatype Voucher = Voucher(
    code: string,
    status: VoucherStatus,
    rate: real,              // percentage: 10 means 10%
    cap: Option<real>,       // largest discount, if any
    currency: string,
    expiredAt: Option<int>,
    maxUses: Option<int>,
    userId: Option<string>,
    limitedProducts: Option<seq<string>>,
    redeemed: int)

  const DefaultCurrency: string := "IRR"

  /**
   * The fields a caller may supply to `VoucherSchema`; `None` is an omitted
   * field.  The code is supplied too: its default is a random token.
   */
  datatype VoucherInput = VoucherInput(
    code: string,
    status: Option<VoucherStatus>,
    rate: Option<real>,
    cap: Option<real>,
    currency: Option<string>,
    expiredAt: Option<int>,
    maxUses: Option<int>,
    userId: Option<string>,
    limitedProducts: Option<seq<string>>,
    redeemed: Option<int>)

  /** The value of an optional field, or its default when omitted. */
  function OrElse<T>(o: Option<T>, default: T): T {
    if o.Some? then o.value else default
  }

  /**
   * Building a `VoucherSchema` from the fields a caller supplies.  Pydantic
   * checks the declared bounds only on supplied values, never on defaults, so
   * an omitted rate yields the default 0 although the bound says rate > 0.
   */
  function NewVoucher(inp: VoucherInput): (r: Result<Voucher>)
    ensures r.Ok? <==>
      && (inp.rate.Some? ==> 0.0 < inp.rate.value <= 100.0)
      && (inp.cap.Some? ==> inp.cap.value > 0.0)
      && (inp.maxUses.Some? ==> inp.maxUses.value >= 1)
      && (inp.redeemed.Some? ==> inp.redeemed.value >= 0)
    ensures r.Ok? ==>
      && r.value.code == inp.code
      && r.value.status == (if inp.status.Some? then inp.status.value else Active)
      && r.value.rate == (if inp.rate.Some? then inp.rate.value else 0.0)
      && r.value.cap == inp.cap && r.value.maxUses == inp.maxUses
      && r.value.currency == (if inp.currency.Some? then inp.currency.value else DefaultCurrency)
      && r.value.expiredAt == inp.expiredAt && r.value.userId == inp.userId
      && r.value.limitedProducts == inp.limitedProducts
      && r.value.redeemed >= 0
      && r.value.redeemed == (if inp.redeemed.Some? then inp.redeemed.value else 0)
  {
    if inp.rate.Some? && !(0.0 < inp.rate.value <= 100.0) then Err(ValueError("rate"))
    else if inp.cap.Some? && inp.cap.value <= 0.0 then Err(ValueError("cap"))
    else if inp.maxUses.Some? && inp.maxUses.value < 1 then Err(ValueError("max_uses"))
    else if inp.redeemed.Some? && inp.redeemed.value < 0 then Err(ValueError("redeemed"))
    else Ok(Voucher(inp.code, OrElse(inp.status, Active), OrElse(inp.rate, 0.0), inp.cap,
                    OrElse(inp.currency, DefaultCurrency), inp.expiredAt, inp.maxUses, inp.userId,
                    inp.limitedProducts, OrElse(inp.redeemed, 0)))
  }

  /** The declared bounds of a voucher that was created with a rate. */
  ghost predicate WithinBounds(v: Voucher) {
    && 0.0 < v.rate <= 100.0
    && (v.cap.Some? ==> v.cap.value > 0.0)
    && (v.maxUses.Some? ==> v.maxUses.value >= 1)
    && v.redeemed >= 0
  }

  /** `calculate_discount`: rate percent of the amount, no more than the cap. */
  function CalculateDiscount(v: Voucher, amount: real): (d: real)
    ensures d <= amount * v.rate / 100.0
    ensures v.cap.Some? ==> d <= v.cap.value
    ensures d == amount * v.rate / 100.0 || (v.cap.Some? && d == v.cap.value)
    ensures v.cap.None? ==> d == amount * v.rate / 100.0
  {
    var value := amount * v.rate / 100.0;
    if v.cap.None? then value
    else if value <= v.cap.value then value else v.cap.value
  }

  /**
   * For a non-negative amount and a voucher within its declared bounds, the
   * discount is between zero and the amount itself.
   */
  lemma DiscountWithinAmount(v: Voucher, amount: real)
    requires WithinBounds(v) && amount >= 0.0
    ensures 0.0 <= CalculateDiscount(v, amount) <= amount
  {
    var value := amount * v.rate / 100.0;
    assert amount * (100.0 - v.rate) >= 0.0 by {
      MulNonNegative(amount, 100.0 - v.rate);
    }
    assert amount * v.rate >= 0.0 by {
      MulNonNegative(amount, v.rate);
    }
    assert value <= amount;
  }

  lemma MulNonNegative(a: real, b: real)
    requires a >= 0.0 && b >= 0.0
    ensures a * b >= 0.0
  {
  }

  /** A voucher created without a rate takes the default rate 0 and discounts nothing. */
  lemma DefaultRateDiscountsNothing(inp: VoucherInput, amount: real)
    requires inp.rate.None? && NewVoucher(inp).Ok?
    ensures CalculateDiscount(NewVoucher(inp).value, amount) == 0.0
  {
  }
}
