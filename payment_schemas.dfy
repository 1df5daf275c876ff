/**
 * The payment and purchase schemas (app/apps/payment/schemas.py and
 * app/apps/purchase/schemas.py).  The two files are copies with the nouns
 * swapped, so one model serves both; `Kind` records which one is meant where
 * the strings differ.
 */
module PaymentSchemas {
  import opened Wrappers
  import opened Ipg
  import opened TextTools

  /** Which of the two copies: they differ only in the noun used in URLs and messages. */
  datatype Kind = PaymentKind | PurchaseKind {
    function Noun(): string {
      match this
      case PaymentKind => "payment"
      case PurchaseKind => "purchase"
    }

    function Title(): string {
      match this
      case PaymentKind => "Payment"
      case PurchaseKind => "Purchase"
    }
  }

  /** `duration: int = 60 * 60`, in seconds. */
  const DefaultDuration: int := 3600

  /** The creation currency default, `Currency.IRR`. */
  const DefaultCurrency: string := "IRR"

  /**
   * `is_overdue`, with the clock reading `now` and the creation time in
   * seconds: overdue strictly after `created_at + duration`.
   */
  function IsOverdue(createdAt: int, duration: int, now: int): (r: bool)
    ensures r <==> now - createdAt > duration
  {
    createdAt + duration < now
  }

  /** Once overdue, a payment stays overdue as the clock moves on. */
  lemma OverdueStaysOverdue(createdAt: int, duration: int, now: int, later: int)
    requires IsOverdue(createdAt, duration, now) && now <= later
    ensures IsOverdue(createdAt, duration, later)
    ensures !IsOverdue(createdAt, duration, createdAt + duration)
  {
  }

  /** The fields of `PaymentCreateSchema` / `PurchaseCreateSchema`. */
  datatype CreateRequest = CreateRequest(
    userId: string,
    walletId: string,
    basketId: Option<string>,
    amount: real,
    currency: string,
    description: string,
    callbackUrl: string,
    availableIpgs: Option<seq<string>>,
    acceptWallet: bool,
    voucherCode: Option<string>)

  /**
   * The create-time validators: the `callback_url` field validator runs with
   * the field validation, before the `user_id`/`wallet_id` model validator.
   */
  function ValidateCreate(req: CreateRequest): (r: Result<CreateRequest>)
    ensures r.Ok? <==> IsValidUrl(req.callbackUrl) && (req.userId != "" || req.walletId != "")
    ensures r.Ok? ==> r.value == req
    ensures !IsValidUrl(req.callbackUrl) ==> r == Err(ValueError("Invalid URL " + req.callbackUrl))
    ensures IsValidUrl(req.callbackUrl) && req.userId == "" && req.walletId == "" ==>
      r == Err(ValueError("user_id or wallet_id should be set"))
  {
    if !IsValidUrl(req.callbackUrl) then Err(ValueError("Invalid URL " + req.callbackUrl))
    else if req.userId == "" && req.walletId == "" then Err(ValueError("user_id or wallet_id should be set"))
    else Ok(req)
  }

  /** A callback URL with a query string never passes creation. */
  lemma CallbackWithQueryRejected(req: CreateRequest, i: nat)
    requires i < |req.callbackUrl| && req.callbackUrl[i] == '?'
    ensures ValidateCreate(req).Err?
  {
  }

  /**
   * `validate_null_original_amount`: a zero (falsy) original amount is
   * replaced by the amount; any other is kept.
   */
  function NormalizedOriginalAmount(originalAmount: real, amount: real): (r: real)
    ensures r != 0.0 || amount == 0.0
    ensures originalAmount != 0.0 ==> r == originalAmount
    ensures originalAmount == 0.0 ==> r == amount
  {
    if originalAmount == 0.0 then amount else originalAmount
  }

  /** Validating twice changes nothing more. */
  lemma NormalizedOriginalAmountIdempotent(originalAmount: real, amount: real)
    ensures NormalizedOriginalAmount(NormalizedOriginalAmount(originalAmount, amount), amount) ==
      NormalizedOriginalAmount(originalAmount, amount)
  {
  }

  /** What the `status` field can hold when serialised: the enum, or a plain string. */
  datatype StatusField = Member(status: PaymentStatus) | Text(text: string)

  /** `serialize_status`: the enum's value, or the string itself. */
  function SerializeStatus(f: StatusField): (r: string)
    ensures f.Member? ==> ParseStatus(r) == Some(f.status)
    ensures f.Text? ==> r == f.text
  {
    match f
    case Member(s) =>
      ParseStatusValue(s);
      s.Value()
    case Text(t) => t
  }
}
