/**
 * Basket line items and the basket's schema-level rules
 * (app/apps/basket/schemas.py): line price, currency check, the change
 * request validator, the status enumeration and the product validation
 * decision.
 */
module BasketSchemas {
  import opened Wrappers
  import opened PyDict

  datatype Discount = Discount(code: string, userId: string, discount: real)

  datatype ItemType = SaasPackage | RetailProduct

  /**
   * `BasketItemSchema`.  Free-form JSON fields (`bundles`, `variant`,
   * `meta_data`) are kept as string-to-string maps.
   */
  datatype BasketItem = BasketItem(
    uid: string,
    productUrl: string,
    currency: string,
    quantity: real,
    name: string,
    description: Option<string>,
    unitPrice: real,
    itemType: ItemType,
    webhookUrl: Option<string>,
    reserveUrl: Option<string>,
    validationUrl: Option<string>,
    revenueShareId: Option<string>,
    taxId: Option<string>,
    merchant: Option<string>,
    discount: Option<Discount>,
    planDuration: Option<int>,
    bundles: Option<seq<map<string, string>>>,
    variant: Option<map<string, string>>,
    metaData: Option<map<string, string>>)

  /**
   * Two items describe the same product line when their dumps without `uid`
   * and `quantity` are equal.
   */
  predicate SameLine(a: BasketItem, b: BasketItem) {
    a.(uid := "", quantity := 0.0) == b.(uid := "", quantity := 0.0)
  }

  /** `BasketItemSchema.price`: unit price times quantity, less the item discount. */
  function Price(item: BasketItem): (r: real)
    ensures item.discount.None? ==> r == item.unitPrice * item.quantity
    ensures item.discount.Some? ==> r + item.discount.value.discount == item.unitPrice * item.quantity
  {
    item.unitPrice * item.quantity - (if item.discount.Some? then item.discount.value.discount else 0.0)
  }

  /**
   * The price is affine in the quantity: raising the quantity by `q` raises
   * the price by `unit_price * q`, the item discount being taken only once.
   */
  lemma PriceGrowsWithQuantity(item: BasketItem, q: real)
    ensures Price(item.(quantity := item.quantity + q)) == Price(item) + item.unitPrice * q
  {
    assert item.unitPrice * (item.quantity + q) == item.unitPrice * item.quantity + item.unitPrice * q;
  }

  /** `exchange_fee`: 1 in the item's own currency; any other currency is not implemented. */
  function ExchangeFee(item: BasketItem, currency: string): (r: Result<int>)
    ensures r.Ok? <==> currency == item.currency
    ensures r.Ok? ==> r.value == 1
    ensures r.Err? ==> r.error.NotImplementedError?
  {
    if item.currency != currency then Err(NotImplementedError("Currency exchange not implemented"))
    else Ok(1)
  }

  /** `BasketItemChangeSchema`: a relative or an absolute quantity change. */
  datatype ChangeRequest = ChangeRequest(quantityChange: Option<real>, newQuantity: Option<real>)

  /** The `validate_quantity` model validator: exactly one of the two fields must be given. */
  function ValidateChange(c: ChangeRequest): (r: Result<ChangeRequest>)
    ensures r.Ok? <==> (c.quantityChange.Some? != c.newQuantity.Some?)
    ensures r.Ok? ==> r.value == c
    ensures r.Err? ==> r.error.ValueError?
  {
    if c.quantityChange.None? && c.newQuantity.None? then
      Err(ValueError("Either quantity_change or new_quantity must be provided"))
    else if c.quantityChange.Some? && c.newQuantity.Some? then
      Err(ValueError("Only one of quantity_change or new_quantity can be provided"))
    else Ok(c)
  }

  /** `BasketStatusEnum` with its string values. */
  datatype BasketStatus = Active | Locked | Reserved | Paid | Cancelled | Expired {
    function Value(): string {
      match this
      case Active => "active"
      case Locked => "locked"
      case Reserved => "reserved"
      case Paid => "paid"
      case Cancelled => "cancelled"
      case Expired => "expired"
    }
  }

  const DefaultStatus: BasketStatus := Active

  /** Reading a stored status string back into the enumeration. */
  function ParseBasketStatus(s: string): (r: Option<BasketStatus>)
    ensures r.Some? ==> r.value.Value() == s
  {
    if s == "active" then Some(Active)
    else if s == "locked" then Some(Locked)
    else if s == "reserved" then Some(Reserved)
    else if s == "paid" then Some(Paid)
    else if s == "cancelled" then Some(Cancelled)
    else if s == "expired" then Some(Expired)
    else None
  }

  /**
   * The enumeration has six distinct values, each read back to itself, and
   * the strings "reserve" and "cancel" that basket/services.py stores are not
   * among them.
   */
  lemma {:induction false} StatusValues(s: BasketStatus)
    ensures ParseBasketStatus(s.Value()) == Some(s)
    ensures ParseBasketStatus("reserve").None? && ParseBasketStatus("cancel").None?
    ensures s.Value() != "reserve" && s.Value() != "cancel"
  {
    match s
    case Active =>
    case Locked =>
    case Reserved =>
    case Paid =>
    case Cancelled =>
    case Expired =>
  }

  /**
   * `is_modifiable`: items may change only while the basket is active, that
   * is, while its status reads back as `ACTIVE`.
   */
  function IsModifiable(status: string): (r: bool)
    ensures r <==> ParseBasketStatus(status) == Some(Active)
  {
    StatusValues(Active);
    status == Active.Value()
  }

  /** What the `validation_url` endpoint answered: its `price` and `stock_quantity`. */
  datatype ValidationData = ValidationData(price: Option<real>, stockQuantity: Option<real>)

  /**
   * `validate_product`, with the HTTP answers passed in: `responses` maps each
   * URL that answered successfully to its JSON; a URL that is missing answered
   * with an error status.
   */
  function ValidateProduct(item: BasketItem, responses: map<string, ValidationData>): (r: Result<bool>)
    ensures item.validationUrl.None? ==> r == Err(ValueError("Validation URL is not set"))
    ensures item.validationUrl.Some? && item.validationUrl.value !in responses ==> r.Err? && r.error.HttpError?
    ensures r.Err? <==> item.validationUrl.None? || item.validationUrl.value !in responses
    ensures r == Ok(true) <==>
      && item.validationUrl.Some? && item.validationUrl.value in responses
      && responses[item.validationUrl.value].price == Some(item.unitPrice)
      && (responses[item.validationUrl.value].stockQuantity.Some? ==>
            responses[item.validationUrl.value].stockQuantity.value >= item.quantity)
  {
    if item.validationUrl.None? then Err(ValueError("Validation URL is not set"))
    else if item.validationUrl.value !in responses then Err(HttpError(0, "validation request failed"))
    else
      var data := responses[item.validationUrl.value];
      if data.price != Some(item.unitPrice) then Ok(false)
      else if data.stockQuantity.None? then Ok(true)
      else Ok(data.stockQuantity.value >= item.quantity)
  }

  /** The `items` field of `BasketDetailSchema`: a dict as stored, or a list. */
  datatype ItemsField = ItemsDict(d: Dict<BasketItem>) | ItemsList(l: seq<BasketItem>)

  /** `validate_items`: a dict becomes the list of its values in key order; a list passes. */
  function DetailItems(f: ItemsField): (r: seq<BasketItem>)
    requires f.ItemsDict? ==> f.d.Valid()
    ensures f.ItemsList? ==> r == f.l
    ensures f.ItemsDict? ==>
      (|r| == |f.d.keys| && forall i :: 0 <= i < |r| ==> r[i] == f.d.entries[f.d.keys[i]])
  {
    match f
    case ItemsDict(d) => Values(d)
    case ItemsList(l) => l
  }
}
