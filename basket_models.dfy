/**
 * The basket aggregate (app/apps/basket/models.py): an insertion-ordered map
 * from item uid to line item, its subtotal and amount, and the three item
 * mutations.
 */
module BasketModels {
  import opened Wrappers
  import opened PyDict
  import opened BasketSchemas
  import Voucher

  // ---------------------------------------------------------------------------
  // Totals

  /** The plain sum of the line prices, in order. */
  function TotalPrice(items: seq<BasketItem>): real {
    if items == [] then 0.0
    else TotalPrice(items[..|items| - 1]) + Price(items[|items| - 1])
  }

  /**
   * `subtotal`: the sum of `price * exchange_fee(currency)` over the items.
   * Any item in another currency makes the whole sum raise.
   */
  function SubtotalOf(items: seq<BasketItem>, currency: string): (r: Result<real>)
    ensures r.Ok? <==> forall i :: 0 <= i < |items| ==> items[i].currency == currency
    ensures r.Ok? ==> r.value == TotalPrice(items)
    ensures r.Err? ==> r.error.NotImplementedError?
  {
    if items == [] then Ok(0.0)
    else
      var last := items[|items| - 1];
      match SubtotalOf(items[..|items| - 1], currency)
      case Err(e) => Err(e)
      case Ok(rest) =>
        match ExchangeFee(last, currency)
        case Err(e) => Err(e)
        case Ok(fee) => Ok(rest + Price(last) * fee as real)
  }

  /** Replacing one line changes the total by the difference of the two line prices. */
  lemma {:induction false} TotalPriceReplace(items: seq<BasketItem>, i: nat, v: BasketItem)
    requires i < |items|
    ensures TotalPrice(items[i := v]) == TotalPrice(items) - Price(items[i]) + Price(v)
    decreases |items|
  {
    var n := |items| - 1;
    if i < n {
      assert items[i := v][..n] == items[..n][i := v];
      TotalPriceReplace(items[..n], i, v);
    } else {
      assert items[i := v][..n] == items[..n];
    }
  }

  lemma TotalPriceAppend(items: seq<BasketItem>, v: BasketItem)
    ensures TotalPrice(items + [v]) == TotalPrice(items) + Price(v)
  {
    assert (items + [v])[..|items|] == items;
  }

  /** Every value in key order is in currency c exactly when every entry is. */
  lemma ValuesCurrency(d: Dict<BasketItem>, c: string)
    requires d.Valid()
    ensures (forall i :: 0 <= i < |Values(d)| ==> Values(d)[i].currency == c) <==>
            (forall k :: k in d.entries ==> d.entries[k].currency == c)
  {
    var vs := Values(d);
    if forall i :: 0 <= i < |vs| ==> vs[i].currency == c {
      forall k | k in d.entries ensures d.entries[k].currency == c {
        var i :| 0 <= i < |d.keys| && d.keys[i] == k;
        assert vs[i] == d.entries[k];
      }
    }
  }

  // ---------------------------------------------------------------------------
  // add_basket_item

  /**
   * The index of the first item, at or after `from` in key order, that is the
   * same product line as `item`.
   */
  function FirstMatch(d: Dict<BasketItem>, item: BasketItem, from: nat): (r: Option<nat>)
    requires d.Valid() && from <= |d.keys|
    ensures r.Some? ==> from <= r.value < |d.keys| && SameLine(d.entries[d.keys[r.value]], item)
    ensures forall j :: from <= j < (if r.Some? then r.value else |d.keys|) ==>
      !SameLine(d.entries[d.keys[j]], item)
    decreases |d.keys| - from
  {
    if from == |d.keys| then None
    else if SameLine(d.entries[d.keys[from]], item) then Some(from)
    else FirstMatch(d, item, from + 1)
  }

  /** The first matching index is the one with a match and no match before it. */
  lemma {:induction false} FirstMatchAt(d: Dict<BasketItem>, item: BasketItem, from: nat, i: nat)
    requires d.Valid() && from <= i < |d.keys| && SameLine(d.entries[d.keys[i]], item)
    requires forall j :: from <= j < i ==> !SameLine(d.entries[d.keys[j]], item)
    ensures FirstMatch(d, item, from) == Some(i)
    decreases i - from
  {
    if from < i {
      FirstMatchAt(d, item, from + 1, i);
    }
  }

  /** Without a matching item from `from` on, there is no first match. */
  lemma {:induction false} FirstMatchNone(d: Dict<BasketItem>, item: BasketItem, from: nat)
    requires d.Valid() && from <= |d.keys|
    requires forall j :: from <= j < |d.keys| ==> !SameLine(d.entries[d.keys[j]], item)
    ensures FirstMatch(d, item, from).None?
    decreases |d.keys| - from
  {
    if from < |d.keys| {
      FirstMatchNone(d, item, from + 1);
    }
  }

  /** The items after `add_basket_item(item, exclusive)`. */
  function AddedItems(d: Dict<BasketItem>, item: BasketItem, exclusive: bool): (r: Dict<BasketItem>)
    requires d.Valid()
    ensures r.Valid()
  {
    var base := if exclusive then Empty() else d;
    match FirstMatch(base, item, 0)
    case Some(i) =>
      var k := base.keys[i];
      Put(base, k, base.entries[k].(quantity := base.entries[k].quantity + item.quantity))
    case None => Put(base, item.uid, item)
  }

  /** An exclusive add empties the basket first, so only the added item remains. */
  lemma ExclusiveAddKeepsOnlyItem(d: Dict<BasketItem>, item: BasketItem)
    requires d.Valid()
    ensures AddedItems(d, item, true) == Dict([item.uid], map[item.uid := item])
    ensures Values(AddedItems(d, item, true)) == [item]
  {
  }

  /**
   * Adding an item of the same product line as the item at position i, with
   * no such item before it, raises that item's quantity by the added quantity;
   * no key is added and no other item changes.
   */
  lemma AddMergesIntoFirstMatch(d: Dict<BasketItem>, item: BasketItem, i: nat)
    requires d.Valid() && i < |d.keys| && SameLine(d.entries[d.keys[i]], item)
    requires forall j :: 0 <= j < i ==> !SameLine(d.entries[d.keys[j]], item)
    ensures AddedItems(d, item, false).keys == d.keys
    ensures AddedItems(d, item, false).entries[d.keys[i]] ==
      d.entries[d.keys[i]].(quantity := d.entries[d.keys[i]].quantity + item.quantity)
    ensures forall k :: k in d.entries && k != d.keys[i] ==>
      AddedItems(d, item, false).entries[k] == d.entries[k]
  {
    FirstMatchAt(d, item, 0, i);
  }

  /**
   * Adding an item that matches no existing line stores it under its own uid:
   * for a fresh uid it is appended and the basket grows by one.
   */
  lemma AddInsertsUnmatched(d: Dict<BasketItem>, item: BasketItem)
    requires d.Valid()
    requires forall j :: 0 <= j < |d.keys| ==> !SameLine(d.entries[d.keys[j]], item)
    ensures AddedItems(d, item, false).entries == d.entries[item.uid := item]
    ensures item.uid !in d.entries ==>
      AddedItems(d, item, false).keys == d.keys + [item.uid] &&
      |AddedItems(d, item, false).keys| == |d.keys| + 1
    ensures item.uid in d.entries ==> AddedItems(d, item, false).keys == d.keys
  {
    FirstMatchNone(d, item, 0);
  }

  /**
   * Merging into an existing line raises the total by `unit_price * quantity`
   * of the added item: the line discount is not taken twice.
   */
  lemma AddMergeRaisesTotal(d: Dict<BasketItem>, item: BasketItem, i: nat)
    requires d.Valid() && FirstMatch(d, item, 0) == Some(i)
    ensures TotalPrice(Values(AddedItems(d, item, false))) ==
      TotalPrice(Values(d)) + item.unitPrice * item.quantity
  {
    var vs := Values(d);
    MergedValues(d, item, i);
    var merged := vs[i].(quantity := vs[i].quantity + item.quantity);
    assert Values(AddedItems(d, item, false)) == vs[i := merged];
    MergeLineTotal(vs, i, item);
  }

  /** Raising the quantity of line i, of the same product line as `item`, by `item.quantity`. */
  lemma MergeLineTotal(vs: seq<BasketItem>, i: nat, item: BasketItem)
    requires i < |vs| && SameLine(vs[i], item)
    ensures TotalPrice(vs[i := vs[i].(quantity := vs[i].quantity + item.quantity)]) ==
      TotalPrice(vs) + item.unitPrice * item.quantity
  {
    var e := vs[i];
    var merged := e.(quantity := e.quantity + item.quantity);
    TotalPriceReplace(vs, i, merged);
    PriceGrowsWithQuantity(e, item.quantity);
    SameLineSamePrice(e, item);
    var added := item.unitPrice * item.quantity;
    assert e.unitPrice * item.quantity == added;
    assert Price(merged) == Price(e) + added;
    assert TotalPrice(vs[i := merged]) == TotalPrice(vs) - Price(e) + Price(merged);
  }

  /** A merge replaces the value at the matched position by the merged line. */
  lemma MergedValues(d: Dict<BasketItem>, item: BasketItem, i: nat)
    requires d.Valid() && FirstMatch(d, item, 0) == Some(i)
    ensures Values(d)[i] == d.entries[d.keys[i]]
    ensures Values(AddedItems(d, item, false)) ==
      Values(d)[i := d.entries[d.keys[i]].(quantity := d.entries[d.keys[i]].quantity + item.quantity)]
  {
    var e := d.entries[d.keys[i]];
    var merged := e.(quantity := e.quantity + item.quantity);
    assert AddedItems(d, item, false) == Put(d, d.keys[i], merged);
    ValuesPutExisting(d, i, merged);
  }

  /** Items of the same product line have the same unit price. */
  lemma SameLineSamePrice(a: BasketItem, b: BasketItem)
    requires SameLine(a, b)
    ensures a.unitPrice == b.unitPrice
  {
    assert a.(uid := "", quantity := 0.0).unitPrice == b.(uid := "", quantity := 0.0).unitPrice;
  }

  /** Adding a new line under a fresh uid raises the total by that line's price. */
  lemma AddNewLineRaisesTotal(d: Dict<BasketItem>, item: BasketItem)
    requires d.Valid() && FirstMatch(d, item, 0).None? && item.uid !in d.entries
    ensures TotalPrice(Values(AddedItems(d, item, false))) == TotalPrice(Values(d)) + Price(item)
  {
    assert AddedItems(d, item, false) == Put(d, item.uid, item);
    ValuesPutNew(d, item.uid, item);
    TotalPriceAppend(Values(d), item);
  }

  /** Every item of the basket has a positive quantity. */
  ghost predicate PositiveQuantities(d: Dict<BasketItem>) {
    forall k :: k in d.entries ==> d.entries[k].quantity > 0.0
  }

  /**
   * Adding keeps all quantities positive when the added quantity is
   * positive; the method itself does not check the sign, so a non-positive
   * added quantity can leave a line at or below zero.
   */
  lemma AddKeepsQuantitiesPositive(d: Dict<BasketItem>, item: BasketItem, exclusive: bool)
    requires d.Valid() && PositiveQuantities(d) && item.quantity > 0.0
    ensures PositiveQuantities(AddedItems(d, item, exclusive))
  {
  }

  // ---------------------------------------------------------------------------
  // update_basket_item

  /**
   * The quantity `update_basket_item` assigns, for a validated change
   * request: `new_quantity` replaces the quantity whatever it was, and
   * `quantity_change` shifts it.
   */
  function NewQuantity(current: real, c: ChangeRequest): (r: real)
    requires ValidateChange(c).Ok?
    ensures c.newQuantity.Some? ==> r == c.newQuantity.value
    ensures c.newQuantity.None? ==> r - current == c.quantityChange.value
  {
    if c.newQuantity.Some? then c.newQuantity.value else current + c.quantityChange.value
  }

  /**
   * The quantity as models.py:64-67 computes it: `new_quantity` is checked for
   * truth, so 0 takes the `quantity_change` branch, where the missing
   * `quantity_change` (None) makes the addition raise a TypeError.
   */
  function NewQuantityAsWritten(current: real, c: ChangeRequest): (r: Result<real>)
    ensures c.newQuantity.Some? && c.newQuantity.value != 0.0 ==> r == Ok(c.newQuantity.value)
    ensures (c.newQuantity.None? || c.newQuantity.value == 0.0) ==>
      r == if c.quantityChange.Some? then Ok(current + c.quantityChange.value)
           else Err(TypeError("unsupported operand type(s) for +: 'Decimal' and 'NoneType'"))
  {
    if c.newQuantity.Some? && c.newQuantity.value != 0.0 then Ok(c.newQuantity.value)
    else if c.quantityChange.None? then Err(TypeError("unsupported operand type(s) for +: 'Decimal' and 'NoneType'"))
    else Ok(current + c.quantityChange.value)
  }

  /**
   * The as-written computation raises on the accepted request
   * `{new_quantity: 0}`, where the evident intent is quantity 0, which removes
   * the item; on every other accepted request the two agree.
   */
  lemma ZeroNewQuantityRaises(current: real, c: ChangeRequest)
    requires ValidateChange(c).Ok?
    ensures c.newQuantity == Some(0.0) ==>
      NewQuantityAsWritten(current, c).Err? && NewQuantityAsWritten(current, c).error.TypeError? &&
      NewQuantity(current, c) == 0.0
    ensures c.newQuantity != Some(0.0) ==> NewQuantityAsWritten(current, c) == Ok(NewQuantity(current, c))
  {
  }

  /**
   * The items after `update_basket_item(id, c)` on a present id: the item
   * takes its new quantity and is removed when that is not positive; no other
   * item changes and the key order is kept.
   */
  function UpdatedItems(d: Dict<BasketItem>, id: string, c: ChangeRequest): (r: Dict<BasketItem>)
    requires d.Valid() && id in d.entries && ValidateChange(c).Ok?
    ensures r.Valid()
    ensures id in r.entries <==> NewQuantity(d.entries[id].quantity, c) > 0.0
    ensures id in r.entries ==>
      r.entries[id] == d.entries[id].(quantity := NewQuantity(d.entries[id].quantity, c)) && r.keys == d.keys
    ensures id !in r.entries ==> r.keys == RemoveKey(d.keys, id) && |r.keys| == |d.keys| - 1
    ensures forall k :: k != id ==> (k in r.entries <==> k in d.entries)
    ensures forall k :: k != id && k in d.entries ==> r.entries[k] == d.entries[k]
  {
    var q := NewQuantity(d.entries[id].quantity, c);
    var updated := Put(d, id, d.entries[id].(quantity := q));
    if q <= 0.0 then
      PopSemantics(updated, id);
      Pop(updated, id)
    else updated
  }

  /** Updating keeps every quantity positive: a line that would drop to zero or below is removed. */
  lemma UpdateKeepsQuantitiesPositive(d: Dict<BasketItem>, id: string, c: ChangeRequest)
    requires d.Valid() && id in d.entries && ValidateChange(c).Ok? && PositiveQuantities(d)
    ensures PositiveQuantities(UpdatedItems(d, id, c))
  {
  }

  // ---------------------------------------------------------------------------
  // The basket

  class Basket {
    const uid: string
    const currency: string
    var status: string
    var callbackUrl: Option<string>
    var discount: Option<Discount>
    var items: Dict<BasketItem>

    ghost predicate Valid()
      reads this
    {
      items.Valid()
    }

    /** A new basket: status `active`, no items, no discount. */
    constructor (uid: string, currency: string, callbackUrl: Option<string>)
      ensures Valid()
      ensures this.uid == uid && this.currency == currency && this.callbackUrl == callbackUrl
      ensures status == DefaultStatus.Value() && IsModifiable(status)
      ensures items.keys == [] && discount.None?
    {
      this.uid := uid;
      this.currency := currency;
      this.callbackUrl := callbackUrl;
      status := DefaultStatus.Value();
      discount := None;
      items := Empty();
    }

    /**
     * `subtotal`: defined exactly when every item is in the basket currency,
     * and then the sum of the line prices; 0 for an empty basket.
     */
    function Subtotal(): (r: Result<real>)
      reads this
      requires Valid()
      ensures r.Ok? <==> forall k :: k in items.entries ==> items.entries[k].currency == currency
      ensures r.Ok? ==> r.value == TotalPrice(Values(items))
      ensures items.keys == [] ==> r == Ok(0.0)
    {
      ValuesCurrency(items, currency);
      SubtotalOf(Values(items), currency)
    }

    /** `amount`: the subtotal less the basket discount, when one is set. */
    function Amount(): (r: Result<real>)
      reads this
      requires Valid()
      ensures Subtotal().Err? ==> r.Err?
      ensures Subtotal().Ok? && discount.None? ==> r == Subtotal()
      ensures Subtotal().Ok? && discount.Some? ==> r == Ok(Subtotal().value - discount.value.discount)
    {
      match Subtotal()
      case Err(e) => Err(e)
      case Ok(s) => if discount.Some? then Ok(s - discount.value.discount) else Ok(s)
    }

    /**
     * `add_basket_item`: merges into the first item of the same product line
     * or stores the item under its uid; `exclusive` empties the basket first.
     */
    method AddBasketItem(item: BasketItem, exclusive: bool)
      requires Valid() && IsModifiable(status)
      modifies this`items
      ensures Valid()
      ensures items == AddedItems(old(items), item, exclusive)
    {
      if exclusive {
        items := Empty();
      }
      ghost var base := items;
      var i := 0;
      while i < |items.keys|
        invariant items == base && 0 <= i <= |items.keys|
        invariant forall j :: 0 <= j < i ==> !SameLine(items.entries[items.keys[j]], item)
      {
        var k := items.keys[i];
        var existing := items.entries[k];
        if SameLine(existing, item) {
          FirstMatchAt(base, item, 0, i);
          items := Put(items, k, existing.(quantity := existing.quantity + item.quantity));
          return;
        }
        i := i + 1;
      }
      FirstMatchNone(base, item, 0);
      items := Put(items, item.uid, item);
    }

    /**
     * `update_basket_item`: an absent id raises a ValueError unless the
     * `raise_error` flag is set, in which case nothing happens; a present item
     * takes its new quantity and is removed when that is not positive.
     */
    method UpdateBasketItem(itemId: string, c: ChangeRequest, raiseError: bool) returns (r: Outcome)
      requires Valid() && IsModifiable(status) && ValidateChange(c).Ok?
      modifies this`items
      ensures Valid()
      ensures itemId !in old(items.entries) ==>
        items == old(items) && (r.Pass? <==> raiseError) && (r.Fail? ==> r.error.ValueError?)
      ensures itemId in old(items.entries) ==> r.Pass? && items == UpdatedItems(old(items), itemId, c)
    {
      if itemId !in items.entries {
        if raiseError {
          return Pass;
        }
        return Fail(ValueError("Item with id " + itemId + " not found in the basket."));
      }
      var basketItem := items.entries[itemId];
      var quantity := NewQuantity(basketItem.quantity, c);
      items := Put(items, itemId, basketItem.(quantity := quantity));
      if quantity <= 0.0 {
        items := Pop(items, itemId);
      }
      r := Pass;
    }

    /** `delete_basket_item`: removes the key if present, otherwise does nothing. */
    method DeleteBasketItem(itemId: string)
      requires Valid() && IsModifiable(status)
      modifies this`items
      ensures Valid()
      ensures items == Pop(old(items), itemId)
    {
      items := Pop(items, itemId);
    }
  }

  /**
   * If the basket discount is what a voucher within its bounds computes on a
   * non-negative subtotal, the amount lies between zero and the subtotal.
   */
  lemma VoucherDiscountKeepsAmountInRange(b: Basket, v: Voucher.Voucher)
    requires b.Valid() && b.Subtotal().Ok? && b.Subtotal().value >= 0.0
    requires Voucher.WithinBounds(v)
    requires b.discount.Some? && b.discount.value.discount == Voucher.CalculateDiscount(v, b.Subtotal().value)
    ensures b.Amount().Ok? && 0.0 <= b.Amount().value <= b.Subtotal().value
  {
    Voucher.DiscountWithinAmount(v, b.Subtotal().value);
  }
}
