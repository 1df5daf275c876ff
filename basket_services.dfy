/**
 * The basket services (app/apps/basket/services.py): reserving, validating,
 * notifying and cancelling a basket.  The HTTP calls made per item are
 * replaced by parameters: the answers of the validation endpoints, and the
 * set of webhook URLs whose call fails.
 */
module BasketServices {
  import opened Wrappers
  import opened PyDict
  import opened BasketSchemas
  import opened BasketModels

  /** The status strings these services store; neither is a `BasketStatusEnum` value. */
  const ReserveStatus: string := "reserve"
  const CancelStatus: string := "cancel"

  const ValidationFailed: string := "Product validation failed"

  /** `if item.reserve_url:` — a set, non-empty (truthy) reservation URL. */
  predicate HasReserveUrl(item: BasketItem) {
    item.reserveUrl.Some? && item.reserveUrl.value != ""
  }

  /**
   * `reserve_basket`: writes status "reserve", then raises if any item has a
   * non-empty `reserve_url`; the basket is saved only when none has.  The written
   * status stays on the object either way and locks the basket.
   */
  method ReserveBasket(b: Basket) returns (r: Outcome, saved: bool)
    requires b.Valid()
    modifies b`status
    ensures b.status == ReserveStatus && !IsModifiable(b.status)
    ensures ParseBasketStatus(b.status).None?
    ensures r.Pass? <==> forall i :: 0 <= i < |b.items.keys| ==> !HasReserveUrl(b.items.entries[b.items.keys[i]])
    ensures r.Fail? ==> r.error == ValueError(ValidationFailed)
    ensures saved <==> r.Pass?
  {
    b.status := ReserveStatus;
    var i := 0;
    while i < |b.items.keys|
      invariant 0 <= i <= |b.items.keys|
      invariant forall j :: 0 <= j < i ==> !HasReserveUrl(b.items.entries[b.items.keys[j]])
    {
      if HasReserveUrl(b.items.entries[b.items.keys[i]]) {
        return Fail(ValueError(ValidationFailed)), false;
      }
      i := i + 1;
    }
    r, saved := Pass, true;
  }

  /** How one item fares in `validate_basket`: its error, a ValueError when it is not valid, or a pass. */
  function ItemVerdict(item: BasketItem, responses: map<string, ValidationData>): (r: Outcome)
    ensures r.Pass? <==> ValidateProduct(item, responses) == Ok(true)
    ensures ValidateProduct(item, responses).Err? ==> r == Fail(ValidateProduct(item, responses).error)
    ensures ValidateProduct(item, responses) == Ok(false) ==> r == Fail(ValueError(ValidationFailed))
  {
    match ValidateProduct(item, responses)
    case Err(e) => Fail(e)
    case Ok(valid) => if valid then Pass else Fail(ValueError(ValidationFailed))
  }

  /**
   * What `validate_basket` does for the items in order: it fails with the
   * verdict of the first item that does not pass, and passes only if every
   * item is valid.
   */
  function ValidationOutcome(items: seq<BasketItem>, responses: map<string, ValidationData>): (r: Outcome)
    ensures r.Pass? <==> forall i :: 0 <= i < |items| ==> ValidateProduct(items[i], responses) == Ok(true)
    ensures r.Fail? ==> exists i :: FirstFailure(items, responses, i) && r == ItemVerdict(items[i], responses)
  {
    if items == [] then Pass
    else
      var rest := ValidationOutcome(items[1..], responses);
      assert forall i :: 0 < i < |items| ==> items[i] == items[1..][i - 1];
      if ItemVerdict(items[0], responses).Fail? then
        assert FirstFailure(items, responses, 0);
        ItemVerdict(items[0], responses)
      else
        assert rest.Fail? ==> exists i :: FirstFailure(items, responses, i) && rest == ItemVerdict(items[i], responses) by {
          if rest.Fail? {
            var i :| FirstFailure(items[1..], responses, i) && rest == ItemVerdict(items[1..][i], responses);
            assert FirstFailure(items, responses, i + 1);
          }
        }
        rest
  }

  /** Item i is the first item of `items` that does not pass validation. */
  ghost predicate FirstFailure(items: seq<BasketItem>, responses: map<string, ValidationData>, i: int) {
    && 0 <= i < |items|
    && ItemVerdict(items[i], responses).Fail?
    && forall j :: 0 <= j < i ==> ItemVerdict(items[j], responses).Pass?
  }

  /** `validate_basket`: checks the items in key order and stops at the first failure. */
  method ValidateBasket(b: Basket, responses: map<string, ValidationData>) returns (r: Outcome)
    requires b.Valid()
    ensures r == ValidationOutcome(Values(b.items), responses)
  {
    var items := Values(b.items);
    var i := 0;
    while i < |items|
      invariant 0 <= i <= |items|
      invariant ValidationOutcome(items, responses) == ValidationOutcome(items[i..], responses)
    {
      assert items[i..][1..] == items[i + 1..];
      var verdict := ItemVerdict(items[i], responses);
      if verdict.Fail? {
        return verdict;
      }
      i := i + 1;
    }
    r := Pass;
  }

  /** The webhook URLs of the items that have one, in order. */
  function WebhookUrls(items: seq<BasketItem>): (urls: seq<string>)
    ensures |urls| <= |items|
    ensures forall u :: u in urls <==> exists i :: 0 <= i < |items| && items[i].webhookUrl == Some(u)
  {
    if items == [] then []
    else
      var rest := WebhookUrls(items[1..]);
      assert forall i :: 0 < i < |items| ==> items[i] == items[1..][i - 1];
      assert forall u :: u in rest <==> exists i :: 0 < i < |items| && items[i].webhookUrl == Some(u) by {
        forall u | u in rest ensures exists i :: 0 < i < |items| && items[i].webhookUrl == Some(u) {
          var i :| 0 <= i < |items[1..]| && items[1..][i].webhookUrl == Some(u);
          assert items[i + 1].webhookUrl == Some(u);
        }
      }
      match items[0].webhookUrl
      case None => rest
      case Some(u) => [u] + rest
  }
  /**
   * The webhook URLs are called once per item that has one, in the items'
   * order: one item contributes its own URL or nothing, and the URLs of a
   * concatenation are those of its parts, one after the other.
   */
  lemma {:induction false} WebhookUrlsInOrder(a: seq<BasketItem>, b: seq<BasketItem>)
    ensures WebhookUrls(a + b) == WebhookUrls(a) + WebhookUrls(b)
    ensures |a| == 1 ==> WebhookUrls(a) == (if a[0].webhookUrl.Some? then [a[0].webhookUrl.value] else [])
  {
    if a == [] {
      assert a + b == b;
    } else {
      assert (a + b)[1..] == a[1..] + b;
      WebhookUrlsInOrder(a[1..], b);
      if |a| == 1 {
        assert WebhookUrls(a[1..]) == [];
      }
    }
  }




  /**
   * The calls `webhook_product` makes for the items in order, and how the
   * loop ends: an item without a webhook URL makes no call, a call to a URL in
   * `failing` raises an HTTP error and stops the loop.
   */
  function Webhooks(items: seq<BasketItem>, failing: set<string>): (seq<string>, Outcome) {
    if items == [] then ([], Pass)
    else
      var rest := Webhooks(items[1..], failing);
      match items[0].webhookUrl
      case None => rest
      case Some(u) =>
        if u in failing then ([u], Fail(HttpError(0, "webhook request failed")))
        else ([u] + rest.0, rest.1)
  }

  /**
   * The webhook loop passes exactly when no webhook URL fails, and then every
   * webhook URL has been called once, in order; otherwise the calls made are
   * a prefix of those URLs ending with the first failing one.
   */
  lemma {:induction false} WebhooksCalls(items: seq<BasketItem>, failing: set<string>)
    ensures Webhooks(items, failing).1.Pass? <==> forall u :: u in WebhookUrls(items) ==> u !in failing
    ensures Webhooks(items, failing).1.Pass? ==> Webhooks(items, failing).0 == WebhookUrls(items)
    ensures Webhooks(items, failing).1.Fail? ==>
      (var calls := Webhooks(items, failing).0;
       && Webhooks(items, failing).1.error.HttpError?
       && calls != [] && calls[|calls| - 1] in failing && calls <= WebhookUrls(items)
       && forall j :: 0 <= j < |calls| - 1 ==> calls[j] !in failing)
  {
    if items != [] {
      var w := Webhooks(items[1..], failing);
      var urls := WebhookUrls(items[1..]);
      WebhooksCalls(items[1..], failing);
      match items[0].webhookUrl
      case None =>
        assert Webhooks(items, failing) == w && WebhookUrls(items) == urls;
      case Some(u) =>
        assert WebhookUrls(items) == [u] + urls;
        if u !in failing {
          assert Webhooks(items, failing) == ([u] + w.0, w.1);
          if w.1.Fail? {
            var calls := [u] + w.0;
            forall j | 0 <= j < |calls| - 1 ensures calls[j] !in failing {
              if j > 0 { assert calls[j] == w.0[j - 1]; }
            }
          }
        }
    }
  }

  lemma WebhooksUnfold(items: seq<BasketItem>, failing: set<string>)
    requires items != []
    ensures Webhooks(items, failing) ==
      match items[0].webhookUrl
      case None => Webhooks(items[1..], failing)
      case Some(u) =>
        if u in failing then ([u], Fail(HttpError(0, "webhook request failed")))
        else ([u] + Webhooks(items[1..], failing).0, Webhooks(items[1..], failing).1)
  {
  }

  /** `webhook_basket`: calls each item's webhook in key order. */
  method WebhookBasket(b: Basket, failing: set<string>) returns (calls: seq<string>, r: Outcome)
    requires b.Valid()
    ensures (calls, r) == Webhooks(Values(b.items), failing)
  {
    calls, r := NotifyItems(Values(b.items), failing);
  }

  /** The webhook loop shared by `webhook_basket` and `cancel_basket`. */
  method NotifyItems(items: seq<BasketItem>, failing: set<string>) returns (calls: seq<string>, r: Outcome)
    ensures (calls, r) == Webhooks(items, failing)
  {
    calls := [];
    var i := 0;
    assert items[0..] == items;
    assert [] + Webhooks(items, failing).0 == Webhooks(items, failing).0;
    while i < |items|
      invariant 0 <= i <= |items|
      invariant Webhooks(items, failing) ==
        (calls + Webhooks(items[i..], failing).0, Webhooks(items[i..], failing).1)
    {
      ghost var next := Webhooks(items[i + 1..], failing);
      WebhooksUnfold(items[i..], failing);
      assert items[i..][1..] == items[i + 1..];
      if items[i].webhookUrl.Some? {
        var u := items[i].webhookUrl.value;
        assert calls + ([u] + next.0) == (calls + [u]) + next.0;
        calls := calls + [u];
        if u in failing {
          return calls, Fail(HttpError(0, "webhook request failed"));
        }
      }
      i := i + 1;
    }
    assert items[i..] == [];
    assert calls + [] == calls;
    r := Pass;
  }

  /**
   * `cancel_basket`: writes status "cancel" and saves it before any webhook
   * is called, so a failing webhook does not undo the cancellation.
   */
  method CancelBasket(b: Basket, failing: set<string>) returns (saved: bool, calls: seq<string>, r: Outcome)
    requires b.Valid()
    modifies b`status
    ensures b.status == CancelStatus && !IsModifiable(b.status)
    ensures ParseBasketStatus(b.status).None?
    ensures saved
    ensures (calls, r) == Webhooks(Values(b.items), failing)
  {
    b.status := CancelStatus;
    saved := true;
    calls, r := NotifyItems(Values(b.items), failing);
  }
}
