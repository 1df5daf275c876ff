# Shop backend core in Dafny

A model of the core of a FastAPI shop backend, with proofs about it:

- **Basket.** The basket holds a `uid → item` dictionary. Adding an item either merges it into the first equal line or inserts it. Updating or deleting an item can remove it. The subtotal and amount come from the items and the discount.
- **Basket services.** `reserve_basket`, `validate_basket`, `webhook_basket` and `cancel_basket` each loop over the items.
- **Voucher discount.** `amount × rate / 100`, capped by `cap`.
- **Payment state machine.** There are two copies of it, *payment* and *purchase*. `start` opens a gateway try. `verify` folds the gateway's verdict on every try into the payment. `create_proposal` checks the wallet balance. The verify route calls it only on a PENDING → SUCCESS transition.
- **URL helpers and enrollment validators.** The URL shape check, the query-parameter merge, and the enrollment schemas sent to the SaaS service.

Modules:

| file | module | models |
|---|---|---|
| wrappers.dfy | `Wrappers` | `Option`, `Result`, `Outcome` (a call that returns or raises), and the Python exceptions raised |
| pydict.dfy | `PyDict` | A Python `dict`: insertion-ordered keys plus a map. Covers `d[k] = v`, `pop(k, None)` and `values()` |
| voucher.dfy | `Voucher` | app/apps/voucher/schemas.py |
| basket_schemas.dfy | `BasketSchemas` | app/apps/basket/schemas.py |
| basket_models.dfy | `BasketModels` | app/apps/basket/models.py: the class `Basket`, whose methods mutate `items` |
| basket_services.dfy | `BasketServices` | app/apps/basket/services.py: methods with loops over the items |
| texttools.dfy | `TextTools` | app/utils/texttools.py |
| ipg.dfy | `Ipg` | app/utils/ipg.py |
| payment_schemas.dfy | `PaymentSchemas` | app/apps/payment/schemas.py and app/apps/purchase/schemas.py |
| payment_models.dfy | `PaymentModels` | app/apps/payment/models.py and app/apps/purchase/models.py: the class `Payment` |
| payment_services.dfy | `PaymentServices` | app/apps/payment/services.py, app/apps/purchase/services.py, and the verify routes |
| saas.dfy | `Saas` | app/utils/saas.py |

The payment and purchase packages are copies of each other with the nouns swapped. The model has one `Payment` class, whose `kind` field picks the noun used in URLs, messages and error codes. Each property below therefore holds for both copies. Where a row cites the payment copy, its states column also gives the matching lines of the purchase copy.

Modelling conventions:

- **Outside effects are parameters.** Gateway replies, wallet balances, product-validation responses and failing webhook URLs are passed in.
- **Time.** Times are integer seconds, and the clock reading is the parameter `now`.
- **Decimals** are `real`.
- **Errors.** A raised exception is an `Err`/`Fail` value carrying the exception class and its message.
- **Validation errors.** Pydantic reports several field errors together; the model reports the first one in field order.

## Model

| member | source | states |
|---|---|---|
| PyDict.Empty | app/apps/basket/models.py:15 | a new dictionary is empty and well formed |
| PyDict.Put | app/apps/basket/models.py:51 | assignment keeps the keys distinct and in step with the map |
| PyDict.Values | app/apps/basket/models.py:22 | `values()` lists the entry of every key, in insertion order |
| PyDict.PopSemantics | app/apps/basket/models.py:74-76 | `pop(k, None)` removes `k` and keeps every other entry. It shrinks the dict by one exactly when `k` was present, and the other keys keep their order. Popping twice equals popping once |
| PyDict.RemoveKey | app/apps/basket/models.py:70 | removing a key from the order keeps exactly the other keys, still distinct |
| PyDict.RemoveKeyAt | app/apps/basket/models.py:70 | removing the key at position `i` of a key order leaves the keys before it and after it, in their order |
| PyDict.ValuesPutExisting | app/apps/basket/models.py:47 | overwriting an existing key keeps the order and replaces that one value |
| PyDict.ValuesPutNew | app/apps/basket/models.py:51 | a fresh key is appended, and its value comes last in `values()` |
| Voucher.NewVoucher | app/apps/voucher/schemas.py:19-74 | accepted iff `0 < rate ≤ 100`, `cap > 0`, `max_uses ≥ 1` and `redeemed ≥ 0` whenever given. Every supplied field is stored as given. Omitted fields take their defaults: status ACTIVE, rate 0, no cap, currency IRR, no expiry, no use limit, no user, no product limit, `redeemed` 0 |
| Voucher.CalculateDiscount | app/apps/voucher/schemas.py:57-62 | the discount is `amount × rate / 100` without a cap; with a cap it is the smaller of that and the cap |
| Voucher.DiscountWithinAmount | app/apps/voucher/schemas.py:27-32 | for a non-negative amount and a rate within its bounds, `0 ≤ discount ≤ amount` |
| Voucher.DefaultRateDiscountsNothing | app/apps/voucher/schemas.py:27-28 | the default rate of 0, which lies outside the declared bound, discounts nothing |
| BasketSchemas.PriceGrowsWithQuantity | app/apps/basket/schemas.py:88-93 | the price is affine in the quantity: adding `q` to the quantity raises it by `unit_price × q`, the item discount being taken once |
| BasketSchemas.Price | app/apps/basket/schemas.py:88-93 | the price is `unit_price × quantity`, less the item discount when one is set |
| BasketSchemas.ExchangeFee | app/apps/basket/schemas.py:95-99 | the fee is 1 iff the currencies agree; otherwise `NotImplementedError` |
| BasketSchemas.ValidateChange | app/apps/basket/schemas.py:152-164 | a change is accepted iff exactly one of `quantity_change` and `new_quantity` is set; otherwise `ValueError` |
| BasketSchemas.ParseBasketStatus | app/apps/basket/schemas.py:167-173 | parsing a string gives the status whose value it is |
| BasketSchemas.StatusValues | app/apps/basket/schemas.py:167-173 | the six values parse back to their statuses. `"reserve"` and `"cancel"` are not values of the enum |
| BasketSchemas.IsModifiable | app/apps/basket/schemas.py:190-192 | a basket is modifiable iff its status string parses as `ACTIVE` |
| BasketSchemas.ValidateProduct | app/apps/basket/schemas.py:111-127 | no validation URL raises `ValueError`, and a failed fetch raises. The result is true iff the reported price equals the unit price and the stock, when reported, covers the quantity |
| BasketSchemas.DetailItems | app/apps/basket/schemas.py:200-205 | a dict becomes the list of its values in order, and a list passes through |
| BasketModels.SubtotalOf | app/apps/basket/models.py:17-25 | succeeds iff every item is in the basket currency, with the sum of the item prices; otherwise `NotImplementedError` |
| BasketModels.TotalPriceReplace | app/apps/basket/models.py:17-25 | replacing one item changes the sum by the difference of the two prices |
| BasketModels.TotalPriceAppend | app/apps/basket/models.py:17-25 | appending an item adds its price to the sum |
| BasketModels.ValuesCurrency | app/apps/basket/models.py:21-22 | every value is in a currency iff every entry is |
| BasketModels.FirstMatch | app/apps/basket/models.py:45-46 | returns the first position whose item equals the new one on every field but uid and quantity, or none |
| BasketModels.FirstMatchAt | app/apps/basket/models.py:45-46 | the first equal line in iteration order is the one found |
| BasketModels.FirstMatchNone | app/apps/basket/models.py:45-46 | without an equal line nothing is found |
| BasketModels.AddedItems | app/apps/basket/models.py:37-52 | the added-to dictionary stays well formed |
| BasketModels.ExclusiveAddKeepsOnlyItem | app/apps/basket/models.py:42-43 | an exclusive add leaves exactly the added item |
| BasketModels.AddMergesIntoFirstMatch | app/apps/basket/models.py:45-49 | a match raises the first equal line's quantity by the added quantity. It adds no key and changes no other item |
| BasketModels.AddInsertsUnmatched | app/apps/basket/models.py:51 | without a match the item is stored under its uid, and a fresh uid grows the dict by one at the end |
| BasketModels.AddMergeRaisesTotal | app/apps/basket/models.py:45-49 | a merge raises the basket total by `unit_price × added quantity` |
| BasketModels.MergeLineTotal | app/apps/basket/models.py:47 | raising one line's quantity raises the sum by the unit price times the increase |
| BasketModels.MergedValues | app/apps/basket/models.py:47 | a merge changes exactly one position of `values()` |
| BasketModels.SameLineSamePrice | app/apps/basket/models.py:46 | equal lines share their unit price |
| BasketModels.AddNewLineRaisesTotal | app/apps/basket/models.py:51 | inserting a fresh line raises the total by its price |
| BasketModels.AddKeepsQuantitiesPositive | app/apps/basket/models.py:37-52 | adding a positive quantity keeps every quantity positive |
| BasketModels.NewQuantityAsWritten | app/apps/basket/models.py:64-67 | a truthy `new_quantity` is taken; otherwise `quantity_change` is added, and a missing one raises `TypeError` |
| BasketModels.ZeroNewQuantityRaises | app/apps/basket/models.py:64-67 | `new_quantity = 0` raises as written, where the corrected rule gives 0. Every other change agrees with the corrected rule |
| BasketModels.NewQuantity | app/apps/basket/models.py:64-67 | the corrected rule: `new_quantity` replaces the quantity whatever it was, and `quantity_change` shifts it by that amount |
| BasketModels.UpdatedItems | app/apps/basket/models.py:64-70 | the item keeps its new quantity iff that quantity is positive, and is removed otherwise. No other item changes |
| BasketModels.UpdateKeepsQuantitiesPositive | app/apps/basket/models.py:69-70 | after an update every quantity in the basket is positive |
| BasketModels.Basket.constructor | app/apps/basket/schemas.py:176-179 | a new basket is `active`, hence modifiable, and empty |
| BasketModels.Basket.Subtotal | app/apps/basket/models.py:17-25 | defined iff every item is in the basket currency, as the sum of the prices. An empty basket has subtotal 0 |
| BasketModels.Basket.Amount | app/apps/basket/models.py:27-31 | `subtotal − discount` with a discount, and the subtotal without one |
| BasketModels.Basket.AddBasketItem | app/apps/basket/models.py:37-52 | the new items are `AddedItems` of the old; allowed only on a modifiable basket |
| BasketModels.Basket.UpdateBasketItem | app/apps/basket/models.py:54-72 | an absent id leaves the items unchanged. It returns iff `raise_error` is truthy and raises `ValueError` otherwise. A present id gives `UpdatedItems`, under the corrected quantity rule (see Findings) |
| BasketModels.Basket.DeleteBasketItem | app/apps/basket/models.py:74-76 | the new items are the old ones with the id popped |
| BasketModels.VoucherDiscountKeepsAmountInRange | app/apps/basket/models.py:27-31 | a voucher discount within bounds keeps `0 ≤ amount ≤ subtotal` |
| BasketServices.ReserveBasket | app/apps/basket/services.py:4-11 | the status becomes `"reserve"`, a value outside the enum. The call passes, and saves, iff no item has a truthy `reserve_url`; otherwise `ValueError` |
| BasketServices.ItemVerdict | app/apps/basket/services.py:15-17 | an item passes iff its validation is true. A false validation raises "Product validation failed" |
| BasketServices.ValidationOutcome | app/apps/basket/services.py:14-17 | passes iff every item validates; otherwise it fails with the first failing item's error |
| BasketServices.ValidateBasket | app/apps/basket/services.py:14-17 | the loop over `values()` computes `ValidationOutcome` |
| BasketServices.WebhookUrls | app/apps/basket/schemas.py:138-140 | a URL is called iff some item has it as its webhook URL, with at most one call per item |
| BasketServices.WebhookUrlsInOrder | app/apps/basket/schemas.py:138-140 | one item contributes its own URL or nothing, and the URLs of a concatenation are those of its parts in turn: one call per item with a URL, in item order |
| BasketServices.WebhooksCalls | app/apps/basket/services.py:20-22 | every webhook is called once, in map order, until the first failing one, which raises |
| BasketServices.WebhooksUnfold | app/apps/basket/services.py:21-22 | one item's call comes before the rest |
| BasketServices.NotifyItems | app/apps/basket/services.py:29-30 | the loop makes exactly the calls and outcome of `Webhooks` |
| BasketServices.WebhookBasket | app/apps/basket/services.py:20-22 | the webhooks of the basket's values, in order |
| BasketServices.CancelBasket | app/apps/basket/services.py:25-30 | the status becomes `"cancel"`, outside the enum. The basket is saved before any webhook is called |
| TextTools.SchemeLength | app/utils/texttools.py:5 | the scheme is http, https or ftp in any case, followed by `://` |
| TextTools.ValidUrlScheme | app/utils/texttools.py:5 | a valid URL starts with one of the three schemes |
| TextTools.MatchOfParts | app/utils/texttools.py:4-15 | the pattern matches iff the host part is a domain, `localhost` or empty, and the rest is an optional port and a path |
| TextTools.NumericHostRejected | app/utils/texttools.py:6-11 | a non-empty host of digits and dots is neither a domain nor `localhost`, so it is not a host |
| TextTools.IpUrlRejected | app/utils/texttools.py:9 | an IPv4 URL is not valid |
| TextTools.LocalhostUrlAccepted | app/utils/texttools.py:8 | a `localhost` URL with a port and a plain path is valid |
| TextTools.MatchedSchemeAndNetloc | app/utils/texttools.py:18-25 | every string the pattern matches parses with a non-empty scheme. Its netloc is empty exactly when `://` is followed by `/`, a final newline or nothing |
| TextTools.IsValidUrl | app/utils/texttools.py:18-25 | valid iff the pattern matches and `://` is followed by something other than `/` or a final newline: an empty host passes only with a port |
| TextTools.EmptyHostWithPortAccepted | app/utils/texttools.py:6-12 | the empty host alternative: `http://` followed by a port and a path is valid |
| TextTools.EmptyNetlocRefused | app/utils/texttools.py:18-25 | `http:///` followed by a path matches the pattern and is refused by the netloc check alone |
| TextTools.UrlRegexMatch | app/utils/texttools.py:4-15 | `re.match(url_regex, url)` succeeds; no string it accepts contains `?` |
| TextTools.Host | app/utils/texttools.py:6-11 | the host is a domain, `localhost` or empty. It holds only alphanumerics, `-` and `.`, and a non-empty one starts with an alphanumeric |
| TextTools.PortAndPathHasNoQuery | app/utils/texttools.py:12-13 | the port and path contain no `?` |
| TextTools.FirstValues | app/utils/texttools.py:30-31 | `parse_qs` then `v[0]` gives a well-formed dictionary |
| TextTools.FirstValuesSemantics | app/utils/texttools.py:30-31 | each kept key maps to its first non-blank value |
| TextTools.FirstValuesKeepsNonBlank | app/utils/texttools.py:30 | every key with a non-blank value is kept |
| TextTools.FirstValuesKeyOrder | app/utils/texttools.py:29-31 | the kept keys come in the order of their first non-blank occurrence in the query |
| TextTools.PutAll | app/utils/texttools.py:32 | `update` keeps the old keys and adds the new ones |
| TextTools.PutAllValues | app/utils/texttools.py:32 | new values override and untouched keys keep theirs. New keys come after the old ones, in their own order |
| TextTools.AddQueryParams | app/utils/texttools.py:28-35 | only the query is replaced; scheme, netloc, path, params and fragment are kept |
| TextTools.AddQueryParamsSemantics | app/utils/texttools.py:29-34 | new parameters override, and old keys keep their first value. Old keys keep their order and new keys follow |
| TextTools.FirstValuesOfItems | app/utils/texttools.py:30-33 | re-parsing an encoded dictionary with non-blank values gives it back |
| TextTools.AddQueryParamsIdempotent | app/utils/texttools.py:28-35 | adding the same non-blank parameters twice equals adding them once |
| Ipg.IsOpen | app/utils/ipg.py:23-24 | false exactly for FAILED, SUCCESS and REFUNDED |
| Ipg.ParseStatus | app/utils/ipg.py:16-21 | parsing a string gives the status whose value it is |
| Ipg.ParseStatusValue | app/utils/ipg.py:16-21 | every status value parses back to its status |
| Ipg.TryOfReply | app/utils/ipg.py:66 | the try carries the gateway it was created with, whatever the reply says. A missing status defaults to INIT |
| Ipg.NewGatewayRequest | app/utils/ipg.py:39-48 | a gateway request defaults to INIT and carries the given fields |
| Ipg.PaymentIpgUrl | app/utils/ipg.py:51-52 | the URL is the core URL, `/api/`, the gateway and `/v1/payments` |
| Ipg.GatewayOfUrl | app/utils/ipg.py:51-52 | a gateway read back from a URL rebuilds that URL |
| Ipg.GatewayOfPaymentIpgUrl | app/utils/ipg.py:51-52 | reading the gateway back from its URL gives the gateway |
| Ipg.PaymentIpgUrlInjective | app/utils/ipg.py:51-52 | two gateways never share a URL |
| PaymentSchemas.IsOverdue | app/apps/payment/schemas.py:112-117 | overdue iff more than `duration` seconds have passed since creation; the purchase copy (app/apps/purchase/schemas.py:75-80) is the same |
| PaymentSchemas.OverdueStaysOverdue | app/apps/payment/schemas.py:112-117 | once overdue, always overdue; at exactly `created_at + duration` not yet overdue |
| PaymentSchemas.ValidateCreate | app/apps/payment/schemas.py:78-96 | accepted iff the callback URL is valid and a user or wallet id is set. The URL error is reported first; the purchase copy (app/apps/purchase/schemas.py:41-59) is the same |
| PaymentSchemas.CallbackWithQueryRejected | app/apps/payment/schemas.py:89-96 | a callback URL containing `?` is refused |
| PaymentSchemas.NormalizedOriginalAmount | app/apps/payment/schemas.py:129-133 | a zero original amount becomes the amount, and any other is kept; the purchase copy (app/apps/purchase/schemas.py:92-96) is the same |
| PaymentSchemas.NormalizedOriginalAmountIdempotent | app/apps/payment/schemas.py:129-133 | validating twice changes nothing more |
| PaymentSchemas.SerializeStatus | app/apps/payment/schemas.py:135-142 | a status serialises to a value that parses back to it; a string is kept; the purchase copy (app/apps/purchase/schemas.py:98-105) is the same |
| PaymentModels.MarkTry | app/apps/payment/models.py:31-33 | marks exactly the named try with the status and the time; every other try is untouched |
| PaymentModels.SucceedTry | app/apps/payment/models.py:30-39 | the try is marked SUCCESS and the payment becomes SUCCESS. An earlier success keeps its timestamp |
| PaymentModels.FailTry | app/apps/payment/models.py:41-48 | the try is marked FAILED. The payment becomes FAILED only when overdue, even from SUCCESS |
| PaymentModels.ApplyVerdict | app/apps/payment/services.py:117-120 | a verdict other than SUCCESS or FAILED changes nothing |
| PaymentModels.MarkTryKeyedByUid | app/apps/payment/models.py:31-33 | marking a try keeps every try stored under its own uid |
| PaymentModels.ApplyVerdicts | app/apps/payment/services.py:114-120 | the fold keeps the try keys and a well-formed dict |
| PaymentModels.ApplyVerdictsSnoc | app/apps/payment/services.py:114-120 | the fold over one more try applies that try's verdict last |
| PaymentModels.ApplyVerdictsStep | app/apps/payment/services.py:114-120 | the fold over the first `i + 1` tries is the fold over `i` and then one more verdict |
| PaymentModels.LastDecisive | app/apps/payment/services.py:117-120 | the last SUCCESS or FAILED verdict, if there is one |
| PaymentModels.VerifyBeforeDeadline | app/apps/payment/services.py:114-120 | before the deadline the payment ends SUCCESS iff it was SUCCESS or some try reported it. `verified_at` changes only on a first success |
| PaymentModels.VerdictBeforeDeadline | app/apps/payment/models.py:30-48 | before the deadline one verdict can only promote to SUCCESS |
| PaymentModels.VerifyAfterDeadline | app/apps/payment/services.py:114-120 | after the deadline the last decisive verdict decides the status, so a later FAILED try overrides an earlier success |
| PaymentModels.VerifyMarksTries | app/apps/payment/services.py:114-120 | every try with a decisive verdict is marked with it and stamped. Every other try is untouched |
| PaymentModels.Payment.State | app/apps/payment/models.py:10 | the status, verification time and tries of the payment |
| PaymentModels.Payment.constructor | app/apps/payment/schemas.py:103-110 | a new payment is INIT, with no tries and a duration of 3600 unless given. Its original amount is normalised |
| PaymentModels.Payment.NormalizeOriginalAmount | app/apps/payment/schemas.py:129-133 | the original amount is set in place to `NormalizedOriginalAmount` |
| PaymentModels.Payment.IsOverdueAt | app/apps/payment/schemas.py:112-117 | overdue at `now` as `IsOverdue` says |
| PaymentModels.Payment.Success | app/apps/payment/models.py:19-23 | unconditionally SUCCESS, stamped, with the reference id; the purchase copy (app/apps/purchase/models.py:19-23) is the same |
| PaymentModels.Payment.Fail | app/apps/payment/models.py:25-28 | unconditionally FAILED, with the reason; the purchase copy (app/apps/purchase/models.py:25-28) is the same |
| PaymentModels.Payment.SuccessPurchase | app/apps/payment/models.py:30-39 | an unknown try raises `AttributeError` and changes nothing; otherwise the state becomes `SucceedTry` of the old; the purchase copy (app/apps/purchase/models.py:30-40) is the same |
| PaymentModels.Payment.FailPurchase | app/apps/payment/models.py:41-48 | an unknown try raises `AttributeError` and changes nothing; otherwise the state becomes `FailTry` of the old; the purchase copy (app/apps/purchase/models.py:42-50) is the same |
| PaymentModels.Payment.IsSuccessful | app/apps/payment/models.py:50-52 | true iff the status is SUCCESS, which is a closed status; the purchase copy (app/apps/purchase/models.py:52-54) is the same |
| PaymentServices.VerifyCallbackUrl | app/apps/payment/services.py:54-56 | the callback is the core URL and base path, the kind's collection, the uid and `/verify`; the uid reads back from between them. The purchase copy (app/apps/purchase/services.py:55-57) uses `/purchases/` |
| PaymentServices.StartUrl | app/apps/payment/services.py:78 | the start URL is the gateway URL, `/`, the try's uid and `/start`; the uid reads back from between them |
| PaymentServices.TryUrl | app/apps/payment/services.py:88-91 | a try is queried at the gateway URL and its uid, joined by `/`; the uid reads back after the separator |
| PaymentServices.Start | app/apps/payment/services.py:26-79 | overdue: FAILED, refused with `payment_overdue`, whatever the prior status. Not open: refused with `invalid_payment`, unchanged. Zero amount: the verify callback, unchanged. Otherwise one request with the defaulted amount, one try stored under its uid, PENDING, and the start URL; the purchase copy (app/apps/purchase/services.py:27-80) is the same, with `purchase_overdue`, `invalid_purchase` and `/purchases/` |
| PaymentServices.TryVerdict | app/apps/payment/services.py:82-96 | a closed try gives its stored status without a gateway call. An open try gives the reported status, or the gateway's error; the purchase copy (app/apps/purchase/services.py:83-97) is the same |
| PaymentServices.GatherVerdicts | app/apps/payment/services.py:109-112 | succeeds iff every try's verdict does, with one verdict per try in order; otherwise one of the errors |
| PaymentServices.Verify | app/apps/payment/services.py:99-122 | zero amount: SUCCESS with no reference. A gateway error: raised, nothing changed. Otherwise the state becomes the fold of the verdicts over the tries in order; the purchase copy (app/apps/purchase/services.py:100-125) is the same, with the corrected method names |
| PaymentServices.ApplyVerdictsTo | app/apps/payment/services.py:114-120 | the loop over the tries computes `ApplyVerdicts` |
| PaymentServices.ApplyNextVerdict | app/apps/payment/services.py:117-120 | one loop step extends the fold by one try |
| PaymentServices.ApplyVerdictTo | app/apps/payment/services.py:117-120 | one verdict goes to `success_purchase` or `fail_purchase`, as `ApplyVerdict` says |
| PaymentServices.ReverifyKeepsVerdicts | app/apps/payment/services.py:85-86 | a try closed by a verdict reports that verdict again without a gateway call |
| PaymentServices.CreateProposal | app/apps/payment/services.py:125-161 | zero amount: no proposal. A missing or short balance: 402 `insufficient_funds`. Otherwise a proposal from the payer wallet to the tenant wallet for the amount, currency and description; the purchase copy (app/apps/purchase/services.py:128-164) is the same |
| PaymentServices.RedirectParams | app/apps/payment/routes.py:182-185 | the redirect parameters form a well-formed dictionary |
| PaymentServices.RedirectCarriesStatus | app/apps/payment/routes.py:182-185 | the redirect query carries the payment id, and a status that parses back to the new status |
| PaymentServices.VerifyRoute | app/apps/payment/routes.py:171-197 | the payment ends as `verify` leaves it. The result is an error iff gathering the verdicts fails or the PENDING-to-SUCCESS move meets a `create_proposal` error, and that error is returned. Otherwise it redirects to the callback with the id and status, with a proposal iff the status went from PENDING to SUCCESS; the purchase copy (app/apps/purchase/routes.py:179-205) is the same |
| PaymentServices.ApplyVerdictsAsWritten | app/apps/purchase/services.py:117-123 | as written, the loop raises `AttributeError` exactly when some try has a decisive verdict |
| PaymentServices.NoDecisiveVerdictNoChange | app/apps/purchase/services.py:117-123 | without a decisive verdict, both readings leave the purchase unchanged |
| PaymentServices.PurchaseSuccessLostAsWritten | app/apps/purchase/services.py:117-123 | a try reported SUCCESS makes the code as written raise, where the corrected fold makes the purchase SUCCESS |
| Saas.NewBundle | app/utils/saas.py:13-17 | `order` defaults to 1 and must be 0, 1 or 2 |
| Saas.NormalTypes | app/utils/saas.py:41-50 | five types, borrowed not among them |
| Saas.NormalTypesAreNotBorrowed | app/utils/saas.py:41-50 | the normal types are exactly the types other than borrowed |
| Saas.ValidateBundleItems | app/utils/saas.py:55 | the list is accepted iff every bundle is, and keeps them in order |
| Saas.ValidateBundles | app/utils/saas.py:89-94 | an empty list is refused with "Bundles are required". Otherwise the list is kept: each result is its input bundle validated (`NewBundle`), with asset, quota and unit carried and a missing order set to 1 |
| Saas.ValidateStatus | app/utils/saas.py:62 | `active` or `inactive`, defaulting to `active` |
| Saas.ValidateFields | app/utils/saas.py:53-70 | defaults: price 0, start now, acquisition purchased, status active |
| Saas.ValidateEnrollmentCreate | app/utils/saas.py:72-82 | refused iff both an expiry and a truthy duration are given, once the fields are valid |
| Saas.ValidateEnrollment | app/utils/saas.py:112-122 | accepts both ends. A borrowed enrollment without a due date is refused. An unset `paid_at` becomes false for a borrowed enrollment and stays unset otherwise |
| Saas.CreatedEnrollmentRevalidates | app/utils/saas.py:97-122 | what creation accepts, storage accepts too, given a due date for a borrowed enrollment, with the same fields |
| Saas.BothEndsAcceptedOnlyWhenStored | app/utils/saas.py:112-114 | the override accepts an enrollment that creation refuses |

## Left out

- **HTTP and gateway calls are parameters.** The calls are `create_payment`, the gateway `GET` per try, the wallet lookup and the tenant lookup in `create_proposal`, `validate_product`'s fetch, `webhook_product`, and `reserve_product`. Their results are the parameters `reply`, `gateway`, `balances`, `tenantWallet`, `responses` and `failing`. Database saves are the `saved` out-parameters or are not modelled.
- **Wall-clock time is the parameter `now`.** Python reads the clock twice in `success_purchase`; the model uses one reading for both stamps. The naive-timezone handling in `is_overdue` is not modelled: times are absolute seconds.
- **`asyncio.gather` is a sequential map over the tries.** When several gateway calls fail, the model reports the first in key order, where Python reports whichever fails first.
- **The URL pattern is rebuilt by hand.** `re.IGNORECASE` is applied to ASCII letters only, and `\d` is ASCII digits. `urlparse` is modelled only as far as `is_valid_url` needs (scheme and netloc). `add_query_params` takes the callback URL already parsed into its six parts, and the query as a list of pairs. Percent-encoding by `urlencode` is not modelled.
- **`is_valid_url`'s second check refuses only an empty netloc.** The host group `(?:domain|localhost|)` ends in an empty alternative, so `http://:8080/x` is valid and `http:///x` matches the pattern; the netloc check then refuses the second (`MatchedSchemeAndNetloc`, `EmptyNetlocRefused`). The pattern also rejects any URL with a query string, and any path containing `.`. Both are the code's behaviour, not the model's.
- **`payment/services.py` cannot be imported.** At line 11 it imports `create_purchase` and `get_purchase_ipg_url`, which `utils/ipg.py` does not define. The model uses `create_payment` / `get_payment_ipg_url` for both copies.
- **`basket/routes.py:178` passes `single=`**, which `add_basket_item` does not accept. The model follows the method's own `exclusive` parameter.
- BasketModels.AddedItems: a merge does not remove a line whose quantity reaches 0 or below, because the code only adds to the quantity. Positivity is kept only for positive additions (`AddKeepsQuantitiesPositive`).
- **The basket no-ops are left out.** `create_payment_detail`, `purchase_basket` and `checkout_basket` do nothing.
- **No apply-discount or checkout logic is modelled.** `apply_discount` is imported by `basket/routes.py` but is not part of this model.
- BasketModels.Basket.UpdateBasketItem: follows the corrected quantity rule (`NewQuantity`). For `{new_quantity: 0}` the code as written raises `TypeError`; `NewQuantityAsWritten` and `ZeroNewQuantityRaises` state that path (see Findings).
- BasketSchemas.ValidateProduct: the reported price is compared as a number with the unit price. The code compares the raw JSON value, a float or a string, with a `Decimal`, so a string or an inexact float never equals it. JSON types and binary floats are not modelled.
- PaymentSchemas.SerializeStatus: the `str(value)` branch for other objects is left out; only enum members and strings are modelled.
- **Pydantic coercion is not modelled.** This covers `decimal_amount` and the parsing of datetimes and numbers from strings; values arrive already typed. A voucher's `currency` is a string that is not checked against the `Currency` enumeration, and its random default `code` is a parameter.
- **`EnrollmentSchema.summary` / `summaries` are left out:** they are clock-dependent formatting.
- **`Bundle.quota` is not validated.** Its normaliser is foreign code.
- **Some fields are not carried.** `invoice_id`, the payment's `tenant_id`, the voucher's `meta_data` and the tenant fields a stored voucher inherits are left out. `meta_data` and `variant` are carried on basket items as string maps, and `limited_products` on vouchers, but no modelled operation reads `limited_products`.
- PaymentServices.Verify: relies on an invariant. It requires every try to be stored under its own uid (`KeyedByUid`). `start` keeps that invariant. A payment loaded with tries under other keys is not modelled.
- PaymentServices.GatherVerdicts: on failure it names the error of some failing try, not which one Python would surface first.
- **Routes and the rest of the application are not part of this model.** The routes are modelled only through the verify route and the `is_modifiable` preconditions of the basket methods (basket/routes.py:176-177, 192-193, 204-205).

## Findings

| source | as written | input that shows it | evidently intended | confidence | as-written member | corrected member |
|---|---|---|---|---|---|---|
| app/apps/basket/models.py:64-67 | `if data.new_quantity:` treats `new_quantity = 0` as absent, then adds `quantity_change`, which the validator guarantees is `None` | change `{new_quantity: 0}` on any item | setting the quantity to 0 removes the item | not executed | BasketModels.ZeroNewQuantityRaises | BasketModels.UpdatedItems |
| app/apps/purchase/services.py:117-123 | the loop calls `purchase.success_payment` / `purchase.fail_payment`, but `Purchase` only defines `success_purchase` / `fail_purchase` | a purchase with one open try that the gateway reports SUCCESS | the try's verdict is applied, and the purchase becomes SUCCESS | not executed | PaymentServices.PurchaseSuccessLostAsWritten | PaymentServices.Verify |
