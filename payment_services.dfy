/**
 * The payment and purchase services (app/apps/purchase/services.py and its
 * copy app/apps/payment/services.py) and the verify endpoint that drives them
 * (the `verify_*` handlers of the two routes files).  The accounting service
 * is replaced by values passed in: the gateway's reply when a try is opened,
 * a function from URL to reply when tries are verified, and the wallet's
 * balances and the tenant's wallet when a proposal is made.
 */
module PaymentServices {
  import opened Wrappers
  import opened PyDict
  import opened Ipg
  import opened TextTools
  import opened PaymentSchemas
  import opened PaymentModels

  // ---------------------------------------------------------------------------
  // start_purchase / start_payment

  /** The dictionary `start_*` returns: a refusal with its message and error code, or where to go. */
  datatype StartReply = Refused(message: string, error: string) | Redirect(uid: string, url: string)

  /**
   * The URL the gateway calls back: `{core_url}{base_path}/{noun}s/{uid}/verify`.
   * The uid is read back between the collection prefix and "/verify".
   */
  function VerifyCallbackUrl(coreUrl: string, basePath: string, kind: Kind, uid: string): (r: string)
    ensures var prefix := coreUrl + basePath + "/" + kind.Noun() + "s/";
      && |r| == |prefix| + |uid| + 7
      && r[..|prefix|] == prefix && r[|prefix|..|r| - 7] == uid && r[|r| - 7..] == "/verify"
  {
    coreUrl + basePath + "/" + kind.Noun() + "s/" + uid + "/verify"
  }

  /** Where a try is queried: the gateway URL and the try's uid, joined by '/'. */
  function TryUrl(coreUrl: string, t: Try): (r: string)
    ensures var base := PaymentIpgUrl(coreUrl, t.ipg);
      |r| == |base| + 1 + |t.uid| && r[..|base|] == base && r[|base|] == '/' && r[|base| + 1..] == t.uid
  {
    PaymentIpgUrl(coreUrl, t.ipg) + "/" + t.uid
  }

  /** Where the payer is sent to pay a new try: the try's uid under the gateway URL, then "/start". */
  function StartUrl(coreUrl: string, ipg: string, tryUid: string): (r: string)
    ensures var base := PaymentIpgUrl(coreUrl, ipg) + "/";
      && |r| == |base| + |tryUid| + 6
      && r[..|base|] == base && r[|base|..|r| - 6] == tryUid && r[|r| - 6..] == "/start"
  {
    PaymentIpgUrl(coreUrl, ipg) + "/" + tryUid + "/start"
  }

  function OverdueMessage(kind: Kind): string {
    kind.Title() + " is overdue"
  }

  /**
   * `start_*`.  An overdue payment is failed whatever its status, even
   * SUCCESS; a payment that is no longer open is refused; a zero amount goes
   * straight to the verify callback; otherwise a try is opened at the gateway
   * (whose reply, or error, is `reply`), stored under its uid, and the payment
   * becomes PENDING.
   */
  method Start(p: Payment, coreUrl: string, basePath: string, ipg: string, amount: Option<real>,
               userId: Option<string>, phone: Option<string>, reply: Result<TryReply>, now: int)
    returns (r: Result<StartReply>, sent: Option<GatewayRequest>)
    requires p.Valid()
    modifies p`status, p`failureReason, p`tries
    ensures p.Valid()
    ensures p.IsOverdueAt(now) ==>
      && r == Ok(Refused(OverdueMessage(p.kind), p.kind.Noun() + "_overdue"))
      && sent.None? && p.status == Failed && p.failureReason == Some(OverdueMessage(p.kind))
      && p.tries == old(p.tries)
    ensures !p.IsOverdueAt(now) && !IsOpen(old(p.status)) ==>
      && r == Ok(Refused(p.kind.Title() + " was " + old(p.status).Value(), "invalid_" + p.kind.Noun()))
      && sent.None? && unchanged(p)
    ensures !p.IsOverdueAt(now) && IsOpen(old(p.status)) ==>
      (var amt := if amount.Some? then amount.value else p.amount;
       var callback := VerifyCallbackUrl(coreUrl, basePath, p.kind, p.uid);
       && (amt == 0.0 ==> r == Ok(Redirect(p.uid, callback)) && sent.None? && unchanged(p))
       && (amt != 0.0 ==>
            && sent == Some(NewGatewayRequest(userId, p.walletId, amt, phone, p.description, callback))
            && (reply.Err? ==> r == Err(reply.error) && unchanged(p))
            && (reply.Ok? ==>
                 var t := TryOfReply(reply.value, ipg);
                 && r == Ok(Redirect(p.uid, StartUrl(coreUrl, ipg, t.uid)))
                 && p.status == Pending && p.failureReason == old(p.failureReason)
                 && p.tries == Put(old(p.tries), t.uid, t))))
  {
    sent := None;
    if p.IsOverdueAt(now) {
      p.Fail(Some(OverdueMessage(p.kind)));
      return Ok(Refused(OverdueMessage(p.kind), p.kind.Noun() + "_overdue")), None;
    }
    var amt := if amount.Some? then amount.value else p.amount;
    if !IsOpen(p.status) {
      return Ok(Refused(p.kind.Title() + " was " + p.status.Value(), "invalid_" + p.kind.Noun())), None;
    }
    var callback := VerifyCallbackUrl(coreUrl, basePath, p.kind, p.uid);
    if amt == 0.0 {
      return Ok(Redirect(p.uid, callback)), None;
    }
    sent := Some(NewGatewayRequest(userId, p.walletId, amt, phone, p.description, callback));
    if reply.Err? {
      return Err(reply.error), sent;
    }
    var t := TryOfReply(reply.value, ipg);
    p.tries := Put(p.tries, t.uid, t);
    p.status := Pending;
    r := Ok(Redirect(p.uid, StartUrl(coreUrl, ipg, t.uid)));
  }

  // ---------------------------------------------------------------------------
  // verify_payment (one try) and verify_purchase (the whole document)

  /**
   * The verdict on one try: a try that is no longer open keeps its status
   * without a query; an open one is looked up at its gateway, where an HTTP
   * failure raises, and a reply that names its own `ipg` collides with the
   * `ipg=` keyword and raises a TypeError; a reply without a status reads INIT.
   */
  function TryVerdict(t: Try, coreUrl: string, gateway: string -> Result<TryReply>): (r: Result<PaymentStatus>)
    ensures !IsOpen(t.status) ==> r == Ok(t.status)
    ensures r.Ok? && IsOpen(t.status) ==>
      gateway(TryUrl(coreUrl, t)).Ok? && r.value == TryOfReply(gateway(TryUrl(coreUrl, t)).value, t.ipg).status
    ensures r.Err? ==>
      IsOpen(t.status) && (gateway(TryUrl(coreUrl, t)).Err? || gateway(TryUrl(coreUrl, t)).value.ipg.Some?)
  {
    if !IsOpen(t.status) then Ok(t.status)
    else
      match gateway(TryUrl(coreUrl, t))
      case Err(e) => Err(e)
      case Ok(reply) =>
        if reply.ipg.Some? then Err(TypeError("got multiple values for keyword argument 'ipg'"))
        else Ok(TryOfReply(reply, t.ipg).status)
  }

  /**
   * The gathered verdicts on the tries in order; any failing query fails the
   * whole gathering, with the error of the first failing try.
   */
  function GatherVerdicts(ts: seq<Try>, coreUrl: string, gateway: string -> Result<TryReply>)
    : (r: Result<seq<PaymentStatus>>)
    ensures r.Ok? <==> forall i :: 0 <= i < |ts| ==> TryVerdict(ts[i], coreUrl, gateway).Ok?
    ensures r.Ok? ==> |r.value| == |ts|
    ensures r.Ok? ==> forall i :: 0 <= i < |ts| ==> TryVerdict(ts[i], coreUrl, gateway) == Ok(r.value[i])
    ensures r.Err? ==> exists i :: 0 <= i < |ts| && TryVerdict(ts[i], coreUrl, gateway) == Err(r.error)
  {
    if ts == [] then Ok([])
    else
      assert forall i :: 0 < i < |ts| ==> ts[i] == ts[1..][i - 1];
      match TryVerdict(ts[0], coreUrl, gateway)
      case Err(e) => Err(e)
      case Ok(v) =>
        match GatherVerdicts(ts[1..], coreUrl, gateway)
        case Err(e) =>
          ghost var i :| 0 <= i < |ts[1..]| && TryVerdict(ts[1..][i], coreUrl, gateway) == Err(e);
          assert TryVerdict(ts[i + 1], coreUrl, gateway) == Err(e);
          Err(e)
        case Ok(vs) => Ok([v] + vs)
  }

  /**
   * `verify_*`: a zero amount succeeds outright, whatever the status was;
   * otherwise every try is judged, and, when no query failed, the verdicts
   * are applied in key order as `ApplyVerdicts` says.
   */
  method Verify(p: Payment, coreUrl: string, gateway: string -> Result<TryReply>, now: int) returns (r: Outcome)
    requires p.Valid()
    modifies p`tries, p`status, p`verifiedAt, p`refId
    ensures p.Valid()
    ensures p.amount == 0.0 ==>
      r == Pass && p.status == Ipg.Success && p.verifiedAt == Some(now) && p.refId.None? && p.tries == old(p.tries)
    ensures p.amount != 0.0 ==>
      var g := GatherVerdicts(Values(old(p.tries)), coreUrl, gateway);
      && p.refId == old(p.refId)
      && (g.Err? ==> r == Outcome.Fail(g.error) && p.State() == old(p.State()))
      && (g.Ok? ==> r == Pass)
      && (g.Ok? ==> p.State() == ApplyVerdicts(old(p.State()), old(p.tries.keys), g.value, p.IsOverdueAt(now), now))
  {
    if p.amount == 0.0 {
      p.Success(None, now);
      return Pass;
    }
    var g := GatherVerdicts(Values(p.tries), coreUrl, gateway);
    if g.Err? {
      return Outcome.Fail(g.error);
    }
    ApplyVerdictsTo(p, g.value, now);
    r := Pass;
  }

  /** The verification loop: the verdicts vs, one per try, applied in key order. */
  method ApplyVerdictsTo(p: Payment, vs: seq<PaymentStatus>, now: int)
    requires p.Valid() && |vs| == |p.tries.keys|
    modifies p`tries, p`status, p`verifiedAt
    ensures p.Valid()
    ensures p.State() == ApplyVerdicts(old(p.State()), old(p.tries.keys), vs, p.IsOverdueAt(now), now)
  {
    ghost var l0 := p.State();
    var keys := p.tries.keys;
    var i := 0;
    assert TriesCover(l0, keys);
    while i < |keys|
      invariant 0 <= i <= |keys|
      invariant p.Valid() && p.tries.keys == keys
      invariant TriesCover(l0, keys[..i])
      invariant p.State() == ApplyVerdicts(l0, keys[..i], vs[..i], p.IsOverdueAt(now), now)
    {
      ApplyNextVerdict(p, l0, keys, vs, i, now);
      i := i + 1;
    }
    assert keys[..i] == keys && vs[..i] == vs;
  }

  /** The body of the verification loop: after verdict i, the state is the fold of verdicts 0..i. */
  method ApplyNextVerdict(p: Payment, ghost l0: Ledger, keys: seq<string>, vs: seq<PaymentStatus>, i: nat, now: int)
    requires |keys| == |vs| && i < |keys| && TriesCover(l0, keys)
    requires p.Valid() && p.tries.keys == keys
    requires TriesCover(l0, keys[..i]) && p.State() == ApplyVerdicts(l0, keys[..i], vs[..i], p.IsOverdueAt(now), now)
    modifies p`tries, p`status, p`verifiedAt
    ensures p.Valid() && p.tries.keys == keys
    ensures TriesCover(l0, keys[..i + 1])
    ensures p.State() == ApplyVerdicts(l0, keys[..i + 1], vs[..i + 1], p.IsOverdueAt(now), now)
  {
    var trial := p.tries.entries[keys[i]];
    ApplyVerdictsStep(l0, keys, vs, i, p.IsOverdueAt(now), now);
    ApplyVerdictTo(p, trial.uid, vs[i], now);
  }

  /** One pass of the verification loop: `success_*` on a SUCCESS verdict, `fail_*` on a FAILED one. */
  method ApplyVerdictTo(p: Payment, uid: string, v: PaymentStatus, now: int)
    requires p.Valid() && uid in p.tries.entries
    modifies p`tries, p`status, p`verifiedAt
    ensures p.Valid()
    ensures p.State() == ApplyVerdict(old(p.State()), uid, v, p.IsOverdueAt(now), now)
  {
    if v == Ipg.Success {
      var outcome := p.SuccessPurchase(uid, now);
    } else if v == Failed {
      var outcome := p.FailPurchase(uid, now);
    }
  }

  /**
   * A try that verification marked keeps its verdict: judging it again
   * needs no query and gives the same status, whatever the gateway says.
   */
  lemma ReverifyKeepsVerdicts(l: Ledger, uids: seq<string>, vs: seq<PaymentStatus>, overdue: bool, now: int,
                              coreUrl: string, gateway: string -> Result<TryReply>)
    requires |uids| == |vs| && TriesCover(l, uids) && Distinct(uids)
    ensures forall i :: 0 <= i < |uids| && Decisive(vs[i]) ==>
      TryVerdict(ApplyVerdicts(l, uids, vs, overdue, now).tries.entries[uids[i]], coreUrl, gateway) == Ok(vs[i])
  {
    VerifyMarksTries(l, uids, vs, overdue, now);
  }

  // ---------------------------------------------------------------------------
  // create_proposal

  /** A wallet balance in one currency. */
  datatype Balance = Balance(available: real, total: real)

  /** The proposal asked of the accounting service: move the amount to the tenant's wallet. */
  datatype Proposal = Proposal(fromWalletId: string, toWalletId: string, currency: string,
                               amount: real, description: string)

  const InsufficientFunds: Error := HttpError(402, "insufficient_funds")

  /**
   * `create_proposal`, with the payer wallet's balances by currency and the
   * tenant's wallet (None when no tenant is found) passed in: nothing for a
   * zero amount, a 402 error when the currency's available balance is missing
   * or short, and otherwise a proposal for the whole amount.
   */
  function CreateProposal(p: Payment, balances: map<string, Balance>, tenantWallet: Option<string>)
    : (r: Result<Option<Proposal>>)
    ensures p.amount == 0.0 ==> r == Ok(None)
    ensures p.amount != 0.0 && (p.currency !in balances || balances[p.currency].available < p.amount) ==>
      r == Err(InsufficientFunds)
    ensures (p.amount != 0.0 && p.currency in balances && balances[p.currency].available >= p.amount
             && tenantWallet.None?) ==> r == Err(AttributeError("wallet_id"))
    ensures r.Ok? && r.value.Some? ==>
      && p.currency in balances && balances[p.currency].available >= p.amount && tenantWallet.Some?
      && r.value.value == Proposal(p.walletId, tenantWallet.value, p.currency, p.amount, p.description)
  {
    if p.amount == 0.0 then Ok(None)
    else if p.currency !in balances || balances[p.currency].available < p.amount then Err(InsufficientFunds)
    else if tenantWallet.None? then Err(AttributeError("wallet_id"))
    else Ok(Some(Proposal(p.walletId, tenantWallet.value, p.currency, p.amount, p.description)))
  }

  // ---------------------------------------------------------------------------
  // The verify endpoint

  /** The parameters added to the callback URL: `{noun}_id` and `status`. */
  function RedirectParams(kind: Kind, uid: string, status: PaymentStatus): (d: Dict<string>)
    ensures d.Valid()
  {
    Put(Put(Empty(), kind.Noun() + "_id", uid), "status", status.Value())
  }

  /**
   * The merchant reads the outcome off the redirect: its query names the
   * payment and carries a status value that parses back to the status.
   */
  lemma RedirectCarriesStatus(callback: Url, kind: Kind, uid: string, status: PaymentStatus)
    ensures var q := MergedParams(callback, RedirectParams(kind, uid, status)).entries;
      kind.Noun() + "_id" in q && q[kind.Noun() + "_id"] == uid
    ensures var q := MergedParams(callback, RedirectParams(kind, uid, status)).entries;
      "status" in q && ParseStatus(q["status"]) == Some(status)
  {
    var d := RedirectParams(kind, uid, status);
    assert kind.Noun() + "_id" != "status" by {
      assert (kind.Noun() + "_id")[0] == 'p' != 's' == "status"[0];
    }
    assert d.entries[kind.Noun() + "_id"] == uid;
    assert d.entries["status"] == status.Value();
    AddQueryParamsSemantics(callback, d);
    ParseStatusValue(status);
  }

  /**
   * The verify endpoint, with the callback URL already parsed: verification,
   * then the redirect to the callback with the id and status, and a proposal
   * only when this call moved a PENDING payment to SUCCESS.  Exceptions
   * propagate as `Err`.
   */
  method VerifyRoute(p: Payment, coreUrl: string, gateway: string -> Result<TryReply>, callback: Url,
                     balances: map<string, Balance>, tenantWallet: Option<string>, now: int)
    returns (r: Result<Url>, proposal: Option<Proposal>)
    requires p.Valid()
    modifies p`tries, p`status, p`verifiedAt, p`refId
    ensures p.Valid()
    ensures r.Ok? ==> r.value == AddQueryParams(callback, RedirectParams(p.kind, p.uid, p.status))
    ensures proposal.Some? ==>
      && old(p.status) == Pending && p.status == Ipg.Success && r.Ok?
      && CreateProposal(p, balances, tenantWallet) == Ok(proposal)
    ensures r.Ok? && old(p.status) == Pending && p.status == Ipg.Success ==>
      CreateProposal(p, balances, tenantWallet) == Ok(proposal)
    ensures p.amount == 0.0 ==>
      p.status == Ipg.Success && p.verifiedAt == Some(now) && p.refId.None? && p.tries == old(p.tries)
    ensures p.amount != 0.0 ==>
      var g := GatherVerdicts(Values(old(p.tries)), coreUrl, gateway);
      && p.refId == old(p.refId)
      && (g.Err? ==> r == Err(g.error) && proposal.None? && p.State() == old(p.State()))
      && (g.Ok? ==> p.State() == ApplyVerdicts(old(p.State()), old(p.tries.keys), g.value, p.IsOverdueAt(now), now))
    ensures r.Err? <==>
      || (p.amount != 0.0 && GatherVerdicts(Values(old(p.tries)), coreUrl, gateway).Err?)
      || (old(p.status) == Pending && p.status == Ipg.Success && CreateProposal(p, balances, tenantWallet).Err?)
    ensures old(p.status) == Pending && p.status == Ipg.Success && CreateProposal(p, balances, tenantWallet).Err? ==>
      r == Err(CreateProposal(p, balances, tenantWallet).error) && proposal.None?
  {
    var before := p.status;
    var outcome := Verify(p, coreUrl, gateway, now);
    proposal := None;
    if outcome.Fail? {
      return Err(outcome.error), None;
    }
    var redirect := AddQueryParams(callback, RedirectParams(p.kind, p.uid, p.status));
    if p.status == Ipg.Success && before == Pending {
      var created := CreateProposal(p, balances, tenantWallet);
      if created.Err? {
        return Err(created.error), None;
      }
      proposal := created.value;
    }
    r := Ok(redirect);
  }

  // ---------------------------------------------------------------------------
  // The purchase verification loop as written

  /**
   * app/apps/purchase/services.py calls `success_payment` and `fail_payment`,
   * which `Purchase` does not define: the first SUCCESS or FAILED verdict
   * raises an AttributeError, before anything is saved.
   */
  function ApplyVerdictsAsWritten(l: Ledger, vs: seq<PaymentStatus>): (r: Result<Ledger>)
    ensures r.Err? <==> LastDecisive(vs).Some?
    ensures r.Ok? ==> r.value == l
  {
    if vs == [] then Ok(l)
    else if vs[0] == Ipg.Success then Err(AttributeError("success_payment"))
    else if vs[0] == Failed then Err(AttributeError("fail_payment"))
    else
      assert LastDecisive(vs).Some? <==> LastDecisive(vs[1..]).Some?;
      ApplyVerdictsAsWritten(l, vs[1..])
  }

  /**
   * Without a SUCCESS or FAILED verdict verification changes nothing, as
   * written and as intended alike.
   */
  lemma {:induction false} NoDecisiveVerdictNoChange(l: Ledger, uids: seq<string>, vs: seq<PaymentStatus>,
                                                    overdue: bool, now: int)
    requires |uids| == |vs| && TriesCover(l, uids) && LastDecisive(vs).None?
    ensures ApplyVerdicts(l, uids, vs, overdue, now) == l
    ensures ApplyVerdictsAsWritten(l, vs) == Ok(l)
    decreases |uids|
  {
    if uids != [] {
      assert !Decisive(vs[0]);
      assert LastDecisive(vs[1..]).None?;
      NoDecisiveVerdictNoChange(l, uids[1..], vs[1..], overdue, now);
    }
  }

  /**
   * The discrepancy: a purchase still within its deadline whose gateway
   * reports a try as SUCCESS is never verified as written, while the intended
   * loop makes it SUCCESS.
   */
  lemma PurchaseSuccessLostAsWritten(l: Ledger, uids: seq<string>, vs: seq<PaymentStatus>, now: int)
    requires |uids| == |vs| && TriesCover(l, uids) && Ipg.Success in vs
    ensures ApplyVerdictsAsWritten(l, vs).Err?
    ensures ApplyVerdicts(l, uids, vs, false, now).status == Ipg.Success
  {
    var i :| 0 <= i < |vs| && vs[i] == Ipg.Success;
    assert Decisive(vs[i]);
    VerifyBeforeDeadline(l, uids, vs, now);
  }
}
