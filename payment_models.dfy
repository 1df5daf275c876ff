/**
 * The payment and purchase documents (app/apps/payment/models.py and
 * app/apps/purchase/models.py, identical up to the noun): a status, the
 * verification time and the tries made at gateways, and the operations that
 * move them.  Saving to the database is left out; the clock is the `now`
 * parameter.
 */
module PaymentModels {
  import opened Wrappers
  import opened PyDict
  import opened Ipg
  import opened PaymentSchemas

  // ---------------------------------------------------------------------------
  // The verification state, as a value

  /** The part of a payment that verification changes. */
  datatype Ledger = Ledger(status: PaymentStatus, verifiedAt: Option<int>, tries: Dict<Try>)

  /** Try `uid` takes status s and is stamped with `now`; the key order is kept. */
  function MarkTry(tries: Dict<Try>, uid: string, s: PaymentStatus, now: int): (r: Dict<Try>)
    requires tries.Valid() && uid in tries.entries
    ensures r.Valid() && r.keys == tries.keys
    ensures r.entries == tries.entries[uid := tries.entries[uid].(status := s, verifiedAt := Some(now))]
  {
    Put(tries, uid, tries.entries[uid].(status := s, verifiedAt := Some(now)))
  }

  /**
   * `success_purchase(uid)` on a present try: the try succeeds, and the
   * payment becomes SUCCESS stamped with `now` unless it already was, in
   * which case its first verification time is kept.
   */
  function SucceedTry(l: Ledger, uid: string, now: int): (r: Ledger)
    requires l.tries.Valid() && uid in l.tries.entries
    ensures r.status == Success
    ensures l.status == Success ==> r.verifiedAt == l.verifiedAt
    ensures l.status != Success ==> r.verifiedAt == Some(now)
    ensures r.tries == MarkTry(l.tries, uid, Success, now)
  {
    var tries := MarkTry(l.tries, uid, Success, now);
    if l.status == Success then l.(tries := tries) else Ledger(Success, Some(now), tries)
  }

  /**
   * `fail_purchase(uid)` on a present try: the try fails; the payment becomes
   * FAILED only when it is overdue, and then even if it had succeeded.
   */
  function FailTry(l: Ledger, uid: string, overdue: bool, now: int): (r: Ledger)
    requires l.tries.Valid() && uid in l.tries.entries
    ensures overdue ==> r.status == Failed
    ensures !overdue ==> r.status == l.status
    ensures r.verifiedAt == l.verifiedAt
    ensures r.tries == MarkTry(l.tries, uid, Failed, now)
  {
    Ledger(if overdue then Failed else l.status, l.verifiedAt, MarkTry(l.tries, uid, Failed, now))
  }

  /** A gateway verdict that changes something: SUCCESS or FAILED. */
  predicate Decisive(v: PaymentStatus) {
    v == Success || v == Failed
  }

  /** One step of the verification loop: act on a SUCCESS or FAILED verdict, ignore any other. */
  function ApplyVerdict(l: Ledger, uid: string, v: PaymentStatus, overdue: bool, now: int): (r: Ledger)
    requires l.tries.Valid() && uid in l.tries.entries
    ensures r.tries.Valid() && r.tries.keys == l.tries.keys
    ensures !Decisive(v) ==> r == l
  {
    if v == Success then SucceedTry(l, uid, now)
    else if v == Failed then FailTry(l, uid, overdue, now)
    else l
  }

  /** Every try is stored under its own uid. */
  ghost predicate KeyedByUid(tries: Dict<Try>) {
    forall k :: k in tries.entries ==> tries.entries[k].uid == k
  }

  /** Marking a try keeps every try under its own uid. */
  lemma MarkTryKeyedByUid(tries: Dict<Try>, uid: string, s: PaymentStatus, now: int)
    requires tries.Valid() && uid in tries.entries && KeyedByUid(tries)
    ensures KeyedByUid(MarkTry(tries, uid, s, now))
  {
  }

  /** Every name in uids is a try of l. */
  ghost predicate TriesCover(l: Ledger, uids: seq<string>) {
    l.tries.Valid() && forall i :: 0 <= i < |uids| ==> uids[i] in l.tries.entries
  }

  /** The verification loop over the tries uids, each with its verdict, in order. */
  function ApplyVerdicts(l: Ledger, uids: seq<string>, vs: seq<PaymentStatus>, overdue: bool, now: int): (r: Ledger)
    requires |uids| == |vs| && TriesCover(l, uids)
    ensures r.tries.Valid() && r.tries.keys == l.tries.keys
    decreases |uids|
  {
    if uids == [] then l
    else
      var next := ApplyVerdict(l, uids[0], vs[0], overdue, now);
      ApplyVerdicts(next, uids[1..], vs[1..], overdue, now)
  }

  /** The loop read one step at a time: the verdicts so far, then one more. */
  lemma {:induction false} ApplyVerdictsSnoc(l: Ledger, uids: seq<string>, vs: seq<PaymentStatus>,
                                             u: string, v: PaymentStatus, overdue: bool, now: int)
    requires |uids| == |vs| && TriesCover(l, uids) && u in l.tries.entries
    ensures TriesCover(l, uids + [u])
    ensures ApplyVerdicts(l, uids + [u], vs + [v], overdue, now) ==
      ApplyVerdict(ApplyVerdicts(l, uids, vs, overdue, now), u, v, overdue, now)
    decreases |uids|
  {
    assert forall i :: 0 <= i < |uids| ==> uids[i] == (uids + [u])[i];
    assert u == (uids + [u])[|uids|];
    if uids != [] {
      assert TriesCover(l, uids + [u]);
      var next := ApplyVerdict(l, uids[0], vs[0], overdue, now);
      assert (uids + [u])[1..] == uids[1..] + [u];
      assert (vs + [v])[1..] == vs[1..] + [v];
      assert TriesCover(next, uids[1..] + [u]) by {
        forall i | 0 <= i < |uids[1..] + [u]| ensures (uids[1..] + [u])[i] in next.tries.entries {
          assert (uids[1..] + [u])[i] == (uids + [u])[i + 1];
        }
      }
      ApplyVerdictsSnoc(next, uids[1..], vs[1..], u, v, overdue, now);
    }
  }

  /** `ApplyVerdictsSnoc` on prefixes, as a loop over uids reads it. */
  lemma ApplyVerdictsStep(l: Ledger, uids: seq<string>, vs: seq<PaymentStatus>, i: nat, overdue: bool, now: int)
    requires |uids| == |vs| && i < |uids| && TriesCover(l, uids)
    ensures TriesCover(l, uids[..i]) && TriesCover(l, uids[..i + 1])
    ensures ApplyVerdicts(l, uids[..i + 1], vs[..i + 1], overdue, now) ==
      ApplyVerdict(ApplyVerdicts(l, uids[..i], vs[..i], overdue, now), uids[i], vs[i], overdue, now)
  {
    assert uids[..i + 1] == uids[..i] + [uids[i]];
    assert vs[..i + 1] == vs[..i] + [vs[i]];
    ApplyVerdictsSnoc(l, uids[..i], vs[..i], uids[i], vs[i], overdue, now);
  }

  /** The last SUCCESS or FAILED verdict, if any. */
  function LastDecisive(vs: seq<PaymentStatus>): (r: Option<PaymentStatus>)
    ensures r.Some? ==> Decisive(r.value) && r.value in vs
    ensures r.None? <==> forall i :: 0 <= i < |vs| ==> !Decisive(vs[i])
  {
    if vs == [] then None
    else
      var rest := LastDecisive(vs[1..]);
      assert forall i :: 0 < i < |vs| ==> vs[i] == vs[1..][i - 1];
      if rest.Some? then rest
      else if Decisive(vs[0]) then Some(vs[0])
      else None
  }

  /**
   * Before the deadline, verification never fails a payment: it becomes
   * SUCCESS when it was or when some try is reported SUCCESS, and otherwise
   * keeps its status; the first success keeps its verification time.
   */
  lemma {:induction false} VerifyBeforeDeadline(l: Ledger, uids: seq<string>, vs: seq<PaymentStatus>, now: int)
    requires |uids| == |vs| && TriesCover(l, uids)
    ensures ApplyVerdicts(l, uids, vs, false, now).status ==
      if l.status == Success || Success in vs then Success else l.status
    ensures ApplyVerdicts(l, uids, vs, false, now).verifiedAt ==
      if l.status == Success || Success !in vs then l.verifiedAt else Some(now)
    decreases |uids|
  {
    if uids != [] {
      var next := ApplyVerdict(l, uids[0], vs[0], false, now);
      VerdictBeforeDeadline(l, uids[0], vs[0], now);
      VerifyBeforeDeadline(next, uids[1..], vs[1..], now);
      SuccessInTail(vs);
    }
  }

  /** One verdict before the deadline: only SUCCESS changes the status, and only a first SUCCESS the time. */
  lemma VerdictBeforeDeadline(l: Ledger, uid: string, v: PaymentStatus, now: int)
    requires l.tries.Valid() && uid in l.tries.entries
    ensures ApplyVerdict(l, uid, v, false, now).status == if l.status == Success || v == Success then Success else l.status
    ensures ApplyVerdict(l, uid, v, false, now).verifiedAt ==
      if l.status == Success || v != Success then l.verifiedAt else Some(now)
  {
  }

  lemma SuccessInTail(vs: seq<PaymentStatus>)
    requires vs != []
    ensures Success in vs <==> vs[0] == Success || Success in vs[1..]
  {
    assert vs == [vs[0]] + vs[1..];
  }

  /**
   * After the deadline, the last SUCCESS or FAILED verdict decides the
   * status, so a FAILED try reported after a SUCCESS one fails a payment that
   * had succeeded; with no such verdict the status is kept.
   */
  lemma {:induction false} VerifyAfterDeadline(l: Ledger, uids: seq<string>, vs: seq<PaymentStatus>, now: int)
    requires |uids| == |vs| && TriesCover(l, uids)
    ensures ApplyVerdicts(l, uids, vs, true, now).status ==
      if LastDecisive(vs).Some? then LastDecisive(vs).value else l.status
    decreases |uids|
  {
    if uids != [] {
      var next := ApplyVerdict(l, uids[0], vs[0], true, now);
      VerifyAfterDeadline(next, uids[1..], vs[1..], now);
    }
  }

  /**
   * With distinct try names, each try reported SUCCESS or FAILED takes that
   * status stamped with `now`, and every other try is left as it was.
   */
  lemma {:induction false} VerifyMarksTries(l: Ledger, uids: seq<string>, vs: seq<PaymentStatus>, overdue: bool, now: int)
    requires |uids| == |vs| && TriesCover(l, uids) && Distinct(uids)
    ensures forall i :: 0 <= i < |uids| ==>
      ApplyVerdicts(l, uids, vs, overdue, now).tries.entries[uids[i]] ==
        if Decisive(vs[i]) then l.tries.entries[uids[i]].(status := vs[i], verifiedAt := Some(now))
        else l.tries.entries[uids[i]]
    ensures forall k :: k in l.tries.entries && k !in uids ==>
      ApplyVerdicts(l, uids, vs, overdue, now).tries.entries[k] == l.tries.entries[k]
    decreases |uids|
  {
    if uids != [] {
      var next := ApplyVerdict(l, uids[0], vs[0], overdue, now);
      var r := ApplyVerdicts(l, uids, vs, overdue, now);
      assert Distinct(uids[1..]) by {
        forall i, j | 0 <= i < j < |uids| - 1 ensures uids[1..][i] != uids[1..][j] {
          assert uids[i + 1] != uids[j + 1];
        }
      }
      assert uids[0] !in uids[1..] by {
        forall i | 0 <= i < |uids| - 1 ensures uids[1..][i] != uids[0] {
          assert uids[i + 1] != uids[0];
        }
      }
      VerifyMarksTries(next, uids[1..], vs[1..], overdue, now);
      forall i | 0 <= i < |uids|
        ensures r.tries.entries[uids[i]] ==
          if Decisive(vs[i]) then l.tries.entries[uids[i]].(status := vs[i], verifiedAt := Some(now))
          else l.tries.entries[uids[i]]
      {
        if i > 0 {
          assert uids[1..][i - 1] == uids[i] && vs[1..][i - 1] == vs[i];
          assert uids[i] != uids[0];
        }
      }
    }
  }

  // ---------------------------------------------------------------------------
  // The document

  class Payment {
    const kind: Kind
    const uid: string
    const userId: string
    const walletId: string
    const amount: real
    const currency: string
    const description: string
    const callbackUrl: string
    const createdAt: int
    const duration: int
    var originalAmount: real
    var status: PaymentStatus
    var tries: Dict<Try>
    var verifiedAt: Option<int>
    var failureReason: Option<string>
    var refId: Option<int>

    /** The tries form a dictionary, each stored under its own uid, as `start` stores them. */
    ghost predicate Valid()
      reads this
    {
      tries.Valid() && KeyedByUid(tries)
    }

    /** The verification state of this payment. */
    function State(): (l: Ledger)
      reads this
      ensures l.status == status && l.verifiedAt == verifiedAt && l.tries == tries
    {
      Ledger(status, verifiedAt, tries)
    }

    /**
     * A payment built from a validated creation request: status INIT, no
     * tries, the default duration unless one is given, and the original
     * amount normalised by the model validator.
     */
    constructor (kind: Kind, uid: string, req: CreateRequest, createdAt: int,
                 duration: Option<int>, originalAmount: Option<real>)
      requires ValidateCreate(req).Ok?
      ensures Valid()
      ensures this.kind == kind && this.uid == uid && this.createdAt == createdAt
      ensures userId == req.userId && walletId == req.walletId && amount == req.amount
      ensures currency == req.currency && description == req.description && callbackUrl == req.callbackUrl
      ensures this.duration == if duration.Some? then duration.value else DefaultDuration
      ensures status == Init && tries.keys == [] && verifiedAt.None? && failureReason.None? && refId.None?
      ensures this.originalAmount ==
        NormalizedOriginalAmount(if originalAmount.Some? then originalAmount.value else 0.0, req.amount)
    {
      this.kind := kind;
      this.uid := uid;
      userId := req.userId;
      walletId := req.walletId;
      amount := req.amount;
      currency := req.currency;
      description := req.description;
      callbackUrl := req.callbackUrl;
      this.createdAt := createdAt;
      this.duration := if duration.Some? then duration.value else DefaultDuration;
      this.originalAmount := if originalAmount.Some? then originalAmount.value else 0.0;
      status := Init;
      tries := Empty();
      verifiedAt := None;
      failureReason := None;
      refId := None;
      new;
      NormalizeOriginalAmount();
    }

    /** `validate_null_original_amount`, which assigns the field in place. */
    method NormalizeOriginalAmount()
      modifies this`originalAmount
      ensures originalAmount == NormalizedOriginalAmount(old(originalAmount), amount)
    {
      if originalAmount == 0.0 {
        originalAmount := amount;
      }
    }

    /** `is_overdue` at time `now`. */
    function IsOverdueAt(now: int): (r: bool)
      ensures r <==> IsOverdue(createdAt, duration, now)
    {
      createdAt + duration < now
    }

    /** `success(ref_id)`: SUCCESS, stamped with `now`, whatever the status was. */
    method Success(refId: Option<int>, now: int)
      modifies this`refId, this`status, this`verifiedAt
      ensures status == Ipg.Success && verifiedAt == Some(now) && this.refId == refId
    {
      this.refId := refId;
      status := Ipg.Success;
      verifiedAt := Some(now);
    }

    /** `fail(reason)`: FAILED with the reason, whatever the status was, even SUCCESS. */
    method Fail(reason: Option<string>)
      modifies this`status, this`failureReason
      ensures status == Failed && failureReason == reason
    {
      status := Failed;
      failureReason := reason;
    }

    /**
     * `success_purchase(uid)`: an unknown try makes `None.status` raise an
     * AttributeError before anything changes; otherwise the state moves as
     * `SucceedTry` says.
     */
    method SuccessPurchase(tryUid: string, now: int) returns (r: Outcome)
      requires Valid()
      modifies this`tries, this`status, this`verifiedAt
      ensures Valid()
      ensures tryUid !in old(tries.entries) ==>
        r == Outcome.Fail(AttributeError("status")) && State() == old(State())
      ensures tryUid in old(tries.entries) ==> r == Pass && State() == SucceedTry(old(State()), tryUid, now)
    {
      if tryUid !in tries.entries {
        return Outcome.Fail(AttributeError("status"));
      }
      var trial := tries.entries[tryUid];
      tries := Put(tries, tryUid, trial.(status := Ipg.Success, verifiedAt := Some(now)));
      r := Pass;
      if status == Ipg.Success {
        return;
      }
      status := Ipg.Success;
      verifiedAt := Some(now);
    }

    /**
     * `fail_purchase(uid)`: an unknown try raises an AttributeError; otherwise
     * the state moves as `FailTry` says, with the deadline read at `now`.
     */
    method FailPurchase(tryUid: string, now: int) returns (r: Outcome)
      requires Valid()
      modifies this`tries, this`status
      ensures Valid()
      ensures tryUid !in old(tries.entries) ==>
        r == Outcome.Fail(AttributeError("status")) && State() == old(State())
      ensures tryUid in old(tries.entries) ==>
        r == Pass && State() == FailTry(old(State()), tryUid, IsOverdueAt(now), now)
    {
      if tryUid !in tries.entries {
        return Outcome.Fail(AttributeError("status"));
      }
      var trial := tries.entries[tryUid];
      tries := Put(tries, tryUid, trial.(status := Failed, verifiedAt := Some(now)));
      if IsOverdueAt(now) {
        status := Failed;
      }
      r := Pass;
    }

    /** `is_successful` */
    function IsSuccessful(): (r: bool)
      reads this
      ensures r <==> status == Ipg.Success
      ensures r ==> !IsOpen(status)
    {
      status == Ipg.Success
    }
  }
}
