/**
 * The enrollment schemas the shop sends to the SaaS service
 * (app/utils/saas.py): bundles, acquisition types, and the validators of
 * `EnrollmentCreateSchema` and `EnrollmentSchema`.  Times are integers and
 * the default start time is the `now` parameter.  Where pydantic reports
 * several field errors together, the model reports the first in field order.
 */
module Saas {
  import opened Wrappers

  /** A bundle as given: a missing `order` is `None`. */
  datatype BundleInput = BundleInput(asset: string, quota: real, order: Option<int>, unit: Option<string>)

  /** `Bundle` after validation. */
  datatype Bundle = Bundle(asset: string, quota: real, order: int, unit: Option<string>)

  /** `order: Literal[0, 1, 2] = 1`. */
  function NewBundle(b: BundleInput): (r: Result<Bundle>)
    ensures r.Ok? <==> b.order.None? || 0 <= b.order.value <= 2
    ensures r.Ok? ==> 0 <= r.value.order <= 2
    ensures r.Ok? && b.order.None? ==> r.value.order == 1
    ensures r.Ok? && b.order.Some? ==> r.value.order == b.order.value
    ensures r.Ok? ==> r.value.asset == b.asset && r.value.quota == b.quota && r.value.unit == b.unit
  {
    match b.order
    case None => Ok(Bundle(b.asset, b.quota, 1, b.unit))
    case Some(o) =>
      if 0 <= o <= 2 then Ok(Bundle(b.asset, b.quota, o, b.unit))
      else Err(ValueError("Input should be 0, 1 or 2"))
  }

  /** `AcquisitionType` */
  datatype AcquisitionType = Trial | Purchased | Gifted | Promotion | Borrowed | Postpaid {
    function Value(): string {
      match this
      case Trial => "trial"
      case Purchased => "purchased"
      case Gifted => "gifted"
      case Promotion => "promotion"
      case Borrowed => "borrowed"
      case Postpaid => "postpaid"
    }
  }

  /** `normal_types`: every acquisition type except a borrowed one, in declaration order. */
  function NormalTypes(): (ts: seq<AcquisitionType>)
    ensures |ts| == 5 && Borrowed !in ts
  {
    [Trial, Purchased, Gifted, Promotion, Postpaid]
  }

  /** The normal types are exactly the types other than borrowed. */
  lemma NormalTypesAreNotBorrowed()
    ensures forall t :: t in NormalTypes() <==> t != Borrowed
  {
    forall t: AcquisitionType | t != Borrowed ensures t in NormalTypes() {
      match t
      case Trial => assert NormalTypes()[0] == t;
      case Purchased => assert NormalTypes()[1] == t;
      case Gifted => assert NormalTypes()[2] == t;
      case Promotion => assert NormalTypes()[3] == t;
      case Postpaid => assert NormalTypes()[4] == t;
    }
  }

  /** `paid_at` after validation: never set, set to `False` (borrowed, not paid), or a time. */
  datatype PaidAt = Unset | NotPaid | PaidOn(time: int)

  /** The fields of an enrollment as given; a missing field is `None`. */
  datatype EnrollmentInput = EnrollmentInput(
    userId: string,
    bundles: seq<BundleInput>,
    price: Option<real>,
    startAt: Option<int>,
    expireAt: Option<int>,
    duration: Option<int>,
    status: Option<string>,
    acquisitionType: Option<AcquisitionType>,
    dueDate: Option<int>,
    paidAt: Option<int>)

  /** A validated enrollment. */
  datatype Enrollment = Enrollment(
    userId: string,
    bundles: seq<Bundle>,
    price: real,
    startAt: int,
    expireAt: Option<int>,
    duration: Option<int>,
    status: string,
    acquisitionType: AcquisitionType,
    dueDate: Option<int>,
    paidAt: PaidAt)

  /** Each bundle validated in order; the first invalid one is the error. */
  function ValidateBundleItems(bs: seq<BundleInput>): (r: Result<seq<Bundle>>)
    ensures r.Ok? <==> forall i :: 0 <= i < |bs| ==> NewBundle(bs[i]).Ok?
    ensures r.Ok? ==> |r.value| == |bs| && forall i :: 0 <= i < |bs| ==> Ok(r.value[i]) == NewBundle(bs[i])
  {
    if bs == [] then Ok([])
    else
      assert forall i :: 0 < i < |bs| ==> bs[i] == bs[1..][i - 1];
      match NewBundle(bs[0])
      case Err(e) => Err(e)
      case Ok(b) =>
        match ValidateBundleItems(bs[1..])
        case Err(e) => Err(e)
        case Ok(rest) => Ok([b] + rest)
  }

  /** The `bundles` field: its items, then `validate_bundles`, which refuses an empty list. */
  function ValidateBundles(bs: seq<BundleInput>): (r: Result<seq<Bundle>>)
    ensures r.Ok? <==> bs != [] && forall i :: 0 <= i < |bs| ==> NewBundle(bs[i]).Ok?
    ensures r.Ok? ==> |r.value| == |bs| > 0 && forall i :: 0 <= i < |bs| ==> 0 <= r.value[i].order <= 2
    ensures r.Ok? ==> forall i :: 0 <= i < |bs| ==> Ok(r.value[i]) == NewBundle(bs[i])
    ensures bs == [] ==> r == Err(ValueError("Bundles are required"))
  {
    match ValidateBundleItems(bs)
    case Err(e) => Err(e)
    case Ok(v) =>
      if v == [] then Err(ValueError("Bundles are required"))
      else
        assert forall i :: 0 <= i < |bs| ==> Ok(v[i]) == NewBundle(bs[i]);
        Ok(v)
  }

  /** `status: Literal["active", "inactive"] = "active"`. */
  function ValidateStatus(s: Option<string>): (r: Result<string>)
    ensures r.Ok? <==> s.None? || s.value == "active" || s.value == "inactive"
    ensures r.Ok? ==> r.value == "active" || r.value == "inactive"
    ensures s.None? ==> r == Ok("active")
  {
    match s
    case None => Ok("active")
    case Some(v) =>
      if v == "active" || v == "inactive" then Ok(v)
      else Err(ValueError("Input should be 'active' or 'inactive'"))
  }

  /**
   * Field validation shared by both schemas: bundles, then status, and the
   * defaults (price 0, start now, acquisition purchased).
   */
  function ValidateFields(inp: EnrollmentInput, now: int): (r: Result<Enrollment>)
    ensures r.Ok? <==> ValidateBundles(inp.bundles).Ok? && ValidateStatus(inp.status).Ok?
    ensures r.Ok? ==>
      && r.value.bundles == ValidateBundles(inp.bundles).value
      && r.value.status == ValidateStatus(inp.status).value
      && r.value.price == (if inp.price.Some? then inp.price.value else 0.0)
      && r.value.startAt == (if inp.startAt.Some? then inp.startAt.value else now)
      && r.value.acquisitionType == (if inp.acquisitionType.Some? then inp.acquisitionType.value else Purchased)
      && r.value.expireAt == inp.expireAt && r.value.duration == inp.duration
      && r.value.dueDate == inp.dueDate && r.value.userId == inp.userId
      && r.value.paidAt == (if inp.paidAt.Some? then PaidOn(inp.paidAt.value) else Unset)
  {
    match ValidateBundles(inp.bundles)
    case Err(e) => Err(e)
    case Ok(bundles) =>
      match ValidateStatus(inp.status)
      case Err(e) => Err(e)
      case Ok(status) =>
        Ok(Enrollment(
          inp.userId, bundles,
          if inp.price.Some? then inp.price.value else 0.0,
          if inp.startAt.Some? then inp.startAt.value else now,
          inp.expireAt, inp.duration, status,
          if inp.acquisitionType.Some? then inp.acquisitionType.value else Purchased,
          inp.dueDate,
          if inp.paidAt.Some? then PaidOn(inp.paidAt.value) else Unset))
  }

  const BothEndsGiven: string := "Only one of expire_at or duration_days should be provided"
  const DueDateRequired: string := "Due date must be provided for borrowed acquisitions"

  /** `expire_at and duration`: a set expiry and a non-zero (truthy) duration. */
  predicate BothEnds(expireAt: Option<int>, duration: Option<int>) {
    expireAt.Some? && duration.Some? && duration.value != 0
  }

  /** `EnrollmentCreateSchema`: the fields, then `validate_duration`. */
  function ValidateEnrollmentCreate(inp: EnrollmentInput, now: int): (r: Result<Enrollment>)
    ensures r.Ok? <==> ValidateFields(inp, now).Ok? && !BothEnds(inp.expireAt, inp.duration)
    ensures ValidateFields(inp, now).Ok? && BothEnds(inp.expireAt, inp.duration) ==>
      r == Err(ValueError(BothEndsGiven))
    ensures r.Ok? ==> r == ValidateFields(inp, now)
  {
    match ValidateFields(inp, now)
    case Err(e) => Err(e)
    case Ok(e) =>
      if BothEnds(e.expireAt, e.duration) then Err(ValueError(BothEndsGiven)) else Ok(e)
  }

  /**
   * `EnrollmentSchema`: the fields, its own `validate_duration`, which
   * replaces the parent's and checks nothing, then `validate_due_date`: a
   * borrowed enrollment needs a due date, and its unset `paid_at` becomes
   * `False`.
   */
  function ValidateEnrollment(inp: EnrollmentInput, now: int): (r: Result<Enrollment>)
    ensures r.Ok? <==>
      ValidateFields(inp, now).Ok? && (ValidateFields(inp, now).value.acquisitionType == Borrowed ==> inp.dueDate.Some?)
    ensures (ValidateFields(inp, now).Ok? && ValidateFields(inp, now).value.acquisitionType == Borrowed
             && inp.dueDate.None?) ==> r == Err(ValueError(DueDateRequired))
    ensures r.Ok? && r.value.acquisitionType == Borrowed ==> r.value.paidAt != Unset
    ensures r.Ok? ==> r.value == ValidateFields(inp, now).value.(paidAt := r.value.paidAt)
    ensures r.Ok? && inp.paidAt.Some? ==> r.value.paidAt == PaidOn(inp.paidAt.value)
    ensures r.Ok? && inp.paidAt.None? ==>
      r.value.paidAt == (if r.value.acquisitionType == Borrowed then NotPaid else Unset)
  {
    match ValidateFields(inp, now)
    case Err(e) => Err(e)
    case Ok(e) =>
      if e.acquisitionType == Borrowed && e.dueDate.None? then Err(ValueError(DueDateRequired))
      else if e.acquisitionType == Borrowed && e.paidAt == Unset then Ok(e.(paidAt := NotPaid))
      else Ok(e)
  }

  /**
   * The stored schema accepts everything the creation schema accepts, except
   * a borrowed enrollment without a due date; and it stores the same fields
   * apart from a borrowed enrollment's `paid_at`.
   */
  lemma CreatedEnrollmentRevalidates(inp: EnrollmentInput, now: int)
    requires ValidateEnrollmentCreate(inp, now).Ok?
    requires ValidateEnrollmentCreate(inp, now).value.acquisitionType == Borrowed ==> inp.dueDate.Some?
    ensures ValidateEnrollment(inp, now).Ok?
    ensures ValidateEnrollment(inp, now).value.acquisitionType != Borrowed ==>
      ValidateEnrollment(inp, now) == ValidateEnrollmentCreate(inp, now)
  {
  }

  /**
   * The override is a real difference: an enrollment with both an expiry and
   * a duration is refused at creation and accepted when stored.
   */
  lemma BothEndsAcceptedOnlyWhenStored(inp: EnrollmentInput, now: int)
    requires ValidateFields(inp, now).Ok? && BothEnds(inp.expireAt, inp.duration)
    requires inp.acquisitionType != Some(Borrowed)
    ensures ValidateEnrollmentCreate(inp, now) == Err(ValueError(BothEndsGiven))
    ensures ValidateEnrollment(inp, now).Ok?
  {
  }
}
