/**
 * The payment gateway records (app/utils/ipg.py): the status shared by
 * payments, purchases and their tries, the try record a gateway returns, the
 * request sent to the gateway and the gateway's payment URL.  The HTTP call of
 * `create_payment` is replaced by the gateway's reply, passed in.
 */
module Ipg {
  import opened Wrappers

  /** `PaymentStatus` (alias `PurchaseStatus`). */
  datatype PaymentStatus = Init | Pending | Failed | Success | Refunded {
    /** The enum's string value. */
    function Value(): string {
      match this
      case Init => "INIT"
      case Pending => "PENDING"
      case Failed => "FAILED"
      case Success => "SUCCESS"
      case Refunded => "REFUNDED"
    }
  }

  /** `is_open`: the status still awaits a verdict; FAILED, SUCCESS and REFUNDED are final. */
  function IsOpen(s: PaymentStatus): (r: bool)
    ensures !r <==> s in {Failed, Success, Refunded}
  {
    s == Init || s == Pending
  }

  /** `PaymentStatus(text)`: the member whose value is `text`, if any. */
  function ParseStatus(text: string): (r: Option<PaymentStatus>)
    ensures r.Some? ==> r.value.Value() == text
  {
    if text == "INIT" then Some(Init)
    else if text == "PENDING" then Some(Pending)
    else if text == "FAILED" then Some(Failed)
    else if text == "SUCCESS" then Some(Success)
    else if text == "REFUNDED" then Some(Refunded)
    else None
  }

  /** Every status value parses back to its status, so distinct statuses have distinct values. */
  lemma ParseStatusValue(s: PaymentStatus)
    ensures ParseStatus(s.Value()) == Some(s)
  {
    match s
    case Init =>
    case Pending => assert "PENDING" != "INIT";
    case Failed => assert "FAILED" != "INIT" && "FAILED" != "PENDING";
    case Success =>
      assert "SUCCESS" != "INIT" && "SUCCESS" != "PENDING" && "SUCCESS" != "FAILED";
    case Refunded =>
      assert "REFUNDED" != "INIT" && "REFUNDED" != "PENDING" && "REFUNDED" != "FAILED";
      assert "REFUNDED" != "SUCCESS";
  }

  /** `PaymentSchema`: one try at a gateway, stored in a payment's `tries`. */
  datatype Try = Try(
    uid: string,
    ipg: string,
    userId: Option<string>,
    phone: Option<string>,
    status: PaymentStatus,
    failureReason: Option<string>,
    verifiedAt: Option<int>)

  /** The fields of a gateway reply; a missing field is `None`. */
  datatype TryReply = TryReply(
    uid: string,
    ipg: Option<string>,
    userId: Option<string>,
    phone: Option<string>,
    status: Option<PaymentStatus>,
    failureReason: Option<string>,
    verifiedAt: Option<int>)

  /**
   * `PaymentSchema.model_validate(reply | {"ipg": ipg})`: the try carries the
   * gateway it was created with, whatever the reply says, and a reply without
   * a status gives the default INIT.
   */
  function TryOfReply(reply: TryReply, ipg: string): (t: Try)
    ensures t.ipg == ipg && t.uid == reply.uid
    ensures t.status == (if reply.status.Some? then reply.status.value else Init)
    ensures t.userId == reply.userId && t.phone == reply.phone
    ensures t.failureReason == reply.failureReason && t.verifiedAt == reply.verifiedAt
  {
    Try(reply.uid, ipg, reply.userId, reply.phone,
        if reply.status.Some? then reply.status.value else Init,
        reply.failureReason, reply.verifiedAt)
  }

  /** `IPGPaymentSchema`: what is posted to the gateway to open a try. */
  datatype GatewayRequest = GatewayRequest(
    userId: Option<string>,
    walletId: string,
    amount: real,
    phone: Option<string>,
    description: string,
    callbackUrl: string,
    status: PaymentStatus)

  /** A gateway request built from its required fields: the status defaults to INIT. */
  function NewGatewayRequest(userId: Option<string>, walletId: string, amount: real,
                             phone: Option<string>, description: string,
                             callbackUrl: string): (r: GatewayRequest)
    ensures r.status == Init && IsOpen(r.status)
    ensures r.walletId == walletId && r.amount == amount && r.callbackUrl == callbackUrl
    ensures r.userId == userId && r.phone == phone && r.description == description
  {
    GatewayRequest(userId, walletId, amount, phone, description, callbackUrl, Init)
  }

  const ApiSegment: string := "/api/"
  const PaymentsSegment: string := "/v1/payments"

  /** `get_payment_ipg_url(ipg)`, with `Settings.core_url` passed in. */
  function PaymentIpgUrl(coreUrl: string, ipg: string): (url: string)
    ensures |url| == |coreUrl| + |ApiSegment| + |ipg| + |PaymentsSegment|
  {
    coreUrl + ApiSegment + ipg + PaymentsSegment
  }

  /** The gateway name inside a gateway URL, read back from its position. */
  function GatewayOfUrl(coreUrl: string, url: string): (g: Option<string>)
    ensures g.Some? ==> PaymentIpgUrl(coreUrl, g.value) == url
  {
    var n := |coreUrl| + |ApiSegment|;
    if |url| >= n + |PaymentsSegment| && url[..|coreUrl|] == coreUrl
       && url[|coreUrl|..n] == ApiSegment && url[|url| - |PaymentsSegment|..] == PaymentsSegment
    then
      var g := url[n..|url| - |PaymentsSegment|];
      assert url == coreUrl + ApiSegment + g + PaymentsSegment by {
        assert url == url[..|coreUrl|] + url[|coreUrl|..n] + url[n..|url| - |PaymentsSegment|]
          + url[|url| - |PaymentsSegment|..];
      }
      Some(g)
    else None
  }

  /**
   * The gateway URL determines the gateway: reading the name back gives the
   * name it was built from, so two gateways never share a URL.
   */
  lemma GatewayOfPaymentIpgUrl(coreUrl: string, ipg: string)
    ensures GatewayOfUrl(coreUrl, PaymentIpgUrl(coreUrl, ipg)) == Some(ipg)
  {
    var url := PaymentIpgUrl(coreUrl, ipg);
    var n := |coreUrl| + |ApiSegment|;
    assert url[..|coreUrl|] == coreUrl;
    assert url[|coreUrl|..n] == ApiSegment;
    assert url[|url| - |PaymentsSegment|..] == PaymentsSegment;
    assert url[n..|url| - |PaymentsSegment|] == ipg;
  }

  lemma PaymentIpgUrlInjective(coreUrl: string, g1: string, g2: string)
    requires PaymentIpgUrl(coreUrl, g1) == PaymentIpgUrl(coreUrl, g2)
    ensures g1 == g2
  {
    GatewayOfPaymentIpgUrl(coreUrl, g1);
    GatewayOfPaymentIpgUrl(coreUrl, g2);
  }
}
