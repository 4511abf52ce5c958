/** The payment gate (src/actions/payment.ts): an order only for a published course, and an
    enrollment only after a valid signature and a settled payment. The gateway (orders,
    payment lookup, refunds) and the HMAC signature check are not modelled; their answers
    are parameters. */
module PaymentActions {
  import opened Common
  import opened Models
  import opened Db
  import EnrollmentActions

  /** The order returned to the browser: the gateway's order id, the amount in the
      currency's smallest unit, and the currency. */
  datatype Order = Order(id: string, amount: int, currency: string)

  /** A payment as `payments.fetch` reports it; `amount` is in the smallest unit. */
  datatype GatewayPayment = GatewayPayment(status: string, amount: int)

  /** What `payments.refund` is asked for: `None` refunds the whole payment. */
  datatype RefundRequest = RefundRequest(paymentId: string, amount: Option<int>)

  /** A refund as the gateway reports it. */
  datatype GatewayRefund = GatewayRefund(id: string, amount: int, status: string)

  /** A payment that may be turned into an enrollment. */
  predicate Settled(status: string) {
    status == "captured" || status == "authorized"
  }

  /** `createRazorpayOrder`: no order is requested from the gateway for an unknown or
      unpublished course. The amount is `Math.round(price * 100)`, which is the price itself
      in hundredths. `gatewayOrderId` is the gateway's answer, `None` when the call throws. */
  method CreateRazorpayOrder(s: Store, caller: Option<Session>, courseId: Id, gatewayOrderId: Option<string>)
    returns (r: Result<Order>, requested: bool)
    ensures caller.None? ==> r == Err(Unauthorized)
    ensures caller.Some? && courseId !in s.courses ==> r == Err(NotFound)
    ensures caller.Some? && courseId in s.courses && !s.courses[courseId].published ==> r == Err(NotPurchasable)
    ensures requested <==> caller.Some? && courseId in s.courses && s.courses[courseId].published
    ensures r.Ok? <==> requested && gatewayOrderId.Some?
    ensures requested && gatewayOrderId.None? ==> r == Err(Failed)
    ensures r.Ok? ==> r.value == Order(gatewayOrderId.value, s.courses[courseId].price, s.courses[courseId].currency)
  {
    requested := false;
    if caller.None? {
      return Err(Unauthorized), requested;
    }
    if courseId !in s.courses {
      return Err(NotFound), requested;
    }
    var course := s.courses[courseId];
    if !course.published {
      return Err(NotPurchasable), requested;
    }
    requested := true;
    if gatewayOrderId.None? {
      return Err(Failed), requested;
    }
    r := Ok(Order(gatewayOrderId.value, course.price, course.currency));
  }

  /** `verifyPayment`: the signature is checked first and the payment is fetched only when
      it holds; only a captured or authorized payment reaches `createEnrollment`, whose
      failure is passed on. `signatureValid` stands for the HMAC check and `fetched` for the
      gateway's answer (`None` when the call throws). */
  method VerifyPayment(s: Store, caller: Option<Session>, orderId: string, paymentId: string, signature: string,
                       courseId: Id, signatureValid: (string, string, string) -> bool,
                       fetched: Option<GatewayPayment>, now: Time, id: Id)
    returns (r: Result<Id>, fetchedPayment: bool)
    requires s.Valid()
    modifies s`enrollments
    ensures s.Valid()
    ensures caller.None? ==> r == Err(Unauthorized)
    ensures caller.Some? && !signatureValid(orderId, paymentId, signature) ==> r == Err(InvalidSignature)
    ensures fetchedPayment <==> caller.Some? && signatureValid(orderId, paymentId, signature)
    ensures fetchedPayment && fetched.None? ==> r == Err(Failed)
    ensures fetchedPayment && fetched.Some? && !Settled(fetched.value.status) ==> r == Err(PaymentNotCompleted)
    ensures (fetchedPayment && fetched.Some? && Settled(fetched.value.status)
             && old(s.HasEnrollment(caller.value.userId, courseId))) ==> r == Err(AlreadyEnrolled)
    ensures r.Ok? <==> (fetchedPayment && fetched.Some? && Settled(fetched.value.status)
                        && !old(s.HasEnrollment(caller.value.userId, courseId)) && courseId in s.courses
                        && 0 <= fetched.value.amount && IsDecimal10_2(fetched.value.amount)
                        && FitsVarchar(paymentId) && id !in old(s.enrollments))
    ensures r.Err? ==> s.enrollments == old(s.enrollments)
    ensures r.Ok? ==> (r.value == id && s.enrollments == old(s.enrollments)[id :=
                         Enrollment(caller.value.userId, courseId, Active, now, None, Some(paymentId),
                                    fetched.value.amount)])
  {
    fetchedPayment := false;
    if caller.None? {
      return Err(Unauthorized), fetchedPayment;
    }
    if !signatureValid(orderId, paymentId, signature) {
      return Err(InvalidSignature), fetchedPayment;
    }
    fetchedPayment := true;
    if fetched.None? {
      return Err(Failed), fetchedPayment;
    }
    var payment := fetched.value;
    if !Settled(payment.status) {
      return Err(PaymentNotCompleted), fetchedPayment;
    }
    // `payment.amount / 100` in the currency unit is `payment.amount` in hundredths
    r := EnrollmentActions.CreateEnrollment(s, caller, courseId, paymentId, payment.amount, now, id);
  }

  /** `amount ? Math.round(amount * 100) : undefined`: a missing or zero amount asks for a
      full refund. */
  function RefundAmount(amount: Option<int>): (r: Option<int>)
    ensures r.None? <==> amount.None? || amount.value == 0
    ensures r.Some? ==> r == amount
  {
    if amount.Some? && amount.value != 0 then amount else None
  }

  /** `initiateRefund`: administrators only; nobody else gets as far as the gateway.
      `gateway` is the gateway's answer, `None` when the call throws. */
  method InitiateRefund(caller: Option<Session>, paymentId: string, amount: Option<int>,
                        gateway: Option<GatewayRefund>)
    returns (request: Option<RefundRequest>, r: Result<GatewayRefund>)
    ensures (caller.None? || caller.value.role != Admin) ==> r == Err(Unauthorized) && request.None?
    ensures (caller.Some? && caller.value.role == Admin) ==>
              request == Some(RefundRequest(paymentId, RefundAmount(amount)))
    ensures r.Ok? <==> caller.Some? && caller.value.role == Admin && gateway.Some?
    ensures r.Ok? ==> r.value == gateway.value
    ensures request.Some? && gateway.None? ==> r == Err(Failed)
  {
    if caller.None? || caller.value.role != Admin {
      return None, Err(Unauthorized);
    }
    request := Some(RefundRequest(paymentId, RefundAmount(amount)));
    if gateway.None? {
      return request, Err(Failed);
    }
    r := Ok(gateway.value);
  }
}
