/** src/Controllers/Payment-controller/Webhook-Handler.js: the gateway's
    webhook. The signature over the serialised body is checked, the event is
    dispatched by type, and `payment.captured` completes a still-pending
    payment and enrolls the learner, `payment.failed` marks the order's
    payment failed, and `order.paid` only reads. The serialised body is a
    parameter, and so is the order in which a collection scan returns
    payments. */
module WebhookHandler {
  import opened Common
  import opened DateUtils
  import opened CourseModel
  import opened Records
  import opened Store
  import opened Crypto
  import opened PaymentController

  // ---------------------------------------------------------------------
  // Signature
  // ---------------------------------------------------------------------

  /** `verifyWebhookSignature` (Webhook-Handler.js:17-27): the hex digest of
      the body under the webhook secret and the header are both decoded as
      hex and compared; `timingSafeEqual` throws on a length mismatch. */
  function VerifyWebhookSignature(cfg: Config, body: string, signature: string): Comparison
  {
    TimingSafeEqual(HexDecode(HexEncode(cfg.hmac(cfg.webhookSecret, body))), HexDecode(signature))
  }

  /** The header the gateway sends, the lower-case hex digest, is accepted. */
  lemma ExactDigestAccepted(cfg: Config, body: string)
    ensures VerifyWebhookSignature(cfg, body, HexEncode(cfg.hmac(cfg.webhookSecret, body))) == Equal
  {
    HexRoundTrip(cfg.hmac(cfg.webhookSecret, body));
  }

  /** Decoding stops at the first pair that is not hexadecimal, so the digest
      followed by such a tail is accepted too. */
  lemma DigestWithTailAccepted(cfg: Config, body: string, tail: string)
    requires |tail| < 2 || HexValue(tail[0]).None? || HexValue(tail[1]).None?
    ensures VerifyWebhookSignature(cfg, body, HexEncode(cfg.hmac(cfg.webhookSecret, body)) + tail) == Equal
  {
    HexRoundTrip(cfg.hmac(cfg.webhookSecret, body));
    HexDecodeIgnoresTail(cfg.hmac(cfg.webhookSecret, body), tail);
  }

  /** A header that decodes to fewer or more bytes than the digest makes the
      comparison throw rather than answer "different". */
  lemma WrongLengthThrows(cfg: Config, body: string, signature: string)
    requires |HexDecode(signature)| != |cfg.hmac(cfg.webhookSecret, body)|
    ensures VerifyWebhookSignature(cfg, body, signature) == Throws
  {
    HexRoundTrip(cfg.hmac(cfg.webhookSecret, body));
  }

  // ---------------------------------------------------------------------
  // Payloads
  // ---------------------------------------------------------------------

  /** `payload.payment.entity`: the fields the handlers read. */
  datatype PaymentEntity = PaymentEntity(
    id: string,
    orderId: string,
    payMethod: Option<string>,
    errorCode: Option<string>,
    errorDescription: Option<string>)

  /** `payload.order.entity`. */
  datatype OrderEntity = OrderEntity(id: string, amountPaid: int)

  /** The request: the signature header, the serialised body, the event name
      and the entity the event carries (None when the path is missing). */
  datatype WebhookRequest = WebhookRequest(
    signature: Option<string>,
    body: string,
    event: string,
    paymentEntity: Option<PaymentEntity>,
    orderEntity: Option<OrderEntity>)

  /** `findOne({razorpayOrderId})`, or with `paymentStatus: "pending"` as well
      when `pendingOnly`: the position in the scan of the first match, from `k`. */
  function FindPaymentFrom(payments: map<Id, Payment>, order: seq<Id>, orderId: string, pendingOnly: bool,
                           k: nat): (r: Option<nat>)
    requires forall i :: 0 <= i < |order| ==> order[i] in payments
    requires k <= |order|
    ensures r.Some? ==> (k <= r.value < |order| && payments[order[r.value]].razorpayOrderId == orderId &&
      (pendingOnly ==> payments[order[r.value]].status == PaymentStatus.Pending))
    ensures r.None? ==> forall j :: k <= j < |order| ==>
      !(payments[order[j]].razorpayOrderId == orderId &&
        (pendingOnly ==> payments[order[j]].status == PaymentStatus.Pending))
    decreases |order| - k
  {
    if k == |order| then None
    else
      var p := payments[order[k]];
      if p.razorpayOrderId == orderId && (pendingOnly ==> p.status == PaymentStatus.Pending) then Some(k)
      else FindPaymentFrom(payments, order, orderId, pendingOnly, k + 1)
  }

  function FindPayment(payments: map<Id, Payment>, order: seq<Id>, orderId: string, pendingOnly: bool): (r: Option<nat>)
    requires forall i :: 0 <= i < |order| ==> order[i] in payments
    ensures r.Some? ==> (r.value < |order| && payments[order[r.value]].razorpayOrderId == orderId &&
      (pendingOnly ==> payments[order[r.value]].status == PaymentStatus.Pending))
    ensures r.None? ==> forall j :: 0 <= j < |order| ==>
      !(payments[order[j]].razorpayOrderId == orderId &&
        (pendingOnly ==> payments[order[j]].status == PaymentStatus.Pending))
  {
    FindPaymentFrom(payments, order, orderId, pendingOnly, 0)
  }

  /** `toUpperCase` on the ASCII letters. */
  function AsciiUpper(s: string): (r: string)
    ensures |r| == |s|
    ensures forall i :: 0 <= i < |r| ==> !('a' <= r[i] <= 'z')
    ensures forall i :: 0 <= i < |s| ==>
      (('a' <= s[i] <= 'z' ==> r[i] as int == s[i] as int - 32) && (!('a' <= s[i] <= 'z') ==> r[i] == s[i]))
  {
    if s == [] then []
    else [if 'a' <= s[0] <= 'z' then (s[0] as int - 32) as char else s[0]] + AsciiUpper(s[1..])
  }

  // ---------------------------------------------------------------------
  // payment.captured
  // ---------------------------------------------------------------------

  /** The `enrollment` field of the result. */
  datatype EnrollmentReport = EmiEnrolled | EmiEnrollmentFailed | FullEnrolled

  /** The result of `handlePaymentCaptured`. */
  datatype CaptureResult = CaptureNotFound | CaptureError | Captured(enrollment: EnrollmentReport)

  /** The terms `handleEmiEnrollment` passes to `createEmiPlan`: the paid
      amount as the monthly amount, the final price as the total, and
      `ceil(finalPrice / amount)` months. */
  function CaptureTerms(p: Payment, course: Course): (d: EmiDetails)
    requires p.amount != 0.0 && course.price.finalPrice.Some?
    ensures d.monthlyAmount == p.amount && d.totalAmount == course.price.finalPrice.value
    ensures d.months as real >= course.price.finalPrice.value / p.amount > d.months as real - 1.0
  {
    EmiDetails(p.amount, Ceil(course.price.finalPrice.value / p.amount), course.price.finalPrice.value)
  }

  /** `handleEmiEnrollment` (Webhook-Handler.js:156-204) on the state: a
      missing learner or course is a caught error and nothing is written. */
  function EmiEnrollmentEffect(s: DbState, p: Payment, now: DateTime, planId: Id): (r: (EnrollmentReport, DbState))
    requires ValidDateTime(now) && PaymentWellFormed(p) && p.kind == Emi && CoursesPriced(s.courses)
  {
    if p.userId !in s.users || p.courseId !in s.courses then (EmiEnrollmentFailed, s)
    else
      var course := s.courses[p.courseId];
      var plan := NewPlan(p.userId, p.courseId, course, p.emiDueDay.value, CaptureTerms(p, course), now);
      (EmiEnrolled,
       s.(plans := s.plans[planId := plan],
          users := AddEnrollment(s.users, p.userId, Enrollment(p.courseId, course.name, Some(planId), AccessActive)),
          courses := IncEnrollmentCount(s.courses, p.courseId)))
  }

  /** `handleFullPaymentEnrollment` (Webhook-Handler.js:207-231) on the state. */
  function FullEnrollmentEffect(s: DbState, p: Payment): DbState
  {
    s.(users := AddEnrollment(s.users, p.userId, Enrollment(p.courseId, p.courseName, None, AccessActive)),
       courses := IncEnrollmentCount(s.courses, p.courseId))
  }

  /** Both enrollments touch only users, courses and plans, and keep every
      course priced. */
  lemma EnrollmentEffectsKeepStore(s: DbState, p: Payment, now: DateTime, planId: Id)
    requires ValidDateTime(now) && PaymentWellFormed(p) && CoursesPriced(s.courses)
    ensures p.kind == Emi ==> var r := EmiEnrollmentEffect(s, p, now, planId).1;
      r.payments == s.payments && r.outbox == s.outbox && CoursesPriced(r.courses)
    ensures var r := FullEnrollmentEffect(s, p);
      r.payments == s.payments && r.outbox == s.outbox && r.plans == s.plans && CoursesPriced(r.courses)
  {
    IncKeepsPriced(s.courses, p.courseId);
  }

  /** The payment record after the capture write. */
  function CapturedBy(p: Payment, e: PaymentEntity): Payment
    requires e.payMethod.Some?
  {
    p.(status := Completed, razorpayPaymentId := Some(e.id), paymentMethod := Some(AsciiUpper(e.payMethod.value)))
  }

  /** `handlePaymentCaptured` (Webhook-Handler.js:89-153) on the state. With no
      pending payment for the order nothing happens; a missing `method`
      throws before the save; otherwise the payment is completed and the
      enrollment follows its type. */
  function CaptureEffect(s: DbState, e: PaymentEntity, now: DateTime, planId: Id, order: seq<Id>): (r: (CaptureResult, DbState))
    requires ValidDateTime(now) && PaymentsValid(s.payments) && CoursesPriced(s.courses)
    requires forall i :: 0 <= i < |order| ==> order[i] in s.payments
  {
    var found := FindPayment(s.payments, order, e.orderId, true);
    if found.None? then (CaptureNotFound, s)
    else if e.payMethod.None? then (CaptureError, s)
    else
      var pid := order[found.value];
      var p := CapturedBy(s.payments[pid], e);
      var s1 := s.(payments := s.payments[pid := p]);
      if p.kind == Emi then
        var enrolled := EmiEnrollmentEffect(s1, p, now, planId);
        (Captured(enrolled.0), enrolled.1)
      else
        (Captured(FullEnrolled), FullEnrollmentEffect(s1, p))
  }

  /** Once the order's payment is no longer pending (the first delivery
      completed it, or `verifyPayment` did), a `payment.captured` delivery for
      that order writes nothing and creates no plan. */
  lemma CaptureOfSettledOrderIsNoOp(s: DbState, e: PaymentEntity, now: DateTime, planId: Id, order: seq<Id>, pid: Id)
    requires ValidDateTime(now) && PaymentsValid(s.payments) && CoursesPriced(s.courses)
    requires IsEnumeration(order, s.payments.Keys)
    requires pid in s.payments && s.payments[pid].razorpayOrderId == e.orderId
    requires s.payments[pid].status != PaymentStatus.Pending
    ensures CaptureEffect(s, e, now, planId, order) == (CaptureNotFound, s)
  {
  }

  /** A capture keeps the store's invariants and the set of payments, sends
      no mail, and writes nothing unless it captures. */
  lemma CaptureKeepsStore(s: DbState, e: PaymentEntity, now: DateTime, planId: Id, order: seq<Id>)
    requires ValidDateTime(now) && PaymentsValid(s.payments) && CoursesPriced(s.courses)
    requires forall i :: 0 <= i < |order| ==> order[i] in s.payments
    ensures var r := CaptureEffect(s, e, now, planId, order);
      PaymentsValid(r.1.payments) && CoursesPriced(r.1.courses) && r.1.outbox == s.outbox &&
      r.1.payments.Keys == s.payments.Keys && (!r.0.Captured? ==> r.1 == s)
  {
    var found := FindPayment(s.payments, order, e.orderId, true);
    if found.Some? && e.payMethod.Some? {
      var pid := order[found.value];
      var p := CapturedBy(s.payments[pid], e);
      PaymentUpdateKeepsValid(s.payments, pid, p);
      EnrollmentEffectsKeepStore(s.(payments := s.payments[pid := p]), p, now, planId);
    }
  }

  /** A successful capture takes the order's pending payment and completes it
      with the gateway's payment id and the upper-cased method. */
  lemma CaptureCompletesPayment(s: DbState, e: PaymentEntity, now: DateTime, planId: Id, order: seq<Id>)
    requires ValidDateTime(now) && PaymentsValid(s.payments) && CoursesPriced(s.courses)
    requires forall i :: 0 <= i < |order| ==> order[i] in s.payments
    ensures var r := CaptureEffect(s, e, now, planId, order);
      r.0.Captured? ==>
        exists k :: 0 <= k < |order| && s.payments[order[k]].razorpayOrderId == e.orderId &&
          s.payments[order[k]].status == PaymentStatus.Pending &&
          order[k] in r.1.payments && r.1.payments[order[k]].status == Completed &&
          r.1.payments[order[k]].razorpayPaymentId == Some(e.id) &&
          r.1.payments[order[k]].razorpayOrderId == e.orderId &&
          e.payMethod.Some? && r.1.payments[order[k]].paymentMethod == Some(AsciiUpper(e.payMethod.value))
  {
    var r := CaptureEffect(s, e, now, planId, order);
    if r.0.Captured? {
      var k := FindPayment(s.payments, order, e.orderId, true).value;
      assert r.1.payments[order[k]] == CapturedBy(s.payments[order[k]], e);
    }
  }

  /** An EMI capture gives the learner an active plan of
      `ceil(finalPrice / amount)` instalments whose first is the paid amount,
      and adds one to the course's counter. */
  lemma CaptureEnrollsEmi(s: DbState, e: PaymentEntity, now: DateTime, planId: Id, order: seq<Id>)
    requires ValidDateTime(now) && PaymentsValid(s.payments) && CoursesPriced(s.courses)
    requires forall i :: 0 <= i < |order| ==> order[i] in s.payments
    ensures var r := CaptureEffect(s, e, now, planId, order);
      r.0 == Captured(EmiEnrolled) ==>
        var p := s.payments[order[FindPayment(s.payments, order, e.orderId, true).value]];
        p.kind == Emi && p.courseId in s.courses && p.userId in s.users &&
        var course := s.courses[p.courseId];
        planId in r.1.plans && r.1.plans[planId].status == Active &&
        r.1.plans[planId].userId == p.userId && r.1.plans[planId].courseId == p.courseId &&
        r.1.plans[planId].emis[0].amount == p.amount &&
        |r.1.plans[planId].emis| == ScheduleLength(Ceil(course.price.finalPrice.value / p.amount)) &&
        p.courseId in r.1.courses &&
        r.1.courses[p.courseId].studentEnrollmentCount == course.studentEnrollmentCount + 1
  {
    var r := CaptureEffect(s, e, now, planId, order);
    if r.0 == Captured(EmiEnrolled) {
      var p := CapturedBy(s.payments[order[FindPayment(s.payments, order, e.orderId, true).value]], e);
      var course := s.courses[p.courseId];
      NewPlanFacts(p.userId, p.courseId, course, p.emiDueDay.value, CaptureTerms(p, course), now);
    }
  }

  /** A full-payment capture creates no plan and adds one to the course's
      counter. */
  lemma CaptureEnrollsFull(s: DbState, e: PaymentEntity, now: DateTime, planId: Id, order: seq<Id>)
    requires ValidDateTime(now) && PaymentsValid(s.payments) && CoursesPriced(s.courses)
    requires forall i :: 0 <= i < |order| ==> order[i] in s.payments
    ensures var r := CaptureEffect(s, e, now, planId, order);
      r.0 == Captured(FullEnrolled) ==>
        var p := s.payments[order[FindPayment(s.payments, order, e.orderId, true).value]];
        p.kind == Full && r.1.plans == s.plans &&
        (p.courseId in s.courses ==>
          p.courseId in r.1.courses &&
          r.1.courses[p.courseId].studentEnrollmentCount == s.courses[p.courseId].studentEnrollmentCount + 1)
  {
  }

  /** `handleEmiEnrollment`. */
  method HandleEmiEnrollment(db: Database, p: Payment, now: DateTime, planId: Id)
    returns (report: EnrollmentReport)
    requires ValidDateTime(now) && PaymentWellFormed(p) && p.kind == Emi && CoursesPriced(db.courses)
    requires planId !in db.plans
    modifies db
    ensures (report, db.Snapshot()) == EmiEnrollmentEffect(old(db.Snapshot()), p, now, planId)
  {
    if p.userId !in db.users || p.courseId !in db.courses {
      return EmiEnrollmentFailed;
    }
    var course := db.courses[p.courseId];
    var _ := CreateEmiPlan(db, p.userId, p.courseId, course, p.emiDueDay.value, CaptureTerms(p, course), now, planId);
    return EmiEnrolled;
  }

  /** `handleFullPaymentEnrollment`. */
  method HandleFullPaymentEnrollment(db: Database, p: Payment)
    modifies db
    ensures db.Snapshot() == FullEnrollmentEffect(old(db.Snapshot()), p)
  {
    db.users := AddEnrollment(db.users, p.userId, Enrollment(p.courseId, p.courseName, None, AccessActive));
    db.courses := IncEnrollmentCount(db.courses, p.courseId);
  }

  /** `handlePaymentCaptured`, with the instant and plan id `createEmiPlan`
      would use. */
  method HandlePaymentCaptured(db: Database, e: PaymentEntity, now: DateTime, planId: Id, order: seq<Id>)
    returns (r: CaptureResult)
    requires db.Valid() && ValidDateTime(now) && planId !in db.plans
    requires forall i :: 0 <= i < |order| ==> order[i] in db.payments
    modifies db
    ensures (r, db.Snapshot()) == CaptureEffect(old(db.Snapshot()), e, now, planId, order)
  {
    var found := FindPayment(db.payments, order, e.orderId, true);
    if found.None? {
      return CaptureNotFound;
    }
    if e.payMethod.None? {
      return CaptureError;
    }
    var pid := order[found.value];
    var payment := CapturedBy(db.payments[pid], e);
    PaymentUpdateKeepsValid(db.payments, pid, payment);
    db.payments := db.payments[pid := payment];
    if payment.kind == Emi {
      var report := HandleEmiEnrollment(db, payment, now, planId);
      return Captured(report);
    } else {
      HandleFullPaymentEnrollment(db, payment);
      return Captured(FullEnrolled);
    }
  }

  // ---------------------------------------------------------------------
  // payment.failed and order.paid
  // ---------------------------------------------------------------------

  /** `handlePaymentFailed` (Webhook-Handler.js:234-268) on the payments: the
      first payment of the order is marked failed with the gateway's error,
      whatever its status. */
  function FailEffect(payments: map<Id, Payment>, e: PaymentEntity, order: seq<Id>): (r: map<Id, Payment>)
    requires forall i :: 0 <= i < |order| ==> order[i] in payments
    ensures r.Keys == payments.Keys
  {
    var found := FindPayment(payments, order, e.orderId, false);
    if found.None? then payments
    else
      var pid := order[found.value];
      payments[pid := payments[pid].(status := Failed, errorCode := e.errorCode,
                                     errorDescription := e.errorDescription)]
  }

  /** A failure notice overwrites even a completed payment, and the store's
      invariants are kept. */
  lemma FailOverwritesAnyStatus(payments: map<Id, Payment>, e: PaymentEntity, order: seq<Id>, pid: Id)
    requires PaymentsValid(payments) && IsEnumeration(order, payments.Keys)
    requires pid in payments && payments[pid].razorpayOrderId == e.orderId
    ensures PaymentsValid(FailEffect(payments, e, order))
    ensures FailEffect(payments, e, order)[pid].status == Failed
    ensures FailEffect(payments, e, order)[pid].errorCode == e.errorCode
  {
    assert exists i :: 0 <= i < |order| && order[i] == pid;
    var found := FindPayment(payments, order, e.orderId, false);
    assert found.Some?;
    var q := order[found.value];
    assert payments[q].razorpayOrderId == payments[pid].razorpayOrderId;
    var p := payments[q].(status := Failed, errorCode := e.errorCode, errorDescription := e.errorDescription);
    PaymentUpdateKeepsValid(payments, q, p);
  }

  /** `handlePaymentFailed`: after the write the result reads the undeclared
      `updatedPayment`, so it always reports failure. */
  method HandlePaymentFailed(db: Database, e: PaymentEntity, order: seq<Id>) returns (success: bool)
    requires db.Valid() && IsEnumeration(order, db.payments.Keys)
    modifies db
    ensures !success
    ensures db.Valid()
    ensures db.Snapshot() == old(db.Snapshot()).(payments := FailEffect(old(db.payments), e, order))
  {
    var found := FindPayment(db.payments, order, e.orderId, false);
    if found.Some? {
      var pid := order[found.value];
      FailOverwritesAnyStatus(db.payments, e, order, pid);
    }
    db.payments := FailEffect(db.payments, e, order);
    return false;
  }

  /** The result of `handleOrderPaid` (Webhook-Handler.js:271-311): always a
      success, carrying the status of the order's payment when there is one.
      It writes nothing. */
  datatype OrderPaidResult = OrderPaidResult(orderId: string, amountPaid: int, paymentStatus: Option<PaymentStatus>)

  function HandleOrderPaid(payments: map<Id, Payment>, o: OrderEntity, order: seq<Id>): (r: OrderPaidResult)
    requires forall i :: 0 <= i < |order| ==> order[i] in payments
    ensures r.orderId == o.id && r.amountPaid == o.amountPaid
    ensures r.paymentStatus.Some? <==> exists i :: 0 <= i < |order| && payments[order[i]].razorpayOrderId == o.id
    ensures r.paymentStatus.Some? ==>
      exists i :: 0 <= i < |order| && payments[order[i]].razorpayOrderId == o.id &&
        payments[order[i]].status == r.paymentStatus.value
  {
    var found := FindPayment(payments, order, o.id, false);
    if found.None? then OrderPaidResult(o.id, o.amountPaid, None)
    else OrderPaidResult(o.id, o.amountPaid, Some(payments[order[found.value]].status))
  }

  // ---------------------------------------------------------------------
  // Dispatch
  // ---------------------------------------------------------------------

  /** The response of `handleRazorpayWebhook`. After a handled event the
      response reads the undeclared `result`, so the catch answers 500. */
  datatype WebhookOutcome =
    | MissingSignature
    | InvalidSignature
    | VerificationThrew
    | NotProcessed(event: string)
    | MalformedPayload
    | ResultUndefined

  function StatusCode(o: WebhookOutcome): int
  {
    match o
    case MissingSignature => 400
    case InvalidSignature => 400
    case VerificationThrew => 500
    case NotProcessed(_) => 200
    case MalformedPayload => 500
    case ResultUndefined => 500
  }

  predicate IsHandledEvent(event: string)
  {
    event == "payment.captured" || event == "payment.failed" || event == "order.paid"
  }

  /** The signature checks (Webhook-Handler.js:32-47): None when they pass. */
  function SignatureGate(cfg: Config, req: WebhookRequest): (o: Option<WebhookOutcome>)
    ensures o.None? <==> Present(req.signature) && VerifyWebhookSignature(cfg, req.body, req.signature.value) == Equal
    ensures !Present(req.signature) ==> o == Some(MissingSignature)
    ensures o.Some? ==> o.value in {MissingSignature, InvalidSignature, VerificationThrew}
  {
    if !Present(req.signature) then Some(MissingSignature)
    else
      match VerifyWebhookSignature(cfg, req.body, req.signature.value)
      case Throws => Some(VerificationThrew)
      case Different => Some(InvalidSignature)
      case Equal => None
  }

  /** `handleRazorpayWebhook` (Webhook-Handler.js:30-86) on the state. */
  function WebhookEffect(s: DbState, req: WebhookRequest, cfg: Config, now: DateTime, planId: Id,
                         order: seq<Id>): (r: (WebhookOutcome, DbState))
    requires ValidDateTime(now) && PaymentsValid(s.payments) && CoursesPriced(s.courses)
    requires IsEnumeration(order, s.payments.Keys)
  {
    var gate := SignatureGate(cfg, req);
    if gate.Some? then (gate.value, s)
    else if !IsHandledEvent(req.event) then (NotProcessed(req.event), s)
    else if req.event == "order.paid" then
      if req.orderEntity.None? then (MalformedPayload, s) else (ResultUndefined, s)
    else if req.paymentEntity.None? then (MalformedPayload, s)
    else if req.event == "payment.captured" then
      (ResultUndefined, CaptureEffect(s, req.paymentEntity.value, now, planId, order).1)
    else
      (ResultUndefined, s.(payments := FailEffect(s.payments, req.paymentEntity.value, order)))
  }

  /** A request that fails the signature check, an unknown event and a
      malformed payload write nothing; only the signature failures answer
      400, only an unknown event answers 200, and every handled event
      answers 500 even though its writes happened. */
  lemma WebhookResponses(s: DbState, req: WebhookRequest, cfg: Config, now: DateTime, planId: Id, order: seq<Id>)
    requires ValidDateTime(now) && PaymentsValid(s.payments) && CoursesPriced(s.courses)
    requires IsEnumeration(order, s.payments.Keys)
    ensures var r := WebhookEffect(s, req, cfg, now, planId, order);
      (r.0 != ResultUndefined ==> r.1 == s) &&
      (StatusCode(r.0) == 400 <==>
        (!Present(req.signature) || VerifyWebhookSignature(cfg, req.body, req.signature.value) == Different)) &&
      (StatusCode(r.0) == 200 <==> SignatureGate(cfg, req).None? && !IsHandledEvent(req.event)) &&
      (SignatureGate(cfg, req).None? && IsHandledEvent(req.event) ==> StatusCode(r.0) == 500)
  {
  }

  /** A delivery whose order's payment is already settled, such as a repeated
      `payment.captured`, leaves every collection as it was. */
  lemma RepeatedCaptureDeliveryIsNoOp(s: DbState, req: WebhookRequest, cfg: Config, now: DateTime, planId: Id,
                                      order: seq<Id>, pid: Id)
    requires ValidDateTime(now) && PaymentsValid(s.payments) && CoursesPriced(s.courses)
    requires IsEnumeration(order, s.payments.Keys)
    requires req.event == "payment.captured" && req.paymentEntity.Some?
    requires pid in s.payments && s.payments[pid].razorpayOrderId == req.paymentEntity.value.orderId
    requires s.payments[pid].status != PaymentStatus.Pending
    ensures WebhookEffect(s, req, cfg, now, planId, order).1 == s
  {
    CaptureOfSettledOrderIsNoOp(s, req.paymentEntity.value, now, planId, order, pid);
  }

  /** On the capture path, the webhook's write is the capture's write; off
      it, nothing is written. */
  lemma WebhookCaptureWrite(s: DbState, req: WebhookRequest, cfg: Config, now: DateTime, planId: Id, order: seq<Id>)
    requires ValidDateTime(now) && PaymentsValid(s.payments) && CoursesPriced(s.courses)
    requires IsEnumeration(order, s.payments.Keys)
    requires req.event == "payment.captured" && req.paymentEntity.Some?
    ensures WebhookEffect(s, req, cfg, now, planId, order).1 ==
      if SignatureGate(cfg, req).None? then CaptureEffect(s, req.paymentEntity.value, now, planId, order).1 else s
  {
  }

  /** Capturing the same gateway payment twice: the second capture finds no
      pending payment and writes nothing. */
  lemma DuplicateCapture(s: DbState, e: PaymentEntity, now: DateTime, planId1: Id, planId2: Id, order: seq<Id>)
    requires ValidDateTime(now) && PaymentsValid(s.payments) && CoursesPriced(s.courses)
    requires IsEnumeration(order, s.payments.Keys) && planId1 !in s.plans
    ensures var s1 := CaptureEffect(s, e, now, planId1, order).1;
      PaymentsValid(s1.payments) && CoursesPriced(s1.courses) && s1.payments.Keys == s.payments.Keys &&
      CaptureEffect(s1, e, now, planId2, order).1 == s1
  {
    var c := CaptureEffect(s, e, now, planId1, order);
    CaptureKeepsStore(s, e, now, planId1, order);
    CaptureCompletesPayment(s, e, now, planId1, order);
    var found := FindPayment(s.payments, order, e.orderId, true);
    if c.0.Captured? {
      var pid := order[found.value];
      assert c.1.payments.Keys == s.payments.Keys;
      CaptureOfSettledOrderIsNoOp(c.1, e, now, planId2, order, pid);
    } else if found.Some? {
      assert e.payMethod.None?;
    }
  }

  /** Two deliveries of the same `payment.captured` event: the second one finds
      no pending payment and writes nothing. */
  lemma DuplicateCaptureDelivery(s: DbState, req: WebhookRequest, cfg: Config, now: DateTime,
                                 planId1: Id, planId2: Id, order: seq<Id>)
    requires ValidDateTime(now) && PaymentsValid(s.payments) && CoursesPriced(s.courses)
    requires IsEnumeration(order, s.payments.Keys) && planId1 !in s.plans
    requires req.event == "payment.captured" && req.paymentEntity.Some?
    ensures var s1 := WebhookEffect(s, req, cfg, now, planId1, order).1;
      PaymentsValid(s1.payments) && CoursesPriced(s1.courses) && s1.payments.Keys == s.payments.Keys &&
      WebhookEffect(s1, req, cfg, now, planId2, order).1 == s1
  {
    var s1 := WebhookEffect(s, req, cfg, now, planId1, order).1;
    WebhookCaptureWrite(s, req, cfg, now, planId1, order);
    DuplicateCapture(s, req.paymentEntity.value, now, planId1, planId2, order);
    WebhookCaptureWrite(s1, req, cfg, now, planId2, order);
  }

  /** `handleRazorpayWebhook`. */
  method HandleRazorpayWebhook(db: Database, req: WebhookRequest, cfg: Config, now: DateTime, planId: Id,
                               order: seq<Id>)
    returns (o: WebhookOutcome)
    requires db.Valid() && ValidDateTime(now) && planId !in db.plans
    requires IsEnumeration(order, db.payments.Keys)
    modifies db
    ensures (o, db.Snapshot()) == WebhookEffect(old(db.Snapshot()), req, cfg, now, planId, order)
    ensures db.Valid()
  {
    ghost var s := db.Snapshot();
    CaptureKeepsStore(s, if req.paymentEntity.Some? then req.paymentEntity.value else PaymentEntity("", "", None, None, None),
                 now, planId, order);
    var gate := SignatureGate(cfg, req);
    if gate.Some? {
      return gate.value;
    }
    if !IsHandledEvent(req.event) {
      return NotProcessed(req.event);
    }
    if req.event == "order.paid" {
      if req.orderEntity.None? {
        return MalformedPayload;
      }
      var _ := HandleOrderPaid(db.payments, req.orderEntity.value, order);
      return ResultUndefined;
    }
    if req.paymentEntity.None? {
      return MalformedPayload;
    }
    if req.event == "payment.captured" {
      var _ := HandlePaymentCaptured(db, req.paymentEntity.value, now, planId, order);
    } else {
      var _ := HandlePaymentFailed(db, req.paymentEntity.value, order);
    }
    return ResultUndefined;
  }
}
