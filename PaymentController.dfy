/** The order and verification paths of
    src/Controllers/Payment-controller/Payment-Controller.js: input validation,
    the guard chain that ends in a pending Payment, the gate sequence of the
    synchronous verification and its writes, the instalment schedule of a new
    EMI plan, and the pagination arithmetic of the payment history. */
module PaymentController {
  import opened Common
  import opened DateUtils
  import opened CourseModel
  import opened Records
  import opened Store
  import opened Crypto

  // ---------------------------------------------------------------------
  // validatePaymentData
  // ---------------------------------------------------------------------

  const UserIdRequired: string := "User ID is required"
  const CourseIdRequired: string := "Course ID is required"
  const AmountRequired: string := "Valid amount is required"

  /** The position of each message in the order the checks run. */
  function MessageRank(m: string): int
  {
    if m == UserIdRequired then 0 else if m == CourseIdRequired then 1 else 2
  }

  /** `!data.amount || isNaN(data.amount)` is false. */
  predicate AmountIsValid(amount: JsValue)
  {
    Truthy(amount) && !IsNaN(amount)
  }

  /** `validatePaymentData` (Payment-Controller.js:27-34): one message per
      failed check, in the order of the checks, and none when all pass. */
  method ValidatePaymentData(userId: Option<string>, courseId: Option<string>, amount: JsValue)
    returns (errors: seq<string>)
    ensures UserIdRequired in errors <==> !Present(userId)
    ensures CourseIdRequired in errors <==> !Present(courseId)
    ensures AmountRequired in errors <==> !AmountIsValid(amount)
    ensures forall e :: e in errors ==> e == UserIdRequired || e == CourseIdRequired || e == AmountRequired
    ensures forall i, j :: 0 <= i < j < |errors| ==> MessageRank(errors[i]) < MessageRank(errors[j])
    ensures errors == [] <==> Present(userId) && Present(courseId) && AmountIsValid(amount)
  {
    errors := [];
    if !Present(userId) {
      errors := errors + [UserIdRequired];
    }
    if !Present(courseId) {
      errors := errors + [CourseIdRequired];
    }
    if !AmountIsValid(amount) {
      errors := errors + [AmountRequired];
    }
  }

  // ---------------------------------------------------------------------
  // createPayment
  // ---------------------------------------------------------------------

  datatype CreatePaymentRequest = CreatePaymentRequest(
    courseId: Option<string>,
    amount: JsValue,
    paymentMethod: Option<string>,
    paymentType: Option<string>,
    emiDueDay: JsValue)

  datatype CreateError =
    | InvalidData(errors: seq<string>)
    | InvalidDueDay
    | InvalidCourseId
    | AlreadyEnrolled
    | UserNotFound
    | CourseNotFound
    | EmiNotAvailable
    | AmountMismatch
    | GatewayError

  datatype CreateOutcome =
    | Created(paymentId: Id, payment: Payment)
    | Rejected(code: int, error: CreateError)

  predicate IsEmiRequest(req: CreatePaymentRequest)
  {
    req.paymentType == Some("emi")
  }

  /** The due-day guard (Payment-Controller.js:55-60): a truthy integer in 1..31. */
  predicate DueDayOk(v: JsValue)
  {
    Truthy(v) && IsInteger(v) && 1.0 <= v.n <= 31.0
  }

  /** `User.exists({_id: userId, "enrolledCourses.course": courseId})`. */
  predicate IsEnrolled(users: map<Id, User>, userId: Id, courseId: Id)
  {
    userId in users && HasCourse(users[userId].enrolledCourses, courseId)
  }

  /** The amount the order must be for: the first instalment, or the final
      price. None when `validateCourseForEmi` throws or the price is unset. */
  function ExpectedAmount(course: Course, req: CreatePaymentRequest, utils: EmiUtils): Option<real>
  {
    if IsEmiRequest(req) then
      var d := utils.validateForEmi(course);
      if d.None? then None else Some(d.value.monthlyAmount)
    else course.price.finalPrice
  }

  /** Every guard of the chain passes (Payment-Controller.js:46-146). */
  predicate Admissible(users: map<Id, User>, courses: map<Id, Course>, userId: Option<Id>,
                       req: CreatePaymentRequest, utils: EmiUtils)
  {
    Present(userId) && Present(req.courseId) && AmountIsValid(req.amount) &&
    (IsEmiRequest(req) ==> DueDayOk(req.emiDueDay)) &&
    IsValidObjectId(req.courseId.value) &&
    !IsEnrolled(users, userId.value, req.courseId.value) &&
    userId.value in users && req.courseId.value in courses &&
    var expected := ExpectedAmount(courses[req.courseId.value], req, utils);
    expected.Some? && req.amount == Number(expected.value)
  }

  /** `createPayment` (Payment-Controller.js:36-234), given the gateway's reply
      to `orders.create` (None when it fails) and the id of the new record. */
  method CreatePayment(db: Database, userId: Option<Id>, req: CreatePaymentRequest, utils: EmiUtils,
                       gatewayOrderId: Option<string>, newPaymentId: Id)
    returns (r: CreateOutcome)
    requires db.Valid() && newPaymentId !in db.payments
    requires gatewayOrderId.Some? ==>
      forall id :: id in db.payments ==> db.payments[id].razorpayOrderId != gatewayOrderId.value
    modifies db
    ensures db.Valid()
    ensures db.plans == old(db.plans) && db.users == old(db.users)
    ensures db.courses == old(db.courses) && db.outbox == old(db.outbox)
    ensures r.Rejected? ==> db.payments == old(db.payments)
    ensures !(Present(userId) && Present(req.courseId) && AmountIsValid(req.amount)) ==>
      r.Rejected? && r.code == 400 && r.error.InvalidData?
    ensures (Present(userId) && Present(req.courseId) && AmountIsValid(req.amount) &&
      IsEmiRequest(req) && !DueDayOk(req.emiDueDay)) ==> r == Rejected(400, InvalidDueDay)
    ensures r.Created? <==> Admissible(old(db.users), old(db.courses), userId, req, utils) && gatewayOrderId.Some?
    ensures r.Created? ==>
      r.paymentId == newPaymentId &&
      db.payments == old(db.payments)[newPaymentId := r.payment] &&
      r.payment.status == PaymentStatus.Pending &&
      r.payment.userId == userId.value && r.payment.courseId == req.courseId.value &&
      Some(r.payment.amount) == ExpectedAmount(old(db.courses)[req.courseId.value], req, utils) &&
      r.payment.razorpayOrderId == gatewayOrderId.value &&
      (r.payment.kind == Emi <==> IsEmiRequest(req)) &&
      (r.payment.emiDueDay.Some? <==> r.payment.kind == Emi) &&
      (r.payment.kind == Emi ==> r.payment.emiDueDay.value as real == req.emiDueDay.n)
  {
    var errors := ValidatePaymentData(userId, req.courseId, req.amount);
    if |errors| > 0 {
      return Rejected(400, InvalidData(errors));
    }
    if IsEmiRequest(req) {
      if !DueDayOk(req.emiDueDay) {
        return Rejected(400, InvalidDueDay);
      }
    }
    var uid, cid := userId.value, req.courseId.value;
    if !IsValidObjectId(cid) {
      return Rejected(400, InvalidCourseId);
    }
    if IsEnrolled(db.users, uid, cid) {
      return Rejected(400, AlreadyEnrolled);
    }
    if uid !in db.users {
      return Rejected(404, UserNotFound);
    }
    if cid !in db.courses {
      return Rejected(404, CourseNotFound);
    }
    var course := db.courses[cid];
    var expected: real;
    var kind: PaymentKind;
    if IsEmiRequest(req) {
      var details := utils.validateForEmi(course);
      if details.None? {
        return Rejected(400, EmiNotAvailable);
      }
      expected := details.value.monthlyAmount;
      if req.amount != Number(expected) {
        return Rejected(400, AmountMismatch);
      }
      kind := Emi;
    } else {
      if course.price.finalPrice.None? || req.amount != Number(course.price.finalPrice.value) {
        return Rejected(400, AmountMismatch);
      }
      expected := course.price.finalPrice.value;
      kind := Full;
    }
    if gatewayOrderId.None? {
      return Rejected(500, GatewayError);
    }
    var dueDay := if kind == Emi then Some(req.emiDueDay.n.Floor) else None;
    var payment := Payment(uid, cid, course.name, expected, gatewayOrderId.value, None, None,
                           req.paymentMethod, PaymentStatus.Pending, kind, dueDay, None, None);
    PaymentInsertKeepsValid(db.payments, newPaymentId, payment);
    db.payments := db.payments[newPaymentId := payment];
    return Created(newPaymentId, payment);
  }

  // ---------------------------------------------------------------------
  // createEmiPlan: the instalment schedule
  // ---------------------------------------------------------------------

  const GraceMs: int := 3 * MsPerDay

  /** Instalment 1, paid at enrollment: due and paid now, no grace period. */
  function FirstInstallment(now: DateTime, amount: real): Installment
    requires ValidDateTime(now)
  {
    Installment(1, GetMonthNameFromDate(now.date), ToMillis(now), amount, Paid,
                Some(ToMillis(now)), None)
  }

  /** Instalment `month` >= 2: pending, due `month - 1` months on, with a
      3-day grace period. */
  function ScheduledInstallment(now: DateTime, dueDay: int, amount: real, month: int): Installment
  {
    var d := GetNextDueDate(now, dueDay, month - 1);
    var due := MidnightMillis(d);
    Installment(month, GetMonthNameFromDate(d), due, amount, InstallmentStatus.Pending, None,
                Some(due + GraceMs))
  }

  function ScheduleLength(months: int): (n: int)
    ensures n >= 1 && (months >= 1 ==> n == months)
  {
    if months < 1 then 1 else months
  }

  /** The instalment array `createEmiPlan` builds (Payment-Controller.js:499-524). */
  predicate IsSchedule(emis: seq<Installment>, now: DateTime, dueDay: int, amount: real, months: int)
    requires ValidDateTime(now)
  {
    |emis| == ScheduleLength(months) &&
    emis[0] == FirstInstallment(now, amount) &&
    forall k :: 1 <= k < |emis| ==> emis[k] == ScheduledInstallment(now, dueDay, amount, k + 1)
  }

  /** The loop of `createEmiPlan`: the paid first instalment, then one pending
      instalment for each month from 2 to `months`. */
  method BuildSchedule(now: DateTime, dueDay: int, amount: real, months: int)
    returns (emis: seq<Installment>)
    requires ValidDateTime(now)
    ensures IsSchedule(emis, now, dueDay, amount, months)
  {
    emis := [FirstInstallment(now, amount)];
    var month := 2;
    while month <= months
      invariant 2 <= month <= ScheduleLength(months) + 1
      invariant |emis| == month - 1
      invariant emis[0] == FirstInstallment(now, amount)
      invariant forall k :: 1 <= k < |emis| ==> emis[k] == ScheduledInstallment(now, dueDay, amount, k + 1)
    {
      var next := ScheduledInstallment(now, dueDay, amount, month);
      assert forall k :: 1 <= k < |emis| ==> (emis + [next])[k] == emis[k];
      emis := emis + [next];
      month := month + 1;
    }
    assert month == ScheduleLength(months) + 1;
  }

  /** The schedule as a value. */
  function Schedule(now: DateTime, dueDay: int, amount: real, months: int): (emis: seq<Installment>)
    requires ValidDateTime(now)
    ensures IsSchedule(emis, now, dueDay, amount, months)
  {
    var emis := seq(ScheduleLength(months), k => ScheduleEntry(now, dueDay, amount, k));
    assert emis[0] == FirstInstallment(now, amount);
    emis
  }

  /** Entry `k` (from 0) of the schedule. */
  function ScheduleEntry(now: DateTime, dueDay: int, amount: real, k: int): Installment
    requires ValidDateTime(now)
  {
    if k == 0 then FirstInstallment(now, amount) else ScheduledInstallment(now, dueDay, amount, k + 1)
  }

  /** The schedule is determined by its inputs. */
  lemma ScheduleUnique(a: seq<Installment>, now: DateTime, dueDay: int, amount: real, months: int)
    requires ValidDateTime(now) && IsSchedule(a, now, dueDay, amount, months)
    ensures a == Schedule(now, dueDay, amount, months)
  {
    var b := Schedule(now, dueDay, amount, months);
    assert forall k :: 0 <= k < |a| ==> a[k] == b[k];
  }

  /** max(1, months) instalments: the first paid now, the others pending with
      their month number, a due date on the clamped due day, and a grace
      period ending three days after the due date; all for the monthly amount. */
  lemma ScheduleShape(emis: seq<Installment>, now: DateTime, dueDay: int, amount: real, months: int, k: int)
    requires ValidDateTime(now) && 1 <= dueDay <= 31
    requires IsSchedule(emis, now, dueDay, amount, months) && 0 <= k < |emis|
    ensures |emis| == (if months < 1 then 1 else months)
    ensures emis[k].amount == amount && emis[k].month == k + 1
    ensures k == 0 ==> (emis[k].status == Paid && emis[k].dueDate == ToMillis(now) &&
      emis[k].paymentDate == Some(ToMillis(now)) && emis[k].gracePeriodEnd.None?)
    ensures k >= 1 ==>
      var d := GetNextDueDate(now, dueDay, k);
      emis[k].status == InstallmentStatus.Pending && emis[k].dueDate == MidnightMillis(d) &&
      emis[k].gracePeriodEnd == Some(emis[k].dueDate + 259_200_000) &&
      ValidDate(d) && d.day == Min(dueDay, DaysInMonth(d.year, d.month)) &&
      emis[k].monthName == MonthNames[d.month]
  {
    if k >= 1 {
      NextDueDateIsClamped(now, dueDay, k);
    }
  }

  /** The first instalment falls before every later one; the later ones never
      go backwards, and strictly increase when the start day is at most 28. */
  lemma ScheduleDueDatesOrdered(emis: seq<Installment>, now: DateTime, dueDay: int, amount: real,
                                months: int, i: int, j: int)
    requires ValidDateTime(now) && 1 <= dueDay
    requires IsSchedule(emis, now, dueDay, amount, months) && 0 <= i < j < |emis|
    ensures emis[i].dueDate <= emis[j].dueDate
    ensures i == 0 ==> emis[i].dueDate < emis[j].dueDate
    ensures now.date.day <= 28 ==> emis[i].dueDate < emis[j].dueDate
  {
    if i == 0 {
      NextDueDateAfterStart(now, dueDay, j);
    } else {
      var a, b := GetNextDueDate(now, dueDay, i), GetNextDueDate(now, dueDay, j);
      NextDueDatesNonDecreasing(now, dueDay, i, j);
      if now.date.day <= 28 {
        NextDueDatesIncrease(now, dueDay, i, j);
      }
    }
  }

  /** A start on 31 January 2025 with due day 15 gives instalments 2 and 3 the
      same due date, 15 March 2025: the overflowed `setMonth` skips February. */
  lemma JanuaryThirtyFirstRepeatsDueDate(emis: seq<Installment>, ms: int, amount: real, months: int)
    requires 0 <= ms < MsPerDay && months >= 3
    requires IsSchedule(emis, DateTime(CivilDate(2025, 0, 31), ms), 15, amount, months)
    ensures emis[1].dueDate == emis[2].dueDate == MidnightMillis(CivilDate(2025, 2, 15))
  {
    JanuaryThirtyFirstSkipsFebruary(ms);
  }

  /** The plan `createEmiPlan` saves (Payment-Controller.js:526-543). */
  function NewPlan(userId: Id, courseId: Id, course: Course, dueDay: int, details: EmiDetails,
                   now: DateTime): EmiPlan
    requires ValidDateTime(now)
  {
    EmiPlan(userId, courseId, course.name, course.price.finalPrice, details.totalAmount,
            details.months, dueDay, ToMillis(now), Active,
            Schedule(now, dueDay, details.monthlyAmount, details.months), [])
  }

  /** A new plan is active with an empty lock history, so it satisfies the lock
      invariant, and it records the chosen due day, period and start. */
  lemma NewPlanFacts(userId: Id, courseId: Id, course: Course, dueDay: int, details: EmiDetails, now: DateTime)
    requires ValidDateTime(now)
    ensures var p := NewPlan(userId, courseId, course, dueDay, details, now);
      p.status == Active && p.lockHistory == [] && LockConsistent(p) &&
      p.selectedDueDay == dueDay && p.emiPeriod == details.months &&
      p.startDate == ToMillis(now) && p.emis[0].status == Paid &&
      IsSchedule(p.emis, now, dueDay, details.monthlyAmount, details.months)
  {
  }

  /** `createEmiPlan(...)` (Payment-Controller.js:490-568), at instant `now`,
      saving the plan under the fresh id `planId`. */
  method CreateEmiPlan(db: Database, userId: Id, courseId: Id, course: Course, dueDay: int,
                       details: EmiDetails, now: DateTime, planId: Id)
    returns (plan: EmiPlan)
    requires ValidDateTime(now) && planId !in db.plans
    modifies db
    ensures plan == NewPlan(userId, courseId, course, dueDay, details, now)
    ensures db.plans == old(db.plans)[planId := plan]
    ensures db.users == AddEnrollment(old(db.users), userId, Enrollment(courseId, course.name, Some(planId), AccessActive))
    ensures db.courses == IncEnrollmentCount(old(db.courses), courseId)
    ensures db.payments == old(db.payments) && db.outbox == old(db.outbox)
  {
    var emis := BuildSchedule(now, dueDay, details.monthlyAmount, details.months);
    ScheduleUnique(emis, now, dueDay, details.monthlyAmount, details.months);
    plan := EmiPlan(userId, courseId, course.name, course.price.finalPrice, details.totalAmount,
                    details.months, dueDay, ToMillis(now), Active, emis, []);
    db.plans := db.plans[planId := plan];
    db.users := AddEnrollment(db.users, userId, Enrollment(courseId, course.name, Some(planId), AccessActive));
    db.courses := IncEnrollmentCount(db.courses, courseId);
  }

  // ---------------------------------------------------------------------
  // verifyPayment
  // ---------------------------------------------------------------------

  datatype VerifyRequest = VerifyRequest(
    razorpayPaymentId: Option<string>,
    razorpayOrderId: Option<string>,
    razorpaySignature: Option<string>,
    paymentId: Option<string>,
    refundRequested: JsValue)

  datatype VerifyOutcome =
    | MissingFields
    | RefundRefused
    | BadSignature
    | NotCaptured
    | GatewayFailure
    | InvalidPaymentId
    | PaymentNotFound
    | CourseOrUserNotFound
    | Verified

  /** The HTTP status each outcome is answered with. */
  function VerifyCode(o: VerifyOutcome): int
  {
    match o
    case MissingFields => 400
    case RefundRefused => 400
    case BadSignature => 400
    case NotCaptured => 400
    case GatewayFailure => 500
    case InvalidPaymentId => 500
    case PaymentNotFound => 404
    case CourseOrUserNotFound => 404
    case Verified => 200
  }

  predicate FieldsPresent(req: VerifyRequest)
  {
    Present(req.razorpayPaymentId) && Present(req.razorpayOrderId) &&
    Present(req.razorpaySignature) && Present(req.paymentId)
  }

  /** `HMAC-SHA256(keySecret, orderId + "|" + paymentId)` as lower-case hex. */
  function CheckoutSignature(cfg: Config, orderId: string, paymentId: string): string
  {
    HexEncode(cfg.hmac(cfg.keySecret, orderId + "|" + paymentId))
  }

  predicate SignatureMatches(cfg: Config, req: VerifyRequest)
    requires FieldsPresent(req)
  {
    CheckoutSignature(cfg, req.razorpayOrderId.value, req.razorpayPaymentId.value) == req.razorpaySignature.value
  }

  /** The gates before any write pass: fields, refund flag, signature, and a
      gateway status of "captured". */
  predicate GatesPass(req: VerifyRequest, cfg: Config, fetched: Option<string>)
  {
    FieldsPresent(req) && !Truthy(req.refundRequested) && SignatureMatches(cfg, req) &&
    fetched == Some("captured")
  }

  /** The Payment record after the verification write. */
  function CompletedBy(p: Payment, req: VerifyRequest): Payment
  {
    p.(status := Completed, razorpayPaymentId := req.razorpayPaymentId,
       razorpaySignature := req.razorpaySignature)
  }

  /** The writes after a payment is confirmed (Payment-Controller.js:336-402):
      for EMI a new plan, its enrollment and a counter increment inside
      `createEmiPlan`, then the welcome notice; for a full payment the
      enrollment and the notice; in both cases one more counter increment. */
  function EnrollmentEffect(s: DbState, p: Payment, course: Course, utils: EmiUtils, now: DateTime,
                            planId: Id): DbState
    requires ValidDateTime(now) && (p.kind == Emi ==> p.emiDueDay.Some?)
  {
    if p.kind == Emi then
      var plan := NewPlan(p.userId, p.courseId, course, p.emiDueDay.value, utils.details(course), now);
      DbState(s.payments, s.plans[planId := plan],
              AddEnrollment(s.users, p.userId, Enrollment(p.courseId, course.name, Some(planId), AccessActive)),
              IncEnrollmentCount(IncEnrollmentCount(s.courses, p.courseId), p.courseId),
              s.outbox + [Welcome(p.userId, course.name, true)])
    else
      DbState(s.payments, s.plans,
              AddEnrollment(s.users, p.userId, Enrollment(p.courseId, course.name, None, AccessActive)),
              IncEnrollmentCount(s.courses, p.courseId),
              s.outbox + [Welcome(p.userId, course.name, false)])
  }

  /** The course counter goes up twice for EMI (once inside `createEmiPlan`,
      once after it) and once for a full payment; an EMI confirmation adds an
      active plan, a full one adds none; the learner is enrolled either way;
      payments are not touched and no key disappears. */
  lemma EnrollmentEffectFacts(s: DbState, p: Payment, course: Course, utils: EmiUtils, now: DateTime,
                              planId: Id)
    requires ValidDateTime(now) && (p.kind == Emi ==> p.emiDueDay.Some?)
    requires p.courseId in s.courses && p.userId in s.users
    ensures var r := EnrollmentEffect(s, p, course, utils, now, planId);
      r.payments == s.payments && r.courses.Keys == s.courses.Keys && r.users.Keys == s.users.Keys &&
      r.courses[p.courseId].studentEnrollmentCount ==
        s.courses[p.courseId].studentEnrollmentCount + (if p.kind == Emi then 2 else 1) &&
      (p.kind == Emi ==> (r.plans.Keys == s.plans.Keys + {planId} && r.plans[planId].status == Active &&
        LockConsistent(r.plans[planId]))) &&
      (p.kind == Full ==> r.plans == s.plans) &&
      exists e :: e in r.users[p.userId].enrolledCourses && e.course == p.courseId &&
        e.accessStatus == AccessActive && (e.emiPlan.Some? <==> p.kind == Emi)
  {
    var r := EnrollmentEffect(s, p, course, utils, now, planId);
    if p.kind == Emi {
      NewPlanFacts(p.userId, p.courseId, course, p.emiDueDay.value, utils.details(course), now);
      var e := Enrollment(p.courseId, course.name, Some(planId), AccessActive);
      assert e in r.users[p.userId].enrolledCourses;
    } else {
      var e := Enrollment(p.courseId, course.name, None, AccessActive);
      assert e in r.users[p.userId].enrolledCourses;
    }
  }

  /** The enrollment keeps the store's invariants. */
  lemma EnrollmentEffectKeepsValid(s: DbState, p: Payment, course: Course, utils: EmiUtils, now: DateTime,
                                   planId: Id)
    requires ValidDateTime(now) && (p.kind == Emi ==> p.emiDueDay.Some?)
    requires PaymentsValid(s.payments) && CoursesPriced(s.courses)
    ensures var r := EnrollmentEffect(s, p, course, utils, now, planId);
      PaymentsValid(r.payments) && CoursesPriced(r.courses)
  {
    IncKeepsPriced(s.courses, p.courseId);
    IncKeepsPriced(IncEnrollmentCount(s.courses, p.courseId), p.courseId);
  }

  /** The enrollment branch of `verifyPayment`, on a confirmed payment. */
  method EnrollConfirmed(db: Database, p: Payment, utils: EmiUtils, now: DateTime, planId: Id)
    requires ValidDateTime(now) && (p.kind == Emi ==> p.emiDueDay.Some?) && planId !in db.plans
    requires p.courseId in db.courses && p.userId in db.users
    modifies db
    ensures db.Snapshot() == EnrollmentEffect(old(db.Snapshot()), p, old(db.courses)[p.courseId], utils, now, planId)
  {
    var course := db.courses[p.courseId];
    if p.kind == Emi {
      var details := utils.details(course);
      var _ := CreateEmiPlan(db, p.userId, p.courseId, course, p.emiDueDay.value, details, now, planId);
      db.outbox := db.outbox + [Welcome(p.userId, course.name, true)];
    } else {
      db.users := AddEnrollment(db.users, p.userId, Enrollment(p.courseId, course.name, None, AccessActive));
      db.outbox := db.outbox + [Welcome(p.userId, course.name, false)];
    }
    db.courses := IncEnrollmentCount(db.courses, p.courseId);
  }

  /** Every check of `verifyPayment` up to the enrollment passes. */
  predicate VerifyAccepts(s: DbState, req: VerifyRequest, cfg: Config, fetched: Option<string>)
  {
    GatesPass(req, cfg, fetched) && IsValidObjectId(req.paymentId.value) &&
    req.paymentId.value in s.payments &&
    s.payments[req.paymentId.value].courseId in s.courses &&
    s.payments[req.paymentId.value].userId in s.users
  }

  /** The checks of `verifyPayment` before its first write, in their order
      (Payment-Controller.js:248-317): None when all of them pass. */
  function GateOutcome(payments: map<Id, Payment>, req: VerifyRequest, cfg: Config,
                       fetched: Option<string>): (o: Option<VerifyOutcome>)
    ensures !FieldsPresent(req) ==> o == Some(MissingFields)
    ensures FieldsPresent(req) && Truthy(req.refundRequested) ==> o == Some(RefundRefused)
    ensures (FieldsPresent(req) && !Truthy(req.refundRequested) && !SignatureMatches(cfg, req)) ==>
      o == Some(BadSignature)
    ensures (FieldsPresent(req) && !Truthy(req.refundRequested) && SignatureMatches(cfg, req) &&
      fetched.Some? && fetched.value != "captured") ==> o == Some(NotCaptured)
    ensures o.Some? && VerifyCode(o.value) == 400 ==> !GatesPass(req, cfg, fetched)
    ensures o.None? <==> (GatesPass(req, cfg, fetched) && IsValidObjectId(req.paymentId.value) &&
      req.paymentId.value in payments)
  {
    if !FieldsPresent(req) then Some(MissingFields)
    else if Truthy(req.refundRequested) then Some(RefundRefused)
    else if CheckoutSignature(cfg, req.razorpayOrderId.value, req.razorpayPaymentId.value) != req.razorpaySignature.value then
      Some(BadSignature)
    else if fetched.None? then Some(GatewayFailure)
    else if fetched.value != "captured" then Some(NotCaptured)
    // findByIdAndUpdate cannot cast a malformed id and throws
    else if !IsValidObjectId(req.paymentId.value) then Some(InvalidPaymentId)
    else if req.paymentId.value !in payments then Some(PaymentNotFound)
    else None
  }

  /** `verifyPayment` (Payment-Controller.js:236-438), given the status reply of
      `payments.fetch` (None when the call fails), the instant `now` and the id
      a new EMI plan would get. A failed check leaves every collection as it
      was. The prior status of the payment is not checked, so a repeated call
      repeats every write. */
  method VerifyPayment(db: Database, req: VerifyRequest, cfg: Config, fetched: Option<string>,
                       utils: EmiUtils, now: DateTime, newPlanId: Id)
    returns (o: VerifyOutcome)
    requires db.Valid() && ValidDateTime(now) && newPlanId !in db.plans
    modifies db
    ensures db.Valid()
    ensures o == Verified <==> VerifyAccepts(old(db.Snapshot()), req, cfg, fetched)
    ensures GateOutcome(old(db.payments), req, cfg, fetched).Some? ==>
      o == GateOutcome(old(db.payments), req, cfg, fetched).value && db.Snapshot() == old(db.Snapshot())
    ensures GateOutcome(old(db.payments), req, cfg, fetched).None? ==>
      var pid := req.paymentId.value;
      var s := old(db.Snapshot()).(payments := old(db.payments)[pid := CompletedBy(old(db.payments)[pid], req)]);
      (o == CourseOrUserNotFound || o == Verified) &&
      (o == CourseOrUserNotFound ==> db.Snapshot() == s) &&
      (o == Verified ==>
        db.Snapshot() == EnrollmentEffect(s, s.payments[pid], s.courses[s.payments[pid].courseId], utils, now, newPlanId))
  {
    var gate := GateOutcome(db.payments, req, cfg, fetched);
    if gate.Some? {
      return gate.value;
    }
    var pid := req.paymentId.value;
    var updated := CompletedBy(db.payments[pid], req);
    PaymentUpdateKeepsValid(db.payments, pid, updated);
    db.payments := db.payments[pid := updated];
    if updated.courseId !in db.courses || updated.userId !in db.users {
      return CourseOrUserNotFound;
    }
    ghost var s := db.Snapshot();
    EnrollmentEffectKeepsValid(s, updated, db.courses[updated.courseId], utils, now, newPlanId);
    EnrollConfirmed(db, updated, utils, now, newPlanId);
    assert db.Snapshot() == EnrollmentEffect(s, s.payments[pid], s.courses[s.payments[pid].courseId], utils, now, newPlanId);
    return Verified;
  }

  /** Two identical successful verifications: the second one passes every gate
      again and repeats the writes, so the course counter goes up by 4 for an
      EMI payment, which gets two plans, and by 2 for a full payment. */
  method VerifyTwice(db: Database, req: VerifyRequest, cfg: Config, fetched: Option<string>,
                     utils: EmiUtils, now: DateTime, planId1: Id, planId2: Id)
    returns (o1: VerifyOutcome, o2: VerifyOutcome)
    requires db.Valid() && ValidDateTime(now) && VerifyAccepts(db.Snapshot(), req, cfg, fetched)
    requires planId1 !in db.plans && planId2 !in db.plans && planId1 != planId2
    modifies db
    ensures o1 == Verified && o2 == Verified
    ensures var p := old(db.payments)[req.paymentId.value];
      p.courseId in db.courses &&
      db.courses[p.courseId].studentEnrollmentCount ==
        old(db.courses)[p.courseId].studentEnrollmentCount + (if p.kind == Emi then 4 else 2) &&
      (p.kind == Emi ==> planId1 in db.plans && planId2 in db.plans)
  {
    ghost var s0 := db.Snapshot();
    var pid := req.paymentId.value;
    ghost var p := CompletedBy(s0.payments[pid], req);
    ghost var s := s0.(payments := s0.payments[pid := p]);
    o1 := VerifyPayment(db, req, cfg, fetched, utils, now, planId1);
    EnrollmentEffectFacts(s, p, s.courses[p.courseId], utils, now, planId1);
    ghost var s1 := db.Snapshot();
    assert s1.payments[pid] == p;
    assert VerifyAccepts(s1, req, cfg, fetched);
    assert GateOutcome(s1.payments, req, cfg, fetched).None?;
    o2 := VerifyPayment(db, req, cfg, fetched, utils, now, planId2);
    assert CompletedBy(p, req) == p;
    assert s1.payments[pid := p] == s1.payments by {
      UpdateWithSame(s1.payments, pid);
    }
    EnrollmentEffectFacts(s1, p, s1.courses[p.courseId], utils, now, planId2);
  }

  /** Writing back the value a key already has leaves the map as it is. */
  lemma UpdateWithSame<K, V>(m: map<K, V>, k: K)
    requires k in m
    ensures m[k := m[k]] == m
  {
  }

  // ---------------------------------------------------------------------
  // getUserPayments: pagination arithmetic
  // ---------------------------------------------------------------------

  /** The query defaults `page = 1` and `limit = 5`. */
  function PageOrDefault(page: Option<int>): int
  {
    if page.Some? then page.value else 1
  }

  function LimitOrDefault(limit: Option<int>): int
  {
    if limit.Some? then limit.value else 5
  }

  /** `.skip((page - 1) * limit)` (Payment-Controller.js:610). */
  function Skip(page: int, limit: int): int
  {
    (page - 1) * limit
  }

  /** `Math.ceil(total / limit)` (Payment-Controller.js:654); None where the
      division by zero gives NaN or Infinity. */
  function TotalPages(total: nat, limit: int): (pages: Option<int>)
    ensures pages.None? <==> limit == 0
  {
    if limit == 0 then None else Some(Ceil(total as real / limit as real))
  }

  /** With a positive limit the pages are just enough for the documents: the
      last page starts before `total` and ends at or after it, and every
      document index falls on exactly one page in 1..totalPages. */
  lemma PagesCoverDocuments(total: nat, limit: int, j: int)
    requires limit > 0 && 0 <= j < total
    ensures var n := TotalPages(total, limit).value;
      n >= 1 && Skip(n, limit) < total <= n * limit &&
      var page := j / limit + 1;
      1 <= page <= n && Skip(page, limit) <= j < Skip(page, limit) + limit
  {
    var n := TotalPages(total, limit).value;
    CeilCovers(total, limit, n);
    var q := j / limit;
    assert q * limit <= j < q * limit + limit;
    assert q < n by {
      if q >= n {
        MulMonotone(n, q, limit);
      }
    }
  }

  /** `Math.ceil(total / limit)` pages of `limit` documents hold `total`
      documents, and one page fewer does not. */
  lemma CeilCovers(total: nat, limit: int, n: int)
    requires limit > 0 && n == Ceil(total as real / limit as real)
    ensures n >= 1 || total == 0
    ensures (n - 1) * limit < total <= n * limit
  {
    var x := total as real / limit as real;
    var l := limit as real;
    assert x * l == total as real;
    RealMulMonotone(x, n as real, l);
    RealMulStrict((n - 1) as real, x, l);
    assert (n as real) * l == (n * limit) as real;
    assert ((n - 1) as real) * l == ((n - 1) * limit) as real;
  }

  lemma MulMonotone(a: int, b: int, c: int)
    requires a <= b && c > 0
    ensures a * c <= b * c
  {
  }

  lemma RealMulMonotone(a: real, b: real, c: real)
    requires a <= b && c > 0.0
    ensures a * c <= b * c
  {
  }

  lemma RealMulStrict(a: real, b: real, c: real)
    requires a < b && c > 0.0
    ensures a * c < b * c
  {
  }

  /** The page defaults give the first five documents. */
  lemma DefaultPageIsFirstFive()
    ensures Skip(PageOrDefault(None), LimitOrDefault(None)) == 0
    ensures LimitOrDefault(None) == 5
  {
  }
}
