/** src/Middleware/EMI-accessMiddleware.js: `checkCourseAccessMiddleware`
    decides, from three lookups, whether a learner may open a course, and
    hands the verdict to the next handler as `req.courseAccess`. The lookups
    read the payments, the users and the plans; the calculator is the
    uninterpreted `calculateEmiStatus`, and the order in which a scan returns
    payments is a parameter. */
module AccessMiddleware {
  import opened Common
  import opened Records
  import opened Store

  datatype AccessReason = FullPayment | EmiActive | EmiOverdue | EmiLocked | PaymentRequired

  /** `paymentType` of the verdict: "full", "emi" or "none". */
  datatype PaymentChannel = PaidInFull | PaidByEmi | NoPayment

  /** `req.courseAccess`. `fullAccess` is `accessType == "full"`; the payment
      amount is carried for a full payment, and the calculator's verdict (whose
      overdue count, overdue total and next due amount and date the denied
      branch copies out) and the plan for an EMI enrollment. */
  datatype CourseAccess = CourseAccess(
    hasAccess: bool,
    reason: AccessReason,
    fullAccess: bool,
    paymentType: PaymentChannel,
    paidAmount: Option<real>,
    emiStatus: Option<EmiStatus>,
    emiPlan: Option<Id>)

  /** What the middleware does: answer 400, or call `next()` once with the verdict. */
  datatype AccessResponse = InvalidCourseId | Next(access: CourseAccess)

  predicate IsFullPaymentFor(p: Payment, userId: Id, courseId: Id)
  {
    p.userId == userId && p.courseId == courseId && p.status == Completed && p.kind == Full
  }

  /** `Payment.findOne({userId, courseId, paymentStatus: "completed",
      paymentType: {$ne: "emi"}})`: the first match in the scan from `k`. */
  function FindFullPaymentFrom(payments: map<Id, Payment>, order: seq<Id>, userId: Id, courseId: Id,
                               k: nat): (r: Option<Payment>)
    requires forall i :: 0 <= i < |order| ==> order[i] in payments
    requires k <= |order|
    ensures r.Some? ==> IsFullPaymentFor(r.value, userId, courseId) && r.value in payments.Values
    ensures r.Some? ==>
      exists j :: k <= j < |order| && r.value == payments[order[j]] &&
        (forall i :: k <= i < j ==> !IsFullPaymentFor(payments[order[i]], userId, courseId))
    ensures r.None? <==> forall j :: k <= j < |order| ==> !IsFullPaymentFor(payments[order[j]], userId, courseId)
    decreases |order| - k
  {
    if k == |order| then None
    else if IsFullPaymentFor(payments[order[k]], userId, courseId) then Some(payments[order[k]])
    else FindFullPaymentFrom(payments, order, userId, courseId, k + 1)
  }

  function FindFullPayment(payments: map<Id, Payment>, order: seq<Id>, userId: Id, courseId: Id): (r: Option<Payment>)
    requires IsEnumeration(order, payments.Keys)
    ensures r.Some? ==> IsFullPaymentFor(r.value, userId, courseId) && r.value in payments.Values
    ensures r.Some? ==>
      exists j :: 0 <= j < |order| && r.value == payments[order[j]] &&
        (forall i :: 0 <= i < j ==> !IsFullPaymentFor(payments[order[i]], userId, courseId))
    ensures r.None? <==> forall id :: id in payments ==> !IsFullPaymentFor(payments[id], userId, courseId)
  {
    ScanCoversPayments(payments, order, userId, courseId);
    FindFullPaymentFrom(payments, order, userId, courseId, 0)
  }

  /** A scan that meets every payment finds a full payment when there is one. */
  lemma ScanCoversPayments(payments: map<Id, Payment>, order: seq<Id>, userId: Id, courseId: Id)
    requires IsEnumeration(order, payments.Keys)
    ensures (forall j :: 0 <= j < |order| ==> !IsFullPaymentFor(payments[order[j]], userId, courseId)) ==>
      forall id :: id in payments ==> !IsFullPaymentFor(payments[id], userId, courseId)
  {
    if forall j :: 0 <= j < |order| ==> !IsFullPaymentFor(payments[order[j]], userId, courseId) {
      forall id | id in payments
        ensures !IsFullPaymentFor(payments[id], userId, courseId)
      {
        var j :| 0 <= j < |order| && order[j] == id;
      }
    }
  }

  /** `User.findOne({_id: userId, "enrolledCourses.course": courseId},
      {"enrolledCourses.$": 1}).populate("enrolledCourses.emiPlan")`, reduced to
      the plan it yields: the first enrollment for the course, when it names a
      plan that exists. */
  function LinkedPlan(users: map<Id, User>, plans: map<Id, EmiPlan>, userId: Id, courseId: Id): (r: Option<Id>)
    ensures r.Some? <==> (userId in users && FirstEnrollment(users[userId], courseId).Some? &&
      FirstEnrollment(users[userId], courseId).value.emiPlan.Some? &&
      FirstEnrollment(users[userId], courseId).value.emiPlan.value in plans)
    ensures r.Some? ==> r == FirstEnrollment(users[userId], courseId).value.emiPlan && r.value in plans
  {
    if userId !in users then None
    else
      var e := FirstEnrollment(users[userId], courseId);
      if e.None? || e.value.emiPlan.None? || e.value.emiPlan.value !in plans then None
      else e.value.emiPlan
  }

  /** The verdict for an EMI-linked enrollment (EMI-accessMiddleware.js:62-101). */
  function EmiVerdict(st: EmiStatus, planId: Id): (v: CourseAccess)
    ensures v.hasAccess == st.hasAccessToContent && v.paymentType == PaidByEmi
    ensures v.emiStatus == Some(st) && v.emiPlan == Some(planId)
    ensures v.reason == (if st.hasAccessToContent then EmiActive
                         else if st.hasOverduePayments then EmiOverdue else EmiLocked)
  {
    if st.hasAccessToContent then CourseAccess(true, EmiActive, true, PaidByEmi, None, Some(st), Some(planId))
    else CourseAccess(false, if st.hasOverduePayments then EmiOverdue else EmiLocked, false, PaidByEmi,
                      None, Some(st), Some(planId))
  }

  /** `checkCourseAccessMiddleware` (EMI-accessMiddleware.js:6-122), with the
      instant the calculator reads. */
  function CheckCourseAccess(payments: map<Id, Payment>, users: map<Id, User>, plans: map<Id, EmiPlan>,
                             order: seq<Id>, userId: Id, courseId: string, utils: EmiUtils,
                             now: Instant): (r: AccessResponse)
    requires IsEnumeration(order, payments.Keys)
    ensures r.InvalidCourseId? <==> !IsValidObjectId(courseId)
    ensures r.Next? ==> (r.access.hasAccess <==> r.access.reason in {FullPayment, EmiActive})
    ensures r.Next? ==> (r.access.fullAccess <==> r.access.hasAccess)
  {
    if !IsValidObjectId(courseId) then InvalidCourseId
    else
      var full := FindFullPayment(payments, order, userId, courseId);
      if full.Some? then
        Next(CourseAccess(true, FullPayment, true, PaidInFull, Some(full.value.amount), None, None))
      else
        var planId := LinkedPlan(users, plans, userId, courseId);
        if planId.Some? then
          Next(EmiVerdict(utils.calculate(plans[planId.value], now), planId.value))
        else
          Next(CourseAccess(false, PaymentRequired, false, NoPayment, None, None, None))
  }

  /** A completed full payment grants access, and then neither the
      enrollments, the plans nor the calculator are consulted. The verdict
      reports the amount of the first such payment in the scan. */
  lemma FullPaymentGrants(payments: map<Id, Payment>, users: map<Id, User>, plans: map<Id, EmiPlan>,
                          order: seq<Id>, userId: Id, courseId: string, utils: EmiUtils, now: Instant,
                          users2: map<Id, User>, plans2: map<Id, EmiPlan>, utils2: EmiUtils, now2: Instant,
                          pid: Id)
    requires IsEnumeration(order, payments.Keys) && IsValidObjectId(courseId)
    requires pid in payments && IsFullPaymentFor(payments[pid], userId, courseId)
    ensures var r := CheckCourseAccess(payments, users, plans, order, userId, courseId, utils, now);
      r.Next? && r.access.hasAccess && r.access.reason == FullPayment && r.access.paymentType == PaidInFull &&
      r == CheckCourseAccess(payments, users2, plans2, order, userId, courseId, utils2, now2)
    ensures var r := CheckCourseAccess(payments, users, plans, order, userId, courseId, utils, now);
      exists j :: 0 <= j < |order| && IsFullPaymentFor(payments[order[j]], userId, courseId) &&
        r.access.paidAmount == Some(payments[order[j]].amount) &&
        (forall i :: 0 <= i < j ==> !IsFullPaymentFor(payments[order[i]], userId, courseId))
  {
  }

  /** Without a full payment, an enrollment linked to an existing plan gets the
      calculator's verdict on that plan: `emi_active` with access when it
      grants content, otherwise `emi_overdue` or `emi_locked` by whether
      payments are overdue. */
  lemma EmiEnrollmentUsesCalculator(payments: map<Id, Payment>, users: map<Id, User>, plans: map<Id, EmiPlan>,
                                    order: seq<Id>, userId: Id, courseId: string, utils: EmiUtils, now: Instant)
    requires IsEnumeration(order, payments.Keys) && IsValidObjectId(courseId)
    requires forall id :: id in payments ==> !IsFullPaymentFor(payments[id], userId, courseId)
    requires LinkedPlan(users, plans, userId, courseId).Some?
    ensures var planId := LinkedPlan(users, plans, userId, courseId).value;
      var st := utils.calculate(plans[planId], now);
      var r := CheckCourseAccess(payments, users, plans, order, userId, courseId, utils, now);
      r.Next? && r.access.paymentType == PaidByEmi && r.access.hasAccess == st.hasAccessToContent &&
      r.access.emiStatus == Some(st) && r.access.emiPlan == Some(planId) &&
      (st.hasAccessToContent ==> r.access.reason == EmiActive) &&
      (!st.hasAccessToContent && st.hasOverduePayments ==> r.access.reason == EmiOverdue) &&
      (!st.hasAccessToContent && !st.hasOverduePayments ==> r.access.reason == EmiLocked)
  {
  }

  /** `payment_required` with payment type "none" is exactly the case of a
      well-formed id with neither a full payment nor a linked plan. */
  lemma PaymentRequiredExactly(payments: map<Id, Payment>, users: map<Id, User>, plans: map<Id, EmiPlan>,
                               order: seq<Id>, userId: Id, courseId: string, utils: EmiUtils, now: Instant)
    requires IsEnumeration(order, payments.Keys)
    ensures var r := CheckCourseAccess(payments, users, plans, order, userId, courseId, utils, now);
      (r.Next? && r.access.reason == PaymentRequired) <==>
        (IsValidObjectId(courseId) &&
         (forall id :: id in payments ==> !IsFullPaymentFor(payments[id], userId, courseId)) &&
         LinkedPlan(users, plans, userId, courseId).None?)
    ensures var r := CheckCourseAccess(payments, users, plans, order, userId, courseId, utils, now);
      r.Next? && r.access.reason == PaymentRequired ==> r.access.paymentType == NoPayment && !r.access.hasAccess
  {
  }

  /** Two enrollment lists that differ at most in `accessStatus`. */
  predicate SameButAccess(a: seq<Enrollment>, b: seq<Enrollment>)
  {
    |a| == |b| && forall i :: 0 <= i < |a| ==> a[i].(accessStatus := AccessActive) == b[i].(accessStatus := AccessActive)
  }

  lemma {:induction false} FirstIndexIgnoresAccess(a: seq<Enrollment>, b: seq<Enrollment>, course: Id)
    requires SameButAccess(a, b)
    ensures FirstIndex(a, course) == FirstIndex(b, course)
  {
    if a != [] {
      assert a[0].course == b[0].course;
      assert SameButAccess(a[1..], b[1..]) by {
        forall i | 0 <= i < |a[1..]|
          ensures a[1..][i].(accessStatus := AccessActive) == b[1..][i].(accessStatus := AccessActive)
        {
          assert a[1..][i] == a[i + 1] && b[1..][i] == b[i + 1];
        }
      }
      FirstIndexIgnoresAccess(a[1..], b[1..], course);
    }
  }

  /** The verdict never depends on an enrollment's `accessStatus`: two user
      collections that differ only there get the same answer. */
  lemma AccessStatusIgnored(payments: map<Id, Payment>, users: map<Id, User>, users2: map<Id, User>,
                            plans: map<Id, EmiPlan>, order: seq<Id>, userId: Id, courseId: string,
                            utils: EmiUtils, now: Instant)
    requires IsEnumeration(order, payments.Keys)
    requires users.Keys == users2.Keys
    requires forall u :: u in users ==> SameButAccess(users[u].enrolledCourses, users2[u].enrolledCourses)
    ensures CheckCourseAccess(payments, users, plans, order, userId, courseId, utils, now) ==
      CheckCourseAccess(payments, users2, plans, order, userId, courseId, utils, now)
  {
    if userId in users {
      var a, b := users[userId].enrolledCourses, users2[userId].enrolledCourses;
      FirstIndexIgnoresAccess(a, b, courseId);
      var k := FirstIndex(a, courseId);
      if k.Some? {
        assert a[k.value].(accessStatus := AccessActive) == b[k.value].(accessStatus := AccessActive);
        assert a[k.value].emiPlan == b[k.value].emiPlan;
      }
    }
  }

  /** Locking a course's access on the learner's record, as the sweep does,
      leaves the middleware's verdict unchanged. */
  lemma LockWriteIgnored(payments: map<Id, Payment>, users: map<Id, User>, plans: map<Id, EmiPlan>,
                         order: seq<Id>, userId: Id, courseId: string, utils: EmiUtils, now: Instant,
                         target: Id, s: AccessStatus)
    requires IsEnumeration(order, payments.Keys)
    ensures CheckCourseAccess(payments, SetUserAccess(users, target, courseId, s), plans, order, userId, courseId,
                              utils, now) ==
      CheckCourseAccess(payments, users, plans, order, userId, courseId, utils, now)
  {
    var users2 := SetUserAccess(users, target, courseId, s);
    forall u | u in users
      ensures SameButAccess(users[u].enrolledCourses, users2[u].enrolledCourses)
    {
      var es := users[u].enrolledCourses;
      if u == target {
        var k := FirstIndex(es, courseId);
        if k.Some? {
          var r := SetAccess(es, courseId, s);
          assert forall i :: 0 <= i < |es| ==> es[i].(accessStatus := AccessActive) == r[i].(accessStatus := AccessActive);
        }
      }
    }
    AccessStatusIgnored(payments, users, users2, plans, order, userId, courseId, utils, now);
  }
}
