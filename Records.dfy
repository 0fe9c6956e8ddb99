/** The persisted records the billing engine reads and writes: Payment, EMI
    plan (with its instalments and lock history) and the learner's enrolled
    courses, together with the effect of each MongoDB array update the engine
    issues against them (`$set` through `arrayFilters`, positional `$`,
    `$addToSet`, `$push`). */
module Records {
  import opened Common
  import opened CourseModel

  // ---------------------------------------------------------------------
  // Payment
  // ---------------------------------------------------------------------

  datatype PaymentStatus = Pending | Completed | Failed

  /** `paymentType`: "emi", or anything else, which every branch of the engine
      treats as a one-off full payment. */
  datatype PaymentKind = Emi | Full

  datatype Payment = Payment(
    userId: Id,
    courseId: Id,
    courseName: string,
    amount: real,
    razorpayOrderId: string,
    razorpayPaymentId: Option<string>,
    razorpaySignature: Option<string>,
    paymentMethod: Option<string>,
    status: PaymentStatus,
    kind: PaymentKind,
    emiDueDay: Option<int>,
    errorCode: Option<string>,
    errorDescription: Option<string>)

  // ---------------------------------------------------------------------
  // EMI plan
  // ---------------------------------------------------------------------

  datatype PlanStatus = Active | Locked

  datatype InstallmentStatus = Paid | Pending | Late

  /** One instalment. The first one, paid at enrollment, has no grace period. */
  datatype Installment = Installment(
    month: int,
    monthName: string,
    dueDate: Instant,
    amount: real,
    status: InstallmentStatus,
    paymentDate: Option<Instant>,
    gracePeriodEnd: Option<Instant>)

  /** Why a lock was taken: by the sweep, which records the overdue count, or
      by the repair job. */
  datatype LockReason = AutoLocked(overdueCount: int) | AutoFix

  /** A lock-history entry; an absent unlock date means the lock is still open. */
  datatype LockEntry = LockEntry(
    lockDate: Instant,
    overdueMonths: int,
    reason: Option<LockReason>,
    lockedBy: Option<string>,
    unlockDate: Option<Instant>)

  datatype EmiPlan = EmiPlan(
    userId: Id,
    courseId: Id,
    courseName: string,
    coursePrice: Option<real>,
    totalAmount: real,
    emiPeriod: int,
    selectedDueDay: int,
    startDate: Instant,
    status: PlanStatus,
    emis: seq<Installment>,
    lockHistory: seq<LockEntry>)

  // ---------------------------------------------------------------------
  // Learner
  // ---------------------------------------------------------------------

  datatype AccessStatus = AccessActive | AccessLocked

  datatype Enrollment = Enrollment(
    course: Id,
    courseName: string,
    emiPlan: Option<Id>,
    accessStatus: AccessStatus)

  datatype User = User(enrolledCourses: seq<Enrollment>)

  /** A notification handed to the notification service. */
  datatype Notice =
    | Welcome(userId: Id, courseName: string, isEmi: bool)
    | LockNotice(userId: Id, courseId: Id)
    | UnlockNotice(userId: Id, courseId: Id)
    | Reminder(userId: Id, courseName: string, dueDate: Instant, amount: real)

  // ---------------------------------------------------------------------
  // The functions of EMI-Utils.js, which are not part of this model
  // ---------------------------------------------------------------------

  /** The verdict of `calculateEmiStatus`. */
  datatype EmiStatus = EmiStatus(
    hasOverduePayments: bool,
    hasAccessToContent: bool,
    overdueCount: int,
    totalOverdue: real,
    nextDueAmount: Option<real>,
    nextDueDate: Option<Instant>)

  /** The EMI terms `getEmiDetails` and `validateCourseForEmi` derive from a course.
      `months` is an integer: a fractional count from `getEmiDetails` drives the
      schedule loop (`month <= months`) exactly as its floor does. */
  datatype EmiDetails = EmiDetails(monthlyAmount: real, months: int, totalAmount: real)

  /** The three functions, left uninterpreted: the calculator (given the plan
      and the instant it reads), `getEmiDetails`, and `validateCourseForEmi`,
      whose None stands for the error it throws. */
  datatype EmiUtils = EmiUtils(
    calculate: (EmiPlan, Instant) -> EmiStatus,
    details: Course -> EmiDetails,
    validateForEmi: Course -> Option<EmiDetails>)

  // ---------------------------------------------------------------------
  // Marking instalments late
  // ---------------------------------------------------------------------

  /** The filter of the sweep and the repair: pending and past its grace
      period. An instalment without a grace period is never selected, since
      `undefined < today` is false. */
  predicate IsDueForLate(e: Installment, today: Instant)
  {
    e.status.Pending? && e.gracePeriodEnd.Some? && e.gracePeriodEnd.value < today
  }

  predicate AnyDueForLate(emis: seq<Installment>, today: Instant)
  {
    exists i :: 0 <= i < |emis| && IsDueForLate(emis[i], today)
  }

  /** `$set: {"emis.$[elem].status": "late"}` with the filtered ids: exactly the
      selected instalments become late, every other one is kept. */
  function MarkLate(emis: seq<Installment>, today: Instant): (r: seq<Installment>)
    ensures |r| == |emis|
    ensures forall i :: 0 <= i < |r| ==>
      r[i] == if IsDueForLate(emis[i], today) then emis[i].(status := Late) else emis[i]
  {
    if emis == [] then []
    else
      var e := emis[0];
      [if IsDueForLate(e, today) then e.(status := Late) else e] + MarkLate(emis[1..], today)
  }

  /** After the update nothing is left to mark, so a second run changes nothing. */
  lemma MarkLateIdempotent(emis: seq<Installment>, today: Instant)
    ensures !AnyDueForLate(MarkLate(emis, today), today)
    ensures MarkLate(MarkLate(emis, today), today) == MarkLate(emis, today)
  {
    var r := MarkLate(emis, today);
    assert forall i :: 0 <= i < |r| ==> !IsDueForLate(r[i], today);
  }

  /** The update changes the instalments exactly when the filter selects one,
      which is when the source issues it. */
  lemma MarkLateChangesIffDue(emis: seq<Installment>, today: Instant)
    ensures MarkLate(emis, today) == emis <==> !AnyDueForLate(emis, today)
  {
    if AnyDueForLate(emis, today) {
      var i :| 0 <= i < |emis| && IsDueForLate(emis[i], today);
      assert MarkLate(emis, today)[i].status != emis[i].status;
    } else {
      var r := MarkLate(emis, today);
      assert forall i :: 0 <= i < |r| ==> r[i] == emis[i];
    }
  }

  /** The number of instalments `lockCourseAccess` reports as overdue: pending
      and due no later than now. */
  function CountPendingDue(emis: seq<Installment>, now: Instant): (n: nat)
    ensures n <= |emis|
    ensures n == 0 <==> forall i :: 0 <= i < |emis| ==> !(emis[i].status.Pending? && emis[i].dueDate <= now)
  {
    if emis == [] then 0
    else
      (if emis[0].status.Pending? && emis[0].dueDate <= now then 1 else 0) +
      CountPendingDue(emis[1..], now)
  }

  /** The positions `emis.filter(emi => emi.status === "pending" && emi.dueDate <= now)`
      keeps, from position `k` on. */
  ghost function PendingDueFrom(emis: seq<Installment>, now: Instant, k: nat): set<int>
  {
    set i | k <= i < |emis| && emis[i].status.Pending? && emis[i].dueDate <= now
  }

  /** Counting the suffix from `k` counts the kept positions from `k` on. */
  lemma {:induction false} CountPendingDueFrom(emis: seq<Installment>, now: Instant, k: nat)
    requires k <= |emis|
    ensures CountPendingDue(emis[k..], now) == |PendingDueFrom(emis, now, k)|
    decreases |emis| - k
  {
    if k == |emis| {
      assert PendingDueFrom(emis, now, k) == {};
    } else {
      CountPendingDueFrom(emis, now, k + 1);
      assert emis[k..][1..] == emis[k + 1..];
      var head: set<int> := if emis[k].status.Pending? && emis[k].dueDate <= now then {k} else {};
      assert PendingDueFrom(emis, now, k) == head + PendingDueFrom(emis, now, k + 1);
      assert k !in PendingDueFrom(emis, now, k + 1);
    }
  }

  /** The count is the length of the filtered array: the number of pending
      instalments due no later than now. */
  lemma CountPendingDueIsFilterLength(emis: seq<Installment>, now: Instant)
    ensures CountPendingDue(emis, now) ==
      |set i | 0 <= i < |emis| && emis[i].status.Pending? && emis[i].dueDate <= now|
  {
    CountPendingDueFrom(emis, now, 0);
    assert emis[0..] == emis;
  }

  // ---------------------------------------------------------------------
  // The lock history
  // ---------------------------------------------------------------------

  /** Entries still open (no unlock date). */
  function OpenCount(h: seq<LockEntry>): (n: nat)
    ensures n <= |h|
  {
    if h == [] then 0
    else (if h[0].unlockDate.None? then 1 else 0) + OpenCount(h[1..])
  }

  /** `"lockHistory.$[elem].unlockDate": t` with the filter "no unlockDate":
      every open entry is closed at `t`, closed entries are kept. */
  function CloseOpen(h: seq<LockEntry>, t: Instant): (r: seq<LockEntry>)
    ensures |r| == |h|
    ensures forall i :: 0 <= i < |r| ==>
      r[i] == if h[i].unlockDate.None? then h[i].(unlockDate := Some(t)) else h[i]
  {
    if h == [] then []
    else
      var e := h[0];
      [if e.unlockDate.None? then e.(unlockDate := Some(t)) else e] + CloseOpen(h[1..], t)
  }

  lemma {:induction false} OpenCountAppend(h: seq<LockEntry>, e: LockEntry)
    ensures OpenCount(h + [e]) == OpenCount(h) + (if e.unlockDate.None? then 1 else 0)
  {
    if h == [] {
      assert h + [e] == [e];
    } else {
      assert (h + [e])[1..] == h[1..] + [e];
      OpenCountAppend(h[1..], e);
    }
  }

  lemma {:induction false} CloseOpenLeavesNoneOpen(h: seq<LockEntry>, t: Instant)
    ensures OpenCount(CloseOpen(h, t)) == 0
  {
    if h != [] {
      assert CloseOpen(h, t)[1..] == CloseOpen(h[1..], t);
      CloseOpenLeavesNoneOpen(h[1..], t);
    }
  }

  /** The invariant the sweep keeps: an active plan has no open lock entry and a
      locked plan exactly one. */
  predicate LockConsistent(p: EmiPlan)
  {
    (p.status == Active ==> OpenCount(p.lockHistory) == 0) &&
    (p.status == Locked ==> OpenCount(p.lockHistory) == 1)
  }

  /** `$set: {status: "locked"}` with `$push` of an open entry. */
  function LockPlan(p: EmiPlan, entry: LockEntry): (r: EmiPlan)
    requires entry.unlockDate.None?
    ensures r.status == Locked && r.lockHistory == p.lockHistory + [entry]
    ensures OpenCount(r.lockHistory) == OpenCount(p.lockHistory) + 1
    ensures r.emis == p.emis && r.userId == p.userId && r.courseId == p.courseId
  {
    OpenCountAppend(p.lockHistory, entry);
    p.(status := Locked, lockHistory := p.lockHistory + [entry])
  }

  /** `$set: {status: "active"}` closing every open entry at `t`. */
  function UnlockPlan(p: EmiPlan, t: Instant): (r: EmiPlan)
    ensures r.status == Active && OpenCount(r.lockHistory) == 0
    ensures |r.lockHistory| == |p.lockHistory|
    ensures r.emis == p.emis && r.userId == p.userId && r.courseId == p.courseId
  {
    CloseOpenLeavesNoneOpen(p.lockHistory, t);
    p.(status := Active, lockHistory := CloseOpen(p.lockHistory, t))
  }

  /** Locking an active consistent plan, or unlocking any plan, leaves it
      consistent. */
  lemma LockUnlockKeepConsistency(p: EmiPlan, entry: LockEntry, t: Instant)
    requires entry.unlockDate.None?
    ensures p.status == Active && LockConsistent(p) ==> LockConsistent(LockPlan(p, entry))
    ensures LockConsistent(UnlockPlan(p, t))
  {
  }

  // ---------------------------------------------------------------------
  // Enrolled courses
  // ---------------------------------------------------------------------

  predicate HasCourse(es: seq<Enrollment>, course: Id)
  {
    exists i :: 0 <= i < |es| && es[i].course == course
  }

  /** The position the positional operator `$` selects: the first enrollment
      for `course`. */
  function FirstIndex(es: seq<Enrollment>, course: Id): (r: Option<nat>)
    ensures r.None? <==> !HasCourse(es, course)
    ensures r.Some? ==> (r.value < |es| && es[r.value].course == course &&
      forall j :: 0 <= j < r.value ==> es[j].course != course)
  {
    if es == [] then None
    else if es[0].course == course then Some(0)
    else
      var rest := FirstIndex(es[1..], course);
      if rest.None? then
        assert forall j :: 1 <= j < |es| ==> es[j] == es[1..][j - 1];
        None
      else
        assert forall j :: 1 <= j < rest.value + 1 ==> es[j] == es[1..][j - 1];
        Some(rest.value + 1)
  }

  /** `{"enrolledCourses.$": 1}`: the first enrollment for `course`. */
  function FirstEnrollment(u: User, course: Id): (r: Option<Enrollment>)
    ensures r.Some? <==> HasCourse(u.enrolledCourses, course)
    ensures r.Some? ==> r.value.course == course && r.value in u.enrolledCourses
  {
    var k := FirstIndex(u.enrolledCourses, course);
    if k.None? then None else Some(u.enrolledCourses[k.value])
  }

  /** `$set: {"enrolledCourses.$.accessStatus": s}` filtered on the course:
      only the first enrollment for `course` changes, and only its status. */
  function SetAccess(es: seq<Enrollment>, course: Id, s: AccessStatus): (r: seq<Enrollment>)
    ensures |r| == |es|
    ensures var k := FirstIndex(es, course);
      if k.None? then r == es else r == es[k.value := es[k.value].(accessStatus := s)]
  {
    var k := FirstIndex(es, course);
    if k.None? then es else es[k.value := es[k.value].(accessStatus := s)]
  }

  /** After the update the first enrollment for the course has the new status,
      and the first enrollment for every other course is the one it was. */
  lemma SetAccessFirst(es: seq<Enrollment>, course: Id, s: AccessStatus, other: Id)
    requires HasCourse(es, course)
    ensures FirstEnrollment(User(SetAccess(es, course, s)), course) ==
      Some(FirstEnrollment(User(es), course).value.(accessStatus := s))
    ensures other != course ==>
      FirstEnrollment(User(SetAccess(es, course, s)), other) == FirstEnrollment(User(es), other)
  {
    var r := SetAccess(es, course, s);
    var k := FirstIndex(es, course).value;
    assert forall j :: 0 <= j < |r| ==> r[j].course == es[j].course;
    assert HasCourse(r, course);
    var k' := FirstIndex(r, course).value;
    assert k' == k;
    if other != course {
      if HasCourse(es, other) {
        var m := FirstIndex(es, other).value;
        assert HasCourse(r, other);
        var m' := FirstIndex(r, other).value;
        assert m' == m;
      } else {
        assert !HasCourse(r, other);
      }
    }
  }

  /** Writing the status the first matching enrollment already has is a no-op. */
  lemma SetAccessSame(es: seq<Enrollment>, course: Id, s: AccessStatus)
    requires HasCourse(es, course) && FirstEnrollment(User(es), course).value.accessStatus == s
    ensures SetAccess(es, course, s) == es
  {
  }

  /** `$addToSet: {enrolledCourses: e}`: the whole sub-document is added unless
      an identical one is already there. */
  function AddToSet(es: seq<Enrollment>, e: Enrollment): (r: seq<Enrollment>)
    ensures e in r
    ensures forall x :: x in es ==> x in r
    ensures forall x :: x in r ==> x in es || x == e
    ensures e in es ==> r == es
    ensures e !in es ==> |r| == |es| + 1
  {
    if e in es then es else es + [e]
  }

  /** Adding a sub-document twice is adding it once. */
  lemma AddToSetIdempotent(es: seq<Enrollment>, e: Enrollment)
    ensures AddToSet(AddToSet(es, e), e) == AddToSet(es, e)
  {
  }

  /** The user update of the sweep and the access primitives, on the users map:
      a missing user means the filter matches nothing. */
  function SetUserAccess(users: map<Id, User>, userId: Id, course: Id, s: AccessStatus): (r: map<Id, User>)
    ensures r.Keys == users.Keys
    ensures forall u :: u in users && u != userId ==> r[u] == users[u]
    ensures userId in users ==> r[userId] == User(SetAccess(users[userId].enrolledCourses, course, s))
  {
    if userId in users then users[userId := User(SetAccess(users[userId].enrolledCourses, course, s))]
    else users
  }

  /** `findByIdAndUpdate(userId, {$addToSet: ...})` on the users map. */
  function AddEnrollment(users: map<Id, User>, userId: Id, e: Enrollment): (r: map<Id, User>)
    ensures r.Keys == users.Keys
    ensures forall u :: u in users && u != userId ==> r[u] == users[u]
    ensures userId in users ==> r[userId] == User(AddToSet(users[userId].enrolledCourses, e))
  {
    if userId in users then users[userId := User(AddToSet(users[userId].enrolledCourses, e))]
    else users
  }

  /** `findByIdAndUpdate(courseId, {$inc: {studentEnrollmentCount: 1}})`. */
  function IncEnrollmentCount(courses: map<Id, Course>, courseId: Id): (r: map<Id, Course>)
    ensures r.Keys == courses.Keys
    ensures forall c :: c in courses && c != courseId ==> r[c] == courses[c]
    ensures courseId in courses ==> (r[courseId] ==
      courses[courseId].(studentEnrollmentCount := courses[courseId].studentEnrollmentCount + 1))
  {
    if courseId in courses then
      courses[courseId := courses[courseId].(studentEnrollmentCount := courses[courseId].studentEnrollmentCount + 1)]
    else courses
  }
}
