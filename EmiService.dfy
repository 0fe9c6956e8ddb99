/** src/Services/EMI-Service.js: the standalone lock and unlock primitives,
    the overdue sweep (a lock/unlock state machine over plan status,
    instalment status, the lock history and the enrollment's access status),
    the reminder window, and the single-plan and bulk repair jobs. The clock
    is a parameter; `calculateEmiStatus` is the uninterpreted calculator; the
    order in which a collection scan returns documents is a parameter `order`
    listing every plan id once; a database call that rejects is a fault
    parameter. */
module EmiService {
  import opened Common
  import opened Records
  import opened Store

  /** The collections the service writes. */
  datatype World = World(plans: map<Id, EmiPlan>, users: map<Id, User>, outbox: seq<Notice>)

  function WorldOf(db: Database): World
    reads db
  {
    World(db.plans, db.users, db.outbox)
  }

  // ---------------------------------------------------------------------
  // lockCourseAccess / unlockCourseAccess
  // ---------------------------------------------------------------------

  /** The entry `lockCourseAccess` pushes: the lock date and the number of
      pending instalments already due, with no reason and no `lockedBy`. */
  function ManualLockEntry(p: EmiPlan, now: Instant): (e: LockEntry)
    ensures e.unlockDate.None? && e.lockDate == now
    ensures e.overdueMonths == CountPendingDue(p.emis, now) && e.reason.None? && e.lockedBy.None?
  {
    LockEntry(now, CountPendingDue(p.emis, now), None, None, None)
  }

  /** `lockCourseAccess` (EMI-Service.js:8-45). The enrollment is locked
      first; a missing plan then makes `plan.emis` throw, so `ok` is false and
      only that first write has happened. The plan's current status is not
      checked. */
  method LockCourseAccess(db: Database, userId: Id, courseId: Id, planId: Id, now: Instant)
    returns (ok: bool)
    modifies db
    ensures db.users == SetUserAccess(old(db.users), userId, courseId, AccessLocked)
    ensures ok <==> planId in old(db.plans)
    ensures ok ==> (db.plans == old(db.plans)[planId := LockPlan(old(db.plans)[planId],
      ManualLockEntry(old(db.plans)[planId], now))] &&
      db.outbox == old(db.outbox) + [LockNotice(userId, courseId)])
    ensures !ok ==> db.plans == old(db.plans) && db.outbox == old(db.outbox)
    ensures db.payments == old(db.payments) && db.courses == old(db.courses)
  {
    db.users := SetUserAccess(db.users, userId, courseId, AccessLocked);
    if planId !in db.plans {
      return false;
    }
    var plan := db.plans[planId];
    db.plans := db.plans[planId := LockPlan(plan, ManualLockEntry(plan, now))];
    db.outbox := db.outbox + [LockNotice(userId, courseId)];
    return true;
  }

  /** Locking a plan that is already locked opens a second lock entry: the
      primitive does not keep the one-open-entry invariant the sweep keeps. */
  lemma RelockOpensSecondEntry(p: EmiPlan, now: Instant)
    requires p.status == Locked && LockConsistent(p)
    ensures OpenCount(LockPlan(p, ManualLockEntry(p, now)).lockHistory) == 2
    ensures !LockConsistent(LockPlan(p, ManualLockEntry(p, now)))
  {
  }

  /** Locking an active consistent plan keeps it consistent. */
  lemma LockActiveKeepsConsistency(p: EmiPlan, now: Instant)
    requires p.status == Active && LockConsistent(p)
    ensures LockConsistent(LockPlan(p, ManualLockEntry(p, now)))
  {
  }

  /** `unlockCourseAccess` (EMI-Service.js:48-85). The enrollment is made
      active first; the plan update then closes every open lock entry, and a
      missing plan makes `plan.coursename` throw after no plan write. */
  method UnlockCourseAccess(db: Database, userId: Id, courseId: Id, planId: Id, now: Instant)
    returns (ok: bool)
    modifies db
    ensures db.users == SetUserAccess(old(db.users), userId, courseId, AccessActive)
    ensures ok <==> planId in old(db.plans)
    ensures ok ==> (db.plans == old(db.plans)[planId := UnlockPlan(old(db.plans)[planId], now)] &&
      db.outbox == old(db.outbox) + [UnlockNotice(userId, courseId)])
    ensures ok ==> LockConsistent(db.plans[planId])
    ensures !ok ==> db.plans == old(db.plans) && db.outbox == old(db.outbox)
    ensures db.payments == old(db.payments) && db.courses == old(db.courses)
  {
    db.users := SetUserAccess(db.users, userId, courseId, AccessActive);
    if planId !in db.plans {
      return false;
    }
    db.plans := db.plans[planId := UnlockPlan(db.plans[planId], now)];
    db.outbox := db.outbox + [UnlockNotice(userId, courseId)];
    return true;
  }

  // ---------------------------------------------------------------------
  // processOverdueEmis
  // ---------------------------------------------------------------------

  datatype SweepAction = LockIt | UnlockIt | Keep

  /** The two branches of the sweep (EMI-Service.js:138, 180): they cannot
      both fire, and neither fires exactly when the plan already agrees with
      the verdict. */
  function SweepActionFor(status: PlanStatus, overdue: bool): (a: SweepAction)
    ensures a == LockIt <==> overdue && status == Active
    ensures a == UnlockIt <==> !overdue && status == Locked
    ensures a == Keep <==> ((status == Active && !overdue) || (status == Locked && overdue))
  {
    match status
    case Active => if overdue then LockIt else Keep
    case Locked => if overdue then Keep else UnlockIt
  }

  /** Where the processing of one plan can throw: in the calculator, or in one
      of the three awaited writes. The notification is not awaited. */
  datatype SweepFault = CalculatorThrows | MarkLateFails | StatusWriteFails | AccessWriteFails

  function FaultOf(faults: map<Id, SweepFault>, pid: Id): Option<SweepFault>
  {
    if pid in faults then Some(faults[pid]) else None
  }

  /** The entry the sweep pushes when it locks a plan. */
  function SweepEntry(v: EmiStatus, today: Instant): (e: LockEntry)
    ensures e.unlockDate.None? && e.lockDate == today && e.overdueMonths == v.overdueCount
    ensures e.reason == Some(AutoLocked(v.overdueCount)) && e.lockedBy == Some("system")
  {
    LockEntry(today, v.overdueCount, Some(AutoLocked(v.overdueCount)), Some("system"), None)
  }

  /** The processing of a plan gets past the mark-late stage. */
  predicate PastMarkLate(p: EmiPlan, today: Instant, fault: Option<SweepFault>)
  {
    fault != Some(CalculatorThrows) && !(AnyDueForLate(p.emis, today) && fault == Some(MarkLateFails))
  }

  /** The plan after the mark-late stage. */
  function MarkedPlan(p: EmiPlan, today: Instant, fault: Option<SweepFault>): EmiPlan
  {
    if PastMarkLate(p, today, fault) && AnyDueForLate(p.emis, today) then p.(emis := MarkLate(p.emis, today))
    else p
  }

  /** The lock or unlock write of the plan happens. */
  predicate StatusWritten(p: EmiPlan, v: EmiStatus, today: Instant, fault: Option<SweepFault>)
  {
    PastMarkLate(p, today, fault) && SweepActionFor(p.status, v.hasOverduePayments) != Keep &&
    fault != Some(StatusWriteFails)
  }

  /** The enrollment write and the notification happen. */
  predicate AccessWritten(p: EmiPlan, v: EmiStatus, today: Instant, fault: Option<SweepFault>)
  {
    StatusWritten(p, v, today, fault) && fault != Some(AccessWriteFails)
  }

  /** The plan after the sweep has processed it, given the calculator's
      verdict `v` on the fetched plan. */
  function SweepPlan(p: EmiPlan, v: EmiStatus, today: Instant, fault: Option<SweepFault>): EmiPlan
  {
    var marked := MarkedPlan(p, today, fault);
    if !StatusWritten(p, v, today, fault) then marked
    else if SweepActionFor(p.status, v.hasOverduePayments) == LockIt then LockPlan(marked, SweepEntry(v, today))
    else UnlockPlan(marked, today)
  }

  /** The access status and the notice that go with an action. */
  function AccessFor(a: SweepAction): AccessStatus
  {
    if a == LockIt then AccessLocked else AccessActive
  }

  function NoticeFor(a: SweepAction, p: EmiPlan): Notice
  {
    if a == LockIt then LockNotice(p.userId, p.courseId) else UnlockNotice(p.userId, p.courseId)
  }

  /** One iteration of the sweep's loop (EMI-Service.js:101-228) on plan `pid`. */
  function SweepStep(w: World, pid: Id, utils: EmiUtils, today: Instant, fault: Option<SweepFault>): (r: World)
    requires pid in w.plans
    ensures r.plans.Keys == w.plans.Keys
  {
    var p := w.plans[pid];
    var v := utils.calculate(p, today);
    var a := SweepActionFor(p.status, v.hasOverduePayments);
    if AccessWritten(p, v, today, fault) then
      World(w.plans[pid := SweepPlan(p, v, today, fault)],
            SetUserAccess(w.users, p.userId, p.courseId, AccessFor(a)),
            w.outbox + [NoticeFor(a, p)])
    else
      w.(plans := w.plans[pid := SweepPlan(p, v, today, fault)])
  }

  /** Without a fault, the sweep marks late exactly the instalments the filter
      selects; the lock branch sets `locked` and appends exactly the sweep's
      entry; the unlock branch sets `active` and closes every open entry; a
      plan that agrees with the verdict keeps its status and history. The
      other fields of the plan are kept. */
  lemma SweepPlanNoFault(p: EmiPlan, v: EmiStatus, today: Instant)
    ensures var r := SweepPlan(p, v, today, None);
      var a := SweepActionFor(p.status, v.hasOverduePayments);
      r.emis == MarkLate(p.emis, today) &&
      r.userId == p.userId && r.courseId == p.courseId && r.selectedDueDay == p.selectedDueDay &&
      r.totalAmount == p.totalAmount && r.emiPeriod == p.emiPeriod && r.startDate == p.startDate &&
      (a == LockIt ==> r.status == Locked && r.lockHistory == p.lockHistory + [SweepEntry(v, today)]) &&
      (a == UnlockIt ==> r.status == Active && r.lockHistory == CloseOpen(p.lockHistory, today)) &&
      (a == Keep ==> r.status == p.status && r.lockHistory == p.lockHistory)
  {
    MarkLateChangesIffDue(p.emis, today);
  }

  /** Without a fault, the lock branch locks the first enrollment for the
      course and sends a lock notice, the unlock branch does the reverse, and
      a plan in agreement gets no enrollment write and no notice. */
  lemma SweepStepAccess(w: World, pid: Id, utils: EmiUtils, today: Instant)
    requires pid in w.plans
    ensures var p := w.plans[pid];
      var a := SweepActionFor(p.status, utils.calculate(p, today).hasOverduePayments);
      var r := SweepStep(w, pid, utils, today, None);
      (a == Keep ==> r.users == w.users && r.outbox == w.outbox) &&
      (a != Keep && p.userId in w.users && HasCourse(w.users[p.userId].enrolledCourses, p.courseId) ==>
        FirstEnrollment(r.users[p.userId], p.courseId) ==
          Some(FirstEnrollment(w.users[p.userId], p.courseId).value.(accessStatus := AccessFor(a)))) &&
      (a == LockIt ==> r.outbox == w.outbox + [LockNotice(p.userId, p.courseId)]) &&
      (a == UnlockIt ==> r.outbox == w.outbox + [UnlockNotice(p.userId, p.courseId)])
  {
    var p := w.plans[pid];
    var a := SweepActionFor(p.status, utils.calculate(p, today).hasOverduePayments);
    if a != Keep && p.userId in w.users && HasCourse(w.users[p.userId].enrolledCourses, p.courseId) {
      SetAccessFirst(w.users[p.userId].enrolledCourses, p.courseId, AccessFor(a), p.courseId);
    }
  }

  /** Whatever fails, processing a consistent plan leaves it consistent: the
      lock branch only fires on an active plan, which has no open entry, and
      the unlock branch closes every open entry. */
  lemma SweepPlanKeepsConsistency(p: EmiPlan, v: EmiStatus, today: Instant, fault: Option<SweepFault>)
    requires LockConsistent(p)
    ensures LockConsistent(SweepPlan(p, v, today, fault))
  {
  }

  /** With a verdict that does not change once the plan is processed, a second
      pass over the same plan writes nothing. */
  lemma SweepStableVerdictIdempotent(w: World, pid: Id, utils: EmiUtils, today: Instant)
    requires pid in w.plans
    requires var w1 := SweepStep(w, pid, utils, today, None);
      utils.calculate(w1.plans[pid], today).hasOverduePayments ==
        utils.calculate(w.plans[pid], today).hasOverduePayments
    ensures var w1 := SweepStep(w, pid, utils, today, None);
      SweepStep(w1, pid, utils, today, None) == w1
  {
    var p := w.plans[pid];
    var v := utils.calculate(p, today);
    var w1 := SweepStep(w, pid, utils, today, None);
    var q := w1.plans[pid];
    SweepPlanNoFault(p, v, today);
    MarkLateIdempotent(p.emis, today);
    assert !AnyDueForLate(q.emis, today);
    var v1 := utils.calculate(q, today);
    assert SweepActionFor(q.status, v1.hasOverduePayments) == Keep;
    assert SweepPlan(q, v1, today, None) == q;
    assert w1.plans[pid := q] == w1.plans;
  }

  /** A sweep step writes plan `pid` and no other plan. */
  lemma SweepStepPlans(w: World, pid: Id, utils: EmiUtils, today: Instant, fault: Option<SweepFault>)
    requires pid in w.plans
    ensures SweepStep(w, pid, utils, today, fault).plans ==
      w.plans[pid := SweepPlan(w.plans[pid], utils.calculate(w.plans[pid], today), today, fault)]
  {
  }

  /** The sweep over the plans listed in `ids`, in that order. */
  function SweepAll(w: World, ids: seq<Id>, utils: EmiUtils, today: Instant,
                    faults: map<Id, SweepFault>): (r: World)
    requires forall i :: 0 <= i < |ids| ==> ids[i] in w.plans
    ensures r.plans.Keys == w.plans.Keys
    decreases |ids|
  {
    if ids == [] then w
    else
      var last := ids[|ids| - 1];
      SweepStep(SweepAll(w, ids[..|ids| - 1], utils, today, faults), last, utils, today, FaultOf(faults, last))
  }

  /** A fault in one plan does not affect the others: after the sweep every
      listed plan is exactly what processing it alone would give, and every
      other plan is untouched. */
  lemma {:induction false} SweepAllIsolation(w: World, ids: seq<Id>, utils: EmiUtils, today: Instant,
                                             faults: map<Id, SweepFault>)
    requires forall i :: 0 <= i < |ids| ==> ids[i] in w.plans
    requires forall i, j :: 0 <= i < j < |ids| ==> ids[i] != ids[j]
    ensures forall q :: q in w.plans ==>
      SweepAll(w, ids, utils, today, faults).plans[q] ==
        if q in ids then SweepPlan(w.plans[q], utils.calculate(w.plans[q], today), today, FaultOf(faults, q))
        else w.plans[q]
  {
    if ids != [] {
      var pre := ids[..|ids| - 1];
      var last := ids[|ids| - 1];
      var prev := SweepAll(w, pre, utils, today, faults);
      SweepAllIsolation(w, pre, utils, today, faults);
      SweepStepPlans(prev, last, utils, today, FaultOf(faults, last));
      assert last !in pre;
      assert prev.plans[last] == w.plans[last];
      forall q | q in w.plans
        ensures q in ids <==> q in pre || q == last
      {
        assert ids == pre + [last];
      }
    }
  }

  /** The invariant of the lock history holds for every plan after a sweep
      when it held before. */
  lemma SweepAllKeepsConsistency(w: World, ids: seq<Id>, utils: EmiUtils, today: Instant,
                                 faults: map<Id, SweepFault>)
    requires forall i :: 0 <= i < |ids| ==> ids[i] in w.plans
    requires forall i, j :: 0 <= i < j < |ids| ==> ids[i] != ids[j]
    requires AllLockConsistent(w.plans)
    ensures AllLockConsistent(SweepAll(w, ids, utils, today, faults).plans)
  {
    SweepAllIsolation(w, ids, utils, today, faults);
    forall q | q in w.plans
      ensures LockConsistent(SweepAll(w, ids, utils, today, faults).plans[q])
    {
      SweepPlanKeepsConsistency(w.plans[q], utils.calculate(w.plans[q], today), today, FaultOf(faults, q));
    }
  }

  /** The mark-late update of the sweep's loop (EMI-Service.js:107-135). */
  method MarkLateStage(db: Database, pid: Id, today: Instant, fault: Option<SweepFault>)
    returns (passed: bool)
    requires pid in db.plans
    modifies db
    ensures passed == PastMarkLate(old(db.plans)[pid], today, fault)
    ensures db.plans == old(db.plans)[pid := MarkedPlan(old(db.plans)[pid], today, fault)]
    ensures db.users == old(db.users) && db.outbox == old(db.outbox)
    ensures db.payments == old(db.payments) && db.courses == old(db.courses)
  {
    var plan := db.plans[pid];
    assert db.plans[pid := plan] == db.plans;
    if fault == Some(CalculatorThrows) {
      return false;
    }
    if AnyDueForLate(plan.emis, today) {
      if fault == Some(MarkLateFails) {
        return false;
      }
      db.plans := db.plans[pid := plan.(emis := MarkLate(plan.emis, today))];
    }
    return true;
  }

  /** The lock or unlock branch of the sweep's loop (EMI-Service.js:137-218),
      given the fetched plan and the verdict on it. */
  method StatusStage(db: Database, pid: Id, plan: EmiPlan, emiStatus: EmiStatus, today: Instant,
                     fault: Option<SweepFault>)
    requires pid in db.plans && PastMarkLate(plan, today, fault)
    requires db.plans[pid] == MarkedPlan(plan, today, fault)
    modifies db
    ensures db.plans == old(db.plans)[pid := SweepPlan(plan, emiStatus, today, fault)]
    ensures AccessWritten(plan, emiStatus, today, fault) ==>
      var a := SweepActionFor(plan.status, emiStatus.hasOverduePayments);
      db.users == SetUserAccess(old(db.users), plan.userId, plan.courseId, AccessFor(a)) &&
      db.outbox == old(db.outbox) + [NoticeFor(a, plan)]
    ensures !AccessWritten(plan, emiStatus, today, fault) ==>
      db.users == old(db.users) && db.outbox == old(db.outbox)
    ensures db.payments == old(db.payments) && db.courses == old(db.courses)
  {
    var marked := db.plans[pid];
    assert db.plans[pid := marked] == db.plans;
    var action := SweepActionFor(plan.status, emiStatus.hasOverduePayments);
    if action == Keep || fault == Some(StatusWriteFails) {
      return;
    }
    var updated := if action == LockIt then LockPlan(marked, SweepEntry(emiStatus, today)) else UnlockPlan(marked, today);
    db.plans := db.plans[pid := updated];
    if fault == Some(AccessWriteFails) {
      return;
    }
    db.users := SetUserAccess(db.users, plan.userId, plan.courseId, AccessFor(action));
    db.outbox := db.outbox + [NoticeFor(action, plan)];
  }

  /** The body of the sweep's loop on one plan, stopping where `fault` says
      the awaited call rejects. */
  method ProcessPlan(db: Database, pid: Id, utils: EmiUtils, today: Instant, fault: Option<SweepFault>)
    requires pid in db.plans
    modifies db
    ensures WorldOf(db) == SweepStep(old(WorldOf(db)), pid, utils, today, fault)
    ensures db.payments == old(db.payments) && db.courses == old(db.courses)
  {
    ghost var w0 := WorldOf(db);
    var plan := db.plans[pid];
    var emiStatus := utils.calculate(plan, today);
    var passed := MarkLateStage(db, pid, today, fault);
    if !passed {
      assert SweepPlan(plan, emiStatus, today, fault) == MarkedPlan(plan, today, fault);
      assert SweepStep(w0, pid, utils, today, fault) == w0.(plans := db.plans);
      return;
    }
    StatusStage(db, pid, plan, emiStatus, today, fault);
    assert db.plans == w0.plans[pid := SweepPlan(plan, emiStatus, today, fault)];
  }

  /** The loop of the sweep (EMI-Service.js:100-229) over `order`. */
  method SweepLoop(db: Database, utils: EmiUtils, today: Instant, order: seq<Id>,
                   faults: map<Id, SweepFault>)
    requires forall i :: 0 <= i < |order| ==> order[i] in db.plans
    modifies db
    ensures WorldOf(db) == SweepAll(old(WorldOf(db)), order, utils, today, faults)
    ensures db.payments == old(db.payments) && db.courses == old(db.courses)
  {
    ghost var w0 := WorldOf(db);
    for i := 0 to |order|
      invariant WorldOf(db) == SweepAll(w0, order[..i], utils, today, faults)
      invariant db.plans.Keys == w0.plans.Keys
      invariant db.payments == old(db.payments) && db.courses == old(db.courses)
    {
      ghost var before := WorldOf(db);
      assert order[..i + 1][..i] == order[..i] && order[..i + 1][i] == order[i];
      assert SweepAll(w0, order[..i + 1], utils, today, faults) ==
        SweepStep(before, order[i], utils, today, FaultOf(faults, order[i]));
      ProcessPlan(db, order[i], utils, today, FaultOf(faults, order[i]));
    }
    assert order[..|order|] == order;
  }

  /** `processOverdueEmis` (EMI-Service.js:88-232). Every plan is fetched
      (plan status is always active or locked) and processed in `order`; a
      plan whose processing throws is skipped and the loop goes on, so every
      plan ends up as processing it alone would leave it. */
  method ProcessOverdueEmis(db: Database, utils: EmiUtils, today: Instant, order: seq<Id>,
                            faults: map<Id, SweepFault>)
    requires IsEnumeration(order, db.plans.Keys)
    modifies db
    ensures WorldOf(db) == SweepAll(old(WorldOf(db)), order, utils, today, faults)
    ensures db.plans.Keys == old(db.plans.Keys)
    ensures forall q :: q in old(db.plans) ==>
      db.plans[q] == SweepPlan(old(db.plans)[q], utils.calculate(old(db.plans)[q], today), today, FaultOf(faults, q))
    ensures AllLockConsistent(old(db.plans)) ==> AllLockConsistent(db.plans)
    ensures db.payments == old(db.payments) && db.courses == old(db.courses)
  {
    ghost var w0 := WorldOf(db);
    SweepLoop(db, utils, today, order, faults);
    SweepAllIsolation(w0, order, utils, today, faults);
    if AllLockConsistent(w0.plans) {
      SweepAllKeepsConsistency(w0, order, utils, today, faults);
    }
  }

  // ---------------------------------------------------------------------
  // sendPaymentReminders
  // ---------------------------------------------------------------------

  /** The reminder horizon: `setDate(getDate() + 5)`, five days of
      milliseconds on a calendar without daylight-saving shifts. */
  const ReminderHorizon: int := 5 * MsPerDay

  /** The second `$match` of the aggregation (EMI-Service.js:253-259). */
  predicate InReminderWindow(e: Installment, today: Instant)
  {
    e.status.Pending? && today <= e.dueDate <= today + ReminderHorizon
  }

  /** `$unwind: "$emis"` of one plan followed by the window filter: one
      (plan, instalment) document per instalment in the window, in order. */
  function Unwind(p: EmiPlan, emis: seq<Installment>, today: Instant): (r: seq<(EmiPlan, Installment)>)
    ensures forall x :: x in r <==> x.0 == p && x.1 in emis && InReminderWindow(x.1, today)
  {
    if emis == [] then []
    else (if InReminderWindow(emis[0], today) then [(p, emis[0])] else []) + Unwind(p, emis[1..], today)
  }

  /** The aggregation (EMI-Service.js:242-261) over the plans in scan order:
      the first `$match` keeps active plans. */
  function Upcoming(plans: map<Id, EmiPlan>, order: seq<Id>, today: Instant): (r: seq<(EmiPlan, Installment)>)
    requires forall i :: 0 <= i < |order| ==> order[i] in plans
  {
    if order == [] then []
    else
      var p := plans[order[0]];
      (if p.status == Active then Unwind(p, p.emis, today) else []) + Upcoming(plans, order[1..], today)
  }

  /** A document comes out of the aggregation exactly when it pairs a listed
      active plan with one of its pending instalments due within the next
      five days. */
  lemma {:induction false} UpcomingMembership(plans: map<Id, EmiPlan>, order: seq<Id>, today: Instant,
                                              x: (EmiPlan, Installment))
    requires forall i :: 0 <= i < |order| ==> order[i] in plans
    ensures x in Upcoming(plans, order, today) <==>
      (exists i :: 0 <= i < |order| && plans[order[i]] == x.0) &&
      x.0.status == Active && x.1 in x.0.emis && InReminderWindow(x.1, today)
  {
    if order != [] {
      var tail := order[1..];
      UpcomingMembership(plans, tail, today, x);
      if exists i :: 0 <= i < |order| && plans[order[i]] == x.0 {
        var i :| 0 <= i < |order| && plans[order[i]] == x.0;
        if i > 0 {
          assert plans[tail[i - 1]] == x.0;
        }
      }
      if exists i :: 0 <= i < |tail| && plans[tail[i]] == x.0 {
        var i :| 0 <= i < |tail| && plans[tail[i]] == x.0;
        assert plans[order[i + 1]] == x.0;
      }
    }
  }

  /** The notification sent for one aggregated document. */
  function ReminderOf(x: (EmiPlan, Installment)): Notice
  {
    Reminder(x.0.userId, x.0.courseName, x.1.dueDate, x.1.amount)
  }

  function RemindersOf(xs: seq<(EmiPlan, Installment)>): (r: seq<Notice>)
    ensures |r| == |xs| && forall k :: 0 <= k < |xs| ==> r[k] == ReminderOf(xs[k])
  {
    seq(|xs|, k requires 0 <= k < |xs| => ReminderOf(xs[k]))
  }

  /** `sendPaymentReminders` (EMI-Service.js:235-278): one reminder per
      aggregated document, in the aggregation's order; nothing else changes. */
  method SendPaymentReminders(db: Database, today: Instant, order: seq<Id>)
    requires IsEnumeration(order, db.plans.Keys)
    modifies db
    ensures db.outbox == old(db.outbox) + RemindersOf(Upcoming(old(db.plans), order, today))
    ensures db.plans == old(db.plans) && db.users == old(db.users)
    ensures db.payments == old(db.payments) && db.courses == old(db.courses)
  {
    var upcoming := Upcoming(db.plans, order, today);
    ghost var before := db.outbox;
    for i := 0 to |upcoming|
      invariant db.outbox == before + RemindersOf(upcoming[..i])
      invariant db.plans == old(db.plans) && db.users == old(db.users)
      invariant db.payments == old(db.payments) && db.courses == old(db.courses)
    {
      assert RemindersOf(upcoming[..i + 1]) == RemindersOf(upcoming[..i]) + [ReminderOf(upcoming[i])];
      db.outbox := db.outbox + [ReminderOf(upcoming[i])];
    }
    assert upcoming[..|upcoming|] == upcoming;
  }

  // ---------------------------------------------------------------------
  // fixEmiStatusForUser / fixAllEmiStatusInconsistencies
  // ---------------------------------------------------------------------

  predicate PlanFor(p: EmiPlan, userId: Id, courseId: Id)
  {
    p.userId == userId && p.courseId == courseId
  }

  /** `findOne({userId, courseId})`: the position in the scan of the first
      plan for the pair, searching from position `k`. */
  function FindPlanFrom(plans: map<Id, EmiPlan>, order: seq<Id>, userId: Id, courseId: Id, k: nat): (r: Option<nat>)
    requires forall i :: 0 <= i < |order| ==> order[i] in plans
    requires k <= |order|
    ensures r.Some? ==> (k <= r.value < |order| && PlanFor(plans[order[r.value]], userId, courseId) &&
      forall j :: k <= j < r.value ==> !PlanFor(plans[order[j]], userId, courseId))
    ensures r.None? ==> forall j :: k <= j < |order| ==> !PlanFor(plans[order[j]], userId, courseId)
    decreases |order| - k
  {
    if k == |order| then None
    else if PlanFor(plans[order[k]], userId, courseId) then Some(k)
    else FindPlanFrom(plans, order, userId, courseId, k + 1)
  }

  function FindPlan(plans: map<Id, EmiPlan>, order: seq<Id>, userId: Id, courseId: Id): (r: Option<nat>)
    requires forall i :: 0 <= i < |order| ==> order[i] in plans
    ensures r.Some? ==> (r.value < |order| && PlanFor(plans[order[r.value]], userId, courseId) &&
      forall j :: 0 <= j < r.value ==> !PlanFor(plans[order[j]], userId, courseId))
    ensures r.None? <==> forall j :: 0 <= j < |order| ==> !PlanFor(plans[order[j]], userId, courseId)
  {
    FindPlanFrom(plans, order, userId, courseId, 0)
  }

  /** The outcome of `fixEmiStatusForUser`: `{success: false}` without a plan
      or when a write throws, otherwise the two flags, the verdict and the
      status the plan should have. */
  datatype FixResult =
    | NoPlan
    | FixFailed
    | Fixed(planUpdated: bool, userUpdated: bool, emiStatus: EmiStatus, planStatus: PlanStatus)

  /** The entry the repair pushes when it locks a plan. */
  function FixEntry(v: EmiStatus, today: Instant): (e: LockEntry)
    ensures e.unlockDate.None? && e.lockDate == today && e.overdueMonths == v.overdueCount
    ensures e.reason == Some(AutoFix) && e.lockedBy == Some("system")
  {
    LockEntry(today, v.overdueCount, Some(AutoFix), Some("system"), None)
  }

  /** The repair decides by `hasAccessToContent` (EMI-Service.js:333-335, 379-381). */
  function TargetStatus(v: EmiStatus): PlanStatus
  {
    if v.hasAccessToContent then Active else Locked
  }

  function TargetAccess(v: EmiStatus): AccessStatus
  {
    if v.hasAccessToContent then AccessActive else AccessLocked
  }

  /** The repair has to unlock the plan, the write that is rejected. */
  predicate UnlockNeeded(p: EmiPlan, v: EmiStatus)
  {
    p.status != TargetStatus(v) && TargetStatus(v) == Active
  }

  /** The plan after a repair that does not fail: instalments marked late,
      then locked with the repair's entry when the target is `locked`. */
  function RepairedPlan(p: EmiPlan, v: EmiStatus, today: Instant): EmiPlan
  {
    var marked := MarkedPlan(p, today, None);
    if p.status != TargetStatus(v) then LockPlan(marked, FixEntry(v, today)) else marked
  }

  /** The enrollment the repair reads has an access status other than the target. */
  predicate AccessNeedsFix(users: map<Id, User>, userId: Id, courseId: Id, target: AccessStatus)
  {
    userId in users && HasCourse(users[userId].enrolledCourses, courseId) &&
    FirstEnrollment(users[userId], courseId).value.accessStatus != target
  }

  /** `fixEmiStatusForUser` (EMI-Service.js:281-424) on the collections. The
      unlocking update puts `$arrayFilters` inside the update document, where
      the server does not read it as an array filter, so the `$[elem]` path has
      no filter and the write is rejected: the call then returns
      `{success: false}` after the mark-late write. */
  function FixStep(w: World, userId: Id, courseId: Id, utils: EmiUtils, today: Instant,
                   order: seq<Id>): (r: (FixResult, World))
    requires forall i :: 0 <= i < |order| ==> order[i] in w.plans
    ensures r.1.plans.Keys == w.plans.Keys && r.1.users.Keys == w.users.Keys && r.1.outbox == w.outbox
  {
    var found := FindPlan(w.plans, order, userId, courseId);
    if found.None? then (NoPlan, w)
    else
      var pid := order[found.value];
      var p := w.plans[pid];
      var v := utils.calculate(p, today);
      if UnlockNeeded(p, v) then
        (FixFailed, w.(plans := w.plans[pid := MarkedPlan(p, today, None)]))
      else
        var userFix := AccessNeedsFix(w.users, userId, courseId, TargetAccess(v));
        var users := if userFix then SetUserAccess(w.users, userId, courseId, TargetAccess(v)) else w.users;
        (Fixed(AnyDueForLate(p.emis, today) || p.status != TargetStatus(v), userFix, v, TargetStatus(v)),
         World(w.plans[pid := RepairedPlan(p, v, today)], users, w.outbox))
  }

  /** Without a plan for the pair nothing is written and the result is a failure. */
  lemma FixNoPlan(w: World, userId: Id, courseId: Id, utils: EmiUtils, today: Instant, order: seq<Id>)
    requires IsEnumeration(order, w.plans.Keys)
    ensures var r := FixStep(w, userId, courseId, utils, today, order);
      (r.0 == NoPlan <==> forall q :: q in w.plans ==> !PlanFor(w.plans[q], userId, courseId)) &&
      (r.0 == NoPlan ==> r.1 == w)
  {
    var r := FixStep(w, userId, courseId, utils, today, order);
    if r.0 == NoPlan {
      forall q | q in w.plans
        ensures !PlanFor(w.plans[q], userId, courseId)
      {
        var i :| 0 <= i < |order| && order[i] == q;
      }
    }
  }

  /** The repair fails exactly when the verdict grants access to a locked
      plan, that is when it would have to unlock; then only the mark-late
      write has happened. So the repair never unlocks a plan. */
  lemma FixFailsIffUnlockNeeded(w: World, userId: Id, courseId: Id, utils: EmiUtils, today: Instant,
                                order: seq<Id>)
    requires forall i :: 0 <= i < |order| ==> order[i] in w.plans
    requires FindPlan(w.plans, order, userId, courseId).Some?
    ensures var pid := order[FindPlan(w.plans, order, userId, courseId).value];
      var p := w.plans[pid];
      var r := FixStep(w, userId, courseId, utils, today, order);
      (r.0 == FixFailed <==> p.status == Locked && utils.calculate(p, today).hasAccessToContent) &&
      (r.0 == FixFailed ==> r.1.plans == w.plans[pid := p.(emis := MarkLate(p.emis, today))] && r.1.users == w.users) &&
      (p.status == Locked ==> r.1.plans[pid].status == Locked)
  {
    var pid := order[FindPlan(w.plans, order, userId, courseId).value];
    var p := w.plans[pid];
    var v := utils.calculate(p, today);
    var r := FixStep(w, userId, courseId, utils, today, order);
    MarkLateChangesIffDue(p.emis, today);
    if UnlockNeeded(p, v) {
      assert r.0 == FixFailed && r.1.plans[pid] == MarkedPlan(p, today, None);
    } else {
      assert r.0.Fixed? && r.1.plans[pid] == RepairedPlan(p, v, today);
    }
  }

  /** When the repair succeeds, `planUpdated` and `userUpdated` report exactly
      whether the plan and the learner were written, and afterwards the plan
      has the target status and the learner's enrollment the target access. */
  lemma FixFlagsExact(w: World, userId: Id, courseId: Id, utils: EmiUtils, today: Instant,
                      order: seq<Id>)
    requires forall i :: 0 <= i < |order| ==> order[i] in w.plans
    ensures var r := FixStep(w, userId, courseId, utils, today, order);
      r.0.Fixed? ==>
        var pid := order[FindPlan(w.plans, order, userId, courseId).value];
        (r.0.planUpdated <==> r.1.plans != w.plans) &&
        (r.0.userUpdated <==> r.1.users != w.users) &&
        r.1.plans[pid].status == r.0.planStatus &&
        (r.0.planStatus == Active <==> r.0.emiStatus.hasAccessToContent) &&
        (userId in w.users && HasCourse(w.users[userId].enrolledCourses, courseId) ==>
          FirstEnrollment(r.1.users[userId], courseId) ==
            Some(FirstEnrollment(w.users[userId], courseId).value.(accessStatus := TargetAccess(r.0.emiStatus))))
  {
    var r := FixStep(w, userId, courseId, utils, today, order);
    if r.0.Fixed? {
      var pid := order[FindPlan(w.plans, order, userId, courseId).value];
      var p := w.plans[pid];
      var v := utils.calculate(p, today);
      MarkLateChangesIffDue(p.emis, today);
      if r.0.planUpdated {
        if AnyDueForLate(p.emis, today) {
          assert r.1.plans[pid].emis != p.emis;
        } else {
          assert r.1.plans[pid].status != p.status;
        }
      } else {
        assert w.plans[pid := p] == w.plans;
      }
      if userId in w.users && HasCourse(w.users[userId].enrolledCourses, courseId) {
        var es := w.users[userId].enrolledCourses;
        SetAccessFirst(es, courseId, TargetAccess(v), courseId);
        if !r.0.userUpdated {
          assert r.1.users == w.users;
        } else {
          assert FirstEnrollment(r.1.users[userId], courseId) != FirstEnrollment(w.users[userId], courseId);
        }
      }
    }
  }

  /** The repair keeps the lock-history invariant: it locks only an active
      plan and never unlocks. */
  lemma FixKeepsConsistency(w: World, userId: Id, courseId: Id, utils: EmiUtils, today: Instant,
                            order: seq<Id>)
    requires forall i :: 0 <= i < |order| ==> order[i] in w.plans
    requires AllLockConsistent(w.plans)
    ensures AllLockConsistent(FixStep(w, userId, courseId, utils, today, order).1.plans)
  {
    var found := FindPlan(w.plans, order, userId, courseId);
    if found.Some? {
      var pid := order[found.value];
      assert LockConsistent(w.plans[pid]);
    }
  }

  /** The plan writes of `fixEmiStatusForUser` (EMI-Service.js:303-367) on the
      plan found, given the verdict on it; `failed` when the unlocking write
      is rejected. */
  method RepairPlanStage(db: Database, pid: Id, emiStatus: EmiStatus, today: Instant)
    returns (failed: bool, planUpdated: bool)
    requires pid in db.plans
    modifies db
    ensures var p := old(db.plans)[pid];
      failed == UnlockNeeded(p, emiStatus) &&
      (!failed ==> planUpdated == (AnyDueForLate(p.emis, today) || p.status != TargetStatus(emiStatus))) &&
      (failed ==> db.plans == old(db.plans)[pid := MarkedPlan(p, today, None)]) &&
      (!failed ==> db.plans == old(db.plans)[pid := RepairedPlan(p, emiStatus, today)])
    ensures db.users == old(db.users) && db.outbox == old(db.outbox)
    ensures db.payments == old(db.payments) && db.courses == old(db.courses)
  {
    var emiPlan := db.plans[pid];
    assert db.plans[pid := emiPlan] == db.plans;
    planUpdated := false;
    failed := false;
    var marked := emiPlan;
    if AnyDueForLate(emiPlan.emis, today) {
      marked := emiPlan.(emis := MarkLate(emiPlan.emis, today));
      db.plans := db.plans[pid := marked];
      planUpdated := true;
    }
    var correctPlanStatus := TargetStatus(emiStatus);
    if emiPlan.status != correctPlanStatus {
      if correctPlanStatus == Locked {
        db.plans := db.plans[pid := LockPlan(marked, FixEntry(emiStatus, today))];
        planUpdated := true;
      } else {
        failed := true;
      }
    }
  }

  /** `fixEmiStatusForUser`, given the scan order `findOne` follows. */
  method FixEmiStatusForUser(db: Database, userId: Id, courseId: Id, utils: EmiUtils, today: Instant,
                             order: seq<Id>)
    returns (result: FixResult)
    requires forall i :: 0 <= i < |order| ==> order[i] in db.plans
    modifies db
    ensures (result, WorldOf(db)) == FixStep(old(WorldOf(db)), userId, courseId, utils, today, order)
    ensures db.payments == old(db.payments) && db.courses == old(db.courses)
  {
    var found := FindPlan(db.plans, order, userId, courseId);
    if found.None? {
      return NoPlan;
    }
    var pid := order[found.value];
    var emiStatus := utils.calculate(db.plans[pid], today);
    var failed, planUpdated := RepairPlanStage(db, pid, emiStatus, today);
    if failed {
      return FixFailed;
    }
    var userUpdated := false;
    var correctAccessStatus := TargetAccess(emiStatus);
    if AccessNeedsFix(db.users, userId, courseId, correctAccessStatus) {
      db.users := SetUserAccess(db.users, userId, courseId, correctAccessStatus);
      userUpdated := true;
    }
    return Fixed(planUpdated, userUpdated, emiStatus, TargetStatus(emiStatus));
  }

  /** The (userId, courseId) pair of every fetched plan, in scan order. */
  function Targets(plans: map<Id, EmiPlan>, order: seq<Id>): (r: seq<(Id, Id)>)
    requires forall i :: 0 <= i < |order| ==> order[i] in plans
    ensures |r| == |order|
  {
    seq(|order|, i requires 0 <= i < |order| => (plans[order[i]].userId, plans[order[i]].courseId))
  }

  /** A repair result that `fixAllEmiStatusInconsistencies` counts as fixed. */
  predicate CountsAsFixed(r: FixResult)
  {
    r.Fixed? && (r.planUpdated || r.userUpdated)
  }

  /** The loop of `fixAllEmiStatusInconsistencies` over the pairs `ts`: the
      number of counted repairs and the collections afterwards. */
  function FixAll(w: World, ts: seq<(Id, Id)>, utils: EmiUtils, today: Instant, order: seq<Id>): (r: (nat, World))
    requires forall i :: 0 <= i < |order| ==> order[i] in w.plans
    ensures r.0 <= |ts|
    ensures r.1.plans.Keys == w.plans.Keys && r.1.outbox == w.outbox
    decreases |ts|
  {
    if ts == [] then (0, w)
    else
      var before := FixAll(w, ts[..|ts| - 1], utils, today, order);
      var t := ts[|ts| - 1];
      var step := FixStep(before.1, t.0, t.1, utils, today, order);
      (before.0 + (if CountsAsFixed(step.0) then 1 else 0), step.1)
  }

  lemma {:induction false} FixAllKeepsConsistency(w: World, ts: seq<(Id, Id)>, utils: EmiUtils, today: Instant,
                                                  order: seq<Id>)
    requires forall i :: 0 <= i < |order| ==> order[i] in w.plans
    requires AllLockConsistent(w.plans)
    ensures AllLockConsistent(FixAll(w, ts, utils, today, order).1.plans)
    decreases |ts|
  {
    if ts != [] {
      var before := FixAll(w, ts[..|ts| - 1], utils, today, order);
      FixAllKeepsConsistency(w, ts[..|ts| - 1], utils, today, order);
      var t := ts[|ts| - 1];
      FixKeepsConsistency(before.1, t.0, t.1, utils, today, order);
    }
  }

  /** A plan preceded in the scan by another plan of the same learner and
      course, as after two successful verifications of one payment. */
  predicate Shadowed(plans: map<Id, EmiPlan>, order: seq<Id>, k: nat)
    requires forall i :: 0 <= i < |order| ==> order[i] in plans
  {
    k < |order| &&
    exists j :: 0 <= j < k && PlanFor(plans[order[j]], plans[order[k]].userId, plans[order[k]].courseId)
  }

  /** The repair never changes who a plan belongs to. */
  lemma FixKeepsOwners(w: World, userId: Id, courseId: Id, utils: EmiUtils, today: Instant, order: seq<Id>)
    requires forall i :: 0 <= i < |order| ==> order[i] in w.plans
    ensures var r := FixStep(w, userId, courseId, utils, today, order).1;
      forall q :: q in w.plans ==> r.plans[q].userId == w.plans[q].userId && r.plans[q].courseId == w.plans[q].courseId
  {
  }

  /** `findOne` always returns the first plan for the pair, so a shadowed
      plan is never written by the repair, whichever pair it is run for. */
  lemma FixLeavesShadowed(w: World, userId: Id, courseId: Id, utils: EmiUtils, today: Instant,
                          order: seq<Id>, k: nat)
    requires forall i :: 0 <= i < |order| ==> order[i] in w.plans
    requires forall i, j :: 0 <= i < j < |order| ==> order[i] != order[j]
    requires Shadowed(w.plans, order, k)
    ensures FixStep(w, userId, courseId, utils, today, order).1.plans[order[k]] == w.plans[order[k]]
  {
    var found := FindPlan(w.plans, order, userId, courseId);
    if found.Some? {
      var q := order[k];
      if PlanFor(w.plans[q], userId, courseId) {
        var j :| 0 <= j < k && PlanFor(w.plans[order[j]], w.plans[q].userId, w.plans[q].courseId);
        assert found.value <= j;
      }
      assert order[found.value] != q;
    }
  }

  /** Hence the bulk repair leaves every shadowed plan as it was. */
  lemma {:induction false} FixAllLeavesShadowed(w: World, ts: seq<(Id, Id)>, utils: EmiUtils, today: Instant,
                                                order: seq<Id>, k: nat)
    requires forall i :: 0 <= i < |order| ==> order[i] in w.plans
    requires forall i, j :: 0 <= i < j < |order| ==> order[i] != order[j]
    requires Shadowed(w.plans, order, k)
    ensures var r := FixAll(w, ts, utils, today, order).1;
      r.plans[order[k]] == w.plans[order[k]] && Shadowed(r.plans, order, k)
    decreases |ts|
  {
    if ts != [] {
      var before := FixAll(w, ts[..|ts| - 1], utils, today, order);
      FixAllLeavesShadowed(w, ts[..|ts| - 1], utils, today, order, k);
      var t := ts[|ts| - 1];
      FixLeavesShadowed(before.1, t.0, t.1, utils, today, order, k);
      FixKeepsOwners(before.1, t.0, t.1, utils, today, order);
      var r := FixStep(before.1, t.0, t.1, utils, today, order).1;
      var q := order[k];
      var j :| 0 <= j < k && PlanFor(before.1.plans[order[j]], before.1.plans[q].userId, before.1.plans[q].courseId);
      assert PlanFor(r.plans[order[j]], r.plans[q].userId, r.plans[q].courseId);
    }
  }

  /** A scan lists every key once, so it has as many entries as there are keys. */
  lemma {:induction false} EnumerationSize(ids: seq<Id>, keys: set<Id>)
    requires IsEnumeration(ids, keys)
    ensures |ids| == |keys|
    decreases |ids|
  {
    if ids == [] {
      assert keys == {};
    } else {
      var last := ids[|ids| - 1];
      var pre := ids[..|ids| - 1];
      assert last !in pre by {
        forall i | 0 <= i < |pre| ensures pre[i] != last {
          assert ids[i] != ids[|ids| - 1];
        }
      }
      forall k | k in keys - {last} ensures k in pre {
        assert k in ids;
        var i :| 0 <= i < |ids| && ids[i] == k;
        assert i < |ids| - 1;
        assert pre[i] == k;
      }
      EnumerationSize(pre, keys - {last});
    }
  }

  /** One more iteration of the bulk repair. */
  lemma FixAllSnoc(w: World, ts: seq<(Id, Id)>, i: nat, utils: EmiUtils, today: Instant, order: seq<Id>)
    requires forall j :: 0 <= j < |order| ==> order[j] in w.plans
    requires i < |ts|
    ensures var before := FixAll(w, ts[..i], utils, today, order);
      var step := FixStep(before.1, ts[i].0, ts[i].1, utils, today, order);
      FixAll(w, ts[..i + 1], utils, today, order) ==
        (before.0 + (if CountsAsFixed(step.0) then 1 else 0), step.1)
  {
    assert ts[..i + 1][..i] == ts[..i];
  }

  /** The loop of `fixAllEmiStatusInconsistencies` (EMI-Service.js:444-454)
      over the pairs of the fetched plans. */
  method FixLoop(db: Database, utils: EmiUtils, today: Instant, order: seq<Id>, ts: seq<(Id, Id)>)
    returns (fixed: nat)
    requires forall i :: 0 <= i < |order| ==> order[i] in db.plans
    modifies db
    ensures (fixed, WorldOf(db)) == FixAll(old(WorldOf(db)), ts, utils, today, order)
    ensures db.payments == old(db.payments) && db.courses == old(db.courses)
  {
    ghost var w0 := WorldOf(db);
    fixed := 0;
    for i := 0 to |ts|
      invariant (fixed, WorldOf(db)) == FixAll(w0, ts[..i], utils, today, order)
      invariant db.plans.Keys == w0.plans.Keys
      invariant db.payments == old(db.payments) && db.courses == old(db.courses)
    {
      FixAllSnoc(w0, ts, i, utils, today, order);
      var result := FixEmiStatusForUser(db, ts[i].0, ts[i].1, utils, today, order);
      if CountsAsFixed(result) {
        fixed := fixed + 1;
      }
    }
    assert ts[..|ts|] == ts;
  }

  /** `fixAllEmiStatusInconsistencies` (EMI-Service.js:427-467). The per-plan
      call catches its own errors, so `errors` stays 0; `total` is the number
      of fetched plans, which is the number of plans, and at most that many
      are counted as fixed. */
  method FixAllEmiStatusInconsistencies(db: Database, utils: EmiUtils, today: Instant, order: seq<Id>)
    returns (success: bool, fixed: nat, errors: nat, total: nat)
    requires IsEnumeration(order, db.plans.Keys)
    modifies db
    ensures (fixed, WorldOf(db)) == FixAll(old(WorldOf(db)), Targets(old(db.plans), order), utils, today, order)
    ensures success && errors == 0 && total == |old(db.plans)| && fixed <= total
    ensures AllLockConsistent(old(db.plans)) ==> AllLockConsistent(db.plans)
    ensures db.outbox == old(db.outbox) && db.plans.Keys == old(db.plans.Keys)
    ensures db.payments == old(db.payments) && db.courses == old(db.courses)
  {
    ghost var w0 := WorldOf(db);
    var allPlans := db.plans;
    fixed := FixLoop(db, utils, today, order, Targets(allPlans, order));
    errors := 0;
    EnumerationSize(order, allPlans.Keys);
    total := |order|;
    success := true;
    if AllLockConsistent(w0.plans) {
      FixAllKeepsConsistency(w0, Targets(allPlans, order), utils, today, order);
    }
  }
}
