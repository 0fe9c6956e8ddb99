/** The MongoDB collections the engine touches, as maps from document id to
    record, and the notifications handed to the notification service, as an
    append-only list. */
module Store {
  import opened Common
  import opened CourseModel
  import opened Records

  /** A payment the order path could have written: a non-zero amount (the
      amount passed `validatePaymentData`), and a due day in 1..31 exactly for
      EMI payments. */
  predicate PaymentWellFormed(p: Payment)
  {
    p.amount != 0.0 &&
    (p.kind == Emi <==> p.emiDueDay.Some?) &&
    (p.emiDueDay.Some? ==> 1 <= p.emiDueDay.value <= 31)
  }

  /** Each gateway order belongs to one payment record. */
  predicate OrderIdsUnique(ps: map<Id, Payment>)
  {
    forall a, b :: a in ps && b in ps && ps[a].razorpayOrderId == ps[b].razorpayOrderId ==> a == b
  }

  predicate PaymentsValid(ps: map<Id, Payment>)
  {
    (forall id :: id in ps ==> PaymentWellFormed(ps[id])) && OrderIdsUnique(ps)
  }

  /** Every stored course has been through the pre-save hook once, which sets
      its final price. */
  predicate CoursesPriced(cs: map<Id, Course>)
  {
    forall id :: id in cs ==> cs[id].price.finalPrice.Some?
  }

  /** The counter increment leaves every course's price as it was. */
  lemma IncKeepsPriced(cs: map<Id, Course>, courseId: Id)
    requires CoursesPriced(cs)
    ensures CoursesPriced(IncEnrollmentCount(cs, courseId))
  {
    var r := IncEnrollmentCount(cs, courseId);
    forall id | id in r ensures r[id].price.finalPrice.Some? {
      assert id in cs;
    }
  }

  /** The lock-history invariant over every plan. */
  predicate AllLockConsistent(plans: map<Id, EmiPlan>)
  {
    forall id :: id in plans ==> LockConsistent(plans[id])
  }

  /** `ids` lists every key of `keys` once: the order a collection scan hands
      the documents back in. */
  predicate IsEnumeration(ids: seq<Id>, keys: set<Id>)
  {
    (forall i :: 0 <= i < |ids| ==> ids[i] in keys) &&
    (forall k :: k in keys ==> k in ids) &&
    (forall i, j :: 0 <= i < j < |ids| ==> ids[i] != ids[j])
  }

  /** Rewriting a payment in place, keeping its order id, keeps the payments valid. */
  lemma PaymentUpdateKeepsValid(ps: map<Id, Payment>, id: Id, p: Payment)
    requires PaymentsValid(ps) && id in ps
    requires p.razorpayOrderId == ps[id].razorpayOrderId && PaymentWellFormed(p)
    ensures PaymentsValid(ps[id := p])
  {
    var r := ps[id := p];
    forall a, b | a in r && b in r && r[a].razorpayOrderId == r[b].razorpayOrderId
      ensures a == b
    {
      assert r[a].razorpayOrderId == ps[a].razorpayOrderId;
      assert r[b].razorpayOrderId == ps[b].razorpayOrderId;
    }
  }

  /** Adding a payment for a fresh gateway order keeps the payments valid. */
  lemma PaymentInsertKeepsValid(ps: map<Id, Payment>, id: Id, p: Payment)
    requires PaymentsValid(ps) && id !in ps && PaymentWellFormed(p)
    requires forall q :: q in ps ==> ps[q].razorpayOrderId != p.razorpayOrderId
    ensures PaymentsValid(ps[id := p])
  {
  }

  /** The contents of every collection at one moment. */
  datatype DbState = DbState(
    payments: map<Id, Payment>,
    plans: map<Id, EmiPlan>,
    users: map<Id, User>,
    courses: map<Id, Course>,
    outbox: seq<Notice>)

  class Database {
    var payments: map<Id, Payment>
    var plans: map<Id, EmiPlan>
    var users: map<Id, User>
    var courses: map<Id, Course>
    var outbox: seq<Notice>

    constructor (payments: map<Id, Payment>, plans: map<Id, EmiPlan>,
                 users: map<Id, User>, courses: map<Id, Course>)
      ensures this.payments == payments && this.plans == plans
      ensures this.users == users && this.courses == courses && outbox == []
    {
      this.payments := payments;
      this.plans := plans;
      this.users := users;
      this.courses := courses;
      outbox := [];
    }

    function Snapshot(): DbState
      reads this
    {
      DbState(payments, plans, users, courses, outbox)
    }

    predicate Valid()
      reads this
    {
      PaymentsValid(payments) && CoursesPriced(courses)
    }
  }
}
