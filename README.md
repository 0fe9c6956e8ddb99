# EMI billing engine of the course-sales backend, in Dafny

This project models the instalment ("EMI") billing engine of a course-sales
backend and proves properties of the model. A learner buys a course either
in full or in monthly instalments. The engine has six parts:

- **Checkout** (`Payment-Controller.js`). `createPayment` checks the request and
  records a pending payment for a gateway order. `verifyPayment` checks the
  gateway's signature and status, then completes the payment and enrolls the
  learner. For EMI it also creates a plan of instalments (`createEmiPlan`).
- **Calendar** (`EMI-DateUtils.js`). Due dates are month additions with
  JavaScript's day overflow, followed by a clamp of the due day to the
  month's length.
- **Overdue sweep and repair** (`EMI-Service.js`). The sweep marks instalments
  late, locks plans with overdue payments and unlocks plans that are current.
  Locking and unlocking also update the learner's enrollment and record a
  lock history. The same file holds the reminder window, the single-plan and
  bulk repair, and the manual lock and unlock primitives.
- **Webhook** (`Webhook-Handler.js`). The signed gateway events are
  `payment.captured`, `payment.failed` and `order.paid`.
- **Access decision** (`EMI-accessMiddleware.js`). It grants or denies a
  learner's access to a course.
- **Course schema and validators** (`Course-model.js`, `validate.js`). The
  course's price fields, its pre-save `finalPrice` hook, and the
  e-mail/password/mobile validators.

The database is a `Store.Database` object. It has one map per collection:
payments, EMI plans, users and courses. It also has an append-only outbox of
the notifications handed to the notification service. Handlers are methods
that `modify` it. Each method is proved equal to a state function:
`VerifyPayment` to `GateOutcome`/`EnrollmentEffect`, `ProcessOverdueEmis` to
`SweepAll`, `FixEmiStatusForUser` to `FixStep`, and `HandleRazorpayWebhook`
to `WebhookEffect`. The properties are lemmas about those functions.

Some things come from outside the code and are parameters instead:

- the clock;
- the ids a save would assign;
- the gateway's replies (`orders.create`, `payments.fetch`). The order id
  that `orders.create` returns is assumed to be used by no stored payment
  (`PaymentController.CreatePayment` requires it). The order-id uniqueness
  that `Store.Database.Valid` keeps, and that the webhook's look-up by order
  id relies on, depends on this assumption;
- the order in which a collection scan returns documents;
- for the sweep, which awaited call of a plan's iteration rejects.

The HMAC-SHA256 of RFC 2104 is an abstract function of the secret and the
message, inside `Crypto.Config`. `calculateEmiStatus`, `getEmiDetails` and
`validateCourseForEmi` are in `EMI-Utils.js`, which is not part of this
model. They are uninterpreted functions in `Records.EmiUtils`.

Modules follow the source: `Common` (shared JavaScript values), `DateUtils`,
`Validate`, `CourseModel`, `Records` (the stored records and the updates on
them), `Store`, `Crypto`, `PaymentController`, `EmiService`, `WebhookHandler`
and `AccessMiddleware`.

## Code and specification

Where the system's specification and its code disagree, the model follows
the code:

- **Synchronous verification is not idempotent.** The specification asks
  that a second reconciliation of a completed payment be a no-op.
  `verifyPayment` does not check the prior status. After two identical
  successful calls the course counter has grown by 4 for EMI, with two plans
  and two enrollments, since each enrollment names its own plan. For a full
  payment it has grown by 2, and the second enrollment is a no-op, since
  `$addToSet` finds the identical sub-document already there
  (`PaymentController.VerifyTwice`, `Records.AddToSetIdempotent`).
- **The webhook gate holds in one direction only.** A capture webhook after
  any completion writes nothing
  (`WebhookHandler.CaptureOfSettledOrderIsNoOp`). A `verifyPayment` after a
  webhook completion repeats the enrollment writes and the counter increment.
- **Handled webhook events answer 500.** The response of
  `handleRazorpayWebhook` reads an undeclared `result`, so every handled
  event ends in the catch with 500, after its writes. `handlePaymentFailed`
  likewise reads an undeclared `updatedPayment` and reports failure.
- **A wrong-length signature answers 500.** `timingSafeEqual` throws on a
  length mismatch, so such a signature gives 500, not 400.
- **The repair never unlocks.** The unlocking update of
  `fixEmiStatusForUser` puts `$arrayFilters` inside the update document, at
  `src/Services/EMI-Service.js:358-362`. The server does not take it as an
  array filter, so the `$[elem]` path has no filter and the write is
  rejected. The model makes that choice: the call returns `success: false`
  after its mark-late write. So the repair heals a wrongly active plan but
  never a wrongly locked one.
- **The sweep and the repair use different verdicts.** The sweep decides by
  `hasOverduePayments`, the repair by `hasAccessToContent`. Both are kept.

## Model

| member | source | states |
|---|---|---|
| DateUtils.DaysInMonth | src/Services/EMI-DateUtils.js:5 | a month has 28 to 31 days, and 29 exactly for February of a Gregorian leap year |
| DateUtils.GetLastDayOfMonth | src/Services/EMI-DateUtils.js:3-8 | the result keeps the year and month and has the month's length as its day |
| DateUtils.LastDayIsMonthLength | src/Services/EMI-DateUtils.js:5 | day 0 of the next month, after `Date` normalisation, is the last day of this month |
| DateUtils.Normalize | src/Services/EMI-DateUtils.js:36 | `new Date(y, m, d)` with any day count yields a valid calendar date |
| DateUtils.NormalizeIsDayArithmetic | src/Services/EMI-DateUtils.js:36 | the normalised date lies d - 1 days after the first of month m |
| DateUtils.NormalizeValid | src/Services/EMI-DateUtils.js:36 | a valid date is left as it is |
| DateUtils.GetMonthName | src/Services/EMI-DateUtils.js:10-20 | month index i maps to the i-th English month name |
| DateUtils.MonthNamesInOrder | src/Services/EMI-DateUtils.js:12-15 | twelve distinct names, January first, February second, December last |
| DateUtils.GetMonthNameFromDate | src/Services/EMI-DateUtils.js:42-47 | gives the same name as `getMonthName` |
| DateUtils.AddMonthsShape | src/Services/EMI-DateUtils.js:27 | `setMonth(m + k)` lands in month m + k with year carry when the day fits; otherwise one month later, on day (start day - month length), at most 3 |
| DateUtils.NextDueDateIsClamped | src/Services/EMI-DateUtils.js:22-40 | the due date keeps the year and month reached by `setMonth`, its day is min(dueDay, month length), and it is a valid date |
| DateUtils.DueDayKeptUpTo28 | src/Services/EMI-DateUtils.js:33 | a due day of at most 28 is kept exactly |
| DateUtils.NextDueMonthExact | src/Services/EMI-DateUtils.js:27 | a start day of at most 28 gives exactly month start + offset, with year carry |
| DateUtils.NextDueMonthOverflow | src/Services/EMI-DateUtils.js:24-30 | a start day past the target month's length rolls the result into the month after |
| DateUtils.JanuaryThirtyFirstSkipsFebruary | src/Services/EMI-DateUtils.js:24-36 | from 31 January 2025, offset 1 gives a March date, and offsets 1 and 2 with due day 15 give the same date |
| DateUtils.NextDueDatesIncrease | src/Services/EMI-DateUtils.js:27-36 | with a start day of at most 28, due dates strictly increase with the offset |
| DateUtils.NextDueDatesNonDecreasing | src/Services/EMI-DateUtils.js:27-36 | for any start day, due dates never decrease with the offset |
| DateUtils.NextDueDateAfterStart | src/Services/EMI-DateUtils.js:22-40 | for offset at least 1 the due date's midnight falls after the start instant |
| Validate.MobileCharacterization | src/Utils/validate.js:13-18 | valid iff, after an optional "+", there are 2 to 15 characters, all digits, the first not "0" |
| Validate.MobileRejections | src/Utils/validate.js:16 | a leading "0" or any non-digit after the optional "+" is rejected |
| Validate.EmailCharacterization | src/Utils/validate.js:1-4 | valid iff one "@" and no whitespace, a non-empty local part, and a domain with a "." neither first nor last |
| Validate.PasswordCharacterization | src/Utils/validate.js:6-10 | valid iff at least 8 characters, each from A-Z, a-z, 0-9, @$!%*?&, with at least one of each of the four classes |
| CourseModel.ParseDuration | src/Models/Course-Model/Course-model.js:60-64 | exactly "6 months", "1 year", "2 years" are accepted, and each is its value's label |
| CourseModel.ParseLevel | src/Models/Course-Model/Course-model.js:79-83 | exactly "beginner", "medium", "hard" are accepted |
| CourseModel.ParseLanguage | src/Models/Course-Model/Course-model.js:84-88 | exactly "english", "tamil" are accepted |
| CourseModel.ParseCertificates | src/Models/Course-Model/Course-model.js:89-93 | exactly "yes", "no" are accepted |
| CourseModel.LabelsRoundTrip | src/Models/Course-Model/Course-model.js:60-93 | every enum value parses back from its label |
| CourseModel.DefaultPrice | src/Models/Course-Model/Course-model.js:72-77 | a new price has currency "INR", discount 0 and no final price yet |
| CourseModel.DefaultEmiConfig | src/Models/Course-Model/Course-model.js:44-53 | EMI is unavailable and the duration is null by default |
| CourseModel.NewCourse | src/Models/Course-Model/Course-model.js:55-104 | a new course has the default price, an enrollment count of 0, and no EMI or rating |
| CourseModel.DiscountedPriceBounds | src/Models/Course-Model/Course-model.js:106-111 | with a discount in [0, 100] and a non-negative amount, 0 <= finalPrice <= amount; discount 0 gives the amount and 100 gives 0 |
| CourseModel.DiscountedPriceAntitone | src/Models/Course-Model/Course-model.js:108 | a larger discount never gives a larger final price |
| CourseModel.CourseDocument.SetPrice | src/Models/Course-Model/Course-model.js:72-77 | assigning the price marks that price path modified and changes nothing else |
| CourseModel.CourseDocument.PreSave | src/Models/Course-Model/Course-model.js:106-111 | finalPrice := amount * (1 - discount / 100) when the amount or discount was modified; otherwise the document is unchanged |
| CourseModel.CourseDocument.Save | src/Models/Course-Model/Course-model.js:106-111 | a save runs schema validation and then the hook; a failed save changes nothing, and a successful one clears the modified paths |
| CourseModel.NewDocumentPriceIsModified | src/Models/Course-Model/Course-model.js:107 | on a new document the price amount counts as modified |
| CourseModel.CreateCourse | src/Models/Course-Model/Course-model.js:106-112 | creating a course succeeds iff it passes the schema, and then stores finalPrice = the discounted price, which lies between 0 and the amount when the amount is not negative |
| Common.Ceil | src/Controllers/Payment-controller/Webhook-Handler.js:184 | `Math.ceil`: the least integer not below x |
| Crypto.HexEncode | src/Controllers/Payment-controller/Webhook-Handler.js:21 | the hex digest has two characters per byte, each a lower-case hexadecimal digit |
| Crypto.HexDecode | src/Controllers/Payment-controller/Webhook-Handler.js:24-25 | `Buffer.from(s, "hex")` yields at most one byte per two characters |
| Crypto.HexRoundTrip | src/Controllers/Payment-controller/Webhook-Handler.js:21-24 | decoding the hex digest gives back the digest bytes |
| Crypto.HexDecodeIgnoresTail | src/Controllers/Payment-controller/Webhook-Handler.js:25 | anything after a complete encoding that does not start with a hex pair is ignored |
| Crypto.TimingSafeEqual | src/Controllers/Payment-controller/Webhook-Handler.js:23-26 | throws exactly on a length mismatch, answers equal exactly on equal bytes |
| Records.MarkLate | src/Services/EMI-Service.js:107-133 | exactly the pending instalments whose grace period ended before today become late; the others are kept |
| Records.MarkLateIdempotent | src/Services/EMI-Service.js:107-133 | after marking nothing is left to mark, and marking twice equals marking once |
| Records.MarkLateChangesIffDue | src/Services/EMI-Service.js:107-133 | marking changes the instalments iff some instalment is due for marking |
| Records.CountPendingDue | src/Services/EMI-Service.js:25-27 | the count is 0 iff no pending instalment is due by now, and at most the number of instalments |
| Records.CountPendingDueIsFilterLength | src/Services/EMI-Service.js:25-27 | the count is the length of the filtered array: the number of positions holding a pending instalment due no later than now |
| Records.CloseOpen | src/Services/EMI-Service.js:185-196 | every entry without an unlock date gets today's; the others are kept |
| Records.CloseOpenLeavesNoneOpen | src/Services/EMI-Service.js:185-196 | after closing, no lock entry is open |
| Records.LockPlan | src/Services/EMI-Service.js:143-153 | the plan becomes locked with exactly one entry appended, so one more entry is open; instalments and owner are kept |
| Records.UnlockPlan | src/Services/EMI-Service.js:185-196 | the plan becomes active with no open entry and the same history length; instalments and owner are kept |
| Records.LockUnlockKeepConsistency | src/Services/EMI-Service.js:143-196 | locking an active consistent plan and unlocking any plan both give a plan whose open-entry count matches its status (0 when active, 1 when locked) |
| Records.FirstIndex | src/Services/EMI-Service.js:12-17 | the positional `$` picks the first enrollment for the course, and none when there is none |
| Records.FirstEnrollment | src/Middleware/EMI-accessMiddleware.js:50-56 | the projected enrollment exists iff the user has the course, and it is for that course |
| Records.SetAccess | src/Services/EMI-Service.js:10-20 | only the first enrollment for the course changes, and only its access status |
| Records.SetAccessFirst | src/Services/EMI-Service.js:10-20 | afterwards the first enrollment for the course has the new status, and every other course's first enrollment is unchanged |
| Records.SetAccessSame | src/Services/EMI-Service.js:10-20 | writing the status already there is a no-op |
| Records.AddToSet | src/Controllers/Payment-controller/Webhook-Handler.js:210-218 | `$addToSet` keeps every enrollment, adds the new sub-document, and adds nothing when an identical one is present |
| Records.AddToSetIdempotent | src/Controllers/Payment-controller/Webhook-Handler.js:210-218 | adding the same sub-document twice is adding it once |
| Records.SetUserAccess | src/Services/EMI-Service.js:10-20 | only the named user changes; a missing user matches nothing |
| Records.AddEnrollment | src/Controllers/Payment-controller/Payment-Controller.js:548-561 | only the named user changes, by `$addToSet`; a missing user matches nothing |
| Records.IncEnrollmentCount | src/Controllers/Payment-controller/Payment-Controller.js:563-565 | only the named course's counter goes up, by one |
| Store.PaymentUpdateKeepsValid | src/Controllers/Payment-controller/Payment-Controller.js:301-309 | rewriting a payment in place, keeping its order id, keeps every payment well-formed and order ids unique |
| Store.PaymentInsertKeepsValid | src/Controllers/Payment-controller/Payment-Controller.js:171-195 | inserting a well-formed payment for a fresh order keeps the payments valid |
| PaymentController.ValidatePaymentData | src/Controllers/Payment-controller/Payment-Controller.js:27-34 | one message per failed check, in check order; empty iff userId, courseId and a numeric amount are present |
| PaymentController.CreatePayment | src/Controllers/Payment-controller/Payment-Controller.js:36-234 | rejections write nothing; an EMI request with a bad due day is rejected with 400; a payment is created iff the request is admissible and the gateway created an order; it is then pending, for the expected amount and the gateway's order, with a due day iff EMI |
| PaymentController.ScheduleLength | src/Controllers/Payment-controller/Payment-Controller.js:514 | the loop yields max(1, months) instalments |
| PaymentController.BuildSchedule | src/Controllers/Payment-controller/Payment-Controller.js:499-524 | the loop builds the paid first instalment, then one pending instalment for each month 2..months |
| PaymentController.Schedule | src/Controllers/Payment-controller/Payment-Controller.js:499-524 | the schedule as a value satisfies the same description |
| PaymentController.ScheduleUnique | src/Controllers/Payment-controller/Payment-Controller.js:499-524 | that description fixes the schedule uniquely |
| PaymentController.ScheduleShape | src/Controllers/Payment-controller/Payment-Controller.js:499-524 | instalment 1 is paid now; instalment k >= 2 is pending with month k, due at midnight of `getNextDueDate(now, dueDay, k - 1)` on the clamped day, grace ending 259 200 000 ms later; all for the monthly amount |
| PaymentController.ScheduleDueDatesOrdered | src/Controllers/Payment-controller/Payment-Controller.js:514-524 | due dates never decrease, the first is before all others, and they strictly increase for a start day of at most 28 |
| PaymentController.JanuaryThirtyFirstRepeatsDueDate | src/Controllers/Payment-controller/Payment-Controller.js:514-515 | a start on 31 January 2025 with due day 15 gives instalments 2 and 3 the same due date |
| PaymentController.NewPlanFacts | src/Controllers/Payment-controller/Payment-Controller.js:526-545 | a new plan is active with an empty lock history and the chosen due day, period, start and schedule |
| PaymentController.CreateEmiPlan | src/Controllers/Payment-controller/Payment-Controller.js:490-568 | saves the new plan under the fresh id, adds the EMI enrollment, raises the course counter once, and touches nothing else |
| PaymentController.EnrollmentEffectFacts | src/Controllers/Payment-controller/Payment-Controller.js:336-402 | after a confirmation the counter is up 2 for EMI and 1 for full payment; EMI adds one active plan, full adds none; an active enrollment with a plan iff EMI is present |
| PaymentController.EnrollConfirmed | src/Controllers/Payment-controller/Payment-Controller.js:336-402 | performs exactly the enrollment writes of a confirmation |
| PaymentController.GateOutcome | src/Controllers/Payment-controller/Payment-Controller.js:248-317 | checks in order: fields present, no refund flag, signature, gateway status captured; then the id's form and the record's existence; a 400 answer means a gate failed |
| PaymentController.VerifyPayment | src/Controllers/Payment-controller/Payment-Controller.js:236-438 | a failed check leaves every collection unchanged; otherwise the payment is completed, and then the learner is enrolled unless course or user is missing; verified iff all gates pass and course and user exist |
| PaymentController.VerifyTwice | src/Controllers/Payment-controller/Payment-Controller.js:301-402 | two identical successful calls both verify and raise the counter by 4 for EMI (with two plans) and 2 for full payment |
| PaymentController.TotalPages | src/Controllers/Payment-controller/Payment-Controller.js:654 | undefined exactly when the limit is 0 |
| PaymentController.PagesCoverDocuments | src/Controllers/Payment-controller/Payment-Controller.js:610 | with a positive limit the pages just cover the documents, and every document index lies on exactly one page in 1..totalPages |
| PaymentController.DefaultPageIsFirstFive | src/Controllers/Payment-controller/Payment-Controller.js:595 | the defaults skip nothing and take five documents |
| EmiService.ManualLockEntry | src/Services/EMI-Service.js:25-36 | the manual lock entry is open, dated now, and counts the pending instalments due by now |
| EmiService.LockCourseAccess | src/Services/EMI-Service.js:8-45 | the enrollment is locked first; it succeeds iff the plan exists; the plan is then locked with the entry appended and a lock notice sent, and nothing else changes |
| EmiService.RelockOpensSecondEntry | src/Services/EMI-Service.js:29-37 | locking an already locked plan leaves two open entries, breaking the one-open-entry invariant |
| EmiService.LockActiveKeepsConsistency | src/Services/EMI-Service.js:29-37 | locking an active consistent plan keeps it consistent |
| EmiService.UnlockCourseAccess | src/Services/EMI-Service.js:48-85 | the enrollment is activated first; it succeeds iff the plan exists; the plan is then active with every open entry closed, it is consistent, and an unlock notice is sent |
| EmiService.SweepActionFor | src/Services/EMI-Service.js:138-180 | lock iff overdue and active, unlock iff current and locked, no write iff the plan agrees with the verdict; so the two branches exclude each other |
| EmiService.SweepEntry | src/Services/EMI-Service.js:143-153 | the sweep's entry is open, dated today, with the overdue count, reason and `lockedBy: "system"` |
| EmiService.SweepStep | src/Services/EMI-Service.js:101-228 | one iteration keeps the set of plans |
| EmiService.SweepPlanNoFault | src/Services/EMI-Service.js:107-218 | without a fault the instalments are marked late exactly, and: lock sets locked and appends exactly the sweep's entry; unlock sets active and closes every open entry; agreement keeps status and history; other fields are kept |
| EmiService.SweepStepAccess | src/Services/EMI-Service.js:138-218 | lock and unlock set the first enrollment's access and send the matching notice; agreement writes no enrollment and sends nothing |
| EmiService.SweepPlanKeepsConsistency | src/Services/EMI-Service.js:143-196 | whatever call rejects, a consistent plan stays consistent |
| EmiService.SweepStableVerdictIdempotent | src/Services/EMI-Service.js:100-229 | when the verdict is the same after processing, a second pass over the plan writes nothing |
| EmiService.SweepAll | src/Services/EMI-Service.js:100-229 | the whole loop keeps the set of plans |
| EmiService.SweepAllIsolation | src/Services/EMI-Service.js:223-228 | a failure in one plan does not affect the others: each plan ends as processing it alone would leave it |
| EmiService.SweepAllKeepsConsistency | src/Services/EMI-Service.js:100-229 | the sweep keeps "active has no open entry, locked has exactly one" for every plan |
| EmiService.MarkLateStage | src/Services/EMI-Service.js:107-135 | performs the mark-late write unless it rejects, and reports whether the iteration goes on |
| EmiService.StatusStage | src/Services/EMI-Service.js:137-218 | performs the plan write of the chosen branch, then the enrollment write and notice unless an earlier call rejected |
| EmiService.ProcessPlan | src/Services/EMI-Service.js:101-228 | one iteration of the loop equals `SweepStep` |
| EmiService.SweepLoop | src/Services/EMI-Service.js:100-229 | the loop over the scan equals `SweepAll` |
| EmiService.ProcessOverdueEmis | src/Services/EMI-Service.js:88-232 | every plan ends as processing it alone would leave it, the plan set is kept, the lock-history invariant is preserved, and payments and courses are untouched |
| EmiService.Unwind | src/Services/EMI-Service.js:242-260 | `$unwind` plus the filter pairs the plan with exactly its instalments in the window |
| EmiService.UpcomingMembership | src/Services/EMI-Service.js:242-260 | a document is aggregated iff it pairs an active plan with one of its pending instalments due between today and five days on |
| EmiService.RemindersOf | src/Services/EMI-Service.js:267-272 | one reminder per aggregated document, in order |
| EmiService.SendPaymentReminders | src/Services/EMI-Service.js:235-278 | appends exactly those reminders to the outbox and changes nothing else |
| EmiService.FindPlan | src/Services/EMI-Service.js:286-289 | `findOne` gives the first plan for the pair in scan order, or none when there is none |
| EmiService.FixEntry | src/Services/EMI-Service.js:347-355 | the repair's entry is open, dated today, with the overdue count, reason AutoFix and `lockedBy: "system"` |
| EmiService.FixStep | src/Services/EMI-Service.js:281-424 | the repair keeps the plan and user keys and sends nothing |
| EmiService.FixNoPlan | src/Services/EMI-Service.js:286-295 | no plan for the pair iff the result is "no plan", and then nothing is written |
| EmiService.FixFailsIffUnlockNeeded | src/Services/EMI-Service.js:347-367 | the repair fails iff it would have to unlock; then only the mark-late write happened; a locked plan stays locked |
| EmiService.FixFlagsExact | src/Services/EMI-Service.js:303-419 | on success `planUpdated` and `userUpdated` say exactly whether the plan and the user changed; the plan has the target status and the first enrollment the target access |
| EmiService.FixKeepsConsistency | src/Services/EMI-Service.js:303-367 | the repair keeps the lock-history invariant |
| EmiService.FixKeepsOwners | src/Services/EMI-Service.js:303-367 | the repair never changes a plan's owner |
| EmiService.FixLeavesShadowed | src/Services/EMI-Service.js:286-289 | a plan that an earlier plan for the same pair shadows is never written |
| EmiService.FixAllLeavesShadowed | src/Services/EMI-Service.js:444-454 | hence the bulk repair leaves every shadowed plan as it was |
| EmiService.RepairPlanStage | src/Services/EMI-Service.js:303-367 | the plan writes of the repair: failure iff an unlock is needed, and `planUpdated` exactly when instalments or status change |
| EmiService.FixEmiStatusForUser | src/Services/EMI-Service.js:281-424 | equals `FixStep`, and leaves payments and courses untouched |
| EmiService.FixAll | src/Services/EMI-Service.js:444-454 | at most one counted repair per pair; keys and outbox are kept |
| EmiService.FixAllKeepsConsistency | src/Services/EMI-Service.js:444-454 | the bulk repair keeps the lock-history invariant |
| EmiService.FixLoop | src/Services/EMI-Service.js:444-454 | the loop equals `FixAll` |
| EmiService.FixAllEmiStatusInconsistencies | src/Services/EMI-Service.js:427-467 | equals `FixAll` over the fetched pairs; it succeeds with no errors, total equal to the number of plans and fixed <= total; the invariant is kept |
| WebhookHandler.ExactDigestAccepted | src/Controllers/Payment-controller/Webhook-Handler.js:17-27 | the lower-case hex HMAC of the body passes the check |
| WebhookHandler.DigestWithTailAccepted | src/Controllers/Payment-controller/Webhook-Handler.js:25 | the digest followed by text not starting with a hex pair passes too |
| WebhookHandler.WrongLengthThrows | src/Controllers/Payment-controller/Webhook-Handler.js:23-26 | a header decoding to a different length makes the check throw |
| WebhookHandler.FindPayment | src/Controllers/Payment-controller/Webhook-Handler.js:99-102 | `findOne` finds a payment of the order (and pending, when asked) when there is one in the scan, and only such a payment |
| WebhookHandler.AsciiUpper | src/Controllers/Payment-controller/Webhook-Handler.js:116 | same length, no lower-case ASCII letter left, each lower-case letter replaced by its capital and every other character kept |
| WebhookHandler.CaptureTerms | src/Controllers/Payment-controller/Webhook-Handler.js:181-185 | monthly amount = the paid amount, total = the final price, months = ceil(finalPrice / amount) |
| WebhookHandler.CaptureOfSettledOrderIsNoOp | src/Controllers/Payment-controller/Webhook-Handler.js:99-111 | when the order's payment is not pending, a capture finds nothing and writes nothing |
| WebhookHandler.CaptureKeepsStore | src/Controllers/Payment-controller/Webhook-Handler.js:89-153 | a capture keeps payments well formed with unique order ids, keeps every course priced, keeps the set of payments and sends no mail; a capture that finds no pending payment or has no method writes nothing |
| WebhookHandler.CaptureCompletesPayment | src/Controllers/Payment-controller/Webhook-Handler.js:99-118 | a successful capture took a pending payment of the order and completes it with the gateway's payment id and the upper-cased method |
| WebhookHandler.CaptureEnrollsEmi | src/Controllers/Payment-controller/Webhook-Handler.js:156-204 | an EMI capture gives the learner an active plan of ceil(finalPrice / amount) instalments whose first is the paid amount and adds 1 to the course counter |
| WebhookHandler.CaptureEnrollsFull | src/Controllers/Payment-controller/Webhook-Handler.js:207-231 | a full-payment capture creates no plan and adds 1 to the course counter |
| WebhookHandler.DuplicateCapture | src/Controllers/Payment-controller/Webhook-Handler.js:99-153 | capturing the same gateway payment twice: the second capture writes nothing |
| WebhookHandler.HandleEmiEnrollment | src/Controllers/Payment-controller/Webhook-Handler.js:156-204 | a missing learner or course writes nothing; otherwise it has exactly the writes of `createEmiPlan` with those terms |
| WebhookHandler.HandleFullPaymentEnrollment | src/Controllers/Payment-controller/Webhook-Handler.js:207-231 | adds the active enrollment without a plan and adds 1 to the counter |
| WebhookHandler.HandlePaymentCaptured | src/Controllers/Payment-controller/Webhook-Handler.js:89-153 | equals the capture effect: nothing without a pending payment or with no method; otherwise complete, then enroll by type |
| WebhookHandler.FailEffect | src/Controllers/Payment-controller/Webhook-Handler.js:243-250 | marks the order's first payment failed with the gateway's error and keeps the keys |
| WebhookHandler.FailOverwritesAnyStatus | src/Controllers/Payment-controller/Webhook-Handler.js:243-250 | a failure notice overwrites even a completed payment; the payments stay valid |
| WebhookHandler.HandlePaymentFailed | src/Controllers/Payment-controller/Webhook-Handler.js:234-268 | performs that write and then always reports failure |
| WebhookHandler.HandleOrderPaid | src/Controllers/Payment-controller/Webhook-Handler.js:271-311 | echoes the order id and amount, and reports a payment status iff a payment of the order exists, which then has that status |
| WebhookHandler.SignatureGate | src/Controllers/Payment-controller/Webhook-Handler.js:32-47 | passes iff a non-empty header is present and the comparison answers equal; a missing header is rejected first |
| WebhookHandler.WebhookResponses | src/Controllers/Payment-controller/Webhook-Handler.js:30-86 | only handled events write; 400 iff the header is missing or the comparison answers different; 200 iff the signature passes and the event is unknown; handled events answer 500 |
| WebhookHandler.RepeatedCaptureDeliveryIsNoOp | src/Controllers/Payment-controller/Webhook-Handler.js:99-117 | a capture delivery for an order whose payment is settled leaves every collection as it was |
| WebhookHandler.DuplicateCaptureDelivery | src/Controllers/Payment-controller/Webhook-Handler.js:99-117 | the second of two identical capture deliveries writes nothing and creates no second plan |
| WebhookHandler.HandleRazorpayWebhook | src/Controllers/Payment-controller/Webhook-Handler.js:30-86 | equals `WebhookEffect` and keeps the store's invariants |
| AccessMiddleware.FindFullPayment | src/Middleware/EMI-accessMiddleware.js:24-29 | finds a completed non-EMI payment for the pair iff one exists, and it is the first such payment in scan order |
| AccessMiddleware.LinkedPlan | src/Middleware/EMI-accessMiddleware.js:50-62 | a plan is populated iff the user's first enrollment for the course names a plan that exists |
| AccessMiddleware.EmiVerdict | src/Middleware/EMI-accessMiddleware.js:62-101 | access iff the calculator grants content; the reason is emi_active, else emi_overdue if payments are overdue, else emi_locked; it carries the calculator's verdict and the plan |
| AccessMiddleware.CheckCourseAccess | src/Middleware/EMI-accessMiddleware.js:6-122 | 400 iff the course id is malformed; otherwise one verdict, with access iff the reason is full_payment or emi_active, and full access iff access |
| AccessMiddleware.FullPaymentGrants | src/Middleware/EMI-accessMiddleware.js:24-46 | a completed full payment grants full_payment, whatever the enrollments, plans, calculator and clock; the verdict reports the amount of the first completed full payment in scan order |
| AccessMiddleware.EmiEnrollmentUsesCalculator | src/Middleware/EMI-accessMiddleware.js:62-101 | without a full payment, a linked plan gets the calculator's verdict: emi_active, emi_overdue or emi_locked |
| AccessMiddleware.PaymentRequiredExactly | src/Middleware/EMI-accessMiddleware.js:104-113 | payment_required iff the id is well-formed, there is no full payment and no linked plan; it denies access with payment type none |
| AccessMiddleware.FirstIndexIgnoresAccess | src/Middleware/EMI-accessMiddleware.js:50-56 | the positional match does not depend on access statuses |
| AccessMiddleware.AccessStatusIgnored | src/Middleware/EMI-accessMiddleware.js:50-65 | users differing only in enrollment access statuses get the same verdict |
| AccessMiddleware.LockWriteIgnored | src/Middleware/EMI-accessMiddleware.js:50-65 | an access write like the sweep's leaves the verdict unchanged |

## Left out

- I/O and foreign code:
  - HMAC-SHA256 is an abstract function.
  - `orders.create`, `payments.fetch` and the clock are parameters.
  - `sendNotification` is an append to the outbox with a reduced payload. The sweep, the reminders and the lock and unlock primitives do not await it, so a failed send there changes no result.
  - `verifyPayment` awaits its welcome notices (`src/Controllers/Payment-controller/Payment-Controller.js:350` and `:386`) before the `$inc` at lines 400-402. The model takes those sends to succeed. A rejected send would skip the counter increment and answer 500 after the payment, plan and enrollment writes; that failure path is not modelled.
  - `getEmiDetails` is total in the model. Its throwing, which `verifyPayment` would answer with 500 after completing the payment, is not modelled.
  - `calculateEmiStatus` is total in the model. Its throwing during the repair (`src/Services/EMI-Service.js:293`, caught at line 420), or during the sweep before any write of that plan, is not modelled.
  - `EMI-Utils.js` is not part of this model. Its three functions are uninterpreted, and `updateEmiAfterPayment` is not modelled.
- Duplicate gateway order ids: Razorpay order ids are assumed unique. A payment whose order id is already stored is not modelled, and the order-id uniqueness of `Store.Database.Valid` rests on this assumption.
- Concurrency: the model runs whole handlers one after another. Races between a webhook and a verification are not modelled.
- Database failures: only the rejected awaits of the sweep are modelled, as a fault map. Every other database call is taken to succeed, and the 500 catch branches they would reach are not modelled.
- Numbers and dates:
  - Amounts are exact reals; JavaScript doubles and `Math.round(expectedAmount * 100)` are not modelled.
  - `getEmiDetails` returns an integer month count in the model. A fractional count would drive the schedule loop of `createEmiPlan` exactly as its floor does, but it would be stored as the plan's `emiPeriod` unrounded; that is not modelled.
  - Dates are calendar triples in one time zone, with no daylight saving time.
  - String-to-number coercion is represented by the number a string converts to.
  - `JSON.stringify` of the webhook body is a given string.
- AccessMiddleware.CheckCourseAccess: the payment details copied into the full-payment verdict are reduced to the amount, and the error branch (500) is not modelled.
- WebhookHandler.AsciiUpper: models `toUpperCase` on ASCII letters only, because Unicode case mapping is not part of this model.
- Response formatting, the random receipt id, the IP capture and the `isTestPayment` flag are not modelled.
- Not modelled, because they are thin wrappers or unreachable:
  - the query wrappers `getEmiDetailsForCourse` and `getUserPaymentById`;
  - the broken `checkPaymentStatus`;
  - the unused `enrollUserWithEmi`.
- For `getUserPayments`, only the pagination arithmetic is modelled. The query, its filter and sort, and the summary totals are not.
- CourseModel.SchemaValid: a missing required string is represented by the empty string, which `required` rejects as well. The `unique` index on `coursename` is a database constraint, not a validator, and is not modelled.
- Only the fields the engine reads are modelled:
  - the Payment and EMIPlan schemas, which are not shown, are reduced to those fields;
  - the course's media, chapter and instructor sub-schemas are left out.
- The serverless and cron entry points are outside the engine. The cron handler's order of running the sweep before the reminders is not modelled.
