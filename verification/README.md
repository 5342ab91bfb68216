# Verification of the ticket reservation protocol

A ticket is reserved through five stores that no transaction joins: a token counter per event in Redis, and the
bookings, seats, events and waitlist tables in Postgres. Only the order of the steps in the services keeps them in
agreement. This project models those steps, and proves what they keep in every interleaving, what they keep when
service calls do not overlap, and, with concrete runs, what they do not keep. Around the protocol it models the
reconciler, the two rate limiters and the finalizer's worker pool.

Run `dafny verify dfyconfig.toml` in this directory.

## How the model is built

**One step per store call.** `StoreCalls` gives the effect of each Redis command, Lua script, SQL statement or SQL
transaction as a function on the tables (`Model`). `Repositories` and `Services` hold the same operations as classes
that update their fields in place, with the loops over seat labels, and prove each method against those functions and,
row by row, against what the rows hold before and after. `Replies` does the same for the replies of whole calls.

**Every interleaving.** `Protocol` is a state machine. A running service call is a client whose constructor names its
next store call; an action performs that one call (or lets it fail), crashes a client, starts one, or is a step of the
environment (opting out, an admin's cancellation, a new event). The reconciler is one of the clients. A ledger keeps what
the tables forget: how a booking came to be, what became of its tokens, and how many tokens the reconciler gave less those
it took. `Effects` reads every step as one change of the tables. `ProtocolInvariant` proves an invariant over all steps,
and `Conservation` draws the laws from it. `SeatAgreement`, `SeatExactness`, `SeatLedger` and `SeatTokens` say what
interleaving does to seat rows and available seats, `JoinOrder` and `PromotionOrder` what it does to the waitlist,
`DoubleCharge` what it does to charges and refunds. `Collisions` is about two joins, and two requests with one key, whose
calls interleave in any order (`Schedules`).

**Whole calls.** `ServiceCalls` gives whole calls without interference, with any set of failing store calls, and
`ServiceRuns` proves that a run of them is one of the interleavings. `WholeCalls` draws what the laws of the interleaved
machine come to in such runs; `WaitlistQueue`, `Promotions`, `Idempotency`, `Money` and `EventRefunds` are about them too.

**Companions.** `Reconcile`, `RateLimit`, `SlidingWindow` and `WorkerPool`. `Counterexamples` shows runs that break
the stronger laws one might hope for.

Assumptions:

- Each SQL transaction is one step. The code takes no row locks (README.md:44 of the repository speaks of
  `SELECT ... FOR UPDATE`, but no query has it), so this is the serializable reading of its transactions.
- A store call that returns an error has changed nothing.
- A booking's id is its row number, since bookings are never deleted. UUIDs of users and of waitlist entries are
  different values, so the foreign key refuses an entry's id as a user's.
- Money is in integer cents and the limiters compute over reals: rounding is not modelled.
- The payment provider always succeeds, as its simulation does (internal/service/payment/payment.go:216-237).
- Publishing to Kafka and sending mail do nothing; looking a user up does nothing or ends the call.

## What was found

- Tokens, live seats, tokens in flight and lost tokens always add up to the capacity plus what the reconciler gave plus two
  kinds of seats that never took a token: those of promoted bookings and those of requests that list no seat. Without the
  reconciler, the plain law, and with it "no overselling" by the tokens, holds exactly when there are none of either
  (`PlainLawIff`, `PromotionOversells`, `EmptyRequestGetsASeat`).
- A timeout never promotes anyone: it passes the entry's id where the user's id belongs, and the insert is refused.
- The reconciler does not know pending bookings nor reservations in flight and sells their seats again. It is safe exactly
  when the row counts them (`ReconcileIsSafeIff`), and then stays so (`SafeReconcileStaysSafe`); where it counts fewer
  than the live seats, the event is oversold (`UnsafeReconcileOversells`). A counter that it fails to read it takes for
  empty (`FailedReadGivesEverything`).
- A booking cancelled while its payment is under way is still charged, keeps its seats taken and counts as reserved; only this
  and calling an event off over taken rows leave a taken row without a booked booking (`StepKeepsSoundIff`).
- Two cancellations that look up the same waiting user before either removes the entry promote that user twice, and an
  opt-out between lookup and insert is ignored (`LookupsAtOncePromoteTwice`, `OptOutIsIgnored`); without such overlaps and
  failing removals each entry is promoted once, and only while it waits (`PromotedOnceWhileWaiting`).
- Paying again charges again exactly when the first payment's mark or finalization failed (`ChargedAgainIff`); two payments
  of one booking both charge exactly when they are under way at once (`BothChargeIff`).
- An event refund leaves bookings paid exactly when a paid booking has 1000 newer ones in its event or its update fails.
- Joining users get distinct positions unless one reads between another's read and insert (`JoinsCollideIff`).
- One key makes two bookings exactly when its requests overlap and are for different events (`OneKeyTwiceIff`).
- The in-memory limiter hands out a rejected call's refill again, so that no limiter with a rate and a burst keeps the
  textbook token-bucket bound in every run (`TextbookBoundIff`). A rejection need not break it: `WindowTextbookIff` says
  when it does, from the exact account `WindowAccount`.
- The sliding window keeps seconds, not requests, in a window no longer than its limit. It therefore limits nothing at a
  rate of two or more, as with the 50 per second and burst 100 of internal/api/router.go:55, and at rate one rejects only a
  repeated call in a second that ends `burst` admitted ones in a row (`CallRejectedIff`, `LimitsNothingIff`).

## Model

| member | source | states |
|---|---|---|
| Repositories.TokenBucket.InitTokens | internal/redis/tokens.go:30-32 | afterwards exactly the requests for at most the capacity can be reserved; every other counter is as before |
| Repositories.TokenBucket.Reserve | internal/redis/tokens.go:10-41 | succeeds exactly when the counter covers the request, takes that many tokens then and none otherwise, and leaves other counters alone |
| Repositories.TokenBucket.Release | internal/redis/tokens.go:43-45 | adds the tokens, to zero if there was no counter |
| Repositories.TokenBucket.Remaining | internal/redis/tokens.go:47-53 | the size of the largest request that can be reserved, zero without a counter |
| Repositories.BookingsRepository.CreatePending | internal/store/bookings/bookings.go:37-62 | appends one pending, unpaid row, or refuses on a foreign key or the unique key and changes nothing |
| Repositories.BookingsRepository.GetByIdempotency | internal/store/bookings/bookings.go:87-108 | finds a booking with the key whatever its event, and none only if there is none |
| Repositories.BookingsRepository.ListOfEvent | internal/store/bookings/bookings.go:142-172 | the loop returns the event's newest bookings up to the limit |
| Repositories.BookingsRepository.UpdatePaymentStatus | internal/store/bookings/bookings.go:189-205 | overwrites payment status and amount of one row, fails on an unknown id |
| Repositories.BookingsRepository.CancelBookingTx | internal/store/bookings/bookings.go:222-297 | the transaction with its seat loop cancels that row whatever its status and changes no other; only a booked one lowers `reserved` of its event by one and frees exactly its listed seats |
| Repositories.BookingsRepository.FinalizeBooking | internal/store/bookings/bookings.go:299-350 | only a pending row becomes booked and paid, with its seats and amount, but in every case exactly the listed seats of its event are taken by it and `reserved` grows by one |
| Repositories.EventsRepository.UpdateStatus | internal/store/events/events.go:263-276 | sets the status of that event and no other column of any event, fails on an unknown one |
| Repositories.EventsRepository.GetAvailableSeats | internal/store/events/events.go:334-357 | the loop returns the labels of the event's available rows |
| Repositories.SeatsRepository.CreateSeats | internal/store/seats/seats.go:33-46 | the loop adds one available row per label |
| Repositories.SeatsRepository.ReleaseSeats | internal/store/seats/seats.go:95-109 | the loop frees exactly the event's rows with a listed label |
| Repositories.WaitlistRepository.Add | internal/store/waitlist/waitlist.go:31-56 | inserts a row one beyond the largest active position and returns that position |
| Repositories.WaitlistRepository.Remove | internal/store/waitlist/waitlist.go:58-71 | the entry is in no queue any more and every queue keeps its other entries in order; reports whether there was one |
| Repositories.WaitlistRepository.OptOut | internal/store/waitlist/waitlist.go:73-89 | none of the user's rows is active for the event, the others wait on in order, other queues are as before; reports whether there was any |
| Repositories.WaitlistRepository.GetNextActive | internal/store/waitlist/waitlist.go:91-110 | an active row of the smallest position, none only if no row is active |
| Repositories.WaitlistRepository.Count | internal/store/waitlist/waitlist.go:112-125 | the length of the queue: zero exactly when nobody waits, and in a well-formed table less than the next position |
| Repositories.AdminRepository.CancelEvent | internal/store/admin/admin.go:113-146 | the event ends cancelled with its other columns kept, its live bookings end cancelled and no row of its waitlist is active; every other row, event, seat, token and `reserved` stays |
| StoreCalls.FindKey | internal/store/bookings/bookings.go:87-92 | the first booking with the key, and none only if no booking has it |
| StoreCalls.ListByEvent | internal/store/bookings/bookings.go:142-149 | at most `limit` bookings, all of the event, newest first |
| StoreCalls.NextActive | internal/store/waitlist/waitlist.go:91-97 | a row the query may return, and none exactly when the queue is empty |
| Services.BookingsService.Create | internal/service/bookings/bookings.go:49-114 | all branches and replies of the call, whichever of its store calls fail |
| Services.BookingsService.ReserveOrJoin | internal/service/bookings/bookings.go:79-113 | a failed insert after a reservation keeps the tokens; no tokens means the waitlist |
| Services.BookingsService.Join | internal/service/bookings/bookings.go:107-113 | the waitlist fallback and its position |
| Services.BookingsService.Cancel | internal/service/bookings/bookings.go:118-188 | tokens come back only for a booked booking, then the next waiting user is promoted |
| Services.BookingsService.PromoteNext | internal/service/bookings/bookings.go:153-185 | the head of the queue gets a pending booking for the cancelled seats without taking a token |
| Services.PaymentService.ProcessBookingPayment | internal/service/payment/payment.go:50-124 | checks, charge, mark and finalization in this order, stopping at the first failure |
| Services.PaymentService.ProcessCancellationRefund | internal/service/payment/payment.go:126-178 | a paid booking is refunded its amount less the fee, at least nothing |
| Services.PaymentService.ProcessEventCancellationRefund | internal/service/payment/payment.go:180-213 | the loop refunds each booking that was listed as paid, and goes on after a failed update |
| Services.FinalizeService.HandleBookingTimeout | internal/service/worker/finalize.go:102-192 | a pending booking is cancelled; the promotion uses the entry's id as user |
| Services.AdminService.CreateEvent | internal/service/admin/admin.go:49-83 | refused unless there is a label per seat; else the event with its own numbers, upcoming and unreserved, one available row per label and as many tokens as capacity, each of which an ignored error leaves out |
| Services.AdminService.CancelEvent | internal/service/admin/admin.go:89-103 | an unknown event is refused; else the event ends cancelled by the repository's transaction and nothing else happens |
| Replies.CreateRefuses | internal/service/bookings/bookings.go:49-70 | 404 exactly for an unknown event, 400 exactly for one that is over or for too many tickets; no token, booking or place is taken |
| Replies.CreateAccepts | internal/service/bookings/bookings.go:71-105 | accepted with 200 exactly for a key in use, with that booking and its status; with 202 exactly when tokens cover the request and the insert is accepted, with the new pending booking and a token taken per seat |
| Replies.CreateWaitlists | internal/service/bookings/bookings.go:107-113 | a place exactly when tokens do not cover the request and the waitlist takes the user; the position told is that of the new row, the first beyond everybody who waits |
| Replies.JoinWaitlists | internal/store/waitlist/waitlist.go:31-56 | the same for joining alone, with 500 and no change otherwise |
| Replies.CreateFails | internal/service/bookings/bookings.go:79-105 | 500 leaves everything as it was, but for tokens that were reserved by then |
| Replies.ToldNoLessThanRank | internal/service/bookings/bookings.go:107-113 | in every sequential run who is told a position is last in the queue, and no deeper in it than told |
| Replies.CancelReplies | internal/service/bookings/bookings.go:118-188 | the caller is refused exactly when the transaction finds or does nothing or a lookup of a booking fails |
| Replies.CancelDoes | internal/service/bookings/bookings.go:118-188 | row by row what a cancellation leaves: the booking cancelled, and of a booked one the seats free, a token back per seat and the head of the waitlist booked for its seats |
| Replies.PayReplies | internal/service/payment/payment.go:50-124 | every reply of a payment with exactly the case in which it is given |
| Replies.PayDoes | internal/service/payment/payment.go:60-117 | a payment that is due is charged once for its amount, and unless an update fails its booking is booked and paid with its seats taken; any other changes nothing |
| Replies.RefundReplies | internal/service/payment/payment.go:126-178 | every reply of a refund, which sends the amount paid less the fee, or nothing if the fee is larger, exactly for a paid booking |
| Replies.EventRefundReplies | internal/service/payment/payment.go:180-213 | the replies of an event refund, which changes nothing unless it is done |
| Replies.TimeoutDoes | internal/service/worker/finalize.go:102-192 | whatever the tables hold: when a timeout reports success, and the one booking it cancels and the one it could insert |
| Replies.TimeoutReports | internal/service/worker/finalize.go:102-192 | where the foreign keys hold it reports success exactly when its booking was not pending, or was cancelled and nobody waited |
| ProtocolInvariant.StepKeepsInv | internal/service/bookings/bookings.go:79-136 | every step of every client keeps the ledger, the meaning of `reserved` and what the clients rely on |
| ProtocolInvariant.ReachableIsInv | internal/service/bookings/bookings.go:49-188 | the invariant holds in every state that a run of any length and order reaches |
| Conservation.Conserved | internal/service/bookings/bookings.go:79-173 | in every interleaving tokens + live seats + in flight + lost = capacity + promoted seats + seats of label-less requests + tokens the reconciler gave (less those it took) |
| Conservation.NothingIsNegative | internal/redis/tokens.go:10-19 | no counter, and no other term of the law, is ever negative |
| Conservation.NoOverselling | internal/redis/tokens.go:10-19 | live seats exceed the capacity by promoted seats, seats of label-less requests and tokens given at most |
| Conservation.PlainLawIff | internal/service/bookings/bookings.go:79-173 | where the reconciler gave nothing, tokens, live, in flight and lost make up the capacity exactly when no seat is promoted or label-less |
| Conservation.NoOversellingOfRequests | internal/service/bookings/bookings.go:79-105 | if every request for the event lists a seat, its live seats exceed the capacity by promoted seats and tokens given at most |
| Conservation.NothingGiven | cmd/reconcile/main.go:83-94 | tokens are given by the reconciler only: in runs without it the term is zero |
| Conservation.OrdinaryRunCommitsNoMore | internal/service/bookings/bookings.go:79-173 | from any state of the invariant, runs that promote nobody for the event, list seats and give it no tokens never raise tokens + live seats + in flight |
| Conservation.ReservedCountsBookings | internal/store/bookings/bookings.go:259-347 | in every interleaving `reserved` is the number of booked bookings plus stale finalizations plus booked bookings hit by an admin cancellation |
| Conservation.BookingLife | internal/store/bookings/bookings.go:246-313 | whatever runs on, a booking keeps its event, user, key and listed seats, and what is lost of it stays lost |
| Conservation.StatusIsMonotone | internal/store/bookings/bookings.go:246-313 | pending, booked, cancelled in this order only, and cancelled for good |
| Conservation.ReportedAtMostOnce | internal/service/bookings/bookings.go:119-136 | a booking is reported booked by at most one cancellation and its tokens are released at most once |
| Conservation.BookingBirth | internal/service/bookings/bookings.go:87-162 | bookings enter pending, from a request that took that many tokens or from a cancellation's promotion that took none, and from nothing else |
| Conservation.OwedMeansReleasing | internal/service/bookings/bookings.go:119-136 | tokens count as on their way back exactly while a cancellation stands before its release |
| Conservation.LostOnlyGrows | internal/service/bookings/bookings.go:86-90 | lost tokens never come back |
| Conservation.CrashOnlyLoses | internal/service/bookings/bookings.go:79-136 | a crash changes no store and only turns tokens in flight into lost ones |
| Conservation.TimedOutIsNeverPending | internal/service/worker/finalize.go:114-127 | past its check or its cancel, a timeout's booking is never pending again, whatever runs beside it |
| Conservation.TimeoutPromotesNobody | internal/service/worker/finalize.go:141-154 | no step of a timeout but its cancel changes any store |
| Effects.StepEffect | internal/service/bookings/bookings.go:49-188 | every step of every client makes the one table change of its store call, or none if the call fails, and moves that client alone, to a call that may follow |
| Effects.FailedCallChangesNothing | internal/service/bookings/bookings.go:49-188 | a store call that returns an error has changed no store, in any service |
| Effects.ErrorsEndCalls | internal/service/bookings/bookings.go:71-136 | an error ends its service call exactly where it is not ignored: a failed key lookup, release, refund or mark goes on to the next call |
| ServiceRuns.RequestIsInterleaving | internal/service/bookings/bookings.go:49-188 | a whole call, whatever fails in it, is what its client does when it runs alone |
| ServiceRuns.ServiceRunIsInterleaving | internal/service/payment/payment.go:50-213 | so every run of whole calls is an interleaving |
| SeatAgreement.StepKeepsSoundIff | internal/store/bookings/bookings.go:259-347 | in every state of the protocol's invariant, exactly the steps that keep every taken row of the event with a booked booking that lists its label: all but calling the event off over taken rows, and a finalization that finds its booking cancelled and marks a row |
| SeatAgreement.SoundThroughoutIff | internal/store/bookings/bookings.go:259-347 | an interleaving keeps the rows sound throughout exactly when each of its steps is one of these |
| SeatLedger.TakenRowsAreHeld | internal/store/bookings/bookings.go:259-347 | in every interleaving a taken row names a booking of its event that lists its label and is booked, or was finalized too late, or was called off while booked |
| SeatLedger.UntroubledSeatsAreSound | internal/store/bookings/bookings.go:259-347 | so without late finalizations and admin cancellations every step is such a step, and every taken row names a booked booking |
| SeatTokens.TokensCoverAvailableSeats | internal/store/events/events.go:334-357 | in every interleaving, admin cancellations included, unless a finalization came too late: tokens and tokens in flight are at most the available seats + promoted seats + seats of label-less requests + tokens given |
| SeatExactness.StepKeepsExactIff | internal/store/bookings/bookings.go:259-347 | in every state of the protocol's invariant, exactly the steps that keep a row booked by b if and only if b is booked and lists it: the sound ones whose new booking, if any, claims nothing that a live one claims |
| SeatExactness.ExactThroughoutIff | internal/store/bookings/bookings.go:259-347 | an interleaving keeps the table exact throughout exactly when each of its steps is one of these |
| SeatExactness.PoliteRunIsExact | internal/store/bookings/bookings.go:269-337 | in every interleaving that does not call the event off, where successful inserts ask for labels no live booking claims and successful finalizations find their booking pending, a row is booked by b exactly when b is booked and lists it |
| SeatExactness.AvailableAreUnbooked | internal/store/events/events.go:334-357 | at the end of every interleaving of exact steps, the polite ones among them, the available seats are the event's seats minus those of booked bookings |
| WholeCalls.TakenSeatsAreBooked | internal/store/bookings/bookings.go:277-336 | in sequential runs that do not call the event off, and whatever labels are requested, a booked seat row names a booked booking of its event that lists the label |
| WholeCalls.PoliteCallsAreExact | internal/store/bookings/bookings.go:269-337 | in sequential runs that do not call the event off it is enough that requests ask for labels no live booking claims, whatever is promoted, paid or timed out |
| WholeCalls.PoliteCallsLeaveUnbooked | internal/store/events/events.go:334-357 | and then the available seats are the event's seats minus those of booked bookings |
| WholeCalls.ServedIsKnown | cmd/migrate/migrations/000001_init.up.sql:114-115 | the foreign keys hold in every sequential run |
| WholeCalls.TimeoutOnlyCancels | internal/service/worker/finalize.go:102-192 | a timeout's whole effect is pending to cancelled |
| WholeCalls.ReservedIsExact | internal/store/bookings/bookings.go:259-347 | in sequential runs without admin cancellation `reserved` is the number of booked bookings |
| WholeCalls.SeatsFitCapacity | internal/service/admin/admin.go:49-83 | with distinct labels an event always has as many seat labels as capacity |
| WholeCalls.PlainRunsFitCapacity | internal/service/bookings/bookings.go:79-136 | sequential runs that promote nobody and list seats never sell more seats than the capacity, whatever fails or is called off in them |
| WholeCalls.TokensCoverSeats | internal/store/events/events.go:334-357 | in such runs tokens never exceed the available seats, although calling the event off leaves the seats of its booked bookings taken |
| WaitlistQueue.RunKeepsTable | internal/store/waitlist/waitlist.go:31-89 | active positions are positive, distinct and in join order after any operations |
| WaitlistQueue.TableRefinesFifo | internal/store/waitlist/waitlist.go:31-110 | joining appends, opting out filters, removal deletes, the next row is the head, and a newcomer's position is beyond the count |
| WaitlistQueue.PositionBoundsRank | internal/store/waitlist/waitlist.go:34-55 | a reported position never underestimates the place in the queue |
| JoinOrder.UnhurriedJoinsStayDistinct | internal/store/waitlist/waitlist.go:34-50 | in every interleaving in which no join for the event reads between another join's read and its insert, active positions are distinct, positive and in join order, and the next row is the head |
| Collisions.JoinsCollideIff | internal/store/waitlist/waitlist.go:34-50 | from any state, two joins of one event interleaved in any order get the same position exactly when at some point both have read and neither has inserted, else consecutive ones |
| Promotions.PromotionBooks | internal/service/bookings/bookings.go:153-173 | the promoted user gets a pending booking for the cancelled seats, no further token is taken and the entry leaves |
| Promotions.ServeWaitlist | internal/service/bookings/bookings.go:107-173 | every service call acts on the waitlist as one queue operation or none |
| Promotions.RunWaitlist | internal/service/bookings/bookings.go:107-173 | so the waitlist of every sequential run is the queue of its operations |
| Promotions.PromotionsFollowJoinOrder | internal/service/bookings/bookings.go:155-173 | in every sequential run, whatever fails, promotions follow the order of joining and overtake nobody who still waits |
| Promotions.PromotionsInOrder | internal/service/bookings/bookings.go:155-173 | in sequential runs whose removals do not fail each entry is promoted at most once |
| Promotions.NeverWaitsAgain | internal/store/waitlist/waitlist.go:58-89 | in sequential runs an entry that left the queue never returns |
| Promotions.NeverPromotedAgain | internal/service/bookings/bookings.go:155-173 | in sequential runs nobody is promoted after having been promoted, opted out or cleared |
| Promotions.PromotedLeavesUnlessRemovalFails | internal/service/bookings/bookings.go:173-173 | in sequential runs a promoted entry keeps waiting exactly when the ignored removal fails |
| PromotionOrder.PromotedOnceWhileWaiting | internal/service/bookings/bookings.go:153-173 | in every interleaving in which no cancellation looks up the event's next row between another's lookup and removal, nobody opts out or is called off between being looked up and inserted, and no removal of a waiting entry fails: each entry is promoted at most once, and while it waits |
| PromotionOrder.LeftForGood | internal/store/waitlist/waitlist.go:58-89 | in every interleaving an entry that left the queue never waits again |
| PromotionOrder.NeverPromotedAfterLeaving | internal/service/bookings/bookings.go:153-173 | so in those interleavings nobody is promoted after having left |
| PromotionOrder.OrderlyPromotionsFollowJoins | internal/service/bookings/bookings.go:153-173 | and where joins do not overlap either, promotions follow the order of joining and overtake nobody who still waits |
| Idempotency.KeysStayUnique | internal/service/bookings/bookings.go:71-104 | at most one booking carries a key across all events, as long as lookups succeed |
| Idempotency.AcceptedCarriesKey | internal/service/bookings/bookings.go:71-104 | an accepted call is answered with a booking that carries its key |
| Idempotency.UsedKeyIsFound | internal/service/bookings/bookings.go:71-76 | a used key answers with that booking or refuses, and changes no tokens, bookings or waitlist |
| Idempotency.RetryChangesNothing | internal/service/bookings/bookings.go:71-104 | the same after any calls in between, for any event and user of the retry |
| Idempotency.FailedLookupBooksAgain | cmd/migrate/migrations/000001_init.up.sql:124-124 | when the lookup fails, the constraint protects the key exactly for the same event |
| Collisions.OneKeyTwiceIff | internal/service/bookings/bookings.go:71-104 | from any state with a new key and tokens for both, two requests with one key interleaved in any order make two bookings exactly when both look it up before either inserts and their events differ; for one event both then take their tokens and only one inserts |
| Money.MoneyIsConserved | internal/service/payment/payment.go:60-171 | at most one charge and one refund per booking, each charge at least the price, and charged less refunded is what is still paid plus the fees kept |
| Money.ChargedAgainIff | internal/service/payment/payment.go:95-117 | whatever fails after the reads, a payable booking is charged, and paying again charges it again exactly when the mark or the finalization failed |
| Money.RefundedAgainIff | internal/service/payment/payment.go:150-175 | a paid booking is refunded, and asking again refunds it again exactly when the mark failed |
| DoubleCharge.BothChargeIff | internal/service/payment/payment.go:60-117 | two payments of one booking, of any amounts it accepts, their calls interleaved in any order: two charges exactly when at some point both are under way, else one |
| DoubleCharge.ChargesAreAcceptedReads | internal/service/payment/payment.go:60-95 | in every interleaving of any number of payments: the charges of a booking, plus the payments that stand or stopped between read and charge, are the reads that accepted it |
| DoubleCharge.LonePaymentsChargeOnce | internal/service/payment/payment.go:60-117 | a booking is charged at most once in every interleaving in which no read accepts it while another of its payments is under way or has stopped under way |
| DoubleCharge.BothRefundIff | internal/service/payment/payment.go:126-171 | two refunds of one paid booking, interleaved in any order, both pay out exactly when at some point both are under way |
| EventRefunds.ListedIfRecent | internal/store/bookings/bookings.go:142-149 | a booking is listed exactly when fewer than the limit are newer |
| EventRefunds.EventRefundIsExact | internal/service/payment/payment.go:180-213 | whatever updates fail, exactly the recent paid bookings get a refund of what they paid, those whose update went through are marked, and nothing else changes |
| EventRefunds.EventRefundsPaidAmounts | internal/service/payment/payment.go:197-209 | the sum refunded is the sum paid by the bookings refunded, whatever updates fail |
| EventRefunds.LeavesNonePaidIff | internal/service/payment/payment.go:182-182 | nobody stays paid exactly when every paid booking has fewer than 1000 newer ones in its event and its update does not fail |
| EventRefunds.SmallEventLeavesNonePaid | internal/service/payment/payment.go:180-213 | with at most 1000 bookings nobody stays paid but by a failed update |
| EventRefunds.OldestOfTooManyStaysPaid | internal/service/payment/payment.go:182-182 | of 1001 paid bookings the oldest stays paid, of 1000 none does |
| EventRefunds.EventRefundedAgainIff | internal/service/payment/payment.go:197-209 | a second refund of the event refunds a booking again exactly when the first one refunded it without marking it |
| EventRefunds.EventRefundIsIdempotentIff | internal/service/payment/payment.go:197-209 | refunding the event again changes nothing exactly when every listed booking was marked |
| Reconcile.Reconciler.Run | cmd/reconcile/main.go:29-98 | afterwards every event whose insert succeeded has a row, a new one with the capacity and count of its event, old rows are unchanged and every counter is where its row and the store errors put it; without errors that of a new row is at its capacity less its count, or at zero |
| Reconcile.Reconciler.InsertMissing | cmd/reconcile/main.go:46-65 | the first loop adds a row with the event's capacity and count for each missing one, and skips a failed insert |
| Reconcile.Reconciler.CorrectTokens | cmd/reconcile/main.go:75-98 | the second loop corrects every counter with a row, as far as its store calls succeed, and no other |
| Reconcile.Reconciler.CorrectOne | cmd/reconcile/main.go:83-97 | a shortfall is released at once, an excess reserved token by token down to zero; a failed read counts as zero, other failed calls have no effect |
| Reconcile.FaultlessIsReconciled | cmd/reconcile/main.go:75-98 | without store errors every counter ends exactly at its correction |
| Reconcile.FaultsFallShort | cmd/reconcile/main.go:83-94 | whatever else fails, a counter that is read ends between where it was and its correction |
| Reconcile.FaultsLeave | cmd/reconcile/main.go:83-94 | an excess falls by exactly the reservations that reach the counter, a shortfall is given in full or not at all, and an unread counter gets the whole desired number |
| Reconcile.FailedReadGivesEverything | cmd/reconcile/main.go:84-88 | a counter that cannot be read gets the whole desired number on top of what is there |
| Reconcile.CorrectedFromNonNegative | cmd/reconcile/main.go:83-94 | a counter that was not negative ends at the larger of zero and capacity less reserved |
| Reconcile.SecondRunChangesNothing | cmd/reconcile/main.go:29-98 | idempotence: a second run over the same events finds every row as it is and changes no counter |
| Reconcile.ReconcileIsSafeIff | cmd/reconcile/main.go:83-94 | from any reachable state a counter ends at the larger of zero and capacity less reserved; tokens, live seats and tokens in flight then fit the capacity exactly when the latter two are at most the row's count and at most the capacity |
| Reconcile.SafeReconcileStaysSafe | cmd/reconcile/main.go:83-94 | where the condition holds it lasts: after the correction, runs that promote nobody for the event, list seats and give it no tokens keep its live seats within the capacity |
| Reconcile.UnsafeReconcileOversells | cmd/reconcile/main.go:83-94 | where the row counts fewer than the live seats of an event on sale, requests for as many seats as there are tokens after the correction oversell it |
| Reconcile.CorrectionCorrects | cmd/reconcile/main.go:83-94 | the client of the protocol, running alone, corrects the counter as the loop does |
| Reconcile.ShortfallKeepsDrift | cmd/reconcile/main.go:84-88 | whatever runs between the read and the release, what it changed stays in the counter |
| RateLimit.Limiter.Allow | internal/middleware/ratelimit.go:25-42 | a known host is allowed exactly when its tokens and the refill since its last allowed call, up to the burst, make one; an unknown one when the burst does; the bucket after it, and other hosts unchanged |
| RateLimit.HostsAreIndependent | internal/middleware/ratelimit.go:18-31 | each host is served as if it were alone |
| RateLimit.BucketsStayWithinBurst | internal/middleware/ratelimit.go:32-40 | a bucket always holds between nothing and the burst |
| RateLimit.AccountBalances | internal/middleware/ratelimit.go:25-41 | the exact account: calls allowed + tokens left + refill cut off at the cap = tokens found + refill up to the last allowed call + refill handed out again to rejected calls |
| RateLimit.WindowAccount | internal/middleware/ratelimit.go:25-41 | the same between any two allowed calls of a host |
| RateLimit.LimiterBound | internal/middleware/ratelimit.go:25-41 | in every run, between two allowed calls of a host: allowed at most burst + rate times (time between + waits of the rejected calls) |
| RateLimit.WindowTextbookIff | internal/middleware/ratelimit.go:25-41 | between two allowed calls burst + rate times time is kept exactly when the refill of the rejected waits is at most what was missing at the start, left at the end or cut off |
| RateLimit.TextbookBoundIff | internal/middleware/ratelimit.go:18-41 | every run keeps burst + rate times time between any two allowed calls of a host exactly when the rate or the burst is zero |
| RateLimit.RejectionBeatsTheTextbookBound | internal/middleware/ratelimit.go:33-40 | at every rate and burst of at least one: after the burst at once, a rejected and an allowed call half a token later exceed burst + rate times time |
| SlidingWindow.Redis.Eval | internal/middleware/redis_ratelimit.go:29-49 | the script admits exactly when fewer than the limit of seconds are left in the window, and what it answers, stores and expires then; other keys are untouched |
| SlidingWindow.AlikeServesAlike | internal/middleware/redis_ratelimit.go:35-39 | an absent key and an empty set are indistinguishable to the script |
| SlidingWindow.ScriptRefinesHistory | internal/middleware/redis_ratelimit.go:29-49 | trimming and expiry never change an answer: the script behaves as one that remembers every admission |
| SlidingWindow.WindowBound | internal/middleware/redis_ratelimit.go:38-48 | for any window and limit, every interval of one window holds at most `limit` distinct admitted seconds |
| SlidingWindow.CallRejectedIff | internal/middleware/redis_ratelimit.go:51-55 | with the window and limit that the middleware passes, a call is rejected exactly when the burst is zero, or the rate is one and each of the last `burst` seconds already had an admission |
| SlidingWindow.LimitsNothingIff | internal/middleware/redis_ratelimit.go:51-55 | with a burst and a rate of at least one, every call of every run is admitted exactly when the rate is two or more |
| SlidingWindow.OneInstantAdmits | internal/middleware/redis_ratelimit.go:41-43 | a limit of two or more admits all of any number of calls of one instant |
| SlidingWindow.RequestsBoundedIff | internal/middleware/redis_ratelimit.go:41-43 | over all runs and intervals of one window of seconds, admitted calls keep within the limit exactly when the limit is at most one or the window is empty |
| SlidingWindow.RequestsBoundedInTimeIff | internal/middleware/redis_ratelimit.go:38-43 | the same over intervals of real time: exactly when the limit is zero or the window is empty |
| WorkerPool.PoolIsBounded | internal/worker/finalizer.go:31-62 | at most maxWorkers handlers, each fetched message in exactly one place, at most one more than maxWorkers unfinished |
| WorkerPool.StepDoesWork | internal/worker/finalizer.go:46-59 | every step but fetching does a step of the bounded work left |
| WorkerPool.WorkCanBeDone | internal/worker/finalizer.go:46-59 | no deadlock: while work is left some step is enabled |
| WorkerPool.EverythingDrains | internal/worker/finalizer.go:46-59 | with a worker, every fetched message ends up committed or dead-lettered: of those not handled yet, the ones whose handlers succeed are committed and the others dead-lettered |
| WorkerPool.OutcomeDecides | internal/worker/finalizer.go:50-57 | in every run exactly the messages whose handlers succeeded are committed, and exactly those whose handlers failed dead-lettered |
| WorkerPool.NothingFetchedAfterCancel | internal/worker/finalizer.go:35-43 | once the context is cancelled nothing more is fetched |
| WorkerPool.FetchedIff | internal/worker/finalizer.go:35-47 | a message is fetched exactly while the loop is not cancelled and has none waiting for a slot |
| WorkerPool.NoWorkersNoProgress | internal/worker/finalizer.go:32-47 | without workers the first message blocks the loop for good |
| Counterexamples.PromotionOversells | internal/service/bookings/bookings.go:136-162 | a run after which two live bookings have the only seat |
| Counterexamples.ReconcileResellsPendingSeats | cmd/reconcile/main.go:83-88 | a reconciliation after which a pending booking's seat is sold again |
| Counterexamples.EmptyRequestGetsASeat | internal/service/payment/payment.go:85-87 | at a sold-out event a request that lists no seat is sold one, and cancelling it returns a token it never took |
| Counterexamples.JoinsAtOnceCollide | internal/store/waitlist/waitlist.go:34-50 | from any state, two joins whose reads both precede their inserts get the same position |
| Counterexamples.LatePaymentTakesSeats | internal/store/bookings/bookings.go:309-345 | from any state, a cancellation between a payment's check and its finalization leaves the booking cancelled, charged, with its seats taken and counted |
| Counterexamples.LookupsAtOncePromoteTwice | internal/service/bookings/bookings.go:155-173 | from any state, two cancellations that both look up before either removes book the same waiting user twice |
| Counterexamples.OptOutIsIgnored | internal/service/bookings/bookings.go:155-173 | from any state, a user who opts out between a lookup and its insert is booked all the same |

## Left out

- HTTP handlers, routing, authentication, one-time passwords, users, mail, configuration, logging and metrics: plumbing around the calls modelled here.
- Kafka and Redis internals, and what committing an offset means to the broker: fetching and publishing are steps on a bag of messages.
- Retries and partial failures inside one store call: a failed call has changed nothing.
- Transactions below the serializable level: two transactions that read the same row before either writes are not modelled.
- JSON encoding of seat lists: a seat list is a sequence of labels, and only its fallback to one default seat is kept.
- NULL idempotency keys read back into a Go string, which make some row scans fail: loads succeed here.
- HandleBookingFinalization: although README.md:44 of the repository says the worker finalizes, it only reads, sends mail and starts the timer, so a timeout client may start for any booking at any time.
- The timeout bucket in Redis: no code ever stores "processed" in it, so its guard never skips a timeout.
- HoldSeats, BookSeats, UpdateSeatStatus, UpdateStatus and UpdateSeats of bookings: no service calls them.
- UpdateEvent, expiry of events, likes, listings and analytics: they change parameters that are fixed here, or only read.
- HybridRateLimit, RedisRateLimitByUser and failing open when Redis is down: the first chooses between the two limiters, the second repeats the script under another key.
- Services.AdminService.CreateEvent: the class models the ignored errors of the seat and token calls; in runs, events are opened by one step without them.
- Services.AdminService.CancelEvent: the notification of paid users, which changes no store, is left out.
- Services.PaymentService.ProcessBookingPayment: in the interleaved machine the reads of the booking and of its event are one step.
- Repositories.EventsRepository.GetAvailableSeats: labels come in table order; the query sorts them by the database's collation, which the repository does not fix.
- Repositories.WaitlistRepository.GetNextActive: among rows of equal position it takes the earliest inserted; the interleaved machine takes any of them.
- Repositories.WaitlistRepository.Add: one step in the class and in whole calls; two steps in the interleaved machine.
- Promotions.PromotionsInOrder: for sequential runs in which no removal fails; `PromotedLeavesUnlessRemovalFails` says what happens otherwise, `PromotionsFollowJoinOrder` gives the order without the condition, and `PromotionOrder.PromotedOnceWhileWaiting` is the law of every interleaving.
- Promotions.NeverPromotedAgain: for sequential runs; `PromotionOrder.NeverPromotedAfterLeaving` is the law of every interleaving.
- Reconcile.UnsafeReconcileOversells: counts live seats only, because an insert in flight may still be refused by a key or a missing user.
- SlidingWindow.WindowBound: at the middleware's own window and limit it says no more than that a window has as many seconds; `CallRejectedIff` is the law there.
- WorkerPool.EverythingDrains: assumes that every handler returns.
