/**
 Whole service calls, run without interference: each function gives the state a call leaves and its reply.
 `failing` names the store calls that return an error during the service call; those change nothing.
 */
module ServiceCalls {
  import opened Collections
  import opened Model
  import opened StoreCalls
  import opened Protocol

  datatype Call =
    | GetEvent | ExpireEvent | GetKey | Reserve | InsertBooking | MaxActive | InsertWaiting
    | CancelBooking | Release | LookupAfterRelease | FindNext | InsertPromoted | RemoveWaiting | LookupPromoted
    | GetBooking | MarkPaid | Finalize | MarkRefunded | ListBookings

  type Failing = set<Call>

  // ----- Create -----

  datatype CreateReply =
    | Refused(code: int)
    | Accepted(id: BookingId, status: BookingStatus, code: int)
    | Waitlisted(position: int)

  function JoinCall(s: Store, failing: Failing, e: EventId, u: Uuid): (Store, CreateReply) {
    if MaxActive in failing then (s, Refused(500))
    else
      var position := NextPosition(s.db.waitlist, e);
      var inserted := InsertEntry(s.db, e, u, position);
      if InsertWaiting in failing || inserted.None? then (s, Refused(500))
      else (s.(db := inserted.value), Waitlisted(position))
  }

  function ReserveAndInsert(
    s: Store, failing: Failing, e: EventId, u: Uuid, key: Option<string>, seats: seq<Label>): (Store, CreateReply) {
    if Reserve in failing then (s, Refused(500))
    else
      var (got, tokens) := ReserveTokens(s.tokens, e, |seats|);
      if !got then JoinCall(s, failing, e, u)
      else
        var s' := s.(tokens := tokens);
        var inserted := InsertPending(s.db, u, e, key, seats);
        if InsertBooking in failing || inserted.None? then (s', Refused(500))
        else (s'.(db := inserted.value), Accepted(|s.db.bookings|, Pending, 202))
  }

  function CreateCall(
    s: Store, failing: Failing, now: int, e: EventId, u: Uuid, key: Option<string>, seats: seq<Label>): (Store,
      CreateReply) {
    if GetEvent in failing then (s, Refused(500))
    else if e !in s.db.events then (s, Refused(404))
    else if s.db.events[e].endTime < now then
      (if ExpireEvent in failing then s else s.(db := SetEventStatus(s.db, e, Expired)), Refused(400))
    else if |seats| > s.db.events[e].maxTickets then (s, Refused(400))
    else
      var found := if NeedsKeyCheck(key) && GetKey !in failing then FindKey(s.db.bookings, key.value) else None;
      if found.Some? then (s, Accepted(found.value, s.db.bookings[found.value].status, 200))
      else ReserveAndInsert(s, failing, e, u, key, seats)
  }

  // ----- Cancel -----

  datatype CancelReply = CancelRefused | CancelDone

  /** Moves the head of the event's waitlist into a pending booking for the same seats. */
  function Promote(s: Store, failing: Failing, e: EventId, seats: seq<Label>): (Store, CancelReply) {
    var next := if FindNext in failing then None else NextActive(s.db.waitlist, e);
    if next.None? then (s, CancelDone)
    else
      var inserted := InsertPending(s.db, next.value.user, e, None, seats);
      if InsertPromoted in failing || inserted.None? then (s, CancelDone)
      else
        var db := inserted.value;
        (s.(db := if RemoveWaiting in failing then db else RemoveEntry(db, next.value.id)),
         if LookupPromoted in failing then CancelRefused else CancelDone)
  }

  function CancelCall(s: Store, failing: Failing, b: BookingId): (Store, CancelReply) {
    var cancelled := if CancelBooking in failing then None else CancelTx(s.db, b);
    if cancelled.None? then (s, CancelRefused)
    else
      var (db, wasBooked) := cancelled.value;
      var row := s.db.bookings[b];
      var s' := s.(db := db);
      if !wasBooked then (s', CancelDone)
      else
        var s'' := if Release in failing then s'
                   else s'.(tokens := ReleaseTokens(s.tokens, row.event, SeatCount(row.seats)));
        if LookupAfterRelease in failing then (s'', CancelRefused)
        else Promote(s'', failing, row.event, row.seats)
  }

  // ----- Payments -----

  datatype PayReply =
    | PayFailed | BookingNotFound | AlreadyPaid | NotPending | EventNotFound | InvalidAmount | NotPaid | PayDone

  function PayCall(s: Store, failing: Failing, b: BookingId, amount: int): (Store, PayReply) {
    if GetBooking in failing then (s, PayFailed)
    else if b >= |s.db.bookings| then (s, BookingNotFound)
    else
      var row := s.db.bookings[b];
      if row.status != Pending then (s, if row.status == Booked then AlreadyPaid else NotPending)
      else if GetEvent in failing then (s, PayFailed)
      else if row.event !in s.db.events then (s, EventNotFound)
      else if amount < s.db.events[row.event].price * SeatCount(row.seats) then (s, InvalidAmount)
      else
        var charged := s.(charges := s.charges + [Charge(b, row.event, amount)]);
        if MarkPaid in failing then (charged, PayFailed)
        else
          var marked := SetPayment(s.db, b, Paid, amount).value;
          if Finalize in failing then (charged.(db := marked), PayFailed)
          else (charged.(db := FinalizeTx(marked, b, Effective(row.seats), amount).value), PayDone)
  }

  function RefundCall(s: Store, failing: Failing, b: BookingId): (Store, PayReply) {
    if GetBooking in failing then (s, PayFailed)
    else if b >= |s.db.bookings| then (s, BookingNotFound)
    else
      var row := s.db.bookings[b];
      if row.payment != Paid then (s, NotPaid)
      else if GetEvent in failing then (s, PayFailed)
      else if row.event !in s.db.events then (s, EventNotFound)
      else
        var refund := IndividualRefund(row.amountPaid, s.db.events[row.event].fee);
        var refunded := s.(refunds := s.refunds + [Refund(b, row.event, refund, row.amountPaid, Individual)]);
        if MarkRefunded in failing then (refunded, PayFailed)
        else (refunded.(db := SetPayment(s.db, b, Refunded, refund).value), PayDone)
  }

  /** The provider call and the update of the first listed booking; a failed update is only logged. */
  function RefundedFirst(s: Store, unmarked: set<BookingId>, e: EventId, todo: seq<(BookingId, int)>): Store
    requires todo != []
  {
    var (b, paid) := todo[0];
    var refunded := s.(refunds := s.refunds + [Refund(b, e, paid, paid, WholeEvent)]);
    var marked := SetPayment(s.db, b, Refunded, paid);
    if b in unmarked || marked.None? then refunded else refunded.(db := marked.value)
  }

  /** Refunds each listed booking in full. */
  function RefundEach(s: Store, unmarked: set<BookingId>, e: EventId, todo: seq<(BookingId, int)>): Store
    decreases |todo|
  {
    if todo == [] then s else RefundEach(RefundedFirst(s, unmarked, e, todo), unmarked, e, todo[1..])
  }

  function EventRefundCall(s: Store, failing: Failing, unmarked: set<BookingId>, e: EventId): (Store, PayReply) {
    if ListBookings in failing || GetEvent in failing then (s, PayFailed)
    else if e !in s.db.events then (s, EventNotFound)
    else
      (RefundEach(s, unmarked, e, PaidAmong(s.db.bookings, ListByEvent(s.db.bookings, e, LIST_LIMIT))), PayDone)
  }

  // ----- Timeouts -----

  /** The handler of a payment timeout; the flag says whether it returned without error. */
  function TimeoutCall(s: Store, failing: Failing, b: BookingId, e: EventId, seats: seq<Label>): (Store, bool) {
    if GetBooking in failing || b >= |s.db.bookings| then (s, false)
    else if s.db.bookings[b].status != Pending then (s, true)
    else if CancelBooking in failing then (s, false)
    else
      var s' := s.(db := CancelTx(s.db, b).value.0);
      if GetEvent in failing || e !in s.db.events || FindNext in failing then (s', false)
      else
        var next := NextActive(s'.db.waitlist, e);
        if next.None? then (s', true)
        else
          // the entry's id takes the place of the user's id
          var inserted := InsertPending(s'.db, next.value.id, e, None, seats);
          if InsertPromoted in failing || inserted.None? then (s', false)
          else (s'.(db := inserted.value), LookupPromoted !in failing)
  }

  // ----- Waitlist and administration -----

  function OptOutCall(s: Store, e: EventId, u: Uuid): Store {
    s.(db := s.db.(waitlist := OptOutRows(s.db.waitlist, e, Some(u))))
  }

  function CallOffCall(s: Store, e: EventId): Store {
    s.(db := CallOffEvent(s.db, e))
  }
}
