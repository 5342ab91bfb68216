/** The services, as objects over the repositories; each call is proved to do what `ServiceCalls` says. */
module Services {
  import opened Collections
  import opened Model
  import opened Protocol
  import opened ServiceCalls
  import opened Repositories

  class BookingsService {
    const repo: BookingsRepository
    const events: EventsRepository
    const wait: WaitlistRepository
    const tokens: TokenBucket

    ghost predicate Valid() {
      repo.db == events.db == wait.db
    }

    constructor (repo: BookingsRepository, events: EventsRepository, wait: WaitlistRepository, tokens: TokenBucket)
      requires repo.db == events.db == wait.db
      ensures Valid() && this.repo == repo && this.tokens == tokens
    {
      this.repo, this.events, this.wait, this.tokens := repo, events, wait, tokens;
    }

    /** The part of the state this service can see. */
    function View(): Store
      reads repo.db, tokens
    {
      Store(repo.db.Snapshot(), tokens.counters, [], [])
    }

    method Create(
      failing: Failing, now: int, e: EventId, u: Uuid, key: Option<string>,
        seats: seq<Label>) returns (reply: CreateReply)
      requires Valid()
      modifies repo.db, tokens
      ensures (View(), reply) == CreateCall(old(View()), failing, now, e, u, key, seats)
    {
      if GetEvent in failing {
        return Refused(500);
      }
      var event := events.Get(e);
      if event.None? {
        return Refused(404);
      }
      if event.value.endTime < now {
        if ExpireEvent !in failing {
          var _ := events.UpdateStatus(e, Expired);
        }
        return Refused(400);
      }
      if |seats| > event.value.maxTickets {
        return Refused(400);
      }
      if key.Some? && key.value != "" && GetKey !in failing {
        var found := repo.GetByIdempotency(key.value);
        if found.Some? {
          var row := repo.GetByID(found.value);
          return Accepted(found.value, row.value.status, 200);
        }
      }
      reply := ReserveOrJoin(failing, e, u, key, seats);
    }

    method ReserveOrJoin(
      failing: Failing, e: EventId, u: Uuid, key: Option<string>, seats: seq<Label>) returns (reply: CreateReply)
      requires Valid()
      modifies repo.db, tokens
      ensures (View(), reply) == ReserveAndInsert(old(View()), failing, e, u, key, seats)
    {
      if Reserve in failing {
        return Refused(500);
      }
      var ok := tokens.Reserve(e, |seats|);
      if ok {
        if InsertBooking in failing {
          return Refused(500);
        }
        var id := repo.CreatePending(u, e, key, seats);
        if id.None? {
          return Refused(500);
        }
        return Accepted(id.value, Pending, 202);
      }
      reply := Join(failing, e, u);
    }

    /** The automatic waitlist fallback. */
    method Join(failing: Failing, e: EventId, u: Uuid) returns (reply: CreateReply)
      requires Valid()
      modifies repo.db
      ensures (View(), reply) == JoinCall(old(View()), failing, e, u)
    {
      if MaxActive in failing || InsertWaiting in failing {
        return Refused(500);
      }
      var position := wait.Add(e, u);
      reply := if position.Some? then Waitlisted(position.value) else Refused(500);
    }

    method Cancel(failing: Failing, b: BookingId) returns (reply: CancelReply)
      requires Valid()
      modifies repo.db, tokens
      ensures (View(), reply) == CancelCall(old(View()), failing, b)
    {
      if CancelBooking in failing {
        return CancelRefused;
      }
      var row, wasBooked := repo.CancelBookingTx(b);
      if row.None? {
        return CancelRefused;
      }
      if !wasBooked {
        return CancelReply.CancelDone;
      }
      if Release !in failing {
        tokens.Release(row.value.event, SeatCount(row.value.seats));
      }
      if LookupAfterRelease in failing {
        return CancelRefused;
      }
      reply := PromoteNext(failing, row.value.event, row.value.seats);
    }

    method PromoteNext(failing: Failing, e: EventId, seats: seq<Label>) returns (reply: CancelReply)
      requires Valid()
      modifies repo.db
      ensures (View(), reply) == Promote(old(View()), failing, e, seats)
    {
      if FindNext in failing {
        return CancelReply.CancelDone;
      }
      var next := wait.GetNextActive(e);
      if next.None? || InsertPromoted in failing {
        return CancelReply.CancelDone;
      }
      var id := repo.CreatePending(next.value.user, e, None, seats);
      if id.None? {
        return CancelReply.CancelDone;
      }
      if RemoveWaiting !in failing {
        var _ := wait.Remove(next.value.id);
      }
      reply := if LookupPromoted in failing then CancelRefused else CancelReply.CancelDone;
    }
  }

  /** The payment provider, which keeps what it was asked to do. */
  class Provider {
    var charges: seq<Charge>
    var refunds: seq<Refund>

    constructor ()
      ensures charges == [] && refunds == []
    {
      charges, refunds := [], [];
    }

    method ProcessPayment(charge: Charge) returns (success: bool)
      modifies this
      ensures success && charges == old(charges) + [charge] && refunds == old(refunds)
    {
      charges := charges + [charge];
      success := true;
    }

    method ProcessRefund(refund: Refund) returns (success: bool)
      modifies this
      ensures success && refunds == old(refunds) + [refund] && charges == old(charges)
    {
      refunds := refunds + [refund];
      success := true;
    }
  }

  lemma PaidAmongNext(listed: seq<Booking>, ids: seq<BookingId>, i: nat)
    requires i < |ids| && forall j :: 0 <= j < |ids| ==> ids[j] < |listed|
    ensures var row, todo, rest := listed[ids[i]], PaidAmong(listed, ids[i..]), PaidAmong(listed, ids[i + 1..]);
            if row.payment == Paid then todo != [] && todo[0] == (ids[i], row.amountPaid) && todo[1..] == rest
            else todo == rest
  {
    assert ids[i..][0] == ids[i] && ids[i..][1..] == ids[i + 1..];
  }

  class PaymentService {
    const repo: BookingsRepository
    const events: EventsRepository
    const provider: Provider

    ghost predicate Valid() {
      repo.db == events.db
    }

    constructor (repo: BookingsRepository, events: EventsRepository, provider: Provider)
      requires repo.db == events.db
      ensures Valid() && this.repo == repo && this.provider == provider
    {
      this.repo, this.events, this.provider := repo, events, provider;
    }

    function View(): Store
      reads repo.db, provider
    {
      Store(repo.db.Snapshot(), map[], provider.charges, provider.refunds)
    }

    method ProcessBookingPayment(failing: Failing, b: BookingId, amount: int) returns (reply: PayReply)
      requires Valid()
      modifies repo.db, provider
      ensures (View(), reply) == PayCall(old(View()), failing, b, amount)
    {
      if GetBooking in failing {
        return PayFailed;
      }
      var booking := repo.GetByID(b);
      if booking.None? {
        return BookingNotFound;
      }
      var row := booking.value;
      if row.status != Pending {
        return if row.status == Booked then AlreadyPaid else NotPending;
      }
      if GetEvent in failing {
        return PayFailed;
      }
      var event := events.Get(row.event);
      if event.None? {
        return EventNotFound;
      }
      var seats := Effective(row.seats);
      if amount < event.value.price * |seats| {
        return InvalidAmount;
      }
      var _ := provider.ProcessPayment(Charge(b, row.event, amount));
      if MarkPaid in failing {
        return PayFailed;
      }
      var _ := repo.UpdatePaymentStatus(b, Paid, amount);
      if Finalize in failing {
        return PayFailed;
      }
      var _ := repo.FinalizeBooking(b, seats, amount);
      reply := PayDone;
    }

    method ProcessCancellationRefund(failing: Failing, b: BookingId) returns (reply: PayReply)
      requires Valid()
      modifies repo.db, provider
      ensures (View(), reply) == RefundCall(old(View()), failing, b)
    {
      if GetBooking in failing {
        return PayFailed;
      }
      var booking := repo.GetByID(b);
      if booking.None? {
        return BookingNotFound;
      }
      var row := booking.value;
      if row.payment != Paid {
        return NotPaid;
      }
      if GetEvent in failing {
        return PayFailed;
      }
      var event := events.Get(row.event);
      if event.None? {
        return EventNotFound;
      }
      var refund := row.amountPaid - event.value.fee;
      if refund < 0 {
        refund := 0;
      }
      var _ := provider.ProcessRefund(Refund(b, row.event, refund, row.amountPaid, Individual));
      if MarkRefunded in failing {
        return PayFailed;
      }
      var _ := repo.UpdatePaymentStatus(b, Refunded, refund);
      reply := PayDone;
    }

    /** Walks over the bookings as they were listed and refunds those that were paid then. */
    method ProcessEventCancellationRefund(
      failing: Failing, unmarked: set<BookingId>, e: EventId) returns (reply: PayReply)
      requires Valid()
      modifies repo.db, provider
      ensures (View(), reply) == EventRefundCall(old(View()), failing, unmarked, e)
    {
      if ListBookings in failing {
        return PayFailed;
      }
      var ids := repo.ListOfEvent(e, LIST_LIMIT);
      var listed := repo.db.bookings;
      if GetEvent in failing {
        return PayFailed;
      }
      var event := events.Get(e);
      if event.None? {
        return EventNotFound;
      }
      assert ids[0..] == ids;
      for i := 0 to |ids|
        invariant |repo.db.bookings| == |listed|
        invariant RefundEach(View(), unmarked, e, PaidAmong(listed, ids[i..]))
                  == RefundEach(old(View()), unmarked, e, PaidAmong(listed, ids))
      {
        var b := ids[i];
        var row := listed[b];
        ghost var before := View();
        PaidAmongNext(listed, ids, i);
        if row.payment == Paid {
          var _ := provider.ProcessRefund(Refund(b, e, row.amountPaid, row.amountPaid, WholeEvent));
          if b !in unmarked {
            var _ := repo.UpdatePaymentStatus(b, Refunded, row.amountPaid);
          }
          assert View() == RefundedFirst(before, unmarked, e, PaidAmong(listed, ids[i..]));
        }
      }
      assert ids[|ids|..] == [];
      reply := PayDone;
    }
  }

  class FinalizeService {
    const repo: BookingsRepository
    const events: EventsRepository
    const wait: WaitlistRepository

    ghost predicate Valid() {
      repo.db == events.db == wait.db
    }

    constructor (repo: BookingsRepository, events: EventsRepository, wait: WaitlistRepository)
      requires repo.db == events.db == wait.db
      ensures Valid() && this.repo == repo
    {
      this.repo, this.events, this.wait := repo, events, wait;
    }

    function View(): Store
      reads repo.db
    {
      Store(repo.db.Snapshot(), map[], [], [])
    }

    method HandleBookingTimeout(failing: Failing, b: BookingId, e: EventId, seats: seq<Label>) returns (ok: bool)
      requires Valid()
      modifies repo.db
      ensures (View(), ok) == TimeoutCall(old(View()), failing, b, e, seats)
    {
      if GetBooking in failing {
        return false;
      }
      var booking := repo.GetByID(b);
      if booking.None? {
        return false;
      }
      if booking.value.status != Pending {
        return true;
      }
      if CancelBooking in failing {
        return false;
      }
      var _, _ := repo.CancelBookingTx(b);
      if GetEvent in failing {
        return false;
      }
      var event := events.Get(e);
      if event.None? || FindNext in failing {
        return false;
      }
      var next := wait.GetNextActive(e);
      if next.None? {
        return true;
      }
      if InsertPromoted in failing {
        return false;
      }
      // the entry's id is used as the user's id
      var id := repo.CreatePending(next.value.id, e, None, seats);
      ok := id.Some? && LookupPromoted !in failing;
    }
  }

  /** The calls of an event's creation that may fail. */
  datatype OpenCall = InsertEvent | InsertSeats | SetTokens

  class AdminService {
    const events: EventsRepository
    const seats: SeatsRepository
    const admin: AdminRepository
    const tokens: TokenBucket

    ghost predicate Valid() {
      events.db == seats.db == admin.db
    }

    constructor (events: EventsRepository, seats: SeatsRepository, admin: AdminRepository, tokens: TokenBucket)
      requires events.db == seats.db == admin.db
      ensures Valid() && this.events == events && this.tokens == tokens
    {
      this.events, this.seats, this.admin, this.tokens := events, seats, admin, tokens;
    }

    function View(): Store
      reads events.db, tokens
    {
      Store(events.db.Snapshot(), tokens.counters, [], [])
    }

    /**
     Creates the event under a fresh id, then its seats, then its tokens; refuses a seat list of the wrong size. Once
     the event exists, a failure of the other two is ignored.
     */
    method CreateEvent(failing: set<OpenCall>, e: EventId, capacity: int, labels: seq<Label>,
                       price: int, fee: int, maxTickets: int, endTime: int)
      returns (ok: bool)
      requires Valid() && e !in events.db.events
      modifies events.db, tokens
      ensures ok <==> |labels| == capacity && InsertEvent !in failing
      ensures !ok ==> View() == old(View())
      ensures ok ==>
                var open := OpenEventStore(old(View()), e, labels, price, fee, maxTickets, endTime);
                View() == open.(db := if InsertSeats in failing then open.db.(seats := old(View()).db.seats)
                  else open.db,
                                tokens := if SetTokens in failing then old(View()).tokens else open.tokens)
      ensures ok ==>
                && e in events.db.events
                && var event := events.db.events[e];
                   && event.capacity == capacity && event.reserved == 0 && event.status == Upcoming
                   && event.price == price && event.fee == fee
                   && event.maxTickets == maxTickets && event.endTime == endTime
      ensures ok ==> events.db.events - {e} == old(events.db.events) && events.db.bookings == old(events.db.bookings)
      ensures ok && InsertSeats !in failing ==>
                && |events.db.seats| == old(|events.db.seats|) + capacity && old(events.db.seats) <= events.db.seats
                && forall i :: 0 <= i < capacity ==>
                     events.db.seats[old(|events.db.seats|) + i] == Seat(e, labels[i], Available, None)
      ensures ok && SetTokens !in failing ==> tokens.counters == old(tokens.counters)[e := capacity]
    {
      if |labels| != capacity || InsertEvent in failing {
        return false;
      }
      var db := events.db;
      db.events := db.events[e := Event(capacity, 0, price, fee, maxTickets, endTime, Upcoming)];
      if InsertSeats !in failing {
        seats.CreateSeats(e, labels);
      }
      if SetTokens !in failing {
        tokens.InitTokens(e, capacity);
      }
      ok := true;
    }

    /** Refuses an unknown event. */
    method CancelEvent(e: EventId) returns (ok: bool)
      requires Valid()
      modifies events.db
      ensures ok <==> e in old(events.db.events)
      ensures View() == if ok then CallOffCall(old(View()), e) else old(View())
      ensures StatusOf(old(events.db.events), events.db.events, e, CalledOff)
    {
      var event := events.Get(e);
      if event.None? {
        return false;
      }
      admin.CancelEvent(e);
      ok := true;
    }
  }
}
