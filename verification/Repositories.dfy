/** The repositories, as objects that update shared tables and counters in place. */
module Repositories {
  import opened Collections
  import opened Model
  import opened StoreCalls
  import opened WaitlistQueue

  /** The Postgres tables. */
  class Database {
    var users: set<Uuid>
    var events: map<EventId, Event>
    var bookings: seq<Booking>
    var seats: seq<Seat>
    var waitlist: seq<Entry>
    var entriesMade: nat

    constructor (users: set<Uuid>)
      ensures Snapshot() == Tables(users, map[], [], [], [], 0)
    {
      this.users := users;
      events, bookings, seats, waitlist, entriesMade := map[], [], [], [], 0;
    }

    function Snapshot(): Tables
      reads this
    {
      Tables(users, events, bookings, seats, waitlist, entriesMade)
    }
  }

  /** The token counters kept in Redis. */
  class TokenBucket {
    var counters: map<EventId, int>

    constructor ()
      ensures counters == map[]
    {
      counters := map[];
    }

    method InitTokens(e: EventId, capacity: int)
      modifies this
      ensures forall n: nat :: ReserveTokens(counters, e, n).0 <==> n <= capacity
      ensures counters == old(counters)[e := capacity]
    {
      counters := counters[e := capacity];
    }

    /** One run of the script that checks and decrements. */
    method Reserve(e: EventId, n: nat) returns (ok: bool)
      modifies this
      ensures (ok, counters) == ReserveTokens(old(counters), e, n)
      ensures ok <==> old(Tokens(counters, e)) >= n
      ensures Tokens(counters, e) == old(Tokens(counters, e)) - (if ok then n else 0)
      ensures forall x :: x != e ==> Tokens(counters, x) == old(Tokens(counters, x))
    {
      var current := if e in counters then counters[e] else 0;
      ok := current >= n;
      if ok {
        counters := counters[e := current - n];
      }
    }

    method Release(e: EventId, n: int)
      modifies this
      ensures counters == ReleaseTokens(old(counters), e, n)
      ensures Tokens(counters, e) == old(Tokens(counters, e)) + n
      ensures forall x :: x != e ==> Tokens(counters, x) == old(Tokens(counters, x))
    {
      var current := if e in counters then counters[e] else 0;
      counters := counters[e := current + n];
    }

    /** The size of the largest request that the event's counter can serve. */
    method Remaining(e: EventId) returns (n: int)
      ensures n == Tokens(counters, e) && n == if e in counters then counters[e] else 0
      ensures forall k: nat :: ReserveTokens(counters, e, k).0 <==> k <= n
    {
      n := if e in counters then counters[e] else 0;
    }
  }

  /** Freeing one more label after others. */
  lemma FreeOneMore(seats: seq<Seat>, e: EventId, labels: seq<Label>, i: nat)
    requires i < |labels|
    ensures FreeSeats(FreeSeats(seats, e, labels[..i]), e, [labels[i]]) == FreeSeats(seats, e, labels[..i + 1])
  {
    assert labels[..i + 1] == labels[..i] + [labels[i]];
  }

  /** Taking one more label after others. */
  lemma TakeOneMore(seats: seq<Seat>, e: EventId, labels: seq<Label>, b: BookingId, i: nat)
    requires i < |labels|
    ensures TakeSeats(TakeSeats(seats, e, labels[..i], b), e, [labels[i]], b) == TakeSeats(seats, e, labels[..i + 1], b)
  {
    assert labels[..i + 1] == labels[..i] + [labels[i]];
  }

  /** At most one event's count of reservations has moved, by `delta`; nothing else about any event has changed. */
  predicate CountedOn(before: map<EventId, Event>, after: map<EventId, Event>, e: Option<EventId>, delta: int) {
    && after.Keys == before.Keys
    && forall x :: x in before ==>
         var b := before[x];
         after[x] == Event(b.capacity, if e == Some(x) then b.reserved + delta else b.reserved,
                           b.price, b.fee, b.maxTickets, b.endTime, b.status)
  }

  /** At most one event's status has changed, to `status`; nothing else about any event has changed. */
  predicate StatusOf(before: map<EventId, Event>, after: map<EventId, Event>, e: EventId, status: EventStatus) {
    && after.Keys == before.Keys
    && forall x :: x in before ==>
         var b := before[x];
         after[x] == Event(b.capacity, b.reserved, b.price, b.fee, b.maxTickets, b.endTime,
                           if x == e then status else b.status)
  }

  class BookingsRepository {
    const db: Database

    constructor (db: Database)
      ensures this.db == db
    {
      this.db := db;
    }

    /** Inserts a pending booking; `None` when a foreign key or the unique key refuses it. */
    method CreatePending(u: Uuid, e: EventId, key: Option<string>, seats: seq<Label>) returns (id: Option<BookingId>)
      modifies db
      ensures var inserted := InsertPending(old(db.Snapshot()), u, e, key, seats);
              && (id.Some? <==> inserted.Some?)
              && (id.Some? ==> id.value == old(|db.bookings|) && db.Snapshot() == inserted.value)
              && (id.None? ==> db.Snapshot() == old(db.Snapshot()))
      ensures id.None? <==>
              || u !in db.users || e !in db.events
              || (key.Some? && exists row :: row in old(db.bookings) && row.event == e && row.key == key)
      ensures id.Some? ==> db.bookings == old(db.bookings) + [Booking(u, e, Pending, seats, key, 0, Unpaid)]
      ensures db.Snapshot() == old(db.Snapshot()).(bookings := db.bookings)
    {
      if u !in db.users || e !in db.events || DuplicateKey(db.bookings, e, key) {
        return None;
      }
      id := Some(|db.bookings|);
      db.bookings := db.bookings + [Booking(u, e, Pending, seats, key, 0, Unpaid)];
    }

    method GetByID(b: BookingId) returns (row: Option<Booking>)
      ensures row == if b < |db.bookings| then Some(db.bookings[b]) else None
    {
      row := if b < |db.bookings| then Some(db.bookings[b]) else None;
    }

    method GetByIdempotency(key: string) returns (found: Option<BookingId>)
      ensures found == FindKey(db.bookings, key)
      ensures found.Some? ==> found.value < |db.bookings| && db.bookings[found.value].key == Some(key)
      ensures found.None? <==> forall i :: 0 <= i < |db.bookings| ==> db.bookings[i].key != Some(key)
    {
      found := FindKey(db.bookings, key);
    }

    /** Reads the event's bookings, newest first, up to the limit. */
    method ListOfEvent(e: EventId, limit: nat) returns (ids: seq<BookingId>)
      ensures ids == ListByEvent(db.bookings, e, limit)
    {
      ids := [];
      var n := |db.bookings|;
      assert db.bookings[..n] == db.bookings;
      while n > 0 && |ids| < limit
        invariant 0 <= n <= |db.bookings| && |ids| <= limit
        invariant ids + ListByEvent(db.bookings[..n], e, limit - |ids|) == ListByEvent(db.bookings, e, limit)
      {
        ghost var rest := ListByEvent(db.bookings[..n - 1], e, limit - |ids| - 1);
        assert db.bookings[..n][..n - 1] == db.bookings[..n - 1];
        n := n - 1;
        if db.bookings[n].event == e {
          assert ids + ([n] + rest) == (ids + [n]) + rest;
          ids := ids + [n];
        }
      }
      assert ids + [] == ids;
    }

    method UpdatePaymentStatus(b: BookingId, payment: PaymentStatus, amount: int) returns (ok: bool)
      modifies db
      ensures var updated := SetPayment(old(db.Snapshot()), b, payment, amount);
              && (ok <==> updated.Some?)
              && db.Snapshot() == if ok then updated.value else old(db.Snapshot())
      ensures ok <==> b < old(|db.bookings|)
      ensures |db.bookings| == old(|db.bookings|)
      ensures forall i :: 0 <= i < |db.bookings| ==>
                db.bookings[i] == if i == b then old(db.bookings[i]).(payment := payment, amountPaid := amount)
                                  else old(db.bookings[i])
      ensures db.Snapshot() == old(db.Snapshot()).(bookings := db.bookings)
    {
      ok := b < |db.bookings|;
      if ok {
        db.bookings := db.bookings[b := db.bookings[b].(payment := payment, amountPaid := amount)];
      }
    }

    /** The cancellation transaction, freeing the seats label by label. */
    method CancelBookingTx(b: BookingId) returns (row: Option<Booking>, wasBooked: bool)
      modifies db
      ensures var cancelled := CancelTx(old(db.Snapshot()), b);
              && (row.Some? <==> cancelled.Some?)
              && (row.Some? ==>
                    && row.value == old(db.bookings)[b]
                    && wasBooked == (row.value.status == Booked)
                    && (db.Snapshot(), wasBooked) == cancelled.value)
              && (row.None? ==> db.Snapshot() == old(db.Snapshot()))
      ensures row == if b < old(|db.bookings|) then Some(old(db.bookings)[b]) else None
      ensures wasBooked <==> row.Some? && row.value.status == Booked
      ensures |db.bookings| == old(|db.bookings|)
      ensures forall i :: 0 <= i < |db.bookings| ==>
                db.bookings[i] == if i == b then old(db.bookings[i]).(status := Cancelled) else old(db.bookings[i])
      ensures CountedOn(old(db.events), db.events, if wasBooked then Some(row.value.event) else None, -1)
      ensures |db.seats| == old(|db.seats|)
      ensures forall i :: 0 <= i < |db.seats| ==>
                var seat := old(db.seats[i]);
                db.seats[i] == if wasBooked && seat.event == row.value.event && seat.seatLabel in row.value.seats
                               then Seat(seat.event, seat.seatLabel, Available, None) else seat
      ensures db.Snapshot() == old(db.Snapshot()).(bookings := db.bookings, events := db.events, seats := db.seats)
    {
      if b >= |db.bookings| {
        return None, false;
      }
      var booking := db.bookings[b];
      wasBooked := booking.status == Booked;
      db.bookings := db.bookings[b := booking.(status := Cancelled)];
      if wasBooked {
        if booking.event in db.events {
          var event := db.events[booking.event];
          db.events := db.events[booking.event := event.(reserved := event.reserved - 1)];
        }
        assert FreeSeats(db.seats, booking.event, []) == db.seats;
        for i := 0 to |booking.seats|
          invariant db.seats == FreeSeats(old(db.seats), booking.event, booking.seats[..i])
          invariant db.bookings == old(db.bookings)[b := booking.(status := Cancelled)]
          invariant db.events == BumpReserved(old(db.events), booking.event, -1)
          invariant db.users == old(db.users) && db.waitlist == old(db.waitlist)
            && db.entriesMade == old(db.entriesMade)
        {
          FreeOneMore(old(db.seats), booking.event, booking.seats, i);
          db.seats := FreeSeats(db.seats, booking.event, [booking.seats[i]]);
        }
        assert booking.seats[..|booking.seats|] == booking.seats;
      }
      row := Some(booking);
    }

    /** The finalization transaction, taking the seats label by label. */
    method FinalizeBooking(b: BookingId, seats: seq<Label>, amount: int) returns (ok: bool)
      modifies db
      ensures var finalized := FinalizeTx(old(db.Snapshot()), b, seats, amount);
              && (ok <==> finalized.Some?)
              && db.Snapshot() == if ok then finalized.value else old(db.Snapshot())
      ensures ok <==> b < old(|db.bookings|)
      ensures |db.bookings| == old(|db.bookings|)
      ensures forall i :: 0 <= i < |db.bookings| ==>
                var row := old(db.bookings[i]);
                db.bookings[i] == if i == b && row.status == Pending
                                  then Booking(row.user, row.event, Booked, seats, row.key, amount, Paid) else row
      ensures CountedOn(old(db.events), db.events, if ok then Some(old(db.bookings)[b].event) else None, 1)
      ensures |db.seats| == old(|db.seats|)
      ensures forall i :: 0 <= i < |db.seats| ==>
                var seat := old(db.seats[i]);
                db.seats[i] == if ok && seat.event == old(db.bookings)[b].event && seat.seatLabel in seats
                               then Seat(seat.event, seat.seatLabel, Taken, Some(b)) else seat
      ensures db.Snapshot() == old(db.Snapshot()).(bookings := db.bookings, events := db.events, seats := db.seats)
    {
      if b >= |db.bookings| {
        return false;
      }
      var e := db.bookings[b].event;
      if db.bookings[b].status == Pending {
        db.bookings := db.bookings[b :=
          db.bookings[b].(status := Booked, seats := seats, amountPaid := amount, payment := Paid)];
      }
      ghost var bookings := db.bookings;
      assert TakeSeats(db.seats, e, [], b) == db.seats;
      for i := 0 to |seats|
        invariant db.seats == TakeSeats(old(db.seats), e, seats[..i], b)
        invariant db.bookings == bookings && db.events == old(db.events)
        invariant db.users == old(db.users) && db.waitlist == old(db.waitlist) && db.entriesMade == old(db.entriesMade)
      {
        TakeOneMore(old(db.seats), e, seats, b, i);
        db.seats := TakeSeats(db.seats, e, [seats[i]], b);
      }
      assert seats[..|seats|] == seats;
      db.events := BumpReserved(db.events, e, 1);
      ok := true;
    }
  }

  /** Exactly the labels of the event's available rows. */
  predicate OnlyAvailable(labels: seq<Label>, rows: seq<Seat>, e: EventId) {
    && (forall x :: x in labels ==>
          exists row :: row in rows && row.event == e && row.status == Available && row.seatLabel == x)
    && (forall row :: row in rows && row.event == e && row.status == Available ==> row.seatLabel in labels)
  }

  lemma AvailableMembers(rows: seq<Seat>, e: EventId)
    ensures OnlyAvailable(SeatLabels(Filter(rows, IsAvailable(e))), rows, e)
  {
    FilterMembers(rows, IsAvailable(e));
    var kept := Filter(rows, IsAvailable(e));
    hide Filter;
    forall row | row in kept
      ensures row.seatLabel in SeatLabels(kept)
    {
      var i :| 0 <= i < |kept| && kept[i] == row;
      assert SeatLabels(kept)[i] == row.seatLabel;
    }
    forall x | x in SeatLabels(kept)
      ensures exists row :: row in rows && row.event == e && row.status == Available && row.seatLabel == x
    {
      var i :| 0 <= i < |kept| && SeatLabels(kept)[i] == x;
      assert kept[i] in kept;
    }
  }

  class EventsRepository {
    const db: Database

    constructor (db: Database)
      ensures this.db == db
    {
      this.db := db;
    }

    method Get(e: EventId) returns (event: Option<Event>)
      ensures event == if e in db.events then Some(db.events[e]) else None
    {
      event := if e in db.events then Some(db.events[e]) else None;
    }

    method UpdateStatus(e: EventId, status: EventStatus) returns (ok: bool)
      modifies db
      ensures db.Snapshot() == SetEventStatus(old(db.Snapshot()), e, status)
      ensures ok <==> e in old(db.events)
      ensures StatusOf(old(db.events), db.events, e, status)
      ensures db.Snapshot() == old(db.Snapshot()).(events := db.events)
    {
      ok := e in db.events;
      if ok {
        db.events := db.events[e := db.events[e].(status := status)];
      }
    }

    /** Reads the labels of the event's available rows, in table order. */
    method GetAvailableSeats(e: EventId) returns (labels: seq<Label>)
      ensures labels == SeatLabels(Filter(db.seats, IsAvailable(e)))
      ensures OnlyAvailable(labels, db.seats, e)
    {
      hide OnlyAvailable;
      labels := [];
      var i := 0;
      assert db.seats[..0] == [];
      while i < |db.seats|
        invariant 0 <= i <= |db.seats|
        invariant labels == SeatLabels(Filter(db.seats[..i], IsAvailable(e)))
      {
        assert db.seats[..i + 1] == db.seats[..i] + [db.seats[i]];
        FilterAppend(db.seats[..i], db.seats[i], IsAvailable(e));
        if db.seats[i].event == e && db.seats[i].status == Available {
          labels := labels + [db.seats[i].seatLabel];
        }
        i := i + 1;
      }
      assert db.seats[..i] == db.seats;
      AvailableMembers(db.seats, e);
    }
  }

  class SeatsRepository {
    const db: Database

    constructor (db: Database)
      ensures this.db == db
    {
      this.db := db;
    }

    method CreateSeats(e: EventId, labels: seq<Label>)
      modifies db
      ensures db.Snapshot() == old(db.Snapshot()).(seats := old(db.seats) + FreshSeats(e, labels))
      ensures |db.seats| == old(|db.seats|) + |labels| && old(db.seats) <= db.seats
      ensures forall i :: 0 <= i < |labels| ==> db.seats[old(|db.seats|) + i] == Seat(e, labels[i], Available, None)
    {
      ghost var before := db.seats;
      for i := 0 to |labels|
        invariant db.Snapshot() == old(db.Snapshot()).(seats := before + FreshSeats(e, labels[..i]))
      {
        assert FreshSeats(e, labels[..i + 1]) == FreshSeats(e, labels[..i]) + [Seat(e, labels[i], Available, None)];
        db.seats := db.seats + [Seat(e, labels[i], Available, None)];
      }
      assert labels[..|labels|] == labels;
    }

    method ReleaseSeats(e: EventId, labels: seq<Label>)
      modifies db
      ensures db.Snapshot() == old(db.Snapshot()).(seats := FreeSeats(old(db.seats), e, labels))
      ensures |db.seats| == old(|db.seats|)
      ensures forall i :: 0 <= i < |db.seats| ==>
                var seat := old(db.seats[i]);
                db.seats[i] == if seat.event == e && seat.seatLabel in labels
                               then Seat(e, seat.seatLabel, Available, None) else seat
    {
      assert FreeSeats(db.seats, e, []) == db.seats;
      for i := 0 to |labels|
        invariant db.Snapshot() == old(db.Snapshot()).(seats := FreeSeats(old(db.seats), e, labels[..i]))
      {
        FreeOneMore(old(db.seats), e, labels, i);
        db.seats := FreeSeats(db.seats, e, [labels[i]]);
      }
      assert labels[..|labels|] == labels;
    }
  }

  class WaitlistRepository {
    const db: Database

    constructor (db: Database)
      ensures this.db == db
    {
      this.db := db;
    }

    /** The query for the next position and the insert, with nothing in between. */
    method Add(e: EventId, u: Uuid) returns (position: Option<int>)
      modifies db
      ensures var next := NextPosition(old(db.waitlist), e);
              var inserted := InsertEntry(old(db.Snapshot()), e, u, next);
              && (position.Some? <==> inserted.Some?)
              && (position.Some? ==> position.value == next && db.Snapshot() == inserted.value)
              && (position.None? ==> db.Snapshot() == old(db.Snapshot()))
      ensures position.Some? <==> u in db.users && e in db.events
      ensures position.Some? ==>
                && db.waitlist == old(db.waitlist)
                   + [Entry(WaitlistRow(old(db.entriesMade)), e, u, position.value, false)]
                && db.entriesMade == old(db.entriesMade) + 1
                && IsFirstBeyond(old(db.waitlist), e, position.value)
      ensures db.Snapshot() == old(db.Snapshot()).(waitlist := db.waitlist, entriesMade := db.entriesMade)
    {
      ghost var before := db.waitlist;
      var next := NextPosition(db.waitlist, e);
      if u !in db.users || e !in db.events {
        return None;
      }
      db.waitlist := db.waitlist + [Entry(WaitlistRow(db.entriesMade), e, u, next, false)];
      db.entriesMade := db.entriesMade + 1;
      position := Some(next);
      NextIsFirstBeyond(before, e);
    }

    /** The row is in no queue any more, and every queue keeps the order of the others. */
    method Remove(id: Uuid) returns (ok: bool)
      modifies db
      ensures db.Snapshot() == RemoveEntry(old(db.Snapshot()), id)
      ensures forall row :: row in db.waitlist <==> row in old(db.waitlist) && row.id != id
      ensures forall e: EventId :: Queue(db.waitlist, e) == Filter(old(Queue(db.waitlist, e)), NotEntry(id))
      ensures ok <==> exists row :: row in old(db.waitlist) && row.id == id
    {
      ghost var rows := db.waitlist;
      var before := |db.waitlist|;
      db.waitlist := Filter(db.waitlist, NotEntry(id));
      ok := |db.waitlist| < before;
      FilterMembers(rows, NotEntry(id));
      FilterShortens(rows, NotEntry(id));
      forall e: EventId
        ensures Queue(db.waitlist, e) == Filter(Queue(rows, e), NotEntry(id))
      {
        QueueDrop(Table(rows, 0), id, e);
      }
    }

    /** None of the user's rows of the event is active any more, and every other row of every queue keeps its place. */
    method OptOut(e: EventId, u: Uuid) returns (ok: bool)
      modifies db
      ensures db.Snapshot() == old(db.Snapshot()).(waitlist := OptOutRows(old(db.waitlist), e, Some(u)))
      ensures |db.waitlist| == old(|db.waitlist|)
      ensures forall i :: 0 <= i < |db.waitlist| ==>
                var row := old(db.waitlist[i]);
                db.waitlist[i] == if row.event == e && row.user == u then row.(optedOut := true) else row
      ensures forall row :: row in Queue(db.waitlist, e) ==> row.user != u
      ensures forall x: EventId :: Queue(db.waitlist, x)
                == if x == e then Filter(old(Queue(db.waitlist, x)), NotUser(u)) else old(Queue(db.waitlist, x))
      ensures ok <==> exists row :: row in old(db.waitlist) && row.event == e && row.user == u
    {
      ghost var rows := db.waitlist;
      ok := exists row :: row in db.waitlist && row.event == e && row.user == u;
      db.waitlist := OptOutRows(db.waitlist, e, Some(u));
      forall x: EventId
        ensures Queue(db.waitlist, x) == if x == e then Filter(Queue(rows, x), NotUser(u)) else Queue(rows, x)
      {
        QueueOptOut(rows, e, Some(u), x);
      }
      FilterMembers(Queue(rows, e), NotUser(u));
    }

    method GetNextActive(e: EventId) returns (next: Option<Entry>)
      ensures next == NextActive(db.waitlist, e)
      ensures next.Some? ==> IsNext(db.waitlist, e, next.value)
      ensures next.None? ==> forall row :: row in db.waitlist ==> !ActiveAt(row, e)
    {
      next := NextActive(db.waitlist, e);
      FilterMembers(db.waitlist, ActiveIn(e));
    }

    /** Nobody waits exactly when it is zero, and in an ordered table the next position lies beyond it. */
    method Count(e: EventId) returns (n: nat)
      ensures n == |Queue(db.waitlist, e)|
      ensures n == 0 <==> forall row :: row in db.waitlist ==> !ActiveAt(row, e)
      ensures TableOk(Table(db.waitlist, db.entriesMade)) ==> n <= NextPosition(db.waitlist, e) - 1
    {
      n := |Queue(db.waitlist, e)|;
      FilterMembers(db.waitlist, ActiveIn(e));
      if n > 0 {
        assert Queue(db.waitlist, e)[0] in Queue(db.waitlist, e);
      }
      if TableOk(Table(db.waitlist, db.entriesMade)) {
        assert Ordered(QueueIn(Table(db.waitlist, db.entriesMade), e));
        MaxOfOrdered(Queue(db.waitlist, e));
      }
    }
  }

  class AdminRepository {
    const db: Database

    constructor (db: Database)
      ensures this.db == db
    {
      this.db := db;
    }

    /** Three updates in one transaction. */
    method CancelEvent(e: EventId)
      modifies db
      ensures db.Snapshot() == CallOffEvent(old(db.Snapshot()), e)
      ensures StatusOf(old(db.events), db.events, e, CalledOff)
      ensures |db.bookings| == old(|db.bookings|)
      ensures forall i :: 0 <= i < |db.bookings| ==>
                var row := old(db.bookings[i]);
                db.bookings[i] == if row.event == e && row.status != Cancelled then row.(status := Cancelled) else row
      ensures |db.waitlist| == old(|db.waitlist|)
      ensures forall i :: 0 <= i < |db.waitlist| ==>
                var row := old(db.waitlist[i]);
                db.waitlist[i] == if row.event == e then row.(optedOut := true) else row
      ensures forall row :: row in db.waitlist ==> !(row.event == e && !row.optedOut)
      ensures db.Snapshot()
              == old(db.Snapshot()).(events := db.events, bookings := db.bookings, waitlist := db.waitlist)
    {
      if e in db.events {
        db.events := db.events[e := db.events[e].(status := CalledOff)];
      }
      db.bookings := CallOffBookings(db.bookings, e);
      db.waitlist := OptOutRows(db.waitlist, e, None);
    }
  }
}
