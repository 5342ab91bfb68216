/**
 What a service call tells its caller: exactly when it gives which reply, and what it has done then, read off the rows
 themselves.
 */
module Replies {
  import opened Collections
  import opened Model
  import opened StoreCalls
  import opened Protocol
  import opened ServiceCalls
  import opened ServiceRuns
  import opened WaitlistQueue
  import opened Promotions

  function Count(tokens: map<EventId, int>, e: EventId): int {
    if e in tokens then tokens[e] else 0
  }

  // ----- Create -----

  /** The event is known and not over, and the request is not for too many tickets. */
  predicate Admitted(s: Store, failing: Failing, now: int, e: EventId, seats: seq<Label>) {
    && GetEvent !in failing && e in s.db.events
    && now <= s.db.events[e].endTime && |seats| <= s.db.events[e].maxTickets
  }

  /** The key is looked up, and some booking, of whatever event, carries it. */
  predicate KeyKnown(s: Store, failing: Failing, key: Option<string>) {
    key.Some? && key.value != "" && GetKey !in failing && exists row :: row in s.db.bookings && row.key == key
  }

  predicate Reserves(s: Store, failing: Failing, now: int, e: EventId, key: Option<string>, seats: seq<Label>) {
    && Admitted(s, failing, now, e, seats) && !KeyKnown(s, failing, key)
    && Reserve !in failing && |seats| <= Count(s.tokens, e)
  }

  predicate Inserts(s: Store, failing: Failing, e: EventId, u: Uuid, key: Option<string>) {
    && InsertBooking !in failing && u in s.db.users
    && !(key.Some? && exists row :: row in s.db.bookings && row.event == e && row.key == key)
  }

  lemma KeyKnownIff(s: Store, failing: Failing, key: Option<string>)
    ensures KeyKnown(s, failing, key) <==>
              NeedsKeyCheck(key) && GetKey !in failing && FindKey(s.db.bookings, key.value).Some?
  {
  }

  /** 404 for an unknown event, 400 for one that is over or a request for too many tickets; nothing is taken. */
  lemma CreateRefuses(
    s: Store, failing: Failing, now: int, e: EventId, u: Uuid, key: Option<string>, seats: seq<Label>)
    ensures var (s', reply) := CreateCall(s, failing, now, e, u, key, seats);
            && (reply == Refused(404) <==> GetEvent !in failing && e !in s.db.events)
            && (reply == Refused(400) <==>
                  GetEvent !in failing && e in s.db.events && !Admitted(s, failing, now, e, seats))
            && (reply.Refused? ==> reply.code == 400 || reply.code == 404 || reply.code == 500)
            && (reply == Refused(404) ==> s' == s)
            && (reply == Refused(400) ==>
                  var row := s.db.events[e];
                  s' == if row.endTime < now && ExpireEvent !in failing
                        then s.(db := s.db.(events := s.db.events[e := row.(status := Expired)])) else s)
  {
  }

  /** 200 for a key in use, with that booking's status, and 202 for a new pending booking that took a token a seat. */
  lemma CreateAccepts(
    s: Store, failing: Failing, now: int, e: EventId, u: Uuid, key: Option<string>, seats: seq<Label>)
    ensures var (s', reply) := CreateCall(s, failing, now, e, u, key, seats);
            && (reply.Accepted? ==> reply.code == 200 || reply.code == 202)
            && (reply.Accepted? && reply.code == 200
               <==> Admitted(s, failing, now, e, seats) && KeyKnown(s, failing, key))
            && (reply.Accepted? && reply.code == 200 ==>
                  && s' == s && reply.id < |s.db.bookings|
                  && s.db.bookings[reply.id].key == key && s.db.bookings[reply.id].status == reply.status)
            && (reply.Accepted? && reply.code == 202 <==>
                  Reserves(s, failing, now, e, key, seats) && Inserts(s, failing, e, u, key))
            && (reply.Accepted? && reply.code == 202 ==>
                  && reply.id == |s.db.bookings| && reply.status == Pending
                  && s' == s.(db := s.db.(bookings := s.db.bookings
                                                      + [Booking(u, e, Pending, seats, key, 0, Unpaid)]),
                              tokens := s.tokens[e := Count(s.tokens, e) - |seats|]))
  {
    KeyKnownIff(s, failing, key);
  }

  /**
   A place on the waitlist exactly when tokens do not cover the request: the position told is that of the new last row,
   which is the user's, and the first beyond those of everybody who waits.
   */
  lemma CreateWaitlists(
    s: Store, failing: Failing, now: int, e: EventId, u: Uuid, key: Option<string>, seats: seq<Label>)
    ensures var (s', reply) := CreateCall(s, failing, now, e, u, key, seats);
            && (reply.Waitlisted? <==>
                  && Admitted(s, failing, now, e, seats) && !KeyKnown(s, failing, key)
                  && Reserve !in failing && Count(s.tokens, e) < |seats|
                  && MaxActive !in failing && InsertWaiting !in failing && u in s.db.users)
            && (reply.Waitlisted? ==> TakesPlace(s, s', e, u, reply.position))
  {
    KeyKnownIff(s, failing, key);
    JoinWaitlists(s, failing, e, u);
  }

  /** The user has joined the waitlist at this position, and nothing else has happened. */
  predicate TakesPlace(s: Store, s': Store, e: EventId, u: Uuid, position: int) {
    && s' == s.(db := s.db.(waitlist := s.db.waitlist + [Entry(WaitlistRow(s.db.entriesMade), e, u, position, false)],
                            entriesMade := s.db.entriesMade + 1))
    && IsFirstBeyond(s.db.waitlist, e, position)
  }

  lemma JoinWaitlists(s: Store, failing: Failing, e: EventId, u: Uuid)
    ensures var (s', reply) := JoinCall(s, failing, e, u);
            && (reply.Waitlisted? <==>
                  MaxActive !in failing && InsertWaiting !in failing && u in s.db.users && e in s.db.events)
            && (reply.Waitlisted? ==> TakesPlace(s, s', e, u, reply.position))
            && (!reply.Waitlisted? ==> reply == Refused(500) && s' == s)
  {
    NextIsFirstBeyond(s.db.waitlist, e);
  }

  /** 500 in every other case; what was reserved by then is not given back. */
  lemma CreateFails(
    s: Store, failing: Failing, now: int, e: EventId, u: Uuid, key: Option<string>, seats: seq<Label>)
    ensures var (s', reply) := CreateCall(s, failing, now, e, u, key, seats);
            reply == Refused(500) ==>
              s' == if Reserves(s, failing, now, e, key, seats)
                    then s.(tokens := s.tokens[e := Count(s.tokens, e) - |seats|]) else s
  {
    KeyKnownIff(s, failing, key);
  }

  /** Who is told a position is the last in the queue, in every sequential run, and no deeper in it than told. */
  lemma ToldNoLessThanRank(users: set<nat>, requests: seq<Request>, r: Request, position: int)
    requires var s := ServeAll(InitStore(users), requests);
             || (r.Create? && CreateCall(s, r.failing, r.now, r.e, r.u, r.key, r.seats).1 == Waitlisted(position))
             || (r.Join? && JoinCall(s, r.failing, r.e, r.u).1 == Waitlisted(position))
    ensures var q := Queue(ServeAll(InitStore(users), requests + [r]).db.waitlist, r.e);
            q != [] && q[|q| - 1].user == r.u && q[|q| - 1].position == position && |q| <= position
  {
    var s := ServeAll(InitStore(users), requests);
    var s' := ServeAll(InitStore(users), requests + [r]);
    assert (requests + [r])[..|requests|] == requests;
    assert s' == Serve(s, r);
    if r.Create? {
      CreateWaitlists(s, r.failing, r.now, r.e, r.u, r.key, r.seats);
    } else {
      JoinWaitlists(s, r.failing, r.e, r.u);
    }
    hide Serve, ServeAll, CreateCall, JoinCall;
    var row := Entry(WaitlistRow(s.db.entriesMade), r.e, r.u, position, false);
    FilterAppend(s.db.waitlist, row, ActiveIn(r.e));
    hide Filter;
    ServedTableOk(users, requests + [r]);
    assert Ordered(QueueIn(TableOf(s'), r.e));
    RankAtMostPosition(Queue(s'.db.waitlist, r.e), |Queue(s'.db.waitlist, r.e)| - 1);
  }

  // ----- Cancel -----

  /** What a cancellation finds: the booking, while the transaction does not fail. */
  predicate Cancels(s: Store, failing: Failing, b: BookingId) {
    CancelBooking !in failing && b < |s.db.bookings|
  }

  /** It comes to book a waiting user. */
  predicate Promotes(s: Store, failing: Failing, b: BookingId) {
    && Cancels(s, failing, b) && s.db.bookings[b].status == Booked
    && LookupAfterRelease !in failing && FindNext !in failing && InsertPromoted !in failing
    && var e := s.db.bookings[b].event;
       var next := NextActive(s.db.waitlist, e);
       next.Some? && next.value.user in s.db.users && e in s.db.events
  }

  /** It fails for the caller exactly when it finds nothing, or one of its lookups of the booking fails. */
  lemma CancelReplies(s: Store, failing: Failing, b: BookingId)
    ensures var (s', reply) := CancelCall(s, failing, b);
            && (reply == CancelRefused <==>
                  || !Cancels(s, failing, b)
                  || (s.db.bookings[b].status == Booked && LookupAfterRelease in failing)
                  || (Promotes(s, failing, b) && LookupPromoted in failing))
            && (!Cancels(s, failing, b) ==> s' == s)
  {
  }

  /** Seat by seat, what a cancellation leaves. */
  predicate SeatsFreed(before: seq<Seat>, after: seq<Seat>, e: EventId, labels: seq<Label>) {
    && |after| == |before|
    && forall i :: 0 <= i < |before| ==>
         after[i] == if before[i].event == e && before[i].seatLabel in labels
                     then Seat(e, before[i].seatLabel, Available, None) else before[i]
  }

  /**
   The booking is cancelled whatever it was. A booked one gives its seats back, a token a seat unless the release fails,
   and its count in the event; then the head of the waitlist, if it can be booked, has a pending booking for the same
   seats without a token, and has left the waitlist unless its removal fails.
   */
  lemma CancelDoes(s: Store, failing: Failing, b: BookingId)
    requires Cancels(s, failing, b)
    ensures var s', row := CancelCall(s, failing, b).0, s.db.bookings[b];
            var x := NextActive(s.db.waitlist, row.event);
            var promoted := if Promotes(s, failing, b)
                            then [Booking(x.value.user, row.event, Pending, row.seats, None, 0, Unpaid)] else [];
            && s'.db.bookings == s.db.bookings[b := row.(status := Cancelled)] + promoted
            && (if row.status != Booked then s' == s.(db := s.db.(bookings := s'.db.bookings))
                else
                  && s' == s.(db := s'.db, tokens := s'.tokens)
                  && s'.db == s.db.(bookings := s'.db.bookings, seats := s'.db.seats, events := s'.db.events,
                                    waitlist := s'.db.waitlist)
                  && SeatsFreed(s.db.seats, s'.db.seats, row.event, row.seats)
                  && s'.tokens == (if Release in failing then s.tokens
                                   else s.tokens[row.event := Count(s.tokens, row.event)
                                                              + if row.seats == [] then 1 else |row.seats|])
                  && s'.db.events == (if row.event in s.db.events
                                      then var event := s.db.events[row.event];
                                           s.db.events[row.event := event.(reserved := event.reserved - 1)]
                                      else s.db.events)
                  && s'.db.waitlist == if Promotes(s, failing, b) && RemoveWaiting !in failing
                                       then Filter(s.db.waitlist, NotEntry(x.value.id)) else s.db.waitlist)
  {
    var row := s.db.bookings[b];
    CancelTxDoes(s.db, b);
    assert SeatCount(row.seats) == if row.seats == [] then 1 else |row.seats|;
    hide CancelTx, Promote, SeatsFreed, NextActive, Filter, SeatCount;
    if row.status == Booked {
      var s1 := s.(db := CancelTx(s.db, b).value.0);
      var s2 := if Release in failing then s1
                else s1.(tokens := ReleaseTokens(s.tokens, row.event, SeatCount(row.seats)));
      PromoteDoes(s2, failing, row.event, row.seats);
    }
  }

  lemma CancelTxDoes(db: Tables, b: BookingId)
    requires b < |db.bookings|
    ensures CancelTx(db, b).Some?
    ensures var (db', wasBooked), row := CancelTx(db, b).value, db.bookings[b];
            && (wasBooked <==> row.status == Booked)
            && db'.bookings == db.bookings[b := row.(status := Cancelled)]
            && (!wasBooked ==> db' == db.(bookings := db'.bookings))
            && (wasBooked ==>
                  && db' == db.(bookings := db'.bookings, seats := db'.seats, events := db'.events)
                  && SeatsFreed(db.seats, db'.seats, row.event, row.seats)
                  && db'.events == if row.event in db.events
                                   then var event := db.events[row.event];
                                        db.events[row.event := event.(reserved := event.reserved - 1)]
                                   else db.events)
  {
  }

  /** The head of the waitlist, if all goes well, gets a pending booking and leaves. */
  lemma PromoteDoes(s: Store, failing: Failing, e: EventId, seats: seq<Label>)
    ensures var s', x := Promote(s, failing, e, seats).0, NextActive(s.db.waitlist, e);
            var promotes := FindNext !in failing && InsertPromoted !in failing
                            && x.Some? && x.value.user in s.db.users && e in s.db.events;
            s' == if !promotes then s
                  else s.(db := s.db.(
                         bookings := s.db.bookings + [Booking(x.value.user, e, Pending, seats, None, 0, Unpaid)],
                         waitlist := if RemoveWaiting in failing then s.db.waitlist
                                     else Filter(s.db.waitlist, NotEntry(x.value.id))))
  {
  }

  // ----- Payments -----

  function SeatsOrDefault(seats: seq<Label>): seq<Label> {
    if seats == [] then ["seat1"] else seats
  }

  predicate ReadsBooking(s: Store, failing: Failing, b: BookingId) {
    GetBooking !in failing && b < |s.db.bookings|
  }

  predicate ReadsEvent(s: Store, failing: Failing, b: BookingId) {
    ReadsBooking(s, failing, b) && GetEvent !in failing && s.db.bookings[b].event in s.db.events
  }

  /** The payment goes through to the provider. */
  predicate Due(s: Store, failing: Failing, b: BookingId, amount: int) {
    && ReadsEvent(s, failing, b) && s.db.bookings[b].status == Pending
    && amount >= s.db.events[s.db.bookings[b].event].price * |SeatsOrDefault(s.db.bookings[b].seats)|
  }

  /** Every reply of a payment, with the case in which it is given. */
  lemma PayReplies(s: Store, failing: Failing, b: BookingId, amount: int)
    ensures var reply, found, due :=
            PayCall(s, failing, b, amount).1, ReadsBooking(s, failing, b), Due(s, failing, b, amount);
            && (reply == PayDone <==> due && MarkPaid !in failing && Finalize !in failing)
            && (reply == BookingNotFound <==> GetBooking !in failing && b >= |s.db.bookings|)
            && (reply == AlreadyPaid <==> found && s.db.bookings[b].status == Booked)
            && (reply == NotPending <==> found && s.db.bookings[b].status == Cancelled)
            && (reply == EventNotFound <==>
                  && found && s.db.bookings[b].status == Pending && GetEvent !in failing
                  && s.db.bookings[b].event !in s.db.events)
            && (reply == InvalidAmount <==>
                  ReadsEvent(s, failing, b) && s.db.bookings[b].status == Pending && !due)
            && reply != NotPaid
  {
  }

  /** Seat by seat, what a finalization leaves. */
  predicate SeatsTaken(before: seq<Seat>, after: seq<Seat>, e: EventId, labels: seq<Label>, b: BookingId) {
    && |after| == |before|
    && forall i :: 0 <= i < |before| ==>
         after[i] == if before[i].event == e && before[i].seatLabel in labels
                     then Seat(e, before[i].seatLabel, Taken, Some(b)) else before[i]
  }

  /**
   A payment that is due is charged; unless an update fails it is then marked, and its booking booked with its seats.
   */
  lemma PayDoes(s: Store, failing: Failing, b: BookingId, amount: int)
    ensures var s' := PayCall(s, failing, b, amount).0;
            if !Due(s, failing, b, amount) then s' == s
            else
              var row, seats := s.db.bookings[b], SeatsOrDefault(s.db.bookings[b].seats);
              && s' == s.(db := s'.db, charges := s.charges + [Charge(b, row.event, amount)])
              && (if MarkPaid in failing then s'.db == s.db
                  else if Finalize in failing then
                    s'.db == s.db.(bookings := s.db.bookings[b := row.(payment := Paid, amountPaid := amount)])
                  else
                    && s'.db == s.db.(
                         bookings := s.db.bookings[b :=
                           Booking(row.user, row.event, Booked, seats, row.key, amount, Paid)],
                         seats := s'.db.seats,
                         events := s.db.events[row.event := s.db.events[row.event].(
                                                              reserved := s.db.events[row.event].reserved + 1)])
                    && SeatsTaken(s.db.seats, s'.db.seats, row.event, seats, b))
  {
  }

  /** Every reply of a refund, and that it sends the amount paid less the fee, or nothing if the fee is larger. */
  lemma RefundReplies(s: Store, failing: Failing, b: BookingId)
    ensures var (s', reply) := RefundCall(s, failing, b);
            var found, due := ReadsBooking(s, failing, b),
                              ReadsEvent(s, failing, b) && s.db.bookings[b].payment == Paid;
            && (reply == PayDone <==> due && MarkRefunded !in failing)
            && (reply == BookingNotFound <==> GetBooking !in failing && b >= |s.db.bookings|)
            && (reply == NotPaid <==> found && s.db.bookings[b].payment != Paid)
            && (reply == EventNotFound <==>
                  && found && s.db.bookings[b].payment == Paid && GetEvent !in failing
                  && s.db.bookings[b].event !in s.db.events)
            && (|| reply == PayFailed || reply == PayDone || reply == BookingNotFound
                || reply == NotPaid || reply == EventNotFound)
            && (if !due then s' == s
                else
                  var row := s.db.bookings[b];
                  var back := row.amountPaid - s.db.events[row.event].fee;
                  var refund := if back < 0 then 0 else back;
                  s' == s.(refunds := s.refunds + [Refund(b, row.event, refund, row.amountPaid, Individual)],
                           db := if MarkRefunded in failing then s.db
                                 else s.db.(bookings :=
                                   s.db.bookings[b := row.(payment := Refunded, amountPaid := refund)])))
  {
  }

  lemma EventRefundReplies(s: Store, failing: Failing, unmarked: set<BookingId>, e: EventId)
    ensures var (s', reply) := EventRefundCall(s, failing, unmarked, e);
            && (reply == PayDone <==> ListBookings !in failing && GetEvent !in failing && e in s.db.events)
            && (reply == EventNotFound <==> ListBookings !in failing && GetEvent !in failing && e !in s.db.events)
            && (reply == PayFailed || reply == PayDone || reply == EventNotFound)
            && (reply != PayDone ==> s' == s)
  {
  }

  // ----- Timeouts and administration -----

  /** The timeout cancels its booking. */
  predicate TimesOut(s: Store, failing: Failing, b: BookingId) {
    ReadsBooking(s, failing, b) && s.db.bookings[b].status == Pending && CancelBooking !in failing
  }

  /** After that it looks for somebody who waits. */
  predicate LooksOn(s: Store, failing: Failing, b: BookingId, e: EventId) {
    TimesOut(s, failing, b) && GetEvent !in failing && e in s.db.events && FindNext !in failing
  }

  /** The insert would accept the waiting entry's id as a user's. */
  predicate Mistakes(s: Store, failing: Failing, b: BookingId, e: EventId) {
    && LooksOn(s, failing, b, e) && InsertPromoted !in failing
    && NextActive(s.db.waitlist, e).Some? && NextActive(s.db.waitlist, e).value.id in s.db.users
  }

  lemma TimeoutDoes(s: Store, failing: Failing, b: BookingId, e: EventId, seats: seq<Label>)
    ensures var (s', ok) := TimeoutCall(s, failing, b, e, seats);
            && (ok <==>
                  || (ReadsBooking(s, failing, b) && s.db.bookings[b].status != Pending)
                  || (LooksOn(s, failing, b, e) && NextActive(s.db.waitlist, e).None?)
                  || (Mistakes(s, failing, b, e) && LookupPromoted !in failing))
            && (if !TimesOut(s, failing, b) then s' == s
                else
                  var cancelled := s.db.bookings[b := s.db.bookings[b].(status := Cancelled)];
                  s' == s.(db := s.db.(bookings :=
                          if Mistakes(s, failing, b, e)
                          then cancelled + [Booking(NextActive(s.db.waitlist, e).value.id, e, Pending, seats, None, 0,
                            Unpaid)]
                          else cancelled)))
  {
  }

  /**
   Where the foreign keys hold, a timeout reports success exactly when its booking was not pending any more, or was
   cancelled and nobody waited.
   */
  lemma TimeoutReports(s: Store, failing: Failing, b: BookingId, e: EventId, seats: seq<Label>)
    requires forall u :: u in s.db.users ==> u.UserRow?
    requires forall row :: row in s.db.waitlist ==> row.id.WaitlistRow?
    ensures TimeoutCall(s, failing, b, e, seats).1 <==>
              || (ReadsBooking(s, failing, b) && s.db.bookings[b].status != Pending)
              || (LooksOn(s, failing, b, e)
                  && forall row :: row in s.db.waitlist ==> !(row.event == e && !row.optedOut))
  {
    FilterMembers(s.db.waitlist, ActiveIn(e));
    var q := Queue(s.db.waitlist, e);
    assert q != [] ==> q[0] in q;
    hide Filter, TimeoutCall;
    TimeoutDoes(s, failing, b, e, seats);
  }

  /** An opt-out flags the user's rows of the event and changes nothing else. */
  lemma OptOutDoes(s: Store, e: EventId, u: Uuid)
    ensures var s' := OptOutCall(s, e, u);
            && s' == s.(db := s.db.(waitlist := s'.db.waitlist)) && |s'.db.waitlist| == |s.db.waitlist|
            && forall i :: 0 <= i < |s.db.waitlist| ==>
                 var row := s.db.waitlist[i];
                 s'.db.waitlist[i] == if row.event == e && row.user == u then row.(optedOut := true) else row
  {
  }

  /** An admin's cancellation marks the event, cancels its live bookings and clears its waitlist; all else stays. */
  lemma CallOffDoes(s: Store, e: EventId)
    ensures var s' := CallOffCall(s, e);
            && s' == s.(db := s.db.(events := s'.db.events, bookings := s'.db.bookings, waitlist := s'.db.waitlist))
            && s'.db.events == (if e in s.db.events then s.db.events[e := s.db.events[e].(status := CalledOff)]
                                else s.db.events)
            && |s'.db.bookings| == |s.db.bookings| && |s'.db.waitlist| == |s.db.waitlist|
            && (forall i :: 0 <= i < |s.db.bookings| ==>
                  var row := s.db.bookings[i];
                  s'.db.bookings[i] == if row.event == e
                    && row.status != Cancelled then row.(status := Cancelled) else row)
            && (forall i :: 0 <= i < |s.db.waitlist| ==>
                  var row := s.db.waitlist[i];
                  s'.db.waitlist[i] == if row.event == e then row.(optedOut := true) else row)
  {
  }
}
