/** What the idempotency key promises over sequential runs of service calls. */
module Idempotency {
  import opened Collections
  import opened Model
  import opened StoreCalls
  import opened Protocol
  import opened ServiceCalls
  import opened ServiceRuns

  /** Keys that the lookup considers. */
  predicate Keyed(b: Booking) {
    NeedsKeyCheck(b.key)
  }

  predicate KeysUnique(bookings: seq<Booking>) {
    forall i, j :: 0 <= i < j < |bookings| && Keyed(bookings[i]) ==> bookings[i].key != bookings[j].key
  }

  /** The old bookings keep their keys, and a call adds at most one booking. */
  predicate KeysKept(before: seq<Booking>, after: seq<Booking>) {
    && |before| <= |after|
    && forall i :: 0 <= i < |before| ==> after[i].key == before[i].key
  }

  /** Either no booking was added, or one with the key `key`, which no other booking carries if it is looked up. */
  predicate AddsAtMost(before: seq<Booking>, after: seq<Booking>, key: Option<string>) {
    && KeysKept(before, after)
    && |after| <= |before| + 1
    && (|after| > |before| ==>
          && after[|before|].key == key
          && (NeedsKeyCheck(key) ==> forall i :: 0 <= i < |before| ==> before[i].key != key))
  }

  lemma AddingKeepsUnique(before: seq<Booking>, after: seq<Booking>, key: Option<string>)
    requires KeysUnique(before) && AddsAtMost(before, after, key)
    ensures KeysUnique(after)
  {
  }

  lemma CreateAdds(s: Store, failing: Failing, now: int, e: EventId, u: Uuid, key: Option<string>, seats: seq<Label>)
    requires GetKey !in failing
    ensures AddsAtMost(s.db.bookings, CreateCall(s, failing, now, e, u, key, seats).0.db.bookings, key)
  {
  }

  lemma InsertAdds(before: seq<Booking>, db: Tables, u: Uuid, e: EventId, seats: seq<Label>)
    requires KeysKept(before, db.bookings) && |db.bookings| == |before|
    requires InsertPending(db, u, e, None, seats).Some?
    ensures AddsAtMost(before, InsertPending(db, u, e, None, seats).value.bookings, None)
  {
  }

  lemma PromoteAdds(before: seq<Booking>, s: Store, failing: Failing, e: EventId, seats: seq<Label>)
    requires KeysKept(before, s.db.bookings) && |s.db.bookings| == |before|
    ensures AddsAtMost(before, Promote(s, failing, e, seats).0.db.bookings, None)
  {
  }

  lemma CancelAdds(s: Store, failing: Failing, b: BookingId)
    ensures AddsAtMost(s.db.bookings, CancelCall(s, failing, b).0.db.bookings, None)
  {
    if b < |s.db.bookings| && CancelBooking !in failing {
      var row, s' := s.db.bookings[b], s.(db := CancelTx(s.db, b).value.0);
      assert KeysKept(s.db.bookings, s'.db.bookings) && |s'.db.bookings| == |s.db.bookings|;
      PromoteAdds(s.db.bookings, s', failing, row.event, row.seats);
      PromoteAdds(s.db.bookings, s'.(tokens := ReleaseTokens(s.tokens, row.event, SeatCount(row.seats))), failing,
        row.event, row.seats);
      hide Promote;
    }
  }

  lemma TimeoutAdds(s: Store, failing: Failing, b: BookingId, e: EventId, seats: seq<Label>)
    ensures AddsAtMost(s.db.bookings, TimeoutCall(s, failing, b, e, seats).0.db.bookings, None)
  {
    if b < |s.db.bookings| && s.db.bookings[b].status == Pending {
      var db := CancelTx(s.db, b).value.0;
      assert KeysKept(s.db.bookings, db.bookings) && |db.bookings| == |s.db.bookings|;
      hide InsertPending, KeysKept, CancelTx;
      var next := NextActive(db.waitlist, e);
      if next.Some? && InsertPending(db, next.value.id, e, None, seats).Some? {
        InsertAdds(s.db.bookings, db, next.value.id, e, seats);
      }
      assert AddsAtMost(s.db.bookings, db.bookings, None) && AddsAtMost(s.db.bookings, s.db.bookings, None) by {
        assert KeysKept(s.db.bookings, s.db.bookings) by { KeysStay(s.db.bookings); }
      }
    } else {
      KeysStay(s.db.bookings);
      hide KeysKept;
    }
  }

  lemma KeysStay(bookings: seq<Booking>)
    ensures KeysKept(bookings, bookings)
  {
  }

  lemma {:induction false} RefundsKeepKeys(s: Store, unmarked: set<BookingId>, e: EventId, todo: seq<(BookingId, int)>)
    ensures KeysKept(s.db.bookings, RefundEach(s, unmarked, e, todo).db.bookings)
    ensures |RefundEach(s, unmarked, e, todo).db.bookings| == |s.db.bookings|
    decreases |todo|
  {
    if todo != [] {
      var s', b, paid := RefundedFirst(s, unmarked, e, todo), todo[0].0, todo[0].1;
      if b < |s.db.bookings| {
        assert KeysKept(s.db.bookings, SetPayment(s.db, b, Refunded, paid).value.bookings);
      }
      RefundsKeepKeys(s', unmarked, e, todo[1..]);
    }
  }

  function KeyOf(r: Request): Option<string> {
    match r
    case Create(_, _, _, _, key, _) => key
    case _ => None
  }

  predicate LooksUpKeys(r: Request) {
    r.Create? ==> GetKey !in r.failing
  }

  lemma ServeAdds(s: Store, r: Request)
    requires LooksUpKeys(r)
    ensures AddsAtMost(s.db.bookings, Serve(s, r).db.bookings, KeyOf(r))
  {
    match r
    case Create(failing, now, e, u, key, seats) => CreateAdds(s, failing, now, e, u, key, seats);
    case Cancel(failing, b) => CancelAdds(s, failing, b);
    case Timeout(failing, b, e, seats) => TimeoutAdds(s, failing, b, e, seats);
    case RefundEvent(_, unmarked, e) =>
      if e in s.db.events {
        RefundsKeepKeys(s, unmarked, e, PaidAmong(s.db.bookings, ListByEvent(s.db.bookings, e, LIST_LIMIT)));
      }
    case _ =>
  }

  /** In every sequential run whose key lookups succeed, at most one booking carries a given key, across all events. */
  lemma {:induction false} KeysStayUnique(users: set<nat>, requests: seq<Request>)
    requires forall r :: r in requests ==> LooksUpKeys(r)
    ensures KeysUnique(ServeAll(InitStore(users), requests).db.bookings)
  {
    if requests != [] {
      var front, r := requests[..|requests| - 1], requests[|requests| - 1];
      var s := ServeAll(InitStore(users), front);
      KeysStayUnique(users, front);
      assert r in requests && LooksUpKeys(r);
      ServeAdds(s, r);
      AddingKeepsUnique(s.db.bookings, Serve(s, r).db.bookings, KeyOf(r));
    }
  }

  lemma {:induction false} KeysSurvive(s: Store, requests: seq<Request>)
    requires forall r :: r in requests ==> LooksUpKeys(r)
    ensures KeysKept(s.db.bookings, ServeAll(s, requests).db.bookings)
  {
    if requests != [] {
      var front, r := requests[..|requests| - 1], requests[|requests| - 1];
      KeysSurvive(s, front);
      assert r in requests && LooksUpKeys(r);
      ServeAdds(ServeAll(s, front), r);
    }
  }

  /** The accepted booking carries the request's key, whether it is new or was found. */
  lemma AcceptedCarriesKey(
    s: Store, failing: Failing, now: int, e: EventId, u: Uuid, key: Option<string>, seats: seq<Label>)
    requires CreateCall(s, failing, now, e, u, key, seats).1.Accepted?
    ensures var (s', reply) := CreateCall(s, failing, now, e, u, key, seats);
            reply.id < |s'.db.bookings| && s'.db.bookings[reply.id].key == key
  {
  }

  /**
   After a call with key `key` was accepted, and after any further sequential calls, a retry with that key,
   for whatever event, user and seats, takes no token, books nothing and joins no waitlist; if it is accepted
   it is answered with the first call's booking.
   */
  lemma RetryChangesNothing(users: set<nat>, before: seq<Request>, call: Request, between: seq<Request>, retry: Request)
    requires forall r :: r in before + [call] + between + [retry] ==> LooksUpKeys(r)
    requires call.Create? && retry.Create? && NeedsKeyCheck(call.key) && retry.key == call.key
    requires CreateCall(ServeAll(InitStore(users), before), call.failing, call.now, call.e, call.u, call.key,
             call.seats).1.Accepted?
    ensures var first := CreateCall(ServeAll(InitStore(users), before), call.failing, call.now, call.e, call.u,
            call.key, call.seats).1;
            var s := ServeAll(InitStore(users), before + [call] + between);
            var (s', reply) := CreateCall(s, retry.failing, retry.now, retry.e, retry.u, retry.key, retry.seats);
            && s'.tokens == s.tokens && s'.db.bookings == s.db.bookings && s'.db.waitlist == s.db.waitlist
            && !reply.Waitlisted?
            && (reply.Accepted? ==> reply.id == first.id && reply.code == 200)
  {
    var s0 := ServeAll(InitStore(users), before);
    var first := CreateCall(s0, call.failing, call.now, call.e, call.u, call.key, call.seats).1;
    var all := before + [call] + between;
    assert (before + [call])[..|before|] == before;
    assert ServeAll(InitStore(users), before + [call]) == Serve(s0, call);
    ServeAllAppend(InitStore(users), before + [call], between);
    var s := ServeAll(InitStore(users), all);
    AcceptedCarriesKey(s0, call.failing, call.now, call.e, call.u, call.key, call.seats);
    assert forall r :: r in between ==> r in all + [retry];
    KeysSurvive(Serve(s0, call), between);
    assert forall r :: r in all ==> r in all + [retry];
    KeysStayUnique(users, all);
    assert LooksUpKeys(retry);
    UsedKeyIsFound(s, first.id, retry);
  }

  /** A call whose key some booking carries answers with that booking or refuses, and changes no count. */
  lemma UsedKeyIsFound(s: Store, b: BookingId, r: Request)
    requires r.Create? && GetKey !in r.failing && NeedsKeyCheck(r.key)
    requires KeysUnique(s.db.bookings) && b < |s.db.bookings| && s.db.bookings[b].key == r.key
    ensures var (s', reply) := CreateCall(s, r.failing, r.now, r.e, r.u, r.key, r.seats);
            && s'.tokens == s.tokens && s'.db.bookings == s.db.bookings && s'.db.waitlist == s.db.waitlist
            && !reply.Waitlisted?
            && (reply.Accepted? ==> reply.id == b && reply.code == 200)
  {
    FoundIsFirst(s.db.bookings, b);
  }

  /** With unique keys, looking a booking's key up finds that booking. */
  lemma FoundIsFirst(bookings: seq<Booking>, b: BookingId)
    requires KeysUnique(bookings) && b < |bookings| && Keyed(bookings[b])
    ensures FindKey(bookings, bookings[b].key.value) == Some(b)
  {
    var found := FindKey(bookings, bookings[b].key.value);
    assert found.Some?;
    assert found.value < b ==> Keyed(bookings[found.value]);
  }

  /**
   When the lookup of a used key fails, the constraint on (event, key) is all that is left: for another event
   with enough tokens the call books a second time under the same key.
   */
  lemma FailedLookupBooksAgain(
    s: Store, b: BookingId, failing: Failing, now: int, e: EventId, u: Uuid, seats: seq<Label>)
    requires b < |s.db.bookings| && Keyed(s.db.bookings[b]) && KeysUnique(s.db.bookings)
    requires failing == {GetKey} && u in s.db.users && e in s.db.events
    requires s.db.events[e].endTime >= now && |seats| <= s.db.events[e].maxTickets && |seats| <= Tokens(s.tokens, e)
    ensures var s' := CreateCall(s, failing, now, e, u, s.db.bookings[b].key, seats).0;
            KeysUnique(s'.db.bookings) <==> s.db.bookings[b].event == e
  {
    var key := s.db.bookings[b].key;
    if s.db.bookings[b].event != e {
      assert forall i :: 0 <= i < |s.db.bookings| && s.db.bookings[i].event == e ==> s.db.bookings[i].key != key;
      var s' := CreateCall(s, failing, now, e, u, key, seats).0;
      assert s'.db.bookings[|s.db.bookings|].key == s'.db.bookings[b].key;
    } else {
      assert DuplicateKey(s.db.bookings, e, key);
    }
  }
}
