/** What the refund of a whole event does to every booking. */
module EventRefunds {
  import opened Collections
  import opened Model
  import opened StoreCalls
  import opened Protocol
  import opened ServiceCalls
  import opened Money

  function OneIn(e: EventId): Booking -> int {
    (b: Booking) => if b.event == e then 1 else 0
  }

  function CountOf(bookings: seq<Booking>, e: EventId): int {
    Sum(bookings, OneIn(e))
  }

  /** A booking is listed exactly when fewer than `limit` bookings of its event are newer. */
  lemma {:induction false} ListedIfRecent(bookings: seq<Booking>, e: EventId, limit: nat, b: BookingId)
    requires b < |bookings| && bookings[b].event == e
    ensures b in ListByEvent(bookings, e, limit) <==> CountOf(bookings[b + 1..], e) < limit
    decreases |bookings|
  {
    var last := |bookings| - 1;
    var newer := bookings[b + 1..];
    SumNonNegative(newer, OneIn(e));
    if limit == 0 {
    } else if b == last {
      assert newer == [];
    } else {
      assert newer[..|newer| - 1] == bookings[..last][b + 1..];
      assert newer[|newer| - 1] == bookings[last];
      ListedIfRecent(bookings[..last], e, if bookings[last].event == e then limit - 1 else limit, b);
    }
  }

  predicate Listed(todo: seq<(BookingId, int)>, b: BookingId) {
    exists i :: 0 <= i < |todo| && todo[i].0 == b
  }

  lemma FirstStays(s: Store, unmarked: set<BookingId>, e: EventId, todo: seq<(BookingId, int)>)
    requires todo != [] && TodoOk(s.db, e, todo)
    ensures var s1, b, paid := RefundedFirst(s, unmarked, e, todo), todo[0].0, todo[0].1;
            && s1 == s.(db := s.db.(bookings := s1.db.bookings), refunds :=
               s.refunds + [Refund(b, e, paid, paid, WholeEvent)])
            && s1.db.bookings == (if b in unmarked then s.db.bookings
                                  else s.db.bookings[b := s.db.bookings[b].(payment := Refunded)])
            && TodoOk(s1.db, e, todo[1..])
  {
    assert s.db.bookings[todo[0].0].(payment := Refunded, amountPaid := todo[0].1)
        == s.db.bookings[todo[0].0].(payment := Refunded);
  }

  /** The refunds sent to the provider for a list. */
  function RefundsFor(e: EventId, todo: seq<(BookingId, int)>): seq<Refund> {
    seq(|todo|, i requires 0 <= i < |todo| => Refund(todo[i].0, e, todo[i].1, todo[i].1, WholeEvent))
  }

  lemma RefundsForFirst(e: EventId, todo: seq<(BookingId, int)>)
    requires todo != []
    ensures RefundsFor(e, todo) == [Refund(todo[0].0, e, todo[0].1, todo[0].1, WholeEvent)] + RefundsFor(e, todo[1..])
  {
  }

  /** Exactly the listed rows are marked, but for the failed updates. */
  predicate MarkedRows(rows: seq<Booking>, rows': seq<Booking>, unmarked: set<BookingId>, todo: seq<(BookingId, int)>) {
    && |rows'| == |rows|
    && (forall b :: 0 <= b < |rows| ==>
          rows'[b] == if Listed(todo, b) && b !in unmarked then rows[b].(payment := Refunded) else rows[b])
  }

  lemma MarkedFirst(
    rows: seq<Booking>, rows1: seq<Booking>, rows2: seq<Booking>, unmarked: set<BookingId>, todo: seq<(BookingId, int)>)
    requires todo != [] && todo[0].0 < |rows|
    requires var b := todo[0].0;
             rows1 == if b in unmarked then rows else rows[b := rows[b].(payment := Refunded)]
    requires MarkedRows(rows1, rows2, unmarked, todo[1..])
    ensures MarkedRows(rows, rows2, unmarked, todo)
  {
    ListedSplit(todo);
    hide Listed;
  }

  /** Everything listed is refunded, and everything but the failed updates is marked. */
  lemma {:induction false} RefundEachRows(s: Store, unmarked: set<BookingId>, e: EventId, todo: seq<(BookingId, int)>)
    requires TodoOk(s.db, e, todo)
    ensures var s' := RefundEach(s, unmarked, e, todo);
            && s' == s.(db := s.db.(bookings := s'.db.bookings), refunds := s.refunds + RefundsFor(e, todo))
            && MarkedRows(s.db.bookings, s'.db.bookings, unmarked, todo)
    decreases |todo|
  {
    if todo == [] {
      assert s.refunds + [] == s.refunds;
    } else {
      var s1 := RefundedFirst(s, unmarked, e, todo);
      FirstStays(s, unmarked, e, todo);
      RefundEachRows(s1, unmarked, e, todo[1..]);
      assert todo[0] in todo && todo[0].0 < |s.db.bookings|;
      MarkedFirst(s.db.bookings, s1.db.bookings, RefundEach(s, unmarked, e, todo).db.bookings, unmarked, todo);
      RefundsForFirst(e, todo);
      hide MarkedRows, RefundedFirst, TodoOk, RefundsFor;
      assert s1.refunds + RefundsFor(e, todo[1..]) == s.refunds + RefundsFor(e, todo);
    }
  }

  lemma {:induction false} RefundEachSums(s: Store, e: EventId, todo: seq<(BookingId, int)>)
    requires e in s.db.events && TodoOk(s.db, e, todo)
    ensures var s' := RefundEach(s, {}, e, todo);
            Sum(s'.refunds, RefundedIn(e)) - Sum(s.refunds, RefundedIn(e))
            == Sum(s.db.bookings, PaidIn(e)) - Sum(s'.db.bookings, PaidIn(e))
    decreases |todo|
  {
    if todo != [] {
      var s1, b := RefundedFirst(s, {}, e, todo), todo[0].0;
      FirstRefund(s, e, todo);
      RefundEachSums(s1, e, todo[1..]);
      SumAppend(s.refunds, s1.refunds[|s.refunds|], RefundedIn(e));
      SumUpdate(s.db.bookings, b, s1.db.bookings[b], PaidIn(e));
    }
  }

  lemma ListedSplit(todo: seq<(BookingId, int)>)
    requires todo != []
    ensures forall b :: Listed(todo, b) <==> b == todo[0].0 || Listed(todo[1..], b)
  {
    forall b: BookingId
      ensures Listed(todo, b) <==> b == todo[0].0 || Listed(todo[1..], b)
    {
      if Listed(todo[1..], b) {
        var i :| 0 <= i < |todo[1..]| && todo[1..][i].0 == b;
        assert todo[i + 1].0 == b;
      }
      if Listed(todo, b) && b != todo[0].0 {
        var i :| 0 <= i < |todo| && todo[i].0 == b;
        assert todo[1..][i - 1].0 == b;
      }
    }
  }

  /** Paid, and among the bookings of its event that one listing returns. */
  predicate Refundable(s: Store, e: EventId, b: BookingId)
    requires b < |s.db.bookings|
  {
    s.db.bookings[b].event == e && s.db.bookings[b].payment == Paid && CountOf(s.db.bookings[b + 1..], e) < 1000
  }

  function TodoOf(s: Store, e: EventId): seq<(BookingId, int)> {
    PaidAmong(s.db.bookings, ListByEvent(s.db.bookings, e, LIST_LIMIT))
  }

  lemma TodoIsRefundable(s: Store, e: EventId, b: BookingId)
    requires b < |s.db.bookings|
    ensures TodoOk(s.db, e, TodoOf(s, e))
    ensures Listed(TodoOf(s, e), b) <==> Refundable(s, e, b)
  {
    var ids := ListByEvent(s.db.bookings, e, LIST_LIMIT);
    PaidAmongOk(s.db, e, ids);
    if s.db.bookings[b].event == e {
      ListedIfRecent(s.db.bookings, e, LIST_LIMIT, b);
    }
    if Listed(TodoOf(s, e), b) {
      var i :| 0 <= i < |TodoOf(s, e)| && TodoOf(s, e)[i].0 == b;
      assert TodoOf(s, e)[i] in TodoOf(s, e);
    }
    if Refundable(s, e, b) {
      var i :| 0 <= i < |TodoOf(s, e)| && TodoOf(s, e)[i] == (b, s.db.bookings[b].amountPaid);
    }
  }

  /**
   Whatever updates fail, refunding an event sends a refund of the amount paid for exactly its recent paid bookings,
   and marks those whose update does not fail; no other booking, seat, token or charge changes.
   */
  lemma EventRefundIsExact(s: Store, failing: Failing, unmarked: set<BookingId>, e: EventId)
    requires e in s.db.events && ListBookings !in failing && GetEvent !in failing
    ensures var s' := EventRefundCall(s, failing, unmarked, e).0;
            && s' == s.(db := s.db.(bookings := s'.db.bookings), refunds := s.refunds + RefundsFor(e, TodoOf(s, e)))
            && |s'.db.bookings| == |s.db.bookings|
            && (forall b :: 0 <= b < |s.db.bookings| ==>
                  && (Listed(TodoOf(s, e), b) <==> Refundable(s, e, b))
                  && s'.db.bookings[b] == if Refundable(s, e, b)
                     && b !in unmarked then s.db.bookings[b].(payment := Refunded)
                                          else s.db.bookings[b])
  {
    PaidAmongOk(s.db, e, ListByEvent(s.db.bookings, e, LIST_LIMIT));
    RefundEachRows(s, unmarked, e, TodoOf(s, e));
    forall b | 0 <= b < |s.db.bookings|
      ensures Listed(TodoOf(s, e), b) <==> Refundable(s, e, b)
    {
      TodoIsRefundable(s, e, b);
    }
  }

  /** The sum refunded is what the bookings would cease to be paid if every update went through. */
  lemma EventRefundsPaidAmounts(s: Store, failing: Failing, unmarked: set<BookingId>, e: EventId)
    requires e in s.db.events && ListBookings !in failing && GetEvent !in failing
    ensures var s', full := EventRefundCall(s, failing, unmarked, e).0, EventRefundCall(s, {}, {}, e).0;
            Sum(s'.refunds, RefundedIn(e)) - Sum(s.refunds, RefundedIn(e))
            == Sum(s.db.bookings, PaidIn(e)) - Sum(full.db.bookings, PaidIn(e))
  {
    PaidAmongOk(s.db, e, ListByEvent(s.db.bookings, e, LIST_LIMIT));
    RefundEachSums(s, e, TodoOf(s, e));
    RefundEachRows(s, unmarked, e, TodoOf(s, e));
    RefundEachRows(s, {}, e, TodoOf(s, e));
  }

  /** No booking of the event is paid any more. */
  predicate NonePaid(s: Store, e: EventId) {
    forall b :: 0 <= b < |s.db.bookings| && s.db.bookings[b].event == e ==> s.db.bookings[b].payment != Paid
  }

  predicate PaidFor(s: Store, e: EventId, b: nat) {
    b < |s.db.bookings| && s.db.bookings[b].event == e && s.db.bookings[b].payment == Paid
  }

  /**
   The refund leaves nobody paid exactly when no update fails and every paid booking has fewer than 1000 newer ones in
   its event.
   */
  lemma LeavesNonePaidIff(s: Store, failing: Failing, unmarked: set<BookingId>, e: EventId)
    requires e in s.db.events && ListBookings !in failing && GetEvent !in failing
    ensures NonePaid(EventRefundCall(s, failing, unmarked, e).0, e)
            <==> forall b :: 0 <= b < |s.db.bookings| && PaidFor(s, e, b) ==>
                   CountOf(s.db.bookings[b + 1..], e) < 1000 && b !in unmarked
  {
    EventRefundIsExact(s, failing, unmarked, e);
    var s' := EventRefundCall(s, failing, unmarked, e).0;
    if NonePaid(s', e) {
      forall b | 0 <= b < |s.db.bookings| && PaidFor(s, e, b)
        ensures CountOf(s.db.bookings[b + 1..], e) < 1000 && b !in unmarked
      {
        assert s'.db.bookings[b].payment != Paid;
      }
    } else {
      var b :| 0 <= b < |s'.db.bookings| && s'.db.bookings[b].event == e && s'.db.bookings[b].payment == Paid;
      assert PaidFor(s, e, b);
    }
  }

  lemma {:induction false} CountSuffix(bookings: seq<Booking>, e: EventId, b: nat)
    requires b <= |bookings|
    ensures CountOf(bookings[b..], e) <= CountOf(bookings, e)
  {
    if b < |bookings| {
      var last := |bookings| - 1;
      CountSuffix(bookings[..last], e, b);
      assert bookings[b..][..last - b] == bookings[..last][b..];
    } else {
      SumNonNegative(bookings, OneIn(e));
      assert bookings[b..] == [];
    }
  }

  /** On an event with at most 1000 bookings nobody stays paid but by a failed update. */
  lemma SmallEventLeavesNonePaid(s: Store, failing: Failing, unmarked: set<BookingId>, e: EventId)
    requires e in s.db.events && ListBookings !in failing && GetEvent !in failing
             && CountOf(s.db.bookings, e) <= 1000
    ensures NonePaid(EventRefundCall(s, failing, unmarked, e).0, e)
            <==> forall b :: 0 <= b < |s.db.bookings| && PaidFor(s, e, b) ==> b !in unmarked
  {
    forall b | 0 <= b < |s.db.bookings| && s.db.bookings[b].event == e
      ensures CountOf(s.db.bookings[b + 1..], e) < 1000
    {
      CountSuffix(s.db.bookings, e, b);
      assert s.db.bookings[b..] == [s.db.bookings[b]] + s.db.bookings[b + 1..];
      CountFirst(s.db.bookings[b], s.db.bookings[b + 1..], e);
    }
    LeavesNonePaidIff(s, failing, unmarked, e);
  }

  lemma {:induction false} CountFirst(b: Booking, rest: seq<Booking>, e: EventId)
    ensures CountOf([b] + rest, e) == OneIn(e)(b) + CountOf(rest, e)
  {
    if rest == [] {
      assert [b] + rest == [b] && [b][..0] == [];
    } else {
      var last := |rest| - 1;
      CountFirst(b, rest[..last], e);
      assert ([b] + rest)[..last + 1] == [b] + rest[..last];
    }
  }

  /** After a refund of the event, what can still be refunded is exactly what was refunded and not marked. */
  lemma RefundableAgain(s: Store, failing: Failing, unmarked: set<BookingId>, e: EventId, b: BookingId)
    requires e in s.db.events && ListBookings !in failing && GetEvent !in failing && b < |s.db.bookings|
    ensures var s' := EventRefundCall(s, failing, unmarked, e).0;
            b < |s'.db.bookings| && (Refundable(s', e, b) <==> Refundable(s, e, b) && b in unmarked)
  {
    EventRefundIsExact(s, failing, unmarked, e);
    var s' := EventRefundCall(s, failing, unmarked, e).0;
    SumCongruent(s.db.bookings[b + 1..], s'.db.bookings[b + 1..], OneIn(e), OneIn(e));
  }

  /** A second refund of the event refunds a booking again exactly when the first one failed to mark it. */
  lemma EventRefundedAgainIff(s: Store, failing: Failing, unmarked: set<BookingId>, e: EventId, b: BookingId)
    requires e in s.db.events && ListBookings !in failing && GetEvent !in failing && b < |s.db.bookings|
    ensures var s' := EventRefundCall(s, failing, unmarked, e).0;
            && |s'.db.bookings| == |s.db.bookings|
            && EventRefundCall(s', {}, {}, e).0.refunds == s'.refunds + RefundsFor(e, TodoOf(s', e))
            && (Listed(TodoOf(s', e), b) <==> Listed(TodoOf(s, e), b) && b in unmarked)
  {
    EventRefundIsExact(s, failing, unmarked, e);
    EventRefundIsExact(EventRefundCall(s, failing, unmarked, e).0, {}, {}, e);
    RefundableAgain(s, failing, unmarked, e, b);
  }

  /** So a second refund changes nothing exactly when every listed booking was marked. */
  lemma EventRefundIsIdempotentIff(s: Store, failing: Failing, unmarked: set<BookingId>, e: EventId)
    requires e in s.db.events && ListBookings !in failing && GetEvent !in failing
    ensures var s' := EventRefundCall(s, failing, unmarked, e).0;
            EventRefundCall(s', {}, {}, e).0 == s' <==>
            forall b :: 0 <= b < |s.db.bookings| && Refundable(s, e, b) ==> b !in unmarked
  {
    var s' := EventRefundCall(s, failing, unmarked, e).0;
    EventRefundIsExact(s, failing, unmarked, e);
    EventRefundIsExact(s', {}, {}, e);
    forall b | 0 <= b < |s.db.bookings|
      ensures Listed(TodoOf(s', e), b) <==> Refundable(s, e, b) && b in unmarked
    {
      RefundableAgain(s, failing, unmarked, e, b);
    }
    PaidAmongOk(s'.db, e, ListByEvent(s'.db.bookings, e, LIST_LIMIT));
    if TodoOf(s', e) == [] {
      assert s'.refunds + RefundsFor(e, []) == s'.refunds;
    } else {
      assert Listed(TodoOf(s', e), TodoOf(s', e)[0].0);
      assert |EventRefundCall(s', {}, {}, e).0.refunds| > |s'.refunds|;
    }
  }

  // ----- The limit at work -----

  /** An event with `n` bookings, all booked and paid. */
  function AllPaid(n: nat): Store {
    Store(Tables({UserRow(0)}, map[0 := Event(n, n, 10, 1, 5, 100, Upcoming)],
                 seq(n, _ => Booking(UserRow(0), 0, Booked, ["A"], None, 10, Paid)), [], [], 0), map[0 := 0], [], [])
  }

  lemma {:induction false} CountAll(bookings: seq<Booking>, e: EventId)
    requires forall i :: 0 <= i < |bookings| ==> bookings[i].event == e
    ensures CountOf(bookings, e) == |bookings|
  {
    if bookings != [] {
      CountAll(bookings[..|bookings| - 1], e);
    }
  }

  /** Of 1001 paid bookings the oldest stays paid, and of 1000 none does. */
  lemma OldestOfTooManyStaysPaid()
    ensures var bookings := EventRefundCall(AllPaid(1001), {}, {}, 0).0.db.bookings;
            |bookings| == 1001 && bookings[0].payment == Paid
    ensures NonePaid(EventRefundCall(AllPaid(1000), {}, {}, 0).0, 0)
  {
    var s := AllPaid(1001);
    CountAll(s.db.bookings[1..], 0);
    EventRefundIsExact(s, {}, {}, 0);
    CountAll(AllPaid(1000).db.bookings, 0);
    SmallEventLeavesNonePaid(AllPaid(1000), {}, {}, 0);
  }
}
