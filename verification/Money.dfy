/**
 Conservation of money over sequential runs in which no payment or refund stops half way: what the
 provider charged and refunded against what the bookings table says.
 */
module Money {
  import opened Collections
  import opened Model
  import opened StoreCalls
  import opened Protocol
  import opened ServiceCalls
  import opened ServiceRuns

  // ----- One booking -----

  function ChargeOf(b: BookingId): Charge -> bool {
    (c: Charge) => c.booking == b
  }

  function RefundOf(b: BookingId): Refund -> bool {
    (r: Refund) => r.booking == b
  }

  function Charges(s: Store, b: BookingId): seq<Charge> {
    Filter(s.charges, ChargeOf(b))
  }

  function Refunds(s: Store, b: BookingId): seq<Refund> {
    Filter(s.refunds, RefundOf(b))
  }

  /** Charged and refunded at most once, as the payment columns say. */
  predicate BookingMoney(s: Store, b: BookingId)
    requires b < |s.db.bookings|
  {
    var row, cs, rs := s.db.bookings[b], Charges(s, b), Refunds(s, b);
    && row.event in s.db.events
    && (row.status == Pending ==> row.payment == Unpaid)
    && (row.status == Booked ==> row.payment != Unpaid)
    && (row.payment == Unpaid ==> cs == [] && rs == [])
    && (row.payment == Paid ==> |cs| == 1 && cs[0].amount == row.amountPaid && rs == [])
    && (row.payment == Refunded ==>
          && |cs| == 1 && |rs| == 1
          && rs[0].amount == row.amountPaid
          && rs[0].paid == cs[0].amount
          && rs[0].amount == (if rs[0].kind == Individual
                              then IndividualRefund(cs[0].amount, s.db.events[row.event].fee)
                              else cs[0].amount))
    && (cs != [] ==> cs[0].event == row.event && cs[0].amount >= s.db.events[row.event].price * SeatCount(row.seats))
  }

  predicate MoneyOk(s: Store) {
    && (forall b :: 0 <= b < |s.db.bookings| ==> BookingMoney(s, b))
    && (forall i :: 0 <= i < |s.charges| ==>
       s.charges[i].booking < |s.db.bookings| && s.charges[i].event in s.db.events)
    && (forall i :: 0 <= i < |s.refunds| ==>
       s.refunds[i].booking < |s.db.bookings| && s.refunds[i].event in s.db.events)
  }

  // ----- One event -----

  function ChargedIn(e: EventId): Charge -> int {
    (c: Charge) => if c.event == e then c.amount else 0
  }

  function RefundedIn(e: EventId): Refund -> int {
    (r: Refund) => if r.event == e then r.amount else 0
  }

  function PaidIn(e: EventId): Booking -> int {
    (b: Booking) => if b.event == e && b.payment == Paid then b.amountPaid else 0
  }

  function Min(a: int, b: int): int {
    if a < b then a else b
  }

  /** What an individual refund keeps back. */
  function KeptIn(e: EventId, fee: int): Refund -> int {
    (r: Refund) => if r.event == e && r.kind == Individual then Min(fee, r.paid) else 0
  }

  /** Charged minus refunded is what is still paid plus the fees kept. */
  predicate Balanced(s: Store, e: EventId)
    requires e in s.db.events
  {
    Sum(s.charges, ChargedIn(e)) - Sum(s.refunds, RefundedIn(e))
    == Sum(s.db.bookings, PaidIn(e)) + Sum(s.refunds, KeptIn(e, s.db.events[e].fee))
  }

  predicate AllBalanced(s: Store) {
    forall e :: e in s.db.events ==> Balanced(s, e)
  }

  predicate SamePrices(before: map<EventId, Event>, after: map<EventId, Event>) {
    forall e :: e in before ==> e in after && after[e].price == before[e].price && after[e].fee == before[e].fee
  }

  // ----- Calls that move no money -----

  predicate NoMoney(s: Store, s': Store) {
    && s'.charges == s.charges && s'.refunds == s.refunds
    && SamePrices(s.db.events, s'.db.events)
    && |s.db.bookings| <= |s'.db.bookings|
    && (forall b :: 0 <= b < |s.db.bookings| ==>
          var x, x' := s.db.bookings[b], s'.db.bookings[b];
          x' == x || x' == x.(status := Cancelled))
    && (forall b :: |s.db.bookings| <= b < |s'.db.bookings| ==>
          && s'.db.bookings[b].status != Booked
          && s'.db.bookings[b].payment == Unpaid
          && s'.db.bookings[b].event in s'.db.events)
  }

  lemma {:induction false} NothingFor<T>(s: seq<T>, p: T -> bool)
    requires forall i :: 0 <= i < |s| ==> !p(s[i])
    ensures Filter(s, p) == []
  {
    if s != [] {
      NothingFor(s[..|s| - 1], p);
    }
  }

  lemma NoMoneyKeepsBookings(s: Store, s': Store)
    requires MoneyOk(s) && NoMoney(s, s')
    ensures MoneyOk(s')
  {
    forall b | 0 <= b < |s'.db.bookings|
      ensures BookingMoney(s', b)
    {
      if b < |s.db.bookings| {
        assert BookingMoney(s, b);
      } else {
        NothingFor(s.charges, ChargeOf(b));
        NothingFor(s.refunds, RefundOf(b));
      }
    }
  }

  lemma NoMoneyKeepsBalance(s: Store, s': Store)
    requires MoneyOk(s) && AllBalanced(s) && NoMoney(s, s')
    ensures AllBalanced(s')
  {
    forall e | e in s'.db.events
      ensures Balanced(s', e)
    {
      SumTail(s.db.bookings, s'.db.bookings, PaidIn(e));
      if e in s.db.events {
        assert Balanced(s, e);
      } else {
        NothingYet(s, e, s'.db.events[e].fee);
      }
    }
  }

  lemma NothingYet(s: Store, e: EventId, fee: int)
    requires MoneyOk(s) && e !in s.db.events
    ensures Sum(s.charges, ChargedIn(e)) == 0 && Sum(s.refunds, RefundedIn(e)) == 0
    ensures Sum(s.refunds, KeptIn(e, fee)) == 0 && Sum(s.db.bookings, PaidIn(e)) == 0
  {
    forall b | 0 <= b < |s.db.bookings|
      ensures PaidIn(e)(s.db.bookings[b]) == 0
    {
      assert BookingMoney(s, b);
    }
    SumZero(s.charges, ChargedIn(e));
    SumZero(s.refunds, RefundedIn(e));
    SumZero(s.refunds, KeptIn(e, fee));
    SumZero(s.db.bookings, PaidIn(e));
  }

  lemma ReserveMovesNothing(s: Store, failing: Failing, e: EventId, u: Uuid, key: Option<string>, seats: seq<Label>)
    ensures NoMoney(s, ReserveAndInsert(s, failing, e, u, key, seats).0)
  {
  }

  lemma ExpireMovesNothing(s: Store, e: EventId)
    ensures NoMoney(s, s) && NoMoney(s, s.(db := SetEventStatus(s.db, e, Expired)))
  {
  }

  lemma CreateMovesNothing(
    s: Store, failing: Failing, now: int, e: EventId, u: Uuid, key: Option<string>, seats: seq<Label>)
    ensures NoMoney(s, CreateCall(s, failing, now, e, u, key, seats).0)
  {
    hide NoMoney;
    ReserveMovesNothing(s, failing, e, u, key, seats);
    ExpireMovesNothing(s, e);
    assert CreateCall(s, failing, now, e, u, key, seats).0
        in {s, s.(db := SetEventStatus(s.db, e, Expired)), ReserveAndInsert(s, failing, e, u, key, seats).0};
  }

  lemma PromoteMovesNothing(s: Store, failing: Failing, e: EventId, seats: seq<Label>)
    ensures NoMoney(s, Promote(s, failing, e, seats).0)
  {
  }

  lemma CancelTxMovesNothing(s: Store, s': Store, b: BookingId)
    requires b < |s.db.bookings| && s' == s.(db := CancelTx(s.db, b).value.0, tokens := s'.tokens)
    ensures NoMoney(s, s')
  {
  }

  lemma InsertMovesNothing(s: Store, u: Uuid, e: EventId, seats: seq<Label>)
    requires InsertPending(s.db, u, e, None, seats).Some?
    ensures NoMoney(s, s.(db := InsertPending(s.db, u, e, None, seats).value))
  {
  }

  lemma NoMoneyTwice(s: Store, s': Store, s'': Store)
    requires NoMoney(s, s') && NoMoney(s', s'')
    ensures NoMoney(s, s'')
  {
  }

  lemma CancelMovesNothing(s: Store, failing: Failing, b: BookingId)
    ensures NoMoney(s, CancelCall(s, failing, b).0)
  {
    if b < |s.db.bookings| && CancelBooking !in failing {
      var row, s' := s.db.bookings[b], s.(db := CancelTx(s.db, b).value.0);
      var s'' := if Release in failing then s'
        else s'.(tokens := ReleaseTokens(s.tokens, row.event, SeatCount(row.seats)));
      CancelTxMovesNothing(s, s'', b);
      CancelTxMovesNothing(s, s', b);
      PromoteMovesNothing(s'', failing, row.event, row.seats);
      NoMoneyTwice(s, s'', Promote(s'', failing, row.event, row.seats).0);
    }
  }

  lemma TimeoutMovesNothing(s: Store, failing: Failing, b: BookingId, e: EventId, seats: seq<Label>)
    ensures NoMoney(s, TimeoutCall(s, failing, b, e, seats).0)
  {
    var s'' := TimeoutCall(s, failing, b, e, seats).0;
    if b < |s.db.bookings| && s.db.bookings[b].status == Pending {
      var s' := s.(db := CancelTx(s.db, b).value.0);
      CancelTxMovesNothing(s, s', b);
      if s'' != s && s'' != s' {
        InsertMovesNothing(s', NextActive(s'.db.waitlist, e).value.id, e, seats);
        NoMoneyTwice(s, s', s'');
      }
    }
  }

  // ----- Payments and refunds -----

  /** Other bookings' money is untouched by a transfer for `b`. */
  lemma OthersMoney(s: Store, s': Store, b: BookingId, x: BookingId)
    requires b < |s.db.bookings| && x < |s.db.bookings| && x != b && BookingMoney(s, x)
    requires |s'.db.bookings| == |s.db.bookings| && s'.db.bookings[x] == s.db.bookings[x]
    requires SamePrices(s.db.events, s'.db.events)
    requires Charges(s', x) == Charges(s, x) && Refunds(s', x) == Refunds(s, x)
    ensures BookingMoney(s', x)
  {
  }

  lemma PayKeepsMoney(s: Store, b: BookingId, amount: int)
    requires MoneyOk(s)
    ensures MoneyOk(PayCall(s, {}, b, amount).0)
  {
    var (s', reply) := PayCall(s, {}, b, amount);
    if reply.PayDone? {
      var charge := Charge(b, s.db.bookings[b].event, amount);
      assert s'.charges == s.charges + [charge];
      forall x | 0 <= x < |s'.db.bookings|
        ensures BookingMoney(s', x)
      {
        assert BookingMoney(s, x);
        FilterAppend(s.charges, charge, ChargeOf(x));
        if x != b {
          OthersMoney(s, s', b, x);
        }
      }
    }
  }

  lemma ChargeBalances(s: Store, s': Store, b: BookingId, amount: int, e: EventId)
    requires b < |s.db.bookings| && s.db.bookings[b].payment != Paid && e in s.db.events && Balanced(s, e)
    requires s'.charges == s.charges + [Charge(b, s.db.bookings[b].event, amount)] && s'.refunds == s.refunds
    requires e in s'.db.events && s'.db.events[e].fee == s.db.events[e].fee
    requires |s'.db.bookings| == |s.db.bookings| && s'.db.bookings == s.db.bookings[b := s'.db.bookings[b]]
    requires s'.db.bookings[b].event == s.db.bookings[b].event
    requires s'.db.bookings[b].payment == Paid && s'.db.bookings[b].amountPaid == amount
    ensures Balanced(s', e)
  {
    SumAppend(s.charges, Charge(b, s.db.bookings[b].event, amount), ChargedIn(e));
    SumUpdate(s.db.bookings, b, s'.db.bookings[b], PaidIn(e));
  }

  lemma PayKeepsBalance(s: Store, b: BookingId, amount: int)
    requires MoneyOk(s) && AllBalanced(s)
    ensures AllBalanced(PayCall(s, {}, b, amount).0)
  {
    var (s', reply) := PayCall(s, {}, b, amount);
    if reply.PayDone? {
      assert BookingMoney(s, b);
      assert s'.db.bookings == s.db.bookings[b := s'.db.bookings[b]];
      hide MoneyOk, BookingMoney, Balanced;
      forall e | e in s'.db.events
        ensures Balanced(s', e)
      {
        assert Balanced(s, e);
        ChargeBalances(s, s', b, amount, e);
      }
    }
  }

  /** Refunding a paid booking once, individually or with its event. */
  function RefundStep(s: Store, b: BookingId, kind: RefundKind): Store
    requires b < |s.db.bookings| && s.db.bookings[b].event in s.db.events
  {
    var row := s.db.bookings[b];
    var amount := if kind == Individual then IndividualRefund(row.amountPaid, s.db.events[row.event].fee)
      else row.amountPaid;
    s.(refunds := s.refunds + [Refund(b, row.event, amount, row.amountPaid, kind)],
       db := s.db.(bookings := s.db.bookings[b := row.(payment := Refunded, amountPaid := amount)]))
  }

  lemma RefundKeepsMoney(s: Store, b: BookingId, kind: RefundKind)
    requires MoneyOk(s) && b < |s.db.bookings| && s.db.bookings[b].event in s.db.events
             && s.db.bookings[b].payment == Paid
    ensures MoneyOk(RefundStep(s, b, kind))
  {
    var s' := RefundStep(s, b, kind);
    var refund := s'.refunds[|s.refunds|];
    forall x | 0 <= x < |s'.db.bookings|
      ensures BookingMoney(s', x)
    {
      assert BookingMoney(s, x);
      FilterAppend(s.refunds, refund, RefundOf(x));
      if x != b {
        OthersMoney(s, s', b, x);
      }
    }
  }

  lemma RefundKeepsBalance(s: Store, b: BookingId, kind: RefundKind)
    requires MoneyOk(s) && AllBalanced(s)
    requires b < |s.db.bookings| && s.db.bookings[b].event in s.db.events && s.db.bookings[b].payment == Paid
    ensures AllBalanced(RefundStep(s, b, kind))
  {
    var s' := RefundStep(s, b, kind);
    var refund := s'.refunds[|s.refunds|];
    forall e | e in s'.db.events
      ensures Balanced(s', e)
    {
      assert Balanced(s, e);
      SumAppend(s.refunds, refund, RefundedIn(e));
      SumAppend(s.refunds, refund, KeptIn(e, s.db.events[e].fee));
      SumUpdate(s.db.bookings, b, s'.db.bookings[b], PaidIn(e));
    }
  }

  // ----- The refund of a whole event -----

  /** The listed bookings are distinct paid bookings of the event, with the amounts they paid. */
  predicate TodoOk(db: Tables, e: EventId, todo: seq<(BookingId, int)>) {
    && (forall i :: 0 <= i < |todo| ==>
          && todo[i].0 < |db.bookings|
          && db.bookings[todo[i].0].event == e
          && db.bookings[todo[i].0].payment == Paid
          && db.bookings[todo[i].0].amountPaid == todo[i].1)
    && forall i, j :: 0 <= i < j < |todo| ==> todo[i].0 != todo[j].0
  }

  lemma {:induction false} PaidAmongOk(db: Tables, e: EventId, ids: seq<BookingId>)
    requires forall i :: 0 <= i < |ids| ==> ids[i] < |db.bookings| && db.bookings[ids[i]].event == e
    requires forall i, j :: 0 <= i < j < |ids| ==> ids[i] != ids[j]
    ensures TodoOk(db, e, PaidAmong(db.bookings, ids))
    ensures forall x :: x in PaidAmong(db.bookings, ids) ==> x.0 in ids
    ensures forall b :: b in ids && db.bookings[b].payment == Paid ==>
              (b, db.bookings[b].amountPaid) in PaidAmong(db.bookings, ids)
  {
    if ids != [] {
      PaidAmongOk(db, e, ids[1..]);
      forall i | 0 <= i < |PaidAmong(db.bookings, ids[1..])|
        ensures PaidAmong(db.bookings, ids[1..])[i].0 != ids[0]
      {
        assert PaidAmong(db.bookings, ids[1..])[i] in PaidAmong(db.bookings, ids[1..]);
      }
      assert forall b :: b in ids ==> b == ids[0] || b in ids[1..];
    }
  }

  lemma FirstRefund(s: Store, e: EventId, todo: seq<(BookingId, int)>)
    requires todo != [] && e in s.db.events && TodoOk(s.db, e, todo)
    ensures RefundedFirst(s, {}, e, todo) == RefundStep(s, todo[0].0, WholeEvent)
    ensures TodoOk(RefundedFirst(s, {}, e, todo).db, e, todo[1..])
  {
  }

  lemma {:induction false} RefundEachKeepsMoney(s: Store, e: EventId, todo: seq<(BookingId, int)>)
    requires MoneyOk(s) && AllBalanced(s) && e in s.db.events && TodoOk(s.db, e, todo)
    ensures MoneyOk(RefundEach(s, {}, e, todo)) && AllBalanced(RefundEach(s, {}, e, todo))
    decreases |todo|
  {
    if todo != [] {
      FirstRefund(s, e, todo);
      RefundKeepsMoney(s, todo[0].0, WholeEvent);
      RefundKeepsBalance(s, todo[0].0, WholeEvent);
      RefundEachKeepsMoney(RefundedFirst(s, {}, e, todo), e, todo[1..]);
    }
  }

  // ----- Runs -----

  /** No store call fails between the provider's call and the updates that record it. */
  predicate WholePayments(r: Request) {
    && (r.Pay? ==> MarkPaid !in r.failing && Finalize !in r.failing)
    && (r.RefundOne? ==> MarkRefunded !in r.failing)
    && (r.RefundEvent? ==> r.unmarked == {})
  }

  lemma ServePayMoney(s: Store, failing: Failing, b: BookingId, amount: int)
    requires MoneyOk(s) && AllBalanced(s) && MarkPaid !in failing && Finalize !in failing
    ensures MoneyOk(PayCall(s, failing, b, amount).0) && AllBalanced(PayCall(s, failing, b, amount).0)
  {
    PayKeepsMoney(s, b, amount);
    PayKeepsBalance(s, b, amount);
    assert PayCall(s, failing, b, amount).0 in {s, PayCall(s, {}, b, amount).0};
  }

  lemma ServeRefundMoney(s: Store, failing: Failing, b: BookingId)
    requires MoneyOk(s) && AllBalanced(s) && MarkRefunded !in failing
    ensures MoneyOk(RefundCall(s, failing, b).0) && AllBalanced(RefundCall(s, failing, b).0)
  {
    if RefundCall(s, failing, b).1.PayDone? {
      assert RefundCall(s, failing, b).0 == RefundStep(s, b, Individual);
      RefundKeepsMoney(s, b, Individual);
      RefundKeepsBalance(s, b, Individual);
    }
  }

  lemma ServeEventRefundMoney(s: Store, failing: Failing, e: EventId)
    requires MoneyOk(s) && AllBalanced(s)
    ensures MoneyOk(EventRefundCall(s, failing, {}, e).0) && AllBalanced(EventRefundCall(s, failing, {}, e).0)
  {
    if e in s.db.events {
      var ids := ListByEvent(s.db.bookings, e, LIST_LIMIT);
      PaidAmongOk(s.db, e, ids);
      RefundEachKeepsMoney(s, e, PaidAmong(s.db.bookings, ids));
    }
  }

  lemma ServeKeepsMoney(s: Store, r: Request)
    requires MoneyOk(s) && AllBalanced(s) && WholePayments(r)
    ensures MoneyOk(Serve(s, r)) && AllBalanced(Serve(s, r))
  {
    match r
    case Pay(failing, b, amount) => ServePayMoney(s, failing, b, amount);
    case RefundOne(failing, b) => ServeRefundMoney(s, failing, b);
    case RefundEvent(failing, _, e) => ServeEventRefundMoney(s, failing, e);
    case _ =>
      MovesNothing(s, r);
      NoMoneyKeepsBookings(s, Serve(s, r));
      NoMoneyKeepsBalance(s, Serve(s, r));
  }

  lemma MovesNothing(s: Store, r: Request)
    requires !r.Pay? && !r.RefundOne? && !r.RefundEvent?
    ensures NoMoney(s, Serve(s, r))
  {
    match r
    case Create(failing, now, e, u, key, seats) => CreateMovesNothing(s, failing, now, e, u, key, seats);
    case Cancel(failing, b) => CancelMovesNothing(s, failing, b);
    case Timeout(failing, b, e, seats) => TimeoutMovesNothing(s, failing, b, e, seats);
    case _ =>
  }

  /**
   Over every sequential run of whole payments and refunds, each booking is charged and refunded at most once
   and charged at least its price, and each event's charges and refunds balance against its bookings.
   */
  lemma {:induction false} MoneyIsConserved(users: set<nat>, requests: seq<Request>)
    requires forall r :: r in requests ==> WholePayments(r)
    ensures MoneyOk(ServeAll(InitStore(users), requests)) && AllBalanced(ServeAll(InitStore(users), requests))
  {
    if requests != [] {
      var front, r := requests[..|requests| - 1], requests[|requests| - 1];
      MoneyIsConserved(users, front);
      assert r in requests && WholePayments(r);
      ServeKeepsMoney(ServeAll(InitStore(users), front), r);
    }
  }

  // ----- Charged or refunded twice -----

  /** A payment of `amount` for the booking goes through to the provider. */
  predicate Payable(s: Store, b: BookingId, amount: int) {
    && b < |s.db.bookings| && s.db.bookings[b].status == Pending
    && s.db.bookings[b].event in s.db.events
    && amount >= s.db.events[s.db.bookings[b].event].price * SeatCount(s.db.bookings[b].seats)
  }

  predicate ReadsFail(failing: Failing) {
    GetBooking in failing || GetEvent in failing
  }

  /**
   A payable booking is charged, whatever fails after the reads; paying again charges it again exactly when the first
   call failed to mark or to finalize it.
   */
  lemma ChargedAgainIff(s: Store, failing: Failing, again: Failing, b: BookingId, amount: int)
    requires Payable(s, b, amount) && !ReadsFail(failing) && !ReadsFail(again)
    ensures var charge := Charge(b, s.db.bookings[b].event, amount);
            var s1 := PayCall(s, failing, b, amount).0;
            && s1.charges == s.charges + [charge]
            && PayCall(s1, again, b, amount).0.charges
               == s1.charges + if MarkPaid in failing || Finalize in failing then [charge] else []
  {
    var s1 := PayCall(s, failing, b, amount).0;
    if MarkPaid in failing || Finalize in failing {
      assert Payable(s1, b, amount);
    }
  }

  /** A paid booking is refunded; asking again refunds it again exactly when the first call failed to mark it. */
  lemma RefundedAgainIff(s: Store, failing: Failing, again: Failing, b: BookingId)
    requires b < |s.db.bookings| && s.db.bookings[b].payment == Paid && s.db.bookings[b].event in s.db.events
    requires !ReadsFail(failing) && !ReadsFail(again)
    ensures var row := s.db.bookings[b];
            var refund := Refund(b, row.event, IndividualRefund(row.amountPaid, s.db.events[row.event].fee),
              row.amountPaid, Individual);
            var s1 := RefundCall(s, failing, b).0;
            && s1.refunds == s.refunds + [refund]
            && RefundCall(s1, again, b).0.refunds == s1.refunds + if MarkRefunded in failing then [refund] else []
  {
    var s1 := RefundCall(s, failing, b).0;
    if MarkRefunded in failing {
      assert s1.db == s.db;
    }
  }
}
