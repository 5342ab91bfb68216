/**
 Runs of whole service calls, one after the other. Each call is an interleaving in which one client runs
 alone, so every law of the interleaved protocol holds of these runs too.
 */
module ServiceRuns {
  import opened Collections
  import opened Model
  import opened StoreCalls
  import opened Protocol
  import opened ProtocolInvariant
  import opened ServiceCalls

  datatype Request =
    | Create(failing: Failing, now: int, e: EventId, u: Uuid, key: Option<string>, seats: seq<Label>)
    | Cancel(failing: Failing, b: BookingId)
    | Pay(failing: Failing, b: BookingId, amount: int)
    | Timeout(failing: Failing, b: BookingId, e: EventId, seats: seq<Label>)
    | RefundOne(failing: Failing, b: BookingId)
    | RefundEvent(failing: Failing, unmarked: set<BookingId>, e: EventId)
    | Join(failing: Failing, e: EventId, u: Uuid)
    | LeaveWaitlist(e: EventId, u: Uuid)
    | CancelEvent(e: EventId)
    | CreateEvent(e: EventId, labels: seq<Label>, price: int, fee: int, maxTickets: int, endTime: int)

  function Serve(s: Store, r: Request): Store {
    match r
    case Create(failing, now, e, u, key, seats) => CreateCall(s, failing, now, e, u, key, seats).0
    case Cancel(failing, b) => CancelCall(s, failing, b).0
    case Pay(failing, b, amount) => PayCall(s, failing, b, amount).0
    case Timeout(failing, b, e, seats) => TimeoutCall(s, failing, b, e, seats).0
    case RefundOne(failing, b) => RefundCall(s, failing, b).0
    case RefundEvent(failing, unmarked, e) => EventRefundCall(s, failing, unmarked, e).0
    case Join(failing, e, u) => JoinCall(s, failing, e, u).0
    case LeaveWaitlist(e, u) => OptOutCall(s, e, u)
    case CancelEvent(e) => CallOffCall(s, e)
    case CreateEvent(e, labels, price, fee, maxTickets, endTime) =>
      OpenEventStore(s, e, labels, price, fee, maxTickets, endTime)
  }

  function ServeAll(s: Store, requests: seq<Request>): Store {
    if requests == [] then s
    else Serve(ServeAll(s, requests[..|requests| - 1]), requests[|requests| - 1])
  }

  lemma {:induction false} ServeAllAppend(s: Store, first: seq<Request>, second: seq<Request>)
    ensures ServeAll(s, first + second) == ServeAll(ServeAll(s, first), second)
  {
    if second == [] {
      assert first + second == first;
    } else {
      var front := second[..|second| - 1];
      assert (first + second)[..|first + second| - 1] == first + front;
      ServeAllAppend(s, first, front);
    }
  }

  function InitStore(users: set<nat>): Store {
    Init(users).store
  }

  // ----- One client running alone -----

  predicate CallOk(c: Client, failing: Failing, unmarked: set<BookingId>) {
    match c
    case CreateGetEvent(_, _, _, _) => GetEvent !in failing
    case CreateExpire(_) => ExpireEvent !in failing
    case CreateGetKey(_, _, _, _) => GetKey !in failing
    case CreateReserve(_, _, _, _) => Reserve !in failing
    case CreateInsert(_, _, _, _) => InsertBooking !in failing
    case JoinMax(_, _) => MaxActive !in failing
    case JoinInsert(_, _, _) => InsertWaiting !in failing
    case CancelBegin(_) => CancelBooking !in failing
    case CancelRelease(_, _, _) => Release !in failing
    case CancelNext(_, _) => LookupAfterRelease !in failing && FindNext !in failing
    case CancelPromote(_, _, _, _) => InsertPromoted !in failing
    case CancelRemove(_) => RemoveWaiting !in failing
    case PayRead(_, _) => GetBooking !in failing && GetEvent !in failing
    case PayMark(_, _, _) => MarkPaid !in failing
    case PayFinalize(_, _, _) => Finalize !in failing
    case TimeoutRead(_, _, _) => GetBooking !in failing
    case TimeoutCancel(_, _, _) => CancelBooking !in failing
    case TimeoutNext(_, _, _) => GetEvent !in failing && FindNext !in failing
    case TimeoutPromote(_, _, _, _) => InsertPromoted !in failing
    case RefundRead(_) => GetBooking !in failing && GetEvent !in failing
    case RefundMark(_, _) => MarkRefunded !in failing
    case EventRefundList(_) => ListBookings !in failing && GetEvent !in failing
    case EventRefundMark(_, todo) => todo != [] && todo[0].0 !in unmarked
    case _ => true
  }

  /** The row a lone client is given when it asks for the next waiting user. */
  function PickFor(s: Sys, c: Client): Entry {
    var next := if c.CancelNext? || c.TimeoutNext? then NextActive(s.store.db.waitlist, c.e) else None;
    if next.Some? then next.value else Entry(WaitlistRow(0), 0, WaitlistRow(0), 0, true)
  }

  /** The action in which client `i` makes its next store call. */
  function NextAction(i: nat, failing: Failing, unmarked: set<BookingId>, now: int): Sys -> Action {
    (s: Sys) =>
      if i < |s.clients|
      then Go(i, CallOk(s.clients[i], failing, unmarked), now, PickFor(s, s.clients[i]))
      else Crash(i)
  }

  function TryStep(s: Sys, a: Action): Sys {
    if Aligned(s) then Step(s, a) else s
  }

  lemma {:induction false} RunIsFold(s: Sys, actions: seq<Action>)
    requires Aligned(s)
    ensures Run(s, actions) == Fold(TryStep, s, actions)
  {
    if actions != [] {
      RunIsFold(s, actions[..|actions| - 1]);
    }
  }

  /** One store call of client `i`. */
  function LoneStep(s: Sys, i: nat, failing: Failing, unmarked: set<BookingId>, now: int): Sys {
    if Aligned(s) && i < |s.clients|
    then Step(s, Go(i, CallOk(s.clients[i], failing, unmarked), now, PickFor(s, s.clients[i])))
    else s
  }

  function Alone(i: nat, failing: Failing, unmarked: set<BookingId>, now: int): Sys -> Sys {
    (s: Sys) => LoneStep(s, i, failing, unmarked, now)
  }

  /** Client `i` runs alone for `calls` store calls. */
  function Drive(s: Sys, i: nat, failing: Failing, unmarked: set<BookingId>, now: int, calls: nat): Sys {
    Iterate(Alone(i, failing, unmarked, now), s, calls)
  }

  /** The actions of that run. */
  function Script(s: Sys, i: nat, failing: Failing, unmarked: set<BookingId>, now: int, calls: nat): seq<Action> {
    Unroll(TryStep, NextAction(i, failing, unmarked, now), s, calls)
  }

  lemma AloneIsStep(s: Sys, i: nat, failing: Failing, unmarked: set<BookingId>, now: int)
    ensures Alone(i, failing, unmarked, now)(s) == TryStep(s, NextAction(i, failing, unmarked, now)(s))
  {
    if i < |s.clients| {
      var a := Go(i, CallOk(s.clients[i], failing, unmarked), now, PickFor(s, s.clients[i]));
      assert NextAction(i, failing, unmarked, now)(s) == a;
    } else {
      assert NextAction(i, failing, unmarked, now)(s) == Crash(i);
    }
  }

  lemma DriveIsRun(s: Sys, i: nat, failing: Failing, unmarked: set<BookingId>, now: int, calls: nat)
    requires Aligned(s)
    ensures Run(s, Script(s, i, failing, unmarked, now, calls)) == Drive(s, i, failing, unmarked, now, calls)
  {
    RunIsFold(s, Script(s, i, failing, unmarked, now, calls));
    forall x
      ensures Alone(i, failing, unmarked, now)(x) == TryStep(x, NextAction(i, failing, unmarked, now)(x))
    {
      AloneIsStep(x, i, failing, unmarked, now);
    }
    IterateIsFold(TryStep, NextAction(i, failing, unmarked, now), Alone(i, failing, unmarked, now), s, calls);
  }

  lemma StoppedStays(s: Sys, i: nat, failing: Failing, unmarked: set<BookingId>, now: int)
    requires Aligned(s) && i < |s.clients| && !Running(s.clients[i])
    ensures LoneStep(s, i, failing, unmarked, now) == s
  {
  }

  lemma DriveNext(s: Sys, s': Sys, i: nat, failing: Failing, unmarked: set<BookingId>, now: int, calls: nat)
    requires LoneStep(s, i, failing, unmarked, now) == s' && calls >= 1
    ensures Drive(s, i, failing, unmarked, now, calls) == Drive(s', i, failing, unmarked, now, calls - 1)
  {
    assert Alone(i, failing, unmarked, now)(s) == LoneStep(s, i, failing, unmarked, now);
    IterateNext(Alone(i, failing, unmarked, now), s, calls);
  }

  /** The last store call of a client. */
  lemma DriveLast(s: Sys, s': Sys, i: nat, failing: Failing, unmarked: set<BookingId>, now: int, calls: nat)
    requires LoneStep(s, i, failing, unmarked, now) == s' && calls >= 1
    requires Aligned(s') && i < |s'.clients| && !Running(s'.clients[i])
    ensures Drive(s, i, failing, unmarked, now, calls) == s'
  {
    StoppedStays(s', i, failing, unmarked, now);
    assert Alone(i, failing, unmarked, now)(s) == LoneStep(s, i, failing, unmarked, now);
    assert Alone(i, failing, unmarked, now)(s') == LoneStep(s', i, failing, unmarked, now);
    IterateLast(Alone(i, failing, unmarked, now), s, calls);
  }

  // ----- Create -----

  lemma DriveJoinInsert(s: Sys, i: nat, failing: Failing, now: int, calls: nat)
    requires Aligned(s) && i < |s.clients| && s.clients[i].JoinInsert? && calls >= 1
    ensures var c := s.clients[i];
            var inserted := InsertEntry(s.store.db, c.e, c.u, c.position);
            Drive(s, i, failing, {}, now, calls).store
            == if InsertWaiting in failing || inserted.None? then s.store else s.store.(db := inserted.value)
  {
    DriveLast(s, LoneStep(s, i, failing, {}, now), i, failing, {}, now, calls);
  }

  lemma DriveJoin(s: Sys, i: nat, failing: Failing, now: int, calls: nat)
    requires Aligned(s) && i < |s.clients| && s.clients[i].JoinMax? && calls >= 2
    ensures Drive(s, i, failing, {}, now, calls).store == JoinCall(s.store, failing, s.clients[i].e, s.clients[i].u).0
  {
    if MaxActive in failing {
      DriveLast(s, LoneStep(s, i, failing, {}, now), i, failing, {}, now, calls);
    } else {
      DriveJoinInsert(LoneStep(s, i, failing, {}, now), i, failing, now, calls - 1);
    }
  }

  lemma DriveInsert(s: Sys, i: nat, failing: Failing, now: int, calls: nat)
    requires Aligned(s) && i < |s.clients| && s.clients[i].CreateInsert? && calls >= 1
    ensures var c := s.clients[i];
            var inserted := InsertPending(s.store.db, c.u, c.e, c.key, c.seats);
            Drive(s, i, failing, {}, now, calls).store
            == if InsertBooking in failing || inserted.None? then s.store else s.store.(db := inserted.value)
  {
    DriveLast(s, LoneStep(s, i, failing, {}, now), i, failing, {}, now, calls);
  }

  lemma DriveReserve(s: Sys, i: nat, failing: Failing, now: int, calls: nat)
    requires Aligned(s) && i < |s.clients| && s.clients[i].CreateReserve? && calls >= 3
    ensures var c := s.clients[i];
            Drive(s, i, failing, {}, now, calls).store == ReserveAndInsert(s.store, failing, c.e, c.u, c.key, c.seats).0
  {
    var c := s.clients[i];
    if Reserve in failing {
      DriveLast(s, LoneStep(s, i, failing, {}, now), i, failing, {}, now, calls);
    } else if ReserveTokens(s.store.tokens, c.e, |c.seats|).0 {
      DriveInsert(LoneStep(s, i, failing, {}, now), i, failing, now, calls - 1);
    } else {
      DriveJoin(LoneStep(s, i, failing, {}, now), i, failing, now, calls - 1);
    }
  }

  lemma DriveGetKey(s: Sys, i: nat, failing: Failing, now: int, calls: nat)
    requires Aligned(s) && i < |s.clients| && s.clients[i].CreateGetKey? && s.clients[i].key.Some? && calls >= 4
    ensures var c := s.clients[i];
            var found := if GetKey !in failing then FindKey(s.store.db.bookings, c.key.value) else None;
            Drive(s, i, failing, {}, now, calls).store
            == if found.Some? then s.store else ReserveAndInsert(s.store, failing, c.e, c.u, c.key, c.seats).0
  {
    if GetKey !in failing && FindKey(s.store.db.bookings, s.clients[i].key.value).Some? {
      DriveLast(s, LoneStep(s, i, failing, {}, now), i, failing, {}, now, calls);
    } else {
      DriveReserve(LoneStep(s, i, failing, {}, now), i, failing, now, calls - 1);
    }
  }

  lemma DriveExpire(s: Sys, i: nat, failing: Failing, now: int, calls: nat)
    requires Aligned(s) && i < |s.clients| && s.clients[i].CreateExpire? && calls >= 1
    ensures Drive(s, i, failing, {}, now, calls).store
            == if ExpireEvent in failing then s.store
               else s.store.(db := SetEventStatus(s.store.db, s.clients[i].e, Expired))
  {
    DriveLast(s, LoneStep(s, i, failing, {}, now), i, failing, {}, now, calls);
  }

  lemma ReadsEvent(s: Sys, s': Sys, i: nat, failing: Failing, now: int)
    requires Aligned(s) && i < |s.clients| && s.clients[i].CreateGetEvent? && s' == LoneStep(s, i, failing, {}, now)
    ensures Aligned(s') && |s'.clients| == |s.clients| && s'.store == s.store
    ensures s'.clients[i] == AfterGetEvent(s.store.db.events, s.clients[i], GetEvent !in failing, now)
  {
  }

  lemma DriveCreate(s: Sys, i: nat, failing: Failing, now: int, calls: nat)
    requires Aligned(s) && i < |s.clients| && s.clients[i].CreateGetEvent? && calls >= 5
    ensures var c := s.clients[i];
            Drive(s, i, failing, {}, now, calls).store == CreateCall(s.store, failing, now, c.e, c.u, c.key, c.seats).0
  {
    var s' := LoneStep(s, i, failing, {}, now);
    ReadsEvent(s, s', i, failing, now);
    hide LoneStep, Drive, ReserveAndInsert;
    if s'.clients[i].Done? || s'.clients[i].Dead? {
      DriveLast(s, s', i, failing, {}, now, calls);
    } else {
      DriveNext(s, s', i, failing, {}, now, calls);
      if s'.clients[i].CreateGetKey? {
        DriveGetKey(s', i, failing, now, calls - 1);
      } else if s'.clients[i].CreateReserve? {
        DriveReserve(s', i, failing, now, calls - 1);
      } else {
        DriveExpire(s', i, failing, now, calls - 1);
      }
    }
  }

  // ----- Cancel -----

  lemma DriveRemove(s: Sys, i: nat, failing: Failing, now: int, calls: nat)
    requires Aligned(s) && i < |s.clients| && s.clients[i].CancelRemove? && calls >= 1
    ensures Drive(s, i, failing, {}, now, calls).store
            == if RemoveWaiting in failing then s.store else s.store.(db := RemoveEntry(s.store.db, s.clients[i].entry))
  {
    DriveLast(s, LoneStep(s, i, failing, {}, now), i, failing, {}, now, calls);
  }

  lemma DriveInsertPromoted(s: Sys, i: nat, failing: Failing, now: int, calls: nat)
    requires Aligned(s) && i < |s.clients| && s.clients[i].CancelPromote? && calls >= 2
    ensures var c := s.clients[i];
            var inserted := InsertPending(s.store.db, c.u, c.e, None, c.seats);
            Drive(s, i, failing, {}, now, calls).store
            == if InsertPromoted in failing || inserted.None? then s.store
               else s.store.(db := if RemoveWaiting in failing then inserted.value
                 else RemoveEntry(inserted.value, c.entry))
  {
    var c := s.clients[i];
    if InsertPromoted in failing || InsertPending(s.store.db, c.u, c.e, None, c.seats).None? {
      DriveLast(s, LoneStep(s, i, failing, {}, now), i, failing, {}, now, calls);
    } else {
      DriveRemove(LoneStep(s, i, failing, {}, now), i, failing, now, calls - 1);
    }
  }

  lemma DrivePromote(s: Sys, i: nat, failing: Failing, now: int, calls: nat)
    requires Aligned(s) && i < |s.clients| && s.clients[i].CancelNext? && calls >= 3
    ensures var c := s.clients[i];
            Drive(s, i, failing, {}, now, calls).store
            == if LookupAfterRelease in failing then s.store else Promote(s.store, failing, c.e, c.seats).0
  {
    var s' := LoneStep(s, i, failing, {}, now);
    if s'.clients[i].CancelPromote? {
      DriveInsertPromoted(s', i, failing, now, calls - 1);
    } else {
      DriveLast(s, LoneStep(s, i, failing, {}, now), i, failing, {}, now, calls);
    }
  }

  lemma DriveRelease(s: Sys, i: nat, failing: Failing, now: int, calls: nat)
    requires Aligned(s) && i < |s.clients| && s.clients[i].CancelRelease? && s.clients[i].b < |s.accounts| && calls >= 4
    ensures var c := s.clients[i];
            var s' := if Release in failing then s.store
                      else s.store.(tokens := ReleaseTokens(s.store.tokens, c.e, SeatCount(c.seats)));
            Drive(s, i, failing, {}, now, calls).store
            == if LookupAfterRelease in failing then s' else Promote(s', failing, c.e, c.seats).0
  {
    DrivePromote(LoneStep(s, i, failing, {}, now), i, failing, now, calls - 1);
  }

  lemma DriveCancel(s: Sys, i: nat, failing: Failing, now: int, calls: nat)
    requires Aligned(s) && i < |s.clients| && s.clients[i].CancelBegin? && calls >= 5
    ensures Drive(s, i, failing, {}, now, calls).store == CancelCall(s.store, failing, s.clients[i].b).0
  {
    var s' := LoneStep(s, i, failing, {}, now);
    if s'.clients[i].CancelRelease? {
      DriveRelease(s', i, failing, now, calls - 1);
    } else {
      DriveLast(s, LoneStep(s, i, failing, {}, now), i, failing, {}, now, calls);
    }
  }

  // ----- Payments, refunds and timeouts -----

  lemma DriveFinalize(s: Sys, i: nat, failing: Failing, now: int, calls: nat)
    requires Aligned(s) && i < |s.clients| && s.clients[i].PayFinalize? && calls >= 1
    ensures var c := s.clients[i];
            var finalized := FinalizeTx(s.store.db, c.b, c.seats, c.amount);
            Drive(s, i, failing, {}, now, calls).store
            == if Finalize in failing || finalized.None? then s.store else s.store.(db := finalized.value)
  {
    DriveLast(s, LoneStep(s, i, failing, {}, now), i, failing, {}, now, calls);
  }

  lemma Marks(s: Sys, s': Sys, i: nat, failing: Failing, now: int)
    requires Aligned(s) && i < |s.clients| && s.clients[i].PayMark? && s.clients[i].b < |s.accounts|
    requires s' == LoneStep(s, i, failing, {}, now)
    ensures var c := s.clients[i];
            && Aligned(s') && |s'.clients| == |s.clients| && |s'.accounts| == |s.accounts|
            && if MarkPaid in failing then s'.store == s.store && !Running(s'.clients[i])
               else s'.store == s.store.(db := SetPayment(s.store.db, c.b, Paid, c.amount).value)
                    && s'.clients[i] == PayFinalize(c.b, c.amount, c.seats)
  {
  }

  lemma DriveMark(s: Sys, i: nat, failing: Failing, now: int, calls: nat)
    requires Aligned(s) && i < |s.clients| && s.clients[i].PayMark? && s.clients[i].b < |s.accounts| && calls >= 2
    ensures var c := s.clients[i];
            var marked := SetPayment(s.store.db, c.b, Paid, c.amount).value;
            Drive(s, i, failing, {}, now, calls).store
            == if MarkPaid in failing then s.store
               else if Finalize in failing then s.store.(db := marked)
               else s.store.(db := FinalizeTx(marked, c.b, c.seats, c.amount).value)
  {
    var s' := LoneStep(s, i, failing, {}, now);
    Marks(s, s', i, failing, now);
    hide LoneStep, Drive;
    if MarkPaid in failing {
      DriveLast(s, s', i, failing, {}, now, calls);
    } else {
      DriveNext(s, s', i, failing, {}, now, calls);
      DriveFinalize(s', i, failing, now, calls - 1);
    }
  }

  lemma DriveCharge(s: Sys, i: nat, failing: Failing, now: int, calls: nat)
    requires Aligned(s) && i < |s.clients| && s.clients[i].PayCharge? && s.clients[i].b < |s.accounts| && calls >= 3
    ensures var c := s.clients[i];
            var charged := s.store.(charges :=
              s.store.charges + [Charge(c.b, s.store.db.bookings[c.b].event, c.amount)]);
            var marked := SetPayment(s.store.db, c.b, Paid, c.amount).value;
            Drive(s, i, failing, {}, now, calls).store
            == if MarkPaid in failing then charged
               else if Finalize in failing then charged.(db := marked)
               else charged.(db := FinalizeTx(marked, c.b, c.seats, c.amount).value)
  {
    DriveMark(LoneStep(s, i, failing, {}, now), i, failing, now, calls - 1);
  }

  lemma DrivePay(s: Sys, i: nat, failing: Failing, now: int, calls: nat)
    requires Aligned(s) && i < |s.clients| && s.clients[i].PayRead? && calls >= 4
    ensures Drive(s, i, failing, {}, now, calls).store
            == PayCall(s.store, failing, s.clients[i].b, s.clients[i].amount).0
  {
    var s' := LoneStep(s, i, failing, {}, now);
    if s'.clients[i].PayCharge? {
      DriveCharge(s', i, failing, now, calls - 1);
    } else {
      DriveLast(s, LoneStep(s, i, failing, {}, now), i, failing, {}, now, calls);
    }
  }

  lemma DriveRefundMark(s: Sys, i: nat, failing: Failing, now: int, calls: nat)
    requires Aligned(s) && i < |s.clients| && s.clients[i].RefundMark? && calls >= 1
    ensures var c := s.clients[i];
            var marked := SetPayment(s.store.db, c.b, Refunded, c.refund);
            Drive(s, i, failing, {}, now, calls).store
            == if MarkRefunded in failing || marked.None? then s.store else s.store.(db := marked.value)
  {
    DriveLast(s, LoneStep(s, i, failing, {}, now), i, failing, {}, now, calls);
  }

  lemma PaysRefund(s: Sys, s': Sys, i: nat, failing: Failing, now: int)
    requires Aligned(s) && i < |s.clients| && s.clients[i].RefundPay? && s.clients[i].b < |s.accounts|
    requires s' == LoneStep(s, i, failing, {}, now)
    ensures var c := s.clients[i];
            && Aligned(s') && |s'.clients| == |s.clients| && s'.clients[i] == RefundMark(c.b, c.refund)
            && s'.store == s.store.(refunds := s.store.refunds
                             + [Refund(c.b, s.store.db.bookings[c.b].event, c.refund, c.paid, Individual)])
  {
  }

  lemma DriveRefundPay(s: Sys, i: nat, failing: Failing, now: int, calls: nat)
    requires Aligned(s) && i < |s.clients| && s.clients[i].RefundPay? && s.clients[i].b < |s.accounts| && calls >= 2
    ensures var c := s.clients[i];
            var refunded := s.store.(refunds := s.store.refunds
                              + [Refund(c.b, s.store.db.bookings[c.b].event, c.refund, c.paid, Individual)]);
            Drive(s, i, failing, {}, now, calls).store
            == if MarkRefunded in failing then refunded
               else refunded.(db := SetPayment(s.store.db, c.b, Refunded, c.refund).value)
  {
    var s' := LoneStep(s, i, failing, {}, now);
    PaysRefund(s, s', i, failing, now);
    hide LoneStep, Drive;
    DriveNext(s, s', i, failing, {}, now, calls);
    DriveRefundMark(s', i, failing, now, calls - 1);
  }

  lemma ReadsForRefund(s: Sys, s': Sys, i: nat, failing: Failing, now: int)
    requires Aligned(s) && i < |s.clients| && s.clients[i].RefundRead? && s' == LoneStep(s, i, failing, {}, now)
    ensures var b, db := s.clients[i].b, s.store.db;
            && Aligned(s') && |s'.clients| == |s.clients| && s'.store == s.store
            && if GetBooking in failing || GetEvent in failing || b >= |db.bookings| || db.bookings[b].payment != Paid
                  || db.bookings[b].event !in db.events
               then !Running(s'.clients[i])
               else var row := db.bookings[b];
                    s'.clients[i] == RefundPay(b, IndividualRefund(row.amountPaid, db.events[row.event].fee),
                      row.amountPaid)
  {
  }

  lemma DriveRefund(s: Sys, i: nat, failing: Failing, now: int, calls: nat)
    requires Aligned(s) && i < |s.clients| && s.clients[i].RefundRead? && calls >= 3
    ensures Drive(s, i, failing, {}, now, calls).store == RefundCall(s.store, failing, s.clients[i].b).0
  {
    var s' := LoneStep(s, i, failing, {}, now);
    ReadsForRefund(s, s', i, failing, now);
    hide LoneStep, Drive;
    if s'.clients[i].RefundPay? {
      DriveNext(s, s', i, failing, {}, now, calls);
      DriveRefundPay(s', i, failing, now, calls - 1);
    } else {
      DriveLast(s, s', i, failing, {}, now, calls);
    }
  }

  /** From `s` on, `f` makes client `i` refund its first listed booking, or stop when none is left. */
  predicate RefundsFirst(f: Sys -> Sys, s: Sys, i: nat, unmarked: set<BookingId>) {
    Aligned(s) && i < |s.clients| && s.clients[i].EventRefundEach? ==>
      var c := s.clients[i];
      if c.todo == [] then f(s).store == s.store && f(f(s)) == f(s)
      else
        var s' := f(f(s));
        && Aligned(s') && |s'.clients| == |s.clients|
        && s'.clients[i] == EventRefundEach(c.e, c.todo[1..])
        && s'.store == RefundedFirst(s.store, unmarked, c.e, c.todo)
  }

  /** The provider call for the first listed booking, and the end of the list. */
  lemma AlonePaysFirst(s: Sys, s': Sys, i: nat, failing: Failing, unmarked: set<BookingId>, now: int)
    requires Aligned(s) && i < |s.clients| && s.clients[i].EventRefundEach?
             && s' == LoneStep(s, i, failing, unmarked, now)
    ensures var c := s.clients[i];
            && Aligned(s') && |s'.clients| == |s.clients|
            && if c.todo == [] then s' == Next(s, i, Done)
               else s'.clients[i] == EventRefundMark(c.e, c.todo)
                    && s'.store == s.store.(refunds :=
                       s.store.refunds + [Refund(c.todo[0].0, c.e, c.todo[0].1, c.todo[0].1, WholeEvent)])
  {
  }

  lemma AloneMarksFirst(s: Sys, s': Sys, i: nat, failing: Failing, unmarked: set<BookingId>, now: int)
    requires Aligned(s) && i < |s.clients| && s.clients[i].EventRefundMark? && s.clients[i].todo != []
    requires s' == LoneStep(s, i, failing, unmarked, now)
    ensures var c := s.clients[i];
            var marked := SetPayment(s.store.db, c.todo[0].0, Refunded, c.todo[0].1);
            && Aligned(s') && |s'.clients| == |s.clients| && s'.clients[i] == EventRefundEach(c.e, c.todo[1..])
            && s'.store == if c.todo[0].0 in unmarked || marked.None? then s.store else s.store.(db := marked.value)
  {
  }

  lemma AloneRefundsFirst(s: Sys, i: nat, failing: Failing, unmarked: set<BookingId>, now: int)
    ensures RefundsFirst(Alone(i, failing, unmarked, now), s, i, unmarked)
  {
    var f := Alone(i, failing, unmarked, now);
    if Aligned(s) && i < |s.clients| && s.clients[i].EventRefundEach? {
      assert f(s) == LoneStep(s, i, failing, unmarked, now) && f(f(s)) == LoneStep(f(s), i, failing, unmarked, now);
      AlonePaysFirst(s, f(s), i, failing, unmarked, now);
      if s.clients[i].todo == [] {
        StoppedStays(f(s), i, failing, unmarked, now);
      } else {
        AloneMarksFirst(f(s), f(f(s)), i, failing, unmarked, now);
      }
    }
    hide LoneStep;
  }

  lemma {:induction false} IterateRefunds(f: Sys -> Sys, s: Sys, i: nat, unmarked: set<BookingId>, calls: nat)
    requires forall x :: RefundsFirst(f, x, i, unmarked)
    requires Aligned(s) && i < |s.clients| && s.clients[i].EventRefundEach? && calls >= 2 * |s.clients[i].todo| + 1
    ensures Iterate(f, s, calls).store == RefundEach(s.store, unmarked, s.clients[i].e, s.clients[i].todo)
    decreases calls
  {
    assert RefundsFirst(f, s, i, unmarked);
    if s.clients[i].todo == [] {
      IterateLast(f, s, calls);
    } else {
      IterateRefunds(f, f(f(s)), i, unmarked, calls - 2);
      IterateNext(f, s, calls);
      IterateNext(f, f(s), calls - 1);
    }
  }

  lemma DriveRefundEach(s: Sys, i: nat, failing: Failing, unmarked: set<BookingId>, now: int, calls: nat)
    requires Aligned(s) && i < |s.clients| && s.clients[i].EventRefundEach? && calls >= 2 * |s.clients[i].todo| + 1
    ensures Drive(s, i, failing, unmarked, now, calls).store
            == RefundEach(s.store, unmarked, s.clients[i].e, s.clients[i].todo)
  {
    forall x
      ensures RefundsFirst(Alone(i, failing, unmarked, now), x, i, unmarked)
    {
      AloneRefundsFirst(x, i, failing, unmarked, now);
    }
    IterateRefunds(Alone(i, failing, unmarked, now), s, i, unmarked, calls);
  }

  lemma ListForRefund(s: Sys, i: nat, failing: Failing, unmarked: set<BookingId>, now: int)
    requires Aligned(s) && i < |s.clients| && s.clients[i].EventRefundList?
    ensures var s' := LoneStep(s, i, failing, unmarked, now);
            var e, db := s.clients[i].e, s.store.db;
            && Aligned(s') && |s'.clients| == |s.clients| && s'.store == s.store
            && if ListBookings in failing || GetEvent in failing || e !in db.events then !Running(s'.clients[i])
               else s'.clients[i] == EventRefundEach(e, PaidAmong(db.bookings, ListByEvent(db.bookings, e, LIST_LIMIT)))
  {
  }

  lemma DriveRefundEvent(s: Sys, i: nat, failing: Failing, unmarked: set<BookingId>, now: int, calls: nat)
    requires Aligned(s) && i < |s.clients| && s.clients[i].EventRefundList? && calls >= 2 * LIST_LIMIT + 2
    ensures Drive(s, i, failing, unmarked, now, calls).store
            == EventRefundCall(s.store, failing, unmarked, s.clients[i].e).0
  {
    var s', e, db := LoneStep(s, i, failing, unmarked, now), s.clients[i].e, s.store.db;
    ListForRefund(s, i, failing, unmarked, now);
    if ListBookings in failing || GetEvent in failing || e !in db.events {
      DriveLast(s, s', i, failing, unmarked, now, calls);
    } else {
      var todo := PaidAmong(db.bookings, ListByEvent(db.bookings, e, LIST_LIMIT));
      PaidAmongLength(db.bookings, ListByEvent(db.bookings, e, LIST_LIMIT));
      DriveListed(s, s', i, failing, unmarked, now, calls, todo);
    }
  }

  lemma DriveListed(
    s: Sys, s': Sys, i: nat, failing: Failing, unmarked: set<BookingId>, now: int, calls: nat,
      todo: seq<(BookingId, int)>)
    requires Aligned(s) && i < |s.clients| && s.clients[i].EventRefundList? && calls >= 2 * |todo| + 2
    requires LoneStep(s, i, failing, unmarked, now) == s' && Aligned(s') && |s'.clients| == |s.clients|
    requires s'.clients[i] == EventRefundEach(s.clients[i].e, todo) && s'.store == s.store
    ensures Drive(s, i, failing, unmarked, now, calls).store == RefundEach(s.store, unmarked, s.clients[i].e, todo)
  {
    DriveNext(s, s', i, failing, unmarked, now, calls);
    DriveRefundEach(s', i, failing, unmarked, now, calls - 1);
  }

  lemma {:induction false} PaidAmongLength(bookings: seq<Booking>, ids: seq<BookingId>)
    requires forall i :: 0 <= i < |ids| ==> ids[i] < |bookings|
    ensures |PaidAmong(bookings, ids)| <= |ids|
  {
    if ids != [] {
      PaidAmongLength(bookings, ids[1..]);
    }
  }

  lemma DriveTimeoutInsert(s: Sys, i: nat, failing: Failing, now: int, calls: nat)
    requires Aligned(s) && i < |s.clients| && s.clients[i].TimeoutPromote? && calls >= 1
    ensures var c := s.clients[i];
            var inserted := InsertPending(s.store.db, c.entry, c.e, None, c.seats);
            Drive(s, i, failing, {}, now, calls).store
            == if InsertPromoted in failing || inserted.None? then s.store else s.store.(db := inserted.value)
  {
    DriveLast(s, LoneStep(s, i, failing, {}, now), i, failing, {}, now, calls);
  }

  /** The waiting user a timeout finds, if its lookups succeed. */
  function Waiting(s: Store, failing: Failing, e: EventId): Option<Entry> {
    if GetEvent in failing || FindNext in failing || e !in s.db.events then None else NextActive(s.db.waitlist, e)
  }

  lemma TimeoutLooks(s: Sys, s': Sys, i: nat, failing: Failing, now: int)
    requires Aligned(s) && i < |s.clients| && s.clients[i].TimeoutNext? && s' == LoneStep(s, i, failing, {}, now)
    ensures var c, next := s.clients[i], Waiting(s.store, failing, s.clients[i].e);
            && Aligned(s') && |s'.clients| == |s.clients| && s'.store == s.store
            && if next.Some? then s'.clients[i] == TimeoutPromote(c.b, c.e, c.seats, next.value.id)
               else !Running(s'.clients[i])
  {
  }

  function PromotedInto(s: Store, failing: Failing, entry: Uuid, e: EventId, seats: seq<Label>): Store {
    var inserted := InsertPending(s.db, entry, e, None, seats);
    if InsertPromoted in failing || inserted.None? then s else s.(db := inserted.value)
  }

  lemma DriveTimeoutFound(s: Sys, s': Sys, i: nat, failing: Failing, now: int, calls: nat, entry: Uuid)
    requires Aligned(s) && i < |s.clients| && s.clients[i].TimeoutNext? && calls >= 2
    requires s' == LoneStep(s, i, failing, {}, now) && Aligned(s') && |s'.clients| == |s.clients| && s'.store == s.store
    requires var c := s.clients[i]; s'.clients[i] == TimeoutPromote(c.b, c.e, c.seats, entry)
    ensures Drive(s, i, failing, {}, now, calls).store
            == PromotedInto(s.store, failing, entry, s.clients[i].e, s.clients[i].seats)
  {
    DriveNext(s, s', i, failing, {}, now, calls);
    DriveTimeoutInsert(s', i, failing, now, calls - 1);
  }

  lemma DriveTimeoutNext(s: Sys, i: nat, failing: Failing, now: int, calls: nat)
    requires Aligned(s) && i < |s.clients| && s.clients[i].TimeoutNext? && calls >= 2
    ensures var c, next := s.clients[i], Waiting(s.store, failing, s.clients[i].e);
            Drive(s, i, failing, {}, now, calls).store
            == if next.None? then s.store else PromotedInto(s.store, failing, next.value.id, c.e, c.seats)
  {
    var s', next := LoneStep(s, i, failing, {}, now), Waiting(s.store, failing, s.clients[i].e);
    TimeoutLooks(s, s', i, failing, now);
    if next.None? {
      DriveLast(s, s', i, failing, {}, now, calls);
    } else {
      DriveTimeoutFound(s, s', i, failing, now, calls, next.value.id);
    }
  }

  lemma TimeoutCancels(s: Sys, i: nat, failing: Failing, now: int)
    requires Aligned(s) && i < |s.clients| && s.clients[i].TimeoutCancel? && s.clients[i].b < |s.accounts|
    ensures var c, s' := s.clients[i], LoneStep(s, i, failing, {}, now);
            && Aligned(s') && |s'.clients| == |s.clients|
            && if CancelBooking in failing then s'.store == s.store && !Running(s'.clients[i])
               else s'.store == s.store.(db := CancelTx(s.store.db, c.b).value.0)
                    && s'.clients[i] == TimeoutNext(c.b, c.e, c.seats)
  {
  }

  lemma DriveTimeoutCancel(s: Sys, i: nat, failing: Failing, now: int, calls: nat)
    requires Aligned(s) && i < |s.clients| && s.clients[i].TimeoutCancel? && calls >= 3
    requires s.clients[i].b < |s.accounts| && s.store.db.bookings[s.clients[i].b].status == Pending
    requires GetBooking !in failing
    ensures var c := s.clients[i];
            Drive(s, i, failing, {}, now, calls).store == TimeoutCall(s.store, failing, c.b, c.e, c.seats).0
  {
    var s' := LoneStep(s, i, failing, {}, now);
    TimeoutCancels(s, i, failing, now);
    if CancelBooking in failing {
      DriveLast(s, s', i, failing, {}, now, calls);
    } else {
      DriveNext(s, s', i, failing, {}, now, calls);
      DriveTimeoutNext(s', i, failing, now, calls - 1);
    }
  }

  lemma DriveTimeout(s: Sys, i: nat, failing: Failing, now: int, calls: nat)
    requires Aligned(s) && i < |s.clients| && s.clients[i].TimeoutRead? && calls >= 4
    ensures var c := s.clients[i];
            Drive(s, i, failing, {}, now, calls).store == TimeoutCall(s.store, failing, c.b, c.e, c.seats).0
  {
    var s' := LoneStep(s, i, failing, {}, now);
    if s'.clients[i].TimeoutCancel? {
      DriveTimeoutCancel(s', i, failing, now, calls - 1);
    } else {
      DriveLast(s, LoneStep(s, i, failing, {}, now), i, failing, {}, now, calls);
    }
  }

  // ----- Every request is an interleaving -----

  const ENOUGH_CALLS: nat := 2 * LIST_LIMIT + 2

  function StartOf(r: Request): Client {
    match r
    case Create(failing, now, e, u, key, seats) => CreateGetEvent(e, u, key, seats)
    case Cancel(failing, b) => CancelBegin(b)
    case Pay(failing, b, amount) => PayRead(b, amount)
    case Timeout(failing, b, e, seats) => TimeoutRead(b, e, seats)
    case RefundOne(failing, b) => RefundRead(b)
    case RefundEvent(failing, unmarked, e) => EventRefundList(e)
    case Join(failing, e, u) => JoinMax(e, u)
    case _ => Done
  }

  function UnmarkedOf(r: Request): set<BookingId> {
    match r
    case RefundEvent(_, unmarked, _) => unmarked
    case _ => {}
  }

  function NowOf(r: Request): int {
    match r
    case Create(_, now, _, _, _, _) => now
    case _ => 0
  }

  function FailingOf(r: Request): Failing {
    match r
    case Create(failing, _, _, _, _, _) => failing
    case Cancel(failing, _) => failing
    case Pay(failing, _, _) => failing
    case Timeout(failing, _, _, _) => failing
    case RefundOne(failing, _) => failing
    case RefundEvent(failing, _, _) => failing
    case Join(failing, _, _) => failing
    case _ => {}
  }

  /** The actions that carry out a request when nothing else runs. */
  function ActionsOf(s: Sys, r: Request): seq<Action>
    requires Aligned(s)
  {
    match r
    case LeaveWaitlist(e, u) => [OptOut(e, u)]
    case CancelEvent(e) => [CallOff(e)]
    case CreateEvent(e, labels, price, fee, maxTickets, endTime) =>
      [OpenEvent(e, labels, price, fee, maxTickets, endTime)]
    case _ =>
      [Spawn(StartOf(r))]
      + Script(Step(s, Spawn(StartOf(r))), |s.clients|, FailingOf(r), UnmarkedOf(r), NowOf(r), ENOUGH_CALLS)
  }

  lemma EnvironmentIsInterleaving(s: Sys, r: Request)
    requires Aligned(s) && !ByClient(r)
    ensures AfterRequest(s, r).store == Serve(s.store, r)
  {
    var a := ActionsOf(s, r)[0];
    assert ActionsOf(s, r) == [a] && [a][..0] == [];
    assert Run(s, [a]) == Step(s, a);
  }

  /** The state a request leaves when nothing else runs. */
  function AfterRequest(s: Sys, r: Request): (s': Sys)
    requires Aligned(s)
    ensures Aligned(s')
  {
    Run(s, ActionsOf(s, r))
  }

  predicate ByClient(r: Request) {
    !r.LeaveWaitlist? && !r.CancelEvent? && !r.CreateEvent?
  }

  lemma RequestDrives(s: Sys, r: Request)
    requires Aligned(s) && ByClient(r)
    ensures AfterRequest(s, r)
            == Drive(Step(s, Spawn(StartOf(r))), |s.clients|, FailingOf(r), UnmarkedOf(r), NowOf(r), ENOUGH_CALLS)
  {
    var a, i := Spawn(StartOf(r)), |s.clients|;
    var script := Script(Step(s, a), i, FailingOf(r), UnmarkedOf(r), NowOf(r), ENOUGH_CALLS);
    RunFirst(s, a, script);
    DriveIsRun(Step(s, a), i, FailingOf(r), UnmarkedOf(r), NowOf(r), ENOUGH_CALLS);
  }

  lemma RequestIsInterleaving(s: Sys, r: Request)
    requires Aligned(s)
    ensures AfterRequest(s, r).store == Serve(s.store, r)
  {
    if ByClient(r) {
      RequestDrives(s, r);
      DriveRequest(Step(s, Spawn(StartOf(r))), |s.clients|, r);
    } else {
      EnvironmentIsInterleaving(s, r);
    }
  }

  lemma DriveRequest(s: Sys, i: nat, r: Request)
    requires Aligned(s) && i < |s.clients| && s.clients[i] == StartOf(r)
    requires ByClient(r)
    ensures Drive(s, i, FailingOf(r), UnmarkedOf(r), NowOf(r), ENOUGH_CALLS).store == Serve(s.store, r)
  {
    match r
    case Create(failing, now, _, _, _, _) => DriveCreate(s, i, failing, now, ENOUGH_CALLS);
    case Cancel(failing, _) => DriveCancel(s, i, failing, 0, ENOUGH_CALLS);
    case Pay(failing, _, _) => DrivePay(s, i, failing, 0, ENOUGH_CALLS);
    case Timeout(failing, _, _, _) => DriveTimeout(s, i, failing, 0, ENOUGH_CALLS);
    case RefundOne(failing, _) => DriveRefund(s, i, failing, 0, ENOUGH_CALLS);
    case RefundEvent(failing, unmarked, _) => DriveRefundEvent(s, i, failing, unmarked, 0, ENOUGH_CALLS);
    case Join(failing, _, _) => DriveJoin(s, i, failing, 0, ENOUGH_CALLS);
  }

  /** The actions of a whole sequential run. */
  function Interleaving(s: Sys, requests: seq<Request>): seq<Action>
    requires Aligned(s)
  {
    if requests == [] then []
    else
      var actions := Interleaving(s, requests[..|requests| - 1]);
      actions + ActionsOf(Run(s, actions), requests[|requests| - 1])
  }

  /** The state of the machine after a sequential run. */
  function SequentialRun(s: Sys, requests: seq<Request>): (s': Sys)
    requires Aligned(s)
    ensures Aligned(s')
  {
    Run(s, Interleaving(s, requests))
  }

  lemma LastRequest(s: Sys, requests: seq<Request>)
    requires Aligned(s)
    ensures SequentialRun(s, requests)
            == if requests == [] then s
              else AfterRequest(SequentialRun(s, requests[..|requests| - 1]), requests[|requests| - 1])
  {
    if requests != [] {
      var actions := Interleaving(s, requests[..|requests| - 1]);
      RunAppend(s, actions, ActionsOf(Run(s, actions), requests[|requests| - 1]));
    }
  }

  /** Every sequential run of service calls, whatever fails in it, is an interleaving of store calls. */
  lemma {:induction false} ServiceRunIsInterleaving(s: Sys, requests: seq<Request>)
    requires Aligned(s)
    ensures SequentialRun(s, requests).store == ServeAll(s.store, requests)
  {
    hide AfterRequest, Serve, SequentialRun;
    LastRequest(s, requests);
    if requests != [] {
      var front := requests[..|requests| - 1];
      ServiceRunIsInterleaving(s, front);
      RequestIsInterleaving(SequentialRun(s, front), requests[|requests| - 1]);
    }
  }

  /** What every store call of a lone client keeps, the client's whole run keeps. */
  lemma {:induction false} DriveKeeps(
    p: Sys -> bool, s: Sys, i: nat, failing: Failing, unmarked: set<BookingId>, now: int, calls: nat)
    requires p(s) && forall x :: p(x) ==> p(LoneStep(x, i, failing, unmarked, now))
    ensures p(Drive(s, i, failing, unmarked, now, calls))
    decreases calls
  {
    if calls > 0 {
      DriveNext(s, LoneStep(s, i, failing, unmarked, now), i, failing, unmarked, now, calls);
      DriveKeeps(p, LoneStep(s, i, failing, unmarked, now), i, failing, unmarked, now, calls - 1);
    }
  }
}
