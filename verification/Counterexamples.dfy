/** Concrete runs in which the system does what one would hope it does not: each guards a condition stated elsewhere. */
module Counterexamples {
  import opened Collections
  import opened Model
  import opened StoreCalls
  import opened Protocol
  import opened ServiceCalls
  import opened ServiceRuns
  import opened Reconcile

  // ----- One event with the one seat "A", and three users -----

  const USERS: set<nat> := {1, 2, 3}
  const EVENT: Event := Event(1, 0, 10, 1, 5, 100, Upcoming)
  const FREE_SEAT: Seat := Seat(0, "A", Available, None)

  function Ticket(u: nat, status: BookingStatus, amount: int, payment: PaymentStatus): Booking {
    Booking(UserRow(u), 0, status, ["A"], None, amount, payment)
  }

  const FIRST := Ticket(1, Pending, 0, Unpaid)
  const BOOKED := Ticket(1, Booked, 10, Paid)
  const CANCELLED := Ticket(1, Cancelled, 10, Paid)
  const SECOND := Ticket(2, Pending, 0, Unpaid)
  const THIRD := Ticket(3, Pending, 0, Unpaid)

  function Snapshot(
    tokens: int, reserved: int, bookings: seq<Booking>, seat: Seat, waitlist: seq<Entry>, made: nat,
      charges: seq<Charge>): Store {
    Store(Tables(InitStore(USERS).db.users, map[0 := EVENT.(reserved := reserved)], bookings, [seat], waitlist, made),
          map[0 := tokens], charges, [])
  }

  function Ask(u: nat): Request {
    Create({}, 0, 0, UserRow(u), None, ["A"])
  }

  const OPEN: Request := CreateEvent(0, ["A"], 10, 1, 5, 100)

  const WAITING: Entry := Entry(WaitlistRow(0), 0, UserRow(2), 1, false)
  const TAKEN_SEAT: Seat := Seat(0, "A", Taken, Some(0))
  const PAID: seq<Charge> := [Charge(0, 0, 10)]

  /** The state after some requests, and what the next request makes of it. */
  lemma ServeOneMore(s: Store, requests: seq<Request>, r: Request, before: Store)
    requires ServeAll(s, requests) == before
    ensures ServeAll(s, requests + [r]) == Serve(before, r)
  {
    assert (requests + [r])[..|requests|] == requests;
  }

  lemma OpensTheEvent()
    ensures Serve(InitStore(USERS), OPEN) == Snapshot(1, 0, [], FREE_SEAT, [], 0, [])
  {
    assert FreshSeats(0, ["A"]) == [FREE_SEAT];
  }

  lemma Opens()
    ensures ServeAll(InitStore(USERS), [OPEN]) == Snapshot(1, 0, [], FREE_SEAT, [], 0, [])
  {
    OpensTheEvent();
    ServeOneMore(InitStore(USERS), [], OPEN, InitStore(USERS));
    assert [] + [OPEN] == [OPEN];
  }

  lemma FirstTakesTheToken()
    ensures ServeAll(InitStore(USERS), [OPEN, Ask(1)]) == Snapshot(0, 0, [FIRST], FREE_SEAT, [], 0, [])
  {
    Opens();
    ServeOneMore(InitStore(USERS), [OPEN], Ask(1), Snapshot(1, 0, [], FREE_SEAT, [], 0, []));
    assert [OPEN] + [Ask(1)] == [OPEN, Ask(1)];
  }

  lemma SecondMustWait()
    ensures Serve(Snapshot(0, 0, [FIRST], FREE_SEAT, [], 0, []), Ask(2))
            == Snapshot(0, 0, [FIRST], FREE_SEAT, [WAITING], 1, [])
  {
  }

  lemma FirstPays()
    ensures Serve(Snapshot(0, 0, [FIRST], FREE_SEAT, [WAITING], 1, []), Pay({}, 0, 10))
            == Snapshot(0, 1, [BOOKED], TAKEN_SEAT, [WAITING], 1, PAID)
  {
    assert TakeSeats([FREE_SEAT], 0, ["A"], 0) == [TAKEN_SEAT];
  }

  /** The state in which the first booking is cancelled and its token is back. */
  function Freed(): Store {
    Snapshot(1, 0, [CANCELLED], FREE_SEAT, [WAITING], 1, PAID)
  }

  function BookedFirst(): Store {
    Snapshot(0, 1, [BOOKED], TAKEN_SEAT, [WAITING], 1, PAID)
  }

  lemma CancelFrees()
    ensures CancelTx(BookedFirst().db, 0) == Some((Freed().db, true))
  {
    assert FreeSeats([TAKEN_SEAT], 0, ["A"]) == [FREE_SEAT];
    var events := BookedFirst().db.events;
    assert BumpReserved(events, 0, -1) == Freed().db.events;
    assert [BOOKED][0 := CANCELLED] == [CANCELLED];
  }

  lemma WaitingIsNext()
    ensures NextActive([WAITING], 0) == Some(WAITING) && Filter([WAITING], NotEntry(WaitlistRow(0))) == []
  {
    assert Queue([WAITING], 0) == [WAITING];
  }

  lemma FreedInserts()
    ensures InsertPending(Freed().db, UserRow(2), 0, None, ["A"])
            == Some(Freed().db.(bookings := [CANCELLED, SECOND]))
  {
    assert [CANCELLED] + [SECOND]
        == [CANCELLED, SECOND];
  }

  lemma FreedPromotes()
    ensures Promote(Freed(), {}, 0, ["A"]).0
            == Snapshot(1, 0, [CANCELLED, SECOND], FREE_SEAT, [], 1, PAID)
  {
    hide NextActive, InsertPending, Filter;
    WaitingIsNext();
    FreedInserts();
  }

  /** A cancellation of a booked booking in which nothing fails, up to its promotion. */
  lemma CancelsThenPromotes(s: Store, b: BookingId, db: Tables)
    requires CancelTx(s.db, b) == Some((db, true))
    ensures b < |s.db.bookings|
    ensures var row := s.db.bookings[b];
            var s' := s.(db := db, tokens := ReleaseTokens(s.tokens, row.event, SeatCount(row.seats)));
            Serve(s, Cancel({}, b)) == Promote(s', {}, row.event, row.seats).0
  {
    hide Promote;
  }

  lemma FreedStore()
    ensures var s := BookedFirst();
            && s.db.bookings == [BOOKED]
            && s.(db := Freed().db, tokens := ReleaseTokens(s.tokens, 0, SeatCount(["A"]))) == Freed()
  {
  }

  lemma FirstCancels()
    ensures Serve(BookedFirst(), Cancel({}, 0))
            == Snapshot(1, 0, [CANCELLED, SECOND], FREE_SEAT, [], 1, PAID)
  {
    assert BOOKED.event == 0 && BOOKED.seats == ["A"];
    hide *;
    CancelFrees();
    FreedStore();
    FreedPromotes();
    CancelsThenPromotes(BookedFirst(), 0, Freed().db);
  }

  lemma ThirdTakesTheTokenAgain()
    ensures Serve(Snapshot(1, 0, [CANCELLED, SECOND], FREE_SEAT, [], 1, PAID), Ask(3))
            == Snapshot(0, 0, [CANCELLED, SECOND, THIRD],
                        FREE_SEAT, [], 1, PAID)
  {
  }

  /** The other two users, after the first has paid and cancelled. */
  lemma RestOfTheRun(s: Store)
    requires ServeAll(s, [OPEN, Ask(1)]) == Snapshot(0, 0, [FIRST], FREE_SEAT, [], 0, [])
    ensures ServeAll(s, [OPEN, Ask(1)] + [Ask(2)] + [Pay({}, 0, 10)] + [Cancel({}, 0)] + [Ask(3)])
            == Snapshot(0, 0, [CANCELLED, SECOND, THIRD],
                        FREE_SEAT, [], 1, PAID)
  {
    assert BookedFirst() == Snapshot(0, 1, [BOOKED], TAKEN_SEAT, [WAITING], 1, PAID);
    hide Serve, ServeAll, Snapshot, Ask, Ticket, BookedFirst;
    var r2 := [OPEN, Ask(1)];
    ServeOneMore(s, r2, Ask(2), ServeAll(s, r2));
    SecondMustWait();
    ServeOneMore(s, r2 + [Ask(2)], Pay({}, 0, 10), ServeAll(s, r2 + [Ask(2)]));
    FirstPays();
    ServeOneMore(s, r2 + [Ask(2)] + [Pay({}, 0, 10)], Cancel({}, 0), ServeAll(s, r2 + [Ask(2)] + [Pay({}, 0, 10)]));
    FirstCancels();
    var r5 := r2 + [Ask(2)] + [Pay({}, 0, 10)] + [Cancel({}, 0)];
    ServeOneMore(s, r5, Ask(3), ServeAll(s, r5));
    ThirdTakesTheTokenAgain();
  }

  /** A cancellation both returns the token and promotes the waiting user: two live bookings for the only seat. */
  lemma PromotionOversells()
    ensures ServeAll(InitStore(USERS), [OPEN, Ask(1), Ask(2), Pay({}, 0, 10), Cancel({}, 0), Ask(3)])
            == Snapshot(0, 0, [CANCELLED, SECOND, THIRD],
                        FREE_SEAT, [], 1, PAID)
  {
    hide Serve, ServeAll, InitStore, Snapshot, Ask, Ticket;
    FirstTakesTheToken();
    RestOfTheRun(InitStore(USERS));
    assert [OPEN, Ask(1)] + [Ask(2)] + [Pay({}, 0, 10)] + [Cancel({}, 0)] + [Ask(3)]
        == [OPEN, Ask(1), Ask(2), Pay({}, 0, 10), Cancel({}, 0), Ask(3)];
  }

  /** The reconciler gives the tokens of pending bookings back: a second user gets the same only seat. */
  lemma ReconcileResellsPendingSeats(after: map<EventId, int>)
    requires Reconciled(map[0 := CapacityRow(1, 0)], map[0 := 0], after)
    ensures var s := ServeAll(InitStore(USERS), [OPEN, Ask(1)]);
            && s.tokens == map[0 := 0] && s.db.events == map[0 := EVENT]
            && Serve(s.(tokens := after), Ask(2)).db.bookings == [FIRST, SECOND]
  {
    FirstTakesTheToken();
    assert Tokens(after, 0) == Corrected(0, 1) == 1;
  }

  // ----- A request that lists no seat, at a sold-out event -----

  function Unlisted(status: BookingStatus, seats: seq<Label>, amount: int, payment: PaymentStatus): Booking {
    Booking(UserRow(2), 0, status, seats, None, amount, payment)
  }

  const UNLISTED := Unlisted(Pending, [], 0, Unpaid)
  const UNLISTED_BOOKED := Unlisted(Booked, ["seat1"], 10, Paid)
  const UNLISTED_CANCELLED := Unlisted(Cancelled, ["seat1"], 10, Paid)

  const ASK_NOTHING: Request := Create({}, 0, 0, UserRow(2), None, [])
  const PAID_SECOND: seq<Charge> := [Charge(1, 0, 10)]

  lemma NothingIsAlwaysThere()
    ensures Serve(Snapshot(0, 0, [FIRST], FREE_SEAT, [], 0, []), ASK_NOTHING)
            == Snapshot(0, 0, [FIRST, UNLISTED], FREE_SEAT, [], 0, [])
  {
  }

  lemma UnlistedPays()
    ensures Serve(Snapshot(0, 0, [FIRST, UNLISTED], FREE_SEAT, [], 0, []), Pay({}, 1, 10))
            == Snapshot(0, 1, [FIRST, UNLISTED_BOOKED], FREE_SEAT, [], 0, PAID_SECOND)
  {
    assert TakeSeats([FREE_SEAT], 0, ["seat1"], 1) == [FREE_SEAT];
  }

  lemma UnlistedCancels()
    ensures Serve(Snapshot(0, 1, [FIRST, UNLISTED_BOOKED], FREE_SEAT, [], 0, PAID_SECOND),
                  Cancel({}, 1))
            == Snapshot(1, 0, [FIRST, UNLISTED_CANCELLED], FREE_SEAT, [], 0, PAID_SECOND)
  {
    assert FreeSeats([FREE_SEAT], 0, ["seat1"]) == [FREE_SEAT];
    assert Queue([], 0) == [];
  }

  lemma ThirdTakesTheNewToken()
    ensures Serve(Snapshot(1, 0, [FIRST, UNLISTED_CANCELLED], FREE_SEAT, [], 0, PAID_SECOND), Ask(3))
            == Snapshot(0, 0, [FIRST, UNLISTED_CANCELLED, THIRD],
                        FREE_SEAT, [], 0, PAID_SECOND)
  {
  }

  lemma RestWithoutASeat(s: Store)
    requires ServeAll(s, [OPEN, Ask(1)]) == Snapshot(0, 0, [FIRST], FREE_SEAT, [], 0, [])
    ensures ServeAll(s, [OPEN, Ask(1)] + [ASK_NOTHING] + [Pay({}, 1, 10)])
            == Snapshot(0, 1, [FIRST, UNLISTED_BOOKED], FREE_SEAT, [], 0, PAID_SECOND)
    ensures ServeAll(s, [OPEN, Ask(1)] + [ASK_NOTHING] + [Pay({}, 1, 10)] + [Cancel({}, 1)] + [Ask(3)])
            == Snapshot(0, 0, [FIRST, UNLISTED_CANCELLED, THIRD],
                        FREE_SEAT, [], 0, PAID_SECOND)
  {
    hide Serve, ServeAll, Snapshot, Ask, Ticket, Unlisted;
    var r2 := [OPEN, Ask(1)];
    var r4 := r2 + [ASK_NOTHING] + [Pay({}, 1, 10)];
    ServeOneMore(s, r2, ASK_NOTHING, ServeAll(s, r2));
    NothingIsAlwaysThere();
    ServeOneMore(s, r2 + [ASK_NOTHING], Pay({}, 1, 10), ServeAll(s, r2 + [ASK_NOTHING]));
    UnlistedPays();
    ServeOneMore(s, r4, Cancel({}, 1), ServeAll(s, r4));
    UnlistedCancels();
    ServeOneMore(s, r4 + [Cancel({}, 1)], Ask(3), ServeAll(s, r4 + [Cancel({}, 1)]));
    ThirdTakesTheNewToken();
  }

  /**
   With the only seat taken, a request that lists none is sold a default seat, two live seats for a capacity of one; its
   cancellation returns a token that it never took, for which a third user gets the only seat again.
   */
  lemma EmptyRequestGetsASeat()
    ensures ServeAll(InitStore(USERS), [OPEN, Ask(1), ASK_NOTHING, Pay({}, 1, 10)])
            == Snapshot(0, 1, [FIRST, UNLISTED_BOOKED], FREE_SEAT, [], 0, PAID_SECOND)
    ensures ServeAll(InitStore(USERS), [OPEN, Ask(1), ASK_NOTHING, Pay({}, 1, 10), Cancel({}, 1), Ask(3)])
            == Snapshot(0, 0, [FIRST, UNLISTED_CANCELLED, THIRD],
                        FREE_SEAT, [], 0, PAID_SECOND)
  {
    hide Serve, ServeAll, InitStore, Snapshot, Ask, Ticket, Unlisted;
    FirstTakesTheToken();
    RestWithoutASeat(InitStore(USERS));
    assert [OPEN, Ask(1)] + [ASK_NOTHING] + [Pay({}, 1, 10)] == [OPEN, Ask(1), ASK_NOTHING, Pay({}, 1, 10)];
    assert [OPEN, Ask(1)] + [ASK_NOTHING] + [Pay({}, 1, 10)] + [Cancel({}, 1)] + [Ask(3)]
        == [OPEN, Ask(1), ASK_NOTHING, Pay({}, 1, 10), Cancel({}, 1), Ask(3)];
  }

  // ----- Interleavings, from any state -----

  /** Both joins have computed their position before either has inserted its row. */
  function BothAboutToInsert(s: Sys, e: EventId, u: Uuid, v: Uuid): Sys
    requires Aligned(s)
  {
    var s1 := Step(Step(s, Spawn(JoinMax(e, u))), Spawn(JoinMax(e, v)));
    Step(Step(s1, GoOn(|s.clients|)), GoOn(|s.clients| + 1))
  }

  lemma BothComputeTheSame(s: Sys, e: EventId, u: Uuid, v: Uuid)
    requires Aligned(s)
    ensures var s', position := BothAboutToInsert(s, e, u, v), NextPosition(s.store.db.waitlist, e);
            && Aligned(s') && s'.store == s.store && |s'.clients| == |s.clients| + 2
            && s'.clients[|s.clients|] == JoinInsert(e, u, position)
            && s'.clients[|s.clients| + 1] == JoinInsert(e, v, position)
  {
    var s1 := Step(Step(s, Spawn(JoinMax(e, u))), Spawn(JoinMax(e, v)));
    assert s1.clients[|s.clients|] == JoinMax(e, u) && s1.clients[|s.clients| + 1] == JoinMax(e, v);
  }

  lemma JoinInserts(s: Sys, i: nat, e: EventId, u: Uuid, position: int)
    requires Aligned(s) && i < |s.clients| && s.clients[i] == JoinInsert(e, u, position)
    requires e in s.store.db.events && u in s.store.db.users
    ensures var s', db := Step(s, GoOn(i)), s.store.db;
            && s'.clients == s.clients[i := Done]
            && s'.store.db == db.(waitlist := db.waitlist + [Entry(WaitlistRow(db.entriesMade), e, u, position, false)],
                                  entriesMade := db.entriesMade + 1)
  {
  }

  /** Two users who join at the same time get the same position, whatever the state. */
  lemma JoinsAtOnceCollide(s: Sys, e: EventId, u: Uuid, v: Uuid)
    requires Aligned(s) && e in s.store.db.events && u in s.store.db.users && v in s.store.db.users
    ensures var i, n, position := |s.clients|, s.store.db.entriesMade, NextPosition(s.store.db.waitlist, e);
            Step(Step(BothAboutToInsert(s, e, u, v), GoOn(i)), GoOn(i + 1)).store.db.waitlist
            == s.store.db.waitlist
               + [Entry(WaitlistRow(n), e, u, position, false)]
               + [Entry(WaitlistRow(n + 1), e, v, position, false)]
  {
    hide Step, NextPosition, BothAboutToInsert;
    var i, position, ready := |s.clients|, NextPosition(s.store.db.waitlist, e), BothAboutToInsert(s, e, u, v);
    BothComputeTheSame(s, e, u, v);
    JoinInserts(ready, i, e, u, position);
    JoinInserts(Step(ready, GoOn(i)), i + 1, e, v, position);
  }

  /** Checked before the cancellation, finalized after it. */
  function LatePayment(s: Sys, b: BookingId, amount: int): Sys
    requires Aligned(s)
  {
    var i, j := |s.clients|, |s.clients| + 1;
    var checked := Step(Step(Step(s, Spawn(PayRead(b, amount))), Spawn(CancelBegin(b))), GoOn(i));
    Finished(Step(checked, GoOn(j)), i)
  }

  function Finished(s: Sys, i: nat): Sys
    requires Aligned(s)
  {
    Step(Step(Step(s, GoOn(i)), GoOn(i)), GoOn(i))
  }

  lemma FinishPayment(s: Sys, i: nat, b: BookingId, amount: int, seats: seq<Label>)
    requires Aligned(s) && i < |s.clients| && s.clients[i] == PayCharge(b, amount, seats)
    requires b < |s.accounts| && s.store.db.bookings[b].status == Cancelled
    ensures var row, s' := s.store.db.bookings[b], Finished(s, i);
            && s'.store.charges == s.store.charges + [Charge(b, row.event, amount)]
            && s'.store.db == FinalizeTx(SetPayment(s.store.db, b, Paid, amount).value, b, seats, amount).value
            && s'.store.tokens == s.store.tokens
  {
    hide Step, SetPayment, FinalizeTx;
    var s1 := Step(s, GoOn(i));
    ChargeStep(s, i);
    var s2 := Step(s1, GoOn(i));
    MarkStep(s1, i);
    FinalStep(s2, i);
  }

  lemma ChargeStep(s: Sys, i: nat)
    requires Aligned(s) && i < |s.clients| && s.clients[i].PayCharge? && s.clients[i].b < |s.accounts|
    ensures var c, s' := s.clients[i], Step(s, GoOn(i));
            && |s'.clients| == |s.clients| && s'.clients[i] == PayMark(c.b, c.amount, c.seats)
               && s'.accounts == s.accounts
            && s'.store == s.store.(charges :=
               s.store.charges + [Charge(c.b, s.store.db.bookings[c.b].event, c.amount)])
  {
  }

  lemma MarkStep(s: Sys, i: nat)
    requires Aligned(s) && i < |s.clients| && s.clients[i].PayMark? && s.clients[i].b < |s.accounts|
    ensures var c, s' := s.clients[i], Step(s, GoOn(i));
            && |s'.clients| == |s.clients| && s'.clients[i] == PayFinalize(c.b, c.amount, c.seats)
               && s'.accounts == s.accounts
            && SetPayment(s.store.db, c.b, Paid, c.amount).Some?
            && s'.store == s.store.(db := SetPayment(s.store.db, c.b, Paid, c.amount).value)
  {
  }

  lemma FinalStep(s: Sys, i: nat)
    requires Aligned(s) && i < |s.clients| && s.clients[i].PayFinalize? && s.clients[i].b < |s.accounts|
    ensures var c, s' := s.clients[i], Step(s, GoOn(i));
            && FinalizeTx(s.store.db, c.b, c.seats, c.amount).Some?
            && s'.store == s.store.(db := FinalizeTx(s.store.db, c.b, c.seats, c.amount).value)
  {
  }

  lemma CheckThenCancel(s: Sys, b: BookingId, amount: int)
    requires Aligned(s) && b < |s.accounts| && s.store.db.bookings[b].status == Pending
    requires var row := s.store.db.bookings[b];
             row.event in s.store.db.events && amount >= s.store.db.events[row.event].price * SeatCount(row.seats)
    ensures var i, j, row := |s.clients|, |s.clients| + 1, s.store.db.bookings[b];
            var checked := Step(Step(Step(s, Spawn(PayRead(b, amount))), Spawn(CancelBegin(b))), GoOn(i));
            var cancelled := Step(checked, GoOn(j));
            && |cancelled.clients| == |s.clients| + 2 && |cancelled.accounts| == |s.accounts|
            && cancelled.clients[i] == PayCharge(b, amount, Effective(row.seats))
            && cancelled.store == s.store.(db :=
               s.store.db.(bookings := s.store.db.bookings[b := row.(status := Cancelled)]))
  {
    var i, j, row := |s.clients|, |s.clients| + 1, s.store.db.bookings[b];
    var s1 := Step(Step(s, Spawn(PayRead(b, amount))), Spawn(CancelBegin(b)));
    assert s1.clients[i] == PayRead(b, amount) && s1.clients[j] == CancelBegin(b) && s1.store == s.store;
    var s2 := Step(s1, GoOn(i));
    assert s2.clients[i] == PayCharge(b, amount, Effective(row.seats)) && s2.clients[j] == CancelBegin(b)
        && s2.store == s.store;
  }

  /**
   A booking cancelled while its payment is under way is still charged, keeps its seats marked as taken by it, and
   counts as reserved for good; from any state.
   */
  lemma LatePaymentTakesSeats(s: Sys, b: BookingId, amount: int)
    requires Aligned(s) && b < |s.accounts| && s.store.db.bookings[b].status == Pending
    requires var row := s.store.db.bookings[b];
             row.event in s.store.db.events && amount >= s.store.db.events[row.event].price * SeatCount(row.seats)
    ensures var row, s' := s.store.db.bookings[b], LatePayment(s, b, amount);
            && s'.store.charges == s.store.charges + [Charge(b, row.event, amount)]
            && s'.store.tokens == s.store.tokens
            && s'.store.db == s.store.db.(
                 bookings := s.store.db.bookings[b := row.(status := Cancelled, payment := Paid, amountPaid := amount)],
                 seats := TakeSeats(s.store.db.seats, row.event, Effective(row.seats), b),
                 events := BumpReserved(s.store.db.events, row.event, 1))
  {
    var i, row := |s.clients|, s.store.db.bookings[b];
    CheckThenCancel(s, b, amount);
    hide Step;
    var checked := Step(Step(Step(s, Spawn(PayRead(b, amount))), Spawn(CancelBegin(b))), GoOn(i));
    FinishPayment(Step(checked, GoOn(i + 1)), i, b, amount, Effective(row.seats));
  }

  lemma LooksUp(s: Sys, i: nat, x: Entry)
    requires Aligned(s) && i < |s.clients| && s.clients[i].CancelNext? && IsNext(s.store.db.waitlist, s.clients[i].e, x)
    ensures var c := s.clients[i];
            Step(s, Go(i, true, 0, x)) == Next(s, i, CancelPromote(c.e, c.seats, x.id, x.user))
  {
    FilterMembers(s.store.db.waitlist, ActiveIn(s.clients[i].e));
    assert x in Queue(s.store.db.waitlist, s.clients[i].e);
  }

  lemma Promotes(s: Sys, i: nat)
    requires Aligned(s) && i < |s.clients| && s.clients[i].CancelPromote?
    requires s.clients[i].u in s.store.db.users && s.clients[i].e in s.store.db.events
    ensures var c, s' := s.clients[i], Step(s, GoOn(i));
            && s'.store.db == s.store.db.(bookings :=
               s.store.db.bookings + [Booking(c.u, c.e, Pending, c.seats, None, 0, Unpaid)])
            && s'.clients == s.clients[i := CancelRemove(c.entry)]
  {
  }

  /** Two cancellations that look up before either removes promote the same waiting user twice, from any state. */
  lemma LookupsAtOncePromoteTwice(s: Sys, i: nat, j: nat, x: Entry)
    requires Aligned(s) && i < |s.clients| && j < |s.clients| && i != j
    requires s.clients[i].CancelNext? && s.clients[j].CancelNext? && s.clients[i].e == s.clients[j].e
    requires IsNext(s.store.db.waitlist, s.clients[i].e, x)
    requires x.user in s.store.db.users && s.clients[i].e in s.store.db.events
    ensures var e := s.clients[i].e;
            Step(Step(Step(Step(s, Go(i, true, 0, x)), Go(j, true, 0, x)), GoOn(i)), GoOn(j)).store.db.bookings
            == s.store.db.bookings + [Booking(x.user, e, Pending, s.clients[i].seats, None, 0, Unpaid)]
                                   + [Booking(x.user, e, Pending, s.clients[j].seats, None, 0, Unpaid)]
  {
    hide Step, IsNext;
    var s1 := Step(s, Go(i, true, 0, x));
    LooksUp(s, i, x);
    var s2 := Step(s1, Go(j, true, 0, x));
    LooksUp(s1, j, x);
    Promotes(s2, i);
    Promotes(Step(s2, GoOn(i)), j);
  }

  /** A user who opts out between a cancellation's lookup and its insert is promoted all the same, from any state. */
  lemma OptOutIsIgnored(s: Sys, i: nat, x: Entry)
    requires Aligned(s) && i < |s.clients| && s.clients[i].CancelNext? && IsNext(s.store.db.waitlist, s.clients[i].e, x)
    requires x.user in s.store.db.users && s.clients[i].e in s.store.db.events
    ensures var e := s.clients[i].e;
            var s' := Step(Step(Step(s, Go(i, true, 0, x)), OptOut(e, x.user)), GoOn(i));
            && s'.store.db.bookings
               == s.store.db.bookings + [Booking(x.user, e, Pending, s.clients[i].seats, None, 0, Unpaid)]
            && forall row :: row in s'.store.db.waitlist && row.user == x.user ==> !ActiveAt(row, e)
  {
    var e, s1 := s.clients[i].e, Step(s, Go(i, true, 0, x));
    LooksUp(s, i, x);
    var s2 := Step(s1, OptOut(e, x.user));
    assert s2 == WithDb(s1, s1.store.db.(waitlist := OptOutRows(s1.store.db.waitlist, e, Some(x.user))));
    forall row | row in s2.store.db.waitlist && row.user == x.user
      ensures !ActiveAt(row, e)
    {
    }
    hide Step, IsNext;
    Promotes(s2, i);
  }
}
