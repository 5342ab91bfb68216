/**
 What holds in every interleaving: conservation of tokens and seats, the meaning of `reserved`,
 the life of a booking, and what a timeout achieves.
 */
module Conservation {
  import opened Collections
  import opened Model
  import opened StoreCalls
  import opened Protocol
  import opened ProtocolInvariant
  import opened Effects

  // ----- The terms of the conservation law -----

  function SeatsIf(e: EventId, condition: Row -> bool): Row -> int {
    (r: Row) => if r.booking.event == e && condition(r) then |r.booking.seats| else 0
  }

  predicate IsLive(r: Row) {
    Live(r.booking)
  }

  predicate IsOwed(r: Row) {
    r.account.claim.Owed?
  }

  /** Cancelled, and nobody has released or will release its tokens. */
  predicate IsLost(r: Row) {
    !Live(r.booking) && (r.account.claim.Unreported? || r.account.claim.Forfeited?)
  }

  predicate IsPromoted(r: Row) {
    r.account.origin.Promoted?
  }

  /** Created by a request that listed no seat, so that its seats, if any, took no token. */
  predicate IsPhantom(r: Row) {
    r.account.origin.Direct? && r.account.origin.debit == 0
  }

  function HeldBy(e: EventId, dead: bool): Client -> int {
    (c: Client) => if c.Dead? == dead then HoldIn(e)(c) else 0
  }

  function SeatsThat(s: Sys, e: EventId, condition: Row -> bool): int
    requires Aligned(s)
  {
    Sum(RowsOf(s), SeatsIf(e, condition))
  }

  function LiveSeats(s: Sys, e: EventId): int
    requires Aligned(s)
  {
    SeatsThat(s, e, IsLive)
  }

  /** Tokens a running client holds for an insert or is about to release. */
  function InFlight(s: Sys, e: EventId): int
    requires Aligned(s)
  {
    Sum(s.clients, HeldBy(e, false)) + SeatsThat(s, e, IsOwed)
  }

  /** Tokens of failed or crashed attempts, and of cancelled bookings whose tokens stay away. */
  function Lost(s: Sys, e: EventId): int
    requires Aligned(s)
  {
    Sum(s.clients, HeldBy(e, true)) + SeatsThat(s, e, IsLost)
  }

  // ----- The law -----

  /** A booking is exactly one of live, owed, released and lost. */
  lemma RowBalance(s: Sys, b: nat, e: EventId)
    requires Aligned(s) && b < |s.accounts| && RowOk(s, b)
    ensures var r := RowsOf(s)[b];
            DebitIn(e)(r) + SeatsIf(e, IsPromoted)(r) + SeatsIf(e, IsPhantom)(r)
            == SeatsIf(e, IsLive)(r) + SeatsIf(e, IsOwed)(r) + SeatsIf(e, IsLost)(r) + CreditIn(e)(r)
  {
    var r := RowsOf(s)[b];
    assert r == Row(s.store.db.bookings[b], s.accounts[b]);
    assert SeatsIf(e, IsLive)(r) == if r.booking.event == e && IsLive(r) then |r.booking.seats| else 0;
    assert SeatsIf(e, IsOwed)(r) == if r.booking.event == e && IsOwed(r) then |r.booking.seats| else 0;
    assert SeatsIf(e, IsLost)(r) == if r.booking.event == e && IsLost(r) then |r.booking.seats| else 0;
    assert SeatsIf(e, IsPromoted)(r) == if r.booking.event == e && IsPromoted(r) then |r.booking.seats| else 0;
    assert SeatsIf(e, IsPhantom)(r) == if r.booking.event == e && IsPhantom(r) then |r.booking.seats| else 0;
  }

  lemma {:induction false} RowsBalance(rows: seq<Row>, e: EventId)
    requires forall b :: 0 <= b < |rows| ==>
               var r := rows[b];
               DebitIn(e)(r) + SeatsIf(e, IsPromoted)(r) + SeatsIf(e, IsPhantom)(r)
               == SeatsIf(e, IsLive)(r) + SeatsIf(e, IsOwed)(r) + SeatsIf(e, IsLost)(r) + CreditIn(e)(r)
    ensures Sum(rows, DebitIn(e)) + Sum(rows, SeatsIf(e, IsPromoted)) + Sum(rows, SeatsIf(e, IsPhantom))
            == Sum(rows, SeatsIf(e, IsLive)) + Sum(rows, SeatsIf(e, IsOwed)) + Sum(rows, SeatsIf(e, IsLost))
               + Sum(rows, CreditIn(e))
  {
    if rows != [] {
      RowsBalance(rows[..|rows| - 1], e);
    }
  }

  lemma {:induction false} HoldsSplit(clients: seq<Client>, e: EventId)
    ensures Sum(clients, HoldIn(e)) == Sum(clients, HeldBy(e, false)) + Sum(clients, HeldBy(e, true))
    ensures Sum(clients, HeldBy(e, false)) >= 0 && Sum(clients, HeldBy(e, true)) >= 0
  {
    if clients != [] {
      var c := clients[|clients| - 1];
      HoldsSplit(clients[..|clients| - 1], e);
      assert HoldIn(e)(c) == HeldBy(e, false)(c) + HeldBy(e, true)(c);
    }
  }

  /**
   In every interleaving, with crashes and failing calls anywhere: tokens, live seats, tokens in flight
   and lost tokens add up to the capacity plus the seats that never took a token and the tokens that the
   reconciler gave.
   */
  lemma Conserved(s: Sys, e: EventId)
    requires Reachable(s) && e in s.store.db.events
    ensures Tokens(s.store.tokens, e) + LiveSeats(s, e) + InFlight(s, e) + Lost(s, e)
            == s.store.db.events[e].capacity + SeatsThat(s, e, IsPromoted) + SeatsThat(s, e, IsPhantom) + Given(s, e)
  {
    ReachableIsInv(s);
    StateConserved(s, e);
  }

  function LiveSeatsIn(e: EventId): Booking -> int {
    (b: Booking) => if b.event == e && Live(b) then |b.seats| else 0
  }

  /** The live seats, read off the bookings alone. */
  lemma LiveSeatsAreLive(s: Sys, e: EventId)
    requires Aligned(s)
    ensures LiveSeats(s, e) == Sum(s.store.db.bookings, LiveSeatsIn(e))
  {
    forall b | 0 <= b < |s.accounts|
      ensures SeatsIf(e, IsLive)(RowsOf(s)[b]) == LiveSeatsIn(e)(s.store.db.bookings[b])
    {
      var r := RowAt(s, b);
      assert RowsOf(s)[b] == r;
      assert SeatsIf(e, IsLive)(r) == if r.booking.event == e && IsLive(r) then |r.booking.seats| else 0;
    }
    SumCongruent(RowsOf(s), s.store.db.bookings, SeatsIf(e, IsLive), LiveSeatsIn(e));
  }

  /** None of the terms of the law is ever negative. */
  lemma NothingIsNegative(s: Sys, e: EventId)
    requires Reachable(s) && e in s.store.db.events
    ensures Tokens(s.store.tokens, e) >= 0 && LiveSeats(s, e) >= 0 && InFlight(s, e) >= 0 && Lost(s, e) >= 0
    ensures SeatsThat(s, e, IsPromoted) >= 0 && SeatsThat(s, e, IsPhantom) >= 0
  {
    ReachableIsInv(s);
    StateConserved(s, e);
  }

  lemma StateConserved(s: Sys, e: EventId)
    requires Inv(s) && e in s.store.db.events
    ensures Tokens(s.store.tokens, e) + LiveSeats(s, e) + InFlight(s, e) + Lost(s, e)
            == s.store.db.events[e].capacity + SeatsThat(s, e, IsPromoted) + SeatsThat(s, e, IsPhantom) + Given(s, e)
    ensures Tokens(s.store.tokens, e) >= 0 && LiveSeats(s, e) >= 0 && InFlight(s, e) >= 0 && Lost(s, e) >= 0
    ensures SeatsThat(s, e, IsPromoted) >= 0 && SeatsThat(s, e, IsPhantom) >= 0
  {
    assert LedgerOk(s, e);
    forall b | 0 <= b < |s.accounts|
      ensures var r := RowsOf(s)[b];
              DebitIn(e)(r) + SeatsIf(e, IsPromoted)(r) + SeatsIf(e, IsPhantom)(r)
              == SeatsIf(e, IsLive)(r) + SeatsIf(e, IsOwed)(r) + SeatsIf(e, IsLost)(r) + CreditIn(e)(r)
    {
      RowBalance(s, b, e);
    }
    RowsBalance(RowsOf(s), e);
    HoldsSplit(s.clients, e);
    SumNonNegative(RowsOf(s), SeatsIf(e, IsLive));
    SumNonNegative(RowsOf(s), SeatsIf(e, IsOwed));
    SumNonNegative(RowsOf(s), SeatsIf(e, IsLost));
    SumNonNegative(RowsOf(s), SeatsIf(e, IsPromoted));
    SumNonNegative(RowsOf(s), SeatsIf(e, IsPhantom));
  }

  /** Seats are oversold by promoted seats, seats of label-less requests and tokens given at most. */
  lemma NoOverselling(s: Sys, e: EventId)
    requires Reachable(s) && e in s.store.db.events
    ensures LiveSeats(s, e)
            <= s.store.db.events[e].capacity + SeatsThat(s, e, IsPromoted) + SeatsThat(s, e, IsPhantom) + Given(s, e)
  {
    Conserved(s, e);
    NothingIsNegative(s, e);
  }

  /**
   Unless the reconciler intervened, live seats, tokens, tokens in flight and lost tokens make up the capacity exactly
   when there are no such seats.
   */
  lemma PlainLawIff(s: Sys, e: EventId)
    requires Reachable(s) && e in s.store.db.events && Given(s, e) == 0
    ensures Tokens(s.store.tokens, e) + LiveSeats(s, e) + InFlight(s, e) + Lost(s, e) == s.store.db.events[e].capacity
            <==> SeatsThat(s, e, IsPromoted) == 0 && SeatsThat(s, e, IsPhantom) == 0
  {
    Conserved(s, e);
    NothingIsNegative(s, e);
  }

  // ----- Requests that list seats -----

  /** A request for event `e` lists a seat. */
  predicate ListsSeats(c: Client, e: EventId) {
    (c.CreateGetEvent? || c.CreateGetKey? || c.CreateReserve? || c.CreateInsert?) && c.e == e ==> c.seats != []
  }

  predicate Proper(s: Sys, e: EventId)
    requires Aligned(s)
  {
    && (forall i :: 0 <= i < |s.clients| ==> ListsSeats(s.clients[i], e))
    && (forall b :: 0 <= b < |s.accounts| && s.store.db.bookings[b].event == e ==> !IsPhantom(RowAt(s, b)))
  }

  lemma ClientsStayProper(s: Sys, a: Action, e: EventId)
    requires Aligned(s) && (forall i :: 0 <= i < |s.clients| ==> ListsSeats(s.clients[i], e))
    requires a.Spawn? ==> ListsSeats(a.c, e)
    ensures forall i :: 0 <= i < |Step(s, a).clients| ==> ListsSeats(Step(s, a).clients[i], e)
  {
    StepEffect(s, a);
    hide Step, Apply, Follows, ListsSeats;
    if a.Go? && a.i < |s.clients| {
      ListsOn(s.clients[a.i], Step(s, a).clients[a.i], e);
    } else if a.Crash? && a.i < |s.clients| {
      StoppedListsNothing(s.clients[a.i], e);
    }
  }

  lemma ListsOn(c: Client, c': Client, e: EventId)
    requires Follows(c, c') && ListsSeats(c, e)
    ensures ListsSeats(c', e)
  {
  }

  lemma StoppedListsNothing(c: Client, e: EventId)
    ensures ListsSeats(Dead(c), e)
  {
  }

  lemma StepKeepsProper(s: Sys, a: Action, e: EventId)
    requires Inv(s) && Proper(s, e)
    requires a.Spawn? ==> ListsSeats(a.c, e)
    ensures Proper(Step(s, a), e)
  {
    hide ShapeOk, SumsOk, TokensOk, ListsSeats, Step;
    var s' := Step(s, a);
    ClientsStayProper(s, a, e);
    StepGrows(s, a);
    forall b | 0 <= b < |s'.accounts| && s'.store.db.bookings[b].event == e
      ensures !IsPhantom(RowAt(s', b))
    {
      if b < |s.accounts| {
        assert Grows(RowAt(s, b), RowAt(s', b));
      } else {
        BirthOf(s, a, b);
        BornProperly(s.clients[a.i], s'.store.db.bookings[b], s'.accounts[b].origin, e);
      }
    }
  }

  lemma BornProperly(c: Client, b: Booking, origin: Origin, e: EventId)
    requires Born(c, b, origin) && ListsSeats(c, e) && b.event == e
    ensures !(origin.Direct? && origin.debit == 0)
  {
  }

  lemma {:induction false} RunKeepsProper(s: Sys, actions: seq<Action>, e: EventId)
    requires Inv(s) && Proper(s, e)
    requires forall a :: a in actions ==> a.Spawn? ==> ListsSeats(a.c, e)
    ensures Proper(Run(s, actions), e)
  {
    hide ShapeOk, SumsOk, TokensOk, Proper;
    if actions != [] {
      var front := actions[..|actions| - 1];
      RunKeepsProper(s, front, e);
      RunKeepsInv(s, front);
      StepKeepsProper(Run(s, front), actions[|actions| - 1], e);
    }
  }

  /**
   If every request for the event lists at least one seat, live seats exceed the capacity by promoted seats at most.
   */
  lemma NoOversellingOfRequests(users: set<nat>, actions: seq<Action>, s: Sys, e: EventId)
    requires s == Run(Init(users), actions) && e in s.store.db.events
    requires forall a :: a in actions ==> a.Spawn? ==> ListsSeats(a.c, e)
    ensures SeatsThat(s, e, IsPhantom) == 0
    ensures LiveSeats(s, e) <= s.store.db.events[e].capacity + SeatsThat(s, e, IsPromoted) + Given(s, e)
  {
    RunKeepsProper(Init(users), actions, e);
    NoPhantoms(s, e);
    NoOverselling(s, e);
  }

  predicate Reconciles(c: Client) {
    c.ReconcileRead? || c.ReconcileGive? || c.ReconcileTake?
  }

  /** Only the reconciler gives tokens. */
  lemma {:induction false} NothingGiven(users: set<nat>, actions: seq<Action>)
    requires forall a :: a in actions ==> a.Spawn? ==> !a.c.ReconcileRead?
    ensures Run(Init(users), actions).given == map[]
    ensures forall c :: c in Run(Init(users), actions).clients ==> !Reconciles(c)
  {
    if actions != [] {
      var s, a := Run(Init(users), actions[..|actions| - 1]), actions[|actions| - 1];
      NothingGiven(users, actions[..|actions| - 1]);
      assert a in actions;
      NobodyReconciles(s, a);
      OthersGiveNothing(s, a);
    }
  }

  lemma NobodyReconciles(s: Sys, a: Action)
    requires Aligned(s) && (forall c :: c in s.clients ==> !Reconciles(c))
    requires a.Spawn? ==> !a.c.ReconcileRead?
    ensures forall c :: c in Step(s, a).clients ==> !Reconciles(c)
  {
    StepEffect(s, a);
    assert a.Go? && a.i < |s.clients| ==> s.clients[a.i] in s.clients;
  }

  lemma OthersGiveNothing(s: Sys, a: Action)
    requires Aligned(s) && (a.Go? && a.i < |s.clients| ==> !Reconciles(s.clients[a.i]))
    ensures Step(s, a).given == s.given
  {
    if a.Go? && a.i < |s.clients| {
      hide GoCreate, GoCancel, GoPay, GoTimeout, GoRefund, GoReconcile;
      KeepsGiven(s, a.i, a.ok, a.now, a.pick);
    }
  }

  lemma KeepsGiven(s: Sys, i: nat, ok: bool, now: int, pick: Entry)
    requires Aligned(s) && i < |s.clients|
    ensures GoCreate(s, i, ok, now).given == GoCancel(s, i, ok, pick).given == GoPay(s, i, ok).given == s.given
    ensures GoTimeout(s, i, ok, pick).given == GoRefund(s, i, ok).given == s.given
  {
  }

  // ----- The reserved counter -----

  function BookedIn(e: EventId): Booking -> int {
    (b: Booking) => if b.event == e && b.status == Booked then 1 else 0
  }

  /** The counter's excess over the booked bookings: stale finalizations and admin cancellations. */
  function ExcessIn(e: EventId): Row -> int {
    (r: Row) => if r.booking.event == e then r.account.stale + r.account.calledOff else 0
  }

  lemma {:induction false} ReservedSplit(bookings: seq<Booking>, accounts: seq<Account>, e: EventId)
    requires |accounts| == |bookings|
    ensures Sum(Rows(bookings, accounts), ReservedIn(e))
            == Sum(bookings, BookedIn(e)) + Sum(Rows(bookings, accounts), ExcessIn(e))
    ensures Sum(bookings, BookedIn(e)) >= 0 && Sum(Rows(bookings, accounts), ExcessIn(e)) >= 0
  {
    if bookings != [] {
      var n := |bookings| - 1;
      ReservedSplit(bookings[..n], accounts[..n], e);
      assert Rows(bookings, accounts)[..n] == Rows(bookings[..n], accounts[..n]);
      assert ReservedIn(e)(Row(bookings[n], accounts[n]))
          == BookedIn(e)(bookings[n]) + ExcessIn(e)(Row(bookings[n], accounts[n]));
    }
  }

  /** In every interleaving `reserved` counts the booked bookings plus an excess that is accounted for. */
  lemma ReservedCountsBookings(s: Sys, e: EventId)
    requires Reachable(s) && e in s.store.db.events
    ensures var booked := Sum(s.store.db.bookings, BookedIn(e));
            && s.store.db.events[e].reserved == booked + Sum(RowsOf(s), ExcessIn(e))
            && s.store.db.events[e].reserved >= booked >= 0
  {
    ReachableIsInv(s);
    assert ReservedOk(s, e);
    ReservedSplit(s.store.db.bookings, s.accounts, e);
  }

  // ----- The life of a booking -----

  predicate Leads(before: BookingStatus, after: BookingStatus) {
    before == after || before == Pending || (before == Booked && after == Cancelled)
  }

  /** What a step may do to a booking and its account. */
  predicate Grows(before: Row, after: Row) {
    && Leads(before.booking.status, after.booking.status)
    && after.booking.event == before.booking.event
    && after.booking.user == before.booking.user
    && after.booking.key == before.booking.key
    && after.account.origin == before.account.origin
    && (before.booking.seats != [] || before.booking.status != Pending ==> after.booking.seats == before.booking.seats)
    && Effective(after.booking.seats) == Effective(before.booking.seats)
    && before.account.reports <= after.account.reports
    && before.account.releases <= after.account.releases
    && before.account.stale <= after.account.stale
    && before.account.calledOff <= after.account.calledOff
    && (after.account.reports > before.account.reports ==> Live(before.booking) && !Live(after.booking))
    && (IsLost(before) ==> IsLost(after))
  }

  function RowAt(s: Sys, b: nat): Row
    requires Aligned(s) && b < |s.accounts|
  {
    Row(s.store.db.bookings[b], s.accounts[b])
  }

  predicate AllGrow(s: Sys, s': Sys)
    requires Aligned(s) && Aligned(s')
  {
    && |s.accounts| <= |s'.accounts|
    && forall b :: 0 <= b < |s.accounts| ==> Grows(RowAt(s, b), RowAt(s', b))
  }

  lemma GrowsTransitive(s: Sys, s': Sys, s'': Sys)
    requires Aligned(s) && Aligned(s') && Aligned(s'') && AllGrow(s, s') && AllGrow(s', s'')
    ensures AllGrow(s, s'')
  {
    forall b | 0 <= b < |s.accounts|
      ensures Grows(RowAt(s, b), RowAt(s'', b))
    {
      assert Grows(RowAt(s, b), RowAt(s', b));
      assert Grows(RowAt(s', b), RowAt(s'', b));
    }
  }

  lemma QuietGrows(s: Sys, s': Sys)
    requires Aligned(s) && Aligned(s') && AccountsKept(s.accounts, s'.accounts)
    requires SameLife(s.store.db.bookings, s'.store.db.bookings)
    ensures AllGrow(s, s')
  {
  }

  lemma CancelBeginGrows(s: Sys, i: nat, ok: bool, pick: Entry)
    requires Aligned(s) && ShapeOk(s) && i < |s.clients| && s.clients[i].CancelBegin?
    ensures AllGrow(s, GoCancel(s, i, ok, pick))
  {
    var s', b := GoCancel(s, i, ok, pick), s.clients[i].b;
    if ok && b < |s.accounts| {
      assert RowOk(s, b);
      assert Grows(RowAt(s, b), RowAt(s', b));
    }
  }

  lemma ReleaseGrows(s: Sys, i: nat, ok: bool, pick: Entry)
    requires Aligned(s) && ShapeOk(s) && i < |s.clients| && s.clients[i].CancelRelease?
    ensures AllGrow(s, GoCancel(s, i, ok, pick))
  {
    var s', b := GoCancel(s, i, ok, pick), s.clients[i].b;
    assert ClientOk(s, i);
    assert Grows(RowAt(s, b), RowAt(s', b));
  }

  lemma FinalizeGrows(s: Sys, i: nat, ok: bool)
    requires Aligned(s) && ShapeOk(s) && i < |s.clients| && s.clients[i].PayFinalize?
    ensures AllGrow(s, GoPay(s, i, ok))
  {
    assert ClientOk(s, i);
  }

  lemma TimeoutCancelGrows(s: Sys, i: nat, ok: bool, pick: Entry)
    requires Aligned(s) && ShapeOk(s) && i < |s.clients| && s.clients[i].TimeoutCancel?
    ensures AllGrow(s, GoTimeout(s, i, ok, pick))
  {
    var s', b := GoTimeout(s, i, ok, pick), s.clients[i].b;
    if ok && b < |s.accounts| {
      assert RowOk(s, b);
      assert Grows(RowAt(s, b), RowAt(s', b));
    }
  }

  lemma CrashGrows(s: Sys, i: nat)
    requires Aligned(s) && ShapeOk(s) && i < |s.clients|
    ensures AllGrow(s, CrashClient(s, i))
  {
    assert ClientOk(s, i);
  }

  lemma ClientGrows(s: Sys, i: nat, ok: bool, now: int, pick: Entry)
    requires Aligned(s) && ShapeOk(s) && i < |s.clients|
    ensures AllGrow(s, GoClient(s, i, ok, now, pick))
  {
    hide AllGrow, GoCancel, GoPay, GoTimeout, GoCreate, GoReconcile, GoRefund, ShapeOk, Follows;
    var c := s.clients[i];
    if c.CancelBegin? {
      CancelBeginGrows(s, i, ok, pick);
    } else if c.CancelRelease? {
      ReleaseGrows(s, i, ok, pick);
    } else if c.PayFinalize? {
      FinalizeGrows(s, i, ok);
    } else if c.TimeoutCancel? {
      TimeoutCancelGrows(s, i, ok, pick);
    } else {
      hide GoClient;
      ClientMoves(s, i, ok, now, pick);
      QuietChange(s.store.db, if ok then CallChange(c) else Unchanged);
      QuietGrows(s, GoClient(s, i, ok, now, pick));
    }
  }

  lemma StepGrows(s: Sys, a: Action)
    requires Inv(s)
    ensures AllGrow(s, Step(s, a))
  {
    hide SumsOk, TokensOk, GoClient;
    if a.Go? && a.i < |s.clients| {
      ClientGrows(s, a.i, a.ok, a.now, a.pick);
    } else if a.Crash? && a.i < |s.clients| {
      CrashGrows(s, a.i);
    }
  }

  lemma {:induction false} RunGrows(s: Sys, actions: seq<Action>)
    requires Inv(s)
    ensures AllGrow(s, Run(s, actions))
  {
    if actions != [] {
      var front := Run(s, actions[..|actions| - 1]);
      RunGrows(s, actions[..|actions| - 1]);
      RunKeepsInv(s, actions[..|actions| - 1]);
      StepGrows(front, actions[|actions| - 1]);
      GrowsTransitive(s, front, Run(s, actions));
    }
  }

  /**
   From any point of any run on, a booking keeps its event, user, key and listed seats, is newly reported booked
   only as it is cancelled, and what is lost of it stays lost.
   */
  lemma BookingLife(s: Sys, actions: seq<Action>, b: BookingId)
    requires Reachable(s) && b < |s.accounts|
    ensures b < |Run(s, actions).accounts| && Grows(RowAt(s, b), RowAt(Run(s, actions), b))
  {
    ReachableIsInv(s);
    RunGrows(s, actions);
  }

  /** A booking only moves along pending, booked, cancelled. */
  lemma StatusIsMonotone(s: Sys, actions: seq<Action>, b: BookingId)
    requires Reachable(s) && b < |s.store.db.bookings|
    ensures b < |Run(s, actions).store.db.bookings|
    ensures Leads(s.store.db.bookings[b].status, Run(s, actions).store.db.bookings[b].status)
  {
    BookingLife(s, actions, b);
  }

  /** At most one cancellation reports a booking as booked, and at most one release follows it. */
  lemma ReportedAtMostOnce(s: Sys, b: BookingId)
    requires Reachable(s) && b < |s.accounts|
    ensures s.accounts[b].releases <= s.accounts[b].reports <= 1
  {
    ReachableIsInv(s);
    assert RowOk(s, b);
  }

  /** A booking made by a request, or by a cancellation for a waiting user, as the step that made it left it. */
  predicate Born(c: Client, b: Booking, origin: Origin) {
    (c.CreateInsert? || c.CancelPromote?)
    && b == Booking(c.u, c.e, Pending, c.seats, if c.CreateInsert? then c.key else None, 0, Unpaid)
    && origin == if c.CreateInsert? then Direct(|c.seats|) else Promoted
  }

  /**
   Bookings enter the table pending and in two ways only; those that count as promoted, and the tokens that the
   others took, are what the ledger says. A timeout never makes one.
   */
  lemma BookingBirth(s: Sys, a: Action, b: BookingId)
    requires Reachable(s) && |s.accounts| <= b < |Step(s, a).accounts|
    ensures var s' := Step(s, a);
            && b == |s.accounts| && |s'.accounts| == b + 1
            && a.Go? && a.i < |s.clients|
            && Born(s.clients[a.i], s'.store.db.bookings[b], s'.accounts[b].origin)
  {
    ReachableIsInv(s);
    BirthOf(s, a, b);
  }

  lemma BirthOf(s: Sys, a: Action, b: BookingId)
    requires Inv(s) && |s.accounts| <= b < |Step(s, a).accounts|
    ensures var s' := Step(s, a);
            && b == |s.accounts| && |s'.accounts| == b + 1
            && a.Go? && a.i < |s.clients|
            && Born(s.clients[a.i], s'.store.db.bookings[b], s'.accounts[b].origin)
  {
    hide ShapeOk, SumsOk, TokensOk;
    if a.Go? && a.i < |s.clients| {
      CreateBirth(s, a.i, a.ok, a.now);
      CancelBirth(s, a.i, a.ok, a.pick);
      if s.clients[a.i].TimeoutPromote? {
        TimeoutPromoteStep(s, a.i, a.ok, a.pick);
      }
      NoOtherBirth(s, a.i, a.ok, a.pick);
    }
  }

  /** Either no booking is added, or one, born of client `i`. */
  predicate BirthBy(s: Sys, s': Sys, i: nat)
    requires Aligned(s) && Aligned(s') && i < |s.clients|
  {
    var n := |s.accounts|;
    |s'.accounts| == n || (|s'.accounts| == n + 1 && Born(s.clients[i], s'.store.db.bookings[n], s'.accounts[n].origin))
  }

  lemma CreateBirth(s: Sys, i: nat, ok: bool, now: int)
    requires Aligned(s) && i < |s.clients|
    ensures BirthBy(s, GoCreate(s, i, ok, now), i)
  {
  }

  lemma CancelBirth(s: Sys, i: nat, ok: bool, pick: Entry)
    requires Aligned(s) && i < |s.clients|
    ensures BirthBy(s, GoCancel(s, i, ok, pick), i)
  {
  }

  lemma NoOtherBirth(s: Sys, i: nat, ok: bool, pick: Entry)
    requires Aligned(s) && i < |s.clients|
    ensures |GoPay(s, i, ok).accounts| == |GoRefund(s, i, ok).accounts| == |GoReconcile(s, i, ok).accounts|
            == |s.accounts|
    ensures !s.clients[i].TimeoutPromote? ==> |GoTimeout(s, i, ok, pick).accounts| == |s.accounts|
  {
  }

  /** The tokens counted as on their way back are those of clients that stand right before their release. */
  lemma OwedMeansReleasing(s: Sys, b: BookingId, i: nat)
    requires Reachable(s) && b < |s.accounts|
    ensures s.accounts[b].claim == Owed(i) <==> i < |s.clients| && s.clients[i].CancelRelease? && s.clients[i].b == b
  {
    ReachableIsInv(s);
    assert RowOk(s, b);
    if i < |s.clients| {
      assert ClientOk(s, i);
    }
  }

  // ----- Crashes -----

  lemma {:induction false} SumGrows<T>(s: seq<T>, t: seq<T>, f: T -> int)
    requires |s| <= |t|
    requires forall i :: 0 <= i < |s| ==> f(s[i]) <= f(t[i])
    requires forall i :: |s| <= i < |t| ==> 0 <= f(t[i])
    ensures Sum(s, f) <= Sum(t, f)
  {
    if |s| < |t| {
      SumGrows(s, t[..|t| - 1], f);
    } else if s != [] {
      SumGrows(s[..|s| - 1], t[..|t| - 1], f);
    }
  }

  predicate DeadKept(s: Sys, s': Sys) {
    && |s.clients| <= |s'.clients|
    && forall i :: 0 <= i < |s.clients| && s.clients[i].Dead? ==> s'.clients[i] == s.clients[i]
  }

  lemma ClientsStayDead(s: Sys, a: Action)
    requires Aligned(s)
    ensures DeadKept(s, Step(s, a))
  {
    StepEffect(s, a);
  }

  lemma LostRowGrows(r: Row, r': Row, e: EventId)
    requires Grows(r, r')
    ensures 0 <= SeatsIf(e, IsLost)(r) <= SeatsIf(e, IsLost)(r')
  {
    assert SeatsIf(e, IsLost)(r) == if r.booking.event == e && IsLost(r) then |r.booking.seats| else 0;
    assert SeatsIf(e, IsLost)(r') == if r'.booking.event == e && IsLost(r') then |r'.booking.seats| else 0;
  }

  /** What is lost never comes back. */
  lemma LostOnlyGrows(s: Sys, a: Action, e: EventId)
    requires Inv(s)
    ensures Lost(s, e) <= Lost(Step(s, a), e)
  {
    var s' := Step(s, a);
    StepGrows(s, a);
    ClientsStayDead(s, a);
    forall i | 0 <= i < |s'.clients|
      ensures HeldBy(e, true)(s'.clients[i]) >= 0
      ensures i < |s.clients| ==> HeldBy(e, true)(s.clients[i]) <= HeldBy(e, true)(s'.clients[i])
    {
      assert HeldBy(e, true)(s'.clients[i]) == if s'.clients[i].Dead? then HoldIn(e)(s'.clients[i]) else 0;
      if i < |s.clients| {
        assert HeldBy(e, true)(s.clients[i]) == if s.clients[i].Dead? then HoldIn(e)(s.clients[i]) else 0;
      }
    }
    SumGrows(s.clients, s'.clients, HeldBy(e, true));
    forall b | 0 <= b < |s.accounts|
      ensures SeatsIf(e, IsLost)(RowsOf(s)[b]) <= SeatsIf(e, IsLost)(RowsOf(s')[b])
    {
      LostRowGrows(RowAt(s, b), RowAt(s', b), e);
    }
    SumGrows(RowsOf(s), RowsOf(s'), SeatsIf(e, IsLost));
  }

  /** Rows that agree on the booking and its origin agree on the seats they count. */
  lemma SameSeats(s: Sys, s': Sys, e: EventId)
    requires Aligned(s) && Aligned(s') && s'.store.db.bookings == s.store.db.bookings
    requires forall b :: 0 <= b < |s.accounts| ==> s'.accounts[b].origin == s.accounts[b].origin
    ensures LiveSeats(s', e) == LiveSeats(s, e)
    ensures SeatsThat(s', e, IsPromoted) == SeatsThat(s, e, IsPromoted)
    ensures SeatsThat(s', e, IsPhantom) == SeatsThat(s, e, IsPhantom)
  {
    forall b | 0 <= b < |s.accounts|
      ensures SeatsIf(e, IsLive)(RowsOf(s)[b]) == SeatsIf(e, IsLive)(RowsOf(s')[b])
      ensures SeatsIf(e, IsPromoted)(RowsOf(s)[b]) == SeatsIf(e, IsPromoted)(RowsOf(s')[b])
      ensures SeatsIf(e, IsPhantom)(RowsOf(s)[b]) == SeatsIf(e, IsPhantom)(RowsOf(s')[b])
    {
      var r, r' := RowsOf(s)[b], RowsOf(s')[b];
      assert r'.booking == r.booking && r'.account.origin == r.account.origin;
      assert IsLive(r) == IsLive(r') && IsPromoted(r) == IsPromoted(r') && IsPhantom(r) == IsPhantom(r');
    }
    SumCongruent(RowsOf(s), RowsOf(s'), SeatsIf(e, IsLive), SeatsIf(e, IsLive));
    SumCongruent(RowsOf(s), RowsOf(s'), SeatsIf(e, IsPromoted), SeatsIf(e, IsPromoted));
    SumCongruent(RowsOf(s), RowsOf(s'), SeatsIf(e, IsPhantom), SeatsIf(e, IsPhantom));
  }

  /** A crash frees no seat and no token: it can only turn tokens in flight into lost ones. */
  lemma CrashOnlyLoses(s: Sys, i: nat, e: EventId)
    requires Reachable(s) && e in s.store.db.events
    ensures var s' := Step(s, Crash(i));
            && s'.store == s.store
            && LiveSeats(s', e) == LiveSeats(s, e)
            && Lost(s, e) <= Lost(s', e)
            && InFlight(s', e) + Lost(s', e) == InFlight(s, e) + Lost(s, e)
  {
    hide ShapeOk, SumsOk, TokensOk, LiveSeats, InFlight, Lost;
    ReachableIsInv(s);
    StepKeepsInv(s, Crash(i));
    LostOnlyGrows(s, Crash(i), e);
    SameSeats(s, Step(s, Crash(i)), e);
    StateConserved(s, e);
    StateConserved(Step(s, Crash(i)), e);
  }

  // ----- What an event can still sell -----

  /** Tokens, live seats and tokens in flight. */
  function Committed(s: Sys, e: EventId): int
    requires Aligned(s)
  {
    Tokens(s.store.tokens, e) + LiveSeats(s, e) + InFlight(s, e)
  }

  /** The action hands event `e` no seat that takes no token, and no token from the reconciler. */
  predicate Ordinary(s: Sys, a: Action, e: EventId) {
    && (a.Spawn? ==> ListsSeats(a.c, e))
    && (a.Go? && a.i < |s.clients| ==>
          var c := s.clients[a.i];
          c.CancelPromote? || c.ReconcileGive? ==> c.e != e)
  }

  predicate OrdinaryRun(s: Sys, actions: seq<Action>, e: EventId)
    requires Aligned(s)
  {
    actions == [] || (
      var front := actions[..|actions| - 1];
      OrdinaryRun(s, front, e) && Ordinary(Run(s, front), actions[|actions| - 1], e))
  }

  predicate KeepsCapacity(s: Sys, s': Sys, e: EventId) {
    e in s.store.db.events ==>
      e in s'.store.db.events && s'.store.db.events[e].capacity == s.store.db.events[e].capacity
  }

  predicate SameCapacity(s: Sys, s': Sys, e: EventId) {
    && (e in s'.store.db.events <==> e in s.store.db.events)
    && KeepsCapacity(s, s', e)
  }

  lemma ChangeKeepsCapacity(db: Tables, change: Change, e: EventId)
    ensures e in db.events ==>
              e in Apply(db, change).events && Apply(db, change).events[e].capacity == db.events[e].capacity
    ensures !change.Opened? ==> Apply(db, change).events.Keys == db.events.Keys
  {
  }

  lemma StepKeepsCapacity(s: Sys, a: Action, e: EventId)
    requires Aligned(s)
    ensures KeepsCapacity(s, Step(s, a), e)
    ensures !a.OpenEvent? ==> SameCapacity(s, Step(s, a), e)
  {
    hide Step, Apply;
    StepEffect(s, a);
    ChangeKeepsCapacity(s.store.db, ChangeOf(s, a), e);
  }

  lemma ReconcileGivesLess(s: Sys, i: nat, ok: bool, e: EventId)
    requires Aligned(s) && i < |s.clients| && (s.clients[i].ReconcileGive? ==> s.clients[i].e != e)
    ensures Given(GoReconcile(s, i, ok), e) <= Given(s, e)
  {
  }

  lemma StepKeepsGiven(s: Sys, a: Action, e: EventId)
    requires Aligned(s) && Ordinary(s, a, e)
    ensures Given(Step(s, a), e) <= Given(s, e)
  {
    if a.Go? && a.i < |s.clients| {
      if Reconciles(s.clients[a.i]) {
        ReconcileGivesLess(s, a.i, a.ok, e);
      } else {
        OthersGiveNothing(s, a);
      }
    }
  }

  /** An old row contributes as before, and a new one is not promoted for the event. */
  lemma PromotedRow(s: Sys, a: Action, e: EventId, b: BookingId)
    requires Inv(s) && Ordinary(s, a, e) && b < |Step(s, a).accounts|
    ensures var r' := RowAt(Step(s, a), b);
            SeatsIf(e, IsPromoted)(r') == if b < |s.accounts| then SeatsIf(e, IsPromoted)(RowAt(s, b)) else 0
  {
    var r' := RowAt(Step(s, a), b);
    assert SeatsIf(e, IsPromoted)(r') == if r'.booking.event == e && IsPromoted(r') then |r'.booking.seats| else 0;
    if b < |s.accounts| {
      StepGrows(s, a);
      var r := RowAt(s, b);
      assert Grows(r, r') && RowOk(s, b);
      assert SeatsIf(e, IsPromoted)(r) == if r.booking.event == e && IsPromoted(r) then |r.booking.seats| else 0;
    } else {
      BirthOf(s, a, b);
    }
  }

  lemma StepKeepsPromoted(s: Sys, a: Action, e: EventId)
    requires Inv(s) && Ordinary(s, a, e)
    ensures SeatsThat(Step(s, a), e, IsPromoted) == SeatsThat(s, e, IsPromoted)
  {
    var s' := Step(s, a);
    StepGrows(s, a);
    forall b | 0 <= b < |s'.accounts|
      ensures SeatsIf(e, IsPromoted)(RowsOf(s')[b])
              == if b < |s.accounts| then SeatsIf(e, IsPromoted)(RowsOf(s)[b]) else 0
    {
      PromotedRow(s, a, e, b);
    }
    SumTail(RowsOf(s), RowsOf(s'), SeatsIf(e, IsPromoted));
  }

  lemma NoPhantoms(s: Sys, e: EventId)
    requires Aligned(s) && Proper(s, e)
    ensures SeatsThat(s, e, IsPhantom) == 0
  {
    SumZero(RowsOf(s), SeatsIf(e, IsPhantom));
  }

  /** An ordinary step commits an event to no more than before. */
  lemma OrdinaryStep(s: Sys, a: Action, e: EventId)
    requires Inv(s) && Proper(s, e) && Ordinary(s, a, e) && e in s.store.db.events
    ensures var s' := Step(s, a);
            && Inv(s') && Proper(s', e) && e in s'.store.db.events
            && s'.store.db.events[e].capacity == s.store.db.events[e].capacity
            && Committed(s', e) <= Committed(s, e)
  {
    hide ShapeOk, SumsOk, TokensOk, LiveSeats, InFlight, Lost, SeatsThat, Proper;
    var s' := Step(s, a);
    StepKeepsInv(s, a);
    StepKeepsProper(s, a, e);
    StepKeepsCapacity(s, a, e);
    StepKeepsGiven(s, a, e);
    StepKeepsPromoted(s, a, e);
    NoPhantoms(s, e);
    NoPhantoms(s', e);
    LostOnlyGrows(s, a, e);
    StateConserved(s, e);
    StateConserved(s', e);
  }

  /** Runs that promote nobody for the event, list seats and give it no tokens never commit it to more. */
  lemma {:induction false} OrdinaryRunCommitsNoMore(s: Sys, actions: seq<Action>, e: EventId)
    requires Inv(s) && Proper(s, e) && e in s.store.db.events && OrdinaryRun(s, actions, e)
    ensures var s' := Run(s, actions);
            && Inv(s') && Proper(s', e) && e in s'.store.db.events
            && s'.store.db.events[e].capacity == s.store.db.events[e].capacity
            && Committed(s', e) <= Committed(s, e)
  {
    hide ShapeOk, SumsOk, TokensOk, Committed, Proper, Ordinary;
    if actions != [] {
      OrdinaryRunCommitsNoMore(s, actions[..|actions| - 1], e);
      OrdinaryStep(Run(s, actions[..|actions| - 1]), actions[|actions| - 1], e);
    }
  }

  // ----- Timeouts -----

  /**
   Once a timeout has gone past its pending check or its cancellation, its booking is not pending at any
   later point, whatever payments and cancellations run beside it.
   */
  lemma TimedOutIsNeverPending(s: Sys, actions: seq<Action>, i: nat)
    requires Reachable(s) && i < |s.clients| && PastTimeout(LastCall(s.clients[i]))
    ensures var b, s' := LastCall(s.clients[i]).b, Run(s, actions);
            b < |s'.store.db.bookings| && s'.store.db.bookings[b].status != Pending
  {
    ReachableIsInv(s);
    assert ClientOk(s, i);
    BookingLife(s, actions, LastCall(s.clients[i]).b);
  }

  /** A timeout changes nothing but, in one step, the booking it cancels: it never promotes anyone. */
  lemma TimeoutPromotesNobody(s: Sys, i: nat, ok: bool, now: int, pick: Entry)
    requires Reachable(s) && i < |s.clients|
    requires s.clients[i].TimeoutRead? || s.clients[i].TimeoutNext? || s.clients[i].TimeoutPromote?
    ensures Step(s, Go(i, ok, now, pick)).store == s.store
  {
    hide ShapeOk, SumsOk, TokensOk;
    ReachableIsInv(s);
    if s.clients[i].TimeoutPromote? {
      TimeoutPromoteStep(s, i, ok, pick);
    }
  }
}
