/** The inductive invariant of the interleaved protocol: every step of every client keeps it. */
module ProtocolInvariant {
  import opened Collections
  import opened Model
  import opened StoreCalls
  import opened Protocol

  /** A booking together with its account. */
  datatype Row = Row(booking: Booking, account: Account)

  function Rows(bookings: seq<Booking>, accounts: seq<Account>): seq<Row>
    requires |accounts| == |bookings|
  {
    seq(|bookings|, i requires 0 <= i < |bookings| => Row(bookings[i], accounts[i]))
  }

  function RowsOf(s: Sys): seq<Row>
    requires Aligned(s)
  {
    Rows(s.store.db.bookings, s.accounts)
  }

  // ----- What a row or a client contributes to an event's totals -----

  function Debit(a: Account): nat {
    if a.origin.Direct? then a.origin.debit else 0
  }

  function DebitIn(e: EventId): Row -> int {
    (r: Row) => if r.booking.event == e then Debit(r.account) else 0
  }

  function CreditIn(e: EventId): Row -> int {
    (r: Row) => if r.booking.event == e && r.account.releases == 1 then |r.booking.seats| else 0
  }

  /** Tokens taken by an attempt that has not inserted its booking, whether or not it still runs. */
  function HoldIn(e: EventId): Client -> int {
    (c: Client) =>
      if c.CreateInsert? && c.e == e then |c.seats|
      else if c.Dead? && c.last.CreateInsert? && c.last.e == e then |c.last.seats|
      else 0
  }

  predicate Holding(c: Client) {
    c.CreateInsert? || (c.Dead? && c.last.CreateInsert?)
  }

  /** A client that moves from `c` to `c'` holds the same tokens: none, or those it stops with. */
  predicate SameHold(c: Client, c': Client) {
    if c.CreateInsert? then c' == Dead(c) else !Holding(c) && !Holding(c')
  }

  lemma SameHoldIn(c: Client, c': Client, e: EventId)
    requires SameHold(c, c')
    ensures HoldIn(e)(c') == HoldIn(e)(c)
  {
  }

  function ReservedIn(e: EventId): Row -> int {
    (r: Row) =>
      if r.booking.event == e
      then (if r.booking.status == Booked then 1 else 0) + r.account.stale + r.account.calledOff
      else 0
  }

  // ----- The invariant -----

  predicate LedgerOk(s: Sys, e: EventId)
    requires Aligned(s) && e in s.store.db.events
  {
    Tokens(s.store.tokens, e) + Sum(RowsOf(s), DebitIn(e)) + Sum(s.clients, HoldIn(e))
    == s.store.db.events[e].capacity + Sum(RowsOf(s), CreditIn(e)) + Given(s, e)
  }

  predicate ReservedOk(s: Sys, e: EventId)
    requires Aligned(s) && e in s.store.db.events
  {
    s.store.db.events[e].reserved == Sum(RowsOf(s), ReservedIn(e))
  }

  predicate SumsOk(s: Sys)
    requires Aligned(s)
  {
    forall e :: e in s.store.db.events ==> LedgerOk(s, e) && ReservedOk(s, e)
  }

  predicate RowOk(s: Sys, b: nat)
    requires Aligned(s) && b < |s.accounts|
  {
    var row, a := s.store.db.bookings[b], s.accounts[b];
    && row.event in s.store.db.events
    && a.reports <= 1
    && a.releases <= 1
    && (a.claim.Unreported? <==> a.reports == 0)
    && (a.claim.Settled? <==> a.releases == 1)
    && (a.reports == 1 ==> row.status == Cancelled && row.seats != [])
    && (row.status == Booked ==> row.seats != [])
    && (a.claim.Owed? ==>
          && a.claim.client < |s.clients|
          && s.clients[a.claim.client] == CancelRelease(b, row.event, row.seats))
    && (a.origin.Direct? && a.origin.debit > 0 ==> |row.seats| == a.origin.debit)
    && (a.origin.Direct? && a.origin.debit == 0 ==> |row.seats| <= 1)
    && (a.origin.Promoted? ==> row.seats != [])
    && (a.calledOff > 0 ==> row.status == Cancelled && a.reports == 0 && row.seats != [])
  }

  predicate Paying(c: Client) {
    c.PayCharge? || c.PayMark? || c.PayFinalize?
  }

  /** A timeout that has gone past its pending check or its cancellation. */
  predicate PastTimeout(c: Client) {
    c.TimeoutNext? || c.TimeoutPromote? || c.TimeoutPassed?
  }

  function LastCall(c: Client): Client {
    if c.Dead? then c.last else c
  }

  predicate ClientOk(s: Sys, i: nat)
    requires Aligned(s) && i < |s.clients|
  {
    var c, last, db := s.clients[i], LastCall(s.clients[i]), s.store.db;
    && (last.CreateInsert? || last.CreateReserve? || last.CreateGetKey? ==> last.e in db.events)
    && (c.ReconcileGive? || c.ReconcileTake? ==> c.e in db.events)
    && (c.CancelNext? || c.CancelPromote? ==> c.seats != [])
    && (c.CancelRelease? ==>
          && c.b < |db.bookings|
          && s.accounts[c.b].claim == Owed(i)
          && db.bookings[c.b].event == c.e
          && db.bookings[c.b].seats == c.seats)
    && (Paying(c) ==> c.b < |db.bookings| && Effective(db.bookings[c.b].seats) == c.seats)
    && (PastTimeout(last) ==> last.b < |db.bookings| && db.bookings[last.b].status != Pending)
    && (last.TimeoutPromote? ==> last.entry.WaitlistRow?)
  }

  predicate ShapeOk(s: Sys)
    requires Aligned(s)
  {
    && (forall b :: 0 <= b < |s.accounts| ==> RowOk(s, b))
    && (forall i :: 0 <= i < |s.clients| ==> ClientOk(s, i))
    && (forall u :: u in s.store.db.users ==> u.UserRow?)
    && (forall row :: row in s.store.db.waitlist ==> row.id.WaitlistRow?)
  }

  predicate TokensOk(s: Sys) {
    && (forall e :: e in s.store.tokens ==> 0 <= s.store.tokens[e])
    && (forall e :: e in s.given ==> e in s.store.db.events)
  }

  predicate Inv(s: Sys) {
    Aligned(s) && ShapeOk(s) && TokensOk(s) && SumsOk(s)
  }

  // ----- Steps that touch neither tokens nor bookings -----

  lemma ClientFits(s: Sys, i: nat)
    requires Inv(s) && i < |s.clients|
    ensures ClientOk(s, i)
  {
  }

  lemma EntriesFit(s: Sys)
    requires Inv(s)
    ensures forall row :: row in s.store.db.waitlist ==> row.id.WaitlistRow?
  {
  }

  lemma RowFits(s: Sys, b: BookingId)
    requires Inv(s) && b < |s.accounts|
    ensures RowOk(s, b)
  {
  }

  /** What every step may do to what other clients rely on. */
  predicate RowKept(before: Booking, after: Booking) {
    && after.event == before.event
    && Effective(after.seats) == Effective(before.seats)
    && (before.status != Pending ==> after.status != Pending)
  }

  lemma ClientKept(s: Sys, s': Sys, i: nat)
    requires Aligned(s) && Aligned(s') && i < |s.clients| && i < |s'.clients|
    requires s'.clients[i] == s.clients[i] && ClientOk(s, i)
    requires forall e :: e in s.store.db.events ==> e in s'.store.db.events
    requires |s.store.db.bookings| <= |s'.store.db.bookings|
    requires forall b :: 0 <= b < |s.store.db.bookings| ==>
               && RowKept(s.store.db.bookings[b], s'.store.db.bookings[b])
               && (s.accounts[b].claim == Owed(i) ==>
                     && s'.accounts[b].claim == Owed(i)
                     && s'.store.db.bookings[b].seats == s.store.db.bookings[b].seats)
    ensures ClientOk(s', i)
  {
  }

  /** A step of client `i` that changes no booking, account or token, and none of the counters. */
  lemma TableStep(s: Sys, s': Sys, i: nat)
    requires Inv(s) && i < |s.clients| && Aligned(s')
    requires |s'.clients| == |s.clients| && s'.clients == s.clients[i := s'.clients[i]]
    requires s'.accounts == s.accounts && s'.store.tokens == s.store.tokens && s'.given == s.given
    requires s'.store.db.bookings == s.store.db.bookings && s'.store.db.users == s.store.db.users
    requires s'.store.db.events.Keys == s.store.db.events.Keys
    requires forall e :: e in s.store.db.events ==>
               && s'.store.db.events[e].capacity == s.store.db.events[e].capacity
               && s'.store.db.events[e].reserved == s.store.db.events[e].reserved
    requires SameHold(s.clients[i], s'.clients[i])
    requires !s.clients[i].CancelRelease?
    requires ClientOk(s', i)
    requires forall row :: row in s'.store.db.waitlist ==> row.id.WaitlistRow?
    ensures Inv(s')
  {
    forall e | e in s'.store.db.events
      ensures LedgerOk(s', e) && ReservedOk(s', e)
    {
      assert LedgerOk(s, e) && ReservedOk(s, e);
      SameHoldIn(s.clients[i], s'.clients[i], e);
      SumUpdate(s.clients, i, s'.clients[i], HoldIn(e));
    }
    forall j | 0 <= j < |s'.clients|
      ensures ClientOk(s', j)
    {
      if j != i {
        assert ClientOk(s, j);
        ClientKept(s, s', j);
      }
    }
    forall b | 0 <= b < |s'.accounts|
      ensures RowOk(s', b)
    {
      assert RowOk(s, b);
    }
  }

  /** A step of client `i` that changes no table and no token. */
  lemma QuietStep(s: Sys, s': Sys, i: nat)
    requires Inv(s) && i < |s.clients|
    requires |s'.clients| == |s.clients| && s'.clients == s.clients[i := s'.clients[i]]
    requires s'.accounts == s.accounts && s'.store.tokens == s.store.tokens && s'.store.db == s.store.db
             && s'.given == s.given
    requires SameHold(s.clients[i], s'.clients[i])
    requires !s.clients[i].CancelRelease?
    requires ClientOk(s', i)
    ensures Inv(s')
  {
    hide SumsOk, TokensOk;
    TableStep(s, s', i);
  }

  /** Client `i` moves on and touches no store. */
  lemma QuietMove(s: Sys, i: nat, c: Client)
    requires Inv(s) && i < |s.clients| && !s.clients[i].CancelRelease?
    requires SameHold(s.clients[i], c) && ClientOk(Next(s, i, c), i)
    ensures Inv(Next(s, i, c))
  {
    hide ShapeOk, SumsOk, TokensOk;
    QuietStep(s, Next(s, i, c), i);
  }

  /** Clients other than `i` keep what they rely on, whatever client `i` did. */
  lemma OthersKept(s: Sys, s': Sys, i: nat)
    requires Aligned(s) && Aligned(s') && ShapeOk(s)
    requires |s.clients| <= |s'.clients|
    requires forall j :: 0 <= j < |s.clients| && j != i ==> s'.clients[j] == s.clients[j]
    requires forall e :: e in s.store.db.events ==> e in s'.store.db.events
    requires |s.store.db.bookings| <= |s'.store.db.bookings|
    requires forall b :: 0 <= b < |s.store.db.bookings| ==>
               && RowKept(s.store.db.bookings[b], s'.store.db.bookings[b])
               && (s.accounts[b].claim.Owed? && s.accounts[b].claim.client != i ==>
                     && s'.accounts[b].claim == s.accounts[b].claim
                     && s'.store.db.bookings[b].seats == s.store.db.bookings[b].seats)
    ensures forall j :: 0 <= j < |s.clients| && j != i ==> ClientOk(s', j)
  {
    forall j | 0 <= j < |s.clients| && j != i
      ensures ClientOk(s', j)
    {
      assert ClientOk(s, j);
      ClientKept(s, s', j);
    }
  }

  // ----- Steps that insert a booking -----

  lemma RowsAppend(bookings: seq<Booking>, accounts: seq<Account>, b: Booking, a: Account)
    requires |accounts| == |bookings|
    ensures Rows(bookings + [b], accounts + [a]) == Rows(bookings, accounts) + [Row(b, a)]
  {
  }

  lemma RowsUpdate(bookings: seq<Booking>, accounts: seq<Account>, i: nat, b: Booking, a: Account)
    requires |accounts| == |bookings| && i < |bookings|
    ensures Rows(bookings[i := b], accounts[i := a]) == Rows(bookings, accounts)[i := Row(b, a)]
  {
  }

  /** Inserting a booking while client `i` moves from holding its debit to holding nothing. */
  lemma InsertStep(s: Sys, s': Sys, i: nat, booking: Booking, origin: Origin, c: Client)
    requires Inv(s) && i < |s.clients|
    requires s' == Next(WithNewBooking(s, s.store.db.(bookings := s.store.db.bookings + [booking]), origin), i, c)
    requires booking.event in s.store.db.events && booking.status == Pending
    requires if origin.Direct? then origin.debit == |booking.seats| else booking.seats != []
    requires !Holding(c)
    requires forall e :: HoldIn(e)(s.clients[i]) == DebitIn(e)(Row(booking, NewAccount(origin)))
    requires !s.clients[i].CancelRelease?
    requires ClientOk(s', i)
    ensures Inv(s')
  {
    RowsAppend(s.store.db.bookings, s.accounts, booking, NewAccount(origin));
    var row := Row(booking, NewAccount(origin));
    forall e | e in s'.store.db.events
      ensures LedgerOk(s', e) && ReservedOk(s', e)
    {
      assert LedgerOk(s, e) && ReservedOk(s, e);
      SumUpdate(s.clients, i, c, HoldIn(e));
      SumAppend(RowsOf(s), row, DebitIn(e));
      SumAppend(RowsOf(s), row, CreditIn(e));
      SumAppend(RowsOf(s), row, ReservedIn(e));
    }
    OthersKept(s, s', i);
    forall b | 0 <= b < |s'.accounts|
      ensures RowOk(s', b)
    {
      if b < |s.accounts| {
        assert RowOk(s, b);
      }
    }
  }

  lemma CreateStepKeepsInv(s: Sys, i: nat, ok: bool, now: int)
    requires Inv(s) && i < |s.clients|
    ensures Inv(GoCreate(s, i, ok, now))
  {
    hide ShapeOk, SumsOk, TokensOk;
    match s.clients[i]
    case CreateReserve(e, u, key, seats) => ReserveStep(s, i, ok, now);
    case CreateInsert(e, u, key, seats) => DirectInsertStep(s, i, ok, now);
    case CreateGetEvent(_, _, _, _) => GetEventStep(s, i, ok, now);
    case CreateGetKey(_, _, _, _) => GetKeyStep(s, i, ok, now);
    case CreateExpire(_) => ExpireStep(s, i, ok, now);
    case JoinMax(_, _) => JoinMaxStep(s, i, ok, now);
    case JoinInsert(_, _, _) => JoinInsertStep(s, i, ok, now);
    case _ =>
  }

  /** Where a request goes after reading its event. */
  function AfterGetEvent(events: map<EventId, Event>, c: Client, ok: bool, now: int): (c': Client)
    requires c.CreateGetEvent?
    ensures c'.Done? || c'.CreateExpire? || c' == Dead(c) || ((c'.CreateGetKey? || c'.CreateReserve?) && c'.e in events)
  {
    if !ok then Dead(c)
    else if c.e !in events then Done
    else if events[c.e].endTime < now then CreateExpire(c.e)
    else if |c.seats| > events[c.e].maxTickets then Done
    else if NeedsKeyCheck(c.key) then CreateGetKey(c.e, c.u, c.key, c.seats)
    else CreateReserve(c.e, c.u, c.key, c.seats)
  }

  lemma GetEventStep(s: Sys, i: nat, ok: bool, now: int)
    requires Inv(s) && i < |s.clients| && s.clients[i].CreateGetEvent?
    ensures Inv(GoCreate(s, i, ok, now))
  {
    hide ShapeOk, SumsOk, TokensOk;
    var c' := AfterGetEvent(s.store.db.events, s.clients[i], ok, now);
    assert GoCreate(s, i, ok, now) == Next(s, i, c');
    GetEventMove(s, i, c');
  }

  lemma GetEventMove(s: Sys, i: nat, c': Client)
    requires Inv(s) && i < |s.clients| && s.clients[i].CreateGetEvent?
    requires c'.Done? || c'.CreateExpire? || c' == Dead(s.clients[i])
             || ((c'.CreateGetKey? || c'.CreateReserve?) && c'.e in s.store.db.events)
    ensures Inv(Next(s, i, c'))
  {
    hide ShapeOk, SumsOk, TokensOk;
    QuietMove(s, i, c');
  }

  lemma GetKeyStep(s: Sys, i: nat, ok: bool, now: int)
    requires Inv(s) && i < |s.clients| && s.clients[i].CreateGetKey?
    ensures Inv(GoCreate(s, i, ok, now))
  {
    hide ShapeOk, SumsOk, TokensOk;
    ClientFits(s, i);
    QuietStep(s, GoCreate(s, i, ok, now), i);
  }

  lemma ExpireStep(s: Sys, i: nat, ok: bool, now: int)
    requires Inv(s) && i < |s.clients| && s.clients[i].CreateExpire?
    ensures Inv(GoCreate(s, i, ok, now))
  {
    hide ShapeOk, SumsOk, TokensOk;
    EntriesFit(s);
    TableStep(s, GoCreate(s, i, ok, now), i);
  }

  lemma JoinMaxStep(s: Sys, i: nat, ok: bool, now: int)
    requires Inv(s) && i < |s.clients| && s.clients[i].JoinMax?
    ensures Inv(GoCreate(s, i, ok, now))
  {
    hide ShapeOk, SumsOk, TokensOk;
    QuietStep(s, GoCreate(s, i, ok, now), i);
  }

  lemma JoinInsertStep(s: Sys, i: nat, ok: bool, now: int)
    requires Inv(s) && i < |s.clients| && s.clients[i].JoinInsert?
    ensures Inv(GoCreate(s, i, ok, now))
  {
    hide ShapeOk, SumsOk, TokensOk;
    EntriesFit(s);
    TableStep(s, GoCreate(s, i, ok, now), i);
  }

  lemma DirectInsertStep(s: Sys, i: nat, ok: bool, now: int)
    requires Inv(s) && i < |s.clients| && s.clients[i].CreateInsert?
    ensures Inv(GoCreate(s, i, ok, now))
  {
    hide ShapeOk, SumsOk, TokensOk;
    var c := s.clients[i];
    if ok && InsertPending(s.store.db, c.u, c.e, c.key, c.seats).Some? {
      InsertStep(s, GoCreate(s, i, ok, now), i, Booking(c.u, c.e, Pending, c.seats, c.key, 0, Unpaid),
        Direct(|c.seats|), Done);
    } else {
      ClientFits(s, i);
      assert GoCreate(s, i, ok, now) == Next(s, i, Dead(c));
      QuietMove(s, i, Dead(c));
    }
  }

  lemma ReserveSums(s: Sys, i: nat, now: int)
    requires Aligned(s) && SumsOk(s) && i < |s.clients| && s.clients[i].CreateReserve?
    ensures SumsOk(GoCreate(s, i, true, now))
  {
    var s' := GoCreate(s, i, true, now);
    forall e | e in s'.store.db.events
      ensures LedgerOk(s', e) && ReservedOk(s', e)
    {
      assert LedgerOk(s, e) && ReservedOk(s, e);
      SumUpdate(s.clients, i, s'.clients[i], HoldIn(e));
    }
  }

  lemma ReserveShape(s: Sys, s': Sys, i: nat, c: Client)
    requires Inv(s) && i < |s.clients| && s.clients[i].CreateReserve? && c.CreateInsert? && c.e == s.clients[i].e
    requires s' == Next(s.(store := s.store.(tokens := s'.store.tokens)), i, c)
    ensures ShapeOk(s')
  {
    hide SumsOk, TokensOk;
    assert ClientOk(s, i);
    OthersKept(s, s', i);
    forall b | 0 <= b < |s'.accounts|
      ensures RowOk(s', b)
    {
      assert RowOk(s, b);
    }
  }

  lemma ReserveStep(s: Sys, i: nat, ok: bool, now: int)
    requires Inv(s) && i < |s.clients| && s.clients[i].CreateReserve?
    ensures Inv(GoCreate(s, i, ok, now))
  {
    hide ShapeOk, SumsOk;
    var s', c := GoCreate(s, i, ok, now), s.clients[i];
    ClientFits(s, i);
    if ok && ReserveTokens(s.store.tokens, c.e, |c.seats|).0 {
      ReserveSums(s, i, now);
      ReserveShape(s, s', i, CreateInsert(c.e, c.u, c.key, c.seats));
    } else {
      QuietStep(s, s', i);
    }
  }

  // ----- Steps that change one booking -----

  /** Row `b` moves what it contributes to event `e` by as much as the event's counters move. */
  predicate RowMoves(s: Sys, s': Sys, b: BookingId, e: EventId)
    requires Aligned(s) && Aligned(s') && b < |s.accounts| && b < |s'.accounts|
    requires e in s.store.db.events && e in s'.store.db.events
  {
    var r, r' := Row(s.store.db.bookings[b], s.accounts[b]), Row(s'.store.db.bookings[b], s'.accounts[b]);
    && s'.store.db.events[e].capacity == s.store.db.events[e].capacity
    && DebitIn(e)(r') == DebitIn(e)(r)
    && Tokens(s'.store.tokens, e) - Tokens(s.store.tokens, e) == CreditIn(e)(r') - CreditIn(e)(r)
    && s'.store.db.events[e].reserved - s.store.db.events[e].reserved == ReservedIn(e)(r') - ReservedIn(e)(r)
  }

  /** If only row `b` and client `i` changed, the totals move by what that row's contributions moved. */
  lemma RowStepSums(s: Sys, s': Sys, i: nat, b: BookingId)
    requires Aligned(s) && Aligned(s') && SumsOk(s) && i < |s.clients| && b < |s.accounts| && s'.given == s.given
    requires |s'.clients| == |s.clients| && s'.clients == s.clients[i := s'.clients[i]]
    requires |s'.accounts| == |s.accounts| && s'.accounts == s.accounts[b := s'.accounts[b]]
    requires s'.store.db.bookings == s.store.db.bookings[b := s'.store.db.bookings[b]]
    requires s'.store.db.events.Keys == s.store.db.events.Keys
    requires SameHold(s.clients[i], s'.clients[i])
    requires forall e :: e in s.store.db.events ==> RowMoves(s, s', b, e)
    ensures SumsOk(s')
  {
    var row' := Row(s'.store.db.bookings[b], s'.accounts[b]);
    RowsUpdate(s.store.db.bookings, s.accounts, b, row'.booking, row'.account);
    assert RowsOf(s') == RowsOf(s)[b := row'];
    forall e | e in s'.store.db.events
      ensures LedgerOk(s', e) && ReservedOk(s', e)
    {
      assert LedgerOk(s, e) && ReservedOk(s, e) && RowMoves(s, s', b, e);
      SameHoldIn(s.clients[i], s'.clients[i], e);
      SumUpdate(s.clients, i, s'.clients[i], HoldIn(e));
      SumUpdate(RowsOf(s), b, row', DebitIn(e));
      SumUpdate(RowsOf(s), b, row', CreditIn(e));
      SumUpdate(RowsOf(s), b, row', ReservedIn(e));
    }
  }

  /** The shape of every other row and client survives a change of row `b` by client `i`. */
  lemma RowStepShape(s: Sys, s': Sys, i: nat, b: BookingId)
    requires Aligned(s) && Aligned(s') && ShapeOk(s) && i < |s.clients| && b < |s.accounts|
    requires |s'.clients| == |s.clients| && s'.clients == s.clients[i := s'.clients[i]]
    requires |s'.accounts| == |s.accounts| && s'.accounts == s.accounts[b := s'.accounts[b]]
    requires s'.store.db.bookings == s.store.db.bookings[b := s'.store.db.bookings[b]]
    requires s'.store.db.events.Keys == s.store.db.events.Keys
    requires s'.store.db.users == s.store.db.users && s'.store.db.waitlist == s.store.db.waitlist
    requires RowKept(s.store.db.bookings[b], s'.store.db.bookings[b])
    requires s.accounts[b].claim.Owed? ==>
               if s.accounts[b].claim.client == i then !s'.accounts[b].claim.Owed?
               else s'.accounts[b].claim == s.accounts[b].claim
                    && s'.store.db.bookings[b].seats == s.store.db.bookings[b].seats
    requires s.clients[i].CancelRelease? ==> s.clients[i].b == b
    requires RowOk(s', b) && ClientOk(s', i)
    ensures ShapeOk(s')
  {
    OthersKept(s, s', i);
    forall x | 0 <= x < |s'.accounts|
      ensures RowOk(s', x)
    {
      assert RowOk(s, x);
    }
  }

  /** Client `i` runs the cancellation transaction and moves on to `c`; a report of booked opens a claim. */
  function CancelAs(s: Sys, i: nat, b: BookingId, claim: Claim, c: Client): (s': Sys)
    requires Aligned(s) && i < |s.clients| && b < |s.accounts|
    ensures Aligned(s')
  {
    var (db', wasBooked) := CancelTx(s.store.db, b).value;
    Next(if wasBooked then Report(WithDb(s, db'), b, claim) else WithDb(s, db'), i, c)
  }

  lemma CancelTxSums(s: Sys, s': Sys, i: nat, b: BookingId, claim: Claim, c: Client)
    requires Aligned(s) && SumsOk(s) && i < |s.clients| && b < |s.accounts| && RowOk(s, b)
    requires s' == CancelAs(s, i, b, claim, c)
    requires SameHold(s.clients[i], c)
    ensures SumsOk(s')
  {
    forall e | e in s.store.db.events
      ensures RowMoves(s, s', b, e)
    {
      hide SumsOk;
      CancelTxMoves(s, s', i, b, claim, c, e);
    }
    hide RowMoves;
    RowStepSums(s, s', i, b);
  }

  lemma CancelTxMoves(s: Sys, s': Sys, i: nat, b: BookingId, claim: Claim, c: Client, e: EventId)
    requires Aligned(s) && i < |s.clients| && b < |s.accounts| && RowOk(s, b) && s' == CancelAs(s, i, b, claim, c)
    requires e in s.store.db.events
    ensures RowMoves(s, s', b, e)
  {
  }

  /** The cancellation transaction, run by client `i`, which then moves on to `c`. */
  lemma CancelTxStep(s: Sys, s': Sys, i: nat, b: BookingId, claim: Claim, c: Client)
    requires Inv(s) && i < |s.clients| && b < |s.accounts|
    requires s' == CancelAs(s, i, b, claim, c)
    requires claim.Forfeited? || claim == Owed(i)
    requires claim == Owed(i) && s.store.db.bookings[b].status == Booked ==>
               c == CancelRelease(b, s.store.db.bookings[b].event, s.store.db.bookings[b].seats)
    requires s.clients[i].CancelBegin? || s.clients[i].TimeoutCancel?
    requires !Holding(c)
    requires ClientOk(s', i)
    ensures Inv(s')
  {
    hide ShapeOk, SumsOk;
    RowFits(s, b);
    CancelTxSums(s, s', i, b, claim, c);
    RowStepShape(s, s', i, b);
  }

  lemma CancelBeginStep(s: Sys, i: nat, ok: bool, pick: Entry)
    requires Inv(s) && i < |s.clients| && s.clients[i].CancelBegin?
    ensures Inv(GoCancel(s, i, ok, pick))
  {
    hide ShapeOk, SumsOk, TokensOk;
    var s', b := GoCancel(s, i, ok, pick), s.clients[i].b;
    if ok && b < |s.accounts| {
      CancelTxStep(s, s', i, b, Owed(i), s'.clients[i]);
    } else {
      QuietStep(s, s', i);
    }
  }

  lemma ReleaseSums(s: Sys, i: nat, ok: bool, pick: Entry)
    requires Aligned(s) && SumsOk(s) && i < |s.clients| && s.clients[i].CancelRelease?
    requires ClientOk(s, i) && RowOk(s, s.clients[i].b)
    ensures SumsOk(GoCancel(s, i, ok, pick))
  {
    hide SumsOk;
    forall e | e in s.store.db.events
      ensures RowMoves(s, GoCancel(s, i, ok, pick), s.clients[i].b, e)
    {
    }
    RowStepSums(s, GoCancel(s, i, ok, pick), i, s.clients[i].b);
  }

  lemma ReleaseStep(s: Sys, i: nat, ok: bool, pick: Entry)
    requires Inv(s) && i < |s.clients| && s.clients[i].CancelRelease?
    ensures Inv(GoCancel(s, i, ok, pick))
  {
    hide ShapeOk, SumsOk;
    var s', b := GoCancel(s, i, ok, pick), s.clients[i].b;
    ClientFits(s, i);
    RowFits(s, b);
    ReleaseSums(s, i, ok, pick);
    RowStepShape(s, s', i, b);
  }

  lemma PromoteStep(s: Sys, i: nat, ok: bool, pick: Entry)
    requires Inv(s) && i < |s.clients| && s.clients[i].CancelPromote?
    ensures Inv(GoCancel(s, i, ok, pick))
  {
    hide ShapeOk, SumsOk, TokensOk;
    var c := s.clients[i];
    ClientFits(s, i);
    if ok && InsertPending(s.store.db, c.u, c.e, None, c.seats).Some? {
      InsertStep(s, GoCancel(s, i, ok, pick), i, Booking(c.u, c.e, Pending, c.seats, None, 0, Unpaid), Promoted,
        CancelRemove(c.entry));
    } else {
      QuietMove(s, i, Dead(c));
    }
  }

  lemma PickStep(s: Sys, i: nat, ok: bool, pick: Entry)
    requires Inv(s) && i < |s.clients| && s.clients[i].CancelNext?
    ensures Inv(GoCancel(s, i, ok, pick))
  {
    hide ShapeOk, SumsOk, TokensOk;
    var c := s.clients[i];
    ClientFits(s, i);
    if !ok {
      QuietMove(s, i, Dead(c));
    } else if Queue(s.store.db.waitlist, c.e) == [] {
      QuietMove(s, i, Done);
    } else if IsNext(s.store.db.waitlist, c.e, pick) {
      QuietMove(s, i, CancelPromote(c.e, c.seats, pick.id, pick.user));
    }
  }

  lemma RemoveStep(s: Sys, i: nat, ok: bool, pick: Entry)
    requires Inv(s) && i < |s.clients| && s.clients[i].CancelRemove?
    ensures Inv(GoCancel(s, i, ok, pick))
  {
    hide ShapeOk, SumsOk, TokensOk;
    EntriesFit(s);
    FilterMembers(s.store.db.waitlist, NotEntry(s.clients[i].entry));
    TableStep(s, GoCancel(s, i, ok, pick), i);
  }

  lemma CancelStepKeepsInv(s: Sys, i: nat, ok: bool, pick: Entry)
    requires Inv(s) && i < |s.clients|
    ensures Inv(GoCancel(s, i, ok, pick))
  {
    hide ShapeOk, SumsOk, TokensOk;
    match s.clients[i]
    case CancelBegin(_) => CancelBeginStep(s, i, ok, pick);
    case CancelRelease(_, _, _) => ReleaseStep(s, i, ok, pick);
    case CancelNext(_, _) => PickStep(s, i, ok, pick);
    case CancelPromote(_, _, _, _) => PromoteStep(s, i, ok, pick);
    case CancelRemove(_) => RemoveStep(s, i, ok, pick);
    case _ =>
  }

  // ----- Payments and refunds -----

  /** Overwriting the payment columns of a booking concerns no total. */
  lemma SetPaymentStep(s: Sys, s': Sys, i: nat, b: BookingId, payment: PaymentStatus, amount: int)
    requires Inv(s) && i < |s.clients| && b < |s.accounts|
    requires |s'.clients| == |s.clients| && s'.clients == s.clients[i := s'.clients[i]]
    requires s' == WithDb(s, SetPayment(s.store.db, b, payment, amount).value).(clients := s'.clients)
    requires SameHold(s.clients[i], s'.clients[i])
    requires !s.clients[i].CancelRelease?
    requires ClientOk(s', i)
    ensures Inv(s')
  {
    hide ShapeOk, SumsOk;
    RowFits(s, b);
    RowStepSums(s, s', i, b);
    RowStepShape(s, s', i, b);
  }

  /** The finalization transaction on a pending booking, and on any other one. */
  lemma FinalizeSums(s: Sys, i: nat)
    requires Aligned(s) && SumsOk(s) && i < |s.clients| && s.clients[i].PayFinalize?
    requires ClientOk(s, i) && RowOk(s, s.clients[i].b)
    ensures SumsOk(GoPay(s, i, true))
  {
    hide SumsOk;
    var s', b := GoPay(s, i, true), s.clients[i].b;
    assert s'.clients[i] == Done;
    forall e | e in s.store.db.events
      ensures RowMoves(s, s', b, e)
    {
    }
    RowStepSums(s, s', i, b);
  }

  lemma FinalizeShape(s: Sys, i: nat)
    requires Inv(s) && i < |s.clients| && s.clients[i].PayFinalize?
    ensures ShapeOk(GoPay(s, i, true))
  {
    hide SumsOk, TokensOk;
    var s', c := GoPay(s, i, true), s.clients[i];
    ClientFits(s, i);
    RowFits(s, c.b);
    assert s'.clients[i] == Done;
    assert RowOk(s', c.b);
    RowStepShape(s, s', i, c.b);
  }

  lemma FinalizeStep(s: Sys, i: nat, ok: bool)
    requires Inv(s) && i < |s.clients| && s.clients[i].PayFinalize?
    ensures Inv(GoPay(s, i, ok))
  {
    hide ShapeOk, SumsOk;
    ClientFits(s, i);
    if ok {
      RowFits(s, s.clients[i].b);
      FinalizeSums(s, i);
      FinalizeShape(s, i);
    } else {
      QuietStep(s, GoPay(s, i, ok), i);
    }
  }

  lemma PayReadStep(s: Sys, i: nat, ok: bool)
    requires Inv(s) && i < |s.clients| && s.clients[i].PayRead?
    ensures Inv(GoPay(s, i, ok))
  {
    hide ShapeOk, SumsOk, TokensOk;
    QuietStep(s, GoPay(s, i, ok), i);
  }

  lemma PayChargeStep(s: Sys, i: nat, ok: bool)
    requires Inv(s) && i < |s.clients| && s.clients[i].PayCharge?
    ensures Inv(GoPay(s, i, ok))
  {
    hide ShapeOk, SumsOk, TokensOk;
    ClientFits(s, i);
    QuietStep(s, GoPay(s, i, ok), i);
  }

  lemma PayMarkStep(s: Sys, i: nat, ok: bool)
    requires Inv(s) && i < |s.clients| && s.clients[i].PayMark?
    ensures Inv(GoPay(s, i, ok))
  {
    hide ShapeOk, SumsOk, TokensOk;
    var s', c := GoPay(s, i, ok), s.clients[i];
    ClientFits(s, i);
    if ok {
      SetPaymentStep(s, s', i, c.b, Paid, c.amount);
    } else {
      QuietStep(s, s', i);
    }
  }

  lemma PayStepKeepsInv(s: Sys, i: nat, ok: bool)
    requires Inv(s) && i < |s.clients|
    ensures Inv(GoPay(s, i, ok))
  {
    hide ShapeOk, SumsOk, TokensOk;
    match s.clients[i]
    case PayRead(_, _) => PayReadStep(s, i, ok);
    case PayCharge(_, _, _) => PayChargeStep(s, i, ok);
    case PayMark(_, _, _) => PayMarkStep(s, i, ok);
    case PayFinalize(_, _, _) => FinalizeStep(s, i, ok);
    case _ =>
  }

  lemma RefundReadStep(s: Sys, i: nat, ok: bool)
    requires Inv(s) && i < |s.clients| && (s.clients[i].RefundRead? || s.clients[i].RefundPay?)
    ensures Inv(GoRefund(s, i, ok))
  {
    hide ShapeOk, SumsOk, TokensOk;
    QuietStep(s, GoRefund(s, i, ok), i);
  }

  lemma RefundMarkStep(s: Sys, i: nat, ok: bool)
    requires Inv(s) && i < |s.clients| && s.clients[i].RefundMark?
    ensures Inv(GoRefund(s, i, ok))
  {
    hide ShapeOk, SumsOk, TokensOk;
    var s', c := GoRefund(s, i, ok), s.clients[i];
    if ok && c.b < |s.accounts| {
      SetPaymentStep(s, s', i, c.b, Refunded, c.refund);
    } else {
      QuietStep(s, s', i);
    }
  }

  lemma EventRefundStep(s: Sys, i: nat, ok: bool)
    requires Inv(s) && i < |s.clients| && (s.clients[i].EventRefundList? || s.clients[i].EventRefundEach?)
    ensures Inv(GoRefund(s, i, ok))
  {
    hide ShapeOk, SumsOk, TokensOk;
    QuietStep(s, GoRefund(s, i, ok), i);
  }

  lemma EventRefundMarkStep(s: Sys, i: nat, ok: bool)
    requires Inv(s) && i < |s.clients| && s.clients[i].EventRefundMark?
    ensures Inv(GoRefund(s, i, ok))
  {
    hide ShapeOk, SumsOk, TokensOk;
    var s', c := GoRefund(s, i, ok), s.clients[i];
    if c.todo != [] {
      if ok && c.todo[0].0 < |s.accounts| {
        SetPaymentStep(s, s', i, c.todo[0].0, Refunded, c.todo[0].1);
      } else {
        QuietStep(s, s', i);
      }
    }
  }

  lemma RefundStepKeepsInv(s: Sys, i: nat, ok: bool)
    requires Inv(s) && i < |s.clients|
    ensures Inv(GoRefund(s, i, ok))
  {
    hide ShapeOk, SumsOk, TokensOk;
    match s.clients[i]
    case RefundRead(_) => RefundReadStep(s, i, ok);
    case RefundPay(_, _, _) => RefundReadStep(s, i, ok);
    case RefundMark(_, _) => RefundMarkStep(s, i, ok);
    case EventRefundList(_) => EventRefundStep(s, i, ok);
    case EventRefundEach(_, _) => EventRefundStep(s, i, ok);
    case EventRefundMark(_, _) => EventRefundMarkStep(s, i, ok);
    case _ =>
  }

  // ----- Timeouts -----

  lemma TimeoutReadStep(s: Sys, i: nat, ok: bool, pick: Entry)
    requires Inv(s) && i < |s.clients| && s.clients[i].TimeoutRead?
    ensures Inv(GoTimeout(s, i, ok, pick))
  {
    hide ShapeOk, SumsOk, TokensOk;
    QuietStep(s, GoTimeout(s, i, ok, pick), i);
  }

  lemma TimeoutCancelStep(s: Sys, i: nat, ok: bool, pick: Entry)
    requires Inv(s) && i < |s.clients| && s.clients[i].TimeoutCancel?
    ensures Inv(GoTimeout(s, i, ok, pick))
  {
    hide ShapeOk, SumsOk, TokensOk;
    var s', b := GoTimeout(s, i, ok, pick), s.clients[i].b;
    if ok && b < |s.accounts| {
      CancelTxStep(s, s', i, b, Forfeited, s'.clients[i]);
    } else {
      QuietStep(s, s', i);
    }
  }

  /** What a timeout does after looking for a waiting user, if it may go on at all. */
  lemma TimeoutNextMove(s: Sys, i: nat, c: Client)
    requires Inv(s) && i < |s.clients| && s.clients[i].TimeoutNext?
    requires c == Dead(s.clients[i]) || ((c.TimeoutPassed? || c.TimeoutPromote?) && c.b == s.clients[i].b)
    requires c.TimeoutPromote? ==> c.entry.WaitlistRow?
    ensures Inv(Next(s, i, c))
  {
    hide ShapeOk, SumsOk, TokensOk;
    ClientFits(s, i);
    QuietMove(s, i, c);
  }

  lemma TimeoutNextStep(s: Sys, i: nat, ok: bool, pick: Entry)
    requires Inv(s) && i < |s.clients| && s.clients[i].TimeoutNext?
    ensures Inv(GoTimeout(s, i, ok, pick))
  {
    hide ShapeOk, SumsOk, TokensOk, ClientOk;
    EntriesFit(s);
    var c := s.clients[i];
    if !ok || c.e !in s.store.db.events {
      TimeoutNextMove(s, i, Dead(c));
    } else if Queue(s.store.db.waitlist, c.e) == [] {
      TimeoutNextMove(s, i, TimeoutPassed(c.b));
    } else if IsNext(s.store.db.waitlist, c.e, pick) {
      TimeoutNextMove(s, i, TimeoutPromote(c.b, c.e, c.seats, pick.id));
    }
  }

  /** The foreign key refuses a waitlist entry's id as a user, so the insert of a timeout always fails. */
  lemma TimeoutPromoteStep(s: Sys, i: nat, ok: bool, pick: Entry)
    requires Inv(s) && i < |s.clients| && s.clients[i].TimeoutPromote?
    ensures GoTimeout(s, i, ok, pick) == Stop(s, i)
    ensures Inv(GoTimeout(s, i, ok, pick))
  {
    assert ClientOk(s, i);
    QuietStep(s, GoTimeout(s, i, ok, pick), i);
  }

  lemma TimeoutStepKeepsInv(s: Sys, i: nat, ok: bool, pick: Entry)
    requires Inv(s) && i < |s.clients|
    ensures Inv(GoTimeout(s, i, ok, pick))
  {
    hide ShapeOk, SumsOk, TokensOk;
    match s.clients[i]
    case TimeoutRead(_, _, _) => TimeoutReadStep(s, i, ok, pick);
    case TimeoutCancel(_, _, _) => TimeoutCancelStep(s, i, ok, pick);
    case TimeoutNext(_, _, _) => TimeoutNextStep(s, i, ok, pick);
    case TimeoutPromote(_, _, _, _) => TimeoutPromoteStep(s, i, ok, pick);
    case _ =>
  }

  // ----- The reconciler -----

  lemma CorrectSums(s: Sys, s': Sys, i: nat, e: EventId, n: int, c: Client)
    requires Aligned(s) && SumsOk(s) && i < |s.clients| && s' == Next(Correct(s, e, n), i, c)
    requires SameHold(s.clients[i], c)
    ensures SumsOk(s')
  {
    forall x | x in s'.store.db.events
      ensures LedgerOk(s', x) && ReservedOk(s', x)
    {
      assert LedgerOk(s, x) && ReservedOk(s, x);
      SameHoldIn(s.clients[i], c, x);
      SumUpdate(s.clients, i, c, HoldIn(x));
    }
  }

  /** Tokens given or taken by the reconciler change the counter and its own account alike. */
  lemma CorrectShape(s: Sys, s': Sys, i: nat, e: EventId, n: int, c: Client)
    requires Inv(s) && i < |s.clients| && e in s.store.db.events && s' == Next(Correct(s, e, n), i, c)
    requires s.clients[i].ReconcileGive? || s.clients[i].ReconcileTake?
    requires c == Done || (c.ReconcileTake? && c.e == e)
    ensures ShapeOk(s')
  {
    hide SumsOk, TokensOk;
    OthersKept(s, s', i);
    forall b | 0 <= b < |s'.accounts|
      ensures RowOk(s', b)
    {
      assert RowOk(s, b);
    }
  }

  /** Tokens given or taken by the reconciler change the counter and its own account alike. */
  lemma CorrectStep(s: Sys, i: nat, e: EventId, n: int, c: Client)
    requires Inv(s) && i < |s.clients| && e in s.store.db.events && Tokens(s.store.tokens, e) + n >= 0
    requires s.clients[i].ReconcileGive? || s.clients[i].ReconcileTake?
    requires c == Done || (c.ReconcileTake? && c.e == e)
    ensures Inv(Next(Correct(s, e, n), i, c))
  {
    hide ShapeOk, SumsOk;
    var s' := Next(Correct(s, e, n), i, c);
    CorrectSums(s, s', i, e, n, c);
    CorrectShape(s, s', i, e, n, c);
  }

  function AfterReconcileRead(s: Sys, c: Client, ok: bool): (c': Client)
    requires c.ReconcileRead?
    ensures c'.Done? || ((c'.ReconcileGive? || c'.ReconcileTake?) && c'.e in s.store.db.events)
  {
    var rem := if ok then Tokens(s.store.tokens, c.e) else 0;
    if c.e !in s.store.db.events || rem == c.desired then Done
    else if rem < c.desired then ReconcileGive(c.e, c.desired - rem)
    else ReconcileTake(c.e, rem - c.desired)
  }

  lemma ReconcileReadStep(s: Sys, i: nat, ok: bool)
    requires Inv(s) && i < |s.clients| && s.clients[i].ReconcileRead?
    ensures Inv(GoReconcile(s, i, ok))
  {
    hide ShapeOk, SumsOk, TokensOk;
    var c' := AfterReconcileRead(s, s.clients[i], ok);
    assert GoReconcile(s, i, ok) == Next(s, i, c');
    QuietMove(s, i, c');
  }

  lemma ReconcileTakeStep(s: Sys, i: nat, ok: bool)
    requires Inv(s) && i < |s.clients| && s.clients[i].ReconcileTake?
    ensures Inv(GoReconcile(s, i, ok))
  {
    hide ShapeOk, SumsOk, TokensOk;
    var c := s.clients[i];
    ClientFits(s, i);
    if c.times == 0 {
      QuietMove(s, i, Done);
    } else if ok && ReserveTokens(s.store.tokens, c.e, 1).0 {
      CorrectStep(s, i, c.e, -1, ReconcileTake(c.e, c.times - 1));
    } else {
      QuietMove(s, i, ReconcileTake(c.e, c.times - 1));
    }
  }

  lemma ReconcileStepKeepsInv(s: Sys, i: nat, ok: bool)
    requires Inv(s) && i < |s.clients|
    ensures Inv(GoReconcile(s, i, ok))
  {
    hide ShapeOk, SumsOk;
    ClientFits(s, i);
    match s.clients[i]
    case ReconcileRead(_, _) => ReconcileReadStep(s, i, ok);
    case ReconcileGive(e, n) =>
      if ok {
        CorrectStep(s, i, e, n, Done);
      } else {
        QuietMove(s, i, Done);
      }
    case ReconcileTake(_, _) => ReconcileTakeStep(s, i, ok);
    case _ =>
  }

  // ----- Crashes and the environment -----

  lemma CrashKeepsInv(s: Sys, i: nat)
    requires Inv(s) && i < |s.clients|
    ensures Inv(CrashClient(s, i))
  {
    hide ShapeOk, SumsOk;
    var s', c := CrashClient(s, i), s.clients[i];
    ClientFits(s, i);
    if Running(c) {
      if c.CancelRelease? {
        RowFits(s, c.b);
        RowStepSums(s, s', i, c.b);
        RowStepShape(s, s', i, c.b);
      } else {
        QuietStep(s, s', i);
      }
    }
  }

  lemma SpawnKeepsInv(s: Sys, c: Client)
    requires Inv(s) && IsStart(c)
    ensures Inv(s.(clients := s.clients + [c]))
  {
    var s' := s.(clients := s.clients + [c]);
    forall e | e in s'.store.db.events
      ensures LedgerOk(s', e) && ReservedOk(s', e)
    {
      assert LedgerOk(s, e) && ReservedOk(s, e);
      SumAppend(s.clients, c, HoldIn(e));
    }
    OthersKept(s, s', |s.clients|);
    forall b | 0 <= b < |s'.accounts|
      ensures RowOk(s', b)
    {
      assert RowOk(s, b);
    }
  }

  /** A step of the environment that keeps every row's contributions and no client. */
  lemma EnvironmentStep(s: Sys, s': Sys)
    requires Inv(s) && Aligned(s') && |s'.accounts| == |s.accounts|
    requires s'.clients == s.clients && s'.store.tokens == s.store.tokens && s'.given == s.given
    requires s'.store.db.users == s.store.db.users
    requires s'.store.db.events.Keys == s.store.db.events.Keys
    requires forall e :: e in s.store.db.events ==>
               && s'.store.db.events[e].capacity == s.store.db.events[e].capacity
               && s'.store.db.events[e].reserved == s.store.db.events[e].reserved
    requires forall b :: 0 <= b < |s.accounts| ==>
               var x, x', a, a' := s.store.db.bookings[b], s'.store.db.bookings[b], s.accounts[b], s'.accounts[b];
               && x'.event == x.event && x'.seats == x.seats
               && (x'.status == x.status || x'.status == Cancelled)
               && a' == a.(calledOff := a'.calledOff)
               && (if x.status == Booked then 1 else 0) + a.calledOff
                  == (if x'.status == Booked then 1 else 0) + a'.calledOff
    requires forall row :: row in s'.store.db.waitlist ==> row.id.WaitlistRow?
    ensures Inv(s')
  {
    forall e | e in s'.store.db.events
      ensures LedgerOk(s', e) && ReservedOk(s', e)
    {
      assert LedgerOk(s, e) && ReservedOk(s, e);
      SumCongruent(RowsOf(s), RowsOf(s'), DebitIn(e), DebitIn(e));
      SumCongruent(RowsOf(s), RowsOf(s'), CreditIn(e), CreditIn(e));
      SumCongruent(RowsOf(s), RowsOf(s'), ReservedIn(e), ReservedIn(e));
    }
    OthersKept(s, s', |s.clients|);
    forall b | 0 <= b < |s'.accounts|
      ensures RowOk(s', b)
    {
      assert RowOk(s, b);
    }
  }

  /** An event that does not exist yet has no booking and nobody holds its tokens. */
  lemma NothingOf(s: Sys, e: EventId)
    requires Inv(s) && e !in s.store.db.events
    ensures Sum(s.clients, HoldIn(e)) == 0
    ensures Sum(RowsOf(s), DebitIn(e)) == Sum(RowsOf(s), CreditIn(e)) == Sum(RowsOf(s), ReservedIn(e)) == 0
  {
    forall b | 0 <= b < |s.accounts|
      ensures s.store.db.bookings[b].event != e
    {
      assert RowOk(s, b);
    }
    forall i | 0 <= i < |s.clients|
      ensures HoldIn(e)(s.clients[i]) == 0
    {
      assert ClientOk(s, i);
    }
    SumZero(s.clients, HoldIn(e));
    SumZero(RowsOf(s), DebitIn(e));
    SumZero(RowsOf(s), CreditIn(e));
    SumZero(RowsOf(s), ReservedIn(e));
  }

  lemma OpenEventKeepsInv(s: Sys, e: EventId, labels: seq<Label>, price: int, fee: int, maxTickets: int, endTime: int)
    requires Inv(s)
    ensures Inv(s.(store := OpenEventStore(s.store, e, labels, price, fee, maxTickets, endTime)))
  {
    var s' := s.(store := OpenEventStore(s.store, e, labels, price, fee, maxTickets, endTime));
    if e !in s.store.db.events {
      NothingOf(s, e);
      assert LedgerOk(s', e) && ReservedOk(s', e);
      forall x | x in s.store.db.events
        ensures LedgerOk(s', x) && ReservedOk(s', x)
      {
        assert LedgerOk(s, x) && ReservedOk(s, x);
      }
      OthersKept(s, s', |s.clients|);
      forall b | 0 <= b < |s'.accounts|
        ensures RowOk(s', b)
      {
        assert RowOk(s, b);
      }
    }
  }

  lemma OptOutKeepsInv(s: Sys, e: EventId, u: Uuid)
    requires Inv(s)
    ensures Inv(Step(s, OptOut(e, u)))
  {
    EnvironmentStep(s, Step(s, OptOut(e, u)));
  }

  lemma CallOffKeepsInv(s: Sys, e: EventId)
    requires Inv(s)
    ensures Inv(CallOffStep(s, e))
  {
    EnvironmentStep(s, CallOffStep(s, e));
  }

  // ----- Every run -----

  lemma ClientStepKeepsInv(s: Sys, i: nat, ok: bool, now: int, pick: Entry)
    requires Inv(s) && i < |s.clients|
    ensures Inv(GoClient(s, i, ok, now, pick))
  {
    hide ShapeOk, SumsOk, TokensOk;
    CreateStepKeepsInv(s, i, ok, now);
    CancelStepKeepsInv(s, i, ok, pick);
    PayStepKeepsInv(s, i, ok);
    TimeoutStepKeepsInv(s, i, ok, pick);
    RefundStepKeepsInv(s, i, ok);
    ReconcileStepKeepsInv(s, i, ok);
  }

  lemma StepKeepsInv(s: Sys, a: Action)
    requires Inv(s)
    ensures Inv(Step(s, a))
  {
    hide SumsOk;
    match a
    case Spawn(c) => if IsStart(c) { SpawnKeepsInv(s, c); }
    case Go(i, ok, now, pick) => if i < |s.clients| { ClientStepKeepsInv(s, i, ok, now, pick); }
    case Crash(i) => if i < |s.clients| { CrashKeepsInv(s, i); }
    case OptOut(e, u) => OptOutKeepsInv(s, e, u);
    case CallOff(e) => CallOffKeepsInv(s, e);
    case OpenEvent(e, labels, price, fee, maxTickets, endTime) =>
      OpenEventKeepsInv(s, e, labels, price, fee, maxTickets, endTime);
  }

  lemma {:induction false} RunKeepsInv(s: Sys, actions: seq<Action>)
    requires Inv(s)
    ensures Inv(Run(s, actions))
  {
    if actions != [] {
      var front := actions[..|actions| - 1];
      RunKeepsInv(s, front);
      StepKeepsInv(Run(s, front), actions[|actions| - 1]);
    }
  }

  /** The invariant holds in every reachable state. */
  lemma ReachableIsInv(s: Sys)
    requires Reachable(s)
    ensures Inv(s)
  {
    var users, actions :| s == Run(Init(users), actions);
    RunKeepsInv(Init(users), actions);
  }
}
