/** Two joins of one event, and two requests with one key, whose calls interleave in any order. */
module Collisions {
  import opened Collections
  import opened Model
  import opened StoreCalls
  import opened Protocol
  import opened Schedules

  // ----- Two joins -----

  /** The calls of a join: it reads the largest position and inserts. */
  const JOIN_CALLS: nat := 2

  /** Everything two joins of the event may rely on. */
  predicate CanJoin(s: Sys, e: EventId, u: Uuid) {
    e in s.store.db.events && u in s.store.db.users
  }

  /** The position that a join reads: one more if the other one has joined before it. */
  function ReadPosition(p: int, late: bool): int {
    if late then p + 1 else p
  }

  predicate JoinAt(c: Client, e: EventId, u: Uuid, n: nat, position: int) {
    && (n == 0 ==> c == JoinMax(e, u))
    && (n == 1 ==> c == JoinInsert(e, u, position))
    && (n >= JOIN_CALLS ==> c == Done)
  }

  function JoinedRow(made: nat, e: EventId, u: Uuid, position: int): Entry {
    Entry(WaitlistRow(made), e, u, position, false)
  }

  predicate Finished(turns: seq<bool>, first: bool, calls: nat) {
    Made(turns, first) >= calls
  }

  /** The rows that the joins have added to those of `w`. */
  predicate RowsAdded(w: seq<Entry>, rows: seq<Entry>, e: EventId, turns: seq<bool>) {
    var p, count := NextPosition(w, e), (if Finished(turns, true, JOIN_CALLS) then 1 else 0)
                                        + if Finished(turns, false, JOIN_CALLS) then 1 else 0;
    && |rows| == |w| + count && w <= rows
    && (forall k :: |w| <= k < |rows| ==> ActiveAt(rows[k], e))
    && (count >= 1 ==> rows[|w|].position == p)
    && (count == 2 ==> rows[|w| + 1].position == if Overlapped(turns, 1, JOIN_CALLS) then p else p + 1)
  }

  /** The number of the client. */
  function Index(i: nat, first: bool): nat {
    if first then i else i + 1
  }

  predicate OneJoinAt(w: seq<Entry>, s: Sys, i: nat, e: EventId, u: Uuid, turns: seq<bool>, first: bool) {
    && Index(i, first) < |s.clients|
    && JoinAt(s.clients[Index(i, first)], e, u, Made(turns, first),
              ReadPosition(NextPosition(w, e), Late(turns, first, 1, JOIN_CALLS)))
  }

  predicate AfterJoins(w: seq<Entry>, s: Sys, i: nat, e: EventId, u: Uuid, v: Uuid, turns: seq<bool>) {
    && Aligned(s) && CanJoin(s, e, u) && CanJoin(s, e, v)
    && OneJoinAt(w, s, i, e, u, turns, true) && OneJoinAt(w, s, i, e, v, turns, false)
    && RowsAdded(w, s.store.db.waitlist, e, turns)
  }

  lemma MaxAppend(q: seq<Entry>, row: Entry)
    requires row.position > MaxPosition(q)
    ensures MaxPosition(q + [row]) == row.position
  {
    assert (q + [row])[..|q|] == q;
  }

  /** With one row added at the next position, the position after it is next. */
  lemma NextAfterOne(w: seq<Entry>, rows: seq<Entry>, e: EventId)
    requires |rows| == |w| + 1 && w <= rows && ActiveAt(rows[|w|], e) && rows[|w|].position == NextPosition(w, e)
    ensures NextPosition(rows, e) == NextPosition(w, e) + 1
  {
    var row := rows[|w|];
    assert rows == w + [row];
    FilterAppend(w, row, ActiveIn(e));
    MaxAppend(Queue(w, e), row);
  }

  /** What one call of a join does. */
  predicate JoinsOn(s: Sys, s': Sys, j: nat, e: EventId, u: Uuid)
    requires j < |s.clients|
  {
    var c, db, db' := s.clients[j], s.store.db, s'.store.db;
    && Aligned(s') && |s'.clients| == |s.clients| && s'.clients == s.clients[j := s'.clients[j]]
    && db'.events == db.events && db'.users == db.users
    && (c == JoinMax(e, u) ==> s'.clients[j] == JoinInsert(e, u, NextPosition(db.waitlist, e)) && db' == db)
    && (c.JoinInsert? ==>
          s'.clients[j] == Done && db'.waitlist == db.waitlist + [JoinedRow(db.entriesMade, e, u, c.position)])
    && (c == Done ==> s' == s)
  }

  lemma JoinOnce(s: Sys, j: nat, e: EventId, u: Uuid)
    requires Aligned(s) && j < |s.clients| && CanJoin(s, e, u)
    requires s.clients[j] == JoinMax(e, u) || s.clients[j] == Done
             || (s.clients[j].JoinInsert? && s.clients[j] == JoinInsert(e, u, s.clients[j].position))
    ensures JoinsOn(s, Step(s, GoOn(j)), j, e, u)
  {
  }

  /** The client whose turn it is not stands where it stood. */
  lemma OtherStands(w: seq<Entry>, s: Sys, s': Sys, i: nat, e: EventId, v: Uuid, turns: seq<bool>, first: bool)
    requires OneJoinAt(w, s, i, e, v, turns, !first) && Index(i, first) < |s.clients|
    requires |s'.clients| == |s.clients| && s'.clients == s.clients[Index(i, first) := s'.clients[Index(i, first)]]
    ensures OneJoinAt(w, s', i, e, v, turns + [first], !first)
  {
    OneMoreTurn(turns, first, 1, JOIN_CALLS);
    hide Made, Late, Overlapped, NextPosition;
  }

  /** A read finds the rows as they were, or one more. */
  lemma ReadsPosition(w: seq<Entry>, rows: seq<Entry>, e: EventId, turns: seq<bool>, first: bool)
    requires RowsAdded(w, rows, e, turns) && Made(turns, first) == 0
    ensures NextPosition(rows, e) == ReadPosition(NextPosition(w, e), Late(turns + [first], first, 1, JOIN_CALLS))
  {
    OneMoreTurn(turns, first, 1, JOIN_CALLS);
    LateOrOverlapped(turns, 1, JOIN_CALLS);
    hide Made, Late, Overlapped, NextPosition;
    if Finished(turns, !first, JOIN_CALLS) {
      NextAfterOne(w, rows, e);
    } else {
      assert rows == w;
    }
  }

  lemma MoverStands(w: seq<Entry>, s: Sys, s': Sys, i: nat, e: EventId, u: Uuid, turns: seq<bool>, first: bool)
    requires OneJoinAt(w, s, i, e, u, turns, first) && RowsAdded(w, s.store.db.waitlist, e, turns)
    requires JoinsOn(s, s', Index(i, first), e, u)
    ensures OneJoinAt(w, s', i, e, u, turns + [first], first)
  {
    if Made(turns, first) == 0 {
      ReadsPosition(w, s.store.db.waitlist, e, turns, first);
    }
    OneMoreTurn(turns, first, 1, JOIN_CALLS);
    LateOrOverlapped(turns, 1, JOIN_CALLS);
    hide Made, Late, Overlapped, NextPosition, RowsAdded;
  }

  lemma RowsStay(w: seq<Entry>, rows: seq<Entry>, e: EventId, turns: seq<bool>, first: bool)
    requires RowsAdded(w, rows, e, turns) && Made(turns, first) != 1
    ensures RowsAdded(w, rows, e, turns + [first])
  {
    OneMoreTurn(turns, first, 1, JOIN_CALLS);
    hide Made, Late, Overlapped, NextPosition;
  }

  lemma RowsGrow(w: seq<Entry>, rows: seq<Entry>, row: Entry, e: EventId, turns: seq<bool>, first: bool)
    requires RowsAdded(w, rows, e, turns) && Made(turns, first) == 1 && ActiveAt(row, e)
    requires row.position == ReadPosition(NextPosition(w, e), Late(turns, first, 1, JOIN_CALLS))
    ensures RowsAdded(w, rows + [row], e, turns + [first])
  {
    OneMoreTurn(turns, first, 1, JOIN_CALLS);
    LateOrOverlapped(turns, 1, JOIN_CALLS);
    hide Made, Late, Overlapped, NextPosition;
  }

  lemma OneJoinTurn(w: seq<Entry>, s: Sys, i: nat, e: EventId, u: Uuid, v: Uuid, turns: seq<bool>, first: bool)
    requires AfterJoins(w, s, i, e, u, v, turns)
    ensures AfterJoins(w, TakeTurn(s, i, first), i, e, u, v, turns + [first])
  {
    hide Made, Late, Overlapped, Step, NextPosition, RowsAdded;
    var j, s', rows := Index(i, first), TakeTurn(s, i, first), s.store.db.waitlist;
    JoinOnce(s, j, e, if first then u else v);
    MoverStands(w, s, s', i, e, if first then u else v, turns, first);
    OtherStands(w, s, s', i, e, if first then v else u, turns, first);
    if Made(turns, first) == 1 {
      RowsGrow(w, rows, JoinedRow(s.store.db.entriesMade, e, if first then u else v, s.clients[j].position), e, turns,
        first);
    } else {
      RowsStay(w, rows, e, turns, first);
    }
  }

  /**
   From any state, and whatever the order of their calls: the first of two joins to insert gets the next position, and
   the other one the same exactly when at some point both have read and neither has inserted, else the one after it.
   */
  lemma JoinsCollideIff(s: Sys, e: EventId, u: Uuid, v: Uuid, turns: seq<bool>)
    requires Aligned(s) && CanJoin(s, e, u) && CanJoin(s, e, v)
    requires Finished(turns, true, JOIN_CALLS) && Finished(turns, false, JOIN_CALLS)
    ensures var w, rows := s.store.db.waitlist, BothRun(s, JoinMax(e, u), JoinMax(e, v), turns).store.db.waitlist;
            && |rows| == |w| + 2 && w <= rows && ActiveAt(rows[|w|], e) && ActiveAt(rows[|w| + 1], e)
            && rows[|w|].position == NextPosition(w, e)
            && rows[|w| + 1].position == NextPosition(w, e) + if Overlapped(turns, 1, JOIN_CALLS) then 0 else 1
  {
    var i, w := |s.clients|, s.store.db.waitlist;
    var after := (x: Sys, done: seq<bool>) => AfterJoins(w, x, i, e, u, v, done);
    assert after(BothStarted(s, JoinMax(e, u), JoinMax(e, v)), []);
    hide Run, Step, TakeTurn, BothRun, BothStarted, AfterJoins;
    forall x: Sys, done: seq<bool>, first: bool | after(x, done)
      ensures after(TakeTurn(x, i, first), done + [first])
    {
      OneJoinTurn(w, x, i, e, u, v, done, first);
    }
    BothRunKeep(after, s, JoinMax(e, u), JoinMax(e, v), turns);
    JoinsEnd(w, BothRun(s, JoinMax(e, u), JoinMax(e, v), turns), i, e, u, v, turns);
  }

  lemma JoinsEnd(w: seq<Entry>, s: Sys, i: nat, e: EventId, u: Uuid, v: Uuid, turns: seq<bool>)
    requires AfterJoins(w, s, i, e, u, v, turns)
    ensures RowsAdded(w, s.store.db.waitlist, e, turns)
  {
  }

  // ----- Two requests with one key -----

  /** The calls of a request: it reads the event, looks the key up, reserves and inserts. */
  const CREATE_CALLS: nat := 4

  const LOOKUP: nat := 2

  datatype Ask = Ask(e: EventId, u: Uuid, seats: seq<Label>)

  function Asking(ask: Ask, key: string): Client {
    CreateGetEvent(ask.e, ask.u, Some(key), ask.seats)
  }

  function BookingFor(ask: Ask, key: string): Booking {
    Booking(ask.u, ask.e, Pending, ask.seats, Some(key), 0, Unpaid)
  }

  /** The request meets no refusal but perhaps for its key or its tokens. */
  predicate Acceptable(s: Sys, ask: Ask) {
    && ask.e in s.store.db.events && ask.u in s.store.db.users
    && s.store.db.events[ask.e].endTime >= 0 && |ask.seats| <= s.store.db.events[ask.e].maxTickets
  }

  predicate AskAt(c: Client, ask: Ask, key: string, n: nat, late: bool) {
    && (n == 0 ==> c == Asking(ask, key))
    && (n == 1 ==> c == CreateGetKey(ask.e, ask.u, Some(key), ask.seats))
    && (n == 2 && !late ==> c == CreateReserve(ask.e, ask.u, Some(key), ask.seats))
    && (n == 3 && !late ==> c == CreateInsert(ask.e, ask.u, Some(key), ask.seats))
    && (n >= CREATE_CALLS || (n >= LOOKUP && late) ==> c.Done? || c.Dead?)
  }

  predicate IsLate(turns: seq<bool>, first: bool) {
    Late(turns, first, LOOKUP, CREATE_CALLS)
  }

  predicate HasReserved(turns: seq<bool>, first: bool) {
    Made(turns, first) >= 3 && !IsLate(turns, first)
  }

  predicate HasInserted(turns: seq<bool>, first: bool) {
    Made(turns, first) >= CREATE_CALLS && !IsLate(turns, first)
  }

  /** The bookings that the requests have added to `old`. */
  predicate BookingsAdded(before: seq<Booking>, rows: seq<Booking>, a: Ask, b: Ask, key: string, turns: seq<bool>) {
    if HasInserted(turns, true) && HasInserted(turns, false) then
      before <= rows && |rows| == |before| + if a.e == b.e then 1 else 2
    else
      rows == before + (if HasInserted(turns, true) then [BookingFor(a, key)] else [])
                     + (if HasInserted(turns, false) then [BookingFor(b, key)] else [])
  }

  /** The tokens that the requests have taken. */
  function Taken(ask: Ask, e: EventId, reserved: bool): nat {
    if reserved && ask.e == e then |ask.seats| else 0
  }

  ghost predicate TokensTaken(before: map<EventId, int>, now: map<EventId, int>, a: Ask, b: Ask, turns: seq<bool>) {
    forall e: EventId :: Tokens(now, e)
                == Tokens(before, e) - Taken(a, e, HasReserved(turns, true)) - Taken(b, e, HasReserved(turns, false))
  }

  ghost predicate Covers(tokens: map<EventId, int>, a: Ask, b: Ask) {
    forall e: EventId :: Tokens(tokens, e) >= Taken(a, e, true) + Taken(b, e, true)
  }

  predicate FreshKey(bookings: seq<Booking>, key: string) {
    key != "" && FindKey(bookings, key).None?
  }

  predicate OneAskAt(s: Sys, i: nat, ask: Ask, key: string, turns: seq<bool>, first: bool) {
    && Index(i, first) < |s.clients| && Acceptable(s, ask)
    && AskAt(s.clients[Index(i, first)], ask, key, Made(turns, first), IsLate(turns, first))
  }

  ghost predicate AfterAsks(s0: Sys, s: Sys, i: nat, a: Ask, b: Ask, key: string, turns: seq<bool>) {
    && Aligned(s)
    && OneAskAt(s, i, a, key, turns, true) && OneAskAt(s, i, b, key, turns, false)
    && BookingsAdded(s0.store.db.bookings, s.store.db.bookings, a, b, key, turns)
    && TokensTaken(s0.store.tokens, s.store.tokens, a, b, turns)
  }

  /** What one call of a request does. */
  predicate AsksOn(s: Sys, s': Sys, j: nat, ask: Ask, key: string)
    requires j < |s.clients|
  {
    var c, c', db := s.clients[j], (if j < |s'.clients| then s'.clients[j] else Done), s.store.db;
    && Aligned(s') && |s'.clients| == |s.clients| && s'.clients == s.clients[j := c']
    && s'.store.db.events == db.events && s'.store.db.users == db.users
    && (c.CreateGetEvent? ==> c' == CreateGetKey(ask.e, ask.u, Some(key), ask.seats) && s'.store == s.store)
    && (c.CreateGetKey? ==>
          && s'.store == s.store
          && c' == if FindKey(db.bookings, key).Some? then Done else CreateReserve(ask.e, ask.u, Some(key), ask.seats))
    && (c.CreateReserve? && Tokens(s.store.tokens, ask.e) >= |ask.seats| ==>
          && c' == CreateInsert(ask.e, ask.u, Some(key), ask.seats) && s'.store.db == db
          && s'.store.tokens == s.store.tokens[ask.e := Tokens(s.store.tokens, ask.e) - |ask.seats|])
    && (c.CreateInsert? ==>
          && (c'.Done? || c'.Dead?) && s'.store.tokens == s.store.tokens
          && s'.store.db.bookings
             == db.bookings + if DuplicateKey(db.bookings, ask.e, Some(key)) then [] else [BookingFor(ask, key)])
    && (c.Done? || c.Dead? ==> s' == s)
  }

  lemma AskOnce(s: Sys, j: nat, ask: Ask, key: string, n: nat, late: bool)
    requires Aligned(s) && j < |s.clients| && Acceptable(s, ask) && key != ""
    requires AskAt(s.clients[j], ask, key, n, late) && (late ==> n >= LOOKUP)
    ensures AsksOn(s, Step(s, GoOn(j)), j, ask, key)
  {
  }

  lemma OtherAskStands(s: Sys, s': Sys, i: nat, ask: Ask, other: Ask, key: string, turns: seq<bool>, first: bool)
    requires OneAskAt(s, i, other, key, turns, !first) && Index(i, first) < |s.clients|
    requires AsksOn(s, s', Index(i, first), ask, key)
    ensures OneAskAt(s', i, other, key, turns + [first], !first)
  {
    OneMoreTurn(turns, first, LOOKUP, CREATE_CALLS);
    hide Made, Late;
  }

  /** The key is found exactly when the other request has inserted it. */
  lemma KeyFoundIff(
    before: seq<Booking>, rows: seq<Booking>, a: Ask, b: Ask, key: string, turns: seq<bool>, first: bool)
    requires FreshKey(before, key) && BookingsAdded(before, rows, a, b, key, turns) && !HasInserted(turns, first)
    ensures FindKey(rows, key).Some? <==> HasInserted(turns, !first)
    ensures var ask, other := (if first then a else b), if first then b else a;
            DuplicateKey(rows, ask.e, Some(key)) <==> HasInserted(turns, !first) && ask.e == other.e
  {
    var other := if first then b else a;
    hide HasInserted;
    if HasInserted(turns, !first) {
      assert rows == before + [BookingFor(other, key)] && rows[|before|] == BookingFor(other, key);
    } else {
      assert rows == before;
    }
  }

  lemma AskerStands(s0: Sys, s: Sys, s': Sys, i: nat, a: Ask, b: Ask, key: string, turns: seq<bool>, first: bool)
    requires AfterAsks(s0, s, i, a, b, key, turns) && FreshKey(s0.store.db.bookings, key)
             && Covers(s0.store.tokens, a, b)
    requires AsksOn(s, s', Index(i, first), if first then a else b, key)
    ensures OneAskAt(s', i, if first then a else b, key, turns + [first], first)
  {
    OneMoreTurn(turns, first, LOOKUP, CREATE_CALLS);
    LateOrOverlapped(turns, LOOKUP, CREATE_CALLS);
    if Made(turns, first) == 1 {
      KeyFoundIff(s0.store.db.bookings, s.store.db.bookings, a, b, key, turns, first);
    } else if Made(turns, first) == 2 {
      TokensSuffice(s0.store.tokens, s.store.tokens, a, b, turns, first);
    }
    hide Made, Late, Overlapped, BookingsAdded, TokensTaken;
  }

  lemma TokensSuffice(before: map<EventId, int>, now: map<EventId, int>, a: Ask, b: Ask, turns: seq<bool>, first: bool)
    requires TokensTaken(before, now, a, b, turns) && Covers(before, a, b) && !HasReserved(turns, first)
    ensures var ask := if first then a else b;
            Tokens(now, ask.e) >= |ask.seats|
  {
    hide HasReserved;
  }

  /** A turn that inserts nothing. */
  lemma BookingsStay(
    before: seq<Booking>, rows: seq<Booking>, a: Ask, b: Ask, key: string, turns: seq<bool>, first: bool)
    requires BookingsAdded(before, rows, a, b, key, turns) && (Made(turns, first) != 3 || IsLate(turns, first))
    ensures BookingsAdded(before, rows, a, b, key, turns + [first])
  {
    OneMoreTurn(turns, first, LOOKUP, CREATE_CALLS);
    hide Made, Late, Overlapped;
  }

  lemma BookingsGrow(
    before: seq<Booking>, rows: seq<Booking>, a: Ask, b: Ask, key: string, turns: seq<bool>, first: bool)
    requires FreshKey(before, key) && BookingsAdded(before, rows, a, b, key, turns)
    requires Made(turns, first) == 3 && !IsLate(turns, first)
    ensures var ask := if first then a else b;
            var more := if DuplicateKey(rows, ask.e, Some(key)) then [] else [BookingFor(ask, key)];
            BookingsAdded(before, rows + more, a, b, key, turns + [first])
  {
    KeyFoundIff(before, rows, a, b, key, turns, first);
    OneMoreTurn(turns, first, LOOKUP, CREATE_CALLS);
    hide Made, Late, Overlapped, FindKey, DuplicateKey, BookingFor;
  }

  lemma BookingsStep(
    s0: Sys, s: Sys, s': Sys, i: nat, a: Ask, b: Ask, key: string, turns: seq<bool>, first: bool)
    requires AfterAsks(s0, s, i, a, b, key, turns) && FreshKey(s0.store.db.bookings, key)
             && Covers(s0.store.tokens, a, b)
    requires AsksOn(s, s', Index(i, first), if first then a else b, key)
    ensures BookingsAdded(s0.store.db.bookings, s'.store.db.bookings, a, b, key, turns + [first])
  {
    LateOrOverlapped(turns, LOOKUP, CREATE_CALLS);
    if Made(turns, first) == 3 && !IsLate(turns, first) {
      BookingsGrow(s0.store.db.bookings, s.store.db.bookings, a, b, key, turns, first);
    } else {
      BookingsStay(s0.store.db.bookings, s.store.db.bookings, a, b, key, turns, first);
      if Made(turns, first) == 2 && !IsLate(turns, first) {
        TokensSuffice(s0.store.tokens, s.store.tokens, a, b, turns, first);
      }
    }
    hide Made, Late, Overlapped, TokensTaken, FindKey, DuplicateKey, BookingsAdded, BookingFor;
  }

  lemma TokensStep(
    s0: Sys, s: Sys, s': Sys, i: nat, a: Ask, b: Ask, key: string, turns: seq<bool>, first: bool)
    requires AfterAsks(s0, s, i, a, b, key, turns) && Covers(s0.store.tokens, a, b)
    requires AsksOn(s, s', Index(i, first), if first then a else b, key)
    ensures TokensTaken(s0.store.tokens, s'.store.tokens, a, b, turns + [first])
  {
    OneMoreTurn(turns, first, LOOKUP, CREATE_CALLS);
    LateOrOverlapped(turns, LOOKUP, CREATE_CALLS);
    if Made(turns, first) == 2 && !IsLate(turns, first) {
      TokensSuffice(s0.store.tokens, s.store.tokens, a, b, turns, first);
    }
    hide Made, Late, Overlapped, BookingsAdded, FindKey, DuplicateKey;
  }

  lemma OneAskTurn(s0: Sys, s: Sys, i: nat, a: Ask, b: Ask, key: string, turns: seq<bool>, first: bool)
    requires AfterAsks(s0, s, i, a, b, key, turns) && FreshKey(s0.store.db.bookings, key)
             && Covers(s0.store.tokens, a, b)
    ensures AfterAsks(s0, TakeTurn(s, i, first), i, a, b, key, turns + [first])
  {
    var ask, other, s' := (if first then a else b), (if first then b else a), TakeTurn(s, i, first);
    LateOrOverlapped(turns, LOOKUP, CREATE_CALLS);
    hide Made, Late, Overlapped, Step, BookingsAdded, TokensTaken, AsksOn;
    AskOnce(s, Index(i, first), ask, key, Made(turns, first), IsLate(turns, first));
    OtherAskStands(s, s', i, ask, other, key, turns, first);
    AskerStands(s0, s, s', i, a, b, key, turns, first);
    BookingsStep(s0, s, s', i, a, b, key, turns, first);
    TokensStep(s0, s, s', i, a, b, key, turns, first);
    assert Aligned(s');
  }

  /**
   From any state that has tokens for both and a new key, and whatever the order of their calls: two requests with one
   key make two bookings exactly when both look the key up before either inserts and their events differ. Where they
   overlap for one event, both reserve and one of them inserts, so that the tokens of the other are lost.
   */
  lemma OneKeyTwiceIff(s: Sys, a: Ask, b: Ask, key: string, turns: seq<bool>)
    requires Aligned(s) && Acceptable(s, a) && Acceptable(s, b)
    requires FreshKey(s.store.db.bookings, key) && Covers(s.store.tokens, a, b)
    requires Finished(turns, true, CREATE_CALLS) && Finished(turns, false, CREATE_CALLS)
    ensures var s', overlapped :=
            BothRun(s, Asking(a, key), Asking(b, key), turns), Overlapped(turns, LOOKUP, CREATE_CALLS);
            && |s'.store.db.bookings| == |s.store.db.bookings| + (if overlapped && a.e != b.e then 2 else 1)
            && (overlapped ==> forall e: EventId :: Tokens(s'.store.tokens, e)
                                    == Tokens(s.store.tokens, e) - Taken(a, e, true) - Taken(b, e, true))
  {
    var i := |s.clients|;
    var after := (x: Sys, done: seq<bool>) => AfterAsks(s, x, i, a, b, key, done);
    assert after(BothStarted(s, Asking(a, key), Asking(b, key)), []);
    LateOrOverlapped(turns, LOOKUP, CREATE_CALLS);
    hide Run, Step, TakeTurn, BothRun, BothStarted, AfterAsks, Made, Late, Overlapped, FindKey, FreshKey, Covers,
      Acceptable;
    forall x: Sys, done: seq<bool>, first: bool | after(x, done)
      ensures after(TakeTurn(x, i, first), done + [first])
    {
      OneAskTurn(s, x, i, a, b, key, done, first);
    }
    BothRunKeep(after, s, Asking(a, key), Asking(b, key), turns);
    AsksEnd(s, BothRun(s, Asking(a, key), Asking(b, key), turns), i, a, b, key, turns);
  }

  lemma AsksEnd(s0: Sys, s: Sys, i: nat, a: Ask, b: Ask, key: string, turns: seq<bool>)
    requires AfterAsks(s0, s, i, a, b, key, turns)
    requires Finished(turns, true, CREATE_CALLS) && Finished(turns, false, CREATE_CALLS)
    ensures var overlapped := Overlapped(turns, LOOKUP, CREATE_CALLS);
            && |s.store.db.bookings| == |s0.store.db.bookings| + (if overlapped && a.e != b.e then 2 else 1)
            && (overlapped ==> forall e: EventId :: Tokens(s.store.tokens, e)
                                    == Tokens(s0.store.tokens, e) - Taken(a, e, true) - Taken(b, e, true))
  {
    LateOrOverlapped(turns, LOOKUP, CREATE_CALLS);
    hide Made, Late, Overlapped, AskAt, Tokens;
  }
}
