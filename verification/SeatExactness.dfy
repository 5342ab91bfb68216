/**
 When the seats table is exactly the picture of the booked bookings, and with it the list of available seats: exactly
 the steps that keep this, in every interleaving.
 */
module SeatExactness {
  import opened Collections
  import opened Model
  import opened StoreCalls
  import opened Protocol
  import opened ProtocolInvariant
  import opened Effects
  import opened SeatAgreement

  // ----- Exactness -----

  /** A live booking claims the labels it lists, or the default seat if it lists none. */
  predicate Claims(db: Tables, e: EventId, b: BookingId, seatLabel: Label) {
    && b < |db.bookings|
    && db.bookings[b].event == e
    && Live(db.bookings[b])
    && seatLabel in Effective(db.bookings[b].seats)
  }

  ghost predicate ClaimsDisjoint(db: Tables, e: EventId) {
    forall b: BookingId, c: BookingId, seatLabel: Label ::
      Claims(db, e, b, seatLabel) && Claims(db, e, c, seatLabel) ==> b == c
  }

  ghost predicate RowExact(db: Tables, row: Seat) {
    && row.status != Held
    && (row.status == Taken ==> row.holder.Some?)
    && forall b: BookingId :: BookedBy(db, row.event, row.seatLabel, b) <==>
       row.status == Taken && row.holder == Some(b)
  }

  ghost predicate SeatsExact(db: Tables, e: EventId) {
    && ClaimsDisjoint(db, e)
    && forall i :: 0 <= i < |db.seats| && db.seats[i].event == e ==> RowExact(db, db.seats[i])
  }

  /** No live booking of the event claims any of the labels. */
  ghost predicate Unclaimed(db: Tables, e: EventId, labels: seq<Label>) {
    forall b: BookingId, seatLabel: Label :: Claims(db, e, b, seatLabel) ==> seatLabel !in Effective(labels)
  }

  // ----- The changes that keep it -----

  lemma InsertKeepsExactIff(db: Tables, u: Uuid, e': EventId, key: Option<string>, seats: seq<Label>, e: EventId)
    requires SeatsExact(db, e) && InsertPending(db, u, e', key, seats).Some?
    ensures SeatsExact(InsertPending(db, u, e', key, seats).value, e) <==> (e' == e ==> Unclaimed(db, e, seats))
  {
    var db' := InsertPending(db, u, e', key, seats).value;
    forall b: BookingId, seatLabel: Label
      ensures b < |db.bookings| ==> (Claims(db', e, b, seatLabel) <==> Claims(db, e, b, seatLabel))
      ensures Claims(db', e, |db.bookings|, seatLabel) <==> e' == e && seatLabel in Effective(seats)
    {
    }
    if e' == e && !Unclaimed(db, e, seats) {
      var b: BookingId, seatLabel: Label :| Claims(db, e, b, seatLabel) && seatLabel in Effective(seats);
      assert Claims(db', e, b, seatLabel) && Claims(db', e, |db.bookings|, seatLabel);
    }
    forall i | 0 <= i < |db'.seats| && db'.seats[i].event == e
      ensures RowExact(db', db'.seats[i])
    {
      var row := db.seats[i];
      assert RowExact(db, row);
      forall b: BookingId
        ensures BookedBy(db', e, row.seatLabel, b) <==> BookedBy(db, e, row.seatLabel, b)
      {
      }
    }
  }

  lemma CancelKeepsExact(db: Tables, b: BookingId, e: EventId)
    requires SeatsExact(db, e) && b < |db.bookings|
    ensures SeatsExact(CancelTx(db, b).value.0, e)
  {
    var db' := CancelTx(db, b).value.0;
    forall c: BookingId, d: BookingId, seatLabel: Label | Claims(db', e, c, seatLabel) && Claims(db', e, d, seatLabel)
      ensures c == d
    {
      assert Claims(db, e, c, seatLabel) && Claims(db, e, d, seatLabel);
    }
    forall i | 0 <= i < |db'.seats| && db'.seats[i].event == e
      ensures RowExact(db', db'.seats[i])
    {
      CancelledRowExact(db, b, i);
    }
  }

  lemma CancelledRowExact(db: Tables, b: BookingId, i: nat)
    requires b < |db.bookings| && i < |db.seats|
    requires RowExact(db, db.seats[i]) && ClaimsDisjoint(db, db.seats[i].event)
    ensures var db' := CancelTx(db, b).value.0;
            RowExact(db', db'.seats[i])
  {
    var db' := CancelTx(db, b).value.0;
    var row, row', e := db.seats[i], db'.seats[i], db.seats[i].event;
    forall c: BookingId
      ensures BookedBy(db', e, row.seatLabel, c) <==> row'.status == Taken && row'.holder == Some(c)
    {
      assert BookedBy(db', e, row.seatLabel, c) <==> c != b && BookedBy(db, e, row.seatLabel, c);
      assert BookedBy(db, e, row.seatLabel, c) ==> Claims(db, e, c, row.seatLabel);
      assert BookedBy(db, e, row.seatLabel, b) ==> Claims(db, e, b, row.seatLabel);
    }
  }

  /** After a cancellation nobody claims the labels the cancelled booking claimed. */
  lemma CancelFreesClaims(db: Tables, b: BookingId)
    requires b < |db.bookings| && Live(db.bookings[b]) && ClaimsDisjoint(db, db.bookings[b].event)
    ensures Unclaimed(CancelTx(db, b).value.0, db.bookings[b].event, db.bookings[b].seats)
  {
    var e, db' := db.bookings[b].event, CancelTx(db, b).value.0;
    forall c: BookingId, seatLabel: Label | Claims(db', e, c, seatLabel)
      ensures seatLabel !in Effective(db.bookings[b].seats)
    {
      assert Claims(db, e, c, seatLabel);
      assert seatLabel in Effective(db.bookings[b].seats) ==> Claims(db, e, b, seatLabel);
    }
  }

  /** A finalization that finds its booking live, with the labels that the booking claims. */
  lemma FinalizeKeepsExact(db: Tables, b: BookingId, amount: int, e: EventId)
    requires b < |db.bookings| && db.bookings[b].status == Booked ==> db.bookings[b].seats != []
    requires SeatsExact(db, e) && b < |db.bookings| && Live(db.bookings[b])
    ensures SeatsExact(FinalizeTx(db, b, Effective(db.bookings[b].seats), amount).value, e)
  {
    var seats := Effective(db.bookings[b].seats);
    var db' := FinalizeTx(db, b, seats, amount).value;
    forall c: BookingId, d: BookingId, seatLabel: Label | Claims(db', e, c, seatLabel) && Claims(db', e, d, seatLabel)
      ensures c == d
    {
      assert Claims(db, e, c, seatLabel) && Claims(db, e, d, seatLabel);
    }
    forall i | 0 <= i < |db'.seats| && db'.seats[i].event == e
      ensures RowExact(db', db'.seats[i])
    {
      FinalizedRowExact(db, b, amount, i);
    }
  }

  lemma FinalizedRowExact(db: Tables, b: BookingId, amount: int, i: nat)
    requires b < |db.bookings| && db.bookings[b].status == Booked ==> db.bookings[b].seats != []
    requires b < |db.bookings| && Live(db.bookings[b]) && i < |db.seats|
    requires RowExact(db, db.seats[i]) && ClaimsDisjoint(db, db.seats[i].event)
    ensures var db' := FinalizeTx(db, b, Effective(db.bookings[b].seats), amount).value;
            RowExact(db', db'.seats[i])
  {
    var seats := Effective(db.bookings[b].seats);
    var db' := FinalizeTx(db, b, seats, amount).value;
    var row, row', e := db.seats[i], db'.seats[i], db.seats[i].event;
    forall c: BookingId
      ensures BookedBy(db', e, row.seatLabel, c) <==> row'.status == Taken && row'.holder == Some(c)
    {
      assert c != b ==> (BookedBy(db', e, row.seatLabel, c) <==> BookedBy(db, e, row.seatLabel, c));
      assert BookedBy(db, e, row.seatLabel, c) ==> Claims(db, e, c, row.seatLabel);
      assert db.bookings[b].event == e && row.seatLabel in seats ==> Claims(db, e, b, row.seatLabel);
    }
  }

  /** One that finds its booking cancelled. */
  lemma LateFinalizeKeepsExactIff(db: Tables, b: BookingId, seats: seq<Label>, amount: int, e: EventId)
    requires SeatsExact(db, e) && b < |db.bookings| && db.bookings[b].status == Cancelled
    ensures SeatsExact(FinalizeTx(db, b, seats, amount).value, e) <==>
            (db.bookings[b].event == e ==> !HasRow(db, e, seats))
  {
    var db' := FinalizeTx(db, b, seats, amount).value;
    assert db'.bookings == db.bookings;
    SameClaims(db, db', e);
    forall i | 0 <= i < |db.seats| && db.seats[i].event == e
      ensures RowExact(db', db'.seats[i]) <==> (db.bookings[b].event == e ==> db.seats[i].seatLabel !in seats)
    {
      assert RowExact(db, db.seats[i]);
      assert !BookedBy(db', e, db.seats[i].seatLabel, b);
    }
    if db.bookings[b].event == e && HasRow(db, e, seats) {
      var i :| 0 <= i < |db.seats| && db.seats[i].event == e && db.seats[i].seatLabel in seats;
      assert !RowExact(db', db'.seats[i]);
    }
  }

  /** Bookings of the event that are where they were claim and hold what they did. */
  lemma SameClaims(db: Tables, db': Tables, e: EventId)
    requires |db'.bookings| == |db.bookings| && ClaimsDisjoint(db, e)
    requires forall b :: 0 <= b < |db.bookings| && (db.bookings[b].event == e || db'.bookings[b].event == e) ==>
               && db'.bookings[b].event == db.bookings[b].event
               && db'.bookings[b].status == db.bookings[b].status
               && db'.bookings[b].seats == db.bookings[b].seats
    ensures ClaimsDisjoint(db', e)
    ensures forall b: BookingId, seatLabel: Label :: BookedBy(db', e, seatLabel, b) == BookedBy(db, e, seatLabel, b)
    ensures forall labels :: Unclaimed(db, e, labels) <==> Unclaimed(db', e, labels)
  {
    forall b: BookingId, seatLabel: Label
      ensures Claims(db', e, b, seatLabel) == Claims(db, e, b, seatLabel)
      ensures BookedBy(db', e, seatLabel, b) == BookedBy(db, e, seatLabel, b)
    {
    }
    assert forall labels :: Unclaimed(db, e, labels) ==> Unclaimed(db', e, labels);
    assert forall labels :: Unclaimed(db', e, labels) ==> Unclaimed(db, e, labels);
  }

  lemma SameSeatsExact(db: Tables, db': Tables, e: EventId)
    requires SeatsExact(db, e) && db'.seats == db.seats && |db'.bookings| == |db.bookings|
    requires forall b :: 0 <= b < |db.bookings| && (db.bookings[b].event == e || db'.bookings[b].event == e) ==>
               && db'.bookings[b].event == db.bookings[b].event
               && db'.bookings[b].status == db.bookings[b].status
               && db'.bookings[b].seats == db.bookings[b].seats
    ensures SeatsExact(db', e)
  {
    SameClaims(db, db', e);
    forall i | 0 <= i < |db'.seats| && db'.seats[i].event == e
      ensures RowExact(db', db'.seats[i])
    {
      assert RowExact(db, db.seats[i]);
    }
  }

  /** Nobody is live any more, so nothing may be taken. */
  lemma CallOffKeepsExactIff(db: Tables, e: EventId)
    requires SeatsExact(db, e)
    ensures SeatsExact(CallOffEvent(db, e), e) <==> NoneTaken(db, e)
  {
    var db' := CallOffEvent(db, e);
    forall b: BookingId, seatLabel: Label
      ensures !Claims(db', e, b, seatLabel) && !BookedBy(db', e, seatLabel, b)
    {
    }
    forall i | 0 <= i < |db.seats| && db.seats[i].event == e
      ensures RowExact(db', db.seats[i]) <==> db.seats[i].status != Taken
    {
      assert RowExact(db, db.seats[i]);
    }
    if !NoneTaken(db, e) {
      var i :| 0 <= i < |db.seats| && db.seats[i].event == e && db.seats[i].status == Taken;
      assert !RowExact(db', db'.seats[i]);
    }
  }

  lemma OpenKeepsExact(
    db: Tables, e': EventId, labels: seq<Label>, price: int, fee: int, maxTickets: int, endTime: int, e: EventId)
    requires SeatsExact(db, e) && BookingsKnown(db)
    ensures SeatsExact(OpenTables(db, e', labels, price, fee, maxTickets, endTime), e)
  {
    var db' := OpenTables(db, e', labels, price, fee, maxTickets, endTime);
    SameClaims(db, db', e);
    forall i | 0 <= i < |db'.seats| && db'.seats[i].event == e
      ensures RowExact(db', db'.seats[i])
    {
      if i < |db.seats| {
        assert RowExact(db, db.seats[i]);
      }
    }
  }

  predicate BookingsKnown(db: Tables) {
    forall b :: 0 <= b < |db.bookings| ==> db.bookings[b].event in db.events
  }

  /** A finalization marks the labels that its booking claims, and a booked booking has some. */
  predicate MarksClaimed(db: Tables, change: Change) {
    change.Finalized? && change.b < |db.bookings| ==>
      && change.seats == Effective(db.bookings[change.b].seats)
      && (db.bookings[change.b].status == Booked ==> db.bookings[change.b].seats != [])
  }

  /**
   The event is not called off over taken rows, no finalization finds its booking cancelled and marks a row, and no new
   booking claims what a live one claims.
   */
  ghost predicate ExactChange(db: Tables, change: Change, e: EventId) {
    && SoundChange(db, change, e)
    && (change.Inserted? && change.e == e && InsertPending(db, change.u, e, change.key, change.seats).Some? ==>
          Unclaimed(db, e, change.seats))
  }

  lemma FinalizeKeepsExactIff(db: Tables, change: Change, e: EventId)
    requires SeatsExact(db, e) && MarksClaimed(db, change) && change.Finalized? && change.b < |db.bookings|
    ensures SeatsExact(Apply(db, change), e) <==> ExactChange(db, change, e)
  {
    hide SeatsExact, HasRow;
    if Live(db.bookings[change.b]) {
      FinalizeKeepsExact(db, change.b, change.amount, e);
    } else {
      LateFinalizeKeepsExactIff(db, change.b, change.seats, change.amount, e);
    }
  }

  lemma ChangeKeepsExactIff(db: Tables, change: Change, e: EventId)
    requires SeatsExact(db, e) && MarksClaimed(db, change) && BookingsKnown(db)
    ensures SeatsExact(Apply(db, change), e) <==> ExactChange(db, change, e)
  {
    hide SeatsExact, HasRow, NoneTaken, Unclaimed;
    match change
    case Inserted(u, e', key, seats) =>
      if InsertPending(db, u, e', key, seats).Some? {
        InsertKeepsExactIff(db, u, e', key, seats, e);
      }
    case Withdrawn(b) => if b < |db.bookings| { CancelKeepsExact(db, b, e); }
    case Finalized(b, _, _) => if b < |db.bookings| { FinalizeKeepsExactIff(db, change, e); }
    case EventOff(e') =>
      if e' == e {
        CallOffKeepsExactIff(db, e);
      } else {
        SameSeatsExact(db, CallOffEvent(db, e'), e);
      }
    case Opened(e', labels, price, fee, maxTickets, endTime) =>
      OpenKeepsExact(db, e', labels, price, fee, maxTickets, endTime, e);
    case _ => SameSeatsExact(db, Apply(db, change), e);
  }

  // ----- Every step and every run -----

  lemma StepMarksClaimed(s: Sys, a: Action)
    requires Inv(s)
    ensures MarksClaimed(s.store.db, ChangeOf(s, a)) && BookingsKnown(s.store.db)
  {
    hide SumsOk, TokensOk;
    forall b | 0 <= b < |s.accounts|
      ensures s.store.db.bookings[b].event in s.store.db.events
      ensures s.store.db.bookings[b].status == Booked ==> s.store.db.bookings[b].seats != []
    {
      assert RowOk(s, b);
    }
    if a.Go? && a.i < |s.clients| {
      assert ClientOk(s, a.i);
    }
  }

  /** Exactly the steps that keep the seats table the picture of the booked bookings. */
  lemma StepKeepsExactIff(s: Sys, a: Action, e: EventId)
    requires Inv(s) && SeatsExact(s.store.db, e)
    ensures SeatsExact(Step(s, a).store.db, e) <==> ExactChange(s.store.db, ChangeOf(s, a), e)
  {
    hide ShapeOk, SumsOk, TokensOk, Step, Apply, ChangeOf, SeatsExact, ExactChange, MarksClaimed, BookingsKnown;
    StepEffect(s, a);
    StepMarksClaimed(s, a);
    ChangeKeepsExactIff(s.store.db, ChangeOf(s, a), e);
  }

  /** Every step of the run is one of these. */
  ghost predicate ExactRun(s: Sys, actions: seq<Action>, e: EventId)
    requires Aligned(s)
  {
    actions == [] || (
      var front, last := actions[..|actions| - 1], actions[|actions| - 1];
      ExactRun(s, front, e) && ExactChange(Run(s, front).store.db, ChangeOf(Run(s, front), last), e))
  }

  /** The table is exact at every point of the run. */
  ghost predicate ExactThroughout(s: Sys, actions: seq<Action>, e: EventId)
    requires Aligned(s)
  {
    SeatsExact(Run(s, actions).store.db, e) && (actions == [] || ExactThroughout(s, actions[..|actions| - 1], e))
  }

  lemma NothingIsExact(users: set<nat>, e: EventId)
    ensures SeatsExact(Init(users).store.db, e)
  {
  }

  lemma {:induction false} ExactThroughoutIff(users: set<nat>, actions: seq<Action>, e: EventId)
    ensures ExactThroughout(Init(users), actions, e) <==> ExactRun(Init(users), actions, e)
  {
    hide SeatsExact, ExactChange, Step, Init;
    NothingIsExact(users, e);
    if actions != [] {
      var front, s := actions[..|actions| - 1], Run(Init(users), actions[..|actions| - 1]);
      ExactThroughoutIff(users, front, e);
      StartsWithInv(users);
      RunKeepsInv(Init(users), front);
      if SeatsExact(s.store.db, e) {
        StepKeepsExactIff(s, actions[|actions| - 1], e);
      }
    }
  }

  lemma StartsWithInv(users: set<nat>)
    ensures Inv(Init(users))
  {
  }

  /** What callers can see to: labels nobody claims, payments that find their booking pending, no calling off. */
  ghost predicate PoliteStep(s: Sys, a: Action, e: EventId) {
    && a != CallOff(e)
    && (a.Go? && a.ok && a.i < |s.clients| ==>
          var c, db := s.clients[a.i], s.store.db;
          && ((c.CreateInsert? || c.CancelPromote?) && c.e == e && Apply(db, CallChange(c)) != db ==>
             Unclaimed(db, e, c.seats))
          && (c.PayFinalize? && c.b < |db.bookings| && db.bookings[c.b].event == e ==>
             db.bookings[c.b].status == Pending))
  }

  ghost predicate PoliteRun(s: Sys, actions: seq<Action>, e: EventId)
    requires Aligned(s)
  {
    actions == [] || (
      var front := actions[..|actions| - 1];
      PoliteRun(s, front, e) && PoliteStep(Run(s, front), actions[|actions| - 1], e))
  }

  /** A timeout's insert is refused by the foreign key, so that it need not be polite. */
  lemma PoliteStepIsExact(s: Sys, a: Action, e: EventId)
    requires Inv(s) && PoliteStep(s, a, e)
    ensures ExactChange(s.store.db, ChangeOf(s, a), e)
  {
    hide SumsOk, TokensOk, Unclaimed, HasRow, NoneTaken;
    if a.Go? && a.i < |s.clients| {
      assert ClientOk(s, a.i);
    }
  }

  /** In every interleaving of polite steps, a row is booked by exactly the booked booking that lists its label. */
  lemma {:induction false} PoliteRunIsExact(users: set<nat>, actions: seq<Action>, e: EventId)
    requires PoliteRun(Init(users), actions, e)
    ensures ExactRun(Init(users), actions, e) && SeatsExact(Run(Init(users), actions).store.db, e)
  {
    hide SeatsExact, ExactChange, Step, Init, PoliteStep;
    if actions != [] {
      var front := actions[..|actions| - 1];
      PoliteRunIsExact(users, front, e);
      StartsWithInv(users);
      RunKeepsInv(Init(users), front);
      PoliteStepIsExact(Run(Init(users), front), actions[|actions| - 1], e);
    }
    ExactThroughoutIff(users, actions, e);
  }

  // ----- The list of available seats -----

  /** The labels the availability query returns, in table order. */
  function AvailableLabels(db: Tables, e: EventId): seq<Label> {
    SeatLabels(Filter(db.seats, IsAvailable(e)))
  }

  ghost predicate IsBooked(db: Tables, e: EventId, seatLabel: Label) {
    exists b: BookingId :: BookedBy(db, e, seatLabel, b)
  }

  ghost function UnbookedIn(db: Tables, e: EventId): Seat -> bool {
    (row: Seat) => row.event == e && !IsBooked(db, e, row.seatLabel)
  }

  /**
   Where the table is exact, the available seats are the event's seats minus those of its booked bookings, row for row.
   */
  lemma ExactMeansUnbooked(db: Tables, e: EventId)
    requires SeatsExact(db, e)
    ensures AvailableLabels(db, e) == SeatLabels(Filter(db.seats, UnbookedIn(db, e)))
  {
    forall i | 0 <= i < |db.seats|
      ensures IsAvailable(e)(db.seats[i]) == UnbookedIn(db, e)(db.seats[i])
    {
      var row := db.seats[i];
      if row.event == e {
        assert RowExact(db, row);
        if row.status == Taken {
          assert BookedBy(db, e, row.seatLabel, row.holder.value);
        }
      }
    }
    FilterCongruent(db.seats, IsAvailable(e), UnbookedIn(db, e));
  }

  /** So it is at the end of every run of exact steps. */
  lemma AvailableAreUnbooked(users: set<nat>, actions: seq<Action>, e: EventId)
    requires ExactRun(Init(users), actions, e)
    ensures var db := Run(Init(users), actions).store.db;
            AvailableLabels(db, e) == SeatLabels(Filter(db.seats, UnbookedIn(db, e)))
  {
    ExactThroughoutIff(users, actions, e);
    ExactMeansUnbooked(Run(Init(users), actions).store.db, e);
  }
}
