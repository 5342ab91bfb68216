/** Tokens against available seats in every interleaving. */
module SeatTokens {
  import opened Collections
  import opened Model
  import opened StoreCalls
  import opened Protocol
  import opened ProtocolInvariant
  import opened Conservation
  import opened Effects
  import opened SeatLedger

  // ----- An event has as many seat labels as capacity -----

  predicate NoDuplicates(labels: seq<Label>) {
    forall i, j :: 0 <= i < j < |labels| ==> labels[i] != labels[j]
  }

  function LabelSet(labels: seq<Label>): set<Label> {
    set i | 0 <= i < |labels| :: labels[i]
  }

  lemma {:induction false} DistinctLabelsCount(labels: seq<Label>)
    requires NoDuplicates(labels)
    ensures |LabelSet(labels)| == |labels|
  {
    if labels != [] {
      var front, last := labels[..|labels| - 1], labels[|labels| - 1];
      DistinctLabelsCount(front);
      assert LabelSet(labels) == LabelSet(front) + {last};
      assert last !in LabelSet(front);
    } else {
      assert LabelSet(labels) == {};
    }
  }

  lemma {:induction false} LabelSetAtMost(labels: seq<Label>)
    ensures |LabelSet(labels)| <= |labels|
  {
    if labels != [] {
      var front, last := labels[..|labels| - 1], labels[|labels| - 1];
      LabelSetAtMost(front);
      assert LabelSet(labels) == LabelSet(front) + {last};
    } else {
      assert LabelSet(labels) == {};
    }
  }

  /** The labels of the event's seat rows. */
  function RowLabels(seats: seq<Seat>, e: EventId): set<Label> {
    set i | 0 <= i < |seats| && seats[i].event == e :: seats[i].seatLabel
  }

  /** The event has a seat row per unit of capacity, all with different labels; other rows are of known events. */
  predicate SeatsFit(db: Tables, e: EventId) {
    && (forall i :: 0 <= i < |db.seats| ==> db.seats[i].event in db.events)
    && (e in db.events ==> |RowLabels(db.seats, e)| == db.events[e].capacity)
  }

  predicate SameRows(seats: seq<Seat>, seats': seq<Seat>) {
    && |seats'| == |seats|
    && forall i :: 0 <= i < |seats| ==> seats'[i].event == seats[i].event && seats'[i].seatLabel == seats[i].seatLabel
  }

  predicate SameCapacities(db: Tables, db': Tables) {
    db'.events.Keys == db.events.Keys && forall e :: e in db.events ==> db'.events[e].capacity == db.events[e].capacity
  }

  lemma SameRowsFit(db: Tables, db': Tables, e: EventId)
    requires SeatsFit(db, e) && SameRows(db.seats, db'.seats) && SameCapacities(db, db')
    ensures SeatsFit(db', e)
  {
    assert RowLabels(db'.seats, e) == RowLabels(db.seats, e);
  }

  lemma FreshRowLabels(seats: seq<Seat>, e: EventId, labels: seq<Label>)
    requires forall i :: 0 <= i < |seats| ==> seats[i].event != e
    ensures RowLabels(seats + FreshSeats(e, labels), e) == LabelSet(labels)
  {
    var seats' := seats + FreshSeats(e, labels);
    forall i | 0 <= i < |labels|
      ensures labels[i] in RowLabels(seats', e)
    {
      assert seats'[|seats| + i] == Seat(e, labels[i], Available, None);
    }
    forall x | x in RowLabels(seats', e)
      ensures x in LabelSet(labels)
    {
      var i :| 0 <= i < |seats'| && seats'[i].event == e && seats'[i].seatLabel == x;
      assert seats'[i] == FreshSeats(e, labels)[i - |seats|];
    }
  }

  lemma OtherRowLabels(seats: seq<Seat>, more: seq<Seat>, e: EventId)
    requires forall i :: 0 <= i < |more| ==> more[i].event != e
    ensures RowLabels(seats + more, e) == RowLabels(seats, e)
  {
    assert forall j :: |seats| <= j < |seats + more| ==> (seats + more)[j] == more[j - |seats|];
    forall x | x in RowLabels(seats, e)
      ensures x in RowLabels(seats + more, e)
    {
      var i :| 0 <= i < |seats| && seats[i].event == e && seats[i].seatLabel == x;
      assert (seats + more)[i] == seats[i];
    }
    forall x | x in RowLabels(seats + more, e)
      ensures x in RowLabels(seats, e)
    {
      var i :| 0 <= i < |seats + more| && (seats + more)[i].event == e && (seats + more)[i].seatLabel == x;
      assert i < |seats|;
    }
  }

  lemma OpenFits(
    db: Tables, e': EventId, labels: seq<Label>, price: int, fee: int, maxTickets: int, endTime: int, e: EventId)
    requires SeatsFit(db, e) && (e' == e ==> NoDuplicates(labels))
    ensures SeatsFit(OpenTables(db, e', labels, price, fee, maxTickets, endTime), e)
  {
    var db' := OpenTables(db, e', labels, price, fee, maxTickets, endTime);
    if e' !in db.events {
      if e' == e {
        DistinctLabelsCount(labels);
        FreshRowLabels(db.seats, e, labels);
        assert RowLabels(db'.seats, e) == LabelSet(labels);
      } else {
        OtherRowLabels(db.seats, FreshSeats(e', labels), e);
      }
    }
  }

  predicate DistinctWhenOpened(a: Action, e: EventId) {
    a.OpenEvent? && a.e == e ==> NoDuplicates(a.labels)
  }

  /** Every change but a new event's leaves the rows' labels and the capacities alone. */
  lemma ChangeKeepsRows(db: Tables, change: Change)
    requires !change.Opened?
    ensures SameRows(db.seats, Apply(db, change).seats) && SameCapacities(db, Apply(db, change))
  {
  }

  lemma StepFits(s: Sys, a: Action, e: EventId)
    requires Aligned(s) && SeatsFit(s.store.db, e) && DistinctWhenOpened(a, e)
    ensures SeatsFit(Step(s, a).store.db, e)
  {
    if a.OpenEvent? {
      OpenFits(s.store.db, a.e, a.labels, a.price, a.fee, a.maxTickets, a.endTime, e);
    } else {
      hide Step, Apply, SameRows, SameCapacities;
      StepEffect(s, a);
      ChangeKeepsRows(s.store.db, ChangeOf(s, a));
      SameRowsFit(s.store.db, Step(s, a).store.db, e);
    }
  }

  lemma {:induction false} RunFits(users: set<nat>, actions: seq<Action>, e: EventId)
    requires forall a :: a in actions ==> DistinctWhenOpened(a, e)
    ensures SeatsFit(Run(Init(users), actions).store.db, e)
  {
    if actions != [] {
      var front, a := actions[..|actions| - 1], actions[|actions| - 1];
      RunFits(users, front, e);
      assert a in actions;
      StepFits(Run(Init(users), front), a, e);
    }
  }

  // ----- The labels of bookings that may hold rows -----

  predicate Holds(r: Row) {
    r.booking.status == Booked || r.account.calledOff > 0
  }

  function HeldSeatsIn(e: EventId): Row -> int {
    (r: Row) => if r.booking.event == e && Holds(r) then |r.booking.seats| else 0
  }

  function HeldLabels(rows: seq<Row>, e: EventId): set<Label> {
    if rows == [] then {}
    else
      var r := rows[|rows| - 1];
      HeldLabels(rows[..|rows| - 1], e) + if r.booking.event == e && Holds(r) then LabelSet(r.booking.seats) else {}
  }

  lemma {:induction false} HeldLabelsAtMost(rows: seq<Row>, e: EventId)
    ensures |HeldLabels(rows, e)| <= Sum(rows, HeldSeatsIn(e))
  {
    if rows != [] {
      HeldLabelsAtMost(rows[..|rows| - 1], e);
      LabelSetAtMost(rows[|rows| - 1].booking.seats);
    }
  }

  lemma {:induction false} HeldLabelsContain(rows: seq<Row>, e: EventId, b: BookingId, seatLabel: Label)
    requires b < |rows| && rows[b].booking.event == e && Holds(rows[b]) && seatLabel in rows[b].booking.seats
    ensures seatLabel in HeldLabels(rows, e)
  {
    if b < |rows| - 1 {
      HeldLabelsContain(rows[..|rows| - 1], e, b, seatLabel);
    }
  }

  /** A booking that may hold rows is live, or its tokens are lost. */
  lemma HeldIsLiveOrLost(s: Sys, b: nat, e: EventId)
    requires Aligned(s) && b < |s.accounts| && RowOk(s, b)
    ensures var r := RowAt(s, b);
            HeldSeatsIn(e)(r) <= SeatsIf(e, IsLive)(r) + SeatsIf(e, IsLost)(r)
  {
    var r := RowAt(s, b);
    assert SeatsIf(e, IsLive)(r) == if r.booking.event == e && IsLive(r) then |r.booking.seats| else 0;
    assert SeatsIf(e, IsLost)(r) == if r.booking.event == e && IsLost(r) then |r.booking.seats| else 0;
  }

  lemma {:induction false} SumOfTwo<T>(rows: seq<T>, f: T -> int, g: T -> int, h: T -> int)
    requires forall i :: 0 <= i < |rows| ==> f(rows[i]) <= g(rows[i]) + h(rows[i])
    ensures Sum(rows, f) <= Sum(rows, g) + Sum(rows, h)
  {
    if rows != [] {
      SumOfTwo(rows[..|rows| - 1], f, g, h);
    }
  }

  lemma HeldSeatsAtMost(s: Sys, e: EventId)
    requires Inv(s)
    ensures Sum(RowsOf(s), HeldSeatsIn(e)) <= LiveSeats(s, e) + SeatsThat(s, e, IsLost)
  {
    forall b | 0 <= b < |s.accounts|
      ensures var r := RowsOf(s)[b];
              HeldSeatsIn(e)(r) <= SeatsIf(e, IsLive)(r) + SeatsIf(e, IsLost)(r)
    {
      assert RowOk(s, b);
      HeldIsLiveOrLost(s, b, e);
    }
    SumOfTwo(RowsOf(s), HeldSeatsIn(e), SeatsIf(e, IsLive), SeatsIf(e, IsLost));
  }

  // ----- Every row is available or held -----

  /** The set of labels the availability query returns. */
  function AvailableSet(db: Tables, e: EventId): set<Label> {
    set i | 0 <= i < |db.seats| && db.seats[i].event == e && db.seats[i].status == Available :: db.seats[i].seatLabel
  }

  /** No finalization of the event's bookings came too late. */
  predicate NothingStale(s: Sys, e: EventId)
    requires Aligned(s)
  {
    forall b :: 0 <= b < |s.accounts| && s.store.db.bookings[b].event == e ==> s.accounts[b].stale == 0
  }

  lemma RowIsAvailableOrHeld(s: Sys, e: EventId, i: nat)
    requires Inv(s) && SeatsHeld(s) && NothingStale(s, e) && i < |s.store.db.seats| && s.store.db.seats[i].event == e
    ensures s.store.db.seats[i].seatLabel in AvailableSet(s.store.db, e) + HeldLabels(RowsOf(s), e)
  {
    var row := s.store.db.seats[i];
    assert RowHeld(s, row);
    if row.status == Taken {
      var b := row.holder.value;
      assert RowOk(s, b) && RowsOf(s)[b] == RowAt(s, b);
      HeldLabelsContain(RowsOf(s), e, b, row.seatLabel);
    }
  }

  lemma LabelsAreAvailableOrHeld(s: Sys, e: EventId)
    requires Inv(s) && SeatsHeld(s) && NothingStale(s, e)
    ensures |RowLabels(s.store.db.seats, e)| <= |AvailableSet(s.store.db, e)| + |HeldLabels(RowsOf(s), e)|
  {
    var all, available, held := RowLabels(s.store.db.seats, e), AvailableSet(s.store.db, e), HeldLabels(RowsOf(s), e);
    forall i | 0 <= i < |s.store.db.seats| && s.store.db.seats[i].event == e
      ensures s.store.db.seats[i].seatLabel in available + held
    {
      RowIsAvailableOrHeld(s, e, i);
    }
    assert all <= available + held;
    SubsetCount(all, available + held);
  }

  /**
   In every interleaving, admin cancellations included, of an event with distinct seats: unless a finalization came
   too late, tokens and tokens in flight are at most the available seats, plus the seats that never took a token and
   the tokens that the reconciler gave.
   */
  lemma TokensCoverAvailableSeats(users: set<nat>, actions: seq<Action>, s: Sys, e: EventId)
    requires s == Run(Init(users), actions) && e in s.store.db.events && NothingStale(s, e)
    requires forall a :: a in actions ==> DistinctWhenOpened(a, e)
    ensures Tokens(s.store.tokens, e) + InFlight(s, e)
            <= |AvailableSet(s.store.db, e)| + SeatsThat(s, e, IsPromoted) + SeatsThat(s, e, IsPhantom) + Given(s, e)
  {
    ReachableIsInv(s);
    TakenRowsAreHeld(s);
    hide ShapeOk, SumsOk, TokensOk, SeatsHeld, LiveSeats, InFlight, AvailableSet;
    RunFits(users, actions, e);
    LabelsAreAvailableOrHeld(s, e);
    HeldLabelsAtMost(RowsOf(s), e);
    HeldSeatsAtMost(s, e);
    StateConserved(s, e);
    HoldsSplit(s.clients, e);
  }
}
