/** When taken seat rows name booked bookings that have their labels: exactly the steps that keep this, and the runs. */
module SeatAgreement {
  import opened Model
  import opened StoreCalls
  import opened Protocol
  import opened ProtocolInvariant
  import opened Effects

  /** Booking `b` is a booked booking of event `e` that lists the label. */
  predicate BookedBy(db: Tables, e: EventId, seatLabel: Label, b: BookingId) {
    && b < |db.bookings|
    && db.bookings[b].event == e
    && db.bookings[b].status == Booked
    && seatLabel in db.bookings[b].seats
  }

  predicate RowSound(db: Tables, row: Seat) {
    && row.status != Held
    && (row.status == Taken ==> row.holder.Some? && BookedBy(db, row.event, row.seatLabel, row.holder.value))
  }

  predicate SeatsSound(db: Tables, e: EventId) {
    forall i :: 0 <= i < |db.seats| && db.seats[i].event == e ==> RowSound(db, db.seats[i])
  }

  // ----- The changes that keep it -----

  /** Some seat row of the event has one of the labels. */
  predicate HasRow(db: Tables, e: EventId, labels: seq<Label>) {
    exists i :: 0 <= i < |db.seats| && db.seats[i].event == e && db.seats[i].seatLabel in labels
  }

  predicate NoneTaken(db: Tables, e: EventId) {
    forall i :: 0 <= i < |db.seats| && db.seats[i].event == e ==> db.seats[i].status != Taken
  }

  /** The change marks a booking of event `e` that is in this status. */
  predicate FinalizesOne(db: Tables, change: Change, e: EventId, status: BookingStatus) {
    && change.Finalized? && change.b < |db.bookings|
    && db.bookings[change.b].event == e && db.bookings[change.b].status == status
  }

  /** The event is not called off over taken rows, and no finalization finds its booking cancelled and marks a row. */
  predicate SoundChange(db: Tables, change: Change, e: EventId) {
    && (change == EventOff(e) ==> NoneTaken(db, e))
    && (FinalizesOne(db, change, e, Cancelled) ==> !HasRow(db, e, change.seats))
  }

  /** Rows that stay as they are, and bookings that stay where they are if they are booked. */
  lemma SameSeatsSound(db: Tables, db': Tables, e: EventId)
    requires SeatsSound(db, e) && db'.seats == db.seats && |db.bookings| <= |db'.bookings|
    requires forall b :: 0 <= b < |db.bookings| && db.bookings[b].event == e && db.bookings[b].status == Booked ==>
               db'.bookings[b].event == e && db'.bookings[b].status == Booked
                 && db'.bookings[b].seats == db.bookings[b].seats
    ensures SeatsSound(db', e)
  {
    forall i | 0 <= i < |db'.seats| && db'.seats[i].event == e
      ensures RowSound(db', db'.seats[i])
    {
      assert RowSound(db, db.seats[i]);
    }
  }

  lemma CancelKeepsSound(db: Tables, b: BookingId, e: EventId)
    requires SeatsSound(db, e) && b < |db.bookings|
    ensures SeatsSound(CancelTx(db, b).value.0, e)
  {
    var db' := CancelTx(db, b).value.0;
    forall i | 0 <= i < |db'.seats| && db'.seats[i].event == e
      ensures RowSound(db', db'.seats[i])
    {
      assert RowSound(db, db.seats[i]);
    }
  }

  /** A finalization of the event's booking `b`, with its labels if it is booked already. */
  lemma FinalizeKeepsSoundIff(db: Tables, b: BookingId, seats: seq<Label>, amount: int, e: EventId)
    requires SeatsSound(db, e) && b < |db.bookings| && db.bookings[b].event == e
    requires db.bookings[b].status == Booked ==> db.bookings[b].seats == seats
    ensures SeatsSound(FinalizeTx(db, b, seats, amount).value, e)
            <==> (db.bookings[b].status == Cancelled ==> !HasRow(db, e, seats))
  {
    var db' := FinalizeTx(db, b, seats, amount).value;
    forall i | 0 <= i < |db'.seats| && db'.seats[i].event == e
      ensures db'.seats[i] == TakeRow(db.seats[i], e, seats, b)
      ensures RowSound(db', db'.seats[i]) <==> (db.bookings[b].status == Cancelled ==> db.seats[i].seatLabel !in seats)
    {
      assert RowSound(db, db.seats[i]);
    }
    if db.bookings[b].status == Cancelled && HasRow(db, e, seats) {
      var i :| 0 <= i < |db.seats| && db.seats[i].event == e && db.seats[i].seatLabel in seats;
      assert !RowSound(db', db'.seats[i]);
    }
  }

  lemma OtherFinalizeKeepsSound(db: Tables, b: BookingId, seats: seq<Label>, amount: int, e: EventId)
    requires SeatsSound(db, e) && b < |db.bookings| && db.bookings[b].event != e
    ensures SeatsSound(FinalizeTx(db, b, seats, amount).value, e)
  {
    var db' := FinalizeTx(db, b, seats, amount).value;
    forall i | 0 <= i < |db'.seats| && db'.seats[i].event == e
      ensures RowSound(db', db'.seats[i])
    {
      assert RowSound(db, db.seats[i]);
    }
  }

  lemma CallOffKeepsSoundIff(db: Tables, e': EventId, e: EventId)
    requires SeatsSound(db, e)
    ensures SeatsSound(CallOffEvent(db, e'), e) <==> (e' == e ==> NoneTaken(db, e))
  {
    var db' := CallOffEvent(db, e');
    forall i | 0 <= i < |db.seats| && db.seats[i].event == e
      ensures RowSound(db', db.seats[i]) <==> (e' == e ==> db.seats[i].status != Taken)
    {
      assert RowSound(db, db.seats[i]);
    }
    if e' == e && !NoneTaken(db, e) {
      var i :| 0 <= i < |db.seats| && db.seats[i].event == e && db.seats[i].status == Taken;
      assert !RowSound(db', db'.seats[i]);
    }
  }

  lemma OpenKeepsSound(
    db: Tables, e': EventId, labels: seq<Label>, price: int, fee: int, maxTickets: int, endTime: int, e: EventId)
    requires SeatsSound(db, e)
    ensures SeatsSound(OpenTables(db, e', labels, price, fee, maxTickets, endTime), e)
  {
    var db' := OpenTables(db, e', labels, price, fee, maxTickets, endTime);
    forall i | 0 <= i < |db'.seats| && db'.seats[i].event == e
      ensures RowSound(db', db'.seats[i])
    {
      if i < |db.seats| {
        assert RowSound(db, db.seats[i]);
      }
    }
  }

  /** A booked booking's finalization marks the labels that the booking lists. */
  predicate MarksOwn(db: Tables, change: Change) {
    change.Finalized? && change.b < |db.bookings| && db.bookings[change.b].status == Booked ==>
      db.bookings[change.b].seats == change.seats
  }

  lemma ChangeKeepsSoundIff(db: Tables, change: Change, e: EventId)
    requires SeatsSound(db, e) && MarksOwn(db, change)
    ensures SeatsSound(Apply(db, change), e) <==> SoundChange(db, change, e)
  {
    match change
    case Withdrawn(b) => if b < |db.bookings| { CancelKeepsSound(db, b, e); }
    case Finalized(b, seats, amount) =>
      if b < |db.bookings| {
        if db.bookings[b].event == e {
          FinalizeKeepsSoundIff(db, b, seats, amount, e);
        } else {
          OtherFinalizeKeepsSound(db, b, seats, amount, e);
        }
      }
    case EventOff(e') => CallOffKeepsSoundIff(db, e', e);
    case Opened(e', labels, price, fee, maxTickets, endTime) =>
      OpenKeepsSound(db, e', labels, price, fee, maxTickets, endTime, e);
    case _ => SameSeatsSound(db, Apply(db, change), e);
  }

  // ----- Every step and every run -----

  /** What a client knows of its booking makes a repeated finalization mark the booking's own labels. */
  lemma StepMarksOwn(s: Sys, a: Action)
    requires Inv(s)
    ensures MarksOwn(s.store.db, ChangeOf(s, a))
  {
    hide SumsOk, TokensOk;
    if a.Go? && a.i < |s.clients| && s.clients[a.i].PayFinalize? {
      var b := s.clients[a.i].b;
      assert ClientOk(s, a.i);
      if b < |s.accounts| {
        assert RowOk(s, b);
      }
    }
  }

  /**
   Exactly the steps that keep every taken row of the event with a booked booking that lists its label: all but calling
   the event off over taken rows, and a finalization that finds its booking cancelled and marks a row.
   */
  lemma StepKeepsSoundIff(s: Sys, a: Action, e: EventId)
    requires Inv(s) && SeatsSound(s.store.db, e)
    ensures SeatsSound(Step(s, a).store.db, e) <==> SoundChange(s.store.db, ChangeOf(s, a), e)
  {
    hide ShapeOk, SumsOk, TokensOk, Step, Apply, ChangeOf, SeatsSound, SoundChange, MarksOwn;
    StepEffect(s, a);
    StepMarksOwn(s, a);
    ChangeKeepsSoundIff(s.store.db, ChangeOf(s, a), e);
  }

  /** Every step of the run is one of these. */
  predicate SoundRun(s: Sys, actions: seq<Action>, e: EventId)
    requires Aligned(s)
  {
    actions == [] || (
      var front, last := actions[..|actions| - 1], actions[|actions| - 1];
      SoundRun(s, front, e) && SoundChange(Run(s, front).store.db, ChangeOf(Run(s, front), last), e))
  }

  /** The rows are sound at every point of the run. */
  predicate SoundThroughout(s: Sys, actions: seq<Action>, e: EventId)
    requires Aligned(s)
  {
    SeatsSound(Run(s, actions).store.db, e) && (actions == [] || SoundThroughout(s, actions[..|actions| - 1], e))
  }

  lemma {:induction false} SoundThroughoutIff(users: set<nat>, actions: seq<Action>, e: EventId)
    ensures SoundThroughout(Init(users), actions, e) <==> SoundRun(Init(users), actions, e)
  {
    if actions != [] {
      var front, s := actions[..|actions| - 1], Run(Init(users), actions[..|actions| - 1]);
      SoundThroughoutIff(users, front, e);
      RunKeepsInv(Init(users), front);
      hide SeatsSound, SoundChange, Step;
      if SeatsSound(s.store.db, e) {
        StepKeepsSoundIff(s, actions[|actions| - 1], e);
      }
    }
  }
}
