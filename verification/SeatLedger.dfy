/** Seat rows against bookings in every interleaving: whom a taken row may name, and what that costs in tokens. */
module SeatLedger {
  import opened Model
  import opened StoreCalls
  import opened Protocol
  import opened ProtocolInvariant
  import opened Conservation
  import opened Effects
  import opened SeatAgreement

  // ----- Whom a taken row names -----

  /** Booked now, or marked by a finalization that came too late, or called off while booked. */
  predicate MayHold(r: Row) {
    r.booking.status == Booked || r.account.stale > 0 || r.account.calledOff > 0
  }

  predicate RowHeld(s: Sys, row: Seat)
    requires Aligned(s)
  {
    && row.status != Held
    && (row.status == Taken ==>
          && row.holder.Some? && row.holder.value < |s.accounts|
          && s.store.db.bookings[row.holder.value].event == row.event
          && row.seatLabel in Effective(s.store.db.bookings[row.holder.value].seats)
          && MayHold(RowAt(s, row.holder.value)))
  }

  predicate SeatsHeld(s: Sys)
    requires Aligned(s)
  {
    forall i :: 0 <= i < |s.store.db.seats| ==> RowHeld(s, s.store.db.seats[i])
  }

  // ----- Steps -----

  lemma SeatsStayHeld(s: Sys, s': Sys)
    requires Aligned(s) && Aligned(s') && SeatsHeld(s) && AllGrow(s, s') && s'.store.db.seats == s.store.db.seats
    requires forall b :: 0 <= b < |s.accounts| && s.store.db.bookings[b].status == Booked ==> MayHold(RowAt(s', b))
    ensures SeatsHeld(s')
  {
    forall i | 0 <= i < |s'.store.db.seats|
      ensures RowHeld(s', s'.store.db.seats[i])
    {
      RowStaysHeld(s, s', s.store.db.seats[i]);
    }
  }

  lemma RowStaysHeld(s: Sys, s': Sys, row: Seat)
    requires Aligned(s) && Aligned(s') && AllGrow(s, s') && RowHeld(s, row)
    requires row.status == Taken ==>
               var b := row.holder.value;
               s.store.db.bookings[b].status == Booked ==> b < |s'.accounts| && MayHold(RowAt(s', b))
    ensures RowHeld(s', row)
  {
    if row.status == Taken {
      assert Grows(RowAt(s, row.holder.value), RowAt(s', row.holder.value));
    }
  }

  /** The cancellation transaction frees every row its booking holds. */
  lemma WithdrawnKeepsHeld(s: Sys, s': Sys, b: BookingId)
    requires Aligned(s) && Aligned(s') && AllGrow(s, s') && SeatsHeld(s) && b < |s.accounts| && RowOk(s, b)
    requires s'.store.db == CancelTx(s.store.db, b).value.0
    ensures SeatsHeld(s')
  {
    var booking := s.store.db.bookings[b];
    forall k | 0 <= k < |s'.store.db.seats|
      ensures RowHeld(s', s'.store.db.seats[k])
    {
      var row := s.store.db.seats[k];
      assert RowHeld(s, row);
      if booking.status == Booked {
        assert s'.store.db.seats[k] == FreeRow(row, booking.event, booking.seats);
      }
      if row.status == Taken && row.holder.value != b {
        RowStaysHeld(s, s', row);
      } else if row.status == Taken && booking.status != Booked {
        RowStaysHeld(s, s', row);
      }
    }
  }

  /** The finalization marks rows for a booking that is now booked, or that it has just found not pending. */
  lemma FinalizeKeepsHeld(s: Sys, i: nat)
    requires Aligned(s) && i < |s.clients| && s.clients[i].PayFinalize? && ClientOk(s, i) && SeatsHeld(s)
    requires AllGrow(s, GoPay(s, i, true))
    ensures SeatsHeld(GoPay(s, i, true))
  {
    var s', c := GoPay(s, i, true), s.clients[i];
    var e := s.store.db.bookings[c.b].event;
    forall k | 0 <= k < |s'.store.db.seats|
      ensures RowHeld(s', s'.store.db.seats[k])
    {
      var row := s.store.db.seats[k];
      assert s'.store.db.seats[k] == TakeRow(row, e, c.seats, c.b);
      RowStaysHeld(s, s', row);
    }
  }

  lemma OpenKeepsHeld(s: Sys, a: Action)
    requires Aligned(s) && a.OpenEvent? && SeatsHeld(s)
    ensures SeatsHeld(Step(s, a))
  {
    var s' := Step(s, a);
    forall k | 0 <= k < |s'.store.db.seats|
      ensures RowHeld(s', s'.store.db.seats[k])
    {
      if k < |s.store.db.seats| {
        assert RowHeld(s, s.store.db.seats[k]);
      }
    }
  }

  lemma CallOffKeepsHeld(s: Sys, e: EventId)
    requires Aligned(s) && SeatsHeld(s) && AllGrow(s, CallOffStep(s, e))
    ensures SeatsHeld(CallOffStep(s, e))
  {
    hide SeatsHeld, AllGrow;
    SeatsStayHeld(s, CallOffStep(s, e));
  }

  /** A step that changes no seat, and no booking but for its payment. */
  lemma QuietKeepsHeld(s: Sys, s': Sys)
    requires Aligned(s) && Aligned(s') && SeatsHeld(s) && AllGrow(s, s') && s'.store.db.seats == s.store.db.seats
    requires SameLife(s.store.db.bookings, s'.store.db.bookings)
    ensures SeatsHeld(s')
  {
    hide SeatsHeld, AllGrow;
    SeatsStayHeld(s, s');
  }

  lemma FinalizeStepHeld(s: Sys, a: Action)
    requires Inv(s) && SeatsHeld(s) && AllGrow(s, Step(s, a)) && ChangeOf(s, a).Finalized?
    ensures SeatsHeld(Step(s, a))
  {
    hide SumsOk, TokensOk, SeatsHeld, AllGrow, RowOk;
    FinalizeKeepsHeld(s, a.i);
  }

  lemma StepKeepsHeld(s: Sys, a: Action)
    requires Inv(s) && SeatsHeld(s)
    ensures SeatsHeld(Step(s, a))
  {
    var change := ChangeOf(s, a);
    StepGrows(s, a);
    StepEffect(s, a);
    hide SumsOk, TokensOk, SeatsHeld, AllGrow, ClientOk, RowOk;
    match change
    case Opened(_, _, _, _, _, _) => OpenKeepsHeld(s, a);
    case EventOff(e) => CallOffKeepsHeld(s, e);
    case Finalized(_, _, _) => FinalizeStepHeld(s, a);
    case Withdrawn(b) =>
      if b < |s.accounts| {
        WithdrawnKeepsHeld(s, Step(s, a), b);
      } else {
        QuietKeepsHeld(s, Step(s, a));
      }
    case _ =>
      QuietChange(s.store.db, change);
      QuietKeepsHeld(s, Step(s, a));
  }

  lemma {:induction false} RunKeepsHeld(s: Sys, actions: seq<Action>)
    requires Inv(s) && SeatsHeld(s)
    ensures SeatsHeld(Run(s, actions))
  {
    hide ShapeOk, SumsOk, TokensOk, SeatsHeld;
    if actions != [] {
      RunKeepsHeld(s, actions[..|actions| - 1]);
      RunKeepsInv(s, actions[..|actions| - 1]);
      StepKeepsHeld(Run(s, actions[..|actions| - 1]), actions[|actions| - 1]);
    }
  }

  /**
   In every interleaving a taken row names a booking of its event whose labels, or default seat, include its label,
   and which is booked, or had its seats marked by a finalization that came too late, or was called off while booked.
   */
  lemma TakenRowsAreHeld(s: Sys)
    requires Reachable(s)
    ensures SeatsHeld(s)
  {
    var users, actions :| s == Run(Init(users), actions);
    RunKeepsHeld(Init(users), actions);
  }

  /** No booking of the event saw a late finalization or an admin's cancellation. */
  predicate Untroubled(s: Sys, e: EventId)
    requires Aligned(s)
  {
    forall b :: 0 <= b < |s.accounts| && s.store.db.bookings[b].event == e ==>
      s.accounts[b].stale == 0 && s.accounts[b].calledOff == 0
  }

  /** What happened to a booking is not forgotten. */
  lemma UntroubledBefore(s: Sys, a: Action, e: EventId)
    requires Inv(s) && Untroubled(Step(s, a), e)
    ensures Untroubled(s, e)
  {
    StepGrows(s, a);
    forall b | 0 <= b < |s.accounts| && s.store.db.bookings[b].event == e
      ensures s.accounts[b].stale == 0 && s.accounts[b].calledOff == 0
    {
      assert Grows(RowAt(s, b), RowAt(Step(s, a), b));
    }
  }

  /** Calling an event off over a taken row is an admin's cancellation of the booking that holds it. */
  lemma CallOffTroubles(s: Sys, e: EventId)
    requires Aligned(s) && SeatsSound(s.store.db, e) && !NoneTaken(s.store.db, e)
    ensures !Untroubled(CallOffStep(s, e), e)
  {
    var i :| 0 <= i < |s.store.db.seats| && s.store.db.seats[i].event == e && s.store.db.seats[i].status == Taken;
    var row := s.store.db.seats[i];
    assert RowSound(s.store.db, row);
    assert CallOffStep(s, e).accounts[row.holder.value].calledOff > 0;
  }

  lemma FinalizeTroubles(s: Sys, i: nat, e: EventId)
    requires Aligned(s) && i < |s.clients| && s.clients[i].PayFinalize?
    requires FinalizesOne(s.store.db, CallChange(s.clients[i]), e, Cancelled)
    ensures !Untroubled(GoPay(s, i, true), e)
  {
    var s', b := GoPay(s, i, true), s.clients[i].b;
    assert s'.accounts[b].stale > 0 && s'.store.db.bookings[b].event == e;
  }

  lemma UnsoundTroubles(s: Sys, a: Action, e: EventId)
    requires Aligned(s) && SeatsSound(s.store.db, e) && !SoundChange(s.store.db, ChangeOf(s, a), e)
    ensures !Untroubled(Step(s, a), e)
  {
    hide SeatsSound, NoneTaken, HasRow, Untroubled;
    if a == CallOff(e) {
      CallOffTroubles(s, e);
    } else {
      assert a.Go? && a.ok && a.i < |s.clients| && s.clients[a.i].PayFinalize?;
      FinalizeTroubles(s, a.i, e);
    }
  }

  /** Where neither happened, the run made only steps that keep the rows sound. */
  lemma {:induction false} UntroubledRunIsSound(users: set<nat>, actions: seq<Action>, e: EventId)
    requires Untroubled(Run(Init(users), actions), e)
    ensures SoundRun(Init(users), actions, e)
  {
    if actions != [] {
      var front, a := actions[..|actions| - 1], actions[|actions| - 1];
      var s := Run(Init(users), front);
      RunKeepsInv(Init(users), front);
      UntroubledBefore(s, a, e);
      UntroubledRunIsSound(users, front, e);
      SoundThroughoutIff(users, front, e);
      hide Inv, SeatsSound, SoundChange, Untroubled, Step;
      if !SoundChange(s.store.db, ChangeOf(s, a), e) {
        UnsoundTroubles(s, a, e);
      }
    }
  }

  /** So without these two, every taken row of the event names a booked booking that lists its label. */
  lemma UntroubledSeatsAreSound(s: Sys, e: EventId)
    requires Reachable(s) && Untroubled(s, e)
    ensures SeatsSound(s.store.db, e)
  {
    var users, actions :| s == Run(Init(users), actions);
    UntroubledRunIsSound(users, actions, e);
    SoundThroughoutIff(users, actions, e);
  }
}
