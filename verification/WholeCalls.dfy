/** What the laws of the interleaved protocol come to in runs of whole service calls. */
module WholeCalls {
  import opened Collections
  import opened Model
  import opened StoreCalls
  import opened Protocol
  import opened Effects
  import opened ProtocolInvariant
  import opened Conservation
  import opened SeatAgreement
  import opened SeatLedger
  import opened SeatExactness
  import opened SeatTokens
  import opened ServiceCalls
  import opened ServiceRuns
  import opened Promotions

  lemma SequentialStore(users: set<nat>, requests: seq<Request>)
    ensures var s := SequentialRun(Init(users), requests);
            && s.store == ServeAll(InitStore(users), requests)
            && Inv(s) && Reachable(s)
  {
    ServiceRunIsInterleaving(Init(users), requests);
    RunKeepsInv(Init(users), Interleaving(Init(users), requests));
  }

  // ----- What a lone client relies on -----

  /** Nothing has happened to the booking of the payment at client `i` since it was read. */
  predicate Undisturbed(s: Sys, i: nat) {
    && Aligned(s) && Inv(s) && i < |s.clients|
    && (Paying(s.clients[i]) ==> s.clients[i].b < |s.accounts| && s.store.db.bookings[s.clients[i].b].status == Pending)
  }

  lemma LoneStepKeepsInv(s: Sys, i: nat, failing: Failing, unmarked: set<BookingId>, now: int)
    requires Aligned(s) && Inv(s) && i < |s.clients|
    ensures Aligned(LoneStep(s, i, failing, unmarked, now)) && Inv(LoneStep(s, i, failing, unmarked, now))
  {
    StepKeepsInv(s, Go(i, CallOk(s.clients[i], failing, unmarked), now, PickFor(s, s.clients[i])));
  }

  /** A payment that is under way moves on from a read that found its booking pending. */
  lemma PaysPending(s: Sys, i: nat, ok: bool)
    requires Undisturbed(s, i) && (s.clients[i].PayRead? || Paying(s.clients[i]))
    ensures var s' := GoPay(s, i, ok);
            && i < |s'.clients|
            && (Paying(s'.clients[i]) ==>
                  s'.clients[i].b < |s'.accounts| && s'.store.db.bookings[s'.clients[i].b].status == Pending)
  {
    hide Inv;
  }

  lemma PayingGoes(s: Sys, i: nat, ok: bool, now: int, pick: Entry)
    requires Aligned(s) && i < |s.clients| && (s.clients[i].PayRead? || Paying(s.clients[i]))
    ensures Step(s, Go(i, ok, now, pick)) == GoPay(s, i, ok)
  {
  }

  lemma OthersPayNothing(c: Client, c': Client)
    requires Follows(c, c') && !c.PayRead? && !Paying(c)
    ensures !Paying(c')
  {
  }

  lemma StaysUndisturbed(s: Sys, i: nat, failing: Failing, unmarked: set<BookingId>, now: int)
    requires Undisturbed(s, i)
    ensures Undisturbed(LoneStep(s, i, failing, unmarked, now), i)
  {
    var c, ok, pick := s.clients[i], CallOk(s.clients[i], failing, unmarked), PickFor(s, s.clients[i]);
    LoneStepKeepsInv(s, i, failing, unmarked, now);
    hide Inv, CallOk, PickFor, Paying, GoPay;
    if c.PayRead? || Paying(c) {
      PaysPending(s, i, ok);
      PayingGoes(s, i, ok, now, pick);
    } else {
      hide Follows, Step;
      StepEffect(s, Go(i, ok, now, pick));
      OthersPayNothing(c, Step(s, Go(i, ok, now, pick)).clients[i]);
    }
  }

  // ----- Sequential runs have no late finalization -----

  /** No booking saw a late finalization, and none of event `e` an admin's cancellation unless `off`. */
  predicate Calm(s: Sys, e: EventId, off: bool)
    requires Aligned(s)
  {
    forall b :: 0 <= b < |s.accounts| ==>
      s.accounts[b].stale == 0 && (s.store.db.bookings[b].event == e && !off ==> s.accounts[b].calledOff == 0)
  }

  lemma LoneStepStaysCalm(s: Sys, i: nat, failing: Failing, unmarked: set<BookingId>, now: int, e: EventId, off: bool)
    requires Undisturbed(s, i) && Calm(s, e, off)
    ensures Aligned(LoneStep(s, i, failing, unmarked, now)) && Calm(LoneStep(s, i, failing, unmarked, now), e, off)
  {
    var s', ok, pick := LoneStep(s, i, failing, unmarked, now), CallOk(s.clients[i], failing, unmarked),
      PickFor(s, s.clients[i]);
    LoneStepKeepsInv(s, i, failing, unmarked, now);
    StepGrows(s, Go(i, ok, now, pick));
    ClientTroubles(s, i, ok, now, pick);
    hide Inv, CallOk, PickFor, GoClient;
    forall b | 0 <= b < |s'.accounts|
      ensures s'.accounts[b].stale == 0
              && (s'.store.db.bookings[b].event == e && !off ==> s'.accounts[b].calledOff == 0)
    {
      if b < |s.accounts| {
        assert Grows(RowAt(s, b), RowAt(s', b));
      }
    }
  }

  lemma RequestStaysCalm(s: Sys, r: Request, e: EventId, off: bool)
    requires Aligned(s) && Inv(s) && Calm(s, e, off) && (r == CancelEvent(e) ==> off)
    ensures Calm(AfterRequest(s, r), e, off)
  {
    if ByClient(r) {
      var i, s0 := |s.clients|, Step(s, Spawn(StartOf(r)));
      var p := (x: Sys) => Undisturbed(x, i) && Calm(x, e, off);
      StepKeepsInv(s, Spawn(StartOf(r)));
      RequestDrives(s, r);
      hide Inv, Step, Drive;
      forall x | p(x)
        ensures p(LoneStep(x, i, FailingOf(r), UnmarkedOf(r), NowOf(r)))
      {
        StaysUndisturbed(x, i, FailingOf(r), UnmarkedOf(r), NowOf(r));
        LoneStepStaysCalm(x, i, FailingOf(r), UnmarkedOf(r), NowOf(r), e, off);
      }
      StartIsCalm(s, r, e, off);
      DriveKeeps(p, s0, i, FailingOf(r), UnmarkedOf(r), NowOf(r), ENOUGH_CALLS);
    } else {
      OtherRequestStaysCalm(s, r, e, off);
    }
  }

  lemma StartIsCalm(s: Sys, r: Request, e: EventId, off: bool)
    requires Aligned(s) && Inv(s) && Calm(s, e, off) && ByClient(r)
    ensures var s0 := Step(s, Spawn(StartOf(r)));
            Undisturbed(s0, |s.clients|) && Calm(s0, e, off) && s0.store == s.store
              && s0.clients == s.clients + [StartOf(r)]
  {
    StepKeepsInv(s, Spawn(StartOf(r)));
    hide Inv;
  }

  lemma OtherRequestStaysCalm(s: Sys, r: Request, e: EventId, off: bool)
    requires Aligned(s) && Inv(s) && Calm(s, e, off) && (r == CancelEvent(e) ==> off) && !ByClient(r)
    ensures Calm(AfterRequest(s, r), e, off)
  {
    var a := ActionsOf(s, r)[0];
    assert ActionsOf(s, r) == [a] && [a][..0] == [];
    assert Run(s, [a]) == Step(s, a);
    assert AfterRequest(s, r) == Step(s, a);
  }

  /** Every booking of a sequential run is finalized while it is pending, if at all. */
  lemma {:induction false} SequentialIsCalm(users: set<nat>, requests: seq<Request>, e: EventId)
    ensures Calm(SequentialRun(Init(users), requests), e, CancelEvent(e) in requests)
  {
    LastRequest(Init(users), requests);
    if requests != [] {
      var front, r := requests[..|requests| - 1], requests[|requests| - 1];
      var s, off := SequentialRun(Init(users), front), CancelEvent(e) in requests;
      SequentialIsCalm(users, front, e);
      SequentialStore(users, front);
      assert r in requests;
      hide Inv, SequentialRun, AfterRequest;
      assert Calm(s, e, off);
      RequestStaysCalm(s, r, e, off);
    }
  }

  /**
   Whatever labels are requested, overlapping or unknown: as long as the event is not called off, every
   taken seat row names a booked booking of its event that lists its label.
   */
  lemma TakenSeatsAreBooked(users: set<nat>, requests: seq<Request>, e: EventId)
    requires CancelEvent(e) !in requests
    ensures SeatsSound(ServeAll(InitStore(users), requests).db, e)
  {
    SequentialStore(users, requests);
    SequentialIsCalm(users, requests, e);
    UntroubledSeatsAreSound(SequentialRun(Init(users), requests), e);
  }

  predicate ReservedExact(db: Tables, e: EventId) {
    e in db.events ==> db.events[e].reserved == Sum(db.bookings, BookedIn(e))
  }

  /** Over sequential runs in which the event is not called off, `reserved` is the number of booked bookings. */
  lemma ReservedIsExact(users: set<nat>, requests: seq<Request>, e: EventId)
    requires CancelEvent(e) !in requests
    ensures ReservedExact(ServeAll(InitStore(users), requests).db, e)
  {
    var s := SequentialRun(Init(users), requests);
    SequentialStore(users, requests);
    SequentialIsCalm(users, requests, e);
    hide Inv, SequentialRun;
    if e in s.store.db.events {
      ReservedCountsBookings(s, e);
      SumZero(RowsOf(s), ExcessIn(e));
    }
  }

  // ----- Events opened in a sequential run -----

  /** The actions of a client are its own store calls. */
  predicate Goes(a: Action) {
    a.Go? || a.Crash?
  }

  lemma {:induction false} UnrolledGoes(
    s: Sys, i: nat, failing: Failing, unmarked: set<BookingId>, now: int, calls: nat)
    ensures forall a :: a in Unroll(TryStep, NextAction(i, failing, unmarked, now), s, calls) ==> Goes(a)
    decreases calls
  {
    if calls > 0 {
      UnrolledGoes(TryStep(s, NextAction(i, failing, unmarked, now)(s)), i, failing, unmarked, now, calls - 1);
    }
  }

  /** What starts an action: a request's client, or the request itself. */
  predicate ComesFrom(a: Action, r: Request) {
    match r
    case LeaveWaitlist(e, u) => a == OptOut(e, u)
    case CancelEvent(e) => a == CallOff(e)
    case CreateEvent(e, labels, price, fee, maxTickets, endTime) => a
      == OpenEvent(e, labels, price, fee, maxTickets, endTime)
    case _ => a == Spawn(StartOf(r)) || Goes(a)
  }

  lemma ActionsComeFrom(s: Sys, r: Request)
    requires Aligned(s)
    ensures forall a :: a in ActionsOf(s, r) ==> ComesFrom(a, r)
  {
    if ByClient(r) {
      UnrolledGoes(Step(s, Spawn(StartOf(r))), |s.clients|, FailingOf(r), UnmarkedOf(r), NowOf(r), ENOUGH_CALLS);
    }
  }

  lemma {:induction false} InterleavingComesFrom(s: Sys, requests: seq<Request>, a: Action)
    requires Aligned(s) && a in Interleaving(s, requests)
    ensures exists r :: r in requests && ComesFrom(a, r)
  {
    var front, r := requests[..|requests| - 1], requests[|requests| - 1];
    if a in Interleaving(s, front) {
      InterleavingComesFrom(s, front, a);
      var r' :| r' in front && ComesFrom(a, r');
      assert r' in requests;
    } else {
      ActionsComeFrom(SequentialRun(s, front), r);
      assert r in requests;
    }
  }

  predicate DistinctSeats(r: Request, e: EventId) {
    r.CreateEvent? && r.e == e ==> NoDuplicates(r.labels)
  }

  lemma InterleavingOpensDistinct(users: set<nat>, requests: seq<Request>, e: EventId)
    requires forall r :: r in requests ==> DistinctSeats(r, e)
    ensures forall a :: a in Interleaving(Init(users), requests) ==> DistinctWhenOpened(a, e)
  {
    forall a | a in Interleaving(Init(users), requests)
      ensures DistinctWhenOpened(a, e)
    {
      hide ComesFrom, Interleaving, Init, DistinctSeats, DistinctWhenOpened;
      InterleavingComesFrom(Init(users), requests, a);
      var r :| r in requests && ComesFrom(a, r);
      OpensDistinct(a, r, e);
    }
  }

  lemma OpensDistinct(a: Action, r: Request, e: EventId)
    requires ComesFrom(a, r) && DistinctSeats(r, e)
    ensures DistinctWhenOpened(a, e)
  {
  }

  /** With distinct labels an event has as many different seat labels as capacity. */
  lemma SeatsFitCapacity(users: set<nat>, requests: seq<Request>, e: EventId)
    requires forall r :: r in requests ==> DistinctSeats(r, e)
    ensures SeatsFit(ServeAll(InitStore(users), requests).db, e)
  {
    SequentialStore(users, requests);
    InterleavingOpensDistinct(users, requests, e);
    RunFits(users, Interleaving(Init(users), requests), e);
  }

  // ----- Polite requests -----

  /** A request for event `e` asks only for labels that nobody claims. */
  ghost predicate PoliteCall(s: Store, r: Request, e: EventId) {
    r.Create? && r.e == e ==> Unclaimed(s.db, e, r.seats)
  }

  ghost predicate PoliteCalls(s: Store, requests: seq<Request>, e: EventId) {
    requests == [] || (
      var front := requests[..|requests| - 1];
      PoliteCalls(s, front, e) && PoliteCall(ServeAll(s, front), requests[|requests| - 1], e))
  }

  /** The client may come to insert a booking for event `e` with its labels. */
  predicate Asks(c: Client, e: EventId) {
    && (c.CreateGetEvent? || c.CreateGetKey? || c.CreateReserve? || c.CreateInsert?
        || c.CancelRelease? || c.CancelNext? || c.CancelPromote?)
    && c.e == e
  }

  function AskedBy(c: Client): seq<Label> {
    match c
    case CreateGetEvent(_, _, _, seats) => seats
    case CreateGetKey(_, _, _, seats) => seats
    case CreateReserve(_, _, _, seats) => seats
    case CreateInsert(_, _, _, seats) => seats
    case CancelRelease(_, _, seats) => seats
    case CancelNext(_, seats) => seats
    case CancelPromote(_, seats, _, _) => seats
    case _ => []
  }

  /** The table is exact, and client `i` asks for nothing that is claimed. */
  ghost predicate AsksPolitely(s: Sys, i: nat, e: EventId) {
    && Undisturbed(s, i)
    && SeatsExact(s.store.db, e)
    && (Asks(s.clients[i], e) ==> Unclaimed(s.store.db, e, AskedBy(s.clients[i])))
  }

  lemma LoneStepIsPolite(s: Sys, i: nat, ok: bool, now: int, pick: Entry, e: EventId)
    requires AsksPolitely(s, i, e)
    ensures PoliteStep(s, Go(i, ok, now, pick), e)
  {
    hide Inv, SeatsExact, Unclaimed;
  }

  /**
   A client that asks has asked for the same before and changed nothing, or has just cancelled the booking that had it.
   */
  lemma AskedBefore(c: Client, c': Client, e: EventId)
    requires Follows(c, c') && Asks(c', e) && !c.CancelBegin?
    ensures Asks(c, e) && AskedBy(c') == AskedBy(c) && CallChange(c) == Unchanged
  {
  }

  lemma AsksForItsOwn(s: Sys, i: nat, ok: bool, pick: Entry, e: EventId)
    requires Aligned(s) && i < |s.clients| && s.clients[i].CancelBegin? && SeatsExact(s.store.db, e)
    ensures var s' := GoCancel(s, i, ok, pick);
            i < |s'.clients| && (Asks(s'.clients[i], e) ==> Unclaimed(s'.store.db, e, AskedBy(s'.clients[i])))
  {
    var b := s.clients[i].b;
    if ok && b < |s.accounts| && s.store.db.bookings[b].event == e && Live(s.store.db.bookings[b]) {
      CancelFreesClaims(s.store.db, b);
    }
  }

  lemma CancelGoes(s: Sys, i: nat, ok: bool, now: int, pick: Entry)
    requires Aligned(s) && i < |s.clients| && s.clients[i].CancelBegin?
    ensures Step(s, Go(i, ok, now, pick)) == GoCancel(s, i, ok, pick)
  {
  }

  lemma StaysPolite(s: Sys, i: nat, failing: Failing, unmarked: set<BookingId>, now: int, e: EventId)
    requires AsksPolitely(s, i, e)
    ensures AsksPolitely(LoneStep(s, i, failing, unmarked, now), i, e)
  {
    var c, ok, pick := s.clients[i], CallOk(s.clients[i], failing, unmarked), PickFor(s, s.clients[i]);
    var a, s' := Go(i, ok, now, pick), LoneStep(s, i, failing, unmarked, now);
    StaysUndisturbed(s, i, failing, unmarked, now);
    LoneStepIsPolite(s, i, ok, now, pick, e);
    hide Inv, CallOk, PickFor, SeatsExact, Unclaimed, PoliteStep, ExactChange, Step, Asks, AskedBy, Follows, CallChange,
      GoCancel;
    PoliteStepIsExact(s, a, e);
    StepKeepsExactIff(s, a, e);
    if c.CancelBegin? {
      AsksForItsOwn(s, i, ok, pick, e);
      CancelGoes(s, i, ok, now, pick);
    } else if Asks(s'.clients[i], e) {
      StepEffect(s, a);
      AskedBefore(c, s'.clients[i], e);
    }
  }

  lemma PoliteStart(s: Sys, r: Request, e: EventId)
    requires Aligned(s) && Inv(s) && ByClient(r) && SeatsExact(s.store.db, e) && PoliteCall(s.store, r, e)
    ensures AsksPolitely(Step(s, Spawn(StartOf(r))), |s.clients|, e)
  {
    StepKeepsInv(s, Spawn(StartOf(r)));
    hide Inv, SeatsExact, Unclaimed;
  }

  lemma RequestStaysExact(s: Sys, r: Request, e: EventId)
    requires Aligned(s) && Inv(s) && SeatsExact(s.store.db, e) && PoliteCall(s.store, r, e) && r != CancelEvent(e)
    ensures SeatsExact(AfterRequest(s, r).store.db, e)
  {
    if ByClient(r) {
      var i, s0 := |s.clients|, Step(s, Spawn(StartOf(r)));
      var p := (x: Sys) => AsksPolitely(x, i, e);
      RequestDrives(s, r);
      PoliteStart(s, r, e);
      hide Inv, Step, Drive, Undisturbed, SeatsExact;
      forall x | p(x)
        ensures p(LoneStep(x, i, FailingOf(r), UnmarkedOf(r), NowOf(r)))
      {
        StaysPolite(x, i, FailingOf(r), UnmarkedOf(r), NowOf(r), e);
      }
      DriveKeeps(p, s0, i, FailingOf(r), UnmarkedOf(r), NowOf(r), ENOUGH_CALLS);
    } else {
      OtherRequestStaysExact(s, r, e);
    }
  }

  lemma OtherRequestStaysExact(s: Sys, r: Request, e: EventId)
    requires Aligned(s) && Inv(s) && SeatsExact(s.store.db, e) && r != CancelEvent(e) && !ByClient(r)
    ensures SeatsExact(AfterRequest(s, r).store.db, e)
  {
    var a := ActionsOf(s, r)[0];
    assert ActionsOf(s, r) == [a] && [a][..0] == [];
    assert Run(s, [a]) == Step(s, a);
    hide Inv, SeatsExact, Step;
    StepKeepsExactIff(s, a, e);
  }

  /**
   Over every run of polite calls in which the event is not called off, a row is taken by exactly the booking that has
   it.
   */
  lemma {:induction false} PoliteCallsAreExact(users: set<nat>, requests: seq<Request>, e: EventId)
    requires PoliteCalls(InitStore(users), requests, e) && CancelEvent(e) !in requests
    ensures SeatsExact(ServeAll(InitStore(users), requests).db, e)
  {
    hide Inv, SeatsExact, SequentialRun, AfterRequest, PoliteCall;
    SequentialStore(users, requests);
    LastRequest(Init(users), requests);
    if requests != [] {
      var front, r := requests[..|requests| - 1], requests[|requests| - 1];
      PoliteCallsAreExact(users, front, e);
      SequentialStore(users, front);
      assert r in requests;
      RequestStaysExact(SequentialRun(Init(users), front), r, e);
    } else {
      NothingIsExact(users, e);
    }
  }

  /** And the available seats are the event's seats minus those of its booked bookings, row for row. */
  lemma PoliteCallsLeaveUnbooked(users: set<nat>, requests: seq<Request>, e: EventId)
    requires PoliteCalls(InitStore(users), requests, e) && CancelEvent(e) !in requests
    ensures var db := ServeAll(InitStore(users), requests).db;
            AvailableLabels(db, e) == SeatLabels(Filter(db.seats, UnbookedIn(db, e)))
  {
    PoliteCallsAreExact(users, requests, e);
    ExactMeansUnbooked(ServeAll(InitStore(users), requests).db, e);
  }

  // ----- Plain runs -----

  /** A request for event `e` lists a seat, and no cancellation promotes anyone for `e`. */
  predicate Plain(s: Store, r: Request, e: EventId) {
    && (r.Create? && r.e == e ==> r.seats != [])
    && (PromotedBy(s, r).Some? ==> s.db.bookings[r.b].event != e)
  }

  predicate PlainRun(s: Store, requests: seq<Request>, e: EventId) {
    requests == [] || (
      var front := requests[..|requests| - 1];
      PlainRun(s, front, e) && Plain(ServeAll(s, front), requests[|requests| - 1], e))
  }

  /** Every booking of the event took a token for each of its seats. */
  predicate AllPaidFor(s: Sys, e: EventId)
    requires Aligned(s)
  {
    Proper(s, e) && forall b :: 0 <= b < |s.accounts| && s.store.db.bookings[b].event == e ==> !IsPromoted(RowAt(s, b))
  }

  /** Not a cancellation, at any of its calls. */
  predicate NoCancellation(c: Client) {
    !c.CancelBegin? && !c.CancelRelease? && !c.CancelNext? && !c.CancelPromote?
  }

  lemma StaysNoCancellation(c: Client, c': Client)
    requires Follows(c, c') && NoCancellation(c)
    ensures NoCancellation(c')
  {
  }

  /** A step that is not a promotion leaves every booking of the event paid for. */
  lemma StepKeepsPaidFor(s: Sys, a: Action, e: EventId)
    requires Aligned(s) && Inv(s) && AllPaidFor(s, e)
    requires (a.Spawn? ==> ListsSeats(a.c, e)) && (a.Go? && a.i < |s.clients| ==> NoCancellation(s.clients[a.i]))
    ensures AllPaidFor(Step(s, a), e)
  {
    var s' := Step(s, a);
    StepKeepsProper(s, a, e);
    StepGrows(s, a);
    hide Inv, Proper, Step;
    forall b | 0 <= b < |s'.accounts| && s'.store.db.bookings[b].event == e
      ensures !IsPromoted(RowAt(s', b))
    {
      if b < |s.accounts| {
        assert Grows(RowAt(s, b), RowAt(s', b));
      } else {
        BirthOf(s, a, b);
      }
    }
  }

  lemma LoneStepKeepsPaidFor(s: Sys, i: nat, failing: Failing, unmarked: set<BookingId>, now: int, e: EventId)
    requires Aligned(s) && Inv(s) && i < |s.clients| && AllPaidFor(s, e) && NoCancellation(s.clients[i])
    ensures var s' := LoneStep(s, i, failing, unmarked, now);
            Aligned(s') && Inv(s') && i < |s'.clients| && AllPaidFor(s', e) && NoCancellation(s'.clients[i])
  {
    var a := Go(i, CallOk(s.clients[i], failing, unmarked), now, PickFor(s, s.clients[i]));
    LoneStepKeepsInv(s, i, failing, unmarked, now);
    StepKeepsPaidFor(s, a, e);
    hide Inv, AllPaidFor, NoCancellation, Follows, Step, CallOk, PickFor;
    StepEffect(s, a);
    StaysNoCancellation(s.clients[i], Step(s, a).clients[i]);
  }

  lemma PaidForStart(s: Sys, r: Request, e: EventId)
    requires Aligned(s) && Inv(s) && AllPaidFor(s, e) && Plain(s.store, r, e) && ByClient(r) && !r.Cancel?
    ensures var i, s0 := |s.clients|, Step(s, Spawn(StartOf(r)));
            Aligned(s0) && Inv(s0) && i < |s0.clients| && AllPaidFor(s0, e) && NoCancellation(s0.clients[i])
  {
    var a := Spawn(StartOf(r));
    StepKeepsInv(s, a);
    hide Inv, AllPaidFor;
    StepKeepsPaidFor(s, a, e);
  }

  lemma OtherCallsKeepPaidFor(s: Sys, r: Request, e: EventId)
    requires Aligned(s) && Inv(s) && AllPaidFor(s, e) && Plain(s.store, r, e) && ByClient(r) && !r.Cancel?
    ensures AllPaidFor(AfterRequest(s, r), e)
  {
    var i, a := |s.clients|, Spawn(StartOf(r));
    var s0 := Step(s, a);
    var p := (x: Sys) => Aligned(x) && Inv(x) && i < |x.clients| && AllPaidFor(x, e) && NoCancellation(x.clients[i]);
    hide Inv, Step, Drive, AllPaidFor, NoCancellation, Plain, AfterRequest;
    PaidForStart(s, r, e);
    RequestDrives(s, r);
    forall x | p(x)
      ensures p(LoneStep(x, i, FailingOf(r), UnmarkedOf(r), NowOf(r)))
    {
      LoneStepKeepsPaidFor(x, i, FailingOf(r), UnmarkedOf(r), NowOf(r), e);
    }
    DriveKeeps(p, s0, i, FailingOf(r), UnmarkedOf(r), NowOf(r), ENOUGH_CALLS);
  }

  lemma EnvironmentKeepsPaidFor(s: Sys, r: Request, e: EventId)
    requires Aligned(s) && Inv(s) && AllPaidFor(s, e) && !ByClient(r)
    ensures AllPaidFor(AfterRequest(s, r), e)
  {
    var a := ActionsOf(s, r)[0];
    assert ActionsOf(s, r) == [a] && [a][..0] == [];
    assert Run(s, [a]) == Step(s, a);
    hide Inv, AllPaidFor, Step;
    StepKeepsPaidFor(s, a, e);
  }

  /** A cancellation that promotes nobody for the event adds no booking to it. */
  lemma CancellationAdds(s: Store, r: Request, e: EventId)
    requires r.Cancel? && Plain(s, r, e)
    ensures var bookings, bookings' := s.db.bookings, Serve(s, r).db.bookings;
            forall b :: |bookings| <= b < |bookings'| ==> bookings'[b].event != e
  {
    if PromotedBy(s, r).Some? {
      PromotionBooks(s, r);
    }
  }

  lemma CancellationKeepsPaidFor(s: Sys, r: Request, e: EventId)
    requires Aligned(s) && Inv(s) && AllPaidFor(s, e) && Plain(s.store, r, e) && r.Cancel?
    ensures AllPaidFor(AfterRequest(s, r), e)
  {
    var s' := AfterRequest(s, r);
    CancellationAdds(s.store, r, e);
    RequestIsInterleaving(s, r);
    RunGrows(s, ActionsOf(s, r));
    CancellationListsSeats(s, r, e);
    hide Inv, AfterRequest, Serve, ListsSeats;
    forall b | 0 <= b < |s'.accounts| && s'.store.db.bookings[b].event == e
      ensures !IsPromoted(RowAt(s', b)) && !IsPhantom(RowAt(s', b))
    {
      assert b < |s.accounts| && Grows(RowAt(s, b), RowAt(s', b));
    }
  }

  lemma CancellationListsSeats(s: Sys, r: Request, e: EventId)
    requires Aligned(s) && Inv(s) && AllPaidFor(s, e) && r.Cancel?
    ensures forall i :: 0 <= i < |AfterRequest(s, r).clients| ==> ListsSeats(AfterRequest(s, r).clients[i], e)
  {
    forall a | a in ActionsOf(s, r) && a.Spawn?
      ensures ListsSeats(a.c, e)
    {
      ActionsComeFrom(s, r);
    }
    hide Inv, ActionsOf, ListsSeats;
    RunKeepsProper(s, ActionsOf(s, r), e);
  }

  lemma {:induction false} PlainRunsPayForAll(users: set<nat>, requests: seq<Request>, e: EventId)
    requires PlainRun(InitStore(users), requests, e)
    ensures AllPaidFor(SequentialRun(Init(users), requests), e)
  {
    LastRequest(Init(users), requests);
    if requests != [] {
      var front, r := requests[..|requests| - 1], requests[|requests| - 1];
      var s := SequentialRun(Init(users), front);
      PlainRunsPayForAll(users, front, e);
      SequentialStore(users, front);
      hide Inv, SequentialRun, AfterRequest, AllPaidFor, Plain;
      if !ByClient(r) {
        EnvironmentKeepsPaidFor(s, r, e);
      } else if r.Cancel? {
        CancellationKeepsPaidFor(s, r, e);
      } else {
        OtherCallsKeepPaidFor(s, r, e);
      }
    }
  }

  lemma NoReconciler(users: set<nat>, requests: seq<Request>)
    ensures SequentialRun(Init(users), requests).given == map[]
  {
    forall a | a in Interleaving(Init(users), requests) && a.Spawn?
      ensures !a.c.ReconcileRead?
    {
      hide ComesFrom, Interleaving, Init;
      InterleavingComesFrom(Init(users), requests, a);
      var r :| r in requests && ComesFrom(a, r);
      NeverReconciles(a, r);
    }
    NothingGiven(users, Interleaving(Init(users), requests));
  }

  lemma NeverReconciles(a: Action, r: Request)
    requires ComesFrom(a, r)
    ensures a.Spawn? ==> !a.c.ReconcileRead?
  {
  }

  /** Tokens and live seats fit the capacity, and every booking of the event lists a seat. */
  predicate WithinCapacity(s: Store, e: EventId) {
    e in s.db.events ==>
      && 0 <= Tokens(s.tokens, e)
      && Tokens(s.tokens, e) + Sum(s.db.bookings, LiveSeatsIn(e)) <= s.db.events[e].capacity
      && forall b :: 0 <= b < |s.db.bookings| && s.db.bookings[b].event == e ==> s.db.bookings[b].seats != []
  }

  /** Nothing of the event is promoted or label-less where everything is paid for. */
  lemma PaidForTerms(s: Sys, e: EventId)
    requires Aligned(s) && Inv(s) && AllPaidFor(s, e)
    ensures SeatsThat(s, e, IsPromoted) == SeatsThat(s, e, IsPhantom) == 0
    ensures forall b :: 0 <= b < |s.accounts| && s.store.db.bookings[b].event == e ==>
            s.store.db.bookings[b].seats != []
  {
    NoPhantoms(s, e);
    forall b | 0 <= b < |s.accounts|
      ensures SeatsIf(e, IsPromoted)(RowsOf(s)[b]) == 0
      ensures s.store.db.bookings[b].event == e ==> s.store.db.bookings[b].seats != []
    {
      assert RowOk(s, b) && RowsOf(s)[b] == RowAt(s, b);
    }
    SumZero(RowsOf(s), SeatsIf(e, IsPromoted));
  }

  /**
   Sequential runs that promote nobody never sell more seats than there are, whatever fails or is called off in them.
   */
  lemma PlainRunsFitCapacity(users: set<nat>, requests: seq<Request>, e: EventId)
    requires PlainRun(InitStore(users), requests, e)
    ensures WithinCapacity(ServeAll(InitStore(users), requests), e)
  {
    var s := SequentialRun(Init(users), requests);
    SequentialStore(users, requests);
    PlainRunsPayForAll(users, requests, e);
    NoReconciler(users, requests);
    PaidForTerms(s, e);
    hide Inv, SequentialRun, AllPaidFor, LiveSeats, InFlight, Lost;
    LiveSeatsAreLive(s, e);
    if e in s.store.db.events {
      Conserved(s, e);
      NothingIsNegative(s, e);
    }
  }

  /** And tokens never exceed the available seats, although calling the event off leaves booked seats taken. */
  lemma TokensCoverSeats(users: set<nat>, requests: seq<Request>, e: EventId)
    requires PlainRun(InitStore(users), requests, e)
    requires forall r :: r in requests ==> DistinctSeats(r, e)
    ensures var s := ServeAll(InitStore(users), requests);
            e in s.db.events ==> 0 <= Tokens(s.tokens, e) <= |AvailableSet(s.db, e)|
  {
    var s := SequentialRun(Init(users), requests);
    SequentialStore(users, requests);
    PlainRunsPayForAll(users, requests, e);
    NoReconciler(users, requests);
    PaidForTerms(s, e);
    SequentialIsCalm(users, requests, e);
    InterleavingOpensDistinct(users, requests, e);
    hide Inv, AllPaidFor, LiveSeats, InFlight, Lost, AvailableSet;
    if e in s.store.db.events {
      NothingIsNegative(s, e);
      TokensCoverAvailableSeats(users, Interleaving(Init(users), requests), s, e);
    }
  }

  // ----- Timeouts -----

  predicate Known(db: Tables) {
    && (forall b :: 0 <= b < |db.bookings| ==> db.bookings[b].event in db.events)
    && (forall u :: u in db.users ==> u.UserRow?)
    && (forall row :: row in db.waitlist ==> row.id.WaitlistRow?)
  }

  /** The foreign keys hold in every sequential run. */
  lemma ServedIsKnown(users: set<nat>, requests: seq<Request>)
    ensures Known(ServeAll(InitStore(users), requests).db)
  {
    var s := SequentialRun(Init(users), requests);
    SequentialStore(users, requests);
    hide SumsOk, SequentialRun;
    forall b | 0 <= b < |s.store.db.bookings|
      ensures s.store.db.bookings[b].event in s.store.db.events
    {
      assert RowOk(s, b);
    }
  }

  /** The foreign key refuses the entry's id, so a timeout only cancels its booking. */
  lemma TimeoutOnlyCancels(s: Store, failing: Failing, b: BookingId, e: EventId, seats: seq<Label>)
    requires Known(s.db)
    ensures var s' := TimeoutCall(s, failing, b, e, seats).0;
            if b < |s.db.bookings| && s.db.bookings[b].status == Pending && GetBooking !in failing
              && CancelBooking !in failing
            then s' == s.(db := s.db.(bookings := s.db.bookings[b := s.db.bookings[b].(status := Cancelled)]))
            else s' == s
    ensures TimeoutCall(s, failing, b, e, seats).1 && e in s.db.events && GetEvent !in failing
            && FindNext !in failing ==>
              b < |s.db.bookings| && (s.db.bookings[b].status == Pending ==> Queue(s.db.waitlist, e) == [])
  {
    if b < |s.db.bookings| && s.db.bookings[b].status == Pending {
      var db := CancelTx(s.db, b).value.0;
      var next := NextActive(db.waitlist, e);
      assert next.Some? ==> InsertPending(db, next.value.id, e, None, seats).None?;
    }
  }
}
