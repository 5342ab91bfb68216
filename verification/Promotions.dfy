/** Over sequential runs of service calls, cancellations promote waiting users in the order they joined. */
module Promotions {
  import opened Collections
  import opened Model
  import opened StoreCalls
  import opened Protocol
  import opened ServiceCalls
  import opened ServiceRuns
  import opened WaitlistQueue

  function TableOf(s: Store): Table {
    Table(s.db.waitlist, s.db.entriesMade)
  }

  /** The entry whose user a cancellation turns into a pending booking. */
  function PromotedBy(s: Store, r: Request): Option<Entry> {
    if !r.Cancel? || CancelBooking in r.failing || r.b >= |s.db.bookings|
      || s.db.bookings[r.b].status != Booked then None
    else
      var row, db := s.db.bookings[r.b], CancelTx(s.db, r.b).value.0;
      var next := NextActive(s.db.waitlist, row.event);
      if LookupAfterRelease in r.failing || FindNext in r.failing || InsertPromoted in r.failing then None
      else if next.Some? && InsertPending(db, next.value.user, row.event, None, row.seats).Some? then next
      else None
  }

  /** The waitlist operation a request amounts to. */
  function OpsOf(s: Store, r: Request): seq<WaitOp> {
    match r
    case Create(failing, now, e, u, key, seats) =>
      if CreateCall(s, failing, now, e, u, key, seats).1.Waitlisted? then [Enter(e, u)] else []
    case Join(failing, e, u) => if JoinCall(s, failing, e, u).1.Waitlisted? then [Enter(e, u)] else []
    case LeaveWaitlist(e, u) => [Leave(e, u)]
    case CancelEvent(e) => [Clear(e)]
    case Cancel(failing, _) =>
      var promoted := PromotedBy(s, r);
      if promoted.Some? && RemoveWaiting !in failing then [Drop(promoted.value.id)] else []
    case _ => []
  }

  function TableSteps(t: Table, ops: seq<WaitOp>): Table {
    if ops == [] then t else TableStep(t, ops[0])
  }

  /** The promoted entry's user gets a pending booking for the cancelled seats; no further token is taken. */
  lemma PromotionBooks(s: Store, r: Request)
    requires PromotedBy(s, r).Some?
    ensures var x, row, s' := PromotedBy(s, r).value, s.db.bookings[r.b], Serve(s, r);
            && s'.db.bookings == s.db.bookings[r.b := row.(status := Cancelled)]
                                 + [Booking(x.user, row.event, Pending, row.seats, None, 0, Unpaid)]
            && s'.tokens == (if Release in r.failing then s.tokens
               else ReleaseTokens(s.tokens, row.event, SeatCount(row.seats)))
            && TableOf(s') == TableSteps(TableOf(s), OpsOf(s, r))
  {
  }

  lemma NoPromotionKeepsWaitlist(s: Store, r: Request)
    requires r.Cancel? && PromotedBy(s, r).None?
    ensures TableOf(Serve(s, r)) == TableOf(s)
  {
  }

  lemma TimeoutKeepsWaitlist(s: Store, failing: Failing, b: BookingId, e: EventId, seats: seq<Label>)
    ensures TableOf(TimeoutCall(s, failing, b, e, seats).0) == TableOf(s)
  {
  }

  lemma {:induction false} RefundsKeepWaitlist(
    s: Store, unmarked: set<BookingId>, e: EventId, todo: seq<(BookingId, int)>)
    ensures TableOf(RefundEach(s, unmarked, e, todo)) == TableOf(s)
    decreases |todo|
  {
    if todo != [] {
      RefundsKeepWaitlist(RefundedFirst(s, unmarked, e, todo), unmarked, e, todo[1..]);
    }
  }

  /** Every service call acts on the waitlist as one queue operation, or not at all. */
  lemma ServeWaitlist(s: Store, r: Request)
    ensures TableOf(Serve(s, r)) == TableSteps(TableOf(s), OpsOf(s, r))
  {
    match r
    case Cancel(_, _) =>
      if PromotedBy(s, r).Some? {
        PromotionBooks(s, r);
      } else {
        NoPromotionKeepsWaitlist(s, r);
      }
    case Timeout(failing, b, e, seats) => TimeoutKeepsWaitlist(s, failing, b, e, seats);
    case RefundEvent(_, unmarked, e) =>
      if e in s.db.events {
        RefundsKeepWaitlist(s, unmarked, e, PaidAmong(s.db.bookings, ListByEvent(s.db.bookings, e, LIST_LIMIT)));
      }
    case _ =>
  }

  function RunOps(s: Store, requests: seq<Request>): seq<WaitOp> {
    if requests == [] then []
    else
      var front := requests[..|requests| - 1];
      RunOps(s, front) + OpsOf(ServeAll(s, front), requests[|requests| - 1])
  }

  lemma TableRunAppend(ops: seq<WaitOp>, more: seq<WaitOp>)
    requires |more| <= 1
    ensures TableRun(ops + more) == TableSteps(TableRun(ops), more)
  {
    if more == [] {
      assert ops + more == ops;
    } else {
      assert (ops + more)[..|ops + more| - 1] == ops;
    }
  }

  lemma AtMostOneOp(s: Store, r: Request)
    ensures |OpsOf(s, r)| <= 1
  {
  }

  lemma {:induction false} RunWaitlist(users: set<nat>, requests: seq<Request>)
    ensures TableOf(ServeAll(InitStore(users), requests)) == TableRun(RunOps(InitStore(users), requests))
  {
    hide Serve, OpsOf, TableSteps;
    if requests != [] {
      var s, front, r := InitStore(users), requests[..|requests| - 1], requests[|requests| - 1];
      RunWaitlist(users, front);
      ServeWaitlist(ServeAll(s, front), r);
      AtMostOneOp(ServeAll(s, front), r);
      TableRunAppend(RunOps(s, front), OpsOf(ServeAll(s, front), r));
    }
  }

  // ----- The order of promotions -----

  /** The numbers of the entries promoted for event `e`, in order. */
  function Promoted(s: Store, requests: seq<Request>, e: EventId): seq<nat> {
    if requests == [] then []
    else
      var front := requests[..|requests| - 1];
      Promoted(s, front, e) + PromotedNow(ServeAll(s, front), requests[|requests| - 1], e)
  }

  function PromotedNow(s: Store, r: Request, e: EventId): seq<nat> {
    var x := PromotedBy(s, r);
    if x.Some? && x.value.event == e && x.value.id.WaitlistRow? then [x.value.id.n] else []
  }

  predicate NeverFailsToRemove(requests: seq<Request>) {
    forall r :: r in requests && r.Cancel? ==> RemoveWaiting !in r.failing
  }

  predicate Waits(s: Store, e: EventId, n: nat) {
    exists i :: 0 <= i < |Queue(s.db.waitlist, e)| && Queue(s.db.waitlist, e)[i].id == WaitlistRow(n)
  }

  /** Promoted numbers increase, and everyone still waiting has a larger number. */
  predicate InJoinOrder(log: seq<nat>, q: seq<Entry>) {
    && (forall i, j :: 0 <= i < j < |log| ==> log[i] < log[j])
    && (forall i, k :: 0 <= i < |log| && 0 <= k < |q| && q[k].id.WaitlistRow? ==> log[i] < q[k].id.n)
  }

  /** Someone who is not waiting in a reachable state, having been promoted, opted out or cleared, stays so. */
  lemma NotWaitingStaysSo(s: Store, r: Request, e: EventId, n: nat)
    requires TableOk(TableOf(s)) && n < s.db.entriesMade && !Waits(s, e, n)
    ensures !Waits(Serve(s, r), e, n) && n < Serve(s, r).db.entriesMade
  {
    ServeWaitlist(s, r);
    var t, ops := TableOf(s), OpsOf(s, r);
    if ops != [] {
      QueueAfter(t, ops[0], e);
      var q, q' := Queue(t.rows, e), Queue(TableStep(t, ops[0]).rows, e);
      forall i | 0 <= i < |q'|
        ensures q'[i].id != WaitlistRow(n)
      {
        assert q'[i] in q || q'[i].id == WaitlistRow(t.made);
      }
    }
  }

  /** A queue only ever gains the newest row. */
  lemma QueueAfter(t: Table, op: WaitOp, e: EventId)
    requires TableOk(t)
    ensures forall x :: x in Queue(TableStep(t, op).rows, e) ==> x in Queue(t.rows, e) || x.id == WaitlistRow(t.made)
    ensures op.Drop? ==> forall x :: x in Queue(TableStep(t, op).rows, e) ==> x in Queue(t.rows, e) && x.id != op.id
    ensures t.made <= TableStep(t, op).made
  {
    match op
    case Enter(e', u) => QueueEnter(t, e', u, e);
    case Leave(e', u) =>
      QueueOptOut(t.rows, e', Some(u), e);
      FilterMembers(Queue(t.rows, e), NotUser(u));
    case Clear(e') => QueueOptOut(t.rows, e', None, e);
    case Drop(id) =>
      QueueDrop(t, id, e);
      FilterMembers(Queue(t.rows, e), NotEntry(id));
  }

  lemma ServedTableOk(users: set<nat>, requests: seq<Request>)
    ensures TableOk(TableOf(ServeAll(InitStore(users), requests)))
  {
    RunWaitlist(users, requests);
    RunKeepsTable(RunOps(InitStore(users), requests));
  }

  /** The promoted entry is the head of its event's queue. */
  lemma PromotedIsHead(s: Store, r: Request)
    requires TableOk(TableOf(s)) && PromotedBy(s, r).Some?
    ensures var x := PromotedBy(s, r).value;
            var q := Queue(s.db.waitlist, x.event);
            q != [] && q[0] == x && x.id.WaitlistRow? && x.event == s.db.bookings[r.b].event
  {
    var e := s.db.bookings[r.b].event;
    assert Ordered(QueueIn(TableOf(s), e));
    FirstOfOrdered(Queue(s.db.waitlist, e));
  }

  /** An operation keeps the order of a log of departed entries, extended by the head if it drops the head. */
  lemma OrderAfterOp(t: Table, op: WaitOp, e: EventId, log: seq<nat>, dropsHead: bool)
    requires TableOk(t) && InJoinOrder(log, Queue(t.rows, e))
    requires forall i :: 0 <= i < |log| ==> log[i] < t.made
    requires dropsHead ==> Queue(t.rows, e) != [] && op == Drop(Queue(t.rows, e)[0].id) && op.id.WaitlistRow?
    ensures var t', log' := TableStep(t, op), if dropsHead then log + [op.id.n] else log;
            InJoinOrder(log', Queue(t'.rows, e)) && forall i :: 0 <= i < |log'| ==> log'[i] < t'.made
  {
    var q, q' := Queue(t.rows, e), Queue(TableStep(t, op).rows, e);
    var log' := if dropsHead then log + [op.id.n] else log;
    assert Ordered(QueueIn(t, e));
    QueueIds(t, e);
    QueueAfter(t, op, e);
    assert dropsHead ==> q[0] in q;
    forall i, k | 0 <= i < |log'| && 0 <= k < |q'| && q'[k].id.WaitlistRow?
      ensures log'[i] < q'[k].id.n
    {
      assert q'[k] in q';
      if q'[k] in q {
        var j :| 0 <= j < |q| && q[j] == q'[k];
        assert i < |log| ==> log[i] < q[j].id.n;
        assert dropsHead ==> j > 0;
      }
    }
  }

  lemma NotWaitingNotPromoted(s: Store, r: Request, e: EventId, n: nat)
    requires TableOk(TableOf(s)) && !Waits(s, e, n)
    ensures n !in PromotedNow(s, r, e)
  {
    if PromotedBy(s, r).Some? {
      PromotedIsHead(s, r);
    }
  }

  lemma OrderAfter(s: Store, r: Request, e: EventId, log: seq<nat>)
    requires TableOk(TableOf(s)) && InJoinOrder(log, Queue(s.db.waitlist, e))
    requires forall i :: 0 <= i < |log| ==> log[i] < s.db.entriesMade
    requires r.Cancel? ==> RemoveWaiting !in r.failing
    ensures var s', log' := Serve(s, r), log + PromotedNow(s, r, e);
            InJoinOrder(log', Queue(s'.db.waitlist, e)) && forall i :: 0 <= i < |log'| ==> log'[i] < s'.db.entriesMade
  {
    ServeWaitlist(s, r);
    var x, ops := PromotedBy(s, r), OpsOf(s, r);
    if x.Some? {
      PromotedIsHead(s, r);
      OrderAfterOp(TableOf(s), Drop(x.value.id), e, log, x.value.event == e);
      assert log + [] == log;
    } else if ops != [] {
      OrderAfterOp(TableOf(s), ops[0], e, log, false);
      assert log + [] == log;
    } else {
      assert log + [] == log;
    }
  }

  /** Promoted numbers never decrease, and nobody still waiting has a smaller one. */
  predicate InWeakOrder(log: seq<nat>, q: seq<Entry>) {
    && (forall i, j :: 0 <= i < j < |log| ==> log[i] <= log[j])
    && (forall i, k :: 0 <= i < |log| && 0 <= k < |q| && q[k].id.WaitlistRow? ==> log[i] <= q[k].id.n)
  }

  predicate AllBelow(log: seq<nat>, made: nat) {
    forall i :: 0 <= i < |log| ==> log[i] < made
  }

  lemma WeakOrderAfterOp(t: Table, op: WaitOp, e: EventId, log: seq<nat>)
    requires TableOk(t) && InWeakOrder(log, Queue(t.rows, e)) && AllBelow(log, t.made)
    ensures InWeakOrder(log, Queue(TableStep(t, op).rows, e)) && AllBelow(log, TableStep(t, op).made)
  {
    var q, q' := Queue(t.rows, e), Queue(TableStep(t, op).rows, e);
    QueueAfter(t, op, e);
    forall i, k | 0 <= i < |log| && 0 <= k < |q'| && q'[k].id.WaitlistRow?
      ensures log[i] <= q'[k].id.n
    {
      assert q'[k] in q';
      if q'[k] in q {
        var j :| 0 <= j < |q| && q[j] == q'[k];
      }
    }
  }

  lemma HeadKeepsWeakOrder(t: Table, e: EventId, log: seq<nat>)
    requires TableOk(t) && InWeakOrder(log, Queue(t.rows, e)) && AllBelow(log, t.made) && Queue(t.rows, e) != []
    requires Queue(t.rows, e)[0].id.WaitlistRow?
    ensures var log' := log + [Queue(t.rows, e)[0].id.n];
            InWeakOrder(log', Queue(t.rows, e)) && AllBelow(log', t.made)
  {
    var q := Queue(t.rows, e);
    assert Ordered(QueueIn(t, e));
    QueueIds(t, e);
    assert q[0] in q;
  }

  lemma WeakOrderAfter(s: Store, r: Request, e: EventId, log: seq<nat>)
    requires TableOk(TableOf(s)) && InWeakOrder(log, Queue(s.db.waitlist, e)) && AllBelow(log, s.db.entriesMade)
    ensures var s', log' := Serve(s, r), log + PromotedNow(s, r, e);
            InWeakOrder(log', Queue(s'.db.waitlist, e)) && AllBelow(log', s'.db.entriesMade)
  {
    var t, x, ops, log' := TableOf(s), PromotedBy(s, r), OpsOf(s, r), log + PromotedNow(s, r, e);
    if x.Some? {
      PromotedIsHead(s, r);
    }
    if PromotedNow(s, r, e) == [] {
      assert log' == log;
    } else {
      HeadKeepsWeakOrder(t, e, log);
    }
    ServeWaitlist(s, r);
    if ops != [] {
      WeakOrderAfterOp(t, ops[0], e, log');
    }
  }

  /** Promotions never overtake: in every run, whatever fails, they follow the order of joining. */
  lemma {:induction false} PromotionsFollowJoinOrder(users: set<nat>, requests: seq<Request>, e: EventId)
    ensures var s, log := ServeAll(InitStore(users), requests), Promoted(InitStore(users), requests, e);
            InWeakOrder(log, Queue(s.db.waitlist, e)) && AllBelow(log, s.db.entriesMade)
  {
    if requests != [] {
      var front := requests[..|requests| - 1];
      PromotionsFollowJoinOrder(users, front, e);
      ServedTableOk(users, front);
      WeakOrderAfter(ServeAll(InitStore(users), front), requests[|requests| - 1], e,
        Promoted(InitStore(users), front, e));
    }
  }

  /** As long as removals do not fail, each entry is promoted at most once. */
  lemma {:induction false} PromotionsInOrder(users: set<nat>, requests: seq<Request>, e: EventId)
    requires NeverFailsToRemove(requests)
    ensures var s, log := ServeAll(InitStore(users), requests), Promoted(InitStore(users), requests, e);
            && InJoinOrder(log, Queue(s.db.waitlist, e))
            && forall i :: 0 <= i < |log| ==> log[i] < s.db.entriesMade
  {
    if requests != [] {
      var front := requests[..|requests| - 1];
      PromotionsInOrder(users, front, e);
      ServedTableOk(users, front);
      OrderAfter(ServeAll(InitStore(users), front), requests[|requests| - 1], e, Promoted(InitStore(users), front, e));
    }
  }

  lemma {:induction false} NeverWaitsAgain(
    users: set<nat>, first: seq<Request>, second: seq<Request>, e: EventId, n: nat)
    requires var s := ServeAll(InitStore(users), first); n < s.db.entriesMade && !Waits(s, e, n)
    ensures var s := ServeAll(InitStore(users), first + second); n < s.db.entriesMade && !Waits(s, e, n)
  {
    if second == [] {
      assert first + second == first;
    } else {
      var front := second[..|second| - 1];
      assert (first + second)[..|first + second| - 1] == first + front;
      NeverWaitsAgain(users, first, front, e, n);
      ServedTableOk(users, first + front);
      NotWaitingStaysSo(ServeAll(InitStore(users), first + front), second[|second| - 1], e, n);
    }
  }

  /**
   Once an entry is not waiting any more, because it was promoted, opted out or cleared with its event, no
   later cancellation promotes it.
   */
  lemma {:induction false} NeverPromotedAgain(
    users: set<nat>, first: seq<Request>, second: seq<Request>, e: EventId, n: nat)
    requires var s := ServeAll(InitStore(users), first); n < s.db.entriesMade && !Waits(s, e, n)
    ensures var before, after := Promoted(InitStore(users), first, e), Promoted(InitStore(users), first + second, e);
            before <= after && n !in after[|before|..]
  {
    if second == [] {
      assert first + second == first;
    } else {
      var front, r := second[..|second| - 1], second[|second| - 1];
      assert (first + second)[..|first + second| - 1] == first + front;
      NeverPromotedAgain(users, first, front, e, n);
      NeverWaitsAgain(users, first, front, e, n);
      ServedTableOk(users, first + front);
      NotWaitingNotPromoted(ServeAll(InitStore(users), first + front), r, e, n);
    }
  }

  /** A promoted entry leaves its queue exactly when its removal does not fail. */
  lemma PromotedLeavesUnlessRemovalFails(users: set<nat>, requests: seq<Request>, r: Request)
    requires PromotedBy(ServeAll(InitStore(users), requests), r).Some?
    requires PromotedBy(ServeAll(InitStore(users), requests), r).value.id.WaitlistRow?
    ensures var s := ServeAll(InitStore(users), requests);
            var x := PromotedBy(s, r).value;
            Waits(Serve(s, r), x.event, x.id.n) <==> RemoveWaiting in r.failing
  {
    var s := ServeAll(InitStore(users), requests);
    var x := PromotedBy(s, r).value;
    ServedTableOk(users, requests);
    PromotedIsHead(s, r);
    ServeWaitlist(s, r);
    if RemoveWaiting in r.failing {
      assert Queue(Serve(s, r).db.waitlist, x.event)[0].id == x.id;
    } else {
      QueueAfter(TableOf(s), Drop(x.id), x.event);
      var q' := Queue(Serve(s, r).db.waitlist, x.event);
      forall i | 0 <= i < |q'|
        ensures q'[i].id != x.id
      {
        assert q'[i] in q';
      }
    }
  }
}
