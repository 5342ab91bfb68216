/** The waitlist table with its positions refines a plain first-in first-out queue per event. */
module WaitlistQueue {
  import opened Collections
  import opened Model
  import opened StoreCalls

  // ----- The order of a queue -----

  /** Positions are positive, distinct and ordered as the rows were inserted, and so are the ids. */
  predicate Ordered(q: seq<Entry>) {
    && (forall i :: 0 <= i < |q| ==> q[i].position >= 1 && q[i].id.WaitlistRow?)
    && forall i, j :: 0 <= i < j < |q| ==> q[i].position < q[j].position && q[i].id.n < q[j].id.n
  }

  lemma {:induction false} FilterOrdered(q: seq<Entry>, p: Entry -> bool)
    requires Ordered(q)
    ensures Ordered(Filter(q, p))
  {
    if q != [] {
      var front := q[..|q| - 1];
      FilterOrdered(front, p);
      FilterMembers(front, p);
      forall i | 0 <= i < |Filter(front, p)|
        ensures Filter(front, p)[i] in front
      {
      }
    }
  }

  lemma {:induction false} MaxOfOrdered(q: seq<Entry>)
    requires Ordered(q)
    ensures MaxPosition(q) == if q == [] then 0 else q[|q| - 1].position
    ensures MaxPosition(q) >= |q|
  {
    if |q| > 1 {
      MaxOfOrdered(q[..|q| - 1]);
    }
  }

  lemma {:induction false} FirstOfOrdered(q: seq<Entry>)
    requires Ordered(q) && q != []
    ensures FirstByPosition(q) == Some(q[0])
  {
    if |q| > 1 {
      FirstOfOrdered(q[..|q| - 1]);
    } else {
      assert q[..0] == [];
    }
  }

  /** The reported position never underestimates the place: the k-th active row has position at least k. */
  lemma RankAtMostPosition(q: seq<Entry>, k: nat)
    requires Ordered(q) && k < |q|
    ensures k + 1 <= q[k].position
  {
    MaxOfOrdered(q[..k + 1]);
  }

  /** One more than the largest active position of the event, or one if nobody waits. */
  predicate IsFirstBeyond(rows: seq<Entry>, e: EventId, position: int) {
    && (forall row :: row in rows && row.event == e && !row.optedOut ==> row.position < position)
    && (|| (position == 1 && forall row :: row in rows ==> !(row.event == e && !row.optedOut))
        || exists row :: row in rows && row.event == e && !row.optedOut && row.position + 1 == position)
  }

  lemma NextIsFirstBeyond(rows: seq<Entry>, e: EventId)
    ensures IsFirstBeyond(rows, e, NextPosition(rows, e))
  {
    var q := Queue(rows, e);
    FilterMembers(rows, ActiveIn(e));
    hide Filter;
    forall row | row in rows && row.event == e && !row.optedOut
      ensures row.position < NextPosition(rows, e)
    {
      assert row in q;
    }
    if q != [] {
      var i :| 0 <= i < |q| && q[i].position == MaxPosition(q);
      assert q[i] in q && q[i] in rows;
    }
  }

  // ----- The table and the queue -----

  datatype WaitOp =
    | Enter(e: EventId, u: Uuid)          // the repository's Add, as one step
    | Leave(e: EventId, u: Uuid)          // OptOut
    | Clear(e: EventId)                   // the admin's cancellation of the event
    | Drop(id: Uuid)                      // Remove

  datatype Table = Table(rows: seq<Entry>, made: nat)

  function TableStep(t: Table, op: WaitOp): Table {
    match op
    case Enter(e, u) =>
      Table(t.rows + [Entry(WaitlistRow(t.made), e, u, NextPosition(t.rows, e), false)], t.made + 1)
    case Leave(e, u) => t.(rows := OptOutRows(t.rows, e, Some(u)))
    case Clear(e) => t.(rows := OptOutRows(t.rows, e, None))
    case Drop(id) => t.(rows := Filter(t.rows, NotEntry(id)))
  }

  function TableRun(ops: seq<WaitOp>): Table {
    if ops == [] then Table([], 0) else TableStep(TableRun(ops[..|ops| - 1]), ops[|ops| - 1])
  }

  datatype Ticket = Ticket(id: Uuid, user: Uuid)

  datatype Fifo = Fifo(waiting: seq<Ticket>, made: nat)

  /** What an operation does to the queue of event `e`. */
  function FifoStep(f: Fifo, op: WaitOp, e: EventId): Fifo {
    match op
    case Enter(e', u) => Fifo(if e' == e then f.waiting + [Ticket(WaitlistRow(f.made), u)] else f.waiting, f.made + 1)
    case Leave(e', u) => if e' == e then f.(waiting := Filter(f.waiting, (t: Ticket) => t.user != u)) else f
    case Clear(e') => if e' == e then f.(waiting := []) else f
    case Drop(id) => f.(waiting := Filter(f.waiting, (t: Ticket) => t.id != id))
  }

  function FifoRun(ops: seq<WaitOp>, e: EventId): Fifo {
    if ops == [] then Fifo([], 0) else FifoStep(FifoRun(ops[..|ops| - 1], e), ops[|ops| - 1], e)
  }

  function Tickets(q: seq<Entry>): seq<Ticket> {
    seq(|q|, i requires 0 <= i < |q| => Ticket(q[i].id, q[i].user))
  }

  // ----- How the operations change a queue -----

  function NotUser(u: Uuid): Entry -> bool {
    (row: Entry) => row.user != u
  }

  lemma QueueEnter(t: Table, e: EventId, u: Uuid, e': EventId)
    ensures var row := Entry(WaitlistRow(t.made), e, u, NextPosition(t.rows, e), false);
            Queue(TableStep(t, Enter(e, u)).rows, e')
            == if e' == e then Queue(t.rows, e') + [row] else Queue(t.rows, e')
  {
    FilterAppend(t.rows, Entry(WaitlistRow(t.made), e, u, NextPosition(t.rows, e), false), ActiveIn(e'));
  }

  lemma QueueDrop(t: Table, id: Uuid, e: EventId)
    ensures Queue(TableStep(t, Drop(id)).rows, e) == Filter(Queue(t.rows, e), NotEntry(id))
  {
    FilterCommutes(t.rows, ActiveIn(e), NotEntry(id));
  }

  lemma {:induction false} QueueOptOut(rows: seq<Entry>, e: EventId, u: Option<Uuid>, e': EventId)
    ensures Queue(OptOutRows(rows, e, u), e')
            == if e' != e then Queue(rows, e')
               else if u.None? then []
               else Filter(Queue(rows, e'), NotUser(u.value))
  {
    if rows != [] {
      var front, last := rows[..|rows| - 1], rows[|rows| - 1];
      QueueOptOut(front, e, u, e');
      assert OptOutRows(rows, e, u) == OptOutRows(front, e, u) + [OptOutRow(last, e, u)];
      assert rows == front + [last];
      FilterAppend(OptOutRows(front, e, u), OptOutRow(last, e, u), ActiveIn(e'));
      if u.Some? && ActiveIn(e')(last) {
        FilterAppend(Queue(front, e'), last, NotUser(u.value));
      }
    }
  }

  lemma {:induction false} TicketsFilter(q: seq<Entry>, p: Entry -> bool, r: Ticket -> bool)
    requires forall i :: 0 <= i < |q| ==> p(q[i]) == r(Ticket(q[i].id, q[i].user))
    ensures Tickets(Filter(q, p)) == Filter(Tickets(q), r)
  {
    if q != [] {
      var front, last := q[..|q| - 1], q[|q| - 1];
      TicketsFilter(front, p, r);
      assert Tickets(q) == Tickets(front) + [Ticket(last.id, last.user)];
      FilterAppend(Tickets(front), Ticket(last.id, last.user), r);
    }
  }

  // ----- The invariant of the table -----

  ghost predicate TableOk(t: Table) {
    && (forall i :: 0 <= i < |t.rows| ==> t.rows[i].id.WaitlistRow? && t.rows[i].id.n < t.made)
    && forall e :: Ordered(QueueIn(t, e))
  }

  function QueueIn(t: Table, e: EventId): seq<Entry> {
    Queue(t.rows, e)
  }

  lemma QueueIds(t: Table, e: EventId)
    requires TableOk(t)
    ensures forall row :: row in Queue(t.rows, e) ==> row.id.WaitlistRow? && row.id.n < t.made
  {
    FilterMembers(t.rows, ActiveIn(e));
  }

  predicate Beyond(q: seq<Entry>, position: int) {
    position >= 1 && forall row :: row in q ==> row.position < position
  }

  lemma AppendOrdered(q: seq<Entry>, row: Entry)
    requires Ordered(q) && Beyond(q, row.position) && row.id.WaitlistRow?
    requires forall k :: 0 <= k < |q| ==> q[k].id.n < row.id.n
    ensures Ordered(q + [row])
  {
    assert forall k :: 0 <= k < |q| ==> q[k] in q;
  }

  /** The next position is beyond all active ones. */
  lemma NextIsBeyond(rows: seq<Entry>, e: EventId)
    requires Ordered(Queue(rows, e))
    ensures Beyond(Queue(rows, e), NextPosition(rows, e))
  {
    hide Queue;
    MaxOfOrdered(Queue(rows, e));
  }

  lemma EnterKeepsOrder(t: Table, e': EventId, u: Uuid, e: EventId)
    requires TableOk(t)
    ensures Ordered(QueueIn(TableStep(t, Enter(e', u)), e))
  {
    assert Ordered(QueueIn(t, e));
    QueueEnter(t, e', u, e);
    QueueIds(t, e);
    hide TableOk, Ordered, Queue, Beyond, NextPosition, TableStep;
    NextIsBeyond(t.rows, e);
    if e' == e {
      var q := Queue(t.rows, e);
      forall k | 0 <= k < |q|
        ensures q[k].id.n < t.made
      {
        assert q[k] in q;
      }
      AppendOrdered(q, Entry(WaitlistRow(t.made), e, u, NextPosition(t.rows, e), false));
    }
  }

  lemma LeaveKeepsOrder(t: Table, op: WaitOp, e: EventId)
    requires TableOk(t) && !op.Enter?
    ensures Ordered(QueueIn(TableStep(t, op), e))
  {
    assert Ordered(QueueIn(t, e));
    match op
    case Leave(e', u) =>
      QueueOptOut(t.rows, e', Some(u), e);
      FilterOrdered(Queue(t.rows, e), NotUser(u));
    case Clear(e') =>
      QueueOptOut(t.rows, e', None, e);
    case Drop(id) =>
      QueueDrop(t, id, e);
      FilterOrdered(Queue(t.rows, e), NotEntry(id));
  }

  lemma StepKeepsIds(t: Table, op: WaitOp)
    requires TableOk(t)
    ensures var t' := TableStep(t, op);
            forall i :: 0 <= i < |t'.rows| ==> t'.rows[i].id.WaitlistRow? && t'.rows[i].id.n < t'.made
  {
    if op.Drop? {
      var t' := TableStep(t, op);
      FilterMembers(t.rows, NotEntry(op.id));
      forall i | 0 <= i < |t'.rows|
        ensures t'.rows[i].id.WaitlistRow? && t'.rows[i].id.n < t'.made
      {
        assert t'.rows[i] in t.rows;
      }
    }
  }

  lemma StepKeepsTable(t: Table, op: WaitOp)
    requires TableOk(t)
    ensures TableOk(TableStep(t, op))
  {
    StepKeepsIds(t, op);
    forall e
      ensures Ordered(QueueIn(TableStep(t, op), e))
    {
      if op.Enter? {
        EnterKeepsOrder(t, op.e, op.u, e);
      } else {
        LeaveKeepsOrder(t, op, e);
      }
    }
  }

  lemma {:induction false} RunKeepsTable(ops: seq<WaitOp>)
    ensures TableOk(TableRun(ops))
  {
    if ops != [] {
      RunKeepsTable(ops[..|ops| - 1]);
      StepKeepsTable(TableRun(ops[..|ops| - 1]), ops[|ops| - 1]);
    }
  }

  // ----- Refinement -----

  /** The FIFO queue that the table's rows of event `e` stand for. */
  function FifoOf(t: Table, e: EventId): Fifo {
    Fifo(Tickets(Queue(t.rows, e)), t.made)
  }

  lemma EnterRefines(t: Table, e': EventId, u: Uuid, e: EventId)
    ensures FifoStep(FifoOf(t, e), Enter(e', u), e) == FifoOf(TableStep(t, Enter(e', u)), e)
  {
    QueueEnter(t, e', u, e);
    hide Queue, NextPosition;
    var q, row := Queue(t.rows, e), Entry(WaitlistRow(t.made), e', u, NextPosition(t.rows, e'), false);
    assert Tickets(q + [row]) == Tickets(q) + [Ticket(row.id, u)];
  }

  lemma LeaveRefines(t: Table, op: WaitOp, e: EventId)
    requires op.Leave? || op.Clear?
    ensures FifoStep(FifoOf(t, e), op, e) == FifoOf(TableStep(t, op), e)
  {
    QueueOptOut(t.rows, op.e, if op.Leave? then Some(op.u) else None, e);
    hide Queue, Filter, OptOutRows;
    if op.Leave? {
      TicketsFilter(Queue(t.rows, e), NotUser(op.u), (x: Ticket) => x.user != op.u);
    }
  }

  lemma DropRefines(t: Table, id: Uuid, e: EventId)
    ensures FifoStep(FifoOf(t, e), Drop(id), e) == FifoOf(TableStep(t, Drop(id)), e)
  {
    QueueDrop(t, id, e);
    hide Queue, Filter;
    TicketsFilter(Queue(t.rows, e), NotEntry(id), (x: Ticket) => x.id != id);
  }

  lemma StepRefines(t: Table, op: WaitOp, e: EventId)
    ensures FifoStep(FifoOf(t, e), op, e) == FifoOf(TableStep(t, op), e)
  {
    hide *;
    match op
    case Enter(e', u) => EnterRefines(t, e', u, e);
    case Drop(id) => DropRefines(t, id, e);
    case _ => LeaveRefines(t, op, e);
  }

  /**
   After any operations, the active rows of an event in insertion order are the FIFO queue that appends on
   joining and deletes on leaving; the next active row is its head; a newcomer is told a position beyond
   everyone waiting.
   */
  lemma {:induction false} TableRefinesFifo(ops: seq<WaitOp>, e: EventId)
    ensures var t, f := TableRun(ops), FifoRun(ops, e);
            && f == FifoOf(t, e)
            && (f.waiting == [] <==> NextActive(t.rows, e).None?)
            && (f.waiting != [] ==>
                  NextActive(t.rows, e).Some?
                  && Ticket(NextActive(t.rows, e).value.id, NextActive(t.rows, e).value.user) == f.waiting[0])
            && NextPosition(t.rows, e) >= |f.waiting| + 1
  {
    var t := TableRun(ops);
    if ops != [] {
      TableRefinesFifo(ops[..|ops| - 1], e);
      StepRefines(TableRun(ops[..|ops| - 1]), ops[|ops| - 1], e);
    }
    RunKeepsTable(ops);
    assert Ordered(QueueIn(t, e));
    if Queue(t.rows, e) != [] {
      FirstOfOrdered(Queue(t.rows, e));
    }
    MaxOfOrdered(Queue(t.rows, e));
  }

  /** In every reachable table an active row's rank in its queue is at most its position. */
  lemma PositionBoundsRank(ops: seq<WaitOp>, e: EventId, k: nat)
    requires k < |Queue(TableRun(ops).rows, e)|
    ensures k + 1 <= Queue(TableRun(ops).rows, e)[k].position
  {
    RunKeepsTable(ops);
    assert Ordered(QueueIn(TableRun(ops), e));
    RankAtMostPosition(Queue(TableRun(ops).rows, e), k);
  }
}
