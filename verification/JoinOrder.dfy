/** Waitlist positions in every interleaving: they stay distinct when no join reads while another is about to insert. */
module JoinOrder {
  import opened Collections
  import opened Model
  import opened StoreCalls
  import opened Protocol
  import opened Effects
  import opened WaitlistQueue

  /** Has computed its position for event `e` and not yet inserted its row. */
  predicate Joining(c: Client, e: EventId) {
    c.JoinInsert? && c.e == e
  }

  predicate NobodyJoins(s: Sys, e: EventId) {
    forall j :: 0 <= j < |s.clients| ==> !Joining(s.clients[j], e)
  }

  predicate RowsNumbered(rows: seq<Entry>, made: nat) {
    forall i :: 0 <= i < |rows| ==> rows[i].id.WaitlistRow? && rows[i].id.n < made
  }

  predicate JoinsOk(s: Sys, e: EventId) {
    var q := Queue(s.store.db.waitlist, e);
    && RowsNumbered(s.store.db.waitlist, s.store.db.entriesMade)
    && Ordered(q)
    && (forall j :: 0 <= j < |s.clients| && Joining(s.clients[j], e) ==> Beyond(q, s.clients[j].position))
    && (forall j, k :: 0 <= j < k < |s.clients| ==> !(Joining(s.clients[j], e) && Joining(s.clients[k], e)))
  }

  /** The action is no read of a join for `e` between another join's read and its insert. */
  predicate Unhurried(s: Sys, a: Action, e: EventId) {
    a.Go? && a.ok && a.i < |s.clients| && s.clients[a.i].JoinMax? && s.clients[a.i].e == e ==> NobodyJoins(s, e)
  }

  predicate UnhurriedRun(s: Sys, actions: seq<Action>, e: EventId)
    requires Aligned(s)
  {
    actions == [] || (
      var front := actions[..|actions| - 1];
      UnhurriedRun(s, front, e) && Unhurried(Run(s, front), actions[|actions| - 1], e))
  }

  /** No client goes from elsewhere to an insert for `e`. */
  predicate NobodyStartsJoining(s: Sys, s': Sys, e: EventId) {
    forall j :: 0 <= j < |s'.clients| && Joining(s'.clients[j], e) ==> j < |s.clients| && s'.clients[j] == s.clients[j]
  }

  lemma AloneKeepsJoins(s: Sys, s': Sys, e: EventId)
    requires JoinsOk(s, e) && NobodyStartsJoining(s, s', e)
    requires s'.store.db.waitlist == s.store.db.waitlist && s'.store.db.entriesMade == s.store.db.entriesMade
    ensures JoinsOk(s', e)
  {
  }

  // ----- Joining -----

  /** The read of a join, while nobody else is about to insert. */
  lemma ReadKeepsJoins(s: Sys, i: nat, e: EventId, u: Uuid)
    requires JoinsOk(s, e) && NobodyJoins(s, e) && i < |s.clients|
    ensures JoinsOk(Next(s, i, JoinInsert(e, u, NextPosition(s.store.db.waitlist, e))), e)
  {
    NextIsBeyond(s.store.db.waitlist, e);
  }

  lemma QueueNumbered(rows: seq<Entry>, made: nat, e: EventId)
    requires RowsNumbered(rows, made)
    ensures RowsNumbered(Queue(rows, e), made)
  {
    var q := Queue(rows, e);
    FilterMembers(rows, ActiveIn(e));
    forall k | 0 <= k < |q|
      ensures q[k].id.WaitlistRow? && q[k].id.n < made
    {
      assert q[k] in q;
    }
  }

  lemma InsertedQueue(s: Sys, e': EventId, u: Uuid, position: int, e: EventId)
    requires RowsNumbered(s.store.db.waitlist, s.store.db.entriesMade)
    requires Ordered(Queue(s.store.db.waitlist, e)) && (e' == e ==> Beyond(Queue(s.store.db.waitlist, e), position))
    ensures var row := Entry(WaitlistRow(s.store.db.entriesMade), e', u, position, false);
            var q' := Queue(s.store.db.waitlist + [row], e);
            Ordered(q') && q' == if e' == e then Queue(s.store.db.waitlist, e) + [row]
              else Queue(s.store.db.waitlist, e)
  {
    var row := Entry(WaitlistRow(s.store.db.entriesMade), e', u, position, false);
    FilterAppend(s.store.db.waitlist, row, ActiveIn(e));
    QueueNumbered(s.store.db.waitlist, s.store.db.entriesMade, e);
    if e' == e {
      AppendOrdered(Queue(s.store.db.waitlist, e), row);
    }
  }

  /** No two joins are about to insert for the same event, so the one that inserts leaves none behind. */
  lemma LastJoiner(s: Sys, s': Sys, i: nat, e: EventId)
    requires JoinsOk(s, e) && i < |s.clients| && Joining(s.clients[i], e) && s'.clients == s.clients[i := Done]
    ensures NobodyJoins(s', e) && Beyond(Queue(s.store.db.waitlist, e), s.clients[i].position)
    ensures RowsNumbered(s.store.db.waitlist, s.store.db.entriesMade) && Ordered(Queue(s.store.db.waitlist, e))
  {
    hide Ordered, Beyond, Queue, RowsNumbered;
    forall j | 0 <= j < |s'.clients|
      ensures !Joining(s'.clients[j], e)
    {
      if j != i {
        assert s'.clients[j] == s.clients[j];
      }
    }
  }

  lemma NobodyIsOk(s: Sys, e: EventId)
    requires NobodyJoins(s, e) && Ordered(Queue(s.store.db.waitlist, e))
    requires RowsNumbered(s.store.db.waitlist, s.store.db.entriesMade)
    ensures JoinsOk(s, e)
  {
  }

  lemma InsertHere(s: Sys, i: nat, u: Uuid, position: int, e: EventId)
    requires JoinsOk(s, e) && i < |s.clients| && s.clients[i] == JoinInsert(e, u, position)
    requires InsertEntry(s.store.db, e, u, position).Some?
    ensures JoinsOk(Next(WithDb(s, InsertEntry(s.store.db, e, u, position).value), i, Done), e)
  {
    hide JoinsOk, Ordered, Beyond, Queue, NobodyJoins;
    var s' := Next(WithDb(s, InsertEntry(s.store.db, e, u, position).value), i, Done);
    LastJoiner(s, s', i, e);
    InsertedQueue(s, e, u, position, e);
    NobodyIsOk(s', e);
  }

  lemma InsertElsewhere(s: Sys, i: nat, e': EventId, u: Uuid, position: int, e: EventId)
    requires JoinsOk(s, e) && i < |s.clients| && s.clients[i] == JoinInsert(e', u, position) && e' != e
    requires InsertEntry(s.store.db, e', u, position).Some?
    ensures JoinsOk(Next(WithDb(s, InsertEntry(s.store.db, e', u, position).value), i, Done), e)
  {
    hide Ordered, Beyond, Queue;
    InsertedQueue(s, e', u, position, e);
  }

  // ----- Leaving -----

  /** The queue keeps its order and gains nobody. */
  lemma ShrinkKeepsJoins(s: Sys, s': Sys, e: EventId)
    requires JoinsOk(s, e) && NobodyStartsJoining(s, s', e)
    requires s'.store.db.entriesMade == s.store.db.entriesMade
    requires RowsNumbered(s'.store.db.waitlist, s.store.db.entriesMade)
    requires Ordered(Queue(s'.store.db.waitlist, e))
    requires forall row :: row in Queue(s'.store.db.waitlist, e) ==> row in Queue(s.store.db.waitlist, e)
    ensures JoinsOk(s', e)
  {
  }

  lemma RemovedRows(rows: seq<Entry>, made: nat, entry: Uuid, e: EventId)
    requires RowsNumbered(rows, made) && Ordered(Queue(rows, e))
    ensures var rows' := Filter(rows, NotEntry(entry));
            && RowsNumbered(rows', made) && Ordered(Queue(rows', e))
            && forall row :: row in Queue(rows', e) ==> row in Queue(rows, e)
  {
    var rows', q := Filter(rows, NotEntry(entry)), Queue(rows, e);
    FilterCommutes(rows, ActiveIn(e), NotEntry(entry));
    FilterOrdered(q, NotEntry(entry));
    FilterMembers(q, NotEntry(entry));
    FilterMembers(rows, NotEntry(entry));
    hide Filter;
    forall k | 0 <= k < |rows'|
      ensures rows'[k].id.WaitlistRow? && rows'[k].id.n < made
    {
      assert rows'[k] in rows;
    }
  }

  lemma RemoveKeepsJoins(s: Sys, s': Sys, entry: Uuid, e: EventId)
    requires JoinsOk(s, e) && NobodyStartsJoining(s, s', e) && s'.store.db == RemoveEntry(s.store.db, entry)
    ensures JoinsOk(s', e)
  {
    RemovedRows(s.store.db.waitlist, s.store.db.entriesMade, entry, e);
    hide Queue, Filter, Ordered, RowsNumbered;
    ShrinkKeepsJoins(s, s', e);
  }

  lemma OptOutKeepsJoins(s: Sys, s': Sys, e': EventId, u: Option<Uuid>, e: EventId)
    requires JoinsOk(s, e) && s'.clients == s.clients && s'.store.db.entriesMade == s.store.db.entriesMade
    requires s'.store.db.waitlist == OptOutRows(s.store.db.waitlist, e', u)
    ensures JoinsOk(s', e)
  {
    var q := Queue(s.store.db.waitlist, e);
    QueueOptOut(s.store.db.waitlist, e', u, e);
    if e' == e && u.Some? {
      FilterOrdered(q, NotUser(u.value));
      FilterMembers(q, NotUser(u.value));
    }
    ShrinkKeepsJoins(s, s', e);
  }

  // ----- Every step -----

  lemma InsertStep(s: Sys, i: nat, ok: bool, now: int, e: EventId)
    requires Aligned(s) && i < |s.clients| && JoinsOk(s, e) && s.clients[i].JoinInsert?
    ensures JoinsOk(GoCreate(s, i, ok, now), e)
  {
    hide JoinsOk;
    var c := s.clients[i];
    if !ok || InsertEntry(s.store.db, c.e, c.u, c.position).None? {
      AloneKeepsJoins(s, GoCreate(s, i, ok, now), e);
    } else if c.e == e {
      InsertHere(s, i, c.u, c.position, e);
    } else {
      InsertElsewhere(s, i, c.e, c.u, c.position, e);
    }
  }

  lemma ReadStep(s: Sys, i: nat, ok: bool, now: int, e: EventId)
    requires Aligned(s) && i < |s.clients| && JoinsOk(s, e) && s.clients[i].JoinMax?
    requires ok && s.clients[i].e == e ==> NobodyJoins(s, e)
    ensures JoinsOk(GoCreate(s, i, ok, now), e)
  {
    hide JoinsOk;
    var c := s.clients[i];
    if ok && c.e == e {
      ReadKeepsJoins(s, i, e, c.u);
    } else {
      AloneKeepsJoins(s, GoCreate(s, i, ok, now), e);
    }
  }

  /** Only a join's read leads to its insert. */
  lemma FollowsNoJoin(c: Client, c': Client)
    requires Follows(c, c') && !c.JoinMax? && !c.JoinInsert?
    ensures !c'.JoinInsert? && !CallChange(c).Joined? && !CallChange(c).OptedOut? && !CallChange(c).EventOff?
  {
  }

  lemma OtherClientStep(s: Sys, a: Action, e: EventId)
    requires Aligned(s) && JoinsOk(s, e) && a.Go? && a.i < |s.clients|
    requires !s.clients[a.i].JoinMax? && !s.clients[a.i].JoinInsert?
    ensures JoinsOk(Step(s, a), e)
  {
    var s', change := Step(s, a), ChangeOf(s, a);
    StepEffect(s, a);
    FollowsNoJoin(s.clients[a.i], s'.clients[a.i]);
    hide JoinsOk, Step, Follows, CallChange;
    if change.Removed? {
      RemoveKeepsJoins(s, s', change.id, e);
    } else {
      AloneKeepsJoins(s, s', e);
    }
  }

  lemma ClientStep(s: Sys, a: Action, e: EventId)
    requires Aligned(s) && JoinsOk(s, e) && Unhurried(s, a, e) && a.Go? && a.i < |s.clients|
    ensures JoinsOk(Step(s, a), e)
  {
    if s.clients[a.i].JoinInsert? {
      InsertStep(s, a.i, a.ok, a.now, e);
    } else if s.clients[a.i].JoinMax? {
      ReadStep(s, a.i, a.ok, a.now, e);
    } else {
      OtherClientStep(s, a, e);
    }
  }

  lemma StepKeepsJoins(s: Sys, a: Action, e: EventId)
    requires Aligned(s) && JoinsOk(s, e) && Unhurried(s, a, e)
    ensures JoinsOk(Step(s, a), e)
  {
    hide JoinsOk, GoClient;
    match a
    case Go(i, _, _, _) => if i < |s.clients| { ClientStep(s, a, e); }
    case OptOut(e', u) => OptOutKeepsJoins(s, Step(s, a), e', Some(u), e);
    case CallOff(e') => OptOutKeepsJoins(s, Step(s, a), e', None, e);
    case _ => AloneKeepsJoins(s, Step(s, a), e);
  }

  /**
   In every interleaving in which no join for the event reads between another join's read and its insert, the positions
   of its active rows are distinct, positive and in the order of joining, and the next row is the head.
   */
  lemma {:induction false} UnhurriedJoinsStayDistinct(users: set<nat>, actions: seq<Action>, e: EventId)
    requires UnhurriedRun(Init(users), actions, e)
    ensures JoinsOk(Run(Init(users), actions), e)
    ensures var rows := Run(Init(users), actions).store.db.waitlist;
            var q := Queue(rows, e);
            && (forall j, k :: 0 <= j < k < |q| ==> 1 <= q[j].position < q[k].position && q[j].id.n < q[k].id.n)
            && (q != [] ==> NextActive(rows, e) == Some(q[0]))
  {
    if actions != [] {
      var front := actions[..|actions| - 1];
      UnhurriedJoinsStayDistinct(users, front, e);
      StepKeepsJoins(Run(Init(users), front), actions[|actions| - 1], e);
    }
    var q := Queue(Run(Init(users), actions).store.db.waitlist, e);
    if q != [] {
      FirstOfOrdered(q);
    }
  }
}
