/** The reconciler: missing capacity rows are inserted, then every counter is pushed towards its row. */
module Reconcile {
  import opened Collections
  import opened Model
  import opened StoreCalls
  import opened Protocol
  import opened Effects
  import opened ProtocolInvariant
  import opened Conservation
  import opened Repositories
  import opened ServiceRuns

  datatype CapacityRow = CapacityRow(capacity: int, reserved: int)

  function Desired(row: CapacityRow): int {
    row.capacity - row.reserved
  }

  /** Where a counter at `rem` ends: it can be raised at will but only reserved down to zero. */
  function Corrected(rem: int, desired: int): int {
    if rem <= desired then desired
    else if rem <= 0 then rem
    else if desired < 0 then 0
    else desired
  }

  /** A counter that never went negative ends at the desired value, or at zero if that is negative. */
  lemma CorrectedFromNonNegative(rem: int, desired: int)
    requires rem >= 0
    ensures Corrected(rem, desired) == if desired < 0 then 0 else desired
  {
  }

  ghost predicate Reconciled(rows: map<EventId, CapacityRow>, before: map<EventId, int>, after: map<EventId, int>) {
    forall e :: Tokens(after, e) == if e in rows then Corrected(Tokens(before, e), Desired(rows[e]))
      else Tokens(before, e)
  }

  // ----- Store errors, which the reconciler skips over -----

  /** The events whose insert, read or release fails, and the reservations, by event and number, that fail. */
  datatype Faults = Faults(noInsert: set<EventId>, noRead: set<EventId>, noRelease: set<EventId>,
    noReserve: set<(EventId, nat)>)

  const NO_FAULTS := Faults({}, {}, {}, {})

  /** How many of the first `k` reservations for `e` reach the counter. */
  function Reaching(f: Faults, e: EventId, k: nat): (n: nat)
    ensures n <= k
  {
    if k == 0 then 0 else Reaching(f, e, k - 1) + if (e, k - 1) in f.noReserve then 0 else 1
  }

  /** A counter after `n` reservations of one token each. */
  function TakenFrom(rem: int, n: nat): int {
    if rem <= 0 then rem else if rem < n then 0 else rem - n
  }

  /** Where a counter at `rem` ends under faults; one that cannot be read counts as zero. */
  function CorrectedUnder(f: Faults, e: EventId, rem: int, desired: int): int {
    var read := if e in f.noRead then 0 else rem;
    if read <= desired then rem + (if e in f.noRelease then 0 else desired - read)
    else TakenFrom(rem, Reaching(f, e, read - desired))
  }

  ghost predicate ReconciledUnder(
    f: Faults, rows: map<EventId, CapacityRow>, before: map<EventId, int>, after: map<EventId, int>) {
    forall e :: Tokens(after, e)
                == if e in rows then CorrectedUnder(f, e, Tokens(before, e), Desired(rows[e])) else Tokens(before, e)
  }

  lemma {:induction false} AllReach(e: EventId, k: nat)
    ensures Reaching(NO_FAULTS, e, k) == k
  {
    if k > 0 {
      AllReach(e, k - 1);
    }
  }

  /** Without faults every counter ends where its row puts it. */
  lemma FaultlessIsReconciled(rows: map<EventId, CapacityRow>, before: map<EventId, int>, after: map<EventId, int>)
    ensures ReconciledUnder(NO_FAULTS, rows, before, after) <==> Reconciled(rows, before, after)
  {
    forall e, k: nat
      ensures Reaching(NO_FAULTS, e, k) == k
    {
      AllReach(e, k);
    }
    assert forall e, rem, desired :: CorrectedUnder(NO_FAULTS, e, rem, desired) == Corrected(rem, desired);
    assert forall e :: e in rows ==>
             CorrectedUnder(NO_FAULTS, e, Tokens(before, e), Desired(rows[e]))
             == Corrected(Tokens(before, e), Desired(rows[e]));
  }

  /**
   As long as a counter is read, faults only leave it short of its correction, between where it was and where it
   belongs.
   */
  lemma FaultsFallShort(f: Faults, e: EventId, rem: int, desired: int)
    requires e !in f.noRead
    ensures var there, goal := CorrectedUnder(f, e, rem, desired), Corrected(rem, desired);
            if rem <= goal then rem <= there <= goal else goal <= there <= rem
  {
  }

  /** Rows for all events: the old ones as they were, the new ones copied from the events. */
  ghost predicate RowsFilled(
    events: map<EventId, Event>, before: map<EventId, CapacityRow>, after: map<EventId, CapacityRow>) {
    && after.Keys == before.Keys + events.Keys
    && (forall e :: e in before ==> after[e] == before[e])
    && (forall e :: e in events && e !in before ==>
          after[e].capacity == events[e].capacity && after[e].reserved == events[e].reserved)
  }

  ghost predicate FilledBut(
    events: map<EventId, Event>, before: map<EventId, CapacityRow>, rows: map<EventId, CapacityRow>,
      missing: set<EventId>) {
    && (forall e :: e in rows <==> e in before || (e in events && e !in missing))
    && (forall e :: e in before ==> e in rows && rows[e] == before[e])
    && (forall e :: e in rows && e !in before ==>
          e in events && rows[e].capacity == events[e].capacity && rows[e].reserved == events[e].reserved)
  }

  lemma FillOne(
    events: map<EventId, Event>, before: map<EventId, CapacityRow>, rows: map<EventId, CapacityRow>,
    missing: set<EventId>, e: EventId)
    requires missing !! before.Keys && FilledBut(events, before, rows, missing) && e in missing && e in events
    ensures FilledBut(events, before, rows[e := CapacityRow(events[e].capacity, events[e].reserved)], missing - {e})
  {
  }

  lemma FilledIsAll(events: map<EventId, Event>, before: map<EventId, CapacityRow>, rows: map<EventId, CapacityRow>)
    requires FilledBut(events, before, rows, {})
    ensures RowsFilled(events, before, rows)
  {
    assert rows.Keys == before.Keys + events.Keys;
  }

  class Reconciler {
    const db: Database
    const tokens: TokenBucket
    var rows: map<EventId, CapacityRow>

    constructor (db: Database, tokens: TokenBucket, rows: map<EventId, CapacityRow>)
      ensures this.db == db && this.tokens == tokens && this.rows == rows
    {
      this.db, this.tokens, this.rows := db, tokens, rows;
    }

    method Run(f: Faults)
      modifies `rows, tokens
      ensures RowsFilled(db.events - f.noInsert, old(rows), rows)
      ensures ReconciledUnder(f, rows, old(tokens.counters), tokens.counters)
      ensures f == NO_FAULTS ==>
                forall e :: e in db.events && e !in old(rows) && old(Tokens(tokens.counters, e)) >= 0 ==>
                  var event := db.events[e];
                  Tokens(tokens.counters, e)
                  == if event.capacity < event.reserved then 0 else event.capacity - event.reserved
    {
      InsertMissing(f.noInsert);
      CorrectTokens(f);
      if f == NO_FAULTS {
        FaultlessIsReconciled(rows, old(tokens.counters), tokens.counters);
        assert db.events - {} == db.events;
      }
    }

    /** Events whose row cannot be inserted are skipped. */
    method InsertMissing(failing: set<EventId>)
      modifies `rows
      ensures RowsFilled(db.events - failing, old(rows), rows)
    {
      ghost var before, inserted := rows, db.events - failing;
      var missing := db.events.Keys - rows.Keys;
      while missing != {}
        invariant missing <= db.events.Keys - before.Keys
        invariant FilledBut(inserted, before, rows, missing)
        decreases |missing|
      {
        var e :| e in missing;
        if e !in failing {
          FillOne(inserted, before, rows, missing, e);
          rows := rows[e := CapacityRow(db.events[e].capacity, db.events[e].reserved)];
        }
        missing := missing - {e};
      }
      FilledIsAll(inserted, before, rows);
    }

    method CorrectTokens(f: Faults)
      modifies tokens
      ensures ReconciledUnder(f, rows, old(tokens.counters), tokens.counters)
    {
      var remaining := rows.Keys;
      while remaining != {}
        invariant remaining <= rows.Keys
        invariant forall e :: Tokens(tokens.counters, e) ==
                    if e in rows && e !in remaining
                      then CorrectedUnder(f, e, old(Tokens(tokens.counters, e)), Desired(rows[e]))
                    else old(Tokens(tokens.counters, e))
        decreases |remaining|
      {
        var e :| e in remaining;
        CorrectOne(f, e, Desired(rows[e]));
        remaining := remaining - {e};
      }
    }

    /** Releases the shortfall in one command, or reserves the excess one token at a time. */
    method CorrectOne(f: Faults, e: EventId, desired: int)
      modifies tokens
      ensures Tokens(tokens.counters, e) == CorrectedUnder(f, e, old(Tokens(tokens.counters, e)), desired)
      ensures forall x :: x != e ==> Tokens(tokens.counters, x) == old(Tokens(tokens.counters, x))
    {
      var rem := 0;
      if e !in f.noRead {
        rem := tokens.Remaining(e);
      }
      if rem != desired {
        var diff := desired - rem;
        if diff > 0 {
          if e !in f.noRelease {
            tokens.Release(e, diff);
          }
        } else {
          var i := 0;
          while i < -diff
            invariant 0 <= i <= -diff
            invariant Tokens(tokens.counters, e) == TakenFrom(old(Tokens(tokens.counters, e)), Reaching(f, e, i))
            invariant forall x :: x != e ==> Tokens(tokens.counters, x) == old(Tokens(tokens.counters, x))
          {
            if (e, i) !in f.noReserve {
              var _ := tokens.Reserve(e, 1);
            }
            i := i + 1;
          }
        }
      }
    }
  }

  lemma FilledRowsStay(
    events: map<EventId, Event>, rows0: map<EventId, CapacityRow>, rows1: map<EventId, CapacityRow>, rows2: map<EventId,
      CapacityRow>)
    requires RowsFilled(events, rows0, rows1) && RowsFilled(events, rows1, rows2)
    ensures rows2 == rows1
  {
    assert rows2.Keys == rows1.Keys;
  }

  /** How far faults leave a counter: an excess falls by the reservations that reach it, a shortfall is given or not. */
  lemma FaultsLeave(f: Faults, e: EventId, rem: int, desired: int)
    ensures e !in f.noRead && 0 <= desired <= rem ==>
              CorrectedUnder(f, e, rem, desired)
              == rem - |set i: nat | 0 <= i < rem - desired && (e, i) !in f.noReserve|
    ensures e !in f.noRead && rem < desired ==>
              CorrectedUnder(f, e, rem, desired) == if e in f.noRelease then rem else desired
    ensures e in f.noRead && 0 < desired ==>
              CorrectedUnder(f, e, rem, desired) == if e in f.noRelease then rem else rem + desired
  {
    if e !in f.noRead && 0 <= desired <= rem {
      ReachingCounts(f, e, rem - desired);
    }
  }

  lemma {:induction false} ReachingCounts(f: Faults, e: EventId, k: nat)
    ensures Reaching(f, e, k) == |set i: nat | 0 <= i < k && (e, i) !in f.noReserve|
  {
    if k > 0 {
      ReachingCounts(f, e, k - 1);
      var before := set i: nat | 0 <= i < k - 1 && (e, i) !in f.noReserve;
      var now := set i: nat | 0 <= i < k && (e, i) !in f.noReserve;
      assert now == before + if (e, k - 1) in f.noReserve then {} else {k - 1};
    }
  }

  /** Reconciling is idempotent: a second run over the same events finds every row and changes no counter. */
  lemma SecondRunChangesNothing(events: map<EventId, Event>,
                                rows0: map<EventId, CapacityRow>, rows1: map<EventId, CapacityRow>, rows2: map<EventId,
                                  CapacityRow>,
                                t0: map<EventId, int>, t1: map<EventId, int>, t2: map<EventId, int>)
    requires RowsFilled(events, rows0, rows1) && Reconciled(rows1, t0, t1)
    requires RowsFilled(events, rows1, rows2) && Reconciled(rows2, t1, t2)
    ensures rows2 == rows1 && forall e :: Tokens(t2, e) == Tokens(t1, e)
  {
    FilledRowsStay(events, rows0, rows1, rows2);
    forall e
      ensures Tokens(t2, e) == Tokens(t1, e)
    {
      assert Tokens(t1, e) == if e in rows1 then Corrected(Tokens(t0, e), Desired(rows1[e])) else Tokens(t0, e);
      assert Tokens(t2, e) == if e in rows1 then Corrected(Tokens(t1, e), Desired(rows1[e])) else Tokens(t1, e);
    }
  }

  /**
   In any reachable state, reconciling puts a counter at the row's capacity less its reserved count, or at zero.
   That count is all the reconciler knows of: afterwards tokens, live seats and tokens in flight fit the capacity
   exactly when the latter two are at most the count and at most the capacity.
   */
  lemma ReconcileIsSafeIff(s: Sys, rows: map<EventId, CapacityRow>, after: map<EventId, int>, e: EventId)
    requires Reachable(s) && e in s.store.db.events
    requires e in rows && rows[e].capacity == s.store.db.events[e].capacity
    requires Reconciled(rows, s.store.tokens, after)
    ensures Tokens(after, e) == if Desired(rows[e]) < 0 then 0 else Desired(rows[e])
    ensures var sold := LiveSeats(s, e) + InFlight(s, e);
            Tokens(after, e) + sold <= rows[e].capacity <==> sold <= rows[e].reserved && sold <= rows[e].capacity
  {
    NothingIsNegative(s, e);
    CorrectedFromNonNegative(Tokens(s.store.tokens, e), Desired(rows[e]));
    assert Tokens(after, e) == Corrected(Tokens(s.store.tokens, e), Desired(rows[e]));
  }

  // ----- As a client of the protocol -----

  /** Client `i` has moved, the counter of `e` and the reconciler's account have changed alike, and nothing else. */
  ghost predicate Adjusted(s: Sys, s': Sys, i: nat, e: EventId) {
    && i < |s.clients| == |s'.clients| && s'.clients == s.clients[i := s'.clients[i]]
    && s'.accounts == s.accounts
    && s'.store == s.store.(tokens := s'.store.tokens)
    && Given(s', e) - Given(s, e) == Tokens(s'.store.tokens, e) - Tokens(s.store.tokens, e)
    && (forall x :: x != e ==> Tokens(s'.store.tokens, x) == Tokens(s.store.tokens, x) && Given(s', x) == Given(s, x))
  }

  ghost predicate CorrectedTo(s: Sys, s': Sys, i: nat, e: EventId, n: int) {
    Adjusted(s, s', i, e) && s'.clients[i] == Done && Tokens(s'.store.tokens, e) == n
  }

  lemma AdjustedTwice(s: Sys, s1: Sys, s2: Sys, i: nat, e: EventId, n: int)
    requires Adjusted(s, s1, i, e) && CorrectedTo(s1, s2, i, e, n)
    ensures CorrectedTo(s, s2, i, e, n)
  {
  }

  lemma ReadOnce(s: Sys, i: nat)
    requires Aligned(s) && i < |s.clients| && s.clients[i].ReconcileRead? && s.clients[i].e in s.store.db.events
    ensures var c, s1 := s.clients[i], Step(s, GoOn(i));
            var rem := Tokens(s.store.tokens, c.e);
            && Adjusted(s, s1, i, c.e) && Tokens(s1.store.tokens, c.e) == rem && i < |s1.clients|
            && s1.clients[i] == (if rem == c.desired then Done
                                 else if rem < c.desired then ReconcileGive(c.e, c.desired - rem)
                                 else ReconcileTake(c.e, rem - c.desired))
  {
  }

  lemma GiveOnce(s: Sys, i: nat)
    requires Aligned(s) && i < |s.clients| && s.clients[i].ReconcileGive?
    ensures var c := s.clients[i];
            CorrectedTo(s, Step(s, GoOn(i)), i, c.e, Tokens(s.store.tokens, c.e) + c.n)
  {
  }

  lemma TakeOnce(s: Sys, i: nat)
    requires Aligned(s) && i < |s.clients| && s.clients[i].ReconcileTake?
    ensures var c, s1 := s.clients[i], Step(s, GoOn(i));
            var rem := Tokens(s.store.tokens, c.e);
            && Adjusted(s, s1, i, c.e)
            && s1.clients[i] == (if c.times == 0 then Done else ReconcileTake(c.e, c.times - 1))
            && Tokens(s1.store.tokens, c.e) == if c.times > 0 && rem > 0 then rem - 1 else rem
  {
  }

  lemma {:induction false} TakeAlone(s: Sys, i: nat)
    requires Aligned(s) && i < |s.clients| && s.clients[i].ReconcileTake?
    ensures var c := s.clients[i];
            var rem := Tokens(s.store.tokens, c.e);
            CorrectedTo(s, Run(s, Again(i, c.times + 1)), i, c.e, if rem <= 0 then rem else if rem < c.times then 0
              else rem - c.times)
    decreases if i < |s.clients| && s.clients[i].ReconcileTake? then s.clients[i].times else 0
  {
    hide Step, Adjusted;
    var c, s1 := s.clients[i], Step(s, GoOn(i));
    var rem := Tokens(s.store.tokens, c.e);
    TakeOnce(s, i);
    RunAgain(s, i, c.times + 1);
    if c.times > 0 {
      TakeFrom(s, s1, i);
      TakeAlone(s1, i);
      AdjustedTwice(s, s1, Run(s1, Again(i, c.times)), i, c.e, if rem <= 0 then rem else if rem < c.times then 0
        else rem - c.times);
    }
  }

  lemma TakeFrom(s: Sys, s1: Sys, i: nat)
    requires Aligned(s) && i < |s.clients| && s.clients[i].ReconcileTake? && s.clients[i].times > 0
             && s1 == Step(s, GoOn(i))
    ensures i < |s1.clients| && s1.clients[i] == ReconcileTake(s.clients[i].e, s.clients[i].times - 1)
  {
  }

  /** How many store calls the correction of a counter takes. */
  function Calls(rem: int, desired: int): nat {
    if rem == desired then 1 else if rem < desired then 2 else rem - desired + 2
  }

  /** The steps of the reconciler for one row, when nothing else runs. */
  function Correction(s: Sys, e: EventId, desired: int): seq<Action> {
    var rem := Tokens(s.store.tokens, e);
    [Spawn(ReconcileRead(e, desired))] + Again(|s.clients|, Calls(rem, desired))
  }

  /** Alone, it corrects the counter as the loop does, and takes nothing from what others hold. */
  lemma CorrectionCorrects(s: Sys, e: EventId, desired: int)
    requires Aligned(s) && e in s.store.db.events
    ensures var s0 := s.(clients := s.clients + [ReconcileRead(e, desired)]);
            CorrectedTo(s0, Run(s, Correction(s, e, desired)), |s.clients|, e,
              Corrected(Tokens(s.store.tokens, e), desired))
  {
    var i, rem, spawn := |s.clients|, Tokens(s.store.tokens, e), Spawn(ReconcileRead(e, desired));
    assert Step(s, spawn) == s.(clients := s.clients + [ReconcileRead(e, desired)]);
    hide Step, Run, Adjusted;
    RunFirst(s, spawn, Again(i, Calls(rem, desired)));
    ReadAndCorrect(Step(s, spawn), i);
  }

  lemma GiveAlone(s: Sys, i: nat)
    requires Aligned(s) && i < |s.clients| && s.clients[i].ReconcileGive?
    ensures CorrectedTo(s, Run(s, Again(i, 1)), i, s.clients[i].e,
            Tokens(s.store.tokens, s.clients[i].e) + s.clients[i].n)
  {
    GiveOnce(s, i);
    hide Step, Run, Adjusted;
    RunAgain(s, i, 1);
    RunAgain(Step(s, GoOn(i)), i, 0);
  }

  lemma NothingLeft(s: Sys, i: nat, e: EventId)
    requires Aligned(s) && i < |s.clients| && s.clients[i] == Done
    ensures CorrectedTo(s, Run(s, Again(i, 0)), i, e, Tokens(s.store.tokens, e))
  {
    assert s.clients[i := Done] == s.clients;
  }

  /** What is left to do after the read. */
  lemma CorrectAfterRead(s1: Sys, i: nat, e: EventId, rem: int, desired: int)
    requires Aligned(s1) && i < |s1.clients| && Tokens(s1.store.tokens, e) == rem
    requires s1.clients[i] == (if rem == desired then Done
                               else if rem < desired then ReconcileGive(e, desired - rem)
                               else ReconcileTake(e, rem - desired))
    ensures CorrectedTo(s1, Run(s1, Again(i, Calls(rem, desired) - 1)), i, e, Corrected(rem, desired))
  {
    hide Run, Adjusted, CorrectedTo, Step;
    if rem == desired {
      NothingLeft(s1, i, e);
    } else if rem < desired {
      GiveAlone(s1, i);
    } else {
      TakeAlone(s1, i);
    }
  }

  lemma ReadAndCorrect(s: Sys, i: nat)
    requires Aligned(s) && i < |s.clients| && s.clients[i].ReconcileRead? && s.clients[i].e in s.store.db.events
    ensures var c := s.clients[i];
            var rem := Tokens(s.store.tokens, c.e);
            CorrectedTo(s, Run(s, Again(i, Calls(rem, c.desired))), i, c.e, Corrected(rem, c.desired))
  {
    hide Step, Run, Adjusted, CorrectedTo, Again;
    var c, s1 := s.clients[i], Step(s, GoOn(i));
    var rem := Tokens(s.store.tokens, c.e);
    ReadOnce(s, i);
    RunAgain(s, i, Calls(rem, c.desired));
    CorrectAfterRead(s1, i, c.e, rem, c.desired);
    AdjustedTwice(s, s1, Run(s1, Again(i, Calls(rem, c.desired) - 1)), i, c.e, Corrected(rem, c.desired));
  }

  lemma CorrectionKeepsSold(s: Sys, s': Sys, e: EventId, desired: int, n: int)
    requires Aligned(s)
    requires CorrectedTo(s.(clients := s.clients + [ReconcileRead(e, desired)]), s', |s.clients|, e, n)
    ensures Aligned(s') && LiveSeats(s', e) == LiveSeats(s, e) && InFlight(s', e) == InFlight(s, e)
    ensures Proper(s, e) ==> Proper(s', e)
  {
    var s0 := s.(clients := s.clients + [ReconcileRead(e, desired)]);
    assert s0.clients[|s.clients| := Done] == s.clients + [Done];
    assert s'.clients == s.clients + [Done];
    assert s'.store.db == s.store.db && RowsOf(s') == RowsOf(s);
    SumAppend(s.clients, Done, HeldBy(e, false));
    var c: Client := Done;
    assert HeldBy(e, false)(c) == if c.Dead? == false then HoldIn(e)(c) else 0;
  }

  lemma RunsOn(s: Sys, actions: seq<Action>)
    requires Reachable(s)
    ensures Reachable(Run(s, actions))
  {
    var users, before :| s == Run(Init(users), before);
    RunAppend(Init(users), before, actions);
  }

  /**
   Where the condition holds, it lasts: after the correction, runs that promote nobody for the event, list seats and
   give it no more tokens keep its live seats within the capacity, whatever interleaves or fails in them.
   */
  lemma SafeReconcileStaysSafe(s: Sys, row: CapacityRow, actions: seq<Action>, e: EventId)
    requires Reachable(s) && Proper(s, e) && e in s.store.db.events && row.capacity == s.store.db.events[e].capacity
    requires LiveSeats(s, e) + InFlight(s, e) <= row.reserved && LiveSeats(s, e) + InFlight(s, e) <= row.capacity
    requires OrdinaryRun(Run(s, Correction(s, e, Desired(row))), actions, e)
    ensures LiveSeats(Run(Run(s, Correction(s, e, Desired(row))), actions), e) <= row.capacity
  {
    var s1 := Run(s, Correction(s, e, Desired(row)));
    var s2 := Run(s1, actions);
    hide ShapeOk, SumsOk, TokensOk, LiveSeats, InFlight, Proper;
    CorrectionCorrects(s, e, Desired(row));
    CorrectionKeepsSold(s, s1, e, Desired(row), Corrected(Tokens(s.store.tokens, e), Desired(row)));
    NothingIsNegative(s, e);
    CorrectedFromNonNegative(Tokens(s.store.tokens, e), Desired(row));
    RunsOn(s, Correction(s, e, Desired(row)));
    ReachableIsInv(s1);
    OrdinaryRunCommitsNoMore(s1, actions, e);
    RunsOn(s1, actions);
    NothingIsNegative(s2, e);
  }

  // ----- Where the condition fails -----

  /** A request for one seat. */
  function AskOne(e: EventId, u: Uuid): Request {
    Create({}, 0, e, u, None, ["A"])
  }

  predicate OnSale(s: Sys, e: EventId, u: Uuid) {
    && e in s.store.db.events && u in s.store.db.users
    && s.store.db.events[e].endTime >= 0 && s.store.db.events[e].maxTickets >= 1
  }

  lemma SellsOne(s: Sys, e: EventId, u: Uuid)
    requires Aligned(s) && OnSale(s, e, u) && Tokens(s.store.tokens, e) >= 1
    ensures var s' := AfterRequest(s, AskOne(e, u));
            && OnSale(s', e, u) && Tokens(s'.store.tokens, e) == Tokens(s.store.tokens, e) - 1
            && LiveSeats(s', e) == LiveSeats(s, e) + 1
  {
    var s' := AfterRequest(s, AskOne(e, u));
    RequestIsInterleaving(s, AskOne(e, u));
    hide AfterRequest, LiveSeats;
    LiveSeatsAreLive(s, e);
    LiveSeatsAreLive(s', e);
    SumAppend(s.store.db.bookings, Booking(u, e, Pending, ["A"], None, 0, Unpaid), LiveSeatsIn(e));
  }

  function AskFor(e: EventId, u: Uuid, n: nat): seq<Request> {
    if n == 0 then [] else AskFor(e, u, n - 1) + [AskOne(e, u)]
  }

  /** One request after the other sells all the tokens there are. */
  lemma {:induction false} SellsAll(s: Sys, e: EventId, u: Uuid, n: nat)
    requires Aligned(s) && OnSale(s, e, u) && Tokens(s.store.tokens, e) >= n
    ensures var s' := SequentialRun(s, AskFor(e, u, n));
            && OnSale(s', e, u) && Tokens(s'.store.tokens, e) == Tokens(s.store.tokens, e) - n
            && LiveSeats(s', e) == LiveSeats(s, e) + n
  {
    hide AfterRequest, LiveSeats, SequentialRun, OnSale;
    LastRequest(s, AskFor(e, u, n));
    if n > 0 {
      assert AskFor(e, u, n)[..|AskFor(e, u, n)| - 1] == AskFor(e, u, n - 1);
      SellsAll(s, e, u, n - 1);
      SellsOne(SequentialRun(s, AskFor(e, u, n - 1)), e, u);
    }
  }

  /**
   Where the row counts fewer than the live seats of an event on sale, correcting its counter oversells it: requests for
   one seat each, as many as there are tokens then, leave more live seats than the capacity.
   */
  lemma UnsafeReconcileOversells(s: Sys, row: CapacityRow, e: EventId, u: Uuid)
    requires Reachable(s) && OnSale(s, e, u) && row.capacity == s.store.db.events[e].capacity
    requires LiveSeats(s, e) > row.reserved
    ensures var s1 := Run(s, Correction(s, e, Desired(row)));
            && Tokens(s1.store.tokens, e) >= 0
            && LiveSeats(SequentialRun(s1, AskFor(e, u, Tokens(s1.store.tokens, e))), e) > row.capacity
  {
    var s1 := Run(s, Correction(s, e, Desired(row)));
    hide LiveSeats, InFlight, Correction, Run, SequentialRun, Proper;
    CorrectionCorrects(s, e, Desired(row));
    CorrectionKeepsSold(s, s1, e, Desired(row), Corrected(Tokens(s.store.tokens, e), Desired(row)));
    NothingIsNegative(s, e);
    CorrectedFromNonNegative(Tokens(s.store.tokens, e), Desired(row));
    SellsAll(s1, e, u, Tokens(s1.store.tokens, e));
  }

  /**
   A counter that cannot be read counts as zero, so that the whole desired number is given on top of what is there.
   */
  lemma FailedReadGivesEverything(s: Sys, i: nat)
    requires Aligned(s) && i < |s.clients| && s.clients[i].ReconcileRead? && s.clients[i].e in s.store.db.events
    requires s.clients[i].desired > 0
    ensures var c := s.clients[i];
            var s' := Step(Step(s, Go(i, false, 0, NOBODY)), GoOn(i));
            Tokens(s'.store.tokens, c.e) == Tokens(s.store.tokens, c.e) + c.desired
  {
    var c, s1 := s.clients[i], Step(s, Go(i, false, 0, NOBODY));
    assert s1 == Next(s, i, ReconcileGive(c.e, c.desired));
  }

  // ----- Beside running services -----

  predicate Spares(a: Action, i: nat) {
    (a.Go? || a.Crash?) ==> a.i != i
  }

  lemma StepSpares(s: Sys, a: Action, i: nat)
    requires Aligned(s) && i < |s.clients| && Spares(a, i)
    ensures i < |Step(s, a).clients| && Step(s, a).clients[i] == s.clients[i]
  {
    StepEffect(s, a);
  }

  lemma {:induction false} RunSpares(s: Sys, actions: seq<Action>, i: nat)
    requires Aligned(s) && i < |s.clients| && forall a :: a in actions ==> Spares(a, i)
    ensures i < |Run(s, actions).clients| && Run(s, actions).clients[i] == s.clients[i]
  {
    if actions != [] {
      RunSpares(s, actions[..|actions| - 1], i);
      assert actions[|actions| - 1] in actions;
      StepSpares(Run(s, actions[..|actions| - 1]), actions[|actions| - 1], i);
    }
  }

  /** Every change others make between the read and the release of a shortfall stays in the counter. */
  lemma ShortfallKeepsDrift(s: Sys, i: nat, between: seq<Action>)
    requires Aligned(s) && i < |s.clients| && s.clients[i].ReconcileRead? && s.clients[i].e in s.store.db.events
    requires Tokens(s.store.tokens, s.clients[i].e) < s.clients[i].desired
    requires forall a :: a in between ==> Spares(a, i)
    ensures var c := s.clients[i];
            var mid := Run(Step(s, GoOn(i)), between);
            Tokens(Step(mid, GoOn(i)).store.tokens, c.e)
            == c.desired + (Tokens(mid.store.tokens, c.e) - Tokens(s.store.tokens, c.e))
  {
    var read := Step(s, GoOn(i));
    ReadOnce(s, i);
    hide Step, Run;
    RunSpares(read, between, i);
    GiveOnce(Run(read, between), i);
  }
}
