/**
 Promotions in every interleaving: each waiting entry is promoted at most once, and only while it waits, when
 cancellations do not look up the next entry between another's lookup and removal, nobody leaves between a lookup and
 its insert, and no removal fails.
 */
module PromotionOrder {
  import opened Collections
  import opened Model
  import opened StoreCalls
  import opened Protocol
  import opened Effects
  import opened WaitlistQueue
  import opened JoinOrder

  // ----- Who waits, and who is about to promote or remove whom -----

  predicate Stands(db: Tables, e: EventId, id: Uuid, u: Uuid) {
    exists row :: row in db.waitlist && row.id == id && row.user == u && ActiveAt(row, e)
  }

  predicate IsWaiting(db: Tables, e: EventId, id: Uuid) {
    exists row :: row in db.waitlist && row.id == id && ActiveAt(row, e)
  }

  predicate Promoting(c: Client, e: EventId) {
    c.CancelPromote? && c.e == e
  }

  /** About to remove an entry that still waits for event `e`. */
  predicate Removing(db: Tables, c: Client, e: EventId) {
    c.CancelRemove? && IsWaiting(db, e, c.entry)
  }

  predicate Busy(db: Tables, c: Client, e: EventId) {
    Promoting(c, e) || Removing(db, c, e)
  }

  predicate NobodyBusy(s: Sys, e: EventId) {
    forall j :: 0 <= j < |s.clients| ==> !Busy(s.store.db, s.clients[j], e)
  }

  // ----- The log of promotions -----

  /** The entry that the action promotes for event `e`. */
  function PromotedBy(s: Sys, a: Action, e: EventId): seq<Uuid> {
    if a.Go? && a.ok && a.i < |s.clients| && Promoting(s.clients[a.i], e) then
      var c := s.clients[a.i];
      if InsertPending(s.store.db, c.u, c.e, None, c.seats).Some? then [c.entry] else []
    else []
  }

  function PromotionLog(s: Sys, actions: seq<Action>, e: EventId): seq<Uuid>
    requires Aligned(s)
  {
    if actions == [] then []
    else
      var front := actions[..|actions| - 1];
      PromotionLog(s, front, e) + PromotedBy(Run(s, front), actions[|actions| - 1], e)
  }

  // ----- Orderly runs -----

  /** A lookup finds nobody at work, nobody leaves after being looked up, and an entry that waits is removed. */
  predicate OrderlyStep(s: Sys, a: Action, e: EventId) {
    match a
    case Go(i, ok, _, _) =>
      i < |s.clients| ==>
        && (s.clients[i].CancelNext? && s.clients[i].e == e && ok ==> NobodyBusy(s, e))
        && (Removing(s.store.db, s.clients[i], e) ==> ok)
    case Crash(i) => i < |s.clients| ==> !Removing(s.store.db, s.clients[i], e)
    case OptOut(e', u) => forall c :: c in s.clients && Promoting(c, e) && e' == e ==> c.u != u
    case CallOff(e') => forall c :: c in s.clients ==> !(Promoting(c, e) && e' == e)
    case _ => true
  }

  predicate OrderlyRun(s: Sys, actions: seq<Action>, e: EventId)
    requires Aligned(s)
  {
    actions == [] || (
      var front := actions[..|actions| - 1];
      OrderlyRun(s, front, e) && OrderlyStep(Run(s, front), actions[|actions| - 1], e))
  }

  // ----- How the table changes -----

  /** Rows are numbered below `entriesMade`, and rows of one number belong to one event. */
  predicate Numbered(db: Tables) {
    && (forall row :: row in db.waitlist ==> row.id.WaitlistRow? && row.id.n < db.entriesMade)
    && (forall x, y :: x in db.waitlist && y in db.waitlist && x.id == y.id ==> x.event == y.event)
  }

  predicate Made(db: Tables, id: Uuid) {
    id.WaitlistRow? && id.n < db.entriesMade
  }

  lemma RowsAfter(db: Tables, change: Change)
    requires Numbered(db)
    ensures Numbered(Apply(db, change)) && db.entriesMade <= Apply(db, change).entriesMade
    ensures forall e: EventId, id :: Made(db, id) && IsWaiting(Apply(db, change), e, id) ==> IsWaiting(db, e, id)
  {
    var db' := Apply(db, change);
    match change
    case Removed(id) => FilterMembers(db.waitlist, NotEntry(id));
    case Joined(e, u, position) => JoinedRows(db, change);
    case OptedOut(e, u) => OptedOutRows(db, db', e, Some(u));
    case EventOff(e) => OptedOutRows(db, db', e, None);
    case _ =>
  }

  lemma JoinedRows(db: Tables, change: Change)
    requires Numbered(db) && change.Joined?
    ensures Numbered(Apply(db, change)) && db.entriesMade <= Apply(db, change).entriesMade
    ensures forall e: EventId, id :: Made(db, id) && IsWaiting(Apply(db, change), e, id) ==> IsWaiting(db, e, id)
  {
    var inserted := InsertEntry(db, change.e, change.u, change.position);
    if inserted.Some? {
      var row := Entry(WaitlistRow(db.entriesMade), change.e, change.u, change.position, false);
      assert forall x :: x in inserted.value.waitlist <==> x in db.waitlist || x == row;
    }
  }

  lemma OptedOutRows(db: Tables, db': Tables, e': EventId, u: Option<Uuid>)
    requires Numbered(db) && db'.entriesMade == db.entriesMade && db'.waitlist == OptOutRows(db.waitlist, e', u)
    ensures Numbered(db')
    ensures forall e: EventId, id :: IsWaiting(db', e, id) ==> IsWaiting(db, e, id)
  {
    forall x | x in db'.waitlist
      ensures exists y :: y in db.waitlist && x == OptOutRow(y, e', u)
    {
      var i :| 0 <= i < |db'.waitlist| && db'.waitlist[i] == x;
      assert db.waitlist[i] in db.waitlist;
    }
  }

  /** What takes a standing row of user `u` away. */
  predicate Unseats(change: Change, e: EventId, id: Uuid, u: Uuid) {
    change == Removed(id) || change == OptedOut(e, u) || change == EventOff(e)
  }

  lemma StandsAfter(db: Tables, change: Change, e: EventId, id: Uuid, u: Uuid)
    requires Stands(db, e, id, u) && !Unseats(change, e, id, u)
    ensures Stands(Apply(db, change), e, id, u)
  {
    var row :| row in db.waitlist && row.id == id && row.user == u && ActiveAt(row, e);
    var db' := Apply(db, change);
    if change.Removed? {
      FilterMembers(db.waitlist, NotEntry(change.id));
      assert row in db'.waitlist;
    } else if change.OptedOut? || change.EventOff? {
      var i :| 0 <= i < |db.waitlist| && db.waitlist[i] == row;
      assert db'.waitlist[i] == row;
    } else {
      assert row in db'.waitlist;
    }
  }

  lemma RemovedIsGone(db: Tables, e: EventId, id: Uuid)
    ensures !IsWaiting(Apply(db, Removed(id)), e, id)
  {
    FilterMembers(db.waitlist, NotEntry(id));
  }

  // ----- The invariant -----

  predicate Distinct(log: seq<Uuid>) {
    forall i, j :: 0 <= i < j < |log| ==> log[i] != log[j]
  }

  /** Somebody is about to remove the entry. */
  predicate Awaited(clients: seq<Client>, id: Uuid) {
    exists k :: 0 <= k < |clients| && clients[k] == CancelRemove(id)
  }

  /** What a client knows of its entry: a looked-up row still stands, for its own event only. */
  predicate KnowsEntry(db: Tables, c: Client, e: EventId) {
    && (c.CancelPromote? || c.CancelRemove? ==> Made(db, c.entry))
    && (c.CancelPromote? && c.e == e ==> Stands(db, e, c.entry, c.u))
    && (c.CancelPromote? && c.e != e ==> !IsWaiting(db, e, c.entry))
  }

  predicate OneBusy(db: Tables, clients: seq<Client>, e: EventId) {
    forall j, k :: 0 <= j < k < |clients| ==> !(Busy(db, clients[j], e) && Busy(db, clients[k], e))
  }

  predicate LogOk(db: Tables, clients: seq<Client>, log: seq<Uuid>, e: EventId) {
    Distinct(log) && forall x :: x in log ==> Made(db, x) && (IsWaiting(db, e, x) ==> Awaited(clients, x))
  }

  predicate PromoOk(s: Sys, log: seq<Uuid>, e: EventId) {
    var db := s.store.db;
    && Numbered(db)
    && (forall j :: 0 <= j < |s.clients| ==> KnowsEntry(db, s.clients[j], e))
    && OneBusy(db, s.clients, e)
    && LogOk(db, s.clients, log, e)
  }

  /** A step after which nobody promotes or removes that did not before, and all who would remove still do. */
  predicate NobodyNew(s: Sys, s': Sys, e: EventId) {
    && |s.clients| <= |s'.clients|
    && (forall j :: 0 <= j < |s'.clients| && (s'.clients[j].CancelPromote? || s'.clients[j].CancelRemove?) ==>
          j < |s.clients| && s'.clients[j] == s.clients[j])
    && (forall j :: 0 <= j < |s.clients| && Removing(s'.store.db, s.clients[j], e) ==> s'.clients[j] == s.clients[j])
  }

  lemma QuietKeepsPromo(s: Sys, s': Sys, change: Change, log: seq<Uuid>, e: EventId)
    requires PromoOk(s, log, e) && s'.store.db == Apply(s.store.db, change) && NobodyNew(s, s', e)
    requires forall c :: c in s.clients && Promoting(c, e) ==> !Unseats(change, e, c.entry, c.u)
    ensures PromoOk(s', log, e)
  {
    var db, db' := s.store.db, s'.store.db;
    RowsAfter(db, change);
    hide Apply, Numbered, IsWaiting, Stands, Unseats;
    forall j | 0 <= j < |s'.clients|
      ensures KnowsEntry(db', s'.clients[j], e)
      ensures Busy(db', s'.clients[j], e) ==>
              j < |s.clients| && s'.clients[j] == s.clients[j] && Busy(db, s.clients[j], e)
    {
      var c := s'.clients[j];
      if c.CancelPromote? || c.CancelRemove? {
        assert c == s.clients[j] && c in s.clients && KnowsEntry(db, c, e);
        if Promoting(c, e) {
          StandsAfter(db, change, e, c.entry, c.u);
        }
      }
    }
    forall x | x in log && IsWaiting(db', e, x)
      ensures Awaited(s'.clients, x)
    {
      var k :| 0 <= k < |s.clients| && s.clients[k] == CancelRemove(x);
      assert Removing(db', s.clients[k], e);
      assert s'.clients[k] == CancelRemove(x);
    }
  }

  // ----- Lookups, promotions and removals -----

  lemma LookupKeepsPromo(s: Sys, i: nat, pick: Entry, log: seq<Uuid>, e: EventId)
    requires PromoOk(s, log, e) && i < |s.clients| && s.clients[i].CancelNext?
    requires IsNext(s.store.db.waitlist, s.clients[i].e, pick)
    requires s.clients[i].e == e ==> NobodyBusy(s, e)
    ensures var c := s.clients[i];
            PromoOk(Next(s, i, CancelPromote(c.e, c.seats, pick.id, pick.user)), log, e)
  {
    var c, db := s.clients[i], s.store.db;
    var c' := CancelPromote(c.e, c.seats, pick.id, pick.user);
    var s' := Next(s, i, c');
    assert KnowsEntry(db, c', e);
    hide Numbered, IsWaiting, Stands, IsNext;
    forall j | 0 <= j < |s'.clients|
      ensures KnowsEntry(db, s'.clients[j], e)
      ensures Busy(db, s'.clients[j], e) ==> if j == i then c.e == e else Busy(db, s.clients[j], e)
    {
    }
    forall x | x in log && IsWaiting(db, e, x)
      ensures Awaited(s'.clients, x)
    {
      var k :| 0 <= k < |s.clients| && s.clients[k] == CancelRemove(x);
      assert s'.clients[k] == CancelRemove(x);
    }
  }

  /** An entry that is looked up has not been promoted: whoever promoted it would be about to remove it. */
  lemma LookedUpIsNew(s: Sys, i: nat, log: seq<Uuid>, e: EventId)
    requires PromoOk(s, log, e) && i < |s.clients| && Promoting(s.clients[i], e)
    ensures s.clients[i].entry !in log && IsWaiting(s.store.db, e, s.clients[i].entry)
  {
    var x, db := s.clients[i].entry, s.store.db;
    assert KnowsEntry(db, s.clients[i], e);
    forall k | 0 <= k < |s.clients|
      ensures s.clients[k] != CancelRemove(x)
    {
      assert s.clients[k] == CancelRemove(x) ==> Busy(db, s.clients[k], e) && Busy(db, s.clients[i], e);
    }
  }

  lemma PromoteKeepsPromo(s: Sys, s': Sys, i: nat, log: seq<Uuid>, e: EventId)
    requires PromoOk(s, log, e) && i < |s.clients| && s.clients[i].CancelPromote?
    requires s'.store.db.waitlist == s.store.db.waitlist && s'.store.db.entriesMade == s.store.db.entriesMade
    requires s'.clients == s.clients[i := CancelRemove(s.clients[i].entry)]
    ensures PromoOk(s', if s.clients[i].e == e then log + [s.clients[i].entry] else log, e)
  {
    var c, db, db' := s.clients[i], s.store.db, s'.store.db;
    assert KnowsEntry(db, c, e);
    if c.e == e {
      LookedUpIsNew(s, i, log, e);
    }
    assert Numbered(db') && forall id :: IsWaiting(db', e, id) == IsWaiting(db, e, id);
    assert forall id, u :: Stands(db', e, id, u) == Stands(db, e, id, u);
    hide Numbered, IsWaiting, Stands;
    forall j | 0 <= j < |s'.clients|
      ensures KnowsEntry(db', s'.clients[j], e)
      ensures Busy(db', s'.clients[j], e) ==> Busy(db, s.clients[j], e)
    {
    }
    forall x | x in (if c.e == e then log + [c.entry] else log) && IsWaiting(db', e, x)
      ensures Awaited(s'.clients, x)
    {
      if x == c.entry {
        assert s'.clients[i] == CancelRemove(x);
      } else {
        var k :| 0 <= k < |s.clients| && s.clients[k] == CancelRemove(x);
        assert s'.clients[k] == CancelRemove(x);
      }
    }
  }

  /** Nobody promotes an entry that somebody is about to remove. */
  lemma RemoverIsAlone(s: Sys, i: nat, log: seq<Uuid>, e: EventId, c: Client)
    requires PromoOk(s, log, e) && i < |s.clients| && s.clients[i].CancelRemove? && c in s.clients && Promoting(c, e)
    ensures c.entry != s.clients[i].entry
  {
    var j :| 0 <= j < |s.clients| && s.clients[j] == c;
    assert KnowsEntry(s.store.db, c, e);
    assert c.entry == s.clients[i].entry ==> Busy(s.store.db, s.clients[j], e) && Busy(s.store.db, s.clients[i], e);
  }

  lemma RemoveKeepsPromo(s: Sys, s': Sys, i: nat, log: seq<Uuid>, e: EventId)
    requires PromoOk(s, log, e) && i < |s.clients| && s.clients[i].CancelRemove?
    requires s'.store.db == Apply(s.store.db, Removed(s.clients[i].entry)) && s'.clients == s.clients[i := Done]
    ensures PromoOk(s', log, e)
  {
    var x, db := s.clients[i].entry, s.store.db;
    RemovedIsGone(db, e, x);
    forall c | c in s.clients && Promoting(c, e)
      ensures !Unseats(Removed(x), e, c.entry, c.u)
    {
      RemoverIsAlone(s, i, log, e, c);
    }
    hide PromoOk, Apply, IsWaiting;
    QuietKeepsPromo(s, s', Removed(x), log, e);
  }

  // ----- Every step -----

  /** Only a lookup leads to a promotion, and only a promotion to a removal. */
  lemma FollowsQuietly(c: Client, c': Client)
    requires Follows(c, c') && !c.CancelNext? && !c.CancelPromote?
    ensures c'.CancelPromote? || c'.CancelRemove? ==> c' == c
    ensures !c.CancelRemove? ==> !CallChange(c).Removed?
    ensures !CallChange(c).OptedOut? && !CallChange(c).EventOff?
  {
  }

  lemma NextStep(s: Sys, a: Action, log: seq<Uuid>, e: EventId)
    requires Aligned(s) && PromoOk(s, log, e) && OrderlyStep(s, a, e)
    requires a.Go? && a.i < |s.clients| && s.clients[a.i].CancelNext?
    ensures PromoOk(Step(s, a), log, e)
  {
    var i, s' := a.i, Step(s, a);
    if s'.clients[i].CancelPromote? {
      LookupKeepsPromo(s, i, a.pick, log, e);
    } else {
      hide PromoOk;
      assert s'.store.db == Apply(s.store.db, Unchanged);
      QuietKeepsPromo(s, s', Unchanged, log, e);
    }
  }

  lemma PromoteStep(s: Sys, a: Action, log: seq<Uuid>, e: EventId)
    requires Aligned(s) && PromoOk(s, log, e)
    requires a.Go? && a.i < |s.clients| && s.clients[a.i].CancelPromote?
    ensures PromoOk(Step(s, a), log + PromotedBy(s, a, e), e)
  {
    var i, c, s' := a.i, s.clients[a.i], Step(s, a);
    hide PromoOk;
    assert log + [] == log;
    if s'.clients[i].CancelRemove? {
      PromoteKeepsPromo(s, s', i, log, e);
    } else {
      assert s'.store.db == Apply(s.store.db, Unchanged);
      QuietKeepsPromo(s, s', Unchanged, log, e);
    }
  }

  lemma OtherGo(s: Sys, a: Action, log: seq<Uuid>, e: EventId)
    requires Aligned(s) && PromoOk(s, log, e) && OrderlyStep(s, a, e)
    requires a.Go? && a.i < |s.clients| && !s.clients[a.i].CancelNext? && !s.clients[a.i].CancelPromote?
    ensures PromoOk(Step(s, a), log, e)
  {
    var i, c, s' := a.i, s.clients[a.i], Step(s, a);
    StepEffect(s, a);
    FollowsQuietly(c, s'.clients[i]);
    if c.CancelRemove? && a.ok {
      RemoveKeepsPromo(s, s', i, log, e);
    } else {
      hide PromoOk, Step, Follows, Apply, IsWaiting;
      QuietKeepsPromo(s, s', ChangeOf(s, a), log, e);
    }
  }

  lemma EnvironmentStep(s: Sys, a: Action, log: seq<Uuid>, e: EventId)
    requires Aligned(s) && PromoOk(s, log, e) && OrderlyStep(s, a, e) && (a.Go? ==> a.i >= |s.clients|)
    ensures PromoOk(Step(s, a), log, e)
  {
    StepEffect(s, a);
    hide PromoOk, Step, Apply, IsWaiting;
    QuietKeepsPromo(s, Step(s, a), ChangeOf(s, a), log, e);
  }

  lemma StepKeepsPromo(s: Sys, a: Action, log: seq<Uuid>, e: EventId)
    requires Aligned(s) && PromoOk(s, log, e) && OrderlyStep(s, a, e)
    ensures PromoOk(Step(s, a), log + PromotedBy(s, a, e), e)
  {
    hide PromoOk, Step, OrderlyStep;
    assert log + [] == log;
    if a.Go? && a.i < |s.clients| {
      if s.clients[a.i].CancelNext? {
        NextStep(s, a, log, e);
      } else if s.clients[a.i].CancelPromote? {
        PromoteStep(s, a, log, e);
      } else {
        OtherGo(s, a, log, e);
      }
    } else {
      EnvironmentStep(s, a, log, e);
    }
  }

  // ----- Every run -----

  /** Every promotion of the run is of an entry that waits at that moment. */
  predicate PromotesWaiting(s: Sys, actions: seq<Action>, e: EventId)
    requires Aligned(s)
  {
    actions == [] || (
      var front, a := actions[..|actions| - 1], actions[|actions| - 1];
      && PromotesWaiting(s, front, e)
      && forall x :: x in PromotedBy(Run(s, front), a, e) ==> IsWaiting(Run(s, front).store.db, e, x))
  }

  lemma StepPromotesWaiting(s: Sys, a: Action, log: seq<Uuid>, e: EventId)
    requires Aligned(s) && PromoOk(s, log, e)
    ensures forall x :: x in PromotedBy(s, a, e) ==> IsWaiting(s.store.db, e, x)
  {
    if PromotedBy(s, a, e) != [] {
      LookedUpIsNew(s, a.i, log, e);
    }
  }

  lemma {:induction false} OrderlyRunIsOk(users: set<nat>, actions: seq<Action>, e: EventId)
    requires OrderlyRun(Init(users), actions, e)
    ensures PromoOk(Run(Init(users), actions), PromotionLog(Init(users), actions, e), e)
    ensures PromotesWaiting(Init(users), actions, e)
  {
    if actions != [] {
      var front, a := actions[..|actions| - 1], actions[|actions| - 1];
      OrderlyRunIsOk(users, front, e);
      hide PromoOk, Step, Init, OrderlyStep, PromotedBy;
      StepKeepsPromo(Run(Init(users), front), a, PromotionLog(Init(users), front, e), e);
      StepPromotesWaiting(Run(Init(users), front), a, PromotionLog(Init(users), front, e), e);
    }
  }

  /** In every orderly interleaving each entry is promoted at most once, and only while it waits. */
  lemma PromotedOnceWhileWaiting(users: set<nat>, actions: seq<Action>, e: EventId)
    requires OrderlyRun(Init(users), actions, e)
    ensures Distinct(PromotionLog(Init(users), actions, e)) && PromotesWaiting(Init(users), actions, e)
  {
    OrderlyRunIsOk(users, actions, e);
  }

  lemma {:induction false} RunNumbered(users: set<nat>, actions: seq<Action>)
    ensures Numbered(Run(Init(users), actions).store.db)
  {
    if actions != [] {
      var front, a := actions[..|actions| - 1], actions[|actions| - 1];
      RunNumbered(users, front);
      hide Numbered, Step, Apply;
      StepEffect(Run(Init(users), front), a);
      RowsAfter(Run(Init(users), front).store.db, ChangeOf(Run(Init(users), front), a));
    }
  }

  /** In every interleaving an entry that left the queue, promoted, opted out or cleared, never waits again. */
  lemma {:induction false} LeftForGood(users: set<nat>, first: seq<Action>, second: seq<Action>, e: EventId, id: Uuid)
    requires var db := Run(Init(users), first).store.db; Made(db, id) && !IsWaiting(db, e, id)
    ensures var db := Run(Init(users), first + second).store.db; Made(db, id) && !IsWaiting(db, e, id)
  {
    if second == [] {
      assert first + second == first;
    } else {
      var front, a := second[..|second| - 1], second[|second| - 1];
      assert (first + second)[..|first + second| - 1] == first + front;
      LeftForGood(users, first, front, e, id);
      RunNumbered(users, first + front);
      hide Numbered, Step, Apply, IsWaiting;
      StepEffect(Run(Init(users), first + front), a);
      RowsAfter(Run(Init(users), first + front).store.db, ChangeOf(Run(Init(users), first + front), a));
    }
  }

  /** So in an orderly interleaving nobody is promoted after having left. */
  lemma {:induction false} NeverPromotedAfterLeaving(
    users: set<nat>, first: seq<Action>, second: seq<Action>, e: EventId, id: Uuid)
    requires OrderlyRun(Init(users), first + second, e)
    requires var db := Run(Init(users), first).store.db; Made(db, id) && !IsWaiting(db, e, id)
    ensures var before, after := PromotionLog(Init(users), first, e), PromotionLog(Init(users), first + second, e);
            before <= after && id !in after[|before|..]
  {
    if second == [] {
      assert first + second == first;
    } else {
      var front := second[..|second| - 1];
      assert (first + second)[..|first + second| - 1] == first + front;
      NeverPromotedAfterLeaving(users, first, front, e, id);
      LeftForGood(users, first, front, e, id);
      OrderlyRunIsOk(users, first + second, e);
    }
  }

  // ----- In the order of joining -----

  /** The head of the queue is this entry of user `u`. */
  predicate Heads(q: seq<Entry>, id: Uuid, u: Uuid) {
    q != [] && q[0].id == id && q[0].user == u
  }

  predicate Increasing(log: seq<Uuid>) {
    && (forall x :: x in log ==> x.WaitlistRow?)
    && (forall i, j :: 0 <= i < j < |log| ==> log[i].n < log[j].n)
  }

  /** Nobody who waits joined before anybody promoted. */
  predicate NotOvertaken(log: seq<Uuid>, q: seq<Entry>) {
    forall x, y :: x in log && y in q ==> x.WaitlistRow? && y.id.WaitlistRow? && x.n <= y.id.n
  }

  predicate OrderOk(s: Sys, log: seq<Uuid>, e: EventId) {
    var q := Queue(s.store.db.waitlist, e);
    && (forall c :: c in s.clients && Promoting(c, e) ==> Heads(q, c.entry, c.u))
    && Increasing(log) && NotOvertaken(log, q)
  }

  lemma {:induction false} FilterHead<T>(q: seq<T>, p: T -> bool)
    requires q != [] && p(q[0])
    ensures Filter(q, p) != [] && Filter(q, p)[0] == q[0]
  {
    if |q| > 1 {
      FilterHead(q[..|q| - 1], p);
    }
  }

  /** A queue keeps its rows in order, or gains the newest one at its end. */
  lemma QueueAfter(db: Tables, change: Change, e: EventId)
    ensures var q, q' := Queue(db.waitlist, e), Queue(Apply(db, change).waitlist, e);
            && (forall y :: y in q' ==> y in q || y.id == WaitlistRow(db.entriesMade))
            && (q != [] && !Unseats(change, e, q[0].id, q[0].user) ==> q' != [] && q'[0] == q[0])
  {
    hide Queue, OptOutRows, Filter;
    match change
    case Joined(_, _, _) => QueueJoined(db, change, e);
    case Removed(id) => QueueRemoved(db.waitlist, id, e);
    case OptedOut(e', u) => QueueOptedOut(db.waitlist, e', u, e);
    case EventOff(e') => QueueOptOut(db.waitlist, e', None, e);
    case _ => assert Apply(db, change).waitlist == db.waitlist;
  }

  lemma QueueJoined(db: Tables, change: Change, e: EventId)
    requires change.Joined?
    ensures var q, q' := Queue(db.waitlist, e), Queue(Apply(db, change).waitlist, e);
            && (forall y :: y in q' ==> y in q || y.id == WaitlistRow(db.entriesMade))
            && (q != [] ==> q' != [] && q'[0] == q[0])
  {
    var row := Entry(WaitlistRow(db.entriesMade), change.e, change.u, change.position, false);
    FilterAppend(db.waitlist, row, ActiveIn(e));
    hide Filter;
    assert Apply(db, change).waitlist == db.waitlist || Apply(db, change).waitlist == db.waitlist + [row];
  }

  lemma QueueRemoved(rows: seq<Entry>, id: Uuid, e: EventId)
    ensures var q, q' := Queue(rows, e), Queue(Filter(rows, NotEntry(id)), e);
            && (forall y :: y in q' ==> y in q)
            && (q != [] && q[0].id != id ==> q' != [] && q'[0] == q[0])
  {
    FilterCommutes(rows, ActiveIn(e), NotEntry(id));
    KeptBy(Queue(rows, e), NotEntry(id));
    hide Filter;
  }

  lemma QueueOptedOut(rows: seq<Entry>, e': EventId, u: Uuid, e: EventId)
    ensures var q, q' := Queue(rows, e), Queue(OptOutRows(rows, e', Some(u)), e);
            && (forall y :: y in q' ==> y in q)
            && (q != [] && !(e' == e && q[0].user == u) ==> q' != [] && q'[0] == q[0])
  {
    QueueOptOut(rows, e', Some(u), e);
    hide Queue, OptOutRows;
    KeptBy(Queue(rows, e), NotUser(u));
    hide Filter;
  }

  lemma KeptBy(q: seq<Entry>, p: Entry -> bool)
    ensures forall y :: y in Filter(q, p) ==> y in q
    ensures q != [] && p(q[0]) ==> Filter(q, p) != [] && Filter(q, p)[0] == q[0]
  {
    FilterMembers(q, p);
    if q != [] && p(q[0]) {
      FilterHead(q, p);
    }
  }

  /** In an orderly step nobody's looked-up entry leaves. */
  lemma NobodyUnseated(s: Sys, a: Action, log: seq<Uuid>, e: EventId, c: Client)
    requires Aligned(s) && PromoOk(s, log, e) && OrderlyStep(s, a, e) && c in s.clients && Promoting(c, e)
    ensures !Unseats(ChangeOf(s, a), e, c.entry, c.u)
  {
    if a.Go? && a.i < |s.clients| && s.clients[a.i].CancelRemove? {
      RemoverIsAlone(s, a.i, log, e, c);
    }
  }

  /** With distinct positions the row that the query returns is the head of the queue. */
  lemma NextIsHead(rows: seq<Entry>, e: EventId, pick: Entry)
    requires Ordered(Queue(rows, e)) && IsNext(rows, e, pick)
    ensures Queue(rows, e) != [] && Queue(rows, e)[0] == pick
  {
    var q := Queue(rows, e);
    FilterMembers(rows, ActiveIn(e));
    assert pick in q;
    assert q[0] in q;
  }

  /** A client comes to promote only from a lookup, of the row that it was given. */
  lemma ComesToPromote(s: Sys, a: Action, c: Client, e: EventId)
    requires Aligned(s) && c in Step(s, a).clients && Promoting(c, e)
    ensures c in s.clients
            || (a.Go? && IsNext(s.store.db.waitlist, e, a.pick) && c.entry == a.pick.id && c.u == a.pick.user
                && Step(s, a).store == s.store)
  {
    StepEffect(s, a);
    if a.Go? && a.i < |s.clients| {
      hide Follows;
      var c0 := s.clients[a.i];
      if !c0.CancelNext? && !c0.CancelPromote? {
        FollowsQuietly(c0, Step(s, a).clients[a.i]);
      }
    }
  }

  lemma HeadsStay(s: Sys, a: Action, log: seq<Uuid>, e: EventId, c: Client)
    requires Aligned(s) && PromoOk(s, log, e) && OrderOk(s, log, e) && JoinsOk(s, e) && OrderlyStep(s, a, e)
    requires c in Step(s, a).clients && Promoting(c, e)
    ensures Heads(Queue(Step(s, a).store.db.waitlist, e), c.entry, c.u)
  {
    ComesToPromote(s, a, c, e);
    if c in s.clients {
      NobodyUnseated(s, a, log, e, c);
      StepEffect(s, a);
      QueueAfter(s.store.db, ChangeOf(s, a), e);
    } else {
      NextIsHead(s.store.db.waitlist, e, a.pick);
    }
  }

  /** The log after a step that promotes nobody. */
  lemma LogNotOvertaken(db: Tables, change: Change, log: seq<Uuid>, e: EventId)
    requires NotOvertaken(log, Queue(db.waitlist, e)) && Increasing(log) && forall x :: x in log ==> Made(db, x)
    ensures NotOvertaken(log, Queue(Apply(db, change).waitlist, e))
  {
    QueueAfter(db, change, e);
  }

  lemma PromotedGoesLast(s: Sys, a: Action, log: seq<Uuid>, e: EventId)
    requires Aligned(s) && PromoOk(s, log, e) && OrderOk(s, log, e) && JoinsOk(s, e) && PromotedBy(s, a, e) != []
    ensures Increasing(log + PromotedBy(s, a, e))
    ensures NotOvertaken(log + PromotedBy(s, a, e), Queue(s.store.db.waitlist, e))
  {
    var q, c := Queue(s.store.db.waitlist, e), s.clients[a.i];
    assert c in s.clients && Heads(q, c.entry, c.u);
    LookedUpIsNew(s, a.i, log, e);
    hide Queue, PromoOk;
    assert q[0] in q && PromotedBy(s, a, e) == [q[0].id];
    forall x | x in log
      ensures x.n < q[0].id.n
    {
      assert x != q[0].id;
    }
    forall y | y in q
      ensures q[0].id.n <= y.id.n
    {
      var k :| 0 <= k < |q| && q[k] == y;
    }
  }

  lemma StepKeepsOrder(s: Sys, a: Action, log: seq<Uuid>, e: EventId)
    requires Aligned(s) && PromoOk(s, log, e) && OrderOk(s, log, e) && JoinsOk(s, e) && OrderlyStep(s, a, e)
    ensures OrderOk(Step(s, a), log + PromotedBy(s, a, e), e)
  {
    var s', log' := Step(s, a), log + PromotedBy(s, a, e);
    forall c | c in s'.clients && Promoting(c, e)
      ensures Heads(Queue(s'.store.db.waitlist, e), c.entry, c.u)
    {
      HeadsStay(s, a, log, e, c);
    }
    StepKeepsPromo(s, a, log, e);
    StepEffect(s, a);
    hide Step, Apply, Queue, OrderlyStep, JoinsOk, Heads;
    if PromotedBy(s, a, e) == [] {
      assert log' == log;
      LogNotOvertaken(s.store.db, ChangeOf(s, a), log, e);
    } else {
      PromotedGoesLast(s, a, log, e);
      PromotedIsMade(s, a, log, e);
      LogNotOvertaken(s.store.db, ChangeOf(s, a), log', e);
    }
  }

  lemma PromotedIsMade(s: Sys, a: Action, log: seq<Uuid>, e: EventId)
    requires PromoOk(s, log, e) && PromotedBy(s, a, e) != []
    ensures forall x :: x in log + PromotedBy(s, a, e) ==> Made(s.store.db, x)
  {
    assert KnowsEntry(s.store.db, s.clients[a.i], e);
  }

  /**
   In every interleaving in which promotions are orderly and joins unhurried, promotions follow the order of joining and
   overtake nobody who still waits.
   */
  lemma {:induction false} OrderlyPromotionsFollowJoins(users: set<nat>, actions: seq<Action>, e: EventId)
    requires OrderlyRun(Init(users), actions, e) && UnhurriedRun(Init(users), actions, e)
    ensures var s, log := Run(Init(users), actions), PromotionLog(Init(users), actions, e);
            OrderOk(s, log, e)
  {
    if actions != [] {
      var front, a := actions[..|actions| - 1], actions[|actions| - 1];
      OrderlyPromotionsFollowJoins(users, front, e);
      OrderlyRunIsOk(users, front, e);
      UnhurriedJoinsStayDistinct(users, front, e);
      hide PromoOk, OrderOk, JoinsOk, Step, Init, OrderlyStep, Unhurried;
      StepKeepsOrder(Run(Init(users), front), a, PromotionLog(Init(users), front, e), e);
    }
  }
}
