/** What one step of the protocol does to the tables, and to the client that makes it. */
module Effects {
  import opened Collections
  import opened Model
  import opened StoreCalls
  import opened Protocol

  /** The one change of the tables that a store call or a step of the environment makes. */
  datatype Change =
    | Unchanged
    | Inserted(u: Uuid, e: EventId, key: Option<string>, seats: seq<Label>)
    | Withdrawn(b: BookingId)
    | Finalized(b: BookingId, seats: seq<Label>, amount: int)
    | Marked(b: BookingId, payment: PaymentStatus, amount: int)
    | StatusSet(e: EventId, status: EventStatus)
    | Joined(e: EventId, u: Uuid, position: int)
    | Removed(id: Uuid)
    | OptedOut(e: EventId, u: Uuid)
    | EventOff(e: EventId)
    | Opened(e: EventId, labels: seq<Label>, price: int, fee: int, maxTickets: int, endTime: int)

  function ValueOr<T>(o: Option<T>, otherwise: T): T {
    if o.Some? then o.value else otherwise
  }

  function Apply(db: Tables, change: Change): Tables {
    match change
    case Unchanged => db
    case Inserted(u, e, key, seats) => ValueOr(InsertPending(db, u, e, key, seats), db)
    case Withdrawn(b) => ValueOr(CancelTx(db, b), (db, false)).0
    case Finalized(b, seats, amount) => ValueOr(FinalizeTx(db, b, seats, amount), db)
    case Marked(b, payment, amount) => ValueOr(SetPayment(db, b, payment, amount), db)
    case StatusSet(e, status) => SetEventStatus(db, e, status)
    case Joined(e, u, position) => ValueOr(InsertEntry(db, e, u, position), db)
    case Removed(id) => RemoveEntry(db, id)
    case OptedOut(e, u) => db.(waitlist := OptOutRows(db.waitlist, e, Some(u)))
    case EventOff(e) => CallOffEvent(db, e)
    case Opened(e, labels, price, fee, maxTickets, endTime) =>
      OpenTables(db, e, labels, price, fee, maxTickets, endTime)
  }

  /** The change that the next store call of a client makes, if the call does not fail. */
  function CallChange(c: Client): Change {
    match c
    case CreateExpire(e) => StatusSet(e, Expired)
    case CreateInsert(e, u, key, seats) => Inserted(u, e, key, seats)
    case JoinInsert(e, u, position) => Joined(e, u, position)
    case CancelBegin(b) => Withdrawn(b)
    case CancelPromote(e, seats, _, u) => Inserted(u, e, None, seats)
    case CancelRemove(entry) => Removed(entry)
    case PayMark(b, amount, _) => Marked(b, Paid, amount)
    case PayFinalize(b, amount, seats) => Finalized(b, seats, amount)
    case TimeoutCancel(b, _, _) => Withdrawn(b)
    case TimeoutPromote(_, e, seats, entry) => Inserted(entry, e, None, seats)
    case RefundMark(b, refund) => Marked(b, Refunded, refund)
    case EventRefundMark(_, todo) => if todo == [] then Unchanged else Marked(todo[0].0, Refunded, todo[0].1)
    case _ => Unchanged
  }

  function ChangeOf(s: Sys, a: Action): Change {
    match a
    case Go(i, ok, _, _) => if i < |s.clients| && ok then CallChange(s.clients[i]) else Unchanged
    case OptOut(e, u) => OptedOut(e, u)
    case CallOff(e) => EventOff(e)
    case OpenEvent(e, labels, price, fee, maxTickets, endTime) => Opened(e, labels, price, fee, maxTickets, endTime)
    case _ => Unchanged
  }

  /** Where a client may stand after its next store call. */
  predicate Follows(c: Client, c': Client) {
    (c' == c && CallChange(c) == Unchanged) || (c' == Dead(c) && Running(c))
    || match c
       case CreateGetEvent(e, u, key, seats) =>
         c' == Done || c' == CreateExpire(e) || c' == CreateGetKey(e, u, key, seats)
           || c' == CreateReserve(e, u, key, seats)
       case CreateGetKey(e, u, key, seats) => c' == Done || c' == CreateReserve(e, u, key, seats)
       case CreateReserve(e, u, key, seats) => c' == CreateInsert(e, u, key, seats) || c' == JoinMax(e, u)
       case JoinMax(e, u) => c'.JoinInsert? && c'.e == e && c'.u == u
       case CancelBegin(b) => c' == Done || (c'.CancelRelease? && c'.b == b)
       case CancelRelease(_, e, seats) => c' == CancelNext(e, seats)
       case CancelNext(e, seats) => c' == Done || (c'.CancelPromote? && c'.e == e && c'.seats == seats)
       case CancelPromote(_, _, entry, _) => c' == CancelRemove(entry)
       case PayRead(b, amount) => c' == Done || (c'.PayCharge? && c'.b == b && c'.amount == amount)
       case PayCharge(b, amount, seats) => c' == PayMark(b, amount, seats)
       case PayMark(b, amount, seats) => c' == PayFinalize(b, amount, seats)
       case TimeoutRead(b, e, seats) => c' == TimeoutPassed(b) || c' == TimeoutCancel(b, e, seats)
       case TimeoutCancel(b, e, seats) => c' == TimeoutNext(b, e, seats)
       case TimeoutNext(b, e, seats) =>
         c' == TimeoutPassed(b) || (c'.TimeoutPromote? && c'.b == b && c'.e == e && c'.seats == seats)
       case TimeoutPromote(b, _, _, _) => c' == TimeoutPassed(b)
       case RefundRead(b) => c' == Done || (c'.RefundPay? && c'.b == b)
       case RefundPay(b, refund, _) => c' == RefundMark(b, refund)
       case EventRefundList(e) => c' == Done || (c'.EventRefundEach? && c'.e == e)
       case EventRefundEach(e, todo) => c' == Done || ((c'.EventRefundEach? || c'.EventRefundMark?) && c'.e == e)
       case EventRefundMark(e, todo) => c'.EventRefundEach? && c'.e == e
       case ReconcileRead(e, _) => c' == Done || ((c'.ReconcileGive? || c'.ReconcileTake?) && c'.e == e)
       case ReconcileTake(e, _) => c' == Done || (c'.ReconcileTake? && c'.e == e)
       case _ => c' == Done && Running(c)
  }

  /** The clients whose next call may touch the account of a booking that is there already. */
  predicate Settles(c: Client) {
    c.CancelBegin? || c.CancelRelease? || c.PayFinalize? || c.TimeoutCancel?
  }

  /** The old accounts are as they were, and those of new bookings are new. */
  predicate AccountsKept(accounts: seq<Account>, accounts': seq<Account>) {
    && |accounts| <= |accounts'|
    && (forall b :: 0 <= b < |accounts| ==> accounts'[b] == accounts[b])
    && (forall b :: |accounts| <= b < |accounts'| ==> accounts'[b] == NewAccount(accounts'[b].origin))
  }

  /** Client `i` has moved on alone, and has made its change. */
  predicate Moved(s: Sys, s': Sys, i: nat, change: Change) {
    && i < |s.clients| == |s'.clients|
    && s'.clients == s.clients[i := s'.clients[i]]
    && Follows(s.clients[i], s'.clients[i])
    && s'.store.db == Apply(s.store.db, change)
    && (!Settles(s.clients[i]) ==> AccountsKept(s.accounts, s'.accounts))
  }

  /** The same bookings and perhaps more, but for their payment columns. */
  predicate SameLife(bookings: seq<Booking>, bookings': seq<Booking>) {
    && |bookings| <= |bookings'|
    && forall b :: 0 <= b < |bookings| ==>
         bookings'[b] == bookings[b].(payment := bookings'[b].payment, amountPaid := bookings'[b].amountPaid)
  }

  lemma QuietChange(db: Tables, change: Change)
    requires !change.Withdrawn? && !change.Finalized? && !change.EventOff?
    ensures SameLife(db.bookings, Apply(db, change).bookings)
    ensures !change.Opened? ==> Apply(db, change).seats == db.seats
  {
  }

  lemma CreateMoves(s: Sys, i: nat, ok: bool, now: int)
    requires Aligned(s) && i < |s.clients|
    requires var c := s.clients[i];
             c.CreateGetEvent? || c.CreateExpire? || c.CreateGetKey? || c.CreateReserve? || c.CreateInsert?
               || c.JoinMax? || c.JoinInsert?
    ensures Moved(s, GoCreate(s, i, ok, now), i, if ok then CallChange(s.clients[i]) else Unchanged)
  {
  }

  lemma CancelMoves(s: Sys, i: nat, ok: bool, pick: Entry)
    requires Aligned(s) && i < |s.clients|
    requires var c := s.clients[i];
             c.CancelBegin? || c.CancelRelease? || c.CancelNext? || c.CancelPromote? || c.CancelRemove?
    ensures Moved(s, GoCancel(s, i, ok, pick), i, if ok then CallChange(s.clients[i]) else Unchanged)
  {
  }

  lemma PayMoves(s: Sys, i: nat, ok: bool)
    requires Aligned(s) && i < |s.clients|
    requires var c := s.clients[i];
             c.PayRead? || c.PayCharge? || c.PayMark? || c.PayFinalize?
    ensures Moved(s, GoPay(s, i, ok), i, if ok then CallChange(s.clients[i]) else Unchanged)
  {
  }

  lemma TimeoutMoves(s: Sys, i: nat, ok: bool, pick: Entry)
    requires Aligned(s) && i < |s.clients|
    requires var c := s.clients[i];
             c.TimeoutRead? || c.TimeoutCancel? || c.TimeoutNext? || c.TimeoutPromote?
    ensures Moved(s, GoTimeout(s, i, ok, pick), i, if ok then CallChange(s.clients[i]) else Unchanged)
  {
  }

  lemma ReconcileMoves(s: Sys, i: nat, ok: bool)
    requires Aligned(s) && i < |s.clients|
    requires var c := s.clients[i];
             c.ReconcileRead? || c.ReconcileGive? || c.ReconcileTake?
    ensures Moved(s, GoReconcile(s, i, ok), i, if ok then CallChange(s.clients[i]) else Unchanged)
  {
  }

  lemma RefundMoves(s: Sys, i: nat, ok: bool)
    requires Aligned(s) && i < |s.clients|
    requires var c := s.clients[i];
             c.RefundRead? || c.RefundPay? || c.RefundMark? || c.EventRefundList? || c.EventRefundEach?
               || c.EventRefundMark?
             || !Running(c)
    ensures Moved(s, GoRefund(s, i, ok), i, if ok then CallChange(s.clients[i]) else Unchanged)
  {
  }

  lemma ClientMoves(s: Sys, i: nat, ok: bool, now: int, pick: Entry)
    requires Aligned(s) && i < |s.clients|
    ensures Moved(s, GoClient(s, i, ok, now, pick), i, if ok then CallChange(s.clients[i]) else Unchanged)
  {
    hide Moved, CallChange, GoCreate, GoCancel, GoPay, GoTimeout, GoReconcile, GoRefund;
    match s.clients[i] {
      case CreateGetEvent(_, _, _, _) | CreateExpire(_) | CreateGetKey(_, _, _, _) | CreateReserve(_, _, _, _) =>
        CreateMoves(s, i, ok, now);
      case CreateInsert(_, _, _, _) | JoinMax(_, _) | JoinInsert(_, _, _) => CreateMoves(s, i, ok, now);
      case CancelBegin(_) | CancelRelease(_, _, _) | CancelNext(_, _) => CancelMoves(s, i, ok, pick);
      case CancelPromote(_, _, _, _) | CancelRemove(_) => CancelMoves(s, i, ok, pick);
      case PayRead(_, _) | PayCharge(_, _, _) | PayMark(_, _, _) | PayFinalize(_, _, _) => PayMoves(s, i, ok);
      case TimeoutRead(_, _, _) | TimeoutCancel(_, _, _) | TimeoutNext(_, _, _) | TimeoutPromote(_, _, _, _) =>
        TimeoutMoves(s, i, ok, pick);
      case ReconcileRead(_, _) | ReconcileGive(_, _) | ReconcileTake(_, _) => ReconcileMoves(s, i, ok);
      case _ => RefundMoves(s, i, ok);
    }
  }

  /** Finalizations of a booking that is not pending count as stale, and nothing else of a client's does. */
  lemma ClientTroubles(s: Sys, i: nat, ok: bool, now: int, pick: Entry)
    requires Aligned(s) && i < |s.clients|
    ensures var c, s' := s.clients[i], GoClient(s, i, ok, now, pick);
            && |s.accounts| <= |s'.accounts|
            && (forall b :: 0 <= b < |s.accounts| ==> s'.accounts[b].calledOff == s.accounts[b].calledOff)
            && (forall b :: 0 <= b < |s.accounts| && s'.accounts[b].stale != s.accounts[b].stale ==>
                  c.PayFinalize? && ok && c.b == b && s.store.db.bookings[b].status != Pending)
            && (forall b :: |s.accounts| <= b < |s'.accounts| ==> s'.accounts[b] == NewAccount(s'.accounts[b].origin))
  {
    if !Settles(s.clients[i]) {
      hide GoClient, Follows, CallChange;
      ClientMoves(s, i, ok, now, pick);
    }
  }

  /** A store call that returns an error has changed no store, whosever it is. */
  lemma FailedCallChangesNothing(s: Sys, i: nat, now: int, pick: Entry)
    requires Aligned(s) && i < |s.clients|
    ensures GoClient(s, i, false, now, pick).store == s.store
  {
  }

  /** The calls whose errors are ignored. */
  predicate IgnoresErrors(c: Client) {
    c.CreateGetKey? || c.CancelRelease? || c.EventRefundEach? || c.EventRefundMark?
    || c.ReconcileRead? || c.ReconcileGive? || c.ReconcileTake?
  }

  /**
   An error ends its service call exactly where it is not ignored. A failed key lookup goes on to reserve, a failed
   release to the waitlist, and a failed refund or mark to the next booking of the list.
   */
  lemma ErrorsEndCalls(s: Sys, i: nat, now: int, pick: Entry)
    requires Aligned(s) && i < |s.clients| && Running(s.clients[i])
    requires s.clients[i].CancelRelease? ==> s.clients[i].b < |s.accounts|
    requires s.clients[i].EventRefundMark? ==> s.clients[i].todo != []
    ensures var c, s' := s.clients[i], GoClient(s, i, false, now, pick);
            && i < |s'.clients|
            && (s'.clients[i] == Dead(c) <==> !IgnoresErrors(c))
            && (c.CreateGetKey? ==> s'.clients[i] == CreateReserve(c.e, c.u, c.key, c.seats))
            && (c.CancelRelease? ==> s'.clients[i] == CancelNext(c.e, c.seats))
            && ((c.EventRefundEach? || c.EventRefundMark?) && c.todo != [] ==>
                  s'.clients[i] == EventRefundEach(c.e, c.todo[1..]))
            && (c.ReconcileTake? && c.times > 0 ==> s'.clients[i] == ReconcileTake(c.e, c.times - 1))
  {
  }

  lemma OthersChargeNothing(s: Sys, i: nat, ok: bool, now: int, pick: Entry)
    requires Aligned(s) && i < |s.clients|
    ensures GoCreate(s, i, ok, now).store.charges == GoCancel(s, i, ok, pick).store.charges == s.store.charges
    ensures GoTimeout(s, i, ok, pick).store.charges == s.store.charges
    ensures GoRefund(s, i, ok).store.charges == GoReconcile(s, i, ok).store.charges == s.store.charges
  {
  }

  /** Only a payment's provider call charges. */
  lemma ClientCharges(s: Sys, i: nat, ok: bool, now: int, pick: Entry)
    requires Aligned(s) && i < |s.clients| && !s.clients[i].PayCharge?
    ensures GoClient(s, i, ok, now, pick).store.charges == s.store.charges
  {
    OthersChargeNothing(s, i, ok, now, pick);
    assert GoPay(s, i, ok).store.charges == s.store.charges;
    hide GoCreate, GoCancel, GoPay, GoTimeout, GoRefund, GoReconcile;
  }

  /** The clients after an action: one more, one moved on, one dead, or all as they were. */
  predicate ClientsMoved(s: Sys, s': Sys, a: Action) {
    match a
    case Spawn(c) => s'.clients == if IsStart(c) then s.clients + [c] else s.clients
    case Go(i, _, _, _) =>
      if i < |s.clients| then
        |s'.clients| == |s.clients| && s'.clients == s.clients[i := s'.clients[i]]
          && Follows(s.clients[i], s'.clients[i])
      else s'.clients == s.clients
    case Crash(i) =>
      s'.clients == if i < |s.clients| && Running(s.clients[i]) then s.clients[i := Dead(s.clients[i])] else s.clients
    case _ => s'.clients == s.clients
  }

  /** The effect of any action. */
  lemma StepEffect(s: Sys, a: Action)
    requires Aligned(s)
    ensures ClientsMoved(s, Step(s, a), a)
    ensures Step(s, a).store.db == Apply(s.store.db, ChangeOf(s, a))
    ensures a.Go? && a.i < |s.clients| && !Settles(s.clients[a.i]) ==> AccountsKept(s.accounts, Step(s, a).accounts)
  {
    hide Follows, GoClient, CallChange;
    if a.Go? && a.i < |s.clients| {
      ClientMoves(s, a.i, a.ok, a.now, a.pick);
    }
  }
}
