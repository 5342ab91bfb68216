/**
 The ticket reservation protocol with every interleaving of its store calls.

 Each running service call is a client whose constructor says which store call comes next. One action
 performs one store call of one client, starts or crashes a client, or is a step of the environment.
 A ledger keeps, for every booking, the part of its history that the tables forget.
 */
module Protocol {
  import opened Collections
  import opened Model
  import opened StoreCalls

  // ----- The ledger -----

  /** How a booking came to be, with the tokens it took from the counter. */
  datatype Origin = Direct(debit: nat) | Promoted

  /** What became of the tokens of a booking that was cancelled while booked. */
  datatype Claim = Unreported | Owed(client: nat) | Settled | Forfeited

  datatype Account = Account(
    origin: Origin,
    claim: Claim,
    reports: nat,    // cancellation transactions that reported the booking as booked
    releases: nat,   // token releases made for it
    stale: nat,      // finalizations that found it not pending
    calledOff: nat   // admin cancellations that hit it while booked
  )

  function NewAccount(origin: Origin): Account {
    Account(origin, Unreported, 0, 0, 0, 0)
  }

  // ----- Clients -----

  datatype Client =
    | CreateGetEvent(e: EventId, u: Uuid, key: Option<string>, seats: seq<Label>)
    | CreateExpire(e: EventId)
    | CreateGetKey(e: EventId, u: Uuid, key: Option<string>, seats: seq<Label>)
    | CreateReserve(e: EventId, u: Uuid, key: Option<string>, seats: seq<Label>)
    | CreateInsert(e: EventId, u: Uuid, key: Option<string>, seats: seq<Label>)
    | JoinMax(e: EventId, u: Uuid)
    | JoinInsert(e: EventId, u: Uuid, position: int)
    | CancelBegin(b: BookingId)
    | CancelRelease(b: BookingId, e: EventId, seats: seq<Label>)
    | CancelNext(e: EventId, seats: seq<Label>)
    | CancelPromote(e: EventId, seats: seq<Label>, entry: Uuid, u: Uuid)
    | CancelRemove(entry: Uuid)
    | PayRead(b: BookingId, amount: int)
    | PayCharge(b: BookingId, amount: int, seats: seq<Label>)
    | PayMark(b: BookingId, amount: int, seats: seq<Label>)
    | PayFinalize(b: BookingId, amount: int, seats: seq<Label>)
    | TimeoutRead(b: BookingId, e: EventId, seats: seq<Label>)
    | TimeoutCancel(b: BookingId, e: EventId, seats: seq<Label>)
    | TimeoutNext(b: BookingId, e: EventId, seats: seq<Label>)
    | TimeoutPromote(b: BookingId, e: EventId, seats: seq<Label>, entry: Uuid)
    | TimeoutPassed(b: BookingId)
    | RefundRead(b: BookingId)
    | RefundPay(b: BookingId, refund: int, paid: int)
    | RefundMark(b: BookingId, refund: int)
    | EventRefundList(e: EventId)
    | EventRefundEach(e: EventId, todo: seq<(BookingId, int)>)
    | EventRefundMark(e: EventId, todo: seq<(BookingId, int)>)
    | ReconcileRead(e: EventId, desired: int)
    | ReconcileGive(e: EventId, n: nat)
    | ReconcileTake(e: EventId, times: nat)
    | Done
    | Dead(last: Client)  // crashed before that call, or returned with its error

  predicate IsStart(c: Client) {
    c.CreateGetEvent? || c.JoinMax? || c.CancelBegin? || c.PayRead? || c.TimeoutRead? || c.RefundRead?
      || c.EventRefundList?
    || c.ReconcileRead?
  }

  predicate Running(c: Client) {
    !c.Done? && !c.Dead? && !c.TimeoutPassed?
  }

  /** `given` counts the tokens that the reconciler has put into an event's counter, less those it took out. */
  datatype Sys = Sys(store: Store, clients: seq<Client>, accounts: seq<Account>, given: map<EventId, int>)

  function Given(s: Sys, e: EventId): int {
    Tokens(s.given, e)
  }

  predicate Aligned(s: Sys) {
    |s.accounts| == |s.store.db.bookings|
  }

  // ----- Steps of one client -----

  function Stop(s: Sys, i: nat): Sys
    requires i < |s.clients|
  {
    s.(clients := s.clients[i := Dead(s.clients[i])])
  }

  function Next(s: Sys, i: nat, c: Client): Sys
    requires i < |s.clients|
  {
    s.(clients := s.clients[i := c])
  }

  function WithDb(s: Sys, db: Tables): Sys {
    s.(store := s.store.(db := db))
  }

  /** Opens the account of the booking that `db` has just gained. */
  function WithNewBooking(s: Sys, db: Tables, origin: Origin): Sys {
    WithDb(s, db).(accounts := s.accounts + [NewAccount(origin)])
  }

  predicate NeedsKeyCheck(key: Option<string>) {
    key.Some? && key.value != ""
  }

  function GoCreate(s: Sys, i: nat, ok: bool, now: int): (r: Sys)
    requires i < |s.clients| && Aligned(s)
    ensures Aligned(r)
  {
    var db := s.store.db;
    match s.clients[i]
    case CreateGetEvent(e, u, key, seats) =>
      if !ok then Stop(s, i)
      else if e !in db.events then Next(s, i, Done)
      else if db.events[e].endTime < now then Next(s, i, CreateExpire(e))
      else if |seats| > db.events[e].maxTickets then Next(s, i, Done)
      else Next(s, i, if NeedsKeyCheck(key) then CreateGetKey(e, u, key, seats) else CreateReserve(e, u, key, seats))
    case CreateExpire(e) =>
      if ok then Next(WithDb(s, SetEventStatus(db, e, Expired)), i, Done) else Stop(s, i)
    case CreateGetKey(e, u, key, seats) =>
      // a failed lookup is ignored
      if ok && key.Some? && FindKey(db.bookings, key.value).Some? then Next(s, i, Done)
      else Next(s, i, CreateReserve(e, u, key, seats))
    case CreateReserve(e, u, key, seats) =>
      if !ok then Stop(s, i)
      else
        var (got, tokens) := ReserveTokens(s.store.tokens, e, |seats|);
        if got then Next(s.(store := s.store.(tokens := tokens)), i, CreateInsert(e, u, key, seats))
        else Next(s, i, JoinMax(e, u))
    case CreateInsert(e, u, key, seats) =>
      var inserted := InsertPending(db, u, e, key, seats);
      if ok && inserted.Some?
      then Next(WithNewBooking(s, inserted.value, Direct(|seats|)), i, Done)
      else Stop(s, i)
    case JoinMax(e, u) =>
      if ok then Next(s, i, JoinInsert(e, u, NextPosition(db.waitlist, e))) else Stop(s, i)
    case JoinInsert(e, u, position) =>
      var inserted := InsertEntry(db, e, u, position);
      if ok && inserted.Some? then Next(WithDb(s, inserted.value), i, Done) else Stop(s, i)
    case _ => s
  }

  /** Records that a cancellation transaction reported booking `b` as booked. */
  function Report(s: Sys, b: BookingId, claim: Claim): Sys
    requires b < |s.accounts|
  {
    var a := s.accounts[b];
    s.(accounts := s.accounts[b := a.(reports := a.reports + 1, claim := claim)])
  }

  function Forfeit(s: Sys, b: BookingId): Sys
    requires b < |s.accounts|
  {
    s.(accounts := s.accounts[b := s.accounts[b].(claim := Forfeited)])
  }

  function GoCancel(s: Sys, i: nat, ok: bool, pick: Entry): (r: Sys)
    requires i < |s.clients| && Aligned(s)
    ensures Aligned(r)
  {
    var db := s.store.db;
    match s.clients[i]
    case CancelBegin(b) =>
      var cancelled := CancelTx(db, b);
      if !ok || cancelled.None? then Stop(s, i)
      else
        var (db', wasBooked) := cancelled.value;
        if wasBooked
        then Next(Report(WithDb(s, db'), b, Owed(i)), i, CancelRelease(b, db.bookings[b].event, db.bookings[b].seats))
        else Next(WithDb(s, db'), i, Done)
    case CancelRelease(b, e, seats) =>
      if b >= |s.accounts| then s
      else if !ok then Next(Forfeit(s, b), i, CancelNext(e, seats))  // the error is ignored
      else
        var a := s.accounts[b];
        Next(s.(store := s.store.(tokens := ReleaseTokens(s.store.tokens, e, SeatCount(seats))),
                accounts := s.accounts[b := a.(releases := a.releases + 1, claim := Settled)]),
             i, CancelNext(e, seats))
    case CancelNext(e, seats) =>
      if !ok then Stop(s, i)
      else if Queue(db.waitlist, e) == [] then Next(s, i, Done)
      else if IsNext(db.waitlist, e, pick) then Next(s, i, CancelPromote(e, seats, pick.id, pick.user))
      else s  // not a row the query can return
    case CancelPromote(e, seats, entry, u) =>
      var inserted := InsertPending(db, u, e, None, seats);
      if ok && inserted.Some?
      then Next(WithNewBooking(s, inserted.value, Promoted), i, CancelRemove(entry))
      else Stop(s, i)
    case CancelRemove(entry) =>
      if ok then Next(WithDb(s, RemoveEntry(db, entry)), i, Done) else Stop(s, i)
    case _ => s
  }

  function GoPay(s: Sys, i: nat, ok: bool): (r: Sys)
    requires i < |s.clients| && Aligned(s)
    ensures Aligned(r)
  {
    var db := s.store.db;
    match s.clients[i]
    case PayRead(b, amount) =>
      if !ok then Stop(s, i)
      else if b >= |db.bookings| || db.bookings[b].status != Pending then Next(s, i, Done)
      else
        var row := db.bookings[b];
        if row.event !in db.events || amount < db.events[row.event].price * SeatCount(row.seats) then Next(s, i, Done)
        else Next(s, i, PayCharge(b, amount, Effective(row.seats)))
    case PayCharge(b, amount, seats) =>
      if !ok || b >= |db.bookings| then Stop(s, i)
      else
        Next(s.(store := s.store.(charges := s.store.charges + [Charge(b, db.bookings[b].event, amount)])),
             i, PayMark(b, amount, seats))
    case PayMark(b, amount, seats) =>
      var marked := SetPayment(db, b, Paid, amount);
      if ok && marked.Some? then Next(WithDb(s, marked.value), i, PayFinalize(b, amount, seats)) else Stop(s, i)
    case PayFinalize(b, amount, seats) =>
      var finalized := FinalizeTx(db, b, seats, amount);
      if !ok || finalized.None? then Stop(s, i)
      else
        var a := s.accounts[b];
        var a' := if db.bookings[b].status == Pending then a else a.(stale := a.stale + 1);
        Next(WithDb(s, finalized.value).(accounts := s.accounts[b := a']), i, Done)
    case _ => s
  }

  function GoTimeout(s: Sys, i: nat, ok: bool, pick: Entry): (r: Sys)
    requires i < |s.clients| && Aligned(s)
    ensures Aligned(r)
  {
    var db := s.store.db;
    match s.clients[i]
    case TimeoutRead(b, e, seats) =>
      if !ok || b >= |db.bookings| then Stop(s, i)
      else if db.bookings[b].status != Pending then Next(s, i, TimeoutPassed(b))
      else Next(s, i, TimeoutCancel(b, e, seats))
    case TimeoutCancel(b, e, seats) =>
      var cancelled := CancelTx(db, b);
      if !ok || cancelled.None? then Stop(s, i)
      else
        // whether it was booked is ignored, so nobody releases its tokens
        var (db', wasBooked) := cancelled.value;
        var s' := WithDb(s, db');
        Next(if wasBooked then Report(s', b, Forfeited) else s', i, TimeoutNext(b, e, seats))
    case TimeoutNext(b, e, seats) =>
      if !ok || e !in db.events then Stop(s, i)
      else if Queue(db.waitlist, e) == [] then Next(s, i, TimeoutPassed(b))
      else if IsNext(db.waitlist, e, pick) then Next(s, i, TimeoutPromote(b, e, seats, pick.id))
      else s
    case TimeoutPromote(b, e, seats, entry) =>
      // the entry's id is passed where the user's id is expected
      var inserted := InsertPending(db, entry, e, None, seats);
      if ok && inserted.Some?
      then Next(WithNewBooking(s, inserted.value, Promoted), i, TimeoutPassed(b))
      else Stop(s, i)
    case _ => s
  }

  function IndividualRefund(paid: int, fee: int): int {
    if paid - fee < 0 then 0 else paid - fee
  }

  /** The number of bookings an event refund lists. */
  const LIST_LIMIT: nat := 1000

  /** The listed bookings that are paid, with the amounts read. */
  function PaidAmong(bookings: seq<Booking>, ids: seq<BookingId>): seq<(BookingId, int)>
    requires forall i :: 0 <= i < |ids| ==> ids[i] < |bookings|
  {
    if ids == [] then []
    else
      var b := bookings[ids[0]];
      (if b.payment == Paid then [(ids[0], b.amountPaid)] else []) + PaidAmong(bookings, ids[1..])
  }

  function GoRefund(s: Sys, i: nat, ok: bool): (r: Sys)
    requires i < |s.clients| && Aligned(s)
    ensures Aligned(r)
  {
    var db := s.store.db;
    match s.clients[i]
    case RefundRead(b) =>
      if !ok then Stop(s, i)
      else if b >= |db.bookings| || db.bookings[b].payment != Paid
        || db.bookings[b].event !in db.events then Next(s, i, Done)
      else
        var row := db.bookings[b];
        Next(s, i, RefundPay(b, IndividualRefund(row.amountPaid, db.events[row.event].fee), row.amountPaid))
    case RefundPay(b, refund, paid) =>
      if !ok || b >= |db.bookings| then Stop(s, i)
      else
        Next(s.(store := s.store.(refunds :=
          s.store.refunds + [Refund(b, db.bookings[b].event, refund, paid, Individual)])),
             i, RefundMark(b, refund))
    case RefundMark(b, refund) =>
      var marked := SetPayment(db, b, Refunded, refund);
      if ok && marked.Some? then Next(WithDb(s, marked.value), i, Done) else Stop(s, i)
    case EventRefundList(e) =>
      if !ok then Stop(s, i)
      else if e !in db.events then Next(s, i, Done)
      else Next(s, i, EventRefundEach(e, PaidAmong(db.bookings, ListByEvent(db.bookings, e, LIST_LIMIT))))
    case EventRefundEach(e, todo) =>
      if todo == [] then Next(s, i, Done)
      else if !ok then Next(s, i, EventRefundEach(e, todo[1..]))
      else
        var (b, paid) := todo[0];
        Next(s.(store := s.store.(refunds := s.store.refunds + [Refund(b, e, paid, paid, WholeEvent)])),
             i, EventRefundMark(e, todo))
    case EventRefundMark(e, todo) =>
      if todo == [] then s
      else
        var marked := SetPayment(db, todo[0].0, Refunded, todo[0].1);
        Next(if ok && marked.Some? then WithDb(s, marked.value) else s, i, EventRefundEach(e, todo[1..]))
    case _ => s
  }

  /** Moves tokens between the counter and the reconciler. */
  function Correct(s: Sys, e: EventId, n: int): Sys {
    s.(store := s.store.(tokens := ReleaseTokens(s.store.tokens, e, n)), given := ReleaseTokens(s.given, e, n))
  }

  /** Every error is ignored; a counter that cannot be read counts as zero. */
  function GoReconcile(s: Sys, i: nat, ok: bool): (r: Sys)
    requires i < |s.clients| && Aligned(s)
    ensures Aligned(r)
  {
    match s.clients[i]
    case ReconcileRead(e, desired) =>
      var rem := if ok then Tokens(s.store.tokens, e) else 0;
      if e !in s.store.db.events || rem == desired then Next(s, i, Done)
      else Next(s, i, if rem < desired then ReconcileGive(e, desired - rem) else ReconcileTake(e, rem - desired))
    case ReconcileGive(e, n) =>
      Next(if ok then Correct(s, e, n) else s, i, Done)
    case ReconcileTake(e, times) =>
      if times == 0 then Next(s, i, Done)
      else Next(if ok && ReserveTokens(s.store.tokens, e, 1).0 then Correct(s, e, -1)
        else s, i, ReconcileTake(e, times - 1))
    case _ => s
  }

  // ----- Actions and runs -----

  datatype Action =
    | Spawn(c: Client)
    | Go(i: nat, ok: bool, now: int, pick: Entry)
    | Crash(i: nat)
    | OptOut(e: EventId, u: Uuid)
    | CallOff(e: EventId)
    | OpenEvent(e: EventId, labels: seq<Label>, price: int, fee: int, maxTickets: int, endTime: int)

  const NOBODY: Entry := Entry(WaitlistRow(0), 0, WaitlistRow(0), 0, true)

  /** Client `i` makes its next store call, which succeeds. */
  function GoOn(i: nat): Action {
    Go(i, true, 0, NOBODY)
  }

  function GoClient(s: Sys, i: nat, ok: bool, now: int, pick: Entry): (r: Sys)
    requires i < |s.clients| && Aligned(s)
    ensures Aligned(r)
  {
    var c := s.clients[i];
    if c.CreateGetEvent? || c.CreateExpire? || c.CreateGetKey? || c.CreateReserve? || c.CreateInsert? || c.JoinMax?
      || c.JoinInsert?
    then GoCreate(s, i, ok, now)
    else if c.CancelBegin? || c.CancelRelease? || c.CancelNext? || c.CancelPromote? || c.CancelRemove?
    then GoCancel(s, i, ok, pick)
    else if c.PayRead? || c.PayCharge? || c.PayMark? || c.PayFinalize?
    then GoPay(s, i, ok)
    else if c.TimeoutRead? || c.TimeoutCancel? || c.TimeoutNext? || c.TimeoutPromote?
    then GoTimeout(s, i, ok, pick)
    else if c.ReconcileRead? || c.ReconcileGive? || c.ReconcileTake?
    then GoReconcile(s, i, ok)
    else GoRefund(s, i, ok)
  }

  function CrashClient(s: Sys, i: nat): Sys
    requires i < |s.clients|
  {
    var c := s.clients[i];
    if !Running(c) then s
    else if c.CancelRelease? && c.b < |s.accounts| then Stop(Forfeit(s, c.b), i)
    else Stop(s, i)
  }

  function CallOffAccount(b: Booking, a: Account, e: EventId): Account {
    if b.event == e && b.status == Booked then a.(calledOff := a.calledOff + 1) else a
  }

  function CallOffStep(s: Sys, e: EventId): Sys
    requires Aligned(s)
  {
    var db := s.store.db;
    WithDb(s, CallOffEvent(db, e))
    .(accounts := seq(|s.accounts|, i requires 0
      <= i < |s.accounts| => CallOffAccount(db.bookings[i], s.accounts[i], e)))
  }

  /** A new event: one seat row per label. */
  function OpenTables(
    db: Tables, e: EventId, labels: seq<Label>, price: int, fee: int, maxTickets: int, endTime: int): Tables
  {
    if e in db.events then db
    else
      db.(events := db.events[e := Event(|labels|, 0, price, fee, maxTickets, endTime, Upcoming)],
          seats := db.seats + FreshSeats(e, labels))
  }

  /** The same with a token per seat. */
  function OpenEventStore(
    store: Store, e: EventId, labels: seq<Label>, price: int, fee: int, maxTickets: int, endTime: int): Store
  {
    if e in store.db.events then store
    else
      store.(db := OpenTables(store.db, e, labels, price, fee, maxTickets, endTime), tokens :=
        store.tokens[e := |labels|])
  }

  function Step(s: Sys, a: Action): (r: Sys)
    requires Aligned(s)
    ensures Aligned(r)
  {
    match a
    case Spawn(c) => if IsStart(c) then s.(clients := s.clients + [c]) else s
    case Go(i, ok, now, pick) => if i < |s.clients| then GoClient(s, i, ok, now, pick) else s
    case Crash(i) => if i < |s.clients| then CrashClient(s, i) else s
    case OptOut(e, u) => WithDb(s, s.store.db.(waitlist := OptOutRows(s.store.db.waitlist, e, Some(u))))
    case CallOff(e) => CallOffStep(s, e)
    case OpenEvent(e, labels, price, fee, maxTickets, endTime) =>
      s.(store := OpenEventStore(s.store, e, labels, price, fee, maxTickets, endTime))
  }

  function Run(s: Sys, actions: seq<Action>): (s': Sys)
    requires Aligned(s)
    ensures Aligned(s')
  {
    if actions == [] then s
    else Step(Run(s, actions[..|actions| - 1]), actions[|actions| - 1])
  }

  lemma {:induction false} RunAppend(s: Sys, first: seq<Action>, second: seq<Action>)
    requires Aligned(s)
    ensures Run(s, first + second) == Run(Run(s, first), second)
  {
    if second == [] {
      assert first + second == first;
    } else {
      var front := second[..|second| - 1];
      assert (first + second)[..|first + second| - 1] == first + front;
      RunAppend(s, first, front);
    }
  }

  /** Client `i` makes `n` store calls, all of which succeed. */
  function Again(i: nat, n: nat): seq<Action> {
    if n == 0 then [] else [GoOn(i)] + Again(i, n - 1)
  }

  lemma RunFirst(s: Sys, a: Action, rest: seq<Action>)
    requires Aligned(s)
    ensures Run(s, [a] + rest) == Run(Step(s, a), rest)
  {
    RunAppend(s, [a], rest);
    assert [a][..0] == [];
    assert Run(s, [a]) == Step(s, a);
  }

  lemma RunAgain(s: Sys, i: nat, n: nat)
    requires Aligned(s)
    ensures Run(s, Again(i, n)) == if n == 0 then s else Run(Step(s, GoOn(i)), Again(i, n - 1))
  {
    if n > 0 {
      RunFirst(s, GoOn(i), Again(i, n - 1));
    }
  }

  /** No events, bookings or clients yet; the only users are rows of the users table. */
  predicate IsInit(s: Sys) {
    && (forall u :: u in s.store.db.users ==> u.UserRow?)
    && s.store.db.events == map[]
    && s.store.db.bookings == []
    && s.store.db.seats == []
    && s.store.db.waitlist == []
    && s.store.db.entriesMade == 0
    && s.store.tokens == map[]
    && s.store.charges == []
    && s.store.refunds == []
    && s.clients == []
    && s.accounts == []
    && s.given == map[]
  }

  function Init(users: set<nat>): (s: Sys)
    ensures IsInit(s)
  {
    Sys(Store(Tables(set n | n in users :: UserRow(n), map[], [], [], [], 0), map[], [], []), [], [], map[])
  }

  /** Some run of the protocol, over some users, ends in `s`. */
  ghost predicate Reachable(s: Sys) {
    exists users: set<nat>, actions: seq<Action> :: s == Run(Init(users), actions)
  }
}
