/**
 What one Redis command, Lua script, SQL statement or SQL transaction does to the state.
 Each function here is one atomic step; `None` is the error return of a call that changed nothing.
 */
module StoreCalls {
  import opened Collections
  import opened Model

  // ----- Redis token counters -----

  function Tokens(tokens: map<EventId, int>, e: EventId): int {
    if e in tokens then tokens[e] else 0
  }

  function ReserveTokens(tokens: map<EventId, int>, e: EventId, n: nat): (bool, map<EventId, int>) {
    if Tokens(tokens, e) >= n
    then (true, tokens[e := Tokens(tokens, e) - n])
    else (false, tokens)
  }

  function ReleaseTokens(tokens: map<EventId, int>, e: EventId, n: int): map<EventId, int> {
    tokens[e := Tokens(tokens, e) + n]
  }

  // ----- events -----

  function BumpReserved(events: map<EventId, Event>, e: EventId, delta: int): map<EventId, Event> {
    if e in events
    then events[e := events[e].(reserved := events[e].reserved + delta)]
    else events
  }

  function SetEventStatus(db: Tables, e: EventId, status: EventStatus): Tables {
    if e in db.events
    then db.(events := db.events[e := db.events[e].(status := status)])
    else db
  }

  // ----- seats -----

  function FreeRow(row: Seat, e: EventId, labels: seq<Label>): Seat {
    if row.event == e && row.seatLabel in labels
    then row.(status := Available, holder := None)
    else row
  }

  function TakeRow(row: Seat, e: EventId, labels: seq<Label>, b: BookingId): Seat {
    if row.event == e && row.seatLabel in labels
    then row.(status := Taken, holder := Some(b))
    else row
  }

  function FreeSeats(seats: seq<Seat>, e: EventId, labels: seq<Label>): seq<Seat> {
    seq(|seats|, i requires 0 <= i < |seats| => FreeRow(seats[i], e, labels))
  }

  function TakeSeats(seats: seq<Seat>, e: EventId, labels: seq<Label>, b: BookingId): seq<Seat> {
    seq(|seats|, i requires 0 <= i < |seats| => TakeRow(seats[i], e, labels, b))
  }

  function FreshSeats(e: EventId, labels: seq<Label>): seq<Seat> {
    seq(|labels|, i requires 0 <= i < |labels| => Seat(e, labels[i], Available, None))
  }

  function IsAvailable(e: EventId): Seat -> bool {
    (row: Seat) => row.event == e && row.status == Available
  }

  function SeatLabels(rows: seq<Seat>): seq<Label> {
    seq(|rows|, i requires 0 <= i < |rows| => rows[i].seatLabel)
  }

  // ----- bookings -----

  /** Whether the unique constraint on (event, idempotency key) refuses this key. */
  predicate DuplicateKey(bookings: seq<Booking>, e: EventId, key: Option<string>) {
    key.Some? && exists i :: 0 <= i < |bookings| && bookings[i].event == e && bookings[i].key == key
  }

  /** The first booking that carries the key, whatever its event. */
  function FindKey(bookings: seq<Booking>, key: string): (r: Option<BookingId>)
    ensures r.Some? ==> r.value < |bookings| && bookings[r.value].key == Some(key)
    ensures r.Some? ==> forall i :: 0 <= i < r.value ==> bookings[i].key != Some(key)
    ensures r.None? ==> forall i :: 0 <= i < |bookings| ==> bookings[i].key != Some(key)
  {
    if bookings == [] then None
    else
      var front := FindKey(bookings[..|bookings| - 1], key);
      if front.Some? then front
      else if bookings[|bookings| - 1].key == Some(key) then Some(|bookings| - 1)
      else None
  }

  /** The new booking's id is the old number of rows; the insert fails on a foreign or unique key. */
  function InsertPending(db: Tables, u: Uuid, e: EventId, key: Option<string>, seats: seq<Label>): Option<Tables> {
    if u !in db.users || e !in db.events || DuplicateKey(db.bookings, e, key) then None
    else Some(db.(bookings := db.bookings + [Booking(u, e, Pending, seats, key, 0, Unpaid)]))
  }

  /** The cancellation transaction; the flag says whether the booking was booked. */
  function CancelTx(db: Tables, b: BookingId): Option<(Tables, bool)> {
    if b >= |db.bookings| then None
    else
      var row := db.bookings[b];
      var cancelled := db.bookings[b := row.(status := Cancelled)];
      if row.status == Booked then
        Some((db.(bookings := cancelled,
                  events := BumpReserved(db.events, row.event, -1),
                  seats := FreeSeats(db.seats, row.event, row.seats)), true))
      else
        Some((db.(bookings := cancelled), false))
  }

  /** The finalization transaction: only the update of the booking row is guarded by its status. */
  function FinalizeTx(db: Tables, b: BookingId, seats: seq<Label>, amount: int): Option<Tables> {
    if b >= |db.bookings| then None
    else
      var row := db.bookings[b];
      var row' := if row.status == Pending
                  then row.(status := Booked, seats := seats, amountPaid := amount, payment := Paid)
                  else row;
      Some(db.(bookings := db.bookings[b := row'],
               seats := TakeSeats(db.seats, row.event, seats, b),
               events := BumpReserved(db.events, row.event, 1)))
  }

  function SetPayment(db: Tables, b: BookingId, payment: PaymentStatus, amount: int): Option<Tables> {
    if b >= |db.bookings| then None
    else Some(db.(bookings := db.bookings[b := db.bookings[b].(payment := payment, amountPaid := amount)]))
  }

  /** The event's bookings, newest first, cut to `limit` rows. */
  function ListByEvent(bookings: seq<Booking>, e: EventId, limit: nat): (ids: seq<BookingId>)
    ensures |ids| <= limit
    ensures forall i :: 0 <= i < |ids| ==> ids[i] < |bookings| && bookings[ids[i]].event == e
    ensures forall i, j :: 0 <= i < j < |ids| ==> ids[j] < ids[i]
    decreases |bookings|
  {
    if bookings == [] || limit == 0 then []
    else
      var last := |bookings| - 1;
      if bookings[last].event == e
      then [last] + ListByEvent(bookings[..last], e, limit - 1)
      else ListByEvent(bookings[..last], e, limit)
  }

  // ----- waitlist -----

  predicate ActiveAt(row: Entry, e: EventId) {
    row.event == e && !row.optedOut
  }

  function ActiveIn(e: EventId): Entry -> bool {
    (row: Entry) => ActiveAt(row, e)
  }

  /** The event's active rows, in the order they were inserted. */
  function Queue(rows: seq<Entry>, e: EventId): seq<Entry> {
    Filter(rows, ActiveIn(e))
  }

  /** COALESCE(MAX(position), 0) over a list of rows. */
  function MaxPosition(rows: seq<Entry>): (m: int)
    ensures rows == [] ==> m == 0
    ensures forall i :: 0 <= i < |rows| ==> rows[i].position <= m
    ensures rows != [] ==> exists i :: 0 <= i < |rows| && rows[i].position == m
  {
    if rows == [] then 0
    else
      var last := rows[|rows| - 1].position;
      if |rows| == 1 then last
      else
        var m := MaxPosition(rows[..|rows| - 1]);
        if last < m then m else last
  }

  function NextPosition(rows: seq<Entry>, e: EventId): int {
    MaxPosition(Queue(rows, e)) + 1
  }

  function InsertEntry(db: Tables, e: EventId, u: Uuid, position: int): Option<Tables> {
    if u !in db.users || e !in db.events then None
    else Some(db.(waitlist := db.waitlist + [Entry(WaitlistRow(db.entriesMade), e, u, position, false)],
                  entriesMade := db.entriesMade + 1))
  }

  function NotEntry(id: Uuid): Entry -> bool {
    (row: Entry) => row.id != id
  }

  function RemoveEntry(db: Tables, id: Uuid): Tables {
    db.(waitlist := Filter(db.waitlist, NotEntry(id)))
  }

  function OptOutRow(row: Entry, e: EventId, u: Option<Uuid>): Entry {
    if row.event == e && (u.None? || u.value == row.user) then row.(optedOut := true) else row
  }

  /** Flags the event's rows of one user, or of every user when `u` is `None`. */
  function OptOutRows(rows: seq<Entry>, e: EventId, u: Option<Uuid>): seq<Entry> {
    seq(|rows|, i requires 0 <= i < |rows| => OptOutRow(rows[i], e, u))
  }

  /** Whether `row` may be returned by the query for the smallest active position. */
  predicate IsNext(rows: seq<Entry>, e: EventId, row: Entry) {
    && row in rows
    && ActiveAt(row, e)
    && forall other :: other in rows && ActiveAt(other, e) ==> row.position <= other.position
  }

  /** The earliest inserted row among those with the smallest active position. */
  function FirstByPosition(rows: seq<Entry>): (r: Option<Entry>)
    ensures r.None? <==> rows == []
    ensures r.Some? ==> r.value in rows && forall other :: other in rows ==> r.value.position <= other.position
  {
    if rows == [] then None
    else
      var last := rows[|rows| - 1];
      var front := FirstByPosition(rows[..|rows| - 1]);
      if front.Some? && front.value.position <= last.position then front else Some(last)
  }

  function NextActive(rows: seq<Entry>, e: EventId): (r: Option<Entry>)
    ensures r.Some? ==> IsNext(rows, e, r.value)
    ensures r.None? <==> Queue(rows, e) == []
  {
    FilterMembers(rows, ActiveIn(e));
    FirstByPosition(Queue(rows, e))
  }

  // ----- administration -----

  function CallOffRow(row: Booking, e: EventId): Booking {
    if row.event == e && Live(row) then row.(status := Cancelled) else row
  }

  function CallOffBookings(bookings: seq<Booking>, e: EventId): seq<Booking> {
    seq(|bookings|, i requires 0 <= i < |bookings| => CallOffRow(bookings[i], e))
  }

  /** The admin's cancellation transaction: no counter, seat or token changes. */
  function CallOffEvent(db: Tables, e: EventId): Tables {
    SetEventStatus(db, e, CalledOff)
    .(bookings := CallOffBookings(db.bookings, e),
      waitlist := OptOutRows(db.waitlist, e, None))
  }
}
