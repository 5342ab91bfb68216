/** The rows of the ticketing store and the state the services share. */
module Model {
  import opened Collections

  type EventId = nat
  type BookingId = nat   // bookings are never deleted, so a booking's id is its row number
  type Label = string

  /** A UUID, tagged by the table whose row it names: UUIDs of different tables never collide. */
  datatype Uuid = UserRow(n: nat) | WaitlistRow(n: nat)

  datatype BookingStatus = Pending | Booked | Cancelled
  datatype PaymentStatus = Unpaid | Paid | Refunded

  datatype Booking = Booking(
    user: Uuid,
    event: EventId,
    status: BookingStatus,
    seats: seq<Label>,
    key: Option<string>,
    amountPaid: int,
    payment: PaymentStatus
  )

  datatype SeatStatus = Available | Held | Taken

  datatype Seat = Seat(event: EventId, seatLabel: Label, status: SeatStatus, holder: Option<BookingId>)

  datatype EventStatus = Upcoming | Ongoing | CalledOff | Expired

  datatype Event = Event(
    capacity: nat,
    reserved: int,
    price: int,
    fee: int,
    maxTickets: int,
    endTime: int,
    status: EventStatus
  )

  datatype Entry = Entry(id: Uuid, event: EventId, user: Uuid, position: int, optedOut: bool)

  /** The Postgres tables. `entriesMade` numbers the waitlist rows ever inserted. */
  datatype Tables = Tables(
    users: set<Uuid>,
    events: map<EventId, Event>,
    bookings: seq<Booking>,
    seats: seq<Seat>,
    waitlist: seq<Entry>,
    entriesMade: nat
  )

  datatype Charge = Charge(booking: BookingId, event: EventId, amount: int)

  datatype RefundKind = Individual | WholeEvent

  /** A refund as sent to the provider; `paid` is the amount the booking had paid. */
  datatype Refund = Refund(booking: BookingId, event: EventId, amount: int, paid: int, kind: RefundKind)

  /** Everything the services can change: tables, Redis counters and what the payment provider saw. */
  datatype Store = Store(
    db: Tables,
    tokens: map<EventId, int>,
    charges: seq<Charge>,
    refunds: seq<Refund>
  )

  predicate Live(b: Booking) {
    b.status != Cancelled
  }

  /** The labels a payment books: an empty list falls back to one default seat. */
  function Effective(seats: seq<Label>): (r: seq<Label>)
    ensures r != []
    ensures seats != [] ==> r == seats
    ensures seats == [] ==> |r| == 1
  {
    if seats == [] then ["seat1"] else seats
  }

  /** The number of tokens a cancellation returns for a seat list. */
  function SeatCount(seats: seq<Label>): (n: nat)
    ensures n == |Effective(seats)|
  {
    if |seats| == 0 then 1 else |seats|
  }
}
