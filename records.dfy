/**
 * The documents of the clinic's five collections, as the route handlers of
 * index.js read and write them. Every string field is a JavaScript string,
 * compared with `===`; identifiers generated by the store (MongoDB ObjectIds)
 * are natural numbers here.
 */
module Records {

  datatype Option<+T> = None | Some(value: T)

  type Date = string
  type Email = string
  type Slot = string
  type Id = nat

  /** A document of the `Appointment-Options` collection: one treatment with
      its price and its daily slot template. */
  datatype AppointmentOption = AppointmentOption(
    id: Id,
    name: string,
    price: int,
    slots: seq<Slot>)

  /** The body a patient posts to create a booking, taken to carry only
      these fields (no `_id`, `paid` or `transactionId`). */
  datatype BookingRequest = BookingRequest(
    treatment: string,
    appointmentDate: Date,
    slot: Slot,
    email: Email,
    price: int)

  /** A document of the `bookings` collection. A stored booking is the posted
      body plus the identifier the store generated. For a body of the fields
      above, `paid` and `transactionId` are absent (false and None) until a
      payment sets them. */
  datatype Booking = Booking(
    id: Id,
    treatment: string,
    appointmentDate: Date,
    slot: Slot,
    email: Email,
    price: int,
    paid: bool,
    transactionId: Option<string>)

  /** The body a client posts once the card charge has been confirmed, taken
      to carry only these fields (no `_id`). */
  datatype PaymentRequest = PaymentRequest(
    bookingId: Id,
    transactionId: string,
    price: int,
    email: Email)

  /** A document of the `payments` collection. */
  datatype Payment = Payment(
    id: Id,
    bookingId: Id,
    transactionId: string,
    price: int,
    email: Email)

  /** A document of the `users` collection; `role` is absent for patients. */
  datatype User = User(id: Id, email: Email, role: Option<string>)

  const AdminRole: string := "admin"

  /** The posted fields of a stored booking. */
  function RequestOf(b: Booking): BookingRequest
  {
    BookingRequest(b.treatment, b.appointmentDate, b.slot, b.email, b.price)
  }

  /** The posted fields of a stored payment. */
  function PaymentRequestOf(q: Payment): PaymentRequest
  {
    PaymentRequest(q.bookingId, q.transactionId, q.price, q.email)
  }

  /** The document `insertOne` stores for a posted booking: the posted body
      under the generated identifier, not yet paid. */
  function NewBooking(id: Id, r: BookingRequest): (b: Booking)
    ensures RequestOf(b) == r && b.id == id
    ensures !b.paid && b.transactionId == None
  {
    Booking(id, r.treatment, r.appointmentDate, r.slot, r.email, r.price, false, None)
  }

  /** The document `insertOne` stores for a posted payment: the posted body
      under the generated identifier. */
  function NewPayment(id: Id, p: PaymentRequest): (q: Payment)
    ensures PaymentRequestOf(q) == p && q.id == id
  {
    Payment(id, p.bookingId, p.transactionId, p.price, p.email)
  }

  /** Every booking identifier occurs at most once (generated ObjectIds are unique). */
  ghost predicate UniqueIds(bs: seq<Booking>)
  {
    forall i, j :: 0 <= i < j < |bs| ==> bs[i].id != bs[j].id
  }
}
