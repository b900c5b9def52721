/**
 * Booking admission of POST /bookings: a patient may hold at most one
 * booking per treatment and date. The slot is not part of that key.
 */
module Admission {
  import opened Records

  /** The conflict key the handler queries: date, patient email and treatment. */
  datatype Key = Key(appointmentDate: Date, email: Email, treatment: string)

  function KeyOf(b: Booking): Key
  {
    Key(b.appointmentDate, b.email, b.treatment)
  }

  function RequestKey(r: BookingRequest): Key
  {
    Key(r.appointmentDate, r.email, r.treatment)
  }

  /** What the handler sends back: the `insertOne` acknowledgement with the
      new identifier, or `{ acknowledged: false, message }`. */
  datatype AdmissionResult = Inserted(insertedId: Id) | AlreadyBooked(message: string)
  {
    predicate Acknowledged() { Inserted? }
  }

  /** The new collection of bookings together with the reply. */
  datatype Outcome = Outcome(bookings: seq<Booking>, result: AdmissionResult)

  const ConflictPrefix: string := "You already have a booking on "

  /** The bookings `find` returns for the request's key, in store order. */
  function Matching(bookings: seq<Booking>, r: BookingRequest): (m: seq<Booking>)
    ensures |m| <= |bookings|
    ensures forall b :: b in m <==> b in bookings && KeyOf(b) == RequestKey(r)
    ensures |m| == 0 <==> forall b :: b in bookings ==> KeyOf(b) != RequestKey(r)
  {
    if bookings == [] then []
    else if KeyOf(bookings[0]) == RequestKey(r) then [bookings[0]] + Matching(bookings[1..], r)
    else Matching(bookings[1..], r)
  }

  /** POST /bookings as one atomic insert-if-absent: `newId` is the
      identifier the store generates for an inserted document. */
  function Admit(bookings: seq<Booking>, r: BookingRequest, newId: Id): (a: Outcome)
    ensures a.result.Acknowledged() <==> forall b :: b in bookings ==> KeyOf(b) != RequestKey(r)
    ensures a.result.Acknowledged() ==>
      a.result.insertedId == newId && a.bookings == bookings + [NewBooking(newId, r)]
    ensures !a.result.Acknowledged() ==>
      a.bookings == bookings &&
      a.result.message == ConflictPrefix + r.appointmentDate
  {
    var alreadyBooked := Matching(bookings, r);
    if |alreadyBooked| > 0 then
      Outcome(bookings, AlreadyBooked(ConflictPrefix + r.appointmentDate))
    else
      Outcome(bookings + [NewBooking(newId, r)], Inserted(newId))
  }

  /** At most one booking per (date, patient, treatment). */
  ghost predicate OnePerKey(bookings: seq<Booking>)
  {
    forall i, j :: 0 <= i < j < |bookings| ==> KeyOf(bookings[i]) != KeyOf(bookings[j])
  }

  /** The number of bookings that hold key `k`. */
  function CountKey(bookings: seq<Booking>, k: Key): (n: nat)
    ensures n <= |bookings|
    ensures n == 0 <==> forall b :: b in bookings ==> KeyOf(b) != k
  {
    if bookings == [] then 0
    else (if KeyOf(bookings[0]) == k then 1 else 0) + CountKey(bookings[1..], k)
  }

  /** Appending a booking adds one to the count of its own key only. */
  lemma {:induction false} CountKeyAppend(bookings: seq<Booking>, b: Booking, k: Key)
    ensures CountKey(bookings + [b], k) == CountKey(bookings, k) + (if KeyOf(b) == k then 1 else 0)
  {
    if bookings != [] {
      assert (bookings + [b])[1..] == bookings[1..] + [b];
      CountKeyAppend(bookings[1..], b, k);
    } else {
      assert [] + [b] == [b];
    }
  }

  /** Admission keeps at most one booking per key. */
  lemma AdmitKeepsOnePerKey(bookings: seq<Booking>, r: BookingRequest, newId: Id)
    requires OnePerKey(bookings)
    ensures OnePerKey(Admit(bookings, r, newId).bookings)
  {
  }

  /** Admission never removes or alters an existing booking. */
  lemma AdmitKeepsExisting(bookings: seq<Booking>, r: BookingRequest, newId: Id)
    ensures |Admit(bookings, r, newId).bookings| >= |bookings|
    ensures Admit(bookings, r, newId).bookings[..|bookings|] == bookings
  {
  }

  /** After a patient's booking for (treatment, date) is admitted, a second
      attempt for the same treatment and date, at whatever slot, is rejected,
      and exactly one booking with that key remains. */
  lemma SecondAttemptRejected(bookings: seq<Booking>, first: BookingRequest, second: BookingRequest,
                              id1: Id, id2: Id)
    requires forall b :: b in bookings ==> KeyOf(b) != RequestKey(first)
    requires RequestKey(second) == RequestKey(first)
    ensures Admit(bookings, first, id1).result == Inserted(id1)
    ensures Admit(Admit(bookings, first, id1).bookings, second, id2).result
         == AlreadyBooked(ConflictPrefix + first.appointmentDate)
    ensures Admit(Admit(bookings, first, id1).bookings, second, id2).bookings
         == bookings + [NewBooking(id1, first)]
    ensures CountKey(bookings + [NewBooking(id1, first)], RequestKey(first)) == 1
  {
    var after := bookings + [NewBooking(id1, first)];
    assert NewBooking(id1, first) in after;
    CountKeyAppend(bookings, NewBooking(id1, first), RequestKey(first));
  }

  /** The slot is not part of the conflict key: whether a request is admitted
      does not depend on the slot it asks for, and a slot already held by
      another patient is no reason to reject. */
  lemma SlotDoesNotDecide(bookings: seq<Booking>, r: BookingRequest, s: Slot, newId: Id)
    ensures Admit(bookings, r, newId).result == Admit(bookings, r.(slot := s), newId).result
  {
  }
}
