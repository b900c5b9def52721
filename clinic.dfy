/**
 * The clinic's document store as the route handlers use it: the
 * appointment-option, booking, payment and user collections, each an
 * in-memory sequence that the handlers read and that POST /bookings and
 * POST /payments update. Identifiers the store generates come from
 * counters, which keeps them fresh as ObjectIds are.
 */
module Clinic {
  import opened Records
  import Availability
  import Admission
  import Payments

  class Store {
    var options: seq<AppointmentOption>
    var bookings: seq<Booking>
    var payments: seq<Payment>
    var users: seq<User>
    var nextBookingId: Id
    var nextPaymentId: Id

    /** Identifiers are unique and below the next one to be generated, and no
        two bookings share a (date, patient, treatment) key. */
    ghost predicate Valid()
      reads this
    {
      UniqueIds(bookings) &&
      (forall b :: b in bookings ==> b.id < nextBookingId) &&
      (forall i, j :: 0 <= i < j < |payments| ==> payments[i].id != payments[j].id) &&
      (forall q :: q in payments ==> q.id < nextPaymentId) &&
      Admission.OnePerKey(bookings)
    }

    constructor (options: seq<AppointmentOption>, users: seq<User>)
      ensures Valid()
      ensures this.options == options && this.users == users
      ensures bookings == [] && payments == []
    {
      this.options := options;
      this.users := users;
      bookings := [];
      payments := [];
      nextBookingId := 0;
      nextPaymentId := 0;
    }

    /** GET /appointmentOptions?date=`date`: the options are fetched into a
        fresh array whose slots the handler then overwrites; the store itself
        is not modified. */
    method AppointmentOptions(date: Date) returns (response: array<AppointmentOption>)
      ensures fresh(response)
      ensures response[..] == Availability.Availability(options, bookings, date)
    {
      var fetched := options;
      response := new AppointmentOption[|fetched|](i requires 0 <= i < |fetched| => fetched[i]);
      assert response[..] == fetched;
      Availability.OverwriteSlots(response, bookings, date);
    }

    /** POST /bookings, as one atomic insert-if-absent on the booking collection. */
    method PostBooking(request: BookingRequest) returns (result: Admission.AdmissionResult)
      requires Valid()
      modifies this
      ensures Valid()
      ensures var a := Admission.Admit(old(bookings), request, old(nextBookingId));
        bookings == a.bookings && result == a.result
      ensures options == old(options) && payments == old(payments) && users == old(users)
      ensures nextBookingId == old(nextBookingId) + (if result.Inserted? then 1 else 0)
      ensures nextPaymentId == old(nextPaymentId)
    {
      Admission.AdmitKeepsOnePerKey(bookings, request, nextBookingId);
      var alreadyBooked := Admission.Matching(bookings, request);
      if |alreadyBooked| > 0 {
        result := Admission.AlreadyBooked(Admission.ConflictPrefix + request.appointmentDate);
        return;
      }
      bookings := bookings + [NewBooking(nextBookingId, request)];
      result := Admission.Inserted(nextBookingId);
      nextBookingId := nextBookingId + 1;
    }

    /** POST /payments: the payment document is appended, then the booking it
        names is marked paid with its transaction. A payment naming no stored
        booking is appended all the same. */
    method PostPayment(payment: PaymentRequest) returns (insertedId: Id)
      requires Valid()
      modifies this
      ensures Valid()
      ensures insertedId == old(nextPaymentId) && nextPaymentId == old(nextPaymentId) + 1
      ensures payments == old(payments) + [NewPayment(insertedId, payment)]
      ensures bookings == Payments.MarkPaid(old(bookings), payment.bookingId, payment.transactionId)
      ensures options == old(options) && users == old(users)
      ensures nextBookingId == old(nextBookingId)
    {
      insertedId := nextPaymentId;
      payments := payments + [NewPayment(insertedId, payment)];
      nextPaymentId := nextPaymentId + 1;
      Payments.MarkPaidKeepsInvariants(bookings, payment.bookingId, payment.transactionId);
      bookings := Payments.MarkPaid(bookings, payment.bookingId, payment.transactionId);
    }
  }
}
