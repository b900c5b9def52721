/**
 * Payment reconciliation: the charge amount of POST /create-payment-intent
 * and the booking update of POST /payments.
 */
module Payments {
  import opened Records
  import Admission

  const Currency: string := "usd"
  const CardMethod: string := "card"

  /** What the handler asks the payment gateway to create. */
  datatype IntentRequest = IntentRequest(currency: string, amount: int, paymentMethodTypes: seq<string>)

  /** The amount charged, in cents, for a price in dollars. */
  function ChargeAmount(price: int): (amount: int)
    ensures amount % 100 == 0 && amount / 100 == price
  {
    price * 100
  }

  /** The charge intent requested for a booking of price `price`. */
  function PaymentIntent(price: int): (q: IntentRequest)
    ensures q.currency == Currency && q.paymentMethodTypes == [CardMethod]
    ensures q.amount / 100 == price && q.amount % 100 == 0
  {
    IntentRequest(Currency, ChargeAmount(price), [CardMethod])
  }

  /** A booking after `$set: { paid: true, transactionId }`. */
  function Paid(b: Booking, transactionId: string): (r: Booking)
    ensures r.paid && r.transactionId == Some(transactionId)
    ensures r.(paid := b.paid, transactionId := b.transactionId) == b
  {
    b.(paid := true, transactionId := Some(transactionId))
  }

  /** Index `i` holds the first booking whose identifier is `id`. */
  ghost predicate FirstWithId(bookings: seq<Booking>, i: int, id: Id)
  {
    0 <= i < |bookings| && bookings[i].id == id &&
    forall j :: 0 <= j < i ==> bookings[j].id != id
  }

  /** `updateOne({ _id: bookingId }, $set)`: the first booking with that
      identifier is marked paid with the transaction; nothing else changes. */
  function MarkPaid(bookings: seq<Booking>, bookingId: Id, transactionId: string): (r: seq<Booking>)
    ensures |r| == |bookings|
    ensures forall i :: 0 <= i < |r| ==> r[i] == bookings[i] || r[i] == Paid(bookings[i], transactionId)
    ensures forall i :: 0 <= i < |r| && bookings[i].id != bookingId ==> r[i] == bookings[i]
    ensures forall i :: FirstWithId(bookings, i, bookingId) ==> r[i] == Paid(bookings[i], transactionId)
  {
    if bookings == [] then []
    else if bookings[0].id == bookingId then [Paid(bookings[0], transactionId)] + bookings[1..]
    else
      assert forall i :: FirstWithId(bookings, i, bookingId) ==> FirstWithId(bookings[1..], i - 1, bookingId);
      [bookings[0]] + MarkPaid(bookings[1..], bookingId, transactionId)
  }

  /** The booking `updateOne` matches is the first with the identifier: it is
      marked paid, and every booking after it is left as it was. */
  lemma {:induction false} MarkPaidUpdatesFirst(bookings: seq<Booking>, bookingId: Id,
                                                 transactionId: string, i: nat)
    requires FirstWithId(bookings, i, bookingId)
    ensures MarkPaid(bookings, bookingId, transactionId)[i] == Paid(bookings[i], transactionId)
    ensures forall j :: i < j < |bookings| ==> MarkPaid(bookings, bookingId, transactionId)[j] == bookings[j]
  {
    var r := MarkPaid(bookings, bookingId, transactionId);
    if i == 0 {
      assert r == [Paid(bookings[0], transactionId)] + bookings[1..];
    } else {
      assert bookings[0].id != bookingId;
      assert FirstWithId(bookings[1..], i - 1, bookingId);
      MarkPaidUpdatesFirst(bookings[1..], bookingId, transactionId, i - 1);
      assert r == [bookings[0]] + MarkPaid(bookings[1..], bookingId, transactionId);
    }
  }

  /** With unique identifiers, the payment marks exactly the named booking
      paid and leaves every other booking as it was. */
  lemma PaymentTouchesOnlyNamedBooking(bookings: seq<Booking>, bookingId: Id, transactionId: string, i: nat)
    requires UniqueIds(bookings)
    requires i < |bookings|
    ensures bookings[i].id == bookingId ==>
      MarkPaid(bookings, bookingId, transactionId)[i] == Paid(bookings[i], transactionId)
    ensures bookings[i].id != bookingId ==>
      MarkPaid(bookings, bookingId, transactionId)[i] == bookings[i]
  {
    if bookings[i].id == bookingId {
      assert FirstWithId(bookings, i, bookingId);
      MarkPaidUpdatesFirst(bookings, bookingId, transactionId, i);
    }
  }

  /** A payment naming no stored booking leaves the bookings unchanged. */
  lemma UnknownBookingUnchanged(bookings: seq<Booking>, bookingId: Id, transactionId: string)
    requires forall b :: b in bookings ==> b.id != bookingId
    ensures MarkPaid(bookings, bookingId, transactionId) == bookings
  {
  }

  /** Marking paid keeps every identifier and every conflict key, so it keeps
      both store invariants. */
  lemma MarkPaidKeepsInvariants(bookings: seq<Booking>, bookingId: Id, transactionId: string)
    requires UniqueIds(bookings) && Admission.OnePerKey(bookings)
    ensures UniqueIds(MarkPaid(bookings, bookingId, transactionId))
    ensures Admission.OnePerKey(MarkPaid(bookings, bookingId, transactionId))
  {
  }

  /** A second confirmation for the same booking leaves it as the second
      alone would: the later transaction identifier overwrites the earlier
      one, and with the same identifier the bookings do not change again
      (the payment log still grows by one record each time). */
  lemma {:induction false} LaterPaymentWins(bookings: seq<Booking>, bookingId: Id,
                                            first: string, second: string)
    ensures MarkPaid(MarkPaid(bookings, bookingId, first), bookingId, second)
         == MarkPaid(bookings, bookingId, second)
  {
    if bookings != [] {
      var once := MarkPaid(bookings, bookingId, first);
      if bookings[0].id == bookingId {
        assert once == [Paid(bookings[0], first)] + bookings[1..];
        assert once[1..] == bookings[1..];
      } else {
        LaterPaymentWins(bookings[1..], bookingId, first, second);
        assert once[1..] == MarkPaid(bookings[1..], bookingId, first);
      }
    }
  }
}
