/**
 * The availability engine of GET /appointmentOptions: for a date, every
 * appointment option is listed with only those template slots that no
 * booking for that treatment on that date has claimed.
 */
module Availability {
  import opened Records

  /** A booking for treatment `name` on `date` holds slot `s`. */
  ghost predicate Claimed(bookings: seq<Booking>, date: Date, name: string, s: Slot)
  {
    exists b :: b in bookings && b.appointmentDate == date && b.treatment == name && b.slot == s
  }

  /** The bookings the store finds for the query `{ appointmentDate: date }`, in store order. */
  function BookingsOn(bookings: seq<Booking>, date: Date): (r: seq<Booking>)
    ensures |r| <= |bookings|
    ensures forall b :: b in r <==> b in bookings && b.appointmentDate == date
  {
    if bookings == [] then []
    else if bookings[0].appointmentDate == date then [bookings[0]] + BookingsOn(bookings[1..], date)
    else BookingsOn(bookings[1..], date)
  }

  /** The slots held by those of `booked` whose treatment is `name`: the
      `filter` on the treatment name followed by the `map` to the slot. */
  function BookedSlots(booked: seq<Booking>, name: string): (r: seq<Slot>)
    ensures |r| <= |booked|
    ensures forall s :: s in r <==> exists b :: b in booked && b.treatment == name && b.slot == s
  {
    if booked == [] then []
    else if booked[0].treatment == name then [booked[0].slot] + BookedSlots(booked[1..], name)
    else BookedSlots(booked[1..], name)
  }

  /** The template slots not in `booked`, in template order. */
  function RemainingSlots(template: seq<Slot>, booked: seq<Slot>): (r: seq<Slot>)
    ensures |r| <= |template|
    ensures forall s :: s in r <==> s in template && s !in booked
  {
    if template == [] then []
    else if template[0] in booked then RemainingSlots(template[1..], booked)
    else [template[0]] + RemainingSlots(template[1..], booked)
  }

  /** `sub` is `s` with some elements deleted and the others kept in order. */
  predicate Subsequence(sub: seq<Slot>, s: seq<Slot>)
  {
    if s == [] then sub == []
    else (sub != [] && sub[0] == s[0] && Subsequence(sub[1..], s[1..])) || Subsequence(sub, s[1..])
  }

  /** One option as the handler sends it: its slots replaced by the remaining ones. */
  function AvailableOption(option: AppointmentOption, onDate: seq<Booking>): (r: AppointmentOption)
    ensures r.id == option.id && r.name == option.name && r.price == option.price
    ensures forall s :: s in r.slots <==>
      s in option.slots && !exists b :: b in onDate && b.treatment == option.name && b.slot == s
  {
    option.(slots := RemainingSlots(option.slots, BookedSlots(onDate, option.name)))
  }

  /** The response of GET /appointmentOptions?date=`date`. */
  function Availability(options: seq<AppointmentOption>, bookings: seq<Booking>, date: Date)
    : (r: seq<AppointmentOption>)
    ensures |r| == |options|
    ensures forall i :: 0 <= i < |r| ==>
      r[i].id == options[i].id && r[i].name == options[i].name && r[i].price == options[i].price
    ensures forall i, s :: 0 <= i < |r| ==>
      (s in r[i].slots <==> s in options[i].slots && !Claimed(bookings, date, options[i].name, s))
  {
    var onDate := BookingsOn(bookings, date);
    seq(|options|, i requires 0 <= i < |options| => AvailableOption(options[i], onDate))
  }

  /** The handler's loop: it overwrites, option by option and in place, the
      slots of the fetched options with the remaining ones. */
  method OverwriteSlots(options: array<AppointmentOption>, bookings: seq<Booking>, date: Date)
    modifies options
    ensures options[..] == Availability(old(options[..]), bookings, date)
  {
    var alreadyBooked := BookingsOn(bookings, date);
    for i := 0 to options.Length
      invariant forall k :: 0 <= k < i ==> options[k] == AvailableOption(old(options[k]), alreadyBooked)
      invariant forall k :: i <= k < options.Length ==> options[k] == old(options[k])
    {
      var bookedSlots := BookedSlots(alreadyBooked, options[i].name);
      var remainingSlots := RemainingSlots(options[i].slots, bookedSlots);
      options[i] := options[i].(slots := remainingSlots);
    }
  }

  // ----- Lemmas about the slot computation -----

  /** The remaining slots are a subsequence of the template: template order is kept. */
  lemma {:induction false} RemainingIsSubsequence(template: seq<Slot>, booked: seq<Slot>)
    ensures Subsequence(RemainingSlots(template, booked), template)
  {
    if template != [] {
      RemainingIsSubsequence(template[1..], booked);
      if template[0] !in booked {
        var r := RemainingSlots(template, booked);
        assert r[1..] == RemainingSlots(template[1..], booked);
      }
    }
  }

  /** Nothing remains of a template whose every slot is booked. */
  /** Every unbooked slot label keeps all its copies in the template, and a
      booked one keeps none: `filter` drops no duplicate it lets through. */
  lemma {:induction false} RemainingKeepsCopies(template: seq<Slot>, booked: seq<Slot>)
    ensures forall s :: multiset(RemainingSlots(template, booked))[s]
                     == if s in booked then 0 else multiset(template)[s]
  {
    if template != [] {
      RemainingKeepsCopies(template[1..], booked);
      assert template == [template[0]] + template[1..];
      if template[0] !in booked {
        assert RemainingSlots(template, booked) == [template[0]] + RemainingSlots(template[1..], booked);
      }
    }
  }

  /** In the response, each slot label of an option appears as often as in
      its template when unclaimed, and not at all when claimed. */
  lemma AvailableSlotCopies(options: seq<AppointmentOption>, bookings: seq<Booking>,
                            date: Date, i: nat, s: Slot)
    requires i < |options|
    ensures multiset(Availability(options, bookings, date)[i].slots)[s]
         == if Claimed(bookings, date, options[i].name, s) then 0 else multiset(options[i].slots)[s]
  {
    var onDate := BookingsOn(bookings, date);
    var booked := BookedSlots(onDate, options[i].name);
    RemainingKeepsCopies(options[i].slots, booked);
    assert s in booked <==> Claimed(bookings, date, options[i].name, s);
  }

  lemma {:induction false} AllBookedLeavesNothing(template: seq<Slot>, booked: seq<Slot>)
    requires forall s :: s in template ==> s in booked
    ensures RemainingSlots(template, booked) == []
  {
    if template != [] {
      AllBookedLeavesNothing(template[1..], booked);
    }
  }

  /** No booking of the list is on `date`. */
  lemma {:induction false} NoneOnDate(bookings: seq<Booking>, date: Date)
    requires forall b :: b in bookings ==> b.appointmentDate != date
    ensures BookingsOn(bookings, date) == []
  {
    if bookings != [] {
      NoneOnDate(bookings[1..], date);
    }
  }

  /** With nothing booked, the whole template remains. */
  lemma {:induction false} NothingBookedKeepsTemplate(template: seq<Slot>)
    ensures RemainingSlots(template, []) == template
  {
    if template != [] {
      NothingBookedKeepsTemplate(template[1..]);
    }
  }

  /** Subtracting two lists of claimed slots is subtracting one, then the other. */
  lemma {:induction false} RemainingOfConcat(template: seq<Slot>, x: seq<Slot>, y: seq<Slot>)
    ensures RemainingSlots(template, x + y) == RemainingSlots(RemainingSlots(template, x), y)
  {
    if template != [] {
      RemainingOfConcat(template[1..], x, y);
    }
  }

  lemma {:induction false} BookingsOnConcat(a: seq<Booking>, b: seq<Booking>, date: Date)
    ensures BookingsOn(a + b, date) == BookingsOn(a, date) + BookingsOn(b, date)
  {
    if a != [] {
      assert (a + b)[1..] == a[1..] + b;
      BookingsOnConcat(a[1..], b, date);
    } else {
      assert a + b == b;
    }
  }

  lemma {:induction false} BookedSlotsConcat(a: seq<Booking>, b: seq<Booking>, name: string)
    ensures BookedSlots(a + b, name) == BookedSlots(a, name) + BookedSlots(b, name)
  {
    if a != [] {
      assert (a + b)[1..] == a[1..] + b;
      BookedSlotsConcat(a[1..], b, name);
    } else {
      assert a + b == b;
    }
  }

  // ----- Lemmas about the availability response -----

  /** Each option's remaining slots keep the template's order and never outnumber it. */
  lemma AvailableSlotsFollowTemplate(options: seq<AppointmentOption>, bookings: seq<Booking>,
                                     date: Date, i: nat)
    requires i < |options|
    ensures Subsequence(Availability(options, bookings, date)[i].slots, options[i].slots)
    ensures |Availability(options, bookings, date)[i].slots| <= |options[i].slots|
  {
    var onDate := BookingsOn(bookings, date);
    RemainingIsSubsequence(options[i].slots, BookedSlots(onDate, options[i].name));
  }

  /** With no booking on the date, every option keeps its full template. */
  lemma NoBookingsOnDateKeepsTemplates(options: seq<AppointmentOption>, bookings: seq<Booking>,
                                       date: Date)
    requires forall b :: b in bookings ==> b.appointmentDate != date
    ensures Availability(options, bookings, date) == options
  {
    NoneOnDate(bookings, date);
    forall i | 0 <= i < |options|
      ensures Availability(options, bookings, date)[i] == options[i]
    {
      NothingBookedKeepsTemplate(options[i].slots);
    }
  }

  /** A fully booked option is still listed, with an empty slot list. */
  lemma FullyBookedOptionListedEmpty(options: seq<AppointmentOption>, bookings: seq<Booking>,
                                     date: Date, i: nat)
    requires i < |options|
    requires forall s :: s in options[i].slots ==> Claimed(bookings, date, options[i].name, s)
    ensures |Availability(options, bookings, date)| == |options|
    ensures Availability(options, bookings, date)[i].name == options[i].name
    ensures Availability(options, bookings, date)[i].slots == []
  {
    var booked := BookedSlots(BookingsOn(bookings, date), options[i].name);
    AllBookedLeavesNothing(options[i].slots, booked);
  }

  /** A booking made for another date, or for another treatment, never
      removes a slot from an option. */
  lemma UnrelatedBookingKeepsOption(options: seq<AppointmentOption>, bookings: seq<Booking>,
                                    b: Booking, date: Date, i: nat)
    requires i < |options|
    requires b.appointmentDate != date || b.treatment != options[i].name
    ensures Availability(options, bookings + [b], date)[i] == Availability(options, bookings, date)[i]
  {
    var name := options[i].name;
    BookingsOnConcat(bookings, [b], date);
    BookedSlotsConcat(BookingsOn(bookings, date), BookingsOn([b], date), name);
    if b.appointmentDate == date {
      assert BookedSlots(BookingsOn([b], date), name) == [];
    }
    assert BookedSlots(BookingsOn(bookings + [b], date), name) == BookedSlots(BookingsOn(bookings, date), name);
  }

  /** A booking for an option's treatment on the date removes exactly its
      own slot from that option's remaining slots, and nothing else. */
  lemma BookingTakesItsSlot(options: seq<AppointmentOption>, bookings: seq<Booking>,
                            b: Booking, date: Date, i: nat)
    requires i < |options|
    requires b.appointmentDate == date && b.treatment == options[i].name
    ensures Availability(options, bookings + [b], date)[i].slots
         == RemainingSlots(Availability(options, bookings, date)[i].slots, [b.slot])
    ensures b.slot !in Availability(options, bookings + [b], date)[i].slots
  {
    var name := options[i].name;
    BookingsOnConcat(bookings, [b], date);
    BookedSlotsConcat(BookingsOn(bookings, date), BookingsOn([b], date), name);
    assert BookedSlots(BookingsOn([b], date), name) == [b.slot];
    RemainingOfConcat(options[i].slots, BookedSlots(BookingsOn(bookings, date), name), [b.slot]);
  }
}
