# Doctors portal server: a Dafny model of its scheduling core

The server (`index.js`) is an Express application over a MongoDB database
with five collections (appointment options, bookings, users, doctors,
payments) and a Stripe account. This project models the logic that sits
inside its route handlers, with every collection an in-memory sequence:

- **Availability** (`availability.dfy`): GET /appointmentOptions. For a
  date, every appointment option is listed, and its slot template is cut
  down to the slots that no booking for that treatment name on that date
  holds. The handler's `forEach` loop, which overwrites each fetched
  option's `slots` in place, is the method `OverwriteSlots` over an array.
  It is proved against the function `Availability`.
- **Booking admission** (`admission.dfy`): POST /bookings. A request is
  rejected with `{ acknowledged: false, message }` when a booking with the
  same date, email and treatment exists. The slot is not part of that key.
  Otherwise the request is inserted. The check and the insert form one
  atomic insert-if-absent, `Admit`.
- **Payment reconciliation** (`payments.dfy`): the charge amount of POST
  /create-payment-intent (`price * 100` cents in "usd"). It also covers the
  `updateOne` of POST /payments, which marks the booking paid with the
  transaction identifier.
- **Access decisions** (`access.dfy`): the `verifyJWT` middleware (401
  without a header, 403 for a bad token) and the `verifyAdmin` middleware
  (403 unless the user found by the token's email has role 'admin'). It also
  covers the own-bookings check of GET /bookings, token issuance at GET /jwt
  (a token for a registered email, otherwise the "You have No AccessToken"
  sentinel with status 403) and GET /users/admin/:email. The split of the
  `Authorization` header is JavaScript's `split(' ')`. Signing and
  verifying a token are the function parameters `sign` and `decode`.
- **The store** (`clinic.dfy`): a class whose fields are the collections.
  Its methods are the two writing handlers and the availability handler.
  Its invariant is that identifiers are unique and that no two bookings share
  a (date, email, treatment) key. Only admission inserts bookings, so the
  key invariant holds.
- `records.dfy` holds the documents as datatypes.

Where the code does something other than a careful reader would expect,
the model follows the code:

- A payment naming no booking would be expected to be rejected or rolled
  back. The code appends it anyway and then updates nothing
  (`UnknownBookingUnchanged`).
- A repeated confirmation would be expected to be de-duplicated. The code
  appends another payment record each time. On the booking, the later
  confirmation's transaction identifier overwrites the earlier one, and a
  repeat with the same identifier changes nothing further
  (`LaterPaymentWins`).
- One would expect no slot to be claimed twice on a date. Admission does
  not check the slot, so a slot already held by another patient, or one
  that is not in the template, is admitted (`SlotDoesNotDecide`). That
  property is therefore not claimed here.

## Model

| member | source | states |
|---|---|---|
| Records.NewBooking | index.js:175 | the stored booking carries exactly the posted fields under the generated id, and is not paid and has no transaction id |
| Records.NewPayment | index.js:200 | the stored payment carries exactly the posted fields under the generated id |
| Availability.AvailableOption | index.js:75-78 | one option keeps its id, name and price. A slot remains exactly when it is in its template and no booking of the date's list for its name holds it |
| Availability.Availability | index.js:68-82 | every option is listed once, with its id, name and price. A slot remains exactly when it is in the option's template and no booking on that date for that treatment name holds it |
| Availability.OverwriteSlots | index.js:74-80 | overwriting each option's slots in place, option by option, leaves the array equal to the availability response for the fetched options |
| Availability.BookingsOn | index.js:72-73 | the bookings found for the date are exactly the stored bookings on that date |
| Availability.BookedSlots | index.js:75-76 | a slot is in the booked list exactly when some booking for that treatment name holds it |
| Availability.RemainingSlots | index.js:77 | a slot remains exactly when it is in the template and not booked, and no more slots remain than the template has |
| Availability.RemainingIsSubsequence | index.js:77 | the remaining slots are a subsequence of the template, so the template order is kept |
| Availability.RemainingKeepsCopies | index.js:77 | a slot label not booked keeps as many copies as the template has, and a booked one keeps none, so duplicate template slots survive the filter |
| Availability.AvailableSlotCopies | index.js:74-78 | in the response, each slot label of an option occurs as often as in its template when no booking on the date for that name holds it, and not at all otherwise |
| Availability.AllBookedLeavesNothing | index.js:77 | when every template slot is booked, no slot remains |
| Availability.NothingBookedKeepsTemplate | index.js:77 | with nothing booked, the whole template remains |
| Availability.RemainingOfConcat | index.js:76-77 | subtracting two booked lists at once is subtracting one and then the other |
| Availability.AvailableSlotsFollowTemplate | index.js:74-78 | each listed option's slots are a subsequence of its template and never outnumber it |
| Availability.NoBookingsOnDateKeepsTemplates | index.js:71-81 | with no booking on the date, the response is the catalog unchanged |
| Availability.FullyBookedOptionListedEmpty | index.js:74-81 | a fully booked option is still listed under its name, with an empty slot list |
| Availability.UnrelatedBookingKeepsOption | index.js:72-75 | adding a booking for another date, or for another treatment name, leaves an option's listing unchanged |
| Availability.BookingTakesItsSlot | index.js:72-78 | adding a booking for the option's treatment on the date removes exactly that booking's slot from the listing |
| Admission.Matching | index.js:163-169 | the bookings found are exactly those with the request's date, email and treatment. None are found exactly when no booking has that key |
| Admission.Admit | index.js:160-177 | the request is admitted exactly when no booking has its (date, email, treatment) key. Admission appends the new booking with the new id. Rejection leaves the bookings unchanged, with the message "You already have a booking on " followed by the date |
| Admission.AdmitKeepsOnePerKey | index.js:169-175 | admission keeps at most one booking per (date, email, treatment) key |
| Admission.AdmitKeepsExisting | index.js:175 | admission never removes or alters an existing booking |
| Admission.CountKeyAppend | index.js:175 | appending a booking raises the count for its key by one and leaves the other keys' counts alone |
| Admission.SecondAttemptRejected | index.js:163-176 | after a first booking for a key is admitted, a second attempt with the same key, at any slot, is rejected with the date in its message. Exactly one booking with that key remains |
| Admission.SlotDoesNotDecide | index.js:163-167 | the outcome of admission does not depend on the requested slot |
| Payments.ChargeAmount | index.js:182-183 | the amount is a whole number of hundreds of cents that divides back to the price |
| Payments.PaymentIntent | index.js:180-191 | the intent is requested in "usd" for card payments, for the price times 100 |
| Payments.Paid | index.js:203-208 | the booking is paid with the transaction id, and no other field changes |
| Payments.MarkPaid | index.js:201-209 | the update keeps the number of bookings. The first booking with the payment's booking id is set paid with the transaction id. Each booking is either unchanged or changed only in that way, and every booking with another id is unchanged |
| Payments.MarkPaidUpdatesFirst | index.js:202-209 | the first booking with the payment's booking id is set paid with the transaction id, and every booking after it is unchanged |
| Payments.PaymentTouchesOnlyNamedBooking | index.js:201-209 | with unique ids, the named booking is marked paid and every other booking is unchanged |
| Payments.UnknownBookingUnchanged | index.js:199-210 | a payment naming no stored booking changes no booking |
| Payments.MarkPaidKeepsInvariants | index.js:203-209 | the update keeps every id and every conflict key, so both store invariants hold afterwards |
| Payments.LaterPaymentWins | index.js:203-209 | two confirmations for the same booking leave the bookings as the second one alone would. The later transaction id overwrites the earlier, and repeating the same one changes nothing |
| Access.Split | index.js:33 | splitting on a space gives at least one field, and exactly one when there is no space. No field contains a space, and joining the fields again gives back the header |
| Access.SplitOneField | index.js:33 | a string without a space splits into itself alone |
| Access.SplitJoin | index.js:33 | splitting undoes joining fields that contain no space |
| Access.BearerToken | index.js:33 | there is no token exactly when the header has no space, and a token contains no space |
| Access.BearerTokenOf | index.js:33 | from a header `<scheme> <token>`, the token is extracted whatever the scheme word is |
| Access.VerifyJWT | index.js:27-42 | a missing or empty header gives 401. A header without a token, or with a token that does not decode, gives 403. Otherwise the decoded email is passed on |
| Access.FindUser | index.js:56-58 | no user is found exactly when no user has the email. Otherwise the first user with that email is found |
| Access.UserIsAdmin | index.js:61 | the check holds exactly when the first user with the email has role 'admin' |
| Access.VerifyAdmin | index.js:53-65 | the route proceeds exactly when the first user with the decoded email has role 'admin'. Otherwise, including when there is no such user, it answers 403 |
| Access.AdminRoute | index.js:278-282 | the chained middlewares give 401 exactly when the header is missing or empty, and 200 exactly when the token decodes to the email of an admin. Every other case gives 403 |
| Access.IsAdmin | index.js:227-232 | isAdmin holds exactly when the first user with the email has role 'admin', the same test `verifyAdmin` makes |
| Access.BookingsOf | index.js:147-148 | the bookings listed are exactly the stored bookings with that email |
| Access.OwnBookings | index.js:139-150 | a listing is sent exactly when the query email equals the token's email, and it holds exactly that patient's bookings |
| Access.IssueToken | index.js:214-224 | a token is issued exactly when a user with the email exists, and the token is the one signed for that email. The status is 403 exactly when no token is issued, and then the sentinel is sent |
| Access.IssuedTokenAuthenticates | index.js:218-220 | the issued token is sent back as `Bearer <token>`. `verifyJWT` then authenticates the same email, provided decoding undoes signing |
| Access.UnregisteredGetsSentinel | index.js:222-223 | an unregistered email gets the "You have No AccessToken" sentinel with status 403, and no token |
| Access.SecondField | index.js:33 | for a header `<scheme> <word> <rest>`, the token is `word` |
| Access.SentinelPresentsYou | index.js:33-38 | the sentinel sent back as `Bearer You have No AccessToken` presents the token "You". The request gets 403 whenever "You" does not decode |
| Clinic.Store.Valid | index.js:160-211 | the store invariant: booking and payment ids are unique and below the next generated id, and no two bookings share a (date, email, treatment) key |
| Clinic.Store.constructor | index.js:46-50 | the store starts with the given options and users, and with no bookings and no payments |
| Clinic.Store.AppointmentOptions | index.js:68-82 | the response is the availability of the stored options against the stored bookings for the date. The store is left unmodified |
| Clinic.Store.PostBooking | index.js:160-177 | the new bookings and the reply are those of `Admit` under the next generated id, which is consumed only on insertion. The other collections are unchanged and the store invariant is kept |
| Clinic.Store.PostPayment | index.js:198-211 | exactly one payment record is appended under the next generated id, which is returned and consumed. The bookings become `MarkPaid` of the old ones for the payment's booking and transaction. The other collections are unchanged and the store invariant is kept |

## Left out

- Express routing, CORS, JSON parsing, logging and `app.listen` (index.js:1-14, 303-311): transport and I/O.
- The MongoDB connection (index.js:16-25, 46-50). The collections are sequences held by `Clinic.Store`. Store generated ObjectIds are counters.
- JWT cryptography and the 4-hour expiry (index.js:35, 219). `jwt.verify` is the parameter `decode` and `jwt.sign` is the parameter `sign`.
- The Stripe `paymentIntents.create` call and its client secret (index.js:185-194): a foreign network call. Only the request it is given is modelled (`PaymentIntent`).
- Payments.ChargeAmount: prices are whole numbers here. A fractional JavaScript price times 100 can give a non-integral amount, and that case is not modelled.
- GET /v2/appointmentOptions (index.js:84-129): its `$setDifference` is database-server semantics and does not guarantee order or keep duplicates. As a set it agrees with `Availability`, but this is not proved here.
- ObjectId parsing failures for malformed ids (index.js:154, 202, 252, 294): library behaviour. Ids are natural numbers.
- Pass-through routes with no logic: listing and inserting users (index.js:235-247), doctors CRUD (index.js:278-297, apart from the middleware chain modelled by `AdminRoute`), the treatment-name projection (index.js:132-136), GET /bookings/:id (index.js:152-157), and the upsert that promotes a user to admin (index.js:250-261).
- Concurrency. Two requests are not interleaved: admission is one atomic insert-if-absent, and a payment's insert and update happen as one step. The check-then-insert race of the code is therefore not represented.
- Missing query parameters for the date (GET /appointmentOptions) and for the email (GET /jwt), which MongoDB then matches against `null`. The date and email are always strings here. The own-bookings query email may be missing, which is refused with 403.
- Records.NewBooking: the posted booking body is taken to carry only the treatment, date, slot, email and price. The code stores the body as sent (index.js:161, 175), so a client-supplied `paid`, `transactionId` or `_id` would be stored as given. A booking could then be paid without any payment record. A duplicate `_id` makes `insertOne` throw and leaves the request unanswered, which `Admission.Admit` does not cover.
- Records.NewPayment: the posted payment body is taken to carry only the booking id, transaction id, price and email. The code stores it as sent (index.js:199-200), so a client-supplied `_id` would be used as the payment's id, and a duplicate one makes `insertOne` throw.
- Document fields the core does not read (patient name, phone, doctor data) are omitted from the datatypes.
