/**
 * The access decisions of index.js: the `verifyJWT` and `verifyAdmin`
 * middlewares, the own-bookings email check, GET /jwt (token issuance) and
 * GET /users/admin/:email. Signing and verifying a token are cryptography
 * outside this model: they are the parameters `sign` and `decode`.
 */
module Access {
  import opened Records

  // ----- The Authorization header -----

  /** JavaScript's `s.split(sep)` for a one-character separator: the fields
      between separators, empty ones included. */
  function Split(s: string, sep: char): (parts: seq<string>)
    ensures |parts| >= 1
    ensures forall k :: 0 <= k < |parts| ==> sep !in parts[k]
    ensures Join(parts, sep) == s
    ensures |parts| == 1 <==> sep !in s
  {
    if s == [] then [[]]
    else
      var rest := Split(s[1..], sep);
      if s[0] == sep then [[]] + rest
      else
        var parts := [[s[0]] + rest[0]] + rest[1..];
        assert parts[1..] == rest[1..];
        parts
  }

  /** The fields glued back together with the separator between them. */
  function Join(parts: seq<string>, sep: char): string
    requires |parts| >= 1
  {
    if |parts| == 1 then parts[0] else parts[0] + [sep] + Join(parts[1..], sep)
  }

  /** A string without the separator is one field. */
  lemma SplitOneField(s: string, sep: char)
    requires sep !in s
    ensures Split(s, sep) == [s]
  {
  }

  /** Splitting a string that starts with the separator. */
  lemma SplitAtSeparator(s: string, sep: char)
    ensures Split([sep] + s, sep) == [[]] + Split(s, sep)
  {
  }

  /** Splitting a string that starts with another character. */
  lemma SplitAtOther(c: char, s: string, sep: char)
    requires c != sep
    ensures Split([c] + s, sep) == [[c] + Split(s, sep)[0]] + Split(s, sep)[1..]
  {
  }

  /** A field without the separator, then the separator, then the rest:
      the field comes out first and the rest splits on its own. */
  lemma {:induction false} SplitAfterField(field: string, s: string, sep: char)
    requires sep !in field
    ensures Split(field + [sep] + s, sep) == [field] + Split(s, sep)
  {
    if field == [] {
      assert field + [sep] + s == [sep] + s;
      SplitAtSeparator(s, sep);
    } else {
      var c, tail := field[0], field[1..];
      assert sep !in tail by { assert forall x :: x in tail ==> x in field; }
      SplitAfterField(tail, s, sep);
      assert field + [sep] + s == [c] + (tail + [sep] + s);
      SplitAtOther(c, tail + [sep] + s, sep);
      assert [c] + tail == field;
    }
  }

  /** Splitting undoes joining fields that hold no separator. */
  lemma {:induction false} SplitJoin(parts: seq<string>, sep: char)
    requires |parts| >= 1
    requires forall k :: 0 <= k < |parts| ==> sep !in parts[k]
    ensures Split(Join(parts, sep), sep) == parts
  {
    if |parts| == 1 {
      SplitOneField(parts[0], sep);
    } else {
      var tail := parts[1..];
      assert forall k :: 0 <= k < |tail| ==> sep !in tail[k] by {
        assert forall k :: 0 <= k < |tail| ==> tail[k] == parts[k + 1];
      }
      SplitJoin(tail, sep);
      SplitAfterField(parts[0], Join(tail, sep), sep);
      assert parts == [parts[0]] + tail;
    }
  }

  /** `authHeader.split(' ')[1]`: the second space-separated field, or
      nothing (JavaScript's `undefined`) when the header has no space. */
  function BearerToken(header: string): (token: Option<string>)
    ensures token.None? <==> ' ' !in header
    ensures token.Some? ==> ' ' !in token.value
  {
    var parts := Split(header, ' ');
    if |parts| >= 2 then Some(parts[1]) else None
  }

  /** For a header `<scheme> <token>` as section 2.1 of RFC 6750 lays it out,
      the token is extracted; the scheme word itself is never checked. */
  lemma BearerTokenOf(scheme: string, token: string)
    requires ' ' !in scheme && ' ' !in token
    ensures BearerToken(scheme + " " + token) == Some(token)
  {
    SplitJoin([scheme, token], ' ');
    assert Join([scheme, token], ' ') == scheme + " " + token;
  }

  // ----- verifyJWT -----

  /** The outcome of `verifyJWT`: 401 without a header, 403 for a token that
      does not verify, otherwise the decoded email is handed to the route. */
  datatype AuthOutcome = NoCredential | BadCredential | Authenticated(email: Email)
  {
    function Status(): int
    {
      match this
      case NoCredential => 401
      case BadCredential => 403
      case Authenticated(_) => 200
    }
  }

  /** `!authHeader`: the header is missing or is the empty string. */
  predicate Falsy(header: Option<string>)
  {
    header == None || header == Some("")
  }

  /** `verifyJWT`. `decode(token)` stands for `jwt.verify` with the server's
      secret: the email the token was signed for, or failure. A header with
      no space yields no token, which `jwt.verify` rejects. */
  function VerifyJWT(header: Option<string>, decode: string -> Option<Email>): (o: AuthOutcome)
    ensures o.NoCredential? <==> Falsy(header)
    ensures o.Status() == 401 <==> Falsy(header)
    ensures o.Status() == 403 <==>
      (!Falsy(header) &&
       (BearerToken(header.value).None? || decode(BearerToken(header.value).value).None?))
    ensures o.Authenticated? ==>
      header.Some? && BearerToken(header.value).Some? &&
      decode(BearerToken(header.value).value) == Some(o.email)
  {
    if Falsy(header) then NoCredential
    else
      match BearerToken(header.value)
      case None => BadCredential
      case Some(token) =>
        match decode(token)
        case None => BadCredential
        case Some(email) => Authenticated(email)
  }

  // ----- Users and the admin role -----

  /** Index `i` holds the first user with `email`: the one `findOne` returns. */
  ghost predicate FirstWithEmail(users: seq<User>, i: int, email: Email)
  {
    0 <= i < |users| && users[i].email == email &&
    forall j :: 0 <= j < i ==> users[j].email != email
  }

  /** `usersCollection.findOne({ email })`. */
  function FindUser(users: seq<User>, email: Email): (u: Option<User>)
    ensures u.None? <==> forall i :: 0 <= i < |users| ==> users[i].email != email
    ensures u.Some? ==> exists i :: FirstWithEmail(users, i, email) && u == Some(users[i])
    ensures forall i :: FirstWithEmail(users, i, email) ==> u == Some(users[i])
  {
    if users == [] then None
    else if users[0].email == email then
      assert FirstWithEmail(users, 0, email);
      Some(users[0])
    else
      var u := FindUser(users[1..], email);
      assert forall i :: FirstWithEmail(users, i, email) ==> FirstWithEmail(users[1..], i - 1, email);
      assert forall i :: FirstWithEmail(users[1..], i, email) ==> FirstWithEmail(users, i + 1, email);
      u
  }

  /** The user `findOne` returns for `email` exists and has role 'admin'. */
  ghost predicate HasAdminRole(users: seq<User>, email: Email)
  {
    exists i :: FirstWithEmail(users, i, email) && users[i].role == Some(AdminRole)
  }

  /** `user?.role === 'admin'` for the user found by email. */
  function UserIsAdmin(users: seq<User>, email: Email): (r: bool)
    ensures r <==> HasAdminRole(users, email)
  {
    var user := FindUser(users, email);
    user.Some? && user.value.role == Some(AdminRole)
  }

  /** The outcome of `verifyAdmin`, run after `verifyJWT`. */
  datatype Gate = Forbidden | Proceed
  {
    function Status(): int
    {
      if Forbidden? then 403 else 200
    }
  }

  /** `verifyAdmin`: the route runs only when the decoded email belongs to
      an admin; a missing user or any other role is refused with 403. */
  function VerifyAdmin(users: seq<User>, decodedEmail: Email): (g: Gate)
    ensures g == Proceed <==> HasAdminRole(users, decodedEmail)
    ensures g.Status() == 403 <==> !HasAdminRole(users, decodedEmail)
  {
    if UserIsAdmin(users, decodedEmail) then Proceed else Forbidden
  }

  /** `verifyJWT` followed by `verifyAdmin`, as the admin-only routes chain them. */
  function AdminRoute(header: Option<string>, decode: string -> Option<Email>, users: seq<User>)
    : (s: int)
    ensures s == 401 <==> Falsy(header)
    ensures s == 200 <==>
      (exists email :: VerifyJWT(header, decode) == Authenticated(email) && HasAdminRole(users, email))
    ensures s == 200 || s == 401 || s == 403
  {
    match VerifyJWT(header, decode)
    case Authenticated(email) => VerifyAdmin(users, email).Status()
    case o => o.Status()
  }

  /** GET /users/admin/:email: `{ isAdmin }`, the same test as `verifyAdmin`. */
  function IsAdmin(users: seq<User>, email: Email): (isAdmin: bool)
    ensures isAdmin <==> HasAdminRole(users, email)
    ensures isAdmin <==> VerifyAdmin(users, email) == Proceed
  {
    UserIsAdmin(users, email)
  }

  // ----- GET /bookings?email= -----

  datatype Listing = ForbiddenListing | Bookings(bookings: seq<Booking>)

  /** The bookings `find({ email })` returns, in store order. */
  function BookingsOf(bookings: seq<Booking>, email: Email): (r: seq<Booking>)
    ensures |r| <= |bookings|
    ensures forall b :: b in r <==> b in bookings && b.email == email
  {
    if bookings == [] then []
    else if bookings[0].email == email then [bookings[0]] + BookingsOf(bookings[1..], email)
    else BookingsOf(bookings[1..], email)
  }

  /** The route body after `verifyJWT`: a patient lists only their own
      bookings; any other (or a missing) query email is refused with 403. */
  function OwnBookings(queryEmail: Option<Email>, decodedEmail: Email, bookings: seq<Booking>)
    : (l: Listing)
    ensures l.Bookings? <==> queryEmail == Some(decodedEmail)
    ensures l.Bookings? ==> forall b :: b in l.bookings <==> b in bookings && b.email == decodedEmail
  {
    if queryEmail != Some(decodedEmail) then ForbiddenListing
    else Bookings(BookingsOf(bookings, decodedEmail))
  }

  // ----- GET /jwt -----

  const NoAccessToken: string := "You have No AccessToken"

  /** The reply of GET /jwt: a token, or the sentinel with status 403. */
  datatype TokenReply = Issued(token: string) | NoAccount
  {
    function Status(): int
    {
      if Issued? then 200 else 403
    }
    function AccessToken(): string
    {
      match this
      case Issued(t) => t
      case NoAccount => NoAccessToken
    }
  }

  /** Token issuance: `sign(email)` stands for `jwt.sign({ email }, ...)`. */
  function IssueToken(users: seq<User>, email: Email, sign: Email -> string): (t: TokenReply)
    ensures t.Issued? <==> exists i :: 0 <= i < |users| && users[i].email == email
    ensures t.Status() == 403 <==> t.NoAccount?
    ensures t.NoAccount? ==> t.AccessToken() == NoAccessToken
    ensures t.Issued? ==> t.token == sign(email)
  {
    if FindUser(users, email).Some? then Issued(sign(email)) else NoAccount
  }

  /** A token issued for a registered email, presented as `Bearer <token>`,
      authenticates that email, provided decoding undoes signing and the
      token holds no space (a JSON Web Token never does). */
  lemma IssuedTokenAuthenticates(users: seq<User>, email: Email,
                                 sign: Email -> string, decode: string -> Option<Email>)
    requires IssueToken(users, email, sign).Issued?
    requires decode(sign(email)) == Some(email) && ' ' !in sign(email)
    ensures VerifyJWT(Some("Bearer " + IssueToken(users, email, sign).token), decode)
         == Authenticated(email)
  {
    var token := sign(email);
    BearerTokenOf("Bearer", token);
    assert "Bearer" + " " + token == "Bearer " + token;
  }

  /** An unregistered email gets the sentinel string with status 403 and no token. */
  lemma UnregisteredGetsSentinel(users: seq<User>, email: Email, sign: Email -> string)
    requires forall u :: u in users ==> u.email != email
    ensures IssueToken(users, email, sign) == NoAccount
    ensures IssueToken(users, email, sign).AccessToken() == NoAccessToken
    ensures IssueToken(users, email, sign).Status() == 403
  {
  }

  /** A client that sends the sentinel back as `Bearer You have No AccessToken`
      presents the token "You", the second space-separated field; it is
      refused with 403 unless the decoder accepts "You". */
  lemma SentinelPresentsYou(decode: string -> Option<Email>)
    ensures BearerToken("Bearer " + NoAccessToken) == Some("You")
    ensures decode("You").None? ==>
      VerifyJWT(Some("Bearer " + NoAccessToken), decode) == BadCredential
  {
    var scheme, word, rest := "Bearer", "You", "have No AccessToken";
    assert "Bearer " + NoAccessToken == scheme + [' '] + (word + [' '] + rest);
    SecondField(scheme, word, rest);
  }

  /** The second field of `<scheme> <word> <rest>` is `word`. */
  lemma SecondField(scheme: string, word: string, rest: string)
    requires ' ' !in scheme && ' ' !in word
    ensures BearerToken(scheme + [' '] + (word + [' '] + rest)) == Some(word)
  {
    SplitAfterField(word, rest, ' ');
    SplitAfterField(scheme, word + [' '] + rest, ' ');
  }
}
