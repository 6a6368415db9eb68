# Royal Book server: access gate and mutating handlers

A model of the request handling in `index.js` of the Royal Book used-book
marketplace server. It covers the access gate (`verifyJWT`, `verifyAdmin` and
the owner comparison on the self-service routes) and the handlers that write
the database. Those handlers upsert a user, record a payment, toggle a
listing's advertise flag, verify a user, delete a reported listing and delete
a user. The model also covers the reads whose results the gate protects and
the category browse that sold listings must leave.

## How the model is built

- `docs.dfy` (module `Docs`): documents are maps from field names to JSON/BSON
  values. A missing field reads as `null`, because a MongoDB equality match on
  `null` also matches a missing field, and the driver sends an `undefined`
  filter value as `null`. `ObjectId(x)` follows the bson 4 library that lets
  the code call it without `new`: a 24-digit hex string of either case, a
  12-character string read as bytes, or an object with a string `id` parses;
  `null`, `undefined` and numbers from 0 to 2^32 - 1 generate a new id (a
  number is its 32-bit timestamp); anything else, other numbers included,
  throws.
- `text.dfy` (module `Text`): `String.prototype.split` with one separator,
  proved to round-trip with joining.
- `collections.dfy` (module `Collections`): `findOne`, `find`, `insertOne`,
  `updateOne` (with and without `upsert`) and `deleteOne`. Each collection is a
  sequence in natural order, because the single-document operations act on
  the first match. Dotted filter keys such as `"seller.email"` are paths.
- `gate.dfy` (module `Gate`): the middleware decisions as pure functions. Each
  returns 401, 403 or "continue with these claims". `jwt.verify` is an oracle
  parameter `verify: string -> Option<Doc>`.
- `routes.dfy` (module `Routes`): every modelled route as a function from the
  five tables (users, books, bookings, payments, report-books) to the new
  tables and the response. "No response" stands for a handler that throws.
  In an Express 4 async handler the throw is an unhandled promise rejection:
  the client gets no answer, and on Node 15 and later the process stops.
- `store.dfy` (module `Server`): class `Store` holds the five collections as
  fields. Its methods run each mutating handler step by step, one driver call
  per statement and in the handler's order. Each method's postcondition is the
  matching `Routes` function; its invariant is that listing ids are unique.

Generated ids (`gen`) and the clock `jwt.sign` reads (`now`, in seconds) are
parameters: the driver and the runtime supply them, not the code.

Where the intended design and the code differ, the model follows the code:

- A payment finds its booking through the booking's `bookId` field. It does
  not use the booking's own id.
- Payments are not deduplicated. There is no transaction. A `bookId` that
  `ObjectId` rejects throws after the insert, so the payment stays recorded
  and nothing else changes.
- The advertise toggle reads the flag and then writes it back. Any value
  other than `true`, including an absent flag, becomes `true`.
- An empty `Authorization` header counts as absent (401). The scheme word
  before the space is never checked (`Gate.SchemeIgnored`).
- The user flag is named `verify`, not `verified`. Any authenticated caller
  can toggle any listing.
- A path id that `ObjectId` rejects throws inside the handler, after the
  gate and before any write, so the request gets no response.
- `PUT /user/:email` writes the user before it signs the token. A body that
  `jwt.sign` refuses (one with `exp`, or a non-numeric `iat` or `nbf`)
  leaves the write in place and gets no response. The token's claims are
  the body plus `iat` and `exp`.
- A payment body with `"_id": null` gets a generated id like one without
  `_id`, so such bodies are not refused as duplicates either.

Two properties of the code as written are proved. `Routes.SelfPromotion`: an
unauthenticated `PUT /user/:email` whose body names the path email and says
`role: "admin"` makes every token carrying that email pass `verifyAdmin`,
the token issued in the same response included. `Routes.ClaimsFollowBody`:
the token is signed over the body, so a body naming a different email gets a
token refused for the path email.

## Model

| member | source | states |
|---|---|---|
| `Docs.ObjectId` | index.js:222 | `ObjectId(x)` generates a new id exactly for null, undefined and numbers that fit an unsigned 32-bit timestamp, and throws for other numbers; a string is parsed by `IdFromString`; an object is parsed through its `id` field exactly when that is a string, and throws otherwise; an ObjectId stays itself; a boolean throws |
| `Docs.IdFromString` | index.js:222 | a string parses exactly when it is 12 one-byte characters or 24 hex digits; the result is an ObjectId of 24 lower-case hex digits, the lower-cased input for a hex string; anything else throws |
| `Docs.HexCaseIgnored` | index.js:222 | upper- and lower-case spellings of a 24-digit hex id give the same ObjectId |
| `Docs.HexRoundTrip` | index.js:222 | parsing the lower-case hex form of an ObjectId gives that ObjectId back |
| `Docs.BytesMatchTheirHex` | index.js:222 | a 12-character id and the hex spelling of its bytes give the same ObjectId |
| `Text.Split` | index.js:29 | `split(" ")` gives at least one piece, no piece holds the separator, joining the pieces gives the input back, and a single piece means there was no separator |
| `Text.SplitJoin` | index.js:29 | splitting undoes joining when no piece holds the separator |
| `Text.JoinSecond` | index.js:29 | in a join of two or more pieces, the second piece follows the first separator and is followed by the end or by the next separator |
| `Collections.FirstMatch` | index.js:56 | the first index in natural order whose document matches the filter, or none exactly when no document matches |
| `Collections.FindOne` | index.js:56 | `findOne` returns the document at the first matching index, and nothing exactly when no document matches |
| `Collections.Find` | index.js:153-155 | `find(...).toArray()` holds each matching document as often as the collection does and no other, in collection order (a subsequence of the collection) |
| `Collections.InsertOne` | index.js:219 | `insertOne` appends the document, with the generated `_id` when its `_id` is null or absent, and is refused with nothing changed exactly when its own non-null `_id` is taken |
| `Collections.UpdateOne` | index.js:234-241 | `updateOne` applies `$set` to the first match only: set fields overwrite, other fields stay, other documents stay, and the matched and modified counts are reported; without a match nothing changes |
| `Collections.UpsertOne` | index.js:68-73 | an upsert updates the first match exactly as `updateOne` does; without one it appends a document holding the filter field, the set fields and the generated `_id` |
| `Collections.DeleteOne` | index.js:265-266 | `deleteOne` removes only the first match and keeps the order of the rest; without a match nothing changes |
| `Collections.DeleteById` | index.js:263-265 | with unique ids, deleting by `_id` leaves exactly the documents with another id |
| `Collections.RemoveIdMembers` | index.js:263-265 | with unique ids, removing the document at the index holding id `v` leaves exactly the documents with another id |
| `Collections.DeleteCount` | index.js:264-266 | deleting by one field removes one document, and reports a count of one, exactly when some document holds that value |
| `Gate.TokenPart` | index.js:29 | the token is absent exactly when the header has no space; otherwise it is the text between the first space and the next space (or the end), and it never contains a space |
| `Gate.VerifyJwt` | index.js:23-38 | 401 exactly when the header is absent or empty; otherwise 403 exactly when the token is missing or empty or fails verification; otherwise the verified claims go on |
| `Gate.SchemeIgnored` | index.js:29 | any first word of the header gives the same token and the same decision as `Bearer` |
| `Gate.NoSpaceForbidden` | index.js:29-33 | a non-empty header without a space is refused with 403 |
| `Gate.OwnerGate` | index.js:84-88 | 401 exactly as for `verifyJWT`; the claims go on exactly when the token verifies and its `email` claim equals the path email |
| `Gate.VerifyAdmin` | index.js:53-62 | the claims go on exactly when the first user record whose email equals the decoded email has role `"admin"`; otherwise, a missing record included, 403 |
| `Gate.AdminGate` | index.js:261 | token check before role check: 401 exactly without a header; a refused token gives the same answer whatever the users table holds; pass exactly when both checks pass |
| `Routes.PutUser` | index.js:65-79 | only the users table changes; a `$`-prefixed field writes nothing and gets no response; a response is sent exactly when the update is accepted and `jwt.sign` accepts the body, and it carries the signed claims |
| `Routes.SignedClaims` | index.js:74-76 | the signed claims are the body's fields plus `iat` and `exp`: `iat` is the body's own non-zero number or else the clock, and `exp` is one day later |
| `Routes.PutUserMerges` | index.js:68-73 | with the update accepted, and whether or not a token follows, the first user with the path email gets the body merged in and no other user changes, reported as one match and as modified exactly when the record changed; with no such user one new user is appended holding exactly `_id`, `email` and the body's fields, with the generated `_id` unless the body sets one, and reported as upserted |
| `Routes.AdminFirst` | index.js:53-62 | when the first user with an email has the role `"admin"`, `verifyAdmin` passes every token carrying that email |
| `Routes.SelfPromotion` | index.js:66-76 | after a body naming the path email and role `"admin"` is written, `verifyAdmin` passes every token that carries that email, and the token issued in the same response carries it |
| `Routes.ClaimsFollowBody` | index.js:74-76 | if the body's email differs from the path's, any verified token carrying the issued token's email is refused with 403 on the owner routes for the path email |
| `Routes.GetUser` | index.js:82-92 | a refused gate gives its 401 or 403 whatever the tables hold; a passing request is answered; nothing is sent exactly when no user has the email, and otherwise the first user with the caller's email |
| `Routes.GetProducts` | index.js:119-132 | a refused gate gives its 401 or 403 whatever the tables hold; a passing request is answered with exactly the listings whose `seller.email` is the caller's |
| `Routes.GetBookings` | index.js:175-188 | a refused gate gives its 401 or 403 whatever the tables hold; a passing request is answered with exactly the bookings whose `user_email` is the caller's |
| `Routes.OwnerMismatchReadsNothing` | index.js:84-88 | a verified token for another email gets 403 on all three owner routes, with the same answer for any tables |
| `Routes.UsersWithRole` | index.js:135-148 | admin-gated: the role query never runs on a refused request; an admin is answered with exactly the users with the given role |
| `Routes.Browse` | index.js:151-157 | exactly the listings whose category is the name, whose `sold` is `false` and whose `advertise` is `true` |
| `Routes.ToggleAdvertise` | index.js:289-317 | a refused token changes nothing; a path id `ObjectId` rejects, or a missing listing, throws and changes nothing; a found listing is answered with one match and one modification; only the books table changes, and its length stays the same |
| `Routes.ToggleFlips` | index.js:298-315 | the toggled listing's flag becomes `false` if it was `true` and `true` otherwise; its other fields and all other listings stay |
| `Routes.ToggleUpdatesInPlace` | index.js:311-315 | the upsert never inserts: the toggle replaces the found listing by the same listing with its flag flipped |
| `Routes.FlippedTwice` | index.js:298-310 | flipping a boolean flag twice gives the listing back |
| `Routes.ToggleTwiceRestores` | index.js:293-315 | two toggles of a listing whose flag is a boolean give back all tables as they were |
| `Routes.RecordPayment` | index.js:217-243 | a refused token changes nothing; users and reports never change; bookings and books keep their length; a refused insert changes nothing; a response is sent exactly when the token passes, the insert is accepted and `ObjectId` does not throw, and it reports the stored id |
| `Routes.PaymentAppendsOne` | index.js:218-219 | every payment the insert accepts appends exactly one record after the existing ones: the body, with its own non-null `_id` or else the generated one |
| `Routes.PaymentPartialWrite` | index.js:219-222 | when the insert is accepted and `ObjectId` rejects the body's `bookId`, the payment is still appended, no booking or listing changes, and no response is sent |
| `Routes.RepeatedPaymentRecordedTwice` | index.js:218-219 | sending the same body twice, with a null or absent `_id`, records it twice |
| `Routes.PaymentMarksBooking` | index.js:220-237 | the first booking whose `bookId` equals the body's `bookId` gets `paid: true` and the body's `transectionId`, gains no other field, keeps its other fields, and no other booking changes |
| `Routes.UpdateByField` | index.js:220-237 | an update by one field's value writes the first document holding it, and none is earlier; without one nothing changes |
| `Routes.PaymentMarksSold` | index.js:222-241 | with a `bookId` that converts to an ObjectId, the first listing with that `_id` gets `sold: true`, gains no other field, keeps its other fields, and no other listing changes |
| `Routes.PaymentGeneratedIdSellsNothing` | index.js:222-241 | a null, absent or numeric `bookId` marks no listing as sold |
| `Routes.SoldBookLeavesBrowse` | index.js:222-241 | after a sent payment with unique listing ids, no category browse returns a listing with the paid-for id |
| `Routes.VerifyUser` | index.js:271-286 | admin-gated: refused requests change nothing; only the users table changes; an admin gets a response exactly when `ObjectId` accepts the path id, and a rejected id changes nothing |
| `Routes.VerifyUserUpdates` | index.js:273-284 | the first user with the id gets `verify: true` with its other fields kept, no other user changes, and one match is reported; without one, exactly `{ _id, verify: true }` is appended and reported as upserted |
| `Routes.UpsertVerified` | index.js:273-284 | the upsert of `verify: true` by `_id` on the users alone: a merge into the first user with the id, or exactly `{ _id, verify: true }` appended, with the matching write report |
| `Routes.VerifyUserMarks` | index.js:273-284 | after an admin's verify, looking the id up finds a user with `verify: true`, whether it existed or was just created |
| `Routes.UpsertMarks` | index.js:273-284 | upserting `verify: true` by `_id` leaves the first user with that id marked verified, whether it matched an existing user or was inserted |
| `Routes.DeleteReportedBook` | index.js:261-268 | admin-gated: refused requests change nothing; users, bookings and payments never change; an admin gets a response exactly when `ObjectId` accepts the path id, and a rejected id changes nothing |
| `Routes.DeleteReportedBookFirst` | index.js:263-265 | an admin's delete removes exactly the first listing whose `_id` is the parsed id, keeping the rest in order, or changes no listing when none has it |
| `Routes.DeleteReportedBookRemoves` | index.js:261-268 | the first listing with the parsed id is removed and the rest keep their order; with unique listing ids, exactly the listings with another id remain and the count deleted is reported; the first report whose `reportBookId` is the id string is removed with the others kept in order, or the reports stay when none names it |
| `Routes.DeleteUser` | index.js:320-330 | admin-gated: refused requests change nothing; a path id `ObjectId` rejects changes nothing; otherwise the first user with that ObjectId is removed with the rest in order, or nothing changes when there is none |
| `Server.Store.constructor` | index.js:43-50 | the store begins with the given collections and unique listing ids |
| `Server.Store.PutUser` | index.js:65-79 | the upsert followed by the token, with the write kept when signing fails, leaving the state and response that `Routes.PutUser` gives |
| `Server.Store.RecordPayment` | index.js:217-243 | insert, ObjectId conversion, booking update and listing update in that order, with no rollback, ending where `Routes.RecordPayment` says; listing ids stay unique |
| `Server.Store.ToggleAdvertise` | index.js:289-317 | the id conversion, then the read, then the write of the flipped flag, ending where `Routes.ToggleAdvertise` says; listing ids stay unique |
| `Server.Store.VerifyUser` | index.js:271-286 | both gates, the id conversion, then the upsert, ending where `Routes.VerifyUser` says |
| `Server.Store.DeleteReportedBook` | index.js:261-268 | both gates, the id conversion, then the listing delete, then the report delete, ending where `Routes.DeleteReportedBook` says; listing ids stay unique |
| `Server.Store.DeleteUser` | index.js:320-330 | both gates, the id conversion, then the delete, ending where `Routes.DeleteUser` says |
| `Server.PayThenBrowse` | index.js:217-243 | a caller of the store sees a sent payment's listing, named by the ObjectId of its `bookId`, absent from every later browse |

## Left out

- The Stripe payment-intent handler (`POST /create-payment-intent`): it calls the network, computes with floating-point numbers, and its error path only logs.
- Signing and cryptography. Verification is the `verify` oracle; signing shows up as the claims a token is signed over and the payloads `jwt.sign` refuses.
- The MongoDB connection, Express, CORS and `listen`, and the plain read and insert routes. These are `/categories`, `/books/:id`, `/payment/:id`, GET and POST `/reportbook`, `/verify-seller/:email`, POST `/products`, POST `/booking` and `DELETE /product/:id`. Each is one lookup, insert or delete with no decision of its own. `DELETE /product/:id` does not check who owns the listing.
- `Docs.IdFromString` counts a string's length in characters, where JavaScript counts UTF-16 code units; the two differ only for characters beyond U+FFFF.
- Typed-array arguments to `ObjectId` and objects with a `toHexString` method: a JSON request body cannot hold them.
- Driver-generated ids. The generated `_id` is a parameter, and the model does not check it against existing ids. An `ObjectId` generated from `null`, `undefined` or an in-range number is modelled as matching no listing.
- Concurrency. Requests run one at a time in the model. The races the code allows are not modelled: two toggles reading the same flag, and a payment seen between its two updates.
- Fixes the code does not make: idempotent payments, transactions and cascading deletes.
- Routes.PutUser: the server's other refusals of a `$set` body are not modelled. One is a body whose `_id` differs from the stored user's, since `_id` cannot change. Dotted field names are also not modelled: the server takes them as paths into embedded documents, but the model stores them as plain names.
- Docs.Matches, Routes.RecordPayment, Gate.VerifyAdmin: query operators are not modelled. A filter value is compared by plain equality, where MongoDB reads an object whose first key starts with `$` as an operator (and fails on an unknown one) and compares embedded documents in field order. So a `bookId` such as `{ "$ne": 0, "id": "<24 hex digits>" }` makes the source's booking update at index.js:234 fail after the payment insert, while the model marks the booking and the listing and answers; likewise an object-valued email claim in `verifyAdmin`'s lookup.
- Array values, array-membership matching, and numbers that are not integers, such as a fractional `iat`. No modelled handler decides anything on these.
- HTTP serialisation of responses, and `console.log`.
