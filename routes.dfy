/** The request handlers as functions from the five tables before a request
    to the tables after it and the response sent. */
module Routes {
  import opened Docs
  import opened Collections
  import opened Gate

  datatype Tables = Tables(
    users: seq<Doc>,
    books: seq<Doc>,
    bookings: seq<Doc>,
    payments: seq<Doc>,
    reports: seq<Doc>)

  /** 401, 403, a body, or no response at all (the handler threw). */
  datatype Response<T> = Status401 | Status403 | Sent(body: T) | NoResponse

  datatype Step<T> = Step(tables: Tables, response: Response<T>)

  /** The answer of a middleware that did not let the request through. */
  function Refuse<T>(o: Outcome): Response<T>
    requires !o.Pass?
  {
    if o.Unauthorized? then Status401 else Status403
  }

  /** What `PUT /user/:email` sends back: the write result and the claims the
      issued token is signed over. */
  datatype Session = Session(result: WriteResult, claims: Doc)

  // ---------------------------------------------------------------- users

  /** A `$set` document with a field name starting with `$`: the server
      refuses such an update, so the driver call throws before anything is
      written. */
  predicate DollarKey(body: Doc) {
    exists k :: k in body && |k| > 0 && k[0] == '$'
  }

  /** `jwt.sign(payload, secret, { expiresIn: "1d" })` throws for a payload
      that already has `exp` (it clashes with `expiresIn`), or whose `iat`
      or `nbf` is not a number. */
  predicate SignRejects(body: Doc) {
    || "exp" in body
    || ("iat" in body && !body["iat"].Num?)
    || ("nbf" in body && !body["nbf"].Num?)
  }

  /** The seconds in `expiresIn: "1d"`. */
  const OneDay := 86400

  /** The claims `jwt.sign` signs: a copy of the body whose `iat` is the
      body's own when it is a non-zero number and the clock `now` (seconds)
      otherwise, and whose `exp` is one day after that `iat`. */
  function SignedClaims(body: Doc, now: int): (r: Doc)
    ensures r.Keys == body.Keys + {"iat", "exp"}
    ensures forall k :: k in body && k != "iat" && k != "exp" ==> r[k] == body[k]
    ensures r["iat"].Num? && r["exp"] == Num(r["iat"].n + OneDay)
    ensures r["iat"] == if "iat" in body && body["iat"].Num? && body["iat"] != Num(0) then body["iat"] else Num(now)
  {
    var issued := if "iat" in body && body["iat"].Num? && body["iat"] != Num(0) then body["iat"].n else now;
    body["iat" := Num(issued)]["exp" := Num(issued + OneDay)]
  }

  /** `PUT /user/:email` (no gate): the body's fields are merged into the
      user with that email, or a new user is created; then a token is
      signed over the body. A refused update writes nothing; a refused
      signature throws after the write. Only the user table changes. */
  function PutUser(t: Tables, email: string, body: Doc, gen: Value, now: int): (r: Step<Session>)
    ensures r.tables.(users := t.users) == t
    ensures DollarKey(body) ==> r == Step(t, NoResponse)
    ensures r.response.Sent? || r.response == NoResponse
    ensures r.response.Sent? <==> !DollarKey(body) && !SignRejects(body)
    ensures r.response.Sent? ==> r.response.body.claims == SignedClaims(body, now)
  {
    if DollarKey(body) then Step(t, NoResponse)
    else
      var w := UpsertOne(t.users, "email", Str(email), body, gen);
      if SignRejects(body) then Step(t.(users := w.coll), NoResponse)
      else Step(t.(users := w.coll), Sent(Session(w.result, SignedClaims(body, now))))
  }

  /** The upsert, which stays written whether or not the token is then
      signed: the first user with the path email has the body merged in and
      nobody else changes; without one, a user holding the body (and the
      email, unless the body sets its own) is appended. */
  lemma PutUserMerges(t: Tables, email: string, body: Doc, gen: Value, now: int)
    requires !DollarKey(body)
    ensures var r := PutUser(t, email, body, gen, now);
      var u := r.tables.users;
      match FirstMatch(t.users, Eq("email", Str(email)))
      case Some(i) =>
        && |u| == |t.users| && SetApplied(t.users[i], body, u[i])
        && (forall j :: 0 <= j < |u| && j != i ==> u[j] == t.users[j])
        && (r.response.Sent? ==>
          r.response.body.result == UpdateResult(1, if u[i] == t.users[i] then 0 else 1, None))
      case None =>
        && |u| == |t.users| + 1 && u[..|t.users|] == t.users
        && u[|t.users|].Keys == {"_id", "email"} + body.Keys
        && (forall k :: k in body ==> u[|t.users|][k] == body[k])
        && Field(u[|t.users|], "email") == (if "email" in body then body["email"] else Str(email))
        && ("_id" !in body ==> u[|t.users|]["_id"] == gen)
        && (r.response.Sent? ==> r.response.body.result == UpdateResult(0, 0, Some(u[|t.users|]["_id"])))
  {
  }

  /** Anyone may write a role when upserting: once a body naming its own
      email and role "admin" is written, every token carrying that email
      passes `verifyAdmin`, the token issued in the same response included. */
  lemma SelfPromotion(t: Tables, email: string, body: Doc, gen: Value, now: int)
    requires Field(body, "email") == Str(email) && Field(body, "role") == Str("admin")
    requires !DollarKey(body)
    ensures var r := PutUser(t, email, body, gen, now);
      && (forall claims :: DecodedEmail(claims) == Str(email) ==> VerifyAdmin(r.tables.users, claims) == Pass(claims))
      && (!SignRejects(body) ==> r.response.Sent? && DecodedEmail(r.response.body.claims) == Str(email))
  {
    var u := PutUser(t, email, body, gen, now).tables.users;
    var f := Eq("email", Str(email));
    PutUserMerges(t, email, body, gen, now);
    var i := match FirstMatch(t.users, f) case Some(i) => i case None => |t.users|;
    assert Field(u[i], "email") == Str(email) && Field(u[i], "role") == Str("admin");
    forall j | 0 <= j < i ensures Field(u[j], "email") != Str(email) {
      assert u[j] == t.users[j];
      MatchesEq(t.users[j], "email", Str(email));
    }
    AdminFirst(u, i, email);
  }

  /** When the first user with an email is an admin, every token carrying
      that email passes the admin check. */
  lemma AdminFirst(u: seq<Doc>, i: nat, email: string)
    requires i < |u| && Field(u[i], "email") == Str(email) && Field(u[i], "role") == Str("admin")
    requires forall j :: 0 <= j < i ==> Field(u[j], "email") != Str(email)
    ensures forall claims :: DecodedEmail(claims) == Str(email) ==> VerifyAdmin(u, claims) == Pass(claims)
  {
    forall claims | DecodedEmail(claims) == Str(email) ensures VerifyAdmin(u, claims) == Pass(claims) {
      assert Field(u[i], "email") == DecodedEmail(claims);
    }
  }

  /** The token is signed over the body, not the path: when the body's email
      differs from the path's, a token carrying the issued token's email is
      refused on the owner routes for the path's email. */
  lemma ClaimsFollowBody(t: Tables, email: string, body: Doc, gen: Value, now: int, auth: Option<string>, verify: Verifier)
    requires Field(body, "email") != Str(email)
    requires PutUser(t, email, body, gen, now).response.Sent?
    requires VerifyJwt(auth, verify).Pass?
    requires DecodedEmail(VerifyJwt(auth, verify).claims) == DecodedEmail(PutUser(t, email, body, gen, now).response.body.claims)
    ensures OwnerGate(auth, verify, email) == Gate.Forbidden
  {
  }

  /** `GET /user/:email`: the caller's own record, the first with that
      email, or nothing when no user has it. */
  function GetUser(t: Tables, auth: Option<string>, verify: Verifier, email: string): (r: Response<Option<Doc>>)
    ensures !OwnerGate(auth, verify, email).Pass? ==> r == Refuse(OwnerGate(auth, verify, email))
    ensures OwnerGate(auth, verify, email).Pass? ==> r.Sent?
    ensures r.Sent? ==> IsOwner(VerifyJwt(auth, verify).claims, email)
    ensures r.Sent? ==> (r.body.None? <==> forall j :: 0 <= j < |t.users| ==> Field(t.users[j], "email") != Str(email))
    ensures r.Sent? && r.body.Some? ==>
      exists i :: 0 <= i < |t.users| && t.users[i] == r.body.value && Field(t.users[i], "email") == Str(email)
        && forall j :: 0 <= j < i ==> Field(t.users[j], "email") != Str(email)
  {
    var gate := OwnerGate(auth, verify, email);
    if !gate.Pass? then Refuse(gate)
    else
      var f := Eq("email", Str(email));
      forall j | 0 <= j < |t.users| ensures Matches(t.users[j], f) <==> Field(t.users[j], "email") == Str(email) {
        MatchesEq(t.users[j], "email", Str(email));
      }
      Sent(FindOne(t.users, f))
  }

  /** The seller's email inside a listing (`"seller.email"`). */
  function SellerEmail(d: Doc): Value {
    Resolve(d, ["seller", "email"])
  }

  /** `GET /products/:email`: the caller's own listings only. */
  function GetProducts(t: Tables, auth: Option<string>, verify: Verifier, email: string): (r: Response<seq<Doc>>)
    ensures !OwnerGate(auth, verify, email).Pass? ==> r == Refuse(OwnerGate(auth, verify, email))
    ensures OwnerGate(auth, verify, email).Pass? ==> r.Sent?
    ensures r.Sent? ==> IsOwner(VerifyJwt(auth, verify).claims, email)
    ensures r.Sent? ==> forall d :: d in r.body <==> d in t.books && SellerEmail(d) == Str(email)
  {
    match OwnerGate(auth, verify, email)
    case Pass(_) =>
      var f: Filter := map[["seller", "email"] := Str(email)];
      assert forall d :: Matches(d, f) <==> SellerEmail(d) == Str(email) by {
        forall d ensures Matches(d, f) <==> SellerEmail(d) == Str(email) {
          assert ["seller", "email"] in f;
        }
      }
      Sent(Find(t.books, f))
    case refused => Refuse(refused)
  }

  /** `GET /bookings/:email`: the caller's own bookings only. */
  function GetBookings(t: Tables, auth: Option<string>, verify: Verifier, email: string): (r: Response<seq<Doc>>)
    ensures !OwnerGate(auth, verify, email).Pass? ==> r == Refuse(OwnerGate(auth, verify, email))
    ensures OwnerGate(auth, verify, email).Pass? ==> r.Sent?
    ensures r.Sent? ==> IsOwner(VerifyJwt(auth, verify).claims, email)
    ensures r.Sent? ==> forall d :: d in r.body <==> d in t.bookings && Field(d, "user_email") == Str(email)
  {
    match OwnerGate(auth, verify, email)
    case Pass(_) =>
      var f := Eq("user_email", Str(email));
      assert forall d :: Matches(d, f) <==> Field(d, "user_email") == Str(email) by {
        forall d ensures Matches(d, f) <==> Field(d, "user_email") == Str(email) {
          MatchesEq(d, "user_email", Str(email));
        }
      }
      Sent(Find(t.bookings, f))
    case refused => Refuse(refused)
  }

  /** On the three owner routes a token for another email is refused with
      403 before any table is read: the answer is the same for any tables. */
  lemma OwnerMismatchReadsNothing(t1: Tables, t2: Tables, auth: Option<string>, verify: Verifier, email: string)
    requires VerifyJwt(auth, verify).Pass? && !IsOwner(VerifyJwt(auth, verify).claims, email)
    ensures GetUser(t1, auth, verify, email) == GetUser(t2, auth, verify, email) == Status403
    ensures GetProducts(t1, auth, verify, email) == GetProducts(t2, auth, verify, email) == Status403
    ensures GetBookings(t1, auth, verify, email) == GetBookings(t2, auth, verify, email) == Status403
  {
  }

  /** The users with a given role, for `GET /sellers` and `GET /buyers`. */
  function UsersWithRole(t: Tables, auth: Option<string>, verify: Verifier, role: string): (r: Response<seq<Doc>>)
    ensures !AdminGate(t.users, auth, verify).Pass? ==> r == Refuse(AdminGate(t.users, auth, verify))
    ensures AdminGate(t.users, auth, verify).Pass? ==> r.Sent?
    ensures r.Sent? ==> forall d :: d in r.body <==> d in t.users && Field(d, "role") == Str(role)
  {
    match AdminGate(t.users, auth, verify)
    case Pass(_) =>
      var f := Eq("role", Str(role));
      assert forall d :: Matches(d, f) <==> Field(d, "role") == Str(role) by {
        forall d ensures Matches(d, f) <==> Field(d, "role") == Str(role) {
          MatchesEq(d, "role", Str(role));
        }
      }
      Sent(Find(t.users, f))
    case refused => Refuse(refused)
  }

  // ---------------------------------------------------------------- books

  /** The query of `GET /categories/:name`. */
  function BrowseFilter(name: string): Filter {
    map[["book_category"] := Str(name), ["sold"] := Bool(false), ["advertise"] := Bool(true)]
  }

  /** `GET /categories/:name` (no gate): exactly the listings of that
      category whose `sold` is false and whose `advertise` is true. */
  function Browse(t: Tables, name: string): (r: seq<Doc>)
    ensures forall d :: d in r <==>
      d in t.books && Field(d, "book_category") == Str(name)
      && Field(d, "sold") == Bool(false) && Field(d, "advertise") == Bool(true)
  {
    var f := BrowseFilter(name);
    assert forall d :: Matches(d, f) <==>
      Field(d, "book_category") == Str(name) && Field(d, "sold") == Bool(false) && Field(d, "advertise") == Bool(true) by {
      forall d ensures Matches(d, f) <==>
        Field(d, "book_category") == Str(name) && Field(d, "sold") == Bool(false) && Field(d, "advertise") == Bool(true)
      {
        assert ["book_category"] in f && ["sold"] in f && ["advertise"] in f;
      }
    }
    Find(t.books, f)
  }

  /** The flag `PUT /advertise/:id` writes: false when the stored flag is
      exactly `true`, true for anything else, an absent flag included. */
  function NextAdvertise(book: Doc): bool {
    Field(book, "advertise") != Bool(true)
  }

  /** `PUT /advertise/:id` (token only): reads the listing and writes the
      flipped flag back. A path id `ObjectId` rejects throws before the read;
      a missing listing throws on `book.advertise`; either way nothing is
      written. A found listing is always modified, because its flag always
      changes. */
  function ToggleAdvertise(t: Tables, auth: Option<string>, verify: Verifier, id: string, gen: Value): (r: Step<WriteResult>)
    ensures !VerifyJwt(auth, verify).Pass? ==> r == Step(t, Refuse(VerifyJwt(auth, verify)))
    ensures r.tables.(books := t.books) == t && |r.tables.books| == |t.books|
    ensures VerifyJwt(auth, verify).Pass? && !ObjectId(Str(id)).Parsed? ==> r == Step(t, NoResponse)
    ensures VerifyJwt(auth, verify).Pass? && ObjectId(Str(id)).Parsed? ==>
      match FindOne(t.books, Eq("_id", ObjectId(Str(id)).id))
      case None => r == Step(t, NoResponse)
      case Some(_) => r.response == Sent(UpdateResult(1, 1, None))
  {
    var gate := VerifyJwt(auth, verify);
    if !gate.Pass? then Step(t, Refuse(gate))
    else match ObjectId(Str(id))
      case Parsed(oid) =>
        (match FindOne(t.books, Eq("_id", oid))
        case None => Step(t, NoResponse)
        case Some(book) =>
          var fields := map["advertise" := Bool(NextAdvertise(book))];
          assert "advertise" in book + fields && (book + fields)["advertise"] != Field(book, "advertise");
          var w := UpsertOne(t.books, "_id", oid, fields, gen);
          Step(t.(books := w.coll), Sent(w.result)))
      case _ => Step(t, NoResponse)
  }

  /** The toggled listing has its flag flipped (`true` to false, anything
      else to true) and every other field kept; no other listing changes,
      and the upsert never inserts. */
  lemma ToggleFlips(t: Tables, auth: Option<string>, verify: Verifier, id: string, oid: Value, gen: Value)
    requires VerifyJwt(auth, verify).Pass? && ObjectId(Str(id)) == Parsed(oid)
    requires FirstMatch(t.books, Eq("_id", oid)).Some?
    ensures var i := FirstMatch(t.books, Eq("_id", oid)).value;
      var b := ToggleAdvertise(t, auth, verify, id, gen).tables.books;
      && b[i]["advertise"] == Bool(Field(t.books[i], "advertise") != Bool(true))
      && (forall k :: k in t.books[i] && k != "advertise" ==> k in b[i] && b[i][k] == t.books[i][k])
      && b[i].Keys == t.books[i].Keys + {"advertise"}
      && (forall j :: 0 <= j < |b| && j != i ==> b[j] == t.books[j])
  {
  }

  /** A listing with its flag replaced by the toggled one. */
  function Flipped(book: Doc): Doc {
    book["advertise" := Bool(NextAdvertise(book))]
  }

  /** Flipping a boolean flag twice gives the listing back. */
  lemma FlippedTwice(book: Doc)
    requires Field(book, "advertise").Bool?
    ensures Flipped(Flipped(book)) == book
  {
  }

  /** An accepted toggle of a listing that exists is an update of that
      listing's one field, in place. */
  lemma ToggleUpdatesInPlace(t: Tables, auth: Option<string>, verify: Verifier, id: string, oid: Value, gen: Value)
    requires VerifyJwt(auth, verify).Pass? && ObjectId(Str(id)) == Parsed(oid)
    requires FirstMatch(t.books, Eq("_id", oid)).Some?
    ensures var i := FirstMatch(t.books, Eq("_id", oid)).value;
      ToggleAdvertise(t, auth, verify, id, gen).tables == t.(books := t.books[i := Flipped(t.books[i])])
  {
    var i := FirstMatch(t.books, Eq("_id", oid)).value;
    var b := t.books[i];
    assert b + map["advertise" := Bool(NextAdvertise(b))] == Flipped(b);
  }

  /** Two toggles of a listing whose flag is a boolean give back the tables
      as they were. */
  lemma ToggleTwiceRestores(t: Tables, auth: Option<string>, verify: Verifier, id: string, oid: Value, gen1: Value, gen2: Value)
    requires VerifyJwt(auth, verify).Pass? && ObjectId(Str(id)) == Parsed(oid)
    requires FirstMatch(t.books, Eq("_id", oid)).Some?
    requires Field(t.books[FirstMatch(t.books, Eq("_id", oid)).value], "advertise").Bool?
    ensures ToggleAdvertise(ToggleAdvertise(t, auth, verify, id, gen1).tables, auth, verify, id, gen2).tables == t
  {
    var f := Eq("_id", oid);
    var i := FirstMatch(t.books, f).value;
    var b := t.books[i];
    ToggleUpdatesInPlace(t, auth, verify, id, oid, gen1);
    var once := ToggleAdvertise(t, auth, verify, id, gen1).tables;
    assert once.books == t.books[i := Flipped(b)];
    MatchesEq(b, "_id", oid);
    MatchesEq(Flipped(b), "_id", oid);
    ReplaceKeepsFirstMatch(t.books, f, i, Flipped(b));
    ToggleUpdatesInPlace(once, auth, verify, id, oid, gen2);
    FlippedTwice(b);
    assert once.books[i := Flipped(once.books[i])] == t.books;
  }

  // ------------------------------------------------------------- payments

  /** The fields `PUT /payments` sets on the booking. */
  function PaidFields(payment: Doc): Doc {
    map["paid" := Bool(true), "transectionId" := Field(payment, "transectionId")]
  }

  /** `PUT /payments` (token only): inserts the body as a payment, then marks
      the first booking whose `bookId` is the body's `bookId` as paid, then
      marks the listing whose `_id` is that id as sold. There is no
      duplicate check and no transaction: a body whose `bookId` cannot be
      made an ObjectId throws after the insert, leaving only the payment. */
  function RecordPayment(t: Tables, auth: Option<string>, verify: Verifier, payment: Doc, gen: Value): (r: Step<WriteResult>)
    ensures !VerifyJwt(auth, verify).Pass? ==> r == Step(t, Refuse(VerifyJwt(auth, verify)))
    ensures r.tables.users == t.users && r.tables.reports == t.reports
    ensures |r.tables.bookings| == |t.bookings| && |r.tables.books| == |t.books|
    ensures VerifyJwt(auth, verify).Pass? && InsertOne(t.payments, payment, gen).None? ==> r == Step(t, NoResponse)
    ensures r.response.Sent? <==>
      VerifyJwt(auth, verify).Pass? && InsertOne(t.payments, payment, gen).Some? && ObjectId(Field(payment, "bookId")) != Throws
    ensures r.response.Sent? ==>
      r.response.body == InsertResult(if Field(payment, "_id") != Null then Field(payment, "_id") else gen)
  {
    var gate := VerifyJwt(auth, verify);
    if !gate.Pass? then Step(t, Refuse(gate))
    else match InsertOne(t.payments, payment, gen)
      case None => Step(t, NoResponse)
      case Some(ins) =>
        var id := Field(payment, "bookId");
        var t1 := t.(payments := ins.coll);
        match ObjectId(id)
        case Throws => Step(t1, NoResponse)
        case Generated =>
          // a fresh ObjectId matches no listing: the second update is a no-op
          var bk := UpdateOne(t1.bookings, Eq("bookId", id), PaidFields(payment));
          Step(t1.(bookings := bk.coll), Sent(ins.result))
        case Parsed(oid) =>
          var bk := UpdateOne(t1.bookings, Eq("bookId", id), PaidFields(payment));
          var bs := UpdateOne(t1.books, Eq("_id", oid), map["sold" := Bool(true)]);
          Step(t1.(bookings := bk.coll, books := bs.coll), Sent(ins.result))
  }

  /** Every payment the database accepts appends exactly one record holding
      the body, whatever is already recorded: there is no deduplication. */
  lemma PaymentAppendsOne(t: Tables, auth: Option<string>, verify: Verifier, payment: Doc, gen: Value)
    requires VerifyJwt(auth, verify).Pass? && InsertOne(t.payments, payment, gen).Some?
    ensures var p := RecordPayment(t, auth, verify, payment, gen).tables.payments;
      && |p| == |t.payments| + 1 && p[..|t.payments|] == t.payments
      && p[|t.payments|] - {"_id"} == payment - {"_id"}
      && Field(p[|t.payments|], "_id") == (if Field(payment, "_id") != Null then payment["_id"] else gen)
  {
  }

  /** A `bookId` that `ObjectId` rejects throws after the insert: the
      payment stays recorded, no booking or listing is marked, and no
      response is sent. */
  lemma PaymentPartialWrite(t: Tables, auth: Option<string>, verify: Verifier, payment: Doc, gen: Value)
    requires VerifyJwt(auth, verify).Pass? && InsertOne(t.payments, payment, gen).Some?
    requires ObjectId(Field(payment, "bookId")) == Throws
    ensures var r := RecordPayment(t, auth, verify, payment, gen);
      && r.response == NoResponse
      && r.tables == t.(payments := InsertOne(t.payments, payment, gen).value.coll)
  {
  }

  /** Sending the same body twice records it twice. */
  lemma RepeatedPaymentRecordedTwice(t: Tables, auth: Option<string>, verify: Verifier, payment: Doc, gen1: Value, gen2: Value)
    requires VerifyJwt(auth, verify).Pass? && Field(payment, "_id") == Null
    ensures var p := RecordPayment(RecordPayment(t, auth, verify, payment, gen1).tables, auth, verify, payment, gen2).tables.payments;
      && |p| == |t.payments| + 2 && p[..|t.payments|] == t.payments
      && p[|t.payments|] - {"_id"} == payment - {"_id"} && p[|t.payments| + 1] - {"_id"} == payment - {"_id"}
  {
  }

  /** The booking matched by `bookId` (the booking's `bookId` field, not its
      own id) is the first one holding the body's `bookId`; it gets
      `paid: true` and the body's `transectionId`, and nothing else changes. */
  lemma PaymentMarksBooking(t: Tables, auth: Option<string>, verify: Verifier, payment: Doc, gen: Value)
    requires RecordPayment(t, auth, verify, payment, gen).response.Sent?
    ensures var id := Field(payment, "bookId");
      var b := RecordPayment(t, auth, verify, payment, gen).tables.bookings;
      match FirstMatch(t.bookings, Eq("bookId", id))
      case None => b == t.bookings
      case Some(i) =>
        && Field(t.bookings[i], "bookId") == id
        && (forall j :: 0 <= j < i ==> Field(t.bookings[j], "bookId") != id)
        && b[i]["paid"] == Bool(true) && b[i]["transectionId"] == Field(payment, "transectionId")
        && b[i].Keys == t.bookings[i].Keys + {"paid", "transectionId"}
        && (forall k :: k in t.bookings[i] && k != "paid" && k != "transectionId" ==> b[i][k] == t.bookings[i][k])
        && (forall j :: 0 <= j < |b| && j != i ==> b[j] == t.bookings[j])
  {
    var id := Field(payment, "bookId");
    assert RecordPayment(t, auth, verify, payment, gen).tables.bookings
      == UpdateOne(t.bookings, Eq("bookId", id), PaidFields(payment)).coll;
    UpdateByField(t.bookings, "bookId", id, PaidFields(payment));
  }

  /** An update by one field's value writes the first document holding it. */
  lemma UpdateByField(c: seq<Doc>, k: string, v: Value, fields: Doc)
    ensures match FirstMatch(c, Eq(k, v))
      case None => UpdateOne(c, Eq(k, v), fields).coll == c
      case Some(i) =>
        && Field(c[i], k) == v
        && (forall j :: 0 <= j < i ==> Field(c[j], k) != v)
        && SetApplied(c[i], fields, UpdateOne(c, Eq(k, v), fields).coll[i])
  {
    match FirstMatch(c, Eq(k, v))
    case None =>
    case Some(i) =>
      MatchesEq(c[i], k, v);
      forall j | 0 <= j < i ensures Field(c[j], k) != v {
        MatchesEq(c[j], k, v);
      }
  }

  /** A payment whose `bookId` converts to an ObjectId marks the listing
      with that id as sold and changes nothing else among the listings. */
  lemma PaymentMarksSold(t: Tables, auth: Option<string>, verify: Verifier, payment: Doc, gen: Value, oid: Value)
    requires RecordPayment(t, auth, verify, payment, gen).response.Sent?
    requires ObjectId(Field(payment, "bookId")) == Parsed(oid)
    ensures var b := RecordPayment(t, auth, verify, payment, gen).tables.books;
      match FirstMatch(t.books, Eq("_id", oid))
      case None => b == t.books
      case Some(i) =>
        && b[i]["sold"] == Bool(true)
        && b[i].Keys == t.books[i].Keys + {"sold"}
        && (forall k :: k in t.books[i] && k != "sold" ==> b[i][k] == t.books[i][k])
        && (forall j :: 0 <= j < |b| && j != i ==> b[j] == t.books[j])
  {
  }

  /** A null, absent or numeric `bookId` either makes a new ObjectId, which
      names no listing, or throws: no listing is marked sold. */
  lemma PaymentGeneratedIdSellsNothing(t: Tables, auth: Option<string>, verify: Verifier, payment: Doc, gen: Value)
    requires RecordPayment(t, auth, verify, payment, gen).response.Sent?
    requires Field(payment, "bookId").Null? || Field(payment, "bookId").Num?
    ensures RecordPayment(t, auth, verify, payment, gen).tables.books == t.books
  {
  }

  /** Once paid for, a listing is never offered in any category again. */
  lemma SoldBookLeavesBrowse(t: Tables, auth: Option<string>, verify: Verifier, payment: Doc, gen: Value, oid: Value, name: string)
    requires UniqueIds(t.books)
    requires RecordPayment(t, auth, verify, payment, gen).response.Sent?
    requires ObjectId(Field(payment, "bookId")) == Parsed(oid)
    ensures forall d :: d in Browse(RecordPayment(t, auth, verify, payment, gen).tables, name) ==> Field(d, "_id") != oid
  {
    var after := RecordPayment(t, auth, verify, payment, gen).tables;
    PaymentMarksSold(t, auth, verify, payment, gen, oid);
    forall d | d in Browse(after, name) ensures Field(d, "_id") != oid {
      var j :| 0 <= j < |after.books| && after.books[j] == d;
      var f := Eq("_id", oid);
      MatchesEq(t.books[j], "_id", oid);
      match FirstMatch(t.books, f)
      case None =>
      case Some(i) =>
        if i != j {
          MatchesEq(t.books[i], "_id", oid);
        }
    }
  }

  // ---------------------------------------------------------------- admin

  /** `PUT /admin/:id` (token and admin role): sets `verify: true` on the
      user with that ObjectId, creating one if there is none; a path id
      `ObjectId` rejects throws before the write. */
  function VerifyUser(t: Tables, auth: Option<string>, verify: Verifier, id: string, gen: Value): (r: Step<WriteResult>)
    ensures !AdminGate(t.users, auth, verify).Pass? ==> r == Step(t, Refuse(AdminGate(t.users, auth, verify)))
    ensures r.tables.(users := t.users) == t
    ensures AdminGate(t.users, auth, verify).Pass? ==> (r.response.Sent? <==> ObjectId(Str(id)).Parsed?)
    ensures AdminGate(t.users, auth, verify).Pass? && !ObjectId(Str(id)).Parsed? ==> r == Step(t, NoResponse)
  {
    var gate := AdminGate(t.users, auth, verify);
    if !gate.Pass? then Step(t, Refuse(gate))
    else match ObjectId(Str(id))
      case Parsed(oid) =>
        var w := UpsertOne(t.users, "_id", oid, map["verify" := Bool(true)], gen);
        Step(t.(users := w.coll), Sent(w.result))
      case _ => Step(t, NoResponse)
  }

  /** The write an admin's verify makes: the first user with that id gets
      `verify: true` with its other fields kept, and no other user changes;
      without one, exactly `{ _id, verify: true }` is appended. */
  lemma VerifyUserUpdates(t: Tables, auth: Option<string>, verify: Verifier, id: string, oid: Value, gen: Value)
    requires AdminGate(t.users, auth, verify).Pass? && ObjectId(Str(id)) == Parsed(oid)
    ensures var r := VerifyUser(t, auth, verify, id, gen);
      var u := r.tables.users;
      match FirstMatch(t.users, Eq("_id", oid))
      case Some(i) =>
        && |u| == |t.users| && SetApplied(t.users[i], map["verify" := Bool(true)], u[i])
        && (forall j :: 0 <= j < |u| && j != i ==> u[j] == t.users[j])
        && r.response.Sent? && r.response.body.matchedCount == 1 && r.response.body.upsertedId.None?
      case None =>
        && u == t.users + [map["_id" := oid, "verify" := Bool(true)]]
        && r.response == Sent(UpdateResult(0, 0, Some(oid)))
  {
    var w := UpsertOne(t.users, "_id", oid, map["verify" := Bool(true)], gen);
    assert VerifyUser(t, auth, verify, id, gen) == Step(t.(users := w.coll), Sent(w.result));
    UpsertVerified(t.users, oid, gen);
  }

  /** The upsert behind an admin's verify, on the users alone. */
  lemma UpsertVerified(users: seq<Doc>, oid: Value, gen: Value)
    ensures var w := UpsertOne(users, "_id", oid, map["verify" := Bool(true)], gen);
      match FirstMatch(users, Eq("_id", oid))
      case Some(i) =>
        && |w.coll| == |users| && SetApplied(users[i], map["verify" := Bool(true)], w.coll[i])
        && (forall j :: 0 <= j < |w.coll| && j != i ==> w.coll[j] == users[j])
        && w.result.UpdateResult? && w.result.matchedCount == 1 && w.result.upsertedId.None?
      case None =>
        && w.coll == users + [map["_id" := oid, "verify" := Bool(true)]]
        && w.result == UpdateResult(0, 0, Some(oid))
  {
    var fields: Doc := map["verify" := Bool(true)];
    if FirstMatch(users, Eq("_id", oid)).None? {
      assert UpsertSeed("_id", oid, fields, gen) == map["_id" := oid, "verify" := Bool(true)];
    }
  }

  /** After an admin's verify, looking the id up finds a user marked
      verified, whether it existed before or was just created. */
  lemma VerifyUserMarks(t: Tables, auth: Option<string>, verify: Verifier, id: string, oid: Value, gen: Value)
    requires AdminGate(t.users, auth, verify).Pass? && ObjectId(Str(id)) == Parsed(oid)
    ensures var u := FindOne(VerifyUser(t, auth, verify, id, gen).tables.users, Eq("_id", oid));
      u.Some? && Field(u.value, "verify") == Bool(true)
  {
    assert VerifyUser(t, auth, verify, id, gen).tables.users
      == UpsertOne(t.users, "_id", oid, map["verify" := Bool(true)], gen).coll;
    UpsertMarks(t.users, oid, gen);
  }

  lemma UpsertMarks(users: seq<Doc>, oid: Value, gen: Value)
    ensures var u := FindOne(UpsertOne(users, "_id", oid, map["verify" := Bool(true)], gen).coll, Eq("_id", oid));
      u.Some? && Field(u.value, "verify") == Bool(true)
  {
    var f := Eq("_id", oid);
    var fields: Doc := map["verify" := Bool(true)];
    var after := UpsertOne(users, "_id", oid, fields, gen).coll;
    match FirstMatch(users, f)
    case Some(i) =>
      assert forall p :: p in f ==> |p| >= 1 && p[0] !in fields;
      UpdateKeepsFirstMatch(users, f, fields);
    case None =>
      var n := |users|;
      assert after[n] == UpsertSeed("_id", oid, fields, gen);
      MatchesEq(after[n], "_id", oid);
      assert forall j :: 0 <= j < n ==> after[j] == users[j];
  }

  /** `DELETE /reportBook/:id` (token and admin role): deletes the listing
      with that ObjectId, then the first report whose `reportBookId` is the
      id string; nothing else changes. A path id `ObjectId` rejects throws
      before either delete. */
  function DeleteReportedBook(t: Tables, auth: Option<string>, verify: Verifier, id: string): (r: Step<WriteResult>)
    ensures !AdminGate(t.users, auth, verify).Pass? ==> r == Step(t, Refuse(AdminGate(t.users, auth, verify)))
    ensures r.tables.users == t.users && r.tables.bookings == t.bookings && r.tables.payments == t.payments
    ensures AdminGate(t.users, auth, verify).Pass? ==> (r.response.Sent? <==> ObjectId(Str(id)).Parsed?)
    ensures AdminGate(t.users, auth, verify).Pass? && !ObjectId(Str(id)).Parsed? ==> r == Step(t, NoResponse)
  {
    var gate := AdminGate(t.users, auth, verify);
    if !gate.Pass? then Step(t, Refuse(gate))
    else match ObjectId(Str(id))
      case Parsed(oid) =>
        var bs := DeleteOne(t.books, Eq("_id", oid));
        var rs := DeleteOne(t.reports, Eq("reportBookId", Str(id)));
        Step(t.(books := bs.coll, reports := rs.coll), Sent(bs.result))
      case _ => Step(t, NoResponse)
  }

  /** An admin's delete removes the first listing with the parsed id, keeping
      the others in order, and reports whether one went; the first report
      naming the id string is removed too. With unique listing ids, the
      listings left are exactly those with another id. */
  lemma DeleteReportedBookRemoves(t: Tables, auth: Option<string>, verify: Verifier, id: string, oid: Value)
    requires UniqueIds(t.books)
    requires AdminGate(t.users, auth, verify).Pass? && ObjectId(Str(id)) == Parsed(oid)
    ensures var r := DeleteReportedBook(t, auth, verify, id);
      && (match FirstMatch(t.books, Eq("_id", oid))
        case None => r.tables.books == t.books
        case Some(k) => r.tables.books == t.books[..k] + t.books[k + 1..] && Field(t.books[k], "_id") == oid)
      && (forall d :: d in r.tables.books <==> d in t.books && Field(d, "_id") != oid)
      && r.response == Sent(DeleteResult(if exists j :: 0 <= j < |t.books| && Field(t.books[j], "_id") == oid then 1 else 0))
      && match FirstMatch(t.reports, Eq("reportBookId", Str(id)))
        case None => r.tables.reports == t.reports
        case Some(i) =>
          && r.tables.reports == t.reports[..i] + t.reports[i + 1..]
          && Field(t.reports[i], "reportBookId") == Str(id)
          && forall j :: 0 <= j < i ==> Field(t.reports[j], "reportBookId") != Str(id)
  {
    DeleteReportedBookFirst(t, auth, verify, id, oid);
    DeleteById(t.books, oid);
    DeleteCount(t.books, "_id", oid);
    match FirstMatch(t.reports, Eq("reportBookId", Str(id)))
    case None =>
    case Some(i) =>
      MatchesEq(t.reports[i], "reportBookId", Str(id));
      forall j | 0 <= j < i ensures Field(t.reports[j], "reportBookId") != Str(id) {
        MatchesEq(t.reports[j], "reportBookId", Str(id));
      }
  }

  /** The listing delete removes exactly the first listing with the parsed id. */
  lemma DeleteReportedBookFirst(t: Tables, auth: Option<string>, verify: Verifier, id: string, oid: Value)
    requires AdminGate(t.users, auth, verify).Pass? && ObjectId(Str(id)) == Parsed(oid)
    ensures var r := DeleteReportedBook(t, auth, verify, id);
      match FirstMatch(t.books, Eq("_id", oid))
      case None => r.tables.books == t.books
      case Some(k) => r.tables.books == t.books[..k] + t.books[k + 1..] && Field(t.books[k], "_id") == oid
  {
    FirstMatchHolds(t.books, "_id", oid);
  }

  /** `DELETE /admin-delete/:id` (token and admin role): removes the first
      user with that ObjectId; nothing else changes. A path id `ObjectId`
      rejects throws before the delete. */
  function DeleteUser(t: Tables, auth: Option<string>, verify: Verifier, id: string): (r: Step<WriteResult>)
    ensures !AdminGate(t.users, auth, verify).Pass? ==> r == Step(t, Refuse(AdminGate(t.users, auth, verify)))
    ensures r.tables.(users := t.users) == t
    ensures AdminGate(t.users, auth, verify).Pass? && !ObjectId(Str(id)).Parsed? ==> r == Step(t, NoResponse)
    ensures AdminGate(t.users, auth, verify).Pass? && ObjectId(Str(id)).Parsed? ==>
      var oid := ObjectId(Str(id)).id;
      match FirstMatch(t.users, Eq("_id", oid))
      case None => r == Step(t, Sent(DeleteResult(0)))
      case Some(i) =>
        && r.tables.users == t.users[..i] + t.users[i + 1..]
        && Field(t.users[i], "_id") == oid
        && r.response == Sent(DeleteResult(1))
  {
    var gate := AdminGate(t.users, auth, verify);
    if !gate.Pass? then Step(t, Refuse(gate))
    else match ObjectId(Str(id))
      case Parsed(oid) =>
        FirstMatchHolds(t.users, "_id", oid);
        var w := DeleteOne(t.users, Eq("_id", oid));
        Step(t.(users := w.coll), Sent(w.result))
      case _ => Step(t, NoResponse)
  }
}
