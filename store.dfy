/** The server's five collections as one object whose mutating handlers
    write them one call at a time, in the order the handlers await their
    driver calls. Each method ends in the state and the response that
    `Routes` specifies for that request. */
module Server {
  import opened Docs
  import opened Collections
  import opened Gate
  import opened Routes

  class Store {
    var users: seq<Doc>
    var books: seq<Doc>
    var bookings: seq<Doc>
    var payments: seq<Doc>
    var reports: seq<Doc>

    function Snapshot(): Tables
      reads this
    {
      Tables(users, books, bookings, payments, reports)
    }

    /** The store's invariant is the database's: listing ids are unique. */
    ghost predicate Valid()
      reads this
    {
      UniqueIds(books)
    }

    constructor (initial: Tables)
      requires UniqueIds(initial.books)
      ensures Valid() && Snapshot() == initial
    {
      users, books, bookings := initial.users, initial.books, initial.bookings;
      payments, reports := initial.payments, initial.reports;
    }

    /** `PUT /user/:email`: the upsert, then the token; `now` is the clock
      `jwt.sign` reads. */
    method PutUser(email: string, body: Doc, gen: Value, now: int) returns (response: Response<Session>)
      requires Valid()
      modifies this
      ensures Valid()
      ensures Snapshot() == Routes.PutUser(old(Snapshot()), email, body, gen, now).tables
      ensures response == Routes.PutUser(old(Snapshot()), email, body, gen, now).response
    {
      if DollarKey(body) {
        return NoResponse;
      }
      var written := UpsertOne(users, "email", Str(email), body, gen);
      users := written.coll;
      if SignRejects(body) {
        return NoResponse;
      }
      response := Sent(Session(written.result, SignedClaims(body, now)));
    }

    /** `PUT /payments`: insert, then the booking update, then the listing
      update, with nothing undone when a later step throws. */
    method RecordPayment(auth: Option<string>, verify: Verifier, payment: Doc, gen: Value)
      returns (response: Response<WriteResult>)
      requires Valid()
      modifies this
      ensures Valid()
      ensures Snapshot() == Routes.RecordPayment(old(Snapshot()), auth, verify, payment, gen).tables
      ensures response == Routes.RecordPayment(old(Snapshot()), auth, verify, payment, gen).response
    {
      var gate := VerifyJwt(auth, verify);
      if !gate.Pass? {
        return Refuse(gate);
      }
      var inserted := InsertOne(payments, payment, gen);
      if inserted.None? {
        return NoResponse;
      }
      payments := inserted.value.coll;
      var id := Field(payment, "bookId");
      var bookId := ObjectId(id);
      if bookId.Throws? {
        return NoResponse;
      }
      var marked := UpdateOne(bookings, Eq("bookId", id), PaidFields(payment));
      bookings := marked.coll;
      if bookId.Parsed? {
        UpdateKeepsUniqueIds(books, Eq("_id", bookId.id), map["sold" := Bool(true)]);
        var sold := UpdateOne(books, Eq("_id", bookId.id), map["sold" := Bool(true)]);
        books := sold.coll;
      }
      response := Sent(inserted.value.result);
    }

    /** `PUT /advertise/:id`: read the listing, then write the flipped flag. */
    method ToggleAdvertise(auth: Option<string>, verify: Verifier, id: string, gen: Value)
      returns (response: Response<WriteResult>)
      requires Valid()
      modifies this
      ensures Valid()
      ensures Snapshot() == Routes.ToggleAdvertise(old(Snapshot()), auth, verify, id, gen).tables
      ensures response == Routes.ToggleAdvertise(old(Snapshot()), auth, verify, id, gen).response
    {
      var gate := VerifyJwt(auth, verify);
      if !gate.Pass? {
        return Refuse(gate);
      }
      var query := ObjectId(Str(id));
      if !query.Parsed? {
        return NoResponse;
      }
      var book := FindOne(books, Eq("_id", query.id));
      if book.None? {
        return NoResponse;
      }
      var fields := map["advertise" := Bool(NextAdvertise(book.value))];
      UpdateKeepsUniqueIds(books, Eq("_id", query.id), fields);
      var written := UpsertOne(books, "_id", query.id, fields, gen);
      books := written.coll;
      response := Sent(written.result);
    }

    /** `PUT /admin/:id`. */
    method VerifyUser(auth: Option<string>, verify: Verifier, id: string, gen: Value)
      returns (response: Response<WriteResult>)
      requires Valid()
      modifies this
      ensures Valid()
      ensures Snapshot() == Routes.VerifyUser(old(Snapshot()), auth, verify, id, gen).tables
      ensures response == Routes.VerifyUser(old(Snapshot()), auth, verify, id, gen).response
    {
      var gate := AdminGate(users, auth, verify);
      if !gate.Pass? {
        return Refuse(gate);
      }
      var query := ObjectId(Str(id));
      if !query.Parsed? {
        return NoResponse;
      }
      var written := UpsertOne(users, "_id", query.id, map["verify" := Bool(true)], gen);
      users := written.coll;
      response := Sent(written.result);
    }

    /** `DELETE /reportBook/:id`: the listing first, then its report. */
    method DeleteReportedBook(auth: Option<string>, verify: Verifier, id: string)
      returns (response: Response<WriteResult>)
      requires Valid()
      modifies this
      ensures Valid()
      ensures Snapshot() == Routes.DeleteReportedBook(old(Snapshot()), auth, verify, id).tables
      ensures response == Routes.DeleteReportedBook(old(Snapshot()), auth, verify, id).response
    {
      var gate := AdminGate(users, auth, verify);
      if !gate.Pass? {
        return Refuse(gate);
      }
      var query := ObjectId(Str(id));
      if !query.Parsed? {
        return NoResponse;
      }
      DeleteKeepsUniqueIds(books, Eq("_id", query.id));
      var removed := DeleteOne(books, Eq("_id", query.id));
      books := removed.coll;
      var report := DeleteOne(reports, Eq("reportBookId", Str(id)));
      reports := report.coll;
      response := Sent(removed.result);
    }

    /** `DELETE /admin-delete/:id`. */
    method DeleteUser(auth: Option<string>, verify: Verifier, id: string)
      returns (response: Response<WriteResult>)
      requires Valid()
      modifies this
      ensures Valid()
      ensures Snapshot() == Routes.DeleteUser(old(Snapshot()), auth, verify, id).tables
      ensures response == Routes.DeleteUser(old(Snapshot()), auth, verify, id).response
    {
      var gate := AdminGate(users, auth, verify);
      if !gate.Pass? {
        return Refuse(gate);
      }
      var query := ObjectId(Str(id));
      if !query.Parsed? {
        return NoResponse;
      }
      var removed := DeleteOne(users, Eq("_id", query.id));
      users := removed.coll;
      response := Sent(removed.result);
    }
  }

  /** A buyer's payment, then a browse of any category: the paid-for listing
      is not offered, as callers can conclude from the method contracts. */
  method PayThenBrowse(store: Store, auth: Option<string>, verify: Verifier, payment: Doc, gen: Value, listing: Value, name: string)
    returns (offered: seq<Doc>)
    requires store.Valid() && ObjectId(Field(payment, "bookId")) == Parsed(listing)
    modifies store
    ensures store.Valid()
    ensures offered == Browse(store.Snapshot(), name)
    ensures Routes.RecordPayment(old(store.Snapshot()), auth, verify, payment, gen).response.Sent? ==>
      forall d :: d in offered ==> Field(d, "_id") != listing
  {
    ghost var before := store.Snapshot();
    var response := store.RecordPayment(auth, verify, payment, gen);
    offered := Browse(store.Snapshot(), name);
    if response.Sent? {
      SoldBookLeavesBrowse(before, auth, verify, payment, gen, listing, name);
    }
  }
}
