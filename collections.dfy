/** The part of MongoDB's collection semantics the handlers rely on. A
    collection is a sequence of documents in natural order, because
    `findOne`, `updateOne` and `deleteOne` act on the first document that
    matches. */
module Collections {
  import opened Docs

  /** What the driver reports back for a write. */
  datatype WriteResult =
    | InsertResult(insertedId: Value)
    | UpdateResult(matchedCount: nat, modifiedCount: nat, upsertedId: Option<Value>)
    | DeleteResult(deletedCount: nat)

  /** A collection after a write, and what the write reported. */
  datatype Write = Write(coll: seq<Doc>, result: WriteResult)

  /** `after` is `before` with the `$set` fields written over it: every set
      field takes its new value, every other field is kept. */
  ghost predicate SetApplied(before: Doc, fields: Doc, after: Doc) {
    && after.Keys == before.Keys + fields.Keys
    && forall k :: k in after ==> after[k] == (if k in fields then fields[k] else before[k])
  }

  /** Index of the first document that matches `f`. */
  function FirstMatch(c: seq<Doc>, f: Filter): (r: Option<nat>)
    ensures r.Some? ==> r.value < |c| && Matches(c[r.value], f)
    ensures r.Some? ==> forall j :: 0 <= j < r.value ==> !Matches(c[j], f)
    ensures r.None? <==> forall j :: 0 <= j < |c| ==> !Matches(c[j], f)
  {
    if |c| == 0 then None
    else if Matches(c[0], f) then Some(0)
    else match FirstMatch(c[1..], f)
      case None => None
      case Some(i) => Some(i + 1)
  }

  /** `findOne(f)`: the first matching document, or nothing when none matches. */
  function FindOne(c: seq<Doc>, f: Filter): (r: Option<Doc>)
    ensures r.None? <==> forall j :: 0 <= j < |c| ==> !Matches(c[j], f)
    ensures r.Some? ==> exists i :: 0 <= i < |c| && c[i] == r.value && FirstMatch(c, f) == Some(i)
  {
    match FirstMatch(c, f)
    case None => None
    case Some(i) => Some(c[i])
  }

  /** `find(f).toArray()`: exactly the matching documents. */
  function Find(c: seq<Doc>, f: Filter): (r: seq<Doc>)
    ensures forall d :: d in r <==> d in c && Matches(d, f)
    ensures forall d :: multiset(r)[d] == if Matches(d, f) then multiset(c)[d] else 0
    ensures Subsequence(r, c)
    ensures |r| <= |c|
  {
    if |c| == 0 then []
    else
      var rest := Find(c[1..], f);
      assert c == [c[0]] + c[1..];
      assert forall d :: d in c <==> d == c[0] || d in c[1..];
      if Matches(c[0], f) then
        assert ([c[0]] + rest)[1..] == rest;
        [c[0]] + rest
      else
        rest
  }

  /** `a` is `b` with some elements dropped, the rest kept in order. */
  predicate Subsequence(a: seq<Doc>, b: seq<Doc>)
  {
    if |a| == 0 then true
    else if |b| == 0 then false
    else if a[0] == b[0] then Subsequence(a[1..], b[1..])
    else Subsequence(a, b[1..])
  }

  /** `insertOne(d)`: appends `d`, with the generated `gen` as `_id` when
      `d._id` is null or absent (the driver tests `_id == null`); a `d` whose
      own `_id` is already taken is refused (duplicate key) and nothing
      changes. */
  function InsertOne(c: seq<Doc>, d: Doc, gen: Value): (r: Option<Write>)
    ensures r.None? <==> Field(d, "_id") != Null && exists j :: 0 <= j < |c| && Field(c[j], "_id") == d["_id"]
    ensures r.Some? ==> |r.value.coll| == |c| + 1 && r.value.coll[..|c|] == c
    ensures r.Some? ==> r.value.coll[|c|] - {"_id"} == d - {"_id"}
    ensures r.Some? ==> r.value.result == InsertResult(Field(r.value.coll[|c|], "_id"))
    ensures r.Some? ==> Field(r.value.coll[|c|], "_id") == if Field(d, "_id") != Null then d["_id"] else gen
  {
    if Field(d, "_id") != Null && exists j :: 0 <= j < |c| && Field(c[j], "_id") == d["_id"] then None
    else
      var stored := if Field(d, "_id") != Null then d else d["_id" := gen];
      assert (c + [stored])[..|c|] == c;
      Some(Write(c + [stored], InsertResult(Field(stored, "_id"))))
  }

  /** `updateOne(f, { $set: fields })`: the first match gets those fields,
      every other document is left as it was. */
  function UpdateOne(c: seq<Doc>, f: Filter, fields: Doc): (r: Write)
    ensures |r.coll| == |c|
    ensures FirstMatch(c, f).None? ==> r.coll == c && r.result == UpdateResult(0, 0, None)
    ensures FirstMatch(c, f).Some? ==>
      var i := FirstMatch(c, f).value;
      && SetApplied(c[i], fields, r.coll[i])
      && (forall j :: 0 <= j < |c| && j != i ==> r.coll[j] == c[j])
      && r.result == UpdateResult(1, if r.coll[i] == c[i] then 0 else 1, None)
  {
    match FirstMatch(c, f)
    case None => Write(c, UpdateResult(0, 0, None))
    case Some(i) =>
      var updated := c[i] + fields;
      Write(c[i := updated], UpdateResult(1, if updated == c[i] then 0 else 1, None))
  }

  /** The document an upsert inserts: the filter's equality field, then the
      set fields (a set `_id` wins over the generated one). */
  function UpsertSeed(k: string, v: Value, fields: Doc, gen: Value): Doc {
    map["_id" := gen][k := v] + fields
  }

  /** `updateOne({ k: v }, { $set: fields }, { upsert: true })`: an update of
      the first match when there is one, otherwise one new document at the
      end that holds `k: v` and the set fields. */
  function UpsertOne(c: seq<Doc>, k: string, v: Value, fields: Doc, gen: Value): (r: Write)
    ensures FirstMatch(c, Eq(k, v)).Some? ==> r == UpdateOne(c, Eq(k, v), fields)
    ensures FirstMatch(c, Eq(k, v)).None? ==>
      && |r.coll| == |c| + 1 && r.coll[..|c|] == c
      && r.coll[|c|].Keys == {"_id", k} + fields.Keys
      && (forall key :: key in fields ==> r.coll[|c|][key] == fields[key])
      && (k !in fields ==> r.coll[|c|][k] == v)
      && ("_id" !in fields && k != "_id" ==> r.coll[|c|]["_id"] == gen)
      && r.result == UpdateResult(0, 0, Some(r.coll[|c|]["_id"]))
  {
    match FirstMatch(c, Eq(k, v))
    case Some(_) => UpdateOne(c, Eq(k, v), fields)
    case None =>
      var seed := UpsertSeed(k, v, fields, gen);
      assert (c + [seed])[..|c|] == c;
      Write(c + [seed], UpdateResult(0, 0, Some(seed["_id"])))
  }

  /** `deleteOne(f)`: the first match is removed and the rest keep their order. */
  function DeleteOne(c: seq<Doc>, f: Filter): (r: Write)
    ensures FirstMatch(c, f).None? ==> r.coll == c && r.result == DeleteResult(0)
    ensures FirstMatch(c, f).Some? ==>
      var i := FirstMatch(c, f).value;
      && |r.coll| == |c| - 1
      && r.coll == c[..i] + c[i + 1..]
      && r.result == DeleteResult(1)
  {
    match FirstMatch(c, f)
    case None => Write(c, DeleteResult(0))
    case Some(i) => Write(c[..i] + c[i + 1..], DeleteResult(1))
  }

  /** MongoDB's own guarantee on a collection: no two documents share `_id`. */
  ghost predicate UniqueIds(c: seq<Doc>) {
    forall i, j :: 0 <= i < |c| && 0 <= j < |c| && i != j ==> Field(c[i], "_id") != Field(c[j], "_id")
  }

  /** Writing fields other than `_id` keeps the ids unique. */
  lemma UpdateKeepsUniqueIds(c: seq<Doc>, f: Filter, fields: Doc)
    requires UniqueIds(c) && "_id" !in fields
    ensures UniqueIds(UpdateOne(c, f, fields).coll)
  {
  }

  /** Removing a document keeps the ids unique. */
  lemma DeleteKeepsUniqueIds(c: seq<Doc>, f: Filter)
    requires UniqueIds(c)
    ensures UniqueIds(DeleteOne(c, f).coll)
  {
  }

  /** With unique ids, deleting by an id leaves exactly the documents that
      carry another id. */
  lemma DeleteById(c: seq<Doc>, v: Value)
    requires UniqueIds(c)
    ensures forall d :: d in DeleteOne(c, Eq("_id", v)).coll <==> d in c && Field(d, "_id") != v
  {
    var f := Eq("_id", v);
    forall j | 0 <= j < |c| ensures Matches(c[j], f) <==> Field(c[j], "_id") == v {
      MatchesEq(c[j], "_id", v);
    }
    match FirstMatch(c, f)
    case None =>
    case Some(i) =>
      assert DeleteOne(c, f).coll == c[..i] + c[i + 1..];
      RemoveIdMembers(c, i, v);
  }

  /** Dropping the one document with id `v` leaves exactly the others. */
  lemma RemoveIdMembers(c: seq<Doc>, i: nat, v: Value)
    requires UniqueIds(c) && i < |c| && Field(c[i], "_id") == v
    ensures forall d :: d in c[..i] + c[i + 1..] <==> d in c && Field(d, "_id") != v
  {
    var r := c[..i] + c[i + 1..];
    forall d ensures d in r <==> d in c && Field(d, "_id") != v {
      if d in r {
        var j :| 0 <= j < |r| && r[j] == d;
        var j' := if j < i then j else j + 1;
        assert d == c[j'];
        assert j' != i;
      }
      if d in c && Field(d, "_id") != v {
        var j :| 0 <= j < |c| && c[j] == d;
        assert j != i;
        assert d == r[if j < i then j else j - 1];
      }
    }
  }

  /** Deleting by a single field removes one document, and reports one,
      exactly when some document holds that value. */
  lemma DeleteCount(c: seq<Doc>, k: string, v: Value)
    ensures var n := if exists j :: 0 <= j < |c| && Field(c[j], k) == v then 1 else 0;
      |DeleteOne(c, Eq(k, v)).coll| == |c| - n && DeleteOne(c, Eq(k, v)).result == DeleteResult(n)
  {
    forall j | 0 <= j < |c| ensures Matches(c[j], Eq(k, v)) <==> Field(c[j], k) == v {
      MatchesEq(c[j], k, v);
    }
  }

  /** The first match of a single-field filter holds that field's value. */
  lemma FirstMatchHolds(c: seq<Doc>, k: string, v: Value)
    ensures FirstMatch(c, Eq(k, v)).Some? ==> Field(c[FirstMatch(c, Eq(k, v)).value], k) == v
  {
    if FirstMatch(c, Eq(k, v)).Some? {
      MatchesEq(c[FirstMatch(c, Eq(k, v)).value], k, v);
    }
  }

  /** Replacing the first match by another matching document keeps it first. */
  lemma ReplaceKeepsFirstMatch(c: seq<Doc>, f: Filter, i: nat, x: Doc)
    requires FirstMatch(c, f) == Some(i) && Matches(x, f)
    ensures FirstMatch(c[i := x], f) == Some(i)
  {
    var c' := c[i := x];
    assert forall j :: 0 <= j < i ==> c'[j] == c[j];
    assert Matches(c'[i], f);
    var m := FirstMatch(c', f).value;
    assert forall j :: 0 <= j < m ==> !Matches(c'[j], f);
    assert Matches(c'[m], f);
  }

  /** Writing fields the filter does not look at leaves the first match
      where it was. */
  lemma {:induction false} UpdateKeepsFirstMatch(c: seq<Doc>, f: Filter, fields: Doc)
    requires forall p :: p in f ==> |p| >= 1 && p[0] !in fields
    ensures FirstMatch(UpdateOne(c, f, fields).coll, f) == FirstMatch(c, f)
  {
    var r := UpdateOne(c, f, fields).coll;
    match FirstMatch(c, f)
    case None =>
    case Some(i) =>
      assert forall p :: p in f ==> Resolve(r[i], p) == Resolve(c[i], p) by {
        forall p | p in f ensures Resolve(r[i], p) == Resolve(c[i], p) {
          assert Field(r[i], p[0]) == Field(c[i], p[0]);
        }
      }
      assert Matches(r[i], f);
      assert forall j :: 0 <= j < i ==> r[j] == c[j];
  }
}
