/** Schemaless documents as the server stores and receives them: a request
    body, a decoded token payload and a stored record are all a `Doc`. */
module Docs {

  datatype Option<T> = None | Some(value: T)

  /** A JSON/BSON value. Numbers are kept as integers: no handler computes
      with one. `Oid` is a MongoDB ObjectId, distinct from the string it was
      parsed from. */
  datatype Value =
    | Null
    | Bool(b: bool)
    | Num(n: int)
    | Str(s: string)
    | Oid(hex: string)
    | Obj(fields: map<string, Value>)

  type Doc = map<string, Value>

  /** A field as a MongoDB equality match sees it: an absent field reads as
      null, which is also what an `undefined` filter value is sent as. */
  function Field(d: Doc, k: string): Value {
    if k in d then d[k] else Null
  }

  /** A dotted field path ("seller.email" is ["seller", "email"]); a step
      through anything but an embedded document reads as null. */
  type Path = seq<string>

  function Resolve(d: Doc, p: Path): Value
    decreases |p|
  {
    if |p| == 0 then Obj(d)
    else if |p| == 1 then Field(d, p[0])
    else match Field(d, p[0])
      case Obj(inner) => Resolve(inner, p[1..])
      case _ => Null
  }

  /** A query filter: every path must resolve to the given value. */
  type Filter = map<Path, Value>

  predicate Matches(d: Doc, f: Filter) {
    forall p :: p in f ==> Resolve(d, p) == f[p]
  }

  /** The single-field filter `{ k: v }`. */
  function Eq(k: string, v: Value): Filter {
    map[[k] := v]
  }

  lemma MatchesEq(d: Doc, k: string, v: Value)
    ensures Matches(d, Eq(k, v)) <==> Field(d, k) == v
  {
    assert [k] in Eq(k, v);
  }

  /** What `ObjectId(x)` of the bson 4 library does with a value taken from
      a request: parse it to an ObjectId, generate a new one, or throw. */
  datatype IdConversion = Parsed(id: Value) | Generated | Throws

  predicate IsHexChar(c: char) {
    '0' <= c <= '9' || 'a' <= c <= 'f' || 'A' <= c <= 'F'
  }

  /** Matches `/^[0-9a-fA-F]*$/`. */
  predicate IsHex(s: string) {
    forall i :: 0 <= i < |s| ==> IsHexChar(s[i])
  }

  /** The form `toHexString()` prints: lower-case hex digits only. */
  predicate IsLowerHex(s: string) {
    forall i :: 0 <= i < |s| ==> '0' <= s[i] <= '9' || 'a' <= s[i] <= 'f'
  }

  /** Every character is one byte in UTF-8. */
  predicate IsAscii(s: string) {
    forall i :: 0 <= i < |s| ==> s[i] as int < 128
  }

  function LowerChar(c: char): char {
    if 'A' <= c <= 'F' then (c as int + 32) as char else c
  }

  function Lower(s: string): (r: string)
    ensures |r| == |s|
    ensures forall i :: 0 <= i < |s| ==> r[i] == LowerChar(s[i])
  {
    if s == [] then [] else [LowerChar(s[0])] + Lower(s[1..])
  }

  function HexDigit(n: nat): (c: char)
    requires n < 16
    ensures '0' <= c <= '9' || 'a' <= c <= 'f'
  {
    if n < 10 then ('0' as int + n) as char else ('a' as int + n - 10) as char
  }

  /** The hex form of a string's bytes, for a string of one-byte characters. */
  function ByteHex(s: string): (r: string)
    requires IsAscii(s)
    ensures |r| == 2 * |s| && IsLowerHex(r)
  {
    if s == [] then []
    else [HexDigit(s[0] as int / 16), HexDigit(s[0] as int % 16)] + ByteHex(s[1..])
  }

  /** `ObjectId(s)` for a string: 12 characters are taken as the 12 bytes
      of the id (they must be 12 bytes in UTF-8), 24 hex digits of either
      case are the id in hex; any other string throws. */
  function IdFromString(s: string): (r: IdConversion)
    ensures r.Parsed? <==> (|s| == 12 && IsAscii(s)) || (|s| == 24 && IsHex(s))
    ensures !r.Parsed? ==> r == Throws
    ensures r.Parsed? ==> r.id.Oid? && |r.id.hex| == 24 && IsLowerHex(r.id.hex)
    ensures |s| == 24 && IsHex(s) ==> r == Parsed(Oid(Lower(s)))
  {
    if |s| == 12 then
      if IsAscii(s) then Parsed(Oid(ByteHex(s))) else Throws
    else if |s| == 24 && IsHex(s) then Parsed(Oid(Lower(s)))
    else Throws
  }

  /** The timestamps an ObjectId can hold: its first four bytes, written
      as an unsigned 32-bit number. */
  const TimestampLimit := 0x1_0000_0000

  /** `ObjectId(x)`: null and `undefined` generate a new id for the current
      time, a number generates one for that timestamp (and throws when it
      does not fit in 32 unsigned bits), a string is parsed, an object is
      read through its `id` field, which must be a string, an ObjectId stays
      itself, and anything else throws. */
  function ObjectId(v: Value): (r: IdConversion)
    ensures r == Generated <==> v.Null? || (v.Num? && 0 <= v.n < TimestampLimit)
    ensures r.Parsed? ==> r.id.Oid?
    ensures v.Str? ==> r == IdFromString(v.s)
    ensures v.Oid? ==> r == Parsed(v)
    ensures v.Bool? ==> r == Throws
    ensures v.Num? && !(0 <= v.n < TimestampLimit) ==> r == Throws
    ensures v.Obj? ==>
      r == if "id" in v.fields && v.fields["id"].Str? then IdFromString(v.fields["id"].s) else Throws
  {
    match v
    case Null => Generated
    case Num(n) => if 0 <= n < TimestampLimit then Generated else Throws
    case Str(s) => IdFromString(s)
    case Oid(_) => Parsed(v)
    case Obj(fields) =>
      if "id" in fields && fields["id"].Str? then IdFromString(fields["id"].s) else Throws
    case Bool(_) => Throws
  }

  /** Lower-casing is idempotent and keeps a string hex. */
  lemma {:induction false} LowerLower(s: string)
    requires IsHex(s)
    ensures IsHex(Lower(s)) && IsLowerHex(Lower(s)) && Lower(Lower(s)) == Lower(s)
  {
    var l := Lower(s);
    forall i | 0 <= i < |s| ensures IsHexChar(l[i]) && ('0' <= l[i] <= '9' || 'a' <= l[i] <= 'f') && LowerChar(l[i]) == l[i] {
      assert l[i] == LowerChar(s[i]);
    }
  }

  /** A lower-case hex string is its own lower-case form. */
  lemma LowerOfLowerHex(h: string)
    requires IsLowerHex(h)
    ensures IsHex(h) && Lower(h) == h
  {
    assert forall i :: 0 <= i < |h| ==> Lower(h)[i] == h[i];
  }

  /** The hex digits are read without regard to case: both spellings of an
      id give the same ObjectId. */
  lemma HexCaseIgnored(s: string)
    requires |s| == 24 && IsHex(s)
    ensures ObjectId(Str(s)) == ObjectId(Str(Lower(s))) == Parsed(Oid(Lower(s)))
  {
    LowerLower(s);
  }

  /** Parsing the hex form an ObjectId prints gives that ObjectId back. */
  lemma HexRoundTrip(h: string)
    requires |h| == 24 && IsLowerHex(h)
    ensures ObjectId(Str(h)) == Parsed(Oid(h))
  {
    LowerOfLowerHex(h);
  }

  /** A 12-character id and the hex spelling of its bytes name the same
      ObjectId. */
  lemma BytesMatchTheirHex(s: string)
    requires |s| == 12 && IsAscii(s)
    ensures ObjectId(Str(s)) == ObjectId(Str(ByteHex(s))) == Parsed(Oid(ByteHex(s)))
  {
    LowerOfLowerHex(ByteHex(s));
  }
}
