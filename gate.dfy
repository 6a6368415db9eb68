/** The access gate: the `verifyJWT` and `verifyAdmin` middlewares and the
    owner comparison the self-service routes make inline. Each decides a
    request is refused with 401, refused with 403, or goes on with the
    decoded token payload. */
module Gate {
  import opened Docs
  import opened Collections
  import Text

  datatype Outcome = Unauthorized | Forbidden | Pass(claims: Doc)

  /** `jwt.verify(token, secret)` as an oracle: the decoded payload, or
      `None` when the signature is wrong or the token has expired. */
  type Verifier = string -> Option<Doc>

  /** `!authHeader` is false: a header is there and is not the empty string. */
  predicate HasHeader(auth: Option<string>) {
    auth.Some? && auth.value != ""
  }

  /** `authHeader.split(" ")[1]`: the piece after the first space, up to the
      next one; `undefined` when the header has no space. */
  function TokenPart(header: string): (r: Option<string>)
    ensures r.None? <==> ' ' !in header
    ensures r.Some? ==> ' ' !in r.value
    ensures r.Some? ==> exists head, rest :: ' ' !in head && header == head + " " + r.value + rest && (rest == "" || rest[0] == ' ')
  {
    var parts := Text.Split(header, ' ');
    if |parts| >= 2 then
      Text.JoinSecond(parts, ' ');
      assert header == parts[0] + " " + parts[1] + Text.AfterSecond(parts, ' ');
      Some(parts[1])
    else None
  }

  /** The token the gate hands to `jwt.verify`, when there is one it
      accepts to check at all (it refuses a missing or empty token itself). */
  function Token(auth: Option<string>): Option<string>
    requires HasHeader(auth)
  {
    match TokenPart(auth.value)
    case Some(t) => if t == "" then None else Some(t)
    case None => None
  }

  /** `verifyJWT`: no header is 401; a header whose token is missing or does
      not verify is 403; otherwise the decoded payload goes on. */
  function VerifyJwt(auth: Option<string>, verify: Verifier): (r: Outcome)
    ensures r == Unauthorized <==> !HasHeader(auth)
    ensures r == Forbidden <==> HasHeader(auth) && (Token(auth).None? || verify(Token(auth).value).None?)
    ensures r.Pass? ==> Token(auth).Some? && verify(Token(auth).value) == Some(r.claims)
  {
    if !HasHeader(auth) then Unauthorized
    else match Token(auth)
      case None => Forbidden
      case Some(token) =>
        match verify(token)
        case None => Forbidden
        case Some(claims) => Pass(claims)
  }

  /** The scheme word before the space is never looked at: any first word
      gives the same token, and so the same decision. */
  lemma SchemeIgnored(scheme: string, token: string, verify: Verifier)
    requires ' ' !in scheme && ' ' !in token
    ensures TokenPart(scheme + " " + token) == Some(token)
    ensures VerifyJwt(Some(scheme + " " + token), verify) == VerifyJwt(Some("Bearer " + token), verify)
  {
    BearerToken(scheme, token);
    BearerToken("Bearer", token);
    assert "Bearer" + " " == "Bearer ";
    assert "Bearer" + " " + token == "Bearer " + token;
  }

  lemma BearerToken(scheme: string, token: string)
    requires ' ' !in scheme && ' ' !in token
    ensures TokenPart(scheme + " " + token) == Some(token)
  {
    var parts := [scheme, token];
    assert Text.Join(parts[1..], ' ') == token;
    assert Text.Join(parts, ' ') == scheme + " " + token;
    Text.SplitJoin(parts, ' ');
  }

  /** A header with no space carries no token, and is refused with 403. */
  lemma NoSpaceForbidden(header: string, verify: Verifier)
    requires header != "" && ' ' !in header
    ensures VerifyJwt(Some(header), verify) == Forbidden
  {
  }

  /** The decoded `email` claim, as `req.decoded.email` reads it. */
  function DecodedEmail(claims: Doc): Value {
    Field(claims, "email")
  }

  /** `email !== decodedEmail` is false: the claim is exactly the path's string. */
  predicate IsOwner(claims: Doc, email: string) {
    DecodedEmail(claims) == Str(email)
  }

  /** `verifyJWT` followed by the inline owner comparison. */
  function OwnerGate(auth: Option<string>, verify: Verifier, email: string): (r: Outcome)
    ensures r == Unauthorized <==> !HasHeader(auth)
    ensures r.Pass? <==> VerifyJwt(auth, verify).Pass? && IsOwner(VerifyJwt(auth, verify).claims, email)
    ensures r.Pass? ==> r == VerifyJwt(auth, verify)
  {
    match VerifyJwt(auth, verify)
    case Pass(claims) => if IsOwner(claims, email) then Pass(claims) else Forbidden
    case refused => refused
  }

  /** The user record `verifyAdmin` finds for the decoded email; an absent
      claim is `undefined`, which the query sends as null. */
  function CallerRecord(users: seq<Doc>, claims: Doc): Option<Doc> {
    FindOne(users, Eq("email", DecodedEmail(claims)))
  }

  /** `verifyAdmin`: goes on exactly when the first user record whose email
      equals the decoded one has role "admin"; no record is 403 like any
      other role. */
  function VerifyAdmin(users: seq<Doc>, claims: Doc): (r: Outcome)
    ensures r == Pass(claims) || r == Forbidden
    ensures r.Pass? <==>
      exists i :: 0 <= i < |users| && Field(users[i], "email") == DecodedEmail(claims)
        && (forall j :: 0 <= j < i ==> Field(users[j], "email") != DecodedEmail(claims))
        && Field(users[i], "role") == Str("admin")
  {
    var f := Eq("email", DecodedEmail(claims));
    forall j | 0 <= j < |users| ensures Matches(users[j], f) <==> Field(users[j], "email") == DecodedEmail(claims) {
      MatchesEq(users[j], "email", DecodedEmail(claims));
    }
    match CallerRecord(users, claims)
    case Some(user) => if Field(user, "role") == Str("admin") then Pass(claims) else Forbidden
    case None => Forbidden
  }

  /** `verifyJWT` then `verifyAdmin`: the user table is consulted only once
      the token has passed, so a refused token is refused the same way
      whatever the users are. */
  function AdminGate(users: seq<Doc>, auth: Option<string>, verify: Verifier): (r: Outcome)
    ensures r == Unauthorized <==> !HasHeader(auth)
    ensures !VerifyJwt(auth, verify).Pass? ==> r == VerifyJwt(auth, verify)
    ensures r.Pass? <==> VerifyJwt(auth, verify).Pass? && VerifyAdmin(users, VerifyJwt(auth, verify).claims).Pass?
    ensures r.Pass? ==> r == VerifyJwt(auth, verify)
  {
    match VerifyJwt(auth, verify)
    case Pass(claims) => VerifyAdmin(users, claims)
    case refused => refused
  }
}
