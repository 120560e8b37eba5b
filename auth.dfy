/**
 * The Authorization-header checks: `get_current_user_optional`, which never
 * fails and falls back to the anonymous user, the strict token check
 * `get_current_user` of the auth service, and the bearer-header dependency
 * of the API routers. Verifying the JWT is the parameter `decode`: the claims
 * of the token, or None when `jwt.decode` raises. Claims are modelled as a
 * map from claim name to string value.
 */
module Auth {
  import opened Wrappers
  import opened Text

  type Claims = map<string, string>

  const Anon: string := "anon"
  const BearerScheme: string := "bearer"
  const Sub: string := "sub"
  const InvalidAuthToken: string := "Invalid auth token"
  const InvalidToken: string := "Invalid token"
  /** `payload['sub']` on claims without it raises a KeyError that the server answers with a 500. */
  const MissingSubClaim: string := "Internal Server Error"

  /**
   * `parts = authorization.split()` followed by
   * `len(parts) == 2 and parts[0].lower() == 'bearer'`: the token, if the
   * header has that shape.
   */
  function BearerToken(header: string): (t: Option<string>)
    ensures t.Some? <==> |Words(header)| == 2 && Lower(Words(header)[0]) == BearerScheme
    ensures t.Some? ==> t.value != "" && NoSpace(t.value)
  {
    var parts := Words(header);
    if |parts| == 2 && Lower(parts[0]) == BearerScheme then Some(parts[1]) else None
  }

  /** Two words separated by one space split into exactly those two words. */
  lemma WordsOfPair(a: string, b: string)
    requires a != [] && NoSpace(a) && b != [] && NoSpace(b)
    ensures Words(a + " " + b) == [a, b]
  {
    var s := a + " " + b;
    WordLenOfWord(a, " " + b);
    assert s == a + (" " + b);
    assert s[..|a|] == a;
    assert s[|a|..] == " " + b;
    assert (" " + b)[1..] == b;
    WordsOfWord(b);
  }

  /**
   * The header `<scheme> <token>` yields the token exactly when the scheme
   * lower-cases to "bearer".
   */
  lemma BearerTokenOf(scheme: string, token: string)
    requires scheme != [] && NoSpace(scheme) && token != [] && NoSpace(token)
    ensures BearerToken(scheme + " " + token) == if Lower(scheme) == BearerScheme then Some(token) else None
  {
    WordsOfPair(scheme, token);
  }

  /** `payload.get("sub") or "anon"`. */
  function SubOrAnon(c: Claims): (id: string)
    ensures id != Anon ==> Sub in c && c[Sub] == id
    ensures Sub in c && c[Sub] != "" ==> id == c[Sub]
    ensures id != ""
  {
    if Sub in c && c[Sub] != "" then c[Sub] else Anon
  }

  /** `get_current_user_optional(authorization)`: the user id, never an error. */
  function OptionalUser(header: Option<string>, decode: string -> Option<Claims>): string {
    if header.None? || header.value == "" then Anon
    else match BearerToken(header.value)
      case None => Anon
      case Some(token) =>
        match decode(token)
        case None => Anon
        case Some(claims) => SubOrAnon(claims)
  }

  /**
   * The optional user is anonymous without a header, for a header that is
   * not a bearer header, and for a token that fails to decode; otherwise it
   * is the token's `sub` claim, or anonymous when that is missing or empty.
   */
  lemma OptionalUserSpec(header: Option<string>, decode: string -> Option<Claims>)
    ensures header.None? || header.value == "" ==> OptionalUser(header, decode) == Anon
    ensures header.Some? && BearerToken(header.value).None? ==> OptionalUser(header, decode) == Anon
    ensures var id := OptionalUser(header, decode);
      id != Anon ==>
        && header.Some? && BearerToken(header.value).Some?
        && decode(BearerToken(header.value).value).Some?
        && var c := decode(BearerToken(header.value).value).value;
        && Sub in c && c[Sub] == id
    ensures header.Some? && BearerToken(header.value).Some? ==>
      var d := decode(BearerToken(header.value).value);
      && (d.None? ==> OptionalUser(header, decode) == Anon)
      && (d.Some? && Sub in d.value && d.value[Sub] != "" ==> OptionalUser(header, decode) == d.value[Sub])
  {
    if header.Some? && header.value == "" {
      assert Words(header.value) == [];
    }
  }

  /**
   * The strict `get_current_user(token)`: a 401 when the token does not
   * decode, else the `sub` claim, None when the claims lack it.
   */
  function StrictUser(token: string, decode: string -> Option<Claims>): (r: Result<Option<string>, HttpError>)
    ensures r.Err? <==> decode(token).None?
    ensures r.Err? ==> r.error == HttpError(401, InvalidAuthToken)
    ensures r.Ok? ==> (r.value.Some? <==> Sub in decode(token).value)
    ensures r.Ok? && r.value.Some? ==> r.value.value == decode(token).value[Sub]
  {
    match decode(token)
    case None => Err(HttpError(401, InvalidAuthToken))
    case Some(claims) => Ok(if Sub in claims then Some(claims[Sub]) else None)
  }

  /**
   * The router dependency `get_current_user(authorization)`: None without
   * a header; the `sub` claim for a bearer header whose token decodes to
   * non-empty claims; a 401 for any other header.
   */
  function DepsUser(header: Option<string>, decode: string -> Option<Claims>): (r: Result<Option<string>, HttpError>)
    ensures r == Ok(None) <==> header.None? || header.value == ""
    ensures r.Ok? && r.value.Some? ==>
      && header.Some? && BearerToken(header.value).Some?
      && decode(BearerToken(header.value).value).Some?
      && var c := decode(BearerToken(header.value).value).value;
      && Sub in c && r.value.value == c[Sub]
    ensures header.Some? && header.value != "" && BearerToken(header.value).None? ==> r == Err(HttpError(401, InvalidToken))
    ensures header.Some? && BearerToken(header.value).Some? && decode(BearerToken(header.value).value).None? ==>
      r == Err(HttpError(401, InvalidToken))
    ensures header.Some? && BearerToken(header.value).Some? && decode(BearerToken(header.value).value) == Some(map[]) ==>
      r == Err(HttpError(401, InvalidToken))
    ensures header.Some? && BearerToken(header.value).Some? && decode(BearerToken(header.value).value).Some? ==>
      var c := decode(BearerToken(header.value).value).value;
      c != map[] ==> r == if Sub in c then Ok(Some(c[Sub])) else Err(HttpError(500, MissingSubClaim))
  {
    if header.None? || header.value == "" then Ok(None)
    else match BearerToken(header.value)
      case None => Err(HttpError(401, InvalidToken))
      case Some(token) =>
        match decode(token)
        case None => Err(HttpError(401, InvalidToken))
        case Some(claims) =>
          if claims == map[] then Err(HttpError(401, InvalidToken))
          else if Sub in claims then Ok(Some(claims[Sub]))
          else Err(HttpError(500, MissingSubClaim))
  }

  /**
   * The lenient and the strict header checks agree: where the dependency
   * rejects a header with a 401 the optional check answers anonymous, and
   * where the dependency finds a non-empty user the optional check finds
   * the same one.
   */
  lemma OptionalAgreesWithDeps(header: Option<string>, decode: string -> Option<Claims>)
    ensures DepsUser(header, decode) == Ok(None) ==> OptionalUser(header, decode) == Anon
    ensures DepsUser(header, decode) == Err(HttpError(401, InvalidToken)) ==> OptionalUser(header, decode) == Anon
    ensures DepsUser(header, decode).Ok? && DepsUser(header, decode).value.Some? && DepsUser(header, decode).value.value != "" ==>
      OptionalUser(header, decode) == DepsUser(header, decode).value.value
  {
  }

  /**
   * For a bearer header, the optional check is the strict check on its
   * token with failures and missing or empty subjects turned into the
   * anonymous user.
   */
  lemma OptionalAgreesWithStrict(header: string, decode: string -> Option<Claims>)
    requires header != "" && BearerToken(header).Some?
    ensures var s := StrictUser(BearerToken(header).value, decode);
      OptionalUser(Some(header), decode) == if s.Err? || s.value.None? || s.value.value == "" then Anon else s.value.value
  {
  }
}
