/** `App\Security\JwtAuthenticator`: recognising a bearer header, extracting
    the token, and mapping each way authentication fails to its message and
    to the 401 response. Decoding the token (signature and expiry checks) and
    looking a user up by email are foreign calls; they are parameters here. */
module Security {
  import opened Results

  const BearerPrefix: string := "Bearer "
  const NoBearer: string := "No Bearer token provided"
  const InvalidToken: string := "Invalid or expired JWT token"
  const UserNotFound: string := "User not found"
  const UnauthorizedPrefix: string := "Unauthorized: "
  const Unauthorized: int := 401

  /** PHP's `str_starts_with`. */
  predicate StartsWith(s: string, prefix: string) {
    |prefix| <= |s| && s[..|prefix|] == prefix
  }

  /** A header value PHP treats as false in `!$authHeader`: an absent
      header, the empty string or "0". */
  predicate Falsy(header: Option<string>) {
    header.None? || header.value == "" || header.value == "0"
  }

  /** `supports`: an Authorization header is present and starts with the
      bearer prefix. */
  function Supports(header: Option<string>): (b: bool)
    ensures b <==>
      header.Some? && |header.value| >= |BearerPrefix| &&
      header.value == BearerPrefix + header.value[|BearerPrefix|..]
  {
    header.Some? && StartsWith(header.value, BearerPrefix)
  }

  /** A header is supported exactly when it is the bearer prefix followed by
      some token. */
  lemma SupportsIffPrefixed(header: Option<string>)
    ensures Supports(header) <==> header.Some? && exists t :: header.value == BearerPrefix + t
  {
    if Supports(header) {
      var t := header.value[|BearerPrefix|..];
      assert header.value == BearerPrefix + t;
    }
  }

  /** `substr($authHeader, 7)`: the header without its seven-character
      prefix. */
  function Token(header: string): (t: string)
    requires Supports(Some(header))
    ensures BearerPrefix + t == header
  {
    header[7..]
  }

  /** What a request resolves to: the user, or the message of the
      authentication exception raised on the way. `decode` stands for
      `JWT::decode` followed by reading the `user` claim (`None` when it
      throws); `findUser` stands for the repository lookup by email. */
  function Authenticate<U>(header: Option<string>, decode: string -> Option<string>,
                           findUser: string -> Option<U>): (r: Result<U>)
    ensures r == Err(NoBearer) <==> !Supports(header)
    ensures Supports(header) ==>
      (r == Err(InvalidToken) <==> decode(Token(header.value)).None?)
    ensures r.Ok? <==>
      Supports(header) && decode(Token(header.value)).Some? &&
      findUser(decode(Token(header.value)).value).Some?
    ensures r.Ok? ==> findUser(decode(Token(header.value)).value) == Some(r.value)
    ensures r.Err? ==> r.message in {NoBearer, InvalidToken, UserNotFound}
  {
    if Falsy(header) || !StartsWith(header.value, BearerPrefix) then
      Err(NoBearer)
    else
      match decode(Token(header.value))
      case None => Err(InvalidToken)
      case Some(identifier) =>
        match findUser(identifier)
        case None => Err(UserNotFound)
        case Some(user) => Ok(user)
  }

  /** The JSON response `onAuthenticationFailure` sends. */
  datatype Response = Response(status: int, error: string)

  function OnAuthenticationFailure(message: string): (r: Response)
    ensures r.status == Unauthorized
    ensures |r.error| == |UnauthorizedPrefix| + |message|
    ensures StartsWith(r.error, UnauthorizedPrefix)
    ensures r.error[|UnauthorizedPrefix|..] == message
  {
    Response(Unauthorized, UnauthorizedPrefix + message)
  }

  /** The `!$authHeader` test never rejects a header that the prefix test
      would accept, so `authenticate` fails exactly where `supports` is
      false. */
  lemma FalsyIsNotBearer(header: Option<string>)
    ensures Falsy(header) ==> !Supports(header)
  {
    if header.Some? && Supports(header) {
      assert header.value[..|BearerPrefix|] == BearerPrefix;
      assert header.value[0] == 'B';
    }
  }

  /** Prefixing a token and extracting it again gives the token back. */
  lemma TokenRoundTrip(t: string)
    ensures Supports(Some(BearerPrefix + t))
    ensures Token(BearerPrefix + t) == t
  {
    assert (BearerPrefix + t)[..|BearerPrefix|] == BearerPrefix;
  }

  /** For a well-formed bearer header, the outcome is decided by what the
      token decodes to and whether that identity is a known user. */
  lemma {:induction false} AuthenticateBearer<U>(t: string, decode: string -> Option<string>,
                                                findUser: string -> Option<U>)
    ensures decode(t).None? ==>
      Authenticate(Some(BearerPrefix + t), decode, findUser) == Err(InvalidToken)
    ensures decode(t).Some? && findUser(decode(t).value).None? ==>
      Authenticate(Some(BearerPrefix + t), decode, findUser) == Err(UserNotFound)
    ensures decode(t).Some? && findUser(decode(t).value).Some? ==>
      Authenticate(Some(BearerPrefix + t), decode, findUser) == Ok(findUser(decode(t).value).value)
  {
    TokenRoundTrip(t);
  }

  /** Distinct failure messages give distinct response texts. */
  lemma FailureTextDetermined(a: string, b: string)
    ensures OnAuthenticationFailure(a).error == OnAuthenticationFailure(b).error ==> a == b
  {
    var ra, rb := OnAuthenticationFailure(a), OnAuthenticationFailure(b);
    if ra.error == rb.error {
      assert a == ra.error[|UnauthorizedPrefix|..] == rb.error[|UnauthorizedPrefix|..] == b;
    }
  }
}
