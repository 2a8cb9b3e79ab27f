/** The security vocabulary the handlers share: the token service they call, the
    authentication the request context may hold, and the bearer-header parsing that both
    the filter and the write handlers perform. */
module Security {
  import opened Wrappers
  import opened UserModel

  /** The token service as the handlers see it. Signing, parsing, the secret key and the
      clock are outside the model, so each operation is a function value supplied by the
      caller. `getUserIdFromToken` and `getUserById` are called by the product handlers
      but defined nowhere in the service; they are left uninterpreted, `None` standing for
      the `null` `Long` and the empty `Optional` respectively. */
  datatype JwtService = JwtService(
    validateToken: string -> bool,
    extractUsername: string -> string,
    getUserIdFromToken: Option<string> -> Option<int>,
    getUserById: Option<int> -> Option<User>,
    generateToken: string -> string)

  /** The principal of an authentication. Handlers compare it with the literal
      "anonymousUser" by reference, which only the framework's anonymous marker matches,
      never a user name decoded from a token. */
  datatype Principal = AnonymousUser | Username(name: string)

  /** An authentication object: a principal and (possibly null) credentials. */
  datatype Authentication = Authentication(principal: Principal, credentials: Option<string>)

  /** The test the read and create handlers start with: an authentication is present and
      its principal is not the anonymous marker. */
  predicate Authenticated(auth: Option<Authentication>)
  {
    auth.Some? && auth.value.principal != AnonymousUser
  }

  const BearerPrefix: string := "Bearer "

  /** The token carried by an `Authorization` header: present exactly when the header is
      non-null and starts with "Bearer ", and then the header without its first 7 characters. */
  function BearerToken(header: Option<string>): (token: Option<string>)
    ensures token.Some? <==> header.Some? && |header.value| >= 7 && header.value[..7] == BearerPrefix
    ensures token.Some? ==> header.value == BearerPrefix + token.value
  {
    if header.Some? && |header.value| >= |BearerPrefix| && header.value[..|BearerPrefix|] == BearerPrefix
    then Some(header.value[|BearerPrefix|..])
    else None
  }

  /** A header built from a token gives that token back, so every string is the token of
      exactly one well-formed bearer header. */
  lemma BearerTokenOfHeader(token: string)
    ensures BearerToken(Some(BearerPrefix + token)) == Some(token)
  {
  }

  /** The header is accepted: it carries a bearer token and that token validates. */
  predicate TokenAccepted(jwt: JwtService, header: Option<string>)
  {
    BearerToken(header).Some? && jwt.validateToken(BearerToken(header).value)
  }
}
