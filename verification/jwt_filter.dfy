/** `JwtAuthenticationFilter.doFilterInternal`: the once-per-request filter that turns a
    bearer header into the request's authentication. The ambient security context is
    threaded explicitly: the filter maps the authentication present before it to the one
    the handler sees. It returns no status: the filter chain always continues. */
module JwtAuthenticationFilter {
  import opened Wrappers
  import opened Security

  function DoFilterInternal(jwt: JwtService, header: Option<string>, context: Option<Authentication>)
    : (after: Option<Authentication>)
    ensures TokenAccepted(jwt, header) ==>
      after == Some(Authentication(Username(jwt.extractUsername(BearerToken(header).value)), None))
    ensures !TokenAccepted(jwt, header) ==> after == context
  {
    var token := BearerToken(header);
    if token.Some? && jwt.validateToken(token.value) then
      Some(Authentication(Username(jwt.extractUsername(token.value)), None))
    else
      context
  }

  /** The filter and the write handlers accept the same headers: whatever the request
      context held before, the filter leaves an authenticated principal exactly when the
      header passes the handlers' own prefix and validity checks, or when the context was
      already authenticated. */
  lemma FilterAuthenticatesAcceptedHeaders(jwt: JwtService, header: Option<string>, context: Option<Authentication>)
    ensures Authenticated(DoFilterInternal(jwt, header, context)) <==>
      TokenAccepted(jwt, header) || Authenticated(context)
  {
  }

  /** A header of the form "Bearer " + token is accepted exactly when the token validates,
      and the principal set is that token's subject. */
  lemma FilterOnBearerHeader(jwt: JwtService, token: string, context: Option<Authentication>)
    ensures var after := DoFilterInternal(jwt, Some(BearerPrefix + token), context);
      && (jwt.validateToken(token) ==> after == Some(Authentication(Username(jwt.extractUsername(token)), None)))
      && (!jwt.validateToken(token) ==> after == context)
  {
  }
}
