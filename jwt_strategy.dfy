/** The passport strategy behind `@UseGuards(AuthGuard('jwt'))`: the token
    comes from the `access_token` cookie first and from the Bearer header
    only otherwise; the verified payload's subject must be a stored user,
    returned without the password hash. */
module JwtStrategy {
  import opened Wrappers
  import opened JsStrings
  import opened Entities

  /** The `jwtFromRequest` extractor: `cookies?.access_token || bearer`, where
      `bearer` is what passport's Authorization-header extractor returned. */
  function JwtFromRequest(cookies: Option<map<string, string>>, bearer: Option<string>): (token: Option<string>)
    ensures Truthy(Lookup(cookies, "access_token")) ==> token == Lookup(cookies, "access_token")
    ensures !Truthy(Lookup(cookies, "access_token")) ==> token == bearer
  {
    var cookie := Lookup(cookies, "access_token");
    if Truthy(cookie) then cookie else bearer
  }

  /** `validate(payload)`: the subject's user without the password hash, or
      a bare UnauthorizedException. */
  function Validate(users: map<UserId, User>, payload: TokenPayload): (r: Result<PublicUser>)
    ensures r.Err? <==> payload.sub !in users
    ensures r.Err? ==> r.error == Unauthorized("Unauthorized")
    ensures r.Ok? ==> WithHash(r.value, users[payload.sub].passwordHash) == users[payload.sub]
  {
    if payload.sub !in users then Err(Unauthorized("Unauthorized")) else Ok(Sanitize(users[payload.sub]))
  }
}
