/** The passport strategy behind `AuthGuard('jwt-refresh')`: the token comes
    only from the `refresh_token` cookie. */
module JwtRefreshStrategy {
  import opened Wrappers
  import opened JsStrings
  import opened Entities

  /** The `jwtFromRequest` extractor: `request?.cookies?.refresh_token`. */
  function JwtFromRequest(cookies: Option<map<string, string>>): (token: Option<string>)
    ensures token.Some? <==> cookies.Some? && "refresh_token" in cookies.value
    ensures token.Some? ==> token.value == cookies.value["refresh_token"]
  {
    Lookup(cookies, "refresh_token")
  }

  /** `validate(req, payload)`: the request must still carry a refresh cookie,
      and the subject must be a stored user, returned without the hash. */
  function Validate(cookies: Option<map<string, string>>, users: map<UserId, User>, payload: TokenPayload): (r: Result<PublicUser>)
    ensures !Truthy(JwtFromRequest(cookies)) ==> r == Err(Unauthorized("No refresh token provided"))
    ensures Truthy(JwtFromRequest(cookies)) && payload.sub !in users ==> r == Err(Unauthorized("User not found"))
    ensures r.Ok? <==> Truthy(JwtFromRequest(cookies)) && payload.sub in users
    ensures r.Ok? ==> WithHash(r.value, users[payload.sub].passwordHash) == users[payload.sub]
  {
    if !Truthy(JwtFromRequest(cookies)) then Err(Unauthorized("No refresh token provided"))
    else if payload.sub !in users then Err(Unauthorized("User not found"))
    else Ok(Sanitize(users[payload.sub]))
  }
}
