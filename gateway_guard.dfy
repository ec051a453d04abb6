/** The HTTP gateway guard: public routes pass untouched; otherwise a token
    is taken from a `Bearer ` Authorization header or else from the
    `access_token` cookie, verified, and its payload attached to the request.
    JWT verification is the guard's collaborator (`verify` yields None where
    it throws). */
module GatewayGuard {
  import opened Wrappers
  import opened JsStrings
  import opened Entities

  const BearerPrefix: string := "Bearer "

  /** `reflector.getAllAndOverride(IS_PUBLIC_KEY, [handler, class])`, read as
      a condition: the handler's flag when it has one, else the class's. */
  predicate IsPublic(handlerFlag: Option<bool>, classFlag: Option<bool>) {
    if handlerFlag.Some? then handlerFlag.value else classFlag.Some? && classFlag.value
  }

  /** `extractTokenFromRequest(request)`: the text after `Bearer ` when the
      header starts with it, else a non-empty `access_token` cookie, else none. */
  function ExtractTokenFromRequest(authorization: Option<string>, cookies: Option<map<string, string>>): (token: Option<string>)
    ensures authorization.Some? && StartsWith(authorization.value, BearerPrefix) ==>
      token.Some? && authorization.value == BearerPrefix + token.value
    ensures !(authorization.Some? && StartsWith(authorization.value, BearerPrefix)) ==>
      (token.Some? <==> Truthy(Lookup(cookies, "access_token"))) && (token.Some? ==> token == Lookup(cookies, "access_token"))
  {
    if authorization.Some? && StartsWith(authorization.value, BearerPrefix) then
      assert authorization.value == authorization.value[..7] + authorization.value[7..];
      Some(authorization.value[7..])
    else if Truthy(Lookup(cookies, "access_token")) then Lookup(cookies, "access_token")
    else None
  }

  /** A header reading exactly `Bearer ` yields the empty token, which hides
      any cookie and is then refused as missing. */
  lemma BareBearerShadowsCookie(cookies: Option<map<string, string>>)
    ensures ExtractTokenFromRequest(Some(BearerPrefix), cookies) == Some("")
  {
    assert BearerPrefix[7..] == "";
  }

  /** The request as the guard sees it; `user` is what it attaches. */
  class HttpRequest {
    const authorization: Option<string>
    const cookies: Option<map<string, string>>
    var user: Option<TokenPayload>

    constructor (authorization: Option<string>, cookies: Option<map<string, string>>)
      ensures this.authorization == authorization && this.cookies == cookies && user == None
    {
      this.authorization := authorization;
      this.cookies := cookies;
      user := None;
    }
  }

  class GatewayGuard {
    const verify: string -> Option<TokenPayload>

    constructor (verify: string -> Option<TokenPayload>)
      ensures this.verify == verify
    {
      this.verify := verify;
    }

    /** `canActivate(context)`. */
    method CanActivate(handlerFlag: Option<bool>, classFlag: Option<bool>, request: HttpRequest) returns (r: Result<bool>)
      modifies request`user
      ensures IsPublic(handlerFlag, classFlag) ==> r == Ok(true) && request.user == old(request.user)
      ensures var token := ExtractTokenFromRequest(request.authorization, request.cookies);
              !IsPublic(handlerFlag, classFlag) && !Truthy(token) ==>
                r == Err(Unauthorized("No authentication token provided")) && request.user == old(request.user)
      ensures var token := ExtractTokenFromRequest(request.authorization, request.cookies);
              !IsPublic(handlerFlag, classFlag) && Truthy(token) && verify(token.value).None? ==>
                r == Err(Unauthorized("Invalid or expired token")) && request.user == old(request.user)
      ensures var token := ExtractTokenFromRequest(request.authorization, request.cookies);
              !IsPublic(handlerFlag, classFlag) && Truthy(token) && verify(token.value).Some? ==>
                r == Ok(true) && request.user == verify(token.value)
    {
      if IsPublic(handlerFlag, classFlag) {
        return Ok(true);
      }
      var token := ExtractTokenFromRequest(request.authorization, request.cookies);
      if !Truthy(token) {
        return Err(Unauthorized("No authentication token provided"));
      }
      var payload := verify(token.value);
      if payload.None? {
        return Err(Unauthorized("Invalid or expired token"));
      }
      request.user := payload;
      return Ok(true);
    }
  }
}
