/** How the three token extractors differ on the same request. */
module TokenPrecedence {
  import opened Wrappers
  import opened JsStrings
  import GatewayGuard
  import JwtStrategy
  import JwtRefreshStrategy

  /** On a request carrying both a non-empty `access_token` cookie and a
      `Bearer` header, the gateway guard takes the header's token while the
      JWT strategy takes the cookie, and the refresh strategy takes neither. */
  lemma OppositePrecedence(cookie: string, headerToken: string, bearer: Option<string>)
    requires cookie != ""
    ensures var cookies := Some(map["access_token" := cookie]);
            && GatewayGuard.ExtractTokenFromRequest(Some(GatewayGuard.BearerPrefix + headerToken), cookies) == Some(headerToken)
            && JwtStrategy.JwtFromRequest(cookies, bearer) == Some(cookie)
            && JwtRefreshStrategy.JwtFromRequest(cookies) == None
  {
    var h := GatewayGuard.BearerPrefix + headerToken;
    assert h[..7] == GatewayGuard.BearerPrefix;
    assert h[7..] == headerToken;
  }
}
