/** The WebSocket guard: it parses the handshake's `Cookie` header by hand,
    verifies the access token (falling back to the refresh token only when an
    access token is present and fails), looks the user up and attaches it
    without the password hash. Every failure becomes
    Unauthorized('Invalid token'). JWT verification and `decodeURIComponent`
    are the guard's collaborators: `verify` yields None where verification
    throws, `decode` yields None where decoding throws. */
module WsJwtGuard {
  import opened Wrappers
  import opened JsStrings
  import opened Entities
  import opened Store
  import Auth

  const AccessCookie: string := "access_token"
  const RefreshCookie: string := "refresh_token"

  /** The one error the guard reports. */
  const InvalidToken: Error := Unauthorized("Invalid token")

  /** One `;`-separated segment applied to the cookies read so far: trimmed
      and split on '='; exactly two parts store the decoded value under the
      name, any other count leaves the cookies alone, and a value that does
      not decode aborts the parse. */
  function AddSegment(cookies: map<string, string>, segment: string, decode: string -> Option<string>): Option<map<string, string>> {
    var parts := Split(Trim(segment), '=');
    if |parts| == 2 then
      (match decode(parts[1])
       case None => None
       case Some(value) => Some(cookies[parts[0] := value]))
    else Some(cookies)
  }

  /** The cookies read from a sequence of segments, left to right. */
  function CookiesOf(segments: seq<string>, decode: string -> Option<string>): Option<map<string, string>>
    decreases |segments|
  {
    if segments == [] then Some(map[])
    else
      match CookiesOf(segments[..|segments| - 1], decode)
      case None => None
      case Some(cookies) => AddSegment(cookies, segments[|segments| - 1], decode)
  }

  /** What `parseCookies(header)` returns; None where it throws. */
  function ParsedCookies(header: string, decode: string -> Option<string>): Option<map<string, string>> {
    if header == "" then Some(map[]) else CookiesOf(Split(header, ';'), decode)
  }

  /** Once a segment fails to decode, the whole parse fails. */
  lemma {:induction false} FailureAbsorbs(segments: seq<string>, n: nat, decode: string -> Option<string>)
    requires n <= |segments|
    requires CookiesOf(segments[..n], decode) == None
    ensures CookiesOf(segments, decode) == None
    decreases |segments| - n
  {
    if n < |segments| {
      assert segments[..n + 1][..n] == segments[..n];
      FailureAbsorbs(segments, n + 1, decode);
    } else {
      assert segments[..n] == segments;
    }
  }

  /** A segment is kept exactly when its trimmed text holds one '=': then it
      is `name=value` with neither part holding '=', and the value is decoded
      under that name. */
  lemma SegmentRule(cookies: map<string, string>, segment: string, decode: string -> Option<string>)
    ensures Count(Trim(segment), '=') != 1 ==> AddSegment(cookies, segment, decode) == Some(cookies)
    ensures Count(Trim(segment), '=') == 1 ==>
      exists name, value :: (
        && Trim(segment) == name + "=" + value && '=' !in name && '=' !in value
        && AddSegment(cookies, segment, decode)
             == if decode(value).Some? then Some(cookies[name := decode(value).value]) else None)
  {
    var parts := Split(Trim(segment), '=');
    if |parts| == 2 {
      JoinSplit(Trim(segment), '=');
      assert Join(parts, '=') == parts[0] + "=" + Join(parts[1..], '=');
      assert Trim(segment) == parts[0] + "=" + parts[1];
      assert '=' !in parts[0] && '=' !in parts[1];
    }
  }

  /** Splitting `name=value` on '=' gives the two parts when neither holds '='. */
  lemma SplitPair(name: string, value: string)
    requires '=' !in name && '=' !in value
    ensures Split(name + "=" + value, '=') == [name, value]
  {
    SplitAfterFirst(name, value, '=');
    SplitWithoutSeparator(value, '=');
  }

  /** A later `name=value` segment overwrites whatever an earlier segment
      stored under the same name. */
  lemma LastSegmentWins(segments: seq<string>, cookies: map<string, string>, name: string, value: string,
                        decoded: string, decode: string -> Option<string>)
    requires CookiesOf(segments, decode) == Some(cookies)
    requires '=' !in name && '=' !in value
    requires Trim(name + "=" + value) == name + "=" + value
    requires decode(value) == Some(decoded)
    ensures CookiesOf(segments + [name + "=" + value], decode) == Some(cookies[name := decoded])
  {
    var all := segments + [name + "=" + value];
    assert all[..|all| - 1] == segments;
    SplitPair(name, value);
  }

  /** A header holding a single `name=value` cookie parses to exactly that
      cookie, its value decoded. */
  lemma SingleCookie(name: string, value: string, decoded: string, decode: string -> Option<string>)
    requires '=' !in name && '=' !in value && ';' !in name && ';' !in value
    requires Trim(name + "=" + value) == name + "=" + value
    requires decode(value) == Some(decoded)
    ensures ParsedCookies(name + "=" + value, decode) == Some(map[name := decoded])
  {
    var header := name + "=" + value;
    assert ';' !in header by {
      assert forall i :: 0 <= i < |header| ==> header[i] == (if i < |name| then name[i] else if i == |name| then '=' else value[i - |name| - 1]);
    }
    SplitWithoutSeparator(header, ';');
    LastSegmentWins([], map[], name, value, decoded, decode);
    assert [] + [header] == [header];
  }

  /** The outcome of `canActivate` for a parsed cookie record (None where
      parsing threw) against the user table. */
  function Authenticate(cookies: Option<map<string, string>>, verify: string -> Option<TokenPayload>,
                        users: map<UserId, User>): (r: Result<PublicUser>)
    ensures r.Err? ==> r.error == InvalidToken
    ensures r.Ok? ==> exists id :: id in users && r.value == Sanitize(users[id])
  {
    if cookies.None? then Err(InvalidToken)
    else
      var access := Lookup(cookies, AccessCookie);
      var refresh := Lookup(cookies, RefreshCookie);
      var payload :=
        if !Truthy(access) then None
        else if verify(access.value).Some? then verify(access.value)
        else if !Truthy(refresh) then None
        else verify(refresh.value);
      if payload.None? || payload.value.sub !in users then Err(InvalidToken)
      else Ok(Sanitize(users[payload.value.sub]))
  }

  /** Without an access token the guard rejects, whatever the refresh token. */
  lemma NoAccessTokenRejected(cookies: map<string, string>, verify: string -> Option<TokenPayload>, users: map<UserId, User>)
    requires !Truthy(Lookup(Some(cookies), AccessCookie))
    ensures Authenticate(Some(cookies), verify, users).Err?
  {
  }

  /** A valid access token decides the outcome; the refresh token is not read. */
  lemma AccessTokenFirst(cookies: map<string, string>, refresh: string, verify: string -> Option<TokenPayload>,
                         users: map<UserId, User>)
    requires Truthy(Lookup(Some(cookies), AccessCookie))
    requires verify(cookies[AccessCookie]).Some?
    ensures Authenticate(Some(cookies), verify, users) == Authenticate(Some(cookies[RefreshCookie := refresh]), verify, users)
    ensures var sub := verify(cookies[AccessCookie]).value.sub;
            Authenticate(Some(cookies), verify, users) == if sub in users then Ok(Sanitize(users[sub])) else Err(InvalidToken)
  {
    assert Lookup(Some(cookies[RefreshCookie := refresh]), AccessCookie) == Lookup(Some(cookies), AccessCookie);
  }

  /** An access token that fails verification hands over to the refresh
      token, which then decides the outcome and names the attached user. */
  lemma RefreshFallback(cookies: map<string, string>, verify: string -> Option<TokenPayload>, users: map<UserId, User>)
    requires Truthy(Lookup(Some(cookies), AccessCookie))
    requires verify(cookies[AccessCookie]).None?
    ensures Authenticate(Some(cookies), verify, users).Ok? <==>
      && Truthy(Lookup(Some(cookies), RefreshCookie))
      && verify(cookies[RefreshCookie]).Some?
      && verify(cookies[RefreshCookie]).value.sub in users
    ensures Authenticate(Some(cookies), verify, users).Ok? ==>
      Authenticate(Some(cookies), verify, users).value == Sanitize(users[verify(cookies[RefreshCookie]).value.sub])
  {
  }

  /** A handshake whose only cookie is an access token issued at login for a
      stored user is admitted as that user, given a verifier that accepts what
      the signer produced and a token that needs no decoding. */
  lemma IssuedAccessTokenAdmits(userId: UserId, email: string, sign: TokenPayload -> string,
                                verify: string -> Option<TokenPayload>, decode: string -> Option<string>,
                                expiresConfig: Option<string>, users: map<UserId, User>)
    requires forall p :: verify(sign(p)) == Some(p)
    requires var t := Auth.GenerateTokens(userId, email, sign, expiresConfig).accessToken;
             t != "" && '=' !in t && ';' !in t && !IsWhiteSpace(t[|t| - 1]) && decode(t) == Some(t)
    requires userId in users
    ensures var t := Auth.GenerateTokens(userId, email, sign, expiresConfig).accessToken;
            Authenticate(ParsedCookies(AccessCookie + "=" + t, decode), verify, users) == Ok(Sanitize(users[userId]))
  {
    var t := Auth.GenerateTokens(userId, email, sign, expiresConfig).accessToken;
    var header := AccessCookie + "=" + t;
    assert header[0] == 'a' && header[|header| - 1] == t[|t| - 1];
    TrimUnchanged(header);
    SingleCookie(AccessCookie, t, t, decode);
    Auth.AccessTokenVerifies(userId, email, sign, verify, expiresConfig);
  }

  /** The socket being admitted: its handshake `Cookie` header and the user
      the guard attaches to it. */
  class WsClient {
    const cookieHeader: Option<string>
    var user: Option<PublicUser>

    constructor (cookieHeader: Option<string>)
      ensures this.cookieHeader == cookieHeader && user == None
    {
      this.cookieHeader := cookieHeader;
      user := None;
    }
  }

  class WsJwtGuard {
    const prisma: Prisma
    const verify: string -> Option<TokenPayload>
    const decode: string -> Option<string>

    constructor (prisma: Prisma, verify: string -> Option<TokenPayload>, decode: string -> Option<string>)
      ensures this.prisma == prisma && this.verify == verify && this.decode == decode
    {
      this.prisma := prisma;
      this.verify := verify;
      this.decode := decode;
    }

    /** `parseCookies(header)`: the segments applied one by one to a mutable
        record; None where `decodeURIComponent` throws. */
    method ParseCookies(header: string) returns (r: Option<map<string, string>>)
      ensures r == ParsedCookies(header, decode)
      ensures header == "" ==> r == Some(map[])
    {
      if header == "" {
        return Some(map[]);
      }
      var segments := Split(header, ';');
      var cookies: map<string, string> := map[];
      var i := 0;
      while i < |segments|
        invariant 0 <= i <= |segments|
        invariant CookiesOf(segments[..i], decode) == Some(cookies)
      {
        assert segments[..i + 1][..i] == segments[..i];
        var parts := Split(Trim(segments[i]), '=');
        if |parts| == 2 {
          var value := decode(parts[1]);
          if value.None? {
            FailureAbsorbs(segments, i + 1, decode);
            return None;
          }
          cookies := cookies[parts[0] := value.value];
        }
        i := i + 1;
      }
      assert segments[..i] == segments;
      return Some(cookies);
    }

    /** `canActivate(context)`: admit the socket and attach its user, or fail
        with Unauthorized('Invalid token') and attach nothing. */
    method CanActivate(client: WsClient) returns (r: Result<bool>)
      modifies client`user
      ensures var outcome := Authenticate(ParsedCookies(OrElse(client.cookieHeader, ""), decode), verify, prisma.users);
              && (r.Ok? <==> outcome.Ok?)
              && (r.Ok? ==> r.value && client.user == Some(outcome.value))
              && (r.Err? ==> r.error == InvalidToken && client.user == old(client.user))
    {
      var cookies := ParseCookies(OrElse(client.cookieHeader, ""));
      if cookies.None? {
        return Err(InvalidToken);
      }
      var token := Lookup(cookies, AccessCookie);
      var payload: Option<TokenPayload> := None;
      if Truthy(token) {
        payload := verify(token.value);
        if payload.None? {
          token := Lookup(cookies, RefreshCookie);
          if !Truthy(token) {
            return Err(InvalidToken);
          }
          payload := verify(token.value);
          if payload.None? {
            return Err(InvalidToken);
          }
        }
      }
      // without an access token `payload` is undefined and reading `sub` throws
      if payload.None? {
        return Err(InvalidToken);
      }
      if payload.value.sub !in prisma.users {
        return Err(InvalidToken);
      }
      client.user := Some(Sanitize(prisma.users[payload.value.sub]));
      return Ok(true);
    }
  }
}
