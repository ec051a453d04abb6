/** The authentication service: registration with conflict detection, login
    with one uniform failure, OAuth account resolution (provider id, then
    e-mail, then a new account), token generation and user validation.
    The JWT signer, the configured expiry and bcrypt's comparison are the
    service's injected collaborators; the bcrypt hash, the generated id and
    the random username suffix are passed in. */
module Auth {
  import opened Wrappers
  import opened JsStrings
  import opened Entities
  import opened Store

  /** The registration form. */
  datatype RegisterDto = RegisterDto(email: string, username: string, password: string, firstName: string, lastName: string)

  /** What `generateTokens` returns. */
  datatype Tokens = Tokens(accessToken: string, expiresIn: string)

  /** What `register` and `login` return: the public user and the tokens. */
  datatype Session = Session(user: PublicUser, tokens: Tokens)

  /** The arguments an OAuth strategy passes to `validateOAuthUser`. */
  datatype OAuthArgs = OAuthArgs(provider: string, oauthId: string, email: string, firstName: string, lastName: string,
                                 profilePicture: Option<string>)

  /** The expiry reported when the configuration has none. */
  const DefaultExpiresIn: string := "7d"

  /** `generateTokens(userId, email)`: the signed payload `{ sub, email }` and
      the configured expiry, `'7d'` when unset or empty. */
  function GenerateTokens(userId: UserId, email: string, sign: TokenPayload -> string, expiresConfig: Option<string>): (t: Tokens)
    ensures t.accessToken == sign(TokenPayload(userId, email))
    ensures t.expiresIn != ""
    ensures Truthy(expiresConfig) ==> t.expiresIn == expiresConfig.value
    ensures !Truthy(expiresConfig) ==> t.expiresIn == DefaultExpiresIn
  {
    Tokens(sign(TokenPayload(userId, email)), OrElse(expiresConfig, DefaultExpiresIn))
  }

  /** With a verifier that accepts exactly what the signer produced, the
      access token of a session verifies back to the user's id and e-mail. */
  lemma AccessTokenVerifies(userId: UserId, email: string, sign: TokenPayload -> string,
                            verify: string -> Option<TokenPayload>, expiresConfig: Option<string>)
    requires forall p :: verify(sign(p)) == Some(p)
    ensures verify(GenerateTokens(userId, email, sign, expiresConfig).accessToken) == Some(TokenPayload(userId, email))
  {
  }

  /** Does the user match a login or registration identifier? */
  predicate Matches(u: User, email: string, username: string) {
    u.email == email || u.username == username
  }

  /** The account `register` creates: the hash, no OAuth link, a profile with
      the given names. */
  function NewLocalUser(id: UserId, dto: RegisterDto, passwordHash: string): User {
    User(id, dto.username, dto.email, Some(passwordHash), None, None, Profile(dto.firstName, dto.lastName, None, None, None))
  }

  /** The username of an account created from an OAuth login: the local part
      of the e-mail address followed by the random suffix. */
  function OAuthUsername(email: string, suffix: string): string {
    Split(email, '@')[0] + suffix
  }

  /** The local part never contains '@', and the e-mail address starts with it. */
  lemma OAuthUsernameIsLocalPart(email: string, suffix: string)
    ensures '@' !in OAuthUsername(email, suffix)[..|OAuthUsername(email, suffix)| - |suffix|]
    ensures StartsWith(email, Split(email, '@')[0])
  {
    var parts := Split(email, '@');
    JoinSplit(email, '@');
    if |parts| > 1 {
      assert Join(parts, '@') == parts[0] + ['@'] + Join(parts[1..], '@');
    }
    assert email[..|parts[0]|] == parts[0];
  }

  /** Some user is already linked to the provider account. */
  predicate LinkedTo(users: map<UserId, User>, provider: string, oauthId: string) {
    exists id :: id in users && users[id].oauthProvider == Some(provider) && users[id].oauthId == Some(oauthId)
  }

  /** Some user has the e-mail address. */
  predicate EmailTaken(users: map<UserId, User>, email: string) {
    exists id :: id in users && users[id].email == email
  }

  /** The outcome of `validateOAuthUser` for arguments `a`, from the user table
      `before` to the table `after`. The four cases partition the inputs: a
      linked account is returned untouched; otherwise the account with that
      non-empty e-mail address gets linked; otherwise, when no account has the
      address, a new linked account is created; otherwise (an empty address
      already taken) the creation fails on the unique e-mail column. Every
      result carries the provider and its id and is stored as returned. */
  ghost predicate OAuthResolved(before: map<UserId, User>, after: map<UserId, User>, a: OAuthArgs,
                                newId: UserId, suffix: string, r: Result<User>)
  {
    && (r.Ok? ==> r.value.oauthProvider == Some(a.provider) && r.value.oauthId == Some(a.oauthId))
    && (r.Ok? ==> r.value.id in after && after[r.value.id] == r.value)
    && (LinkedTo(before, a.provider, a.oauthId) ==>
          r.Ok? && after == before && r.value.id in before)
    && (!LinkedTo(before, a.provider, a.oauthId) && a.email != "" && EmailTaken(before, a.email) ==>
          && r.Ok? && r.value.id in before && before[r.value.id].email == a.email
          && r.value == before[r.value.id].(oauthProvider := Some(a.provider), oauthId := Some(a.oauthId))
          && after == before[r.value.id := r.value])
    && (!LinkedTo(before, a.provider, a.oauthId) && !EmailTaken(before, a.email) ==>
          && r == Ok(User(newId, OAuthUsername(a.email, suffix), a.email, None, Some(a.provider), Some(a.oauthId),
                          Profile(a.firstName, a.lastName, a.profilePicture, None, None)))
          && after == before[newId := r.value])
    && (!LinkedTo(before, a.provider, a.oauthId) && a.email == "" && EmailTaken(before, a.email) ==>
          r == Err(Failure("Unique constraint failed on the fields: (`email`)")) && after == before)
    && (r.Err? ==> !LinkedTo(before, a.provider, a.oauthId) && a.email == "" && EmailTaken(before, a.email))
  }

  /** With a non-empty e-mail address the resolution always succeeds, and
      only the resolved user's row changes. */
  lemma OAuthWithAddressSucceeds(before: map<UserId, User>, after: map<UserId, User>, a: OAuthArgs,
                                 newId: UserId, suffix: string, r: Result<User>)
    requires OAuthResolved(before, after, a, newId, suffix, r)
    requires a.email != ""
    ensures r.Ok?
    ensures forall id :: id in before && id != r.value.id ==> id in after && after[id] == before[id]
  {
  }

  class AuthService {
    const prisma: Prisma
    const sign: TokenPayload -> string
    const expiresConfig: Option<string>
    /** bcrypt's `compare(password, hash)`. */
    const passwordMatches: (string, string) -> bool

    constructor (prisma: Prisma, sign: TokenPayload -> string, expiresConfig: Option<string>,
                 passwordMatches: (string, string) -> bool)
      ensures this.prisma == prisma && this.sign == sign && this.expiresConfig == expiresConfig
      ensures this.passwordMatches == passwordMatches
    {
      this.prisma := prisma;
      this.sign := sign;
      this.expiresConfig := expiresConfig;
      this.passwordMatches := passwordMatches;
    }

    /** `register(dto)`: Conflict when some user shares the e-mail address or
        the username (the message depends on the user the database returns
        first); otherwise one new user and a session for it. */
    method Register(dto: RegisterDto, passwordHash: string, newId: UserId) returns (r: Result<Session>)
      requires prisma.Valid()
      requires newId !in prisma.users
      modifies prisma`users
      ensures prisma.Valid()
      ensures r.Err? <==> exists id :: id in old(prisma.users) && Matches(old(prisma.users)[id], dto.email, dto.username)
      ensures r.Err? ==> prisma.users == old(prisma.users)
      ensures r == Err(Conflict("Email already in use")) ==>
        exists id :: id in old(prisma.users) && old(prisma.users)[id].email == dto.email
      ensures r == Err(Conflict("Username already taken")) ==>
        exists id :: id in old(prisma.users) && old(prisma.users)[id].username == dto.username
          && old(prisma.users)[id].email != dto.email
      ensures r.Err? ==> r == Err(Conflict("Email already in use")) || r == Err(Conflict("Username already taken"))
      ensures r.Ok? ==>
        && prisma.users == old(prisma.users)[newId := NewLocalUser(newId, dto, passwordHash)]
        && r.value == Session(Sanitize(NewLocalUser(newId, dto, passwordHash)), GenerateTokens(newId, dto.email, sign, expiresConfig))
    {
      if existing :| existing in prisma.users && Matches(prisma.users[existing], dto.email, dto.username) {
        if prisma.users[existing].email == dto.email {
          return Err(Conflict("Email already in use"));
        }
        return Err(Conflict("Username already taken"));
      }
      var user := NewLocalUser(newId, dto, passwordHash);
      prisma.users := prisma.users[newId := user];
      return Ok(Session(Sanitize(user), GenerateTokens(newId, dto.email, sign, expiresConfig)));
    }

    /** `login(usernameOrEmail, password)`: the session of a user whose e-mail
        or username is the identifier, whose hash is set and matches the
        password; every failure is the same Unauthorized('Invalid credentials'). */
    method Login(usernameOrEmail: string, password: string) returns (r: Result<Session>)
      ensures r.Err? ==> r.error == Unauthorized("Invalid credentials")
      ensures r.Ok? ==> exists id :: (
        && id in prisma.users && Matches(prisma.users[id], usernameOrEmail, usernameOrEmail)
        && Truthy(prisma.users[id].passwordHash) && passwordMatches(password, prisma.users[id].passwordHash.value)
        && r.value == Session(Sanitize(prisma.users[id]), GenerateTokens(prisma.users[id].id, prisma.users[id].email, sign, expiresConfig)))
      ensures (forall id :: id in prisma.users && Matches(prisma.users[id], usernameOrEmail, usernameOrEmail) ==>
                 !Truthy(prisma.users[id].passwordHash) || !passwordMatches(password, prisma.users[id].passwordHash.value))
              ==> r.Err?
      ensures (exists id :: id in prisma.users && Matches(prisma.users[id], usernameOrEmail, usernameOrEmail)) &&
              (forall id :: id in prisma.users && Matches(prisma.users[id], usernameOrEmail, usernameOrEmail) ==>
                 Truthy(prisma.users[id].passwordHash) && passwordMatches(password, prisma.users[id].passwordHash.value))
              ==> r.Ok?
    {
      if id :| id in prisma.users && Matches(prisma.users[id], usernameOrEmail, usernameOrEmail) {
        var user := prisma.users[id];
        if !Truthy(user.passwordHash) {
          return Err(Unauthorized("Invalid credentials"));
        }
        if !passwordMatches(password, user.passwordHash.value) {
          return Err(Unauthorized("Invalid credentials"));
        }
        return Ok(Session(Sanitize(user), GenerateTokens(user.id, user.email, sign, expiresConfig)));
      }
      return Err(Unauthorized("Invalid credentials"));
    }

    /** `validateOAuthUser(provider, oauthId, email, firstName, lastName,
        profilePicture)`: a user already linked to the provider account; else
        the user with that (non-empty) e-mail address, now linked; else a new
        linked account. The user is returned as stored, hash included. */
    method ValidateOAuthUser(provider: string, oauthId: string, email: string, firstName: string, lastName: string,
                             profilePicture: Option<string>, newId: UserId, suffix: string) returns (r: Result<User>)
      requires prisma.Valid()
      requires newId !in prisma.users
      modifies prisma`users
      ensures prisma.Valid()
      ensures OAuthResolved(old(prisma.users), prisma.users,
                            OAuthArgs(provider, oauthId, email, firstName, lastName, profilePicture), newId, suffix, r)
    {
      if id :| id in prisma.users && prisma.users[id].oauthProvider == Some(provider) && prisma.users[id].oauthId == Some(oauthId) {
        return Ok(prisma.users[id]);
      }
      if email != "" {
        if id :| id in prisma.users && prisma.users[id].email == email {
          var linked := prisma.users[id].(oauthProvider := Some(provider), oauthId := Some(oauthId));
          prisma.users := prisma.users[id := linked];
          return Ok(linked);
        }
      }
      if id :| id in prisma.users && prisma.users[id].email == email {
        return Err(Failure("Unique constraint failed on the fields: (`email`)"));
      }
      var user := User(newId, OAuthUsername(email, suffix), email, None, Some(provider), Some(oauthId),
                       Profile(firstName, lastName, profilePicture, None, None));
      prisma.users := prisma.users[newId := user];
      return Ok(user);
    }

    /** `validateUser(userId)`: the user without the password hash, or
        Unauthorized('User not found'). */
    function ValidateUser(userId: UserId): (r: Result<PublicUser>)
      reads prisma
      ensures r.Err? <==> userId !in prisma.users
      ensures r.Err? ==> r.error == Unauthorized("User not found")
      ensures r.Ok? ==> WithHash(r.value, prisma.users[userId].passwordHash) == prisma.users[userId]
    {
      if userId !in prisma.users then Err(Unauthorized("User not found")) else Ok(Sanitize(prisma.users[userId]))
    }
  }

  /** Right after a registration, logging in with the e-mail address and the
      registered password succeeds, provided no other user has that e-mail
      address as username and bcrypt accepts the password for its hash. */
  lemma RegisteredUserCanLogIn(users: map<UserId, User>, dto: RegisterDto, passwordHash: string, newId: UserId,
                               passwordMatches: (string, string) -> bool)
    requires forall id :: id in users ==> !Matches(users[id], dto.email, dto.username)
    requires forall id :: id in users ==> users[id].username != dto.email
    requires passwordMatches(dto.password, passwordHash) && passwordHash != ""
    ensures var after := users[newId := NewLocalUser(newId, dto, passwordHash)];
            (exists id :: id in after && Matches(after[id], dto.email, dto.email))
            && forall id :: id in after && Matches(after[id], dto.email, dto.email) ==>
                 id == newId && Truthy(after[id].passwordHash) && passwordMatches(dto.password, after[id].passwordHash.value)
  {
    var after := users[newId := NewLocalUser(newId, dto, passwordHash)];
    assert newId in after && Matches(after[newId], dto.email, dto.email);
  }
}
