/** The 42 OAuth strategy: given and family names with defaults, resolved
    through the auth service. */
module FortyTwoStrategy {
  import opened Wrappers
  import opened JsStrings
  import opened Entities
  import opened Store
  import opened Auth

  /** The fields of a passport-42 profile the strategy reads. */
  datatype FortyTwoProfile = FortyTwoProfile(
    id: string,
    username: string,
    givenName: Option<string>,
    familyName: Option<string>,
    emails: seq<string>,
    photos: seq<string>)

  /** The last name used when the profile has no family name. */
  const DefaultLastName: string := "Student"

  /** The error JavaScript raises for `emails[0].value` on an empty list
      (a profile without any `emails` field throws a TypeError too, with a
      different text; both are this one failure here). */
  const NoEmailError: Error := Failure("Cannot read properties of undefined (reading 'value')")

  /** The arguments `validate` passes to `validateOAuthUser`. */
  function FortyTwoArgs(p: FortyTwoProfile): (r: Result<OAuthArgs>)
    ensures r.Err? <==> |p.emails| == 0
    ensures r.Err? ==> r.error == NoEmailError
    ensures r.Ok? ==>
      && r.value.provider == "42" && r.value.oauthId == p.id && r.value.email == p.emails[0]
      && (Truthy(p.givenName) ==> r.value.firstName == p.givenName.value)
      && (!Truthy(p.givenName) ==> r.value.firstName == p.username)
      && (Truthy(p.familyName) ==> r.value.lastName == p.familyName.value)
      && (!Truthy(p.familyName) ==> r.value.lastName == DefaultLastName)
      && (r.value.profilePicture.Some? <==> |p.photos| > 0)
      && (r.value.profilePicture.Some? ==> r.value.profilePicture.value == p.photos[0])
  {
    if |p.emails| == 0 then Err(NoEmailError)
    else Ok(OAuthArgs("42", p.id, p.emails[0], OrElse(p.givenName, p.username), OrElse(p.familyName, DefaultLastName),
                      if |p.photos| > 0 then Some(p.photos[0]) else None))
  }

  /** The last name is never empty, and the first name is empty only when the
      given name is missing or empty and so is the login. */
  lemma NamesNonEmpty(p: FortyTwoProfile)
    requires |p.emails| > 0
    ensures FortyTwoArgs(p).value.lastName != ""
    ensures FortyTwoArgs(p).value.firstName == "" <==> !Truthy(p.givenName) && p.username == ""
  {
  }

  /** An account created for a 42 identity carries the first e-mail, the
      given and family names with their defaults and the first photo, and no
      other row changes. */
  lemma NewFortyTwoAccount(before: map<UserId, User>, after: map<UserId, User>, profile: FortyTwoProfile,
                           newId: UserId, suffix: string, r: Result<User>)
    requires |profile.emails| > 0
    requires OAuthResolved(before, after, FortyTwoArgs(profile).value, newId, suffix, r)
    requires !LinkedTo(before, "42", profile.id) && !EmailTaken(before, profile.emails[0])
    ensures r.Ok? && r.value.id == newId && r.value.email == profile.emails[0] && r.value.passwordHash == None
    ensures r.value.profile.firstName == OrElse(profile.givenName, profile.username)
    ensures r.value.profile.lastName == OrElse(profile.familyName, DefaultLastName)
    ensures r.value.profile.profilePicture == if |profile.photos| > 0 then Some(profile.photos[0]) else None
    ensures after == before[newId := r.value]
  {
  }

  /** `validate(accessToken, refreshToken, profile)`: the account resolved for
      the 42 identity, or the error reading a missing e-mail. */
  method Validate(auth: AuthService, profile: FortyTwoProfile, newId: UserId, suffix: string) returns (r: Result<User>)
    requires auth.prisma.Valid()
    requires newId !in auth.prisma.users
    modifies auth.prisma`users
    ensures auth.prisma.Valid()
    ensures |profile.emails| == 0 ==> r == Err(NoEmailError) && auth.prisma.users == old(auth.prisma.users)
    ensures |profile.emails| > 0 ==>
      OAuthResolved(old(auth.prisma.users), auth.prisma.users, FortyTwoArgs(profile).value, newId, suffix, r)
    ensures r.Ok? ==> r.value.oauthProvider == Some("42") && r.value.oauthId == Some(profile.id)
  {
    var args := FortyTwoArgs(profile);
    if args.Err? {
      return Err(args.error);
    }
    var a := args.value;
    r := auth.ValidateOAuthUser(a.provider, a.oauthId, a.email, a.firstName, a.lastName, a.profilePicture, newId, suffix);
  }
}
