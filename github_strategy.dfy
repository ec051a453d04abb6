/** The GitHub OAuth strategy: it splits the display name (or, lacking one,
    the login) on spaces into a first name and the rest, and resolves the
    account through the auth service. */
module GithubStrategy {
  import opened Wrappers
  import opened JsStrings
  import opened Entities
  import opened Store
  import opened Auth

  /** The fields of a passport-github2 profile the strategy reads. */
  datatype GithubProfile = GithubProfile(
    id: string,
    username: string,
    displayName: Option<string>,
    emails: seq<string>,
    photos: seq<string>)

  /** The last name used when the name has nothing after its first word. */
  const DefaultLastName: string := "User"

  /** `displayName || profile.username`. */
  function NameSource(p: GithubProfile): string {
    OrElse(p.displayName, p.username)
  }

  /** The first element of `name.split(' ')`. */
  function FirstName(name: string): (first: string)
    ensures ' ' !in first
  {
    Split(name, ' ')[0]
  }

  /** `rest.join(' ') || 'User'` for the remaining elements of the split. */
  function LastName(name: string): (last: string)
    ensures last != ""
  {
    var rest := Join(Split(name, ' ')[1..], ' ');
    if rest == "" then DefaultLastName else rest
  }

  /** The error JavaScript raises for `emails[0].value` on an empty list
      (a profile without any `emails` field throws a TypeError too, with a
      different text; both are this one failure here). */
  const NoEmailError: Error := Failure("Cannot read properties of undefined (reading 'value')")

  /** The arguments `validate` passes to `validateOAuthUser`. */
  function GithubArgs(p: GithubProfile): (r: Result<OAuthArgs>)
    ensures r.Err? <==> |p.emails| == 0
    ensures r.Err? ==> r.error == NoEmailError
    ensures r.Ok? ==>
      && r.value.provider == "github" && r.value.oauthId == p.id && r.value.email == p.emails[0]
      && r.value.firstName == FirstName(NameSource(p)) && r.value.lastName == LastName(NameSource(p))
      && (r.value.profilePicture.Some? <==> |p.photos| > 0)
      && (r.value.profilePicture.Some? ==> r.value.profilePicture.value == p.photos[0])
  {
    var name := NameSource(p);
    if |p.emails| == 0 then Err(NoEmailError)
    else Ok(OAuthArgs("github", p.id, p.emails[0], FirstName(name), LastName(name),
                      if |p.photos| > 0 then Some(p.photos[0]) else None))
  }

  /** A name is its first word, a space and the rest of its words; the first
      word is a prefix of the name. */
  lemma NameIsFirstWordAndRest(name: string)
    requires ' ' in name
    ensures name == FirstName(name) + " " + Join(Split(name, ' ')[1..], ' ')
  {
    var parts := Split(name, ' ');
    JoinSplit(name, ' ');
  }

  /** A name without a space is all first name, and the last name is 'User'. */
  lemma SingleWordName(name: string)
    requires ' ' !in name
    ensures FirstName(name) == name && LastName(name) == DefaultLastName
  {
    SplitWithoutSeparator(name, ' ');
  }

  /** A single word followed by a trailing space keeps the word as first
      name; the empty rest falls back to 'User'. */
  lemma TrailingSpaceName(word: string)
    requires ' ' !in word
    ensures FirstName(word + " ") == word
    ensures LastName(word + " ") == DefaultLastName
  {
    SplitAfterFirst(word, "", ' ');
    assert word + [' '] + "" == word + " ";
    assert Split(word + " ", ' ') == [word, ""];
    assert Split(word + " ", ' ')[1..] == [""];
  }

  /** When something non-empty follows the first space, the first and last
      names joined by a space give back the name. */
  lemma NameReconstructed(name: string)
    requires ' ' in name
    requires Join(Split(name, ' ')[1..], ' ') != ""
    ensures FirstName(name) + " " + LastName(name) == name
  {
    NameIsFirstWordAndRest(name);
  }

  /** An account created for a GitHub identity carries the first e-mail,
      the split name and the first photo, and no other row changes. */
  lemma NewGithubAccount(before: map<UserId, User>, after: map<UserId, User>, profile: GithubProfile,
                         newId: UserId, suffix: string, r: Result<User>)
    requires |profile.emails| > 0
    requires OAuthResolved(before, after, GithubArgs(profile).value, newId, suffix, r)
    requires !LinkedTo(before, "github", profile.id) && !EmailTaken(before, profile.emails[0])
    ensures r.Ok? && r.value.id == newId && r.value.email == profile.emails[0] && r.value.passwordHash == None
    ensures r.value.profile.firstName == FirstName(NameSource(profile))
    ensures r.value.profile.lastName == LastName(NameSource(profile))
    ensures r.value.profile.profilePicture == if |profile.photos| > 0 then Some(profile.photos[0]) else None
    ensures after == before[newId := r.value]
  {
  }

  /** `validate(accessToken, refreshToken, profile)`: the account resolved for
      the GitHub identity, or the error reading a missing e-mail. */
  method Validate(auth: AuthService, profile: GithubProfile, newId: UserId, suffix: string) returns (r: Result<User>)
    requires auth.prisma.Valid()
    requires newId !in auth.prisma.users
    modifies auth.prisma`users
    ensures auth.prisma.Valid()
    ensures |profile.emails| == 0 ==> r == Err(NoEmailError) && auth.prisma.users == old(auth.prisma.users)
    ensures |profile.emails| > 0 ==>
      OAuthResolved(old(auth.prisma.users), auth.prisma.users, GithubArgs(profile).value, newId, suffix, r)
    ensures r.Ok? ==> r.value.oauthProvider == Some("github") && r.value.oauthId == Some(profile.id)
  {
    var args := GithubArgs(profile);
    if args.Err? {
      return Err(args.error);
    }
    var a := args.value;
    r := auth.ValidateOAuthUser(a.provider, a.oauthId, a.email, a.firstName, a.lastName, a.profilePicture, newId, suffix);
  }
}
