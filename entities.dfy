/** The database rows and shared enumerations the backend works with (the
    Prisma models as the services read them, and the enums of the shared
    package), plus the password-hash removal the authentication paths and the
    user lookups apply. Not every read path applies it: the chat messages and
    the room details include raw user rows. */
module Entities {
  import opened Wrappers

  type UserId = string
  type RoomId = string
  type ProposalId = string
  type MessageId = string

  datatype MemberRole = ADMIN | MEMBER
  datatype VoteType = YES | NO | MAYBE
  datatype FriendshipStatus = PENDING | ACCEPTED | BLOCKED
  datatype MessageType = TEXT | IMAGE | SYSTEM

  datatype Profile = Profile(
    firstName: string,
    lastName: string,
    profilePicture: Option<string>,
    bio: Option<string>,
    location: Option<string>)

  /** A user row together with its profile (every query of the services
      includes the profile). `passwordHash` is absent for OAuth-only accounts. */
  datatype User = User(
    id: UserId,
    username: string,
    email: string,
    passwordHash: Option<string>,
    oauthProvider: Option<string>,
    oauthId: Option<string>,
    profile: Profile)

  /** A user as the API hands it out: every column except `passwordHash`. */
  datatype PublicUser = PublicUser(
    id: UserId,
    username: string,
    email: string,
    oauthProvider: Option<string>,
    oauthId: Option<string>,
    profile: Profile)

  /** `const { passwordHash, ...rest } = user`: drop the hash, keep the rest. */
  function Sanitize(u: User): PublicUser {
    PublicUser(u.id, u.username, u.email, u.oauthProvider, u.oauthId, u.profile)
  }

  /** The inverse view: put a password hash back on a public user. */
  function WithHash(p: PublicUser, hash: Option<string>): User {
    User(p.id, p.username, p.email, hash, p.oauthProvider, p.oauthId, p.profile)
  }

  /** Sanitising loses exactly the password hash: the hash and the sanitised
      user together give back the user. */
  lemma SanitizeKeepsAllButHash(u: User)
    ensures WithHash(Sanitize(u), u.passwordHash) == u
  {
  }

  /** Two users sanitise alike exactly when they differ at most in their hash. */
  lemma SanitizeForgetsOnlyHash(u: User, v: User)
    ensures Sanitize(u) == Sanitize(v) <==> u.(passwordHash := v.passwordHash) == v
  {
    if Sanitize(u) == Sanitize(v) {
      SanitizeKeepsAllButHash(u);
      SanitizeKeepsAllButHash(v);
    }
  }

  /** The claims a signed token carries: `{ sub: userId, email }`. */
  datatype TokenPayload = TokenPayload(sub: UserId, email: string)

  datatype Room = Room(id: RoomId, name: string, description: Option<string>, creatorId: UserId)

  /** The client-supplied fields of a trip proposal. */
  datatype ProposalData = ProposalData(
    destination: string,
    description: string,
    budgetEstimate: Option<int>,
    imageUrl: Option<string>)

  datatype Proposal = Proposal(id: ProposalId, roomId: RoomId, data: ProposalData)

  datatype Message = Message(
    id: MessageId,
    roomId: RoomId,
    senderId: UserId,
    content: string,
    messageType: MessageType,
    createdAt: int)

  datatype Friendship = Friendship(id: string, userId: UserId, friendId: UserId, status: FriendshipStatus)

  /** The events the chat service publishes, each with its JSON `type` tag.
      A new message carries the stored row and the sender row the query
      includes, as the database returns it. */
  datatype ChatEvent =
    | NewMessage(message: Message, sender: User)
    | UserJoined(userId: UserId, timestamp: int)
    | UserLeft(userId: UserId, timestamp: int)
    | TypingStart(userId: UserId)
    | TypingStop(userId: UserId)
  {
    function Tag(): string {
      match this
      case NewMessage(_, _) => "new_message"
      case UserJoined(_, _) => "user_joined"
      case UserLeft(_, _) => "user_left"
      case TypingStart(_) => "typing_start"
      case TypingStop(_) => "typing_stop"
    }
  }

  /** The rooms in which `userId` holds a membership row. */
  function RoomIdsOf(members: map<(RoomId, UserId), MemberRole>, userId: UserId): set<RoomId> {
    set k | k in members && k.1 == userId :: k.0
  }

  /** The members of one room with their roles. */
  function MembersOf(members: map<(RoomId, UserId), MemberRole>, roomId: RoomId): map<UserId, MemberRole> {
    map k | k in members && k.0 == roomId :: k.1 := members[k]
  }

  /** The users holding the ADMIN role in one room. */
  function AdminsOf(members: map<(RoomId, UserId), MemberRole>, roomId: RoomId): set<UserId> {
    set k | k in members && k.0 == roomId && members[k] == ADMIN :: k.1
  }
}
