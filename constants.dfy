/** The constants the backend and the web client share: the Socket.IO event
    names and the REST route templates. */
module SharedConstants {
  import opened JsStrings

  /** The entries of `SOCKET_EVENTS`. */
  datatype SocketEvent =
    | Connection | Disconnect
    | MessageSend | MessageReceive | TypingStart | TypingStop
    | RoomJoin | RoomLeave | RoomUpdate
    | UserOnline | UserOffline
    | Notification
  {
    /** The event name sent on the wire. */
    function Value(): string {
      match this
      case Connection => "connection"
      case Disconnect => "disconnect"
      case MessageSend => "message:send"
      case MessageReceive => "message:receive"
      case TypingStart => "typing:start"
      case TypingStop => "typing:stop"
      case RoomJoin => "room:join"
      case RoomLeave => "room:leave"
      case RoomUpdate => "room:update"
      case UserOnline => "user:online"
      case UserOffline => "user:offline"
      case Notification => "notification"
    }
  }

  /** No two socket events share a name. */
  lemma SocketEventValuesDistinct(a: SocketEvent, b: SocketEvent)
    requires a.Value() == b.Value()
    ensures a == b
  {
    var s := a.Value();
    assert |s| == |b.Value()|;
    if |s| > 0 {
      assert s[0] == b.Value()[0];
    }
    if |s| > 8 {
      assert s[8] == b.Value()[8];
    }
  }

  // AUTH
  const AuthRegister: string := "/auth/register"
  const AuthLogin: string := "/auth/login"
  const AuthLogout: string := "/auth/logout"
  const AuthMe: string := "/auth/me"
  const AuthGoogle: string := "/auth/google"
  const AuthGithub: string := "/auth/github"
  const AuthFortyTwo: string := "/auth/42"

  // USERS
  function UsersGet(id: string): string { "/users/" + id }
  function UsersUpdate(id: string): string { "/users/" + id }
  function UsersRooms(id: string): string { "/users/" + id + "/rooms" }
  function UsersFriends(id: string): string { "/users/" + id + "/friends" }

  // FRIENDS
  const FriendsRequests: string := "/friends/requests"
  function FriendsSend(userId: string): string { "/friends/request/" + userId }
  function FriendsAccept(friendshipId: string): string { "/friends/accept/" + friendshipId }
  function FriendsReject(friendshipId: string): string { "/friends/reject/" + friendshipId }
  function FriendsDelete(friendshipId: string): string { "/friends/" + friendshipId }
  function FriendsBlock(friendshipId: string): string { "/friends/block/" + friendshipId }
  function FriendsUnblock(friendshipId: string): string { "/friends/unblock/" + friendshipId }

  // ROOMS
  const RoomsCreate: string := "/rooms"
  function RoomsGet(id: string): string { "/rooms/" + id }
  function RoomsUpdate(id: string): string { "/rooms/" + id }
  function RoomsDelete(id: string): string { "/rooms/" + id }
  function RoomsJoin(id: string): string { "/rooms/" + id + "/join" }
  function RoomsLeave(id: string): string { "/rooms/" + id + "/leave" }
  function RoomsMembers(id: string): string { "/rooms/" + id + "/members" }
  function RoomsUpdateRole(roomId: string, userId: string): string { "/rooms/" + roomId + "/members/" + userId + "/role" }
  function RoomsKick(roomId: string, userId: string): string { "/rooms/" + roomId + "/members/" + userId }

  // AVAILABILITY
  function AvailabilityList(roomId: string): string { "/rooms/" + roomId + "/availability" }
  function AvailabilityCreate(roomId: string): string { "/rooms/" + roomId + "/availability" }
  function AvailabilityUpdate(roomId: string, id: string): string { "/rooms/" + roomId + "/availability/" + id }
  function AvailabilityDelete(roomId: string, id: string): string { "/rooms/" + roomId + "/availability/" + id }

  // PROPOSALS
  function ProposalsList(roomId: string): string { "/rooms/" + roomId + "/proposals" }
  function ProposalsCreate(roomId: string): string { "/rooms/" + roomId + "/proposals" }
  function ProposalsUpdate(roomId: string, id: string): string { "/rooms/" + roomId + "/proposals/" + id }
  function ProposalsDelete(roomId: string, id: string): string { "/rooms/" + roomId + "/proposals/" + id }
  function ProposalsSelect(roomId: string, id: string): string { "/rooms/" + roomId + "/proposals/" + id + "/select" }

  // VOTES
  function VotesList(roomId: string, proposalId: string): string { "/rooms/" + roomId + "/proposals/" + proposalId + "/votes" }
  function VotesVote(roomId: string, proposalId: string): string { "/rooms/" + roomId + "/proposals/" + proposalId + "/vote" }
  function VotesUpdate(roomId: string, proposalId: string): string { "/rooms/" + roomId + "/proposals/" + proposalId + "/vote" }
  function VotesDelete(roomId: string, proposalId: string): string { "/rooms/" + roomId + "/proposals/" + proposalId + "/vote" }

  // ACTIVITIES
  function ActivitiesList(roomId: string, proposalId: string): string {
    "/rooms/" + roomId + "/proposals/" + proposalId + "/activities"
  }
  function ActivitiesCreate(roomId: string, proposalId: string): string {
    "/rooms/" + roomId + "/proposals/" + proposalId + "/activities"
  }
  function ActivitiesUpdate(roomId: string, proposalId: string, id: string): string {
    "/rooms/" + roomId + "/proposals/" + proposalId + "/activities/" + id
  }
  function ActivitiesDelete(roomId: string, proposalId: string, id: string): string {
    "/rooms/" + roomId + "/proposals/" + proposalId + "/activities/" + id
  }

  // MESSAGES
  function MessagesList(roomId: string): string { "/rooms/" + roomId + "/messages" }
  function MessagesCreate(roomId: string): string { "/rooms/" + roomId + "/messages" }
  function MessagesDelete(roomId: string, id: string): string { "/rooms/" + roomId + "/messages/" + id }

  // STORAGE
  const StorageUploadProfilePicture: string := "/storage/upload/profile-picture"
  const StorageUploadRoomImage: string := "/storage/upload/room-image"
  const StorageUploadMessageAttachment: string := "/storage/upload/message-attachment"

  /** A route starts with '/'. */
  predicate Rooted(route: string) {
    |route| > 0 && route[0] == '/'
  }

  // Each group below lists a section's constants and its builders applied to
  // arbitrary arguments; every one of them is rooted.

  function AuthRoutes(): (routes: seq<string>)
    ensures forall r :: r in routes ==> Rooted(r)
  {
    [AuthRegister, AuthLogin, AuthLogout, AuthMe, AuthGoogle, AuthGithub, AuthFortyTwo]
  }

  function UsersRoutes(a: string): (routes: seq<string>)
    ensures forall r :: r in routes ==> Rooted(r)
  {
    [UsersGet(a), UsersUpdate(a), UsersRooms(a), UsersFriends(a)]
  }

  function FriendsRoutes(a: string): (routes: seq<string>)
    ensures forall r :: r in routes ==> Rooted(r)
  {
    [FriendsRequests, FriendsSend(a), FriendsAccept(a), FriendsReject(a), FriendsDelete(a), FriendsBlock(a), FriendsUnblock(a)]
  }

  function RoomsRoutes(a: string, b: string): (routes: seq<string>)
    ensures forall r :: r in routes ==> Rooted(r)
  {
    [RoomsCreate, RoomsGet(a), RoomsUpdate(a), RoomsDelete(a), RoomsJoin(a), RoomsLeave(a), RoomsMembers(a),
     RoomsUpdateRole(a, b), RoomsKick(a, b)]
  }

  function AvailabilityRoutes(a: string, b: string): (routes: seq<string>)
    ensures forall r :: r in routes ==> Rooted(r)
  {
    [AvailabilityList(a), AvailabilityCreate(a), AvailabilityUpdate(a, b), AvailabilityDelete(a, b)]
  }

  function ProposalsRoutes(a: string, b: string): (routes: seq<string>)
    ensures forall r :: r in routes ==> Rooted(r)
  {
    [ProposalsList(a), ProposalsCreate(a), ProposalsUpdate(a, b), ProposalsDelete(a, b), ProposalsSelect(a, b)]
  }

  function VotesRoutes(a: string, b: string): (routes: seq<string>)
    ensures forall r :: r in routes ==> Rooted(r)
  {
    [VotesList(a, b), VotesVote(a, b), VotesUpdate(a, b), VotesDelete(a, b)]
  }

  function ActivitiesRoutes(a: string, b: string, c: string): (routes: seq<string>)
    ensures forall r :: r in routes ==> Rooted(r)
  {
    [ActivitiesList(a, b), ActivitiesCreate(a, b), ActivitiesUpdate(a, b, c), ActivitiesDelete(a, b, c)]
  }

  function MessagesRoutes(a: string, b: string): (routes: seq<string>)
    ensures forall r :: r in routes ==> Rooted(r)
  {
    [MessagesList(a), MessagesCreate(a), MessagesDelete(a, b)]
  }

  function StorageRoutes(): (routes: seq<string>)
    ensures forall r :: r in routes ==> Rooted(r)
  {
    [StorageUploadProfilePicture, StorageUploadRoomImage, StorageUploadMessageAttachment]
  }

  /** Every route constant and every builder output, for the arguments `a`,
      `b` and `c`. */
  function AllRoutes(a: string, b: string, c: string): (routes: seq<string>)
    ensures |routes| == 50
    ensures forall r :: r in routes ==> Rooted(r)
  {
    AuthRoutes() + UsersRoutes(a) + FriendsRoutes(a) + RoomsRoutes(a, b) + AvailabilityRoutes(a, b)
    + ProposalsRoutes(a, b) + VotesRoutes(a, b) + ActivitiesRoutes(a, b, c) + MessagesRoutes(a, b) + StorageRoutes()
  }

  /** GET, UPDATE and DELETE of a room address the same path. */
  lemma RoomPathsCoincide(id: string)
    ensures RoomsGet(id) == RoomsUpdate(id) == RoomsDelete(id)
  {
  }

  /** VOTE, UPDATE and DELETE address `.../vote`, which is not LIST's `.../votes`. */
  lemma VotePathsCoincide(roomId: string, proposalId: string)
    ensures VotesVote(roomId, proposalId) == VotesUpdate(roomId, proposalId) == VotesDelete(roomId, proposalId)
    ensures VotesVote(roomId, proposalId) != VotesList(roomId, proposalId)
  {
    assert |VotesList(roomId, proposalId)| == |VotesVote(roomId, proposalId)| + 1;
  }

  /** A message's path extends the room's message list with '/' and its id,
      and the list and create paths coincide. */
  lemma MessagePathsNest(roomId: string, id: string)
    ensures MessagesList(roomId) == MessagesCreate(roomId)
    ensures MessagesDelete(roomId, id) == MessagesList(roomId) + "/" + id
  {
  }

  /** An activity's path extends the proposal's activity list with '/' and its id. */
  lemma ActivityPathsNest(roomId: string, proposalId: string, id: string)
    ensures ActivitiesUpdate(roomId, proposalId, id) == ActivitiesList(roomId, proposalId) + "/" + id
    ensures ActivitiesDelete(roomId, proposalId, id) == ActivitiesList(roomId, proposalId) + "/" + id
  {
  }

  /** Cancelling a common prefix and suffix. */
  lemma {:induction false} AffixCancel(prefix: string, x: string, y: string, suffix: string)
    requires prefix + x + suffix == prefix + y + suffix
    ensures x == y
  {
    var s := prefix + x + suffix;
    assert |x| == |y|;
    assert x == s[|prefix|..|prefix| + |x|];
    assert y == (prefix + y + suffix)[|prefix|..|prefix| + |y|];
  }

  /** The single-argument builders tell their arguments apart. */
  lemma SingleArgumentBuildersInjective(a: string, b: string)
    ensures UsersGet(a) == UsersGet(b) ==> a == b
    ensures UsersRooms(a) == UsersRooms(b) ==> a == b
    ensures UsersFriends(a) == UsersFriends(b) ==> a == b
    ensures RoomsGet(a) == RoomsGet(b) ==> a == b
    ensures RoomsJoin(a) == RoomsJoin(b) ==> a == b
    ensures MessagesList(a) == MessagesList(b) ==> a == b
  {
    if UsersGet(a) == UsersGet(b) { AffixCancel("/users/", a, b, ""); }
    if UsersRooms(a) == UsersRooms(b) { AffixCancel("/users/", a, b, "/rooms"); }
    if UsersFriends(a) == UsersFriends(b) { AffixCancel("/users/", a, b, "/friends"); }
    if RoomsGet(a) == RoomsGet(b) { AffixCancel("/rooms/", a, b, ""); }
    if RoomsJoin(a) == RoomsJoin(b) { AffixCancel("/rooms/", a, b, "/join"); }
    if MessagesList(a) == MessagesList(b) { AffixCancel("/rooms/", a, b, "/messages"); }
  }

  /** A message path names its room and message, as long as room ids contain
      no '/'. */
  lemma MessagesDeleteInjective(r1: string, id1: string, r2: string, id2: string)
    requires '/' !in r1 && '/' !in r2
    requires MessagesDelete(r1, id1) == MessagesDelete(r2, id2)
    ensures r1 == r2 && id1 == id2
  {
    var p := "/rooms/";
    var t1 := r1 + ['/'] + ("messages/" + id1);
    var t2 := r2 + ['/'] + ("messages/" + id2);
    assert MessagesDelete(r1, id1) == p + t1;
    assert MessagesDelete(r2, id2) == p + t2;
    assert (p + t1)[|p|..] == t1;
    assert (p + t2)[|p|..] == t2;
    SplitPointUnique(r1, "messages/" + id1, r2, "messages/" + id2, '/');
    AffixCancel("messages/", id1, id2, "");
  }
}
