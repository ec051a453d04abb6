/** The users service: profile lookup without the password hash, the rooms a
    user belongs to, the friends derived from accepted friendships, and
    profile updates. */
module Users {
  import opened Wrappers
  import opened Entities
  import opened Store

  /** The profile columns a client may send to `updateProfile`; a missing
      field leaves the column as it is, and for the optional columns
      `Some(None)` is an explicit `null` that clears it. */
  datatype ProfileUpdate = ProfileUpdate(
    firstName: Option<string>,
    lastName: Option<string>,
    profilePicture: Option<Option<string>>,
    bio: Option<Option<string>>,
    location: Option<Option<string>>)

  function Pick<T>(update: Option<T>, current: T): T {
    if update.Some? then update.value else current
  }

  /** The profile after an update: every field present in the update wins. */
  function ApplyUpdate(p: Profile, d: ProfileUpdate): Profile {
    Profile(Pick(d.firstName, p.firstName), Pick(d.lastName, p.lastName),
            Pick(d.profilePicture, p.profilePicture), Pick(d.bio, p.bio), Pick(d.location, p.location))
  }

  /** Applying the same update twice is applying it once, and an empty
      update changes nothing. */
  lemma ApplyUpdateIdempotent(p: Profile, d: ProfileUpdate)
    ensures ApplyUpdate(ApplyUpdate(p, d), d) == ApplyUpdate(p, d)
    ensures ApplyUpdate(p, ProfileUpdate(None, None, None, None, None)) == p
  {
  }

  /** The friendships `getUserFriends` queries: ACCEPTED ones with the user on
      either side, in table order. */
  function AcceptedOf(fs: seq<Friendship>, userId: UserId): (r: seq<Friendship>)
    ensures |r| <= |fs|
    ensures forall f :: f in r <==> f in fs && f.status == ACCEPTED && (f.userId == userId || f.friendId == userId)
  {
    if fs == [] then []
    else
      var rest := AcceptedOf(fs[1..], userId);
      assert forall f :: f in fs <==> f == fs[0] || f in fs[1..];
      if fs[0].status == ACCEPTED && (fs[0].userId == userId || fs[0].friendId == userId) then [fs[0]] + rest
      else rest
  }

  /** The other side of a friendship, seen from `userId`. */
  function OtherParty(f: Friendship, userId: UserId): UserId {
    if f.userId == userId then f.friendId else f.userId
  }

  class UsersService {
    const prisma: Prisma

    constructor (prisma: Prisma)
      ensures this.prisma == prisma
    {
      this.prisma := prisma;
    }

    /** `findById(id)`: the user without the password hash, or
        NotFound('User not found'). */
    function FindById(id: UserId): (r: Result<PublicUser>)
      reads prisma
      ensures r.Err? <==> id !in prisma.users
      ensures r.Err? ==> r.error == NotFound("User not found")
      ensures r.Ok? ==> WithHash(r.value, prisma.users[id].passwordHash) == prisma.users[id]
    {
      if id !in prisma.users then Err(NotFound("User not found")) else Ok(Sanitize(prisma.users[id]))
    }

    /** `findByEmail(email)`: the unique user with that e-mail address, hash
        included, if any. */
    method FindByEmail(email: string) returns (r: Option<User>)
      requires prisma.UsersValid()
      ensures r.None? <==> forall id :: id in prisma.users ==> prisma.users[id].email != email
      ensures r.Some? ==> r.value.id in prisma.users && prisma.users[r.value.id] == r.value && r.value.email == email
    {
      if id :| id in prisma.users && prisma.users[id].email == email {
        return Some(prisma.users[id]);
      }
      return None;
    }

    /** `getUserRooms(userId)`: exactly the rooms holding a membership row for
        the user. */
    function GetUserRooms(userId: UserId): (rooms: set<Room>)
      reads prisma
      requires prisma.RoomsValid()
      ensures forall room :: room in rooms <==>
        room.id in RoomIdsOf(prisma.members, userId) && prisma.rooms[room.id] == room
      ensures |rooms| == |RoomIdsOf(prisma.members, userId)|
    {
      var ids := RoomIdsOf(prisma.members, userId);
      assert forall id :: id in ids ==> id in prisma.rooms && (id, userId) in prisma.members;
      var rooms := set id | id in ids :: prisma.rooms[id];
      RoomsCardinality(prisma.rooms, ids);
      rooms
    }

    /** `getUserFriends(userId)`: for every accepted friendship involving the
        user, in table order, the other party without the password hash. */
    function GetUserFriends(userId: UserId): (friends: seq<PublicUser>)
      reads prisma
      requires prisma.UsersValid() && prisma.FriendshipsValid()
      ensures |friends| == |AcceptedOf(prisma.friendships, userId)|
      ensures forall i :: 0 <= i < |friends| ==>
        exists f :: f in prisma.friendships && f.status == ACCEPTED
          && ((f.userId == userId && f.friendId == friends[i].id) || (f.friendId == userId && f.userId == friends[i].id))
      ensures forall i :: 0 <= i < |friends| ==>
        friends[i].id in prisma.users && WithHash(friends[i], prisma.users[friends[i].id].passwordHash) == prisma.users[friends[i].id]
      ensures forall i :: 0 <= i < |friends| ==>
        var f := AcceptedOf(prisma.friendships, userId)[i];
        OtherParty(f, userId) in prisma.users && friends[i] == Sanitize(prisma.users[OtherParty(f, userId)])
    {
      var accepted := AcceptedOf(prisma.friendships, userId);
      var users := prisma.users;
      var friends := seq(|accepted|, i requires 0 <= i < |accepted| => Sanitize(users[OtherParty(accepted[i], userId)]));
      assert forall i :: 0 <= i < |friends| ==> accepted[i] in accepted && friends[i].id == OtherParty(accepted[i], userId);
      friends
    }

    /** `updateProfile(userId, data)`: only that user's profile changes; an
        unknown user makes the database update fail. */
    method UpdateProfile(userId: UserId, data: ProfileUpdate) returns (r: Result<Profile>)
      requires prisma.Valid()
      modifies prisma`users
      ensures prisma.Valid()
      ensures r.Err? <==> userId !in old(prisma.users)
      ensures r.Err? ==> r.error == Failure("Record to update not found") && prisma.users == old(prisma.users)
      ensures r.Ok? ==>
        && r.value == ApplyUpdate(old(prisma.users)[userId].profile, data)
        && prisma.users == old(prisma.users)[userId := old(prisma.users)[userId].(profile := r.value)]
    {
      if userId !in prisma.users {
        return Err(Failure("Record to update not found"));
      }
      var profile := ApplyUpdate(prisma.users[userId].profile, data);
      prisma.users := prisma.users[userId := prisma.users[userId].(profile := profile)];
      return Ok(profile);
    }
  }

  /** Rows keyed by their id are as many as their ids. */
  lemma {:induction false} RoomsCardinality(rooms: map<RoomId, Room>, ids: set<RoomId>)
    requires forall id :: id in ids ==> id in rooms && rooms[id].id == id
    ensures |set id | id in ids :: rooms[id]| == |ids|
  {
    if ids != {} {
      var x :| x in ids;
      var rest := ids - {x};
      RoomsCardinality(rooms, rest);
      var all := set id | id in ids :: rooms[id];
      var restRows := set id | id in rest :: rooms[id];
      assert all == restRows + {rooms[x]};
      assert rooms[x] !in restRows;
    }
  }
}
