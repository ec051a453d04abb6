/** The room service: rooms, their membership rows (one per room and user,
    with a role), trip proposals and the votes on them. Every write is guarded
    by a lookup; the error kinds and messages are the ones the service throws. */
module Rooms {
  import opened Wrappers
  import opened Entities
  import opened Store

  /** A room as `findById` returns it with its inclusions: the members with
      their roles, the proposals and the votes on those proposals. */
  datatype RoomDetails = RoomDetails(
    room: Room,
    members: map<UserId, MemberRole>,
    proposals: map<ProposalId, Proposal>,
    votes: map<(ProposalId, UserId), VoteType>)

  /** The proposals of one room. */
  function ProposalsOf(proposals: map<ProposalId, Proposal>, roomId: RoomId): map<ProposalId, Proposal> {
    map p | p in proposals && proposals[p].roomId == roomId :: proposals[p]
  }

  /** The votes cast on the proposals of one room. */
  function VotesOf(votes: map<(ProposalId, UserId), VoteType>, proposals: map<ProposalId, Proposal>,
                   roomId: RoomId): map<(ProposalId, UserId), VoteType> {
    map k | k in votes && k.0 in proposals && proposals[k.0].roomId == roomId :: votes[k]
  }

  /** A vote row as `upsert` returns it. */
  datatype VoteRow = VoteRow(proposalId: ProposalId, userId: UserId, vote: VoteType)

  /** Removing a MEMBER row leaves the admins of every room as they were. */
  lemma RemovingMemberKeepsAdmins(members: map<(RoomId, UserId), MemberRole>, k: (RoomId, UserId), roomId: RoomId)
    requires k in members && members[k] == MEMBER
    ensures AdminsOf(members - {k}, roomId) == AdminsOf(members, roomId)
  {
    var after := members - {k};
    forall u | u in AdminsOf(members, roomId)
      ensures u in AdminsOf(after, roomId)
    {
      assert (roomId, u) in members && members[(roomId, u)] == ADMIN;
      assert (roomId, u) in after;
    }
    forall u | u in AdminsOf(after, roomId)
      ensures u in AdminsOf(members, roomId)
    {
      assert (roomId, u) in after;
    }
  }

  /** Joining a room and then leaving it restores the membership table. */
  lemma JoinThenLeaveRestores(members: map<(RoomId, UserId), MemberRole>, roomId: RoomId, userId: UserId)
    requires (roomId, userId) !in members
    ensures members[(roomId, userId) := MEMBER] - {(roomId, userId)} == members
  {
    assert (members[(roomId, userId) := MEMBER] - {(roomId, userId)}).Keys == members.Keys;
  }

  /** Adding a membership row adds exactly that room to the user's rooms and
      leaves every other user's rooms alone. */
  lemma JoinAddsRoom(members: map<(RoomId, UserId), MemberRole>, roomId: RoomId, userId: UserId, role: MemberRole, other: UserId)
    ensures RoomIdsOf(members[(roomId, userId) := role], userId) == RoomIdsOf(members, userId) + {roomId}
    ensures other != userId ==> RoomIdsOf(members[(roomId, userId) := role], other) == RoomIdsOf(members, other)
  {
    var after := members[(roomId, userId) := role];
    assert (roomId, userId) in after;
    forall r | r in RoomIdsOf(after, userId)
      ensures r in RoomIdsOf(members, userId) + {roomId}
    {
      var k :| k in after && k.1 == userId && k.0 == r;
      if k != (roomId, userId) {
        assert k in members;
      }
    }
    forall r | r in RoomIdsOf(members, userId)
      ensures r in RoomIdsOf(after, userId)
    {
      var k :| k in members && k.1 == userId && k.0 == r;
      assert k in after;
    }
    if other != userId {
      forall r | r in RoomIdsOf(after, other)
        ensures r in RoomIdsOf(members, other)
      {
        var k :| k in after && k.1 == other && k.0 == r;
        assert k in members;
      }
      forall r | r in RoomIdsOf(members, other)
        ensures r in RoomIdsOf(after, other)
      {
        var k :| k in members && k.1 == other && k.0 == r;
        assert k in after;
      }
    }
  }

  /** A room id with no rows yet gets, with its creator's ADMIN row added, that
      single member and no proposals or votes. */
  lemma FreshRoomDetails(members: map<(RoomId, UserId), MemberRole>, proposals: map<ProposalId, Proposal>,
                         votes: map<(ProposalId, UserId), VoteType>, roomId: RoomId, userId: UserId)
    requires forall k :: k in members ==> k.0 != roomId
    requires forall p :: p in proposals ==> proposals[p].roomId != roomId
    ensures MembersOf(members[(roomId, userId) := ADMIN], roomId) == map[userId := ADMIN]
    ensures ProposalsOf(proposals, roomId) == map[]
    ensures VotesOf(votes, proposals, roomId) == map[]
  {
    assert MembersOf(members[(roomId, userId) := ADMIN], roomId).Keys == {userId};
    assert ProposalsOf(proposals, roomId).Keys == {};
    assert VotesOf(votes, proposals, roomId).Keys == {};
  }

  class RoomsService {
    const prisma: Prisma

    constructor (prisma: Prisma)
      ensures this.prisma == prisma
    {
      this.prisma := prisma;
    }

    /** `findById(id)`: the room with its members, proposals and votes, or
        NotFound('Room not found'). */
    function FindById(id: RoomId): (r: Result<RoomDetails>)
      reads prisma
      ensures r.Err? <==> id !in prisma.rooms
      ensures r.Err? ==> r.error == NotFound("Room not found")
      ensures r.Ok? ==>
        && r.value.room == prisma.rooms[id]
        && (forall u :: u in r.value.members <==> (id, u) in prisma.members)
        && (forall u :: u in r.value.members ==> r.value.members[u] == prisma.members[(id, u)])
        && (forall p :: p in r.value.proposals <==> p in prisma.proposals && prisma.proposals[p].roomId == id)
        && (forall p :: p in r.value.proposals ==> r.value.proposals[p] == prisma.proposals[p])
        && (forall k :: k in r.value.votes <==> k in prisma.votes && k.0 in r.value.proposals)
        && (forall k :: k in r.value.votes ==> r.value.votes[k] == prisma.votes[k])
    {
      if id !in prisma.rooms then Err(NotFound("Room not found"))
      else Ok(RoomDetails(prisma.rooms[id], MembersOf(prisma.members, id),
                          ProposalsOf(prisma.proposals, id), VotesOf(prisma.votes, prisma.proposals, id)))
    }

    /** `checkMembership(roomId, userId)`: the caller's role in the room, or
        Forbidden('Not a member of this room'). */
    function CheckMembership(roomId: RoomId, userId: UserId): (r: Result<MemberRole>)
      reads prisma
      ensures r.Ok? <==> (roomId, userId) in prisma.members
      ensures r.Ok? ==> r.value == prisma.members[(roomId, userId)]
      ensures r.Err? ==> r.error == Forbidden("Not a member of this room")
    {
      if (roomId, userId) in prisma.members then Ok(prisma.members[(roomId, userId)])
      else Err(Forbidden("Not a member of this room"))
    }

    /** `create(userId, { name, description })`: a new room whose creator is
        the caller, created together with the caller's ADMIN membership. The
        database rejects an unknown creator. */
    method Create(userId: UserId, name: string, description: Option<string>, newId: RoomId)
      returns (r: Result<RoomDetails>)
      requires prisma.Valid()
      requires newId !in prisma.rooms
      modifies prisma`rooms, prisma`members
      ensures prisma.Valid()
      ensures r.Err? <==> userId !in prisma.users
      ensures r.Err? ==> r.error == Failure("Foreign key constraint violated")
      ensures r.Err? ==> prisma.rooms == old(prisma.rooms) && prisma.members == old(prisma.members)
      ensures r.Ok? ==> prisma.rooms == old(prisma.rooms)[newId := Room(newId, name, description, userId)]
      ensures r.Ok? ==> prisma.members == old(prisma.members)[(newId, userId) := ADMIN]
      ensures r.Ok? ==> r.value.room == Room(newId, name, description, userId)
      ensures r.Ok? ==> r.value.members == map[userId := ADMIN]
      ensures r.Ok? ==> r.value.proposals == map[] && r.value.votes == map[]
      ensures r.Ok? ==> FindById(newId) == r
    {
      if userId !in prisma.users {
        return Err(Failure("Foreign key constraint violated"));
      }
      var room := Room(newId, name, description, userId);
      prisma.rooms := prisma.rooms[newId := room];
      prisma.members := prisma.members[(newId, userId) := ADMIN];
      r := Ok(RoomDetails(room, map[userId := ADMIN], map[], map[]));
      FreshRoomDetails(old(prisma.members), prisma.proposals, prisma.votes, newId, userId);
    }

    /** `joinRoom(roomId, userId)`: NotFound for an unknown room, Forbidden for
        an existing member, otherwise one new MEMBER row. */
    method JoinRoom(roomId: RoomId, userId: UserId) returns (r: Result<(RoomId, UserId)>)
      requires prisma.Valid()
      modifies prisma`members
      ensures prisma.Valid()
      ensures roomId !in prisma.rooms ==> r == Err(NotFound("Room not found"))
      ensures roomId in prisma.rooms && (roomId, userId) in old(prisma.members) ==>
        r == Err(Forbidden("Already a member of this room"))
      ensures roomId in prisma.rooms && (roomId, userId) !in old(prisma.members) && userId !in prisma.users ==>
        r == Err(Failure("Foreign key constraint violated"))
      ensures r.Err? ==> prisma.members == old(prisma.members)
      ensures r.Ok? <==> roomId in prisma.rooms && (roomId, userId) !in old(prisma.members) && userId in prisma.users
      ensures r.Ok? ==> r.value == (roomId, userId) && prisma.members == old(prisma.members)[(roomId, userId) := MEMBER]
    {
      var room := FindById(roomId);
      if room.Err? {
        return Err(room.error);
      }
      if userId in room.value.members {
        return Err(Forbidden("Already a member of this room"));
      }
      if userId !in prisma.users {
        return Err(Failure("Foreign key constraint violated"));
      }
      prisma.members := prisma.members[(roomId, userId) := MEMBER];
      return Ok((roomId, userId));
    }

    /** `leaveRoom(roomId, userId)`: NotFound for a non-member, Forbidden for
        an ADMIN, otherwise the caller's membership row is deleted. */
    method LeaveRoom(roomId: RoomId, userId: UserId) returns (r: Result<MemberRole>)
      requires prisma.Valid()
      modifies prisma`members
      ensures prisma.Valid()
      ensures (roomId, userId) !in old(prisma.members) ==> r == Err(NotFound("Not a member of this room"))
      ensures (roomId, userId) in old(prisma.members) && old(prisma.members)[(roomId, userId)] == ADMIN ==>
        r == Err(Forbidden("Admin must transfer role before leaving"))
      ensures r.Err? ==> prisma.members == old(prisma.members)
      ensures r.Ok? <==> (roomId, userId) in old(prisma.members) && old(prisma.members)[(roomId, userId)] == MEMBER
      ensures r.Ok? ==> r.value == MEMBER && prisma.members == old(prisma.members) - {(roomId, userId)}
      ensures forall room :: AdminsOf(prisma.members, room) == AdminsOf(old(prisma.members), room)
    {
      var key := (roomId, userId);
      if key !in prisma.members {
        return Err(NotFound("Not a member of this room"));
      }
      var role := prisma.members[key];
      if role == ADMIN {
        return Err(Forbidden("Admin must transfer role before leaving"));
      }
      forall room | true
        ensures AdminsOf(prisma.members - {key}, room) == AdminsOf(prisma.members, room)
      {
        RemovingMemberKeepsAdmins(prisma.members, key, room);
      }
      prisma.members := prisma.members - {key};
      return Ok(role);
    }

    /** `createProposal(roomId, userId, data)`: only a member may propose; the
        new proposal belongs to `roomId` whatever the client data says. */
    method CreateProposal(roomId: RoomId, userId: UserId, data: ProposalData, newId: ProposalId)
      returns (r: Result<Proposal>)
      requires prisma.Valid()
      requires newId !in prisma.proposals
      modifies prisma`proposals
      ensures prisma.Valid()
      ensures r.Err? <==> (roomId, userId) !in prisma.members
      ensures r.Err? ==> r.error == Forbidden("Not a member of this room") && prisma.proposals == old(prisma.proposals)
      ensures r.Ok? ==>
        && r.value == Proposal(newId, roomId, data)
        && prisma.proposals == old(prisma.proposals)[newId := r.value]
        && (forall k :: k in prisma.votes ==> k.0 != newId)
    {
      var membership := CheckMembership(roomId, userId);
      if membership.Err? {
        return Err(membership.error);
      }
      var proposal := Proposal(newId, roomId, data);
      prisma.proposals := prisma.proposals[newId := proposal];
      return Ok(proposal);
    }

    /** `vote(proposalId, userId, vote)`: an upsert on the (proposal, user)
        pair, with no membership check; the database rejects an unknown
        proposal or user. */
    method Vote(proposalId: ProposalId, userId: UserId, vote: VoteType) returns (r: Result<VoteRow>)
      requires prisma.Valid()
      modifies prisma`votes
      ensures prisma.Valid()
      ensures r.Err? <==> proposalId !in prisma.proposals || userId !in prisma.users
      ensures r.Err? ==> r.error == Failure("Foreign key constraint violated") && prisma.votes == old(prisma.votes)
      ensures r.Ok? ==>
        && r.value == VoteRow(proposalId, userId, vote)
        && prisma.votes == old(prisma.votes)[(proposalId, userId) := vote]
    {
      if proposalId !in prisma.proposals || userId !in prisma.users {
        return Err(Failure("Foreign key constraint violated"));
      }
      prisma.votes := prisma.votes[(proposalId, userId) := vote];
      return Ok(VoteRow(proposalId, userId, vote));
    }
  }
}
