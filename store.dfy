/** The two external stores the services are injected with: the relational
    database (one field per table) and Redis (a key/value store whose entries
    record the TTL they were set with, plus the log of everything published). */
module Store {
  import opened Wrappers
  import opened Entities

  class Prisma {
    var users: map<UserId, User>
    var rooms: map<RoomId, Room>
    var members: map<(RoomId, UserId), MemberRole>
    var proposals: map<ProposalId, Proposal>
    var votes: map<(ProposalId, UserId), VoteType>
    var messages: map<MessageId, Message>
    var friendships: seq<Friendship>

    /** User rows are keyed by their id and e-mail addresses are unique
        (the services look users up by e-mail with `findUnique`). */
    ghost predicate UsersValid()
      reads this
    {
      && (forall id :: id in users ==> users[id].id == id)
      && (forall a, b :: a in users && b in users && users[a].email == users[b].email ==> a == b)
    }

    /** Room rows are keyed by their id; membership, proposal and vote rows
        refer to existing rows (the schema's foreign keys); and the creator of
        every room holds an ADMIN membership in it (the room service creates it
        so and never removes it). */
    ghost predicate RoomsValid()
      reads this
    {
      && (forall id :: id in rooms ==> rooms[id].id == id && rooms[id].creatorId in users)
      && (forall k :: k in members ==> k.0 in rooms && k.1 in users)
      && (forall id :: id in rooms ==> (id, rooms[id].creatorId) in members)
      && (forall id :: id in rooms ==> members[(id, rooms[id].creatorId)] == ADMIN)
      && (forall p :: p in proposals ==> proposals[p].id == p && proposals[p].roomId in rooms)
      && (forall k :: k in votes ==> k.0 in proposals && k.1 in users)
    }

    /** Message rows are keyed by their id and refer to an existing room and
        sender. */
    ghost predicate MessagesValid()
      reads this
    {
      forall id :: id in messages ==>
        messages[id].id == id && messages[id].roomId in rooms && messages[id].senderId in users
    }

    /** Both ends of every friendship are existing users. */
    ghost predicate FriendshipsValid()
      reads this
    {
      forall i :: 0 <= i < |friendships| ==>
        friendships[i].userId in users && friendships[i].friendId in users
    }

    ghost predicate Valid()
      reads this
    {
      UsersValid() && RoomsValid() && MessagesValid() && FriendshipsValid()
    }

    constructor ()
      ensures Valid()
      ensures users == map[] && rooms == map[] && members == map[] && proposals == map[]
      ensures votes == map[] && messages == map[] && friendships == []
    {
      users, rooms, members, proposals := map[], map[], map[], map[];
      votes, messages, friendships := map[], map[], [];
    }
  }

  /** A Redis value together with the expiry (in seconds) it was set with;
      expiry itself is Redis behaviour and is not modelled. */
  datatype Entry = Entry(value: string, ttlSeconds: nat)

  /** One `publish(topic, payload)` call. */
  datatype Publication = Publication(topic: string, payload: ChatEvent)

  class Redis {
    var store: map<string, Entry>
    var published: seq<Publication>

    constructor ()
      ensures store == map[] && published == []
    {
      store, published := map[], [];
    }

    /** `set(key, value, ttl)`: store the value with its expiry. */
    method Set(key: string, value: string, ttlSeconds: nat)
      modifies this`store
      ensures store == old(store)[key := Entry(value, ttlSeconds)]
    {
      store := store[key := Entry(value, ttlSeconds)];
    }

    /** `del(key)`: remove the key if present. */
    method Del(key: string)
      modifies this`store
      ensures store == old(store) - {key}
    {
      store := store - {key};
    }

    /** `publish(topic, payload)`: append to the publish log. */
    method Publish(topic: string, payload: ChatEvent)
      modifies this`published
      ensures published == old(published) + [Publication(topic, payload)]
    {
      published := published + [Publication(topic, payload)];
    }
  }
}
