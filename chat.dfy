/** The chat service: message persistence in the database, presence and
    typing keys in Redis, and one Redis publication per operation on a
    room-scoped topic. */
module Chat {
  import opened Wrappers
  import opened JsStrings
  import opened Entities
  import opened Store

  /** The page size `getRoomMessages` uses when no limit is given. */
  const DefaultMessageLimit: nat := 50
  /** Presence lasts five minutes unless refreshed. */
  const PresenceTtl: nat := 300
  /** A typing indicator lasts five seconds unless refreshed. */
  const TypingTtl: nat := 5

  function PresenceKey(roomId: RoomId, userId: UserId): string {
    "presence:" + roomId + ":" + userId
  }

  function TypingKey(roomId: RoomId, userId: UserId): string {
    "typing:" + roomId + ":" + userId
  }

  function MessagesTopic(roomId: RoomId): string {
    "room:" + roomId + ":messages"
  }

  function PresenceTopic(roomId: RoomId): string {
    "room:" + roomId + ":presence"
  }

  function TypingTopic(roomId: RoomId): string {
    "room:" + roomId + ":typing"
  }

  /** The key/value store after `setTyping(roomId, userId, isTyping)`. */
  function AfterTyping(store: map<string, Entry>, roomId: RoomId, userId: UserId, isTyping: bool): map<string, Entry> {
    var key := TypingKey(roomId, userId);
    if isTyping then store[key := Entry("1", TypingTtl)] else store - {key}
  }

  /** The ids of the messages stored for one room. */
  function RoomMessageIds(messages: map<MessageId, Message>, roomId: RoomId): set<MessageId> {
    set id | id in messages && messages[id].roomId == roomId
  }

  /** The ids of a sequence of messages. */
  function IdsOf(page: seq<Message>): set<MessageId> {
    if page == [] then {} else IdsOf(page[..|page| - 1]) + {page[|page| - 1].id}
  }

  lemma IdsOfAppend(page: seq<Message>, m: Message)
    ensures IdsOf(page + [m]) == IdsOf(page) + {m.id}
  {
    assert (page + [m])[..|page|] == page;
  }

  /** An id is among the ids of a sequence exactly when some element carries it. */
  lemma {:induction false} InIdsOf(page: seq<Message>, id: MessageId)
    ensures id in IdsOf(page) <==> exists i :: 0 <= i < |page| && page[i].id == id
  {
    if page != [] {
      var init := page[..|page| - 1];
      InIdsOf(init, id);
      if id in IdsOf(init) {
        var i :| 0 <= i < |init| && init[i].id == id;
        assert page[i].id == id;
      }
      if exists i :: 0 <= i < |page| && page[i].id == id {
        var i :| 0 <= i < |page| && page[i].id == id;
        if i < |init| {
          assert init[i].id == id;
        }
      }
    }
  }

  /** A non-empty finite set of messages has a newest member. */
  lemma {:induction false} NewestExists(ids: set<MessageId>, messages: map<MessageId, Message>)
    requires ids != {} && ids <= messages.Keys
    ensures exists m :: m in ids && forall o :: o in ids ==> messages[o].createdAt <= messages[m].createdAt
  {
    var x :| x in ids;
    if ids != {x} {
      var rest := ids - {x};
      NewestExists(rest, messages);
      var m :| m in rest && forall o :: o in rest ==> messages[o].createdAt <= messages[m].createdAt;
      if messages[x].createdAt <= messages[m].createdAt {
        assert forall o :: o in ids ==> messages[o].createdAt <= messages[m].createdAt;
      } else {
        assert forall o :: o in ids ==> messages[o].createdAt <= messages[x].createdAt;
      }
    } else {
      assert forall o :: o in ids ==> messages[o].createdAt <= messages[x].createdAt;
    }
  }

  /** Picks a newest message among `ids`. */
  method Newest(ids: set<MessageId>, messages: map<MessageId, Message>) returns (newest: MessageId)
    requires ids != {} && ids <= messages.Keys
    ensures newest in ids
    ensures forall o :: o in ids ==> messages[o].createdAt <= messages[newest].createdAt
  {
    NewestExists(ids, messages);
    newest :| newest in ids && forall o :: o in ids ==> messages[o].createdAt <= messages[newest].createdAt;
  }

  /** The state of the newest-first selection behind `getRoomMessages`:
      `page` holds distinct messages of `all`, newest first, and `remaining`
      holds the rest of `all`, none newer than anything on the page. */
  ghost predicate Selecting(table: map<MessageId, Message>, all: set<MessageId>, page: seq<Message>, remaining: set<MessageId>) {
    && all <= table.Keys
    && remaining == all - IdsOf(page)
    && |page| + |remaining| == |all|
    && (forall i :: 0 <= i < |page| ==> page[i].id in all && table[page[i].id] == page[i])
    && (forall i, j :: 0 <= i < j < |page| ==> page[i].id != page[j].id)
    && (forall i, j :: 0 <= i < j < |page| ==> page[i].createdAt >= page[j].createdAt)
    && (forall id, i :: id in remaining && 0 <= i < |page| ==> table[id].createdAt <= page[i].createdAt)
  }

  /** Moving a newest remaining message onto the page keeps the bookkeeping
      of ids: the rest of `all` and the total count. */
  lemma SelectNewestIds(table: map<MessageId, Message>, all: set<MessageId>, page: seq<Message>,
                        remaining: set<MessageId>, newest: MessageId)
    requires forall id :: id in table ==> table[id].id == id
    requires Selecting(table, all, page, remaining)
    requires newest in remaining
    ensures remaining - {newest} == all - IdsOf(page + [table[newest]])
    ensures |page + [table[newest]]| + |remaining - {newest}| == |all|
  {
    IdsOfAppend(page, table[newest]);
  }

  /** Moving a newest remaining message onto the page keeps the page's
      contents distinct, in the table and newest first. */
  lemma SelectNewestOrder(table: map<MessageId, Message>, all: set<MessageId>, page: seq<Message>,
                          remaining: set<MessageId>, newest: MessageId)
    requires forall id :: id in table ==> table[id].id == id
    requires Selecting(table, all, page, remaining)
    requires newest in remaining
    requires forall o :: o in remaining ==> table[o].createdAt <= table[newest].createdAt
    ensures var next := page + [table[newest]];
      && (forall i :: 0 <= i < |next| ==> next[i].id in all && table[next[i].id] == next[i])
      && (forall i, j :: 0 <= i < j < |next| ==> next[i].id != next[j].id)
      && (forall i, j :: 0 <= i < j < |next| ==> next[i].createdAt >= next[j].createdAt)
      && (forall id, i :: id in remaining - {newest} && 0 <= i < |next| ==> table[id].createdAt <= next[i].createdAt)
  {
    var m := table[newest];
    var next := page + [m];
    assert forall k :: 0 <= k < |page| ==> next[k] == page[k];
    assert next[|page|] == m;
    forall i | 0 <= i < |page|
      ensures page[i].id != newest
    {
      InIdsOf(page, page[i].id);
    }
  }

  /** Moving a newest remaining message onto the page keeps the selection state. */
  lemma SelectNewest(table: map<MessageId, Message>, all: set<MessageId>, page: seq<Message>,
                     remaining: set<MessageId>, newest: MessageId)
    requires forall id :: id in table ==> table[id].id == id
    requires Selecting(table, all, page, remaining)
    requires newest in remaining
    requires forall o :: o in remaining ==> table[o].createdAt <= table[newest].createdAt
    ensures Selecting(table, all, page + [table[newest]], remaining - {newest})
  {
    SelectNewestIds(table, all, page, remaining, newest);
    SelectNewestOrder(table, all, page, remaining, newest);
  }

  /** The presence key determines its room and user, as long as room ids
      contain no ':' (database ids never do). */
  lemma PresenceKeyInjective(r1: RoomId, u1: UserId, r2: RoomId, u2: UserId)
    requires ':' !in r1 && ':' !in r2
    requires PresenceKey(r1, u1) == PresenceKey(r2, u2)
    ensures r1 == r2 && u1 == u2
  {
    var p := "presence:";
    assert PresenceKey(r1, u1) == p + (r1 + [':'] + u1);
    assert PresenceKey(r2, u2) == p + (r2 + [':'] + u2);
    assert (p + (r1 + [':'] + u1))[|p|..] == r1 + [':'] + u1;
    assert (p + (r2 + [':'] + u2))[|p|..] == r2 + [':'] + u2;
    SplitPointUnique(r1, u1, r2, u2, ':');
  }

  /** The typing key determines its room and user, as long as room ids
      contain no ':'. */
  lemma TypingKeyInjective(r1: RoomId, u1: UserId, r2: RoomId, u2: UserId)
    requires ':' !in r1 && ':' !in r2
    requires TypingKey(r1, u1) == TypingKey(r2, u2)
    ensures r1 == r2 && u1 == u2
  {
    var p := "typing:";
    assert TypingKey(r1, u1) == p + (r1 + [':'] + u1);
    assert TypingKey(r2, u2) == p + (r2 + [':'] + u2);
    assert (p + (r1 + [':'] + u1))[|p|..] == r1 + [':'] + u1;
    assert (p + (r2 + [':'] + u2))[|p|..] == r2 + [':'] + u2;
    SplitPointUnique(r1, u1, r2, u2, ':');
  }

  /** Presence keys and typing keys never collide. */
  lemma PresenceAndTypingKeysDisjoint(r1: RoomId, u1: UserId, r2: RoomId, u2: UserId)
    ensures PresenceKey(r1, u1) != TypingKey(r2, u2)
  {
    assert PresenceKey(r1, u1)[0] == 'p';
    assert TypingKey(r2, u2)[0] == 't';
  }

  /** The three topics of a room are pairwise distinct. */
  lemma RoomTopicsDistinct(roomId: RoomId)
    ensures MessagesTopic(roomId) != PresenceTopic(roomId)
    ensures MessagesTopic(roomId) != TypingTopic(roomId)
    ensures PresenceTopic(roomId) != TypingTopic(roomId)
  {
    var n := |"room:" + roomId + ":"|;
    assert MessagesTopic(roomId)[n] == 'm';
    assert PresenceTopic(roomId)[n] == 'p';
    assert TypingTopic(roomId)[n] == 't';
  }

  /** Repeating `setTyping` with the same flag leaves the store as one call does. */
  lemma {:induction false} TypingIdempotent(store: map<string, Entry>, roomId: RoomId, userId: UserId, isTyping: bool)
    ensures AfterTyping(AfterTyping(store, roomId, userId, isTyping), roomId, userId, isTyping)
         == AfterTyping(store, roomId, userId, isTyping)
  {
    var once := AfterTyping(store, roomId, userId, isTyping);
    var twice := AfterTyping(once, roomId, userId, isTyping);
    assert twice.Keys == once.Keys;
  }

  /** Starting to type and then stopping leaves no typing key for the pair
      and every other key as it was. */
  lemma StartThenStopClearsOnlyThatKey(store: map<string, Entry>, roomId: RoomId, userId: UserId)
    ensures AfterTyping(AfterTyping(store, roomId, userId, true), roomId, userId, false)
         == store - {TypingKey(roomId, userId)}
  {
  }

  class ChatService {
    const prisma: Prisma
    const redis: Redis

    constructor (prisma: Prisma, redis: Redis)
      ensures this.prisma == prisma && this.redis == redis
    {
      this.prisma := prisma;
      this.redis := redis;
    }

    /** `getRoomMessages(roomId, limit = 50)`: the newest messages of the room,
        newest first, at most `limit` of them. The database query
        (`where roomId, orderBy createdAt desc, take limit`) is written out as
        a selection of the newest remaining message. */
    method GetRoomMessages(roomId: RoomId, limit: Option<nat>) returns (page: seq<Message>)
      requires prisma.MessagesValid()
      ensures var take := if limit.Some? then limit.value else DefaultMessageLimit;
              var n := |RoomMessageIds(prisma.messages, roomId)|;
              |page| == if take < n then take else n
      ensures forall i :: 0 <= i < |page| ==>
        page[i].roomId == roomId && page[i].id in prisma.messages && prisma.messages[page[i].id] == page[i]
      ensures forall i, j :: 0 <= i < j < |page| ==> page[i].id != page[j].id
      ensures forall i, j :: 0 <= i < j < |page| ==> page[i].createdAt >= page[j].createdAt
      ensures forall id, i ::
        (id in RoomMessageIds(prisma.messages, roomId) && 0 <= i < |page| && id !in IdsOf(page))
        ==> prisma.messages[id].createdAt <= page[i].createdAt
    {
      var take := if limit.Some? then limit.value else DefaultMessageLimit;
      var table := prisma.messages;
      ghost var all := RoomMessageIds(table, roomId);
      var remaining := set id | id in table && table[id].roomId == roomId;
      page := [];
      while |page| < take && remaining != {}
        invariant |page| <= take
        invariant Selecting(table, all, page, remaining)
        decreases remaining
      {
        var newest := Newest(remaining, table);
        SelectNewest(table, all, page, remaining, newest);
        page := page + [table[newest]];
        remaining := remaining - {newest};
      }
    }

    /** `createMessage(roomId, senderId, content, type = 'TEXT')`: store the
        message (the database fails when the room or the sender does not
        exist, and then nothing is published), then publish it with its
        sender on the room's message topic. */
    method CreateMessage(roomId: RoomId, senderId: UserId, content: string, messageType: Option<MessageType>,
                         newId: MessageId, now: int) returns (r: Result<Message>)
      requires prisma.Valid()
      requires newId !in prisma.messages
      modifies prisma`messages, redis`published
      ensures prisma.Valid()
      ensures r.Err? <==> roomId !in prisma.rooms || senderId !in prisma.users
      ensures r.Err? ==> prisma.messages == old(prisma.messages) && redis.published == old(redis.published)
      ensures r.Ok? ==>
        && r.value == Message(newId, roomId, senderId, content, if messageType.Some? then messageType.value else TEXT, now)
        && prisma.messages == old(prisma.messages)[newId := r.value]
        && redis.published == old(redis.published)
             + [Publication(MessagesTopic(roomId), NewMessage(r.value, prisma.users[senderId]))]
    {
      if roomId !in prisma.rooms || senderId !in prisma.users {
        return Err(Failure("Foreign key constraint violated"));
      }
      var message := Message(newId, roomId, senderId, content, if messageType.Some? then messageType.value else TEXT, now);
      prisma.messages := prisma.messages[newId := message];
      redis.Publish(MessagesTopic(roomId), NewMessage(message, prisma.users[senderId]));
      return Ok(message);
    }

    /** `deleteMessage(messageId, userId)`: only the sender may delete; an
        unknown id and a foreign message both fail with 'Unauthorized'. */
    method DeleteMessage(messageId: MessageId, userId: UserId) returns (r: Result<Message>)
      requires prisma.Valid()
      modifies prisma`messages
      ensures prisma.Valid()
      ensures r.Err? <==> messageId !in old(prisma.messages) || old(prisma.messages)[messageId].senderId != userId
      ensures r.Err? ==> r.error == Failure("Unauthorized") && prisma.messages == old(prisma.messages)
      ensures r.Ok? ==> r.value == old(prisma.messages)[messageId] && prisma.messages == old(prisma.messages) - {messageId}
    {
      if messageId !in prisma.messages || prisma.messages[messageId].senderId != userId {
        return Err(Failure("Unauthorized"));
      }
      var message := prisma.messages[messageId];
      prisma.messages := prisma.messages - {messageId};
      return Ok(message);
    }

    /** `userJoinedRoom(roomId, userId)`: mark the user online in the room for
        five minutes and announce it on the room's presence topic. */
    method UserJoinedRoom(roomId: RoomId, userId: UserId, now: int)
      modifies redis
      ensures redis.store == old(redis.store)[PresenceKey(roomId, userId) := Entry("online", PresenceTtl)]
      ensures redis.published == old(redis.published) + [Publication(PresenceTopic(roomId), UserJoined(userId, now))]
    {
      redis.Set(PresenceKey(roomId, userId), "online", PresenceTtl);
      redis.Publish(PresenceTopic(roomId), UserJoined(userId, now));
    }

    /** `userLeftRoom(roomId, userId)`: drop the presence key and announce it. */
    method UserLeftRoom(roomId: RoomId, userId: UserId, now: int)
      modifies redis
      ensures redis.store == old(redis.store) - {PresenceKey(roomId, userId)}
      ensures redis.published == old(redis.published) + [Publication(PresenceTopic(roomId), UserLeft(userId, now))]
    {
      redis.Del(PresenceKey(roomId, userId));
      redis.Publish(PresenceTopic(roomId), UserLeft(userId, now));
    }

    /** `setTyping(roomId, userId, isTyping)`: set the typing key for five
        seconds or delete it, then announce the change. */
    method SetTyping(roomId: RoomId, userId: UserId, isTyping: bool)
      modifies redis
      ensures redis.store == AfterTyping(old(redis.store), roomId, userId, isTyping)
      ensures redis.published == old(redis.published)
        + [Publication(TypingTopic(roomId), if isTyping then TypingStart(userId) else TypingStop(userId))]
    {
      var key := TypingKey(roomId, userId);
      if isTyping {
        redis.Set(key, "1", TypingTtl);
      } else {
        redis.Del(key);
      }
      redis.Publish(TypingTopic(roomId), if isTyping then TypingStart(userId) else TypingStop(userId));
    }
  }
}
