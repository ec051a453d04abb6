# Travel planner backend: rules over the stores

This project is a Dafny model of the rule layer of a trip-planning
application. The application is a NestJS backend with a Next.js web client.
Users register, or sign in through GitHub or 42 OAuth. They create rooms,
join and leave them, propose trips, vote on proposals and chat.

The model covers:

- **Chat and presence.** `Chat.ChatService` works over a message table, a
  Redis key/value store and Redis's publish log. Each entry in the store
  records the TTL it was set with. The log records every
  `(topic, payload)` pair the service publishes.
- **Rooms.** `Rooms.RoomsService` works over the room, membership,
  proposal and vote tables. Membership is keyed by (room, user) and votes
  by (proposal, user).
- **Accounts.** `Auth.AuthService` covers registration, login, OAuth
  account resolution and token generation. `Users.UsersService` covers
  profile lookup, a user's rooms, friends and profile updates.
- **Credential extraction.** The model covers:
  - the WebSocket guard's hand-written cookie parser and its
    access-then-refresh fallback;
  - the HTTP gateway guard's public bypass and its Bearer-then-cookie
    precedence;
  - the two passport JWT strategies;
  - the two OAuth strategies' argument mapping.
- **Shared strings.** The Socket.IO event names and the REST route
  builders, plus the web client's message endpoints.

The database is `Store.Prisma`: a class with one field per table, held in
maps keyed by primary key. Redis is `Store.Redis`. Both are updated in
place by the service methods, and each method's `modifies` clause names
exactly the tables it writes. `Prisma.Valid` records:

- each row sits under its own id;
- e-mail addresses are unique;
- every foreign key points to an existing row;
- every room's creator holds an ADMIN membership in it.

Every state-changing method preserves `Valid`.

The external libraries are parameters of the model:

- `verify` and `sign` stand for JWT verification and signing;
- `passwordMatches` stands for bcrypt's comparison;
- `decode` stands for `decodeURIComponent`;
- a `None` result stands for an exception.

Values the original generates at run time are passed in as arguments:
database ids, `new Date()` timestamps, the bcrypt hash and the random
username suffix. A `requires newId !in table` stands for the database's
id generator.

Errors are `Wrappers.Error` values. Their kinds mirror the Nest
exceptions: Unauthorized, NotFound, Forbidden and Conflict. `Failure`
stands for any other thrown error, such as a Prisma constraint violation
or a JavaScript `TypeError`. Nest exceptions and the errors the services
throw themselves carry the source's own message. The texts of database
failures, such as "Foreign key constraint violated" and "Record to update
not found", stand in for Prisma's messages.

## Model

| member | source | states |
|---|---|---|
| Chat.ChatService.GetRoomMessages | apps/backend/src/modules/chat/chat.service.ts:12-25 | only messages of the room, each as stored, distinct, newest first, exactly min(limit, room size) of them with limit defaulting to 50, and no unreturned message of the room is newer than a returned one |
| Chat.SelectNewest | apps/backend/src/modules/chat/chat.service.ts:12-25 | taking a newest remaining message keeps the newest-first selection state (distinct, ordered, rest no newer) |
| Chat.SelectNewestIds | apps/backend/src/modules/chat/chat.service.ts:12-25 | after a step of the selection, the remaining ids are the room's ids not yet on the page, and page plus remaining still count all of them |
| Chat.SelectNewestOrder | apps/backend/src/modules/chat/chat.service.ts:12-25 | after a step of the selection, the page is still distinct, stored and newest first, and nothing left is newer than it |
| Chat.NewestExists | apps/backend/src/modules/chat/chat.service.ts:16 | a non-empty set of messages has one whose createdAt is at least every other's |
| Chat.Newest | apps/backend/src/modules/chat/chat.service.ts:16 | returns a member of the set that no other member is newer than |
| Chat.InIdsOf | apps/backend/src/modules/chat/chat.service.ts:12-25 | an id is among a page's ids iff some message on the page carries it |
| Chat.IdsOfAppend | apps/backend/src/modules/chat/chat.service.ts:12-25 | appending a message adds exactly its id to the page's ids |
| Chat.ChatService.CreateMessage | apps/backend/src/modules/chat/chat.service.ts:27-54 | fails and publishes nothing iff the room or sender is missing; otherwise stores one message with the given room, sender, content and type (default TEXT), then appends exactly one new_message event with that message and its sender on `room:<id>:messages` |
| Chat.ChatService.DeleteMessage | apps/backend/src/modules/chat/chat.service.ts:56-68 | fails with 'Unauthorized' and changes nothing iff the id is unknown or the caller is not the sender; otherwise removes exactly that message and returns it |
| Chat.ChatService.UserJoinedRoom | apps/backend/src/modules/chat/chat.service.ts:71-81 | sets only `presence:<room>:<user>` to 'online' with TTL 300 and publishes one user_joined on `room:<room>:presence` |
| Chat.ChatService.UserLeftRoom | apps/backend/src/modules/chat/chat.service.ts:83-93 | deletes only `presence:<room>:<user>` and publishes one user_left on `room:<room>:presence` |
| Chat.ChatService.SetTyping | apps/backend/src/modules/chat/chat.service.ts:95-110 | sets `typing:<room>:<user>` to '1' with TTL 5 or deletes it, touching no other key, and publishes one typing_start or typing_stop on `room:<room>:typing` |
| Chat.TypingIdempotent | apps/backend/src/modules/chat/chat.service.ts:96-101 | two setTyping calls with the same flag leave the store as one does |
| Chat.StartThenStopClearsOnlyThatKey | apps/backend/src/modules/chat/chat.service.ts:96-101 | starting then stopping removes that pair's typing key and keeps every other key |
| Chat.PresenceKeyInjective | apps/backend/src/modules/chat/chat.service.ts:72 | distinct (room, user) pairs get distinct presence keys when room ids hold no ':' |
| Chat.TypingKeyInjective | apps/backend/src/modules/chat/chat.service.ts:96 | distinct (room, user) pairs get distinct typing keys when room ids hold no ':' |
| Chat.PresenceAndTypingKeysDisjoint | apps/backend/src/modules/chat/chat.service.ts:72-96 | no presence key is a typing key, so presence and typing never touch each other's keys |
| Chat.RoomTopicsDistinct | apps/backend/src/modules/chat/chat.service.ts:45-110 | a room's messages, presence and typing topics are pairwise different |
| Store.Redis.Set | apps/backend/src/modules/chat/chat.service.ts:72-98 | the key now holds the value and TTL; no other key changes |
| Store.Redis.Del | apps/backend/src/modules/chat/chat.service.ts:84-100 | the key is gone; no other key changes |
| Store.Redis.Publish | apps/backend/src/modules/chat/chat.service.ts:45-51 | the log grows by exactly that publication |
| Rooms.RoomsService.Create | apps/backend/src/modules/rooms/rooms.service.ts:8-33 | the caller becomes the creator and the only member, as ADMIN, with no proposals or votes, and findById then returns exactly this room; an unknown creator fails the foreign key and changes nothing |
| Rooms.FreshRoomDetails | apps/backend/src/modules/rooms/rooms.service.ts:8-33 | a fresh room with its creator's ADMIN row has that single member and no proposals or votes |
| Rooms.RoomsService.FindById | apps/backend/src/modules/rooms/rooms.service.ts:35-67 | NotFound('Room not found') iff the id is unknown; otherwise the room with exactly its members and their roles, exactly its proposal rows as stored, and exactly the stored votes on those proposals with their values |
| Rooms.RoomsService.CheckMembership | apps/backend/src/modules/rooms/rooms.service.ts:145-158 | the caller's role iff a membership row exists, else Forbidden('Not a member of this room') |
| Rooms.RoomsService.JoinRoom | apps/backend/src/modules/rooms/rooms.service.ts:69-84 | NotFound for an unknown room, Forbidden('Already a member of this room') for a member, a foreign-key failure for an unknown user, each leaving memberships unchanged; otherwise exactly one new MEMBER row |
| Rooms.JoinAddsRoom | apps/backend/src/modules/rooms/rooms.service.ts:69-84 | a new membership row adds exactly that room to the user's rooms and changes no other user's rooms |
| Rooms.JoinThenLeaveRestores | apps/backend/src/modules/rooms/rooms.service.ts:69-107 | joining and then leaving restores the membership table |
| Rooms.RoomsService.LeaveRoom | apps/backend/src/modules/rooms/rooms.service.ts:86-108 | NotFound for a non-member and Forbidden('Admin must transfer role before leaving') for an ADMIN, both leaving memberships unchanged; otherwise removes exactly the caller's row; no room ever loses an admin |
| Rooms.RemovingMemberKeepsAdmins | apps/backend/src/modules/rooms/rooms.service.ts:98-107 | deleting a MEMBER row leaves every room's admin set as it was |
| Rooms.RoomsService.CreateProposal | apps/backend/src/modules/rooms/rooms.service.ts:110-124 | Forbidden('Not a member of this room') with no proposal created iff the caller is not a member; otherwise one proposal of that room with the data, and no votes on it |
| Rooms.RoomsService.Vote | apps/backend/src/modules/rooms/rooms.service.ts:126-143 | an upsert keyed by (proposal, user) with no membership check: one vote per pair, a repeat replaces it, and only an unknown proposal or user fails |
| Users.UsersService.FindById | apps/backend/src/modules/users/users.service.ts:8-22 | NotFound('User not found') iff the id is unknown; otherwise the stored user minus only the hash |
| Users.UsersService.FindByEmail | apps/backend/src/modules/users/users.service.ts:24-29 | the stored user with that e-mail address, or none iff no user has it |
| Users.UsersService.UpdateProfile | apps/backend/src/modules/users/users.service.ts:31-36 | changes only that user's profile, field by field from the update; an unknown user fails and changes nothing |
| Users.ApplyUpdateIdempotent | apps/backend/src/modules/users/users.service.ts:31-36 | applying an update twice is applying it once, and an empty update changes nothing |
| Users.UsersService.GetUserRooms | apps/backend/src/modules/users/users.service.ts:38-64 | exactly the stored rooms with a membership row for the user, one per room id |
| Users.RoomsCardinality | apps/backend/src/modules/users/users.service.ts:38-64 | rows keyed by their ids are as many as the ids |
| Users.AcceptedOf | apps/backend/src/modules/users/users.service.ts:67-71 | exactly the ACCEPTED friendships with the user on either side |
| Users.UsersService.GetUserFriends | apps/backend/src/modules/users/users.service.ts:66-91 | entry i is the other party of the i-th accepted friendship of the user (in table order), as stored minus only the hash; so one entry per such friendship |
| Auth.AuthService.Register | apps/backend/src/modules/auth/auth.service.ts:17-59 | Conflict and nothing created iff some user shares the e-mail or username, 'Email already in use' only when a user has the e-mail; otherwise exactly one new user with the names in its profile, returned without the hash with its tokens |
| Auth.AuthService.Login | apps/backend/src/modules/auth/auth.service.ts:61-88 | every failure is Unauthorized('Invalid credentials'); success only for a matching user with a hash that bcrypt accepts, returned without the hash with its tokens; it succeeds when every matching user has such a hash; nothing changes |
| Auth.RegisteredUserCanLogIn | apps/backend/src/modules/auth/auth.service.ts:17-88 | after a registration, the e-mail identifies only the new user, whose hash accepts the password |
| Auth.AuthService.ValidateOAuthUser | apps/backend/src/modules/auth/auth.service.ts:90-155 | the outcome is `OAuthResolved`: a provider-linked user is returned untouched; else the user with that non-empty e-mail is linked; else, when no user has the e-mail, a new linked user is created with the e-mail's local part plus the suffix as username; else (an empty e-mail already taken) the unique-e-mail failure; the result always carries the provider and id and is stored as returned |
| Auth.OAuthWithAddressSucceeds | apps/backend/src/modules/auth/auth.service.ts:90-155 | with a non-empty e-mail the resolution succeeds and every other user row is unchanged |
| Auth.OAuthUsernameIsLocalPart | apps/backend/src/modules/auth/auth.service.ts:133 | the generated username's stem holds no '@' and starts the e-mail address |
| Auth.GenerateTokens | apps/backend/src/modules/auth/auth.service.ts:157-166 | the access token is the signed payload {sub: userId, email}; the expiry is the configured value when set and non-empty, else '7d' |
| Auth.AccessTokenVerifies | apps/backend/src/modules/auth/auth.service.ts:157-166 | the access token verifies back to the payload {sub: userId, email} |
| Auth.AuthService.ValidateUser | apps/backend/src/modules/auth/auth.service.ts:168-181 | Unauthorized('User not found') iff the id is unknown; otherwise the user minus only the hash |
| Entities.SanitizeKeepsAllButHash | apps/backend/src/modules/auth/auth.service.ts:183-186 | the sanitised user plus the hash gives back the user |
| Entities.SanitizeForgetsOnlyHash | apps/backend/src/modules/auth/auth.service.ts:183-186 | two users sanitise alike iff they differ at most in the hash |
| WsJwtGuard.WsJwtGuard.ParseCookies | apps/backend/src/modules/auth/guards/ws-jwt.guard.ts:63-76 | the segment-by-segment record of the header (empty for an empty header), or a failure where decoding throws |
| WsJwtGuard.SegmentRule | apps/backend/src/modules/auth/guards/ws-jwt.guard.ts:68-72 | a trimmed segment without exactly one '=' is dropped; one with exactly one '=' stores its decoded value under its name |
| WsJwtGuard.LastSegmentWins | apps/backend/src/modules/auth/guards/ws-jwt.guard.ts:68-72 | a later segment with the same name overwrites the earlier value |
| WsJwtGuard.SingleCookie | apps/backend/src/modules/auth/guards/ws-jwt.guard.ts:63-76 | a header with one `name=value` parses to exactly that cookie, decoded |
| WsJwtGuard.SplitPair | apps/backend/src/modules/auth/guards/ws-jwt.guard.ts:69-70 | `name=value` splits on '=' into its two parts |
| WsJwtGuard.FailureAbsorbs | apps/backend/src/modules/auth/guards/ws-jwt.guard.ts:68-73 | once a value fails to decode, the whole parse fails |
| WsJwtGuard.Authenticate | apps/backend/src/modules/auth/guards/ws-jwt.guard.ts:15-61 | every failure is Unauthorized('Invalid token'); a success is a stored user minus the hash |
| WsJwtGuard.WsJwtGuard.CanActivate | apps/backend/src/modules/auth/guards/ws-jwt.guard.ts:15-61 | admits and attaches the user exactly when the cookie outcome is a user; otherwise fails with 'Invalid token' and attaches nothing |
| WsJwtGuard.NoAccessTokenRejected | apps/backend/src/modules/auth/guards/ws-jwt.guard.ts:21-43 | without an access token the guard rejects whatever the refresh token |
| WsJwtGuard.AccessTokenFirst | apps/backend/src/modules/auth/guards/ws-jwt.guard.ts:21-57 | a verifying access token decides the outcome and the refresh cookie is ignored |
| WsJwtGuard.RefreshFallback | apps/backend/src/modules/auth/guards/ws-jwt.guard.ts:30-40 | after a failing access token, the guard admits iff the refresh token is present, verifies, and names a stored user, and the admitted user is that user minus the hash |
| WsJwtGuard.IssuedAccessTokenAdmits | apps/backend/src/modules/auth/guards/ws-jwt.guard.ts:15-61 | a handshake carrying the access token issued for a stored user admits that user |
| GatewayGuard.ExtractTokenFromRequest | apps/backend/src/common/gateway/gateway.guard.ts:49-63 | a header starting with 'Bearer ' wins with the text after those 7 characters; otherwise the access_token cookie iff it is non-empty |
| GatewayGuard.BareBearerShadowsCookie | apps/backend/src/common/gateway/gateway.guard.ts:52-54 | a bare 'Bearer ' header yields the empty token even when a cookie is present |
| GatewayGuard.GatewayGuard.CanActivate | apps/backend/src/common/gateway/gateway.guard.ts:17-47 | public routes pass and attach nothing; a missing or empty token fails with 'No authentication token provided'; a failing token fails with 'Invalid or expired token'; both attach nothing; otherwise the payload becomes the request's user |
| JwtStrategy.JwtFromRequest | apps/backend/src/modules/auth/strategies/jwt.strategy.ts:15-19 | the non-empty access_token cookie, else the Bearer header's token |
| JwtStrategy.Validate | apps/backend/src/modules/auth/strategies/jwt.strategy.ts:25-39 | Unauthorized iff payload.sub is unknown; otherwise that user minus only the hash |
| JwtRefreshStrategy.JwtFromRequest | apps/backend/src/modules/auth/strategies/jwt-refresh.strategy.ts:15-20 | only the refresh_token cookie, present iff the cookie exists |
| JwtRefreshStrategy.Validate | apps/backend/src/modules/auth/strategies/jwt-refresh.strategy.ts:26-46 | 'No refresh token provided' without the cookie, 'User not found' for an unknown subject, otherwise that user minus only the hash |
| TokenPrecedence.OppositePrecedence | apps/backend/src/common/gateway/gateway.guard.ts:49-63 | with both a cookie and a Bearer header, the gateway guard takes the header and the JWT strategy the cookie, and the refresh strategy neither |
| GithubStrategy.FirstName | apps/backend/src/modules/auth/strategies/github.strategy.ts:24 | the first space-separated word, holding no space |
| GithubStrategy.LastName | apps/backend/src/modules/auth/strategies/github.strategy.ts:25 | never empty |
| GithubStrategy.NameIsFirstWordAndRest | apps/backend/src/modules/auth/strategies/github.strategy.ts:24-25 | a name with a space is its first word, a space and the rejoined rest |
| GithubStrategy.SingleWordName | apps/backend/src/modules/auth/strategies/github.strategy.ts:24-25 | a name without a space is all first name, with last name 'User' |
| GithubStrategy.NameReconstructed | apps/backend/src/modules/auth/strategies/github.strategy.ts:24-25 | when the rest is non-empty, first name, space and last name give back the name |
| GithubStrategy.TrailingSpaceName | apps/backend/src/modules/auth/strategies/github.strategy.ts:24-25 | a single word with a trailing space keeps the word as first name, and the last name falls back to 'User' |
| GithubStrategy.NewGithubAccount | apps/backend/src/modules/auth/strategies/github.strategy.ts:21-38 | an account created for a GitHub identity carries the first e-mail, no hash, the split name and the first photo, and no other row changes |
| GithubStrategy.GithubArgs | apps/backend/src/modules/auth/strategies/github.strategy.ts:21-38 | provider 'github', the profile id, the first e-mail, names from displayName or else username, the first photo if any; a profile without e-mail fails reading it |
| GithubStrategy.Validate | apps/backend/src/modules/auth/strategies/github.strategy.ts:21-38 | with an e-mail, the outcome is `validateOAuthUser`'s (`OAuthResolved`) on the mapped arguments `GithubArgs(profile)`; without one, the read of `emails[0].value` fails and nothing changes |
| FortyTwoStrategy.FortyTwoArgs | apps/backend/src/modules/auth/strategies/42.strategy.ts:20-33 | provider '42', the profile id, the first e-mail, givenName or else username, familyName or else 'Student', the first photo if any; a profile without e-mail fails reading it |
| FortyTwoStrategy.NamesNonEmpty | apps/backend/src/modules/auth/strategies/42.strategy.ts:27-28 | the last name is never empty; the first name is empty iff givenName and username both are |
| FortyTwoStrategy.NewFortyTwoAccount | apps/backend/src/modules/auth/strategies/42.strategy.ts:20-33 | an account created for a 42 identity carries the first e-mail, no hash, givenName or else username, familyName or else 'Student', and the first photo, and no other row changes |
| FortyTwoStrategy.Validate | apps/backend/src/modules/auth/strategies/42.strategy.ts:20-33 | with an e-mail, the outcome is `validateOAuthUser`'s (`OAuthResolved`) on the mapped arguments `FortyTwoArgs(profile)`; without one, the read of `emails[0].value` fails and nothing changes |
| MessagesApi.BuildQuery | apps/web/src/lib/api/messages.ts:13-15 | the parameters appended one by one render as the case-by-case query: limit only when truthy, offset only when truthy, limit first |
| MessagesApi.GetMessagesUrl | apps/web/src/lib/api/messages.ts:12-19 | the list path, then '?' and the query only when the query is non-empty |
| MessagesApi.QueryStringPair | apps/web/src/lib/api/messages.ts:13-17 | two parameters render as `a=x&b=y` |
| MessagesApi.QueryMarkIffParameters | apps/web/src/lib/api/messages.ts:13-17 | the URL holds '?' iff limit or offset is truthy, and the text before it is the list path |
| MessagesApi.NoQueryMarkInNumber | apps/web/src/lib/api/messages.ts:14-15 | a rendered number holds no '?' |
| MessagesApi.SendMessagePath | apps/web/src/lib/api/messages.ts:21-23 | sendMessage posts to the list path |
| MessagesApi.DeleteMessagePath | apps/web/src/lib/api/messages.ts:25-27 | deleteMessage targets the list path, '/' and the message id |
| SharedConstants.SocketEventValuesDistinct | packages/shared/src/constants/index.ts:1-23 | the twelve socket event names are pairwise distinct |
| SharedConstants.AllRoutes | packages/shared/src/constants/index.ts:25-125 | the fifty route constants and builder outputs all begin with '/' |
| SharedConstants.AuthRoutes | packages/shared/src/constants/index.ts:27-35 | every AUTH route begins with '/' |
| SharedConstants.UsersRoutes | packages/shared/src/constants/index.ts:38-43 | every USERS route begins with '/' |
| SharedConstants.FriendsRoutes | packages/shared/src/constants/index.ts:46-54 | every FRIENDS route begins with '/' |
| SharedConstants.RoomsRoutes | packages/shared/src/constants/index.ts:57-67 | every ROOMS route begins with '/' |
| SharedConstants.AvailabilityRoutes | packages/shared/src/constants/index.ts:70-75 | every AVAILABILITY route begins with '/' |
| SharedConstants.ProposalsRoutes | packages/shared/src/constants/index.ts:78-84 | every PROPOSALS route begins with '/' |
| SharedConstants.VotesRoutes | packages/shared/src/constants/index.ts:87-96 | every VOTES route begins with '/' |
| SharedConstants.ActivitiesRoutes | packages/shared/src/constants/index.ts:99-108 | every ACTIVITIES route begins with '/' |
| SharedConstants.MessagesRoutes | packages/shared/src/constants/index.ts:111-115 | every MESSAGES route begins with '/' |
| SharedConstants.StorageRoutes | packages/shared/src/constants/index.ts:118-124 | every STORAGE route begins with '/' |
| SharedConstants.RoomPathsCoincide | packages/shared/src/constants/index.ts:58-61 | ROOMS.GET, UPDATE and DELETE build the same path |
| SharedConstants.VotePathsCoincide | packages/shared/src/constants/index.ts:87-95 | VOTES.VOTE, UPDATE and DELETE coincide and differ from LIST |
| SharedConstants.MessagePathsNest | packages/shared/src/constants/index.ts:111-115 | MESSAGES.LIST equals CREATE, and DELETE is LIST, '/' and the id |
| SharedConstants.ActivityPathsNest | packages/shared/src/constants/index.ts:99-107 | ACTIVITIES.UPDATE and DELETE are LIST, '/' and the id |
| SharedConstants.SingleArgumentBuildersInjective | packages/shared/src/constants/index.ts:38-115 | USERS.GET, ROOMS, FRIENDS and JOIN and MESSAGES.LIST builders are injective in their argument |
| SharedConstants.MessagesDeleteInjective | packages/shared/src/constants/index.ts:114 | MESSAGES.DELETE determines its room and message when room ids hold no '/' |
| SharedConstants.AffixCancel | packages/shared/src/constants/index.ts:38-115 | two builder outputs with the same prefix and suffix have the same argument |
| JsStrings.Split | apps/backend/src/modules/auth/guards/ws-jwt.guard.ts:68-69 | `split` on one character: one more piece than separators, no piece holding the separator |
| JsStrings.JoinSplit | apps/backend/src/modules/auth/strategies/github.strategy.ts:24-25 | joining the pieces of a split gives back the string |
| JsStrings.SplitJoin | apps/backend/src/modules/auth/strategies/github.strategy.ts:24-25 | splitting a join of separator-free pieces gives back the pieces |
| JsStrings.SplitWithoutSeparator | apps/backend/src/modules/auth/strategies/github.strategy.ts:24-25 | a string without the separator splits into itself alone |
| JsStrings.SplitAfterFirst | apps/backend/src/modules/auth/guards/ws-jwt.guard.ts:69 | the first separator ends the first piece |
| JsStrings.SplitPointUnique | packages/shared/src/constants/index.ts:114 | the first separator fixes where a string splits |
| JsStrings.CountAbsent | apps/backend/src/modules/auth/guards/ws-jwt.guard.ts:69-70 | a string without the character counts none of it |
| JsStrings.TrimUnchanged | apps/backend/src/modules/auth/guards/ws-jwt.guard.ts:69 | trim leaves a string with non-blank ends unchanged |
| JsStrings.NatToString | apps/web/src/lib/api/messages.ts:14-15 | a non-negative number renders as a non-empty digit string |
| JsStrings.ParseNatToString | apps/web/src/lib/api/messages.ts:14-15 | the rendering reads back as the number |
| JsStrings.NatToStringInjective | apps/web/src/lib/api/messages.ts:14-15 | distinct naturals render differently |
| JsStrings.IntToString | apps/web/src/lib/api/messages.ts:14-15 | an integer renders as a non-empty string of '-' and digits |
| JsStrings.IntToStringInjective | apps/web/src/lib/api/messages.ts:14-15 | distinct integers render differently |

## Left out

- Chat.ChatService.GetRoomMessages: the order among messages with equal `createdAt` is left open, because the database does not fix it either.
- Chat.ChatService.GetRoomMessages: the returned messages do not carry the included sender row and profile. `CreateMessage` does publish the sender row with the message.
- Chat.ChatService.GetRoomMessages: `limit` is a natural number. The source accepts any number; Prisma reads a negative `take` as taking from the other end of the ordering and rejects a fraction. Those inputs are not modelled.
- Chat.ChatService.CreateMessage: `type` is the `MessageType` enumeration. The source passes any string, and a value outside TEXT, IMAGE and SYSTEM makes the insert throw; that failure is not modelled.
- Users.UsersService.UpdateProfile: the update is the typed `ProfileUpdate`. The source passes the request body through, so Prisma's failures on unknown columns or ill-typed values are not modelled.
- Rooms.RoomsService.CreateProposal: the proposal data is the typed `ProposalData`. The source spreads the request body into the row, so Prisma's failures on unknown, missing or ill-typed columns are not modelled.
- Rooms.RoomsService.Create: the included creator and member user rows are not returned. They carry the password hash, which the source does not remove.
- Users.UsersService.GetUserRooms: the rooms' included creator and member user rows are not returned. Those rows carry the password hash, which the source does not remove. The result is a set of rooms, because the query fixes no order.
- The JSON serialisation of published events is modelled as the `ChatEvent` datatype, whose `Tag` is the `type` field.
- The presence and typing TTLs are recorded as data. Their expiry is Redis behaviour and is not modelled. Delivery of published events is not modelled either, nor are the socket gateways and the notification service, which only log or hand off to socket.io.
- JWT signing and verification, bcrypt and `decodeURIComponent` are uninterpreted function parameters. So is passport's Bearer-header extractor: `JwtStrategy.JwtFromRequest` takes its result as an argument.
- `Math.random` for the OAuth username suffix, `new Date()` timestamps and database-generated ids are method parameters.
- Chat.ChatService.CreateMessage: a failed insert is modelled only as the foreign-key failure (unknown room or sender), with a generic message. Other database failures are out of scope.
- Rooms.RoomsService.FindById: the included creator and member user rows and their profiles are not returned. Only membership roles, proposals and votes are.
- Rooms.RoomsService.FindById: the activities of proposals are not returned, because no operation in this model touches activities.
- The `RoomStatus` enumeration is not used by any modelled operation.
- Auth.AuthService.Register: the database may return any user that conflicts, so the contract says which message can appear for which conflict but not which conflicting user is reported.
- Auth.AuthService.Login: `findFirst` over e-mail or username may return any matching user, so success is promised only when every matching user has an accepted hash. Username uniqueness is not part of this model, because the schema is not part of it.
- GithubStrategy.GithubArgs: passport-github2's profile is reduced to the fields read; `emails` and `photos` are sequences of their `value` strings.
- FortyTwoStrategy.FortyTwoArgs: likewise for passport-42's profile.
- The passport failure raised when an extractor finds no token happens before `validate` runs. It is not modelled beyond the extractor's `None`.
- JsStrings.IntToString: NaN, fractions and JavaScript's exponent notation for numbers from 1e21 up are not modelled. `MessagesApi.QueryString` renders parameters without URL encoding, which is exact for digit and letter values only.
- Controllers, the storage service, module wiring, the React pages and the other web API wrappers are not part of this model.
- The compiled `constants/index.js` and `index.d.ts`, which lack the STORAGE routes, are not part of this model. The TypeScript source is modelled.
