# Verified model of a two-party chat service

This project models the stateful core of a two-party direct-messaging service:

- the NestJS backend's conversation store, with its find-or-create of the one conversation per pair of users;
- the message store, with its conversation access guard;
- the socket.io gateway, which authenticates sockets, keeps room membership and broadcasts new messages;
- registration, login and JWT validation over the user table, and the registration body's validation rules;
- the two Svelte list stores of the frontend.

Storage is an in-memory abstraction. A repository is a sequence of documents in insertion order. A `findOne` returns the first document that matches. The `order` option is a stable sort on an integer key. Dates are naturals and "now" is a parameter. Newly generated ids are parameters too.

Several things are uninterpreted function parameters:
- ObjectId validity (`isObjectId`);
- bcrypt hashing and comparison (`hash`, `compare`);
- JWT signing and verification (`sign`, `verify`, where `None` stands for a throw);
- the `IsEmail` validator.

Files, one module each:

| file | models |
|---|---|
| `outcomes.dfy` | `Option`, and `Result` with the NestJS exceptions and their messages |
| `seqs.dfy` | filter, first match, stable insertion sort, and their laws |
| `entities.dfy` | the `User`, `Conversation` and `Message` documents, and the password-free projections |
| `storage.dfy` | `Repository<T>`: a class whose `rows` the services insert into and update |
| `conversations.dfy` | `ConversationsService` |
| `messages.dfy` | `MessagesService` |
| `gateway.dfy` | `MessagesGateway` |
| `auth.dfy`, `jwt_strategy.dfy`, `users.dfy`, `register_dto.dfy` | the auth and user services and the registration rules |
| `fetch.dfy`, `conversations_store.dfy`, `messages_store.dfy` | the frontend stores |

Each service operation that changes state is a method of a class. The method is tied to a pure step function: `CreateStep`, `SendStep` or `RegisterStep`. The lemmas about several calls are stated over that function. Examples are idempotence, invariants the stores keep, and reading back a sent message.

Three behaviours of the code worth noting:
- `findOne` on a malformed conversation id raises BadRequest, not a not-found error.
- `handleDisconnect` is an empty stub: the gateway does no cleanup of its own when a socket disconnects. socket.io's automatic leave of all rooms is outside the model (see "## Left out").
- Empty message content is refused only by the request DTO. Here that is a precondition of `create`, not a check inside the store.

## Model

| member | source | states |
|---|---|---|
| `Conversations.FindAll` | backend/src/conversations/conversations.service.ts:19-38 | the result holds exactly the stored conversations that include the user, each as often as stored, ordered by `updatedAt`, newest first |
| `Conversations.FindPairSymmetric` | backend/src/conversations/conversations.service.ts:55-58 | the `$all` pair lookup finds the same conversation whichever order the two users are given in |
| `Conversations.FindOne` | backend/src/conversations/conversations.service.ts:85-121 | a malformed id is BadRequest "Invalid conversation id" before any lookup; an unknown id, or a conversation the user is not in, gives null; otherwise the result is a stored conversation with that id that includes the user |
| `Conversations.FindOneUniqueIds` | backend/src/conversations/conversations.service.ts:94-112 | with distinct ids, `findOne` returns conversation c exactly when c is stored and includes the user |
| `Conversations.CreateStep` | backend/src/conversations/conversations.service.ts:40-83 | a conversation with oneself is a Conflict and the store does not change; an existing conversation holding both users is returned and the store does not change; otherwise exactly one conversation is appended, with participants `[userId, participantId]` in that order, and it is returned |
| `Conversations.CreateIdempotent` | backend/src/conversations/conversations.service.ts:55-83 | after a successful create(a, b), create(a, b) and create(b, a) both return the same conversation and leave the store as it is |
| `Conversations.CreateKeepsWellformed` | backend/src/conversations/conversations.service.ts:51-82 | create keeps the store invariant: ids are distinct, every conversation is between two different users, and no two conversations hold the same pair |
| `Conversations.ConversationsService.Create` | backend/src/conversations/conversations.service.ts:40-83 | the returned value and the new repository contents are those of `CreateStep` on the old contents |
| `Messages.VerifyConversationAccess` | backend/src/messages/messages.service.ts:98-115 | the only failures are NotFound "Conversation not found" and Forbidden "Access denied to this conversation"; NotFound happens exactly when no conversation has the id; Forbidden names a stored conversation with the id that lacks the user; success returns a stored conversation with the id that includes the user |
| `Messages.AccessByParticipation` | backend/src/messages/messages.service.ts:98-115 | with distinct ids, the guard returns the conversation when the user is a participant and Forbidden otherwise |
| `Messages.FindAll` | backend/src/messages/messages.service.ts:26-53 | the guard's failure is passed on unchanged; on success the result holds exactly the messages of that conversation, each as often as stored, in non-decreasing `createdAt` order |
| `Messages.SendStep` | backend/src/messages/messages.service.ts:56-96 | a refused guard saves no message and changes no conversation; on success exactly one message (`senderId = userId`, the requested conversation and content, created now) is appended and returned; only `updatedAt` of that conversation changes, to now, and every other conversation stays as it is |
| `Messages.SendKeepsConsistent` | backend/src/messages/messages.service.ts:68-82 | after create, every message still belongs to a stored conversation that its sender takes part in |
| `Messages.SendKeepsWellformed` | backend/src/messages/messages.service.ts:81-82 | touching `updatedAt` keeps the conversation store invariant |
| `Messages.SentMessageListedOnce` | backend/src/messages/messages.service.ts:26-53 | after a successful create with a fresh id, a participant's `findAll` of the conversation succeeds and lists the new message exactly once |
| `Messages.NonParticipantForbidden` | backend/src/messages/messages.service.ts:110-112 | a user who is not a participant gets Forbidden from both `findAll` and `create`, and the refused create changes neither store |
| `Messages.MessagesService.Create` | backend/src/messages/messages.service.ts:56-96 | both repositories end as `SendStep` says; a refused call emits nothing; a successful one emits exactly one `message:new` to the members of `conversation:<id>`, carrying the returned record, so exactly those sockets find that record appended to their inbox and every other inbox is unchanged; rooms and sessions do not change; under the gateway invariant the invariant is kept and the broadcast reaches only authenticated sockets |
| `Gateway.RoomKindsDisjoint` | backend/src/messages/messages.gateway.ts:63 | a `user:` room name never equals a `conversation:` room name |
| `Gateway.RoomNamesInjective` | backend/src/messages/messages.gateway.ts:86 | two different conversation ids give two different room names, and so do two different user ids |
| `Gateway.Join` | backend/src/messages/messages.gateway.ts:86 | joining adds the socket to that room only; every other room keeps its members |
| `Gateway.Leave` | backend/src/messages/messages.gateway.ts:95 | leaving removes the socket from that room only; every other room keeps its members |
| `Gateway.Split` | backend/src/messages/messages.gateway.ts:39 | splitting a header on spaces gives at least one field, and no field contains a space |
| `Gateway.SplitJoin` | backend/src/messages/messages.gateway.ts:39 | joining the fields back with spaces gives the original header |
| `Gateway.ExtractToken` | backend/src/messages/messages.gateway.ts:37-44 | a non-empty `auth.token` wins over the header; otherwise the token is the header's second space-separated field when that is non-empty; an empty token counts as none |
| `Gateway.Authenticate` | backend/src/messages/messages.gateway.ts:37-54 | a user is found exactly when there is a token, verification accepts it, its `sub` is a well-formed id and a stored user has that id; that user is the one returned |
| `Gateway.MessagesGateway.HandleConnection` | backend/src/messages/messages.gateway.ts:35-70 | on failure the socket is disconnected, with no user bound, no room joined and nothing emitted; on success its user is bound, it joins `user:<id>`, and `authenticated` with the id is emitted to it alone; the gateway invariant is kept |
| `Gateway.MessagesGateway.HandleDisconnect` | backend/src/messages/messages.gateway.ts:73-75 | no gateway state changes |
| `Gateway.MessagesGateway.HandleJoinConversation` | backend/src/messages/messages.gateway.ts:77-88 | an unauthenticated socket gets "Unauthorized" and no room changes; otherwise the socket joins `conversation:<id>` and the id is echoed back |
| `Gateway.MessagesGateway.HandleLeaveConversation` | backend/src/messages/messages.gateway.ts:90-97 | no authentication is needed; only this socket's membership of `conversation:<id>` is removed, and the reply is always success with the id |
| `Gateway.MessagesGateway.BroadcastMessage` | backend/src/messages/messages.gateway.ts:99-103 | exactly one `message:new` emission, addressed to exactly the current members of `conversation:<id>`: each of them finds the message appended to its inbox, and every other inbox is unchanged; under the gateway invariant the invariant is kept and every recipient is an authenticated socket |
| `Gateway.MessagesGateway.ConversationRoomAuthenticated` | backend/src/messages/messages.gateway.ts:82-86 | under the gateway invariant, every member of a conversation room is an authenticated socket, so a broadcast reaches only authenticated sockets |
| `Gateway.MessagesGateway.UserRoomReachesOnlyItsUser` | backend/src/messages/messages.gateway.ts:56-63 | under the gateway invariant, every socket in `user:<u>` is bound to user `u` |
| `Auth.RegisterStep` | backend/src/auth/auth.service.ts:23-64 | a taken email is a Conflict, checked first; a taken username with a free email is a Conflict; with both free, a failed save is InternalServerError "Failed to create user"; every failure leaves the table unchanged; success adds exactly one user with the given email and username and `hash(password)` as password, and returns only id, email and username |
| `Auth.RegisterKeepsUnique` | backend/src/auth/auth.service.ts:28-42 | register keeps emails unique and usernames unique |
| `Auth.Login` | backend/src/auth/auth.service.ts:66-103 | every failure is the same Unauthorized "Invalid credentials"; an unknown user fails; login succeeds exactly when the first user matching by email or username passes the password check; the token is signed over that first matching user's id, email and username, which are also the returned fields |
| `Auth.RegisteredUserCanLogIn` | backend/src/auth/auth.service.ts:44-102 | right after registering, logging in with the new email or username and the same password returns the new user and a token signed over its claims, given that `compare` accepts a password against its own hash and that no previously stored user has the login string as email or username |
| `Auth.AuthService.Register` | backend/src/auth/auth.service.ts:23-64 | the returned value and the new user table are those of `RegisterStep` on the old table |
| `JwtStrategy.Validate` | backend/src/auth/strategies/jwt.strategy.ts:24-38 | a malformed `sub` is BadRequest "Invalid user ID format" before any lookup; an unknown `sub` is Unauthorized; otherwise the result holds the stored user's id, email and username, and no password |
| `JwtStrategy.ValidateUsesOnlySubject` | backend/src/auth/strategies/jwt.strategy.ts:33-37 | the result depends only on `sub`, never on the email or username inside the token |
| `Users.FindAll` | backend/src/users/users.service.ts:13-26 | one record per stored user, same length and order, with that user's id, email, username and createdAt and no password |
| `Users.FindOne` | backend/src/users/users.service.ts:28-49 | null exactly when no user has the id; otherwise that user's id, email, username and createdAt |
| `RegisterDto.ValidatorLengthAtMost` | backend/src/auth/dto/register.dto.ts:14-15 | the length `MinLength`/`MaxLength` measure (one per code point, none for a variation selector U+FE0E/U+FE0F) never exceeds the number of code points, and equals it in a string without variation selectors |
| `RegisterDto.UsernameRule` | backend/src/auth/dto/register.dto.ts:13-18 | a username passes exactly when it has 3 to 20 code points, all from `[a-zA-Z0-9_]` |
| `RegisterDto.ShortUsernameRejected` | backend/src/auth/dto/register.dto.ts:14 | a username shorter than 3 code points is rejected |
| `RegisterDto.LongUsernameRejected` | backend/src/auth/dto/register.dto.ts:15 | a username longer than 20 code points is rejected; when it has no variation selector, the rejection carries the maximum-length message |
| `RegisterDto.ForeignCharacterRejected` | backend/src/auth/dto/register.dto.ts:16-18 | a username with a character outside `[a-zA-Z0-9_]` is rejected with the character-set message |
| `RegisterDto.PasswordRule` | backend/src/auth/dto/register.dto.ts:21-22 | an accepted password has at least 6 code points; for a password without variation selectors, it is accepted exactly when it has 6 code points or more |
| `RegisterDto.RegisterRule` | backend/src/auth/dto/register.dto.ts:9-24 | the body passes exactly when the email passes `IsEmail` and the username and password rules pass |
| `Fetch.ErrorText` | frontend/src/lib/stores/conversations.ts:37-38 | the error text is never empty: it is the thrown message when that is non-empty, and the store's fallback text otherwise |
| `ConversationsStore.AddOrUpdated` | frontend/src/lib/stores/conversations.ts:42-53 | after `addOrUpdate(c)`, `c` occurs once and no other item has its id; every other item occurs as often as before; items are ordered by `updatedAt`, newest first |
| `ConversationsStore.AddOrUpdatedHoldsOnlyNewVersion` | frontend/src/lib/stores/conversations.ts:44-47 | `c` is in the list, and every item with `c`'s id is `c` |
| `ConversationsStore.AddOrUpdatedKeepsOthers` | frontend/src/lib/stores/conversations.ts:44-47 | every previous item whose id differs from `c`'s is kept |
| `ConversationsStore.ConversationsStore.AddOrUpdate` | frontend/src/lib/stores/conversations.ts:42-53 | the items become `AddOrUpdated` of the old items; `loading` and `error` do not change |
| `ConversationsStore.ConversationsStore.BeginFetch` | frontend/src/lib/stores/conversations.ts:32 | fetching starts with `loading` true and `error` null, and the items are kept |
| `ConversationsStore.ConversationsStore.FinishFetch` | frontend/src/lib/stores/conversations.ts:33-40 | success sets the items to the data with `loading` false and no error; failure sets no items, `loading` false, and the error text, defaulting to "Failed to load conversations" |
| `ConversationsStore.ConversationsStore.FetchAll` | frontend/src/lib/stores/conversations.ts:31-41 | the state after both steps of `fetchAll` with no update in between |
| `MessagesStore.MessagesStore.AddMessage` | frontend/src/lib/stores/messages.ts:38-43 | the items are the old items followed by the message, one longer, with no de-duplication; `loading` and `error` do not change |
| `MessagesStore.MessagesStore.Clear` | frontend/src/lib/stores/messages.ts:44-46 | whatever the state, it becomes no items, `loading` false and no error |
| `MessagesStore.MessagesStore.BeginFetch` | frontend/src/lib/stores/messages.ts:28 | fetching starts with `loading` true and `error` null, and the items are kept |
| `MessagesStore.MessagesStore.FinishFetch` | frontend/src/lib/stores/messages.ts:29-36 | success sets the items to the data; failure sets no items, `loading` false, and the error text, defaulting to "Failed to load messages" |
| `MessagesStore.MessagesStore.FetchByConversation` | frontend/src/lib/stores/messages.ts:27-37 | the state after both steps of `fetchByConversation` with no update in between |
| `Seqs.Filter` | frontend/src/lib/stores/conversations.ts:44 | the filtered list holds each element that satisfies the predicate as often as the input does, and no other element |
| `Seqs.SortBy` | frontend/src/lib/stores/conversations.ts:47-50 | the sorted list is a permutation of the input, in non-decreasing key order |

## Left out

- Concurrency is left out. Each service call, handler and store update is one atomic step. The check-then-create race in conversation creation is therefore not modelled. Nor is interleaving between the two steps of a frontend fetch, beyond offering the steps as separate methods.
- Id generation and clocks belong to the storage engine. Each new id and each timestamp is a parameter. Lemmas that need fresh ids assume them.
- `Messages.MessagesService.Create` uses a single "now" for the message's `createdAt` and for the conversation's `updatedAt`. The source reads the clock twice.
- ObjectId validity is an opaque predicate, because the mongodb library defines it. `where: { id }` and `where: { _id: ObjectId(id) }` are both a plain lookup by id.
- bcrypt hashing and comparison, JWT signing and verification, and the `IsEmail` validator are uninterpreted functions. Salting, token expiry and signature checking belong to those libraries. A rejected store call or a rejected `bcrypt.hash` propagating as a raw error is not modelled.
- The lazy relation fields (`messages`, `conversation`, `sender`) are never loaded by the services and are not part of the records.
- `Auth.RegisterStep`: the save failure that `register` turns into InternalServerError is a boolean parameter. Its causes, including a unique-index violation, are not modelled.
- `Gateway.MessagesGateway.HandleConnection` requires a socket that has not been seen before. socket.io calls the handler once per new socket.
- What socket.io does on disconnect (leaving all rooms) is library behaviour and is not modelled. The gateway's own `handleDisconnect` does nothing.
- Emissions are recorded in an outbox of (recipients, event) pairs. Transport, acknowledgement and delivery failure are not modelled.
- `MinLength` and `MaxLength` are modelled by the length validator.js `isLength` computes: one per code point, none for U+FE0E or U+FE0F. Strings are sequences of code points, so lone surrogates are not modelled.
- The frontend's ISO date strings and their parsing are modelled as naturals. The socket client, the HTTP service wrappers, the auth store and the users store are I/O plumbing and are not part of this model.
- `Seqs.SortBy` is a stable insertion sort, as `Array.prototype.sort` is. Its stability, and the resulting tie order of `addOrUpdate` (the new item first among equal `updatedAt`), is not stated as a property.
- The database's order among conversations with equal `updatedAt` is unspecified, so only the ordering is stated. The same holds for messages with equal `createdAt`.
