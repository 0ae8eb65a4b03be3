/**
 * The persisted documents. Dates are whole numbers of a clock the caller supplies; the lazy
 * relation fields (`Conversation.messages`, `Message.conversation`, `Message.sender`,
 * `User.messages`) are never loaded by the services and are not part of the records.
 */
module Entities {

  datatype User = User(id: string, email: string, username: string, password: string, createdAt: nat)

  /** `participants` holds the two user ids, in the order `create` stored them. */
  datatype Conversation = Conversation(id: string, participants: seq<string>, createdAt: nat, updatedAt: nat)

  datatype Message = Message(id: string, conversationId: string, senderId: string, content: string, createdAt: nat)

  /** The user fields `register`, `login` and the JWT strategy hand out: no password. */
  datatype PublicUser = PublicUser(id: string, email: string, username: string)

  /** The user fields the users service selects: no password. */
  datatype UserSummary = UserSummary(id: string, email: string, username: string, createdAt: nat)

  /** The claims of an access token: `sub` is the user id. */
  datatype TokenPayload = TokenPayload(sub: string, email: string, username: string)

  function Public(u: User): PublicUser {
    PublicUser(u.id, u.email, u.username)
  }
}
