/**
 * The message store of the backend (`MessagesService`): the conversation access guard, the
 * listing of a conversation's messages, and `create`, which saves a message, marks the
 * conversation as updated and broadcasts the message to the conversation's room.
 */
module Messages {
  import opened Outcomes
  import opened Seqs
  import opened Entities
  import opened Storage
  import opened Conversations
  import opened Gateway

  const ConversationNotFound := "Conversation not found"
  const AccessDenied := "Access denied to this conversation"

  /**
   * `verifyConversationAccess`: NotFound when no conversation has the id, Forbidden when the
   * user is not one of its participants, and otherwise the conversation.
   */
  function VerifyConversationAccess(conversations: seq<Conversation>, conversationId: string,
                                    userId: string): (r: Result<Conversation>)
    ensures r.Failure? ==> r.error == NotFound(ConversationNotFound) || r.error == Forbidden(AccessDenied)
    ensures r == Failure(NotFound(ConversationNotFound)) <==> forall c :: c in conversations ==> c.id != conversationId
    ensures r == Failure(Forbidden(AccessDenied)) ==>
      exists c :: c in conversations && c.id == conversationId && userId !in c.participants
    ensures r.Success? ==> r.value in conversations && r.value.id == conversationId && userId in r.value.participants
  {
    match FindById(conversations, conversationId)
    case None => Failure(NotFound(ConversationNotFound))
    case Some(c) => if userId !in c.participants then Failure(Forbidden(AccessDenied)) else Success(c)
  }

  /** With distinct conversation ids the guard admits exactly the participants of the conversation. */
  lemma AccessByParticipation(conversations: seq<Conversation>, c: Conversation, userId: string)
    requires UniqueIds(conversations)
    requires c in conversations
    ensures VerifyConversationAccess(conversations, c.id, userId) ==
      if userId in c.participants then Success(c) else Failure(Forbidden(AccessDenied))
  {
    var f := FirstIndex(conversations, (x: Conversation) => x.id == c.id);
    var k :| 0 <= k < |conversations| && conversations[k] == c;
    assert f.Some? && conversations[f.value].id == c.id;
    assert conversations[f.value] == c;
  }

  /** The sort key of `order: { createdAt: 'ASC' }`. */
  function OldestFirst(m: Message): int {
    m.createdAt
  }

  /**
   * `findAll`: after the access guard, the messages of the conversation, oldest first, and
   * nothing else.
   */
  function FindAll(messages: seq<Message>, conversations: seq<Conversation>, conversationId: string,
                   userId: string): (r: Result<seq<Message>>)
    ensures r.Failure? <==> VerifyConversationAccess(conversations, conversationId, userId).Failure?
    ensures r.Failure? ==> r.error == VerifyConversationAccess(conversations, conversationId, userId).error
    ensures r.Success? ==>
      (forall m :: multiset(r.value)[m] == if m.conversationId == conversationId then multiset(messages)[m] else 0) &&
      (forall m :: m in r.value <==> m in messages && m.conversationId == conversationId) &&
      (forall i, j :: 0 <= i < j < |r.value| ==> r.value[i].createdAt <= r.value[j].createdAt)
  {
    match VerifyConversationAccess(conversations, conversationId, userId)
    case Failure(e) => Failure(e)
    case Success(_) =>
      var mine := Filter(messages, (m: Message) => m.conversationId == conversationId);
      var r := SortBy(mine, OldestFirst);
      assert forall m :: m in r <==> m in multiset(r);
      assert forall m :: m in mine <==> m in multiset(mine);
      Success(r)
  }

  /** `conversation.updatedAt = now` followed by `save`: the stored conversation with that id gets the new time. */
  function Touch(conversations: seq<Conversation>, conversationId: string, now: nat): seq<Conversation> {
    match FirstIndex(conversations, (c: Conversation) => c.id == conversationId)
    case None => conversations
    case Some(i) => conversations[i := conversations[i].(updatedAt := now)]
  }

  /** Both stores after a `create` call, and what the call returns. */
  datatype SendOutcome = SendOutcome(result: Result<Message>, messages: seq<Message>, conversations: seq<Conversation>)

  /**
   * `create(userId, { conversationId, content })`: when the guard refuses, its exception and no
   * change; otherwise one new message from `userId` is saved and only the conversation's
   * `updatedAt` changes, to `now`.
   */
  function SendStep(messages: seq<Message>, conversations: seq<Conversation>, userId: string,
                    conversationId: string, content: string, newId: string, now: nat): (o: SendOutcome)
    requires conversationId != "" && content != ""
    ensures var access := VerifyConversationAccess(conversations, conversationId, userId);
      access.Failure? ==> o == SendOutcome(Failure(access.error), messages, conversations)
    ensures var access := VerifyConversationAccess(conversations, conversationId, userId);
      access.Success? ==>
        o.result == Success(Message(newId, conversationId, userId, content, now)) &&
        o.messages == messages + [o.result.value] &&
        |o.conversations| == |conversations| &&
        (forall i :: 0 <= i < |conversations| ==>
          o.conversations[i] == conversations[i] || o.conversations[i] == conversations[i].(updatedAt := now)) &&
        (forall i :: 0 <= i < |conversations| && conversations[i].id != conversationId ==>
          o.conversations[i] == conversations[i]) &&
        FindById(o.conversations, conversationId) == Some(access.value.(updatedAt := now))
  {
    match VerifyConversationAccess(conversations, conversationId, userId)
    case Failure(e) => SendOutcome(Failure(e), messages, conversations)
    case Success(c) =>
      var m := Message(newId, conversationId, userId, content, now);
      var touched := Touch(conversations, conversationId, now);
      var p := (x: Conversation) => x.id == conversationId;
      FirstIndexSameAnswers(conversations, touched, p);
      SendOutcome(Success(m), messages + [m], touched)
  }

  /** Every message belongs to a stored conversation its sender takes part in. */
  ghost predicate Consistent(messages: seq<Message>, conversations: seq<Conversation>) {
    forall m :: m in messages ==>
      exists c :: c in conversations && c.id == m.conversationId && m.senderId in c.participants
  }

  /** A successful `create` keeps every message tied to a conversation of its sender. */
  lemma SendKeepsConsistent(messages: seq<Message>, conversations: seq<Conversation>, userId: string,
                            conversationId: string, content: string, newId: string, now: nat)
    requires conversationId != "" && content != ""
    requires Consistent(messages, conversations)
    ensures var o := SendStep(messages, conversations, userId, conversationId, content, newId, now);
      Consistent(o.messages, o.conversations)
  {
    var o := SendStep(messages, conversations, userId, conversationId, content, newId, now);
    var access := VerifyConversationAccess(conversations, conversationId, userId);
    if access.Success? {
      forall m | m in o.messages
        ensures exists c :: c in o.conversations && c.id == m.conversationId && m.senderId in c.participants
      {
        if m == o.result.value {
          assert FindById(o.conversations, conversationId) == Some(access.value.(updatedAt := now));
        } else {
          assert m in messages;
          var c :| c in conversations && c.id == m.conversationId && m.senderId in c.participants;
          var i :| 0 <= i < |conversations| && conversations[i] == c;
          assert o.conversations[i] in o.conversations;
        }
      }
    }
  }

  /** A successful `create` keeps the conversation store well formed: ids and participants do not change. */
  lemma SendKeepsWellformed(messages: seq<Message>, conversations: seq<Conversation>, userId: string,
                            conversationId: string, content: string, newId: string, now: nat)
    requires conversationId != "" && content != ""
    requires Wellformed(conversations)
    ensures Wellformed(SendStep(messages, conversations, userId, conversationId, content, newId, now).conversations)
  {
    var r := SendStep(messages, conversations, userId, conversationId, content, newId, now).conversations;
    assert forall i :: 0 <= i < |r| ==> r[i].id == conversations[i].id && r[i].participants == conversations[i].participants;
    forall c | c in r ensures TwoParty(c) {
      var i :| 0 <= i < |r| && r[i] == c;
      assert conversations[i] in conversations;
    }
    assert forall i, a, b :: 0 <= i < |r| ==> HasPair(r[i], a, b) == HasPair(conversations[i], a, b);
  }

  /**
   * After a successful `create`, every participant's `findAll` of that conversation lists the
   * new message exactly once, provided the new message id is fresh.
   */
  lemma SentMessageListedOnce(messages: seq<Message>, conversations: seq<Conversation>, userId: string,
                              conversationId: string, content: string, newId: string, now: nat, reader: string)
    requires conversationId != "" && content != ""
    requires forall m :: m in messages ==> m.id != newId
    requires VerifyConversationAccess(conversations, conversationId, userId).Success?
    requires reader in VerifyConversationAccess(conversations, conversationId, userId).value.participants
    ensures var o := SendStep(messages, conversations, userId, conversationId, content, newId, now);
      var listed := FindAll(o.messages, o.conversations, conversationId, reader);
      listed.Success? && multiset(listed.value)[o.result.value] == 1
  {
    var o := SendStep(messages, conversations, userId, conversationId, content, newId, now);
    var m := o.result.value;
    assert VerifyConversationAccess(o.conversations, conversationId, reader).Success?;
    assert m !in messages;
    assert multiset(o.messages)[m] == multiset(messages)[m] + 1;
  }

  /**
   * A user who is not a participant is Forbidden both to list and to send, and a refused send
   * saves nothing.
   */
  lemma NonParticipantForbidden(messages: seq<Message>, conversations: seq<Conversation>, c: Conversation,
                                userId: string, content: string, newId: string, now: nat)
    requires UniqueIds(conversations)
    requires c in conversations && c.id != "" && content != ""
    requires userId !in c.participants
    ensures FindAll(messages, conversations, c.id, userId) == Failure(Forbidden(AccessDenied))
    ensures SendStep(messages, conversations, userId, c.id, content, newId, now) ==
      SendOutcome(Failure(Forbidden(AccessDenied)), messages, conversations)
  {
    AccessByParticipation(conversations, c, userId);
  }

  /** The service object, with the two repositories and the gateway it broadcasts through. */
  class MessagesService {
    const messageRepository: Repository<Message>
    const conversationRepository: Repository<Conversation>
    const gateway: MessagesGateway

    constructor (messageRepository: Repository<Message>, conversationRepository: Repository<Conversation>,
                 gateway: MessagesGateway)
      ensures this.messageRepository == messageRepository
      ensures this.conversationRepository == conversationRepository
      ensures this.gateway == gateway
    {
      this.messageRepository := messageRepository;
      this.conversationRepository := conversationRepository;
      this.gateway := gateway;
    }

    /**
     * `create`: guard, save the message, save the conversation with the new `updatedAt`, then
     * broadcast the returned record once to the conversation's room. A refused call changes
     * nothing and broadcasts nothing.
     */
    method Create(userId: string, conversationId: string, content: string, newId: string, now: nat)
      returns (r: Result<Message>)
      requires conversationId != "" && content != ""
      modifies messageRepository, conversationRepository, gateway
      ensures var o := SendStep(old(messageRepository.rows), old(conversationRepository.rows),
                                userId, conversationId, content, newId, now);
        r == o.result && messageRepository.rows == o.messages && conversationRepository.rows == o.conversations
      ensures r.Failure? ==> gateway.outbox == old(gateway.outbox)
      ensures r.Success? ==>
        gateway.outbox == old(gateway.outbox) +
          [Emission(Members(old(gateway.rooms), ConversationRoom(conversationId)), MessageNew(r.value))]
      ensures forall s :: (Inbox(gateway.outbox, s) == Inbox(old(gateway.outbox), s) +
        if r.Success? && s in Members(old(gateway.rooms), ConversationRoom(conversationId)) then [MessageNew(r.value)] else [])
      ensures gateway.sessions == old(gateway.sessions) && gateway.rooms == old(gateway.rooms)
      ensures gateway.disconnected == old(gateway.disconnected)
      ensures old(gateway.Valid()) ==> gateway.Valid()
      ensures old(gateway.Valid()) && r.Success? ==>
        gateway.outbox[|gateway.outbox| - 1].recipients <= gateway.sessions.Keys
    {
      var access := VerifyConversationAccess(conversationRepository.rows, conversationId, userId);
      if access.Failure? {
        return Failure(access.error);
      }
      var conversation := access.value;
      var saved := Message(newId, conversationId, userId, content, now);
      messageRepository.Insert(saved);
      var i := FirstIndex(conversationRepository.rows, (c: Conversation) => c.id == conversationId);
      conversationRepository.Update(i.value, conversation.(updatedAt := now));
      gateway.BroadcastMessage(conversationId, saved);
      return Success(saved);
    }
  }
}
