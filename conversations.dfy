/**
 * The conversation store of the backend (`ConversationsService`): listing a user's
 * conversations, the participant-filtered `findOne`, and the find-or-create of the one
 * conversation between two users.
 */
module Conversations {
  import opened Outcomes
  import opened Seqs
  import opened Entities
  import opened Storage

  const SelfConversation := "Cannot create conversation with yourself"
  const InvalidConversationId := "Invalid conversation id"

  /** `userId` is one of the conversation's participants (`participants.includes`, `$in`). */
  predicate Involves(c: Conversation, userId: string) {
    userId in c.participants
  }

  /** The `$all: [a, b]` query: both users are among the participants, in either order. */
  predicate HasPair(c: Conversation, a: string, b: string) {
    a in c.participants && b in c.participants
  }

  /** The sort key of `order: { updatedAt: 'DESC' }`. */
  function NewestFirst(c: Conversation): int {
    -(c.updatedAt as int)
  }

  /** `findAll`: the conversations `userId` takes part in, most recently updated first. */
  function FindAll(rows: seq<Conversation>, userId: string): (r: seq<Conversation>)
    ensures forall c :: multiset(r)[c] == if userId in c.participants then multiset(rows)[c] else 0
    ensures forall c :: c in r <==> c in rows && userId in c.participants
    ensures forall i, j :: 0 <= i < j < |r| ==> r[i].updatedAt >= r[j].updatedAt
  {
    var mine := Filter(rows, c => Involves(c, userId));
    var r := SortBy(mine, NewestFirst);
    assert forall c :: c in r <==> c in multiset(r);
    assert forall c :: c in mine <==> c in multiset(mine);
    r
  }

  /** The stored conversation `create` finds for the pair: the first one holding both users. */
  function FindPair(rows: seq<Conversation>, a: string, b: string): Option<Conversation> {
    Find(rows, c => HasPair(c, a, b))
  }

  /** The pair lookup does not depend on the order of the two users. */
  lemma FindPairSymmetric(rows: seq<Conversation>, a: string, b: string)
    ensures FindPair(rows, a, b) == FindPair(rows, b, a)
  {
    FindCongruent(rows, c => HasPair(c, a, b), c => HasPair(c, b, a));
  }

  /** A lookup by id: the first stored conversation with that id. */
  function FindById(rows: seq<Conversation>, id: string): Option<Conversation> {
    Find(rows, (c: Conversation) => c.id == id)
  }

  /**
   * `findOne`: a malformed id is a BadRequest before any lookup; an unknown id and a
   * conversation the user is not in both give null; otherwise the conversation.
   * `isObjectId` stands for the `ObjectId` constructor accepting the string.
   */
  function FindOne(rows: seq<Conversation>, conversationId: string, userId: string,
                   isObjectId: string -> bool): (r: Result<Option<Conversation>>)
    ensures r.Failure? <==> !isObjectId(conversationId)
    ensures r.Failure? ==> r.error == BadRequest(InvalidConversationId)
    ensures r == Success(None) <==>
      isObjectId(conversationId) &&
      (FindById(rows, conversationId).None? || userId !in FindById(rows, conversationId).value.participants)
    ensures r.Success? && r.value.Some? ==>
      r.value.value in rows && r.value.value.id == conversationId && userId in r.value.value.participants
  {
    if !isObjectId(conversationId) then Failure(BadRequest(InvalidConversationId))
    else match FindById(rows, conversationId)
      case None => Success(None)
      case Some(c) => if userId in c.participants then Success(Some(c)) else Success(None)
  }

  /** With distinct ids, `findOne` returns a conversation exactly when it is stored and the user takes part in it. */
  lemma FindOneUniqueIds(rows: seq<Conversation>, c: Conversation, userId: string, isObjectId: string -> bool)
    requires UniqueIds(rows)
    requires isObjectId(c.id)
    ensures FindOne(rows, c.id, userId, isObjectId) == Success(Some(c)) <==> c in rows && userId in c.participants
  {
    if c in rows {
      var k :| 0 <= k < |rows| && rows[k] == c;
      var f := FirstIndex(rows, (x: Conversation) => x.id == c.id);
      assert f.Some? && rows[f.value].id == c.id;
      assert rows[f.value] == c;
    }
  }

  /** No two stored conversations share an id (the store generates them). */
  predicate UniqueIds(rows: seq<Conversation>) {
    forall i, j :: 0 <= i < j < |rows| ==> rows[i].id != rows[j].id
  }

  /** Each conversation is between two different users. */
  predicate TwoParty(c: Conversation) {
    |c.participants| == 2 && c.participants[0] != c.participants[1]
  }

  /** At most one stored conversation holds any given pair of different users. */
  ghost predicate OnePerPair(rows: seq<Conversation>) {
    forall i, j, a, b ::
      0 <= i < |rows| && 0 <= j < |rows| && a != b && HasPair(rows[i], a, b) && HasPair(rows[j], a, b) ==> i == j
  }

  /** The invariant the conversation store keeps. */
  ghost predicate Wellformed(rows: seq<Conversation>) {
    UniqueIds(rows) && OnePerPair(rows) && forall c :: c in rows ==> TwoParty(c)
  }

  /** The store after a `create` call, and what the call returns. */
  datatype CreateOutcome = CreateOutcome(result: Result<Conversation>, rows: seq<Conversation>)

  /**
   * `create(userId, { participantId })`: a conversation with oneself is a Conflict; an existing
   * conversation holding both users is returned as it is; otherwise one new conversation with
   * participants `[userId, participantId]` is saved and returned.
   */
  function CreateStep(rows: seq<Conversation>, userId: string, participantId: string,
                      newId: string, now: nat): (o: CreateOutcome)
    requires participantId != ""
    ensures userId == participantId ==> o == CreateOutcome(Failure(Conflict(SelfConversation)), rows)
    ensures userId != participantId ==> o.result.Success?
    ensures userId != participantId && FindPair(rows, userId, participantId).Some? ==>
      o.rows == rows && o.result.value == FindPair(rows, userId, participantId).value
    ensures userId != participantId && (forall c :: c in rows ==> !HasPair(c, userId, participantId)) ==>
      o.rows == rows + [o.result.value] &&
      o.result.value == Conversation(newId, [userId, participantId], now, now)
  {
    if userId == participantId then
      CreateOutcome(Failure(Conflict(SelfConversation)), rows)
    else match FindPair(rows, userId, participantId)
      case Some(existing) => CreateOutcome(Success(existing), rows)
      case None =>
        var c := Conversation(newId, [userId, participantId], now, now);
        CreateOutcome(Success(c), rows + [c])
  }

  /**
   * Once `create(a, b)` succeeded, calling it again, with the users in either order, returns
   * the same conversation and saves nothing.
   */
  lemma CreateIdempotent(rows: seq<Conversation>, a: string, b: string,
                         newId: string, now: nat, laterId: string, later: nat)
    requires a != "" && b != ""
    requires CreateStep(rows, a, b, newId, now).result.Success?
    ensures var first := CreateStep(rows, a, b, newId, now);
      CreateStep(first.rows, a, b, laterId, later) == first &&
      CreateStep(first.rows, b, a, laterId, later) == first
  {
    var first := CreateStep(rows, a, b, newId, now);
    var p := (c: Conversation) => HasPair(c, a, b);
    if FindPair(rows, a, b).None? {
      var c := first.result.value;
      FirstIndexAppend(rows, [c], p);
      assert FirstIndex([c], p) == Some(0);
      assert FindPair(first.rows, a, b) == Some(c);
    }
    FindPairSymmetric(first.rows, a, b);
  }

  /** `create` keeps the store well formed when the id it assigns is new. */
  lemma CreateKeepsWellformed(rows: seq<Conversation>, userId: string, participantId: string,
                              newId: string, now: nat)
    requires participantId != ""
    requires Wellformed(rows)
    requires forall c :: c in rows ==> c.id != newId
    ensures Wellformed(CreateStep(rows, userId, participantId, newId, now).rows)
  {
    var o := CreateStep(rows, userId, participantId, newId, now);
    if userId != participantId && FindPair(rows, userId, participantId).None? {
      var c := o.result.value;
      var r := o.rows;
      assert r == rows + [c];
      forall i, j | 0 <= i < j < |r| ensures r[i].id != r[j].id {
        if j == |rows| { assert r[i] in rows; }
      }
      forall i, j, x, y | 0 <= i < |r| && 0 <= j < |r| && x != y && HasPair(r[i], x, y) && HasPair(r[j], x, y)
        ensures i == j
      {
        if i < |rows| && j == |rows| {
          assert false;
        } else if j < |rows| && i == |rows| {
          assert false;
        }
      }
    }
  }

  /** The service object: `create` saves into the conversation repository. */
  class ConversationsService {
    const repository: Repository<Conversation>

    constructor (repository: Repository<Conversation>)
      ensures this.repository == repository
    {
      this.repository := repository;
    }

    /** `create`: refuse oneself, return an existing conversation for the pair, or save a new one. */
    method Create(userId: string, participantId: string, newId: string, now: nat)
      returns (r: Result<Conversation>)
      requires participantId != ""
      modifies repository
      ensures var o := CreateStep(old(repository.rows), userId, participantId, newId, now);
        r == o.result && repository.rows == o.rows
    {
      if userId == participantId {
        return Failure(Conflict(SelfConversation));
      }
      var existing := FindPair(repository.rows, userId, participantId);
      if existing.Some? {
        return Success(existing.value);
      }
      var conversation := Conversation(newId, [userId, participantId], now, now);
      repository.Insert(conversation);
      return Success(conversation);
    }
  }
}
