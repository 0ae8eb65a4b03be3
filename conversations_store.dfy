/** The frontend's conversation list store (`conversationsStore`). */
module ConversationsStore {
  import opened Outcomes
  import opened Seqs
  import opened Fetch

  /** The preview of the newest message a conversation item may carry. */
  datatype LastMessage = LastMessage(content: string, senderId: string, createdAt: nat)

  /** A conversation as the frontend holds it; dates are clock values. */
  datatype ConversationItem = ConversationItem(id: string, participants: seq<string>, createdAt: nat, updatedAt: nat,
                                               lastMessage: Option<LastMessage>)

  const LoadFailed := "Failed to load conversations"

  /** The comparator `b.updatedAt - a.updatedAt` of `addOrUpdate`'s sort, as a key. */
  function NewestFirst(c: ConversationItem): int {
    -(c.updatedAt as int)
  }

  /**
   * `addOrUpdate`'s updater: drop every item with `c`'s id, put `c` in front and sort by
   * `updatedAt`, newest first. The result holds `c` once, no other item with its id, every
   * other item as often as before, and is ordered newest first.
   */
  function AddOrUpdated(items: seq<ConversationItem>, c: ConversationItem): (r: seq<ConversationItem>)
    ensures forall x: ConversationItem :: x.id != c.id ==> multiset(r)[x] == multiset(items)[x]
    ensures forall x: ConversationItem :: x.id == c.id ==> multiset(r)[x] == if x == c then 1 else 0
    ensures forall i, j :: 0 <= i < j < |r| ==> r[i].updatedAt >= r[j].updatedAt
  {
    var others := Filter(items, (x: ConversationItem) => x.id != c.id);
    SortBy([c] + others, NewestFirst)
  }

  /** After `addOrUpdate(c)` the item with `c`'s id is `c` itself, and it is there. */
  lemma AddOrUpdatedHoldsOnlyNewVersion(items: seq<ConversationItem>, c: ConversationItem)
    ensures c in AddOrUpdated(items, c)
    ensures forall x :: x in AddOrUpdated(items, c) && x.id == c.id ==> x == c
  {
    var r := AddOrUpdated(items, c);
    assert c in multiset(r);
    forall x | x in r && x.id == c.id ensures x == c {
      assert x in multiset(r);
    }
  }

  /** `addOrUpdate` keeps every item whose id differs from `c`'s. */
  lemma AddOrUpdatedKeepsOthers(items: seq<ConversationItem>, c: ConversationItem, x: ConversationItem)
    requires x in items && x.id != c.id
    ensures x in AddOrUpdated(items, c)
  {
    assert x in multiset(items);
    assert x in multiset(AddOrUpdated(items, c));
  }

  class ConversationsStore {
    var items: seq<ConversationItem>
    var loading: bool
    var error: Option<string>

    /** The initial state: no items, not loading, no error. */
    constructor ()
      ensures items == [] && !loading && error == None
    {
      items, loading, error := [], false, None;
    }

    /** The first `update` of `fetchAll`: loading, error cleared, items kept. */
    method BeginFetch()
      modifies this
      ensures items == old(items) && loading && error == None
    {
      loading, error := true, None;
    }

    /** The `set` of `fetchAll` once the request settles: the data, or no items and the error text. */
    method FinishFetch(response: Response<seq<ConversationItem>>)
      modifies this
      ensures !loading
      ensures response.Loaded? ==> items == response.data && error == None
      ensures response.Rejected? ==> items == [] && error == Some(ErrorText(response.error, LoadFailed))
    {
      match response
      case Loaded(data) =>
        items, loading, error := data, false, None;
      case Rejected(e) =>
        items, loading, error := [], false, Some(ErrorText(e, LoadFailed));
    }

    /** `fetchAll` with no other update in between its two steps. */
    method FetchAll(response: Response<seq<ConversationItem>>)
      modifies this
      ensures !loading
      ensures response.Loaded? ==> items == response.data && error == None
      ensures response.Rejected? ==> items == [] && error == Some(ErrorText(response.error, LoadFailed))
    {
      BeginFetch();
      FinishFetch(response);
    }

    /** `addOrUpdate`: the items become `AddOrUpdated(items, c)`; `loading` and `error` stay. */
    method AddOrUpdate(c: ConversationItem)
      modifies this
      ensures items == AddOrUpdated(old(items), c)
      ensures loading == old(loading) && error == old(error)
    {
      items := AddOrUpdated(items, c);
    }
  }
}
