/** The frontend's store of the open conversation's messages (`messagesStore`). */
module MessagesStore {
  import opened Outcomes
  import opened Fetch

  /** A message as the frontend holds it; the date is a clock value. */
  datatype MessageItem = MessageItem(id: string, conversationId: string, senderId: string, content: string, createdAt: nat)

  const LoadFailed := "Failed to load messages"

  class MessagesStore {
    var items: seq<MessageItem>
    var loading: bool
    var error: Option<string>

    /** The initial state: no items, not loading, no error. */
    constructor ()
      ensures items == [] && !loading && error == None
    {
      items, loading, error := [], false, None;
    }

    /** The first `update` of `fetchByConversation`: loading, error cleared, items kept. */
    method BeginFetch()
      modifies this
      ensures items == old(items) && loading && error == None
    {
      loading, error := true, None;
    }

    /** The `set` of `fetchByConversation` once the request settles. */
    method FinishFetch(response: Response<seq<MessageItem>>)
      modifies this
      ensures !loading
      ensures response.Loaded? ==> items == response.data && error == None
      ensures response.Rejected? ==> items == [] && error == Some(ErrorText(response.error, LoadFailed))
    {
      match response
      case Loaded(data) =>
        items, loading, error := data, false, None;
      case Rejected(e) =>
        items, loading, error := [], false, Some(ErrorText(e, LoadFailed));
    }

    /** `fetchByConversation` with no other update in between its two steps; the id only selects the request. */
    method FetchByConversation(conversationId: string, response: Response<seq<MessageItem>>)
      modifies this
      ensures !loading
      ensures response.Loaded? ==> items == response.data && error == None
      ensures response.Rejected? ==> items == [] && error == Some(ErrorText(response.error, LoadFailed))
    {
      BeginFetch();
      FinishFetch(response);
    }

    /** `addMessage`: the message is appended, with no de-duplication; `loading` and `error` stay. */
    method AddMessage(m: MessageItem)
      modifies this
      ensures items == old(items) + [m]
      ensures |items| == |old(items)| + 1
      ensures loading == old(loading) && error == old(error)
    {
      items := items + [m];
    }

    /** `clear`: back to the initial state, whatever the state was. */
    method Clear()
      modifies this
      ensures items == [] && !loading && error == None
    {
      items, loading, error := [], false, None;
    }
  }
}
