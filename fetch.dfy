/** What a store's fetch receives from `apiRequest`, and how a failure becomes the store's error text. */
module Fetch {
  import opened Outcomes

  /** A rejected request: the thrown value's `message`, when it has one. */
  datatype FetchError = FetchError(message: Option<string>)

  /** The settled request: the decoded data or the thrown error. */
  datatype Response<T> = Loaded(data: T) | Rejected(error: FetchError)

  /** `error.message || fallback`: an absent or empty message gives the store's fallback text. */
  function ErrorText(e: FetchError, fallback: string): (t: string)
    requires fallback != ""
    ensures t != ""
    ensures e.message.Some? && e.message.value != "" ==> t == e.message.value
    ensures e.message.None? || e.message.value == "" ==> t == fallback
  {
    match e.message
    case Some(m) => if m != "" then m else fallback
    case None => fallback
  }
}
