/** Records shared by the views: the social link, the cached user, the cache
    entry that holds it, and the outcome of a request to the remote API. */
module Types {

  datatype Option<T> = None | Some(value: T)

  /** One social-network link `{name, url, enabled, id}`. `id` is the rank
      the link editor assigns; the code writes 0 for "no rank". */
  datatype SocialLink = SocialLink(name: string, url: string, enabled: bool, id: int)

  /** The fields of the authenticated user's record that the views read or
      write. `links` is kept as the decoded list, not as its JSON text. */
  datatype User = User(
    handle: string,
    description: string,
    image: string,
    views: int,
    links: seq<SocialLink>)

  /** The query-cache entry under the key `['user']`. Every view reads and
      replaces the same entry, so it is one object shared by reference. */
  class UserCache {
    var user: User

    constructor (u: User)
      ensures user == u
    {
      user := u;
    }
  }

  /** What a request to the remote API settles to. `ServerError` is an HTTP
      error with the `error` field of its response body (None when the body
      has none); `OtherError` is a failure that is not an HTTP error. */
  datatype Outcome = Succeeded(data: string) | ServerError(error: Option<string>) | OtherError

  /** JavaScript's `value || ''` on an optional string: missing values and
      the empty string both give the empty string. */
  function OrEmpty(value: Option<string>): (s: string)
    ensures value.Some? ==> s == value.value
    ensures value.None? ==> s == ""
  {
    match value
    case Some(v) => v
    case None => ""
  }

  /** `error.response?.data?.error || fallback`: the server's message when
      it is present and non-empty, the fixed text otherwise. */
  function ErrorText(serverError: Option<string>, fallback: string): (text: string)
    ensures text == fallback <== serverError.None? || serverError == Some("")
    ensures serverError.Some? && serverError.value != "" ==> text == serverError.value
    ensures text != fallback ==> serverError == Some(text) && text != ""
    ensures fallback != "" ==> text != ""
  {
    match serverError
    case Some(e) => if e != "" then e else fallback
    case None => fallback
  }

  /** The message a settled request shows as an error notification: only
      HTTP errors show one (`isAxiosError`), with ErrorText as its text. */
  function FailureMessage(outcome: Outcome, fallback: string): (message: Option<string>)
    ensures message.Some? <==> outcome.ServerError?
    ensures outcome.ServerError? ==> message == Some(ErrorText(outcome.error, fallback))
  {
    match outcome
    case ServerError(e) => Some(ErrorText(e, fallback))
    case _ => None
  }
}
