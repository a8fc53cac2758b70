/** How the client's HTTP calls are described and how they settle. */
module Remote {
  import opened Wrappers
  import Text

  /**
   * The `error` field of a reply body as the client receives it: a string,
   * or the list of messages a failed password validation produced. The
   * client's type annotations say string, but nothing converts a list.
   */
  datatype ErrorField = Message(text: string) | MessageList(items: seq<string>)

  /** JavaScript truthiness of the field: "" is falsy, every array (even an empty one) is truthy. */
  predicate Truthy(e: ErrorField) {
    e.MessageList? || e.text != ""
  }

  /** `String(e)`, the message `new Error(e)` carries: a string as it is, an array joined with ",". */
  function ErrorString(e: ErrorField): (s: string)
    ensures e.Message? ==> s == e.text
    ensures e.MessageList? ==> s == Text.Join(e.items, ",")
  {
    match e
    case Message(text) => text
    case MessageList(items) => Text.Join(items, ",")
  }

  /**
   * The outcome of one awaited axios call: a 2xx reply, an error reply with
   * its status and the `error` field of its body (absent, a string or a
   * list), or a failure with no reply at all.
   */
  datatype CallOutcome = Ok | Err(status: int, serverError: Option<ErrorField>) | NetworkError

  /** A value caught by a `catch` clause of the to-do store: an `Error` object (with its message) or anything else. */
  datatype Thrown = ErrorObject(message: string) | NonError

  /** An awaited call that either produced a value or threw. */
  datatype Call<T> = Done(value: T) | Threw(thrown: Thrown)

  /** How a client function's promise settles. */
  datatype Settled = Fulfilled | Rejected(message: string)

  datatype Method = Get | Post | Patch | Delete

  /** JSON bodies the client sends. */
  datatype Body =
    | NoBody
    | EmptyObject
    | Credentials(email: string, password: string)
    | Registration(username: string, email: string, password: string)
    | TodoText(text: string)

  /** One outbound request: verb, path, body and the `X-CSRFToken` header if one is sent. */
  datatype ApiRequest = ApiRequest(verb: Method, path: string, body: Body, csrfHeader: Option<string>, withCredentials: bool)
}
