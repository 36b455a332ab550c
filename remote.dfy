/**
 * The backend as the client sees it: the requests it issues, the outcome of each
 * call (a response body or an error body), and the notifications shown to the user.
 */
module Remote {
  import opened Wrappers
  import opened Entities

  /**
   * What `err.response?.data` holds after a failed call: an optional `error` string and
   * the `errors[].msg` list of validation messages. A network failure has neither.
   */
  datatype ErrorBody = ErrorBody(error: Option<string>, issues: seq<Option<string>>)

  /** The settled outcome of one asynchronous call. */
  datatype Reply<+T> = Ok(data: T) | Err(failure: ErrorBody)

  /** A toast notification. */
  datatype Notice = Success(text: string) | Failure(text: string) | Info(text: string)

  /** The calls the client makes to the backend. */
  datatype Request =
    | PostLogin(email: string, password: string)
    | PostRegister(userData: RegisterData)
    | GetBooks(page: int, limit: int)
    | GetBook(id: string)
    | GetMyBooks
    | GetMyRequests
    | GetIncomingRequests
    | PostBook(title: string, author: string, condition: string, image: ImageFile)
    | DeleteBook(id: string)
    | PostSwapRequest(bookId: string)
    | PutRequestStatus(id: string, status: string)

  /** JavaScript truthiness of an optional string: present and not empty. */
  predicate Truthy(o: Option<string>)
  {
    o.Some? && o.value != ""
  }

  /** JavaScript's `o || fallback` on an optional string. */
  function OrElse(o: Option<string>, fallback: string): (r: string)
    ensures Truthy(o) ==> r == o.value
    ensures !Truthy(o) ==> r == fallback
    ensures fallback != "" ==> r != ""
  {
    if Truthy(o) then o.value else fallback
  }

  /** `err.response?.data?.errors?.[0]?.msg`: the first validation message, if any. */
  function FirstIssue(e: ErrorBody): (r: Option<string>)
    ensures |e.issues| == 0 ==> r == None
    ensures |e.issues| > 0 ==> r == e.issues[0]
  {
    if |e.issues| > 0 then e.issues[0] else None
  }

  /** `err.response?.data?.error || fallback`: the server's error, else the fallback. */
  function ServerError(e: ErrorBody, fallback: string): (r: string)
    ensures Truthy(e.error) ==> r == e.error.value
    ensures !Truthy(e.error) ==> r == fallback
    ensures fallback != "" ==> r != ""
  {
    OrElse(e.error, fallback)
  }
}
