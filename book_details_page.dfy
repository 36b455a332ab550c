/**
 * The detail view of one book: the fetch by id, the not-found state, the rule that
 * offers a swap request only to a signed-in user who does not own the book, and the
 * request itself.
 */
module BookDetailsPage {
  import opened Wrappers
  import opened Entities
  import opened Remote

  const LoadFailedText := "Failed to load book details"
  const SentText := "Request sent successfully"
  const SendFallback := "Failed to send request"

  /** `user && book.owner._id !== user.id`: someone is signed in and it is not the owner. */
  predicate MayRequest(user: Option<User>, book: Book)
    ensures MayRequest(user, book) ==> user.Some? && user.value != book.owner
  {
    user.Some? && book.owner.id != user.value.id
  }

  /** The owner of a book is never offered a request for it, whoever else is. */
  lemma OwnerNeverRequests(owner: User, other: User, book: Book)
    requires book.owner == owner && other.id != owner.id
    ensures !MayRequest(Some(owner), book)
    ensures MayRequest(Some(other), book)
    ensures !MayRequest(None, book)
  {
  }

  class BookDetails {
    /** The `:id` route parameter. */
    const id: string
    var book: Option<Book>
    var loading: bool

    /** The mounted view: no book yet, loading. */
    constructor (id: string)
      ensures this.id == id
      ensures book == None && loading
    {
      this.id := id;
      book, loading := None, true;
    }

    /** "Book not found" is shown: loading has ended without a book. */
    predicate NotFound()
      reads this
    {
      !loading && book.None?
    }

    /**
     * The request button is shown to `user`, the session's user at the time of the render:
     * a book is on screen and that user may request it.
     */
    predicate RequestOffered(user: Option<User>)
      reads this
    {
      !loading && book.Some? && MayRequest(user, book.value)
    }

    /** The not-found message and the request button never appear together. */
    lemma NotFoundHidesRequest(user: Option<User>)
      ensures NotFound() ==> !RequestOffered(user)
      ensures RequestOffered(user) ==> book.Some? && book.value.owner.id != user.value.id
    {
    }

    /**
     * The button follows the session's current user on the same view state: it is hidden
     * while no one is signed in (before start-up has restored a session, say) and shown
     * once a user other than the owner is.
     */
    lemma RequestFollowsSessionUser(user: User)
      requires !loading && book.Some? && user.id != book.value.owner.id
      ensures !RequestOffered(None) && RequestOffered(Some(user))
    {
    }

    /**
     * The effect run for the route's id, given the reply (an empty body is no book): the
     * view shows the book it got, or not-found after a failure or an empty reply.
     */
    method FetchBook(reply: Reply<Option<Book>>) returns (request: Request, notice: Option<Notice>)
      modifies this`book, this`loading
      ensures request == GetBook(id)
      ensures reply.Ok? ==> book == reply.data && notice == None
      ensures reply.Err? ==> book == old(book) && notice == Some(Failure(LoadFailedText))
      ensures !loading
      ensures old(book) == None ==> (NotFound() <==> reply.Err? || reply.data.None?)
    {
      request := GetBook(id);
      notice := None;
      match reply {
        case Ok(data) =>
          book := data;
        case Err(_) =>
          notice := Some(Failure(LoadFailedText));
      }
      loading := false;
    }

    /**
     * `handleRequest` given the reply to the swap request: it posts the route's id and
     * leaves the view as it is on both outcomes.
     */
    method HandleRequest(reply: Reply<()>) returns (request: Request, notice: Notice)
      ensures request == PostSwapRequest(id)
      ensures reply.Ok? ==> notice == Success(SentText)
      ensures reply.Err? ==> notice == Failure(ServerError(reply.failure, SendFallback))
      ensures notice.text != ""
    {
      request := PostSwapRequest(id);
      notice := match reply
        case Ok(_) => Success(SentText)
        case Err(e) => Failure(ServerError(e, SendFallback));
    }
  }
}
