/**
 * The profile view: the signed-in user's books, the requests they made and the requests
 * made for their books, loaded together; deleting a book; and accepting or declining a
 * pending incoming request.
 */
module ProfilePage {
  import opened Wrappers
  import opened Entities
  import opened Remote
  import AuthContext

  const SignInText := "Please log in to view your profile"
  const LoadFallback := "Failed to load profile data"
  const DeletedText := "Book deleted successfully"
  const DeleteFallback := "Failed to delete book"
  const UpdateFallback := "Failed to update request"
  const Pending := "pending"
  const Accepted := "accepted"
  const Declined := "declined"

  /**
   * The header the load attaches itself: `Bearer ${localStorage.getItem('token')}`, in
   * which a missing token is written out as "null".
   */
  function ProfileHeader(storage: map<string, string>): (h: string)
    ensures AuthContext.TokenKey in storage ==> h == AuthContext.Bearer(storage[AuthContext.TokenKey])
    ensures AuthContext.TokenKey !in storage ==> h == "Bearer null"
  {
    AuthContext.Bearer(if AuthContext.TokenKey in storage then storage[AuthContext.TokenKey] else "null")
  }

  /**
   * In a consistent session with a user, the load's own header is the stored token's, and
   * it agrees with the header the session attaches to every call.
   */
  lemma ProfileHeaderIsSessionHeader(s: AuthContext.SessionState)
    requires AuthContext.Consistent(s) && s.user.Some?
    ensures ProfileHeader(s.storage) == AuthContext.Bearer(s.storage[AuthContext.TokenKey])
    ensures s.authHeader.Some? ==> ProfileHeader(s.storage) == s.authHeader.value
  {
  }

  /** `books.filter(book => book._id !== id)`. */
  function WithoutBook(books: seq<Book>, id: string): (r: seq<Book>)
    ensures |r| <= |books|
    ensures forall b :: b in r <==> b in books && b.id != id
    decreases |books|
  {
    if books == [] then []
    else if books[0].id != id then [books[0]] + WithoutBook(books[1..], id)
    else WithoutBook(books[1..], id)
  }

  /** The filter works piece by piece, so the books that stay keep their order. */
  lemma {:induction false} WithoutBookAppend(a: seq<Book>, b: seq<Book>, id: string)
    ensures WithoutBook(a + b, id) == WithoutBook(a, id) + WithoutBook(b, id)
    decreases |a|
  {
    if a == [] {
      assert a + b == b;
    } else {
      assert (a + b)[0] == a[0] && (a + b)[1..] == a[1..] + b;
      WithoutBookAppend(a[1..], b, id);
    }
  }

  /** Deleting a book that is not listed changes nothing. */
  lemma {:induction false} WithoutAbsentBook(books: seq<Book>, id: string)
    requires forall k | 0 <= k < |books| :: books[k].id != id
    ensures WithoutBook(books, id) == books
    decreases |books|
  {
    if books != [] {
      WithoutAbsentBook(books[1..], id);
      assert [books[0]] + books[1..] == books;
    }
  }

  /** Deleting the same book twice is deleting it once. */
  lemma WithoutBookIdempotent(books: seq<Book>, id: string)
    ensures WithoutBook(WithoutBook(books, id), id) == WithoutBook(books, id)
  {
    var r := WithoutBook(books, id);
    forall k | 0 <= k < |r| ensures r[k].id != id {
      assert r[k] in r;
    }
    WithoutAbsentBook(r, id);
  }

  /** Every other book keeps its number of copies; the deleted one has none left. */
  lemma {:induction false} WithoutBookCounts(books: seq<Book>, id: string, b: Book)
    ensures multiset(WithoutBook(books, id))[b] == if b.id == id then 0 else multiset(books)[b]
    decreases |books|
  {
    if books != [] {
      WithoutBookCounts(books[1..], id, b);
      assert books == [books[0]] + books[1..];
    }
  }

  /** The decisions the incoming list offers: accept and decline, on pending requests only. */
  function Offered(requests: seq<SwapRequest>): (actions: seq<Request>)
    ensures forall a | a in actions ::
              && a.PutRequestStatus?
              && (a.status == Accepted || a.status == Declined)
              && exists r | r in requests :: r.id == a.id && r.status == Pending
    ensures forall r | r in requests && r.status == Pending ::
              PutRequestStatus(r.id, Accepted) in actions && PutRequestStatus(r.id, Declined) in actions
    decreases |requests|
  {
    if requests == [] then []
    else
      var rest := Offered(requests[1..]);
      assert forall r | r in requests[1..] :: r in requests;
      var r := requests[0];
      if r.status == Pending then [PutRequestStatus(r.id, Accepted), PutRequestStatus(r.id, Declined)] + rest
      else rest
  }

  /** A request that has been accepted or declined offers no decision at all. */
  lemma {:induction false} SettledRequestsOfferNothing(requests: seq<SwapRequest>)
    requires forall k | 0 <= k < |requests| :: requests[k].status != Pending
    ensures Offered(requests) == []
    decreases |requests|
  {
    if requests != [] {
      SettledRequestsOfferNothing(requests[1..]);
    }
  }

  class Profile {
    var myBooks: seq<Book>
    var myRequests: seq<SwapRequest>
    var incomingRequests: seq<SwapRequest>
    var loading: bool

    /** The mounted view: three empty lists, loading. */
    constructor ()
      ensures myBooks == [] && myRequests == [] && incomingRequests == [] && loading
    {
      myBooks, myRequests, incomingRequests, loading := [], [], [], true;
    }

    /**
     * One run of the effect, which runs on mount and again whenever the session's user
     * changes; `user` is that user at the time of the run. Given storage and the joint
     * reply of the three calls: nothing is fetched without a user; the three lists are
     * replaced together, or not at all; loading ends on every path.
     */
    method Load(user: Option<User>, storage: map<string, string>, reply: Reply<(seq<Book>, seq<SwapRequest>, seq<SwapRequest>)>)
      returns (requests: seq<Request>, authorization: Option<string>, notice: Option<Notice>)
      modifies this
      ensures user.None? ==> requests == [] && authorization == None && notice == Some(Failure(SignInText))
      ensures user.Some? ==> requests == [GetMyBooks, GetMyRequests, GetIncomingRequests]
      ensures user.Some? ==> authorization == Some(ProfileHeader(storage))
      ensures user.Some? && reply.Ok? ==>
                myBooks == reply.data.0 && myRequests == reply.data.1 && incomingRequests == reply.data.2
      ensures user.Some? && reply.Ok? ==> notice == None
      ensures user.Some? && reply.Err? ==> notice == Some(Failure(ServerError(reply.failure, LoadFallback)))
      ensures user.None? || reply.Err? ==>
                myBooks == old(myBooks) && myRequests == old(myRequests) && incomingRequests == old(incomingRequests)
      ensures !loading
    {
      if user.None? {
        requests, authorization, notice := [], None, Some(Failure(SignInText));
        loading := false;
        return;
      }
      authorization := Some(ProfileHeader(storage));
      requests := [GetMyBooks, GetMyRequests, GetIncomingRequests];
      notice := None;
      match reply {
        case Ok((books, mine, incoming)) =>
          myBooks := books;
          myRequests := mine;
          incomingRequests := incoming;
        case Err(e) =>
          notice := Some(Failure(ServerError(e, LoadFallback)));
      }
      loading := false;
    }

    /**
     * `handleDelete(id)` given the reply to the deletion: on success every listed book with
     * that id goes and the rest keep their order; on failure the list stays.
     */
    method HandleDelete(id: string, reply: Reply<()>) returns (request: Request, notice: Notice)
      modifies this`myBooks
      ensures request == DeleteBook(id)
      ensures reply.Ok? ==> myBooks == WithoutBook(old(myBooks), id) && notice == Success(DeletedText)
      ensures reply.Err? ==>
                myBooks == old(myBooks) && notice == Failure(ServerError(reply.failure, DeleteFallback))
    {
      request := DeleteBook(id);
      match reply {
        case Ok(_) =>
          myBooks := WithoutBook(myBooks, id);
          notice := Success(DeletedText);
        case Err(e) =>
          notice := Failure(ServerError(e, DeleteFallback));
      }
    }

    /**
     * `handleUpdateRequest(id, status)` given the replies to the update and to the re-fetch
     * that follows it: the incoming list becomes the re-fetched one only when both succeed,
     * and the re-fetch is issued only after the update succeeded.
     */
    method HandleUpdateRequest(id: string, status: string, put: Reply<()>, refetch: Reply<seq<SwapRequest>>)
      returns (requests: seq<Request>, notice: Notice)
      modifies this`incomingRequests
      ensures put.Err? ==> requests == [PutRequestStatus(id, status)]
      ensures put.Ok? ==> requests == [PutRequestStatus(id, status), GetIncomingRequests]
      ensures put.Ok? && refetch.Ok? ==>
                incomingRequests == refetch.data && notice == Success("Request " + status)
      ensures put.Err? ==>
                incomingRequests == old(incomingRequests) && notice == Failure(ServerError(put.failure, UpdateFallback))
      ensures put.Ok? && refetch.Err? ==>
                incomingRequests == old(incomingRequests) && notice == Failure(ServerError(refetch.failure, UpdateFallback))
    {
      requests := [PutRequestStatus(id, status)];
      match put {
        case Err(e) =>
          notice := Failure(ServerError(e, UpdateFallback));
        case Ok(_) =>
          requests := requests + [GetIncomingRequests];
          match refetch {
            case Err(e) =>
              notice := Failure(ServerError(e, UpdateFallback));
            case Ok(incoming) =>
              incomingRequests := incoming;
              notice := Success("Request " + status);
          }
      }
    }
  }
}
