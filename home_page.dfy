/**
 * The catalogue view: a page counter with Previous and Next buttons, and the fetch of
 * one page of books that falls back to the bundled sample list when the call fails.
 */
module HomePage {
  import opened Wrappers
  import opened Entities
  import opened Remote

  /** The `limit` of every catalogue request. */
  const PageSize := 8

  const SampleText := "Failed to load books, showing sample data"

  datatype Button = Previous | Next

  /** Previous is disabled on the first page. */
  predicate PreviousDisabled(page: int)
  {
    page == 1
  }

  /** Next is disabled only when the page equals the page count, not when it exceeds it. */
  predicate NextDisabled(page: int, totalPages: int)
  {
    page == totalPages
  }

  /**
   * The page after a click: a disabled button does nothing, Previous steps back but
   * never below 1, Next steps forward.
   */
  function AfterPress(page: int, totalPages: int, button: Button): (next: int)
    ensures page >= 1 ==> next >= 1
    ensures page >= 1 && button == Previous ==> next == page - 1 || next == page
    ensures button == Next ==> next == page + 1 || next == page
    ensures page >= 1 ==>
              (next == page <==> if button == Previous then PreviousDisabled(page) else NextDisabled(page, totalPages))
  {
    match button
    case Previous => if PreviousDisabled(page) then page else if page - 1 > 1 then page - 1 else 1
    case Next => if NextDisabled(page, totalPages) then page else page + 1
  }

  /** The page after a series of clicks while the page count stays as it is. */
  function AfterPresses(page: int, totalPages: int, buttons: seq<Button>): int
    decreases |buttons|
  {
    if buttons == [] then page else AfterPresses(AfterPress(page, totalPages, buttons[0]), totalPages, buttons[1..])
  }

  /** `n` clicks on Next. */
  function Nexts(n: nat): (buttons: seq<Button>)
    ensures |buttons| == n && forall k | 0 <= k < n :: buttons[k] == Next
  {
    if n == 0 then [] else [Next] + Nexts(n - 1)
  }

  /** Whatever the page count, no series of clicks takes the page below 1. */
  lemma {:induction false} PageNeverBelowOne(page: int, totalPages: int, buttons: seq<Button>)
    requires page >= 1
    ensures AfterPresses(page, totalPages, buttons) >= 1
    decreases |buttons|
  {
    if buttons != [] {
      PageNeverBelowOne(AfterPress(page, totalPages, buttons[0]), totalPages, buttons[1..]);
    }
  }

  /** While the page is within the page count, clicks keep it there. */
  lemma {:induction false} PressesStayInRange(page: int, totalPages: int, buttons: seq<Button>)
    requires 1 <= page <= totalPages
    ensures 1 <= AfterPresses(page, totalPages, buttons) <= totalPages
    decreases |buttons|
  {
    if buttons != [] {
      PressesStayInRange(AfterPress(page, totalPages, buttons[0]), totalPages, buttons[1..]);
    }
  }

  /**
   * Once the page is past the page count (the server reported fewer pages than the page
   * shown, or none at all), Next is never disabled again: every click adds a page.
   */
  lemma {:induction false} NextRunsPastLastPage(page: int, totalPages: int, n: nat)
    requires totalPages < page
    ensures AfterPresses(page, totalPages, Nexts(n)) == page + n
    decreases n
  {
    if n > 0 {
      assert Nexts(n)[1..] == Nexts(n - 1);
      NextRunsPastLastPage(page + 1, totalPages, n - 1);
    }
  }

  class Home {
    /** The bundled sample list shown when the catalogue cannot be fetched. */
    const sample: seq<Book>
    var books: seq<Book>
    var loading: bool
    var page: int
    var totalPages: int

    predicate Valid()
      reads this
    {
      page >= 1
    }

    /** The mounted view: no books, loading, page 1 of 1. */
    constructor (sample: seq<Book>)
      ensures Valid()
      ensures this.sample == sample
      ensures books == [] && loading && page == 1 && totalPages == 1
    {
      this.sample := sample;
      books, loading, page, totalPages := [], true, 1, 1;
    }

    /**
     * A click on one of the two buttons, which are rendered only once loading has ended;
     * it changes the page and nothing else.
     */
    method Press(button: Button)
      requires Valid() && !loading
      modifies this`page
      ensures Valid()
      ensures page == AfterPress(old(page), totalPages, button)
    {
      match button {
        case Previous =>
          if !PreviousDisabled(page) {
            page := if page - 1 > 1 then page - 1 else 1;
          }
        case Next =>
          if !NextDisabled(page, totalPages) {
            page := page + 1;
          }
      }
    }

    /**
     * The effect run on mount and on every page change, given the reply to the request
     * for the current page: the server's page and page count, or the sample list with the
     * page count kept. Either way loading ends and the page stays.
     */
    method FetchBooks(reply: Reply<BooksPage>) returns (request: Request, notice: Option<Notice>)
      requires Valid()
      modifies this`books, this`totalPages, this`loading
      ensures Valid()
      ensures request == GetBooks(page, PageSize) && request.page >= 1
      ensures reply.Ok? ==> books == reply.data.books && totalPages == reply.data.pages
      ensures reply.Ok? ==> notice == None
      ensures reply.Err? ==> books == sample && totalPages == old(totalPages)
      ensures reply.Err? ==> notice == Some(Failure(SampleText))
      ensures !loading
    {
      request := GetBooks(page, PageSize);
      notice := None;
      match reply {
        case Ok(data) =>
          books := data.books;
          totalPages := data.pages;
        case Err(_) =>
          notice := Some(Failure(SampleText));
          books := sample;
      }
      loading := false;
    }
  }
}
