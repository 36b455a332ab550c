/** The records the client receives from the backend and keeps in view state. */
module Entities {
  import opened Wrappers

  /** The signed-in user as the server returns it (`user.id` is compared with `book.owner._id`). */
  datatype User = User(id: string, firstName: string, lastName: string, email: string)

  /** A listed book; `owner` is the nested user record of its creator. */
  datatype Book = Book(id: string, title: string, author: string, condition: string,
                       image: string, owner: User)

  /** A swap request; `status` is the server's string ("pending", "accepted", "declined"). */
  datatype SwapRequest = SwapRequest(id: string, bookTitle: string, requesterEmail: string,
                                     status: string)

  /** A file picked in the browser's file input, passed through untouched. */
  datatype ImageFile = ImageFile(name: string)

  /** The decoded claims of a JSON Web Token; `exp` is in seconds since the epoch. */
  datatype Claims = Claims(exp: Option<int>)

  /** Body of `POST /auth/register`: the registration form without its confirmation field. */
  datatype RegisterData = RegisterData(firstName: string, lastName: string, email: string,
                                       phone: string, password: string)

  /** Body of a successful `POST /auth/login`. */
  datatype LoginData = LoginData(token: string, user: User)

  /** Body of a successful `GET /books?page=&limit=`. */
  datatype BooksPage = BooksPage(books: seq<Book>, pages: int)
}
