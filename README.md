# BookSwap front end, modelled in Dafny

BookSwap is a book-exchange web client written in React. Users register, sign in,
browse a paged catalogue, list books with a cover image, and ask other users for
their books. Each owner then accepts or declines the requests made for their books.
This project models the client's logic in Dafny and proves properties of that model:

- the session store (`src/AuthContext.js`). It keeps the signed-in user, the token
  and serialized user in browser storage, and the `Authorization` header. It covers
  start-up restoration with JWT expiry, login, registration and logout;
- the three forms (`Register.jsx`, `Login.jsx`, `AddBook.jsx`): their field state,
  their validation rules and the submissions those rules gate;
- the catalogue (`Home.jsx`): the page counter with its Previous and Next buttons, and
  the page fetch that falls back to a bundled sample list;
- the profile (`Profile.jsx`): the joint load of three lists, deleting a book by
  filtering it out, and accepting or declining pending requests followed by a
  re-fetch;
- the detail view (`BookDetails.jsx`): the fetch, the not-found state, the ownership
  rule for the request button, and the request itself.

Effects become values:

- The reply of every backend call is an input, `Reply<T>`. It is either the response
  body or the error body: an optional `error` string and the list of `errors[].msg`.
- The calls a handler makes are returned as `Request` values, so "no call is made"
  can be stated and proved.
- Toast notifications are returned as `Notice` values.
- Browser storage is a `map<string, string>`.
- The clock is a parameter.
- The JWT decoder, `JSON.parse` and `JSON.stringify` are an injected `Codecs` value.
  In it, `None` stands for a call that throws.

JavaScript semantics the rules depend on are written out:

- Truthiness: a missing or empty string is false, both in `if (token)` and in `a || b`.
- `String.prototype.trim` and the regular-expression class `\s` use the ECMAScript
  WhiteSpace and LineTerminator characters.
- `length` counts UTF-16 code units.
- A token without `exp` makes `exp * 1000 < Date.now()` compare `NaN`, which is
  false, so such a token never expires.
- The e-mail regular expression `^[^\s@]+@[^\s@]+\.[^\s@]+$` is decided by a
  hand-written rule, `IsEmail`, and proved equal to the shape the pattern describes.
  The phone pattern `^\+?[1-9]\d{1,14}$` is treated the same way.

Module layout: `Wrappers`, `Entities` and `Remote` hold the shared types. `Text` holds
the string rules. There is one module per source file: `AuthContext`, `RegisterPage`,
`LoginPage`, `AddBookPage`, `HomePage`, `ProfilePage` and `BookDetailsPage`. Each
component with state is a class whose fields are its `useState` variables. Its
handlers are methods proved against specification functions. The `AuthContext` state
transitions are also functions on a `SessionState` value, and the `Session` class
is proved to follow them.

Two behaviours of the code are kept as written and proved as lemmas:

- Next is disabled only when `page === totalPages`. Once the page count a server
  reports falls below the current page (for instance 0 pages for an empty
  catalogue), every click on Next adds a page (`HomePage.NextRunsPastLastPage`).
- A stored token without an expiry is accepted forever (`AuthContext.Expired`).

## Model

| member | source | states |
|---|---|---|
| Remote.OrElse | src/AuthContext.js:44 | JavaScript's logical-or with a fallback, on an optional string: the value when it is present and non-empty, else the fallback; never empty when the fallback is not |
| Remote.FirstIssue | src/AuthContext.js:54 | `errors?.[0]?.msg` is the first validation message when the list is non-empty, and absent otherwise |
| Remote.ServerError | src/AuthContext.js:44 | the toast text of a failed call is the server's non-empty `error`, else the fallback, and is never empty |
| Text.Trim | src/Pages/Register.jsx:27-28 | `trim()` yields the input with a run of whitespace cut from each end: a contiguous piece of it with only whitespace before and after, that neither starts nor ends with whitespace and is empty exactly when the input is all whitespace |
| Text.Utf16Length | src/Pages/Register.jsx:31 | `password.length` lies between the number of characters and twice it, and equals it when every character is in the Basic Multilingual Plane |
| Text.EmailRuleIsPattern | src/Pages/Register.jsx:29 | the e-mail rule accepts a string exactly when it splits as atom `@` atom `.` atom, with atoms free of whitespace and `@` |
| Text.IsEmail | src/Pages/Register.jsx:29 | the e-mail rule of both forms (also src/Pages/Login.jsx:20); what it accepts is characterised by `Text.EmailRuleIsPattern` |
| Text.IsPhone | src/Pages/Register.jsx:30 | the registration phone rule; what it accepts is characterised by `Text.PhoneRuleIsPattern` |
| Text.PhoneRuleIsPattern | src/Pages/Register.jsx:30 | the phone rule accepts a string exactly when it is an optional `+`, a digit 1-9, then 1 to 14 digits |
| AuthContext.Bearer | src/AuthContext.js:25 | the header value is exactly the prefix `Bearer ` followed by the unchanged token |
| AuthContext.Expired | src/AuthContext.js:19 | only a token with an `exp` claim can be expired; one without is never expired |
| AuthContext.ExpiryIsPermanent | src/AuthContext.js:19 | a token expired at one clock reading is expired at every later one |
| AuthContext.TokenLive | src/AuthContext.js:14-19 | a live token is stored under `token` and is non-empty |
| AuthContext.ForcedLogout | src/AuthContext.js:16-30 | start-up signs out only when a token is stored, and always when a stored token is not live |
| AuthContext.StoredValue | src/AuthContext.js:14-16 | a stored entry counts as present exactly when the key exists and its value is non-empty |
| AuthContext.LoggedOut | src/AuthContext.js:59-65 | logout removes the user, the header and both storage keys, keeps every other key and value, and leaves a consistent session |
| AuthContext.Restored | src/AuthContext.js:13-33 | start-up ends loading. It does nothing more with no token, and forces a logout when the token is expired or undecodable or the stored user does not parse. Otherwise it attaches the token and restores the stored user. Consistency is preserved |
| AuthContext.AfterLogin | src/AuthContext.js:35-47 | a successful login stores the token and the serialized user, signs the user in and sets the header; a failed one changes nothing; consistency is preserved |
| AuthContext.LoginNotice | src/AuthContext.js:42-44 | the login toast is the success text on success, and the server's error or "Login failed" on failure; never empty |
| AuthContext.RegisterNotice | src/AuthContext.js:52-54 | the registration toast is the success text on success, and the first validation message or "Registration failed" on failure; never empty |
| AuthContext.Settled | src/AuthContext.js:45 | the awaited call rejects exactly when the backend call failed, with the same error |
| AuthContext.Session.constructor | src/AuthContext.js:10-11 | the mounted provider has no user, no header, the persisted storage and loading on; it is consistent |
| AuthContext.Session.Logout | src/AuthContext.js:59-65 | logout moves the store to `LoggedOut` of its state and shows the info toast |
| AuthContext.Session.Restore | src/AuthContext.js:13-33 | the start-up effect moves the store to `Restored` of its state and shows the logout toast exactly when a logout was forced |
| AuthContext.Session.Login | src/AuthContext.js:35-47 | login posts the credentials, moves the store to `AfterLogin`, re-throws a failure and shows the login toast |
| AuthContext.Session.Register | src/AuthContext.js:49-57 | registration posts the user data, changes no state, re-throws a failure and shows the registration toast |
| AuthContext.LogoutIdempotent | src/AuthContext.js:59-65 | logging out twice is logging out once |
| AuthContext.DecodeFailureIsExpiry | src/AuthContext.js:17-30 | a token that fails to decode ends start-up exactly as an expired one does: logged out |
| AuthContext.ExpiredTokenSignsOut | src/AuthContext.js:19-20 | after start-up with a stored token that is not live there is no user, no header and neither storage key |
| AuthContext.FailedLoginKeepsSession | src/AuthContext.js:43-46 | a failed login leaves every part of the session unchanged |
| AuthContext.LoginSurvivesReload | src/AuthContext.js:13-41 | after a successful login, a reload restores the same user and header, given a live token and a serialization that parses back |
| AuthContext.ConsistentFromMount | src/AuthContext.js:9-65 | from mount, start-up followed by any logins and logouts keeps the header equal to the stored token's and the user backed by storage |
| AuthContext.RunKeepsConsistent | src/AuthContext.js:35-65 | any series of logins and logouts preserves consistency |
| RegisterPage.RuleMessage | src/Pages/Register.jsx:27-32 | every rule has a non-empty message |
| RegisterPage.Payload | src/Pages/Register.jsx:41 | the registration body carries the five fields other than the confirmation, unchanged |
| RegisterPage.Complaints | src/Pages/Register.jsx:25-35 | a field gets a message exactly when its rule is broken, the message is that rule's, and there are none exactly when the form is acceptable |
| RegisterPage.AcceptableMatchesPatterns | src/Pages/Register.jsx:29-32 | an accepted form holds a pattern-conforming e-mail and phone, and a confirmation of at least six UTF-16 units |
| RegisterPage.Register.constructor | src/Pages/Register.jsx:10-18 | the mounted form has six empty fields and no messages |
| RegisterPage.Register.HandleChange | src/Pages/Register.jsx:20-23 | typing sets the named field and clears only that field's message |
| RegisterPage.Register.ValidateForm | src/Pages/Register.jsx:25-35 | validation records `Complaints` of the form and reports success exactly when the form is acceptable |
| RegisterPage.Register.HandleSubmit | src/Pages/Register.jsx:37-47 | the registration call is made exactly when the form is acceptable, with the payload; the view moves to `/login` exactly when it then succeeded; the messages recorded are `Complaints` of the form |
| LoginPage.RuleMessage | src/Pages/Login.jsx:20-21 | both rules have non-empty messages |
| LoginPage.Complaints | src/Pages/Login.jsx:18-24 | a message exactly for a bad address or an empty password, and none exactly when the form is acceptable |
| LoginPage.RegisteredCredentialsPass | src/Pages/Login.jsx:20-21 | the e-mail and password of any accepted registration form pass the login rules |
| LoginPage.Login.constructor | src/Pages/Login.jsx:10-11 | the mounted form has two empty fields and no messages |
| LoginPage.Login.HandleChange | src/Pages/Login.jsx:13-16 | typing sets the named field and clears only that field's message |
| LoginPage.Login.ValidateForm | src/Pages/Login.jsx:18-24 | validation records `Complaints` of the form and reports success exactly when the form is acceptable |
| LoginPage.Login.HandleSubmit | src/Pages/Login.jsx:26-35 | an unacceptable form sends nothing and leaves the session as it was; otherwise the session performs `AfterLogin` and the view moves home exactly when the login succeeded |
| AddBookPage.RuleMessage | src/Pages/AddBook.jsx:25-27 | the title, author and image rules have non-empty messages |
| AddBookPage.Complaints | src/Pages/AddBook.jsx:23-30 | a message exactly for a blank title, a blank author or a missing image, never for the condition, and none exactly when the form is acceptable |
| AddBookPage.FirstFile | src/Pages/AddBook.jsx:19 | `files[0]` is the first picked file, and nothing for an empty list |
| AddBookPage.AddBookFailureText | src/Pages/AddBook.jsx:49 | the failure toast is the first validation message, else the server's error, else "Failed to add book"; never empty |
| AddBookPage.IssueTakesPrecedence | src/Pages/AddBook.jsx:49 | when a validation message is present, it is shown rather than a different server error |
| AddBookPage.InitialFormRefused | src/Pages/AddBook.jsx:9-30 | submitting the untouched form records exactly the title, author and image messages |
| AddBookPage.AddBook.constructor | src/Pages/AddBook.jsx:9-15 | the mounted form is empty title and author, condition "new", no image, no messages |
| AddBookPage.AddBook.HandleChange | src/Pages/AddBook.jsx:17-21 | the file input stores its first file, every other input its value, and only that field's message is cleared |
| AddBookPage.AddBook.ValidateForm | src/Pages/AddBook.jsx:23-30 | validation records `Complaints` of the form and reports success exactly when the form is acceptable |
| AddBookPage.AddBook.HandleSubmit | src/Pages/AddBook.jsx:32-51 | the upload is made exactly when the form is acceptable, carrying its four fields; the view moves to `/profile` exactly when it succeeded; the toast follows the outcome |
| HomePage.PreviousDisabled | src/Pages/Home.jsx:80 | Previous is disabled exactly on page 1 |
| HomePage.NextDisabled | src/Pages/Home.jsx:89 | Next is disabled exactly when the page equals the page count |
| HomePage.AfterPress | src/Pages/Home.jsx:79-89 | a click moves the page by at most one, in the button's direction, never below 1, and leaves it exactly when the button is disabled |
| HomePage.PageNeverBelowOne | src/Pages/Home.jsx:79-80 | whatever the page count, no series of clicks takes the page below 1 |
| HomePage.PressesStayInRange | src/Pages/Home.jsx:79-89 | while the page is within a fixed page count, any series of clicks keeps it within |
| HomePage.NextRunsPastLastPage | src/Pages/Home.jsx:88-89 | once the page exceeds the page count, n clicks on Next advance it by n |
| HomePage.Home.constructor | src/Pages/Home.jsx:10-13 | the mounted view has no books, is loading, and is on page 1 of 1 |
| HomePage.Home.Press | src/Pages/Home.jsx:31-41 | a click, possible only once loading has ended and the buttons are rendered, changes only the page, as `AfterPress` says |
| HomePage.Home.FetchBooks | src/Pages/Home.jsx:15-29 | the request is for the current page with limit 8; success takes the server's books and page count, failure shows the sample books and keeps the count; loading ends |
| ProfilePage.ProfileHeader | src/Pages/Profile.jsx:25-30 | the load's own header carries the stored token, or the text "null" when there is none |
| ProfilePage.ProfileHeaderIsSessionHeader | src/Pages/Profile.jsx:25-30 | in a consistent session with a user, that header is the stored token's and equals the session's header |
| ProfilePage.WithoutBook | src/Pages/Profile.jsx:51 | the filter keeps exactly the books whose id differs |
| ProfilePage.WithoutBookAppend | src/Pages/Profile.jsx:51 | the filter distributes over concatenation, so the books kept stay in order |
| ProfilePage.WithoutAbsentBook | src/Pages/Profile.jsx:51 | deleting an id that is not listed leaves the list as it is |
| ProfilePage.WithoutBookIdempotent | src/Pages/Profile.jsx:51 | filtering twice by the same id is filtering once |
| ProfilePage.WithoutBookCounts | src/Pages/Profile.jsx:51 | every book with another id keeps its number of copies, and none with the id remain |
| ProfilePage.Offered | src/Pages/Profile.jsx:179-198 | every offered decision is accept or decline on a pending request, and every pending request offers both |
| ProfilePage.SettledRequestsOfferNothing | src/Pages/Profile.jsx:179 | a list with no pending request offers no decision |
| ProfilePage.Profile.constructor | src/Pages/Profile.jsx:10-14 | the mounted view has three empty lists and is loading |
| ProfilePage.Profile.Load | src/Pages/Profile.jsx:16-46 | one run of the effect, which runs again whenever the session's user changes, for the user of that run: without a user nothing is fetched, the lists are kept and a toast asks to sign in; with one the three lists are fetched and replaced together only when all succeed; loading ends on every path |
| ProfilePage.Profile.HandleDelete | src/Pages/Profile.jsx:48-56 | a successful delete filters the id out of the list, a failed one keeps it; the toast follows the outcome |
| ProfilePage.Profile.HandleUpdateRequest | src/Pages/Profile.jsx:58-67 | the re-fetch follows only a successful update; the incoming list becomes the re-fetched one only when both succeed; the toast follows the outcome |
| BookDetailsPage.MayRequest | src/Pages/BookDetails.jsx:69 | only a signed-in user who is not the book's owner may request it |
| BookDetailsPage.OwnerNeverRequests | src/Pages/BookDetails.jsx:69 | the owner of a book is never offered the request button, any other signed-in user is, and a visitor is not |
| BookDetailsPage.BookDetails.constructor | src/Pages/BookDetails.jsx:10-13 | the mounted view has no book and is loading |
| BookDetailsPage.BookDetails.NotFound | src/Pages/BookDetails.jsx:38-50 | "Book not found" shows once loading has ended without a book |
| BookDetailsPage.BookDetails.RequestOffered | src/Pages/BookDetails.jsx:69 | the request button shows, for the session's user at render time, when a book is on screen and that user may request it |
| BookDetailsPage.BookDetails.NotFoundHidesRequest | src/Pages/BookDetails.jsx:50-69 | for any user, not-found and the request button never show together, and the button shows only on another user's book |
| BookDetailsPage.BookDetails.RequestFollowsSessionUser | src/Pages/BookDetails.jsx:13-69 | on the same view state the button is hidden while no one is signed in and shown once a user other than the owner is, as the render reads the current user |
| BookDetailsPage.BookDetails.FetchBook | src/Pages/BookDetails.jsx:15-27 | the fetch is for the route's id; it shows the book received, or not-found after a failure or an empty reply; loading ends |
| BookDetailsPage.BookDetails.HandleRequest | src/Pages/BookDetails.jsx:29-36 | the request posts the route's id, changes no state, and the toast follows the outcome |

## Left out

- Rendering, styling, animations and routing are not modelled: JSX markup, `framer-motion`, the colour of a status, `Link`s. Navigation is modelled only as the route a handler moves to.
- `src/Components/Navbar.jsx` and `src/App.js` are not part of this model.
- Each backend call is reduced to its settled reply. Network transport, the base URL, multipart encoding and the content of `dummyData` and `config` are inputs or left out.
- `ProfilePage.Profile.Load` models each run of the effect as one call for the user at that time; which user changes trigger a run, and their interleaving with start-up, is left to the caller. A run without a user keeps the lists it found.
- Concurrency is not modelled. Each handler runs to completion on the state it started from, so stale closures and overlapping fetches are not captured. `Promise.all` becomes one joint reply, without saying which of the three calls failed.
- `jwtDecode`, `JSON.parse` and `JSON.stringify` are foreign code and are injected as functions. A parse that yields `null` rather than throwing is not distinguished from a throw.
- `AuthContext.Expired`: `exp` is an integer number of seconds; fractional and non-numeric `exp` values are not modelled.
- The browser's own checks of `type="email"` inputs and of the file input's `accept` list are not modelled; validation is what `validateForm` does.
- `AddBookPage.AddBook.HandleChange` requires that a file list comes exactly from the image input, as the markup wires it.
- `BookDetailsPage.MayRequest` compares the owner's identifier with the user's as one `id` field. The source reads `owner._id` on one side and `user.id` on the other, and the server's shape of each is not part of this model.
- Console output is left out: the token decode error logged at src/AuthContext.js:28, and the form and error logged at src/Pages/AddBook.jsx:40 and 48.
