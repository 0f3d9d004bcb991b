# Books-Management in Dafny

A model of the core of Books-Management, a small book catalogue. It has a NestJS
backend, with user registration, login with a JSON Web Token, and create, read,
update and delete endpoints for books. A React page lists the books three to a page.

The model covers:

- the book table and `BooksService` (`Books.BooksService`): a class over a map from
  id to row, with an auto-increment counter that hands out fresh ids;
- the user table and `UserService` (`Users.UserService`): registration with unique
  emails, the login check, token issuance, and how the caller is found from the
  `Authorization` header;
- the `/api/books` and `/api/user` handlers (`BooksApi.BooksController`,
  `UsersApi.UserController`). Each returns a status code and a JSON body
  (`Responses.Response`). The checks run in a fixed order: caller (401), then book
  existence (404), then the operation. An exception becomes a 500 in the books
  handlers and a 401 in the login handler;
- the validation rules of `CreateBookDto` and `LoginUserDto` (`CreateBookValidation`,
  `LoginValidation`, over the class-validator decorators in `Validators`);
- `header.split(' ')[1]` (`AuthHeader`), which takes the token out of the header;
- the list page's pagination and view state (`Pagination`);
- a sign-up, log-in and add-book flow across both controllers (`Walkthrough`).

Things outside the code's control are parameters:

- The database is a `Connection` parameter: `Healthy`, or `Failing(message)`. While
  it fails, every repository call throws that message and changes nothing. A
  handler takes one connection per service call it makes, so any of those calls
  can fail on its own and the handler's answer to that failure is part of its
  contract.
- bcrypt and the JWT library are a `Crypto` value of functions: `hash`, `compare`,
  `sign` and `decode`. The model assumes only `Users.Sound` about them:
  - a password matches its own hash;
  - a signed token decodes to an `id` claim holding the id it was signed for;
  - a signed token holds no space.
- The bcrypt salt and the signing time are explicit arguments.
- The `email` column's collation is a parameter of `UserService`, `collation`,
  required to be an equivalence (`Users.Equivalence`). Every email lookup, the
  uniqueness invariant and the login check compare emails with it. Under MySQL's
  default collations it ignores letter case, so "A@x.com" finds the account of
  "a@x.com".

String lengths in the validators are counted as class-validator counts them, through
validator.js's `isLength`: one per code point, skipping the variation selectors
U+FE0E and U+FE0F (`Validators.CountedLength`).

A decoded token payload either carries an `id` claim or does not. Without one, the
user lookup is left with no condition and answers the first stored account; the
model takes the one with the lowest id.

The list operation returns rows in ascending id order. The ORM's `find()` has no
`ORDER BY`; ascending order is what a scan of the primary key gives.

## Model

| member | source | states |
|---|---|---|
| CreateBookValidation.Validate | backend/src/books/dto/create-book.dto.ts:3-24 | A body is accepted exactly when title, author and description are strings whose counted lengths are 3–100, 3–50 and 1–1000; the DTO it yields carries those strings. |
| CreateBookValidation.TitleBounds | backend/src/books/dto/create-book.dto.ts:4-9 | The three title decorators together accept exactly the strings of 3 to 100 characters. |
| CreateBookValidation.AuthorBounds | backend/src/books/dto/create-book.dto.ts:11-16 | The author decorators accept exactly the strings of 3 to 50 characters. |
| CreateBookValidation.DescriptionBounds | backend/src/books/dto/create-book.dto.ts:18-23 | The description decorators accept exactly the strings of 1 to 1000 characters. |
| CreateBookValidation.ShortDescriptionAccepted | backend/src/books/dto/create-book.dto.ts:20-22 | A description of 1 to 9 characters passes, although the error message asks for at least 10. |
| CreateBookValidation.SelectorsOnlyDescriptionRejected | backend/src/books/dto/create-book.dto.ts:19-22 | A description made only of variation selectors passes `@IsNotEmpty` but counts as 0 characters, so `@Length(1, 1000)` rejects it. |
| CreateBookValidation.EmptyFieldsRejected | backend/src/books/dto/create-book.dto.ts:3-24 | An empty, missing or non-string title, author or description is rejected. |
| CreateBookValidation.ValidateRoundTrip | backend/src/books/dto/create-book.dto.ts:3-24 | Validating the body of a valid DTO gives the same DTO back. |
| LoginValidation.Validate | backend/src/users/dto/login-user.dto.ts:3-12 | A login body is accepted exactly when the email is a non-empty string in email format and the password is a string of counted length at least 8. |
| LoginValidation.ShortPasswordRejected | backend/src/users/dto/login-user.dto.ts:10 | A password whose counted length is below 8 is rejected, whatever its number of code points. |
| LoginValidation.SelectorPaddedPasswordRejected | backend/src/users/dto/login-user.dto.ts:10 | Seven letters followed by U+FE0F are eight code points but count as 7, so the password is rejected. |
| LoginValidation.EmptyFieldsRejected | backend/src/users/dto/login-user.dto.ts:5-9 | An empty or missing email or password is rejected, whatever the email grammar. |
| LoginValidation.EmailNeedsFormat | backend/src/users/dto/login-user.dto.ts:4-6 | The email passes exactly when it is a non-empty string the email grammar accepts. |
| Books.RowsFromExact | backend/src/books/books.service.ts:26-28 | The listed rows are exactly the stored rows with ids in the range, in strictly ascending id order. |
| Books.BooksService.constructor | backend/src/books/books.service.ts:9-12 | The service starts over an empty table and satisfies its invariant. |
| Books.BooksService.FindBookById | backend/src/books/books.service.ts:14-17 | The row with the id if there is one, nothing otherwise; a failing database throws. |
| Books.BooksService.AddBook | backend/src/books/books.service.ts:20-23 | Inserts one row under a fresh id, the counter's value, with the DTO's fields. No other row changes, and a lookup of the new id finds the row. |
| Books.BooksService.GetBooks | backend/src/books/books.service.ts:26-28 | Lists every stored row once, nothing else, in ascending id order. The list is empty exactly when the table is. |
| Books.BooksService.UpdateBook | backend/src/books/books.service.ts:31-40 | A missing id throws "Book with ID <id> not found" and changes nothing. Otherwise the row takes the DTO's fields and keeps its id; every other row is unchanged. |
| Books.BooksService.DeleteBook | backend/src/books/books.service.ts:43-50 | Removes the row; answers true exactly when a row was there; afterwards the id is not found. |
| AuthHeader.Split | backend/src/users/users.service.ts:83 | `split(' ')` always yields at least one piece. |
| AuthHeader.JoinSplit | backend/src/users/users.service.ts:83 | Joining the pieces with single spaces gives back the header. |
| AuthHeader.SplitSpaceFree | backend/src/users/users.service.ts:83 | No piece contains a space. |
| AuthHeader.SplitWithoutSpace | backend/src/users/users.service.ts:83 | A string without a space splits into itself alone. |
| AuthHeader.SplitAtSpace | backend/src/users/users.service.ts:83 | A space after a space-free first word separates that word from the pieces of the rest. |
| AuthHeader.SplitJoin | backend/src/users/users.service.ts:83 | Splitting space-free pieces joined by spaces gives back the pieces. |
| AuthHeader.SecondWordNeedsSpace | backend/src/users/users.service.ts:83 | `split(' ')[1]` is defined exactly when the header contains a space. |
| AuthHeader.SecondWordAfterAnyScheme | backend/src/users/users.service.ts:83 | Whatever space-free word comes first, the second piece is the token. |
| Users.UserService.constructor | backend/src/users/users.service.ts:17-20 | The service starts over an empty user table that satisfies the invariant: the collation is an equivalence and emails are unique under it. |
| Users.UserService.FindOneByEmail | backend/src/users/users.service.ts:22-24 | Finds a stored account whose email equals the given one under the collation, exactly when one exists; a failing database throws. |
| Users.CollatedEmailIsTaken | backend/src/users/users.service.ts:22-24 | An email equal to a stored one under the collation, such as a case variant, counts as taken and finds that account. |
| Users.UserService.Register | backend/src/users/users.service.ts:26-39 | An email taken under the collation throws "Email is already in use" and changes nothing. Otherwise one account is added under a fresh id, with the password hashed. Emails stay unique under the collation. |
| Users.UserService.Login | backend/src/users/users.service.ts:41-56 | True exactly when an account's email equals the given one under the collation and the password matches its stored hash; an unknown email gives false. |
| Users.UserService.ComparePasswords | backend/src/users/users.service.ts:72-77 | A password matches every hash made from it. |
| Users.UserService.GenerateAccessToken | backend/src/users/users.service.ts:58-70 | The token decodes to an `id` claim holding the id and contains no space. |
| Users.UserService.GetUserFromAccessToken | backend/src/users/users.service.ts:79-91 | No header, or an empty one: no user. A header without a space: the "must be a string" exception. A second word the decoder rejects: the decoder's exception. A decoded token on a failing database: the database's exception. A second word that decodes to an `id` claim: the account with that id, if it is stored. A payload without an `id` claim: some stored account, and none only when there are no accounts. |
| Users.IssuedTokenResolves | backend/src/users/users.service.ts:58-70 | A token issued for an id, sent after any space-free first word, resolves to the account with that id. |
| Users.StoredPasswordLogsIn | backend/src/users/users.service.ts:41-56 | An account stored with the hash of a password logs in with that password. |
| Users.PasswordMatchesItsHash | backend/src/users/users.service.ts:72-77 | A password compares equal to a hash made from it. |
| BooksApi.BooksController.AddBook | backend/src/books/books.controller.ts:28-65 | 500 with the exception's message if resolving the caller throws. 401 "Unauthorized" with no caller. 500 with the database's message if the insert fails, with no change. Otherwise 201 "Book added successfully", with the row inserted under a fresh id. |
| BooksApi.BooksController.GetBooks | backend/src/books/books.controller.ts:67-91 | 500 with the database's message on failure. Otherwise 404 "No books found" exactly when the table is empty, else 200 "Books retrieved successfully" with the service's list: every stored book once, in ascending id order. Never 401. |
| BooksApi.BooksController.GetBook | backend/src/books/books.controller.ts:93-119 | 500 with the database's message on failure. Otherwise 404 "Book not found" exactly when the id is absent, else 200 "Book retrieved successfully" with that row. Never 401. |
| BooksApi.BooksController.UpdateBook | backend/src/books/books.controller.ts:121-169 | Checks in order: 500 or 401 for the caller, then 500 if the book lookup fails, then 404 for a missing book, then 500 if the update fails. Every 500 carries the exception's message and changes nothing. Otherwise 200 with the updated row, and only that row changes. |
| BooksApi.BooksController.DeleteBook | backend/src/books/books.controller.ts:171-217 | Checks in order: 500 or 401 for the caller, then 500 if the book lookup fails, then 404 for a missing book, then 500 if the delete fails. Every 500 carries the exception's message and changes nothing. Otherwise 200 "Book deleted successfully", and only that row is removed. |
| UsersApi.UserController.Register | backend/src/users/users.controller.ts:12-46 | 500 with the database's message if the email check fails, 400 "Email is already in use" for an email taken under the collation, 500 with the database's message if the registration fails (no change), else 201 and one new account. |
| UsersApi.UserController.Login | backend/src/users/users.controller.ts:48-77 | 200 "Login successful" with a token for the matching account, and no error, exactly when the credentials match under the collation. Every other case, exceptions included, gets the same 401 "Invalid email or password". |
| Pagination.TotalPages | frontend/src/modules/books/ListBooks.tsx:61 | The least page count whose pages hold all books; zero exactly when there are no books. |
| Pagination.CurrentBooks | frontend/src/modules/books/ListBooks.tsx:63-66 | At most three books: those from index (page − 1) × 3 on, in list order. Nothing on page 0 or past the end. |
| Pagination.NextPage | frontend/src/modules/books/ListBooks.tsx:68-70 | Exactly one page further while below the page count; never past the page count; no move on the last page. |
| Pagination.PreviousPage | frontend/src/modules/books/ListBooks.tsx:72-74 | Exactly one page back from page 2 on; never below page 1. |
| Pagination.PagesUpToIsPrefix | frontend/src/modules/books/ListBooks.tsx:61-66 | Pages 1 to n together are the first 3n books of the list. |
| Pagination.AllPagesRebuildList | frontend/src/modules/books/ListBooks.tsx:61-66 | Pages 1 to the page count show every book exactly once, in order. |
| Pagination.PageBeyondLastIsEmpty | frontend/src/modules/books/ListBooks.tsx:61-66 | A page past the page count shows nothing. |
| Pagination.NextOnEmptyListLeavesRange | frontend/src/modules/books/ListBooks.tsx:68-70 | With no books, Next from page 1 goes to page 0. |
| Pagination.StalePageShowsNothing | frontend/src/modules/books/ListBooks.tsx:28-37 | When a refetched list no longer reaches the current page, the page lies past the page count and shows nothing. |
| Pagination.ListBooksView.constructor | frontend/src/modules/books/ListBooks.tsx:15-20 | The page starts on page 1, with no books, loading, and no error. |
| Pagination.ListBooksView.FetchBooks | frontend/src/modules/books/ListBooks.tsx:28-37 | A 200 replaces the list and clears the error. Any other status keeps the old list and records the message. The page number never changes. |
| Pagination.ListBooksView.GoToNextPage | frontend/src/modules/books/ListBooks.tsx:68-70 | Sets the page to `NextPage` of the old page and the current page count. |
| Pagination.ListBooksView.GoToPreviousPage | frontend/src/modules/books/ListBooks.tsx:72-74 | Sets the page to `PreviousPage` of the old page. |
| Pagination.DeleteLastBookOfLastPage | frontend/src/modules/books/ListBooks.tsx:47-54 | Four books on page 2; the fourth is deleted and the list is refetched. The view stays on page 2 of 1 and shows nothing. |
| Walkthrough.SignUpLogInAndAddBook | backend/src/books/books.controller.ts:31-52 | A new email registers (201) and logs in with the same password (200). A request with `Bearer <token>` then adds a book (201), which is inserted. |

## Left out

- The access-token guard: its source is not part of this model. Each handler body is modelled as if the guard admitted the request. The JWT signature and the 90-day expiry are never checked here.
- bcrypt and the JWT library are abstract functions. Only the three facts in `Users.Sound` are assumed about them.
- `@IsEmail`'s address grammar is a parameter, `emailFormat`.
- The collation's own rules (case and accent folding, trailing spaces) are not spelled out; only that it is an equivalence is used.
- Asynchrony and concurrency: each handler runs to completion before the next starts. Two registrations racing on one email are not modelled.
- The 400 branches after a save ("Failed to add book", "Failed to update book", "User registration failed") are not modelled. The ORM's `save` resolves to the entity or throws, so they cannot be reached. The "Failed to delete book" branch stays in `BooksApi.BooksController.DeleteBook`; the 404 check before it makes it unreachable.
- `ParseIntPipe` and the global `ValidationPipe`: the handlers receive an integer id and an already validated DTO. The DTO validation is modelled separately.
- `RegisterUserDto`'s decorators: that file is not part of this model.
- Integer widths: ids and the auto-increment counter are unbounded.
- The list page's rendering, modals, alerts, cookies and logout are not modelled. The HTTP client's answer is passed to `FetchBooks` as a status code, a list and a message.
- UsersApi.UserController.Login: signing never throws here. With a missing secret, `signAsync` would reject and the handler would answer 401.
- Users.UserService.GetUserFromAccessToken: an `id` claim is an integer, or absent. A claim of another JSON type (a string, say) is not modelled. Which account a lookup with no condition returns is up to the database; the model fixes the lowest id.
- Inside one service call, the model has one connection. `updateBook` looks the row up and then saves it, and `register` checks the email and then saves. A failure between those two steps is folded into the call's single outcome: it throws and nothing changes.
