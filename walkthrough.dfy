/** The end-to-end flow of the API: sign up, log in, and use the token to add a
    book. */
module Walkthrough {
  import opened Common
  import opened Responses
  import opened Books
  import opened Users
  import opened LoginValidation
  import opened CreateBookValidation
  import opened BooksApi
  import opened UsersApi

  /** A new email registers (201), logs in with the same password (200, a token),
      and a request carrying `Bearer <token>` adds a book (201). */
  method SignUpLogInAndAddBook(
    booksApi: BooksController, usersApi: UserController,
    account: RegisterUserDto, salt: nat, issuedAt: int, book: CreateBookDto)
    returns (registered: Response, loggedIn: Response, added: Response)
    requires booksApi.users == usersApi.users
    requires booksApi.books.Valid() && usersApi.users.Valid() && Sound(usersApi.users.crypto)
    requires !HasEmail(usersApi.users.rows, account.email, usersApi.users.collation) && ValidDto(book)
    modifies usersApi.users, booksApi.books
    ensures registered.code == 201 && loggedIn.code == 200 && added.code == 201
    ensures exists id :: booksApi.books.rows == old(booksApi.books.rows)[id := Book(id, book.title, book.author, book.description)]
  {
    var users := usersApi.users;
    var id := users.nextId;
    registered := usersApi.Register(account, salt, Healthy, Healthy);
    assert users.rows[id].email == account.email;
    assert users.crypto.compare(account.password, users.rows[id].password);
    loggedIn := usersApi.Login(LoginUserDto(account.email, account.password), issuedAt, Healthy, Healthy);
    assert loggedIn.data == TokenData(users.GenerateAccessToken(id, issuedAt));
    var token := loggedIn.data.token;
    IssuedTokenResolves(users, "Bearer", id, issuedAt);
    added := booksApi.AddBook(Request(Some("Bearer" + " " + token)), book, Healthy, Healthy);
  }
}
