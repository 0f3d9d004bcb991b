/** `BooksController`: the `/api/books` handlers. Each one that writes resolves
    the caller (401), checks that the book exists where it names one (404), then
    calls the service; an exception anywhere becomes a 500. */
module BooksApi {
  import opened Common
  import opened Responses
  import opened Books
  import opened Users
  import opened CreateBookValidation

  class BooksController {
    const books: BooksService
    const users: UserService

    constructor (books: BooksService, users: UserService)
      ensures this.books == books && this.users == users
    {
      this.books := books;
      this.users := users;
    }

    /** POST /api/books. `auth` is the database as the caller lookup finds it,
        `write` as the insert finds it. */
    method AddBook(req: Request, dto: CreateBookDto, auth: Connection, write: Connection) returns (resp: Response)
      requires books.Valid() && users.Valid() && ValidDto(dto)
      modifies books
      ensures books.Valid() && StatusAgrees(resp)
      ensures var who := users.GetUserFromAccessToken(req, auth);
              && (who.Thrown? ==> resp == InternalError(who.message) && books.rows == old(books.rows))
              && (who == Value(None) ==> resp == Unauthorized() && books.rows == old(books.rows))
              && (who.Value? && who.value.Some? && write.Failing? ==>
                    resp == InternalError(write.message) && books.rows == old(books.rows))
              && (who.Value? && who.value.Some? && write.Healthy? ==>
                    var id := old(books.nextId);
                    && resp == Success(201, "Book added successfully", NoData)
                    && id !in old(books.rows)
                    && books.rows == old(books.rows)[id := Book(id, dto.title, dto.author, dto.description)])
    {
      var user := users.GetUserFromAccessToken(req, auth);
      if user.Thrown? {
        return InternalError(user.message);
      }
      if user.value.None? {
        return Unauthorized();
      }
      var newBook := books.AddBook(dto, write);
      if newBook.Thrown? {
        return InternalError(newBook.message);
      }
      resp := Success(201, "Book added successfully", NoData);
    }

    /** GET /api/books */
    function GetBooks(conn: Connection): (resp: Response)
      reads books
      requires books.Valid()
      ensures StatusAgrees(resp) && resp.code != 401
      ensures conn.Failing? ==> resp == InternalError(conn.message)
      ensures conn.Healthy? ==> (resp.code == 404 <==> books.rows == map[])
      ensures conn.Healthy? && books.rows == map[] ==> resp == Failure(404, "No books found")
      ensures conn.Healthy? && books.rows != map[] ==>
                resp == Success(200, "Books retrieved successfully", BookList(books.GetBooks(conn).value))
      ensures conn.Healthy? && books.rows != map[] ==>
                && resp.code == 200 && resp.data.BookList?
                && forall b :: b in resp.data.books <==> b.id in books.rows && books.rows[b.id] == b
    {
      match books.GetBooks(conn)
      case Thrown(m) => InternalError(m)
      case Value(list) =>
        if |list| == 0 then Failure(404, "No books found")
        else Success(200, "Books retrieved successfully", BookList(list))
    }

    /** GET /api/books/:id */
    function GetBook(id: int, conn: Connection): (resp: Response)
      reads books
      ensures StatusAgrees(resp) && resp.code != 401
      ensures conn.Failing? ==> resp == InternalError(conn.message)
      ensures conn.Healthy? ==> (resp.code == 404 <==> id !in books.rows)
      ensures conn.Healthy? && id in books.rows ==> resp.code == 200 && resp.data == OneBook(books.rows[id])
      ensures conn.Healthy? ==>
                resp == if id in books.rows then Success(200, "Book retrieved successfully", OneBook(books.rows[id]))
                        else Failure(404, "Book not found")
    {
      match books.FindBookById(id, conn)
      case Thrown(m) => InternalError(m)
      case Value(None) => Failure(404, "Book not found")
      case Value(Some(book)) => Success(200, "Book retrieved successfully", OneBook(book))
    }

    /** PUT /api/books/:id. `auth`, `lookup` and `write` are the database as the
        caller lookup, the book lookup and the update find it. */
    method UpdateBook(req: Request, id: int, dto: CreateBookDto, auth: Connection, lookup: Connection, write: Connection)
      returns (resp: Response)
      requires books.Valid() && users.Valid() && ValidDto(dto)
      modifies books
      ensures books.Valid() && StatusAgrees(resp)
      ensures var who := users.GetUserFromAccessToken(req, auth);
              && (who.Thrown? ==> resp == InternalError(who.message) && books.rows == old(books.rows))
              && (who == Value(None) ==> resp == Unauthorized() && books.rows == old(books.rows))
              && (who.Value? && who.value.Some? && lookup.Failing? ==>
                    resp == InternalError(lookup.message) && books.rows == old(books.rows))
              && (who.Value? && who.value.Some? && lookup.Healthy? && id !in old(books.rows) ==>
                    resp == Failure(404, "Book not found") && books.rows == old(books.rows))
              && (who.Value? && who.value.Some? && lookup.Healthy? && id in old(books.rows) && write.Failing? ==>
                    resp == InternalError(write.message) && books.rows == old(books.rows))
              && (who.Value? && who.value.Some? && lookup.Healthy? && id in old(books.rows) && write.Healthy? ==>
                    var updated := Book(id, dto.title, dto.author, dto.description);
                    && resp == Success(200, "Book updated successfully", OneBook(updated))
                    && books.rows == old(books.rows)[id := updated])
    {
      var user := users.GetUserFromAccessToken(req, auth);
      if user.Thrown? {
        return InternalError(user.message);
      }
      if user.value.None? {
        return Unauthorized();
      }
      var book := books.FindBookById(id, lookup);
      if book.Thrown? {
        return InternalError(book.message);
      }
      if book.value.None? {
        return Failure(404, "Book not found");
      }
      var updatedBook := books.UpdateBook(id, dto, write);
      if updatedBook.Thrown? {
        return InternalError(updatedBook.message);
      }
      resp := Success(200, "Book updated successfully", OneBook(updatedBook.value));
    }

    /** DELETE /api/books/:id. `auth`, `lookup` and `write` are the database as
        the caller lookup, the book lookup and the delete find it. */
    method DeleteBook(req: Request, id: int, auth: Connection, lookup: Connection, write: Connection)
      returns (resp: Response)
      requires books.Valid() && users.Valid()
      modifies books
      ensures books.Valid() && StatusAgrees(resp)
      ensures var who := users.GetUserFromAccessToken(req, auth);
              && (who.Thrown? ==> resp == InternalError(who.message) && books.rows == old(books.rows))
              && (who == Value(None) ==> resp == Unauthorized() && books.rows == old(books.rows))
              && (who.Value? && who.value.Some? && lookup.Failing? ==>
                    resp == InternalError(lookup.message) && books.rows == old(books.rows))
              && (who.Value? && who.value.Some? && lookup.Healthy? && id !in old(books.rows) ==>
                    resp == Failure(404, "Book not found") && books.rows == old(books.rows))
              && (who.Value? && who.value.Some? && lookup.Healthy? && id in old(books.rows) && write.Failing? ==>
                    resp == InternalError(write.message) && books.rows == old(books.rows))
              && (who.Value? && who.value.Some? && lookup.Healthy? && id in old(books.rows) && write.Healthy? ==>
                    resp == Success(200, "Book deleted successfully", NoData) && books.rows == old(books.rows) - {id})
    {
      var user := users.GetUserFromAccessToken(req, auth);
      if user.Thrown? {
        return InternalError(user.message);
      }
      if user.value.None? {
        return Unauthorized();
      }
      var book := books.FindBookById(id, lookup);
      if book.Thrown? {
        return InternalError(book.message);
      }
      if book.value.None? {
        return Failure(404, "Book not found");
      }
      var result := books.DeleteBook(id, write);
      if result.Thrown? {
        return InternalError(result.message);
      }
      if result.value {
        return Success(200, "Book deleted successfully", NoData);
      }
      resp := Failure(400, "Failed to delete book");
    }
  }
}
