/** The JSON bodies the handlers send, with their HTTP status codes. */
module Responses {
  import opened Common
  import Books

  /** The optional `data` member of a body. */
  datatype Data = NoData | OneBook(book: Books.Book) | BookList(books: seq<Books.Book>) | TokenData(token: string)

  /** HTTP status code and body `{status, message, error?, data?}`. */
  datatype Response = Response(code: int, status: bool, message: string, error: Option<string>, data: Data)

  /** The `status` flag is true exactly on 200 and 201 responses. */
  predicate StatusAgrees(r: Response)
  {
    r.status <==> r.code == 200 || r.code == 201
  }

  function Success(code: int, message: string, data: Data): Response
  {
    Response(code, true, message, None, data)
  }

  function Failure(code: int, message: string): Response
  {
    Response(code, false, message, None, NoData)
  }

  /** The body a book handler sends for a caught exception. */
  function InternalError(detail: string): Response
  {
    Response(500, false, "Internal server error", Some(detail), NoData)
  }

  function Unauthorized(): Response
  {
    Failure(401, "Unauthorized")
  }
}
