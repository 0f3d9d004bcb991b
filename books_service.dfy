/** The book table and the service that reads and changes it
    (`BooksService` over the ORM's `Repository<Book>`). */
module Books {
  import opened Common
  import opened CreateBookValidation

  datatype Book = Book(id: int, title: string, author: string, description: string)

  function Fields(b: Book): CreateBookDto { CreateBookDto(b.title, b.author, b.description) }

  /** Every row is stored under its own id. */
  ghost predicate Keyed(rows: map<int, Book>)
  {
    forall k :: k in rows ==> rows[k].id == k
  }

  /** The rows whose ids lie in [lo, hi), in ascending id order. */
  function RowsFrom(rows: map<int, Book>, lo: int, hi: int): seq<Book>
    decreases hi - lo
  {
    if hi <= lo then []
    else (if lo in rows then [rows[lo]] else []) + RowsFrom(rows, lo + 1, hi)
  }

  lemma {:induction false} RowsFromExact(rows: map<int, Book>, lo: int, hi: int)
    requires Keyed(rows)
    ensures forall b :: b in RowsFrom(rows, lo, hi) <==> lo <= b.id < hi && b.id in rows && rows[b.id] == b
    ensures forall i, j :: 0 <= i < j < |RowsFrom(rows, lo, hi)| ==>
              RowsFrom(rows, lo, hi)[i].id < RowsFrom(rows, lo, hi)[j].id
    decreases hi - lo
  {
    if lo < hi {
      RowsFromExact(rows, lo + 1, hi);
      var head: seq<Book> := if lo in rows then [rows[lo]] else [];
      var tail := RowsFrom(rows, lo + 1, hi);
      assert RowsFrom(rows, lo, hi) == head + tail;
      forall i, j | 0 <= i < j < |head + tail|
        ensures (head + tail)[i].id < (head + tail)[j].id
      {
        if i < |head| {
          assert (head + tail)[j] in tail;
        }
      }
    }
  }

  function NotFoundMessage(id: int): string
  {
    "Book with ID " + DecimalString(id) + " not found"
  }

  class BooksService {
    var rows: map<int, Book>
    /** The next id the table's auto-increment counter hands out. */
    var nextId: int

    /** Rows are keyed by their ids, which lie below the counter, and every stored
        book passed the DTO's validation. */
    ghost predicate Valid()
      reads this
    {
      && 1 <= nextId
      && Keyed(rows)
      && (forall k :: k in rows ==> 1 <= k < nextId && ValidDto(Fields(rows[k])))
    }

    constructor ()
      ensures Valid() && rows == map[]
    {
      rows := map[];
      nextId := 1;
    }

    function FindBookById(id: int, conn: Connection): (r: Outcome<Option<Book>>)
      reads this
      ensures conn.Failing? ==> r == Thrown(conn.message)
      ensures conn.Healthy? ==> r.Value? && (r.value.Some? <==> id in rows)
      ensures conn.Healthy? && r.value.Some? ==> r.value.value == rows[id]
    {
      if conn.Failing? then Thrown(conn.message)
      else if id in rows then Value(Some(rows[id]))
      else Value(None)
    }

    /** Inserts one row built from the DTO under a fresh id. */
    method AddBook(dto: CreateBookDto, conn: Connection) returns (r: Outcome<Book>)
      requires Valid() && ValidDto(dto)
      modifies this
      ensures Valid()
      ensures conn.Failing? ==> r == Thrown(conn.message) && rows == old(rows) && nextId == old(nextId)
      ensures conn.Healthy? ==>
                && r.Value? && r.value.id !in old(rows) && Fields(r.value) == dto
                && rows == old(rows)[r.value.id := r.value]
                && FindBookById(r.value.id, conn) == Value(Some(r.value))
      ensures conn.Healthy? ==> r.value.id == old(nextId) && nextId == old(nextId) + 1
    {
      if conn.Failing? {
        return Thrown(conn.message);
      }
      var book := Book(nextId, dto.title, dto.author, dto.description);
      rows := rows[nextId := book];
      nextId := nextId + 1;
      r := Value(book);
    }

    /** The whole table, in ascending id order. */
    function GetBooks(conn: Connection): (r: Outcome<seq<Book>>)
      reads this
      requires Valid()
      ensures conn.Failing? ==> r == Thrown(conn.message)
      ensures conn.Healthy? ==> r.Value? && forall b :: b in r.value <==> b.id in rows && rows[b.id] == b
      ensures conn.Healthy? ==> forall i, j :: 0 <= i < j < |r.value| ==> r.value[i].id < r.value[j].id
      ensures conn.Healthy? ==> (r.value == [] <==> rows == map[])
    {
      if conn.Failing? then Thrown(conn.message)
      else
        RowsFromExact(rows, 1, nextId);
        var list := RowsFrom(rows, 1, nextId);
        assert forall k :: k in rows ==> rows[k] in list;
        assert list == [] ==> rows.Keys == {};
        assert list != [] ==> list[0] in list && list[0].id in rows;
        Value(list)
    }

    /** Overwrites title, author and description of an existing row. */
    method UpdateBook(id: int, dto: CreateBookDto, conn: Connection) returns (r: Outcome<Book>)
      requires Valid() && ValidDto(dto)
      modifies this
      ensures Valid() && nextId == old(nextId)
      ensures conn.Failing? ==> r == Thrown(conn.message) && rows == old(rows)
      ensures conn.Healthy? && id !in old(rows) ==> r == Thrown(NotFoundMessage(id)) && rows == old(rows)
      ensures conn.Healthy? && id in old(rows) ==>
                && r == Value(Book(id, dto.title, dto.author, dto.description))
                && rows == old(rows)[id := r.value]
      ensures forall k :: k in old(rows) && k != id ==> k in rows && rows[k] == old(rows)[k]
    {
      var found := FindBookById(id, conn);
      if found.Thrown? {
        return Thrown(found.message);
      }
      if found.value.None? {
        return Thrown(NotFoundMessage(id));
      }
      var book := found.value.value.(title := dto.title, author := dto.author, description := dto.description);
      rows := rows[id := book];
      r := Value(book);
    }

    /** Deletes the row with the id; answers whether a row was affected. */
    method DeleteBook(id: int, conn: Connection) returns (r: Outcome<bool>)
      requires Valid()
      modifies this
      ensures Valid() && nextId == old(nextId)
      ensures conn.Failing? ==> r == Thrown(conn.message) && rows == old(rows)
      ensures conn.Healthy? ==> r == Value(id in old(rows)) && rows == old(rows) - {id}
      ensures conn.Healthy? ==> FindBookById(id, conn) == Value(None)
    {
      if conn.Failing? {
        return Thrown(conn.message);
      }
      var affected := if id in rows then 1 else 0;
      rows := rows - {id};
      if affected == 0 {
        return Value(false);
      }
      r := Value(true);
    }
  }
}
