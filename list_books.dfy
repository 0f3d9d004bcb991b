/** The pagination of the book list view (`ListBooks`): the page count, the books
    shown on the current page, the previous/next buttons, and the view state that
    `fetchBooks` refreshes. */
module Pagination {
  import opened Common
  import opened Books

  const ItemsPerPage: nat := 3

  /** `Math.ceil(count / itemsPerPage)` */
  function TotalPages(count: nat): (pages: nat)
    ensures count <= pages * ItemsPerPage
    ensures pages == 0 || (pages - 1) * ItemsPerPage < count
    ensures pages == 0 <==> count == 0
  {
    (count + ItemsPerPage - 1) / ItemsPerPage
  }

  /** Where `Array.prototype.slice` starts or stops for an index argument: a
      negative index counts from the end, and both are clamped to the array. */
  function RelativeIndex(i: int, length: nat): (k: nat)
    ensures k <= length
    ensures 0 <= i ==> k == Min(i, length)
  {
    if i < 0 then (if length + i < 0 then 0 else length + i)
    else if i < length then i
    else length
  }

  /** `s.slice(start, end)` */
  function Slice<T>(s: seq<T>, start: int, end: int): seq<T>
  {
    var from := RelativeIndex(start, |s|);
    var to := RelativeIndex(end, |s|);
    if from < to then s[from..to] else []
  }

  /** `currentBooks`: at most a page of books, those from index
      (page - 1) * itemsPerPage on, in list order; nothing on page 0. */
  function CurrentBooks<T>(books: seq<T>, page: nat): (shown: seq<T>)
    ensures |shown| <= ItemsPerPage
    ensures page == 0 ==> shown == []
    ensures page >= 1 ==> forall k :: 0 <= k < |shown| ==>
              (page - 1) * ItemsPerPage + k < |books| && shown[k] == books[(page - 1) * ItemsPerPage + k]
    ensures page >= 1 && (page - 1) * ItemsPerPage < |books| ==>
              |shown| == Min(ItemsPerPage, |books| - (page - 1) * ItemsPerPage)
    ensures |books| <= (page - 1) * ItemsPerPage ==> shown == []
  {
    Slice(books, (page - 1) * ItemsPerPage, page * ItemsPerPage)
  }

  /** `goToNextPage`: `Math.min(page + 1, totalPages)`. */
  function NextPage(page: nat, totalPages: nat): (next: nat)
    ensures next <= totalPages
    ensures next == page + 1 || next == totalPages
    ensures page < totalPages ==> next == page + 1
    ensures page == totalPages ==> next == page
  {
    if page + 1 <= totalPages then page + 1 else totalPages
  }

  /** `goToPreviousPage`: `Math.max(page - 1, 1)`. */
  function PreviousPage(page: nat): (previous: nat)
    ensures 1 <= previous
    ensures previous == page - 1 || previous == 1
    ensures 2 <= page ==> previous == page - 1
    ensures page == 1 ==> previous == page
  {
    if page - 1 >= 1 then page - 1 else 1
  }

  /** The books of pages 1 to `count`, one page after another. */
  function PagesUpTo<T>(books: seq<T>, count: nat): seq<T>
  {
    if count == 0 then [] else PagesUpTo(books, count - 1) + CurrentBooks(books, count)
  }

  lemma {:induction false} PagesUpToIsPrefix<T>(books: seq<T>, count: nat)
    ensures PagesUpTo(books, count) == books[..Min(count * ItemsPerPage, |books|)]
  {
    if count > 0 {
      PagesUpToIsPrefix(books, count - 1);
      var lo := Min((count - 1) * ItemsPerPage, |books|);
      var hi := Min(count * ItemsPerPage, |books|);
      assert CurrentBooks(books, count) == books[lo..hi];
      assert books[..lo] + books[lo..hi] == books[..hi];
    }
  }

  /** Pages 1 to `totalPages` together show every book exactly once, in order. */
  lemma AllPagesRebuildList<T>(books: seq<T>)
    ensures PagesUpTo(books, TotalPages(|books|)) == books
  {
    PagesUpToIsPrefix(books, TotalPages(|books|));
  }

  /** A page past the last one shows nothing. */
  lemma PageBeyondLastIsEmpty<T>(books: seq<T>, page: nat)
    requires page > TotalPages(|books|)
    ensures CurrentBooks(books, page) == []
  {
  }

  /** With no books there are no pages, so Next from page 1 goes to page 0: the
      clamp does not keep the page at 1 or above. */
  lemma NextOnEmptyListLeavesRange()
    ensures TotalPages(0) == 0 && NextPage(1, TotalPages(0)) == 0
  {
  }

  /** After the list shrinks under the current page, that page lies beyond the
      last one and shows nothing. */
  lemma StalePageShowsNothing<T>(after: seq<T>, page: nat)
    requires 1 <= page
    requires |after| <= (page - 1) * ItemsPerPage
    ensures TotalPages(|after|) < page && CurrentBooks(after, page) == []
  {
  }

  /** The list view's state: the books last fetched, the page, and the loading and
      error indicators. */
  class ListBooksView {
    var books: seq<Book>
    var currentPage: nat
    var loading: bool
    var error: Option<string>

    constructor ()
      ensures books == [] && currentPage == 1 && loading && error == None
    {
      books := [];
      currentPage := 1;
      loading := true;
      error := None;
    }

    function TotalPagesNow(): nat
      reads this
    {
      TotalPages(|books|)
    }

    function Shown(): seq<Book>
      reads this
    {
      CurrentBooks(books, currentPage)
    }

    /** `fetchBooks` once the list request answered: a 200 replaces the list,
        anything else keeps it and records the message; the page stays as it was. */
    method FetchBooks(statusCode: int, data: seq<Book>, message: string)
      modifies this
      ensures currentPage == old(currentPage) && !loading
      ensures statusCode == 200 ==> books == data && error == None
      ensures statusCode != 200 ==> books == old(books) && error == Some(message)
    {
      if statusCode == 200 {
        books := data;
        error := None;
      } else {
        error := Some(message);
      }
      loading := false;
    }

    method GoToNextPage()
      modifies this`currentPage
      ensures currentPage == NextPage(old(currentPage), TotalPagesNow())
    {
      currentPage := NextPage(currentPage, TotalPages(|books|));
    }

    method GoToPreviousPage()
      modifies this`currentPage
      ensures currentPage == PreviousPage(old(currentPage))
    {
      currentPage := PreviousPage(currentPage);
    }
  }

  /** Deleting the only book of page 2 out of four: the refetched list has one
      page, the view stays on page 2 and shows nothing. */
  method DeleteLastBookOfLastPage(view: ListBooksView, a: Book, b: Book, c: Book, d: Book)
    requires view.books == [a, b, c, d] && view.currentPage == 2
    modifies view
    ensures view.currentPage == 2 && view.TotalPagesNow() == 1 && view.Shown() == []
  {
    assert view.Shown() == [d];
    view.FetchBooks(200, [a, b, c], "Books retrieved successfully");
  }
}
