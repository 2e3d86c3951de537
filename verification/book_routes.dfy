/**
 * The in-memory book list of src/books/routes.py: a module-level list of records that
 * the handlers read, append to, update in place and remove from while iterating over it.
 * The list is a field of a class; each record is a value of the `BookModel` shape, so a
 * handler's returned record does not alias the list's.
 */
module BookRoutes {
  import opened Wrappers
  import opened Errors

  /** The fields of `BookModel`. */
  datatype Book = Book(id: int, title: string, author: string, publisher: string,
                       publishedDate: string, pageCount: int, language: string)

  /** The fields of `BookUpdateModel`; its `id` is never written to a record. */
  datatype BookUpdate = BookUpdate(id: int, title: string, author: string, publisher: string,
                                   publishedDate: string, pageCount: int, language: string)

  function DigitChar(d: nat): char
    requires d < 10
  {
    ('0' as int + d) as char
  }

  function NatString(n: nat): string
    decreases n
  {
    if n < 10 then [DigitChar(n)] else NatString(n / 10) + [DigitChar(n % 10)]
  }

  /** Python's `str` of an int. */
  function IntString(n: int): string {
    if n < 0 then "-" + NatString(-n) else NatString(n)
  }

  function CantFindBook(bookId: int): string {
    "Cant find book with an id of " + IntString(bookId)
  }

  /** The position the `for` loop of `get_book` and `update_book` stops at: the first record with the id. */
  function FirstMatch(books: seq<Book>, bookId: int): (r: Option<nat>)
    ensures r.Some? ==> r.value < |books| && books[r.value].id == bookId
    ensures r.Some? ==> forall j :: 0 <= j < r.value ==> books[j].id != bookId
    ensures r.None? ==> forall j :: 0 <= j < |books| ==> books[j].id != bookId
  {
    if books == [] then None
    else if books[0].id == bookId then Some(0)
    else match FirstMatch(books[1..], bookId)
      case None => None
      case Some(k) => Some(k + 1)
  }

  /** `list.remove(x)`: drops the first element equal to `x`. */
  function RemoveFirst(s: seq<Book>, x: Book): (r: seq<Book>)
    requires x in s
    ensures |r| == |s| - 1
    ensures multiset(r) == multiset(s) - multiset{x}
  {
    assert s == [s[0]] + s[1..];
    if s[0] == x then
      s[1..]
    else
      [s[0]] + RemoveFirst(s[1..], x)
  }

  /**
   * What `for book in books: if book["id"] == book_id: books.remove(book)` leaves, with
   * the list iterator at position `i`: the iterator reads `s[i]` and advances, and a
   * removal shifts the rest of the list one place left under it.
   */
  function RemoveWhileIterating(s: seq<Book>, i: nat, bookId: int): (r: seq<Book>)
    decreases |s| - i
  {
    if i >= |s| then s
    else if s[i].id == bookId then RemoveWhileIterating(RemoveFirst(s, s[i]), i + 1, bookId)
    else RemoveWhileIterating(s, i + 1, bookId)
  }

  /** The records whose id is not `bookId`, in order. */
  function Others(s: seq<Book>, bookId: int): (r: seq<Book>) {
    if s == [] then [] else (if s[0].id == bookId then [] else [s[0]]) + Others(s[1..], bookId)
  }

  lemma {:induction false} OthersOfConcat(a: seq<Book>, b: seq<Book>, bookId: int)
    ensures Others(a + b, bookId) == Others(a, bookId) + Others(b, bookId)
  {
    if a == [] {
      assert a + b == b;
    } else {
      assert (a + b)[0] == a[0];
      assert (a + b)[1..] == a[1..] + b;
      OthersOfConcat(a[1..], b, bookId);
    }
  }

  lemma {:induction false} RemoveFirstKeepsOthers(s: seq<Book>, x: Book, bookId: int)
    requires x in s && x.id == bookId
    ensures Others(RemoveFirst(s, x), bookId) == Others(s, bookId)
  {
    if s[0] != x {
      RemoveFirstKeepsOthers(s[1..], x, bookId);
      OthersOfConcat([s[0]], s[1..], bookId);
      OthersOfConcat([s[0]], RemoveFirst(s[1..], x), bookId);
      assert s == [s[0]] + s[1..];
    }
  }

  /** Deleting never touches a record with another id, nor their order. */
  lemma {:induction false} DeleteKeepsOtherRecords(s: seq<Book>, i: nat, bookId: int)
    ensures Others(RemoveWhileIterating(s, i, bookId), bookId) == Others(s, bookId)
    decreases |s| - i
  {
    if i < |s| {
      if s[i].id == bookId {
        assert s[i] in s;
        RemoveFirstKeepsOthers(s, s[i], bookId);
        DeleteKeepsOtherRecords(RemoveFirst(s, s[i]), i + 1, bookId);
      } else {
        DeleteKeepsOtherRecords(s, i + 1, bookId);
      }
    }
  }

  /** When `s[i]` has no equal before it, `remove` takes out position `i`. */
  lemma {:induction false} RemoveFirstAt(s: seq<Book>, i: nat)
    requires i < |s|
    requires forall j :: 0 <= j < i ==> s[j] != s[i]
    ensures s[i] in s
    ensures forall j :: 0 <= j < i ==> RemoveFirst(s, s[i])[j] == s[j]
    ensures forall j :: i <= j < |s| - 1 ==> RemoveFirst(s, s[i])[j] == s[j + 1]
  {
    assert s[i] in s;
    if i > 0 {
      var x := s[i];
      var tail := s[1..];
      assert tail[i - 1] == x;
      forall j | 0 <= j < i - 1 ensures tail[j] != tail[i - 1] {
        assert tail[j] == s[j + 1];
      }
      RemoveFirstAt(tail, i - 1);
      var rest := RemoveFirst(tail, x);
      assert RemoveFirst(s, x) == [s[0]] + rest;
    }
  }

  lemma {:induction false} NoMatchLeavesList(s: seq<Book>, i: nat, bookId: int)
    requires forall j :: i <= j < |s| ==> s[j].id != bookId
    ensures RemoveWhileIterating(s, i, bookId) == s
    decreases |s| - i
  {
    if i < |s| {
      NoMatchLeavesList(s, i + 1, bookId);
    }
  }

  /** With at most one record carrying the id, deleting leaves none. */
  lemma {:induction false} DeleteRemovesUniqueId(s: seq<Book>, i: nat, bookId: int)
    requires i <= |s|
    requires forall j :: 0 <= j < i ==> s[j].id != bookId
    requires forall j, k :: i <= j < k < |s| ==> !(s[j].id == bookId && s[k].id == bookId)
    ensures forall b :: b in RemoveWhileIterating(s, i, bookId) ==> b.id != bookId
    decreases |s| - i
  {
    if i == |s| {
      assert forall b :: b in s ==> b.id != bookId by {
        forall b | b in s ensures b.id != bookId {
          var j :| 0 <= j < |s| && s[j] == b;
        }
      }
    } else if s[i].id == bookId {
      forall j | 0 <= j < i ensures s[j] != s[i] {
        assert s[j].id != bookId;
      }
      RemoveFirstAt(s, i);
      var t := RemoveFirst(s, s[i]);
      assert forall j :: 0 <= j < |t| ==> t[j].id != bookId by {
        forall j | 0 <= j < |t| ensures t[j].id != bookId {
          if j >= i {
            assert t[j] == s[j + 1];
          } else {
            assert t[j] == s[j];
          }
        }
      }
      NoMatchLeavesList(t, i + 1, bookId);
      forall b | b in t ensures b.id != bookId {
        var j :| 0 <= j < |t| && t[j] == b;
      }
    } else {
      DeleteRemovesUniqueId(s, i + 1, bookId);
    }
  }

  /** Two records with the same id side by side: deleting skips the second one. */
  lemma AdjacentDuplicateSurvives(first: Book, second: Book)
    requires first.id == second.id
    ensures RemoveWhileIterating([first, second], 0, first.id) == [second]
  {
    assert RemoveFirst([first, second], first) == [second];
  }

  /** The module-level `books` list. */
  class BookList {
    var books: seq<Book>

    constructor (initial: seq<Book>)
      ensures books == initial
    {
      books := initial;
    }

    /** `get_all_books`: the list as it stands. */
    method GetAllBooks() returns (r: seq<Book>)
      ensures r == books
    {
      r := books;
    }

    /** `create_a_book`: appends the record as given, without looking for its id. */
    method CreateABook(bookData: Book) returns (r: Book)
      modifies this
      ensures books == old(books) + [bookData]
      ensures r == bookData
    {
      books := books + [bookData];
      r := bookData;
    }

    /** `get_book`: the first record with the id, or 404. */
    method GetBook(bookId: int) returns (r: Result<Book, AppError>)
      ensures FirstMatch(books, bookId).Some? ==> r == Ok(books[FirstMatch(books, bookId).value])
      ensures FirstMatch(books, bookId).None? ==> r == Err(HttpError(HTTP_404_NOT_FOUND, CantFindBook(bookId)))
    {
      var i := 0;
      while i < |books|
        invariant 0 <= i <= |books|
        invariant forall j :: 0 <= j < i ==> books[j].id != bookId
      {
        if books[i].id == bookId {
          return Ok(books[i]);
        }
        i := i + 1;
      }
      r := Err(HttpError(HTTP_404_NOT_FOUND, CantFindBook(bookId)));
    }

    /**
     * `update_book`: the first record with the id gets the six fields of the update and
     * keeps its id; no other record changes. An absent id is 404 and changes nothing.
     */
    method UpdateBook(bookId: int, bookUpdateData: BookUpdate) returns (r: Result<Book, AppError>)
      modifies this
      ensures |books| == |old(books)|
      ensures FirstMatch(old(books), bookId).None? ==>
        r == Err(HttpError(HTTP_404_NOT_FOUND, CantFindBook(bookId))) && books == old(books)
      ensures FirstMatch(old(books), bookId).Some? ==>
        var k := FirstMatch(old(books), bookId).value;
        && books[k] == Book(bookId, bookUpdateData.title, bookUpdateData.author, bookUpdateData.publisher,
                             bookUpdateData.publishedDate, bookUpdateData.pageCount, bookUpdateData.language)
        && (forall j :: 0 <= j < |books| && j != k ==> books[j] == old(books)[j])
        && r == Ok(books[k])
    {
      var i := 0;
      while i < |books|
        invariant 0 <= i <= |books|
        invariant books == old(books)
        invariant forall j :: 0 <= j < i ==> books[j].id != bookId
      {
        if books[i].id == bookId {
          var book := books[i];
          book := book.(title := bookUpdateData.title);
          book := book.(author := bookUpdateData.author);
          book := book.(publisher := bookUpdateData.publisher);
          book := book.(publishedDate := bookUpdateData.publishedDate);
          book := book.(pageCount := bookUpdateData.pageCount);
          book := book.(language := bookUpdateData.language);
          books := books[i := book];
          return Ok(book);
        }
        i := i + 1;
      }
      r := Err(HttpError(HTTP_404_NOT_FOUND, CantFindBook(bookId)));
    }

    /**
     * `delete_book`: removes records while iterating the list, then raises 404 whether or
     * not anything was removed; it never returns success.
     */
    method DeleteBook(bookId: int) returns (r: Result<(), AppError>)
      modifies this
      ensures books == RemoveWhileIterating(old(books), 0, bookId)
      ensures r == Err(HttpError(HTTP_404_NOT_FOUND, CantFindBook(bookId)))
    {
      var i := 0;
      while i < |books|
        invariant RemoveWhileIterating(books, i, bookId) == RemoveWhileIterating(old(books), 0, bookId)
        decreases |books| - i
      {
        var book := books[i];
        i := i + 1;
        if book.id == bookId {
          assert book in books;
          books := RemoveFirst(books, book);
        }
      }
      r := Err(HttpError(HTTP_404_NOT_FOUND, CantFindBook(bookId)));
    }
  }
}
