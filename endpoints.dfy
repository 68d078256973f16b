/** The five book routes: each calls the repository and turns what it answers
    into an HTTP result. */
module Endpoints {
  import opened Books
  import opened Repository

  /** The body an `Ok` result carries: nothing, one book, or a list of books. */
  datatype Payload = NoContent | OneBook(book: Book) | BookList(books: seq<Book>)

  /** The `Results.*` values the handlers return. GET /books returns the
      `List<Book>` itself, which the framework sends with status 200; here that is
      `Ok(BookList(..))`. */
  datatype HttpResult =
    | Ok(payload: Payload)
    | Created(location: string, book: Book)
    | NotFound
    | StatusCode(code: int)

  /** The HTTP status code a result is sent with. */
  function Status(r: HttpResult): int {
    match r
    case Ok(_) => 200
    case Created(_, _) => 201
    case NotFound => 404
    case StatusCode(code) => code
  }

  /** The `Location` header of a created book: `/books/{id}`. */
  function BookLocation(id: Guid): string {
    "/books/" + FormatGuid(id)
  }

  /** Each book gets a location of its own, which names it by its canonical text. */
  lemma BookLocationNamesBook(a: Guid, b: Guid)
    ensures |BookLocation(a)| == 43 && BookLocation(a)[..7] == "/books/"
    ensures BookLocation(a)[7..] == FormatGuid(a)
    ensures BookLocation(a) == BookLocation(b) <==> a == b
  {
    if BookLocation(a) == BookLocation(b) {
      assert FormatGuid(a) == BookLocation(a)[7..] == BookLocation(b)[7..] == FormatGuid(b);
      FormatGuidInjective(a, b);
    }
  }

  /** GET /books: every stored book, each once, with status 200. */
  method GetAllBooks(repo: BookRepository) returns (r: HttpResult)
    requires repo.Valid()
    ensures r.Ok? && r.payload.BookList?
    ensures |r.payload.books| == |repo.books|
    ensures forall b | b in r.payload.books :: repo.GetById(b.id) == Some(b)
    ensures forall id | id in repo.books :: repo.books[id] in r.payload.books
    ensures forall i, j | 0 <= i < j < |r.payload.books| :: r.payload.books[i] != r.payload.books[j]
  {
    var all := repo.GetAll();
    r := Ok(BookList(all));
  }

  /** GET /books/{id}: the book with status 200, or 404 when the id is unknown. */
  function GetBook(repo: BookRepository, id: Guid): (r: HttpResult)
    reads repo
    ensures r == NotFound <==> id !in repo.books
    ensures Status(r) == 200 <==> id in repo.books
    ensures r != NotFound ==> r == Ok(OneBook(repo.books[id]))
  {
    var book := repo.GetById(id);
    if book.Some? then Ok(OneBook(book.value)) else NotFound
  }

  /** POST /books: 201 with the new book and its location, or 500 when the title is
      null or blank, in which case nothing is stored. */
  method CreateBook(repo: BookRepository, title: Option<string>, freshId: Guid) returns (r: HttpResult)
    requires repo.Valid()
    requires !IsNullOrWhiteSpace(title) ==> freshId !in repo.books
    modifies repo
    ensures repo.Valid()
    ensures Status(r) == if IsNullOrWhiteSpace(title) then 500 else 201
    ensures IsNullOrWhiteSpace(title) ==> r == StatusCode(500) && repo.books == old(repo.books)
    ensures !IsNullOrWhiteSpace(title) ==> r == Created(BookLocation(freshId), Book(freshId, title.value))
    ensures r.Created? ==> repo.books == old(repo.books)[freshId := r.book]
    ensures r.Created? ==> GetBook(repo, freshId) == Ok(OneBook(r.book))
  {
    var book := repo.Create(title, freshId);
    if book.Some? {
      r := Created(BookLocation(book.value.id), book.value);
    } else {
      r := StatusCode(500);
    }
  }

  /** PUT /book: 404 and no change when the id is unknown; otherwise the stored
      book is replaced and the given book returned with status 200. */
  method UpdateBook(repo: BookRepository, book: Book) returns (r: HttpResult)
    requires repo.Valid()
    modifies repo
    ensures repo.Valid()
    ensures r == NotFound <==> book.id !in old(repo.books)
    ensures r == NotFound ==> repo.books == old(repo.books)
    ensures r != NotFound ==> r == Ok(OneBook(book)) && repo.books == old(repo.books)[book.id := book]
  {
    if repo.GetById(book.id).None? {
      return NotFound;
    }
    repo.Update(book);
    r := Ok(OneBook(book));
  }

  /** DELETE /book/{id}: removes the book if there is one; always 200. */
  method DeleteBook(repo: BookRepository, id: Guid) returns (r: HttpResult)
    requires repo.Valid()
    modifies repo
    ensures repo.Valid()
    ensures r == Ok(NoContent)
    ensures repo.books == old(repo.books) - {id}
  {
    repo.Delete(id);
    r := Ok(NoContent);
  }

  /** A client of the routes: create "Dune", read it back, rename it, delete it,
      then read, rename and delete it again; and try a blank title. */
  method DuneLifecycle(id: Guid, other: Guid) returns (codes: seq<int>, title: string, blank: HttpResult)
    ensures codes == [201, 200, 200, 200, 404, 404, 200]
    ensures title == "Dune"
    ensures blank == StatusCode(500)
  {
    var repo := new BookRepository();
    assert !IsWhiteSpace("Dune"[0]);
    var created := CreateBook(repo, Some("Dune"), id);
    var found := GetBook(repo, id);
    title := found.payload.book.title;
    var renamed := UpdateBook(repo, Book(id, "Dune Messiah"));
    var deleted := DeleteBook(repo, id);
    var gone := GetBook(repo, id);
    var stale := UpdateBook(repo, Book(id, "Children of Dune"));
    var again := DeleteBook(repo, id);
    codes := [Status(created), Status(found), Status(renamed), Status(deleted),
              Status(gone), Status(stale), Status(again)];
    blank := CreateBook(repo, Some(" \t"), other);
  }
}
