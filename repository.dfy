/** The in-memory book repository: a table from Guid to Book that `Create`,
    `Update` and `Delete` change in place and `GetById` and `GetAll` read. */
module Repository {
  import opened Books

  class BookRepository {
    /** The private dictionary `_books`. */
    var books: map<Guid, Book>

    /** Every stored book sits under its own id. */
    ghost predicate Valid()
      reads this
    {
      forall id | id in books :: books[id].id == id
    }

    /** A new repository holds no books. */
    constructor ()
      ensures Valid()
      ensures books == map[]
    {
      books := map[];
    }

    /** Rejects a null or blank title; otherwise stores and returns a new book under
        `freshId`, which stands for the value `Guid.NewGuid()` draws. Adding an id
        that is already a key would throw, so a fresh id is demanded. */
    method Create(title: Option<string>, freshId: Guid) returns (book: Option<Book>)
      requires Valid()
      requires !IsNullOrWhiteSpace(title) ==> freshId !in books
      modifies this
      ensures Valid()
      ensures book.None? <==> IsNullOrWhiteSpace(title)
      ensures book.None? ==> books == old(books)
      ensures book.Some? ==> book.value == Book(freshId, title.value)
      ensures book.Some? ==> books == old(books)[freshId := book.value]
      ensures book.Some? ==> freshId !in old(books) && |books| == |old(books)| + 1
      ensures forall id | id != freshId :: GetById(id) == old(GetById(id))
    {
      if IsNullOrWhiteSpace(title) {
        return None;
      }
      var b := Book(freshId, title.value);
      books := books[freshId := b];
      assert books.Keys == old(books).Keys + {freshId};
      book := Some(b);
    }

    /** Replaces the stored book that has the same id. Reading an absent key
        throws, so the id must be present; the PUT handler checks this first. */
    method Update(book: Book)
      requires Valid()
      requires book.id in books
      modifies this
      ensures Valid()
      ensures books == old(books)[book.id := book]
      ensures books.Keys == old(books).Keys && |books| == |old(books)|
      ensures GetById(book.id) == Some(book)
      ensures forall id | id != book.id :: GetById(id) == old(GetById(id))
    {
      books := books[book.id := book];
      assert books.Keys == old(books).Keys;
    }

    /** Removes the entry under `id`, if any; an absent id is not an error. */
    method Delete(id: Guid)
      requires Valid()
      modifies this
      ensures Valid()
      ensures books == old(books) - {id}
      ensures GetById(id) == None
      ensures id !in old(books) ==> books == old(books)
      ensures id in old(books) ==> |books| == |old(books)| - 1
      ensures forall other | other != id :: GetById(other) == old(GetById(other))
    {
      books := books - {id};
      assert books.Keys == old(books).Keys - {id};
    }

    /** The stored book under `id`, or null when there is none. */
    function GetById(id: Guid): (r: Option<Book>)
      reads this
      ensures r.Some? <==> id in books
      ensures r.Some? ==> r.value == books[id]
      ensures Valid() && r.Some? ==> r.value.id == id
    {
      if id in books then Some(books[id]) else None
    }

    /** All stored books, each once, in the dictionary's enumeration order, which
        is left unspecified: keys are taken in an arbitrary order. */
    method GetAll() returns (all: seq<Book>)
      requires Valid()
      ensures |all| == |books|
      ensures forall i | 0 <= i < |all| :: all[i].id in books && books[all[i].id] == all[i]
      ensures forall id | id in books :: books[id] in all
      ensures forall i, j | 0 <= i < j < |all| :: all[i] != all[j]
    {
      all := [];
      var rest := books.Keys;
      while rest != {}
        invariant rest <= books.Keys
        invariant |all| + |rest| == |books|
        invariant forall i | 0 <= i < |all| :: all[i].id in books - rest && books[all[i].id] == all[i]
        invariant forall id | id in books && id !in rest :: books[id] in all
        invariant forall i, j | 0 <= i < j < |all| :: all[i] != all[j]
        decreases rest
      {
        var id :| id in rest;
        all := all + [books[id]];
        rest := rest - {id};
      }
    }
  }
}
