# Books minimal API — a Dafny model

The service keeps books (an id and a title) in an in-memory repository and
exposes them over five HTTP routes. This project models:

- **`Books`** (`books.dfy`): the `Book` record as an immutable value, `Guid` as a
  128-bit number, the canonical lower-case `8-4-4-4-12` text of a `Guid` (used in
  the `Location` header of a created book), and the title check
  `string.IsNullOrWhiteSpace` with `char.IsWhiteSpace`'s set of white-space
  characters. A C# `null` is `Option.None`.
- **`Repository`** (`repository.dfy`): the class `BookRepository`, whose private
  dictionary is the field `books: map<Guid, Book>`. `Create`, `Update` and
  `Delete` change it in place (`modifies this`); `GetById` is a function that
  reads it; `GetAll` enumerates it. The object invariant `Valid()` says that every
  stored book sits under its own id; the constructor establishes it and every
  method preserves it.
- **`Endpoints`** (`endpoints.dfy`): the five route handlers, each taking the
  repository and returning one of the `Results.*` values (`Ok`, `Created`,
  `NotFound`, `StatusCode`), with the status code each one is sent with. GET
  /books returns the `List<Book>` itself, which the framework sends with 200;
  the model writes that as `Ok(BookList(..))`.

The `is null` guard in `Update` (Program.cs:101-104) reads like a silent no-op
for an unknown id. The indexer read it guards throws `KeyNotFoundException`
first, and stored books are never null, so the model requires the id to be
present. The PUT handler checks with `GetById` first (Program.cs:45), so through
the HTTP surface an unknown id yields 404 and no change, which
`Endpoints.UpdateBook` proves.

`Guid.NewGuid()` is replaced by a caller-supplied `freshId`. `Dictionary.Add`
throws on a key that is already present, so `Create` requires `freshId` to be
absent whenever the title is accepted.

## Model

| member | source | states |
|---|---|---|
| `Books.AllWhiteSpace` | notes.minimalApi/notes.minimalApi/Program.cs:89 | true exactly when every character of the title is white space in `char.IsWhiteSpace`'s sense |
| `Books.IsNullOrWhiteSpace` | notes.minimalApi/notes.minimalApi/Program.cs:89 | a null title, the empty title, and a title made only of white space are rejected; any title with one other character is accepted |
| `Books.FormatGuid` | notes.minimalApi/notes.minimalApi/Program.cs:39 | the text of a Guid is 36 characters: hyphens at positions 8, 13, 18 and 23 and lower-case hexadecimal digits everywhere else |
| `Books.HexRoundTrip` | notes.minimalApi/notes.minimalApi/Program.cs:39 | reading back the digits written for a number below 16^width gives that number |
| `Books.ParseFormatGuid` | notes.minimalApi/notes.minimalApi/Program.cs:39 | removing the hyphens from a Guid's text and reading the digits gives back the Guid |
| `Books.FormatGuidInjective` | notes.minimalApi/notes.minimalApi/Program.cs:39 | two Guids with the same text are the same Guid |
| `Repository.BookRepository.constructor` | notes.minimalApi/notes.minimalApi/Program.cs:85 | a new repository is empty, so the invariant "each book is stored under its own id" holds |
| `Repository.BookRepository.Create` | notes.minimalApi/notes.minimalApi/Program.cs:87-97 | a null or blank title returns null and leaves the table unchanged; otherwise it returns the book with the fresh id and the title, the table gains exactly that entry, its size grows by one, every other lookup is unchanged and the invariant is kept |
| `Repository.BookRepository.Update` | notes.minimalApi/notes.minimalApi/Program.cs:99-106 | for an id that is present, the entry under the book's id becomes the given book; the set of keys and the size are unchanged, every other lookup is unchanged and the invariant is kept |
| `Repository.BookRepository.Delete` | notes.minimalApi/notes.minimalApi/Program.cs:108-111 | afterwards the id is absent; an absent id leaves the table unchanged, a present one shrinks it by one; every other lookup is unchanged and the invariant is kept |
| `Repository.BookRepository.GetById` | notes.minimalApi/notes.minimalApi/Program.cs:113-116 | returns a book exactly when the id is a key, and then the stored book, whose own id is the key asked for; it reads the table and changes nothing |
| `Repository.BookRepository.GetAll` | notes.minimalApi/notes.minimalApi/Program.cs:118-121 | returns as many books as there are keys, every one of them stored under its own id, every stored book among them, and no book twice |
| `Endpoints.BookLocationNamesBook` | notes.minimalApi/notes.minimalApi/Program.cs:39 | the location of a created book is `/books/` followed by its Guid's text, and two books get the same location only if they have the same id |
| `Endpoints.GetAllBooks` | notes.minimalApi/notes.minimalApi/Program.cs:24-27 | GET /books answers 200 with a list as long as the table, holding every stored book, each under its own id, and no book twice |
| `Endpoints.GetBook` | notes.minimalApi/notes.minimalApi/Program.cs:29-34 | GET /books/{id} answers 200 with the stored book when the id is a key and 404 exactly when it is not |
| `Endpoints.CreateBook` | notes.minimalApi/notes.minimalApi/Program.cs:36-41 | POST /books answers 500 and stores nothing for a null or blank title; otherwise 201 with location `/books/{id}` and the new book, which GET then finds |
| `Endpoints.UpdateBook` | notes.minimalApi/notes.minimalApi/Program.cs:43-53 | PUT /book answers 404 and changes nothing exactly when the id is unknown; otherwise it replaces the stored book and answers 200 with the given book |
| `Endpoints.DeleteBook` | notes.minimalApi/notes.minimalApi/Program.cs:55-59 | DELETE /book/{id} removes the entry if there is one and always answers 200 |
| `Endpoints.DuneLifecycle` | notes.minimalApi/notes.minimalApi/Program.cs:29-59 | creating "Dune" answers 201 and GET then finds the title "Dune"; renaming and deleting answer 200; after the delete GET and PUT answer 404 and a second delete still 200; a blank title answers 500 |

## Left out

- Repository.BookRepository.Update: the `KeyNotFoundException` thrown by the
  indexer read on an absent key (Program.cs:101) is not modelled as an error
  result; it becomes the precondition `book.id in books`, which the only caller,
  the PUT handler, establishes by checking first (Program.cs:45).
- Hosting and the request pipeline (builder, service registration, Swagger,
  HTTPS redirection, `app.Run`): framework set-up with no behaviour of its own.
- The `/healthz` route: answered by the framework's health-check middleware,
  which is not part of this model.
- JSON and route binding of `Guid`, `string` and `Book`, including a PUT body
  that binds to a null book or a book with a null title: done by the framework.
  A book's title is therefore a plain string.
- The randomness of `Guid.NewGuid()`: the id is a parameter, required to be fresh.
- Concurrency: the singleton dictionary is used without synchronisation by a
  multi-threaded server; the model is sequential.
- Aliasing of the mutable `Book` class (settable `Id` and `Title`): books are
  immutable values here, so a caller cannot change a stored book behind the
  repository's back.
- `Repository.BookRepository.GetAll`: the order of `Dictionary.Values` is
  unspecified, so the contract says which books come back and that each comes
  once, not in which order; the keys are taken in an arbitrary order.
