# Livros: a verified model of an in-memory book service

The modelled program is a small HTTP service that keeps a collection of books
(`Livro`: id, title `titulo`, author `autor`) in a process-wide slice that
starts with five seeded records. A single handler, `rotearLivros`, serves
`/livros` and everything under `/livros/`. It splits the path on `/`, decides
by the number of segments whether the request is about the collection or
about one record, and dispatches on the HTTP method:
- list (status 201);
- create (id = current length + 1, appended last);
- find by id (first match);
- delete by id (order-preserving removal);
- replace by id (the whole record, id included, is overwritten);
- a bare status code.

The model has seven modules:

- `Wrappers` (wrappers.dfy): the `Option` type.
- `Text` (text.dfy): the two library operations the program relies on.
  - `strings.Split` with a one-character separator, with both round trips against `Join`.
  - `strconv.Atoi` as "optional sign, then one or more ASCII digits", with a round trip against a decimal rendering.
- `Books` (books.dfy): the record, the seed, the first-match lookup `IndexOf`, insertion `Admit` and removal `Spliced`. It also holds the id invariants: positional ids survive insertions, and ids repeat after a deletion.
- `Router` (router.dfy): the response, request and body values, the path classification `Classify` (keeping Go's `&&`-over-`||` precedence), the method switch `Dispatch`, and `Route`. `PathLevel` is an independent reading of the same decision on the raw path text.
- `Service` (service.dfy): each handler as a pure function of the collection before the request. `Handle` covers one whole request. Its result is the new collection and the response, or `IndexOutOfRange` for the panic of reading a path segment that is not there.
- `Store` (store.dfy): the program's own shape. `BookStore` is a class with the mutable field `livros: seq<Livro>`. Its handler methods mutate it in place. They run the program's `for … range` scans as `while` loops: the scan with `break` that records an index (`Locate`), and the scan that answers from inside the loop (`HandleFind`). Each method is proved to compute exactly the matching `Service` function, and `Serve` does the same for `Handle`.
- `Scenarios` (scenarios.dfy): what `Handle` does on every collection-level and record-level path, then concrete request sequences on the seeded collection, stated through `Handle` and, for one sequence, through a running `BookStore`. It also shows that an update can duplicate an id.

The request body is given as its outcome after reading and decoding (`Unreadable`, `Malformed` or `Decoded(livro)`). A response is a status code plus a payload: nothing, one book, all books, or the text of the standard not-found page.

## Model

| member | source | states |
|---|---|---|
| `Text.Split` | main.go:93 | every piece of a split path is free of `/` and there is at least one piece (library `strings.Split` behaviour) |
| `Text.JoinOfSplit` | main.go:93 | joining the pieces of a split with `/` gives back the original path, so no character is lost or invented |
| `Text.SplitOfJoin` | main.go:93 | `/`-free pieces are recovered exactly from their join, so a segment list determines its path and vice versa |
| `Text.SplitAtSeparator` | main.go:93 | splitting `a + "/" + b` gives the pieces of `a` followed by the pieces of `b` |
| `Text.Atoi` | main.go:64-68 | a successful parse comes from a string of digits with at most a leading sign and at least one digit; an unsigned parse is non-negative. Conversely, every non-empty digit string, alone or after `+` or `-`, parses to its decimal value with that sign, leading zeros included |
| `Text.AtoiItoa` | main.go:129-133 | every integer written in decimal is parsed back to itself |
| `Books.Seed` | main.go:21-27 | the initial collection has five books whose ids are their positions 1..5 |
| `Books.IndexOf` | main.go:71-77 | the result is -1 exactly when no book has the id; otherwise it is the first position with that id, and no earlier book has it |
| `Books.Spliced` | main.go:85 | removal shortens the collection by one; books before the index stay in place and books after it move down by one, keeping their order |
| `Books.SplicedDropsOne` | main.go:85 | removal takes out exactly one copy of the removed book (multiset difference) |
| `Books.AdmitAppends` | main.go:49-50 | insertion appends one book carrying id old length + 1 and the candidate's title and author, and leaves every earlier book unchanged |
| `Books.AdmitKeepsIdsSequential` | main.go:49-50 | insertion preserves "every book's id is its one-based position", whatever id the candidate carried |
| `Books.SequentialIdsAreUnique` | main.go:21-27 | positional ids are pairwise distinct |
| `Books.OnlyInsertionsKeepIdsUnique` | main.go:49-50 | after any run of insertions on a positional collection, ids are still positional and unique and the length grew by the number of insertions |
| `Books.UniqueIdIsFound` | main.go:136-141 | when ids are unique, the first-match lookup of a book's id finds that very book |
| `Books.DeleteThenInsertRepeatsId` | main.go:49-85 | the seed without book 1, plus one inserted book, has ids 2,3,4,5,5: the assigned id collides and ids are no longer unique |
| `Router.ClassifyByPath` | main.go:95-119 | for "/livros" and every "/livros/"+t, segment classification agrees with `PathLevel(t)`. Nothing after the resource name is the collection. One non-empty segment, with or without a trailing slash, is a record, and so is a lone trailing slash after an empty segment. Anything else is no route |
| `Router.RouteByPath` | main.go:93-119 | the router's action on "/livros" is the collection-level switch, and on "/livros/"+t it is the switch of `PathLevel(t)` |
| `Router.IdSegmentMissingOnlyOnCollectionPut` | main.go:95-113 | a handler that reads segment 2 (find or update) is reached with fewer than three segments exactly when the method is PUT and the path has two segments |
| `Router.CollectionPutHasNoId` | main.go:144-149 | PUT on "/livros" reaches the update handler with only two segments; on "/livros/" segment 2 exists, is empty, and does not parse |
| `Service.Create` | main.go:42-54 | a body that is not a decoded book gives 400 and leaves the collection unchanged. Otherwise exactly one book is appended, with id old length + 1 whatever id the client sent, all earlier books are unchanged, and the answer is 201 with the stored book |
| `Service.Find` | main.go:121-143 | a non-integer id gives 400. Otherwise the answer is 200 exactly when some book has the id, the returned book is the first such, and every other case is the not-found page |
| `Service.Delete` | main.go:57-88 | fewer than three segments or a non-integer id give 400. An id no book has gives 500, not 404, with nothing changed. Otherwise the first book with the id is removed (see `Spliced`) and the answer is an empty 200. Only a 200 changes the collection |
| `Service.Modify` | main.go:144-179 | the checks run in order, and none changes anything: id parse (400), body read (500), decode (400), lookup (404 with empty body). On success the length is unchanged, only the first matching position changes, it holds the decoded book verbatim with its own id, and that book is echoed with 200 |
| `Service.Handle` | main.go:90-120 | a request panics on a missing segment exactly for PUT on a two-segment path. GET never changes the collection. Only POST, DELETE and PUT can change it. An unrouted path answers an empty 404 |
| `Service.GetAndPostKeepIdsSequential` | main.go:49-50 | from a collection whose ids are their positions, any GET or POST request is served and leaves ids positional and unique, so ids stay unique until a DELETE or PUT is served |
| `Scenarios.HandleCollection` | main.go:95-105 | on "/livros": GET lists, POST creates, PUT panics on the missing segment, and any other method is an empty 404 |
| `Scenarios.HandleCollectionSlash` | main.go:95-149 | on "/livros/", the other collection-level path: GET lists and POST creates. PUT does not panic, because segment 2 exists; it is empty, so the answer is 400. Any other method is an empty 404 |
| `Scenarios.HandleRecord` | main.go:107-114 | on every record-level path "/livros/"+t, with or without a trailing slash, segment 2 is t without that slash. GET finds, DELETE deletes, PUT updates, and any other method writes nothing, which the server sends as an empty 200 |
| `Scenarios.CreateOnSeed` | main.go:42-54 | POST on the seed stores the book with id 6 and answers 201 with it. Listing afterwards shows six books, the new one last |
| `Scenarios.FindOnSeed` | main.go:121-143 | GET /livros/3 on the seed answers 200 with Dom Casmurro by Machado de Assis |
| `Scenarios.FindMissingOnSeed` | main.go:121-143 | GET /livros/999 on the seed answers the not-found page |
| `Scenarios.FindBadIdOnSeed` | main.go:129-133 | GET /livros/abc answers 400 |
| `Scenarios.DeleteOnSeed` | main.go:57-88 | DELETE /livros/1 on the seed answers an empty 200 and leaves books 2..5 in order |
| `Scenarios.FindDeletedOnSeed` | main.go:121-143 | after that deletion, GET /livros/1 answers the not-found page |
| `Scenarios.DeleteMissingOnSeed` | main.go:79-82 | DELETE /livros/999 answers 500 and changes nothing |
| `Scenarios.ModifyOnSeed` | main.go:144-179 | PUT /livros/2 overwrites book 2 and echoes it with 200; a later GET /livros/2 returns the new record |
| `Scenarios.CollectionPutPanics` | main.go:101-102 | PUT /livros on the seed ends in the out-of-range panic |
| `Scenarios.ModifyCanRepeatId` | main.go:165-177 | PUT /livros/2 with a body carrying id 1 answers 200 and leaves two books with id 1, because the stored record keeps the body's id |
| `Scenarios.DeleteThenCreateRepeatsId` | main.go:49-85 | through the router, deleting book 1 and then creating a book leaves five books, the last two both with id 5 |
| `Scenarios.DeleteThenCreate` | main.go:49-85 | on a fresh store, DELETE /livros/1 answers 200, then POST answers 201 with id 5, and the ids end as 2,3,4,5,5 |
| `Store.BookStore.constructor` | main.go:21-27 | a new store holds the seed |
| `Store.BookStore.Locate` | main.go:165-171 | the scan with `break` returns the first position holding the id, or -1 (equal to `IndexOf`) |
| `Store.BookStore.HandleList` | main.go:35-39 | listing answers 201 with every book in order and changes nothing |
| `Store.BookStore.HandleCreate` | main.go:42-54 | the new collection and the response are exactly those of `Service.Create` on the old collection |
| `Store.BookStore.HandleFind` | main.go:121-143 | the early-return scan answers exactly `Service.Find`, and the collection is not modified |
| `Store.BookStore.HandleDelete` | main.go:57-88 | the new collection and the response are exactly those of `Service.Delete` on the old collection |
| `Store.BookStore.HandleModify` | main.go:144-179 | the new collection and the response are exactly those of `Service.Modify` on the old collection |
| `Store.BookStore.Serve` | main.go:90-120 | one request changes the collection and answers exactly as `Service.Handle` says. In the panic case the collection is untouched and no response is produced |

## Left out

- HTTP transport is not modelled: listening, `ServeMux` registration and matching, path cleaning and redirects (main.go:180-185). The router is modelled on the path as the handler receives it, so for example "/livros//" is classified even though the server would redirect it first.
- Response headers (`Content-Type`) are not modelled, and neither is the server's recovery after a handler panic. A panic is modelled only as the outcome `IndexOutOfRange` with the collection unchanged.
- JSON encoding and decoding and reading the request body are foreign library calls. They appear as the `Body` outcome and as payload values, not as a wire format.
- `Body` gives the create handler's streaming decoder and the update handler's read-then-unmarshal the same outcome for the same request, so the model does not tell them apart. Trailing bytes after a JSON value are one input on which the real decoders differ.
- `Text.Atoi`: does not model the 64-bit range error of `strconv.Atoi` for out-of-range digit strings; integers are unbounded throughout, including ids (length + 1 cannot overflow in practice).
- The diagnostic `fmt.Println` (main.go:123) and the constant welcome handler `rotaPrincipal` (main.go:30-32) are not modelled: output only, no logic.
- Concurrency is not modelled. The real collection is shared unsynchronised across request goroutines; here requests are sequential calls on one `BookStore`.
