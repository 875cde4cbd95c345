/**
 * The book service as the program runs it: one mutable collection and the
 * handlers that read and change it in place, each proved to compute what
 * the matching function of `Service` describes.
 */
module Store {
  import opened Wrappers
  import opened Text
  import opened Books
  import opened Router
  import opened Service

  class BookStore {
    /** The books, in insertion order. */
    var livros: seq<Livro>

    constructor ()
      ensures livros == Seed()
    {
      livros := Seed();
    }

    /**
     * The lookup loop of the delete and update handlers: walk the books in
     * order and stop at the first one with the id, or report -1.
     */
    method Locate(id: int) returns (index: int)
      ensures index == IndexOf(livros, id)
    {
      index := -1;
      var i := 0;
      while i < |livros|
        invariant 0 <= i <= |livros|
        invariant forall j :: 0 <= j < i ==> livros[j].id != id
      {
        if livros[i].id == id {
          index := i;
          break;
        }
        i := i + 1;
      }
    }

    /** GET on the collection: status 201 and all books; nothing changes. */
    method HandleList() returns (resp: Response)
      ensures resp == ListResponse(livros)
    {
      resp := Response(STATUS_CREATED, All(livros));
    }

    /** POST on the collection. */
    method HandleCreate(body: Body) returns (resp: Response)
      modifies this
      ensures Served(livros, resp) == Create(old(livros), body)
    {
      match body
      case Decoded(livro) =>
        var book := livro.(id := |livros| + 1);
        livros := livros + [book];
        resp := Response(STATUS_CREATED, One(book));
      case _ =>
        resp := Response(STATUS_BAD_REQUEST, Empty);
    }

    /**
     * GET on a record: parse the id, then answer from inside the scan with
     * the first book that has it, or the not-found page after the scan.
     */
    method HandleFind(partes: seq<string>) returns (resp: Response)
      requires |partes| >= 3
      ensures resp == Find(livros, partes)
    {
      var parsed := Atoi(partes[2]);
      if parsed.None? {
        return Response(STATUS_BAD_REQUEST, Empty);
      }
      var id := parsed.value;
      var i := 0;
      while i < |livros|
        invariant 0 <= i <= |livros|
        invariant forall j :: 0 <= j < i ==> livros[j].id != id
      {
        if livros[i].id == id {
          return Response(STATUS_OK, One(livros[i]));
        }
        i := i + 1;
      }
      resp := Response(STATUS_NOT_FOUND, NotFoundPage);
    }

    /** DELETE on a record. */
    method HandleDelete(partes: seq<string>) returns (resp: Response)
      modifies this
      ensures Served(livros, resp) == Delete(old(livros), partes)
    {
      if |partes| < 3 {
        return Response(STATUS_BAD_REQUEST, Empty);
      }
      var parsed := Atoi(partes[2]);
      if parsed.None? {
        return Response(STATUS_BAD_REQUEST, Empty);
      }
      var index := Locate(parsed.value);
      if index < 0 || index >= |livros| {
        return Response(STATUS_INTERNAL_SERVER_ERROR, Empty);
      }
      livros := livros[..index] + livros[index + 1..];
      resp := Response(STATUS_OK, Empty);
    }

    /** PUT on a record (and, through the router, on the collection). */
    method HandleModify(partes: seq<string>, body: Body) returns (resp: Response)
      requires |partes| >= 3
      modifies this
      ensures Served(livros, resp) == Modify(old(livros), partes, body)
    {
      var parsed := Atoi(partes[2]);
      if parsed.None? {
        return Response(STATUS_BAD_REQUEST, Empty);
      }
      if body.Unreadable? {
        return Response(STATUS_INTERNAL_SERVER_ERROR, Empty);
      }
      if body.Malformed? {
        return Response(STATUS_BAD_REQUEST, Empty);
      }
      var index := Locate(parsed.value);
      if index < 0 {
        return Response(STATUS_NOT_FOUND, Empty);
      }
      livros := livros[index := body.livro];
      resp := Response(STATUS_OK, One(body.livro));
    }

    /**
     * One request: route it and run the chosen handler. `None` stands for
     * the panic of a handler that reads path segment 2 when the path has
     * only two segments; the collection is then untouched.
     */
    method Serve(req: Request) returns (resp: Option<Response>)
      modifies this
      ensures match Handle(old(livros), req)
        case Served(after, r) => livros == after && resp == Some(r)
        case IndexOutOfRange => livros == old(livros) && resp == None
    {
      var partes := Split(req.path, SLASH);
      var r;
      match Route(req.path, req.verb) {
        case ListBooks =>
          r := HandleList();
        case CreateBook =>
          r := HandleCreate(req.body);
        case FindBook =>
          if |partes| < 3 {
            return None;
          }
          r := HandleFind(partes);
        case DeleteBook =>
          r := HandleDelete(partes);
        case ModifyBook =>
          if |partes| < 3 {
            return None;
          }
          r := HandleModify(partes, req.body);
        case Status(code) =>
          r := Response(code, Empty);
      }
      resp := Some(r);
    }
  }
}
