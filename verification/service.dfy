/**
 * What each handler of the book service does to the collection and what it
 * answers, as functions of the collection before the request. The store's
 * methods are proved to compute exactly these.
 */
module Service {
  import opened Wrappers
  import opened Text
  import opened Books
  import opened Router

  /**
   * The collection after a request together with the response, or the
   * runtime panic of reading a path segment that does not exist (the
   * collection is then left as it was).
   */
  datatype Outcome = Served(livros: seq<Livro>, response: Response) | IndexOutOfRange

  /** The response of the list handler: status 201 and every book, in order. */
  function ListResponse(s: seq<Livro>): Response
  {
    Response(STATUS_CREATED, All(s))
  }

  /** The create handler: the decoded book gets id "length + 1" and is appended. */
  function Create(s: seq<Livro>, body: Body): (r: Outcome)
    ensures r.Served?
    ensures !body.Decoded? ==> r == Served(s, Response(STATUS_BAD_REQUEST, Empty))
    ensures body.Decoded? ==>
      && |r.livros| == |s| + 1
      && r.livros[..|s|] == s
      && r.livros[|s|] == Livro(|s| + 1, body.livro.titulo, body.livro.autor)
      && r.response == Response(STATUS_CREATED, One(r.livros[|s|]))
  {
    match body
    case Decoded(candidate) =>
      var t := Admit(s, candidate);
      Served(t, Response(STATUS_CREATED, One(t[|s|])))
    case _ => Served(s, Response(STATUS_BAD_REQUEST, Empty))
  }

  /** The find handler: never changes the collection, so it yields only a response. */
  function Find(s: seq<Livro>, partes: seq<string>): (r: Response)
    requires |partes| >= 3
    ensures Atoi(partes[2]).None? ==> r == Response(STATUS_BAD_REQUEST, Empty)
    ensures Atoi(partes[2]).Some? ==>
      var id := Atoi(partes[2]).value;
      && (r.status == STATUS_OK <==> exists j :: 0 <= j < |s| && s[j].id == id)
      && (r.status == STATUS_OK ==> exists k :: 0 <= k < |s| && r.payload == One(s[k]) && s[k].id == id
                                               && forall j :: 0 <= j < k ==> s[j].id != id)
      && (r.status != STATUS_OK ==> r == Response(STATUS_NOT_FOUND, NotFoundPage))
  {
    match Atoi(partes[2])
    case None => Response(STATUS_BAD_REQUEST, Empty)
    case Some(id) =>
      var k := IndexOf(s, id);
      if k < 0 then Response(STATUS_NOT_FOUND, NotFoundPage) else Response(STATUS_OK, One(s[k]))
  }

  /**
   * The delete handler: a missing or unparsable id segment is 400, an id no
   * book has is 500 (not 404), and otherwise the first book with that id is
   * removed and the answer is an empty 200.
   */
  function Delete(s: seq<Livro>, partes: seq<string>): (r: Outcome)
    ensures r.Served?
    ensures r.response.status == STATUS_OK || r.livros == s
    ensures |partes| < 3 || Atoi(partes[2]).None? ==> r == Served(s, Response(STATUS_BAD_REQUEST, Empty))
    ensures |partes| >= 3 && Atoi(partes[2]).Some? ==>
      var id := Atoi(partes[2]).value;
      var k := IndexOf(s, id);
      && (k < 0 ==> r == Served(s, Response(STATUS_INTERNAL_SERVER_ERROR, Empty)))
      && (k >= 0 ==> r == Served(Spliced(s, k), Response(STATUS_OK, Empty)))
  {
    if |partes| < 3 then Served(s, Response(STATUS_BAD_REQUEST, Empty))
    else
      match Atoi(partes[2])
      case None => Served(s, Response(STATUS_BAD_REQUEST, Empty))
      case Some(id) =>
        var k := IndexOf(s, id);
        if k < 0 || k >= |s| then Served(s, Response(STATUS_INTERNAL_SERVER_ERROR, Empty))
        else Served(Spliced(s, k), Response(STATUS_OK, Empty))
  }

  /**
   * The update handler. Its checks run in order (id, body read, decode,
   * lookup) and none changes anything; on success the first book with the
   * path id is overwritten by the decoded book, id included, and echoed.
   */
  function Modify(s: seq<Livro>, partes: seq<string>, body: Body): (r: Outcome)
    requires |partes| >= 3
    ensures r.Served? && |r.livros| == |s|
    ensures Atoi(partes[2]).None? ==> r == Served(s, Response(STATUS_BAD_REQUEST, Empty))
    ensures Atoi(partes[2]).Some? && body.Unreadable? ==> r == Served(s, Response(STATUS_INTERNAL_SERVER_ERROR, Empty))
    ensures Atoi(partes[2]).Some? && body.Malformed? ==> r == Served(s, Response(STATUS_BAD_REQUEST, Empty))
    ensures Atoi(partes[2]).Some? && body.Decoded? ==>
      var id := Atoi(partes[2]).value;
      var k := IndexOf(s, id);
      && (k < 0 ==> r == Served(s, Response(STATUS_NOT_FOUND, Empty)))
      && (k >= 0 ==> r.response == Response(STATUS_OK, One(body.livro))
                     && r.livros[k] == body.livro
                     && forall j :: 0 <= j < |s| && j != k ==> r.livros[j] == s[j])
  {
    match Atoi(partes[2])
    case None => Served(s, Response(STATUS_BAD_REQUEST, Empty))
    case Some(id) =>
      match body
      case Unreadable => Served(s, Response(STATUS_INTERNAL_SERVER_ERROR, Empty))
      case Malformed => Served(s, Response(STATUS_BAD_REQUEST, Empty))
      case Decoded(replacement) =>
        var k := IndexOf(s, id);
        if k < 0 then Served(s, Response(STATUS_NOT_FOUND, Empty))
        else Served(s[k := replacement], Response(STATUS_OK, One(replacement)))
  }

  /**
   * One request through the router. The find and update handlers index
   * segment 2 unchecked; a path too short for that panics.
   */
  function Handle(s: seq<Livro>, req: Request): (r: Outcome)
    ensures r.IndexOutOfRange? <==> req.verb == METHOD_PUT && |Split(req.path, SLASH)| == 2
    ensures req.verb == METHOD_GET ==> r.Served? && r.livros == s
    ensures r.Served? && r.livros != s ==> req.verb in {METHOD_POST, METHOD_DELETE, METHOD_PUT}
    ensures Classify(Split(req.path, SLASH)) == Unrouted ==> r == Served(s, Response(STATUS_NOT_FOUND, Empty))
  {
    var partes := Split(req.path, SLASH);
    match Route(req.path, req.verb)
    case ListBooks => Served(s, ListResponse(s))
    case CreateBook => Create(s, req.body)
    case FindBook => if |partes| < 3 then IndexOutOfRange else Served(s, Find(s, partes))
    case DeleteBook => Delete(s, partes)
    case ModifyBook => if |partes| < 3 then IndexOutOfRange else Modify(s, partes, req.body)
    case Status(code) => Served(s, Response(code, Empty))
  }

  /**
   * GET and POST requests keep every id equal to its position, so ids stay
   * unique for as long as no DELETE or PUT has been served.
   */
  lemma GetAndPostKeepIdsSequential(s: seq<Livro>, req: Request)
    requires IdsSequential(s)
    requires req.verb == METHOD_GET || req.verb == METHOD_POST
    ensures Handle(s, req).Served?
    ensures IdsSequential(Handle(s, req).livros) && IdsUnique(Handle(s, req).livros)
  {
  }
}
