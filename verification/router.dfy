/**
 * The request router of the `/livros` resource: the path is split on '/',
 * the segment list is classified as collection level, record level or no
 * route, and the HTTP method then picks a handler or a bare status code.
 */
module Router {
  import opened Wrappers
  import opened Text
  import opened Books

  const METHOD_GET := "GET"
  const METHOD_POST := "POST"
  const METHOD_PUT := "PUT"
  const METHOD_DELETE := "DELETE"

  const STATUS_OK := 200
  const STATUS_CREATED := 201
  const STATUS_BAD_REQUEST := 400
  const STATUS_NOT_FOUND := 404
  const STATUS_INTERNAL_SERVER_ERROR := 500

  /** What a handler writes after the status line. */
  datatype Payload =
    | Empty                   // nothing written
    | One(livro: Livro)       // one book as JSON
    | All(livros: seq<Livro>) // the JSON array of every book
    | NotFoundPage            // the text `http.NotFound` writes

  datatype Response = Response(status: int, payload: Payload)

  /** The request body as the handlers see it after reading and decoding it as a book. */
  datatype Body =
    | Unreadable          // reading the body failed
    | Malformed           // the body was read but is not a book in JSON
    | Decoded(livro: Livro)

  datatype Request = Request(path: string, verb: string, body: Body)

  datatype Level = Collection | Record | Unrouted

  /**
   * The two branch conditions of the router, with Go's precedence: `&&`
   * binds tighter than `||`, so the collection branch is "two segments, or
   * three with an empty third" and the record branch, tried only when the
   * collection branch is not taken, is "three segments, or four with an
   * empty fourth".
   */
  function Classify(partes: seq<string>): Level
  {
    if |partes| == 2 || (|partes| == 3 && partes[2] == "") then Collection
    else if |partes| == 3 || (|partes| == 4 && partes[3] == "") then Record
    else Unrouted
  }

  /** What the router does with a request: call a handler, or write only a status code. */
  datatype Action = ListBooks | CreateBook | FindBook | DeleteBook | ModifyBook | Status(code: int)

  /**
   * The method switch of each branch. At record level a method other than
   * GET, DELETE and PUT writes nothing, which the server turns into an
   * empty 200 response.
   */
  function Dispatch(level: Level, verb: string): Action
  {
    match level
    case Collection =>
      if verb == METHOD_GET then ListBooks
      else if verb == METHOD_POST then CreateBook
      else if verb == METHOD_PUT then ModifyBook
      else Status(STATUS_NOT_FOUND)
    case Record =>
      if verb == METHOD_GET then FindBook
      else if verb == METHOD_DELETE then DeleteBook
      else if verb == METHOD_PUT then ModifyBook
      else Status(STATUS_OK)
    case Unrouted => Status(STATUS_NOT_FOUND)
  }

  function Route(path: string, verb: string): Action
  {
    Dispatch(Classify(Split(path, SLASH)), verb)
  }

  /**
   * The level of the path "/livros/" + t, read off the text after the
   * resource name: nothing is the collection; one non-empty segment, with or
   * without a trailing slash, is a record; a lone trailing slash after an
   * empty segment is a record too; anything with more slashes is no route.
   */
  function PathLevel(t: string): Level
  {
    if SLASH !in t then (if t == "" then Collection else Record)
    else if t[|t| - 1] == SLASH && SLASH !in t[..|t| - 1] then Record
    else Unrouted
  }

  /** The segments of "/" + name + "/" + t, for a separator-free name, are "", name and the segments of t. */
  lemma {:induction false} SplitUnderName(name: string, t: string)
    requires SLASH !in name
    ensures Split([SLASH] + name, SLASH) == ["", name]
    ensures Split([SLASH] + name + [SLASH] + t, SLASH) == ["", name] + Split(t, SLASH)
  {
    SplitWithoutSeparator(name, SLASH);
    SplitWithoutSeparator("", SLASH);
    assert [SLASH] + name == "" + [SLASH] + name;
    SplitAtSeparator("", name, SLASH);
    var tail := name + [SLASH] + t;
    assert [SLASH] + name + [SLASH] + t == "" + [SLASH] + tail;
    SplitAtSeparator("", tail, SLASH);
    SplitAtSeparator(name, t, SLASH);
  }

  /** The segments of "/livros/" + t are "", "livros" and the segments of t. */
  lemma SplitUnderResource(t: string)
    ensures Split("/livros", SLASH) == ["", "livros"]
    ensures Split("/livros/" + t, SLASH) == ["", "livros"] + Split(t, SLASH)
  {
    var name := "livros";
    assert SLASH !in name;
    assert "/livros" == [SLASH] + name;
    assert "/livros/" + t == [SLASH] + name + [SLASH] + t;
    SplitUnderName(name, t);
  }

  /** Text that splits into one piece and an empty one is a separator-free piece and a trailing slash. */
  lemma {:induction false} TrailingSlashTail(t: string)
    ensures var p := Split(t, SLASH);
      |p| == 2 && p[1] == "" ==> t != "" && t[|t| - 1] == SLASH && SLASH !in t[..|t| - 1]
  {
    var p := Split(t, SLASH);
    JoinOfSplit(t, SLASH);
    if |p| == 2 && p[1] == "" {
      assert Join(p[1..], SLASH) == p[1];
      assert Join(p, SLASH) == p[0] + [SLASH] + Join(p[1..], SLASH);
      assert t == p[0] + [SLASH];
      assert t[..|t| - 1] == p[0];
    }
  }

  /**
   * Classifying the split path agrees with reading the path itself, for
   * every path the server hands to the router ("/livros" and everything
   * under "/livros/").
   */
  lemma {:induction false} ClassifyByPath(t: string)
    ensures Classify(Split("/livros", SLASH)) == Collection
    ensures Classify(Split("/livros/" + t, SLASH)) == PathLevel(t)
  {
    SplitUnderResource(t);
    var p := Split(t, SLASH);
    var partes := Split("/livros/" + t, SLASH);
    assert partes == ["", "livros"] + p;
    if SLASH !in t {
      SplitWithoutSeparator(t, SLASH);
      assert partes == ["", "livros", t];
    } else if t[|t| - 1] == SLASH && SLASH !in t[..|t| - 1] {
      assert t == t[..|t| - 1] + [SLASH];
      SplitTrailingSeparator(t[..|t| - 1], SLASH);
      assert partes == ["", "livros", t[..|t| - 1], ""];
    } else {
      SplitAtLeastTwo(t, SLASH);
      TrailingSlashTail(t);
      assert |partes| == |p| + 2;
      assert |p| == 2 ==> partes[3] == p[1];
    }
  }

  /** The whole decision table, stated on the request path. */
  lemma RouteByPath(t: string, verb: string)
    ensures Route("/livros", verb) == Dispatch(Collection, verb)
    ensures Route("/livros/" + t, verb) == Dispatch(PathLevel(t), verb)
  {
    ClassifyByPath(t);
  }

  /**
   * The handlers behind Find and Modify read segment 2 without checking it
   * exists. The only route that reaches one of them with fewer than three
   * segments is PUT on a two-segment path.
   */
  lemma IdSegmentMissingOnlyOnCollectionPut(path: string, verb: string)
    ensures var action := Route(path, verb);
      ((action.FindBook? || action.ModifyBook?) && |Split(path, SLASH)| < 3)
      <==> (verb == METHOD_PUT && |Split(path, SLASH)| == 2)
  {
  }

  /**
   * PUT on "/livros" reaches the update handler with two segments, so its
   * read of segment 2 is out of range; on "/livros/" segment 2 exists but is
   * empty and does not parse as an integer.
   */
  lemma CollectionPutHasNoId()
    ensures Route("/livros", METHOD_PUT) == ModifyBook && |Split("/livros", SLASH)| == 2
    ensures Route("/livros/", METHOD_PUT) == ModifyBook
    ensures |Split("/livros/", SLASH)| == 3 && Atoi(Split("/livros/", SLASH)[2]) == None
  {
    SplitUnderResource("");
    SplitWithoutSeparator("", SLASH);
    assert "/livros/" + "" == "/livros/";
    assert Split("/livros/", SLASH) == ["", "livros", ""];
    assert Classify(["", "livros"]) == Collection;
    assert Classify(["", "livros", ""]) == Collection;
    assert Atoi("") == None;
  }
}
