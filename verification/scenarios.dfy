/**
 * What `Handle` does on every collection-level and record-level path, and
 * concrete request sequences against the seeded collection, stated through
 * `Handle` and, for one sequence, through a running `BookStore`.
 */
module Scenarios {
  import opened Wrappers
  import opened Text
  import opened Books
  import opened Router
  import opened Service
  import opened Store

  /** A record path with one id segment splits into "", "livros" and that segment. */
  lemma {:induction false} RecordPath(id: string)
    requires SLASH !in id
    ensures Split("/livros/" + id, SLASH) == ["", "livros", id]
  {
    SplitUnderResource(id);
    SplitWithoutSeparator(id, SLASH);
  }

  /** A request on "/livros" goes to the collection-level handlers. */
  lemma HandleCollection(s: seq<Livro>, verb: string, body: Body)
    ensures Handle(s, Request("/livros", verb, body)) ==
      if verb == METHOD_GET then Served(s, ListResponse(s))
      else if verb == METHOD_POST then Create(s, body)
      else if verb == METHOD_PUT then IndexOutOfRange
      else Served(s, Response(STATUS_NOT_FOUND, Empty))
  {
    SplitUnderResource("");
    assert Classify(["", "livros"]) == Collection;
    assert Route("/livros", verb) == Dispatch(Collection, verb);
  }

  /**
   * PUT on "/livros/", the other collection-level path, has a segment 2 to
   * read: it is empty, does not parse, and the answer is 400 instead of a
   * panic.
   */
  lemma HandleCollectionSlash(s: seq<Livro>, t: string, verb: string, body: Body)
    requires PathLevel(t) == Collection
    ensures Handle(s, Request("/livros/" + t, verb, body)) ==
      if verb == METHOD_GET then Served(s, ListResponse(s))
      else if verb == METHOD_POST then Create(s, body)
      else if verb == METHOD_PUT then Served(s, Response(STATUS_BAD_REQUEST, Empty))
      else Served(s, Response(STATUS_NOT_FOUND, Empty))
  {
    assert t == "";
    var path := "/livros/" + t;
    var partes := ["", "livros", ""];
    SplitUnderResource(t);
    SplitWithoutSeparator(t, SLASH);
    assert Split(path, SLASH) == partes;
    assert Classify(partes) == Collection;
    assert Route(path, verb) == Dispatch(Collection, verb);
    if verb == METHOD_PUT {
      assert Atoi("") == None;
    }
  }

  /** A request whose segments classify as a record reaches the record-level handlers. */
  lemma HandleAtRecordLevel(s: seq<Livro>, req: Request)
    requires Classify(Split(req.path, SLASH)) == Record
    ensures var partes := Split(req.path, SLASH);
      && |partes| >= 3
      && Handle(s, req) ==
         if req.verb == METHOD_GET then Served(s, Find(s, partes))
         else if req.verb == METHOD_DELETE then Delete(s, partes)
         else if req.verb == METHOD_PUT then Modify(s, partes, req.body)
         else Served(s, Response(STATUS_OK, Empty))
  {
  }

  /**
   * A request on any record-level path "/livros/" + t goes to the
   * record-level handlers, whose id segment is t without its trailing slash.
   */
  lemma {:induction false} HandleRecord(s: seq<Livro>, t: string, verb: string, body: Body)
    requires PathLevel(t) == Record
    ensures var partes := Split("/livros/" + t, SLASH);
      && |partes| >= 3
      && partes[2] == (if SLASH in t then t[..|t| - 1] else t)
      && Handle(s, Request("/livros/" + t, verb, body)) ==
         if verb == METHOD_GET then Served(s, Find(s, partes))
         else if verb == METHOD_DELETE then Delete(s, partes)
         else if verb == METHOD_PUT then Modify(s, partes, body)
         else Served(s, Response(STATUS_OK, Empty))
  {
    var path := "/livros/" + t;
    var partes := Split(path, SLASH);
    ClassifyByPath(t);
    HandleAtRecordLevel(s, Request(path, verb, body));
    SplitUnderResource(t);
    if SLASH !in t {
      SplitWithoutSeparator(t, SLASH);
      assert partes == ["", "livros", t];
    } else {
      var id := t[..|t| - 1];
      assert t == id + [SLASH];
      SplitTrailingSeparator(id, SLASH);
      assert partes == ["", "livros", id, ""];
    }
  }

  /** The same for a path with one non-empty id segment, whose segments are known outright. */
  lemma HandleRecordId(s: seq<Livro>, id: string, verb: string, body: Body)
    requires SLASH !in id && id != ""
    ensures var partes := ["", "livros", id];
      Handle(s, Request("/livros/" + id, verb, body)) ==
      if verb == METHOD_GET then Served(s, Find(s, partes))
      else if verb == METHOD_DELETE then Delete(s, partes)
      else if verb == METHOD_PUT then Modify(s, partes, body)
      else Served(s, Response(STATUS_OK, Empty))
  {
    HandleRecord(s, id, verb, body);
    RecordPath(id);
  }

  lemma ParseNineNineNine()
    ensures Atoi("999") == Some(999)
  {
    assert "999"[..2] == "99" && "99"[..1] == "9" && "9"[..0] == "";
    assert DigitsValue("999") == 999;
  }

  /** POST on the collection appends the book with id 6; listing then shows six books, the new one last. */
  lemma CreateOnSeed()
    ensures var book := Livro(6, "X", "Y");
      && Handle(Seed(), Request("/livros", METHOD_POST, Decoded(Livro(0, "X", "Y"))))
         == Served(Seed() + [book], Response(STATUS_CREATED, One(book)))
      && Handle(Seed() + [book], Request("/livros", METHOD_GET, Malformed))
         == Served(Seed() + [book], Response(STATUS_CREATED, All(Seed() + [book])))
  {
    HandleCollection(Seed(), METHOD_POST, Decoded(Livro(0, "X", "Y")));
    HandleCollection(Seed() + [Livro(6, "X", "Y")], METHOD_GET, Malformed);
  }

  /** GET of an existing id answers 200 with that book. */
  lemma FindOnSeed()
    ensures Handle(Seed(), Request("/livros/3", METHOD_GET, Malformed))
         == Served(Seed(), Response(STATUS_OK, One(Livro(3, "Dom Casmurro", "Machado de Assis"))))
  {
    HandleRecordId(Seed(), "3", METHOD_GET, Malformed);
    assert "/livros/" + "3" == "/livros/3";
    assert Atoi("3") == Some(3);
    assert IndexOf(Seed(), 3) == 2;
  }

  /** GET of an id no book has answers the not-found page. */
  lemma FindMissingOnSeed()
    ensures Handle(Seed(), Request("/livros/999", METHOD_GET, Malformed))
         == Served(Seed(), Response(STATUS_NOT_FOUND, NotFoundPage))
  {
    HandleRecordId(Seed(), "999", METHOD_GET, Malformed);
    assert "/livros/" + "999" == "/livros/999";
    ParseNineNineNine();
    assert IndexOf(Seed(), 999) == -1;
  }

  /** GET with a non-numeric id answers 400. */
  lemma FindBadIdOnSeed()
    ensures Handle(Seed(), Request("/livros/abc", METHOD_GET, Malformed))
         == Served(Seed(), Response(STATUS_BAD_REQUEST, Empty))
  {
    HandleRecordId(Seed(), "abc", METHOD_GET, Malformed);
    assert "/livros/" + "abc" == "/livros/abc";
    assert !IsDigit('a');
    assert Atoi("abc") == None;
  }

  /** DELETE of book 1 removes it and keeps the other four in order. */
  lemma DeleteOnSeed()
    ensures Handle(Seed(), Request("/livros/1", METHOD_DELETE, Malformed))
         == Served(Seed()[1..], Response(STATUS_OK, Empty))
  {
    HandleRecordId(Seed(), "1", METHOD_DELETE, Malformed);
    assert "/livros/" + "1" == "/livros/1";
    assert Atoi("1") == Some(1);
    assert IndexOf(Seed(), 1) == 0;
    assert Spliced(Seed(), 0) == Seed()[1..];
  }

  /** After that deletion no book has id 1 and finding it answers the not-found page. */
  lemma FindDeletedOnSeed()
    ensures Handle(Seed()[1..], Request("/livros/1", METHOD_GET, Malformed))
         == Served(Seed()[1..], Response(STATUS_NOT_FOUND, NotFoundPage))
  {
    HandleRecordId(Seed()[1..], "1", METHOD_GET, Malformed);
    assert "/livros/" + "1" == "/livros/1";
    assert Atoi("1") == Some(1);
    assert IndexOf(Seed()[1..], 1) == -1;
  }

  /** DELETE of an id no book has answers 500 and changes nothing. */
  lemma DeleteMissingOnSeed()
    ensures Handle(Seed(), Request("/livros/999", METHOD_DELETE, Malformed))
         == Served(Seed(), Response(STATUS_INTERNAL_SERVER_ERROR, Empty))
  {
    HandleRecordId(Seed(), "999", METHOD_DELETE, Malformed);
    assert "/livros/" + "999" == "/livros/999";
    ParseNineNineNine();
    assert IndexOf(Seed(), 999) == -1;
  }

  /** PUT of book 2 overwrites it and echoes the body; a later GET sees the new record. */
  lemma ModifyOnSeed()
    ensures var book := Livro(2, "Iracema (rev)", "José de Alencar");
      && Handle(Seed(), Request("/livros/2", METHOD_PUT, Decoded(book)))
         == Served(Seed()[1 := book], Response(STATUS_OK, One(book)))
      && Handle(Seed()[1 := book], Request("/livros/2", METHOD_GET, Malformed))
         == Served(Seed()[1 := book], Response(STATUS_OK, One(book)))
  {
    var book := Livro(2, "Iracema (rev)", "José de Alencar");
    HandleRecordId(Seed(), "2", METHOD_PUT, Decoded(book));
    HandleRecordId(Seed()[1 := book], "2", METHOD_GET, Malformed);
    assert "/livros/" + "2" == "/livros/2";
    assert Atoi("2") == Some(2);
    assert IndexOf(Seed(), 2) == 1;
    assert IndexOf(Seed()[1 := book], 2) == 1;
  }

  /** PUT on the bare collection path reads a segment that is not there. */
  lemma CollectionPutPanics(body: Body)
    ensures Handle(Seed(), Request("/livros", METHOD_PUT, body)) == IndexOutOfRange
  {
    HandleCollection(Seed(), METHOD_PUT, body);
  }

  /**
   * Deleting book 1 and then creating a book through the router gives the
   * new book id 5, the id the last seeded book still has.
   */
  lemma DeleteThenCreateRepeatsId(candidate: Livro)
    ensures var afterDelete := Handle(Seed(), Request("/livros/1", METHOD_DELETE, Malformed));
      && afterDelete.Served?
      && var afterCreate := Handle(afterDelete.livros, Request("/livros", METHOD_POST, Decoded(candidate)));
      && afterCreate.Served?
      && |afterCreate.livros| == 5
      && afterCreate.livros[3].id == 5 && afterCreate.livros[4].id == 5
  {
    DeleteOnSeed();
    HandleCollection(Seed()[1..], METHOD_POST, Decoded(candidate));
  }

  /**
   * The update handler stores the body's own id: replacing book 2 with a
   * body that carries id 1 leaves two books with id 1.
   */
  lemma ModifyCanRepeatId()
    ensures var book := Livro(1, "Iracema", "José de Alencar");
      && Handle(Seed(), Request("/livros/2", METHOD_PUT, Decoded(book)))
         == Served(Seed()[1 := book], Response(STATUS_OK, One(book)))
      && !IdsUnique(Seed()[1 := book])
  {
    var book := Livro(1, "Iracema", "José de Alencar");
    HandleRecordId(Seed(), "2", METHOD_PUT, Decoded(book));
    assert "/livros/" + "2" == "/livros/2";
    assert Atoi("2") == Some(2);
    assert IndexOf(Seed(), 2) == 1;
    var after := Seed()[1 := book];
    assert after[0].id == after[1].id;
  }

  /**
   * The same delete-then-create sequence on a running store: the second
   * request answers with id 5, and the ids end as 2, 3, 4, 5, 5.
   */
  method DeleteThenCreate(candidate: Livro) returns (deleted: Option<Response>, created: Option<Response>, ids: seq<int>)
    ensures deleted == Some(Response(STATUS_OK, Empty))
    ensures created == Some(Response(STATUS_CREATED, One(Livro(5, candidate.titulo, candidate.autor))))
    ensures ids == [2, 3, 4, 5, 5]
  {
    var store := new BookStore();
    deleted := store.Serve(Request("/livros/1", METHOD_DELETE, Malformed));
    DeleteOnSeed();
    assert store.livros == Seed()[1..];
    created := store.Serve(Request("/livros", METHOD_POST, Decoded(candidate)));
    HandleCollection(Seed()[1..], METHOD_POST, Decoded(candidate));
    assert store.livros == Admit(Seed()[1..], candidate);
    DeleteThenInsertRepeatsId(candidate);
    ids := Ids(store.livros);
  }
}
