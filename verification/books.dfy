/**
 * The book record and the in-memory collection the service keeps: an
 * ordered sequence of `Livro` in insertion order, seeded with five books.
 * The functions here are the values the store's operations compute.
 */
module Books {

  /** One book; `id` is an ordinary field that nothing forces to be unique. */
  datatype Livro = Livro(id: int, titulo: string, autor: string)

  /** Every record's id is its one-based position: the shape the seed has. */
  ghost predicate IdsSequential(s: seq<Livro>)
  {
    forall i :: 0 <= i < |s| ==> s[i].id == i + 1
  }

  /** No two records share an id. */
  ghost predicate IdsUnique(s: seq<Livro>)
  {
    forall i, j :: 0 <= i < j < |s| ==> s[i].id != s[j].id
  }

  /** The ids of the books, in order. */
  function Ids(s: seq<Livro>): seq<int>
  {
    seq(|s|, i requires 0 <= i < |s| => s[i].id)
  }

  /** The collection the process starts with. */
  function Seed(): (s: seq<Livro>)
    ensures |s| == 5 && IdsSequential(s)
  {
    [ Livro(1, "O Guarani", "José de Alencar"),
      Livro(2, "Iracema", "José de Alencar"),
      Livro(3, "Dom Casmurro", "Machado de Assis"),
      Livro(4, "A Hora da Estrela", "Clarice Lispector"),
      Livro(5, "Grande Sertão: Veredas", "Guimarães Rosa") ]
  }

  /**
   * Position of the first record whose id is `id`, scanning from the front,
   * or -1 when there is none.
   */
  function IndexOf(s: seq<Livro>, id: int): (k: int)
    ensures -1 <= k < |s|
    ensures k >= 0 ==> s[k].id == id && forall j :: 0 <= j < k ==> s[j].id != id
    ensures k < 0 ==> forall j :: 0 <= j < |s| ==> s[j].id != id
  {
    if s == [] then -1
    else if s[0].id == id then 0
    else
      var k := IndexOf(s[1..], id);
      if k < 0 then -1 else k + 1
  }

  /** Insertion: the candidate gets id "current length + 1" and goes last. */
  function Admit(s: seq<Livro>, candidate: Livro): seq<Livro>
  {
    s + [candidate.(id := |s| + 1)]
  }

  /** Removal of the record at `i`, closing the gap and keeping the order of the rest. */
  function Spliced(s: seq<Livro>, i: nat): (r: seq<Livro>)
    requires i < |s|
    ensures |r| == |s| - 1
    ensures forall j :: 0 <= j < i ==> r[j] == s[j]
    ensures forall j :: i <= j < |r| ==> r[j] == s[j + 1]
  {
    s[..i] + s[i + 1..]
  }

  /** Removal takes out exactly one copy of the removed record and nothing else. */
  lemma SplicedDropsOne(s: seq<Livro>, i: nat)
    requires i < |s|
    ensures multiset(Spliced(s, i)) + multiset{s[i]} == multiset(s)
  {
    assert s == s[..i] + [s[i]] + s[i + 1..];
  }

  /** Insertion appends exactly one record and leaves every earlier one as it was. */
  lemma AdmitAppends(s: seq<Livro>, candidate: Livro)
    ensures |Admit(s, candidate)| == |s| + 1
    ensures Admit(s, candidate)[..|s|] == s
    ensures Admit(s, candidate)[|s|] == Livro(|s| + 1, candidate.titulo, candidate.autor)
  {
  }

  /** Positional ids make ids unique. */
  lemma SequentialIdsAreUnique(s: seq<Livro>)
    requires IdsSequential(s)
    ensures IdsUnique(s)
  {
  }

  /** Insertion keeps ids positional, whatever id the candidate carried. */
  lemma AdmitKeepsIdsSequential(s: seq<Livro>, candidate: Livro)
    requires IdsSequential(s)
    ensures IdsSequential(Admit(s, candidate))
  {
  }

  /** A run of insertions, in order. */
  function AdmitAll(s: seq<Livro>, candidates: seq<Livro>): seq<Livro>
    decreases |candidates|
  {
    if candidates == [] then s else AdmitAll(Admit(s, candidates[0]), candidates[1..])
  }

  /** As long as only insertions happen after the seed, ids stay positional and unique. */
  lemma {:induction false} OnlyInsertionsKeepIdsUnique(s: seq<Livro>, candidates: seq<Livro>)
    requires IdsSequential(s)
    ensures |AdmitAll(s, candidates)| == |s| + |candidates|
    ensures IdsSequential(AdmitAll(s, candidates)) && IdsUnique(AdmitAll(s, candidates))
    decreases |candidates|
  {
    if candidates == [] {
      SequentialIdsAreUnique(s);
    } else {
      AdmitKeepsIdsSequential(s, candidates[0]);
      OnlyInsertionsKeepIdsUnique(Admit(s, candidates[0]), candidates[1..]);
    }
  }

  /** With unique ids the first match is the only match. */
  lemma UniqueIdIsFound(s: seq<Livro>, i: nat)
    requires IdsUnique(s) && i < |s|
    ensures IndexOf(s, s[i].id) == i
  {
  }

  /**
   * Ids can repeat once a book is gone: the seed without book 1, plus one
   * inserted book, has the new book with id 5, which book 5 already has.
   */
  lemma DeleteThenInsertRepeatsId(candidate: Livro)
    ensures var s := Admit(Seed()[1..], candidate);
      Ids(s) == [2, 3, 4, 5, 5] && !IdsUnique(s)
  {
    var s := Admit(Seed()[1..], candidate);
    assert |s| == 5;
    var ids := Ids(s);
    assert ids[0] == 2 && ids[1] == 3 && ids[2] == 4 && ids[3] == 5 && ids[4] == 5;
    assert s[3].id == s[4].id;
  }
}
