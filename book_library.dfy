/** The in-memory book table of the library web service: a list of
    records with integer ids and a counter that hands out the next id.
    The HTTP layer (routes, forms, templates, redirects) is stripped; each
    handler becomes a method on a `Library` object holding the table. */
module BookLibrary {
  import opened Values
  import opened Seqs
  import opened Text

  datatype Book = Book(id: int, title: string, author: string)

  /** No two records share an id. */
  predicate UniqueIds(books: seq<Book>) {
    forall i, j :: 0 <= i < j < |books| ==> books[i].id != books[j].id
  }

  /** Every id lies in [1, bound): the counter is ahead of every record. */
  predicate IdsBelow(books: seq<Book>, bound: int) {
    forall b <- books :: 1 <= b.id < bound
  }

  /** The three records the service starts with. */
  const Seed: seq<Book> := [
    Book(1, "The Casual Vacancy", "J.K. Rowling"),
    Book(2, "The Handmaid's Tale", "Margaret Atwood"),
    Book(3, "One Hundred Years of Solitude", "Gabriel Garc\U{00ED}a M\U{00E1}rquez")
  ]

  const SeedNextId := 4

  /** `search.lower() in book["title"].lower()`. */
  predicate TitleMatches(b: Book, query: string) {
    ContainsSub(Lower(b.title), Lower(query))
  }

  /** The filter of the search comprehension, for an already lower-cased
      query. */
  function TitleContains(needle: string): Book -> bool {
    (b: Book) => ContainsSub(Lower(b.title), needle)
  }

  /** The list the home page shows: everything for a missing or empty
      query, otherwise the books whose title contains the query, ignoring
      case, in their original order. */
  function Search(books: seq<Book>, search: Option<string>): (r: seq<Book>)
    ensures (search.None? || search.value == "") ==> r == books
    ensures search.Some? && search.value != "" ==>
              forall b :: b in r <==> b in books && TitleMatches(b, search.value)
    ensures IsSubsequence(r, books)
  {
    if search.None? || search.value == "" then
      assert IsSubsequence(books, books) by { SubsequenceRefl(books); }
      books
    else Keep(books, TitleContains(Lower(search.value)))
  }

  lemma {:induction false} SubsequenceRefl<T>(s: seq<T>)
    ensures IsSubsequence(s, s)
    decreases |s|
  {
    if s != [] {
      SubsequenceRefl(s[1..]);
    }
  }

  /** Lower-casing a string keeps its substrings, lower-cased. */
  lemma {:induction false} ContainsSubLower(s: string, sub: string)
    requires ContainsSub(s, sub)
    ensures ContainsSub(Lower(s), Lower(sub))
    decreases |s|
  {
    if sub <= s {
      assert Lower(sub) <= Lower(s) by {
        forall i | 0 <= i < |sub| ensures Lower(sub)[i] == Lower(s)[i] {
          assert sub[i] == s[i];
        }
      }
    } else {
      ContainsSubLower(s[1..], sub);
      assert Lower(s[1..]) == Lower(s)[1..];
    }
  }

  /** The search ignores the query's case. */
  lemma SearchIgnoresQueryCase(books: seq<Book>, query: string)
    ensures Search(books, Some(Lower(query))) == Search(books, Some(query))
  {
    assert Lower(Lower(query)) == Lower(query);
  }

  /** A book whose title contains the query verbatim is always found. */
  lemma SearchFindsVerbatim(books: seq<Book>, query: string, b: Book)
    requires b in books && ContainsSub(b.title, query)
    ensures b in Search(books, Some(query))
  {
    ContainsSubLower(b.title, query);
  }

  /** The position of the first record with the given id, if any. */
  function FirstWithId(books: seq<Book>, id: int): (r: Option<nat>)
    ensures r.None? <==> forall b <- books :: b.id != id
    ensures r.Some? ==> r.value < |books| && books[r.value].id == id &&
                        forall j :: 0 <= j < r.value ==> books[j].id != id
  {
    if books == [] then None
    else if books[0].id == id then Some(0)
    else
      match FirstWithId(books[1..], id)
      case None => assert books == [books[0]] + books[1..]; None
      case Some(k) => Some(k + 1)
  }

  /** The first-match position is the only index meeting its contract. */
  lemma FirstWithIdAt(books: seq<Book>, id: int, k: nat)
    requires k < |books| && books[k].id == id
    requires forall j :: 0 <= j < k ==> books[j].id != id
    ensures FirstWithId(books, id) == Some(k)
  {
    assert books[k] in books;
  }

  /** The table after `update_book`: the first record with the id gets
      the new title and author; without one, the table is as it was. */
  function UpdatedFirst(books: seq<Book>, id: int, title: string, author: string): (r: seq<Book>)
    ensures |r| == |books|
    ensures forall i :: 0 <= i < |r| ==> r[i].id == books[i].id
    ensures (forall b <- books :: b.id != id) ==> r == books
    ensures forall k :: (0 <= k < |books| && books[k].id == id &&
                         forall j :: 0 <= j < k ==> books[j].id != id) ==>
              r[k] == Book(id, title, author) &&
              forall i :: 0 <= i < |r| && i != k ==> r[i] == books[i]
  {
    match FirstWithId(books, id)
    case None => books
    case Some(k) =>
      var r := books[k := Book(books[k].id, title, author)];
      assert forall k' :: (0 <= k' < |books| && books[k'].id == id &&
                           forall j :: 0 <= j < k' ==> books[j].id != id) ==> k' == k;
      r
  }

  /** `[book for book in books_db if book["id"] != book_id]`: the records
      with that id go, all others stay, in their order. */
  function WithoutId(books: seq<Book>, id: int): (r: seq<Book>)
    ensures forall b :: b in r <==> b in books && b.id != id
    ensures IsSubsequence(r, books)
  {
    Keep(books, (b: Book) => b.id != id)
  }

  /** The first record's id differs from every later one. */
  lemma HeadIdFresh(books: seq<Book>)
    requires UniqueIds(books) && books != []
    ensures UniqueIds(books[1..])
    ensures forall b <- books[1..] :: b.id != books[0].id
  {
    forall b | b in books[1..] ensures b.id != books[0].id {
      var m :| 0 <= m < |books[1..]| && books[1..][m] == b;
      assert books[m + 1] == b;
    }
  }

  /** Putting a record with a new id in front keeps ids distinct. */
  lemma ConsUnique(x: Book, rest: seq<Book>)
    requires UniqueIds(rest) && forall b <- rest :: b.id != x.id
    ensures UniqueIds([x] + rest)
  {
    var r := [x] + rest;
    forall i, j | 0 <= i < j < |r| ensures r[i].id != r[j].id {
      assert r[j] == rest[j - 1];
      if i > 0 {
        assert r[i] == rest[i - 1];
      }
    }
  }

  /** A filter of a table with distinct ids has distinct ids. */
  lemma {:induction false} KeepUnique(books: seq<Book>, p: Book -> bool)
    requires UniqueIds(books)
    ensures UniqueIds(Keep(books, p))
    decreases |books|
  {
    if books != [] {
      var rest := books[1..];
      HeadIdFresh(books);
      KeepUnique(rest, p);
      var kept := Keep(rest, p);
      if p(books[0]) {
        assert forall b <- kept :: b in rest;
        ConsUnique(books[0], kept);
      }
    }
  }

  /** Deleting an id that no record has changes nothing. */
  lemma {:induction false} WithoutMissingId(books: seq<Book>, id: int)
    requires forall b <- books :: b.id != id
    ensures WithoutId(books, id) == books
    decreases |books|
  {
    if books != [] {
      assert books == [books[0]] + books[1..];
      assert books[0] in books;
      WithoutMissingId(books[1..], id);
    }
  }

  /** When no other record shares record k's id, deleting that id removes
      exactly record k. */
  lemma {:induction false} WithoutIdExact(books: seq<Book>, k: nat)
    requires k < |books|
    requires forall j :: 0 <= j < |books| && j != k ==> books[j].id != books[k].id
    ensures WithoutId(books, books[k].id) == books[..k] + books[k + 1..]
    decreases k
  {
    if k == 0 {
      WithoutHeadId(books);
    } else {
      var rest := books[1..];
      assert rest[k - 1] == books[k];
      forall j | 0 <= j < |rest| && j != k - 1 ensures rest[j].id != rest[k - 1].id {
        assert rest[j] == books[j + 1];
      }
      WithoutIdExact(rest, k - 1);
      assert books[0].id != books[k].id;
      WithoutIdCons(books, k);
    }
  }

  lemma WithoutHeadId(books: seq<Book>)
    requires books != []
    requires forall j :: 0 < j < |books| ==> books[j].id != books[0].id
    ensures WithoutId(books, books[0].id) == books[1..]
  {
    var rest := books[1..];
    forall b | b in rest ensures b.id != books[0].id {
      var m :| 0 <= m < |rest| && rest[m] == b;
      assert books[m + 1] == b;
    }
    WithoutMissingId(rest, books[0].id);
    WithoutIdUnfold(books, books[0].id);
  }

  lemma WithoutIdCons(books: seq<Book>, k: nat)
    requires 0 < k < |books| && books[0].id != books[k].id
    requires WithoutId(books[1..], books[k].id) == books[1..][..k - 1] + books[1..][k..]
    ensures WithoutId(books, books[k].id) == books[..k] + books[k + 1..]
  {
    var tail := WithoutId(books[1..], books[k].id);
    WithoutIdUnfold(books, books[k].id);
    assert WithoutId(books, books[k].id) == [books[0]] + tail;
    SliceAround(books, k);
  }

  lemma SliceAround<T>(s: seq<T>, k: nat)
    requires 0 < k < |s|
    ensures [s[0]] + (s[1..][..k - 1] + s[1..][k..]) == s[..k] + s[k + 1..]
  {
    assert s[..k] == [s[0]] + s[1..][..k - 1];
    assert s[k + 1..] == s[1..][k..];
  }

  /** One step of the delete filter. */
  lemma WithoutIdUnfold(books: seq<Book>, id: int)
    requires books != []
    ensures WithoutId(books, id) ==
            if books[0].id != id then [books[0]] + WithoutId(books[1..], id) else WithoutId(books[1..], id)
  {
  }

  /** `max(books_db, key=lambda x: x["id"])`: the first record with the
      largest id, as `max` returns it. */
  function MaxBook(books: seq<Book>): (m: Book)
    requires books != []
    ensures m in books
    ensures forall b <- books :: b.id <= m.id
    ensures exists k :: 0 <= k < |books| && books[k] == m && forall j :: 0 <= j < k ==> books[j].id < m.id
    decreases |books|
  {
    if |books| == 1 then
      books[0]
    else
      assert books == [books[0]] + books[1..];
      var best := MaxBook(books[1..]);
      if best.id > books[0].id then
        var k :| 0 <= k < |books[1..]| && books[1..][k] == best && forall j :: 0 <= j < k ==> books[1..][j].id < best.id;
        assert books[k + 1] == best && forall j :: 0 <= j < k + 1 ==> books[j].id < best.id;
        best
      else
        books[0]
  }

  /** With distinct ids, `delete_highest_id` on a non-empty table removes
      exactly one record, the one with the largest id; every remaining id is
      smaller. */
  lemma DeleteHighestShape(books: seq<Book>)
    requires UniqueIds(books) && books != []
    ensures var m := MaxBook(books);
            var r := WithoutId(books, m.id);
            |r| == |books| - 1 &&
            (exists k :: 0 <= k < |books| && books[k] == m && r == books[..k] + books[k + 1..]) &&
            forall b <- r :: b.id < m.id
  {
    var m := MaxBook(books);
    var k :| 0 <= k < |books| && books[k] == m;
    WithoutIdExact(books, k);
    var r := WithoutId(books, m.id);
    assert r == books[..k] + books[k + 1..];
    assert |r| == |books| - 1;
    forall b <- r ensures b.id < m.id {
      assert b in books && b.id != m.id;
    }
  }

  /** `books_db` and `next_id` together. */
  class Library {
    var books: seq<Book>
    var nextId: int

    /** Distinct ids, all positive and below the counter. */
    ghost predicate Valid()
      reads this
    {
      UniqueIds(books) && IdsBelow(books, nextId) && 1 <= nextId
    }

    constructor ()
      ensures Valid()
      ensures books == Seed && nextId == SeedNextId
    {
      books := Seed;
      nextId := SeedNextId;
    }

    /** `get_next_id`: hand out the counter, then advance it by one. */
    method GetNextId() returns (id: int)
      requires Valid()
      modifies this
      ensures Valid()
      ensures id == old(nextId) && nextId == old(nextId) + 1
      ensures books == old(books)
    {
      id := nextId;
      nextId := nextId + 1;
    }

    /** The list `home` renders. */
    method Home(search: Option<string>) returns (shown: seq<Book>)
      ensures shown == Search(books, search)
    {
      if search.None? || search.value == "" {
        shown := books;
      } else {
        shown := Keep(books, TitleContains(Lower(search.value)));
      }
    }

    /** `add_book`: append one record with a fresh id. */
    method AddBook(title: string, author: string)
      requires Valid()
      modifies this
      ensures Valid()
      ensures books == old(books) + [Book(old(nextId), title, author)]
      ensures nextId == old(nextId) + 1
      ensures forall b <- old(books) :: b.id < books[|books| - 1].id
    {
      var id := GetNextId();
      books := books + [Book(id, title, author)];
    }

    /** The lookup of `update_book_form`: the first record with the id. */
    method UpdateBookForm(bookId: int) returns (book: Option<Book>)
      ensures book.None? <==> forall b <- books :: b.id != bookId
      ensures book.Some? ==> FirstWithId(books, bookId).Some? &&
                             book.value == books[FirstWithId(books, bookId).value]
    {
      var i := 0;
      while i < |books|
        invariant 0 <= i <= |books|
        invariant forall j :: 0 <= j < i ==> books[j].id != bookId
      {
        if books[i].id == bookId {
          FirstWithIdAt(books, bookId, i);
          return Some(books[i]);
        }
        i := i + 1;
      }
      return None;
    }

    /** `update_book`: overwrite title and author of the first record with
      the id, then stop. */
    method UpdateBook(bookId: int, title: string, author: string)
      requires Valid()
      modifies this
      ensures Valid()
      ensures books == UpdatedFirst(old(books), bookId, title, author)
      ensures nextId == old(nextId)
    {
      var i := 0;
      while i < |books|
        invariant 0 <= i <= |books|
        invariant forall j :: 0 <= j < i ==> books[j].id != bookId
        invariant books == old(books) && nextId == old(nextId)
      {
        if books[i].id == bookId {
          FirstWithIdAt(books, bookId, i);
          books := books[i := Book(books[i].id, title, author)];
          break;
        }
        i := i + 1;
      }
      assert forall b <- books :: b in old(books) || b == Book(bookId, title, author);
    }

    /** `delete_book`: drop every record with the id. */
    method DeleteBook(bookId: int)
      requires Valid()
      modifies this
      ensures Valid()
      ensures books == WithoutId(old(books), bookId)
      ensures nextId == old(nextId)
    {
      KeepUnique(books, (b: Book) => b.id != bookId);
      books := WithoutId(books, bookId);
    }

    /** `delete_highest_id`: on a non-empty table, drop the records with
      the largest id; the counter is left alone, so ids are not reused. */
    method DeleteHighestId()
      requires Valid()
      modifies this
      ensures Valid()
      ensures old(books) == [] ==> books == []
      ensures old(books) != [] ==> books == WithoutId(old(books), MaxBook(old(books)).id)
      ensures nextId == old(nextId)
    {
      if books != [] {
        var highest := MaxBook(books);
        KeepUnique(books, (b: Book) => b.id != highest.id);
        books := WithoutId(books, highest.id);
      }
    }
  }
}
