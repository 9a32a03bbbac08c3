/**
 * The audiobook library's storage: one array of book records under a single
 * browser-storage key. Book ids and timestamps come from the clock and a
 * random source, so they are parameters here.
 */
module BookStore {
  import opened Wrappers
  import opened Records

  const StorageKey: string := "pdf_audiobook_books"

  /** The record `create` appends: a fresh id, the caller's fields (which win
      over that id), timestamps, and a playback position of zero. */
  function NewBook(bookData: Record, id: string, now: string): (book: Record)
    ensures Get(book, "currentPosition") == Num(0)
    ensures "id" !in bookData ==> HasId(book, id)
    ensures "id" in bookData ==> Get(book, "id") == bookData["id"]
    ensures Get(book, "createdAt") == Str(now) && Get(book, "updatedAt") == Str(now)
    ensures book.Keys == bookData.Keys + {"id", "createdAt", "updatedAt", "currentPosition"}
    ensures forall k :: k in bookData && k !in {"createdAt", "updatedAt", "currentPosition"} ==>
                        book[k] == bookData[k]
  {
    Spread(Spread(map["id" := Str(id)], bookData),
           map["createdAt" := Str(now), "updatedAt" := Str(now), "currentPosition" := Num(0)])
  }

  /** A book's text as the pages show it; a missing or non-string text reads as empty. */
  function TextOf(book: Record): (text: string)
    ensures Get(book, "text").Str? ==> text == Get(book, "text").s
    ensures !Get(book, "text").Str? ==> text == ""
  {
    if Get(book, "text").Str? then Get(book, "text").s else ""
  }

  /** The book list after `update`: the first book with the id merged with the
      updates and a fresh timestamp; unchanged when no book has the id. */
  function UpdatedBooks(books: seq<Record>, id: string, updates: Record, now: string): (r: seq<Record>)
    ensures |r| == |books|
    ensures IndexOfId(books, id) < 0 ==> r == books
    ensures 0 <= IndexOfId(books, id) ==>
      r == MergeFirst(books, id, Spread(updates, map["updatedAt" := Str(now)]))
  {
    if IndexOfId(books, id) < 0 then books
    else MergeFirst(books, id, Spread(updates, map["updatedAt" := Str(now)]))
  }

  /** The stored books; an absent key reads as no books. */
  class BookStorage {
    var books: seq<Record>

    constructor ()
      ensures books == []
    {
      books := [];
    }

    method List() returns (r: seq<Record>)
      ensures r == books
    {
      r := books;
    }

    /** The first book with this id, or null. */
    method Get(id: string) returns (book: Option<Record>)
      ensures book == FindById(books, id)
      ensures book.None? <==> forall b :: b in books ==> !HasId(b, id)
      ensures book.Some? ==> book.value in books && HasId(book.value, id)
    {
      book := FindById(books, id);
    }

    method Create(bookData: Record, freshId: string, now: string) returns (book: Record)
      modifies this
      ensures book == NewBook(bookData, freshId, now)
      ensures books == old(books) + [book]
    {
      book := NewBook(bookData, freshId, now);
      books := books + [book];
    }

    /** Merges `updates` into the first book with this id and stamps it; null
        (and nothing written) when there is none. */
    method Update(id: string, updates: Record, now: string) returns (book: Option<Record>)
      modifies this
      ensures IndexOfId(old(books), id) < 0 ==> book.None? && books == old(books)
      ensures 0 <= IndexOfId(old(books), id) ==>
        var k := IndexOfId(old(books), id);
        var patch := Spread(updates, map["updatedAt" := Str(now)]);
        && book == Some(Spread(old(books)[k], patch))
        && books == MergeFirst(old(books), id, patch)
      ensures books == UpdatedBooks(old(books), id, updates, now)
    {
      var index := IndexOfId(books, id);
      if index == -1 {
        book := None;
      } else {
        var patch := Spread(updates, map["updatedAt" := Str(now)]);
        books := MergeFirst(books, id, patch);
        book := Some(books[index]);
      }
    }

    /** Drops every book with this id and reports success. */
    method Delete(id: string) returns (success: bool)
      modifies this
      ensures success
      ensures books == WithoutId(old(books), id)
    {
      books := WithoutId(books, id);
      success := true;
    }
  }

  /** After an update of an existing book, reading it back yields the merged record. */
  lemma UpdateThenGet(books: seq<Record>, id: string, patch: Record)
    requires 0 <= IndexOfId(books, id)
    requires "id" !in patch
    ensures FindById(MergeFirst(books, id, patch), id) == Some(Spread(books[IndexOfId(books, id)], patch))
  {
    var k := IndexOfId(books, id);
    var after := MergeFirst(books, id, patch);
    assert HasId(after[k], id);
    assert forall j :: 0 <= j < k ==> after[j] == books[j];
  }

  /** After a delete, no stored book has that id. */
  lemma DeleteThenGet(books: seq<Record>, id: string)
    ensures FindById(WithoutId(books, id), id).None?
  {
  }
}
