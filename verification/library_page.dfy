/**
 * The library screen: the list of books read from storage, the one book
 * whose menu is open, and deletion. A failing storage read is an input.
 */
module LibraryPage {
  import opened Wrappers
  import opened Records
  import opened Seqs
  import opened BookStore

  class Library {
    const store: BookStorage
    var books: seq<Record>
    var loading: bool
    var menuOpen: Option<string>

    constructor(store: BookStorage)
      ensures this.store == store && books == [] && loading && menuOpen == None
    {
      this.store := store;
      books := [];
      loading := true;
      menuOpen := None;
    }

    /** Shows the stored books; when the read fails the list stays as it was
        (empty on first load). Loading ends either way. */
    method LoadBooks(readOk: bool)
      modifies this
      ensures readOk ==> books == store.books
      ensures !readOk ==> books == old(books)
      ensures !loading && menuOpen == old(menuOpen)
    {
      if readOk {
        books := store.List();
      }
      loading := false;
    }

    /** Deletes the book from storage, drops every listed book with the id
        (the others keep their order) and closes the menu. */
    method HandleDeleteBook(id: string)
      modifies this, store
      ensures store.books == WithoutId(old(store.books), id)
      ensures books == WithoutId(old(books), id)
      ensures forall b :: b in books <==> b in old(books) && !HasId(b, id)
      ensures menuOpen == None && loading == old(loading)
    {
      var deleted := store.Delete(id);
      books := WithoutId(books, id);
      menuOpen := None;
    }

    /** Opens the menu of the book, or closes it when it is the open one;
        at most one menu is open at a time. */
    method ToggleMenu(id: string)
      modifies this
      ensures menuOpen == (if old(menuOpen) == Some(id) then None else Some(id))
      ensures books == old(books) && loading == old(loading)
    {
      menuOpen := if menuOpen == Some(id) then None else Some(id);
    }

    /** A click outside the open menu closes it. */
    method CloseMenu()
      modifies this
      ensures menuOpen == None
      ensures books == old(books) && loading == old(loading)
    {
      menuOpen := None;
    }
  }

  /** Deleting keeps the relative order of the remaining books: a book that
      came before another still does. */
  lemma DeleteKeepsOrder(books: seq<Record>, id: string, i: nat, j: nat)
    requires i < j < |books|
    requires !HasId(books[i], id) && !HasId(books[j], id)
    ensures var r := WithoutId(books, id);
      exists a, b :: 0 <= a < b < |r| && r[a] == books[i] && r[b] == books[j]
  {
    var keep := (r: Record) => !HasId(r, id);
    assert WithoutId(books, id) == Filter(books, keep);
    FilterKeepsOrder(books, keep, i, j);
    var a, b :| 0 <= a < b < |Filter(books, keep)| && Filter(books, keep)[a] == books[i] && Filter(books, keep)[b] == books[j];
    assert WithoutId(books, id)[a] == books[i] && WithoutId(books, id)[b] == books[j];
  }
}
