/**
 * The text editor for one book: the edited text, whether it differs from
 * what was last saved, the "saved" notice and the reset confirmation.
 * A failing storage write is an input (`writeOk`), since the browser
 * storage is outside the model.
 */
module EditorPage {
  import opened Wrappers
  import opened Records
  import opened BookStore

  /** The text a reset restores: the book's original text when it is a non-empty string. */
  function OriginalText(book: Option<Record>): (original: Option<string>)
    ensures original.Some? <==> book.Some? && Get(book.value, "originalText").Str? && Get(book.value, "originalText").s != ""
    ensures original.Some? ==> Get(book.value, "originalText") == Str(original.value)
  {
    if book.Some? && Get(book.value, "originalText").Str? && Get(book.value, "originalText").s != "" then
      Some(Get(book.value, "originalText").s)
    else None
  }

  class Editor {
    const bookId: string
    const store: BookStorage
    var book: Option<Record>
    var text: string
    var hasChanges: bool
    var saved: bool
    var showResetConfirm: bool

    constructor(bookId: string, store: BookStorage)
      ensures this.bookId == bookId && this.store == store
      ensures book == None && text == "" && !hasChanges && !saved && !showResetConfirm
    {
      this.bookId := bookId;
      this.store := store;
      book := None;
      text := "";
      hasChanges := false;
      saved := false;
      showResetConfirm := false;
    }

    /** Loads the book; when it is missing the page leaves and nothing changes. */
    method LoadBook() returns (found: bool)
      modifies this
      ensures found <==> FindById(store.books, bookId).Some?
      ensures found ==> book == FindById(store.books, bookId) && text == TextOf(book.value)
      ensures !found ==> book == old(book) && text == old(text)
      ensures hasChanges == old(hasChanges) && saved == old(saved) && showResetConfirm == old(showResetConfirm)
    {
      var b := store.Get(bookId);
      if b.None? {
        return false;
      }
      book := b;
      text := TextOf(b.value);
      found := true;
    }

    /** Typing replaces the text, marks it unsaved and hides the notice. */
    method HandleTextChange(newText: string)
      modifies this
      ensures text == newText && hasChanges && !saved
      ensures book == old(book) && showResetConfirm == old(showResetConfirm)
    {
      text := newText;
      hasChanges := true;
      saved := false;
    }

    /** Writes the text to the book when there are unsaved changes. A
        successful write clears the flag and shows the notice; a failed one
        leaves the flag set. */
    method HandleSave(now: string, writeOk: bool)
      modifies this, store
      ensures !old(hasChanges) ==> store.books == old(store.books) && !hasChanges && saved == old(saved)
      ensures old(hasChanges) && writeOk ==>
        store.books == UpdatedBooks(old(store.books), bookId, map["text" := Str(text)], now) && !hasChanges && saved
      ensures old(hasChanges) && !writeOk ==> store.books == old(store.books) && hasChanges && saved == old(saved)
      ensures text == old(text) && book == old(book) && showResetConfirm == old(showResetConfirm)
    {
      if !hasChanges {
        return;
      }
      if writeOk {
        var updated := store.Update(bookId, map["text" := Str(text)], now);
        hasChanges := false;
        saved := true;
      }
    }

    /** The notice hides itself two seconds after a save. */
    method SavedNoticeExpired()
      modifies this
      ensures !saved
      ensures text == old(text) && book == old(book) && hasChanges == old(hasChanges)
      ensures showResetConfirm == old(showResetConfirm)
    {
      saved := false;
    }

    method AskReset()
      modifies this
      ensures showResetConfirm
      ensures text == old(text) && book == old(book) && hasChanges == old(hasChanges) && saved == old(saved)
    {
      showResetConfirm := true;
    }

    method CancelReset()
      modifies this
      ensures !showResetConfirm
      ensures text == old(text) && book == old(book) && hasChanges == old(hasChanges) && saved == old(saved)
    {
      showResetConfirm := false;
    }

    /** Restores the original text, marking it unsaved and closing the
        dialog; does nothing when the book has no original text. */
    method HandleReset()
      modifies this
      ensures OriginalText(old(book)).None? ==>
        text == old(text) && hasChanges == old(hasChanges) && showResetConfirm == old(showResetConfirm)
      ensures OriginalText(old(book)).Some? ==>
        text == OriginalText(old(book)).value && hasChanges && !showResetConfirm
      ensures book == old(book) && saved == old(saved)
    {
      var original := OriginalText(book);
      if original.None? {
        return;
      }
      text := original.value;
      hasChanges := true;
      showResetConfirm := false;
    }

    /** Leaving the editor saves first exactly when there are unsaved changes. */
    method HandleBack(now: string, writeOk: bool) returns (savedFirst: bool)
      modifies this, store
      ensures savedFirst == old(hasChanges)
      ensures store.books == if old(hasChanges) && writeOk
        then UpdatedBooks(old(store.books), bookId, map["text" := Str(text)], now)
        else old(store.books)
      ensures hasChanges == (old(hasChanges) && !writeOk)
      ensures saved == if old(hasChanges) && writeOk then true else old(saved)
      ensures text == old(text) && book == old(book) && showResetConfirm == old(showResetConfirm)
    {
      savedFirst := hasChanges;
      if hasChanges {
        HandleSave(now, writeOk);
      }
    }
  }
}
