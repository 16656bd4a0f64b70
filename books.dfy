/**
 * The book catalogue page: the search filter over the loaded books, and the
 * add, edit and delete handlers with the form state they reset.
 *
 * The outcome of each API call is a parameter (`created`, `updated`,
 * `deleted`: the call returned a truthy result). `refreshed` is the outcome of
 * the awaited reload of the list: `Some(list)` when it succeeded, `None` when
 * it failed and the page kept its list.
 */
module BookCatalogue {
  import opened LibraryTypes
  import opened TextOps
  import opened SeqFilter

  /** The search rule: title or author contain the term ignoring case, or the ISBN contains it exactly. */
  predicate BookMatches(b: Book, term: string) {
    Contains(Lower(b.title), Lower(term)) ||
    Contains(Lower(b.author), Lower(term)) ||
    Contains(b.isbn, term)
  }

  /** `filteredBooks`. */
  function FilteredBooks(books: seq<Book>, term: string): seq<Book> {
    Filter(books, b => BookMatches(b, term))
  }

  /**
   * The visible list keeps the loaded order, shows nothing that does not match,
   * and keeps every matching entry, repeats included: its length is the list's
   * length less the entries that do not match.
   */
  lemma FilteredBooksSpec(books: seq<Book>, term: string, b: Book)
    ensures IsSubsequence(FilteredBooks(books, term), books)
    ensures b in FilteredBooks(books, term) <==> b in books && BookMatches(b, term)
    ensures |FilteredBooks(books, term)| + Count(books, (x: Book) => !BookMatches(x, term)) == |books|
  {
    FilterIsSubsequence(books, b => BookMatches(b, term));
    FilterMembership(books, b => BookMatches(b, term), b);
    CountComplement(books, (x: Book) => BookMatches(x, term), (x: Book) => !BookMatches(x, term));
  }

  /** An empty search box shows every book. */
  lemma EmptySearchShowsAllBooks(books: seq<Book>)
    ensures FilteredBooks(books, "") == books
  {
    forall i | 0 <= i < |books| ensures BookMatches(books[i], "") {
      ContainsEmpty(Lower(books[i].title));
    }
    FilterKeepsAll(books, b => BookMatches(b, ""));
  }

  /** The add-book form; `copies_Available` is the form's own spelling of the copies field. */
  datatype BookForm = BookForm(title: string, author: string, isbn: string, category: string, copies_Available: string)

  const EmptyBookForm := BookForm("", "", "", "", "")

  /** The record sent to create a book; the server assigns the id. */
  datatype NewBook = NewBook(title: string, author: string, isbn: string, category: string, copiesAvailable: string)

  /** The form copied field by field, with the copies field renamed and left as text. */
  function BookPayload(form: BookForm): (b: NewBook)
    ensures b.title == form.title && b.author == form.author && b.isbn == form.isbn
    ensures b.category == form.category && b.copiesAvailable == form.copies_Available
  {
    NewBook(form.title, form.author, form.isbn, form.category, form.copies_Available)
  }

  /** The catalogue after a successful delete: every book with that id gone, the rest in order. */
  function RemoveBook(books: seq<Book>, id: string): seq<Book> {
    Filter(books, (b: Book) => b.id != id)
  }

  lemma RemoveBookSpec(books: seq<Book>, id: string, b: Book)
    ensures b in RemoveBook(books, id) <==> b in books && b.id != id
    ensures IsSubsequence(RemoveBook(books, id), books)
    ensures |RemoveBook(books, id)| + Count(books, (x: Book) => x.id == id) == |books|
  {
    FilterMembership(books, (b: Book) => b.id != id, b);
    FilterIsSubsequence(books, (b: Book) => b.id != id);
    CountComplement(books, (x: Book) => x.id == id, (x: Book) => x.id != id);
  }

  /** The update request: the id and the whole edited book. */
  datatype BookUpdate = BookUpdate(id: string, book: Book)

  class BookPage {
    var books: seq<Book>
    var newBook: BookForm
    var editingBook: Option<Book>
    var isAddModalOpen: bool
    var isEditModalOpen: bool
    var searchTerm: string

    constructor ()
      ensures books == [] && newBook == EmptyBookForm && editingBook == None
      ensures !isAddModalOpen && !isEditModalOpen && searchTerm == ""
    {
      books, newBook, editingBook := [], EmptyBookForm, None;
      isAddModalOpen, isEditModalOpen, searchTerm := false, false, "";
    }

    /**
     * `handleAddBook`: the create call always carries the form's fields; after a
     * successful create the list is reloaded, the form cleared and the dialog
     * closed, and after a failed one nothing changes.
     */
    method HandleAddBook(created: bool, refreshed: Option<seq<Book>>) returns (sent: NewBook)
      modifies this
      ensures sent == BookPayload(old(newBook))
      ensures created ==> books == Reloaded(old(books), refreshed) && newBook == EmptyBookForm && !isAddModalOpen
      ensures !created ==> books == old(books) && newBook == old(newBook) && isAddModalOpen == old(isAddModalOpen)
      ensures editingBook == old(editingBook) && isEditModalOpen == old(isEditModalOpen) && searchTerm == old(searchTerm)
    {
      sent := NewBook(newBook.title, newBook.author, newBook.isbn, newBook.category, newBook.copies_Available);
      if created {
        books := Reloaded(books, refreshed);
        newBook := BookForm("", "", "", "", "");
        isAddModalOpen := false;
      }
    }

    /** `handleEditBook`: open the edit dialog on a copy of the book. */
    method HandleEditBook(book: Book)
      modifies this
      ensures editingBook == Some(book) && isEditModalOpen
      ensures books == old(books) && newBook == old(newBook) && isAddModalOpen == old(isAddModalOpen)
      ensures searchTerm == old(searchTerm)
    {
      editingBook, isEditModalOpen := Some(book), true;
    }

    /**
     * `handleUpdateBook`: nothing at all happens when no book is being edited;
     * otherwise the edited book is sent, and on success the list is reloaded and
     * the dialog closed.
     */
    method HandleUpdateBook(updated: bool, refreshed: Option<seq<Book>>) returns (sent: Option<BookUpdate>)
      modifies this
      ensures old(editingBook) == None ==>
        sent == None && books == old(books) && editingBook == old(editingBook) && isEditModalOpen == old(isEditModalOpen)
      ensures old(editingBook).Some? ==> sent == Some(BookUpdate(old(editingBook).value.id, old(editingBook).value))
      ensures old(editingBook).Some? && updated ==>
        books == Reloaded(old(books), refreshed) && editingBook == None && !isEditModalOpen
      ensures old(editingBook).Some? && !updated ==>
        books == old(books) && editingBook == old(editingBook) && isEditModalOpen == old(isEditModalOpen)
      ensures newBook == old(newBook) && isAddModalOpen == old(isAddModalOpen) && searchTerm == old(searchTerm)
    {
      if editingBook == None {
        return None;
      }
      sent := Some(BookUpdate(editingBook.value.id, editingBook.value));
      if updated {
        books := Reloaded(books, refreshed);
        editingBook, isEditModalOpen := None, false;
      }
    }

    /**
     * `handleDeleteBook`: on success the book is dropped from the local list and
     * the list is then reloaded; on failure nothing changes.
     */
    method HandleDeleteBook(id: string, deleted: bool, refreshed: Option<seq<Book>>)
      modifies this
      ensures books == if deleted then Reloaded(RemoveBook(old(books), id), refreshed) else old(books)
      ensures newBook == old(newBook) && editingBook == old(editingBook) && searchTerm == old(searchTerm)
      ensures isAddModalOpen == old(isAddModalOpen) && isEditModalOpen == old(isEditModalOpen)
    {
      if deleted {
        books := Filter(books, (b: Book) => b.id != id);
        books := Reloaded(books, refreshed);
      }
    }
  }
}
