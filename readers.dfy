/**
 * The reader directory page: the search filter, and the add, edit and
 * confirm-then-delete handlers with the form state they reset.
 *
 * As on the book page, API outcomes are parameters and `refreshed` is the
 * outcome of the awaited reload of the list (`None`: it failed and the page
 * kept its list).
 */
module ReaderDirectory {
  import opened LibraryTypes
  import opened TextOps
  import opened SeqFilter

  /** The search rule: name or email contain the term, ignoring case. The phone is not searched. */
  predicate ReaderMatches(r: Reader, term: string) {
    Contains(Lower(r.name), Lower(term)) || Contains(Lower(r.email), Lower(term))
  }

  /** `filteredReaders`. */
  function FilteredReaders(readers: seq<Reader>, term: string): seq<Reader> {
    Filter(readers, r => ReaderMatches(r, term))
  }

  /**
   * The visible list keeps the loaded order, holds exactly the matching readers,
   * and keeps every matching entry, repeats included.
   */
  lemma FilteredReadersSpec(readers: seq<Reader>, term: string, r: Reader)
    ensures IsSubsequence(FilteredReaders(readers, term), readers)
    ensures r in FilteredReaders(readers, term) <==> r in readers && ReaderMatches(r, term)
    ensures |FilteredReaders(readers, term)| + Count(readers, (x: Reader) => !ReaderMatches(x, term)) == |readers|
  {
    FilterIsSubsequence(readers, r => ReaderMatches(r, term));
    FilterMembership(readers, r => ReaderMatches(r, term), r);
    CountComplement(readers, (x: Reader) => ReaderMatches(x, term), (x: Reader) => !ReaderMatches(x, term));
  }

  /** A reader found only by phone number is not shown. */
  lemma PhoneIsNotSearched(readers: seq<Reader>, r: Reader, term: string)
    requires r in readers
    requires Contains(r.phone, term)
    requires !Contains(Lower(r.name), Lower(term)) && !Contains(Lower(r.email), Lower(term))
    ensures r !in FilteredReaders(readers, term)
  {
    FilterMembership(readers, r => ReaderMatches(r, term), r);
  }

  /** An empty search box shows every reader. */
  lemma EmptySearchShowsAllReaders(readers: seq<Reader>)
    ensures FilteredReaders(readers, "") == readers
  {
    forall i | 0 <= i < |readers| ensures ReaderMatches(readers[i], "") {
      ContainsEmpty(Lower(readers[i].name));
    }
    FilterKeepsAll(readers, r => ReaderMatches(r, ""));
  }

  datatype ReaderForm = ReaderForm(name: string, email: string, phone: string, membershipDate: string)

  const EmptyReaderForm := ReaderForm("", "", "", "")

  /** The record sent to create a reader; the server assigns the id. */
  datatype NewReader = NewReader(name: string, email: string, phone: string, membershipDate: string)

  /** The reader list after a successful delete: every reader with that id gone, the rest in order. */
  function RemoveReader(readers: seq<Reader>, id: string): seq<Reader> {
    Filter(readers, (r: Reader) => r.id != id)
  }

  lemma RemoveReaderSpec(readers: seq<Reader>, id: string, r: Reader)
    ensures r in RemoveReader(readers, id) <==> r in readers && r.id != id
    ensures IsSubsequence(RemoveReader(readers, id), readers)
    ensures |RemoveReader(readers, id)| + Count(readers, (x: Reader) => x.id == id) == |readers|
  {
    FilterMembership(readers, (x: Reader) => x.id != id, r);
    FilterIsSubsequence(readers, (x: Reader) => x.id != id);
    CountComplement(readers, (x: Reader) => x.id == id, (x: Reader) => x.id != id);
  }

  /** The update request: the id and the whole edited reader. */
  datatype ReaderUpdate = ReaderUpdate(id: string, reader: Reader)

  class ReaderPage {
    var readers: seq<Reader>
    var newReader: ReaderForm
    var editingReader: Option<Reader>
    var isAddModalOpen: bool
    var isEditModalOpen: bool
    var searchTerm: string

    /** The page starts from the list it is given. */
    constructor (initial: seq<Reader>)
      ensures readers == initial && newReader == EmptyReaderForm && editingReader == None
      ensures !isAddModalOpen && !isEditModalOpen && searchTerm == ""
    {
      readers, newReader, editingReader := initial, EmptyReaderForm, None;
      isAddModalOpen, isEditModalOpen, searchTerm := false, false, "";
    }

    /**
     * `handleAddReader`: the four form fields are sent unchanged; a successful
     * create clears the form and closes the dialog but leaves the list as it was.
     */
    method HandleAddReader(created: bool) returns (sent: NewReader)
      modifies this
      ensures sent == NewReader(old(newReader).name, old(newReader).email, old(newReader).phone, old(newReader).membershipDate)
      ensures created ==> newReader == EmptyReaderForm && !isAddModalOpen
      ensures !created ==> newReader == old(newReader) && isAddModalOpen == old(isAddModalOpen)
      ensures readers == old(readers) && editingReader == old(editingReader)
      ensures isEditModalOpen == old(isEditModalOpen) && searchTerm == old(searchTerm)
    {
      sent := NewReader(newReader.name, newReader.email, newReader.phone, newReader.membershipDate);
      if created {
        newReader := ReaderForm("", "", "", "");
        isAddModalOpen := false;
      }
    }

    /** `handleEditReader`: open the edit dialog on a copy of the reader. */
    method HandleEditReader(reader: Reader)
      modifies this
      ensures editingReader == Some(reader) && isEditModalOpen
      ensures readers == old(readers) && newReader == old(newReader) && isAddModalOpen == old(isAddModalOpen)
      ensures searchTerm == old(searchTerm)
    {
      editingReader, isEditModalOpen := Some(reader), true;
    }

    /**
     * `handleUpdateReader`: nothing happens when no reader is being edited;
     * otherwise the edited reader is sent, and when the server returns the
     * updated record the list is reloaded, that record becomes the one being
     * edited, and the dialog closes.
     */
    method HandleUpdateReader(updated: Option<Reader>, refreshed: Option<seq<Reader>>) returns (sent: Option<ReaderUpdate>)
      modifies this
      ensures old(editingReader) == None ==>
        sent == None && readers == old(readers) && editingReader == old(editingReader) && isEditModalOpen == old(isEditModalOpen)
      ensures old(editingReader).Some? ==> sent == Some(ReaderUpdate(old(editingReader).value.id, old(editingReader).value))
      ensures old(editingReader).Some? && updated.Some? ==>
        readers == Reloaded(old(readers), refreshed) && editingReader == updated && !isEditModalOpen
      ensures old(editingReader).Some? && updated == None ==>
        readers == old(readers) && editingReader == old(editingReader) && isEditModalOpen == old(isEditModalOpen)
      ensures newReader == old(newReader) && isAddModalOpen == old(isAddModalOpen) && searchTerm == old(searchTerm)
    {
      if editingReader == None {
        return None;
      }
      sent := Some(ReaderUpdate(editingReader.value.id, editingReader.value));
      if updated.Some? {
        readers := Reloaded(readers, refreshed);
        editingReader, isEditModalOpen := updated, false;
      }
    }

    /**
     * `handleDeleteReader`: a declined confirmation returns before any delete
     * call; a successful delete drops the reader locally and then reloads.
     */
    method HandleDeleteReader(id: string, confirmed: bool, deleted: bool, refreshed: Option<seq<Reader>>)
      returns (deleteCalled: bool)
      modifies this
      ensures deleteCalled == confirmed
      ensures readers == if confirmed && deleted then Reloaded(RemoveReader(old(readers), id), refreshed) else old(readers)
      ensures newReader == old(newReader) && editingReader == old(editingReader) && searchTerm == old(searchTerm)
      ensures isAddModalOpen == old(isAddModalOpen) && isEditModalOpen == old(isEditModalOpen)
    {
      if !confirmed {
        return false;
      }
      deleteCalled := true;
      if deleted {
        readers := Filter(readers, (r: Reader) => r.id != id);
        readers := Reloaded(readers, refreshed);
      }
    }
  }
}
