/**
 * The records the console exchanges with the library API: readers, books,
 * lending records (plain and with book and reader expanded) and the
 * four-valued lending status.
 *
 * Calendar dates are integer milliseconds since the Unix epoch; a date picked
 * in a form ("YYYY-MM-DD") is the millisecond count of its UTC midnight.
 */
module LibraryTypes {

  datatype Option<+T> = None | Some(value: T)

  /** Milliseconds in one day: 1000 * 60 * 60 * 24. */
  const MsPerDay: int := 86400000

  datatype Status = Borrowed | Returned | Overdue | Pending

  /** The wire spelling of a status. */
  function StatusName(s: Status): (name: string)
    ensures name != ""
  {
    match s
    case Borrowed => "borrowed"
    case Returned => "returned"
    case Overdue => "overdue"
    case Pending => "pending"
  }

  /** Reads a status back from its wire spelling; any other text is no status. */
  function ParseStatus(name: string): (s: Option<Status>)
    ensures s.Some? ==> StatusName(s.value) == name
  {
    if name == "borrowed" then Some(Borrowed)
    else if name == "returned" then Some(Returned)
    else if name == "overdue" then Some(Overdue)
    else if name == "pending" then Some(Pending)
    else None
  }

  /** Every status survives a trip through its wire spelling. */
  lemma StatusNameRoundTrip(s: Status)
    ensures ParseStatus(StatusName(s)) == Some(s)
  {
  }

  datatype Reader = Reader(id: string, name: string, email: string, phone: string, membershipDate: string)

  /** A book; the number of copies is kept as text, as the API delivers it. */
  datatype Book = Book(
    id: string, title: string, author: string, isbn: string, category: string,
    copiesAvailable: string, coverColor: Option<string>, coverImage: Option<string>)

  datatype LendingRecord = LendingRecord(
    id: string, bookId: string, readerId: string,
    borrowedDate: int, dueDate: int, returnedDate: Option<int>, status: Status)

  /** The summaries a populated lending embeds in place of the two ids. */
  datatype BookSummary = BookSummary(id: string, title: string, author: string)
  datatype ReaderSummary = ReaderSummary(id: string, name: string, email: string)

  datatype LendingPopulated = LendingPopulated(
    id: string, book: BookSummary, reader: ReaderSummary,
    borrowedDate: int, dueDate: int, returnedDate: Option<int>, status: Status)

  /** JavaScript truthiness of a cookie value: missing or empty means no token. */
  predicate HasToken(token: Option<string>) {
    token.Some? && token.value != ""
  }

  /** A page's list after an awaited reload: the fetched list, or the old one when the fetch failed. */
  function Reloaded<T>(current: seq<T>, refreshed: Option<seq<T>>): seq<T> {
    if refreshed.Some? then refreshed.value else current
  }
}
