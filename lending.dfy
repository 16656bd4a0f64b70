/**
 * The lending page: the lend form's validation and the record it creates, the
 * status-edit dialog, the quick-stat counts and the "14 days" due-date button.
 *
 * "Now" is an explicit parameter in milliseconds; a calendar date is the
 * millisecond count of its UTC midnight, so today's date is `DayStart(now)`.
 * The outcome of each API call is a parameter: `created` / `updated` is true
 * when the call returned a record and false when it returned nothing or threw.
 */
module Lending {
  import opened LibraryTypes
  import opened SeqFilter

  /** The UTC midnight that starts the day containing `t` (`toISOString().split("T")[0]`). */
  function DayStart(t: int): (d: int)
    ensures d % MsPerDay == 0
    ensures d <= t < d + MsPerDay
  {
    t - t % MsPerDay
  }

  /** Adding whole days to an instant moves its day start by the same amount. */
  lemma DayStartShift(t: int, days: int)
    ensures DayStart(t + days * MsPerDay) == DayStart(t) + days * MsPerDay
  {
    ModShift(t, days);
  }

  lemma ModShift(t: int, days: int)
    ensures (t + days * MsPerDay) % MsPerDay == t % MsPerDay
  {
  }

  /** The record the lend form sends; the server assigns the id. */
  datatype NewLending = NewLending(bookId: string, readerId: string, borrowedDate: int, dueDate: int, status: Status)

  datatype LendDecision = MissingFields | DueBeforeBorrowed | Create(record: NewLending)

  /**
   * The checks of `handleLendBook`, in order: every field filled in, then a due
   * date not before today; only then is a record built, always with status
   * "borrowed" and today as its borrowed date.
   */
  function LendRequest(selectedBook: string, selectedReader: string, dueDate: Option<int>, now: int): (d: LendDecision)
    ensures d == MissingFields <==> selectedBook == "" || selectedReader == "" || dueDate == None
    ensures d == DueBeforeBorrowed <==>
      selectedBook != "" && selectedReader != "" && dueDate.Some? && dueDate.value < DayStart(now)
    ensures d.Create? ==>
      d.record == NewLending(selectedBook, selectedReader, DayStart(now), dueDate.value, Borrowed)
    ensures d.Create? ==> d.record.borrowedDate <= d.record.dueDate
  {
    if selectedBook == "" || selectedReader == "" || dueDate == None then MissingFields
    else
      var borrowedDate := DayStart(now);
      if dueDate.value < borrowedDate then DueBeforeBorrowed
      else Create(NewLending(selectedBook, selectedReader, borrowedDate, dueDate.value, Borrowed))
  }

  /** A due date on the day of lending is accepted; one a day earlier is not. */
  lemma DueDateBoundary(book: string, reader: string, now: int)
    requires book != "" && reader != ""
    ensures LendRequest(book, reader, Some(DayStart(now)), now).Create?
    ensures LendRequest(book, reader, Some(DayStart(now) - MsPerDay), now) == DueBeforeBorrowed
  {
  }

  /** What the page shows after a lend attempt. */
  datatype LendOutcome = PleaseFillAllFields | DueDateBeforeBorrowed | Lent | LendFailed

  /** The status-edit request: the record's id and a payload holding only the new status. */
  datatype StatusUpdate = StatusUpdate(id: string, status: string)

  /** `Books Currently Lent`: the records whose status is borrowed. */
  function BorrowedCount(records: seq<LendingPopulated>): nat {
    Count(records, (r: LendingPopulated) => r.status == Borrowed)
  }

  /** `Books Returned`: the records whose status is returned. */
  function ReturnedCount(records: seq<LendingPopulated>): nat {
    Count(records, (r: LendingPopulated) => r.status == Returned)
  }

  /** The two status counts never add up to more than `Total Lending Records`. */
  lemma QuickStatsBounded(records: seq<LendingPopulated>)
    ensures BorrowedCount(records) + ReturnedCount(records) <= |records|
  {
    DisjointCountsBounded(records, (r: LendingPopulated) => r.status == Borrowed, (r: LendingPopulated) => r.status == Returned);
  }

  /** A record is counted as lent exactly when its status is borrowed. */
  lemma BorrowedCountMembership(records: seq<LendingPopulated>, r: LendingPopulated)
    ensures r in Filter(records, (x: LendingPopulated) => x.status == Borrowed) <==> r in records && r.status == Borrowed
  {
    FilterMembership(records, (x: LendingPopulated) => x.status == Borrowed, r);
  }

  /** The page's state. The lists the page fetches are loaded elsewhere and only read here. */
  class LendingPage {
    var lendingRecords: seq<LendingPopulated>
    var selectedBook: string
    var selectedReader: string
    var dueDate: Option<int>
    var isEditModalOpen: bool
    var selectedRecord: Option<LendingPopulated>
    var newStatus: string

    constructor ()
      ensures lendingRecords == [] && selectedBook == "" && selectedReader == "" && dueDate == None
      ensures !isEditModalOpen && selectedRecord == None && newStatus == ""
    {
      lendingRecords, selectedBook, selectedReader, dueDate := [], "", "", None;
      isEditModalOpen, selectedRecord, newStatus := false, None, "";
    }

    /**
     * `handleLendBook`: a create call is made only when the form passes both
     * checks; after a successful create the form is cleared, after a failed one
     * it is left for the user to retry.
     */
    method HandleLendBook(now: int, created: bool) returns (outcome: LendOutcome, sent: Option<NewLending>)
      modifies this
      ensures var d := LendRequest(old(selectedBook), old(selectedReader), old(dueDate), now);
        sent == (if d.Create? then Some(d.record) else None) &&
        outcome == (match d
          case MissingFields => PleaseFillAllFields
          case DueBeforeBorrowed => DueDateBeforeBorrowed
          case Create(_) => if created then Lent else LendFailed)
      ensures if outcome == Lent then selectedBook == "" && selectedReader == "" && dueDate == None
              else selectedBook == old(selectedBook) && selectedReader == old(selectedReader) && dueDate == old(dueDate)
      ensures lendingRecords == old(lendingRecords) && isEditModalOpen == old(isEditModalOpen)
      ensures selectedRecord == old(selectedRecord) && newStatus == old(newStatus)
    {
      if selectedBook == "" || selectedReader == "" || dueDate == None {
        return PleaseFillAllFields, None;
      }
      var borrowedDate := DayStart(now);
      if dueDate.value < borrowedDate {
        return DueDateBeforeBorrowed, None;
      }
      var record := NewLending(selectedBook, selectedReader, borrowedDate, dueDate.value, Borrowed);
      sent := Some(record);
      if created {
        selectedBook, selectedReader, dueDate := "", "", None;
        outcome := Lent;
      } else {
        outcome := LendFailed;
      }
    }

    /** The "Edit" button of a history row: select the record and preset the dialog to its status. */
    method OpenEditDialog(record: LendingPopulated)
      modifies this
      ensures selectedRecord == Some(record) && newStatus == StatusName(record.status) && isEditModalOpen
      ensures ParseStatus(newStatus) == Some(record.status)
      ensures lendingRecords == old(lendingRecords) && selectedBook == old(selectedBook)
      ensures selectedReader == old(selectedReader) && dueDate == old(dueDate)
    {
      StatusNameRoundTrip(record.status);
      selectedRecord, newStatus, isEditModalOpen := Some(record), StatusName(record.status), true;
    }

    /**
     * `handleUpdateStatus`: with no record selected nothing is sent; otherwise the
     * payload carries only the chosen status, and the dialog closes on success.
     */
    method HandleUpdateStatus(updated: bool) returns (sent: Option<StatusUpdate>)
      modifies this
      ensures old(selectedRecord) == None ==> sent == None && isEditModalOpen == old(isEditModalOpen)
      ensures old(selectedRecord).Some? ==>
        sent == Some(StatusUpdate(old(selectedRecord).value.id, old(newStatus))) &&
        isEditModalOpen == (old(isEditModalOpen) && !updated)
      ensures lendingRecords == old(lendingRecords) && selectedBook == old(selectedBook)
      ensures selectedReader == old(selectedReader) && dueDate == old(dueDate)
      ensures selectedRecord == old(selectedRecord) && newStatus == old(newStatus)
    {
      if selectedRecord == None {
        return None;
      }
      sent := Some(StatusUpdate(selectedRecord.value.id, newStatus));
      if updated {
        isEditModalOpen := false;
      }
    }

    /** "Auto-calculate (14 days)": the due date becomes the date fourteen days from now. */
    method AutoDueDate(now: int)
      modifies this
      ensures dueDate == Some(DayStart(now + 14 * MsPerDay))
      ensures dueDate == Some(DayStart(now) + 14 * MsPerDay)
      ensures lendingRecords == old(lendingRecords) && selectedBook == old(selectedBook)
      ensures selectedReader == old(selectedReader) && isEditModalOpen == old(isEditModalOpen)
      ensures selectedRecord == old(selectedRecord) && newStatus == old(newStatus)
    {
      DayStartShift(now, 14);
      dueDate := Some(DayStart(now + 14 * MsPerDay));
    }
  }

  /** A due date set by the 14-day button passes the date check of a lend made the same day. */
  lemma AutoDueDatePassesCheck(book: string, reader: string, now: int)
    requires book != "" && reader != ""
    ensures var d := LendRequest(book, reader, Some(DayStart(now + 14 * MsPerDay)), now);
      d.Create? && d.record.dueDate == d.record.borrowedDate + 14 * MsPerDay
  {
    DayStartShift(now, 14);
  }
}
