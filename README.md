# Library admin console: page rules in Dafny

This project models the rules embedded in the pages of a React admin console
for a small library (readers, books, lendings, overdue follow-up). The console
keeps all data on a remote API. Its own logic is small and self-contained:

- the overdue page's day arithmetic, row colours and summary cards;
- the sign-up page's password-strength score, form updates and submit guards;
- the lending page's validation of a new lending, the record it builds, the status dialog, the quick stats and the 14-day button;
- the search filters and add/edit/delete handlers of the book and reader pages;
- the sidebar's active-link rule, the route guard, and the header merging of the HTTP wrapper.

Pure rules are functions with lemmas. Page state that the handlers update
(lists, form records, dialog flags) lives in one class per page
(`SignUpPage`, `LendingPage`, `BookPage`, `ReaderPage`). Each handler is a
method whose `ensures` gives the whole new state. Everything the pages get from
outside is a parameter:

- the current time, in milliseconds since the epoch;
- cookie values, as `Option<string>`;
- the outcome of each API call, true when it returned a truthy result;
- the reloaded list, `None` when the reload failed.

Dates are milliseconds since the epoch. A picked calendar date is its UTC midnight.

Files, one module each:

| file | module | models |
|---|---|---|
| types.dfy | LibraryTypes | `src/types/index.ts`: records and the lending status |
| text.dfy | TextOps | ASCII lower-casing, `includes`, `startsWith`, decimal rendering |
| filter.dfy | SeqFilter | `Array.prototype.filter` and its counting facts |
| overdue.dfy | Overdue | `src/pages/OverdueManagement.tsx` |
| signup.dfy | SignUp | `src/pages/SignUp.tsx` |
| lending.dfy | Lending | `src/pages/LendingManagement.tsx` |
| books.dfy | BookCatalogue | `src/pages/BookManagement.tsx` |
| readers.dfy | ReaderDirectory | `src/pages/ReaderManagement.tsx` |
| sidebar.dfy | Sidebar | `src/components/Sidebar.tsx` |
| apiclient.dfy | ApiClient | `src/API/apiClient.ts` |
| route.dfy | ProtectedRoute | `src/components/ProtectedRoute.tsx` |

The model follows the code as written. In particular:

- Session tokens are tested by JavaScript truthiness, so an empty cookie value counts as no token. This applies in both the route guard and the HTTP wrapper.
- A returned lending whose due date has passed still counts as overdue. The count looks at the due date only.
- On the sign-up page, a submit is refused for every input a user can enter (see Findings).

## Model

| member | source | states |
|---|---|---|
| LibraryTypes.ParseStatus | src/types/index.ts:27 | a recognised status text is the spelling of the status it yields |
| LibraryTypes.StatusNameRoundTrip | src/types/index.ts:27 | each of the four statuses reads back from its wire spelling |
| TextOps.DecimalRoundTrip | src/pages/OverdueManagement.tsx:190 | the decimal text of a day count reads back as that count |
| Overdue.DaysOverdue | src/pages/OverdueManagement.tsx:35-41 | the day count is never negative; it is 0 when now is not after the due date, and otherwise the whole number of days in now − due, rounded down |
| Overdue.DaysOverdueWholeDays | src/pages/OverdueManagement.tsx:35-41 | exactly k days after the due date the count is k |
| Overdue.OverdueIffFullDayPassed | src/pages/OverdueManagement.tsx:38-40 | the count is positive exactly when at least 86400000 ms have passed since the due date |
| Overdue.RowColor | src/pages/OverdueManagement.tsx:43-47 | red for 1 to 5 days (5 is red), yellow above 5 (6 is yellow), green for 0 or less, in both directions |
| Overdue.RowGreenIffNotOverdue | src/pages/OverdueManagement.tsx:43-47 | a row is green exactly while less than a full day has passed since the due date |
| Overdue.OverdueInfoSpec | src/pages/OverdueManagement.tsx:190 | the cell is "Not overdue" exactly when the count is not positive; otherwise it is decimal digits with no leading zero, reading back as the count, followed by " days overdue" |
| Overdue.TotalOverdueCounts | src/pages/OverdueManagement.tsx:49 | the total is at most the number of lendings, and it is 0 exactly when every lending's count is 0 |
| Overdue.TotalOverdueIgnoresStatus | src/pages/OverdueManagement.tsx:49 | lists with the same due dates have the same total, whatever the statuses, so returned lendings count |
| Overdue.ReaderIdsBounds | src/pages/OverdueManagement.tsx:51-54 | a set of reader ids is no larger than the list, is empty only for the empty list, and holds exactly the ids that occur |
| Overdue.ReadersAffectedSpec | src/pages/OverdueManagement.tsx:51-54 | a reader is affected exactly when one of their lendings is overdue; affected readers ≤ total overdue; 0 affected exactly when nothing is overdue |
| Overdue.OverdueDays | src/pages/OverdueManagement.tsx:56-58 | one positive day count per overdue lending |
| Overdue.RoundHalfUp | src/pages/OverdueManagement.tsx:60-62 | the result is the integer nearest to num/den, with ties rounded up |
| Overdue.AvgDaysOverdueBounds | src/pages/OverdueManagement.tsx:56-63 | the average is 0 when nothing is overdue; otherwise it lies between the smallest and largest day count, and is at least 1 |
| SignUp.Strength | src/pages/SignUp.tsx:59-66 | the strength, the number of the four criteria met, is at most 4 |
| SignUp.PasswordStrength | src/pages/SignUp.tsx:59-66 | the counter bumped once per passing test equals the number of criteria met: length ≥ 8, an A–Z, a 0–9, a character outside A–Za–z0–9 |
| SignUp.EmptyPasswordIsWeakest | src/pages/SignUp.tsx:60-65 | the empty password has strength 0 |
| SignUp.StrengthGrowsWithInput | src/pages/SignUp.tsx:61-64 | appending a character never lowers the strength |
| SignUp.StrengthText | src/pages/SignUp.tsx:84-98 | 0 and 1 give "Weak", 2 "Fair", 3 "Good", 4 "Strong", anything else "", in both directions |
| SignUp.StrengthColor | src/pages/SignUp.tsx:68-82 | 0 and 1 give red, 2 yellow, 3 blue, 4 green, anything else gray, in both directions |
| SignUp.EveryStrengthHasLabel | src/pages/SignUp.tsx:68-98 | no password's strength reaches the "" label or the gray fallback |
| SignUp.StrengthBarSpec | src/pages/SignUp.tsx:192-204 | a non-empty password draws 4 segments; segment `level` is coloured iff strength ≥ `level`, in the strength's colour, so exactly `strength` segments are coloured |
| SignUp.ApplyChange | src/pages/SignUp.tsx:51-57 | the named field gets the checked flag for a checkbox and the text otherwise; every other field is unchanged |
| SignUp.SubmitCheck | src/pages/SignUp.tsx:31-41 | a password mismatch is refused first, whatever the terms flag; a matching submit is refused unless the terms are accepted; it is accepted exactly when both hold |
| SignUp.SignUpPage.constructor | src/pages/SignUp.tsx:17-25 | the form starts with five empty texts, terms unchecked, not loading |
| SignUp.SignUpPage.HandleInputChange | src/pages/SignUp.tsx:51-57 | the form becomes a copy with only the named field changed; loading is untouched |
| SignUp.SignUpPage.HandleSubmit | src/pages/SignUp.tsx:28-41 | the outcome follows the two guards in order; loading is raised only when both pass; the form is untouched |
| SignUp.TermsNeverAccepted | src/pages/SignUp.tsx:122-235 | with only the inputs the page renders, the terms flag stays unchecked and no submit is accepted |
| SignUp.TermsCheckboxEnablesSubmit | src/pages/SignUp.tsx:36-41 | with a terms checkbox added, ticking it makes a submit succeed exactly when the two password fields agree |
| Lending.DayStart | src/pages/LendingManagement.tsx:83 | today's date is the midnight that starts the current day: a multiple of a day, at most now, less than a day before it |
| Lending.DayStartShift | src/pages/LendingManagement.tsx:217-222 | moving an instant by whole days moves its date by the same days |
| Lending.LendRequest | src/pages/LendingManagement.tsx:78-96 | a missing book, reader or due date is refused first; then a due date before today is refused; otherwise the record holds the chosen book, reader and due date, today as borrowed date, status borrowed, and its due date is not before its borrowed date |
| Lending.DueDateBoundary | src/pages/LendingManagement.tsx:83-87 | a due date equal to today is accepted, one day earlier is refused |
| Lending.QuickStatsBounded | src/pages/LendingManagement.tsx:246-261 | lent + returned ≤ total records |
| Lending.BorrowedCountMembership | src/pages/LendingManagement.tsx:249 | a record is counted as lent exactly when its status is borrowed |
| Lending.LendingPage.constructor | src/pages/LendingManagement.tsx:44-54 | the page starts with no records, an empty form and the dialog closed |
| Lending.LendingPage.HandleLendBook | src/pages/LendingManagement.tsx:77-112 | a create call is sent only for an accepted form, with the record above; success clears book, reader and due date; refusal or failure leaves them |
| Lending.LendingPage.OpenEditDialog | src/pages/LendingManagement.tsx:307-311 | the dialog opens on the record with the new status preset to the record's current status |
| Lending.LendingPage.HandleUpdateStatus | src/pages/LendingManagement.tsx:114-136 | with no record selected nothing is sent; otherwise the request holds the record id and only the status; the dialog closes on success |
| Lending.LendingPage.AutoDueDate | src/pages/LendingManagement.tsx:217-222 | the due date becomes today's date plus 14 days |
| Lending.AutoDueDatePassesCheck | src/pages/LendingManagement.tsx:217-222 | a lend made right after the 14-day button passes the date check with due = borrowed + 14 days |
| BookCatalogue.FilteredBooksSpec | src/pages/BookManagement.tsx:42-47 | the visible list is an order-preserving subsequence holding exactly the books whose lower-cased title or author contains the lower-cased term, or whose ISBN contains the term; its length is the list's length less the non-matching entries, so every matching copy is kept |
| BookCatalogue.EmptySearchShowsAllBooks | src/pages/BookManagement.tsx:42-47 | the empty term shows every book |
| BookCatalogue.BookPayload | src/pages/BookManagement.tsx:51-57 | title, author, isbn and category are copied; the form's `copies_Available` becomes `copiesAvailable` |
| BookCatalogue.RemoveBookSpec | src/pages/BookManagement.tsx:102-103 | exactly the books with the deleted id are dropped, the rest keep their order |
| BookCatalogue.BookPage.constructor | src/pages/BookManagement.tsx:14-27 | no books, an empty form, no book being edited, dialogs closed |
| BookCatalogue.BookPage.HandleAddBook | src/pages/BookManagement.tsx:49-76 | the form is always sent; on success the list is reloaded, the form reset to "" and the dialog closed; on failure nothing changes |
| BookCatalogue.BookPage.HandleEditBook | src/pages/BookManagement.tsx:78-81 | the edit dialog opens on the book |
| BookCatalogue.BookPage.HandleUpdateBook | src/pages/BookManagement.tsx:83-97 | with no book being edited nothing is sent or changed; otherwise the edited book is sent and, on success, the list is reloaded and editing ends |
| BookCatalogue.BookPage.HandleDeleteBook | src/pages/BookManagement.tsx:99-111 | on success the book is removed locally, then the reload replaces the list if it succeeds; on failure nothing changes |
| ReaderDirectory.FilteredReadersSpec | src/pages/ReaderManagement.tsx:40-44 | the visible list is an order-preserving subsequence holding exactly the readers whose lower-cased name or email contains the lower-cased term; its length is the list's length less the non-matching entries, so every matching copy is kept |
| ReaderDirectory.PhoneIsNotSearched | src/pages/ReaderManagement.tsx:42-43 | a reader matched only by phone number is not shown |
| ReaderDirectory.EmptySearchShowsAllReaders | src/pages/ReaderManagement.tsx:40-44 | the empty term shows every reader |
| ReaderDirectory.RemoveReaderSpec | src/pages/ReaderManagement.tsx:102-103 | exactly the readers with the deleted id are dropped, the rest keep their order |
| ReaderDirectory.ReaderPage.constructor | src/pages/ReaderManagement.tsx:14-24 | the list starts as the given list, with an empty form, no reader being edited and dialogs closed |
| ReaderDirectory.ReaderPage.HandleAddReader | src/pages/ReaderManagement.tsx:46-71 | the four fields are sent; success resets them to "" and closes the dialog; the list itself is never touched |
| ReaderDirectory.ReaderPage.HandleEditReader | src/pages/ReaderManagement.tsx:73-76 | the edit dialog opens on the reader |
| ReaderDirectory.ReaderPage.HandleUpdateReader | src/pages/ReaderManagement.tsx:78-94 | with no reader being edited nothing happens; otherwise the reader is sent and, when a record comes back, the list is reloaded, that record is kept as the edited one and the dialog closes |
| ReaderDirectory.ReaderPage.HandleDeleteReader | src/pages/ReaderManagement.tsx:96-113 | a declined confirmation makes no delete call and changes nothing; a successful delete removes the reader locally, then the reload applies |
| Sidebar.IsActive | src/components/Sidebar.tsx:22-26 | "/" is active iff the pathname is exactly "/"; any other path iff the pathname starts with it; false otherwise |
| Sidebar.OwnPathIsActive | src/components/Sidebar.tsx:24 | a link is active on its own path |
| Sidebar.DashboardActiveWithAnyItem | src/components/Sidebar.tsx:13-24 | whenever any menu item is active, the Dashboard item is active too |
| Sidebar.BooksPageHighlightsTwoItems | src/components/Sidebar.tsx:13-25 | on "/dashboard/books" exactly Dashboard and Books are highlighted |
| ApiClient.MergeHeaders | src/API/apiClient.ts:6-10 | the keys are the caller's plus Content-Type, plus Authorization when a token is present; Content-Type defaults to JSON; a token gives "Bearer " + token; every other caller header is kept |
| ApiClient.CallerContentTypeWins | src/API/apiClient.ts:7-8 | a caller-supplied Content-Type overrides the default |
| ApiClient.AuthorizationRule | src/API/apiClient.ts:8-9 | without a token no Authorization is added and the caller's is kept; with one, it is "Bearer " + token, overriding the caller's |
| ApiClient.BuildConfig | src/API/apiClient.ts:12-15 | method and body are kept; only the headers are replaced by the merged headers |
| ApiClient.HandleResponse | src/API/apiClient.ts:19-23 | a non-ok response gives the error "API error: " + status text; an ok one gives its body |
| ApiClient.Call | src/API/apiClient.ts:17-23 | the call yields a body exactly when the response to the built request is ok |
| ProtectedRoute.Guard | src/components/ProtectedRoute.tsx:5-14 | children render iff at least one token is present; otherwise a replacing redirect to "/signin" |
| ProtectedRoute.GuardIgnoresTokenValues | src/components/ProtectedRoute.tsx:6-9 | the decision depends only on which tokens are present, not on their values; no expiry check |

## Findings

| source | as written | input that shows it | evidently intended | confidence | as-written member | corrected member |
|---|---|---|---|---|---|---|
| src/pages/SignUp.tsx:36-39 | `handleSubmit` refuses a submit unless `agreeToTerms` is truthy. The form renders no input named `agreeToTerms` (its five inputs are text, email and password fields), so the flag keeps its initial `false` | any edits of the rendered fields, then submit with matching passwords: refused with "Please agree to the terms and conditions" | a terms checkbox named `agreeToTerms`, which `handleInputChange` already supports through its checkbox branch | high (not executed) | SignUp.TermsNeverAccepted | SignUp.TermsCheckboxEnablesSubmit |

## Left out

- Network I/O: `fetch`, JSON decoding, the resource service modules, and the sign-in and image-upload calls. API outcomes are parameters of the handlers.
- The delete services return the `ok` field of the decoded body. Whether that is ever truthy depends on the server, so `deleted` is an unconstrained parameter.
- The lending page reloads its lists after a lend or status update without awaiting the reload. That reload is a later, separate step and is not modelled, and neither is the initial load of any page.
- The overdue page's notification buttons (`handleSendNotification`, `handleSendAllNotifications`) only call the API and show alerts, so they are not modelled.
- Cookies are not read here: token values are inputs.
- `alert`, `confirm`, `console`, rendering, navigation, the sign-up `setTimeout`, and the browser's `required` field check are not modelled. The user's answer to the confirmation is the `confirmed` parameter.
- The book page's delete-confirmation dialog (`isDeleteModalOpen`, `bookToDelete`) only wraps `handleDeleteBook`. That dialog is not modelled; the handler is.
- Edits typed into the book and reader edit dialogs are not modelled. The handlers take whatever record is being edited.
- The status dialog only offers borrowed, returned and overdue. The model lets `newStatus` be any text.
- Dates: JavaScript `Date` parsing, time zones and `date-fns` formatting are not modelled. Dates are milliseconds, and an empty due-date field is `None`.
- `toLowerCase` is modelled for ASCII letters only. String length is sequence length, not UTF-16 code units.
- `Math.round` and `Math.floor` are integer arithmetic. Their operands here are integers, with non-negative sums.
- Header names are compared exactly, as object keys are. The case-insensitive merging that `fetch` itself performs is not modelled.
- The reader page's initial list is `sampleReaders`, imported at `src/pages/ReaderManagement.tsx:10` and used at line 14. `src/data/sampleData.ts` is entirely one comment, so it exports no `sampleReaders`, and as written that import does not resolve. The model takes the initial list as a constructor parameter.
- Each call to `getDaysOverdue` reads its own clock (`src/pages/OverdueManagement.tsx:37`), and the page calls it separately at lines 49, 52, 57, 58 and 167. The model reads the clock once per render, as one `now` for all the page's figures. `Overdue.ReadersAffectedSpec`'s clauses "affected ≤ total" and "0 affected exactly when 0 overdue" rely on that. With separate readings, a lending whose due date crosses a day boundary between line 49 and line 52 would count among the affected readers but not in the total.
- The sign-in page, dashboard home, layout, top bar and the router are not part of this model.
