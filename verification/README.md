# Booking page of the service-provider dashboard, in Dafny

This project models the logic inside `BookingPage`, the React component in
`frontend/src/Components/serviceProvider/SPpaymentDetails.js`. The page lists a
service provider's bookings. The user can search them, page through them five
at a time, and accept or reject a pending refund through a dialog that posts
the decision to the backend.

The model has six modules:

- `Text`: the string operations the search uses. These are `toLowerCase`
  (restricted to ASCII), `includes`, and the decimal text of an integral
  `Number`. The last one comes with a read-back function and a round-trip lemma.
- `Bookings`: the booking record. Every field is optional. It also holds
  `formatDate` and the `value || "N/A"` display rule.
- `Search`: `filteredBookings`. The list is reversed, then each booking is kept
  when one of its eleven projected values is truthy and, lower-cased, contains
  the lower-cased filter text. Proved:
  - the result is an order-keeping subsequence of the reversed list;
  - it holds each matching booking exactly as often as the input does;
  - membership holds in both directions;
  - what the empty filter keeps, and that blank bookings never match;
  - that the filter ignores case.
- `Pagination`: `totalPages`, the `slice` that gives `currentItems` (with
  JavaScript's negative and clamped indices), the Previous/Next controls, and
  `paginate`. Proved:
  - `totalPages` is the ceiling of n/5;
  - each page has at most five rows, and a page past the end is empty;
  - the row numbers shown are positions in the filtered list;
  - pages 1 to `totalPages` put end to end give back the whole list;
  - any run of enabled clicks keeps the page in range.
- `Refunds`: the refund-actionability test and the refund column. It also holds
  the per-booking update of a successful decision, as a function and as a loop
  method proved equal to it, with lemmas on what the update changes.
- `Dashboard`: class `BookingPage`. Its fields are the component's state hooks,
  and its methods are the handlers. Each handler's contract gives the whole new
  state as an update of `old(State())`, so it says exactly which fields change.
  `Valid()` says the page number is positive and the dialog is open exactly
  when a booking is selected. Every handler preserves it, except that
  `Paginate` does so only for a page number of at least 1. The Previous and
  Next buttons never pass it a smaller one.

The debounced search is modelled by the field `pendingSearch`, the value that
lodash's trailing call will apply when the timer fires. A keystroke re-arms it.
`DebounceFires` applies it and resets the page to 1. The Clear button also
re-arms it, with "".

The model exposes one behaviour of the page that is worth knowing
(`RefundCanStrandCurrentPage`, `PendingFilterStrandsPage`). A successful
refund decision can make bookings stop matching the current filter. Nothing
then adjusts `currentPage`. Take six pending refunds under the filter
"pending", on page 2. Accepting the one on page 2 leaves five matches, one
page and no page controls. Page 2 is still current, so the table shows no
rows.

Some behaviours of the code that are easy to overlook, all modelled as the
code has them:

- Eleven values are searched, from `transactionId` to `refundStatus`.
- The empty filter does not keep every booking. A booking whose searched
  values are all missing or empty is dropped.
- A failed fetch leaves the booking list as it was. It is not reset to empty.
- The decision updates every booking whose `orderId` equals the selected one.
  `===` on two `undefined` ids is true, so a selected booking without an
  `orderId` updates every booking without one. (The model also treats a
  `null` id as missing; see "Left out".)
- Any action other than "accept" records "REJECTED".
- An unparseable date is searched as the text "Invalid Date".
  `toLocaleDateString` returns that text for an invalid time value.

## Model

| member | source | states |
|---|---|---|
| `Text.LowerChar` | frontend/src/Components/serviceProvider/SPpaymentDetails.js:91 | case folding of one character: never yields an upper-case ASCII letter, leaves non-letters alone, maps A-Z to a-z |
| `Text.Lower` | frontend/src/Components/serviceProvider/SPpaymentDetails.js:91 | `toLowerCase` keeps the length, maps each letter A-Z to its lower-case letter at the same position, keeps every other character, and leaves no upper-case ASCII letter |
| `Text.LowerIdempotent` | frontend/src/Components/serviceProvider/SPpaymentDetails.js:91 | lower-casing twice is lower-casing once |
| `Text.Contains` | frontend/src/Components/serviceProvider/SPpaymentDetails.js:91 | `includes`: the empty string is always included; an included string is no longer than the text |
| `Text.ContainsIffOccurrence` | frontend/src/Components/serviceProvider/SPpaymentDetails.js:91 | `includes` holds iff the pattern occurs at some position of the text (both directions) |
| `Text.NatToDecimal` | frontend/src/Components/serviceProvider/SPpaymentDetails.js:85-86 | the decimal text of a natural number is non-empty, all digits, with no leading zero |
| `Text.IntToDecimal` | frontend/src/Components/serviceProvider/SPpaymentDetails.js:85-86 | `toString` of an integer is non-empty and starts with '-' iff the number is negative |
| `Text.NatDecimalRoundTrip` | frontend/src/Components/serviceProvider/SPpaymentDetails.js:85-86 | reading back the decimal text of a natural number gives the number |
| `Text.IntDecimalRoundTrip` | frontend/src/Components/serviceProvider/SPpaymentDetails.js:85-86 | reading back the signed decimal text of an integer gives the integer, so distinct amounts search as distinct text |
| `Bookings.FormatDate` | frontend/src/Components/serviceProvider/SPpaymentDetails.js:160-172 | a missing, empty or unparseable date gives "N/A"; a date that parses gives exactly the host's locale text for it |
| `Bookings.DisplayText` | frontend/src/Components/serviceProvider/SPpaymentDetails.js:276 | `value \|\| "N/A"` is never empty: the value when truthy, "N/A" otherwise |
| `Search.DateSearchText` | frontend/src/Components/serviceProvider/SPpaymentDetails.js:84 | a falsy date searches as "", which never matches; an unparseable date searches as "Invalid Date"; a date that parses searches as exactly its locale text |
| `Search.AmountText` | frontend/src/Components/serviceProvider/SPpaymentDetails.js:85-86 | `amount?.toString()` is missing iff the amount is, and otherwise truthy text that reads back as the amount (so 0 is searchable) |
| `Search.Reverse` | frontend/src/Components/serviceProvider/SPpaymentDetails.js:75 | the reversed copy has the same length and holds element n-1-k at position k |
| `Search.ReverseMultiset` | frontend/src/Components/serviceProvider/SPpaymentDetails.js:75 | reversing keeps every element with its multiplicity |
| `Search.ReverseSameElements` | frontend/src/Components/serviceProvider/SPpaymentDetails.js:75 | the reversed copy holds exactly the elements of the list |
| `Search.SearchFields` | frontend/src/Components/serviceProvider/SPpaymentDetails.js:76-87 | the search looks at eleven values; the date value is always a string and is non-empty only for a truthy date; each amount value is truthy iff that amount is present |
| `Search.Matches` | frontend/src/Components/serviceProvider/SPpaymentDetails.js:76-92 | a booking matches only if one of its eleven values is truthy, and with the empty filter it matches exactly then |
| `Search.Keep` | frontend/src/Components/serviceProvider/SPpaymentDetails.js:75-93 | every booking `.filter` keeps is a matching booking of its input, and the result is never longer than the input |
| `Search.KeepIsSubsequence` | frontend/src/Components/serviceProvider/SPpaymentDetails.js:75-93 | `.filter` keeps relative order: its result is a subsequence of its input |
| `Search.KeepCounts` | frontend/src/Components/serviceProvider/SPpaymentDetails.js:75-93 | each booking occurs in the filter's result as often as in its input if it matches, and not at all otherwise |
| `Search.FilterBookings` | frontend/src/Components/serviceProvider/SPpaymentDetails.js:75-93 | every booking in `filteredBookings` is in the booking list and matches the filter, and the filtered list is never longer than the booking list |
| `Search.FilterIsReversedSubsequence` | frontend/src/Components/serviceProvider/SPpaymentDetails.js:75-93 | `filteredBookings` is an order-keeping subsequence of the reversed list, no longer than the list, holding exactly the matching bookings with their multiplicities |
| `Search.FilterMembership` | frontend/src/Components/serviceProvider/SPpaymentDetails.js:75-93 | a booking is shown iff it is in the list and matches the filter |
| `Search.FalsyFieldsNeverMatch` | frontend/src/Components/serviceProvider/SPpaymentDetails.js:89-91 | a missing value or an empty string never matches, whatever the filter |
| `Search.BlankBookingNeverMatches` | frontend/src/Components/serviceProvider/SPpaymentDetails.js:76-92 | a booking with all searched values missing or empty is dropped by every filter, the empty one included |
| `Search.AmountMakesSearchable` | frontend/src/Components/serviceProvider/SPpaymentDetails.js:85-86 | a booking with an amount or a refunded amount is always kept by the empty filter |
| `Search.InvalidDateIsFoundByInvalid` | frontend/src/Components/serviceProvider/SPpaymentDetails.js:84 | a booking whose date does not parse is found by the filter "invalid" |
| `Search.MatchesIgnoresFilterCase` | frontend/src/Components/serviceProvider/SPpaymentDetails.js:91 | matching with a filter and with its lower-cased form agree |
| `Search.KeepAll` | frontend/src/Components/serviceProvider/SPpaymentDetails.js:75-93 | when every booking matches, `.filter` returns the list itself |
| `Search.FilterAllMatching` | frontend/src/Components/serviceProvider/SPpaymentDetails.js:75-93 | when every booking matches, `filteredBookings` is the whole list, newest first |
| `Search.EmptyFilterShowsAllReversed` | frontend/src/Components/serviceProvider/SPpaymentDetails.js:75-93 | with the empty filter and no blank bookings, `filteredBookings` is the whole list reversed |
| `Search.NoMatchGivesEmpty` | frontend/src/Components/serviceProvider/SPpaymentDetails.js:75-93 | a filter no booking matches gives the empty list |
| `Search.KeepAppendMiss` | frontend/src/Components/serviceProvider/SPpaymentDetails.js:75-93 | a non-matching booking at the end of the list does not change the filter's result |
| `Search.FilterDropsFirstMiss` | frontend/src/Components/serviceProvider/SPpaymentDetails.js:75-93 | a non-matching booking at the front of the list does not change `filteredBookings` |
| `Pagination.TotalPages` | frontend/src/Components/serviceProvider/SPpaymentDetails.js:96 | `totalPages` is the ceiling of n/5: the least page count whose pages hold n rows, and 0 iff n is 0 |
| `Pagination.ResolveIndex` | frontend/src/Components/serviceProvider/SPpaymentDetails.js:99-102 | a `slice` index lands in [0, n] and a non-negative index is clamped to n |
| `Pagination.Slice` | frontend/src/Components/serviceProvider/SPpaymentDetails.js:99-102 | `slice` with ordered non-negative bounds is the sub-list between the clamped bounds; it is never longer than the list |
| `Pagination.CurrentItems` | frontend/src/Components/serviceProvider/SPpaymentDetails.js:97-102 | `currentItems` has at most 5 rows, is the rows from (p-1)*5 to min(p*5, n) for p >= 1, is empty past the last page and non-empty on every real page |
| `Pagination.RowNumberIsPosition` | frontend/src/Components/serviceProvider/SPpaymentDetails.js:313-315 | the number `indexOfFirstItem + index + 1` shown beside a row is that row's 1-based position in the filtered list |
| `Pagination.PagesUpToIsPrefix` | frontend/src/Components/serviceProvider/SPpaymentDetails.js:96-102 | pages 1 to k laid end to end are exactly the first min(5k, n) rows, so consecutive pages are contiguous and disjoint |
| `Pagination.AllPagesPartition` | frontend/src/Components/serviceProvider/SPpaymentDetails.js:96-102 | pages 1 to `totalPages` laid end to end give back the filtered list |
| `Pagination.ControlsShown` | frontend/src/Components/serviceProvider/SPpaymentDetails.js:397 | the page controls are shown iff there are at least two pages |
| `Pagination.PreviousEnabled` | frontend/src/Components/serviceProvider/SPpaymentDetails.js:397-401 | Previous is enabled only with the controls shown and off page 1, so from a page in range it leads to a page of at least 1 |
| `Pagination.NextEnabled` | frontend/src/Components/serviceProvider/SPpaymentDetails.js:397-411 | Next is enabled only with the controls shown and off the last page, so from a page in range it never passes the last page |
| `Pagination.AfterClick` | frontend/src/Components/serviceProvider/SPpaymentDetails.js:397-415 | an enabled Previous moves back one page and an enabled Next forward one; a click on a hidden or disabled button leaves the page as it is |
| `Pagination.ClicksStayInRange` | frontend/src/Components/serviceProvider/SPpaymentDetails.js:397-415 | from a page in range (page 1 included), any run of Previous/Next clicks stays within [1, max(1, totalPages)] |
| `Pagination.UncheckedPagesOutsideRange` | frontend/src/Components/serviceProvider/SPpaymentDetails.js:104-106 | `paginate` has no check of its own: page 0 shows nothing, and page -1 shows rows counted from the end |
| `Refunds.IsRefundActionable` | frontend/src/Components/serviceProvider/SPpaymentDetails.js:257-259 | a booking is refund-actionable iff its paymentStatus is "CANCELLED", its refundStatus is "PENDING" and its refunded amount is present and positive |
| `Refunds.RefundCellFor` | frontend/src/Components/serviceProvider/SPpaymentDetails.js:257-277 | the "Process Refund" button is shown iff paymentStatus is "CANCELLED", refundedAmount > 0 and refundStatus is "PENDING"; otherwise the status text, or "N/A" when it is absent |
| `Refunds.RefundCellExamples` | frontend/src/Components/serviceProvider/SPpaymentDetails.js:257-277 | a cancelled booking refunding 100 gets the button when pending, the text "APPROVED" when approved and "N/A" with no status |
| `Refunds.DecisionStatus` | frontend/src/Components/serviceProvider/SPpaymentDetails.js:143 | "accept" records "APPROVED" and every other action records "REJECTED" |
| `Refunds.Decided` | frontend/src/Components/serviceProvider/SPpaymentDetails.js:139-145 | the mapping callback changes at most the refund status and never the orderId; a booking with the selected orderId gets the new status, any other is returned unchanged |
| `Refunds.WithDecision` | frontend/src/Components/serviceProvider/SPpaymentDetails.js:138-146 | the updated list has the same length; bookings with the selected orderId get the new status and keep every other field; all other bookings are unchanged |
| `Refunds.ApplyDecision` | frontend/src/Components/serviceProvider/SPpaymentDetails.js:138-146 | the booking-by-booking update computes exactly that updated list |
| `Refunds.DecisionSettlesRefund` | frontend/src/Components/serviceProvider/SPpaymentDetails.js:137-149 | after a decision no booking with the decided orderId still offers the refund action |
| `Refunds.DecisionOnlyRemovesActions` | frontend/src/Components/serviceProvider/SPpaymentDetails.js:137-149 | a decision never makes a booking actionable that was not actionable before |
| `Refunds.DecisionIdempotent` | frontend/src/Components/serviceProvider/SPpaymentDetails.js:138-146 | recording the same decision twice is the same as recording it once |
| `Dashboard.BookingPage.constructor` | frontend/src/Components/serviceProvider/SPpaymentDetails.js:8-17 | the initial state: no bookings, empty texts, page 1, not loading, dialog closed, nothing selected |
| `Dashboard.BookingPage.StartLoading` | frontend/src/Components/serviceProvider/SPpaymentDetails.js:39-40 | starting the fetch sets only the loading flag |
| `Dashboard.BookingPage.FinishLoading` | frontend/src/Components/serviceProvider/SPpaymentDetails.js:41-53 | a fetched list replaces the bookings; a failed fetch leaves them as they were; either way loading ends and nothing else changes |
| `Dashboard.BookingPage.SearchChanged` | frontend/src/Components/serviceProvider/SPpaymentDetails.js:68-72 | a keystroke sets only the search box text and re-arms the debounced call with it |
| `Dashboard.BookingPage.DebounceFires` | frontend/src/Components/serviceProvider/SPpaymentDetails.js:59-65 | the debounced call applies its value as the filter text and sets page 1; with no pending call nothing changes |
| `Dashboard.BookingPage.ClearSearch` | frontend/src/Components/serviceProvider/SPpaymentDetails.js:187-194 | with an empty search box there is no Clear button and nothing changes; otherwise Clear empties both texts, sets page 1 and re-arms the debounced call with "" |
| `Dashboard.BookingPage.TypeThenPause` | frontend/src/Components/serviceProvider/SPpaymentDetails.js:59-72 | keystrokes within one debounce window followed by the timer firing apply only the last value, once |
| `Dashboard.BookingPage.Paginate` | frontend/src/Components/serviceProvider/SPpaymentDetails.js:104-106 | `paginate` sets the page to any number given and changes nothing else |
| `Dashboard.BookingPage.Click` | frontend/src/Components/serviceProvider/SPpaymentDetails.js:397-415 | a Previous/Next click changes only the page, as the enabled buttons allow, never while loading, and keeps an in-range page in range |
| `Dashboard.BookingPage.OpenRefundModal` | frontend/src/Components/serviceProvider/SPpaymentDetails.js:109-113 | opening the dialog selects the booking and sets the dialog open, nothing else |
| `Dashboard.BookingPage.ClickProcessRefund` | frontend/src/Components/serviceProvider/SPpaymentDetails.js:257-265 | the row button opens the dialog only for an actionable booking of the current page; a newly selected booking is actionable and in the filtered list |
| `Dashboard.BookingPage.CloseRefundModal` | frontend/src/Components/serviceProvider/SPpaymentDetails.js:115-118 | closing the dialog clears the selection and the open flag, nothing else |
| `Dashboard.BookingPage.HandleRefundAction` | frontend/src/Components/serviceProvider/SPpaymentDetails.js:120-157 | with no selection nothing changes; on an ok response the decision is recorded on the bookings with the selected orderId and the dialog closes; on a non-ok response or an error nothing changes and the dialog stays open |
| `Dashboard.PendingRefundMatchesPending` | frontend/src/Components/serviceProvider/SPpaymentDetails.js:75-93 | a booking whose refund status is "PENDING" is found by the filter "pending" |
| `Dashboard.ApprovedRefundMissesPending` | frontend/src/Components/serviceProvider/SPpaymentDetails.js:75-93 | once approved, such a booking is no longer found by "pending" |
| `Dashboard.SixPendingRefundsAllMatch` | frontend/src/Components/serviceProvider/SPpaymentDetails.js:75-93 | each of six such bookings is found by "pending" |
| `Dashboard.RefundCanStrandCurrentPage` | frontend/src/Components/serviceProvider/SPpaymentDetails.js:137-149 | when a successful decision stops the only booking on page 2 from matching, five rows remain on one page with no controls, and page 2 shows nothing |
| `Dashboard.PendingFilterStrandsPage` | frontend/src/Components/serviceProvider/SPpaymentDetails.js:137-149 | accepting the oldest of six pending refunds under the filter "pending" leaves five matches and an empty page 2 |

## Left out

- The network calls are left out. The booking list arrives as the argument of
  `FinishLoading`, and the refund POST's outcome as the `response` argument of
  `HandleRefundAction`. The request bodies and URLs are not modelled.
- `localStorage`, `alert` and `console` calls are left out: they are browser
  side effects with no bearing on the state.
- The lodash debounce timing (the 300 ms window) is not modelled. Only the
  pending value and the moment the timer fires are.
- `new Date(...)` and `toLocaleDateString()` depend on the host and its
  locale. They are the parameter `parseDate`.
- `Search.Keep`: its own contract states the length bound and that it keeps
  only matching bookings of its input. Order and multiplicity are stated
  by `Search.KeepIsSubsequence` and `Search.KeepCounts`.
- `Refunds.Decided`, `Refunds.WithDecision`: JavaScript's `null` and
  `undefined` are both `None` in the model. A booking whose `orderId` is
  `null` therefore counts as equal to one with no `orderId`, whereas in the
  code `null === undefined` is false and only ids of the same kind match.
- `Text.Lower` folds ASCII letters only, where `toLowerCase` folds all of
  Unicode.
- `Text.IntToDecimal` gives the text of integral amounts only. Fractional
  amounts and the exponent forms of `Number#toString` are not modelled.
- Booking text fields are modelled as strings and amounts as integers.
  A fractional amount has no counterpart in the model: a `refundedAmount`
  of 0.5, for instance, passes `> 0` in the code and searches as "0.5".
  Numbers sent in text fields, numeric strings compared with `> 0`, and a
  non-array fetch response are not modelled either.
- Window resizing, the scroll reset, the mobile and desktop layouts, CSS
  classes and all other markup are left out. What the markup decides is
  modelled: which rows are shown, the row numbers, the refund cell, and when
  the page controls and the dialog exist.
- Concurrency is left out. The handlers run one at a time, so a second
  submission while one is in flight, and a response arriving after the state
  has changed, are not modelled.
