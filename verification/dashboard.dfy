/** The booking page's state and its event handlers: typing in the search
    box, the debounced filter update, clearing, paging, and the refund
    dialog with its backend round trip. */
module Dashboard {
  import opened Text
  import opened Bookings
  import opened Search
  import opened Pagination
  import opened Refunds

  /** How the refund POST ended: `response.ok`, a non-ok response, or a thrown error. */
  datatype RefundResponse = Ok | NotOk | Threw

  /** A snapshot of every field of the page, so that a handler's contract can say exactly which fields it changes. */
  datatype PageState = PageState(
    bookings: seq<Booking>,
    searchInput: string,
    filterText: string,
    pendingSearch: Option<string>,
    currentPage: int,
    isLoading: bool,
    isRefundModalOpen: bool,
    selectedBooking: Option<Booking>)

  class BookingPage {
    /** The host's date parsing, used by the search over the date field. */
    const parseDate: DateParser

    var bookings: seq<Booking>
    var searchInput: string
    var filterText: string
    /** The value the debounced callback will apply when its timer fires; None when no call is pending. */
    var pendingSearch: Option<string>
    var currentPage: int
    var isLoading: bool
    var isRefundModalOpen: bool
    var selectedBooking: Option<Booking>

    /** Every handler keeps the page number positive and the dialog open exactly when a booking is selected. */
    ghost predicate Valid()
      reads this
    {
      currentPage >= 1 && (isRefundModalOpen <==> selectedBooking.Some?)
    }

    function State(): PageState
      reads this
    {
      PageState(bookings, searchInput, filterText, pendingSearch, currentPage,
                isLoading, isRefundModalOpen, selectedBooking)
    }

    function Filtered(): seq<Booking>
      reads this
    {
      FilterBookings(bookings, filterText, parseDate)
    }

    /** The initial state of every `useState` hook. */
    constructor (parseDate: DateParser)
      ensures Valid()
      ensures this.parseDate == parseDate
      ensures State() == PageState([], "", "", None, 1, false, false, None)
    {
      this.parseDate := parseDate;
      bookings := [];
      searchInput := "";
      filterText := "";
      pendingSearch := None;
      currentPage := 1;
      isLoading := false;
      isRefundModalOpen := false;
      selectedBooking := None;
    }

    /** The mount effect starts the fetch. */
    method StartLoading()
      requires Valid()
      modifies this
      ensures Valid()
      ensures State() == old(State()).(isLoading := true)
    {
      isLoading := true;
    }

    /** The fetch settles: the received list replaces the bookings on success; on failure they stay as they were. */
    method FinishLoading(received: Option<seq<Booking>>)
      requires Valid()
      modifies this
      ensures Valid()
      ensures received.Some? ==> State() == old(State()).(bookings := received.value, isLoading := false)
      ensures received.None? ==> State() == old(State()).(isLoading := false)
    {
      if received.Some? {
        bookings := received.value;
      }
      isLoading := false;
    }

    /** `handleSearchChange`: echo the keystroke at once and (re)arm the debounced call with the new value. */
    method SearchChanged(value: string)
      requires Valid()
      modifies this
      ensures Valid()
      ensures State() == old(State()).(searchInput := value, pendingSearch := Some(value))
    {
      searchInput := value;
      pendingSearch := Some(value);
    }

    /** The debounce timer fires: the last value passed is applied as the filter and the page goes back to 1. */
    method DebounceFires()
      requires Valid()
      modifies this
      ensures Valid()
      ensures old(pendingSearch).Some? ==>
                State() == old(State()).(filterText := old(pendingSearch).value, currentPage := 1, pendingSearch := None)
      ensures old(pendingSearch).None? ==> State() == old(State())
    {
      if pendingSearch.Some? {
        filterText := pendingSearch.value;
        currentPage := 1;
        pendingSearch := None;
      }
    }

    /** The Clear button, rendered only while the search box holds text: both texts emptied at once, page 1,
        and the debounced call re-armed with "". With an empty search box there is no button and nothing changes. */
    method ClearSearch()
      requires Valid()
      modifies this
      ensures Valid()
      ensures old(searchInput) == "" ==> State() == old(State())
      ensures old(searchInput) != "" ==>
                State() == old(State()).(searchInput := "", filterText := "", pendingSearch := Some(""), currentPage := 1)
    {
      if searchInput != "" {
        searchInput := "";
        filterText := "";
        pendingSearch := Some("");
        currentPage := 1;
      }
    }

    /** Several keystrokes inside one debounce window, then the window elapses: only the last value is applied. */
    method TypeThenPause(values: seq<string>)
      requires Valid()
      requires values != []
      modifies this
      ensures Valid()
      ensures State() == old(State()).(searchInput := values[|values| - 1], filterText := values[|values| - 1],
                                       pendingSearch := None, currentPage := 1)
    {
      var i := 0;
      while i < |values|
        invariant 0 <= i <= |values|
        invariant Valid()
        invariant i == 0 ==> State() == old(State())
        invariant i > 0 ==> State() == old(State()).(searchInput := values[i - 1], pendingSearch := Some(values[i - 1]))
      {
        SearchChanged(values[i]);
        i := i + 1;
      }
      DebounceFires();
    }

    /** `paginate`: sets the page with no check of its own. */
    method Paginate(pageNumber: int)
      requires Valid()
      modifies this
      ensures pageNumber >= 1 ==> Valid()
      ensures State() == old(State()).(currentPage := pageNumber)
    {
      currentPage := pageNumber;
    }

    /** A click on Previous or Next; the controls exist only after loading and when the list needs them,
        and a disabled button does nothing. */
    method Click(click: Click)
      requires Valid()
      modifies this
      ensures Valid()
      ensures old(isLoading) ==> State() == old(State())
      ensures !old(isLoading) ==>
                State() == old(State()).(currentPage := AfterClick(old(currentPage), |old(Filtered())|, click))
      ensures PageInRange(old(currentPage), |Filtered()|) ==> PageInRange(currentPage, |Filtered()|)
    {
      if !isLoading {
        var n := |Filtered()|;
        match click
        case Previous =>
          if PreviousEnabled(currentPage, n) { Paginate(currentPage - 1); }
        case Next =>
          if NextEnabled(currentPage, n) { Paginate(currentPage + 1); }
      }
    }

    /** `openRefundModal(booking)`. */
    method OpenRefundModal(booking: Booking)
      requires Valid()
      modifies this
      ensures Valid()
      ensures State() == old(State()).(selectedBooking := Some(booking), isRefundModalOpen := true)
    {
      selectedBooking := Some(booking);
      isRefundModalOpen := true;
    }

    /** The "Process Refund" button of row `index` on the current page: it exists only after loading and
        only for an actionable booking, so the dialog always opens on an actionable booking of the filtered list. */
    method ClickProcessRefund(index: nat)
      requires Valid()
      modifies this
      ensures Valid()
      ensures var rows := CurrentItems(old(Filtered()), old(currentPage));
              if !old(isLoading) && index < |rows| && IsRefundActionable(rows[index])
              then State() == old(State()).(selectedBooking := Some(rows[index]), isRefundModalOpen := true)
              else State() == old(State())
      ensures selectedBooking != old(selectedBooking) ==>
                selectedBooking.Some? && IsRefundActionable(selectedBooking.value) && selectedBooking.value in Filtered()
    {
      var rows := CurrentItems(Filtered(), currentPage);
      if !isLoading && index < |rows| && IsRefundActionable(rows[index]) {
        var b := rows[index];
        assert b in Filtered() by {
          var n := |Filtered()|;
          assert rows == Filtered()[Min(FirstIndex(currentPage), n)..Min(currentPage * ItemsPerPage, n)];
        }
        OpenRefundModal(b);
      }
    }

    /** `closeRefundModal`: the dialog closes and the selection is dropped; nothing is sent. */
    method CloseRefundModal()
      requires Valid()
      modifies this
      ensures Valid()
      ensures State() == old(State()).(isRefundModalOpen := false, selectedBooking := None)
    {
      isRefundModalOpen := false;
      selectedBooking := None;
    }

    /** `handleRefundAction(action)` with the backend's answer given as `response`. With no selection it returns
        at once; on `response.ok` it records the decision on every booking with the selected orderId and closes
        the dialog; on a non-ok response or a thrown error nothing changes and the dialog stays open. */
    method HandleRefundAction(action: string, response: RefundResponse)
      requires Valid()
      modifies this
      ensures Valid()
      ensures old(selectedBooking).Some? && response == Ok ==>
                State() == old(State()).(bookings := WithDecision(old(bookings), old(selectedBooking).value.orderId,
                                                                  DecisionStatus(action)),
                                         isRefundModalOpen := false, selectedBooking := None)
      ensures old(selectedBooking).None? || response != Ok ==> State() == old(State())
    {
      if selectedBooking.None? {
        return;
      }
      if response == Ok {
        var updated := ApplyDecision(bookings, selectedBooking.value.orderId, DecisionStatus(action));
        bookings := updated;
        CloseRefundModal();
      }
    }
  }
  /** A cancelled booking with a pending refund of 1 and nothing else but its orderId. */
  function PendingRefund(id: string): Booking {
    Booking(Some(id), None, None, None, None, None, Some("CANCELLED"), None, None, None, Some(1), Some("PENDING"))
  }

  lemma PendingRefundMatchesPending(id: string, parseDate: DateParser)
    ensures Matches(PendingRefund(id), "pending", parseDate)
  {
    var v := PendingRefund(id).refundStatus;
    assert IsPrefix(Lower("pending"), Lower("PENDING"));
    assert v in SearchFields(PendingRefund(id), parseDate) && FieldMatches(v, "pending");
  }

  lemma ApprovedRefundMissesPending(id: string, parseDate: DateParser)
    ensures !Matches(PendingRefund(id).(refundStatus := Some("APPROVED")), "pending", parseDate)
  {
    var b := PendingRefund(id).(refundStatus := Some("APPROVED"));
    var p := Lower("pending");
    assert p[0] == 'p';
    var cancelled := Lower("CANCELLED");
    assert cancelled[..7] != p by { assert cancelled[0] == 'c'; }
    assert cancelled[1..][..7] != p by { assert cancelled[1] == 'a'; }
    assert cancelled[2..][..7] != p by { assert cancelled[2] == 'n'; }
    assert !Contains(cancelled[3..], p);
    assert !Contains(cancelled, p);
    var approved := Lower("APPROVED");
    assert approved[..7] != p by { assert approved[0] == 'a'; }
    assert approved[1..][..7] != p by { assert approved[1] == 'p'; assert approved[2] == 'p'; }
    assert !Contains(approved[2..], p);
    assert !Contains(approved, p);
    forall v | v in SearchFields(b, parseDate) ensures !FieldMatches(v, "pending") {
      if v == AmountText(Some(1)) {
        assert v == Some("1");
      }
    }
  }

  function SixPendingRefunds(): seq<Booking> {
    [PendingRefund("1"), PendingRefund("2"), PendingRefund("3"),
     PendingRefund("4"), PendingRefund("5"), PendingRefund("6")]
  }

  lemma SixPendingRefundsAllMatch(parseDate: DateParser)
    ensures forall b :: b in SixPendingRefunds() ==> Matches(b, "pending", parseDate)
  {
    forall id | id in ["1", "2", "3", "4", "5", "6"] ensures Matches(PendingRefund(id), "pending", parseDate) {
      PendingRefundMatchesPending(id, parseDate);
    }
  }

  /** After a successful refund the filtered list can shrink below the current page. Six bookings match the
      filter, so page 2 shows one row, the oldest booking; once the decision makes that booking stop matching,
      five remain: a single page, no page controls, and page 2 still current, so no row is shown. */
  lemma RefundCanStrandCurrentPage(before: seq<Booking>, filterText: string, action: string, parseDate: DateParser)
    requires |before| == 6
    requires forall b :: b in before ==> Matches(b, filterText, parseDate)
    requires forall i :: 1 <= i < |before| ==> before[i].orderId != before[0].orderId
    requires !Matches(Decided(before[0], before[0].orderId, DecisionStatus(action)), filterText, parseDate)
    ensures CurrentItems(FilterBookings(before, filterText, parseDate), 2) == [before[0]]
    ensures var after := FilterBookings(WithDecision(before, before[0].orderId, DecisionStatus(action)), filterText, parseDate);
            && |after| == 5 && TotalPages(|after|) == 1 && !ControlsShown(|after|)
            && CurrentItems(after, 2) == []
  {
    FilterAllMatching(before, filterText, parseDate);
    var filteredBefore := FilterBookings(before, filterText, parseDate);
    assert CurrentItems(filteredBefore, 2) == filteredBefore[5..6];

    var id := before[0].orderId;
    var after := WithDecision(before, id, DecisionStatus(action));
    var decided := Decided(before[0], id, DecisionStatus(action));
    assert after == [decided] + before[1..];
    FilterDropsFirstMiss(decided, before[1..], filterText, parseDate);
    FilterAllMatching(before[1..], filterText, parseDate);
  }

  /** The situation above arises: six pending refunds, the filter "pending", and the oldest one accepted. */
  lemma PendingFilterStrandsPage(parseDate: DateParser)
    ensures var before := SixPendingRefunds();
            var after := FilterBookings(WithDecision(before, Some("1"), DecisionStatus("accept")), "pending", parseDate);
            |after| == 5 && CurrentItems(after, 2) == []
  {
    var before := SixPendingRefunds();
    SixPendingRefundsAllMatch(parseDate);
    assert Decided(before[0], Some("1"), DecisionStatus("accept")) == PendingRefund("1").(refundStatus := Some("APPROVED"));
    ApprovedRefundMissesPending("1", parseDate);
    RefundCanStrandCurrentPage(before, "pending", "accept", parseDate);
  }
}
