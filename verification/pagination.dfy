/** Client-side pagination of the filtered bookings: five rows per page,
    the page's rows cut out with `Array.prototype.slice`, and the
    Previous/Next controls that are the only guard on the page number. */
module Pagination {

  const ItemsPerPage: nat := 5

  /** `Math.ceil(n / itemsPerPage)`. */
  function TotalPages(n: nat): (r: nat)
    ensures r * ItemsPerPage >= n
    ensures r > 0 ==> (r - 1) * ItemsPerPage < n
    ensures r == 0 <==> n == 0
  {
    (n + ItemsPerPage - 1) / ItemsPerPage
  }

  /** A relative index of `slice` resolved against length n: negative counts from the end, then clamped to [0, n]. */
  function ResolveIndex(k: int, n: nat): (r: nat)
    ensures r <= n
    ensures 0 <= k ==> r == if k < n then k else n
  {
    if k < 0 then (if n + k < 0 then 0 else n + k) else if k < n then k else n
  }

  /** `s.slice(start, end)`. */
  function Slice<T>(s: seq<T>, start: int, end: int): (r: seq<T>)
    ensures 0 <= start <= end ==> r == s[ResolveIndex(start, |s|)..ResolveIndex(end, |s|)]
    ensures |r| <= |s|
  {
    var from, to := ResolveIndex(start, |s|), ResolveIndex(end, |s|);
    if from < to then s[from..to] else []
  }

  /** `indexOfFirstItem` for a page. */
  function FirstIndex(page: int): int {
    page * ItemsPerPage - ItemsPerPage
  }

  function Min(a: int, b: int): int {
    if a < b then a else b
  }

  /** `currentItems`: the rows shown for a page number, whatever number `paginate` was given. */
  function CurrentItems<T>(items: seq<T>, page: int): (r: seq<T>)
    ensures |r| <= ItemsPerPage
    ensures 1 <= page ==> r == items[Min(FirstIndex(page), |items|)..Min(page * ItemsPerPage, |items|)]
    ensures page > TotalPages(|items|) ==> r == []
    ensures 1 <= page <= TotalPages(|items|) ==> r != []
  {
    Slice(items, FirstIndex(page), page * ItemsPerPage)
  }

  /** The row number `indexOfFirstItem + index + 1` shown beside a row is that row's 1-based position in the whole list. */
  lemma RowNumberIsPosition<T>(items: seq<T>, page: int, index: nat)
    requires 1 <= page
    requires index < |CurrentItems(items, page)|
    ensures 1 <= FirstIndex(page) + index + 1 <= |items|
    ensures CurrentItems(items, page)[index] == items[FirstIndex(page) + index + 1 - 1]
  {
  }

  /** Pages 1 to k laid end to end. */
  function PagesUpTo<T>(items: seq<T>, k: nat): seq<T> {
    if k == 0 then [] else PagesUpTo(items, k - 1) + CurrentItems(items, k)
  }

  /** Pages 1 to k are contiguous and cover exactly the first k*5 rows (or all rows). */
  lemma {:induction false} PagesUpToIsPrefix<T>(items: seq<T>, k: nat)
    ensures PagesUpTo(items, k) == items[..Min(k * ItemsPerPage, |items|)]
  {
    if k > 0 {
      PagesUpToIsPrefix(items, k - 1);
      var lo, hi := Min((k - 1) * ItemsPerPage, |items|), Min(k * ItemsPerPage, |items|);
      assert items[..hi] == items[..lo] + items[lo..hi];
    }
  }

  /** Pages 1 to totalPages, concatenated, give back the whole list: they are disjoint and miss nothing. */
  lemma AllPagesPartition<T>(items: seq<T>)
    ensures PagesUpTo(items, TotalPages(|items|)) == items
  {
    PagesUpToIsPrefix(items, TotalPages(|items|));
  }

  datatype Click = Previous | Next

  /** The controls are rendered only when the filtered list does not fit on one page. */
  predicate ControlsShown(n: nat): (shown: bool)
    ensures shown <==> TotalPages(n) >= 2
  {
    n > ItemsPerPage
  }

  /** Previous is disabled on page 1; on a real page an enabled Previous is never on the first page. */
  predicate PreviousEnabled(page: int, n: nat): (enabled: bool)
    ensures enabled ==> TotalPages(n) >= 2 && page != 1
    ensures PageInRange(page, n) && enabled ==> 2 <= page <= TotalPages(n)
  {
    ControlsShown(n) && page != 1
  }

  /** Next is disabled on the last page; on a real page an enabled Next is never on the last page. */
  predicate NextEnabled(page: int, n: nat): (enabled: bool)
    ensures enabled ==> TotalPages(n) >= 2 && page != TotalPages(n)
    ensures PageInRange(page, n) && enabled ==> 1 <= page < TotalPages(n)
  {
    ControlsShown(n) && page != TotalPages(n)
  }

  /** The page after a click: `paginate(currentPage - 1)` or `paginate(currentPage + 1)` when the button is
      rendered and not disabled; otherwise nothing happens. */
  function AfterClick(page: int, n: nat, click: Click): (r: int)
    ensures r == page || (click == Previous && PreviousEnabled(page, n) && r == page - 1)
                      || (click == Next && NextEnabled(page, n) && r == page + 1)
    ensures click == Previous && PreviousEnabled(page, n) ==> r == page - 1
    ensures click == Next && NextEnabled(page, n) ==> r == page + 1
  {
    match click
    case Previous => if PreviousEnabled(page, n) then page - 1 else page
    case Next => if NextEnabled(page, n) then page + 1 else page
  }

  function AfterClicks(page: int, n: nat, clicks: seq<Click>): int
    decreases |clicks|
  {
    if clicks == [] then page else AfterClicks(AfterClick(page, n, clicks[0]), n, clicks[1..])
  }

  /** The page is a real page (or page 1 of an empty list). */
  predicate PageInRange(page: int, n: nat) {
    1 <= page && (page == 1 || page <= TotalPages(n))
  }

  /** Starting on a real page, any run of clicks on the buttons keeps the page in range. */
  lemma {:induction false} ClicksStayInRange(page: int, n: nat, clicks: seq<Click>)
    requires PageInRange(page, n)
    ensures PageInRange(AfterClicks(page, n, clicks), n)
    decreases |clicks|
  {
    if clicks != [] {
      ClicksStayInRange(AfterClick(page, n, clicks[0]), n, clicks[1..]);
    }
  }

  /** Without the button guards, `paginate` can reach page 0, whose slice is empty, and page -1, whose
      negative slice bounds count from the end of the list. */
  lemma UncheckedPagesOutsideRange<T>(items: seq<T>)
    requires |items| > ItemsPerPage
    ensures CurrentItems(items, 0) == []
    ensures CurrentItems(items, -1) == items[(if |items| >= 10 then |items| - 10 else 0)..|items| - 5]
  {
  }
}
