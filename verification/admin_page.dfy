/**
 * The page counter of the admin tool list `client/src/pages/Admin.tsx`:
 * the total taken from the `X-Total-Count` header or the item count, the
 * number of pages, and the Previous and Next buttons. JavaScript numbers
 * that matter here are integers or `NaN` (`parseInt` of a non-numeric header).
 */
module AdminPage {
  import opened Wrappers

  const INITIAL_PAGE := 1
  const PAGE_SIZE := 20

  /** A JavaScript number as it occurs in the counter: an integer, or `NaN`. */
  datatype Num = Int(v: int) | NaN

  /** `Math.ceil(n / d)` for a positive divisor, negative `n` included. */
  function CeilDiv(n: int, d: int): (q: int)
    requires d > 0
    ensures d * (q - 1) < n <= d * q
  {
    -((-n) / d)
  }

  /**
   * `total`: `data?.total ?? 0`, where a loaded page's total is
   * `parseInt(header, 10)` when the header is a non-empty string and the
   * number of items otherwise. `parseInt` is a parameter; `None` is `NaN`.
   */
  function Total(page: Option<(Option<string>, nat)>, parseInt: string -> Option<int>): (t: Num)
    ensures page.None? ==> t == Int(0)
    ensures page.Some? && (page.value.0.None? || page.value.0 == Some("")) ==> t == Int(page.value.1)
    ensures page.Some? && page.value.0.Some? && page.value.0.value != "" ==>
      (t.NaN? <==> parseInt(page.value.0.value).None?)
  {
    match page
    case None => Int(0)
    case Some((header, count)) =>
      if header.Some? && header.value != "" then
        match parseInt(header.value)
        case Some(n) => Int(n)
        case None => NaN
      else Int(count)
  }

  /** `Math.max(1, Math.ceil(total / pageSize))`: `NaN` propagates through both. */
  function TotalPages(total: Num): (pages: Num)
    ensures total.NaN? <==> pages.NaN?
    ensures total.Int? ==> pages.v >= 1
    ensures total.Int? && total.v > 0 ==> PAGE_SIZE * (pages.v - 1) < total.v <= PAGE_SIZE * pages.v
    ensures total.Int? && total.v <= 0 ==> pages.v == 1
  {
    match total
    case NaN => NaN
    case Int(t) => var q := CeilDiv(t, PAGE_SIZE); Int(if q < 1 then 1 else q)
  }

  /** Every item index below the total falls on some page, and no page is empty but the first. */
  lemma PagesCoverTotal(total: int, item: nat)
    requires item < total
    ensures var pages := TotalPages(Int(total)).v;
      item / PAGE_SIZE + 1 <= pages && (pages - 1) * PAGE_SIZE < total
  {
  }

  /** The Previous button is disabled when `page <= 1`; a `NaN` page compares false, so the button stays enabled. */
  predicate PreviousEnabled(page: Num) {
    match page
    case NaN => true
    case Int(p) => !(p <= 1)
  }

  /** The Next button is disabled when `page >= totalPages`; every comparison with `NaN` is false. */
  predicate NextEnabled(page: Num, totalPages: Num) {
    page.Int? && totalPages.Int? ==> !(page.v >= totalPages.v)
  }

  /** `setPage(p => Math.max(1, p - 1))`: `Math.max` with a `NaN` argument is `NaN`. */
  function Previous(page: Num): (p: Num)
    ensures page.NaN? <==> p.NaN?
    ensures page.Int? ==> p.v >= 1
    ensures page.Int? && page.v > 1 ==> p.v == page.v - 1
  {
    match page
    case NaN => NaN
    case Int(n) => Int(if n - 1 < 1 then 1 else n - 1)
  }

  /** `setPage(p => Math.min(totalPages, p + 1))`: `NaN` when either the page or the page count is. */
  function Next(page: Num, totalPages: Num): (p: Num)
    ensures p.NaN? <==> page.NaN? || totalPages.NaN?
    ensures p.Int? ==> p.v <= totalPages.v && p.v <= page.v + 1
    ensures p.Int? && page.v + 1 <= totalPages.v ==> p.v == page.v + 1
  {
    if page.NaN? || totalPages.NaN? then NaN
    else Int(if totalPages.v < page.v + 1 then totalPages.v else page.v + 1)
  }

  /** The counter the page starts on is in range for every total. */
  lemma StartsInRange(total: Num)
    requires total.Int?
    ensures 1 <= INITIAL_PAGE <= TotalPages(total).v
  {
  }

  /**
   * With a numeric total, the enabled buttons keep `1 <= page <= totalPages`
   * and move the counter by exactly one page.
   */
  lemma ButtonsKeepRange(page: int, total: Num)
    requires total.Int?
    requires 1 <= page <= TotalPages(total).v
    ensures PreviousEnabled(Int(page)) ==>
      var p := Previous(Int(page));
      p.Int? && 1 <= p.v <= TotalPages(total).v && p.v == page - 1
    ensures NextEnabled(Int(page), TotalPages(total)) ==>
      var n := Next(Int(page), TotalPages(total));
      n.Int? && 1 <= n.v <= TotalPages(total).v && n.v == page + 1
    ensures !PreviousEnabled(Int(page)) <==> page == 1
    ensures !NextEnabled(Int(page), TotalPages(total)) <==> page == TotalPages(total).v
  {
  }

  /** An unparsable header makes the page count `NaN`, and then Next stays enabled and makes the page `NaN` too. */
  lemma UnparsableTotal(header: string, count: nat, parseInt: string -> Option<int>, page: Num)
    requires header != "" && parseInt(header).None?
    ensures var pages := TotalPages(Total(Some((Some(header), count)), parseInt));
      pages.NaN? && NextEnabled(page, pages) && Next(page, pages).NaN?
  {
  }

  /** A click on Previous (`false`) or Next (`true`), which takes effect only when the button is enabled. */
  function Click(page: Num, totalPages: Num, next: bool): Num {
    if next then (if NextEnabled(page, totalPages) then Next(page, totalPages) else page)
    else (if PreviousEnabled(page) then Previous(page) else page)
  }

  /** The counter after a run of clicks, the page count changing between them as pages load. */
  function Clicks(page: Num, totals: seq<Num>, clicks: seq<bool>): (p: Num)
    requires |totals| == |clicks|
    decreases |clicks|
  {
    if |clicks| == 0 then page
    else Clicks(Click(page, totals[0], clicks[0]), totals[1..], clicks[1..])
  }

  /** With a `NaN` counter both buttons are enabled, whatever the page count, and each click keeps it `NaN`. */
  lemma NaNPageButtons(page: Num, totalPages: Num, next: bool)
    requires page.NaN?
    ensures PreviousEnabled(page) && NextEnabled(page, totalPages)
    ensures Click(page, totalPages, next).NaN?
  {
  }

  /** Once the counter is `NaN`, every run of clicks keeps it `NaN`, whatever the page counts that later loads report. */
  lemma {:induction false} NaNPageSticks(page: Num, totals: seq<Num>, clicks: seq<bool>)
    requires page.NaN? && |totals| == |clicks|
    ensures Clicks(page, totals, clicks).NaN?
    decreases |clicks|
  {
    if |clicks| > 0 {
      NaNPageButtons(page, totals[0], clicks[0]);
      NaNPageSticks(Click(page, totals[0], clicks[0]), totals[1..], clicks[1..]);
    }
  }
}
