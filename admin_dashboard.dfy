/** The arithmetic and filtering of the admin dashboard page: the window of
    five page buttons, the "Showing X to Y of Z" range, the Previous/Next
    clamps, the payment-status filter over the loaded donors, and the page
    reset when the search changes. Rendering is not modelled. */
module AdminDashboard {
  import opened Basics
  import opened Paging
  import opened DonorModel
  import opened AdminController

  /** `itemsPerPage`. */
  const PerPage := 20

  /** The page number of button i (0-based) of the window. */
  function PageButton(current: int, total: int, i: int): int
  {
    if total <= 5 then i + 1
    else if current <= 3 then i + 1
    else if current >= total - 2 then total - 4 + i
    else current - 2 + i
  }

  /** The page buttons, `Array.from({ length: Math.min(5, totalPages) }, ..)`;
      a length below zero makes no buttons. */
  function PageButtons(current: int, total: int): (r: seq<int>)
    ensures |r| == Max(0, Min(5, total))
    ensures total <= 5 ==> forall i | 0 <= i < |r| :: r[i] == i + 1
  {
    seq(Max(0, Min(5, total)), i => PageButton(current, total, i))
  }

  /** With more than five pages and a current page among them, the buttons
      are five consecutive pages inside [1, total] that include the current
      one: starting at 1 near the front, ending at `total` near the back,
      and centred on the current page otherwise. */
  lemma PageButtonsWindow(current: int, total: int)
    requires total > 5 && 1 <= current <= total
    ensures var r := PageButtons(current, total);
      && |r| == 5
      && (forall i | 0 <= i < 4 :: r[i + 1] == r[i] + 1)
      && 1 <= r[0] && r[4] <= total
      && current in r
      && r[0] == (if current <= 3 then 1 else if current >= total - 2 then total - 4 else current - 2)
  {
    var r := PageButtons(current, total);
    var k := current - r[0];
    assert 0 <= k < 5;
    assert r[k] == current;
  }

  /** "Showing `from` to `to`": `(page - 1) * perPage + 1` and
      `Math.min(page * perPage, total)`. */
  function ShowingRange(page: int, perPage: int, total: int): (int, int)
  {
    ((page - 1) * perPage + 1, Min(page * perPage, total))
  }

  /** For a page that exists, the range counts exactly the items the server
      put on that page: it starts one past the items of the pages before
      and spans as many items as the page holds. */
  lemma ShowingRangeMatchesPage<T>(all: seq<T>, page: int, perPage: int)
    requires perPage > 0 && 1 <= page <= CeilDiv(|all|, perPage)
    ensures Paginate(all, page, perPage).Some?
    ensures var (from, to) := ShowingRange(page, perPage, |all|);
      var items := Paginate(all, page, perPage).value.items;
      && from == (page - 1) * perPage + 1
      && to - from + 1 == |items|
      && 1 <= from <= to <= |all|
  {
    var pages := CeilDiv(|all|, perPage);
    MulMonotone(page - 1, pages - 1, perPage);
    MulMonotone(0, page - 1, perPage);
    PaginateProperties(all, page, perPage);
  }

  /** Previous: `Math.max(1, page - 1)`. */
  function Previous(page: int): (r: int)
    ensures r >= 1
    ensures page > 1 ==> r == page - 1
  {
    Max(1, page - 1)
  }

  /** Next: `Math.min(totalPages, page + 1)`. */
  function Next(page: int, total: int): (r: int)
    ensures r <= total
    ensures page < total ==> r == page + 1
  {
    Min(total, page + 1)
  }

  /** Previous and Next keep a page inside [1, total], and stop at the
      ends. */
  lemma PrevNextStayInRange(page: int, total: int)
    requires 1 <= page <= total
    ensures 1 <= Previous(page) <= total && 1 <= Next(page, total) <= total
    ensures Previous(1) == 1 && Next(total, total) == total
  {
  }

  /** The status filter over the loaded donors: 'all' keeps every one,
      any other value the donors with that payment status. */
  function StatusFilter(donors: seq<Donation>, status: string): (r: seq<Donation>)
  {
    if status == "all" then donors else Filter(donors, (d: Donation) => PaymentStatusName(d.paymentStatus) == status)
  }

  /** The filter keeps, in order, exactly the donors of the chosen status,
      and everything for 'all'. */
  lemma StatusFilterSelects(donors: seq<Donation>, status: string, x: Donation)
    ensures status == "all" ==> StatusFilter(donors, status) == donors
    ensures x in StatusFilter(donors, status) <==> x in donors && (status == "all" || PaymentStatusName(x.paymentStatus) == status)
  {
    if status != "all" && x in donors && PaymentStatusName(x.paymentStatus) == status {
      FilterKeeps(donors, (d: Donation) => PaymentStatusName(d.paymentStatus) == status, x);
    }
  }

  /** The page's state: the search box, the status filter and the page. */
  datatype View = View(search: string, status: string, page: int)

  /** Typing in the search box: the term changes and the page goes back to
      the first. */
  function SearchChanged(v: View, term: string): (r: View)
    ensures r.search == term && r.page == 1 && r.status == v.status
  {
    v.(search := term, page := 1)
  }

  /** The donors fetch: page, 20 per page, the search when non-empty, and
      the payment status `status`, when one is sent. */
  function DonorsFetch(v: View, status: Option<string>): DonorQuery
  {
    DonorQuery(Some(v.page), Some(PerPage), if v.search == "" then None else Some(v.search), None, status)
  }

  /** The rows the table shows: the status filter over the fetched page, or
      over the previous donors when the fetch fails. */
  function Rows(ds: seq<Donation>, v: View, status: Option<string>, prior: seq<Donation>): seq<Donation>
  {
    var reply := AllDonors(ds, DonorsFetch(v, status));
    StatusFilter(if reply.Ok? then reply.data.items else prior, v.status)
  }

  /** The table as written: the fetch sends no status, so the server keeps
      only completed donations. */
  function RowsAsWritten(ds: seq<Donation>, v: View, prior: seq<Donation>): seq<Donation>
  {
    Rows(ds, v, None, prior)
  }

  /** The table with the chosen status sent along ('all' makes the server
      drop its status filter). */
  function RowsSendingStatus(ds: seq<Donation>, v: View, prior: seq<Donation>): seq<Donation>
  {
    Rows(ds, v, Some(v.status), prior)
  }

  /** As written, choosing 'pending' or 'failed' always shows an empty
      table once the fetch succeeds, whatever donations are recorded. */
  lemma AsWrittenHidesOtherStatuses(ds: seq<Donation>, v: View, prior: seq<Donation>)
    requires v.status == "pending" || v.status == "failed"
    requires AllDonors(ds, DonorsFetch(v, None)).Ok?
    ensures RowsAsWritten(ds, v, prior) == []
  {
    var q := DonorsFetch(v, None);
    var items := AllDonors(ds, q).data.items;
    AllDonorsItems(ds, q);
    var r := RowsAsWritten(ds, v, prior);
    if r != [] {
      var x := r[0];
      StatusFilterSelects(items, v.status, x);
    }
  }

  /** Sending the chosen status, every row has that status, and every
      recorded donation of that status that matches the search is counted
      in the total the pager is computed from. */
  lemma SendingStatusShowsIt(ds: seq<Donation>, v: View, prior: seq<Donation>, x: Donation)
    requires v.page >= 1 && v.status != "all" && v.status != ""
    ensures AllDonors(ds, DonorsFetch(v, Some(v.status))).Ok?
    ensures forall y | y in RowsSendingStatus(ds, v, prior) :: PaymentStatusName(y.paymentStatus) == v.status
    ensures x in ds && PaymentStatusName(x.paymentStatus) == v.status && DonorSelected(DonorsFetch(v, None), x)
      ==> x in DonorsMatching(ds, DonorsFetch(v, Some(v.status)))
  {
    var q := DonorsFetch(v, Some(v.status));
    AllDonorsPage(ds, q);
    var items := AllDonors(ds, q).data.items;
    forall y | y in RowsSendingStatus(ds, v, prior) ensures PaymentStatusName(y.paymentStatus) == v.status {
      StatusFilterSelects(items, v.status, y);
    }
    DonorsSelection(ds, q, x);
    DonorsSelection(ds, DonorsFetch(v, None), x);
  }
}
