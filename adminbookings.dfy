/**
 * The admin bookings page: the search and status filter over all bookings,
 * ten bookings per page, the guarded page change and the "Showing x to y of n"
 * line under the table.
 */
module AdminBookings {
  import opened Wrappers
  import opened Seqs
  import opened Types
  import opened Catalog

  const ItemsPerPage: nat := 10

  /** The booking's movie is known and its title contains the term, ignoring case. */
  predicate TitleMatches(b: Booking, term: string)
  {
    match GetMovieById(b.movieId)
    case None => false
    case Some(m) => IncludesIgnoringCase(m.title, term)
  }

  /** `matchesSearch`: an empty term, or a case-insensitive match on the title, the booking id or the user id. */
  predicate MatchesSearch(b: Booking, term: string)
  {
    term == "" || TitleMatches(b, term) || IncludesIgnoringCase(b.id, term) || IncludesIgnoringCase(b.userId, term)
  }

  /** `matchesStatus`: no status chosen, or the booking has the chosen one. */
  predicate MatchesStatus(b: Booking, status: Option<PaymentStatus>)
  {
    status.None? || b.paymentStatus == status.value
  }

  predicate Shown(b: Booking, term: string, status: Option<PaymentStatus>)
  {
    MatchesSearch(b, term) && MatchesStatus(b, status)
  }

  /** `filteredBookings`: the bookings both filters let through, in stored order. */
  function FilteredBookings(bookings: seq<Booking>, term: string, status: Option<PaymentStatus>): (r: seq<Booking>)
    ensures forall b :: b in r <==> b in bookings && MatchesSearch(b, term) && MatchesStatus(b, status)
    ensures forall b :: multiset(r)[b] == if Shown(b, term, status) then multiset(bookings)[b] else 0
    ensures IsSubsequence(r, bookings)
    ensures status.Some? ==> forall i :: 0 <= i < |r| ==> r[i].paymentStatus == status.value
    ensures term == "" && status.None? ==> r == bookings
  {
    var shown := (b: Booking) => Shown(b, term, status);
    FilterIsSubsequence(bookings, shown);
    FilterCounts(bookings, shown);
    var r := Filter(bookings, shown);
    assert forall i :: 0 <= i < |r| ==> r[i] in r;
    if term == "" && status.None? then
      FilterAll(bookings, shown);
      r
    else
      r
  }

  /** Changing the case of the search term changes nothing. */
  lemma SearchIgnoresCase(b: Booking, term: string)
    ensures MatchesSearch(b, term) <==> MatchesSearch(b, ToLower(term))
  {
    LowerIsIdempotent(term);
  }

  lemma LowerIsIdempotent(s: string)
    ensures ToLower(ToLower(s)) == ToLower(s)
  {
  }

  /** Every booking is found by its own id and by its own user id, whatever the case of the term. */
  lemma FoundByOwnIds(b: Booking)
    ensures MatchesSearch(b, b.id) && MatchesSearch(b, b.userId)
  {
    assert OccursAt(ToLower(b.id), ToLower(b.id), 0);
    assert OccursAt(ToLower(b.userId), ToLower(b.userId), 0);
  }

  /** `Math.ceil(n / itemsPerPage)`. */
  function TotalPages(n: nat): (r: nat)
    ensures r * ItemsPerPage >= n
    ensures r == 0 || (r - 1) * ItemsPerPage < n
    ensures r == 0 <==> n == 0
  {
    (n + ItemsPerPage - 1) / ItemsPerPage
  }

  /** `items.slice((page - 1) * itemsPerPage, page * itemsPerPage)`. */
  function PageOf(items: seq<Booking>, page: nat): (r: seq<Booking>)
    requires page >= 1
    ensures |r| <= ItemsPerPage
    ensures forall i :: 0 <= i < |r| ==>
      (page - 1) * ItemsPerPage + i < |items| && r[i] == items[(page - 1) * ItemsPerPage + i]
    ensures |r| == 0 <==> |items| <= (page - 1) * ItemsPerPage
  {
    Slice(items, (page - 1) * ItemsPerPage, page * ItemsPerPage)
  }

  /** The first number of "Showing x to y of n": 0 with no results, else the 1-based position of the page's first row. */
  function ShowingStart(n: nat, page: nat): nat
    requires page >= 1
  {
    if n > 0 then (page - 1) * ItemsPerPage + 1 else 0
  }

  /** The second number of "Showing x to y of n": `Math.min(page * itemsPerPage, n)`. */
  function ShowingEnd(n: nat, page: nat): nat
  {
    if page * ItemsPerPage < n then page * ItemsPerPage else n
  }

  /**
   * On a page that exists, "Showing x to y" names exactly the rows on that
   * page: positions x to y (1-based) of the filtered list.
   */
  lemma ShowingMatchesPage(items: seq<Booking>, page: nat)
    requires 1 <= page <= TotalPages(|items|)
    ensures 1 <= ShowingStart(|items|, page) <= ShowingEnd(|items|, page) <= |items|
    ensures |PageOf(items, page)| == ShowingEnd(|items|, page) - ShowingStart(|items|, page) + 1
    ensures PageOf(items, page)[0] == items[ShowingStart(|items|, page) - 1]
    ensures PageOf(items, page)[|PageOf(items, page)| - 1] == items[ShowingEnd(|items|, page) - 1]
  {
  }

  /** The pages, taken in order, are the filtered list cut into runs of ten. */
  lemma {:induction false} PagesCoverAll(items: seq<Booking>, page: nat)
    requires 1 <= page <= TotalPages(|items|)
    ensures PagesUpTo(items, page) == items[..ShowingEnd(|items|, page)]
  {
    if page > 1 {
      PagesCoverAll(items, page - 1);
    }
  }

  /** Pages 1 to `page` one after the other. */
  function PagesUpTo(items: seq<Booking>, page: nat): seq<Booking>
    decreases page
  {
    if page == 0 then [] else PagesUpTo(items, page - 1) + PageOf(items, page)
  }

  /**
   * As written, changing the search term or the status keeps the current
   * page: once the filtered list no longer reaches that page, the table is
   * empty though there are results, the line reads "Showing x to y" with
   * x > y, and there is no such page to go back from.
   */
  lemma StalePageAfterNarrowing(items: seq<Booking>, page: nat)
    requires page >= 1
    requires 0 < |items| <= (page - 1) * ItemsPerPage
    ensures PageOf(items, page) == []
    ensures ShowingStart(|items|, page) > ShowingEnd(|items|, page)
    ensures TotalPages(|items|) < page
  {
  }

  /** 25 bookings on page 3, then a search leaving 5: "Showing 21 to 5 of 5" above an empty table. */
  lemma StalePageScenario()
    ensures TotalPages(25) == 3 && TotalPages(5) == 1
    ensures ShowingStart(5, 3) == 21 && ShowingEnd(5, 3) == 5
  {
  }

  /** Starting again from page 1, any non-empty result list shows its first rows. */
  lemma FirstPageAfterReset(items: seq<Booking>)
    requires |items| > 0
    ensures PageOf(items, 1) != []
    ensures ShowingStart(|items|, 1) == 1 <= ShowingEnd(|items|, 1)
  {
  }

  /** The page's own state: the search box, the status select and the current page. */
  class BookingsView {
    var searchTerm: string
    var statusFilter: Option<PaymentStatus>
    var currentPage: nat

    ghost predicate Valid()
      reads this`currentPage
    {
      currentPage >= 1
    }

    /** The current page exists, or it is page 1 of an empty list. */
    predicate PageInRange(bookings: seq<Booking>)
      reads this
    {
      currentPage == 1 || 1 <= currentPage <= TotalPages(|Filtered(bookings)|)
    }

    function Filtered(bookings: seq<Booking>): seq<Booking>
      reads this`searchTerm, this`statusFilter
    {
      FilteredBookings(bookings, searchTerm, statusFilter)
    }

    /** The rows in the table: `paginatedBookings`. */
    function Paginated(bookings: seq<Booking>): (r: seq<Booking>)
      requires Valid()
      reads this
      ensures |r| <= ItemsPerPage
      ensures PageInRange(bookings) && |Filtered(bookings)| > 0 ==> |r| > 0
    {
      PageOf(Filtered(bookings), currentPage)
    }

    constructor ()
      ensures Valid()
      ensures searchTerm == "" && statusFilter == None && currentPage == 1
    {
      searchTerm := "";
      statusFilter := None;
      currentPage := 1;
    }

    /** `goToPage(page)`: moves only to a page that exists. */
    method GoToPage(bookings: seq<Booking>, page: int)
      requires Valid()
      modifies this`currentPage
      ensures Valid()
      ensures 1 <= page <= TotalPages(|Filtered(bookings)|) ==> currentPage == page
      ensures !(1 <= page <= TotalPages(|Filtered(bookings)|)) ==> currentPage == old(currentPage)
      ensures old(PageInRange(bookings)) ==> PageInRange(bookings)
    {
      if 1 <= page <= TotalPages(|Filtered(bookings)|) {
        currentPage := page;
      }
    }

    /** The search box as written: the term changes and the current page stays. */
    method SetSearchTerm(term: string)
      requires Valid()
      modifies this`searchTerm
      ensures Valid()
      ensures searchTerm == term
    {
      searchTerm := term;
    }

    /** The status select as written: the status changes and the current page stays. */
    method SetStatusFilter(status: Option<PaymentStatus>)
      requires Valid()
      modifies this`statusFilter
      ensures Valid()
      ensures statusFilter == status
    {
      statusFilter := status;
    }

    /** The search box going back to page 1, so the page shown always exists. */
    method SetSearchTermResettingPage(bookings: seq<Booking>, term: string)
      requires Valid()
      modifies this`searchTerm, this`currentPage
      ensures Valid()
      ensures searchTerm == term && currentPage == 1
      ensures PageInRange(bookings)
      ensures |Filtered(bookings)| > 0 ==> Paginated(bookings) != []
    {
      searchTerm := term;
      currentPage := 1;
    }

    /** The status select going back to page 1, so the page shown always exists. */
    method SetStatusFilterResettingPage(bookings: seq<Booking>, status: Option<PaymentStatus>)
      requires Valid()
      modifies this`statusFilter, this`currentPage
      ensures Valid()
      ensures statusFilter == status && currentPage == 1
      ensures PageInRange(bookings)
      ensures |Filtered(bookings)| > 0 ==> Paginated(bookings) != []
    {
      statusFilter := status;
      currentPage := 1;
    }
  }
}
