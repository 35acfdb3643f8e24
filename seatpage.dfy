/**
 * The seat selection page: the showtime it loads, the running total it
 * shows, the proceed button and its click handler, and the reset of the
 * selection when the page is left.
 */
module SeatSelectionPage {
  import opened Wrappers
  import opened Types
  import opened Catalog
  import opened Pricing
  import opened Store

  /** Where a click on the proceed button leaves the user. */
  datatype Navigation =
    | Stay                         // nothing happens
    | ToLogin(redirectTo: string)  // the login page, asked to come back here afterwards
    | ToPayment(bookingId: string) // the payment page of the new booking
    | Thrown(message: string)      // `createBooking` threw and nothing was caught

  /**
   * The showtime the page holds once loaded: it is looked up only after the
   * movie of the route is found, and is never checked to belong to that movie.
   */
  function LoadedShowtime(movieId: string, showtimeId: string): (r: Option<Showtime>)
    ensures r.Some? <==> GetMovieById(movieId).Some? && GetShowtimeById(showtimeId).Some?
    ensures r.Some? ==> r == GetShowtimeById(showtimeId)
  {
    if GetMovieById(movieId).None? then None else GetShowtimeById(showtimeId)
  }

  /** `calculateTotal()`: 0 while no showtime is loaded, otherwise the sum of the selected seats' prices. */
  function CalculateTotal(showtime: Option<Showtime>, selection: seq<Seat>): (r: real)
    ensures showtime.None? ==> r == 0.0
    ensures showtime.Some? ==> r == SumOfSeatPrices(selection, showtime.value)
    ensures |selection| == 0 ==> r == 0.0
  {
    match showtime
    case None => 0.0
    case Some(st) =>
      TotalIsSumOfSeatPrices(selection, st);
      Total(selection, st)
  }

  /** The page's total and the amount of the booking created from the same selection agree. */
  lemma TotalMatchesBooking(id: string, bookingDate: string, userId: string, movieId: string,
                            showtimeId: string, selection: seq<Seat>)
    requires LoadedShowtime(movieId, showtimeId).Some?
    ensures BookingFor(id, bookingDate, userId, movieId, showtimeId, selection).Success?
    ensures BookingFor(id, bookingDate, userId, movieId, showtimeId, selection).value.totalAmount
            == CalculateTotal(LoadedShowtime(movieId, showtimeId), selection)
  {
    var st := GetShowtimeById(showtimeId).value;
    TotalIsSumOfSeatPrices(selection, st);
  }

  /** The proceed button is disabled exactly when nothing is selected. */
  predicate ProceedDisabled(selection: seq<Seat>)
  {
    |selection| == 0
  }

  /** The route the login page is asked to return to. */
  function SeatsRoute(movieId: string, showtimeId: string): string
  {
    "/seats/" + movieId + "/" + showtimeId
  }

  /**
   * `handleProceedToPayment()` for the signed-in user `user`, if any, on the
   * route `/seats/movieId/showtimeId`; `id` and `bookingDate` are the clock's
   * values for a new booking.
   */
  method HandleProceedToPayment(store: MoviesStore, user: Option<string>, movieId: string, showtimeId: string,
                                id: string, bookingDate: string)
    returns (nav: Navigation)
    requires store.Valid()
    modifies store`bookings, store`activeBooking
    ensures store.Valid()
    ensures user.None? ==> nav == ToLogin(SeatsRoute(movieId, showtimeId))
    ensures user.Some? && (movieId == "" || showtimeId == "") ==> nav == Stay
    ensures user.None? || movieId == "" || showtimeId == "" ==>
      store.bookings == old(store.bookings) && store.activeBooking == old(store.activeBooking)
    ensures user.Some? && movieId != "" && showtimeId != "" ==>
      var r := BookingFor(id, bookingDate, user.value, movieId, showtimeId, store.selectedSeats);
      && (r.Failure? ==>
            nav == Thrown(r.error) &&
            store.bookings == old(store.bookings) && store.activeBooking == old(store.activeBooking))
      && (r.Success? ==>
            nav == ToPayment(id) &&
            store.bookings == old(store.bookings) + [r.value] && store.activeBooking == Some(r.value) &&
            r.value.seats == Snapshot(store.selectedSeats))
  {
    if user.None? {
      return ToLogin(SeatsRoute(movieId, showtimeId));
    }
    if movieId == "" || showtimeId == "" {
      return Stay;
    }
    var r := store.CreateBooking(user.value, movieId, showtimeId, store.selectedSeats, id, bookingDate);
    if r.Failure? {
      return Thrown(r.error);
    }
    nav := ToPayment(r.value.id);
  }

  /** A click on the proceed button: a disabled button does nothing, an enabled one runs the handler. */
  method ClickProceed(store: MoviesStore, user: Option<string>, movieId: string, showtimeId: string,
                      id: string, bookingDate: string)
    returns (nav: Navigation)
    requires store.Valid()
    modifies store`bookings, store`activeBooking
    ensures store.Valid()
    ensures ProceedDisabled(store.selectedSeats) ==>
      nav == Stay && store.bookings == old(store.bookings) && store.activeBooking == old(store.activeBooking)
    ensures nav.ToPayment? ==>
      user.Some? && |store.bookings| == |old(store.bookings)| + 1 &&
      store.bookings[|old(store.bookings)|].id == nav.bookingId &&
      store.bookings[|old(store.bookings)|].userId == user.value &&
      |store.bookings[|old(store.bookings)|].seats| == |store.selectedSeats| > 0
  {
    if ProceedDisabled(store.selectedSeats) {
      return Stay;
    }
    nav := HandleProceedToPayment(store, user, movieId, showtimeId, id, bookingDate);
  }

  /**
   * The clean-up of the page's loading effect: the selection is emptied. It
   * runs when the page is left, and also before every re-run of that effect.
   */
  method LeaveSeatSelection(store: MoviesStore)
    requires store.Valid()
    modifies store`selectedSeats
    ensures store.Valid()
    ensures store.selectedSeats == []
  {
    store.ResetSelectedSeats();
  }
}
