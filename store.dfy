/**
 * The movies provider: the state shared by the pages (the filtered movie
 * list, the booking history, the current seat selection and the active
 * booking) and the operations that change it.
 */
module Store {
  import opened Wrappers
  import opened Seqs
  import opened Types
  import opened Catalog
  import opened Pricing

  // ---- Selection tracker ----

  /** `selection.some(s => s.row === row && s.seatNumber === seatNumber)`. */
  predicate IsSelected(selection: seq<Seat>, row: int, seatNumber: int)
  {
    exists i | 0 <= i < |selection| :: selection[i].row == row && selection[i].seatNumber == seatNumber
  }

  /** `selection.filter(s => !(s.row === row && s.seatNumber === seatNumber))`. */
  function WithoutSeat(selection: seq<Seat>, row: int, seatNumber: int): (r: seq<Seat>)
    ensures forall x :: x in r <==> x in selection && !(x.row == row && x.seatNumber == seatNumber)
    ensures IsSubsequence(r, selection)
  {
    var keep := (s: Seat) => !(s.row == row && s.seatNumber == seatNumber);
    FilterIsSubsequence(selection, keep);
    Filter(selection, keep)
  }

  /** The selection after toggling `seat`. */
  function Toggled(selection: seq<Seat>, seat: Seat): seq<Seat>
  {
    if seat.isOccupied then selection
    else if IsSelected(selection, seat.row, seat.seatNumber) then WithoutSeat(selection, seat.row, seat.seatNumber)
    else selection + [seat.(isSelected := true)]
  }

  /** The `(row, seatNumber)` keys of a selection. */
  function Keys(selection: seq<Seat>): set<(int, int)>
  {
    set i | 0 <= i < |selection| :: (selection[i].row, selection[i].seatNumber)
  }

  /**
   * The selection invariant: no key twice, no occupied seat, every entry
   * marked selected.
   */
  predicate SelectionValid(selection: seq<Seat>)
  {
    && (forall i, j :: 0 <= i < j < |selection| ==>
          !(selection[i].row == selection[j].row && selection[i].seatNumber == selection[j].seatNumber))
    && (forall i :: 0 <= i < |selection| ==> !selection[i].isOccupied && selection[i].isSelected)
  }

  /** Toggling an occupied seat leaves the selection exactly as it was. */
  lemma ToggleOccupiedIsNoOp(selection: seq<Seat>, seat: Seat)
    requires seat.isOccupied
    ensures Toggled(selection, seat) == selection
  {
  }

  /**
   * On an unoccupied seat, toggling flips the membership of that key and of
   * no other: the key set changes by exactly the toggled key.
   */
  lemma ToggleKeys(selection: seq<Seat>, seat: Seat)
    requires !seat.isOccupied
    ensures var k := (seat.row, seat.seatNumber);
      Keys(Toggled(selection, seat)) ==
        if k in Keys(selection) then Keys(selection) - {k} else Keys(selection) + {k}
  {
    var k := (seat.row, seat.seatNumber);
    var r := Toggled(selection, seat);
    if k in Keys(selection) {
      var i :| 0 <= i < |selection| && (selection[i].row, selection[i].seatNumber) == k;
      assert IsSelected(selection, seat.row, seat.seatNumber);
      forall x | x in Keys(selection) - {k} ensures x in Keys(r) {
        var j :| 0 <= j < |selection| && (selection[j].row, selection[j].seatNumber) == x;
        assert selection[j] in r;
        var m :| 0 <= m < |r| && r[m] == selection[j];
      }
      forall x | x in Keys(r) ensures x in Keys(selection) - {k} {
        var m :| 0 <= m < |r| && (r[m].row, r[m].seatNumber) == x;
        assert r[m] in selection;
        var j :| 0 <= j < |selection| && selection[j] == r[m];
      }
    } else {
      assert !IsSelected(selection, seat.row, seat.seatNumber);
      assert r == selection + [seat.(isSelected := true)];
      assert (r[|selection|].row, r[|selection|].seatNumber) == k;
      forall x | x in Keys(selection) ensures x in Keys(r) {
        var j :| 0 <= j < |selection| && (selection[j].row, selection[j].seatNumber) == x;
        assert r[j] == selection[j];
      }
    }
  }

  /** Toggling the same seat twice restores the selected keys. */
  lemma ToggleTwiceRestoresKeys(selection: seq<Seat>, seat: Seat)
    ensures Keys(Toggled(Toggled(selection, seat), seat)) == Keys(selection)
  {
    if !seat.isOccupied {
      ToggleKeys(selection, seat);
      ToggleKeys(Toggled(selection, seat), seat);
    }
  }

  /** When the seat was not selected, toggling it twice restores the very same selection. */
  lemma ToggleTwiceUnselected(selection: seq<Seat>, seat: Seat)
    requires !IsSelected(selection, seat.row, seat.seatNumber)
    ensures Toggled(Toggled(selection, seat), seat) == selection
  {
    if !seat.isOccupied {
      var once := selection + [seat.(isSelected := true)];
      assert Toggled(selection, seat) == once;
      assert IsSelected(once, seat.row, seat.seatNumber) by {
        assert once[|selection|].row == seat.row && once[|selection|].seatNumber == seat.seatNumber;
      }
      var keep := (s: Seat) => !(s.row == seat.row && s.seatNumber == seat.seatNumber);
      FilterConcat(selection, [seat.(isSelected := true)], keep);
      FilterAll(selection, keep);
    }
  }

  /** Toggling keeps the selection invariant. */
  lemma ToggleKeepsValid(selection: seq<Seat>, seat: Seat)
    requires SelectionValid(selection)
    ensures SelectionValid(Toggled(selection, seat))
  {
    var r := Toggled(selection, seat);
    if !seat.isOccupied && IsSelected(selection, seat.row, seat.seatNumber) {
      var keep := (s: Seat) => !(s.row == seat.row && s.seatNumber == seat.seatNumber);
      FilterKeepsValid(selection, keep);
    }
  }

  lemma {:induction false} FilterKeepsValid(selection: seq<Seat>, p: Seat -> bool)
    requires SelectionValid(selection)
    ensures SelectionValid(Filter(selection, p))
  {
    if |selection| > 0 {
      FilterKeepsValid(selection[1..], p);
      var rest := Filter(selection[1..], p);
      if p(selection[0]) {
        var r := Filter(selection, p);
        assert r == [selection[0]] + rest;
        forall j | 0 < j < |r|
          ensures !(r[0].row == r[j].row && r[0].seatNumber == r[j].seatNumber)
        {
          assert r[j] in selection[1..];
        }
      }
    }
  }

  // ---- Booking lifecycle ----

  /** `seats.map(seat => ({ row, seatNumber, isVip }))`: the snapshot kept in a booking. */
  function Snapshot(seats: seq<Seat>): (r: seq<SeatRef>)
    ensures |r| == |seats|
    ensures forall i :: 0 <= i < |seats| ==>
      r[i] == SeatRef(seats[i].row, seats[i].seatNumber, seats[i].isVip)
  {
    seq(|seats|, i requires 0 <= i < |seats| => SeatRef(seats[i].row, seats[i].seatNumber, seats[i].isVip))
  }

  /** The booking `createBooking` builds for a resolved showtime; `id` and `bookingDate` come from the clock. */
  function NewBooking(id: string, bookingDate: string, userId: string, movieId: string,
                      st: Showtime, seats: seq<Seat>): Booking
  {
    Booking(id, userId, movieId, st.id, Snapshot(seats), Total(seats, st), Mpesa, Pending, bookingDate)
  }

  /** The outcome of `createBooking`: the "Showtime not found" error, or the new booking. */
  function BookingFor(id: string, bookingDate: string, userId: string, movieId: string,
                      showtimeId: string, seats: seq<Seat>): (r: Result<Booking, string>)
    ensures r.Failure? <==> GetShowtimeById(showtimeId).None?
    ensures r.Failure? ==> r.error == "Showtime not found"
    ensures r.Success? ==> r.value.showtimeId == showtimeId && r.value.userId == userId &&
                           r.value.movieId == movieId && r.value.id == id
  {
    match GetShowtimeById(showtimeId)
    case None => Failure("Showtime not found")
    case Some(st) => Success(NewBooking(id, bookingDate, userId, movieId, st, seats))
  }

  /** A new booking is pending, paid by the placeholder method, priced seat by seat, and snapshots the seats. */
  lemma NewBookingFacts(id: string, bookingDate: string, userId: string, movieId: string,
                        st: Showtime, seats: seq<Seat>)
    ensures var b := NewBooking(id, bookingDate, userId, movieId, st, seats);
      && b.paymentStatus == Pending && b.paymentMethod == Mpesa
      && b.totalAmount == SumOfSeatPrices(seats, st)
      && |b.seats| == |seats|
      && (forall i :: 0 <= i < |seats| ==>
            b.seats[i].row == seats[i].row && b.seats[i].seatNumber == seats[i].seatNumber &&
            b.seats[i].isVip == seats[i].isVip)
  {
    TotalIsSumOfSeatPrices(seats, st);
  }

  /** `bookings.map(b => b.id === bookingId ? { ...b, paymentMethod, paymentStatus: 'completed' } : b)`. */
  function MarkCompleted(bookings: seq<Booking>, bookingId: string, m: PaymentMethod): (r: seq<Booking>)
    ensures |r| == |bookings|
    ensures forall i :: 0 <= i < |bookings| ==>
      r[i] == if bookings[i].id == bookingId
              then bookings[i].(paymentMethod := m, paymentStatus := Completed)
              else bookings[i]
  {
    seq(|bookings|, i requires 0 <= i < |bookings| =>
      if bookings[i].id == bookingId
      then bookings[i].(paymentMethod := m, paymentStatus := Completed)
      else bookings[i])
  }

  /** Completing an id no booking has changes nothing. */
  lemma CompleteUnknownIdIsNoOp(bookings: seq<Booking>, bookingId: string, m: PaymentMethod)
    requires forall i :: 0 <= i < |bookings| ==> bookings[i].id != bookingId
    ensures MarkCompleted(bookings, bookingId, m) == bookings
  {
  }

  /** Completing twice with the same method is completing once. */
  lemma CompleteIsIdempotent(bookings: seq<Booking>, bookingId: string, m: PaymentMethod)
    ensures MarkCompleted(MarkCompleted(bookings, bookingId, m), bookingId, m) == MarkCompleted(bookings, bookingId, m)
  {
  }

  /**
   * A booking just appended and then completed by its id is completed with
   * that method, whatever its earlier status; the seats, amount and ids stay.
   */
  lemma CreateThenComplete(bookings: seq<Booking>, b: Booking, m: PaymentMethod)
    ensures var r := MarkCompleted(bookings + [b], b.id, m);
      && |r| == |bookings| + 1
      && r[|bookings|] == b.(paymentMethod := m, paymentStatus := Completed)
  {
  }

  // ---- Movie search ----

  /** The search term occurs, ignoring case, in the title, a genre, the director or a cast member. */
  predicate MatchesTerm(m: Movie, term: string)
  {
    || IncludesIgnoringCase(m.title, term)
    || Any(m.genre, (g: string) => IncludesIgnoringCase(g, term))
    || IncludesIgnoringCase(m.director, term)
    || Any(m.cast, (c: string) => IncludesIgnoringCase(c, term))
  }

  /** `movie.genre.some(g => genres.includes(g))`. */
  predicate HasGenre(m: Movie, genres: seq<string>)
  {
    Any(m.genre, (g: string) => g in genres)
  }

  /** Both filters of `filterMovies` at once: a falsy term or an empty genre list does not filter. */
  predicate MovieMatches(m: Movie, term: string, genres: seq<string>)
  {
    (term == "" || MatchesTerm(m, term)) && (|genres| == 0 || HasGenre(m, genres))
  }

  // ---- The provider state ----

  class MoviesStore {
    var filteredMovies: seq<Movie>
    var bookings: seq<Booking>
    var selectedSeats: seq<Seat>
    var activeBooking: Option<Booking>

    ghost predicate Valid()
      reads this`selectedSeats
    {
      SelectionValid(selectedSeats)
    }

    /** The initial state: all movies shown, no bookings, nothing selected, no active booking. */
    constructor ()
      ensures Valid()
      ensures filteredMovies == Movies && bookings == [] && selectedSeats == [] && activeBooking == None
    {
      filteredMovies := Movies;
      bookings := [];
      selectedSeats := [];
      activeBooking := None;
    }

    /** `toggleSeatSelection(seat)`. */
    method ToggleSeatSelection(seat: Seat)
      requires Valid()
      modifies this`selectedSeats
      ensures Valid()
      ensures selectedSeats == Toggled(old(selectedSeats), seat)
    {
      if seat.isOccupied {
        return;
      }
      var isSeatSelected := exists i | 0 <= i < |selectedSeats| ::
        selectedSeats[i].row == seat.row && selectedSeats[i].seatNumber == seat.seatNumber;
      ToggleKeepsValid(selectedSeats, seat);
      if isSeatSelected {
        selectedSeats := Filter(selectedSeats, (s: Seat) => !(s.row == seat.row && s.seatNumber == seat.seatNumber));
      } else {
        selectedSeats := selectedSeats + [seat.(isSelected := true)];
      }
    }

    /** `resetSelectedSeats()`. */
    method ResetSelectedSeats()
      requires Valid()
      modifies this`selectedSeats
      ensures Valid()
      ensures selectedSeats == []
    {
      selectedSeats := [];
    }

    /** `setActiveBooking(booking)`. */
    method SetActiveBooking(booking: Option<Booking>)
      requires Valid()
      modifies this`activeBooking
      ensures Valid()
      ensures activeBooking == booking
    {
      activeBooking := booking;
    }

    /**
     * `createBooking(userId, movieId, showtimeId, seats)`: throws for an unknown
     * showtime and changes nothing; otherwise appends the new pending booking
     * and makes it the active one. `id` and `bookingDate` are the clock's values.
     */
    method CreateBooking(userId: string, movieId: string, showtimeId: string, seats: seq<Seat>,
                         id: string, bookingDate: string)
      returns (r: Result<Booking, string>)
      requires Valid()
      modifies this`bookings, this`activeBooking
      ensures Valid()
      ensures r == BookingFor(id, bookingDate, userId, movieId, showtimeId, seats)
      ensures r.Failure? ==> bookings == old(bookings) && activeBooking == old(activeBooking)
      ensures r.Success? ==> bookings == old(bookings) + [r.value] && activeBooking == Some(r.value)
    {
      r := BookingFor(id, bookingDate, userId, movieId, showtimeId, seats);
      if r.Failure? {
        return;
      }
      bookings := bookings + [r.value];
      activeBooking := Some(r.value);
    }

    /**
     * `completeBooking(bookingId, paymentMethod)`: every booking with that id
     * becomes completed with that method, whatever its status; the selection
     * is cleared; the answer is always true.
     */
    method CompleteBooking(bookingId: string, paymentMethod: PaymentMethod) returns (ok: bool)
      requires Valid()
      modifies this`bookings, this`selectedSeats
      ensures Valid()
      ensures ok
      ensures bookings == MarkCompleted(old(bookings), bookingId, paymentMethod)
      ensures selectedSeats == []
    {
      bookings := MarkCompleted(bookings, bookingId, paymentMethod);
      ResetSelectedSeats();
      return true;
    }

    /**
     * `filterMovies(searchTerm, genres)`: keeps, in catalog order, the movies
     * matching a non-empty term and, when genres are given, one of them.
     */
    method FilterMovies(searchTerm: string, genres: seq<string>)
      requires Valid()
      modifies this`filteredMovies
      ensures Valid()
      ensures forall m :: m in filteredMovies <==> m in Movies && MovieMatches(m, searchTerm, genres)
      ensures IsSubsequence(filteredMovies, Movies)
      ensures searchTerm == "" && |genres| == 0 ==> filteredMovies == Movies
    {
      var byTerm := (m: Movie) => searchTerm == "" || MatchesTerm(m, searchTerm);
      var byGenre := (m: Movie) => |genres| == 0 || HasGenre(m, genres);
      var filtered := Movies;
      if searchTerm != "" {
        var term := (m: Movie) => MatchesTerm(m, searchTerm);
        filtered := Filter(filtered, term);
        FilterSamePredicate(Movies, term, byTerm);
      } else {
        FilterAll(Movies, byTerm);
      }
      assert filtered == Filter(Movies, byTerm);
      var afterTerm := filtered;
      if |genres| > 0 {
        var genre := (m: Movie) => HasGenre(m, genres);
        filtered := Filter(filtered, genre);
        FilterSamePredicate(afterTerm, genre, byGenre);
      } else {
        FilterAll(afterTerm, byGenre);
      }
      var both := (m: Movie) => MovieMatches(m, searchTerm, genres);
      FilterTwice(Movies, byTerm, byGenre, both);
      FilterIsSubsequence(Movies, both);
      if searchTerm == "" && |genres| == 0 {
        FilterAll(Movies, both);
      }
      filteredMovies := filtered;
    }
  }
}
