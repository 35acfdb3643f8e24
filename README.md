# TanzaCinema seat and booking core, modelled in Dafny

TanzaCinema is a cinema booking web app. This project models its
in-memory core and proves properties of it:

- the static catalog of movies, halls and showtimes, and its lookups;
- simulated seat occupancy, and the seat grid of a hall;
- the customer's seat selection, and what the selection costs;
- the booking lifecycle (create a pending booking, then complete it);
- the movie search;
- the seat selection page's total, its proceed button and its clean-up;
- the admin dashboard's revenue, tickets sold and recent bookings;
- the admin bookings page's filter, pagination and "Showing x to y of n" line.

Modules, one per file:

- `Wrappers`: `Option` and `Result`.
- `Seqs`: the JavaScript array and string operations used, each with its contract:
  - `find`, `filter`, `some` and clamped `slice`;
  - ASCII `toLowerCase` and `includes`.
- `Types`: the records.
  - `Movie`, `Hall`, `Showtime`, `Seat` and `Booking`.
  - Payment method and payment status as enumerations.
  - `IsVip`, the hall's VIP rule: the row is a VIP row, or the seat is one of the row's VIP override seats.
- `Catalog`: the catalog constants, their lookups, and the invariants of the static data.
- `Occupancy`: `generateRandomOccupiedSeats`. The random numbers are an input sequence of draws.
- `Layout`: `generateSeats`.
  - `BuildSeats` is the nested loop over any hall, proved against the recursive specification `Layout`.
  - `GenerateSeats` resolves the hall and samples its occupancy.
- `Pricing`: `regular × price + vip × (vipPrice || price × 1.5)`. It is proved equal to the sum of the seats' own prices.
- `Store`: the movies context as the class `MoviesStore`.
  - Fields: `filteredMovies`, `bookings`, `selectedSeats`, `activeBooking`.
  - Methods: toggle and reset the selection, create and complete a booking, filter the movies.
  - Beside the class are the functions that specify those methods and the lemmas about them.
- `SeatSelectionPage`: `calculateTotal`, the proceed button and `handleProceedToPayment` over a `MoviesStore`, and the reset on leaving the page.
- `AdminDashboard`: the revenue and tickets-sold folds, and the recent-bookings slice.
- `AdminBookings`: the bookings filter, pagination, and `BookingsView`.
  - `BookingsView` is a class holding the page's own state: search term, status filter and current page.

Money is an exact `real`.

## Model

| member | source | states |
|---|---|---|
| Seqs.Find | src/data/moviesData.ts:208-210 | `find` is absent exactly when no element satisfies the test; otherwise it is an element that satisfies it, with none earlier |
| Seqs.Filter | src/data/moviesData.ts:213-215 | `filter` keeps exactly the elements satisfying the test and is never longer than its input |
| Seqs.FilterIsSubsequence | src/data/moviesData.ts:213-215 | `filter` keeps the surviving elements in their original order |
| Seqs.FilterCounts | src/pages/admin/AdminBookingsPage.tsx:13-28 | `filter` keeps every copy of a passing element and none of a failing one |
| Seqs.FilterPartition | src/pages/SeatSelectionPage.tsx:59-60 | filtering by a test and by its negation splits the list: the two lengths add up to its length |
| Seqs.Slice | src/pages/admin/AdminBookingsPage.tsx:35-38 | `slice(start, end)` is empty past the end or when `end <= start`, else the run from `start` up to `end` clamped to the length |
| Catalog.GetMovieById | src/data/moviesData.ts:208-210 | absent exactly when no movie has the id, otherwise a catalog movie with that id |
| Catalog.GetShowtimesByMovieId | src/data/moviesData.ts:213-215 | exactly the catalog showtimes of that movie, in declaration order |
| Catalog.GetHallById | src/data/moviesData.ts:218-220 | absent exactly when no hall has the id, otherwise a catalog hall with that id |
| Catalog.GetShowtimeById | src/data/moviesData.ts:223-225 | absent exactly when no showtime has the id, otherwise a catalog showtime with that id |
| Catalog.ShowtimesResolve | src/data/moviesData.ts:121-176 | every showtime's movie id and hall id resolve to catalog entries |
| Catalog.HallsWellFormed | src/data/moviesData.ts:91-119 | every hall has positive dimensions, and every VIP row and VIP override seat lies inside it |
| Catalog.PricesPositive | src/data/moviesData.ts:121-176 | every showtime has a positive price and an explicit positive VIP price |
| Catalog.IdsDistinct | src/data/moviesData.ts:3-176 | ids are unique within movies, halls and showtimes, so "the first match" is "the match" |
| Catalog.ShowtimesOfFirstMovie | src/data/moviesData.ts:121-139 | the showtimes of movie "1" are the first two, in declaration order |
| Occupancy.DrawIndexInRange | src/data/moviesData.ts:188-189 | a draw in [0, 1) becomes a position in [1, n] |
| Occupancy.Attempts | src/data/moviesData.ts:183-184 | a positive attempt count only arises for a hall with at least one row and one seat per row |
| Occupancy.SampledLength | src/data/moviesData.ts:187-202 | each attempt adds at most one entry |
| Occupancy.SampledDistinct | src/data/moviesData.ts:191-192 | no two occupied entries share a `(row, seatNumber)` |
| Occupancy.SampledFromDraws | src/data/moviesData.ts:193-200 | every entry is the seat of some attempt, and its VIP flag follows the hall's VIP rule |
| Occupancy.SampledCoversDraws | src/data/moviesData.ts:187-202 | the seat of every attempt is occupied afterwards |
| Occupancy.SampledInHall | src/data/moviesData.ts:188-189 | with draws in [0, 1), every entry lies inside the hall |
| Occupancy.SampleOccupied | src/data/moviesData.ts:183-204 | the sampling loop yields the specified list: at most `floor(rows × seatsPerRow × percentage)` entries, distinct keys, VIP rule, inside the hall |
| Occupancy.GenerateRandomOccupiedSeats | src/data/moviesData.ts:179-205 | empty for an unknown hall; otherwise the sampled list, with at most as many entries as attempts and distinct keys |
| Layout.RowSeatsFacts | src/context/MoviesContext.tsx:85-101 | one row holds `seatsPerRow` seats in increasing seat order, each the seat built for its key, all present |
| Layout.RowsUpToFacts | src/context/MoviesContext.tsx:84-102 | the first n rows hold `n × seatsPerRow` seats, strictly increasing in row-major order, each built for its key, every key present |
| Layout.LayoutFacts | src/context/MoviesContext.tsx:83-104 | the grid has `rows × seatsPerRow` seats in row-major order, all inside the hall; VIP iff the VIP rule holds, occupied iff in the occupied list, never selected; every seat of the hall present |
| Layout.BuildSeats | src/context/MoviesContext.tsx:83-104 | the nested loops build exactly the specified grid |
| Layout.GenerateSeats | src/context/MoviesContext.tsx:76-105 | empty for an unknown hall; otherwise the grid over the hall's sampled occupancy at the 0.3 share |
| Layout.MainHallVipScenario | src/context/MoviesContext.tsx:86-87 | in the Main Hall, seat (1, 1) is VIP and seat (5, 5) is not |
| Pricing.EffectiveVipPrice | src/context/MoviesContext.tsx:144 | the VIP price when it is present and non-zero, otherwise 1.5 × price |
| Pricing.CountsPartition | src/context/MoviesContext.tsx:139-140 | regular and VIP counts add up to the number of seats (the same counts the seat page computes at src/pages/SeatSelectionPage.tsx:59-60) |
| Pricing.TotalIsSumOfSeatPrices | src/context/MoviesContext.tsx:139-144 | the count-based formula equals the sum of each seat's own price |
| Pricing.EmptySelectionIsFree | src/pages/SeatSelectionPage.tsx:62-63 | no seats cost nothing |
| Pricing.TotalNonNegative | src/context/MoviesContext.tsx:142-144 | with non-negative prices the total is non-negative |
| Pricing.TwoRegularOneVipScenario | src/context/MoviesContext.tsx:142-144 | two regular seats and one VIP seat at 15000/25000 cost 55000 |
| Pricing.VipFallbackScenario | src/context/MoviesContext.tsx:144 | an absent or zero VIP price over a base of 20000 charges 30000 |
| Store.WithoutSeat | src/context/MoviesContext.tsx:118-120 | removing a key keeps exactly the entries with other keys, in order |
| Store.ToggleOccupiedIsNoOp | src/context/MoviesContext.tsx:107-108 | toggling an occupied seat leaves the selection unchanged |
| Store.ToggleKeys | src/context/MoviesContext.tsx:110-125 | an unoccupied seat's key leaves the selection when present and joins it when absent; other keys stay |
| Store.ToggleTwiceRestoresKeys | src/context/MoviesContext.tsx:107-126 | toggling the same seat twice restores the selected keys |
| Store.ToggleTwiceUnselected | src/context/MoviesContext.tsx:107-126 | toggling an absent seat twice restores the selection exactly |
| Store.ToggleKeepsValid | src/context/MoviesContext.tsx:107-126 | toggling keeps keys distinct and every entry unoccupied and selected |
| Store.Snapshot | src/context/MoviesContext.tsx:151-155 | a same-length, same-order copy of each seat's row, number and VIP flag |
| Store.BookingFor | src/context/MoviesContext.tsx:132-160 | fails with "Showtime not found" exactly when the showtime is unknown; otherwise a booking carrying the given ids |
| Store.NewBookingFacts | src/context/MoviesContext.tsx:139-160 | a new booking is pending, paid by M-Pesa, priced seat by seat, and snapshots the seats in order |
| Store.MarkCompleted | src/context/MoviesContext.tsx:169-179 | same length; each booking with the id becomes completed with the method, and the others are unchanged |
| Store.CompleteUnknownIdIsNoOp | src/context/MoviesContext.tsx:169-179 | completing an id no booking has leaves the list unchanged |
| Store.CompleteIsIdempotent | src/context/MoviesContext.tsx:169-179 | completing twice with the same method is completing once |
| Store.CreateThenComplete | src/context/MoviesContext.tsx:162-179 | a booking just appended and then completed by its id ends completed with that method |
| Store.MoviesStore.constructor | src/context/MoviesContext.tsx:46-52 | all movies shown; no bookings, no selection, no active booking |
| Store.MoviesStore.ToggleSeatSelection | src/context/MoviesContext.tsx:107-126 | the selection becomes the toggled selection and stays valid; nothing else changes |
| Store.MoviesStore.ResetSelectedSeats | src/context/MoviesContext.tsx:128-130 | the selection becomes empty; nothing else changes |
| Store.MoviesStore.SetActiveBooking | src/context/MoviesContext.tsx:52 | only the active booking changes |
| Store.MoviesStore.CreateBooking | src/context/MoviesContext.tsx:132-166 | on an unknown showtime, fails and leaves bookings and active booking unchanged; otherwise appends the new booking and makes it active |
| Store.MoviesStore.CompleteBooking | src/context/MoviesContext.tsx:168-185 | bookings become the completed list; selection empty; active booking untouched; the answer is always true |
| Store.MoviesStore.FilterMovies | src/context/MoviesContext.tsx:54-74 | keeps exactly the movies matching the term and, when given, a genre, in catalog order; all movies with no term and no genres |
| SeatSelectionPage.LoadedShowtime | src/pages/SeatSelectionPage.tsx:27-43 | a showtime is loaded exactly when both the route's movie and showtime resolve |
| SeatSelectionPage.CalculateTotal | src/pages/SeatSelectionPage.tsx:56-64 | 0 without a showtime and for an empty selection; otherwise the sum of the selected seats' prices |
| SeatSelectionPage.TotalMatchesBooking | src/pages/SeatSelectionPage.tsx:56-76 | the page's total equals the amount of the booking created from the same selection |
| SeatSelectionPage.HandleProceedToPayment | src/pages/SeatSelectionPage.tsx:66-80 | no user: redirect to login, no booking. Empty route parameter: nothing. Otherwise the booking from the current selection, then the payment page or the thrown error |
| SeatSelectionPage.ClickProceed | src/pages/SeatSelectionPage.tsx:201-203 | the disabled button (empty selection) changes nothing; a payment navigation means a new booking of that id, user and seat count |
| SeatSelectionPage.LeaveSeatSelection | src/pages/SeatSelectionPage.tsx:45-48 | leaving the page empties the selection |
| AdminDashboard.FoldAmountsFrom | src/pages/admin/AdminDashboardPage.tsx:11-13 | a left fold from `acc` is `acc` plus the fold from 0 |
| AdminDashboard.RevenueIsSumOverCompleted | src/pages/admin/AdminDashboardPage.tsx:11-13 | revenue is the sum of amounts over completed bookings and only those |
| AdminDashboard.TicketsIsSumOverCompleted | src/pages/admin/AdminDashboardPage.tsx:16-18 | tickets sold is the sum of seat counts over completed bookings and only those |
| AdminDashboard.NothingCompletedIsZero | src/pages/admin/AdminDashboardPage.tsx:11-18 | with no completed booking, revenue and tickets sold are 0 |
| AdminDashboard.AppendBooking | src/pages/admin/AdminDashboardPage.tsx:11-18 | one more booking adds its amount and seats exactly when it is completed |
| AdminDashboard.RevenueNonNegative | src/pages/admin/AdminDashboardPage.tsx:11-13 | non-negative amounts give non-negative revenue |
| AdminDashboard.CompletingAddsItsFigures | src/pages/admin/AdminDashboardPage.tsx:11-18 | completing the single uncompleted booking with an id adds exactly its amount and its seats |
| AdminDashboard.RecentBookings | src/pages/admin/AdminDashboardPage.tsx:98 | the first `min(5, n)` bookings in stored order |
| AdminBookings.FilteredBookings | src/pages/admin/AdminBookingsPage.tsx:13-28 | exactly the bookings matching search and status, each as often as in the input, in order. A set status holds for all of them. No filters: all bookings |
| AdminBookings.SearchIgnoresCase | src/pages/admin/AdminBookingsPage.tsx:17-21 | lower-casing the search term changes no match |
| AdminBookings.FoundByOwnIds | src/pages/admin/AdminBookingsPage.tsx:20-21 | a booking is found by its own id and by its user id |
| AdminBookings.TotalPages | src/pages/admin/AdminBookingsPage.tsx:33 | the least page count whose pages of ten hold all n bookings; 0 exactly when n is 0 |
| AdminBookings.PageOf | src/pages/admin/AdminBookingsPage.tsx:35-38 | at most ten rows, which are positions `(p-1)·10 ..` of the list; empty exactly when the list ends before the page |
| AdminBookings.ShowingMatchesPage | src/pages/admin/AdminBookingsPage.tsx:203-205 | on an existing page, `1 <= x <= y <= n`, and rows x to y are exactly the page's rows |
| AdminBookings.PagesCoverAll | src/pages/admin/AdminBookingsPage.tsx:33-38 | pages 1 to p together are the list up to the end of page p |
| AdminBookings.StalePageAfterNarrowing | src/pages/admin/AdminBookingsPage.tsx:31-38 | on a page past the end of a non-empty list, the table is empty, x > y, and the page exceeds the page count |
| AdminBookings.StalePageScenario | src/pages/admin/AdminBookingsPage.tsx:203-205 | 25 results on page 3, narrowed to 5 results: "Showing 21 to 5" |
| AdminBookings.FirstPageAfterReset | src/pages/admin/AdminBookingsPage.tsx:203-205 | page 1 of a non-empty list shows rows, starting at 1 |
| AdminBookings.BookingsView.Paginated | src/pages/admin/AdminBookingsPage.tsx:35-38 | at most ten rows; non-empty whenever the page is in range and there are results |
| AdminBookings.BookingsView.constructor | src/pages/admin/AdminBookingsPage.tsx:9-31 | empty search (line 9), no status (line 10), page 1 (line 31) |
| AdminBookings.BookingsView.GoToPage | src/pages/admin/AdminBookingsPage.tsx:40-44 | moves to the page exactly when `1 <= page <= totalPages`, otherwise stays; keeps the page in range |
| AdminBookings.BookingsView.SetSearchTerm | src/pages/admin/AdminBookingsPage.tsx:64 | as written: the term changes and the current page stays |
| AdminBookings.BookingsView.SetStatusFilter | src/pages/admin/AdminBookingsPage.tsx:72 | as written: the status changes and the current page stays |
| AdminBookings.BookingsView.SetSearchTermResettingPage | src/pages/admin/AdminBookingsPage.tsx:64 | the term changes, page 1; the page is in range and shows rows whenever there are results |
| AdminBookings.BookingsView.SetStatusFilterResettingPage | src/pages/admin/AdminBookingsPage.tsx:72 | the status changes, page 1; the page is in range and shows rows whenever there are results |

## Left out

- Rendering, styling, icons and routing are left out. Navigation appears only as the value `SeatSelectionPage.Navigation`.
- Random numbers are an input to the occupancy sampler.
  - `Math.random` becomes a sequence of draws, one `(row, seat)` pair per attempt.
  - Callers must supply at least as many pairs as attempts.
  - Draws in [0, 1) are assumed only where the in-hall property needs them.
- Clock and time values are parameters.
  - The booking id (`booking-` plus `Date.now()`) and the booking date (an ISO timestamp) are passed in.
  - The simulated payment delay is left out.
- Currency and date formatting are left out. They are calls into `Intl` and date-fns.
- Several fields play no part in the modelled logic and are left out:
  - a seat's `id` string (`row-seatNumber`);
  - a movie's rating, poster, backdrop and trailer URLs and description.
- The source uses floating point; the model does not.
  - Prices are exact reals, so `price × 1.5` is exact. All catalog prices are whole numbers.
  - The occupancy count `floor(total × percentage)` is computed on exact reals.
- `toLowerCase` covers the ASCII letters only.
- `MoviesStore.CompleteBooking`: the payment method is an enumeration of the five methods the app offers. The source stores any string there through `as any`.
- `MoviesStore.CompleteBooking`:
  - It always answers `true`, as the code does. The boolean result suggests it reports whether a booking matched; the model follows the code.
  - It does not check that a booking is pending before completing it, and neither does the source.
- React state mechanics are left out.
  - Setter batching and effects are not modelled.
  - Methods update the class fields directly.
  - The page's clean-up effect is `LeaveSeatSelection`.
- `SeatSelectionPage.LeaveSeatSelection` and `Layout.GenerateSeats`: when these effects re-run is not modelled.
  - Both effects depend on context functions that the provider creates afresh on every render: `resetSelectedSeats` at src/pages/SeatSelectionPage.tsx:49, and `generateSeats` at src/components/seat/SeatGrid.tsx:15-18.
  - So, as written, the clean-up would empty the selection, and the grid would draw a new random occupancy, after any change to the provider's state (a toggle, for instance), not only when the page is left or opened.
  - The model has each run once, as a single call.
- The authentication context is not part of this model. The signed-in user is a parameter (`Option` of the user id).
- `Occupancy.GenerateRandomOccupiedSeats`: the entry bound proved is "at most the attempt count", not "at most rows × seatsPerRow". The two coincide when the share is at most 1.
- The payment, profile, home, movie details and admin movies pages are not part of this model.

## Findings

| source | as written | input that shows it | evidently intended | confidence | as-written member | corrected member |
|---|---|---|---|---|---|---|
| src/pages/admin/AdminBookingsPage.tsx:31-44 | changing the search term or status filter keeps `currentPage` | 25 bookings, page 3, then a search leaving 5: "Showing 21 to 5 of 5" over an empty table, with no page buttons because `totalPages` is 1 | the page goes back to 1 when a filter changes, so the page shown always exists | medium, not executed | AdminBookings.BookingsView.SetSearchTerm (with AdminBookings.StalePageAfterNarrowing) | AdminBookings.BookingsView.SetSearchTermResettingPage |
