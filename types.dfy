/**
 * The entities of the cinema: movies, halls, showtimes, seats and bookings.
 * Money is an exact `real` so that the 1.5 VIP fallback factor is exact.
 */
module Types {
  import opened Wrappers

  /** Reference data for one film (poster/trailer URLs, description and rating are not modelled). */
  datatype Movie = Movie(
    id: string,
    title: string,
    releaseDate: string,
    duration: nat,          // minutes
    genre: seq<string>,
    language: string,
    director: string,
    cast: seq<string>)

  /** A showtime: a screening of `movieId` in `hallId`; `vipPrice` is optional. */
  datatype Showtime = Showtime(
    id: string,
    movieId: string,
    date: string,
    time: string,
    hallId: string,
    price: real,
    vipPrice: Option<real>)

  /** One VIP override: the listed seat numbers of `row` are VIP. */
  datatype VipRow = VipRow(row: int, seats: seq<int>)

  /**
   * A hall's geometry. The optional VIP lists of the original are sequences
   * here: an absent list and an empty one make every test on it false.
   */
  datatype Hall = Hall(
    id: string,
    name: string,
    rows: nat,
    seatsPerRow: nat,
    vipRows: seq<int>,
    vipSeats: seq<VipRow>)

  /** A seat as shown on the grid; its key is `(row, seatNumber)`. */
  datatype Seat = Seat(
    row: int,
    seatNumber: int,
    isVip: bool,
    isOccupied: bool,
    isSelected: bool)

  /** The `(row, seatNumber, isVip)` record kept in occupancy lists and booking snapshots. */
  datatype SeatRef = SeatRef(row: int, seatNumber: int, isVip: bool)

  /** The closed set of payment methods. */
  datatype PaymentMethod = Mpesa | TigoPesa | AirtelMoney | CreditCard | BankTransfer

  datatype PaymentStatus = Pending | Completed | Failed

  /** A booking record; `seats` is a snapshot taken at creation. */
  datatype Booking = Booking(
    id: string,
    userId: string,
    movieId: string,
    showtimeId: string,
    seats: seq<SeatRef>,
    totalAmount: real,
    paymentMethod: PaymentMethod,
    paymentStatus: PaymentStatus,
    bookingDate: string)

  /**
   * The VIP rule of the seat generator and the occupancy sampler:
   * the row is a VIP row, or some override for that row lists the seat.
   */
  predicate IsVip(h: Hall, row: int, seatNumber: int)
  {
    row in h.vipRows ||
    exists i | 0 <= i < |h.vipSeats| :: h.vipSeats[i].row == row && seatNumber in h.vipSeats[i].seats
  }

  /** `(row, seatNumber)` lies inside the hall. */
  predicate InHall(h: Hall, row: int, seatNumber: int)
  {
    1 <= row <= h.rows && 1 <= seatNumber <= h.seatsPerRow
  }
}
