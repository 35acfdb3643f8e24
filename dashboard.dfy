/**
 * The admin dashboard's figures: revenue and tickets sold over the completed
 * bookings, and the most recent bookings table.
 */
module AdminDashboard {
  import opened Seqs
  import opened Types
  import opened Store

  predicate IsCompleted(b: Booking) { b.paymentStatus == Completed }

  /** `bs.reduce((acc, booking) => acc + booking.totalAmount, acc)`: a left fold. */
  function FoldAmounts(acc: real, bs: seq<Booking>): real
    decreases |bs|
  {
    if |bs| == 0 then acc else FoldAmounts(acc + bs[0].totalAmount, bs[1..])
  }

  /** `bs.reduce((acc, booking) => acc + booking.seats.length, acc)`: a left fold. */
  function FoldSeats(acc: nat, bs: seq<Booking>): nat
    decreases |bs|
  {
    if |bs| == 0 then acc else FoldSeats(acc + |bs[0].seats|, bs[1..])
  }

  /** `totalRevenue`: the completed bookings' amounts added up from 0. */
  function TotalRevenue(bookings: seq<Booking>): real
  {
    FoldAmounts(0.0, Filter(bookings, IsCompleted))
  }

  /** `ticketsSold`: the completed bookings' seat counts added up from 0. */
  function TicketsSold(bookings: seq<Booking>): nat
  {
    FoldSeats(0, Filter(bookings, IsCompleted))
  }

  /** What one booking adds to the revenue: its amount when completed, nothing otherwise. */
  function RevenueOf(b: Booking): real
  {
    if b.paymentStatus == Completed then b.totalAmount else 0.0
  }

  /** What one booking adds to the tickets sold: its seats when completed, nothing otherwise. */
  function TicketsOf(b: Booking): nat
  {
    if b.paymentStatus == Completed then |b.seats| else 0
  }

  /** The independent reading of the revenue: booking by booking, from the last one back. */
  function RevenueSum(bookings: seq<Booking>): real
  {
    if |bookings| == 0 then 0.0 else RevenueOf(bookings[0]) + RevenueSum(bookings[1..])
  }

  /** The independent reading of the tickets sold. */
  function TicketsSum(bookings: seq<Booking>): nat
  {
    if |bookings| == 0 then 0 else TicketsOf(bookings[0]) + TicketsSum(bookings[1..])
  }

  /** A left fold started at `acc` is `acc` plus the fold started at 0. */
  lemma {:induction false} FoldAmountsFrom(acc: real, bs: seq<Booking>)
    ensures FoldAmounts(acc, bs) == acc + FoldAmounts(0.0, bs)
    decreases |bs|
  {
    if |bs| > 0 {
      FoldAmountsFrom(acc + bs[0].totalAmount, bs[1..]);
      FoldAmountsFrom(bs[0].totalAmount, bs[1..]);
    }
  }

  lemma {:induction false} FoldSeatsFrom(acc: nat, bs: seq<Booking>)
    ensures FoldSeats(acc, bs) == acc + FoldSeats(0, bs)
    decreases |bs|
  {
    if |bs| > 0 {
      FoldSeatsFrom(acc + |bs[0].seats|, bs[1..]);
      FoldSeatsFrom(|bs[0].seats|, bs[1..]);
    }
  }

  /** The revenue is the sum of `totalAmount` over the completed bookings and only those. */
  lemma {:induction false} RevenueIsSumOverCompleted(bookings: seq<Booking>)
    ensures TotalRevenue(bookings) == RevenueSum(bookings)
  {
    if |bookings| > 0 {
      RevenueIsSumOverCompleted(bookings[1..]);
      var rest := Filter(bookings[1..], IsCompleted);
      if IsCompleted(bookings[0]) {
        assert Filter(bookings, IsCompleted) == [bookings[0]] + rest;
        assert ([bookings[0]] + rest)[1..] == rest;
        FoldAmountsFrom(bookings[0].totalAmount, rest);
      } else {
        assert Filter(bookings, IsCompleted) == rest;
      }
    }
  }

  /** The tickets sold are the sum of the seat counts over the completed bookings and only those. */
  lemma {:induction false} TicketsIsSumOverCompleted(bookings: seq<Booking>)
    ensures TicketsSold(bookings) == TicketsSum(bookings)
  {
    if |bookings| > 0 {
      TicketsIsSumOverCompleted(bookings[1..]);
      var rest := Filter(bookings[1..], IsCompleted);
      if IsCompleted(bookings[0]) {
        assert Filter(bookings, IsCompleted) == [bookings[0]] + rest;
        assert ([bookings[0]] + rest)[1..] == rest;
        FoldSeatsFrom(|bookings[0].seats|, rest);
      } else {
        assert Filter(bookings, IsCompleted) == rest;
      }
    }
  }

  /** With no completed booking (in particular with no booking at all) both figures are 0. */
  lemma {:induction false} NothingCompletedIsZero(bookings: seq<Booking>)
    requires forall i :: 0 <= i < |bookings| ==> bookings[i].paymentStatus != Completed
    ensures TotalRevenue(bookings) == 0.0 && TicketsSold(bookings) == 0
  {
    RevenueIsSumOverCompleted(bookings);
    TicketsIsSumOverCompleted(bookings);
    ZeroSums(bookings);
  }

  lemma {:induction false} ZeroSums(bookings: seq<Booking>)
    requires forall i :: 0 <= i < |bookings| ==> bookings[i].paymentStatus != Completed
    ensures RevenueSum(bookings) == 0.0 && TicketsSum(bookings) == 0
  {
    if |bookings| > 0 {
      ZeroSums(bookings[1..]);
    }
  }

  /** A new booking adds its amount and seats to the figures exactly when it is completed. */
  lemma {:induction false} AppendBooking(bookings: seq<Booking>, b: Booking)
    ensures TotalRevenue(bookings + [b]) == TotalRevenue(bookings) + RevenueOf(b)
    ensures TicketsSold(bookings + [b]) == TicketsSold(bookings) + TicketsOf(b)
  {
    RevenueIsSumOverCompleted(bookings + [b]);
    RevenueIsSumOverCompleted(bookings);
    TicketsIsSumOverCompleted(bookings + [b]);
    TicketsIsSumOverCompleted(bookings);
    SumsOfAppend(bookings, b);
  }

  lemma {:induction false} SumsOfAppend(bookings: seq<Booking>, b: Booking)
    ensures RevenueSum(bookings + [b]) == RevenueSum(bookings) + RevenueOf(b)
    ensures TicketsSum(bookings + [b]) == TicketsSum(bookings) + TicketsOf(b)
  {
    if |bookings| > 0 {
      assert (bookings + [b])[1..] == bookings[1..] + [b];
      SumsOfAppend(bookings[1..], b);
    }
  }

  /** With every amount non-negative the revenue is non-negative. */
  lemma {:induction false} RevenueNonNegative(bookings: seq<Booking>)
    requires forall i :: 0 <= i < |bookings| ==> bookings[i].totalAmount >= 0.0
    ensures TotalRevenue(bookings) >= 0.0
  {
    RevenueIsSumOverCompleted(bookings);
    RevenueSumNonNegative(bookings);
  }

  lemma {:induction false} RevenueSumNonNegative(bookings: seq<Booking>)
    requires forall i :: 0 <= i < |bookings| ==> bookings[i].totalAmount >= 0.0
    ensures RevenueSum(bookings) >= 0.0
  {
    if |bookings| > 0 {
      RevenueSumNonNegative(bookings[1..]);
    }
  }

  /**
   * Completing the one booking with a given id, while it is not yet completed,
   * adds exactly its amount to the revenue and its seats to the tickets sold.
   */
  lemma CompletingAddsItsFigures(bookings: seq<Booking>, k: nat, m: PaymentMethod)
    requires k < |bookings|
    requires forall i :: 0 <= i < |bookings| && i != k ==> bookings[i].id != bookings[k].id
    requires bookings[k].paymentStatus != Completed
    ensures TotalRevenue(MarkCompleted(bookings, bookings[k].id, m)) == TotalRevenue(bookings) + bookings[k].totalAmount
    ensures TicketsSold(MarkCompleted(bookings, bookings[k].id, m)) == TicketsSold(bookings) + |bookings[k].seats|
  {
    var after := MarkCompleted(bookings, bookings[k].id, m);
    RevenueIsSumOverCompleted(bookings);
    RevenueIsSumOverCompleted(after);
    TicketsIsSumOverCompleted(bookings);
    TicketsIsSumOverCompleted(after);
    SumsOfCompleting(bookings, k, m);
  }

  lemma {:induction false} SumsOfCompleting(bookings: seq<Booking>, k: nat, m: PaymentMethod)
    requires k < |bookings|
    requires forall i :: 0 <= i < |bookings| && i != k ==> bookings[i].id != bookings[k].id
    requires bookings[k].paymentStatus != Completed
    ensures RevenueSum(MarkCompleted(bookings, bookings[k].id, m)) == RevenueSum(bookings) + bookings[k].totalAmount
    ensures TicketsSum(MarkCompleted(bookings, bookings[k].id, m)) == TicketsSum(bookings) + |bookings[k].seats|
  {
    var id := bookings[k].id;
    var after := MarkCompleted(bookings, id, m);
    var rest := bookings[1..];
    assert after[1..] == MarkCompleted(rest, id, m);
    if k == 0 {
      CompleteUnknownIdIsNoOp(rest, id, m);
    } else {
      assert rest[k - 1] == bookings[k];
      SumsOfCompleting(rest, k - 1, m);
    }
  }

  /** `bookings.slice(0, 5)`: the first five bookings in stored order, or all of them when fewer. */
  function RecentBookings(bookings: seq<Booking>): (r: seq<Booking>)
    ensures |r| == if |bookings| < 5 then |bookings| else 5
    ensures forall i :: 0 <= i < |r| ==> r[i] == bookings[i]
  {
    Slice(bookings, 0, 5)
  }
}
