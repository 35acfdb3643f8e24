/**
 * The price of a seat selection: regular seats at the showtime's price, VIP
 * seats at its VIP price, or at 1.5 times the price when the VIP price is
 * falsy (absent or zero).
 */
module Pricing {
  import opened Wrappers
  import opened Seqs
  import opened Types

  predicate SeatIsVip(s: Seat) { s.isVip }
  predicate SeatIsRegular(s: Seat) { !s.isVip }

  /** `seats.filter(seat => !seat.isVip).length`. */
  function RegularCount(seats: seq<Seat>): nat
  {
    |Filter(seats, SeatIsRegular)|
  }

  /** `seats.filter(seat => seat.isVip).length`. */
  function VipCount(seats: seq<Seat>): nat
  {
    |Filter(seats, SeatIsVip)|
  }

  /** `showtime.vipPrice || showtime.price * 1.5`: JavaScript's `||` falls back on absent and on 0. */
  function EffectiveVipPrice(st: Showtime): (r: real)
    ensures st.vipPrice.Some? && st.vipPrice.value != 0.0 ==> r == st.vipPrice.value
    ensures st.vipPrice.None? || st.vipPrice.value == 0.0 ==> r == st.price * 1.5
  {
    match st.vipPrice
    case Some(v) => if v != 0.0 then v else st.price * 1.5
    case None => st.price * 1.5
  }

  /** `n` seats at `price` each. */
  function Times(n: nat, price: real): real
  {
    n as real * price
  }

  /** `regular * price + vip * (vipPrice || price * 1.5)`. */
  function Total(seats: seq<Seat>, st: Showtime): real
  {
    Times(RegularCount(seats), st.price) + Times(VipCount(seats), EffectiveVipPrice(st))
  }

  /** What one seat costs at a showtime. */
  function SeatPrice(s: Seat, st: Showtime): real
  {
    if s.isVip then EffectiveVipPrice(st) else st.price
  }

  /** The independent reading of the formula: the sum of each seat's own price. */
  function SumOfSeatPrices(seats: seq<Seat>, st: Showtime): real
  {
    if |seats| == 0 then 0.0 else SeatPrice(seats[0], st) + SumOfSeatPrices(seats[1..], st)
  }

  /** The regular and VIP counts partition the selection. */
  lemma CountsPartition(seats: seq<Seat>)
    ensures RegularCount(seats) + VipCount(seats) == |seats|
  {
    FilterPartition(seats, SeatIsRegular, SeatIsVip);
  }

  /** The count formula equals the sum of per-seat prices, for every selection. */
  lemma {:induction false} TotalIsSumOfSeatPrices(seats: seq<Seat>, st: Showtime)
    ensures Total(seats, st) == SumOfSeatPrices(seats, st)
  {
    if |seats| > 0 {
      var rest := seats[1..];
      TotalIsSumOfSeatPrices(rest, st);
      CountsOfCons(seats);
      TimesSucc(RegularCount(rest), st.price);
      TimesSucc(VipCount(rest), EffectiveVipPrice(st));
    }
  }

  /** The counts of a non-empty selection are those of its tail plus its first seat. */
  lemma CountsOfCons(seats: seq<Seat>)
    requires |seats| > 0
    ensures VipCount(seats) == VipCount(seats[1..]) + (if seats[0].isVip then 1 else 0)
    ensures RegularCount(seats) == RegularCount(seats[1..]) + (if seats[0].isVip then 0 else 1)
  {
  }

  lemma TimesSucc(n: nat, price: real)
    ensures Times(n + 1, price) == Times(n, price) + price
  {
  }

  /** An empty selection costs nothing. */
  lemma EmptySelectionIsFree(st: Showtime)
    ensures Total([], st) == 0.0
  {
  }

  /** With non-negative prices every total is non-negative. */
  lemma {:induction false} TotalNonNegative(seats: seq<Seat>, st: Showtime)
    requires st.price >= 0.0
    requires st.vipPrice.Some? ==> st.vipPrice.value >= 0.0
    ensures Total(seats, st) >= 0.0
  {
    TotalNonNegativeSum(seats, st);
    TotalIsSumOfSeatPrices(seats, st);
  }

  lemma {:induction false} TotalNonNegativeSum(seats: seq<Seat>, st: Showtime)
    requires st.price >= 0.0
    requires st.vipPrice.Some? ==> st.vipPrice.value >= 0.0
    ensures SumOfSeatPrices(seats, st) >= 0.0
  {
    if |seats| > 0 {
      TotalNonNegativeSum(seats[1..], st);
    }
  }

  /** Price 15000, VIP price 25000, two regular seats and one VIP seat: 55000. */
  lemma TwoRegularOneVipScenario()
    ensures var st := Showtime("1", "1", "2025-06-15", "18:30", "1", 15000.0, Some(25000.0));
      Total([Seat(5, 1, false, false, true), Seat(5, 2, false, false, true), Seat(1, 1, true, false, true)], st)
        == 55000.0
  {
    var seats := [Seat(5, 1, false, false, true), Seat(5, 2, false, false, true), Seat(1, 1, true, false, true)];
    assert Filter(seats, SeatIsRegular) == seats[..2];
    assert Filter(seats, SeatIsVip) == [seats[2]];
  }

  /** Price 20000 and no VIP price: one VIP seat costs 1.5 times the price, 30000. */
  lemma VipFallbackScenario()
    ensures Total([Seat(1, 1, true, false, true)], Showtime("x", "1", "", "", "3", 20000.0, None)) == 30000.0
    ensures Total([Seat(1, 1, true, false, true)], Showtime("x", "1", "", "", "3", 20000.0, Some(0.0))) == 30000.0
  {
    var seats := [Seat(1, 1, true, false, true)];
    assert Filter(seats, SeatIsRegular) == [];
    assert Filter(seats, SeatIsVip) == seats;
  }
}
