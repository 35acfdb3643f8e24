/**
 * The simulated occupancy of a hall: a fixed number of random attempts, each
 * drawing a `(row, seatNumber)` pair and keeping it unless already drawn.
 * The two `Math.random()` results of every attempt are supplied as `draws`.
 */
module Occupancy {
  import opened Wrappers
  import opened Types
  import opened Catalog

  /** `occupiedSeats.some(s => s.row === row && s.seatNumber === seatNumber)`. */
  predicate Contains(occupied: seq<SeatRef>, row: int, seatNumber: int)
  {
    exists i | 0 <= i < |occupied| :: occupied[i].row == row && occupied[i].seatNumber == seatNumber
  }

  /** `Math.floor(x * n) + 1`: a random draw `x` turned into a 1-based position among `n`. */
  function DrawIndex(x: real, n: nat): int
  {
    (x * n as real).Floor + 1
  }

  /** A draw in `[0, 1)` lands on a position in `[1, n]`. */
  lemma DrawIndexInRange(x: real, n: nat)
    requires 0.0 <= x < 1.0 && n >= 1
    ensures 1 <= DrawIndex(x, n) <= n
  {
    var y := x * n as real;
    assert 0.0 <= y < n as real by {
      assert x * n as real < 1.0 * n as real;
    }
  }

  /** `Math.floor(rows * seatsPerRow * percentage)`; a non-positive count makes no attempt. */
  function Attempts(h: Hall, percentage: real): (r: nat)
    ensures r > 0 ==> h.rows >= 1 && h.seatsPerRow >= 1
  {
    var n := ((h.rows * h.seatsPerRow) as real * percentage).Floor;
    if n <= 0 then 0 else n
  }

  /** The number of attempts made for `hallId`: none for an unknown hall. */
  function AttemptsFor(hallId: string, percentage: real): nat
  {
    match GetHallById(hallId)
    case None => 0
    case Some(h) => Attempts(h, percentage)
  }

  /** The seat one attempt draws, with its VIP flag. */
  function DrawnSeat(h: Hall, d: (real, real)): SeatRef
  {
    var row := DrawIndex(d.0, h.rows);
    var seatNumber := DrawIndex(d.1, h.seatsPerRow);
    SeatRef(row, seatNumber, IsVip(h, row, seatNumber))
  }

  /** The occupied list after the first `k` attempts. */
  function Sampled(h: Hall, draws: seq<(real, real)>, k: nat): seq<SeatRef>
    requires k <= |draws|
  {
    if k == 0 then []
    else
      var prev := Sampled(h, draws, k - 1);
      var s := DrawnSeat(h, draws[k - 1]);
      if Contains(prev, s.row, s.seatNumber) then prev else prev + [s]
  }

  /** No two entries share a `(row, seatNumber)` key. */
  predicate DistinctKeys(occupied: seq<SeatRef>)
  {
    forall i, j :: 0 <= i < j < |occupied| ==>
      !(occupied[i].row == occupied[j].row && occupied[i].seatNumber == occupied[j].seatNumber)
  }

  predicate IsDraw(d: (real, real))
  {
    0.0 <= d.0 < 1.0 && 0.0 <= d.1 < 1.0
  }

  /** Each attempt adds at most one entry, so `k` attempts leave at most `k` entries. */
  lemma {:induction false} SampledLength(h: Hall, draws: seq<(real, real)>, k: nat)
    requires k <= |draws|
    ensures |Sampled(h, draws, k)| <= k
  {
    if k > 0 {
      SampledLength(h, draws, k - 1);
    }
  }

  /** A drawn seat already present is dropped, so no key occurs twice. */
  lemma {:induction false} SampledDistinct(h: Hall, draws: seq<(real, real)>, k: nat)
    requires k <= |draws|
    ensures DistinctKeys(Sampled(h, draws, k))
  {
    if k > 0 {
      SampledDistinct(h, draws, k - 1);
    }
  }

  /** Every entry is the seat of some attempt, so it carries the hall's VIP rule. */
  lemma {:induction false} SampledFromDraws(h: Hall, draws: seq<(real, real)>, k: nat)
    requires k <= |draws|
    ensures forall i :: 0 <= i < |Sampled(h, draws, k)| ==>
      (exists a :: 0 <= a < k && Sampled(h, draws, k)[i] == DrawnSeat(h, draws[a]))
    ensures forall i :: 0 <= i < |Sampled(h, draws, k)| ==>
      Sampled(h, draws, k)[i].isVip == IsVip(h, Sampled(h, draws, k)[i].row, Sampled(h, draws, k)[i].seatNumber)
  {
    if k > 0 {
      SampledFromDraws(h, draws, k - 1);
      var prev := Sampled(h, draws, k - 1);
      var s := DrawnSeat(h, draws[k - 1]);
      var occ := Sampled(h, draws, k);
      assert occ == if Contains(prev, s.row, s.seatNumber) then prev else prev + [s];
      forall i | 0 <= i < |occ|
        ensures exists a :: 0 <= a < k && occ[i] == DrawnSeat(h, draws[a])
        ensures occ[i].isVip == IsVip(h, occ[i].row, occ[i].seatNumber)
      {
        if i < |prev| {
          var a :| 0 <= a < k - 1 && prev[i] == DrawnSeat(h, draws[a]);
          assert occ[i] == prev[i];
        } else {
          assert occ[i] == DrawnSeat(h, draws[k - 1]);
        }
      }
      assert forall i :: 0 <= i < |occ| ==> exists a :: 0 <= a < k && occ[i] == DrawnSeat(h, draws[a]);
    } else {
      assert Sampled(h, draws, k) == [];
    }
  }

  /** The seat of every attempt is occupied afterwards, whether added then or earlier. */
  lemma {:induction false} SampledCoversDraws(h: Hall, draws: seq<(real, real)>, k: nat)
    requires k <= |draws|
    ensures forall a :: 0 <= a < k ==>
      Contains(Sampled(h, draws, k), DrawnSeat(h, draws[a]).row, DrawnSeat(h, draws[a]).seatNumber)
  {
    if k > 0 {
      SampledCoversDraws(h, draws, k - 1);
      var prev := Sampled(h, draws, k - 1);
      var s := DrawnSeat(h, draws[k - 1]);
      var occ := Sampled(h, draws, k);
      if !Contains(prev, s.row, s.seatNumber) {
        assert occ[|prev|] == s;
        forall a | 0 <= a < k - 1
          ensures Contains(occ, DrawnSeat(h, draws[a]).row, DrawnSeat(h, draws[a]).seatNumber)
        {
          var t := DrawnSeat(h, draws[a]);
          var j :| 0 <= j < |prev| && prev[j].row == t.row && prev[j].seatNumber == t.seatNumber;
          assert occ[j] == prev[j];
        }
      }
    }
  }

  /** With draws in `[0, 1)` and a non-empty hall, every entry lies inside the hall. */
  lemma {:induction false} SampledInHall(h: Hall, draws: seq<(real, real)>, k: nat)
    requires k <= |draws|
    requires h.rows >= 1 && h.seatsPerRow >= 1
    requires forall a :: 0 <= a < k ==> IsDraw(draws[a])
    ensures forall i :: 0 <= i < |Sampled(h, draws, k)| ==>
      InHall(h, Sampled(h, draws, k)[i].row, Sampled(h, draws, k)[i].seatNumber)
  {
    if k > 0 {
      SampledInHall(h, draws, k - 1);
      DrawIndexInRange(draws[k - 1].0, h.rows);
      DrawIndexInRange(draws[k - 1].1, h.seatsPerRow);
      var prev := Sampled(h, draws, k - 1);
      var s := DrawnSeat(h, draws[k - 1]);
      var occ := Sampled(h, draws, k);
      assert occ == if Contains(prev, s.row, s.seatNumber) then prev else prev + [s];
      forall i | 0 <= i < |occ|
        ensures InHall(h, occ[i].row, occ[i].seatNumber)
      {
        if i < |prev| {
          assert occ[i] == prev[i];
        }
      }
    }
  }

  /** The result `generateRandomOccupiedSeats` produces for a known hall. */
  function OccupiedSample(h: Hall, percentage: real, draws: seq<(real, real)>): seq<SeatRef>
    requires |draws| >= Attempts(h, percentage)
  {
    Sampled(h, draws, Attempts(h, percentage))
  }

  /** The sampling loop of `generateRandomOccupiedSeats`, for a resolved hall. */
  method SampleOccupied(h: Hall, percentage: real, draws: seq<(real, real)>) returns (occupied: seq<SeatRef>)
    requires |draws| >= Attempts(h, percentage)
    ensures occupied == OccupiedSample(h, percentage, draws)
    ensures |occupied| <= Attempts(h, percentage)
    ensures DistinctKeys(occupied)
    ensures forall i :: 0 <= i < |occupied| ==>
      occupied[i].isVip == IsVip(h, occupied[i].row, occupied[i].seatNumber)
    ensures (forall a :: 0 <= a < |draws| ==> IsDraw(draws[a])) ==>
      forall i :: 0 <= i < |occupied| ==> InHall(h, occupied[i].row, occupied[i].seatNumber)
  {
    var occupiedCount := Attempts(h, percentage);
    occupied := [];
    var i := 0;
    while i < occupiedCount
      invariant 0 <= i <= occupiedCount
      invariant occupied == Sampled(h, draws, i)
    {
      var row := DrawIndex(draws[i].0, h.rows);
      var seatNumber := DrawIndex(draws[i].1, h.seatsPerRow);
      var taken := exists j | 0 <= j < |occupied| ::
        occupied[j].row == row && occupied[j].seatNumber == seatNumber;
      if !taken {
        var isVip := IsVip(h, row, seatNumber);
        occupied := occupied + [SeatRef(row, seatNumber, isVip)];
      }
      i := i + 1;
    }
    SampledLength(h, draws, occupiedCount);
    SampledDistinct(h, draws, occupiedCount);
    SampledFromDraws(h, draws, occupiedCount);
    if occupiedCount > 0 && forall a :: 0 <= a < |draws| ==> IsDraw(draws[a]) {
      SampledInHall(h, draws, occupiedCount);
    }
  }

  /** `generateRandomOccupiedSeats(hallId, percentage)`: empty for an unknown hall. */
  method GenerateRandomOccupiedSeats(hallId: string, percentage: real, draws: seq<(real, real)>)
    returns (occupied: seq<SeatRef>)
    requires |draws| >= AttemptsFor(hallId, percentage)
    ensures GetHallById(hallId).None? ==> occupied == []
    ensures GetHallById(hallId).Some? ==>
      occupied == OccupiedSample(GetHallById(hallId).value, percentage, draws)
    ensures |occupied| <= AttemptsFor(hallId, percentage)
    ensures DistinctKeys(occupied)
  {
    var hall := GetHallById(hallId);
    if hall.None? {
      return [];
    }
    occupied := SampleOccupied(hall.value, percentage, draws);
  }
}
