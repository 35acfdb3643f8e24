/**
 * The seat grid of a hall: every `(row, seatNumber)` of the hall, row by row,
 * with the VIP rule, occupancy from an occupied list, and nothing selected.
 */
module Layout {
  import opened Wrappers
  import opened Types
  import opened Catalog
  import opened Occupancy

  /** The seat the generator builds for `(row, seatNumber)`. */
  function MakeSeat(h: Hall, occupied: seq<SeatRef>, row: int, seatNumber: int): Seat
  {
    Seat(row, seatNumber, IsVip(h, row, seatNumber), Contains(occupied, row, seatNumber), false)
  }

  /** The seats of one row, seat numbers 1 to `seatsPerRow`. */
  function RowSeats(h: Hall, occupied: seq<SeatRef>, row: int): seq<Seat>
  {
    seq(h.seatsPerRow, j requires 0 <= j < h.seatsPerRow => MakeSeat(h, occupied, row, j + 1))
  }

  /** The seats of rows 1 to `n`, in row-major order. */
  function RowsUpTo(h: Hall, occupied: seq<SeatRef>, n: nat): seq<Seat>
  {
    if n == 0 then [] else RowsUpTo(h, occupied, n - 1) + RowSeats(h, occupied, n)
  }

  /** The full grid of the hall. */
  function Layout(h: Hall, occupied: seq<SeatRef>): seq<Seat>
  {
    RowsUpTo(h, occupied, h.rows)
  }

  /** `a` comes strictly before `b` in row-major order. */
  predicate Before(a: Seat, b: Seat)
  {
    a.row < b.row || (a.row == b.row && a.seatNumber < b.seatNumber)
  }

  /** Strictly increasing in row-major order; in particular no key occurs twice. */
  predicate RowMajor(seats: seq<Seat>)
  {
    forall i, j :: 0 <= i < j < |seats| ==> Before(seats[i], seats[j])
  }

  /** Every seat lies in the first `n` rows of the hall and is the seat the generator builds for its key. */
  predicate WellFormedUpTo(h: Hall, occupied: seq<SeatRef>, seats: seq<Seat>, n: nat)
  {
    forall i :: 0 <= i < |seats| ==>
      1 <= seats[i].row <= n && 1 <= seats[i].seatNumber <= h.seatsPerRow &&
      seats[i] == MakeSeat(h, occupied, seats[i].row, seats[i].seatNumber)
  }

  /** The seat with key `(row, seatNumber)` occurs in `seats`. */
  predicate HasKey(seats: seq<Seat>, row: int, seatNumber: int)
  {
    exists i :: 0 <= i < |seats| && seats[i].row == row && seats[i].seatNumber == seatNumber
  }

  /** Every key of the first `n` rows occurs. */
  predicate CoversUpTo(h: Hall, seats: seq<Seat>, n: nat)
  {
    forall r, c :: 1 <= r <= n && 1 <= c <= h.seatsPerRow ==> HasKey(seats, r, c)
  }

  /** One row: `seatsPerRow` seats of that row, increasing, each the generated seat, all present. */
  lemma RowSeatsFacts(h: Hall, occupied: seq<SeatRef>, n: nat)
    requires n >= 1
    ensures var s := RowSeats(h, occupied, n);
      && |s| == h.seatsPerRow
      && RowMajor(s)
      && (forall i :: 0 <= i < |s| ==> s[i].row == n)
      && WellFormedUpTo(h, occupied, s, n)
      && (forall c :: 1 <= c <= h.seatsPerRow ==> HasKey(s, n, c))
  {
    var s := RowSeats(h, occupied, n);
    forall c | 1 <= c <= h.seatsPerRow
      ensures HasKey(s, n, c)
    {
      assert s[c - 1].row == n && s[c - 1].seatNumber == c;
    }
  }

  /**
   * Rows 1 to `n`: exactly `n * seatsPerRow` seats, strictly row-major, each
   * inside the first `n` rows and built by the generator's rule, and every key
   * of those rows present.
   */
  lemma {:induction false} RowsUpToFacts(h: Hall, occupied: seq<SeatRef>, n: nat)
    ensures var s := RowsUpTo(h, occupied, n);
      && |s| == n * h.seatsPerRow
      && RowMajor(s)
      && WellFormedUpTo(h, occupied, s, n)
      && CoversUpTo(h, s, n)
  {
    if n > 0 {
      RowsUpToFacts(h, occupied, n - 1);
      RowSeatsFacts(h, occupied, n);
      var prev := RowsUpTo(h, occupied, n - 1);
      var row := RowSeats(h, occupied, n);
      var s := RowsUpTo(h, occupied, n);
      assert s == prev + row;
      assert |s| == n * h.seatsPerRow by {
        assert (n - 1) * h.seatsPerRow + h.seatsPerRow == n * h.seatsPerRow;
      }
      forall i, j | 0 <= i < j < |s|
        ensures Before(s[i], s[j])
      {
        if j < |prev| {
          assert s[i] == prev[i] && s[j] == prev[j];
        } else if i >= |prev| {
          assert s[i] == row[i - |prev|] && s[j] == row[j - |prev|];
        } else {
          assert s[i] == prev[i] && s[j] == row[j - |prev|];
        }
      }
      forall i | 0 <= i < |s|
        ensures 1 <= s[i].row <= n && 1 <= s[i].seatNumber <= h.seatsPerRow
        ensures s[i] == MakeSeat(h, occupied, s[i].row, s[i].seatNumber)
      {
        if i < |prev| {
          assert s[i] == prev[i];
        } else {
          assert s[i] == row[i - |prev|];
        }
      }
      forall r, c | 1 <= r <= n && 1 <= c <= h.seatsPerRow
        ensures HasKey(s, r, c)
      {
        if r < n {
          assert HasKey(prev, r, c);
          var i :| 0 <= i < |prev| && prev[i].row == r && prev[i].seatNumber == c;
          assert s[i] == prev[i];
        } else {
          assert HasKey(row, r, c);
          var i :| 0 <= i < |row| && row[i].row == r && row[i].seatNumber == c;
          assert s[|prev| + i] == row[i];
        }
      }
    }
  }

  /**
   * The grid of a hall has exactly `rows * seatsPerRow` seats in row-major
   * order, so every key is distinct; each lies in `[1, rows] x [1, seatsPerRow]`;
   * each has `isVip` by the VIP rule, `isOccupied` exactly when its key is in
   * the occupied list, and `isSelected` false; and every key of the hall occurs.
   */
  lemma LayoutFacts(h: Hall, occupied: seq<SeatRef>)
    ensures var s := Layout(h, occupied);
      && |s| == h.rows * h.seatsPerRow
      && RowMajor(s)
      && (forall i :: 0 <= i < |s| ==> InHall(h, s[i].row, s[i].seatNumber))
      && (forall i :: 0 <= i < |s| ==>
            && (s[i].isVip <==> IsVip(h, s[i].row, s[i].seatNumber))
            && (s[i].isOccupied <==> Contains(occupied, s[i].row, s[i].seatNumber))
            && !s[i].isSelected)
      && (forall r, c :: InHall(h, r, c) ==> HasKey(s, r, c))
  {
    RowsUpToFacts(h, occupied, h.rows);
  }

  /** The nested loops of `generateSeats`, for a resolved hall and its occupied list. */
  method BuildSeats(h: Hall, occupied: seq<SeatRef>) returns (seats: seq<Seat>)
    ensures seats == Layout(h, occupied)
  {
    seats := [];
    var row := 1;
    while row <= h.rows
      invariant 1 <= row <= h.rows + 1
      invariant seats == RowsUpTo(h, occupied, row - 1)
    {
      var seatNumber := 1;
      while seatNumber <= h.seatsPerRow
        invariant 1 <= seatNumber <= h.seatsPerRow + 1
        invariant seats == RowsUpTo(h, occupied, row - 1) + RowSeats(h, occupied, row)[..seatNumber - 1]
      {
        var isVip := IsVip(h, row, seatNumber);
        var isOccupied := exists i | 0 <= i < |occupied| ::
          occupied[i].row == row && occupied[i].seatNumber == seatNumber;
        assert RowSeats(h, occupied, row)[..seatNumber] ==
               RowSeats(h, occupied, row)[..seatNumber - 1] + [MakeSeat(h, occupied, row, seatNumber)];
        seats := seats + [Seat(row, seatNumber, isVip, isOccupied, false)];
        seatNumber := seatNumber + 1;
      }
      assert RowSeats(h, occupied, row)[..seatNumber - 1] == RowSeats(h, occupied, row);
      row := row + 1;
    }
  }

  /** The simulated occupancy share `generateSeats` asks for. */
  const OccupiedShare: real := 0.3

  /**
   * `generateSeats(hallId, showtimeId)`: no seats for an unknown hall,
   * otherwise the grid of the hall over a freshly sampled occupied list.
   * The showtime id is not used by the original either.
   */
  method GenerateSeats(hallId: string, showtimeId: string, draws: seq<(real, real)>)
    returns (seats: seq<Seat>)
    requires |draws| >= AttemptsFor(hallId, OccupiedShare)
    ensures GetHallById(hallId).None? ==> seats == []
    ensures GetHallById(hallId).Some? ==>
      var h := GetHallById(hallId).value;
      seats == Layout(h, OccupiedSample(h, OccupiedShare, draws))
  {
    var hall := GetHallById(hallId);
    if hall.None? {
      return [];
    }
    var occupied := GenerateRandomOccupiedSeats(hallId, OccupiedShare, draws);
    seats := BuildSeats(hall.value, occupied);
  }

  /** In the Main Hall seat (1, 1) is VIP (row 1 is a VIP row) and seat (5, 5) is not. */
  lemma MainHallVipScenario(occupied: seq<SeatRef>)
    ensures var s := Layout(Halls[0], occupied);
      && (exists i :: 0 <= i < |s| && s[i].row == 1 && s[i].seatNumber == 1 && s[i].isVip)
      && (exists i :: 0 <= i < |s| && s[i].row == 5 && s[i].seatNumber == 5 && !s[i].isVip)
  {
    var h := Halls[0];
    LayoutFacts(h, occupied);
    var s := Layout(h, occupied);
    assert InHall(h, 1, 1) && InHall(h, 5, 5);
    var i :| 0 <= i < |s| && s[i].row == 1 && s[i].seatNumber == 1;
    var j :| 0 <= j < |s| && s[j].row == 5 && s[j].seatNumber == 5;
    assert IsVip(h, 1, 1);
    assert !IsVip(h, 5, 5);
  }
}
