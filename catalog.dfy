/** The static, read-only catalog of movies, halls and showtimes and its lookups. */
module Catalog {
  import opened Wrappers
  import opened Seqs
  import opened Types

  const WakandaForever: Movie :=
    Movie("1", "Wakanda Forever", "2022-11-11", 161, ["Action", "Adventure", "Sci-Fi"], "English",
      "Ryan Coogler", ["Letitia Wright", "Lupita Nyong'o", "Danai Gurira", "Winston Duke"])
  const AQuietPlace: Movie :=
    Movie("2", "A Quiet Place", "2018-04-06", 90, ["Horror", "Sci-Fi", "Thriller"], "English",
      "John Krasinski", ["Emily Blunt", "John Krasinski", "Millicent Simmonds", "Noah Jupe"])
  const Inception: Movie :=
    Movie("3", "Inception", "2010-07-16", 148, ["Action", "Adventure", "Sci-Fi"], "English",
      "Christopher Nolan", ["Leonardo DiCaprio", "Joseph Gordon-Levitt", "Elliot Page", "Tom Hardy"])
  const TheDarkKnight: Movie :=
    Movie("4", "The Dark Knight", "2008-07-18", 152, ["Action", "Crime", "Drama"], "English",
      "Christopher Nolan", ["Christian Bale", "Heath Ledger", "Aaron Eckhart", "Michael Caine"])
  const Parasite: Movie :=
    Movie("5", "Parasite", "2019-05-30", 132, ["Comedy", "Drama", "Thriller"], "Korean",
      "Bong Joon Ho", ["Song Kang-ho", "Lee Sun-kyun", "Cho Yeo-jeong", "Choi Woo-shik"])
  const GetOut: Movie :=
    Movie("6", "Get Out", "2017-02-24", 104, ["Horror", "Mystery", "Thriller"], "English",
      "Jordan Peele", ["Daniel Kaluuya", "Allison Williams", "Bradley Whitford", "Catherine Keener"])

  const Movies: seq<Movie> := [WakandaForever, AQuietPlace, Inception, TheDarkKnight, Parasite, GetOut]

  const VipBlock: seq<int> := [5, 6, 7, 8, 9, 10, 11, 12, 13, 14, 15, 16]

  const Halls: seq<Hall> := [
    Hall("1", "Main Hall", 10, 16, [1, 2], []),
    Hall("2", "VIP Hall", 8, 12, [1, 2, 3, 4], []),
    Hall("3", "IMAX Hall", 12, 20, [1, 2, 3], [VipRow(4, VipBlock), VipRow(5, VipBlock)])
  ]

  const Showtimes: seq<Showtime> := [
    Showtime("1", "1", "2025-06-15", "18:30", "1", 15000.0, Some(25000.0)),
    Showtime("2", "1", "2025-06-15", "21:00", "2", 18000.0, Some(30000.0)),
    Showtime("3", "2", "2025-06-15", "19:00", "3", 20000.0, Some(35000.0)),
    Showtime("4", "3", "2025-06-16", "17:30", "1", 15000.0, Some(25000.0)),
    Showtime("5", "4", "2025-06-16", "20:00", "2", 18000.0, Some(30000.0)),
    Showtime("6", "5", "2025-06-17", "18:30", "3", 20000.0, Some(35000.0))
  ]

  /** `movies.find(movie => movie.id === id)`. */
  function GetMovieById(id: string): (r: Option<Movie>)
    ensures r.None? <==> forall i :: 0 <= i < |Movies| ==> Movies[i].id != id
    ensures r.Some? ==> r.value in Movies && r.value.id == id
  {
    Find(Movies, (m: Movie) => m.id == id)
  }

  /** `showtimes.filter(showtime => showtime.movieId === movieId)`. */
  function GetShowtimesByMovieId(movieId: string): (r: seq<Showtime>)
    ensures forall st :: st in r <==> st in Showtimes && st.movieId == movieId
    ensures IsSubsequence(r, Showtimes)
  {
    var ofMovie := (st: Showtime) => st.movieId == movieId;
    FilterIsSubsequence(Showtimes, ofMovie);
    Filter(Showtimes, ofMovie)
  }

  /** `halls.find(hall => hall.id === id)`. */
  function GetHallById(id: string): (r: Option<Hall>)
    ensures r.None? <==> forall i :: 0 <= i < |Halls| ==> Halls[i].id != id
    ensures r.Some? ==> r.value in Halls && r.value.id == id
  {
    Find(Halls, (h: Hall) => h.id == id)
  }

  /** `showtimes.find(showtime => showtime.id === id)`. */
  function GetShowtimeById(id: string): (r: Option<Showtime>)
    ensures r.None? <==> forall i :: 0 <= i < |Showtimes| ==> Showtimes[i].id != id
    ensures r.Some? ==> r.value in Showtimes && r.value.id == id
  {
    Find(Showtimes, (st: Showtime) => st.id == id)
  }

  /** Every VIP row and every VIP override seat of `h` lies inside the hall. */
  predicate VipInBounds(h: Hall)
  {
    (forall r :: r in h.vipRows ==> 1 <= r <= h.rows) &&
    (forall v :: v in h.vipSeats ==>
       1 <= v.row <= h.rows && forall c :: c in v.seats ==> 1 <= c <= h.seatsPerRow)
  }

  /** The ids of a catalog list are pairwise distinct, so "first match" is "the match". */
  predicate DistinctIds<T>(s: seq<T>, id: T -> string)
  {
    forall i, j :: 0 <= i < j < |s| ==> id(s[i]) != id(s[j])
  }

  function MovieId(m: Movie): string { m.id }
  function HallId(h: Hall): string { h.id }
  function ShowtimeId(st: Showtime): string { st.id }

  /** Every showtime of the catalog names a movie and a hall of the catalog. */
  lemma ShowtimesResolve()
    ensures forall i :: 0 <= i < |Showtimes| ==>
      GetMovieById(Showtimes[i].movieId).Some? && GetHallById(Showtimes[i].hallId).Some?
  {
    assert Movies[0].id == "1" && Movies[1].id == "2" && Movies[2].id == "3";
    assert Movies[3].id == "4" && Movies[4].id == "5";
    assert Halls[0].id == "1" && Halls[1].id == "2" && Halls[2].id == "3";
  }

  /** Every hall has positive dimensions and its VIP rows and override seats inside its bounds. */
  lemma HallsWellFormed()
    ensures forall h :: h in Halls ==> h.rows > 0 && h.seatsPerRow > 0 && VipInBounds(h)
  {
    assert VipInBounds(Halls[0]) && VipInBounds(Halls[1]);
    assert VipInBounds(Halls[2]);
  }

  /** Every showtime has a positive base price and an explicit positive VIP price. */
  lemma PricesPositive()
    ensures forall st :: st in Showtimes ==> st.price > 0.0 && st.vipPrice.Some? && st.vipPrice.value > 0.0
  {
  }

  /** Ids are unique within each catalog list. */
  lemma IdsDistinct()
    ensures DistinctIds(Movies, MovieId) && DistinctIds(Halls, HallId) && DistinctIds(Showtimes, ShowtimeId)
  {
  }

  /** The showtimes of movie "1" are the first two, in declaration order. */
  lemma ShowtimesOfFirstMovie()
    ensures GetShowtimesByMovieId("1") == [Showtimes[0], Showtimes[1]]
  {
    var p := (st: Showtime) => st.movieId == "1";
    assert Filter(Showtimes[6..], p) == [];
    assert Filter(Showtimes[5..], p) == [];
    assert Filter(Showtimes[4..], p) == [];
    assert Filter(Showtimes[3..], p) == [];
    assert Filter(Showtimes[2..], p) == [];
    assert Filter(Showtimes[1..], p) == [Showtimes[1]];
  }
}
