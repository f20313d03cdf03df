/** Which of a book's series, places and copies a sort reads (internal/repository/book_sort.go,
    the LATERAL joins of buildSortPlan).
 */
module SortPicks {
  // A join takes one row of a book, the first in an order: what is being looked at before
  // anything else, then by name. The texts of the joins are read with the values they are
  // bound to.

  import opened Wrappers
  import opened Ranking
  import opened BookFilter
  import opened SortPlans

  /** book_series with each series' library and the rank of its name; the places of live
      copies, with what is above each and the rank of its path; and when copies came. */
  datatype Tables = Tables(
    inSeries: set<(Id, Id)>, libraryOf: Id -> Id, nameRank: Id -> int,
    placed: set<(Id, Id, Id)>, parentOf: Id -> Option<Id>, pathRank: Id -> int,
    came: set<(Id, Id, int)>)

  function IdsOf(v: Value): seq<Id> { if v.Ids? then v.ids else [] }

  // ---- the rows a join chooses from --------------------------------------------

  /** The book's series of the libraries. */
  function SeriesRows(a: Tables, libraries: seq<Id>, b: Id): set<Id> {
    set r | r in a.inSeries && r.0 == b && a.libraryOf(r.1) in libraries :: r.1
  }

  /** The places of its copies in the libraries. */
  function PlaceRows(a: Tables, libraries: seq<Id>, b: Id): set<Id> {
    set r | r in a.placed && r.0 == b && r.1 in libraries :: r.2
  }

  function CameRows(a: Tables, libraries: seq<Id>, b: Id): set<int> {
    set r | r in a.came && r.0 == b && r.1 in libraries :: r.2
  }

  /** ORDER BY (series_id = ANY($n)) DESC, lower(name), id. */
  predicate SeriesBefore(a: Tables, wanted: seq<Id>, x: Id, y: Id) {
    || (x in wanted && y !in wanted)
    || ((x in wanted <==> y in wanted)
        && (a.nameRank(x) < a.nameRank(y) || (a.nameRank(x) == a.nameRank(y) && x < y)))
  }

  predicate Within(a: Tables, here: seq<Id>, above: seq<Id>, l: Id) {
    l in here || (a.parentOf(l).Some? && a.parentOf(l).value in above)
  }

  /** ORDER BY (id = ANY($n) OR parent_id = ANY($n)) DESC, the path; the server may break
      ties of paths as it likes, here by id. */
  predicate PlaceBefore(a: Tables, here: seq<Id>, above: seq<Id>, x: Id, y: Id) {
    || (Within(a, here, above, x) && !Within(a, here, above, y))
    || ((Within(a, here, above, x) <==> Within(a, here, above, y))
        && (a.pathRank(x) < a.pathRank(y) || (a.pathRank(x) == a.pathRank(y) && x < y)))
  }

  // ---- what a text picks -------------------------------------------------------

  function FirstSeries(a: Tables, wanted: seq<Id>, rows: set<Id>): set<Id> {
    First(rows, (x, y) => SeriesBefore(a, wanted, x, y), 1)
  }

  function FirstPlace(a: Tables, here: seq<Id>, above: seq<Id>, rows: set<Id>): set<Id> {
    First(rows, (x, y) => PlaceBefore(a, here, above, x, y), 1)
  }

  /** min(created_at). */
  function FirstDate(rows: set<int>): set<int> { First(rows, (x, y) => x < y, 1) }

  /** The series a join by series takes for a book, or none. */
  function PickedSeries(a: Tables, t: Test, b: Id): set<Id> {
    if t.template != SortBySeries || t.values == [] then {}
    else FirstSeries(a, if |t.values| > 1 then IdsOf(t.values[1]) else [], SeriesRows(a, IdsOf(t.values[0]), b))
  }

  function PickedPlace(a: Tables, t: Test, b: Id): set<Id> {
    if t.template != SortByShelf || t.values == [] then {}
    else
      var here := if |t.values| > 1 then IdsOf(t.values[1]) else [];
      var above := if |t.values| > 2 then IdsOf(t.values[2]) else [];
      FirstPlace(a, here, above, PlaceRows(a, IdsOf(t.values[0]), b))
  }

  function PickedDate(a: Tables, t: Test, b: Id): set<int> {
    if t.template != SortByAdded || t.values == [] then {} else FirstDate(CameRows(a, IdsOf(t.values[0]), b))
  }

  // ---- what is asked is what is picked -----------------------------------------

  lemma FirstIsOne<T(!new)>(s: set<T>, before: (T, T) -> bool)
    requires StrictOrder(before, s)
    ensures s == {} ==> First(s, before, 1) == {}
    ensures s != {} ==> exists x :: First(s, before, 1) == {x} && x in s && forall y | y in s :: y == x || before(x, y)
  {
    FirstCount(s, before, 1);
    if s != {} {
      var first := First(s, before, 1);
      var x :| x in first;
      assert |first - {x}| == 0;
      assert first == {x};
      forall y | y in s && y != x ensures before(x, y) {
        FirstComesFirst(s, before, 1, x, y);
      }
    }
  }

  /** Of the series it could be: one looked at if there is one, and then the first by name. */
  ghost predicate IsFirstSeries(a: Tables, wanted: seq<Id>, rows: set<Id>, k: Id) {
    && k in rows && ((exists j :: j in rows && j in wanted) ==> k in wanted)
    && forall j :: j in rows && (j in wanted <==> k in wanted) ==>
         a.nameRank(k) < a.nameRank(j) || (a.nameRank(k) == a.nameRank(j) && k <= j)
  }

  lemma FirstSeriesIs(a: Tables, wanted: seq<Id>, rows: set<Id>)
    ensures rows == {} ==> FirstSeries(a, wanted, rows) == {}
    ensures rows != {} ==> exists k :: FirstSeries(a, wanted, rows) == {k} && IsFirstSeries(a, wanted, rows, k)
  {
    FirstIsOne(rows, (x, y) => SeriesBefore(a, wanted, x, y));
    if rows != {} {
      var k :| FirstSeries(a, wanted, rows) == {k} && k in rows
               && forall j | j in rows :: j == k || SeriesBefore(a, wanted, k, j);
      assert IsFirstSeries(a, wanted, rows, k);
    }
  }

  /** A sort by series reads one series of the book in the libraries, if it has any: one of
      those being looked at when it is in one, and of what is left to choose from the
      first by name. */
  lemma SeriesAskedIsPicked(a: Tables, libraries: seq<Id>, series: seq<Id>, places: seq<Id>, b: Id)
    ensures var t, rows := AskedLevel(BySeries, libraries, series, places)[0], SeriesRows(a, libraries, b);
            && (rows == {} ==> PickedSeries(a, t, b) == {})
            && (rows != {} ==> exists k :: PickedSeries(a, t, b) == {k} && IsFirstSeries(a, series, rows, k))
  {
    var t, rows := AskedLevel(BySeries, libraries, series, places)[0], SeriesRows(a, libraries, b);
    FirstSeriesIs(a, series, rows);
    assert (if |t.values| > 1 then IdsOf(t.values[1]) else []) == series;
    assert PickedSeries(a, t, b) == FirstSeries(a, series, rows);
  }

  /** Of the places of its copies: one at or right below one looked at if there is one, and
      then the first by path. */
  ghost predicate IsFirstPlace(a: Tables, places: seq<Id>, rows: set<Id>, l: Id) {
    && l in rows && ((exists j :: j in rows && Within(a, places, places, j)) ==> Within(a, places, places, l))
    && forall j :: j in rows && (Within(a, places, places, j) <==> Within(a, places, places, l)) ==>
         a.pathRank(l) <= a.pathRank(j)
  }

  lemma FirstPlaceIs(a: Tables, places: seq<Id>, rows: set<Id>)
    ensures rows == {} ==> FirstPlace(a, places, places, rows) == {}
    ensures rows != {} ==> exists l :: FirstPlace(a, places, places, rows) == {l} && IsFirstPlace(a, places, rows, l)
  {
    FirstIsOne(rows, (x, y) => PlaceBefore(a, places, places, x, y));
    if rows != {} {
      var l :| FirstPlace(a, places, places, rows) == {l} && l in rows
               && forall j | j in rows :: j == l || PlaceBefore(a, places, places, l, j);
      assert IsFirstPlace(a, places, rows, l);
    }
  }

  /** A sort by shelf reads the place of one copy in the libraries. */
  lemma PlaceAskedIsPicked(a: Tables, libraries: seq<Id>, series: seq<Id>, places: seq<Id>, b: Id)
    ensures var t, rows := AskedLevel(ByShelf, libraries, series, places)[0], PlaceRows(a, libraries, b);
            && (rows == {} ==> PickedPlace(a, t, b) == {})
            && (rows != {} ==> exists l :: PickedPlace(a, t, b) == {l} && IsFirstPlace(a, places, rows, l))
  {
    var t, rows := AskedLevel(ByShelf, libraries, series, places)[0], PlaceRows(a, libraries, b);
    FirstPlaceIs(a, places, rows);
    assert (if |t.values| > 1 then IdsOf(t.values[1]) else []) == places;
    assert (if |t.values| > 2 then IdsOf(t.values[2]) else []) == places;
    assert PickedPlace(a, t, b) == FirstPlace(a, places, places, rows);
  }

  /** A sort by date reads when the first copy came that the libraries still have. */
  lemma DateAskedIsPicked(a: Tables, libraries: seq<Id>, series: seq<Id>, places: seq<Id>, b: Id)
    ensures var t, rows := AskedLevel(ByAdded, libraries, series, places)[0], CameRows(a, libraries, b);
            if rows == {} then PickedDate(a, t, b) == {}
            else exists d :: d in rows && PickedDate(a, t, b) == {d} && forall e :: e in rows ==> d <= e
  {
    var t, rows := AskedLevel(ByAdded, libraries, series, places)[0], CameRows(a, libraries, b);
    FirstDateIs(rows);
    assert PickedDate(a, t, b) == FirstDate(rows);
  }

  lemma FirstDateIs(rows: set<int>)
    ensures rows == {} ==> FirstDate(rows) == {}
    ensures rows != {} ==> exists d :: d in rows && FirstDate(rows) == {d} && forall e :: e in rows ==> d <= e
  {
    FirstIsOne(rows, (x, y) => x < y);
  }
}
