/** What a sort of the book list means (internal/repository/book_sort.go): the ORDER BY
    terms of a plan, and the order they put books in.
 */
module BookSort {
  import opened Wrappers
  import opened Ranking
  import opened BookFilter

  /** What a term reads of a book. `SeriesMissing` and `ShelfMissing` are IS NULL tests. */
  datatype Column =
    | Title | Author | SeriesMissing | SeriesName | Position | SeriesOrTitle | PositionOrZero
    | ShelfMissing | ShelfPath | AddedAt | YearAt | CreatedAt | TypeName | BookId

  /** One term of an ORDER BY. */
  datatype Term = Term(column: Column, desc: bool, nullsLast: bool)

  /** A term that does not say where NULLs go: last ascending, first descending. */
  function Plainly(c: Column, desc: bool): Term { Term(c, desc, !desc) }

  function LevelTerms(k: SortKey): seq<Term> {
    match k.field
    case ByTitle => [Plainly(Title, k.desc)]
    case ByAuthor => [Term(Author, k.desc, true)]
    case BySeries =>
      if k.mixed then [Plainly(SeriesOrTitle, k.desc), Plainly(PositionOrZero, k.desc)]
      else [Plainly(SeriesMissing, false), Plainly(SeriesName, k.desc), Term(Position, k.desc, true)]
    case ByShelf => [Plainly(ShelfMissing, false), Plainly(ShelfPath, k.desc)]
    case ByAdded => [Term(AddedAt, k.desc, true)]
    case ByYear => [Term(YearAt, k.desc, true)]
    case ByCreated => [Plainly(CreatedAt, k.desc)]
    case ByMediaType => [Plainly(TypeName, k.desc)]
  }

  function AllLevels(keys: seq<SortKey>): seq<Term> {
    if keys == [] then [] else AllLevels(keys[..|keys| - 1]) + LevelTerms(keys[|keys| - 1])
  }

  /** The title sort, when no key is given. */
  const TITLE_SORT := [SortKey(ByTitle, false, false)]

  function Terms(keys: seq<SortKey>): seq<Term> {
    AllLevels(if keys == [] then TITLE_SORT else keys) + [Plainly(Title, false), Plainly(BookId, false)]
  }

  method OrderTerms(keys: seq<SortKey>) returns (terms: seq<Term>)
    ensures terms == Terms(keys)
  {
    var levels := if |keys| == 0 then TITLE_SORT else keys;
    terms := [];
    for i := 0 to |levels|
      invariant terms == AllLevels(levels[..i])
    {
      var k := levels[i];
      assert levels[..i + 1][..i] == levels[..i];
      match k.field {
        case ByTitle => terms := terms + [Plainly(Title, k.desc)];
        case ByAuthor => terms := terms + [Term(Author, k.desc, true)];
        case BySeries =>
          if k.mixed {
            terms := terms + [Plainly(SeriesOrTitle, k.desc), Plainly(PositionOrZero, k.desc)];
          } else {
            terms := terms + [Plainly(SeriesMissing, false), Plainly(SeriesName, k.desc), Term(Position, k.desc, true)];
          }
        case ByShelf => terms := terms + [Plainly(ShelfMissing, false), Plainly(ShelfPath, k.desc)];
        case ByAdded => terms := terms + [Term(AddedAt, k.desc, true)];
        case ByYear => terms := terms + [Term(YearAt, k.desc, true)];
        case ByCreated => terms := terms + [Plainly(CreatedAt, k.desc)];
        case ByMediaType => terms := terms + [Plainly(TypeName, k.desc)];
      }
    }
    assert levels[..|levels|] == levels;
    terms := terms + [Plainly(Title, false), Plainly(BookId, false)];
  }

  // ---- the order ---------------------------------------------------------------

  /** What the columns hold: a rank in the collation or in time, or NULL. */
  type Values = (Column, Id) -> Option<int>

  predicate TermBefore(v: Values, t: Term, x: Id, y: Id) {
    match (v(t.column, x), v(t.column, y))
    case (None, None) => false
    case (None, Some(_)) => !t.nullsLast
    case (Some(_), None) => t.nullsLast
    case (Some(a), Some(b)) => if t.desc then b < a else a < b
  }

  /** ORDER BY: the first term that tells two books apart decides. */
  predicate Before(v: Values, terms: seq<Term>, x: Id, y: Id) {
    terms != [] &&
    (TermBefore(v, terms[0], x, y) ||
     (v(terms[0].column, x) == v(terms[0].column, y) && Before(v, terms[1..], x, y)))
  }

  ghost predicate TellsApart(v: Values, terms: seq<Term>, x: Id, y: Id) {
    exists i :: 0 <= i < |terms| && v(terms[i].column, x) != v(terms[i].column, y)
  }

  lemma {:induction false} OneBeforeTheOther(v: Values, terms: seq<Term>, x: Id, y: Id)
    ensures TellsApart(v, terms, x, y) <==> Before(v, terms, x, y) || Before(v, terms, y, x)
    ensures !(Before(v, terms, x, y) && Before(v, terms, y, x))
  {
    if terms != [] {
      OneBeforeTheOther(v, terms[1..], x, y);
      assert forall i :: 0 <= i < |terms[1..]| ==> terms[1..][i] == terms[i + 1];
      if TellsApart(v, terms, x, y) && v(terms[0].column, x) == v(terms[0].column, y) {
        var i :| 0 <= i < |terms| && v(terms[i].column, x) != v(terms[i].column, y);
        assert terms[1..][i - 1] == terms[i];
      }
    }
  }

  lemma {:induction false} BeforeIsTransitive(v: Values, terms: seq<Term>, x: Id, y: Id, z: Id)
    requires Before(v, terms, x, y) && Before(v, terms, y, z)
    ensures Before(v, terms, x, z)
  {
    if v(terms[0].column, x) == v(terms[0].column, y) == v(terms[0].column, z) {
      BeforeIsTransitive(v, terms[1..], x, y, z);
    }
  }

  /** Ids are never NULL and never shared. */
  ghost predicate IdsDiffer(v: Values) {
    forall x, y :: v(BookId, x) == v(BookId, y) ==> x == y
  }

  /** Every sort puts every set of books in one order without ties, whatever its levels
      read, because each plan ends on the id. */
  lemma EverySortIsTotal(v: Values, keys: seq<SortKey>, s: set<Id>)
    requires IdsDiffer(v)
    ensures StrictOrder((x, y) => Before(v, Terms(keys), x, y), s)
  {
    var terms := Terms(keys);
    assert terms[|terms| - 1] == Plainly(BookId, false);
    forall x, y | x in s && y in s
      ensures x == y || Before(v, terms, x, y) || Before(v, terms, y, x)
      ensures !Before(v, terms, x, x)
    {
      OneBeforeTheOther(v, terms, x, y);
      OneBeforeTheOther(v, terms, x, x);
      if x != y {
        assert v(terms[|terms| - 1].column, x) != v(terms[|terms| - 1].column, y);
      }
    }
    forall x, y, z | x in s && y in s && z in s && Before(v, terms, x, y) && Before(v, terms, y, z)
      ensures Before(v, terms, x, z)
    {
      BeforeIsTransitive(v, terms, x, y, z);
    }
  }

  /** The books of s, each once, in order. */
  ghost predicate InOrder(v: Values, keys: seq<SortKey>, s: set<Id>, list: seq<Id>) {
    && (forall x :: x in list <==> x in s)
    && forall i, j :: 0 <= i < j < |list| ==> Before(v, Terms(keys), list[i], list[j])
  }

  /** So the books come back in the same order for every page: page by page is the
      whole list, cut up. */
  lemma {:induction false} SameOrderForEveryPage(v: Values, keys: seq<SortKey>, s: set<Id>, list: seq<Id>,
      again: seq<Id>)
    requires InOrder(v, keys, s, list) && InOrder(v, keys, s, again)
    ensures list == again
    decreases |list|
  {
    assert |again| > 0 ==> again[0] in again;
    if list == [] {
      assert forall x :: x !in s;
    } else {
      var first := list[0];
      assert first in s;
      var k :| 0 <= k < |again| && again[k] == first;
      var l :| 0 <= l < |list| && list[l] == again[0];
      OneBeforeTheOther(v, Terms(keys), first, again[0]);
      assert k == 0;
      WithoutTheFirst(v, keys, s, list);
      WithoutTheFirst(v, keys, s, again);
      SameOrderForEveryPage(v, keys, s - {first}, list[1..], again[1..]);
      assert list == [first] + list[1..] && again == [first] + again[1..];
    }
  }

  lemma WithoutTheFirst(v: Values, keys: seq<SortKey>, s: set<Id>, list: seq<Id>)
    requires InOrder(v, keys, s, list) && list != []
    ensures InOrder(v, keys, s - {list[0]}, list[1..])
  {
    forall x ensures x in list[1..] <==> x in s - {list[0]} {
      if x in list[1..] {
        var i :| 0 <= i < |list[1..]| && list[1..][i] == x;
        assert Before(v, Terms(keys), list[0], list[i + 1]);
        OneBeforeTheOther(v, Terms(keys), list[0], x);
      }
      assert list == [list[0]] + list[1..];
    }
  }

  // ---- what the first level does -----------------------------------------------

  /** Whether a book has what a level sorts by. */
  predicate HasLevel(v: Values, f: SortField, x: Id) {
    match f
    case ByAuthor => v(Author, x).Some?
    case BySeries => v(SeriesMissing, x) == Some(0)
    case ByShelf => v(ShelfMissing, x) == Some(0)
    case ByAdded => v(AddedAt, x).Some?
    case ByYear => v(YearAt, x).Some?
    case _ => true
  }

  /** The columns hold what the joins give: an IS NULL test is false or true, and the
      columns every book fills are never NULL. */
  ghost predicate Sensible(v: Values) {
    && IdsDiffer(v)
    && (forall x :: v(SeriesMissing, x) in {Some(0), Some(1)} && v(ShelfMissing, x) in {Some(0), Some(1)})
    && (forall x :: v(SeriesMissing, x) == Some(0) <==> v(SeriesName, x).Some?)
    && (forall x :: v(ShelfMissing, x) == Some(0) <==> v(ShelfPath, x).Some?)
    && (forall x :: v(SeriesOrTitle, x).Some? && v(Title, x).Some? && v(CreatedAt, x).Some? && v(TypeName, x).Some?)
  }

  lemma {:induction false} FirstLevelFirst(keys: seq<SortKey>)
    requires keys != []
    ensures LevelTerms(keys[0]) <= AllLevels(keys)
  {
    if |keys| == 1 {
      assert keys[..0] == [];
    } else {
      FirstLevelFirst(keys[..|keys| - 1]);
    }
  }

  lemma TermsStart(keys: seq<SortKey>)
    requires keys != []
    ensures |LevelTerms(keys[0])| <= |Terms(keys)|
    ensures forall i :: 0 <= i < |LevelTerms(keys[0])| ==> Terms(keys)[i] == LevelTerms(keys[0])[i]
  {
    FirstLevelFirst(keys);
  }

  /** A book without an author, a series, a shelf or a date comes after every book that
      has one, whichever way the level runs; among series only when standalones are not
      mixed in. */
  lemma MissingComesLast(v: Values, keys: seq<SortKey>, x: Id, y: Id)
    requires Sensible(v) && keys != [] && !(keys[0].field == BySeries && keys[0].mixed)
    requires HasLevel(v, keys[0].field, x) && !HasLevel(v, keys[0].field, y)
    ensures Before(v, Terms(keys), x, y)
  {
    TermsStart(keys);
    assert Terms(keys)[0] == LevelTerms(keys[0])[0];
  }

  /** What a level's books are told apart by first. */
  function Lead(k: SortKey): Column {
    match k.field
    case ByTitle => Title
    case ByAuthor => Author
    case BySeries => if k.mixed then SeriesOrTitle else SeriesName
    case ByShelf => ShelfPath
    case ByAdded => AddedAt
    case ByYear => YearAt
    case ByCreated => CreatedAt
    case ByMediaType => TypeName
  }

  /** And among the books that have it, the level's own value decides, up or down. */
  lemma LevelDecides(v: Values, keys: seq<SortKey>, x: Id, y: Id)
    requires Sensible(v) && keys != []
    requires v(Lead(keys[0]), x).Some? && v(Lead(keys[0]), y).Some?
    requires v(Lead(keys[0]), x) != v(Lead(keys[0]), y)
    ensures Before(v, Terms(keys), x, y)
       <==> if keys[0].desc then v(Lead(keys[0]), y).value < v(Lead(keys[0]), x).value
            else v(Lead(keys[0]), x).value < v(Lead(keys[0]), y).value
  {
    TermsStart(keys);
    var terms, k := Terms(keys), keys[0];
    assert terms[0] == LevelTerms(k)[0];
    if (k.field == BySeries && !k.mixed) || k.field == ByShelf {
      assert terms[1..][0] == terms[1] == LevelTerms(k)[1];
      assert v(terms[0].column, x) == v(terms[0].column, y) == Some(0);
    }
  }

  // ---- what every further level does -------------------------------------------

  /** The columns a level compares. */
  function Reads(k: SortKey): set<Column> {
    match k.field
    case ByTitle => {Title}
    case ByAuthor => {Author}
    case BySeries => if k.mixed then {SeriesOrTitle, PositionOrZero} else {SeriesMissing, SeriesName, Position}
    case ByShelf => {ShelfMissing, ShelfPath}
    case ByAdded => {AddedAt}
    case ByYear => {YearAt}
    case ByCreated => {CreatedAt}
    case ByMediaType => {TypeName}
  }

  /** Nothing a level compares tells the two books apart. */
  ghost predicate Alike(v: Values, k: SortKey, x: Id, y: Id) { forall c :: c in Reads(k) ==> v(c, x) == v(c, y) }

  ghost predicate AlikeBefore(v: Values, keys: seq<SortKey>, i: nat, x: Id, y: Id)
    requires i <= |keys|
  {
    forall j :: 0 <= j < i ==> Alike(v, keys[j], x, y)
  }

  lemma {:induction false} TiesPassOn(v: Values, tied: seq<Term>, rest: seq<Term>, x: Id, y: Id)
    requires forall i :: 0 <= i < |tied| ==> v(tied[i].column, x) == v(tied[i].column, y)
    ensures Before(v, tied + rest, x, y) <==> Before(v, rest, x, y)
  {
    if tied == [] {
      assert tied + rest == rest;
    } else {
      TiesPassOn(v, tied[1..], rest, x, y);
      assert (tied + rest)[1..] == tied[1..] + rest;
    }
  }

  /** All the terms, level i first of what is left. */
  function From(keys: seq<SortKey>, i: nat): seq<Term>
    requires i <= |keys|
    decreases |keys| - i
  {
    if i == |keys| then [Plainly(Title, false), Plainly(BookId, false)] else LevelTerms(keys[i]) + From(keys, i + 1)
  }

  lemma JoinsEitherWay(a: seq<Term>, b: seq<Term>, c: seq<Term>)
    ensures (a + b) + c == a + (b + c)
  {
  }

  lemma {:induction false} LevelsThenRest(keys: seq<SortKey>, i: nat)
    requires i <= |keys|
    ensures AllLevels(keys[..i]) + From(keys, i) == AllLevels(keys) + [Plainly(Title, false), Plainly(BookId, false)]
    decreases |keys| - i
  {
    if i == |keys| {
      assert keys[..i] == keys;
    } else {
      assert keys[..i + 1][..i] == keys[..i];
      LevelsThenRest(keys, i + 1);
      JoinsEitherWay(AllLevels(keys[..i]), LevelTerms(keys[i]), From(keys, i + 1));
    }
  }

  lemma LevelTies(v: Values, k: SortKey, x: Id, y: Id)
    requires Alike(v, k, x, y)
    ensures forall i :: 0 <= i < |LevelTerms(k)| ==> v(LevelTerms(k)[i].column, x) == v(LevelTerms(k)[i].column, y)
  {
  }

  lemma {:induction false} LevelsTie(v: Values, keys: seq<SortKey>, x: Id, y: Id)
    requires AlikeBefore(v, keys, |keys|, x, y)
    ensures forall i :: 0 <= i < |AllLevels(keys)| ==>
              v(AllLevels(keys)[i].column, x) == v(AllLevels(keys)[i].column, y)
  {
    if keys != [] {
      var n := |keys| - 1;
      assert forall j :: 0 <= j < n ==> keys[..n][j] == keys[j];
      LevelsTie(v, keys[..n], x, y);
      LevelTies(v, keys[n], x, y);
    }
  }

  /** Where the levels before i tie, the order is that of the terms from i on. */
  lemma OrderFrom(v: Values, keys: seq<SortKey>, i: nat, x: Id, y: Id)
    requires keys != [] && i <= |keys| && AlikeBefore(v, keys, i, x, y)
    ensures Before(v, Terms(keys), x, y) <==> Before(v, From(keys, i), x, y)
  {
    LevelsTie(v, keys[..i], x, y);
    LevelsThenRest(keys, i);
    TiesPassOn(v, AllLevels(keys[..i]), From(keys, i), x, y);
  }

  lemma FromStarts(keys: seq<SortKey>, i: nat)
    requires i < |keys|
    ensures |From(keys, i)| > |LevelTerms(keys[i])|
    ensures forall j :: 0 <= j < |LevelTerms(keys[i])| ==> From(keys, i)[j] == LevelTerms(keys[i])[j]
  {
  }

  lemma FirstDecides(v: Values, terms: seq<Term>, x: Id, y: Id)
    requires terms != [] && v(terms[0].column, x) != v(terms[0].column, y)
    ensures Before(v, terms, x, y) <==> TermBefore(v, terms[0], x, y)
  {
  }

  lemma SecondDecides(v: Values, terms: seq<Term>, x: Id, y: Id)
    requires |terms| > 1 && v(terms[0].column, x) == v(terms[0].column, y)
    requires v(terms[1].column, x) != v(terms[1].column, y)
    ensures Before(v, terms, x, y) <==> TermBefore(v, terms[1], x, y)
  {
    FirstDecides(v, terms[1..], x, y);
    assert TermBefore(v, terms[0], x, y) <==> false;
  }

  lemma ThirdDecides(v: Values, terms: seq<Term>, x: Id, y: Id)
    requires |terms| > 2 && v(terms[0].column, x) == v(terms[0].column, y)
    requires v(terms[1].column, x) == v(terms[1].column, y)
    requires v(terms[2].column, x) != v(terms[2].column, y)
    ensures Before(v, terms, x, y) <==> TermBefore(v, terms[2], x, y)
  {
    SecondDecides(v, terms[1..], x, y);
    assert TermBefore(v, terms[0], x, y) <==> false;
  }

  /** Of two values, the lower comes first going up and the higher going down. */
  predicate Comes(desc: bool, a: int, b: int) { if desc then b < a else a < b }

  /** Any level, whatever stands before it: where the earlier levels tell two books not
      apart, the level's own value does, up or down. */
  lemma EveryLevelDecides(v: Values, keys: seq<SortKey>, i: nat, x: Id, y: Id)
    requires Sensible(v) && i < |keys| && AlikeBefore(v, keys, i, x, y)
    requires v(Lead(keys[i]), x).Some? && v(Lead(keys[i]), y).Some? && v(Lead(keys[i]), x) != v(Lead(keys[i]), y)
    ensures Before(v, Terms(keys), x, y) <==> Comes(keys[i].desc, v(Lead(keys[i]), x).value, v(Lead(keys[i]), y).value)
  {
    var k, terms := keys[i], From(keys, i);
    OrderFrom(v, keys, i, x, y);
    FromStarts(keys, i);
    if (k.field == BySeries && !k.mixed) || k.field == ByShelf {
      assert terms[0] == LevelTerms(k)[0] && terms[1] == LevelTerms(k)[1];
      assert v(terms[0].column, x) == v(terms[0].column, y) == Some(0);
      SecondDecides(v, terms, x, y);
    } else {
      assert terms[0] == LevelTerms(k)[0];
      FirstDecides(v, terms, x, y);
    }
  }

  /** And a book without what the level sorts by comes after one that has it, up or down. */
  lemma MissingComesLastOfItsEqual(v: Values, keys: seq<SortKey>, i: nat, x: Id, y: Id)
    requires Sensible(v) && i < |keys| && AlikeBefore(v, keys, i, x, y)
    requires !(keys[i].field == BySeries && keys[i].mixed)
    requires HasLevel(v, keys[i].field, x) && !HasLevel(v, keys[i].field, y)
    ensures Before(v, Terms(keys), x, y)
  {
    OrderFrom(v, keys, i, x, y);
    FromStarts(keys, i);
    assert From(keys, i)[0] == LevelTerms(keys[i])[0];
    FirstDecides(v, From(keys, i), x, y);
  }

  /** Within one series the books stand by position, one without a position last; where
      standalone books are mixed in, no position counts as nought. */
  lemma PositionsDecide(v: Values, keys: seq<SortKey>, i: nat, x: Id, y: Id)
    requires Sensible(v) && i < |keys| && AlikeBefore(v, keys, i, x, y)
    requires keys[i].field == BySeries && v(Lead(keys[i]), x) == v(Lead(keys[i]), y) && v(Lead(keys[i]), x).Some?
    ensures !keys[i].mixed && v(Position, x) != v(Position, y) ==>
              (Before(v, Terms(keys), x, y) <==>
               v(Position, x).Some?
               && (v(Position, y).None? || Comes(keys[i].desc, v(Position, x).value, v(Position, y).value)))
    ensures keys[i].mixed && v(PositionOrZero, x).Some? && v(PositionOrZero, y).Some?
            && v(PositionOrZero, x) != v(PositionOrZero, y) ==>
              (Before(v, Terms(keys), x, y) <==>
               Comes(keys[i].desc, v(PositionOrZero, x).value, v(PositionOrZero, y).value))
  {
    var k, terms := keys[i], From(keys, i);
    OrderFrom(v, keys, i, x, y);
    FromStarts(keys, i);
    assert terms[0] == LevelTerms(k)[0] && terms[1] == LevelTerms(k)[1];
    if k.mixed {
      if v(PositionOrZero, x) != v(PositionOrZero, y) {
        SecondDecides(v, terms, x, y);
      }
    } else if v(Position, x) != v(Position, y) {
      assert terms[2] == LevelTerms(k)[2];
      ThirdDecides(v, terms, x, y);
    }
  }

  /** Where no level tells two books apart, the title does, and then the id; a sort without
      levels is by title alone. */
  lemma TitleThenId(v: Values, keys: seq<SortKey>, x: Id, y: Id)
    requires Sensible(v) && AlikeBefore(v, keys, |keys|, x, y) && x != y
    ensures v(Title, x) != v(Title, y) ==>
              (Before(v, Terms(keys), x, y) <==> v(Title, x).value < v(Title, y).value)
    ensures v(Title, x) == v(Title, y) && v(BookId, x).Some? && v(BookId, y).Some? ==>
              (Before(v, Terms(keys), x, y) <==> v(BookId, x).value < v(BookId, y).value)
  {
    var last := [Plainly(Title, false), Plainly(BookId, false)];
    if keys == [] {
      assert TITLE_SORT[..0] == [] && AllLevels(TITLE_SORT) == [Plainly(Title, false)];
      if v(Title, x) == v(Title, y) {
        TiesPassOn(v, [Plainly(Title, false)], last, x, y);
      }
    } else {
      OrderFrom(v, keys, |keys|, x, y);
      assert From(keys, |keys|) == last;
    }
    if v(Title, x) == v(Title, y) {
      SecondDecides(v, last, x, y);
    }
  }
}
