/** The counts beside the book list (internal/repository/book_facets.go) against the
    list they describe (books.go, through internal/api/handlers/books_across.go).
 */
module Facets {
  // The two are different queries. The list asks one question after another of each
  // book, in the conditions BookFilter builds. The rail computes a row per book with
  // one flag per dimension, and counts each dimension with its own flag left out.

  import opened Strings
  import opened Wrappers
  import opened BookFilter
  import C = Containment
  import O = Ownership

  /** One row of user_books: at most one per user and book. */
  datatype Mark = Mark(status: string, rating: Option<int>, favourite: bool)

  /** What both queries read about books. `places` pairs a book with every place at or
      above one of its copies. `gone` are tags taken off a book, whose rows stay. An
      average is over the readers of a set of libraries. `other` stands for SQL texts the
      two queries share. */
  datatype Attributes = Attributes(
    mediaType: Id -> string, genres: set<(Id, string)>, tags: set<(Id, string)>, gone: set<(Id, string)>,
    credits: set<(Id, Id)>, series: set<(Id, Id)>, places: set<(Id, Id)>,
    marks: map<(Id, Id), Mark>, average: set<Id> -> map<Id, int>, other: (Test, Id) -> bool)

  /** What a visitor asks: the libraries he can read, those he ticked, the words he typed,
      the tag parameter as it came, and the rest of the options. */
  datatype Request = Request(readable: seq<Id>, ticked: seq<Id>, words: seq<string>, tag: string, opts: ListOpts)

  /** parseFacetSelection's reading of the tag parameter: names between commas. */
  function Tags(raw: string): seq<string> { Clean(Split(Trim(raw), ',')) }

  function StateName(o: O.State): string {
    match o
    case Shelf => "shelf"
    case Wishlist => "wishlist"
    case Suggested => "suggested"
    case Gap => "gap"
  }

  // ---- the list ----------------------------------------------------------------

  function MarkOf(a: Attributes, user: Value, b: Id): Option<Mark> {
    if user.User? && (user.user, b) in a.marks then Some(a.marks[(user.user, b)]) else None
  }

  function Status(m: Option<Mark>): string { if m.Some? then m.value.status else "unread" }

  function Rating(m: Option<Mark>): Option<int> { if m.Some? then m.value.rating else None }

  function Favourite(m: Option<Mark>): bool { m.Some? && m.value.favourite }

  function AverageOf(a: Attributes, libraries: seq<Id>, b: Id): Option<int> {
    var average := a.average(IdSet(libraries));
    if b in average then Some(average[b]) else None
  }

  /** The list's other tag filter: no comma is special to it, case is not, and a tag that
      was taken off still counts. */
  predicate EverTagged(a: Attributes, b: Id, raw: string) {
    exists g :: g in a.tags + a.gone && g.0 == b && Lowercase(g.1) == Lowercase(raw)
  }

  /** x = ANY(xs), which a NULL never is. */
  predicate AmongNumbers(x: Option<int>, xs: seq<int>) { x.Some? && x.value in xs }

  /** What a condition of the list says of a book of the scope. */
  predicate Holds(a: Attributes, t: Test, b: Id, o: O.State) {
    var v := t.values;
    var one := if |v| == 1 then v[0] else NoUser;
    var two := if |v| == 2 then v[1] else NoUser;
    match t.template
    case InSeries => one.Ids? && exists k :: k in one.ids && (b, k) in a.series
    case TagIs => one.Text? && EverTagged(a, b, one.text)
    case TypeAmong => one.Names? && a.mediaType(b) in one.names
    case GenreAmong => one.Names? && exists g :: g in one.names && (b, g) in a.genres
    case TagAmong => one.Names? && exists g :: g in one.names && (b, g) in a.tags
    case ContributorAmong => one.Ids? && exists k :: k in one.ids && (b, k) in a.credits
    case LocationUnder => one.Ids? && exists k :: k in one.ids && (b, k) in a.places
    case UnreadAmong => one.Names? && "unread" in one.names
    case StatusAmong => two.Names? && Status(MarkOf(a, v[0], b)) in two.names
    case AverageAmong => two.Numbers? && v[0].Ids? && AmongNumbers(AverageOf(a, v[0].ids, b), two.numbers)
    case Never => false
    case MyRatingAmong => two.Numbers? && AmongNumbers(Rating(MarkOf(a, v[0], b)), two.numbers)
    case FalseAmong => one.Flags? && false in one.flags
    case FavouriteAmong => two.Flags? && Favourite(MarkOf(a, v[0], b)) in two.flags
    case OwnershipAmong => one.Names? && StateName(o) in one.names
    case _ => a.other(t, b)
  }

  predicate ConjunctHolds(a: Attributes, ts: Tests, b: Id, o: O.State) {
    if ts.any then exists i :: 0 <= i < |ts.tests| && Holds(a, ts.tests[i], b, o)
    else forall i :: 0 <= i < |ts.tests| ==> Holds(a, ts.tests[i], b, o)
  }

  predicate All(a: Attributes, tests: seq<Tests>, b: Id, o: O.State) {
    forall i :: 0 <= i < |tests| ==> ConjunctHolds(a, tests[i], b, o)
  }

  /** narrowToReadable: a ticked library narrows the scope, and only by intersection. */
  function Narrow(ticked: seq<Id>, readable: seq<Id>): seq<Id> {
    if ticked == [] then readable
    else Keep(ticked, readable)
  }

  function Keep(ticked: seq<Id>, readable: seq<Id>): seq<Id> {
    if ticked == [] then []
    else (if ticked[0] in readable then [ticked[0]] else []) + Keep(ticked[1..], readable)
  }

  function IdSet(ids: seq<Id>): set<Id> { set k | k in ids }

  /** No readable library: the handlers answer before they query. */
  function ScopeOf(rows: O.Rows, libraries: seq<Id>, caller: Option<Id>): map<Id, O.State> {
    if libraries == [] then map[] else O.Scope(rows, IdSet(libraries), caller)
  }

  function ListScope(rows: O.Rows, q: Request): map<Id, O.State> {
    ScopeOf(rows, Narrow(q.ticked, q.readable), q.opts.caller)
  }

  function Listed(rows: O.Rows, a: Attributes, q: Request): set<Id> {
    var scope, asked := ListScope(rows, q), Asked(Narrow(q.ticked, q.readable), q.opts);
    set b | b in scope.Keys && All(a, asked, b, scope[b])
  }

  function ListTotal(rows: O.Rows, a: Attributes, q: Request): nat { |Listed(rows, a, q)| }

  /** How the search box reaches the list: the parser makes one condition per word. */
  function WordGroups(words: seq<string>): seq<ConditionGroup> {
    if words == [] then [] else [ConditionGroup(false, WordConditions(words))]
  }

  function WordConditions(words: seq<string>): seq<FilterCondition> {
    if words == [] then []
    else WordConditions(words[..|words| - 1]) + [FilterCondition(OnTitle, Contains, words[|words| - 1])]
  }

  /** A request as the handlers read it, with plain words and none of the filters the rail
      is not given. The tag parameter is read twice: cut up into the selection, and whole. */
  predicate Plain(q: Request) {
    && q.opts.groups == WordGroups(q.words)
    && q.opts.query == "" && q.opts.letter == "" && q.opts.shelfIDs == [] && q.opts.typeFilter == ""
    && q.opts.tagFilter == q.tag && q.opts.selection.tags == Tags(q.tag)
  }

  const MAX_QUERY: nat := 500

  /** How long the words are with one blank between them. */
  function Typed(words: seq<string>): nat {
    if words == [] then 0
    else if |words| == 1 then |words[0]|
    else |words[0]| + 1 + Typed(words[1..])
  }

  /** The list's handler answers 400 to a longer query; the rail's counts it. */
  predicate Accepted(q: Request) { Typed(q.words) <= MAX_QUERY }

  // ---- the rail ----------------------------------------------------------------

  datatype Dim = OwnDim | LibDim | StatusDim | TypeDim | GenreDim | TagDim | PlaceDim | AverageDim | MineDim | FavDim

  /** A value of a dimension. */
  datatype Pick =
    | OfState(name: string) | OfStatus(name: string) | OfType(name: string) | OfGenre(name: string)
    | OfAverage(n: int) | OfMine(n: int) | OfFavourite(b: bool)

  function DimOf(p: Pick): Dim {
    match p
    case OfState(_) => OwnDim
    case OfStatus(_) => StatusDim
    case OfType(_) => TypeDim
    case OfGenre(_) => GenreDim
    case OfAverage(_) => AverageDim
    case OfMine(_) => MineDim
    case OfFavourite(_) => FavDim
  }

  /** A row of `f`, before its flags: the book and what the left joins brought to it.
      Without a caller the interaction table is empty. */
  datatype Row = Row(book: Id, state: O.State, status: string, rating: Option<int>, average: Option<int>,
      favourite: bool)

  function RowOf(a: Attributes, libraries: seq<Id>, caller: Option<Id>, b: Id, o: O.State): Row {
    var mark := MarkOf(a, UserValue(caller), b);
    Row(b, o, Status(mark), Rating(mark), AverageOf(a, libraries, b), Favourite(mark))
  }

  function RailScope(rows: O.Rows, q: Request): map<Id, O.State> { ScopeOf(rows, q.readable, q.opts.caller) }

  function WordTest(w: string): Test { Test(TitleContains(KeepSpace), [Text(w), Text(w), Text(w)]) }

  predicate PeopleHold(a: Attributes, q: Request, b: Id) {
    q.opts.selection.contributors == [] || exists k :: k in q.opts.selection.contributors && (b, k) in a.credits
  }

  predicate SeriesHold(a: Attributes, q: Request, b: Id) {
    q.opts.seriesIDs == [] || exists k :: k in q.opts.seriesIDs && (b, k) in a.series
  }

  /** What narrows every dimension: the words, the people and the series. */
  predicate InBase(a: Attributes, q: Request, b: Id) {
    && (forall w :: w in q.words ==> a.other(WordTest(w), b))
    && PeopleHold(a, q, b) && SeriesHold(a, q, b)
  }

  /** A dimension's flag: TRUE when nothing is selected in it. */
  predicate Flag(rows: O.Rows, a: Attributes, q: Request, d: Dim, r: Row) {
    var s := q.opts.selection;
    match d
    case OwnDim => s.ownership == [] || StateName(r.state) in s.ownership
    case LibDim => q.ticked == [] || exists l :: l in q.ticked && (l, r.book) in rows.held
    case StatusDim => s.readStatus == [] || r.status in s.readStatus
    case TypeDim => s.mediaTypes == [] || a.mediaType(r.book) in s.mediaTypes
    case GenreDim => s.genres == [] || exists g :: g in s.genres && (r.book, g) in a.genres
    case TagDim => s.tags == [] || exists g :: g in s.tags && (r.book, g) in a.tags
    case PlaceDim => s.locations == [] || exists k :: k in s.locations && (r.book, k) in a.places
    case AverageDim => s.ratings == [] || AmongNumbers(r.average, s.ratings)
    case MineDim => s.myRatings == [] || AmongNumbers(r.rating, s.myRatings)
    case FavDim => s.favourites == [] || r.favourite in s.favourites
  }

  /** The groups a row is counted in. */
  predicate Has(a: Attributes, r: Row, p: Pick) {
    match p
    case OfState(name) => StateName(r.state) == name
    case OfStatus(name) => r.status == name
    case OfType(name) => a.mediaType(r.book) == name
    case OfGenre(name) => (r.book, name) in a.genres
    case OfAverage(n) => r.average == Some(n)
    case OfMine(n) => r.rating == Some(n)
    case OfFavourite(f) => r.favourite == f
  }

  /** The flags of all the other dimensions. */
  predicate Others(rows: O.Rows, a: Attributes, q: Request, d: Dim, r: Row) {
    forall e :: e != d ==> Flag(rows, a, q, e, r)
  }

  function Counted(rows: O.Rows, a: Attributes, q: Request, p: Pick): set<Id> {
    var scope := RailScope(rows, q);
    set b | b in scope.Keys && InBase(a, q, b)
            && var r := RowOf(a, q.readable, q.opts.caller, b, scope[b]);
               Others(rows, a, q, DimOf(p), r) && Has(a, r, p)
  }

  function Count(rows: O.Rows, a: Attributes, q: Request, p: Pick): nat { |Counted(rows, a, q, p)| }

  // ---- reading the list's conditions -------------------------------------------

  lemma AllJoin(a: Attributes, xs: seq<Tests>, ys: seq<Tests>, b: Id, o: O.State)
    ensures All(a, xs + ys, b, o) <==> All(a, xs, b, o) && All(a, ys, b, o)
  {
    if All(a, xs + ys, b, o) {
      forall i | 0 <= i < |xs| ensures ConjunctHolds(a, xs[i], b, o) {
        assert ConjunctHolds(a, (xs + ys)[i], b, o);
      }
      forall i | 0 <= i < |ys| ensures ConjunctHolds(a, ys[i], b, o) {
        assert ConjunctHolds(a, (xs + ys)[|xs| + i], b, o);
      }
    }
  }

  lemma AllGiven(a: Attributes, present: bool, t: Test, b: Id, o: O.State)
    ensures All(a, Given(present, t), b, o) <==> (present ==> Holds(a, t, b, o))
  {
    if present {
      assert Given(present, t)[0] == Tests(false, [t]);
      assert [t][0] == t;
      assert ConjunctHolds(a, Tests(false, [t]), b, o) <==> Holds(a, t, b, o);
    }
  }

  predicate WordsHold(a: Attributes, words: seq<string>, b: Id) {
    forall w :: w in words && |w| <= MAX_VALUE ==> a.other(WordTest(w), b)
  }

  function WordTests(words: seq<string>): seq<Test> {
    if words == [] then []
    else
      var last := words[|words| - 1];
      WordTests(words[..|words| - 1]) + if |last| <= MAX_VALUE then [WordTest(last)] else []
  }

  lemma {:induction false} WordsAreAsked(words: seq<string>)
    ensures AskedConditions(WordConditions(words)) == WordTests(words)
  {
    if words != [] {
      var front := WordConditions(words[..|words| - 1]);
      WordsAreAsked(words[..|words| - 1]);
      assert WordConditions(words)[..|front|] == front;
    }
  }

  lemma WordHolds(a: Attributes, w: string, b: Id, o: O.State)
    ensures Holds(a, WordTest(w), b, o) <==> a.other(WordTest(w), b)
  {
  }

  lemma {:induction false} WordTestsAre(words: seq<string>, t: Test)
    ensures t in WordTests(words)
       <==> exists i :: 0 <= i < |words| && |words[i]| <= MAX_VALUE && t == WordTest(words[i])
  {
    if words != [] {
      var n := |words| - 1;
      WordTestsAre(words[..n], t);
      assert t in WordTests(words)
        <==> t in WordTests(words[..n]) || (|words[n]| <= MAX_VALUE && t == WordTest(words[n]));
      assert forall i :: 0 <= i < n ==> words[..n][i] == words[i];
    }
  }

  lemma WordTestsHold(a: Attributes, words: seq<string>, b: Id, o: O.State)
    ensures (forall t :: t in WordTests(words) ==> Holds(a, t, b, o)) <==> WordsHold(a, words, b)
  {
    if forall t :: t in WordTests(words) ==> Holds(a, t, b, o) {
      forall w | w in words && |w| <= MAX_VALUE ensures a.other(WordTest(w), b) {
        var i :| 0 <= i < |words| && words[i] == w;
        WordTestsAre(words, WordTest(w));
        WordHolds(a, w, b, o);
      }
    }
    if WordsHold(a, words, b) {
      forall t | t in WordTests(words) ensures Holds(a, t, b, o) {
        WordTestsAre(words, t);
        var i :| 0 <= i < |words| && |words[i]| <= MAX_VALUE && t == WordTest(words[i]);
        WordHolds(a, words[i], b, o);
      }
    }
  }

  lemma AllOne(a: Attributes, tests: seq<Test>, b: Id, o: O.State)
    ensures All(a, [Tests(false, tests)], b, o) <==> forall t :: t in tests ==> Holds(a, t, b, o)
  {
    assert All(a, [Tests(false, tests)], b, o) <==> ConjunctHolds(a, [Tests(false, tests)][0], b, o);
    assert (forall t :: t in tests ==> Holds(a, t, b, o))
      <==> forall i :: 0 <= i < |tests| ==> Holds(a, tests[i], b, o);
  }

  /** The list drops a word of more than 200 bytes and asks for the rest. */
  lemma WordGroupsHold(a: Attributes, words: seq<string>, b: Id, o: O.State)
    ensures All(a, AskedGroups(WordGroups(words)), b, o) <==> WordsHold(a, words, b)
  {
    WordTestsHold(a, words, b, o);
    if words != [] {
      var g := ConditionGroup(false, WordConditions(words));
      WordsAreAsked(words);
      var tests := WordTests(words);
      assert WordGroups(words)[..0] == [];
      assert AskedGroups(WordGroups(words)) == if tests == [] then [] else [Tests(false, tests)];
      AllOne(a, tests, b, o);
    }
  }

  /** What the list asks in a dimension; its libraries are in its scope instead. */
  function AskedIn(d: Dim, s: Selection, caller: Option<Id>, libraries: seq<Id>): seq<Tests> {
    match d
    case OwnDim => AskedOwnership(s)
    case LibDim => []
    case StatusDim => AskedStatus(s, caller)
    case TypeDim => AskedTypes(s)
    case GenreDim => AskedGenres(s)
    case TagDim => AskedTags(s)
    case PlaceDim => AskedPlaces(s)
    case AverageDim => AskedAverage(s, libraries)
    case MineDim => AskedMine(s, caller)
    case FavDim => AskedFavourite(s, caller)
  }

  // The caller's own marks are where the two are written most differently: the list
  // reads them in a subquery, or answers for nobody when there is no caller; the rail
  // reads a join that found nothing.

  lemma StatusMeans(a: Attributes, user: Value, wanted: seq<string>, b: Id, o: O.State)
    ensures Holds(a, Test(StatusAmong, [user, Names(wanted)]), b, o) <==> Status(MarkOf(a, user, b)) in wanted
    ensures Holds(a, Test(UnreadAmong, [Names(wanted)]), b, o) <==> "unread" in wanted
  {
  }

  lemma StatusAgrees(rows: O.Rows, a: Attributes, q: Request, libraries: seq<Id>, b: Id, o: O.State)
    ensures All(a, AskedStatus(q.opts.selection, q.opts.caller), b, o)
       <==> Flag(rows, a, q, StatusDim, RowOf(a, libraries, q.opts.caller, b, o))
  {
    var wanted, c := q.opts.selection.readStatus, q.opts.caller;
    var t := if c.None? then Test(UnreadAmong, [Names(wanted)]) else Test(StatusAmong, [UserValue(c), Names(wanted)]);
    AllGiven(a, wanted != [], t, b, o);
    StatusMeans(a, UserValue(c), wanted, b, o);
  }

  lemma MineMeans(a: Attributes, user: Value, wanted: seq<int>, b: Id, o: O.State)
    ensures Holds(a, Test(MyRatingAmong, [user, Numbers(wanted)]), b, o)
       <==> AmongNumbers(Rating(MarkOf(a, user, b)), wanted)
    ensures !Holds(a, Test(Never, []), b, o)
  {
  }

  lemma MineAgrees(rows: O.Rows, a: Attributes, q: Request, libraries: seq<Id>, b: Id, o: O.State)
    ensures All(a, AskedMine(q.opts.selection, q.opts.caller), b, o)
       <==> Flag(rows, a, q, MineDim, RowOf(a, libraries, q.opts.caller, b, o))
  {
    var wanted, c := q.opts.selection.myRatings, q.opts.caller;
    var t := if c.None? then Test(Never, []) else Test(MyRatingAmong, [UserValue(c), Numbers(wanted)]);
    AllGiven(a, wanted != [], t, b, o);
    MineMeans(a, UserValue(c), wanted, b, o);
  }

  lemma FavouriteMeans(a: Attributes, user: Value, wanted: seq<bool>, b: Id, o: O.State)
    ensures Holds(a, Test(FavouriteAmong, [user, Flags(wanted)]), b, o) <==> Favourite(MarkOf(a, user, b)) in wanted
    ensures Holds(a, Test(FalseAmong, [Flags(wanted)]), b, o) <==> false in wanted
  {
  }

  lemma FavouriteAgrees(rows: O.Rows, a: Attributes, q: Request, libraries: seq<Id>, b: Id, o: O.State)
    ensures All(a, AskedFavourite(q.opts.selection, q.opts.caller), b, o)
       <==> Flag(rows, a, q, FavDim, RowOf(a, libraries, q.opts.caller, b, o))
  {
    var wanted, c := q.opts.selection.favourites, q.opts.caller;
    var t := if c.None? then Test(FalseAmong, [Flags(wanted)]) else Test(FavouriteAmong, [UserValue(c), Flags(wanted)]);
    AllGiven(a, wanted != [], t, b, o);
    FavouriteMeans(a, UserValue(c), wanted, b, o);
  }

  lemma AverageAgrees(rows: O.Rows, a: Attributes, q: Request, libraries: seq<Id>, b: Id, o: O.State)
    ensures All(a, AskedAverage(q.opts.selection, libraries), b, o)
       <==> Flag(rows, a, q, AverageDim, RowOf(a, libraries, q.opts.caller, b, o))
  {
    var wanted := q.opts.selection.ratings;
    AllGiven(a, wanted != [], Test(AverageAmong, [Ids(libraries), Numbers(wanted)]), b, o);
  }

  lemma OwnershipAgrees(rows: O.Rows, a: Attributes, q: Request, libraries: seq<Id>, b: Id, o: O.State)
    ensures All(a, AskedOwnership(q.opts.selection), b, o)
       <==> Flag(rows, a, q, OwnDim, RowOf(a, libraries, q.opts.caller, b, o))
  {
    AllGiven(a, q.opts.selection.ownership != [], Test(OwnershipAmong, [Names(q.opts.selection.ownership)]), b, o);
  }

  lemma TypeAgrees(rows: O.Rows, a: Attributes, q: Request, libraries: seq<Id>, b: Id, o: O.State)
    ensures All(a, AskedTypes(q.opts.selection), b, o)
       <==> Flag(rows, a, q, TypeDim, RowOf(a, libraries, q.opts.caller, b, o))
  {
    AllGiven(a, q.opts.selection.mediaTypes != [], Test(TypeAmong, [Names(q.opts.selection.mediaTypes)]), b, o);
  }

  lemma GenreAgrees(rows: O.Rows, a: Attributes, q: Request, libraries: seq<Id>, b: Id, o: O.State)
    ensures All(a, AskedGenres(q.opts.selection), b, o)
       <==> Flag(rows, a, q, GenreDim, RowOf(a, libraries, q.opts.caller, b, o))
  {
    AllGiven(a, q.opts.selection.genres != [], Test(GenreAmong, [Names(q.opts.selection.genres)]), b, o);
  }

  lemma TagAgrees(rows: O.Rows, a: Attributes, q: Request, libraries: seq<Id>, b: Id, o: O.State)
    ensures All(a, AskedTags(q.opts.selection), b, o)
       <==> Flag(rows, a, q, TagDim, RowOf(a, libraries, q.opts.caller, b, o))
  {
    AllGiven(a, q.opts.selection.tags != [], Test(TagAmong, [Names(q.opts.selection.tags)]), b, o);
  }

  lemma PlaceAgrees(rows: O.Rows, a: Attributes, q: Request, libraries: seq<Id>, b: Id, o: O.State)
    ensures All(a, AskedPlaces(q.opts.selection), b, o)
       <==> Flag(rows, a, q, PlaceDim, RowOf(a, libraries, q.opts.caller, b, o))
  {
    AllGiven(a, q.opts.selection.locations != [], Test(LocationUnder, [Ids(q.opts.selection.locations)]), b, o);
  }

  /** Dimension by dimension, the list's condition is the rail's flag. */
  lemma DimensionAgrees(rows: O.Rows, a: Attributes, q: Request, libraries: seq<Id>, d: Dim, b: Id, o: O.State)
    requires d != LibDim
    ensures All(a, AskedIn(d, q.opts.selection, q.opts.caller, libraries), b, o)
       <==> Flag(rows, a, q, d, RowOf(a, libraries, q.opts.caller, b, o))
  {
    match d
    case OwnDim => OwnershipAgrees(rows, a, q, libraries, b, o);
    case StatusDim => StatusAgrees(rows, a, q, libraries, b, o);
    case TypeDim => TypeAgrees(rows, a, q, libraries, b, o);
    case GenreDim => GenreAgrees(rows, a, q, libraries, b, o);
    case TagDim => TagAgrees(rows, a, q, libraries, b, o);
    case PlaceDim => PlaceAgrees(rows, a, q, libraries, b, o);
    case AverageDim => AverageAgrees(rows, a, q, libraries, b, o);
    case MineDim => MineAgrees(rows, a, q, libraries, b, o);
    case FavDim => FavouriteAgrees(rows, a, q, libraries, b, o);
  }

  predicate TagFilterHolds(a: Attributes, q: Request, b: Id) { q.tag == "" || EverTagged(a, b, q.tag) }

  lemma TagFilterAgrees(a: Attributes, q: Request, b: Id, o: O.State)
    requires Plain(q)
    ensures All(a, AskedTag(q.opts), b, o) <==> TagFilterHolds(a, q, b)
  {
    AllGiven(a, q.opts.tagFilter != "", Test(TagIs, [Text(q.opts.tagFilter)]), b, o);
  }

  lemma PeopleAndSeriesAgree(a: Attributes, q: Request, b: Id, o: O.State)
    ensures All(a, AskedPeople(q.opts.selection), b, o) <==> PeopleHold(a, q, b)
    ensures All(a, AskedSeries(q.opts), b, o) <==> SeriesHold(a, q, b)
  {
    var people := q.opts.selection.contributors;
    AllGiven(a, people != [], Test(ContributorAmong, [Ids(people)]), b, o);
    AllGiven(a, q.opts.seriesIDs != [], Test(InSeries, [Ids(q.opts.seriesIDs)]), b, o);
  }

  /** Read as a whole, the list's conditions are the rail's flags: all of them but the
      libraries', which the list has in its scope; and its second reading of the tag. */
  lemma ListAsksTheFlags(rows: O.Rows, a: Attributes, q: Request, libraries: seq<Id>, b: Id, o: O.State)
    requires Plain(q)
    ensures All(a, Asked(libraries, q.opts), b, o)
       <==> WordsHold(a, q.words, b) && TagFilterHolds(a, q, b) && PeopleHold(a, q, b) && SeriesHold(a, q, b)
            && Others(rows, a, q, LibDim, RowOf(a, libraries, q.opts.caller, b, o))
  {
    AskedSplits(a, q.opts, libraries, b, o);
    WordGroupsHold(a, q.words, b, o);
    TagFilterAgrees(a, q, b, o);
    PeopleAndSeriesAgree(a, q, b, o);
    forall d | d != LibDim
      ensures All(a, AskedIn(d, q.opts.selection, q.opts.caller, libraries), b, o)
         <==> Flag(rows, a, q, d, RowOf(a, libraries, q.opts.caller, b, o))
    {
      DimensionAgrees(rows, a, q, libraries, d, b, o);
    }
  }

  lemma EveryDimension(a: Attributes, s: Selection, c: Option<Id>, libraries: seq<Id>, b: Id, o: O.State)
    ensures (forall d :: d != LibDim ==> All(a, AskedIn(d, s, c, libraries), b, o))
       <==> All(a, AskedTypes(s), b, o) && All(a, AskedGenres(s), b, o) && All(a, AskedTags(s), b, o)
            && All(a, AskedPlaces(s), b, o) && All(a, AskedStatus(s, c), b, o)
            && All(a, AskedAverage(s, libraries), b, o) && All(a, AskedMine(s, c), b, o)
            && All(a, AskedFavourite(s, c), b, o) && All(a, AskedOwnership(s), b, o)
  {
    if forall d :: d != LibDim ==> All(a, AskedIn(d, s, c, libraries), b, o) {
      assert AskedIn(OwnDim, s, c, libraries) == AskedOwnership(s)
        && AskedIn(StatusDim, s, c, libraries) == AskedStatus(s, c);
      assert AskedIn(TypeDim, s, c, libraries) == AskedTypes(s) && AskedIn(GenreDim, s, c, libraries) == AskedGenres(s);
      assert AskedIn(TagDim, s, c, libraries) == AskedTags(s) && AskedIn(PlaceDim, s, c, libraries) == AskedPlaces(s);
      assert AskedIn(AverageDim, s, c, libraries) == AskedAverage(s, libraries)
        && AskedIn(MineDim, s, c, libraries) == AskedMine(s, c);
      assert AskedIn(FavDim, s, c, libraries) == AskedFavourite(s, c);
    }
  }

  lemma SelectionSplits(a: Attributes, before: seq<Tests>, s: Selection, c: Option<Id>, libraries: seq<Id>, b: Id,
      o: O.State)
    ensures All(a, before + AskedTypes(s) + AskedGenres(s) + AskedTags(s) + AskedPeople(s) + AskedPlaces(s)
                   + AskedStatus(s, c) + AskedAverage(s, libraries) + AskedMine(s, c) + AskedFavourite(s, c)
                   + AskedOwnership(s), b, o)
       <==> All(a, before, b, o) && All(a, AskedPeople(s), b, o)
            && forall d :: d != LibDim ==> All(a, AskedIn(d, s, c, libraries), b, o)
  {
    var asked := before + AskedTypes(s);
    AllJoin(a, before, AskedTypes(s), b, o);
    AllJoin(a, asked, AskedGenres(s), b, o);
    asked := asked + AskedGenres(s);
    AllJoin(a, asked, AskedTags(s), b, o);
    asked := asked + AskedTags(s);
    AllJoin(a, asked, AskedPeople(s), b, o);
    asked := asked + AskedPeople(s);
    AllJoin(a, asked, AskedPlaces(s), b, o);
    asked := asked + AskedPlaces(s);
    AllJoin(a, asked, AskedStatus(s, c), b, o);
    asked := asked + AskedStatus(s, c);
    AllJoin(a, asked, AskedAverage(s, libraries), b, o);
    asked := asked + AskedAverage(s, libraries);
    AllJoin(a, asked, AskedMine(s, c), b, o);
    asked := asked + AskedMine(s, c);
    AllJoin(a, asked, AskedFavourite(s, c), b, o);
    asked := asked + AskedFavourite(s, c);
    AllJoin(a, asked, AskedOwnership(s), b, o);
    EveryDimension(a, s, c, libraries, b, o);
  }

  lemma AskedSplits(a: Attributes, opts: ListOpts, libraries: seq<Id>, b: Id, o: O.State)
    requires opts.query == "" && opts.letter == "" && opts.shelfIDs == [] && opts.typeFilter == ""
    ensures All(a, Asked(libraries, opts), b, o)
       <==> All(a, AskedSeries(opts), b, o) && All(a, AskedTag(opts), b, o) && All(a, AskedGroups(opts.groups), b, o)
            && All(a, AskedPeople(opts.selection), b, o)
            && forall d :: d != LibDim ==> All(a, AskedIn(d, opts.selection, opts.caller, libraries), b, o)
  {
    var s, c := opts.selection, opts.caller;
    var before := AskedSeries(opts) + AskedTag(opts);
    AllJoin(a, AskedSeries(opts), AskedTag(opts), b, o);
    AllJoin(a, before, AskedGroups(opts.groups), b, o);
    SelectionSplits(a, before + AskedGroups(opts.groups), s, c, libraries, b, o);
    assert [] + AskedQuery(opts) + AskedLetter(opts) + AskedSeries(opts) + AskedLists(opts) + AskedTag(opts)
      + AskedType(opts)
        == before;
  }

  /** What the visitor's own selections say of a book, on the tables themselves. Nobody's
      marks are no mark: unread, not rated, not a favourite. */
  ghost predicate OwnMarksFit(a: Attributes, s: Selection, caller: Option<Id>, b: Id) {
    var marked := caller.Some? && (caller.value, b) in a.marks;
    && (s.readStatus != [] ==> (if marked then a.marks[(caller.value, b)].status else "unread") in s.readStatus)
    && (s.myRatings != [] ==>
          marked && var rating := a.marks[(caller.value, b)].rating; rating.Some? && rating.value in s.myRatings)
    && (s.favourites != [] ==> (marked && a.marks[(caller.value, b)].favourite) in s.favourites)
  }

  /** And the rest of them; an average is over the readers of the libraries in scope. */
  ghost predicate SelectionFits(a: Attributes, s: Selection, libraries: seq<Id>, b: Id, o: O.State) {
    && (s.mediaTypes != [] ==> a.mediaType(b) in s.mediaTypes)
    && (s.genres != [] ==> exists g :: g in s.genres && (b, g) in a.genres)
    && (s.tags != [] ==> exists g :: g in s.tags && (b, g) in a.tags)
    && (s.contributors != [] ==> exists k :: k in s.contributors && (b, k) in a.credits)
    && (s.locations != [] ==> exists k :: k in s.locations && (b, k) in a.places)
    && (s.ratings != [] ==>
          var average := a.average(set l | l in libraries);
          b in average && average[b] in s.ratings)
    && (s.ownership != [] ==>
          match o
          case Shelf => "shelf" in s.ownership
          case Wishlist => "wishlist" in s.ownership
          case Suggested => "suggested" in s.ownership
          case Gap => "gap" in s.ownership)
  }

  lemma OwnFlagsMean(rows: O.Rows, a: Attributes, q: Request, r: Row)
    requires var m := MarkOf(a, UserValue(q.opts.caller), r.book);
             r.status == Status(m) && r.rating == Rating(m) && r.favourite == Favourite(m)
    ensures OwnMarksFit(a, q.opts.selection, q.opts.caller, r.book)
       <==> Flag(rows, a, q, StatusDim, r) && Flag(rows, a, q, MineDim, r) && Flag(rows, a, q, FavDim, r)
  {
  }

  lemma FlagsMean(rows: O.Rows, a: Attributes, q: Request, libraries: seq<Id>, b: Id, o: O.State)
    ensures var r := RowOf(a, libraries, q.opts.caller, b, o);
            SelectionFits(a, q.opts.selection, libraries, b, o) <==>
            && PeopleHold(a, q, b) && Flag(rows, a, q, TypeDim, r) && Flag(rows, a, q, GenreDim, r)
            && Flag(rows, a, q, TagDim, r) && Flag(rows, a, q, PlaceDim, r) && Flag(rows, a, q, AverageDim, r)
            && Flag(rows, a, q, OwnDim, r)
  {
    assert (set l | l in libraries) == IdSet(libraries);
  }

  /** What is listed, on the tables: the book is visible, every selection that was made fits
      it, it is in one of the series, was ever given the tag, and holds every word that
      is not over-long. */
  lemma ListedMeans(rows: O.Rows, a: Attributes, q: Request, b: Id)
    requires Plain(q)
    ensures b in Listed(rows, a, q)
       <==> b in ListScope(rows, q)
            && SelectionFits(a, q.opts.selection, Narrow(q.ticked, q.readable), b, ListScope(rows, q)[b])
            && OwnMarksFit(a, q.opts.selection, q.opts.caller, b)
            && (q.opts.seriesIDs != [] ==> exists k :: k in q.opts.seriesIDs && (b, k) in a.series)
            && (q.tag != "" ==> exists g :: g in a.tags + a.gone && g.0 == b && Lowercase(g.1) == Lowercase(q.tag))
            && (forall w :: w in q.words && |w| <= 200 ==>
                  a.other(Test(TitleContains(KeepSpace), [Text(w), Text(w), Text(w)]), b))
  {
    if b in ListScope(rows, q) {
      var narrow, o := Narrow(q.ticked, q.readable), ListScope(rows, q)[b];
      var r := RowOf(a, narrow, q.opts.caller, b, o);
      ListAsksTheFlags(rows, a, q, narrow, b, o);
      OwnFlagsMean(rows, a, q, r);
      FlagsMean(rows, a, q, narrow, b, o);
      AllFlags(rows, a, q, r);
    }
  }

  lemma AllFlags(rows: O.Rows, a: Attributes, q: Request, r: Row)
    ensures Others(rows, a, q, LibDim, r)
       <==> Flag(rows, a, q, OwnDim, r) && Flag(rows, a, q, StatusDim, r) && Flag(rows, a, q, TypeDim, r)
            && Flag(rows, a, q, GenreDim, r) && Flag(rows, a, q, TagDim, r) && Flag(rows, a, q, PlaceDim, r)
            && Flag(rows, a, q, AverageDim, r) && Flag(rows, a, q, MineDim, r) && Flag(rows, a, q, FavDim, r)
  {
  }

  // ---- the rail agrees with the list -------------------------------------------

  /** The request with one dimension's selection replaced by one value. */
  function Only(q: Request, p: Pick): Request {
    var s := q.opts.selection;
    var t := match p
             case OfState(name) => s.(ownership := [name])
             case OfStatus(name) => s.(readStatus := [name])
             case OfType(name) => s.(mediaTypes := [name])
             case OfGenre(name) => s.(genres := [name])
             case OfAverage(n) => s.(ratings := [n])
             case OfMine(n) => s.(myRatings := [n])
             case OfFavourite(f) => s.(favourites := [f]);
    q.(opts := q.opts.(selection := t))
  }

  lemma OnlyChangesItsOwn(rows: O.Rows, a: Attributes, q: Request, p: Pick, r: Row)
    ensures Flag(rows, a, Only(q, p), DimOf(p), r) <==> Has(a, r, p)
    ensures forall d :: d != DimOf(p) ==> (Flag(rows, a, Only(q, p), d, r) <==> Flag(rows, a, q, d, r))
  {
  }

  /** The rail's scope once the ticked libraries' flag is applied: the books it can count. */
  function TickedScope(rows: O.Rows, q: Request): map<Id, O.State> {
    var scope := RailScope(rows, q);
    map b | b in scope.Keys && (q.ticked == [] || exists l :: l in q.ticked && (l, b) in rows.held) :: scope[b]
  }

  predicate ShortWords(q: Request) { forall w :: w in q.words ==> |w| <= MAX_VALUE }

  /** The tag parameter names one tag, and nothing else. */
  predicate OneTag(q: Request) { q.tag == "" || Tags(q.tag) == [q.tag] }

  /** The list narrows to all the readable libraries there are. */
  predicate SameLibraries(q: Request) { IdSet(Narrow(q.ticked, q.readable)) == IdSet(q.readable) }

  /** Averages are over the readers of the libraries in scope, so ticking only some of the
      libraries moves them on one side. */
  predicate AveragesMove(q: Request, p: Pick) {
    !SameLibraries(q) && (p.OfAverage? || q.opts.selection.ratings != [])
  }

  /** Both queries cover the same books and read the words and the tag alike. */
  predicate Agreeable(rows: O.Rows, q: Request) {
    Plain(q) && ListScope(rows, q) == TickedScope(rows, q) && ShortWords(q) && OneTag(q)
  }

  lemma OnlyKeeps(rows: O.Rows, a: Attributes, q: Request, p: Pick)
    requires Plain(q)
    ensures Plain(Only(q, p)) && (ShortWords(q) ==> ShortWords(Only(q, p)))
    ensures Only(q, p).ticked == q.ticked && Only(q, p).readable == q.readable
            && Only(q, p).opts.caller == q.opts.caller
    ensures ListScope(rows, Only(q, p)) == ListScope(rows, q)
    ensures forall b :: InBase(a, Only(q, p), b) <==> InBase(a, q, b)
    ensures Only(q, p).tag == q.tag
    ensures !AveragesMove(q, p) ==> SameLibraries(q) || Only(q, p).opts.selection.ratings == []
  {
  }

  /** On the rail's side, the value with the other dimensions' flags is every flag with
      that value alone selected. */
  lemma RailSide(rows: O.Rows, a: Attributes, q: Request, p: Pick, b: Id)
    requires b in RailScope(rows, q)
    ensures var r := RowOf(a, q.readable, q.opts.caller, b, RailScope(rows, q)[b]);
            b in Counted(rows, a, q, p) <==>
              InBase(a, q, b) && Flag(rows, a, q, LibDim, r) && Others(rows, a, Only(q, p), LibDim, r)
  {
    var r := RowOf(a, q.readable, q.opts.caller, b, RailScope(rows, q)[b]);
    OnlyChangesItsOwn(rows, a, q, p, r);
    EveryFlag(rows, a, q, Only(q, p), DimOf(p), Has(a, r, p), r);
  }

  lemma EveryFlag(rows: O.Rows, a: Attributes, q: Request, q': Request, own: Dim, has: bool, r: Row)
    requires own != LibDim
    requires Flag(rows, a, q', own, r) <==> has
    requires forall d :: d != own ==> (Flag(rows, a, q', d, r) <==> Flag(rows, a, q, d, r))
    ensures Others(rows, a, q, own, r) && has <==> Flag(rows, a, q, LibDim, r) && Others(rows, a, q', LibDim, r)
  {
  }

  /** With one tag, the list's second reading of it asks for nothing more. */
  lemma OneTagIsEnough(rows: O.Rows, a: Attributes, q: Request, r: Row)
    requires Plain(q) && OneTag(q) && Flag(rows, a, q, TagDim, r)
    ensures TagFilterHolds(a, q, r.book)
  {
    if q.tag != "" {
      var g :| g in q.opts.selection.tags && (r.book, g) in a.tags;
      assert g == q.tag;
      assert (r.book, g).0 == r.book && (r.book, g).1 == g;
    }
  }

  lemma ListSide(rows: O.Rows, a: Attributes, q: Request, b: Id)
    requires Plain(q) && ShortWords(q) && OneTag(q) && b in ListScope(rows, q)
    ensures b in Listed(rows, a, q)
       <==> InBase(a, q, b)
            && Others(rows, a, q, LibDim,
                      RowOf(a, Narrow(q.ticked, q.readable), q.opts.caller, b, ListScope(rows, q)[b]))
  {
    var r := RowOf(a, Narrow(q.ticked, q.readable), q.opts.caller, b, ListScope(rows, q)[b]);
    ListAsksTheFlags(rows, a, q, Narrow(q.ticked, q.readable), b, ListScope(rows, q)[b]);
    if Others(rows, a, q, LibDim, r) {
      OneTagIsEnough(rows, a, q, r);
    }
  }

  lemma TickedIsFlagged(rows: O.Rows, a: Attributes, q: Request, b: Id, r: Row)
    requires r.book == b
    ensures b in TickedScope(rows, q) <==> b in RailScope(rows, q) && Flag(rows, a, q, LibDim, r)
    ensures b in TickedScope(rows, q) ==> TickedScope(rows, q)[b] == RailScope(rows, q)[b]
  {
  }

  lemma CountedIsListed(rows: O.Rows, a: Attributes, q: Request, p: Pick, b: Id)
    requires Agreeable(rows, q) && !AveragesMove(q, p)
    ensures b in Counted(rows, a, q, p) <==> b in Listed(rows, a, Only(q, p))
  {
    OnlyKeeps(rows, a, q, p);
    if b in RailScope(rows, q) {
      var o := RailScope(rows, q)[b];
      RailSide(rows, a, q, p, b);
      TickedIsFlagged(rows, a, q, b, RowOf(a, q.readable, q.opts.caller, b, o));
      SameBook(rows, a, q, Only(q, p), b, o);
    }
  }

  lemma SameBook(rows: O.Rows, a: Attributes, q: Request, q': Request, b: Id, o: O.State)
    requires Plain(q') && ShortWords(q') && OneTag(q')
    requires q'.ticked == q.ticked && q'.readable == q.readable && q'.opts.caller == q.opts.caller
    requires b in ListScope(rows, q') ==> ListScope(rows, q')[b] == o
    requires SameLibraries(q) || q'.opts.selection.ratings == []
    ensures b in Listed(rows, a, q')
       <==> b in ListScope(rows, q') && InBase(a, q', b)
            && Others(rows, a, q', LibDim, RowOf(a, q.readable, q.opts.caller, b, o))
  {
    if b in ListScope(rows, q') {
      ListSide(rows, a, q', b);
      FlagsOfNarrowed(rows, a, q', q.readable, Narrow(q.ticked, q.readable), b, o);
    }
  }

  lemma FlagsOfNarrowed(rows: O.Rows, a: Attributes, q: Request, wide: seq<Id>, narrow: seq<Id>, b: Id, o: O.State)
    requires IdSet(wide) == IdSet(narrow) || q.opts.selection.ratings == []
    ensures Others(rows, a, q, LibDim, RowOf(a, narrow, q.opts.caller, b, o))
       <==> Others(rows, a, q, LibDim, RowOf(a, wide, q.opts.caller, b, o))
  {
    var r, r' := RowOf(a, narrow, q.opts.caller, b, o), RowOf(a, wide, q.opts.caller, b, o);
    assert forall d :: Flag(rows, a, q, d, r) <==> Flag(rows, a, q, d, r');
  }

  /** The count beside a value is the total of the list with that value alone selected
      in its dimension and every other selection kept. */
  lemma CountIsListTotal(rows: O.Rows, a: Attributes, q: Request, p: Pick)
    requires Agreeable(rows, q) && !AveragesMove(q, p)
    ensures Count(rows, a, q, p) == ListTotal(rows, a, Only(q, p))
  {
    forall b ensures b in Counted(rows, a, q, p) <==> b in Listed(rows, a, Only(q, p)) {
      CountedIsListed(rows, a, q, p, b);
    }
    assert Counted(rows, a, q, p) == Listed(rows, a, Only(q, p));
  }

  /** With no library ticked the scopes are the same, whatever else is selected. */
  lemma NothingTicked(rows: O.Rows, q: Request)
    requires q.ticked == []
    ensures ListScope(rows, q) == TickedScope(rows, q) && SameLibraries(q)
  {
  }

  // ---- when the rail and the list disagree -------------------------------------

  const EVERYTHING := Selection([], [], [], [], [], [], [], [], [], [])

  /** The request with another selection; the tags are the tag parameter's. */
  function With(q: Request, s: Selection): Request {
    q.(opts := q.opts.(selection := s.(tags := q.opts.selection.tags)))
  }

  /** The rail's count is the list's total for every library of books, whatever is known
      of them, whatever else is selected and whatever is picked. */
  ghost predicate AlwaysAgrees(rows: O.Rows, q: Request) {
    forall a: Attributes, s: Selection, p: Pick :: Agrees(rows, a, With(q, s), p)
  }

  /** The list answers, and with the rail's count for its total. */
  predicate Agrees(rows: O.Rows, a: Attributes, q: Request, p: Pick) {
    Accepted(q) && Count(rows, a, q, p) == ListTotal(rows, a, Only(q, p))
  }

  /** A world where one book is told apart by its type, is in the series asked for and
      has the tags, and where every shared SQL text but one holds of every book. It may
      also have a tag spelled like the whole tag parameter. */
  function OneBook(b: Id, q: Request, unless: Test, whole: bool): Attributes {
    Attributes(x => if x == b then "x" else "", {},
               (set t | t in Tags(q.tag) :: (b, t)) + if whole then {(b, q.tag)} else {}, {},
               {}, set k | k in q.opts.seriesIDs :: (b, k), {}, map[], _ => map[], (t, _) => t != unless)
  }

  /** Asking for that book in a given state. */
  function AimedAt(name: string): Selection { EVERYTHING.(mediaTypes := ["x"], ownership := [name]) }

  function Aimed(q: Request, name: string): Request { With(q, AimedAt(name)) }

  /** What the worlds used here have in common. */
  ghost predicate ShowsOnly(a: Attributes, q: Request, b: Id) {
    && (forall x :: a.mediaType(x) == if x == b then "x" else "")
    && (forall t :: t in Tags(q.tag) ==> (b, t) in a.tags)
    && (forall k :: k in q.opts.seriesIDs ==> (b, k) in a.series)
  }

  lemma OneBookShows(b: Id, q: Request, unless: Test, whole: bool)
    ensures ShowsOnly(OneBook(b, q, unless, whole), q, b)
  {
  }

  lemma AimedFlags(rows: O.Rows, a: Attributes, q: Request, name: string, b: Id, r: Row)
    requires Plain(q) && ShowsOnly(a, q, b)
    ensures Others(rows, a, Aimed(q, name), LibDim, r) <==> StateName(r.state) == name && r.book == b
  {
    var n := Aimed(q, name);
    assert Flag(rows, a, n, OwnDim, r) <==> StateName(r.state) == name;
    assert Flag(rows, a, n, TypeDim, r) <==> r.book == b;
    if r.book == b && q.opts.selection.tags != [] {
      assert q.opts.selection.tags[0] in Tags(q.tag) && Flag(rows, a, n, TagDim, r);
    }
  }

  lemma AimedSeries(a: Attributes, q: Request, name: string, b: Id)
    requires ShowsOnly(a, q, b)
    ensures SeriesHold(a, Aimed(q, name), b)
  {
    if q.opts.seriesIDs != [] {
      assert q.opts.seriesIDs[0] in q.opts.seriesIDs;
    }
  }

  predicate RailHas(rows: O.Rows, q: Request, name: string, b: Id, unless: Test) {
    && b in TickedScope(rows, q) && StateName(TickedScope(rows, q)[b]) == name
    && forall w :: w in q.words ==> WordTest(w) != unless
  }

  predicate ListHas(rows: O.Rows, q: Request, name: string, b: Id, unless: Test, whole: bool) {
    && b in ListScope(rows, q) && StateName(ListScope(rows, q)[b]) == name && (whole || OneTag(q))
    && forall w :: w in q.words && |w| <= MAX_VALUE ==> WordTest(w) != unless
  }

  lemma AimedBase(q: Request, name: string, b: Id, unless: Test, whole: bool)
    ensures InBase(OneBook(b, q, unless, whole), Aimed(q, name), b)
       <==> forall w :: w in q.words ==> WordTest(w) != unless
  {
    OneBookShows(b, q, unless, whole);
    AimedSeries(OneBook(b, q, unless, whole), q, name, b);
  }

  lemma AimedCounts(rows: O.Rows, q: Request, name: string, b: Id, unless: Test, whole: bool, x: Id)
    requires Plain(q)
    ensures x in Counted(rows, OneBook(b, q, unless, whole), Aimed(q, name), OfState(name))
       <==> x == b && RailHas(rows, q, name, b, unless)
  {
    var a, n := OneBook(b, q, unless, whole), Aimed(q, name);
    if x in RailScope(rows, q) {
      var r := RowOf(a, q.readable, q.opts.caller, x, RailScope(rows, q)[x]);
      RailSide(rows, a, n, OfState(name), x);
      assert Only(n, OfState(name)) == n;
      OneBookShows(b, q, unless, whole);
      AimedFlags(rows, a, q, name, b, r);
      AimedBase(q, name, b, unless, whole);
      TickedIsFlagged(rows, a, q, x, r);
    }
  }

  lemma TrimOf(raw: string, t: string) returns (piece: string)
    requires t in Tags(raw)
    ensures piece in Split(Trim(raw), ',') && t == Trim(piece)
  {
    var pieces := Split(Trim(raw), ',');
    CleanPieces(pieces, t);
    var i :| 0 <= i < |pieces| && t == Trim(pieces[i]);
    piece := pieces[i];
  }

  lemma CleanAlone(t: string)
    requires t != "" && Trim(t) == t
    ensures Clean([t]) == [t]
  {
    assert [t][..0] == [];
  }

  /** A tag cut out of the parameter is shorter than the parameter, or is all of it. */
  lemma TagsAreShorter(raw: string, t: string)
    requires t in Tags(raw)
    ensures |t| <= |raw| && (|t| == |raw| ==> Tags(raw) == [raw])
  {
    var trimmed := Trim(raw);
    var pieces := Split(trimmed, ',');
    var piece := TrimOf(raw, t);
    PiecesAreShorter(trimmed, ',');
    assert PiecesFit(pieces, |trimmed|);
    TrimIsNeat(piece);
    TrimIsNeat(raw);
    if |t| == |raw| {
      assert pieces == [raw];
      CleanIsNeat(pieces);
      CleanAlone(raw);
    }
  }

  lemma OneBookEverTagged(b: Id, q: Request, unless: Test, whole: bool)
    ensures TagFilterHolds(OneBook(b, q, unless, whole), q, b) <==> whole || OneTag(q)
  {
    var a := OneBook(b, q, unless, whole);
    if q.tag != "" {
      if whole {
        assert (b, q.tag) in a.tags + a.gone;
      } else if Tags(q.tag) == [q.tag] {
        assert q.tag in Tags(q.tag);
        assert (b, q.tag) in a.tags + a.gone;
      } else {
        forall g | g in a.tags + a.gone && g.0 == b ensures Lowercase(g.1) != Lowercase(q.tag) {
          TagsAreShorter(q.tag, g.1);
          assert |Lowercase(g.1)| < |Lowercase(q.tag)|;
        }
      }
    }
  }

  lemma AimedLists(rows: O.Rows, q: Request, name: string, b: Id, unless: Test, whole: bool, x: Id)
    requires Plain(q)
    ensures x in Listed(rows, OneBook(b, q, unless, whole), Aimed(q, name))
       <==> x == b && ListHas(rows, q, name, b, unless, whole)
  {
    var a, n := OneBook(b, q, unless, whole), Aimed(q, name);
    OneBookShows(b, q, unless, whole);
    assert ListScope(rows, n) == ListScope(rows, q);
    if x in ListScope(rows, n) {
      var narrowed := Narrow(q.ticked, q.readable);
      ListAsksTheFlags(rows, a, n, narrowed, x, ListScope(rows, n)[x]);
      AimedFlags(rows, a, q, name, b, RowOf(a, narrowed, q.opts.caller, x, ListScope(rows, n)[x]));
      AimedSeries(a, q, name, b);
      OneBookEverTagged(b, q, unless, whole);
    }
  }

  lemma AtMostOne(s: set<Id>, b: Id)
    requires forall x :: x in s ==> x == b
    ensures |s| == if b in s then 1 else 0
  {
    assert s == if b in s then {b} else {};
  }

  /** Aimed at one book, each number is one or nought. */
  lemma AimedNumbers(rows: O.Rows, q: Request, name: string, b: Id, unless: Test, whole: bool)
    requires Plain(q)
    ensures var a, n := OneBook(b, q, unless, whole), Aimed(q, name);
            && Only(n, OfState(name)) == n
            && Count(rows, a, n, OfState(name)) == (if RailHas(rows, q, name, b, unless) then 1 else 0)
            && ListTotal(rows, a, n) == (if ListHas(rows, q, name, b, unless, whole) then 1 else 0)
  {
    var a, n, p := OneBook(b, q, unless, whole), Aimed(q, name), OfState(name);
    var counted, listed := Counted(rows, a, n, p), Listed(rows, a, n);
    forall x
      ensures x in counted <==> x == b && RailHas(rows, q, name, b, unless)
      ensures x in listed <==> x == b && ListHas(rows, q, name, b, unless, whole)
    {
      AimedCounts(rows, q, name, b, unless, whole, x);
      AimedLists(rows, q, name, b, unless, whole, x);
    }
    AtMostOne(counted, b);
    AtMostOne(listed, b);
  }

  /** Seen by one of the two only, or for one of them in another state. */
  lemma AimedDisagrees(rows: O.Rows, q: Request, name: string, b: Id, unless: Test, whole: bool)
    requires Plain(q) && RailHas(rows, q, name, b, unless) != ListHas(rows, q, name, b, unless, whole)
    ensures !AlwaysAgrees(rows, q)
  {
    AimedNumbers(rows, q, name, b, unless, whole);
    assert !Agrees(rows, OneBook(b, q, unless, whole), With(q, AimedAt(name)), OfState(name));
  }

  lemma ScopesDisagree(rows: O.Rows, q: Request)
    requires Plain(q) && ListScope(rows, q) != TickedScope(rows, q)
    ensures !AlwaysAgrees(rows, q)
  {
    var ls, ts := ListScope(rows, q), TickedScope(rows, q);
    var b := TheyDiffer(ls, ts);
    WordsDiffer();
    StateNamesDiffer();
    AimedDisagrees(rows, q, StateName(if b in ts then ts[b] else ls[b]), b, NO_WORD, true);
  }

  lemma LongWordDisagrees(rows: O.Rows, q: Request, w: string, b: Id)
    requires Plain(q) && b in TickedScope(rows, q) && ListScope(rows, q) == TickedScope(rows, q)
    requires w in q.words && |w| > MAX_VALUE
    ensures !AlwaysAgrees(rows, q)
  {
    AimedDisagrees(rows, q, StateName(TickedScope(rows, q)[b]), b, WordTest(w), true);
  }

  lemma SeveralTagsDisagree(rows: O.Rows, q: Request, b: Id)
    requires Plain(q) && b in TickedScope(rows, q) && !OneTag(q)
    ensures !AlwaysAgrees(rows, q)
  {
    WordsDiffer();
    AimedDisagrees(rows, q, StateName(TickedScope(rows, q)[b]), b, NO_WORD, false);
  }

  lemma AveragesDisagree(rows: O.Rows, q: Request, b: Id)
    requires Plain(q) && b in TickedScope(rows, q) && !SameLibraries(q)
    ensures !AlwaysAgrees(rows, q)
  {
    AverageMoves(rows, q, b);
    assert !Agrees(rows, Averaged(b, q), With(q, AimedAt(StateName(TickedScope(rows, q)[b]))), OfAverage(3));
  }

  lemma AgreesAlways(rows: O.Rows, q: Request)
    requires Plain(q) && Accepted(q) && ListScope(rows, q) == TickedScope(rows, q)
    requires TickedScope(rows, q) == map[] || (ShortWords(q) && OneTag(q) && SameLibraries(q))
    ensures AlwaysAgrees(rows, q)
  {
    forall a: Attributes, s: Selection, p: Pick ensures Agrees(rows, a, With(q, s), p) {
      AgreesOne(rows, a, With(q, s), p);
    }
  }

  /** The rail and the list agree on every count, averages included, exactly when the list
      accepts the query, the ticked libraries make visible the books their copies are of
      and no others, in the same states, and, unless nothing is visible at all, no word is
      longer than the list accepts, the tag parameter names at most one tag, and no
      readable library is left unticked once one is ticked. */
  lemma AgreesIff(rows: O.Rows, q: Request)
    requires Plain(q)
    ensures AlwaysAgrees(rows, q)
       <==> Typed(q.words) <= 500 && ListScope(rows, q) == TickedScope(rows, q)
            && (TickedScope(rows, q) == map[] || (ShortWords(q) && OneTag(q) && SameLibraries(q)))
  {
    if !Accepted(q) {
      assert !Agrees(rows, OneBook(0, q, NO_WORD, true), With(q, EVERYTHING), OfState(""));
    } else if ListScope(rows, q) != TickedScope(rows, q) {
      ScopesDisagree(rows, q);
    } else if TickedScope(rows, q) == map[] {
      AgreesAlways(rows, q);
    } else {
      var b :| b in TickedScope(rows, q);
      if w :| w in q.words && |w| > MAX_VALUE {
        LongWordDisagrees(rows, q, w, b);
      } else if !OneTag(q) {
        SeveralTagsDisagree(rows, q, b);
      } else if !SameLibraries(q) {
        AveragesDisagree(rows, q, b);
      } else {
        AgreesAlways(rows, q);
      }
    }
  }

  lemma TheyDiffer(x: map<Id, O.State>, y: map<Id, O.State>) returns (b: Id)
    requires x != y
    ensures !(b in x <==> b in y) || (b in x && b in y && x[b] != y[b])
  {
    if k :| k in x && (k !in y || x[k] != y[k]) {
      b := k;
    } else {
      b :| b in y && b !in x;
    }
  }

  lemma AgreesOne(rows: O.Rows, a: Attributes, q: Request, p: Pick)
    requires Plain(q) && ListScope(rows, q) == TickedScope(rows, q)
    requires TickedScope(rows, q) == map[] || (ShortWords(q) && OneTag(q) && SameLibraries(q))
    ensures Count(rows, a, q, p) == ListTotal(rows, a, Only(q, p))
  {
    if ShortWords(q) && OneTag(q) && SameLibraries(q) {
      CountIsListTotal(rows, a, q, p);
    } else {
      OnlyKeeps(rows, a, q, p);
      forall b ensures b !in Counted(rows, a, q, p) && b !in Listed(rows, a, Only(q, p)) {
        if b in RailScope(rows, q) {
          RailSide(rows, a, q, p, b);
          TickedIsFlagged(rows, a, q, b, RowOf(a, q.readable, q.opts.caller, b, RailScope(rows, q)[b]));
        }
      }
      assert Counted(rows, a, q, p) == {} && Listed(rows, a, Only(q, p)) == {};
    }
  }

  lemma StateNamesDiffer()
    ensures forall o, o' :: StateName(o) == StateName(o') ==> o == o'
  {
    assert |StateName(O.Shelf)| == 5 && |StateName(O.Wishlist)| == 8 && |StateName(O.Suggested)| == 9
      && |StateName(O.Gap)| == 3;
  }

  /** No word's test. */
  const NO_WORD := Test(Never, [])

  lemma WordsDiffer()
    ensures forall w :: WordTest(w) != NO_WORD
  {
    assert forall w :: WordTest(w).template != NO_WORD.template;
  }

  /** The book's average is 3, but only over all the readable libraries. */
  function Averaged(b: Id, q: Request): Attributes {
    OneBook(b, q, NO_WORD, true).(average := libraries => if libraries == IdSet(q.readable) then map[b := 3] else map[])
  }

  lemma EveryFlagCounts(rows: O.Rows, a: Attributes, q: Request, p: Pick, b: Id, r: Row)
    requires b in RailScope(rows, q) && r == RowOf(a, q.readable, q.opts.caller, b, RailScope(rows, q)[b])
    requires InBase(a, q, b) && Flag(rows, a, q, LibDim, r) && Others(rows, a, q, LibDim, r) && Has(a, r, p)
    ensures b in Counted(rows, a, q, p)
  {
    assert Others(rows, a, q, DimOf(p), r);
  }

  lemma AveragedShows(q: Request, b: Id)
    ensures ShowsOnly(Averaged(b, q), q, b) && AverageOf(Averaged(b, q), q.readable, b) == Some(3)
    ensures forall w, x :: Averaged(b, q).other(WordTest(w), x)
  {
    OneBookShows(b, q, NO_WORD, true);
    WordsDiffer();
  }

  /** The rail offers three stars. */
  lemma AverageIsOffered(rows: O.Rows, q: Request, name: string, b: Id)
    requires Plain(q) && b in TickedScope(rows, q) && name == StateName(TickedScope(rows, q)[b])
    ensures b in Counted(rows, Averaged(b, q), Aimed(q, name), OfAverage(3))
  {
    var a := Averaged(b, q);
    AveragedShows(q, b);
    var r := RowOf(a, q.readable, q.opts.caller, b, RailScope(rows, q)[b]);
    assert r.average == Some(3);
    AimedFlags(rows, a, q, name, b, r);
    AimedSeries(a, q, name, b);
    TickedIsFlagged(rows, a, q, b, r);
    EveryFlagCounts(rows, a, Aimed(q, name), OfAverage(3), b, r);
  }

  /** The list with three stars ticked is empty. */
  lemma AverageIsNotListed(rows: O.Rows, q: Request, name: string, b: Id)
    requires Plain(q) && !SameLibraries(q)
    ensures Listed(rows, Averaged(b, q), Only(Aimed(q, name), OfAverage(3))) == {}
  {
    var a, n := Averaged(b, q), Only(Aimed(q, name), OfAverage(3));
    forall x ensures x !in Listed(rows, a, n) {
      NobodyAverages(rows, a, n, x);
    }
  }

  lemma AverageMoves(rows: O.Rows, q: Request, b: Id)
    requires Plain(q) && b in TickedScope(rows, q) && !SameLibraries(q)
    ensures var n := Aimed(q, StateName(TickedScope(rows, q)[b]));
            Count(rows, Averaged(b, q), n, OfAverage(3)) > 0 == ListTotal(rows, Averaged(b, q), Only(n, OfAverage(3)))
  {
    var name := StateName(TickedScope(rows, q)[b]);
    AverageIsOffered(rows, q, name, b);
    AverageIsNotListed(rows, q, name, b);
    assert Counted(rows, Averaged(b, q), Aimed(q, name), OfAverage(3)) != {};
  }

  lemma NoAverageNoFlag(rows: O.Rows, a: Attributes, q: Request, libraries: seq<Id>, b: Id, o: O.State)
    requires q.opts.selection.ratings != [] && a.average(IdSet(libraries)) == map[]
    ensures !Others(rows, a, q, LibDim, RowOf(a, libraries, q.opts.caller, b, o))
  {
    var r := RowOf(a, libraries, q.opts.caller, b, o);
    assert r.average == None;
    assert !Flag(rows, a, q, AverageDim, r);
  }

  lemma NobodyAverages(rows: O.Rows, a: Attributes, q: Request, x: Id)
    requires Plain(q) && q.opts.selection.ratings != []
    requires a.average(IdSet(Narrow(q.ticked, q.readable))) == map[]
    ensures x !in Listed(rows, a, q)
  {
    if x in ListScope(rows, q) {
      ListAsksTheFlags(rows, a, q, Narrow(q.ticked, q.readable), x, ListScope(rows, q)[x]);
      NoAverageNoFlag(rows, a, q, Narrow(q.ticked, q.readable), x, ListScope(rows, q)[x]);
    }
  }

  ghost predicate TicksReadable(q: Request) { q.ticked != [] && forall l :: l in q.ticked ==> l in q.readable }

  /** What a ticked library holds is counted, and it is on the shelf. */
  lemma HeldIsTicked(rows: O.Rows, q: Request, b: Id)
    requires TicksReadable(q) && b in O.Held(rows, IdSet(q.ticked))
    ensures b in TickedScope(rows, q) && TickedScope(rows, q)[b] == O.Shelf
  {
    var h :| h in rows.held && h.0 in IdSet(q.ticked) && h.1 == b;
    assert (h.0, b) in rows.held && h.0 in q.ticked;
    assert h.0 in IdSet(q.readable) && b in O.Held(rows, IdSet(q.readable));
    HeldIsOnShelf(rows, q.readable, q.opts.caller, b);
  }

  lemma TickedIsHeld(rows: O.Rows, q: Request, b: Id)
    requires q.ticked != [] && b in TickedScope(rows, q)
    ensures b in O.Held(rows, IdSet(q.ticked))
  {
    var l :| l in q.ticked && (l, b) in rows.held;
    assert (l, b).0 in IdSet(q.ticked) && (l, b).1 == b;
  }

  lemma HeldIsListed(rows: O.Rows, q: Request, b: Id)
    requires TicksReadable(q) && b in O.Held(rows, IdSet(q.ticked))
    ensures b in ListScope(rows, q) && ListScope(rows, q)[b] == O.Shelf
  {
    AllKept(q.ticked, q.readable);
    HeldIsOnShelf(rows, q.ticked, q.opts.caller, b);
  }

  lemma SameMaps(x: map<Id, O.State>, y: map<Id, O.State>)
    requires x.Keys == y.Keys && forall k :: k in x ==> x[k] == y[k]
    ensures x == y
  {
  }

  /** Of readable libraries, ticking some agrees exactly when nothing is visible through
      them but what they hold themselves: no wish, suggestion, gap or book inside a
      held one. */
  lemma TickedAgreesIffAllHeld(rows: O.Rows, q: Request)
    requires q.ticked != [] && forall l :: l in q.ticked ==> l in q.readable
    ensures ListScope(rows, q) == TickedScope(rows, q) <==> ListScope(rows, q).Keys == O.Held(rows, IdSet(q.ticked))
  {
    var ls, ts, held := ListScope(rows, q), TickedScope(rows, q), O.Held(rows, IdSet(q.ticked));
    forall b ensures b in ts <==> b in held {
      if b in held {
        HeldIsTicked(rows, q, b);
      }
      if b in ts {
        TickedIsHeld(rows, q, b);
      }
    }
    assert ts.Keys == held;
    if ls.Keys == held {
      forall b | b in held ensures b in ls && b in ts && ls[b] == ts[b] {
        HeldIsTicked(rows, q, b);
        HeldIsListed(rows, q, b);
      }
      SameMaps(ls, ts);
    }
  }

  lemma {:induction false} AllKept(ticked: seq<Id>, readable: seq<Id>)
    requires forall l :: l in ticked ==> l in readable
    ensures Keep(ticked, readable) == ticked
  {
    if ticked != [] {
      AllKept(ticked[1..], readable);
    }
  }

  lemma HeldIsOnShelf(rows: O.Rows, libraries: seq<Id>, caller: Option<Id>, b: Id)
    requires b in O.Held(rows, IdSet(libraries))
    ensures b in ScopeOf(rows, libraries, caller) && ScopeOf(rows, libraries, caller)[b] == O.Shelf
  {
    var h :| h in rows.held && h.0 in IdSet(libraries) && h.1 == b;
    assert libraries != [];
    O.OneStateAndTheBest(rows, IdSet(libraries), caller, b);
    assert b in O.Arm(rows, IdSet(libraries), caller, O.Shelf);
    assert O.Rank(ScopeOf(rows, libraries, caller)[b]) <= O.Rank(O.Shelf);
  }

  // ---- four requests on which they disagree --------------------------------------

  /** A request with nothing selected but its tags. */
  function Asks(readable: seq<Id>, ticked: seq<Id>, words: seq<string>, tag: string, caller: Option<Id>): (q: Request)
    ensures Plain(q)
  {
    Request(readable, ticked, words, tag,
            ListOpts("", false, "", [], [], tag, "", WordGroups(words), caller, EVERYTHING.(tags := Tags(tag)),
                     [], "", "", 1, 25))
  }

  /** One library, with one copy of book 5. */
  const ONE_COPY := O.Rows({(1, 5)}, {}, {}, {}, {})

  lemma OneCopyIsShown(ticked: seq<Id>, words: seq<string>, tag: string)
    requires ticked == [] || ticked == [1]
    ensures var q := Asks([1], ticked, words, tag, None);
            && 5 in ListScope(ONE_COPY, q) && ListScope(ONE_COPY, q)[5] == O.Shelf
            && 5 in TickedScope(ONE_COPY, q) && TickedScope(ONE_COPY, q)[5] == O.Shelf
  {
    assert (1, 5) in ONE_COPY.held && 1 in IdSet([1]);
    assert (1, 5).1 in O.Held(ONE_COPY, IdSet([1]));
    HeldIsOnShelf(ONE_COPY, [1], None, 5);
    AllKept([1], [1]);
  }

  /** The book is on the shelf and somebody searches for a word of 201 characters that
      is nowhere: the list drops the word and shows the book, the rail counts nothing. */
  lemma OverlongWordDisagrees(w: string)
    requires |w| == MAX_VALUE + 1
    ensures var q, a, p := Aimed(Asks([1], [], [w], "", None), "shelf"),
                           OneBook(5, Asks([1], [], [w], "", None), WordTest(w), true), OfState("shelf");
            Accepted(q) && Count(ONE_COPY, a, q, p) == 0 && ListTotal(ONE_COPY, a, Only(q, p)) == 1
  {
    var q := Asks([1], [], [w], "", None);
    OneCopyIsShown([], [w], "");
    AimedNumbers(ONE_COPY, q, "shelf", 5, WordTest(w), true);
    assert w in [w];
  }

  /** The book has both of two tags, and both are ticked: the list asks for one tag
      spelled with the comma and shows nothing, the rail counts the book. */
  lemma TwoTagsDisagree()
    ensures var q, a, p := Aimed(Asks([1], [], [], "a,b", None), "shelf"),
                           OneBook(5, Asks([1], [], [], "a,b", None), NO_WORD, false), OfState("shelf");
            && (5, "a") in a.tags && (5, "b") in a.tags
            && Count(ONE_COPY, a, q, p) == 1 && ListTotal(ONE_COPY, a, Only(q, p)) == 0
  {
    var q := Asks([1], [], [], "a,b", None);
    AAndB();
    assert |Tags(q.tag)| == 2;
    OneCopyIsShown([], [], "a,b");
    AimedNumbers(ONE_COPY, q, "shelf", 5, NO_WORD, false);
    assert "a" in Tags(q.tag) && "b" in Tags(q.tag);
  }

  lemma AAndB()
    ensures Tags("a,b") == ["a", "b"]
  {
    SplitOnePiece("a", ',');
    SplitOffTheLast("a", "b", ',');
    assert "a" + [','] + "b" == "a,b";
    assert Neat("a,b") && Neat("a") && Neat("b");
    TrimIsNeat("a,b");
    var both := ["a", "b"];
    forall i | 0 <= i < |both| ensures Neat(both[i]) {
      assert both[i] == "a" || both[i] == "b";
    }
    NeatIsClean(both);
  }

  /** One library ticked of one, and a book that is only wished for: the list shows it,
      the rail, which asks for a copy in the library, counts nothing. */
  lemma TickedLibraryHidesAWish()
    ensures var rows := O.Rows({}, {}, {(0, 7)}, {}, {});
            var q, a, p := Aimed(Asks([1], [1], [], "", Some(0)), "wishlist"),
                           OneBook(7, Asks([1], [1], [], "", Some(0)), NO_WORD, true), OfState("wishlist");
            Count(rows, a, q, p) == 0 && ListTotal(rows, a, Only(q, p)) == 1
  {
    var rows := O.Rows({}, {}, {(0, 7)}, {}, {});
    var q := Asks([1], [1], [], "", Some(0));
    AllKept([1], [1]);
    AWishIsVisible();
    WordsDiffer();
    AimedNumbers(rows, q, "wishlist", 7, NO_WORD, true);
  }

  lemma AWishIsVisible()
    ensures var scope := O.Scope(O.Rows({}, {}, {(0, 7)}, {}, {}), IdSet([1]), Some(0));
            7 in scope && scope[7] == O.Wishlist
  {
    var rows, libraries, caller := O.Rows({}, {}, {(0, 7)}, {}, {}), IdSet([1]), Some(0);
    O.OneStateAndTheBest(rows, libraries, caller, 7);
    assert (0, 7) in rows.wishes && (0, 7).1 in O.Arm(rows, libraries, caller, O.Wishlist);
    O.ShelfIffHeldOrInside(rows, libraries, caller, 7);
    assert O.Held(rows, libraries) == {};
  }

  lemma OnlyTheCopy(libraries: set<Id>)
    requires 1 in libraries
    ensures O.Scope(ONE_COPY, libraries, None).Keys == {5} == O.Held(ONE_COPY, libraries)
  {
    assert O.Held(ONE_COPY, libraries) == {5} by {
      assert (1, 5) in ONE_COPY.held && (1, 5).1 == 5;
    }
    forall b ensures b in O.Scope(ONE_COPY, libraries, None) <==> b == 5 {
      OnlyHeldIsVisible(libraries, b);
    }
  }

  lemma {:induction false} NothingInside(held: set<Id>, n: nat)
    ensures C.Within({}, held, n) == {}
  {
    if n > 0 {
      NothingInside(held, n - 1);
      assert C.Level({}, held, n) == {};
    }
  }

  lemma OnlyHeldIsVisible(libraries: set<Id>, b: Id)
    requires O.Held(ONE_COPY, libraries) == {5}
    ensures b in O.Scope(ONE_COPY, libraries, None) <==> b == 5
  {
    var scope := O.Scope(ONE_COPY, libraries, None);
    O.OneStateAndTheBest(ONE_COPY, libraries, None, b);
    assert O.Arm(ONE_COPY, libraries, None, O.Gap) == {};
    NothingInside({5}, C.WALK_BOUND);
    assert O.Arm(ONE_COPY, libraries, None, O.Shelf) == {5};
    if b in scope {
      assert scope[b] == O.Shelf;
    }
  }

  /** Two readable libraries, the one that holds the book ticked, and an average that is
      3 over the readers of both and nothing over those of one: both queries cover the
      same book, the rail offers three stars, and the list with three stars ticked is
      empty. */
  lemma TickedLibraryMovesAnAverage()
    ensures var q, a, p := Aimed(Asks([1, 2], [1], [], "", None), "shelf"),
                           Averaged(5, Asks([1, 2], [1], [], "", None)), OfAverage(3);
            && ListScope(ONE_COPY, q) == TickedScope(ONE_COPY, q)
            && Count(ONE_COPY, a, q, p) > 0 == ListTotal(ONE_COPY, a, Only(q, p))
  {
    var q := Asks([1, 2], [1], [], "", None);
    OnlyTheCopy(IdSet([1]));
    TickedAgreesIffAllHeld(ONE_COPY, q);
    assert (1, 5) in ONE_COPY.held && 1 in IdSet([1, 2]);
    assert (1, 5).1 in O.Held(ONE_COPY, IdSet([1, 2]));
    HeldIsOnShelf(ONE_COPY, [1, 2], None, 5);
    assert 1 in q.ticked && (1, 5) in ONE_COPY.held;
    assert 5 in TickedScope(ONE_COPY, q) && TickedScope(ONE_COPY, q)[5] == O.Shelf;
    AllKept([1], [1, 2]);
    assert 2 in IdSet([1, 2]) && 2 !in IdSet([1]);
    AverageMoves(ONE_COPY, q, 5);
  }

  // ---- what the two may know ---------------------------------------------------

  lemma {:induction false} KeptIff(ticked: seq<Id>, readable: seq<Id>, l: Id)
    ensures l in Keep(ticked, readable) <==> l in ticked && l in readable
  {
    if ticked != [] {
      KeptIff(ticked[1..], readable, l);
    }
  }

  /** A ticked library narrows the list and never widens it: it is in the scope if it can
      be read as well, and with none ticked all that can be read are. */
  lemma NarrowedIff(ticked: seq<Id>, readable: seq<Id>, l: Id)
    ensures l in Narrow(ticked, readable) <==> l in readable && (ticked == [] || l in ticked)
  {
    KeptIff(ticked, readable, l);
  }

  /** Whatever is listed is visible through the libraries the visitor can read, in no
      worse a state. */
  lemma ListedIsVisible(rows: O.Rows, a: Attributes, q: Request, b: Id)
    requires b in Listed(rows, a, q)
    ensures b in RailScope(rows, q) && O.Rank(RailScope(rows, q)[b]) <= O.Rank(ListScope(rows, q)[b])
  {
    var narrow := Narrow(q.ticked, q.readable);
    forall l | l in narrow ensures l in q.readable {
      NarrowedIff(q.ticked, q.readable, l);
    }
    assert narrow[0] in q.readable;
    O.MoreRowsNeverHurt(rows, rows, IdSet(narrow), IdSet(q.readable), q.opts.caller, b);
  }

  /** The rows of libraries the visitor cannot read, and other people's rows, make no
      difference to the list. */
  lemma ListKeepsToReadable(rows: O.Rows, other: O.Rows, a: Attributes, q: Request)
    requires O.SameToCaller(rows, other, IdSet(q.readable), q.opts.caller)
    ensures Listed(rows, a, q) == Listed(other, a, q)
  {
    var narrow := Narrow(q.ticked, q.readable);
    forall l | l in narrow ensures l in q.readable {
      NarrowedIff(q.ticked, q.readable, l);
    }
    O.NothingElseShows(rows, other, IdSet(narrow), q.opts.caller);
  }

  /** Nor to the counts, whatever is selected. */
  ghost predicate CountsKeepToReadable(q: Request) {
    forall rows: O.Rows, other: O.Rows, a: Attributes, s: Selection, p: Pick ::
      O.SameToCaller(rows, other, IdSet(q.readable), q.opts.caller) ==>
        Counted(rows, a, With(q, s), p) == Counted(other, a, With(q, s), p)
  }

  lemma SameFlags(rows: O.Rows, other: O.Rows, a: Attributes, q: Request, r: Row)
    requires O.SameToCaller(rows, other, IdSet(q.readable), q.opts.caller)
    requires forall l :: l in q.ticked ==> l in q.readable
    ensures forall d :: Flag(rows, a, q, d, r) <==> Flag(other, a, q, d, r)
  {
    forall l | l in q.ticked ensures (l, r.book) in rows.held <==> (l, r.book) in other.held {
      assert l in IdSet(q.readable);
    }
  }

  lemma SameCounted(rows: O.Rows, other: O.Rows, a: Attributes, q: Request, p: Pick)
    requires O.SameToCaller(rows, other, IdSet(q.readable), q.opts.caller)
    requires q.readable == [] || forall l :: l in q.ticked ==> l in q.readable
    ensures Counted(rows, a, q, p) == Counted(other, a, q, p)
  {
    O.NothingElseShows(rows, other, IdSet(q.readable), q.opts.caller);
    assert RailScope(rows, q) == RailScope(other, q);
    forall b | b in RailScope(rows, q) ensures b in Counted(rows, a, q, p) <==> b in Counted(other, a, q, p) {
      SameFlags(rows, other, a, q, RowOf(a, q.readable, q.opts.caller, b, RailScope(rows, q)[b]));
    }
  }

  /** A book of a series of library l, held by the libraries given. */
  function InASeries(l: Id, b: Id, held: set<(Id, Id)>): O.Rows { O.Rows(held, {}, {}, {}, {(l, b)}) }

  lemma SeriesIsAGap(q: Request, b: Id, held: set<(Id, Id)>)
    requires q.readable != [] && forall h :: h in held ==> h.0 !in q.readable
    ensures var scope := RailScope(InASeries(q.readable[0], b, held), q);
            b in scope && scope[b] == O.Gap
  {
    var rows, libraries := InASeries(q.readable[0], b, held), IdSet(q.readable);
    O.StatesMean(rows, libraries, q.opts.caller, b);
    assert q.readable[0] in libraries && (q.readable[0], b) in rows.series;
    assert !O.OnShelf(rows, libraries, b) by {
      forall l, x | l in libraries ensures (l, x) !in rows.held {
        assert (l, x).0 == l;
      }
    }
  }

  lemma SameButForACopy(q: Request, l: Id, b: Id)
    requires q.readable != [] && l !in q.readable
    ensures O.SameToCaller(InASeries(q.readable[0], b, {}), InASeries(q.readable[0], b, {(l, b)}),
                           IdSet(q.readable), q.opts.caller)
  {
    forall k, x | k in IdSet(q.readable) ensures (k, x) !in {(l, b)} {
      assert (k, x).0 == k != l;
    }
  }

  lemma TheCopyIsAsked(q: Request, l: Id, b: Id)
    requires q.readable != [] && l in q.ticked && l !in q.readable
    ensures RailHas(InASeries(q.readable[0], b, {(l, b)}), q, "gap", b, NO_WORD)
    ensures !RailHas(InASeries(q.readable[0], b, {}), q, "gap", b, NO_WORD)
  {
    var other := InASeries(q.readable[0], b, {(l, b)});
    SeriesIsAGap(q, b, {(l, b)});
    WordsDiffer();
    assert (l, b) in other.held;
    assert b in TickedScope(other, q) && TickedScope(other, q)[b] == O.Gap;
  }

  /** The counts ask for a copy in a ticked library without asking whether it can be read:
      a copy there decides whether a book of a readable series is counted. */
  lemma UnreadableTickIsCounted(q: Request, l: Id)
    requires Plain(q) && q.readable != [] && l in q.ticked && l !in q.readable
    ensures !CountsKeepToReadable(q)
  {
    var b := 0;
    var rows, other := InASeries(q.readable[0], b, {}), InASeries(q.readable[0], b, {(l, b)});
    SameButForACopy(q, l, b);
    TheCopyIsAsked(q, l, b);
    AimedCounts(rows, q, "gap", b, NO_WORD, true, b);
    AimedCounts(other, q, "gap", b, NO_WORD, true, b);
    assert Counted(rows, OneBook(b, q, NO_WORD, true), With(q, AimedAt("gap")), OfState("gap"))
        != Counted(other, OneBook(b, q, NO_WORD, true), With(q, AimedAt("gap")), OfState("gap"));
  }

  /** So the counts keep to what the visitor can read exactly when everything he ticks can
      be read, or nothing can. */
  lemma CountsKeepToReadableIff(q: Request)
    requires Plain(q)
    ensures CountsKeepToReadable(q) <==> q.readable == [] || forall l :: l in q.ticked ==> l in q.readable
  {
    if q.readable == [] || forall l :: l in q.ticked ==> l in q.readable {
      forall rows: O.Rows, other: O.Rows, a: Attributes, s: Selection, p: Pick
        | O.SameToCaller(rows, other, IdSet(q.readable), q.opts.caller)
        ensures Counted(rows, a, With(q, s), p) == Counted(other, a, With(q, s), p)
      {
        SameCounted(rows, other, a, With(q, s), p);
      }
    } else {
      var l :| l in q.ticked && l !in q.readable;
      UnreadableTickIsCounted(q, l);
    }
  }

  // ---- the counts of a dimension add up ----------------------------------------

  /** The dimensions a book has at most one value of. */
  predicate Single(d: Dim) { d in {OwnDim, StatusDim, TypeDim, AverageDim, MineDim, FavDim} }

  function Selected(s: Selection, d: Dim): set<Pick> {
    match d
    case OwnDim => set v | v in s.ownership :: OfState(v)
    case StatusDim => set v | v in s.readStatus :: OfStatus(v)
    case TypeDim => set v | v in s.mediaTypes :: OfType(v)
    case GenreDim => set v | v in s.genres :: OfGenre(v)
    case AverageDim => set v | v in s.ratings :: OfAverage(v)
    case MineDim => set v | v in s.myRatings :: OfMine(v)
    case FavDim => set v | v in s.favourites :: OfFavourite(v)
    case _ => {}
  }

  function SumOfCounts(rows: O.Rows, a: Attributes, q: Request, ps: seq<Pick>): nat {
    if ps == [] then 0 else SumOfCounts(rows, a, q, ps[1..]) + Count(rows, a, q, ps[0])
  }

  ghost predicate Listing(ps: seq<Pick>, d: Dim) {
    && (forall i :: 0 <= i < |ps| ==> DimOf(ps[i]) == d)
    && (forall i, j :: 0 <= i < j < |ps| ==> ps[i] != ps[j])
  }

  ghost function CountedAny(rows: O.Rows, a: Attributes, q: Request, ps: seq<Pick>): set<Id> {
    set b | b in RailScope(rows, q).Keys && exists p :: p in ps && b in Counted(rows, a, q, p)
  }

  lemma AnyIsFirstOrRest(rows: O.Rows, a: Attributes, q: Request, d: Dim, ps: seq<Pick>, b: Id)
    requires Single(d) && Listing(ps, d) && ps != []
    ensures b in CountedAny(rows, a, q, ps) <==> b in Counted(rows, a, q, ps[0]) || b in CountedAny(rows, a, q, ps[1..])
    ensures !(b in Counted(rows, a, q, ps[0]) && b in CountedAny(rows, a, q, ps[1..]))
  {
    assert forall p :: p in ps <==> p == ps[0] || p in ps[1..];
    if b in Counted(rows, a, q, ps[0]) && b in CountedAny(rows, a, q, ps[1..]) {
      var p :| p in ps[1..] && b in Counted(rows, a, q, p);
      OneValueEach(rows, a, q, ps[0], p, b);
    }
  }

  lemma SizesAdd(all: set<Id>, first: set<Id>, rest: set<Id>)
    requires forall b :: !(b in first && b in rest) && (b in all <==> b in first || b in rest)
    ensures |all| == |first| + |rest|
  {
    assert first !! rest && all == first + rest;
  }

  /** No book is counted twice in a dimension it has one value of. */
  lemma {:induction false} CountsAdd(rows: O.Rows, a: Attributes, q: Request, d: Dim, ps: seq<Pick>)
    requires Single(d) && Listing(ps, d)
    ensures SumOfCounts(rows, a, q, ps) == |CountedAny(rows, a, q, ps)|
  {
    var any := CountedAny(rows, a, q, ps);
    if ps == [] {
      assert any == {};
    } else {
      var first, rest := Counted(rows, a, q, ps[0]), CountedAny(rows, a, q, ps[1..]);
      CountsAdd(rows, a, q, d, ps[1..]);
      forall b ensures !(b in first && b in rest) && (b in any <==> b in first || b in rest) {
        AnyIsFirstOrRest(rows, a, q, d, ps, b);
      }
      SizesAdd(any, first, rest);
    }
  }

  lemma OneValueEach(rows: O.Rows, a: Attributes, q: Request, p: Pick, p': Pick, b: Id)
    requires DimOf(p) == DimOf(p') && Single(DimOf(p))
    requires b in Counted(rows, a, q, p) && b in Counted(rows, a, q, p')
    ensures p == p'
  {
    var r := RowOf(a, q.readable, q.opts.caller, b, RailScope(rows, q)[b]);
    assert Has(a, r, p) && Has(a, r, p');
  }

  /** Counts of values that between them are exactly what the dimension lets through add
      up to the list's total. */
  lemma CoveringCountsSum(rows: O.Rows, a: Attributes, q: Request, d: Dim, ps: seq<Pick>)
    requires Agreeable(rows, q) && (SameLibraries(q) || q.opts.selection.ratings == [])
    requires Single(d) && Listing(ps, d)
    requires forall r :: Flag(rows, a, q, d, r) <==> exists p :: p in ps && Has(a, r, p)
    ensures SumOfCounts(rows, a, q, ps) == ListTotal(rows, a, q)
  {
    CountsAdd(rows, a, q, d, ps);
    forall b ensures b in CountedAny(rows, a, q, ps) <==> b in Listed(rows, a, q) {
      if b in RailScope(rows, q) {
        var r := RowOf(a, q.readable, q.opts.caller, b, RailScope(rows, q)[b]);
        SameBook(rows, a, q, q, b, RailScope(rows, q)[b]);
        TickedIsFlagged(rows, a, q, b, r);
        EveryFlag(rows, a, q, q, d, Flag(rows, a, q, d, r), r);
        assert b in CountedAny(rows, a, q, ps)
          <==> InBase(a, q, b) && Others(rows, a, q, d, r) && Flag(rows, a, q, d, r) by {
          CountedBySome(rows, a, q, d, ps, b);
        }
      }
    }
    assert CountedAny(rows, a, q, ps) == Listed(rows, a, q);
  }

  lemma CountedBySome(rows: O.Rows, a: Attributes, q: Request, d: Dim, ps: seq<Pick>, b: Id)
    requires Listing(ps, d) && b in RailScope(rows, q)
    ensures var r := RowOf(a, q.readable, q.opts.caller, b, RailScope(rows, q)[b]);
            b in CountedAny(rows, a, q, ps) <==>
              InBase(a, q, b) && Others(rows, a, q, d, r) && exists p :: p in ps && Has(a, r, p)
  {
    var r := RowOf(a, q.readable, q.opts.caller, b, RailScope(rows, q)[b]);
    forall p | p in ps
      ensures b in Counted(rows, a, q, p) <==> InBase(a, q, b) && Others(rows, a, q, d, r) && Has(a, r, p)
    {
      assert DimOf(p) == d;
    }
  }

  /** The counts of the selected values of a dimension sum to the total of the list. */
  lemma SelectedCountsSum(rows: O.Rows, a: Attributes, q: Request, d: Dim, ps: seq<Pick>)
    requires Agreeable(rows, q) && (SameLibraries(q) || q.opts.selection.ratings == [])
    requires Single(d) && Listing(ps, d)
    requires ps != [] && forall p :: p in ps <==> p in Selected(q.opts.selection, d)
    ensures SumOfCounts(rows, a, q, ps) == ListTotal(rows, a, q)
  {
    forall r ensures Flag(rows, a, q, d, r) <==> exists p :: p in ps && Has(a, r, p) {
      assert ps[0] in Selected(q.opts.selection, d);
      FlagIsSomeSelected(rows, a, q, d, r);
    }
    CoveringCountsSum(rows, a, q, d, ps);
  }

  lemma FlagIsSomeSelected(rows: O.Rows, a: Attributes, q: Request, d: Dim, r: Row)
    requires Single(d) && Selected(q.opts.selection, d) != {}
    ensures Flag(rows, a, q, d, r) <==> exists p :: p in Selected(q.opts.selection, d) && Has(a, r, p)
  {
    var selected := Selected(q.opts.selection, d);
    var p :| p in selected;
    var own := match d
               case OwnDim => Some(OfState(StateName(r.state)))
               case StatusDim => Some(OfStatus(r.status))
               case TypeDim => Some(OfType(a.mediaType(r.book)))
               case AverageDim => (if r.average.Some? then Some(OfAverage(r.average.value)) else None)
               case MineDim => (if r.rating.Some? then Some(OfMine(r.rating.value)) else None)
               case _ => Some(OfFavourite(r.favourite));
    assert Flag(rows, a, q, d, r) <==> own.Some? && own.value in selected;
    assert forall p :: p in selected ==> (Has(a, r, p) <==> own == Some(p));
  }

  const STATES := [OfState("shelf"), OfState("wishlist"), OfState("suggested"), OfState("gap")]

  lemma EveryStateIsThere(a: Attributes, r: Row)
    ensures exists p :: p in STATES && Has(a, r, p)
  {
    assert OfState(StateName(r.state)) in STATES;
  }

  lemma StatesDiffer()
    ensures Listing(STATES, OwnDim)
  {
    assert |"shelf"| == 5 && |"wishlist"| == 8 && |"suggested"| == 9 && |"gap"| == 3;
  }

  /** With no state selected, the four states' counts sum to the total. */
  lemma OwnershipCountsSum(rows: O.Rows, a: Attributes, q: Request)
    requires Agreeable(rows, q) && (SameLibraries(q) || q.opts.selection.ratings == [])
    requires q.opts.selection.ownership == []
    ensures SumOfCounts(rows, a, q, [OfState("shelf"), OfState("wishlist"), OfState("suggested"), OfState("gap")])
         == ListTotal(rows, a, q)
  {
    forall r ensures Flag(rows, a, q, OwnDim, r) <==> exists p :: p in STATES && Has(a, r, p) {
      EveryStateIsThere(a, r);
    }
    StatesDiffer();
    CoveringCountsSum(rows, a, q, OwnDim, STATES);
  }

  // ---- closed vocabularies -----------------------------------------------------

  datatype FacetValue = FacetValue(value: string, name: string, count: int)

  ghost predicate DistinctValues(got: seq<FacetValue>) {
    forall i, j :: 0 <= i < j < |got| ==> got[i].value != got[j].value
  }

  /** The rows the vocabulary has not heard of. */
  function Unlisted(got: seq<FacetValue>, vocab: seq<string>): seq<FacetValue> {
    if got == [] then []
    else Unlisted(got[..|got| - 1], vocab) + if got[|got| - 1].value in vocab then [] else [got[|got| - 1]]
  }

  /** What a vocabulary value is shown with: its row, or nought. */
  ghost predicate Shown(got: seq<FacetValue>, v: string, fv: FacetValue) {
    && fv.value == v
    && (fv in got || (fv == FacetValue(v, v, 0) && forall g :: g in got ==> g.value != v))
  }

  ghost predicate IsIndex(byValue: map<string, FacetValue>, got: seq<FacetValue>) {
    && (forall i :: 0 <= i < |got| ==> got[i].value in byValue && byValue[got[i].value] == got[i])
    && (forall v :: v in byValue ==> byValue[v].value == v && byValue[v] in got)
  }

  method IndexRows(got: seq<FacetValue>) returns (byValue: map<string, FacetValue>)
    requires DistinctValues(got)
    ensures IsIndex(byValue, got)
  {
    byValue := map[];
    for i := 0 to |got|
      invariant IsIndex(byValue, got[..i])
    {
      assert got[..i + 1] == got[..i] + [got[i]];
      byValue := byValue[got[i].value := got[i]];
    }
    assert got[..|got|] == got;
  }

  method ListVocabulary(got: seq<FacetValue>, byValue: map<string, FacetValue>, vocab: seq<string>)
    returns (out: seq<FacetValue>, left: set<string>)
    requires IsIndex(byValue, got) && forall i, j :: 0 <= i < j < |vocab| ==> vocab[i] != vocab[j]
    ensures |out| == |vocab| && forall i :: 0 <= i < |vocab| ==> Shown(got, vocab[i], out[i])
    ensures forall v :: v in left <==> v in byValue && v !in vocab
  {
    out, left := [], byValue.Keys;
    for i := 0 to |vocab|
      invariant |out| == i && forall j :: 0 <= j < i ==> Shown(got, vocab[j], out[j])
      invariant forall v :: v in left <==> v in byValue && v !in vocab[..i]
    {
      var v := vocab[i];
      assert vocab[..i + 1] == vocab[..i] + [v];
      if v in left {
        out := out + [byValue[v]];
        left := left - {v};
      } else {
        out := out + [FacetValue(v, v, 0)];
      }
      assert Shown(got, v, out[i]);
    }
    assert vocab[..|vocab|] == vocab;
  }

  /** The vocabulary in its own order, every missing value at nought, then what it has not
      heard of in the order it came: no count is lost and no value appears twice. */
  method FillClosed(got: seq<FacetValue>, vocab: seq<string>) returns (out: seq<FacetValue>)
    requires DistinctValues(got) && forall i, j :: 0 <= i < j < |vocab| ==> vocab[i] != vocab[j]
    ensures |out| >= |vocab| && forall i :: 0 <= i < |vocab| ==> Shown(got, vocab[i], out[i])
    ensures out[|vocab|..] == Unlisted(got, vocab)
  {
    var byValue := IndexRows(got);
    var listed, left := ListVocabulary(got, byValue, vocab);
    var unlisted := AddUnlisted(got, vocab, left);
    out := listed + unlisted;
  }

  method AddUnlisted(got: seq<FacetValue>, ghost vocab: seq<string>, unseen: set<string>) returns (out: seq<FacetValue>)
    requires DistinctValues(got)
    requires forall i :: 0 <= i < |got| ==> (got[i].value in unseen <==> got[i].value !in vocab)
    ensures out == Unlisted(got, vocab)
  {
    var left := unseen;
    out := [];
    for i := 0 to |got|
      invariant out == Unlisted(got[..i], vocab)
      invariant forall j :: i <= j < |got| ==> (got[j].value in left <==> got[j].value !in vocab)
    {
      assert got[..i + 1][..i] == got[..i];
      if got[i].value in left {
        out := out + [got[i]];
        left := left - {got[i].value};
      }
    }
    assert got[..|got|] == got;
  }

  lemma {:induction false} UnlistedRows(got: seq<FacetValue>, vocab: seq<string>, fv: FacetValue)
    ensures fv in Unlisted(got, vocab) <==> fv in got && fv.value !in vocab
  {
    if got != [] {
      UnlistedRows(got[..|got| - 1], vocab, fv);
      assert got == got[..|got| - 1] + [got[|got| - 1]];
    }
  }
}
