/** The query behind the counts (internal/repository/book_facets.go, Facets): what its
    text binds, and that what it binds is what Facets counts by.

    Every dimension's flag, every word and the two places the caller is named at are
    conditions here; which SELECT they stand in does not matter to their numbers.
 */
module RailQuery {
  import opened Wrappers
  import opened BookFilter
  import opened Facets
  import O = Ownership
  import S = Search

  // ---- what is asked -----------------------------------------------------------

  function AskedWords(words: seq<string>): seq<Tests> {
    if words == [] then []
    else AskedWords(words[..|words| - 1]) + Given(true, WordTest(words[|words| - 1]))
  }

  /** The test of a dimension's flag; none when nothing is selected in it. */
  function AskedFlag(q: Request, d: Dim): seq<Tests> {
    var s := q.opts.selection;
    match d
    case OwnDim => AskedOwnership(s)
    case LibDim => Given(q.ticked != [], Test(HeldIn, [Ids(q.ticked)]))
    case StatusDim => Given(s.readStatus != [], Test(StatusNow, [Names(s.readStatus)]))
    case TypeDim => AskedTypes(s)
    case GenreDim => AskedGenres(s)
    case TagDim => AskedTags(s)
    case PlaceDim => AskedPlaces(s)
    case AverageDim => Given(s.ratings != [], Test(AverageNow, [Numbers(s.ratings)]))
    case MineDim => Given(s.myRatings != [], Test(MineNow, [Numbers(s.myRatings)]))
    case FavDim => Given(s.favourites != [], Test(FavouriteNow, [Flags(s.favourites)]))
  }

  /** The lists a caller may see, asked of a ticked shelf and of the shelf counts. */
  function AskedShelves(q: Request): seq<Tests> {
    Given(q.opts.shelfIDs != [],
          Test(OnVisibleShelf, [Ids(q.opts.shelfIDs), UserValue(q.opts.caller), Ids(q.readable)]))
  }

  function AskedLists(q: Request): seq<Tests> {
    Given(true, Test(VisibleLists, [UserValue(q.opts.caller), Ids(q.readable)]))
  }

  /** The caller, for the scope and again for his own marks. */
  function AskedCaller(q: Request, template: Template): seq<Tests> {
    Given(q.opts.caller.Some?, Test(template, [UserValue(q.opts.caller)]))
  }

  function AskedBase(q: Request): seq<Tests> {
    [] + AskedCaller(q, CallersScope) + AskedWords(q.words) + AskedPeople(q.opts.selection) + AskedSeries(q.opts)
    + AskedCaller(q, CallersMarks)
  }

  /** Everything the query asks, in the order it is bound. */
  function AskedRail(q: Request): seq<Tests> {
    AskedBase(q) + AskedFlag(q, OwnDim) + AskedFlag(q, LibDim) + AskedFlag(q, StatusDim)
    + AskedFlag(q, TypeDim) + AskedFlag(q, GenreDim) + AskedFlag(q, TagDim)
    + AskedShelves(q) + AskedFlag(q, PlaceDim)
    + AskedFlag(q, AverageDim) + AskedFlag(q, MineDim) + AskedFlag(q, FavDim)
    + AskedLists(q)
  }

  // ---- the builder -------------------------------------------------------------

  /** A condition with one placeholder: arg() binds the value and names its number. */
  method AddArg(f: Filter, present: bool, template: Template, v: Value, ghost libs: seq<Id>, ghost tests: seq<Tests>)
    returns (g: Filter)
    requires Means(f, [], libs, tests, [])
    ensures Means(g, [], libs, tests + Given(present, Test(template, [v])), [])
  {
    InOrderBinds(Cond(template, [f.argIdx]), f.args, [v]);
    g := AddFilter(f, present, Cond(template, [f.argIdx]), [v], 1, Test(template, [v]), libs, tests);
  }

  /** One condition per word, each reading its word at three consecutive numbers. */
  method AddWords(f: Filter, words: seq<string>, ghost libs: seq<Id>, ghost tests: seq<Tests>) returns (g: Filter)
    requires Means(f, [], libs, tests, [])
    ensures Means(g, [], libs, tests + AskedWords(words), [])
  {
    g := f;
    assert tests + [] == tests;
    for i := 0 to |words|
      invariant Means(g, [], libs, tests + AskedWords(words[..i]), [])
    {
      var base, v := g.argIdx, Text(words[i]);
      var cond := Cond(TitleContains(KeepSpace), [base, base + 1, base + 2]);
      InOrderBinds(cond, g.args, [v, v, v]);
      ghost var before := tests + AskedWords(words[..i]);
      g := AddFilter(g, true, cond, [v, v, v], 3, WordTest(words[i]), libs, before);
      assert words[..i + 1][..i] == words[..i];
      assert before + Given(true, WordTest(words[i])) == tests + AskedWords(words[..i + 1]);
    }
    assert words[..|words|] == words;
  }

  method AddBase(q: Request) returns (g: Filter)
    ensures Means(g, [], q.readable, AskedBase(q), [])
  {
    var u, s, libs := UserValue(q.opts.caller), q.opts.selection, q.readable;
    g := Filter([], [Ids(libs)], 2);
    assert BoundClauses([], g.args) == [] && BoundConds([], g.args) == [];
    g := AddArg(g, q.opts.caller.Some?, CallersScope, u, libs, []);
    ghost var t := [] + AskedCaller(q, CallersScope);
    g := AddWords(g, q.words, libs, t);
    t := t + AskedWords(q.words);
    g := AddArg(g, s.contributors != [], ContributorAmong, Ids(s.contributors), libs, t);
    t := t + AskedPeople(s);
    g := AddArg(g, q.opts.seriesIDs != [], InSeries, Ids(q.opts.seriesIDs), libs, t);
    t := t + AskedSeries(q.opts);
    g := AddArg(g, q.opts.caller.Some?, CallersMarks, u, libs, t);
  }

  method AddFirstFlags(f: Filter, q: Request, ghost tests: seq<Tests>) returns (g: Filter)
    requires Means(f, [], q.readable, tests, [])
    ensures Means(g, [], q.readable, tests + AskedFlag(q, OwnDim) + AskedFlag(q, LibDim) + AskedFlag(q, StatusDim)
                                     + AskedFlag(q, TypeDim) + AskedFlag(q, GenreDim) + AskedFlag(q, TagDim), [])
  {
    var s, libs := q.opts.selection, q.readable;
    ghost var t := tests;
    g := AddArg(f, s.ownership != [], OwnershipAmong, Names(s.ownership), libs, t);
    t := t + AskedFlag(q, OwnDim);
    g := AddArg(g, q.ticked != [], HeldIn, Ids(q.ticked), libs, t);
    t := t + AskedFlag(q, LibDim);
    g := AddArg(g, s.readStatus != [], StatusNow, Names(s.readStatus), libs, t);
    t := t + AskedFlag(q, StatusDim);
    g := AddArg(g, s.mediaTypes != [], TypeAmong, Names(s.mediaTypes), libs, t);
    t := t + AskedFlag(q, TypeDim);
    g := AddArg(g, s.genres != [], GenreAmong, Names(s.genres), libs, t);
    t := t + AskedFlag(q, GenreDim);
    g := AddArg(g, s.tags != [], TagAmong, Names(s.tags), libs, t);
  }

  method AddShelves(f: Filter, q: Request, ghost tests: seq<Tests>) returns (g: Filter)
    requires Means(f, [], q.readable, tests, [])
    ensures Means(g, [], q.readable, tests + AskedShelves(q), [])
  {
    var n, ids, u := f.argIdx, Ids(q.opts.shelfIDs), UserValue(q.opts.caller);
    g := AddFilter(f, q.opts.shelfIDs != [], Cond(OnVisibleShelf, [n, n + 1, 1]), [ids, u], 2,
                   Test(OnVisibleShelf, [ids, u, Ids(q.readable)]), q.readable, tests);
  }

  method AddLastFlags(f: Filter, q: Request, ghost tests: seq<Tests>) returns (g: Filter)
    requires Means(f, [], q.readable, tests, [])
    ensures Means(g, [], q.readable, tests + AskedFlag(q, PlaceDim) + AskedFlag(q, AverageDim)
                                     + AskedFlag(q, MineDim) + AskedFlag(q, FavDim), [])
  {
    var s, libs := q.opts.selection, q.readable;
    ghost var t := tests;
    g := AddArg(f, s.locations != [], LocationUnder, Ids(s.locations), libs, t);
    t := t + AskedFlag(q, PlaceDim);
    g := AddArg(g, s.ratings != [], AverageNow, Numbers(s.ratings), libs, t);
    t := t + AskedFlag(q, AverageDim);
    g := AddArg(g, s.myRatings != [], MineNow, Numbers(s.myRatings), libs, t);
    t := t + AskedFlag(q, MineDim);
    g := AddArg(g, s.favourites != [], FavouriteNow, Flags(s.favourites), libs, t);
  }

  method AddVisibleLists(f: Filter, q: Request, ghost tests: seq<Tests>) returns (g: Filter)
    requires Means(f, [], q.readable, tests, [])
    ensures Means(g, [], q.readable, tests + AskedLists(q), [])
  {
    var u := UserValue(q.opts.caller);
    g := AddFilter(f, true, Cond(VisibleLists, [f.argIdx, 1]), [u], 1,
                   Test(VisibleLists, [u, Ids(q.readable)]), q.readable, tests);
  }

  /** Facets, as far as it binds or mentions anything: every placeholder is bound, nothing
      is bound that the text does not mention, and read back the text asks what was
      asked, a dimension without a selection asking nothing. */
  method BuildRailQuery(q: Request) returns (f: Filter)
    ensures f.argIdx == |f.args| + 1 && |f.args| >= 1 && f.args[0] == Ids(q.readable)
    ensures ClausesInRange(f.conditions, |f.args|) && BoundClauses(f.conditions, f.args) == AskedRail(q)
    ensures forall k: nat :: 1 < k <= |f.args| ==> k in Placeholders(f.conditions)
  {
    f := AddBase(q);
    ghost var t := AskedBase(q);
    f := AddFirstFlags(f, q, t);
    t := t + AskedFlag(q, OwnDim) + AskedFlag(q, LibDim) + AskedFlag(q, StatusDim)
         + AskedFlag(q, TypeDim) + AskedFlag(q, GenreDim) + AskedFlag(q, TagDim);
    f := AddShelves(f, q, t);
    t := t + AskedShelves(q);
    f := AddLastFlags(f, q, t);
    t := t + AskedFlag(q, PlaceDim) + AskedFlag(q, AverageDim) + AskedFlag(q, MineDim) + AskedFlag(q, FavDim);
    f := AddVisibleLists(f, q, t);
    AllMentioned(f, q.readable, t + AskedLists(q));
  }

  // ---- what the text asks is what is counted -----------------------------------

  /** What a condition of the query says of a row of `f`. */
  predicate HoldsNow(rows: O.Rows, a: Attributes, t: Test, r: Row) {
    var one := if |t.values| == 1 then t.values[0] else NoUser;
    match t.template
    case HeldIn => one.Ids? && exists l :: l in one.ids && (l, r.book) in rows.held
    case StatusNow => one.Names? && r.status in one.names
    case AverageNow => one.Numbers? && AmongNumbers(r.average, one.numbers)
    case MineNow => one.Numbers? && AmongNumbers(r.rating, one.numbers)
    case FavouriteNow => one.Flags? && r.favourite in one.flags
    case _ => Holds(a, t, r.book, r.state)
  }

  predicate AllNow(rows: O.Rows, a: Attributes, asked: seq<Tests>, r: Row) {
    forall i :: 0 <= i < |asked| ==> forall t :: t in asked[i].tests ==> HoldsNow(rows, a, t, r)
  }

  lemma GivenNow(rows: O.Rows, a: Attributes, present: bool, t: Test, r: Row)
    ensures AllNow(rows, a, Given(present, t), r) <==> (present ==> HoldsNow(rows, a, t, r))
  {
    if present {
      assert Given(present, t)[0].tests == [t];
      assert t in [t];
    }
  }

  // Dimension by dimension, the flag is what its text asks.

  lemma OwnIsBound(rows: O.Rows, a: Attributes, q: Request, r: Row)
    ensures AllNow(rows, a, AskedFlag(q, OwnDim), r) <==> Flag(rows, a, q, OwnDim, r)
  {
    GivenNow(rows, a, q.opts.selection.ownership != [], Test(OwnershipAmong, [Names(q.opts.selection.ownership)]), r);
  }

  lemma LibIsBound(rows: O.Rows, a: Attributes, q: Request, r: Row)
    ensures AllNow(rows, a, AskedFlag(q, LibDim), r) <==> Flag(rows, a, q, LibDim, r)
  {
    GivenNow(rows, a, q.ticked != [], Test(HeldIn, [Ids(q.ticked)]), r);
  }

  lemma StatusIsBound(rows: O.Rows, a: Attributes, q: Request, r: Row)
    ensures AllNow(rows, a, AskedFlag(q, StatusDim), r) <==> Flag(rows, a, q, StatusDim, r)
  {
    GivenNow(rows, a, q.opts.selection.readStatus != [], Test(StatusNow, [Names(q.opts.selection.readStatus)]), r);
  }

  lemma TypeIsBound(rows: O.Rows, a: Attributes, q: Request, r: Row)
    ensures AllNow(rows, a, AskedFlag(q, TypeDim), r) <==> Flag(rows, a, q, TypeDim, r)
  {
    GivenNow(rows, a, q.opts.selection.mediaTypes != [], Test(TypeAmong, [Names(q.opts.selection.mediaTypes)]), r);
  }

  lemma GenreIsBound(rows: O.Rows, a: Attributes, q: Request, r: Row)
    ensures AllNow(rows, a, AskedFlag(q, GenreDim), r) <==> Flag(rows, a, q, GenreDim, r)
  {
    GivenNow(rows, a, q.opts.selection.genres != [], Test(GenreAmong, [Names(q.opts.selection.genres)]), r);
  }

  lemma TagIsBound(rows: O.Rows, a: Attributes, q: Request, r: Row)
    ensures AllNow(rows, a, AskedFlag(q, TagDim), r) <==> Flag(rows, a, q, TagDim, r)
  {
    GivenNow(rows, a, q.opts.selection.tags != [], Test(TagAmong, [Names(q.opts.selection.tags)]), r);
  }

  lemma PlaceIsBound(rows: O.Rows, a: Attributes, q: Request, r: Row)
    ensures AllNow(rows, a, AskedFlag(q, PlaceDim), r) <==> Flag(rows, a, q, PlaceDim, r)
  {
    GivenNow(rows, a, q.opts.selection.locations != [], Test(LocationUnder, [Ids(q.opts.selection.locations)]), r);
  }

  lemma AverageIsBound(rows: O.Rows, a: Attributes, q: Request, r: Row)
    ensures AllNow(rows, a, AskedFlag(q, AverageDim), r) <==> Flag(rows, a, q, AverageDim, r)
  {
    GivenNow(rows, a, q.opts.selection.ratings != [], Test(AverageNow, [Numbers(q.opts.selection.ratings)]), r);
  }

  lemma MineIsBound(rows: O.Rows, a: Attributes, q: Request, r: Row)
    ensures AllNow(rows, a, AskedFlag(q, MineDim), r) <==> Flag(rows, a, q, MineDim, r)
  {
    GivenNow(rows, a, q.opts.selection.myRatings != [], Test(MineNow, [Numbers(q.opts.selection.myRatings)]), r);
  }

  lemma FavIsBound(rows: O.Rows, a: Attributes, q: Request, r: Row)
    ensures AllNow(rows, a, AskedFlag(q, FavDim), r) <==> Flag(rows, a, q, FavDim, r)
  {
    GivenNow(rows, a, q.opts.selection.favourites != [], Test(FavouriteNow, [Flags(q.opts.selection.favourites)]), r);
  }

  lemma FlagIsBound(rows: O.Rows, a: Attributes, q: Request, d: Dim, r: Row)
    ensures AllNow(rows, a, AskedFlag(q, d), r) <==> Flag(rows, a, q, d, r)
  {
    match d
    case OwnDim => OwnIsBound(rows, a, q, r);
    case LibDim => LibIsBound(rows, a, q, r);
    case StatusDim => StatusIsBound(rows, a, q, r);
    case TypeDim => TypeIsBound(rows, a, q, r);
    case GenreDim => GenreIsBound(rows, a, q, r);
    case TagDim => TagIsBound(rows, a, q, r);
    case PlaceDim => PlaceIsBound(rows, a, q, r);
    case AverageDim => AverageIsBound(rows, a, q, r);
    case MineDim => MineIsBound(rows, a, q, r);
    case FavDim => FavIsBound(rows, a, q, r);
  }

  lemma {:induction false} WordsAreBound(rows: O.Rows, a: Attributes, words: seq<string>, r: Row)
    ensures AllNow(rows, a, AskedWords(words), r) <==> forall w :: w in words ==> a.other(WordTest(w), r.book)
  {
    if words != [] {
      var front, last := words[..|words| - 1], words[|words| - 1];
      WordsAreBound(rows, a, front, r);
      OneMoreNow(rows, a, AskedWords(front), WordTest(last), r);
      WordHolds(a, last, r.book, r.state);
      assert words == front + [last];
    }
  }

  lemma OneMoreNow(rows: O.Rows, a: Attributes, asked: seq<Tests>, t: Test, r: Row)
    ensures AllNow(rows, a, asked + Given(true, t), r) <==> AllNow(rows, a, asked, r) && HoldsNow(rows, a, t, r)
  {
    var all := asked + Given(true, t);
    if AllNow(rows, a, all, r) {
      assert t in all[|asked|].tests;
      forall i | 0 <= i < |asked| ensures forall u :: u in asked[i].tests ==> HoldsNow(rows, a, u, r) {
        assert all[i] == asked[i];
      }
    }
  }

  lemma PeopleAreBound(rows: O.Rows, a: Attributes, q: Request, r: Row)
    ensures AllNow(rows, a, AskedPeople(q.opts.selection), r) <==> PeopleHold(a, q, r.book)
  {
    var people := q.opts.selection.contributors;
    GivenNow(rows, a, people != [], Test(ContributorAmong, [Ids(people)]), r);
  }

  lemma SeriesIsBound(rows: O.Rows, a: Attributes, q: Request, r: Row)
    ensures AllNow(rows, a, AskedSeries(q.opts), r) <==> SeriesHold(a, q, r.book)
  {
    GivenNow(rows, a, q.opts.seriesIDs != [], Test(InSeries, [Ids(q.opts.seriesIDs)]), r);
  }

  lemma CountedBySections(rows: O.Rows, a: Attributes, q: Request, p: Pick, b: Id)
    ensures b in Counted(rows, a, q, p)
       <==> b in RailScope(rows, q)
            && var r := RowOf(a, q.readable, q.opts.caller, b, RailScope(rows, q)[b]);
               && AllNow(rows, a, AskedWords(q.words), r)
               && AllNow(rows, a, AskedPeople(q.opts.selection), r) && AllNow(rows, a, AskedSeries(q.opts), r)
               && (forall d :: d != DimOf(p) ==> AllNow(rows, a, AskedFlag(q, d), r))
               && Has(a, r, p)
  {
    if b in RailScope(rows, q) {
      var r := RowOf(a, q.readable, q.opts.caller, b, RailScope(rows, q)[b]);
      WordsAreBound(rows, a, q.words, r);
      PeopleAreBound(rows, a, q, r);
      SeriesIsBound(rows, a, q, r);
      forall d ensures AllNow(rows, a, AskedFlag(q, d), r) <==> Flag(rows, a, q, d, r) {
        FlagIsBound(rows, a, q, d, r);
      }
    }
  }

  // ---- the whole text, read without the request --------------------------------

  /** The dimension a condition is the flag of. */
  function FlagOf(t: Template): Option<Dim> {
    match t
    case OwnershipAmong => Some(OwnDim)
    case HeldIn => Some(LibDim)
    case StatusNow => Some(StatusDim)
    case TypeAmong => Some(TypeDim)
    case GenreAmong => Some(GenreDim)
    case TagAmong => Some(TagDim)
    case LocationUnder => Some(PlaceDim)
    case AverageNow => Some(AverageDim)
    case MineNow => Some(MineDim)
    case FavouriteNow => Some(FavDim)
    case _ => None
  }

  /** Where the text names a caller, or the lists it counts beside the books. */
  predicate Aside(t: Template) { t in {CallersScope, CallersMarks, OnVisibleShelf, VisibleLists} }

  /** All the text says of a row, but for the flag of one dimension. */
  predicate Says(rows: O.Rows, a: Attributes, asked: seq<Tests>, but: Dim, r: Row) {
    forall i :: 0 <= i < |asked| ==> SaysOne(rows, a, asked[i], but, r)
  }

  predicate SaysOne(rows: O.Rows, a: Attributes, ts: Tests, but: Dim, r: Row) {
    forall t :: t in ts.tests && !Aside(t.template) && FlagOf(t.template) != Some(but) ==> HoldsNow(rows, a, t, r)
  }

  /** What one condition, or a text, names at a place. */
  function NamedIn(ts: Tests, place: Template): set<seq<Value>> {
    set t | t in ts.tests && t.template == place :: t.values
  }

  function NamedAt(asked: seq<Tests>, place: Template): set<seq<Value>> {
    if asked == [] then {} else NamedAt(asked[..|asked| - 1], place) + NamedIn(asked[|asked| - 1], place)
  }

  /** The text names this caller at a place: his id once, or nothing at all. */
  predicate NamesOnce(asked: seq<Tests>, place: Template, caller: Option<Id>) {
    NamedAt(asked, place) == if caller.Some? then {[User(caller.value)]} else {}
  }

  /** What a text counts beside a value: the books of the scope of the caller it names
      there, each with the marks of the caller it names for those. */
  predicate TextCounts(rows: O.Rows, a: Attributes, libs: seq<Id>, scoped: Option<Id>, marked: Option<Id>,
                       asked: seq<Tests>, p: Pick, b: Id) {
    var scope := ScopeOf(rows, libs, scoped);
    b in scope && var r := RowOf(a, libs, marked, b, scope[b]); Says(rows, a, asked, DimOf(p), r) && Has(a, r, p)
  }

  lemma SaysJoin(rows: O.Rows, a: Attributes, xs: seq<Tests>, ys: seq<Tests>, but: Dim, r: Row)
    ensures Says(rows, a, xs + ys, but, r) <==> Says(rows, a, xs, but, r) && Says(rows, a, ys, but, r)
  {
    var all := xs + ys;
    if Says(rows, a, all, but, r) {
      forall i | 0 <= i < |xs| ensures SaysOne(rows, a, xs[i], but, r) { assert all[i] == xs[i]; }
      forall i | 0 <= i < |ys| ensures SaysOne(rows, a, ys[i], but, r) { assert all[|xs| + i] == ys[i]; }
    }
  }

  lemma {:induction false} NamedJoin(xs: seq<Tests>, ys: seq<Tests>, place: Template)
    ensures NamedAt(xs + ys, place) == NamedAt(xs, place) + NamedAt(ys, place)
    decreases |ys|
  {
    if ys == [] {
      assert xs + ys == xs;
    } else {
      assert (xs + ys)[..|xs + ys| - 1] == xs + ys[..|ys| - 1];
      NamedJoin(xs, ys[..|ys| - 1], place);
    }
  }

  lemma NamedGiven(present: bool, t: Test, place: Template)
    ensures NamedAt(Given(present, t), place) == if present && t.template == place then {t.values} else {}
  {
    if present {
      var g := Given(present, t);
      assert g == [Tests(false, [t])] && g[..0] == [];
      assert t in [t];
    }
  }

  lemma SaysGiven(rows: O.Rows, a: Attributes, present: bool, t: Test, but: Dim, r: Row)
    ensures Says(rows, a, Given(present, t), but, r)
       <==> (present && !Aside(t.template) && FlagOf(t.template) != Some(but) ==> HoldsNow(rows, a, t, r))
  {
    if present {
      assert Given(present, t)[0].tests == [t];
      assert t in [t];
      assert SaysOne(rows, a, Given(present, t)[0], but, r)
        <==> (!Aside(t.template) && FlagOf(t.template) != Some(but) ==> HoldsNow(rows, a, t, r));
    }
  }

  function FlagGiven(q: Request, d: Dim): bool {
    var s := q.opts.selection;
    match d
    case OwnDim => s.ownership != []
    case LibDim => q.ticked != []
    case StatusDim => s.readStatus != []
    case TypeDim => s.mediaTypes != []
    case GenreDim => s.genres != []
    case TagDim => s.tags != []
    case PlaceDim => s.locations != []
    case AverageDim => s.ratings != []
    case MineDim => s.myRatings != []
    case FavDim => s.favourites != []
  }

  function FlagTest(q: Request, d: Dim): (t: Test)
    ensures FlagOf(t.template) == Some(d)
  {
    var s := q.opts.selection;
    match d
    case OwnDim => Test(OwnershipAmong, [Names(s.ownership)])
    case LibDim => Test(HeldIn, [Ids(q.ticked)])
    case StatusDim => Test(StatusNow, [Names(s.readStatus)])
    case TypeDim => Test(TypeAmong, [Names(s.mediaTypes)])
    case GenreDim => Test(GenreAmong, [Names(s.genres)])
    case TagDim => Test(TagAmong, [Names(s.tags)])
    case PlaceDim => Test(LocationUnder, [Ids(s.locations)])
    case AverageDim => Test(AverageNow, [Numbers(s.ratings)])
    case MineDim => Test(MineNow, [Numbers(s.myRatings)])
    case FavDim => Test(FavouriteNow, [Flags(s.favourites)])
  }

  /** A dimension's flag is one condition of its own. */
  lemma FlagIsGiven(q: Request, d: Dim)
    ensures AskedFlag(q, d) == Given(FlagGiven(q, d), FlagTest(q, d))
  {
  }

  lemma FlagSays(rows: O.Rows, a: Attributes, q: Request, d: Dim, but: Dim, r: Row)
    ensures Says(rows, a, AskedFlag(q, d), but, r) <==> d == but || AllNow(rows, a, AskedFlag(q, d), r)
  {
    FlagIsGiven(q, d);
    GivenSays(rows, a, FlagGiven(q, d), FlagTest(q, d), d, but, r);
  }

  lemma GivenSays(rows: O.Rows, a: Attributes, present: bool, t: Test, d: Dim, but: Dim, r: Row)
    requires FlagOf(t.template) == Some(d)
    ensures Says(rows, a, Given(present, t), but, r) <==> d == but || AllNow(rows, a, Given(present, t), r)
  {
    SaysGiven(rows, a, present, t, but, r);
    GivenNow(rows, a, present, t, r);
  }

  lemma FlagNamesNobody(q: Request, d: Dim, place: Template)
    requires Aside(place)
    ensures NamedAt(AskedFlag(q, d), place) == {}
  {
    FlagIsGiven(q, d);
    NamedGiven(FlagGiven(q, d), FlagTest(q, d), place);
  }

  lemma {:induction false} WordsSay(rows: O.Rows, a: Attributes, words: seq<string>, but: Dim, r: Row)
    ensures Says(rows, a, AskedWords(words), but, r) <==> AllNow(rows, a, AskedWords(words), r)
  {
    if words != [] {
      var front, t := words[..|words| - 1], WordTest(words[|words| - 1]);
      WordsSay(rows, a, front, but, r);
      SaysJoin(rows, a, AskedWords(front), Given(true, t), but, r);
      SaysGiven(rows, a, true, t, but, r);
      OneMoreNow(rows, a, AskedWords(front), t, r);
    }
  }

  lemma {:induction false} WordsNameNobody(words: seq<string>, place: Template)
    requires Aside(place)
    ensures NamedAt(AskedWords(words), place) == {}
  {
    if words != [] {
      var front, t := words[..|words| - 1], WordTest(words[|words| - 1]);
      WordsNameNobody(front, place);
      NamedJoin(AskedWords(front), Given(true, t), place);
      NamedGiven(true, t, place);
    }
  }

  predicate BaseSays(rows: O.Rows, a: Attributes, q: Request, r: Row) {
    && AllNow(rows, a, AskedWords(q.words), r)
    && AllNow(rows, a, AskedPeople(q.opts.selection), r) && AllNow(rows, a, AskedSeries(q.opts), r)
  }

  lemma CallerSaid(rows: O.Rows, a: Attributes, q: Request, place: Template, but: Dim, r: Row)
    requires Aside(place)
    ensures Says(rows, a, AskedCaller(q, place), but, r)
  {
    SaysGiven(rows, a, q.opts.caller.Some?, Test(place, [UserValue(q.opts.caller)]), but, r);
  }

  lemma PeopleSaid(rows: O.Rows, a: Attributes, q: Request, but: Dim, r: Row)
    ensures Says(rows, a, AskedPeople(q.opts.selection), but, r) <==> AllNow(rows, a, AskedPeople(q.opts.selection), r)
  {
    var ids := q.opts.selection.contributors;
    SaysGiven(rows, a, ids != [], Test(ContributorAmong, [Ids(ids)]), but, r);
    GivenNow(rows, a, ids != [], Test(ContributorAmong, [Ids(ids)]), r);
  }

  lemma SeriesSaid(rows: O.Rows, a: Attributes, q: Request, but: Dim, r: Row)
    ensures Says(rows, a, AskedSeries(q.opts), but, r) <==> AllNow(rows, a, AskedSeries(q.opts), r)
  {
    var ids := q.opts.seriesIDs;
    SaysGiven(rows, a, ids != [], Test(InSeries, [Ids(ids)]), but, r);
    GivenNow(rows, a, ids != [], Test(InSeries, [Ids(ids)]), r);
  }

  lemma FiveSaid(rows: O.Rows, a: Attributes, t: seq<Tests>, u: seq<Tests>, v: seq<Tests>, w: seq<Tests>, x: seq<Tests>,
                 but: Dim, r: Row)
    ensures Says(rows, a, [] + t + u + v + w + x, but, r)
       <==> Says(rows, a, t, but, r) && Says(rows, a, u, but, r) && Says(rows, a, v, but, r) && Says(rows, a, w, but, r)
            && Says(rows, a, x, but, r)
  {
    SaysJoin(rows, a, [], t, but, r);
    SaysJoin(rows, a, [] + t, u, but, r);
    SaysJoin(rows, a, [] + t + u, v, but, r);
    SaysJoin(rows, a, [] + t + u + v, w, but, r);
    SaysJoin(rows, a, [] + t + u + v + w, x, but, r);
  }

  lemma FiveNamed(t: seq<Tests>, u: seq<Tests>, v: seq<Tests>, w: seq<Tests>, x: seq<Tests>, place: Template)
    ensures NamedAt([] + t + u + v + w + x, place)
         == NamedAt(t, place) + NamedAt(u, place) + NamedAt(v, place) + NamedAt(w, place) + NamedAt(x, place)
  {
    assert [] + t == t;
    NamedJoin(t, u, place);
    NamedJoin([] + t + u, v, place);
    NamedJoin([] + t + u + v, w, place);
    NamedJoin([] + t + u + v + w, x, place);
  }

  /** The text's base: the words, the people and the series. */
  lemma BaseIsSaid(rows: O.Rows, a: Attributes, q: Request, but: Dim, r: Row)
    ensures Says(rows, a, AskedBase(q), but, r) <==> BaseSays(rows, a, q, r)
  {
    CallerSaid(rows, a, q, CallersScope, but, r);
    WordsSay(rows, a, q.words, but, r);
    PeopleSaid(rows, a, q, but, r);
    SeriesSaid(rows, a, q, but, r);
    CallerSaid(rows, a, q, CallersMarks, but, r);
    FiveSaid(rows, a, AskedCaller(q, CallersScope), AskedWords(q.words), AskedPeople(q.opts.selection),
             AskedSeries(q.opts), AskedCaller(q, CallersMarks), but, r);
  }

  lemma PeopleNameNobody(q: Request, place: Template)
    requires Aside(place)
    ensures NamedAt(AskedPeople(q.opts.selection), place) == {} && NamedAt(AskedSeries(q.opts), place) == {}
  {
    var people, series := q.opts.selection.contributors, q.opts.seriesIDs;
    NamedGiven(people != [], Test(ContributorAmong, [Ids(people)]), place);
    NamedGiven(series != [], Test(InSeries, [Ids(series)]), place);
  }

  lemma BaseNames(q: Request, place: Template)
    requires Aside(place)
    ensures NamedAt(AskedBase(q), place)
         == NamedAt(AskedCaller(q, CallersScope), place) + NamedAt(AskedCaller(q, CallersMarks), place)
  {
    WordsNameNobody(q.words, place);
    PeopleNameNobody(q, place);
    FiveNamed(AskedCaller(q, CallersScope), AskedWords(q.words), AskedPeople(q.opts.selection),
              AskedSeries(q.opts), AskedCaller(q, CallersMarks), place);
  }

  predicate FlagSaid(rows: O.Rows, a: Attributes, q: Request, d: Dim, but: Dim, r: Row) {
    d == but || AllNow(rows, a, AskedFlag(q, d), r)
  }

  /** What the text says in its first seven sections, in the next five, and in the last. */
  function UpToTags(q: Request): seq<Tests> {
    AskedBase(q) + AskedFlag(q, OwnDim) + AskedFlag(q, LibDim) + AskedFlag(q, StatusDim)
    + AskedFlag(q, TypeDim) + AskedFlag(q, GenreDim) + AskedFlag(q, TagDim)
  }

  lemma SevenSaid(rows: O.Rows, a: Attributes, t: seq<Tests>, u: seq<Tests>, v: seq<Tests>, w: seq<Tests>,
                  x: seq<Tests>, y: seq<Tests>, z: seq<Tests>, but: Dim, r: Row)
    ensures Says(rows, a, t + u + v + w + x + y + z, but, r)
       <==> Says(rows, a, t, but, r) && Says(rows, a, u, but, r) && Says(rows, a, v, but, r) && Says(rows, a, w, but, r)
            && Says(rows, a, x, but, r) && Says(rows, a, y, but, r) && Says(rows, a, z, but, r)
  {
    SaysJoin(rows, a, t, u, but, r);
    SaysJoin(rows, a, t + u, v, but, r);
    SaysJoin(rows, a, t + u + v, w, but, r);
    SaysJoin(rows, a, t + u + v + w, x, but, r);
    SaysJoin(rows, a, t + u + v + w + x, y, but, r);
    SaysJoin(rows, a, t + u + v + w + x + y, z, but, r);
  }

  lemma SevenNamed(t: seq<Tests>, u: seq<Tests>, v: seq<Tests>, w: seq<Tests>,
                   x: seq<Tests>, y: seq<Tests>, z: seq<Tests>, place: Template)
    ensures NamedAt(t + u + v + w + x + y + z, place)
         == NamedAt(t, place) + NamedAt(u, place) + NamedAt(v, place) + NamedAt(w, place) + NamedAt(x, place)
            + NamedAt(y, place) + NamedAt(z, place)
  {
    NamedJoin(t, u, place);
    NamedJoin(t + u, v, place);
    NamedJoin(t + u + v, w, place);
    NamedJoin(t + u + v + w, x, place);
    NamedJoin(t + u + v + w + x, y, place);
    NamedJoin(t + u + v + w + x + y, z, place);
  }

  lemma UpToTagsSaid(rows: O.Rows, a: Attributes, q: Request, but: Dim, r: Row)
    ensures Says(rows, a, UpToTags(q), but, r)
       <==> BaseSays(rows, a, q, r) && FlagSaid(rows, a, q, OwnDim, but, r) && FlagSaid(rows, a, q, LibDim, but, r)
            && FlagSaid(rows, a, q, StatusDim, but, r) && FlagSaid(rows, a, q, TypeDim, but, r)
            && FlagSaid(rows, a, q, GenreDim, but, r) && FlagSaid(rows, a, q, TagDim, but, r)
  {
    BaseIsSaid(rows, a, q, but, r);
    FlagSays(rows, a, q, OwnDim, but, r);
    FlagSays(rows, a, q, LibDim, but, r);
    FlagSays(rows, a, q, StatusDim, but, r);
    FlagSays(rows, a, q, TypeDim, but, r);
    FlagSays(rows, a, q, GenreDim, but, r);
    FlagSays(rows, a, q, TagDim, but, r);
    SevenSaid(rows, a, AskedBase(q), AskedFlag(q, OwnDim), AskedFlag(q, LibDim), AskedFlag(q, StatusDim),
              AskedFlag(q, TypeDim), AskedFlag(q, GenreDim), AskedFlag(q, TagDim), but, r);
  }

  lemma ListsSaid(rows: O.Rows, a: Attributes, q: Request, but: Dim, r: Row)
    ensures Says(rows, a, AskedShelves(q), but, r) && Says(rows, a, AskedLists(q), but, r)
  {
    var u, ids := UserValue(q.opts.caller), q.opts.shelfIDs;
    SaysGiven(rows, a, ids != [], Test(OnVisibleShelf, [Ids(ids), u, Ids(q.readable)]), but, r);
    SaysGiven(rows, a, true, Test(VisibleLists, [u, Ids(q.readable)]), but, r);
  }

  lemma SectionsSaid(rows: O.Rows, a: Attributes, q: Request, but: Dim, r: Row)
    ensures Says(rows, a, AskedRail(q), but, r)
       <==> Says(rows, a, UpToTags(q), but, r) && FlagSaid(rows, a, q, PlaceDim, but, r)
            && FlagSaid(rows, a, q, AverageDim, but, r) && FlagSaid(rows, a, q, MineDim, but, r)
            && FlagSaid(rows, a, q, FavDim, but, r)
  {
    ListsSaid(rows, a, q, but, r);
    FlagSays(rows, a, q, PlaceDim, but, r);
    FlagSays(rows, a, q, AverageDim, but, r);
    FlagSays(rows, a, q, MineDim, but, r);
    FlagSays(rows, a, q, FavDim, but, r);
    SevenSaid(rows, a, UpToTags(q), AskedShelves(q), AskedFlag(q, PlaceDim), AskedFlag(q, AverageDim),
              AskedFlag(q, MineDim), AskedFlag(q, FavDim), AskedLists(q), but, r);
  }

  /** The whole text says of a row the base and every flag but one. */
  lemma RailSays(rows: O.Rows, a: Attributes, q: Request, but: Dim, r: Row)
    ensures Says(rows, a, AskedRail(q), but, r)
       <==> BaseSays(rows, a, q, r) && forall d: Dim :: FlagSaid(rows, a, q, d, but, r)
  {
    SectionsSaid(rows, a, q, but, r);
    UpToTagsSaid(rows, a, q, but, r);
    if Says(rows, a, AskedRail(q), but, r) {
      forall d: Dim ensures FlagSaid(rows, a, q, d, but, r) {
        match d {
          case OwnDim => case LibDim => case StatusDim => case TypeDim => case GenreDim =>
          case TagDim => case PlaceDim => case AverageDim => case MineDim => case FavDim =>
        }
      }
    }
  }

  /** What the text names: the base its callers, and the rest the lists. */
  lemma RailNames(q: Request, place: Template)
    requires Aside(place)
    ensures NamedAt(AskedRail(q), place)
         == NamedAt(AskedBase(q), place) + NamedAt(AskedShelves(q), place) + NamedAt(AskedLists(q), place)
  {
    forall d: Dim ensures NamedAt(AskedFlag(q, d), place) == {} { FlagNamesNobody(q, d, place); }
    SevenNamed(AskedBase(q), AskedFlag(q, OwnDim), AskedFlag(q, LibDim), AskedFlag(q, StatusDim),
               AskedFlag(q, TypeDim), AskedFlag(q, GenreDim), AskedFlag(q, TagDim), place);
    SevenNamed(UpToTags(q), AskedShelves(q), AskedFlag(q, PlaceDim), AskedFlag(q, AverageDim),
               AskedFlag(q, MineDim), AskedFlag(q, FavDim), AskedLists(q), place);
  }

  /** Whom and what the text names: the caller for the scope and for the marks, and for
      the lists the caller with the libraries he may read, beside the ticked shelves. */
  lemma TextNames(q: Request)
    ensures NamesOnce(AskedRail(q), CallersScope, q.opts.caller)
    ensures NamesOnce(AskedRail(q), CallersMarks, q.opts.caller)
    ensures NamedAt(AskedRail(q), VisibleLists) == {[UserValue(q.opts.caller), Ids(q.readable)]}
    ensures NamedAt(AskedRail(q), OnVisibleShelf)
         == if q.opts.shelfIDs == [] then {} else {[Ids(q.opts.shelfIDs), UserValue(q.opts.caller), Ids(q.readable)]}
  {
    ScopeIsNamed(q);
    MarksAreNamed(q);
    ListsAreNamed(q);
    ShelvesAreNamed(q);
  }

  /** The sections that name anything, each at its own place. */
  lemma CallersName(q: Request, at: Template, place: Template)
    ensures NamedAt(AskedCaller(q, at), place)
         == if q.opts.caller.Some? && place == at then {[UserValue(q.opts.caller)]} else {}
  {
    NamedGiven(q.opts.caller.Some?, Test(at, [UserValue(q.opts.caller)]), place);
  }

  lemma ShelvesName(q: Request, place: Template)
    ensures NamedAt(AskedShelves(q), place)
         == if q.opts.shelfIDs != [] && place == OnVisibleShelf
            then {[Ids(q.opts.shelfIDs), UserValue(q.opts.caller), Ids(q.readable)]} else {}
  {
    var u, ids := UserValue(q.opts.caller), q.opts.shelfIDs;
    NamedGiven(ids != [], Test(OnVisibleShelf, [Ids(ids), u, Ids(q.readable)]), place);
  }

  lemma ListsName(q: Request, place: Template)
    ensures NamedAt(AskedLists(q), place)
         == if place == VisibleLists then {[UserValue(q.opts.caller), Ids(q.readable)]} else {}
  {
    NamedGiven(true, Test(VisibleLists, [UserValue(q.opts.caller), Ids(q.readable)]), place);
  }

  lemma SectionsName(q: Request, place: Template)
    requires Aside(place)
    ensures NamedAt(AskedRail(q), place)
         == NamedAt(AskedCaller(q, CallersScope), place) + NamedAt(AskedCaller(q, CallersMarks), place)
            + NamedAt(AskedShelves(q), place) + NamedAt(AskedLists(q), place)
  {
    RailNames(q, place);
    BaseNames(q, place);
  }

  lemma ScopeIsNamed(q: Request)
    ensures NamesOnce(AskedRail(q), CallersScope, q.opts.caller)
  {
    SectionsName(q, CallersScope);
    CallersName(q, CallersScope, CallersScope);
    CallersName(q, CallersMarks, CallersScope);
    ShelvesName(q, CallersScope);
    ListsName(q, CallersScope);
  }

  lemma MarksAreNamed(q: Request)
    ensures NamesOnce(AskedRail(q), CallersMarks, q.opts.caller)
  {
    SectionsName(q, CallersMarks);
    CallersName(q, CallersScope, CallersMarks);
    CallersName(q, CallersMarks, CallersMarks);
    ShelvesName(q, CallersMarks);
    ListsName(q, CallersMarks);
  }

  lemma ListsAreNamed(q: Request)
    ensures NamedAt(AskedRail(q), VisibleLists) == {[UserValue(q.opts.caller), Ids(q.readable)]}
  {
    SectionsName(q, VisibleLists);
    CallersName(q, CallersScope, VisibleLists);
    CallersName(q, CallersMarks, VisibleLists);
    ShelvesName(q, VisibleLists);
    ListsName(q, VisibleLists);
  }

  lemma ShelvesAreNamed(q: Request)
    ensures NamedAt(AskedRail(q), OnVisibleShelf)
         == if q.opts.shelfIDs == [] then {} else {[Ids(q.opts.shelfIDs), UserValue(q.opts.caller), Ids(q.readable)]}
  {
    SectionsName(q, OnVisibleShelf);
    CallersName(q, CallersScope, OnVisibleShelf);
    CallersName(q, CallersMarks, OnVisibleShelf);
    ShelvesName(q, OnVisibleShelf);
    ListsName(q, OnVisibleShelf);
  }

  /** A book is counted beside a value exactly when the text, read by itself, counts it:
      whatever callers the text names, the book is in the scope of the one, all it says
      but for the value's own flag holds of the book with the other's marks, and the value
      is the book's own. */
  lemma CountedAsBound(rows: O.Rows, a: Attributes, q: Request, p: Pick, b: Id,
                       scoped: Option<Id>, marked: Option<Id>)
    requires NamesOnce(AskedRail(q), CallersScope, scoped) && NamesOnce(AskedRail(q), CallersMarks, marked)
    ensures b in Counted(rows, a, q, p) <==> TextCounts(rows, a, q.readable, scoped, marked, AskedRail(q), p, b)
  {
    TextNames(q);
    OneCaller(AskedRail(q), CallersScope, scoped, q.opts.caller);
    OneCaller(AskedRail(q), CallersMarks, marked, q.opts.caller);
    CountedBySections(rows, a, q, p, b);
    if b in RailScope(rows, q) {
      var r := RowOf(a, q.readable, q.opts.caller, b, RailScope(rows, q)[b]);
      RailSays(rows, a, q, DimOf(p), r);
      assert forall d: Dim :: FlagSaid(rows, a, q, d, DimOf(p), r)
                              <==> (d != DimOf(p) ==> AllNow(rows, a, AskedFlag(q, d), r));
    }
  }

  lemma OneCaller(asked: seq<Tests>, place: Template, one: Option<Id>, other: Option<Id>)
    requires NamesOnce(asked, place, one) && NamesOnce(asked, place, other)
    ensures one == other
  {
    if one.Some? {
      assert [User(one.value)] in NamedAt(asked, place);
      assert [User(one.value)][0] == User(one.value);
    }
    if other.Some? {
      assert [User(other.value)] in NamedAt(asked, place);
    }
  }

  lemma {:induction false} SameTitles(words: seq<string>)
    ensures WordConditions(words) == S.Titles(words)
  {
    if words != [] {
      SameTitles(words[..|words| - 1]);
    }
  }

  /** The list has the words the counts have: typed with blanks between them they are what
      the list's parser makes its one group of, none of them being a keyword or marked. */
  lemma WordsAreTyped(words: seq<string>)
    requires forall i :: 0 <= i < |words| ==> S.Plain(words[i]) && !S.Keyword(words[i])
    ensures WordGroups(words) == S.Groups(S.Spaced(words))
    ensures |S.Spaced(words)| == Typed(words)
  {
    SameTitles(words);
    S.WordsMakeOneGroup(words);
    SpacedLength(words);
  }

  lemma {:induction false} SpacedLength(words: seq<string>)
    ensures |S.Spaced(words)| == Typed(words)
  {
    if |words| > 1 {
      SpacedLength(words[1..]);
    }
  }
}
