/** What the book list shows (internal/repository/books.go, buildBookFilter and listScoped).
 */
module ListMeaning {
  // Every option at once, on the tables themselves: the conditions buildBookFilter strings
  // together hold of exactly the books the options describe.

  import opened Wrappers
  import opened BookFilter
  import opened Facets
  import opened Strings
  import T = SearchTerms
  import O = Ownership

  /** The search texts and the rest of the list read the same tables. */
  ghost predicate SameTables(a: Attributes, f: T.Facts) {
    (forall t, b :: a.other(t, b) <==> T.Says(f, t, b)) && f.tags == a.tags + a.gone
  }

  /** The texts of the search box and of the list parameters. */
  predicate SearchText(t: Template) {
    t !in {InSeries, TypeAmong, GenreAmong, TagAmong, ContributorAmong, LocationUnder, UnreadAmong, StatusAmong,
           AverageAmong, Never, MyRatingAmong, FalseAmong, FavouriteAmong, OwnershipAmong}
  }

  lemma TagReadsAlike(a: Attributes, f: T.Facts, v: seq<Value>, b: Id, o: O.State)
    requires SameTables(a, f)
    ensures Holds(a, Test(TagIs, v), b, o) <==> T.Says(f, Test(TagIs, v), b)
  {
    if |v| == 1 && v[0].Text? {
      assert EverTagged(a, b, v[0].text) <==> T.Named(f.tags, b, v[0].text);
    }
  }

  lemma ReadsAlike(a: Attributes, f: T.Facts, t: Test, b: Id, o: O.State)
    requires SameTables(a, f) && SearchText(t.template)
    ensures Holds(a, t, b, o) <==> T.Says(f, t, b)
  {
    if t.template == TagIs {
      TagReadsAlike(a, f, t.values, b, o);
      assert t == Test(TagIs, t.values);
    } else {
      assert Holds(a, t, b, o) <==> a.other(t, b);
    }
  }

  ghost predicate SearchTexts(ts: seq<Tests>) {
    forall i, j :: 0 <= i < |ts| && 0 <= j < |ts[i].tests| ==> SearchText(ts[i].tests[j].template)
  }

  lemma OneReadsAlike(a: Attributes, f: T.Facts, ts: Tests, b: Id, o: O.State)
    requires SameTables(a, f) && forall j :: 0 <= j < |ts.tests| ==> SearchText(ts.tests[j].template)
    ensures ConjunctHolds(a, ts, b, o) <==> T.OneSays(f, ts, b)
  {
    forall j | 0 <= j < |ts.tests| ensures Holds(a, ts.tests[j], b, o) <==> T.Says(f, ts.tests[j], b) {
      ReadsAlike(a, f, ts.tests[j], b, o);
    }
  }

  lemma AllReadAlike(a: Attributes, f: T.Facts, ts: seq<Tests>, b: Id, o: O.State)
    requires SameTables(a, f) && SearchTexts(ts)
    ensures All(a, ts, b, o) <==> T.AllSay(f, ts, b)
  {
    forall i | 0 <= i < |ts| ensures ConjunctHolds(a, ts[i], b, o) <==> T.OneSays(f, ts[i], b) {
      OneReadsAlike(a, f, ts[i], b, o);
    }
  }

  lemma {:induction false} ConditionTexts(cs: seq<FilterCondition>)
    ensures forall j :: 0 <= j < |AskedConditions(cs)| ==> SearchText(AskedConditions(cs)[j].template)
  {
    if cs != [] {
      ConditionTexts(cs[..|cs| - 1]);
      ConditionText(cs[|cs| - 1]);
    }
  }

  lemma ConditionText(c: FilterCondition)
    ensures forall j :: 0 <= j < |AskedCondition(c)| ==> SearchText(AskedCondition(c)[j].template)
  {
  }

  lemma {:induction false} GroupTexts(gs: seq<ConditionGroup>)
    ensures SearchTexts(AskedGroups(gs))
  {
    if gs != [] {
      GroupTexts(gs[..|gs| - 1]);
      ConditionTexts(gs[|gs| - 1].conditions);
    }
  }

  // ---- all the conditions ------------------------------------------------------

  /** The list's conditions, part by part. */
  lemma AskedIsItsParts(a: Attributes, opts: ListOpts, libraries: seq<Id>, b: Id, o: O.State)
    ensures All(a, Asked(libraries, opts), b, o)
       <==> All(a, AskedQuery(opts), b, o) && All(a, AskedLetter(opts), b, o) && All(a, AskedSeries(opts), b, o)
            && All(a, AskedLists(opts), b, o) && All(a, AskedTag(opts), b, o) && All(a, AskedType(opts), b, o)
            && All(a, AskedGroups(opts.groups), b, o) && All(a, AskedPeople(opts.selection), b, o)
            && forall d :: d != LibDim ==> All(a, AskedIn(d, opts.selection, opts.caller, libraries), b, o)
  {
    var asked := [] + AskedQuery(opts);
    AllJoin(a, [], AskedQuery(opts), b, o);
    AllJoin(a, asked, AskedLetter(opts), b, o);
    asked := asked + AskedLetter(opts);
    AllJoin(a, asked, AskedSeries(opts), b, o);
    asked := asked + AskedSeries(opts);
    AllJoin(a, asked, AskedLists(opts), b, o);
    asked := asked + AskedLists(opts);
    AllJoin(a, asked, AskedTag(opts), b, o);
    asked := asked + AskedTag(opts);
    AllJoin(a, asked, AskedType(opts), b, o);
    asked := asked + AskedType(opts);
    AllJoin(a, asked, AskedGroups(opts.groups), b, o);
    SelectionSplits(a, asked + AskedGroups(opts.groups), opts.selection, opts.caller, libraries, b, o);
  }

  /** What the search box and the list parameters ask. */
  ghost predicate SearchFits(f: T.Facts, opts: ListOpts, b: Id) {
    && (opts.query == "" ||
        if opts.isRegex then f.matches(f.title(b), opts.query)
        else
          || f.has(f.title(b), opts.query)
          || (f.letters(DropSpace, opts.query) != ""
              && f.has(f.letters(DropSpace, f.title(b)), f.letters(DropSpace, opts.query)))
          || T.HasIt(f, OnContributor, opts.query, b))
    && (opts.letter == "" ||
        if opts.letter == "#" then |f.sortTitle(b)| > 0 && f.sortTitle(b)[0] in "0123456789"
        else Lowercase(opts.letter) <= Lowercase(f.sortTitle(b)))
    && (opts.tagFilter == "" || T.HasIt(f, OnTag, opts.tagFilter, b))
    && (opts.typeFilter == "" || T.HasIt(f, OnType, opts.typeFilter, b))
    && (opts.shelfIDs == [] ||
        exists l :: l in opts.shelfIDs && (b, l) in f.onList && opts.caller.Some?
          && (opts.caller.value == f.ownerOf(l)
              || (f.sharedWith(l).Some? && (opts.caller.value, f.sharedWith(l).value) in f.mayRead)))
    && forall i :: 0 <= i < |opts.groups| ==> T.GroupIsMeant(f, opts.groups[i], b)
  }

  lemma SearchSays(f: T.Facts, opts: ListOpts, b: Id)
    ensures SearchFits(f, opts, b)
       <==> T.AllSay(f, AskedQuery(opts), b) && T.AllSay(f, AskedLetter(opts), b) && T.AllSay(f, AskedTag(opts), b)
            && T.AllSay(f, AskedType(opts), b) && T.AllSay(f, AskedLists(opts), b)
            && T.AllSay(f, AskedGroups(opts.groups), b)
  {
    T.QueryIsMeant(f, opts, b);
    T.LetterIsMeant(f, opts, b);
    T.TagAndTypeAreMeant(f, opts, b);
    T.ListsAreMeant(f, opts, b);
    T.GroupsAreMeant(f, opts.groups, b);
  }

  lemma ParameterTexts(opts: ListOpts)
    ensures SearchTexts(AskedQuery(opts)) && SearchTexts(AskedLetter(opts)) && SearchTexts(AskedTag(opts))
    ensures SearchTexts(AskedType(opts)) && SearchTexts(AskedLists(opts))
  {
  }

  lemma PartHolds(a: Attributes, f: T.Facts, part: seq<Tests>, b: Id, o: O.State)
    requires SameTables(a, f) && SearchTexts(part)
    ensures All(a, part, b, o) <==> T.AllSay(f, part, b)
  {
    AllReadAlike(a, f, part, b, o);
  }

  lemma SearchHolds(a: Attributes, f: T.Facts, opts: ListOpts, b: Id, o: O.State)
    requires SameTables(a, f)
    ensures SearchFits(f, opts, b)
       <==> All(a, AskedQuery(opts), b, o) && All(a, AskedLetter(opts), b, o) && All(a, AskedTag(opts), b, o)
            && All(a, AskedType(opts), b, o) && All(a, AskedLists(opts), b, o) && All(a, AskedGroups(opts.groups), b, o)
  {
    SearchSays(f, opts, b);
    ParameterTexts(opts);
    GroupTexts(opts.groups);
    AllReadAlike(a, f, AskedQuery(opts), b, o);
    AllReadAlike(a, f, AskedLetter(opts), b, o);
    AllReadAlike(a, f, AskedTag(opts), b, o);
    AllReadAlike(a, f, AskedType(opts), b, o);
    AllReadAlike(a, f, AskedLists(opts), b, o);
    AllReadAlike(a, f, AskedGroups(opts.groups), b, o);
  }

  lemma FlagsHold(rows: O.Rows, a: Attributes, q: Request, libraries: seq<Id>, b: Id, o: O.State)
    ensures (forall d :: d != LibDim ==> All(a, AskedIn(d, q.opts.selection, q.opts.caller, libraries), b, o))
            && All(a, AskedPeople(q.opts.selection), b, o)
       <==> SelectionFits(a, q.opts.selection, libraries, b, o) && OwnMarksFit(a, q.opts.selection, q.opts.caller, b)
  {
    var r := RowOf(a, libraries, q.opts.caller, b, o);
    forall d | d != LibDim
      ensures All(a, AskedIn(d, q.opts.selection, q.opts.caller, libraries), b, o) <==> Flag(rows, a, q, d, r)
    {
      DimensionAgrees(rows, a, q, libraries, d, b, o);
    }
    PeopleAndSeriesAgree(a, q, b, o);
    OwnFlagsMean(rows, a, q, r);
    FlagsMean(rows, a, q, libraries, b, o);
    AllFlags(rows, a, q, r);
  }

  /** The list shows what its options describe, whatever they are: a book is in it exactly
      when it is visible through the libraries ticked, fits every selection, the caller's
      own marks included, is in one of the series, and is found by the search box, the
      letter, the tag, the type, the lists and every group of conditions. */
  lemma TheListIsWhatWasAsked(rows: O.Rows, a: Attributes, f: T.Facts, q: Request, b: Id)
    requires SameTables(a, f)
    ensures b in Listed(rows, a, q)
       <==> b in ListScope(rows, q)
            && SelectionFits(a, q.opts.selection, Narrow(q.ticked, q.readable), b, ListScope(rows, q)[b])
            && OwnMarksFit(a, q.opts.selection, q.opts.caller, b)
            && (q.opts.seriesIDs != [] ==> exists k :: k in q.opts.seriesIDs && (b, k) in a.series)
            && SearchFits(f, q.opts, b)
  {
    if b in ListScope(rows, q) {
      var narrow, o := Narrow(q.ticked, q.readable), ListScope(rows, q)[b];
      AskedIsItsParts(a, q.opts, narrow, b, o);
      FlagsHold(rows, a, q, narrow, b, o);
      PeopleAndSeriesAgree(a, q, b, o);
      SearchHolds(a, f, q.opts, b, o);
    }
  }
}
