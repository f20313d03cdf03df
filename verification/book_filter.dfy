/** Building the SQL of the book list (internal/repository/books.go).

    The builder keeps conditions, bound arguments and the number of the next
    placeholder in step by hand through several dozen branches. The model keeps the
    conditions as templates with the placeholder numbers they mention, so that what a
    query means can be read back: substitute the bound arguments and compare with the
    condition that was asked for.
 */
module BookFilter {
  import opened Wrappers

  type Id = nat

  /** A bound argument. */
  datatype Value =
    | Text(text: string)
    | Lowered(text: string)      // strings.ToLower
    | Digit                      // the pattern ^\d
    | Ids(ids: seq<Id>)
    | Names(names: seq<string>)
    | Numbers(numbers: seq<int>)
    | Flags(flags: seq<bool>)
    | User(user: Id)
    | NoUser
    | Limit(n: int)

  /** Whether titles are compared with spaces kept or dropped. */
  datatype Norm = KeepSpace | DropSpace

  /** The SQL texts, without their placeholders. */
  datatype Template =
    | TitleRegex | TitleContains(norm: Norm) | TitlePhrase | TitleLacks
    | SortTitleRegex | SortTitlePrefix
    | InSeries | OnVisibleList
    | TagIs | TagIsNot | TypeIs | TypeIsNot
    | ContributorLike | ContributorUnlike
    | GenreIs | GenreIsNot | SeriesIs | SeriesIsNot | ShelfIs | ShelfIsNot
    | PublisherIs | PublisherIsNot | LanguageIs | LanguageIsNot
    | HasCover | HasNoCover
    | TypeAmong | GenreAmong | TagAmong | ContributorAmong | LocationUnder
    | UnreadAmong | StatusAmong | AverageAmong | Never | MyRatingAmong
    | FalseAmong | FavouriteAmong | OwnershipAmong
    | SortBySeries | SortByShelf | SortByAdded
    | CallersScope | CallersMarks | HeldIn | StatusNow | AverageNow | MineNow | FavouriteNow
    | OnVisibleShelf | VisibleLists

  /** A template with the placeholders it mentions, in the order it mentions them. */
  datatype Cond = Cond(template: Template, at: seq<nat>)

  /** One conjunct of the WHERE: conditions joined by AND, or by OR. */
  datatype Clause = Clause(any: bool, conds: seq<Cond>)

  /** A condition with its values in place: what was asked for. */
  datatype Test = Test(template: Template, values: seq<Value>)

  datatype Tests = Tests(any: bool, tests: seq<Test>)

  // ---- the options -------------------------------------------------------------

  datatype Field =
    | OnTitle | OnType | OnTag | OnContributor | OnGenre | OnSeries | OnShelf
    | OnPublisher | OnLanguage | OnCover | OnLetter | OtherField

  datatype Op = Contains | NotContains | Equals | NotEquals | Regex | Phrase | OtherOp

  datatype FilterCondition = FilterCondition(field: Field, op: Op, value: string)

  datatype ConditionGroup = ConditionGroup(any: bool, conditions: seq<FilterCondition>)

  datatype Selection = Selection(
    ownership: seq<string>, mediaTypes: seq<string>, genres: seq<string>, tags: seq<string>,
    contributors: seq<Id>, locations: seq<Id>, readStatus: seq<string>,
    ratings: seq<int>, myRatings: seq<int>, favourites: seq<bool>)

  datatype SortField = ByTitle | ByAuthor | BySeries | ByShelf | ByAdded | ByYear | ByCreated | ByMediaType

  datatype SortKey = SortKey(field: SortField, desc: bool, mixed: bool)

  datatype ListOpts = ListOpts(
    query: string, isRegex: bool, letter: string, seriesIDs: seq<Id>, shelfIDs: seq<Id>,
    tagFilter: string, typeFilter: string, groups: seq<ConditionGroup>, caller: Option<Id>,
    selection: Selection, sortKeys: seq<SortKey>, sort: string, sortDir: string, page: int, perPage: int)

  const MAX_VALUE := 200

  // ---- what was asked for ------------------------------------------------------

  /** The test a parsed search condition stands for; none for a value that is too long
      or a field and operator that do not go together. */
  function AskedCondition(c: FilterCondition): seq<Test> {
    var v := Text(c.value);
    if |c.value| > MAX_VALUE then []
    else match (c.field, c.op)
      case (OnTitle, Contains) => [Test(TitleContains(KeepSpace), [v, v, v])]
      case (OnTitle, Phrase) => [Test(TitlePhrase, [v, v])]
      case (OnTitle, NotContains) => [Test(TitleLacks, [v])]
      case (OnTitle, Regex) => [Test(TitleRegex, [v])]
      case (OnType, Equals) => [Test(TypeIs, [v])]
      case (OnType, NotEquals) => [Test(TypeIsNot, [v])]
      case (OnTag, Equals) => [Test(TagIs, [v])]
      case (OnTag, NotEquals) => [Test(TagIsNot, [v])]
      case (OnContributor, Contains) => [Test(ContributorLike, [v])]
      case (OnContributor, NotContains) => [Test(ContributorUnlike, [v])]
      case (OnGenre, Equals) => [Test(GenreIs, [v])]
      case (OnGenre, NotEquals) => [Test(GenreIsNot, [v])]
      case (OnSeries, Equals) => [Test(SeriesIs, [v])]
      case (OnSeries, NotEquals) => [Test(SeriesIsNot, [v])]
      case (OnShelf, Equals) => [Test(ShelfIs, [v])]
      case (OnShelf, NotEquals) => [Test(ShelfIsNot, [v])]
      case (OnPublisher, Equals) => [Test(PublisherIs, [v])]
      case (OnPublisher, NotEquals) => [Test(PublisherIsNot, [v])]
      case (OnLanguage, Equals) => [Test(LanguageIs, [v])]
      case (OnLanguage, NotEquals) => [Test(LanguageIsNot, [v])]
      case (OnCover, Equals) => [Test(HasCover, [])]
      case (OnCover, NotEquals) => [Test(HasNoCover, [])]
      case _ => []
  }

  function AskedConditions(cs: seq<FilterCondition>): seq<Test> {
    if cs == [] then [] else AskedConditions(cs[..|cs| - 1]) + AskedCondition(cs[|cs| - 1])
  }

  function AskedGroups(gs: seq<ConditionGroup>): seq<Tests> {
    if gs == [] then []
    else
      var g := gs[|gs| - 1];
      var tests := AskedConditions(g.conditions);
      AskedGroups(gs[..|gs| - 1]) + if tests == [] then [] else [Tests(g.any, tests)]
  }

  /** A test that is asked only when its option is set. */
  function Given(present: bool, t: Test): seq<Tests> {
    if present then [Tests(false, [t])] else []
  }

  function AskedQuery(o: ListOpts): seq<Tests> {
    var q := Text(o.query);
    Given(o.query != "", if o.isRegex then Test(TitleRegex, [q]) else Test(TitleContains(DropSpace), [q, q, q]))
  }

  function AskedLetter(o: ListOpts): seq<Tests> {
    Given(o.letter != "",
          if o.letter == "#" then Test(SortTitleRegex, [Digit]) else Test(SortTitlePrefix, [Lowered(o.letter)]))
  }

  function UserValue(caller: Option<Id>): Value {
    if caller.Some? then User(caller.value) else NoUser
  }

  function AskedSeries(o: ListOpts): seq<Tests> {
    Given(o.seriesIDs != [], Test(InSeries, [Ids(o.seriesIDs)]))
  }

  function AskedLists(o: ListOpts): seq<Tests> {
    Given(o.shelfIDs != [], Test(OnVisibleList, [Ids(o.shelfIDs), UserValue(o.caller), UserValue(o.caller)]))
  }

  function AskedTag(o: ListOpts): seq<Tests> {
    Given(o.tagFilter != "", Test(TagIs, [Text(o.tagFilter)]))
  }

  function AskedType(o: ListOpts): seq<Tests> {
    Given(o.typeFilter != "", Test(TypeIs, [Text(o.typeFilter)]))
  }

  function AskedTypes(s: Selection): seq<Tests> {
    Given(s.mediaTypes != [], Test(TypeAmong, [Names(s.mediaTypes)]))
  }

  function AskedGenres(s: Selection): seq<Tests> {
    Given(s.genres != [], Test(GenreAmong, [Names(s.genres)]))
  }

  function AskedTags(s: Selection): seq<Tests> {
    Given(s.tags != [], Test(TagAmong, [Names(s.tags)]))
  }

  function AskedPeople(s: Selection): seq<Tests> {
    Given(s.contributors != [], Test(ContributorAmong, [Ids(s.contributors)]))
  }

  function AskedPlaces(s: Selection): seq<Tests> {
    Given(s.locations != [], Test(LocationUnder, [Ids(s.locations)]))
  }

  // Without a caller nobody has read, rated or starred anything.

  function AskedStatus(s: Selection, caller: Option<Id>): seq<Tests> {
    Given(s.readStatus != [], if caller.None? then Test(UnreadAmong, [Names(s.readStatus)])
                              else Test(StatusAmong, [User(caller.value), Names(s.readStatus)]))
  }

  function AskedAverage(s: Selection, libraries: seq<Id>): seq<Tests> {
    Given(s.ratings != [], Test(AverageAmong, [Ids(libraries), Numbers(s.ratings)]))
  }

  function AskedMine(s: Selection, caller: Option<Id>): seq<Tests> {
    Given(s.myRatings != [], if caller.None? then Test(Never, [])
                             else Test(MyRatingAmong, [User(caller.value), Numbers(s.myRatings)]))
  }

  function AskedFavourite(s: Selection, caller: Option<Id>): seq<Tests> {
    Given(s.favourites != [], if caller.None? then Test(FalseAmong, [Flags(s.favourites)])
                              else Test(FavouriteAmong, [User(caller.value), Flags(s.favourites)]))
  }

  function AskedOwnership(s: Selection): seq<Tests> {
    Given(s.ownership != [], Test(OwnershipAmong, [Names(s.ownership)]))
  }

  /** Everything the options ask of a book, one conjunct after another. */
  function Asked(libraries: seq<Id>, o: ListOpts): seq<Tests> {
    var s := o.selection;
    [] + AskedQuery(o) + AskedLetter(o) + AskedSeries(o) + AskedLists(o) + AskedTag(o) + AskedType(o)
    + AskedGroups(o.groups)
    + AskedTypes(s) + AskedGenres(s) + AskedTags(s) + AskedPeople(s) + AskedPlaces(s)
    + AskedStatus(s, o.caller) + AskedAverage(s, libraries) + AskedMine(s, o.caller) + AskedFavourite(s, o.caller)
    + AskedOwnership(s)
  }

  // ---- reading a query back ----------------------------------------------------

  predicate InRange(at: seq<nat>, n: nat) {
    forall i :: 0 <= i < |at| ==> 1 <= at[i] <= n
  }

  predicate CondInRange(c: Cond, n: nat) { InRange(c.at, n) }

  ghost predicate CondsInRange(cs: seq<Cond>, n: nat) {
    forall i :: 0 <= i < |cs| ==> CondInRange(cs[i], n)
  }

  ghost predicate ClausesInRange(cs: seq<Clause>, n: nat) {
    forall i :: 0 <= i < |cs| ==> CondsInRange(cs[i].conds, n)
  }

  /** The condition with its placeholders replaced by what is bound to them. */
  function Bound(c: Cond, args: seq<Value>): Test
    requires CondInRange(c, |args|)
  {
    Test(c.template, seq(|c.at|, i requires 0 <= i < |c.at| => args[c.at[i] - 1]))
  }

  ghost function BoundConds(cs: seq<Cond>, args: seq<Value>): (ts: seq<Test>)
    requires CondsInRange(cs, |args|)
    ensures |ts| == |cs|
  {
    seq(|cs|, i requires 0 <= i < |cs| => Bound(cs[i], args))
  }

  ghost function BoundClauses(cs: seq<Clause>, args: seq<Value>): (ts: seq<Tests>)
    requires ClausesInRange(cs, |args|)
    ensures |ts| == |cs|
  {
    seq(|cs|, i requires 0 <= i < |cs| => Tests(cs[i].any, BoundConds(cs[i].conds, args)))
  }

  function Mentioned(c: Cond): set<nat> { set k | k in c.at }

  function CondPlaceholders(cs: seq<Cond>): set<nat> {
    if cs == [] then {} else CondPlaceholders(cs[..|cs| - 1]) + Mentioned(cs[|cs| - 1])
  }

  function Placeholders(cs: seq<Clause>): set<nat> {
    if cs == [] then {}
    else Placeholders(cs[..|cs| - 1]) + CondPlaceholders(cs[|cs| - 1].conds)
  }

  // ---- the builder -------------------------------------------------------------

  /** The three things the builder keeps in step: bookFilter, while it is being built. */
  datatype Filter = Filter(conditions: seq<Clause>, args: seq<Value>, argIdx: nat)

  /** The numbers are in step; every placeholder is bound; every bound argument but the
      library scope, which the scope join mentions, is mentioned by a condition; and
      read back, the conditions are the tests given. `parts` are conditions of a group
      not yet joined. */
  ghost predicate Means(f: Filter, parts: seq<Cond>, libraries: seq<Id>, tests: seq<Tests>, partTests: seq<Test>) {
    && f.argIdx == |f.args| + 1 && |f.args| >= 1 && f.args[0] == Ids(libraries)
    && ClausesInRange(f.conditions, |f.args|) && CondsInRange(parts, |f.args|)
    && BoundClauses(f.conditions, f.args) == tests
    && BoundConds(parts, f.args) == partTests
    && forall k: nat :: 1 < k <= |f.args| ==> k in Placeholders(f.conditions) + CondPlaceholders(parts)
  }

  /** c mentions only $1 and the arguments about to be bound, and all of those. */
  predicate Mentions(c: Cond, from: nat, n: nat) {
    && (forall i :: 0 <= i < |c.at| ==> c.at[i] == 1 || from < c.at[i] <= from + n)
    && (forall k: nat :: from < k <= from + n ==> k in c.at)
  }

  /** Conditions already there mean what they meant when more arguments are bound. */
  lemma MoreArgs(cs: seq<Cond>, args: seq<Value>, more: seq<Value>)
    requires CondsInRange(cs, |args|)
    ensures CondsInRange(cs, |args + more|) && BoundConds(cs, args + more) == BoundConds(cs, args)
  {
    forall i | 0 <= i < |cs|
      ensures CondInRange(cs[i], |args + more|) && Bound(cs[i], args + more) == Bound(cs[i], args)
    {
      assert CondInRange(cs[i], |args|);
    }
  }

  lemma MoreArgsForClauses(cs: seq<Clause>, args: seq<Value>, more: seq<Value>)
    requires ClausesInRange(cs, |args|)
    ensures ClausesInRange(cs, |args + more|) && BoundClauses(cs, args + more) == BoundClauses(cs, args)
  {
    forall i | 0 <= i < |cs|
      ensures CondsInRange(cs[i].conds, |args + more|)
               && BoundConds(cs[i].conds, args + more) == BoundConds(cs[i].conds, args)
    {
      MoreArgs(cs[i].conds, args, more);
    }
  }

  /** Appending one condition to the group being built, with its arguments. */
  lemma PartAdds(f: Filter, g: Filter, parts: seq<Cond>, c: Cond, vals: seq<Value>, test: Test,
                 libraries: seq<Id>, tests: seq<Tests>, partTests: seq<Test>)
    requires Means(f, parts, libraries, tests, partTests)
    requires g == Filter(f.conditions, f.args + vals, f.argIdx + |vals|)
    requires Mentions(c, |f.args|, |vals|) && Bound(c, g.args) == test
    ensures Means(g, parts + [c], libraries, tests, partTests + [test])
  {
    MoreArgs(parts, f.args, vals);
    MoreArgsForClauses(f.conditions, f.args, vals);
    assert (parts + [c])[..|parts|] == parts;
    assert CondPlaceholders(parts + [c]) == CondPlaceholders(parts) + Mentioned(c);
    forall k: nat | 1 < k <= |g.args| ensures k in Placeholders(g.conditions) + CondPlaceholders(parts + [c]) {
      if k > |f.args| {
        assert k in c.at;
        assert k in Mentioned(c);
        assert k in CondPlaceholders(parts + [c]);
      } else {
        assert k in Placeholders(f.conditions) + CondPlaceholders(parts);
      }
    }
    assert CondsInRange(parts + [c], |g.args|);
    assert BoundConds(parts + [c], g.args) == BoundConds(parts, g.args) + [Bound(c, g.args)];
  }

  /** Joining the group. */
  lemma Joins(f: Filter, g: Filter, parts: seq<Cond>, any: bool, libraries: seq<Id>, tests: seq<Tests>,
      partTests: seq<Test>)
    requires Means(f, parts, libraries, tests, partTests)
    requires g == f.(conditions := f.conditions + [Clause(any, parts)])
    ensures Means(g, [], libraries, tests + [Tests(any, partTests)], [])
  {
    assert g.conditions[..|f.conditions|] == f.conditions;
    assert Placeholders(g.conditions) == Placeholders(f.conditions) + CondPlaceholders(parts);
    assert ClausesInRange(g.conditions, |g.args|) by {
      forall i | 0 <= i < |g.conditions| ensures CondsInRange(g.conditions[i].conds, |g.args|) {
      }
    }
    forall i | 0 <= i < |g.conditions|
      ensures BoundClauses(g.conditions, g.args)[i] == (tests + [Tests(any, partTests)])[i]
    {
      if i < |f.conditions| {
        assert g.conditions[i] == f.conditions[i] && BoundClauses(f.conditions, f.args)[i] == tests[i];
      }
    }
    assert BoundClauses(g.conditions, g.args) == tests + [Tests(any, partTests)];
    assert BoundConds([], g.args) == [];
  }

  /** Appending one condition outside any group. */
  lemma Adds(f: Filter, g: Filter, c: Cond, vals: seq<Value>, test: Test, libraries: seq<Id>, tests: seq<Tests>)
    requires Means(f, [], libraries, tests, [])
    requires g == Filter(f.conditions + [Clause(false, [c])], f.args + vals, f.argIdx + |vals|)
    requires Mentions(c, |f.args|, |vals|) && Bound(c, g.args) == test
    ensures Means(g, [], libraries, tests + [Tests(false, [test])], [])
  {
    var mid := Filter(f.conditions, g.args, g.argIdx);
    PartAdds(f, mid, [], c, vals, test, libraries, tests, []);
    assert [] + [c] == [c] && [] + [test] == [test];
    Joins(mid, g, [c], false, libraries, tests, [test]);
  }

  /** The text mentions the next k placeholders, once each and in order. */
  predicate InOrder(c: Cond, from: nat, k: nat) {
    |c.at| == k && forall i :: 0 <= i < k ==> c.at[i] == from + i
  }

  lemma InOrderBinds(c: Cond, args: seq<Value>, vals: seq<Value>)
    requires InOrder(c, |args| + 1, |vals|)
    ensures Mentions(c, |args|, |vals|) && CondInRange(c, |args + vals|)
    ensures Bound(c, args + vals) == Test(c.template, vals)
  {
    forall k: nat | |args| < k <= |args| + |vals| ensures k in c.at {
      assert c.at[k - |args| - 1] == k;
    }
  }

  /** One parsed search condition. Each kind says which placeholders its text mentions,
      what it binds and how far it moves the next number. */
  method ReadCondition(c: FilterCondition, n: nat) returns (known: bool, cond: Cond, vals: seq<Value>, step: nat)
    ensures known ==> step == |vals| && InOrder(cond, n, |vals|)
    ensures known && |c.value| <= MAX_VALUE
       ==> |AskedCondition(c)| == 1 && AskedCondition(c)[0] == Test(cond.template, vals)
    ensures !known ==> AskedCondition(c) == []
  {
    var v := Text(c.value);
    known, cond, vals, step := true, Cond(Never, []), [v], 1;
    match (c.field, c.op) {
      case (OnTitle, Contains) => cond, vals, step := Cond(TitleContains(KeepSpace), [n, n + 1, n + 2]), [v, v, v], 3;
      case (OnTitle, Phrase) => cond, vals, step := Cond(TitlePhrase, [n, n + 1]), [v, v], 2;
      case (OnTitle, NotContains) => cond := Cond(TitleLacks, [n]);
      case (OnTitle, Regex) => cond := Cond(TitleRegex, [n]);
      case (OnType, Equals) => cond := Cond(TypeIs, [n]);
      case (OnType, NotEquals) => cond := Cond(TypeIsNot, [n]);
      case (OnTag, Equals) => cond := Cond(TagIs, [n]);
      case (OnTag, NotEquals) => cond := Cond(TagIsNot, [n]);
      case (OnContributor, Contains) => cond := Cond(ContributorLike, [n]);
      case (OnContributor, NotContains) => cond := Cond(ContributorUnlike, [n]);
      case (OnGenre, Equals) => cond := Cond(GenreIs, [n]);
      case (OnGenre, NotEquals) => cond := Cond(GenreIsNot, [n]);
      case (OnSeries, Equals) => cond := Cond(SeriesIs, [n]);
      case (OnSeries, NotEquals) => cond := Cond(SeriesIsNot, [n]);
      case (OnShelf, Equals) => cond := Cond(ShelfIs, [n]);
      case (OnShelf, NotEquals) => cond := Cond(ShelfIsNot, [n]);
      case (OnPublisher, Equals) => cond := Cond(PublisherIs, [n]);
      case (OnPublisher, NotEquals) => cond := Cond(PublisherIsNot, [n]);
      case (OnLanguage, Equals) => cond := Cond(LanguageIs, [n]);
      case (OnLanguage, NotEquals) => cond := Cond(LanguageIsNot, [n]);
      case (OnCover, Equals) => cond, vals, step := Cond(HasCover, []), [], 0;
      case (OnCover, NotEquals) => cond, vals, step := Cond(HasNoCover, []), [], 0;
      case _ => known := false;
    }
  }

  method AddCondition(f: Filter, parts: seq<Cond>, c: FilterCondition,
                      ghost libraries: seq<Id>, ghost tests: seq<Tests>, ghost partTests: seq<Test>)
    returns (g: Filter, parts': seq<Cond>)
    requires Means(f, parts, libraries, tests, partTests)
    ensures Means(g, parts', libraries, tests, partTests + AskedCondition(c))
  {
    g, parts' := f, parts;
    assert partTests + [] == partTests;
    if |c.value| <= MAX_VALUE {
      var known, cond, vals, step := ReadCondition(c, f.argIdx);
      if known {
        InOrderBinds(cond, f.args, vals);
        parts' := parts + [cond];
        g := Filter(f.conditions, f.args + vals, f.argIdx + step);
        PartAdds(f, g, parts, cond, vals, AskedCondition(c)[0], libraries, tests, partTests);
      }
    }
  }

  method AddGroups(f: Filter, groups: seq<ConditionGroup>, ghost libraries: seq<Id>, ghost tests: seq<Tests>)
      returns (g: Filter)
    requires Means(f, [], libraries, tests, [])
    ensures Means(g, [], libraries, tests + AskedGroups(groups), [])
  {
    g := f;
    for i := 0 to |groups|
      invariant Means(g, [], libraries, tests + AskedGroups(groups[..i]), [])
    {
      var cs := groups[i].conditions;
      var parts: seq<Cond> := [];
      ghost var before := tests + AskedGroups(groups[..i]);
      for j := 0 to |cs|
        invariant Means(g, parts, libraries, before, AskedConditions(cs[..j]))
      {
        assert cs[..j + 1][..j] == cs[..j];
        g, parts := AddCondition(g, parts, cs[j], libraries, before, AskedConditions(cs[..j]));
      }
      assert cs[..|cs|] == cs && groups[..i + 1][..i] == groups[..i];
      if |parts| > 0 {
        ghost var was := g;
        g := g.(conditions := g.conditions + [Clause(groups[i].any, parts)]);
        Joins(was, g, parts, groups[i].any, libraries, before, AskedConditions(cs));
        assert before + [Tests(groups[i].any, AskedConditions(cs))] == tests + AskedGroups(groups[..i + 1]);
      } else {
        assert before == tests + AskedGroups(groups[..i + 1]);
      }
    }
    assert groups[..|groups|] == groups;
  }

  /** The shape of every filter outside the groups: when the option is set, append the
      condition, bind its arguments and move the next number. */
  method AddFilter(f: Filter, present: bool, cond: Cond, vals: seq<Value>, step: nat,
                   ghost test: Test, ghost libraries: seq<Id>, ghost tests: seq<Tests>)
    returns (g: Filter)
    requires Means(f, [], libraries, tests, [])
    requires step == |vals| && Mentions(cond, |f.args|, |vals|)
    requires CondInRange(cond, |f.args + vals|) && Bound(cond, f.args + vals) == test
    ensures Means(g, [], libraries, tests + Given(present, test), [])
  {
    if !present {
      assert tests + [] == tests;
      return f;
    }
    g := f.(conditions := f.conditions + [Clause(false, [cond])]);
    g := g.(args := g.args + vals);
    g := g.(argIdx := g.argIdx + step);
    Adds(f, g, cond, vals, test, libraries, tests);
  }

  method AddQuery(f: Filter, o: ListOpts, ghost libs: seq<Id>, ghost tests: seq<Tests>) returns (g: Filter)
    requires Means(f, [], libs, tests, [])
    ensures Means(g, [], libs, tests + AskedQuery(o), [])
  {
    var n, q := f.argIdx, Text(o.query);
    if o.isRegex {
      g := AddFilter(f, o.query != "", Cond(TitleRegex, [n]), [q], 1, Test(TitleRegex, [q]), libs, tests);
    } else {
      g := AddFilter(f, o.query != "", Cond(TitleContains(DropSpace), [n, n + 1, n + 2]), [q, q, q], 3,
                     Test(TitleContains(DropSpace), [q, q, q]), libs, tests);
    }
  }

  method AddLetter(f: Filter, o: ListOpts, ghost libs: seq<Id>, ghost tests: seq<Tests>) returns (g: Filter)
    requires Means(f, [], libs, tests, [])
    ensures Means(g, [], libs, tests + AskedLetter(o), [])
  {
    var n, l := f.argIdx, Lowered(o.letter);
    if o.letter == "#" {
      g := AddFilter(f, o.letter != "", Cond(SortTitleRegex, [n]), [Digit], 1, Test(SortTitleRegex, [Digit]), libs,
                     tests);
    } else {
      g := AddFilter(f, o.letter != "", Cond(SortTitlePrefix, [n]), [l], 1, Test(SortTitlePrefix, [l]), libs, tests);
    }
  }

  method AddLists(f: Filter, o: ListOpts, ghost libs: seq<Id>, ghost tests: seq<Tests>) returns (g: Filter)
    requires Means(f, [], libs, tests, [])
    ensures Means(g, [], libs, tests + AskedSeries(o) + AskedLists(o), [])
  {
    var n, u := f.argIdx, UserValue(o.caller);
    g := AddFilter(f, o.seriesIDs != [], Cond(InSeries, [n]), [Ids(o.seriesIDs)], 1,
                   Test(InSeries, [Ids(o.seriesIDs)]), libs, tests);
    n := g.argIdx;
    g := AddFilter(g, o.shelfIDs != [], Cond(OnVisibleList, [n, n + 1, n + 1]), [Ids(o.shelfIDs), u], 2,
                   Test(OnVisibleList, [Ids(o.shelfIDs), u, u]), libs, tests + AskedSeries(o));
  }

  method AddTagAndType(f: Filter, o: ListOpts, ghost libs: seq<Id>, ghost tests: seq<Tests>) returns (g: Filter)
    requires Means(f, [], libs, tests, [])
    ensures Means(g, [], libs, tests + AskedTag(o) + AskedType(o), [])
  {
    var n, v, w := f.argIdx, Text(o.tagFilter), Text(o.typeFilter);
    g := AddFilter(f, o.tagFilter != "", Cond(TagIs, [n]), [v], 1, Test(TagIs, [v]), libs, tests);
    n := g.argIdx;
    g := AddFilter(g, o.typeFilter != "", Cond(TypeIs, [n]), [w], 1, Test(TypeIs, [w]), libs, tests + AskedTag(o));
  }

  method AddTypesAndGenres(f: Filter, s: Selection, ghost libs: seq<Id>, ghost tests: seq<Tests>) returns (g: Filter)
    requires Means(f, [], libs, tests, [])
    ensures Means(g, [], libs, tests + AskedTypes(s) + AskedGenres(s), [])
  {
    var n, v, w := f.argIdx, Names(s.mediaTypes), Names(s.genres);
    g := AddFilter(f, s.mediaTypes != [], Cond(TypeAmong, [n]), [v], 1, Test(TypeAmong, [v]), libs, tests);
    n := g.argIdx;
    g := AddFilter(g, s.genres != [], Cond(GenreAmong, [n]), [w], 1, Test(GenreAmong, [w]), libs,
                   tests + AskedTypes(s));
  }

  method AddTagsPeoplePlaces(f: Filter, s: Selection, ghost libs: seq<Id>, ghost tests: seq<Tests>) returns (g: Filter)
    requires Means(f, [], libs, tests, [])
    ensures Means(g, [], libs, tests + AskedTags(s) + AskedPeople(s) + AskedPlaces(s), [])
  {
    var n, v, w, x := f.argIdx, Names(s.tags), Ids(s.contributors), Ids(s.locations);
    g := AddFilter(f, s.tags != [], Cond(TagAmong, [n]), [v], 1, Test(TagAmong, [v]), libs, tests);
    n := g.argIdx;
    g := AddFilter(g, s.contributors != [], Cond(ContributorAmong, [n]), [w], 1, Test(ContributorAmong, [w]), libs,
                   tests + AskedTags(s));
    n := g.argIdx;
    g := AddFilter(g, s.locations != [], Cond(LocationUnder, [n]), [x], 1, Test(LocationUnder, [x]), libs,
                   tests + AskedTags(s) + AskedPeople(s));
  }

  method AddStatusAndAverage(f: Filter, s: Selection, caller: Option<Id>, ghost libs: seq<Id>, ghost tests: seq<Tests>)
    returns (g: Filter)
    requires Means(f, [], libs, tests, [])
    ensures Means(g, [], libs, tests + AskedStatus(s, caller) + AskedAverage(s, libs), [])
  {
    var n, v, w := f.argIdx, Names(s.readStatus), Numbers(s.ratings);
    if caller.None? {
      g := AddFilter(f, s.readStatus != [], Cond(UnreadAmong, [n]), [v], 1, Test(UnreadAmong, [v]), libs, tests);
    } else {
      var u := User(caller.value);
      g := AddFilter(f, s.readStatus != [], Cond(StatusAmong, [n, n + 1]), [u, v], 2, Test(StatusAmong, [u, v]), libs,
                     tests);
    }
    n := g.argIdx;
    g := AddFilter(g, s.ratings != [], Cond(AverageAmong, [1, n]), [w], 1, Test(AverageAmong, [Ids(libs), w]), libs,
                   tests + AskedStatus(s, caller));
  }

  method AddOwnMarks(f: Filter, s: Selection, caller: Option<Id>, ghost libs: seq<Id>, ghost tests: seq<Tests>)
    returns (g: Filter)
    requires Means(f, [], libs, tests, [])
    ensures Means(g, [], libs, tests + AskedMine(s, caller) + AskedFavourite(s, caller), [])
  {
    var n, v, w := f.argIdx, Numbers(s.myRatings), Flags(s.favourites);
    if caller.None? {
      g := AddFilter(f, s.myRatings != [], Cond(Never, []), [], 0, Test(Never, []), libs, tests);
    } else {
      var u := User(caller.value);
      g := AddFilter(f, s.myRatings != [], Cond(MyRatingAmong, [n, n + 1]), [u, v], 2, Test(MyRatingAmong, [u, v]),
                     libs, tests);
    }
    n := g.argIdx;
    ghost var now := tests + AskedMine(s, caller);
    if caller.None? {
      g := AddFilter(g, s.favourites != [], Cond(FalseAmong, [n]), [w], 1, Test(FalseAmong, [w]), libs, now);
    } else {
      var u := User(caller.value);
      g := AddFilter(g, s.favourites != [], Cond(FavouriteAmong, [n, n + 1]), [u, w], 2, Test(FavouriteAmong, [u, w]),
                     libs, now);
    }
  }

  // ---- the whole filter --------------------------------------------------------

  /** What the scope join mentions: the libraries, and the caller when there is one. */
  datatype BookFilter = BookFilter(filter: Filter, callerArg: nat)

  /** The placeholder is bound to the caller; 0 when there is none. */
  predicate CallerAt(k: nat, caller: Option<Id>, args: seq<Value>) {
    if caller.Some? then 1 < k <= |args| && args[k - 1] == User(caller.value) else k == 0
  }

  /** buildBookFilter: the conditions, the scope join and what they bind. */
  method BuildBookFilter(libraries: seq<Id>, o: ListOpts) returns (b: BookFilter)
    ensures b.filter.argIdx == |b.filter.args| + 1
    ensures ClausesInRange(b.filter.conditions, |b.filter.args|) && b.callerArg <= |b.filter.args|
    ensures BoundClauses(b.filter.conditions, b.filter.args) == Asked(libraries, o)
    ensures |b.filter.args| >= 1 && b.filter.args[0] == Ids(libraries)
    ensures CallerAt(b.callerArg, o.caller, b.filter.args)
    ensures forall k: nat :: 1 <= k <= |b.filter.args| ==> k in Placeholders(b.filter.conditions) + {1, b.callerArg}
  {
    var s := o.selection;
    var f := Filter([], [Ids(libraries)], 2);
    assert BoundClauses([], f.args) == [] && BoundConds([], f.args) == [];
    f := AddQuery(f, o, libraries, []);
    f := AddLetter(f, o, libraries, [] + AskedQuery(o));
    ghost var t := [] + AskedQuery(o) + AskedLetter(o);
    f := AddLists(f, o, libraries, t);
    t := t + AskedSeries(o) + AskedLists(o);
    f := AddTagAndType(f, o, libraries, t);
    t := t + AskedTag(o) + AskedType(o);
    f := AddGroups(f, o.groups, libraries, t);
    t := t + AskedGroups(o.groups);
    f := AddTypesAndGenres(f, s, libraries, t);
    t := t + AskedTypes(s) + AskedGenres(s);
    f := AddTagsPeoplePlaces(f, s, libraries, t);
    t := t + AskedTags(s) + AskedPeople(s) + AskedPlaces(s);
    f := AddStatusAndAverage(f, s, o.caller, libraries, t);
    t := t + AskedStatus(s, o.caller) + AskedAverage(s, libraries);
    f := AddOwnMarks(f, s, o.caller, libraries, t);
    t := t + AskedMine(s, o.caller) + AskedFavourite(s, o.caller);
    b := AddScope(f, s, o.caller, libraries, t);
  }

  /** The scope join's own placeholder, and the ownership filter against the scope. */
  method AddScope(f: Filter, s: Selection, caller: Option<Id>, ghost libs: seq<Id>, ghost tests: seq<Tests>)
    returns (b: BookFilter)
    requires Means(f, [], libs, tests, [])
    ensures b.filter.argIdx == |b.filter.args| + 1 && |b.filter.args| >= 1 && b.filter.args[0] == Ids(libs)
    ensures ClausesInRange(b.filter.conditions, |b.filter.args|) && b.callerArg <= |b.filter.args|
    ensures BoundClauses(b.filter.conditions, b.filter.args) == tests + AskedOwnership(s)
    ensures CallerAt(b.callerArg, caller, b.filter.args)
    ensures forall k: nat :: 1 <= k <= |b.filter.args| ==> k in Placeholders(b.filter.conditions) + {1, b.callerArg}
  {
    var g, callerArg := f, 0;
    if caller.Some? {
      g := g.(args := g.args + [User(caller.value)]);
      callerArg := |g.args|;
      g := g.(argIdx := |g.args| + 1);
      MoreArgsForClauses(f.conditions, f.args, [User(caller.value)]);
    }
    AllMentioned(f, libs, tests);
    if |s.ownership| > 0 {
      var n, v := g.argIdx, Names(s.ownership);
      OwnershipAdds(g, v, tests);
      g := g.(conditions := g.conditions + [Clause(false, [Cond(OwnershipAmong, [n])])]);
      g := g.(args := g.args + [v]);
      g := g.(argIdx := n + 1);
    }
    b := BookFilter(g, callerArg);
  }

  lemma OwnershipAdds(f: Filter, v: Value, tests: seq<Tests>)
    requires f.argIdx == |f.args| + 1 && ClausesInRange(f.conditions, |f.args|)
            && BoundClauses(f.conditions, f.args) == tests
    ensures var cs, args := f.conditions + [Clause(false, [Cond(OwnershipAmong, [f.argIdx])])], f.args + [v];
            && ClausesInRange(cs, |args|)
            && BoundClauses(cs, args) == tests + [Tests(false, [Test(OwnershipAmong, [v])])]
            && Placeholders(cs) == Placeholders(f.conditions) + {f.argIdx}
  {
    var c := Cond(OwnershipAmong, [f.argIdx]);
    MoreArgsForClauses(f.conditions, f.args, [v]);
    InOrderBinds(c, f.args, [v]);
    LastClause(f.conditions, Clause(false, [c]), f.args + [v], tests, Test(OwnershipAmong, [v]));
    assert f.argIdx in c.at && Mentioned(c) == {f.argIdx};
  }

  lemma AllMentioned(f: Filter, libs: seq<Id>, tests: seq<Tests>)
    requires Means(f, [], libs, tests, [])
    ensures forall k: nat :: 1 < k <= |f.args| ==> k in Placeholders(f.conditions)
  {
    forall k: nat | 1 < k <= |f.args| ensures k in Placeholders(f.conditions) {
      assert k in Placeholders(f.conditions) + CondPlaceholders([]);
    }
  }

  lemma LastClause(cs: seq<Clause>, c: Clause, args: seq<Value>, tests: seq<Tests>, test: Test)
    requires ClausesInRange(cs, |args|) && BoundClauses(cs, args) == tests
    requires |c.conds| == 1 && !c.any && CondInRange(c.conds[0], |args|) && Bound(c.conds[0], args) == test
    ensures ClausesInRange(cs + [c], |args|) && BoundClauses(cs + [c], args) == tests + [Tests(false, [test])]
    ensures Placeholders(cs + [c]) == Placeholders(cs) + Mentioned(c.conds[0])
  {
    assert (cs + [c])[..|cs|] == cs;
    assert c.conds == [c.conds[0]] && c.conds[..0] == [];
    assert CondPlaceholders(c.conds) == CondPlaceholders(c.conds[..0]) + Mentioned(c.conds[0]);
    assert CondsInRange(c.conds, |args|) && BoundConds(c.conds, args) == [test];
    assert ClausesInRange(cs + [c], |args|);
    assert BoundClauses(cs + [c], args) == BoundClauses(cs, args) + [Tests(false, [test])];
  }
}
