/** What the conditions of a search say of a book (internal/repository/books.go, from the
    query to the condition groups, and internal/repository/book_search_sql.go).

    Each SQL text is read on its own, with the values it is bound to, and compared with what
    the condition it was built for is meant to say.
 */
module SearchTerms {
  import opened Strings
  import opened Wrappers
  import opened BookFilter
  import opened Search

  /** The tables the texts read. `tags` has every tag ever put on a book; publishers and
      languages are those of primary editions; a list has an owner and may be shared with
      a library, and `mayRead` pairs users with the libraries they can read; `has` is ILIKE '%..%', `matches` is ~*, and
      `letters` is a title or a term with everything but letters and figures taken out. */
  datatype Facts = Facts(
    title: Id -> string, sortTitle: Id -> string, typeName: Id -> string,
    tags: set<(Id, string)>, genres: set<(Id, string)>, series: set<(Id, string)>, shelves: set<(Id, string)>,
    publishers: set<(Id, string)>, languages: set<(Id, string)>, people: set<(Id, string)>, covered: set<Id>,
    onList: set<(Id, Id)>, ownerOf: Id -> Id, sharedWith: Id -> Option<Id>, mayRead: set<(Id, Id)>,
    has: (string, string) -> bool, matches: (string, string) -> bool, letters: (Norm, string) -> string)

  // ---- the texts ---------------------------------------------------------------

  /** EXISTS, over the names a table gives a book, compared without case. */
  predicate Named(names: set<(Id, string)>, b: Id, name: string) {
    exists n :: n in names && n.0 == b && Lowercase(n.1) == Lowercase(name)
  }

  predicate SomebodyHas(f: Facts, b: Id, part: string) { exists n :: n in f.people && n.0 == b && f.has(n.1, part) }

  predicate StartsWith(s: string, start: string) { start <= s }

  /** What a text says with its values in place. */
  predicate Says(f: Facts, t: Test, b: Id) {
    var v := t.values;
    var one := if |v| == 1 && v[0].Text? then v[0].text else "";
    match t.template
    case TitleRegex => |v| == 1 && v[0].Text? && f.matches(f.title(b), one)
    case TitleContains(norm) =>
      |v| == 3 && v[0].Text? && v[1].Text? && v[2].Text?
      && (f.has(f.title(b), v[0].text)
          || (f.letters(norm, v[1].text) != "" && f.has(f.letters(norm, f.title(b)), f.letters(norm, v[1].text)))
          || SomebodyHas(f, b, v[2].text))
    case TitlePhrase =>
      |v| == 2 && v[0].Text? && v[1].Text? && (f.has(f.title(b), v[0].text) || SomebodyHas(f, b, v[1].text))
    case TitleLacks => |v| == 1 && v[0].Text? && !f.has(f.title(b), one)
    case TypeIs => |v| == 1 && v[0].Text? && Lowercase(f.typeName(b)) == Lowercase(one)
    case TypeIsNot => |v| == 1 && v[0].Text? && Lowercase(f.typeName(b)) != Lowercase(one)
    case TagIs => |v| == 1 && v[0].Text? && Named(f.tags, b, one)
    case TagIsNot => |v| == 1 && v[0].Text? && !Named(f.tags, b, one)
    case ContributorLike => |v| == 1 && v[0].Text? && SomebodyHas(f, b, one)
    case ContributorUnlike => |v| == 1 && v[0].Text? && !SomebodyHas(f, b, one)
    case GenreIs => |v| == 1 && v[0].Text? && Named(f.genres, b, one)
    case GenreIsNot => |v| == 1 && v[0].Text? && !Named(f.genres, b, one)
    case SeriesIs => |v| == 1 && v[0].Text? && Named(f.series, b, one)
    case SeriesIsNot => |v| == 1 && v[0].Text? && !Named(f.series, b, one)
    case ShelfIs => |v| == 1 && v[0].Text? && Named(f.shelves, b, one)
    case ShelfIsNot => |v| == 1 && v[0].Text? && !Named(f.shelves, b, one)
    case PublisherIs => |v| == 1 && v[0].Text? && Named(f.publishers, b, one)
    case PublisherIsNot => |v| == 1 && v[0].Text? && !Named(f.publishers, b, one)
    case LanguageIs => |v| == 1 && v[0].Text? && Named(f.languages, b, one)
    case LanguageIsNot => |v| == 1 && v[0].Text? && !Named(f.languages, b, one)
    case HasCover => v == [] && b in f.covered
    case HasNoCover => v == [] && b !in f.covered
    case OnVisibleList =>
      |v| == 3 && v[0].Ids?
      && exists l :: l in v[0].ids && (b, l) in f.onList
           && (v[1] == User(f.ownerOf(l))
               || (f.sharedWith(l).Some? && v[2].User? && (v[2].user, f.sharedWith(l).value) in f.mayRead))
    case SortTitleRegex => v == [Digit] && f.sortTitle(b) != "" && '0' <= f.sortTitle(b)[0] <= '9'
    case SortTitlePrefix => |v| == 1 && v[0].Lowered? && StartsWith(Lowercase(f.sortTitle(b)), Lowercase(v[0].text))
    case _ => false
  }

  predicate OneSays(f: Facts, t: Tests, b: Id) {
    if t.any then exists i :: 0 <= i < |t.tests| && Says(f, t.tests[i], b)
    else forall i :: 0 <= i < |t.tests| ==> Says(f, t.tests[i], b)
  }

  predicate AllSay(f: Facts, ts: seq<Tests>, b: Id) { forall i :: 0 <= i < |ts| ==> OneSays(f, ts[i], b) }

  // ---- what a condition is meant to say ----------------------------------------

  /** The names a field compares. */
  function NamesIn(f: Facts, field: Field): set<(Id, string)> {
    match field
    case OnTag => f.tags
    case OnGenre => f.genres
    case OnSeries => f.series
    case OnShelf => f.shelves
    case OnPublisher => f.publishers
    case OnLanguage => f.languages
    case _ => {}
  }

  /** Whether the book has what a field is searched for. */
  predicate HasIt(f: Facts, field: Field, value: string, b: Id) {
    match field
    case OnType => Lowercase(f.typeName(b)) == Lowercase(value)
    case OnContributor => exists n :: n in f.people && n.0 == b && f.has(n.1, value)
    case OnCover => b in f.covered
    case _ => exists n :: n in NamesIn(f, field) && n.0 == b && Lowercase(n.1) == Lowercase(value)
  }

  /** What finds a word: the title as it stands, its letters, or the name of somebody who
      worked on the book. */
  predicate Found(f: Facts, value: string, b: Id) {
    || f.has(f.title(b), value)
    || (f.letters(KeepSpace, value) != "" && f.has(f.letters(KeepSpace, f.title(b)), f.letters(KeepSpace, value)))
    || HasIt(f, OnContributor, value, b)
  }

  /** What is looked for and what is kept out. The title is searched more widely than it is
      kept out by. */
  predicate IsMeant(f: Facts, c: FilterCondition, b: Id) {
    if c.field == OnTitle then
      match c.op
      case Contains => Found(f, c.value, b)
      case Phrase => f.has(f.title(b), c.value) || HasIt(f, OnContributor, c.value, b)
      case Regex => f.matches(f.title(b), c.value)
      case _ => !f.has(f.title(b), c.value)
    else if c.op == Contains || c.op == Equals then HasIt(f, c.field, c.value, b)
    else !HasIt(f, c.field, c.value, b)
  }

  /** The fields and what can be asked of them; anything else asks nothing. */
  predicate Known(c: FilterCondition) {
    match c.field
    case OnTitle => c.op in {Contains, NotContains, Phrase, Regex}
    case OnContributor => c.op in {Contains, NotContains}
    case OnLetter => false
    case OtherField => false
    case _ => c.op in {Equals, NotEquals}
  }

  lemma NamesMean(f: Facts, c: FilterCondition, b: Id)
    requires Known(c) && c.field in {OnTag, OnGenre, OnSeries, OnShelf, OnPublisher, OnLanguage} && |c.value| <= 200
    ensures |AskedCondition(c)| == 1 && (Says(f, AskedCondition(c)[0], b) <==> IsMeant(f, c, b))
  {
    assert HasIt(f, c.field, c.value, b) <==> Named(NamesIn(f, c.field), b, c.value);
  }

  lemma TitlesMean(f: Facts, c: FilterCondition, b: Id)
    requires Known(c) && c.field == OnTitle && |c.value| <= 200
    ensures |AskedCondition(c)| == 1 && (Says(f, AskedCondition(c)[0], b) <==> IsMeant(f, c, b))
  {
    assert HasIt(f, OnContributor, c.value, b) <==> SomebodyHas(f, b, c.value);
  }

  lemma OthersMean(f: Facts, c: FilterCondition, b: Id)
    requires Known(c) && c.field in {OnType, OnContributor, OnCover} && |c.value| <= 200
    ensures |AskedCondition(c)| == 1 && (Says(f, AskedCondition(c)[0], b) <==> IsMeant(f, c, b))
  {
    assert HasIt(f, OnContributor, c.value, b) <==> SomebodyHas(f, b, c.value);
  }

  /** A condition is asked when it is known and its value has no more than 200 bytes, and
      its text, with the value in its places, says what the condition means. */
  lemma AskedIsMeant(f: Facts, c: FilterCondition, b: Id)
    ensures AskedCondition(c) != [] <==> Known(c) && |c.value| <= 200
    ensures AskedCondition(c) != [] ==>
              |AskedCondition(c)| == 1 && (Says(f, AskedCondition(c)[0], b) <==> IsMeant(f, c, b))
  {
    if Known(c) && |c.value| <= 200 {
      if c.field == OnTitle {
        TitlesMean(f, c, b);
      } else if c.field in {OnType, OnContributor, OnCover} {
        OthersMean(f, c, b);
      } else {
        NamesMean(f, c, b);
      }
    }
  }

  // ---- groups ------------------------------------------------------------------

  predicate Asking(c: FilterCondition) { Known(c) && |c.value| <= 200 }

  /** What a group means: of its conditions that ask anything all are true, or one is; a
      group of none asks nothing. */
  predicate GroupIsMeant(f: Facts, g: ConditionGroup, b: Id) {
    if g.any then
      (exists c :: c in g.conditions && Asking(c)) ==> exists c :: c in g.conditions && Asking(c) && IsMeant(f, c, b)
    else forall c :: c in g.conditions && Asking(c) ==> IsMeant(f, c, b)
  }

  /** The conditions of a group that ask something. */
  function Kept(cs: seq<FilterCondition>): (kept: seq<FilterCondition>)
    ensures forall c :: c in kept <==> c in cs && Asking(c)
  {
    if cs == [] then []
    else
      var n := |cs| - 1;
      assert cs == cs[..n] + [cs[n]];
      Kept(cs[..n]) + if Asking(cs[n]) then [cs[n]] else []
  }

  /** Test by test what a list of conditions means. */
  predicate SayTheSame(f: Facts, ts: seq<Test>, cs: seq<FilterCondition>, b: Id) {
    |ts| == |cs| && forall i :: 0 <= i < |cs| ==> (Says(f, ts[i], b) <==> IsMeant(f, cs[i], b))
  }

  lemma SameJoin(f: Facts, ts: seq<Test>, us: seq<Test>, cs: seq<FilterCondition>, ds: seq<FilterCondition>, b: Id)
    requires SayTheSame(f, ts, cs, b) && SayTheSame(f, us, ds, b)
    ensures SayTheSame(f, ts + us, cs + ds, b)
  {
  }

  lemma OneIsAsked(f: Facts, c: FilterCondition, b: Id)
    ensures SayTheSame(f, AskedCondition(c), if Asking(c) then [c] else [], b)
  {
    AskedIsMeant(f, c, b);
  }

  lemma {:induction false} KeptAreAsked(f: Facts, cs: seq<FilterCondition>, b: Id)
    ensures SayTheSame(f, AskedConditions(cs), Kept(cs), b)
  {
    if cs != [] {
      var n := |cs| - 1;
      KeptAreAsked(f, cs[..n], b);
      OneIsAsked(f, cs[n], b);
      SameJoin(f, AskedConditions(cs[..n]), AskedCondition(cs[n]),
               Kept(cs[..n]), if Asking(cs[n]) then [cs[n]] else [], b);
    }
  }

  predicate OneIsMeant(f: Facts, cs: seq<FilterCondition>, b: Id) { exists i :: 0 <= i < |cs| && IsMeant(f, cs[i], b) }

  predicate EachIsMeant(f: Facts, cs: seq<FilterCondition>, b: Id) {
    forall i :: 0 <= i < |cs| ==> IsMeant(f, cs[i], b)
  }

  lemma GroupSays(f: Facts, g: ConditionGroup, b: Id)
    ensures OneSays(f, Tests(g.any, AskedConditions(g.conditions)), b)
       <==> if g.any then OneIsMeant(f, Kept(g.conditions), b) else EachIsMeant(f, Kept(g.conditions), b)
  {
    KeptAreAsked(f, g.conditions, b);
    if g.any {
      var kept, ts := Kept(g.conditions), AskedConditions(g.conditions);
      if i :| 0 <= i < |ts| && Says(f, ts[i], b) {
        assert IsMeant(f, kept[i], b);
      }
      if i :| 0 <= i < |kept| && IsMeant(f, kept[i], b) {
        assert Says(f, ts[i], b);
      }
    }
  }

  lemma OneKeptIsMeant(f: Facts, cs: seq<FilterCondition>, b: Id)
    ensures OneIsMeant(f, Kept(cs), b) <==> exists c :: c in cs && Asking(c) && IsMeant(f, c, b)
  {
    var kept := Kept(cs);
    if c :| c in cs && Asking(c) && IsMeant(f, c, b) {
      assert c in kept;
      var i :| 0 <= i < |kept| && kept[i] == c;
    }
    if i :| 0 <= i < |kept| && IsMeant(f, kept[i], b) {
      assert kept[i] in kept;
    }
  }

  lemma EachKeptIsMeant(f: Facts, cs: seq<FilterCondition>, b: Id)
    ensures EachIsMeant(f, Kept(cs), b) <==> forall c :: c in cs && Asking(c) ==> IsMeant(f, c, b)
  {
    var kept := Kept(cs);
    assert forall i :: 0 <= i < |kept| ==> kept[i] in kept;
    if EachIsMeant(f, kept, b) {
      forall c | c in cs && Asking(c) ensures IsMeant(f, c, b) {
        assert c in kept;
      }
    }
  }

  /** A group of which something is left to ask asks what it means; of which nothing is, it
      means nothing. */
  lemma KeptIsTheGroup(f: Facts, g: ConditionGroup, b: Id)
    ensures Kept(g.conditions) != [] ==>
              (OneSays(f, Tests(g.any, AskedConditions(g.conditions)), b) <==> GroupIsMeant(f, g, b))
    ensures Kept(g.conditions) == [] ==> GroupIsMeant(f, g, b)
  {
    var kept := Kept(g.conditions);
    GroupSays(f, g, b);
    OneKeptIsMeant(f, g.conditions, b);
    EachKeptIsMeant(f, g.conditions, b);
    assert kept != [] ==> kept[0] in kept;
  }

  lemma OneMoreSays(f: Facts, ts: seq<Tests>, t: Tests, b: Id)
    ensures AllSay(f, ts + [t], b) <==> AllSay(f, ts, b) && OneSays(f, t, b)
  {
    var all := ts + [t];
    assert all[|ts|] == t && forall i :: 0 <= i < |ts| ==> all[i] == ts[i];
  }

  lemma LastGroupIsMeant(f: Facts, gs: seq<ConditionGroup>, b: Id)
    requires gs != []
    ensures AllSay(f, AskedGroups(gs), b)
       <==> AllSay(f, AskedGroups(gs[..|gs| - 1]), b) && GroupIsMeant(f, gs[|gs| - 1], b)
  {
    var g, front := gs[|gs| - 1], AskedGroups(gs[..|gs| - 1]);
    KeptAreAsked(f, g.conditions, b);
    KeptIsTheGroup(f, g, b);
    if Kept(g.conditions) == [] {
      assert front + [] == front;
    } else {
      OneMoreSays(f, front, Tests(g.any, AskedConditions(g.conditions)), b);
    }
  }

  /** What the filter asks of a search is what its groups mean: every group, each with all
      or any of the conditions that ask something. */
  lemma {:induction false} GroupsAreMeant(f: Facts, gs: seq<ConditionGroup>, b: Id)
    ensures AllSay(f, AskedGroups(gs), b) <==> forall i :: 0 <= i < |gs| ==> GroupIsMeant(f, gs[i], b)
  {
    if gs != [] {
      var n := |gs| - 1;
      LastGroupIsMeant(f, gs, b);
      GroupsAreMeant(f, gs[..n], b);
      assert forall i :: 0 <= i < n ==> gs[..n][i] == gs[i];
    }
  }

  // ---- the search box before the groups ----------------------------------------

  /** A letter asks for the titles it begins, articles apart; # for those a figure begins. */
  lemma LetterIsMeant(f: Facts, o: ListOpts, b: Id)
    ensures AllSay(f, AskedLetter(o), b) <==>
              (o.letter == "" ||
               if o.letter == "#" then |f.sortTitle(b)| > 0 && f.sortTitle(b)[0] in "0123456789"
               else Lowercase(o.letter) <= Lowercase(f.sortTitle(b)))
  {
    var c := if f.sortTitle(b) == "" then 'x' else f.sortTitle(b)[0];
    assert c in "0123456789" <==> '0' <= c <= '9' by {
      IsFigure(c);
    }
    GivenSays(f, o.letter != "",
              if o.letter == "#" then Test(SortTitleRegex, [Digit]) else Test(SortTitlePrefix, [Lowered(o.letter)]), b);
  }

  lemma IsFigure(c: char)
    ensures c in "0123456789" <==> '0' <= c <= '9'
  {
    var s := "0123456789";
    if '0' <= c <= '9' {
      assert s[c as int - '0' as int] == c;
    }
  }

  lemma GivenSays(f: Facts, present: bool, t: Test, b: Id)
    ensures AllSay(f, Given(present, t), b) <==> (present ==> Says(f, t, b))
  {
    if present {
      assert Given(present, t)[0].tests[0] == t;
    }
  }

  /** The tag and the type parameters. */
  lemma TagAndTypeAreMeant(f: Facts, o: ListOpts, b: Id)
    ensures AllSay(f, AskedTag(o), b) <==> (o.tagFilter == "" || HasIt(f, OnTag, o.tagFilter, b))
    ensures AllSay(f, AskedType(o), b) <==> (o.typeFilter == "" || HasIt(f, OnType, o.typeFilter, b))
  {
    GivenSays(f, o.tagFilter != "", Test(TagIs, [Text(o.tagFilter)]), b);
    GivenSays(f, o.typeFilter != "", Test(TypeIs, [Text(o.typeFilter)]), b);
  }

  /** The search text as it was before the language: a pattern, or a word found as words are
      but for blanks. */
  lemma QueryIsMeant(f: Facts, o: ListOpts, b: Id)
    ensures AllSay(f, AskedQuery(o), b) <==>
              (o.query == "" ||
               if o.isRegex then f.matches(f.title(b), o.query)
               else
                 || f.has(f.title(b), o.query)
                 || (f.letters(DropSpace, o.query) != ""
                     && f.has(f.letters(DropSpace, f.title(b)), f.letters(DropSpace, o.query)))
                 || HasIt(f, OnContributor, o.query, b))
  {
    var q := Text(o.query);
    GivenSays(f, o.query != "",
              if o.isRegex then Test(TitleRegex, [q]) else Test(TitleContains(DropSpace), [q, q, q]), b);
    assert HasIt(f, OnContributor, o.query, b) <==> SomebodyHas(f, b, o.query);
  }

  /** The lists: one the book is on that is the caller's own, or shared with a library he can
      read. Nobody owns none and reads none. */
  lemma ListsAreMeant(f: Facts, o: ListOpts, b: Id)
    ensures AllSay(f, AskedLists(o), b) <==>
              (o.shelfIDs == [] ||
               exists l :: l in o.shelfIDs && (b, l) in f.onList && o.caller.Some?
                 && (o.caller.value == f.ownerOf(l)
                     || (f.sharedWith(l).Some? && (o.caller.value, f.sharedWith(l).value) in f.mayRead)))
  {
    var u := UserValue(o.caller);
    GivenSays(f, o.shelfIDs != [], Test(OnVisibleList, [Ids(o.shelfIDs), u, u]), b);
  }

  // ---- what NOT means ----------------------------------------------------------

  /** Outside titles a condition and its negation are opposites, and undo each other. */
  lemma NotIsOpposite(f: Facts, c: FilterCondition, b: Id)
    requires Known(c) && c.field != OnTitle
    ensures Known(Not(c)) && (IsMeant(f, Not(c), b) <==> !IsMeant(f, c, b)) && Not(Not(c)) == c
  {
  }

  /** A word of the title is found in more places than NOT looks in: the book is in neither
      the search nor its opposite never, and in both exactly when the word is not in the
      title as it stands but is found all the same. */
  lemma NotOfAWord(f: Facts, c: FilterCondition, b: Id)
    requires c.field == OnTitle && c.op == Contains
    ensures IsMeant(f, c, b) || IsMeant(f, Not(c), b)
    ensures IsMeant(f, c, b) && IsMeant(f, Not(c), b) <==>
              !f.has(f.title(b), c.value)
              && ((f.letters(KeepSpace, c.value) != ""
                   && f.has(f.letters(KeepSpace, f.title(b)), f.letters(KeepSpace, c.value)))
                  || exists n :: n in f.people && n.0 == b && f.has(n.1, c.value))
  {
  }

  /** The negation of a phrase or a pattern looks for it in the title, letter by letter; so
      NOT /a.c/ shows a book called "abc" beside /a.c/ itself. */
  lemma NotOfAPattern(f: Facts, pattern: string, b: Id)
    requires f.matches(f.title(b), pattern) && !f.has(f.title(b), pattern)
    ensures var c := FilterCondition(OnTitle, Regex, pattern);
            IsMeant(f, c, b) && IsMeant(f, Not(c), b)
  {
  }

  lemma LiteralGroup(l: Literal)
    requires Writable(l.c)
    ensures Groups(Spaced(LiteralTokens(l))) == [ConditionGroup(false, [Asks(l)])]
  {
    LiteralIsRead(l);
    SpacedIsParsed(LiteralTokens(l));
    ReadLiteral(l, [], START, false);
    assert LiteralWords(l) + [] == LiteralWords(l) && [] + [Asks(l)] == [Asks(l)];
    OneGroupAlone(ConditionGroup(false, [Asks(l)]));
  }

  lemma LoneGroupIsMeant(f: Facts, c: FilterCondition, b: Id)
    requires Asking(c)
    ensures AllSay(f, AskedGroups([ConditionGroup(false, [c])]), b) <==> IsMeant(f, c, b)
  {
    var g := ConditionGroup(false, [c]);
    GroupsAreMeant(f, [g], b);
    assert [g][0] == g && c in g.conditions;
  }

  lemma LiteralSpaced(c: FilterCondition)
    ensures Spaced(LiteralTokens(Literal(false, c))) == Written(c)
    ensures Spaced(LiteralTokens(Literal(true, c))) == "NOT " + Written(c)
  {
    assert LiteralTokens(Literal(false, c)) == [Written(c)];
    var tokens := ["NOT"] + [Written(c)];
    assert tokens[1..] == [Written(c)];
    JoinsEitherWay("NOT", " ", Written(c));
  }

  /** Outside titles, NOT before a search for one thing in the box is its opposite: typed,
      parsed, asked for and answered. */
  lemma TypedNotIsOpposite(f: Facts, c: FilterCondition, b: Id)
    requires Writable(c) && Known(c) && c.field != OnTitle && |c.value| <= 200
    ensures AllSay(f, AskedGroups(Groups(Written(c))), b) <==> IsMeant(f, c, b)
    ensures AllSay(f, AskedGroups(Groups("NOT " + Written(c))), b) <==> !IsMeant(f, c, b)
  {
    LiteralSpaced(c);
    LiteralGroup(Literal(false, c));
    LiteralGroup(Literal(true, c));
    NotIsOpposite(f, c, b);
    LoneGroupIsMeant(f, c, b);
    LoneGroupIsMeant(f, Not(c), b);
  }

  // ---- from the box to the books -----------------------------------------------

  function Meant(f: Facts, b: Id): Truth { (c: FilterCondition) => IsMeant(f, c, b) }

  function AskingTruth(): Truth { (c: FilterCondition) => Asking(c) }

  lemma GroupMeansItsTerms(f: Facts, g: ConditionGroup, b: Id)
    requires g.conditions != [] && forall j :: 0 <= j < |g.conditions| ==> Asking(g.conditions[j])
    ensures GroupIsMeant(f, g, b) <==> GroupHolds(Meant(f, b), g)
  {
    assert g.conditions[0] in g.conditions;
  }

  lemma GroupsMeanTheirTerms(f: Facts, gs: seq<ConditionGroup>, b: Id)
    requires GroupsAsk(AskingTruth(), gs)
    ensures AllSay(f, AskedGroups(gs), b) <==> AllHold(Meant(f, b), gs)
  {
    GroupsAreMeant(f, gs, b);
    forall i | 0 <= i < |gs| ensures GroupIsMeant(f, gs[i], b) <==> GroupHolds(Meant(f, b), gs[i]) {
      GroupMeansItsTerms(f, gs[i], b);
    }
  }

  predicate ClauseIsMeant(f: Facts, clause: Alternatives, b: Id) {
    exists j :: 0 <= j < |clause| && IsMeant(f, Asks(clause[j]), b)
  }

  lemma ClauseHoldsAsMeant(f: Facts, clause: Alternatives, b: Id)
    ensures ClauseHolds(Meant(f, b), clause) <==> ClauseIsMeant(f, clause, b)
  {
    if j :| 0 <= j < |clause| && IsMeant(f, Asks(clause[j]), b) {
      assert Meant(f, b)(Asks(clause[j]));
    }
  }

  lemma QueryHoldsAsMeant(f: Facts, q: seq<Alternatives>, b: Id)
    ensures QueryHolds(Meant(f, b), q) <==> forall i :: 0 <= i < |q| ==> ClauseIsMeant(f, q[i], b)
  {
    forall i | 0 <= i < |q| ensures ClauseHolds(Meant(f, b), q[i]) <==> ClauseIsMeant(f, q[i], b) {
      ClauseHoldsAsMeant(f, q[i], b);
    }
  }

  lemma TermsAsk(q: seq<Alternatives>)
    requires forall i, j :: 0 <= i < |q| && 0 <= j < |q[i]| ==> Asking(Asks(q[i][j]))
    ensures forall i, j :: 0 <= i < |q| && 0 <= j < |q[i]| ==> AskingTruth()(Asks(q[i][j]))
  {
  }

  /** A search typed into the box shows the books it describes: a query of terms, negated
      terms and alternatives in parentheses, none of them over-long, is cut up, parsed,
      turned into SQL texts with their values, and these hold of just the books of which
      in every clause one of the terms is true, a negated one as NOT is meant for it. */
  lemma SearchShowsWhatItSays(f: Facts, q: seq<Alternatives>, b: Id)
    requires AllWritable(q) && forall i :: 0 <= i < |q| ==> q[i] != []
    requires forall i, j :: 0 <= i < |q| && 0 <= j < |q[i]| ==> Asking(Asks(q[i][j]))
    ensures AllSay(f, AskedGroups(Groups(Spaced(QueryTokens(q)))), b)
       <==> forall i :: 0 <= i < |q| ==> ClauseIsMeant(f, q[i], b)
  {
    QueriesMeanWhatTheySay(Meant(f, b), q);
    TermsAsk(q);
    QueriesAskTheirTerms(AskingTruth(), q);
    GroupsMeanTheirTerms(f, Groups(Spaced(QueryTokens(q))), b);
    QueryHoldsAsMeant(f, q, b);
  }
}
