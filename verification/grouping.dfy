/** The grouped book list: a series is one entry
    (internal/repository/book_grouping.go).
 */
module Grouping {
  import opened Ranking

  type Book = nat
  type Series = nat

  /** book_series, and where each series' lower-cased name falls in the collation. */
  datatype Shelf = Shelf(memberships: set<(Book, Series)>, place: Series -> int)

  datatype Key = Run(series: Series) | Alone(book: Book)

  function SeriesOf(s: Shelf, b: Book): set<Series> {
    set m | m in s.memberships && m.0 == b :: m.1
  }

  /** ORDER BY lower(name), id. */
  predicate NamedBefore(s: Shelf, x: Series, y: Series) {
    s.place(x) < s.place(y) || (s.place(x) == s.place(y) && x < y)
  }

  /** seriesKeyExpr: the series a book is grouped under, or none. */
  function SeriesKey(s: Shelf, b: Book): set<Series> {
    First(SeriesOf(s, b), (x, y) => NamedBefore(s, x, y), 1)
  }

  /** The rows of `entries` a matched book contributes to. */
  predicate InEntry(s: Shelf, b: Book, k: Key) {
    match k
    case Run(series) => series in SeriesKey(s, b)
    case Alone(book) => book == b && SeriesKey(s, b) == {}
  }

  ghost function KeyOf(s: Shelf, b: Book): Key {
    if SeriesKey(s, b) == {} then Alone(b) else var series :| series in SeriesKey(s, b); Run(series)
  }

  lemma OnlyElement<T>(s: set<T>, x: T)
    requires x in s && |s| <= 1
    ensures s == {x}
  {
    assert |s - {x}| == 0;
  }

  /** A book falls in exactly one entry: that of its series whose name sorts first, or,
      in no series, its own. */
  lemma OneEntryEach(s: Shelf, b: Book)
    ensures forall k :: InEntry(s, b, k) <==> k == KeyOf(s, b)
    ensures match KeyOf(s, b)
            case Run(series) => (b, series) in s.memberships
                                && forall t :: (b, t) in s.memberships && t != series ==>
                                     s.place(series) < s.place(t) || (s.place(series) == s.place(t) && series < t)
            case Alone(_) => forall t :: (b, t) !in s.memberships
  {
    var before := (x, y) => NamedBefore(s, x, y);
    var all, picked := SeriesOf(s, b), SeriesKey(s, b);
    FirstCount(all, before, 1);
    forall t | (b, t) in s.memberships ensures t in all {
      assert (b, t).1 == t;
    }
    if picked != {} {
      var series := KeyOf(s, b).series;
      OnlyElement(picked, series);
      forall t | t in all && t != series ensures NamedBefore(s, series, t) {
        FirstComesFirst(all, before, 1, series, t);
      }
    }
  }

  // ---- the entries of a filtered list ------------------------------------------

  /** The matched books of an entry; the entry's `matched` is how many they are. */
  ghost function Members(s: Shelf, list: seq<Book>, k: Key): set<Book> {
    set b | b in list && InEntry(s, b, k)
  }

  /** The rows of the `entries` CTE. */
  ghost predicate AreEntries(s: Shelf, list: seq<Book>, entries: seq<Key>) {
    && (forall i, j :: 0 <= i < j < |entries| ==> entries[i] != entries[j])
    && (forall k :: k in entries <==> Members(s, list, k) != {})
  }

  ghost function SumMatched(s: Shelf, list: seq<Book>, entries: seq<Key>): nat {
    if entries == [] then 0
    else SumMatched(s, list, entries[..|entries| - 1]) + |Members(s, list, entries[|entries| - 1])|
  }

  ghost function InSome(s: Shelf, list: seq<Book>, entries: seq<Key>): set<Book> {
    set b | b in list && KeyOf(s, b) in entries
  }

  lemma MembersHaveTheKey(s: Shelf, list: seq<Book>, k: Key, b: Book)
    ensures b in Members(s, list, k) <==> b in list && KeyOf(s, b) == k
  {
    OneEntryEach(s, b);
  }

  lemma OneMoreEntry(s: Shelf, list: seq<Book>, front: seq<Key>, last: Key)
    requires last !in front
    ensures InSome(s, list, front + [last]) == InSome(s, list, front) + Members(s, list, last)
    ensures InSome(s, list, front) !! Members(s, list, last)
  {
    forall b ensures b in Members(s, list, last) <==> b in list && KeyOf(s, b) == last {
      MembersHaveTheKey(s, list, last, b);
    }
  }

  lemma {:induction false} MatchedAdds(s: Shelf, list: seq<Book>, entries: seq<Key>)
    requires forall i, j :: 0 <= i < j < |entries| ==> entries[i] != entries[j]
    ensures SumMatched(s, list, entries) == |InSome(s, list, entries)|
  {
    if entries == [] {
      assert InSome(s, list, entries) == {};
    } else {
      var front, last := entries[..|entries| - 1], entries[|entries| - 1];
      MatchedAdds(s, list, front);
      assert entries == front + [last];
      OneMoreEntry(s, list, front, last);
    }
  }

  ghost function Elements<T>(list: seq<T>): set<T> { set x | x in list }

  lemma {:induction false} CountDistinct<T>(list: seq<T>)
    requires forall i, j :: 0 <= i < j < |list| ==> list[i] != list[j]
    ensures |Elements(list)| == |list|
  {
    if list != [] {
      var front, last := list[..|list| - 1], list[|list| - 1];
      CountDistinct(front);
      assert list == front + [last];
      assert Elements(list) == Elements(front) + {last};
    }
  }

  lemma EveryBookHasAnEntry(s: Shelf, list: seq<Book>, entries: seq<Key>, b: Book)
    requires AreEntries(s, list, entries) && b in list
    ensures KeyOf(s, b) in entries
  {
    OneEntryEach(s, b);
    assert b in Members(s, list, KeyOf(s, b));
  }

  /** However the entries are ordered, their matched counts sum to the book total. */
  lemma MatchedSumsToTotal(s: Shelf, list: seq<Book>, entries: seq<Key>)
    requires forall i, j :: 0 <= i < j < |list| ==> list[i] != list[j]
    requires AreEntries(s, list, entries)
    ensures SumMatched(s, list, entries) == |list|
  {
    MatchedAdds(s, list, entries);
    var all := Elements(list);
    forall b ensures b in all <==> b in InSome(s, list, entries) {
      if b in list {
        EveryBookHasAnEntry(s, list, entries, b);
      }
    }
    assert InSome(s, list, entries) == all;
    CountDistinct(list);
  }

  // ---- entries in the order of their first book --------------------------------

  /** min(rank): where the first of an entry's books comes in the sorted list. */
  ghost predicate FirstAt(s: Shelf, list: seq<Book>, k: Key, i: nat) {
    i < |list| && InEntry(s, list[i], k) && forall j :: 0 <= j < i ==> !InEntry(s, list[j], k)
  }

  /** ORDER BY rank ASC. */
  ghost predicate InRankOrder(s: Shelf, list: seq<Book>, entries: seq<Key>) {
    forall x, y, i, j ::
      0 <= x < y < |entries| && FirstAt(s, list, entries[x], i) && FirstAt(s, list, entries[y], j) ==> i < j
  }

  /** Reading down the sorted list and writing an entry at each book that starts one. */
  ghost function ReadDown(s: Shelf, list: seq<Book>): seq<Key> {
    if list == [] then []
    else
      var seen, k := ReadDown(s, list[..|list| - 1]), KeyOf(s, list[|list| - 1]);
      if k in seen then seen else seen + [k]
  }

  lemma {:induction false} ReadDownKeys(s: Shelf, list: seq<Book>, k: Key)
    ensures k in ReadDown(s, list) <==> exists i :: 0 <= i < |list| && KeyOf(s, list[i]) == k
  {
    if list != [] {
      var n := |list| - 1;
      ReadDownKeys(s, list[..n], k);
      assert forall i :: 0 <= i < n ==> list[..n][i] == list[i];
    }
  }

  lemma FirstExists(s: Shelf, list: seq<Book>, k: Key, n: nat) returns (i: nat)
    requires n < |list| && InEntry(s, list[n], k)
    ensures i <= n && FirstAt(s, list, k, i)
    decreases n
  {
    if j :| 0 <= j < n && InEntry(s, list[j], k) {
      i := FirstExists(s, list, k, j);
    } else {
      i := n;
    }
  }

  /** Under a sort that is not by label, the entries in rank order are what reading down
      the ungrouped list gives: each stands where its first book stands. */
  lemma {:induction false} EntriesFollowTheList(s: Shelf, list: seq<Book>, entries: seq<Key>)
    requires AreEntries(s, list, entries) && InRankOrder(s, list, entries)
    ensures entries == ReadDown(s, list)
    decreases |list|
  {
    assert |entries| > 0 ==> entries[0] in entries;
    if list == [] {
      assert forall k :: Members(s, list, k) == {};
    } else {
      var n := |list| - 1;
      var front, k := list[..n], KeyOf(s, list[n]);
      OneEntryEach(s, list[n]);
      ReadDownKeys(s, front, k);
      if k in ReadDown(s, front) {
        StartedBefore(s, list, entries);
        EntriesFollowTheList(s, front, entries);
      } else {
        var rest := StartsLast(s, list, entries);
        EntriesFollowTheList(s, front, rest);
      }
    }
  }

  /** A last book whose entry is already there changes neither the entries nor their order. */
  lemma StartedBefore(s: Shelf, list: seq<Book>, entries: seq<Key>)
    requires list != [] && AreEntries(s, list, entries) && InRankOrder(s, list, entries)
    requires exists i :: 0 <= i < |list| - 1 && KeyOf(s, list[i]) == KeyOf(s, list[|list| - 1])
    ensures AreEntries(s, list[..|list| - 1], entries) && InRankOrder(s, list[..|list| - 1], entries)
  {
    var n := |list| - 1;
    var front := list[..n];
    forall k ensures Members(s, front, k) != {} <==> Members(s, list, k) != {} {
      SameMembers(s, list, k);
    }
    forall k, j | FirstAt(s, front, k, j) ensures FirstAt(s, list, k, j) {
    }
  }

  lemma SameMembers(s: Shelf, list: seq<Book>, k: Key)
    requires exists i :: 0 <= i < |list| - 1 && KeyOf(s, list[i]) == KeyOf(s, list[|list| - 1])
    ensures Members(s, list[..|list| - 1], k) != {} <==> Members(s, list, k) != {}
  {
    var n := |list| - 1;
    var front := list[..n];
    var i :| 0 <= i < n && KeyOf(s, list[i]) == KeyOf(s, list[n]);
    assert list == front + [list[n]] && front[i] == list[i];
    if b :| b in Members(s, list, k) {
      MembersHaveTheKey(s, list, k, b);
      MembersHaveTheKey(s, front, k, if b == list[n] then front[i] else b);
    }
    if b :| b in Members(s, front, k) {
      MembersHaveTheKey(s, front, k, b);
      MembersHaveTheKey(s, list, k, b);
    }
  }

  lemma Starts(s: Shelf, list: seq<Book>, entries: seq<Key>, y: nat) returns (j: nat)
    requires AreEntries(s, list, entries) && y < |entries|
    ensures FirstAt(s, list, entries[y], j)
  {
    assert entries[y] in entries;
    var b :| b in Members(s, list, entries[y]);
    var m :| 0 <= m < |list| && list[m] == b;
    j := FirstExists(s, list, entries[y], m);
  }

  /** A last book that starts an entry starts the last one. */
  lemma StartsLast(s: Shelf, list: seq<Book>, entries: seq<Key>) returns (rest: seq<Key>)
    requires list != [] && AreEntries(s, list, entries) && InRankOrder(s, list, entries)
    requires forall i :: 0 <= i < |list| - 1 ==> KeyOf(s, list[i]) != KeyOf(s, list[|list| - 1])
    ensures entries == rest + [KeyOf(s, list[|list| - 1])]
    ensures AreEntries(s, list[..|list| - 1], rest) && InRankOrder(s, list[..|list| - 1], rest)
  {
    var n := |list| - 1;
    var front, k := list[..n], KeyOf(s, list[n]);
    forall i | 0 <= i <= n ensures InEntry(s, list[i], k) <==> i == n {
      OneEntryEach(s, list[i]);
    }
    assert list[n] in Members(s, list, k);
    var x :| 0 <= x < |entries| && entries[x] == k;
    assert FirstAt(s, list, k, n);
    forall y | 0 <= y < |entries| && entries[y] != k ensures y < x {
      var j := Starts(s, list, entries, y);
      assert FirstAt(s, list, entries[x], n) && FirstAt(s, list, entries[y], j) && j < n;
    }
    assert entries[|entries| - 1] != k ==> |entries| - 1 < x;
    assert x == |entries| - 1;
    rest := entries[..x];
    assert entries == rest + [k];
    WithoutTheLast(s, list, rest, k);
  }

  lemma WithoutTheLast(s: Shelf, list: seq<Book>, rest: seq<Key>, k: Key)
    requires list != [] && AreEntries(s, list, rest + [k]) && InRankOrder(s, list, rest + [k])
    requires forall i :: 0 <= i < |list| ==> (InEntry(s, list[i], k) <==> i == |list| - 1)
    requires KeyOf(s, list[|list| - 1]) == k
    ensures AreEntries(s, list[..|list| - 1], rest) && InRankOrder(s, list[..|list| - 1], rest)
  {
    var n, entries := |list| - 1, rest + [k];
    var front := list[..n];
    assert forall i :: 0 <= i < |rest| ==> rest[i] == entries[i];
    assert entries[|rest|] == k;
    forall k' ensures k' in rest <==> Members(s, front, k') != {} {
      assert k' in entries <==> k' in rest || k' == k;
      if b :| b in Members(s, front, k') {
        assert b in Members(s, list, k');
        var i :| 0 <= i < n && front[i] == b;
        assert !InEntry(s, list[i], k);
      }
      if k' in rest {
        var b :| b in Members(s, list, k');
        OneEntryEach(s, list[n]);
        assert b in Members(s, front, k');
      }
    }
    forall k', j | FirstAt(s, front, k', j) ensures FirstAt(s, list, k', j) {
    }
  }

  // ---- the page ----------------------------------------------------------------

  /** A row of the page query. */
  datatype Ref = Ref(key: Key, matched: nat)

  /** The rows whose series or book the hydration queries returned. */
  function Hydrated(refs: seq<Ref>, groups: set<Series>, books: set<Book>): seq<Ref> {
    if refs == [] then []
    else
      var x := refs[|refs| - 1];
      var known := match x.key case Run(series) => series in groups case Alone(book) => book in books;
      Hydrated(refs[..|refs| - 1], groups, books) + if known then [x] else []
  }

  /** The page is rebuilt in the order of the page query, not of the hydration queries. */
  method RebuildPage(refs: seq<Ref>, groups: set<Series>, books: set<Book>) returns (entries: seq<Ref>)
    ensures entries == Hydrated(refs, groups, books)
  {
    entries := [];
    for i := 0 to |refs|
      invariant entries == Hydrated(refs[..i], groups, books)
    {
      var x := refs[i];
      assert refs[..i + 1][..i] == refs[..i];
      if x.key.Run? {
        if x.key.series !in groups { continue; }
        entries := entries + [x];
        continue;
      }
      if x.key.book in books {
        entries := entries + [x];
      }
    }
    assert refs[..|refs|] == refs;
  }

  /** With every row hydrated, the page is the query's page. */
  lemma {:induction false} NothingDropped(refs: seq<Ref>, groups: set<Series>, books: set<Book>)
    requires forall x :: x in refs ==>
               match x.key case Run(series) => series in groups case Alone(book) => book in books
    ensures Hydrated(refs, groups, books) == refs
  {
    if refs != [] {
      NothingDropped(refs[..|refs| - 1], groups, books);
      assert refs == refs[..|refs| - 1] + [refs[|refs| - 1]];
    }
  }

  predicate Known(x: Ref, groups: set<Series>, books: set<Book>) {
    (exists k :: x.key == Run(k) && k in groups) || exists b :: x.key == Alone(b) && b in books
  }

  /** The rows `at` points to, in order, are those that were found. */
  ghost predicate AreTheKnown(refs: seq<Ref>, groups: set<Series>, books: set<Book>, rows: seq<Ref>, at: seq<nat>) {
    && |at| == |rows|
    && (forall j :: 0 <= j < |at| ==> at[j] < |refs| && rows[j] == refs[at[j]] && Known(rows[j], groups, books))
    && (forall i, j :: 0 <= i < j < |at| ==> at[i] < at[j])
    && (forall i :: 0 <= i < |refs| && Known(refs[i], groups, books) ==> i in at)
  }

  lemma OneMoreRow(refs: seq<Ref>, groups: set<Series>, books: set<Book>, rows: seq<Ref>, at: seq<nat>, x: Ref)
    requires AreTheKnown(refs, groups, books, rows, at)
    ensures if Known(x, groups, books) then AreTheKnown(refs + [x], groups, books, rows + [x], at + [|refs|])
            else AreTheKnown(refs + [x], groups, books, rows, at)
  {
    var all := refs + [x];
    assert forall i :: 0 <= i < |refs| ==> all[i] == refs[i];
    if Known(x, groups, books) {
      var more := at + [|refs|];
      assert more[|at|] == |refs|;
      forall i | 0 <= i < |all| && Known(all[i], groups, books) ensures i in more {
        assert i < |refs| ==> i in at;
      }
    }
  }

  lemma HydratedStep(refs: seq<Ref>, groups: set<Series>, books: set<Book>)
    requires refs != []
    ensures var n := |refs| - 1;
            Hydrated(refs, groups, books) ==
            Hydrated(refs[..n], groups, books) + if Known(refs[n], groups, books) then [refs[n]] else []
  {
    var x := refs[|refs| - 1];
    match x.key
    case Run(series) => assert x.key == Run(series);
    case Alone(book) => assert x.key == Alone(book);
  }

  /** The page has every row whose series or book was found, once, in the page query's order,
      with the count the query gave it, and no other. */
  lemma {:induction false} PageIsWhatWasFound(refs: seq<Ref>, groups: set<Series>, books: set<Book>)
      returns (at: seq<nat>)
    ensures AreTheKnown(refs, groups, books, Hydrated(refs, groups, books), at)
  {
    if refs == [] {
      return [];
    }
    var n := |refs| - 1;
    at := PageIsWhatWasFound(refs[..n], groups, books);
    HydratedStep(refs, groups, books);
    OneMoreRow(refs[..n], groups, books, Hydrated(refs[..n], groups, books), at, refs[n]);
    assert refs == refs[..n] + [refs[n]];
    at := at + if Known(refs[n], groups, books) then [n] else [];
  }
}
