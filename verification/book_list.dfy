/** The whole queries of the book list (internal/repository/books.go, listScoped and
    fillSortHeadings) and of the grouped list (book_grouping.go, ListGroupedBySeries).

    Each puts the filter, the sort and the page together, with one run of placeholder
    numbers through all of them.
 */
module BookList {
  import opened BookFilter
  import opened SortPlans
  import opened Wrappers

  /** The list query: the filter, the placeholder the selected columns use for the
      caller's reading status, the sort, the page. */
  datatype ListQuery = ListQuery(
    filter: BookFilter, selectArg: nat, plan: SortPlan, limitAt: nat, offsetAt: nat, args: seq<Value>)

  ghost function AllPlaceholders(q: ListQuery): set<nat> {
    Placeholders(q.filter.filter.conditions) + {1, q.filter.callerArg, q.selectArg, q.limitAt, q.offsetAt}
    + CondPlaceholders(q.plan.joins)
  }

  const DEFAULT_PAGE := 25
  const MAX_PAGE := 200

  function PerPage(o: ListOpts): int { if o.perPage <= 0 || o.perPage > MAX_PAGE then DEFAULT_PAGE else o.perPage }

  function Page(o: ListOpts): int { if o.page <= 0 then 1 else o.page }

  /** The levels a list sorts by: those given, or else those its sort parameter names. */
  function SortLevels(o: ListOpts): seq<SortKey> {
    if o.sortKeys == [] then Levels(Tokens(o.sort), IsDesc(o.sortDir)) else o.sortKeys
  }

  /** The list query for given sort levels. */
  method BuildSorted(libraries: seq<Id>, o: ListOpts, keys: seq<SortKey>) returns (q: ListQuery)
    ensures ClausesInRange(q.filter.filter.conditions, |q.args|)
    ensures BoundClauses(q.filter.filter.conditions, q.args) == Asked(libraries, o)
    ensures |q.args| >= 2 && q.args[0] == Ids(libraries)
    ensures CallerAt(q.filter.callerArg, o.caller, q.args) && CallerAt(q.selectArg, o.caller, q.args)
    ensures CondsInRange(q.plan.joins, |q.args|)
    ensures BoundConds(q.plan.joins, q.args) == AskedSort(keys, libraries, o.seriesIDs, o.selection.locations)
    ensures 1 <= q.limitAt <= |q.args| && q.args[q.limitAt - 1] == Limit(PerPage(o))
    ensures 1 <= q.offsetAt <= |q.args| && q.args[q.offsetAt - 1] == Limit((Page(o) - 1) * PerPage(o))
    ensures forall k: nat :: 1 <= k <= |q.args| ==> k in AllPlaceholders(q)
  {
    var b := BuildBookFilter(libraries, o);
    var args, argIdx := b.filter.args, b.filter.argIdx;
    var selectArg := 0;
    if o.caller.Some? {
      args := args + [User(o.caller.value)];
      selectArg := argIdx;
      argIdx := argIdx + 1;
    }
    ghost var selected := args[|b.filter.args|..];
    assert args == b.filter.args + selected;
    ghost var bound := args;
    var plan := BuildSortPlan(keys, argIdx, o.seriesIDs, o.selection.locations, bound, libraries);
    args := args + plan.args;
    argIdx := plan.next;
    args := args + [Limit(PerPage(o)), Limit((Page(o) - 1) * PerPage(o))];
    q := ListQuery(b, selectArg, plan, argIdx, argIdx + 1, args);
    ghost var page := [Limit(PerPage(o)), Limit((Page(o) - 1) * PerPage(o))];
    assert args == bound + plan.args + page;
    ThroughAll(b.filter.conditions, plan.joins, b.filter.args, selected, plan.args, page);
    StillAt(b.callerArg, o.caller, b.filter.args, selected);
    StillAt(b.callerArg, o.caller, bound, plan.args + page);
    StillAt(selectArg, o.caller, bound, plan.args + page);
    assert bound + (plan.args + page) == args;
    NothingUnused(q, |b.filter.args|, |bound|);
  }

  lemma StillAt(k: nat, caller: Option<Id>, args: seq<Value>, more: seq<Value>)
    requires CallerAt(k, caller, args)
    ensures CallerAt(k, caller, args + more)
  {
  }

  /** The filter mentions the first n arguments, the columns the caller, the joins what
      the sort binds, and the page is last. */
  lemma NothingUnused(q: ListQuery, n: nat, bound: nat)
    requires forall k: nat :: 1 <= k <= n ==> k in Placeholders(q.filter.filter.conditions) + {1, q.filter.callerArg}
    requires bound < q.plan.next && (bound == n || bound == n + 1 == q.selectArg)
    requires forall k: nat :: bound < k < q.plan.next ==> k in CondPlaceholders(q.plan.joins)
    requires q.plan.next == q.limitAt == q.offsetAt - 1 == |q.args| - 1
    ensures forall k: nat :: 1 <= k <= |q.args| ==> k in AllPlaceholders(q)
  {
    forall k: nat | 1 <= k <= |q.args| ensures k in AllPlaceholders(q) {
      assert k <= n ==> k in Placeholders(q.filter.filter.conditions) + {1, q.filter.callerArg};
    }
  }

  /** What the filter and the joins read is not disturbed by what is bound after it. */
  lemma ThroughAll(cs: seq<Clause>, joins: seq<Cond>, args: seq<Value>, selected: seq<Value>, sorted: seq<Value>,
      page: seq<Value>)
    requires ClausesInRange(cs, |args|) && CondsInRange(joins, |args + selected + sorted|)
    ensures var all := args + selected + sorted + page;
            && ClausesInRange(cs, |all|) && BoundClauses(cs, all) == BoundClauses(cs, args)
            && CondsInRange(joins, |all|) && BoundConds(joins, all) == BoundConds(joins, args + selected + sorted)
  {
    MoreArgsForClauses(cs, args, selected);
    MoreArgsForClauses(cs, args + selected, sorted);
    MoreArgsForClauses(cs, args + selected + sorted, page);
    MoreArgs(joins, args + selected + sorted, page);
  }

  /** listScoped. Through filter, selected columns, sort and paging, every placeholder
      is bound, every argument is mentioned, the filter still asks what was asked, and
      the page placeholders are bound to the page. */
  method BuildListQuery(libraries: seq<Id>, o: ListOpts) returns (q: ListQuery)
    ensures ClausesInRange(q.filter.filter.conditions, |q.args|)
    ensures BoundClauses(q.filter.filter.conditions, q.args) == Asked(libraries, o)
    ensures |q.args| >= 2 && q.args[0] == Ids(libraries)
    ensures CallerAt(q.filter.callerArg, o.caller, q.args) && CallerAt(q.selectArg, o.caller, q.args)
    ensures CondsInRange(q.plan.joins, |q.args|)
    ensures BoundConds(q.plan.joins, q.args) == AskedSort(SortLevels(o), libraries, o.seriesIDs, o.selection.locations)
    ensures 1 <= q.limitAt <= |q.args| && q.args[q.limitAt - 1] == Limit(PerPage(o))
    ensures 1 <= q.offsetAt <= |q.args| && q.args[q.offsetAt - 1] == Limit((Page(o) - 1) * PerPage(o))
    ensures forall k: nat :: 1 <= k <= |q.args| ==> k in AllPlaceholders(q)
  {
    var keys := o.sortKeys;
    if |keys| == 0 {
      keys := ParseSortKeys(o.sort, o.sortDir);
    }
    q := BuildSorted(libraries, o, keys);
  }

  // ---- the pages ---------------------------------------------------------------

  function AtMost(n: int, most: nat): nat { if n < 0 then 0 else if n > most then most else n }

  /** What LIMIT and OFFSET, as the query binds them, leave of the sorted list. */
  function PageOf<T>(list: seq<T>, o: ListOpts): seq<T> {
    var limit, offset := PerPage(o), (Page(o) - 1) * PerPage(o);
    list[AtMost(offset, |list|)..AtMost(offset + limit, |list|)]
  }

  function FirstPages<T>(list: seq<T>, o: ListOpts, k: nat): seq<T> {
    if k == 0 then [] else FirstPages(list, o, k - 1) + PageOf(list, o.(page := k))
  }

  lemma Steps(per: int, k: nat)
    requires per > 0
    ensures k * per >= 0 && (k + 1) * per == k * per + per
  {
  }

  lemma PageIsSlice<T>(list: seq<T>, o: ListOpts, k: nat, from: int, to: int)
    requires k > 0 && from == (k - 1) * PerPage(o) && to == k * PerPage(o)
    ensures 0 <= from <= to && PageOf(list, o.(page := k)) == list[AtMost(from, |list|)..AtMost(to, |list|)]
  {
    Steps(PerPage(o), k - 1);
  }

  lemma SlicesJoin<T>(list: seq<T>, from: nat, to: nat)
    requires from <= to <= |list|
    ensures list[..from] + list[from..to] == list[..to]
  {
  }

  /** The pages are the list cut up: the first k of them, one after another, are its first
      k times so many books, none twice and none between them. */
  lemma {:induction false} PagesTile<T>(list: seq<T>, o: ListOpts, k: nat)
    ensures FirstPages(list, o, k) == list[..AtMost(k * PerPage(o), |list|)]
    decreases k
  {
    if k > 0 {
      var from, to := (k - 1) * PerPage(o), k * PerPage(o);
      PagesTile(list, o, k - 1);
      PageIsSlice(list, o, k, from, to);
      SlicesJoin(list, AtMost(from, |list|), AtMost(to, |list|));
    }
  }

  /** A page is as long as was asked for, within 1 and 200, or 25; only the last is shorter;
      a page before the first is the first. */
  lemma PageIsFull<T>(list: seq<T>, o: ListOpts)
    ensures PerPage(o) == if 1 <= o.perPage <= 200 then o.perPage else 25
    ensures o.page < 1 ==> PageOf(list, o) == PageOf(list, o.(page := 1))
    ensures o.page >= 1 && o.page * PerPage(o) <= |list| ==> |PageOf(list, o)| == PerPage(o)
  {
    if o.page >= 1 {
      Steps(PerPage(o), o.page - 1);
    }
  }

  // ---- the grouped list and the headings ---------------------------------------

  /** ListGroupedBySeries: one set of matched books, counted and then paged. The count
      binds everything but the page. */
  datatype GroupedQuery = GroupedQuery(
    filter: BookFilter, plan: SortPlan, limitAt: nat, offsetAt: nat, countArgs: seq<Value>, args: seq<Value>)

  ghost function MatchedPlaceholders(b: BookFilter, plan: SortPlan): set<nat> {
    Placeholders(b.filter.conditions) + {1, b.callerArg} + CondPlaceholders(plan.joins)
  }

  /** Sorted by label: the entries then need no book's place in the list. */
  predicate ByLabel(keys: seq<SortKey>) { |keys| == 0 || (|keys| == 1 && keys[0].field == ByTitle) }

  lemma LabelsAskNothing(keys: seq<SortKey>, libraries: seq<Id>, series: seq<Id>, places: seq<Id>)
    requires ByLabel(keys)
    ensures AskedSort(keys, libraries, series, places) == []
  {
    if keys != [] {
      assert keys[..0] == [];
    }
  }

  /** The sort's joins are there exactly when entries go by rank, and either way nothing
      is bound that the count or the page does not mention. */
  method BuildGroupedQuery(libraries: seq<Id>, o: ListOpts) returns (q: GroupedQuery)
    ensures ClausesInRange(q.filter.filter.conditions, |q.countArgs|)
    ensures BoundClauses(q.filter.filter.conditions, q.countArgs) == Asked(libraries, o)
    ensures |q.countArgs| >= 1 && q.countArgs[0] == Ids(libraries)
            && CallerAt(q.filter.callerArg, o.caller, q.countArgs)
    ensures CondsInRange(q.plan.joins, |q.countArgs|)
    ensures BoundConds(q.plan.joins, q.countArgs)
            == AskedSort(SortLevels(o), libraries, o.seriesIDs, o.selection.locations)
    ensures forall k: nat :: 1 <= k <= |q.countArgs| ==> k in MatchedPlaceholders(q.filter, q.plan)
    ensures q.args == q.countArgs + [Limit(PerPage(o)), Limit((Page(o) - 1) * PerPage(o))]
    ensures q.limitAt == |q.countArgs| + 1 && q.offsetAt == q.limitAt + 1
  {
    var b := BuildBookFilter(libraries, o);
    var bound := b.filter.args;
    var argIdx := b.filter.argIdx;
    var keys := o.sortKeys;
    if |keys| == 0 {
      keys := ParseSortKeys(o.sort, o.sortDir);
    }
    var plan := SortPlan([], [], argIdx);
    if !ByLabel(keys) {
      plan := BuildSortPlan(keys, argIdx, o.seriesIDs, o.selection.locations, bound, libraries);
    } else {
      LabelsAskNothing(keys, libraries, o.seriesIDs, o.selection.locations);
      assert BoundConds([], bound + []) == [];
    }
    var args := bound + plan.args;
    argIdx := plan.next;
    MoreArgsForClauses(b.filter.conditions, bound, plan.args);
    StillAt(b.callerArg, o.caller, bound, plan.args);
    MatchedMentionsAll(b, plan, |bound|, |args|);
    q := GroupedQuery(b, plan, argIdx, argIdx + 1, args, args + [Limit(PerPage(o)), Limit((Page(o) - 1) * PerPage(o))]);
  }

  lemma MatchedMentionsAll(b: BookFilter, plan: SortPlan, bound: nat, n: nat)
    requires forall k: nat :: 1 <= k <= bound ==> k in Placeholders(b.filter.conditions) + {1, b.callerArg}
    requires forall k: nat :: bound < k < plan.next ==> k in CondPlaceholders(plan.joins)
    requires plan.next == n + 1
    ensures forall k: nat :: 1 <= k <= n ==> k in MatchedPlaceholders(b, plan)
  {
    forall k: nat | 1 <= k <= n ensures k in MatchedPlaceholders(b, plan) {
      assert k <= bound ==> k in Placeholders(b.filter.conditions) + {1, b.callerArg};
    }
  }

  /** fillSortHeadings: the headings of a page of books, read through the sort's joins. The
      text names $1 and the last placeholder itself. */
  method BuildHeadingQuery(libraries: seq<Id>, o: ListOpts, keys: seq<SortKey>, books: seq<Id>)
    returns (plan: SortPlan, booksAt: nat, args: seq<Value>)
    ensures |args| == booksAt && booksAt >= 2 && args[0] == Ids(libraries) && args[booksAt - 1] == Ids(books)
    ensures CondsInRange(plan.joins, |args|)
    ensures BoundConds(plan.joins, args) == AskedSort(keys, libraries, o.seriesIDs, o.selection.locations)
    ensures forall k: nat :: 1 < k < booksAt ==> k in CondPlaceholders(plan.joins)
  {
    plan := BuildSortPlan(keys, 2, o.seriesIDs, o.selection.locations, [Ids(libraries)], libraries);
    args := [Ids(libraries)] + plan.args;
    MoreArgs(plan.joins, args, [Ids(books)]);
    args := args + [Ids(books)];
    booksAt := plan.next;
  }
}
