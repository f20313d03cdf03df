/** The state of a book for the caller (internal/repository/book_ownership.go).
 */
module Ownership {
  // On the shelf, wishlisted, suggested, or a gap in a series. The scope is a ranked
  // union of sources, one state per book.

  import opened Wrappers
  import opened Containment

  datatype State = Shelf | Wishlist | Suggested | Gap

  function Rank(o: State): nat {
    match o
    case Shelf => 1
    case Wishlist => 2
    case Suggested => 3
    case Gap => 4
  }

  datatype Suggestion = Suggestion(user: nat, book: Book, status: string)

  /** The rows the scope reads.
      - held: (library, book) for every live copy
      - wishes: (user, book) for wishlist items that name a book
      - series: (library, book) for every book of a series of that library
   */
  datatype Rows = Rows(
    held: set<(nat, Book)>, links: set<Link>, wishes: set<(nat, Book)>,
    suggestions: set<Suggestion>, series: set<(nat, Book)>)

  function Held(r: Rows, libraries: set<nat>): set<Book> {
    set h | h in r.held && h.0 in libraries :: h.1
  }

  /** The recursive CTE `contained`: downward from what is held, 32 links at most. */
  function Contained(r: Rows, libraries: set<nat>): set<Book> {
    Within(r.links, Held(r, libraries), WALK_BOUND)
  }

  /** The arms of the union, each with the permission its source carries. The two
      personal arms exist only when there is a caller. */
  function Arm(r: Rows, libraries: set<nat>, caller: Option<nat>, o: State): set<Book> {
    match o
    case Shelf => Held(r, libraries) + Contained(r, libraries)
    case Wishlist =>
      if caller.None? then {} else set w | w in r.wishes && w.0 == caller.value :: w.1
    case Suggested =>
      if caller.None? then {}
      else set s | s in r.suggestions && s.user == caller.value && s.status == "new" :: s.book
    case Gap => set s | s in r.series && s.0 in libraries :: s.1
  }

  /** The rows of the union before DISTINCT ON: a book with every state it qualifies for. */
  function Union(r: Rows, libraries: set<nat>, caller: Option<nat>): set<(Book, State)> {
    (set b | b in Arm(r, libraries, caller, Shelf) :: (b, Shelf)) +
    (set b | b in Arm(r, libraries, caller, Wishlist) :: (b, Wishlist)) +
    (set b | b in Arm(r, libraries, caller, Suggested) :: (b, Suggested)) +
    (set b | b in Arm(r, libraries, caller, Gap) :: (b, Gap))
  }

  /** SELECT DISTINCT ON (book_id) .. ORDER BY book_id, rank: the first row of each book. */
  function First(rows: set<(Book, State)>, b: Book): State {
    if (b, Shelf) in rows then Shelf
    else if (b, Wishlist) in rows then Wishlist
    else if (b, Suggested) in rows then Suggested
    else Gap
  }

  function Scope(r: Rows, libraries: set<nat>, caller: Option<nat>): map<Book, State> {
    var rows := Union(r, libraries, caller);
    map b | b in (set row | row in rows :: row.0) :: First(rows, b)
  }

  lemma UnionIsArms(r: Rows, libraries: set<nat>, caller: Option<nat>, b: Book)
    ensures forall o :: (b, o) in Union(r, libraries, caller) <==> b in Arm(r, libraries, caller, o)
  {
  }

  /** A book is visible exactly when some source justifies it, and its one state is
      the best ranked of the states that do. */
  lemma OneStateAndTheBest(r: Rows, libraries: set<nat>, caller: Option<nat>, b: Book)
    ensures var scope := Scope(r, libraries, caller);
            && (b in scope <==> exists o :: b in Arm(r, libraries, caller, o))
            && (b in scope ==>
                  && b in Arm(r, libraries, caller, scope[b])
                  && forall o :: b in Arm(r, libraries, caller, o) ==> Rank(scope[b]) <= Rank(o))
  {
    var rows := Union(r, libraries, caller);
    UnionIsArms(r, libraries, caller, b);
    assert b in Scope(r, libraries, caller) <==> exists o :: (b, o) in rows by {
      if b in Scope(r, libraries, caller) {
        var row :| row in rows && row.0 == b;
        assert (b, row.1) in rows;
      }
      if o :| (b, o) in rows {
        assert (b, o).0 == b;
      }
    }
    if o :| (b, o) in rows {
      FirstIsBest(rows, b);
    }
  }

  lemma FirstIsBest(rows: set<(Book, State)>, b: Book)
    requires exists o :: (b, o) in rows
    ensures (b, First(rows, b)) in rows
    ensures forall o :: (b, o) in rows ==> Rank(First(rows, b)) <= Rank(o)
  {
    var o :| (b, o) in rows;
    match o
    case Shelf =>
    case Wishlist =>
    case Suggested =>
    case Gap =>
  }

  /** A book is on the shelf exactly when a path of at most 32 containment links leads
      to it from a book one of the libraries holds. */
  lemma ShelfIffHeldOrInside(r: Rows, libraries: set<nat>, caller: Option<nat>, b: Book)
    ensures (b in Scope(r, libraries, caller) && Scope(r, libraries, caller)[b] == Shelf)
       <==> exists p :: IsPath(r.links, p) && |p| <= WALK_BOUND + 1
                        && p[0] in Held(r, libraries) && p[|p| - 1] == b
  {
    OneStateAndTheBest(r, libraries, caller, b);
    var held := Held(r, libraries);
    WithinIsLevels(r.links, held, WALK_BOUND, b);
    if b in held {
      assert IsPath(r.links, [b]);
    } else if b in Contained(r, libraries) {
      var k :| 1 <= k <= WALK_BOUND && b in Level(r.links, held, k);
      var p := LevelHasPath(r.links, held, k, b);
    }
    if p :| IsPath(r.links, p) && |p| <= WALK_BOUND + 1 && p[0] in held && p[|p| - 1] == b {
      PathEndsInLevel(r.links, held, p);
      if |p| > 1 {
        assert b in Level(r.links, held, |p| - 1);
      }
    }
  }

  /** With no containment chain longer than 32 links below what is held, every book
      inside a held one is on the shelf, however deep. */
  lemma ShallowShelfIsComplete(r: Rows, libraries: set<nat>, caller: Option<nat>, b: Book)
    requires Level(r.links, Held(r, libraries), WALK_BOUND + 1) == {}
    ensures (b in Scope(r, libraries, caller) && Scope(r, libraries, caller)[b] == Shelf)
       <==> exists h :: h in Held(r, libraries) && Below(r.links, h, b)
  {
    OneStateAndTheBest(r, libraries, caller, b);
    var held := Held(r, libraries);
    WalkIsWholeClosure(r.links, held);
    if b in held {
      assert IsPath(r.links, [b]);
      assert Below(r.links, b, b);
    } else if b in Contained(r, libraries) {
      var p :| IsPath(r.links, p) && |p| > 1 && p[0] in held && p[|p| - 1] == b;
      assert Below(r.links, p[0], b);
    }
    if h :| h in held && Below(r.links, h, b) {
      var p :| IsPath(r.links, p) && p[0] == h && p[|p| - 1] == b;
      assert |p| > 1 ==> b in Contained(r, libraries);
    }
  }

  // ---- each state by itself ----------------------------------------------------

  /** A library of the caller's holds a copy of b, or of a book that b is inside of, at
      most 32 links down. */
  ghost predicate OnShelf(r: Rows, libraries: set<nat>, b: Book) {
    exists p, l :: IsPath(r.links, p) && |p| <= 33 && l in libraries && (l, p[0]) in r.held && p[|p| - 1] == b
  }

  predicate WishedBy(r: Rows, caller: Option<nat>, b: Book) { caller.Some? && (caller.value, b) in r.wishes }

  predicate SuggestedTo(r: Rows, caller: Option<nat>, b: Book) {
    caller.Some? && Suggestion(caller.value, b, "new") in r.suggestions
  }

  predicate InSeriesOf(r: Rows, libraries: set<nat>, b: Book) { exists l :: l in libraries && (l, b) in r.series }

  /** b is visible in the state o. */
  predicate Shows(r: Rows, libraries: set<nat>, caller: Option<nat>, b: Book, o: State) {
    b in Scope(r, libraries, caller) && Scope(r, libraries, caller)[b] == o
  }

  lemma ShelfMeans(r: Rows, libraries: set<nat>, caller: Option<nat>, b: Book)
    ensures Shows(r, libraries, caller, b, Shelf) <==> OnShelf(r, libraries, b)
  {
    ShelfIffHeldOrInside(r, libraries, caller, b);
    if OnShelf(r, libraries, b) {
      var p, l :| IsPath(r.links, p) && |p| <= 33 && l in libraries && (l, p[0]) in r.held && p[|p| - 1] == b;
      assert (l, p[0]).1 in Held(r, libraries);
    }
    if Shows(r, libraries, caller, b, Shelf) {
      var p :| IsPath(r.links, p) && |p| <= WALK_BOUND + 1 && p[0] in Held(r, libraries) && p[|p| - 1] == b;
      var h :| h in r.held && h.0 in libraries && h.1 == p[0];
      assert (h.0, p[0]) == h;
    }
  }

  lemma ArmsMean(r: Rows, libraries: set<nat>, caller: Option<nat>, b: Book)
    ensures b in Arm(r, libraries, caller, Wishlist) <==> WishedBy(r, caller, b)
    ensures b in Arm(r, libraries, caller, Suggested) <==> SuggestedTo(r, caller, b)
    ensures b in Arm(r, libraries, caller, Gap) <==> InSeriesOf(r, libraries, b)
  {
    if WishedBy(r, caller, b) {
      assert (caller.value, b).1 in Arm(r, libraries, caller, Wishlist);
    }
    if SuggestedTo(r, caller, b) {
      assert Suggestion(caller.value, b, "new").book in Arm(r, libraries, caller, Suggested);
    }
    if l :| l in libraries && (l, b) in r.series {
      assert (l, b).1 in Arm(r, libraries, caller, Gap);
    }
  }

  /** What each state says, row by row. The caller's own wish counts and nobody else's, a
      suggestion while it is new and made to him, a series while it is of a library he
      can read; and what says the most about owning the book wins. */
  lemma StatesMean(r: Rows, libraries: set<nat>, caller: Option<nat>, b: Book)
    ensures var shelf, wish, hint := OnShelf(r, libraries, b), WishedBy(r, caller, b), SuggestedTo(r, caller, b);
            && (Shows(r, libraries, caller, b, Shelf) <==> shelf)
            && (Shows(r, libraries, caller, b, Wishlist) <==> !shelf && wish)
            && (Shows(r, libraries, caller, b, Suggested) <==> !shelf && !wish && hint)
            && (Shows(r, libraries, caller, b, Gap) <==> !shelf && !wish && !hint && InSeriesOf(r, libraries, b))
  {
    ShelfMeans(r, libraries, caller, b);
    ArmsMean(r, libraries, caller, b);
    OneStateAndTheBest(r, libraries, caller, b);
  }

  // ---- what the scope does not depend on ---------------------------------------

  /** The same as far as the caller may know: the links between works, the copies and the
      series of the libraries, his wishes, and what is new to him. */
  ghost predicate SameToCaller(r: Rows, other: Rows, libraries: set<nat>, caller: Option<nat>) {
    && r.links == other.links
    && (forall l, b :: l in libraries ==> ((l, b) in r.held <==> (l, b) in other.held))
    && (forall l, b :: l in libraries ==> ((l, b) in r.series <==> (l, b) in other.series))
    && (forall b :: WishedBy(r, caller, b) <==> WishedBy(other, caller, b))
    && (forall b :: SuggestedTo(r, caller, b) <==> SuggestedTo(other, caller, b))
  }

  lemma SameStates(r: Rows, other: Rows, libraries: set<nat>, caller: Option<nat>, b: Book)
    requires SameToCaller(r, other, libraries, caller)
    ensures forall o :: Shows(r, libraries, caller, b, o) <==> Shows(other, libraries, caller, b, o)
  {
    StatesMean(r, libraries, caller, b);
    StatesMean(other, libraries, caller, b);
  }

  /** Nothing else reaches the scope: not the rows of other people, nor those of
      libraries outside it. */
  lemma NothingElseShows(r: Rows, other: Rows, libraries: set<nat>, caller: Option<nat>)
    requires SameToCaller(r, other, libraries, caller)
    ensures Scope(r, libraries, caller) == Scope(other, libraries, caller)
  {
    var x, y := Scope(r, libraries, caller), Scope(other, libraries, caller);
    forall b ensures b in x <==> b in y
      ensures b in x && b in y ==> x[b] == y[b]
    {
      SameStates(r, other, libraries, caller, b);
      assert b in x ==> Shows(r, libraries, caller, b, x[b]);
      assert b in y ==> Shows(other, libraries, caller, b, y[b]);
    }
    assert x.Keys == y.Keys;
  }

  // ---- more rows never hurt ----------------------------------------------------

  ghost predicate Grows(r: Rows, more: Rows) {
    && r.held <= more.held && r.links <= more.links && r.wishes <= more.wishes
    && r.suggestions <= more.suggestions && r.series <= more.series
  }

  lemma {:induction false} LevelGrows(links: set<Link>, moreLinks: set<Link>, roots: set<Book>, moreRoots: set<Book>,
      k: nat)
    requires links <= moreLinks && roots <= moreRoots
    ensures Level(links, roots, k) <= Level(moreLinks, moreRoots, k)
  {
    if k > 0 {
      LevelGrows(links, moreLinks, roots, moreRoots, k - 1);
    }
  }

  lemma {:induction false} WithinGrows(links: set<Link>, moreLinks: set<Link>, roots: set<Book>, moreRoots: set<Book>,
      n: nat)
    requires links <= moreLinks && roots <= moreRoots
    ensures Within(links, roots, n) <= Within(moreLinks, moreRoots, n)
  {
    if n > 0 {
      WithinGrows(links, moreLinks, roots, moreRoots, n - 1);
      LevelGrows(links, moreLinks, roots, moreRoots, n);
    }
  }

  lemma ArmGrows(r: Rows, more: Rows, libraries: set<nat>, moreLibraries: set<nat>, caller: Option<nat>, o: State)
    requires Grows(r, more) && libraries <= moreLibraries
    ensures Arm(r, libraries, caller, o) <= Arm(more, moreLibraries, caller, o)
  {
    WithinGrows(r.links, more.links, Held(r, libraries), Held(more, moreLibraries), WALK_BOUND);
  }

  /** Adding copies, links, wishes, suggestions, series rows or readable libraries
      never removes a book from the scope and never worsens its state. */
  lemma MoreRowsNeverHurt(r: Rows, more: Rows, libraries: set<nat>, moreLibraries: set<nat>, caller: Option<nat>,
      b: Book)
    requires Grows(r, more) && libraries <= moreLibraries
    requires b in Scope(r, libraries, caller)
    ensures b in Scope(more, moreLibraries, caller)
    ensures Rank(Scope(more, moreLibraries, caller)[b]) <= Rank(Scope(r, libraries, caller)[b])
  {
    OneStateAndTheBest(r, libraries, caller, b);
    var o := Scope(r, libraries, caller)[b];
    ArmGrows(r, more, libraries, moreLibraries, caller, o);
    OneStateAndTheBest(more, moreLibraries, caller, b);
  }
}
