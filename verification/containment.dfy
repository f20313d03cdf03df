/** Works inside works (internal/repository/book_contents.go): an omnibus holds volumes.
 */
module Containment {
  // Links must never form a loop, because other reads walk them without a bound. Add
  // asks `reaches` first, and `reaches` looks at most 32 links down.

  type Book = nat

  /** A pair (container, contained). */
  type Link = (Book, Book)

  const WALK_BOUND := 32

  // ---- the recursive query -----------------------------------------------------

  /** One link down from a set of works. */
  function Inside(links: set<Link>, from: set<Book>): set<Book> {
    set l | l in links && l.0 in from :: l.1
  }

  /** The works exactly k links below the roots, along some path. */
  function Level(links: set<Link>, roots: set<Book>, k: nat): set<Book> {
    if k == 0 then roots else Inside(links, Level(links, roots, k - 1))
  }

  /** The works 1 to n links below the roots. */
  function Within(links: set<Link>, roots: set<Book>, n: nat): set<Book> {
    if n == 0 then {} else Within(links, roots, n - 1) + Level(links, roots, n)
  }

  /** b is one of the levels 1 to n. */
  ghost predicate OnLevel(links: set<Link>, roots: set<Book>, n: nat, b: Book) {
    exists k :: 1 <= k <= n && b in Level(links, roots, k)
  }

  lemma {:induction false} WithinIsLevels(links: set<Link>, roots: set<Book>, n: nat, b: Book)
    ensures b in Within(links, roots, n) <==> OnLevel(links, roots, n, b)
  {
    if n > 0 {
      WithinIsLevels(links, roots, n - 1, b);
      if b in Level(links, roots, n) {
        assert OnLevel(links, roots, n, b);
      } else {
        assert OnLevel(links, roots, n, b) <==> OnLevel(links, roots, n - 1, b);
      }
    }
  }

  /** WITH RECURSIVE walk: each round joins the rows of the round before to the
      links, until nothing new or depth 32. Rows carry their depth, so no row of one
      round repeats a row of another. */
  method WalkDown(links: set<Link>, roots: set<Book>) returns (found: set<Book>)
    ensures found == Within(links, roots, WALK_BOUND)
  {
    var level, depth := Inside(links, roots), 1;
    found := level;
    while depth < WALK_BOUND && level != {}
      invariant 1 <= depth <= WALK_BOUND
      invariant level == Level(links, roots, depth)
      invariant found == Within(links, roots, depth)
      decreases WALK_BOUND - depth
    {
      level, depth := Inside(links, level), depth + 1;
      found := found + level;
    }
    EmptyBelow(links, roots, depth, WALK_BOUND);
  }

  lemma {:induction false} EmptyBelow(links: set<Link>, roots: set<Book>, k: nat, n: nat)
    requires k <= n
    ensures Level(links, roots, k) == {} ==> Level(links, roots, n) == {}
    ensures Level(links, roots, k) == {} ==> Within(links, roots, k) == Within(links, roots, n)
    decreases n - k
  {
    if k < n {
      EmptyBelow(links, roots, k + 1, n);
    }
  }

  predicate Reaches(links: set<Link>, root: Book, target: Book) {
    target in Within(links, {root}, WALK_BOUND)
  }

  // ---- the table ---------------------------------------------------------------

  datatype AddResult = Added | ContainmentCycle | NotFound

  /** What Add answers, and the links afterwards. */
  function Adding(links: set<Link>, books: set<Book>, container: Book, contained: Book): (AddResult, set<Link>) {
    if container == contained || Reaches(links, contained, container) then (ContainmentCycle, links)
    else if container !in books || contained !in books then (NotFound, links)
    else (Added, links + {(container, contained)})
  }

  class BookContentsRepo {
    const books: set<Book>
    var position: map<Link, real>

    constructor (books: set<Book>)
      ensures this.books == books && position == map[]
    {
      this.books, position := books, map[];
    }

    /** Links a work to its container at a position; an existing link gets the new one. */
    method Add(container: Book, contained: Book, at: real) returns (r: AddResult)
      modifies this
      ensures (r, position.Keys) == Adding(old(position.Keys), books, container, contained)
      ensures position == if r == Added then old(position)[(container, contained) := at] else old(position)
    {
      if container == contained { return ContainmentCycle; }
      var below := WalkDown(position.Keys, {contained});
      if container in below { return ContainmentCycle; }
      if container !in books || contained !in books { return NotFound; }
      position := position[(container, contained) := at];
      assert position.Keys == old(position.Keys) + {(container, contained)};
      return Added;
    }

    /** Drops a link, if it is there. */
    method Remove(container: Book, contained: Book)
      modifies this
      ensures position.Keys == old(position.Keys) - {(container, contained)}
      ensures forall l :: l in position ==> position[l] == old(position)[l]
    {
      position := position - {(container, contained)};
    }
  }

  // ---- what the query means ----------------------------------------------------

  ghost predicate IsPath(links: set<Link>, p: seq<Book>) {
    p != [] && forall i :: 0 <= i < |p| - 1 ==> (p[i], p[i + 1]) in links
  }

  /** A path of n links from one work to another. */
  ghost predicate Path(links: set<Link>, p: seq<Book>, from: Book, to: Book, n: nat) {
    IsPath(links, p) && |p| == n + 1 && p[0] == from && p[n] == to
  }

  lemma {:induction false} LevelHasPath(links: set<Link>, roots: set<Book>, k: nat, b: Book) returns (p: seq<Book>)
    requires b in Level(links, roots, k)
    ensures IsPath(links, p) && |p| == k + 1 && p[0] in roots && p[k] == b
  {
    if k == 0 {
      p := [b];
    } else {
      var a :| a in Level(links, roots, k - 1) && (a, b) in links;
      var q := LevelHasPath(links, roots, k - 1, a);
      p := q + [b];
    }
  }

  lemma {:induction false} PathEndsInLevel(links: set<Link>, roots: set<Book>, p: seq<Book>)
    requires IsPath(links, p) && p[0] in roots
    ensures p[|p| - 1] in Level(links, roots, |p| - 1)
    decreases |p|
  {
    if |p| > 1 {
      PathEndsInLevel(links, roots, p[..|p| - 1]);
      assert (p[|p| - 2], p[|p| - 1]) in links;
    }
  }

  /** The query finds a work exactly when a path of 1 to 32 links leads there. */
  lemma ReachesIffPath(links: set<Link>, root: Book, target: Book)
    ensures Reaches(links, root, target) <==> exists p, n :: 1 <= n <= WALK_BOUND && Path(links, p, root, target, n)
  {
    WithinIsLevels(links, {root}, WALK_BOUND, target);
    if Reaches(links, root, target) {
      var k :| 1 <= k <= WALK_BOUND && target in Level(links, {root}, k);
      var p := LevelHasPath(links, {root}, k, target);
      assert Path(links, p, root, target, k);
    }
    if p, n :| 1 <= n <= WALK_BOUND && Path(links, p, root, target, n) {
      PathEndsInLevel(links, {root}, p);
    }
  }

  /** With no chain of more than 32 links below the roots, the bounded walk is the
      whole closure: everything any path leads to. */
  lemma WalkIsWholeClosure(links: set<Link>, roots: set<Book>)
    requires Level(links, roots, WALK_BOUND + 1) == {}
    ensures forall b :: b in Within(links, roots, WALK_BOUND) <==>
              exists p :: IsPath(links, p) && |p| > 1 && p[0] in roots && p[|p| - 1] == b
  {
    forall b
      ensures b in Within(links, roots, WALK_BOUND) <==>
        exists p :: IsPath(links, p) && |p| > 1 && p[0] in roots && p[|p| - 1] == b
    {
      WithinIsLevels(links, roots, WALK_BOUND, b);
      if b in Within(links, roots, WALK_BOUND) {
        var k :| 1 <= k <= WALK_BOUND && b in Level(links, roots, k);
        var p := LevelHasPath(links, roots, k, b);
      }
      if p :| IsPath(links, p) && |p| > 1 && p[0] in roots && p[|p| - 1] == b {
        PathEndsInLevel(links, roots, p);
        if |p| - 1 > WALK_BOUND {
          EmptyBelow(links, roots, WALK_BOUND + 1, |p| - 1);
        }
      }
    }
  }

  // ---- no loops ----------------------------------------------------------------

  /** No work contains itself through any number of links. */
  ghost predicate Acyclic(links: set<Link>) {
    forall p :: IsPath(links, p) && |p| > 1 ==> p[0] != p[|p| - 1]
  }

  /** `to` is `from` or somewhere inside it, however deep. */
  ghost predicate Below(links: set<Link>, from: Book, to: Book) {
    exists p :: IsPath(links, p) && p[0] == from && p[|p| - 1] == to
  }

  lemma BelowStep(links: set<Link>, from: Book, to: Book, next: Book)
    requires Below(links, from, to) && (to, next) in links
    ensures Below(links, from, next)
  {
    var p :| IsPath(links, p) && p[0] == from && p[|p| - 1] == to;
    assert IsPath(links, p + [next]);
  }

  /** A path that has come below `contained` stays there, as long as `container` is
      not below it: only from `container` does the new link lead. */
  lemma {:induction false} StaysBelow(links: set<Link>, container: Book, contained: Book, p: seq<Book>, i: nat, j: nat)
    requires !Below(links, contained, container)
    requires IsPath(links + {(container, contained)}, p) && i <= j < |p|
    requires Below(links, contained, p[i])
    ensures Below(links, contained, p[j])
    decreases j - i
  {
    if i < j {
      assert (p[i], p[i + 1]) in links;
      BelowStep(links, contained, p[i], p[i + 1]);
      StaysBelow(links, container, contained, p, i + 1, j);
    }
  }

  /** One link more keeps the works free of loops exactly when the container is not
      already inside the contained one. */
  lemma LinkKeepsAcyclicIff(links: set<Link>, container: Book, contained: Book)
    requires Acyclic(links)
    ensures Acyclic(links + {(container, contained)}) <==> !Below(links, contained, container)
  {
    var more := links + {(container, contained)};
    if Below(links, contained, container) {
      var q :| IsPath(links, q) && q[0] == contained && q[|q| - 1] == container;
      var p := [container] + q;
      assert IsPath(more, p) && p[0] == p[|p| - 1];
    } else {
      forall p | IsPath(more, p) && |p| > 1
        ensures p[0] != p[|p| - 1]
      {
        if p[0] == p[|p| - 1] {
          if i :| 0 <= i < |p| - 1 && (p[i], p[i + 1]) !in links {
            assert IsPath(links, [contained]);
            StaysBelow(links, container, contained, p, i + 1, |p| - 1);
            StaysBelow(links, container, contained, p, 0, i);
          } else {
            assert IsPath(links, p);
          }
        }
      }
    }
  }

  /** Where Add's bounded check is enough: it misses no loop. */
  ghost predicate CheckSees(links: set<Link>, container: Book, contained: Book) {
    Below(links, contained, container) ==> container == contained || Reaches(links, contained, container)
  }

  /** Add keeps any loop-free table loop-free if and only if the container is not
      hidden below the contained work at more than 32 links and no fewer, or one of
      the two works is gone. In particular it does when nothing below the contained
      work is deeper than 32 links. */
  lemma AddKeepsAcyclicIff(links: set<Link>, books: set<Book>, container: Book, contained: Book)
    requires Acyclic(links)
    ensures Acyclic(Adding(links, books, container, contained).1)
       <==> CheckSees(links, container, contained) || container !in books || contained !in books
    ensures Level(links, {contained}, WALK_BOUND + 1) == {} ==> CheckSees(links, container, contained)
  {
    LinkKeepsAcyclicIff(links, container, contained);
    if Reaches(links, contained, container) {
      ReachesIffPath(links, contained, container);
    }
    if Level(links, {contained}, WALK_BOUND + 1) == {} && Below(links, contained, container) {
      WalkIsWholeClosure(links, {contained});
      var p :| IsPath(links, p) && p[0] == contained && p[|p| - 1] == container;
      assert |p| > 1 ==> p[0] in {contained};
    }
  }

  lemma FewerLinksStayAcyclic(links: set<Link>, fewer: set<Link>)
    requires Acyclic(links) && fewer <= links
    ensures Acyclic(fewer)
  {
    forall p | IsPath(fewer, p) && |p| > 1 ensures p[0] != p[|p| - 1] {
      assert IsPath(links, p);
    }
  }

  datatype Edit = Put(container: Book, contained: Book) | Drop(container: Book, contained: Book)

  function Edited(links: set<Link>, books: set<Book>, e: Edit): set<Link> {
    match e
    case Put(a, b) => Adding(links, books, a, b).1
    case Drop(a, b) => links - {(a, b)}
  }

  ghost predicate StaysAcyclic(links: set<Link>, books: set<Book>, edits: seq<Edit>)
    decreases |edits|
  {
    && Acyclic(links)
    && (edits != [] ==> StaysAcyclic(Edited(links, books, edits[0]), books, edits[1..]))
  }

  ghost predicate ChecksSee(links: set<Link>, books: set<Book>, edits: seq<Edit>)
    decreases |edits|
  {
    edits != [] ==>
      var e := edits[0];
      && (e.Put? ==> CheckSees(links, e.container, e.contained) || e.container !in books || e.contained !in books)
      && ChecksSee(Edited(links, books, e), books, edits[1..])
  }

  /** Over every run of adds and removes the table stays free of loops if and only if
      the bounded check is enough at each add. */
  lemma {:induction false} RunsStayAcyclicIff(links: set<Link>, books: set<Book>, edits: seq<Edit>)
    requires Acyclic(links)
    ensures StaysAcyclic(links, books, edits) <==> ChecksSee(links, books, edits)
    decreases |edits|
  {
    if edits != [] {
      var e := edits[0];
      match e {
        case Put(a, b) => AddKeepsAcyclicIff(links, books, a, b);
        case Drop(a, b) => FewerLinksStayAcyclic(links, links - {(a, b)});
      }
      if Acyclic(Edited(links, books, e)) {
        RunsStayAcyclicIff(Edited(links, books, e), books, edits[1..]);
      }
    }
  }

  // ---- past the bound ----------------------------------------------------------

  /** Works 0..n, each holding the next. */
  function Chain(n: nat): (links: set<Link>)
    ensures forall l :: l in links <==> l.0 < n && l.1 == l.0 + 1
  {
    if n == 0 then {} else Chain(n - 1) + {(n - 1, n)}
  }

  lemma {:induction false} ChainLevel(n: nat, k: nat)
    requires k <= n
    ensures Level(Chain(n), {0}, k) == {k}
  {
    if k > 0 {
      ChainLevel(n, k - 1);
      assert (k - 1, k) in Chain(n);
    }
  }

  lemma {:induction false} ChainClimbs(n: nat, p: seq<Book>)
    requires IsPath(Chain(n), p)
    ensures p[|p| - 1] == p[0] + |p| - 1
    decreases |p|
  {
    if |p| > 1 {
      ChainClimbs(n, p[..|p| - 1]);
      assert (p[|p| - 2], p[|p| - 1]) in Chain(n);
    }
  }

  /** A loop the check does not see: a chain of more than 32 links closed on itself
      is accepted. */
  lemma LongChainCloses(n: nat, books: set<Book>)
    requires n > WALK_BOUND && 0 in books && n in books
    ensures Acyclic(Chain(n))
    ensures Adding(Chain(n), books, n, 0).0 == Added
    ensures !Acyclic(Adding(Chain(n), books, n, 0).1)
  {
    forall p | IsPath(Chain(n), p) && |p| > 1 ensures p[0] != p[|p| - 1] {
      ChainClimbs(n, p);
    }
    WithinIsLevels(Chain(n), {0}, WALK_BOUND, n);
    forall k | 1 <= k <= WALK_BOUND ensures n !in Level(Chain(n), {0}, k) {
      ChainLevel(n, k);
    }
    ChainLevel(n, n);
    var p := LevelHasPath(Chain(n), {0}, n, n);
    assert Below(Chain(n), 0, n);
    LinkKeepsAcyclicIff(Chain(n), n, 0);
  }
}
