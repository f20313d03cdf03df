/** ORDER BY .. LIMIT n and OFFSET n over a finite set of rows, by counting the rows
    that come earlier.
 */
module Ranking {

  /** `before` orders the elements of s one after another, without ties. */
  ghost predicate StrictOrder<T(!new)>(before: (T, T) -> bool, s: set<T>) {
    && (forall x | x in s :: !before(x, x))
    && (forall x, y | x in s && y in s :: x == y || before(x, y) || before(y, x))
    && (forall x, y, z | x in s && y in s && z in s && before(x, y) && before(y, z) :: before(x, z))
  }

  function Ahead<T>(s: set<T>, before: (T, T) -> bool, x: T): set<T> {
    set y | y in s && before(y, x)
  }

  /** The first n rows of s. */
  function First<T>(s: set<T>, before: (T, T) -> bool, n: nat): set<T> {
    set x | x in s && |Ahead(s, before, x)| < n
  }

  lemma {:induction false} HasLast<T(!new)>(s: set<T>, before: (T, T) -> bool) returns (m: T)
    requires s != {} && StrictOrder(before, s)
    ensures m in s && forall x | x in s :: !before(m, x)
  {
    var c :| c in s;
    var rest := s - {c};
    assert forall x :: x in s ==> x == c || x in rest;
    m := c;
    if rest != {} {
      var r := HasLast(rest, before);
      if before(c, r) {
        m := r;
        assert before(r, c) ==> before(c, c);
      } else {
        assert before(r, c);
        assert forall x :: x in rest && before(c, x) ==> before(r, x);
      }
    }
  }

  /** LIMIT n keeps n rows, or all there are. */
  lemma {:induction false} FirstCount<T(!new)>(s: set<T>, before: (T, T) -> bool, n: nat)
    requires StrictOrder(before, s)
    ensures |First(s, before, n)| == if n <= |s| then n else |s|
    decreases |s|
  {
    if s != {} {
      var m := HasLast(s, before);
      var rest := s - {m};
      FirstCount(rest, before, n);
      assert Ahead(s, before, m) == rest;
      forall x | x in rest ensures Ahead(s, before, x) == Ahead(rest, before, x) {
      }
      if |rest| < n {
        assert First(s, before, n) == First(rest, before, n) + {m};
      } else {
        assert First(s, before, n) == First(rest, before, n);
      }
    }
  }

  /** Nothing past the cut comes before anything inside it. */
  lemma FirstComesFirst<T(!new)>(s: set<T>, before: (T, T) -> bool, n: nat, x: T, y: T)
    requires StrictOrder(before, s)
    requires x in First(s, before, n) && y in s - First(s, before, n)
    ensures before(x, y)
  {
    if !before(x, y) {
      assert before(y, x);
      assert Ahead(s, before, y) <= Ahead(s, before, x);
      SubsetIsSmaller(Ahead(s, before, y), Ahead(s, before, x));
    }
  }

  lemma {:induction false} SubsetIsSmaller<T>(a: set<T>, b: set<T>)
    requires a <= b
    ensures |a| <= |b|
  {
    assert b == a + (b - a);
  }

  /** A limit no smaller than the set keeps all of it. */
  lemma FirstKeepsAll<T(!new)>(s: set<T>, before: (T, T) -> bool, n: nat)
    requires StrictOrder(before, s) && |s| <= n
    ensures First(s, before, n) == s
  {
    forall x | x in s ensures |Ahead(s, before, x)| < n {
      SubsetIsSmaller(Ahead(s, before, x), s - {x});
    }
  }

  /** Cutting an initial stretch of s is cutting s: the rows after the stretch do not
      count towards anybody's rank inside it. */
  lemma FirstOfStretch<T(!new)>(s: set<T>, before: (T, T) -> bool, n: nat, stretch: set<T>)
    requires stretch <= s
    requires forall x, y | x in stretch && y in s - stretch :: !before(y, x)
    ensures First(stretch, before, n) == First(s, before, n) * stretch
  {
    forall x | x in stretch ensures Ahead(stretch, before, x) == Ahead(s, before, x) {
    }
  }
}
