/** Counting a library's copies of an edition (internal/repository/library_books.go).
 */
module Copies {
  // A count is not a column: it is the number of live rows. Setting it retires,
  // adopts and adds rows until it is right. IncrementCopyCount is in editions.go.

  import opened Wrappers
  import opened Ranking

  type Id = nat

  /** A row of copies. Deleting is soft. */
  datatype Copy = Copy(
    library: nat, book: nat, edition: Option<nat>, acquired: Option<int>,
    signed: bool, condition: Option<string>, notes: string, price: Option<int>,
    created: int, deleted: bool)
  {
    /** How many of the row's details somebody filled in. */
    function Described(): nat {
      (if signed then 1 else 0) + (if condition.Some? then 1 else 0)
      + (if notes != "" then 1 else 0) + (if price.Some? then 1 else 0)
    }

    predicate LiveOf(lib: nat, ed: nat) { library == lib && edition == Some(ed) && !deleted }

    predicate WaitingFor(lib: nat, b: nat) { library == lib && book == b && edition == None && !deleted }

    predicate HeldBy(lib: nat, b: nat) { library == lib && book == b && !deleted }
  }

  /** The table, and the id the next row gets. */
  datatype Table = Table(rows: map<Id, Copy>, next: Id) {
    ghost predicate Valid() { forall i :: i in rows ==> i < next }
  }

  /** The books the editions are editions of. */
  type Editions = map<nat, nat>

  // ---- the rows a statement selects --------------------------------------------

  /** The live copies of an edition in a library. */
  function Live(t: Table, library: nat, edition: nat): set<Id> {
    set i | i in t.rows && t.rows[i].LiveOf(library, edition)
  }

  /** The live copies of a book in a library that have no edition yet. */
  function Editionless(t: Table, library: nat, book: nat): set<Id> {
    set i | i in t.rows && t.rows[i].WaitingFor(library, book)
  }

  /** All live copies of a book in a library. */
  function Holdings(t: Table, library: nat, book: nat): set<Id> {
    set i | i in t.rows && t.rows[i].HeldBy(library, book)
  }

  /** ORDER BY describedness ASC, created_at DESC, id DESC. */
  predicate PlainerFirst(rows: map<Id, Copy>, a: Id, b: Id) {
    && a in rows && b in rows
    && var (da, db) := (rows[a].Described(), rows[b].Described());
       || da < db
       || (da == db && rows[a].created > rows[b].created)
       || (da == db && rows[a].created == rows[b].created && a > b)
  }

  /** ORDER BY created_at; the server may break ties as it likes, here by id. */
  predicate OlderFirst(rows: map<Id, Copy>, a: Id, b: Id) {
    && a in rows && b in rows
    && (rows[a].created < rows[b].created || (rows[a].created == rows[b].created && a < b))
  }

  function ByPlainness(t: Table): (Id, Id) -> bool {
    (a: Id, b: Id) => PlainerFirst(t.rows, a, b)
  }

  function ByAge(t: Table): (Id, Id) -> bool {
    (a: Id, b: Id) => OlderFirst(t.rows, a, b)
  }

  function AtLeastZero(n: int): nat { if n < 0 then 0 else n }

  // ---- the statements ----------------------------------------------------------

  function Retire(t: Table, ids: set<Id>): Table {
    t.(rows := map i | i in t.rows :: if i in ids then t.rows[i].(deleted := true) else t.rows[i])
  }

  /** The rows the OFFSET leaves: everything past the first n in the sort order. */
  function Surplus(t: Table, library: nat, edition: nat, n: nat): set<Id> {
    Live(t, library, edition) - First(Live(t, library, edition), ByPlainness(t), n)
  }

  function Adopt(t: Table, ids: set<Id>, edition: nat, acquired: Option<int>): Table {
    t.(rows := map i | i in t.rows ::
      if i in ids then
        var was := t.rows[i].acquired;
        t.rows[i].(edition := Some(edition), acquired := if was.Some? then was else acquired)
      else t.rows[i])
  }

  function Adopted(t: Table, library: nat, edition: nat, book: nat, n: int): set<Id> {
    First(Editionless(t, library, book), ByAge(t), AtLeastZero(n - |Live(t, library, edition)|))
  }

  function Plain(library: nat, book: nat, edition: Option<nat>, acquired: Option<int>, now: int): Copy {
    Copy(library, book, edition, acquired, false, None, "", None, now, false)
  }

  function Range(from: nat, n: nat): (s: set<Id>)
    ensures forall i :: i in s <==> from <= i < from + n
  {
    if n == 0 then {} else Range(from, n - 1) + {from + n - 1}
  }

  /** INSERT .. SELECT over generate_series(1, n): n new rows under the next n ids. */
  function Insert(t: Table, n: nat, row: Copy): Table {
    Table(map i | i in t.rows.Keys + Range(t.next, n) :: if i in t.rows then t.rows[i] else row, t.next + n)
  }

  /** After the first statement, for a positive count. */
  function Kept(t: Table, library: nat, edition: nat, n: nat): Table {
    Retire(t, Surplus(t, library, edition, n))
  }

  /** After the second statement. */
  function KeptAndAdopted(t: Table, library: nat, edition: nat, book: nat, n: nat, acquired: Option<int>): Table {
    var kept := Kept(t, library, edition, n);
    Adopt(kept, Adopted(kept, library, edition, book, n), edition, acquired)
  }

  /** The third statement. */
  function TopUp(t: Table, library: nat, edition: nat, book: nat, n: nat, acquired: Option<int>, now: int): Table {
    Insert(t, AtLeastZero(n - |Live(t, library, edition)|), Plain(library, book, Some(edition), acquired, now))
  }

  function SetCount(
    t: Table, editions: Editions, library: nat, edition: nat, n: int, acquired: Option<int>, now: int): Table
  {
    if n <= 0 then Retire(t, Live(t, library, edition))
    else if edition !in editions then Kept(t, library, edition, n)
    else
      var book := editions[edition];
      TopUp(KeptAndAdopted(t, library, edition, book, n, acquired), library, edition, book, n, acquired, now)
  }

  function Increment(t: Table, editions: Editions, library: nat, edition: nat, now: int): Table {
    if edition !in editions then t
    else
      var book := editions[edition];
      var adopted := First(Editionless(t, library, book), ByAge(t), 1);
      if adopted == {} then Insert(t, 1, Plain(library, book, Some(edition), None, now))
      else Adopt(t, adopted, edition, None)
  }

  function AddBook(t: Table, library: nat, book: nat, now: int): Table {
    if Holdings(t, library, book) == {} then Insert(t, 1, Plain(library, book, None, None, now)) else t
  }

  /** The repository: the table its statements rewrite. */
  class CopyRepo {
    const editions: Editions
    var rows: map<Id, Copy>
    var next: Id

    constructor (editions: Editions)
      ensures this.editions == editions && State() == Table(map[], 0)
    {
      this.editions, rows, next := editions, map[], 0;
    }

    function State(): Table
      reads this
    {
      Table(rows, next)
    }

    method InsertRows(n: nat, row: Copy)
      modifies this
      ensures State() == Insert(old(State()), n, row)
    {
      var t := Insert(State(), n, row);
      rows, next := t.rows, t.next;
    }

    method SetEditionCopyCount(library: nat, edition: nat, n: int, acquired: Option<int>, now: int)
      modifies this
      ensures State() == SetCount(old(State()), editions, library, edition, n, acquired, now)
    {
      if n <= 0 {
        rows := Retire(State(), Live(State(), library, edition)).rows;
        return;
      }
      rows := Kept(State(), library, edition, n).rows;
      if edition in editions {
        var book := editions[edition];
        rows := Adopt(State(), Adopted(State(), library, edition, book, n), edition, acquired).rows;
        var missing := AtLeastZero(n - |Live(State(), library, edition)|);
        InsertRows(missing, Plain(library, book, Some(edition), acquired, now));
      }
    }

    method GetEditionCopyCount(library: nat, edition: nat) returns (count: nat)
      ensures count == |Live(State(), library, edition)|
    {
      count := |Live(State(), library, edition)|;
    }

    /** What is set is what is read back: the count asked for, or for an edition nobody
        knows as much of it as was there. */
    method SetThenGet(library: nat, edition: nat, n: int, acquired: Option<int>, now: int) returns (count: nat)
      requires State().Valid()
      modifies this
      ensures edition in editions ==> count == AtLeastZero(n)
      ensures edition !in editions ==> count <= AtLeastZero(n) && count <= |Live(old(State()), library, edition)|
      ensures edition !in editions ==> count == AtLeastZero(n) || count == |Live(old(State()), library, edition)|
    {
      CountIsExact(State(), editions, library, edition, n, acquired, now);
      SetEditionCopyCount(library, edition, n, acquired, now);
      count := GetEditionCopyCount(library, edition);
    }

    method IncrementCopyCount(library: nat, edition: nat, now: int)
      modifies this
      ensures State() == Increment(old(State()), editions, library, edition, now)
    {
      if edition !in editions { return; }
      var book := editions[edition];
      var adopted := First(Editionless(State(), library, book), ByAge(State()), 1);
      if adopted == {} {
        InsertRows(1, Plain(library, book, Some(edition), None, now));
      } else {
        rows := Adopt(State(), adopted, edition, None).rows;
      }
    }

    method AddBookToLibrary(library: nat, book: nat, now: int)
      modifies this
      ensures State() == AddBook(old(State()), library, book, now)
    {
      if Holdings(State(), library, book) == {} {
        InsertRows(1, Plain(library, book, None, None, now));
      }
    }

    method RemoveBookFromLibrary(library: nat, book: nat) returns (found: bool)
      modifies this
      ensures State() == Retire(old(State()), Holdings(old(State()), library, book))
      ensures found <==> Holdings(old(State()), library, book) != {}
      ensures Holdings(State(), library, book) == {}
    {
      var held := Holdings(State(), library, book);
      found := held != {};
      rows := Retire(State(), held).rows;
    }
  }

  // ---- the orders --------------------------------------------------------------

  lemma PlainnessOrders(t: Table, s: set<Id>)
    requires s <= t.rows.Keys
    ensures StrictOrder(ByPlainness(t), s)
  {
  }

  lemma AgeOrders(t: Table, s: set<Id>)
    requires s <= t.rows.Keys
    ensures StrictOrder(ByAge(t), s)
  {
  }

  // ---- inserting ---------------------------------------------------------------

  lemma {:induction false} RangeSize(from: nat, n: nat)
    ensures |Range(from, n)| == n
  {
    if n > 0 {
      RangeSize(from, n - 1);
    }
  }

  lemma InsertStaysValid(t: Table, n: nat, row: Copy)
    requires t.Valid()
    ensures Insert(t, n, row).Valid()
  {
  }

  /** New copies of an edition count towards it, and leave nothing else to count. */
  lemma InsertCounts(t: Table, n: nat, row: Copy, library: nat, book: nat, edition: nat)
    requires t.Valid() && row.LiveOf(library, edition)
    ensures var u := Insert(t, n, row);
            && Live(u, library, edition) == Live(t, library, edition) + Range(t.next, n)
            && Live(t, library, edition) !! Range(t.next, n)
            && |Live(u, library, edition)| == |Live(t, library, edition)| + n
            && Editionless(u, library, book) == Editionless(t, library, book)
  {
    InsertedAreLive(t, n, row, library, edition);
    RangeSize(t.next, n);
    InsertedAreNotLoose(t, n, row, library, book, edition);
  }

  lemma InsertedAreLive(t: Table, n: nat, row: Copy, library: nat, edition: nat)
    requires t.Valid() && row.LiveOf(library, edition)
    ensures Live(Insert(t, n, row), library, edition) == Live(t, library, edition) + Range(t.next, n)
    ensures Live(t, library, edition) !! Range(t.next, n)
  {
  }

  lemma InsertedAreNotLoose(t: Table, n: nat, row: Copy, library: nat, book: nat, edition: nat)
    requires t.Valid() && row.LiveOf(library, edition)
    ensures Editionless(Insert(t, n, row), library, book) == Editionless(t, library, book)
  {
  }

  lemma InsertHolds(t: Table, n: nat, row: Copy)
    requires t.Valid() && !row.deleted
    ensures |Holdings(Insert(t, n, row), row.library, row.book)| == |Holdings(t, row.library, row.book)| + n
  {
    var held := Holdings(t, row.library, row.book);
    assert Holdings(Insert(t, n, row), row.library, row.book) == held + Range(t.next, n);
    assert held !! Range(t.next, n);
    RangeSize(t.next, n);
  }

  // ---- retiring and adopting ---------------------------------------------------

  lemma RetireKeepsFirst(t: Table, library: nat, edition: nat, n: nat, book: nat)
    ensures var kept := Retire(t, Surplus(t, library, edition, n));
            && Live(kept, library, edition) == First(Live(t, library, edition), ByPlainness(t), n)
            && |Live(kept, library, edition)|
                 == (if n <= |Live(t, library, edition)| then n else |Live(t, library, edition)|)
            && Editionless(kept, library, book) == Editionless(t, library, book)
  {
    PlainnessOrders(t, Live(t, library, edition));
    FirstCount(Live(t, library, edition), ByPlainness(t), n);
  }

  lemma AdoptMoves(t: Table, ids: set<Id>, library: nat, edition: nat, book: nat, acquired: Option<int>)
    requires ids <= Editionless(t, library, book)
    ensures var u := Adopt(t, ids, edition, acquired);
            && Live(u, library, edition) == Live(t, library, edition) + ids
            && |Live(u, library, edition)| == |Live(t, library, edition)| + |ids|
            && Editionless(u, library, book) == Editionless(t, library, book) - ids
            && Holdings(u, library, book) == Holdings(t, library, book)
  {
    AdoptedAreLive(t, ids, library, edition, book, acquired);
    AdoptedAreNotLoose(t, ids, library, edition, book, acquired);
    AdoptedStayHeld(t, ids, library, edition, book, acquired);
  }

  lemma AdoptedAreLive(t: Table, ids: set<Id>, library: nat, edition: nat, book: nat, acquired: Option<int>)
    requires ids <= Editionless(t, library, book)
    ensures Live(Adopt(t, ids, edition, acquired), library, edition) == Live(t, library, edition) + ids
    ensures Live(t, library, edition) !! ids
  {
  }

  lemma AdoptedAreNotLoose(t: Table, ids: set<Id>, library: nat, edition: nat, book: nat, acquired: Option<int>)
    requires ids <= Editionless(t, library, book)
    ensures Editionless(Adopt(t, ids, edition, acquired), library, book) == Editionless(t, library, book) - ids
  {
  }

  lemma AdoptedStayHeld(t: Table, ids: set<Id>, library: nat, edition: nat, book: nat, acquired: Option<int>)
    requires ids <= Editionless(t, library, book)
    ensures Holdings(Adopt(t, ids, edition, acquired), library, book) == Holdings(t, library, book)
  {
  }

  lemma AdoptedCount(t: Table, library: nat, edition: nat, book: nat, n: int)
    ensures var ids := Adopted(t, library, edition, book, n);
            var shortfall := AtLeastZero(n - |Live(t, library, edition)|);
            && ids <= Editionless(t, library, book)
            && |ids| <= shortfall
            && (|ids| < shortfall ==> ids == Editionless(t, library, book))
  {
    var waiting := Editionless(t, library, book);
    var shortfall := AtLeastZero(n - |Live(t, library, edition)|);
    AgeOrders(t, waiting);
    FirstCount(waiting, ByAge(t), shortfall);
    if |waiting| <= shortfall {
      FirstKeepsAll(waiting, ByAge(t), shortfall);
    }
  }

  // ---- setting the count -------------------------------------------------------

  /** After retiring and adopting, the live copies are the first n of those there were
      and the adopted ones. */
  lemma KeepThenAdopt(t: Table, library: nat, edition: nat, book: nat, n: nat, acquired: Option<int>)
      returns (ids: set<Id>)
    ensures var u := KeptAndAdopted(t, library, edition, book, n, acquired);
            var first := First(Live(t, library, edition), ByPlainness(t), n);
            && u.next == t.next && (t.Valid() ==> u.Valid())
            && Live(u, library, edition) == first + ids
            && first !! ids && |Live(u, library, edition)| == |first| + |ids| <= n
            && ids <= Editionless(t, library, book) && ids !! Live(t, library, edition)
            && Editionless(u, library, book) == Editionless(t, library, book) - ids
            && (|first| + |ids| < n ==> ids == Editionless(t, library, book))
  {
    var kept := Kept(t, library, edition, n);
    RetireKeepsFirst(t, library, edition, n, book);
    AdoptedCount(kept, library, edition, book, n);
    ids := Adopted(kept, library, edition, book, n);
    AdoptMoves(kept, ids, library, edition, book, acquired);
  }

  lemma TopUpFills(t: Table, library: nat, edition: nat, book: nat, n: nat, acquired: Option<int>, now: int)
    requires t.Valid() && |Live(t, library, edition)| <= n
    ensures var u := TopUp(t, library, edition, book, n, acquired, now);
            var missing := n - |Live(t, library, edition)|;
            && u.Valid() && u.next == t.next + missing
            && Live(u, library, edition) == Live(t, library, edition) + Range(t.next, missing)
            && |Live(u, library, edition)| == n
            && Editionless(u, library, book) == Editionless(t, library, book)
  {
    var missing := n - |Live(t, library, edition)|;
    var row := Plain(library, book, Some(edition), acquired, now);
    InsertStaysValid(t, missing, row);
    InsertCounts(t, missing, row, library, book, edition);
  }

  /** Where the live copies of the edition come from: the first n of those there were,
      adopted ones, new ones; and when the new ones start, nothing is left to adopt. */
  lemma LiveCopiesAfterwards(
    t: Table, editions: Editions, library: nat, edition: nat, n: nat, acquired: Option<int>, now: int)
    returns (adopted: set<Id>, missing: nat)
    requires t.Valid() && n > 0 && edition in editions
    ensures var u := SetCount(t, editions, library, edition, n, acquired, now);
            var book := editions[edition];
            && u.Valid() && u.next == t.next + missing
            && Live(u, library, edition)
                 == First(Live(t, library, edition), ByPlainness(t), n) + adopted + Range(t.next, missing)
            && |Live(u, library, edition)| == n
            && adopted <= Editionless(t, library, book) && adopted !! Live(t, library, edition)
            && Editionless(u, library, book) == Editionless(t, library, book) - adopted
            && (missing > 0 ==> adopted == Editionless(t, library, book))
  {
    var book := editions[edition];
    adopted := KeepThenAdopt(t, library, edition, book, n, acquired);
    missing := ThenTopUp(t, KeptAndAdopted(t, library, edition, book, n, acquired), library, edition, book, n, acquired,
      now, adopted);
  }

  /** The third step, from any table the first two may leave. */
  lemma ThenTopUp(
    t: Table, third: Table, library: nat, edition: nat, book: nat, n: nat, acquired: Option<int>, now: int,
    adopted: set<Id>)
    returns (missing: nat)
    requires third.Valid() && third.next == t.next && |Live(third, library, edition)| <= n
    requires |Live(third, library, edition)| < n ==> adopted == Editionless(t, library, book)
    requires Editionless(third, library, book) == Editionless(t, library, book) - adopted
    ensures var u := TopUp(third, library, edition, book, n, acquired, now);
            && u.Valid() && u.next == t.next + missing && |Live(u, library, edition)| == n
            && Live(u, library, edition) == Live(third, library, edition) + Range(t.next, missing)
            && Editionless(u, library, book) == Editionless(t, library, book) - adopted
            && (missing > 0 ==> adopted == Editionless(t, library, book))
  {
    missing := n - |Live(third, library, edition)|;
    TopUpFills(third, library, edition, book, n, acquired, now);
  }

  /** Whatever the table held, afterwards the library holds exactly the number asked
      for, none for a negative one; and a row was added only after every copy of the
      book without an edition had been given this one. An unknown edition only loses
      its surplus. */
  lemma CountIsExact(
    t: Table, editions: Editions, library: nat, edition: nat, n: int, acquired: Option<int>, now: int)
    requires t.Valid()
    ensures var u := SetCount(t, editions, library, edition, n, acquired, now);
            && u.Valid()
            && (edition in editions ==> |Live(u, library, edition)| == AtLeastZero(n))
            && (edition !in editions ==>
                  |Live(u, library, edition)| ==
                  if AtLeastZero(n) <= |Live(t, library, edition)| then AtLeastZero(n) else |Live(t, library, edition)|)
            && (u.next > t.next ==> edition in editions && Editionless(u, library, editions[edition]) == {})
  {
    if n <= 0 {
      assert Live(Retire(t, Live(t, library, edition)), library, edition) == {};
    } else if edition !in editions {
      RetireKeepsFirst(t, library, edition, n, 0);
    } else {
      var adopted, missing := LiveCopiesAfterwards(t, editions, library, edition, n, acquired, now);
    }
  }

  /** Setting the same count again changes nothing. */
  lemma SettingTwiceIsSettingOnce(
    t: Table, editions: Editions, library: nat, edition: nat, n: int, acquired: Option<int>, now: int,
    acquired': Option<int>, now': int)
    requires t.Valid()
    ensures var u := SetCount(t, editions, library, edition, n, acquired, now);
            SetCount(u, editions, library, edition, n, acquired', now') == u
  {
    CountIsExact(t, editions, library, edition, n, acquired, now);
    RightCountIsLeftAlone(SetCount(t, editions, library, edition, n, acquired, now), editions, library, edition, n,
      acquired', now');
  }

  lemma RightCountIsLeftAlone(
    u: Table, editions: Editions, library: nat, edition: nat, n: int, acquired: Option<int>, now: int)
    requires |Live(u, library, edition)| <= AtLeastZero(n)
    requires edition in editions ==> |Live(u, library, edition)| == AtLeastZero(n)
    ensures SetCount(u, editions, library, edition, n, acquired, now) == u
  {
    if n <= 0 {
      assert Live(u, library, edition) == {};
      assert Retire(u, {}) == u;
    } else {
      NoSurplus(u, library, edition, n);
      if edition in editions {
        var book := editions[edition];
        assert Adopted(u, library, edition, book, n) == {};
        assert Adopt(u, {}, edition, acquired) == u;
        NothingMissing(u, library, edition, book, n, acquired, now);
      }
    }
  }

  lemma NoSurplus(t: Table, library: nat, edition: nat, n: nat)
    requires |Live(t, library, edition)| <= n
    ensures Kept(t, library, edition, n) == t
  {
    PlainnessOrders(t, Live(t, library, edition));
    FirstKeepsAll(Live(t, library, edition), ByPlainness(t), n);
    assert Surplus(t, library, edition, n) == {};
    assert Retire(t, {}) == t;
  }

  lemma NothingMissing(t: Table, library: nat, edition: nat, book: nat, n: nat, acquired: Option<int>, now: int)
    requires |Live(t, library, edition)| == n
    ensures TopUp(t, library, edition, book, n, acquired, now) == t
  {
  }

  /** No row disappears, and only two kinds of row change: a live copy of this edition
      in this library may be retired, a copy of its book there without an edition may
      be given it. Everything else, in this library and every other, is untouched. */
  lemma TouchesNothingElse(
    t: Table, editions: Editions, library: nat, edition: nat, n: int, acquired: Option<int>, now: int, i: Id)
    requires t.Valid() && i in t.rows
    ensures var u := SetCount(t, editions, library, edition, n, acquired, now);
            && i in u.rows
            && var (was, is_) := (t.rows[i], u.rows[i]);
               || is_ == was
               || (i in Live(t, library, edition) && is_ == was.(deleted := true))
               || (edition in editions && i in Editionless(t, library, editions[edition])
                   && is_ == was.(edition := Some(edition),
                                  acquired := if was.acquired.Some? then was.acquired else acquired))
  {
    if n > 0 && edition in editions {
      var kept := Kept(t, library, edition, n);
      RetireKeepsFirst(t, library, edition, n, editions[edition]);
      AdoptedCount(kept, library, edition, editions[edition], n);
    }
  }

  /** The rows added are copies of the edition in the library, with nothing filled in but
      the date they were acquired, if one was given. */
  lemma NewRowsAreItsOwn(
    t: Table, editions: Editions, library: nat, edition: nat, n: int, acquired: Option<int>, now: int, i: Id)
    requires i in SetCount(t, editions, library, edition, n, acquired, now).rows && i !in t.rows
    ensures edition in editions
    ensures SetCount(t, editions, library, edition, n, acquired, now).rows[i]
         == Copy(library, editions[edition], Some(edition), acquired, false, None, "", None, now, false)
  {
    if n > 0 && edition in editions {
      assert KeptAndAdopted(t, library, edition, editions[edition], n, acquired).rows.Keys == t.rows.Keys;
    }
  }

  /** Setting a count changes the live copies of no other edition and of no other library,
      and a library that is not asked about holds exactly what it held. */
  lemma CountsElsewhereStay(
    t: Table, editions: Editions, library: nat, edition: nat, n: int, acquired: Option<int>, now: int,
    lib: nat, ed: nat, book: nat)
    requires t.Valid()
    ensures var u := SetCount(t, editions, library, edition, n, acquired, now);
            && (lib != library || ed != edition ==> Live(u, lib, ed) == Live(t, lib, ed))
            && (lib != library ==> Holdings(u, lib, book) == Holdings(t, lib, book))
  {
    var u := SetCount(t, editions, library, edition, n, acquired, now);
    forall i
      ensures lib != library || ed != edition ==> (i in Live(u, lib, ed) <==> i in Live(t, lib, ed))
      ensures lib != library ==> (i in Holdings(u, lib, book) <==> i in Holdings(t, lib, book))
    {
      if i in t.rows {
        TouchesNothingElse(t, editions, library, edition, n, acquired, now, i);
      } else if i in u.rows {
        NewRowsAreItsOwn(t, editions, library, edition, n, acquired, now, i);
      }
    }
  }

  /** The copies of the edition that were live and still are. */
  function KeptLive(t: Table, editions: Editions, library: nat, edition: nat, n: int, acquired: Option<int>,
      now: int): set<Id> {
    Live(t, library, edition) * Live(SetCount(t, editions, library, edition, n, acquired, now), library, edition)
  }

  lemma KeptAreFirst(
    t: Table, editions: Editions, library: nat, edition: nat, n: int, acquired: Option<int>, now: int)
    requires t.Valid()
    ensures KeptLive(t, editions, library, edition, n, acquired, now)
         == First(Live(t, library, edition), ByPlainness(t), AtLeastZero(n))
  {
    var live := Live(t, library, edition);
    if n <= 0 {
      assert Live(Retire(t, live), library, edition) == {};
      assert First(live, ByPlainness(t), 0) == {};
    } else if edition !in editions {
      RetireKeepsFirst(t, library, edition, n, 0);
    } else {
      var adopted, missing := LiveCopiesAfterwards(t, editions, library, edition, n, acquired, now);
      NewIdsAreNew(t, library, edition, missing);
      NothingElseWasLive(live, First(live, ByPlainness(t), n), adopted, Range(t.next, missing));
    }
  }

  lemma NewIdsAreNew(t: Table, library: nat, edition: nat, n: nat)
    requires t.Valid()
    ensures Live(t, library, edition) !! Range(t.next, n)
  {
  }

  lemma NothingElseWasLive(live: set<Id>, first: set<Id>, adopted: set<Id>, added: set<Id>)
    requires first <= live && live !! adopted && live !! added
    ensures live * (first + adopted + added) == first
  {
  }

  /** Kept and retired copies are never interleaved: every kept one comes before every
      retired one in the sort order, so it is described no better. */
  lemma KeptComeBeforeRetired(
    t: Table, editions: Editions, library: nat, edition: nat, n: int, acquired: Option<int>, now: int, k: Id, r: Id)
    requires t.Valid()
    requires k in KeptLive(t, editions, library, edition, n, acquired, now)
    requires r in Live(t, library, edition) - KeptLive(t, editions, library, edition, n, acquired, now)
    ensures PlainerFirst(t.rows, k, r) && t.rows[k].Described() <= t.rows[r].Described()
  {
    KeptAreFirst(t, editions, library, edition, n, acquired, now);
    PlainnessOrders(t, Live(t, library, edition));
    FirstComesFirst(Live(t, library, edition), ByPlainness(t), AtLeastZero(n), k, r);
  }

  // ---- what the order is -------------------------------------------------------

  /** c has every detail that d has, and one that d has not. */
  ghost predicate Fuller(c: Copy, d: Copy) {
    && (d.signed ==> c.signed) && (d.condition.Some? ==> c.condition.Some?)
    && (d.notes != "" ==> c.notes != "") && (d.price.Some? ==> c.price.Some?)
    && ((c.signed && !d.signed) || (c.condition.Some? && d.condition.None?)
        || (c.notes != "" && d.notes == "") || (c.price.Some? && d.price.None?))
  }

  /** The same details are filled in. */
  ghost predicate AsFull(c: Copy, d: Copy) {
    && (c.signed <==> d.signed) && (c.condition.Some? <==> d.condition.Some?)
    && (c.notes != "" <==> d.notes != "") && (c.price.Some? <==> d.price.Some?)
  }

  /** Whichever detail it is that one copy has over another, it goes before the other does;
      of two with the same details the older one goes first, and of two of one age the
      one with the lower id. */
  lemma FullerGoesFirst(
    t: Table, editions: Editions, library: nat, edition: nat, n: int, acquired: Option<int>, now: int, i: Id, j: Id)
    requires t.Valid() && i in Live(t, library, edition) && j in Live(t, library, edition)
    requires var (c, d) := (t.rows[i], t.rows[j]);
             Fuller(c, d) || (AsFull(c, d) && (c.created < d.created || (c.created == d.created && i < j)))
    requires i in KeptLive(t, editions, library, edition, n, acquired, now)
    ensures j in KeptLive(t, editions, library, edition, n, acquired, now)
  {
    if j !in KeptLive(t, editions, library, edition, n, acquired, now) {
      KeptComeBeforeRetired(t, editions, library, edition, n, acquired, now, i, j);
      assert false;
    }
  }

  /** Of the copies that wait for an edition none is given one while an older one waits on. */
  lemma OldestAreAdopted(
    t: Table, editions: Editions, library: nat, edition: nat, n: int, acquired: Option<int>, now: int, i: Id, j: Id)
    requires t.Valid() && edition in editions
    requires i in Editionless(t, library, editions[edition]) && j in Editionless(t, library, editions[edition])
    requires var u := SetCount(t, editions, library, edition, n, acquired, now);
             i in u.rows && j in u.rows && u.rows[i].edition == Some(edition) && u.rows[j].edition == None
    ensures t.rows[i].created <= t.rows[j].created
  {
    if n > 0 {
      var kept := Kept(t, library, edition, n);
      var waiting := Editionless(kept, library, editions[edition]);
      var many := AtLeastZero(n - |Live(kept, library, edition)|);
      RetireKeepsFirst(t, library, edition, n, editions[edition]);
      AgeOrders(kept, waiting);
      assert i in First(waiting, ByAge(kept), many) && j in waiting - First(waiting, ByAge(kept), many);
      FirstComesFirst(waiting, ByAge(kept), many, i, j);
      assert kept.rows[i].created == t.rows[i].created && kept.rows[j].created == t.rows[j].created;
    }
  }

  /** What the comment promises: the copies retired are the ones carrying the least. */
  ghost predicate RetiresThePlain(
    t: Table, editions: Editions, library: nat, edition: nat, n: int, acquired: Option<int>, now: int)
  {
    var kept := KeptLive(t, editions, library, edition, n, acquired, now);
    forall k, r :: k in kept && r in Live(t, library, edition) - kept ==> t.rows[r].Described() <= t.rows[k].Described()
  }

  /** The statement does the opposite. The promise is kept exactly when there is
      nothing to choose: no surplus, nothing to keep, or all copies equally described. */
  lemma RetiresThePlainIff(
    t: Table, editions: Editions, library: nat, edition: nat, n: int, acquired: Option<int>, now: int)
    requires t.Valid()
    ensures RetiresThePlain(t, editions, library, edition, n, acquired, now) <==>
            || n <= 0 || n >= |Live(t, library, edition)|
            || forall i, j :: i in Live(t, library, edition) && j in Live(t, library, edition)
                 ==> t.rows[i].Described() == t.rows[j].Described()
  {
    var live := Live(t, library, edition);
    var kept := KeptLive(t, editions, library, edition, n, acquired, now);
    KeptAreFirst(t, editions, library, edition, n, acquired, now);
    PlainnessOrders(t, live);
    FirstCount(live, ByPlainness(t), AtLeastZero(n));
    forall k, r | k in kept && r in live - kept
      ensures t.rows[k].Described() <= t.rows[r].Described()
    {
      KeptComeBeforeRetired(t, editions, library, edition, n, acquired, now, k, r);
    }
    if n >= |live| {
      FirstKeepsAll(live, ByPlainness(t), AtLeastZero(n));
    } else if n > 0 && RetiresThePlain(t, editions, library, edition, n, acquired, now) {
      assert kept != {} && |live - kept| == |live| - |kept|;
      AllAlike(t, live, kept);
    }
  }

  /** What is kept is no more described than what is retired, nor less: nothing tells
      the two apart. */
  lemma AllAlike(t: Table, live: set<Id>, kept: set<Id>)
    requires kept <= live <= t.rows.Keys && kept != {} && live - kept != {}
    requires forall k, r :: k in kept && r in live - kept ==> t.rows[k].Described() == t.rows[r].Described()
    ensures forall i, j :: i in live && j in live ==> t.rows[i].Described() == t.rows[j].Described()
  {
    var k :| k in kept;
    var r :| r in live - kept;
    forall i | i in live ensures t.rows[i].Described() == t.rows[k].Described() {
      if i in kept {
        assert t.rows[i].Described() == t.rows[r].Described();
      }
    }
  }

  /** The smallest case: of a plain and a signed copy, going down to one retires the
      signed one. */
  lemma SignedCopyIsRetired()
    ensures var plain := Plain(1, 1, Some(1), None, 0);
            var t := Table(map[0 := plain, 1 := plain.(signed := true)], 2);
            Live(SetCount(t, map[1 := 1], 1, 1, 1, None, 5), 1, 1) == {0}
  {
    var plain := Plain(1, 1, Some(1), None, 0);
    var t := Table(map[0 := plain, 1 := plain.(signed := true)], 2);
    var both: set<Id> := {0, 1};
    assert Live(t, 1, 1) == both;
    assert Ahead(both, ByPlainness(t), 0) == {};
    assert 0 in First(both, ByPlainness(t), 1);
    CountIsExact(t, map[1 := 1], 1, 1, 1, None, 5);
    KeptAreFirst(t, map[1 := 1], 1, 1, 1, None, 5);
    var live := Live(SetCount(t, map[1 := 1], 1, 1, 1, None, 5), 1, 1);
    assert live == {0} + (live - {0});
  }

  // ---- one more copy -----------------------------------------------------------

  /** One more copy of the edition, always; one more copy of the book only when there
      was none without an edition to take. */
  lemma IncrementAddsOne(t: Table, editions: Editions, library: nat, edition: nat, now: int)
    requires t.Valid() && edition in editions
    ensures var u := Increment(t, editions, library, edition, now);
            var book := editions[edition];
            && |Live(u, library, edition)| == |Live(t, library, edition)| + 1
            && |Holdings(u, library, book)|
               == |Holdings(t, library, book)| + if Editionless(t, library, book) == {} then 1 else 0
  {
    var book := editions[edition];
    var waiting := Editionless(t, library, book);
    AgeOrders(t, waiting);
    FirstCount(waiting, ByAge(t), 1);
    var ids := First(waiting, ByAge(t), 1);
    if waiting == {} {
      assert ids == {};
      var row := Plain(library, book, Some(edition), None, now);
      InsertCounts(t, 1, row, library, book, edition);
      InsertHolds(t, 1, row);
      RangeSize(t.next, 1);
    } else {
      AdoptMoves(t, ids, library, edition, book, None);
    }
  }

  /** One more copy of a known edition is the oldest copy of its book that waits for one,
      with nothing else of it changed; or, when none waits, a new row and nothing else. */
  lemma IncrementMeans(t: Table, editions: Editions, library: nat, edition: nat, now: int) returns (i: Id)
    requires t.Valid()
    ensures var u := Increment(t, editions, library, edition, now);
            if edition !in editions then u == t
            else if exists j :: j in t.rows && t.rows[j].WaitingFor(library, editions[edition]) then
              && i in t.rows && t.rows[i].WaitingFor(library, editions[edition])
              && (forall j :: j in t.rows && t.rows[j].WaitingFor(library, editions[edition]) ==>
                    t.rows[i].created <= t.rows[j].created)
              && u.next == t.next && u.rows == t.rows[i := t.rows[i].(edition := Some(edition))]
            else
              && u.next == t.next + 1
              && u.rows == t.rows[
                   t.next := Copy(library, editions[edition], Some(edition), None, false, None, "", None, now, false)]
  {
    i := 0;
    if edition in editions {
      var book := editions[edition];
      var waiting := Editionless(t, library, book);
      if waiting == {} {
        assert First(waiting, ByAge(t), 1) == {};
        OneRow(t, Plain(library, book, Some(edition), None, now));
      } else {
        i := OldestWaits(t, library, book);
        assert Adopt(t, {i}, edition, None).rows == t.rows[i := t.rows[i].(edition := Some(edition))];
      }
    }
  }

  lemma OneRow(t: Table, row: Copy)
    requires t.Valid()
    ensures Insert(t, 1, row).rows == t.rows[t.next := row]
  {
    assert Range(t.next, 1) == {t.next};
  }

  lemma OldestWaits(t: Table, library: nat, book: nat) returns (i: Id)
    requires Editionless(t, library, book) != {}
    ensures First(Editionless(t, library, book), ByAge(t), 1) == {i} && i in Editionless(t, library, book)
    ensures forall j :: j in Editionless(t, library, book) ==> t.rows[i].created <= t.rows[j].created
  {
    var waiting := Editionless(t, library, book);
    var first := First(waiting, ByAge(t), 1);
    AgeOrders(t, waiting);
    FirstCount(waiting, ByAge(t), 1);
    assert first != {};
    i :| i in first;
    assert |first - {i}| == 0;
    assert first == {i};
    forall j | j in waiting && j != i ensures t.rows[i].created <= t.rows[j].created {
      FirstComesFirst(waiting, ByAge(t), 1, i, j);
    }
  }

  /** Adding a book to a library that has a copy of it, of whatever edition, changes nothing;
      to any other it adds one row, of no edition and with nothing filled in. */
  lemma AddBookMeans(t: Table, library: nat, book: nat, now: int)
    requires t.Valid()
    ensures var u := AddBook(t, library, book, now);
            if exists i :: i in t.rows && t.rows[i].library == library && t.rows[i].book == book && !t.rows[i].deleted
            then u == t
            else
              && u.next == t.next + 1
              && u.rows == t.rows[t.next := Copy(library, book, None, None, false, None, "", None, now, false)]
  {
    if i :| i in t.rows && t.rows[i].library == library && t.rows[i].book == book && !t.rows[i].deleted {
      assert i in Holdings(t, library, book);
    } else {
      assert Holdings(t, library, book) == {};
      OneRow(t, Plain(library, book, None, None, now));
    }
  }

  /** Adding a book and then saying there is one copy of an edition of it is one copy,
      not two, whichever of the two ways it is said. */
  lemma AddThenOneIsOneCopy(t: Table, editions: Editions, library: nat, edition: nat, now: int, acquired: Option<int>)
    requires t.Valid() && edition in editions && Holdings(t, library, editions[edition]) == {}
    requires Live(t, library, edition) == {}
    ensures var book := editions[edition];
            var added := AddBook(t, library, book, now);
            && |Holdings(SetCount(added, editions, library, edition, 1, acquired, now), library, book)| == 1
            && |Holdings(Increment(added, editions, library, edition, now), library, book)| == 1
  {
    var book := editions[edition];
    var row := Plain(library, book, None, None, now);
    var added := AddBook(t, library, book, now);
    InsertHolds(t, 1, row);
    InsertStaysValid(t, 1, row);
    assert t.next in Range(t.next, 1) && t.next in Editionless(added, library, book);
    assert Live(added, library, edition) == {};
    IncrementAddsOne(added, editions, library, edition, now);
    SetOneAdopts(added, editions, library, edition, acquired, now);
  }

  lemma SetOneAdopts(t: Table, editions: Editions, library: nat, edition: nat, acquired: Option<int>, now: int)
    requires t.Valid() && edition in editions
    requires Live(t, library, edition) == {} && Editionless(t, library, editions[edition]) != {}
    ensures var book := editions[edition];
            |Holdings(SetCount(t, editions, library, edition, 1, acquired, now), library, book)|
              == |Holdings(t, library, book)|
  {
    var book := editions[edition];
    NoSurplus(t, library, edition, 1);
    AdoptedCount(t, library, edition, book, 1);
    var ids := Adopted(t, library, edition, book, 1);
    AdoptMoves(t, ids, library, edition, book, acquired);
    var third := KeptAndAdopted(t, library, edition, book, 1, acquired);
    NothingMissing(third, library, edition, book, 1, acquired, now);
  }
}
