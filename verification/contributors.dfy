/** Folding duplicate contributors together (internal/repository/contributor_merge.go).
 */
module Contributors {
  // A merge leaves a tombstone: merged_into says who absorbed the person, and the
  // credits move. Tombstones form a forest; a resolver follows it, up to 8 steps.

  import opened Wrappers

  type Person = nat

  /** A row of book_contributors; its three columns are the key. */
  datatype Credit = Credit(book: nat, person: Person, role: string)

  /** contributors.merged_into for every contributor, and the credits. */
  datatype Catalogue = Catalogue(people: map<Person, Option<Person>>, credits: set<Credit>)

  datatype MergeResult = MergeResult(credits: int, collapsed: int, merged: nat)

  datatype MergeError =
    | SelfMerge        // the survivor is among the losers
    | ForeignKey       // the survivor is not a contributor
    | SelfReference    // the constraint contributors_not_merged_into_self

  datatype MergeOutcome = Merged(cat: Catalogue, result: MergeResult) | Rejected(error: MergeError)

  const RESOLVE_BOUND := 8

  // ---- the statements of Merge -------------------------------------------------

  function CreditsOf(credits: set<Credit>, who: set<Person>): set<Credit> {
    set c | c in credits && c.person in who
  }

  /** The rows INSERT .. SELECT offers for the survivor. */
  function Moved(credits: set<Credit>, survivor: Person, losers: set<Person>): set<Credit> {
    set c | c in credits && c.person in losers :: c.(person := survivor)
  }

  function PointingAt(people: map<Person, Option<Person>>, losers: set<Person>): set<Person> {
    set p | p in people && people[p].Some? && people[p].value in losers
  }

  function LiveAmong(people: map<Person, Option<Person>>, losers: set<Person>): set<Person> {
    set p | p in losers && p in people && people[p].None?
  }

  /** UPDATE contributors SET merged_into = survivor for the given rows. */
  function Repoint(people: map<Person, Option<Person>>, rows: set<Person>, survivor: Person)
    : map<Person, Option<Person>>
  {
    map p | p in people :: if p in rows then Some(survivor) else people[p]
  }

  function Merge(cat: Catalogue, survivor: Person, losers: set<Person>): MergeOutcome {
    if losers == {} then Merged(cat, MergeResult(0, 0, 0))
    else if survivor in losers then Rejected(SelfMerge)
    else
      var leaving := CreditsOf(cat.credits, losers);
      var arriving := Moved(cat.credits, survivor, losers) - cat.credits;
      var earlier := PointingAt(cat.people, losers);
      var repointed := Repoint(cat.people, earlier, survivor);
      var folded := LiveAmong(repointed, losers);
      if survivor !in cat.people && (arriving != {} || earlier != {} || folded != {}) then Rejected(ForeignKey)
      else if survivor in earlier then Rejected(SelfReference)
      else
        Merged(
          Catalogue(Repoint(repointed, folded, survivor), cat.credits + arriving - leaving),
          MergeResult(|arriving|, |leaving| - |arriving|, |folded|))
  }

  /** Deleting the losers' credits after the insert deletes none of the new rows. */
  lemma ArrivingStay(credits: set<Credit>, survivor: Person, losers: set<Person>)
    requires survivor !in losers
    ensures var arriving := Moved(credits, survivor, losers) - credits;
            CreditsOf(credits + arriving, losers) == CreditsOf(credits, losers)
  {
  }

  /** What following merged_into finds with `lookups` queries left. */
  function Resolve(people: map<Person, Option<Person>>, at: Person, lookups: nat): Option<Person>
    decreases lookups
  {
    if lookups == 0 then Some(at)
    else if at !in people then None
    else if people[at].None? then Some(at)
    else Resolve(people, people[at].value, lookups - 1)
  }

  // ---- pairs -------------------------------------------------------------------

  function Ordered(a: Person, b: Person): (Person, Person) {
    if b < a then (b, a) else (a, b)
  }

  /** The table takes a pair of two different contributors. */
  predicate Storable(known: set<Person>, a: Person, b: Person) {
    a in known && b in known && a != b
  }

  ghost function Pairs(ids: seq<Person>): set<(Person, Person)> {
    set i, j | 0 <= i < j < |ids| :: Ordered(ids[i], ids[j])
  }

  /** The rows written for ids[i] against everyone from ids[j] on, up to the first pair the
      table refuses, and whether none was. */
  function DismissingRow(known: set<Person>, ids: seq<Person>, i: nat, j: nat): (set<(Person, Person)>, bool)
    requires i < |ids|
    decreases |ids| - j
  {
    if j >= |ids| then ({}, true)
    else if !Storable(known, ids[i], ids[j]) then ({}, false)
    else
      var (later, ok) := DismissingRow(known, ids, i, j + 1);
      ({Ordered(ids[i], ids[j])} + later, ok)
  }

  /** The rows Dismiss writes from ids[i] on. */
  function Dismissing(known: set<Person>, ids: seq<Person>, i: nat): (set<(Person, Person)>, bool)
    decreases |ids| - i
  {
    if i >= |ids| then ({}, true)
    else
      var (row, stored) := DismissingRow(known, ids, i, i + 1);
      if !stored then (row, false)
      else
        var (later, ok) := Dismissing(known, ids, i + 1);
        (row + later, ok)
  }

  ghost predicate RowStorable(known: set<Person>, ids: seq<Person>, i: nat, j: nat)
    requires i < |ids|
  {
    forall l :: j <= l < |ids| ==> Storable(known, ids[i], ids[l])
  }

  ghost function RowPairs(ids: seq<Person>, i: nat, j: nat): set<(Person, Person)>
    requires i < |ids|
  {
    set l | j <= l < |ids| :: Ordered(ids[i], ids[l])
  }

  ghost function PairsFrom(ids: seq<Person>, i: nat): set<(Person, Person)> {
    set k, l | i <= k < l < |ids| :: Ordered(ids[k], ids[l])
  }

  lemma {:induction false} RowIsPairs(known: set<Person>, ids: seq<Person>, i: nat, j: nat)
    requires i < |ids|
    ensures DismissingRow(known, ids, i, j).0 <= RowPairs(ids, i, j)
    ensures forall p :: p in DismissingRow(known, ids, i, j).0 ==> p.0 < p.1
    ensures DismissingRow(known, ids, i, j).1 <==> RowStorable(known, ids, i, j)
    ensures RowStorable(known, ids, i, j) ==> DismissingRow(known, ids, i, j).0 == RowPairs(ids, i, j)
    decreases |ids| - j
  {
    if j < |ids| {
      RowIsPairs(known, ids, i, j + 1);
      assert RowPairs(ids, i, j) == {Ordered(ids[i], ids[j])} + RowPairs(ids, i, j + 1);
      assert RowStorable(known, ids, i, j) <==> Storable(known, ids[i], ids[j]) && RowStorable(known, ids, i, j + 1);
    }
  }

  ghost predicate WholeRowStorable(known: set<Person>, ids: seq<Person>, i: nat)
    requires i < |ids|
  {
    RowStorable(known, ids, i, i + 1)
  }

  ghost predicate RowsStorable(known: set<Person>, ids: seq<Person>, i: nat) {
    forall k :: i <= k < |ids| ==> WholeRowStorable(known, ids, k)
  }

  /** A row, and the rows after it. */
  lemma RowThenRows(known: set<Person>, ids: seq<Person>, i: nat)
    requires i < |ids|
    ensures RowsStorable(known, ids, i) <==> WholeRowStorable(known, ids, i) && RowsStorable(known, ids, i + 1)
  {
  }

  /** The rows a whole group writes are those of its first member and those of the rest. */
  lemma NextRow(known: set<Person>, ids: seq<Person>, i: nat)
    requires i < |ids|
    ensures Dismissing(known, ids, i).1 <==> WholeRowStorable(known, ids, i) && Dismissing(known, ids, i + 1).1
    ensures WholeRowStorable(known, ids, i)
       ==> Dismissing(known, ids, i).0 == RowPairs(ids, i, i + 1) + Dismissing(known, ids, i + 1).0
    ensures !WholeRowStorable(known, ids, i) ==> Dismissing(known, ids, i).0 <= RowPairs(ids, i, i + 1)
    ensures forall p :: p in Dismissing(known, ids, i).0 && p !in Dismissing(known, ids, i + 1).0 ==> p.0 < p.1
  {
    RowIsPairs(known, ids, i, i + 1);
  }

  lemma PairsAreRows(ids: seq<Person>, i: nat)
    requires i < |ids|
    ensures PairsFrom(ids, i) == RowPairs(ids, i, i + 1) + PairsFrom(ids, i + 1)
  {
    forall p | p in PairsFrom(ids, i) ensures p in RowPairs(ids, i, i + 1) + PairsFrom(ids, i + 1) {
      var k, l :| i <= k < l < |ids| && p == Ordered(ids[k], ids[l]);
      assert k == i || (i + 1 <= k < l < |ids| && p in PairsFrom(ids, i + 1));
    }
    forall p | p in RowPairs(ids, i, i + 1) ensures p in PairsFrom(ids, i) {
      var l :| i + 1 <= l < |ids| && p == Ordered(ids[i], ids[l]);
    }
  }

  /** Dismiss writes pairs of the group only, the smaller id first; and all of them
      exactly when the table takes every one. */
  lemma {:induction false} DismissingIsPairs(known: set<Person>, ids: seq<Person>, i: nat)
    ensures Dismissing(known, ids, i).0 <= PairsFrom(ids, i)
    ensures forall p :: p in Dismissing(known, ids, i).0 ==> p.0 < p.1
    ensures Dismissing(known, ids, i).1 <==> RowsStorable(known, ids, i)
    ensures RowsStorable(known, ids, i) ==> Dismissing(known, ids, i).0 == PairsFrom(ids, i)
    decreases |ids| - i
  {
    if i < |ids| {
      NextRow(known, ids, i);
      DismissingIsPairs(known, ids, i + 1);
      PairsAreRows(ids, i);
      RowThenRows(known, ids, i);
    }
  }

  lemma WholeGroup(known: set<Person>, ids: seq<Person>)
    ensures Dismissing(known, ids, 0).1 <==> forall i, j :: 0 <= i < j < |ids| ==> Storable(known, ids[i], ids[j])
    ensures Dismissing(known, ids, 0).1 ==> Dismissing(known, ids, 0).0 == Pairs(ids)
    ensures Dismissing(known, ids, 0).0 <= Pairs(ids)
  {
    DismissingIsPairs(known, ids, 0);
    assert PairsFrom(ids, 0) == Pairs(ids);
    if RowsStorable(known, ids, 0) {
      forall i, j | 0 <= i < j < |ids| ensures Storable(known, ids[i], ids[j]) {
        assert WholeRowStorable(known, ids, i);
      }
    }
  }

  /** The live contributors sharing a normalised name. */
  function Namesakes(people: map<Person, Option<Person>>, keys: map<Person, string>, key: string): set<Person> {
    set p | p in people && people[p].None? && p in keys && keys[p] == key
  }

  /** DuplicateCandidates offers a name when several people share it and no pair of
      them has been dismissed. */
  ghost predicate Offered(
    people: map<Person, Option<Person>>, keys: map<Person, string>, dismissed: set<(Person, Person)>, key: string)
  {
    var group := Namesakes(people, keys, key);
    && |group| > 1
    && forall a, b :: a in group && b in group && a < b ==> (a, b) !in dismissed
  }

  /** The repository: the rows Merge and Dismiss change. */
  class ContributorRepo {
    var people: map<Person, Option<Person>>
    var credits: set<Credit>
    var dismissed: set<(Person, Person)>

    ghost function State(): Catalogue
      reads this
    {
      Catalogue(people, credits)
    }

    method DoMerge(survivor: Person, losers: seq<Person>) returns (result: Option<MergeResult>)
      modifies this`people, this`credits
      ensures match Merge(old(State()), survivor, set l | l in losers)
              case Merged(cat, r) => State() == cat && result == Some(r)
              case Rejected(_) => State() == old(State()) && result == None
    {
      var who := set l | l in losers;
      assert losers != [] ==> losers[0] in who;
      if |losers| == 0 { return Some(MergeResult(0, 0, 0)); }
      for i := 0 to |losers|
        invariant survivor !in losers[..i]
      {
        if losers[i] == survivor { return None; }
      }
      // The transaction works on its own copies; only the commit shows them.
      var txPeople, txCredits := people, credits;
      var leaving := CreditsOf(txCredits, who);
      var arriving := Moved(txCredits, survivor, who) - txCredits;
      if arriving != {} && survivor !in txPeople { return None; }
      ArrivingStay(txCredits, survivor, who);
      txCredits := txCredits + arriving;
      txCredits := txCredits - CreditsOf(txCredits, who);

      var earlier := PointingAt(txPeople, who);
      if earlier != {} && survivor !in txPeople { return None; }
      if survivor in earlier { return None; }
      txPeople := Repoint(txPeople, earlier, survivor);

      var folded := LiveAmong(txPeople, who);
      if folded != {} && survivor !in txPeople { return None; }
      txPeople := Repoint(txPeople, folded, survivor);

      people, credits := txPeople, txCredits;
      result := Some(MergeResult(|arriving|, |leaving| - |arriving|, |folded|));
    }

    /** One row per pair, the smaller id first. Stops at the first pair the table
        refuses; there is no transaction, so the rows before it stay. */
    method Dismiss(ids: seq<Person>) returns (ok: bool)
      modifies this`dismissed
      ensures dismissed == old(dismissed) + Dismissing(people.Keys, ids, 0).0
      ensures ok == Dismissing(people.Keys, ids, 0).1
    {
      if |ids| < 2 { return true; }
      for i := 0 to |ids|
        invariant dismissed + Dismissing(people.Keys, ids, i).0 == old(dismissed) + Dismissing(people.Keys, ids, 0).0
        invariant Dismissing(people.Keys, ids, i).1 == Dismissing(people.Keys, ids, 0).1
      {
        var stored := DismissRow(ids, i);
        if !stored { return false; }
      }
      return true;
    }

    /** The inner loop: ids[i] against everyone after it. */
    method DismissRow(ids: seq<Person>, i: nat) returns (ok: bool)
      requires i < |ids|
      modifies this`dismissed
      ensures dismissed == old(dismissed) + DismissingRow(people.Keys, ids, i, i + 1).0
      ensures ok == DismissingRow(people.Keys, ids, i, i + 1).1
    {
      for j := i + 1 to |ids|
        invariant dismissed + DismissingRow(people.Keys, ids, i, j).0
                   == old(dismissed) + DismissingRow(people.Keys, ids, i, i + 1).0
        invariant DismissingRow(people.Keys, ids, i, j).1 == DismissingRow(people.Keys, ids, i, i + 1).1
      {
        if ids[i] !in people || ids[j] !in people || ids[i] == ids[j] { return false; }
        dismissed := dismissed + {Ordered(ids[i], ids[j])};
      }
      return true;
    }

    method ResolveContributor(id: Person) returns (r: Option<Person>)
      ensures r == Resolve(people, id, RESOLVE_BOUND)
    {
      var at := id;
      for i := 0 to RESOLVE_BOUND
        invariant Resolve(people, id, RESOLVE_BOUND) == Resolve(people, at, RESOLVE_BOUND - i)
      {
        if at !in people { return None; }
        match people[at]
        case None => return Some(at);
        case Some(next) => at := next;
      }
      return Some(at);
    }
  }

  // ---- the forest --------------------------------------------------------------

  predicate Live(people: map<Person, Option<Person>>, p: Person) {
    p in people && people[p].None?
  }

  /** Every tombstone points straight at somebody live. */
  ghost predicate Flat(people: map<Person, Option<Person>>) {
    forall p :: p in people && people[p].Some? ==> Live(people, people[p].value)
  }

  /** Only live people hold credits. */
  ghost predicate TombstonesBare(cat: Catalogue) {
    forall c :: c in cat.credits ==> Live(cat.people, c.person)
  }

  ghost predicate Sound(cat: Catalogue) {
    Flat(cat.people) && TombstonesBare(cat)
  }

  /** Who a contributor is, in a flat forest. */
  function Root(people: map<Person, Option<Person>>, p: Person): Person
    requires p in people
  {
    if people[p].None? then p else people[p].value
  }

  /** Exactly when a merge that goes through keeps the forest flat: the survivor is
      live, or there is nobody live to fold. The code checks neither. */
  lemma FlatAfterMergeIff(cat: Catalogue, survivor: Person, losers: set<Person>)
    requires Sound(cat)
    requires Merge(cat, survivor, losers).Merged?
    ensures Flat(Merge(cat, survivor, losers).cat.people)
       <==> Live(cat.people, survivor) || LiveAmong(cat.people, losers) == {}
  {
    var after := Merge(cat, survivor, losers).cat.people;
    if LiveAmong(cat.people, losers) != {} && !Live(cat.people, survivor) {
      var l :| l in LiveAmong(cat.people, losers);
      var repointed := Repoint(cat.people, PointingAt(cat.people, losers), survivor);
      assert repointed[l].None? && l in LiveAmong(repointed, losers);
      assert after[l] == Some(survivor);
      assert !Live(after, survivor);
    }
    if LiveAmong(cat.people, losers) == {} {
      assert forall p :: p in PointingAt(cat.people, losers) ==> cat.people[p].value in LiveAmong(cat.people, losers);
      assert PointingAt(cat.people, losers) == {};
      assert Repoint(cat.people, {}, survivor) == cat.people;
      assert after == cat.people;
    }
  }

  /** Exactly when Merge refuses, on a sound catalogue. */
  lemma MergeRejectedIff(cat: Catalogue, survivor: Person, losers: set<Person>)
    requires Sound(cat)
    ensures Merge(cat, survivor, losers).Rejected? <==>
            || survivor in losers
            || (LiveAmong(cat.people, losers) != {} &&
                  (survivor !in cat.people ||
                   (cat.people[survivor].Some? && cat.people[survivor].value in losers)))
  {
    var live := LiveAmong(cat.people, losers);
    var earlier := PointingAt(cat.people, losers);
    assert forall p :: p in earlier ==> cat.people[p].value in live;
    assert forall c :: c in CreditsOf(cat.credits, losers) ==> c.person in live;
    assert LiveAmong(Repoint(cat.people, earlier, survivor), losers) == live;
    if live == {} {
      assert CreditsOf(cat.credits, losers) == {};
      assert forall c :: c in cat.credits && c.person in losers ==> c in CreditsOf(cat.credits, losers);
      assert Moved(cat.credits, survivor, losers) == {};
    }
  }

  lemma PersonAfter(cat: Catalogue, survivor: Person, losers: set<Person>, p: Person)
    requires losers != {} && Merge(cat, survivor, losers).Merged? && p in cat.people
    ensures var after := Merge(cat, survivor, losers).cat.people;
            && after.Keys == cat.people.Keys
            && after[p] == if Root(cat.people, p) in losers then Some(survivor) else cat.people[p]
  {
  }

  /** With a live survivor, the merge makes exactly the losers' people one person:
      everybody who was one of the losers is now the survivor, everybody else is who
      they were, and the forest is sound again. */
  lemma MergeJoinsPeople(cat: Catalogue, survivor: Person, losers: set<Person>)
    requires Sound(cat) && Live(cat.people, survivor) && survivor !in losers
    ensures Merge(cat, survivor, losers).Merged?
    ensures var after := Merge(cat, survivor, losers).cat;
            && Sound(after)
            && after.people.Keys == cat.people.Keys
            && forall p :: p in cat.people ==>
                 Root(after.people, p) == if Root(cat.people, p) in losers then survivor else Root(cat.people, p)
  {
    MergeRejectedIff(cat, survivor, losers);
    if losers != {} {
      FlatAfterMergeIff(cat, survivor, losers);
      forall p | p in cat.people
        ensures p in Merge(cat, survivor, losers).cat.people
        ensures Root(Merge(cat, survivor, losers).cat.people, p)
            == if Root(cat.people, p) in losers then survivor else Root(cat.people, p)
      {
        PersonAfter(cat, survivor, losers, p);
      }
    }
  }

  /** The credits with each person replaced by who they are in `people`. */
  ghost function Attributed(credits: set<Credit>, people: map<Person, Option<Person>>): set<Credit>
    requires forall c :: c in credits ==> c.person in people
  {
    set c | c in credits :: c.(person := Root(people, c.person))
  }

  /** No credit is lost, invented or given to somebody else: the credits afterwards
      are the credits before, each under the person its holder now is. The loss in
      number is the reported Collapsed, and the survivor gains the reported Credits. */
  lemma MergeKeepsAttributions(cat: Catalogue, survivor: Person, losers: set<Person>)
    requires Sound(cat) && Live(cat.people, survivor) && survivor !in losers
    ensures Merge(cat, survivor, losers).Merged?
    ensures var m := Merge(cat, survivor, losers);
            && (forall c :: c in cat.credits ==> c.person in m.cat.people)
            && m.cat.credits == Attributed(cat.credits, m.cat.people)
            && |m.cat.credits| + m.result.collapsed == |cat.credits|
            && |CreditsOf(m.cat.credits, {survivor})| == |CreditsOf(cat.credits, {survivor})| + m.result.credits
            && CreditsOf(m.cat.credits, losers) == {}
  {
    MergeJoinsPeople(cat, survivor, losers);
    if losers == {} {
      var m := Merge(cat, survivor, losers);
      assert Attributed(cat.credits, m.cat.people) == cat.credits;
    } else {
      CreditsAddUp(cat, survivor, losers);
      AttributionsMatch(cat, survivor, losers);
    }
  }

  lemma CreditsAddUp(cat: Catalogue, survivor: Person, losers: set<Person>)
    requires Sound(cat) && Live(cat.people, survivor) && survivor !in losers && losers != {}
    requires Merge(cat, survivor, losers).Merged?
    ensures var m := Merge(cat, survivor, losers);
            && |m.cat.credits| + m.result.collapsed == |cat.credits|
            && |CreditsOf(m.cat.credits, {survivor})| == |CreditsOf(cat.credits, {survivor})| + m.result.credits
            && CreditsOf(m.cat.credits, losers) == {}
  {
    var arriving := Moved(cat.credits, survivor, losers) - cat.credits;
    SwapCount(cat.credits, arriving, CreditsOf(cat.credits, losers));
    SurvivorGains(cat.credits, survivor, losers);
  }

  lemma SwapCount(credits: set<Credit>, arriving: set<Credit>, leaving: set<Credit>)
    requires arriving !! credits && leaving <= credits
    ensures |credits + arriving - leaving| == |credits| + |arriving| - |leaving|
  {
    assert credits + arriving - leaving == (credits - leaving) + arriving;
    assert |(credits - leaving) + arriving| == |credits - leaving| + |arriving|;
  }

  lemma SurvivorGains(credits: set<Credit>, survivor: Person, losers: set<Person>)
    requires survivor !in losers
    ensures var arriving := Moved(credits, survivor, losers) - credits;
            var after := credits + arriving - CreditsOf(credits, losers);
            && |CreditsOf(after, {survivor})| == |CreditsOf(credits, {survivor})| + |arriving|
            && CreditsOf(after, losers) == {}
  {
    var arriving := Moved(credits, survivor, losers) - credits;
    var after := credits + arriving - CreditsOf(credits, losers);
    var held := CreditsOf(credits, {survivor});
    assert CreditsOf(after, {survivor}) == held + arriving;
    assert held !! arriving;
  }

  lemma AttributionsMatch(cat: Catalogue, survivor: Person, losers: set<Person>)
    requires Sound(cat) && Live(cat.people, survivor) && survivor !in losers && losers != {}
    requires Merge(cat, survivor, losers).Merged?
    ensures var m := Merge(cat, survivor, losers);
            && (forall c :: c in cat.credits ==> c.person in m.cat.people)
            && m.cat.credits == Attributed(cat.credits, m.cat.people)
  {
    MergeJoinsPeople(cat, survivor, losers);
    var m := Merge(cat, survivor, losers);
    var target := Attributed(cat.credits, m.cat.people);
    forall c | c in m.cat.credits ensures c in target {
      if c in cat.credits {
        assert c == c.(person := Root(m.cat.people, c.person));
      } else {
        var d :| d in cat.credits && d.person in losers && c == d.(person := survivor);
        assert c == d.(person := Root(m.cat.people, d.person));
      }
    }
    forall c | c in target ensures c in m.cat.credits {
      var d :| d in cat.credits && c == d.(person := Root(m.cat.people, d.person));
      if d.person in losers {
        assert c in Moved(cat.credits, survivor, losers);
      }
    }
  }

  // ---- whole runs --------------------------------------------------------------

  datatype Request = Request(survivor: Person, losers: set<Person>)

  /** The catalogue after a run of merges; a rejected one changes nothing. */
  function AfterMerges(cat: Catalogue, rs: seq<Request>): Catalogue
    decreases |rs|
  {
    if rs == [] then cat
    else
      var m := Merge(cat, rs[0].survivor, rs[0].losers);
      AfterMerges(if m.Merged? then m.cat else cat, rs[1..])
  }

  /** What a caller would have to check before a merge: nobody live would be folded, or
      the survivor is live, or Merge refuses it because the survivor is unknown, among
      the losers, or already folded into one of them. */
  ghost predicate Harmless(cat: Catalogue, r: Request) {
    || LiveAmong(cat.people, r.losers) == {}
    || r.survivor in r.losers
    || r.survivor !in cat.people
    || cat.people[r.survivor].None?
    || cat.people[r.survivor].value in r.losers
  }

  ghost predicate AllHarmless(cat: Catalogue, rs: seq<Request>)
    decreases |rs|
  {
    rs != [] ==>
      var m := Merge(cat, rs[0].survivor, rs[0].losers);
      Harmless(cat, rs[0]) && AllHarmless(if m.Merged? then m.cat else cat, rs[1..])
  }

  ghost predicate StaysSound(cat: Catalogue, rs: seq<Request>)
    decreases |rs|
  {
    && Sound(cat)
    && (rs != [] ==>
          var m := Merge(cat, rs[0].survivor, rs[0].losers);
          StaysSound(if m.Merged? then m.cat else cat, rs[1..]))
  }

  lemma HarmlessStep(cat: Catalogue, r: Request)
    requires Sound(cat)
    ensures var m := Merge(cat, r.survivor, r.losers);
            && (m.Rejected? ==> Harmless(cat, r))
            && (m.Merged? ==>
                  && (Sound(m.cat) <==> Harmless(cat, r))
                  && m.cat.people.Keys == cat.people.Keys)
  {
    var m := Merge(cat, r.survivor, r.losers);
    MergeRejectedIff(cat, r.survivor, r.losers);
    if m.Merged? {
      FlatAfterMergeIff(cat, r.survivor, r.losers);
      if Live(cat.people, r.survivor) {
        MergeJoinsPeople(cat, r.survivor, r.losers);
      } else if LiveAmong(cat.people, r.losers) == {} {
        assert forall c :: c in CreditsOf(cat.credits, r.losers) ==> c.person in LiveAmong(cat.people, r.losers);
        assert Moved(cat.credits, r.survivor, r.losers) == {} by {
          assert forall c :: c in cat.credits && c.person in r.losers ==> c in CreditsOf(cat.credits, r.losers);
        }
        assert m.cat.credits <= cat.credits;
        assert forall p ::
            p in PointingAt(cat.people, r.losers) ==> cat.people[p].value in LiveAmong(cat.people, r.losers);
        assert m.cat.people == cat.people;
      }
    }
  }

  /** Over every run of merges the catalogue stays sound if and only if each merge
      is harmless when it is made. Then every contributor there ever was resolves,
      to somebody live, within the bound. */
  lemma {:induction false} RunsStaySoundIff(cat: Catalogue, rs: seq<Request>)
    requires Sound(cat)
    ensures StaysSound(cat, rs) <==> AllHarmless(cat, rs)
    ensures StaysSound(cat, rs) ==>
              var after := AfterMerges(cat, rs);
              && Sound(after)
              && after.people.Keys == cat.people.Keys
              && forall p :: p in cat.people ==>
                   && Resolve(after.people, p, RESOLVE_BOUND) == Some(Root(after.people, p))
                   && Live(after.people, Root(after.people, p))
    decreases |rs|
  {
    if rs != [] {
      var m := Merge(cat, rs[0].survivor, rs[0].losers);
      HarmlessStep(cat, rs[0]);
      if m.Rejected? {
        RunsStaySoundIff(cat, rs[1..]);
      } else if Sound(m.cat) {
        RunsStaySoundIff(m.cat, rs[1..]);
      } else {
        assert !StaysSound(m.cat, rs[1..]);
      }
    }
  }

  // ---- why the survivor has to be live -----------------------------------------

  /** p reaches the live root through exactly d tombstones. */
  ghost predicate LeadsTo(people: map<Person, Option<Person>>, p: Person, d: nat, root: Person)
    decreases d
  {
    if d == 0 then p == root && Live(people, p)
    else p in people && people[p].Some? && LeadsTo(people, people[p].value, d - 1, root)
  }

  lemma {:induction false} ResolveWalks(people: map<Person, Option<Person>>, p: Person, d: nat, root: Person,
      lookups: nat)
    requires LeadsTo(people, p, d, root)
    ensures d <= lookups ==> Resolve(people, p, lookups) == Some(root)
    ensures d > lookups ==> Resolve(people, p, lookups).Some? && !Live(people, Resolve(people, p, lookups).value)
    decreases d
  {
    if d > 0 && lookups > 0 {
      ResolveWalks(people, people[p].value, d - 1, root, lookups - 1);
    }
  }

  /** The resolver finds the real person exactly when at most 8 tombstones are in
      the way; past that it answers with a tombstone. */
  lemma ResolverBound(people: map<Person, Option<Person>>, p: Person, d: nat, root: Person)
    requires LeadsTo(people, p, d, root)
    ensures Resolve(people, p, RESOLVE_BOUND) == Some(root) <==> d <= 8
  {
    ResolveWalks(people, p, d, root, RESOLVE_BOUND);
    LeadsToLive(people, p, d, root);
  }

  lemma {:induction false} LeadsToLive(people: map<Person, Option<Person>>, p: Person, d: nat, root: Person)
    requires LeadsTo(people, p, d, root)
    ensures Live(people, root)
    decreases d
  {
    if d > 0 {
      LeadsToLive(people, people[p].value, d - 1, root);
    }
  }

  /** People 0..n, all live, and the merges 0 <- 1, 1 <- 2, .., each survivor but the
      first already a tombstone. */
  function Everybody(n: nat): Catalogue {
    Catalogue(map p | p in UpTo(n) :: None, {})
  }

  function UpTo(n: nat): (ps: set<Person>)
    ensures forall p :: p in ps <==> 0 <= p <= n
  {
    if n == 0 then {0} else UpTo(n - 1) + {n}
  }

  function Chain(n: nat): (rs: seq<Request>)
    ensures |rs| == n
  {
    seq(n, i requires i >= 0 => Request(i, {i + 1}))
  }

  ghost predicate ChainedUpTo(people: map<Person, Option<Person>>, k: nat, n: nat) {
    && people.Keys == UpTo(n)
    && (forall p :: 0 <= p <= n ==> people[p] == if 1 <= p <= k then Some(p - 1) else None)
  }

  lemma MergeOne(cat: Catalogue, survivor: Person, loser: Person)
    requires cat.credits == {} && survivor in cat.people && survivor != loser && Live(cat.people, loser)
    requires forall p :: p in cat.people ==> cat.people[p] != Some(loser)
    ensures var m := Merge(cat, survivor, {loser});
            m.Merged? && m.cat == Catalogue(cat.people[loser := Some(survivor)], {})
  {
    assert PointingAt(cat.people, {loser}) == {};
    assert Moved(cat.credits, survivor, {loser}) == {};
    assert Repoint(cat.people, {}, survivor) == cat.people;
    assert LiveAmong(cat.people, {loser}) == {loser};
  }

  lemma ChainLink(people: map<Person, Option<Person>>, k: nat, n: nat)
    requires k < n && ChainedUpTo(people, k, n)
    ensures ChainedUpTo(people[k + 1 := Some(k)], k + 1, n)
  {
  }

  lemma {:induction false} ChainBuilds(cat: Catalogue, k: nat, n: nat)
    requires k <= n && cat.credits == {} && ChainedUpTo(cat.people, k, n)
    ensures var after := AfterMerges(cat, Chain(n)[k..]);
            after.credits == {} && ChainedUpTo(after.people, n, n)
    decreases n - k
  {
    if k < n {
      MergeOne(cat, k, k + 1);
      ChainLink(cat.people, k, n);
      ChainBuilds(Catalogue(cat.people[k + 1 := Some(k)], {}), k + 1, n);
      assert Chain(n)[k..][0] == Request(k, {k + 1});
      assert Chain(n)[k..][1..] == Chain(n)[k + 1..];
    }
  }

  lemma {:induction false} ChainLeads(people: map<Person, Option<Person>>, n: nat, p: nat)
    requires ChainedUpTo(people, n, n) && p <= n
    ensures LeadsTo(people, p, p, 0)
  {
    if p > 0 {
      ChainLeads(people, n, p - 1);
    }
  }

  /** Nothing in the code stops a chain of any length, and every link of this one is
      a merge the code accepts. From nine links on, resolving its end gives a
      tombstone. */
  lemma TombstonedSurvivorsOutrunTheResolver(n: nat)
    requires n > 8
    ensures var people := AfterMerges(Everybody(n), Chain(n)).people;
            && LeadsTo(people, n, n, 0)
            && Resolve(people, n, RESOLVE_BOUND) != Some(0)
  {
    assert Chain(n)[0..] == Chain(n);
    ChainBuilds(Everybody(n), 0, n);
    var people := AfterMerges(Everybody(n), Chain(n)).people;
    ChainLeads(people, n, n);
    ResolverBound(people, n, n, 0);
  }

  // ---- dismissed pairs ---------------------------------------------------------

  /** Dismissing a group settles it in one action: no name shared by two of the ids
      is offered afterwards. */
  lemma DismissedGroupIsSettled(
    people: map<Person, Option<Person>>, keys: map<Person, string>, before: set<(Person, Person)>, ids: seq<Person>,
    i: nat, j: nat, key: string)
    requires i < j < |ids| && ids[i] != ids[j]
    requires ids[i] in Namesakes(people, keys, key) && ids[j] in Namesakes(people, keys, key)
    ensures !Offered(people, keys, before + Pairs(ids), key)
  {
    assert Ordered(ids[i], ids[j]) in before + Pairs(ids);
  }

  /** What happens to the catalogue and the rejected pairs: somebody dismisses a group, or
      merges one. */
  datatype Event = Dismisses(ids: seq<Person>) | Merges(request: Request)

  datatype Desk = Desk(cat: Catalogue, dismissed: set<(Person, Person)>)

  function Step(d: Desk, e: Event): Desk {
    match e
    case Dismisses(ids) => d.(dismissed := d.dismissed + Dismissing(d.cat.people.Keys, ids, 0).0)
    case Merges(r) =>
      var m := Merge(d.cat, r.survivor, r.losers);
      if m.Merged? then d.(cat := m.cat) else d
  }

  function AfterEvents(d: Desk, es: seq<Event>): Desk
    decreases |es|
  {
    if es == [] then d else AfterEvents(Step(d, es[0]), es[1..])
  }

  /** The pairs a run records, read off the run and who there was at its start. */
  function Recorded(known: set<Person>, es: seq<Event>): set<(Person, Person)>
    decreases |es|
  {
    if es == [] then {}
    else (if es[0].Dismisses? then Dismissing(known, es[0].ids, 0).0 else {}) + Recorded(known, es[1..])
  }

  function MergesOf(es: seq<Event>): seq<Request>
    decreases |es|
  {
    if es == [] then [] else (if es[0].Merges? then [es[0].request] else []) + MergesOf(es[1..])
  }

  /** Dismissals and merges do not disturb each other: a run leaves the catalogue its
      merges leave, and the pairs its dismissals record. */
  lemma {:induction false} RunSplits(d: Desk, es: seq<Event>)
    ensures var after := AfterEvents(d, es);
            && after.cat == AfterMerges(d.cat, MergesOf(es))
            && after.cat.people.Keys == d.cat.people.Keys
            && after.dismissed == d.dismissed + Recorded(d.cat.people.Keys, es)
    decreases |es|
  {
    if es != [] {
      RunSplits(Step(d, es[0]), es[1..]);
      if es[0].Merges? {
        assert MergesOf(es) == [es[0].request] + MergesOf(es[1..]);
        assert MergesOf(es)[1..] == MergesOf(es[1..]);
      } else {
        assert MergesOf(es) == MergesOf(es[1..]);
      }
    }
  }

  lemma {:induction false} RecordedAreOrdered(known: set<Person>, es: seq<Event>)
    ensures forall p :: p in Recorded(known, es) ==> p.0 < p.1
    decreases |es|
  {
    if es != [] {
      RecordedAreOrdered(known, es[1..]);
      if es[0].Dismisses? {
        DismissingIsPairs(known, es[0].ids, 0);
      }
    }
  }

  /** Two live people under one name whom nobody has told apart. */
  ghost predicate OpenPair(d: Desk, keys: map<Person, string>, key: string) {
    exists a, b :: a in Namesakes(d.cat.people, keys, key) && b in Namesakes(d.cat.people, keys, key) && a < b
                   && (a, b) !in d.dismissed
  }

  /** No pair recorded is of two people in the group. */
  ghost predicate NobodyToldApart(group: set<Person>, recorded: set<(Person, Person)>) {
    forall p :: p in recorded ==> !(p.0 in group && p.1 in group)
  }

  /** The comment on DuplicateCandidates says that when one pair out of three is rejected
      the remaining pair comes back as a group of its own. After any run of dismissals and
      merges, a name with an open pair is offered if and only if no pair recorded, before
      the run or in it, has both members still live under the name. */
  lemma RejectedPairHidesItsName(d: Desk, es: seq<Event>, keys: map<Person, string>, key: string)
    requires forall p :: p in d.dismissed ==> p.0 < p.1
    requires OpenPair(AfterEvents(d, es), keys, key)
    ensures Offered(AfterEvents(d, es).cat.people, keys, AfterEvents(d, es).dismissed, key)
       <==> NobodyToldApart(Namesakes(AfterMerges(d.cat, MergesOf(es)).people, keys, key),
                            d.dismissed + Recorded(d.cat.people.Keys, es))
  {
    RunSplits(d, es);
    RecordedAreOrdered(d.cat.people.Keys, es);
    var after := AfterEvents(d, es);
    var live := Namesakes(after.cat.people, keys, key);
    var a, b :| a in live && b in live && a < b && (a, b) !in after.dismissed;
    TwoAreMore(live, a, b);
    if Offered(after.cat.people, keys, after.dismissed, key) {
      forall p | p in after.dismissed ensures !(p.0 in live && p.1 in live) {
        assert p == (p.0, p.1) && p.0 < p.1;
      }
    } else {
      var x, y :| x in live && y in live && x < y && (x, y) in after.dismissed;
      assert (x, y).0 in live && (x, y).1 in live;
    }
  }

  lemma TwoAreMore<T>(s: set<T>, a: T, b: T)
    requires a in s && b in s && a != b
    ensures |s| > 1
  {
    assert |s - {a}| >= 1 by {
      assert b in s - {a};
    }
  }

  /** The way back: a merge takes its losers off the name, and the name is offered
      afterwards exactly when two people are left under it and every rejected pair has
      lost a member. */
  lemma MergeBringsItBackIff(
    cat: Catalogue, r: Request, keys: map<Person, string>, dismissed: set<(Person, Person)>, key: string)
    requires Merge(cat, r.survivor, r.losers).Merged?
    requires forall p :: p in dismissed ==> p.0 < p.1
    ensures var after := Merge(cat, r.survivor, r.losers).cat.people;
            var live := Namesakes(cat.people, keys, key);
            && Namesakes(after, keys, key) == live - r.losers
            && (Offered(after, keys, dismissed, key) <==>
                  && |live - r.losers| > 1
                  && forall p :: p in dismissed && p.0 in live && p.1 in live ==> p.0 in r.losers || p.1 in r.losers)
  {
    var after := Merge(cat, r.survivor, r.losers).cat.people;
    var live := Namesakes(cat.people, keys, key);
    forall p ensures p in Namesakes(after, keys, key) <==> p in live - r.losers {
    }
    assert Namesakes(after, keys, key) == live - r.losers;
    forall p | p in dismissed ensures p == (p.0, p.1) && p.0 < p.1 {
    }
    if forall p :: p in dismissed && p.0 in live && p.1 in live ==> p.0 in r.losers || p.1 in r.losers {
      forall a, b | a in live - r.losers && b in live - r.losers && a < b ensures (a, b) !in dismissed {
        assert (a, b).0 == a && (a, b).1 == b;
      }
    }
  }

  /** Three live people, under one name. */
  const THREE := Desk(Catalogue(map[1 := None, 2 := None, 3 := None], {}), {})

  function Alike(key: string): map<Person, string> { map[1 := key, 2 := key, 3 := key] }

  ghost predicate OfferedAt(d: Desk, keys: map<Person, string>, key: string) {
    Offered(d.cat.people, keys, d.dismissed, key)
  }

  lemma ThreeNamesakes(key: string)
    ensures Namesakes(THREE.cat.people, Alike(key), key) == {1, 2, 3}
    ensures OfferedAt(THREE, Alike(key), key)
  {
    var live := Namesakes(THREE.cat.people, Alike(key), key);
    assert live == {1, 2, 3};
    TwoAreMore(live, 1, 2);
  }

  lemma RejectingHides(key: string)
    ensures var hidden := Step(THREE, Dismisses([1, 2]));
            && hidden == THREE.(dismissed := {(1, 2)})
            && OpenPair(hidden, Alike(key), key) && !OfferedAt(hidden, Alike(key), key)
  {
    ThreeNamesakes(key);
    OnlyOnePair();
    assert THREE.cat.people.Keys == {1, 2, 3};
    var hidden := Step(THREE, Dismisses([1, 2]));
    var live := Namesakes(hidden.cat.people, Alike(key), key);
    assert 1 in live && 3 in live && (1, 3) !in hidden.dismissed;
    assert 1 in live && 2 in live && (1, 2) in hidden.dismissed;
  }

  lemma FoldingBringsItBack(key: string)
    ensures var back := Step(THREE.(dismissed := {(1, 2)}), Merges(Request(1, {2})));
            OpenPair(back, Alike(key), key) && OfferedAt(back, Alike(key), key)
  {
    ThreeNamesakes(key);
    MergeOne(THREE.cat, 1, 2);
    MergeBringsItBackIff(THREE.cat, Request(1, {2}), Alike(key), {(1, 2)}, key);
    assert {1, 2, 3} - {2} == {1, 3};
    TwoAreMore({1, 3}, 1, 3);
    assert (1, 3) !in {(1, 2)};
  }

  /** Three people share a name; somebody rejects the pair 1, 2. The pairs with 3 are open
      and the name is hidden. Folding 2 into 1 brings it back. */
  lemma OneRejectedPairOfThree(key: string)
    ensures OfferedAt(THREE, Alike(key), key)
    ensures var hidden := AfterEvents(THREE, [Dismisses([1, 2])]);
            OpenPair(hidden, Alike(key), key) && !OfferedAt(hidden, Alike(key), key)
    ensures var back := AfterEvents(THREE, [Dismisses([1, 2]), Merges(Request(1, {2}))]);
            OpenPair(back, Alike(key), key) && OfferedAt(back, Alike(key), key)
  {
    ThreeNamesakes(key);
    RejectingHides(key);
    FoldingBringsItBack(key);
    var e, f := Dismisses([1, 2]), Merges(Request(1, {2}));
    assert [e][1..] == [] && [e, f][1..] == [f] && [f][1..] == [];
    assert AfterEvents(Step(THREE, e), [f]) == Step(Step(THREE, e), f);
  }

  lemma OnlyOnePair()
    ensures Dismissing({1, 2, 3}, [1, 2], 0) == ({(1, 2)}, true)
  {
    var known, ids: seq<Person> := {1, 2, 3}, [1, 2];
    WholeGroup(known, ids);
    assert Pairs(ids) == {(1, 2)} by {
      assert Ordered(ids[0], ids[1]) == (1, 2);
    }
  }
}
