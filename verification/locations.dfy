/** Places copies are filed at (internal/repository/copy_locations.go).
 */
module Locations {
  // A forest inside each library, kept free of loops by a check that climbs at most 32
  // places, and listed depth first.

  import opened Wrappers

  type Id = nat

  datatype Place = Place(library: nat, name: string, parent: Option<Id>)

  type Places = map<Id, Place>

  const CLIMB_BOUND := 32
  const LIST_DEPTH := 17   // depth 0 to 16

  datatype Error = NameRequired | NotFound | NotInLibrary | LocationCycle | InUse

  datatype Result = Changed(places: Places) | Failed(error: Error)

  // ---- the operations ----------------------------------------------------------

  /** The recursive query `up`: root is `at`, or one of the places `at` is inside,
      within n places. */
  predicate IsDescendant(places: Places, at: Id, root: Id, n: nat)
    decreases n
  {
    n > 0 && at in places &&
    (at == root || (places[at].parent.Some? && IsDescendant(places, places[at].parent.value, root, n - 1)))
  }

  /** Create, given the trimmed name and the id the row gets. */
  function Create(places: Places, library: nat, name: string, parent: Option<Id>, id: Id): Result {
    if name == "" then Failed(NameRequired)
    else if parent.Some? && parent.value !in places then Failed(NotFound)
    else if parent.Some? && places[parent.value].library != library then Failed(NotInLibrary)
    else Changed(places[id := Place(library, name, parent)])
  }

  /** Rename, given the trimmed name; a blank one keeps the old. */
  function Rename(places: Places, id: Id, name: string, parent: Option<Id>, reparent: bool): Result {
    if id !in places then Failed(NotFound)
    else
      var now := places[id].(name := if name == "" then places[id].name else name);
      if !reparent then Changed(places[id := now])
      else if parent.None? then Changed(places[id := now.(parent := None)])
      else if parent.value == id then Failed(LocationCycle)
      else if parent.value !in places then Failed(NotFound)
      else if places[parent.value].library != places[id].library then Failed(NotInLibrary)
      else if IsDescendant(places, parent.value, id, CLIMB_BOUND) then Failed(LocationCycle)
      else Changed(places[id := now.(parent := parent)])
  }

  /** Delete; the schema sets the children's parent to NULL. */
  function Delete(places: Places, inUse: set<Id>, id: Id): Result {
    if id in inUse then Failed(InUse)
    else if id !in places then Failed(NotFound)
    else Changed(map x | x in places.Keys - {id} ::
                   if places[x].parent == Some(id) then places[x].(parent := None) else places[x])
  }

  /** The repository: its table of places, and the places with live copies. */
  class CopyLocationRepo {
    var places: Places
    var inUse: set<Id>

    method CheckDescendant(candidate: Id, root: Id) returns (found: bool)
      ensures found == IsDescendant(places, candidate, root, CLIMB_BOUND)
    {
      var at := candidate;
      for depth := 0 to CLIMB_BOUND
        invariant IsDescendant(places, candidate, root, CLIMB_BOUND)
               == IsDescendant(places, at, root, CLIMB_BOUND - depth)
      {
        if at !in places { return false; }
        if at == root { return true; }
        if places[at].parent.None? { return false; }
        at := places[at].parent.value;
      }
      return false;
    }

    method CreatePlace(library: nat, name: string, parent: Option<Id>, id: Id) returns (error: Option<Error>)
      requires id !in places
      modifies this`places
      ensures match Create(old(places), library, name, parent, id)
              case Changed(p) => error == None && places == p
              case Failed(e) => error == Some(e) && places == old(places)
    {
      if name == "" { return Some(NameRequired); }
      if parent.Some? {
        if parent.value !in places { return Some(NotFound); }
        if places[parent.value].library != library { return Some(NotInLibrary); }
      }
      places := places[id := Place(library, name, parent)];
      return None;
    }

    method RenamePlace(id: Id, name: string, parent: Option<Id>, reparent: bool) returns (error: Option<Error>)
      modifies this`places
      ensures match Rename(old(places), id, name, parent, reparent)
              case Changed(p) => error == None && places == p
              case Failed(e) => error == Some(e) && places == old(places)
    {
      if id !in places { return Some(NotFound); }
      if reparent && parent.Some? {
        if parent.value == id { return Some(LocationCycle); }
        if parent.value !in places { return Some(NotFound); }
        if places[parent.value].library != places[id].library { return Some(NotInLibrary); }
        var descendant := CheckDescendant(parent.value, id);
        if descendant { return Some(LocationCycle); }
      }
      var current := places[id];
      var newName := if name == "" then current.name else name;
      if reparent {
        places := places[id := current.(name := newName, parent := parent)];
      } else {
        places := places[id := current.(name := newName)];
      }
      return None;
    }

    method DeletePlace(id: Id) returns (error: Option<Error>)
      modifies this`places
      ensures match Delete(old(places), inUse, id)
              case Changed(p) => error == None && places == p
              case Failed(e) => error == Some(e) && places == old(places)
    {
      if id in inUse { return Some(InUse); }
      if id !in places { return Some(NotFound); }
      places := map x | x in places.Keys - {id} ::
        if places[x].parent == Some(id) then places[x].(parent := None) else places[x];
      return None;
    }
  }

  // ---- what the operations leave -----------------------------------------------

  /** y is x, or climbing from y one comes to x within 31 places more. */
  ghost predicate SeenInside(places: Places, y: Id, x: Id) {
    exists up: seq<Id> :: 0 < |up| <= 32 && up[0] == y && up[|up| - 1] == x && ClimbsBy(places, up)
  }

  ghost predicate ClimbsBy(places: Places, up: seq<Id>) {
    forall i :: 0 <= i < |up| ==>
      up[i] in places && (i + 1 < |up| ==> places[up[i]].parent == Some(up[i + 1]))
  }

  lemma {:induction false} ClimbIsSeen(places: Places, up: seq<Id>, n: nat)
    requires 0 < |up| <= n && ClimbsBy(places, up)
    ensures IsDescendant(places, up[0], up[|up| - 1], n)
    decreases |up|
  {
    if |up| > 1 {
      ClimbIsSeen(places, up[1..], n - 1);
    }
  }

  lemma {:induction false} SeenClimbs(places: Places, y: Id, x: Id, n: nat) returns (up: seq<Id>)
    requires IsDescendant(places, y, x, n)
    ensures 0 < |up| <= n && up[0] == y && up[|up| - 1] == x && ClimbsBy(places, up)
    decreases n
  {
    up := [y];
    if y != x {
      var rest := SeenClimbs(places, places[y].parent.value, x, n - 1);
      up := [y] + rest;
      assert forall i :: 1 <= i < |up| ==> up[i] == rest[i - 1];
    }
  }

  lemma SeenIff(places: Places, y: Id, x: Id)
    ensures IsDescendant(places, y, x, CLIMB_BOUND) <==> SeenInside(places, y, x)
  {
    if IsDescendant(places, y, x, CLIMB_BOUND) {
      var up := SeenClimbs(places, y, x, CLIMB_BOUND);
    }
    if up: seq<Id> :| 0 < |up| <= 32 && up[0] == y && up[|up| - 1] == x && ClimbsBy(places, up) {
      ClimbIsSeen(places, up, CLIMB_BOUND);
    }
  }

  /** What a change leaves, and what it is refused for: the name given or, for a blank one,
      the old; the parent given if it was to be moved, and else the old; its library as
      it was; and every other place as it was. */
  lemma RenameMeans(places: Places, id: Id, name: string, parent: Option<Id>, reparent: bool)
    ensures match Rename(places, id, name, parent, reparent)
            case Changed(after) =>
              && id in places && after.Keys == places.Keys
              && after[id].library == places[id].library
              && after[id].name == (if |name| > 0 then name else places[id].name)
              && after[id].parent == (if reparent then parent else places[id].parent)
              && (forall x :: x in places && x != id ==> after[x] == places[x])
              && (reparent && parent.Some? ==>
                    && parent.value in places && places[parent.value].library == places[id].library
                    && !SeenInside(places, parent.value, id))
            case Failed(e) =>
              && (e == NotFound <==>
                    id !in places || (reparent && parent.Some? && parent.value !in places && parent.value != id))
              && (e == LocationCycle ==> reparent && parent.Some? && SeenInside(places, parent.value, id))
              && (e == NotInLibrary ==>
                    reparent && parent.Some? && id in places && parent.value in places
                    && places[parent.value].library != places[id].library)
              && e in {NotFound, LocationCycle, NotInLibrary}
  {
    if reparent && parent.Some? {
      SeenIff(places, parent.value, id);
      if parent.value == id && id in places {
        assert IsDescendant(places, id, id, CLIMB_BOUND);
      }
    }
  }

  /** A created place is the one asked for, beside all there were. */
  lemma CreateMeans(places: Places, library: nat, name: string, parent: Option<Id>, id: Id)
    requires id !in places
    ensures match Create(places, library, name, parent, id)
            case Changed(after) =>
              && |name| > 0 && (parent.Some? ==> parent.value in places && places[parent.value].library == library)
              && after.Keys == places.Keys + {id}
              && after[id].library == library && after[id].name == name && after[id].parent == parent
              && forall x :: x in places ==> after[x] == places[x]
            case Failed(e) =>
              if |name| == 0 then e == NameRequired
              else if parent.Some? && parent.value !in places then e == NotFound
              else parent.Some? && places[parent.value].library != library && e == NotInLibrary
  {
  }

  /** A deleted place is gone alone: what was in it stays, at the top level. */
  lemma DeleteMeans(places: Places, inUse: set<Id>, id: Id)
    ensures match Delete(places, inUse, id)
            case Changed(after) =>
              && id in places && id !in inUse && after.Keys == places.Keys - {id}
              && forall x :: x in after ==>
                   && after[x].library == places[x].library && after[x].name == places[x].name
                   && after[x].parent == if places[x].parent == Some(id) then None else places[x].parent
            case Failed(e) => if id in inUse then e == InUse else id !in places && e == NotFound
  {
  }

  // ---- a forest ----------------------------------------------------------------

  /** Climbing from x comes to a top-level place within n places. */
  ghost predicate Rooted(places: Places, x: Id, n: nat)
    decreases n
  {
    n > 0 && x in places && (places[x].parent.None? || Rooted(places, places[x].parent.value, n - 1))
  }

  ghost predicate HasTop(places: Places, x: Id) {
    exists n: nat :: Rooted(places, x, n)
  }

  /** Every place lies under a top-level one: there are no loops and no dangling
      parents. */
  ghost predicate Forest(places: Places) {
    forall x :: x in places ==> HasTop(places, x)
  }

  /** A place is in the library of the place it is inside. */
  ghost predicate OneLibrary(places: Places) {
    forall x :: x in places && places[x].parent.Some? ==>
      places[x].parent.value in places && places[places[x].parent.value].library == places[x].library
  }

  /** y is x or inside x, at whatever depth. */
  ghost predicate Inside(places: Places, y: Id, x: Id) {
    exists n: nat :: IsDescendant(places, y, x, n)
  }

  lemma {:induction false} DeeperIsStillRooted(places: Places, x: Id, n: nat, m: nat)
    requires Rooted(places, x, n) && n <= m
    ensures Rooted(places, x, m)
    decreases n
  {
    if places[x].parent.Some? {
      DeeperIsStillRooted(places, places[x].parent.value, n - 1, m - 1);
    }
  }

  lemma {:induction false} LongerClimbStillFinds(places: Places, y: Id, x: Id, n: nat, m: nat)
    requires IsDescendant(places, y, x, n) && n <= m
    ensures IsDescendant(places, y, x, m)
    decreases n
  {
    if y != x {
      LongerClimbStillFinds(places, places[y].parent.value, x, n - 1, m - 1);
    }
  }

  /** Places not inside `id` climb as before when only `id` is moved. */
  lemma {:induction false} ElsewhereUnmoved(places: Places, after: Places, id: Id, x: Id, n: nat)
    requires Rooted(places, x, n) && !Inside(places, x, id)
    requires after.Keys >= places.Keys && forall y :: y in places && y != id ==> after[y].parent == places[y].parent
    ensures Rooted(after, x, n)
    decreases n
  {
    assert x != id by { assert IsDescendant(places, id, id, 1) || id !in places; }
    if places[x].parent.Some? {
      var p := places[x].parent.value;
      if Inside(places, p, id) {
        var k: nat :| IsDescendant(places, p, id, k);
        assert IsDescendant(places, x, id, k + 1);
      }
      ElsewhereUnmoved(places, after, id, p, n - 1);
    }
  }

  /** Everything still climbs to a top when `id` itself does. */
  lemma {:induction false} ClimbsThroughMoved(places: Places, after: Places, id: Id, x: Id, n: nat, m: nat)
    requires Rooted(places, x, n) && Rooted(after, id, m)
    requires after.Keys >= places.Keys && forall y :: y in places && y != id ==> after[y].parent == places[y].parent
    ensures Rooted(after, x, n + m)
    decreases n
  {
    if x == id {
      DeeperIsStillRooted(after, id, m, n + m);
    } else if places[x].parent.Some? {
      ClimbsThroughMoved(places, after, id, places[x].parent.value, n - 1, m);
    }
  }

  /** Moved under something inside itself, a place has no top any more. */
  lemma {:induction false} LoopHasNoTop(places: Places, after: Places, id: Id, p: Id, k: nat, y: Id, j: nat, n: nat)
    requires id in places && id in after && after[id].parent == Some(p) && IsDescendant(places, p, id, k)
    requires after.Keys >= places.Keys && forall z :: z in places && z != id ==> after[z].parent == places[z].parent
    requires IsDescendant(places, y, id, j)
    ensures !Rooted(after, y, n)
    decreases n
  {
    if n > 0 {
      if y == id {
        LoopHasNoTop(places, after, id, p, k, p, k, n - 1);
      } else {
        LoopHasNoTop(places, after, id, p, k, places[y].parent.value, j - 1, n - 1);
      }
    }
  }

  /** Moving `id` under `p` keeps the forest exactly when p is not inside id. */
  lemma MoveKeepsForestIff(places: Places, id: Id, p: Id, now: Place)
    requires Forest(places) && id in places && p in places && now.parent == Some(p)
    ensures Forest(places[id := now]) <==> !Inside(places, p, id)
  {
    var after := places[id := now];
    if Inside(places, p, id) {
      var k: nat :| IsDescendant(places, p, id, k);
      forall n: nat ensures !Rooted(after, id, n) {
        LoopHasNoTop(places, after, id, p, k, id, 1, n);
      }
      assert !HasTop(after, id);
    } else {
      assert HasTop(places, p);
      var m: nat :| Rooted(places, p, m);
      ElsewhereUnmoved(places, after, id, p, m);
      assert Rooted(after, id, m + 1);
      forall x | x in after ensures HasTop(after, x) {
        assert HasTop(places, x);
        var n: nat :| Rooted(places, x, n);
        ClimbsThroughMoved(places, after, id, x, n, m + 1);
      }
    }
  }

  lemma SameParentsSameForest(places: Places, after: Places)
    requires Forest(places) && OneLibrary(places) && after.Keys == places.Keys
    requires forall y :: y in places ==> after[y].parent == places[y].parent || after[y].parent.None?
    ensures Forest(after)
  {
    forall x | x in after ensures HasTop(after, x) {
      assert HasTop(places, x);
      var n: nat :| Rooted(places, x, n);
      FewerParentsRooted(places, after, x, n);
    }
  }

  lemma {:induction false} FewerParentsRooted(places: Places, after: Places, x: Id, n: nat)
    requires Rooted(places, x, n) && x in after
    requires forall y :: y in after && y in places ==> after[y].parent == places[y].parent || after[y].parent.None?
    requires forall y :: y in after && y in places && after[y].parent.Some? ==> after[y].parent.value in after
    ensures Rooted(after, x, n)
    decreases n
  {
    if after[x].parent.Some? {
      FewerParentsRooted(places, after, after[x].parent.value, n - 1);
    }
  }

  lemma CreateKeepsForest(places: Places, library: nat, name: string, parent: Option<Id>, id: Id)
    requires Forest(places) && OneLibrary(places) && id !in places
    ensures var r := Create(places, library, name, parent, id);
            r.Changed? ==> Forest(r.places) && OneLibrary(r.places)
  {
    var r := Create(places, library, name, parent, id);
    if r.Changed? {
      forall x | x in r.places ensures HasTop(r.places, x) {
        var y := if x == id then parent else Some(x);
        if y.Some? {
          assert HasTop(places, y.value);
          var n: nat :| Rooted(places, y.value, n);
          assert !Inside(places, y.value, id) by {
            NotInsideNew(places, y.value, id, n);
          }
          ElsewhereUnmoved(places, r.places, id, y.value, n);
          assert Rooted(r.places, x, n + 1) by {
            if x != id { DeeperIsStillRooted(r.places, x, n, n + 1); }
          }
        } else {
          assert Rooted(r.places, x, 1);
        }
      }
    }
  }

  lemma NotInsideNew(places: Places, x: Id, id: Id, n: nat)
    requires id !in places
    ensures !Inside(places, x, id)
  {
    forall k: nat ensures !IsDescendant(places, x, id, k) {
      NeverFindsNew(places, x, id, k);
    }
  }

  lemma {:induction false} NeverFindsNew(places: Places, x: Id, id: Id, k: nat)
    requires id !in places
    ensures !IsDescendant(places, x, id, k)
    decreases k
  {
    if k > 0 && x in places && places[x].parent.Some? {
      NeverFindsNew(places, places[x].parent.value, id, k - 1);
    }
  }

  lemma DeleteKeepsForest(places: Places, inUse: set<Id>, id: Id)
    requires Forest(places) && OneLibrary(places)
    ensures var r := Delete(places, inUse, id);
            r.Changed? ==> Forest(r.places) && OneLibrary(r.places)
  {
    var r := Delete(places, inUse, id);
    if r.Changed? {
      forall x | x in r.places ensures HasTop(r.places, x) {
        assert HasTop(places, x);
        var n: nat :| Rooted(places, x, n);
        FewerParentsRooted(places, r.places, x, n);
      }
    }
  }

  /** Where the check is enough: it sees every loop this move would make. */
  ghost predicate CheckSees(places: Places, id: Id, parent: Option<Id>, reparent: bool) {
    reparent && parent.Some? && Inside(places, parent.value, id) ==> IsDescendant(places, parent.value, id, CLIMB_BOUND)
  }

  /** Rename keeps the places a same-library forest if and only if the new parent is not
      inside the place at a depth the check does not reach. */
  lemma RenameKeepsForestIff(places: Places, id: Id, name: string, parent: Option<Id>, reparent: bool)
    requires Forest(places) && OneLibrary(places)
    ensures var r := Rename(places, id, name, parent, reparent);
            r.Changed? ==> OneLibrary(r.places) && (Forest(r.places) <==> CheckSees(places, id, parent, reparent))
    ensures var r := Rename(places, id, name, parent, reparent);
            parent.Some? && Rooted(places, parent.value, CLIMB_BOUND) ==> CheckSees(places, id, parent, reparent)
  {
    var r := Rename(places, id, name, parent, reparent);
    if r.Changed? {
      if reparent && parent.Some? {
        MoveKeepsForestIff(places, id, parent.value, r.places[id]);
      } else {
        SameParentsSameForest(places, r.places);
      }
    }
    if parent.Some? && Rooted(places, parent.value, CLIMB_BOUND) && Inside(places, parent.value, id) {
      ShallowInsideIsSeen(places, id, parent.value);
    }
  }

  lemma ShallowInsideIsSeen(places: Places, id: Id, parent: Id)
    requires Rooted(places, parent, CLIMB_BOUND) && Inside(places, parent, id)
    ensures IsDescendant(places, parent, id, CLIMB_BOUND)
  {
    var n: nat :| IsDescendant(places, parent, id, n);
    ShallowIsSeen(places, parent, id, n, CLIMB_BOUND);
  }

  /** Places 0 to n, each inside the one before. */
  function Nested(n: nat): (places: Places)
    ensures forall i :: i in places <==> 0 <= i <= n
    ensures forall i :: i in places ==> places[i] == Place(0, "place", if i == 0 then None else Some(i - 1))
  {
    if n == 0 then map[0 := Place(0, "place", None)] else Nested(n - 1)[n := Place(0, "place", Some(n - 1))]
  }

  lemma {:induction false} NestedClimb(n: nat, i: nat, k: nat)
    requires i <= n
    ensures IsDescendant(Nested(n), i, 0, k) <==> i < k
    ensures i < k ==> Rooted(Nested(n), i, k)
  {
    if 0 < i && 0 < k {
      NestedClimb(n, i - 1, k - 1);
    }
  }

  /** A loop the check does not see: in a nest of more than 32 places, the outermost is
      moved inside the innermost, and that is accepted. */
  lemma LongNestCloses(n: nat)
    requires n >= CLIMB_BOUND
    ensures Forest(Nested(n)) && OneLibrary(Nested(n))
    ensures var r := Rename(Nested(n), 0, "", Some(n), true);
            r.Changed? && !Forest(r.places)
  {
    var places := Nested(n);
    forall i | i in places ensures HasTop(places, i) {
      NestedClimb(n, i, i + 1);
    }
    NestedClimb(n, n, n + 1);
    NestedClimb(n, n, CLIMB_BOUND);
    assert Inside(Nested(n), n, 0);
    RenameKeepsForestIff(Nested(n), 0, "", Some(n), true);
  }

  /** From a place with a top within m places, an ancestor found at all is found
      within m. */
  lemma {:induction false} ShallowIsSeen(places: Places, y: Id, x: Id, n: nat, m: nat)
    requires IsDescendant(places, y, x, n) && Rooted(places, y, m)
    ensures IsDescendant(places, y, x, m)
    decreases n
  {
    if y != x {
      ShallowIsSeen(places, places[y].parent.value, x, n - 1, m - 1);
    }
  }

  // ---- whole runs --------------------------------------------------------------

  datatype Edit =
    | New(library: nat, name: string, parent: Option<Id>, id: Id)
    | Change(id: Id, name: string, parent: Option<Id>, reparent: bool)
    | Remove(id: Id)

  function Edited(places: Places, inUse: set<Id>, e: Edit): Places {
    var r := match e
      case New(library, name, parent, id) => Create(places, library, name, parent, id)
      case Change(id, name, parent, reparent) => Rename(places, id, name, parent, reparent)
      case Remove(id) => Delete(places, inUse, id);
    if r.Changed? then r.places else places
  }

  ghost predicate StaysForest(places: Places, inUse: set<Id>, es: seq<Edit>)
    decreases |es|
  {
    && Forest(places) && OneLibrary(places)
    && (es != [] ==> StaysForest(Edited(places, inUse, es[0]), inUse, es[1..]))
  }

  /** Each move the code lets through is one whose loops its check would see. */
  ghost predicate ChecksSee(places: Places, inUse: set<Id>, es: seq<Edit>)
    decreases |es|
  {
    es != [] ==>
      && (es[0].Change? ==>
            var r := Rename(places, es[0].id, es[0].name, es[0].parent, es[0].reparent);
            r.Changed? ==> CheckSees(places, es[0].id, es[0].parent, es[0].reparent))
      && ChecksSee(Edited(places, inUse, es[0]), inUse, es[1..])
  }

  /** New rows get ids no row has. */
  ghost predicate FreshIds(places: Places, inUse: set<Id>, es: seq<Edit>)
    decreases |es|
  {
    es != [] ==>
      (es[0].New? ==> es[0].id !in places) && FreshIds(Edited(places, inUse, es[0]), inUse, es[1..])
  }

  /** Over every run of creates, renames, moves and deletes the places stay a forest
      within their libraries if and only if the check sees far enough at each move. */
  lemma {:induction false} RunsStayForestIff(places: Places, inUse: set<Id>, es: seq<Edit>)
    requires Forest(places) && OneLibrary(places) && FreshIds(places, inUse, es)
    ensures StaysForest(places, inUse, es) <==> ChecksSee(places, inUse, es)
    decreases |es|
  {
    if es != [] {
      match es[0] {
        case New(library, name, parent, id) => CreateKeepsForest(places, library, name, parent, id);
        case Change(id, name, parent, reparent) => RenameKeepsForestIff(places, id, name, parent, reparent);
        case Remove(id) => DeleteKeepsForest(places, inUse, id);
      }
      var after := Edited(places, inUse, es[0]);
      if Forest(after) && OneLibrary(after) {
        RunsStayForestIff(after, inUse, es[1..]);
      }
    }
  }

  // ---- listing -----------------------------------------------------------------

  /** The recursive query `tree`: the names and ids from the top down to x, when x is
      within the given number of levels. `key` ranks names the way the server's
      collation orders them lower-cased. */
  function Path(places: Places, key: string -> int, library: nat, x: Id, levels: nat): Option<seq<int>>
    decreases levels
  {
    if levels == 0 || x !in places || places[x].library != library then None
    else if places[x].parent.None? then Some([key(places[x].name), x])
    else
      match Path(places, key, library, places[x].parent.value, levels - 1)
      case None => None
      case Some(p) => Some(p + [key(places[x].name), x])
  }

  /** In a forest whose places keep to their libraries, the places with a path are
      those at most 17 levels deep. */
  lemma {:induction false} HasPathIffShallow(places: Places, key: string -> int, library: nat, x: Id, levels: nat)
    requires OneLibrary(places) && x in places && places[x].library == library
    ensures Path(places, key, library, x, levels).Some? <==> Rooted(places, x, levels)
    decreases levels
  {
    if levels > 0 && places[x].parent.Some? {
      HasPathIffShallow(places, key, library, places[x].parent.value, levels - 1);
    }
  }

  /** How arrays compare. */
  predicate LexLe(p: seq<int>, q: seq<int>) {
    p == [] || (q != [] && (p[0] < q[0] || (p[0] == q[0] && LexLe(p[1..], q[1..]))))
  }

  /** ORDER BY (path IS NULL), path: rows without a path come last. */
  predicate InOrder(p: Option<seq<int>>, q: Option<seq<int>>) {
    q.None? || (p.Some? && LexLe(p.value, q.value))
  }

  /** A list the query may return. */
  ghost predicate Listed(places: Places, key: string -> int, library: nat, out: seq<Id>) {
    && (forall x :: x in out <==> x in places && places[x].library == library)
    && (forall i, j :: 0 <= i < j < |out| ==>
          out[i] != out[j] &&
          InOrder(Path(places, key, library, out[i], LIST_DEPTH), Path(places, key, library, out[j], LIST_DEPTH)))
  }

  /** So the list can place what is at most 17 deep; what is deeper comes last, unplaced. */
  lemma ListPlacesSeventeen(places: Places, key: string -> int, library: nat, x: Id)
    requires OneLibrary(places) && x in places && places[x].library == library
    ensures Path(places, key, library, x, LIST_DEPTH).Some? <==> Rooted(places, x, 17)
  {
    HasPathIffShallow(places, key, library, x, LIST_DEPTH);
  }

  lemma {:induction false} PathStable(places: Places, key: string -> int, library: nat, x: Id, n: nat, m: nat)
    requires Path(places, key, library, x, n).Some? && n <= m
    ensures Path(places, key, library, x, m) == Path(places, key, library, x, n)
    decreases n
  {
    if places[x].parent.Some? {
      PathStable(places, key, library, places[x].parent.value, n - 1, m - 1);
    }
  }

  lemma {:induction false} PathEndsInId(places: Places, key: string -> int, library: nat, x: Id, n: nat)
    requires Path(places, key, library, x, n).Some?
    ensures var p := Path(places, key, library, x, n).value;
            |p| >= 2 && |p| % 2 == 0 && p[|p| - 1] == x
    decreases n
  {
    if places[x].parent.Some? {
      PathEndsInId(places, key, library, places[x].parent.value, n - 1);
    }
  }

  /** The path of a place begins with the path of every place it is inside. */
  lemma {:induction false} InsideExtendsPath(places: Places, key: string -> int, library: nat, y: Id, x: Id, n: nat,
      levels: nat)
    requires IsDescendant(places, y, x, n) && Path(places, key, library, y, levels).Some?
    ensures Path(places, key, library, x, levels).Some?
    ensures Path(places, key, library, x, levels).value <= Path(places, key, library, y, levels).value
    decreases n
  {
    if y != x {
      var p := places[y].parent.value;
      InsideExtendsPath(places, key, library, p, x, n - 1, levels - 1);
      PathStable(places, key, library, x, levels - 1, levels);
    }
  }

  /** And a place whose path begins with another's is inside it. */
  lemma {:induction false} PathPrefixIsInside(places: Places, key: string -> int, library: nat, y: Id, x: Id, n: nat,
      m: nat)
    requires Path(places, key, library, y, n).Some? && Path(places, key, library, x, m).Some?
    requires Path(places, key, library, x, m).value <= Path(places, key, library, y, n).value
    ensures Inside(places, y, x)
    decreases n
  {
    var p := Path(places, key, library, x, m).value;
    var q := Path(places, key, library, y, n).value;
    PathEndsInId(places, key, library, x, m);
    PathEndsInId(places, key, library, y, n);
    if |p| == |q| {
      assert p == q;
      assert IsDescendant(places, y, x, 1);
    } else if places[y].parent.Some? {
      var up := places[y].parent.value;
      PathEndsInId(places, key, library, up, n - 1);
      assert q == Path(places, key, library, up, n - 1).value + [key(places[y].name), y];
      PathPrefixIsInside(places, key, library, up, x, n - 1, m);
      var k: nat :| IsDescendant(places, up, x, k);
      assert IsDescendant(places, y, x, k + 1);
    }
  }

  /** A new name or a new parent moves nothing in the list but the place and what is inside
      it: everybody else has the path he had. */
  lemma {:induction false} ElsewherePathsStay(
    places: Places, key: string -> int, library: nat, id: Id, now: Place, y: Id, n: nat)
    requires id in places && !Inside(places, y, id)
    ensures Path(places[id := now], key, library, y, n) == Path(places, key, library, y, n)
    decreases n
  {
    if n > 0 && y in places {
      assert y != id by {
        assert IsDescendant(places, id, id, 1);
      }
      if places[y].parent.Some? {
        var p := places[y].parent.value;
        if Inside(places, p, id) {
          var k: nat :| IsDescendant(places, p, id, k);
          assert IsDescendant(places, y, id, k + 1);
        }
        ElsewherePathsStay(places, key, library, id, now, p, n - 1);
      }
    }
  }

  /** From the top down, the name and the id of everything climbed through. */
  ghost predicate Names(places: Places, key: string -> int, up: seq<Id>, path: seq<int>) {
    && |path| == 2 * |up|
    && forall i :: 0 <= i < |up| ==>
         up[i] in places && path[|path| - 2 * i - 2] == key(places[up[i]].name) && path[|path| - 2 * i - 1] == up[i]
  }

  lemma NamesOneMore(places: Places, key: string -> int, up: seq<Id>, above: seq<int>)
    requires up != [] && up[0] in places && Names(places, key, up[1..], above)
    ensures Names(places, key, up, above + [key(places[up[0]].name), up[0]])
  {
    var path := above + [key(places[up[0]].name), up[0]];
    forall i | 0 <= i < |up|
      ensures up[i] in places
      ensures path[|path| - 2 * i - 2] == key(places[up[i]].name) && path[|path| - 2 * i - 1] == up[i]
    {
      if i > 0 {
        assert up[1..][i - 1] == up[i];
      }
    }
  }

  /** The path of a place is what one climbs through from it, read from the top down. */
  lemma {:induction false} PathNamesTheClimb(places: Places, key: string -> int, library: nat, up: seq<Id>, n: nat)
    requires up != [] && ClimbsBy(places, up) && places[up[|up| - 1]].parent == None
    requires |up| <= n && forall i :: 0 <= i < |up| ==> places[up[i]].library == library
    ensures var path := Path(places, key, library, up[0], n);
            path.Some? && Names(places, key, up, path.value)
    decreases |up|
  {
    if |up| > 1 {
      PathNamesTheClimb(places, key, library, up[1..], n - 1);
      NamesOneMore(places, key, up, Path(places, key, library, up[1], n - 1).value);
    } else {
      NamesOneMore(places, key, up, []);
    }
  }

  lemma {:induction false} PrefixIsLess(p: seq<int>, q: seq<int>)
    requires p <= q
    ensures LexLe(p, q)
    ensures LexLe(q, p) ==> p == q
  {
    if p != [] {
      PrefixIsLess(p[1..], q[1..]);
    }
  }

  /** Nothing sorts between a path and one that begins with it, except others that do. */
  lemma {:induction false} BetweenSharesPrefix(p: seq<int>, q: seq<int>, r: seq<int>)
    requires p <= r && LexLe(p, q) && LexLe(q, r)
    ensures p <= q
  {
    if p != [] {
      BetweenSharesPrefix(p[1..], q[1..], r[1..]);
      assert p == [p[0]] + p[1..] && q == [q[0]] + q[1..];
    }
  }

  /** Of two paths that part at one place, the lower there comes first, and not the other. */
  lemma {:induction false} PartedPaths(above: seq<int>, p: seq<int>, q: seq<int>)
    requires p != [] && q != [] && p[0] < q[0]
    ensures LexLe(above + p, above + q) && !LexLe(above + q, above + p)
  {
    if above == [] {
      assert above + p == p && above + q == q;
    } else {
      PartedPaths(above[1..], p, q);
      assert (above + p)[1..] == above[1..] + p && (above + q)[1..] == above[1..] + q;
    }
  }

  lemma PartedById(above: seq<int>, name: int, x: Id, y: Id)
    requires x < y
    ensures !LexLe(above + [name, y], above + [name, x])
  {
    PartedPaths(above + [name], [x], [y]);
    assert above + [name] + [x] == above + [name, x] && above + [name] + [y] == above + [name, y];
  }

  /** Above a place: the path of what it is in. */
  function PathAbove(places: Places, key: string -> int, library: nat, x: Id, n: nat): Option<seq<int>>
    requires x in places && n > 0
  {
    if places[x].parent.None? then Some([]) else Path(places, key, library, places[x].parent.value, n - 1)
  }

  lemma PathIsAboveAndOwn(places: Places, key: string -> int, library: nat, x: Id, n: nat)
    requires x in places && n > 0 && Path(places, key, library, x, n).Some?
    ensures var above := PathAbove(places, key, library, x, n);
            above.Some? && Path(places, key, library, x, n).value == above.value + [key(places[x].name), x]
  {
    if places[x].parent.None? {
      assert [] + [key(places[x].name), x] == [key(places[x].name), x];
    }
  }

  /** Places with the same parent, or at the top, are listed by name, and of one name by id. */
  lemma SiblingsByName(places: Places, key: string -> int, library: nat, out: seq<Id>, i: nat, j: nat)
    requires Listed(places, key, library, out) && i < j < |out|
    requires places[out[i]].parent == places[out[j]].parent
    requires Path(places, key, library, out[i], LIST_DEPTH).Some?
             && Path(places, key, library, out[j], LIST_DEPTH).Some?
    ensures var (a, b) := (key(places[out[i]].name), key(places[out[j]].name));
            a < b || (a == b && out[i] < out[j])
  {
    var x, y := out[i], out[j];
    var a, b := key(places[x].name), key(places[y].name);
    PathIsAboveAndOwn(places, key, library, x, LIST_DEPTH);
    PathIsAboveAndOwn(places, key, library, y, LIST_DEPTH);
    var above := PathAbove(places, key, library, x, LIST_DEPTH).value;
    if b < a {
      PartedPaths(above, [b, y], [a, x]);
    } else if a == b && y < x {
      PartedById(above, a, y, x);
    }
  }

  /** In the list, a place comes before everything inside it. */
  lemma ParentsComeFirst(places: Places, key: string -> int, library: nat, out: seq<Id>, i: nat, j: nat)
    requires Listed(places, key, library, out) && i < |out| && j < |out|
    requires Inside(places, out[j], out[i]) && out[i] != out[j]
    requires Path(places, key, library, out[j], LIST_DEPTH).Some?
    ensures i < j
  {
    var n: nat :| IsDescendant(places, out[j], out[i], n);
    InsideExtendsPath(places, key, library, out[j], out[i], n, LIST_DEPTH);
    PathEndsInId(places, key, library, out[i], LIST_DEPTH);
    PathEndsInId(places, key, library, out[j], LIST_DEPTH);
    var p := Path(places, key, library, out[i], LIST_DEPTH).value;
    var q := Path(places, key, library, out[j], LIST_DEPTH).value;
    PrefixIsLess(p, q);
    assert p != q;
  }

  /** And what is inside it stays together: nothing from elsewhere is listed between a
      place and something inside it. */
  lemma SubtreesStayTogether(places: Places, key: string -> int, library: nat, out: seq<Id>, i: nat, k: nat, j: nat)
    requires Listed(places, key, library, out) && i <= k <= j < |out|
    requires Inside(places, out[j], out[i])
    requires Path(places, key, library, out[j], LIST_DEPTH).Some?
    ensures Inside(places, out[k], out[i])
  {
    var n: nat :| IsDescendant(places, out[j], out[i], n);
    InsideExtendsPath(places, key, library, out[j], out[i], n, LIST_DEPTH);
    if k == j {
    } else {
      var p := Path(places, key, library, out[i], LIST_DEPTH).value;
      var q := Path(places, key, library, out[k], LIST_DEPTH).value;
      var r := Path(places, key, library, out[j], LIST_DEPTH).value;
      PrefixIsLess(p, p);
      BetweenSharesPrefix(p, q, r);
      PathPrefixIsInside(places, key, library, out[k], out[i], LIST_DEPTH, LIST_DEPTH);
    }
  }
}
