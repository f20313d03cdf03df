/** Reading the sort parameter, and what a sort adds to the query of the book list
    (internal/repository/book_sort.go).

    A sort is a list of levels, each with its field and its flags. Some levels join what
    they sort by, and a join may bind values of its own; the numbers of those follow on
    from whatever the query has bound before.
 */
module SortPlans {
  import opened BookFilter
  import opened Strings
  import opened Wrappers

  const MAX_SORT_KEYS := 4

  ghost predicate DistinctFields(keys: seq<SortKey>) {
    forall i, j :: 0 <= i < j < |keys| ==> keys[i].field != keys[j].field
  }

  /** sortFieldNames. */
  function FieldNamed(name: string): Option<SortField> {
    match name
    case "title" => Some(ByTitle)
    case "author" => Some(ByAuthor)
    case "series" => Some(BySeries)
    case "shelf" => Some(ByShelf)
    case "added" => Some(ByAdded)
    case "year" => Some(ByYear)
    case "publish_date" => Some(ByYear)
    case "created_at" => Some(ByCreated)
    case "media_type" => Some(ByMediaType)
    case _ => None
  }

  /** A level with its flags: the last direction given wins, and only a sort by series
      can be mixed. */
  function Flagged(k: SortKey, flags: seq<string>): SortKey {
    if flags == [] then k
    else
      var now := Flagged(k, flags[..|flags| - 1]);
      match flags[|flags| - 1]
      case "desc" => now.(desc := true)
      case "asc" => now.(desc := false)
      case "mixed" => now.(mixed := k.field == BySeries)
      case _ => now
  }

  predicate Sorted(keys: seq<SortKey>, f: SortField) { exists i :: 0 <= i < |keys| && keys[i].field == f }

  /** The tokens of a sort parameter: cut at commas, each trimmed, lower-cased and cut at
      hyphens into a field and its flags. */
  function Tokens(raw: string): seq<seq<string>> {
    if Trim(raw) == "" then []
    else
      var pieces := Split(Trim(raw), ',');
      seq(|pieces|, i requires 0 <= i < |pieces| => Split(Lowercase(Trim(pieces[i])), '-'))
  }

  predicate IsDesc(dir: string) { Lowercase(Trim(dir)) == "desc" }

  /** The level a token stands for, if its field is known. */
  function LevelOf(token: seq<string>, desc: bool): Option<SortKey> {
    if token == [] || FieldNamed(token[0]).None? then None
    else Some(Flagged(SortKey(FieldNamed(token[0]).value, desc, false), token[1..]))
  }

  /** The first level of each field, four at most. */
  function Firsts(levels: seq<Option<SortKey>>): seq<SortKey> {
    if levels == [] then []
    else
      var keys, k := Firsts(levels[..|levels| - 1]), levels[|levels| - 1];
      if |keys| == MAX_SORT_KEYS || k.None? || Sorted(keys, k.value.field) then keys else keys + [k.value]
  }

  /** The levels of a sort parameter. */
  function Levels(tokens: seq<seq<string>>, desc: bool): seq<SortKey> {
    Firsts(seq(|tokens|, i requires 0 <= i < |tokens| => LevelOf(tokens[i], desc)))
  }

  lemma {:induction false} FlagsKeepTheField(k: SortKey, flags: seq<string>)
    ensures Flagged(k, flags).field == k.field
  {
    if flags != [] {
      FlagsKeepTheField(k, flags[..|flags| - 1]);
    }
  }

  /** What the builder relies on: no field twice, and no more than four levels. */
  lemma {:induction false} FirstsAreDistinct(levels: seq<Option<SortKey>>)
    ensures DistinctFields(Firsts(levels)) && |Firsts(levels)| <= MAX_SORT_KEYS
  {
    if levels != [] {
      FirstsAreDistinct(levels[..|levels| - 1]);
    }
  }

  lemma LevelsAreDistinct(tokens: seq<seq<string>>, desc: bool)
    ensures DistinctFields(Levels(tokens, desc)) && |Levels(tokens, desc)| <= MAX_SORT_KEYS
  {
    FirstsAreDistinct(seq(|tokens|, i requires 0 <= i < |tokens| => LevelOf(tokens[i], desc)));
  }

  /** Four levels are all there will be. */
  lemma {:induction false} FullIsFull(levels: seq<Option<SortKey>>, i: nat)
    requires i <= |levels| && |Firsts(levels[..i])| == MAX_SORT_KEYS
    ensures Firsts(levels) == Firsts(levels[..i])
    decreases |levels|
  {
    if i < |levels| {
      var front := levels[..|levels| - 1];
      assert front[..i] == levels[..i];
      FullIsFull(front, i);
    } else {
      assert levels[..i] == levels;
    }
  }

  method ReadFlags(k: SortKey, flags: seq<string>) returns (r: SortKey)
    ensures r == Flagged(k, flags)
  {
    r := k;
    for i := 0 to |flags|
      invariant r == Flagged(k, flags[..i])
    {
      assert flags[..i + 1][..i] == flags[..i];
      match flags[i] {
        case "desc" => r := r.(desc := true);
        case "asc" => r := r.(desc := false);
        case "mixed" => r := r.(mixed := k.field == BySeries);
        case _ =>
      }
    }
    assert flags[..|flags|] == flags;
  }

  /** One piece: its field, unless that is unknown or already sorted by, and its flags. */
  method ParseLevel(piece: string, desc: bool, seen: set<SortField>) returns (k: Option<SortKey>)
    ensures var level := LevelOf(Split(Lowercase(Trim(piece)), '-'), desc);
            k == if level.Some? && level.value.field in seen then None else level
  {
    var parts := Split(Lowercase(Trim(piece)), '-');
    var f := FieldNamed(parts[0]);
    if f.None? { return None; }
    FlagsKeepTheField(SortKey(f.value, desc, false), parts[1..]);
    if f.value in seen { return None; }
    var key := ReadFlags(SortKey(f.value, desc, false), parts[1..]);
    return Some(key);
  }

  method ParseSortKeys(raw: string, dir: string) returns (keys: seq<SortKey>)
    ensures keys == Levels(Tokens(raw), IsDesc(dir))
  {
    keys := [];
    var trimmed := Trim(raw);
    if trimmed == "" { return; }
    var desc := Lowercase(Trim(dir)) == "desc";
    var pieces := Split(trimmed, ',');
    ghost var tokens := Tokens(raw);
    keys := ParsePieces(pieces, desc, seq(|tokens|, i requires 0 <= i < |tokens| => LevelOf(tokens[i], desc)));
  }

  method ParsePieces(pieces: seq<string>, desc: bool, ghost levels: seq<Option<SortKey>>) returns (keys: seq<SortKey>)
    requires |levels| == |pieces|
    requires forall i :: 0 <= i < |pieces| ==> levels[i] == LevelOf(Split(Lowercase(Trim(pieces[i])), '-'), desc)
    ensures keys == Firsts(levels)
  {
    keys := [];
    var seen: set<SortField> := {};
    for i := 0 to |pieces|
      invariant keys == Firsts(levels[..i]) && |keys| < MAX_SORT_KEYS
      invariant SeenIn(seen, keys)
    {
      var k := ParseLevel(pieces[i], desc, seen);
      NextLevel(levels, i, keys, seen, k);
      if k.None? { continue; }
      SortedGrows(seen, keys, k.value);
      seen := seen + {k.value.field};
      keys := keys + [k.value];
      if |keys| == MAX_SORT_KEYS {
        FullIsFull(levels, i + 1);
        return;
      }
    }
    assert levels[..|levels|] == levels;
  }

  lemma NextFirsts(levels: seq<Option<SortKey>>, i: nat)
    requires i < |levels|
    ensures Firsts(levels[..i + 1])
         == if |Firsts(levels[..i])| == MAX_SORT_KEYS || levels[i].None?
               || Sorted(Firsts(levels[..i]), levels[i].value.field)
            then Firsts(levels[..i]) else Firsts(levels[..i]) + [levels[i].value]
  {
    assert levels[..i + 1][..i] == levels[..i];
  }

  lemma NextLevel(levels: seq<Option<SortKey>>, i: nat, keys: seq<SortKey>, seen: set<SortField>, k: Option<SortKey>)
    requires i < |levels| && keys == Firsts(levels[..i]) && |keys| < MAX_SORT_KEYS && SeenIn(seen, keys)
    requires k == if levels[i].Some? && levels[i].value.field in seen then None else levels[i]
    ensures Firsts(levels[..i + 1]) == if k.None? then keys else keys + [k.value]
  {
    NextFirsts(levels, i);
  }

  /** The loop's set of fields is what the levels so far sort by. */
  ghost predicate SeenIn(seen: set<SortField>, keys: seq<SortKey>) {
    forall f :: f in seen <==> Sorted(keys, f)
  }

  lemma OneMoreSorted(keys: seq<SortKey>, k: SortKey)
    ensures forall f :: Sorted(keys + [k], f) <==> Sorted(keys, f) || f == k.field
  {
    assert (keys + [k])[|keys|] == k;
    forall f | Sorted(keys, f) ensures Sorted(keys + [k], f) {
      var j :| 0 <= j < |keys| && keys[j].field == f;
      assert (keys + [k])[j].field == f;
    }
  }

  lemma SortedGrows(seen: set<SortField>, keys: seq<SortKey>, k: SortKey)
    requires SeenIn(seen, keys)
    ensures SeenIn(seen + {k.field}, keys + [k])
  {
    OneMoreSorted(keys, k);
  }

  // ---- what a sort parameter says ----------------------------------------------

  /** A level is there exactly when its token is known, its field comes up for the first
      time, and no four were there before it; in the order of the tokens. */
  ghost predicate AreTheFirst(levels: seq<Option<SortKey>>, keys: seq<SortKey>, at: seq<nat>) {
    && |at| == |keys| <= 4
    && (forall j :: 0 <= j < |at| ==> at[j] < |levels| && levels[at[j]] == Some(keys[j]) && ComesUpFirst(levels, at[j]))
    && (forall i, j :: 0 <= i < j < |at| ==> at[i] < at[j])
    && (|keys| < 4 ==> forall i :: 0 <= i < |levels| && ComesUpFirst(levels, i) ==> i in at)
    && (|keys| == 4 ==> forall i :: 0 <= i < at[3] && ComesUpFirst(levels, i) ==> i in at)
  }

  ghost predicate ComesUpFirst(levels: seq<Option<SortKey>>, i: nat)
    requires i < |levels|
  {
    levels[i].Some? && forall j :: 0 <= j < i && levels[j].Some? ==> levels[j].value.field != levels[i].value.field
  }

  ghost predicate SortedBySome(levels: seq<Option<SortKey>>, f: SortField) {
    exists j :: 0 <= j < |levels| && levels[j].Some? && levels[j].value.field == f
  }

  /** While there is room, the fields sorted by are those that have come up. */
  lemma {:induction false} FieldsSoFar(levels: seq<Option<SortKey>>, f: SortField)
    requires |Firsts(levels)| < MAX_SORT_KEYS
    ensures Sorted(Firsts(levels), f) <==> SortedBySome(levels, f)
  {
    if levels != [] {
      var n := |levels| - 1;
      var front := levels[..n];
      NextFirsts(levels, n);
      assert levels[..n + 1] == levels;
      FieldsSoFar(front, f);
      assert SortedBySome(levels, f) <==> SortedBySome(front, f) || (levels[n].Some? && levels[n].value.field == f) by {
        assert forall j :: 0 <= j < n ==> front[j] == levels[j];
      }
      if Firsts(levels) != Firsts(front) {
        var k := levels[n].value;
        OneMoreSorted(Firsts(front), k);
      }
    }
  }

  lemma OneMoreLevel(levels: seq<Option<SortKey>>, level: Option<SortKey>, keys: seq<SortKey>, at: seq<nat>)
    requires AreTheFirst(levels, keys, at) && |keys| < 4
    ensures var all := levels + [level];
            if ComesUpFirst(all, |levels|) then AreTheFirst(all, keys + [level.value], at + [|levels|])
            else AreTheFirst(all, keys, at)
  {
    var all := levels + [level];
    assert forall i :: 0 <= i < |levels| ==> all[i] == levels[i];
    assert forall i :: 0 <= i < |levels| ==> (ComesUpFirst(all, i) <==> ComesUpFirst(levels, i));
    if ComesUpFirst(all, |levels|) {
      var more := at + [|levels|];
      assert more[|at|] == |levels|;
      forall i | 0 <= i < |all| && ComesUpFirst(all, i) ensures i in more {
        assert i < |levels| ==> i in at;
      }
    }
  }

  lemma FullStays(levels: seq<Option<SortKey>>, level: Option<SortKey>, keys: seq<SortKey>, at: seq<nat>)
    requires AreTheFirst(levels, keys, at) && |keys| == 4
    ensures AreTheFirst(levels + [level], keys, at)
  {
    var all := levels + [level];
    assert forall i :: 0 <= i < |levels| ==> all[i] == levels[i];
    assert forall i :: 0 <= i < |levels| ==> (ComesUpFirst(all, i) <==> ComesUpFirst(levels, i));
  }

  lemma {:induction false} FirstsMean(levels: seq<Option<SortKey>>) returns (at: seq<nat>)
    ensures AreTheFirst(levels, Firsts(levels), at)
  {
    if levels == [] {
      return [];
    }
    var n := |levels| - 1;
    var front, level := levels[..n], levels[n];
    at := FirstsMean(front);
    assert levels == front + [level];
    if |Firsts(front)| == MAX_SORT_KEYS {
      FullStays(front, level, Firsts(front), at);
    } else {
      OneMoreLevel(front, level, Firsts(front), at);
      if level.Some? {
        FieldsSoFar(front, level.value.field);
        assert ComesUpFirst(levels, n) <==> !SortedBySome(front, level.value.field);
      }
      at := at + if level.Some? && !Sorted(Firsts(front), level.value.field) then [n] else [];
    }
  }

  /** A token without flags runs the way the direction parameter says; one with an unknown
      name is no level. */
  lemma BareLevel(name: string, desc: bool)
    ensures var field := FieldNamed(name);
            LevelOf([name], desc) == if field.None? then None else Some(SortKey(field.value, desc, false))
    ensures FieldNamed("publish_date") == FieldNamed("year")
    ensures FieldNamed(name).None? <==>
              name !in ["title", "author", "series", "shelf", "added", "year", "publish_date", "created_at",
                        "media_type"]
  {
    assert [name][1..] == [];
  }

  // ---- a sort written out and read back ----------------------------------------

  function NameOf(f: SortField): string {
    match f
    case ByTitle => "title"
    case ByAuthor => "author"
    case BySeries => "series"
    case ByShelf => "shelf"
    case ByAdded => "added"
    case ByYear => "year"
    case ByCreated => "created_at"
    case ByMediaType => "media_type"
  }

  function Direction(k: SortKey): string { if k.desc then "desc" else "asc" }

  function WrittenLevel(k: SortKey): string {
    NameOf(k.field) + (if k.mixed then "-mixed" else "") + "-" + Direction(k)
  }

  function Written(keys: seq<SortKey>): string {
    if keys == [] then ""
    else if |keys| == 1 then WrittenLevel(keys[0])
    else Written(keys[..|keys| - 1]) + "," + WrittenLevel(keys[|keys| - 1])
  }

  /** Nothing in it that reading looks at: small letters and underscores. */
  predicate Simple(s: string) { s != "" && forall i :: 0 <= i < |s| ==> 'a' <= s[i] <= 'z' || s[i] == '_' }

  lemma NamesAreSimple(f: SortField)
    ensures Simple(NameOf(f)) && FieldNamed(NameOf(f)) == Some(f)
  {
  }

  /** The pieces between the hyphens. */
  function Token(k: SortKey): seq<string> {
    [NameOf(k.field)] + (if k.mixed then ["mixed"] else []) + [Direction(k)]
  }

  lemma LevelSplits(k: SortKey)
    ensures Split(WrittenLevel(k), '-') == Token(k)
  {
    var name, d := NameOf(k.field), Direction(k);
    NamesAreSimple(k.field);
    SplitOnePiece(name, '-');
    if k.mixed {
      SplitOffTheLast(name, "mixed", '-');
      assert name + ['-'] + "mixed" == name + "-mixed";
      SplitOffTheLast(name + "-mixed", d, '-');
      assert WrittenLevel(k) == name + "-mixed" + ['-'] + d;
    } else {
      SplitOffTheLast(name, d, '-');
      assert WrittenLevel(k) == name + ['-'] + d;
    }
  }

  lemma OneMoreFlag(k: SortKey, flags: seq<string>, flag: string)
    ensures flag == "desc" ==> Flagged(k, flags + [flag]) == Flagged(k, flags).(desc := true)
    ensures flag == "asc" ==> Flagged(k, flags + [flag]) == Flagged(k, flags).(desc := false)
    ensures flag == "mixed" ==> Flagged(k, flags + [flag]) == Flagged(k, flags).(mixed := k.field == BySeries)
  {
    assert (flags + [flag])[..|flags|] == flags;
  }

  lemma LevelIsRead(k: SortKey, desc: bool)
    requires k.mixed ==> k.field == BySeries
    ensures LevelOf(Token(k), desc) == Some(k)
  {
    var plain := SortKey(k.field, desc, false);
    var mixing: seq<string> := if k.mixed then ["mixed"] else [];
    NamesAreSimple(k.field);
    OneMoreFlag(plain, [], "mixed");
    assert [] + ["mixed"] == ["mixed"];
    OneMoreFlag(plain, mixing, Direction(k));
    assert Token(k)[1..] == mixing + [Direction(k)];
  }

  /** No blank, capital or comma in it. */
  predicate Clear(s: string) {
    s != "" && forall i :: 0 <= i < |s| ==> 'a' <= s[i] <= 'z' || s[i] == '_' || s[i] == '-'
  }

  lemma LevelIsClear(k: SortKey)
    ensures Clear(WrittenLevel(k))
  {
    NamesAreSimple(k.field);
  }

  lemma ClearReads(s: string)
    requires Clear(s)
    ensures Trim(s) == s && Lowercase(s) == s && ',' !in s && Neat(s)
  {
    TrimIsNeat(s);
  }

  function Pieces(keys: seq<SortKey>): (pieces: seq<string>)
    ensures |pieces| == |keys| && forall i :: 0 <= i < |keys| ==> pieces[i] == WrittenLevel(keys[i])
  {
    if keys == [] then [] else Pieces(keys[..|keys| - 1]) + [WrittenLevel(keys[|keys| - 1])]
  }

  lemma NeatJoins(s: string, t: string)
    requires Neat(s) && Neat(t)
    ensures Neat(s + [','] + t)
  {
  }

  lemma {:induction false} WrittenSplits(keys: seq<SortKey>)
    requires keys != []
    ensures Split(Written(keys), ',') == Pieces(keys) && Neat(Written(keys))
  {
    var n := |keys| - 1;
    var last := WrittenLevel(keys[n]);
    LevelIsClear(keys[n]);
    ClearReads(last);
    if n == 0 {
      SplitOnePiece(last, ',');
      assert Pieces(keys[..0]) == [];
    } else {
      WrittenSplits(keys[..n]);
      SplitOffTheLast(Written(keys[..n]), last, ',');
      NeatJoins(Written(keys[..n]), last);
      assert Written(keys) == Written(keys[..n]) + [','] + last;
    }
  }

  lemma WrittenTokens(keys: seq<SortKey>)
    ensures |Tokens(Written(keys))| == |keys|
    ensures forall i :: 0 <= i < |keys| ==> Tokens(Written(keys))[i] == Token(keys[i])
  {
    if keys != [] {
      WrittenSplits(keys);
      TrimIsNeat(Written(keys));
      forall i | 0 <= i < |keys| ensures Tokens(Written(keys))[i] == Token(keys[i]) {
        LevelIsClear(keys[i]);
        ClearReads(WrittenLevel(keys[i]));
        LevelSplits(keys[i]);
      }
    }
  }

  lemma {:induction false} DistinctAreFirst(keys: seq<SortKey>, levels: seq<Option<SortKey>>)
    requires DistinctFields(keys) && |keys| == |levels| <= MAX_SORT_KEYS
    requires forall i :: 0 <= i < |keys| ==> levels[i] == Some(keys[i])
    ensures Firsts(levels) == keys
  {
    if keys != [] {
      var n := |keys| - 1;
      DistinctAreFirst(keys[..n], levels[..n]);
      assert !Sorted(keys[..n], keys[n].field);
      assert keys == keys[..n] + [keys[n]];
    }
  }

  /** A sort of up to four different levels, written out, is read back as it was, whatever
      the default direction. */
  lemma WrittenReadsBack(keys: seq<SortKey>, dir: string)
    requires DistinctFields(keys) && |keys| <= 4
    requires forall i :: 0 <= i < |keys| && keys[i].mixed ==> keys[i].field == BySeries
    ensures Levels(Tokens(Written(keys)), IsDesc(dir)) == keys
  {
    WrittenTokens(keys);
    var tokens := Tokens(Written(keys));
    var levels := seq(|tokens|, i requires 0 <= i < |tokens| => LevelOf(tokens[i], IsDesc(dir)));
    forall i | 0 <= i < |keys| ensures levels[i] == Some(keys[i]) {
      LevelIsRead(keys[i], IsDesc(dir));
    }
    DistinctAreFirst(keys, levels);
  }

  /** What a level's join reads: the libraries, and the series or places being looked at
      when there are any, which it prefers. */
  function AskedLevel(f: SortField, libraries: seq<Id>, series: seq<Id>, places: seq<Id>): seq<Test> {
    match f
    case BySeries => [Test(SortBySeries, [Ids(libraries)] + if series == [] then [] else [Ids(series)])]
    case ByShelf => [Test(SortByShelf, [Ids(libraries)] + if places == [] then [] else [Ids(places), Ids(places)])]
    case ByAdded => [Test(SortByAdded, [Ids(libraries)])]
    case _ => []
  }

  function AskedSort(keys: seq<SortKey>, libraries: seq<Id>, series: seq<Id>, places: seq<Id>): seq<Test> {
    if keys == [] then []
    else
      AskedSort(keys[..|keys| - 1], libraries, series, places)
      + AskedLevel(keys[|keys| - 1].field, libraries, series, places)
  }

  /** The joins of a sort that mention placeholders, what they bind, and the next number. */
  datatype SortPlan = SortPlan(joins: seq<Cond>, args: seq<Value>, next: nat)

  /** After the arguments already bound, the joins read what was asked, and mention
      everything the plan binds. */
  ghost predicate Sorts(p: SortPlan, bound: seq<Value>, asked: seq<Test>) {
    && p.next == |bound| + |p.args| + 1
    && CondsInRange(p.joins, |bound + p.args|) && BoundConds(p.joins, bound + p.args) == asked
    && forall k: nat :: |bound| < k < p.next ==> k in CondPlaceholders(p.joins)
  }

  lemma LevelAdds(p: SortPlan, p': SortPlan, bound: seq<Value>, asked: seq<Test>, c: Cond, vals: seq<Value>, test: Test)
    requires Sorts(p, bound, asked)
    requires p' == SortPlan(p.joins + [c], p.args + vals, p.next + |vals|)
    requires CondInRange(c, |bound + p'.args|) && Bound(c, bound + p'.args) == test
    requires forall k: nat :: p.next <= k < p'.next ==> k in c.at
    ensures Sorts(p', bound, asked + [test])
  {
    assert bound + p'.args == bound + p.args + vals;
    MoreArgs(p.joins, bound + p.args, vals);
    assert p'.joins[..|p.joins|] == p.joins;
    assert CondPlaceholders(p'.joins) == CondPlaceholders(p.joins) + Mentioned(c);
    assert BoundConds(p'.joins, bound + p'.args) == BoundConds(p.joins, bound + p'.args) + [test];
  }

  /** One level's join. */
  method AddLevel(f: SortField, p: SortPlan, series: seq<Id>, places: seq<Id>,
                  ghost bound: seq<Value>, ghost libraries: seq<Id>, ghost asked: seq<Test>) returns (r: SortPlan)
    requires Sorts(p, bound, asked) && |bound| >= 1 && bound[0] == Ids(libraries)
    ensures Sorts(r, bound, asked + AskedLevel(f, libraries, series, places))
  {
    r := p;
    match f {
      case BySeries =>
        var at := [1];
        if |series| > 0 {
          at := at + [r.next];
          r := r.(args := r.args + [Ids(series)], next := r.next + 1);
        }
        r := r.(joins := r.joins + [Cond(SortBySeries, at)]);
        LevelAdds(p, r, bound, asked, Cond(SortBySeries, at), if series == [] then [] else [Ids(series)],
                  AskedLevel(BySeries, libraries, series, places)[0]);
      case ByShelf =>
        var at := [1];
        if |places| > 0 {
          at := at + [r.next, r.next];
          r := r.(args := r.args + [Ids(places)], next := r.next + 1);
        }
        r := r.(joins := r.joins + [Cond(SortByShelf, at)]);
        LevelAdds(p, r, bound, asked, Cond(SortByShelf, at), if places == [] then [] else [Ids(places)],
                  AskedLevel(ByShelf, libraries, series, places)[0]);
      case ByAdded =>
        r := r.(joins := r.joins + [Cond(SortByAdded, [1])]);
        LevelAdds(p, r, bound, asked, Cond(SortByAdded, [1]), [], AskedLevel(ByAdded, libraries, series, places)[0]);
      case _ =>
        assert asked + [] == asked;
    }
  }

  /** buildSortPlan, as far as it binds or mentions anything. */
  method BuildSortPlan(keys: seq<SortKey>, argIdx: nat, series: seq<Id>, places: seq<Id>,
                       ghost bound: seq<Value>, ghost libraries: seq<Id>) returns (p: SortPlan)
    requires argIdx == |bound| + 1 && |bound| >= 1 && bound[0] == Ids(libraries)
    ensures Sorts(p, bound, AskedSort(keys, libraries, series, places))
  {
    p := SortPlan([], [], argIdx);
    assert BoundConds([], bound + []) == [];
    for i := 0 to |keys|
      invariant Sorts(p, bound, AskedSort(keys[..i], libraries, series, places))
    {
      assert keys[..i + 1][..i] == keys[..i];
      p := AddLevel(keys[i].field, p, series, places, bound, libraries,
        AskedSort(keys[..i], libraries, series, places));
    }
    assert keys[..|keys|] == keys;
  }
}
