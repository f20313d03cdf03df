/** Merging one field of every provider's answer (internal/providers/merge.go).
 */
module FieldMerge {
  // Group the answers by normalised value, let a value that more providers agree on
  // than on any other win, otherwise break the tie.

  import opened Wrappers

  /** One provider's answer, with what it wrote in the field being merged. */
  datatype Answer = Answer(provider: string, display: string, field: string)

  /** The text rules: trimming, the normalised form of a trimmed value, and how a
      field ranks values that tie. */
  datatype Rules = Rules(trim: string -> string, normalise: string -> string, weight: string -> nat)

  datatype Reason = Agreed | Only | Tiebreak

  /** One distinct value and every provider that gave it. */
  datatype Group = Group(key: string, value: string, sources: seq<Answer>)

  datatype FieldResult = FieldResult(chosen: Group, reason: Reason, alternatives: seq<Group>)

  // ---- grouping ----------------------------------------------------------------

  predicate Answered(u: Rules, a: Answer) { u.trim(a.field) != "" }

  function Key(u: Rules, a: Answer): string { u.normalise(u.trim(a.field)) }

  /** The position of the group with a key, or |groups|. */
  function Find(groups: seq<Group>, key: string): (i: nat)
    ensures i <= |groups|
    ensures i < |groups| ==> groups[i].key == key
    ensures forall j :: 0 <= j < i ==> groups[j].key != key
  {
    if groups == [] then 0
    else if groups[0].key == key then 0
    else 1 + Find(groups[1..], key)
  }

  function AddTo(u: Rules, groups: seq<Group>, a: Answer): seq<Group> {
    if !Answered(u, a) then groups
    else
      var i := Find(groups, Key(u, a));
      if i < |groups| then groups[i := groups[i].(sources := groups[i].sources + [a])]
      else groups + [Group(Key(u, a), u.trim(a.field), [a])]
  }

  function Grouped(u: Rules, answers: seq<Answer>): seq<Group> {
    if answers == [] then []
    else AddTo(u, Grouped(u, answers[..|answers| - 1]), answers[|answers| - 1])
  }

  // ---- choosing ----------------------------------------------------------------

  ghost predicate Tied(groups: seq<Group>, i: nat, c: nat)
    requires i < |groups| && c < |groups|
  {
    |groups[i].sources| == |groups[c].sources|
  }

  /** Group c wins, and why: nobody is larger; alone of its size and at least two, it
      is agreed; the only group of a single answer is the only one; otherwise it
      weighs most among the tied, the first of them that does. */
  ghost predicate Wins(u: Rules, groups: seq<Group>, c: nat, reason: Reason)
    requires c < |groups|
  {
    && (forall i :: 0 <= i < |groups| ==> |groups[i].sources| <= |groups[c].sources|)
    && (reason == Only <==> |groups| == 1 && |groups[c].sources| == 1)
    && (reason == Agreed <==>
          |groups[c].sources| >= 2 && forall i :: 0 <= i < |groups| && Tied(groups, i, c) ==> i == c)
    && (reason == Tiebreak ==> forall i :: 0 <= i < |groups| && Tied(groups, i, c) ==>
          && u.weight(groups[i].value) <= u.weight(groups[c].value)
          && (i < c ==> u.weight(groups[i].value) < u.weight(groups[c].value)))
  }

  ghost predicate IsMerge(u: Rules, groups: seq<Group>, r: FieldResult) {
    exists c :: 0 <= c < |groups| && r.chosen == groups[c] && Wins(u, groups, c, r.reason)
                && r.alternatives == groups[..c] + groups[c + 1..]
  }

  /** The index kept beside the groups knows exactly their keys and positions. */
  ghost predicate Indexes(index: map<string, nat>, groups: seq<Group>) {
    forall k :: if k in index then index[k] == Find(groups, k) < |groups| else Find(groups, k) == |groups|
  }

  method GroupAnswers(u: Rules, answers: seq<Answer>) returns (groups: seq<Group>)
    ensures groups == Grouped(u, answers)
  {
    groups := [];
    var index: map<string, nat> := map[];
    for n := 0 to |answers|
      invariant groups == Grouped(u, answers[..n]) && Indexes(index, groups)
    {
      assert answers[..n + 1][..n] == answers[..n];
      groups, index := AddAnswer(u, groups, index, answers[n]);
    }
    assert answers[..|answers|] == answers;
  }

  method AddAnswer(u: Rules, groups: seq<Group>, index: map<string, nat>, a: Answer)
    returns (groups': seq<Group>, index': map<string, nat>)
    requires Indexes(index, groups)
    ensures groups' == AddTo(u, groups, a) && Indexes(index', groups')
  {
    groups', index' := groups, index;
    if !Answered(u, a) { return; }
    var key := Key(u, a);
    if key in index {
      var i := index[key];
      groups' := groups[i := groups[i].(sources := groups[i].sources + [a])];
      IndexStays(groups, groups');
    } else {
      var g := Group(key, u.trim(a.field), [a]);
      groups', index' := groups + [g], index[key := |groups|];
      IndexGrows(groups, g);
    }
  }

  lemma {:induction false} FindKeys(a: seq<Group>, b: seq<Group>, key: string)
    requires |a| == |b| && forall i :: 0 <= i < |a| ==> a[i].key == b[i].key
    ensures Find(a, key) == Find(b, key)
  {
    if a != [] && a[0].key != key {
      FindKeys(a[1..], b[1..], key);
    }
  }

  lemma {:induction false} FindAppend(a: seq<Group>, g: Group, key: string)
    ensures Find(a + [g], key) == if Find(a, key) < |a| then Find(a, key) else if g.key == key then |a| else |a| + 1
  {
    if a != [] && a[0].key != key {
      FindAppend(a[1..], g, key);
      assert (a + [g])[1..] == a[1..] + [g];
    }
  }

  lemma IndexStays(a: seq<Group>, b: seq<Group>)
    requires |a| == |b| && forall i :: 0 <= i < |a| ==> a[i].key == b[i].key
    ensures forall k :: Find(a, k) == Find(b, k)
  {
    forall k ensures Find(a, k) == Find(b, k) {
      FindKeys(a, b, k);
    }
  }

  lemma IndexGrows(a: seq<Group>, g: Group)
    ensures forall k :: Find(a + [g], k) == if Find(a, k) < |a| then Find(a, k) else if k == g.key then |a| else |a| + 1
  {
    forall k ensures Find(a + [g], k) == if Find(a, k) < |a| then Find(a, k) else if k == g.key then |a| else |a| + 1 {
      FindAppend(a, g, k);
    }
  }

  method MergeField(u: Rules, answers: seq<Answer>) returns (r: Option<FieldResult>)
    ensures r.None? <==> Grouped(u, answers) == []
    ensures r.Some? ==> IsMerge(u, Grouped(u, answers), r.value)
  {
    var groups := GroupAnswers(u, answers);
    if |groups| == 0 { return None; }
    NoGroupIsEmpty(u, answers);
    var merged := Decide(u, groups);
    return Some(merged);
  }

  method Decide(u: Rules, groups: seq<Group>) returns (r: FieldResult)
    requires groups != [] && forall g :: g in groups ==> g.sources != []
    ensures IsMerge(u, groups, r)
  {
    var best, top, at := CountBest(groups);
    var c: nat;
    var reason: Reason;
    if |groups| == 1 && best == 1 {
      c, reason := 0, Only;
      OnlyOne(u, groups);
    } else if best >= 2 && top == 1 {
      c := OfSize(groups, best, at);
      reason := Agreed;
      OneOfItsSize(u, groups, c);
    } else {
      c := Heaviest(u, groups, best, at);
      reason := Tiebreak;
      SeveralOrSingle(u, groups, c);
    }
    r := ResultOf(groups, c, reason);
    WinsIsMerge(u, groups, c, reason);
  }

  function ResultOf(groups: seq<Group>, c: nat, reason: Reason): FieldResult
    requires c < |groups|
  {
    FieldResult(groups[c], reason, groups[..c] + groups[c + 1..])
  }

  lemma WinsIsMerge(u: Rules, groups: seq<Group>, c: nat, reason: Reason)
    requires c < |groups| && Wins(u, groups, c, reason)
    ensures IsMerge(u, groups, ResultOf(groups, c, reason))
  {
  }

  lemma OnlyOne(u: Rules, groups: seq<Group>)
    requires |groups| == 1 && |groups[0].sources| == 1
    ensures Wins(u, groups, 0, Only)
  {
  }

  ghost predicate NoneAbove(groups: seq<Group>, best: nat) {
    forall i :: 0 <= i < |groups| ==> |groups[i].sources| <= best
  }

  ghost predicate AloneOfSize(groups: seq<Group>, best: nat, at: nat) {
    forall i :: 0 <= i < |groups| && |groups[i].sources| == best ==> i == at
  }

  ghost predicate SeveralOfSize(groups: seq<Group>, best: nat) {
    exists i, j :: 0 <= i < j < |groups| && |groups[i].sources| == |groups[j].sources| == best
  }

  ghost predicate FirstHeaviest(u: Rules, groups: seq<Group>, best: nat, c: nat)
    requires c < |groups|
  {
    forall i :: 0 <= i < |groups| && |groups[i].sources| == best ==>
      && u.weight(groups[i].value) <= u.weight(groups[c].value)
      && (i < c ==> u.weight(groups[i].value) < u.weight(groups[c].value))
  }

  lemma OneOfItsSize(u: Rules, groups: seq<Group>, c: nat)
    requires c < |groups| && |groups[c].sources| >= 2
    requires NoneAbove(groups, |groups[c].sources|) && AloneOfSize(groups, |groups[c].sources|, c)
    ensures Wins(u, groups, c, Agreed)
  {
  }

  lemma SeveralOrSingle(u: Rules, groups: seq<Group>, c: nat)
    requires c < |groups| && !(|groups| == 1 && |groups[c].sources| == 1)
    requires NoneAbove(groups, |groups[c].sources|)
    requires |groups[c].sources| >= 2 ==> SeveralOfSize(groups, |groups[c].sources|)
    requires FirstHeaviest(u, groups, |groups[c].sources|, c)
    ensures Wins(u, groups, c, Tiebreak)
  {
    if |groups[c].sources| >= 2 {
      var i, j :| 0 <= i < j < |groups| && |groups[i].sources| == |groups[j].sources| == |groups[c].sources|;
      assert Tied(groups, i, c) && Tied(groups, j, c);
    }
  }

  /** The group of the best size, when there is one. */
  method OfSize(groups: seq<Group>, best: nat, ghost at: nat) returns (c: nat)
    requires at < |groups| && |groups[at].sources| == best
    ensures c < |groups| && |groups[c].sources| == best
  {
    c := 0;
    for n := 0 to |groups|
      invariant c < |groups|
      invariant n > at ==> |groups[c].sources| == best
    {
      if |groups[n].sources| == best { c := n; }
    }
  }

  /** The best size, and how many groups have it. */
  method CountBest(groups: seq<Group>) returns (best: nat, top: nat, ghost at: nat)
    requires groups != [] && forall g :: g in groups ==> g.sources != []
    ensures best >= 1 && top >= 1
    ensures NoneAbove(groups, best) && at < |groups| && |groups[at].sources| == best
    ensures if top == 1 then AloneOfSize(groups, best, at) else SeveralOfSize(groups, best)
  {
    best, top, at := 0, 0, 0;
    for n := 0 to |groups|
      invariant forall i :: 0 <= i < n ==> |groups[i].sources| <= best
      invariant n > 0 ==> at < n && |groups[at].sources| == best && best >= 1 && top >= 1
      invariant n == 0 ==> best == 0 && top == 0
      invariant top == 1 ==> forall i :: 0 <= i < n && |groups[i].sources| == best ==> i == at
      invariant top > 1 ==> exists i, j :: 0 <= i < j < n && |groups[i].sources| == |groups[j].sources| == best
    {
      assert groups[n] in groups;
      if |groups[n].sources| > best {
        best, top, at := |groups[n].sources|, 1, n;
      } else if |groups[n].sources| == best {
        top := top + 1;
        assert at < n && |groups[at].sources| == |groups[n].sources| == best;
      }
    }
  }

  /** The tie-break: of the groups of the best size, the first that weighs most. */
  method Heaviest(u: Rules, groups: seq<Group>, best: nat, ghost at: nat) returns (c: nat)
    requires at < |groups| && |groups[at].sources| == best
    ensures c < |groups| && |groups[c].sources| == best && FirstHeaviest(u, groups, best, c)
  {
    c := |groups|;
    for n := 0 to |groups|
      invariant c == |groups| || (c < n && |groups[c].sources| == best)
      invariant c == |groups| ==> forall i :: 0 <= i < n ==> |groups[i].sources| != best
      invariant c < |groups| ==> forall i :: 0 <= i < n && |groups[i].sources| == best ==>
        && u.weight(groups[i].value) <= u.weight(groups[c].value)
        && (i < c ==> u.weight(groups[i].value) < u.weight(groups[c].value))
    {
      if |groups[n].sources| == best && (c == |groups| || u.weight(groups[n].value) > u.weight(groups[c].value)) {
        c := n;
      }
    }
  }

  // ---- what the groups are -----------------------------------------------------

  /** The answers that gave a value, in arrival order. */
  function Having(u: Rules, answers: seq<Answer>, key: string): seq<Answer> {
    if answers == [] then []
    else
      var rest := Having(u, answers[..|answers| - 1], key);
      var a := answers[|answers| - 1];
      if Answered(u, a) && Key(u, a) == key then rest + [a] else rest
  }

  /** The keys of the answers, in arrival order. */
  function Keys(u: Rules, answers: seq<Answer>): seq<string> {
    if answers == [] then []
    else
      var a := answers[|answers| - 1];
      Keys(u, answers[..|answers| - 1]) + if Answered(u, a) then [Key(u, a)] else []
  }

  /** Each value once, in the order it first arrived. */
  function FirstSeen(keys: seq<string>): seq<string> {
    if keys == [] then []
    else
      var rest := FirstSeen(keys[..|keys| - 1]);
      if keys[|keys| - 1] in rest then rest else rest + [keys[|keys| - 1]]
  }

  function GroupKeys(groups: seq<Group>): (ks: seq<string>)
    ensures |ks| == |groups| && forall i :: 0 <= i < |ks| ==> ks[i] == groups[i].key
  {
    seq(|groups|, i requires 0 <= i < |groups| => groups[i].key)
  }

  /** One group per value in first-arrival order, each holding exactly the answers with
      that value in arrival order, under the first one's wording. */
  ghost predicate Partition(u: Rules, answers: seq<Answer>, groups: seq<Group>) {
    && GroupKeys(groups) == FirstSeen(Keys(u, answers))
    && DistinctKeys(groups)
    && AllFromFirst(u, answers, groups)
    && NoneElse(u, answers, groups)
  }

  ghost predicate DistinctKeys(groups: seq<Group>) {
    forall i, j :: 0 <= i < j < |groups| ==> groups[i].key != groups[j].key
  }

  ghost predicate AllFromFirst(u: Rules, answers: seq<Answer>, groups: seq<Group>) {
    forall i :: 0 <= i < |groups| ==> FromFirst(u, answers, groups[i])
  }

  ghost predicate NoneElse(u: Rules, answers: seq<Answer>, groups: seq<Group>) {
    forall key :: key !in GroupKeys(groups) ==> Having(u, answers, key) == []
  }

  ghost predicate FromFirst(u: Rules, answers: seq<Answer>, g: Group) {
    g.sources == Having(u, answers, g.key) && g.sources != [] && g.value == u.trim(g.sources[0].field)
  }

  lemma {:induction false} FindSpec(groups: seq<Group>, key: string)
    ensures Find(groups, key) == |groups| <==> key !in GroupKeys(groups)
  {
    if key in GroupKeys(groups) {
      var i :| 0 <= i < |groups| && GroupKeys(groups)[i] == key;
      assert groups[i].key == key;
    } else {
      assert forall i :: 0 <= i < |groups| ==> GroupKeys(groups)[i] == groups[i].key;
    }
  }

  lemma Snoc(u: Rules, init: seq<Answer>, a: Answer, key: string)
    ensures Having(u, init + [a], key) ==
              if Answered(u, a) && Key(u, a) == key then Having(u, init, key) + [a] else Having(u, init, key)
    ensures Keys(u, init + [a]) == if Answered(u, a) then Keys(u, init) + [Key(u, a)] else Keys(u, init)
  {
    assert (init + [a])[..|init|] == init;
  }

  lemma SnocSeen(keys: seq<string>, key: string)
    ensures FirstSeen(keys + [key]) == if key in FirstSeen(keys) then FirstSeen(keys) else FirstSeen(keys) + [key]
  {
    assert (keys + [key])[..|keys|] == keys;
  }

  lemma KeptFromFirst(u: Rules, init: seq<Answer>, a: Answer, g: Group)
    requires FromFirst(u, init, g) && !(Answered(u, a) && Key(u, a) == g.key)
    ensures FromFirst(u, init + [a], g)
  {
    Snoc(u, init, a, g.key);
  }

  lemma JoinedFromFirst(u: Rules, init: seq<Answer>, a: Answer, g: Group)
    requires FromFirst(u, init, g) && Answered(u, a) && Key(u, a) == g.key
    ensures FromFirst(u, init + [a], g.(sources := g.sources + [a]))
  {
    Snoc(u, init, a, g.key);
  }

  lemma StartedFromFirst(u: Rules, init: seq<Answer>, a: Answer)
    requires Answered(u, a) && Having(u, init, Key(u, a)) == []
    ensures FromFirst(u, init + [a], Group(Key(u, a), u.trim(a.field), [a]))
  {
    Snoc(u, init, a, Key(u, a));
  }

  /** Nothing is added under a key that is not there. */
  lemma NoneElseStays(u: Rules, init: seq<Answer>, a: Answer, before: seq<Group>, groups: seq<Group>)
    requires NoneElse(u, init, before) && forall key :: key in GroupKeys(before) ==> key in GroupKeys(groups)
    requires Answered(u, a) ==> Key(u, a) in GroupKeys(groups)
    ensures NoneElse(u, init + [a], groups)
  {
    forall key | key !in GroupKeys(groups) ensures Having(u, init + [a], key) == [] {
      Snoc(u, init, a, key);
    }
  }

  function Joined(before: seq<Group>, i: nat, a: Answer): (groups: seq<Group>)
    requires i < |before|
    ensures GroupKeys(groups) == GroupKeys(before)
  {
    before[i := before[i].(sources := before[i].sources + [a])]
  }

  /** An answer whose value has been seen joins its group. */
  lemma JoinsGroup(u: Rules, init: seq<Answer>, a: Answer, before: seq<Group>, i: nat)
    requires Partition(u, init, before) && Answered(u, a)
    requires i < |before| && before[i].key == Key(u, a)
    ensures Partition(u, init + [a], Joined(before, i, a))
  {
    var groups := Joined(before, i, a);
    assert GroupKeys(before)[i] == Key(u, a);
    NoneElseStays(u, init, a, before, groups);
    Snoc(u, init, a, "");
    SnocSeen(Keys(u, init), Key(u, a));
    JoinedStay(u, init, a, before, i);
  }

  lemma JoinedStay(u: Rules, init: seq<Answer>, a: Answer, before: seq<Group>, i: nat)
    requires DistinctKeys(before) && AllFromFirst(u, init, before)
    requires i < |before| && Answered(u, a) && before[i].key == Key(u, a)
    ensures DistinctKeys(Joined(before, i, a)) && AllFromFirst(u, init + [a], Joined(before, i, a))
  {
    var groups := Joined(before, i, a);
    forall j | 0 <= j < |groups| ensures FromFirst(u, init + [a], groups[j]) {
      if j == i {
        JoinedFromFirst(u, init, a, before[i]);
      } else {
        KeptFromFirst(u, init, a, before[j]);
      }
    }
  }

  function Started(u: Rules, before: seq<Group>, a: Answer): (groups: seq<Group>)
    ensures GroupKeys(groups) == GroupKeys(before) + [Key(u, a)]
  {
    before + [Group(Key(u, a), u.trim(a.field), [a])]
  }

  /** An answer with a new value starts a group at the end. */
  lemma StartsGroup(u: Rules, init: seq<Answer>, a: Answer, before: seq<Group>)
    requires Partition(u, init, before) && Answered(u, a) && Key(u, a) !in GroupKeys(before)
    ensures Partition(u, init + [a], Started(u, before, a))
  {
    NoneElseStays(u, init, a, before, Started(u, before, a));
    Snoc(u, init, a, "");
    SnocSeen(Keys(u, init), Key(u, a));
    StartedStay(u, init, a, before);
  }

  lemma StartedStay(u: Rules, init: seq<Answer>, a: Answer, before: seq<Group>)
    requires DistinctKeys(before) && AllFromFirst(u, init, before) && Answered(u, a)
    requires Key(u, a) !in GroupKeys(before) && Having(u, init, Key(u, a)) == []
    ensures DistinctKeys(Started(u, before, a)) && AllFromFirst(u, init + [a], Started(u, before, a))
  {
    assert forall j :: 0 <= j < |before| ==> GroupKeys(before)[j] == before[j].key;
    forall j | 0 <= j < |before| ensures FromFirst(u, init + [a], before[j]) {
      KeptFromFirst(u, init, a, before[j]);
    }
    StartedFromFirst(u, init, a);
  }

  lemma PassesBy(u: Rules, init: seq<Answer>, a: Answer, before: seq<Group>)
    requires Partition(u, init, before) && !Answered(u, a)
    ensures Partition(u, init + [a], before)
  {
    Snoc(u, init, a, "");
    NoneElseStays(u, init, a, before, before);
    forall j | 0 <= j < |before| ensures FromFirst(u, init + [a], before[j]) {
      KeptFromFirst(u, init, a, before[j]);
    }
  }

  lemma {:induction false} GroupsPartition(u: Rules, answers: seq<Answer>)
    ensures Partition(u, answers, Grouped(u, answers))
  {
    if answers != [] {
      var init := answers[..|answers| - 1];
      var a := answers[|answers| - 1];
      assert answers == init + [a];
      GroupsPartition(u, init);
      var before := Grouped(u, init);
      var i := Find(before, Key(u, a));
      FindSpec(before, Key(u, a));
      if !Answered(u, a) {
        PassesBy(u, init, a, before);
      } else if i < |before| {
        JoinsGroup(u, init, a, before, i);
      } else {
        StartsGroup(u, init, a, before);
      }
    }
  }

  lemma NoGroupIsEmpty(u: Rules, answers: seq<Answer>)
    ensures forall g :: g in Grouped(u, answers) ==> g.sources != []
  {
    GroupsPartition(u, answers);
    forall g | g in Grouped(u, answers) ensures g.sources != [] {
      var i :| 0 <= i < |Grouped(u, answers)| && Grouped(u, answers)[i] == g;
      assert FromFirst(u, answers, Grouped(u, answers)[i]);
    }
  }

  // ---- what the winner is ------------------------------------------------------

  /** How many providers gave a value. */
  function Votes(u: Rules, answers: seq<Answer>, key: string): nat {
    multiset(Keys(u, answers))[key]
  }

  lemma {:induction false} HavingCounts(u: Rules, answers: seq<Answer>, key: string)
    ensures |Having(u, answers, key)| == Votes(u, answers, key)
  {
    if answers != [] {
      var init := answers[..|answers| - 1];
      var a := answers[|answers| - 1];
      assert answers == init + [a];
      Snoc(u, init, a, key);
      HavingCounts(u, init, key);
    }
  }

  /** A value given by at least two providers, and by more than any other value. */
  ghost predicate Majority(u: Rules, answers: seq<Answer>, key: string) {
    && Votes(u, answers, key) >= 2
    && forall other :: other != key ==> Votes(u, answers, other) < Votes(u, answers, key)
  }

  /** "agreed" means what it says: some value has a majority, and it is the one chosen.
      In every case no alternative was given by more providers than the choice, and
      the choice and the alternatives are all the values there were. */
  lemma AgreedMeansMajority(u: Rules, answers: seq<Answer>, r: FieldResult)
    requires IsMerge(u, Grouped(u, answers), r)
    ensures r.reason == Agreed <==> Majority(u, answers, r.chosen.key)
    ensures forall key :: Majority(u, answers, key) ==> key == r.chosen.key
    ensures forall key :: Votes(u, answers, key) <= Votes(u, answers, r.chosen.key)
  {
    var groups := Grouped(u, answers);
    var c :| 0 <= c < |groups| && r.chosen == groups[c] && Wins(u, groups, c, r.reason);
    AgreedIsAlone(u, groups, c, r.reason);
    NobodyHasMore(u, answers, groups, c);
    MajorityIsAlone(u, answers, groups, c);
  }

  lemma AgreedIsAlone(u: Rules, groups: seq<Group>, c: nat, reason: Reason)
    requires c < |groups| && Wins(u, groups, c, reason)
    ensures reason == Agreed <==> |groups[c].sources| >= 2 && AloneOfSize(groups, |groups[c].sources|, c)
    ensures NoneAbove(groups, |groups[c].sources|)
  {
    if forall i :: 0 <= i < |groups| && Tied(groups, i, c) ==> i == c {
      forall i | 0 <= i < |groups| && |groups[i].sources| == |groups[c].sources| ensures i == c {
        assert Tied(groups, i, c);
      }
    }
  }

  lemma NobodyHasMore(u: Rules, answers: seq<Answer>, groups: seq<Group>, c: nat)
    requires groups == Grouped(u, answers) && c < |groups| && NoneAbove(groups, |groups[c].sources|)
    ensures forall key :: Votes(u, answers, key) <= Votes(u, answers, groups[c].key)
  {
    GroupSizes(u, answers);
    forall key ensures Votes(u, answers, key) <= Votes(u, answers, groups[c].key) {
      if Votes(u, answers, key) > 0 {
        var i :| 0 <= i < |groups| && groups[i].key == key;
      }
    }
  }

  /** A group nobody is larger than has the majority exactly when it is alone of its size. */
  lemma MajorityIsAlone(u: Rules, answers: seq<Answer>, groups: seq<Group>, c: nat)
    requires groups == Grouped(u, answers) && c < |groups| && NoneAbove(groups, |groups[c].sources|)
    ensures Majority(u, answers, groups[c].key)
       <==> |groups[c].sources| >= 2 && AloneOfSize(groups, |groups[c].sources|, c)
  {
    GroupSizes(u, answers);
    if AloneOfSize(groups, |groups[c].sources|, c) {
      forall other | other != groups[c].key
        ensures Votes(u, answers, other) == 0 || Votes(u, answers, other) < |groups[c].sources|
      {
        if Votes(u, answers, other) > 0 {
          var i :| 0 <= i < |groups| && groups[i].key == other;
        }
      }
    } else {
      var i :| 0 <= i < |groups| && |groups[i].sources| == |groups[c].sources| && i != c;
      assert groups[i].key != groups[c].key && Votes(u, answers, groups[i].key) == Votes(u, answers, groups[c].key);
    }
  }

  /** A group has as many sources as its value has votes, and every value with a vote
      has a group of its own. */
  lemma GroupSizes(u: Rules, answers: seq<Answer>)
    ensures var groups := Grouped(u, answers);
            && (forall i :: 0 <= i < |groups| ==> |groups[i].sources| == Votes(u, answers, groups[i].key))
            && (forall key :: Votes(u, answers, key) > 0 ==> exists i :: 0 <= i < |groups| && groups[i].key == key)
            && (forall i, j :: 0 <= i < |groups| && 0 <= j < |groups| && i != j ==> groups[i].key != groups[j].key)
  {
    var groups := Grouped(u, answers);
    GroupsPartition(u, answers);
    forall i | 0 <= i < |groups| ensures |groups[i].sources| == Votes(u, answers, groups[i].key) {
      assert FromFirst(u, answers, groups[i]);
      HavingCounts(u, answers, groups[i].key);
    }
    forall key | Votes(u, answers, key) > 0 ensures exists i :: 0 <= i < |groups| && groups[i].key == key {
      HavingCounts(u, answers, key);
      assert key in GroupKeys(groups);
      var i :| 0 <= i < |groups| && GroupKeys(groups)[i] == key;
      assert groups[i].key == key;
    }
  }

  /** Where the i-th of the choice and the alternatives was among the groups. */
  function Place(c: nat, i: nat): nat { if i == 0 then c else if i <= c then i - 1 else i }

  function ChoiceFirst(groups: seq<Group>, c: nat): (values: seq<Group>)
    requires c < |groups|
    ensures |values| == |groups| && forall i :: 0 <= i < |values| ==> values[i] == groups[Place(c, i)]
  {
    [groups[c]] + (groups[..c] + groups[c + 1..])
  }

  lemma SameKeys(groups: seq<Group>, c: nat, key: string)
    requires c < |groups|
    ensures key in GroupKeys(ChoiceFirst(groups, c)) <==> key in GroupKeys(groups)
  {
    var values := ChoiceFirst(groups, c);
    if key in GroupKeys(values) {
      var i :| 0 <= i < |values| && GroupKeys(values)[i] == key;
      assert GroupKeys(groups)[Place(c, i)] == key;
    }
    if key in GroupKeys(groups) {
      var j :| 0 <= j < |groups| && GroupKeys(groups)[j] == key;
      assert GroupKeys(values)[if j == c then 0 else if j < c then j + 1 else j] == key;
    }
  }

  lemma KeysAreThere(u: Rules, answers: seq<Answer>, c: nat, key: string)
    requires c < |Grouped(u, answers)|
    ensures key in GroupKeys(ChoiceFirst(Grouped(u, answers), c)) <==> key in Keys(u, answers)
  {
    GroupsPartition(u, answers);
    SeenOnce(Keys(u, answers), key);
    SameKeys(Grouped(u, answers), c, key);
  }

  lemma StillDistinct(groups: seq<Group>, c: nat)
    requires c < |groups| && DistinctKeys(groups)
    ensures DistinctKeys(ChoiceFirst(groups, c))
  {
  }

  lemma StillFromFirst(u: Rules, answers: seq<Answer>, groups: seq<Group>, c: nat)
    requires c < |groups| && AllFromFirst(u, answers, groups)
    ensures AllFromFirst(u, answers, ChoiceFirst(groups, c))
  {
  }

  /** The choice and the alternatives are all the values there were, each once and with
      every answer that gave it. */
  lemma NothingIsDropped(u: Rules, answers: seq<Answer>, r: FieldResult)
    requires IsMerge(u, Grouped(u, answers), r)
    ensures DistinctKeys([r.chosen] + r.alternatives) && AllFromFirst(u, answers, [r.chosen] + r.alternatives)
    ensures forall key :: key in GroupKeys([r.chosen] + r.alternatives) <==> key in Keys(u, answers)
    ensures 1 + |r.alternatives| == |FirstSeen(Keys(u, answers))|
  {
    var groups := Grouped(u, answers);
    var c :| 0 <= c < |groups| && r.chosen == groups[c] && r.alternatives == groups[..c] + groups[c + 1..];
    assert [r.chosen] + r.alternatives == ChoiceFirst(groups, c);
    forall key ensures key in GroupKeys(ChoiceFirst(groups, c)) <==> key in Keys(u, answers) {
      KeysAreThere(u, answers, c, key);
    }
    GroupsPartition(u, answers);
    StillDistinct(groups, c);
    StillFromFirst(u, answers, groups, c);
  }

  lemma {:induction false} SeenOnce(keys: seq<string>, key: string)
    ensures key in FirstSeen(keys) <==> key in keys
  {
    if keys != [] {
      SeenOnce(keys[..|keys| - 1], key);
      assert keys == keys[..|keys| - 1] + [keys[|keys| - 1]];
    }
  }

  /** Every answer that was given is a source of the choice or of an alternative. */
  lemma EveryAnswerIsASource(u: Rules, answers: seq<Answer>, r: FieldResult, a: Answer)
    requires IsMerge(u, Grouped(u, answers), r) && a in answers && Answered(u, a)
    ensures a in r.chosen.sources || exists g :: g in r.alternatives && a in g.sources
  {
    var groups := Grouped(u, answers);
    var i := GroupOf(u, answers, a);
    var c :| 0 <= c < |groups| && r.chosen == groups[c] && r.alternatives == groups[..c] + groups[c + 1..];
    if i != c {
      assert groups[i] == if i < c then r.alternatives[i] else r.alternatives[i - 1];
    }
  }

  lemma GroupOf(u: Rules, answers: seq<Answer>, a: Answer) returns (i: nat)
    requires a in answers && Answered(u, a)
    ensures i < |Grouped(u, answers)| && a in Grouped(u, answers)[i].sources
  {
    var groups := Grouped(u, answers);
    GroupsPartition(u, answers);
    HavingHas(u, answers, a);
    assert Key(u, a) in GroupKeys(groups);
    i :| 0 <= i < |groups| && GroupKeys(groups)[i] == Key(u, a);
    assert FromFirst(u, answers, groups[i]);
  }

  lemma {:induction false} HavingHas(u: Rules, answers: seq<Answer>, a: Answer)
    requires a in answers && Answered(u, a)
    ensures a in Having(u, answers, Key(u, a))
  {
    var init := answers[..|answers| - 1];
    var last := answers[|answers| - 1];
    assert answers == init + [last];
    Snoc(u, init, last, Key(u, a));
    if a != last {
      HavingHas(u, init, a);
    }
  }

  function Without(b: seq<Answer>, i: nat): seq<Answer>
    requires i < |b|
  {
    b[..i] + b[i + 1..]
  }

  lemma KeysTakeOut(u: Rules, b: seq<Answer>, i: nat)
    requires i < |b|
    ensures multiset(Keys(u, b)) ==
              multiset(Keys(u, Without(b, i))) + multiset(if Answered(u, b[i]) then [Key(u, b[i])] else [])
  {
    assert b == b[..i] + [b[i]] + b[i + 1..];
    KeysSplit(u, b[..i], b[i], b[i + 1..]);
  }

  lemma TakeOut(b: seq<Answer>, i: nat)
    requires i < |b|
    ensures multiset(Without(b, i)) == multiset(b) - multiset{b[i]}
  {
    assert b == b[..i] + [b[i]] + b[i + 1..];
  }

  lemma {:induction false} KeysOfPermutation(u: Rules, a: seq<Answer>, b: seq<Answer>)
    requires multiset(a) == multiset(b)
    ensures multiset(Keys(u, a)) == multiset(Keys(u, b))
    decreases |a|
  {
    if a == [] {
      assert |multiset(b)| == |b|;
    } else {
      assert a[0] in multiset(b);
      var i :| 0 <= i < |b| && b[i] == a[0];
      TakeOut(a, 0);
      TakeOut(b, i);
      KeysOfPermutation(u, Without(a, 0), Without(b, i));
      KeysTakeOut(u, a, 0);
      KeysTakeOut(u, b, i);
    }
  }

  lemma {:induction false} KeysSplit(u: Rules, a: seq<Answer>, x: Answer, b: seq<Answer>)
    ensures multiset(Keys(u, a + [x] + b))
            == multiset(Keys(u, a + b)) + multiset(if Answered(u, x) then [Key(u, x)] else [])
    decreases |b|
  {
    if b == [] {
      assert a + [x] + b == a + [x] && a + b == a;
      Snoc(u, a, x, "");
    } else {
      var init := b[..|b| - 1];
      var y := b[|b| - 1];
      assert a + [x] + b == (a + [x] + init) + [y] && a + b == (a + init) + [y];
      Snoc(u, a + [x] + init, y, "");
      Snoc(u, a + init, y, "");
      KeysSplit(u, a, x, init);
    }
  }

  /** Whether the providers agree, and on which value, does not depend on the order in
      which they answered. */
  lemma AgreementIgnoresArrivalOrder(u: Rules, a: seq<Answer>, b: seq<Answer>, ra: FieldResult, rb: FieldResult)
    requires multiset(a) == multiset(b)
    requires IsMerge(u, Grouped(u, a), ra) && IsMerge(u, Grouped(u, b), rb)
    ensures ra.reason == Agreed <==> rb.reason == Agreed
    ensures ra.reason == Agreed ==> ra.chosen.key == rb.chosen.key
  {
    KeysOfPermutation(u, a, b);
    AgreedMeansMajority(u, a, ra);
    AgreedMeansMajority(u, b, rb);
    assert forall key :: Votes(u, a, key) == Votes(u, b, key);
    assert forall key :: Majority(u, a, key) <==> Majority(u, b, key);
  }

  // ---- the vote on the answers themselves --------------------------------------

  /** The answer is a value, and this is its normalised form. */
  predicate Says(u: Rules, a: Answer, key: string) { u.trim(a.field) != "" && u.normalise(u.trim(a.field)) == key }

  function Saying(u: Rules, answers: seq<Answer>, key: string): set<nat> {
    set i: nat | i < |answers| && Says(u, answers[i], key)
  }

  lemma OneMoreSaying(u: Rules, init: seq<Answer>, a: Answer, key: string)
    ensures Saying(u, init + [a], key) == Saying(u, init, key) + if Says(u, a, key) then {|init|} else {}
  {
    assert forall i :: 0 <= i < |init| ==> (init + [a])[i] == init[i];
  }

  /** A vote is an answer that says the value. */
  lemma {:induction false} VotesAreSayings(u: Rules, answers: seq<Answer>, key: string)
    ensures Votes(u, answers, key) == |Saying(u, answers, key)|
  {
    if answers != [] {
      var n := |answers| - 1;
      var init, a := answers[..n], answers[n];
      assert answers == init + [a];
      VotesAreSayings(u, init, key);
      OneMoreSaying(u, init, a, key);
      Snoc(u, init, a, key);
    }
  }

  /** The answers `at` points to, in order, are those that say the value. */
  ghost predicate AreTheSayings(u: Rules, answers: seq<Answer>, key: string, sources: seq<Answer>, at: seq<nat>) {
    && |at| == |sources|
    && (forall j :: 0 <= j < |at| ==> at[j] < |answers| && sources[j] == answers[at[j]])
    && (forall i, j :: 0 <= i < j < |at| ==> at[i] < at[j])
    && (forall i :: i in at <==> 0 <= i < |answers| && Says(u, answers[i], key))
  }

  lemma SayingsGrow(u: Rules, init: seq<Answer>, a: Answer, key: string, sources: seq<Answer>, at: seq<nat>)
    requires AreTheSayings(u, init, key, sources, at)
    ensures if Says(u, a, key) then AreTheSayings(u, init + [a], key, sources + [a], at + [|init|])
            else AreTheSayings(u, init + [a], key, sources, at)
  {
    var all := init + [a];
    assert forall i :: 0 <= i < |init| ==> all[i] == init[i];
    if Says(u, a, key) {
      var more := at + [|init|];
      assert more[|at|] == |init|;
      forall i ensures i in more <==> 0 <= i < |all| && Says(u, all[i], key) {
        assert i in more <==> i in at || i == |init|;
      }
    }
  }

  /** A group's sources are the answers that say its value, in the order they arrived. */
  lemma {:induction false} SourcesSay(u: Rules, answers: seq<Answer>, key: string) returns (at: seq<nat>)
    ensures AreTheSayings(u, answers, key, Having(u, answers, key), at)
  {
    if answers == [] {
      return [];
    }
    var n := |answers| - 1;
    var init, a := answers[..n], answers[n];
    assert answers == init + [a];
    at := SourcesSay(u, init, key);
    SayingsGrow(u, init, a, key, Having(u, init, key), at);
    Snoc(u, init, a, key);
    at := at + if Says(u, a, key) then [n] else [];
  }

  lemma GroupSays(u: Rules, answers: seq<Answer>, i: nat) returns (x: nat)
    requires i < |Grouped(u, answers)|
    ensures x < |answers| && Says(u, answers[x], Grouped(u, answers)[i].key)
    ensures u.trim(answers[x].field) == Grouped(u, answers)[i].value
    ensures forall y :: 0 <= y < x ==> !Says(u, answers[y], Grouped(u, answers)[i].key)
  {
    var g := Grouped(u, answers)[i];
    GroupsPartition(u, answers);
    assert FromFirst(u, answers, g);
    var at := SourcesSay(u, answers, g.key);
    x := at[0];
    assert x in at && forall j :: 0 <= j < |at| ==> x <= at[j];
  }

  lemma SaidHasGroup(u: Rules, answers: seq<Answer>, x: nat, key: string) returns (i: nat)
    requires x < |answers| && Says(u, answers[x], key)
    ensures i < |Grouped(u, answers)| && Grouped(u, answers)[i].key == key
  {
    i := GroupOf(u, answers, answers[x]);
    GroupsPartition(u, answers);
    assert FromFirst(u, answers, Grouped(u, answers)[i]);
    var at := SourcesSay(u, answers, Grouped(u, answers)[i].key);
    var sources := Grouped(u, answers)[i].sources;
    var j :| 0 <= j < |sources| && sources[j] == answers[x];
    assert at[j] in at;
  }

  lemma GroupsGrow(u: Rules, init: seq<Answer>, a: Answer, j: nat)
    requires j < |Grouped(u, init)|
    ensures j < |Grouped(u, init + [a])| && Grouped(u, init + [a])[j].key == Grouped(u, init)[j].key
  {
    assert (init + [a])[..|init|] == init;
  }

  /** Of two values the one that was said first has the earlier group. */
  lemma {:induction false} GroupsArrive(u: Rules, answers: seq<Answer>, i: nat, j: nat, y: nat) returns (x: nat)
    requires i < j < |Grouped(u, answers)| && y < |answers| && Says(u, answers[y], Grouped(u, answers)[j].key)
    ensures x < y && Says(u, answers[x], Grouped(u, answers)[i].key)
    decreases |answers|
  {
    var n := |answers| - 1;
    var init, a := answers[..n], answers[n];
    assert answers == init + [a];
    GroupSizes(u, answers);
    if y < n {
      var k := SaidHasGroup(u, init, y, Grouped(u, answers)[j].key);
      GroupsGrow(u, init, a, k);
      assert k == j;
      GroupsGrow(u, init, a, i);
      x := GroupsArrive(u, init, i, j, y);
    } else {
      x := GroupSays(u, answers, i);
      assert x != n;
    }
  }

  /** Nobody wins exactly when nobody answered. */
  lemma NobodyAnswered(u: Rules, answers: seq<Answer>)
    ensures Grouped(u, answers) == [] <==> forall i :: 0 <= i < |answers| ==> u.trim(answers[i].field) == ""
  {
    if Grouped(u, answers) != [] {
      var x := GroupSays(u, answers, 0);
    }
    if x :| 0 <= x < |answers| && u.trim(answers[x].field) != "" {
      var i := SaidHasGroup(u, answers, x, u.normalise(u.trim(answers[x].field)));
    }
  }

  /** One provider answered, and no other. */
  ghost predicate OneAnswered(u: Rules, answers: seq<Answer>, i: nat)
    requires i < |answers|
  {
    u.trim(answers[i].field) != "" && forall j :: 0 <= j < |answers| && j != i ==> u.trim(answers[j].field) == ""
  }

  /** A value is the only one exactly when one provider alone answered. */
  lemma OnlyMeansAlone(u: Rules, answers: seq<Answer>, r: FieldResult)
    requires IsMerge(u, Grouped(u, answers), r)
    ensures r.reason == Only <==> exists i :: 0 <= i < |answers| && OneAnswered(u, answers, i)
  {
    var groups := Grouped(u, answers);
    var c :| 0 <= c < |groups| && r.chosen == groups[c] && Wins(u, groups, c, r.reason);
    assert |groups| == 1 ==> c == 0;
    if |groups| == 1 && |groups[0].sources| == 1 {
      var i := LoneGroup(u, answers);
    }
    if i :| 0 <= i < |answers| && OneAnswered(u, answers, i) {
      LoneAnswer(u, answers, i);
    }
  }

  lemma {:induction false} SourcesHold(u: Rules, answers: seq<Answer>, x: nat, key: string)
    requires x < |answers| && Says(u, answers[x], key)
    ensures Having(u, answers, key) != []
    ensures |Having(u, answers, key)| == 1 ==> forall y :: 0 <= y < |answers| && Says(u, answers[y], key) ==> y == x
  {
    var at := SourcesSay(u, answers, key);
    assert x in at;
  }

  lemma LoneGroup(u: Rules, answers: seq<Answer>) returns (i: nat)
    requires |Grouped(u, answers)| == 1 && |Grouped(u, answers)[0].sources| == 1
    ensures i < |answers| && OneAnswered(u, answers, i)
  {
    i := GroupSays(u, answers, 0);
    forall j | 0 <= j < |answers| && j != i ensures u.trim(answers[j].field) == "" {
      LoneSource(u, answers, i, j);
    }
  }

  lemma LoneSource(u: Rules, answers: seq<Answer>, i: nat, j: nat)
    requires |Grouped(u, answers)| == 1 && |Grouped(u, answers)[0].sources| == 1 && i < |answers| && j < |answers|
    requires i != j && Says(u, answers[i], Grouped(u, answers)[0].key)
    ensures u.trim(answers[j].field) == ""
  {
    var g := Grouped(u, answers)[0];
    GroupsPartition(u, answers);
    assert FromFirst(u, answers, g);
    SourcesHold(u, answers, i, g.key);
    if u.trim(answers[j].field) != "" {
      var k := SaidHasGroup(u, answers, j, u.normalise(u.trim(answers[j].field)));
      assert false;
    }
  }

  lemma OneKeyOneGroup(groups: seq<Group>, key: string)
    requires DistinctKeys(groups) && forall i :: 0 <= i < |groups| ==> groups[i].key == key
    ensures |groups| <= 1
  {
    if |groups| > 1 {
      FirstTwoDiffer(groups);
      assert false;
    }
  }

  lemma FirstTwoDiffer(groups: seq<Group>)
    requires DistinctKeys(groups) && |groups| > 1
    ensures groups[0].key != groups[1].key
  {
  }

  lemma LoneAnswer(u: Rules, answers: seq<Answer>, i: nat)
    requires i < |answers| && OneAnswered(u, answers, i)
    ensures |Grouped(u, answers)| == 1 && |Grouped(u, answers)[0].sources| == 1
  {
    var groups, key := Grouped(u, answers), u.normalise(u.trim(answers[i].field));
    var k := SaidHasGroup(u, answers, i, key);
    forall m | 0 <= m < |groups| ensures groups[m].key == key {
      var x := GroupSays(u, answers, m);
    }
    GroupsPartition(u, answers);
    OneKeyOneGroup(groups, key);
    GroupSizes(u, answers);
    VotesAreSayings(u, answers, key);
    assert Saying(u, answers, key) == {i};
  }

  /** A tie is broken on the answers: no value with as many votes weighs more in the words
      it was first said in; and one that weighs the same was first said later. */
  lemma TiebreakMeans(u: Rules, answers: seq<Answer>, r: FieldResult, key: string, x: nat)
    requires IsMerge(u, Grouped(u, answers), r) && r.reason == Tiebreak
    requires x < |answers| && Says(u, answers[x], key) && forall y :: 0 <= y < x ==> !Says(u, answers[y], key)
    requires key != r.chosen.key && |Saying(u, answers, key)| == |Saying(u, answers, r.chosen.key)|
    ensures u.weight(u.trim(answers[x].field)) <= u.weight(r.chosen.value)
    ensures u.weight(u.trim(answers[x].field)) == u.weight(r.chosen.value) ==>
              exists y :: 0 <= y < x && Says(u, answers[y], r.chosen.key)
  {
    var groups := Grouped(u, answers);
    GroupSizes(u, answers);
    VotesAreSayings(u, answers, key);
    VotesAreSayings(u, answers, r.chosen.key);
    var c :| 0 <= c < |groups| && r.chosen == groups[c] && Wins(u, groups, c, r.reason);
    var i := SaidHasGroup(u, answers, x, key);
    var first := GroupSays(u, answers, i);
    assert first == x && Tied(groups, i, c);
    if u.weight(u.trim(answers[x].field)) == u.weight(r.chosen.value) {
      assert c < i;
      var y := GroupsArrive(u, answers, c, i, x);
    }
  }

  /** The value chosen is what the first provider to say it wrote. */
  lemma {:induction false} ChosenIsFirstSaid(u: Rules, answers: seq<Answer>, r: FieldResult)
    requires IsMerge(u, Grouped(u, answers), r)
    ensures exists x :: 0 <= x < |answers| && Says(u, answers[x], r.chosen.key)
              && u.trim(answers[x].field) == r.chosen.value
              && forall y :: 0 <= y < x ==> !Says(u, answers[y], r.chosen.key)
  {
    var c :| 0 <= c < |Grouped(u, answers)| && r.chosen == Grouped(u, answers)[c];
    var x := GroupSays(u, answers, c);
  }
}
