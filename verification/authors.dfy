/** Lists of author names (internal/providers/authors.go): a suffix that arrives as its
    own entry belongs to the name before it, and a list that is shown and split again is
    itself. Names are ASCII.
 */
module Authors {
  import opened Strings

  /** Titles and generations, as they appear behind a name's comma. The operations below
      take the table as a parameter; all they need of it is that no entry has a comma. */
  const NAME_SUFFIXES := ["jr", "sr", "ii", "iii", "iv", "v", "phd", "md", "esq", "dds", "obe", "mbe", "cbe", "kbe"]

  ghost predicate NoCommas(table: seq<string>) { forall i :: 0 <= i < |table| ==> ',' !in table[i] }

  lemma TableHasNoCommas()
    ensures NoCommas(NAME_SUFFIXES)
  {
  }

  /** Lowercased, with the dots taken out. */
  function Plainly(s: string): string {
    if s == "" then ""
    else Plainly(s[..|s| - 1]) + if s[|s| - 1] == '.' then "" else [Lower(s[|s| - 1])]
  }

  predicate IsNameSuffix(table: seq<string>, part: string) { Plainly(Trim(part)) in table }

  /** Each suffix joined to the name before it. */
  function Fold(table: seq<string>, ps: seq<string>): seq<string> {
    if ps == [] then []
    else Add(table, Fold(table, ps[..|ps| - 1]), ps[|ps| - 1])
  }

  function Add(table: seq<string>, names: seq<string>, p: string): seq<string> {
    if names != [] && IsNameSuffix(table, p) then names[|names| - 1 := names[|names| - 1] + ", " + p] else names + [p]
  }

  method JoinNameSuffixes(table: seq<string>, parts: seq<string>) returns (names: seq<string>)
    ensures names == Fold(table, Clean(parts))
  {
    names := [];
    for i := 0 to |parts|
      invariant names == Fold(table, Clean(parts[..i]))
    {
      var p := Trim(parts[i]);
      assert parts[..i + 1][..i] == parts[..i];
      ghost var clean := Clean(parts[..i]);
      assert Clean(parts[..i + 1]) == clean + if p == "" then [] else [p];
      if p == "" {
        assert clean + [] == clean;
        continue;
      }
      assert (clean + [p])[..|clean|] == clean;
      if |names| > 0 && IsNameSuffix(table, p) {
        names := names[|names| - 1 := names[|names| - 1] + ", " + p];
        continue;
      }
      names := names + [p];
    }
    assert parts[..|parts|] == parts;
  }

  method SplitAuthorNames(table: seq<string>, s: string) returns (names: seq<string>)
    ensures names == Fold(table, Clean(Split(s, ',')))
  {
    names := JoinNameSuffixes(table, Split(s, ','));
  }

  /** strings.Join(names, ", "): how a merged field shows its authors. */
  function Shown(names: seq<string>): string {
    if names == [] then ""
    else if |names| == 1 then names[0]
    else Shown(names[..|names| - 1]) + ", " + names[|names| - 1]
  }

  // ---- joining twice is joining once -------------------------------------------

  lemma {:induction false} PlainlyKeepsCommas(s: string)
    requires ',' in s
    ensures ',' in Plainly(s)
  {
    var n := |s| - 1;
    if s[n] == ',' {
      assert Plainly(s)[|Plainly(s)| - 1] == ',';
    } else {
      assert s == s[..n] + [s[n]];
      PlainlyKeepsCommas(s[..n]);
    }
  }

  /** A name with a comma in it is no suffix. */
  lemma JoinedIsNoSuffix(table: seq<string>, name: string, p: string)
    requires NoCommas(table) && Neat(name) && Neat(p)
    ensures Neat(name + ", " + p) && !IsNameSuffix(table, name + ", " + p)
  {
    var s := name + ", " + p;
    assert s[|name|] == ',';
    TrimIsNeat(s);
    PlainlyKeepsCommas(s);
  }

  /** Nothing left to join: only the first entry may be a suffix. */
  ghost predicate Settled(table: seq<string>, names: seq<string>) {
    AllNeat(names) && forall i :: 0 < i < |names| ==> !IsNameSuffix(table, names[i])
  }

  lemma {:induction false} FoldSettles(table: seq<string>, ps: seq<string>)
    requires NoCommas(table) && AllNeat(ps)
    ensures Settled(table, Fold(table, ps))
  {
    if ps != [] {
      var names, p := Fold(table, ps[..|ps| - 1]), ps[|ps| - 1];
      FoldSettles(table, ps[..|ps| - 1]);
      if names != [] && IsNameSuffix(table, p) {
        JoinedIsNoSuffix(table, names[|names| - 1], p);
      }
    }
  }

  lemma AddKeeps(table: seq<string>, names: seq<string>, p: string)
    requires names == [] || !IsNameSuffix(table, p)
    ensures Add(table, names, p) == names + [p]
  {
  }

  lemma {:induction false} SettledStays(table: seq<string>, names: seq<string>)
    requires Settled(table, names)
    ensures Fold(table, names) == names
  {
    if names != [] {
      var n := |names| - 1;
      var front, last := names[..n], names[n];
      assert forall i :: 0 < i < n ==> front[i] == names[i];
      SettledStays(table, front);
      assert front == [] || !IsNameSuffix(table, names[n]);
      AddKeeps(table, front, last);
      assert names == front + [last];
    }
  }

  /** JoinNameSuffixes is idempotent, for every list. */
  lemma JoiningTwiceIsJoiningOnce(table: seq<string>, parts: seq<string>)
    requires NoCommas(table)
    ensures Fold(table, Clean(Fold(table, Clean(parts)))) == Fold(table, Clean(parts))
  {
    CleanIsNeat(parts);
    FoldSettles(table, Clean(parts));
    NeatIsClean(Fold(table, Clean(parts)));
    SettledStays(table, Fold(table, Clean(parts)));
  }

  // ---- splitting what was joined -----------------------------------------------

  /** Shown, a folded list reads like the parts it was folded from. */
  lemma {:induction false} FoldShowsTheParts(table: seq<string>, ps: seq<string>)
    ensures Shown(Fold(table, ps)) == Shown(ps)
    ensures Fold(table, ps) == [] <==> ps == []
  {
    if ps != [] {
      var front, p := ps[..|ps| - 1], ps[|ps| - 1];
      FoldShowsTheParts(table, front);
      AddShows(table, Fold(table, front), p);
      if |ps| == 1 {
        assert Fold(table, front) == [];
      }
    }
  }

  lemma AddShows(table: seq<string>, names: seq<string>, p: string)
    ensures Shown(Add(table, names, p)) == if names == [] then p else Shown(names) + ", " + p
    ensures Add(table, names, p) != []
  {
    if names != [] {
      var n := |names| - 1;
      var added := Add(table, names, p);
      if IsNameSuffix(table, p) {
        assert added[..n] == names[..n];
      } else {
        assert added[..n + 1] == names;
      }
    }
  }

  lemma TrimAfterABlank(p: string)
    requires Neat(p)
    ensures Trim([' '] + p) == p
  {
    var t := [' '] + p;
    assert t[1..] == p;
    TrimIsNeat(p);
    assert TrimLeft(t) == TrimLeft(p);
  }

  lemma OnePartMore(shown: string, p: string)
    requires Neat(p) && ',' !in p
    ensures Clean(Split(shown + ", " + p, ',')) == Clean(Split(shown, ',')) + [p]
  {
    var t := [' '] + p;
    assert shown + ", " + p == shown + [','] + t;
    SplitOffTheLast(shown, t, ',');
    var pieces := Split(shown, ',') + [t];
    assert pieces[..|pieces| - 1] == Split(shown, ',');
    TrimAfterABlank(p);
  }

  lemma {:induction false} SplitThenClean(ps: seq<string>)
    requires AllNeat(ps) && forall i :: 0 <= i < |ps| ==> ',' !in ps[i]
    ensures Clean(Split(Shown(ps), ',')) == ps
  {
    if ps == [] {
      assert Split("", ',') == [""] && [""][..0] == [];
    } else if |ps| == 1 {
      assert [ps[0]] == ps;
      SplitOnePiece(ps[0], ',');
      NeatIsClean(ps);
    } else {
      var front, p := ps[..|ps| - 1], ps[|ps| - 1];
      assert ps == front + [p];
      SplitThenClean(front);
      OnePartMore(Shown(front), p);
    }
  }

  lemma {:induction false} CleanHasNoCommas(parts: seq<string>)
    requires forall i :: 0 <= i < |parts| ==> ',' !in parts[i]
    ensures forall i :: 0 <= i < |Clean(parts)| ==> ',' !in Clean(parts)[i]
  {
    if parts != [] {
      var s := parts[|parts| - 1];
      CleanHasNoCommas(parts[..|parts| - 1]);
      TrimIsNeat(s);
    }
  }

  /** The author list of a merged field survives being shown as one line and split again. */
  lemma SplittingUndoesJoining(table: seq<string>, parts: seq<string>)
    requires forall i :: 0 <= i < |parts| ==> ',' !in parts[i]
    ensures Fold(table, Clean(Split(Shown(Fold(table, Clean(parts))), ','))) == Fold(table, Clean(parts))
  {
    CleanIsNeat(parts);
    CleanHasNoCommas(parts);
    FoldShowsTheParts(table, Clean(parts));
    SplitThenClean(Clean(parts));
  }

  // ---- what becomes of each part -----------------------------------------------

  function Joined(runs: seq<seq<string>>): seq<string> {
    if runs == [] then [] else Joined(runs[..|runs| - 1]) + runs[|runs| - 1]
  }

  /** A name with the suffixes that followed it. */
  predicate IsRun(table: seq<string>, run: seq<string>) {
    run != [] && forall i :: 1 <= i < |run| ==> IsNameSuffix(table, run[i])
  }

  /** The parts cut into runs, one for each name, and the name is what the run reads like. */
  ghost predicate AreRuns(table: seq<string>, ps: seq<string>, names: seq<string>, runs: seq<seq<string>>) {
    && Joined(runs) == ps && |runs| == |names|
    && (forall j :: 0 <= j < |runs| ==> IsRun(table, runs[j]) && names[j] == Shown(runs[j]))
    && (forall j :: 1 <= j < |runs| ==> !IsNameSuffix(table, runs[j][0]))
  }

  lemma NewRun(table: seq<string>, ps: seq<string>, names: seq<string>, runs: seq<seq<string>>, p: string)
    requires AreRuns(table, ps, names, runs) && (names == [] || !IsNameSuffix(table, p))
    ensures AreRuns(table, ps + [p], names + [p], runs + [[p]])
  {
    assert (runs + [[p]])[..|runs|] == runs;
  }

  lemma LongerRun(table: seq<string>, ps: seq<string>, names: seq<string>, runs: seq<seq<string>>, p: string)
    requires AreRuns(table, ps, names, runs) && names != [] && IsNameSuffix(table, p)
    ensures var n := |names| - 1;
            AreRuns(table, ps + [p], names[n := names[n] + ", " + p], runs[n := runs[n] + [p]])
  {
    var n := |names| - 1;
    var now := runs[n := runs[n] + [p]];
    assert now[..n] == runs[..n];
    assert Joined(runs[..n]) + (runs[n] + [p]) == Joined(runs[..n]) + runs[n] + [p];
    ShownGrows(runs[n], p);
  }

  lemma ShownGrows(run: seq<string>, p: string)
    requires run != []
    ensures Shown(run + [p]) == Shown(run) + ", " + p
  {
    assert (run + [p])[..|run|] == run;
  }

  /** Every part that is no suffix begins a name of its own, and every suffix stands in the
      name before it, in the order they came; a suffix with no name before it is a name. */
  lemma {:induction false} FoldMeans(table: seq<string>, ps: seq<string>) returns (runs: seq<seq<string>>)
    ensures AreRuns(table, ps, Fold(table, ps), runs)
  {
    if ps == [] {
      return [];
    }
    var n := |ps| - 1;
    var names, p := Fold(table, ps[..n]), ps[n];
    runs := FoldMeans(table, ps[..n]);
    assert ps == ps[..n] + [p];
    if names != [] && IsNameSuffix(table, p) {
      LongerRun(table, ps[..n], names, runs, p);
      runs := runs[|names| - 1 := runs[|names| - 1] + [p]];
    } else {
      NewRun(table, ps[..n], names, runs, p);
      runs := runs + [[p]];
    }
  }

  // ---- what a suffix is --------------------------------------------------------

  lemma {:induction false} PlainlyJoins(s: string, t: string)
    ensures Plainly(s + t) == Plainly(s) + Plainly(t)
  {
    if t == "" {
      assert s + t == s;
    } else {
      PlainlyJoins(s, t[..|t| - 1]);
      assert (s + t)[..|s + t| - 1] == s + t[..|t| - 1];
    }
  }

  lemma PlainlyOne(c: char)
    ensures Plainly([c]) == if c == '.' then "" else [Lower(c)]
  {
    assert [c][..0] == "";
  }

  lemma PlainlyThrough(s: string, c: char, t: string)
    ensures Plainly(s + [c] + t) == Plainly(s) + (if c == '.' then "" else [Lower(c)]) + Plainly(t)
  {
    PlainlyJoins(s + [c], t);
    PlainlyJoins(s, [c]);
    PlainlyOne(c);
  }

  lemma DotIsSkipped(s: string, t: string)
    ensures Plainly(s + "." + t) == Plainly(s + t)
  {
    PlainlyThrough(s, '.', t);
    PlainlyJoins(s, t);
    assert "." == ['.'];
  }

  /** A dot anywhere inside makes no difference to whether a part is a suffix, */
  lemma DotsDoNotMatter(table: seq<string>, s: string, t: string)
    requires s != "" && t != "" && !IsSpace(s[0]) && !IsSpace(t[|t| - 1])
    ensures IsNameSuffix(table, s + "." + t) <==> IsNameSuffix(table, s + t)
  {
    TrimIsNeat(s + "." + t);
    TrimIsNeat(s + t);
    DotIsSkipped(s, t);
  }

  /** nor one at its end, */
  lemma LastDotDoesNotMatter(table: seq<string>, s: string)
    requires s != "" && !IsSpace(s[0]) && !IsSpace(s[|s| - 1])
    ensures IsNameSuffix(table, s + ".") <==> IsNameSuffix(table, s)
  {
    TrimIsNeat(s + ".");
    TrimIsNeat(s);
    DotIsSkipped(s, "");
    assert s + "." + "" == s + "." && s + "" == s;
  }

  /** nor do capitals; and written in small letters without dots it is one exactly when the
      table has it. */
  lemma CapitalsDoNotMatter(table: seq<string>, s: string, c: char, d: char, t: string)
    requires 'a' <= d <= 'z' && c as int == d as int - 32
    requires Trim(s + [c] + t) == s + [c] + t && Trim(s + [d] + t) == s + [d] + t
    ensures IsNameSuffix(table, s + [c] + t) <==> IsNameSuffix(table, s + [d] + t)
  {
    PlainlyThrough(s, c, t);
    PlainlyThrough(s, d, t);
  }

  lemma {:induction false} SmallLettersStay(s: string)
    requires forall i :: 0 <= i < |s| ==> 'a' <= s[i] <= 'z'
    ensures Plainly(s) == s
  {
    if s != "" {
      SmallLettersStay(s[..|s| - 1]);
      assert s == s[..|s| - 1] + [s[|s| - 1]];
    }
  }

  lemma SmallLettersAreLookedUp(table: seq<string>, s: string)
    requires s != "" && forall i :: 0 <= i < |s| ==> 'a' <= s[i] <= 'z'
    ensures IsNameSuffix(table, s) <==> s in table
  {
    TrimIsNeat(s);
    SmallLettersStay(s);
  }
}
