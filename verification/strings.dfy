/** The string handling several files share, over ASCII: strings.TrimSpace, strings.Split
    at one character, and strings.ToLower.

    Cutting and cleaning go from the front to the back, so that what is said of a list of
    pieces is said of all but the last, and then of the last.
 */
module Strings {

  predicate IsSpace(c: char) { c == ' ' || 9 as char <= c <= 13 as char }

  function TrimLeft(s: string): string {
    if s != "" && IsSpace(s[0]) then TrimLeft(s[1..]) else s
  }

  function TrimRight(s: string): string {
    if s != "" && IsSpace(s[|s| - 1]) then TrimRight(s[..|s| - 1]) else s
  }

  function Trim(s: string): string {
    var t := TrimLeft(s);
    TrimRight(t)
  }

  function Lower(c: char): char { if 'A' <= c <= 'Z' then c - 'A' + 'a' else c }

  function Lowercase(s: string): (t: string)
    ensures |t| == |s|
  {
    seq(|s|, i requires 0 <= i < |s| => Lower(s[i]))
  }

  /** Cut at a separator. */
  function Split(s: string, separator: char): (pieces: seq<string>)
    ensures pieces != []
  {
    if s == "" then [""]
    else
      var pieces, c := Split(s[..|s| - 1], separator), s[|s| - 1];
      if c == separator then pieces + [""] else pieces[|pieces| - 1 := pieces[|pieces| - 1] + [c]]
  }

  /** The parts trimmed, without the empty ones. */
  function Clean(parts: seq<string>): seq<string> {
    if parts == [] then []
    else
      var p := Trim(parts[|parts| - 1]);
      Clean(parts[..|parts| - 1]) + if p == "" then [] else [p]
  }

  // ---- trimming ----------------------------------------------------------------

  /** Without blanks around it, and not empty. */
  predicate Neat(s: string) { s != "" && !IsSpace(s[0]) && !IsSpace(s[|s| - 1]) }

  lemma {:induction false} TrimRightNeat(s: string)
    ensures TrimRight(s) == "" || !IsSpace(TrimRight(s)[|TrimRight(s)| - 1])
    ensures TrimRight(s) <= s
    ensures (s != "" && !IsSpace(s[0])) ==> TrimRight(s) != ""
  {
    if s != "" && IsSpace(s[|s| - 1]) {
      TrimRightNeat(s[..|s| - 1]);
    }
  }

  lemma {:induction false} TrimLeftNeat(s: string)
    ensures TrimLeft(s) == "" || !IsSpace(TrimLeft(s)[0])
    ensures |TrimLeft(s)| <= |s| && (|TrimLeft(s)| == |s| ==> TrimLeft(s) == s)
    ensures forall c :: c in TrimLeft(s) ==> c in s
  {
    if s != "" && IsSpace(s[0]) {
      TrimLeftNeat(s[1..]);
    }
  }

  /** What Trim promises: nothing is added, no blank is left at either end, and only
      blanks at the ends are taken. */
  lemma TrimIsNeat(s: string)
    ensures Trim(s) == "" || Neat(Trim(s))
    ensures Neat(s) ==> Trim(s) == s
    ensures |Trim(s)| <= |s| && (|Trim(s)| == |s| ==> Trim(s) == s)
    ensures forall c :: c in Trim(s) ==> c in s
  {
    TrimLeftNeat(s);
    TrimRightNeat(TrimLeft(s));
  }

  /** The blanks of ASCII, which is what is taken. */
  lemma BlanksAreTaken(c: char, s: string)
    requires c as int in {9, 10, 11, 12, 13, 32}
    ensures Trim([c] + s) == Trim(s)
    ensures Neat(s) ==> Trim(s + [c]) == s
  {
    assert ([c] + s)[1..] == s;
    if Neat(s) {
      assert (s + [c])[0] == s[0];
      assert (s + [c])[..|s|] == s;
    }
  }

  ghost predicate AllNeat(ps: seq<string>) { forall i :: 0 <= i < |ps| ==> Neat(ps[i]) }

  lemma {:induction false} CleanIsNeat(parts: seq<string>)
    ensures AllNeat(Clean(parts))
  {
    if parts != [] {
      CleanIsNeat(parts[..|parts| - 1]);
      TrimIsNeat(parts[|parts| - 1]);
    }
  }

  lemma {:induction false} NeatIsClean(ps: seq<string>)
    requires AllNeat(ps)
    ensures Clean(ps) == ps
  {
    if ps != [] {
      var n := |ps| - 1;
      var front, last := ps[..n], ps[n];
      assert forall i :: 0 <= i < n ==> front[i] == ps[i];
      NeatIsClean(front);
      assert Neat(last);
      TrimIsNeat(last);
      assert ps == front + [last];
    }
  }

  // ---- cutting -----------------------------------------------------------------

  lemma {:induction false} SplitOffTheLast(s: string, t: string, separator: char)
    requires separator !in t
    ensures Split(s + [separator] + t, separator) == Split(s, separator) + [t]
  {
    var u := s + [separator] + t;
    if t == "" {
      assert u[..|s|] == s;
    } else {
      var n := |t| - 1;
      SplitOffTheLast(s, t[..n], separator);
      assert u[..|u| - 1] == s + [separator] + t[..n];
      assert t == t[..n] + [t[n]];
    }
  }

  lemma {:induction false} SplitOnePiece(t: string, separator: char)
    requires separator !in t
    ensures Split(t, separator) == [t]
  {
    if t != "" {
      SplitOnePiece(t[..|t| - 1], separator);
      assert t == t[..|t| - 1] + [t[|t| - 1]];
    }
  }

  /** The pieces and the separators between them fit in the length. */
  ghost predicate PiecesFit(pieces: seq<string>, length: nat) {
    forall i :: 0 <= i < |pieces| ==> |pieces[i]| + |pieces| - 1 <= length
  }

  lemma OneMoreCharFits(before: seq<string>, c: char, length: nat)
    requires before != [] && PiecesFit(before, length)
    ensures PiecesFit(before + [""], length + 1)
    ensures PiecesFit(before[..|before| - 1] + [before[|before| - 1] + [c]], length + 1)
  {
    var n := |before| - 1;
    var cut, longer := before + [""], before[..n] + [before[n] + [c]];
    forall i | 0 <= i < |cut| ensures |cut[i]| + |cut| - 1 <= length + 1 {
      assert |before[0]| + n <= length;
      assert i <= n ==> cut[i] == before[i];
    }
    forall i | 0 <= i < |longer| ensures |longer[i]| + |longer| - 1 <= length + 1 {
      assert i < n ==> longer[i] == before[i];
    }
  }

  /** A piece is as long as the whole only when it is the whole. */
  lemma {:induction false} PiecesAreShorter(s: string, separator: char)
    ensures PiecesFit(Split(s, separator), |s|)
    ensures |Split(s, separator)| == 1 ==> Split(s, separator) == [s]
  {
    if s != "" {
      var n := |s| - 1;
      PiecesAreShorter(s[..n], separator);
      OneMoreCharFits(Split(s[..n], separator), s[n], n);
      assert s == s[..n] + [s[n]];
    }
  }

  lemma {:induction false} CleanPieces(parts: seq<string>, p: string)
    requires p in Clean(parts)
    ensures exists i :: 0 <= i < |parts| && p == Trim(parts[i])
  {
    var n := |parts| - 1;
    if p in Clean(parts[..n]) {
      CleanPieces(parts[..n], p);
      var i :| 0 <= i < n && p == Trim(parts[..n][i]);
      assert p == Trim(parts[i]);
    } else {
      assert p == Trim(parts[n]);
    }
  }
}
