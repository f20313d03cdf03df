/** The SQL lexer of internal/db/sqlscan.go: what is neither code nor a quoted
    name becomes blanks, and every newline stays where it is.
 */
module SqlScan {
  // Text is a sequence of characters. The original walks bytes and blanks whole
  // characters; every delimiter is ASCII, so on valid UTF-8 the two agree.

  predicate HasPrefix(s: string, p: string) { p <= s }

  /** The two-character delimiter ab stands at position j. */
  predicate Pair(s: string, j: nat, a: char, b: char) {
    j + 1 < |s| && s[j] == a && s[j + 1] == b
  }

  function Blank(s: string): (b: string)
    ensures |b| == |s|
    ensures forall i :: 0 <= i < |s| ==> b[i] == if s[i] == '\n' then '\n' else ' '
  {
    seq(|s|, i requires 0 <= i < |s| => if s[i] == '\n' then '\n' else ' ')
  }

  /** The first position of c at or after j, or the end. */
  function Find(s: string, c: char, j: nat): (k: nat)
    requires j <= |s|
    ensures j <= k <= |s|
    ensures c !in s[j..k] && (k < |s| ==> s[k] == c)
    decreases |s| - j
  {
    if j == |s| || s[j] == c then j else Find(s, c, j + 1)
  }

  /** The end of a block comment, from position j inside `depth` open ones. */
  function BlockEnd(s: string, j: nat, depth: nat): (k: nat)
    requires j <= |s|
    ensures j <= k <= |s|
    decreases |s| - j
  {
    if j == |s| || depth == 0 then j
    else if Pair(s, j, '/', '*') then BlockEnd(s, j + 2, depth + 1)
    else if Pair(s, j, '*', '/') then BlockEnd(s, j + 2, depth - 1)
    else BlockEnd(s, j + 1, depth)
  }

  /** The end of a string literal, from position j inside it. */
  function LiteralEnd(s: string, j: nat): (k: nat)
    requires j <= |s|
    ensures j <= k <= |s|
    decreases |s| - j
  {
    if j == |s| then j
    else if s[j] != '\'' then LiteralEnd(s, j + 1)
    else if j + 1 < |s| && s[j + 1] == '\'' then LiteralEnd(s, j + 2)
    else j + 1
  }

  predicate Letter(c: char) { 'a' <= c <= 'z' || 'A' <= c <= 'Z' || c == '_' }

  predicate TagChar(c: char) { Letter(c) || '0' <= c <= '9' }

  /** The end of the run of tag characters from j. */
  function TagRun(s: string, j: nat): (k: nat)
    requires j <= |s|
    ensures j <= k <= |s|
    ensures forall i :: j <= i < k ==> TagChar(s[i])
    ensures k < |s| ==> !TagChar(s[k])
    decreases |s| - j
  {
    if j < |s| && TagChar(s[j]) then TagRun(s, j + 1) else j
  }

  /** The length of the dollar-quote delimiter s starts with, or 0. */
  function DollarTag(s: string): (n: nat)
    ensures n <= |s| && n != 1
  {
    if s == "" || s[0] != '$' then 0
    else
      var k := TagRun(s, 1);
      if k < |s| && s[k] == '$' && (k > 1 ==> Letter(s[1])) then k + 1 else 0
  }

  /** The first occurrence of t in s at or after j, or |s| + 1. */
  function Search(s: string, t: string, j: nat): (k: nat)
    requires j <= |s|
    ensures j <= k
    ensures k <= |s| ==> k + |t| <= |s| && HasPrefix(s[k..], t)
    ensures k > |s| ==> k == |s| + 1
    ensures forall i :: j <= i < k && i <= |s| ==> !HasPrefix(s[i..], t)
    decreases |s| - j
  {
    if HasPrefix(s[j..], t) then j
    else if j == |s| then |s| + 1
    else Search(s, t, j + 1)
  }

  /** What s starts with, and whether it is kept or blanked. */
  datatype Piece = Piece(length: nat, kept: bool)

  function Next(s: string): (p: Piece)
    requires s != ""
    ensures 1 <= p.length <= |s|
  {
    if Pair(s, 0, '-', '-') then Piece(Find(s, '\n', 0), false)
    else if Pair(s, 0, '/', '*') then Piece(BlockEnd(s, 2, 1), false)
    else if s[0] == '\'' then Piece(LiteralEnd(s, 1), false)
    else if s[0] == '"' then
      var k := Find(s, '"', 1);
      Piece(if k < |s| then k + 1 else k, true)
    else
      var n := DollarTag(s);
      if n == 0 then Piece(1, true)
      else
        var k := Search(s, s[..n], n);
        Piece(if k > |s| then |s| else k + n, false)
  }

  function Strip(s: string): (t: string)
    ensures |t| == |s|
  {
    if s == "" then ""
    else
      var p := Next(s);
      Image(s, p) + Strip(s[p.length..])
  }

  /** One turn of stripNoise's loop: how far the token at the front reaches. */
  method Scan(rest: string) returns (end: nat, kept: bool)
    requires rest != ""
    ensures Piece(end, kept) == Next(rest)
  {
    kept := false;
    if Pair(rest, 0, '-', '-') {
      end := 0;
      while end < |rest| && rest[end] != '\n'
        invariant end <= |rest| && Find(rest, '\n', end) == Find(rest, '\n', 0)
      {
        end := end + 1;
      }
    } else if Pair(rest, 0, '/', '*') {
      var depth := 1;
      end := 2;
      while end < |rest| && depth > 0
        invariant 2 <= end <= |rest| && depth >= 0
        invariant BlockEnd(rest, end, depth) == BlockEnd(rest, 2, 1)
        decreases |rest| - end
      {
        if Pair(rest, end, '/', '*') {
          depth, end := depth + 1, end + 2;
        } else if Pair(rest, end, '*', '/') {
          depth, end := depth - 1, end + 2;
        } else {
          end := end + 1;
        }
      }
    } else if rest[0] == '\'' {
      end := ScanLiteral(rest);
    } else if rest[0] == '"' {
      end, kept := 1, true;
      while end < |rest| && rest[end] != '"'
        invariant 1 <= end <= |rest| && Find(rest, '"', end) == Find(rest, '"', 1)
      {
        end := end + 1;
      }
      if end < |rest| { end := end + 1; }
    } else {
      var n := DollarTag(rest);
      if n == 0 { return 1, true; }
      var stop := Search(rest, rest[..n], n);
      end := if stop > |rest| then |rest| else stop + n;
    }
  }

  method ScanLiteral(rest: string) returns (end: nat)
    requires rest != "" && rest[0] == '\''
    ensures end == LiteralEnd(rest, 1)
  {
    end := 1;
    while end < |rest|
      invariant 1 <= end <= |rest| && LiteralEnd(rest, end) == LiteralEnd(rest, 1)
    {
      if rest[end] == '\'' {
        if end + 1 < |rest| && rest[end + 1] == '\'' {
          end := end + 2;
          continue;
        }
        end := end + 1;
        break;
      }
      end := end + 1;
    }
  }

  function Image(s: string, p: Piece): (t: string)
    requires p.length <= |s|
    ensures |t| == p.length
  {
    if p.kept then s[..p.length] else Blank(s[..p.length])
  }

  lemma StripStep(out: string, rest: string, p: Piece)
    requires rest != "" && p == Next(rest)
    ensures out + Strip(rest) == (out + Image(rest, p)) + Strip(rest[p.length..])
  {
  }

  /** stripNoise. */
  method StripNoise(sql: string) returns (out: string)
    ensures out == Strip(sql)
  {
    out := "";
    var i := 0;
    ghost var whole := Strip(sql);
    assert sql[0..] == sql;
    while i < |sql|
      invariant 0 <= i <= |sql|
      invariant out + Strip(sql[i..]) == whole
    {
      var rest := sql[i..];
      var end, kept := Scan(rest);
      StripStep(out, rest, Piece(end, kept));
      out := out + Image(rest, Piece(end, kept));
      assert rest[end..] == sql[i + end..];
      i := i + end;
    }
  }

  // ---- position by position ----------------------------------------------------

  /** Each output character is the input's or a space, and newlines stay put. */
  ghost predicate SamePlaces(s: string, t: string) {
    && |t| == |s|
    && forall i :: 0 <= i < |s| ==> t[i] == s[i] || (t[i] == ' ' && s[i] != '\n')
  }

  lemma {:induction false} StripSamePlaces(s: string)
    ensures SamePlaces(s, Strip(s))
  {
    if s != "" {
      var p := Next(s);
      StripSamePlaces(s[p.length..]);
      assert s == s[..p.length] + s[p.length..];
    }
  }

  lemma NewlinesStay(s: string, i: nat)
    requires i < |s|
    ensures Strip(s)[i] == '\n' <==> s[i] == '\n'
  {
    StripSamePlaces(s);
  }

  // ---- stripping twice ---------------------------------------------------------

  lemma BlankPasses(s: string)
    requires s != "" && (s[0] == ' ' || s[0] == '\n')
    ensures Strip(s) == [s[0]] + Strip(s[1..])
  {
    BlankIsKept(s);
    assert s[..1] == [s[0]];
  }

  lemma BlankIsKept(s: string)
    requires s != "" && (s[0] == ' ' || s[0] == '\n')
    ensures Next(s) == Piece(1, true)
  {
    assert DollarTag(s) == 0;
  }

  lemma BlankThen(t: string, j: nat)
    requires j < |t| && (t[j] == ' ' || t[j] == '\n')
    ensures Strip(t[j..]) == [t[j]] + Strip(t[j + 1..])
  {
    BlankPasses(t[j..]);
    assert t[j..][1..] == t[j + 1..];
  }

  lemma Prepend(t: string, j: nat, n: nat, x: string)
    requires j < n <= |t|
    ensures [t[j]] + (t[j + 1..n] + x) == t[j..n] + x
  {
    assert t[j..n] == [t[j]] + t[j + 1..n];
  }

  ghost predicate BlankBetween(t: string, j: nat, n: nat)
    requires n <= |t|
  {
    forall i :: j <= i < n ==> t[i] == ' ' || t[i] == '\n'
  }

  lemma {:induction false} BlanksPass(t: string, j: nat, n: nat)
    requires j <= n <= |t| && BlankBetween(t, j, n)
    ensures Strip(t[j..]) == t[j..n] + Strip(t[n..])
    decreases n - j
  {
    if j < n {
      BlanksPass(t, j + 1, n);
      BlankThen(t, j);
      Prepend(t, j, n, Strip(t[n..]));
    }
  }

  /** A kept piece is read as the same piece when what follows it is blanked. */
  lemma KeptPieceReads(s: string, t: string)
    requires s != "" && SamePlaces(s, t)
    requires Next(s).kept && t[..Next(s).length] == s[..Next(s).length]
    requires Next(s).length == |s| ==> t == s
    ensures Next(t) == Next(s)
  {
    var n := Next(s).length;
    assert t[0] == s[0];
    if s[0] == '"' {
      var k := Find(s, '"', 1);
      if k < |s| {
        FindSame(s, t, '"', 1, k);
      }
    } else if DollarTag(t) != 0 {
      var k := DollarTag(t);
      assert forall i :: 0 <= i < k ==> t[i] == s[i];
      TagRunSame(t, s, 1, k - 1);
    }
  }

  lemma {:induction false} FindSame(s: string, t: string, c: char, j: nat, k: nat)
    requires j <= k < |s| && |t| == |s| && t[..k + 1] == s[..k + 1]
    requires Find(s, c, j) == k
    ensures Find(t, c, j) == k
    decreases k - j
  {
    assert t[j] == t[..k + 1][j] == s[j];
    if j < k {
      FindSame(s, t, c, j + 1, k);
    }
  }

  lemma {:induction false} TagRunSame(s: string, t: string, j: nat, k: nat)
    requires j <= k < |s| && |t| == |s|
    requires forall i :: j <= i <= k ==> t[i] == s[i]
    requires TagRun(s, j) == k
    ensures TagRun(t, j) == k
    decreases k - j
  {
    if j < k {
      TagRunSame(s, t, j + 1, k);
    }
  }

  lemma {:induction false} StripIdempotent(s: string)
    ensures Strip(Strip(s)) == Strip(s)
  {
    if s != "" {
      var p := Next(s);
      var rest := s[p.length..];
      var t := Image(s, p) + Strip(rest);
      assert Strip(s) == t;
      StripIdempotent(rest);
      if p.kept {
        StripSamePlaces(s);
        assert t[..p.length] == s[..p.length];
        assert p.length == |s| ==> t == s;
        KeptPieceReads(s, t);
        assert t[p.length..] == Strip(rest);
      } else {
        BlanksPass(t, 0, p.length);
        assert t[0..] == t && t[0..p.length] == Image(s, p) && t[p.length..] == Strip(rest);
      }
    }
  }

  // ---- what the tokens mean ----------------------------------------------------

  /** The inside of a block comment: characters, and further comments. */
  datatype Comment =
    | Empty
    | Char(c: char, rest: Comment)
    | Inner(inner: Comment, rest: Comment)

  function CommentText(n: Comment): string {
    match n
    case Empty => ""
    case Char(c, rest) => [c] + CommentText(rest)
    case Inner(inner, rest) => "/*" + CommentText(inner) + "*/" + CommentText(rest)
  }

  /** No loose character of the comment opens or closes one with what follows. */
  ghost predicate CommentFits(n: Comment, after: string) {
    match n
    case Empty => true
    case Char(c, rest) =>
      var text := [c] + CommentText(rest) + after;
      !Pair(text, 0, '/', '*') && !Pair(text, 0, '*', '/') && CommentFits(rest, after)
    case Inner(inner, rest) =>
      CommentFits(inner, "*/" + CommentText(rest) + after) && CommentFits(rest, after)
  }

  /** A string literal writes each quote twice. */
  function Doubled(value: string): string {
    if value == "" then ""
    else (if value[0] == '\'' then "''" else [value[0]]) + Doubled(value[1..])
  }

  datatype Token =
    | Line(text: string)
    | Block(body: Comment)
    | Literal(value: string)
    | Quoted(name: string)
    | Dollar(tag: string, quoted: string)
    | Code(c: char)

  function Text(t: Token): (s: string)
    ensures s != ""
  {
    match t
    case Line(text) => "--" + text
    case Block(body) => "/*" + CommentText(body) + "*/"
    case Literal(value) => "'" + Doubled(value) + "'"
    case Quoted(name) => "\"" + name + "\""
    case Dollar(tag, quoted) => "$" + tag + "$" + quoted + "$" + tag + "$"
    case Code(c) => [c]
  }

  function Stripped(t: Token): string {
    if t.Quoted? || t.Code? then Text(t) else Blank(Text(t))
  }

  /** The token can stand before `after` without running into it. */
  ghost predicate Fits(t: Token, after: string) {
    match t
    case Line(text) => '\n' !in text && (after == "" || after[0] == '\n')
    case Block(body) => CommentFits(body, "*/" + after)
    case Literal(_) => after == "" || after[0] != '\''
    case Quoted(name) => '"' !in name
    case Dollar(tag, quoted) =>
      && (forall i :: 0 <= i < |tag| ==> TagChar(tag[i])) && (tag != "" ==> Letter(tag[0]))
      && var fence := "$" + tag + "$";
         forall i :: 0 <= i < |quoted| ==> !HasPrefix((quoted + fence)[i..], fence)
    case Code(c) =>
      var s := [c] + after;
      !Pair(s, 0, '-', '-') && !Pair(s, 0, '/', '*') && c != '\'' && c != '"' && DollarTag(s) == 0
  }

  function Render(ts: seq<Token>): string {
    if ts == [] then "" else Text(ts[0]) + Render(ts[1..])
  }

  function RenderStripped(ts: seq<Token>): string {
    if ts == [] then "" else Stripped(ts[0]) + RenderStripped(ts[1..])
  }

  ghost predicate AllFit(ts: seq<Token>) {
    ts != [] ==> Fits(ts[0], Render(ts[1..])) && AllFit(ts[1..])
  }

  lemma {:induction false} FindStops(s: string, c: char, j: nat, k: nat)
    requires j <= k <= |s| && c !in s[j..k] && (k == |s| || s[k] == c)
    ensures Find(s, c, j) == k
    decreases k - j
  {
    if j < k {
      assert s[j] in s[j..k];
      assert s[j..k][1..] == s[j + 1..k];
      FindStops(s, c, j + 1, k);
    }
  }

  lemma PairMoves(s: string, j: nat, t: string, a: char, b: char)
    requires j <= |s| && s[j..] == t
    ensures Pair(s, j, a, b) <==> Pair(t, 0, a, b)
  {
    if |t| >= 2 {
      assert t[0] == s[j..][0] && t[1] == s[j..][1];
    }
  }

  lemma Brackets(s: string, j: nat, inside: string, after: string, k: nat)
    requires j <= |s| && s[j..] == "/*" + inside + ("*/" + after) && k == j + 4 + |inside|
    ensures Pair(s, j, '/', '*') && s[j + 2..] == inside + ("*/" + after)
    ensures Pair(s, k - 2, '*', '/') && s[k..] == after
  {
    var t := "/*" + inside + ("*/" + after);
    var n := 2 + |inside|;
    assert t[0] == '/' && t[1] == '*' && t[n] == '*' && t[n + 1] == '/';
    assert s[j] == s[j..][0] && s[j + 1] == s[j..][1];
    assert s[k - 2] == s[j..][n] && s[k - 1] == s[j..][n + 1];
    assert s[j + 2..] == s[j..][2..] == inside + ("*/" + after);
    assert s[k..] == s[j..][n + 2..] == after;
  }

  lemma CharReads(s: string, j: nat, depth: nat, c: char, rest: Comment, after: string)
    requires j <= |s| && s[j..] == [c] + CommentText(rest) + after && depth > 0
    requires CommentFits(Char(c, rest), after)
    ensures s[j + 1..] == CommentText(rest) + after
    ensures BlockEnd(s, j, depth) == BlockEnd(s, j + 1, depth)
  {
    var text := [c] + CommentText(rest) + after;
    assert s[j + 1..] == s[j..][1..] == text[1..];
    PairMoves(s, j, text, '/', '*');
    PairMoves(s, j, text, '*', '/');
  }

  /** Reading past a well-nested comment body leaves the depth as it was. */
  lemma {:induction false} CommentReads(s: string, j: nat, depth: nat, n: Comment, after: string, end: nat)
    requires j <= |s| && s[j..] == CommentText(n) + after && depth > 0
    requires CommentFits(n, after) && end == j + |CommentText(n)|
    ensures end <= |s| && BlockEnd(s, j, depth) == BlockEnd(s, end, depth)
    decreases n, 0
  {
    match n
    case Empty =>
    case Char(c, rest) =>
      CharReads(s, j, depth, c, rest, after);
      CommentReads(s, j + 1, depth, rest, after, end);
    case Inner(inner, rest) =>
      InnerText(inner, rest, after);
      var k := j + 4 + |CommentText(inner)|;
      InnerReads(s, j, depth, inner, CommentText(rest) + after, k);
      CommentReads(s, k, depth, rest, after, end);
  }

  lemma InnerText(inner: Comment, rest: Comment, after: string)
    ensures CommentText(Inner(inner, rest)) + after == "/*" + CommentText(inner) + ("*/" + (CommentText(rest) + after))
    ensures |CommentText(Inner(inner, rest))| == 4 + |CommentText(inner)| + |CommentText(rest)|
    ensures CommentFits(Inner(inner, rest), after)
       ==> CommentFits(inner, "*/" + (CommentText(rest) + after)) && CommentFits(rest, after)
  {
    assert "*/" + (CommentText(rest) + after) == "*/" + CommentText(rest) + after;
  }

  /** A comment inside the comment is read past. */
  lemma {:induction false} InnerReads(s: string, j: nat, depth: nat, inner: Comment, after: string, k: nat)
    requires j <= |s| && s[j..] == "/*" + CommentText(inner) + ("*/" + after) && depth > 0
    requires CommentFits(inner, "*/" + after) && k == j + 4 + |CommentText(inner)|
    ensures k <= |s| && s[k..] == after && BlockEnd(s, j, depth) == BlockEnd(s, k, depth)
    decreases inner, 1
  {
    Brackets(s, j, CommentText(inner), after, k);
    CommentReads(s, j + 2, depth + 1, inner, "*/" + after, k - 2);
  }

  lemma {:induction false} LiteralReads(s: string, j: nat, value: string, after: string)
    requires j <= |s| && s[j..] == Doubled(value) + "'" + after
    requires after == "" || after[0] != '\''
    ensures LiteralEnd(s, j) == j + |Doubled(value)| + 1
    decreases |value|
  {
    if value == "" {
      assert s[j] == s[j..][0] == '\'';
      assert after != "" ==> s[j + 1] == s[j..][1] == after[0];
    } else {
      var n := if value[0] == '\'' then 2 else 1;
      var tail := Doubled(value[1..]) + "'" + after;
      assert s[j..] == Doubled(value)[..n] + tail;
      assert s[j] == s[j..][0] == value[0];
      assert n == 2 ==> s[j + 1] == s[j..][1] == '\'';
      assert s[j + n..] == s[j..][n..] == tail;
      LiteralReads(s, j + n, value[1..], after);
    }
  }

  lemma {:induction false} TagReads(s: string, j: nat, k: nat)
    requires j <= k < |s| && !TagChar(s[k])
    requires forall i :: j <= i < k ==> TagChar(s[i])
    ensures TagRun(s, j) == k
    decreases k - j
  {
    if j < k {
      TagReads(s, j + 1, k);
    }
  }

  lemma {:induction false} SearchStops(s: string, t: string, j: nat, k: nat)
    requires j <= k <= |s| && HasPrefix(s[k..], t)
    requires forall i :: j <= i < k ==> !HasPrefix(s[i..], t)
    ensures Search(s, t, j) == k
    decreases k - j
  {
    if j < k {
      SearchStops(s, t, j + 1, k);
    }
  }

  /** The pattern \$([A-Za-z_][A-Za-z0-9_]*)?\$ over the first n characters. */
  ghost predicate StartsWithTag(s: string, n: nat) {
    && 2 <= n <= |s| && s[0] == '$' && s[n - 1] == '$'
    && (forall i :: 1 <= i < n - 1 ==>
          'a' <= s[i] <= 'z' || 'A' <= s[i] <= 'Z' || '0' <= s[i] <= '9' || s[i] == '_')
    && (n > 2 ==> !('0' <= s[1] <= '9'))
  }

  /** A dollar quote opens exactly where that pattern matches, and with all it matches. */
  lemma TagIffPattern(s: string, n: nat)
    requires n > 0
    ensures DollarTag(s) == n <==> StartsWithTag(s, n)
  {
    if StartsWithTag(s, n) {
      TagReads(s, 1, n - 1);
    }
  }

  lemma FenceReads(tag: string, after: string)
    requires (forall i :: 0 <= i < |tag| ==> TagChar(tag[i])) && (tag != "" ==> Letter(tag[0]))
    ensures DollarTag("$" + tag + "$" + after) == |tag| + 2
  {
    var s := "$" + tag + "$" + after;
    var n := |tag| + 1;
    assert forall i :: 1 <= i < n ==> s[i] == tag[i - 1];
    assert s[n] == '$';
    TagReads(s, 1, n);
  }

  /** The closing fence is the first one after the opening one. */
  lemma FenceCloses(fence: string, quoted: string, after: string)
    requires forall i :: 0 <= i < |quoted| ==> !HasPrefix((quoted + fence)[i..], fence)
    ensures Search(fence + quoted + fence + after, fence, |fence|) == |fence| + |quoted|
  {
    var s := fence + quoted + fence + after;
    var n := |fence|;
    forall i | n <= i < n + |quoted|
      ensures !HasPrefix(s[i..], fence)
    {
      var inner := (quoted + fence)[i - n..];
      assert s[i..] == inner + after && |inner| >= n;
      assert s[i..][..n] == inner[..n];
    }
    assert s[n + |quoted|..] == fence + after;
    SearchStops(s, fence, n, n + |quoted|);
  }

  /** Before `after`, the token is read whole, and as what it is. */
  ghost predicate Reads(t: Token, after: string) {
    Next(Text(t) + after) == Piece(|Text(t)|, t.Quoted? || t.Code?)
  }

  lemma LineReads(text: string, after: string)
    requires Fits(Line(text), after)
    ensures Reads(Line(text), after)
  {
    var s := "--" + text + after;
    assert s[0..2 + |text|] == "--" + text;
    FindStops(s, '\n', 0, 2 + |text|);
  }

  lemma LastClose(s: string, k: nat)
    requires Pair(s, k, '*', '/')
    ensures BlockEnd(s, k, 1) == k + 2
  {
    assert BlockEnd(s, k + 2, 0) == k + 2;
  }

  lemma BlockReads(body: Comment, after: string)
    requires Fits(Block(body), after)
    ensures Reads(Block(body), after)
  {
    var s := Text(Block(body)) + after;
    assert s[0..] == s == "/*" + CommentText(body) + ("*/" + after);
    var k := 2 + |CommentText(body)|;
    Brackets(s, 0, CommentText(body), after, k + 2);
    CommentReads(s, 2, 1, body, "*/" + after, k);
    LastClose(s, k);
  }

  lemma LiteralTokenReads(value: string, after: string)
    requires Fits(Literal(value), after)
    ensures Reads(Literal(value), after)
  {
    var s := Text(Literal(value)) + after;
    assert s[1..] == Doubled(value) + "'" + after;
    LiteralReads(s, 1, value, after);
  }

  lemma QuotedReads(name: string, after: string)
    requires '"' !in name
    ensures Reads(Quoted(name), after)
  {
    var s := "\"" + name + "\"" + after;
    assert s[1..1 + |name|] == name;
    FindStops(s, '"', 1, 1 + |name|);
  }

  lemma DollarNext(s: string, n: nat, k: nat)
    requires s != "" && s[0] == '$' && n != 0 && DollarTag(s) == n
    requires k <= |s| && Search(s, s[..n], n) == k
    ensures Next(s) == Piece(k + n, false)
  {
  }

  lemma DollarText(tag: string, quoted: string, after: string)
    ensures var fence := "$" + tag + "$";
            var s := Text(Dollar(tag, quoted)) + after;
            && s == fence + quoted + fence + after == fence + (quoted + fence + after)
            && s[..|fence|] == fence && s[0] == '$'
            && |Text(Dollar(tag, quoted))| == 2 * |fence| + |quoted|
  {
    var fence := "$" + tag + "$";
    assert Text(Dollar(tag, quoted)) == fence + quoted + fence;
    assert fence + quoted + fence + after == fence + (quoted + fence + after);
  }

  lemma DollarReads(tag: string, quoted: string, after: string)
    requires Fits(Dollar(tag, quoted), after)
    ensures Reads(Dollar(tag, quoted), after)
  {
    var fence := "$" + tag + "$";
    DollarText(tag, quoted, after);
    FenceReads(tag, quoted + fence + after);
    FenceCloses(fence, quoted, after);
    DollarNext(Text(Dollar(tag, quoted)) + after, |fence|, |fence| + |quoted|);
  }

  lemma TokenReads(t: Token, after: string)
    requires Fits(t, after)
    ensures Reads(t, after)
  {
    match t
    case Line(text) => LineReads(text, after);
    case Block(body) => BlockReads(body, after);
    case Literal(value) => LiteralTokenReads(value, after);
    case Quoted(name) => QuotedReads(name, after);
    case Dollar(tag, quoted) => DollarReads(tag, quoted, after);
    case Code(c) =>
  }

  /** On any text made of tokens, however deeply its comments nest and whatever its
      literals and dollar-quoted bodies contain, stripping blanks exactly the
      comments, literals and bodies and keeps the code and the quoted names. */
  lemma {:induction false} StripsExactlyTheNoise(ts: seq<Token>)
    requires AllFit(ts)
    ensures Strip(Render(ts)) == RenderStripped(ts)
  {
    if ts != [] {
      var after := Render(ts[1..]);
      var s := Text(ts[0]) + after;
      TokenReads(ts[0], after);
      assert s[..|Text(ts[0])|] == Text(ts[0]) && s[|Text(ts[0])|..] == after;
      StripsExactlyTheNoise(ts[1..]);
    }
  }
}
