/** The query language of the search box (internal/search/parser.go).

    A query is cut into tokens and the tokens are read into groups of conditions. Every
    group has to hold; a group holds if all of its conditions do, or any of them. What the
    language promises is NOT before a term, OR between terms in parentheses, and AND
    between everything else.
 */
module Search {
  import opened Strings
  import opened Wrappers
  import opened BookFilter

  // ---- the terms ---------------------------------------------------------------

  function Negated(op: Op): Op {
    match op
    case Contains => NotContains
    case NotContains => Contains
    case Equals => NotEquals
    case NotEquals => Equals
    case Phrase => NotContains
    case Regex => NotContains
    case OtherOp => OtherOp
  }

  function Not(c: FilterCondition): FilterCondition { c.(op := Negated(c.op)) }

  /** The condition of a field prefix; an unknown one is searched for as it stands. */
  function FieldCondition(field: string, value: string): Option<FilterCondition> {
    match field
    case "type" => Some(FilterCondition(OnType, Equals, value))
    case "media_type" => Some(FilterCondition(OnType, Equals, value))
    case "tag" => Some(FilterCondition(OnTag, Equals, value))
    case "genre" => Some(FilterCondition(OnGenre, Equals, value))
    case "contributor" => Some(FilterCondition(OnContributor, Contains, value))
    case "author" => Some(FilterCondition(OnContributor, Contains, value))
    case "title" => Some(FilterCondition(OnTitle, Contains, value))
    case "isbn" => Some(FilterCondition(OnTitle, Contains, value))
    case "letter" => Some(FilterCondition(OnLetter, Equals, value))
    case "series" => Some(FilterCondition(OnSeries, Equals, value))
    case "shelf" => Some(FilterCondition(OnShelf, Equals, value))
    case "publisher" => Some(FilterCondition(OnPublisher, Equals, value))
    case "language" => Some(FilterCondition(OnLanguage, Equals, value))
    case "has" => if Lowercase(value) == "cover" then Some(FilterCondition(OnCover, Equals, "")) else None
    case _ => Some(FilterCondition(OnTitle, Contains, field + ":" + value))
  }

  /** The first position of c, or the end. */
  function IndexOf(s: string, c: char): (k: nat)
    ensures k <= |s| && c !in s[..k] && (k < |s| ==> s[k] == c)
  {
    if s == "" || s[0] == c then 0
    else
      var k := IndexOf(s[1..], c);
      assert s[..k + 1] == [s[0]] + s[1..][..k];
      k + 1
  }

  predicate Between(s: string, c: char) { |s| >= 2 && s[0] == c && s[|s| - 1] == c }

  function Inside(s: string): string
    requires |s| >= 2
  {
    s[1..|s| - 1]
  }

  /** What a token asks: a phrase, a pattern, a field, or a word of the title. */
  function TermOf(token: string): Option<FilterCondition> {
    var colon := IndexOf(token, ':');
    if Between(token, '"') then
      if Inside(token) == "" then None else Some(FilterCondition(OnTitle, Phrase, Inside(token)))
    else if Between(token, '/') then
      if Inside(token) == "" then None else Some(FilterCondition(OnTitle, Regex, Inside(token)))
    else if 0 < colon < |token| - 1 then
      var value := token[colon + 1..];
      FieldCondition(Lowercase(token[..colon]), if Between(value, '"') then Inside(value) else value)
    else if token == "" then None
    else Some(FilterCondition(OnTitle, Contains, token))
  }

  /** What a token is to the parser; a term may ask nothing. */
  datatype Word = Open | Close | NotWord | AndWord | OrWord | Term(c: Option<FilterCondition>)

  function WordOf(token: string): Word {
    if token == ")" then Close
    else if token == "(" then Open
    else if Lowercase(token) == "not" then NotWord
    else if Lowercase(token) == "and" then AndWord
    else if Lowercase(token) == "or" then OrWord
    else Term(TermOf(token))
  }

  function Words(tokens: seq<string>): (ws: seq<Word>)
    ensures |ws| == |tokens| && forall i :: 0 <= i < |ws| ==> ws[i] == WordOf(tokens[i])
  {
    seq(|tokens|, i requires 0 <= i < |tokens| => WordOf(tokens[i]))
  }

  // ---- reading the tokens ------------------------------------------------------

  /** What parseTokens has so far: the groups that are finished, the one it is at, and
      whether a NOT waits for what comes next. */
  datatype State = State(outer: seq<ConditionGroup>, current: seq<FilterCondition>, any: bool, negate: bool)

  const START := State([], [], false, false)

  function Flush(s: State): State {
    if s.current == [] then s else State(s.outer + [ConditionGroup(s.any, s.current)], [], false, s.negate)
  }

  function NotAll(cs: seq<FilterCondition>): (ds: seq<FilterCondition>)
    ensures |ds| == |cs| && forall i :: 0 <= i < |cs| ==> ds[i] == Not(cs[i])
  {
    seq(|cs|, i requires 0 <= i < |cs| => Not(cs[i]))
  }

  /** The groups of a parenthesis, one by one; a NOT before it is used up by the first. */
  function AddInner(s: State, inner: seq<ConditionGroup>): State
    decreases |inner|
  {
    if inner == [] then s
    else
      var g := inner[0];
      if g.conditions == [] then AddInner(s, inner[1..])
      else
        var added := if s.negate then g.(conditions := NotAll(g.conditions)) else g;
        AddInner(s.(outer := s.outer + [added], negate := false), inner[1..])
  }

  function AddTerm(s: State, c: FilterCondition): State {
    s.(current := s.current + [if s.negate then Not(c) else c], negate := false)
  }

  /** What a word other than a parenthesis does. */
  function Step(s: State, w: Word): State {
    match w
    case NotWord => s.(negate := true)
    case AndWord => Flush(s).(any := false)
    case OrWord => s.(any := true)
    case Term(c) => if c.Some? then AddTerm(s, c.value) else s
    case _ => s
  }

  /** parseTokens from a state on, inside a parenthesis or not: the groups, and how many
      tokens it has read. */
  function Read(ws: seq<Word>, s: State, stop: bool): (r: (State, nat))
    ensures r.1 <= |ws|
    decreases |ws|
  {
    if ws == [] then (Flush(s), 0)
    else if ws[0] == Close && stop then (Flush(s), 1)
    else if ws[0] == Open then
      var inner := Read(ws[1..], START, true);
      var after := Read(ws[inner.1 + 1..], AddInner(s, inner.0.outer), stop);
      (after.0, inner.1 + 1 + after.1)
    else
      var after := Read(ws[1..], Step(s, ws[0]), stop);
      (after.0, after.1 + 1)
  }

  method AddGroups(outer: seq<ConditionGroup>, negate: bool, inner: seq<ConditionGroup>)
    returns (outer': seq<ConditionGroup>, negate': bool)
    ensures forall current, any ::
              AddInner(State(outer, current, any, negate), inner) == State(outer', current, any, negate')
  {
    outer', negate' := outer, negate;
    for i := 0 to |inner|
      invariant forall current, any ::
        AddInner(State(outer, current, any, negate), inner)
        == AddInner(State(outer', current, any, negate'), inner[i..])
    {
      var g := inner[i];
      assert inner[i..][0] == g && inner[i..][1..] == inner[i + 1..];
      if |g.conditions| > 0 {
        if negate' {
          g := g.(conditions := NotAll(g.conditions));
          negate' := false;
        }
        outer' := outer' + [g];
      }
    }
  }

  /** From the word at i on it reads what `all` says, i words further. */
  ghost predicate ReadsOn(ws: seq<Word>, i: nat, s: State, stop: bool, all: (State, nat))
    requires i <= |ws|
  {
    Read(ws[i..], s, stop).0 == all.0 && i + Read(ws[i..], s, stop).1 == all.1
  }

  lemma ReadsClose(ws: seq<Word>, i: nat, s: State, all: (State, nat))
    requires i < |ws| && ws[i] == Close && ReadsOn(ws, i, s, true, all)
    ensures all == (Flush(s), i + 1)
  {
    assert ws[i..][0] == Close;
  }

  lemma ReadsOpen(ws: seq<Word>, i: nat, s: State, stop: bool, all: (State, nat), inner: (State, nat), next: nat)
    requires i < |ws| && next == i + 1 + inner.1 && ws[i] == Open && inner == Read(ws[i + 1..], START, true)
    requires ReadsOn(ws, i, s, stop, all)
    ensures next <= |ws| && ReadsOn(ws, next, AddInner(s, inner.0.outer), stop, all)
  {
    assert ws[i..][0] == Open && ws[i..][1..] == ws[i + 1..];
    assert ws[i..][inner.1 + 1..] == ws[i + 1 + inner.1..];
  }

  lemma ReadsStep(ws: seq<Word>, i: nat, s: State, stop: bool, all: (State, nat), w: Word, next: nat)
    requires i < |ws| && w == ws[i] && next == i + 1 && ws[i] != Open && !(ws[i] == Close && stop)
    requires ReadsOn(ws, i, s, stop, all)
    ensures ReadsOn(ws, next, Step(s, w), stop, all)
  {
    assert ws[i..][0] == ws[i] && ws[i..][1..] == ws[i + 1..];
  }

  lemma ReadsEnd(ws: seq<Word>, s: State, stop: bool, all: (State, nat))
    requires ReadsOn(ws, |ws|, s, stop, all)
    ensures all == (Flush(s), |ws|)
  {
  }

  lemma WordsFrom(tokens: seq<string>, i: nat)
    requires i <= |tokens|
    ensures Words(tokens[i..]) == Words(tokens)[i..]
  {
  }

  method TakeWord(w: Word, outer: seq<ConditionGroup>, current: seq<FilterCondition>, any: bool, negate: bool)
    returns (outer': seq<ConditionGroup>, current': seq<FilterCondition>, any': bool, negate': bool)
    ensures State(outer', current', any', negate') == Step(State(outer, current, any, negate), w)
  {
    outer', current', any', negate' := outer, current, any, negate;
    match w {
      case NotWord => negate' := true;
      case AndWord =>
        if |current| > 0 {
          outer', current' := outer + [ConditionGroup(any, current)], [];
        }
        any' := false;
      case OrWord => any' := true;
      case Term(c) =>
        if c.Some? {
          current' := current + [if negate then Not(c.value) else c.value];
          negate' := false;
        }
      case _ =>
    }
  }

  method ParseTokens(tokens: seq<string>, stopAtParen: bool) returns (groups: seq<ConditionGroup>, consumed: nat)
    ensures groups == Read(Words(tokens), START, stopAtParen).0.outer
    ensures consumed == Read(Words(tokens), START, stopAtParen).1
    decreases |tokens|
  {
    var outer: seq<ConditionGroup>, current: seq<FilterCondition>, any, negate := [], [], false, false;
    ghost var ws := Words(tokens);
    ghost var all := Read(ws, START, stopAtParen);
    ghost var s := START;
    var i := 0;
    assert ws[0..] == ws;
    while i < |tokens|
      invariant 0 <= i <= |tokens| && s == State(outer, current, any, negate)
      invariant ReadsOn(ws, i, s, stopAtParen, all)
      decreases |tokens| - i
    {
      var w := WordOf(tokens[i]);
      if w == Close && stopAtParen {
        ReadsClose(ws, i, s, all);
        if |current| > 0 {
          outer := outer + [ConditionGroup(any, current)];
        }
        return outer, i + 1;
      }
      if w == Open {
        var inner, n := ParseTokens(tokens[i + 1..], true);
        WordsFrom(tokens, i + 1);
        ghost var read := Read(ws[i + 1..], START, true);
        i := i + n + 1;
        ReadsOpen(ws, i - n - 1, s, stopAtParen, all, read, i);
        outer, negate := AddGroups(outer, negate, inner);
        s := AddInner(s, inner);
        continue;
      }
      i := i + 1;
      ReadsStep(ws, i - 1, s, stopAtParen, all, w, i);
      outer, current, any, negate := TakeWord(w, outer, current, any, negate);
      s := Step(s, w);
    }
    ReadsEnd(ws, s, stopAtParen, all);
    if |current| > 0 {
      outer := outer + [ConditionGroup(any, current)];
    }
    return outer, i;
  }

  // ---- cutting into tokens -----------------------------------------------------

  /** Where a word ends: at a blank or a parenthesis, or, for its field, at a colon too. */
  function RunEnd(s: string, colon: bool): (k: nat)
    ensures k <= |s|
  {
    if s == "" || IsSpace(s[0]) || s[0] == '(' || s[0] == ')' || (colon && s[0] == ':') then 0
    else 1 + RunEnd(s[1..], colon)
  }

  /** A token, and how many characters it took. */
  datatype Lexeme = Lexeme(token: string, length: nat)

  /** The position after a closing c, looked for from `from` on, or the end. */
  function PastClosing(s: string, from: nat, c: char): (k: nat)
    requires from <= |s|
    ensures from <= k <= |s|
  {
    var k := from + IndexOf(s[from..], c);
    if k < |s| then k + 1 else k
  }

  function FirstToken(s: string): (l: Lexeme)
    requires s != "" && !IsSpace(s[0])
    ensures 1 <= l.length <= |s|
  {
    if s[0] == '(' || s[0] == ')' then Lexeme([s[0]], 1)
    else if s[0] == '"' || s[0] == '/' then
      Lexeme([s[0]] + s[1..1 + IndexOf(s[1..], s[0])] + [s[0]], PastClosing(s, 1, s[0]))
    else
      var j := RunEnd(s, true);
      var n := if j + 1 < |s| && s[j] == ':' && s[j + 1] == '"' then PastClosing(s, j + 2, '"') else RunEnd(s, false);
      Lexeme(s[..n], n)
  }

  function Tokens(s: string): seq<string> {
    if s == "" then []
    else if IsSpace(s[0]) then Tokens(s[1..])
    else [FirstToken(s).token] + Tokens(s[FirstToken(s).length..])
  }

  /** The groups of a query as it was typed. */
  function Groups(raw: string): seq<ConditionGroup> { Read(Words(Tokens(Trim(raw))), START, false).0.outer }

  lemma IndexStep(s: string, from: nat, i: nat, c: char)
    requires from <= i < |s| && from + IndexOf(s[from..], c) == i + IndexOf(s[i..], c)
    ensures s[i] == c ==> from + IndexOf(s[from..], c) == i
    ensures s[i] != c ==> from + IndexOf(s[from..], c) == i + 1 + IndexOf(s[i + 1..], c)
  {
    assert s[i..][0] == s[i] && s[i..][1..] == s[i + 1..];
  }

  method FindFrom(s: string, from: nat, c: char) returns (k: nat)
    requires from <= |s|
    ensures k == from + IndexOf(s[from..], c)
  {
    k := from;
    while k < |s| && s[k] != c
      invariant from <= k <= |s| && from + IndexOf(s[from..], c) == k + IndexOf(s[k..], c)
    {
      IndexStep(s, from, k, c);
      k := k + 1;
    }
    if k < |s| {
      IndexStep(s, from, k, c);
    }
  }

  lemma RunStep(s: string, i: nat, colon: bool)
    requires i < |s|
    ensures var stop := IsSpace(s[i]) || s[i] == '(' || s[i] == ')' || (colon && s[i] == ':');
            RunEnd(s[i..], colon) == if stop then 0 else 1 + RunEnd(s[i + 1..], colon)
  {
    assert s[i..][0] == s[i] && s[i..][1..] == s[i + 1..];
  }

  method RunFrom(s: string, colon: bool) returns (k: nat)
    ensures k == RunEnd(s, colon)
  {
    k := 0;
    assert s[0..] == s;
    while k < |s| && !IsSpace(s[k]) && s[k] != '(' && s[k] != ')' && !(colon && s[k] == ':')
      invariant k <= |s| && RunEnd(s, colon) == k + RunEnd(s[k..], colon)
    {
      RunStep(s, k, colon);
      k := k + 1;
    }
    if k < |s| {
      RunStep(s, k, colon);
    }
  }

  /** One round of tokenize's loop, on what is left. */
  method NextToken(rest: string) returns (token: string, length: nat)
    requires rest != "" && !IsSpace(rest[0])
    ensures FirstToken(rest) == Lexeme(token, length)
  {
    match rest[0] {
      case '(' => return "(", 1;
      case ')' => return ")", 1;
      case '"' =>
        var k := FindFrom(rest, 1, '"');
        return "\"" + rest[1..k] + "\"", if k < |rest| then k + 1 else k;
      case '/' =>
        var k := FindFrom(rest, 1, '/');
        return "/" + rest[1..k] + "/", if k < |rest| then k + 1 else k;
      case _ =>
        var j := RunFrom(rest, true);
        if j < |rest| && rest[j] == ':' && j + 1 < |rest| && rest[j + 1] == '"' {
          j := FindFrom(rest, j + 2, '"');
          if j < |rest| {
            j := j + 1;
          }
          return rest[..j], j;
        }
        var k := RunFrom(rest, false);
        return rest[..k], k;
    }
  }

  lemma BlankIsSkipped(q: string, i: nat, next: nat)
    requires i < |q| && IsSpace(q[i]) && next == i + 1
    ensures Tokens(q[i..]) == Tokens(q[next..])
  {
    assert q[i..][0] == q[i] && q[i..][1..] == q[next..];
  }

  lemma TokenIsTaken(q: string, i: nat, l: Lexeme, next: nat)
    requires i < |q| && !IsSpace(q[i]) && l == FirstToken(q[i..]) && next == i + l.length
    ensures next <= |q| && Tokens(q[i..]) == [l.token] + Tokens(q[next..])
  {
    assert q[i..][0] == q[i] && q[i..][l.length..] == q[next..];
  }

  lemma OneMoreToken(tokens: seq<string>, token: string, rest: seq<string>)
    ensures tokens + ([token] + rest) == tokens + [token] + rest
  {
  }

  method Tokenize(q: string) returns (tokens: seq<string>)
    ensures tokens == Tokens(q)
  {
    tokens := [];
    var i := 0;
    assert q[0..] == q;
    while i < |q|
      invariant 0 <= i <= |q| && Tokens(q) == tokens + Tokens(q[i..])
      decreases |q| - i
    {
      if IsSpace(q[i]) {
        i := i + 1;
        BlankIsSkipped(q, i - 1, i);
        continue;
      }
      var token, length := NextToken(q[i..]);
      i := i + length;
      TokenIsTaken(q, i - length, Lexeme(token, length), i);
      OneMoreToken(tokens, token, Tokens(q[i..]));
      tokens := tokens + [token];
    }
  }

  method Parse(raw: string) returns (groups: seq<ConditionGroup>)
    ensures groups == Groups(raw)
  {
    var trimmed := Trim(raw);
    if trimmed == "" { return []; }
    var tokens := Tokenize(trimmed);
    if |tokens| == 0 { return []; }
    var consumed;
    groups, consumed := ParseTokens(tokens, false);
  }

  // ---- what groups say ---------------------------------------------------------

  /** Whether a condition is true of a book. */
  type Truth = FilterCondition -> bool

  predicate GroupHolds(m: Truth, g: ConditionGroup) {
    if g.any then exists c :: c in g.conditions && m(c) else forall c :: c in g.conditions ==> m(c)
  }

  predicate AllHold(m: Truth, gs: seq<ConditionGroup>) { forall i :: 0 <= i < |gs| ==> GroupHolds(m, gs[i]) }

  // ---- what the language promises ----------------------------------------------

  /** A term, or NOT and a term. */
  datatype Literal = Literal(negative: bool, c: FilterCondition)

  /** Terms of which one has to be true. A query is clauses that all have to be. */
  type Alternatives = seq<Literal>

  function Asks(l: Literal): FilterCondition { if l.negative then Not(l.c) else l.c }

  predicate ClauseHolds(m: Truth, clause: Alternatives) { exists i :: 0 <= i < |clause| && m(Asks(clause[i])) }

  predicate QueryHolds(m: Truth, q: seq<Alternatives>) { forall i :: 0 <= i < |q| ==> ClauseHolds(m, q[i]) }

  function LiteralWords(l: Literal): seq<Word> { (if l.negative then [NotWord] else []) + [Term(Some(l.c))] }

  /** The terms with OR between them. */
  function OrWords(clause: Alternatives): seq<Word> {
    if clause == [] then []
    else if |clause| == 1 then LiteralWords(clause[0])
    else LiteralWords(clause[0]) + [OrWord] + OrWords(clause[1..])
  }

  /** A single term as it is, several in parentheses. */
  function ClauseWords(clause: Alternatives): seq<Word> {
    if |clause| == 1 then LiteralWords(clause[0]) else [Open] + OrWords(clause) + [Close]
  }

  function QueryWords(q: seq<Alternatives>): seq<Word> {
    if q == [] then [] else ClauseWords(q[0]) + QueryWords(q[1..])
  }

  function AskedBy(clause: Alternatives): (cs: seq<FilterCondition>)
    ensures |cs| == |clause| && forall i :: 0 <= i < |cs| ==> cs[i] == Asks(clause[i])
  {
    seq(|clause|, i requires 0 <= i < |clause| => Asks(clause[i]))
  }

  // ---- reading it --------------------------------------------------------------

  /** Reading ws from s is reading `rest` from `next`, n words further. */
  ghost predicate LeadsTo(ws: seq<Word>, s: State, rest: seq<Word>, next: State, stop: bool, n: nat) {
    Read(ws, s, stop).0 == Read(rest, next, stop).0 && Read(ws, s, stop).1 == n + Read(rest, next, stop).1
  }

  lemma ReadStep(w: Word, rest: seq<Word>, s: State, stop: bool)
    requires w != Open && !(w == Close && stop)
    ensures LeadsTo([w] + rest, s, rest, Step(s, w), stop, 1)
  {
    assert ([w] + rest)[1..] == rest;
  }

  lemma ReadClose(rest: seq<Word>, s: State)
    ensures Read([Close] + rest, s, true) == (Flush(s), 1)
  {
    assert ([Close] + rest)[0] == Close;
  }

  function Took(s: State, l: Literal): State { s.(current := s.current + [Asks(l)]) }

  lemma ReadLiteral(l: Literal, rest: seq<Word>, s: State, stop: bool)
    requires !s.negate
    ensures LeadsTo(LiteralWords(l) + rest, s, rest, Took(s, l), stop, |LiteralWords(l)|)
  {
    var term := Term(Some(l.c));
    if l.negative {
      assert LiteralWords(l) + rest == [NotWord] + ([term] + rest);
      ReadStep(NotWord, [term] + rest, s, stop);
      ReadStep(term, rest, s.(negate := true), stop);
    } else {
      assert LiteralWords(l) + rest == [term] + rest;
      ReadStep(term, rest, s, stop);
    }
  }

  /** The state after terms with OR between them. */
  function AfterOrs(s: State, clause: Alternatives): State
    decreases |clause|
  {
    if clause == [] then s
    else if |clause| == 1 then Took(s, clause[0])
    else AfterOrs(Took(s, clause[0]).(any := true), clause[1..])
  }

  lemma JoinsEitherWay<T>(a: seq<T>, b: seq<T>, c: seq<T>)
    ensures (a + b) + c == a + (b + c)
  {
  }

  lemma OrWordsStart(clause: Alternatives, rest: seq<Word>)
    requires |clause| > 1
    ensures OrWords(clause) + rest == LiteralWords(clause[0]) + ([OrWord] + (OrWords(clause[1..]) + rest))
    ensures |OrWords(clause)| == |LiteralWords(clause[0])| + 1 + |OrWords(clause[1..])|
  {
    var first, more := LiteralWords(clause[0]), OrWords(clause[1..]);
    JoinsEitherWay(first + [OrWord], more, rest);
    JoinsEitherWay(first, [OrWord], more + rest);
  }

  lemma {:induction false} ReadOrs(clause: Alternatives, rest: seq<Word>, s: State, stop: bool)
    requires !s.negate && clause != []
    ensures LeadsTo(OrWords(clause) + rest, s, rest, AfterOrs(s, clause), stop, |OrWords(clause)|)
    decreases |clause|
  {
    if |clause| == 1 {
      ReadLiteral(clause[0], rest, s, stop);
    } else {
      var more, next := OrWords(clause[1..]) + rest, Took(s, clause[0]);
      OrWordsStart(clause, rest);
      ReadLiteral(clause[0], [OrWord] + more, s, stop);
      ReadStep(OrWord, more, next, stop);
      ReadOrs(clause[1..], rest, next.(any := true), stop);
    }
  }

  lemma AskedByStart(clause: Alternatives)
    requires clause != []
    ensures AskedBy(clause) == [Asks(clause[0])] + AskedBy(clause[1..])
  {
  }

  lemma {:induction false} AfterOrsIs(s: State, clause: Alternatives)
    requires clause != []
    ensures AfterOrs(s, clause) == State(s.outer, s.current + AskedBy(clause), s.any || |clause| > 1, s.negate)
    decreases |clause|
  {
    AskedByStart(clause);
    if |clause| > 1 {
      AfterOrsIs(Took(s, clause[0]).(any := true), clause[1..]);
      JoinsEitherWay(s.current, [Asks(clause[0])], AskedBy(clause[1..]));
    } else {
      assert AskedBy(clause) == [Asks(clause[0])];
    }
  }

  function OrGroup(clause: Alternatives): ConditionGroup { ConditionGroup(|clause| > 1, AskedBy(clause)) }

  lemma ReadInside(clause: Alternatives, rest: seq<Word>)
    requires clause != []
    ensures Read(OrWords(clause) + ([Close] + rest), START, true).0.outer == [OrGroup(clause)]
    ensures Read(OrWords(clause) + ([Close] + rest), START, true).1 == |OrWords(clause)| + 1
  {
    ReadOrs(clause, [Close] + rest, START, true);
    ReadClose(rest, AfterOrs(START, clause));
    AfterOrsIs(START, clause);
    assert [] + AskedBy(clause) == AskedBy(clause) && [] + [OrGroup(clause)] == [OrGroup(clause)];
  }

  lemma ReadParenthesis(clause: Alternatives, rest: seq<Word>, s: State, stop: bool)
    requires clause != []
    ensures Read([Open] + OrWords(clause) + [Close] + rest, s, stop).0
         == Read(rest, AddInner(s, [OrGroup(clause)]), stop).0
  {
    var ws := [Open] + OrWords(clause) + [Close] + rest;
    ReadInside(clause, rest);
    assert ws[0] == Open && ws[1..] == OrWords(clause) + ([Close] + rest);
    assert ws[|OrWords(clause)| + 2..] == rest;
  }

  lemma AddsOneGroup(s: State, g: ConditionGroup)
    requires g.conditions != []
    ensures AddInner(s, [g])
         == s.(outer := s.outer + [if s.negate then g.(conditions := NotAll(g.conditions)) else g], negate := false)
  {
    assert [g][1..] == [];
  }

  /** Between the clauses: what is finished holds, and what is collected does. */
  predicate StateHolds(m: Truth, s: State) {
    AllHold(m, s.outer) && forall i :: 0 <= i < |s.current| ==> m(s.current[i])
  }

  lemma FlushHolds(m: Truth, s: State)
    requires !s.any
    ensures AllHold(m, Flush(s).outer) <==> StateHolds(m, s)
  {
    if s.current != [] {
      OneMoreGroup(m, s.outer, ConditionGroup(false, s.current));
    }
  }

  lemma OneMoreGroup(m: Truth, gs: seq<ConditionGroup>, g: ConditionGroup)
    ensures AllHold(m, gs + [g]) <==> AllHold(m, gs) && GroupHolds(m, g)
  {
    var all := gs + [g];
    assert all[|gs|] == g;
    assert forall i :: 0 <= i < |gs| ==> all[i] == gs[i];
  }

  lemma OrGroupHolds(m: Truth, clause: Alternatives)
    requires clause != []
    ensures GroupHolds(m, OrGroup(clause)) <==> ClauseHolds(m, clause)
  {
    var cs := AskedBy(clause);
    if i :| 0 <= i < |clause| && m(Asks(clause[i])) {
      assert cs[i] in cs;
      assert |clause| == 1 ==> forall c :: c in cs ==> c == cs[0];
    }
    if |clause| == 1 {
      assert cs[0] in cs;
    }
  }

  lemma TookHolds(m: Truth, s: State, l: Literal)
    ensures StateHolds(m, Took(s, l)) <==> StateHolds(m, s) && m(Asks(l))
  {
    var now := Took(s, l).current;
    assert now[|s.current|] == Asks(l);
    assert forall i :: 0 <= i < |s.current| ==> now[i] == s.current[i];
  }

  /** The state after a clause. */
  function After(s: State, clause: Alternatives): State {
    if |clause| == 1 then Took(s, clause[0]) else s.(outer := s.outer + [OrGroup(clause)])
  }

  lemma ClauseIsRead(clause: Alternatives, rest: seq<Word>, s: State)
    requires clause != [] && !s.negate
    ensures Read(ClauseWords(clause) + rest, s, false).0 == Read(rest, After(s, clause), false).0
  {
    if |clause| == 1 {
      ReadLiteral(clause[0], rest, s, false);
    } else {
      ReadParenthesis(clause, rest, s, false);
      AddsOneGroup(s, OrGroup(clause));
    }
  }

  lemma AfterHolds(m: Truth, s: State, clause: Alternatives)
    requires clause != []
    ensures StateHolds(m, After(s, clause)) <==> StateHolds(m, s) && ClauseHolds(m, clause)
  {
    if |clause| == 1 {
      TookHolds(m, s, clause[0]);
    } else {
      OneMoreGroup(m, s.outer, OrGroup(clause));
      OrGroupHolds(m, clause);
    }
  }

  lemma QueryIsFirstAndRest(m: Truth, q: seq<Alternatives>)
    requires q != []
    ensures QueryHolds(m, q) <==> ClauseHolds(m, q[0]) && QueryHolds(m, q[1..])
  {
    assert forall i :: 0 <= i < |q| - 1 ==> q[1..][i] == q[i + 1];
    if ClauseHolds(m, q[0]) && QueryHolds(m, q[1..]) {
      forall i | 0 <= i < |q| ensures ClauseHolds(m, q[i]) {
        assert i > 0 ==> q[i] == q[1..][i - 1];
      }
    }
  }

  lemma {:induction false} ClausesAreRead(m: Truth, q: seq<Alternatives>, s: State)
    requires !s.negate && !s.any && forall i :: 0 <= i < |q| ==> q[i] != []
    ensures AllHold(m, Read(QueryWords(q), s, false).0.outer) <==> StateHolds(m, s) && QueryHolds(m, q)
    decreases |q|
  {
    if q == [] {
      FlushHolds(m, s);
    } else {
      ClauseIsRead(q[0], QueryWords(q[1..]), s);
      AfterHolds(m, s, q[0]);
      ClausesAreRead(m, q[1..], After(s, q[0]));
      QueryIsFirstAndRest(m, q);
    }
  }

  // ---- writing it --------------------------------------------------------------

  function FieldName(c: FilterCondition): string {
    match c.field
    case OnTitle => "title"
    case OnType => "type"
    case OnTag => "tag"
    case OnContributor => "contributor"
    case OnGenre => "genre"
    case OnSeries => "series"
    case OnShelf => "shelf"
    case OnPublisher => "publisher"
    case OnLanguage => "language"
    case OnLetter => "letter"
    case _ => ""
  }

  /** What a term can ask for: a value that does not contain what closes it. */
  predicate Writable(c: FilterCondition) {
    match (c.field, c.op)
    case (OnTitle, Phrase) => c.value != "" && '"' !in c.value
    case (OnTitle, Regex) => c.value != "" && '/' !in c.value
    case (OnTitle, Contains) => '"' !in c.value
    case (OnContributor, Contains) => '"' !in c.value
    case (OnCover, Equals) => c.value == ""
    case (_, Equals) => c.field != OnTitle && c.field != OnContributor && c.field != OtherField && '"' !in c.value
    case _ => false
  }

  /** "phrase", /pattern/, has:cover, or field:"value". */
  function Written(c: FilterCondition): string {
    if c.op == Phrase then "\"" + c.value + "\""
    else if c.op == Regex then "/" + c.value + "/"
    else if c.field == OnCover then "has:cover"
    else FieldName(c) + ":\"" + c.value + "\""
  }

  function LiteralTokens(l: Literal): seq<string> { (if l.negative then ["NOT"] else []) + [Written(l.c)] }

  function OrTokens(clause: Alternatives): seq<string> {
    if clause == [] then []
    else if |clause| == 1 then LiteralTokens(clause[0])
    else LiteralTokens(clause[0]) + ["OR"] + OrTokens(clause[1..])
  }

  function ClauseTokens(clause: Alternatives): seq<string> {
    if |clause| == 1 then LiteralTokens(clause[0]) else ["("] + OrTokens(clause) + [")"]
  }

  function QueryTokens(q: seq<Alternatives>): seq<string> {
    if q == [] then [] else ClauseTokens(q[0]) + QueryTokens(q[1..])
  }

  /** With a blank between each two. */
  function Spaced(tokens: seq<string>): string {
    if tokens == [] then "" else if |tokens| == 1 then tokens[0] else tokens[0] + " " + Spaced(tokens[1..])
  }

  // ---- a token is cut where it ends --------------------------------------------

  /** Before a blank or at the end, the token is cut off whole. */
  ghost predicate CutWhole(token: string) {
    && Neat(token)
    && forall rest :: rest == "" || rest[0] == ' ' ==> FirstToken(token + rest) == Lexeme(token, |token|)
  }

  lemma FirstIsCut(token: string, rest: string)
    requires CutWhole(token) && (rest == "" || rest[0] == ' ')
    ensures Tokens(token + rest) == [token] + Tokens(rest)
  {
    assert (token + rest)[0] == token[0] && (token + rest)[|token|..] == rest;
  }

  lemma BlankIsGone(s: string)
    ensures Tokens(" " + s) == Tokens(s)
  {
    assert (" " + s)[1..] == s;
  }

  ghost predicate AllCutWhole(tokens: seq<string>) { forall i :: 0 <= i < |tokens| ==> CutWhole(tokens[i]) }

  lemma SpacedStart(tokens: seq<string>)
    requires |tokens| > 1 && AllCutWhole(tokens)
    ensures Spaced(tokens) == tokens[0] + (" " + Spaced(tokens[1..]))
    ensures CutWhole(tokens[0]) && AllCutWhole(tokens[1..])
  {
    JoinsEitherWay(tokens[0], " ", Spaced(tokens[1..]));
    forall i | 0 <= i < |tokens| - 1 ensures CutWhole(tokens[1..][i]) {
      assert tokens[1..][i] == tokens[i + 1];
    }
  }

  lemma {:induction false} SpacedIsCut(tokens: seq<string>)
    requires AllCutWhole(tokens)
    ensures Tokens(Spaced(tokens)) == tokens
    decreases |tokens|
  {
    if |tokens| == 1 {
      FirstIsCut(tokens[0], "");
      assert tokens[0] + "" == tokens[0] && tokens == [tokens[0]];
    } else if |tokens| > 1 {
      SpacedStart(tokens);
      SpacedIsCut(tokens[1..]);
      FirstIsCut(tokens[0], " " + Spaced(tokens[1..]));
      BlankIsGone(Spaced(tokens[1..]));
    }
  }

  lemma {:induction false} IndexIs(s: string, c: char, k: nat)
    requires k <= |s| && c !in s[..k] && (k < |s| ==> s[k] == c)
    ensures IndexOf(s, c) == k
  {
    if k > 0 {
      assert s[0] in s[..k] && s[1..][..k - 1] == s[..k][1..];
      IndexIs(s[1..], c, k - 1);
    }
  }

  /** "text" and /text/. */
  lemma QuotedIsCut(c: char, text: string)
    requires (c == '"' || c == '/') && c !in text
    ensures CutWhole([c] + text + [c])
  {
    var token := [c] + text + [c];
    forall rest ensures FirstToken(token + rest) == Lexeme(token, |token|) {
      var s := token + rest;
      assert s[1..][..|text|] == text;
      IndexIs(s[1..], c, |text|);
      assert s[1..1 + |text|] == text;
    }
  }

  predicate Stops(c: char, colon: bool) { IsSpace(c) || c == '(' || c == ')' || (colon && c == ':') }

  lemma {:induction false} RunIs(s: string, colon: bool, k: nat)
    requires k <= |s| && (forall i :: 0 <= i < k ==> !Stops(s[i], colon)) && (k < |s| ==> Stops(s[k], colon))
    ensures RunEnd(s, colon) == k
  {
    if k > 0 {
      RunIs(s[1..], colon, k - 1);
    }
  }

  /** A word that is nothing else. */
  predicate Plain(token: string) {
    && token != "" && token[0] != '"' && token[0] != '/'
    && forall i :: 0 <= i < |token| ==> !Stops(token[i], true)
  }

  lemma PlainIsCut(token: string)
    requires Plain(token)
    ensures CutWhole(token)
  {
    forall rest | rest == "" || rest[0] == ' ' ensures FirstToken(token + rest) == Lexeme(token, |token|) {
      var s := token + rest;
      assert s[0] == token[0] && !Stops(token[0], true);
      assert rest != "" ==> s[|token|] == ' ';
      RunIs(s, true, |token|);
      RunIs(s, false, |token|);
      assert s[..|token|] == token;
    }
  }

  /** field:"value". */
  lemma FieldIsCut(field: string, value: string)
    requires Plain(field) && '"' !in value
    ensures CutWhole(field + ":\"" + value + "\"")
  {
    var token, n := field + ":\"" + value + "\"", |field|;
    forall rest ensures FirstToken(token + rest) == Lexeme(token, |token|) {
      var s := token + rest;
      assert s[0] == field[0] && !Stops(field[0], true);
      assert s[n] == ':' && s[n + 1] == '"' && forall i :: 0 <= i < n ==> s[i] == field[i];
      RunIs(s, true, n);
      assert s[n + 2..][..|value|] == value && s[n + 2..][|value|] == '"';
      IndexIs(s[n + 2..], '"', |value|);
      assert s[..|token|] == token;
    }
  }

  /** field:word. */
  lemma FieldWordIsCut(field: string, word: string)
    requires Plain(field) && Plain(word)
    ensures CutWhole(field + ":" + word)
  {
    var token, n := field + ":" + word, |field|;
    forall rest | rest == "" || rest[0] == ' ' ensures FirstToken(token + rest) == Lexeme(token, |token|) {
      var s := token + rest;
      assert s[0] == field[0] && !Stops(field[0], true);
      assert s[n] == ':' && s[n + 1] == word[0] && forall i :: 0 <= i < n ==> s[i] == field[i];
      RunIs(s, true, n);
      assert forall i :: n < i < |token| ==> s[i] == word[i - n - 1] && !Stops(word[i - n - 1], true);
      assert rest != "" ==> s[|token|] == ' ';
      RunIs(s, false, |token|);
      assert s[..|token|] == token;
    }
  }

  // ---- a token is read as what was written -------------------------------------

  /** A colon, a quote or a slash anywhere, and it is neither a parenthesis nor a keyword. */
  lemma MarkedIsATerm(token: string, i: nat)
    requires i < |token| && token[i] in {':', '"', '/'}
    ensures WordOf(token) == Term(TermOf(token))
  {
    assert Lowercase(token)[i] == token[i];
    var keywords := ["not", "and", "or"];
    assert forall k, j :: 0 <= k < 3 && 0 <= j < |keywords[k]| ==> keywords[k][j] != token[i];
    assert keywords[0] == "not" && keywords[1] == "and" && keywords[2] == "or";
  }

  /** Keywords are keywords in small letters and in capitals. */
  lemma KeywordsInAnyCase(token: string)
    ensures Lowercase(token) == "not" ==> WordOf(token) == NotWord
    ensures Lowercase(token) == "and" ==> WordOf(token) == AndWord
    ensures Lowercase(token) == "or" ==> WordOf(token) == OrWord
  {
    assert |Lowercase(token)| == |token|;
  }

  /** The other names of fields, and what is no field: the title is searched for it, colon
      and all. */
  lemma OtherPrefixes(prefix: string, value: string)
    ensures FieldCondition("author", value) == FieldCondition("contributor", value)
    ensures FieldCondition("media_type", value) == FieldCondition("type", value)
    ensures FieldCondition("isbn", value) == FieldCondition("title", value)
    ensures prefix !in ["type", "media_type", "tag", "genre", "contributor", "author", "title", "isbn", "letter",
                        "series", "shelf", "publisher", "language", "has"] ==>
              FieldCondition(prefix, value) == Some(FilterCondition(OnTitle, Contains, prefix + ":" + value))
  {
  }

  /** A quote that is not closed runs to the end. */
  lemma UnclosedRunsOn(c: char, text: string)
    requires (c == '"' || c == '/') && c !in text
    ensures Tokens([c] + text) == [[c] + text + [c]]
  {
    var s := [c] + text;
    assert s[1..] == text;
    IndexIs(text, c, |text|);
    assert s[1..1 + |text|] == text && s[|s|..] == "";
  }

  lemma QuotedIsRead(c: char, text: string)
    requires (c == '"' || c == '/') && text != ""
    ensures TermOf([c] + text + [c]) == Some(FilterCondition(OnTitle, if c == '"' then Phrase else Regex, text))
  {
    var token := [c] + text + [c];
    assert Inside(token) == text;
  }

  /** Small letters only. */
  predicate Small(s: string) { s != "" && forall i :: 0 <= i < |s| ==> 'a' <= s[i] <= 'z' }

  lemma SmallIsPlain(s: string)
    requires Small(s)
    ensures Plain(s) && Lowercase(s) == s && ':' !in s
  {
  }

  lemma FieldIsRead(field: string, value: string)
    requires Small(field)
    ensures TermOf(field + ":\"" + value + "\"") == FieldCondition(field, value)
  {
    var token, n := field + ":\"" + value + "\"", |field|;
    SmallIsPlain(field);
    assert token[..n] == field && token[n] == ':' && token[0] == field[0];
    IndexIs(token, ':', n);
    assert token[n + 1..] == "\"" + value + "\"";
    assert Inside(token[n + 1..]) == value;
  }

  lemma FieldWordIsRead(field: string, word: string)
    requires Small(field) && Small(word)
    ensures TermOf(field + ":" + word) == FieldCondition(field, word)
  {
    var token, n := field + ":" + word, |field|;
    SmallIsPlain(field);
    SmallIsPlain(word);
    assert token[..n] == field && token[n] == ':' && token[0] == field[0];
    IndexIs(token, ':', n);
    assert token[n + 1..] == word;
  }

  lemma FieldNamesAreRead(c: FilterCondition)
    requires Writable(c) && c.op != Phrase && c.op != Regex && c.field != OnCover
    ensures Small(FieldName(c)) && FieldCondition(FieldName(c), c.value) == Some(c)
  {
  }

  lemma MarkedIsWritten(c: FilterCondition)
    requires Writable(c) && (c.op == Phrase || c.op == Regex)
    ensures CutWhole(Written(c)) && WordOf(Written(c)) == Term(Some(c))
  {
    var mark := if c.op == Phrase then '"' else '/';
    assert Written(c) == [mark] + c.value + [mark];
    QuotedIsCut(mark, c.value);
    QuotedIsRead(mark, c.value);
    MarkedIsATerm(Written(c), 0);
  }

  lemma FieldWordIsWritten(field: string, word: string, c: FilterCondition)
    requires Small(field) && Small(word) && FieldCondition(field, word) == Some(c)
    ensures CutWhole(field + ":" + word) && WordOf(field + ":" + word) == Term(Some(c))
  {
    SmallIsPlain(field);
    SmallIsPlain(word);
    FieldWordIsCut(field, word);
    FieldWordIsRead(field, word);
    assert (field + ":" + word)[|field|] == ':';
    MarkedIsATerm(field + ":" + word, |field|);
  }

  lemma CoverIsSmall()
    ensures Small("has") && Small("cover") && "has" + ":" + "cover" == "has:cover"
    ensures FieldCondition("has", "cover") == Some(FilterCondition(OnCover, Equals, ""))
  {
    SmallIsPlain("cover");
  }

  lemma CoverIsWritten()
    ensures CutWhole("has:cover") && WordOf("has:cover") == Term(Some(FilterCondition(OnCover, Equals, "")))
  {
    CoverIsSmall();
    FieldWordIsWritten("has", "cover", FilterCondition(OnCover, Equals, ""));
  }

  lemma FieldIsWritten(c: FilterCondition, field: string)
    requires Small(field) && FieldCondition(field, c.value) == Some(c) && '"' !in c.value
    ensures CutWhole(field + ":\"" + c.value + "\"") && WordOf(field + ":\"" + c.value + "\"") == Term(Some(c))
  {
    SmallIsPlain(field);
    FieldIsCut(field, c.value);
    FieldIsRead(field, c.value);
    assert (field + ":\"" + c.value + "\"")[|field|] == ':';
    MarkedIsATerm(field + ":\"" + c.value + "\"", |field|);
  }

  /** Whatever can be written is cut off whole and read as what it was. */
  lemma WrittenIsRead(c: FilterCondition)
    requires Writable(c)
    ensures CutWhole(Written(c)) && WordOf(Written(c)) == Term(Some(c))
  {
    if c.op == Phrase || c.op == Regex {
      MarkedIsWritten(c);
    } else if c.field == OnCover {
      CoverIsWritten();
    } else {
      FieldNamesAreRead(c);
      FieldIsWritten(c, FieldName(c));
    }
  }

  ghost predicate AllWritable(q: seq<Alternatives>) {
    forall i, j :: 0 <= i < |q| && 0 <= j < |q[i]| ==> Writable(q[i][j].c)
  }

  ghost predicate ClauseWritable(clause: Alternatives) { forall j :: 0 <= j < |clause| ==> Writable(clause[j].c) }

  lemma SignsAreRead()
    ensures CutWhole("(") && CutWhole(")") && CutWhole("NOT") && CutWhole("OR")
    ensures WordOf("(") == Open && WordOf(")") == Close && WordOf("NOT") == NotWord && WordOf("OR") == OrWord
  {
    forall rest ensures FirstToken("(" + rest) == Lexeme("(", 1) && FirstToken(")" + rest) == Lexeme(")", 1) {
    }
    PlainIsCut("NOT");
    PlainIsCut("OR");
    assert Lowercase("NOT") == "not" && Lowercase("OR") == "or";
  }

  lemma WordsJoin(a: seq<string>, b: seq<string>)
    ensures Words(a + b) == Words(a) + Words(b)
  {
  }

  lemma CutsJoin(a: seq<string>, b: seq<string>)
    requires AllCutWhole(a) && AllCutWhole(b)
    ensures AllCutWhole(a + b)
  {
    forall i | 0 <= i < |a + b| ensures CutWhole((a + b)[i]) {
      assert (a + b)[i] == if i < |a| then a[i] else b[i - |a|];
    }
  }

  lemma ReadJoins(a: seq<string>, b: seq<string>)
    requires AllCutWhole(a) && AllCutWhole(b)
    ensures Words(a + b) == Words(a) + Words(b) && AllCutWhole(a + b)
  {
    WordsJoin(a, b);
    CutsJoin(a, b);
  }

  lemma LiteralIsRead(l: Literal)
    requires Writable(l.c)
    ensures AllCutWhole(LiteralTokens(l)) && Words(LiteralTokens(l)) == LiteralWords(l)
  {
    WrittenIsRead(l.c);
    SignsAreRead();
  }

  lemma {:induction false} OrsAreRead(clause: Alternatives)
    requires ClauseWritable(clause)
    ensures AllCutWhole(OrTokens(clause)) && Words(OrTokens(clause)) == OrWords(clause)
    decreases |clause|
  {
    if clause != [] {
      LiteralIsRead(clause[0]);
      if |clause| > 1 {
        var first, more := LiteralTokens(clause[0]), OrTokens(clause[1..]);
        SignsAreRead();
        OrsAreRead(clause[1..]);
        ReadJoins(first, ["OR"]);
        ReadJoins(first + ["OR"], more);
        assert Words(["OR"]) == [OrWord];
      }
    }
  }

  lemma ClauseTokensAreRead(clause: Alternatives)
    requires ClauseWritable(clause) && clause != []
    ensures AllCutWhole(ClauseTokens(clause)) && Words(ClauseTokens(clause)) == ClauseWords(clause)
  {
    if |clause| == 1 {
      LiteralIsRead(clause[0]);
    } else {
      SignsAreRead();
      OrsAreRead(clause);
      ReadJoins(["("], OrTokens(clause));
      ReadJoins(["("] + OrTokens(clause), [")"]);
      assert Words(["("]) == [Open] && Words([")"]) == [Close];
    }
  }

  lemma {:induction false} QueryTokensAreRead(q: seq<Alternatives>)
    requires AllWritable(q) && forall i :: 0 <= i < |q| ==> q[i] != []
    ensures AllCutWhole(QueryTokens(q)) && Words(QueryTokens(q)) == QueryWords(q)
    decreases |q|
  {
    if q != [] {
      assert ClauseWritable(q[0]);
      ClauseTokensAreRead(q[0]);
      QueryTokensAreRead(q[1..]);
      ReadJoins(ClauseTokens(q[0]), QueryTokens(q[1..]));
    }
  }

  lemma NeatSpaced(s: string, t: string)
    requires Neat(s) && Neat(t)
    ensures Neat(s + " " + t)
  {
  }

  lemma {:induction false} SpacedIsNeat(tokens: seq<string>)
    requires AllCutWhole(tokens) && tokens != []
    ensures Neat(Spaced(tokens))
    decreases |tokens|
  {
    if |tokens| > 1 {
      SpacedIsNeat(tokens[1..]);
      NeatSpaced(tokens[0], Spaced(tokens[1..]));
    }
  }

  lemma SpacedIsParsed(tokens: seq<string>)
    requires AllCutWhole(tokens)
    ensures Groups(Spaced(tokens)) == Read(Words(tokens), START, false).0.outer
  {
    SpacedIsCut(tokens);
    if tokens != [] {
      SpacedIsNeat(tokens);
      TrimIsNeat(Spaced(tokens));
    }
  }

  /** The language keeps its promise: a query of terms, negated terms and alternatives in
      parentheses, typed with whatever values, is parsed into groups that are true of just
      what the query says, whatever the terms are true of. */
  lemma QueriesMeanWhatTheySay(m: Truth, q: seq<Alternatives>)
    requires AllWritable(q) && forall i :: 0 <= i < |q| ==> q[i] != []
    ensures AllHold(m, Groups(Spaced(QueryTokens(q)))) <==> QueryHolds(m, q)
  {
    QueryTokensAreRead(q);
    SpacedIsParsed(QueryTokens(q));
    ClausesAreRead(m, q, START);
  }

  // The groups ask nothing but what the query does.

  predicate GroupsAsk(p: Truth, gs: seq<ConditionGroup>) {
    forall i :: 0 <= i < |gs| ==>
      gs[i].conditions != [] && forall j :: 0 <= j < |gs[i].conditions| ==> p(gs[i].conditions[j])
  }

  predicate StateAsks(p: Truth, s: State) {
    GroupsAsk(p, s.outer) && forall j :: 0 <= j < |s.current| ==> p(s.current[j])
  }

  lemma {:induction false} ClausesAsk(p: Truth, q: seq<Alternatives>, s: State)
    requires !s.negate && StateAsks(p, s) && forall i :: 0 <= i < |q| ==> q[i] != []
    requires forall i, j :: 0 <= i < |q| && 0 <= j < |q[i]| ==> p(Asks(q[i][j]))
    ensures GroupsAsk(p, Read(QueryWords(q), s, false).0.outer)
    decreases |q|
  {
    if q != [] {
      ClauseIsRead(q[0], QueryWords(q[1..]), s);
      AfterAsks(p, s, q[0]);
      assert forall i :: 0 <= i < |q| - 1 ==> q[1..][i] == q[i + 1];
      ClausesAsk(p, q[1..], After(s, q[0]));
    }
  }

  lemma AfterAsks(p: Truth, s: State, clause: Alternatives)
    requires StateAsks(p, s) && clause != [] && forall j :: 0 <= j < |clause| ==> p(Asks(clause[j]))
    ensures StateAsks(p, After(s, clause))
  {
  }

  lemma QueriesAskTheirTerms(p: Truth, q: seq<Alternatives>)
    requires AllWritable(q) && forall i :: 0 <= i < |q| ==> q[i] != []
    requires forall i, j :: 0 <= i < |q| && 0 <= j < |q[i]| ==> p(Asks(q[i][j]))
    ensures GroupsAsk(p, Groups(Spaced(QueryTokens(q))))
  {
    QueryTokensAreRead(q);
    SpacedIsParsed(QueryTokens(q));
    ClausesAsk(p, q, START);
  }

  // ---- words alone -------------------------------------------------------------

  function Titles(words: seq<string>): (cs: seq<FilterCondition>)
    ensures |cs| == |words|
  {
    if words == [] then []
    else Titles(words[..|words| - 1]) + [FilterCondition(OnTitle, Contains, words[|words| - 1])]
  }

  predicate Keyword(s: string) { Lowercase(s) in ["not", "and", "or"] }

  lemma PlainIsAWord(token: string)
    requires Plain(token) && !Keyword(token)
    ensures WordOf(token) == Term(Some(FilterCondition(OnTitle, Contains, token)))
  {
    IndexIs(token, ':', |token|);
    assert !Stops(token[0], true);
  }

  lemma {:induction false} ReadWords(words: seq<string>, done: nat)
    requires done <= |words| && forall i :: 0 <= i < |words| ==> Plain(words[i]) && !Keyword(words[i])
    ensures Read(Words(words[done..]), State([], Titles(words[..done]), false, false), false).0
         == Flush(State([], Titles(words), false, false))
    decreases |words| - done
  {
    if done == |words| {
      assert words[..done] == words;
    } else {
      var c, now := FilterCondition(OnTitle, Contains, words[done]), State([], Titles(words[..done]), false, false);
      PlainIsAWord(words[done]);
      assert Words(words[done..]) == [Term(Some(c))] + Words(words[done + 1..]);
      ReadStep(Term(Some(c)), Words(words[done + 1..]), now, false);
      assert words[..done + 1][..done] == words[..done];
      ReadWords(words, done + 1);
    }
  }

  /** Words alone make one group of words of the title, all of which have to be found. */
  lemma WordsMakeOneGroup(words: seq<string>)
    requires forall i :: 0 <= i < |words| ==> Plain(words[i]) && !Keyword(words[i])
    ensures Groups(Spaced(words)) == if words == [] then [] else [ConditionGroup(false, Titles(words))]
  {
    forall i | 0 <= i < |words| ensures CutWhole(words[i]) {
      PlainIsCut(words[i]);
    }
    SpacedIsParsed(words);
    WordsOnly(words);
  }

  lemma WordsOnly(words: seq<string>)
    requires forall i :: 0 <= i < |words| ==> Plain(words[i]) && !Keyword(words[i])
    ensures Read(Words(words), START, false).0.outer
         == if words == [] then [] else [ConditionGroup(false, Titles(words))]
  {
    ReadWords(words, 0);
    assert words[0..] == words && Titles(words[..0]) == [];
    OneGroupAlone(ConditionGroup(false, Titles(words)));
  }

  lemma OneGroupAlone(g: ConditionGroup)
    ensures [] + [g] == [g]
  {
  }

  // ---- what it does not promise ------------------------------------------------

  // OR without parentheses.

  /** Terms in a row; `ors` says between which of them an OR stands. */
  function RowWords(row: Alternatives, ors: seq<bool>): seq<Word>
    requires row != [] && |ors| == |row| - 1
    decreases |row|
  {
    if |row| == 1 then LiteralWords(row[0])
    else LiteralWords(row[0]) + ((if ors[0] then [OrWord] else []) + RowWords(row[1..], ors[1..]))
  }

  /** The state after a row. */
  function AfterRow(s: State, row: Alternatives, ors: seq<bool>): State {
    State(s.outer, s.current + AskedBy(row), s.any || true in ors, false)
  }

  lemma AfterRowStart(s: State, row: Alternatives, ors: seq<bool>)
    requires |row| > 1 && |ors| == |row| - 1 && !s.negate
    ensures AfterRow(s, row, ors) == AfterRow(Took(s, row[0]).(any := s.any || ors[0]), row[1..], ors[1..])
  {
    AskedByStart(row);
    JoinsEitherWay(s.current, [Asks(row[0])], AskedBy(row[1..]));
    assert ors == [ors[0]] + ors[1..];
  }

  lemma {:induction false} ReadRow(row: Alternatives, ors: seq<bool>, rest: seq<Word>, s: State)
    requires row != [] && |ors| == |row| - 1 && !s.negate
    ensures Read(RowWords(row, ors) + rest, s, false).0 == Read(rest, AfterRow(s, row, ors), false).0
    decreases |row|
  {
    if |row| == 1 {
      ReadLiteral(row[0], rest, s, false);
      assert AskedBy(row) == [Asks(row[0])];
    } else {
      var first, more, next := LiteralWords(row[0]), RowWords(row[1..], ors[1..]), Took(s, row[0]);
      AfterRowStart(s, row, ors);
      ReadRow(row[1..], ors[1..], rest, next.(any := s.any || ors[0]));
      if ors[0] {
        JoinsEitherWay(first, [OrWord] + more, rest);
        JoinsEitherWay([OrWord], more, rest);
        ReadLiteral(row[0], [OrWord] + (more + rest), s, false);
        ReadStep(OrWord, more + rest, next, false);
      } else {
        assert [] + more == more;
        JoinsEitherWay(first, more, rest);
        ReadLiteral(row[0], more + rest, s, false);
      }
    }
  }

  /** The row with AND binding closer than OR, as one reads it: of the stretches without OR
      in them one has to be true throughout. `sofar` is what the stretch has been. */
  predicate AsOneReadsIt(m: Truth, row: Alternatives, ors: seq<bool>, sofar: bool)
    requires row != [] && |ors| == |row| - 1
    decreases |row|
  {
    var now := sofar && m(Asks(row[0]));
    if |row| == 1 then now
    else if ors[0] then now || AsOneReadsIt(m, row[1..], ors[1..], true)
    else AsOneReadsIt(m, row[1..], ors[1..], now)
  }

  function RowGroup(row: Alternatives, ors: seq<bool>): ConditionGroup { ConditionGroup(true in ors, AskedBy(row)) }

  lemma {:induction false} AllOredAsRead(m: Truth, row: Alternatives, ors: seq<bool>)
    requires row != [] && |ors| == |row| - 1 && false !in ors
    ensures AsOneReadsIt(m, row, ors, true) <==> ClauseHolds(m, row)
    decreases |row|
  {
    if |row| > 1 {
      assert ors[0] in ors;
      AllOredAsRead(m, row[1..], ors[1..]);
      assert forall i :: 0 <= i < |row| - 1 ==> row[1..][i] == row[i + 1];
      if i :| 0 <= i < |row| && m(Asks(row[i])) {
        assert i > 0 ==> row[1..][i - 1] == row[i];
      }
    }
  }

  lemma {:induction false} NoneOredAsRead(m: Truth, row: Alternatives, ors: seq<bool>, sofar: bool)
    requires row != [] && |ors| == |row| - 1 && true !in ors
    ensures AsOneReadsIt(m, row, ors, sofar) <==> sofar && forall i :: 0 <= i < |row| ==> m(Asks(row[i]))
    decreases |row|
  {
    if |row| > 1 {
      assert ors[0] in ors;
      NoneOredAsRead(m, row[1..], ors[1..], sofar && m(Asks(row[0])));
      assert forall i :: 0 <= i < |row| - 1 ==> row[1..][i] == row[i + 1];
      if sofar && m(Asks(row[0])) && forall i :: 0 <= i < |row| - 1 ==> m(Asks(row[1..][i])) {
        forall i | 0 <= i < |row| ensures m(Asks(row[i])) {
          assert i > 0 ==> row[i] == row[1..][i - 1];
        }
      }
    }
  }

  lemma {:induction false} NothingTrueAsRead(m: Truth, row: Alternatives, ors: seq<bool>, sofar: bool)
    requires row != [] && |ors| == |row| - 1 && forall i :: 0 <= i < |row| ==> !m(Asks(row[i]))
    ensures !AsOneReadsIt(m, row, ors, sofar)
    decreases |row|
  {
    if |row| > 1 {
      assert forall i :: 0 <= i < |row| - 1 ==> row[1..][i] == row[i + 1];
      NothingTrueAsRead(m, row[1..], ors[1..], true);
      NothingTrueAsRead(m, row[1..], ors[1..], false);
    }
  }

  /** Where a term stands next to another without OR, it alone being true is not enough. */
  lemma {:induction false} NeighbourAsRead(m: Truth, row: Alternatives, ors: seq<bool>, sofar: bool, k: nat)
    requires row != [] && |ors| == |row| - 1 && k < |ors| && !ors[k]
    requires forall i :: 0 <= i < |row| && i != k ==> !m(Asks(row[i]))
    ensures !AsOneReadsIt(m, row, ors, sofar)
    decreases |row|
  {
    assert forall i :: 0 <= i < |row| - 1 ==> row[1..][i] == row[i + 1];
    if k == 0 {
      NothingTrueAsRead(m, row[1..], ors[1..], sofar && m(Asks(row[0])));
    } else {
      NeighbourAsRead(m, row[1..], ors[1..], true, k - 1);
      NeighbourAsRead(m, row[1..], ors[1..], false, k - 1);
    }
  }

  lemma RowGroupHolds(m: Truth, row: Alternatives, ors: seq<bool>)
    ensures GroupHolds(m, RowGroup(row, ors))
       <==> if true in ors then ClauseHolds(m, row) else forall i :: 0 <= i < |row| ==> m(Asks(row[i]))
  {
    var cs := AskedBy(row);
    assert forall i :: 0 <= i < |row| ==> cs[i] in cs && cs[i] == Asks(row[i]);
  }

  lemma EmptyRest(ws: seq<Word>)
    ensures ws + [] == ws
  {
  }

  lemma RowFlushed(row: Alternatives, ors: seq<bool>, outer: seq<ConditionGroup>)
    requires row != []
    ensures Flush(AfterRow(State(outer, [], false, false), row, ors)).outer == outer + [RowGroup(row, ors)]
  {
    assert [] + AskedBy(row) == AskedBy(row);
  }

  /** A row of terms is one group: of alternatives, if there is an OR in it anywhere. */
  lemma RowIsOneGroup(row: Alternatives, ors: seq<bool>)
    requires row != [] && |ors| == |row| - 1
    ensures Read(RowWords(row, ors), START, false).0.outer == [RowGroup(row, ors)]
  {
    ReadRow(row, ors, [], START);
    EmptyRest(RowWords(row, ors));
    RowFlushed(row, ors, []);
    OneGroupAlone(RowGroup(row, ors));
  }

  /** An AND ends the row; what follows is a group of its own. */
  lemma AndSeparates(a: Alternatives, ors: seq<bool>, b: Alternatives, ors': seq<bool>)
    requires a != [] && b != [] && |ors| == |a| - 1 && |ors'| == |b| - 1
    ensures Read(RowWords(a, ors) + ([AndWord] + RowWords(b, ors')), START, false).0.outer
         == [RowGroup(a, ors), RowGroup(b, ors')]
  {
    var s, next := AfterRow(START, a, ors), State([RowGroup(a, ors)], [], false, false);
    ReadRow(a, ors, [AndWord] + RowWords(b, ors'), START);
    ReadStep(AndWord, RowWords(b, ors'), s, false);
    RowFlushed(a, ors, []);
    OneGroupAlone(RowGroup(a, ors));
    assert Step(s, AndWord) == next;
    ReadRow(b, ors', [], next);
    EmptyRest(RowWords(b, ors'));
    RowFlushed(b, ors', next.outer);
    assert next.outer + [RowGroup(b, ors')] == [RowGroup(a, ors), RowGroup(b, ors')];
  }

  // Whatever stands outside parentheses, an AND cuts it from what follows, stray ORs and
  // all, unless a NOT still waits for its term.

  predicate Flat(ws: seq<Word>) { forall i :: 0 <= i < |ws| ==> ws[i] != Open && ws[i] != Close }

  /** Each NOT has had a term to negate. */
  predicate NothingWaits(ws: seq<Word>) {
    forall i :: 0 <= i < |ws| && ws[i] == NotWord ==> exists j :: i < j < |ws| && ws[j].Term? && ws[j].c.Some?
  }

  function Steps(s: State, ws: seq<Word>): State {
    if ws == [] then s else Step(Steps(s, ws[..|ws| - 1]), ws[|ws| - 1])
  }

  lemma {:induction false} ReadFlat(ws: seq<Word>, rest: seq<Word>, s: State)
    requires Flat(ws)
    ensures Read(ws + rest, s, false).0 == Read(rest, Steps(s, ws), false).0
    decreases |ws|
  {
    if ws == [] {
      assert ws + rest == rest;
    } else {
      var front, last := ws[..|ws| - 1], ws[|ws| - 1];
      ReadFlat(front, [last] + rest, s);
      assert front + ([last] + rest) == ws + rest;
      ReadStep(last, rest, Steps(s, front), false);
    }
  }

  /** With other groups in front. */
  function Behind(o: seq<ConditionGroup>, s: State): State { s.(outer := o + s.outer) }

  lemma {:induction false} AddInnerBehind(o: seq<ConditionGroup>, s: State, inner: seq<ConditionGroup>)
    ensures AddInner(Behind(o, s), inner) == Behind(o, AddInner(s, inner))
    decreases |inner|
  {
    if inner != [] {
      var g := inner[0];
      if g.conditions == [] {
        AddInnerBehind(o, s, inner[1..]);
      } else {
        var added := if s.negate then g.(conditions := NotAll(g.conditions)) else g;
        JoinsEitherWay(o, s.outer, [added]);
        AddInnerBehind(o, s.(outer := s.outer + [added], negate := false), inner[1..]);
      }
    }
  }

  lemma FlushBehind(o: seq<ConditionGroup>, s: State)
    ensures Flush(Behind(o, s)) == Behind(o, Flush(s))
  {
    JoinsEitherWay(o, s.outer, [ConditionGroup(s.any, s.current)]);
  }

  lemma StepBehind(o: seq<ConditionGroup>, s: State, w: Word)
    ensures Step(Behind(o, s), w) == Behind(o, Step(s, w))
  {
    FlushBehind(o, s);
  }

  lemma {:induction false} ReadBehind(o: seq<ConditionGroup>, ws: seq<Word>, s: State, stop: bool)
    ensures Read(ws, Behind(o, s), stop).0 == Behind(o, Read(ws, s, stop).0)
    decreases |ws|
  {
    if ws == [] || (ws[0] == Close && stop) {
      FlushBehind(o, s);
    } else if ws[0] == Open {
      var inner := Read(ws[1..], START, true);
      AddInnerBehind(o, s, inner.0.outer);
      ReadBehind(o, ws[inner.1 + 1..], AddInner(s, inner.0.outer), stop);
    } else {
      StepBehind(o, s, ws[0]);
      ReadBehind(o, ws[1..], Step(s, ws[0]), stop);
    }
  }

  lemma {:induction false} NegateWaits(ws: seq<Word>)
    requires Steps(START, ws).negate
    ensures exists i :: 0 <= i < |ws| && ws[i] == NotWord
                        && forall j :: i < j < |ws| ==> !(ws[j].Term? && ws[j].c.Some?)
    decreases |ws|
  {
    var front, last := ws[..|ws| - 1], ws[|ws| - 1];
    if last == NotWord {
      assert ws[|ws| - 1] == NotWord;
    } else {
      NegateWaits(front);
      var i :| 0 <= i < |front| && front[i] == NotWord
               && forall j :: i < j < |front| ==> !(front[j].Term? && front[j].c.Some?);
      assert ws[i] == NotWord;
      assert forall j :: i < j < |front| ==> ws[j] == front[j];
    }
  }

  /** Before and after an AND outside parentheses the groups are those of each side alone. */
  lemma AndCuts(ws: seq<Word>, rest: seq<Word>)
    requires Flat(ws) && NothingWaits(ws)
    ensures Read(ws + ([AndWord] + rest), START, false).0.outer
         == Read(ws, START, false).0.outer + Read(rest, START, false).0.outer
  {
    var s := Steps(START, ws);
    ReadFlat(ws, [AndWord] + rest, START);
    ReadStep(AndWord, rest, s, false);
    ReadFlat(ws, [], START);
    EmptyRest(ws);
    if s.negate {
      NegateWaits(ws);
      assert false;
    }
    assert Step(s, AndWord) == Behind(Flush(s).outer, START) by { EmptyGroups(Flush(s).outer); }
    ReadBehind(Flush(s).outer, rest, START, false);
  }

  lemma EmptyGroups(gs: seq<ConditionGroup>)
    ensures gs + [] == gs
  {
  }

  /** A row of different terms is searched for as one reads it, whatever is true, exactly
      when OR stands between all of them or none: a single OR makes the whole row, as far
      as the next AND, alternatives. */
  lemma RowsAreReadIff(row: Alternatives, ors: seq<bool>)
    requires row != [] && |ors| == |row| - 1
    requires forall i, j :: 0 <= i < j < |row| ==> Asks(row[i]) != Asks(row[j])
    ensures (forall m: Truth :: GroupHolds(m, RowGroup(row, ors)) <==> AsOneReadsIt(m, row, ors, true))
       <==> true !in ors || false !in ors
  {
    if true !in ors || false !in ors {
      forall m: Truth ensures GroupHolds(m, RowGroup(row, ors)) <==> AsOneReadsIt(m, row, ors, true) {
        RowReadAlike(m, row, ors);
      }
    } else {
      var k :| 0 <= k < |ors| && !ors[k];
      var m: Truth := c => c == Asks(row[k]);
      RowGroupHolds(m, row, ors);
      NeighbourAsRead(m, row, ors, true, k);
      assert m(Asks(row[k]));
      assert GroupHolds(m, RowGroup(row, ors)) && !AsOneReadsIt(m, row, ors, true);
    }
  }

  lemma RowReadAlike(m: Truth, row: Alternatives, ors: seq<bool>)
    requires row != [] && |ors| == |row| - 1 && (true !in ors || false !in ors)
    ensures GroupHolds(m, RowGroup(row, ors)) <==> AsOneReadsIt(m, row, ors, true)
  {
    RowGroupHolds(m, row, ors);
    if true !in ors {
      NoneOredAsRead(m, row, ors, true);
    } else {
      AllOredAsRead(m, row, ors);
    }
  }

  // NOT before a parenthesis.

  /** What NOT and a parenthesis of alternatives are parsed into. */
  function NotGroup(clause: Alternatives): ConditionGroup { ConditionGroup(|clause| > 1, NotAll(AskedBy(clause))) }

  lemma NotIsRead(clause: Alternatives)
    requires clause != []
    ensures Read([NotWord] + ([Open] + OrWords(clause) + [Close]), START, false).0.outer == [NotGroup(clause)]
  {
    var s, inside := START.(negate := true), [Open] + OrWords(clause) + [Close];
    ReadStep(NotWord, inside, START, false);
    assert inside + [] == inside;
    ReadParenthesis(clause, [], s, false);
    AddsOneGroup(s, OrGroup(clause));
    assert [] + [NotGroup(clause)] == [NotGroup(clause)];
  }

  /** Each of the conditions is true exactly when its negation is not. */
  ghost predicate Opposes(m: Truth, cs: seq<FilterCondition>) {
    forall i :: 0 <= i < |cs| ==> (m(Not(cs[i])) <==> !m(cs[i]))
  }

  lemma NotGroupHolds(m: Truth, clause: Alternatives)
    requires clause != [] && Opposes(m, AskedBy(clause))
    ensures GroupHolds(m, NotGroup(clause)) <==> exists i :: 0 <= i < |clause| && !m(Asks(clause[i]))
  {
    var cs, ds := AskedBy(clause), NotAll(AskedBy(clause));
    assert forall i :: 0 <= i < |clause| ==> ds[i] in ds && ds[i] == Not(cs[i]) && cs[i] == Asks(clause[i]);
    assert |clause| == 1 ==> forall d :: d in ds ==> d == ds[0];
  }

  predicate Positive(c: FilterCondition) { c.op in {Contains, Equals, Phrase, Regex} }

  /** A truth that c is, d is not, and no condition and its negation are together. */
  function Apart(c: FilterCondition, d: FilterCondition): Truth {
    (x: FilterCondition) =>
      var base := if Positive(x) then Not(x) else x;
      var holds := if base == (if Positive(c) then Not(c) else c) then Positive(c) else !Positive(d);
      if Positive(x) then holds else !holds
  }

  lemma ApartTells(c: FilterCondition, d: FilterCondition)
    requires c.op != OtherOp && d.op != OtherOp && Not(c) != Not(d)
    ensures Apart(c, d)(c) && !Apart(c, d)(d)
    ensures forall x: FilterCondition :: x.op != OtherOp ==> (Apart(c, d)(Not(x)) <==> !Apart(c, d)(x))
  {
  }

  /** NOT before a parenthesis of alternatives says the opposite of it, whatever is true, as
      long as every term's negation does, exactly when all the alternatives have one
      negation. With two different ones it asks that one of them be false. */
  lemma NotIsOppositeIff(clause: Alternatives)
    requires clause != [] && ClauseWritable(clause)
    ensures (forall m: Truth :: Opposes(m, AskedBy(clause)) ==>
               (GroupHolds(m, NotGroup(clause)) <==> !ClauseHolds(m, clause)))
       <==> forall i, j :: 0 <= i < |clause| && 0 <= j < |clause| ==> Not(Asks(clause[i])) == Not(Asks(clause[j]))
  {
    if forall i, j :: 0 <= i < |clause| && 0 <= j < |clause| ==> Not(Asks(clause[i])) == Not(Asks(clause[j])) {
      forall m: Truth | Opposes(m, AskedBy(clause))
        ensures GroupHolds(m, NotGroup(clause)) <==> !ClauseHolds(m, clause)
      {
        OneNegation(m, clause);
      }
    } else {
      var i, j :| 0 <= i < |clause| && 0 <= j < |clause| && Not(Asks(clause[i])) != Not(Asks(clause[j]));
      TwoNegations(clause, i, j);
    }
  }

  lemma OneNegation(m: Truth, clause: Alternatives)
    requires clause != [] && Opposes(m, AskedBy(clause))
    requires forall i, j :: 0 <= i < |clause| && 0 <= j < |clause| ==> Not(Asks(clause[i])) == Not(Asks(clause[j]))
    ensures GroupHolds(m, NotGroup(clause)) <==> !ClauseHolds(m, clause)
  {
    var cs := AskedBy(clause);
    NotGroupHolds(m, clause);
    forall i | 0 <= i < |clause| ensures m(Asks(clause[i])) <==> m(Asks(clause[0])) {
      assert cs[i] == Asks(clause[i]) && cs[0] == Asks(clause[0]);
      assert m(Not(cs[i])) <==> m(Not(cs[0]));
    }
    assert ClauseHolds(m, clause) <==> m(Asks(clause[0]));
  }

  lemma TwoNegations(clause: Alternatives, i: nat, j: nat)
    requires ClauseWritable(clause) && i < |clause| && j < |clause| && Not(Asks(clause[i])) != Not(Asks(clause[j]))
    ensures exists m: Truth :: Opposes(m, AskedBy(clause)) && GroupHolds(m, NotGroup(clause)) && ClauseHolds(m, clause)
  {
    var c, d := Asks(clause[i]), Asks(clause[j]);
    assert forall k :: 0 <= k < |clause| ==> Asks(clause[k]).op != OtherOp by {
      assert forall k :: 0 <= k < |clause| ==> Writable(clause[k].c);
    }
    var m := Apart(c, d);
    ApartTells(c, d);
    assert Opposes(m, AskedBy(clause));
    NotGroupHolds(m, clause);
    assert m(Asks(clause[i])) && !m(Asks(clause[j]));
  }

  lemma AndInside(a: FilterCondition, b: FilterCondition)
    ensures Read([Term(Some(a)), AndWord, Term(Some(b)), Close], START, true)
         == (State([ConditionGroup(false, [a]), ConditionGroup(false, [b])], [], false, false), 4)
  {
    var third, ga, gb := [Close] + [], ConditionGroup(false, [a]), ConditionGroup(false, [b]);
    var second := [Term(Some(b))] + third;
    var collected, flushed := State([], [a], false, false), State([ga], [], false, false);
    assert [Term(Some(a)), AndWord, Term(Some(b)), Close] == [Term(Some(a))] + ([AndWord] + second);
    ReadStep(Term(Some(a)), [AndWord] + second, START, true);
    assert Step(START, Term(Some(a))) == collected;
    ReadStep(AndWord, second, collected, true);
    assert Step(collected, AndWord) == flushed;
    ReadStep(Term(Some(b)), third, flushed, true);
    assert Step(flushed, Term(Some(b))) == flushed.(current := [b]);
    ReadClose([], flushed.(current := [b]));
    assert Flush(flushed.(current := [b])) == State([ga, gb], [], false, false);
  }

  lemma NotReachesTheFirst(a: FilterCondition, b: FilterCondition)
    ensures AddInner(START.(negate := true), [ConditionGroup(false, [a]), ConditionGroup(false, [b])])
         == State([ConditionGroup(false, [Not(a)]), ConditionGroup(false, [b])], [], false, false)
  {
    var ga, gb := ConditionGroup(false, [a]), ConditionGroup(false, [b]);
    var s := State([ConditionGroup(false, [Not(a)])], [], false, false);
    assert [ga, gb][1..] == [gb] && NotAll([a]) == [Not(a)];
    OneGroupAlone(ConditionGroup(false, [Not(a)]));
    assert AddInner(START.(negate := true), [ga, gb]) == AddInner(s, [gb]);
    AddsOneGroup(s, gb);
    assert [ConditionGroup(false, [Not(a)])] + [gb] == [ConditionGroup(false, [Not(a)]), gb];
  }

  /** NOT ( a AND b ) takes a away and asks for b. */
  lemma NotStopsAtAnd(a: FilterCondition, b: FilterCondition)
    ensures Read([NotWord, Open, Term(Some(a)), AndWord, Term(Some(b)), Close], START, false).0.outer
         == [ConditionGroup(false, [Not(a)]), ConditionGroup(false, [b])]
  {
    var inside := [Term(Some(a)), AndWord, Term(Some(b)), Close];
    var ws, s := [Open] + inside, START.(negate := true);
    assert [NotWord, Open, Term(Some(a)), AndWord, Term(Some(b)), Close] == [NotWord] + ws;
    ReadStep(NotWord, ws, START, false);
    AndInside(a, b);
    NotReachesTheFirst(a, b);
    assert ws[0] == Open && ws[1..] == inside && ws[5..] == [];
    assert Read(ws, s, false).0 == Flush(AddInner(s, Read(inside, START, true).0.outer));
  }

  // OR between parentheses.

  lemma TwoParentheses(a: Alternatives, b: Alternatives)
    requires a != [] && b != []
    ensures Read([Open] + OrWords(a) + [Close] + ([OrWord] + ([Open] + OrWords(b) + [Close])), START, false).0.outer
         == [OrGroup(a), OrGroup(b)]
  {
    var second := [Open] + OrWords(b) + [Close];
    var s := State([OrGroup(a)], [], true, false);
    ReadParenthesis(a, [OrWord] + second, START, false);
    AddsOneGroup(START, OrGroup(a));
    OneGroupAlone(OrGroup(a));
    ReadStep(OrWord, second, s.(any := false), false);
    assert second + [] == second;
    ReadParenthesis(b, [], s, false);
    AddsOneGroup(s, OrGroup(b));
    assert [OrGroup(a)] + [OrGroup(b)] == [OrGroup(a), OrGroup(b)];
  }

  /** Two parentheses are both asked for, OR between them or not. */
  lemma OrBetweenParenthesesIsAnd(m: Truth, a: Alternatives, b: Alternatives)
    requires |a| > 1 && |b| > 1
    ensures var ws := [Open] + OrWords(a) + [Close] + ([OrWord] + ([Open] + OrWords(b) + [Close]));
            AllHold(m, Read(ws, START, false).0.outer) <==> ClauseHolds(m, a) && ClauseHolds(m, b)
  {
    TwoParentheses(a, b);
    OneMoreGroup(m, [], OrGroup(a));
    OneGroupAlone(OrGroup(a));
    OneMoreGroup(m, [OrGroup(a)], OrGroup(b));
    assert [OrGroup(a)] + [OrGroup(b)] == [OrGroup(a), OrGroup(b)];
    OrGroupHolds(m, a);
    OrGroupHolds(m, b);
  }
}
