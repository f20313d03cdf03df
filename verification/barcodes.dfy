/** Barcodes: the ISBN behind a UPC with an add-on, and the form a code is remembered
    under (internal/providers/upc_isbn.go, isbn_key.go). The same book's codes meet in one
    form. Codes are ASCII.
 */
module Barcodes {
  import opened Strings
  import opened Wrappers

  predicate IsDigit(c: char) { '0' <= c <= '9' }

  function Digit(c: char): int { c as int - '0' as int }

  predicate AllDigits(s: string) { s != "" && forall i :: 0 <= i < |s| ==> IsDigit(s[i]) }

  // ---- check digits ------------------------------------------------------------

  /** Alternate digits weigh 1 and 3 (section 7.9 of the GS1 General Specifications). */
  function Weight(i: nat): int { if i % 2 == 1 then 3 else 1 }

  function WeightedSum(s: string): int {
    if s == "" then 0 else WeightedSum(s[..|s| - 1]) + Weight(|s| - 1) * Digit(s[|s| - 1])
  }

  function CheckDigit(s: string): char
    requires WeightedSum(s) >= 0
  {
    '0' + ((10 - WeightedSum(s) % 10) % 10) as char
  }

  lemma {:induction false} SumOfDigits(s: string)
    requires forall i :: 0 <= i < |s| ==> IsDigit(s[i])
    ensures WeightedSum(s) >= 0
  {
    if s != "" {
      SumOfDigits(s[..|s| - 1]);
    }
  }

  function Isbn13(body: string): string
    requires AllDigits(body)
  {
    SumOfDigits("978" + body);
    "978" + body + [CheckDigit("978" + body)]
  }

  /** The loop both files repeat. */
  method Isbn13From10Body(body: string) returns (isbn: string)
    requires AllDigits(body)
    ensures isbn == Isbn13(body)
  {
    var b := "978" + body;
    var sum := 0;
    for i := 0 to |b|
      invariant sum == WeightedSum(b[..i]) && sum >= 0
    {
      var d := Digit(b[i]);
      if i % 2 == 1 {
        d := d * 3;
      }
      assert b[..i + 1][..i] == b[..i];
      sum := sum + d;
    }
    assert b[..|b|] == b;
    isbn := b + ['0' + ((10 - sum % 10) % 10) as char];
  }

  /** A valid 13-digit code. */
  predicate Valid13(s: string) { |s| == 13 && AllDigits(s) && WeightedSum(s) % 10 == 0 }

  lemma CheckDigitCloses(s: string)
    requires |s| == 12 && AllDigits(s) && WeightedSum(s) >= 0
    ensures Valid13(s + [CheckDigit(s)])
  {
    var c := CheckDigit(s);
    assert (s + [c])[..12] == s;
    assert Digit(c) == (10 - WeightedSum(s) % 10) % 10;
  }

  lemma GeneratedIsValid(body: string)
    requires AllDigits(body) && |body| == 9
    ensures Valid13(Isbn13(body)) && Isbn13(body)[..3] == "978" && Isbn13(body)[3..12] == body
  {
    SumOfDigits("978" + body);
    CheckDigitCloses("978" + body);
  }

  lemma {:induction false} OneDigitMoves(s: string, i: nat, c: char)
    requires i < |s|
    ensures WeightedSum(s[i := c]) == WeightedSum(s) + Weight(i) * (Digit(c) - Digit(s[i]))
  {
    var n, t := |s| - 1, s[i := c];
    if i == n {
      assert t[..n] == s[..n];
    } else {
      assert t[..n] == s[..n][i := c];
      OneDigitMoves(s[..n], i, c);
    }
  }

  lemma NoMultipleOfTen(d: int)
    requires -9 <= d <= 9 && d != 0
    ensures d % 10 != 0 && (3 * d) % 10 != 0
  {
  }

  /** Any single wrong digit is caught. */
  lemma OneWrongDigitIsCaught(s: string, i: nat, c: char)
    requires Valid13(s) && i < 13 && IsDigit(c) && c != s[i]
    ensures !Valid13(s[i := c])
  {
    var d := Digit(c) - Digit(s[i]);
    OneDigitMoves(s, i, c);
    NoMultipleOfTen(d);
    assert WeightedSum(s[i := c]) == WeightedSum(s) + (if i % 2 == 1 then 3 * d else d);
  }

  // ---- a UPC with an add-on ----------------------------------------------------

  /** SplitUPCAddon: the company prefix and the add-on. */
  function SplitUpcAddon(code: string): Option<(string, string)> {
    var c := if |code| == 18 && code[0] == '0' then code[1..] else code;
    if |c| != 17 || !AllDigits(c) then None else Some((c[..6], c[12..]))
  }

  /** A company's six digits, six of the item, and five of the add-on. */
  ghost predicate ScanOf(c: string, company: string, addon: string) {
    exists item :: |company| == 6 && |item| == 6 && |addon| == 5 && c == company + item + addon
                   && AllDigits(company) && AllDigits(item) && AllDigits(addon)
  }

  /** A code is split exactly when it is such a scan, as a UPC or, with a nought before it,
      as an EAN; and then into the first six digits and the last five. */
  lemma SplitIff(code: string, company: string, addon: string)
    ensures SplitUpcAddon(code) == Some((company, addon))
       <==> ScanOf(code, company, addon) || (code != "" && code[0] == '0' && ScanOf(code[1..], company, addon))
  {
    var c := if |code| == 18 && code[0] == '0' then code[1..] else code;
    if |c| == 17 && AllDigits(c) {
      DigitsAreAScan(c);
    }
    if ScanOf(c, company, addon) {
      ScanIsDigits(c, company, addon);
    }
  }

  lemma DigitsAreAScan(c: string)
    requires |c| == 17 && AllDigits(c)
    ensures ScanOf(c, c[..6], c[12..])
  {
    var company, item, addon := c[..6], c[6..12], c[12..];
    assert c == company + item + addon;
    assert AllDigits(company) && AllDigits(item) && AllDigits(addon);
  }

  lemma ScanIsDigits(c: string, company: string, addon: string)
    requires ScanOf(c, company, addon)
    ensures |c| == 17 && AllDigits(c) && c[..6] == company && c[12..] == addon
  {
    var item :| |company| == 6 && |item| == 6 && |addon| == 5 && c == company + item + addon
                && AllDigits(company) && AllDigits(item) && AllDigits(addon);
    forall i | 0 <= i < |c| ensures IsDigit(c[i]) {
      assert c[i] == if i < 6 then company[i] else if i < 12 then item[i - 6] else addon[i - 12];
    }
  }

  predicate Usable(prefix: string, addon: string) { |prefix + addon| == 9 && AllDigits(prefix + addon) }

  /** The usable prefixes, each once, in the order they first come. */
  function Prefixes(prefixes: seq<string>, addon: string): (r: seq<string>)
    ensures forall p :: p in r <==> p in prefixes && Usable(p, addon)
  {
    if prefixes == [] then []
    else
      var front, p := Prefixes(prefixes[..|prefixes| - 1], addon), prefixes[|prefixes| - 1];
      assert prefixes == prefixes[..|prefixes| - 1] + [p];
      if Usable(p, addon) && p !in prefixes[..|prefixes| - 1] then front + [p] else front
  }

  function Generated(prefixes: seq<string>, addon: string): seq<string> {
    var ps := Prefixes(prefixes, addon);
    seq(|ps|, i requires 0 <= i < |ps| => assert ps[i] in ps; Isbn13(ps[i] + addon))
  }

  lemma NextGenerated(prefixes: seq<string>, p: string, addon: string)
    ensures Generated(prefixes + [p], addon)
         == Generated(prefixes, addon) + if Usable(p, addon) && p !in prefixes then [Isbn13(p + addon)] else []
  {
    assert (prefixes + [p])[..|prefixes|] == prefixes;
  }

  method GenerateAll(prefixes: seq<string>, addon: string) returns (out: seq<string>)
    ensures out == Generated(prefixes, addon)
  {
    out := [];
    var seen: set<string> := {};
    for i := 0 to |prefixes|
      invariant forall p :: p in seen <==> p in prefixes[..i] && Usable(p, addon)
      invariant out == Generated(prefixes[..i], addon)
    {
      var prefix := prefixes[i];
      NextGenerated(prefixes[..i], prefix, addon);
      assert prefixes[..i + 1] == prefixes[..i] + [prefix];
      var body := prefix + addon;
      if |body| != 9 || !AllDigits(body) || prefix in seen { continue; }
      seen := seen + {prefix};
      var isbn := Isbn13From10Body(body);
      out := out + [isbn];
    }
    assert prefixes[..|prefixes|] == prefixes;
  }

  /** The ISBNs a scan could stand for; `checked` is the built-in table. */
  method IsbnsFromUpcAddon(code: string, checked: map<string, seq<string>>, learned: seq<string>)
      returns (out: seq<string>)
    ensures match SplitUpcAddon(code)
            case None => out == []
            case Some((company, addon)) =>
              out == Generated((if company in checked then checked[company] else []) + learned, addon)
  {
    var split := SplitUpcAddon(code);
    if split.None? { return []; }
    var company, addon := split.value.0, split.value.1;
    out := GenerateAll((if company in checked then checked[company] else []) + learned, addon);
  }

  /** The prefix makes nine digits with the add-on, and was not met before. */
  ghost predicate FitsFirst(prefixes: seq<string>, addon: string, i: nat)
    requires i < |prefixes|
  {
    |prefixes[i]| + |addon| == 9 && AllDigits(prefixes[i] + addon) && prefixes[i] !in prefixes[..i]
  }

  /** The prefixes `at` points to, in order, are those that make nine digits with the add-on,
      each where it stands first. */
  ghost predicate AreTheUsable(prefixes: seq<string>, addon: string, ps: seq<string>, at: seq<nat>) {
    && |at| == |ps|
    && (forall j :: 0 <= j < |at| ==>
          at[j] < |prefixes| && ps[j] == prefixes[at[j]] && FitsFirst(prefixes, addon, at[j]))
    && (forall i, j :: 0 <= i < j < |at| ==> at[i] < at[j])
    && (forall i :: 0 <= i < |prefixes| && FitsFirst(prefixes, addon, i) ==> i in at)
  }

  lemma OneMorePrefix(prefixes: seq<string>, addon: string, ps: seq<string>, at: seq<nat>, p: string)
    requires AreTheUsable(prefixes, addon, ps, at)
    ensures var new_ := Usable(p, addon) && p !in prefixes;
            AreTheUsable(prefixes + [p], addon, ps + (if new_ then [p] else []), at + if new_ then [|prefixes|] else [])
  {
    var new_, all := Usable(p, addon) && p !in prefixes, prefixes + [p];
    var more := at + if new_ then [|prefixes|] else [];
    assert forall i :: 0 <= i <= |prefixes| ==> all[..i] == prefixes[..i];
    assert prefixes[..|prefixes|] == prefixes;
    assert forall i :: 0 <= i < |prefixes| ==> (FitsFirst(all, addon, i) <==> FitsFirst(prefixes, addon, i));
    forall i | 0 <= i < |all| && FitsFirst(all, addon, i) ensures i in more {
      if i < |prefixes| {
        assert prefixes[i] == all[i] && i in at;
      } else {
        assert more[|at|] == i;
      }
    }
  }

  /** Every prefix that fits the add-on is tried once, in the order it is known in. */
  lemma {:induction false} PrefixesMean(prefixes: seq<string>, addon: string) returns (at: seq<nat>)
    ensures AreTheUsable(prefixes, addon, Prefixes(prefixes, addon), at)
  {
    if prefixes == [] {
      return [];
    }
    var n := |prefixes| - 1;
    at := PrefixesMean(prefixes[..n], addon);
    OneMorePrefix(prefixes[..n], addon, Prefixes(prefixes[..n], addon), at, prefixes[n]);
    assert prefixes == prefixes[..n] + [prefixes[n]];
    at := at + if Usable(prefixes[n], addon) && prefixes[n] !in prefixes[..n] then [n] else [];
  }

  /** And gives the valid ISBN that has the prefix and the add-on for its nine digits. */
  lemma GeneratedMeans(prefixes: seq<string>, addon: string, j: nat)
    requires j < |Generated(prefixes, addon)|
    ensures |Generated(prefixes, addon)| == |Prefixes(prefixes, addon)|
    ensures var isbn := Generated(prefixes, addon)[j];
            Valid13(isbn) && isbn[..3] == "978" && isbn[3..12] == Prefixes(prefixes, addon)[j] + addon
  {
    var p := Prefixes(prefixes, addon)[j];
    assert p in Prefixes(prefixes, addon);
    GeneratedIsValid(p + addon);
  }

  /** LearnableUPCPrefix: the company and ISBN prefix a scan and an ISBN teach. */
  function Learnable(code: string, isbn: string): Option<(string, string)> {
    match SplitUpcAddon(code)
    case None => None
    case Some((company, addon)) =>
      if |isbn| != 13 || !AllDigits(isbn) || isbn[..3] != "978" then None
      else
        var body := isbn[3..12];
        if body[4..] != addon || Isbn13(body) != isbn then None else Some((company, body[..4]))
  }

  /** A prefix is learned from a scan and an ISBN exactly when the scan with that prefix
      gives the ISBN back: nothing learned fails to regenerate its book, and no book a
      prefix generates would have taught another. */
  lemma LearnedIffRegenerated(code: string, isbn: string, prefix: string)
    ensures (Learnable(code, isbn).Some? && Learnable(code, isbn).value.1 == prefix)
       <==> (SplitUpcAddon(code).Some? && isbn in Generated([prefix], SplitUpcAddon(code).value.1))
  {
    if SplitUpcAddon(code).Some? {
      var addon := SplitUpcAddon(code).value.1;
      assert |addon| == 5;
      assert [prefix][..0] == [];
      assert Prefixes([prefix], addon) == if Usable(prefix, addon) then [prefix] else [];
      if isbn in Generated([prefix], addon) {
        assert isbn == Isbn13(prefix + addon);
        GeneratedIsValid(prefix + addon);
        assert (prefix + addon)[..4] == prefix && (prefix + addon)[4..] == addon;
      }
      if Learnable(code, isbn).Some? && Learnable(code, isbn).value.1 == prefix {
        assert isbn[3..12] == prefix + addon;
        assert Usable(prefix, addon);
        assert Generated([prefix], addon)[0] == isbn;
      }
    }
  }

  /** Beside whatever else is known of the publisher, a learned prefix still finds its book. */
  lemma LearnedAmongOthers(code: string, isbn: string, prefixes: seq<string>)
    requires Learnable(code, isbn).Some? && Learnable(code, isbn).value.1 in prefixes
    ensures SplitUpcAddon(code).Some? && isbn in Generated(prefixes, SplitUpcAddon(code).value.1)
  {
    var addon, prefix := SplitUpcAddon(code).value.1, Learnable(code, isbn).value.1;
    assert isbn[3..12] == prefix + addon;
    assert Usable(prefix, addon);
    var ps := Prefixes(prefixes, addon);
    assert prefix in ps;
    var i :| 0 <= i < |ps| && ps[i] == prefix;
    assert Generated(prefixes, addon)[i] == isbn;
  }

  // ---- the form a code is remembered under -------------------------------------

  predicate IsFiller(c: char) { c == ' ' || c == '-' }

  function Upper(c: char): char { if 'a' <= c <= 'z' then c - 'a' + 'A' else c }

  /** Without hyphens and spaces, in capitals. */
  function Squeeze(s: string): string {
    if s == "" then ""
    else Squeeze(s[..|s| - 1]) + if IsFiller(s[|s| - 1]) then "" else [Upper(s[|s| - 1])]
  }

  /** Nine digits and a check character. */
  predicate IsIsbn10(c: string) { |c| == 10 && AllDigits(c[..9]) }

  function Key(code: string): string {
    var c := Squeeze(Trim(code));
    if IsIsbn10(c) then Isbn13(c[..9]) else c
  }

  method BarcodeKey(code: string) returns (key: string)
    ensures key == Key(code)
  {
    var c := Squeeze(Trim(code));
    if |c| != 10 { return c; }
    var body := "978" + c[..9];
    var sum := 0;
    for i := 0 to |body|
      invariant i > 0 ==> AllDigits(body[..i])
      invariant sum == WeightedSum(body[..i]) && sum >= 0
    {
      if body[i] < '0' || body[i] > '9' {
        NotAllDigits(c, i);
        return c;
      }
      var d := Digit(body[i]);
      if i % 2 == 1 {
        d := d * 3;
      }
      assert body[..i + 1][..i] == body[..i];
      sum := sum + d;
    }
    assert body[..|body|] == body;
    DigitsBehind978(c);
    key := body + ['0' + ((10 - sum % 10) % 10) as char];
  }

  lemma DigitsBehind978(c: string)
    requires |c| == 10 && AllDigits("978" + c[..9])
    ensures IsIsbn10(c)
  {
    assert ("978" + c[..9])[3..] == c[..9];
    forall i | 0 <= i < 9 ensures IsDigit(c[..9][i]) {
      assert c[..9][i] == ("978" + c[..9])[3 + i];
    }
  }

  lemma NotAllDigits(c: string, i: nat)
    requires |c| == 10 && i < 12 && !IsDigit(("978" + c[..9])[i])
    ensures !IsIsbn10(c)
  {
    assert i >= 3 && c[..9][i - 3] == ("978" + c[..9])[i];
  }

  lemma {:induction false} SqueezeKeeps(s: string)
    requires forall i :: 0 <= i < |s| ==> !IsFiller(s[i]) && Upper(s[i]) == s[i]
    ensures Squeeze(s) == s
  {
    if s != "" {
      SqueezeKeeps(s[..|s| - 1]);
    }
  }

  lemma {:induction false} SqueezeLength(s: string)
    ensures |Squeeze(s)| <= |s|
    ensures forall i :: 0 <= i < |Squeeze(s)| ==> !IsFiller(Squeeze(s)[i]) && Upper(Squeeze(s)[i]) == Squeeze(s)[i]
  {
    if s != "" {
      SqueezeLength(s[..|s| - 1]);
    }
  }

  lemma DigitsAreKept(s: string)
    requires AllDigits(s)
    ensures Trim(s) == s && Squeeze(s) == s
  {
    assert IsDigit(s[0]) && IsDigit(s[|s| - 1]);
    SqueezeKeeps(s);
  }

  /** An ISBN-10, whatever its check character, its hyphens and its spaces, is remembered
      under the ISBN-13 with the same nine digits, and so is that ISBN-13: a save by one
      and a lookup by the other meet. */
  lemma FormsMeet(code: string, body: string, check: char)
    requires AllDigits(body) && |body| == 9 && Squeeze(Trim(code)) == body + [check]
    ensures Key(code) == Isbn13(body) == Key(Isbn13(body))
  {
    assert (body + [check])[..9] == body;
    GeneratedIsValid(body);
    DigitsAreKept(Isbn13(body));
  }

  lemma SqueezeSkips(s: string, c: char, t: string)
    requires c == ' ' || c == '-'
    ensures Squeeze(s + [c] + t) == Squeeze(s + t)
  {
    SqueezeJoins(s + [c], t);
    SqueezeJoins(s, [c]);
    SqueezeJoins(s, t);
    SqueezeOne(c);
  }

  /** However a code is broken up with hyphens and spaces inside, it is remembered the same. */
  lemma BreaksAreIgnored(s: string, c: char, t: string)
    requires s != "" && t != "" && !IsSpace(s[0]) && !IsSpace(t[|t| - 1]) && (c == ' ' || c == '-')
    ensures Key(s + [c] + t) == Key(s + t)
  {
    TrimIsNeat(s + [c] + t);
    TrimIsNeat(s + t);
    SqueezeSkips(s, c, t);
  }

  /** Nor does it matter whether its letters are capitals. */
  lemma {:induction false} CapitalsDoNotMatter(s: string, i: nat, upper: char, lower: char)
    requires i < |s| && s[i] == lower && 'a' <= lower <= 'z' && upper as int == lower as int - 32
    ensures Squeeze(s[i := upper]) == Squeeze(s)
  {
    var n := |s| - 1;
    if i == n {
      assert s[i := upper][..n] == s[..n];
    } else {
      assert s[i := upper][..n] == s[..n][i := upper];
      CapitalsDoNotMatter(s[..n], i, upper, lower);
    }
  }

  function DropLeft(s: string): string {
    if s != "" && IsFiller(s[0]) then DropLeft(s[1..]) else s
  }

  function DropRight(s: string): string {
    if s != "" && IsFiller(s[|s| - 1]) then DropRight(s[..|s| - 1]) else s
  }

  /** Once hyphens and spaces are off both ends, no white space is left there. */
  predicate CleanEdges(s: string) {
    var t := DropRight(DropLeft(s));
    t == "" || Neat(t)
  }

  lemma {:induction false} SqueezeJoins(s: string, t: string)
    ensures Squeeze(s + t) == Squeeze(s) + Squeeze(t)
  {
    if t == "" {
      assert s + t == s;
    } else {
      SqueezeJoins(s, t[..|t| - 1]);
      assert (s + t)[..|s + t| - 1] == s + t[..|t| - 1];
    }
  }

  lemma SqueezeOne(c: char)
    ensures Squeeze([c]) == if IsFiller(c) then "" else [Upper(c)]
  {
    assert [c][..0] == "";
  }

  lemma {:induction false} DroppingLeftKeeps(s: string)
    ensures Squeeze(DropLeft(s)) == Squeeze(s)
    ensures DropLeft(s) != "" ==> !IsFiller(DropLeft(s)[0])
  {
    if s != "" && IsFiller(s[0]) {
      DroppingLeftKeeps(s[1..]);
      SqueezeOne(s[0]);
      SqueezeJoins([s[0]], s[1..]);
      assert s == [s[0]] + s[1..];
    }
  }

  lemma {:induction false} DroppingRightKeeps(s: string)
    ensures Squeeze(DropRight(s)) == Squeeze(s) && DropRight(s) <= s
    ensures DropRight(s) != "" ==> !IsFiller(DropRight(s)[|DropRight(s)| - 1])
  {
    if s != "" && IsFiller(s[|s| - 1]) {
      DroppingRightKeeps(s[..|s| - 1]);
    }
  }

  lemma SolidStart(t: string)
    requires t != "" && !IsFiller(t[0])
    ensures Squeeze(t) != "" && Squeeze(t)[0] == Upper(t[0])
  {
    assert t == [t[0]] + t[1..];
    SqueezeOne(t[0]);
    SqueezeJoins([t[0]], t[1..]);
  }

  lemma SolidEnd(t: string)
    requires t != "" && !IsFiller(t[|t| - 1])
    ensures Squeeze(t) != "" && Squeeze(t)[|Squeeze(t)| - 1] == Upper(t[|t| - 1])
  {
  }

  lemma EdgesAreTheKeysEdges(s: string)
    ensures CleanEdges(s) <==> Squeeze(s) == "" || Neat(Squeeze(s))
  {
    DroppingLeftKeeps(s);
    DroppingRightKeeps(DropLeft(s));
    var t := DropRight(DropLeft(s));
    if t != "" {
      SolidStart(t);
      SolidEnd(t);
    }
  }

  /** Remembering a key again changes nothing exactly when the code is an ISBN-10, or no
      white space is left at its ends once hyphens and spaces are off them. Blanks are
      trimmed before hyphens are taken out, so a tab behind a hyphen survives the first
      time only. */
  lemma KeyIsSettledIff(code: string)
    ensures Key(Key(code)) == Key(code) <==> IsIsbn10(Squeeze(Trim(code))) || CleanEdges(Trim(code))
  {
    var c := Squeeze(Trim(code));
    EdgesAreTheKeysEdges(Trim(code));
    SqueezeLength(Trim(code));
    if IsIsbn10(c) {
      GeneratedIsValid(c[..9]);
      DigitsAreKept(Key(code));
    } else {
      SettledIffNeat(c);
    }
  }

  lemma SettledIffNeat(key: string)
    requires forall i :: 0 <= i < |key| ==> !IsFiller(key[i]) && Upper(key[i]) == key[i]
    requires !IsIsbn10(key)
    ensures Key(key) == key <==> key == "" || Neat(key)
  {
    TrimIsNeat(key);
    SqueezeLength(Trim(key));
    if key == "" || Neat(key) {
      SqueezeKeeps(key);
    } else {
      var k := Squeeze(Trim(key));
      assert |k| < |key|;
      if IsIsbn10(k) {
        GeneratedIsValid(k[..9]);
        DigitsAreKept(Key(key));
      }
    }
  }

  lemma {:induction false} HyphenFirst(s: string)
    ensures Squeeze(['-'] + s) == Squeeze(s)
  {
    if s == "" {
      assert ['-'] + s == ['-'] && ['-'][..0] == "";
    } else {
      HyphenFirst(s[..|s| - 1]);
      assert (['-'] + s)[..|s|] == ['-'] + s[..|s| - 1];
    }
  }

  lemma HyphenIsDropped(s: string)
    requires s != "" && |s| < 10 && !IsSpace(s[|s| - 1])
    requires forall i :: 0 <= i < |s| ==> !IsFiller(s[i]) && Upper(s[i]) == s[i]
    ensures Key(['-'] + s) == s
  {
    assert Trim(['-'] + s) == ['-'] + s;
    HyphenFirst(s);
    SqueezeKeeps(s);
  }

  lemma TrimTakesATab(s: string)
    requires AllDigits(s)
    ensures Trim(['\t'] + s) == s
  {
    var t := ['\t'] + s;
    assert IsSpace(t[0]) && t[1..] == s;
    assert !IsSpace(s[0]) && !IsSpace(s[|s| - 1]);
    assert TrimLeft(t) == s;
  }

  /** One round takes the hyphen, the next the tab. */
  lemma ATabBehindAHyphen(s: string)
    requires AllDigits(s) && |s| < 9
    ensures Key(['-'] + (['\t'] + s)) == ['\t'] + s
    ensures Key(['\t'] + s) == s
  {
    var t := ['\t'] + s;
    assert forall i :: 0 < i < |t| ==> IsDigit(t[i]);
    HyphenIsDropped(t);
    TrimTakesATab(s);
    DigitsAreKept(s);
  }
}
