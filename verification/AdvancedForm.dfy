/** The advanced-options form of the web client: lists and records are edited as text, parsed on
    submit and printed back for the next edit. */
module AdvancedForm {
  import opened Text
  import opened Specs

  // ------------------------------------------------------------------------ trim

  /** JavaScript's white space: what trim() removes and \s matches. */
  predicate IsWhite(c: char) {
    || '\t' <= c <= '\r' || c == ' ' || c == '\U{A0}' || c == '\U{1680}' || '\U{2000}' <= c <= '\U{200A}'
    || c == '\U{2028}' || c == '\U{2029}' || c == '\U{202F}' || c == '\U{205F}' || c == '\U{3000}' || c == '\U{FEFF}'
  }

  lemma WhiteMeans(c: char)
    ensures IsWhite(c) <==>
      c in {'\t', '\n', '\U{0B}', '\U{0C}', '\r', ' ', '\U{A0}', '\U{1680}', '\U{2000}', '\U{2001}', '\U{2002}',
            '\U{2003}', '\U{2004}', '\U{2005}', '\U{2006}', '\U{2007}', '\U{2008}', '\U{2009}', '\U{200A}',
            '\U{2028}', '\U{2029}', '\U{202F}', '\U{205F}', '\U{3000}', '\U{FEFF}'}
  {
  }

  function TrimStart(s: string): string { if s != "" && IsWhite(s[0]) then TrimStart(s[1..]) else s }

  function TrimEnd(s: string): string { if s != "" && IsWhite(s[|s| - 1]) then TrimEnd(s[..|s| - 1]) else s }

  function Trim(s: string): string { TrimEnd(TrimStart(s)) }

  predicate IsTrimmed(s: string) { s == "" || (!IsWhite(s[0]) && !IsWhite(s[|s| - 1])) }

  predicate Without(s: string, c: char) { c !in s }

  lemma {:induction false} TrimStartTrims(s: string)
    ensures TrimStart(s) == "" || !IsWhite(TrimStart(s)[0])
    ensures forall c :: Without(s, c) ==> Without(TrimStart(s), c)
  {
    if s != "" && IsWhite(s[0]) {
      TrimStartTrims(s[1..]);
      forall c | Without(s, c) ensures Without(TrimStart(s), c) { assert Without(s[1..], c); }
    }
  }

  lemma {:induction false} TrimEndTrims(s: string)
    ensures TrimEnd(s) == "" || !IsWhite(TrimEnd(s)[|TrimEnd(s)| - 1])
    ensures TrimEnd(s) <= s
    ensures forall c :: Without(s, c) ==> Without(TrimEnd(s), c)
  {
    if s != "" && IsWhite(s[|s| - 1]) {
      TrimEndTrims(s[..|s| - 1]);
      forall c | Without(s, c) ensures Without(TrimEnd(s), c) { assert Without(s[..|s| - 1], c); }
    }
  }

  /** The trimmed strings are the fixed points of trim. */
  lemma TrimFixedPoints(s: string)
    ensures IsTrimmed(Trim(s))
    ensures Trim(s) == s <==> IsTrimmed(s)
    ensures forall c :: Without(s, c) ==> Without(Trim(s), c)
  {
    var t := TrimStart(s);
    TrimStartTrims(s);
    TrimEndTrims(t);
    forall c | Without(s, c) ensures Without(Trim(s), c) { assert Without(t, c); }
  }

  lemma {:induction false} TrimStartAppend(s: string, c: char)
    ensures TrimStart(s + [c]) == if TrimStart(s) == "" then TrimStart([c]) else TrimStart(s) + [c]
  {
    if s == "" {
      assert s + [c] == [c];
    } else if IsWhite(s[0]) {
      TrimStartAppend(s[1..], c);
      assert (s + [c])[1..] == s[1..] + [c];
    }
  }

  /** White space around a string is what goes. */
  lemma TrimDrops(s: string, c: char)
    requires IsWhite(c)
    ensures Trim([c] + s) == Trim(s) == Trim(s + [c])
  {
    assert ([c] + s)[1..] == s && [c][1..] == "";
    TrimStartAppend(s, c);
    assert (TrimStart(s) + [c])[..|TrimStart(s)|] == TrimStart(s);
  }

  // ------------------------------------------------------------------ splitting

  /** s.split(sep) for a single character. */
  function Split(s: string, sep: char): (parts: seq<string>)
    ensures parts != []
  {
    if s == "" then [""]
    else
      var c, before := s[|s| - 1], Split(s[..|s| - 1], sep);
      if c == sep then before + [""] else before[|before| - 1 := before[|before| - 1] + [c]]
  }

  ghost predicate AllWithout(parts: seq<string>, sep: char) { forall i :: 0 <= i < |parts| ==> Without(parts[i], sep) }

  lemma {:induction false} PartsLackSeparator(s: string, sep: char)
    ensures AllWithout(Split(s, sep), sep)
  {
    if s != "" { PartsLackSeparator(s[..|s| - 1], sep); }
  }

  lemma {:induction false} SplitLast(a: string, b: string, sep: char)
    requires Without(b, sep)
    ensures Split(a + [sep] + b, sep) == Split(a, sep) + [b]
  {
    var s := a + [sep] + b;
    if b == "" {
      assert s[..|s| - 1] == a;
    } else {
      var b' := b[..|b| - 1];
      assert s[..|s| - 1] == a + [sep] + b' && s[|s| - 1] == b[|b| - 1];
      SplitLast(a, b', sep);
      assert b == b' + [b[|b| - 1]];
    }
  }

  lemma {:induction false} SplitWhole(b: string, sep: char)
    requires Without(b, sep)
    ensures Split(b, sep) == [b]
  {
    if b != "" {
      SplitWhole(b[..|b| - 1], sep);
      assert b == b[..|b| - 1] + [b[|b| - 1]];
    }
  }

  lemma {:induction false} SplitUndoesJoin(parts: seq<string>, sep: char)
    requires parts != [] && AllWithout(parts, sep)
    ensures Split(Join(parts, sep), sep) == parts
  {
    var init, last := parts[..|parts| - 1], parts[|parts| - 1];
    assert Without(last, sep) && parts == init + [last];
    if init == [] {
      SplitWhole(last, sep);
    } else {
      assert forall i :: 0 <= i < |init| ==> init[i] == parts[i];
      SplitUndoesJoin(init, sep);
      SplitLast(Join(init, sep), last, sep);
    }
  }

  lemma SplitSnoc(s: string, c: char, sep: char)
    ensures var before := Split(s, sep);
            Split(s + [c], sep) == if c == sep then before + [""]
                                   else before[|before| - 1 := before[|before| - 1] + [c]]
  {
    assert (s + [c])[..|s|] == s;
  }

  lemma LastGrows(a: seq<string>, b: seq<string>, c: char)
    requires b != []
    ensures var all, k := a + b, |a + b| - 1; all[k := all[k] + [c]] == a + b[|b| - 1 := b[|b| - 1] + [c]]
  {
  }

  lemma SplitStep(text: string, done: seq<string>, rest: string, c: char, sep: char)
    requires Split(text, sep) == done + Split(rest, sep)
    ensures Split(text + [c], sep) == done + Split(rest + [c], sep)
  {
    SplitSnoc(text, c, sep);
    SplitSnoc(rest, c, sep);
    LastGrows(done, Split(rest, sep), c);
  }

  /** Text on both sides of a separator is split on its own. */
  lemma {:induction false} SplitConcat(s: string, t: string, sep: char)
    ensures Split(s + [sep] + t, sep) == Split(s, sep) + Split(t, sep)
  {
    if t == "" {
      assert s + [sep] + t == s + [sep];
      SplitSnoc(s, sep, sep);
    } else {
      var init, c := t[..|t| - 1], t[|t| - 1];
      SplitConcat(s, init, sep);
      SplitStep(s + [sep] + init, Split(s, sep), init, c, sep);
      assert t == init + [c] && s + [sep] + t == s + [sep] + init + [c];
    }
  }

  // ---------------------------------------------------------------------- lines

  /** .map(trim).filter(Boolean) */
  function Kept(parts: seq<string>): (r: seq<string>) {
    if parts == [] then []
    else
      var t := Trim(parts[|parts| - 1]);
      Kept(parts[..|parts| - 1]) + if t == "" then [] else [t]
  }

  function Lines(s: string): seq<string> { Kept(Split(s, '\n')) }

  function JoinLines(a: seq<string>): string { Join(a, '\n') }

  predicate IsLine(l: string) { l != "" && IsTrimmed(l) && Without(l, '\n') }

  ghost predicate AllLines(a: seq<string>) { forall i :: 0 <= i < |a| ==> IsLine(a[i]) }

  lemma {:induction false} KeptAreLines(parts: seq<string>)
    requires AllWithout(parts, '\n')
    ensures AllLines(Kept(parts))
  {
    if parts != [] {
      KeptAreLines(parts[..|parts| - 1]);
      TrimFixedPoints(parts[|parts| - 1]);
    }
  }

  lemma {:induction false} LinesAreKept(a: seq<string>)
    requires AllLines(a)
    ensures Kept(a) == a
  {
    if a != [] {
      LinesAreKept(a[..|a| - 1]);
      TrimFixedPoints(a[|a| - 1]);
      assert IsLine(a[|a| - 1]) && a == a[..|a| - 1] + [a[|a| - 1]];
    }
  }

  lemma LinesAreLines(s: string)
    ensures AllLines(Lines(s))
  {
    PartsLackSeparator(s, '\n');
    KeptAreLines(Split(s, '\n'));
  }

  /** Printing and parsing a list of lines gives it back exactly if they are trimmed and not empty. */
  lemma LinesRoundTrip(a: seq<string>)
    ensures Lines(JoinLines(a)) == a <==> AllLines(a)
  {
    LinesAreLines(JoinLines(a));
    if AllLines(a) {
      if a == [] {
        assert Split("", '\n') == [""] && Kept([""]) == [] by { assert [""][..0] == []; }
      } else {
        forall i | 0 <= i < |a| ensures Without(a[i], '\n') { assert IsLine(a[i]); }
        SplitUndoesJoin(a, '\n');
        LinesAreKept(a);
      }
    }
  }

  lemma {:induction false} KeptConcat(a: seq<string>, b: seq<string>)
    ensures Kept(a + b) == Kept(a) + Kept(b)
  {
    if b == [] {
      assert a + b == a;
    } else {
      assert (a + b)[..|a + b| - 1] == a + b[..|b| - 1];
      KeptConcat(a, b[..|b| - 1]);
    }
  }

  /** What a text's lines are: a newline parts them, each is trimmed, and a blank one does not count. */
  lemma LinesMean(s: string, t: string)
    ensures Lines(s + "\n" + t) == Lines(s) + Lines(t)
    ensures '\n' !in s ==> Lines(s) == if Trim(s) == "" then [] else [Trim(s)]
  {
    SplitConcat(s, t, '\n');
    KeptConcat(Split(s, '\n'), Split(t, '\n'));
    if '\n' !in s {
      SplitWhole(s, '\n');
      assert [s][..0] == [];
    }
  }

  // --------------------------------------------------------------------- tokens

  predicate IsSeparator(c: char) { IsWhite(c) || c == ',' }

  /** s.split(/[\s,]+/): the parts between maximal runs of separators. */
  function SplitRuns(s: string): (parts: seq<string>)
    ensures parts != []
  {
    if s == "" then [""]
    else
      var k := |s| - 1;
      var before := SplitRuns(s[..k]);
      if !IsSeparator(s[k]) then before[|before| - 1 := before[|before| - 1] + [s[k]]]
      else if k > 0 && IsSeparator(s[k - 1]) then before
      else before + [""]
  }

  /** .filter(Boolean) */
  function NonEmpty(parts: seq<string>): (r: seq<string>) {
    if parts == [] then []
    else NonEmpty(parts[..|parts| - 1]) + if parts[|parts| - 1] == "" then [] else [parts[|parts| - 1]]
  }

  function Tokens(s: string): seq<string> { NonEmpty(SplitRuns(s)) }

  function JoinTokens(a: seq<string>): string { Join(a, ' ') }

  predicate Solid(t: string) { forall i :: 0 <= i < |t| ==> !IsSeparator(t[i]) }

  predicate IsToken(t: string) { t != "" && Solid(t) }

  ghost predicate AllTokens(a: seq<string>) { forall i :: 0 <= i < |a| ==> IsToken(a[i]) }

  lemma {:induction false} RunsAreSolid(s: string)
    ensures forall i :: 0 <= i < |SplitRuns(s)| ==> Solid(SplitRuns(s)[i])
  {
    if s != "" { RunsAreSolid(s[..|s| - 1]); }
  }

  lemma {:induction false} SolidAreTokens(parts: seq<string>)
    requires forall i :: 0 <= i < |parts| ==> Solid(parts[i])
    ensures AllTokens(NonEmpty(parts))
  {
    if parts != [] { SolidAreTokens(parts[..|parts| - 1]); }
  }

  lemma {:induction false} TokensAreNonEmpty(a: seq<string>)
    requires AllTokens(a)
    ensures NonEmpty(a) == a
  {
    if a != [] {
      TokensAreNonEmpty(a[..|a| - 1]);
      assert IsToken(a[|a| - 1]) && a == a[..|a| - 1] + [a[|a| - 1]];
    }
  }

  lemma RunGrows(s: string, c: char)
    requires !IsSeparator(c)
    ensures var before := SplitRuns(s); SplitRuns(s + [c]) == before[|before| - 1 := before[|before| - 1] + [c]]
  {
    assert (s + [c])[..|s|] == s;
  }

  /** A solid string after a separator is a part of its own. */
  lemma {:induction false} RunLast(a: string, c: char, b: string)
    requires a != "" && !IsSeparator(a[|a| - 1]) && IsSeparator(c) && Solid(b)
    ensures SplitRuns(a + [c] + b) == SplitRuns(a) + [b]
  {
    if b == "" {
      assert (a + [c])[..|a|] == a && a + [c] + b == a + [c];
    } else {
      var init, last := b[..|b| - 1], b[|b| - 1];
      RunLast(a, c, init);
      RunGrows(a + [c] + init, last);
      assert b == init + [last] && a + [c] + b == a + [c] + init + [last];
    }
  }

  lemma {:induction false} RunWhole(b: string)
    requires Solid(b)
    ensures SplitRuns(b) == [b]
  {
    if b != "" {
      RunWhole(b[..|b| - 1]);
      assert b == b[..|b| - 1] + [b[|b| - 1]];
    }
  }

  lemma {:induction false} RunsUndoJoin(a: seq<string>)
    requires a != [] && AllTokens(a)
    ensures SplitRuns(JoinTokens(a)) == a
    ensures JoinTokens(a) != "" && !IsSeparator(JoinTokens(a)[|JoinTokens(a)| - 1])
  {
    var init, last := a[..|a| - 1], a[|a| - 1];
    assert IsToken(last) && a == init + [last];
    if init == [] {
      RunWhole(last);
    } else {
      assert forall i :: 0 <= i < |init| ==> init[i] == a[i];
      RunsUndoJoin(init);
      RunLast(JoinTokens(init), ' ', last);
    }
  }

  /** Printing and parsing a list of tokens gives it back exactly if none is empty or holds a
      separator. */
  lemma TokensRoundTrip(a: seq<string>)
    ensures Tokens(JoinTokens(a)) == a <==> AllTokens(a)
  {
    RunsAreSolid(JoinTokens(a));
    SolidAreTokens(SplitRuns(JoinTokens(a)));
    if AllTokens(a) {
      if a == [] {
        assert SplitRuns("") == [""] && NonEmpty([""]) == [] by { assert [""][..0] == []; }
      } else {
        RunsUndoJoin(a);
        TokensAreNonEmpty(a);
      }
    }
  }

  /** The part being read is empty at the start and after a separator. */
  lemma OpenPart(s: string)
    ensures SplitRuns(s)[|SplitRuns(s)| - 1] == "" <==> s == "" || IsSeparator(s[|s| - 1])
  {
    if s != "" && IsSeparator(s[|s| - 1]) && |s| > 1 && IsSeparator(s[|s| - 2]) { OpenPart(s[..|s| - 1]); }
  }

  lemma NonEmptySnoc(parts: seq<string>, p: string)
    ensures NonEmpty(parts + [p]) == NonEmpty(parts) + if p == "" then [] else [p]
  {
    assert (parts + [p])[..|parts|] == parts;
  }

  /** The tokens after one more character: a separator ends a token, anything else makes the one that is
      being read longer, or begins one. */
  function Grown(before: seq<string>, open: bool, c: char): seq<string>
    requires open ==> before != []
  {
    if IsSeparator(c) then before
    else if open then before[|before| - 1 := before[|before| - 1] + [c]]
    else before + [[c]]
  }

  predicate IsOpen(s: string) { s != "" && !IsSeparator(s[|s| - 1]) }

  lemma TokensGrow(s: string, c: char)
    ensures IsOpen(s) ==> Tokens(s) != []
    ensures Tokens(s + [c]) == Grown(Tokens(s), IsOpen(s), c)
  {
    var parts := SplitRuns(s);
    var init, last := parts[..|parts| - 1], parts[|parts| - 1];
    OpenPart(s);
    assert parts == init + [last] && (s + [c])[..|s|] == s;
    NonEmptySnoc(init, last);
    if IsSeparator(c) {
      NonEmptySnoc(parts, "");
    } else {
      assert SplitRuns(s + [c]) == init + [last + [c]];
      NonEmptySnoc(init, last + [c]);
      if last == "" { assert last + [c] == [c] && NonEmpty(init) + [] == NonEmpty(init); }
    }
  }

  lemma GrownConcat(a: seq<string>, b: seq<string>, open: bool, c: char)
    requires open ==> b != []
    ensures Grown(a + b, open, c) == a + Grown(b, open, c)
  {
  }

  lemma TokensStep(text: string, done: seq<string>, rest: string, c: char)
    requires Tokens(text) == done + Tokens(rest) && IsOpen(text) == IsOpen(rest)
    ensures Tokens(text + [c]) == done + Tokens(rest + [c])
  {
    TokensGrow(text, c);
    TokensGrow(rest, c);
    GrownConcat(done, Tokens(rest), IsOpen(rest), c);
  }

  /** What a text's tokens are: white space and commas part them, and a string without either is one. */
  lemma {:induction false} TokensMean(s: string, c: char, t: string)
    requires c == ',' || IsWhite(c)
    ensures Tokens(s + [c] + t) == Tokens(s) + Tokens(t)
  {
    if t == "" {
      assert s + [c] + t == s + [c];
      TokensGrow(s, c);
      TokenAlone("");
    } else {
      var init, d := t[..|t| - 1], t[|t| - 1];
      TokensMean(s, c, init);
      TokensStep(s + [c] + init, Tokens(s), init, d);
      assert t == init + [d] && s + [c] + t == s + [c] + init + [d];
    }
  }

  lemma TokenAlone(s: string)
    requires forall i :: 0 <= i < |s| ==> s[i] != ',' && !IsWhite(s[i])
    ensures Tokens(s) == if s == "" then [] else [s]
  {
    assert Solid(s);
    RunWhole(s);
    NonEmptySnoc([], s);
    assert [] + [s] == [s];
  }

  // ---------------------------------------------------------------------- pairs

  /** line.indexOf(c), with -1 for none. */
  function IndexOf(s: string, c: char): (i: int)
    ensures -1 <= i < |s|
    ensures i == -1 <==> c !in s
    ensures i >= 0 ==> s[i] == c && forall j :: 0 <= j < i ==> s[j] != c
  {
    if s == "" then -1
    else if s[0] == c then 0
    else
      var rest := IndexOf(s[1..], c);
      assert s == [s[0]] + s[1..];
      if rest < 0 then -1 else rest + 1
  }

  /** Assigning to this key of a JavaScript object sets no property. */
  const PROTO := "__proto__"

  function AddPair(out: map<string, string>, line: string): map<string, string> {
    var eq := IndexOf(line, '=');
    if eq <= 0 then out
    else if Trim(line[..eq]) == PROTO then out
    else out[Trim(line[..eq]) := Trim(line[eq + 1..])]
  }

  function PairsOf(ls: seq<string>): map<string, string> {
    if ls == [] then map[] else AddPair(PairsOf(ls[..|ls| - 1]), ls[|ls| - 1])
  }

  lemma NextPair(ls: seq<string>, i: nat)
    requires i < |ls|
    ensures PairsOf(ls[..i + 1]) == AddPair(PairsOf(ls[..i]), ls[i])
  {
    assert ls[..i + 1][..i] == ls[..i];
  }

  method Pairs(s: string) returns (out: map<string, string>)
    ensures out == PairsOf(Lines(s))
  {
    out := map[];
    var ls := Lines(s);
    for i := 0 to |ls|
      invariant out == PairsOf(ls[..i])
    {
      var line := ls[i];
      NextPair(ls, i);
      var eq := IndexOf(line, '=');
      if eq > 0 {
        var key := Trim(line[..eq]);
        if key != PROTO { out := out[key := Trim(line[eq + 1..])]; }
      }
    }
    assert ls[..|ls|] == ls;
  }

  predicate LegalKey(k: string) { k != "" && IsTrimmed(k) && Without(k, '=') && Without(k, '\n') && k != PROTO }

  predicate LegalValue(v: string) { IsTrimmed(v) && Without(v, '\n') }

  predicate LegalAt(m: map<string, string>, k: string) { k in m ==> LegalKey(k) && LegalValue(m[k]) }

  ghost predicate LegalRecord(m: map<string, string>) { forall k :: LegalAt(m, k) }

  lemma PairIsLegal(line: string)
    requires IsLine(line) && IndexOf(line, '=') > 0
    ensures var eq := IndexOf(line, '=');
            (Trim(line[..eq]) != PROTO ==> LegalKey(Trim(line[..eq]))) && LegalValue(Trim(line[eq + 1..]))
  {
    var eq := IndexOf(line, '=');
    var k, v := line[..eq], line[eq + 1..];
    TrimFixedPoints(k);
    TrimFixedPoints(v);
    assert Without(k, '=') && Without(k, '\n') && Without(v, '\n');
    assert k[0] == line[0] && TrimStart(k) == k;
    StartsSolid(k);
  }

  /** Trimming keeps a first character that is not white. */
  lemma {:induction false} StartsSolid(s: string)
    requires s != "" && !IsWhite(s[0])
    ensures TrimEnd(s) != ""
  {
    if IsWhite(s[|s| - 1]) { StartsSolid(s[..|s| - 1]); }
  }

  lemma {:induction false} PairsAreLegal(ls: seq<string>)
    requires AllLines(ls)
    ensures LegalRecord(PairsOf(ls))
  {
    if ls != [] {
      var init, line := ls[..|ls| - 1], ls[|ls| - 1];
      PairsAreLegal(init);
      assert IsLine(line);
      if IndexOf(line, '=') > 0 { PairIsLegal(line); }
      forall k ensures LegalAt(PairsOf(ls), k) { assert LegalAt(PairsOf(init), k); }
    }
  }

  function Printed(e: (string, string)): string { e.0 + "=" + e.1 }

  lemma PrintedIsLine(e: (string, string))
    requires LegalKey(e.0) && LegalValue(e.1)
    ensures IsLine(Printed(e))
    ensures forall out :: AddPair(out, Printed(e)) == out[e.0 := e.1]
  {
    var line := Printed(e);
    assert line[|e.0|] == '=' && line[0] == e.0[0];
    var eq := IndexOf(line, '=');
    assert forall i :: 0 <= i < |e.0| ==> line[i] == e.0[i];
    assert eq == |e.0|;
    assert line[..eq] == e.0 && line[eq + 1..] == e.1;
    TrimFixedPoints(e.0);
    TrimFixedPoints(e.1);
    assert line[|line| - 1] == if e.1 == "" then '=' else e.1[|e.1| - 1];
    assert Without(line, '\n');
  }

  lemma PairsSnoc(ls: seq<string>, line: string)
    ensures PairsOf(ls + [line]) == AddPair(PairsOf(ls), line)
  {
    assert (ls + [line])[..|ls|] == ls;
  }

  lemma PairAddedLast(m: map<string, string>, n: map<string, string>, line: string)
    ensures AddPair(m + n, line) == m + AddPair(n, line)
  {
    var k := Trim(line[..if IndexOf(line, '=') < 0 then 0 else IndexOf(line, '=')]);
    var v := Trim(line[IndexOf(line, '=') + 1..]);
    assert (m + n)[k := v] == m + n[k := v];
  }

  lemma {:induction false} PairsConcat(a: seq<string>, b: seq<string>)
    ensures PairsOf(a + b) == PairsOf(a) + PairsOf(b)
  {
    if b == [] {
      assert a + b == a && PairsOf(a) + map[] == PairsOf(a);
    } else {
      var init, line := b[..|b| - 1], b[|b| - 1];
      assert b == init + [line] && a + b == a + init + [line];
      PairsConcat(a, init);
      PairsSnoc(a + init, line);
      PairsSnoc(init, line);
      PairAddedLast(PairsOf(a), PairsOf(init), line);
    }
  }

  /** What a text's pairs are: one a line, of which the last with a key counts; key and value are parted by
      the first "=" and trimmed, and a line without a key says nothing. */
  lemma PairsMean(s: string, t: string, k: string, v: string)
    ensures PairsOf(Lines(s + "\n" + t)) == PairsOf(Lines(s)) + PairsOf(Lines(t))
    ensures '=' !in k ==>
      && PairsOf([k]) == map[]
      && PairsOf([k + "=" + v]) == if k == "" || Trim(k) == "__proto__" then map[] else map[Trim(k) := Trim(v)]
  {
    LinesMean(s, t);
    PairsConcat(Lines(s), Lines(t));
    if '=' !in k {
      var line := k + "=" + v;
      assert line[|k|] == '=' && forall i :: 0 <= i < |k| ==> line[i] == k[i];
      assert IndexOf(line, '=') == |k|;
      assert line[..|k|] == k && line[|k| + 1..] == v;
      assert [line][..0] == [] && [k][..0] == [];
    }
  }

  function PrintAll(entries: seq<(string, string)>): (ls: seq<string>)
    ensures |ls| == |entries| && forall i :: 0 <= i < |entries| ==> ls[i] == Printed(entries[i])
  {
    seq(|entries|, i requires 0 <= i < |entries| => Printed(entries[i]))
  }

  function JoinPairs(entries: seq<(string, string)>): string { JoinLines(PrintAll(entries)) }

  predicate Holds(m: map<string, string>, e: (string, string)) { e.0 in m && m[e.0] == e.1 }

  /** Object.entries(m): every entry once, in an order that nothing may depend on. */
  ghost predicate Enumerates(entries: seq<(string, string)>, m: map<string, string>) {
    && (forall i, j :: 0 <= i < j < |entries| ==> entries[i].0 != entries[j].0)
    && (forall i :: 0 <= i < |entries| ==> Holds(m, entries[i]))
    && forall k :: k in m ==> HasKey(entries, |entries|, k)
  }

  ghost predicate HasKey(entries: seq<(string, string)>, n: nat, k: string)
    requires n <= |entries|
  {
    exists i :: 0 <= i < n && entries[i].0 == k
  }

  lemma {:induction false} ParsedSoFar(entries: seq<(string, string)>, m: map<string, string>, n: nat)
    requires n <= |entries| && Enumerates(entries, m) && LegalRecord(m)
    ensures forall i :: 0 <= i < n ==> Holds(PairsOf(PrintAll(entries)[..n]), entries[i])
    ensures forall k :: k in PairsOf(PrintAll(entries)[..n]) ==> HasKey(entries, n, k)
    decreases n
  {
    if n > 0 {
      var ls, e := PrintAll(entries), entries[n - 1];
      ParsedSoFar(entries, m, n - 1);
      assert ls[..n][..n - 1] == ls[..n - 1];
      assert Holds(m, e) && LegalAt(m, e.0);
      PrintedIsLine(e);
      var before := PairsOf(ls[..n - 1]);
      assert PairsOf(ls[..n]) == before[e.0 := e.1];
      forall i | 0 <= i < n ensures Holds(PairsOf(ls[..n]), entries[i]) {
        if i < n - 1 { assert Holds(before, entries[i]); }
      }
      forall k | k in PairsOf(ls[..n]) ensures HasKey(entries, n, k) {
        if k != e.0 { assert HasKey(entries, n - 1, k); }
      }
    }
  }

  /** Printing and parsing a record gives it back, in whatever order it is printed, exactly if its
      keys and values are what parsing can produce. */
  lemma PairsRoundTrip(entries: seq<(string, string)>, m: map<string, string>)
    requires Enumerates(entries, m)
    ensures PairsOf(Lines(JoinPairs(entries))) == m <==> LegalRecord(m)
  {
    LinesAreLines(JoinPairs(entries));
    PairsAreLegal(Lines(JoinPairs(entries)));
    if LegalRecord(m) {
      var ls := PrintAll(entries);
      forall i | 0 <= i < |ls| ensures IsLine(ls[i]) {
        assert Holds(m, entries[i]) && LegalAt(m, entries[i].0);
        PrintedIsLine(entries[i]);
      }
      LinesRoundTrip(ls);
      Reparsed(entries, m);
    }
  }

  lemma KeyIsAnEntry(entries: seq<(string, string)>, k: string) returns (i: nat)
    requires HasKey(entries, |entries|, k)
    ensures i < |entries| && entries[i].0 == k
  {
    i :| 0 <= i < |entries| && entries[i].0 == k;
  }

  lemma Reparsed(entries: seq<(string, string)>, m: map<string, string>)
    requires Enumerates(entries, m) && LegalRecord(m)
    ensures PairsOf(PrintAll(entries)) == m
  {
    var ls := PrintAll(entries);
    ParsedSoFar(entries, m, |entries|);
    assert ls[..|entries|] == ls;
    var parsed := PairsOf(ls);
    forall k | k in parsed || k in m ensures k in parsed && k in m && parsed[k] == m[k] {
      assert HasKey(entries, |entries|, k);
      var i := KeyIsAnEntry(entries, k);
      assert Holds(m, entries[i]) && Holds(parsed, entries[i]);
    }
    assert parsed == m;
  }

  // ------------------------------------------------------------------- the form

  /** A JavaScript number, as far as these conversions tell numbers apart. */
  datatype Num = NaN | Infinite(negative: bool) | Finite(value: real)

  /** Number(x) || 0 */
  function OrZero(n: Num): (r: Num)
    ensures !r.NaN? && (n.NaN? ==> r == Finite(0.0)) && (!n.NaN? ==> r == n)
  {
    if n == NaN then Finite(0.0) else n
  }

  datatype VolumeMount = VolumeMount(kind: string, source: string, target: string, readOnly: bool)

  datatype Health = Health(test: seq<string>, intervalSec: Num, timeoutSec: Num, retries: Num, startPeriodSec: Num)

  datatype Form = Form(
    ports: seq<PortMap>, mounts: seq<VolumeMount>, command: string, entrypoint: string, workingDir: string,
    user: string, hostname: string, restartPolicy: string, restartRetries: Num, privileged: bool, readonlyRootfs: bool,
    init: bool, capAdd: string, capDrop: string, extraHosts: string, dns: string, devices: string, labels: string,
    sysctls: string, tmpfs: string, pidsLimit: Num, memorySwapMB: Num, cpuShares: Num, stopSignal: string,
    stopTimeoutSec: Num, logDriver: string, healthTest: string, healthIntervalSec: Num, healthTimeoutSec: Num,
    healthRetries: Num)

  /** The options that the API takes. */
  datatype Options = Options(
    ports: seq<PortMap>, mounts: seq<VolumeMount>, command: seq<string>, entrypoint: seq<string>, workingDir: string,
    user: string, hostname: string, labels: map<string, string>, extraHosts: seq<string>, restartPolicy: string,
    restartRetries: Num, capAdd: seq<string>, capDrop: seq<string>, privileged: bool, readonlyRootfs: bool, init: bool,
    dns: seq<string>, devices: seq<string>, sysctls: map<string, string>, tmpfs: map<string, string>, pidsLimit: Num,
    memorySwapMB: Num, cpuShares: Num, stopSignal: string, stopTimeoutSec: Num, logDriver: string,
    logOpts: map<string, string>, health: Option<Health>)

  function FilledPorts(ports: seq<PortMap>): (r: seq<PortMap>) {
    if ports == [] then []
    else
      var last := ports[|ports| - 1];
      FilledPorts(ports[..|ports| - 1]) + if Trim(last.containerPort) != "" then [last] else []
  }

  function FilledMounts(mounts: seq<VolumeMount>): (r: seq<VolumeMount>) {
    if mounts == [] then []
    else
      var last := mounts[|mounts| - 1];
      FilledMounts(mounts[..|mounts| - 1]) + if Trim(last.target) != "" then [last] else []
  }

  function BuildHealth(f: Form): Option<Health> {
    if Trim(f.healthTest) != ""
    then Some(Health(["CMD-SHELL", f.healthTest], OrZero(f.healthIntervalSec), OrZero(f.healthTimeoutSec),
                     OrZero(f.healthRetries), Finite(0.0)))
    else None
  }

  /** Each option comes from its own field of the form. */
  predicate SubmitsPlain(f: Form, s: Options) {
    && s.workingDir == f.workingDir && s.user == f.user && s.hostname == f.hostname
    && s.restartPolicy == f.restartPolicy && s.privileged == f.privileged && s.readonlyRootfs == f.readonlyRootfs
    && s.init == f.init && s.stopSignal == f.stopSignal && s.logDriver == f.logDriver && s.logOpts == map[]
    && s.restartRetries == OrZero(f.restartRetries) && s.pidsLimit == OrZero(f.pidsLimit)
    && s.memorySwapMB == OrZero(f.memorySwapMB) && s.cpuShares == OrZero(f.cpuShares)
    && s.stopTimeoutSec == OrZero(f.stopTimeoutSec)
  }

  predicate SubmitsText(f: Form, s: Options) {
    && s.ports == FilledPorts(f.ports) && s.mounts == FilledMounts(f.mounts)
    && s.command == Lines(f.command) && s.entrypoint == Lines(f.entrypoint) && s.extraHosts == Lines(f.extraHosts)
    && s.dns == Lines(f.dns) && s.devices == Lines(f.devices)
    && s.capAdd == Tokens(f.capAdd) && s.capDrop == Tokens(f.capDrop)
    && s.labels == PairsOf(Lines(f.labels)) && s.sysctls == PairsOf(Lines(f.sysctls))
    && s.tmpfs == PairsOf(Lines(f.tmpfs))
  }

  /** A check is run by the shell; without a command there is none. */
  predicate SubmitsHealth(f: Form, s: Options) {
    if Trim(f.healthTest) == "" then s.health.None?
    else
      && s.health.Some? && s.health.value.test == ["CMD-SHELL", f.healthTest]
      && s.health.value.intervalSec == OrZero(f.healthIntervalSec)
      && s.health.value.timeoutSec == OrZero(f.healthTimeoutSec)
      && s.health.value.retries == OrZero(f.healthRetries) && s.health.value.startPeriodSec == Finite(0.0)
  }

  function BuildAdvanced(f: Form): (s: Options)
    ensures SubmitsPlain(f, s) && SubmitsText(f, s) && SubmitsHealth(f, s)
  {
    Options(
      FilledPorts(f.ports), FilledMounts(f.mounts), Lines(f.command), Lines(f.entrypoint), f.workingDir, f.user,
      f.hostname, PairsOf(Lines(f.labels)), Lines(f.extraHosts), f.restartPolicy, OrZero(f.restartRetries),
      Tokens(f.capAdd), Tokens(f.capDrop), f.privileged, f.readonlyRootfs, f.init, Lines(f.dns), Lines(f.devices),
      PairsOf(Lines(f.sysctls)), PairsOf(Lines(f.tmpfs)), OrZero(f.pidsLimit), OrZero(f.memorySwapMB),
      OrZero(f.cpuShares), f.stopSignal, OrZero(f.stopTimeoutSec), f.logDriver, map[], BuildHealth(f))
  }

  /** The orders in which Object.entries lists the three records. */
  datatype Orders = Orders(labels: seq<(string, string)>, sysctls: seq<(string, string)>, tmpfs: seq<(string, string)>)

  ghost predicate OrdersOf(o: Orders, s: Options) {
    Enumerates(o.labels, s.labels) && Enumerates(o.sysctls, s.sysctls) && Enumerates(o.tmpfs, s.tmpfs)
  }

  const DEFAULT_RESTART := "unless-stopped"

  function LastOr(a: seq<string>, d: string): string { if a == [] then d else a[|a| - 1] }

  /** Each field shows its own option. */
  predicate ShowsPlain(s: Options, f: Form) {
    && f.ports == s.ports && f.mounts == s.mounts && f.workingDir == s.workingDir && f.user == s.user
    && f.hostname == s.hostname && f.privileged == s.privileged && f.readonlyRootfs == s.readonlyRootfs
    && f.init == s.init && f.stopSignal == s.stopSignal && f.logDriver == s.logDriver
    && f.restartPolicy == (if s.restartPolicy == "" then "unless-stopped" else s.restartPolicy)
    && f.restartRetries == s.restartRetries && f.pidsLimit == s.pidsLimit && f.memorySwapMB == s.memorySwapMB
    && f.cpuShares == s.cpuShares && f.stopTimeoutSec == s.stopTimeoutSec
  }

  predicate ShowsText(s: Options, o: Orders, f: Form) {
    && f.command == JoinLines(s.command) && f.entrypoint == JoinLines(s.entrypoint)
    && f.extraHosts == JoinLines(s.extraHosts) && f.dns == JoinLines(s.dns) && f.devices == JoinLines(s.devices)
    && f.capAdd == JoinTokens(s.capAdd) && f.capDrop == JoinTokens(s.capDrop)
    && f.labels == JoinPairs(o.labels) && f.sysctls == JoinPairs(o.sysctls) && f.tmpfs == JoinPairs(o.tmpfs)
  }

  predicate ShowsHealth(s: Options, f: Form) {
    if s.health.None? then
      f.healthTest == "" && f.healthIntervalSec == f.healthTimeoutSec == f.healthRetries == Finite(0.0)
    else
      var h := s.health.value;
      && f.healthTest == (if h.test == [] then "" else h.test[|h.test| - 1])
      && f.healthIntervalSec == h.intervalSec && f.healthTimeoutSec == h.timeoutSec && f.healthRetries == h.retries
  }

  function AdvToForm(s: Options, o: Orders): (f: Form)
    ensures ShowsPlain(s, f) && ShowsText(s, o, f) && ShowsHealth(s, f)
  {
    var h := s.health;
    Form(
      s.ports, s.mounts, JoinLines(s.command), JoinLines(s.entrypoint), s.workingDir, s.user, s.hostname,
      if s.restartPolicy == "" then DEFAULT_RESTART else s.restartPolicy, s.restartRetries, s.privileged,
      s.readonlyRootfs, s.init, JoinTokens(s.capAdd), JoinTokens(s.capDrop), JoinLines(s.extraHosts), JoinLines(s.dns),
      JoinLines(s.devices), JoinPairs(o.labels), JoinPairs(o.sysctls), JoinPairs(o.tmpfs), s.pidsLimit,
      s.memorySwapMB, s.cpuShares, s.stopSignal, s.stopTimeoutSec, s.logDriver,
      if h.Some? then LastOr(h.value.test, "") else "",
      if h.Some? then h.value.intervalSec else Finite(0.0), if h.Some? then h.value.timeoutSec else Finite(0.0),
      if h.Some? then h.value.retries else Finite(0.0))
  }

  // ------------------------------------------------------------- the round trip

  ghost predicate PortsFilled(ports: seq<PortMap>)
  {
    forall i :: 0 <= i < |ports| ==> Trim(ports[i].containerPort) != ""
  }

  ghost predicate MountsFilled(mounts: seq<VolumeMount>)
  {
    forall i :: 0 <= i < |mounts| ==> Trim(mounts[i].target) != ""
  }

  lemma {:induction false} FilledPortsFixed(ports: seq<PortMap>)
    ensures PortsFilled(FilledPorts(ports))
    ensures FilledPorts(ports) == ports <==> PortsFilled(ports)
    ensures |FilledPorts(ports)| <= |ports|
  {
    if ports != [] {
      FilledPortsFixed(ports[..|ports| - 1]);
      assert ports == ports[..|ports| - 1] + [ports[|ports| - 1]];
    }
  }

  lemma {:induction false} FilledMountsFixed(mounts: seq<VolumeMount>)
    ensures MountsFilled(FilledMounts(mounts))
    ensures FilledMounts(mounts) == mounts <==> MountsFilled(mounts)
    ensures |FilledMounts(mounts)| <= |mounts|
  {
    if mounts != [] {
      FilledMountsFixed(mounts[..|mounts| - 1]);
      assert mounts == mounts[..|mounts| - 1] + [mounts[|mounts| - 1]];
    }
  }

  /** Each port and each mount is kept or dropped for itself. */
  lemma {:induction false} FilledPortsConcat(a: seq<PortMap>, b: seq<PortMap>)
    ensures FilledPorts(a + b) == FilledPorts(a) + FilledPorts(b)
  {
    if b == [] {
      assert a + b == a;
    } else {
      assert (a + b)[..|a + b| - 1] == a + b[..|b| - 1];
      FilledPortsConcat(a, b[..|b| - 1]);
    }
  }

  lemma {:induction false} FilledMountsConcat(a: seq<VolumeMount>, b: seq<VolumeMount>)
    ensures FilledMounts(a + b) == FilledMounts(a) + FilledMounts(b)
  {
    if b == [] {
      assert a + b == a;
    } else {
      assert (a + b)[..|a + b| - 1] == a + b[..|b| - 1];
      FilledMountsConcat(a, b[..|b| - 1]);
    }
  }

  /** The lists and records are what parsing text yields. */
  ghost predicate TextShaped(s: Options) {
    && AllLines(s.command) && AllLines(s.entrypoint) && AllLines(s.extraHosts) && AllLines(s.dns) && AllLines(s.devices)
    && AllTokens(s.capAdd) && AllTokens(s.capDrop)
    && LegalRecord(s.labels) && LegalRecord(s.sysctls) && LegalRecord(s.tmpfs)
  }

  /** Everything is a number. */
  predicate NumbersShaped(s: Options) {
    && !s.restartRetries.NaN? && !s.pidsLimit.NaN? && !s.memorySwapMB.NaN? && !s.cpuShares.NaN?
    && !s.stopTimeoutSec.NaN?
  }

  /** The form can express the health check: one shell command and no start period. */
  predicate HealthShaped(h: Option<Health>) {
    h.Some? ==>
      && |h.value.test| == 2 && h.value.test[0] == "CMD-SHELL" && Trim(h.value.test[1]) != ""
      && !h.value.intervalSec.NaN? && !h.value.timeoutSec.NaN? && !h.value.retries.NaN?
      && h.value.startPeriodSec == Finite(0.0)
  }

  ghost predicate RestShaped(s: Options) {
    && PortsFilled(s.ports) && MountsFilled(s.mounts) && HealthShaped(s.health)
    && s.restartPolicy != "" && s.logOpts == map[]
  }

  /** The options that the form can express. */
  ghost predicate FormShaped(s: Options) { TextShaped(s) && NumbersShaped(s) && RestShaped(s) }

  predicate TextSame(t: Options, s: Options) {
    && t.command == s.command && t.entrypoint == s.entrypoint && t.extraHosts == s.extraHosts && t.dns == s.dns
    && t.devices == s.devices && t.capAdd == s.capAdd && t.capDrop == s.capDrop
    && t.labels == s.labels && t.sysctls == s.sysctls && t.tmpfs == s.tmpfs
  }

  predicate NumbersSame(t: Options, s: Options) {
    && t.restartRetries == s.restartRetries && t.pidsLimit == s.pidsLimit && t.memorySwapMB == s.memorySwapMB
    && t.cpuShares == s.cpuShares && t.stopTimeoutSec == s.stopTimeoutSec
  }

  predicate PlainSame(t: Options, s: Options) {
    && t.workingDir == s.workingDir && t.user == s.user && t.hostname == s.hostname && t.privileged == s.privileged
    && t.readonlyRootfs == s.readonlyRootfs && t.init == s.init && t.stopSignal == s.stopSignal
    && t.logDriver == s.logDriver
  }

  predicate RestSame(t: Options, s: Options) {
    && t.ports == s.ports && t.mounts == s.mounts && t.restartPolicy == s.restartPolicy
    && t.logOpts == s.logOpts && t.health == s.health
  }

  lemma SameEverywhere(t: Options, s: Options)
    ensures t == s <==> TextSame(t, s) && NumbersSame(t, s) && PlainSame(t, s) && RestSame(t, s)
  {
  }

  lemma TextRoundTrip(s: Options, o: Orders)
    requires OrdersOf(o, s)
    ensures TextSame(BuildAdvanced(AdvToForm(s, o)), s) <==> TextShaped(s)
  {
    LinesRoundTrip(s.command);
    LinesRoundTrip(s.entrypoint);
    LinesRoundTrip(s.extraHosts);
    LinesRoundTrip(s.dns);
    LinesRoundTrip(s.devices);
    TokensRoundTrip(s.capAdd);
    TokensRoundTrip(s.capDrop);
    PairsRoundTrip(o.labels, s.labels);
    PairsRoundTrip(o.sysctls, s.sysctls);
    PairsRoundTrip(o.tmpfs, s.tmpfs);
  }

  lemma HealthRoundTrip(s: Options, o: Orders)
    ensures BuildHealth(AdvToForm(s, o)) == s.health <==> HealthShaped(s.health)
  {
    var f := AdvToForm(s, o);
    assert Trim("") == "";
    if s.health.Some? && HealthShaped(s.health) {
      var t := s.health.value.test;
      assert t == ["CMD-SHELL", t[1]];
    }
  }

  lemma NumbersRoundTrip(s: Options, o: Orders)
    ensures NumbersSame(BuildAdvanced(AdvToForm(s, o)), s) <==> NumbersShaped(s)
  {
  }

  lemma PlainRoundTrip(s: Options, o: Orders)
    ensures PlainSame(BuildAdvanced(AdvToForm(s, o)), s)
  {
  }

  lemma RestRoundTrip(s: Options, o: Orders)
    ensures RestSame(BuildAdvanced(AdvToForm(s, o)), s) <==> RestShaped(s)
  {
    var f := AdvToForm(s, o);
    assert f.ports == s.ports && f.mounts == s.mounts;
    HealthRoundTrip(s, o);
    FilledPortsFixed(s.ports);
    FilledMountsFixed(s.mounts);
    var t := BuildAdvanced(f);
    assert t.ports == FilledPorts(s.ports) && t.mounts == FilledMounts(s.mounts) && t.logOpts == map[];
    assert t.restartPolicy == f.restartPolicy && t.health == BuildHealth(f);
  }

  /** Editing what the API stored and submitting it unchanged is lossless exactly for the options
      that the form can express. */
  lemma EditRoundTrip(s: Options, o: Orders)
    requires OrdersOf(o, s)
    ensures BuildAdvanced(AdvToForm(s, o)) == s <==> FormShaped(s)
  {
    TextRoundTrip(s, o);
    NumbersRoundTrip(s, o);
    PlainRoundTrip(s, o);
    RestRoundTrip(s, o);
    SameEverywhere(BuildAdvanced(AdvToForm(s, o)), s);
  }

  lemma TokensAreTokens(s: string)
    ensures AllTokens(Tokens(s))
  {
    RunsAreSolid(s);
    SolidAreTokens(SplitRuns(s));
  }

  lemma PairsOfText(s: string)
    ensures LegalRecord(PairsOf(Lines(s)))
  {
    LinesAreLines(s);
    PairsAreLegal(Lines(s));
  }

  lemma SubmittedText(f: Form)
    ensures TextShaped(BuildAdvanced(f))
  {
    LinesAreLines(f.command);
    LinesAreLines(f.entrypoint);
    LinesAreLines(f.extraHosts);
    LinesAreLines(f.dns);
    LinesAreLines(f.devices);
    TokensAreTokens(f.capAdd);
    TokensAreTokens(f.capDrop);
    PairsOfText(f.labels);
    PairsOfText(f.sysctls);
    PairsOfText(f.tmpfs);
  }

  /** What the form submits can be expressed by it again, unless the restart policy is empty. */
  lemma SubmittedIsFormShaped(f: Form)
    ensures FormShaped(BuildAdvanced(f)) <==> f.restartPolicy != ""
  {
    SubmittedText(f);
    FilledPortsFixed(f.ports);
    FilledMountsFixed(f.mounts);
    var t := BuildAdvanced(f);
    assert t.ports == FilledPorts(f.ports) && t.mounts == FilledMounts(f.mounts) && t.logOpts == map[];
    assert t.restartPolicy == f.restartPolicy && NumbersShaped(t) && HealthShaped(t.health);
  }

  /** Printer and parser undo each other: reopening and resubmitting a form changes nothing, in
      whatever order the records are printed, exactly if it has a restart policy. */
  lemma FormRoundTrip(f: Form, o: Orders)
    requires OrdersOf(o, BuildAdvanced(f))
    ensures BuildAdvanced(AdvToForm(BuildAdvanced(f), o)) == BuildAdvanced(f) <==> f.restartPolicy != ""
  {
    SubmittedIsFormShaped(f);
    EditRoundTrip(BuildAdvanced(f), o);
  }

  // -- what does not survive

  /** Log options are dropped: the rest comes back without them. */
  lemma LogOptionsLost(s: Options, o: Orders, opts: map<string, string>)
    requires OrdersOf(o, s) && FormShaped(s)
    ensures BuildAdvanced(AdvToForm(s.(logOpts := opts), o)) == s
  {
    EditRoundTrip(s, o);
    assert AdvToForm(s.(logOpts := opts), o) == AdvToForm(s, o);
  }

  /** So is a start period. */
  lemma StartPeriodLost(s: Options, o: Orders, seconds: Num)
    requires OrdersOf(o, s) && FormShaped(s) && s.health.Some?
    ensures BuildAdvanced(AdvToForm(s.(health := Some(s.health.value.(startPeriodSec := seconds))), o)) == s
  {
    EditRoundTrip(s, o);
    assert AdvToForm(s.(health := Some(s.health.value.(startPeriodSec := seconds))), o) == AdvToForm(s, o);
  }

  lemma SameTestSameForm(s: Options, o: Orders, test: seq<string>)
    requires s.health.Some? && LastOr(test, "") == LastOr(s.health.value.test, "")
    ensures AdvToForm(s.(health := Some(s.health.value.(test := test))), o) == AdvToForm(s, o)
  {
  }

  /** A check that is not run by the shell becomes one that is. */
  lemma ExecCheckBecomesShell(s: Options, o: Orders, test: seq<string>)
    requires OrdersOf(o, s) && FormShaped(s) && s.health.Some?
    requires test != [] && test[|test| - 1] == s.health.value.test[1]
    ensures BuildAdvanced(AdvToForm(s.(health := Some(s.health.value.(test := test))), o)) == s
  {
    EditRoundTrip(s, o);
    SameTestSameForm(s, o, test);
  }

  /** An empty restart policy becomes the default one. */
  lemma RestartPolicyFilled(s: Options, o: Orders)
    requires OrdersOf(o, s) && FormShaped(s) && s.restartPolicy == DEFAULT_RESTART
    ensures BuildAdvanced(AdvToForm(s.(restartPolicy := ""), o)) == s
  {
    EditRoundTrip(s, o);
    assert AdvToForm(s.(restartPolicy := ""), o) == AdvToForm(s, o);
  }

  function Bare(): Options {
    Options([], [], [], [], "", "", "", map[], [], DEFAULT_RESTART, Finite(0.0), [], [], false, false, false, [], [],
            map[], map[], Finite(0.0), Finite(0.0), Finite(0.0), "", Finite(0.0), "", map[], None)
  }

  /** Bare options survive; with a log option they do not. */
  lemma LogOptionDoesNotSurvive(key: string, value: string)
    ensures var o, s := Orders([], [], []), Bare().(logOpts := map[key := value]);
            FormShaped(Bare()) && OrdersOf(o, s) && BuildAdvanced(AdvToForm(s, o)) == Bare() != s
  {
    var o, s := Orders([], [], []), Bare().(logOpts := map[key := value]);
    assert key in s.logOpts && key !in Bare().logOpts;
    BareIsShaped(o);
    LogOptionsLost(Bare(), o, s.logOpts);
  }

  lemma BareIsShaped(o: Orders)
    requires o == Orders([], [], [])
    ensures FormShaped(Bare()) && OrdersOf(o, Bare())
  {
    forall k ensures LegalAt(map[], k) { }
  }
}
