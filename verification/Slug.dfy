/** The label that an environment's name contributes to a host name. The slug of a name is its
    words - the maximal runs of letters and digits - joined by single hyphens. */
module Slug {
  import opened Text

  predicate IsAlnum(c: char) { 'a' <= c <= 'z' || '0' <= c <= '9' }

  /** Go's unicode.ToLower as far as a slug can tell. U+0130 and U+212A are the only non-ASCII
      characters that lowercase to an ASCII letter; every other one stays outside [a-z0-9]. */
  function LowerChar(c: char): (r: char) {
    if 'A' <= c <= 'Z' then (c as int + 32) as char
    else if c == '\U{0130}' then 'i'
    else if c == '\U{212A}' then 'k'
    else c
  }

  function Lower(s: string): (r: string)
    ensures |r| == |s| && forall i :: 0 <= i < |s| ==> r[i] == LowerChar(s[i])
  {
    if s == [] then [] else [LowerChar(s[0])] + Lower(s[1..])
  }

  /** unicode.IsSpace. */
  predicate IsSpace(c: char) {
    || '\t' <= c <= '\r'
    || c == ' ' || c == '\U{85}' || c == '\U{A0}' || c == '\U{1680}' || c == '\U{2028}'
    || c == '\U{2029}' || c == '\U{202F}' || c == '\U{205F}' || c == '\U{3000}'
    || '\U{2000}' <= c <= '\U{200A}'
  }

  function TrimLeft(s: string): (r: string) {
    if s != [] && IsSpace(s[0]) then TrimLeft(s[1..]) else s
  }

  function TrimRight(s: string): (r: string) {
    if s != [] && IsSpace(s[|s| - 1]) then TrimRight(s[..|s| - 1]) else s
  }

  function TrimSpace(s: string): (r: string) { TrimRight(TrimLeft(s)) }

  // ------------------------------------------------- the reference definition

  /** The maximal runs of letters and digits, left to right. */
  function Words(s: string): (w: seq<string>) {
    if s == [] then []
    else
      var k := |s| - 1;
      var w := Words(s[..k]);
      if !IsAlnum(s[k]) then w
      else if k > 0 && IsAlnum(s[k - 1]) && w != [] then w[|w| - 1 := w[|w| - 1] + [s[k]]]
      else w + [[s[k]]]
  }

  lemma JoinExtends(w: seq<string>, c: char)
    requires w != []
    ensures Join(w[|w| - 1 := w[|w| - 1] + [c]], '-') == Join(w, '-') + [c]
  {
    var v := w[|w| - 1 := w[|w| - 1] + [c]];
    assert v[..|v| - 1] == w[..|w| - 1];
  }

  lemma JoinStarts(w: seq<string>, x: string)
    ensures Join(w + [x], '-') == if w == [] then x else Join(w, '-') + "-" + x
  {
    assert (w + [x])[..|w|] == w;
  }

  function SlugOf(name: string): (s: string) {
    var w := Words(Lower(name));
    if w == [] then "host" else Join(w, '-')
  }

  // ------------------------------------------------------------ the algorithm

  /** A name's words do not depend on the spaces around it. */
  lemma {:induction false} WordsIgnoreLeadingSpace(c: char, s: string)
    requires !IsAlnum(c)
    ensures Words([c] + s) == Words(s)
  {
    var t := [c] + s;
    if s == [] {
      assert t[..0] == [];
    } else {
      assert t[..|t| - 1] == [c] + s[..|s| - 1];
      WordsIgnoreLeadingSpace(c, s[..|s| - 1]);
      if |s| == 1 {
        assert s[..0] == [];
      } else {
        assert t[|t| - 2] == s[|s| - 2];
      }
    }
  }

  lemma {:induction false} TrimLeftKeepsWords(s: string)
    ensures Words(Lower(TrimLeft(s))) == Words(Lower(s))
  {
    if s != [] && IsSpace(s[0]) {
      TrimLeftKeepsWords(s[1..]);
      WordsIgnoreLeadingSpace(LowerChar(s[0]), Lower(s[1..]));
    }
  }

  lemma WordsDropLast(s: string)
    requires s != [] && !IsAlnum(s[|s| - 1])
    ensures Words(s) == Words(s[..|s| - 1])
  {
  }

  lemma {:induction false} TrimRightKeepsWords(s: string)
    ensures Words(Lower(TrimRight(s))) == Words(Lower(s))
  {
    if s != [] && IsSpace(s[|s| - 1]) {
      TrimRightKeepsWords(s[..|s| - 1]);
      LowerDropLast(s);
      assert !IsAlnum(LowerChar(s[|s| - 1]));
      WordsDropLast(Lower(s));
    }
  }

  lemma LowerDropLast(s: string)
    requires s != []
    ensures Lower(s[..|s| - 1]) == Lower(s)[..|s| - 1]
  {
  }

  predicate IsWord(w: string) { w != [] && forall i :: 0 <= i < |w| ==> IsAlnum(w[i]) }

  lemma {:induction false} WordsAreWords(s: string)
    ensures forall i :: 0 <= i < |Words(s)| ==> IsWord(Words(s)[i])
    ensures s != [] && IsAlnum(s[|s| - 1]) ==> Words(s) != []
  {
    if s != [] { WordsAreWords(s[..|s| - 1]); }
  }

  lemma {:induction false} JoinEnds(w: seq<string>)
    requires w != [] && forall i :: 0 <= i < |w| ==> IsWord(w[i])
    ensures Join(w, '-') != [] && IsAlnum(Join(w, '-')[0]) && IsAlnum(Join(w, '-')[|Join(w, '-')| - 1])
  {
    if |w| > 1 { JoinEnds(w[..|w| - 1]); }
  }

  /** strings.Trim(s, "-"). */
  function TrimHyphens(s: string): (r: string)
    decreases |s|
  {
    if s == [] then s
    else if s[0] == '-' then TrimHyphens(s[1..])
    else if s[|s| - 1] == '-' then TrimHyphens(s[..|s| - 1])
    else s
  }

  /** What the builder holds once the loop has read all of s. */
  ghost predicate Built(s: string, b: string, prevDash: bool) {
    && b == Join(Words(s), '-') + (if prevDash then "-" else "")
    && (b == [] <==> Words(s) == [])
    && (prevDash ==> b != [])
    && (b != [] ==> s != [] && prevDash == !IsAlnum(s[|s| - 1]))
  }

  lemma ReadAlnum(s: string, c: char, b: string, prevDash: bool)
    requires Built(s, b, prevDash) && IsAlnum(c)
    ensures Built(s + [c], b + [c], false)
  {
    var w := Words(s);
    assert (s + [c])[..|s|] == s;
    if b == [] {
      WordsAreWords(s);
      JoinStarts([], [c]);
    } else if prevDash {
      JoinStarts(w, [c]);
    } else {
      JoinExtends(w, c);
    }
  }

  lemma ReadOther(s: string, c: char, b: string, prevDash: bool)
    requires Built(s, b, prevDash) && !IsAlnum(c)
    ensures if !prevDash && b != [] then Built(s + [c], b + "-", true) else Built(s + [c], b, prevDash)
  {
    assert (s + [c])[..|s|] == s;
  }

  lemma TrimOne(j: string)
    requires j != [] && IsAlnum(j[0]) && IsAlnum(j[|j| - 1])
    ensures TrimHyphens(j) == j && TrimHyphens(j + "-") == j
  {
    assert (j + "-")[..|j|] == j;
  }

  lemma FinishSlug(name: string, b: string, prevDash: bool)
    requires Built(Lower(TrimSpace(name)), b, prevDash)
    ensures SlugOf(name) == if TrimHyphens(b) == "" then "host" else TrimHyphens(b)
  {
    TrimLeftKeepsWords(name);
    TrimRightKeepsWords(TrimLeft(name));
    var w := Words(Lower(name));
    WordsAreWords(Lower(name));
    if w != [] {
      JoinEnds(w);
      TrimOne(Join(w, '-'));
      assert Join(w, '-') + "" == Join(w, '-');
    }
  }

  method MakeSlug(name: string) returns (out: string)
    ensures out == SlugOf(name)
  {
    var s := Lower(TrimSpace(name));
    var b := "";
    var prevDash := false;
    for i := 0 to |s|
      invariant Built(s[..i], b, prevDash)
    {
      assert s[..i + 1] == s[..i] + [s[i]];
      if IsAlnum(s[i]) {
        ReadAlnum(s[..i], s[i], b, prevDash);
        b := b + [s[i]];
        prevDash := false;
      } else {
        ReadOther(s[..i], s[i], b, prevDash);
        if !prevDash && |b| > 0 {
          b := b + "-";
          prevDash := true;
        }
      }
    }
    assert s[..|s|] == s;
    FinishSlug(name, b, prevDash);
    out := TrimHyphens(b);
    if out == "" { out := "host"; }
  }

  // --------------------------------------------------------------- properties

  /** subdomainRe: a host name label as in section 2.1 of RFC 1123, of any length. */
  predicate IsLabel(s: string) {
    && s != []
    && IsAlnum(s[0]) && IsAlnum(s[|s| - 1])
    && forall i :: 0 <= i < |s| ==> IsAlnum(s[i]) || s[i] == '-'
  }

  predicate NoDoubleHyphen(s: string) {
    forall i :: 0 <= i < |s| - 1 ==> !(s[i] == '-' && s[i + 1] == '-')
  }

  lemma {:induction false} JoinIsLabel(w: seq<string>)
    requires w != [] && forall i :: 0 <= i < |w| ==> IsWord(w[i])
    ensures IsLabel(Join(w, '-')) && NoDoubleHyphen(Join(w, '-'))
  {
    if |w| > 1 {
      JoinIsLabel(w[..|w| - 1]);
      var h, l := Join(w[..|w| - 1], '-'), w[|w| - 1];
      var s := Join(w, '-');
      assert s == h + "-" + l;
      forall i | 0 <= i < |s| ensures IsAlnum(s[i]) || s[i] == '-' {
        if i < |h| { assert s[i] == h[i]; }
        else if i > |h| { assert s[i] == l[i - |h| - 1]; }
      }
      forall i | 0 <= i < |s| - 1 ensures !(s[i] == '-' && s[i + 1] == '-') {
        if i + 1 < |h| { assert s[i] == h[i] && s[i + 1] == h[i + 1]; }
        else if i < |h| { assert s[i] == h[|h| - 1]; }
        else { assert s[i + 1] == l[i - |h|]; }
      }
    }
  }

  lemma SlugIsLabel(name: string)
    ensures IsLabel(SlugOf(name)) && NoDoubleHyphen(SlugOf(name))
  {
    var w := Words(Lower(name));
    WordsAreWords(Lower(name));
    if w != [] { JoinIsLabel(w); }
  }

  /** A string that starts with a letter or digit and has no double hyphen is its words joined,
      up to a hyphen at its end. */
  lemma {:induction false} LabelIsItsWords(s: string)
    requires s == [] || IsAlnum(s[0])
    requires NoDoubleHyphen(s)
    requires forall i :: 0 <= i < |s| ==> IsAlnum(s[i]) || s[i] == '-'
    ensures s == Join(Words(s), '-') + if s != [] && s[|s| - 1] == '-' then "-" else ""
    ensures s != [] ==> Words(s) != []
  {
    if s != [] {
      var k := |s| - 1;
      LabelIsItsWords(s[..k]);
      assert s == s[..k] + [s[k]];
      if !IsAlnum(s[k]) {
        assert s[k - 1] != '-';
        WordsDropLast(s);
      } else {
        LabelGrows(s);
      }
    }
  }

  lemma LabelGrows(s: string)
    requires s != [] && IsAlnum(s[|s| - 1])
    requires var init := s[..|s| - 1];
             && init == Join(Words(init), '-') + (if init != [] && init[|init| - 1] == '-' then "-" else "")
             && (init != [] ==> Words(init) != [] && (IsAlnum(init[|init| - 1]) || init[|init| - 1] == '-'))
    ensures s == Join(Words(s), '-') && Words(s) != []
  {
    var k := |s| - 1;
    var w := Words(s[..k]);
    assert s == s[..k] + [s[k]];
    if k == 0 {
      JoinStarts([], [s[0]]);
    } else if IsAlnum(s[k - 1]) {
      JoinExtends(w, s[k]);
    } else {
      JoinStarts(w, [s[k]]);
    }
  }

  lemma LowerFixes(s: string)
    requires forall i :: 0 <= i < |s| ==> IsAlnum(s[i]) || s[i] == '-'
    ensures Lower(s) == s
  {
  }

  /** The names that are their own slug are exactly the labels without a double hyphen. */
  lemma SlugFixedPoints(name: string)
    ensures SlugOf(name) == name <==> IsLabel(name) && NoDoubleHyphen(name)
  {
    SlugIsLabel(name);
    if IsLabel(name) && NoDoubleHyphen(name) {
      LowerFixes(name);
      LabelIsItsWords(name);
    }
  }

  lemma SlugIdempotent(name: string)
    ensures SlugOf(SlugOf(name)) == SlugOf(name)
  {
    SlugIsLabel(name);
    SlugFixedPoints(SlugOf(name));
  }

  lemma SlugHasNoDot(name: string)
    ensures '.' !in SlugOf(name) && SlugOf(name) != ""
  {
    SlugIsLabel(name);
  }

  // ------------------------------------------------ the slug, letter by letter

  predicate IsWordCharacter(c: char) { c in "abcdefghijklmnopqrstuvwxyz" || c in "0123456789" }

  /** Not a letter or digit, and none of the two other characters that lowercase to a letter. */
  predicate IsGap(c: char) {
    !IsWordCharacter(c) && c !in "ABCDEFGHIJKLMNOPQRSTUVWXYZ" && c != '\U{130}' && c != '\U{212A}'
  }

  lemma CharacterKinds(c: char)
    ensures IsAlnum(c) <==> IsWordCharacter(c)
    ensures IsGap(c) ==> !IsAlnum(c) && LowerChar(c) == c
  {
    LowerLetter(c);
    UpperLetter(c);
    DigitCharacter(c);
  }

  /** Labels, spelled out. */
  lemma LabelMeans(s: string)
    ensures IsLabel(s) <==>
      && s != "" && s[0] != '-' && s[|s| - 1] != '-'
      && forall i :: 0 <= i < |s| ==> IsWordCharacter(s[i]) || s[i] == '-'
  {
    forall i | 0 <= i < |s| ensures IsAlnum(s[i]) <==> IsWordCharacter(s[i]) { CharacterKinds(s[i]); }
  }

  lemma CapitalLowers(a: char, b: char)
    requires SameButCase(a, b)
    ensures LowerChar(a) == LowerChar(b)
  {
    if a != b {
      var k :| 0 <= k < 26 && a == UPPER[k] && b == LOWER[k];
      CapitalOf(k);
    }
  }

  /** Capital letters make no difference. */
  lemma SlugIgnoresCase(s: string, t: string)
    requires |s| == |t| && forall i :: 0 <= i < |s| ==> SameButCase(s[i], t[i])
    ensures SlugOf(s) == SlugOf(t)
  {
    forall i | 0 <= i < |s| ensures LowerChar(s[i]) == LowerChar(t[i]) { CapitalLowers(s[i], t[i]); }
    assert Lower(s) == Lower(t);
  }

  /** Strings with the same letters and digits in the same places have the same words. */
  lemma {:induction false} WordsSkipGaps(s: string, t: string)
    requires |s| == |t| && forall i :: 0 <= i < |s| ==> s[i] == t[i] || (!IsAlnum(s[i]) && !IsAlnum(t[i]))
    ensures Words(s) == Words(t)
  {
    if s != "" {
      var k := |s| - 1;
      WordsSkipGaps(s[..k], t[..k]);
      assert k > 0 ==> (IsAlnum(s[k - 1]) <==> IsAlnum(t[k - 1]));
    }
  }

  /** One separator is as good as another. */
  lemma SlugIgnoresWhichGap(s: string, t: string)
    requires |s| == |t| && forall i :: 0 <= i < |s| ==> s[i] == t[i] || (IsGap(s[i]) && IsGap(t[i]))
    ensures SlugOf(s) == SlugOf(t)
  {
    forall i | 0 <= i < |s|
      ensures Lower(s)[i] == Lower(t)[i] || (!IsAlnum(Lower(s)[i]) && !IsAlnum(Lower(t)[i]))
    {
      CharacterKinds(s[i]);
      CharacterKinds(t[i]);
    }
    WordsSkipGaps(Lower(s), Lower(t));
  }

  lemma LowerConcat(a: string, b: string)
    ensures Lower(a + b) == Lower(a) + Lower(b)
  {
  }

  /** Separators at the ends make no difference. */
  lemma SlugTrimsGaps(c: char, s: string)
    requires IsGap(c)
    ensures SlugOf([c] + s) == SlugOf(s) == SlugOf(s + [c])
  {
    CharacterKinds(c);
    LowerConcat([c], s);
    LowerConcat(s, [c]);
    assert Lower([c]) == [c];
    WordsIgnoreLeadingSpace(c, Lower(s));
    WordsDropLast(Lower(s) + [c]);
    assert (Lower(s) + [c])[..|s|] == Lower(s);
  }

  /** A second separator in a row adds nothing. */
  lemma {:induction false} WordsMergeGaps(a: string, c: char, d: char, b: string)
    requires !IsAlnum(c) && !IsAlnum(d)
    ensures Words(a + [c, d] + b) == Words(a + [c] + b)
  {
    var s, t := a + [c, d] + b, a + [c] + b;
    if b == "" {
      assert s == t + [d];
      WordsDropLast(s);
      assert s[..|s| - 1] == t;
    } else {
      assert s[..|s| - 1] == a + [c, d] + b[..|b| - 1] && t[..|t| - 1] == a + [c] + b[..|b| - 1];
      WordsMergeGaps(a, c, d, b[..|b| - 1]);
      assert s[|s| - 1] == t[|t| - 1] == b[|b| - 1];
      if |b| == 1 {
        assert s[|s| - 2] == d && t[|t| - 2] == c;
      } else {
        assert s[|s| - 2] == t[|t| - 2] == b[|b| - 2];
      }
    }
  }

  lemma SlugMergesGaps(a: string, c: char, d: char, b: string)
    requires IsGap(c) && IsGap(d)
    ensures SlugOf(a + [c, d] + b) == SlugOf(a + [c] + b)
  {
    CharacterKinds(c);
    CharacterKinds(d);
    LowerConcat(a + [c, d], b);
    LowerConcat(a, [c, d]);
    LowerConcat(a + [c], b);
    LowerConcat(a, [c]);
    assert Lower([c, d]) == [c, d] && Lower([c]) == [c];
    WordsMergeGaps(Lower(a), c, d, Lower(b));
  }

  /** Without any letter or digit there is still a label. */
  lemma SlugOfNothing()
    ensures SlugOf("") == "host" && SlugOf("\U{130}") == "i" && SlugOf("\U{212A}") == "k"
  {
    SlugFixedPoints("i");
    SlugFixedPoints("k");
    assert Lower("\U{130}") == "i" == Lower("i") && Lower("\U{212A}") == "k" == Lower("k");
  }

  // ------------------------------------------------------------------ white space

  /** What is trimmed. */
  lemma SpaceMeans(c: char)
    ensures IsSpace(c) <==>
      c in {'\t', '\n', '\U{0B}', '\U{0C}', '\r', ' ', '\U{85}', '\U{A0}', '\U{1680}', '\U{2000}', '\U{2001}',
            '\U{2002}', '\U{2003}', '\U{2004}', '\U{2005}', '\U{2006}', '\U{2007}', '\U{2008}', '\U{2009}',
            '\U{200A}', '\U{2028}', '\U{2029}', '\U{202F}', '\U{205F}', '\U{3000}'}
  {
  }

  lemma {:induction false} TrimRightDrops(s: string, c: char)
    requires IsSpace(c)
    ensures TrimRight(s + [c]) == TrimRight(s)
  {
    assert (s + [c])[..|s|] == s;
  }

  lemma {:induction false} TrimLeftAppend(s: string, c: char)
    ensures TrimLeft(s + [c]) == if TrimLeft(s) == "" then TrimLeft([c]) else TrimLeft(s) + [c]
  {
    if s == "" {
      assert s + [c] == [c];
    } else if IsSpace(s[0]) {
      TrimLeftAppend(s[1..], c);
      assert (s + [c])[1..] == s[1..] + [c];
    }
  }

  /** White space around a string makes no difference, and nothing else is trimmed. */
  lemma TrimSpaceMeans(s: string, c: char)
    ensures IsSpace(c) ==> TrimSpace([c] + s) == TrimSpace(s) == TrimSpace(s + [c])
    ensures s != "" && !IsSpace(s[0]) && !IsSpace(s[|s| - 1]) ==> TrimSpace(s) == s
  {
    assert ([c] + s)[1..] == s;
    if IsSpace(c) {
      TrimLeftAppend(s, c);
      TrimRightDrops(TrimLeft(s), c);
      assert [c][1..] == "";
    }
  }
}
