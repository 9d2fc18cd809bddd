/** Strings shared by the other modules: Go's strconv.Itoa and Atoi, the order that
    ORDER BY uses, and facts about splitting a string at a separator. */
module Text {

  datatype Option<+T> = None | Some(value: T)

  const INT64_LIMIT := 0x8000_0000_0000_0000

  type int64 = x: int | -INT64_LIMIT <= x < INT64_LIMIT

  /** The 64-bit sum of two 64-bit values: it wraps around. */
  function Add64(x: int64, y: int64): (r: int64)
    ensures (r - (x + y)) % 0x1_0000_0000_0000_0000 == 0
  {
    var s := x as int + y as int;
    if s >= INT64_LIMIT then s - 2 * INT64_LIMIT
    else if s < -INT64_LIMIT then s + 2 * INT64_LIMIT
    else s
  }

  // ---------------------------------------------------------------- decimal

  predicate IsDigit(c: char) { '0' <= c <= '9' }

  predicate AllDigits(s: string) { forall i :: 0 <= i < |s| ==> IsDigit(s[i]) }

  function DigitChar(d: nat): (c: char)
    requires d < 10
  {
    (d + '0' as int) as char
  }

  function DigitValue(c: char): (d: nat)
    requires IsDigit(c)
  {
    c as int - '0' as int
  }

  function Digits(n: nat): (s: string) {
    if n < 10 then [DigitChar(n)] else Digits(n / 10) + [DigitChar(n % 10)]
  }

  function ValueOf(s: string): (n: nat)
    requires AllDigits(s)
  {
    if s == [] then 0 else 10 * ValueOf(s[..|s| - 1]) + DigitValue(s[|s| - 1])
  }

  /** strconv.Itoa. */
  function Itoa(n: int): (s: string) {
    if n < 0 then "-" + Digits(-n) else Digits(n)
  }

  /** An optional sign followed by at least one digit. */
  function ParseInt(s: string): (r: Option<int>) {
    var body := if |s| > 0 && (s[0] == '-' || s[0] == '+') then s[1..] else s;
    if body == [] || !AllDigits(body) then None
    else (var v: int := ValueOf(body); Some(if s[0] == '-' then -v else v))
  }

  /** strconv.Atoi: a value that does not fit in 64 bits is an error. */
  function Atoi(s: string): (r: Option<int64>) {
    match ParseInt(s)
    case Some(n) => if -INT64_LIMIT <= n < INT64_LIMIT then Some(n) else None
    case None => None
  }

  lemma {:induction false} DigitsRoundTrip(n: nat)
    ensures Digits(n) != [] && AllDigits(Digits(n)) && ValueOf(Digits(n)) == n
  {
    if n < 10 {
      assert Digits(n)[..0] == [];
    } else {
      DigitsRoundTrip(n / 10);
      var s := Digits(n);
      assert s[..|s| - 1] == Digits(n / 10);
    }
  }

  lemma ItoaRoundTrip(n: int)
    ensures ParseInt(Itoa(n)) == Some(n)
    ensures Atoi(Itoa(n)) == if -0x8000_0000_0000_0000 <= n < 0x8000_0000_0000_0000 then Some(n) else None
  {
    var s := Itoa(n);
    DigitsRoundTrip(if n < 0 then -n else n);
    if n < 0 {
      assert s[0] == '-' && s[1..] == Digits(-n);
    } else {
      assert IsDigit(s[0]);
    }
    assert ParseInt(s) == Some(n);
  }

  lemma ItoaInjective(m: int, n: int)
    requires Itoa(m) == Itoa(n)
    ensures m == n
  {
    ItoaRoundTrip(m);
    ItoaRoundTrip(n);
  }

  /** A numeral is spelled digit by digit. */
  lemma ItoaDigit(d: nat)
    requires d < 10
    ensures Itoa(d) == ["0123456789"[d]]
  {
  }

  lemma ItoaSpelled(n: nat, d: nat)
    requires 0 < n && d < 10
    ensures Itoa(10 * n + d) == Itoa(n) + ["0123456789"[d]] && Itoa(0 - n) == "-" + Itoa(n)
  {
    ItoaDigit(d);
    assert (10 * n + d) / 10 == n && (10 * n + d) % 10 == d;
  }

  lemma ItoaHasNoHyphen(n: nat)
    ensures '-' !in Itoa(n)
  {
    DigitsRoundTrip(n);
  }

  /** Which strings are read as a number: an optional sign, then one or more of the ten digits, with a
      value that fits in 64 bits. Leading zeros do not change it. */
  lemma AtoiReads(s: string)
    ensures var body := if s != "" && s[0] in "+-" then s[1..] else s;
            && (Atoi(s).Some? ==> body != "" && forall c :: c in body ==> c in "0123456789")
            && (body != "" && (forall c :: c in body ==> c in "0123456789") && |body| <= 18 ==> Atoi(s).Some?)
  {
    var body := if s != "" && s[0] in "+-" then s[1..] else s;
    forall i | 0 <= i < |body| ensures IsDigit(body[i]) <==> body[i] in "0123456789" { DigitCharacter(body[i]); }
    if AllDigits(body) { ValueBounded(body); }
    if body != "" && (forall c :: c in body ==> c in "0123456789") && |body| <= 18 {
      assert AllDigits(body);
      PowersGrow(|body|, 18);
      EighteenDigits();
    }
  }

  function Power10(n: nat): nat { if n == 0 then 1 else 10 * Power10(n - 1) }

  lemma {:induction false} PowersGrow(m: nat, n: nat)
    requires m <= n
    ensures Power10(m) <= Power10(n)
    decreases n
  {
    if m < n { PowersGrow(m, n - 1); }
  }

  lemma EighteenDigits()
    ensures Power10(18) == 1_000_000_000_000_000_000
  {
    assert Power10(6) == 1_000_000;
    assert Power10(12) == 1_000_000_000_000;
  }

  lemma {:induction false} ValueBounded(s: string)
    requires AllDigits(s)
    ensures ValueOf(s) < Power10(|s|)
  {
    if s != "" { ValueBounded(s[..|s| - 1]); }
  }

  lemma DigitCharacter(c: char)
    ensures IsDigit(c) <==> c in "0123456789"
  {
    if IsDigit(c) { assert "0123456789"[c as int - '0' as int] == c; }
  }

  lemma {:induction false} LeadingZero(s: string)
    requires AllDigits(s)
    ensures ValueOf("0" + s) == ValueOf(s)
  {
    if s == "" {
      assert "0" + s == "0" && "0"[..0] == "";
    } else {
      LeadingZero(s[..|s| - 1]);
      assert ("0" + s)[..|s|] == "0" + s[..|s| - 1];
    }
  }

  /** Every spelling of a number is read as that number. */
  lemma AtoiSpellings(n: nat)
    requires n < INT64_LIMIT
    ensures Atoi(Itoa(n)) == Some(n) && Atoi("+" + Itoa(n)) == Some(n) && Atoi("-" + Itoa(n)) == Some(0 - n)
    ensures Atoi("0" + Itoa(n)) == Some(n) && Atoi("") == None && Atoi("-") == None
  {
    ItoaRoundTrip(n);
    DigitsRoundTrip(n);
    LeadingZero(Itoa(n));
    assert ("+" + Itoa(n))[1..] == Itoa(n) && ("-" + Itoa(n))[1..] == Itoa(n);
    assert "-"[1..] == "";
    assert AllDigits("0" + Itoa(n)) && ("0" + Itoa(n))[0] == '0';
  }

  // ------------------------------------------------------------- separators

  /** A separator that the right parts lack cuts a string in one way only. */
  lemma LastCutUnique(a: string, b: string, c: string, d: string, sep: char)
    requires a + [sep] + b == c + [sep] + d
    requires sep !in b && sep !in d
    ensures a == c && b == d
  {
    var s := a + [sep] + b;
    assert s[|a|] == sep && s[|c|] == sep;
    assert forall k :: |a| < k < |s| ==> s[k] == b[k - |a| - 1];
    assert forall k :: |c| < k < |s| ==> s[k] == d[k - |c| - 1];
    assert |a| == |c|;
    assert a == s[..|a|] == c && b == s[|a| + 1..] == d;
  }

  lemma SuffixCancels(a: string, b: string, suffix: string)
    requires a + suffix == b + suffix
    ensures a == b
  {
    assert |a| == |b|;
    assert a == (a + suffix)[..|a|] == b;
  }

  // ------------------------------------------------------------------ order

  /** Code point order, the order ORDER BY gives under the C collation. */
  predicate Le(a: string, b: string) {
    a == [] || (b != [] && (a[0] < b[0] || (a[0] == b[0] && Le(a[1..], b[1..]))))
  }

  /** At k the strings part, and a has the smaller character there. */
  predicate LessAt(a: string, b: string, k: nat) {
    k < |a| && k < |b| && a[..k] == b[..k] && a[k] < b[k]
  }

  /** a comes first exactly if it is how b begins, or has the smaller character where they part. */
  lemma {:induction false} LeMeans(a: string, b: string)
    ensures Le(a, b) <==> a <= b || exists k: nat :: LessAt(a, b, k)
  {
    if a != "" && b != "" {
      var a', b' := a[1..], b[1..];
      LeMeans(a', b');
      assert a == [a[0]] + a' && b == [b[0]] + b';
      if a[0] == b[0] {
        if k: nat :| LessAt(a', b', k) {
          assert a[..k + 1] == [a[0]] + a'[..k] && b[..k + 1] == [b[0]] + b'[..k];
          assert LessAt(a, b, k + 1);
        }
        if k: nat :| LessAt(a, b, k) {
          assert k > 0 && a'[..k - 1] == a[..k][1..] && b'[..k - 1] == b[..k][1..];
          var j := k - 1;
          assert LessAt(a', b', j);
        }
      } else if a[0] < b[0] {
        assert LessAt(a, b, 0);
      } else {
        forall k: nat ensures !LessAt(a, b, k) {
          if 0 < k <= |a| && k <= |b| { assert a[..k][0] == a[0] && b[..k][0] == b[0]; }
        }
      }
    }
  }

  lemma {:induction false} LeAntisymmetric(a: string, b: string)
    requires Le(a, b) && Le(b, a)
    ensures a == b
  {
    if a != [] && b != [] {
      LeAntisymmetric(a[1..], b[1..]);
      assert a == [a[0]] + a[1..] && b == [b[0]] + b[1..];
    }
  }

  lemma {:induction false} LeTransitive(a: string, b: string, c: string)
    requires Le(a, b) && Le(b, c)
    ensures Le(a, c)
  {
    if a != [] && a[0] == b[0] && b[0] == c[0] {
      LeTransitive(a[1..], b[1..], c[1..]);
    }
  }

  lemma {:induction false} LeTotal(a: string, b: string)
    ensures Le(a, b) || Le(b, a)
  {
    if a != [] && b != [] {
      LeTotal(a[1..], b[1..]);
    }
  }

  predicate IsLeast(x: string, s: set<string>) {
    x in s && forall y :: y in s ==> Le(x, y)
  }

  lemma {:induction false} LeastExists(s: set<string>)
    requires s != {}
    ensures exists x :: IsLeast(x, s)
  {
    var y :| y in s;
    LeTotal(y, y);
    if s == {y} {
      assert IsLeast(y, s);
    } else {
      LeastExists(s - {y});
      var z :| IsLeast(z, s - {y});
      LeTotal(y, z);
      if Le(y, z) {
        forall w | w in s ensures Le(y, w) {
          if w != y { LeTransitive(y, z, w); }
        }
        assert IsLeast(y, s);
      } else {
        assert IsLeast(z, s);
      }
    }
  }

  lemma LeastUnique(x: string, y: string, s: set<string>)
    requires IsLeast(x, s) && IsLeast(y, s)
    ensures x == y
  {
    LeAntisymmetric(x, y);
  }

  ghost function Least(s: set<string>): (x: string)
    requires s != {}
    ensures IsLeast(x, s)
  {
    LeastExists(s);
    var x :| IsLeast(x, s);
    x
  }

  /** The rows' keys in the order a query returns them. */
  ghost function Ordered(s: set<string>): (r: seq<string>)
    ensures forall x :: x in r <==> x in s
    ensures forall i, j :: 0 <= i < j < |r| ==> r[i] != r[j] && Le(r[i], r[j])
  {
    if s == {} then [] else
    var x := Least(s);
    [x] + Ordered(s - {x})
  }

  lemma {:induction false} OrderedLength(s: set<string>)
    ensures |Ordered(s)| == |s|
  {
    if s != {} { OrderedLength(s - {Least(s)}); }
  }

  // ------------------------------------------------------------------- alphabets

  const LOWER := "abcdefghijklmnopqrstuvwxyz"
  const UPPER := "ABCDEFGHIJKLMNOPQRSTUVWXYZ"

  lemma LowerLetter(c: char)
    ensures 'a' <= c <= 'z' <==> c in LOWER
  {
    if 'a' <= c <= 'z' { assert LOWER[c as int - 'a' as int] == c; }
  }

  lemma UpperLetter(c: char)
    ensures 'A' <= c <= 'Z' <==> c in UPPER
  {
    if 'A' <= c <= 'Z' { assert UPPER[c as int - 'A' as int] == c; }
  }

  /** a is b, or the capital letter of b. */
  predicate SameButCase(a: char, b: char) { a == b || exists k :: 0 <= k < 26 && a == UPPER[k] && b == LOWER[k] }

  lemma CapitalOf(k: nat)
    requires k < 26
    ensures UPPER[k] as int == 'A' as int + k && LOWER[k] as int == 'a' as int + k
  {
  }

  // ---------------------------------------------------------------------- joining

  function Join(parts: seq<string>, sep: char): string {
    if parts == [] then "" else if |parts| == 1 then parts[0]
    else Join(parts[..|parts| - 1], sep) + [sep] + parts[|parts| - 1]
  }
}
