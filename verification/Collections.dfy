/** Picking from sets, and sums over maps. */
module Collections {

  /** The next element of a map iteration: any one. */
  method Pick<T>(s: set<T>) returns (x: T)
    requires s != {}
    ensures x in s
  {
    x :| x in s;
  }

  ghost function AnyOf<T>(s: set<T>): (x: T)
    requires s != {}
    ensures x in s
  {
    var x :| x in s;
    x
  }

  ghost function Members<T>(s: seq<T>): set<T> { set x | x in s }

  lemma {:induction false} DistinctCount<T>(s: seq<T>, k: nat)
    requires k <= |s| && forall i, j :: 0 <= i < j < |s| ==> s[i] != s[j]
    ensures |Members(s[..k])| == k
    decreases k
  {
    if k > 0 {
      DistinctCount(s, k - 1);
      assert s[..k] == s[..k - 1] + [s[k - 1]];
      assert Members(s[..k]) == Members(s[..k - 1]) + {s[k - 1]};
    }
  }

  lemma SubsetSize<T>(a: set<T>, b: set<T>)
    requires a <= b
    ensures |a| <= |b|
  {
    assert b == a + (b - a);
  }

  // --------------------------------------------------------------------- sums

  ghost function Sum<K>(s: set<K>, f: K -> int): (total: int) {
    if s == {} then 0
    else
      var k :| k in s;
      f(k) + Sum(s - {k}, f)
  }

  /** A sum may be taken apart at any element. */
  lemma {:induction false} SumRemove<K>(s: set<K>, f: K -> int, k: K)
    requires k in s
    ensures Sum(s, f) == f(k) + Sum(s - {k}, f)
    decreases |s|
  {
    var j :| j in s && Sum(s, f) == f(j) + Sum(s - {j}, f);
    if j != k {
      SumRemove(s - {j}, f, k);
      SumRemove(s - {k}, f, j);
      assert s - {j} - {k} == s - {k} - {j};
    }
  }

  lemma SumAdd<K>(s: set<K>, f: K -> int, k: K)
    requires k !in s
    ensures Sum(s + {k}, f) == Sum(s, f) + f(k)
  {
    SumRemove(s + {k}, f, k);
    assert s + {k} - {k} == s;
  }

  predicate BelowAt<K(==)>(s: set<K>, f: K -> int, t: set<K>, g: K -> int, k: K) {
    (if k in s then f(k) else 0) <= (if k in t then g(k) else 0)
  }

  /** A missing element counts as 0. */
  lemma {:induction false} SumMonotone<K(!new)>(s: set<K>, f: K -> int, t: set<K>, g: K -> int)
    requires forall k :: BelowAt(s, f, t, g, k)
    ensures Sum(s, f) <= Sum(t, g)
    decreases |s + t|
  {
    if s + t != {} {
      var k :| k in s + t;
      assert BelowAt(s, f, t, g, k);
      assert (s - {k}) + (t - {k}) == (s + t) - {k};
      forall j ensures BelowAt(s - {k}, f, t - {k}, g, j) { assert BelowAt(s, f, t, g, j); }
      SumMonotone(s - {k}, f, t - {k}, g);
      SumWithout(s, f, k);
      SumWithout(t, g, k);
    } else {
      assert s == {} && t == {};
    }
  }

  lemma SumWithout<K>(s: set<K>, f: K -> int, k: K)
    ensures Sum(s, f) == Sum(s - {k}, f) + if k in s then f(k) else 0
  {
    if k in s { SumRemove(s, f, k); } else { assert s - {k} == s; }
  }

  lemma SumSame<K(!new)>(s: set<K>, f: K -> int, g: K -> int)
    requires forall k :: k in s ==> f(k) == g(k)
    ensures Sum(s, f) == Sum(s, g)
  {
    forall k ensures BelowAt(s, f, s, g, k) && BelowAt(s, g, s, f, k) { }
    SumMonotone(s, f, s, g);
    SumMonotone(s, g, s, f);
  }

  lemma {:induction false} SumSplit<K>(s: set<K>, t: set<K>, f: K -> int)
    ensures Sum(s, f) == Sum(s - t, f) + Sum(s * t, f)
    decreases |s|
  {
    if s * t == {} {
      assert s - t == s;
    } else {
      var k :| k in s * t;
      SumRemove(s, f, k);
      SumSplit(s - {k}, t, f);
      SumRemove(s * t, f, k);
      assert (s - {k}) - t == s - t && (s - {k}) * t == (s * t) - {k};
    }
  }

  lemma {:induction false} SumAtMost<K(!new)>(s: set<K>, f: K -> int, bound: int)
    requires forall k :: k in s ==> f(k) <= bound
    ensures Sum(s, f) <= |s| * bound
    decreases |s|
  {
    if s != {} {
      var k :| k in s;
      SumRemove(s, f, k);
      SumAtMost(s - {k}, f, bound);
      assert |s| == |s - {k}| + 1;
      OneMoreTimes(|s - {k}|, bound);
    }
  }

  lemma {:induction false} SumConstant<K>(s: set<K>, f: K -> int, value: int)
    requires forall k :: k in s ==> f(k) == value
    ensures Sum(s, f) == |s| * value
    decreases |s|
  {
    if s != {} {
      var k :| k in s;
      SumRemove(s, f, k);
      SumConstant(s - {k}, f, value);
      assert |s| == |s - {k}| + 1;
      OneMoreTimes(|s - {k}|, value);
    }
  }

  lemma OneMoreTimes(n: int, x: int)
    ensures (n + 1) * x == n * x + x
  {
  }

  lemma MulMonotone(a: int, b: int, c: int)
    requires a <= b && 0 <= c
    ensures a * c <= b * c
  {
  }

  // ------------------------------------------------------------ sums of reals

  ghost function RealSum<K>(s: set<K>, f: K -> real): (total: real) {
    if s == {} then 0.0
    else
      var k :| k in s;
      f(k) + RealSum(s - {k}, f)
  }

  lemma {:induction false} RealSumRemove<K>(s: set<K>, f: K -> real, k: K)
    requires k in s
    ensures RealSum(s, f) == f(k) + RealSum(s - {k}, f)
    decreases |s|
  {
    var j :| j in s && RealSum(s, f) == f(j) + RealSum(s - {j}, f);
    if j != k {
      RealSumRemove(s - {j}, f, k);
      RealSumRemove(s - {k}, f, j);
      assert s - {j} - {k} == s - {k} - {j};
    }
  }

  lemma RealSumAdd<K>(s: set<K>, f: K -> real, k: K)
    requires k !in s
    ensures RealSum(s + {k}, f) == RealSum(s, f) + f(k)
  {
    RealSumRemove(s + {k}, f, k);
    assert s + {k} - {k} == s;
  }

  lemma {:induction false} RealSumSame<K>(s: set<K>, f: K -> real, g: K -> real)
    requires forall k :: k in s ==> f(k) == g(k)
    ensures RealSum(s, f) == RealSum(s, g)
    decreases |s|
  {
    if s != {} {
      var k :| k in s;
      RealSumRemove(s, f, k);
      RealSumRemove(s, g, k);
      RealSumSame(s - {k}, f, g);
    }
  }

  // ------------------------------------------------------------- totals of maps

  function ValueIn<K(==)>(m: map<K, int>): (f: K -> int)
    ensures forall k :: k in m ==> f(k) == m[k]
  {
    (k: K) => if k in m then m[k] else 0
  }

  ghost function Total<K>(m: map<K, int>): int { Sum(m.Keys, ValueIn(m)) }

  lemma TotalUpdate<K(!new)>(m: map<K, int>, k: K, v: int)
    ensures Total(m[k := v]) == Total(m) + v - if k in m then m[k] else 0
  {
    var m' := m[k := v];
    assert m'.Keys == m.Keys - {k} + {k};
    SumAdd(m.Keys - {k}, ValueIn(m'), k);
    SumSame(m.Keys - {k}, ValueIn(m), ValueIn(m'));
    SumWithout(m.Keys, ValueIn(m), k);
  }
}
