/** The autoscaler's decision: a step up above the target, a step down below half of it, and where a
    constant load takes it. */
module Controller {
  import opened Text

  // ----------------------------------------------------------------- the decision

  function Clamp(v: int, lo: int64, hi: int64): (r: int64) {
    if v < lo then lo else if v > hi then hi else v
  }

  /** The count for the next interval: from outside the limits the nearer one, and within them one more,
      one less or the same. Limits in the wrong order push the count to the one it has not reached. */
  function Desired(avg: real, current: nat, min: int64, max: int64, target: int): (r: int64)
    ensures min <= max && current < min ==> r == min
    ensures min <= max && current > max ==> r == max
    ensures min <= current <= max ==>
      && current - 1 <= r <= current + 1
      && (r == current + 1 <==> avg > target as real && current < max)
      && (r == current - 1 <==> avg < target as real / 2.0 && current > min && !(avg > target as real && current < max))
    ensures max < min ==> r == if current < min then min else max
  {
    var step :=
      if avg > target as real && current < max then current + 1
      else if avg < target as real / 2.0 && current > min then current - 1
      else current;
    Clamp(step, min, max)
  }

  /** What one interval does to n replicas that share a load evenly. */
  function Next(load: real, n: nat, min: int64, max: int64, target: int): (r: nat)
    requires 1 <= min <= max && 1 <= n
    ensures min <= r <= max
  {
    Desired(load / n as real, n, min, max, target)
  }

  function After(load: real, n: nat, min: int64, max: int64, target: int, ticks: nat): (r: nat)
    requires 1 <= min <= max && 1 <= n
    ensures 1 <= r
  {
    if ticks == 0 then n else Next(load, After(load, n, min, max, target, ticks - 1), min, max, target)
  }

  /** Where the autoscaler has nothing left to do. */
  predicate AtRest(load: real, n: nat, min: int64, max: int64, target: int)
    requires 1 <= n
  {
    var avg, t := load / n as real, target as real;
    || t / 2.0 <= avg <= t
    || (n == max && avg > t)
    || (n == min && avg < t / 2.0)
  }

  /** Within the limits the count stays exactly where it is at rest. */
  lemma StaysIffAtRest(load: real, n: nat, min: int64, max: int64, target: int)
    requires 1 <= min <= n <= max && 0 < target
    ensures Next(load, n, min, max, target) == n <==> AtRest(load, n, min, max, target)
  {
  }

  lemma Share(load: real, n: nat, x: real)
    requires 1 <= n
    ensures load / n as real > x <==> load > x * n as real
    ensures load / n as real < x <==> load < x * n as real
  {
    var avg, r := load / n as real, n as real;
    assert load == avg * r;
    if avg > x { MulLess(x, avg, r); }
    if avg < x { MulLess(avg, x, r); }
  }

  lemma MulLess(a: real, b: real, r: real)
    requires a < b && r > 0.0
    ensures a * r < b * r
  {
  }

  /** Too much load for n replicas is no reason to give up the one that was added. */
  predicate NotLow(load: real, n: nat, target: int) { load >= target as real / 2.0 * n as real }

  predicate NotHigh(load: real, n: nat, target: int) { load <= target as real * n as real }

  lemma NotLowKept(load: real, n: nat, min: int64, max: int64, target: int)
    requires 1 <= min <= n <= max && 0 < target && NotLow(load, n, target)
    ensures var m := Next(load, n, min, max, target);
            (m == n || m == n + 1) && NotLow(load, m, target) && (m == n + 1 ==> n < max)
  {
    Share(load, n, target as real);
    Share(load, n, target as real / 2.0);
    if load / n as real > target as real { OneMoreIsNotLow(load, n as real, target as real); }
  }

  lemma OneMoreIsNotLow(load: real, n: real, t: real)
    requires n >= 1.0 && t > 0.0 && load > t * n
    ensures load >= t / 2.0 * (n + 1.0)
  {
    MulAtLeast(1.0, n, t);
    assert t / 2.0 * (n + 1.0) == (t * n) / 2.0 + t / 2.0;
  }

  lemma OneLessIsNotHigh(load: real, n: real, t: real)
    requires n >= 2.0 && t > 0.0 && load < t / 2.0 * n
    ensures load <= t * (n - 1.0)
  {
    MulAtLeast(2.0, n, t);
    assert t / 2.0 * n == (t * n) / 2.0 && t * (n - 1.0) == t * n - t;
  }

  lemma MulAtLeast(a: real, b: real, t: real)
    requires a <= b && t >= 0.0
    ensures t * a <= t * b
  {
  }

  lemma NotHighKept(load: real, n: nat, min: int64, max: int64, target: int)
    requires 1 <= min <= n <= max && 0 < target && NotHigh(load, n, target)
    ensures var m := Next(load, n, min, max, target);
            (m == n || m == n - 1) && NotHigh(load, m, target) && (m == n - 1 ==> n > min)
  {
    Share(load, n, target as real);
    Share(load, n, target as real / 2.0);
    if load / n as real < target as real / 2.0 && n > min { OneLessIsNotHigh(load, n as real, target as real); }
  }

  // ------------------------------------------------------------------- whole runs

  /** From a load that is not low the count only rises, and rises every tick until it rests. */
  lemma {:induction false} Rises(load: real, n: nat, min: int64, max: int64, target: int, k: nat)
    requires 1 <= min <= n <= max && 0 < target && NotLow(load, n, target)
    ensures var m := After(load, n, min, max, target, k);
            && n <= m <= max && NotLow(load, m, target)
            && (m == n + k || Next(load, m, min, max, target) == m)
    ensures k > 0 ==> After(load, n, min, max, target, k - 1) <= After(load, n, min, max, target, k)
    decreases k
  {
    if k > 0 {
      Rises(load, n, min, max, target, k - 1);
      NotLowKept(load, After(load, n, min, max, target, k - 1), min, max, target);
    }
  }

  lemma {:induction false} Falls(load: real, n: nat, min: int64, max: int64, target: int, k: nat)
    requires 1 <= min <= n <= max && 0 < target && NotHigh(load, n, target)
    ensures var m := After(load, n, min, max, target, k);
            && min <= m <= n && NotHigh(load, m, target)
            && (m == n - k || Next(load, m, min, max, target) == m)
    ensures k > 0 ==> After(load, n, min, max, target, k - 1) >= After(load, n, min, max, target, k)
    decreases k
  {
    if k > 0 {
      Falls(load, n, min, max, target, k - 1);
      NotHighKept(load, After(load, n, min, max, target, k - 1), min, max, target);
    }
  }

  lemma LowOrHigh(load: real, n: nat, target: int)
    requires 1 <= n && 0 < target
    ensures NotLow(load, n, target) || NotHigh(load, n, target)
  {
    if !NotLow(load, n, target) { MulAtLeast(0.5 * n as real, n as real, target as real); }
  }

  /** Under a constant load no step up is ever followed by a step down, nor the reverse. */
  lemma NeverReverses(load: real, n: nat, min: int64, max: int64, target: int, i: nat, j: nat)
    requires 1 <= min <= n <= max && 0 < target
    ensures After(load, n, min, max, target, i + 1) <= After(load, n, min, max, target, i)
         || After(load, n, min, max, target, j + 1) >= After(load, n, min, max, target, j)
  {
    LowOrHigh(load, n, target);
    if NotLow(load, n, target) {
      Rises(load, n, min, max, target, j + 1);
    } else {
      Falls(load, n, min, max, target, i + 1);
    }
  }

  /** The count settles within max - min ticks, and only where the load per replica is in the band,
      or a limit keeps it out. */
  lemma Settles(load: real, n: nat, min: int64, max: int64, target: int, k: nat)
    requires 1 <= min <= n <= max && 0 < target && k >= max - min
    ensures var m := After(load, n, min, max, target, k);
            min <= m <= max && AtRest(load, m, min, max, target) && Next(load, m, min, max, target) == m
  {
    var m := After(load, n, min, max, target, k);
    LowOrHigh(load, n, target);
    if NotLow(load, n, target) {
      Rises(load, n, min, max, target, k);
      NotLowKept(load, m, min, max, target);
    } else {
      Falls(load, n, min, max, target, k);
      NotHighKept(load, m, min, max, target);
    }
    StaysIffAtRest(load, m, min, max, target);
  }

  lemma {:induction false} AfterShifts(load: real, n: nat, min: int64, max: int64, target: int, k: nat)
    requires 1 <= min <= max && 1 <= n
    ensures After(load, n, min, max, target, k + 1)
         == After(load, Next(load, n, min, max, target), min, max, target, k)
    decreases k
  {
    if k > 0 { AfterShifts(load, n, min, max, target, k - 1); }
  }

  /** A count outside the limits takes one tick more, and where it rests it stays. */
  lemma SettlesFromAnywhere(load: real, n: nat, min: int64, max: int64, target: int, k: nat)
    requires 1 <= min <= max && 1 <= n && 0 < target && k >= max - min + if min <= n <= max then 0 else 1
    ensures var m := After(load, n, min, max, target, k);
            AtRest(load, m, min, max, target) && After(load, n, min, max, target, k + 1) == m
  {
    if min <= n <= max {
      Settles(load, n, min, max, target, k);
    } else {
      AfterShifts(load, n, min, max, target, k - 1);
      Settles(load, Next(load, n, min, max, target), min, max, target, k - 1);
    }
  }
}
