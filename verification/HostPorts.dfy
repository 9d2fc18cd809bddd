/** Published host ports: replica i binds every fixed host port shifted by i. */
module HostPorts {
  import opened Text
  import opened Specs
  import Slug

  /** The port a host port field names, if it is a number. */
  function PortNumber(p: PortMap): (r: Option<int64>) { Atoi(Slug.TrimSpace(p.hostPort)) }

  function ShiftPort(p: PortMap, delta: int64): PortMap {
    match PortNumber(p)
    case Some(n) => p.(hostPort := Itoa(Add64(n, delta)))
    case None => p
  }

  function Offset(ports: seq<PortMap>, delta: int64): (out: seq<PortMap>)
    ensures |out| == |ports|
  {
    if delta == 0 then ports else seq(|ports|, j requires 0 <= j < |ports| => ShiftPort(ports[j], delta))
  }

  method OffsetHostPorts(ports: seq<PortMap>, delta: int64) returns (out: seq<PortMap>)
    ensures out == Offset(ports, delta)
  {
    if |ports| == 0 || delta == 0 { return ports; }
    var a := new PortMap[|ports|](j requires 0 <= j < |ports| => ports[j]);
    for j := 0 to |ports|
      invariant forall k :: 0 <= k < j ==> a[k] == ShiftPort(ports[k], delta)
    {
      var p := ShiftOne(ports[j], delta);
      a[j] := p;
    }
    out := a[..];
    OffsetIs(ports, delta, out);
  }

  lemma OffsetIs(ports: seq<PortMap>, delta: int64, out: seq<PortMap>)
    requires delta != 0 && |out| == |ports|
    requires forall k :: 0 <= k < |out| ==> out[k] == ShiftPort(ports[k], delta)
    ensures out == Offset(ports, delta)
  {
    var all := Offset(ports, delta);
    assert forall k :: 0 <= k < |all| ==> all[k] == ShiftPort(ports[k], delta);
  }

  /** The loop's body. An empty field is no number either. */
  method ShiftOne(p: PortMap, delta: int64) returns (q: PortMap)
    ensures q == ShiftPort(p, delta)
  {
    var hp := Slug.TrimSpace(p.hostPort);
    var n := Atoi(hp);
    q := p;
    if n.Some? && hp != "" { q := p.(hostPort := Itoa(Add64(n.value, delta))); }
  }

  /** The printed number is read back, so a shifted port names the shifted number. */
  lemma ShiftedNumber(p: PortMap, delta: int64)
    ensures PortNumber(ShiftPort(p, delta))
         == match PortNumber(p) case Some(n) => Some(Add64(n, delta)) case None => None
  {
    match PortNumber(p)
    case Some(n) =>
      var m := Add64(n, delta);
      ItoaRoundTrip(m);
      NumeralsHaveNoSpace(m);
    case None =>
  }

  lemma NumeralsHaveNoSpace(n: int)
    ensures Slug.TrimSpace(Itoa(n)) == Itoa(n)
  {
    var s := Itoa(n);
    DigitsRoundTrip(if n < 0 then -n else n);
    assert forall i :: 0 <= i < |s| ==> s[i] == '-' || IsDigit(s[i]);
    assert s != [] && !Slug.IsSpace(s[0]) && !Slug.IsSpace(s[|s| - 1]);
  }

  lemma OffsetNumber(ports: seq<PortMap>, delta: int64, j: nat)
    requires j < |ports|
    ensures PortNumber(Offset(ports, delta)[j])
         == match PortNumber(ports[j]) case Some(n) => Some(Add64(n, delta)) case None => None
    ensures PortNumber(ports[j]) == None ==> Offset(ports, delta)[j] == ports[j]
    ensures var q := Offset(ports, delta)[j];
            q.hostIP == ports[j].hostIP && q.containerPort == ports[j].containerPort && q.proto == ports[j].proto
  {
    ShiftedNumber(ports[j], delta);
  }

  predicate AllSpace(s: string) { forall i :: 0 <= i < |s| ==> Slug.IsSpace(s[i]) }

  lemma {:induction false} TrimAround(before: string, s: string, after: string)
    requires AllSpace(before) && AllSpace(after)
    ensures Slug.TrimSpace(before + s + after) == Slug.TrimSpace(s)
    decreases |before| + |after|
  {
    var t := before + s + after;
    if before != "" {
      TrimAround(before[1..], s, after);
      assert t == [before[0]] + (before[1..] + s + after);
      Slug.TrimSpaceMeans(before[1..] + s + after, before[0]);
    } else if after != "" {
      var k := |after| - 1;
      TrimAround(before, s, after[..k]);
      assert t == (before + s + after[..k]) + [after[k]];
      Slug.TrimSpaceMeans(before + s + after[..k], after[k]);
    } else {
      assert t == s;
    }
  }

  /** A field that spells n, with whatever white space around it, is bound to n + i by replica i. */
  lemma FieldShifted(ports: seq<PortMap>, i: int64, j: nat, before: string, n: nat, after: string)
    requires j < |ports| && ports[j].hostPort == before + Itoa(n) + after && AllSpace(before) && AllSpace(after)
    requires 0 <= i && n + i < INT64_LIMIT
    ensures PortNumber(ports[j]) == Some(n)
    ensures Offset(ports, i)[j].hostPort == if i == 0 then ports[j].hostPort else Itoa(n + i)
  {
    TrimAround(before, Itoa(n), after);
    NumeralsHaveNoSpace(n);
    ItoaRoundTrip(n);
  }

  /** An empty field asks for no particular port, whatever replica it is. */
  lemma EmptyFieldStays(ports: seq<PortMap>, i: int64, j: nat)
    requires j < |ports| && AllSpace(ports[j].hostPort)
    ensures Offset(ports, i)[j] == ports[j]
  {
    TrimAround(ports[j].hostPort, "", "");
    assert ports[j].hostPort + "" + "" == ports[j].hostPort;
  }

  lemma AddAssociates(n: int64, a: int64, b: int64)
    requires 0 <= a && 0 <= b && a + b < INT64_LIMIT
    ensures Add64(Add64(n, a), b) == Add64(n, a + b)
  {
  }

  lemma ShiftComposes(p: PortMap, a: int64, b: int64)
    requires 0 <= a && 0 <= b && a + b < INT64_LIMIT
    ensures ShiftPort(ShiftPort(p, a), b) == ShiftPort(p, a + b)
  {
    ShiftedNumber(p, a);
    match PortNumber(p)
    case Some(n) => AddAssociates(n, a, b);
    case None =>
  }

  /** Shifting twice is shifting once by the sum, even across a 64-bit wrap-around. */
  lemma OffsetComposes(ports: seq<PortMap>, a: int64, b: int64)
    requires 0 <= a && 0 <= b && a + b < INT64_LIMIT
    ensures Offset(Offset(ports, a), b) == Offset(ports, a + b)
  {
    if a != 0 && b != 0 {
      forall j | 0 <= j < |ports| ensures Offset(Offset(ports, a), b)[j] == Offset(ports, a + b)[j] {
        ShiftComposes(ports[j], a, b);
      }
    }
  }

  lemma Numerals()
    ensures Itoa(81) == "81" && Itoa(80) == "80"
  {
    assert DigitChar(8) == '8' && DigitChar(1) == '1' && DigitChar(0) == '0';
    assert Digits(8) == "8" && Digits(81) == "8" + "1" && Digits(80) == "8" + "0";
  }

  lemma PaddedNumeral(p: PortMap)
    requires p.hostPort == "080"
    ensures PortNumber(p) == Some(80)
  {
    assert Slug.TrimSpace("080") == "080";
    assert "080"[..2] == "08" && "08"[..1] == "0" && "0"[..0] == "";
    assert ValueOf("0") == 0 && ValueOf("08") == 8 && ValueOf("080") == 80;
  }

  /** Shifting forth and back also rewrites the text of the number: the law needs a, b >= 0. */
  lemma OffsetBackRewrites(p: PortMap)
    requires p.hostPort == "080"
    ensures Offset(Offset([p], 1), -1) == [p.(hostPort := "80")]
  {
    PaddedNumeral(p);
    ShiftedNumber(p, 1);
    Numerals();
    var q := ShiftPort(p, 1);
    assert Offset([p], 1) == [q];
    assert Offset([q], -1) == [ShiftPort(q, -1)];
  }

  // ---------------------------------------------------------------- collisions

  /** Every port is fixed to a legal number, and the numbers differ. */
  ghost predicate FixedPorts(ports: seq<PortMap>) {
    && (forall j :: 0 <= j < |ports| ==> PortNumber(ports[j]).Some? && 0 <= PortNumber(ports[j]).value <= 65535)
    && forall j, k :: 0 <= j < k < |ports| ==> PortNumber(ports[j]) != PortNumber(ports[k])
  }

  /** The number that replica i asks for in place of ports[j]. */
  function Bound(ports: seq<PortMap>, i: int64, j: nat): Option<int64>
    requires j < |ports|
  {
    PortNumber(Offset(ports, i)[j])
  }

  predicate Collide(ports: seq<PortMap>, i: int64, j: nat, i': int64, j': nat)
    requires j < |ports| && j' < |ports|
  {
    Bound(ports, i, j) == Bound(ports, i', j')
  }

  ghost predicate NoCollision(ports: seq<PortMap>, n: int64) {
    forall i: int64, j: nat, i': int64, j': nat ::
      0 <= i < n && 0 <= i' < n && j < |ports| && j' < |ports| && (i != i' || j != j') ==>
      !Collide(ports, i, j, i', j')
  }

  ghost predicate Spaced(ports: seq<PortMap>, n: int64)
    requires FixedPorts(ports)
  {
    forall j, k :: 0 <= j < k < |ports| ==>
      || PortNumber(ports[j]).value - PortNumber(ports[k]).value >= n
      || PortNumber(ports[k]).value - PortNumber(ports[j]).value >= n
  }

  /** Replica i of the port at j asks for x. */
  predicate Asks(ports: seq<PortMap>, i: int64, j: nat, x: int) {
    j < |ports| && Bound(ports, i, j).Some? && Bound(ports, i, j).value == x
  }

  lemma BoundIsShifted(ports: seq<PortMap>, i: int64, j: nat, p: int64)
    requires j < |ports| && PortNumber(ports[j]) == Some(p) && 0 <= p <= 65535 && 0 <= i < INT64_LIMIT - 65536
    ensures Asks(ports, i, j, p + i)
  {
    OffsetNumber(ports, i, j);
  }

  lemma SpacedPairDiffers(ports: seq<PortMap>, n: int64, i: int64, j: nat, i': int64, j': nat)
    requires FixedPorts(ports) && n < INT64_LIMIT - 65536 && Spaced(ports, n)
    requires 0 <= i < n && 0 <= i' < n && j < |ports| && j' < |ports| && (i != i' || j != j')
    ensures Bound(ports, i, j) != Bound(ports, i', j')
  {
    BoundIsShifted(ports, i, j, PortNumber(ports[j]).value);
    BoundIsShifted(ports, i', j', PortNumber(ports[j']).value);
  }

  lemma BothAsk(ports: seq<PortMap>, i: int64, j: nat, i': int64, j': nat, x: int)
    requires Asks(ports, i, j, x) && Asks(ports, i', j', x)
    ensures Collide(ports, i, j, i', j')
  {
  }

  lemma AsksShifts(ports: seq<PortMap>, i: int64, j: nat, p: int64, x: int)
    requires Asks(ports, 0, j, p) && 0 <= p <= 65535 && 0 <= i < INT64_LIMIT - 65536 && x == p + i
    ensures Asks(ports, i, j, x)
  {
    BoundIsShifted(ports, i, j, p);
  }

  lemma ClosePairCollides(ports: seq<PortMap>, n: int64, j: nat, k: nat, p: int64, q: int64)
    requires n < INT64_LIMIT - 65536 && Asks(ports, 0, j, p) && Asks(ports, 0, k, q)
    requires 0 <= p <= q <= 65535 && q - p < n
    ensures Collide(ports, q - p, j, 0, k)
  {
    var d: int64 := q - p;
    AsksShifts(ports, d, j, p, q);
    BothAsk(ports, d, j, 0, k, q);
  }

  /** Replicas 0..n-1 bind pairwise different ports exactly when the base ports are at least n
      apart. */
  lemma CollisionFreeIffSpaced(ports: seq<PortMap>, n: int64)
    requires FixedPorts(ports) && n < INT64_LIMIT - 65536
    ensures NoCollision(ports, n) <==> Spaced(ports, n)
  {
    if Spaced(ports, n) {
      forall i: int64, j: nat, i': int64, j': nat
        | 0 <= i < n && 0 <= i' < n && j < |ports| && j' < |ports| && (i != i' || j != j')
        ensures !Collide(ports, i, j, i', j')
      {
        SpacedPairDiffers(ports, n, i, j, i', j');
      }
    } else {
      var j, k :| 0 <= j < k < |ports|
        && PortNumber(ports[j]).value - PortNumber(ports[k]).value < n
        && PortNumber(ports[k]).value - PortNumber(ports[j]).value < n;
      var p, q := PortNumber(ports[j]).value, PortNumber(ports[k]).value;
      BoundIsShifted(ports, 0, j, p);
      BoundIsShifted(ports, 0, k, q);
      if q >= p {
        ClosePairCollides(ports, n, j, k, p, q);
      } else {
        ClosePairCollides(ports, n, k, j, q, p);
      }
    }
  }
}
