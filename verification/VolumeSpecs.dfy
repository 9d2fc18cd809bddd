/** The volume_specs table: a size budget and an owner per volume and environment. */
module VolumeSpecs {
  import opened Text
  import opened Collections

  datatype Key = Key(env: int, name: string)
  datatype Row = Row(owner: string, sizeMB: int)

  type Rows = map<Key, Row>

  /** An owner's volumes on an environment, one of them left out. */
  ghost function OwnedVolumes(specs: Rows, env: int, owner: string, exclude: string): set<Key> {
    set k | k in specs && k.env == env && specs[k].owner == owner && k.name != exclude
  }

  function SizeIn(specs: Rows): Key -> int { (k: Key) => if k in specs then specs[k].sizeMB else 0 }

  /** SUM(size_mb) over an owner's volumes on an environment, one of them left out. */
  ghost function DiskUsage(specs: Rows, env: int, owner: string, exclude: string): int {
    Sum(OwnedVolumes(specs, env, owner, exclude), SizeIn(specs))
  }

  /** Docker gives every volume a name. */
  ghost predicate AllNamed(specs: Rows) { forall k :: NamedAt(specs, k) }

  predicate NamedAt(specs: Rows, k: Key) { k in specs ==> k.name != "" }

  /** The test of enforceVolumeQuota. */
  ghost predicate PassesCheck(specs: Rows, env: int, owner: string, quota: int, sizeMB: int, exclude: string) {
    quota > 0 && sizeMB > 0 && DiskUsage(specs, env, owner, exclude) + sizeMB <= quota
  }

  // ------------------------------------------------------------------- the table

  class Ledger {
    var specs: Rows
    ghost var faults: nat

    constructor () ensures specs == map[] { specs := map[]; }

    /** Any statement may fail. */
    method Query() returns (ok: bool)
      modifies this`faults
      ensures faults == old(faults) + if ok then 0 else 1
    {
      ok := *;
      if !ok { faults := faults + 1; }
    }

    method SetVolumeSize(env: int, name: string, owner: string, sizeMB: int) returns (ok: bool)
      modifies this
      ensures faults == old(faults) + if ok then 0 else 1
      ensures specs == if ok then old(specs)[Key(env, name) := Row(owner, sizeMB)] else old(specs)
    {
      ok := Query();
      if !ok { return; }
      specs := specs[Key(env, name) := Row(owner, sizeMB)];
    }

    method DeleteVolumeSize(env: int, name: string) returns (ok: bool)
      modifies this
      ensures faults == old(faults) + if ok then 0 else 1
      ensures specs == if ok then old(specs) - {Key(env, name)} else old(specs)
    {
      ok := Query();
      if !ok { return; }
      specs := specs - {Key(env, name)};
    }

    method ListVolumeSizes(env: int) returns (ok: bool, out: map<string, int>)
      modifies this`faults
      ensures faults == old(faults) + if ok then 0 else 1
      ensures ok ==> forall n :: n in out <==> Key(env, n) in specs
      ensures ok ==> forall n :: n in out ==> out[n] == specs[Key(env, n)].sizeMB
    {
      out := map[];
      ok := Query();
      if !ok { return; }
      var todo := specs.Keys;
      while todo != {}
        invariant todo <= specs.Keys && faults == old(faults)
        invariant forall n :: n in out <==> Key(env, n) in specs && Key(env, n) !in todo
        invariant forall n :: n in out ==> out[n] == specs[Key(env, n)].sizeMB
        decreases todo
      {
        var k := Pick(todo);
        if k.env == env { out := out[k.name := specs[k].sizeMB]; }
        todo := todo - {k};
      }
    }

    /** The database sums, in any order. */
    method OwnerDiskUsageMB(env: int, owner: string, exclude: string) returns (ok: bool, total: int)
      modifies this`faults
      ensures faults == old(faults) + if ok then 0 else 1
      ensures ok ==> total == DiskUsage(specs, env, owner, exclude)
    {
      total := 0;
      ok := Query();
      if !ok { return; }
      var todo := specs.Keys;
      ghost var all := OwnedVolumes(specs, env, owner, exclude);
      while todo != {}
        invariant todo <= specs.Keys && faults == old(faults)
        invariant total == Sum(all - todo, SizeIn(specs))
        decreases todo
      {
        var k := Pick(todo);
        if k.env == env && specs[k].owner == owner && k.name != exclude {
          assert all - (todo - {k}) == all - todo + {k};
          SumAdd(all - todo, SizeIn(specs), k);
          total := total + specs[k].sizeMB;
        } else {
          assert all - (todo - {k}) == all - todo;
        }
        todo := todo - {k};
      }
      assert all - {} == all;
    }
  }

  /** One write replaces one addend. */
  lemma UsageOfWrite(specs: Rows, env: int, name: string, owner: string, sizeMB: int)
    requires AllNamed(specs) && name != ""
    ensures DiskUsage(specs[Key(env, name) := Row(owner, sizeMB)], env, owner, "")
         == DiskUsage(specs, env, owner, name) + sizeMB
  {
    var k, rest := Key(env, name), OwnedVolumes(specs, env, owner, name);
    var after := specs[k := Row(owner, sizeMB)];
    forall j ensures j in OwnedVolumes(after, env, owner, "") <==> j in rest + {k} { assert NamedAt(specs, j); }
    assert OwnedVolumes(after, env, owner, "") == rest + {k};
    SumAdd(rest, SizeIn(after), k);
    SumSame(rest, SizeIn(specs), SizeIn(after));
  }

  /** The owner's budgets on the environment are not negative. */
  ghost predicate SaneRows(specs: Rows, env: int, owner: string) { forall k :: SaneRowAt(specs, env, owner, k) }

  predicate SaneRowAt(specs: Rows, env: int, owner: string, k: Key) {
    k in specs && k.env == env && specs[k].owner == owner ==> specs[k].sizeMB >= 0
  }

  lemma UsageWithout(specs: Rows, env: int, name: string, owner: string)
    requires AllNamed(specs) && SaneRows(specs, env, owner)
    ensures 0 <= DiskUsage(specs, env, owner, name) <= DiskUsage(specs, env, owner, "")
  {
    var f, some, all := SizeIn(specs), OwnedVolumes(specs, env, owner, name), OwnedVolumes(specs, env, owner, "");
    forall k ensures BelowAt({}, f, some, f, k) && BelowAt(some, f, all, f, k) {
      assert SaneRowAt(specs, env, owner, k) && NamedAt(specs, k);
    }
    SumMonotone({}, f, some, f);
    SumMonotone(some, f, all, f);
  }

  /** A write that passed its check right before keeps the owner within quota. */
  lemma CheckedWrite(specs: Rows, env: int, name: string, owner: string, quota: int, sizeMB: int, exclude: string)
    requires AllNamed(specs) && name != "" && SaneRows(specs, env, owner) && (exclude == "" || exclude == name)
    requires PassesCheck(specs, env, owner, quota, sizeMB, exclude)
    ensures DiskUsage(specs[Key(env, name) := Row(owner, sizeMB)], env, owner, "") <= quota
  {
    UsageOfWrite(specs, env, name, owner, sizeMB);
    UsageWithout(specs, env, name, owner);
  }
}
