/** The open-addressing table from process ids to services: linear probing with deletion by
    backward shift. The number 0 marks an empty slot. Placement is proved for any hash. */
module PidTables {
  import Counting

  /** Multiplicative hashing in 32 bits; the table size is a power of two, so masking is a remainder. */
  function Hash(pid: nat, size: nat): (h: nat)
    requires size > 0
    ensures h < size
  {
    pid % 0x1_0000_0000 * 0x9e37_79b1 % 0x1_0000_0000 % size
  }

  predicate PowerOfTwo(n: nat) {
    n == 1 || (n > 0 && n % 2 == 0 && PowerOfTwo(n / 2))
  }

  function Next(i: nat, size: nat): nat
    requires i < size
  {
    if i + 1 == size then 0 else i + 1
  }

  /** How many steps a probe takes from slot a to slot b. */
  function Dist(a: nat, b: nat, size: nat): nat
    requires a < size && b < size
  {
    if a <= b then b - a else b + size - a
  }

  /** A probe that has not reached slot e yet comes one step closer to it. */
  lemma StepCloser(h: nat, i: nat, e: nat, size: nat)
    requires h < size && i < size && e < size && i != e && Dist(h, i, size) <= Dist(h, e, size)
    ensures Dist(h, Next(i, size), size) == Dist(h, i, size) + 1 <= Dist(h, e, size)
    ensures forall y :: 0 <= y < size && Dist(h, y, size) == Dist(h, i, size) ==> y == i
  {
  }

  ghost predicate Fits(home: nat -> nat, size: nat) {
    forall p :: home(p) < size
  }

  /** The probe for the key stored in slot x passes over slot y before it arrives. */
  ghost predicate Passes(home: nat -> nat, keys: seq<nat>, x: nat, y: nat)
    requires x < |keys| && y < |keys| && Fits(home, |keys|)
  {
    Dist(home(keys[x]), y, |keys|) < Dist(home(keys[x]), x, |keys|)
  }

  ghost predicate Unique(keys: seq<nat>) {
    forall x, y :: 0 <= x < y < |keys| && keys[x] != 0 ==> keys[x] != keys[y]
  }

  /** Every stored key is found by probing, if `hole` counts as occupied. A hole outside the table
      is no hole. */
  ghost predicate Placed(home: nat -> nat, keys: seq<nat>, hole: int)
    requires Fits(home, |keys|)
  {
    forall x, y :: 0 <= x < |keys| && 0 <= y < |keys| && keys[x] != 0 && Passes(home, keys, x, y)
      ==> keys[y] != 0 || y == hole
  }

  /** The finite map the table stands for. */
  ghost function Entries(keys: seq<nat>, vals: seq<nat>): map<nat, nat>
    requires |keys| == |vals|
  {
    map p | p in keys && p != 0 :: vals[SlotOf(keys, p)]
  }

  ghost function SlotOf(keys: seq<nat>, p: nat): (x: nat)
    requires p in keys
    ensures x < |keys| && keys[x] == p
  {
    var x :| 0 <= x < |keys| && keys[x] == p;
    x
  }

  lemma EntryAt(keys: seq<nat>, vals: seq<nat>, x: nat)
    requires |keys| == |vals| && Unique(keys) && x < |keys| && keys[x] != 0
    ensures keys[x] in Entries(keys, vals) && Entries(keys, vals)[keys[x]] == vals[x]
  {
    assert keys[SlotOf(keys, keys[x])] == keys[x];
  }

  /** Two tables whose occupied slots correspond stand for the same map. */
  lemma SameEntries(keys: seq<nat>, vals: seq<nat>, m: map<nat, nat>)
    requires |keys| == |vals| && Unique(keys)
    requires forall p :: p in m <==> p in keys && p != 0
    requires forall x :: 0 <= x < |keys| && keys[x] != 0 ==> m[keys[x]] == vals[x]
    ensures Entries(keys, vals) == m
  {
    forall p | p in m ensures p in Entries(keys, vals) && Entries(keys, vals)[p] == m[p] {
      EntryAt(keys, vals, SlotOf(keys, p));
    }
  }

  /** Without an empty slot there are as many entries as slots. */
  lemma FullTable(keys: seq<nat>, vals: seq<nat>)
    requires |keys| == |vals| && Unique(keys) && 0 !in keys
    ensures |Entries(keys, vals)| == |keys|
  {
    Counting.DistinctCard(keys);
    assert Entries(keys, vals).Keys == set a | 0 <= a < |keys| :: keys[a];
  }

  /** A table with fewer entries than slots has an empty slot. */
  lemma SomeEmpty(keys: seq<nat>, vals: seq<nat>)
    requires |keys| == |vals| && Unique(keys)
    requires |Entries(keys, vals)| < |keys|
    ensures exists e :: 0 <= e < |keys| && keys[e] == 0
  {
    if 0 !in keys {
      FullTable(keys, vals);
    }
  }

  /** A probe that stops at an empty slot has shown that the key is not stored anywhere. */
  lemma ProbeMiss(home: nat -> nat, keys: seq<nat>, pid: nat, i: nat)
    requires Fits(home, |keys|) && Placed(home, keys, -1) && pid != 0
    requires i < |keys| && keys[i] == 0
    requires forall y :: 0 <= y < |keys| && Dist(home(pid), y, |keys|) < Dist(home(pid), i, |keys|) ==> keys[y] != pid
    ensures pid !in keys
  {
    if pid in keys {
      assert Passes(home, keys, SlotOf(keys, pid), i);
    }
  }

  /** The branch test of the deletion loop says that the probe for slot j passes over slot i. */
  lemma ShiftTest(i: nat, j: nat, k: nat, size: nat)
    requires i < size && j < size && k < size && i != j
    ensures (if i <= j then k <= i || k > j else k <= i && k > j)
        <==> Dist(k, i, size) < Dist(k, j, size)
  {
  }

  /** Storing a key in the slot its probe stopped at. */
  lemma StoreKeeps(home: nat -> nat, keys: seq<nat>, vals: seq<nat>, pid: nat, i: nat, v: nat)
    requires |keys| == |vals| && Fits(home, |keys|) && Unique(keys) && Placed(home, keys, -1)
    requires i < |keys| && pid != 0 && (keys[i] == 0 || keys[i] == pid)
    requires forall x :: 0 <= x < |keys| && x != i ==> keys[x] != pid
    requires forall y :: 0 <= y < |keys| && Dist(home(pid), y, |keys|) < Dist(home(pid), i, |keys|) ==> keys[y] != 0
    ensures Unique(keys[i := pid]) && Placed(home, keys[i := pid], -1)
    ensures Entries(keys[i := pid], vals[i := v]) == Entries(keys, vals)[pid := v]
  {
    var after := keys[i := pid];
    forall x, y | 0 <= x < |after| && 0 <= y < |after| && after[x] != 0 && Passes(home, after, x, y)
      ensures after[y] != 0
    {
      if x != i {
        assert Passes(home, keys, x, y);
      }
    }
    var m := Entries(keys, vals)[pid := v];
    forall p ensures p in m <==> p in after && p != 0 {
      if p in keys && p != pid && p != 0 {
        assert after[SlotOf(keys, p)] == p;
      }
      assert after[i] == pid;
    }
    forall x | 0 <= x < |after| && after[x] != 0 && x != i ensures m[after[x]] == vals[x] {
      EntryAt(keys, vals, x);
    }
    SameEntries(after, vals[i := v], m);
  }

  /** Emptying a slot makes it the hole and removes its key. */
  lemma OpenHole(home: nat -> nat, keys: seq<nat>, vals: seq<nat>, i: nat)
    requires |keys| == |vals| && Fits(home, |keys|) && Unique(keys) && Placed(home, keys, -1)
    requires i < |keys| && keys[i] != 0
    ensures Unique(keys[i := 0]) && Placed(home, keys[i := 0], i)
    ensures Entries(keys[i := 0], vals) == Entries(keys, vals) - {keys[i]}
  {
    var after := keys[i := 0];
    forall x, y | 0 <= x < |after| && 0 <= y < |after| && after[x] != 0 && Passes(home, after, x, y)
      ensures after[y] != 0 || y == i
    {
      assert Passes(home, keys, x, y);
    }
    var m := Entries(keys, vals) - {keys[i]};
    forall p ensures p in m <==> p in after && p != 0 {
      if p in m {
        assert after[SlotOf(keys, p)] == p;
      }
    }
    forall x | 0 <= x < |after| && after[x] != 0 ensures m[after[x]] == vals[x] {
      EntryAt(keys, vals, x);
    }
    SameEntries(after, vals, m);
  }

  /** Moving the entry of slot j into the hole i its probe passes over makes j the hole. */
  lemma ShiftKeeps(home: nat -> nat, keys: seq<nat>, vals: seq<nat>, i: nat, j: nat)
    requires |keys| == |vals| && Fits(home, |keys|) && Unique(keys) && i < |keys| && j < |keys|
    requires Placed(home, keys, i) && keys[i] == 0 && keys[j] != 0 && Passes(home, keys, j, i)
    ensures Unique(keys[i := keys[j]][j := 0])
    ensures Placed(home, keys[i := keys[j]][j := 0], j)
    ensures Entries(keys[i := keys[j]][j := 0], vals[i := vals[j]]) == Entries(keys, vals)
  {
    var after := keys[i := keys[j]][j := 0];
    forall x, y | 0 <= x < |after| && 0 <= y < |after| && after[x] != 0 && Passes(home, after, x, y)
      ensures after[y] != 0 || y == j
    {
      assert Passes(home, keys, if x == i then j else x, y);
    }
    var m := Entries(keys, vals);
    forall p ensures p in m <==> p in after && p != 0 {
      if p in m {
        var x := SlotOf(keys, p);
        assert after[if x == j then i else x] == p;
      }
    }
    forall x | 0 <= x < |after| && after[x] != 0 ensures m[after[x]] == vals[i := vals[j]][x] {
      EntryAt(keys, vals, if x == i then j else x);
    }
    SameEntries(after, vals[i := vals[j]], m);
  }

  /** The slots after hole i, up to j, are occupied by keys whose probes do not pass the hole. */
  ghost predicate Settled(home: nat -> nat, keys: seq<nat>, i: nat, j: nat)
    requires i < |keys| && j < |keys| && Fits(home, |keys|)
  {
    forall y :: 0 <= y < |keys| && 0 < Dist(i, y, |keys|) <= Dist(i, j, |keys|) ==>
      keys[y] != 0 && !Passes(home, keys, y, i)
  }

  lemma SettledStep(home: nat -> nat, keys: seq<nat>, i: nat, before: nat)
    requires Fits(home, |keys|) && i < |keys| && before < |keys| && Settled(home, keys, i, before)
    requires var j := Next(before, |keys|); j != i && keys[j] != 0 && !Passes(home, keys, j, i)
    ensures Settled(home, keys, i, Next(before, |keys|))
  {
    hide Passes;
  }

  lemma SettledNone(home: nat -> nat, keys: seq<nat>, i: nat)
    requires Fits(home, |keys|) && i < |keys|
    ensures Settled(home, keys, i, i)
  {
  }

  /** The scan comes closer to the empty slot e. */
  lemma ScanStep(i: nat, before: nat, e: nat, size: nat)
    requires i < size && before < size && e < size && e != i && Dist(i, before, size) < Dist(i, e, size)
    ensures var j := Next(before, size);
            && j < size && j != i && Dist(i, j, size) <= Dist(i, e, size)
                && (j != e ==> Dist(i, j, size) < Dist(i, e, size))
            && Dist(j, e, size) < Dist(before, e, size) && (j != e ==> Dist(j, j, size) < Dist(j, e, size))
  {
  }

  /** Once the scan meets an empty slot no probe depends on the hole any more. */
  lemma CloseHole(home: nat -> nat, keys: seq<nat>, i: nat, j: nat, before: nat)
    requires Fits(home, |keys|) && i < |keys| && before < |keys| && j == Next(before, |keys|) && j != i
    requires Placed(home, keys, i) && keys[i] == 0 && keys[j] == 0
    requires Settled(home, keys, i, before)
    ensures Placed(home, keys, -1)
  {
    var n := |keys|;
    forall x, y | 0 <= x < n && 0 <= y < n && keys[x] != 0 && Passes(home, keys, x, y)
      ensures keys[y] != 0
    {
      if y == i {
        assert Dist(i, x, n) > Dist(i, j, n);
        assert Passes(home, keys, x, j);
      }
    }
  }

  /** The first power of two, from 64, that leaves a table at most a quarter full. */
  method TableSize(services: nat) returns (size: nat)
    ensures 4 * services <= size && 64 <= size && PowerOfTwo(size) && (size == 64 || size < 8 * services)
  {
    size := 64;
    assert PowerOfTwo(8) && PowerOfTwo(32) && PowerOfTwo(64);
    while size < 4 * services
      invariant size >= 64 && PowerOfTwo(size) && (size == 64 || size < 8 * services)
      decreases 4 * services - size
    {
      assert PowerOfTwo(2 * size);
      size := size * 2;
    }
  }

  class PidTable {
    const key: array<nat>
    const val: array<nat>
    const home: nat -> nat

    ghost predicate Valid()
      reads key, val
    {
      && key != val && key.Length == val.Length && Fits(home, key.Length)
      && Unique(key[..]) && Placed(home, key[..], -1)
    }

    /** The map from process ids to services that the table stands for. */
    ghost function Map(): map<nat, nat>
      reads key, val
      requires Valid()
    {
      Entries(key[..], val[..])
    }

    /** An empty table for this many services. */
    constructor (services: nat)
      ensures Valid() && fresh(key) && fresh(val)
      ensures Map() == map[] && 4 * services <= key.Length && 64 <= key.Length
      ensures PowerOfTwo(key.Length) && (key.Length == 64 || key.Length < 8 * services)
      ensures forall p :: home(p) == Hash(p, key.Length)
    {
      var size := TableSize(services);
      key := new nat[size](_ => 0);
      val := new nat[size](_ => 0);
      home := p => Hash(p, size);
    }

    /** Probing stops at the slot of pid, or at the empty slot where it would be stored. */
    method Probe(pid: nat) returns (i: nat)
      requires Valid() && pid != 0 && |Map()| < key.Length
      ensures i < key.Length
      ensures key[i] == pid <==> pid in Map()
      ensures key[i] == pid || key[i] == 0
      ensures forall y :: 0 <= y < key.Length
                && Dist(home(pid), y, key.Length) < Dist(home(pid), i, key.Length)
                ==> key[y] != 0
    {
      var n := key.Length;
      ghost var keys := key[..];
      SomeEmpty(keys, val[..]);
      ghost var e :| 0 <= e < n && keys[e] == 0;
      var h := home(pid);
      i := h;
      while key[i] != 0 && key[i] != pid
        invariant i < n && Dist(h, i, n) <= Dist(h, e, n)
        invariant forall y :: 0 <= y < n && Dist(h, y, n) < Dist(h, i, n) ==> keys[y] != 0 && keys[y] != pid
        decreases Dist(h, e, n) - Dist(h, i, n)
      {
        StepCloser(h, i, e, n);
        i := Next(i, n);
      }
      if key[i] == 0 {
        ProbeMiss(home, keys, pid, i);
      } else {
        assert keys[i] == pid;
      }
    }

    method Put(pid: nat, svc: nat)
      requires Valid() && pid != 0 && |Map()| < key.Length
      modifies key, val
      ensures Valid() && Map() == old(Map())[pid := svc]
    {
      var i := Probe(pid);
      ghost var keys, vals := key[..], val[..];
      StoreKeeps(home, keys, vals, pid, i, svc);
      key[i] := pid;
      val[i] := svc;
      assert key[..] == keys[i := pid] && val[..] == vals[i := svc];
    }

    method Delete(pid: nat)
      requires Valid() && pid != 0 && |Map()| < key.Length
      modifies key, val
      ensures Valid() && Map() == old(Map()) - {pid}
    {
      var i := Probe(pid);
      if key[i] == 0 {
        assert old(Map()) - {pid} == old(Map());
        return;
      }
      SomeEmpty(key[..], val[..]);
      ghost var keys := key[..];
      OpenHole(home, keys, val[..], i);
      key[i] := 0;
      assert key[..] == keys[i := 0];
      ghost var e :| 0 <= e < |keys| && keys[e] == 0;
      assert key[..][e] == 0;
      ShiftBack(i, e);
    }

    /** Moves the entries after an emptied slot back until none of them is cut off by it. */
    method ShiftBack(hole: nat, ghost e: nat)
      requires key != val && key.Length == val.Length && Fits(home, key.Length)
      requires Unique(key[..]) && hole < key.Length && Placed(home, key[..], hole)
      requires e < key.Length && e != hole && key[hole] == 0 && key[e] == 0
      modifies key, val
      ensures Valid() && Map() == old(Entries(key[..], val[..]))
    {
      var n := key.Length;
      var i: nat, j: nat := hole, hole;
      SettledNone(home, key[..], hole);
      hide Unique, Placed, Settled, Entries, Fits;
      while true
        invariant i < n && j < n && e != i && key[e] == 0 && key[i] == 0
        invariant Unique(key[..]) && Entries(key[..], val[..]) == old(Entries(key[..], val[..]))
        invariant Placed(home, key[..], i) && Settled(home, key[..], i, j)
        invariant Dist(i, j, n) < Dist(i, e, n)
        decreases Dist(j, e, n)
      {
        ghost var before := j;
        ScanStep(i, j, e, n);
        j := Next(j, n);
        if key[j] == 0 {
          CloseHole(home, key[..], i, j, before);
          return;
        }
        HomeFits(home, n, key[j]);
        var k := home(key[j]);
        ShiftTest(i, j, k, n);
        if (if i <= j then k <= i || k > j else k <= i && k > j) {
          Shift(i, j);
          i := j;
          SettledNone(home, key[..], i);
        } else {
          SettledStep(home, key[..], i, before);
        }
      }
    }

    lemma HomeFits(home: nat -> nat, n: nat, p: nat)
      requires Fits(home, n)
      ensures home(p) < n
    {
    }

    /** Moves the entry in slot j to the hole at i. */
    method Shift(i: nat, j: nat)
      requires key != val && key.Length == val.Length && Fits(home, key.Length) && i < key.Length && j < key.Length
      requires Unique(key[..]) && Placed(home, key[..], i) && key[i] == 0 && key[j] != 0 && Passes(home, key[..], j, i)
      modifies key, val
      ensures Unique(key[..]) && Placed(home, key[..], j) && key[j] == 0
      ensures Entries(key[..], val[..]) == old(Entries(key[..], val[..]))
      ensures key[..] == old(key[..])[i := old(key[j])][j := 0]
    {
      hide Unique, Placed, Entries, Passes;
      ghost var keys, vals := key[..], val[..];
      ShiftKeeps(home, keys, vals, i, j);
      key[i] := key[j];
      val[i] := val[j];
      key[j] := 0;
      assert key[..] == keys[i := keys[j]][j := 0] && val[..] == vals[i := vals[j]];
    }

    /** The service a process id belongs to. */
    method Lookup(pid: nat) returns (found: bool, svc: nat)
      requires Valid() && pid != 0 && |Map()| < key.Length
      ensures found <==> pid in Map()
      ensures found ==> svc == Map()[pid]
    {
      var i := Probe(pid);
      found, svc := key[i] == pid, val[i];
      if found {
        EntryAt(key[..], val[..], i);
      }
    }
  }
}
