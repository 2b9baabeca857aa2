/** Finding two services with the same name: an open-addressing table that is only added to. */
module NameTables {
  import opened Counting
  import opened PidTables

  function NameHash(s: string): bv32 {
    if s == [] then 2166136261
    else (NameHash(s[..|s| - 1]) ^ ((s[|s| - 1] as int) % 256) as bv32) * 16777619
  }

  function Home(s: string, size: nat): (h: nat)
    requires size > 0
    ensures h < size
  {
    NameHash(s) as nat % size
  }

  /** A search from h comes to y before it comes to x. */
  predicate Closer(h: nat, y: nat, x: nat, size: nat)
    requires h < size && x < size && y < size
  {
    Dist(h, y, size) < Dist(h, x, size)
  }

  /** Where the search for an entry starts; an entry is one more than the service it stands for. */
  ghost function Start(names: seq<string>, size: nat): nat -> nat
    requires size > 0
  {
    (e: nat) => if 0 < e <= |names| then Home(names[e - 1], size) else 0
  }

  /** The table holds the first i services, each once, where the search for its name finds it. */
  ghost predicate Holding(names: seq<string>, tab: seq<nat>, i: nat) {
    && |tab| > 0 && i <= |names| && Fits(Start(names, |tab|), |tab|)
    && Unique(tab) && Placed(Start(names, |tab|), tab, -1)
    && (forall e: nat :: e in tab && e != 0 <==> 0 < e <= i)
    && (forall x :: 0 <= x < |tab| ==> tab[x] <= i)
  }

  /** There is an empty slot as long as there are fewer services than slots. */
  lemma HasEmpty(names: seq<string>, tab: seq<nat>, i: nat)
    requires Holding(names, tab, i) && i < |tab|
    ensures exists x :: 0 <= x < |tab| && tab[x] == 0
  {
    if forall x :: 0 <= x < |tab| ==> tab[x] != 0 {
      var low := seq<nat>(|tab|, x requires 0 <= x < |tab| => tab[x] - 1);
      Pigeonhole(low, i);
    }
  }

  /** Entries at slots the search passes over are not empty. */
  lemma SearchMiss(names: seq<string>, tab: seq<nat>, i: nat, at: nat, j: nat)
    requires Holding(names, tab, i) && i < |names| && at < |tab| && tab[at] == 0 && j < i
    requires forall y :: 0 <= y < |tab| && Closer(Home(names[i], |tab|), y, at, |tab|) ==>
               tab[y] != 0 && tab[y] <= |names| && names[tab[y] - 1] != names[i]
    ensures names[j] != names[i]
  {
    assert j + 1 in tab;
    var x :| 0 <= x < |tab| && tab[x] == j + 1;
    var start := Start(names, |tab|);
    assert start(tab[x]) == Home(names[j], |tab|);
    assert !Passes(start, tab, x, at);
    assert Dist(start(tab[x]), x, |tab|) != Dist(start(tab[x]), at, |tab|);
    assert Closer(Home(names[j], |tab|), x, at, |tab|);
  }

  lemma StoreName(names: seq<string>, tab: seq<nat>, i: nat, at: nat)
    requires Holding(names, tab, i) && i < |names| && at < |tab| && tab[at] == 0
    requires forall y :: 0 <= y < |tab| && Closer(Home(names[i], |tab|), y, at, |tab|) ==> tab[y] != 0
    ensures Holding(names, tab[at := i + 1], i + 1)
  {
    var start := Start(names, |tab|);
    assert i + 1 !in tab;
    var vals := seq<nat>(|tab|, _ => 0);
    StoreKeeps(start, tab, vals, i + 1, at, 0);
    var t := tab[at := i + 1];
    forall e: nat ensures e in t && e != 0 <==> 0 < e <= i + 1 {
      if e in tab && e != 0 {
        var x :| 0 <= x < |tab| && tab[x] == e;
        assert t[x] == e;
      }
      if e == i + 1 {
        assert t[at] == e;
      }
    }
  }

  /** Whether no two services share a name. */
  method UniqueNames(names: seq<string>) returns (ok: bool)
    ensures ok <==> forall i, j :: 0 <= i < j < |names| ==> names[i] != names[j]
  {
    var size := 64;
    while size < 2 * |names|
      invariant size >= 64
    {
      size := size * 2;
    }
    var tab := new nat[size](_ => 0);
    HoldsNone(names, tab[..]);
    var i := 0;
    while i < |names|
      invariant 0 <= i <= |names| && Holding(names, tab[..], i) && tab.Length == size && fresh(tab)
      invariant forall a, b :: 0 <= a < b < i ==> names[a] != names[b]
    {
      var at, twin := Search(names, tab, i);
      if twin {
        return false;
      }
      ghost var was := tab[..];
      StoreName(names, was, i, at);
      tab[at] := i + 1;
      var e: nat := i + 1;
      assert tab[..] == was[at := e];
      i := i + 1;
    }
    ok := true;
  }

  lemma HoldsNone(names: seq<string>, tab: seq<nat>)
    requires |tab| > 0 && forall x :: 0 <= x < |tab| ==> tab[x] == 0
    ensures Holding(names, tab, 0)
  {
  }

  /** The slot for the name of service i, unless another service has it. */
  method Search(names: seq<string>, tab: array<nat>, i: nat) returns (at: nat, twin: bool)
    requires Holding(names, tab[..], i) && i < |names| && i < tab.Length
    ensures at < tab.Length && (twin ==> exists j :: 0 <= j < i && names[j] == names[i])
    ensures !twin ==> tab[at] == 0 && forall j :: 0 <= j < i ==> names[j] != names[i]
    ensures !twin ==>
              forall y :: 0 <= y < tab.Length && Closer(Home(names[i], tab.Length), y, at, tab.Length) ==> tab[y] != 0
  {
    var n := tab.Length;
    ghost var t := tab[..];
    HasEmpty(names, t, i);
    ghost var e :| 0 <= e < n && t[e] == 0;
    var h := Home(names[i], n);
    hide Holding, Home;
    InTable(names, t, i);
    at := h;
    while tab[at] != 0
      invariant at < n && Dist(h, at, n) <= Dist(h, e, n)
      invariant forall y :: 0 <= y < n && Closer(h, y, at, n) ==>
                  t[y] != 0 && t[y] <= |names| && names[t[y] - 1] != names[i]
      decreases Dist(h, e, n) - Dist(h, at, n)
    {
      assert t[at] <= i;
      if names[tab[at] - 1] == names[i] {
        return at, true;
      }
      StepCloser(h, at, e, n);
      at := Next(at, n);
    }
    forall j | 0 <= j < i ensures names[j] != names[i] {
      SearchMiss(names, t, i, at, j);
    }
    twin := false;
  }

  lemma InTable(names: seq<string>, tab: seq<nat>, i: nat)
    requires Holding(names, tab, i)
    ensures i <= |names| && forall x :: 0 <= x < |tab| ==> tab[x] <= i
  {
  }
}
