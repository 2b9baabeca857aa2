/** The queue of services that are ready to be placed: a binary heap, the most urgent one on top. */
module Heaps {
  import opened Counting

  /** What decides who comes first: the number of prerequisites and the height of every service. */
  datatype Order = Order(indeg: seq<nat>, height: seq<nat>)

  /** Services without prerequisites come first, then the higher ones, then the earlier ones. */
  predicate Sooner(o: Order, a: nat, b: nat)
    requires a < |o.indeg| == |o.height| && b < |o.indeg|
  {
    var ra, rb := o.indeg[a] == 0, o.indeg[b] == 0;
    if ra != rb then ra
    else if o.height[a] != o.height[b] then o.height[a] > o.height[b]
    else a < b
  }

  /** a does not come after b. */
  predicate Leq(o: Order, a: nat, b: nat) {
    a < |o.indeg| == |o.height| && b < |o.indeg| && !Sooner(o, b, a)
  }

  lemma LeqTrans(o: Order, a: nat, b: nat, c: nat)
    requires Leq(o, a, b) && Leq(o, b, c)
    ensures Leq(o, a, c)
  {
  }

  lemma LeqTotal(o: Order, a: nat, b: nat)
    requires a < |o.indeg| == |o.height| && b < |o.indeg|
    ensures Leq(o, a, b) || Leq(o, b, a)
    ensures Leq(o, a, b) && a != b ==> Sooner(o, a, b)
    ensures Sooner(o, a, b) ==> Leq(o, a, b) && a != b
    ensures Leq(o, a, b) <==> !Sooner(o, b, a)
  {
  }

  ghost function Elems(q: seq<nat>): set<nat> {
    set x | x in q
  }

  function Up(k: nat): (p: nat)
    requires k > 0
    ensures p < k
  {
    (k - 1) / 2
  }

  /** Nobody comes before the one above, except perhaps at place i; those below i do not come before
      the one above i. */
  ghost predicate HeapBut(o: Order, q: seq<nat>, i: int) {
    && Below(q, |o.indeg|) && |o.indeg| == |o.height| && Distinct(q)
    && (forall k :: 0 < k < |q| && k != i ==> Leq(o, q[Up(k)], q[k]))
    && (forall k :: 0 < k < |q| && Up(k) == i && i > 0 ==> Leq(o, q[Up(i)], q[k]))
  }

  /** Nobody comes before the one above, except perhaps below place i. */
  ghost predicate HeapAbove(o: Order, q: seq<nat>, i: nat) {
    && Below(q, |o.indeg|) && |o.indeg| == |o.height| && Distinct(q)
    && (forall k :: 0 < k < |q| && Up(k) != i ==> Leq(o, q[Up(k)], q[k]))
    && (forall k :: 0 < k < |q| && Up(k) == i && 0 < i < |q| ==> Leq(o, q[Up(i)], q[k]))
  }

  ghost predicate IsHeap(o: Order, q: seq<nat>) {
    && Below(q, |o.indeg|) && |o.indeg| == |o.height| && Distinct(q)
    && (forall k :: 0 < k < |q| ==> Leq(o, q[Up(k)], q[k]))
  }

  function Swap(q: seq<nat>, i: nat, j: nat): (r: seq<nat>)
    requires i < |q| && j < |q|
    ensures |r| == |q|
  {
    q[i := q[j]][j := q[i]]
  }

  lemma SwapSame(q: seq<nat>, i: nat, j: nat, n: nat)
    requires i < |q| && j < |q|
    ensures Elems(Swap(q, i, j)) == Elems(q)
    ensures Distinct(q) ==> Distinct(Swap(q, i, j))
    ensures Below(q, n) ==> Below(Swap(q, i, j), n)
  {
    var r := Swap(q, i, j);
    forall x ensures x in q <==> x in r {
      if x in q {
        var k :| 0 <= k < |q| && q[k] == x;
        assert r[if k == i then j else if k == j then i else k] == x;
      }
    }
  }

  /** Moving the one at i up past the one above it. */
  lemma UpKeeps(o: Order, q: seq<nat>, i: nat)
    requires HeapBut(o, q, i) && 0 < i < |q| && Sooner(o, q[i], q[Up(i)])
    ensures HeapBut(o, Swap(q, i, Up(i)), Up(i))
  {
    var p := Up(i);
    var r := Swap(q, i, p);
    SwapSame(q, i, p, |o.indeg|);
    LeqTotal(o, q[i], q[p]);
    hide Sooner, Elems;
    forall k | 0 < k < |r| && k != p ensures Leq(o, r[Up(k)], r[k]) {
      if Up(k) == p && k != i {
        LeqTrans(o, q[i], q[p], q[k]);
      }
    }
    forall k | 0 < k < |r| && Up(k) == p && p > 0 ensures Leq(o, r[Up(p)], r[k]) {
      if k != i {
        LeqTrans(o, q[Up(p)], q[p], q[k]);
      }
    }
  }

  lemma UpEnds(o: Order, q: seq<nat>, i: nat)
    requires HeapBut(o, q, i) && i < |q| && (i > 0 ==> !Sooner(o, q[i], q[Up(i)]))
    ensures IsHeap(o, q)
  {
  }

  /** Adding one at the end. */
  lemma AddKeeps(o: Order, q: seq<nat>, x: nat)
    requires IsHeap(o, q) && x < |o.indeg| && x !in q
    ensures HeapBut(o, q + [x], |q|) && Elems(q + [x]) == Elems(q) + {x}
  {
    hide Sooner;
    var r := q + [x];
    assert forall k :: 0 < k < |q| ==> r[k] == q[k] && r[Up(k)] == q[Up(k)];
  }

  /** Moving the one at i down past the more urgent of those below it. */
  lemma DownKeeps(o: Order, q: seq<nat>, i: nat, b: nat)
    requires HeapAbove(o, q, i) && i < b < |q| && Up(b) == i && Leq(o, q[b], q[i])
    requires forall k :: 0 < k < |q| && Up(k) == i ==> Leq(o, q[b], q[k])
    ensures HeapAbove(o, Swap(q, i, b), b)
  {
    var r := Swap(q, i, b);
    SwapSame(q, i, b, |o.indeg|);
    hide Sooner, Elems;
    forall k | 0 < k < |r| && Up(k) != b ensures Leq(o, r[Up(k)], r[k]) {
    }
    forall k | 0 < k < |r| && Up(k) == b ensures Leq(o, r[Up(b)], r[k]) {
      assert Leq(o, q[Up(k)], q[k]);
    }
  }

  lemma DownEnds(o: Order, q: seq<nat>, i: nat)
    requires HeapAbove(o, q, i)
    requires forall k :: 0 < k < |q| && Up(k) == i ==> i < |q| && Leq(o, q[i], q[k])
    ensures IsHeap(o, q)
  {
  }

  /** Taking the top away and putting the last one in its place. */
  lemma TakeKeeps(o: Order, q: seq<nat>)
    requires IsHeap(o, q) && |q| > 0
    ensures var r := q[0 := q[|q| - 1]][..|q| - 1]; HeapAbove(o, r, 0) && Elems(r) == Elems(q) - {q[0]}
  {
    hide Sooner;
    var n := |q| - 1;
    var r := q[0 := q[n]][..n];
    forall x ensures x in Elems(r) <==> x in Elems(q) - {q[0]} {
      if x in Elems(q) - {q[0]} {
        var k :| 0 <= k < |q| && q[k] == x;
        assert k < n ==> r[k] == x;
        assert k == n ==> r[0] == x;
      }
      if x in r {
        var k :| 0 <= k < |r| && r[k] == x;
        assert x == if k == 0 then q[n] else q[k];
      }
    }
    forall k | 0 < k < |r| && Up(k) != 0 ensures Leq(o, r[Up(k)], r[k]) {
      assert Leq(o, q[Up(k)], q[k]);
    }
  }

  /** The top comes first. */
  lemma {:induction false} TopLeast(o: Order, q: seq<nat>, k: nat)
    requires IsHeap(o, q) && k < |q|
    ensures Leq(o, q[0], q[k])
  {
    if k > 0 {
      TopLeast(o, q, Up(k));
      LeqTrans(o, q[0], q[Up(k)], q[k]);
    } else {
      LeqTotal(o, q[0], q[0]);
    }
  }

  class Ready {
    const o: Order
    const v: array<nat>
    var n: nat

    ghost predicate Valid()
      reads this, v
    {
      n <= v.Length && IsHeap(o, v[..n])
    }

    ghost function Contents(): set<nat>
      reads this, v
      requires Valid()
    {
      Elems(v[..n])
    }

    constructor (o: Order)
      requires |o.indeg| == |o.height|
      ensures Valid() && n == 0 && this.o == o && fresh(v) && v.Length == |o.indeg|
    {
      this.o := o;
      v := new nat[|o.indeg|](_ => 0);
      n := 0;
    }

    /** Exchanges two places. */
    method Exchange(i: nat, j: nat)
      requires i < n <= v.Length && j < n
      modifies v
      ensures v[..n] == Swap(old(v[..n]), i, j)
    {
      var t := v[i];
      v[i] := v[j];
      v[j] := t;
    }

    /** Room for one more, as long as each is in the queue once. */
    lemma HasRoom(x: nat)
      requires Valid() && v.Length == |o.indeg| && x < |o.indeg| && x !in v[..n]
      ensures n < v.Length
    {
      Pigeonhole(v[..n], |o.indeg|);
    }

    method Push(x: nat)
      requires Valid() && v.Length == |o.indeg| && x < |o.indeg| && x !in Contents()
      modifies this`n, v
      ensures Valid() && Contents() == old(Contents()) + {x}
    {
      hide IsHeap, HeapBut, Sooner;
      HasRoom(x);
      AddKeeps(o, v[..n], x);
      ghost var q := v[..n] + [x];
      v[n] := x;
      n := n + 1;
      assert v[..n] == q;
      var i: nat := n - 1;
      while i > 0
        invariant i < n <= v.Length && HeapBut(o, v[..n], i) && Elems(v[..n]) == Elems(q)
      {
        var p := Up(i);
        OrderFits(o, v[..n], i);
        if !Sooner(o, v[i], v[p]) {
          break;
        }
        UpKeeps(o, v[..n], i);
        SwapSame(v[..n], i, p, 0);
        Exchange(i, p);
        i := p;
      }
      UpEnds(o, v[..n], i);
    }

    /** Queues every service that waits for nothing. */
    method Fill(left: seq<nat>)
      requires Valid() && n == 0 && |left| == |o.indeg| == v.Length
      modifies this`n, v
      ensures Valid() && forall x :: x in Contents() <==> 0 <= x < |left| && left[x] == 0
    {
      Empty();
      hide *;
      ValidSize();
      var i := 0;
      while i < |left|
        invariant 0 <= i <= |left| && Valid() && n <= v.Length && v.Length == |o.indeg|
        invariant forall x :: x in Contents() <==> 0 <= x < i && left[x] == 0
      {
        if left[i] == 0 {
          Push(i);
          ValidSize();
        }
        i := i + 1;
      }
    }

    lemma ValidSize()
      requires Valid()
      ensures n <= v.Length
    {
    }

    lemma Empty()
      requires Valid() && n == 0
      ensures Contents() == {}
    {
    }

    lemma OrderFits(o: Order, q: seq<nat>, i: int)
      requires HeapBut(o, q, i)
      ensures |o.indeg| == |o.height| && Below(q, |o.indeg|)
    {
    }

    method Pop() returns (top: nat)
      requires Valid() && n > 0
      modifies this`n, v
      ensures Valid() && top in old(Contents()) && Contents() == old(Contents()) - {top}
      ensures forall y :: y in old(Contents()) ==> Leq(o, top, y)
    {
      hide IsHeap, HeapAbove, Sooner;
      top := v[0];
      forall y | y in Contents() ensures Leq(o, top, y) {
        var k :| 0 <= k < n && v[k] == y;
        TopLeast(o, v[..n], k);
      }
      TakeKeeps(o, v[..n]);
      ghost var q := v[..n][0 := v[n - 1]][..n - 1];
      n := n - 1;
      v[0] := v[n];
      assert v[..n] == q;
      var i: nat := 0;
      while true
        invariant n <= v.Length && (i < n || i == 0) && HeapAbove(o, v[..n], i) && Elems(v[..n]) == Elems(q)
        decreases n - i
      {
        var b := Best(i);
        if b == i {
          break;
        }
        DownKeeps(o, v[..n], i, b);
        SwapSame(v[..n], i, b, 0);
        Exchange(i, b);
        i := b;
      }
      DownEnds(o, v[..n], i);
    }

    /** The most urgent of the one at i and those below it. */
    method Best(i: nat) returns (b: nat)
      requires n <= v.Length && (i < n || i == 0) && HeapAbove(o, v[..n], i)
      ensures b == i || (i < b < n && Up(b) == i && Leq(o, v[b], v[i]))
      ensures forall k :: 0 < k < n && Up(k) == i ==> b < n && Leq(o, v[b], v[k])
    {
      hide *;
      OrderOf(o, v[..n], i);
      var l := Better(i, 2 * i + 1);
      b := Better(l, 2 * i + 2);
      if 2 * i + 2 < n {
        LeqTrans(o, v[b], v[l], v[2 * i + 1]);
        LeqTrans(o, v[b], v[l], v[i]);
      }
      Children(i);
    }

    /** The more urgent of b and c, if there is a c. */
    method Better(b: nat, c: nat) returns (r: nat)
      requires n <= v.Length && |o.indeg| == |o.height| && Below(v[..n], |o.indeg|) && b < c && (c < n ==> b < n)
      ensures r == b || (r == c && c < n)
      ensures b < n ==> r < n && Leq(o, v[r], v[b]) && (c < n ==> Leq(o, v[r], v[c]))
    {
      r := b;
      if b < n {
        assert v[..n][b] == v[b];
        LeqTotal(o, v[b], v[b]);
      }
      if c < n {
        assert v[..n][c] == v[c];
        LeqTotal(o, v[b], v[c]);
        LeqTotal(o, v[c], v[b]);
        LeqTotal(o, v[c], v[c]);
        if Sooner(o, v[c], v[b]) {
          r := c;
        }
      }
    }

    lemma Children(i: nat)
      ensures Up(2 * i + 1) == i && Up(2 * i + 2) == i
      ensures forall k :: 0 < k && Up(k) == i ==> k == 2 * i + 1 || k == 2 * i + 2
    {
    }

    lemma OrderOf(o: Order, q: seq<nat>, i: nat)
      requires HeapAbove(o, q, i)
      ensures |o.indeg| == |o.height| && Below(q, |o.indeg|)
      ensures forall k :: 0 <= k < |q| ==> Leq(o, q[k], q[k])
    {
    }
  }
}
