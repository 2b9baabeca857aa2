/** The search for dependency cycles, which also finds the height of every service: the longest chain
    of services that wait for it. */
module Visits {
  import opened Counting
  import opened Graphs

  datatype Color = White | Gray | Black

  predicate IsWhite(c: Color) { c == White }

  /** The rows of the edge arrays are in order and every edge leads to a service. */
  ghost predicate Wired(g: Graph) {
    Rows(g) && forall k :: 0 <= k < |g.dst| ==> g.dst[k] < |g.svc|
  }

  /** A service on the stack, and the edge of it that is followed next. */
  datatype Frame = Frame(v: nat, at: nat)

  // ---------------------------------------------------------------- chains and cycles

  ghost predicate Chain(g: Graph, c: seq<nat>)
    requires |g.src| == |g.dst|
  {
    |c| >= 1 && forall a :: 0 < a < |c| ==> Prereq(g, c[a - 1], c[a])
  }

  ghost predicate Cycle(g: Graph, c: seq<nat>)
    requires |g.src| == |g.dst|
  {
    |c| >= 2 && Chain(g, c) && c[0] == c[|c| - 1]
  }

  /** Every edge goes down. */
  ghost predicate Descends(g: Graph, height: seq<nat>) {
    && |g.src| == |g.dst| && |height| == |g.svc|
    && forall k :: 0 <= k < |g.dst| ==>
        g.src[k] < |height| && g.dst[k] < |height| && height[g.src[k]] > height[g.dst[k]]
  }

  lemma {:induction false} ChainDescends(g: Graph, height: seq<nat>, c: seq<nat>)
    requires Descends(g, height) && Chain(g, c) && |c| >= 2
    ensures c[0] < |height| && c[|c| - 1] < |height| && height[c[0]] >= height[c[|c| - 1]] + |c| - 1
    decreases |c|
  {
    var last := |c| - 1;
    assert Prereq(g, c[last - 1], c[last]);
    if last > 1 {
      var d := c[..last];
      forall a | 0 < a < |d| ensures Prereq(g, d[a - 1], d[a]) {
        assert d[a - 1] == c[a - 1] && d[a] == c[a];
      }
      ChainDescends(g, height, d);
    }
  }

  /** Where every edge goes down there is no cycle. */
  lemma NoCycle(g: Graph, height: seq<nat>, c: seq<nat>)
    requires Descends(g, height) && |g.src| == |g.dst|
    ensures !Cycle(g, c)
  {
    if Cycle(g, c) {
      ChainDescends(g, height, c);
    }
  }

  /** v stands one higher than its tallest dependent. */
  ghost predicate Tight(g: Graph, height: seq<nat>, v: nat) {
    && |g.src| == |g.dst| && |height| == |g.svc| && v < |g.svc|
    && (forall k :: 0 <= k < |g.dst| && g.src[k] == v ==> g.dst[k] < |height| && height[v] > height[g.dst[k]])
    && (height[v] == 0
        || exists k :: 0 <= k < |g.dst| && g.src[k] == v && g.dst[k] < |height| && height[v] == height[g.dst[k]] + 1)
  }

  /** The height of v is the length of the longest chain from it. */
  ghost predicate Longest(g: Graph, height: nat, v: nat)
    requires |g.src| == |g.dst|
  {
    && (forall c :: Chain(g, c) && c[0] == v ==> |c| - 1 <= height)
    && (exists c :: Chain(g, c) && c[0] == v && |c| - 1 == height)
  }

  lemma {:induction false} HasChain(g: Graph, height: seq<nat>, v: nat) returns (c: seq<nat>)
    requires Wired(g) && v < |g.svc| == |height| && forall x :: 0 <= x < |g.svc| ==> Tight(g, height, x)
    ensures Chain(g, c) && c[0] == v && |c| - 1 == height[v]
    decreases height[v]
  {
    assert Tight(g, height, v);
    if height[v] == 0 {
      c := [v];
    } else {
      var k :| 0 <= k < |g.dst| && g.src[k] == v && g.dst[k] < |height| && height[v] == height[g.dst[k]] + 1;
      var d := HasChain(g, height, g.dst[k]);
      c := [v] + d;
      assert Prereq(g, v, g.dst[k]);
      forall a | 0 < a < |c| ensures Prereq(g, c[a - 1], c[a]) {
        if a > 1 {
          assert c[a - 1] == d[a - 2] && c[a] == d[a - 1];
        }
      }
    }
  }

  lemma TightDescends(g: Graph, height: seq<nat>)
    requires Wired(g) && |g.svc| == |height| && forall x :: 0 <= x < |g.svc| ==> Tight(g, height, x)
    ensures Descends(g, height)
  {
    forall k | 0 <= k < |g.dst|
      ensures g.src[k] < |height| && g.dst[k] < |height| && height[g.src[k]] > height[g.dst[k]]
    {
      assert Tight(g, height, g.src[k]);
    }
  }

  lemma TightIsLongest(g: Graph, height: seq<nat>, v: nat)
    requires Wired(g) && v < |g.svc| == |height| && forall x :: 0 <= x < |g.svc| ==> Tight(g, height, x)
    ensures Longest(g, height[v], v)
  {
    TightDescends(g, height);
    var c := HasChain(g, height, v);
    forall d | Chain(g, d) && d[0] == v ensures |d| - 1 <= height[v] {
      if |d| >= 2 {
        ChainDescends(g, height, d);
      }
    }
  }

  // ---------------------------------------------------------------- the invariant of the search

  /** The edges of the frame before its next one lead to black services; the last of them may lead to the
      next frame instead. */
  ghost predicate Traced(g: Graph, color: seq<Color>, f: Frame, last: bool)
    requires Wired(g) && |color| == |g.svc|
  {
    && f.v < |g.svc| && g.roff[f.v] <= f.at <= g.roff[f.v + 1]
    && (!last ==> g.roff[f.v] < f.at)
    && forall e :: g.roff[f.v] <= e < (if last then f.at else f.at - 1) ==> color[g.dst[e]] == Black
  }

  ghost predicate OnStack(stack: seq<Frame>, v: nat) {
    exists i :: 0 <= i < |stack| && stack[i].v == v
  }

  ghost predicate AllTraced(g: Graph, color: seq<Color>, stack: seq<Frame>)
    requires Wired(g) && |color| == |g.svc|
  {
    forall i :: 0 <= i < |stack| ==> Traced(g, color, stack[i], i == |stack| - 1)
  }

  /** The stack holds the gray services, each once. */
  ghost predicate Named(color: seq<Color>, stack: seq<Frame>) {
    && (forall i, j :: 0 <= i < j < |stack| ==> stack[i].v != stack[j].v)
    && (forall v :: 0 <= v < |color| ==> (color[v] == Gray <==> OnStack(stack, v)))
  }

  /** The last edge that was followed from f leads to h. */
  predicate Leads(g: Graph, f: Frame, h: Frame) {
    1 <= f.at <= |g.dst| && g.dst[f.at - 1] == h.v
  }

  ghost predicate Joined(g: Graph, stack: seq<Frame>) {
    forall i :: 0 <= i < |stack| - 1 ==> Leads(g, stack[i], stack[i + 1])
  }

  ghost predicate Stacked(g: Graph, color: seq<Color>, stack: seq<Frame>)
    requires Wired(g) && |color| == |g.svc|
  {
    AllTraced(g, color, stack) && Named(color, stack) && Joined(g, stack)
  }

  /** A black service is finished: so are all that depend on it, and its height is right. */
  ghost predicate Finished(g: Graph, color: seq<Color>, height: seq<nat>)
    requires Wired(g) && |color| == |g.svc|
  {
    forall v :: 0 <= v < |color| && color[v] == Black ==>
      Tight(g, height, v) && forall k :: 0 <= k < |g.dst| && g.src[k] == v ==> color[g.dst[k]] == Black
  }

  ghost predicate Walking(g: Graph, color: seq<Color>, height: seq<nat>, stack: seq<Frame>) {
    && Wired(g) && |color| == |height| == |g.svc|
    && Stacked(g, color, stack) && Finished(g, color, height)
  }

  /** How many edges are left to follow from the stack, and how many services to leave it. */
  ghost function Left(g: Graph, stack: seq<Frame>): nat {
    if stack == [] then 0
    else
      var f := stack[|stack| - 1];
      Left(g, stack[..|stack| - 1]) + 1
      + if f.v + 1 < |g.roff| && f.at <= g.roff[f.v + 1] then g.roff[f.v + 1] - f.at else 0
  }

  // ---------------------------------------------------------------- the steps of the search

  /** The stack with the top moved past its next edge. */
  function Onward(stack: seq<Frame>): seq<Frame> {
    if stack == [] then [] else stack[|stack| - 1 := stack[|stack| - 1].(at := stack[|stack| - 1].at + 1)]
  }

  /** A white service goes on the stack: it is the first one, or the top leads to it. */
  lemma PushKeeps(g: Graph, color: seq<Color>, height: seq<nat>, stack: seq<Frame>, v: nat)
    requires Walking(g, color, height, stack) && v < |g.svc| && color[v] == White
    requires stack != [] ==>
               var f := stack[|stack| - 1];
               f.at < g.roff[f.v + 1] && g.dst[f.at] == v
    ensures Walking(g, color[v := Gray], height, Onward(stack) + [Frame(v, g.roff[v])])
  {
    hide *;
    WalkingIs(g, color, height, stack);
    if stack != [] {
      RowRange(g, stack[|stack| - 1].v);
    }
    OnwardIs(stack);
    PushTraced(g, color, stack, v);
    PushNames(stack, Onward(stack) + [Frame(v, g.roff[v])], color, v);
    PushJoined(g, color, stack, v);
    GrayFinished(g, color, height, v);
    WalkingFrom(g, color[v := Gray], height, Onward(stack) + [Frame(v, g.roff[v])]);
  }

  lemma WalkingIs(g: Graph, color: seq<Color>, height: seq<nat>, stack: seq<Frame>)
    requires Walking(g, color, height, stack)
    ensures Wired(g) && |color| == |height| == |g.svc| && AllTraced(g, color, stack)
    ensures Named(color, stack) && Joined(g, stack)
    ensures Finished(g, color, height) && |g.roff| == |g.svc| + 1 && |g.src| == |g.dst|
    ensures forall i :: 0 <= i < |stack| ==> stack[i].v < |g.svc|
    ensures Rows(g) && forall k :: 0 <= k < |g.dst| ==> g.dst[k] < |g.svc|
  {
    assert forall i :: 0 <= i < |stack| ==> Traced(g, color, stack[i], i == |stack| - 1);
  }

  lemma WalkingFrom(g: Graph, color: seq<Color>, height: seq<nat>, stack: seq<Frame>)
    requires Wired(g) && |color| == |height| == |g.svc| && AllTraced(g, color, stack)
    requires Named(color, stack) && Joined(g, stack)
    requires Finished(g, color, height)
    ensures Walking(g, color, height, stack)
  {
  }

  lemma OnwardIs(stack: seq<Frame>)
    ensures |Onward(stack)| == |stack|
    ensures forall i :: 0 <= i < |stack| ==>
              Onward(stack)[i].v == stack[i].v && (i < |stack| - 1 ==> Onward(stack)[i] == stack[i])
    ensures stack != [] ==> Onward(stack)[|stack| - 1].at == stack[|stack| - 1].at + 1
  {
  }

  lemma GrayFinished(g: Graph, color: seq<Color>, height: seq<nat>, v: nat)
    requires Wired(g) && |color| == |g.svc| && Finished(g, color, height) && v < |color| && color[v] == White
    ensures Finished(g, color[v := Gray], height)
  {
    assert |g.src| == |g.dst|;
    hide Rows, Tight;
    var c := color[v := Gray];
    forall x | 0 <= x < |c| && c[x] == Black
      ensures Tight(g, height, x) && forall k :: 0 <= k < |g.dst| && g.src[k] == x ==> c[g.dst[k]] == Black
    {
      assert color[x] == Black;
    }
  }

  lemma PushTraced(g: Graph, color: seq<Color>, stack: seq<Frame>, v: nat)
    requires Wired(g) && |color| == |g.svc| && v < |g.svc| && color[v] == White && AllTraced(g, color, stack)
    requires stack != [] ==> stack[|stack| - 1].v < |g.svc| && stack[|stack| - 1].at < g.roff[stack[|stack| - 1].v + 1]
    ensures AllTraced(g, color[v := Gray], Onward(stack) + [Frame(v, g.roff[v])])
  {
    var n, s := |stack|, Onward(stack) + [Frame(v, g.roff[v])];
    RowRange(g, v);
    hide Rows;
    forall i | 0 <= i < |s| ensures Traced(g, color[v := Gray], s[i], i == |s| - 1) {
      if i < n {
        assert Traced(g, color, stack[i], i == n - 1);
      }
    }
  }

  lemma PushNames(stack: seq<Frame>, s: seq<Frame>, color: seq<Color>, v: nat)
    requires |s| == |stack| + 1 && s[|stack|].v == v < |color| && color[v] == White && Named(color, stack)
    requires forall i :: 0 <= i < |stack| ==> s[i].v == stack[i].v
    ensures Named(color[v := Gray], s)
  {
    forall i | 0 <= i < |stack| ensures stack[i].v != v {
      assert OnStack(stack, stack[i].v);
    }
    forall x | 0 <= x < |color| ensures OnStack(s, x) <==> x == v || OnStack(stack, x) {
      if OnStack(stack, x) {
        var i :| 0 <= i < |stack| && stack[i].v == x;
        assert s[i].v == x;
      }
    }
  }

  lemma PushJoined(g: Graph, color: seq<Color>, stack: seq<Frame>, v: nat)
    requires Wired(g) && |color| == |g.svc| && AllTraced(g, color, stack) && Joined(g, stack) && v < |g.svc|
    requires stack != [] ==>
               var f := stack[|stack| - 1];
               f.v < |g.svc| && f.at < g.roff[f.v + 1] <= |g.dst| && g.dst[f.at] == v
    ensures Joined(g, Onward(stack) + [Frame(v, g.roff[v])])
  {
    var s := Onward(stack) + [Frame(v, g.roff[v])];
    hide Rows, AllTraced, Wired;
    forall i | 0 <= i < |s| - 1 ensures Leads(g, s[i], s[i + 1]) {
      PushLeads(g, stack, v, i);
    }
  }

  lemma PushLeads(g: Graph, stack: seq<Frame>, v: nat, i: nat)
    requires Rows(g) && Joined(g, stack) && v < |g.svc| && i < |stack|
    requires var f := stack[|stack| - 1]; f.v < |g.svc| && f.at < g.roff[f.v + 1] <= |g.dst| && g.dst[f.at] == v
    ensures var s := Onward(stack) + [Frame(v, g.roff[v])]; i + 1 < |s| && Leads(g, s[i], s[i + 1])
  {
    if i < |stack| - 1 {
      assert Leads(g, stack[i], stack[i + 1]);
    }
  }

  /** The top of the stack has an edge to a black service, and is done with it. */
  lemma AdvanceKeeps(g: Graph, color: seq<Color>, height: seq<nat>, stack: seq<Frame>)
    requires Walking(g, color, height, stack) && stack != []
    requires var f := stack[|stack| - 1]; f.at < g.roff[f.v + 1] && color[g.dst[f.at]] == Black
    ensures Walking(g, color, height, Onward(stack))
  {
    hide *;
    WalkingIs(g, color, height, stack);
    if stack != [] {
      RowRange(g, stack[|stack| - 1].v);
    }
    OnwardIs(stack);
    SameNames(color, stack, Onward(stack));
    AdvanceTraced(g, color, stack);
    AdvanceJoined(g, stack);
    WalkingFrom(g, color, height, Onward(stack));
  }

  lemma AdvanceTraced(g: Graph, color: seq<Color>, stack: seq<Frame>)
    requires Wired(g) && |color| == |g.svc| && AllTraced(g, color, stack) && stack != []
    requires var f := stack[|stack| - 1];
             f.v < |g.svc| && f.at < g.roff[f.v + 1] <= |g.dst| && color[g.dst[f.at]] == Black
    ensures AllTraced(g, color, Onward(stack))
  {
    hide Rows;
    var n, s := |stack|, Onward(stack);
    OnwardIs(stack);
    TracedOn(g, color, stack[n - 1]);
    hide Traced, Onward;
    forall i | 0 <= i < n ensures Traced(g, color, s[i], i == n - 1) {
      assert Traced(g, color, stack[i], i == n - 1);
    }
  }

  /** The top of the stack is done with an edge to a black service. */
  lemma TracedOn(g: Graph, color: seq<Color>, f: Frame)
    requires Wired(g) && |color| == |g.svc|
    requires f.v < |g.svc| && f.at < g.roff[f.v + 1] <= |g.dst| && color[g.dst[f.at]] == Black
    ensures Traced(g, color, f, true) ==> Traced(g, color, f.(at := f.at + 1), true)
    ensures Traced(g, color, f, true) ==> Traced(g, color, f.(at := f.at + 1), false)
  {
    hide Rows;
  }

  lemma AdvanceJoined(g: Graph, stack: seq<Frame>)
    requires Joined(g, stack)
    ensures Joined(g, Onward(stack))
  {
    var s := Onward(stack);
    forall i | 0 <= i < |s| - 1 ensures Leads(g, s[i], s[i + 1]) {
      assert Leads(g, stack[i], stack[i + 1]);
    }
  }

  lemma SameNames(color: seq<Color>, stack: seq<Frame>, s: seq<Frame>)
    requires |s| == |stack| && Named(color, stack) && forall i :: 0 <= i < |s| ==> s[i].v == stack[i].v
    ensures Named(color, s)
  {
    forall x | 0 <= x < |color| ensures OnStack(stack, x) <==> OnStack(s, x) {
      if OnStack(stack, x) {
        var i :| 0 <= i < |stack| && stack[i].v == x;
        assert s[i].v == x;
      }
    }
  }

  /** Whether h is one more than the greatest height the edges from lo to hi lead to. */
  ghost predicate TallestOf(g: Graph, height: seq<nat>, lo: nat, hi: nat, h: nat)
    requires |height| == |g.svc| && hi <= |g.dst| && forall k :: 0 <= k < |g.dst| ==> g.dst[k] < |g.svc|
  {
    && (forall e :: lo <= e < hi ==> h > height[g.dst[e]])
    && (h == 0 || exists e :: lo <= e < hi && h == height[g.dst[e]] + 1)
  }

  /** The top of the stack has no edge left: it is finished. */
  lemma PopKeeps(g: Graph, color: seq<Color>, height: seq<nat>, stack: seq<Frame>, h: nat)
    requires Walking(g, color, height, stack) && stack != []
    requires var f := stack[|stack| - 1];
             f.at == g.roff[f.v + 1] <= |g.dst| && TallestOf(g, height, g.roff[f.v], g.roff[f.v + 1], h)
    ensures var v := stack[|stack| - 1].v;
            Walking(g, color[v := Black], height[v := h], stack[..|stack| - 1])
  {
    var n := |stack|;
    var v := stack[n - 1].v;
    PopStack(g, color, stack);
    assert Traced(g, color, stack[n - 1], true);
    assert OnStack(stack, v);
    hide Rows, Tight, Stacked, OnStack;
    var c := color[v := Black];
    forall x | 0 <= x < |c| && c[x] == Black
      ensures Tight(g, height[v := h], x) && forall k :: 0 <= k < |g.dst| && g.src[k] == x ==> c[g.dst[k]] == Black
    {
      PopTight(g, color, height, v, h, x);
    }
  }

  lemma KeepTight(g: Graph, height: seq<nat>, v: nat, h: nat, x: nat)
    requires Tight(g, height, x) && v < |height| && x != v && forall k :: 0 <= k < |g.dst| && g.src[k] == x ==>
               g.dst[k] != v
    ensures Tight(g, height[v := h], x)
  {
    if height[x] > 0 {
      var k :| 0 <= k < |g.dst| && g.src[k] == x && g.dst[k] < |height| && height[x] == height[g.dst[k]] + 1;
      assert height[v := h][x] == height[v := h][g.dst[k]] + 1;
    }
  }

  lemma PopTop(g: Graph, height: seq<nat>, v: nat, h: nat)
    requires |height| == |g.svc| && |g.src| == |g.dst| && v < |g.svc|
    requires |g.roff| == |g.svc| + 1 && g.roff[v] <= g.roff[v + 1] <= |g.dst|
    requires forall k :: 0 <= k < |g.dst| ==> g.dst[k] < |g.svc|
    requires forall k :: 0 <= k < |g.src| ==> (g.src[k] == v <==> g.roff[v] <= k < g.roff[v + 1])
    requires TallestOf(g, height, g.roff[v], g.roff[v + 1], h)
    requires forall k :: 0 <= k < |g.dst| && g.src[k] == v ==> g.dst[k] != v
    ensures Tight(g, height[v := h], v)
  {
    var t := height[v := h];
    if h > 0 {
      var e :| g.roff[v] <= e < g.roff[v + 1] && h == height[g.dst[e]] + 1;
      assert g.src[e] == v && t[v] == t[g.dst[e]] + 1;
    }
  }

  lemma PopTight(g: Graph, color: seq<Color>, height: seq<nat>, v: nat, h: nat, x: nat)
    requires Wired(g) && |color| == |height| == |g.svc| && Finished(g, color, height)
    requires v < |g.svc| && color[v] == Gray && g.roff[v + 1] <= |g.dst|
    requires TallestOf(g, height, g.roff[v], g.roff[v + 1], h)
    requires forall e :: g.roff[v] <= e < g.roff[v + 1] ==> color[g.dst[e]] == Black
    requires x < |g.svc| && (x == v || color[x] == Black)
    ensures Tight(g, height[v := h], x) && forall k :: 0 <= k < |g.dst| && g.src[k] == x ==>
              color[v := Black][g.dst[k]] == Black
  {
    RowRange(g, v);
    hide Rows;
    if x == v {
      PopTop(g, height, v, h);
    } else {
      assert Tight(g, height, x);
      assert forall k :: 0 <= k < |g.dst| && g.src[k] == x ==> g.dst[k] != v;
      KeepTight(g, height, v, h, x);
    }
  }

  lemma PopNames(stack: seq<Frame>, color: seq<Color>)
    requires stack != [] && stack[|stack| - 1].v < |color| && Named(color, stack)
    ensures Named(color[stack[|stack| - 1].v := Black], stack[..|stack| - 1])
  {
    var n := |stack|;
    var v, s := stack[n - 1].v, stack[..n - 1];
    forall x | 0 <= x < |color| ensures OnStack(s, x) <==> x != v && OnStack(stack, x) {
      if OnStack(stack, x) && x != v {
        var i :| 0 <= i < n && stack[i].v == x;
        assert s[i].v == x;
      }
      if OnStack(s, x) {
        var i :| 0 <= i < |s| && s[i].v == x;
        assert stack[i].v == x;
      }
    }
  }

  lemma PopStack(g: Graph, color: seq<Color>, stack: seq<Frame>)
    requires Wired(g) && |color| == |g.svc| && Stacked(g, color, stack) && stack != []
    ensures stack[|stack| - 1].v < |color| && Stacked(g, color[stack[|stack| - 1].v := Black], stack[..|stack| - 1])
  {
    var n := |stack|;
    assert Traced(g, color, stack[n - 1], true);
    PopNames(stack, color);
    hide Rows, Named;
    var v, s := stack[n - 1].v, stack[..n - 1];
    forall i | 0 <= i < |s| ensures Traced(g, color[v := Black], s[i], i == |s| - 1) {
      assert Traced(g, color, stack[i], false);
      assert Leads(g, stack[i], stack[i + 1]);
    }
    forall i | 0 <= i < |s| - 1 ensures Leads(g, s[i], s[i + 1]) {
      assert Leads(g, stack[i], stack[i + 1]);
    }
  }

  /** The stack never holds more than all services. */
  lemma StackFits(g: Graph, color: seq<Color>, stack: seq<Frame>)
    requires Wired(g) && |color| == |g.svc| && Stacked(g, color, stack)
    ensures |stack| <= |g.svc|
  {
    var path := seq(|stack|, i requires 0 <= i < |stack| => stack[i].v);
    assert Below(path, |g.svc|) by {
      forall a | 0 <= a < |path| ensures path[a] < |g.svc| {
        assert Traced(g, color, stack[a], a == |stack| - 1);
      }
    }
    Pigeonhole(path, |g.svc|);
  }

  /** The edge from a service on the stack to the next one, or the next edge of the top. */
  lemma StackEdge(g: Graph, color: seq<Color>, stack: seq<Frame>, i: nat, back: nat)
    requires Wired(g) && |color| == |g.svc| && Stacked(g, color, stack)
    requires i < |stack| && back == (if i < |stack| - 1 then 1 else 0)
    requires i == |stack| - 1 ==> stack[i].v < |g.svc| && stack[i].at < g.roff[stack[i].v + 1]
    ensures stack[i].v < |g.svc| && back <= stack[i].at < |g.dst| + back
    ensures Prereq(g, stack[i].v, g.dst[stack[i].at - back])
    ensures i < |stack| - 1 ==> g.dst[stack[i].at - back] == stack[i + 1].v
  {
    assert Traced(g, color, stack[i], i == |stack| - 1);
    assert i < |stack| - 1 ==> Leads(g, stack[i], stack[i + 1]);
    RowRange(g, stack[i].v);
    var e := stack[i].at - back;
    assert g.src[e] == stack[i].v;
  }

  /** The services on the stack from `start` on, and then w. */
  function Loop(stack: seq<Frame>, start: nat, w: nat): (c: seq<nat>)
    requires start <= |stack|
    ensures |c| == |stack| - start + 1 && c[|c| - 1] == w
    ensures forall a :: 0 <= a < |c| - 1 ==> c[a] == stack[start + a].v
  {
    seq<nat>(|stack| - start, i requires 0 <= i < |stack| - start => stack[start + i].v) + [w]
  }

  /** An edge from the top back to a service on the stack closes a cycle. */
  lemma GrayCloses(g: Graph, color: seq<Color>, stack: seq<Frame>, start: nat, w: nat)
    requires Wired(g) && |color| == |g.svc| && Stacked(g, color, stack) && start < |stack| && stack[start].v == w
    requires var f := stack[|stack| - 1];
             f.v < |g.svc| && f.at < g.roff[f.v + 1] <= |g.dst| && g.roff[f.v] <= f.at && g.dst[f.at] == w
    ensures Cycle(g, Loop(stack, start, w))
  {
    assert |g.src| == |g.dst|;
    forall a | 0 < a < |Loop(stack, start, w)|
        ensures Prereq(g, Loop(stack, start, w)[a - 1], Loop(stack, start, w)[a]) {
      LoopEdge(g, color, stack, start, w, a);
    }
    hide Wired, Stacked, Prereq;
  }

  lemma LoopEdge(g: Graph, color: seq<Color>, stack: seq<Frame>, start: nat, w: nat, a: nat)
    requires Wired(g) && |color| == |g.svc| && Stacked(g, color, stack) && start < |stack|
    requires var f := stack[|stack| - 1];
             f.v < |g.svc| && f.at < g.roff[f.v + 1] <= |g.dst| && g.roff[f.v] <= f.at && g.dst[f.at] == w
    requires 0 < a <= |stack| - start
    ensures |g.src| == |g.dst| && Prereq(g, Loop(stack, start, w)[a - 1], Loop(stack, start, w)[a])
  {
    assert |g.src| == |g.dst|;
    var n := |stack| - start;
    StackEdge(g, color, stack, start + a - 1, if a < n then 1 else 0);
    hide *;
  }

  // ---------------------------------------------------------------- the search

  class Search {
    const g: Graph
    var color: seq<Color>
    var height: seq<nat>
    var stack: seq<Frame>

    ghost predicate Inv()
      reads this
    {
      Walking(g, color, height, stack)
    }

    constructor (g: Graph)
      requires Wired(g)
      ensures this.g == g && Inv() && stack == [] && forall v :: 0 <= v < |g.svc| ==> color[v] == White
    {
      this.g := g;
      color := seq(|g.svc|, _ => White);
      height := seq(|g.svc|, _ => 0);
      stack := [];
    }

    lemma Known()
      requires Inv()
      ensures Walking(g, color, height, stack) && Rows(g) && Wired(g) && |color| == |height| == |g.svc|
      ensures |g.roff| == |g.svc| + 1 && |g.src| == |g.dst| && |stack| <= |g.svc| && Stacked(g, color, stack)
      ensures forall i :: 0 <= i < |stack| ==> stack[i].v < |g.svc|
      ensures forall k :: 0 <= k < |g.dst| ==> g.dst[k] < |g.svc|
      ensures stack != [] ==>
                var f := stack[|stack| - 1];
                g.roff[f.v] <= f.at <= g.roff[f.v + 1] <= |g.dst| && color[f.v] == Gray
    {
      WalkingIs(g, color, height, stack);
      StackFits(g, color, stack);
      if stack != [] {
        var f := stack[|stack| - 1];
        RowRange(g, f.v);
        assert Traced(g, color, f, true);
        assert OnStack(stack, f.v);
      }
    }

    /** One past the tallest dependent of v. */
    method Measure(v: nat) returns (h: nat)
      requires Inv() && v < |g.svc| && |g.roff| == |g.svc| + 1 && g.roff[v] <= g.roff[v + 1] <= |g.dst|
      requires |height| == |g.svc| && forall k :: 0 <= k < |g.dst| ==> g.dst[k] < |g.svc|
      ensures TallestOf(g, height, g.roff[v], g.roff[v + 1], h)
    {
      hide Inv;
      h := 0;
      var j := g.roff[v];
      while j < g.roff[v + 1]
        invariant g.roff[v] <= j <= g.roff[v + 1] && TallestOf(g, height, g.roff[v], j, h)
      {
        if height[g.dst[j]] + 1 > h {
          h := height[g.dst[j]] + 1;
        }
        j := j + 1;
      }
    }

    /** Where w is on the stack. */
    method Find(w: nat) returns (start: nat)
      requires OnStack(stack, w)
      ensures start < |stack| && stack[start].v == w
    {
      start := 0;
      while stack[start].v != w
        invariant start < |stack| && forall i :: 0 <= i < start ==> stack[i].v != w
        decreases |stack| - start
      {
        start := start + 1;
      }
    }

    /** One step from the top of the stack: along an edge, or down. */
    method Step() returns (cycle: seq<nat>)
      requires Inv() && stack != []
      modifies this
      ensures |g.src| == |g.dst| && (cycle != [] ==> Cycle(g, cycle))
      ensures cycle == [] ==>
                && Inv() && |old(color)| == |color| == |g.svc|
                && (Count(color, IsWhite) < Count(old(color), IsWhite)
                    || (Count(color, IsWhite) == Count(old(color), IsWhite) && Left(g, stack) < Left(g, old(stack))))
                && (forall v :: 0 <= v < |color| && old(color)[v] != White ==> color[v] != White)
    {
      hide *;
      Known();
      var top := |stack| - 1;
      var f := stack[top];
      if f.at < g.roff[f.v + 1] {
        var w := g.dst[f.at];
        match color[w] {
          case Gray =>
            GrayOnStack(w);
            var start := Find(w);
            cycle := Loop(stack, start, w);
            GrayCloses(g, color, stack, start, w);
            LoopSize(stack, start, w);
          case Black =>
            cycle := [];
            AdvanceKeeps(g, color, height, stack);
            LeftOnward(g, stack);
            stack := Onward(stack);
            InvFrom();
          case White =>
            cycle := [];
            PushKeeps(g, color, height, stack, w);
            Whiter(color, w, Gray);
            color := color[w := Gray];
            stack := Onward(stack) + [Frame(w, g.roff[w])];
            InvFrom();
        }
        return;
      }
      cycle := [];
      var h := Measure(f.v);
      PopKeeps(g, color, height, stack, h);
      LeftPop(g, stack);
      Whiter(color, f.v, Black);
      color := color[f.v := Black];
      height := height[f.v := h];
      stack := stack[..top];
      InvFrom();
    }

    /** Searches from `root`, unless it has been reached before. */
    method Visit(root: nat) returns (cycle: seq<nat>)
      requires Inv() && stack == [] && root < |g.svc|
      modifies this
      ensures |g.src| == |g.dst| && (cycle != [] ==> Cycle(g, cycle))
      ensures cycle == [] ==> Inv() && stack == [] && |color| == |old(color)| == |g.svc| && color[root] != White
      ensures cycle == [] ==> forall v :: 0 <= v < |color| && old(color)[v] != White ==> color[v] != White
    {
      hide *;
      Known();
      cycle := [];
      if color[root] != White {
        return;
      }
      PushKeeps(g, color, height, stack, root);
      OnwardIs(stack);
      color := color[root := Gray];
      stack := Onward(stack) + [Frame(root, g.roff[root])];
      InvFrom();
      while stack != []
        invariant Inv() && |color| == |old(color)| == |g.svc| && color[root] != White && cycle == []
        invariant forall v :: 0 <= v < |color| && old(color)[v] != White ==> color[v] != White
        decreases Count(color, IsWhite), Left(g, stack)
      {
        cycle := Step();
        if cycle != [] {
          return;
        }
      }
    }

    /** Searches from every service: there is a cycle, or every height is the length of the longest chain. */
    method Run() returns (cycle: seq<nat>)
      requires Inv() && stack == []
      modifies this
      ensures |g.src| == |g.dst|
      ensures if cycle != [] then Cycle(g, cycle)
              else
                && |height| == |g.svc| && Descends(g, height)
                && (forall v :: 0 <= v < |g.svc| ==> Longest(g, height[v], v)) && (forall c :: !Cycle(g, c))
    {
      hide *;
      Known();
      cycle := [];
      var i := 0;
      while i < |g.svc|
        invariant 0 <= i <= |g.svc| == |color| && Inv() && stack == [] && cycle == []
        invariant forall v :: 0 <= v < i ==> color[v] != White
      {
        cycle := Visit(i);
        if cycle != [] {
          return;
        }
        i := i + 1;
      }
      AllDone();
    }

    lemma AllDone()
      requires Inv() && stack == [] && |color| == |g.svc| && forall v :: 0 <= v < |g.svc| ==> color[v] != White
      ensures |g.src| == |g.dst| && |height| == |g.svc| && Descends(g, height)
      ensures (forall v :: 0 <= v < |g.svc| ==> Longest(g, height[v], v)) && forall c :: !Cycle(g, c)
    {
      forall v | 0 <= v < |g.svc| ensures Tight(g, height, v) {
        assert color[v] == Gray ==> OnStack(stack, v);
      }
      forall v | 0 <= v < |g.svc| ensures Longest(g, height[v], v) {
        TightIsLongest(g, height, v);
      }
      TightDescends(g, height);
      forall c ensures !Cycle(g, c) {
        NoCycle(g, height, c);
      }
    }

    lemma GrayOnStack(w: nat)
      requires Inv() && w < |color| && color[w] == Gray
      ensures OnStack(stack, w)
    {
    }

    lemma InvFrom()
      requires Walking(g, color, height, stack)
      ensures Inv()
    {
    }
  }

  lemma LoopSize(stack: seq<Frame>, start: nat, w: nat)
    requires start <= |stack|
    ensures Loop(stack, start, w) != []
  {
  }

  lemma Whiter(color: seq<Color>, w: nat, c: Color)
    requires w < |color| && c != White
    ensures Count(color[w := c], IsWhite) <= Count(color, IsWhite)
    ensures color[w] == White ==> Count(color[w := c], IsWhite) < Count(color, IsWhite)
    ensures color[w] != White ==> Count(color[w := c], IsWhite) == Count(color, IsWhite)
  {
    CountUpdate(color, w, c, IsWhite);
  }

  lemma LeftOnward(g: Graph, stack: seq<Frame>)
    requires stack != [] && stack[|stack| - 1].v + 1 < |g.roff|
    requires stack[|stack| - 1].at < g.roff[stack[|stack| - 1].v + 1]
    ensures Left(g, Onward(stack)) < Left(g, stack)
  {
    assert Onward(stack)[..|stack| - 1] == stack[..|stack| - 1];
  }

  lemma LeftPop(g: Graph, stack: seq<Frame>)
    requires stack != []
    ensures Left(g, stack[..|stack| - 1]) < Left(g, stack)
  {
  }
}
