/** From the names in the service files to edges. */
module Links {
  import opened EdgeLists
  import opened Parsed

  /** The order of strcmp: a comes before b or is the same. */
  predicate Upto(a: string, b: string) {
    a == [] || (b != [] && (a[0] < b[0] || (a[0] == b[0] && Upto(a[1..], b[1..]))))
  }

  lemma {:induction false} UptoSame(a: string)
    ensures Upto(a, a)
  {
    if a != [] {
      UptoSame(a[1..]);
    }
  }

  lemma {:induction false} UptoEither(a: string, b: string)
    ensures Upto(a, b) || Upto(b, a)
    ensures Upto(a, b) && Upto(b, a) ==> a == b
  {
    if a != [] && b != [] && a[0] == b[0] {
      UptoEither(a[1..], b[1..]);
      assert a == [a[0]] + a[1..] && b == [b[0]] + b[1..];
    }
  }

  lemma {:induction false} UptoChain(a: string, b: string, c: string)
    requires Upto(a, b) && Upto(b, c)
    ensures Upto(a, c)
  {
    if a != [] && a[0] == b[0] == c[0] {
      UptoChain(a[1..], b[1..], c[1..]);
    }
  }

  /** All services, ordered by name. */
  ghost predicate Index(names: seq<string>, byName: seq<nat>) {
    && (forall k :: 0 <= k < |byName| ==> byName[k] < |names|)
    && (forall k, l :: 0 <= k < l < |byName| ==> Upto(names[byName[k]], names[byName[l]]))
    && forall v :: 0 <= v < |names| ==> v in byName
  }

  /** v goes after everything that does not come after it. */
  function InsertName(names: seq<string>, v: nat, s: seq<nat>): (r: seq<nat>)
    requires v < |names| && forall k :: 0 <= k < |s| ==> s[k] < |names|
    ensures forall k :: 0 <= k < |r| ==> r[k] < |names|
  {
    if s == [] || Upto(names[s[|s| - 1]], names[v]) then s + [v]
    else InsertName(names, v, s[..|s| - 1]) + [s[|s| - 1]]
  }

  function ByName(names: seq<string>, i: nat): (r: seq<nat>)
    requires i <= |names|
    ensures forall k :: 0 <= k < |r| ==> r[k] < |names|
  {
    if i == 0 then [] else InsertName(names, i - 1, ByName(names, i - 1))
  }

  ghost predicate Ordered(names: seq<string>, s: seq<nat>) {
    && (forall k :: 0 <= k < |s| ==> s[k] < |names|)
    && forall k, l :: 0 <= k < l < |s| ==> Upto(names[s[k]], names[s[l]])
  }

  lemma {:induction false} InsertKeeps(names: seq<string>, v: nat, s: seq<nat>)
    requires v < |names| && Ordered(names, s)
    ensures Ordered(names, InsertName(names, v, s))
    ensures forall x :: x in InsertName(names, v, s) <==> x in s || x == v
    decreases |s|
  {
    hide Upto;
    if s == [] {
    } else if Upto(names[s[|s| - 1]], names[v]) {
      forall k | 0 <= k < |s| ensures Upto(names[s[k]], names[v]) {
        if k < |s| - 1 {
          UptoChain(names[s[k]], names[s[|s| - 1]], names[v]);
        }
      }
    } else {
      var init, last := s[..|s| - 1], s[|s| - 1];
      InsertKeeps(names, v, init);
      UptoEither(names[last], names[v]);
      var r := InsertName(names, v, init);
      assert s == init + [last];
      forall k | 0 <= k < |r| ensures Upto(names[r[k]], names[last]) {
        assert r[k] in init || r[k] == v;
      }
    }
  }

  lemma {:induction false} ByNameKeeps(names: seq<string>, i: nat)
    requires i <= |names|
    ensures Ordered(names, ByName(names, i)) && forall v :: 0 <= v < i ==> v in ByName(names, i)
  {
    if i > 0 {
      ByNameKeeps(names, i - 1);
      InsertKeeps(names, i - 1, ByName(names, i - 1));
    }
  }

  /** The service with this name, by bisection. */
  method Lookup(names: seq<string>, byName: seq<nat>, name: string) returns (found: bool, o: nat)
    requires Index(names, byName)
    ensures found ==> o < |names| && names[o] == name
    ensures !found ==> name !in names
  {
    hide Upto;
    var lo, hi := 0, |byName|;
    while lo < hi
      invariant 0 <= lo <= hi <= |byName|
      invariant forall k :: 0 <= k < lo ==> !Upto(name, names[byName[k]])
      invariant forall k :: hi <= k < |byName| ==> !Upto(names[byName[k]], name)
    {
      var mid := lo + (hi - lo) / 2;
      var at := names[byName[mid]];
      if at == name {
        return true, byName[mid];
      }
      UptoEither(at, name);
      if Upto(at, name) {
        forall k | 0 <= k <= mid ensures !Upto(name, names[byName[k]]) {
          if k < mid && Upto(name, names[byName[k]]) {
            UptoChain(name, names[byName[k]], at);
          }
        }
        lo := mid + 1;
      } else {
        forall k | mid <= k < |byName| ensures !Upto(names[byName[k]], name) {
          if k > mid && Upto(names[byName[k]], name) {
            UptoChain(at, names[byName[k]], name);
          }
        }
        hi := mid;
      }
    }
    NotThere(names, byName, name, lo);
    found, o := false, 0;
  }

  lemma NotThere(names: seq<string>, byName: seq<nat>, name: string, lo: nat)
    requires Index(names, byName) && lo <= |byName|
    requires forall k :: 0 <= k < lo ==> !Upto(name, names[byName[k]])
    requires forall k :: lo <= k < |byName| ==> !Upto(names[byName[k]], name)
    ensures name !in names
  {
    UptoSame(name);
    hide Upto;
    forall v | 0 <= v < |names| ensures names[v] != name {
      assert v in byName;
    }
  }

  // ---------------------------------------------------------------- edges

  /** b waits for a, because one of the two says so. */
  ghost predicate Needs(srcs: seq<Source>, a: nat, b: nat)
    requires a < |srcs| && b < |srcs|
  {
    srcs[a].name in srcs[b].depOn || srcs[b].name in srcs[a].depOf
  }

  function Refs(s: Source): seq<string> {
    s.depOn + s.depOf
  }

  /** Reference k of service x asks for this edge. */
  ghost predicate Asks(srcs: seq<Source>, x: nat, k: nat, e: Edge)
    requires x < |srcs| && k < |Refs(srcs[x])| && e.a < |srcs| && e.b < |srcs|
  {
    var rev := k >= |srcs[x].depOn|;
    if rev then e.a == x && srcs[e.b].name == Refs(srcs[x])[k] else e.b == x && srcs[e.a].name == Refs(srcs[x])[k]
  }

  ghost predicate NamesApart(srcs: seq<Source>) {
    forall i, j :: 0 <= i < j < |srcs| ==> srcs[i].name != srcs[j].name
  }

  datatype Linked = NoSuch(i: nat, name: string) | Itself(i: nat) | Edges(raw: seq<Edge>)

  /** Every reference of service x names another service. */
  ghost predicate Resolved(srcs: seq<Source>, x: nat, upto: nat)
    requires x < |srcs|
  {
    forall k :: 0 <= k < |Refs(srcs[x])| && k < upto ==>
        exists o :: 0 <= o < |srcs| && o != x && srcs[o].name == Refs(srcs[x])[k]
  }

  /** The edges are those the references before this one ask for. */
  ghost predicate Collected(srcs: seq<Source>, raw: seq<Edge>, i: nat, j: nat) {
    && (forall k :: 0 <= k < |raw| ==> raw[k].a < |srcs| && raw[k].b < |srcs|)
    && forall e: Edge {:trigger e in raw} :: e.a < |srcs| && e.b < |srcs| ==>
         (e in raw <==> exists x, k {:trigger Asks(srcs, x, k, e)} ::
            0 <= x < |srcs| && 0 <= k < |Refs(srcs[x])| && (x < i || (x == i && k < j)) && Asks(srcs, x, k, e))
  }

  /** What the references of a set of services come to. */
  ghost predicate LinkedRight(srcs: seq<Source>, r: Linked) {
    match r
    case NoSuch(i, name) => i < |srcs| && name in Refs(srcs[i]) && forall o :: 0 <= o < |srcs| ==> srcs[o].name != name
    case Itself(i) => i < |srcs| && srcs[i].name in Refs(srcs[i])
    case Edges(raw) =>
      && (forall x :: 0 <= x < |srcs| ==> Resolved(srcs, x, |Refs(srcs[x])|))
      && (forall k :: 0 <= k < |raw| ==> raw[k].a < |srcs| && raw[k].b < |srcs|)
      && (forall a, b :: 0 <= a < |srcs| && 0 <= b < |srcs| ==> (Edge(a, b) in raw <==> Needs(srcs, a, b)))
  }

  /** Looks up every name the services refer to. */
  method LinkNames(srcs: seq<Source>) returns (r: Linked)
    requires NamesApart(srcs)
    ensures LinkedRight(srcs, r)
  {
    var names := seq(|srcs|, k requires 0 <= k < |srcs| => srcs[k].name);
    var byName := ByName(names, |names|);
    ByNameKeeps(names, |names|);
    hide NamesApart, Upto, Needs, Asks;
    var raw := [];
    var i := 0;
    while i < |srcs|
      invariant 0 <= i <= |srcs| && Collected(srcs, raw, i, 0)
      invariant forall x :: 0 <= x < i ==> Resolved(srcs, x, |Refs(srcs[x])|)
    {
      r := LinkOne(srcs, names, byName, raw, i);
      if !r.Edges? {
        return;
      }
      CollectedRow(srcs, r.raw, i);
      raw := r.raw;
      i := i + 1;
    }
    r := Edges(raw);
    AllCollected(srcs, raw);
  }

  /** The references of one service. */
  method LinkOne(srcs: seq<Source>, names: seq<string>, byName: seq<nat>, given: seq<Edge>, i: nat) returns (r: Linked)
    requires NamesApart(srcs) && Index(names, byName) && i < |srcs| && Collected(srcs, given, i, 0)
    requires |names| == |srcs| && forall k :: 0 <= k < |srcs| ==> names[k] == srcs[k].name
    ensures !r.Edges? ==> LinkedRight(srcs, r)
    ensures r.Edges? ==> Collected(srcs, r.raw, i, |Refs(srcs[i])|) && Resolved(srcs, i, |Refs(srcs[i])|)
  {
    hide NamesApart, Index, Collected, Asks;
    var raw, j := given, 0;
    while j < |srcs[i].depOn| + |srcs[i].depOf|
      invariant 0 <= j <= |Refs(srcs[i])| && Collected(srcs, raw, i, j) && Resolved(srcs, i, j)
    {
      var rev := j >= |srcs[i].depOn|;
      var name := if rev then srcs[i].depOf[j - |srcs[i].depOn|] else srcs[i].depOn[j];
      assert name == Refs(srcs[i])[j];
      var found, o := Lookup(names, byName, name);
      if !found {
        forall x | 0 <= x < |srcs| ensures srcs[x].name != name {
          assert names[x] in names;
        }
        return NoSuch(i, name);
      }
      if o == i {
        return Itself(i);
      }
      var e := if rev then Edge(i, o) else Edge(o, i);
      CollectedMore(srcs, raw, i, j, o, e);
      raw := raw + [e];
      j := j + 1;
    }
    r := Edges(raw);
  }

  lemma CollectedMore(srcs: seq<Source>, raw: seq<Edge>, i: nat, j: nat, o: nat, e: Edge)
    requires NamesApart(srcs) && i < |srcs| && o < |srcs| && Collected(srcs, raw, i, j) && j < |Refs(srcs[i])|
    requires srcs[o].name == Refs(srcs[i])[j] && e == if j >= |srcs[i].depOn| then Edge(i, o) else Edge(o, i)
    ensures Collected(srcs, raw + [e], i, j + 1)
  {
    forall d: Edge | d.a < |srcs| && d.b < |srcs| ensures Asks(srcs, i, j, d) <==> d == e {
      var other := if j >= |srcs[i].depOn| then d.b else d.a;
      if other != o {
        assert srcs[other].name != srcs[o].name;
      }
    }
    hide NamesApart, Asks, Refs;
    var more := raw + [e];
    forall d: Edge | d.a < |srcs| && d.b < |srcs|
      ensures d in more <==> exists x, k {:trigger Asks(srcs, x, k, d)} ::
                0 <= x < |srcs| && 0 <= k < |Refs(srcs[x])| && (x < i || (x == i && k < j + 1)) && Asks(srcs, x, k, d)
    {
      assert d in more <==> d in raw || d == e;
    }
  }

  lemma CollectedRow(srcs: seq<Source>, raw: seq<Edge>, i: nat)
    requires i < |srcs| && Collected(srcs, raw, i, |Refs(srcs[i])|)
    ensures Collected(srcs, raw, i + 1, 0)
  {
    hide Asks, Refs;
  }

  lemma AllCollected(srcs: seq<Source>, raw: seq<Edge>)
    requires Collected(srcs, raw, |srcs|, 0)
    ensures forall a, b :: 0 <= a < |srcs| && 0 <= b < |srcs| ==> (Edge(a, b) in raw <==> Needs(srcs, a, b))
  {
    forall a: nat, b: nat | a < |srcs| && b < |srcs| ensures Edge(a, b) in raw <==> Needs(srcs, a, b) {
      AsksNeeds(srcs, a, b);
    }
  }

  lemma AsksNeeds(srcs: seq<Source>, a: nat, b: nat)
    requires a < |srcs| && b < |srcs|
    ensures Needs(srcs, a, b) <==> exists x, k {:trigger Asks(srcs, x, k, Edge(a, b))} ::
              0 <= x < |srcs| && 0 <= k < |Refs(srcs[x])| && Asks(srcs, x, k, Edge(a, b))
  {
    if srcs[a].name in srcs[b].depOn {
      var k :| 0 <= k < |srcs[b].depOn| && srcs[b].depOn[k] == srcs[a].name;
      assert Asks(srcs, b, k, Edge(a, b));
    }
    if srcs[b].name in srcs[a].depOf {
      var k :| 0 <= k < |srcs[a].depOf| && srcs[a].depOf[k] == srcs[b].name;
      assert Asks(srcs, a, |srcs[a].depOn| + k, Edge(a, b));
    }
    forall x, k | 0 <= x < |srcs| && 0 <= k < |Refs(srcs[x])| && Asks(srcs, x, k, Edge(a, b))
        ensures Needs(srcs, a, b) {
    }
  }
}
