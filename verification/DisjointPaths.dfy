/** Overlay paths, and what a flow in the split network says about them. */
module DisjointPaths {
  import opened Wrappers
  import opened FlowNetwork
  import opened BellmanFord
  import opened Augmentation
  import opened MinCostFlow
  import opened Sums

  ghost predicate SameRole(a: Arc, b: Arc) {
    (a.Split? && b.Split? && a.id == b.id) || (a.Link? && b.Link? && a.src == b.src && a.dst == b.dst)
  }

  /** `g` is the split network of an overlay: one free arc through every node, at most one arc per
      direction of a link, searched from the outbound half of `me` to the inbound half of `dest`. */
  ghost predicate SplitNetwork(g: Graph, me: nat, dest: nat) {
    && g.Valid() && g.src == Out(me) && g.dst == In(dest) && me != dest
    && (forall i, j :: 0 <= i < j < |g.arcs| ==> !SameRole(g.arcs[i], g.arcs[j]))
    && (forall x :: In(x) in g.nodes <==> Out(x) in g.nodes)
    && (forall x {:trigger HasSplit(g, x)} :: In(x) in g.nodes ==> HasSplit(g, x))
    && (forall j :: 0 <= j < |g.arcs| && g.arcs[j].Split? ==> g.w[j] == Some(0))
  }

  ghost predicate HasSplit(g: Graph, x: nat) {
    exists j: nat :: j < |g.arcs| && g.arcs[j] == Split(x)
  }

  ghost predicate IsLinkArc(g: Graph, j: nat, a: nat, b: nat)
    requires |g.w| == |g.arcs|
  {
    j < |g.arcs| && g.Usable(j) && g.arcs[j].Link? && g.arcs[j].src == a && g.arcs[j].dst == b
  }

  ghost predicate Linked(g: Graph, a: nat, b: nat)
    requires |g.w| == |g.arcs|
  {
    exists j: nat :: IsLinkArc(g, j, a, b)
  }

  ghost function LinkNo(g: Graph, a: nat, b: nat): (j: nat)
    requires |g.w| == |g.arcs| && Linked(g, a, b)
    ensures IsLinkArc(g, j, a, b)
  {
    var j: nat :| IsLinkArc(g, j, a, b); j
  }

  ghost function SplitNo(g: Graph, x: nat): (j: nat)
    requires HasSplit(g, x)
    ensures j < |g.arcs| && g.arcs[j] == Split(x)
  {
    var j: nat :| j < |g.arcs| && g.arcs[j] == Split(x); j
  }

  ghost predicate Distinct(q: seq<nat>) { forall a, b :: 0 <= a < b < |q| ==> q[a] != q[b] }

  /** `q` is a simple overlay path over usable links starting at `me`. */
  ghost predicate PathFrom(g: Graph, me: nat, q: seq<nat>)
    requires |g.w| == |g.arcs|
  {
    && |q| >= 2 && q[0] == me && Distinct(q)
    && (forall i :: 0 <= i < |q| - 1 ==> Linked(g, q[i], q[i + 1]))
    && (forall i :: 0 < i < |q| - 1 ==> HasSplit(g, q[i]))
  }

  ghost predicate OverlayPath(g: Graph, me: nat, dest: nat, q: seq<nat>)
    requires |g.w| == |g.arcs|
  {
    PathFrom(g, me, q) && q[|q| - 1] == dest
  }

  ghost function Inner(q: seq<nat>): seq<nat>
    requires |q| >= 2
  {
    q[1..|q| - 1]
  }

  /** The two paths share no node but their ends, and do not both consist of the direct link. */
  ghost predicate Apart(p: seq<nat>, q: seq<nat>)
    requires |p| >= 2 && |q| >= 2
  {
    && (forall x :: x in Inner(p) ==> x !in Inner(q))
    && (|p| > 2 || |q| > 2)
  }

  /** A system of node-disjoint paths from `me` to `dest`. */
  ghost predicate DisjointSystem(g: Graph, me: nat, dest: nat, ps: seq<seq<nat>>)
    requires |g.w| == |g.arcs|
  {
    && (forall i :: 0 <= i < |ps| ==> OverlayPath(g, me, dest, ps[i]))
    && (forall i, j :: 0 <= i < j < |ps| ==> Apart(ps[i], ps[j]))
  }

  /** The link costs along a path, and along all paths of a system. */
  ghost function PathCost(g: Graph, q: seq<nat>): int
    requires |g.w| == |g.arcs| && forall i :: 0 <= i < |q| - 1 ==> Linked(g, q[i], q[i + 1])
  {
    if |q| < 2 then 0
    else PathCost(g, q[..|q| - 1]) + g.w[LinkNo(g, q[|q| - 2], q[|q| - 1])].value
  }

  ghost function SystemCost(g: Graph, me: nat, dest: nat, ps: seq<seq<nat>>): int
    requires |g.w| == |g.arcs| && DisjointSystem(g, me, dest, ps)
  {
    if ps == [] then 0
    else SystemCost(g, me, dest, ps[..|ps| - 1]) + PathCost(g, ps[|ps| - 1])
  }

  // ---------------------------------------------------------------- from paths to arcs

  /** The arcs of the split network that a path runs through. */
  ghost function PathArcs(g: Graph, me: nat, q: seq<nat>): set<nat>
    requires |g.w| == |g.arcs| && PathFrom(g, me, q)
    decreases |q|
  {
    var n := |q|;
    var last := {LinkNo(g, q[n - 2], q[n - 1])};
    if n == 2 then last
    else
      PrefixPath(g, me, q);
      PathArcs(g, me, q[..n - 1]) + {SplitNo(g, q[n - 2])} + last
  }

  lemma PrefixPath(g: Graph, me: nat, q: seq<nat>)
    requires |g.w| == |g.arcs| && PathFrom(g, me, q) && |q| > 2
    ensures PathFrom(g, me, q[..|q| - 1])
  {}

  ghost predicate ArcAlong(g: Graph, q: seq<nat>, j: nat)
    requires |g.w| == |g.arcs| && j < |g.arcs| && |q| >= 2
  {
    if g.arcs[j].Split? then g.arcs[j].id in Inner(q)
    else exists i :: 0 <= i < |q| - 1 && IsLinkArc(g, j, q[i], q[i + 1])
  }

  /** An arc along the first part of a path is an arc along the path. */
  lemma AlongPrefix(g: Graph, q: seq<nat>, j: nat)
    requires |g.w| == |g.arcs| && j < |g.arcs| && |q| > 2 && ArcAlong(g, q[..|q| - 1], j)
    ensures ArcAlong(g, q, j)
  {
    var p := q[..|q| - 1];
    if g.arcs[j].Split? {
      assert Inner(q) == Inner(p) + [q[|q| - 2]];
    } else {
      var i :| 0 <= i < |p| - 1 && IsLinkArc(g, j, p[i], p[i + 1]);
      assert IsLinkArc(g, j, q[i], q[i + 1]);
    }
  }

  /** The arcs that the last step of a path adds are arcs along it. */
  lemma AlongLast(g: Graph, me: nat, q: seq<nat>)
    requires |g.w| == |g.arcs| && PathFrom(g, me, q)
    ensures LinkNo(g, q[|q| - 2], q[|q| - 1]) < |g.arcs| && ArcAlong(g, q, LinkNo(g, q[|q| - 2], q[|q| - 1]))
    ensures |q| > 2 ==> SplitNo(g, q[|q| - 2]) < |g.arcs| && ArcAlong(g, q, SplitNo(g, q[|q| - 2]))
  {
    var n := |q|;
    assert IsLinkArc(g, LinkNo(g, q[n - 2], q[n - 1]), q[n - 2], q[n - 2 + 1]);
    assert n > 2 ==> Inner(q)[n - 3] == q[n - 2];
  }

  lemma {:induction false} PathArcsAlong(g: Graph, me: nat, q: seq<nat>)
    requires |g.w| == |g.arcs| && PathFrom(g, me, q)
    ensures forall j :: j in PathArcs(g, me, q) ==> j < |g.arcs| && ArcAlong(g, q, j)
    decreases |q|
  {
    AlongLast(g, me, q);
    if |q| > 2 {
      PrefixPath(g, me, q);
      var p := q[..|q| - 1];
      PathArcsAlong(g, me, p);
      hide ArcAlong;
      forall j | j in PathArcs(g, me, p) ensures j < |g.arcs| && ArcAlong(g, q, j) {
        AlongPrefix(g, q, j);
      }
    }
  }

  /** The last two arcs of a path are not among the arcs before them. */
  lemma FreshArcs(g: Graph, me: nat, q: seq<nat>)
    requires |g.w| == |g.arcs| && PathFrom(g, me, q) && |q| > 2
    ensures PathFrom(g, me, q[..|q| - 1])
    ensures SplitNo(g, q[|q| - 2]) !in PathArcs(g, me, q[..|q| - 1])
    ensures LinkNo(g, q[|q| - 2], q[|q| - 1]) !in PathArcs(g, me, q[..|q| - 1])
  {
    PrefixPath(g, me, q);
    var p := q[..|q| - 1];
    PathArcsAlong(g, me, p);
  }

  lemma {:induction false} PathCarries(g: Graph, me: nat, q: seq<nat>, v: Node)
    requires |g.w| == |g.arcs| && PathFrom(g, me, q)
    ensures WSum(PathArcs(g, me, q), Leaving(g, v)) ==
                (if v == Out(me) then 1 else 0) - (if v == In(q[|q| - 1]) then 1 else 0)
    decreases |q|
  {
    var n := |q|;
    var u := Leaving(g, v);
    var l := LinkNo(g, q[n - 2], q[n - 1]);
    if n == 2 {
      WSumZero({}, u);
      WSumAdd({}, u, l);
      assert PathArcs(g, me, q) == {} + {l};
    } else {
      FreshArcs(g, me, q);
      PathCarries(g, me, q[..n - 1], v);
      var s := SplitNo(g, q[n - 2]);
      WSumAdd(PathArcs(g, me, q[..n - 1]), u, s);
      WSumAdd(PathArcs(g, me, q[..n - 1]) + {s}, u, l);
    }
  }

  lemma {:induction false} PathArcsCost(g: Graph, me: nat, q: seq<nat>)
    requires |g.w| == |g.arcs| && PathFrom(g, me, q)
    requires forall j :: 0 <= j < |g.arcs| && g.arcs[j].Split? ==> g.w[j] == Some(0)
    ensures WSum(PathArcs(g, me, q), Prices(g)) == PathCost(g, q)
    decreases |q|
  {
    var n := |q|;
    var u := Prices(g);
    var l := LinkNo(g, q[n - 2], q[n - 1]);
    if n == 2 {
      WSumZero({}, u);
      WSumAdd({}, u, l);
      assert PathArcs(g, me, q) == {} + {l};
      assert |q[..1]| == 1 && PathCost(g, q[..1]) == 0;
    } else {
      FreshArcs(g, me, q);
      PathArcsCost(g, me, q[..n - 1]);
      var s := SplitNo(g, q[n - 2]);
      WSumAdd(PathArcs(g, me, q[..n - 1]), u, s);
      WSumAdd(PathArcs(g, me, q[..n - 1]) + {s}, u, l);
    }
  }

  lemma ApartArcs(g: Graph, me: nat, dest: nat, p: seq<nat>, q: seq<nat>)
    requires SplitNetwork(g, me, dest) && OverlayPath(g, me, dest, p) && OverlayPath(g, me, dest, q) && Apart(p, q)
    ensures PathArcs(g, me, p) !! PathArcs(g, me, q)
  {
    PathArcsAlong(g, me, p);
    PathArcsAlong(g, me, q);
    forall j | j in PathArcs(g, me, p) && j in PathArcs(g, me, q) ensures false {
      assert ArcAlong(g, p, j) && ArcAlong(g, q, j);
      if g.arcs[j].Link? {
        var i :| 0 <= i < |p| - 1 && IsLinkArc(g, j, p[i], p[i + 1]);
        var k :| 0 <= k < |q| - 1 && IsLinkArc(g, j, q[k], q[k + 1]);
        SharedStep(me, dest, p, q, i, k);
      }
    }
  }

  /** Paths that share a step are both the direct link, or share an inner node. */
  lemma SharedStep(me: nat, dest: nat, p: seq<nat>, q: seq<nat>, i: nat, k: nat)
    requires |p| >= 2 && |q| >= 2 && p[0] == q[0] == me && p[|p| - 1] == q[|q| - 1] == dest && Distinct(p)
    requires Distinct(q)
    requires i < |p| - 1 && k < |q| - 1 && p[i] == q[k] && p[i + 1] == q[k + 1]
    ensures !Apart(p, q)
  {
    if 0 < i {
      assert Inner(p)[i - 1] == p[i];
      assert k > 0 && Inner(q)[k - 1] == q[k];
      assert p[i] in Inner(p) && p[i] in Inner(q);
    } else {
      assert k == 0;
      if |p| > 2 {
        assert p[1] != dest && Inner(p)[0] == p[1];
        assert |q| > 2 && Inner(q)[0] == q[1];
        assert p[1] in Inner(p) && p[1] in Inner(q);
      } else {
        assert |q| == 2;
      }
    }
  }

  ghost function SystemArcs(g: Graph, me: nat, dest: nat, ps: seq<seq<nat>>): set<nat>
    requires |g.w| == |g.arcs| && DisjointSystem(g, me, dest, ps)
  {
    if ps == [] then {}
    else SystemArcs(g, me, dest, ps[..|ps| - 1]) + PathArcs(g, me, ps[|ps| - 1])
  }

  lemma {:induction false} SystemArcsApart(g: Graph, me: nat, dest: nat, ps: seq<seq<nat>>, q: seq<nat>)
    requires SplitNetwork(g, me, dest) && DisjointSystem(g, me, dest, ps) && OverlayPath(g, me, dest, q)
    requires forall i :: 0 <= i < |ps| ==> Apart(ps[i], q)
    ensures SystemArcs(g, me, dest, ps) !! PathArcs(g, me, q)
  {
    if ps != [] {
      SystemArcsApart(g, me, dest, ps[..|ps| - 1], q);
      ApartArcs(g, me, dest, ps[|ps| - 1], q);
    }
  }

  lemma AddedPath(g: Graph, me: nat, dest: nat, a: set<nat>, m: int, q: seq<nat>)
    requires SplitNetwork(g, me, dest) && OverlayPath(g, me, dest, q) && a !! PathArcs(g, me, q)
    requires UsesUsable(g, a) && Carries(g, a, m)
    ensures UsesUsable(g, a + PathArcs(g, me, q)) && Carries(g, a + PathArcs(g, me, q), m + 1)
    ensures WSum(a + PathArcs(g, me, q), Prices(g)) == WSum(a, Prices(g)) + PathCost(g, q)
  {
    var b := PathArcs(g, me, q);
    PathArcsAlong(g, me, q);
    forall v | v in g.nodes
      ensures WSum(a + b, Leaving(g, v)) == if v == g.src then m + 1 else if v == g.dst then -(m + 1) else 0
    {
      WSumDisjoint(a, b, Leaving(g, v));
      PathCarries(g, me, q, v);
    }
    WSumDisjoint(a, b, Prices(g));
    PathArcsCost(g, me, q);
    forall j | j in b ensures j < |g.arcs| && g.Usable(j) {
      assert ArcAlong(g, q, j);
    }
  }

  /** A node-disjoint system of `m` paths is a flow of value `m` with the system's cost. */
  lemma {:induction false} SystemCarries(g: Graph, me: nat, dest: nat, ps: seq<seq<nat>>)
    requires SplitNetwork(g, me, dest) && DisjointSystem(g, me, dest, ps)
    ensures UsesUsable(g, SystemArcs(g, me, dest, ps)) && Carries(g, SystemArcs(g, me, dest, ps), |ps|)
    ensures WSum(SystemArcs(g, me, dest, ps), Prices(g)) == SystemCost(g, me, dest, ps)
  {
    if ps == [] {
      forall v | v in g.nodes ensures WSum({}, Leaving(g, v)) == 0 { WSumZero({}, Leaving(g, v)); }
      WSumZero({}, Prices(g));
    } else {
      var front, q := ps[..|ps| - 1], ps[|ps| - 1];
      SystemCarries(g, me, dest, front);
      SystemArcsApart(g, me, dest, front, q);
      AddedPath(g, me, dest, SystemArcs(g, me, dest, front), |front|, q);
    }
  }

  // ---------------------------------------------------------------- from flows to paths

  lemma {:induction false} PositiveMember(f: set<nat>, w: seq<int>) returns (j: nat)
    requires WSum(f, w) > 0
    ensures j in f && j < |w| && w[j] > 0
  {
    if |w| - 1 in f && w[|w| - 1] > 0 {
      j := |w| - 1;
    } else {
      j := PositiveMember(f, w[..|w| - 1]);
    }
  }

  /** What is left of a flow of value `r + 1` once a path from `me` as far as the node `at` has been
      taken out of it. */
  ghost predicate Owes(g: Graph, f: set<nat>, r: int, at: Node) {
    forall v :: v in g.nodes ==>
      WSum(f, Leaving(g, v)) ==
        (if v == g.src then r else if v == g.dst then -(r + 1) else 0) + (if v == at then 1 else 0)
  }

  /** No arc of `f` enters the source or leaves the destination. */
  ghost predicate OneWay(g: Graph, f: set<nat>) {
    forall j :: j in f ==> j < |g.arcs| && g.arcs[j].End() != g.src && g.arcs[j].Start() != g.dst
  }

  lemma TakeArc(g: Graph, f: set<nat>, r: int, j: nat)
    requires g.Valid() && j in f && j < |g.arcs| && Owes(g, f, r, g.arcs[j].Start())
    ensures Owes(g, f - {j}, r, g.arcs[j].End())
  {
    forall v | v in g.nodes
      ensures WSum(f - {j}, Leaving(g, v)) ==
              (if v == g.src then r else if v == g.dst then -(r + 1) else 0)
              + (if v == g.arcs[j].End() then 1 else 0)
    {
      WSumRemove(f, Leaving(g, v), j);
    }
  }

  lemma NextArc(g: Graph, f: set<nat>, r: int, at: Node) returns (j: nat)
    requires g.Valid() && OneWay(g, f) && Owes(g, f, r, at) && r >= 0 && at in g.nodes && at != g.dst
    ensures j in f && j < |g.arcs| && g.arcs[j].Start() == at
  {
    j := PositiveMember(f, Leaving(g, at));
  }

  lemma UniqueArcs(g: Graph, me: nat, dest: nat, i: nat, j: nat)
    requires SplitNetwork(g, me, dest) && i < |g.arcs| && j < |g.arcs| && SameRole(g.arcs[i], g.arcs[j])
    ensures i == j
  {
  }

  /** Taking one more link: the path so far, its arcs, and the flow still owed move on together. */
  ghost predicate Tracing(g: Graph, me: nat, dest: nat, f: set<nat>, r: int, q: seq<nat>, rest: set<nat>) {
    && SplitNetwork(g, me, dest) && PathFrom(g, me, q)
    && UsesUsable(g, f) && OneWay(g, f)
    && rest <= f && PathArcs(g, me, q) <= f && rest == f - PathArcs(g, me, q)
    && Owes(g, rest, r, In(q[|q| - 1]))
    && In(q[|q| - 1]) in g.nodes
    && dest !in q[..|q| - 1]
  }

  /** The own arc of the last node is next. */
  lemma NextSplit(g: Graph, me: nat, dest: nat, f: set<nat>, r: int, q: seq<nat>, rest: set<nat>) returns (s: nat)
    requires Tracing(g, me, dest, f, r, q, rest) && r >= 0 && q[|q| - 1] != dest
    ensures s in rest && s < |g.arcs| && g.arcs[s] == Split(q[|q| - 1]) && Owes(g, rest - {s}, r, Out(q[|q| - 1]))
    ensures HasSplit(g, q[|q| - 1]) && s == SplitNo(g, q[|q| - 1])
  {
    var x := q[|q| - 1];
    s := NextArc(g, rest, r, In(x));
    assert g.arcs[s] == Split(x);
    assert HasSplit(g, x);
    hide Owes, PathFrom, PathArcs;
    TakeArc(g, rest, r, s);
    UniqueArcs(g, me, dest, s, SplitNo(g, x));
  }

  /** And then one of the links that leave it. */
  lemma NextLink(g: Graph, me: nat, dest: nat, f: set<nat>, r: int, x: nat, rest: set<nat>) returns (l: nat, y: nat)
    requires SplitNetwork(g, me, dest) && UsesUsable(g, f) && OneWay(g, f) && rest <= f && r >= 0
    requires Out(x) in g.nodes && Owes(g, rest, r, Out(x))
    ensures l in rest && l < |g.arcs| && IsLinkArc(g, l, x, y) && Owes(g, rest - {l}, r, In(y)) && In(y) in g.nodes
  {
    l := NextArc(g, rest, r, Out(x));
    y := g.arcs[l].dst;
    hide Owes, OneWay;
    TakeArc(g, rest, r, l);
  }

  lemma TracingParts(g: Graph, me: nat, dest: nat, f: set<nat>, r: int, q: seq<nat>, rest: set<nat>)
    requires Tracing(g, me, dest, f, r, q, rest)
    ensures SplitNetwork(g, me, dest) && |g.w| == |g.arcs|
    ensures PathFrom(g, me, q) && |q| >= 2 && UsesUsable(g, f) && OneWay(g, f)
    ensures PathArcs(g, me, q) <= f && rest == f - PathArcs(g, me, q) && dest !in q[..|q| - 1]
    ensures q[|q| - 1] != dest ==> dest !in q
  {
    hide PathArcs, Owes, OneWay, UsesUsable;
  }

  lemma TracingIs(g: Graph, me: nat, dest: nat, f: set<nat>, r: int, q: seq<nat>, y: nat, rest: set<nat>)
    requires SplitNetwork(g, me, dest) && |g.w| == |g.arcs| && PathFrom(g, me, q + [y])
    requires UsesUsable(g, f) && OneWay(g, f) && PathArcs(g, me, q + [y]) <= f
    requires rest == f - PathArcs(g, me, q + [y]) && Owes(g, rest, r, In(y)) && In(y) in g.nodes && dest !in q
    ensures Tracing(g, me, dest, f, r, q + [y], rest)
  {
    hide PathArcs, Owes, OneWay, UsesUsable, SplitNetwork;
    assert (q + [y])[..|q + [y]| - 1] == q;
  }

  lemma BothHalves(g: Graph, me: nat, dest: nat, s: nat, x: nat)
    requires SplitNetwork(g, me, dest) && s < |g.arcs| && g.arcs[s] == Split(x)
    ensures Out(x) in g.nodes
  {
    assert g.arcs[s].End() in g.nodes;
  }

  /** From the inbound half of the last node on: through its own arc and along one more link. */
  lemma TraceOn(g: Graph, me: nat, dest: nat, f: set<nat>, r: int, q: seq<nat>, rest: set<nat>)
    returns (q': seq<nat>, rest': set<nat>)
    requires Tracing(g, me, dest, f, r, q, rest) && r >= 0 && q[|q| - 1] != dest
    ensures Tracing(g, me, dest, f, r, q', rest') && rest' < rest
  {
    hide *;
    TracingParts(g, me, dest, f, r, q, rest);
    var x := q[|q| - 1];
    var s := NextSplit(g, me, dest, f, r, q, rest);
    BothHalves(g, me, dest, s, x);
    var l, y := NextLink(g, me, dest, f, r, x, rest - {s});
    q', rest' := q + [y], rest - {s} - {l};
    FreshNode(g, me, dest, f, r, q, rest', y);
    GrowPath(g, me, dest, q, y, s, l);
    TracingIs(g, me, dest, f, r, q, y, rest');
  }

  lemma GrowPath(g: Graph, me: nat, dest: nat, q: seq<nat>, y: nat, s: nat, l: nat)
    requires SplitNetwork(g, me, dest) && PathFrom(g, me, q) && y !in q
    requires s < |g.arcs| && g.arcs[s] == Split(q[|q| - 1]) && IsLinkArc(g, l, q[|q| - 1], y)
    ensures PathFrom(g, me, q + [y]) && PathArcs(g, me, q + [y]) == PathArcs(g, me, q) + {s} + {l}
  {
    var x, q' := q[|q| - 1], q + [y];
    assert HasSplit(g, x) && Linked(g, x, y);
    UniqueArcs(g, me, dest, s, SplitNo(g, x));
    UniqueArcs(g, me, dest, l, LinkNo(g, x, y));
    assert q'[..|q'| - 1] == q;
    forall i | 0 <= i < |q'| - 1 ensures Linked(g, q'[i], q'[i + 1]) {
      if i < |q| - 1 { assert Linked(g, q[i], q[i + 1]); }
    }
    forall i | 0 < i < |q'| - 1 ensures HasSplit(g, q'[i]) {
      if i < |q| - 1 { assert HasSplit(g, q[i]); }
    }
  }

  /** The node just entered is new: every node passed has used up its own arc, and the source's
      own arc carries nothing. */
  lemma FreshNode(g: Graph, me: nat, dest: nat, f: set<nat>, r: int, q: seq<nat>, rest: set<nat>, y: nat)
    requires SplitNetwork(g, me, dest) && PathFrom(g, me, q) && OneWay(g, f)
    requires rest <= f && rest !! PathArcs(g, me, q) && HasSplit(g, q[|q| - 1]) && SplitNo(g, q[|q| - 1]) !in rest
    requires In(y) in g.nodes && Owes(g, rest, r, In(y)) && r >= 0 && dest !in q
    ensures y !in q
  {
    if y in q {
      assert y != dest;
      var s := NextArc(g, rest, r, In(y));
      assert g.arcs[s] == Split(y);
      var i :| 0 <= i < |q| && q[i] == y;
      if i > 0 {
        if i < |q| - 1 { InnerSplitUsed(g, me, q, i); }
        UniqueArcs(g, me, dest, s, SplitNo(g, y));
      }
    }
  }

  lemma {:induction false} InnerSplitUsed(g: Graph, me: nat, q: seq<nat>, i: nat)
    requires |g.w| == |g.arcs| && PathFrom(g, me, q) && 0 < i < |q| - 1
    ensures HasSplit(g, q[i]) && SplitNo(g, q[i]) in PathArcs(g, me, q)
    decreases |q|
  {
    PrefixPath(g, me, q);
    if i < |q| - 2 { InnerSplitUsed(g, me, q[..|q| - 1], i); }
  }

  /** The first link of a path. */
  lemma TraceStart(g: Graph, me: nat, dest: nat, f: set<nat>, r: nat) returns (l: nat, y: nat)
    requires SplitNetwork(g, me, dest) && UsesUsable(g, f) && OneWay(g, f) && Carries(g, f, r + 1)
    ensures Tracing(g, me, dest, f, r, [me, y], f - {l})
  {
    l := NextArc(g, f, r, g.src);
    y := g.arcs[l].dst;
    TakeArc(g, f, r, l);
    StartNotEntered(g, me, dest, f - {l}, r, y);
    hide Owes, OneWay, Carries;
    assert IsLinkArc(g, l, me, y);
    assert Linked(g, me, y);
    UniqueArcs(g, me, dest, l, LinkNo(g, me, y));
    assert PathArcs(g, me, [me, y]) == {l};
  }

  lemma TraceEnd(g: Graph, me: nat, dest: nat, f: set<nat>, r: nat, q: seq<nat>, rest: set<nat>)
    requires Tracing(g, me, dest, f, r, q, rest) && q[|q| - 1] == dest
    ensures OverlayPath(g, me, dest, q) && PathArcs(g, me, q) <= f && Carries(g, f - PathArcs(g, me, q), r)
  {
    hide PathArcs, OneWay;
  }

  /** One overlay path can be taken out of any flow of positive value. */
  lemma TracePath(g: Graph, me: nat, dest: nat, f: set<nat>, r: nat) returns (q: seq<nat>)
    requires SplitNetwork(g, me, dest) && UsesUsable(g, f) && OneWay(g, f) && Carries(g, f, r + 1)
    ensures OverlayPath(g, me, dest, q) && PathArcs(g, me, q) <= f && Carries(g, f - PathArcs(g, me, q), r)
  {
    hide *;
    var l, y := TraceStart(g, me, dest, f, r);
    q := [me, y];
    var rest := f - {l};
    TracingParts(g, me, dest, f, r, q, rest);
    while q[|q| - 1] != dest
      invariant Tracing(g, me, dest, f, r, q, rest) && |q| >= 2
      decreases rest
    {
      q, rest := TraceOn(g, me, dest, f, r, q, rest);
      TracingParts(g, me, dest, f, r, q, rest);
    }
    TraceEnd(g, me, dest, f, r, q, rest);
  }

  lemma StartNotEntered(g: Graph, me: nat, dest: nat, f: set<nat>, r: nat, y: nat)
    requires SplitNetwork(g, me, dest) && OneWay(g, f) && Owes(g, f, r, In(y)) && In(y) in g.nodes
    ensures y != me
  {
    if y == me {
      var s := NextArc(g, f, r, In(y));
    }
  }

  lemma ArcsApart(g: Graph, me: nat, dest: nat, p: seq<nat>, q: seq<nat>)
    requires SplitNetwork(g, me, dest) && OverlayPath(g, me, dest, p) && OverlayPath(g, me, dest, q)
    requires PathArcs(g, me, p) !! PathArcs(g, me, q)
    ensures Apart(p, q)
  {
    forall x | x in Inner(p) ensures x !in Inner(q) {
      if x in Inner(q) {
        var i :| 0 <= i < |Inner(p)| && Inner(p)[i] == x;
        var k :| 0 <= k < |Inner(q)| && Inner(q)[k] == x;
        InnerSplitUsed(g, me, p, i + 1);
        InnerSplitUsed(g, me, q, k + 1);
      }
    }
  }

  lemma {:induction false} PathInSystem(g: Graph, me: nat, dest: nat, ps: seq<seq<nat>>, i: nat)
    requires |g.w| == |g.arcs| && DisjointSystem(g, me, dest, ps) && i < |ps|
    ensures PathArcs(g, me, ps[i]) <= SystemArcs(g, me, dest, ps)
  {
    if i < |ps| - 1 { PathInSystem(g, me, dest, ps[..|ps| - 1], i); }
  }

  /** A path whose arcs are none of a system's can be added to it. */
  lemma AddPath(g: Graph, me: nat, dest: nat, f: set<nat>, front: seq<seq<nat>>, q: seq<nat>)
    requires SplitNetwork(g, me, dest) && |g.w| == |g.arcs| && DisjointSystem(g, me, dest, front)
    requires OverlayPath(g, me, dest, q) && PathArcs(g, me, q) <= f
    requires SystemArcs(g, me, dest, front) <= f - PathArcs(g, me, q)
    ensures DisjointSystem(g, me, dest, front + [q]) && SystemArcs(g, me, dest, front + [q]) <= f
  {
    forall i | 0 <= i < |front| ensures Apart(front[i], q) {
      PathInSystem(g, me, dest, front, i);
      hide SplitNetwork, Apart, SystemArcs, PathArcs;
      ArcsApart(g, me, dest, front[i], q);
    }
    hide SplitNetwork, Apart, PathArcs, OverlayPath;
    assert (front + [q])[..|front|] == front;
  }

  lemma RestFlows(g: Graph, f: set<nat>, arcs: set<nat>)
    requires |g.w| == |g.arcs| && UsesUsable(g, f) && OneWay(g, f)
    ensures UsesUsable(g, f - arcs) && OneWay(g, f - arcs)
  {}

  /** A conserving flow of value `r` contains `r` node-disjoint overlay paths. */
  lemma {:induction false} Decompose(g: Graph, me: nat, dest: nat, f: set<nat>, r: nat) returns (ps: seq<seq<nat>>)
    requires SplitNetwork(g, me, dest) && UsesUsable(g, f) && OneWay(g, f) && Carries(g, f, r)
    ensures DisjointSystem(g, me, dest, ps) && |ps| == r && SystemArcs(g, me, dest, ps) <= f
    decreases r
  {
    if r == 0 {
      ps := [];
    } else {
      var q := TracePath(g, me, dest, f, r - 1);
      RestFlows(g, f, PathArcs(g, me, q));
      hide SplitNetwork, UsesUsable, OneWay, Carries, PathArcs, OverlayPath, SystemArcs, DisjointSystem;
      var front := Decompose(g, me, dest, f - PathArcs(g, me, q), r - 1);
      AddPath(g, me, dest, f, front, q);
      ps := front + [q];
    }
  }

  /** What is left of a cheapest flow beside its paths costs nothing. */
  lemma NothingPaid(g: Graph, flow: Flow, bag: set<Entry>, r: nat, h: set<nat>)
    requires FlowOk(g, flow, bag, r) && UsesUsable(g, h) && Carries(g, h, r) && h <= Saturated(flow)
    ensures UsesUsable(g, Saturated(flow)) && Carries(g, Saturated(flow), r) && NonNegative(g)
    ensures WSum(Saturated(flow) - h, Prices(g)) == 0
  {
    var pi :| FlowInv(g, flow, bag, r, pi);
    var extra := Saturated(flow) - h;
    CheapestFlow(g, flow, bag, r, h);
    hide Feasible;
    assert Saturated(flow) == h + extra;
    WSumDisjoint(h, extra, Prices(g));
    WSumNonNegative(extra, Prices(g));
  }

  /** What two flows of the same value differ by is balanced at every node. */
  lemma Balanced(g: Graph, f: set<nat>, h: set<nat>, r: nat, v: Node)
    requires Carries(g, f, r) && Carries(g, h, r) && h <= f && v in g.nodes
    ensures WSum(f - h, Leaving(g, v)) == 0
  {
    assert f == h + (f - h);
    WSumDisjoint(h, f - h, Leaving(g, v));
  }

  /** Arcs that cost nothing together are no links. */
  lemma OnlySplits(g: Graph, extra: set<nat>)
    requires g.Valid() && UsesUsable(g, extra) && NonNegative(g) && WSum(extra, Prices(g)) == 0
    requires forall j :: 0 <= j < |g.arcs| && g.arcs[j].Link? && g.Usable(j) ==> g.w[j].value > 0
    ensures forall j :: j in extra ==> g.arcs[j].Split?
  {
    WSumNonNegative(extra, Prices(g));
  }

  /** A split arc without links around it leaves its inbound half unbalanced. */
  lemma SplitLeaves(g: Graph, extra: set<nat>, j: nat)
    requires g.Valid() && j in extra && forall i :: i in extra ==> i < |g.arcs| && g.arcs[i].Split?
    ensures WSum(extra, Leaving(g, In(g.arcs[j].id))) != 0
  {
    WSumNonNegative(extra, Leaving(g, In(g.arcs[j].id)));
  }

  /** When every link costs something, a cheapest flow holds nothing but its paths. */
  lemma NothingElse(g: Graph, me: nat, dest: nat, flow: Flow, bag: set<Entry>, r: nat, ps: seq<seq<nat>>)
    requires SplitNetwork(g, me, dest) && FlowOk(g, flow, bag, r) && DisjointSystem(g, me, dest, ps) && |ps| == r
    requires SystemArcs(g, me, dest, ps) <= Saturated(flow)
    requires forall j :: 0 <= j < |g.arcs| && g.arcs[j].Link? && g.Usable(j) ==> g.w[j].value > 0
    ensures SystemArcs(g, me, dest, ps) == Saturated(flow)
  {
    var f, h := Saturated(flow), SystemArcs(g, me, dest, ps);
    SystemCarries(g, me, dest, ps);
    NothingPaid(g, flow, bag, r, h);
    assert g.Valid() && UsesUsable(g, f - h);
    hide FlowOk, DisjointSystem, SystemArcs, Carries, Saturated, SplitNetwork, NonNegative, Leaving, Prices;
    OnlySplits(g, f - h);
    if j :| j in f - h {
      assert g.arcs[j].Start() in g.nodes;
      Balanced(g, f, h, r, In(g.arcs[j].id));
      SplitLeaves(g, f - h, j);
    }
  }
}
