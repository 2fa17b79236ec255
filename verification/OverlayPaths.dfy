/** The answers of the k-paths computation restated on the configured overlay and the costs of its
    links alone, without the network that is built from them. */
module OverlayPaths {
  import opened Wrappers
  import opened FlowNetwork
  import opened BellmanFord
  import opened Augmentation
  import opened MinCostFlow
  import opened DisjointPaths
  import opened Topology
  import opened KPaths
  import opened GraphChoice

  /** Edge `i` of the configuration leads from `x` to `y`. */
  ghost predicate Leads(o: Overlay, i: nat, x: nat, y: nat) {
    && i < |o.edges|
    && var e := o.edges[i];
       (e.src == x && e.dst == y) || (!o.directed && e.src == y && e.dst == x)
  }

  ghost predicate Neighbours(o: Overlay, x: nat, y: nat) { exists i: nat :: Leads(o, i, x, y) }

  /** The link from `x` to `y` is not down, nor the one back where both ways count; where configured
      costs are used all links are in. */
  ghost predicate Up(costs: Costs, mode: Mode, x: nat, y: nat) {
    && EdgeKey(x, y) in costs && EdgeKey(y, x) in costs
    && (mode.useBase ||
         (costs[EdgeKey(x, y)].cost != -1 && (mode.bothWays ==> costs[EdgeKey(y, x)].cost != -1)))
  }

  function Size(c: int): int { if c < 0 then -c else c }

  function Larger(a: int, b: int): int { if a < b then b else a }

  /** What the link from `x` to `y` costs. */
  ghost function Price(costs: Costs, mode: Mode, x: nat, y: nat): int
    requires Up(costs, mode, x, y)
  {
    var there, back := costs[EdgeKey(x, y)], costs[EdgeKey(y, x)];
    var p := if mode.useBase then there.base else Size(there.cost);
    var q := if mode.useBase then back.base else Size(back.cost);
    if mode.bothWays then Larger(p, q) else p
  }

  /** A link that counts. */
  ghost predicate Hop(o: Overlay, costs: Costs, mode: Mode, x: nat, y: nat) {
    Neighbours(o, x, y) && Up(costs, mode, x, y)
  }

  /** A simple path over links that count. */
  ghost predicate HostPath(o: Overlay, costs: Costs, mode: Mode, me: nat, dest: nat, p: seq<nat>) {
    && |p| >= 2 && p[0] == me && p[|p| - 1] == dest && Distinct(p)
    && forall i :: 0 <= i < |p| - 1 ==> Hop(o, costs, mode, p[i], p[i + 1])
  }

  /** Paths that share no host but their ends. */
  ghost predicate HostPaths(o: Overlay, costs: Costs, mode: Mode, me: nat, dest: nat, ps: seq<seq<nat>>) {
    && (forall i :: 0 <= i < |ps| ==> HostPath(o, costs, mode, me, dest, ps[i]))
    && (forall i, j :: 0 <= i < j < |ps| ==> Apart(ps[i], ps[j]))
  }

  ghost function PathPrice(o: Overlay, costs: Costs, mode: Mode, p: seq<nat>): int
    requires forall i :: 0 <= i < |p| - 1 ==> Hop(o, costs, mode, p[i], p[i + 1])
  {
    if |p| < 2 then 0
    else
      assert Hop(o, costs, mode, p[|p| - 2], p[|p| - 2 + 1]);
      PathPrice(o, costs, mode, p[..|p| - 1]) + Price(costs, mode, p[|p| - 2], p[|p| - 1])
  }

  ghost function PathsPrice(o: Overlay, costs: Costs, mode: Mode, me: nat, dest: nat, ps: seq<seq<nat>>): int
    requires HostPaths(o, costs, mode, me, dest, ps)
  {
    if ps == [] then 0
    else PathsPrice(o, costs, mode, me, dest, ps[..|ps| - 1]) + PathPrice(o, costs, mode, ps[|ps| - 1])
  }

  /** Hop `h` of the path goes over edge `i`. */
  ghost predicate HopOver(o: Overlay, p: seq<nat>, h: nat, i: nat) {
    h + 1 < |p| && Leads(o, i, p[h], p[h + 1])
  }

  ghost predicate PathOver(o: Overlay, p: seq<nat>, i: nat) { exists h: nat :: HopOver(o, p, h, i) }

  ghost predicate PathsOver(o: Overlay, ps: seq<seq<nat>>, i: nat) {
    exists a :: 0 <= a < |ps| && PathOver(o, ps[a], i)
  }

  /** The bits of the edges that the paths go over. */
  ghost function BitsOf(o: Overlay, ps: seq<seq<nat>>): set<nat> {
    set i: nat | i < |o.edges| && PathsOver(o, ps, i) :: o.edges[i].index
  }

  /** Every link that counts costs something. */
  ghost predicate NoneFree(o: Overlay, costs: Costs, mode: Mode) {
    forall x, y :: Hop(o, costs, mode, x, y) ==> Price(costs, mode, x, y) > 0
  }

  // ---------------------------------------------------------------- one arc

  /** The weight of an arc: none if the link is down, or the link back where both ways count;
      otherwise the size of the cost, or the larger of the two, or of the configured ones. */
  lemma WeightIs(a: Arc, costs: Costs, mode: Mode)
    requires a.Link? && EdgeKey(a.src, a.dst) in costs.Keys && EdgeKey(a.dst, a.src) in costs.Keys
    requires SaneCosts(costs, mode)
    ensures var there, back, w := costs[EdgeKey(a.src, a.dst)], costs[EdgeKey(a.dst, a.src)], ArcWeight(a, costs, mode);
            && (w.None? <==> !mode.useBase && (there.cost == -1 || (mode.bothWays && back.cost == -1)))
            && (w.Some? && !mode.useBase && !mode.bothWays ==>
                  w.value >= 0 && (w.value == there.cost || w.value == -there.cost))
            && (w.Some? && !mode.useBase && mode.bothWays ==>
                  && w.value >= there.cost && w.value >= -there.cost && w.value >= back.cost && w.value >= -back.cost
                  && w.value in {there.cost, -there.cost, back.cost, -back.cost})
            && (mode.useBase && !mode.bothWays ==> w.value == there.base)
            && (mode.useBase && mode.bothWays ==>
                  w.value >= there.base && w.value >= back.base && w.value in {there.base, back.base})
    ensures Up(costs, mode, a.src, a.dst) <==> ArcWeight(a, costs, mode).Some?
    ensures Up(costs, mode, a.src, a.dst) ==> ArcWeight(a, costs, mode).value == Price(costs, mode, a.src, a.dst)
  {
    assert EdgeKey(a.src, a.dst) in costs && EdgeKey(a.dst, a.src) in costs;
  }

  lemma ArcFor(o: Overlay, i: nat, x: nat, y: nat) returns (j: nat)
    requires Leads(o, i, x, y)
    ensures j < |EdgeArcs(o, |o.edges|)| && EdgeArcs(o, |o.edges|)[j] == Link(x, y, o.edges[i].index)
  {
    ArcPlaces(o, |o.edges|);
    var n := |o.edges|;
    j := if o.directed then n - 1 - i
         else if o.edges[i].src == x && o.edges[i].dst == y then 2 * (n - 1 - i) + 1 else 2 * (n - 1 - i);
  }

  lemma EdgeFor(o: Overlay, j: nat) returns (i: nat)
    requires o.Valid() && j < |EdgeArcs(o, |o.edges|)| && EdgeArcs(o, |o.edges|)[j].Link?
    ensures var a := EdgeArcs(o, |o.edges|)[j]; Leads(o, i, a.src, a.dst) && a.index == o.edges[i].index
  {
    EdgeArcsFrom(o, |o.edges|);
    var a := EdgeArcs(o, |o.edges|)[j];
    assert a in EdgeArcs(o, |o.edges|);
    assert FromEdge(o, |o.edges|, a);
    i :| 0 <= i < |o.edges| && Joins(o, o.edges[i], a);
  }

  /** Two hosts are joined by no more than one edge. */
  lemma OneEdge(o: Overlay, i: nat, k: nat, x: nat, y: nat)
    requires o.Valid() && Leads(o, i, x, y) && Leads(o, k, x, y)
    ensures i == k
  {}

  /** What the theorems below need to know of the network. */
  ghost predicate Built(o: Overlay, costs: Costs, mode: Mode, me: nat, dest: nat, g: Graph) {
    && Configured(o, costs, me, dest) && me != dest && SaneCosts(costs, mode)
    && g == NetworkOf(o, costs, mode, me, dest) && SplitNetwork(g, me, dest)
  }

  lemma BuiltIs(o: Overlay, costs: Costs, mode: Mode, me: nat, dest: nat) returns (g: Graph)
    requires Configured(o, costs, me, dest) && me != dest && SaneCosts(costs, mode)
    ensures Built(o, costs, mode, me, dest, g) && g == NetworkOf(o, costs, mode, me, dest)
  {
    NetworkValid(o, costs, mode, me, dest);
    g := NetworkOf(o, costs, mode, me, dest);
  }

  lemma BuiltArcs(o: Overlay, costs: Costs, mode: Mode, me: nat, dest: nat, g: Graph, j: nat)
    requires Built(o, costs, mode, me, dest, g) && j < |g.arcs|
    ensures o.Valid() && |g.w| == |g.arcs| && SaneCosts(costs, mode) && g.arcs == EdgeArcs(o, |o.edges|)
    ensures g.arcs[j].Link? ==>
              var a := g.arcs[j];
              && EdgeKey(a.src, a.dst) in costs.Keys && EdgeKey(a.dst, a.src) in costs.Keys
              && g.w[j] == ArcWeight(a, costs, mode)
  {
    hide EdgeArcs, ArcWeight, SaneCosts, SplitNetwork;
  }

  /** There is a usable arc exactly for the links that count. */
  lemma ArcsAreHops(o: Overlay, costs: Costs, mode: Mode, me: nat, dest: nat, g: Graph, x: nat, y: nat)
    requires Built(o, costs, mode, me, dest, g)
    ensures |g.w| == |g.arcs| && (Linked(g, x, y) <==> Hop(o, costs, mode, x, y))
    ensures Linked(g, x, y) ==> g.w[LinkNo(g, x, y)].value == Price(costs, mode, x, y)
  {
    assert |g.w| == |g.arcs| && o.Valid() && g.arcs == EdgeArcs(o, |o.edges|) by { hide EdgeArcs, Weights; }
    hide Built, EdgeArcs, ArcWeight, Price, Up, SaneCosts, Leads;
    if Linked(g, x, y) {
      var j := LinkNo(g, x, y);
      BuiltArcs(o, costs, mode, me, dest, g, j);
      WeightIs(g.arcs[j], costs, mode);
      var i := EdgeFor(o, j);
    }
    if Hop(o, costs, mode, x, y) {
      var i: nat :| Leads(o, i, x, y);
      var j := ArcFor(o, i, x, y);
      BuiltArcs(o, costs, mode, me, dest, g, j);
      WeightIs(g.arcs[j], costs, mode);
      assert IsLinkArc(g, j, x, y);
    }
  }

  // ---------------------------------------------------------------- paths

  lemma HopEnds(o: Overlay, costs: Costs, mode: Mode, x: nat, y: nat)
    requires o.Valid() && Hop(o, costs, mode, x, y)
    ensures x in o.hosts && y in o.hosts
  {}

  lemma BuiltHosts(o: Overlay, costs: Costs, mode: Mode, me: nat, dest: nat, g: Graph, x: nat)
    requires Built(o, costs, mode, me, dest, g) && x in o.hosts
    ensures HasSplit(g, x)
  {
    HostSplit(o, g, x);
  }

  lemma BuiltParts(o: Overlay, costs: Costs, mode: Mode, me: nat, dest: nat, g: Graph)
    requires Built(o, costs, mode, me, dest, g)
    ensures o.Valid() && |g.w| == |g.arcs| && me != dest && SplitNetwork(g, me, dest)
    ensures Configured(o, costs, me, dest) && SaneCosts(costs, mode) && g == NetworkOf(o, costs, mode, me, dest)
  {
    hide EdgeArcs, Weights, SaneCosts;
  }

  /** The paths of the network are the paths over links that count, at the same cost. */
  lemma PathsAgree(o: Overlay, costs: Costs, mode: Mode, me: nat, dest: nat, g: Graph, p: seq<nat>)
    requires Built(o, costs, mode, me, dest, g) && |g.w| == |g.arcs|
    ensures OverlayPath(g, me, dest, p) <==> HostPath(o, costs, mode, me, dest, p)
  {
    BuiltParts(o, costs, mode, me, dest, g);
    hide Built, Hop, Linked, HasSplit, SplitNetwork, Configured, SaneCosts;
    forall i | 0 <= i < |p| - 1 ensures Linked(g, p[i], p[i + 1]) <==> Hop(o, costs, mode, p[i], p[i + 1]) {
      ArcsAreHops(o, costs, mode, me, dest, g, p[i], p[i + 1]);
    }
    if HostPath(o, costs, mode, me, dest, p) {
      forall i | 0 < i < |p| - 1 ensures HasSplit(g, p[i]) {
        HopEnds(o, costs, mode, p[i], p[i + 1]);
        BuiltHosts(o, costs, mode, me, dest, g, p[i]);
      }
    }
  }

  lemma {:induction false} PricesAgree(o: Overlay, costs: Costs, mode: Mode, me: nat, dest: nat, g: Graph, p: seq<nat>)
    requires Built(o, costs, mode, me, dest, g) && |g.w| == |g.arcs|
    requires forall i :: 0 <= i < |p| - 1 ==> Hop(o, costs, mode, p[i], p[i + 1])
    requires forall i :: 0 <= i < |p| - 1 ==> Linked(g, p[i], p[i + 1])
    ensures PathCost(g, p) == PathPrice(o, costs, mode, p)
  {
    hide Built, Hop, Linked;
    if |p| >= 2 {
      var n := |p|;
      ArcsAreHops(o, costs, mode, me, dest, g, p[n - 2], p[n - 2 + 1]);
      PricesAgree(o, costs, mode, me, dest, g, p[..n - 1]);
    }
  }

  lemma SystemsAgree(o: Overlay, costs: Costs, mode: Mode, me: nat, dest: nat, g: Graph, ps: seq<seq<nat>>)
    requires Built(o, costs, mode, me, dest, g) && |g.w| == |g.arcs|
    ensures DisjointSystem(g, me, dest, ps) <==> HostPaths(o, costs, mode, me, dest, ps)
  {
    hide Built, OverlayPath, HostPath;
    forall i | 0 <= i < |ps|
      ensures OverlayPath(g, me, dest, ps[i]) <==> HostPath(o, costs, mode, me, dest, ps[i])
    {
      PathsAgree(o, costs, mode, me, dest, g, ps[i]);
    }
  }

  lemma LastPath(o: Overlay, costs: Costs, mode: Mode, me: nat, dest: nat, ps: seq<seq<nat>>)
    requires HostPaths(o, costs, mode, me, dest, ps) && ps != []
    ensures HostPaths(o, costs, mode, me, dest, ps[..|ps| - 1])
    ensures var p := ps[|ps| - 1];
            && (forall i :: 0 <= i < |p| - 1 ==> Hop(o, costs, mode, p[i], p[i + 1]))
            && PathsPrice(o, costs, mode, me, dest, ps)
                 == PathsPrice(o, costs, mode, me, dest, ps[..|ps| - 1]) + PathPrice(o, costs, mode, p)
  {
    hide Hop, Apart;
  }

  lemma LastInSystem(g: Graph, me: nat, dest: nat, ps: seq<seq<nat>>)
    requires |g.w| == |g.arcs| && DisjointSystem(g, me, dest, ps) && ps != []
    ensures DisjointSystem(g, me, dest, ps[..|ps| - 1])
    ensures var p := ps[|ps| - 1];
            && (forall i :: 0 <= i < |p| - 1 ==> Linked(g, p[i], p[i + 1]))
            && SystemCost(g, me, dest, ps) == SystemCost(g, me, dest, ps[..|ps| - 1]) + PathCost(g, p)
  {
    hide Linked, Apart, HasSplit;
  }

  lemma {:induction false} SystemPrices(o: Overlay, costs: Costs, mode: Mode, me: nat, dest: nat, g: Graph,
                                        ps: seq<seq<nat>>)
    requires Built(o, costs, mode, me, dest, g) && |g.w| == |g.arcs|
    requires DisjointSystem(g, me, dest, ps) && HostPaths(o, costs, mode, me, dest, ps)
    ensures SystemCost(g, me, dest, ps) == PathsPrice(o, costs, mode, me, dest, ps)
  {
    if ps == [] {
      hide Built;
    } else {
      LastPath(o, costs, mode, me, dest, ps);
      LastInSystem(g, me, dest, ps);
      hide Built, Hop, Linked, Apart, DisjointSystem, HostPaths, SystemCost, PathsPrice, PathCost, PathPrice;
      PricesAgree(o, costs, mode, me, dest, g, ps[|ps| - 1]);
      SystemPrices(o, costs, mode, me, dest, g, ps[..|ps| - 1]);
    }
  }

  // ---------------------------------------------------------------- bits

  lemma {:induction false} HopArc(g: Graph, me: nat, q: seq<nat>, h: nat)
    requires |g.w| == |g.arcs| && PathFrom(g, me, q) && h < |q| - 1
    ensures Linked(g, q[h], q[h + 1]) && LinkNo(g, q[h], q[h + 1]) in PathArcs(g, me, q)
    decreases |q|
  {
    if h < |q| - 2 {
      PrefixPath(g, me, q);
      HopArc(g, me, q[..|q| - 1], h);
    }
  }

  lemma {:induction false} InSystem(g: Graph, me: nat, dest: nat, ps: seq<seq<nat>>, j: nat) returns (a: nat)
    requires |g.w| == |g.arcs| && DisjointSystem(g, me, dest, ps) && j in SystemArcs(g, me, dest, ps)
    ensures a < |ps| && j in PathArcs(g, me, ps[a])
  {
    if j in PathArcs(g, me, ps[|ps| - 1]) { a := |ps| - 1; } else { a := InSystem(g, me, dest, ps[..|ps| - 1], j); }
  }

  lemma BitUsed(o: Overlay, costs: Costs, mode: Mode, me: nat, dest: nat, g: Graph, ps: seq<seq<nat>>, j: nat)
    requires Built(o, costs, mode, me, dest, g) && |g.w| == |g.arcs| && DisjointSystem(g, me, dest, ps)
    requires j in SystemArcs(g, me, dest, ps) && j < |g.arcs| && g.arcs[j].Link?
    ensures g.arcs[j].index in BitsOf(o, ps)
  {
    BuiltArcs(o, costs, mode, me, dest, g, j);
    hide Built, EdgeArcs, SaneCosts, Leads, ArcWeight, Linked;
    var a := InSystem(g, me, dest, ps, j);
    PathArcsAlong(g, me, ps[a]);
    assert ArcAlong(g, ps[a], j);
    var h :| 0 <= h < |ps[a]| - 1 && IsLinkArc(g, j, ps[a][h], ps[a][h + 1]);
    var i := EdgeFor(o, j);
    assert HopOver(o, ps[a], h, i);
    assert PathOver(o, ps[a], i) && PathsOver(o, ps, i);
    LeadsIn(o, i, ps[a][h], ps[a][h + 1]);
  }

  lemma LeadsIn(o: Overlay, i: nat, x: nat, y: nat)
    requires Leads(o, i, x, y)
    ensures i < |o.edges|
  {}

  lemma UsedBit(o: Overlay, costs: Costs, mode: Mode, me: nat, dest: nat, g: Graph, ps: seq<seq<nat>>, i: nat)
    requires Built(o, costs, mode, me, dest, g) && SplitNetwork(g, me, dest) && DisjointSystem(g, me, dest, ps)
    requires i < |o.edges| && PathsOver(o, ps, i)
    ensures o.edges[i].index in SystemMask(g, me, dest, ps)
  {
    var a :| 0 <= a < |ps| && PathOver(o, ps[a], i);
    var h: nat :| HopOver(o, ps[a], h, i);
    var x, y := ps[a][h], ps[a][h + 1];
    HopArc(g, me, ps[a], h);
    PathInSystem(g, me, dest, ps, a);
    var j := LinkNo(g, x, y);
    BuiltArcs(o, costs, mode, me, dest, g, j);
    hide Built, EdgeArcs, SaneCosts, ArcWeight, Linked, SplitNetwork, SystemArcs, PathArcs, DisjointSystem;
    var k := EdgeFor(o, j);
    OneEdge(o, i, k, x, y);
  }

  lemma BitsAgree(o: Overlay, costs: Costs, mode: Mode, me: nat, dest: nat, g: Graph, ps: seq<seq<nat>>)
    requires Built(o, costs, mode, me, dest, g) && SplitNetwork(g, me, dest) && DisjointSystem(g, me, dest, ps)
    ensures SystemMask(g, me, dest, ps) == BitsOf(o, ps)
  {
    assert |g.w| == |g.arcs|;
    hide Built, SplitNetwork, DisjointSystem, SystemArcs, PathsOver;
    forall b | b in SystemMask(g, me, dest, ps) ensures b in BitsOf(o, ps) {
      var j :| j in SystemArcs(g, me, dest, ps) && j < |g.arcs| && g.arcs[j].Link? && g.arcs[j].index == b;
      BitUsed(o, costs, mode, me, dest, g, ps, j);
    }
    forall b | b in BitsOf(o, ps) ensures b in SystemMask(g, me, dest, ps) {
      var i: nat :| i < |o.edges| && PathsOver(o, ps, i) && o.edges[i].index == b;
      UsedBit(o, costs, mode, me, dest, g, ps, i);
    }
  }

  // ---------------------------------------------------------------- the theorems

  /** Bit `b` stands for an edge that counts in some direction. */
  ghost predicate BitUp(o: Overlay, costs: Costs, mode: Mode, b: nat) {
    exists i: nat, x: nat, y: nat :: Leads(o, i, x, y) && Up(costs, mode, x, y) && o.edges[i].index == b
  }

  lemma BitsUp(o: Overlay, costs: Costs, mode: Mode, me: nat, dest: nat, g: Graph, b: nat)
    requires Built(o, costs, mode, me, dest, g) && |g.w| == |g.arcs| && BitOfLink(g, b)
    ensures BitUp(o, costs, mode, b)
  {
    var j: nat :| j < |g.arcs| && g.arcs[j].Link? && g.Usable(j) && g.arcs[j].index == b;
    BuiltArcs(o, costs, mode, me, dest, g, j);
    hide Built, EdgeArcs, ArcWeight, SaneCosts, Up, Leads;
    WeightIs(g.arcs[j], costs, mode);
    var i := EdgeFor(o, j);
    LeadsIn(o, i, g.arcs[j].src, g.arcs[j].dst);
  }

  /** `ps` are `r` paths that share no host but their ends, no other `r` such paths are cheaper, and
      the mask has the bits of all their edges; none but these if every link costs something, and
      never that of a link that does not count. */
  ghost predicate Cheapest(o: Overlay, costs: Costs, mode: Mode, me: nat, dest: nat, ps: seq<seq<nat>>, r: nat,
                           mask: set<nat>)
  {
    && HostPaths(o, costs, mode, me, dest, ps) && |ps| == r
    && (forall qs :: HostPaths(o, costs, mode, me, dest, qs) && |qs| == r ==>
          PathsPrice(o, costs, mode, me, dest, ps) <= PathsPrice(o, costs, mode, me, dest, qs))
    && BitsOf(o, ps) <= mask && (NoneFree(o, costs, mode) ==> mask == BitsOf(o, ps))
    && forall b :: b in mask ==> BitUp(o, costs, mode, b)
  }

  /** Some `r` paths are cheaper than `price` by the sentinel or more. */
  ghost predicate FarBelow(o: Overlay, costs: Costs, mode: Mode, me: nat, dest: nat, r: nat, price: int) {
    exists ps :: HostPaths(o, costs, mode, me, dest, ps) && |ps| == r &&
                 PathsPrice(o, costs, mode, me, dest, ps) + 65535 <= price
  }

  /** Every `r + 1` paths cost 65535 more than some `r`, or there are none. */
  ghost predicate TooDear(o: Overlay, costs: Costs, mode: Mode, me: nat, dest: nat, r: nat) {
    forall qs :: HostPaths(o, costs, mode, me, dest, qs) && |qs| == r + 1 ==>
      FarBelow(o, costs, mode, me, dest, r, PathsPrice(o, costs, mode, me, dest, qs))
  }

  /** The computation stops at `r`: no step up to there is too dear, and the next is, short of `k`. */
  ghost predicate StopsAt(o: Overlay, costs: Costs, mode: Mode, me: nat, dest: nat, k: nat, r: nat) {
    && r <= k && (forall i: nat :: i < r ==> !TooDear(o, costs, mode, me, dest, i))
    && (r < k ==> TooDear(o, costs, mode, me, dest, r))
  }

  lemma FreeAgree(o: Overlay, costs: Costs, mode: Mode, me: nat, dest: nat, g: Graph)
    requires Built(o, costs, mode, me, dest, g) && |g.w| == |g.arcs|
    ensures NoneFree(o, costs, mode) ==> Costly(g)
  {
    if NoneFree(o, costs, mode) {
      forall j | 0 <= j < |g.arcs| && g.arcs[j].Link? && g.Usable(j) ensures g.w[j].value > 0 {
        var a := g.arcs[j];
        BuiltArcs(o, costs, mode, me, dest, g, j);
        hide Built, EdgeArcs, ArcWeight, SaneCosts, Leads, Up, Price;
        assert IsLinkArc(g, j, a.src, a.dst);
        ArcsAreHops(o, costs, mode, me, dest, g, a.src, a.dst);
        WeightIs(a, costs, mode);
      }
    }
  }

  lemma BestParts(g: Graph, me: nat, dest: nat, ps: seq<seq<nat>>, r: nat, mask: set<nat>)
    requires SplitNetwork(g, me, dest) && BestPaths(g, me, dest, ps, r, mask)
    ensures |g.w| == |g.arcs| && DisjointSystem(g, me, dest, ps) && |ps| == r && SystemMask(g, me, dest, ps) <= mask
  {
    hide SystemMask, DisjointSystem;
  }

  lemma CheapestIs(o: Overlay, costs: Costs, mode: Mode, me: nat, dest: nat, g: Graph, ps: seq<seq<nat>>, r: nat,
                   mask: set<nat>)
    requires Built(o, costs, mode, me, dest, g) && SplitNetwork(g, me, dest) && |g.w| == |g.arcs|
    requires BestPaths(g, me, dest, ps, r, mask) && (Costly(g) ==> SystemMask(g, me, dest, ps) == mask)
    requires forall b :: b in mask ==> BitOfLink(g, b)
    ensures Cheapest(o, costs, mode, me, dest, ps, r, mask)
  {
    hide *;
    BestParts(g, me, dest, ps, r, mask);
    FreeAgree(o, costs, mode, me, dest, g);
    forall b | b in mask ensures BitUp(o, costs, mode, b) { BitsUp(o, costs, mode, me, dest, g, b); }
    BitsAgree(o, costs, mode, me, dest, g, ps);
    SystemsAgree(o, costs, mode, me, dest, g, ps);
    forall qs | HostPaths(o, costs, mode, me, dest, qs) && |qs| == r
      ensures PathsPrice(o, costs, mode, me, dest, ps) <= PathsPrice(o, costs, mode, me, dest, qs)
    {
      NoneCheaper(o, costs, mode, me, dest, g, ps, r, mask, qs);
    }
    CheapestFrom(o, costs, mode, me, dest, ps, r, mask);
  }

  lemma CheapestFrom(o: Overlay, costs: Costs, mode: Mode, me: nat, dest: nat, ps: seq<seq<nat>>, r: nat,
                     mask: set<nat>)
    requires HostPaths(o, costs, mode, me, dest, ps) && |ps| == r
    requires forall qs :: HostPaths(o, costs, mode, me, dest, qs) && |qs| == r ==>
               PathsPrice(o, costs, mode, me, dest, ps) <= PathsPrice(o, costs, mode, me, dest, qs)
    requires BitsOf(o, ps) <= mask && (NoneFree(o, costs, mode) ==> mask == BitsOf(o, ps))
    requires forall b :: b in mask ==> BitUp(o, costs, mode, b)
    ensures Cheapest(o, costs, mode, me, dest, ps, r, mask)
  {
    hide HostPaths, PathsPrice, BitsOf, NoneFree, BitUp;
  }

  lemma NoneCheaper(o: Overlay, costs: Costs, mode: Mode, me: nat, dest: nat, g: Graph, ps: seq<seq<nat>>, r: nat,
                    mask: set<nat>, qs: seq<seq<nat>>)
    requires Built(o, costs, mode, me, dest, g) && SplitNetwork(g, me, dest) && |g.w| == |g.arcs|
    requires BestPaths(g, me, dest, ps, r, mask)
    requires HostPaths(o, costs, mode, me, dest, ps)
    requires HostPaths(o, costs, mode, me, dest, qs) && |qs| == r
    ensures PathsPrice(o, costs, mode, me, dest, ps) <= PathsPrice(o, costs, mode, me, dest, qs)
  {
    hide Built, SplitNetwork, DisjointSystem, HostPaths, SystemMask, SystemCost, PathsPrice;
    SystemPrices(o, costs, mode, me, dest, g, ps);
    SystemsAgree(o, costs, mode, me, dest, g, qs);
    SystemPrices(o, costs, mode, me, dest, g, qs);
  }

  /** The computation always answers, with `r <= k` paths that share no host but their ends and are
      cheapest in total among all such over links that count. */
  lemma AnswersCheapest(o: Overlay, costs: Costs, mode: Mode, me: nat, dest: nat, k: nat) returns (ps: seq<seq<nat>>)
    requires Configured(o, costs, me, dest) && me != dest && SaneCosts(costs, mode)
    ensures match Compute(o, costs, mode, me, dest, k)
            case Some(Answer(r, mask)) => r <= k && Cheapest(o, costs, mode, me, dest, ps, r, mask)
            case None => false
  {
    var g := BuiltIs(o, costs, mode, me, dest);
    BuiltParts(o, costs, mode, me, dest, g);
    ps := ComputesBestPaths(o, costs, mode, me, dest, k);
    hide Built, SplitNetwork, Cheapest, BestPaths, Compute, Configured, SaneCosts, NetworkOf, BitOfLink;
    var a := Compute(o, costs, mode, me, dest, k).value;
    CheapestIs(o, costs, mode, me, dest, g, ps, a.found, a.mask);
  }

  lemma FarAgree(o: Overlay, costs: Costs, mode: Mode, me: nat, dest: nat, g: Graph, r: nat, price: int)
    requires Built(o, costs, mode, me, dest, g) && SplitNetwork(g, me, dest) && |g.w| == |g.arcs|
    ensures DearerThanSome(g, me, dest, r, price) <==> FarBelow(o, costs, mode, me, dest, r, price)
  {
    hide Built, SplitNetwork, DisjointSystem, HostPaths, SystemCost, PathsPrice;
    if DearerThanSome(g, me, dest, r, price) {
      var ps :| DisjointSystem(g, me, dest, ps) && |ps| == r && price >= SystemCost(g, me, dest, ps) + UNREACHED;
      SystemsAgree(o, costs, mode, me, dest, g, ps);
      SystemPrices(o, costs, mode, me, dest, g, ps);
    }
    if FarBelow(o, costs, mode, me, dest, r, price) {
      var ps :| HostPaths(o, costs, mode, me, dest, ps) && |ps| == r
                && PathsPrice(o, costs, mode, me, dest, ps) + 65535 <= price;
      SystemsAgree(o, costs, mode, me, dest, g, ps);
      SystemPrices(o, costs, mode, me, dest, g, ps);
    }
  }

  lemma DearAgree(o: Overlay, costs: Costs, mode: Mode, me: nat, dest: nat, g: Graph, r: nat)
    requires Built(o, costs, mode, me, dest, g) && SplitNetwork(g, me, dest) && |g.w| == |g.arcs|
    ensures Dear(g, me, dest, r) <==> TooDear(o, costs, mode, me, dest, r)
  {
    hide Built, SplitNetwork, DisjointSystem, HostPaths, SystemCost, PathsPrice, FarBelow, DearerThanSome;
    if Dear(g, me, dest, r) {
      forall qs | HostPaths(o, costs, mode, me, dest, qs) && |qs| == r + 1
        ensures FarBelow(o, costs, mode, me, dest, r, PathsPrice(o, costs, mode, me, dest, qs))
      {
        SystemsAgree(o, costs, mode, me, dest, g, qs);
        SystemPrices(o, costs, mode, me, dest, g, qs);
        FarAgree(o, costs, mode, me, dest, g, r, SystemCost(g, me, dest, qs));
      }
    }
    if TooDear(o, costs, mode, me, dest, r) {
      forall qs | DisjointSystem(g, me, dest, qs) && |qs| == r + 1
        ensures DearerThanSome(g, me, dest, r, SystemCost(g, me, dest, qs))
      {
        SystemsAgree(o, costs, mode, me, dest, g, qs);
        SystemPrices(o, costs, mode, me, dest, g, qs);
        FarAgree(o, costs, mode, me, dest, g, r, SystemCost(g, me, dest, qs));
      }
    }
  }

  /** As many paths are found as the steps before the first that is too dear, or `k`. */
  lemma AnswersExactly(o: Overlay, costs: Costs, mode: Mode, me: nat, dest: nat, k: nat, r: nat)
    requires Configured(o, costs, me, dest) && me != dest && SaneCosts(costs, mode)
    ensures var a := Compute(o, costs, mode, me, dest, k);
            a.Some? && (a.value.found == r <==> StopsAt(o, costs, mode, me, dest, k, r))
  {
    var g := BuiltIs(o, costs, mode, me, dest);
    BuiltParts(o, costs, mode, me, dest, g);
    StopsExactly(o, costs, mode, me, dest, k, r);
    hide Built, SplitNetwork, Compute, Configured, SaneCosts, Dear, TooDear, NetworkOf;
    forall i: nat ensures Dear(g, me, dest, i) <==> TooDear(o, costs, mode, me, dest, i) {
      DearAgree(o, costs, mode, me, dest, g, i);
    }
  }

  // ---------------------------------------------------------------- all paths there are

  ghost function PriceOrNothing(costs: Costs, mode: Mode, x: nat, y: nat): int {
    if Up(costs, mode, x, y) then Price(costs, mode, x, y) else 0
  }

  /** What the links of the first `n` edges cost together. */
  ghost function AllPrices(o: Overlay, costs: Costs, mode: Mode, n: nat): int
    requires n <= |o.edges|
  {
    if n == 0 then 0
    else
      var e := o.edges[n - 1];
      AllPrices(o, costs, mode, n - 1) + PriceOrNothing(costs, mode, e.src, e.dst) +
      if o.directed then 0 else PriceOrNothing(costs, mode, e.dst, e.src)
  }

  function WorthOf(w: Option<int>): int { if w.Some? then w.value else 0 }

  lemma TotalFew(v: seq<Option<int>>)
    requires |v| == 1 || |v| == 2
    ensures TotalCost(v) == WorthOf(v[0]) + if |v| == 2 then WorthOf(v[1]) else 0
  {
    assert v[..1][..0] == [] && TotalCost(v[..1][..0]) == 0;
    assert v[..1][0] == v[0];
    assert TotalCost(v[..1]) == WorthOf(v[0]);
    if |v| == 1 { assert v[..1] == v; }
  }

  lemma WeighsSome(a: Arc, costs: Costs, mode: Mode)
    requires a.Link? && EdgeKey(a.src, a.dst) in costs.Keys && EdgeKey(a.dst, a.src) in costs.Keys
    requires SaneCosts(costs, mode)
    ensures WorthOf(ArcWeight(a, costs, mode)) == PriceOrNothing(costs, mode, a.src, a.dst)
  {
    WeightIs(a, costs, mode);
    hide ArcWeight, Up, Price, SaneCosts;
  }

  lemma PricedPart(a: seq<Arc>, b: seq<Arc>, costs: Costs, mode: Mode)
    requires Priced(a + b, costs)
    ensures Priced(a, costs) && Priced(b, costs)
    ensures Weights(a + b, costs, mode) == Weights(a, costs, mode) + Weights(b, costs, mode)
  {
    assert forall j :: 0 <= j < |a| ==> (a + b)[j] == a[j];
    assert forall j :: 0 <= j < |b| ==> (a + b)[|a| + j] == b[j];
    hide ArcWeight;
  }

  lemma HostsFree(o: Overlay, costs: Costs, mode: Mode)
    requires Priced(HostArcs(o, |o.hosts|), costs)
    ensures TotalCost(Weights(HostArcs(o, |o.hosts|), costs, mode)) == 0
  {
    HostPlaces(o, |o.hosts|);
    var arcs := HostArcs(o, |o.hosts|);
    forall j | 0 <= j < |arcs| ensures arcs[j].Split? {
      var i := |arcs| - 1 - j;
      assert arcs[|arcs| - 1 - i] == Split(o.hosts[i]);
    }
    TotalOfNothing(Weights(arcs, costs, mode));
  }

  /** The arcs of one edge. */
  ghost function OwnArcs(o: Overlay, e: Edge): seq<Arc> {
    (if o.directed then [] else [Link(e.dst, e.src, e.index)]) + [Link(e.src, e.dst, e.index)]
  }

  lemma OwnTotal(o: Overlay, e: Edge, costs: Costs, mode: Mode)
    requires Priced(OwnArcs(o, e), costs) && SaneCosts(costs, mode)
    ensures TotalCost(Weights(OwnArcs(o, e), costs, mode)) == PriceOrNothing(costs, mode, e.src, e.dst) +
              if o.directed then 0 else PriceOrNothing(costs, mode, e.dst, e.src)
  {
    var arcs := OwnArcs(o, e);
    assert arcs[|arcs| - 1] == Link(e.src, e.dst, e.index);
    hide ArcWeight, PriceOrNothing, SaneCosts;
    forall j | 0 <= j < |arcs|
      ensures WorthOf(ArcWeight(arcs[j], costs, mode)) == PriceOrNothing(costs, mode, arcs[j].src, arcs[j].dst)
    {
      WeighsSome(arcs[j], costs, mode);
    }
    TotalFew(Weights(arcs, costs, mode));
  }

  lemma {:induction false} TotalsAgree(o: Overlay, costs: Costs, mode: Mode, n: nat)
    requires n <= |o.edges| && Priced(EdgeArcs(o, n), costs) && SaneCosts(costs, mode)
    ensures TotalCost(Weights(EdgeArcs(o, n), costs, mode)) == AllPrices(o, costs, mode, n)
  {
    if n == 0 {
      HostsFree(o, costs, mode);
    } else {
      var e, rest := o.edges[n - 1], EdgeArcs(o, n - 1);
      assert EdgeArcs(o, n) == OwnArcs(o, e) + rest;
      hide EdgeArcs, OwnArcs, Weights, SaneCosts, Priced, PriceOrNothing;
      PricedPart(OwnArcs(o, e), rest, costs, mode);
      OwnTotal(o, e, costs, mode);
      TotalJoin(Weights(OwnArcs(o, e), costs, mode), Weights(rest, costs, mode));
      TotalsAgree(o, costs, mode, n - 1);
    }
  }

  /** While all links that count cost less than 65535 together, the computation stops short of `k`
      only when there are no more paths. */
  lemma AnswersMost(o: Overlay, costs: Costs, mode: Mode, me: nat, dest: nat, k: nat, qs: seq<seq<nat>>)
    requires Configured(o, costs, me, dest) && me != dest && SaneCosts(costs, mode)
    requires AllPrices(o, costs, mode, |o.edges|) < 65535 && HostPaths(o, costs, mode, me, dest, qs)
    ensures var a := Compute(o, costs, mode, me, dest, k);
            a.Some? && (|qs| <= a.value.found || a.value.found == k)
  {
    var g := BuiltIs(o, costs, mode, me, dest);
    BuiltParts(o, costs, mode, me, dest, g);
    SystemsAgree(o, costs, mode, me, dest, g, qs);
    TotalsAgree(o, costs, mode, |o.edges|);
    assert g.w == Weights(EdgeArcs(o, |o.edges|), costs, mode);
    hide Built, SplitNetwork, Compute, Configured, SaneCosts, DisjointSystem, HostPaths, NetworkOf, AllPrices, EdgeArcs;
    ComputesMostPaths(o, costs, mode, me, dest, k, qs);
  }

  /** Whether a configuration is one the computation can work on, read off the configuration. */
  lemma ConfiguredIs(o: Overlay, costs: Costs, me: nat, dest: nat)
    ensures Configured(o, costs, me, dest) <==>
              && o.Valid() && me in o.hosts && dest in o.hosts
              && forall i {:trigger o.edges[i]} :: 0 <= i < |o.edges| ==>
                   var e := o.edges[i]; EdgeKey(e.src, e.dst) in costs && EdgeKey(e.dst, e.src) in costs
  {
    if o.Valid() {
      hide EdgeArcs;
      forall i {:trigger o.edges[i]} | 0 <= i < |o.edges|
        ensures var e := o.edges[i];
                Priced(EdgeArcs(o, |o.edges|), costs) ==>
                  EdgeKey(e.src, e.dst) in costs && EdgeKey(e.dst, e.src) in costs
      {
        var j := ArcFor(o, i, o.edges[i].src, o.edges[i].dst);
      }
      forall j | 0 <= j < |EdgeArcs(o, |o.edges|)| && EdgeArcs(o, |o.edges|)[j].Link?
        ensures var a := EdgeArcs(o, |o.edges|)[j];
                exists i: nat :: Leads(o, i, a.src, a.dst)
      {
        var i := EdgeFor(o, j);
      }
    }
  }
}
