/** What the k-paths computation answers, and why the answer is right. */
module KPaths {
  import opened Wrappers
  import opened FlowNetwork
  import opened BellmanFord
  import opened Augmentation
  import opened MinCostFlow
  import opened DisjointPaths
  import opened Topology
  import opened Sums
  import opened GraphChoice

  /** The two costs an edge carries: the current one, negative while the link has a problem and -1
      while it is down, and the configured one. */
  datatype LinkCost = LinkCost(cost: int, base: int)

  type Costs = map<EdgeKey, LinkCost>

  /** Which costs to use, and whether a link counts only when both its directions work. */
  datatype Mode = Mode(useBase: bool, bothWays: bool)

  /** Every arc's link is known in both directions; initialisation exits otherwise. */
  ghost predicate Priced(arcs: seq<Arc>, costs: Costs) {
    forall j :: 0 <= j < |arcs| && arcs[j].Link? ==>
      EdgeKey(arcs[j].src, arcs[j].dst) in costs.Keys && EdgeKey(arcs[j].dst, arcs[j].src) in costs.Keys
  }

  /** The cost of an arc as the relaxation loop computes it; None skips the arc and its twin. */
  function ArcWeight(a: Arc, costs: Costs, mode: Mode): Option<int>
    requires a.Link? ==> EdgeKey(a.src, a.dst) in costs.Keys && EdgeKey(a.dst, a.src) in costs.Keys
  {
    if a.Split? then Some(0)
    else
      var there, back := costs[EdgeKey(a.src, a.dst)], costs[EdgeKey(a.dst, a.src)];
      if mode.useBase then
        Some(if mode.bothWays && !(there.base > back.base) then back.base else there.base)
      else if there.cost == -1 || (mode.bothWays && back.cost == -1) then None
      else
        var c1, c2 := Abs16(there.cost), Abs16(back.cost);
        Some(if mode.bothWays && !(c1 > c2) then c2 else c1)
  }

  function Weights(arcs: seq<Arc>, costs: Costs, mode: Mode): seq<Option<int>>
    requires Priced(arcs, costs)
  {
    seq(|arcs|, j requires 0 <= j < |arcs| => ArcWeight(arcs[j], costs, mode))
  }

  /** The configuration is sound and both ends are in it. */
  ghost predicate Configured(o: Overlay, costs: Costs, me: nat, dest: nat) {
    o.Valid() && me in o.hosts && dest in o.hosts && Priced(EdgeArcs(o, |o.edges|), costs)
  }

  function NetworkOf(o: Overlay, costs: Costs, mode: Mode, me: nat, dest: nat): Graph
    requires Priced(EdgeArcs(o, |o.edges|), costs)
  {
    var arcs := EdgeArcs(o, |o.edges|);
    Graph(o.Halves(), arcs, Weights(arcs, costs, mode), Out(me), In(dest))
  }

  /** How many passes one search may take. */
  function PassLimit(o: Overlay): nat { 2 * |o.hosts| + 1 }

  /** The answer: how many paths were found, and the bitmask as the set of its one-bits. */
  datatype Answer = Answer(found: nat, mask: set<nat>)

  function MaskOf(arcs: seq<Arc>, bag: set<Entry>): set<nat> {
    set e | e in bag && e.arc < |arcs| && arcs[e.arc].Link? :: arcs[e.arc].index
  }

  /** None: the program takes its fatal exit or never returns. */
  function Compute(o: Overlay, costs: Costs, mode: Mode, me: nat, dest: nat, k: nat): Option<Answer>
    requires Configured(o, costs, me, dest)
  {
    if dest == me then Some(Answer(k, {}))
    else
      var g := NetworkOf(o, costs, mode, me, dest);
      NetworkValid(o, costs, mode, me, dest);
      match Rounds(g, PassLimit(o), k)
      case Active(found, flow, bag) => Some(Answer(found, MaskOf(g.arcs, bag)))
      case Exhausted(found, flow, bag) => Some(Answer(found, MaskOf(g.arcs, bag)))
      case _ => None
  }

  /** How the answer reads off where the rounds ended. */
  lemma AnswerFrom(o: Overlay, costs: Costs, mode: Mode, me: nat, dest: nat, k: nat, found: nat, bag: set<Entry>)
    requires Configured(o, costs, me, dest) && me != dest && NetworkOf(o, costs, mode, me, dest).Valid()
    ensures var r := Rounds(NetworkOf(o, costs, mode, me, dest), PassLimit(o), k);
            if (r.Active? || r.Exhausted?) && r.found == found && r.bag == bag
              then Compute(o, costs, mode, me, dest, k) == Some(Answer(found, MaskOf(EdgeArcs(o, |o.edges|), bag)))
              else r.NegativeCycle? || r.Stuck? ==> Compute(o, costs, mode, me, dest, k) == None
  {
    NetworkValid(o, costs, mode, me, dest);
  }

  lemma NetworkValid(o: Overlay, costs: Costs, mode: Mode, me: nat, dest: nat)
    requires Configured(o, costs, me, dest) && me != dest
    ensures SplitNetwork(NetworkOf(o, costs, mode, me, dest), me, dest)
    ensures PassLimit(o) >= |o.Halves()|
  {
    BuiltNetwork(o, Weights(EdgeArcs(o, |o.edges|), costs, mode), me, dest);
    HalfCount(o);
  }

  // ---------------------------------------------------------------- the theorems

  /** No cost is the one 16-bit value whose absolute value is negative, and no configured cost is
      negative where configured costs are used. */
  ghost predicate SaneCosts(costs: Costs, mode: Mode) {
    forall key :: key in costs ==> if mode.useBase then costs[key].base >= 0 else costs[key].cost > -32768
  }

  lemma SaneWeights(o: Overlay, costs: Costs, mode: Mode, me: nat, dest: nat)
    requires Priced(EdgeArcs(o, |o.edges|), costs) && SaneCosts(costs, mode)
    ensures NonNegative(NetworkOf(o, costs, mode, me, dest))
  {
    var arcs := EdgeArcs(o, |o.edges|);
    forall j | 0 <= j < |arcs| && Weights(arcs, costs, mode)[j].Some? ensures 0 <= Weights(arcs, costs, mode)[j].value {
      if arcs[j].Link? {
        assert EdgeKey(arcs[j].src, arcs[j].dst) in costs.Keys;
      }
    }
  }

  /** The links on the paths of a system, as bits of the mask. */
  ghost function SystemMask(g: Graph, me: nat, dest: nat, ps: seq<seq<nat>>): set<nat>
    requires SplitNetwork(g, me, dest) && DisjointSystem(g, me, dest, ps)
  {
    set j | j in SystemArcs(g, me, dest, ps) && j < |g.arcs| && g.arcs[j].Link? :: g.arcs[j].index
  }

  /** `ps` are `r` node-disjoint paths whose links the mask lights up, and no other `r`
      node-disjoint paths are cheaper in total. */
  ghost predicate BestPaths(g: Graph, me: nat, dest: nat, ps: seq<seq<nat>>, r: nat, mask: set<nat>)
    requires SplitNetwork(g, me, dest)
  {
    && DisjointSystem(g, me, dest, ps) && |ps| == r
    && SystemMask(g, me, dest, ps) <= mask
    && (forall qs :: DisjointSystem(g, me, dest, qs) && |qs| == r ==>
          SystemCost(g, me, dest, ps) <= SystemCost(g, me, dest, qs))
  }

  ghost predicate Costly(g: Graph)
    requires |g.w| == |g.arcs|
  {
    forall j :: 0 <= j < |g.arcs| && g.arcs[j].Link? && g.Usable(j) ==> g.w[j].value > 0
  }

  lemma InsideCost(g: Graph, me: nat, dest: nat, f: set<nat>, ps: seq<seq<nat>>)
    requires SplitNetwork(g, me, dest) && NonNegative(g)
    requires DisjointSystem(g, me, dest, ps) && SystemArcs(g, me, dest, ps) <= f
    ensures SystemCost(g, me, dest, ps) <= WSum(f, Prices(g))
  {
    SystemCarries(g, me, dest, ps);
    var h := SystemArcs(g, me, dest, ps);
    assert f == h + (f - h);
    WSumDisjoint(h, f - h, Prices(g));
    WSumNonNegative(f - h, Prices(g));
  }

  lemma CheapestSystem(g: Graph, me: nat, dest: nat, flow: Flow, bag: set<Entry>, r: nat, ps: seq<seq<nat>>,
                       qs: seq<seq<nat>>)
    requires SplitNetwork(g, me, dest) && FlowOk(g, flow, bag, r) && NonNegative(g)
    requires DisjointSystem(g, me, dest, ps) && SystemArcs(g, me, dest, ps) <= Saturated(flow)
    requires DisjointSystem(g, me, dest, qs) && |qs| == r
    ensures SystemCost(g, me, dest, ps) <= SystemCost(g, me, dest, qs)
  {
    InsideCost(g, me, dest, Saturated(flow), ps);
    SystemCarries(g, me, dest, qs);
    CheapestFlow(g, flow, bag, r, SystemArcs(g, me, dest, qs));
  }

  lemma FlowParts(g: Graph, flow: Flow, bag: set<Entry>, r: int)
    requires FlowOk(g, flow, bag, r)
    ensures g.Valid() && NonNegative(g) && bag == RealEntries(Saturated(flow))
    ensures UsesUsable(g, Saturated(flow)) && OneWay(g, Saturated(flow)) && Carries(g, Saturated(flow), r)
  {
    var pi :| FlowInv(g, flow, bag, r, pi);
    hide NonNegative, Carries, Feasible, Saturated, RealEntries;
  }

  /** The mask lights the links of every system inside the flow. */
  lemma LitMask(g: Graph, me: nat, dest: nat, f: set<nat>, ps: seq<seq<nat>>)
    requires SplitNetwork(g, me, dest) && UsesUsable(g, f)
    requires DisjointSystem(g, me, dest, ps) && SystemArcs(g, me, dest, ps) <= f
    ensures SystemMask(g, me, dest, ps) <= MaskOf(g.arcs, RealEntries(f))
    ensures SystemArcs(g, me, dest, ps) == f ==> SystemMask(g, me, dest, ps) == MaskOf(g.arcs, RealEntries(f))
  {
    hide SplitNetwork, DisjointSystem, SystemArcs;
    assert forall j :: j in f ==> Entry(j, false) in RealEntries(f);
  }

  /** Bit `b` belongs to a usable link. */
  ghost predicate BitOfLink(g: Graph, b: nat)
    requires |g.w| == |g.arcs|
  {
    exists j: nat :: j < |g.arcs| && g.arcs[j].Link? && g.Usable(j) && g.arcs[j].index == b
  }

  lemma MaskFromLinks(g: Graph, f: set<nat>)
    requires |g.w| == |g.arcs| && UsesUsable(g, f)
    ensures forall b :: b in MaskOf(g.arcs, RealEntries(f)) ==> BitOfLink(g, b)
  {}

  lemma FlowHoldsBestPaths(g: Graph, me: nat, dest: nat, flow: Flow, bag: set<Entry>, r: nat)
    returns (ps: seq<seq<nat>>)
    requires SplitNetwork(g, me, dest) && FlowOk(g, flow, bag, r)
    ensures forall b :: b in MaskOf(g.arcs, bag) ==> BitOfLink(g, b)
    ensures BestPaths(g, me, dest, ps, r, MaskOf(g.arcs, bag))
    ensures Costly(g) ==> SystemMask(g, me, dest, ps) == MaskOf(g.arcs, bag)
  {
    FlowParts(g, flow, bag, r);
    var f := Saturated(flow);
    ps := Decompose(g, me, dest, f, r);
    LitMask(g, me, dest, f, ps);
    MaskFromLinks(g, f);
    hide SplitNetwork, DisjointSystem, SystemArcs, SystemMask, SystemCost, MaskOf, Saturated, RealEntries, BitOfLink;
    forall qs | DisjointSystem(g, me, dest, qs) && |qs| == r
      ensures SystemCost(g, me, dest, ps) <= SystemCost(g, me, dest, qs)
    {
      CheapestSystem(g, me, dest, flow, bag, r, ps, qs);
    }
    if Costly(g) {
      NothingElse(g, me, dest, flow, bag, r, ps);
    }
  }

  /** The computation always answers, with `r <= k` node-disjoint paths of least total cost; with
      positive link costs the mask is exactly their links. */
  lemma ComputesBestPaths(o: Overlay, costs: Costs, mode: Mode, me: nat, dest: nat, k: nat) returns (ps: seq<seq<nat>>)
    requires Configured(o, costs, me, dest) && me != dest
    requires SaneCosts(costs, mode)
    ensures SplitNetwork(NetworkOf(o, costs, mode, me, dest), me, dest)
    ensures var g := NetworkOf(o, costs, mode, me, dest);
            match Compute(o, costs, mode, me, dest, k)
            case Some(Answer(r, mask)) =>
              && r <= k && BestPaths(g, me, dest, ps, r, mask) && (Costly(g) ==> SystemMask(g, me, dest, ps) == mask)
              && forall b :: b in mask ==> BitOfLink(g, b)
            case None => false
  {
    var g := NetworkOf(o, costs, mode, me, dest);
    NetworkValid(o, costs, mode, me, dest);
    SaneWeights(o, costs, mode, me, dest);
    RoundsOk(g, PassLimit(o), k);
    var r := Rounds(g, PassLimit(o), k);
    ps := FlowHoldsBestPaths(g, me, dest, r.flow, r.bag, r.found);
  }

  // ---------------------------------------------------------------- where it stops

  /** Every `r + 1` node-disjoint paths cost at least the sentinel more than some `r`. */
  ghost predicate Dear(g: Graph, me: nat, dest: nat, r: nat)
    requires SplitNetwork(g, me, dest)
  {
    forall qs :: DisjointSystem(g, me, dest, qs) && |qs| == r + 1 ==>
      DearerThanSome(g, me, dest, r, SystemCost(g, me, dest, qs))
  }

  ghost predicate DearerThanSome(g: Graph, me: nat, dest: nat, r: nat, cost: int)
    requires SplitNetwork(g, me, dest)
  {
    exists ps :: DisjointSystem(g, me, dest, ps) && |ps| == r && cost >= SystemCost(g, me, dest, ps) + UNREACHED
  }

  lemma InsideFlow(g: Graph, me: nat, dest: nat, flow: Flow, bag: set<Entry>, r: nat) returns (ps: seq<seq<nat>>)
    requires SplitNetwork(g, me, dest) && FlowOk(g, flow, bag, r)
    ensures DisjointSystem(g, me, dest, ps) && |ps| == r
    ensures SystemCost(g, me, dest, ps) <= WSum(Saturated(flow), Prices(g))
  {
    var pi :| FlowInv(g, flow, bag, r, pi);
    ps := Decompose(g, me, dest, Saturated(flow), r);
    InsideCost(g, me, dest, Saturated(flow), ps);
  }

  /** The search comes up empty exactly when the next path is dear. */
  lemma NoCheapWalkIsDear(g: Graph, me: nat, dest: nat, passes: nat, flow: Flow, bag: set<Entry>, r: nat)
    requires SplitNetwork(g, me, dest) && FlowOk(g, flow, bag, r) && passes >= |g.nodes|
    ensures NoCheapWalk(g, flow) <==> Dear(g, me, dest, r)
  {
    if NoCheapWalk(g, flow) {
      var ps := InsideFlow(g, me, dest, flow, bag, r);
      forall qs | DisjointSystem(g, me, dest, qs) && |qs| == r + 1
        ensures DearerThanSome(g, me, dest, r, SystemCost(g, me, dest, qs))
      {
        SystemCarries(g, me, dest, qs);
        DearestUnit(g, flow, bag, r, SystemArcs(g, me, dest, qs));
      }
    } else {
      CheapNext(g, me, dest, passes, flow, bag, r);
    }
  }

  lemma CheapNext(g: Graph, me: nat, dest: nat, passes: nat, flow: Flow, bag: set<Entry>, r: nat)
    requires SplitNetwork(g, me, dest) && FlowOk(g, flow, bag, r) && passes >= |g.nodes| && !NoCheapWalk(g, flow)
    ensures !Dear(g, me, dest, r)
  {
    RoundOk(g, passes, r, flow, bag);
    var next := Round(g, passes, r, flow, bag);
    var qs := InsideFlow(g, me, dest, next.flow, next.bag, r + 1);
    forall ps | DisjointSystem(g, me, dest, ps) && |ps| == r
      ensures SystemCost(g, me, dest, qs) < SystemCost(g, me, dest, ps) + UNREACHED
    {
      SystemCarries(g, me, dest, ps);
      CheapestFlow(g, flow, bag, r, SystemArcs(g, me, dest, ps));
    }
  }

  /** `r` is the first number whose next path is dear, or `k` if there is none before. */
  ghost predicate FirstDear(g: Graph, me: nat, dest: nat, k: nat, r: nat)
    requires SplitNetwork(g, me, dest)
  {
    r <= k && (forall i: nat :: i < r ==> !Dear(g, me, dest, i)) && (r < k ==> Dear(g, me, dest, r))
  }

  lemma NextStop(g: Graph, me: nat, dest: nat, passes: nat, r: Progress, next: Progress)
    requires SplitNetwork(g, me, dest) && passes >= |g.nodes| && r.Active? && FlowOk(g, r.flow, r.bag, r.found)
    requires Fits(g, r.flow) && next == Round(g, passes, r.found, r.flow, r.bag) && (next.Active? || next.Exhausted?)
    requires FirstDear(g, me, dest, r.found, r.found)
    ensures FirstDear(g, me, dest, r.found + 1, next.found)
  {
    hide SplitNetwork, Round, FlowOk, NoCheapWalk, Dear;
    RoundOk(g, passes, r.found, r.flow, r.bag);
    NoCheapWalkIsDear(g, me, dest, passes, r.flow, r.bag, r.found);
  }

  lemma {:induction false} RoundsStop(g: Graph, me: nat, dest: nat, passes: nat, k: nat)
    requires SplitNetwork(g, me, dest) && NonNegative(g) && passes >= |g.nodes|
    ensures var r := Rounds(g, passes, k);
            Finished(g, k, r) && FirstDear(g, me, dest, k, r.found)
  {
    hide NonNegative, Round, FlowOk, NoCheapWalk, Dear;
    RoundsOk(g, passes, k);
    if k > 0 {
      RoundsStop(g, me, dest, passes, k - 1);
      var r := Rounds(g, passes, k - 1);
      if r.Active? { NextStop(g, me, dest, passes, r, Rounds(g, passes, k)); }
    }
  }

  /** Exactly where the computation stops: at the first `r` whose next path is dear, or at `k`. */
  lemma StopsExactly(o: Overlay, costs: Costs, mode: Mode, me: nat, dest: nat, k: nat, r: nat)
    requires Configured(o, costs, me, dest) && me != dest && SaneCosts(costs, mode)
    requires SplitNetwork(NetworkOf(o, costs, mode, me, dest), me, dest)
    ensures var a := Compute(o, costs, mode, me, dest, k);
            a.Some? && (a.value.found == r <==> FirstDear(NetworkOf(o, costs, mode, me, dest), me, dest, k, r))
  {
    var g := NetworkOf(o, costs, mode, me, dest);
    NetworkValid(o, costs, mode, me, dest);
    SaneWeights(o, costs, mode, me, dest);
    RoundsStop(g, me, dest, PassLimit(o), k);
    hide Dear, Rounds;
  }

  /** As many paths are found as some node-disjoint system of at most `k` has exactly when none of
      the steps up to that many is dear. */
  lemma FindsExactly(o: Overlay, costs: Costs, mode: Mode, me: nat, dest: nat, k: nat, qs: seq<seq<nat>>)
    requires Configured(o, costs, me, dest) && me != dest && SaneCosts(costs, mode)
    requires SplitNetwork(NetworkOf(o, costs, mode, me, dest), me, dest)
    requires DisjointSystem(NetworkOf(o, costs, mode, me, dest), me, dest, qs) && |qs| <= k
    ensures var a := Compute(o, costs, mode, me, dest, k);
            && a.Some?
            && (|qs| <= a.value.found <==>
                 forall i: nat :: i < |qs| ==> !Dear(NetworkOf(o, costs, mode, me, dest), me, dest, i))
  {
    StopsExactly(o, costs, mode, me, dest, k, 0);
    StopsExactly(o, costs, mode, me, dest, k, Compute(o, costs, mode, me, dest, k).value.found);
    hide Dear, Compute;
  }

  /** While all usable arcs together cost less than the sentinel, no step that can be made is dear. */
  lemma NoStepDear(g: Graph, me: nat, dest: nat, qs: seq<seq<nat>>, i: nat)
    requires SplitNetwork(g, me, dest) && NonNegative(g) && TotalCost(g.w) < UNREACHED
    requires DisjointSystem(g, me, dest, qs) && i < |qs|
    ensures !Dear(g, me, dest, i)
  {
    var few := qs[..i + 1];
    SystemCarries(g, me, dest, few);
    PricesTotal(g.w, Prices(g), SystemArcs(g, me, dest, few));
    forall ps | DisjointSystem(g, me, dest, ps) && |ps| == i ensures SystemCost(g, me, dest, ps) >= 0 {
      SystemCarries(g, me, dest, ps);
      WSumNonNegative(SystemArcs(g, me, dest, ps), Prices(g));
    }
  }

  /** So then stopping short of `k` paths means that there are no more: no node-disjoint system is
      larger. */
  lemma ComputesMostPaths(o: Overlay, costs: Costs, mode: Mode, me: nat, dest: nat, k: nat, qs: seq<seq<nat>>)
    requires Configured(o, costs, me, dest) && me != dest
    requires SaneCosts(costs, mode) && TotalCost(NetworkOf(o, costs, mode, me, dest).w) < UNREACHED
    requires SplitNetwork(NetworkOf(o, costs, mode, me, dest), me, dest)
    requires DisjointSystem(NetworkOf(o, costs, mode, me, dest), me, dest, qs)
    ensures var a := Compute(o, costs, mode, me, dest, k);
            a.Some? && (|qs| <= a.value.found || a.value.found == k)
  {
    var g := NetworkOf(o, costs, mode, me, dest);
    SaneWeights(o, costs, mode, me, dest);
    var n := if |qs| <= k then |qs| else k;
    FindsExactly(o, costs, mode, me, dest, k, qs[..n]);
    forall i: nat | i < n ensures !Dear(g, me, dest, i) { NoStepDear(g, me, dest, qs, i); }
    hide Dear, Compute;
    StopsExactly(o, costs, mode, me, dest, k, Compute(o, costs, mode, me, dest, k).value.found);
  }

  /** Stopping short at `r < k`: asking for any number from `r` up gives the same answer. */
  lemma ShortAnswerStands(o: Overlay, costs: Costs, mode: Mode, me: nat, dest: nat, k: nat, other: nat)
    requires Configured(o, costs, me, dest)
    requires Compute(o, costs, mode, me, dest, k).Some? && Compute(o, costs, mode, me, dest, k).value.found < k
    requires other >= Compute(o, costs, mode, me, dest, k).value.found
    ensures Compute(o, costs, mode, me, dest, other) == Compute(o, costs, mode, me, dest, k)
  {
    var g := NetworkOf(o, costs, mode, me, dest);
    NetworkValid(o, costs, mode, me, dest);
    RoundsCount(g, PassLimit(o), k);
    RoundsShort(g, PassLimit(o), k, other);
  }

  // ---------------------------------------------------------------- how sharp the cost bound is

  /** A four-node chain whose three links cost exactly 65535 together one way; the other way they
      are down, as links are when the daemon starts. */
  const CHAIN := Overlay([1, 2, 3, 4], [Edge(1, 2, 0), Edge(2, 3, 1), Edge(3, 4, 2)], false)
  const CHAIN_COSTS: Costs := map[
    EdgeKey(1, 2) := LinkCost(32767, 1), EdgeKey(2, 1) := LinkCost(-1, 1),
    EdgeKey(2, 3) := LinkCost(32767, 1), EdgeKey(3, 2) := LinkCost(-1, 1),
    EdgeKey(3, 4) := LinkCost(1, 1), EdgeKey(4, 3) := LinkCost(-1, 1)]

  ghost predicate ChainLinks(arcs: seq<Arc>) {
    arcs == [
      Link(4, 3, 2), Link(3, 4, 2), Link(3, 2, 1), Link(2, 3, 1), Link(2, 1, 0), Link(1, 2, 0),
      Split(4), Split(3), Split(2), Split(1)]
  }

  ghost predicate ChainWeights(w: seq<Option<int>>) {
    w == [None, Some(1), None, Some(32767), None, Some(32767), Some(0), Some(0), Some(0), Some(0)]
  }

  lemma ChainArcs()
    ensures ChainLinks(EdgeArcs(CHAIN, 3))
  {
    assert HostArcs(CHAIN, 4) == [Split(4)] + HostArcs(CHAIN, 3);
    assert HostArcs(CHAIN, 2) == [Split(2), Split(1)];
    assert EdgeArcs(CHAIN, 0) == [Split(4), Split(3), Split(2), Split(1)];
    assert EdgeArcs(CHAIN, 1) == [Link(2, 1, 0)] + [Link(1, 2, 0)] + EdgeArcs(CHAIN, 0);
    assert EdgeArcs(CHAIN, 2) == [Link(3, 2, 1)] + [Link(2, 3, 1)] + EdgeArcs(CHAIN, 1);
    assert EdgeArcs(CHAIN, 3) == [Link(4, 3, 2)] + [Link(3, 4, 2)] + EdgeArcs(CHAIN, 2);
  }

  lemma {:induction false} TotalOfNothing(w: seq<Option<int>>)
    requires forall i :: 0 <= i < |w| ==> w[i] == Some(0)
    ensures TotalCost(w) == 0
  {
    if w != [] { TotalOfNothing(w[..|w| - 1]); }
  }

  lemma {:induction false} TotalJoin(v: seq<Option<int>>, w: seq<Option<int>>)
    ensures TotalCost(v + w) == TotalCost(v) + TotalCost(w)
  {
    if w == [] {
      assert v + w == v;
    } else {
      assert (v + w)[..|v + w| - 1] == v + w[..|w| - 1];
      TotalJoin(v, w[..|w| - 1]);
    }
  }

  lemma TotalPair(x: int)
    ensures TotalCost([None, Some(x)]) == x
  {
    var w: seq<Option<int>> := [None, Some(x)];
    assert w[..1][..0] == [] && w[..1][0] == None;
    assert TotalCost(w[..1][..0]) == 0;
    assert TotalCost(w[..1]) == 0;
  }

  lemma ChainTotal(w: seq<Option<int>>)
    requires ChainWeights(w)
    ensures TotalCost(w) == UNREACHED
  {
    TotalPair(1);
    TotalPair(32767);
    TotalOfNothing(w[6..]);
    TotalJoin(w[..2], w[2..4]);
    TotalJoin(w[..4], w[4..6]);
    TotalJoin(w[..6], w[6..]);
    assert w[..2] + w[2..4] == w[..4] && w[..4] + w[4..6] == w[..6] && w[..6] + w[6..] == w;
  }

  lemma ChainPath(g: Graph)
    requires |g.w| == 10 && ChainLinks(g.arcs) && ChainWeights(g.w)
    ensures OverlayPath(g, 1, 4, [1, 2, 3, 4])
  {
    assert IsLinkArc(g, 5, 1, 2) && IsLinkArc(g, 3, 2, 3) && IsLinkArc(g, 1, 3, 4);
    assert g.arcs[8] == Split(2) && g.arcs[7] == Split(3);
  }

  ghost function Height(x: nat): int {
    if x <= 1 then 0 else if x == 2 then 32767 else if x == 3 then 65534 else 65535
  }

  lemma ChainStep(g: Graph, e: Entry)
    requires ChainLinks(g.arcs) && ChainWeights(g.w)
    requires g.Has(e) && g.Usable(e.arc) && !e.residual
    ensures Height(g.Head(e).id) == Height(g.Tail(e).id) + g.Cost(e)
  {}

  lemma ChainTooDear(g: Graph)
    requires ChainLinks(g.arcs) && ChainWeights(g.w)
    requires g.Valid() && g.src == Out(1) && g.dst == In(4)
    ensures NoCheapWalk(g, EmptyFlow(g))
  {
    var flow := EmptyFlow(g);
    var pi := map v | v in g.nodes :: Height(v.id);
    forall e: Entry | Residual(g, flow, e) ensures pi[g.Head(e)] <= pi[g.Tail(e)] + g.Cost(e) {
      ChainStep(g, e);
    }
    hide IsWalk, WalkCost;
    forall p | IsWalk(g, flow, g.src, g.dst, p) ensures WalkCost(g, flow, g.src, g.dst, p) >= UNREACHED {
      WalkAbovePotential(g, flow, pi, g.src, g.dst, p);
    }
  }

  lemma ChainPriced(arcs: seq<Arc>)
    requires ChainLinks(arcs)
    ensures Priced(arcs, CHAIN_COSTS)
  {
    forall a | a in arcs && a.Link?
      ensures EdgeKey(a.src, a.dst) in CHAIN_COSTS.Keys && EdgeKey(a.dst, a.src) in CHAIN_COSTS.Keys
    {
      assert (a.src, a.dst) in {(1, 2), (2, 1), (2, 3), (3, 2), (3, 4), (4, 3)};
    }
  }

  lemma ChainSane()
    ensures Configured(CHAIN, CHAIN_COSTS, 1, 4) && SaneCosts(CHAIN_COSTS, Mode(false, false))
  {
    ChainArcs();
    ChainPriced(EdgeArcs(CHAIN, 3));
    hide EdgeArcs, ChainLinks, Priced;
  }

  lemma ChainWeighed(arcs: seq<Arc>)
    requires ChainLinks(arcs) && Priced(arcs, CHAIN_COSTS)
    ensures ChainWeights(Weights(arcs, CHAIN_COSTS, Mode(false, false)))
  {
    hide Priced;
    assert Abs16(1) == 1 && Abs16(32767) == 32767;
  }

  lemma ChainNetwork()
    requires Configured(CHAIN, CHAIN_COSTS, 1, 4)
    ensures ChainLinks(NetworkOf(CHAIN, CHAIN_COSTS, Mode(false, false), 1, 4).arcs)
    ensures ChainWeights(NetworkOf(CHAIN, CHAIN_COSTS, Mode(false, false), 1, 4).w)
  {
    ChainArcs();
    hide EdgeArcs, ChainLinks, ChainWeights, Priced, Weights;
    ChainWeighed(EdgeArcs(CHAIN, 3));
  }

  /** Were the bound one larger, the maximality claim would be false: on this chain the path
      1-2-3-4 exists, and asking for one path finds none. */
  lemma SentinelIsSharp()
    ensures Configured(CHAIN, CHAIN_COSTS, 1, 4) && SaneCosts(CHAIN_COSTS, Mode(false, false))
    ensures var g := NetworkOf(CHAIN, CHAIN_COSTS, Mode(false, false), 1, 4);
            && TotalCost(g.w) == UNREACHED
            && OverlayPath(g, 1, 4, [1, 2, 3, 4])
            && Compute(CHAIN, CHAIN_COSTS, Mode(false, false), 1, 4, 1) == Some(Answer(0, {}))
  {
    ChainSane();
    ChainNetwork();
    var g := NetworkOf(CHAIN, CHAIN_COSTS, Mode(false, false), 1, 4);
    ChainTotal(g.w);
    ChainPath(g);
    NetworkValid(CHAIN, CHAIN_COSTS, Mode(false, false), 1, 4);
    hide SplitNetwork, Compute, TotalCost, EdgeArcs, OverlayPath, Configured;
    ChainAnswer(g);
  }

  lemma ChainAnswer(g: Graph)
    requires Configured(CHAIN, CHAIN_COSTS, 1, 4) && SaneCosts(CHAIN_COSTS, Mode(false, false))
    requires g == NetworkOf(CHAIN, CHAIN_COSTS, Mode(false, false), 1, 4) && SplitNetwork(g, 1, 4)
    requires ChainLinks(g.arcs) && ChainWeights(g.w)
    ensures Compute(CHAIN, CHAIN_COSTS, Mode(false, false), 1, 4, 1) == Some(Answer(0, {}))
  {
    hide SplitNetwork, Round, SaneCosts;
    NetworkValid(CHAIN, CHAIN_COSTS, Mode(false, false), 1, 4);
    SaneWeights(CHAIN, CHAIN_COSTS, Mode(false, false), 1, 4);
    ChainTooDear(g);
    StartOk(g);
    RoundOk(g, PassLimit(CHAIN), 0, EmptyFlow(g), {});
    assert Rounds(g, PassLimit(CHAIN), 0) == Active(0, EmptyFlow(g), {});
    assert Rounds(g, PassLimit(CHAIN), 1) == Exhausted(0, EmptyFlow(g), {});
    assert MaskOf(g.arcs, {}) == {};
  }
}
