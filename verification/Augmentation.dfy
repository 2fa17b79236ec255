/** Turning a finished search into one more unit of flow. */
module Augmentation {
  import opened Wrappers
  import opened FlowNetwork
  import opened BellmanFord
  import opened Sums

  /** The entries met when walking back along previous_edge from `t`, in forward order; None when
      the walk does not get to the source (a null previous_edge, or no end within `fuel` steps,
      which for `fuel >= |nodes|` means going round for ever). */
  function WalkBack(g: Graph, prev: map<Node, Entry>, t: Node, fuel: nat): (r: Option<seq<Entry>>)
    ensures r.Some? ==> forall k :: 0 <= k < |r.value| ==> g.Has(r.value[k])
    decreases fuel
  {
    if t == g.src then Some([])
    else if fuel == 0 || t !in prev || !g.Has(prev[t]) then None
    else match WalkBack(g, prev, g.Tail(prev[t]), fuel - 1)
         case None => None
         case Some(p) => Some(p + [prev[t]])
  }

  /** Saturate one entry and release its twin; the bag gains the real edge or loses it. */
  function FlipFlow(flow: Flow, e: Entry): Flow
    requires e.arc < |flow.fwd| && |flow.back| == |flow.fwd|
  {
    flow.Set(e, 1).Set(e.Twin(), 0)
  }

  function FlipBag(bag: set<Entry>, e: Entry): set<Entry> {
    if e.residual then bag - {e.Twin()} else bag + {e}
  }

  /** The augmentation loop: flip the entries of `p` starting from its far end. */
  function Flips(flow: Flow, bag: set<Entry>, p: seq<Entry>): (r: (Flow, set<Entry>))
    requires |flow.back| == |flow.fwd| && forall k :: 0 <= k < |p| ==> p[k].arc < |flow.fwd|
    ensures |r.0.fwd| == |flow.fwd| && |r.0.back| == |flow.back|
    decreases |p|
  {
    if p == [] then (flow, bag)
    else Flips(FlipFlow(flow, p[|p| - 1]), FlipBag(bag, p[|p| - 1]), p[..|p| - 1])
  }

  // ---------------------------------------------------------------- what a flow is

  ghost predicate Complementary(flow: Flow) {
    && |flow.fwd| == |flow.back|
    && forall j :: 0 <= j < |flow.fwd| ==> 0 <= flow.fwd[j] <= 1 && flow.back[j] == 1 - flow.fwd[j]
  }

  ghost function Saturated(flow: Flow): set<nat> {
    set j: nat | j < |flow.fwd| && flow.fwd[j] == 1
  }

  ghost function RealEntries(f: set<nat>): set<Entry> {
    set j | j in f :: Entry(j, false)
  }

  /** +1 for an arc leaving `v`, -1 for one entering it. */
  ghost function Leaving(g: Graph, v: Node): seq<int> {
    seq(|g.arcs|, j requires 0 <= j < |g.arcs| =>
      (if g.arcs[j].Start() == v then 1 else 0) - (if g.arcs[j].End() == v then 1 else 0))
  }

  ghost function Prices(g: Graph): seq<int>
    requires |g.w| == |g.arcs|
  {
    seq(|g.w|, j requires 0 <= j < |g.w| => if g.w[j].Some? then g.w[j].value else 0)
  }

  /** `f` carries `r` units from source to destination and conserves flow everywhere else. */
  ghost predicate Carries(g: Graph, f: set<nat>, r: int) {
    forall v :: v in g.nodes ==>
      WSum(f, Leaving(g, v)) == if v == g.src then r else if v == g.dst then -r else 0
  }

  ghost predicate UsesUsable(g: Graph, f: set<nat>)
    requires |g.w| == |g.arcs|
  {
    forall j :: j in f ==> j < |g.arcs| && g.Usable(j)
  }

  ghost predicate NonNegative(g: Graph)
    requires |g.w| == |g.arcs|
  {
    forall j :: 0 <= j < |g.arcs| && g.w[j].Some? ==> 0 <= g.w[j].value
  }

  /** Everything that holds between augmentations. */
  ghost predicate FlowInv(g: Graph, flow: Flow, bag: set<Entry>, r: int, pi: map<Node, int>) {
    && Fits(g, flow) && NonNegative(g)
    && Complementary(flow)
    && bag == RealEntries(Saturated(flow))
    && UsesUsable(g, Saturated(flow))
    && (forall j :: j in Saturated(flow) ==> g.arcs[j].End() != g.src && g.arcs[j].Start() != g.dst)
    && Carries(g, Saturated(flow), r)
    && Feasible(g, flow, pi)
  }

  // ---------------------------------------------------------------- the path found

  ghost predicate DistinctArcs(p: seq<Entry>) {
    forall a, b :: 0 <= a < b < |p| ==> p[a].arc != p[b].arc
  }

  /** The chain of previous edges from `v`, when `v`'s reduced distance is no larger than the
      destination's: it starts at the source, never at a node that only looks reached. */
  lemma {:induction false} Chain(g: Graph, flow: Flow, pi: map<Node, int>, st: Search, rank: map<Node, nat>, v: Node)
    returns (p: seq<Entry>)
    requires Fits(g, flow) && Feasible(g, flow, pi) && SearchInv(g, flow, pi, st) && Settled(g, flow, st)
    requires Ranked(g, st.prev, rank) && v in g.nodes
    requires st.dist[g.dst] < UNREACHED && st.dist[v] - pi[v] <= st.dist[g.dst] - pi[g.dst]
    ensures Follows(g, st.prev, v, p)
    ensures IsWalk(g, flow, g.src, v, p) && WalkCost(g, flow, g.src, v, p) == st.dist[v]
    ensures TightChain(g, flow, pi, st, rank, p, rank[v])
    decreases rank[v]
  {
    if v == g.src {
      p := [];
    } else {
      ChainStep(g, flow, pi, st, rank, v);
      var e := st.prev[v];
      var q := Chain(g, flow, pi, st, rank, g.Tail(e));
      p := q + [e];
      ExtendWalk(g, flow, g.src, g.Tail(e), q, e);
      assert p[..|p| - 1] == q;
      ExtendChain(g, flow, pi, st, rank, q, e);
    }
  }

  /** `p` is what following previous_edge from `v` to the source meets. */
  ghost predicate Follows(g: Graph, prev: map<Node, Entry>, v: Node, p: seq<Entry>)
    decreases |p|
  {
    if p == [] then v == g.src
    else
      && v != g.src && v in prev && g.Has(prev[v]) && p[|p| - 1] == prev[v]
      && Follows(g, prev, g.Tail(prev[v]), p[..|p| - 1])
  }

  lemma {:induction false} FollowsIsWalkBack(g: Graph, prev: map<Node, Entry>, v: Node, p: seq<Entry>, fuel: nat)
    requires Follows(g, prev, v, p) && |p| <= fuel
    ensures WalkBack(g, prev, v, fuel) == Some(p)
    decreases |p|
  {
    if p != [] {
      FollowsIsWalkBack(g, prev, g.Tail(prev[v]), p[..|p| - 1], fuel - 1);
      assert p == p[..|p| - 1] + [prev[v]];
    }
  }

  /** Tight entries whose ends climb in rank, none above `top`. */
  ghost predicate TightChain(g: Graph, flow: Flow, pi: map<Node, int>, st: Search, rank: map<Node, nat>,
                             p: seq<Entry>, top: nat)
    requires Fits(g, flow) && pi.Keys == g.nodes && st.dist.Keys == g.nodes && rank.Keys == g.nodes
  {
    && (forall k :: 0 <= k < |p| ==> OnTightChain(g, flow, pi, st, rank, p[k]))
    && (forall k :: 0 <= k < |p| ==> rank[g.Head(p[k])] <= top)
    && (forall a, b :: 0 <= a < b < |p| ==> rank[g.Head(p[a])] <= rank[g.Tail(p[b])])
  }

  lemma ExtendChain(g: Graph, flow: Flow, pi: map<Node, int>, st: Search, rank: map<Node, nat>, q: seq<Entry>, e: Entry)
    requires Fits(g, flow) && pi.Keys == g.nodes && st.dist.Keys == g.nodes && rank.Keys == g.nodes
    requires OnTightChain(g, flow, pi, st, rank, e)
    requires TightChain(g, flow, pi, st, rank, q, rank[g.Tail(e)])
    ensures TightChain(g, flow, pi, st, rank, q + [e], rank[g.Head(e)])
  {
    var p := q + [e];
    forall k | 0 <= k < |p| ensures OnTightChain(g, flow, pi, st, rank, p[k]) && rank[g.Head(p[k])] <= rank[g.Head(e)] {
      if k < |q| { assert p[k] == q[k]; }
    }
  }

  /** A node other than the source with that small a reduced distance was really reached, and
      through a tight entry. */
  lemma ChainStep(g: Graph, flow: Flow, pi: map<Node, int>, st: Search, rank: map<Node, nat>, v: Node)
    requires Fits(g, flow) && Feasible(g, flow, pi) && SearchInv(g, flow, pi, st) && Settled(g, flow, st)
    requires Ranked(g, st.prev, rank) && v in g.nodes && v != g.src
    requires st.dist[g.dst] < UNREACHED && st.dist[v] - pi[v] <= st.dist[g.dst] - pi[g.dst]
    ensures v in st.prev && g.Has(st.prev[v]) && g.Head(st.prev[v]) == v
    ensures OnTightChain(g, flow, pi, st, rank, st.prev[v])
  {
    assert v in st.prev;
    assert PrevOk(g, flow, st, v);
  }

  /** An entry on the chain: tight, and with both ends within the destination's reduced distance. */
  ghost predicate OnTightChain(g: Graph, flow: Flow, pi: map<Node, int>, st: Search, rank: map<Node, nat>, e: Entry)
    requires Fits(g, flow) && pi.Keys == g.nodes && st.dist.Keys == g.nodes && rank.Keys == g.nodes
  {
    && Residual(g, flow, e)
    && st.dist[g.Head(e)] == st.dist[g.Tail(e)] + g.Cost(e)
    && st.dist[g.Head(e)] - pi[g.Head(e)] <= st.dist[g.dst] - pi[g.dst]
    && st.dist[g.Tail(e)] - pi[g.Tail(e)] <= st.dist[g.dst] - pi[g.dst]
    && rank[g.Tail(e)] < rank[g.Head(e)]
    && g.Head(e) != g.src
  }

  lemma {:induction false} RisingHeads(g: Graph, rank: map<Node, nat>, p: seq<Entry>) returns (heads: set<Node>)
    requires rank.Keys == g.nodes
    requires forall k :: 0 <= k < |p| ==> g.Has(p[k]) && g.Head(p[k]) in g.nodes && g.Tail(p[k]) in g.nodes
    requires forall k :: 0 <= k < |p| ==> rank[g.Tail(p[k])] < rank[g.Head(p[k])]
    requires forall a, b :: 0 <= a < b < |p| ==> rank[g.Head(p[a])] <= rank[g.Tail(p[b])]
    ensures |heads| == |p| && heads <= g.nodes
    ensures (forall x :: x in heads ==> exists k :: 0 <= k < |p| && x == g.Head(p[k]))
  {
    if p == [] {
      heads := {};
    } else {
      var n := |p| - 1;
      var rest := RisingHeads(g, rank, p[..n]);
      assert g.Head(p[n]) !in rest;
      heads := rest + {g.Head(p[n])};
      forall x | x in heads ensures exists k :: 0 <= k < |p| && x == g.Head(p[k]) {
        if x in rest {
          var k :| 0 <= k < n && x == g.Head(p[..n][k]);
          assert x == g.Head(p[k]);
        }
      }
    }
  }

  lemma Contained<T>(a: set<T>, b: set<T>)
    requires a <= b
    ensures |a| <= |b|
  {
    assert b == a + (b - a);
  }

  ghost predicate TightEntry(g: Graph, flow: Flow, pi: map<Node, int>, st: Search, e: Entry)
    requires Fits(g, flow) && pi.Keys == g.nodes && st.dist.Keys == g.nodes
  {
    && Residual(g, flow, e)
    && st.dist[g.Head(e)] == st.dist[g.Tail(e)] + g.Cost(e)
    && st.dist[g.Head(e)] - pi[g.Head(e)] <= st.dist[g.dst] - pi[g.dst]
    && st.dist[g.Tail(e)] - pi[g.Tail(e)] <= st.dist[g.dst] - pi[g.dst]
    && g.Head(e) != g.src && g.Tail(e) != g.dst
  }

  lemma ChainEntries(g: Graph, flow: Flow, pi: map<Node, int>, st: Search, rank: map<Node, nat>, p: seq<Entry>)
    requires Fits(g, flow) && g.dst in g.nodes
    requires pi.Keys == g.nodes && st.dist.Keys == g.nodes && rank.Keys == g.nodes
    requires TightChain(g, flow, pi, st, rank, p, rank[g.dst])
    ensures forall k :: 0 <= k < |p| ==> TightEntry(g, flow, pi, st, p[k])
    ensures DistinctArcs(p)
  {
    forall k | 0 <= k < |p| ensures TightEntry(g, flow, pi, st, p[k]) {
      assert OnTightChain(g, flow, pi, st, rank, p[k]);
    }
    forall a, b | 0 <= a < b < |p| ensures p[a].arc != p[b].arc {
      assert OnTightChain(g, flow, pi, st, rank, p[a]) && OnTightChain(g, flow, pi, st, rank, p[b]);
    }
  }

  /** Every entry of a chain leads to a node of its own. */
  lemma ChainShort(g: Graph, flow: Flow, pi: map<Node, int>, st: Search, rank: map<Node, nat>, p: seq<Entry>)
    requires Fits(g, flow) && g.dst in g.nodes
    requires pi.Keys == g.nodes && st.dist.Keys == g.nodes && rank.Keys == g.nodes
    requires TightChain(g, flow, pi, st, rank, p, rank[g.dst])
    ensures |p| <= |g.nodes|
  {
    assert forall k :: 0 <= k < |p| ==> OnTightChain(g, flow, pi, st, rank, p[k]);
    var heads := RisingHeads(g, rank, p);
    Contained(heads, g.nodes);
  }

  /** A search that reaches the destination yields a source-to-destination walk over residual
      entries, no two of them on the same arc, found by walking back within |nodes| steps. */
  lemma PathFound(g: Graph, flow: Flow, pi: map<Node, int>, st: Search) returns (p: seq<Entry>)
    requires Fits(g, flow) && Feasible(g, flow, pi) && SearchInv(g, flow, pi, st) && Settled(g, flow, st)
    requires Acyclic(g, st.prev) && st.dist[g.dst] < UNREACHED
    ensures WalkBack(g, st.prev, g.dst, |g.nodes|) == Some(p)
    ensures IsWalk(g, flow, g.src, g.dst, p) && WalkCost(g, flow, g.src, g.dst, p) == st.dist[g.dst]
    ensures DistinctArcs(p)
    ensures forall k :: 0 <= k < |p| ==> TightEntry(g, flow, pi, st, p[k])
  {
    assert pi.Keys == g.nodes && st.dist.Keys == g.nodes;
    var rank :| Ranked(g, st.prev, rank);
    hide SearchInv, Settled, Feasible, Follows, IsWalk, WalkCost,
         OnTightChain, TightEntry, TightChain, DistinctArcs, WalkBack;
    p := Chain(g, flow, pi, st, rank, g.dst);
    ChainEntries(g, flow, pi, st, rank, p);
    ChainShort(g, flow, pi, st, rank, p);
    FollowsIsWalkBack(g, st.prev, g.dst, p, |g.nodes|);
  }

  // ---------------------------------------------------------------- the effect of an augmentation

  lemma FlipOne(flow: Flow, bag: set<Entry>, e: Entry)
    requires Complementary(flow) && bag == RealEntries(Saturated(flow)) && e.arc < |flow.fwd| && flow.At(e) < 1
    ensures Complementary(FlipFlow(flow, e)) && |FlipFlow(flow, e).fwd| == |flow.fwd|
    ensures FlipBag(bag, e) == RealEntries(Saturated(FlipFlow(flow, e)))
    ensures if e.residual then e.arc in Saturated(flow) && Saturated(FlipFlow(flow, e)) == Saturated(flow) - {e.arc}
            else e.arc !in Saturated(flow) && Saturated(FlipFlow(flow, e)) == Saturated(flow) + {e.arc}
    ensures forall x: Entry :: x.arc < |flow.fwd| && x.arc != e.arc ==> FlipFlow(flow, e).At(x) == flow.At(x)
  {
  }

  ghost predicate CanFlip(flow: Flow, p: seq<Entry>) {
    && |flow.fwd| == |flow.back|
    && DistinctArcs(p)
    && forall k :: 0 <= k < |p| ==> p[k].arc < |flow.fwd| && flow.At(p[k]) < 1
  }

  /** Flipping the last entry of a path leaves the others to be flipped. */
  lemma FlipLast(flow: Flow, bag: set<Entry>, p: seq<Entry>)
    requires Complementary(flow) && bag == RealEntries(Saturated(flow)) && CanFlip(flow, p) && p != []
    ensures var e, rest := p[|p| - 1], p[..|p| - 1];
            var flow', bag' := FlipFlow(flow, e), FlipBag(bag, e);
            && Complementary(flow') && bag' == RealEntries(Saturated(flow')) && CanFlip(flow', rest)
            && Flips(flow, bag, p) == Flips(flow', bag', rest)
            && Saturated(flow') == (if e.residual then Saturated(flow) - {e.arc} else Saturated(flow) + {e.arc})
            && forall k :: 0 <= k < |rest| ==> rest[k].arc != e.arc
  {
    FlipOne(flow, bag, p[|p| - 1]);
    hide Complementary, Saturated, RealEntries, FlipFlow, FlipBag;
  }

  lemma {:induction false} FlipsComplement(flow: Flow, bag: set<Entry>, p: seq<Entry>)
    requires Complementary(flow) && bag == RealEntries(Saturated(flow)) && CanFlip(flow, p)
    ensures Complementary(Flips(flow, bag, p).0)
    ensures Flips(flow, bag, p).1 == RealEntries(Saturated(Flips(flow, bag, p).0))
    decreases |p|
  {
    if p != [] {
      var n := |p| - 1;
      FlipLast(flow, bag, p);
      hide CanFlip, Saturated, FlipFlow, FlipBag, Complementary, RealEntries;
      FlipsComplement(FlipFlow(flow, p[n]), FlipBag(bag, p[n]), p[..n]);
    }
  }

  lemma NoFlips(flow: Flow, bag: set<Entry>)
    requires |flow.fwd| == |flow.back|
    ensures Flips(flow, bag, []).0 == flow
  {}

  /** An arc the path does not use is saturated after the flips just when it was before. */
  lemma {:induction false} FlipsElsewhere(flow: Flow, bag: set<Entry>, p: seq<Entry>, j: nat)
    requires Complementary(flow) && bag == RealEntries(Saturated(flow)) && CanFlip(flow, p)
    requires forall k :: 0 <= k < |p| ==> p[k].arc != j
    ensures j in Saturated(Flips(flow, bag, p).0) <==> j in Saturated(flow)
    decreases |p|
  {
    assert |flow.fwd| == |flow.back|;
    hide *;
    if p == [] {
      NoFlips(flow, bag);
    } else {
      var n := |p| - 1;
      FlipLast(flow, bag, p);
      FlipsElsewhere(FlipFlow(flow, p[n]), FlipBag(bag, p[n]), p[..n], j);
    }
  }

  /** An arc the path uses is saturated after the flips just when the path uses its real entry. */
  lemma {:induction false} FlipsAlong(flow: Flow, bag: set<Entry>, p: seq<Entry>, k: nat)
    requires Complementary(flow) && bag == RealEntries(Saturated(flow)) && CanFlip(flow, p) && k < |p|
    ensures p[k].arc in Saturated(Flips(flow, bag, p).0) <==> !p[k].residual
    decreases |p|
  {
    var n := |p| - 1;
    assert p[n].arc < |flow.fwd| == |flow.back|;
    hide *;
    FlipLast(flow, bag, p);
    if k < n {
      FlipsAlong(FlipFlow(flow, p[n]), FlipBag(bag, p[n]), p[..n], k);
    } else {
      FlipsElsewhere(FlipFlow(flow, p[n]), FlipBag(bag, p[n]), p[..n], p[n].arc);
    }
  }

  /** Each arc of the path changes sides once, every other arc keeps its flow, and the bag keeps
      up: it is exactly the set of saturated real edges again. */
  lemma FlipsEffect(flow: Flow, bag: set<Entry>, p: seq<Entry>)
    requires Complementary(flow) && bag == RealEntries(Saturated(flow)) && CanFlip(flow, p)
    ensures Complementary(Flips(flow, bag, p).0)
    ensures Flips(flow, bag, p).1 == RealEntries(Saturated(Flips(flow, bag, p).0))
    ensures forall k :: 0 <= k < |p| ==> (p[k].arc in Saturated(Flips(flow, bag, p).0) <==> !p[k].residual)
    ensures forall j :: (forall k :: 0 <= k < |p| ==> p[k].arc != j) ==>
              (j in Saturated(Flips(flow, bag, p).0) <==> j in Saturated(flow))
  {
    FlipsComplement(flow, bag, p);
    hide Complementary, CanFlip, Saturated, Flips;
    forall k | 0 <= k < |p| ensures p[k].arc in Saturated(Flips(flow, bag, p).0) <==> !p[k].residual {
      FlipsAlong(flow, bag, p, k);
    }
    forall j | forall k :: 0 <= k < |p| ==> p[k].arc != j
      ensures j in Saturated(Flips(flow, bag, p).0) <==> j in Saturated(flow)
    {
      FlipsElsewhere(flow, bag, p, j);
    }
  }

  ghost function Signed(p: seq<Entry>, u: seq<int>): int
    requires forall k :: 0 <= k < |p| ==> p[k].arc < |u|
    decreases |p|
  {
    if p == [] then 0
    else Signed(p[..|p| - 1], u) + (if p[|p| - 1].residual then -u[p[|p| - 1].arc] else u[p[|p| - 1].arc])
  }

  lemma {:induction false} FlipsSum(flow: Flow, bag: set<Entry>, p: seq<Entry>, u: seq<int>)
    requires Complementary(flow) && bag == RealEntries(Saturated(flow)) && CanFlip(flow, p) && |u| == |flow.fwd|
    ensures WSum(Saturated(Flips(flow, bag, p).0), u) == WSum(Saturated(flow), u) + Signed(p, u)
    decreases |p|
  {
    if p != [] {
      var n := |p| - 1;
      FlipOne(flow, bag, p[n]);
      FlipsSum(FlipFlow(flow, p[n]), FlipBag(bag, p[n]), p[..n], u);
      if p[n].residual {
        WSumRemove(Saturated(flow), u, p[n].arc);
      } else {
        WSumAdd(Saturated(flow), u, p[n].arc);
      }
    }
  }

  /** A walk leaves its start once more than it enters it, enters its end once more than it leaves
      it, and passes through every other node evenly. */
  lemma {:induction false} SignedLeaving(g: Graph, flow: Flow, a: Node, b: Node, p: seq<Entry>, v: Node)
    requires Fits(g, flow) && IsWalk(g, flow, a, b, p) && forall k :: 0 <= k < |p| ==> p[k].arc < |g.arcs|
    ensures Signed(p, Leaving(g, v)) == (if v == a then 1 else 0) - (if v == b then 1 else 0)
    decreases |p|
  {
    if p != [] {
      SignedLeaving(g, flow, a, g.Tail(p[|p| - 1]), p[..|p| - 1], v);
    }
  }

  lemma {:induction false} SignedPrices(g: Graph, flow: Flow, a: Node, b: Node, p: seq<Entry>)
    requires Fits(g, flow) && NonNegative(g) && IsWalk(g, flow, a, b, p)
    requires forall k :: 0 <= k < |p| ==> p[k].arc < |g.arcs|
    ensures Signed(p, Prices(g)) == WalkCost(g, flow, a, b, p)
    decreases |p|
  {
    if p != [] {
      SignedPrices(g, flow, a, g.Tail(p[|p| - 1]), p[..|p| - 1]);
    }
  }

  /** The next potential: distances from the source, capped in reduced terms at the destination's. */
  ghost function NextPotential(g: Graph, pi: map<Node, int>, st: Search): map<Node, int>
    requires g.dst in g.nodes && st.dist.Keys == g.nodes && pi.Keys == g.nodes
  {
    map v | v in g.nodes :: var cap := pi[v] + st.dist[g.dst] - pi[g.dst]; if st.dist[v] <= cap then st.dist[v] else cap
  }

  /** It starts at 0 and peaks at the destination, at the distance found. */
  lemma NextPotentialBounds(g: Graph, flow: Flow, pi: map<Node, int>, st: Search)
    requires Fits(g, flow) && Feasible(g, flow, pi) && SearchInv(g, flow, pi, st)
    ensures var rho := NextPotential(g, pi, st);
            && rho.Keys == g.nodes && rho[g.src] == 0 && rho[g.dst] == st.dist[g.dst]
            && forall v :: v in g.nodes ==> 0 <= rho[v] <= rho[g.dst]
  {
    hide Certifies;
  }

  /** An entry that was residual before stays within it. */
  lemma OldEntryWithin(g: Graph, flow: Flow, pi: map<Node, int>, st: Search, e: Entry)
    requires Fits(g, flow) && Feasible(g, flow, pi) && st.dist.Keys == g.nodes && Settled(g, flow, st)
    requires Residual(g, flow, e)
    ensures var rho := NextPotential(g, pi, st); rho[g.Head(e)] <= rho[g.Tail(e)] + g.Cost(e)
  {}

  /** The twin of a tight entry is tight in it. */
  lemma TwinWithin(g: Graph, flow: Flow, pi: map<Node, int>, st: Search, e: Entry)
    requires Fits(g, flow) && NonNegative(g) && pi.Keys == g.nodes && st.dist.Keys == g.nodes
    requires g.Has(e) && g.Usable(e.arc) && TightEntry(g, flow, pi, st, e.Twin())
    ensures var rho := NextPotential(g, pi, st); rho[g.Head(e)] <= rho[g.Tail(e)] + g.Cost(e)
  {}

  /** A residual entry after the flips is the twin of one on the path, or was residual before. */
  lemma WhereResidual(g: Graph, flow: Flow, bag: set<Entry>, p: seq<Entry>, e: Entry) returns (k: nat)
    requires Fits(g, flow) && Complementary(flow) && bag == RealEntries(Saturated(flow)) && CanFlip(flow, p)
    requires Fits(g, Flips(flow, bag, p).0) && Residual(g, Flips(flow, bag, p).0, e)
    ensures (k < |p| && p[k] == e.Twin()) || Residual(g, flow, e)
  {
    k := 0;
    FlipsEffect(flow, bag, p);
    hide Flips, CanFlip;
    var flow' := Flips(flow, bag, p).0;
    if i :| 0 <= i < |p| && p[i].arc == e.arc {
      k := i;
    } else {
      assert e.arc in Saturated(flow') <==> e.arc in Saturated(flow);
    }
  }

  lemma NextPotentialFeasible(g: Graph, flow: Flow, bag: set<Entry>, pi: map<Node, int>, st: Search, p: seq<Entry>)
    requires Fits(g, flow) && NonNegative(g) && Complementary(flow) && bag == RealEntries(Saturated(flow))
    requires Feasible(g, flow, pi) && SearchInv(g, flow, pi, st) && Settled(g, flow, st) && st.dist[g.dst] < UNREACHED
    requires CanFlip(flow, p) && forall k :: 0 <= k < |p| ==> TightEntry(g, flow, pi, st, p[k])
    ensures Fits(g, Flips(flow, bag, p).0)
    ensures Feasible(g, Flips(flow, bag, p).0, NextPotential(g, pi, st))
    ensures NextPotential(g, pi, st)[g.dst] == st.dist[g.dst]
  {
    var flow' := Flips(flow, bag, p).0;
    var rho := NextPotential(g, pi, st);
    NextPotentialBounds(g, flow, pi, st);
    hide Flips, NextPotential, TightEntry, CanFlip, Complementary, Saturated, RealEntries, Settled, SearchInv;
    forall e | Residual(g, flow', e) ensures rho[g.Head(e)] <= rho[g.Tail(e)] + g.Cost(e) {
      var k := WhereResidual(g, flow, bag, p, e);
      if Residual(g, flow, e) {
        OldEntryWithin(g, flow, pi, st, e);
      } else {
        TwinWithin(g, flow, pi, st, e);
      }
    }
  }

  lemma FlipsCarry(g: Graph, flow: Flow, bag: set<Entry>, r: int, p: seq<Entry>)
    requires Fits(g, flow) && NonNegative(g) && Complementary(flow) && bag == RealEntries(Saturated(flow))
    requires Carries(g, Saturated(flow), r)
    requires CanFlip(flow, p) && IsWalk(g, flow, g.src, g.dst, p)
    ensures Carries(g, Saturated(Flips(flow, bag, p).0), r + 1)
    ensures WSum(Saturated(Flips(flow, bag, p).0), Prices(g))
                == WSum(Saturated(flow), Prices(g)) + WalkCost(g, flow, g.src, g.dst, p)
  {
    var f' := Saturated(Flips(flow, bag, p).0);
    forall v | v in g.nodes
      ensures WSum(f', Leaving(g, v)) == if v == g.src then r + 1 else if v == g.dst then -(r + 1) else 0
    {
      FlipsSum(flow, bag, p, Leaving(g, v));
      SignedLeaving(g, flow, g.src, g.dst, p, v);
    }
    FlipsSum(flow, bag, p, Prices(g));
    SignedPrices(g, flow, g.src, g.dst, p);
  }

  /** One augmentation: the invariant survives with one more unit of flow, and the cost of the
      saturated arcs grows by exactly the distance found. */
  lemma Augment(g: Graph, flow: Flow, bag: set<Entry>, r: int, pi: map<Node, int>, st: Search) returns (p: seq<Entry>)
    requires FlowInv(g, flow, bag, r, pi) && SearchInv(g, flow, pi, st) && Settled(g, flow, st)
    requires Acyclic(g, st.prev) && st.dist[g.dst] < UNREACHED
    ensures WalkBack(g, st.prev, g.dst, |g.nodes|) == Some(p)
    ensures forall k :: 0 <= k < |p| ==> p[k].arc < |flow.fwd|
    ensures FlowInv(g, Flips(flow, bag, p).0, Flips(flow, bag, p).1, r + 1, NextPotential(g, pi, st))
    ensures WSum(Saturated(Flips(flow, bag, p).0), Prices(g)) == WSum(Saturated(flow), Prices(g)) + st.dist[g.dst]
  {
    p := PathFound(g, flow, pi, st);
    forall k | 0 <= k < |p| ensures p[k].arc < |flow.fwd| && flow.At(p[k]) < 1 {
      assert TightEntry(g, flow, pi, st, p[k]);
    }
    NextPotentialFeasible(g, flow, bag, pi, st, p);
    FlipsEffect(flow, bag, p);
    var f, f' := Saturated(flow), Saturated(Flips(flow, bag, p).0);
    forall j | j in f' ensures j < |g.arcs| && g.Usable(j) && g.arcs[j].End() != g.src && g.arcs[j].Start() != g.dst {
      if k :| 0 <= k < |p| && p[k].arc == j {
        assert TightEntry(g, flow, pi, st, p[k]);
      } else {
        assert j in f;
      }
    }
    FlipsCarry(g, flow, bag, r, p);
  }
}
