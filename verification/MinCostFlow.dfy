/** The whole computation: up to `k` augmentations, and why its result is cheapest and largest. */
module MinCostFlow {
  import opened Wrappers
  import opened FlowNetwork
  import opened BellmanFord
  import opened Augmentation
  import opened Sums

  /** How far the computation has come: still finding paths, out of paths, or one of the two ways
      in which the program would not return. */
  datatype Progress =
    | Active(found: nat, flow: Flow, bag: set<Entry>)
    | Exhausted(found: nat, flow: Flow, bag: set<Entry>)
    | NegativeCycle
    | Stuck

  function EmptyFlow(g: Graph): (f: Flow)
    ensures f.Fits(g)
  {
    Flow(seq(|g.arcs|, _ => 0), seq(|g.arcs|, _ => 1))
  }

  /** One search with at most `passes` passes, and the augmentation along what it found. */
  function Round(g: Graph, passes: nat, found: nat, flow: Flow, bag: set<Entry>): (r: Progress)
    requires Fits(g, flow)
    ensures r.Active? || r.Exhausted? ==> Fits(g, r.flow)
  {
    var (st, moved) := Passes(g, flow, passes);
    if moved then NegativeCycle
    else if st.dist[g.dst] == UNREACHED then Exhausted(found, flow, bag)
    else
      match WalkBack(g, st.prev, g.dst, |g.nodes|)
      case None => Stuck
      case Some(p) =>
        var (flow', bag') := Flips(flow, bag, p);
        Active(found + 1, flow', bag')
  }

  function Rounds(g: Graph, passes: nat, k: nat): (r: Progress)
    requires g.Valid()
    ensures r.Active? || r.Exhausted? ==> Fits(g, r.flow)
  {
    if k == 0 then Active(0, EmptyFlow(g), {})
    else
      var r := Rounds(g, passes, k - 1);
      if r.Active? then Round(g, passes, r.found, r.flow, r.bag) else r
  }

  /** No source-to-destination walk over residual entries is cheaper than the sentinel. */
  ghost predicate NoCheapWalk(g: Graph, flow: Flow)
    requires Fits(g, flow)
  {
    forall p :: IsWalk(g, flow, g.src, g.dst, p) ==> WalkCost(g, flow, g.src, g.dst, p) >= UNREACHED
  }

  ghost predicate FlowOk(g: Graph, flow: Flow, bag: set<Entry>, r: int) {
    exists pi :: FlowInv(g, flow, bag, r, pi)
  }

  lemma StartOk(g: Graph)
    requires g.Valid() && NonNegative(g)
    ensures FlowOk(g, EmptyFlow(g), {}, 0)
  {
    var flow := EmptyFlow(g);
    var pi := map v | v in g.nodes :: 0;
    assert Saturated(flow) == {};
    forall v | v in g.nodes ensures WSum({}, Leaving(g, v)) == 0 { WSumZero({}, Leaving(g, v)); }
    assert FlowInv(g, flow, {}, 0, pi);
  }

  /** A search that misses the destination: nothing cheap enough for the 16-bit sentinel leads there. */
  lemma SearchMissed(g: Graph, flow: Flow, pi: map<Node, int>, passes: nat)
    requires Fits(g, flow) && Feasible(g, flow, pi) && passes >= |g.nodes|
    requires Passes(g, flow, passes).0.dist[g.dst] == UNREACHED
    ensures NoCheapWalk(g, flow)
  {
    PassesConverge(g, flow, pi, passes);
    PassesOk(g, flow, pi, passes);
    var st := Passes(g, flow, passes).0;
    forall p | IsWalk(g, flow, g.src, g.dst, p) ensures WalkCost(g, flow, g.src, g.dst, p) >= UNREACHED {
      SettledBound(g, flow, st, g.src, g.dst, p);
    }
  }

  /** A search that reaches the destination: the augmentation goes through. */
  lemma SearchHit(g: Graph, flow: Flow, bag: set<Entry>, found: int, pi: map<Node, int>, passes: nat)
    returns (p: seq<Entry>)
    requires FlowInv(g, flow, bag, found, pi) && passes >= |g.nodes|
    requires Passes(g, flow, passes).0.dist[g.dst] != UNREACHED
    ensures !Passes(g, flow, passes).1 && !NoCheapWalk(g, flow)
    ensures WalkBack(g, Passes(g, flow, passes).0.prev, g.dst, |g.nodes|) == Some(p)
    ensures forall k :: 0 <= k < |p| ==> p[k].arc < |flow.fwd|
    ensures FlowOk(g, Flips(flow, bag, p).0, Flips(flow, bag, p).1, found + 1)
    ensures WSum(Saturated(Flips(flow, bag, p).0), Prices(g)) < WSum(Saturated(flow), Prices(g)) + UNREACHED
  {
    PassesConverge(g, flow, pi, passes);
    PassesOk(g, flow, pi, passes);
    var st := Passes(g, flow, passes).0;
    assert st.dist[g.dst] < UNREACHED;
    p := Augment(g, flow, bag, found, pi, st);
    var q := PathFound(g, flow, pi, st);
    assert FlowInv(g, Flips(flow, bag, p).0, Flips(flow, bag, p).1, found + 1, NextPotential(g, pi, st));
  }

  /** The search stops moving in time, and it misses the destination exactly when no residual walk
      is cheap enough for the 16-bit sentinel to tell it from "unreached"; a unit it adds costs less
      than the sentinel. */
  lemma RoundOk(g: Graph, passes: nat, found: nat, flow: Flow, bag: set<Entry>)
    requires FlowOk(g, flow, bag, found) && passes >= |g.nodes|
    ensures var r := Round(g, passes, found, flow, bag);
            if NoCheapWalk(g, flow) then r == Exhausted(found, flow, bag)
            else (r.Active? && r.found == found + 1 && FlowOk(g, r.flow, r.bag, found + 1)
                  && WSum(Saturated(r.flow), Prices(g)) < WSum(Saturated(flow), Prices(g)) + UNREACHED)
  {
    var pi :| FlowInv(g, flow, bag, found, pi);
    if Passes(g, flow, passes).0.dist[g.dst] == UNREACHED {
      SearchMissed(g, flow, pi, passes);
      PassesConverge(g, flow, pi, passes);
    } else {
      var p := SearchHit(g, flow, bag, found, pi, passes);
    }
  }

  /** What every call of the computation ends in: neither fatal exit, and a conserving flow of as
      many units as paths were found. */
  ghost predicate Finished(g: Graph, k: nat, r: Progress)
    requires r.Active? || r.Exhausted? ==> Fits(g, r.flow)
  {
    || (r.Active? && r.found == k && FlowOk(g, r.flow, r.bag, r.found))
    || (r.Exhausted? && r.found < k && FlowOk(g, r.flow, r.bag, r.found) && NoCheapWalk(g, r.flow))
  }

  lemma RoundFinished(g: Graph, passes: nat, k: nat, r: Progress)
    requires g.Valid() && passes >= |g.nodes| && (r.Active? || r.Exhausted? ==> Fits(g, r.flow))
    requires Finished(g, k, r) && r.Active?
    ensures Finished(g, k + 1, Round(g, passes, r.found, r.flow, r.bag))
  {
    hide Round, FlowOk, NoCheapWalk;
    RoundOk(g, passes, r.found, r.flow, r.bag);
  }

  lemma {:induction false} RoundsOk(g: Graph, passes: nat, k: nat)
    requires g.Valid() && NonNegative(g) && passes >= |g.nodes|
    ensures Finished(g, k, Rounds(g, passes, k))
  {
    hide Round, FlowOk, NoCheapWalk, NonNegative;
    if k == 0 {
      StartOk(g);
    } else {
      RoundsOk(g, passes, k - 1);
      var r := Rounds(g, passes, k - 1);
      if r.Active? { RoundFinished(g, passes, k - 1, r); }
    }
  }

  /** Once the computation has stopped, asking for more paths changes nothing ... */
  lemma {:induction false} RoundsAfter(g: Graph, passes: nat, k: nat, more: nat)
    requires g.Valid() && !Rounds(g, passes, k).Active? && k <= more
    ensures Rounds(g, passes, more) == Rounds(g, passes, k)
  {
    if more > k { RoundsAfter(g, passes, k, more - 1); }
  }

  /** One more round, and what it settles about `k` rounds if it is the last. */
  lemma RoundsNext(g: Graph, passes: nat, n: nat, k: nat)
    requires g.Valid() && Rounds(g, passes, n).Active? && n < k
    ensures var r := Rounds(g, passes, n); Rounds(g, passes, n + 1) == Round(g, passes, r.found, r.flow, r.bag)
    ensures !Rounds(g, passes, n + 1).Active? ==> Rounds(g, passes, k) == Rounds(g, passes, n + 1)
  {
    hide Round;
    if !Rounds(g, passes, n + 1).Active? { RoundsAfter(g, passes, n + 1, k); }
  }

  lemma RoundFits(g: Graph, passes: nat, found: nat, flow: Flow, bag: set<Entry>)
    requires Fits(g, flow)
    ensures var r := Round(g, passes, found, flow, bag); r.Active? || r.Exhausted? ==> Fits(g, r.flow)
  {}

  lemma {:induction false} RoundsCount(g: Graph, passes: nat, k: nat)
    requires g.Valid()
    ensures Rounds(g, passes, k).Active? ==> Rounds(g, passes, k).found == k
    ensures Rounds(g, passes, k).Exhausted? ==> Rounds(g, passes, k).found < k
  {
    if k > 0 { RoundsCount(g, passes, k - 1); }
  }

  ghost predicate ExactlyAt(g: Graph, passes: nat, n: nat, r: Progress)
    requires g.Valid()
  {
    && r.Exhausted? && r.found == n
    && Rounds(g, passes, n) == Active(n, r.flow, r.bag)
    && Rounds(g, passes, n + 1) == r
  }

  /** ... and what it holds is what asking for exactly the existing paths gives. */
  lemma {:induction false} RoundsExact(g: Graph, passes: nat, k: nat)
    requires g.Valid() && Rounds(g, passes, k).Exhausted?
    ensures ExactlyAt(g, passes, Rounds(g, passes, k).found, Rounds(g, passes, k))
  {
    if Rounds(g, passes, k - 1).Exhausted? {
      RoundsExact(g, passes, k - 1);
    } else {
      FirstExhausted(g, passes, k);
    }
  }

  /** The same flow and bag, reported either as complete or as all there is. */
  ghost predicate SameHolding(a: Progress, b: Progress) {
    && (a.Active? || a.Exhausted?) && (b.Active? || b.Exhausted?)
    && a.found == b.found && a.flow == b.flow && a.bag == b.bag
  }

  lemma RoundsShort(g: Graph, passes: nat, k: nat, other: nat)
    requires g.Valid() && Rounds(g, passes, k).Exhausted? && other >= Rounds(g, passes, k).found
    ensures SameHolding(Rounds(g, passes, other), Rounds(g, passes, k))
  {
    RoundsExact(g, passes, k);
    ExactStands(g, passes, Rounds(g, passes, k).found, Rounds(g, passes, k), other);
  }

  lemma ExactStands(g: Graph, passes: nat, n: nat, r: Progress, other: nat)
    requires g.Valid() && ExactlyAt(g, passes, n, r) && other >= n
    ensures SameHolding(Rounds(g, passes, other), r)
  {
    if other > n { RoundsAfter(g, passes, n + 1, other); }
  }

  lemma FirstExhausted(g: Graph, passes: nat, k: nat)
    requires g.Valid() && k > 0 && Rounds(g, passes, k).Exhausted? && !Rounds(g, passes, k - 1).Exhausted?
    ensures ExactlyAt(g, passes, k - 1, Rounds(g, passes, k))
  {
    RoundsCount(g, passes, k - 1);
    var s := Rounds(g, passes, k - 1);
    RoundExhausted(g, passes, s.found, s.flow, s.bag);
  }

  lemma RoundExhausted(g: Graph, passes: nat, found: nat, flow: Flow, bag: set<Entry>)
    requires Fits(g, flow)
    ensures Round(g, passes, found, flow, bag).Exhausted? ==>
              Round(g, passes, found, flow, bag) == Exhausted(found, flow, bag)
  {}

  // ---------------------------------------------------------------- duality

  /** How much the potential rises along each arc. */
  ghost function Rise(g: Graph, pi: map<Node, int>): seq<int>
    requires g.Valid() && pi.Keys == g.nodes
  {
    seq(|g.arcs|, j requires 0 <= j < |g.arcs| => pi[g.arcs[j].End()] - pi[g.arcs[j].Start()])
  }

  lemma MulNegated(x: int, y: int)
    ensures x * -y == -(y * x)
  {}

  /** Lowering one node by `x` shifts the rise along each arc by `x` times its leaving count. */
  lemma RiseAt(g: Graph, pi: map<Node, int>, v: Node, a: int, x: int, j: nat)
    requires g.Valid() && pi.Keys == g.nodes && v in g.nodes && j < |g.arcs| && x == a - pi[v]
    ensures Rise(g, pi)[j] == Rise(g, pi[v := a])[j] + x * Leaving(g, v)[j]
  {
    assert g.arcs[j].Start() != g.arcs[j].End();
    var l := Leaving(g, v)[j];
    assert l == 0 || l == 1 || l == -1;
    Times(x, l);
  }

  lemma Times(x: int, l: int)
    requires l == 0 || l == 1 || l == -1
    ensures x * l == if l == 0 then 0 else if l == 1 then x else -x
  {}

  lemma RiseMoves(g: Graph, f: set<nat>, pi: map<Node, int>, v: Node, a: int)
    requires g.Valid() && pi.Keys == g.nodes && v in g.nodes
    ensures WSum(f, Rise(g, pi)) == WSum(f, Rise(g, pi[v := a])) + (a - pi[v]) * WSum(f, Leaving(g, v))
  {
    var x := a - pi[v];
    forall j | 0 <= j < |g.arcs| ensures Rise(g, pi)[j] == Rise(g, pi[v := a])[j] + x * Leaving(g, v)[j] {
      RiseAt(g, pi, v, a, x, j);
    }
    assert |Rise(g, pi)| == |Rise(g, pi[v := a])| == |Leaving(g, v)| == |g.arcs|;
    hide Rise, Leaving, WSum;
    WSumLinear(f, Rise(g, pi[v := a]), Leaving(g, v), x, Rise(g, pi));
  }

  lemma RiseShift(g: Graph, f: set<nat>, r: int, pi: map<Node, int>, v: Node, a: int)
    requires g.Valid() && pi.Keys == g.nodes && v in g.nodes
    ensures WSum(f, Leaving(g, v)) == -r ==> WSum(f, Rise(g, pi)) == WSum(f, Rise(g, pi[v := a])) + r * (pi[v] - a)
    ensures WSum(f, Leaving(g, v)) == 0 ==> WSum(f, Rise(g, pi)) == WSum(f, Rise(g, pi[v := a]))
  {
    hide *;
    RiseMoves(g, f, pi, v, a);
    Products(pi[v] - a, a - pi[v], WSum(f, Leaving(g, v)), r);
  }

  lemma Products(d: int, x: int, l: int, r: int)
    requires d == -x
    ensures l == -r ==> x * l == r * d
    ensures l == 0 ==> x * l == 0
  {
    if l == -r {
      MulNegated(x, r);
      MulNegated(r, x);
    }
  }

  lemma RiseStep(g: Graph, f: set<nat>, r: int, pi: map<Node, int>, v: Node)
    requires g.Valid() && pi.Keys == g.nodes && v in g.nodes && v != g.src
    requires WSum(f, Leaving(g, v)) == if v == g.dst then -r else 0
    requires var level := pi[v := pi[g.src]]; WSum(f, Rise(g, level)) == r * (level[g.dst] - level[g.src])
    ensures WSum(f, Rise(g, pi)) == r * (pi[g.dst] - pi[g.src])
  {
    RiseShift(g, f, r, pi, v, pi[g.src]);
    if v == g.dst {
      assert r * (pi[g.src] - pi[g.src]) == 0;
    }
  }

  /** The potential a flow climbs in all is its value times the height of the destination: nodes
      that conserve flow contribute nothing, so they can be levelled one by one. */
  lemma {:induction false} RiseOfFlow(g: Graph, f: set<nat>, r: int, pi: map<Node, int>, todo: set<Node>)
    requires g.Valid() && Carries(g, f, r) && pi.Keys == g.nodes && todo <= g.nodes - {g.src}
    requires forall v :: v in g.nodes && v !in todo ==> pi[v] == pi[g.src]
    ensures WSum(f, Rise(g, pi)) == r * (pi[g.dst] - pi[g.src])
    decreases |todo|
  {
    if todo == {} {
      WSumZero(f, Rise(g, pi));
    } else {
      var v :| v in todo;
      RiseOfFlow(g, f, r, pi[v := pi[g.src]], todo - {v});
      assert WSum(f, Leaving(g, v)) == if v == g.dst then -r else 0;
      RiseStep(g, f, r, pi, v);
    }
  }

  lemma Difference(m: int, r: int, d: int)
    ensures m * d - r * d == (m - r) * d
  {}

  /** What an arc costs more than the potential rises along it. */
  ghost function Reduced(g: Graph, pi: map<Node, int>): seq<int>
    requires g.Valid() && pi.Keys == g.nodes
  {
    seq(|g.arcs|, j requires 0 <= j < |g.arcs| => Prices(g)[j] - Rise(g, pi)[j])
  }

  lemma ReducedSum(g: Graph, f: set<nat>, r: int, pi: map<Node, int>)
    requires g.Valid() && pi.Keys == g.nodes && Carries(g, f, r)
    ensures WSum(f, Reduced(g, pi)) == WSum(f, Prices(g)) - r * (pi[g.dst] - pi[g.src])
  {
    WSumLinear(f, Prices(g), Rise(g, pi), -1, Reduced(g, pi));
    RiseOfFlow(g, f, r, pi, g.nodes - {g.src});
  }

  lemma ReducedSign(g: Graph, flow: Flow, pi: map<Node, int>, j: nat)
    requires Fits(g, flow) && Complementary(flow) && Certifies(g, flow, pi) && j < |g.arcs| && g.Usable(j)
    requires NonNegative(g)
    ensures if j in Saturated(flow) then Reduced(g, pi)[j] <= 0 else Reduced(g, pi)[j] >= 0
  {
    var e := Entry(j, j in Saturated(flow));
    assert Residual(g, flow, e);
    assert pi[g.Head(e)] <= pi[g.Tail(e)] + g.Cost(e);
    assert Prices(g)[j] == g.w[j].value;
    assert Rise(g, pi)[j] == pi[g.arcs[j].End()] - pi[g.arcs[j].Start()];
    assert Reduced(g, pi)[j] == Prices(g)[j] - Rise(g, pi)[j];
  }

  /** Weak duality: whatever no residual entry can shorten says what more flow costs at least. */
  lemma CostAbove(g: Graph, flow: Flow, bag: set<Entry>, r: int, pi: map<Node, int>, h: set<nat>, m: int)
    requires FlowOk(g, flow, bag, r) && Certifies(g, flow, pi)
    requires UsesUsable(g, h) && Carries(g, h, m)
    ensures WSum(h, Prices(g)) >= WSum(Saturated(flow), Prices(g)) + (m - r) * (pi[g.dst] - pi[g.src])
  {
    var f := Saturated(flow);
    forall j: nat | j < |g.arcs| && g.Usable(j)
      ensures if j in f then Reduced(g, pi)[j] <= 0 else Reduced(g, pi)[j] >= 0
    {
      ReducedSign(g, flow, pi, j);
    }
    hide Reduced, WSum, Carries, Certifies;
    WSumLeast(f, h, Reduced(g, pi));
    ReducedSum(g, f, r, pi);
    ReducedSum(g, h, m, pi);
    Difference(m, r, pi[g.dst] - pi[g.src]);
  }

  /** Any flow of the same value over usable arcs costs at least as much. */
  lemma CheapestFlow(g: Graph, flow: Flow, bag: set<Entry>, r: int, h: set<nat>)
    requires FlowOk(g, flow, bag, r)
    requires UsesUsable(g, h) && Carries(g, h, r)
    ensures WSum(Saturated(flow), Prices(g)) <= WSum(h, Prices(g))
  {
    var pi :| FlowInv(g, flow, bag, r, pi);
    CostAbove(g, flow, bag, r, pi, h, r);
    Difference(r, r, pi[g.dst] - pi[g.src]);
  }

  /** With no cheap walk left, one unit more costs at least the sentinel more. */
  lemma DearestUnit(g: Graph, flow: Flow, bag: set<Entry>, r: int, h: set<nat>)
    requires FlowOk(g, flow, bag, r) && NoCheapWalk(g, flow)
    requires UsesUsable(g, h) && Carries(g, h, r + 1)
    ensures WSum(h, Prices(g)) >= WSum(Saturated(flow), Prices(g)) + UNREACHED
  {
    var pi :| FlowInv(g, flow, bag, r, pi);
    var n := |g.nodes|;
    if Passes(g, flow, n).0.dist[g.dst] != UNREACHED {
      var p := SearchHit(g, flow, bag, r, pi, n);
    }
    PassesConverge(g, flow, pi, n);
    PassesOk(g, flow, pi, n);
    CostAbove(g, flow, bag, r, Passes(g, flow, n).0.dist, h, r + 1);
  }

  ghost predicate Reachable(g: Graph, flow: Flow, v: Node)
    requires Fits(g, flow)
  {
    exists p :: IsWalk(g, flow, g.src, v, p)
  }

  ghost function Beyond(g: Graph, flow: Flow): map<Node, int>
    requires Fits(g, flow)
  {
    map v | v in g.nodes :: if Reachable(g, flow, v) then 0 else 1
  }

  /** Used arcs do not lead out of the part in residual reach, and unused ones not into it. */
  lemma CutSign(g: Graph, flow: Flow, j: nat)
    requires Fits(g, flow) && Complementary(flow) && j < |g.arcs| && g.Usable(j)
    ensures if j in Saturated(flow) then Rise(g, Beyond(g, flow))[j] >= 0 else Rise(g, Beyond(g, flow))[j] <= 0
  {
    var e := Entry(j, j in Saturated(flow));
    assert Residual(g, flow, e);
    if Reachable(g, flow, g.Tail(e)) {
      var p :| IsWalk(g, flow, g.src, g.Tail(e), p);
      ExtendWalk(g, flow, g.src, g.Tail(e), p, e);
    }
  }

  lemma MinusSum(g: Graph, f: set<nat>, r: int, pi: map<Node, int>, zero: seq<int>, down: seq<int>)
    requires g.Valid() && pi.Keys == g.nodes && Carries(g, f, r)
    requires |zero| == |down| == |g.arcs|
    requires forall j :: 0 <= j < |g.arcs| ==> zero[j] == 0 && down[j] == -Rise(g, pi)[j]
    ensures WSum(f, down) == -(r * (pi[g.dst] - pi[g.src]))
  {
    WSumZero(f, zero);
    WSumLinear(f, zero, Rise(g, pi), -1, down);
    RiseOfFlow(g, f, r, pi, g.nodes - {g.src});
  }

  /** The residual cut: when the destination is out of residual reach, no flow over usable arcs
      carries more. */
  lemma LargestFlow(g: Graph, flow: Flow, bag: set<Entry>, r: int, h: set<nat>, m: int)
    requires FlowOk(g, flow, bag, r) && !Reachable(g, flow, g.dst)
    requires UsesUsable(g, h) && Carries(g, h, m)
    ensures m <= r
  {
    var f, pi := Saturated(flow), Beyond(g, flow);
    assert IsWalk(g, flow, g.src, g.src, []);
    var zero := seq(|g.arcs|, _ => 0);
    var down := seq(|g.arcs|, j requires 0 <= j < |g.arcs| => -Rise(g, pi)[j]);
    forall j: nat | j < |g.arcs| && g.Usable(j) ensures if j in f then down[j] <= 0 else down[j] >= 0 {
      CutSign(g, flow, j);
    }
    assert pi[g.src] == 0 && pi[g.dst] == 1;
    hide Beyond, Rise, WSum, Carries, Reachable, IsWalk;
    WSumLeast(f, h, down);
    MinusSum(g, f, r, pi, zero, down);
    MinusSum(g, h, m, pi, zero, down);
  }

  // ---------------------------------------------------------------- when the sentinel is honest

  ghost predicate NoRepeats(g: Graph, a: Node, p: seq<Entry>)
    requires forall k :: 0 <= k < |p| ==> g.Has(p[k])
  {
    forall i, j :: 0 <= i < j <= |p| ==> At(g, a, p, i) != At(g, a, p, j)
  }

  lemma {:induction false} SimpleWalk(g: Graph, flow: Flow, pi: map<Node, int>, a: Node, b: Node, p: seq<Entry>)
    returns (q: seq<Entry>)
    requires Fits(g, flow) && Feasible(g, flow, pi) && IsWalk(g, flow, a, b, p)
    ensures IsWalk(g, flow, a, b, q) && (forall k :: 0 <= k < |q| ==> g.Has(q[k])) && NoRepeats(g, a, q)
    decreases |p|
  {
    WalkEnds(g, flow, a, b, p);
    if i, j :| 0 <= i < j <= |p| && At(g, a, p, i) == At(g, a, p, j) {
      q := CutWalk(g, flow, pi, a, b, p, i, j);
      q := SimpleWalk(g, flow, pi, a, b, q);
    } else {
      q := p;
    }
  }

  ghost function ArcsOf(p: seq<Entry>): set<nat> { set e | e in p :: e.arc }

  lemma {:induction false} SimpleWalkCost(g: Graph, flow: Flow, a: Node, b: Node, p: seq<Entry>)
    requires Fits(g, flow) && NonNegative(g) && IsWalk(g, flow, a, b, p) && DistinctArcs(p)
    ensures WalkCost(g, flow, a, b, p) <= WSum(ArcsOf(p), Prices(g))
    decreases |p|
  {
    if p == [] {
      WSumZero(ArcsOf(p), Prices(g));
    } else {
      var n := |p| - 1;
      SimpleWalkCost(g, flow, a, g.Tail(p[n]), p[..n]);
      assert ArcsOf(p) == ArcsOf(p[..n]) + {p[n].arc};
      WSumAdd(ArcsOf(p[..n]), Prices(g), p[n].arc);
    }
  }

  lemma {:induction false} SimpleWalkArcs(g: Graph, flow: Flow, a: Node, b: Node, p: seq<Entry>)
    requires Fits(g, flow) && IsWalk(g, flow, a, b, p) && (forall k :: 0 <= k < |p| ==> g.Has(p[k]))
    requires NoRepeats(g, a, p)
    ensures DistinctArcs(p)
  {
    forall i, j | 0 <= i < j < |p| ensures p[i].arc != p[j].arc {
      SplitWalk(g, flow, a, b, p, i + 1);
      SplitWalk(g, flow, a, At(g, a, p, i + 1), p[..i + 1], i);
      assert p[..i + 1][i..] == [p[i]];
      assert At(g, a, p, i) == At(g, a, p[..i + 1], i);
      assert IsWalk(g, flow, At(g, a, p, i), At(g, a, p, i + 1), [p[i]]);
      assert [p[i]][..0] == [];
      assert g.Tail(p[i]) == At(g, a, p, i);
      assert At(g, a, p, j + 1) != At(g, a, p, i) && At(g, a, p, j + 1) != At(g, a, p, i + 1);
    }
  }

  lemma {:induction false} PricesTotal(w: seq<Option<int>>, u: seq<int>, f: set<nat>)
    requires |u| == |w| && forall j :: 0 <= j < |w| ==> u[j] == (if w[j].Some? then w[j].value else 0) && u[j] >= 0
    ensures WSum(f, u) <= TotalCost(w)
  {
    if |w| > 0 {
      PricesTotal(w[..|w| - 1], u[..|w| - 1], f);
    }
  }

  /** While all usable arcs together cost less than the sentinel, every walk is too dear exactly when
      there is none. */
  lemma HonestSentinel(g: Graph, flow: Flow, bag: set<Entry>, r: int)
    requires FlowOk(g, flow, bag, r) && TotalCost(g.w) < UNREACHED
    ensures NoCheapWalk(g, flow) <==> !Reachable(g, flow, g.dst)
  {
    var pi :| FlowInv(g, flow, bag, r, pi);
    if p :| IsWalk(g, flow, g.src, g.dst, p) {
      var q := SimpleWalk(g, flow, pi, g.src, g.dst, p);
      SimpleWalkArcs(g, flow, g.src, g.dst, q);
      SimpleWalkCost(g, flow, g.src, g.dst, q);
      PricesTotal(g.w, Prices(g), ArcsOf(q));
    }
  }
}
