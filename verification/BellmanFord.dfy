/** One shortest-path search: relaxation of every list entry, repeated until nothing moves. */
module BellmanFord {
  import opened Wrappers
  import opened FlowNetwork

  /** The distance and previous_edge fields of all flow nodes; a node absent from `prev` has a
      null previous_edge. */
  datatype Search = Search(dist: map<Node, int>, prev: map<Node, Entry>)

  function InitSearch(g: Graph): Search {
    Search(map v | v in g.nodes :: if v == g.src then 0 else UNREACHED, map[])
  }

  ghost predicate Fits(g: Graph, flow: Flow) { g.Valid() && flow.Fits(g) }

  /** Entry `e` has spare capacity and its link is not broken. */
  predicate Residual(g: Graph, flow: Flow, e: Entry)
    requires flow.Fits(g) && |g.w| == |g.arcs|
  {
    g.Has(e) && g.Usable(e.arc) && flow.At(e) < 1
  }

  predicate Relaxable(g: Graph, flow: Flow, st: Search, e: Entry)
    requires Fits(g, flow) && st.dist.Keys == g.nodes
  {
    Residual(g, flow, e) && st.dist[g.Head(e)] > st.dist[g.Tail(e)] + g.Cost(e)
  }

  function Relax(g: Graph, flow: Flow, st: Search, e: Entry): (r: Search)
    requires Fits(g, flow) && st.dist.Keys == g.nodes
    ensures r.dist.Keys == g.nodes
  {
    if Relaxable(g, flow, st, e) then
      Search(st.dist[g.Head(e) := ToU16(st.dist[g.Tail(e)] + g.Cost(e))], st.prev[g.Head(e) := e])
    else st
  }

  /** The state after relaxing the first `n` list entries in order, and whether anything moved. */
  function PassTo(g: Graph, flow: Flow, st: Search, n: nat): (r: (Search, bool))
    requires Fits(g, flow) && st.dist.Keys == g.nodes
    ensures r.0.dist.Keys == g.nodes
  {
    if n == 0 then (st, false)
    else
      var (s, moved) := PassTo(g, flow, st, n - 1);
      (Relax(g, flow, s, EntryAt(n - 1)), moved || Relaxable(g, flow, s, EntryAt(n - 1)))
  }

  /** The state after at most `n` passes, stopping after a pass that moves nothing. */
  function Passes(g: Graph, flow: Flow, n: nat): (r: (Search, bool))
    requires Fits(g, flow)
    ensures r.0.dist.Keys == g.nodes
  {
    if n == 0 then (InitSearch(g), true)
    else
      var (s, moved) := Passes(g, flow, n - 1);
      if moved then PassTo(g, flow, s, g.Entries()) else (s, false)
  }

  /** previous_edge only ever points into the list. */
  ghost predicate Listed(g: Graph, prev: map<Node, Entry>) {
    forall v :: v in prev ==> g.Has(prev[v])
  }

  lemma {:induction false} PassListed(g: Graph, flow: Flow, st: Search, n: nat)
    requires Fits(g, flow) && st.dist.Keys == g.nodes && Listed(g, st.prev)
    ensures Listed(g, PassTo(g, flow, st, n).0.prev)
  {
    if n > 0 { PassListed(g, flow, st, n - 1); }
  }

  lemma PassesNext(g: Graph, flow: Flow, n: nat)
    requires Fits(g, flow) && Passes(g, flow, n).1 && Listed(g, Passes(g, flow, n).0.prev)
    ensures Passes(g, flow, n + 1) == PassTo(g, flow, Passes(g, flow, n).0, g.Entries())
    ensures Listed(g, Passes(g, flow, n + 1).0.prev)
  {
    PassListed(g, flow, Passes(g, flow, n).0, g.Entries());
  }

  lemma {:induction false} PassesStop(g: Graph, flow: Flow, n: nat, more: nat)
    requires Fits(g, flow) && !Passes(g, flow, n).1 && n <= more
    ensures Passes(g, flow, more) == Passes(g, flow, n)
  {
    if more > n { PassesStop(g, flow, n, more - 1); }
  }

  // ---------------------------------------------------------------- potentials

  /** `pi` certifies that no residual entry can shorten anything below it. */
  ghost predicate Certifies(g: Graph, flow: Flow, pi: map<Node, int>)
    requires Fits(g, flow)
  {
    && pi.Keys == g.nodes
    && (forall e :: Residual(g, flow, e) ==> pi[g.Head(e)] <= pi[g.Tail(e)] + g.Cost(e))
  }

  /** A certificate that starts at 0, peaks at the destination and stays below the sentinel. */
  ghost predicate Feasible(g: Graph, flow: Flow, pi: map<Node, int>)
    requires Fits(g, flow)
  {
    && Certifies(g, flow, pi)
    && pi[g.src] == 0
    && (forall v :: v in g.nodes ==> 0 <= pi[v] <= pi[g.dst])
    && pi[g.dst] < UNREACHED
  }

  ghost predicate SearchInv(g: Graph, flow: Flow, pi: map<Node, int>, st: Search)
    requires Fits(g, flow) && pi.Keys == g.nodes
  {
    && st.dist.Keys == g.nodes
    && st.prev.Keys <= g.nodes - {g.src}
    && st.dist[g.src] == 0
    && (forall v {:trigger st.dist[v]} :: v in g.nodes ==> pi[v] <= st.dist[v] <= UNREACHED)
    && (forall v {:trigger st.dist[v]} :: v in g.nodes && v !in st.prev && v != g.src ==> st.dist[v] == UNREACHED)
    && (forall v {:trigger PrevOk(g, flow, st, v)} :: v in st.prev ==> PrevOk(g, flow, st, v))
  }

  ghost predicate PrevOk(g: Graph, flow: Flow, st: Search, v: Node)
    requires Fits(g, flow) && st.dist.Keys == g.nodes && v in st.prev
  {
    var e := st.prev[v];
    && Residual(g, flow, e)
    && g.Head(e) == v
    && st.dist[g.Tail(e)] + g.Cost(e) <= st.dist[v] < UNREACHED
  }

  /** `rank` witnesses that following previous_edge always terminates. */
  ghost predicate Ranked(g: Graph, prev: map<Node, Entry>, rank: map<Node, nat>) {
    && rank.Keys == g.nodes
    && (forall v {:trigger prev[v]} :: v in prev ==> (v in g.nodes && g.Has(prev[v]) && g.Tail(prev[v]) in g.nodes &&
                                   rank[g.Tail(prev[v])] < rank[v]))
  }

  ghost predicate Acyclic(g: Graph, prev: map<Node, Entry>) {
    exists rank :: Ranked(g, prev, rank)
  }

  /** `a` lies on the previous_edge chain of `x` (or is `x`). */
  ghost predicate OnChain(g: Graph, prev: map<Node, Entry>, rank: map<Node, nat>, a: Node, x: Node)
    requires Ranked(g, prev, rank) && x in g.nodes
    decreases rank[x]
  {
    x == a || (x in prev && OnChain(g, prev, rank, a, g.Tail(prev[x])))
  }

  /** Reduced distance never drops along a previous_edge chain. */
  lemma {:induction false} ChainMonotone(g: Graph, flow: Flow, pi: map<Node, int>, st: Search,
                                         rank: map<Node, nat>, a: Node, x: Node)
    requires Fits(g, flow) && Feasible(g, flow, pi) && SearchInv(g, flow, pi, st)
    requires Ranked(g, st.prev, rank) && a in g.nodes && x in g.nodes && OnChain(g, st.prev, rank, a, x)
    ensures st.dist[a] - pi[a] <= st.dist[x] - pi[x]
    decreases rank[x]
  {
    if x != a {
      assert PrevOk(g, flow, st, x);
      ChainMonotone(g, flow, pi, st, rank, a, g.Tail(st.prev[x]));
    }
  }

  /** Relaxing never makes the predecessor graph cyclic: a relaxation that closed a cycle would
      have to lower a node below its own reduced distance. */
  lemma RelaxAcyclic(g: Graph, flow: Flow, pi: map<Node, int>, st: Search, e: Entry)
    requires Fits(g, flow) && Feasible(g, flow, pi) && SearchInv(g, flow, pi, st)
    requires Acyclic(g, st.prev)
    ensures Acyclic(g, Relax(g, flow, st, e).prev)
  {
    var rank :| Ranked(g, st.prev, rank);
    if Relaxable(g, flow, st, e) {
      var u, v := g.Tail(e), g.Head(e);
      if OnChain(g, st.prev, rank, v, u) {
        ChainMonotone(g, flow, pi, st, rank, v, u);
        assert false;
      }
      var prev' := st.prev[v := e];
      var rank' := map x | x in g.nodes ::
        if OnChain(g, st.prev, rank, v, x) then rank[x] + rank[u] + 1 else rank[x];
      forall x | x in prev' ensures rank'[g.Tail(prev'[x])] < rank'[x] {
        if x != v {
          assert x in st.prev && prev'[x] == st.prev[x];
        }
      }
      assert Ranked(g, prev', rank');
    }
  }

  /** A relaxation that does something lowers the entry's head to a value in range. */
  lemma RelaxLowers(g: Graph, flow: Flow, pi: map<Node, int>, st: Search, e: Entry)
    requires Fits(g, flow) && Feasible(g, flow, pi) && SearchInv(g, flow, pi, st) && Relaxable(g, flow, st, e)
    ensures g.Tail(e) in g.nodes && g.Head(e) in g.nodes && g.Tail(e) != g.Head(e) && g.Head(e) != g.src
    ensures var d := st.dist[g.Tail(e)] + g.Cost(e);
            && pi[g.Head(e)] <= d < st.dist[g.Head(e)] <= UNREACHED
            && Relax(g, flow, st, e) == Search(st.dist[g.Head(e) := d], st.prev[g.Head(e) := e])
  {
    assert pi[g.Head(e)] <= st.dist[g.Tail(e)] + g.Cost(e);
  }

  lemma RelaxPrev(g: Graph, flow: Flow, pi: map<Node, int>, st: Search, e: Entry, x: Node)
    requires Fits(g, flow) && Feasible(g, flow, pi) && SearchInv(g, flow, pi, st) && Relaxable(g, flow, st, e)
    requires x in Relax(g, flow, st, e).prev
    ensures PrevOk(g, flow, Relax(g, flow, st, e), x)
  {
    RelaxLowers(g, flow, pi, st, e);
    if x != g.Head(e) { assert PrevOk(g, flow, st, x); }
  }

  lemma RelaxKeeps(g: Graph, flow: Flow, pi: map<Node, int>, st: Search, e: Entry)
    requires Fits(g, flow) && Feasible(g, flow, pi) && SearchInv(g, flow, pi, st) && Relaxable(g, flow, st, e)
    ensures SearchInv(g, flow, pi, Relax(g, flow, st, e))
  {
    RelaxLowers(g, flow, pi, st, e);
    var r := Relax(g, flow, st, e);
    forall x | x in r.prev ensures PrevOk(g, flow, r, x) { RelaxPrev(g, flow, pi, st, e, x); }
    hide PrevOk, Relax, Relaxable;
  }

  lemma RelaxInv(g: Graph, flow: Flow, pi: map<Node, int>, st: Search, e: Entry)
    requires Fits(g, flow) && Feasible(g, flow, pi) && SearchInv(g, flow, pi, st)
    ensures SearchInv(g, flow, pi, Relax(g, flow, st, e))
    ensures forall v :: v in g.nodes ==> Relax(g, flow, st, e).dist[v] <= st.dist[v]
    ensures Residual(g, flow, e) ==>
              Relax(g, flow, st, e).dist[g.Head(e)] <= st.dist[g.Tail(e)] + g.Cost(e)
    ensures Relaxable(g, flow, st, e) ==>
              Relax(g, flow, st, e).dist[g.Head(e)] == st.dist[g.Tail(e)] + g.Cost(e)
  {
    if Relaxable(g, flow, st, e) {
      RelaxLowers(g, flow, pi, st, e);
      RelaxKeeps(g, flow, pi, st, e);
    }
    hide SearchInv, Feasible;
  }

  /** No residual entry can lower anything any more. */
  ghost predicate Settled(g: Graph, flow: Flow, st: Search)
    requires Fits(g, flow) && st.dist.Keys == g.nodes
  {
    forall e :: Residual(g, flow, e) ==> st.dist[g.Head(e)] <= st.dist[g.Tail(e)] + g.Cost(e)
  }

  ghost predicate SearchOk(g: Graph, flow: Flow, pi: map<Node, int>, st: Search)
    requires Fits(g, flow) && pi.Keys == g.nodes
  {
    SearchInv(g, flow, pi, st) && Acyclic(g, st.prev) && AllAttained(g, flow, st)
  }

  lemma RelaxOk(g: Graph, flow: Flow, pi: map<Node, int>, st: Search, e: Entry)
    requires Fits(g, flow) && Feasible(g, flow, pi) && SearchOk(g, flow, pi, st)
    ensures SearchOk(g, flow, pi, Relax(g, flow, st, e))
    ensures Lower(g, Relax(g, flow, st, e), st)
    ensures Relaxed(g, flow, Relax(g, flow, st, e), st, e)
  {
    RelaxAcyclic(g, flow, pi, st, e);
    RelaxInv(g, flow, pi, st, e);
    RelaxAttained(g, flow, pi, st, e);
  }

  /** No node is farther in `s` than in `st`. */
  ghost predicate Lower(g: Graph, s: Search, st: Search)
    requires s.dist.Keys == g.nodes && st.dist.Keys == g.nodes
  {
    forall v :: v in g.nodes ==> s.dist[v] <= st.dist[v]
  }

  /** Entry `i` has been applied: in `s` its head is no farther than its tail was in `st`. */
  ghost predicate Relaxed(g: Graph, flow: Flow, s: Search, st: Search, e: Entry)
    requires Fits(g, flow) && s.dist.Keys == g.nodes && st.dist.Keys == g.nodes
  {
    Residual(g, flow, e) ==> s.dist[g.Head(e)] <= st.dist[g.Tail(e)] + g.Cost(e)
  }

  lemma {:induction false} PassOk(g: Graph, flow: Flow, pi: map<Node, int>, st: Search, m: nat, n: nat)
    requires Fits(g, flow) && Feasible(g, flow, pi) && SearchOk(g, flow, pi, st) && m <= n
    ensures SearchOk(g, flow, pi, PassTo(g, flow, st, n).0)
    ensures Lower(g, PassTo(g, flow, st, n).0, PassTo(g, flow, st, m).0)
  {
    assert pi.Keys == g.nodes;
    hide SearchOk, Feasible, Relax;
    if n > 0 {
      PassOk(g, flow, pi, st, if m < n then m else m - 1, n - 1);
      RelaxOk(g, flow, pi, PassTo(g, flow, st, n - 1).0, EntryAt(n - 1));
    }
  }

  lemma RelaxedStays(g: Graph, flow: Flow, end: Search, after: Search, before: Search, st: Search, e: Entry)
    requires Fits(g, flow) && end.dist.Keys == after.dist.Keys == before.dist.Keys == st.dist.Keys == g.nodes
    requires Lower(g, end, after) && Relaxed(g, flow, after, before, e) && Lower(g, before, st)
    ensures Relaxed(g, flow, end, st, e)
  {}

  lemma PassNext(g: Graph, flow: Flow, st: Search, n: nat)
    requires Fits(g, flow) && st.dist.Keys == g.nodes
    ensures var (s, moved) := PassTo(g, flow, st, n);
            PassTo(g, flow, st, n + 1)
              == (Relax(g, flow, s, EntryAt(n)), moved || Relaxable(g, flow, s, EntryAt(n)))
    ensures PassTo(g, flow, st, 0) == (st, false)
  {
    hide Relax, Relaxable;
  }

  lemma AllKeys(g: Graph, flow: Flow, pi: map<Node, int>, st: Search)
    requires Fits(g, flow) && Feasible(g, flow, pi) && SearchOk(g, flow, pi, st)
    ensures pi.Keys == g.nodes == st.dist.Keys
  {}

  /** After a pass, every entry it has been over is applied. */
  lemma PassRelaxed(g: Graph, flow: Flow, pi: map<Node, int>, st: Search, n: nat, i: nat)
    requires Fits(g, flow) && Feasible(g, flow, pi) && SearchOk(g, flow, pi, st) && i < n
    ensures Relaxed(g, flow, PassTo(g, flow, st, n).0, st, EntryAt(i))
  {
    hide *;
    AllKeys(g, flow, pi, st);
    PassOk(g, flow, pi, st, 0, i);
    PassOk(g, flow, pi, st, i + 1, n);
    PassNext(g, flow, st, i);
    RelaxOk(g, flow, pi, PassTo(g, flow, st, i).0, EntryAt(i));
    RelaxedStays(g, flow, PassTo(g, flow, st, n).0, PassTo(g, flow, st, i + 1).0, PassTo(g, flow, st, i).0,
                 st, EntryAt(i));
  }

  /** A pass reports no movement exactly when no entry was relaxable, and then changed nothing. */
  lemma {:induction false} PassStill(g: Graph, flow: Flow, st: Search, n: nat)
    requires Fits(g, flow) && st.dist.Keys == g.nodes
    ensures !PassTo(g, flow, st, n).1 <==> forall i :: 0 <= i < n ==> !Relaxable(g, flow, st, EntryAt(i))
    ensures !PassTo(g, flow, st, n).1 ==> PassTo(g, flow, st, n).0 == st
  {
    if n > 0 {
      PassStill(g, flow, st, n - 1);
      if forall i :: 0 <= i < n ==> !Relaxable(g, flow, st, EntryAt(i)) {
        assert !Relaxable(g, flow, st, EntryAt(n - 1));
      }
      if !PassTo(g, flow, st, n).1 {
        assert !Relaxable(g, flow, st, EntryAt(n - 1));
      }
      assert PassTo(g, flow, st, n - 1).1 ==> exists i :: 0 <= i < n - 1 && Relaxable(g, flow, st, EntryAt(i));
    }
  }

  lemma PassSettled(g: Graph, flow: Flow, st: Search)
    requires Fits(g, flow) && st.dist.Keys == g.nodes
    ensures !PassTo(g, flow, st, g.Entries()).1 <==> Settled(g, flow, st)
    ensures !PassTo(g, flow, st, g.Entries()).1 ==> PassTo(g, flow, st, g.Entries()).0 == st
  {
    PassStill(g, flow, st, g.Entries());
    forall e: Entry | g.Has(e) ensures 0 <= Position(e) < g.Entries() && EntryAt(Position(e)) == e {}
    if !PassTo(g, flow, st, g.Entries()).1 {
      forall e: Entry | Residual(g, flow, e) ensures st.dist[g.Head(e)] <= st.dist[g.Tail(e)] + g.Cost(e) {
        assert !Relaxable(g, flow, st, EntryAt(Position(e)));
      }
    }
  }

  lemma InitOk(g: Graph, flow: Flow, pi: map<Node, int>)
    requires Fits(g, flow) && Feasible(g, flow, pi)
    ensures SearchOk(g, flow, pi, InitSearch(g))
  {
    var st := InitSearch(g);
    assert Ranked(g, st.prev, map v | v in g.nodes :: 0);
    forall v | v in g.nodes ensures Attained(g, flow, v, st.dist[v]) {
      assert IsWalk(g, flow, v, v, []) && WalkCost(g, flow, v, v, []) == 0;
    }
  }

  lemma {:induction false} PassesOk(g: Graph, flow: Flow, pi: map<Node, int>, n: nat)
    requires Fits(g, flow) && Feasible(g, flow, pi)
    ensures SearchOk(g, flow, pi, Passes(g, flow, n).0)
    ensures !Passes(g, flow, n).1 ==> Settled(g, flow, Passes(g, flow, n).0)
    ensures Lower(g, Passes(g, flow, n).0, InitSearch(g))
  {
    if n == 0 {
      InitOk(g, flow, pi);
    } else {
      PassesOk(g, flow, pi, n - 1);
      var s := Passes(g, flow, n - 1).0;
      if Passes(g, flow, n - 1).1 {
        PassOk(g, flow, pi, s, 0, g.Entries());
        PassSettled(g, flow, s);
      }
    }
  }

  // ---------------------------------------------------------------- walks

  /** `p` is a sequence of residual entries leading from `a` to `b`. */
  ghost predicate IsWalk(g: Graph, flow: Flow, a: Node, b: Node, p: seq<Entry>)
    requires Fits(g, flow)
    decreases |p|
  {
    if p == [] then a == b && a in g.nodes
    else
      var e := p[|p| - 1];
      Residual(g, flow, e) && g.Head(e) == b && IsWalk(g, flow, a, g.Tail(e), p[..|p| - 1])
  }

  ghost function WalkCost(g: Graph, flow: Flow, a: Node, b: Node, p: seq<Entry>): int
    requires Fits(g, flow) && IsWalk(g, flow, a, b, p)
    decreases |p|
  {
    if p == [] then 0
    else WalkCost(g, flow, a, g.Tail(p[|p| - 1]), p[..|p| - 1]) + g.Cost(p[|p| - 1])
  }

  /** The node that the walk `p` from `a` has reached after its first `k` entries. */
  ghost function At(g: Graph, a: Node, p: seq<Entry>, k: nat): Node
    requires k <= |p| && (k > 0 ==> g.Has(p[k - 1]))
  {
    if k == 0 then a else g.Head(p[k - 1])
  }

  ghost function Base(g: Graph, v: Node): int { if v == g.src then 0 else UNREACHED }

  ghost predicate Attained(g: Graph, flow: Flow, v: Node, d: int)
    requires Fits(g, flow)
  {
    exists a, p :: IsWalk(g, flow, a, v, p) && Base(g, a) + WalkCost(g, flow, a, v, p) == d
  }

  ghost predicate AllAttained(g: Graph, flow: Flow, st: Search)
    requires Fits(g, flow)
  {
    st.dist.Keys == g.nodes
    && forall v {:trigger Attained(g, flow, v, st.dist[v])} :: v in g.nodes ==> Attained(g, flow, v, st.dist[v])
  }

  lemma ExtendWalk(g: Graph, flow: Flow, a: Node, b: Node, p: seq<Entry>, e: Entry)
    requires Fits(g, flow) && IsWalk(g, flow, a, b, p)
    requires Residual(g, flow, e) && g.Tail(e) == b
    ensures IsWalk(g, flow, a, g.Head(e), p + [e])
    ensures WalkCost(g, flow, a, g.Head(e), p + [e]) == WalkCost(g, flow, a, b, p) + g.Cost(e)
  {
    assert (p + [e])[..|p + [e]| - 1] == p;
  }

  lemma RelaxAttained(g: Graph, flow: Flow, pi: map<Node, int>, st: Search, e: Entry)
    requires Fits(g, flow) && Feasible(g, flow, pi) && SearchInv(g, flow, pi, st)
    requires AllAttained(g, flow, st)
    ensures AllAttained(g, flow, Relax(g, flow, st, e))
  {
    RelaxInv(g, flow, pi, st, e);
    if Relaxable(g, flow, st, e) {
      assert Attained(g, flow, g.Tail(e), st.dist[g.Tail(e)]);
      var a, p :| IsWalk(g, flow, a, g.Tail(e), p)
                  && Base(g, a) + WalkCost(g, flow, a, g.Tail(e), p) == st.dist[g.Tail(e)];
      ExtendWalk(g, flow, a, g.Tail(e), p, e);
      assert Attained(g, flow, g.Head(e), st.dist[g.Tail(e)] + g.Cost(e));
    }
  }

  lemma {:induction false} WalkEnds(g: Graph, flow: Flow, a: Node, b: Node, p: seq<Entry>)
    requires Fits(g, flow) && IsWalk(g, flow, a, b, p)
    ensures a in g.nodes && b in g.nodes
    ensures forall k :: 0 <= k < |p| ==> g.Has(p[k])
    decreases |p|
  {
    if p != [] { WalkEnds(g, flow, a, g.Tail(p[|p| - 1]), p[..|p| - 1]); }
  }

  lemma {:induction false} JoinWalks(g: Graph, flow: Flow, a: Node, b: Node, c: Node, p: seq<Entry>, q: seq<Entry>)
    requires Fits(g, flow) && IsWalk(g, flow, a, b, p) && IsWalk(g, flow, b, c, q)
    ensures IsWalk(g, flow, a, c, p + q)
    ensures WalkCost(g, flow, a, c, p + q) == WalkCost(g, flow, a, b, p) + WalkCost(g, flow, b, c, q)
    decreases |q|
  {
    if q == [] {
      assert p + q == p;
    } else {
      var n := |q| - 1;
      JoinWalks(g, flow, a, b, g.Tail(q[n]), p, q[..n]);
      assert (p + q)[..|p + q| - 1] == p + q[..n];
    }
  }

  lemma {:induction false} SplitWalk(g: Graph, flow: Flow, a: Node, b: Node, p: seq<Entry>, i: nat)
    requires Fits(g, flow) && IsWalk(g, flow, a, b, p) && i <= |p|
    ensures i > 0 ==> g.Has(p[i - 1])
    ensures IsWalk(g, flow, a, At(g, a, p, i), p[..i]) && IsWalk(g, flow, At(g, a, p, i), b, p[i..])
    ensures WalkCost(g, flow, a, b, p)
                == WalkCost(g, flow, a, At(g, a, p, i), p[..i]) + WalkCost(g, flow, At(g, a, p, i), b, p[i..])
    decreases |p|
  {
    WalkEnds(g, flow, a, b, p);
    var n := |p|;
    if i == n {
      assert p[..i] == p && p[i..] == [];
    } else {
      SplitWalk(g, flow, a, g.Tail(p[n - 1]), p[..n - 1], i);
      assert p[..n - 1][..i] == p[..i];
      assert p[i..][..n - i - 1] == p[..n - 1][i..];
      assert At(g, a, p, i) == At(g, a, p[..n - 1], i);
    }
  }

  /** Telescoping: a walk costs at least the potential difference of its ends. */
  lemma {:induction false} WalkAbovePotential(g: Graph, flow: Flow, pi: map<Node, int>, a: Node, b: Node, p: seq<Entry>)
    requires Fits(g, flow) && Certifies(g, flow, pi) && IsWalk(g, flow, a, b, p)
    ensures a in g.nodes && b in g.nodes && WalkCost(g, flow, a, b, p) >= pi[b] - pi[a]
    decreases |p|
  {
    if p != [] {
      WalkAbovePotential(g, flow, pi, a, g.Tail(p[|p| - 1]), p[..|p| - 1]);
    }
  }

  lemma {:induction false} Pigeonhole<T>(s: seq<T>, pool: set<T>) returns (i: nat, j: nat)
    requires |s| > |pool| && forall k :: 0 <= k < |s| ==> s[k] in pool
    ensures i < j < |s| && s[i] == s[j]
  {
    var n := |s| - 1;
    if k: nat :| k < n && s[k] == s[n] {
      i, j := k, n;
    } else {
      i, j := Pigeonhole(s[..n], pool - {s[n]});
    }
  }

  /** Every walk can be cut down to fewer entries than there are nodes without costing more. */
  lemma {:induction false} ShortenWalk(g: Graph, flow: Flow, pi: map<Node, int>, a: Node, b: Node, p: seq<Entry>)
    returns (q: seq<Entry>)
    requires Fits(g, flow) && Feasible(g, flow, pi) && IsWalk(g, flow, a, b, p)
    ensures IsWalk(g, flow, a, b, q) && |q| < |g.nodes| && WalkCost(g, flow, a, b, q) <= WalkCost(g, flow, a, b, p)
    decreases |p|
  {
    if |p| < |g.nodes| { return p; }
    WalkEnds(g, flow, a, b, p);
    var stops := seq(|p| + 1, k requires 0 <= k <= |p| => At(g, a, p, k));
    forall k | 0 <= k < |stops| ensures stops[k] in g.nodes {
      SplitWalk(g, flow, a, b, p, k);
      WalkEnds(g, flow, a, stops[k], p[..k]);
    }
    var i, j := Pigeonhole(stops, g.nodes);
    q := CutWalk(g, flow, pi, a, b, p, i, j);
    q := ShortenWalk(g, flow, pi, a, b, q);
  }

  /** Leaving out a closed stretch of a walk does not make it dearer. */
  lemma CutWalk(g: Graph, flow: Flow, pi: map<Node, int>, a: Node, b: Node, p: seq<Entry>, i: nat, j: nat)
    returns (q: seq<Entry>)
    requires Fits(g, flow) && Feasible(g, flow, pi) && IsWalk(g, flow, a, b, p)
    requires i < j <= |p| && (forall k :: 0 <= k < |p| ==> g.Has(p[k])) && At(g, a, p, i) == At(g, a, p, j)
    ensures IsWalk(g, flow, a, b, q) && |q| < |p| && WalkCost(g, flow, a, b, q) <= WalkCost(g, flow, a, b, p)
  {
    var c := At(g, a, p, i);
    SplitWalk(g, flow, a, b, p, j);
    SplitWalk(g, flow, a, c, p[..j], i);
    assert At(g, a, p[..j], i) == c && p[..j][..i] == p[..i];
    WalkAbovePotential(g, flow, pi, c, c, p[..j][i..]);
    JoinWalks(g, flow, a, c, b, p[..i], p[j..]);
    q := p[..i] + p[j..];
  }

  lemma {:induction false} SettledBound(g: Graph, flow: Flow, st: Search, a: Node, b: Node, p: seq<Entry>)
    requires Fits(g, flow) && st.dist.Keys == g.nodes && Settled(g, flow, st)
    requires IsWalk(g, flow, a, b, p)
    ensures a in g.nodes && b in g.nodes && st.dist[b] <= st.dist[a] + WalkCost(g, flow, a, b, p)
    decreases |p|
  {
    if p != [] {
      SettledBound(g, flow, st, a, g.Tail(p[|p| - 1]), p[..|p| - 1]);
    }
  }

  lemma EntryPlace(g: Graph, flow: Flow, e: Entry)
    requires Fits(g, flow) && Residual(g, flow, e)
    ensures EntryAt(Position(e)) == e && Position(e) < g.Entries()
  {}

  lemma PassesAfter(g: Graph, flow: Flow, n: nat)
    requires Fits(g, flow) && n > 0
    ensures var s := Passes(g, flow, n - 1);
            Passes(g, flow, n) == if s.1 then PassTo(g, flow, s.0, g.Entries()) else s
  {}

  /** One more pass pulls the head of every residual entry down to where its tail was. */
  lemma PassesStep(g: Graph, flow: Flow, pi: map<Node, int>, n: nat, e: Entry)
    requires Fits(g, flow) && Feasible(g, flow, pi) && n > 0 && Residual(g, flow, e)
    ensures Passes(g, flow, n).0.dist[g.Head(e)] <= Passes(g, flow, n - 1).0.dist[g.Tail(e)] + g.Cost(e)
  {
    PassesOk(g, flow, pi, n - 1);
    PassesAfter(g, flow, n);
    hide Passes, PassTo, SearchOk, Feasible;
    var s := Passes(g, flow, n - 1).0;
    if Passes(g, flow, n - 1).1 {
      EntryPlace(g, flow, e);
      PassRelaxed(g, flow, pi, s, g.Entries(), Position(e));
    }
  }

  /** After `n` passes every node is at most as far as any walk of at most `n` entries says. */
  lemma {:induction false} PassesBound(g: Graph, flow: Flow, pi: map<Node, int>, n: nat, a: Node, b: Node,
                                       p: seq<Entry>)
    requires Fits(g, flow) && Feasible(g, flow, pi)
    requires IsWalk(g, flow, a, b, p) && |p| <= n
    ensures b in g.nodes && Passes(g, flow, n).0.dist[b] <= Base(g, a) + WalkCost(g, flow, a, b, p)
    decreases |p|
  {
    WalkEnds(g, flow, a, b, p);
    if p == [] {
      PassesOk(g, flow, pi, n);
      assert Passes(g, flow, n).0.dist[b] <= InitSearch(g).dist[b];
    } else {
      var e := p[|p| - 1];
      PassesBound(g, flow, pi, n - 1, a, g.Tail(e), p[..|p| - 1]);
      PassesStep(g, flow, pi, n, e);
    }
  }

  /** The walk that a residual entry completes, cut down. */
  lemma CutToFit(g: Graph, flow: Flow, pi: map<Node, int>, e: Entry, d: int) returns (a: Node, q: seq<Entry>)
    requires Fits(g, flow) && Feasible(g, flow, pi) && Residual(g, flow, e) && Attained(g, flow, g.Tail(e), d)
    ensures IsWalk(g, flow, a, g.Head(e), q) && |q| < |g.nodes|
    ensures Base(g, a) + WalkCost(g, flow, a, g.Head(e), q) <= d + g.Cost(e)
  {
    var p;
    a, p :| IsWalk(g, flow, a, g.Tail(e), p) && Base(g, a) + WalkCost(g, flow, a, g.Tail(e), p) == d;
    hide Feasible, WalkCost, IsWalk;
    ExtendWalk(g, flow, a, g.Tail(e), p, e);
    q := ShortenWalk(g, flow, pi, a, g.Head(e), p + [e]);
  }

  /** After one pass fewer than there are nodes, no residual entry shortens anything. */
  lemma PassesSettle(g: Graph, flow: Flow, pi: map<Node, int>, e: Entry, d: int)
    requires Fits(g, flow) && Feasible(g, flow, pi) && Residual(g, flow, e)
    requires Attained(g, flow, g.Tail(e), d) && |g.nodes| > 0
    ensures Passes(g, flow, |g.nodes| - 1).0.dist[g.Head(e)] <= d + g.Cost(e)
  {
    hide Passes, Feasible, WalkCost, IsWalk, Attained;
    var a, q := CutToFit(g, flow, pi, e, d);
    PassesBound(g, flow, pi, |g.nodes| - 1, a, g.Head(e), q);
  }

  lemma EntrySettled(g: Graph, flow: Flow, pi: map<Node, int>, e: Entry)
    requires Fits(g, flow) && Feasible(g, flow, pi) && |g.nodes| > 0 && Residual(g, flow, e)
    ensures var s := Passes(g, flow, |g.nodes| - 1).0; s.dist[g.Head(e)] <= s.dist[g.Tail(e)] + g.Cost(e)
  {
    hide Passes, Feasible, SearchInv, Acyclic, Attained;
    PassesOk(g, flow, pi, |g.nodes| - 1);
    var d := Passes(g, flow, |g.nodes| - 1).0.dist[g.Tail(e)];
    assert Attained(g, flow, g.Tail(e), d);
    PassesSettle(g, flow, pi, e, d);
  }

  lemma AllSettled(g: Graph, flow: Flow, pi: map<Node, int>)
    requires Fits(g, flow) && Feasible(g, flow, pi) && |g.nodes| > 0
    ensures Settled(g, flow, Passes(g, flow, |g.nodes| - 1).0)
  {
    hide Passes, Feasible;
    var s := Passes(g, flow, |g.nodes| - 1).0;
    forall e: Entry | Residual(g, flow, e) ensures s.dist[g.Head(e)] <= s.dist[g.Tail(e)] + g.Cost(e) {
      EntrySettled(g, flow, pi, e);
    }
  }

  /** Within as many passes as there are nodes the search has stopped moving: the "negative
      cycle" exit cannot be taken while a feasible potential exists. */
  lemma {:induction false} PassesConverge(g: Graph, flow: Flow, pi: map<Node, int>, n: nat)
    requires Fits(g, flow) && Feasible(g, flow, pi) && n >= |g.nodes|
    ensures !Passes(g, flow, n).1
  {
    assert g.src in g.nodes;
    hide Feasible, Settled, PassTo;
    if n > |g.nodes| {
      PassesConverge(g, flow, pi, n - 1);
    } else {
      AllSettled(g, flow, pi);
      PassSettled(g, flow, Passes(g, flow, n - 1).0);
    }
  }
}
