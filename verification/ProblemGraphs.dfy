/** The graphs for trouble at the destination and for trouble at the source. */
module ProblemGraphs {
  import opened GraphChoice
  import opened ShortestTree

  /** Links that touch the destination are not used to get to its neighbours. */
  function Avoiding(g: Costs, x: nat): Costs {
    map e | e in g && e.src != x && e.dst != x :: g[e]
  }

  /** A neighbour of the destination that can be reached without it, and through it the destination,
      in time. */
  ghost predicate Target(g: Costs, src: nat, dst: nat, limit: nat, n: nat) {
    EdgeKey(n, dst) in g && exists d: nat :: Least(Avoiding(g, dst), src, n, d) && d + g[EdgeKey(n, dst)] <= limit
  }

  /** The links a path takes. */
  ghost function Steps(p: seq<nat>): set<EdgeKey> {
    if |p| <= 1 then {} else Steps(p[..|p| - 1]) + {EdgeKey(p[|p| - 2], p[|p| - 1])}
  }

  /** The link is the last of a least-cost path from the source. */
  ghost predicate OnLeast(g: Costs, src: nat, e: EdgeKey)
    requires e in g
  {
    exists d: nat :: Least(g, src, e.src, d) && Least(g, src, e.dst, d + g[e])
  }

  ghost predicate Through(r: set<EdgeKey>, src: nat, n: nat, p: seq<nat>, e: EdgeKey) {
    IsPath(r, p, src, n) && e in Steps(p)
  }

  /** The destination-problem graph: the last links are those from the neighbours that are in time;
      the rest is a tree of least-cost paths out of the source, and all of it leads to such
      neighbours. */
  ghost predicate DestinationGraph(g: Costs, src: nat, dst: nat, limit: nat, r: set<EdgeKey>) {
    && (forall n :: EdgeKey(n, dst) in r <==> Target(g, src, dst, limit, n))
    && (forall e :: e in r && e.dst != dst ==> e in Avoiding(g, dst) && OnLeast(Avoiding(g, dst), src, e))
    && (forall e :: e in r && e.dst != dst ==> e.dst != src)
    && (forall e, f :: e in r && f in r && e.dst == f.dst != dst ==> e == f)
    && (forall n :: Target(g, src, dst, limit, n) ==> exists p :: IsPath(r, p, src, n))
    && (forall e :: e in r && e.dst != dst ==> exists n, p :: Target(g, src, dst, limit, n) && Through(r, src, n, p, e))
  }

  ghost function Way(src: nat, s: Search, v: nat): seq<nat> { Chain(src, s.prev, s.order, v) }

  /** What a finished node adds to the graph if it is a target. */
  ghost function Branch(src: nat, dst: nat, s: Search, n: nat): set<EdgeKey> {
    {EdgeKey(n, dst)} + Steps(Way(src, s, n))
  }

  predicate InTime(g: Costs, dst: nat, limit: nat, s: Search, n: nat) {
    n in s.done && n in s.dist && EdgeKey(n, dst) in g && g[EdgeKey(n, dst)] + s.dist[n] <= limit
  }

  lemma StepsGrow(p: seq<nat>, v: nat)
    requires p != []
    ensures Steps(p + [v]) == Steps(p) + {EdgeKey(p[|p| - 1], v)}
  {
    assert (p + [v])[..|p|] == p;
  }

  lemma OrderedOf(g: Costs, src: nat, s: Search)
    requires Finished(g, src, s)
    ensures Ordered(src, s)
  {}

  lemma WayIs(src: nat, s: Search, v: nat)
    ensures Way(src, s, v) == Chain(src, s.prev, s.order, v)
  {
    hide Chain;
  }

  lemma WayIsPath(g: Costs, src: nat, s: Search, v: nat)
    requires Finished(g, src, s) && v in s.done
    ensures var p := Way(src, s, v); IsPath(g.Keys, p, src, v) && p != [] && p[|p| - 1] == v && p[0] == src
  {
    ChainIsPath(g, src, s, v);
    hide Chain, PathCost, Finished;
  }

  lemma WayStep(g: Costs, src: nat, s: Search, v: nat)
    requires Finished(g, src, s) && v in s.done && v != src
    ensures v in s.prev && s.prev[v] in s.done && |Way(src, s, s.prev[v])| < |Way(src, s, v)|
    ensures Steps(Way(src, s, v)) == Steps(Way(src, s, s.prev[v])) + {EdgeKey(s.prev[v], v)}
  {
    OrderedOf(g, src, s);
    hide *;
    RankedIs(src, s);
    ChainStep(src, s.prev, s.order, v);
    WayIsPath(g, src, s, s.prev[v]);
    WayIs(src, s, v);
    WayIs(src, s, s.prev[v]);
    StepsGrow(Way(src, s, s.prev[v]), v);
  }

  lemma Moved(r: set<EdgeKey>, e: EdgeKey, rest: set<EdgeKey>)
    ensures (r + {e}) + rest == r + (rest + {e})
  {}

  lemma WayStart(src: nat, s: Search)
    ensures Steps(Way(src, s, src)) == {}
  {}

  /** Add the way from the source to a target to the graph. */
  method AddWay(ghost g: Costs, src: nat, s: Search, n: nat, r0: set<EdgeKey>) returns (r: set<EdgeKey>)
    requires Finished(g, src, s) && n in s.done
    ensures r == r0 + Steps(Way(src, s, n))
  {
    r := r0;
    var v := n;
    while v != src
      invariant v in s.done && r + Steps(Way(src, s, v)) == r0 + Steps(Way(src, s, n))
      decreases |Way(src, s, v)|
    {
      hide *;
      WayStep(g, src, s, v);
      Moved(r, EdgeKey(s.prev[v], v), Steps(Way(src, s, s.prev[v])));
      r := r + {EdgeKey(s.prev[v], v)};
      v := s.prev[v];
    }
    WayStart(src, s);
  }

  /** All branches of targets among `ns`. */
  ghost predicate BranchesOf(g: Costs, src: nat, dst: nat, limit: nat, s: Search, ns: set<nat>, r: set<EdgeKey>) {
    && (forall n :: n in ns && InTime(g, dst, limit, s, n) ==> Branch(src, dst, s, n) <= r)
    && (forall e :: e in r ==> exists n :: n in ns && InTime(g, dst, limit, s, n) && e in Branch(src, dst, s, n))
  }

  lemma OneBranch(g: Costs, src: nat, dst: nat, limit: nat, s: Search, ns: set<nat>, r: set<EdgeKey>, n: nat,
                  t: set<EdgeKey>)
    requires BranchesOf(g, src, dst, limit, s, ns, r)
    requires t == if InTime(g, dst, limit, s, n) then r + Branch(src, dst, s, n) else r
    ensures BranchesOf(g, src, dst, limit, s, ns + {n}, t)
  {
    hide Branch, InTime;
    forall e | e in t ensures exists m :: m in ns + {n} && InTime(g, dst, limit, s, m) && e in Branch(src, dst, s, m) {
      if e in r {
        var m :| m in ns && InTime(g, dst, limit, s, m) && e in Branch(src, dst, s, m);
        assert m in ns + {n};
      } else {
        assert n in ns + {n};
      }
    }
  }

  /** Add the branch of a finished node if it is a target. */
  method AddBranch(g: Costs, src: nat, dst: nat, limit: nat, s: Search, n: nat, r0: set<EdgeKey>)
    returns (r: set<EdgeKey>)
    requires Finished(Avoiding(g, dst), src, s) && n in s.done
    ensures r == if InTime(g, dst, limit, s, n) then r0 + Branch(src, dst, s, n) else r0
  {
    InDist(Avoiding(g, dst), src, s, n);
    hide Finished, Avoiding, Steps, Way;
    r := r0;
    if EdgeKey(n, dst) in g && g[EdgeKey(n, dst)] + s.dist[n] <= limit {
      r := r + {EdgeKey(n, dst)};
      r := AddWay(Avoiding(g, dst), src, s, n, r);
    }
  }

  lemma NoBranches(g: Costs, src: nat, dst: nat, limit: nat, s: Search)
    ensures BranchesOf(g, src, dst, limit, s, {}, {})
  {}

  /** Destination_Problem_Shortest_Path_Tree with directed links; `nodes` are the nodes by number. */
  method BuildDestinationGraph(g: Costs, src: nat, dst: nat, limit: nat, nodes: seq<nat>) returns (r: set<EdgeKey>)
    requires Once(nodes) && src in nodes && forall e :: e in Avoiding(g, dst) ==> e.dst in nodes
    ensures DestinationGraph(g, src, dst, limit, r)
  {
    hide *;
    var s := Distances(Avoiding(g, dst), src, nodes);
    r := {};
    NoBranches(g, src, dst, limit, s);
    var rest := s.done;
    assert s.done - rest == {};
    while rest != {}
      invariant rest <= s.done && BranchesOf(g, src, dst, limit, s, s.done - rest, r)
      decreases rest
    {
      var n :| n in rest;
      ghost var before := r;
      r := AddBranch(g, src, dst, limit, s, n, r);
      OneBranch(g, src, dst, limit, s, s.done - rest, before, n, r);
      assert s.done - rest + {n} == s.done - (rest - {n});
      rest := rest - {n};
    }
    assert s.done - rest == s.done;
    GraphIs(g, src, dst, limit, s, r);
  }

  lemma InDist(g: Costs, src: nat, s: Search, n: nat)
    requires Finished(g, src, s)
    ensures n in s.done <==> n in s.dist
  {}

  // ---------------------------------------------------------------- what the branches make up

  /** Every step of the way is a link to a node from its previous node. */
  ghost predicate StepOk(g: Costs, src: nat, s: Search, e: EdgeKey) {
    && e in g && e.dst != src && e.src in s.done && e.dst in s.done && e.src in s.dist && e.dst in s.dist
    && e.dst in s.prev && e.src == s.prev[e.dst] && s.dist[e.dst] == s.dist[e.src] + g[e]
  }

  lemma ParentedOf(g: Costs, src: nat, s: Search, v: nat)
    requires Finished(g, src, s) && v in s.done && v != src
    ensures v in s.prev && StepOk(g, src, s, EdgeKey(s.prev[v], v))
  {
    assert Parented(g, src, s, v);
    hide Ordered, Closed;
  }

  lemma {:induction false} StepsOk(g: Costs, src: nat, s: Search, v: nat, e: EdgeKey)
    requires Finished(g, src, s) && v in s.done && e in Steps(Way(src, s, v))
    ensures StepOk(g, src, s, e)
    decreases |Way(src, s, v)|
  {
    hide *;
    if v == src {
      WayStart(src, s);
    } else {
      WayStep(g, src, s, v);
      ParentedOf(g, src, s, v);
      if e != EdgeKey(s.prev[v], v) { StepsOk(g, src, s, s.prev[v], e); }
    }
  }

  lemma {:induction false} PathOfSteps(p: seq<nat>, k: nat)
    requires 0 < k < |p|
    ensures EdgeKey(p[k - 1], p[k]) in Steps(p)
    decreases |p|
  {
    if k < |p| - 1 { PathOfSteps(p[..|p| - 1], k); }
  }

  lemma WayInside(g: Costs, src: nat, s: Search, v: nat, r: set<EdgeKey>)
    requires Finished(g, src, s) && v in s.done && Steps(Way(src, s, v)) <= r
    ensures IsPath(r, Way(src, s, v), src, v)
  {
    WayIsPath(g, src, s, v);
    var p := Way(src, s, v);
    hide Way, Steps, Finished;
    forall k {:trigger p[k]} | 0 < k < |p| ensures EdgeKey(p[k - 1], p[k]) in r { PathOfSteps(p, k); }
  }

  lemma InTimeIsTarget(g: Costs, src: nat, dst: nat, limit: nat, s: Search, n: nat)
    requires Finished(Avoiding(g, dst), src, s)
    ensures InTime(g, dst, limit, s, n) <==> Target(g, src, dst, limit, n)
  {
    var a := Avoiding(g, dst);
    DistanceIsLeast(a, src, s, n);
    InDist(a, src, s, n);
    hide Least, Finished, Avoiding;
    forall d: nat | Least(a, src, n, d) ensures n in s.dist && d == s.dist[n] { LeastIsOne(a, src, n, d, s.dist[n]); }
  }

  /** A link of the graph comes from the branch of some target. */
  lemma FromBranch(g: Costs, src: nat, dst: nat, limit: nat, s: Search, r: set<EdgeKey>, e: EdgeKey) returns (n: nat)
    requires Finished(Avoiding(g, dst), src, s) && BranchesOf(g, src, dst, limit, s, s.done, r) && e in r
    ensures n in s.done && Target(g, src, dst, limit, n) && InTime(g, dst, limit, s, n)
    ensures e == EdgeKey(n, dst) || (e in Steps(Way(src, s, n)) && StepOk(Avoiding(g, dst), src, s, e))
  {
    n :| n in s.done && InTime(g, dst, limit, s, n) && e in Branch(src, dst, s, n);
    InTimeIsTarget(g, src, dst, limit, s, n);
    hide Finished, InTime, Target, Avoiding, StepOk, Steps, Way;
    if e != EdgeKey(n, dst) { StepsOk(Avoiding(g, dst), src, s, n, e); }
  }

  lemma TreeLink(g: Costs, src: nat, s: Search, e: EdgeKey)
    requires Finished(g, src, s) && StepOk(g, src, s, e)
    ensures OnLeast(g, src, e)
  {
    DistanceIsLeast(g, src, s, e.src);
    DistanceIsLeast(g, src, s, e.dst);
    hide Least, Finished;
  }

  lemma LinkIs(g: Costs, src: nat, dst: nat, limit: nat, s: Search, r: set<EdgeKey>, e: EdgeKey)
    requires Finished(Avoiding(g, dst), src, s) && BranchesOf(g, src, dst, limit, s, s.done, r) && e in r
    requires e.dst != dst
    ensures e in Avoiding(g, dst) && OnLeast(Avoiding(g, dst), src, e) && e.dst != src && e.dst in s.prev
    ensures e.src == s.prev[e.dst]
    ensures exists n, p :: Target(g, src, dst, limit, n) && Through(r, src, n, p, e)
  {
    var n := FromBranch(g, src, dst, limit, s, r, e);
    assert Branch(src, dst, s, n) <= r;
    hide Finished, BranchesOf, Target, Avoiding, OnLeast, Steps, Way, InTime;
    TreeLink(Avoiding(g, dst), src, s, e);
    WayInside(Avoiding(g, dst), src, s, n, r);
    assert Through(r, src, n, Way(src, s, n), e);
  }

  lemma LastLink(g: Costs, src: nat, dst: nat, limit: nat, s: Search, r: set<EdgeKey>, n: nat)
    requires Finished(Avoiding(g, dst), src, s) && BranchesOf(g, src, dst, limit, s, s.done, r)
    ensures EdgeKey(n, dst) in r <==> Target(g, src, dst, limit, n)
    ensures Target(g, src, dst, limit, n) ==> exists p :: IsPath(r, p, src, n)
  {
    InTimeIsTarget(g, src, dst, limit, s, n);
    if EdgeKey(n, dst) in r {
      var m := FromBranch(g, src, dst, limit, s, r, EdgeKey(n, dst));
    }
    if InTime(g, dst, limit, s, n) {
      assert Branch(src, dst, s, n) <= r;
      hide Finished, Target, Steps, Way;
      WayInside(Avoiding(g, dst), src, s, n, r);
    }
  }

  lemma GraphIs(g: Costs, src: nat, dst: nat, limit: nat, s: Search, r: set<EdgeKey>)
    requires Finished(Avoiding(g, dst), src, s) && BranchesOf(g, src, dst, limit, s, s.done, r)
    ensures DestinationGraph(g, src, dst, limit, r)
  {
    hide Finished, BranchesOf, Target, Avoiding, OnLeast, Through;
    forall n ensures EdgeKey(n, dst) in r <==> Target(g, src, dst, limit, n) { LastLink(g, src, dst, limit, s, r, n); }
    forall n | Target(g, src, dst, limit, n)
      ensures exists p :: IsPath(r, p, src, n)
    {
      LastLink(g, src, dst, limit, s, r, n);
    }
    forall e | e in r && e.dst != dst
      ensures e in Avoiding(g, dst) && OnLeast(Avoiding(g, dst), src, e) && e.dst != src && e.dst in s.prev
      ensures e.src == s.prev[e.dst]
      ensures exists n, p :: Target(g, src, dst, limit, n) && Through(r, src, n, p, e)
    {
      LinkIs(g, src, dst, limit, s, r, e);
    }
  }

  // ---------------------------------------------------------------- the other end

  function Reverse(e: EdgeKey): EdgeKey { EdgeKey(e.dst, e.src) }

  function ReverseAll(r: set<EdgeKey>): set<EdgeKey> { set e | e in r :: Reverse(e) }

  function Reversed(g: Costs): Costs { map e | e in g.Keys :: Reverse(e) := g[e] }

  lemma InReverse(r: set<EdgeKey>, e: EdgeKey)
    ensures e in ReverseAll(r) <==> Reverse(e) in r
  {
    if Reverse(e) in r { assert Reverse(Reverse(e)) == e; }
  }

  lemma InReversed(g: Costs, e: EdgeKey)
    ensures e in Reversed(g) <==> Reverse(e) in g
    ensures e in Reversed(g) ==> Reversed(g)[e] == g[Reverse(e)]
  {
    if Reverse(e) in g { assert Reverse(Reverse(e)) == e; }
  }

  lemma AvoidingReversed(g: Costs, x: nat)
    ensures Avoiding(Reversed(g), x) == Reversed(Avoiding(g, x))
  {
    forall e ensures e in Avoiding(Reversed(g), x) <==> e in Reversed(Avoiding(g, x))
      ensures e in Avoiding(Reversed(g), x) ==> Avoiding(Reversed(g), x)[e] == Reversed(Avoiding(g, x))[e]
    {
      InReversed(g, e);
      InReversed(Avoiding(g, x), e);
    }
  }

  ghost function Back(p: seq<nat>): (q: seq<nat>)
    ensures |q| == |p| && (p != [] ==> q[0] == p[|p| - 1] && q[|q| - 1] == p[0])
  {
    if p == [] then [] else [p[|p| - 1]] + Back(p[..|p| - 1])
  }

  /** A link put before a path. */
  lemma {:induction false} PathFirst(g: Costs, v: nat, p: seq<nat>, a: nat, b: nat)
    requires IsPath(g.Keys, p, a, b) && EdgeKey(v, a) in g
    ensures IsPath(g.Keys, [v] + p, v, b) && PathCost(g, [v] + p) == g[EdgeKey(v, a)] + PathCost(g, p)
    decreases |p|
  {
    if |p| == 1 {
      assert [v] + p == [v, a];
      assert [v, a][..1] == [v];
    } else {
      var q, u := PathFront(g, p, a, b);
      PathFirst(g, v, q, a, u);
      hide PathCost, IsPath;
      PathGrows(g, [v] + q, v, u, b);
      PathJoin(g, p, a, b, q, u, v);
    }
  }

  lemma PathJoin(g: Costs, p: seq<nat>, a: nat, b: nat, q: seq<nat>, u: nat, v: nat)
    requires IsPath(g.Keys, p, a, b) && |p| > 1 && q == p[..|p| - 1]
    ensures ([v] + q) + [b] == [v] + p
  {}

  lemma {:induction false} BackIsPath(g: Costs, p: seq<nat>, a: nat, b: nat)
    requires IsPath(g.Keys, p, a, b)
    ensures IsPath(Reversed(g).Keys, Back(p), b, a) && PathCost(Reversed(g), Back(p)) == PathCost(g, p)
    decreases |p|
  {
    if |p| == 1 {
      assert Back(p) == p;
    } else {
      var q, u := PathFront(g, p, a, b);
      BackIsPath(g, q, a, u);
      InReversed(g, EdgeKey(b, u));
      hide PathCost, Reversed;
      PathFirst(Reversed(g), b, Back(q), u, a);
      assert Back(p) == [b] + Back(q);
    }
  }

  lemma Twice(g: Costs)
    ensures Reversed(Reversed(g)) == g
  {
    forall e ensures e in Reversed(Reversed(g)) <==> e in g
      ensures e in g ==> Reversed(Reversed(g))[e] == g[e]
    {
      InReversed(Reversed(g), e);
      InReversed(g, Reverse(e));
    }
  }

  lemma LeastForth(g: Costs, a: nat, b: nat, d: nat)
    requires Least(g, a, b, d)
    ensures Least(Reversed(g), b, a, d)
  {
    var p :| IsPath(g.Keys, p, a, b) && PathCost(g, p) == d;
    BackIsPath(g, p, a, b);
    Twice(g);
    hide PathCost, Reversed, IsPath;
    forall q | IsPath(Reversed(g).Keys, q, b, a)
      ensures PathCost(Reversed(g), q) >= d
    {
      BackIsPath(Reversed(g), q, b, a);
    }
  }

  /** Least costs are the same in the reversed graph, from the other end. */
  lemma LeastReversed(g: Costs, a: nat, b: nat, d: nat)
    ensures Least(Reversed(g), b, a, d) <==> Least(g, a, b, d)
  {
    if Least(g, a, b, d) { LeastForth(g, a, b, d); }
    if Least(Reversed(g), b, a, d) {
      LeastForth(Reversed(g), b, a, d);
      Twice(g);
    }
  }

  /** A neighbour of the source from which the destination can be reached without it in time. */
  ghost predicate Start(g: Costs, src: nat, dst: nat, limit: nat, n: nat) {
    EdgeKey(src, n) in g && exists d: nat :: Least(Avoiding(g, src), n, dst, d) && d + g[EdgeKey(src, n)] <= limit
  }

  /** The link is the first of a least-cost path to the destination. */
  ghost predicate FirstOfLeast(g: Costs, dst: nat, e: EdgeKey)
    requires e in g
  {
    exists d: nat :: Least(g, e.dst, dst, d) && Least(g, e.src, dst, d + g[e])
  }

  /** The source-problem graph: the first links are those to the neighbours that are in time; the
      rest is a tree of least-cost paths into the destination, all of it from such neighbours. */
  ghost predicate SourceProblemGraph(g: Costs, src: nat, dst: nat, limit: nat, r: set<EdgeKey>) {
    && (forall n :: EdgeKey(src, n) in r <==> Start(g, src, dst, limit, n))
    && (forall e :: e in r && e.src != src ==> e in Avoiding(g, src) && FirstOfLeast(Avoiding(g, src), dst, e))
    && (forall e :: e in r && e.src != src ==> e.src != dst)
    && (forall e, f :: e in r && f in r && e.src == f.src != src ==> e == f)
    && (forall n :: Start(g, src, dst, limit, n) ==> exists p :: IsPath(r, p, n, dst))
    && (forall e :: e in r && e.src != src ==> exists n, p :: Start(g, src, dst, limit, n) && Through(r, n, dst, p, e))
  }

  lemma StartIsTarget(g: Costs, src: nat, dst: nat, limit: nat, n: nat)
    ensures Start(g, src, dst, limit, n) <==> Target(Reversed(g), dst, src, limit, n)
  {
    AvoidingReversed(g, src);
    InReversed(g, EdgeKey(n, src));
    hide Least, Reversed, Avoiding;
    forall d: nat ensures Least(Avoiding(Reversed(g), src), dst, n, d) <==> Least(Avoiding(g, src), n, dst, d) {
      LeastReversed(Avoiding(g, src), n, dst, d);
    }
  }

  lemma FirstIsLast(g: Costs, src: nat, dst: nat, e: EdgeKey)
    requires Reverse(e) in Avoiding(Reversed(g), src) && OnLeast(Avoiding(Reversed(g), src), dst, Reverse(e))
    ensures e in Avoiding(g, src) && FirstOfLeast(Avoiding(g, src), dst, e)
  {
    var a := Avoiding(g, src);
    AvoidingReversed(g, src);
    InReversed(a, Reverse(e));
    assert Reverse(Reverse(e)) == e;
    hide Least, Reversed, Avoiding;
    var d: nat :| Least(Reversed(a), dst, e.dst, d) && Least(Reversed(a), dst, e.src, d + a[e]);
    LeastReversed(a, e.dst, dst, d);
    LeastReversed(a, e.src, dst, d + a[e]);
  }

  lemma {:induction false} BackAt(p: seq<nat>, k: nat)
    requires k < |p|
    ensures Back(p)[k] == p[|p| - 1 - k]
  {
    if k > 0 { BackAt(p[..|p| - 1], k - 1); }
  }

  lemma BackInside(es: set<EdgeKey>, p: seq<nat>, a: nat, b: nat)
    requires IsPath(es, p, a, b)
    ensures IsPath(ReverseAll(es), Back(p), b, a)
  {
    var q := Back(p);
    hide Back;
    forall k {:trigger q[k]} | 0 < k < |q| ensures EdgeKey(q[k - 1], q[k]) in ReverseAll(es) {
      BackAt(p, k - 1);
      BackAt(p, k);
      var j := |p| - k;
      assert EdgeKey(p[j - 1], p[j]) in es && Reverse(EdgeKey(p[j - 1], p[j])) == EdgeKey(q[k - 1], q[k]);
    }
  }

  lemma {:induction false} StepAt(p: seq<nat>, e: EdgeKey) returns (k: nat)
    requires e in Steps(p)
    ensures 0 < k < |p| && e == EdgeKey(p[k - 1], p[k])
    decreases |p|
  {
    if e == EdgeKey(p[|p| - 2], p[|p| - 1]) { k := |p| - 1; } else { k := StepAt(p[..|p| - 1], e); }
  }

  lemma BackSteps(p: seq<nat>, e: EdgeKey)
    requires e in Steps(p)
    ensures Reverse(e) in Steps(Back(p))
  {
    var k := StepAt(p, e);
    BackAt(p, |p| - 1 - k);
    BackAt(p, |p| - k);
    hide Steps, Back;
    PathOfSteps(Back(p), |p| - k);
  }

  lemma ThroughBack(r: set<EdgeKey>, a: nat, b: nat, p: seq<nat>, e: EdgeKey)
    requires Through(r, a, b, p, e)
    ensures Through(ReverseAll(r), b, a, Back(p), Reverse(e))
  {
    BackInside(r, p, a, b);
    BackSteps(p, e);
    hide IsPath, Steps, Back;
  }

  lemma MirrorLink(g: Costs, src: nat, dst: nat, limit: nat, r: set<EdgeKey>, e: EdgeKey)
    requires DestinationGraph(Reversed(g), dst, src, limit, r) && e in ReverseAll(r) && e.src != src
    ensures e in Avoiding(g, src) && FirstOfLeast(Avoiding(g, src), dst, e) && e.src != dst
    ensures exists n, p :: Start(g, src, dst, limit, n) && Through(ReverseAll(r), n, dst, p, e)
  {
    var f := Reverse(e);
    InReverse(r, e);
    assert f in r && f.dst != src;
    hide Target, Start, Through, OnLeast, FirstOfLeast, Avoiding, Reversed, ReverseAll;
    FirstIsLast(g, src, dst, e);
    var n, p :| Target(Reversed(g), dst, src, limit, n) && Through(r, dst, n, p, f);
    StartIsTarget(g, src, dst, limit, n);
    ThroughBack(r, dst, n, p, f);
    assert Through(ReverseAll(r), n, dst, Back(p), e);
  }

  /** Solving the destination problem on the reversed links and turning the result back round gives
      the source-problem graph. */
  lemma Mirror(g: Costs, src: nat, dst: nat, limit: nat, r: set<EdgeKey>)
    requires DestinationGraph(Reversed(g), dst, src, limit, r)
    ensures SourceProblemGraph(g, src, dst, limit, ReverseAll(r))
  {
    var t := ReverseAll(r);
    forall e ensures e in t <==> Reverse(e) in r { InReverse(r, e); }
    hide Target, Start, Through, OnLeast, FirstOfLeast, Avoiding, Reversed, ReverseAll, IsPath;
    forall n ensures EdgeKey(src, n) in t <==> Start(g, src, dst, limit, n) {
      StartIsTarget(g, src, dst, limit, n);
      assert Reverse(EdgeKey(src, n)) == EdgeKey(n, src);
    }
    forall n | Start(g, src, dst, limit, n) ensures exists p :: IsPath(t, p, n, dst) {
      StartIsTarget(g, src, dst, limit, n);
      var p :| IsPath(r, p, dst, n);
      BackInside(r, p, dst, n);
    }
    forall e | e in t && e.src != src
      ensures e in Avoiding(g, src) && FirstOfLeast(Avoiding(g, src), dst, e) && e.src != dst
      ensures exists n, p :: Start(g, src, dst, limit, n) && Through(t, n, dst, p, e)
    {
      MirrorLink(g, src, dst, limit, r, e);
    }
    forall e, f | e in t && f in t && e.src == f.src != src ensures e == f {
      assert Reverse(e) in r && Reverse(f) in r && Reverse(e).dst == Reverse(f).dst != src;
      assert Reverse(Reverse(e)) == e && Reverse(Reverse(f)) == f;
    }
  }

  method ReverseGraph(g: Costs) returns (h: Costs)
    ensures h == Reversed(g)
  {
    h := map[];
    var rest := g.Keys;
    while rest != {}
      invariant rest <= g.Keys
      invariant forall e :: e in h <==> Reverse(e) in g.Keys - rest
      invariant forall e :: e in h ==> h[e] == g[Reverse(e)]
      decreases rest
    {
      var e :| e in rest;
      assert Reverse(Reverse(e)) == e;
      h := h[Reverse(e) := g[e]];
      rest := rest - {e};
    }
    forall e ensures e in h <==> e in Reversed(g)
      ensures e in h ==> h[e] == Reversed(g)[e] { InReversed(g, e); }
  }

  method TurnBack(found: set<EdgeKey>) returns (r: set<EdgeKey>)
    ensures r == ReverseAll(found)
  {
    r := {};
    var left := found;
    while left != {}
      invariant left <= found && r == ReverseAll(found - left)
      decreases left
    {
      var e :| e in left;
      r := r + {Reverse(e)};
      left := left - {e};
    }
    assert found - left == found;
  }

  lemma ReversedEnds(g: Costs, src: nat, nodes: seq<nat>)
    requires forall e :: e in Avoiding(g, src) ==> e.src in nodes
    ensures forall e :: e in Avoiding(Reversed(g), src) ==> e.dst in nodes
  {
    AvoidingReversed(g, src);
    forall e | e in Avoiding(Reversed(g), src) ensures e.dst in nodes { InReversed(Avoiding(g, src), e); }
  }

  /** Source_Problem_Graph with directed links. */
  method BuildSourceGraph(g: Costs, src: nat, dst: nat, limit: nat, nodes: seq<nat>) returns (r: set<EdgeKey>)
    requires Once(nodes) && dst in nodes && forall e :: e in Avoiding(g, src) ==> e.src in nodes
    ensures SourceProblemGraph(g, src, dst, limit, r)
  {
    hide *;
    var reversed := ReverseGraph(g);
    ReversedEnds(g, src, nodes);
    var found := BuildDestinationGraph(reversed, dst, src, limit, nodes);
    r := TurnBack(found);
    Mirror(g, src, dst, limit, found);
  }
}
