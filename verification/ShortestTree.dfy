/** Shortest paths by repeatedly finishing the nearest open node, as the dissemination-graph builder
    finds them. */
module ShortestTree {
  import opened GraphChoice

  /** A directed graph: its links and their costs. */
  type Costs = map<EdgeKey, nat>

  // ---------------------------------------------------------------- paths

  ghost predicate IsPath(es: set<EdgeKey>, p: seq<nat>, a: nat, b: nat) {
    && p != [] && p[0] == a && p[|p| - 1] == b
    && forall k {:trigger p[k]} :: 0 < k < |p| ==> EdgeKey(p[k - 1], p[k]) in es
  }

  ghost function PathCost(g: Costs, p: seq<nat>): nat
    requires forall k {:trigger p[k]} :: 0 < k < |p| ==> EdgeKey(p[k - 1], p[k]) in g.Keys
  {
    if |p| <= 1 then 0
    else PathCost(g, p[..|p| - 1]) + g[EdgeKey(p[|p| - 2], p[|p| - 1])]
  }

  /** `d` is the least cost of a path from `a` to `b`. */
  ghost predicate Least(g: Costs, a: nat, b: nat, d: nat) {
    && (exists p :: IsPath(g.Keys, p, a, b) && PathCost(g, p) == d)
    && (forall p :: IsPath(g.Keys, p, a, b) ==> PathCost(g, p) >= d)
  }

  // ---------------------------------------------------------------- the search

  /** Distances and previous nodes known so far (no entry stands for DBL_MAX), the nodes finished,
      and the order in which they were. */
  datatype Search = Search(dist: map<nat, nat>, prev: map<nat, nat>, done: set<nat>, order: seq<nat>)

  /** Each distance is the previous node's plus the cost of the link from it. */
  ghost predicate Parented(g: Costs, src: nat, s: Search, v: nat)
    requires v in s.dist
  {
    v != src ==>
      && v in s.prev && s.prev[v] in s.done && s.prev[v] in s.dist && EdgeKey(s.prev[v], v) in g
      && s.dist[v] == s.dist[s.prev[v]] + g[EdgeKey(s.prev[v], v)]
  }

  ghost predicate Once(nodes: seq<nat>) { forall i, j :: 0 <= i < j < |nodes| ==> nodes[i] != nodes[j] }

  /** Every finished node but the source has a previous node finished before it. */
  ghost predicate Ranked(src: nat, prev: map<nat, nat>, done: seq<nat>) {
    && Once(done)
    && forall k {:trigger done[..k]} :: 0 <= k < |done| && done[k] != src ==>
           done[k] in prev && prev[done[k]] in done[..k]
  }

  ghost predicate DoneKnown(s: Search) { s.done <= s.dist.Keys }

  ghost function Nodes(order: seq<nat>): set<nat> { set u | u in order }

  /** Finished nodes are no farther than the others. */
  ghost predicate NearFirst(s: Search)
    requires DoneKnown(s)
  {
    forall u, v :: u in s.done && v in s.dist && v !in s.done ==> s.dist[u] <= s.dist[v]
  }

  /** Nodes are finished once each, in order of distance, after the nodes their paths come from. */
  ghost predicate Ordered(src: nat, s: Search) {
    DoneKnown(s) && s.done == Nodes(s.order) && Ranked(src, s.prev, s.order) && NearFirst(s)
  }

  /** Links out of finished nodes have been looked at, except those pending. */
  ghost predicate Closed(g: Costs, s: Search, pending: set<EdgeKey>)
    requires DoneKnown(s)
  {
    forall e :: e in g && e.src in s.done && e !in pending ==> e.dst in s.dist && s.dist[e.dst] <= s.dist[e.src] + g[e]
  }

  ghost predicate Searching(g: Costs, src: nat, s: Search, pending: set<EdgeKey>) {
    && src in s.dist && s.dist[src] == 0
    && Ordered(src, s) && (forall v :: v in s.dist ==> Parented(g, src, s, v)) && Closed(g, s, pending)
  }

  /** The links pending leave node `m`, and no finished node is farther than it. */
  ghost predicate Newest(g: Costs, s: Search, m: nat, pending: set<EdgeKey>) {
    && m in s.done && m in s.dist
    && (forall e :: e in pending ==> e in g && e.src == m)
    && (forall u :: u in s.done ==> u in s.dist && s.dist[u] <= s.dist[m])
  }

  /** The links out of a node. */
  function Outs(g: Costs, m: nat): set<EdgeKey> { set e | e in g && e.src == m }

  /** See whether a link shortens the distance of its end. */
  function Relax(g: Costs, s: Search, e: EdgeKey): Search
    requires e in g && e.src in s.dist
  {
    if e.dst !in s.dist || s.dist[e.src] + g[e] < s.dist[e.dst]
    then s.(dist := s.dist[e.dst := s.dist[e.src] + g[e]], prev := s.prev[e.dst := e.src])
    else s
  }

  lemma RelaxChange(g: Costs, s: Search, m: nat, pending: set<EdgeKey>, e: EdgeKey)
    requires Newest(g, s, m, pending) && e in pending
    ensures var t := Relax(g, s, e); t != s ==> e.dst !in s.done
  {}

  lemma {:induction false} RankedKept(src: nat, prev: map<nat, nat>, done: seq<nat>, v: nat, u: nat)
    requires Ranked(src, prev, done) && v !in done
    ensures Ranked(src, prev[v := u], done)
  {
    forall k | 0 <= k < |done| && done[k] != src ensures done[k] in prev && prev[done[k]] in done[..k] {
      var before := done[..k];
    }
  }

  lemma RelaxOrdered(g: Costs, src: nat, s: Search, m: nat, pending: set<EdgeKey>, e: EdgeKey)
    requires Ordered(src, s) && Newest(g, s, m, pending) && e in pending
    ensures Ordered(src, Relax(g, s, e)) && Newest(g, Relax(g, s, e), m, pending - {e})
  {
    RelaxChange(g, s, m, pending, e);
    if Relax(g, s, e) != s {
      assert e.dst !in Nodes(s.order);
      RankedKept(src, s.prev, s.order, e.dst, e.src);
    }
    hide Ranked, Nodes;
  }

  lemma RelaxParented(g: Costs, src: nat, s: Search, m: nat, pending: set<EdgeKey>, e: EdgeKey, v: nat)
    requires (forall v :: v in s.dist ==> Parented(g, src, s, v)) && Newest(g, s, m, pending) && e in pending
    requires v in Relax(g, s, e).dist
    ensures Parented(g, src, Relax(g, s, e), v)
  {
    RelaxChange(g, s, m, pending, e);
    if v in s.dist { assert Parented(g, src, s, v); }
  }

  lemma RelaxClosed(g: Costs, src: nat, s: Search, m: nat, pending: set<EdgeKey>, e: EdgeKey)
    requires Newest(g, s, m, pending) && e in pending
    requires DoneKnown(s) && DoneKnown(Relax(g, s, e)) && Closed(g, s, pending)
    ensures Closed(g, Relax(g, s, e), pending - {e})
  {
    RelaxChange(g, s, m, pending, e);
    var t := Relax(g, s, e);
    assert t.done == s.done && forall v :: v in s.dist ==> v in t.dist && t.dist[v] <= s.dist[v];
    assert forall u :: u in s.done ==> u in s.dist && t.dist[u] == s.dist[u];
  }

  lemma RelaxKeeps(g: Costs, src: nat, s: Search, m: nat, pending: set<EdgeKey>, e: EdgeKey)
    requires Searching(g, src, s, pending) && Newest(g, s, m, pending) && e in pending
    ensures var t := Relax(g, s, e);
            && Searching(g, src, t, pending - {e}) && Newest(g, t, m, pending - {e})
            && t.dist.Keys == s.dist.Keys + {e.dst}
  {
    var t := Relax(g, s, e);
    RelaxOrdered(g, src, s, m, pending, e);
    RelaxClosed(g, src, s, m, pending, e);
    hide Ordered, Parented, Closed, Newest;
    forall v | v in t.dist ensures Parented(g, src, t, v) { RelaxParented(g, src, s, m, pending, e, v); }
    SourceStays(g, src, s, e);
  }

  lemma SourceStays(g: Costs, src: nat, s: Search, e: EdgeKey)
    requires src in s.dist && s.dist[src] == 0 && e in g && e.src in s.dist
    ensures var t := Relax(g, s, e); src in t.dist && t.dist[src] == 0 && t.dist.Keys == s.dist.Keys + {e.dst}
  {}

  /** The nearest open node, the first in number order among equals; the loop of the source keeps
      the first it meets that is strictly nearer. */
  method Nearest(open: seq<nat>, dist: map<nat, nat>) returns (at: nat)
    requires open != []
    ensures at < |open|
    ensures open[at] in dist ==> forall k :: 0 <= k < |open| && open[k] in dist ==> dist[open[at]] <= dist[open[k]]
    ensures open[at] in dist ==> forall k :: 0 <= k < at && open[k] in dist ==> dist[open[at]] < dist[open[k]]
    ensures open[at] !in dist ==> forall k :: 0 <= k < |open| ==> open[k] !in dist
  {
    at := 0;
    var i := 1;
    while i < |open|
      invariant at < i <= |open|
      invariant open[at] in dist ==> forall k :: 0 <= k < i && open[k] in dist ==> dist[open[at]] <= dist[open[k]]
      invariant open[at] in dist ==> forall k :: 0 <= k < at && open[k] in dist ==> dist[open[at]] < dist[open[k]]
      invariant open[at] !in dist ==> forall k :: 0 <= k < i ==> open[k] !in dist
    {
      if open[i] in dist && (open[at] !in dist || dist[open[i]] < dist[open[at]]) { at := i; }
      i := i + 1;
    }
  }

  method RelaxAll(g: Costs, src: nat, s0: Search, m: nat) returns (s: Search)
    requires Searching(g, src, s0, Outs(g, m)) && Newest(g, s0, m, Outs(g, m))
    ensures Searching(g, src, s, {}) && s.done == s0.done
    ensures forall v :: v in s.dist ==> v in s0.dist || exists e :: e in g && e.dst == v
  {
    s := s0;
    var rest := Outs(g, m);
    while rest != {}
      invariant Searching(g, src, s, rest) && Newest(g, s, m, rest) && s.done == s0.done
      invariant forall v :: v in s.dist ==> v in s0.dist || exists e :: e in g && e.dst == v
      decreases rest
    {
      var e :| e in rest;
      RelaxKeeps(g, src, s, m, rest, e);
      s := Relax(g, s, e);
      rest := rest - {e};
    }
  }

  lemma RankedMore(src: nat, prev: map<nat, nat>, done: seq<nat>, m: nat)
    requires Ranked(src, prev, done) && m !in done && (m != src ==> m in prev && prev[m] in done)
    ensures Ranked(src, prev, done + [m])
  {
    var t := done + [m];
    forall k | 0 <= k < |t| && t[k] != src ensures t[k] in prev && prev[t[k]] in t[..k] {
      if k < |done| { assert t[..k] == done[..k]; } else { assert t[..k] == done; }
    }
  }

  /** The open node finished next keeps the order. */
  lemma FinishOrdered(g: Costs, src: nat, s: Search, m: nat)
    requires Searching(g, src, s, {}) && m in s.dist && m !in s.done
    requires forall v :: v in s.dist && v !in s.done ==> s.dist[m] <= s.dist[v]
    ensures Ordered(src, s.(done := s.done + {m}, order := s.order + [m]))
  {
    assert Parented(g, src, s, m);
    assert forall u :: u in s.done <==> u in s.order;
    RankedMore(src, s.prev, s.order, m);
    assert Nodes(s.order + [m]) == Nodes(s.order) + {m};
    hide Closed, Ranked, Nodes;
  }

  lemma FinishParented(g: Costs, src: nat, s: Search, m: nat)
    requires forall v :: v in s.dist ==> Parented(g, src, s, v)
    ensures var t := s.(done := s.done + {m}, order := s.order + [m]);
            forall v :: v in t.dist ==> Parented(g, src, t, v)
  {
    var t := s.(done := s.done + {m}, order := s.order + [m]);
    forall v | v in t.dist ensures Parented(g, src, t, v) { assert Parented(g, src, s, v); }
  }

  lemma FinishClosed(g: Costs, s: Search, m: nat)
    requires DoneKnown(s) && Closed(g, s, {}) && m in s.dist
    ensures Closed(g, s.(done := s.done + {m}, order := s.order + [m]), Outs(g, m))
  {}

  lemma FinishNewest(g: Costs, s: Search, m: nat)
    requires DoneKnown(s) && NearFirst(s) && m in s.dist && m !in s.done
    ensures Newest(g, s.(done := s.done + {m}, order := s.order + [m]), m, Outs(g, m))
  {}

  lemma FinishKeeps(g: Costs, src: nat, s: Search, m: nat)
    requires Searching(g, src, s, {}) && m in s.dist && m !in s.done
    requires forall v :: v in s.dist && v !in s.done ==> s.dist[m] <= s.dist[v]
    ensures var t := s.(done := s.done + {m}, order := s.order + [m]);
            Searching(g, src, t, Outs(g, m)) && Newest(g, t, m, Outs(g, m))
  {
    FinishOrdered(g, src, s, m);
    FinishParented(g, src, s, m);
    FinishClosed(g, s, m);
    FinishNewest(g, s, m);
    hide Ordered, Parented, Ranked, Closed, Newest, Outs;
  }

  /** What is known when no open node can be reached: the finished nodes are those with a distance,
      and no link leads from them to a shorter one. */
  ghost predicate Finished(g: Costs, src: nat, s: Search) {
    Searching(g, src, s, {}) && forall v :: v in s.dist <==> v in s.done
  }

  lemma Dropped(open: seq<nat>, at: nat) returns (rest: seq<nat>)
    requires Once(open) && at < |open|
    ensures rest == open[..at] + open[at + 1..] && Once(rest) && forall v :: v in open <==> v == open[at] || v in rest
    ensures open[at] !in rest
  {
    rest := open[..at] + open[at + 1..];
    forall v ensures v in open <==> v == open[at] || v in rest {
      if v in open {
        var k :| 0 <= k < |open| && open[k] == v;
        assert k < at ==> rest[k] == v;
        assert k > at ==> rest[k - 1] == v;
      }
    }
  }

  /** The open nodes are those not finished. */
  ghost predicate Rest(nodes: seq<nat>, done: set<nat>, open: seq<nat>) {
    Once(open) && forall v :: v in nodes ==> (v in open <==> v !in done)
  }

  lemma Known(g: Costs, src: nat, s: Search, nodes: seq<nat>)
    requires Searching(g, src, s, {}) && src in nodes && forall e :: e in g ==> e.dst in nodes
    ensures forall v :: v in s.dist ==> v in nodes
  {
    forall v | v in s.dist
      ensures v in nodes
    {
      assert Parented(g, src, s, v); assert v != src ==> EdgeKey(s.prev[v], v) in g;
    }
  }

  ghost predicate Going(g: Costs, src: nat, s: Search, nodes: seq<nat>, open: seq<nat>) {
    && Searching(g, src, s, {}) && Rest(nodes, s.done, open) && (forall v :: v in open ==> v in nodes)
    && src in nodes && forall e :: e in g ==> e.dst in nodes
  }

  lemma NoneLeft(g: Costs, src: nat, s: Search, nodes: seq<nat>, open: seq<nat>)
    requires Going(g, src, s, nodes, open) && forall k :: 0 <= k < |open| ==> open[k] !in s.dist
    ensures Finished(g, src, s)
  {
    Known(g, src, s, nodes);
    assert s.done <= s.dist.Keys;
    hide Searching, Newest;
  }

  lemma NearestOpen(g: Costs, src: nat, s: Search, nodes: seq<nat>, open: seq<nat>, at: nat)
    requires Going(g, src, s, nodes, open) && at < |open| && open[at] in s.dist
    requires forall k :: 0 <= k < |open| && open[k] in s.dist ==> s.dist[open[at]] <= s.dist[open[k]]
    ensures open[at] !in s.done && forall v :: v in s.dist && v !in s.done ==> s.dist[open[at]] <= s.dist[v]
  {
    Known(g, src, s, nodes);
    hide Searching, Newest;
    forall v | v in s.dist && v !in s.done ensures s.dist[open[at]] <= s.dist[v] { assert v in open; }
  }

  lemma OneLess(g: Costs, src: nat, s: Search, t: Search, nodes: seq<nat>, open: seq<nat>, at: nat)
    requires Going(g, src, s, nodes, open) && at < |open| && Searching(g, src, t, {}) && t.done == s.done + {open[at]}
    ensures Going(g, src, t, nodes, open[..at] + open[at + 1..])
  {
    hide Searching;
    var rest := Dropped(open, at);
  }

  /** Finish nodes one by one, nearest first; `nodes` are the nodes of the graph by number. */
  method Distances(g: Costs, src: nat, nodes: seq<nat>) returns (s: Search)
    requires Once(nodes) && src in nodes && forall e :: e in g ==> e.dst in nodes
    ensures Finished(g, src, s)
  {
    s := Search(map[src := 0], map[], {}, []);
    var open := nodes;
    while open != []
      invariant Going(g, src, s, nodes, open)
      decreases |open|
    {
      hide *;
      var at := Nearest(open, s.dist);
      var m := open[at];
      if m !in s.dist {
        NoneLeft(g, src, s, nodes, open);
        return;
      }
      NearestOpen(g, src, s, nodes, open, at);
      ghost var before := s;
      SearchingOf(g, src, s, nodes, open);
      FinishKeeps(g, src, s, m);
      s := RelaxAll(g, src, s.(done := s.done + {m}, order := s.order + [m]), m);
      OneLess(g, src, before, s, nodes, open, at);
      open := open[..at] + open[at + 1..];
    }
    NoneLeft(g, src, s, nodes, open);
  }

  lemma SearchingOf(g: Costs, src: nat, s: Search, nodes: seq<nat>, open: seq<nat>)
    requires Going(g, src, s, nodes, open)
    ensures Searching(g, src, s, {})
  {}

  // ---------------------------------------------------------------- distances are least

  lemma PathFront(g: Costs, p: seq<nat>, a: nat, b: nat) returns (q: seq<nat>, u: nat)
    requires IsPath(g.Keys, p, a, b) && |p| > 1
    ensures q == p[..|p| - 1] && IsPath(g.Keys, q, a, u) && EdgeKey(u, b) in g
    ensures PathCost(g, p) == PathCost(g, q) + g[EdgeKey(u, b)]
  {
    q, u := p[..|p| - 1], p[|p| - 2];
    assert forall k {:trigger q[k]} :: 0 < k < |q| ==> p[k] == q[k] && p[k - 1] == q[k - 1];
    assert p[|p| - 1] == b;
  }

  lemma StepCosts(g: Costs, src: nat, s: Search, e: EdgeKey)
    requires Finished(g, src, s) && e in g && e.src in s.dist
    ensures e.dst in s.dist && s.dist[e.dst] <= s.dist[e.src] + g[e]
  {
    hide Parented;
  }

  /** Every path from the source ends at a finished node and costs at least its distance. */
  lemma {:induction false} PathsCostMore(g: Costs, src: nat, s: Search, p: seq<nat>, b: nat)
    requires Finished(g, src, s) && IsPath(g.Keys, p, src, b)
    ensures b in s.dist && PathCost(g, p) >= s.dist[b]
    decreases |p|
  {
    if |p| > 1 {
      hide *;
      var q, u := PathFront(g, p, src, b);
      PathsCostMore(g, src, s, q, u);
      StepCosts(g, src, s, EdgeKey(u, b));
    } else {
      hide Ordered, Parented, Closed;
    }
  }

  /** The way back from a finished node, along previous nodes. */
  ghost function Chain(src: nat, prev: map<nat, nat>, done: seq<nat>, v: nat): (p: seq<nat>)
    ensures p != []
    decreases |done|
  {
    if done == [] || v == src then [v]
    else
      var front := done[..|done| - 1];
      if done[|done| - 1] != v then Chain(src, prev, front, v)
      else if v in prev then Chain(src, prev, front, prev[v]) + [v]
      else [v]
  }

  lemma RankedFront(src: nat, prev: map<nat, nat>, done: seq<nat>)
    requires Ranked(src, prev, done) && done != []
    ensures Ranked(src, prev, done[..|done| - 1])
  {
    var front := done[..|done| - 1];
    forall k | 0 <= k < |front| && front[k] != src ensures front[k] in prev && prev[front[k]] in front[..k] {
      assert front[..k] == done[..k] && front[k] == done[k];
    }
  }

  lemma ChainSkips(src: nat, prev: map<nat, nat>, done: seq<nat>, u: nat)
    requires Ranked(src, prev, done) && done != [] && u in done[..|done| - 1]
    ensures Chain(src, prev, done, u) == Chain(src, prev, done[..|done| - 1], u)
  {
    var k :| 0 <= k < |done| - 1 && done[..|done| - 1][k] == u;
    assert done[k] == u;
  }

  lemma ChainLast(src: nat, prev: map<nat, nat>, done: seq<nat>, v: nat)
    requires Ranked(src, prev, done) && done != [] && v == done[|done| - 1] && v != src
    ensures v in prev && prev[v] in done[..|done| - 1]
    ensures Chain(src, prev, done, v) == Chain(src, prev, done[..|done| - 1], prev[v]) + [v]
  {
    var front := done[..|done| - 1];
    assert prev[v] in front;
  }

  lemma InFront(done: seq<nat>, v: nat)
    requires v in done && v != done[|done| - 1]
    ensures v in done[..|done| - 1]
  {
    var k :| 0 <= k < |done| && done[k] == v;
    assert done[..|done| - 1][k] == v;
  }

  lemma {:induction false} ChainStep(src: nat, prev: map<nat, nat>, done: seq<nat>, v: nat)
    requires Ranked(src, prev, done) && v in done && v != src
    ensures v in prev && prev[v] in done && Chain(src, prev, done, v) == Chain(src, prev, done, prev[v]) + [v]
    decreases |done|
  {
    hide *;
    var front := done[..|done| - 1];
    if done[|done| - 1] == v {
      ChainLast(src, prev, done, v);
    } else {
      RankedFront(src, prev, done);
      InFront(done, v);
      ChainStep(src, prev, front, v);
      ChainSkips(src, prev, done, v);
    }
    ChainSkips(src, prev, done, prev[v]);
  }

  lemma RankedIs(src: nat, s: Search)
    requires Ordered(src, s)
    ensures Ranked(src, s.prev, s.order) && forall u :: u in s.done <==> u in s.order
  {}

  lemma PathGrows(g: Costs, p: seq<nat>, a: nat, u: nat, v: nat)
    requires IsPath(g.Keys, p, a, u) && EdgeKey(u, v) in g
    ensures IsPath(g.Keys, p + [v], a, v) && PathCost(g, p + [v]) == PathCost(g, p) + g[EdgeKey(u, v)]
  {
    assert (p + [v])[..|p|] == p;
  }

  /** The way back is a path of that cost. */
  lemma {:induction false} ChainIsPath(g: Costs, src: nat, s: Search, v: nat)
    requires Finished(g, src, s) && v in s.dist
    ensures var p := Chain(src, s.prev, s.order, v); IsPath(g.Keys, p, src, v) && PathCost(g, p) == s.dist[v]
    decreases |Chain(src, s.prev, s.order, v)|
  {
    RankedIs(src, s);
    if v != src {
      ChainStep(src, s.prev, s.order, v);
      assert Parented(g, src, s, v);
      ChainIsPath(g, src, s, s.prev[v]);
      hide Chain, PathCost, IsPath, Ranked, Searching;
      PathGrows(g, Chain(src, s.prev, s.order, s.prev[v]), src, s.prev[v], v);
    }
  }

  /** Finished nodes are those that can be reached, and their distances are least costs. */
  lemma DistanceIsLeast(g: Costs, src: nat, s: Search, v: nat)
    requires Finished(g, src, s)
    ensures v in s.dist ==> Least(g, src, v, s.dist[v])
    ensures v in s.dist <==> exists d :: Least(g, src, v, d)
  {
    if v in s.dist { ChainIsPath(g, src, s, v); }
    forall p | IsPath(g.Keys, p, src, v)
      ensures v in s.dist && PathCost(g, p) >= s.dist[v]
    {
      PathsCostMore(g, src, s, p, v);
    }
    hide Chain, PathCost, IsPath, Finished;
    if v in s.dist { assert Least(g, src, v, s.dist[v]); }
  }

  lemma LeastIsOne(g: Costs, a: nat, b: nat, d: nat, e: nat)
    requires Least(g, a, b, d) && Least(g, a, b, e)
    ensures d == e
  {
    var p :| IsPath(g.Keys, p, a, b) && PathCost(g, p) == d;
    var q :| IsPath(g.Keys, q, a, b) && PathCost(g, q) == e;
  }
}
