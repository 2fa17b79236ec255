/** Which dissemination graph a destination should use, as a function of the links that have a
    problem right now, and what one more or one less problem does to it. */
module GraphChoice {
  /** A directed link between two configured nodes. */
  datatype EdgeKey = EdgeKey(src: nat, dst: nat)

  datatype GraphType = NoGraph | TwoPaths | SourceGraph | DestGraph | SourceDestGraph

  const THRESHOLD := 2

  /** What is computed once: this node, the destinations with graphs, and the links on the
      source-problem and destination-problem graph of each. */
  datatype Graphs = Graphs(me: nat, has: seq<bool>, source: seq<seq<EdgeKey>>, dest: seq<seq<EdgeKey>>) {
    ghost predicate Valid() { |has| == |source| == |dest| > 0 && me < |has| }

    /** Node numbers start at one. */
    predicate Node(i: nat) { 1 <= i < |has| }

    predicate Knows(e: EdgeKey) { Node(e.src) && Node(e.dst) }
  }

  ghost function Into(ps: set<EdgeKey>, i: nat): set<EdgeKey> { set e | e in ps && e.dst == i }

  ghost function OutOf(ps: set<EdgeKey>, i: nat): set<EdgeKey> { set e | e in ps && e.src == i }

  /** A link of the graph has a problem, not counting links out of `src` or into `dst`. */
  ghost predicate Troubled(edges: seq<EdgeKey>, ps: set<EdgeKey>, src: nat, dst: nat) {
    exists k :: 0 <= k < |edges| && edges[k].src != src && edges[k].dst != dst && edges[k] in ps
  }

  /** Node numbers start at one, so zero leaves no link out. */
  const NOBODY := 0

  ghost predicate SourceTrouble(g: Graphs, ps: set<EdgeKey>, i: nat)
    requires g.Valid() && g.Node(i)
  {
    Troubled(g.source[i], ps, g.me, NOBODY)
  }

  ghost predicate DestTrouble(g: Graphs, ps: set<EdgeKey>, i: nat)
    requires g.Valid() && g.Node(i)
  {
    Troubled(g.dest[i], ps, NOBODY, i)
  }

  /** The graph for destination `i`: two paths while neither end has enough problems; the graph for
      the one end that has, unless that graph has a problem elsewhere; otherwise the graph for
      both ends. */
  ghost function Chosen(g: Graphs, ps: set<EdgeKey>, i: nat): GraphType
    requires g.Valid() && g.Node(i)
  {
    if !g.has[i] then NoGraph
    else
      var d, s := |Into(ps, i)| >= THRESHOLD, |OutOf(ps, g.me)| >= THRESHOLD;
      if !d && !s then TwoPaths
      else if s && !d && !SourceTrouble(g, ps, i) then SourceGraph
      else if d && !s && !DestTrouble(g, ps, i) then DestGraph
      else SourceDestGraph
  }

  // ---------------------------------------------------------------- one problem more

  /** The steps a new problem takes a graph type through. */
  function Foreign(t: GraphType, onSource: bool, onDest: bool): GraphType {
    if (t == SourceGraph && onSource) || (t == DestGraph && onDest) then SourceDestGraph else t
  }

  function DestCrossed(t: GraphType, trouble: bool): GraphType {
    if t == SourceGraph then SourceDestGraph
    else if t == TwoPaths then (if trouble then SourceDestGraph else DestGraph)
    else t
  }

  function SourceCrossed(t: GraphType, trouble: bool): GraphType {
    if t == DestGraph then SourceDestGraph
    else if t == TwoPaths then (if trouble then SourceDestGraph else SourceGraph)
    else t
  }

  lemma IntoAdd(ps: set<EdgeKey>, e: EdgeKey, i: nat)
    requires e !in ps
    ensures |Into(ps + {e}, i)| == |Into(ps, i)| + if e.dst == i then 1 else 0
  {
    if e.dst == i { assert Into(ps + {e}, i) == Into(ps, i) + {e}; } else { assert Into(ps + {e}, i) == Into(ps, i); }
  }

  lemma OutOfAdd(ps: set<EdgeKey>, e: EdgeKey, i: nat)
    requires e !in ps
    ensures |OutOf(ps + {e}, i)| == |OutOf(ps, i)| + if e.src == i then 1 else 0
  {
    if e.src == i {
      assert OutOf(ps + {e}, i) == OutOf(ps, i) + {e};
    } else {
      assert OutOf(ps + {e}, i) == OutOf(ps, i);
    }
  }

  lemma TroubledAdd(edges: seq<EdgeKey>, ps: set<EdgeKey>, e: EdgeKey, src: nat, dst: nat)
    ensures Troubled(edges, ps + {e}, src, dst) <==>
                Troubled(edges, ps, src, dst) || (e in edges && e.src != src && e.dst != dst)
  {
    if Troubled(edges, ps, src, dst) {
      var k :| 0 <= k < |edges| && edges[k].src != src && edges[k].dst != dst && edges[k] in ps;
      assert edges[k] in ps + {e};
    }
    if e in edges && e.src != src && e.dst != dst {
      var k :| 0 <= k < |edges| && edges[k] == e;
      assert edges[k] in ps + {e};
    }
  }

  /** Taking the steps one after the other gives the right graph again. */
  lemma StartedIs(g: Graphs, ps: set<EdgeKey>, e: EdgeKey, i: nat)
    requires g.Valid() && g.Node(i) && g.Knows(e) && e !in ps && g.has[i]
    ensures var now := ps + {e};
            var t1 := Foreign(Chosen(g, ps, i), e in g.source[i] && e.src != g.me, e in g.dest[i] && e.dst != i);
            var t2 := if e.dst == i && |Into(now, i)| == THRESHOLD then DestCrossed(t1, DestTrouble(g, now, i)) else t1;
            var t3 := if e.src == g.me && |OutOf(now, g.me)| == THRESHOLD
                         then SourceCrossed(t2, SourceTrouble(g, now, i)) else t2;
            t3 == Chosen(g, now, i)
  {
    IntoAdd(ps, e, i);
    OutOfAdd(ps, e, g.me);
    TroubledAdd(g.source[i], ps, e, g.me, NOBODY);
    TroubledAdd(g.dest[i], ps, e, NOBODY, i);
    hide Troubled, Into, OutOf;
  }

  // ---------------------------------------------------------------- one problem less

  function DestResolved(t: GraphType, sourceCount: nat, trouble: bool): GraphType {
    if t == DestGraph then TwoPaths
    else if t == SourceDestGraph then
      (if sourceCount < THRESHOLD then TwoPaths else if !trouble then SourceGraph else t)
    else t
  }

  function SourceResolved(t: GraphType, destCount: nat, trouble: bool): GraphType {
    if t == SourceGraph then TwoPaths
    else if t == SourceDestGraph then
      (if destCount < THRESHOLD then TwoPaths else if !trouble then DestGraph else t)
    else t
  }

  /** After the counts have been brought up to date; with neither end in trouble the daemon exits. */
  function MiddleResolved(t: GraphType, sourceCount: nat, destCount: nat, sourceTrouble: bool, destTrouble: bool)
    : GraphType
  {
    if t != SourceDestGraph then t
    else if sourceCount < THRESHOLD then (if !destTrouble then DestGraph else t)
    else if destCount < THRESHOLD then (if !sourceTrouble then SourceGraph else t)
    else t
  }

  /** The steps at the two ends of a link whose problem went away. */
  ghost function EndsResolved(g: Graphs, ps: set<EdgeKey>, e: EdgeKey, i: nat, t: GraphType): GraphType
    requires g.Valid() && g.Node(i)
  {
    var now, s := ps - {e}, |OutOf(ps, g.me)|;
    var t' := if e.dst == i && |Into(ps, i)| == THRESHOLD then DestResolved(t, s, SourceTrouble(g, now, i)) else t;
    if e.src == g.me && s == THRESHOLD then SourceResolved(t', |Into(now, i)|, DestTrouble(g, now, i)) else t'
  }

  /** The same backwards; and the daemon's consistency check never fires. */
  lemma ResolvedIs(g: Graphs, ps: set<EdgeKey>, e: EdgeKey, i: nat)
    requires g.Valid() && g.Node(i) && g.Knows(e) && e in ps && g.has[i]
    ensures var now := ps - {e};
            var s, d, t := |OutOf(now, g.me)|, |Into(now, i)|, EndsResolved(g, ps, e, i, Chosen(g, ps, i));
            && !(t == SourceDestGraph && s < THRESHOLD && d < THRESHOLD)
            && MiddleResolved(t, s, d, SourceTrouble(g, now, i), DestTrouble(g, now, i)) == Chosen(g, now, i)
  {
    var now := ps - {e};
    assert now + {e} == ps;
    IntoAdd(now, e, i);
    OutOfAdd(now, e, g.me);
    TroubledAdd(g.source[i], now, e, g.me, NOBODY);
    TroubledAdd(g.dest[i], now, e, NOBODY, i);
    hide Troubled, Into, OutOf;
  }

  // ---------------------------------------------------------------- what the choice is good for

  /** How much redundancy a graph gives. */
  function Rank(t: GraphType): nat {
    match t
    case NoGraph => 0
    case TwoPaths => 0
    case SourceGraph => 1
    case DestGraph => 1
    case SourceDestGraph => 2
  }

  lemma {:induction false} Fewer(a: set<EdgeKey>, b: set<EdgeKey>)
    requires a <= b
    ensures |a| <= |b|
    decreases a
  {
    if a != {} {
      var x :| x in a;
      Fewer(a - {x}, b - {x});
    }
  }

  lemma TroubleGrows(edges: seq<EdgeKey>, a: set<EdgeKey>, b: set<EdgeKey>, src: nat, dst: nat)
    requires a <= b && Troubled(edges, a, src, dst)
    ensures Troubled(edges, b, src, dst)
  {
    var k :| 0 <= k < |edges| && edges[k].src != src && edges[k].dst != dst && edges[k] in a;
    assert edges[k] in b;
  }

  /** More problems never lead to a less redundant graph, and only ever through the graph of both
      ends from one end's graph to the other's. */
  lemma MoreProblemsNoLess(g: Graphs, a: set<EdgeKey>, b: set<EdgeKey>, i: nat)
    requires g.Valid() && g.Node(i) && a <= b
    ensures Rank(Chosen(g, a, i)) <= Rank(Chosen(g, b, i))
    ensures Rank(Chosen(g, a, i)) == Rank(Chosen(g, b, i)) ==> Chosen(g, a, i) == Chosen(g, b, i)
  {
    Fewer(Into(a, i), Into(b, i));
    Fewer(OutOf(a, g.me), OutOf(b, g.me));
    if SourceTrouble(g, a, i) { TroubleGrows(g.source[i], a, b, g.me, NOBODY); }
    if DestTrouble(g, a, i) { TroubleGrows(g.dest[i], a, b, NOBODY, i); }
    hide Troubled, Into, OutOf;
  }
}
