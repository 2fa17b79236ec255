/** The configured overlay and the split network that initialisation builds from it. */
module Topology {
  import opened Wrappers
  import opened FlowNetwork
  import opened DisjointPaths

  /** A configured edge: its key and its position in the routing bitmask. */
  datatype Edge = Edge(src: nat, dst: nat, index: nat)

  /** Host numbers in ascending order, edges in key order, and whether edges are one-way. */
  datatype Overlay = Overlay(hosts: seq<nat>, edges: seq<Edge>, directed: bool) {
    /** What the configuration parser guarantees, and, when edges are one-way, what start-up does
        not exit over: every link is configured in both directions. */
    ghost predicate Valid() {
      && (forall a, b :: 0 <= a < b < |hosts| ==> hosts[a] != hosts[b])
      && (forall i :: 0 <= i < |edges| ==> edges[i].src in hosts && edges[i].dst in hosts)
      && (forall i :: 0 <= i < |edges| ==> edges[i].src != edges[i].dst)
      && (forall i, j :: 0 <= i < j < |edges| ==> edges[i].src != edges[j].src || edges[i].dst != edges[j].dst)
      && (!directed ==> forall i :: 0 <= i < |edges| ==> edges[i].src < edges[i].dst)
      && (directed ==> forall i :: 0 <= i < |edges| ==> Joined(edges[i].dst, edges[i].src))
    }

    /** Whether the configuration lists an edge from `x` to `y`. */
    ghost predicate Joined(x: nat, y: nat) {
      exists i :: 0 <= i < |edges| && edges[i].src == x && edges[i].dst == y
    }

    /** The nodes of the split network. */
    function Halves(): set<Node> {
      (set x | x in hosts :: In(x)) + (set x | x in hosts :: Out(x))
    }
  }

  /** The list after the arcs of the first `n` hosts have been put at its front, one by one. */
  function HostArcs(o: Overlay, n: nat): seq<Arc>
    requires n <= |o.hosts|
  {
    if n == 0 then [] else [Split(o.hosts[n - 1])] + HostArcs(o, n - 1)
  }

  /** One arc per edge, and the opposite one too when edges are two-way. */
  function EdgeArcs(o: Overlay, n: nat): seq<Arc>
    requires n <= |o.edges|
  {
    if n == 0 then HostArcs(o, |o.hosts|)
    else
      var e := o.edges[n - 1];
      (if o.directed then [] else [Link(e.dst, e.src, e.index)]) + [Link(e.src, e.dst, e.index)] + EdgeArcs(o, n - 1)
  }

  lemma {:induction false} HostPlaces(o: Overlay, n: nat)
    requires n <= |o.hosts|
    ensures |HostArcs(o, n)| == n
    ensures forall i :: 0 <= i < n ==> HostArcs(o, n)[n - 1 - i] == Split(o.hosts[i])
  {
    if n > 0 { HostPlaces(o, n - 1); }
  }

  /** The whole list, element by element: the last edge first, of a two-way edge the way back first,
      and the hosts' own arcs behind, the last host first. */
  lemma {:induction false} ArcPlaces(o: Overlay, n: nat)
    requires n <= |o.edges|
    ensures |EdgeArcs(o, n)| == (if o.directed then n else 2 * n) + |o.hosts|
    ensures o.directed ==> forall i {:trigger o.edges[i]} :: 0 <= i < n ==>
              var e := o.edges[i]; EdgeArcs(o, n)[n - 1 - i] == Link(e.src, e.dst, e.index)
    ensures !o.directed ==> forall i {:trigger o.edges[i]} :: 0 <= i < n ==>
              var e, k := o.edges[i], 2 * (n - 1 - i);
              EdgeArcs(o, n)[k] == Link(e.dst, e.src, e.index) && EdgeArcs(o, n)[k + 1] == Link(e.src, e.dst, e.index)
    ensures forall i {:trigger o.hosts[i]} :: 0 <= i < |o.hosts| ==>
              EdgeArcs(o, n)[|EdgeArcs(o, n)| - 1 - i] == Split(o.hosts[i])
  {
    if n == 0 { HostPlaces(o, |o.hosts|); } else { ArcPlaces(o, n - 1); }
  }

  lemma AllArcs(o: Overlay, arcs: seq<Arc>)
    requires arcs == EdgeArcs(o, |o.edges|)
    ensures forall i {:trigger o.edges[i]} :: 0 <= i < |o.edges| ==>
              var e := o.edges[i];
              Link(e.src, e.dst, e.index) in arcs && (!o.directed ==> Link(e.dst, e.src, e.index) in arcs)
    ensures forall i {:trigger o.hosts[i]} :: 0 <= i < |o.hosts| ==> Split(o.hosts[i]) in arcs
    ensures |arcs| == (if o.directed then |o.edges| else 2 * |o.edges|) + |o.hosts|
  {
    ArcPlaces(o, |o.edges|);
    hide EdgeArcs;
  }

  /** Init_MultiPath: the loops that build the linked list of edges front to back.  Every configured
      edge gets its arc, and the opposite one too when edges are two-way. */
  method InitArcs(o: Overlay) returns (arcs: seq<Arc>)
    ensures arcs == EdgeArcs(o, |o.edges|)
    ensures forall i {:trigger o.edges[i]} :: 0 <= i < |o.edges| ==>
              var e := o.edges[i];
              Link(e.src, e.dst, e.index) in arcs && (!o.directed ==> Link(e.dst, e.src, e.index) in arcs)
    ensures forall i {:trigger o.hosts[i]} :: 0 <= i < |o.hosts| ==> Split(o.hosts[i]) in arcs
    ensures |arcs| == (if o.directed then |o.edges| else 2 * |o.edges|) + |o.hosts|
  {
    arcs := [];
    for i := 0 to |o.hosts|
      invariant arcs == HostArcs(o, i)
    {
      arcs := [Split(o.hosts[i])] + arcs;
    }
    for i := 0 to |o.edges|
      invariant arcs == EdgeArcs(o, i)
    {
      var e := o.edges[i];
      arcs := [Link(e.src, e.dst, e.index)] + arcs;
      if !o.directed {
        arcs := [Link(e.dst, e.src, e.index)] + arcs;
      }
    }
    AllArcs(o, arcs);
  }

  ghost predicate Roles(arcs: seq<Arc>) {
    forall i, j :: 0 <= i < j < |arcs| ==> !SameRole(arcs[i], arcs[j])
  }

  ghost predicate Joins(o: Overlay, e: Edge, a: Arc) {
    a.Link? && a.index == e.index
    && ((a.src == e.src && a.dst == e.dst) || (!o.directed && a.src == e.dst && a.dst == e.src))
  }

  ghost predicate FromEdge(o: Overlay, n: nat, a: Arc)
    requires n <= |o.edges|
  {
    a.Link? && exists i :: 0 <= i < n && Joins(o, o.edges[i], a)
  }

  lemma {:induction false} HostArcsOnce(o: Overlay, n: nat)
    requires o.Valid() && n <= |o.hosts|
    ensures Roles(HostArcs(o, n)) && |HostArcs(o, n)| == n
    ensures forall i :: 0 <= i < n ==> HostArcs(o, n)[i] == Split(o.hosts[n - 1 - i])
  {
    if n > 0 { HostArcsOnce(o, n - 1); }
  }

  ghost predicate NewTo(a: Arc, arcs: seq<Arc>) {
    forall i :: 0 <= i < |arcs| ==> !SameRole(a, arcs[i])
  }

  lemma AddRole(a: Arc, arcs: seq<Arc>)
    requires Roles(arcs) && NewTo(a, arcs)
    ensures Roles([a] + arcs)
  {}

  /** Every link arc stems from a configured edge, every split arc from a host. */
  lemma {:induction false} EdgeArcsFrom(o: Overlay, n: nat)
    requires o.Valid() && n <= |o.edges|
    ensures forall a :: a in EdgeArcs(o, n) && a.Link? ==> FromEdge(o, n, a)
    ensures forall a :: a in EdgeArcs(o, n) && a.Split? ==> a.id in o.hosts
    ensures forall x :: x in o.hosts ==> Split(x) in EdgeArcs(o, n)
  {
    if n == 0 {
      HostArcsOnce(o, |o.hosts|);
      forall x | x in o.hosts ensures Split(x) in HostArcs(o, |o.hosts|) {
        var i :| 0 <= i < |o.hosts| && o.hosts[i] == x;
        assert HostArcs(o, |o.hosts|)[|o.hosts| - 1 - i] == Split(x);
      }
    } else {
      EdgeArcsFrom(o, n - 1);
      forall a | a in EdgeArcs(o, n) && a.Link? ensures FromEdge(o, n, a) {
        if a in EdgeArcs(o, n - 1) {
          assert FromEdge(o, n - 1, a);
        } else {
          assert Joins(o, o.edges[n - 1], a);
        }
      }
    }
  }

  /** An edge's arcs are new to the list built from the edges before it. */
  lemma NewRole(o: Overlay, n: nat, a: Arc)
    requires o.Valid() && 0 < n <= |o.edges| && Joins(o, o.edges[n - 1], a)
    ensures NewTo(a, EdgeArcs(o, n - 1))
  {
    var rest := EdgeArcs(o, n - 1);
    EdgeArcsFrom(o, n - 1);
    forall i | 0 <= i < |rest| ensures !SameRole(a, rest[i]) {
      if rest[i].Link? {
        assert FromEdge(o, n - 1, rest[i]);
        var k :| 0 <= k < n - 1 && Joins(o, o.edges[k], rest[i]);
      }
    }
  }

  /** No two arcs play the same part. */
  lemma {:induction false} EdgeArcsOnce(o: Overlay, n: nat)
    requires o.Valid() && n <= |o.edges|
    ensures Roles(EdgeArcs(o, n))
  {
    if n == 0 {
      HostArcsOnce(o, |o.hosts|);
    } else {
      EdgeArcsOnce(o, n - 1);
      var e, rest := o.edges[n - 1], EdgeArcs(o, n - 1);
      var there, back := Link(e.src, e.dst, e.index), Link(e.dst, e.src, e.index);
      NewRole(o, n, there);
      AddRole(there, rest);
      if !o.directed {
        NewRole(o, n, back);
        AddRole(back, [there] + rest);
        assert EdgeArcs(o, n) == [back] + ([there] + rest);
      } else {
        assert EdgeArcs(o, n) == [there] + rest;
      }
    }
  }

  lemma ArcEnds(o: Overlay, a: Arc)
    requires o.Valid() && a in EdgeArcs(o, |o.edges|)
    ensures a.Start() in o.Halves() && a.End() in o.Halves() && a.Start() != a.End()
  {
    EdgeArcsFrom(o, |o.edges|);
    if a.Link? {
      assert FromEdge(o, |o.edges|, a);
    } else {
      assert a.id in o.hosts;
    }
  }

  /** What initialisation builds is a split network, whatever the costs and the destination. */
  lemma BuiltNetwork(o: Overlay, w: seq<Option<int>>, me: nat, dest: nat)
    requires o.Valid() && me in o.hosts && dest in o.hosts && me != dest
    requires |w| == |EdgeArcs(o, |o.edges|)|
    requires forall j :: 0 <= j < |w| && EdgeArcs(o, |o.edges|)[j].Split? ==> w[j] == Some(0)
    ensures SplitNetwork(Graph(o.Halves(), EdgeArcs(o, |o.edges|), w, Out(me), In(dest)), me, dest)
  {
    var arcs := EdgeArcs(o, |o.edges|);
    var g := Graph(o.Halves(), arcs, w, Out(me), In(dest));
    forall j | 0 <= j < |arcs|
      ensures arcs[j].Start() in g.nodes && arcs[j].End() in g.nodes && arcs[j].Start() != arcs[j].End()
    {
      ArcEnds(o, arcs[j]);
    }
    EdgeArcsOnce(o, |o.edges|);
    forall x | In(x) in g.nodes ensures HasSplit(g, x) {
      HostSplit(o, g, x);
    }
  }

  lemma HostSplit(o: Overlay, g: Graph, x: nat)
    requires o.Valid() && x in o.hosts && g.arcs == EdgeArcs(o, |o.edges|)
    ensures HasSplit(g, x)
  {
    EdgeArcsFrom(o, |o.edges|);
    assert Split(x) in g.arcs;
    var j :| 0 <= j < |g.arcs| && g.arcs[j] == Split(x);
  }

  lemma {:induction false} InCount(hosts: seq<nat>)
    ensures |set x | x in hosts :: In(x)| <= |hosts|
  {
    if hosts == [] {
      assert (set x | x in hosts :: In(x)) == {};
    } else {
      var n := |hosts| - 1;
      InCount(hosts[..n]);
      assert (set x | x in hosts :: In(x)) == (set x | x in hosts[..n] :: In(x)) + {In(hosts[n])};
    }
  }

  lemma {:induction false} OutCount(hosts: seq<nat>)
    ensures |set x | x in hosts :: Out(x)| <= |hosts|
  {
    if hosts == [] {
      assert (set x | x in hosts :: Out(x)) == {};
    } else {
      var n := |hosts| - 1;
      OutCount(hosts[..n]);
      assert (set x | x in hosts :: Out(x)) == (set x | x in hosts[..n] :: Out(x)) + {Out(hosts[n])};
    }
  }

  lemma HalfCount(o: Overlay)
    ensures |o.Halves()| <= 2 * |o.hosts|
  {
    InCount(o.hosts);
    OutCount(o.hosts);
  }
}
