/** The daemon's record of link problems and the graph in use for every destination, kept up to date
    link by link: it is always the one the current problems call for. */
module DissemState {
  import opened GraphChoice

  class Dissemination {
    const g: Graphs
    const types: array<GraphType>
    const counts: array<nat>
    const flags: array2<bool>
    var sourceCount: nat
    const sourceFlags: array<bool>
    var problems: set<EdgeKey>

    ghost predicate Shaped() {
      && g.Valid() && types.Length == counts.Length == sourceFlags.Length == |g.has|
      && flags.Length0 == flags.Length1 == |g.has|
    }

    /** Every counter is the number of its flags, and the flags mirror the problem set. */
    ghost predicate DestBook(ps: set<EdgeKey>)
      reads counts, flags
    {
      Shaped() && forall i: nat :: g.Node(i) && g.has[i] ==> DestRow(ps, i)
    }

    ghost predicate DestRow(ps: set<EdgeKey>, i: nat)
      requires Shaped() && g.Node(i)
      reads counts, flags
    {
      counts[i] == |Into(ps, i)| && forall j: nat :: g.Node(j) ==> (flags[i, j] <==> EdgeKey(j, i) in ps)
    }

    ghost predicate SourceBook(ps: set<EdgeKey>)
      reads this`sourceCount, sourceFlags
    {
      && Shaped() && sourceCount == |OutOf(ps, g.me)|
      && forall j: nat :: g.Node(j) ==> (sourceFlags[j] <==> EdgeKey(g.me, j) in ps)
    }

    ghost predicate TypesRight(ps: set<EdgeKey>)
      reads types
    {
      Shaped() && forall i: nat :: g.Node(i) ==> types[i] == Chosen(g, ps, i)
    }

    ghost predicate Valid()
      reads this, types, counts, flags, sourceFlags
    {
      && Shaped() && DestBook(problems) && SourceBook(problems) && TypesRight(problems)
      && forall e :: e in problems ==> g.Knows(e)
    }

    /** The state DG_Compute_Graphs leaves: no problems, two paths for every destination. */
    constructor (graphs: Graphs)
      requires graphs.Valid()
      ensures Valid() && g == graphs && problems == {}
      ensures fresh(types) && fresh(counts) && fresh(flags) && fresh(sourceFlags)
    {
      g := graphs;
      types := new GraphType[|graphs.has|](
              i requires 0 <= i < |graphs.has| => if graphs.has[i] then TwoPaths else NoGraph);
      counts := new nat[|graphs.has|](_ => 0);
      flags := new bool[|graphs.has|, |graphs.has|]((_, _) => false);
      sourceFlags := new bool[|graphs.has|](_ => false);
      sourceCount := 0;
      problems := {};
    }

    /** DG_Problem_On_Graph. */
    method ProblemOnGraph(edges: seq<EdgeKey>, src: nat, dst: nat) returns (found: bool)
      ensures found <==> Troubled(edges, problems, src, dst)
    {
      var k := 0;
      while k < |edges|
        invariant 0 <= k <= |edges|
        invariant forall i :: 0 <= i < k ==> !(edges[i].src != src && edges[i].dst != dst && edges[i] in problems)
      {
        if !(edges[k].src == src || edges[k].dst == dst) && edges[k] in problems { return true; }
        k := k + 1;
      }
      return false;
    }

    method EscalateForeign(e: EdgeKey)
      requires Shaped()
      modifies types
      ensures forall i: nat :: g.Node(i) ==>
                types[i] == Foreign(old(types[i]), e in g.source[i] && e.src != g.me, e in g.dest[i] && e.dst != i)
    {
      var i := 1;
      while i < types.Length
        invariant 1 <= i
        invariant forall k: nat :: i <= k && g.Node(k) ==> types[k] == old(types[k])
        invariant forall k: nat :: k < i && g.Node(k) ==>
                  types[k] == Foreign(old(types[k]), e in g.source[k] && e.src != g.me, e in g.dest[k] && e.dst != k)
      {
        if types[i] == SourceGraph && e.src != g.me && e in g.source[i] { types[i] := SourceDestGraph; }
        else if types[i] == DestGraph && e.dst != i && e in g.dest[i] { types[i] := SourceDestGraph; }
        i := i + 1;
      }
    }

    lemma IntoAdds(ps: set<EdgeKey>, e: EdgeKey)
      requires e !in ps
      ensures forall i: nat :: |Into(ps + {e}, i)| == |Into(ps, i)| + if e.dst == i then 1 else 0
    {
      forall i: nat ensures |Into(ps + {e}, i)| == |Into(ps, i)| + if e.dst == i then 1 else 0 { IntoAdd(ps, e, i); }
    }

    /** Destinations without graphs keep no records and no type. */
    ghost predicate NoneKept()
      reads types
      requires Shaped()
    {
      forall i: nat :: g.Node(i) ==> (types[i] == NoGraph <==> !g.has[i])
    }

    method NewDestProblem(e: EdgeKey, ghost before: set<EdgeKey>)
      requires Shaped() && g.Knows(e) && e !in before && problems == before + {e} && DestBook(before) && NoneKept()
      modifies types, counts, flags
      ensures DestBook(problems)
      ensures forall i: nat :: g.Node(i) ==>
        (types[i] == if g.has[i] && e.dst == i && |Into(problems, i)| == THRESHOLD
                     then DestCrossed(old(types[i]), DestTrouble(g, problems, i)) else old(types[i]))
    {
      var v := e.dst;
      IntoAdds(before, e);
      assert g.has[v] ==> DestRow(before, v);
      if types[v] != NoGraph && !flags[v, e.src] {
        flags[v, e.src] := true;
        counts[v] := counts[v] + 1;
        if counts[v] == THRESHOLD {
          if types[v] == SourceGraph {
            types[v] := SourceDestGraph;
          } else if types[v] == TwoPaths {
            var trouble := ProblemOnGraph(g.dest[v], NOBODY, v);
            types[v] := if trouble then SourceDestGraph else DestGraph;
          }
        }
      }
      hide Into, Troubled;
      forall i: nat | g.Node(i) && g.has[i] ensures DestRow(problems, i) { assert old(DestRow(before, i)); }
    }

    method NewSourceProblem(e: EdgeKey, ghost before: set<EdgeKey>)
      requires Shaped() && g.Knows(e) && e !in before && problems == before + {e} && SourceBook(before) && NoneKept()
      modifies this`sourceCount, types, sourceFlags
      ensures SourceBook(problems)
      ensures forall i: nat :: g.Node(i) ==>
        (types[i] == if g.has[i] && e.src == g.me && |OutOf(problems, g.me)| == THRESHOLD
                     then SourceCrossed(old(types[i]), SourceTrouble(g, problems, i)) else old(types[i]))
    {
      OutOfAdd(before, e, g.me);
      if e.src == g.me && !sourceFlags[e.dst] {
        sourceFlags[e.dst] := true;
        sourceCount := sourceCount + 1;
        if sourceCount == THRESHOLD { SwitchToSource(); }
      }
      hide OutOf, Troubled;
    }

    method SwitchToSource()
      requires Shaped()
      modifies types
      ensures forall i: nat :: g.Node(i) ==> types[i] == SourceCrossed(old(types[i]), SourceTrouble(g, problems, i))
    {
      var i := 1;
      while i < types.Length
        invariant 1 <= i
        invariant forall k: nat :: i <= k && g.Node(k) ==> types[k] == old(types[k])
        invariant forall k: nat :: k < i && g.Node(k) ==>
                  types[k] == SourceCrossed(old(types[k]), SourceTrouble(g, problems, k))
      {
        if types[i] == DestGraph {
          types[i] := SourceDestGraph;
        } else if types[i] == TwoPaths {
          var trouble := ProblemOnGraph(g.source[i], g.me, NOBODY);
          types[i] := if trouble then SourceDestGraph else SourceGraph;
        }
        i := i + 1;
      }
    }

    /** A problem started on a link. */
    method ProblemStarted(e: EdgeKey)
      requires Valid() && g.Knows(e)
      modifies this`problems, this`sourceCount, types, counts, flags, sourceFlags
      ensures Valid() && problems == old(problems) + {e}
    {
      if e in problems {
        assert problems == problems + {e};
        return;
      }
      ghost var before := problems;
      assert NoneKept();
      problems := problems + {e};
      EscalateForeign(e);
      assert NoneKept();
      NewDestProblem(e, before);
      assert NoneKept();
      NewSourceProblem(e, before);
      hide Into, OutOf, Troubled, Chosen, DestBook, SourceBook;
      forall i: nat | g.Node(i) ensures types[i] == Chosen(g, problems, i) {
        if g.has[i] { StartedIs(g, before, e, i); } else { NoneStays(g, before, problems, i); }
      }
    }

    // -------------------------------------------------------------- resolution

    method ResolvedDest(e: EdgeKey, ghost before: set<EdgeKey>)
      requires Shaped() && g.Knows(e) && e in before && problems == before - {e} && DestBook(before)
      requires SourceBook(before) && NoneKept()
      modifies types, counts, flags
      ensures DestBook(problems)
      ensures forall i: nat :: g.Node(i) ==>
        (types[i] == if g.has[i] && e.dst == i && |Into(before, i)| == THRESHOLD
                     then DestResolved(old(types[i]), sourceCount, SourceTrouble(g, problems, i)) else old(types[i]))
    {
      var v := e.dst;
      assert problems + {e} == before;
      IntoAdds(problems, e);
      assert g.has[v] ==> DestRow(before, v);
      if types[v] != NoGraph && flags[v, e.src] {
        flags[v, e.src] := false;
        if counts[v] == THRESHOLD {
          if types[v] == DestGraph {
            types[v] := TwoPaths;
          } else if types[v] == SourceDestGraph {
            if sourceCount < THRESHOLD {
              types[v] := TwoPaths;
            } else {
              var trouble := ProblemOnGraph(g.source[v], g.me, NOBODY);
              if !trouble { types[v] := SourceGraph; }
            }
          }
        }
        counts[v] := counts[v] - 1;
      }
      hide Into, Troubled;
      forall i: nat | g.Node(i) && g.has[i] ensures DestRow(problems, i) { assert old(DestRow(before, i)); }
    }

    method ResolvedSource(e: EdgeKey, ghost before: set<EdgeKey>)
      requires Shaped() && g.Knows(e) && e in before && problems == before - {e} && SourceBook(before)
      requires DestBook(problems) && NoneKept()
      modifies this`sourceCount, types, sourceFlags
      ensures SourceBook(problems)
      ensures forall i: nat :: g.Node(i) ==>
        (types[i] == if g.has[i] && e.src == g.me && |OutOf(before, g.me)| == THRESHOLD
                     then SourceResolved(old(types[i]), counts[i], DestTrouble(g, problems, i)) else old(types[i]))
    {
      assert problems + {e} == before;
      OutOfAdd(problems, e, g.me);
      if e.src == g.me && sourceFlags[e.dst] {
        sourceFlags[e.dst] := false;
        if sourceCount == THRESHOLD { SwitchFromSource(); }
        sourceCount := sourceCount - 1;
      }
      hide OutOf, Troubled, Into;
    }

    method SwitchFromSource()
      requires Shaped()
      modifies types
      ensures forall i: nat :: g.Node(i) ==>
                types[i] == SourceResolved(old(types[i]), counts[i], DestTrouble(g, problems, i))
    {
      var i := 1;
      while i < types.Length
        invariant 1 <= i
        invariant forall k: nat :: i <= k && g.Node(k) ==> types[k] == old(types[k])
        invariant forall k: nat :: k < i && g.Node(k) ==>
                  types[k] == SourceResolved(old(types[k]), counts[k], DestTrouble(g, problems, k))
      {
        if types[i] == SourceGraph {
          types[i] := TwoPaths;
        } else if types[i] == SourceDestGraph {
          if counts[i] < THRESHOLD {
            types[i] := TwoPaths;
          } else {
            var trouble := ProblemOnGraph(g.dest[i], NOBODY, i);
            if !trouble { types[i] := DestGraph; }
          }
        }
        i := i + 1;
      }
    }

    /** Problems in the middle of the network; the daemon would exit on a graph for both ends with
        trouble at neither. */
    method ResolvedMiddle()
      requires Shaped()
      requires forall i: nat :: g.Node(i) && types[i] == SourceDestGraph ==>
                !(sourceCount < THRESHOLD && counts[i] < THRESHOLD)
      modifies types
      ensures forall i: nat :: g.Node(i) ==>
        types[i] ==
          MiddleResolved(old(types[i]), sourceCount, counts[i],
                         SourceTrouble(g, problems, i), DestTrouble(g, problems, i))
    {
      var i := 1;
      while i < types.Length
        invariant 1 <= i
        invariant forall k: nat :: i <= k && g.Node(k) ==> types[k] == old(types[k])
        invariant forall k: nat :: k < i && g.Node(k) ==>
          types[k] ==
            MiddleResolved(old(types[k]), sourceCount, counts[k],
                           SourceTrouble(g, problems, k), DestTrouble(g, problems, k))
      {
        if types[i] == SourceDestGraph {
          if sourceCount < THRESHOLD && counts[i] < THRESHOLD {
            assert false;
          }
          if sourceCount < THRESHOLD {
            var trouble := ProblemOnGraph(g.dest[i], NOBODY, i);
            if !trouble { types[i] := DestGraph; }
          } else if counts[i] < THRESHOLD {
            var trouble := ProblemOnGraph(g.source[i], g.me, NOBODY);
            if !trouble { types[i] := SourceGraph; }
          }
        }
        i := i + 1;
      }
    }

    /** The steps at both ends. */
    method ResolvedEnds(e: EdgeKey, ghost before: set<EdgeKey>)
      requires Shaped() && g.Knows(e) && e in before && problems == before - {e}
      requires DestBook(before) && SourceBook(before) && NoneKept()
      modifies this`sourceCount, types, counts, flags, sourceFlags
      ensures DestBook(problems) && SourceBook(problems)
      ensures forall i: nat :: g.Node(i) ==>
                types[i] == if g.has[i] then EndsResolved(g, before, e, i, old(types[i])) else old(types[i])
    {
      BookIs(before);
      ResolvedDest(e, before);
      assert NoneKept();
      ResolvedSource(e, before);
      BookIs(problems);
      hide Into, OutOf, Troubled, DestResolved, SourceResolved;
    }

    lemma BookIs(ps: set<EdgeKey>)
      requires Shaped() && DestBook(ps) && SourceBook(ps)
      ensures sourceCount == |OutOf(ps, g.me)| && forall i: nat :: g.Node(i) && g.has[i] ==> counts[i] == |Into(ps, i)|
    {
      assert forall i: nat :: g.Node(i) && g.has[i] ==> DestRow(ps, i);
    }

    /** A problem went away. */
    method ProblemResolved(e: EdgeKey)
      requires Valid() && g.Knows(e)
      modifies this`problems, this`sourceCount, types, counts, flags, sourceFlags
      ensures Valid() && problems == old(problems) - {e}
    {
      if e !in problems {
        assert problems == problems - {e};
        return;
      }
      ghost var before := problems;
      assert NoneKept();
      problems := problems - {e};
      ResolvedEnds(e, before);
      BookIs(problems);
      hide Into, OutOf, Troubled, Chosen, EndsResolved, DestBook, SourceBook, MiddleResolved;
      forall i: nat | g.Node(i)
        ensures !(types[i] == SourceDestGraph && sourceCount < THRESHOLD && counts[i] < THRESHOLD)
        ensures MiddleResolved(types[i], sourceCount, counts[i],
                               SourceTrouble(g, problems, i), DestTrouble(g, problems, i))
                == Chosen(g, problems, i)
      {
        MiddleRight(g, before, e, i, types[i], sourceCount, counts[i]);
      }
      ResolvedMiddle();
    }

    /** DG_Process_Edge_Update, called before the new cost is written: only a change between
        disconnected, problematic and usable counts. */
    method ProcessEdgeUpdate(e: EdgeKey, oldCost: int, newCost: int)
      requires Valid()
      modifies this`problems, this`sourceCount, types, counts, flags, sourceFlags
      ensures Valid() && problems == Updated(g, old(problems), e, oldCost, newCost)
    {
      if SameClass(oldCost, newCost) || !g.Knows(e) { return; }
      if newCost < 0 { ProblemStarted(e); } else { ProblemResolved(e); }
    }
  }

  lemma NoneStays(g: Graphs, a: set<EdgeKey>, b: set<EdgeKey>, i: nat)
    requires g.Valid() && g.Node(i) && !g.has[i]
    ensures Chosen(g, a, i) == Chosen(g, b, i) == NoGraph
  {}

  /** What is left to do after the steps at both ends, at one destination. */
  lemma MiddleRight(g: Graphs, before: set<EdgeKey>, e: EdgeKey, i: nat, t: GraphType, s: nat, d: nat)
    requires g.Valid() && g.Node(i) && g.Knows(e) && e in before
    requires t == if g.has[i] then EndsResolved(g, before, e, i, Chosen(g, before, i)) else Chosen(g, before, i)
    requires s == |OutOf(before - {e}, g.me)| && (g.has[i] ==> d == |Into(before - {e}, i)|)
    ensures !(t == SourceDestGraph && s < THRESHOLD && d < THRESHOLD)
    ensures var now := before - {e};
            MiddleResolved(t, s, d, SourceTrouble(g, now, i), DestTrouble(g, now, i)) == Chosen(g, now, i)
  {
    if g.has[i] { ResolvedIs(g, before, e, i); } else { NoneStays(g, before, before - {e}, i); }
    hide Into, OutOf, Troubled, Chosen, EndsResolved;
  }

  predicate SameClass(a: int, b: int) {
    (a == -1 && b == -1) || (a < -1 && b < -1) || (a >= 0 && b >= 0)
  }

  /** The problem set after a link's cost changes. */
  function Updated(g: Graphs, ps: set<EdgeKey>, e: EdgeKey, oldCost: int, newCost: int): set<EdgeKey> {
    if SameClass(oldCost, newCost) || !g.Knows(e) then ps
    else if newCost < 0 then ps + {e} else ps - {e}
  }
}
