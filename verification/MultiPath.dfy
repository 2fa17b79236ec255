/** The k-paths component itself: the search over the shared edge list, the mask cache, and the
    writers of link costs, which empty it and tell the record of link problems. */
module MultiPath {
  import opened Wrappers
  import opened FlowNetwork
  import opened BellmanFord
  import opened Augmentation
  import opened MinCostFlow
  import opened Topology
  import opened KPaths
  import opened OverlayPaths
  import opened GraphChoice
  import opened DissemState
  import opened LinkCosts

  const MAX_NODES := 50
  const MAX_K := 5
  const DG_K_FLAG := 6

  /** The bitmasks of the graphs computed once, by destination and type. */
  type GraphMasks = (nat, GraphType) -> set<nat>

  /** How one turn of the path loop ends. */
  datatype Step = Found | NoMore | Broken

  /** What the path loop reports about where the computation ended. */
  ghost predicate Reports(r: Progress, step: Step, found: nat, bag: set<Entry>) {
    match step
    case Found => r.Active? && r.found == found && r.bag == bag
    case NoMore => r.Exhausted? && r.found == found && r.bag == bag
    case Broken => r.NegativeCycle? || r.Stuck?
  }

  datatype Stamp = Refused | Stamped(mask: set<nat>) | Down

  /** Stamping always uses the current costs and looks at one direction of a link only. */
  const STAMP_MODE := Mode(false, false)

  /** How many paths a stamp asks for. */
  function AskedFor(k: nat): nat {
    if k == DG_K_FLAG then 2 else if k > MAX_K then MAX_K else k
  }

  /** The graph in use for a destination when exactly these links have problems. */
  ghost function InUse(g: Graphs, problems: set<EdgeKey>, dest: nat): GraphType
    requires g.Valid()
  {
    if g.Node(dest) then Chosen(g, problems, dest) else NoGraph
  }

  /** What a stamp should be, computed afresh from the present costs and the present problems. */
  ghost function FreshStamp(o: Overlay, n: Net, g: Graphs, masks: GraphMasks, all: set<nat>, dest: nat, k: nat): Stamp
    requires g.Valid() && Configured(o, n.costs, g.me, g.me)
  {
    var t := InUse(g, n.problems, dest);
    if (dest == 0 && k > 0) || dest > MAX_NODES then Refused
    else if k == 0 then Stamped(all)
    else if k == DG_K_FLAG && (t == SourceGraph || t == DestGraph) then Stamped(masks(dest, t))
    else if dest !in o.hosts then Down
    else
      match Compute(o, n.costs, STAMP_MODE, g.me, dest, AskedFor(k))
      case None => Down
      case Some(a) => Stamped(if k == DG_K_FLAG && t == SourceDestGraph then a.mask + masks(dest, t) else a.mask)
  }

  /** How the links came to be as they are does not matter: after any two runs of legs and state
      cells that leave the same costs and the same links bad, every stamp is the same. */
  lemma StampForgetsHistory(o: Overlay, n: Net, g: Graphs, masks: GraphMasks, all: set<nat>, dest: nat, k: nat,
                            a: seq<Write>, b: seq<Write>)
    requires g.Valid() && Initial(n) && Told(a) && Told(b)
    requires LinkCosts.Run(g, n, a).costs == LinkCosts.Run(g, n, b).costs
    requires forall e :: e in n.costs && g.Knows(e) ==>
               (Bad(LinkCosts.Run(g, n, a), e) <==> Bad(LinkCosts.Run(g, n, b), e))
    requires Configured(o, LinkCosts.Run(g, n, a).costs, g.me, g.me)
    ensures FreshStamp(o, LinkCosts.Run(g, n, a), g, masks, all, dest, k)
              == FreshStamp(o, LinkCosts.Run(g, n, b), g, masks, all, dest, k)
  {
    hide LinkCosts.Run, Bad, Chosen, Compute;
    if g.Node(dest) { HistoryIndependent(g, n, a, b, dest); }
  }

  /** The mask lights cheapest paths that share no host but their ends, `k` of them or as many as can
      be made before the next is too dear; nothing needs to be sent to the node itself. */
  ghost predicate Routed(o: Overlay, costs: Costs, me: nat, dest: nat, k: nat, mask: set<nat>) {
    if dest == me then mask == {}
    else exists ps, r ::
           && Cheapest(o, costs, Mode(false, false), me, dest, ps, r, mask)
           && StopsAt(o, costs, Mode(false, false), me, dest, k, r)
  }

  ghost predicate RoutedStamp(o: Overlay, costs: Costs, me: nat, dest: nat, k: nat, s: Stamp) {
    s.Stamped? && Routed(o, costs, me, dest, k, s.mask)
  }

  lemma ComputesRouted(o: Overlay, costs: Costs, me: nat, dest: nat, k: nat)
    requires Configured(o, costs, me, dest) && SaneCosts(costs, STAMP_MODE)
    ensures var a := Compute(o, costs, STAMP_MODE, me, dest, k);
            a.Some? && Routed(o, costs, me, dest, k, a.value.mask) && (dest == me ==> a.value.found == k)
  {
    if dest != me {
      var ps := AnswersCheapest(o, costs, STAMP_MODE, me, dest, k);
      hide Compute, Configured, SaneCosts, Cheapest, StopsAt;
      var a := Compute(o, costs, STAMP_MODE, me, dest, k).value;
      AnswersExactly(o, costs, STAMP_MODE, me, dest, k, a.found);
    }
  }

  /** What every stamp for one to five paths is, and for more: five. */
  lemma PathStamp(o: Overlay, n: Net, g: Graphs, masks: GraphMasks, all: set<nat>, dest: nat, k: nat)
    requires g.Valid() && Configured(o, n.costs, g.me, g.me) && SaneCosts(n.costs, STAMP_MODE)
    requires 1 <= dest <= 50 && k != 0 && k != 6
    ensures var s := FreshStamp(o, n, g, masks, all, dest, k);
            if dest in o.hosts then RoutedStamp(o, n.costs, g.me, dest, if k <= 5 then k else 5, s) else s == Down
  {
    if dest in o.hosts {
      ComputesRouted(o, n.costs, g.me, dest, if k <= 5 then k else 5);
      hide Compute, SaneCosts, Routed, Chosen;
    }
  }

  /** The graph in use, told from the problems alone: with fewer than two at either end, two paths;
      with two at one end only and none in the middle of that end's graph, that graph; otherwise the
      graph for both ends. */
  lemma GraphInUse(g: Graphs, problems: set<EdgeKey>, dest: nat)
    requires g.Valid()
    ensures InUse(g, problems, dest) == NoGraph <==> !(1 <= dest < |g.has| && g.has[dest])
    ensures 1 <= dest < |g.has| && g.has[dest] ==>
              var into, out := |set e | e in problems && e.dst == dest|, |set e | e in problems && e.src == g.me|;
              var sourceTrouble := exists e :: e in g.source[dest] && e in problems && e.src != g.me && e.dst != 0;
              var destTrouble := exists e :: e in g.dest[dest] && e in problems && e.src != 0 && e.dst != dest;
              InUse(g, problems, dest) ==
                if into < 2 && out < 2 then TwoPaths
                else if into < 2 && !sourceTrouble then SourceGraph
                else if out < 2 && !destTrouble then DestGraph
                else SourceDestGraph
  {
    if 1 <= dest < |g.has| && g.has[dest] {
      TroubledIs(g.source[dest], problems, g.me, 0);
      TroubledIs(g.dest[dest], problems, 0, dest);
      hide Troubled;
    }
  }

  lemma TroubledIs(edges: seq<EdgeKey>, ps: set<EdgeKey>, src: nat, dst: nat)
    ensures Troubled(edges, ps, src, dst) <==> exists e :: e in edges && e in ps && e.src != src && e.dst != dst
  {
    if e :| e in edges && e in ps && e.src != src && e.dst != dst {
      var k :| 0 <= k < |edges| && edges[k] == e;
    }
  }

  lemma FlagStamp(o: Overlay, n: Net, g: Graphs, masks: GraphMasks, all: set<nat>, dest: nat, t: GraphType)
    requires g.Valid() && Configured(o, n.costs, g.me, g.me) && 1 <= dest <= 50 && t == InUse(g, n.problems, dest)
    ensures var s := FreshStamp(o, n, g, masks, all, dest, 6);
            if t == SourceGraph || t == DestGraph then s == Stamped(masks(dest, t))
            else if dest !in o.hosts then s == Down
            else
              var a := Compute(o, n.costs, STAMP_MODE, g.me, dest, 2);
              a.Some? ==>
                s == Stamped(if t == SourceDestGraph then a.value.mask + masks(dest, SourceDestGraph) else a.value.mask)
  {
    hide Compute, InUse, Configured;
  }

  lemma RoutedIs(o: Overlay, costs: Costs, me: nat, dest: nat, m: set<nat>)
    requires Routed(o, costs, me, dest, 2, m)
    ensures RoutedStamp(o, costs, me, dest, 2, Stamped(m))
  {
    hide Routed;
  }

  /** What the stamp for a dissemination graph is: the stored mask of the one end's graph while that is
      in use, otherwise two paths, and with them the stored mask of the graph for both ends while
      that is in use. */
  lemma GraphStamp(o: Overlay, n: Net, g: Graphs, masks: GraphMasks, all: set<nat>, dest: nat)
    requires g.Valid() && Configured(o, n.costs, g.me, g.me) && SaneCosts(n.costs, STAMP_MODE)
    requires 1 <= dest <= 50
    ensures var s, t := FreshStamp(o, n, g, masks, all, dest, 6), InUse(g, n.problems, dest);
            match t
            case SourceGraph => s == Stamped(masks(dest, SourceGraph))
            case DestGraph => s == Stamped(masks(dest, DestGraph))
            case SourceDestGraph =>
              if dest !in o.hosts then s == Down
              else exists m ::
                     Routed(o, n.costs, g.me, dest, 2, m) && s == Stamped(m + masks(dest, SourceDestGraph))
            case _ => if dest !in o.hosts then s == Down else RoutedStamp(o, n.costs, g.me, dest, 2, s)
  {
    FlagStamp(o, n, g, masks, all, dest, InUse(g, n.problems, dest));
    if dest in o.hosts {
      ComputesRouted(o, n.costs, g.me, dest, 2);
      hide *;
      var m := Compute(o, n.costs, STAMP_MODE, g.me, dest, 2).value.mask;
      RoutedIs(o, n.costs, g.me, dest, m);
    }
  }

  /** And what it is when nothing is computed: all bits for flooding, none for an invalid number. */
  lemma PlainStamp(o: Overlay, n: Net, g: Graphs, masks: GraphMasks, all: set<nat>, dest: nat, k: nat)
    requires g.Valid() && Configured(o, n.costs, g.me, g.me)
    ensures FreshStamp(o, n, g, masks, all, dest, k) == Refused <==> dest > 50 || (dest == 0 && k > 0)
    ensures k == 0 && dest <= 50 ==> FreshStamp(o, n, g, masks, all, dest, k) == Stamped(all)
  {
    hide Compute, InUse;
  }

  class PathMasks {
    const overlay: Overlay
    const me: nat
    const allBits: set<nat>
    const masks: GraphMasks
    const record: Dissemination
    var arcs: seq<Arc>
    var costs: Costs
    var legs: map<EdgeKey, int>
    ghost var touched: set<EdgeKey>
    var flow: Flow
    var distance: map<Node, int>
    var previous: map<Node, Entry>
    var cache: map<(nat, nat), set<nat>>

    ghost predicate Ready()
      reads this`arcs, this`costs
    {
      && overlay.Valid() && me in overlay.hosts
      && arcs == EdgeArcs(overlay, |overlay.edges|)
      && Priced(arcs, costs)
    }

    /** `g` is the network this object's fields describe. */
    ghost predicate Mirrors(g: Graph, mode: Mode)
      reads this`arcs, this`costs
    {
      && g.Valid() && Priced(arcs, costs)
      && g.arcs == arcs && g.w == Weights(arcs, costs, mode)
      && g.nodes == overlay.Halves() && g.src == Out(me)
    }

    /** Cache coherence: every stored mask is what computing it now would give. */
    ghost predicate Valid()
      reads this`arcs, this`costs, this`cache
    {
      && Ready()
      && forall d, k :: (d, k) in cache.Keys ==> Fresh(d, k, cache[(d, k)])
    }

    ghost predicate Fresh(d: nat, k: nat, mask: set<nat>)
      reads this`arcs, this`costs
      requires Ready()
    {
      && d in overlay.hosts
      && Compute(overlay, costs, STAMP_MODE, me, d, k).Some?
      && Compute(overlay, costs, STAMP_MODE, me, d, k).value.mask == mask
    }

    /** Link costs, leg costs and recorded problems. */
    ghost function Now(): Net
      reads this`costs, this`legs, this`touched, record`problems
    {
      Net(costs, legs, touched, record.problems)
    }

    /** The cache is right, and so are the counters and graphs of the record. */
    ghost predicate Whole()
      reads this`arcs, this`costs, this`cache, record, record.types, record.counts, record.flags, record.sourceFlags
    {
      Valid() && record.Valid() && record.g.me == me
    }

    constructor (o: Overlay, bits: set<nat>, initial: Costs, dissemination: Dissemination, graphMasks: GraphMasks)
      requires dissemination.Valid() && dissemination.problems == {}
      requires o.Valid() && dissemination.g.me in o.hosts && Priced(EdgeArcs(o, |o.edges|), initial)
      requires forall e :: e in initial ==> initial[e].cost == DOWN
      ensures Whole() && Initial(Now()) && cache == map[]
      ensures overlay == o && allBits == bits && costs == initial && record == dissemination && masks == graphMasks
    {
      overlay, me, allBits, costs := o, dissemination.g.me, bits, initial;
      record, masks, legs, touched := dissemination, graphMasks, map[], {};
      flow := Flow([], []);
      distance, previous, cache := map[], map[], map[];
      arcs := [];
      new;
      arcs := InitArcs(o);
    }

    /** Make every arc empty again: real edges carry nothing, residual twins are full. */
    method ResetFlow()
      modifies this`flow
      ensures flow == Flow(seq(|arcs|, _ => 0), seq(|arcs|, _ => 1))
    {
      flow := Flow(seq(|arcs|, _ => 7), seq(|arcs|, _ => 7));
      var j := 0;
      while j < 2 * |arcs|
        invariant j <= 2 * |arcs| && |flow.fwd| == |flow.back| == |arcs|
        invariant forall i :: 0 <= i < |arcs| ==>
                    (2 * i < j ==> flow.back[i] == 1) && (2 * i + 1 < j ==> flow.fwd[i] == 0)
      {
        var e := EntryAt(j);
        flow := flow.Set(e, if e.residual then 1 else 0);
        j := j + 1;
      }
    }

    /** One step of the relaxation loop. */
    method RelaxOne(e: Entry, mode: Mode, ghost g: Graph) returns (progress: bool)
      requires Mirrors(g, mode) && flow.Fits(g) && distance.Keys == g.nodes && g.Has(e)
      modifies this`distance, this`previous
      ensures BellmanFord.Search(distance, previous) ==
                Relax(g, flow, BellmanFord.Search(old(distance), old(previous)), e)
      ensures progress == Relaxable(g, flow, BellmanFord.Search(old(distance), old(previous)), e)
    {
      progress := false;
      var arc := arcs[e.arc];
      var cost := ArcWeight(arc, costs, mode);
      if cost.Some? {
        var c := if e.residual then Negate16(cost.value) else cost.value;
        var start := if e.residual then arc.End() else arc.Start();
        var end := if e.residual then arc.Start() else arc.End();
        if flow.At(e) < 1 && distance[end] > distance[start] + c {
          distance := distance[end := ToU16(distance[start] + c)];
          previous := previous[end := e];
          progress := true;
        }
      }
    }

    /** Relax every entry of the list once, in list order. */
    method OnePass(mode: Mode, ghost g: Graph) returns (moved: bool)
      requires Mirrors(g, mode) && flow.Fits(g) && distance.Keys == g.nodes
      modifies this`distance, this`previous
      ensures (BellmanFord.Search(distance, previous), moved) ==
              PassTo(g, flow, BellmanFord.Search(old(distance), old(previous)), g.Entries())
    {
      hide Relax, Relaxable, ArcWeight, Weights, Priced, PassTo;
      ghost var before := BellmanFord.Search(distance, previous);
      moved := false;
      var n := 0;
      PassNext(g, flow, before, 0);
      while n < 2 * |arcs|
        invariant n <= 2 * |arcs|
        invariant (BellmanFord.Search(distance, previous), moved) == PassTo(g, flow, before, n)
      {
        PassNext(g, flow, before, n);
        var progress := RelaxOne(EntryAt(n), mode, g);
        moved := moved || progress;
        n := n + 1;
      }
    }

    /** No node reached except the source, no previous edges. */
    method ResetSearch(ghost g: Graph)
      requires overlay.Halves() == g.nodes && g.src == Out(me) && Out(me) in g.nodes
      modifies this`distance, this`previous
      ensures BellmanFord.Search(distance, previous) == InitSearch(g) && previous == map[]
    {
      distance := map v | v in overlay.Halves() :: UNREACHED;
      distance := distance[Out(me) := 0];
      previous := map[];
    }

    /** The search: relax the whole list again and again until a pass moves nothing. */
    method Search(mode: Mode, ghost g: Graph) returns (moved: bool)
      requires Mirrors(g, mode) && flow.Fits(g)
      modifies this`distance, this`previous
      ensures (BellmanFord.Search(distance, previous), moved) == Passes(g, flow, PassLimit(overlay))
      ensures Listed(g, previous)
    {
      hide PassTo, InitSearch;
      ResetSearch(g);
      moved := true;
      var i := 0;
      while i < PassLimit(overlay) && moved
        invariant i <= PassLimit(overlay)
        invariant (BellmanFord.Search(distance, previous), moved) == Passes(g, flow, i)
        invariant Listed(g, previous)
        decreases PassLimit(overlay) - i
      {
        PassesNext(g, flow, i);
        moved := OnePass(mode, g);
        i := i + 1;
      }
      if i < PassLimit(overlay) { PassesStop(g, flow, i, PassLimit(overlay)); }
    }

    /** The augmentation: walk back from the destination, flipping every entry met. */
    method WalkAndFlip(bag: set<Entry>, dest: nat, ghost mode: Mode, ghost g: Graph)
      returns (arrived: bool, bag': set<Entry>)
      requires Mirrors(g, mode) && flow.Fits(g) && Listed(g, previous)
      modifies this`flow
      ensures arrived == WalkBack(g, previous, In(dest), |g.nodes|).Some?
      ensures arrived ==> (flow, bag') == Flips(old(flow), bag, WalkBack(g, previous, In(dest), |g.nodes|).value)
    {
      var t := In(dest);
      var fuel: nat := |overlay.Halves()|;
      bag' := bag;
      ghost var whole := WalkBack(g, previous, t, fuel);
      while t != Out(me) && fuel > 0 && t in previous
        invariant flow.Fits(g)
        invariant whole.Some? == WalkBack(g, previous, t, fuel).Some?
        invariant whole.Some? ==>
                    Flips(flow, bag', WalkBack(g, previous, t, fuel).value) == Flips(old(flow), bag, whole.value)
        decreases fuel
      {
        var e := previous[t];
        ghost var rest := WalkBack(g, previous, t, fuel);
        if e.residual {
          bag' := bag' - {e.Twin()};
        } else {
          bag' := bag' + {e};
        }
        flow := flow.Set(e, 1).Set(e.Twin(), 0);
        t := if e.residual then arcs[e.arc].End() else arcs[e.arc].Start();
        fuel := fuel - 1;
        if rest.Some? {
          assert rest.value == WalkBack(g, previous, t, fuel).value + [e];
        }
      }
      arrived := t == Out(me);
    }

    /** One turn of the path loop: a search, its two checks, and the augmentation. */
    method NextPath(found: nat, bag: set<Entry>, dest: nat, mode: Mode, ghost g: Graph)
      returns (step: Step, bag': set<Entry>)
      requires Mirrors(g, mode) && g.dst == In(dest) && flow.Fits(g)
      modifies this`flow, this`distance, this`previous
      ensures match Round(g, PassLimit(overlay), found, old(flow), bag)
              case Active(f, after, held) => step == Found && f == found + 1 && flow == after && bag' == held
              case Exhausted(f, after, held) => step == NoMore && f == found && flow == after && bag' == held
              case _ => step == Broken
    {
      bag' := bag;
      var moved := Search(mode, g);
      if moved { return Broken, bag; }
      if distance[In(dest)] == UNREACHED { return NoMore, bag; }
      var arrived;
      arrived, bag' := WalkAndFlip(bag, dest, mode, g);
      step := if arrived then Found else Broken;
    }

    /** The path loop from an empty flow: up to `k` turns. */
    method FindPaths(dest: nat, k: nat, mode: Mode, ghost g: Graph) returns (step: Step, found: nat, bag: set<Entry>)
      requires Mirrors(g, mode) && g.dst == In(dest)
      modifies this`flow, this`distance, this`previous
      ensures Reports(Rounds(g, PassLimit(overlay), k), step, found, bag)
    {
      hide Round;
      ResetFlow();
      bag := {};
      found := 0;
      step := Found;
      while found < k && step.Found?
        invariant found <= k
        invariant step.Found? ==> Fits(g, flow)
        invariant step.Found? ==> Rounds(g, PassLimit(overlay), found) == Active(found, flow, bag)
        invariant !step.Found? ==> Reports(Rounds(g, PassLimit(overlay), k), step, found, bag)
        decreases k - found, step.Found?
      {
        RoundsNext(g, PassLimit(overlay), found, k);
        RoundFits(g, PassLimit(overlay), found, flow, bag);
        step, bag := NextPath(found, bag, dest, mode, g);
        if step.Found? { found := found + 1; }
      }
    }

    /** The arcs and the costs are those of the network the answer is about. */
    lemma Described(dest: nat, mode: Mode)
      requires Ready() && dest in overlay.hosts && dest != me
      ensures Configured(overlay, costs, me, dest) && EdgeArcs(overlay, |overlay.edges|) == arcs
      ensures var g := NetworkOf(overlay, costs, mode, me, dest); Mirrors(g, mode) && g.Valid() && g.dst == In(dest)
    {
      NetworkValid(overlay, costs, mode, me, dest);
      hide EdgeArcs, Weights;
    }

    /** MultiPath_Compute. */
    method ComputeMask(dest: nat, k: nat, mode: Mode) returns (r: Option<Answer>)
      requires Ready() && dest in overlay.hosts
      modifies this`flow, this`distance, this`previous
      ensures r == Compute(overlay, costs, mode, me, dest, k)
    {
      if dest == me { return Some(Answer(k, {})); }
      Described(dest, mode);
      ghost var g := NetworkOf(overlay, costs, mode, me, dest);
      hide Compute, Rounds, MaskOf, Priced, NetworkOf, EdgeArcs, Configured, Mirrors, Ready;
      var step, found, bag := FindPaths(dest, k, mode, g);
      AnswerFrom(overlay, costs, mode, me, dest, k, found, bag);
      if step.Broken? { return None; }
      var mask := Lights(bag);
      return Some(Answer(found, mask));
    }

    /** The bitmask is filled by emptying the bag. */
    method Lights(bag: set<Entry>) returns (mask: set<nat>)
      ensures mask == MaskOf(arcs, bag)
    {
      mask := {};
      var left := bag;
      while left != {}
        invariant left <= bag
        invariant mask == MaskOf(arcs, bag - left)
        decreases left
      {
        var e :| e in left;
        if e.arc < |arcs| && arcs[e.arc].Link? {
          mask := mask + {arcs[e.arc].index};
        }
        assert bag - (left - {e}) == (bag - left) + {e};
        left := left - {e};
      }
      assert bag - left == bag;
    }

    /** MultiPath_Clear_Cache. */
    method ClearCache()
      requires Ready()
      modifies this`cache
      ensures cache == map[] && Valid()
    {
      cache := map[];
    }

    /** MultiPath_Stamp_Bitmask.  Whatever was asked before and however the links came to be as they
        are, the mask is what the present costs and the present problems give. */
    method StampBitmask(dest: nat, k: nat) returns (r: Stamp)
      requires Whole()
      modifies this`flow, this`distance, this`previous, this`cache
      ensures Whole()
      ensures r == FreshStamp(overlay, Now(), record.g, masks, allBits, dest, k)
    {
      hide Compute, Chosen;
      if (dest == 0 && k > 0) || dest > MAX_NODES { return Refused; }
      var paths := if k > MAX_K && k != DG_K_FLAG then MAX_K else k;
      if paths == 0 { return Stamped(allBits); }
      if paths == DG_K_FLAG {
        var t := TypeOf(dest);
        if t == SourceGraph || t == DestGraph { return Stamped(masks(dest, t)); }
        if t == TwoPaths || t == SourceDestGraph {
          var two := Lookup(dest, 2, false);
          return if two.Stamped? && t == SourceDestGraph then Stamped(two.mask + masks(dest, t)) else two;
        }
        paths := 2;
      }
      r := Lookup(dest, paths, true);
    }

    method TypeOf(dest: nat) returns (t: GraphType)
      requires record.Valid()
      ensures t == InUse(record.g, record.problems, dest)
    {
      return if 1 <= dest < record.types.Length then record.types[dest] else NoGraph;
    }

    /** The cached mask, computed first if there is none.  When fewer paths were found than asked
        for and `spread` is set, the entries for every other number from there up are filled too. */
    method Lookup(dest: nat, k: nat, spread: bool) returns (r: Stamp)
      requires Valid() && 1 <= k <= MAX_K
      modifies this`flow, this`distance, this`previous, this`cache
      ensures Valid()
      ensures r == if dest !in overlay.hosts then Down
                   else match Compute(overlay, costs, STAMP_MODE, me, dest, k)
                        case None => Down
                        case Some(a) => Stamped(a.mask)
    {
      if (dest, k) in cache.Keys {
        assert Fresh(dest, k, cache[(dest, k)]);
        return Stamped(cache[(dest, k)]);
      }
      if dest !in overlay.hosts { return Down; }
      var answer := ComputeMask(dest, k, STAMP_MODE);
      if answer.None? { return Down; }
      var Answer(found, mask) := answer.value;
      cache := cache[(dest, k) := mask];
      if spread && 0 < found < k {
        var i := found;
        while i <= MAX_K
          invariant found <= i && Valid() && (dest, k) in cache.Keys && cache[(dest, k)] == mask
        {
          if i != k {
            ShortAnswerStands(overlay, costs, STAMP_MODE, me, dest, k, i);
            cache := cache[(dest, i) := cache[(dest, k)]];
          }
          i := i + 1;
        }
      }
      r := Stamped(cache[(dest, k)]);
    }

    method Store(e: EdgeKey, cost: int)
      requires Ready() && e in costs
      modifies this`costs, this`touched, this`cache
      ensures Valid() && cache == map[]
      ensures costs == old(costs)[e := old(costs)[e].(cost := cost)]
      ensures touched == if cost != DOWN then old(touched) + {e} else old(touched)
    {
      costs := costs[e := costs[e].(cost := cost)];
      if cost != DOWN { touched := touched + {e}; }
      ClearCache();
    }

    /** Network_Leg_Set_Cost: a leg whose own cost stays as it is says nothing. */
    method SetLegCost(e: EdgeKey, cost: int)
      requires Whole() && e in costs
      modifies this`costs, this`legs, this`touched, this`cache
      modifies record`problems, record`sourceCount, record.types, record.counts, record.flags, record.sourceFlags
      ensures Whole() && Now() == Apply(record.g, old(Now()), Leg(e, cost))
    {
      if (if e in legs then legs[e] else DOWN) == cost { return; }
      legs := legs[e := cost];
      record.ProcessEdgeUpdate(e, costs[e].cost, cost);
      Store(e, cost);
    }

    /** Edge_Process_state_cell, for another node's link: always written and cleared. */
    method ApplyStateCell(e: EdgeKey, cost: int)
      requires Whole() && e in costs
      modifies this`costs, this`touched, this`cache
      modifies record`problems, record`sourceCount, record.types, record.counts, record.flags, record.sourceFlags
      ensures Whole() && Now() == Apply(record.g, old(Now()), Cell(e, cost)) && cache == map[]
    {
      record.ProcessEdgeUpdate(e, costs[e].cost, cost);
      Store(e, cost);
    }

    /** Apply_Link_Status_Change: the record is not told. */
    method ApplyLinkStatus(e: EdgeKey, cost: int, reference: int)
      requires Whole() && e in costs
      modifies this`costs, this`touched, this`cache
      ensures Whole() && Now() == Apply(record.g, old(Now()), Status(e, cost, reference))
    {
      if cost != DOWN && cost < reference { return; }
      if costs[e].cost == cost { return; }
      Store(e, cost);
    }
  }
}
