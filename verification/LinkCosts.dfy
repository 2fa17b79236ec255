/** The writers of link costs and what they tell the record of link problems. */
module LinkCosts {
  import opened GraphChoice
  import opened DissemState
  import opened KPaths

  const DOWN := -1

  /** Link costs, the costs of this node's legs, the links whose cost has ever been anything but
      down, and the recorded problems. */
  datatype Net = Net(costs: Costs, legs: map<EdgeKey, int>, touched: set<EdgeKey>, problems: set<EdgeKey>) {
    ghost predicate Valid() { forall e :: e in costs && costs[e].cost != DOWN ==> e in touched }

    /** A leg starts down. */
    function LegCost(e: EdgeKey): int { if e in legs then legs[e] else DOWN }
  }

  /** A change of cost by this node's own leg, by another node's state cell, or by a flooded link
      status, with the cost the configuration names. */
  datatype Write =
    | Leg(e: EdgeKey, cost: int)
    | Cell(e: EdgeKey, cost: int)
    | Status(e: EdgeKey, cost: int, reference: int)

  function Written(n: Net, e: EdgeKey, cost: int): Net
    requires e in n.costs
  {
    n.(costs := n.costs[e := n.costs[e].(cost := cost)], touched := if cost != DOWN then n.touched + {e} else n.touched)
  }

  /** A status change below the configured cost is refused, unless it takes the link down. */
  predicate Refuses(cost: int, reference: int) { cost != DOWN && cost < reference }

  /** Network_Leg_Set_Cost, Edge_Process_state_cell and Apply_Link_Status_Change: only the first two
      tell the record. */
  function Apply(g: Graphs, n: Net, w: Write): Net {
    if w.e !in n.costs then n
    else
      match w
      case Leg(e, cost) =>
        if n.LegCost(e) == cost then n
        else Written(n.(legs := n.legs[e := cost],
                       problems := Updated(g, n.problems, e, n.costs[e].cost, cost)), e, cost)
      case Cell(e, cost) => Written(n.(problems := Updated(g, n.problems, e, n.costs[e].cost, cost)), e, cost)
      case Status(e, cost, reference) =>
        if Refuses(cost, reference) || n.costs[e].cost == cost then n else Written(n, e, cost)
  }

  /** Every configured link starts down, and no problem is on record. */
  ghost predicate Initial(n: Net) {
    n.touched == {} && n.problems == {} && forall e :: e in n.costs ==> n.costs[e].cost == DOWN
  }

  ghost function Run(g: Graphs, n: Net, ws: seq<Write>): Net {
    if ws == [] then n else Apply(g, Run(g, n, ws[..|ws| - 1]), ws[|ws| - 1])
  }

  /** A link counts as bad when its cost is negative and it is not still as it started. */
  predicate Bad(n: Net, e: EdgeKey) { e in n.costs && n.costs[e].cost < 0 && e in n.touched }

  /** The record is right about a link. */
  predicate RightAbout(n: Net, e: EdgeKey) { e in n.problems <==> Bad(n, e) }

  ghost predicate Coherent(g: Graphs, n: Net) {
    forall e :: g.Knows(e) && e in n.costs ==> RightAbout(n, e)
  }

  lemma ApplyValid(g: Graphs, n: Net, w: Write)
    requires n.Valid()
    ensures Apply(g, n, w).Valid() && Apply(g, n, w).costs.Keys == n.costs.Keys
  {}

  // ---------------------------------------------------------------- what is written

  /** The cost of this node's leg: the last one set, or as at the start. */
  ghost function LegNow(n: Net, ws: seq<Write>, e: EdgeKey): int {
    if ws == [] then n.LegCost(e)
    else
      var w := ws[|ws| - 1];
      if w.Leg? && w.e == e then w.cost else LegNow(n, ws[..|ws| - 1], e)
  }

  /** The last write at the end of `ws` sets the cost of `e`: a leg whose own cost changes, a state
      cell, or a status that takes the link down or names no less than the reference. */
  ghost predicate Sets(n: Net, ws: seq<Write>, e: EdgeKey)
    requires ws != []
  {
    var w := ws[|ws| - 1];
    && w.e == e
    && match w
       case Leg(_, cost) => cost != LegNow(n, ws[..|ws| - 1], e)
       case Cell(_, _) => true
       case Status(_, cost, reference) => cost == -1 || cost >= reference
  }

  /** The last cost set, or the one at the start. */
  ghost function CostNow(n: Net, ws: seq<Write>, e: EdgeKey): int
    requires e in n.costs
  {
    if ws == [] then n.costs[e].cost
    else if Sets(n, ws, e) then ws[|ws| - 1].cost
    else CostNow(n, ws[..|ws| - 1], e)
  }

  /** In every run each link has the cost last set, its configured cost never changes, and no link
      comes or goes. */
  lemma {:induction false} LastSetHolds(g: Graphs, n: Net, ws: seq<Write>, e: EdgeKey)
    ensures Run(g, n, ws).costs.Keys == n.costs.Keys
    ensures e in n.costs ==>
              && Run(g, n, ws).costs[e].cost == CostNow(n, ws, e) && Run(g, n, ws).costs[e].base == n.costs[e].base
              && Run(g, n, ws).LegCost(e) == LegNow(n, ws, e)
  {
    if ws != [] { LastSetHolds(g, n, ws[..|ws| - 1], e); }
  }

  /** Being told of a new cost puts the record right about a link if it was right before or if the
      cost changes between down, problematic and usable, and only then. */
  lemma CellExactly(g: Graphs, n: Net, e: EdgeKey, cost: int)
    requires n.Valid() && e in n.costs && g.Knows(e)
    ensures RightAbout(Apply(g, n, Cell(e, cost)), e) <==> RightAbout(n, e) || !SameClass(n.costs[e].cost, cost)
  {}

  /** A leg does the same, but says nothing at all when its own cost stays as it is. */
  lemma LegExactly(g: Graphs, n: Net, e: EdgeKey, cost: int)
    requires n.Valid() && e in n.costs && g.Knows(e)
    ensures RightAbout(Apply(g, n, Leg(e, cost)), e)
        <==> RightAbout(n, e) || (n.LegCost(e) != cost && !SameClass(n.costs[e].cost, cost))
  {}

  /** Whether a status change turns a bad link good or a good one bad: it is taken, and what the link
      has been and what it becomes differ. */
  predicate Crosses(n: Net, e: EdgeKey, cost: int, reference: int)
    requires e in n.costs
  {
    && !Refuses(cost, reference) && n.costs[e].cost != cost
    && ((n.costs[e].cost < 0 && e in n.touched) != (cost < 0 && (cost != DOWN || e in n.touched)))
  }

  /** A status change leaves a record that was right right, and one that was wrong wrong, exactly when
      it does not cross. */
  lemma StatusExactly(g: Graphs, n: Net, e: EdgeKey, cost: int, reference: int)
    requires n.Valid() && e in n.costs
    ensures RightAbout(Apply(g, n, Status(e, cost, reference)), e) <==>
                (RightAbout(n, e) <==> !Crosses(n, e, cost, reference))
  {}

  lemma OthersUntouched(g: Graphs, n: Net, w: Write, f: EdgeKey)
    requires f != w.e
    ensures RightAbout(Apply(g, n, w), f) <==> RightAbout(n, f)
  {}

  // ---------------------------------------------------------------- runs of legs and state cells

  lemma ApplyCoherent(g: Graphs, n: Net, w: Write)
    requires n.Valid() && Coherent(g, n) && !w.Status?
    ensures Coherent(g, Apply(g, n, w))
  {
    var m := Apply(g, n, w);
    forall f | g.Knows(f) && f in m.costs ensures RightAbout(m, f) {
      assert f in n.costs ==> RightAbout(n, f);
      if f != w.e { OthersUntouched(g, n, w, f); }
    }
  }

  /** Without intrusion tolerance: legs and state cells only. */
  ghost predicate Told(ws: seq<Write>) { forall i :: 0 <= i < |ws| ==> !ws[i].Status? }

  /** In every run of legs and state cells the recorded problems are exactly the bad links. */
  lemma {:induction false} RecordIsExact(g: Graphs, n: Net, ws: seq<Write>)
    requires Initial(n) && Told(ws)
    ensures Run(g, n, ws).Valid() && Coherent(g, Run(g, n, ws)) && Run(g, n, ws).costs.Keys == n.costs.Keys
  {
    if ws != [] {
      var front, w := ws[..|ws| - 1], ws[|ws| - 1];
      RecordIsExact(g, n, front);
      ApplyValid(g, Run(g, n, front), w);
      ApplyCoherent(g, Run(g, n, front), w);
    }
  }

  lemma {:induction false} OnlyKnown(g: Graphs, n: Net, ws: seq<Write>)
    requires Initial(n)
    ensures forall e :: e in Run(g, n, ws).problems ==> g.Knows(e) && e in n.costs
    ensures Run(g, n, ws).costs.Keys == n.costs.Keys
  {
    if ws != [] {
      OnlyKnown(g, n, ws[..|ws| - 1]);
    }
  }

  /** History does not matter: two runs that leave the same links bad have the same problems on
      record and so choose the same graph for every destination. */
  lemma HistoryIndependent(g: Graphs, n: Net, a: seq<Write>, b: seq<Write>, i: nat)
    requires g.Valid() && g.Node(i) && Initial(n) && Told(a) && Told(b)
    requires forall e :: e in n.costs && g.Knows(e) ==> (Bad(Run(g, n, a), e) <==> Bad(Run(g, n, b), e))
    ensures Run(g, n, a).problems == Run(g, n, b).problems
    ensures Chosen(g, Run(g, n, a).problems, i) == Chosen(g, Run(g, n, b).problems, i)
  {
    RecordIsExact(g, n, a);
    RecordIsExact(g, n, b);
    OnlyKnown(g, n, a);
    OnlyKnown(g, n, b);
    hide Run, Bad, Chosen;
  }

  // ---------------------------------------------------------------- runs of status changes

  /** With intrusion tolerance: status changes only. */
  ghost predicate Flooded(ws: seq<Write>) { forall i :: 0 <= i < |ws| ==> ws[i].Status? }

  predicate Takes(w: Write, e: EdgeKey) { w.Status? && w.e == e && !Refuses(w.cost, w.reference) }

  /** The cost the last status change taken for a link names. */
  ghost function LastTaken(ws: seq<Write>, e: EdgeKey): int {
    if ws == [] then DOWN
    else if Takes(ws[|ws| - 1], e) then ws[|ws| - 1].cost
    else LastTaken(ws[..|ws| - 1], e)
  }

  /** Some status change taken for the link named another cost than down. */
  ghost predicate EverUp(ws: seq<Write>, e: EdgeKey) {
    ws != [] && ((Takes(ws[|ws| - 1], e) && ws[|ws| - 1].cost != DOWN) || EverUp(ws[..|ws| - 1], e))
  }

  lemma {:induction false} StatusRun(g: Graphs, n: Net, ws: seq<Write>, e: EdgeKey)
    requires Initial(n) && Flooded(ws) && e in n.costs
    ensures var m := Run(g, n, ws);
            && m.problems == {} && m.costs.Keys == n.costs.Keys && m.Valid()
            && m.costs[e].cost == LastTaken(ws, e) && (e in m.touched <==> EverUp(ws, e))
  {
    if ws != [] {
      StatusRun(g, n, ws[..|ws| - 1], e);
      ApplyValid(g, Run(g, n, ws[..|ws| - 1]), ws[|ws| - 1]);
    }
  }

  /** A run of status changes ends with a right record about a link exactly when the link has never
      been up or the last change taken for it does not leave it with a negative cost. */
  lemma StatusRunExactly(g: Graphs, n: Net, ws: seq<Write>, e: EdgeKey)
    requires Initial(n) && Flooded(ws) && e in n.costs
    ensures RightAbout(Run(g, n, ws), e) <==> !(EverUp(ws, e) && LastTaken(ws, e) < 0)
  {
    StatusRun(g, n, ws, e);
  }

  /** Whatever status changes come, every destination that has graphs stays with two paths. */
  lemma StatusRunsChooseNothing(g: Graphs, n: Net, ws: seq<Write>, i: nat)
    requires g.Valid() && g.Node(i) && Initial(n) && Flooded(ws)
    ensures Chosen(g, Run(g, n, ws).problems, i) == if g.has[i] then TwoPaths else NoGraph
  {
    NothingRecorded(g, n, ws);
    assert Into({}, i) == {} && OutOf({}, g.me) == {};
  }

  lemma {:induction false} NothingRecorded(g: Graphs, n: Net, ws: seq<Write>)
    requires Initial(n) && Flooded(ws)
    ensures Run(g, n, ws).problems == {}
  {
    if ws != [] { NothingRecorded(g, n, ws[..|ws| - 1]); }
  }

  const LINK := EdgeKey(1, 2)
  const PAIR := Graphs(1, [false, true, true], [[], [], []], [[], [], []])
  const QUIET := Net(map[LINK := LinkCost(DOWN, 10), EdgeKey(2, 1) := LinkCost(DOWN, 10)], map[], {}, {})

  /** A status change brings the link up at its configured cost, and another takes it down. */
  const MISSED := [Status(LINK, 10, 10), Status(LINK, DOWN, 10)]

  /** The record can be wrong: the link has been up and is down, and no problem is on record. */
  lemma StatusChangesAreMissed()
    ensures PAIR.Valid() && PAIR.Knows(LINK) && Initial(QUIET) && Flooded(MISSED)
    ensures var n := Run(PAIR, QUIET, MISSED); Bad(n, LINK) && n.problems == {} && !Coherent(PAIR, n)
  {
    assert MISSED[..1] == [Status(LINK, 10, 10)] && MISSED[..1][..0] == [];
    StatusRun(PAIR, QUIET, MISSED, LINK);
    assert EverUp(MISSED[..1], LINK);
    assert !RightAbout(Run(PAIR, QUIET, MISSED), LINK);
  }
}
