/** The split-node flow network that the k-paths computation works on, and the
    fixed-width arithmetic of its costs and distances.

    Every overlay node contributes an inbound and an outbound flow node joined by a
    unit-capacity arc; every usable direction of an overlay link contributes an arc from the
    outbound half of its source to the inbound half of its target.  The C program keeps
    one linked list in which each arc occupies two consecutive entries. */
module FlowNetwork {
  import opened Wrappers

  /** "Not reached yet": the value the program initialises its 16-bit distances with. */
  const UNREACHED: int := 65535

  datatype Node = In(id: nat) | Out(id: nat)

  datatype Arc = Split(id: nat) | Link(src: nat, dst: nat, index: nat) {
    function Start(): Node { if Split? then In(id) else Out(src) }
    function End(): Node { if Split? then Out(id) else In(dst) }
  }

  /** `w[j]` is the cost of arc `j`, or None when the link is broken and must be skipped. */
  datatype Graph = Graph(nodes: set<Node>, arcs: seq<Arc>, w: seq<Option<int>>, src: Node, dst: Node) {
    ghost predicate Valid() {
      && |w| == |arcs|
      && src in nodes && dst in nodes && src != dst
      && (forall j :: 0 <= j < |arcs| ==> arcs[j].Start() in nodes && arcs[j].End() in nodes)
      && (forall j :: 0 <= j < |arcs| ==> arcs[j].Start() != arcs[j].End())
    }

    /** The linked list of edges has two entries per arc. */
    function Entries(): nat { 2 * |arcs| }

    predicate Has(e: Entry) { e.arc < |arcs| }

    predicate Usable(j: nat)
      requires |w| == |arcs| && j < |arcs|
    { w[j].Some? }

    /** Where a list entry leaves from and leads to; a residual entry runs backwards. */
    function Tail(e: Entry): Node
      requires Has(e)
    { if e.residual then arcs[e.arc].End() else arcs[e.arc].Start() }

    function Head(e: Entry): Node
      requires Has(e)
    { if e.residual then arcs[e.arc].Start() else arcs[e.arc].End() }

    function Cost(e: Entry): int
      requires |w| == |arcs| && Has(e) && Usable(e.arc)
    { if e.residual then Negate16(w[e.arc].value) else w[e.arc].value }
  }

  /** One element of the linked list of edges: an arc or its residual twin. */
  datatype Entry = Entry(arc: nat, residual: bool) {
    function Twin(): Entry { Entry(arc, !residual) }
  }

  /** The list in traversal order: each residual twin stands right before its real edge. */
  function EntryAt(i: nat): Entry { Entry(i / 2, i % 2 == 0) }

  function Position(e: Entry): nat { if e.residual then 2 * e.arc else 2 * e.arc + 1 }

  /** The flow fields of the fwd edges and of their residual twins; every capacity is 1. */
  datatype Flow = Flow(fwd: seq<int>, back: seq<int>) {
    predicate Fits(g: Graph) { |fwd| == |g.arcs| && |back| == |g.arcs| }

    function At(e: Entry): int
      requires e.arc < |fwd| && |back| == |fwd|
    { if e.residual then back[e.arc] else fwd[e.arc] }

    function Set(e: Entry, f: int): Flow
      requires e.arc < |fwd| && |back| == |fwd|
    { if e.residual then Flow(fwd, back[e.arc := f]) else Flow(fwd[e.arc := f], back) }
  }

  /** Absolute value stored back into a signed 16-bit variable: the most negative value stays. */
  function Abs16(c: int): int {
    if c == -32768 then -32768 else if c < 0 then -c else c
  }

  /** Negation stored back into a signed 16-bit variable. */
  function Negate16(c: int): int {
    if c == -32768 then -32768 else -c
  }

  /** Storing into an unsigned 16-bit variable. */
  function ToU16(d: int): int { d % 65536 }

  /** The sum of all usable costs. */
  function TotalCost(w: seq<Option<int>>): int {
    if |w| == 0 then 0
    else TotalCost(w[..|w| - 1]) + (if w[|w| - 1].Some? then w[|w| - 1].value else 0)
  }
}
