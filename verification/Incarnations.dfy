/** Two neighbours over all the lives of both: a daemon that starts again takes a new incarnation, and
    the other, once it hears of it, drops or puts in again what it had under way. */
module Incarnations {
  import opened Wrappers
  import opened Fragments
  import opened ItLink
  import opened SenderSide
  import opened ReceiverSide
  import opened Delivery
  import opened LinkReset
  import opened Transport

  datatype Side = Left | Right

  function Other(x: Side): Side { if x.Left? then Right else Left }

  /** An incarnation of either side; 0 while a side has not heard of the other. */
  datatype Pair = Pair(left: nat, right: nat) {
    function Own(x: Side): nat { if x.Left? then left else right }
    function Theirs(x: Side): nat { Own(Other(x)) }
  }

  function Between(x: Side, own: nat, theirs: nat): Pair {
    if x.Left? then Pair(own, theirs) else Pair(theirs, own)
  }

  /** A session as side `x` sees it. */
  function View(s: State, x: Side): State { if x.Left? then s else s.Flip() }

  /** The incarnations a side puts on what it sends: its own and the other's as it knows it. */
  function Stamp(k: Pair, x: Side): (nat, nat) { (k.Own(x), k.Theirs(x)) }

  /** The check on arrival. */
  predicate TakesStamp(k: Pair, x: Side, stamp: (nat, nat)) { stamp.0 == k.Theirs(x) && stamp.1 == k.Own(x) }

  /** A side takes a packet exactly when it is in the session that the packet was sent in. */
  lemma StampsTellSessions(k: Pair, j: Pair, x: Side)
    ensures TakesStamp(j, x, Stamp(k, Other(x))) <==> k == j
  {}

  /** What a side does with what was not acknowledged. */
  datatype Life = Discards | Reintroduces(rand: nat -> Nonce)

  /** Incarnation_Change at one side. */
  function Renewed(c: Config, e: Endpoint, life: Life): (r: Endpoint)
    requires e.Fits(c) && e.out.tail <= e.out.head
    ensures r.Fits(c)
  {
    match life
    case Discards => Endpoint(Discard(e.out, c, e.inn.tail, e.inn.head), ClearInbound(e.inn, c), None)
    case Reintroduces(rand) => Endpoint(Reset(e.out, c, e.inn.tail, e.inn.head, rand), ClearInbound(e.inn, c), None)
  }

  /** The messages a side goes on to send. */
  ghost function Carried(c: Config, e: Endpoint, given: seq<Message>, life: Life): seq<Message> {
    if life.Reintroduces? && AllFitting(given, c.room) && e.out.tail >= 1
    then given[FirstWhole(given, e.out.tail - 1, c.room)..] else []
  }

  /** Reintroduction reads the first header of every packet, and relies on messages being shorter
      than the window. */
  ghost predicate CanRenew(c: Config, e: Endpoint, given: seq<Message>, life: Life) {
    && e.Fits(c) && e.taking.None? && e.out.tail <= e.out.head
    && (life.Reintroduces? ==> NoneEmpty(given) && c.w > MAX_FRAGMENTS)
  }

  /** How a side came into a session: how many of the messages its daemon was ever given came before,
      and the session it put its messages in again from, if it did. */
  datatype Entry = Entry(base: nat, from: Option<Pair>)

  /** A packet in the air: who sent it, and the incarnations put on it. */
  datatype Sent = Sent(sender: Side, stamp: (nat, nat), wire: Wire)

  /** What side `x` puts in the air in session `k`. */
  ghost function Stamped(x: Side, k: Pair, wires: set<Wire>): set<Sent> {
    set m | m in wires :: Sent(x, Stamp(k, x), m)
  }

  /** The session a packet was sent in, read off its stamp. */
  ghost function SessionOf(m: Sent): Pair { Between(m.sender, m.stamp.0, m.stamp.1) }

  /** Every packet ever sent is in the air for good, as the network may repeat it, and nothing but its
      stamp tells which session it belongs to.  A session keeps each side's state, as it is while
      the side is in it and as it was when the side left it, and what was sent in it.  `given` has
      all messages each daemon ever accepted. */
  datatype World = World(
    sessions: map<Pair, State>, air: set<Sent>, left: Pair, right: Pair,
    given: map<(Side, nat), seq<Message>>, entries: map<(Side, Pair), Entry>)
  {
    /** The packets in the air that the check on arrival lets through at side `x`. */
    ghost function Heard(x: Side): set<Wire> {
      set m | m in air && m.sender == Other(x) && TakesStamp(Now(x), x, m.stamp) :: m.wire
    }

    /** The incarnations side `x` goes by. */
    function Now(x: Side): Pair { if x.Left? then left else right }

    ghost predicate Ready(c: Config, x: Side) {
      && Now(x) in sessions && sessions[Now(x)].Fits(c)
      && (x, Now(x)) in entries && (x, Now(x).Own(x)) in given
    }

    function At(x: Side): State
      requires Now(x) in sessions
    {
      View(sessions[Now(x)], x)
    }

    function Moved(x: Side, k: Pair): World { if x.Left? then this.(left := k) else this.(right := k) }
  }

  /** Something a side does in its session; hearing of the other's new incarnation; starting again
      at a later time than ever before. */
  datatype Deed = Local(x: Side, ev: Event) | Hears(x: Side, inc: nat, life: Life) | Restarts(x: Side, now: nat)

  /** A side takes in any packet in the air whose stamp passes, whichever session it is from; and it
      drops or puts in again as it is configured to. */
  ghost predicate Possible(c: Config, w: World, d: Deed) {
    && w.Ready(c, d.x)
    && var s := w.At(d.x);
       match d
       case Local(x, ev) => Can(c, s.a, w.Heard(x), ev)
       case Hears(x, inc, life) =>
         && (Other(x), inc) in w.given && inc > w.Now(x).Theirs(x)
         && life.Reintroduces? == c.reintroduce && CanRenew(c, s.a, s.fromA, life)
       case Restarts(x, now) => forall i: nat :: (x, i) in w.given ==> i < now
  }

  /** Side `x` enters session `k` with the endpoint `e` and the messages `ms` still to be sent. */
  ghost function Entered(c: Config, w: World, x: Side, k: Pair, e: Endpoint, ms: seq<Message>, entry: Entry): World
    requires c.w > 0
  {
    var s := View(if k in w.sessions then w.sessions[k] else Start(c), x);
    w.(sessions := w.sessions[k := View(s.(a := e, fromA := ms), x)], entries := w.entries[(x, k) := entry]).Moved(x, k)
  }

  ghost function Next(c: Config, w: World, d: Deed): World
    requires c.w > 0
  {
    if !Possible(c, w, d) then w
    else
      var s, k := w.At(d.x), w.Now(d.x);
      var all := w.given[(d.x, k.Own(d.x))];
      match d
      case Local(x, ev) =>
        w.(sessions := w.sessions[k := View(StepA(c, s, ev), x)],
           air := w.air + Stamped(x, k, Act(c, s.a, ev).sent),
           given := w.given[(x, k.Own(x)) := all + Act(c, s.a, ev).accepted])
      case Hears(x, inc, life) =>
        var ms := Carried(c, s.a, s.fromA, life);
        Entered(c, w, x, Between(x, k.Own(x), inc), Renewed(c, s.a, life), ms,
                Entry(if |ms| <= |all| then |all| - |ms| else 0, if life.Reintroduces? then Some(k) else None))
      case Restarts(x, now) =>
        Entered(c, w.(given := w.given[(x, now) := []]), x, Between(x, now, 0), Fresh(c), [], Entry(0, None))
  }

  /** Two daemons that have not heard of each other. */
  ghost function Begin(c: Config, p: Pair): World
    requires c.w > 0
  {
    var l, r := Pair(p.left, 0), Pair(0, p.right);
    World(map[l := Start(c), r := Start(c)], {}, l, r, map[(Left, p.left) := [], (Right, p.right) := []],
          map[(Left, l) := Entry(0, None), (Right, r) := Entry(0, None)])
  }

  /** The world a run of deeds leads to. */
  ghost function After(c: Config, p: Pair, deeds: seq<Deed>): World
    requires c.w > 0
  {
    if deeds == [] then Begin(c, p) else Next(c, After(c, p, deeds[..|deeds| - 1]), deeds[|deeds| - 1])
  }

  /** Every deed of the run was possible when it was done. */
  ghost predicate IsRun(c: Config, p: Pair, deeds: seq<Deed>) {
    && c.Valid() && p.left > 0 && p.right > 0
    && (deeds != [] ==>
          var before := deeds[..|deeds| - 1];
          IsRun(c, p, before) && Possible(c, After(c, p, before), deeds[|deeds| - 1]))
  }

  // ---------------------------------------------------------------- a side in a new session

  /** One side in the new pair of incarnations. */
  lemma RenewedOk(c: Config, e: Endpoint, hOut: History, hIn: History, life: Life) returns (g: History)
    requires c.Valid() && e.Fits(c) && SenderRests(e.out, hOut, c) && Settled(e.inn, hIn, c)
    requires AllSendable(hOut.submitted, c)
    requires CanRenew(c, e, hOut.submitted, life)
    ensures var r := Renewed(c, e, life);
            && SenderRests(r.out, g, c) && Settled(r.inn, NO_HISTORY, c) && r.taking.None?
            && g.submitted == Carried(c, e, hOut.submitted, life) && AllSendable(g.submitted, c)
            && r.out.tail == 1 && r.out.tcpHead >= 1 && r.inn.head == r.inn.tail == 1
  {
    hide *;
    g := NO_HISTORY;
    LeavesOrder(c, e, hOut, life);
    WhatRests(c, e, hOut, hIn);
    ClearInboundOk(e.inn, hIn, c);
    ClearedStarts(e.inn, c);
    if life.Discards? {
      DiscardOk(e.out, c, e.inn.tail, e.inn.head);
      DiscardedStarts(e.out, c, e.inn.tail, e.inn.head);
      DiscardsIs(c, e, life, hOut, g);
    } else {
      CarriesOn(c, e, hOut, life);
      var k: nat;
      g, k := ResetOk(e.out, hOut, c, e.inn.tail, e.inn.head, life.rand);
      TcpAtLeast(Reset(e.out, c, e.inn.tail, e.inn.head, life.rand), g, c);
      ReintroducesIs(c, e, life, hOut, g, k);
    }
  }

  lemma LeavesOrder(c: Config, e: Endpoint, hOut: History, life: Life)
    requires CanRenew(c, e, hOut.submitted, life)
    ensures e.out.tail <= e.out.head
  {}

  lemma WhatRests(c: Config, e: Endpoint, hOut: History, hIn: History)
    requires e.Fits(c) && SenderRests(e.out, hOut, c) && Settled(e.inn, hIn, c)
    ensures e.out.Fits(c) && e.inn.Fits(c)
    ensures Filling(e.inn, hIn, c) && e.out.tail >= 1 && AllFitting(hOut.submitted, c.room)
  {
    hide RingsOk, PendingOk, StreamOk, CellsOk, TakenOk, EarlyOk, Fitting;
  }

  lemma CarriesOn(c: Config, e: Endpoint, hOut: History, life: Life)
    requires CanRenew(c, e, hOut.submitted, life) && life.Reintroduces?
    ensures e.out.tail <= e.out.head && NoneEmpty(hOut.submitted) && c.w > MAX_FRAGMENTS
  {}

  lemma DiscardsIs(c: Config, e: Endpoint, life: Life, hOut: History, g: History)
    requires e.Fits(c) && e.out.tail <= e.out.head && life.Discards? && g == NO_HISTORY
    ensures Renewed(c, e, life) == Endpoint(Discard(e.out, c, e.inn.tail, e.inn.head), ClearInbound(e.inn, c), None)
    ensures g.submitted == Carried(c, e, hOut.submitted, life) && AllSendable(g.submitted, c)
  {
    hide Discard, ClearInbound;
  }

  lemma ReintroducesIs(c: Config, e: Endpoint, life: Life, hOut: History, g: History, k: nat)
    requires e.Fits(c) && 1 <= e.out.tail <= e.out.head && life.Reintroduces? && AllFitting(hOut.submitted, c.room)
    requires k == FirstWhole(hOut.submitted, e.out.tail - 1, c.room) && k <= |hOut.submitted|
    requires g.submitted == hOut.submitted[k..]
    requires AllSendable(hOut.submitted, c)
    ensures Renewed(c, e, life) ==
                Endpoint(Reset(e.out, c, e.inn.tail, e.inn.head, life.rand), ClearInbound(e.inn, c), None)
    ensures g.submitted == Carried(c, e, hOut.submitted, life) && AllSendable(g.submitted, c)
  {
    hide Reset, ClearInbound, FirstWhole, Sendable;
  }

  lemma ClearedStarts(r: Receiver, c: Config)
    requires r.Fits(c)
    ensures ClearInbound(r, c).head == ClearInbound(r, c).tail == 1
  {}

  lemma DiscardedStarts(s: Sender, c: Config, lo: nat, hi: nat)
    requires s.Fits(c)
    ensures Discard(s, c, lo, hi).tail == Discard(s, c, lo, hi).tcpHead == 1
  {}

  lemma TcpAtLeast(s: Sender, h: History, c: Config)
    requires SenderRests(s, h, c)
    ensures s.tcpHead >= s.tail
  {}

  /** Side a has not been in this session. */
  ghost predicate Untouched(c: Config, s: State)
    requires c.w > 0
  {
    s.a == Fresh(c) && s.fromA == [] && s.toB == {}
  }

  lemma UntouchedParts(c: Config, s: State, ha: History, hb: History)
    requires Inv(c, s, ha, hb) && Untouched(c, s)
    ensures ha.pkts == [] && ha.nonces == [] && s.b.inn.tail >= 1 && s.b.out.tcpHead >= 1
    ensures s.a.out.tcpHead == 1 && s.a.inn.tail == 1 && |hb.pkts| == |hb.nonces|
  {
    hide Settled, RingsOk, PendingOk, StreamOk, DataOk, AckOk, Sendable;
    SettledTail(s.b.inn, ha, c);
  }

  lemma SettledTail(r: Receiver, h: History, c: Config)
    requires Settled(r, h, c)
    ensures r.Fits(c) && r.tail >= 1
  {
    hide CellsOk, TakenOk, EarlyOk;
  }

  lemma InvIs(c: Config, s: State, ha: History, hb: History)
    requires c.Valid() && s.Fits(c) && s.a.taking.None? && s.b.taking.None?
    requires OneWay(c, s.a.out, s.b.inn, ha, s.toB, s.toA) && OneWay(c, s.b.out, s.a.inn, hb, s.toA, s.toB)
    requires ha.submitted == s.fromA && hb.submitted == s.fromB
    ensures Inv(c, s, ha, hb)
  {
    hide OneWay;
  }

  lemma WaysOf(c: Config, s: State, ha: History, hb: History)
    requires Inv(c, s, ha, hb) && Untouched(c, s)
    ensures c.Valid() && s.Fits(c) && s.toB == {} && s.b.taking.None? && hb.submitted == s.fromB && s.b.Fits(c)
    ensures OneWay(c, s.a.out, s.b.inn, ha, s.toB, s.toA) && OneWay(c, s.b.out, s.a.inn, hb, s.toA, s.toB)
  {
    hide OneWay, Fresh;
  }

  lemma RestsFit(c: Config, e: Endpoint, g: History)
    requires SenderRests(e.out, g, c) && Settled(e.inn, NO_HISTORY, c)
    ensures e.Fits(c)
  {
    hide RingsOk, PendingOk, StreamOk, CellsOk, TakenOk, EarlyOk;
  }

  lemma NothingExtends(h: History, g: History)
    requires h.pkts == [] && h.nonces == []
    ensures Extends(h, g) && Extends(NO_HISTORY, g)
  {}

  lemma NewFits(c: Config, s: State, e: Endpoint, ms: seq<Message>)
    requires s.b.Fits(c) && e.Fits(c)
    ensures s.(a := e, fromA := ms).Fits(c)
  {}

  lemma EntersOk(c: Config, s: State, ha: History, hb: History, e: Endpoint, g: History)
    requires Inv(c, s, ha, hb) && Untouched(c, s)
    requires SenderRests(e.out, g, c) && Settled(e.inn, NO_HISTORY, c) && AllSendable(g.submitted, c)
    requires e.taking.None? && e.out.tail == 1 && e.out.tcpHead >= 1 && e.inn.head == e.inn.tail == 1
    ensures Inv(c, s.(a := e, fromA := g.submitted), g, hb)
  {
    hide *;
    UntouchedParts(c, s, ha, hb);
    WaysOf(c, s, ha, hb);
    RestsFit(c, e, g);
    NothingExtends(ha, g);
    NothingExtends(ha, hb);
    NewFits(c, s, e, g.submitted);
    SettledExtends(e.inn, NO_HISTORY, hb, c);
    SenderMoves(c, s.a.out, e.out, s.b.inn, ha, g, s.toB, s.toA);
    ReceiverMoves(c, s.b.out, s.a.inn, e.inn, hb, s.toA, s.toB);
    InvIs(c, s.(a := e, fromA := g.submitted), g, hb);
  }

  /** A side that takes up a session it has not been in leaves it sound. */
  lemma EntersSound(c: Config, s: State, before: State, life: Life)
    requires Sound(c, s) && Sound(c, before) && c.w > 0 && Untouched(c, s)
    requires CanRenew(c, before.a, before.fromA, life)
    ensures Sound(c, s.(a := Renewed(c, before.a, life), fromA := Carried(c, before.a, before.fromA, life)))
  {
    var ha, hb :| Inv(c, s, ha, hb);
    var hOut, hIn :| Inv(c, before, hOut, hIn);
    InvParts(c, before, hOut, hIn);
    hide *;
    var g := RenewedOk(c, before.a, hOut, hIn, life);
    LeavesOrder(c, before.a, hOut, life);
    EntersOk(c, s, ha, hb, Renewed(c, before.a, life), g);
    IsSound(c, s.(a := Renewed(c, before.a, life), fromA := g.submitted), g, hb);
  }

  lemma IsSound(c: Config, s: State, ha: History, hb: History)
    requires Inv(c, s, ha, hb)
    ensures Sound(c, s)
  {
    hide Inv;
  }

  lemma InvParts(c: Config, s: State, ha: History, hb: History)
    requires Inv(c, s, ha, hb)
    ensures c.Valid() && s.a.Fits(c) && s.Fits(c) && SenderRests(s.a.out, ha, c) && Settled(s.a.inn, hb, c)
    ensures AllSendable(ha.submitted, c) && ha.submitted == s.fromA
  {
    hide SenderRests, Settled, Sendable, DataOk, AckOk;
  }

  lemma StartSound(c: Config)
    requires c.Valid()
    ensures Sound(c, Start(c)) && Start(c).Fits(c)
  {
    StartInv(c);
    hide Inv;
  }

  // ---------------------------------------------------------------- what every run keeps

  /** What the side has taken on in this session are messages its daemon was given, one after the
      other from where the session began; all of them up to now if it is still in the session. */
  ghost predicate InStep(w: World, x: Side, k: Pair)
    requires (x, k) in w.entries && k in w.sessions && (x, k.Own(x)) in w.given
  {
    var all, base, ms := w.given[(x, k.Own(x))], w.entries[(x, k)].base, View(w.sessions[k], x).fromA;
    base <= |all| && ms <= all[base..] && (k == w.Now(x) ==> ms == all[base..])
  }

  /** Session `k` goes on with the messages of session `p` from the first that begins after what was
      acknowledged there. */
  ghost predicate GoesOn(c: Config, w: World, x: Side, p: Pair, k: Pair)
    requires (x, k) in w.entries && k in w.sessions
  {
    && (x, p) in w.entries && p in w.sessions && p.Own(x) == k.Own(x) && p.Theirs(x) < k.Theirs(x)
    && var s := View(w.sessions[p], x);
       && AllFitting(s.fromA, c.room) && s.a.out.tail >= 1
       && var j := FirstWhole(s.fromA, s.a.out.tail - 1, c.room);
          && w.entries[(x, k)].base == w.entries[(x, p)].base + j
          && s.fromA[j..] <= View(w.sessions[k], x).fromA
  }

  ghost predicate Visited(c: Config, w: World, x: Side, k: Pair)
    requires (x, k) in w.entries
  {
    && k in w.sessions && (x, k.Own(x)) in w.given
    && (k.Own(x) == w.Now(x).Own(x) ==> k.Theirs(x) <= w.Now(x).Theirs(x))
    && InStep(w, x, k)
    && (w.entries[(x, k)].from.Some? ==> GoesOn(c, w, x, w.entries[(x, k)].from.value, k))
  }

  ghost predicate SideOk(c: Config, w: World, x: Side)
    requires c.w > 0
  {
    && w.Now(x) in w.sessions && (x, w.Now(x)) in w.entries && (x, w.Now(x).Own(x)) in w.given
    && (forall i: nat :: (x, i) in w.given ==> 0 < i <= w.Now(x).Own(x))
    && (forall k: Pair :: (x, k) in w.entries ==> Visited(c, w, x, k))
    && (forall k: Pair :: k in w.sessions && (x, k) !in w.entries ==> Untouched(c, View(w.sessions[k], x)))
  }

  /** Every session is sound, and one of the sides has been in it. */
  ghost predicate AllSound(c: Config, w: World) {
    forall k: Pair :: k in w.sessions ==> Sound(c, w.sessions[k]) && ((Left, k) in w.entries || (Right, k) in w.entries)
  }

  /** A packet is among those sent in the session its stamp names. */
  ghost predicate Belongs(w: World, m: Sent) {
    SessionOf(m) in w.sessions && m.wire in View(w.sessions[SessionOf(m)], m.sender).toB
  }

  /** The air and the sessions have the same packets. */
  ghost predicate Sorted(w: World) {
    && (forall m: Sent :: m in w.air ==> Belongs(w, m))
    && (forall k: Pair, x: Side :: k in w.sessions ==> Stamped(x, k, View(w.sessions[k], x).toB) <= w.air)
  }

  /** A packet that passes the check at a side was sent by the other side in the session the first is
      in, and every packet sent there passes. */
  lemma HeardIs(w: World, x: Side)
    requires Sorted(w) && w.Now(x) in w.sessions
    ensures w.Heard(x) == w.At(x).toA
  {
    var k := w.Now(x);
    var there := View(w.sessions[k], Other(x)).toB;
    assert there == w.At(x).toA;
    forall m | m in w.air && m.sender == Other(x) && TakesStamp(k, x, m.stamp) ensures m.wire in there {
      StampsTellSessions(SessionOf(m), k, x);
      assert Belongs(w, m);
    }
    forall wire | wire in there ensures wire in w.Heard(x) {
      StampsTellSessions(k, k, x);
      var m := Sent(Other(x), Stamp(k, Other(x)), wire);
      assert m in Stamped(Other(x), k, there);
      assert m in w.air;
    }
  }

  ghost predicate Good(c: Config, w: World) {
    c.Valid() && SideOk(c, w, Left) && SideOk(c, w, Right) && AllSound(c, w) && Sorted(w)
  }

  /** Nothing of side a's own changes. */
  ghost predicate SameA(s: State, t: State) { s.a == t.a && s.fromA == t.fromA && s.toB == t.toB }

  /** A deed of the other side leaves side `y` as it was. */
  ghost predicate Leaves(c: Config, w: World, v: World, y: Side)
    requires c.w > 0
  {
    && v.Now(y) == w.Now(y)
    && (forall i: nat :: (y, i) in v.given <==> (y, i) in w.given)
    && (forall i: nat :: (y, i) in w.given ==> v.given[(y, i)] == w.given[(y, i)])
    && (forall k: Pair :: (y, k) in v.entries <==> (y, k) in w.entries)
    && (forall k: Pair :: (y, k) in w.entries ==> v.entries[(y, k)] == w.entries[(y, k)])
    && (forall k: Pair :: k in w.sessions ==> k in v.sessions && SameA(View(w.sessions[k], y), View(v.sessions[k], y)))
    && (forall k: Pair :: k in v.sessions && k !in w.sessions ==> Untouched(c, View(v.sessions[k], y)))
  }

  /** A session that went on with another one's messages still does while it only takes on more. */
  lemma StillGoesOn(c: Config, w: World, v: World, x: Side, p: Pair, k: Pair)
    requires (x, k) in w.entries && k in w.sessions && GoesOn(c, w, x, p, k)
    requires (x, k) in v.entries && k in v.sessions && (x, p) in v.entries && p in v.sessions
    requires v.entries[(x, k)] == w.entries[(x, k)] && v.entries[(x, p)] == w.entries[(x, p)]
    requires View(v.sessions[p], x).a == View(w.sessions[p], x).a
    requires View(v.sessions[p], x).fromA == View(w.sessions[p], x).fromA
    requires View(w.sessions[k], x).fromA <= View(v.sessions[k], x).fromA
    ensures GoesOn(c, v, x, p, k)
  {
    hide View, FirstWhole, AllFitting;
  }

  lemma VisitedParts(c: Config, w: World, x: Side, k: Pair)
    requires (x, k) in w.entries && Visited(c, w, x, k)
    ensures k in w.sessions && (x, k.Own(x)) in w.given
    ensures k.Own(x) == w.Now(x).Own(x) ==> k.Theirs(x) <= w.Now(x).Theirs(x)
    ensures InStep(w, x, k) && w.entries[(x, k)].base <= |w.given[(x, k.Own(x))]|
    ensures w.entries[(x, k)].from.Some? ==>
              var p := w.entries[(x, k)].from.value;
              GoesOn(c, w, x, p, k) && (x, p) in w.entries && p in w.sessions
              && p.Own(x) == k.Own(x) && p.Theirs(x) < k.Theirs(x)
  {
    hide View, FirstWhole, AllFitting;
  }

  lemma VisitedIs(c: Config, w: World, x: Side, k: Pair)
    requires (x, k) in w.entries && k in w.sessions && (x, k.Own(x)) in w.given
    requires k.Own(x) == w.Now(x).Own(x) ==> k.Theirs(x) <= w.Now(x).Theirs(x)
    requires InStep(w, x, k) && (w.entries[(x, k)].from.Some? ==> GoesOn(c, w, x, w.entries[(x, k)].from.value, k))
    ensures Visited(c, w, x, k)
  {
    hide InStep, GoesOn;
  }

  lemma WasVisited(c: Config, w: World, x: Side, k: Pair)
    requires c.w > 0 && SideOk(c, w, x) && (x, k) in w.entries
    ensures Visited(c, w, x, k)
  {
    hide Visited, Untouched;
  }

  lemma OtherVisited(c: Config, w: World, v: World, y: Side, k: Pair)
    requires c.w > 0 && SideOk(c, w, y) && Leaves(c, w, v, y) && (y, k) in v.entries
    ensures Visited(c, v, y, k)
  {
    WasVisited(c, w, y, k);
    VisitedParts(c, w, y, k);
    hide SideOk, Visited, Untouched, GoesOn;
    if w.entries[(y, k)].from.Some? {
      StillGoesOn(c, w, v, y, w.entries[(y, k)].from.value, k);
    }
    VisitedIs(c, v, y, k);
  }

  lemma OtherKeeps(c: Config, w: World, v: World, y: Side)
    requires c.w > 0 && SideOk(c, w, y) && Leaves(c, w, v, y)
    ensures SideOk(c, v, y)
  {
    forall k: Pair | (y, k) in v.entries ensures Visited(c, v, y, k) { OtherVisited(c, w, v, y, k); }
    hide Visited;
    forall k: Pair | k in v.sessions && (y, k) !in v.entries ensures Untouched(c, View(v.sessions[k], y)) {
      assert k in w.sessions ==> Untouched(c, View(w.sessions[k], y));
    }
  }

  // ---------------------------------------------------------------- a deed within a session

  lemma LocalIs(c: Config, w: World, x: Side, ev: Event)
    requires c.w > 0 && Possible(c, w, Local(x, ev))
    ensures var k, s, v := w.Now(x), w.At(x), Next(c, w, Local(x, ev));
            && s.Fits(c) && k in w.sessions && (x, k.Own(x)) in w.given && (x, k) in w.entries
            && v.left == w.left && v.right == w.right && v.entries == w.entries
            && v.sessions == w.sessions[k := View(StepA(c, s, ev), x)]
            && v.air == w.air + Stamped(x, k, Act(c, s.a, ev).sent)
            && v.given == w.given[(x, k.Own(x)) := w.given[(x, k.Own(x))] + Act(c, s.a, ev).accepted]
            && Can(c, s.a, w.Heard(x), ev) && View(w.sessions[k], x) == s
  {
    hide Can, StepA, Act;
  }

  lemma StepALeaves(c: Config, s: State, ev: Event)
    requires s.Fits(c)
    ensures var t := StepA(c, s, ev); SameA(s.Flip(), t.Flip()) && t.fromA == s.fromA + Act(c, s.a, ev).accepted
  {
    hide Act;
  }

  lemma LocalLeaves(c: Config, w: World, x: Side, ev: Event)
    requires c.w > 0 && Possible(c, w, Local(x, ev))
    ensures Leaves(c, w, Next(c, w, Local(x, ev)), Other(x))
  {
    LocalIs(c, w, x, ev);
    StepALeaves(c, w.At(x), ev);
    hide Next, Possible, StepA, Act, Untouched;
  }

  lemma LocalInStep(c: Config, w: World, x: Side, ev: Event, k: Pair)
    requires c.w > 0 && Possible(c, w, Local(x, ev)) && (x, k) in w.entries && k in w.sessions
    requires (x, k.Own(x)) in w.given && InStep(w, x, k)
    ensures var v := Next(c, w, Local(x, ev));
            && v.Now(x) == w.Now(x) && (x, k) in v.entries && k in v.sessions
            && (x, k.Own(x)) in v.given && InStep(v, x, k)
            && View(w.sessions[k], x).fromA <= View(v.sessions[k], x).fromA
            && (k != w.Now(x) ==> v.sessions[k] == w.sessions[k])
  {
    LocalIs(c, w, x, ev);
    var more := Act(c, w.At(x).a, ev).accepted;
    StepALeaves(c, w.At(x), ev);
    hide Next, Possible, StepA, Act;
    PrefixGrowth(w.given[(x, k.Own(x))], w.entries[(x, k)].base, View(w.sessions[k], x).fromA, more);
  }

  lemma LocalVisited(c: Config, w: World, x: Side, ev: Event, k: Pair)
    requires c.w > 0 && SideOk(c, w, x) && Possible(c, w, Local(x, ev)) && (x, k) in w.entries
    ensures var v := Next(c, w, Local(x, ev)); (x, k) in v.entries && Visited(c, v, x, k)
  {
    hide *;
    WasVisited(c, w, x, k);
    VisitedParts(c, w, x, k);
    LocalIs(c, w, x, ev);
    LocalInStep(c, w, x, ev, k);
    var v := Next(c, w, Local(x, ev));
    if w.entries[(x, k)].from.Some? {
      var p := w.entries[(x, k)].from.value;
      NotNow(c, w, x, p, k);
      StillGoesOn(c, w, v, x, p, k);
    }
    VisitedIs(c, v, x, k);
  }

  lemma NotNow(c: Config, w: World, x: Side, p: Pair, k: Pair)
    requires (x, k) in w.entries && k in w.sessions && GoesOn(c, w, x, p, k)
    requires k.Own(x) == w.Now(x).Own(x) ==> k.Theirs(x) <= w.Now(x).Theirs(x)
    ensures p != w.Now(x)
  {
    hide View, FirstWhole, AllFitting;
  }

  lemma PrefixGrowth<T>(all: seq<T>, base: nat, ms: seq<T>, more: seq<T>)
    requires base <= |all| && ms <= all[base..]
    ensures ms <= (all + more)[base..]
    ensures ms == all[base..] ==> ms + more == (all + more)[base..]
  {
    assert (all + more)[base..] == all[base..] + more;
  }

  lemma LocalUntouched(c: Config, w: World, x: Side, ev: Event, k: Pair)
    requires c.w > 0 && SideOk(c, w, x) && Possible(c, w, Local(x, ev))
    requires k in Next(c, w, Local(x, ev)).sessions && (x, k) !in Next(c, w, Local(x, ev)).entries
    ensures Untouched(c, View(Next(c, w, Local(x, ev)).sessions[k], x))
  {
    LocalIs(c, w, x, ev);
    hide Next, Possible, StepA, Act, Untouched, Visited;
  }

  lemma SideIs(c: Config, w: World, x: Side)
    requires c.w > 0 && w.Now(x) in w.sessions && (x, w.Now(x)) in w.entries && (x, w.Now(x).Own(x)) in w.given
    requires forall i: nat :: (x, i) in w.given ==> 0 < i <= w.Now(x).Own(x)
    requires forall k: Pair :: (x, k) in w.entries ==> Visited(c, w, x, k)
    requires forall k: Pair :: k in w.sessions && (x, k) !in w.entries ==> Untouched(c, View(w.sessions[k], x))
    ensures SideOk(c, w, x)
  {
    hide Visited, Untouched;
  }

  lemma LocalNow(c: Config, w: World, x: Side, ev: Event)
    requires c.w > 0 && SideOk(c, w, x) && Possible(c, w, Local(x, ev))
    ensures var v := Next(c, w, Local(x, ev));
            && v.Now(x) == w.Now(x) && v.entries == w.entries && v.Now(x) in v.sessions && (x, v.Now(x)) in v.entries
            && (x, v.Now(x).Own(x)) in v.given && forall i: nat :: (x, i) in v.given ==> 0 < i <= v.Now(x).Own(x)
  {
    LocalIs(c, w, x, ev);
    hide Next, Possible, StepA, Act, Untouched, Visited;
  }

  lemma LocalSide(c: Config, w: World, x: Side, ev: Event)
    requires c.w > 0 && SideOk(c, w, x) && Possible(c, w, Local(x, ev))
    ensures SideOk(c, Next(c, w, Local(x, ev)), x)
  {
    hide *;
    var v := Next(c, w, Local(x, ev));
    LocalNow(c, w, x, ev);
    forall k: Pair | (x, k) in v.entries ensures Visited(c, v, x, k) { LocalVisited(c, w, x, ev, k); }
    forall k: Pair | k in v.sessions && (x, k) !in v.entries
      ensures Untouched(c, View(v.sessions[k], x))
    {
      LocalUntouched(c, w, x, ev, k);
    }
    SideIs(c, v, x);
  }

  lemma GoodIs(c: Config, w: World, x: Side)
    requires c.Valid() && SideOk(c, w, x) && SideOk(c, w, Other(x)) && AllSound(c, w) && Sorted(w)
    ensures Good(c, w)
  {
    hide SideOk, AllSound, Sorted;
  }

  lemma GoodParts(c: Config, w: World, x: Side)
    requires Good(c, w)
    ensures c.Valid() && c.w > 0 && SideOk(c, w, x) && SideOk(c, w, Other(x)) && AllSound(c, w) && Sorted(w)
  {
    hide SideOk, AllSound, Sorted;
  }

  lemma AllSoundStill(c: Config, w: World, v: World, x: Side, k: Pair, t: State)
    requires AllSound(c, w) && Sound(c, t) && v.sessions == w.sessions[k := t]
    requires (x, k) in v.entries && forall e :: e in w.entries ==> e in v.entries
    ensures AllSound(c, v)
  {
    hide Sound;
  }

  /** Only the session a side sends in, and nothing sent in it before, gains what is put in the air. */
  lemma AirSorted(w: World, v: World, x: Side, k: Pair, t: State, sent: set<Wire>)
    requires Sorted(w) && k in w.sessions && v.sessions == w.sessions[k := View(t, x)]
    requires v.air == w.air + Stamped(x, k, sent)
    requires t.toB == View(w.sessions[k], x).toB + sent && t.toA == View(w.sessions[k], x).toA
    ensures Sorted(v)
  {
    forall m: Sent | m in v.air ensures Belongs(v, m) {
      if m in w.air { assert Belongs(w, m); }
    }
    forall q: Pair, y: Side | q in v.sessions ensures Stamped(y, q, View(v.sessions[q], y).toB) <= v.air {
      assert q in w.sessions && Stamped(y, q, View(w.sessions[q], y).toB) <= w.air;
    }
  }

  lemma LocalSorted(c: Config, w: World, x: Side, ev: Event)
    requires c.w > 0 && Sorted(w) && Possible(c, w, Local(x, ev))
    ensures Sorted(Next(c, w, Local(x, ev)))
  {
    LocalIs(c, w, x, ev);
    var s := w.At(x);
    var t := StepA(c, s, ev);
    assert t.toB == s.toB + Act(c, s.a, ev).sent && t.toA == s.toA by { hide Act; }
    hide *;
    AirSorted(w, Next(c, w, Local(x, ev)), x, w.Now(x), t, Act(c, s.a, ev).sent);
  }

  lemma AllowedIs(c: Config, w: World, x: Side, ev: Event)
    requires Sorted(w) && w.Now(x) in w.sessions && Can(c, w.At(x).a, w.Heard(x), ev)
    ensures Allowed(c, w.At(x), ByA(ev))
  {
    HeardIs(w, x);
    hide Can;
  }

  lemma LocalAll(c: Config, w: World, x: Side, ev: Event)
    requires c.Valid() && AllSound(c, w) && Sorted(w) && Possible(c, w, Local(x, ev))
    ensures AllSound(c, Next(c, w, Local(x, ev)))
  {
    LocalIs(c, w, x, ev);
    AllowedIs(c, w, x, ev);
    assert Sound(c, w.sessions[w.Now(x)]);
    hide *;
    LocalSound(c, w.sessions[w.Now(x)], x, ev);
    AllSoundStill(c, w, Next(c, w, Local(x, ev)), x, w.Now(x), View(StepA(c, w.At(x), ev), x));
  }

  lemma LocalKeeps(c: Config, w: World, x: Side, ev: Event)
    requires Good(c, w) && Possible(c, w, Local(x, ev))
    ensures Good(c, Next(c, w, Local(x, ev)))
  {
    hide *;
    GoodParts(c, w, x);
    LocalLeaves(c, w, x, ev);
    LocalSide(c, w, x, ev);
    OtherKeeps(c, w, Next(c, w, Local(x, ev)), Other(x));
    LocalAll(c, w, x, ev);
    LocalSorted(c, w, x, ev);
    GoodIs(c, Next(c, w, Local(x, ev)), x);
  }

  lemma LocalSound(c: Config, s: State, x: Side, ev: Event)
    requires Sound(c, s) && View(s, x).Fits(c) && Allowed(c, View(s, x), ByA(ev))
    ensures Sound(c, View(StepA(c, View(s, x), ev), x))
  {
    hide Sound, StepA, Allowed;
    if x.Right? { FlipSound(c, s); }
    StepSound(c, View(s, x), ByA(ev));
    assert Step(c, View(s, x), ByA(ev)) == StepA(c, View(s, x), ev);
    if x.Right? { FlipSound(c, StepA(c, View(s, x), ev)); }
  }

  // ---------------------------------------------------------------- entering a session

  lemma EnteredIs(c: Config, w: World, x: Side, k: Pair, e: Endpoint, ms: seq<Message>, entry: Entry)
    requires c.w > 0
    ensures var v := Entered(c, w, x, k, e, ms, entry);
            var s := if k in w.sessions then w.sessions[k] else Start(c);
            var t := View(s, x).(a := e, fromA := ms);
            && v.sessions == w.sessions[k := View(t, x)] && View(v.sessions[k], x) == t
            && SameA(View(s, Other(x)), View(v.sessions[k], Other(x)))
            && v.entries == w.entries[(x, k) := entry] && v.given == w.given && v.air == w.air
            && v.Now(x) == k && v.Now(Other(x)) == w.Now(Other(x))
  {
    hide Start;
  }

  /** Who enters a session sends nothing by that. */
  lemma EnterSorted(c: Config, w: World, u: World, x: Side, k: Pair, e: Endpoint, ms: seq<Message>, entry: Entry)
    requires c.w > 0 && Sorted(w) && u.sessions == w.sessions && u.air == w.air
    ensures Sorted(Entered(c, u, x, k, e, ms, entry))
  {
    var v := Entered(c, u, x, k, e, ms, entry);
    EnteredIs(c, u, x, k, e, ms, entry);
    StartSilent(c);
    hide Entered, Start;
    forall m: Sent | m in v.air ensures Belongs(v, m) { assert Belongs(w, m); }
    forall q: Pair, y: Side | q in v.sessions ensures Stamped(y, q, View(v.sessions[q], y).toB) <= v.air {
      assert q in w.sessions ==> Stamped(y, q, View(w.sessions[q], y).toB) <= w.air;
    }
  }

  lemma StartSilent(c: Config)
    requires c.w > 0
    ensures Start(c).toA == Start(c).toB == {}
  {}

  lemma StartUntouched(c: Config, x: Side)
    requires c.w > 0
    ensures Untouched(c, View(Start(c), x))
  {
    hide Fresh;
  }

  lemma EnterLeaves(c: Config, w: World, u: World, x: Side, k: Pair, e: Endpoint, ms: seq<Message>, entry: Entry)
    requires c.w > 0 && u.sessions == w.sessions && u.entries == w.entries && u.left == w.left && u.right == w.right
    requires forall i: nat :: (Other(x), i) in u.given <==> (Other(x), i) in w.given
    requires forall i: nat :: (Other(x), i) in w.given ==> u.given[(Other(x), i)] == w.given[(Other(x), i)]
    ensures Leaves(c, w, Entered(c, u, x, k, e, ms, entry), Other(x))
  {
    EnteredIs(c, u, x, k, e, ms, entry);
    StartUntouched(c, Other(x));
    hide Entered, Start, Fresh;
  }

  /** A new session is one the side has not been in, and later than all it has been in. */
  ghost predicate Later(w: World, x: Side, k: Pair) {
    k.Own(x) > w.Now(x).Own(x) || (k.Own(x) == w.Now(x).Own(x) && k.Theirs(x) > w.Now(x).Theirs(x))
  }

  lemma LaterNew(c: Config, w: World, x: Side, k: Pair)
    requires c.w > 0 && SideOk(c, w, x) && Later(w, x, k)
    ensures (x, k) !in w.entries && k != w.Now(x)
  {
    assert (x, k) in w.entries ==> Visited(c, w, x, k);
    hide Untouched, InStep, GoesOn;
  }

  /** What side `x` has been through does not change when it enters a later session. */
  lemma StillVisited(c: Config, w: World, v: World, x: Side, k: Pair, q: Pair)
    requires c.w > 0 && SideOk(c, w, x) && Later(w, x, k) && (x, q) in w.entries && v.Now(x) == k
    requires v.sessions.Keys == w.sessions.Keys + {k}
    requires forall p: Pair :: p in w.sessions && p != k ==> v.sessions[p] == w.sessions[p]
    requires forall p: Pair :: (x, p) in w.entries ==>
               (x, p) in v.entries && (p != k ==> v.entries[(x, p)] == w.entries[(x, p)])
    requires forall i: nat :: (x, i) in w.given ==> (x, i) in v.given && v.given[(x, i)] == w.given[(x, i)]
    ensures (x, q) in v.entries && Visited(c, v, x, q)
  {
    LaterNew(c, w, x, k);
    LaterThan(c, w, x, k, q);
    hide SideOk, Visited, Later, GoesOn;
    WasVisited(c, w, x, q);
    VisitedParts(c, w, x, q);
    if w.entries[(x, q)].from.Some? {
      StillGoesOn(c, w, v, x, w.entries[(x, q)].from.value, q);
    }
    VisitedIs(c, v, x, q);
  }

  lemma LaterThan(c: Config, w: World, x: Side, k: Pair, q: Pair)
    requires c.w > 0 && SideOk(c, w, x) && Later(w, x, k) && (x, q) in w.entries
    ensures q.Own(x) == k.Own(x) ==> q.Theirs(x) <= k.Theirs(x)
  {
    WasVisited(c, w, x, q);
    hide Untouched, InStep, GoesOn;
  }

  lemma EnterSide(c: Config, w: World, u: World, x: Side, k: Pair, e: Endpoint, ms: seq<Message>, entry: Entry)
    requires c.w > 0 && SideOk(c, w, x) && Later(w, x, k) && k.Own(x) > 0
    requires u.sessions == w.sessions && u.entries == w.entries && u.left == w.left && u.right == w.right
    requires forall i: nat :: (x, i) in w.given ==> (x, i) in u.given && u.given[(x, i)] == w.given[(x, i)]
    requires (x, k.Own(x)) in u.given && forall i: nat :: (x, i) in u.given ==> (x, i) in w.given || i == k.Own(x)
    requires entry.base <= |u.given[(x, k.Own(x))]| && ms == u.given[(x, k.Own(x))][entry.base..]
    requires entry.from.Some? ==> GoesOn(c, Entered(c, u, x, k, e, ms, entry), x, entry.from.value, k)
    ensures SideOk(c, Entered(c, u, x, k, e, ms, entry), x)
  {
    var v := Entered(c, u, x, k, e, ms, entry);
    EnteredIs(c, u, x, k, e, ms, entry);
    LaterNew(c, w, x, k);
    hide Entered, Start, Visited, Untouched, GoesOn;
    forall q: Pair | (x, q) in v.entries ensures Visited(c, v, x, q) {
      if q == k { NewVisited(c, v, x, k); } else { StillVisited(c, w, v, x, k, q); }
    }
    forall q: Pair | q in v.sessions && (x, q) !in v.entries ensures Untouched(c, View(v.sessions[q], x)) {
      assert q in w.sessions && (x, q) !in w.entries;
    }
  }

  lemma NewVisited(c: Config, v: World, x: Side, k: Pair)
    requires c.w > 0 && v.Now(x) == k && k in v.sessions && (x, k) in v.entries && (x, k.Own(x)) in v.given
    requires var entry, all := v.entries[(x, k)], v.given[(x, k.Own(x))];
             && entry.base <= |all| && View(v.sessions[k], x).fromA == all[entry.base..]
             && (entry.from.Some? ==> GoesOn(c, v, x, entry.from.value, k))
    ensures Visited(c, v, x, k)
  {
    hide GoesOn;
  }

  lemma EnterAll(c: Config, w: World, u: World, x: Side, k: Pair, e: Endpoint, ms: seq<Message>, entry: Entry)
    requires c.Valid() && AllSound(c, w) && u.sessions == w.sessions && u.entries == w.entries
    requires Sound(c, View(if k in w.sessions then w.sessions[k] else Start(c), x).(a := e, fromA := ms))
    ensures AllSound(c, Entered(c, u, x, k, e, ms, entry))
  {
    EnteredIs(c, u, x, k, e, ms, entry);
    var v := Entered(c, u, x, k, e, ms, entry);
    var t := View(if k in w.sessions then w.sessions[k] else Start(c), x).(a := e, fromA := ms);
    hide *;
    assert forall a :: a in w.entries ==> a in v.entries;
    ViewSound(c, t, x);
    AllSoundStill(c, w, v, x, k, View(t, x));
  }

  lemma ViewSound(c: Config, s: State, x: Side)
    requires Sound(c, s)
    ensures Sound(c, View(s, x))
  {
    hide Sound;
    if x.Right? { FlipSound(c, s); }
  }

  // ---------------------------------------------------------------- hearing of the other's new incarnation

  lemma SoundParts(c: Config, s: State)
    requires Sound(c, s)
    ensures AllFitting(s.fromA, c.room) && s.a.out.tail >= 1 && s.Fits(c) && c.Valid()
  {
    var ha, hb :| Inv(c, s, ha, hb);
    assert ha.Valid(c) && s.a.out.tail >= 1 by { hide RingsOk, PendingOk, StreamOk, Settled, DataOk, AckOk, Sendable; }
    hide OneWay;
  }

  ghost function HeardBase(w: World, x: Side, ms: seq<Message>): nat
    requires (x, w.Now(x).Own(x)) in w.given
  {
    var all := w.given[(x, w.Now(x).Own(x))];
    if |ms| <= |all| then |all| - |ms| else 0
  }

  lemma HearsIs(c: Config, w: World, x: Side, inc: nat, life: Life)
    requires c.w > 0 && Possible(c, w, Hears(x, inc, life))
    ensures var k, s := w.Now(x), w.At(x);
            && k in w.sessions && View(w.sessions[k], x) == s && (x, k.Own(x)) in w.given && (x, k) in w.entries
            && s.a.Fits(c) && s.a.out.tail <= s.a.out.head && CanRenew(c, s.a, s.fromA, life) && inc > k.Theirs(x)
            && var k', ms := Between(x, k.Own(x), inc), Carried(c, s.a, s.fromA, life);
               && k'.Own(x) == k.Own(x) && k'.Theirs(x) == inc
               && Next(c, w, Hears(x, inc, life)) ==
                  Entered(c, w, x, k', Renewed(c, s.a, life), ms,
                          Entry(HeardBase(w, x, ms), if life.Reintroduces? then Some(k) else None))
  {
    hide Entered, Renewed, Carried;
  }

  lemma LastMessages<T>(all: seq<T>, base: nat, ms: seq<T>, j: nat)
    requires base <= |all| && ms == all[base..] && j <= |ms|
    ensures |ms[j..]| <= |all| && |all| - |ms[j..]| == base + j && ms[j..] == all[base + j..]
  {}

  lemma NowParts(c: Config, w: World, x: Side)
    requires c.w > 0 && SideOk(c, w, x) && AllSound(c, w)
    ensures var k := w.Now(x);
            && k in w.sessions && (x, k) in w.entries && (x, k.Own(x)) in w.given && Sound(c, w.At(x))
            && var all, base := w.given[(x, k.Own(x))], w.entries[(x, k)].base;
               base <= |all| && w.At(x).fromA == all[base..]
  {
    var k := w.Now(x);
    assert Visited(c, w, x, k);
    assert Sound(c, w.sessions[k]);
    hide Sound, Untouched, GoesOn, AllSound;
    ViewSound(c, w.sessions[k], x);
  }

  /** The messages carried on are the last of those the daemon was given. */
  lemma CarriedLast(c: Config, w: World, x: Side, life: Life)
    requires c.w > 0 && SideOk(c, w, x) && AllSound(c, w)
    ensures w.Now(x) in w.sessions && (x, w.Now(x)) in w.entries && (x, w.Now(x).Own(x)) in w.given
    ensures var s, all := w.At(x), w.given[(x, w.Now(x).Own(x))];
            var ms := Carried(c, s.a, s.fromA, life);
            && AllFitting(s.fromA, c.room) && s.a.out.tail >= 1
            && HeardBase(w, x, ms) <= |all| && ms == all[HeardBase(w, x, ms)..]
            && (life.Reintroduces? ==>
                  var j := FirstWhole(s.fromA, s.a.out.tail - 1, c.room);
                  ms == s.fromA[j..] && HeardBase(w, x, ms) == w.entries[(x, w.Now(x))].base + j)
  {
    hide *;
    NowParts(c, w, x);
    var k, s := w.Now(x), w.At(x);
    var all, base := w.given[(x, k.Own(x))], w.entries[(x, k)].base;
    SoundParts(c, s);
    CarriedIs(c, s.a, s.fromA, life);
    var ms := Carried(c, s.a, s.fromA, life);
    if life.Reintroduces? {
      LastMessages(all, base, s.fromA, FirstWhole(s.fromA, s.a.out.tail - 1, c.room));
    }
    HeardBaseIs(w, x, ms, all);
  }

  lemma CarriedIs(c: Config, e: Endpoint, given: seq<Message>, life: Life)
    requires AllFitting(given, c.room) && e.out.tail >= 1
    ensures life.Discards? ==> Carried(c, e, given, life) == []
    ensures life.Reintroduces? ==> Carried(c, e, given, life) == given[FirstWhole(given, e.out.tail - 1, c.room)..]
  {
    hide AllFitting, FirstWhole, Fitting, Packets, AllPackets;
  }

  lemma HeardBaseIs(w: World, x: Side, ms: seq<Message>, all: seq<Message>)
    requires (x, w.Now(x).Own(x)) in w.given && all == w.given[(x, w.Now(x).Own(x))] && |ms| <= |all|
    ensures HeardBase(w, x, ms) == |all| - |ms|
  {}

  lemma GoesOnIs(c: Config, v: World, x: Side, p: Pair, k: Pair, s: State, j: nat)
    requires (x, k) in v.entries && k in v.sessions && (x, p) in v.entries && p in v.sessions
    requires p.Own(x) == k.Own(x) && p.Theirs(x) < k.Theirs(x) && View(v.sessions[p], x) == s
    requires AllFitting(s.fromA, c.room) && s.a.out.tail >= 1 && j == FirstWhole(s.fromA, s.a.out.tail - 1, c.room)
    requires v.entries[(x, k)].base == v.entries[(x, p)].base + j && View(v.sessions[k], x).fromA == s.fromA[j..]
    ensures GoesOn(c, v, x, p, k)
  {
    hide AllFitting, FirstWhole, View;
  }

  lemma HeardGoesOn(c: Config, w: World, x: Side, inc: nat, life: Life)
    requires c.w > 0 && SideOk(c, w, x) && AllSound(c, w) && Possible(c, w, Hears(x, inc, life)) && life.Reintroduces?
    ensures var v := Next(c, w, Hears(x, inc, life));
            (x, v.Now(x)) in v.entries && v.Now(x) in v.sessions && GoesOn(c, v, x, w.Now(x), v.Now(x))
  {
    hide *;
    HearsIs(c, w, x, inc, life);
    CarriedLast(c, w, x, life);
    var k, s := w.Now(x), w.At(x);
    var k', ms := Between(x, k.Own(x), inc), Carried(c, s.a, s.fromA, life);
    EnteredIs(c, w, x, k', Renewed(c, s.a, life), ms, Entry(HeardBase(w, x, ms), Some(k)));
    assert k' != k;
    GoesOnIs(c, Next(c, w, Hears(x, inc, life)), x, k, k', s, FirstWhole(s.fromA, s.a.out.tail - 1, c.room));
  }

  lemma HearsLater(c: Config, w: World, x: Side, inc: nat)
    requires c.w > 0 && SideOk(c, w, x) && inc > w.Now(x).Theirs(x)
    ensures var k' := Between(x, w.Now(x).Own(x), inc); Later(w, x, k') && k'.Own(x) == w.Now(x).Own(x) > 0
    ensures (x, w.Now(x).Own(x)) in w.given
  {
    hide Visited, Untouched;
  }

  lemma HearsSide(c: Config, w: World, x: Side, inc: nat, life: Life)
    requires Good(c, w) && c.w > 0 && Possible(c, w, Hears(x, inc, life))
    ensures SideOk(c, Next(c, w, Hears(x, inc, life)), x) && Leaves(c, w, Next(c, w, Hears(x, inc, life)), Other(x))
  {
    hide *;
    GoodParts(c, w, x);
    HearsIs(c, w, x, inc, life);
    HearsLater(c, w, x, inc);
    CarriedLast(c, w, x, life);
    if life.Reintroduces? { HeardGoesOn(c, w, x, inc, life); }
    var k, s := w.Now(x), w.At(x);
    var k', ms := Between(x, k.Own(x), inc), Carried(c, s.a, s.fromA, life);
    var entry := Entry(HeardBase(w, x, ms), if life.Reintroduces? then Some(k) else None);
    EnteredIs(c, w, x, k', Renewed(c, s.a, life), ms, entry);
    EnterSide(c, w, w, x, k', Renewed(c, s.a, life), ms, entry);
    EnterLeaves(c, w, w, x, k', Renewed(c, s.a, life), ms, entry);
  }

  /** The session as the side finds it: it has not been in it. */
  lemma FindsUntouched(c: Config, w: World, x: Side, k: Pair)
    requires Good(c, w) && Later(w, x, k)
    ensures c.w > 0
    ensures var s := if k in w.sessions then w.sessions[k] else Start(c);
            Untouched(c, View(s, x)) && Sound(c, View(s, x))
  {
    GoodParts(c, w, x);
    StartSound(c);
    StartUntouched(c, x);
    LaterNew(c, w, x, k);
    hide Sound, Untouched, Start, Later, Visited;
    ViewSound(c, if k in w.sessions then w.sessions[k] else Start(c), x);
  }

  lemma HearsAll(c: Config, w: World, x: Side, inc: nat, life: Life)
    requires Good(c, w) && Possible(c, w, Hears(x, inc, life))
    ensures AllSound(c, Next(c, w, Hears(x, inc, life)))
  {
    hide *;
    GoodParts(c, w, x);
    HearsIs(c, w, x, inc, life);
    HearsLater(c, w, x, inc);
    NowParts(c, w, x);
    var k, s := w.Now(x), w.At(x);
    var k' := Between(x, k.Own(x), inc);
    FindsUntouched(c, w, x, k');
    var t0 := if k' in w.sessions then w.sessions[k'] else Start(c);
    EntersSound(c, View(t0, x), s, life);
    EnterAll(c, w, w, x, k', Renewed(c, s.a, life), Carried(c, s.a, s.fromA, life),
             Entry(HeardBase(w, x, Carried(c, s.a, s.fromA, life)), if life.Reintroduces? then Some(k) else None));
  }

  lemma HearsSorted(c: Config, w: World, x: Side, inc: nat, life: Life)
    requires c.w > 0 && Sorted(w) && Possible(c, w, Hears(x, inc, life))
    ensures Sorted(Next(c, w, Hears(x, inc, life)))
  {
    hide *;
    HearsIs(c, w, x, inc, life);
    var k, s := w.Now(x), w.At(x);
    var ms := Carried(c, s.a, s.fromA, life);
    EnterSorted(c, w, w, x, Between(x, k.Own(x), inc), Renewed(c, s.a, life), ms,
                Entry(HeardBase(w, x, ms), if life.Reintroduces? then Some(k) else None));
  }

  lemma HearsKeeps(c: Config, w: World, x: Side, inc: nat, life: Life)
    requires Good(c, w) && Possible(c, w, Hears(x, inc, life))
    ensures Good(c, Next(c, w, Hears(x, inc, life)))
  {
    hide *;
    GoodParts(c, w, x);
    HearsSide(c, w, x, inc, life);
    HearsAll(c, w, x, inc, life);
    HearsSorted(c, w, x, inc, life);
    OtherKeeps(c, w, Next(c, w, Hears(x, inc, life)), Other(x));
    GoodIs(c, Next(c, w, Hears(x, inc, life)), x);
  }

  // ---------------------------------------------------------------- starting again

  lemma RestartsNext(c: Config, w: World, x: Side, now: nat)
    requires c.w > 0 && Possible(c, w, Restarts(x, now))
    ensures var u := w.(given := w.given[(x, now) := []]);
            Next(c, w, Restarts(x, now)) == Entered(c, u, x, Between(x, now, 0), Fresh(c), [], Entry(0, None))
  {
    hide Entered, Fresh, Between;
  }

  lemma RestartsLater(c: Config, w: World, x: Side, now: nat)
    requires c.w > 0 && SideOk(c, w, x) && Possible(c, w, Restarts(x, now))
    ensures var k' := Between(x, now, 0);
            k'.Own(x) == now > 0 && k'.Theirs(x) == 0 && Later(w, x, k') && (x, now) !in w.given
  {
    hide Visited, Untouched;
  }

  /** No session with this incarnation is known to either side. */
  lemma Unheard(c: Config, w: World, x: Side, k: Pair)
    requires c.w > 0 && SideOk(c, w, x) && SideOk(c, w, Other(x)) && AllSound(c, w) && Later(w, x, k)
    requires k.Theirs(x) == 0
    ensures k !in w.sessions
  {
    LaterNew(c, w, x, k);
    Others(x);
    if k in w.sessions {
      assert (Other(x), k) in w.entries;
      WasVisited(c, w, Other(x), k);
      VisitedParts(c, w, Other(x), k);
      hide Visited, Untouched, Sound, Later;
      assert false;
    }
  }

  lemma RestartsIs(c: Config, w: World, x: Side, now: nat)
    requires Good(c, w) && c.w > 0 && Possible(c, w, Restarts(x, now))
    ensures var k', u := Between(x, now, 0), w.(given := w.given[(x, now) := []]);
            && k'.Own(x) == now > 0 && Later(w, x, k') && k' !in w.sessions
            && Next(c, w, Restarts(x, now)) == Entered(c, u, x, k', Fresh(c), [], Entry(0, None))
  {
    hide *;
    GoodParts(c, w, x);
    RestartsNext(c, w, x, now);
    RestartsLater(c, w, x, now);
    Unheard(c, w, x, Between(x, now, 0));
  }

  lemma RestartsSide(c: Config, w: World, x: Side, now: nat)
    requires Good(c, w) && c.w > 0 && Possible(c, w, Restarts(x, now))
    ensures SideOk(c, Next(c, w, Restarts(x, now)), x) && Leaves(c, w, Next(c, w, Restarts(x, now)), Other(x))
  {
    hide *;
    GoodParts(c, w, x);
    RestartsIs(c, w, x, now);
    NoneGiven(c, w, x, now);
    Others(x);
    var k', u := Between(x, now, 0), w.(given := w.given[(x, now) := []]);
    EnterLeaves(c, w, u, x, k', Fresh(c), [], Entry(0, None));
    EnterSide(c, w, u, x, k', Fresh(c), [], Entry(0, None));
  }

  lemma StartIs(c: Config, x: Side)
    requires c.w > 0
    ensures View(Start(c), x).(a := Fresh(c), fromA := []) == View(Start(c), x)
  {
    hide Fresh;
  }

  lemma RestartsAll(c: Config, w: World, x: Side, now: nat)
    requires Good(c, w) && Possible(c, w, Restarts(x, now))
    ensures AllSound(c, Next(c, w, Restarts(x, now)))
  {
    hide *;
    GoodParts(c, w, x);
    RestartsIs(c, w, x, now);
    StartSound(c);
    StartIs(c, x);
    var k', u := Between(x, now, 0), w.(given := w.given[(x, now) := []]);
    ViewSound(c, Start(c), x);
    EnterAll(c, w, u, x, k', Fresh(c), [], Entry(0, None));
  }

  lemma RestartsSorted(c: Config, w: World, x: Side, now: nat)
    requires c.w > 0 && Sorted(w) && Possible(c, w, Restarts(x, now))
    ensures Sorted(Next(c, w, Restarts(x, now)))
  {
    hide *;
    RestartsNext(c, w, x, now);
    EnterSorted(c, w, w.(given := w.given[(x, now) := []]), x, Between(x, now, 0), Fresh(c), [], Entry(0, None));
  }

  lemma RestartsKeeps(c: Config, w: World, x: Side, now: nat)
    requires Good(c, w) && Possible(c, w, Restarts(x, now))
    ensures Good(c, Next(c, w, Restarts(x, now)))
  {
    hide *;
    GoodParts(c, w, x);
    RestartsSide(c, w, x, now);
    RestartsAll(c, w, x, now);
    RestartsSorted(c, w, x, now);
    OtherKeeps(c, w, Next(c, w, Restarts(x, now)), Other(x));
    GoodIs(c, Next(c, w, Restarts(x, now)), x);
  }

  lemma Others(x: Side)
    ensures Other(x) != x
  {}

  lemma NoneGiven(c: Config, w: World, x: Side, now: nat)
    requires Possible(c, w, Restarts(x, now))
    ensures (x, now) !in w.given
  {}

  // ---------------------------------------------------------------- every run

  lemma BeginVisited(c: Config, p: Pair, x: Side, k: Pair)
    requires c.Valid() && p.left > 0 && p.right > 0 && (x, k) in Begin(c, p).entries
    ensures k == Begin(c, p).Now(x) && Visited(c, Begin(c, p), x, k)
  {
    assert View(Start(c), x).fromA == [];
    hide GoesOn, Start;
  }

  lemma BeginSide(c: Config, p: Pair, x: Side)
    requires c.Valid() && p.left > 0 && p.right > 0
    ensures SideOk(c, Begin(c, p), x)
  {
    var w := Begin(c, p);
    forall k: Pair | (x, k) in w.entries ensures Visited(c, w, x, k) { BeginVisited(c, p, x, k); }
    StartUntouched(c, x);
    hide Visited, Untouched, Start;
  }

  lemma BeginAll(c: Config, p: Pair)
    requires c.Valid()
    ensures AllSound(c, Begin(c, p))
  {
    StartSound(c);
    hide Sound, Start;
  }

  lemma BeginSorted(c: Config, p: Pair)
    requires c.w > 0
    ensures Sorted(Begin(c, p))
  {
    StartSilent(c);
    hide Start;
    forall k: Pair, x: Side | k in Begin(c, p).sessions
      ensures Stamped(x, k, View(Begin(c, p).sessions[k], x).toB) <= Begin(c, p).air
    {
      assert View(Begin(c, p).sessions[k], x).toB == {};
    }
  }

  lemma BeginGood(c: Config, p: Pair)
    requires c.Valid() && p.left > 0 && p.right > 0
    ensures Good(c, Begin(c, p))
  {
    assert c.w > 0;
    hide *;
    BeginSide(c, p, Left);
    BeginSide(c, p, Other(Left));
    BeginAll(c, p);
    BeginSorted(c, p);
    GoodIs(c, Begin(c, p), Left);
  }

  /** Every deed of either side, and so every run, keeps every session sound and every side in step
      with what it was given. */
  lemma NextKeeps(c: Config, w: World, d: Deed)
    requires Good(c, w) && Possible(c, w, d)
    ensures Good(c, Next(c, w, d))
  {
    hide *;
    match d
    case Local(x, ev) => LocalKeeps(c, w, x, ev);
    case Hears(x, inc, life) => HearsKeeps(c, w, x, inc, life);
    case Restarts(x, now) => RestartsKeeps(c, w, x, now);
  }

  lemma {:induction false} RunGood(c: Config, p: Pair, deeds: seq<Deed>)
    requires IsRun(c, p, deeds)
    ensures Good(c, After(c, p, deeds))
  {
    hide Good, Possible, Next, Begin;
    if deeds == [] {
      BeginGood(c, p);
    } else {
      var before := deeds[..|deeds| - 1];
      RunGood(c, p, before);
      NextKeeps(c, After(c, p, before), deeds[|deeds| - 1]);
    }
  }

  lemma RunSound(c: Config, p: Pair, deeds: seq<Deed>, k: Pair)
    requires IsRun(c, p, deeds) && k in After(c, p, deeds).sessions
    ensures Sound(c, After(c, p, deeds).sessions[k])
  {
    RunGood(c, p, deeds);
    hide After, IsRun, SideOk, Sound;
  }

  // ---------------------------------------------------------------- moves within a session are deeds

  function DeedOf(mv: Move): Deed {
    match mv
    case ByA(ev) => Local(Left, ev)
    case ByB(ev) => Local(Right, ev)
  }

  function Deeds(moves: seq<Move>): seq<Deed> { seq(|moves|, i requires 0 <= i < |moves| => DeedOf(moves[i])) }

  /** Both sides are in session `k`. */
  ghost predicate Together(w: World, k: Pair) { w.left == w.right == k && k in w.sessions }

  /** `v` is `w` after something that happened within session `k`. */
  ghost predicate Within(w: World, v: World, k: Pair, t: State) {
    v.sessions == w.sessions[k := t] && v.left == w.left && v.right == w.right && v.entries == w.entries
  }

  lemma StepIs(c: Config, s: State, mv: Move, x: Side, ev: Event)
    requires s.Fits(c) && mv == (if x.Left? then ByA(ev) else ByB(ev))
    ensures View(s, x).Fits(c) && Step(c, s, mv) == View(StepA(c, View(s, x), ev), x) && DeedOf(mv) == Local(x, ev)
    ensures Allowed(c, s, mv) ==> Can(c, View(s, x).a, View(s, x).toA, ev)
  {
    hide StepA, Can;
  }

  lemma NowReady(c: Config, w: World, x: Side)
    requires Good(c, w)
    ensures w.Ready(c, x)
  {
    GoodParts(c, w, x);
    NowParts(c, w, x);
    assert Sound(c, w.sessions[w.Now(x)]);
    SoundFits(c, w.sessions[w.Now(x)]);
    hide Sound, SideOk;
  }

  lemma MoveIsDeed(c: Config, w: World, k: Pair, mv: Move)
    requires Good(c, w) && Together(w, k) && w.sessions[k].Fits(c) && Allowed(c, w.sessions[k], mv)
    ensures c.w > 0 && Possible(c, w, DeedOf(mv)) && Within(w, Next(c, w, DeedOf(mv)), k, Step(c, w.sessions[k], mv))
  {
    var x, ev := if mv.ByA? then Left else Right, mv.ev;
    StepIs(c, w.sessions[k], mv, x, ev);
    NowReady(c, w, x);
    GoodParts(c, w, x);
    HeardIs(w, x);
    hide Good, Step, StepA, Can, Allowed, Next, Sound, Sorted;
    assert w.At(x) == View(w.sessions[k], x);
    LocalIs(c, w, x, ev);
  }

  lemma DeedsFirst(deeds: seq<Deed>, moves: seq<Move>)
    requires moves != []
    ensures deeds + Deeds(moves) == deeds + [DeedOf(moves[0])] + Deeds(moves[1..])
  {
    assert Deeds(moves) == [DeedOf(moves[0])] + Deeds(moves[1..]);
  }

  lemma RunOneMore(c: Config, p: Pair, deeds: seq<Deed>, d: Deed)
    requires IsRun(c, p, deeds) && Possible(c, After(c, p, deeds), d)
    ensures IsRun(c, p, deeds + [d]) && After(c, p, deeds + [d]) == Next(c, After(c, p, deeds), d)
  {
    hide Possible, Next;
    assert (deeds + [d])[..|deeds|] == deeds;
  }

  /** What is possible within a session goes on a run in which both sides are in it. */
  lemma {:induction false} MovesAreDeeds(c: Config, p: Pair, deeds: seq<Deed>, k: Pair, moves: seq<Move>)
    requires IsRun(c, p, deeds) && Together(After(c, p, deeds), k)
    requires After(c, p, deeds).sessions[k].Fits(c) && Legal(c, After(c, p, deeds).sessions[k], moves)
    ensures IsRun(c, p, deeds + Deeds(moves))
    ensures var w := After(c, p, deeds); Within(w, After(c, p, deeds + Deeds(moves)), k, Steps(c, w.sessions[k], moves))
    decreases |moves|
  {
    hide IsRun, After, Possible, Next, Step, Allowed, Good;
    var w := After(c, p, deeds);
    if moves == [] {
      assert deeds + Deeds(moves) == deeds;
    } else {
      RunGood(c, p, deeds);
      MoveIsDeed(c, w, k, moves[0]);
      RunOneMore(c, p, deeds, DeedOf(moves[0]));
      DeedsFirst(deeds, moves);
      MovesAreDeeds(c, p, deeds + [DeedOf(moves[0])], k, moves[1..]);
    }
  }
}
