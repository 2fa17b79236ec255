/** Two neighbours that know each other's incarnation, joined by a network that loses, repeats and
    reorders what they send. */
module Transport {
  import opened Wrappers
  import opened Fragments
  import opened ItLink
  import opened SenderSide
  import opened ReceiverSide
  import opened Delivery

  /** The tail of a packet on the wire, with the data it follows; number 0 is a standalone
      acknowledgement. */
  datatype Wire = Wire(seqNo: nat, nonce: Nonce, pkt: Packet, aru: nat, aruNonce: Nonce, nacks: seq<nat>)

  /** One side: what it sends, what it receives, and the packet whose acknowledgement it has dealt
      with but whose data it has not. */
  datatype Endpoint = Endpoint(out: Sender, inn: Receiver, taking: Option<Wire>) {
    ghost predicate Fits(c: Config) { out.Fits(c) && inn.Fits(c) }
  }

  /** What can happen at one side. Timers, the congestion window and the retransmission budget only
      decide which of these happen when. */
  datatype Event =
    | Submit(message: Message, rand: nat -> Nonce)
    | LetOut(nacks: seq<nat>)
    | Resend(seqNo: nat, answered: bool, nacks: seq<nat>)
    | SendAck(nacks: seq<nat>)
    | TakeAck(wire: Wire, rand: nat -> Nonce)
    | TakeData

  /** Add_IT_Nacks names cells of the window marked as missing. */
  ghost predicate NacksFrom(r: Receiver, c: Config, nacks: seq<nat>)
    requires r.Fits(c)
  {
    forall i :: 0 <= i < |nacks| ==> r.tail <= nacks[i] < r.head && r.cells[Slot(nacks[i], c.w)].Nack?
  }

  ghost predicate Can(c: Config, e: Endpoint, incoming: set<Wire>, ev: Event) {
    && e.Fits(c)
    && match ev
       case Submit(m, _) => Sendable(m, c)
       case LetOut(nacks) => e.out.tcpHead < e.out.head && NacksFrom(e.inn, c, nacks)
       case Resend(n, _, nacks) => e.out.tail <= n < e.out.tcpHead && NacksFrom(e.inn, c, nacks)
       case SendAck(nacks) => NacksFrom(e.inn, c, nacks)
       case TakeAck(w, _) => w in incoming && e.taking.None?
       case TakeData => e.taking.Some?
  }

  /** Send_IT_Data_Msg: packet `n` with the acknowledgement of the moment. */
  function DataWire(e: Endpoint, c: Config, n: nat, nacks: seq<nat>): Wire
    requires e.Fits(c)
  {
    Wire(n, e.out.nonces[Slot(n, c.w)], e.out.packets[Slot(n, c.w)],
         if e.inn.tail == 0 then 0 else e.inn.tail - 1, e.inn.digest, nacks)
  }

  /** Send_IT_Ack. */
  function AckWire(e: Endpoint, nacks: seq<nat>): Wire {
    Wire(0, 0, [], if e.inn.tail == 0 then 0 else e.inn.tail - 1, e.inn.digest, nacks)
  }

  /** The endpoint after an event, what it put on the wire, and what was accepted for sending. */
  datatype Outcome = Outcome(e: Endpoint, sent: set<Wire>, accepted: seq<Message>)

  function Act(c: Config, e: Endpoint, ev: Event): (o: Outcome)
    requires e.Fits(c)
    ensures o.e.Fits(c)
  {
    match ev
    case Submit(m, rand) =>
      Outcome(e.(out := Forward(e.out, c, m, rand)), {}, if Refused(e.out, c, m) then [] else [m])
    case LetOut(nacks) =>
      Outcome(e.(out := AdvanceTcp(e.out)), {DataWire(e, c, e.out.tcpHead, nacks)}, [])
    case Resend(n, answered, nacks) =>
      var nacked := if answered then e.out.nacked[Slot(n, c.w) := false] else e.out.nacked;
      Outcome(e.(out := e.out.(nacked := nacked)), {DataWire(e, c, n, nacks)}, [])
    case SendAck(nacks) => Outcome(e, {AckWire(e, nacks)}, [])
    case TakeAck(w, rand) =>
      var (believed, out) := TakeAru(e.out, c, w.aru, w.aruNonce, rand);
      if !believed then Outcome(e, {}, [])
      else Outcome(Endpoint(MarkNacks(out, c, w.nacks), e.inn, if w.seqNo > 0 then Some(w) else None), {}, [])
    case TakeData =>
      if e.taking.None? then Outcome(e, {}, [])
      else
        var w := e.taking.value;
        Outcome(Endpoint(e.out, Accept(e.inn, c, w.seqNo, w.nonce, w.pkt).1, None), {}, [])
  }

  /** Both sides, all that was ever put on the wire towards each, and what each was given to send. */
  datatype State = State(
    a: Endpoint, b: Endpoint, toB: set<Wire>, toA: set<Wire>, fromA: seq<Message>, fromB: seq<Message>)
  {
    ghost predicate Fits(c: Config) { a.Fits(c) && b.Fits(c) }
    function Flip(): State { State(b, a, toA, toB, fromB, fromA) }
  }

  function Fresh(c: Config): Endpoint
    requires c.w > 0
  {
    Endpoint(FreshSender(c), FreshReceiver(c), None)
  }

  function Start(c: Config): (s: State)
    requires c.w > 0
    ensures s.Fits(c)
  {
    State(Fresh(c), Fresh(c), {}, {}, [], [])
  }

  datatype Move = ByA(ev: Event) | ByB(ev: Event)

  function StepA(c: Config, s: State, ev: Event): (t: State)
    requires s.Fits(c)
    ensures t.Fits(c)
  {
    var o := Act(c, s.a, ev);
    s.(a := o.e, toB := s.toB + o.sent, fromA := s.fromA + o.accepted)
  }

  ghost predicate Allowed(c: Config, s: State, mv: Move) {
    match mv
    case ByA(ev) => Can(c, s.a, s.toA, ev)
    case ByB(ev) => Can(c, s.b, s.toB, ev)
  }

  function Step(c: Config, s: State, mv: Move): (t: State)
    requires s.Fits(c)
    ensures t.Fits(c)
  {
    match mv
    case ByA(ev) => StepA(c, s, ev)
    case ByB(ev) => StepA(c, s.Flip(), ev).Flip()
  }

  /** The state a sequence of moves leads to. */
  ghost function Steps(c: Config, s: State, moves: seq<Move>): (t: State)
    requires s.Fits(c)
    ensures t.Fits(c)
    decreases |moves|
  {
    if moves == [] then s else Steps(c, Step(c, s, moves[0]), moves[1..])
  }

  /** Every move of the sequence is possible when it is made. */
  ghost predicate Legal(c: Config, s: State, moves: seq<Move>)
    requires s.Fits(c)
    decreases |moves|
  {
    moves != [] ==> Allowed(c, s, moves[0]) && Legal(c, Step(c, s, moves[0]), moves[1..])
  }

  lemma {:induction false} StepsJoin(c: Config, s: State, a: seq<Move>, b: seq<Move>)
    requires s.Fits(c)
    ensures Steps(c, s, a + b) == Steps(c, Steps(c, s, a), b)
    ensures Legal(c, s, a + b) <==> Legal(c, s, a) && Legal(c, Steps(c, s, a), b)
    decreases |a|
  {
    hide Step, Allowed;
    if a == [] {
      assert a + b == b;
    } else {
      assert (a + b)[1..] == a[1..] + b && (a + b)[0] == a[0];
      StepsJoin(c, Step(c, s, a[0]), a[1..], b);
    }
  }

  lemma OneMove(c: Config, s: State, mv: Move)
    requires s.Fits(c) && Allowed(c, s, mv)
    ensures Legal(c, s, [mv]) && Steps(c, s, [mv]) == Step(c, s, mv)
  {
    hide Step, Allowed;
    var t := Step(c, s, mv);
    assert Steps(c, t, []) == t && Legal(c, t, []);
    assert [mv][0] == mv && [mv][1..] == [];
    assert Steps(c, s, [mv]) == Steps(c, t, [mv][1..]);
  }

  lemma OneMore(c: Config, s: State, moves: seq<Move>, mv: Move)
    requires s.Fits(c) && Legal(c, s, moves) && Allowed(c, Steps(c, s, moves), mv)
    ensures Legal(c, s, moves + [mv]) && Steps(c, s, moves + [mv]) == Step(c, Steps(c, s, moves), mv)
  {
    hide Step, Allowed;
    StepsJoin(c, s, moves, [mv]);
    assert [mv][1..] == [];
  }

  /** Side a lets out `n` packets one after the other, each with some numbers it misses itself. */
  function LetOuts(nacks: nat -> seq<nat>, n: nat): seq<Move> { seq(n, i requires 0 <= i < n => ByA(LetOut(nacks(i)))) }

  /** Letting packets out up to any number packed is a run. */
  lemma {:induction false} LetOutRun(c: Config, s: State, nacks: nat -> seq<nat>, n: nat)
    requires s.Fits(c) && s.a.out.tcpHead + n <= s.a.out.head
    requires forall i: nat :: i < n ==> NacksFrom(s.a.inn, c, nacks(i))
    ensures Legal(c, s, LetOuts(nacks, n))
    ensures var t := Steps(c, s, LetOuts(nacks, n));
            t.a == s.a.(out := s.a.out.(tcpHead := s.a.out.tcpHead + n))
            && t.b == s.b && t.toA == s.toA && t.fromA == s.fromA
  {
    if n == 0 {
      assert s.a.out == s.a.out.(tcpHead := s.a.out.tcpHead);
    } else {
      LetOutRun(c, s, nacks, n - 1);
      var moves, t := LetOuts(nacks, n - 1), Steps(c, s, LetOuts(nacks, n - 1));
      assert LetOuts(nacks, n) == moves + [ByA(LetOut(nacks(n - 1)))];
      hide Legal, Steps, Slot, LetOuts, NacksFrom;
      OneMore(c, s, moves, ByA(LetOut(nacks(n - 1))));
      Sending(c, t, LetOut(nacks(n - 1)), t.a.(out := AdvanceTcp(t.a.out)),
              DataWire(t.a, c, t.a.out.tcpHead, nacks(n - 1)));
    }
  }

  // ---------------------------------------------------------------- one direction

  ghost predicate DataOk(w: Wire, out: Sender, h: History) {
    w.seqNo > 0 ==> w.seqNo < out.tcpHead && Genuine(w.seqNo, w.nonce, w.pkt, h)
  }

  ghost predicate AckOk(w: Wire, inn: Receiver, h: History) {
    w.aru < inn.tail && w.aru <= |h.nonces| && w.aruNonce == Digest(h.nonces[..w.aru])
  }

  /** Sender, receiver and wires of one direction: the window chain, genuine data, and true
      acknowledgements. */
  ghost predicate OneWay(c: Config, out: Sender, inn: Receiver, h: History, data: set<Wire>, acks: set<Wire>) {
    && SenderRests(out, h, c) && Settled(inn, h, c) && AllSendable(h.submitted, c)
    && out.tail <= inn.tail && inn.head <= out.tcpHead
    && (forall w :: w in data ==> DataOk(w, out, h))
    && (forall w :: w in acks ==> AckOk(w, inn, h))
  }

  lemma AckExtends(w: Wire, inn: Receiver, q: Receiver, h: History, g: History)
    requires AckOk(w, inn, h) && Extends(h, g) && q.tail >= inn.tail
    ensures AckOk(w, q, g)
  {
    assert h.nonces[..w.aru] == g.nonces[..w.aru];
  }

  lemma DataExtends(w: Wire, out: Sender, p: Sender, h: History, g: History)
    requires DataOk(w, out, h) && Extends(h, g) && |g.pkts| == |g.nonces| && p.tcpHead >= out.tcpHead
    ensures DataOk(w, p, g)
  {}

  lemma SenderMoves(c: Config, out: Sender, p: Sender, inn: Receiver, h: History, g: History, data: set<Wire>,
                    acks: set<Wire>)
    requires OneWay(c, out, inn, h, data, acks) && SenderRests(p, g, c) && Extends(h, g) && AllSendable(g.submitted, c)
    requires p.tcpHead >= out.tcpHead && p.tail <= inn.tail
    ensures OneWay(c, p, inn, g, data, acks)
  {
    assert |g.pkts| == |g.nonces|;
    hide Settled, SenderRests, DataOk, AckOk, Extends, Sendable;
    SettledExtends(inn, h, g, c);
    forall w | w in data ensures DataOk(w, p, g) { DataExtends(w, out, p, h, g); }
    forall w | w in acks ensures AckOk(w, inn, g) { AckExtends(w, inn, inn, h, g); }
  }

  lemma ReceiverMoves(c: Config, out: Sender, inn: Receiver, q: Receiver, h: History, data: set<Wire>, acks: set<Wire>)
    requires OneWay(c, out, inn, h, data, acks) && Settled(q, h, c) && q.tail >= inn.tail && q.head <= out.tcpHead
    ensures OneWay(c, out, q, h, data, acks)
  {
    hide Settled, SenderRests, DataOk, AckOk, Sendable;
    forall w | w in acks ensures AckOk(w, q, h) { AckExtends(w, inn, q, h, h); }
  }

  lemma DataJoins(c: Config, out: Sender, inn: Receiver, h: History, data: set<Wire>, acks: set<Wire>, w: Wire)
    requires OneWay(c, out, inn, h, data, acks) && DataOk(w, out, h)
    ensures OneWay(c, out, inn, h, data + {w}, acks)
  {
    hide Settled, SenderRests, DataOk, AckOk, Sendable;
  }

  lemma AckJoins(c: Config, out: Sender, inn: Receiver, h: History, data: set<Wire>, acks: set<Wire>, w: Wire)
    requires OneWay(c, out, inn, h, data, acks) && w.aru == inn.tail - 1 && w.aruNonce == inn.digest
    ensures OneWay(c, out, inn, h, data, acks + {w})
  {
    AckTrue(inn, h, c, w);
    hide Settled, SenderRests, DataOk, AckOk, Sendable;
  }

  /** The acknowledgement of the moment is true. */
  lemma AckTrue(inn: Receiver, h: History, c: Config, w: Wire)
    requires Settled(inn, h, c) && w.aru == inn.tail - 1 && w.aruNonce == inn.digest
    ensures AckOk(w, inn, h)
  {
    hide Slot, Digest, FeedAll, Kept, EarlyOk, CellsOk;
  }

  lemma WireTrue(e: Endpoint, c: Config, h: History, n: nat, nacks: seq<nat>)
    requires e.Fits(c) && SenderOk(e.out, h, c) && e.out.tail <= n < e.out.head
    ensures Genuine(n, DataWire(e, c, n, nacks).nonce, DataWire(e, c, n, nacks).pkt, h)
  {
    CellOf(e.out, h, c, n);
    hide Slot, RingsOk, StreamOk, PendingOk;
  }

  // ---------------------------------------------------------------- the invariant

  ghost predicate Inv(c: Config, s: State, ha: History, hb: History) {
    && c.Valid() && s.Fits(c)
    && OneWay(c, s.a.out, s.b.inn, ha, s.toB, s.toA) && OneWay(c, s.b.out, s.a.inn, hb, s.toA, s.toB)
    && ha.submitted == s.fromA && hb.submitted == s.fromB
    && (s.a.taking.Some? ==> s.a.taking.value in s.toA && s.a.taking.value.seqNo > 0)
    && (s.b.taking.Some? ==> s.b.taking.value in s.toB && s.b.taking.value.seqNo > 0)
  }

  lemma StartInv(c: Config)
    requires c.Valid()
    ensures Inv(c, Start(c), NO_HISTORY, NO_HISTORY)
  {
    FreshOk(c);
    hide SenderRests, Settled, FreshSender, FreshReceiver;
    NewWay(c, FreshSender(c), FreshReceiver(c), NO_HISTORY);
  }

  /** The packets of honest wires name a whole message only when they are one. */
  lemma WireWhole(out: Sender, h: History, c: Config, seqNo: nat, nonce: Nonce, pkt: Packet)
    requires SenderOk(out, h, c) && AllSendable(h.submitted, c) && Genuine(seqNo, nonce, pkt, h)
    ensures AtOnce(c, pkt) ==> Whole(pkt)
  {
    assert h.pkts + Remaining(out, c) == AllPackets(h.submitted, c.room);
    hide RingsOk, Remaining, AllPackets, AtOnce, Whole, AllSendable;
    assert AllPackets(h.submitted, c.room)[seqNo - 1] == pkt;
    StreamWhole(h.submitted, c, seqNo - 1);
  }

  lemma Quietly(c: Config, s: State, ev: Event, e: Endpoint)
    requires s.Fits(c) && Act(c, s.a, ev) == Outcome(e, {}, [])
    ensures StepA(c, s, ev) == s.(a := e)
  {
    hide Act;
    assert s.toB + {} == s.toB && s.fromA + [] == s.fromA;
  }

  lemma Sending(c: Config, s: State, ev: Event, e: Endpoint, w: Wire)
    requires s.Fits(c) && Act(c, s.a, ev) == Outcome(e, {w}, [])
    ensures StepA(c, s, ev) == s.(a := e, toB := s.toB + {w})
  {
    hide Act;
    assert s.fromA + [] == s.fromA;
  }

  lemma TakeAckIs(c: Config, e: Endpoint, w: Wire, rand: nat -> Nonce, out: Sender, taking: Option<Wire>)
    requires e.Fits(c) && out.Fits(c) && TakeAru(e.out, c, w.aru, w.aruNonce, rand) == (true, out)
    requires taking == if w.seqNo > 0 then Some(w) else None
    ensures Act(c, e, TakeAck(w, rand)) == Outcome(Endpoint(MarkNacks(out, c, w.nacks), e.inn, taking), {}, [])
  {
    hide TakeAru, MarkNacks;
  }

  lemma TakeDataIs(c: Config, e: Endpoint, w: Wire)
    requires e.Fits(c) && e.taking == Some(w)
    ensures Act(c, e, TakeData) == Outcome(Endpoint(e.out, Accept(e.inn, c, w.seqNo, w.nonce, w.pkt).1, None), {}, [])
  {
    hide Accept;
  }

  /** The sender of `a` moves on by itself. */
  lemma OutKeeps(c: Config, s: State, ha: History, hb: History, out: Sender, g: History, taking: Option<Wire>)
    requires Inv(c, s, ha, hb) && SenderRests(out, g, c) && Extends(ha, g) && AllSendable(g.submitted, c)
    requires out.tcpHead >= s.a.out.tcpHead && out.tail <= s.b.inn.tail
    requires taking.Some? ==> taking.value in s.toA && taking.value.seqNo > 0
    ensures Inv(c, s.(a := Endpoint(out, s.a.inn, taking), fromA := g.submitted), g, hb)
  {
    assert out.Fits(c);
    hide SenderRests, OneWay, Extends, AllSendable;
    SenderMoves(c, s.a.out, out, s.b.inn, ha, g, s.toB, s.toA);
  }

  lemma SubmitKeeps(c: Config, s: State, ha: History, hb: History, m: Message, rand: nat -> Nonce) returns (g: History)
    requires Inv(c, s, ha, hb) && Can(c, s.a, s.toA, Submit(m, rand))
    ensures Inv(c, StepA(c, s, Submit(m, rand)), g, hb)
  {
    hide OneWay, TooBig;
    if Refused(s.a.out, c, m) {
      Quietly(c, s, Submit(m, rand), s.a);
      g := ha;
    } else {
      g := AcceptedKeeps(c, s, ha, hb, m, rand);
    }
  }

  lemma SubmitIs(c: Config, s: State, m: Message, rand: nat -> Nonce)
    requires s.Fits(c) && !Refused(s.a.out, c, m)
    ensures StepA(c, s, Submit(m, rand)) ==
            s.(a := Endpoint(Forward(s.a.out, c, m, rand), s.a.inn, s.a.taking), fromA := s.fromA + [m])
  {
    hide Forward, Refused;
    assert s.toB + {} == s.toB;
  }

  lemma AcceptedKeeps(c: Config, s: State, ha: History, hb: History, m: Message, rand: nat -> Nonce)
    returns (g: History)
    requires Inv(c, s, ha, hb) && Sendable(m, c) && !Refused(s.a.out, c, m)
    ensures Inv(c, StepA(c, s, Submit(m, rand)), g, hb)
  {
    assert s.a.out.tail <= s.b.inn.tail && AllSendable(ha.submitted, c) && Fitting(m, c.room);
    assert SenderRests(s.a.out, ha, c) && ha.submitted == s.fromA && s.Fits(c);
    assert s.a.taking.Some? ==> s.a.taking.value in s.toA && s.a.taking.value.seqNo > 0;
    hide SenderRests, OneWay, Sendable, Forward, Extends, Inv, Fitting, StepA, Refused;
    g := ForwardOk(s.a.out, ha, c, m, rand);
    OutKeeps(c, s, ha, hb, Forward(s.a.out, c, m, rand), g, s.a.taking);
    SubmitIs(c, s, m, rand);
  }

  lemma SendKeeps(c: Config, s: State, ha: History, hb: History, out: Sender, w: Wire)
    requires Inv(c, s, ha, hb) && SenderRests(out, ha, c) && out.tail == s.a.out.tail && out.tcpHead >= s.a.out.tcpHead
    requires DataOk(w, out, ha) && w.aru == s.a.inn.tail - 1 && w.aruNonce == s.a.inn.digest
    ensures Inv(c, s.(a := s.a.(out := out), toB := s.toB + {w}), ha, hb)
  {
    assert ha.pkts <= ha.pkts && out.Fits(c) && s.a.out.tail <= s.b.inn.tail;
    hide SenderRests, Settled, DataOk, AckOk, Sendable;
    SenderMoves(c, s.a.out, out, s.b.inn, ha, ha, s.toB, s.toA);
    DataJoins(c, out, s.b.inn, ha, s.toB, s.toA, w);
    AckJoins(c, s.b.out, s.a.inn, hb, s.toA, s.toB, w);
    hide OneWay;
  }

  lemma LetOutKeeps(c: Config, s: State, ha: History, hb: History, nacks: seq<nat>)
    requires Inv(c, s, ha, hb) && Can(c, s.a, s.toA, LetOut(nacks))
    ensures Inv(c, StepA(c, s, LetOut(nacks)), ha, hb)
  {
    AdvanceTcpOk(s.a.out, ha, c);
    var w := DataWire(s.a, c, s.a.out.tcpHead, nacks);
    assert s.a.out.tail <= s.a.out.tcpHead && s.a.inn.tail >= 1;
    WireTrue(s.a, c, ha, s.a.out.tcpHead, nacks);
    assert SenderRests(s.a.out, ha, c) && s.a.inn.Fits(c);
    hide SenderRests, OneWay, Slot, Genuine, StepA, NacksFrom;
    SendKeeps(c, s, ha, hb, AdvanceTcp(s.a.out), w);
    hide Inv;
    Sending(c, s, LetOut(nacks), s.a.(out := AdvanceTcp(s.a.out)), w);
  }

  lemma UnnackOk(s: Sender, h: History, c: Config, nacked: seq<bool>)
    requires SenderRests(s, h, c) && |nacked| == c.w
    ensures SenderRests(s.(nacked := nacked), h, c)
  {
    hide Packets, Slot, Encode, Fill, Digest, AllPackets, Fitting, AllFitting, RingHolds, DigestsHold;
  }

  lemma ResendKeeps(c: Config, s: State, ha: History, hb: History, n: nat, answered: bool, nacks: seq<nat>)
    requires Inv(c, s, ha, hb) && Can(c, s.a, s.toA, Resend(n, answered, nacks))
    ensures Inv(c, StepA(c, s, Resend(n, answered, nacks)), ha, hb)
  {
    var nacked := if answered then s.a.out.nacked[Slot(n, c.w) := false] else s.a.out.nacked;
    UnnackOk(s.a.out, ha, c, nacked);
    var w := DataWire(s.a, c, n, nacks);
    assert s.a.out.tcpHead <= s.a.out.head && s.a.inn.tail >= 1;
    WireTrue(s.a, c, ha, n, nacks);
    hide SenderRests, OneWay, Slot, Genuine, StepA, NacksFrom;
    SendKeeps(c, s, ha, hb, s.a.out.(nacked := nacked), w);
    hide Inv;
    Sending(c, s, Resend(n, answered, nacks), s.a.(out := s.a.out.(nacked := nacked)), w);
  }

  lemma AckKeeps(c: Config, s: State, ha: History, hb: History, nacks: seq<nat>)
    requires Inv(c, s, ha, hb) && Can(c, s.a, s.toA, SendAck(nacks))
    ensures Inv(c, StepA(c, s, SendAck(nacks)), ha, hb)
  {
    assert s.a.inn.tail >= 1 && SenderRests(s.a.out, ha, c);
    hide SenderRests, OneWay, Slot, NacksFrom, Genuine, StepA;
    SendKeeps(c, s, ha, hb, s.a.out, AckWire(s.a, nacks));
    hide Inv;
    assert s.a.(out := s.a.out) == s.a;
    Sending(c, s, SendAck(nacks), s.a, AckWire(s.a, nacks));
  }

  /** The one wire an event puts out, by number, with what the packet is said to be. */
  ghost predicate Tells(w: Wire, s: State, ha: History, hb: History, n: nat, nacks: seq<nat>) {
    && w.seqNo == n && (n > 0 ==> Genuine(n, w.nonce, w.pkt, ha))
    && w.aru + 1 == s.a.inn.tail && w.aru <= |hb.nonces| && w.aruNonce == Digest(hb.nonces[..w.aru])
    && w.nacks == nacks
  }

  /** Whatever a side sends, data or not, acknowledges all it has taken by then and asks for what it
      names; data is what was packed under the number it was to be. */
  lemma WiresTell(c: Config, s: State, ha: History, hb: History, ev: Event)
    requires Inv(c, s, ha, hb) && s.a.Fits(c) && Can(c, s.a, s.toA, ev)
    ensures var sent := Act(c, s.a, ev).sent;
            match ev
            case LetOut(nacks) => exists w :: sent == {w} && Tells(w, s, ha, hb, s.a.out.tcpHead, nacks)
            case Resend(n, _, nacks) => exists w :: sent == {w} && Tells(w, s, ha, hb, n, nacks)
            case SendAck(nacks) => exists w :: sent == {w} && Tells(w, s, ha, hb, 0, nacks)
            case _ => sent == {}
  {
    if ev.LetOut? || ev.Resend? {
      var n := if ev.LetOut? then s.a.out.tcpHead else ev.seqNo;
      var w := DataWire(s.a, c, n, ev.nacks);
      DataTells(c, s, ha, hb, n, ev.nacks);
      hide Inv, Can, Tells, DataWire;
      assert Act(c, s.a, ev).sent == {w};
    } else if ev.SendAck? {
      AckTells(c, s, ha, hb, ev.nacks);
      hide Inv, Can, Tells, AckWire;
      assert Act(c, s.a, ev).sent == {AckWire(s.a, ev.nacks)};
    }
  }

  lemma TruthNow(c: Config, s: State, ha: History, hb: History)
    requires Inv(c, s, ha, hb)
    ensures 1 <= s.a.inn.tail <= |hb.nonces| + 1 && s.a.inn.digest == Digest(hb.nonces[..s.a.inn.tail - 1])
    ensures SenderOk(s.a.out, ha, c) && 1 <= s.a.out.tail <= s.a.out.tcpHead <= s.a.out.head
  {
    assert OneWay(c, s.b.out, s.a.inn, hb, s.toA, s.toB) && OneWay(c, s.a.out, s.b.inn, ha, s.toB, s.toA);
    hide Slot, Digest, FeedAll, Kept, EarlyOk, CellsOk, RingsOk, PendingOk, StreamOk, DataOk, AckOk, Sendable;
  }

  lemma DataTells(c: Config, s: State, ha: History, hb: History, n: nat, nacks: seq<nat>)
    requires Inv(c, s, ha, hb) && s.a.Fits(c) && s.a.out.tail <= n < s.a.out.head
    ensures Tells(DataWire(s.a, c, n, nacks), s, ha, hb, n, nacks)
  {
    TruthNow(c, s, ha, hb);
    hide Inv, SenderOk, Digest, Slot, Genuine;
    WireTrue(s.a, c, ha, n, nacks);
  }

  lemma AckTells(c: Config, s: State, ha: History, hb: History, nacks: seq<nat>)
    requires Inv(c, s, ha, hb)
    ensures Tells(AckWire(s.a, nacks), s, ha, hb, 0, nacks)
  {
    TruthNow(c, s, ha, hb);
    hide Inv, SenderOk, Digest, Slot, Genuine;
  }

  /** An acknowledgement off the wire passes the digest check. */
  lemma AckBelieved(c: Config, s: State, ha: History, hb: History, w: Wire, rand: nat -> Nonce)
    requires Inv(c, s, ha, hb) && w in s.toA
    ensures TakeAru(s.a.out, c, w.aru, w.aruNonce, rand).0
  {
    assert AckOk(w, s.b.inn, ha);
    hide SenderRests, Settled, Digest;
    var g := TakeAruOk(s.a.out, ha, c, w.aru, w.aruNonce, rand);
  }

  lemma AckKnown(c: Config, s: State, ha: History, hb: History, w: Wire)
    requires Inv(c, s, ha, hb) && w in s.toA
    ensures s.a.Fits(c) && s.Fits(c) && s.a.out.Fits(c) && SenderRests(s.a.out, ha, c) && AllSendable(ha.submitted, c)
    ensures w.aru <= |ha.nonces| ==> w.aruNonce == Digest(ha.nonces[..w.aru])
    ensures w.aru < s.b.inn.tail && s.a.out.tail <= s.b.inn.tail && ha.submitted == s.fromA
  {
    assert AckOk(w, s.b.inn, ha);
    hide SenderRests, Settled, Sendable, Digest;
  }

  lemma TakeAckKeeps(c: Config, s: State, ha: History, hb: History, w: Wire, rand: nat -> Nonce) returns (g: History)
    requires Inv(c, s, ha, hb) && w in s.toA
    ensures s.a.Fits(c) && s.Fits(c) && Inv(c, StepA(c, s, TakeAck(w, rand)), g, hb)
  {
    hide *;
    AckKnown(c, s, ha, hb, w);
    g := TakeAruOk(s.a.out, ha, c, w.aru, w.aruNonce, rand);
    var out := TakeAru(s.a.out, c, w.aru, w.aruNonce, rand).1;
    MarkNacksOk(out, g, c, w.nacks);
    var taking := if w.seqNo > 0 then Some(w) else None;
    OutKeeps(c, s, ha, hb, MarkNacks(out, c, w.nacks), g, taking);
    TakeAckIs(c, s.a, w, rand, out, taking);
    Quietly(c, s, TakeAck(w, rand), Endpoint(MarkNacks(out, c, w.nacks), s.a.inn, taking));
  }

  /** The data of a packet off the wire is never turned away as lying beyond the window. */
  lemma DataTaken(c: Config, s: State, ha: History, hb: History, w: Wire)
    requires Inv(c, s, ha, hb) && w in s.toA && w.seqNo > 0
    ensures var (fate, q) := Accept(s.a.inn, c, w.seqNo, w.nonce, w.pkt);
            && fate != BeyondWindow && Settled(q, hb, c)
            && q.tail >= s.a.inn.tail && s.a.inn.head <= q.head <= s.b.out.tcpHead
            && Got(q, c, w.seqNo) && forall n: nat :: Got(s.a.inn, c, n) ==> Got(q, c, n)
  {
    var out := s.b.out;
    assert DataOk(w, out, hb);
    WireWhole(out, hb, c, w.seqNo, w.nonce, w.pkt);
    assert out.tail <= s.a.inn.tail && out.tcpHead <= out.head <= out.tail + c.w;
    hide SenderRests, Settled, AtOnce, Whole, Accept, Genuine;
    AcceptOk(s.a.inn, hb, c, w.seqNo, w.nonce, w.pkt, out.tcpHead);
  }

  /** The receiver of `a` moves on by itself. */
  lemma InnKeeps(c: Config, s: State, ha: History, hb: History, q: Receiver)
    requires Inv(c, s, ha, hb) && Settled(q, hb, c) && q.tail >= s.a.inn.tail && q.head <= s.b.out.tcpHead
    ensures Inv(c, s.(a := Endpoint(s.a.out, q, None)), ha, hb)
  {
    assert q.Fits(c);
    hide Settled, OneWay;
    ReceiverMoves(c, s.b.out, s.a.inn, q, hb, s.toA, s.toB);
  }

  lemma TakingWire(c: Config, s: State, ha: History, hb: History)
    requires Inv(c, s, ha, hb) && Can(c, s.a, s.toA, TakeData)
    ensures s.Fits(c) && s.a.Fits(c) && s.a.inn.Fits(c) && s.a.taking.Some? && s.a.taking.value in s.toA
    ensures s.a.taking.value.seqNo > 0
  {
    hide OneWay;
  }

  lemma TakeDataKeeps(c: Config, s: State, ha: History, hb: History)
    requires Inv(c, s, ha, hb) && s.Fits(c) && Can(c, s.a, s.toA, TakeData)
    ensures Inv(c, StepA(c, s, TakeData), ha, hb)
  {
    hide *;
    TakingWire(c, s, ha, hb);
    var w := s.a.taking.value;
    DataTaken(c, s, ha, hb, w);
    var q := Accept(s.a.inn, c, w.seqNo, w.nonce, w.pkt).1;
    InnKeeps(c, s, ha, hb, q);
    TakeDataIs(c, s.a, w);
    Quietly(c, s, TakeData, Endpoint(s.a.out, q, None));
  }

  lemma StepAKeeps(c: Config, s: State, ha: History, hb: History, ev: Event) returns (g: History)
    requires Inv(c, s, ha, hb) && Can(c, s.a, s.toA, ev)
    ensures Inv(c, StepA(c, s, ev), g, hb)
  {
    assert ev.TakeAck? ==> ev.wire in s.toA;
    hide Inv, Act, StepA, Can;
    g := ha;
    match ev
    case Submit(m, rand) => g := SubmitKeeps(c, s, ha, hb, m, rand);
    case LetOut(nacks) => LetOutKeeps(c, s, ha, hb, nacks);
    case Resend(n, answered, nacks) => ResendKeeps(c, s, ha, hb, n, answered, nacks);
    case SendAck(nacks) => AckKeeps(c, s, ha, hb, nacks);
    case TakeAck(w, rand) => g := TakeAckKeeps(c, s, ha, hb, w, rand);
    case TakeData => TakeDataKeeps(c, s, ha, hb);
  }

  lemma FlipInv(c: Config, s: State, ha: History, hb: History)
    requires Inv(c, s, ha, hb)
    ensures Inv(c, s.Flip(), hb, ha)
  {
    hide OneWay;
  }

  lemma FreshOk(c: Config)
    requires c.Valid()
    ensures SenderRests(FreshSender(c), NO_HISTORY, c) && Settled(FreshReceiver(c), NO_HISTORY, c)
    ensures FreshSender(c).tail == FreshSender(c).tcpHead == FreshReceiver(c).head == FreshReceiver(c).tail == 1
  {
    FreshSenderRests(c);
    FreshReceiverOk(c);
    assert EarlyOk(FreshReceiver(c), NO_HISTORY, c) by { hide Slot; }
    hide SenderRests, ReceiverOk, EarlyOk;
  }

  lemma NewWay(c: Config, out: Sender, inn: Receiver, g: History)
    requires SenderRests(out, g, c) && Settled(inn, NO_HISTORY, c) && AllSendable(g.submitted, c)
    requires out.tail == 1 && out.tcpHead >= 1 && inn.head == inn.tail == 1
    ensures OneWay(c, out, inn, g, {}, {})
  {
    assert |g.pkts| == |g.nonces|;
    hide SenderRests, Settled, Sendable;
    SettledExtends(inn, NO_HISTORY, g, c);
  }

  /** Every move of either side keeps the invariant. */
  lemma StepKeeps(c: Config, s: State, ha: History, hb: History, mv: Move) returns (ga: History, gb: History)
    requires Inv(c, s, ha, hb) && Allowed(c, s, mv)
    ensures s.Fits(c) && Inv(c, Step(c, s, mv), ga, gb)
  {
    assert s.Fits(c) && s.Flip().Flip() == s;
    match mv
    case ByA(ev) =>
      ga := StepAKeeps(c, s, ha, hb, ev);
      gb := hb;
    case ByB(ev) =>
      FlipInv(c, s, ha, hb);
      hide Inv, StepA, Can;
      gb := StepAKeeps(c, s.Flip(), hb, ha, ev);
      ga := ha;
      FlipInv(c, StepA(c, s.Flip(), ev), gb, ga);
  }

  /** The invariant holds for some histories. */
  ghost predicate Sound(c: Config, s: State) { exists ha, hb :: Inv(c, s, ha, hb) }

  lemma StepSound(c: Config, s: State, mv: Move)
    requires Sound(c, s) && Allowed(c, s, mv)
    ensures s.Fits(c) && Sound(c, Step(c, s, mv))
  {
    var ha, hb :| Inv(c, s, ha, hb);
    hide Inv, Allowed, Step;
    var ga, gb := StepKeeps(c, s, ha, hb, mv);
  }

  lemma FlipSound(c: Config, s: State)
    requires Sound(c, s)
    ensures Sound(c, s.Flip())
  {
    var ha, hb :| Inv(c, s, ha, hb);
    hide Inv;
    FlipInv(c, s, ha, hb);
  }

  lemma SoundFits(c: Config, s: State)
    requires Sound(c, s)
    ensures s.Fits(c) && c.Valid()
  {
    var ha, hb :| Inv(c, s, ha, hb);
    hide OneWay;
  }

  lemma {:induction false} StepsSound(c: Config, s: State, moves: seq<Move>)
    requires s.Fits(c) && Sound(c, s) && Legal(c, s, moves)
    ensures Sound(c, Steps(c, s, moves))
    decreases |moves|
  {
    hide Sound, Step, Allowed;
    if moves != [] {
      StepSound(c, s, moves[0]);
      StepsSound(c, Step(c, s, moves[0]), moves[1..]);
    }
  }
}
