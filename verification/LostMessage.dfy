/** A run that loses a message: two packets or more, acknowledged in part when the other side starts
    again.  It shows that the exception in what a change of incarnations carries on is a real one. */
module LostMessage {
  import opened Wrappers
  import opened Fragments
  import opened ItLink
  import opened SenderSide
  import opened ReceiverSide
  import opened Delivery
  import opened LinkReset
  import opened Transport
  import opened Incarnations
  import opened LinkGuarantees

  // ---------------------------------------------------------------- half a message acknowledged

  ghost predicate Splits(c: Config, m: Message) {
    c.Valid() && Sendable(m, c) && !TooBig(m, c) && |Packets(m, 0, c.room)| >= 2
  }

  /** After a message that takes more packets is taken on, two or more are in the window. */
  lemma TwoInWindow(c: Config, s: Sender, h: History, m: Message)
    requires SenderRests(s, h, c) && h.submitted == [m] && Fitting(m, c.room) && |Packets(m, 0, c.room)| >= 2
    requires s.tail == 1
    ensures s.head >= 3 || c.w == 1
    ensures s.head >= 2
  {
    assert h.pkts + Remaining(s, c) == AllPackets([m], c.room);
    assert AllPackets([m], c.room) == AllPackets([], c.room) + Packets(m, 0, c.room) by { assert [m][..0] == []; }
    assert |AllPackets([m], c.room)| >= 2;
    hide RingsOk, PendingOk, AllPackets, Packets, Fitting;
  }

  lemma SubmitTakesOn(c: Config, m: Message, rand: nat -> Nonce)
    requires Splits(c, m)
    ensures Start(c).Fits(c) && Allowed(c, Start(c), ByA(Submit(m, rand)))
    ensures var s := Start(c);
            var t := Step(c, s, ByA(Submit(m, rand)));
            && t == s.(a := Endpoint(t.a.out, s.a.inn, None), fromA := [m])
            && t.a.out.tail == t.a.out.tcpHead == 1 && t.a.out.head >= 2
  {
    StartInv(c);
    var s := Start(c);
    FreshOk(c);
    assert !Refused(s.a.out, c, m) by { hide TooBig; }
    hide Forward, Packets, TooBig, Act, FreshReceiver, SenderRests, Settled;
    SubmitIs(c, s, m, rand);
    assert [] + [m] == [m];
    var g := ForwardOk(s.a.out, NO_HISTORY, c, m, rand);
    TwoInWindow(c, Forward(s.a.out, c, m, rand), g, m);
  }

  lemma DataMoves(c: Config, s: State, w: Wire)
    requires s.Fits(c) && s.b.taking == Some(w)
    ensures Allowed(c, s, ByB(TakeData))
    ensures Step(c, s, ByB(TakeData)) == s.(b := Endpoint(s.b.out, Accept(s.b.inn, c, w.seqNo, w.nonce, w.pkt).1, None))
  {
    hide Accept;
    TakeDataIs(c, s.b, w);
    Quietly(c, s.Flip(), TakeData, Endpoint(s.b.out, Accept(s.b.inn, c, w.seqNo, w.nonce, w.pkt).1, None));
  }

  lemma TakingParts(c: Config, s: State, ha: History, hb: History, w: Wire)
    requires Inv(c, s, ha, hb) && s.b.taking == Some(w)
    ensures s.Fits(c) && s.b.inn.Fits(c) && w in s.Flip().toA && s.Flip().b.out == s.a.out && s.Flip().a.inn == s.b.inn
  {
    hide OneWay;
  }

  /** The other side takes the first packet. */
  lemma FirstTaken(c: Config, s: State, ha: History, hb: History, w: Wire)
    requires Inv(c, s, ha, hb) && s.b.taking == Some(w) && w.seqNo == 1 && s.a.out.tcpHead == 2 && s.b.inn.tail == 1
    ensures var t := Step(c, s, ByB(TakeData));
            && s.Fits(c) && Allowed(c, s, ByB(TakeData)) && t.b.inn.tail == 2 && t.b.out == s.b.out && t.b.taking.None?
            && t.a == s.a && t.fromA == s.fromA
  {
    hide *;
    TakingParts(c, s, ha, hb, w);
    FlipInv(c, s, ha, hb);
    DataTaken(c, s.Flip(), hb, ha, w);
    OneGot(Accept(s.b.inn, c, w.seqNo, w.nonce, w.pkt).1, ha, c);
    DataMoves(c, s, w);
  }

  lemma OneGot(q: Receiver, h: History, c: Config)
    requires Settled(q, h, c) && Got(q, c, 1) && q.head <= 2
    ensures q.tail == 2
  {
    hide Slot, EarlyOk, CellsOk, TakenOk;
  }

  lemma StartParts(c: Config)
    requires c.Valid()
    ensures Start(c).Fits(c) && Legal(c, Start(c), []) && Steps(c, Start(c), []) == Start(c)
    ensures var s := Start(c); s.a.inn.tail == s.b.inn.tail == s.b.out.tail == 1 && s.b.taking.None? && s.a.taking.None?
  {
    FreshOk(c);
  }

  lemma LetsOutFirst(c: Config, s: State, e: Endpoint, w: Wire)
    requires s.Fits(c) && s.a.out.tail == s.a.out.tcpHead == 1 && s.a.out.head >= 2 && s.a.inn.tail == 1
    requires w == DataWire(s.a, c, 1, []) && e == s.a.(out := AdvanceTcp(s.a.out))
    ensures Allowed(c, s, ByA(LetOut([]))) && Step(c, s, ByA(LetOut([]))) == s.(a := e, toB := s.toB + {w})
    ensures w.seqNo == 1 && w.aru == 0 && w.nacks == [] && e.out.tail == 1 && e.out.tcpHead == 2 && e.inn == s.a.inn
    ensures e.taking == s.a.taking
  {
    hide Slot;
    Sending(c, s, LetOut([]), e, w);
  }

  /** An acknowledgement of nothing leaves the other side's sender as it is. */
  lemma NothingAcked(c: Config, s: State, w: Wire, rand: nat -> Nonce)
    requires s.Fits(c) && w in s.toB && s.b.taking.None? && s.b.out.tail == 1 && w.aru == 0 && w.seqNo == 1
    requires w.nacks == []
    ensures Allowed(c, s, ByB(TakeAck(w, rand)))
    ensures Step(c, s, ByB(TakeAck(w, rand))) == s.(b := s.b.(taking := Some(w)))
  {
    TakeAckIs(c, s.b, w, rand, s.b.out, Some(w));
    Quietly(c, s.Flip(), TakeAck(w, rand), s.b.(taking := Some(w)));
  }

  lemma AckGoes(c: Config, s: State, w: Wire)
    requires s.Fits(c) && w == AckWire(s.b, []) && s.b.inn.tail == 2
    ensures Allowed(c, s, ByB(SendAck([]))) && Step(c, s, ByB(SendAck([]))) == s.(toA := s.toA + {w})
    ensures w.aru == 1 && w.seqNo == 0 && w.nacks == []
  {
    hide Slot;
    Sending(c, s.Flip(), SendAck([]), s.b, w);
  }

  lemma AckStep(c: Config, s: State, w: Wire, rand: nat -> Nonce, out: Sender)
    requires s.Fits(c) && out.Fits(c) && w in s.toA && w.seqNo == 0 && w.nacks == [] && s.a.taking.None?
    requires TakeAru(s.a.out, c, w.aru, w.aruNonce, rand) == (true, out)
    ensures Allowed(c, s, ByA(TakeAck(w, rand)))
    ensures Step(c, s, ByA(TakeAck(w, rand))) == s.(a := Endpoint(out, s.a.inn, None))
  {
    hide TakeAru;
    TakeAckIs(c, s.a, w, rand, out, None);
    Quietly(c, s, TakeAck(w, rand), Endpoint(out, s.a.inn, None));
  }

  lemma AckMoves(c: Config, s: State, ha: History, hb: History, w: Wire, rand: nat -> Nonce)
    requires Inv(c, s, ha, hb) && w in s.toA && w.aru == 1 && w.seqNo == 0 && w.nacks == []
    requires s.a.taking.None? && s.a.out.tail == 1 && s.a.out.tcpHead == 2
    ensures s.Fits(c) && Allowed(c, s, ByA(TakeAck(w, rand)))
    ensures var t := Step(c, s, ByA(TakeAck(w, rand)));
            t == s.(a := t.a) && t.a.out.tail == 2 && t.a.taking.None?
  {
    hide *;
    AckKnown(c, s, ha, hb, w);
    var g := TakeAruOk(s.a.out, ha, c, w.aru, w.aruNonce, rand);
    AckStep(c, s, w, rand, TakeAru(s.a.out, c, w.aru, w.aruNonce, rand).1);
  }

  lemma BothFit(c: Config, s: State)
    requires s.Fits(c)
    ensures s.a.Fits(c) && s.b.Fits(c)
  {}

  lemma SplitsParts(c: Config, m: Message)
    requires Splits(c, m)
    ensures c.Valid()
  {}

  /** The steps up to an acknowledgement of the first packet alone. */
  lemma HalfAcknowledged(c: Config, m: Message, rand: nat -> Nonce) returns (moves: seq<Move>)
    requires Splits(c, m)
    ensures Start(c).Fits(c) && Legal(c, Start(c), moves)
    ensures var t := Steps(c, Start(c), moves);
            t.fromA == [m] && t.a.out.tail == 2 && t.b.inn.tail == 2 && t.a.taking.None?
  {
    hide *;
    SplitsParts(c, m);
    var s0 := Start(c);
    StartParts(c);
    StartInv(c);
    SubmitTakesOn(c, m, rand);
    var s1 := Step(c, s0, ByA(Submit(m, rand)));
    var ha, hb := StepKeeps(c, s0, NO_HISTORY, NO_HISTORY, ByA(Submit(m, rand)));
    BothFit(c, s1);
    var w := DataWire(s1.a, c, 1, []);
    LetsOutFirst(c, s1, s1.a.(out := AdvanceTcp(s1.a.out)), w);
    var s2 := Step(c, s1, ByA(LetOut([])));
    ha, hb := StepKeeps(c, s1, ha, hb, ByA(LetOut([])));
    NothingAcked(c, s2, w, rand);
    var s3 := Step(c, s2, ByB(TakeAck(w, rand)));
    ha, hb := StepKeeps(c, s2, ha, hb, ByB(TakeAck(w, rand)));
    FirstTaken(c, s3, ha, hb, w);
    var s4 := Step(c, s3, ByB(TakeData));
    ha, hb := StepKeeps(c, s3, ha, hb, ByB(TakeData));
    var ack := AckWire(s4.b, []);
    AckGoes(c, s4, ack);
    var s5 := Step(c, s4, ByB(SendAck([])));
    ha, hb := StepKeeps(c, s4, ha, hb, ByB(SendAck([])));
    AckMoves(c, s5, ha, hb, ack, rand);
    OneMore(c, s0, [], ByA(Submit(m, rand)));
    moves := [] + [ByA(Submit(m, rand))];
    OneMore(c, s0, moves, ByA(LetOut([])));
    moves := moves + [ByA(LetOut([]))];
    OneMore(c, s0, moves, ByB(TakeAck(w, rand)));
    moves := moves + [ByB(TakeAck(w, rand))];
    OneMore(c, s0, moves, ByB(TakeData));
    moves := moves + [ByB(TakeData)];
    OneMore(c, s0, moves, ByB(SendAck([])));
    moves := moves + [ByB(SendAck([]))];
    OneMore(c, s0, moves, ByA(TakeAck(ack, rand)));
    moves := moves + [ByA(TakeAck(ack, rand))];
  }

  // ---------------------------------------------------------------- the whole run

  lemma FreshStays(c: Config, rand: nat -> Nonce)
    requires c.Valid()
    requires c.w > MAX_FRAGMENTS
    ensures Fresh(c).out.tail <= Fresh(c).out.head && Fresh(c).Fits(c)
    ensures Renewed(c, Fresh(c), Reintroduces(rand)) == Fresh(c) && CanRenew(c, Fresh(c), [], Reintroduces(rand))
  {
    var d := seq(c.w, _ => 0 as Nonce);
    assert d[0 := 0] == d;
  }

  lemma StartsFresh(c: Config, x: Side)
    requires c.w > 0
    ensures View(Start(c), x) == Start(c) && Start(c).a == Fresh(c) && Start(c).fromA == []
    ensures Start(c).(a := Fresh(c), fromA := []) == Start(c)
  {}

  lemma NothingCarried(w: World, x: Side, c: Config, e: Endpoint, life: Life)
    requires (x, w.Now(x).Own(x)) in w.given && w.given[(x, w.Now(x).Own(x))] == []
    ensures Carried(c, e, [], life) == [] && HeardBase(w, x, []) == 0
  {}

  lemma MayHear(c: Config, w: World, x: Side, inc: nat, life: Life)
    requires w.Ready(c, x) && (Other(x), inc) in w.given && inc > w.Now(x).Theirs(x)
    requires CanRenew(c, w.At(x).a, w.At(x).fromA, life) && life.Reintroduces? == c.reintroduce
    ensures Possible(c, w, Hears(x, inc, life))
  {
    hide CanRenew;
  }

  /** `v` is `w` with side `x` in the fresh session `k`. */
  ghost predicate InFresh(c: Config, w: World, v: World, x: Side, k: Pair)
    requires c.w > 0
  {
    && v.Now(x) == k && v.Now(Other(x)) == w.Now(Other(x)) && k in v.sessions && v.sessions == w.sessions[k := Start(c)]
    && v.given == w.given && v.entries == w.entries[(x, k) := Entry(0, Some(w.Now(x)))]
  }

  lemma EntersFresh(c: Config, w: World, x: Side, k: Pair)
    requires c.w > 0 && (k in w.sessions ==> w.sessions[k] == Start(c))
    ensures InFresh(c, w, Entered(c, w, x, k, Fresh(c), [], Entry(0, Some(w.Now(x)))), x, k)
  {
    EnteredIs(c, w, x, k, Fresh(c), [], Entry(0, Some(w.Now(x))));
    StartsFresh(c, x);
    hide Entered, Fresh, Start;
  }

  /** A side whose session is still as it was at the start hears of the other. */
  lemma HearsFirst(c: Config, w: World, x: Side, inc: nat, k: Pair, rand: nat -> Nonce)
    requires c.reintroduce && c.w > MAX_FRAGMENTS
    requires Good(c, w) && w.Now(x) in w.sessions && w.sessions[w.Now(x)] == Start(c)
    requires (Other(x), inc) in w.given && inc > w.Now(x).Theirs(x)
    requires (x, w.Now(x).Own(x)) in w.given && w.given[(x, w.Now(x).Own(x))] == []
    requires k == Between(x, w.Now(x).Own(x), inc) && (k in w.sessions ==> w.sessions[k] == Start(c))
    ensures var d := Hears(x, inc, Reintroduces(rand)); Possible(c, w, d) && InFresh(c, w, Next(c, w, d), x, k)
  {
    hide *;
    GoodParts(c, w, x);
    NowReady(c, w, x);
    FreshStays(c, rand);
    StartsFresh(c, x);
    AtIs(w, x);
    MayHear(c, w, x, inc, Reintroduces(rand));
    HearsIs(c, w, x, inc, Reintroduces(rand));
    NothingCarried(w, x, c, Fresh(c), Reintroduces(rand));
    EntersFresh(c, w, x, k);
  }

  lemma AtIs(w: World, x: Side)
    requires w.Now(x) in w.sessions
    ensures w.At(x) == View(w.sessions[w.Now(x)], x)
  {}

  function HearFirst(rand: nat -> Nonce): Deed { Hears(Right, 1, Reintroduces(rand)) }
  function HearBack(rand: nat -> Nonce): Deed { Hears(Left, 1, Reintroduces(rand)) }
  const ONE := Pair(1, 1)

  lemma BeginIs(c: Config)
    requires c.Valid()
    ensures var w := Begin(c, ONE);
            && IsRun(c, ONE, []) && After(c, ONE, []) == w && Good(c, w)
            && w.left == Pair(1, 0) && w.right == Pair(0, 1)
            && w.sessions == map[Pair(1, 0) := Start(c), Pair(0, 1) := Start(c)]
            && w.given == map[(Left, 1) := [], (Right, 1) := []]
            && w.entries == map[(Left, Pair(1, 0)) := Entry(0, None), (Right, Pair(0, 1)) := Entry(0, None)]
  {
    BeginGood(c, ONE);
    hide Good, Start;
  }

  /** The second side has heard of the first. */
  ghost predicate HalfMet(c: Config, w: World)
    requires c.w > 0
  {
    && w.left == Pair(1, 0) && w.right == ONE
    && w.sessions == map[Pair(1, 0) := Start(c), Pair(0, 1) := Start(c), ONE := Start(c)]
    && w.given == map[(Left, 1) := [], (Right, 1) := []]
    && w.entries == map[(Left, Pair(1, 0)) := Entry(0, None), (Right, Pair(0, 1)) := Entry(0, None),
                        (Right, ONE) := Entry(0, Some(Pair(0, 1)))]
  }

  lemma HalfMetIs(c: Config, w: World, v: World)
    requires c.w > 0 && w.left == Pair(1, 0) && w.sessions == map[Pair(1, 0) := Start(c), Pair(0, 1) := Start(c)]
    requires w.given == map[(Left, 1) := [], (Right, 1) := []]
    requires w.entries == map[(Left, Pair(1, 0)) := Entry(0, None), (Right, Pair(0, 1)) := Entry(0, None)]
    requires w.right == Pair(0, 1) && InFresh(c, w, v, Right, ONE)
    ensures HalfMet(c, v)
  {
    hide Start;
  }

  lemma MeetRight(c: Config, rand: nat -> Nonce) returns (w: World)
    requires c.Valid() && c.reintroduce && c.w > MAX_FRAGMENTS
    ensures IsRun(c, ONE, [HearFirst(rand)]) && c.w > 0 && w == After(c, ONE, [HearFirst(rand)]) && HalfMet(c, w)
    ensures Good(c, w)
  {
    hide Possible, Next, Good, Start, InFresh, After, IsRun, Begin, HalfMet;
    BeginIs(c);
    HearsFirst(c, Begin(c, ONE), Right, 1, ONE, rand);
    RunOneMore(c, ONE, [], HearFirst(rand));
    assert [] + [HearFirst(rand)] == [HearFirst(rand)];
    w := After(c, ONE, [HearFirst(rand)]);
    HalfMetIs(c, Begin(c, ONE), w);
    RunGood(c, ONE, [HearFirst(rand)]);
  }

  /** The sides are in their first common session, and nothing has happened in it. */
  ghost predicate Met(c: Config, w: World)
    requires c.w > 0
  {
    && Together(w, ONE) && w.sessions[ONE] == Start(c) && (Left, ONE) in w.entries && w.entries[(Left, ONE)].base == 0
    && w.given == map[(Left, 1) := [], (Right, 1) := []] && Pair(1, 2) !in w.sessions
  }

  lemma MetIs(c: Config, w: World, v: World)
    requires c.w > 0 && HalfMet(c, w) && InFresh(c, w, v, Left, ONE)
    ensures Met(c, v)
  {
    hide Start;
  }

  lemma HeardLeft(c: Config, w: World, rand: nat -> Nonce)
    requires c.reintroduce && c.w > MAX_FRAGMENTS
    requires Good(c, w) && c.w > 0 && HalfMet(c, w)
    ensures Possible(c, w, HearBack(rand)) && InFresh(c, w, Next(c, w, HearBack(rand)), Left, ONE)
  {
    hide Possible, Next, Good, Start, InFresh;
    HearsFirst(c, w, Left, 1, ONE, rand);
  }

  /** Both sides hear of each other. */
  lemma Meet(c: Config, rand: nat -> Nonce) returns (w: World)
    requires c.Valid() && c.reintroduce && c.w > MAX_FRAGMENTS
    ensures IsRun(c, ONE, [HearFirst(rand), HearBack(rand)]) && c.w > 0
    ensures w == After(c, ONE, [HearFirst(rand), HearBack(rand)]) && Met(c, w)
  {
    hide *;
    var u := MeetRight(c, rand);
    HeardLeft(c, u, rand);
    RunOneMore(c, ONE, [HearFirst(rand)], HearBack(rand));
    w := Next(c, u, HearBack(rand));
    MetIs(c, u, w);
    assert [HearFirst(rand)] + [HearBack(rand)] == [HearFirst(rand), HearBack(rand)];
  }

  /** The first packet of `m`, and no more, has been taken and acknowledged. */
  ghost predicate HalfSent(c: Config, w: World, m: Message) {
    && Together(w, ONE) && (Left, ONE) in w.entries && w.entries[(Left, ONE)].base == 0
    && Pair(1, 2) !in w.sessions
    && var s := w.sessions[ONE];
       s.fromA == [m] && s.a.out.tail == 2 && s.b.inn.tail == 2 && s.a.taking.None?
  }

  lemma MetParts(c: Config, w: World, v: World, m: Message, t: State)
    requires c.w > 0 && Met(c, w) && Within(w, v, ONE, t) && t.fromA == [m] && t.a.out.tail == 2
    requires t.b.inn.tail == 2 && t.a.taking.None?
    ensures HalfSent(c, v, m)
  {
    hide Start;
  }

  lemma MetTogether(c: Config, w: World)
    requires c.w > 0 && Met(c, w)
    ensures Together(w, ONE) && w.sessions[ONE] == Start(c)
  {
    hide Start;
  }

  lemma SendHalf(c: Config, m: Message, rand: nat -> Nonce) returns (deeds: seq<Deed>, w: World)
    requires Splits(c, m) && c.reintroduce && c.w > MAX_FRAGMENTS
    ensures IsRun(c, ONE, deeds) && c.w > 0 && w == After(c, ONE, deeds) && HalfSent(c, w, m)
  {
    hide *;
    SplitsParts(c, m);
    var u := Meet(c, rand);
    MetTogether(c, u);
    var moves := HalfAcknowledged(c, m, rand);
    MovesAreDeeds(c, ONE, [HearFirst(rand), HearBack(rand)], ONE, moves);
    deeds := [HearFirst(rand), HearBack(rand)] + Deeds(moves);
    w := After(c, ONE, deeds);
    MetParts(c, u, w, m, Steps(c, Start(c), moves));
  }

  /** What is left: the message was given, the daemon that took half of it is gone and has handed
      nothing up, and the new session has nothing to send. */
  ghost predicate Lost(c: Config, w: World, m: Message) {
    && (Left, 1) in w.given && w.given[(Left, 1)] == [m]
    && w.left == Pair(1, 2) && w.right == Pair(0, 2)
    && ONE in w.sessions && w.sessions[ONE].b.inn.inbox.delivered == [] && w.sessions[ONE].b.inn.early == []
    && Pair(1, 2) in w.sessions && w.sessions[Pair(1, 2)].fromA == [] && w.sessions[Pair(1, 2)].a.out.message.None?
    && w.sessions[Pair(1, 2)].a.out.head == 1
  }

  lemma FirstWholeOne(c: Config, m: Message)
    requires Splits(c, m)
    ensures AllFitting([m], c.room) && FirstWhole([m], 1, c.room) == 1 && Bound([m], 1, c.room) >= 2
    ensures NoneEmpty([m]) && |m| > 1
  {
    TwoPackets(m, c);
    assert [m][..0] == [] && [m][..1] == [m];
    hide Packets, Fitting, TooBig;
  }

  /** What was half taken has not been handed up. */
  lemma NotHandedUp(c: Config, s: State, m: Message)
    requires Splits(c, m) && Sound(c, s) && s.fromA == [m] && s.a.out.tail == 2 && s.b.inn.tail == 2
    ensures s.b.inn.inbox.delivered == [] && s.b.inn.early == []
  {
    var ha, hb :| Inv(c, s, ha, hb);
    assert OneWay(c, s.a.out, s.b.inn, ha, s.toB, s.toA) && ha.submitted == [m] by { hide OneWay; }
    hide *;
    FirstWholeOne(c, m);
    OneWayLoses(c, s.a.out, s.b.inn, ha, s.toB, s.toA);
    OneWayParts(c, s.a.out, s.b.inn, ha, s.toB, s.toA);
    LosesAll(s.a.out, s.b.inn, m, c);
    if c.ordered {
      NotEarly(s.b.inn, ha, c);
    } else {
      OneWaySingles(c, s.a.out, s.b.inn, ha);
      NoSingles(s.b.inn, m, c);
    }
  }

  lemma LosesAll(out: Sender, inn: Receiver, m: Message, c: Config)
    requires LosesExactly(out, inn, [m], c) && out.tail == 2 && inn.tail == 2
    requires FirstWhole([m], 1, c.room) == 1 && Bound([m], 1, c.room) >= 2
    ensures inn.inbox.delivered == []
  {
    assert [m][..0] == [];
    hide FirstWhole, Bound, AllFitting;
  }

  lemma NoSingles(inn: Receiver, m: Message, c: Config)
    requires inn.Fits(c) && AllFitting([m], c.room) && SinglesOnce(inn, [m], c) && |m| > 1
    ensures inn.early == []
  {
    hide HandedUp, Place, Fitting;
    assert |inn.early| > 0 ==> Submitted(inn.early[0], [m], c);
  }

  lemma NothingToSend(c: Config, s: State)
    requires Sound(c, s) && s.fromA == []
    ensures s.a.out.message.None? && s.a.out.head == 1
  {
    var ha, hb :| Inv(c, s, ha, hb);
    assert SenderOk(s.a.out, ha, c) && ha.submitted == [] by { hide RingsOk, Settled, DataOk, AckOk, Sendable; }
    hide Inv, RingsOk, Packets;
    assert ha.pkts + Remaining(s.a.out, c) == AllPackets([], c.room);
  }

  lemma MayRestart(c: Config, w: World)
    requires c.w > 0 && SideOk(c, w, Right) && w.Ready(c, Right) && w.right == ONE
    ensures Possible(c, w, Restarts(Right, 2))
  {
    assert forall i: nat :: (Right, i) in w.given ==> i <= 1;
    hide SideOk;
  }

  /** The other side's daemon is gone, and its next one waits. */
  ghost predicate Gone(c: Config, w: World, m: Message) {
    && w.left == ONE && w.right == Pair(0, 2) && ONE in w.sessions && (Left, ONE) in w.entries
    && w.entries[(Left, ONE)].base == 0 && (Right, 2) in w.given && Pair(1, 2) !in w.sessions
    && var s := w.sessions[ONE];
       s.fromA == [m] && s.a.out.tail == 2 && s.b.inn.tail == 2 && s.a.taking.None?
  }

  lemma HalfSentParts(c: Config, w: World, m: Message)
    requires HalfSent(c, w, m)
    ensures w.right == ONE && Between(Right, 2, 0) == Pair(0, 2)
  {}

  lemma GoneIs(c: Config, w: World, v: World, m: Message)
    requires c.w > 0 && HalfSent(c, w, m) && Pair(0, 2) in v.sessions
    requires v.sessions == w.sessions[Pair(0, 2) := v.sessions[Pair(0, 2)]] && v.Now(Right) == Pair(0, 2)
    requires v.Now(Other(Right)) == w.Now(Other(Right))
    requires v.entries == w.entries[(Right, Pair(0, 2)) := Entry(0, None)] && (Right, 2) in v.given
    ensures Gone(c, v, m)
  {}

  lemma RestartGoes(c: Config, w: World, m: Message)
    requires Good(c, w) && c.w > 0 && HalfSent(c, w, m)
    ensures Possible(c, w, Restarts(Right, 2)) && Gone(c, Next(c, w, Restarts(Right, 2)), m)
  {
    hide *;
    GoodParts(c, w, Right);
    NowReady(c, w, Right);
    HalfSentParts(c, w, m);
    MayRestart(c, w);
    RestartsIs(c, w, Right, 2);
    EnteredIs(c, w.(given := w.given[(Right, 2) := []]), Right, Pair(0, 2), Fresh(c), [], Entry(0, None));
    NowFields(w);
    NowFields(w.(given := w.given[(Right, 2) := []]));
    NowFields(Next(c, w, Restarts(Right, 2)));
    GoneIs(c, w, Next(c, w, Restarts(Right, 2)), m);
  }

  lemma HearAgain(c: Config, w: World, m: Message, rand: nat -> Nonce)
    requires Splits(c, m) && Good(c, w) && c.reintroduce && c.w > MAX_FRAGMENTS && Gone(c, w, m)
    ensures Possible(c, w, Hears(Left, 2, Reintroduces(rand)))
  {
    hide *;
    NowReady(c, w, Left);
    FirstWholeOne(c, m);
    GoodParts(c, w, Left);
    NowParts(c, w, Left);
    GoneParts(c, w, m);
    InOrderTail(c, w.At(Left));
    GoneMayRenew(c, w, m, rand);
    MayHear(c, w, Left, 2, Reintroduces(rand));
  }

  lemma GoneMayRenew(c: Config, w: World, m: Message, rand: nat -> Nonce)
    requires Gone(c, w, m) && NoneEmpty([m]) && c.w > MAX_FRAGMENTS
    requires w.At(Left).a.Fits(c) && w.At(Left).a.out.tail <= w.At(Left).a.out.head
    ensures CanRenew(c, w.At(Left).a, w.At(Left).fromA, Reintroduces(rand))
    ensures (Other(Left), 2) in w.given && 2 > w.Now(Left).Theirs(Left)
  {}

  lemma InOrderTail(c: Config, s: State)
    requires Sound(c, s)
    ensures s.a.Fits(c) && s.a.out.tail <= s.a.out.head
  {
    var ha, hb :| Inv(c, s, ha, hb);
    hide RingsOk, PendingOk, StreamOk, Settled, DataOk, AckOk, Sendable;
  }

  lemma GoneParts(c: Config, w: World, m: Message)
    requires Gone(c, w, m)
    ensures w.left == w.Now(Left) == ONE && w.right == w.Now(Right) == Pair(0, 2) && ONE in w.sessions
    ensures (Left, ONE) in w.entries
    ensures w.entries[(Left, ONE)].base == 0 && w.At(Left) == w.sessions[ONE] && Pair(1, 2) !in w.sessions
    ensures var s := w.sessions[ONE]; s.fromA == [m] && s.a.out.tail == 2 && s.b.inn.tail == 2
    ensures Between(Left, ONE.Own(Left), 2) == Pair(1, 2) && ONE.Own(Left) == 1 && ONE == Pair(1, 1)
  {}

  lemma LostAgain(c: Config, w: World, m: Message, rand: nat -> Nonce)
    requires Splits(c, m) && Good(c, w) && c.reintroduce && c.w > MAX_FRAGMENTS && Gone(c, w, m)
    ensures Possible(c, w, Hears(Left, 2, Reintroduces(rand)))
    ensures Lost(c, Next(c, w, Hears(Left, 2, Reintroduces(rand))), m)
  {
    hide *;
    HearAgain(c, w, m, rand);
    GoneParts(c, w, m);
    GoodParts(c, w, Left);
    FirstWholeOne(c, m);
    NowParts(c, w, Left);
    CarriedLast(c, w, Left, Reintroduces(rand));
    HearsIs(c, w, Left, 2, Reintroduces(rand));
    var s := w.At(Left);
    NotHandedUp(c, s, m);
    var ms := Carried(c, s.a, s.fromA, Reintroduces(rand));
    EnteredIs(c, w, Left, Pair(1, 2), Renewed(c, s.a, Reintroduces(rand)), ms,
              Entry(HeardBase(w, Left, ms), Some(ONE)));
    NextKeeps(c, w, Hears(Left, 2, Reintroduces(rand)));
    var v := Next(c, w, Hears(Left, 2, Reintroduces(rand)));
    OneGiven(w.given[(Left, 1)], [m]);
    GoodParts(c, v, Left);
    NowParts(c, v, Left);
    NowFields(v);
    NowFields(w);
    AtIs(v, Left);
    AsItIs(v.sessions[Pair(1, 2)]);
    NothingToSend(c, v.At(Left));
    LostIs(c, v, m);
  }

  lemma OneGiven(all: seq<Message>, ms: seq<Message>)
    requires ms == all[0..]
    ensures all == ms
  {}

  lemma NowFields(w: World)
    ensures w.Now(Left) == w.left && w.Now(Right) == w.right && Other(Left) == Right && Other(Right) == Left
  {}

  lemma AsItIs(s: State)
    ensures View(s, Left) == s
  {}

  lemma LostIs(c: Config, v: World, m: Message)
    requires (Left, 1) in v.given && v.given[(Left, 1)] == [m] && v.left == Pair(1, 2) && v.right == Pair(0, 2)
    requires Pair(1, 1) in v.sessions && v.sessions[Pair(1, 1)].b.inn.inbox.delivered == []
    requires v.sessions[Pair(1, 1)].b.inn.early == []
    requires Pair(1, 2) in v.sessions && v.sessions[Pair(1, 2)].fromA == []
    requires v.sessions[Pair(1, 2)].a.out.message.None?
    requires v.sessions[Pair(1, 2)].a.out.head == 1
    ensures Lost(c, v, m)
  {}

  /** Every message that takes two packets or more can be lost: it is given to one side, the other
      takes and acknowledges the first packet and starts again, and the first side, on hearing of
      it, puts in again what was not acknowledged; the rest of this message is not among that. */
  lemma HalfTakenIsLost(c: Config, m: Message, rand: nat -> Nonce) returns (deeds: seq<Deed>)
    requires Splits(c, m) && c.reintroduce && c.w > MAX_FRAGMENTS
    ensures IsRun(c, ONE, deeds) && Lost(c, After(c, ONE, deeds), m)
  {
    hide *;
    var w: World;
    deeds, w := SendHalf(c, m, rand);
    RunGood(c, ONE, deeds);
    RestartGoes(c, w, m);
    RunOneMore(c, ONE, deeds, Restarts(Right, 2));
    deeds := deeds + [Restarts(Right, 2)];
    w := After(c, ONE, deeds);
    RunGood(c, ONE, deeds);
    LostAgain(c, w, m, rand);
    RunOneMore(c, ONE, deeds, Hears(Left, 2, Reintroduces(rand)));
    deeds := deeds + [Hears(Left, 2, Reintroduces(rand))];
  }
}
