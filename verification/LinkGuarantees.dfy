/** What two neighbours can count on in every session of every run, whatever the network does and
    however often either of them starts again. */
module LinkGuarantees {
  import opened Wrappers
  import opened Fragments
  import opened ItLink
  import opened SenderSide
  import opened ReceiverSide
  import opened Delivery
  import opened LinkReset
  import opened Transport
  import opened Incarnations

  /** `k` is a session of the run. */
  ghost predicate In(c: Config, p: Pair, deeds: seq<Deed>, k: Pair) {
    IsRun(c, p, deeds) && k in After(c, p, deeds).sessions
  }

  ghost function Session(c: Config, p: Pair, deeds: seq<Deed>, k: Pair): (s: State)
    requires In(c, p, deeds, k)
    ensures s.Fits(c)
  {
    RunSound(c, p, deeds, k);
    SoundFits(c, After(c, p, deeds).sessions[k]);
    After(c, p, deeds).sessions[k]
  }

  lemma SessionInv(c: Config, p: Pair, deeds: seq<Deed>, k: Pair) returns (ha: History, hb: History)
    requires In(c, p, deeds, k)
    ensures Inv(c, Session(c, p, deeds, k), ha, hb) && OneWayBoth(c, Session(c, p, deeds, k), ha, hb)
  {
    RunSound(c, p, deeds, k);
    var s := Session(c, p, deeds, k);
    ha, hb :| Inv(c, s, ha, hb);
    hide OneWay;
  }

  ghost predicate OneWayBoth(c: Config, s: State, ha: History, hb: History) {
    && s.Fits(c) && OneWay(c, s.a.out, s.b.inn, ha, s.toB, s.toA) && OneWay(c, s.b.out, s.a.inn, hb, s.toA, s.toB)
    && ha.submitted == s.fromA && hb.submitted == s.fromB
  }

  lemma StreamPrefix(s: Sender, h: History, c: Config, n: nat)
    requires SenderOk(s, h, c) && n <= |h.pkts|
    ensures AllFitting(h.submitted, c.room) && |h.pkts| <= |AllPackets(h.submitted, c.room)|
    ensures h.pkts[..n] == AllPackets(h.submitted, c.room)[..n]
    ensures s.message.None? ==> h.pkts == AllPackets(h.submitted, c.room)
  {
    assert h.pkts + Remaining(s, c) == AllPackets(h.submitted, c.room);
    hide RingsOk, AllPackets, PendingOk, Fitting, Packets;
  }

  lemma StreamAt(s: Sender, h: History, c: Config, n: nat)
    requires SenderOk(s, h, c) && 1 <= n <= |h.pkts|
    ensures AllFitting(h.submitted, c.room) && n <= |AllPackets(h.submitted, c.room)|
    ensures h.pkts[n - 1] == AllPackets(h.submitted, c.room)[n - 1]
  {
    hide *;
    StreamPrefix(s, h, c, n);
    assert h.pkts[..n][n - 1] == h.pkts[n - 1];
  }

  lemma Taken(r: Receiver, h: History, c: Config)
    requires Settled(r, h, c)
    ensures 1 <= r.tail && r.tail - 1 <= |h.pkts| && r.inbox == FeedAll(Kept(h.pkts[..r.tail - 1], c))
  {
    hide CellsOk, Digest, FeedAll, Kept, EarlyOk;
  }

  lemma FeedSome(ps: seq<Packet>, ms: seq<Message>, room: nat)
    requires AllFitting(ms, room) && ps <= AllPackets(ms, room)
    ensures FeedAll(ps).delivered <= ms && !FeedAll(ps).broken
    ensures ps == AllPackets(ms, room) ==> FeedAll(ps).delivered == ms
  {
    hide FeedAll, AllPackets, Fitting;
    assert ps == AllPackets(ms, room)[..|ps|];
    FeedPrefix(ms, |ps|, room);
    FeedMessages(ms, room);
  }

  lemma OneWayParts(c: Config, out: Sender, inn: Receiver, h: History, data: set<Wire>, acks: set<Wire>)
    requires OneWay(c, out, inn, h, data, acks)
    ensures |h.pkts| == out.head - 1 && out.tail <= inn.tail
    ensures SenderOk(out, h, c) && Settled(inn, h, c) && AllSendable(h.submitted, c)
  {
    hide Settled, RingsOk, PendingOk, StreamOk, Sendable, DataOk, AckOk;
  }

  /** One direction: what has been handed up in order is a prefix of what was submitted, never an
      error, and all of it once everything packed has been taken. */
  lemma OneWayDelivers(c: Config, out: Sender, inn: Receiver, h: History, data: set<Wire>, acks: set<Wire>)
    requires OneWay(c, out, inn, h, data, acks)
    ensures inn.inbox.delivered <= InOrder(h.submitted, c) && !inn.inbox.broken
    ensures inn.tail == out.head && out.message.None? ==> inn.inbox.delivered == InOrder(h.submitted, c)
  {
    hide *;
    OneWayParts(c, out, inn, h, data, acks);
    Taken(inn, h, c);
    StreamPrefix(out, h, c, inn.tail - 1);
    KeptPrefix(h.submitted, c, inn.tail - 1);
    FeedSome(Kept(h.pkts[..inn.tail - 1], c), InOrder(h.submitted, c), c.room);
  }

  /** In-order delivery, exactly once: in every session, whatever is lost, repeated or reordered, the
      messages either side hands up are a prefix of those the other side took on to send. */
  lemma DeliveredInOrder(c: Config, p: Pair, deeds: seq<Deed>, k: Pair)
    requires In(c, p, deeds, k)
    ensures var s := Session(c, p, deeds, k);
            && s.b.inn.inbox.delivered <= InOrder(s.fromA, c) && !s.b.inn.inbox.broken
            && s.a.inn.inbox.delivered <= InOrder(s.fromB, c) && !s.a.inn.inbox.broken
    ensures var s := Session(c, p, deeds, k);
            && (s.b.inn.tail == s.a.out.head && s.a.out.message.None? ==>
                  s.b.inn.inbox.delivered == InOrder(s.fromA, c))
            && (s.a.inn.tail == s.b.out.head && s.b.out.message.None? ==>
                  s.a.inn.inbox.delivered == InOrder(s.fromB, c))
  {
    hide In, Session, Inv, OneWay, InOrder;
    var ha, hb := SessionInv(c, p, deeds, k);
    var s := Session(c, p, deeds, k);
    OneWayDelivers(c, s.a.out, s.b.inn, ha, s.toB, s.toA);
    OneWayDelivers(c, s.b.out, s.a.inn, hb, s.toA, s.toB);
  }

  /** The window chain: the sender's tail, the receiver's window, what was let out and what was
      packed, in this order and never more than a window apart. */
  ghost predicate Chain(c: Config, out: Sender, inn: Receiver) {
    out.tail <= inn.tail <= inn.head <= out.tcpHead <= out.head <= out.tail + c.w
  }

  lemma ChainHolds(c: Config, p: Pair, deeds: seq<Deed>, k: Pair)
    requires In(c, p, deeds, k)
    ensures var s := Session(c, p, deeds, k); Chain(c, s.a.out, s.b.inn) && Chain(c, s.b.out, s.a.inn)
  {
    var ha, hb := SessionInv(c, p, deeds, k);
    hide In, Session, Inv, RingsOk, CellsOk, TakenOk, EarlyOk, PendingOk, StreamOk, DataOk, AckOk, Sendable;
  }

  /** Whatever arrives, at either side and in whatever state, passes the digest check and is not
      beyond the window: no honest packet is ever refused. */
  lemma NothingRefused(c: Config, p: Pair, deeds: seq<Deed>, k: Pair, w: Wire, rand: nat -> Nonce)
    requires In(c, p, deeds, k)
    ensures var s := Session(c, p, deeds, k);
            && (w in s.toA ==> TakeAru(s.a.out, c, w.aru, w.aruNonce, rand).0)
            && (w in s.toB ==> TakeAru(s.b.out, c, w.aru, w.aruNonce, rand).0)
    ensures var s := Session(c, p, deeds, k);
            && (w in s.toA && w.seqNo > 0 ==> Accept(s.a.inn, c, w.seqNo, w.nonce, w.pkt).0 != BeyondWindow)
            && (w in s.toB && w.seqNo > 0 ==> Accept(s.b.inn, c, w.seqNo, w.nonce, w.pkt).0 != BeyondWindow)
  {
    hide In, Session, Inv, OneWay, Accept, TakeAru;
    var ha, hb := SessionInv(c, p, deeds, k);
    var s := Session(c, p, deeds, k);
    FlipInv(c, s, ha, hb);
    if w in s.toA {
      AckBelieved(c, s, ha, hb, w, rand);
      if w.seqNo > 0 { DataTaken(c, s, ha, hb, w); }
    }
    if w in s.toB {
      AckBelieved(c, s.Flip(), hb, ha, w, rand);
      if w.seqNo > 0 { DataTaken(c, s.Flip(), hb, ha, w); }
    }
  }

  // ---------------------------------------------------------------- messages handed up at once

  /** The number of the last packet of message `i`. */
  ghost function Place(ms: seq<Message>, i: nat, c: Config): nat
    requires i < |ms| && AllFitting(ms, c.room)
  {
    |AllPackets(ms[..i + 1], c.room)|
  }

  lemma PlaceLast(ms: seq<Message>, c: Config)
    requires ms != [] && AllFitting(ms, c.room)
    ensures Place(ms, |ms| - 1, c) == |AllPackets(ms[..|ms| - 1], c.room)| + |Packets(ms[|ms| - 1], 0, c.room)|
    ensures forall i: nat {:trigger Place(ms, i, c)} :: i < |ms| - 1 ==> Place(ms, i, c) == Place(ms[..|ms| - 1], i, c)
  {
    assert ms[..|ms|] == ms;
    forall i: nat {:trigger Place(ms, i, c)} | i < |ms| - 1 ensures Place(ms, i, c) == Place(ms[..|ms| - 1], i, c) {
      assert ms[..i + 1] == ms[..|ms| - 1][..i + 1];
    }
  }

  lemma OnePacket(m: Message, c: Config)
    requires Fitting(m, c.room) && |m| == 1
    ensures Packets(m, 0, c.room) == [Encode(m, 0, 1)]
  {
    ProgressIffFits(m, 0, c.room);
  }

  /** A packet handed up at once is the only one of a message of one fragment, and gives it back. */
  lemma {:induction false} SingleAt(ms: seq<Message>, c: Config, k: nat) returns (i: nat)
    requires AllFitting(ms, c.room) && k < |AllPackets(ms, c.room)| && AtOnce(c, AllPackets(ms, c.room)[k])
    ensures i < |ms| && |ms[i]| == 1 && Place(ms, i, c) == k + 1
    ensures Build(FRESH, AllPackets(ms, c.room)[k]).1.frags == ms[i]
  {
    var front, m := ms[..|ms| - 1], ms[|ms| - 1];
    PlaceLast(ms, c);
    if k < |AllPackets(front, c.room)| {
      i := SingleAt(front, c, k);
    } else {
      var a, b := PacketPart(m, k - |AllPackets(front, c.room)|, c.room);
      WholeIs(AllPackets(ms, c.room)[k], m, a, b, c.room);
      OnePacket(m, c);
      i := |ms| - 1;
    }
  }

  /** And every message of one fragment has such a packet. */
  lemma {:induction false} SinglePlaced(ms: seq<Message>, c: Config, i: nat)
    requires AllFitting(ms, c.room) && i < |ms| && |ms[i]| == 1 && !c.ordered
    ensures 1 <= Place(ms, i, c) <= |AllPackets(ms, c.room)| && AtOnce(c, AllPackets(ms, c.room)[Place(ms, i, c) - 1])
  {
    PlaceLast(ms, c);
    if i < |ms| - 1 {
      SinglePlaced(ms[..|ms| - 1], c, i);
    } else {
      OnePacket(ms[i], c);
      TotalIs(Encode(ms[i], 0, 1), ms[i], 0, 1, c.room);
    }
  }

  /** An entry of the log is message `i`, of one fragment. */
  ghost predicate EntryFor(e: Early, ms: seq<Message>, i: nat, c: Config)
    requires AllFitting(ms, c.room)
  {
    i < |ms| && |ms[i]| == 1 && e.seqNo == Place(ms, i, c) && e.message == ms[i]
  }

  lemma EntryParts(inn: Receiver, h: History, c: Config, x: nat)
    requires Settled(inn, h, c) && x < |inn.early|
    ensures var n := inn.early[x].seqNo;
            && 1 <= n <= |h.pkts| && AtOnce(c, h.pkts[n - 1])
            && inn.early[x].message == Build(FRESH, h.pkts[n - 1]).1.frags
  {
    assert EntryOk(inn.early[x], inn, h, c);
    hide Got, AtOnce, Build, CellsOk, TakenOk;
  }

  lemma EntryIs(c: Config, out: Sender, inn: Receiver, h: History, x: nat) returns (i: nat)
    requires SenderOk(out, h, c) && Settled(inn, h, c) && x < |inn.early|
    ensures AllFitting(h.submitted, c.room) && EntryFor(inn.early[x], h.submitted, i, c)
  {
    hide *;
    var e := inn.early[x];
    EntryParts(inn, h, c, x);
    StreamAt(out, h, c, e.seqNo);
    i := SingleAt(h.submitted, c, e.seqNo - 1);
    EntryForIs(e, h.submitted, i, c);
  }

  lemma EntryForIs(e: Early, ms: seq<Message>, i: nat, c: Config)
    requires AllFitting(ms, c.room) && i < |ms| && |ms[i]| == 1
    requires e.seqNo == Place(ms, i, c) && e.message == ms[i]
    ensures EntryFor(e, ms, i, c)
  {
    hide Place, AllFitting;
  }

  lemma SingleLogged(c: Config, out: Sender, inn: Receiver, h: History, i: nat)
    requires SenderOk(out, h, c) && Settled(inn, h, c) && !c.ordered && i < |h.submitted| && |h.submitted[i]| == 1
    requires Got(inn, c, Place(h.submitted, i, c))
    ensures Logged(inn.early, Place(h.submitted, i, c))
  {
    var n := Place(h.submitted, i, c);
    SinglePlaced(h.submitted, c, i);
    assert n <= |h.pkts| by { assert CellsOk(inn, h, c); hide Slot, Place, AllPackets; }
    hide SenderOk, Got, AtOnce, Place, ReceiverOk, AllPackets;
    StreamAt(out, h, c, n);
  }

  /** The entry is some submitted message of one fragment. */
  ghost predicate Submitted(e: Early, ms: seq<Message>, c: Config)
    requires AllFitting(ms, c.room)
  {
    exists i: nat :: EntryFor(e, ms, i, c)
  }

  /** If the packet of message `i`, of one fragment, has arrived, the message has been handed up. */
  ghost predicate HandedUp(inn: Receiver, ms: seq<Message>, i: nat, c: Config)
    requires inn.Fits(c) && AllFitting(ms, c.room) && i < |ms|
  {
    |ms[i]| == 1 && Got(inn, c, Place(ms, i, c)) ==> Logged(inn.early, Place(ms, i, c))
  }

  /** Each message handed up at once is a submitted message of one fragment, no two of them are
      the same submission, and every such message whose packet has arrived has been handed up. */
  ghost predicate SinglesOnce(inn: Receiver, ms: seq<Message>, c: Config)
    requires inn.Fits(c) && AllFitting(ms, c.room)
  {
    && (forall x :: 0 <= x < |inn.early| ==> Submitted(inn.early[x], ms, c))
    && (forall x, y :: 0 <= x < y < |inn.early| ==> inn.early[x].seqNo != inn.early[y].seqNo)
    && (forall i :: 0 <= i < |ms| ==> HandedUp(inn, ms, i, c))
  }

  lemma OneWaySingles(c: Config, out: Sender, inn: Receiver, h: History)
    requires SenderOk(out, h, c) && Settled(inn, h, c) && !c.ordered
    ensures AllFitting(h.submitted, c.room) && SinglesOnce(inn, h.submitted, c)
  {
    assert EarlyOk(inn, h, c) && AllFitting(h.submitted, c.room);
    hide SenderOk, Settled, EntryOk, Got, Place, Logged, AtOnce, EntryFor, Fitting, HandedUp;
    var ms := h.submitted;
    forall x | 0 <= x < |inn.early| ensures Submitted(inn.early[x], ms, c) {
      var i := EntryIs(c, out, inn, h, x);
    }
    forall i: nat | i < |ms| ensures HandedUp(inn, ms, i, c) { HandedUpOk(c, out, inn, h, i); }
  }

  lemma HandedUpOk(c: Config, out: Sender, inn: Receiver, h: History, i: nat)
    requires SenderOk(out, h, c) && Settled(inn, h, c) && !c.ordered && i < |h.submitted|
    ensures AllFitting(h.submitted, c.room) && HandedUp(inn, h.submitted, i, c)
  {
    assert AllFitting(h.submitted, c.room);
    hide SenderOk, Settled, Got, Place, Logged, AtOnce, EntryFor, Fitting;
    if |h.submitted[i]| == 1 && Got(inn, c, Place(h.submitted, i, c)) { SingleLogged(c, out, inn, h, i); }
  }

  /** With ordering off, exactly once all the same: messages of one fragment as they arrive, the
      others in their order. */
  lemma UnorderedExactlyOnce(c: Config, p: Pair, deeds: seq<Deed>, k: Pair)
    requires In(c, p, deeds, k) && !c.ordered
    ensures var s := Session(c, p, deeds, k);
            && AllFitting(s.fromA, c.room) && SinglesOnce(s.b.inn, s.fromA, c)
            && s.b.inn.inbox.delivered <= Multi(s.fromA)
            && AllFitting(s.fromB, c.room) && SinglesOnce(s.a.inn, s.fromB, c)
            && s.a.inn.inbox.delivered <= Multi(s.fromB)
  {
    hide In, Session, Inv, SenderOk, Settled, Multi, SinglesOnce, Fitting;
    DeliveredInOrder(c, p, deeds, k);
    var ha, hb := SessionInv(c, p, deeds, k);
    var s := Session(c, p, deeds, k);
    OneWaySingles(c, s.a.out, s.b.inn, ha);
    OneWaySingles(c, s.b.out, s.a.inn, hb);
  }

  lemma NotEarly(inn: Receiver, h: History, c: Config)
    requires Settled(inn, h, c) && c.ordered
    ensures inn.early == []
  {
    assert |inn.early| > 0 ==> EntryOk(inn.early[0], inn, h, c);
  }

  /** With ordering on, nothing is ever handed up out of order. */
  lemma OrderedNeverEarly(c: Config, p: Pair, deeds: seq<Deed>, k: Pair)
    requires In(c, p, deeds, k) && c.ordered
    ensures Session(c, p, deeds, k).a.inn.early == [] && Session(c, p, deeds, k).b.inn.early == []
  {
    hide In, Session, Inv, SenderRests, Settled;
    var ha, hb := SessionInv(c, p, deeds, k);
    NotEarly(Session(c, p, deeds, k).b.inn, ha, c);
    NotEarly(Session(c, p, deeds, k).a.inn, hb, c);
  }

  // ---------------------------------------------------------------- what a change of incarnations loses

  /** The first `k` messages of one fragment each have been handed up at once. */
  ghost predicate SinglesTaken(inn: Receiver, ms: seq<Message>, k: nat, c: Config)
    requires AllFitting(ms, c.room) && k <= |ms|
  {
    forall i: nat {:trigger Place(ms, i, c)} :: i < k && |ms[i]| == 1 ==> Logged(inn.early, Place(ms, i, c))
  }

  /** Exactly what is lost if the sender goes on from the first message that begins after what was
      acknowledged: all before the one ahead of it have been handed up, and that one has exactly if
      its last packet has been taken.  With ordering off this is about the messages of two
      fragments or more; all those of one fragment have been handed up. */
  ghost predicate LosesExactly(out: Sender, inn: Receiver, ms: seq<Message>, c: Config) {
    && AllFitting(ms, c.room) && out.tail >= 1
    && var k := FirstWhole(ms, out.tail - 1, c.room);
       && (!c.ordered ==> SinglesTaken(inn, ms, k, c))
       && (k >= 1 ==>
         && InOrder(ms[..k - 1], c) <= inn.inbox.delivered
         && (InOrder(ms[..k], c) <= inn.inbox.delivered <==> Bound(ms, k, c.room) < inn.tail)
         && (Bound(ms, k, c.room) >= inn.tail ==> inn.inbox.delivered == InOrder(ms[..k - 1], c)))
  }

  /** A message of one fragment whose packet is among those taken in order has been handed up. */
  lemma SingleTaken(c: Config, out: Sender, inn: Receiver, h: History, i: nat)
    requires SenderOk(out, h, c) && Settled(inn, h, c) && AllFitting(h.submitted, c.room) && !c.ordered
    requires i < |h.submitted| && |h.submitted[i]| == 1 && Place(h.submitted, i, c) < inn.tail
    ensures Logged(inn.early, Place(h.submitted, i, c))
  {
    hide *;
    OneWaySingles(c, out, inn, h);
    SinglePlaced(h.submitted, c, i);
    SettledTail(inn, h, c);
    SinglesParts(inn, h.submitted, c, i);
  }

  lemma SinglesParts(inn: Receiver, ms: seq<Message>, c: Config, i: nat)
    requires AllFitting(ms, c.room) && i < |ms| && |ms[i]| == 1 && 1 <= Place(ms, i, c) < inn.tail
    requires inn.Fits(c) && SinglesOnce(inn, ms, c)
    ensures Logged(inn.early, Place(ms, i, c))
  {
    assert HandedUp(inn, ms, i, c);
    hide Place, Logged, Slot, Fitting, SinglesOnce;
  }

  /** One packet more than the messages ahead of it: a message of one fragment is never acknowledged
      in part. */
  lemma SingleBound(ms: seq<Message>, i: nat, c: Config)
    requires AllFitting(ms, c.room) && i < |ms| && |ms[i]| == 1
    ensures Place(ms, i, c) == Bound(ms, i, c.room) + 1
  {
    UpTo(ms, i + 1, c.room);
    OnePacket(ms[i], c);
    hide Fitting, Packets, AllPackets;
  }

  lemma SinglesAhead(c: Config, out: Sender, inn: Receiver, h: History, k: nat)
    requires SenderOk(out, h, c) && Settled(inn, h, c) && AllFitting(h.submitted, c.room) && !c.ordered
    requires k <= |h.submitted| && (k > 0 ==> Bound(h.submitted, k - 1, c.room) < inn.tail - 1)
    ensures SinglesTaken(inn, h.submitted, k, c)
  {
    hide *;
    forall i: nat {:trigger Place(h.submitted, i, c)} | i < k && |h.submitted[i]| == 1
      ensures Logged(inn.early, Place(h.submitted, i, c))
    {
      SingleBound(h.submitted, i, c);
      BoundGrows(h.submitted, i, k - 1, c.room);
      SingleTaken(c, out, inn, h, i);
    }
    SinglesTakenIs(inn, h.submitted, k, c);
  }

  lemma SinglesTakenIs(inn: Receiver, ms: seq<Message>, k: nat, c: Config)
    requires AllFitting(ms, c.room) && k <= |ms|
    requires forall i: nat {:trigger Place(ms, i, c)} :: i < k && |ms[i]| == 1 ==> Logged(inn.early, Place(ms, i, c))
    ensures SinglesTaken(inn, ms, k, c)
  {
    hide Place, Logged, AllFitting;
  }

  /** In every session at every time. */
  lemma LossExactly(c: Config, p: Pair, deeds: seq<Deed>, k: Pair)
    requires In(c, p, deeds, k)
    ensures var s := Session(c, p, deeds, k);
            LosesExactly(s.a.out, s.b.inn, s.fromA, c) && LosesExactly(s.b.out, s.a.inn, s.fromB, c)
  {
    hide In, Session, Inv, OneWay, LosesExactly;
    var ha, hb := SessionInv(c, p, deeds, k);
    var s := Session(c, p, deeds, k);
    OneWayLoses(c, s.a.out, s.b.inn, ha, s.toB, s.toA);
    OneWayLoses(c, s.b.out, s.a.inn, hb, s.toA, s.toB);
  }

  lemma OneWayLoses(c: Config, out: Sender, inn: Receiver, h: History, data: set<Wire>, acks: set<Wire>)
    requires OneWay(c, out, inn, h, data, acks)
    ensures LosesExactly(out, inn, h.submitted, c)
  {
    hide *;
    OneWayParts(c, out, inn, h, data, acks);
    SenderLength(out, h, c);
    var rest := RestIs(out, h, c);
    var ms := h.submitted;
    var k := FirstWhole(ms, out.tail - 1, c.room);
    assert out.tail - 1 <= |h.pkts + rest|;
    FirstWholeIs(ms, out.tail - 1, c.room);
    if !c.ordered { SinglesAhead(c, out, inn, h, k); }
    if k >= 1 {
      TakenMessages(out, h, inn, c, k - 1);
      if Bound(ms, k, c.room) < inn.tail {
        TakenMessages(out, h, inn, c, k);
      } else {
        HalfTaken(out, h, inn, c, k);
      }
    }
    LosesIs(out, inn, ms, c, k);
  }

  lemma LosesIs(out: Sender, inn: Receiver, ms: seq<Message>, c: Config, k: nat)
    requires AllFitting(ms, c.room) && out.tail >= 1 && k == FirstWhole(ms, out.tail - 1, c.room)
    requires k >= 1 ==> InOrder(ms[..k - 1], c) <= inn.inbox.delivered
    requires k >= 1 && Bound(ms, k, c.room) < inn.tail ==> InOrder(ms[..k], c) <= inn.inbox.delivered
    requires k >= 1 && Bound(ms, k, c.room) >= inn.tail ==>
               inn.inbox.delivered == InOrder(ms[..k - 1], c) && |InOrder(ms[..k], c)| > |InOrder(ms[..k - 1], c)|
    requires !c.ordered ==> SinglesTaken(inn, ms, k, c)
    ensures LosesExactly(out, inn, ms, c)
  {
    hide InOrder, FirstWhole, Bound, AllFitting, SinglesTaken;
  }

  /** A message whose packets have been taken in part has not been handed up; one that takes two
      packets or more is left to the ordered reassembly. */
  lemma HalfTaken(out: Sender, h: History, inn: Receiver, c: Config, k: nat)
    requires SenderOk(out, h, c) && Settled(inn, h, c) && AllSendable(h.submitted, c) && AllFitting(h.submitted, c.room)
    requires 1 <= k <= |h.submitted| && Bound(h.submitted, k - 1, c.room) < inn.tail - 1 < Bound(h.submitted, k, c.room)
    ensures inn.inbox.delivered == InOrder(h.submitted[..k - 1], c)
    ensures |InOrder(h.submitted[..k], c)| == |InOrder(h.submitted[..k - 1], c)| + 1
  {
    hide *;
    var ms, m, n := h.submitted[..k - 1], h.submitted[k - 1], inn.tail - 1;
    SendableUpTo(h.submitted, c, k);
    UpTo(h.submitted, k, c.room);
    Taken(inn, h, c);
    StreamPrefix(out, h, c, n);
    var x, ps := AllPackets(ms, c.room), Packets(m, 0, c.room);
    BoundIs(h.submitted, k, c.room);
    BoundIs(h.submitted, k - 1, c.room);
    TwoPackets(m, c);
    FirstOf(AllPackets(h.submitted, c.room), x, ps, n);
    HalfFed(ms, m, c, n - |x|);
    InOrderMore(ms, m, c);
  }

  lemma SendableUpTo(ms: seq<Message>, c: Config, k: nat)
    requires AllSendable(ms, c) && 1 <= k <= |ms|
    ensures Sendable(ms[k - 1], c) && Fitting(ms[k - 1], c.room) && AllSendable(ms[..k - 1], c)
    ensures ms[..k] == ms[..k - 1] + [ms[k - 1]]
  {
    assert Sendable(ms[k - 1], c);
    hide Fitting;
  }

  lemma BoundIs(ms: seq<Message>, k: nat, room: nat)
    requires k <= |ms| && AllFitting(ms, room)
    ensures AllFitting(ms[..k], room) && Bound(ms, k, room) == |AllPackets(ms[..k], room)|
  {
    hide AllPackets;
  }

  /** The packets of the first `k` messages lead the stream, the last of these at their end. */
  lemma UpTo(ms: seq<Message>, k: nat, room: nat)
    requires AllFitting(ms, room) && 1 <= k <= |ms|
    ensures AllFitting(ms[..k - 1], room) && AllFitting(ms[..k], room) && Fitting(ms[k - 1], room)
    ensures AllPackets(ms[..k], room) == AllPackets(ms[..k - 1], room) + Packets(ms[k - 1], 0, room)
    ensures AllPackets(ms[..k], room) <= AllPackets(ms, room)
  {
    AllSplit(ms, k, room);
    hide Fitting, Packets;
    assert ms[..k][..k - 1] == ms[..k - 1];
  }

  lemma FirstOf(all: seq<Packet>, x: seq<Packet>, ps: seq<Packet>, n: nat)
    requires x + ps <= all && |x| <= n <= |x + ps|
    ensures all[..n] == x + ps[..n - |x|]
  {}

  lemma TwoPackets(m: Message, c: Config)
    requires Fitting(m, c.room) && Sendable(m, c)
    ensures |Packets(m, 0, c.room)| > 1 ==> |m| > 1
  {
    if |m| == 1 { OnePacket(m, c); }
    hide Fitting;
  }

  lemma HalfFed(ms: seq<Message>, m: Message, c: Config, i: nat)
    requires AllFitting(ms, c.room) && AllSendable(ms, c) && Sendable(m, c) && Fitting(m, c.room) && |m| > 1
    requires i < |Packets(m, 0, c.room)|
    ensures FeedAll(Kept(AllPackets(ms, c.room) + Packets(m, 0, c.room)[..i], c)).delivered == InOrder(ms, c)
  {
    hide *;
    var x, ps := AllPackets(ms, c.room), Packets(m, 0, c.room);
    assert x[..|x|] == x;
    KeptPrefix(ms, c, |x|);
    MessageKept(m, c, i);
    KeptSplit(x, ps[..i], c);
    FeedMessages(InOrder(ms, c), c.room);
    FeedPart(InOrder(ms, c), m, i, c.room);
  }

  lemma InOrderMore(ms: seq<Message>, m: Message, c: Config)
    requires |m| > 1
    ensures |InOrder(ms + [m], c)| == |InOrder(ms, c)| + 1
  {
    assert (ms + [m])[..|ms|] == ms;
  }

  // ---------------------------------------------------------------- over all sessions of a daemon

  lemma {:induction false} MultiGrows(a: seq<Message>, b: seq<Message>)
    ensures Multi(a) <= Multi(a + b)
    decreases |b|
  {
    if b == [] {
      assert a + b == a;
    } else {
      assert (a + b)[..|a + b| - 1] == a + b[..|b| - 1];
      MultiGrows(a, b[..|b| - 1]);
    }
  }

  lemma InOrderGrows(a: seq<Message>, b: seq<Message>, c: Config)
    requires a <= b
    ensures InOrder(a, c) <= InOrder(b, c)
  {
    assert a + b[|a|..] == b;
    MultiGrows(a, b[|a|..]);
  }

  /** What the other side has handed up in any session is an unbroken run of all the messages this
      side's daemon was ever given, from where the session began. */
  lemma DeliveredOfGiven(c: Config, p: Pair, deeds: seq<Deed>, x: Side, k: Pair)
    requires IsRun(c, p, deeds) && (x, k) in After(c, p, deeds).entries
    ensures var w := After(c, p, deeds);
            && k in w.sessions && (x, k.Own(x)) in w.given
            && var all, base := w.given[(x, k.Own(x))], w.entries[(x, k)].base;
               base <= |all| && View(w.sessions[k], x).b.inn.inbox.delivered <= InOrder(all[base..], c)
  {
    hide After, IsRun, InOrder, SideOk, AllSound;
    RunGood(c, p, deeds);
    var w := After(c, p, deeds);
    GoodParts(c, w, x);
    WasVisited(c, w, x, k);
    VisitedParts(c, w, x, k);
    assert In(c, p, deeds, k);
    DeliveredInOrder(c, p, deeds, k);
    var all, base := w.given[(x, k.Own(x))], w.entries[(x, k)].base;
    InOrderGrows(View(w.sessions[k], x).fromA, all[base..], c);
  }

  /** When a side puts its messages in again, the new session goes on with exactly those from the
      first that begins after what was acknowledged, and what is lost of the earlier ones is exactly
      what was acknowledged in part and not yet taken whole. */
  lemma NothingElseLost(c: Config, p: Pair, deeds: seq<Deed>, x: Side, k: Pair)
    requires IsRun(c, p, deeds) && (x, k) in After(c, p, deeds).entries && After(c, p, deeds).entries[(x, k)].from.Some?
    ensures var w := After(c, p, deeds);
            var q := w.entries[(x, k)].from.value;
            && k in w.sessions && GoesOn(c, w, x, q, k)
            && LosesExactly(View(w.sessions[q], x).a.out, View(w.sessions[q], x).b.inn, View(w.sessions[q], x).fromA, c)
  {
    hide After, IsRun, SideOk, AllSound, LosesExactly, GoesOn;
    RunGood(c, p, deeds);
    var w := After(c, p, deeds);
    GoodParts(c, w, x);
    WasVisited(c, w, x, k);
    VisitedParts(c, w, x, k);
    var q := w.entries[(x, k)].from.value;
    assert In(c, p, deeds, q);
    LossExactly(c, p, deeds, q);
  }

  /** A way of dividing every message into groups of fragments that fit a packet each. */
  ghost predicate Divisions(ms: seq<Message>, cuts: seq<seq<nat>>, room: nat) {
    |cuts| == |ms| && forall i :: 0 <= i < |ms| ==> Division(ms[i], 0, cuts[i], room)
  }

  ghost function Groups(cuts: seq<seq<nat>>): int {
    if cuts == [] then 0 else Groups(cuts[..|cuts| - 1]) + |cuts[|cuts| - 1]| - 1
  }

  lemma {:induction false} StreamIsShortest(ms: seq<Message>, cuts: seq<seq<nat>>, room: nat)
    requires AllFitting(ms, room) && Divisions(ms, cuts, room)
    ensures |AllPackets(ms, room)| <= Groups(cuts)
  {
    if ms != [] {
      var n := |ms| - 1;
      assert Division(ms[n], 0, cuts[n], room);
      GreedyIsOptimal(ms[n], 0, 0, cuts[n], room);
      hide Packets, Division, Fitting;
      StreamIsShortest(ms[..n], cuts[..n], room);
    }
  }

  /** Packing is optimal in every run, however often a full window interrupts it: a side never uses
      more packets for the messages it was given than any way of dividing them into packets. */
  lemma PackedOptimally(c: Config, p: Pair, deeds: seq<Deed>, k: Pair, cuts: seq<seq<nat>>)
    requires In(c, p, deeds, k) && Divisions(Session(c, p, deeds, k).fromA, cuts, c.room)
    ensures Session(c, p, deeds, k).a.out.head - 1 <= Groups(cuts)
  {
    hide In, Session, Inv, SenderOk, Settled, Divisions, Groups;
    var ha, hb := SessionInv(c, p, deeds, k);
    var s := Session(c, p, deeds, k);
    SenderLength(s.a.out, ha, c);
    StreamPrefix(s.a.out, ha, c, 0);
    StreamIsShortest(s.fromA, cuts, c.room);
  }
}
