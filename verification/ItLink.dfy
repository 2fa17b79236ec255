/** The two halves of an intrusion-tolerant link: what a sender keeps about its window and what a
    receiver keeps about the other side's. */
module ItLink {
  import opened Wrappers
  import opened Fragments

  type Nonce = bv64

  function Xor(a: Nonce, b: Nonce): Nonce { a ^ b }

  /** The first sequence number of a window. */
  const LINK_START_SEQ := 1

  /** Window size, the bytes of a packet left for fragments and their headers, whether messages are
      handed up in order only, and whether a daemon puts in again what was not acknowledged when
      the other starts again.  Neighbours whose configurations differ do not exchange keys. */
  datatype Config = Config(w: nat, room: nat, ordered: bool, reintroduce: bool) {
    ghost predicate Valid() { w > 0 && room <= MAX_PACKET_SIZE }
  }

  /** The ring position of a sequence number. */
  function Slot(s: nat, w: nat): (k: nat)
    requires w > 0
    ensures k < w
  {
    s % w
  }

  /** Numbers less than a window apart have cells of their own. */
  lemma SlotApart(a: nat, b: nat, w: nat)
    requires w > 0 && a < b < a + w
    ensures Slot(a, w) != Slot(b, w)
  {
    if a % w == b % w {
      var d := b / w - a / w;
      assert b - a == w * (b / w) - w * (a / w);
      MulOut(w, b / w, a / w);
      if d >= 1 { MulUp(w, d); } else { MulUp(w, -d + 1); MulFlip(w, d); }
    }
  }

  lemma MulOut(w: int, x: int, y: int)
    ensures w * x - w * y == w * (x - y)
  {}

  lemma MulUp(w: nat, d: int)
    requires d >= 1
    ensures w * d >= w
  {}

  lemma MulFlip(w: int, d: int)
    ensures w * (-d + 1) == w - w * d
  {}

  /** A window further on the same cell comes round again. */
  lemma SlotRound(a: nat, w: nat)
    requires w > 0
    ensures Slot(a + w, w) == Slot(a, w)
  {
    var x, y := (a + w) / w, (a + w) % w;
    var q, r := a / w, a % w;
    assert w * x - w * q == w + r - y;
    MulOut(w, x, q);
    var d := x - q;
    if d >= 2 { MulUp(w, d - 1); MulSplit(w, d); } else if d <= 0 { MulUp(w, -d + 1); MulFlip(w, d); }
  }

  lemma MulSplit(w: int, d: int)
    ensures w * (d - 1) == w * d - w
  {}

  // ---------------------------------------------------------------- sending

  /** The outbound fields: the rings of packets, nonces, digests and nack marks, the window, and
      the message being packed with the number of fragments already taken from it. */
  datatype Sender = Sender(
    packets: seq<Packet>, nonces: seq<Nonce>, digests: seq<Nonce>, nacked: seq<bool>,
    head: nat, tail: nat, tcpHead: nat,
    message: Option<Message>, taken: nat)
  {
    ghost predicate Fits(c: Config) {
      && c.w > 0 && |packets| == |nonces| == |digests| == |nacked| == c.w
      && head >= LINK_START_SEQ
      && (message.Some? ==> taken <= |message.value|)
    }
  }

  /** Put a packet at the head of the window under a fresh nonce. */
  function Push(s: Sender, c: Config, p: Packet, nonce: Nonce): (r: Sender)
    requires s.Fits(c)
    ensures r.Fits(c) && r.head == s.head + 1 && r.tail == s.tail && r.tcpHead == s.tcpHead
    ensures r.message == s.message && r.taken == s.taken
  {
    var k := Slot(s.head, c.w);
    s.(packets := s.packets[k := p], nonces := s.nonces[k := nonce],
       digests := s.digests[k := Xor(nonce, s.digests[Slot(s.head - 1, c.w)])], nacked := s.nacked[k := false],
       head := s.head + 1)
  }

  /** Pack one packet of the pending message. */
  function PackOne(s: Sender, c: Config, nonce: Nonce): (r: Sender)
    requires s.Fits(c) && s.message.Some?
    ensures r.Fits(c) && r.head == s.head + 1 && r.tail == s.tail && r.tcpHead == s.tcpHead
  {
    var m := s.message.value;
    var next := Fill(m, s.taken, 0, c.room);
    var pushed := Push(s, c, Encode(m, s.taken, next), nonce);
    pushed.(message := if next >= |m| then None else Some(m), taken := next)
  }

  /** Pack_Fragments_Into_Packets_IT: pack while there is a message and room in the window. */
  function PackAll(s: Sender, c: Config, rand: nat -> Nonce): (r: Sender)
    requires s.Fits(c)
    ensures r.Fits(c)
    decreases s.tail + c.w - s.head
  {
    if s.head - s.tail < c.w && s.message.Some? then PackAll(PackOne(s, c, rand(s.head)), c, rand) else s
  }

  /** Most packets a message may take, and the bytes they may have together. */
  const MAX_PACKETS := 45
  const MAX_MESSAGE_SIZE := 66240

  function Total(m: Message): nat { if m == [] then 0 else Total(m[..|m| - 1]) + |m[|m| - 1]| }

  /** The size check, its sum kept in 16 bits: the bytes of the message and a header and a fragment
      header for each of the packets it might take. */
  predicate TooBig(m: Message, c: Config) {
    Total(m) % 0x1_0000 + MAX_PACKETS * (MAX_PACKET_SIZE - c.room + HEADER) > MAX_MESSAGE_SIZE
  }

  predicate Refused(s: Sender, c: Config, m: Message) { s.message.Some? || TooBig(m, c) }

  lemma RefusedStays(s: Sender, c: Config, m: Message, rand: nat -> Nonce)
    requires s.Fits(c) && Refused(s, c, m)
    ensures Forward(s, c, m, rand) == s
  {}

  /** With nothing pending, a message is taken on exactly if its bytes, counted in 16 bits, come to no
      more than 45 packets hold of them when each packet has one fragment header. */
  lemma AcceptsExactly(s: Sender, c: Config, m: Message)
    ensures s.message.Some? ==> Refused(s, c, m)
    ensures s.message.None? ==> (!Refused(s, c, m) <==> Total(m) % 65536 <= 45 * (c.room - 4))
    ensures s.message.None? && Total(m) < 65536 ==> (!Refused(s, c, m) <==> Total(m) <= 45 * (c.room - 4))
  {}

  /** The bytes of all fragments. */
  lemma {:induction false} TotalJoins(a: Message, b: Message)
    ensures Total([]) == 0 && forall f: Fragment :: Total([f]) == |f|
    ensures Total(a + b) == Total(a) + Total(b)
  {
    forall f: Fragment ensures Total([f]) == |f| { assert [f][..0] == []; }
    if b == [] {
      assert a + b == a;
    } else {
      assert (a + b)[..|a + b| - 1] == a + b[..|b| - 1];
      TotalJoins(a, b[..|b| - 1]);
    }
  }

  /** Forward_Intru_Tol_Data: take on a message unless one is pending or it is too big. */
  function Forward(s: Sender, c: Config, m: Message, rand: nat -> Nonce): (r: Sender)
    requires s.Fits(c)
    ensures r.Fits(c)
  {
    if Refused(s, c, m) then s else PackAll(s.(message := Some(m), taken := 0), c, rand)
  }

  /** The advertised ARU, when it lies in the window: reject the whole packet if its digest is
      wrong, otherwise move the tail up and pack into the room gained. */
  function TakeAru(s: Sender, c: Config, aru: nat, digest: Nonce, rand: nat -> Nonce): (r: (bool, Sender))
    requires s.Fits(c)
    ensures r.1.Fits(c)
  {
    if s.tail <= aru < s.tcpHead then
      if s.digests[Slot(aru, c.w)] != digest then (false, s)
      else (true, PackAll(s.(tail := aru + 1), c, rand))
    else (true, s)
  }

  /** Remember which packets of the window the other side asks for. */
  function MarkNacks(s: Sender, c: Config, nacks: seq<nat>): (r: Sender)
    requires s.Fits(c)
    ensures r.Fits(c) && r == s.(nacked := r.nacked)
    decreases |nacks|
  {
    if nacks == [] then s
    else
      var before := MarkNacks(s, c, nacks[..|nacks| - 1]);
      var n := nacks[|nacks| - 1];
      if s.tail <= n < s.tcpHead then before.(nacked := before.nacked[Slot(n, c.w) := true]) else before
  }

  /** Let one more packed packet out. */
  function AdvanceTcp(s: Sender): Sender { s.(tcpHead := s.tcpHead + 1) }

  /** How far a congestion window of `cwnd` packets lets packets out. */
  function Opened(s: Sender, cwnd: nat): (n: nat)
    ensures n >= s.tcpHead
  {
    var reach := if s.head < s.tail + cwnd then s.head else s.tail + cwnd;
    if reach > s.tcpHead then reach else s.tcpHead
  }

  // ---------------------------------------------------------------- receiving

  datatype Cell = Empty | Nack | Recvd(pkt: Packet, nonce: Nonce)

  /** A message handed up as soon as its only packet arrived, and that packet's number. */
  datatype Early = Early(seqNo: nat, message: Message)

  /** The inbound fields: the ring of cells, the digest of everything up to the ARU, the window,
      what has been made of the packets so far, and what was handed up out of order. */
  datatype Receiver = Receiver(cells: seq<Cell>, digest: Nonce, head: nat, tail: nat, inbox: Inbox, early: seq<Early>) {
    ghost predicate Fits(c: Config) { c.w > 0 && |cells| == c.w }
  }

  /** The total number of fragments named in a packet's last header. */
  function TotalOf(p: Packet): nat {
    if |p| < HEADER then 0 else p[|p| - 1] as nat
  }

  /** Whether the packet is left to the loop that moves the ARU. */
  predicate InTurn(c: Config, p: Packet) { c.ordered || TotalOf(p) > 1 }

  /** Whether its message is handed up on arrival. */
  predicate AtOnce(c: Config, p: Packet) { !c.ordered && TotalOf(p) == 1 }

  /** Mark cells head..upto-1 as missing. */
  function MarkGaps(r: Receiver, c: Config, upto: nat): (q: Receiver)
    requires r.Fits(c)
    ensures q.Fits(c) && q == r.(cells := q.cells, head := q.head)
    decreases upto - r.head
  {
    if r.head >= upto then r
    else MarkGaps(r.(cells := r.cells[Slot(r.head, c.w) := Nack], head := r.head + 1), c, upto)
  }

  function CountRecvd(cells: seq<Cell>): nat {
    if cells == [] then 0 else CountRecvd(cells[..|cells| - 1]) + if cells[|cells| - 1].Recvd? then 1 else 0
  }

  lemma {:induction false} CountDrops(cells: seq<Cell>, k: nat, x: Cell)
    requires k < |cells| && cells[k].Recvd? && !x.Recvd?
    ensures CountRecvd(cells[k := x]) == CountRecvd(cells) - 1
  {
    var n := |cells| - 1;
    if k < n {
      assert cells[k := x][..n] == cells[..n][k := x];
      CountDrops(cells[..n], k, x);
    } else {
      assert cells[k := x][..n] == cells[..n];
    }
  }

  /** Move the ARU over one received cell, handing its packet to the reassembler unless its
      message has gone up already. */
  function DrainOne(r: Receiver, c: Config): (q: Receiver)
    requires r.Fits(c) && r.cells[Slot(r.tail, c.w)].Recvd?
    ensures q.Fits(c) && CountRecvd(q.cells) == CountRecvd(r.cells) - 1
  {
    var k := Slot(r.tail, c.w);
    var cell := r.cells[k];
    CountDrops(r.cells, k, Empty);
    Receiver(r.cells[k := Empty], Xor(r.digest, cell.nonce), r.head, r.tail + 1,
             if InTurn(c, cell.pkt) then Consume(r.inbox, cell.pkt) else r.inbox, r.early)
  }

  /** Move the ARU as far as packets have been received without a gap. */
  function Drain(r: Receiver, c: Config): (q: Receiver)
    requires r.Fits(c)
    ensures q.Fits(c)
    decreases CountRecvd(r.cells)
  {
    if r.cells[Slot(r.tail, c.w)].Recvd? then Drain(DrainOne(r, c), c) else r
  }

  /** Put a packet in its cell and, when it lies ahead, mark the gap before it. */
  function Store(r: Receiver, c: Config, seqNo: nat, nonce: Nonce, pkt: Packet): (q: Receiver)
    requires r.Fits(c)
    ensures q.Fits(c)
  {
    var stored := r.(cells := r.cells[Slot(seqNo, c.w) := Recvd(pkt, nonce)]);
    if seqNo >= r.head then
      var marked := MarkGaps(stored, c, seqNo);
      marked.(head := marked.head + 1)
    else stored
  }

  /** Hand a single-packet message up on arrival, reassembled on its own. */
  function HandUp(r: Receiver, c: Config, seqNo: nat, pkt: Packet): (q: Receiver)
    ensures q.cells == r.cells
  {
    if AtOnce(c, pkt) then
      match Build(FRESH, pkt)
      case (Ready, m) => r.(early := r.early + [Early(seqNo, m.frags)])
      case _ => r.(inbox := r.inbox.(broken := true))
    else r
  }

  /** What became of an incoming data packet. */
  datatype Fate = Old | BeyondWindow | Duplicate | Stored

  /** The data part of Process_IT_Ack. */
  function Accept(r: Receiver, c: Config, seqNo: nat, nonce: Nonce, pkt: Packet): (x: (Fate, Receiver))
    requires r.Fits(c)
    ensures x.1.Fits(c)
  {
    if seqNo < r.tail then (Old, r)
    else if seqNo >= r.tail + c.w then (BeyondWindow, r)
    else if r.cells[Slot(seqNo, c.w)].Recvd? then (Duplicate, r)
    else (Stored, Drain(HandUp(Store(r, c, seqNo, nonce, pkt), c, seqNo, pkt), c))
  }

  // ---------------------------------------------------------------- a fresh link

  function FreshSender(c: Config): (s: Sender)
    requires c.w > 0
    ensures s.Fits(c)
  {
    Sender(seq(c.w, _ => []), seq(c.w, _ => 0), seq(c.w, _ => 0), seq(c.w, _ => false),
           LINK_START_SEQ, LINK_START_SEQ, LINK_START_SEQ, None, 0)
  }

  function FreshReceiver(c: Config): (r: Receiver)
    requires c.w > 0
    ensures r.Fits(c)
  {
    Receiver(seq(c.w, _ => Empty), 0, LINK_START_SEQ, LINK_START_SEQ, EMPTY_INBOX, [])
  }

  // ---------------------------------------------------------------- what has been packed

  /** All packets ever packed on a link, their nonces, and the messages they came from. */
  datatype History = History(pkts: seq<Packet>, nonces: seq<Nonce>, submitted: seq<Message>) {
    ghost predicate Valid(c: Config) {
      |pkts| == |nonces| && AllFitting(submitted, c.room)
    }
  }

  const NO_HISTORY := History([], [], [])

  /** The XOR of nonces. */
  ghost function Digest(nonces: seq<Nonce>): Nonce {
    if nonces == [] then 0 else Xor(nonces[|nonces| - 1], Digest(nonces[..|nonces| - 1]))
  }

  /** A later history only adds packets. */
  ghost predicate Extends(a: History, b: History) { a.pkts <= b.pkts && a.nonces <= b.nonces }
}
