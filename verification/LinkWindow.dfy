/** The state of an intrusion-tolerant link as the daemon keeps it, ring buffers changed in place;
    every handler is shown to do what the functions on senders and receivers say. */
module LinkWindow {
  import opened Wrappers
  import opened Fragments
  import opened ItLink
  import opened LinkReset
  import opened Recovery

  lemma PackAllStep(s: Sender, c: Config, rand: nat -> Nonce)
    requires s.Fits(c) && s.message.Some? && s.head - s.tail < c.w
    ensures PackAll(s, c, rand) == PackAll(PackOne(s, c, rand(s.head)), c, rand)
  {
    hide PackOne;
  }

  lemma PackAllDone(s: Sender, c: Config, rand: nat -> Nonce)
    requires s.Fits(c) && !(s.message.Some? && s.head - s.tail < c.w)
    ensures PackAll(s, c, rand) == s
  {}

  function Numbers(first: nat, end: nat): seq<nat>
    requires first <= end
  {
    seq(end - first, i requires 0 <= i < end - first => first + i)
  }

  /** Packing does not look at what has been let out. */
  lemma {:induction false} PackAllAside(s: Sender, c: Config, rand: nat -> Nonce, n: nat)
    requires s.Fits(c)
    ensures PackAll(s.(tcpHead := n), c, rand) == PackAll(s, c, rand).(tcpHead := n)
    decreases s.tail + c.w - s.head
  {
    hide Encode, Fill, Slot, Xor;
    if s.head - s.tail < c.w && s.message.Some? {
      PackAllAside(PackOne(s, c, rand(s.head)), c, rand, n);
    }
  }

  lemma RetransmitNext(s: Sender, c: Config, due: nat -> bool, i: nat, budget: nat)
    requires s.Fits(c) && i < s.tcpHead && budget > 0
    ensures Retransmit(s, c, due, i, budget) ==
            if s.nacked[Slot(i, c.w)] && due(i) then
              var x := Retransmit(s.(nacked := s.nacked[Slot(i, c.w) := false]), c, due, i + 1, budget - 1);
              (x.0, [i] + x.1)
            else Retransmit(s, c, due, i + 1, budget)
  {
    hide Slot;
  }

  lemma RetransmitDone(s: Sender, c: Config, due: nat -> bool, i: nat, budget: nat)
    requires s.Fits(c) && (i >= s.tcpHead || budget == 0)
    ensures Retransmit(s, c, due, i, budget) == (s, [])
  {}

  class LinkState {
    const c: Config
    const packets: array<Packet>
    const nonces: array<Nonce>
    const digests: array<Nonce>
    const nacked: array<bool>
    var head: nat
    var tail: nat
    var tcpHead: nat
    var message: Option<Message>
    var taken: nat
    const cells: array<Cell>
    var aruDigest: Nonce
    var inHead: nat
    var inTail: nat
    var inbox: Inbox
    var early: seq<Early>

    /** The arrays are the rings of this link and of nothing else. */
    ghost predicate Shaped() {
      && c.w > 0 && packets.Length == nonces.Length == digests.Length == nacked.Length == cells.Length == c.w
      && nonces != digests
      && (packets as object) !in {nonces as object, digests, nacked, cells}
      && (nacked as object) !in {nonces as object, digests, cells} && (cells as object) !in {nonces as object, digests}
    }

    ghost predicate Valid()
      reads this
    {
      && Shaped() && head >= LINK_START_SEQ
      && (message.Some? ==> taken <= |message.value| && FitsPlaces(message.value, taken, c.room))
    }

    ghost function Out(): (s: Sender)
      reads this, packets, nonces, digests, nacked
      requires Valid()
      ensures s.Fits(c)
    {
      Sender(packets[..], nonces[..], digests[..], nacked[..], head, tail, tcpHead, message, taken)
    }

    ghost function In(): (r: Receiver)
      reads this, cells
      requires Valid()
      ensures r.Fits(c)
    {
      Receiver(cells[..], aruDigest, inHead, inTail, inbox, early)
    }

    constructor (config: Config)
      requires config.w > 0
      ensures c == config && Valid() && Out() == FreshSender(config) && In() == FreshReceiver(config)
      ensures fresh(packets) && fresh(nonces) && fresh(digests) && fresh(nacked) && fresh(cells)
    {
      c := config;
      packets := new Packet[config.w](_ => []);
      nonces := new Nonce[config.w](_ => 0);
      digests := new Nonce[config.w](_ => 0);
      nacked := new bool[config.w](_ => false);
      cells := new Cell[config.w](_ => Empty);
      head, tail, tcpHead, message, taken := LINK_START_SEQ, LINK_START_SEQ, LINK_START_SEQ, None, 0;
      aruDigest, inHead, inTail, inbox, early := 0, LINK_START_SEQ, LINK_START_SEQ, EMPTY_INBOX, [];
    }

    /** One place of the outgoing window. */
    method PutPacket(p: Packet, nonce: Nonce)
      requires Valid()
      modifies this`head, packets, nonces, digests, nacked
      ensures Valid() && Out() == Push(old(Out()), c, p, nonce) && In() == old(In())
    {
      hide Slot, Xor;
      var k := Slot(head, c.w);
      packets[k] := p;
      nonces[k] := nonce;
      nacked[k] := false;
      digests[k] := Xor(nonce, digests[Slot(head - 1, c.w)]);
      head := head + 1;
      assert packets[..] == old(packets[..])[k := p] && nonces[..] == old(nonces[..])[k := nonce];
      assert nacked[..] == old(nacked[..])[k := false] && digests[..] == old(digests[..])[k := digests[k]];
    }

    /** Pack_Fragments_Into_Packets_IT. */
    method PackFragments(rand: nat -> Nonce)
      requires Valid()
      modifies this`head, this`message, this`taken, packets, nonces, digests, nacked
      ensures Valid() && Out() == PackAll(old(Out()), c, rand) && In() == old(In())
    {
      while head - tail < c.w && message.Some?
        invariant Valid() && PackAll(Out(), c, rand) == PackAll(old(Out()), c, rand) && In() == old(In())
        decreases tail + c.w - head
      {
        hide *;
        ghost var before := Out();
        OutIs();
        PackAllStep(before, c, rand);
        PackSome(rand(head));
        OutIs();
      }
      OutIs();
      PackAllDone(Out(), c, rand);
    }

    lemma OutIs()
      requires Valid()
      ensures var s := Out();
              s.head == head && s.tail == tail && s.message == message && s.taken == taken && s.tcpHead == tcpHead
      ensures message.Some? ==> taken <= |message.value|
    {}

    /** One packet of the pending message. */
    method PackSome(nonce: Nonce)
      requires Valid() && message.Some? && Out().message.Some?
      modifies this`head, this`message, this`taken, packets, nonces, digests, nacked
      ensures Valid() && Out() == PackOne(old(Out()), c, nonce) && In() == old(In()) && head == old(head) + 1
    {
      hide Push, Slot, Encode, Fill;
      var p, next, _ := PackPacket(message.value, taken, c.room);
      PutPacket(p, nonce);
      if next >= |message.value| { message := None; }
      taken := next;
    }

    /** The bytes of a message, added up in 16 bits. */
    method SizeOf(m: Message) returns (size: nat)
      ensures size == Total(m) % 0x1_0000
    {
      size := 0;
      var i := 0;
      while i < |m|
        invariant 0 <= i <= |m| && size == Total(m[..i]) % 0x1_0000
      {
        assert m[..i + 1][..i] == m[..i];
        size := (size + |m[i]|) % 0x1_0000;
        i := i + 1;
      }
      assert m[..|m|] == m;
    }

    /** Let out what the congestion window allows. */
    method LetOut(cwnd: nat) returns (sent: seq<nat>)
      requires Valid()
      modifies this`tcpHead
      ensures Valid() && Out() == old(Out()).(tcpHead := Opened(old(Out()), cwnd)) && In() == old(In())
      ensures tcpHead >= old(tcpHead) && sent == Numbers(old(tcpHead), tcpHead)
    {
      sent := [];
      var end := if head < tail + cwnd then head else tail + cwnd;
      ghost var first := tcpHead;
      while tcpHead < end
        invariant Valid() && first <= tcpHead && (tcpHead <= end || tcpHead == first)
        invariant Out() == old(Out()).(tcpHead := tcpHead) && In() == old(In())
        invariant sent == Numbers(first, tcpHead)
      {
        sent := sent + [tcpHead];
        tcpHead := tcpHead + 1;
      }
    }

    /** Forward_Intru_Tol_Data. */
    method ForwardData(m: Message, rand: nat -> Nonce, cwnd: nat) returns (accepted: bool, sent: seq<nat>)
      requires Valid() && FitsPlaces(m, 0, c.room)
      modifies this`head, this`tcpHead, this`message, this`taken, packets, nonces, digests, nacked
      ensures Valid() && In() == old(In()) && accepted == !Refused(old(Out()), c, m)
      ensures accepted <==> old(message).None? && Total(m) % 65536 <= 45 * (c.room - 4)
      ensures var s := Forward(old(Out()), c, m, rand);
              Out() == if accepted then s.(tcpHead := Opened(s, cwnd)) else s
      ensures tcpHead >= old(tcpHead) && sent == Numbers(old(tcpHead), tcpHead)
    {
      hide PackAll, Total;
      var size := SizeOf(m);
      if message.Some? || size + MAX_PACKETS * (MAX_PACKET_SIZE - c.room + HEADER) > MAX_MESSAGE_SIZE {
        return false, [];
      }
      message, taken := Some(m), 0;
      PackFragments(rand);
      sent := LetOut(cwnd);
      return true, sent;
    }

    /** The ARU part of Process_IT_Ack: what the moved tail allows is let out before more is packed. */
    method ProcessAru(aru: nat, digest: Nonce, rand: nat -> Nonce, cwnd: nat) returns (believed: bool, sent: seq<nat>)
      requires Valid()
      modifies this`head, this`tail, this`tcpHead, this`message, this`taken, packets, nonces, digests, nacked
      ensures Valid() && In() == old(In())
      ensures var (b, s) := TakeAru(old(Out()), c, aru, digest, rand);
              && believed == b
              && Out() == if b && old(tail) <= aru < old(tcpHead)
                          then s.(tcpHead := Opened(old(Out()).(tail := aru + 1), cwnd)) else s
      ensures tcpHead >= old(tcpHead) && sent == Numbers(old(tcpHead), tcpHead)
    {
      hide PackAll, Slot;
      sent := [];
      if tail <= aru < tcpHead {
        if digests[Slot(aru, c.w)] != digest { return false, []; }
        tail := aru + 1;
        ghost var s := Out();
        sent := LetOut(cwnd);
        PackFragments(rand);
        PackAllAside(s, c, rand, Opened(s, cwnd));
      }
      return true, sent;
    }

    /** The NACK part. */
    method ProcessNacks(nacks: seq<nat>)
      requires Valid()
      modifies nacked
      ensures Valid() && Out() == MarkNacks(old(Out()), c, nacks) && In() == old(In())
    {
      var k := 0;
      assert nacks[..0] == [];
      while k < |nacks|
        invariant 0 <= k <= |nacks| && Out() == MarkNacks(old(Out()), c, nacks[..k]) && In() == old(In())
      {
        hide Slot;
        assert nacks[..k + 1][..k] == nacks[..k];
        ghost var before := Out();
        ghost var marks := nacked[..];
        if tail <= nacks[k] < tcpHead {
          nacked[Slot(nacks[k], c.w)] := true;
          assert nacked[..] == marks[Slot(nacks[k], c.w) := true];
        }
        assert Out() == before.(nacked := nacked[..]);
        k := k + 1;
      }
      assert nacks[..|nacks|] == nacks;
    }

    /** One number that is asked for and due. */
    method ClearMark(i: nat)
      requires Valid()
      modifies nacked
      ensures Valid() && Out() == old(Out()).(nacked := old(Out()).nacked[Slot(i, c.w) := false]) && In() == old(In())
    {
      hide Slot;
      nacked[Slot(i, c.w)] := false;
      assert nacked[..] == old(nacked[..])[Slot(i, c.w) := false];
    }

    /** Handle_IT_Retransm; `due` says of which numbers the resend time has come. */
    method RetransmitNacked(due: nat -> bool, budget: nat) returns (sent: seq<nat>)
      requires Valid()
      modifies nacked
      ensures Valid() && (Out(), sent) == Retransmit(old(Out()), c, due, tail, budget) && In() == old(In())
    {
      hide Slot, Retransmit;
      sent := [];
      var i, left := tail, budget;
      assert [] + Retransmit(Out(), c, due, i, left).1 == Retransmit(Out(), c, due, i, left).1;
      while i < tcpHead && left > 0
        invariant Valid() && In() == old(In())
        invariant var x := Retransmit(Out(), c, due, i, left);
                  (x.0, sent + x.1) == Retransmit(old(Out()), c, due, tail, budget)
        decreases tcpHead - i
      {
        RetransmitNext(Out(), c, due, i, left);
        if nacked[Slot(i, c.w)] && due(i) {
          ghost var rest := Retransmit(Out(), c, due, i, left).1[1..];
          ClearMark(i);
          assert sent + ([i] + rest) == (sent + [i]) + rest;
          sent := sent + [i];
          left := left - 1;
        }
        i := i + 1;
      }
      RetransmitDone(Out(), c, due, i, left);
      assert sent + [] == sent;
    }

    /** Add_IT_Nacks; `due` says of which numbers the time to ask has come. */
    method NameMissing(due: nat -> bool, cap: nat) returns (ns: seq<nat>)
      requires Valid()
      ensures ns == Missing(In(), c, due, inTail, cap)
    {
      ns := [];
      var i, left := inTail, cap;
      while i < inHead && left > 0
        invariant ns + Missing(In(), c, due, i, left) == Missing(In(), c, due, inTail, cap)
        decreases inHead - i
      {
        hide Slot;
        if cells[Slot(i, c.w)].Nack? && due(i) {
          assert ns + ([i] + Missing(In(), c, due, i + 1, left - 1))
                 == (ns + [i]) + Missing(In(), c, due, i + 1, left - 1);
          ns := ns + [i];
          left := left - 1;
        }
        i := i + 1;
      }
      assert ns + [] == ns;
    }

    /** Hand a packet to the ordered reassembly. */
    method TakePacket(p: Packet)
      requires Valid()
      modifies this`inbox
      ensures inbox == Consume(old(inbox), p)
    {
      hide Build;
      var taken, m := BuildMessage(inbox.partial, p);
      match taken
      case Ready => inbox := Inbox(FRESH, inbox.delivered + [m.frags], inbox.broken);
      case NotReady => inbox := inbox.(partial := m);
      case _ => inbox := inbox.(partial := m, broken := true);
    }

    method MarkUpTo(upto: nat)
      requires Valid()
      modifies this`inHead, cells
      ensures Valid() && In() == MarkGaps(old(In()), c, upto) && Out() == old(Out())
    {
      while inHead < upto
        invariant Valid() && MarkGaps(In(), c, upto) == MarkGaps(old(In()), c, upto) && Out() == old(Out())
        decreases upto - inHead
      {
        hide Slot;
        ghost var before, was := In(), cells[..];
        cells[Slot(inHead, c.w)] := Nack;
        assert cells[..] == was[Slot(inHead, c.w) := Nack];
        inHead := inHead + 1;
        assert In() == before.(cells := cells[..], head := inHead);
      }
    }

    method StorePacket(seqNo: nat, nonce: Nonce, pkt: Packet)
      requires Valid()
      modifies this`inHead, cells
      ensures Valid() && In() == Store(old(In()), c, seqNo, nonce, pkt) && Out() == old(Out())
    {
      hide Slot, MarkGaps;
      cells[Slot(seqNo, c.w)] := Recvd(pkt, nonce);
      assert cells[..] == old(cells[..])[Slot(seqNo, c.w) := Recvd(pkt, nonce)];
      if seqNo >= inHead {
        MarkUpTo(seqNo);
        inHead := inHead + 1;
      }
    }

    /** Single-packet messages with ordering off. */
    method HandUpAlone(seqNo: nat, pkt: Packet)
      requires Valid()
      modifies this`inbox, this`early
      ensures Valid() && In() == HandUp(old(In()), c, seqNo, pkt) && Out() == old(Out())
    {
      hide Build, AtOnce;
      if AtOnce(c, pkt) {
        var taken, m := BuildMessage(FRESH, pkt);
        if taken.Ready? { early := early + [Early(seqNo, m.frags)]; } else { inbox := inbox.(broken := true); }
      }
    }

    /** Move the ARU over the cell at the tail. */
    method MoveOne()
      requires Valid() && cells[Slot(inTail, c.w)].Recvd?
      modifies this`inTail, this`aruDigest, this`inbox, cells
      ensures Valid() && old(In().cells[Slot(inTail, c.w)].Recvd?) && In() == DrainOne(old(In()), c)
      ensures Out() == old(Out())
    {
      hide Slot, Consume, CountRecvd, Xor, InTurn;
      var k := Slot(inTail, c.w);
      var cell := cells[k];
      aruDigest := Xor(aruDigest, cell.nonce);
      inTail := inTail + 1;
      if InTurn(c, cell.pkt) { TakePacket(cell.pkt); }
      cells[k] := Empty;
      assert cells[..] == old(cells[..])[k := Empty];
    }

    method MoveAru()
      requires Valid()
      modifies this`inTail, this`aruDigest, this`inbox, cells
      ensures Valid() && In() == Drain(old(In()), c) && Out() == old(Out())
    {
      while cells[Slot(inTail, c.w)].Recvd?
        invariant Valid() && Drain(In(), c) == Drain(old(In()), c) && Out() == old(Out())
        decreases CountRecvd(cells[..])
      {
        hide Slot, DrainOne, CountRecvd;
        MoveOne();
      }
    }

    /** The data part of Process_IT_Ack. */
    method AcceptData(seqNo: nat, nonce: Nonce, pkt: Packet) returns (fate: Fate)
      requires Valid()
      modifies this`inHead, this`inTail, this`aruDigest, this`inbox, this`early, cells
      ensures Valid() && (fate, In()) == Accept(old(In()), c, seqNo, nonce, pkt) && Out() == old(Out())
    {
      hide Slot, Store, HandUp, Drain;
      if seqNo < inTail { return Old; }
      if seqNo >= inTail + c.w { return BeyondWindow; }
      if cells[Slot(seqNo, c.w)].Recvd? { return Duplicate; }
      StorePacket(seqNo, nonce, pkt);
      HandUpAlone(seqNo, pkt);
      MoveAru();
      return Stored;
    }

    /** The inbound half of Incarnation_Change, which also clears outbound digests. */
    method DropInbound()
      requires Valid()
      modifies this`inHead, this`inTail, this`aruDigest, this`inbox, this`early, cells, digests
      ensures Valid() && In() == ClearInbound(old(In()), c)
      ensures Out() == old(Out()).(digests := Cleared(old(Out()).digests, old(inTail), old(inHead))[0 := 0])
    {
      var i, end := inTail, inHead;
      while i < end
        invariant Valid() && unchanged(this) && unchanged(packets, nonces, nacked)
        invariant ClearCells(cells[..], i, end) == ClearCells(old(cells[..]), inTail, end)
        invariant Cleared(digests[..], i, end) == Cleared(old(digests[..]), inTail, end)
      {
        hide Slot;
        ghost var was, sums := cells[..], digests[..];
        digests[Slot(i, c.w)] := 0;
        cells[Slot(i, c.w)] := Empty;
        assert cells[..] == was[Slot(i, c.w) := Empty] && digests[..] == sums[Slot(i, c.w) := 0];
        i := i + 1;
      }
      assert cells[..] == ClearCells(old(cells[..]), old(inTail), old(inHead));
      hide Slot, Cleared, ClearCells;
      inbox, early := EMPTY_INBOX, [];
      inTail, inHead := LINK_START_SEQ, LINK_START_SEQ;
      ghost var sums := digests[..];
      digests[0] := 0;
      assert digests[..] == sums[0 := 0];
      aruDigest := 0;
    }

    /** The packets to be put in again: those of the window from the first that begins a message. */
    method CopyWindow() returns (kept: seq<Packet>)
      requires Valid() && tail <= head
      ensures kept == Copied(Out(), c, SkipTo(Out(), c, tail))
    {
      var i := tail;
      while i < head && !Begins(packets[Slot(i, c.w)])
        invariant tail <= i <= head && SkipTo(Out(), c, i) == SkipTo(Out(), c, tail)
      {
        hide Slot, Begins;
        i := i + 1;
      }
      ghost var first := i;
      kept := [];
      while i < head
        invariant first <= i <= head && kept + Copied(Out(), c, i) == Copied(Out(), c, first)
      {
        hide Slot;
        assert kept + ([packets[Slot(i, c.w)]] + Copied(Out(), c, i + 1))
               == (kept + [packets[Slot(i, c.w)]]) + Copied(Out(), c, i + 1);
        kept := kept + [packets[Slot(i, c.w)]];
        i := i + 1;
      }
      assert kept + [] == kept;
    }

    method PutAgain(kept: seq<Packet>, rand: nat -> Nonce)
      requires Valid()
      modifies this`head, packets, nonces, digests, nacked
      ensures Valid() && Out() == PushAll(old(Out()), c, kept, rand) && In() == old(In())
    {
      var k := 0;
      while k < |kept|
        invariant 0 <= k <= |kept| && Valid() && In() == old(In())
        invariant PushAll(Out(), c, kept[k..], rand) == PushAll(old(Out()), c, kept, rand)
      {
        hide Push;
        assert kept[k..][1..] == kept[k + 1..];
        PutPacket(kept[k], rand(head));
        k := k + 1;
      }
    }

    /** Incarnation_Change. */
    method ChangeIncarnation(reintroduce: bool, rand: nat -> Nonce)
      requires Valid() && tail <= head
      modifies this, packets, nonces, digests, nacked, cells
      ensures Valid() && In() == ClearInbound(old(In()), c)
      ensures Out() == if reintroduce then Reset(old(Out()), c, old(inTail), old(inHead), rand)
                       else Discard(old(Out()), c, old(inTail), old(inHead))
    {
      hide SkipTo, Copied, PushAll, PackAll, Cleared, ClearInbound;
      var kept := CopyWindow();
      DropInbound();
      if !reintroduce {
        tail, head, tcpHead := LINK_START_SEQ, LINK_START_SEQ, LINK_START_SEQ;
        message, taken := None, 0;
        return;
      }
      tail, head, tcpHead := LINK_START_SEQ, LINK_START_SEQ, LINK_START_SEQ;
      PutAgain(kept, rand);
      tcpHead := FirstTcp(head);
      PackFragments(rand);
    }
  }
}
