/** A neighbour comes back under a new incarnation: what was packed and not acknowledged is
    renumbered from the start, from the first packet that begins a message. */
module LinkReset {
  import opened Wrappers
  import opened Fragments
  import opened ItLink
  import opened SenderSide
  import opened ReceiverSide
  import opened Delivery

  /** The number of the first fragment in a packet. */
  function FirstIndex(p: Packet): nat {
    match ScanFrom(p, Scan(|p|, 0, 0, 0, map[]))
    case Scanned(s) => s.next + 1
    case ScanFailed(_, _) => 0
  }

  predicate Begins(p: Packet) { FirstIndex(p) == 1 }

  /** The first packet from number `i` on that begins a message, or the head. */
  function SkipTo(s: Sender, c: Config, i: nat): (k: nat)
    requires s.Fits(c) && i <= s.head
    ensures i <= k <= s.head
    decreases s.head - i
  {
    if i < s.head && !Begins(s.packets[Slot(i, c.w)]) then SkipTo(s, c, i + 1) else i
  }

  /** The packets of the window from number `i` on. */
  function Copied(s: Sender, c: Config, i: nat): seq<Packet>
    requires s.Fits(c) && i <= s.head
    decreases s.head - i
  {
    if i == s.head then [] else [s.packets[Slot(i, c.w)]] + Copied(s, c, i + 1)
  }

  function PushAll(s: Sender, c: Config, ps: seq<Packet>, rand: nat -> Nonce): (r: Sender)
    requires s.Fits(c)
    ensures r.Fits(c) && r.head == s.head + |ps| && r.tail == s.tail && r.tcpHead == s.tcpHead
    ensures r.message == s.message && r.taken == s.taken
    decreases |ps|
  {
    if ps == [] then s else PushAll(Push(s, c, ps[0], rand(s.head)), c, ps[1..], rand)
  }

  /** Clearing the inbound window also clears these entries of the outbound digests. */
  function Cleared(digests: seq<Nonce>, lo: nat, hi: nat): (r: seq<Nonce>)
    requires |digests| > 0
    ensures |r| == |digests|
    decreases hi - lo
  {
    if lo >= hi then digests else Cleared(digests[Slot(lo, |digests|) := 0], lo + 1, hi)
  }

  /** Only one of the packets put in again is let out at first. */
  function FirstTcp(head: nat): nat {
    if head < LINK_START_SEQ + 1 then head else LINK_START_SEQ + 1
  }

  /** The outbound half of Incarnation_Change with reintroduction; `lo` and `hi` delimit the
      inbound window that is dropped. */
  function Reset(s: Sender, c: Config, lo: nat, hi: nat, rand: nat -> Nonce): (r: Sender)
    requires s.Fits(c) && s.tail <= s.head
    ensures r.Fits(c)
  {
    var kept := Copied(s, c, SkipTo(s, c, s.tail));
    var base := s.(digests := Cleared(s.digests, lo, hi)[0 := 0],
                   head := LINK_START_SEQ, tail := LINK_START_SEQ, tcpHead := LINK_START_SEQ);
    var again := PushAll(base, c, kept, rand);
    PackAll(again.(tcpHead := FirstTcp(again.head)), c, rand)
  }

  /** The same without reintroduction: nothing is kept. */
  function Discard(s: Sender, c: Config, lo: nat, hi: nat): (r: Sender)
    requires s.Fits(c)
    ensures r.Fits(c)
  {
    s.(digests := Cleared(s.digests, lo, hi)[0 := 0], message := None, taken := 0,
       head := LINK_START_SEQ, tail := LINK_START_SEQ, tcpHead := LINK_START_SEQ)
  }

  function ClearCells(cells: seq<Cell>, lo: nat, hi: nat): (r: seq<Cell>)
    requires |cells| > 0
    ensures |r| == |cells|
    decreases hi - lo
  {
    if lo >= hi then cells else ClearCells(cells[Slot(lo, |cells|) := Empty], lo + 1, hi)
  }

  /** The inbound half: the cells of the window are emptied, a message in parts is dropped. */
  function ClearInbound(r: Receiver, c: Config): (q: Receiver)
    requires r.Fits(c)
    ensures q.Fits(c)
  {
    Receiver(ClearCells(r.cells, r.tail, r.head), 0, LINK_START_SEQ, LINK_START_SEQ, EMPTY_INBOX, [])
  }

  // ---------------------------------------------------------------- where messages begin

  lemma FirstIs(m: Message, i: nat, j: nat, room: nat)
    requires i < j <= |m| && Fitting(m, room)
    ensures FirstIndex(Encode(m, i, j)) == i + 1
  {
    ScanEnds(m, i, j, 0);
    ScanAll(m, i, j, j, room, 0);
    hide Encode, ScanFrom, ScanAt, Fitting;
  }

  /** Of a message's packets only the first begins it. */
  lemma MessageBegins(m: Message, k: nat, room: nat)
    requires Fitting(m, room) && m != [] && k < |Packets(m, 0, room)|
    ensures Begins(Packets(m, 0, room)[k]) <==> k == 0
  {
    hide Begins, Packets, Encode, Fill, Fitting;
    PacketAt(m, 0, k, room);
    var i := Cut(m, 0, k, room);
    if k > 0 { PacketAt(m, 0, k - 1, room); }
    FirstBegins(m, i, Fill(m, i, 0, room), room);
  }

  lemma FirstBegins(m: Message, i: nat, j: nat, room: nat)
    requires i < j <= |m| && Fitting(m, room)
    ensures Begins(Encode(m, i, j)) <==> i == 0
  {
    FirstIs(m, i, j, room);
  }

  /** Packets of the first `k` messages. */
  ghost function Bound(ms: seq<Message>, k: nat, room: nat): nat
    requires k <= |ms| && AllFitting(ms, room)
  {
    |AllPackets(ms[..k], room)|
  }

  lemma BoundFront(ms: seq<Message>, k: nat, room: nat)
    requires k < |ms| && AllFitting(ms, room)
    ensures Bound(ms, k, room) == Bound(ms[..|ms| - 1], k, room)
  {
    assert ms[..k] == ms[..|ms| - 1][..k];
  }

  lemma BoundAll(ms: seq<Message>, room: nat)
    requires AllFitting(ms, room)
    ensures Bound(ms, |ms|, room) == |AllPackets(ms, room)|
  {
    assert ms[..|ms|] == ms;
  }

  /** The first message none of whose packets are among the first `n`. */
  ghost function FirstWhole(ms: seq<Message>, n: nat, room: nat): (k: nat)
    requires AllFitting(ms, room)
    ensures k <= |ms|
  {
    if ms == [] || |AllPackets(ms[..|ms| - 1], room)| < n then |ms| else FirstWhole(ms[..|ms| - 1], n, room)
  }

  lemma {:induction false} FirstWholeIs(ms: seq<Message>, n: nat, room: nat)
    requires AllFitting(ms, room) && n <= |AllPackets(ms, room)|
    ensures var k := FirstWhole(ms, n, room);
            n <= Bound(ms, k, room) && (k > 0 ==> Bound(ms, k - 1, room) < n)
  {
    BoundAll(ms, room);
    if ms != [] {
      var front := ms[..|ms| - 1];
      BoundAll(front, room);
      BoundFront(ms, |ms| - 1, room);
      if |AllPackets(front, room)| >= n {
        FirstWholeIs(front, n, room);
        var k := FirstWhole(front, n, room);
        BoundFront(ms, k, room);
        if k > 0 { BoundFront(ms, k - 1, room); }
      }
    }
  }

  ghost predicate NoneEmpty(ms: seq<Message>) { forall i :: 0 <= i < |ms| ==> ms[i] != [] }

  /** From packet `n` up to packet `p` none begins a message, and `p`, if there is one, does. */
  ghost predicate NextBegin(all: seq<Packet>, n: nat, p: nat, more: bool) {
    n <= p <= |all| && (forall q :: n <= q < p ==> !Begins(all[q])) && (more ==> p < |all| && Begins(all[p]))
  }

  lemma LastMessage(a: seq<Packet>, m: Message, n: nat, room: nat)
    requires Fitting(m, room) && m != [] && |a| < n <= |a| + |Packets(m, 0, room)|
    ensures NextBegin(a + Packets(m, 0, room), n, |a| + |Packets(m, 0, room)|, false)
  {
    var ps := Packets(m, 0, room);
    hide Packets, Begins, Fitting;
    forall q | n <= q < |a| + |ps| ensures !Begins((a + ps)[q]) { MessageBegins(m, q - |a|, room); }
  }

  lemma EarlierMessage(a: seq<Packet>, m: Message, n: nat, p: nat, more: bool, room: nat)
    requires Fitting(m, room) && m != [] && NextBegin(a, n, p, more) && (!more ==> p == |a|)
    ensures NextBegin(a + Packets(m, 0, room), n, p, true)
  {
    hide Packets, Begins, Fitting;
    MessageBegins(m, 0, room);
  }

  /** Between the first `n` packets and the first message not started among them, no packet begins
      a message; the next one does. */
  lemma {:induction false} BeginsFirst(ms: seq<Message>, n: nat, room: nat)
    requires AllFitting(ms, room) && NoneEmpty(ms) && n <= |AllPackets(ms, room)|
    ensures var k := FirstWhole(ms, n, room); NextBegin(AllPackets(ms, room), n, Bound(ms, k, room), k < |ms|)
    ensures FirstWhole(ms, n, room) == |ms| ==> Bound(ms, |ms|, room) == |AllPackets(ms, room)|
  {
    BoundAll(ms, room);
    if ms != [] {
      var front, m := ms[..|ms| - 1], ms[|ms| - 1];
      var a := AllPackets(front, room);
      BoundAll(front, room);
      var k := FirstWhole(ms, n, room);
      if |a| < n {
        LastMessage(a, m, n, room);
      } else {
        BeginsFirst(front, n, room);
        BoundFront(ms, k, room);
        hide NextBegin;
        EarlierMessage(a, m, n, Bound(front, k, room), k < |front|, room);
      }
    }
  }

  // ---------------------------------------------------------------- the pending message

  /** Later fragments need no more packets. */
  lemma {:induction false} FewerPackets(m: Message, i: nat, j: nat, room: nat)
    requires i <= j <= |m| && Fitting(m, room)
    ensures |Packets(m, j, room)| <= |Packets(m, i, room)|
    decreases |Packets(m, i, room)|
  {
    assert Size(m, i, i) == 0;
    FillFits(m, i, i, room);
    var f, g := Fill(m, i, 0, room), Fill(m, j, 0, room);
    if f >= j { FillAhead(m, i, j, f, room); }
    if g < |m| { FewerPackets(m, f, g, room); }
  }

  lemma {:induction false} AtMostFragments(m: Message, i: nat, room: nat)
    requires i < |m| && Fitting(m, room)
    ensures |Packets(m, i, room)| <= |m| - i
    decreases |m| - i
  {
    ProgressIffFits(m, i, room);
    var f := Fill(m, i, 0, room);
    if f < |m| { AtMostFragments(m, f, room); }
  }

  lemma {:induction false} BoundGrows(ms: seq<Message>, j: nat, k: nat, room: nat)
    requires AllFitting(ms, room) && j <= k <= |ms|
    ensures Bound(ms, j, room) <= Bound(ms, k, room)
    decreases k
  {
    if j < k {
      BoundGrows(ms, j, k - 1, room);
      assert ms[..k][..k - 1] == ms[..k - 1];
    }
  }

  /** A message still being packed has its first packet in the window, or none of it has been
      packed: messages are shorter than the window, and the window is full. */
  lemma PendingStarts(s: Sender, h: History, c: Config)
    requires SenderRests(s, h, c) && NoneEmpty(h.submitted) && c.w > MAX_FRAGMENTS
    ensures AllFitting(h.submitted, c.room)
    ensures Bound(h.submitted, FirstWhole(h.submitted, s.tail - 1, c.room), c.room)
                <= s.head - 1 <= |AllPackets(h.submitted, c.room)|
  {
    var ms := h.submitted;
    assert h.pkts + Remaining(s, c) == AllPackets(ms, c.room);
    hide Packets, Fitting, RingsOk;
    var k := FirstWhole(ms, s.tail - 1, c.room);
    BoundAll(ms, c.room);
    if s.message.None? {
      BoundGrows(ms, k, |ms|, c.room);
    } else {
      var m := s.message.value;
      FewerPackets(m, 0, s.taken, c.room);
      AtMostFragments(m, 0, c.room);
      var n := |ms| - 1;
      assert |AllPackets(ms, c.room)| == |AllPackets(ms[..n], c.room)| + |Packets(m, 0, c.room)|;
      assert |AllPackets(ms[..n], c.room)| >= s.tail - 1;
      BoundGrows(ms[..n], k, n, c.room);
      BoundAll(ms[..n], c.room);
      BoundFront(ms, k, c.room);
    }
  }

  // ---------------------------------------------------------------- the new window

  lemma {:induction false} SkipIs(s: Sender, h: History, c: Config, i: nat, p: nat)
    requires SenderOk(s, h, c) && s.tail <= i <= p + 1 <= s.head
    requires forall q :: i - 1 <= q < p ==> !Begins(h.pkts[q])
    requires p < |h.pkts| ==> Begins(h.pkts[p])
    ensures SkipTo(s, c, i) == p + 1
    decreases s.head - i
  {
    hide Begins, Slot, SenderOk;
    SenderLength(s, h, c);
    if i < s.head { CellOf(s, h, c, i); }
    if i <= p { SkipIs(s, h, c, i + 1, p); }
  }

  lemma SenderLength(s: Sender, h: History, c: Config)
    requires SenderOk(s, h, c)
    ensures |h.pkts| == |h.nonces| == s.head - 1 && 1 <= s.tail <= s.tcpHead <= s.head <= s.tail + c.w && s.Fits(c)
    ensures c.Valid()
    ensures AllFitting(h.submitted, c.room)
  {
    hide RingsOk, PendingOk, StreamOk, Fitting;
  }

  lemma {:induction false} CopiedIs(s: Sender, h: History, c: Config, i: nat)
    requires SenderOk(s, h, c) && s.tail <= i <= s.head
    ensures i - 1 <= |h.pkts| && Copied(s, c, i) == h.pkts[i - 1..]
    decreases s.head - i
  {
    hide Slot, SenderOk;
    SenderLength(s, h, c);
    if i < s.head {
      CellOf(s, h, c, i);
      CopiedIs(s, h, c, i + 1);
      assert h.pkts[i - 1..] == [h.pkts[i - 1]] + h.pkts[i..];
    }
  }

  lemma {:induction false} AllSplit(ms: seq<Message>, k: nat, room: nat)
    requires AllFitting(ms, room) && k <= |ms|
    ensures AllFitting(ms[k..], room) && AllPackets(ms, room) == AllPackets(ms[..k], room) + AllPackets(ms[k..], room)
  {
    if k == |ms| {
      assert ms[..k] == ms;
    } else {
      var front, m := ms[..|ms| - 1], ms[|ms| - 1];
      assert AllPackets(ms, room) == AllPackets(front, room) + Packets(m, 0, room) && Fitting(m, room);
      AllSplit(front, k, room);
      hide *;
      assert front[..k] == ms[..k] && front[k..] + [m] == ms[k..];
      PacketsPush(front[k..], m, room);
      Regrouped(AllPackets(front[..k], room), AllPackets(front[k..], room), Packets(m, 0, room));
    }
  }

  lemma Regrouped(a: seq<Packet>, b: seq<Packet>, x: seq<Packet>)
    ensures (a + b) + x == a + (b + x)
  {}

  /** The rings once packets have been put in again one by one. */
  lemma {:induction false} PushAllRings(s: Sender, h: History, c: Config, ps: seq<Packet>, rand: nat -> Nonce)
    returns (g: History)
    requires c.Valid() && s.Fits(c) && WindowOk(s, c) && |h.pkts| == |h.nonces| == s.head - 1
    requires RingsOk(s, h, c) && s.head + |ps| <= s.tail + c.w
    ensures var r := PushAll(s, c, ps, rand);
            && |g.pkts| == |g.nonces| == r.head - 1 && WindowOk(r, c) && RingsOk(r, g, c)
            && g.pkts == h.pkts + ps && g.submitted == h.submitted
    decreases |ps|
  {
    hide RingsOk, Slot, Xor;
    if ps == [] {
      g := h;
    } else {
      PushRings(s, h, c, rand(s.head), ps[0]);
      g := PushAllRings(Push(s, c, ps[0], rand(s.head)), Added(h, ps[0], rand(s.head)), c, ps[1..], rand);
      assert h.pkts + [ps[0]] + ps[1..] == h.pkts + ps;
    }
  }

  lemma SlotZero(w: nat)
    requires w > 0
    ensures Slot(0, w) == 0
  {}

  lemma BaseRings(s: Sender, c: Config, base: Sender)
    requires c.Valid() && s.Fits(c) && base.Fits(c) && base.digests[0] == 0
    requires base.head == base.tail == base.tcpHead == LINK_START_SEQ
    ensures WindowOk(base, c) && RingsOk(base, NO_HISTORY, c)
  {
    SlotZero(c.w);
    hide Slot;
    var none: seq<Nonce> := [];
    assert none[..0] == none;
    forall n: nat {:trigger Slot(n, c.w)} | n <= 0 < n + c.w ensures base.digests[Slot(n, c.w)] == Digest(none[..n]) {}
  }

  /** The packets kept and the rest of the pending message are those of the messages kept. */
  lemma StreamKept(s: Sender, h: History, c: Config, k: nat, p: nat) returns (ms: seq<Message>)
    requires SenderRests(s, h, c) && k <= |h.submitted| && AllFitting(h.submitted, c.room)
    requires p == Bound(h.submitted, k, c.room) <= |h.pkts|
    ensures ms == h.submitted[k..] && AllFitting(ms, c.room)
    ensures h.pkts[p..] + Remaining(s, c) == AllPackets(ms, c.room)
    ensures s.message.Some? ==> ms != [] && ms[|ms| - 1] == h.submitted[|h.submitted| - 1]
  {
    ms := h.submitted[k..];
    AllSplit(h.submitted, k, c.room);
    assert h.pkts + Remaining(s, c) == AllPackets(h.submitted, c.room);
    var a, b, r := AllPackets(h.submitted[..k], c.room), AllPackets(ms, c.room), Remaining(s, c);
    assert s.message.Some? ==> |r| > 0;
    assert k == |h.submitted| ==> AllPackets(ms, c.room) == [];
    hide SenderRests, Remaining, AllPackets, Fitting, AllFitting;
    assert h.pkts == (h.pkts + r)[..|h.pkts|] && (a + b)[|a|..] == b;
    assert h.pkts[p..] + r == (h.pkts + r)[p..];
  }

  lemma PrefixBegins(pkts: seq<Packet>, rest: seq<Packet>, n: nat, p: nat, more: bool)
    requires NextBegin(pkts + rest, n, p, more) && p <= |pkts| && (!more ==> p == |pkts + rest|)
    ensures forall q :: n <= q < p ==> !Begins(pkts[q])
    ensures p < |pkts| ==> Begins(pkts[p])
  {
    hide Begins;
    forall q | n <= q < p ensures !Begins(pkts[q]) { assert (pkts + rest)[q] == pkts[q]; }
    if p < |pkts| { assert (pkts + rest)[p] == pkts[p]; }
  }

  /** Renumbering takes over exactly the packets from the first that begins a message. */
  lemma KeptFrom(s: Sender, h: History, c: Config) returns (k: nat, p: nat)
    requires SenderRests(s, h, c) && NoneEmpty(h.submitted) && c.w > MAX_FRAGMENTS
    ensures SenderOk(s, h, c) && s.Fits(c) && s.tail <= s.head && AllFitting(h.submitted, c.room)
    ensures k == FirstWhole(h.submitted, s.tail - 1, c.room) && p == Bound(h.submitted, k, c.room)
    ensures s.tail - 1 <= p <= |h.pkts| && Copied(s, c, SkipTo(s, c, s.tail)) == h.pkts[p..]
  {
    RestsOk(s, h, c);
    PendingStarts(s, h, c);
    var ms := h.submitted;
    hide *;
    k := FirstWhole(ms, s.tail - 1, c.room);
    p := Bound(ms, k, c.room);
    BeginsFirst(ms, s.tail - 1, c.room);
    AtLeast(AllPackets(ms, c.room), s.tail - 1, p, k < |ms|);
    var rest := RestIs(s, h, c);
    PrefixBegins(h.pkts, rest, s.tail - 1, p, k < |ms|);
    SkipIs(s, h, c, s.tail, p);
    CopiedIs(s, h, c, p + 1);
  }

  lemma RestsOk(s: Sender, h: History, c: Config)
    requires SenderRests(s, h, c)
    ensures SenderOk(s, h, c) && |h.pkts| == |h.nonces| == s.head - 1 && 1 <= s.tail <= s.head && s.Fits(c)
  {
    SenderLength(s, h, c);
    hide SenderOk;
  }

  lemma RestIs(s: Sender, h: History, c: Config) returns (rest: seq<Packet>)
    requires SenderOk(s, h, c)
    ensures AllFitting(h.submitted, c.room) && h.pkts + rest == AllPackets(h.submitted, c.room)
  {
    rest := Remaining(s, c);
    hide RingsOk, Packets, Fitting, AllPackets;
  }

  lemma AtLeast(all: seq<Packet>, n: nat, p: nat, more: bool)
    requires NextBegin(all, n, p, more)
    ensures n <= p <= |all|
  {}

  lemma AgainOk(s: Sender, h: History, c: Config, again: Sender, g: History, ms: seq<Message>)
    requires SenderRests(s, h, c) && again.Fits(c) && WindowOk(again, c) && |g.pkts| == |g.nonces| == again.head - 1
    requires RingsOk(again, g, c) && again.message == s.message && again.taken == s.taken
    requires AllFitting(ms, c.room) && g.pkts + Remaining(s, c) == AllPackets(ms, c.room)
    requires s.message.Some? ==> ms != [] && ms[|ms| - 1] == h.submitted[|h.submitted| - 1]
    requires again.tcpHead == 1
    ensures SenderOk(again.(tcpHead := FirstTcp(again.head)), g.(submitted := ms), c)
  {
    hide Slot, RingHolds, DigestsHold, AllPackets, Packets, Fitting;
  }

  ghost function Base(s: Sender, c: Config, lo: nat, hi: nat): (b: Sender)
    requires s.Fits(c)
    ensures b.Fits(c)
  {
    s.(digests := Cleared(s.digests, lo, hi)[0 := 0],
       head := LINK_START_SEQ, tail := LINK_START_SEQ, tcpHead := LINK_START_SEQ)
  }

  lemma ResetIs(s: Sender, c: Config, lo: nat, hi: nat, rand: nat -> Nonce, kept: seq<Packet>, again: Sender)
    requires s.Fits(c) && s.tail <= s.head && kept == Copied(s, c, SkipTo(s, c, s.tail))
    requires again == PushAll(Base(s, c, lo, hi), c, kept, rand)
    ensures again.Fits(c) && again.message == s.message && again.taken == s.taken && again.tcpHead == 1
    ensures Reset(s, c, lo, hi, rand) ==
            PackAll(again.(tcpHead := FirstTcp(again.head)), c, rand)
  {
    hide PackAll, PushAll, Cleared, Copied, SkipTo;
  }

  /** Reintroduction: the window now holds, in order and renumbered from the start, exactly the old
      unacknowledged packets from the first that begins a message, with digests to match, so that a
      fresh receiver can take all of it; what it sends are the messages from that one on. */
  lemma ResetOk(s: Sender, h: History, c: Config, lo: nat, hi: nat, rand: nat -> Nonce) returns (g: History, k: nat)
    requires SenderRests(s, h, c) && NoneEmpty(h.submitted) && c.w > MAX_FRAGMENTS
    ensures s.Fits(c) && s.tail <= s.head && AllFitting(h.submitted, c.room)
    ensures k == FirstWhole(h.submitted, s.tail - 1, c.room) && Bound(h.submitted, k, c.room) <= |h.pkts|
    ensures var r := Reset(s, c, lo, hi, rand);
            && SenderRests(r, g, c) && g.submitted == h.submitted[k..]
            && h.pkts[Bound(h.submitted, k, c.room)..] <= g.pkts
            && r.tail == 1
            && r.tcpHead == (if |h.pkts| == Bound(h.submitted, k, c.room) then 1 else 2)
  {
    hide *;
    var p: nat;
    k, p := KeptFrom(s, h, c);
    SenderLength(s, h, c);
    var base := Base(s, c, lo, hi);
    BaseIs(s, c, lo, hi);
    var kept := h.pkts[p..];
    var g1 := PushAllRings(base, NO_HISTORY, c, kept, rand);
    var again := PushAll(base, c, kept, rand);
    assert [] + kept == kept;
    ResetIs(s, c, lo, hi, rand, kept, again);
    var ms := StreamKept(s, h, c, k, p);
    AgainOk(s, h, c, again, g1, ms);
    g := PackAllOk(again.(tcpHead := FirstTcp(again.head)),
                   g1.(submitted := ms), c, rand);
    ResetRests(Reset(s, c, lo, hi, rand), g1, g, c, kept);
    FirstTcpIs(again.head);
  }

  lemma FirstTcpIs(head: nat)
    requires head >= 1
    ensures FirstTcp(head) == if head == 1 then 1 else 2
  {}

  lemma {:induction false} PushedUnmarked(s: Sender, c: Config, ps: seq<Packet>, rand: nat -> Nonce, n: nat)
    requires s.Fits(c) && s.tail <= n < s.head + |ps| <= s.tail + c.w
    requires n < s.head ==> !s.nacked[Slot(n, c.w)]
    ensures !PushAll(s, c, ps, rand).nacked[Slot(n, c.w)]
    decreases |ps|
  {
    hide Slot, Xor;
    if ps != [] {
      if n < s.head { SlotApart(n, s.head, c.w); }
      PushedUnmarked(Push(s, c, ps[0], rand(s.head)), c, ps[1..], rand, n);
    }
  }

  /** Nothing that is put in again counts as asked for. */
  lemma ResetUnmarked(s: Sender, c: Config, lo: nat, hi: nat, rand: nat -> Nonce, n: nat)
    requires s.Fits(c) && s.tail <= s.head <= s.tail + c.w && 1 <= n < Reset(s, c, lo, hi, rand).head
    ensures n < 1 + c.w && !Reset(s, c, lo, hi, rand).nacked[Slot(n, c.w)]
  {
    var base, kept := Base(s, c, lo, hi), Copied(s, c, SkipTo(s, c, s.tail));
    CopiedLength(s, c, SkipTo(s, c, s.tail));
    var again := PushAll(base, c, kept, rand);
    var let := again.(tcpHead := FirstTcp(again.head));
    assert base.head == base.tail == 1 && Reset(s, c, lo, hi, rand) == PackAll(let, c, rand);
    hide Reset, PushAll, PackAll, Copied, SkipTo, Base, Slot;
    if n < let.head {
      PushedUnmarked(base, c, kept, rand, n);
      KeptMark(let, c, rand, n);
    } else {
      NewUnmarked(let, c, rand, n);
    }
  }

  lemma {:induction false} CopiedLength(s: Sender, c: Config, i: nat)
    requires s.Fits(c) && i <= s.head
    ensures |Copied(s, c, i)| == s.head - i
    decreases s.head - i
  {
    if i < s.head { CopiedLength(s, c, i + 1); }
  }

  lemma BaseIs(s: Sender, c: Config, lo: nat, hi: nat)
    requires c.Valid() && s.Fits(c)
    ensures var b := Base(s, c, lo, hi);
            && b.head == b.tail == b.tcpHead == 1
            && |NO_HISTORY.pkts| == |NO_HISTORY.nonces| == 0 && NO_HISTORY.pkts == []
            && WindowOk(b, c) && RingsOk(b, NO_HISTORY, c)
  {
    hide WindowOk, RingsOk;
    BaseRings(s, c, Base(s, c, lo, hi));
  }

  lemma ResetRests(r: Sender, g1: History, g: History, c: Config, kept: seq<Packet>)
    requires SenderOk(r, g, c) && (r.message.Some? ==> r.head == r.tail + c.w) && g1.pkts == kept
    requires Extends(g1.(submitted := g.submitted), g)
    ensures SenderRests(r, g, c) && kept <= g.pkts
  {
    hide SenderOk;
  }

  // ---------------------------------------------------------------- the other halves

  lemma DiscardOk(s: Sender, c: Config, lo: nat, hi: nat)
    requires c.Valid() && s.Fits(c)
    ensures SenderRests(Discard(s, c, lo, hi), NO_HISTORY, c)
  {
    BaseRings(s, c, Discard(s, c, lo, hi));
    hide RingsOk, Cleared;
  }

  lemma {:induction false} ClearCellsIs(cells: seq<Cell>, lo: nat, hi: nat, k: nat)
    requires k < |cells| && (cells[k] == Empty || exists n: nat :: lo <= n < hi && Slot(n, |cells|) == k)
    ensures ClearCells(cells, lo, hi)[k] == Empty
    decreases hi - lo
  {
    hide Slot;
    if lo < hi { ClearCellsIs(cells[Slot(lo, |cells|) := Empty], lo + 1, hi, k); }
  }

  lemma SlotSmall(k: nat, w: nat)
    requires k < w
    ensures Slot(k, w) == k
  {}

  lemma {:induction false} InWindow(k: nat, tail: nat, w: nat) returns (n: nat)
    requires k < w
    ensures tail <= n < tail + w && Slot(n, w) == k
    decreases tail
  {
    hide Slot;
    if tail == 0 {
      SlotSmall(k, w);
      n := k;
    } else {
      n := InWindow(k, tail - 1, w);
      if n < tail {
        SlotRound(n, w);
        n := n + w;
      }
    }
  }

  /** Emptying just the cells of the window empties the whole ring. */
  lemma ClearInboundOk(r: Receiver, h: History, c: Config)
    requires c.Valid() && Filling(r, h, c)
    ensures Settled(ClearInbound(r, c), NO_HISTORY, c)
  {
    var q := ClearInbound(r, c);
    forall k: nat | k < c.w ensures q.cells[k] == Empty {
      var n := InWindow(k, r.tail, c.w);
      assert CellOk(r.cells[Slot(n, c.w)], n, r.head, h);
      hide Slot, ClearCells, TakenOk;
      ClearCellsIs(r.cells, r.tail, r.head, k);
    }
    hide Slot, ClearCells;
  }

  // ---------------------------------------------------------------- what can be lost

  lemma {:induction false} FeedMore(a: seq<Packet>, b: seq<Packet>)
    ensures FeedAll(a).delivered <= FeedAll(a + b).delivered
  {
    if b == [] {
      assert a + b == a;
    } else {
      var n := |b| - 1;
      assert a + b == a + b[..n] + [b[n]];
      FeedMore(a, b[..n]);
      FeedPush(a + b[..n], b[n]);
      hide FeedAll, Build;
    }
  }

  lemma FirstPart(pkts: seq<Packet>, rest: seq<Packet>, x: seq<Packet>, y: seq<Packet>, n: nat)
    requires pkts + rest == x + y && |x| <= n <= |pkts|
    ensures pkts[..n] == x + pkts[|x|..n]
  {
    assert pkts[..n] == (pkts + rest)[..n] == x + y[..n - |x|];
  }

  lemma KeptWhole(ms: seq<Message>, c: Config, more: seq<Packet>)
    requires AllFitting(ms, c.room) && AllSendable(ms, c)
    ensures InOrder(ms, c) <= FeedAll(Kept(AllPackets(ms, c.room) + more, c)).delivered
  {
    hide *;
    var all := AllPackets(ms, c.room);
    assert all[..|all|] == all;
    KeptPrefix(ms, c, |all|);
    KeptSplit(all, more, c);
    FeedMessages(InOrder(ms, c), c.room);
    FeedMore(Kept(all, c), Kept(more, c));
  }

  /** Once the packets of the first `j` messages have been taken, those have been handed up. */
  lemma TakenMessages(s: Sender, h: History, r: Receiver, c: Config, j: nat)
    requires SenderOk(s, h, c) && Settled(r, h, c) && AllSendable(h.submitted, c) && j <= |h.submitted|
    requires AllFitting(h.submitted, c.room) && Bound(h.submitted, j, c.room) <= r.tail - 1
    ensures InOrder(h.submitted[..j], c) <= r.inbox.delivered
  {
    var n, ms := r.tail - 1, h.submitted[..j];
    assert n <= |h.pkts| && r.inbox == FeedAll(Kept(h.pkts[..n], c)) by {
      hide FeedAll, Kept, Digest, CellsOk, EarlyOk;
    }
    assert AllFitting(ms, c.room) && AllSendable(ms, c) && |AllPackets(ms, c.room)| <= n;
    hide *;
    AllSplit(h.submitted, j, c.room);
    var rest := RestIs(s, h, c);
    var x := AllPackets(ms, c.room);
    FirstPart(h.pkts, rest, x, AllPackets(h.submitted[j..], c.room), n);
    KeptWhole(ms, c, h.pkts[|x|..n]);
  }
}
