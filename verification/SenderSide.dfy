/** What holds of a sender and of everything it has packed, and that every sending step keeps it. */
module SenderSide {
  import opened Wrappers
  import opened Fragments
  import opened ItLink

  /** The packets the pending message still has to be put into. */
  ghost function Remaining(s: Sender, c: Config): seq<Packet>
    requires s.message.Some? ==> Fitting(s.message.value, c.room) && s.taken <= |s.message.value|
  {
    if s.message.None? then [] else Packets(s.message.value, s.taken, c.room)
  }

  ghost predicate WindowOk(s: Sender, c: Config) {
    LINK_START_SEQ <= s.tail <= s.tcpHead <= s.head <= s.tail + c.w
  }

  /** The ring has entries lo..hi-1 of the log. */
  ghost predicate RingHolds<T(!new)>(ring: seq<T>, w: nat, lo: nat, hi: nat, log: seq<T>)
    requires 0 < w == |ring| && LINK_START_SEQ <= lo && hi - 1 <= |log|
  {
    forall n: nat {:trigger Slot(n, w)} :: lo <= n < hi ==> ring[Slot(n, w)] == log[n - 1]
  }

  lemma RingPush<T(!new)>(ring: seq<T>, w: nat, lo: nat, hi: nat, log: seq<T>, x: T)
    requires 0 < w == |ring| && LINK_START_SEQ <= lo <= hi < lo + w && hi - 1 == |log|
    requires RingHolds(ring, w, lo, hi, log)
    ensures RingHolds(ring[Slot(hi, w) := x], w, lo, hi + 1, log + [x])
  {
    hide Slot;
    forall n: nat {:trigger Slot(n, w)} | lo <= n < hi + 1
      ensures ring[Slot(hi, w) := x][Slot(n, w)] == (log + [x])[n - 1]
    {
      if n < hi { SlotApart(n, hi, w); }
    }
  }

  /** Each of the last `w` digests is the XOR of all nonces up to its number. */
  ghost predicate DigestsHold(ring: seq<Nonce>, w: nat, nonces: seq<Nonce>)
    requires 0 < w == |ring|
  {
    forall n: nat {:trigger Slot(n, w)} :: n <= |nonces| < n + w ==> ring[Slot(n, w)] == Digest(nonces[..n])
  }

  lemma DigestPush(nonces: seq<Nonce>, x: Nonce)
    ensures Digest(nonces + [x]) == Xor(x, Digest(nonces))
  {
    assert (nonces + [x])[..|nonces|] == nonces;
  }

  lemma DigestsPush(ring: seq<Nonce>, w: nat, nonces: seq<Nonce>, x: Nonce, y: Nonce)
    requires 0 < w == |ring| && DigestsHold(ring, w, nonces)
    requires y == Xor(x, ring[Slot(|nonces|, w)])
    ensures DigestsHold(ring[Slot(|nonces| + 1, w) := y], w, nonces + [x])
  {
    DigestPush(nonces, x);
    assert nonces[..|nonces|] == nonces && (nonces + [x])[..|nonces| + 1] == nonces + [x];
    assert ring[Slot(|nonces|, w)] == Digest(nonces);
    hide Slot, Digest, Xor;
    forall n: nat {:trigger Slot(n, w)} | n <= |nonces + [x]| < n + w
      ensures ring[Slot(|nonces| + 1, w) := y][Slot(n, w)] == Digest((nonces + [x])[..n])
    {
      if n <= |nonces| {
        SlotApart(n, |nonces| + 1, w);
        assert (nonces + [x])[..n] == nonces[..n];
      }
    }
  }

  /** The message being packed is the last one submitted, and not all of it has been taken. */
  ghost predicate PendingOk(s: Sender, h: History, c: Config) {
    s.message.Some? ==>
      var m := s.message.value;
      && h.submitted != [] && m == h.submitted[|h.submitted| - 1]
      && Fitting(m, c.room) && s.taken <= |m| && (s.taken < |m| || |m| == 0)
  }

  /** Everything packed, followed by what is still to be packed, is what the messages give. */
  ghost predicate StreamOk(s: Sender, h: History, c: Config)
    requires h.Valid(c) && PendingOk(s, h, c)
  {
    h.pkts + Remaining(s, c) == AllPackets(h.submitted, c.room)
  }

  ghost predicate RingsOk(s: Sender, h: History, c: Config)
    requires s.Fits(c) && 1 <= s.tail && |h.pkts| == |h.nonces| == s.head - 1
  {
    && RingHolds(s.packets, c.w, s.tail, s.head, h.pkts)
    && RingHolds(s.nonces, c.w, s.tail, s.head, h.nonces)
    && DigestsHold(s.digests, c.w, h.nonces)
  }

  ghost predicate SenderOk(s: Sender, h: History, c: Config) {
    && c.Valid() && s.Fits(c) && h.Valid(c) && WindowOk(s, c) && |h.pkts| == s.head - 1
    && RingsOk(s, h, c) && PendingOk(s, h, c) && StreamOk(s, h, c)
  }

  // ---------------------------------------------------------------- packing

  ghost function Added(h: History, p: Packet, nonce: Nonce): History {
    History(h.pkts + [p], h.nonces + [nonce], h.submitted)
  }

  lemma PushRings(s: Sender, h: History, c: Config, nonce: Nonce, p: Packet)
    requires c.Valid() && s.Fits(c) && WindowOk(s, c) && |h.pkts| == |h.nonces| == s.head - 1
    requires RingsOk(s, h, c) && s.head - s.tail < c.w
    ensures RingsOk(Push(s, c, p, nonce), Added(h, p, nonce), c)
  {
    hide RingHolds, DigestsHold, Slot, Xor;
    RingPush(s.packets, c.w, s.tail, s.head, h.pkts, p);
    RingPush(s.nonces, c.w, s.tail, s.head, h.nonces, nonce);
    var y := Xor(nonce, s.digests[Slot(s.head - 1, c.w)]);
    DigestsPush(s.digests, c.w, h.nonces, nonce, y);
  }

  lemma PackOneRings(s: Sender, h: History, c: Config, nonce: Nonce, p: Packet)
    requires c.Valid() && s.Fits(c) && WindowOk(s, c) && |h.pkts| == |h.nonces| == s.head - 1
    requires RingsOk(s, h, c) && s.message.Some? && s.head - s.tail < c.w
    requires p == Encode(s.message.value, s.taken, Fill(s.message.value, s.taken, 0, c.room))
    ensures RingsOk(PackOne(s, c, nonce), Added(h, p, nonce), c)
  {
    hide RingHolds, DigestsHold, Slot, Xor, Fill, Encode, Push;
    PushRings(s, h, c, nonce, p);
  }

  lemma PackOneStream(s: Sender, h: History, c: Config, nonce: Nonce, p: Packet)
    requires c.Valid() && s.Fits(c) && h.Valid(c) && s.message.Some? && PendingOk(s, h, c) && StreamOk(s, h, c)
    requires p == Encode(s.message.value, s.taken, Fill(s.message.value, s.taken, 0, c.room))
    ensures var g := Added(h, p, nonce);
            g.Valid(c) && PendingOk(PackOne(s, c, nonce), g, c) && StreamOk(PackOne(s, c, nonce), g, c)
  {
    var m := s.message.value;
    var r, g := PackOne(s, c, nonce), Added(h, p, nonce);
    assert g.Valid(c);
    assert PendingOk(r, g, c);
    assert Remaining(s, c) == [p] + Remaining(r, c) by { hide Encode, Fill, AllPackets, Slot; }
    hide *;
    assert StreamOk(s, h, c);
    Regroup(s, r, h, c, p, nonce);
  }

  lemma TakenFromRest(pkts: seq<Packet>, p: Packet, rest: seq<Packet>)
    ensures pkts + ([p] + rest) == pkts + [p] + rest
  {}

  lemma Regroup(s: Sender, r: Sender, h: History, c: Config, p: Packet, nonce: Nonce)
    requires h.Valid(c) && PendingOk(s, h, c) && StreamOk(s, h, c)
    requires Added(h, p, nonce).Valid(c) && PendingOk(r, Added(h, p, nonce), c)
    requires Remaining(s, c) == [p] + Remaining(r, c)
    ensures StreamOk(r, Added(h, p, nonce), c)
  {
    hide Remaining, Packets, AllPackets, Fitting, AllFitting;
    TakenFromRest(h.pkts, p, Remaining(r, c));
  }

  lemma PackOneOk(s: Sender, h: History, c: Config, nonce: Nonce) returns (g: History)
    requires SenderOk(s, h, c) && s.message.Some? && s.head - s.tail < c.w
    ensures SenderOk(PackOne(s, c, nonce), g, c) && Extends(h, g) && g.submitted == h.submitted
  {
    var p := Encode(s.message.value, s.taken, Fill(s.message.value, s.taken, 0, c.room));
    g := Added(h, p, nonce);
    PackOneRings(s, h, c, nonce, p);
    PackOneStream(s, h, c, nonce, p);
    hide RingsOk, PendingOk, StreamOk, Encode, Fill, Slot, PackOne;
  }

  /** Packing leaves nothing behind: afterwards no message is pending or the window is full. */
  lemma {:induction false} PackAllOk(s: Sender, h: History, c: Config, rand: nat -> Nonce) returns (g: History)
    requires SenderOk(s, h, c)
    ensures var r := PackAll(s, c, rand);
            && SenderOk(r, g, c) && Extends(h, g) && g.submitted == h.submitted
            && r.tail == s.tail && r.tcpHead == s.tcpHead && (r.message.Some? ==> r.head == r.tail + c.w)
    decreases s.tail + c.w - s.head
  {
    assert WindowOk(s, c);
    hide SenderOk, PackOne;
    if s.head - s.tail < c.w && s.message.Some? {
      var n := PackOne(s, c, rand(s.head));
      var h1 := PackOneOk(s, h, c, rand(s.head));
      g := PackAllOk(n, h1, c, rand);
    } else {
      g := h;
    }
  }

  // ---------------------------------------------------------------- the sender between events

  /** Between events a message is only pending while the window is full. */
  ghost predicate SenderRests(s: Sender, h: History, c: Config) {
    SenderOk(s, h, c) && (s.message.Some? ==> s.head == s.tail + c.w)
  }

  lemma FreshSenderRests(c: Config)
    requires c.Valid()
    ensures SenderRests(FreshSender(c), NO_HISTORY, c)
  {
    hide Slot;
  }

  lemma StartMessage(s: Sender, h: History, c: Config, m: Message) returns (g: History)
    requires SenderOk(s, h, c) && s.message.None? && Fitting(m, c.room)
    ensures SenderOk(s.(message := Some(m), taken := 0), g, c)
    ensures g == h.(submitted := h.submitted + [m])
  {
    g := h.(submitted := h.submitted + [m]);
    var r := s.(message := Some(m), taken := 0);
    assert RingsOk(r, g, c) by { hide RingHolds, DigestsHold; }
    assert g.submitted[..|h.submitted|] == h.submitted;
    assert h.pkts + [] == h.pkts;
    hide RingsOk, Packets, Fill, Slot, Encode;
  }

  /** Taking on a message adds it to what has been submitted, and disturbs nothing. */
  lemma ForwardOk(s: Sender, h: History, c: Config, m: Message, rand: nat -> Nonce) returns (g: History)
    requires SenderRests(s, h, c) && !Refused(s, c, m) && Fitting(m, c.room)
    ensures var r := Forward(s, c, m, rand);
            && SenderRests(r, g, c) && Extends(h, g) && g.submitted == h.submitted + [m]
            && r.tail == s.tail && r.tcpHead == s.tcpHead
  {
    var h1 := StartMessage(s, h, c, m);
    g := PackAllOk(s.(message := Some(m), taken := 0), h1, c, rand);
    hide SenderOk, PackAll, TooBig;
  }

  lemma TailUp(s: Sender, h: History, c: Config, tail: nat)
    requires SenderOk(s, h, c) && s.tail <= tail <= s.tcpHead
    ensures SenderOk(s.(tail := tail), h, c)
  {
    hide Packets, Slot, Encode, Fill, Digest, AllPackets, Fitting, AllFitting;
  }

  /** In the window, the sender knows the digest of everything up to any number let out. */
  lemma DigestKnown(s: Sender, h: History, c: Config, aru: nat)
    requires SenderOk(s, h, c) && s.tail <= aru < s.tcpHead
    ensures aru <= |h.nonces| && s.digests[Slot(aru, c.w)] == Digest(h.nonces[..aru])
  {
    hide Slot, Digest, RingHolds, PendingOk, StreamOk;
  }

  /** An honest acknowledgement is believed and moves the tail just past it. */
  lemma TakeAruOk(s: Sender, h: History, c: Config, aru: nat, digest: Nonce, rand: nat -> Nonce) returns (g: History)
    requires SenderRests(s, h, c)
    requires aru <= |h.nonces| ==> digest == Digest(h.nonces[..aru])
    ensures var (believed, r) := TakeAru(s, c, aru, digest, rand);
            && believed && SenderRests(r, g, c) && Extends(h, g) && g.submitted == h.submitted
            && r.tcpHead == s.tcpHead && r.tail == if s.tail <= aru < s.tcpHead then aru + 1 else s.tail
  {
    g := h;
    if s.tail <= aru < s.tcpHead {
      DigestKnown(s, h, c, aru);
      TailUp(s, h, c, aru + 1);
      g := PackAllOk(s.(tail := aru + 1), h, c, rand);
    }
    hide SenderOk, PackAll, Slot, Digest;
  }

  /** An acknowledgement is turned away exactly if it is about a number in the window and does not
      prove it with the XOR of all nonces up to there; then, and outside the window, nothing moves. */
  lemma TakeAruExactly(s: Sender, h: History, c: Config, aru: nat, digest: Nonce, rand: nat -> Nonce)
    requires SenderRests(s, h, c)
    ensures s.tail <= aru < s.tcpHead ==>
              aru <= |h.nonces| && (TakeAru(s, c, aru, digest, rand).0 <==> digest == Digest(h.nonces[..aru]))
    ensures !(s.tail <= aru < s.tcpHead) ==> TakeAru(s, c, aru, digest, rand).0
    ensures !TakeAru(s, c, aru, digest, rand).0 || !(s.tail <= aru < s.tcpHead) ==>
              TakeAru(s, c, aru, digest, rand).1 == s
  {
    if s.tail <= aru < s.tcpHead { DigestKnown(s, h, c, aru); }
    hide SenderOk, PackAll, Slot, Digest;
  }

  /** What is asked for is marked if it is in the window and has been let out; no mark goes away, and no
      other comes. */
  lemma {:induction false} MarkNacksExactly(s: Sender, c: Config, nacks: seq<nat>, n: nat)
    requires s.Fits(c) && s.tail <= n < s.tail + c.w && s.tcpHead <= s.tail + c.w
    ensures MarkNacks(s, c, nacks).nacked[Slot(n, c.w)] <==>
              s.nacked[Slot(n, c.w)] || (n in nacks && n < s.tcpHead)
    decreases |nacks|
  {
    hide Slot;
    if nacks != [] {
      var k := nacks[|nacks| - 1];
      MarkNacksExactly(s, c, nacks[..|nacks| - 1], n);
      if s.tail <= k < s.tcpHead && k != n {
        if k < n { SlotApart(k, n, c.w); } else { SlotApart(n, k, c.w); }
      }
    }
  }

  /** What is packed is not marked as asked for. */
  lemma {:induction false} NewUnmarked(s: Sender, c: Config, rand: nat -> Nonce, n: nat)
    requires s.Fits(c) && s.tail <= s.head <= n < PackAll(s, c, rand).head
    ensures n < s.tail + c.w && !PackAll(s, c, rand).nacked[Slot(n, c.w)]
    decreases s.tail + c.w - s.head
  {
    hide Slot, Encode, Fill, Xor;
    if s.head - s.tail < c.w && s.message.Some? {
      var t := PackOne(s, c, rand(s.head));
      if n == s.head { KeptMark(t, c, rand, n); } else { NewUnmarked(t, c, rand, n); }
    }
  }

  lemma {:induction false} KeptMark(s: Sender, c: Config, rand: nat -> Nonce, n: nat)
    requires s.Fits(c) && s.tail <= n < s.head <= s.tail + c.w
    ensures PackAll(s, c, rand).nacked[Slot(n, c.w)] == s.nacked[Slot(n, c.w)]
    decreases s.tail + c.w - s.head
  {
    hide Slot, Encode, Fill, Xor;
    if s.head - s.tail < c.w && s.message.Some? {
      SlotApart(n, s.head, c.w);
      KeptMark(PackOne(s, c, rand(s.head)), c, rand, n);
    }
  }

  /** What has been let out after the congestion window has had its say: no more than was packed and
      than the window allows beyond the tail, unless it was out already, and no less. */
  lemma OpenedExactly(s: Sender, cwnd: nat)
    ensures var n := Opened(s, cwnd);
            && n >= s.tcpHead && (n >= s.head || n >= s.tail + cwnd)
            && (n == s.tcpHead || (n <= s.head && n <= s.tail + cwnd))
  {}

  lemma MarkNacksOk(s: Sender, h: History, c: Config, nacks: seq<nat>)
    requires SenderRests(s, h, c)
    ensures SenderRests(MarkNacks(s, c, nacks), h, c)
  {
    hide Packets, Slot, Encode, Fill, Digest, AllPackets, Fitting, AllFitting, RingHolds, DigestsHold, MarkNacks;
  }

  lemma AdvanceTcpOk(s: Sender, h: History, c: Config)
    requires SenderRests(s, h, c) && s.tcpHead < s.head
    ensures SenderRests(AdvanceTcp(s), h, c)
  {
    hide Packets, Slot, Encode, Fill, Digest, AllPackets, Fitting, AllFitting, RingHolds, DigestsHold;
  }

  /** What the ring holds of a number in the window. */
  lemma CellOf(s: Sender, h: History, c: Config, n: nat)
    requires SenderOk(s, h, c) && s.tail <= n < s.head
    ensures s.packets[Slot(n, c.w)] == h.pkts[n - 1] && s.nonces[Slot(n, c.w)] == h.nonces[n - 1]
  {
    hide Slot, Digest, DigestsHold, PendingOk, StreamOk;
  }
}
