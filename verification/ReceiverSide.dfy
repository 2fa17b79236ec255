/** What holds of a receiver given what its neighbour has packed, and that taking in any packet
    keeps it. */
module ReceiverSide {
  import opened Wrappers
  import opened Fragments
  import opened ItLink

  /** The packets the ordered reassembly sees. */
  ghost function Kept(pkts: seq<Packet>, c: Config): seq<Packet> {
    if pkts == [] then []
    else
      var p := pkts[|pkts| - 1];
      Kept(pkts[..|pkts| - 1], c) + if InTurn(c, p) then [p] else []
  }

  ghost predicate CellOk(cell: Cell, n: nat, head: nat, h: History)
    requires 1 <= n && |h.pkts| == |h.nonces| && head - 1 <= |h.pkts|
  {
    match cell
    case Empty => n >= head
    case Nack => n < head
    case Recvd(p, x) => n < head && p == h.pkts[n - 1] && x == h.nonces[n - 1]
  }

  /** The cells of the window: nothing at or beyond the head, and before it a mark for a missing
      packet or the very packet that was packed under that number. */
  ghost predicate CellsOk(r: Receiver, h: History, c: Config)
    requires r.Fits(c) && 1 <= r.tail && |h.pkts| == |h.nonces| && r.head - 1 <= |h.pkts|
  {
    forall n: nat {:trigger Slot(n, c.w)} :: r.tail <= n < r.tail + c.w ==> CellOk(r.cells[Slot(n, c.w)], n, r.head, h)
  }

  /** What has been handed up and digested is what the ARU covers. */
  ghost predicate TakenOk(r: Receiver, h: History, c: Config)
    requires 1 <= r.tail && |h.pkts| == |h.nonces| && r.tail - 1 <= |h.pkts|
  {
    && r.digest == Digest(h.nonces[..r.tail - 1])
    && r.inbox == FeedAll(Kept(h.pkts[..r.tail - 1], c))
  }

  /** Window, cells, and what has been taken; the tail cell may still be waiting to be moved over. */
  ghost predicate Filling(r: Receiver, h: History, c: Config) {
    && r.Fits(c) && |h.pkts| == |h.nonces|
    && LINK_START_SEQ <= r.tail <= r.head <= r.tail + c.w && r.head - 1 <= |h.pkts|
    && CellsOk(r, h, c) && TakenOk(r, h, c)
  }

  /** Between events the ARU has moved as far as it can. */
  ghost predicate ReceiverOk(r: Receiver, h: History, c: Config) {
    Filling(r, h, c) && !r.cells[Slot(r.tail, c.w)].Recvd?
  }

  lemma FreshReceiverOk(c: Config)
    requires c.Valid()
    ensures ReceiverOk(FreshReceiver(c), NO_HISTORY, c)
  {
    hide Slot;
  }

  lemma {:induction false} MarkGapsOk(r: Receiver, c: Config, upto: nat)
    requires r.Fits(c) && r.tail <= r.head <= upto < r.tail + c.w
    ensures var q := MarkGaps(r, c, upto); q.head == upto
    ensures forall n: nat {:trigger Slot(n, c.w)} :: r.tail <= n < r.tail + c.w ==>
              MarkGaps(r, c, upto).cells[Slot(n, c.w)] == if r.head <= n < upto then Nack else r.cells[Slot(n, c.w)]
    decreases upto - r.head
  {
    hide Slot;
    if r.head < upto {
      var r1 := r.(cells := r.cells[Slot(r.head, c.w) := Nack], head := r.head + 1);
      MarkGapsOk(r1, c, upto);
      forall n: nat {:trigger Slot(n, c.w)} | r.tail <= n < r.tail + c.w
        ensures r1.cells[Slot(n, c.w)] == if n == r.head then Nack else r.cells[Slot(n, c.w)]
      {
        Apart(n, r.head, r.tail, c.w);
      }
    }
  }

  lemma Apart(a: nat, b: nat, lo: nat, w: nat)
    requires w > 0 && lo <= a < lo + w && lo <= b < lo + w
    ensures Slot(a, w) == Slot(b, w) ==> a == b
  {
    hide Slot;
    if a < b { SlotApart(a, b, w); } else if b < a { SlotApart(b, a, w); }
  }

  /** Storing changes exactly the packet's own cell, and marks the ones skipped. */
  lemma StoreCells(r: Receiver, c: Config, seqNo: nat, nonce: Nonce, pkt: Packet)
    requires r.Fits(c) && r.tail <= r.head && r.tail <= seqNo < r.tail + c.w
    ensures var q := Store(r, c, seqNo, nonce, pkt);
            q == r.(cells := q.cells, head := if seqNo >= r.head then seqNo + 1 else r.head)
    ensures forall n: nat {:trigger Slot(n, c.w)} :: r.tail <= n < r.tail + c.w ==>
              Store(r, c, seqNo, nonce, pkt).cells[Slot(n, c.w)] ==
                if n == seqNo then Recvd(pkt, nonce) else if r.head <= n < seqNo then Nack else r.cells[Slot(n, c.w)]
  {
    hide Slot;
    var stored := r.(cells := r.cells[Slot(seqNo, c.w) := Recvd(pkt, nonce)]);
    forall n: nat {:trigger Slot(n, c.w)} | r.tail <= n < r.tail + c.w
      ensures stored.cells[Slot(n, c.w)] == if n == seqNo then Recvd(pkt, nonce) else r.cells[Slot(n, c.w)]
    {
      Apart(n, seqNo, r.tail, c.w);
    }
    if seqNo >= r.head { MarkGapsOk(stored, c, seqNo); }
  }

  lemma StoreOk(r: Receiver, h: History, c: Config, seqNo: nat, nonce: Nonce, pkt: Packet)
    requires Filling(r, h, c) && r.tail <= seqNo < r.tail + c.w && seqNo - 1 < |h.pkts|
    requires pkt == h.pkts[seqNo - 1] && nonce == h.nonces[seqNo - 1]
    ensures var q := Store(r, c, seqNo, nonce, pkt); Filling(q, h, c) && q.tail == r.tail
  {
    StoreCells(r, c, seqNo, nonce, pkt);
    hide Slot, Store, TakenOk;
  }

  // ---------------------------------------------------------------- moving the ARU

  lemma KeptPush(pkts: seq<Packet>, n: nat, c: Config)
    requires n < |pkts|
    ensures Kept(pkts[..n + 1], c) == Kept(pkts[..n], c) + if InTurn(c, pkts[n]) then [pkts[n]] else []
  {
    assert pkts[..n + 1][..n] == pkts[..n];
  }

  lemma FeedPush(ps: seq<Packet>, p: Packet)
    ensures FeedAll(ps + [p]) == Consume(FeedAll(ps), p)
  {
    assert (ps + [p])[..|ps|] == ps;
  }

  lemma XorSwaps(a: Nonce, b: Nonce)
    ensures Xor(a, b) == Xor(b, a)
  {}

  lemma DigestTake(nonces: seq<Nonce>, n: nat)
    requires n < |nonces|
    ensures Digest(nonces[..n + 1]) == Xor(Digest(nonces[..n]), nonces[n])
  {
    var taken := nonces[..n + 1];
    assert taken[..n] == nonces[..n] && taken[|taken| - 1] == nonces[n];
    assert Digest(taken) == Xor(nonces[n], Digest(nonces[..n]));
    hide *;
    XorSwaps(nonces[n], Digest(nonces[..n]));
  }

  lemma TailKnown(r: Receiver, h: History, c: Config)
    requires Filling(r, h, c) && r.cells[Slot(r.tail, c.w)].Recvd?
    ensures r.Fits(c) && 1 <= r.tail < r.head && r.head - 1 <= |h.pkts| == |h.nonces|
    ensures r.cells[Slot(r.tail, c.w)] == Recvd(h.pkts[r.tail - 1], h.nonces[r.tail - 1])
    ensures r.digest == Digest(h.nonces[..r.tail - 1]) && r.inbox == FeedAll(Kept(h.pkts[..r.tail - 1], c))
  {
    assert CellOk(r.cells[Slot(r.tail, c.w)], r.tail, r.head, h);
    hide Slot, Digest, FeedAll, Kept, CellsOk;
  }

  lemma DrainedIs(r: Receiver, c: Config, p: Packet, x: Nonce)
    requires r.Fits(c) && r.cells[Slot(r.tail, c.w)] == Recvd(p, x)
    ensures var q := DrainOne(r, c);
            && q.tail == r.tail + 1 && q.digest == Xor(r.digest, x)
            && q.inbox == if InTurn(c, p) then Consume(r.inbox, p) else r.inbox
  {
    hide Slot, Xor, Consume, InTurn, CountRecvd;
  }

  lemma TakenIs(q: Receiver, h: History, c: Config, n: nat)
    requires |h.pkts| == |h.nonces| && q.tail == n + 1 && n <= |h.pkts|
    requires q.digest == Digest(h.nonces[..n]) && q.inbox == FeedAll(Kept(h.pkts[..n], c))
    ensures TakenOk(q, h, c)
  {
    hide Digest, FeedAll, Kept;
  }

  lemma DrainTaken(r: Receiver, h: History, c: Config)
    requires Filling(r, h, c) && r.cells[Slot(r.tail, c.w)].Recvd?
    ensures r.tail < r.head && TakenOk(DrainOne(r, c), h, c)
  {
    hide *;
    TailKnown(r, h, c);
    var n := r.tail - 1;
    DrainedIs(r, c, h.pkts[n], h.nonces[n]);
    DigestTake(h.nonces, n);
    KeptPush(h.pkts, n, c);
    if InTurn(c, h.pkts[n]) {
      FeedPush(Kept(h.pkts[..n], c), h.pkts[n]);
    } else {
      assert Kept(h.pkts[..n], c) + [] == Kept(h.pkts[..n], c);
    }
    TakenIs(DrainOne(r, c), h, c, n + 1);
  }

  lemma DrainCells(r: Receiver, h: History, c: Config)
    requires Filling(r, h, c) && r.cells[Slot(r.tail, c.w)].Recvd? && r.tail < r.head
    ensures CellsOk(DrainOne(r, c), h, c)
  {
    var q := DrainOne(r, c);
    hide Slot, TakenOk, Kept, Consume, CountRecvd, Xor;
    SlotRound(r.tail, c.w);
    forall n: nat {:trigger Slot(n, c.w)} | q.tail <= n < q.tail + c.w
      ensures CellOk(q.cells[Slot(n, c.w)], n, q.head, h)
    {
      if n < r.tail + c.w { Apart(n, r.tail, r.tail, c.w); }
    }
  }

  /** Moving over everything received leaves a settled window. */
  lemma {:induction false} DrainOk(r: Receiver, h: History, c: Config)
    requires Filling(r, h, c)
    ensures var q := Drain(r, c); ReceiverOk(q, h, c) && q.tail >= r.tail && q.head == r.head && q.early == r.early
    decreases CountRecvd(r.cells)
  {
    if r.cells[Slot(r.tail, c.w)].Recvd? {
      DrainTaken(r, h, c);
      DrainCells(r, h, c);
      var q := DrainOne(r, c);
      hide CellsOk, TakenOk, Slot, CountRecvd;
      DrainOk(q, h, c);
    }
  }

  // ---------------------------------------------------------------- messages handed up at once

  /** Packet `n` has arrived. */
  ghost predicate Got(r: Receiver, c: Config, n: nat)
    requires r.Fits(c)
  {
    1 <= n < r.tail || (r.tail <= n < r.tail + c.w && r.cells[Slot(n, c.w)].Recvd?)
  }

  /** A packet that is a whole message by itself. */
  ghost predicate Whole(p: Packet) { Build(FRESH, p).0.Ready? }

  ghost predicate EntryOk(e: Early, r: Receiver, h: History, c: Config)
    requires r.Fits(c)
  {
    && Got(r, c, e.seqNo) && 1 <= e.seqNo <= |h.pkts| && AtOnce(c, h.pkts[e.seqNo - 1])
    && e.message == Build(FRESH, h.pkts[e.seqNo - 1]).1.frags
  }

  ghost predicate Logged(early: seq<Early>, n: nat) {
    exists i :: 0 <= i < |early| && early[i].seqNo == n
  }

  /** Exactly the arrived single-packet messages have been handed up at once, each exactly once. */
  ghost predicate EarlyOk(r: Receiver, h: History, c: Config)
    requires r.Fits(c)
  {
    && (forall i :: 0 <= i < |r.early| ==> EntryOk(r.early[i], r, h, c))
    && (forall i, j :: 0 <= i < j < |r.early| ==> r.early[i].seqNo != r.early[j].seqNo)
    && (forall n: nat {:trigger Logged(r.early, n)} ::
          1 <= n <= |h.pkts| && Got(r, c, n) && AtOnce(c, h.pkts[n - 1]) ==> Logged(r.early, n))
  }

  lemma StoreGot(r: Receiver, c: Config, seqNo: nat, nonce: Nonce, pkt: Packet, n: nat)
    requires r.Fits(c) && 1 <= r.tail <= r.head && r.tail <= seqNo < r.tail + c.w && r.head <= r.tail + c.w
    requires forall k: nat {:trigger Slot(k, c.w)} :: r.head <= k < r.tail + c.w ==> !r.cells[Slot(k, c.w)].Recvd?
    ensures Got(Store(r, c, seqNo, nonce, pkt), c, n) <==> n == seqNo || Got(r, c, n)
  {
    hide Slot, Store;
    StoreCells(r, c, seqNo, nonce, pkt);
    if r.tail <= n < r.tail + c.w { var k := Slot(n, c.w); }
  }

  lemma DrainGot(r: Receiver, c: Config, n: nat)
    requires r.Fits(c) && 1 <= r.tail && r.cells[Slot(r.tail, c.w)].Recvd?
    ensures Got(DrainOne(r, c), c, n) <==> Got(r, c, n)
  {
    hide Slot, Consume, CountRecvd, Xor;
    SlotRound(r.tail, c.w);
    if r.tail < n < r.tail + c.w { SlotApart(r.tail, n, c.w); }
  }

  lemma {:induction false} DrainEarly(r: Receiver, h: History, c: Config)
    requires r.Fits(c) && 1 <= r.tail && EarlyOk(r, h, c)
    ensures EarlyOk(Drain(r, c), h, c) && forall n: nat :: Got(Drain(r, c), c, n) <==> Got(r, c, n)
    decreases CountRecvd(r.cells)
  {
    if r.cells[Slot(r.tail, c.w)].Recvd? {
      var q := DrainOne(r, c);
      hide Slot, CountRecvd, Consume, Xor, Got, AtOnce, Build;
      forall n: nat ensures Got(q, c, n) <==> Got(r, c, n) { DrainGot(r, c, n); }
      DrainEarly(q, h, c);
    }
  }

  lemma SameGot(s: Receiver, u: Receiver, c: Config)
    requires s.Fits(c) && u == s.(early := u.early)
    ensures u.Fits(c) && forall n: nat :: Got(u, c, n) <==> Got(s, c, n)
  {
    hide Slot;
  }

  lemma HandUpIs(s: Receiver, c: Config, seqNo: nat, pkt: Packet)
    requires AtOnce(c, pkt) ==> Whole(pkt)
    ensures HandUp(s, c, seqNo, pkt) ==
            if AtOnce(c, pkt) then s.(early := s.early + [Early(seqNo, Build(FRESH, pkt).1.frags)]) else s
  {
    hide AtOnce;
  }

  lemma LoggedMore(early: seq<Early>, e: Early, n: nat)
    requires n == e.seqNo || Logged(early, n)
    ensures Logged(early + [e], n)
  {
    if n == e.seqNo { assert (early + [e])[|early|].seqNo == n; }
    else {
      var i :| 0 <= i < |early| && early[i].seqNo == n;
      assert (early + [e])[i].seqNo == n;
    }
  }

  /** The new entry joins the log, and no other packet has arrived. */
  lemma HandUpEarly(r: Receiver, s: Receiver, h: History, c: Config, seqNo: nat, pkt: Packet)
    requires r.Fits(c) && s.Fits(c) && s.early == r.early && EarlyOk(r, h, c)
    requires 1 <= seqNo <= |h.pkts| && pkt == h.pkts[seqNo - 1] && !Got(r, c, seqNo) && (AtOnce(c, pkt) ==> Whole(pkt))
    requires forall n: nat :: Got(s, c, n) <==> n == seqNo || Got(r, c, n)
    ensures var u := HandUp(s, c, seqNo, pkt); u.Fits(c) && EarlyOk(u, h, c) && u == s.(early := u.early)
    ensures forall n: nat :: Got(HandUp(s, c, seqNo, pkt), c, n) <==> n == seqNo || Got(r, c, n)
  {
    var u := HandUp(s, c, seqNo, pkt);
    HandUpIs(s, c, seqNo, pkt);
    SameGot(s, u, c);
    hide Build, Got, AtOnce, HandUp, Logged, Whole;
    var e := Early(seqNo, Build(FRESH, pkt).1.frags);
    forall i | 0 <= i < |r.early| ensures EntryOk(r.early[i], u, h, c) && r.early[i].seqNo != seqNo {
      assert EntryOk(r.early[i], r, h, c);
    }
    forall n: nat | 1 <= n <= |h.pkts| && Got(u, c, n) && AtOnce(c, h.pkts[n - 1]) ensures Logged(u.early, n) {
      if AtOnce(c, pkt) { LoggedMore(r.early, e, n); }
    }
  }

  // ---------------------------------------------------------------- taking a packet in

  ghost predicate Settled(r: Receiver, h: History, c: Config) {
    ReceiverOk(r, h, c) && EarlyOk(r, h, c)
  }

  /** What a data packet carries is what was packed under its number. */
  ghost predicate Genuine(seqNo: nat, nonce: Nonce, pkt: Packet, h: History) {
    1 <= seqNo <= |h.pkts| == |h.nonces| && pkt == h.pkts[seqNo - 1] && nonce == h.nonces[seqNo - 1]
  }

  lemma StoreAll(r: Receiver, h: History, c: Config, seqNo: nat, nonce: Nonce, pkt: Packet)
    requires Settled(r, h, c) && r.tail <= seqNo < r.tail + c.w && Genuine(seqNo, nonce, pkt, h)
    requires !r.cells[Slot(seqNo, c.w)].Recvd? && (AtOnce(c, pkt) ==> Whole(pkt))
    ensures var u := HandUp(Store(r, c, seqNo, nonce, pkt), c, seqNo, pkt);
            && Filling(u, h, c) && EarlyOk(u, h, c) && u.tail == r.tail
            && u.head == (if seqNo >= r.head then seqNo + 1 else r.head)
            && forall n: nat :: Got(u, c, n) <==> n == seqNo || Got(r, c, n)
  {
    var s := Store(r, c, seqNo, nonce, pkt);
    StoreOk(r, h, c, seqNo, nonce, pkt);
    StoreCells(r, c, seqNo, nonce, pkt);
    assert CellsOk(r, h, c);
    assert !Got(r, c, seqNo);
    hide Slot, Store, EarlyOk, TakenOk, HandUp, Got, Build;
    forall n: nat ensures Got(s, c, n) <==> n == seqNo || Got(r, c, n) { StoreGot(r, c, seqNo, nonce, pkt, n); }
    HandUpEarly(r, s, h, c, seqNo, pkt);
    SameTaken(s, HandUp(s, c, seqNo, pkt), h, c);
  }

  lemma SameTaken(s: Receiver, u: Receiver, h: History, c: Config)
    requires Filling(s, h, c) && u == s.(early := u.early)
    ensures Filling(u, h, c)
  {
    hide Slot, CellOk, Digest, FeedAll, Kept;
  }

  /** A genuine packet, at any time and however often it arrives, is taken in rightly: none is
      turned away as lying beyond the window as long as the sender keeps to its own. */
  lemma AcceptOk(r: Receiver, h: History, c: Config, seqNo: nat, nonce: Nonce, pkt: Packet, sent: nat)
    requires Settled(r, h, c) && Genuine(seqNo, nonce, pkt, h) && (AtOnce(c, pkt) ==> Whole(pkt))
    requires seqNo < sent <= r.tail + c.w && r.head <= sent
    ensures var (fate, q) := Accept(r, c, seqNo, nonce, pkt);
            && fate != BeyondWindow && Settled(q, h, c) && q.tail >= r.tail && r.head <= q.head <= sent
            && Got(q, c, seqNo) && forall n: nat :: Got(r, c, n) ==> Got(q, c, n)
  {
    hide Slot, CellsOk, TakenOk, Store, HandUp, Drain, EarlyOk;
    if r.tail <= seqNo && !r.cells[Slot(seqNo, c.w)].Recvd? {
      StoreAll(r, h, c, seqNo, nonce, pkt);
      var u := HandUp(Store(r, c, seqNo, nonce, pkt), c, seqNo, pkt);
      DrainOk(u, h, c);
      DrainEarly(u, h, c);
    } else {
      assert Got(r, c, seqNo);
    }
  }

  /** What becomes of a packet, whatever it holds: only one in the window that has not arrived is
      stored, and only then does anything change. */
  lemma AcceptExactly(r: Receiver, c: Config, seqNo: nat, nonce: Nonce, pkt: Packet)
    requires r.Fits(c)
    ensures var (fate, q) := Accept(r, c, seqNo, nonce, pkt);
            && (fate == Old <==> seqNo < r.tail)
            && (fate == BeyondWindow <==> seqNo >= r.tail + c.w)
            && (fate == Duplicate <==> r.tail <= seqNo < r.tail + c.w && r.cells[Slot(seqNo, c.w)].Recvd?)
            && (fate != Stored ==> q == r)
  {}

  // ---------------------------------------------------------------- more being packed

  lemma CellsExtend(r: Receiver, h: History, g: History, c: Config)
    requires Filling(r, h, c) && Extends(h, g) && |g.pkts| == |g.nonces|
    ensures CellsOk(r, g, c)
  {
    hide Slot, TakenOk;
    forall n: nat {:trigger Slot(n, c.w)} | r.tail <= n < r.tail + c.w
      ensures CellOk(r.cells[Slot(n, c.w)], n, r.head, g) {
      assert CellOk(r.cells[Slot(n, c.w)], n, r.head, h);
    }
  }

  lemma EarlyExtends(r: Receiver, h: History, g: History, c: Config)
    requires Settled(r, h, c) && Extends(h, g) && |g.pkts| == |g.nonces|
    ensures EarlyOk(r, g, c)
  {
    forall n: nat | Got(r, c, n) ensures n <= |h.pkts| { }
    hide Slot, Got, AtOnce, Build, Logged, ReceiverOk;
    forall i | 0 <= i < |r.early| ensures EntryOk(r.early[i], r, g, c) { assert EntryOk(r.early[i], r, h, c); }
  }

  /** What the receiver holds does not depend on what is packed later. */
  lemma SettledExtends(r: Receiver, h: History, g: History, c: Config)
    requires Settled(r, h, c) && Extends(h, g) && |g.pkts| == |g.nonces|
    ensures Settled(r, g, c)
  {
    CellsExtend(r, h, g, c);
    EarlyExtends(r, h, g, c);
    assert h.pkts[..r.tail - 1] == g.pkts[..r.tail - 1] && h.nonces[..r.tail - 1] == g.nonces[..r.tail - 1];
    hide Slot, CellsOk, EarlyOk, Digest, FeedAll, Kept;
  }
}
