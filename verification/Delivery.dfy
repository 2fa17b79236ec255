/** What a receiver hands up when it takes the packets of a link in their order. */
module Delivery {
  import opened Fragments
  import opened ItLink
  import opened ReceiverSide

  /** The messages that need more than one fragment. */
  ghost function Multi(ms: seq<Message>): seq<Message> {
    if ms == [] then []
    else Multi(ms[..|ms| - 1]) + if |ms[|ms| - 1]| > 1 then [ms[|ms| - 1]] else []
  }

  /** The messages handed up in order. */
  ghost function InOrder(ms: seq<Message>, c: Config): seq<Message> { if c.ordered then ms else Multi(ms) }

  /** A message that the packer can put into packets.  Unordered delivery looks at the last header
      of every packet, so there must be one. */
  ghost predicate Sendable(m: Message, c: Config) {
    Fitting(m, c.room) && FitsPlaces(m, 0, c.room) && (c.ordered || m != [])
  }

  ghost predicate AllSendable(ms: seq<Message>, c: Config) {
    forall i :: 0 <= i < |ms| ==> Sendable(ms[i], c)
  }

  /** The packet is made of fragments i..j-1 of a message submitted. */
  ghost predicate PartOf(p: Packet, m: Message, i: nat, j: nat) {
    i <= j <= |m| && (i < j || |m| == 0) && p == Encode(m, i, j)
  }

  lemma TotalIs(p: Packet, m: Message, i: nat, j: nat, room: nat)
    requires PartOf(p, m, i, j) && Fitting(m, room)
    ensures TotalOf(p) == |m|
  {
    if i < j {
      var q, x := Encode(m, i, j - 1), Coded(m, j - 1);
      assert p == q + x;
      assert |x| >= HEADER && x[|x| - 1] == Low(|m|);
      hide Encode, Coded, Header;
      assert p[|p| - 1] == x[|x| - 1];
    }
  }

  lemma PacketPart(m: Message, k: nat, room: nat) returns (i: nat, j: nat)
    requires Fitting(m, room) && k < |Packets(m, 0, room)|
    ensures PartOf(Packets(m, 0, room)[k], m, i, j)
  {
    PacketAt(m, 0, k, room);
    i := Cut(m, 0, k, room);
    j := Fill(m, i, 0, room);
  }

  /** A packet named as a whole message is one, and gives back that message. */
  lemma WholeIs(p: Packet, m: Message, i: nat, j: nat, room: nat)
    requires PartOf(p, m, i, j) && Fitting(m, room) && TotalOf(p) == 1
    ensures |m| == 1 && Build(FRESH, p) == (Ready, Partial(m, 2, 1))
  {
    TotalIs(p, m, i, j, room);
    assert i == 0 && j == 1;
    BuildInverse(m, 0, 1, room);
    assert m[..1] == m && m[..0] == [];
    hide Build, Encode;
  }

  lemma {:induction false} StreamWhole(ms: seq<Message>, c: Config, k: nat)
    requires AllFitting(ms, c.room) && AllSendable(ms, c) && k < |AllPackets(ms, c.room)|
    ensures AtOnce(c, AllPackets(ms, c.room)[k]) ==> Whole(AllPackets(ms, c.room)[k])
  {
    var front, m := ms[..|ms| - 1], ms[|ms| - 1];
    if k < |AllPackets(front, c.room)| {
      StreamWhole(front, c, k);
    } else if AtOnce(c, AllPackets(ms, c.room)[k]) {
      var i, j := PacketPart(m, k - |AllPackets(front, c.room)|, c.room);
      WholeIs(AllPackets(ms, c.room)[k], m, i, j, c.room);
    }
  }

  lemma {:induction false} KeptSplit(a: seq<Packet>, b: seq<Packet>, c: Config)
    ensures Kept(a + b, c) == Kept(a, c) + Kept(b, c)
  {
    if b == [] {
      assert a + b == a;
    } else {
      var n := |b| - 1;
      assert (a + b)[..|a + b| - 1] == a + b[..n] && (a + b)[|a + b| - 1] == b[n];
      KeptSplit(a, b[..n], c);
    }
  }

  lemma {:induction false} KeptAll(ps: seq<Packet>, c: Config)
    requires forall k :: 0 <= k < |ps| ==> InTurn(c, ps[k])
    ensures Kept(ps, c) == ps
  {
    if ps != [] {
      KeptAll(ps[..|ps| - 1], c);
      assert ps == ps[..|ps| - 1] + [ps[|ps| - 1]];
    }
  }

  lemma {:induction false} KeptNone(ps: seq<Packet>, c: Config)
    requires forall k :: 0 <= k < |ps| ==> !InTurn(c, ps[k])
    ensures Kept(ps, c) == []
  {
    if ps != [] { KeptNone(ps[..|ps| - 1], c); }
  }

  lemma MessageKept(m: Message, c: Config, n: nat)
    requires Sendable(m, c) && n <= |Packets(m, 0, c.room)|
    ensures Kept(Packets(m, 0, c.room)[..n], c) == if c.ordered || |m| > 1 then Packets(m, 0, c.room)[..n] else []
  {
    var ps := Packets(m, 0, c.room)[..n];
    forall k | 0 <= k < n ensures InTurn(c, ps[k]) <==> c.ordered || |m| > 1 {
      var i, j := PacketPart(m, k, c.room);
      TotalIs(ps[k], m, i, j, c.room);
    }
    hide Packets, Kept, InTurn;
    if c.ordered || |m| > 1 { KeptAll(ps, c); } else { KeptNone(ps, c); }
  }

  lemma InOrderPush(ms: seq<Message>, c: Config)
    requires ms != []
    ensures InOrder(ms, c) ==
                InOrder(ms[..|ms| - 1], c) + if c.ordered || |ms[|ms| - 1]| > 1 then [ms[|ms| - 1]] else []
  {
    if c.ordered { assert ms == ms[..|ms| - 1] + [ms[|ms| - 1]]; }
  }

  lemma {:induction false} InOrderFits(ms: seq<Message>, c: Config)
    requires AllFitting(ms, c.room)
    ensures AllFitting(InOrder(ms, c), c.room)
  {
    if ms != [] {
      InOrderPush(ms, c);
      InOrderFits(ms[..|ms| - 1], c);
    }
  }

  lemma PacketsPush(ms: seq<Message>, m: Message, room: nat)
    requires AllFitting(ms, room) && Fitting(m, room)
    ensures AllFitting(ms + [m], room) && AllPackets(ms + [m], room) == AllPackets(ms, room) + Packets(m, 0, room)
  {
    assert (ms + [m])[..|ms|] == ms;
  }

  lemma InOrderPackets(ms: seq<Message>, c: Config) returns (front: seq<Message>, m: Message, tail: seq<Packet>)
    requires AllFitting(ms, c.room) && ms != []
    ensures front == ms[..|ms| - 1] && m == ms[|ms| - 1] && ms == front + [m]
    ensures AllFitting(InOrder(front, c), c.room) && AllFitting(InOrder(ms, c), c.room)
    ensures AllPackets(ms, c.room) == AllPackets(front, c.room) + Packets(m, 0, c.room)
    ensures tail == if c.ordered || |m| > 1 then Packets(m, 0, c.room) else []
    ensures AllPackets(InOrder(ms, c), c.room) == AllPackets(InOrder(front, c), c.room) + tail
  {
    front, m := ms[..|ms| - 1], ms[|ms| - 1];
    InOrderPush(ms, c);
    InOrderFits(front, c);
    InOrderFits(ms, c);
    PacketsPush(InOrder(front, c), m, c.room);
    tail := if c.ordered || |m| > 1 then Packets(m, 0, c.room) else [];
    assert AllPackets(ms, c.room) == AllPackets(front, c.room) + Packets(m, 0, c.room);
    hide Packets, InOrder, AllPackets;
    if !(c.ordered || |m| > 1) { assert InOrder(ms, c) == InOrder(front, c) + [] == InOrder(front, c); }
  }

  /** What the reassembly sees of the first packets are the first packets of the messages handed
      up in order. */
  lemma {:induction false} KeptPrefix(ms: seq<Message>, c: Config, n: nat)
    requires AllFitting(ms, c.room) && AllSendable(ms, c) && n <= |AllPackets(ms, c.room)|
    ensures AllFitting(InOrder(ms, c), c.room)
    ensures Kept(AllPackets(ms, c.room)[..n], c) <= AllPackets(InOrder(ms, c), c.room)
    ensures n == |AllPackets(ms, c.room)| ==> Kept(AllPackets(ms, c.room)[..n], c) == AllPackets(InOrder(ms, c), c.room)
    decreases |ms|, n
  {
    InOrderFits(ms, c);
    if ms != [] {
      KeptPrefixStep(ms, c, n);
    }
  }

  lemma PrefixGrows<T>(x: seq<T>, y: seq<T>, z: seq<T>)
    requires x <= y
    ensures x <= y + z
  {}

  lemma PrefixJoins<T>(x: seq<T>, y: seq<T>, z: seq<T>)
    requires y <= z
    ensures x + y <= x + z
  {}

  /** The first `n` of the last message's packets, after all those before it. */
  lemma KeptTail(x: seq<Packet>, m: Message, c: Config, k: nat, tail: seq<Packet>)
    requires Sendable(m, c) && k <= |Packets(m, 0, c.room)|
        && tail == if c.ordered || |m| > 1 then Packets(m, 0, c.room) else []
    ensures x + Kept(Packets(m, 0, c.room)[..k], c) <= x + tail
    ensures k == |Packets(m, 0, c.room)| ==> x + Kept(Packets(m, 0, c.room)[..k], c) == x + tail
  {
    MessageKept(m, c, k);
    var ps := Packets(m, 0, c.room);
    hide *;
    assert ps[..|ps|] == ps;
    PrefixJoins(x, Kept(ps[..k], c), tail);
  }

  /** What is kept of the first `n` of two runs of packets, when all of the first run is kept. */
  lemma KeptFirst(a: seq<Packet>, ps: seq<Packet>, c: Config, n: nat, x: seq<Packet>, tail: seq<Packet>)
    requires n <= |a| && Kept(a[..n], c) <= x
    ensures Kept((a + ps)[..n], c) <= x + tail
  {
    assert (a + ps)[..n] == a[..n];
    hide *;
    PrefixGrows(Kept(a[..n], c), x, tail);
  }

  lemma AcrossBoth<T>(a: seq<T>, b: seq<T>, n: nat)
    requires |a| <= n <= |a| + |b|
    ensures (a + b)[..n] == a + b[..n - |a|]
  {}

  lemma KeptSecond(a: seq<Packet>, m: Message, c: Config, n: nat, tail: seq<Packet>)
    requires Sendable(m, c) && |a| <= n <= |a| + |Packets(m, 0, c.room)|
    requires tail == if c.ordered || |m| > 1 then Packets(m, 0, c.room) else []
    ensures Kept((a + Packets(m, 0, c.room))[..n], c) <= Kept(a, c) + tail
    ensures n == |a| + |Packets(m, 0, c.room)| ==> Kept((a + Packets(m, 0, c.room))[..n], c) == Kept(a, c) + tail
  {
    assert Fitting(m, c.room);
    hide *;
    var ps := Packets(m, 0, c.room);
    AcrossBoth(a, ps, n);
    KeptSplit(a, ps[..n - |a|], c);
    KeptTail(Kept(a, c), m, c, n - |a|, tail);
  }

  lemma {:induction false} KeptPrefixStep(ms: seq<Message>, c: Config, n: nat)
    requires ms != [] && AllFitting(ms, c.room) && AllSendable(ms, c) && n <= |AllPackets(ms, c.room)|
    ensures AllFitting(InOrder(ms, c), c.room)
    ensures Kept(AllPackets(ms, c.room)[..n], c) <= AllPackets(InOrder(ms, c), c.room)
    ensures n == |AllPackets(ms, c.room)| ==> Kept(AllPackets(ms, c.room)[..n], c) == AllPackets(InOrder(ms, c), c.room)
    decreases |ms| - 1, n + 1
  {
    assert Sendable(ms[|ms| - 1], c);
    assert AllFitting(ms[..|ms| - 1], c.room) && AllSendable(ms[..|ms| - 1], c);
    hide *;
    var front, m, tail := InOrderPackets(ms, c);
    var a, ps := AllPackets(front, c.room), Packets(m, 0, c.room);
    if n < |a| {
      KeptPrefix(front, c, n);
      KeptFirst(a, ps, c, n, AllPackets(InOrder(front, c), c.room), tail);
    } else {
      KeptPrefix(front, c, |a|);
      assert a[..|a|] == a;
      KeptSecond(a, m, c, n, tail);
    }
  }
}
