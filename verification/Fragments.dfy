/** Packing a message's fragments into packets and rebuilding the message from them, byte by byte. */
module Fragments {
  newtype Byte = b: int | 0 <= b < 256
  type Fragment = seq<Byte>
  type Packet = seq<Byte>

  /** A message as handed to the link: its fragments in order. */
  type Message = seq<Fragment>

  const MAX_FRAGMENTS := 99
  const MAX_PACKET_SIZE := 1472
  const HEADER := 4

  /** Places in the array that a packet is put together in. */
  const MAX_ELEMENTS := 100

  /** Storing into an unsigned char. */
  function Low(n: nat): Byte {
    (n % 256) as Byte
  }

  /** The fragment header that follows each fragment: length in two bytes, number, and total. */
  function Header(len: nat, idx: nat, total: nat): seq<Byte> {
    [Low(len), Low(len / 256), Low(idx), Low(total)]
  }

  function LengthAt(p: Packet, at: nat): nat
    requires at + HEADER <= |p|
  {
    p[at] as nat + 256 * p[at + 1] as nat
  }

  /** A fragment followed by its header. */
  function Coded(m: Message, k: nat): seq<Byte>
    requires k < |m|
  {
    m[k] + Header(|m[k]|, k + 1, |m|)
  }

  function Encode(m: Message, i: nat, j: nat): Packet
    requires i <= j <= |m|
    decreases j
  {
    if i == j then [] else Encode(m, i, j - 1) + Coded(m, j - 1)
  }

  /** Bytes that fragments i..j-1 take up in a packet. */
  function Size(m: Message, i: nat, j: nat): nat
    requires i <= j <= |m|
    decreases j
  {
    if i == j then 0 else Size(m, i, j - 1) + |m[j - 1]| + HEADER
  }

  /** Every fragment fits a packet of its own. */
  ghost predicate Fitting(m: Message, room: nat) {
    room <= MAX_PACKET_SIZE && |m| <= MAX_FRAGMENTS && forall k :: 0 <= k < |m| ==> |m[k]| + HEADER <= room
  }

  /** The first fragment the packer leaves for the next packet. */
  function Fill(m: Message, i: nat, used: nat, room: nat): (j: nat)
    requires i <= |m|
    ensures i <= j <= |m|
    decreases |m| - i
  {
    if i < |m| && used + |m[i]| + HEADER <= room then Fill(m, i + 1, used + |m[i]| + HEADER, room) else i
  }

  lemma {:induction false} FillFits(m: Message, first: nat, i: nat, room: nat)
    requires first <= i <= |m| && Size(m, first, i) <= room
    ensures var j := Fill(m, i, Size(m, first, i), room);
            Size(m, first, j) <= room && (j < |m| ==> Size(m, first, j + 1) > room)
    decreases |m| - i
  {
    if i < |m| && Size(m, first, i) + |m[i]| + HEADER <= room {
      FillFits(m, first, i + 1, room);
    }
  }

  /** The packets a message is sent in, from fragment `i` on. */
  function Packets(m: Message, i: nat, room: nat): (ps: seq<Packet>)
    requires i <= |m| && Fitting(m, room)
    ensures |ps| >= 1
    decreases |m| - i
  {
    var j := Fill(m, i, 0, room);
    if j >= |m| then [Encode(m, i, j)] else [Encode(m, i, j)] + Packets(m, j, room)
  }

  lemma EncodeOneMore(m: Message, i: nat, j: nat)
    requires i <= j < |m|
    ensures Encode(m, i, j + 1) == Encode(m, i, j) + m[j] + Header(|m[j]|, j + 1, |m|)
  {
    hide Header;
    assert Encode(m, i, j + 1) == Encode(m, i, j) + Coded(m, j);
  }

  lemma SizeNext(m: Message, i: nat, j: nat)
    requires i <= j < |m|
    ensures Size(m, i, j + 1) == Size(m, i, j) + |m[j]| + HEADER
  {}

  lemma FillNext(m: Message, j: nat, used: nat, room: nat)
    requires j < |m| && used + |m[j]| + HEADER <= room
    ensures Fill(m, j, used, room) == Fill(m, j + 1, used + |m[j]| + HEADER, room)
  {}

  lemma PackStops(m: Message, j: nat, used: nat, room: nat)
    requires j <= |m| && (j < |m| ==> used + |m[j]| + HEADER > room)
    ensures Fill(m, j, used, room) == j
  {}

  /** From fragment `i` on no packet takes more fragments than there are places for: one for the
      packet header, two for each fragment and one for the tail that sending appends. */
  ghost predicate FitsPlaces(m: Message, i: nat, room: nat)
    requires i <= |m|
    decreases |m| - i
  {
    var j := Fill(m, i, 0, room);
    1 + 2 * (j - i) + 1 <= MAX_ELEMENTS && (i < j < |m| ==> FitsPlaces(m, j, room))
  }

  lemma {:induction false} SizeAtLeast(m: Message, i: nat, j: nat, least: nat)
    requires i <= j <= |m| && forall k :: i <= k < j ==> |m[k]| >= least
    ensures Size(m, i, j) >= (j - i) * (least + HEADER)
    decreases j
  {
    if i < j {
      SizeAtLeast(m, i, j - 1, least);
      assert (j - i) * (least + HEADER) == (j - i - 1) * (least + HEADER) + (least + HEADER);
    }
  }

  /** Fragments of 26 bytes or more always find their places. */
  lemma {:induction false} LongFragmentsFitPlaces(m: Message, i: nat, room: nat)
    requires i <= |m| && room <= MAX_PACKET_SIZE && forall k :: 0 <= k < |m| ==> |m[k]| >= 26
    ensures FitsPlaces(m, i, room)
    decreases |m| - i
  {
    assert Size(m, i, i) == 0;
    FillFits(m, i, i, room);
    var j := Fill(m, i, 0, room);
    SizeAtLeast(m, i, j, 26);
    if i < j < |m| { LongFragmentsFitPlaces(m, j, room); }
  }

  /** Pack one packet: take fragments while they fit, each followed by its header.  There is a place
      left for the tail. */
  method PackPacket(m: Message, i: nat, room: nat) returns (p: Packet, j: nat, elements: nat)
    requires i <= |m| && FitsPlaces(m, i, room)
    ensures j == Fill(m, i, 0, room) && p == Encode(m, i, j)
    ensures elements == 1 + 2 * (j - i) < MAX_ELEMENTS
    ensures j < |m| ==> FitsPlaces(m, j, room)
  {
    p := [];
    j := i;
    elements := 1;
    var used := 0;
    assert Size(m, i, i) == 0 && Encode(m, i, i) == [];
    hide Size, Encode, Fill, Header;
    while j < |m| && used + |m[j]| + HEADER <= room
      invariant i <= j <= |m| && used == Size(m, i, j) && p == Encode(m, i, j)
      invariant Fill(m, j, used, room) == Fill(m, i, 0, room)
      invariant elements == 1 + 2 * (j - i) < MAX_ELEMENTS
      decreases |m| - j
    {
      EncodeOneMore(m, i, j);
      SizeNext(m, i, j);
      FillNext(m, j, used, room);
      p := p + m[j] + Header(|m[j]|, j + 1, |m|);
      used := used + |m[j]| + HEADER;
      elements := elements + 2;
      j := j + 1;
    }
    PackStops(m, j, used, room);
  }

  /** A packet makes progress exactly when its first fragment fits: a fragment that does not
      leaves an empty packet behind and is tried again for ever. */
  lemma ProgressIffFits(m: Message, i: nat, room: nat)
    requires i < |m|
    ensures Fill(m, i, 0, room) > i <==> |m[i]| + HEADER <= room
    ensures Fill(m, i, 0, room) == i ==> Encode(m, i, Fill(m, i, 0, room)) == []
  {}

  lemma {:induction false} EncodeSize(m: Message, i: nat, j: nat)
    requires i <= j <= |m|
    ensures |Encode(m, i, j)| == Size(m, i, j)
    decreases j
  {
    if i < j { EncodeSize(m, i, j - 1); }
  }

  /** The fragment that does not fit is the first of the next packet, and fits there. */
  lemma StartNext(m: Message, first: nat, i: nat, used: nat, n: nat, room: nat)
    requires first <= i < |m| && Fitting(m, room) && StartsAt(m, first, n, room)
    requires Fill(m, first, 0, room) == Fill(m, i, used, room) && used + |m[i]| + HEADER > room
    ensures StartsAt(m, i, n + 1, room)
    ensures Size(m, i, i + 1) == |m[i]| + HEADER <= room
    ensures Fill(m, i, 0, room) == Fill(m, i + 1, |m[i]| + HEADER, room)
  {
    assert Size(m, i, i) == 0;
    SizeNext(m, i, i);
    hide Packets, Encode, Size, StartsAt;
    PackStops(m, i, used, room);
    FillNext(m, i, 0, room);
    NextPacket(m, first, i, n, room);
  }

  /** Calculate_Packets_In_Message, which other components use to budget for a message. */
  method CountPackets(m: Message, room: nat) returns (packets: nat, left: int)
    requires Fitting(m, room)
    ensures packets == |Packets(m, 0, room)| && left == room - |Packets(m, 0, room)[packets - 1]|
  {
    packets := 1;
    var len := 0;
    var i := 0;
    ghost var first := 0;
    assert Size(m, 0, 0) == 0;
    assert StartsAt(m, 0, 1, room) by { hide Packets; }
    hide *;
    while i < |m|
      invariant first <= i <= |m| && len == Size(m, first, i)
      invariant Fill(m, first, 0, room) == Fill(m, i, len, room)
      invariant StartsAt(m, first, packets, room)
    {
      if len + |m[i]| + HEADER > room {
        StartNext(m, first, i, len, packets, room);
        packets := packets + 1;
        len := |m[i]| + HEADER;
        first := i;
      } else {
        SizeNext(m, first, i);
        FillNext(m, i, len, room);
        len := len + |m[i]| + HEADER;
      }
      i := i + 1;
    }
    left := room - len;
    PackStops(m, |m|, len, room);
    LastPacket(m, first, packets, room);
  }

  /** Packet number `n` of the message starts at fragment `first`. */
  ghost predicate StartsAt(m: Message, first: nat, n: nat, room: nat)
    requires first <= |m| && Fitting(m, room)
  {
    1 <= n <= |Packets(m, 0, room)| && Packets(m, 0, room)[n - 1..] == Packets(m, first, room)
  }

  lemma NextPacket(m: Message, first: nat, i: nat, n: nat, room: nat)
    requires first <= i < |m| && Fitting(m, room) && Fill(m, first, 0, room) == i && StartsAt(m, first, n, room)
    ensures StartsAt(m, i, n + 1, room)
  {
    assert Packets(m, first, room) == [Encode(m, first, i)] + Packets(m, i, room);
    hide Encode, Fill, Packets;
    assert Packets(m, 0, room)[n - 1..][1..] == Packets(m, 0, room)[n..];
  }

  lemma LastPacket(m: Message, first: nat, n: nat, room: nat)
    requires first <= |m| && Fitting(m, room) && Fill(m, first, 0, room) == |m| && StartsAt(m, first, n, room)
    ensures n == |Packets(m, 0, room)| && |Packets(m, 0, room)[n - 1]| == Size(m, first, |m|)
  {
    assert Packets(m, first, room) == [Encode(m, first, |m|)];
    hide Encode, Fill, Packets;
    EncodeSize(m, first, |m|);
    assert Packets(m, 0, room)[n - 1..][0] == Packets(m, 0, room)[n - 1];
  }

  // ---------------------------------------------------------------- greedy packing is optimal

  /** `cuts` divides fragments `from`.. into |cuts| - 1 consecutive groups that each fit a packet. */
  ghost predicate Division(m: Message, from: nat, cuts: seq<nat>, room: nat) {
    && |cuts| >= 2 && cuts[0] == from && cuts[|cuts| - 1] == |m|
    && forall k :: 0 <= k < |cuts| - 1 ==> GroupFits(m, cuts[k], cuts[k + 1], room)
  }

  ghost predicate GroupFits(m: Message, i: nat, j: nat, room: nat) {
    i <= j <= |m| && Size(m, i, j) <= room
  }

  lemma {:induction false} SizeMonotone(m: Message, i: nat, j: nat, a: nat, b: nat)
    requires i <= a <= b <= j <= |m|
    ensures Size(m, a, b) <= Size(m, i, j)
    decreases j, b
  {
    if b < j {
      SizeMonotone(m, i, j - 1, a, b);
    } else if a < b {
      SizeMonotone(m, i, j - 1, a, b - 1);
    }
  }

  /** Staying ahead: starting no earlier, the greedy packer's first packet reaches at least as far
      as any group that fits. */
  lemma FillAhead(m: Message, i: nat, from: nat, j: nat, room: nat)
    requires i <= from <= |m| && GroupFits(m, i, j, room)
    ensures Fill(m, from, 0, room) >= j
  {
    assert Size(m, from, from) == 0;
    FillFits(m, from, from, room);
    var f := Fill(m, from, 0, room);
    if f < j {
      SizeMonotone(m, i, j, from, f + 1);
    }
  }

  /** No division into packets, even of more of the message, needs fewer than the greedy one. */
  lemma {:induction false} GreedyIsOptimal(m: Message, i: nat, from: nat, cuts: seq<nat>, room: nat)
    requires i <= from <= |m| && Fitting(m, room) && Division(m, i, cuts, room)
    ensures |Packets(m, from, room)| <= |cuts| - 1
    decreases |cuts|
  {
    assert GroupFits(m, cuts[0], cuts[1], room);
    FillAhead(m, i, from, cuts[1], room);
    var f := Fill(m, from, 0, room);
    if f < |m| {
      forall k | 0 <= k < |cuts[1..]| - 1 ensures GroupFits(m, cuts[1..][k], cuts[1..][k + 1], room) {
        assert GroupFits(m, cuts[k + 1], cuts[k + 1 + 1], room);
      }
      GreedyIsOptimal(m, cuts[1], f, cuts[1..], room);
    }
  }

  // ---------------------------------------------------------------- rebuilding

  /** The message being rebuilt: fragments so far, the next expected number, and the total (0 while
      nothing of a message has arrived). */
  datatype Partial = Partial(frags: seq<Fragment>, idx: nat, total: nat)

  const FRESH := Partial([], 1, 0)

  /** How a packet was taken: the message is complete, more is to come, an error code, or a header
      that would lie outside the packet. */
  datatype Taken = Ready | NotReady | Rejected(code: int) | Outside

  /** The backward pass over a packet: bytes not handled yet, the total agreed on, the number
      expected next, the highest number seen, and where each number's header stands. */
  datatype Scan = Scan(left: nat, total: nat, next: nat, last: nat, at: map<nat, nat>)

  datatype ScanResult = Scanned(s: Scan) | ScanFailed(taken: Taken, total: nat)

  /** One step of the backward pass. */
  function ScanStep(p: Packet, s: Scan): ScanResult
    requires 0 < s.left <= |p|
  {
    if s.left < HEADER then ScanFailed(Outside, s.total)
    else
      var at := s.left - HEADER;
      var len, idx, total := LengthAt(p, at), p[at + 2] as nat, p[at + 3] as nat;
      if total == 0 || total > MAX_FRAGMENTS then ScanFailed(Rejected(-1), s.total)
      else if s.total != 0 && s.total != total then ScanFailed(Rejected(-2), s.total)
      else if idx == 0 || idx > total then ScanFailed(Rejected(-3), total)
      else
        var next := if s.next == 0 then idx else s.next;
        var last := if s.next == 0 then idx else s.last;
        if idx != next then ScanFailed(Rejected(-4), total)
        else if len > at then ScanFailed(Rejected(-5), total)
        else Scanned(Scan(at - len, total, next - 1, last, s.at[idx := at]))
  }

  function ScanFrom(p: Packet, s: Scan): ScanResult
    requires s.left <= |p|
    decreases s.left
  {
    if s.left == 0 then Scanned(s)
    else match ScanStep(p, s)
         case ScanFailed(taken, total) => ScanFailed(taken, total)
         case Scanned(s') => ScanFrom(p, s')
  }

  /** The forward pass: append fragments `next`..`last`, which must continue the message. */
  function Append(p: Packet, s: Scan, m: Partial, next: nat): (Taken, Partial)
    decreases s.last + 1 - next
  {
    if next > s.last then (if m.idx == m.total + 1 then Ready else NotReady, m)
    else if next != m.idx then (Rejected(-6), m)
    else if next !in s.at || s.at[next] + HEADER > |p| then (Outside, m)
    else if p[s.at[next] + 2] as nat != m.idx then (Rejected(-6), m)
    else
      var at := s.at[next];
      var len := LengthAt(p, at);
      if len > at then (Outside, m)
      else Append(p, s, Partial(m.frags + [p[at - len..at]], m.idx + 1, m.total), next + 1)
  }

  /** Build_Message_From_Fragments_IT. */
  function Build(m: Partial, p: Packet): (Taken, Partial) {
    match ScanFrom(p, Scan(|p|, m.total, 0, 0, map[]))
    case ScanFailed(taken, total) => (taken, m.(total := total))
    case Scanned(s) => Append(p, s, m.(total := s.total), s.next + 1)
  }

  method BuildMessage(m: Partial, p: Packet) returns (taken: Taken, m': Partial)
    ensures (taken, m') == Build(m, p)
  {
    var s := Scan(|p|, m.total, 0, 0, map[]);
    while s.left > 0
      invariant s.left <= |p| && ScanFrom(p, s) == ScanFrom(p, Scan(|p|, m.total, 0, 0, map[]))
      decreases s.left
    {
      match ScanStep(p, s)
      case ScanFailed(why, total) => return why, m.(total := total);
      case Scanned(s') => s := s';
    }
    m' := m.(total := s.total);
    var next := s.next + 1;
    while next <= s.last
      invariant Append(p, s, m', next) == Build(m, p)
      decreases s.last + 1 - next
    {
      if next != m'.idx { return Rejected(-6), m'; }
      if next !in s.at || s.at[next] + HEADER > |p| { return Outside, m'; }
      if p[s.at[next] + 2] as nat != m'.idx { return Rejected(-6), m'; }
      var at := s.at[next];
      var len := LengthAt(p, at);
      if len > at { return Outside, m'; }
      m' := Partial(m'.frags + [p[at - len..at]], m'.idx + 1, m'.total);
      next := next + 1;
    }
    taken := if m'.idx == m'.total + 1 then Ready else NotReady;
  }

  // ---------------------------------------------------------------- the round trip

  lemma {:induction false} EncodePrefix(m: Message, i: nat, k: nat, j: nat)
    requires i <= k <= j <= |m|
    ensures |Encode(m, i, k)| <= |Encode(m, i, j)| && Encode(m, i, j)[..|Encode(m, i, k)|] == Encode(m, i, k)
    decreases j
  {
    if k < j {
      EncodePrefix(m, i, k, j - 1);
    }
  }

  lemma HeaderBytes(len: nat, idx: nat, total: nat)
    requires len < 65536 && idx < 256 && total < 256
    ensures LengthAt(Header(len, idx, total), 0) == len
    ensures Header(len, idx, total)[2] as nat == idx && Header(len, idx, total)[3] as nat == total
  {}

  lemma InsideHeader(e: seq<Byte>, f: seq<Byte>, h: seq<Byte>, p: Packet)
    requires |h| == HEADER && |e + f + h| <= |p| && p[..|e + f + h|] == e + f + h
    ensures LengthAt(p, |e| + |f|) == LengthAt(h, 0)
    ensures p[|e| + |f| + 2] == h[2] && p[|e| + |f| + 3] == h[3]
  {
    var q := e + f + h;
    forall b | 0 <= b < |q| ensures p[b] == q[b] { assert p[..|q|][b] == q[b]; }
  }

  lemma InsideData(e: seq<Byte>, f: seq<Byte>, h: seq<Byte>, p: Packet)
    requires |h| == HEADER && |e + f + h| <= |p| && p[..|e + f + h|] == e + f + h
    ensures p[|e|..|e| + |f|] == f
  {
    var q := e + f + h;
    forall b | 0 <= b < |q| ensures p[b] == q[b] { assert p[..|q|][b] == q[b]; }
  }

  /** In the packet of fragments i..j-1, fragment `x` stands right after the ones before it. */
  lemma DataAt(m: Message, i: nat, x: nat, j: nat)
    requires i <= x < j <= |m|
    ensures |Encode(m, i, x)| + |m[x]| + HEADER <= |Encode(m, i, j)|
    ensures Encode(m, i, j)[|Encode(m, i, x)|..|Encode(m, i, x)| + |m[x]|] == m[x]
  {
    var h := EncodeNext(m, i, x);
    hide *;
    EncodePrefix(m, i, x + 1, j);
    InsideData(Encode(m, i, x), m[x], h, Encode(m, i, j));
  }

  lemma EncodeNext(m: Message, i: nat, x: nat) returns (h: seq<Byte>)
    requires i <= x < |m|
    ensures |h| == HEADER && h == Header(|m[x]|, x + 1, |m|) && Encode(m, i, x + 1) == Encode(m, i, x) + m[x] + h
  {
    h := Header(|m[x]|, x + 1, |m|);
  }

  /** And its header right after it. */
  lemma HeaderAt(m: Message, i: nat, x: nat, j: nat, room: nat) returns (p: Packet, at: nat)
    requires i <= x < j <= |m| && Fitting(m, room)
    ensures p == Encode(m, i, j) && at == |Encode(m, i, x)| + |m[x]|
    ensures |Encode(m, i, x + 1)| == at + HEADER && HeaderHere(p, at, |m[x]|, x + 1, |m|)
  {
    p, at := Encode(m, i, j), |Encode(m, i, x)| + |m[x]|;
    EncodePrefix(m, i, x + 1, j);
    var e, h := Encode(m, i, x), Header(|m[x]|, x + 1, |m|);
    assert Encode(m, i, x + 1) == e + m[x] + h;
    HeaderBytes(|m[x]|, x + 1, |m|);
    hide Encode, Header, LengthAt;
    InsideHeader(e, m[x], h, p);
  }

  /** Header positions of fragments k..j-1 by fragment number. */
  ghost function Positions(m: Message, i: nat, k: nat, j: nat): map<nat, nat>
    requires i <= k <= j <= |m|
    decreases j - k
  {
    if k == j then map[] else Positions(m, i, k + 1, j)[k + 1 := |Encode(m, i, k)| + |m[k]|]
  }

  lemma {:induction false} PositionsAt(m: Message, i: nat, k: nat, j: nat, x: nat)
    requires i <= k <= x < j <= |m|
    ensures x + 1 in Positions(m, i, k, j) && Positions(m, i, k, j)[x + 1] == |Encode(m, i, x)| + |m[x]|
    decreases j - k
  {
    if k < x { PositionsAt(m, i, k + 1, j, x); }
  }

  /** The backward pass when fragments k..j-1 of the packet have been handled. */
  ghost function ScanAt(m: Message, i: nat, k: nat, j: nat, before: nat): Scan
    requires i <= k <= j <= |m|
  {
    if k == j then Scan(|Encode(m, i, j)|, before, 0, 0, map[])
    else Scan(|Encode(m, i, k)|, |m|, k, j, Positions(m, i, k, j))
  }

  /** A header with these fields stands at `at`. */
  ghost predicate HeaderHere(p: Packet, at: nat, len: nat, idx: nat, total: nat) {
    && at + HEADER <= |p| && LengthAt(p, at) == len <= at
    && p[at + 2] as nat == idx && p[at + 3] as nat == total && 0 < idx <= total <= MAX_FRAGMENTS
  }

  /** The pass is at the end of that header and has nothing against it. */
  ghost predicate Agrees(s: Scan, at: nat, idx: nat, total: nat) {
    s.left == at + HEADER && (s.total == 0 || s.total == total) && (s.next == 0 || s.next == idx)
  }

  lemma ScanStepIs(p: Packet, s: Scan, at: nat, len: nat, idx: nat, total: nat)
    requires HeaderHere(p, at, len, idx, total) && Agrees(s, at, idx, total)
    ensures 0 < s.left <= |p|
    ensures ScanStep(p, s) ==
                Scanned(Scan(at - len, total, idx - 1, if s.next == 0 then idx else s.last, s.at[idx := at]))
  {}

  lemma ScanAgrees(m: Message, i: nat, k: nat, j: nat, before: nat, at: nat)
    requires i <= k <= j <= |m| && (before == 0 || before == |m|) && |Encode(m, i, k)| == at + HEADER
    ensures Agrees(ScanAt(m, i, k, j, before), at, k, |m|)
  {
    hide Encode, Positions;
  }

  lemma ScanNext(m: Message, i: nat, k: nat, j: nat, before: nat)
    requires i < k <= j <= |m|
    ensures var s := ScanAt(m, i, k, j, before);
            ScanAt(m, i, k - 1, j, before) ==
            Scan(|Encode(m, i, k - 1)|, |m|, k - 1, if s.next == 0 then k else s.last,
                 s.at[k := |Encode(m, i, k - 1)| + |m[k - 1]|])
  {
    assert Positions(m, i, k - 1, j) == Positions(m, i, k, j)[k := |Encode(m, i, k - 1)| + |m[k - 1]|];
    hide Encode, Positions;
  }

  lemma ScanOne(m: Message, i: nat, k: nat, j: nat, room: nat, before: nat)
    requires i < k <= j <= |m| && Fitting(m, room) && (before == 0 || before == |m|)
    ensures 0 < ScanAt(m, i, k, j, before).left <= |Encode(m, i, j)|
    ensures ScanStep(Encode(m, i, j), ScanAt(m, i, k, j, before)) == Scanned(ScanAt(m, i, k - 1, j, before))
  {
    hide *;
    var p, at := HeaderAt(m, i, k - 1, j, room);
    ScanAgrees(m, i, k, j, before, at);
    ScanNext(m, i, k, j, before);
    ScanStepIs(p, ScanAt(m, i, k, j, before), at, |m[k - 1]|, k, |m|);
  }

  lemma ScanFromStep(p: Packet, s: Scan, t: Scan)
    requires 0 < s.left <= |p| && ScanStep(p, s) == Scanned(t)
    ensures t.left <= |p| && ScanFrom(p, s) == ScanFrom(p, t)
  {
    hide LengthAt;
  }

  lemma ScanEnd(m: Message, i: nat, j: nat, before: nat)
    requires i < j <= |m|
    ensures var s := ScanAt(m, i, i, j, before); s == ScanAt(m, i, i, j, 0) && s.left == 0 <= |Encode(m, i, j)|
    ensures ScanFrom(Encode(m, i, j), ScanAt(m, i, i, j, before)) == Scanned(ScanAt(m, i, i, j, 0))
  {
    assert |Encode(m, i, i)| == 0;
  }

  lemma {:induction false} ScanAll(m: Message, i: nat, k: nat, j: nat, room: nat, before: nat)
    requires i < j && i <= k <= j <= |m| && Fitting(m, room) && (before == 0 || before == |m|)
    ensures ScanAt(m, i, k, j, before).left <= |Encode(m, i, j)|
    ensures ScanFrom(Encode(m, i, j), ScanAt(m, i, k, j, before)) == Scanned(ScanAt(m, i, i, j, 0))
    decreases k
  {
    hide *;
    if i < k {
      ScanOne(m, i, k, j, room, before);
      ScanAll(m, i, k - 1, j, room, before);
      ScanFromStep(Encode(m, i, j), ScanAt(m, i, k, j, before), ScanAt(m, i, k - 1, j, before));
    } else {
      ScanEnd(m, i, j, before);
    }
  }

  lemma {:induction false} AppendAll(m: Message, i: nat, k: nat, j: nat, room: nat)
    requires i <= k <= j <= |m| && i < j && Fitting(m, room)
    ensures Append(Encode(m, i, j), ScanAt(m, i, i, j, 0), Partial(m[..k], k + 1, |m|), k + 1)
            == (if j == |m| then Ready else NotReady, Partial(m[..j], j + 1, |m|))
    decreases j - k
  {
    hide Encode, LengthAt, Positions;
    if k < j {
      var p, at := HeaderAt(m, i, k, j, room);
      DataAt(m, i, k, j);
      PositionsAt(m, i, i, j, k);
      AppendAll(m, i, k + 1, j, room);
      assert m[..k] + [m[k]] == m[..k + 1];
    }
  }

  /** What the receiver holds once the first `i` fragments of `m` have arrived. */
  ghost function Halfway(m: Message, i: nat): Partial
    requires i <= |m|
  {
    Partial(m[..i], i + 1, if i == 0 then 0 else |m|)
  }

  lemma BuildIs(m: Partial, p: Packet, s: Scan, r: (Taken, Partial))
    requires ScanFrom(p, Scan(|p|, m.total, 0, 0, map[])) == Scanned(s)
    requires Append(p, s, Partial(m.frags, m.idx, s.total), s.next + 1) == r
    ensures Build(m, p) == r
  {}

  lemma ScanEnds(m: Message, i: nat, j: nat, before: nat)
    requires i < j <= |m|
    ensures ScanAt(m, i, j, j, before) == Scan(|Encode(m, i, j)|, before, 0, 0, map[])
    ensures ScanAt(m, i, i, j, 0).total == |m| && ScanAt(m, i, i, j, 0).next == i
  {}

  lemma BuildMore(m: Message, i: nat, j: nat, room: nat)
    requires i < j <= |m| && Fitting(m, room)
    ensures Build(Halfway(m, i), Encode(m, i, j)) == (if j == |m| then Ready else NotReady, Halfway(m, j))
  {
    var before := if i == 0 then 0 else |m|;
    assert Halfway(m, i) == Partial(m[..i], i + 1, before) && Halfway(m, j) == Partial(m[..j], j + 1, |m|);
    hide *;
    ScanEnds(m, i, j, before);
    ScanAll(m, i, j, j, room, before);
    AppendAll(m, i, i, j, room);
    BuildIs(Halfway(m, i), Encode(m, i, j), ScanAt(m, i, i, j, 0),
            (if j == |m| then Ready else NotReady, Halfway(m, j)));
  }

  /** One packet further: the reassembler takes exactly the fragments the packer put in, and knows
      when the message is complete. */
  lemma BuildInverse(m: Message, i: nat, j: nat, room: nat)
    requires i <= j <= |m| && Fitting(m, room) && (i < j || |m| == 0)
    ensures Build(Halfway(m, i), Encode(m, i, j)) == (if j == |m| then Ready else NotReady, Halfway(m, j))
  {
    if i < j { BuildMore(m, i, j, room); }
  }

  // ---------------------------------------------------------------- streams of packets

  /** What a receiver has made of the packets so far. */
  datatype Inbox = Inbox(partial: Partial, delivered: seq<Message>, broken: bool)

  function Consume(b: Inbox, p: Packet): Inbox {
    match Build(b.partial, p)
    case (Ready, m) => Inbox(FRESH, b.delivered + [m.frags], b.broken)
    case (NotReady, m) => Inbox(m, b.delivered, b.broken)
    case (_, m) => Inbox(m, b.delivered, true)
  }

  const EMPTY_INBOX := Inbox(FRESH, [], false)

  ghost function FeedAll(ps: seq<Packet>): Inbox {
    if ps == [] then EMPTY_INBOX else Consume(FeedAll(ps[..|ps| - 1]), ps[|ps| - 1])
  }

  ghost predicate AllFitting(ms: seq<Message>, room: nat) {
    forall i :: 0 <= i < |ms| ==> Fitting(ms[i], room)
  }

  ghost function AllPackets(ms: seq<Message>, room: nat): seq<Packet>
    requires AllFitting(ms, room)
  {
    if ms == [] then [] else AllPackets(ms[..|ms| - 1], room) + Packets(ms[|ms| - 1], 0, room)
  }

  /** The fragments covered by the first `k` packets from fragment `i` on. */
  ghost function Cut(m: Message, i: nat, k: nat, room: nat): (c: nat)
    requires i <= |m|
    ensures i <= c <= |m|
    decreases k
  {
    if k == 0 then i else Cut(m, Fill(m, i, 0, room), k - 1, room)
  }

  lemma {:induction false} PacketAt(m: Message, i: nat, k: nat, room: nat)
    requires i <= |m| && Fitting(m, room) && k < |Packets(m, i, room)|
    ensures var c := Cut(m, i, k, room);
            && Packets(m, i, room)[k..] == Packets(m, c, room)
            && Packets(m, i, room)[k] == Encode(m, c, Fill(m, c, 0, room))
            && Cut(m, i, k + 1, room) == Fill(m, c, 0, room)
            && (k + 1 == |Packets(m, i, room)| <==> Fill(m, c, 0, room) == |m|)
            && (i < |m| || |m| == 0 ==> c < Fill(m, c, 0, room) || |m| == 0)
    decreases k
  {
    if k > 0 {
      PacketAt(m, Fill(m, i, 0, room), k - 1, room);
    }
  }

  lemma TakeNext(ms: seq<Message>, m: Message, c: nat, j: nat, room: nat)
    requires c <= j <= |m| && Fitting(m, room) && (c < j || |m| == 0)
    ensures Consume(Inbox(Halfway(m, c), ms, false), Encode(m, c, j)) ==
            if j == |m| then Inbox(FRESH, ms + [m], false) else Inbox(Halfway(m, j), ms, false)
  {
    BuildInverse(m, c, j, room);
    assert m[..|m|] == m;
  }

  lemma FeedNext(a: seq<Packet>, ps: seq<Packet>, k: nat)
    requires 0 < k <= |ps|
    ensures FeedAll(a + ps[..k]) == Consume(FeedAll(a + ps[..k - 1]), ps[k - 1])
  {
    assert (a + ps[..k])[..|a| + k - 1] == a + ps[..k - 1];
    assert (a + ps[..k])[|a| + k - 1] == ps[k - 1];
  }

  /** Part-way through a message: everything before is delivered, and the part is held. */
  lemma {:induction false} FeedPart(ms: seq<Message>, m: Message, k: nat, room: nat)
    requires AllFitting(ms, room) && Fitting(m, room) && k < |Packets(m, 0, room)|
    requires FeedAll(AllPackets(ms, room)) == Inbox(FRESH, ms, false)
    ensures FeedAll(AllPackets(ms, room) + Packets(m, 0, room)[..k]) == Inbox(Halfway(m, Cut(m, 0, k, room)), ms, false)
    decreases k
  {
    hide Packets, AllPackets, FeedAll, Encode, Fill, Fitting;
    if k == 0 {
      assert AllPackets(ms, room) + Packets(m, 0, room)[..0] == AllPackets(ms, room);
      assert m[..0] == [];
    } else {
      FeedPart(ms, m, k - 1, room);
      FeedOne(ms, m, k - 1, room);
      PacketAt(m, 0, k - 1, room);
    }
  }

  /** One packet more. */
  lemma FeedOne(ms: seq<Message>, m: Message, k: nat, room: nat)
    requires AllFitting(ms, room) && Fitting(m, room) && k < |Packets(m, 0, room)|
    requires FeedAll(AllPackets(ms, room) + Packets(m, 0, room)[..k]) ==
                 Inbox(Halfway(m, Cut(m, 0, k, room)), ms, false)
    ensures FeedAll(AllPackets(ms, room) + Packets(m, 0, room)[..k + 1]) ==
            if k + 1 == |Packets(m, 0, room)| then Inbox(FRESH, ms + [m], false)
            else Inbox(Halfway(m, Cut(m, 0, k + 1, room)), ms, false)
  {
    hide *;
    PacketAt(m, 0, k, room);
    var c := Cut(m, 0, k, room);
    TakeNext(ms, m, c, Fill(m, c, 0, room), room);
    FeedNext(AllPackets(ms, room), Packets(m, 0, room), k + 1);
  }

  lemma FeedWhole(ms: seq<Message>, m: Message, room: nat)
    requires AllFitting(ms, room) && Fitting(m, room)
    requires FeedAll(AllPackets(ms, room)) == Inbox(FRESH, ms, false)
    ensures FeedAll(AllPackets(ms, room) + Packets(m, 0, room)) == Inbox(FRESH, ms + [m], false)
  {
    var ps := Packets(m, 0, room);
    FeedPart(ms, m, |ps| - 1, room);
    FeedOne(ms, m, |ps| - 1, room);
    assert ps[..|ps|] == ps;
  }

  /** Feeding the packets of any messages, in order, gives back exactly those messages. */
  lemma {:induction false} FeedMessages(ms: seq<Message>, room: nat)
    requires AllFitting(ms, room)
    ensures FeedAll(AllPackets(ms, room)) == Inbox(FRESH, ms, false)
  {
    hide *;
    if ms != [] {
      var front, m := LastOf(ms, room);
      FeedMessages(front, room);
      FeedWhole(front, m, room);
    } else {
      FeedNone(room);
    }
  }

  lemma LastOf(ms: seq<Message>, room: nat) returns (front: seq<Message>, m: Message)
    requires AllFitting(ms, room) && ms != []
    ensures front == ms[..|ms| - 1] && ms == front + [m] && AllFitting(front, room) && Fitting(m, room)
    ensures AllPackets(ms, room) == AllPackets(front, room) + Packets(m, 0, room)
  {
    front, m := ms[..|ms| - 1], ms[|ms| - 1];
  }

  lemma FeedNone(room: nat)
    ensures AllFitting([], room) && FeedAll(AllPackets([], room)) == Inbox(FRESH, [], false)
  {}

  /** Feeding only the first packets gives a prefix of the messages and never an error. */
  lemma {:induction false} FeedPrefix(ms: seq<Message>, n: nat, room: nat)
    requires AllFitting(ms, room) && n <= |AllPackets(ms, room)|
    ensures var b := FeedAll(AllPackets(ms, room)[..n]); !b.broken && b.delivered <= ms
  {
    hide Packets, FeedAll, Fitting;
    if ms != [] {
      var front, m := ms[..|ms| - 1], ms[|ms| - 1];
      var a := AllPackets(front, room);
      if n <= |a| {
        FeedPrefix(front, n, room);
        assert AllPackets(ms, room)[..n] == a[..n];
      } else if n - |a| < |Packets(m, 0, room)| {
        FeedMessages(front, room);
        FeedPart(front, m, n - |a|, room);
        assert AllPackets(ms, room)[..n] == a + Packets(m, 0, room)[..n - |a|];
      } else {
        FeedMessages(ms, room);
        assert AllPackets(ms, room)[..n] == AllPackets(ms, room);
      }
    } else {
      FeedMessages(ms, room);
    }
  }
}
