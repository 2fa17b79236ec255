/** Once the network stops losing packets, everything let out gets through: every round of timeout,
    negative acknowledgement and retransmission leaves strictly less missing, whatever else the two
    sides do in between. */
module Recovery {
  import opened Wrappers
  import opened Fragments
  import opened ItLink
  import opened SenderSide
  import opened ReceiverSide
  import opened Delivery
  import opened Transport
  import opened Incarnations

  /** Add_IT_Nacks: the missing numbers from `i` on whose timer has expired, as many as fit. */
  function Missing(r: Receiver, c: Config, due: nat -> bool, i: nat, cap: nat): (ns: seq<nat>)
    requires r.Fits(c)
    decreases r.head - i
  {
    if i >= r.head || cap == 0 then []
    else if r.cells[Slot(i, c.w)].Nack? && due(i) then [i] + Missing(r, c, due, i + 1, cap - 1)
    else Missing(r, c, due, i + 1, cap)
  }

  /** Handle_IT_Retransm: what is asked for from `i` on and may be sent again by now, as far as the
      budget goes. */
  function Retransmit(s: Sender, c: Config, due: nat -> bool, i: nat, budget: nat): (x: (Sender, seq<nat>))
    requires s.Fits(c)
    ensures x.0.Fits(c) && x.0 == s.(nacked := x.0.nacked)
    ensures forall k :: 0 <= k < |x.1| ==> i <= x.1[k] < s.tcpHead
    decreases s.tcpHead - i
  {
    if i >= s.tcpHead || budget == 0 then (s, [])
    else if s.nacked[Slot(i, c.w)] && due(i) then
      var (t, ns) := Retransmit(s.(nacked := s.nacked[Slot(i, c.w) := false]), c, due, i + 1, budget - 1);
      (t, [i] + ns)
    else Retransmit(s, c, due, i + 1, budget)
  }

  /** `ns` are wanted numbers from `i` to below `end`, in order and each once, no more than `cap`; none is
      left out unless as many are named, all of them lower. */
  ghost predicate Picks(ns: seq<nat>, i: nat, end: nat, want: nat -> bool, cap: nat) {
    && |ns| <= cap && (forall a, b :: 0 <= a < b < |ns| ==> ns[a] < ns[b])
    && (forall a :: 0 <= a < |ns| ==> i <= ns[a] < end && want(ns[a]))
    && (forall n: nat {:trigger want(n)} :: i <= n < end && want(n) && n !in ns ==>
          |ns| == cap && forall a :: 0 <= a < |ns| ==> ns[a] < n)
  }

  lemma NothingPicked(i: nat, end: nat, want: nat -> bool, cap: nat)
    requires i >= end || cap == 0
    ensures Picks([], i, end, want, cap)
  {}

  lemma PicksIn(ns: seq<nat>, i: nat, end: nat, want: nat -> bool, cap: nat, n: nat)
    requires Picks(ns, i, end, want, cap)
    ensures n in ns ==> i <= n < end && want(n)
  {}

  lemma PickOne(ns: seq<nat>, i: nat, end: nat, want: nat -> bool, cap: nat)
    requires Picks(ns, i + 1, end, want, cap) && i < end && want(i)
    ensures Picks([i] + ns, i, end, want, cap + 1)
  {
    var all := [i] + ns;
    forall a, b | 0 <= a < b < |all| ensures all[a] < all[b] {
      assert all[b] == ns[b - 1] && (a > 0 ==> all[a] == ns[a - 1]);
    }
    forall n: nat {:trigger want(n)} | i <= n < end && want(n) && n !in all
      ensures |all| == cap + 1 && forall a :: 0 <= a < |all| ==> all[a] < n
    {
      assert all[0] == i && n !in ns;
    }
  }

  /** Nothing is wanted at `i`, or there is no room; and what is wanted may be told in another way. */
  lemma PickNone(ns: seq<nat>, i: nat, end: nat, want: nat -> bool, also: nat -> bool, cap: nat)
    requires Picks(ns, i + 1, end, also, cap) && !want(i) && forall n: nat :: i < n < end ==> want(n) == also(n)
    ensures Picks(ns, i, end, want, cap)
  {
    assert forall a :: 0 <= a < |ns| ==> also(ns[a]);
    assert forall n: nat {:trigger want(n)} :: i < n < end && want(n) ==> also(n);
  }

  lemma PicksAlso(ns: seq<nat>, i: nat, end: nat, want: nat -> bool, also: nat -> bool, cap: nat)
    requires Picks(ns, i, end, also, cap) && forall n: nat :: i <= n < end ==> want(n) == also(n)
    ensures Picks(ns, i, end, want, cap)
  {
    assert forall a :: 0 <= a < |ns| ==> also(ns[a]);
    assert forall n: nat {:trigger want(n)} :: i <= n < end && want(n) ==> also(n);
  }

  /** Missing, and its timer has expired. */
  ghost predicate Wanting(r: Receiver, c: Config, due: nat -> bool, n: nat) {
    r.Fits(c) && r.cells[Slot(n, c.w)].Nack? && due(n)
  }

  ghost function Wants(r: Receiver, c: Config, due: nat -> bool): nat -> bool { (n: nat) => Wanting(r, c, due, n) }

  /** Add_IT_Nacks names the missing numbers of the window whose timer has expired. */
  lemma {:induction false} MissingExactly(r: Receiver, c: Config, due: nat -> bool, i: nat, cap: nat)
    requires r.Fits(c)
    ensures Picks(Missing(r, c, due, i, cap), i, r.head, Wants(r, c, due), cap)
    decreases r.head - i
  {
    hide Slot, Picks;
    var want := Wants(r, c, due);
    if i >= r.head || cap == 0 {
      NothingPicked(i, r.head, want, cap);
    } else if Wanting(r, c, due, i) {
      MissingExactly(r, c, due, i + 1, cap - 1);
      PickOne(Missing(r, c, due, i + 1, cap - 1), i, r.head, want, cap - 1);
    } else {
      MissingExactly(r, c, due, i + 1, cap);
      PickNone(Missing(r, c, due, i + 1, cap), i, r.head, want, want, cap);
    }
  }

  /** Asked for, and may be sent again by now. */
  ghost predicate Asked(s: Sender, c: Config, due: nat -> bool, n: nat) {
    s.Fits(c) && s.nacked[Slot(n, c.w)] && due(n)
  }

  ghost function AskedOf(s: Sender, c: Config, due: nat -> bool): nat -> bool { (n: nat) => Asked(s, c, due, n) }

  lemma MarkGone(s: Sender, c: Config, due: nat -> bool, i: nat, n: nat)
    requires s.Fits(c) && i < n < i + c.w
    ensures var t := s.(nacked := s.nacked[Slot(i, c.w) := false]);
            && t.Fits(c) && (Asked(t, c, due, n) <==> Asked(s, c, due, n))
            && t.nacked[Slot(n, c.w)] == s.nacked[Slot(n, c.w)]
  {
    SlotApart(i, n, c.w);
    hide Slot;
  }

  /** Handle_IT_Retransm sends the numbers asked for whose time has come. */
  lemma {:induction false} RetransmitExactly(s: Sender, c: Config, due: nat -> bool, i: nat, budget: nat)
    requires s.Fits(c) && s.tcpHead <= i + c.w
    ensures Picks(Retransmit(s, c, due, i, budget).1, i, s.tcpHead, AskedOf(s, c, due), budget)
    decreases s.tcpHead - i
  {
    hide Slot, Picks;
    var want := AskedOf(s, c, due);
    if i >= s.tcpHead || budget == 0 {
      NothingPicked(i, s.tcpHead, want, budget);
    } else if Asked(s, c, due, i) {
      var t := s.(nacked := s.nacked[Slot(i, c.w) := false]);
      var also := AskedOf(t, c, due);
      RetransmitExactly(t, c, due, i + 1, budget - 1);
      forall n: nat | i < n < s.tcpHead ensures want(n) == also(n) { MarkGone(s, c, due, i, n); }
      var ns := Retransmit(t, c, due, i + 1, budget - 1).1;
      PicksAlso(ns, i + 1, s.tcpHead, want, also, budget - 1);
      PickOne(ns, i, s.tcpHead, want, budget - 1);
    } else {
      RetransmitExactly(s, c, due, i + 1, budget);
      PickNone(Retransmit(s, c, due, i + 1, budget).1, i, s.tcpHead, want, want, budget);
    }
  }

  /** One turn of the loop over the ring. */
  lemma RetransmitTurn(s: Sender, c: Config, due: nat -> bool, i: nat, budget: nat)
    requires s.Fits(c) && s.tcpHead <= i + c.w
    ensures i >= s.tcpHead || budget == 0 ==> Retransmit(s, c, due, i, budget) == (s, [])
    ensures i < s.tcpHead && budget != 0 && !Asked(s, c, due, i) ==>
              Retransmit(s, c, due, i, budget) == Retransmit(s, c, due, i + 1, budget)
    ensures i < s.tcpHead && budget != 0 && Asked(s, c, due, i) ==>
              var t := s.(nacked := s.nacked[Slot(i, c.w) := false]);
              && t.Fits(c) && Retransmit(s, c, due, i, budget).0 == Retransmit(t, c, due, i + 1, budget - 1).0
              && Retransmit(s, c, due, i, budget).1 == [i] + Retransmit(t, c, due, i + 1, budget - 1).1
  {
    hide Slot;
  }

  /** And exactly what is sent is no longer marked. */
  lemma {:induction false} RetransmitUnmarks(s: Sender, c: Config, due: nat -> bool, i: nat, budget: nat, n: nat)
    requires s.Fits(c) && s.tcpHead <= i + c.w && i <= n < i + c.w
    ensures var (t, ns) := Retransmit(s, c, due, i, budget);
            t.nacked[Slot(n, c.w)] <==> s.nacked[Slot(n, c.w)] && n !in ns
    decreases s.tcpHead - i
  {
    RetransmitTurn(s, c, due, i, budget);
    hide Slot, Picks, Retransmit;
    if i < s.tcpHead && budget != 0 {
      SlotRound(i, c.w);
      var next := if n == i then i + c.w else n;
      if Asked(s, c, due, i) {
        var t := s.(nacked := s.nacked[Slot(i, c.w) := false]);
        RetransmitUnmarks(t, c, due, i + 1, budget - 1, next);
        NotSent(t, c, due, i + 1, budget - 1, i + c.w);
        if n != i { MarkGone(s, c, due, i, n); }
      } else {
        RetransmitUnmarks(s, c, due, i + 1, budget, next);
        NotSent(s, c, due, i + 1, budget, i);
        NotSent(s, c, due, i + 1, budget, i + c.w);
      }
    }
  }

  lemma NotSent(s: Sender, c: Config, due: nat -> bool, i: nat, budget: nat, n: nat)
    requires s.Fits(c) && s.tcpHead <= i + c.w && (n < i || n >= s.tcpHead)
    ensures n !in Retransmit(s, c, due, i, budget).1
  {
    RetransmitExactly(s, c, due, i, budget);
    PicksIn(Retransmit(s, c, due, i, budget).1, i, s.tcpHead, AskedOf(s, c, due), budget, n);
  }

  /** What fits in an acknowledgement, and what may be sent again at once: at least one each. */
  datatype Limits = Limits(cap: nat, budget: nat) {
    ghost predicate Some() { cap > 0 && budget > 0 }
  }

  // ---------------------------------------------------------------- a round

  /** Anything but an answer to what side b asked for. */
  predicate Quiet(mv: Move) { mv.ByB? || !mv.ev.Resend? || !mv.ev.answered }

  /** Some quiet moves lead from `s` to `t`. */
  ghost predicate Pause(c: Config, s: State, t: State) {
    && s.Fits(c)
    && exists moves :: Legal(c, s, moves) && t == Steps(c, s, moves) && forall i :: 0 <= i < |moves| ==> Quiet(moves[i])
  }

  ghost predicate Does(c: Config, s: State, mv: Move, t: State) {
    s.Fits(c) && Allowed(c, s, mv) && t == Step(c, s, mv)
  }

  /** After a pause `w` reaches side b, which deals with all of it. */
  ghost predicate Arrives(c: Config, s: State, w: Wire, t: State) {
    exists u, v, rand :: Pause(c, s, u) && Does(c, u, ByB(TakeAck(w, rand)), v) && Does(c, v, ByB(TakeData), t)
  }

  function LastOut(s: Sender): nat { if s.tcpHead == 0 then 0 else s.tcpHead - 1 }

  /** Packet `n` is sent again and arrives. */
  ghost predicate GoesAgain(c: Config, s: State, n: nat, nacks: seq<nat>, u: State, t: State) {
    Does(c, s, ByA(Resend(n, false, nacks)), u) && Arrives(c, u, DataWire(s.a, c, n, nacks), t)
  }

  /** Reliable_IT_Timeout at side a: the last packet let out is sent again and arrives. */
  ghost predicate TimesOut(c: Config, s: State, t: State) {
    if s.a.out.tcpHead > s.a.out.tail then exists u, nacks :: GoesAgain(c, s, LastOut(s.a.out), nacks, u, t)
    else t == s
  }

  /** Side b acknowledges and names what is missing, and that reaches side a. */
  ghost predicate Asks(c: Config, lim: Limits, s: State, t: State) {
    && s.Fits(c)
    && var asked := Missing(s.b.inn, c, _ => true, s.b.inn.tail, lim.cap);
       exists u, v, rand ::
         && Does(c, s, ByB(SendAck(asked)), u) && Pause(c, u, v)
         && Does(c, v, ByA(TakeAck(AckWire(s.b, asked), rand)), t)
  }

  /** Side a sends the packets `ns` again, one after the other. */
  ghost predicate SendsAgain(c: Config, s: State, ns: seq<nat>, t: State)
    decreases |ns|
  {
    if ns == [] then t == s
    else exists u :: Does(c, s, ByA(Resend(ns[0], true, [])), u) && SendsAgain(c, u, ns[1..], t)
  }

  /** They arrive, as side `e` sent them, one by one with pauses between. */
  ghost predicate AllArrive(c: Config, s: State, e: Endpoint, ns: seq<nat>, t: State)
    decreases |ns|
  {
    if ns == [] then t == s
    else e.Fits(c) && exists u :: Arrives(c, s, DataWire(e, c, ns[0], []), u) && AllArrive(c, u, e, ns[1..], t)
  }

  /** What is asked for is sent again, as far as the budget goes, and arrives. */
  ghost predicate Answers(c: Config, lim: Limits, s: State, t: State) {
    && s.Fits(c)
    && var ns := Retransmit(s.a.out, c, _ => true, s.a.out.tail, lim.budget).1;
       exists u :: SendsAgain(c, s, ns, u) && AllArrive(c, u, s.a, ns, t)
  }

  /** A round without losses, with pauses between its steps in which either side may do anything
      else: take on messages, let packets out, send again unasked, and take whatever old packets the
      network still holds. */
  ghost predicate Round(c: Config, lim: Limits, s: State, t: State) {
    exists a, b, d, e, f ::
      && Pause(c, s, a) && TimesOut(c, a, b) && Pause(c, b, d)
      && Asks(c, lim, d, e) && Pause(c, e, f) && Answers(c, lim, f, t)
  }

  ghost predicate Rounds(c: Config, lim: Limits, n: nat, s: State, t: State)
    decreases n
  {
    if n == 0 then t == s else exists u :: Round(c, lim, s, u) && Rounds(c, lim, n - 1, u, t)
  }

  /** The numbers below `upto` that have not arrived. */
  ghost function Lacking(r: Receiver, c: Config, upto: nat): set<nat>
    requires r.Fits(c)
  {
    set n: nat | 1 <= n < upto && !Got(r, c, n)
  }

  // ---------------------------------------------------------------- what never goes back

  ghost predicate Grows(c: Config, s: State, t: State) {
    && s.Fits(c) && t.Fits(c) && s.toB <= t.toB && s.toA <= t.toA
    && s.a.out.tail <= t.a.out.tail && s.a.out.tcpHead <= t.a.out.tcpHead
    && s.b.inn.tail <= t.b.inn.tail && s.b.inn.head <= t.b.inn.head
    && forall n: nat :: Got(s.b.inn, c, n) ==> Got(t.b.inn, c, n)
  }

  lemma GrowsOn(c: Config, s: State, t: State, u: State)
    requires Grows(c, s, t) && Grows(c, t, u)
    ensures Grows(c, s, u)
  {
    hide Got;
  }

  /** What a move of side a does to what it sends. */
  lemma OutGrows(c: Config, s: State, ha: History, hb: History, ev: Event)
    requires Inv(c, s, ha, hb) && Can(c, s.a, s.toA, ev)
    ensures var t := StepA(c, s, ev);
            && s.Fits(c) && t.b == s.b && t.toA == s.toA && s.toB <= t.toB
            && s.a.out.tail <= t.a.out.tail && s.a.out.tcpHead <= t.a.out.tcpHead
  {
    InvSender(c, s, ha, hb);
    match ev
    case Submit(m, rand) =>
      hide Inv, Can, Forward, SenderRests, TooBig;
      ForwardEnds(s.a.out, ha, c, m, rand);
    case TakeAck(w, rand) =>
      assert w in s.toA;
      AckKnown(c, s, ha, hb, w);
      hide Inv, Can, TakeAru, SenderRests, Digest, MarkNacks;
      var g := TakeAruOk(s.a.out, ha, c, w.aru, w.aruNonce, rand);
    case _ => hide Inv, Can, Accept, DataWire, AckWire;
  }

  lemma InvSender(c: Config, s: State, ha: History, hb: History)
    requires Inv(c, s, ha, hb)
    ensures s.Fits(c) && SenderRests(s.a.out, ha, c)
  {
    hide SenderRests, Settled, Sendable, DataOk, AckOk;
  }

  lemma ForwardEnds(s: Sender, h: History, c: Config, m: Message, rand: nat -> Nonce)
    requires SenderRests(s, h, c)
    ensures s.Fits(c) && Forward(s, c, m, rand).tail == s.tail && Forward(s, c, m, rand).tcpHead == s.tcpHead
  {
    PackAllEnds(s.(message := Some(m), taken := 0), c, rand);
    hide PackAll, TooBig, SenderOk;
  }

  lemma {:induction false} PackAllEnds(s: Sender, c: Config, rand: nat -> Nonce)
    requires s.Fits(c)
    ensures PackAll(s, c, rand).tail == s.tail && PackAll(s, c, rand).tcpHead == s.tcpHead
    decreases s.tail + c.w - s.head
  {
    hide PackOne;
    if s.head - s.tail < c.w && s.message.Some? { PackAllEnds(PackOne(s, c, rand(s.head)), c, rand); }
  }

  lemma StillInn(c: Config, s: State, ev: Event)
    requires s.Fits(c) && !ev.TakeData?
    ensures StepA(c, s, ev).a.inn == s.a.inn
  {
    hide Forward, TakeAru, MarkNacks, DataWire, AckWire;
  }

  /** What a move of side a does to what it receives. */
  lemma InnGrows(c: Config, s: State, ha: History, hb: History, ev: Event)
    requires Inv(c, s, ha, hb) && s.Fits(c) && Can(c, s.a, s.toA, ev)
    ensures var t := StepA(c, s, ev);
            && t.Fits(c) && s.a.inn.tail <= t.a.inn.tail && s.a.inn.head <= t.a.inn.head
            && forall n: nat :: Got(s.a.inn, c, n) ==> Got(t.a.inn, c, n)
  {
    assert s.a.inn.Fits(c);
    hide *;
    if ev.TakeData? {
      TakingWire(c, s, ha, hb);
      var w := s.a.taking.value;
      DataTaken(c, s, ha, hb, w);
      TakeDataIs(c, s.a, w);
      Quietly(c, s, TakeData, Endpoint(s.a.out, Accept(s.a.inn, c, w.seqNo, w.nonce, w.pkt).1, None));
    } else {
      StillInn(c, s, ev);
    }
  }

  lemma MoveGrows(c: Config, s: State, mv: Move)
    requires Sound(c, s) && s.Fits(c) && Allowed(c, s, mv)
    ensures Grows(c, s, Step(c, s, mv))
  {
    var ha, hb :| Inv(c, s, ha, hb);
    FlipInv(c, s, ha, hb);
    hide Inv, StepA, Can, Got;
    match mv
    case ByA(ev) => OutGrows(c, s, ha, hb, ev);
    case ByB(ev) =>
      OutGrows(c, s.Flip(), hb, ha, ev);
      InnGrows(c, s.Flip(), hb, ha, ev);
  }

  // ---------------------------------------------------------------- what is asked for stays asked for

  /** Number `n` is in the window of what was let out, and asked for. */
  ghost predicate Marked(c: Config, s: State, n: nat)
    requires s.Fits(c)
  {
    s.a.out.tail <= n < s.a.out.tcpHead && s.a.out.nacked[Slot(n, c.w)]
  }

  lemma {:induction false} PackAllMarks(s: Sender, c: Config, rand: nat -> Nonce, n: nat)
    requires s.Fits(c) && s.tail <= n < s.head <= s.tail + c.w
    ensures PackAll(s, c, rand).nacked[Slot(n, c.w)] == s.nacked[Slot(n, c.w)]
    decreases s.tail + c.w - s.head
  {
    hide Slot, Encode, Fill, Xor;
    if s.head - s.tail < c.w && s.message.Some? {
      SlotApart(n, s.head, c.w);
      PackAllMarks(PackOne(s, c, rand(s.head)), c, rand, n);
    }
  }

  lemma {:induction false} NacksKeepMarks(s: Sender, c: Config, ns: seq<nat>, k: nat)
    requires s.Fits(c) && k < c.w && s.nacked[k]
    ensures MarkNacks(s, c, ns).nacked[k]
    decreases |ns|
  {
    hide Slot;
    if ns != [] { NacksKeepMarks(s, c, ns[..|ns| - 1], k); }
  }

  lemma AruMarks(s: Sender, c: Config, aru: nat, digest: Nonce, rand: nat -> Nonce, n: nat)
    requires s.Fits(c) && s.tail <= n < s.tcpHead <= s.head <= s.tail + c.w
    requires TakeAru(s, c, aru, digest, rand).1.tail <= n
    ensures TakeAru(s, c, aru, digest, rand).1.nacked[Slot(n, c.w)] == s.nacked[Slot(n, c.w)]
  {
    if s.tail <= aru < s.tcpHead && s.digests[Slot(aru, c.w)] == digest {
      PackAllEnds(s.(tail := aru + 1), c, rand);
      PackAllMarks(s.(tail := aru + 1), c, rand, n);
    }
    hide Slot, PackAll;
  }

  lemma SubmitMarks(s: Sender, c: Config, m: Message, rand: nat -> Nonce, n: nat)
    requires s.Fits(c) && s.tail <= n < s.head <= s.tail + c.w
    ensures Forward(s, c, m, rand).nacked[Slot(n, c.w)] == s.nacked[Slot(n, c.w)]
  {
    PackAllMarks(s.(message := Some(m), taken := 0), c, rand, n);
    hide Slot, PackAll, TooBig;
  }

  lemma AckMarks(c: Config, e: Endpoint, w: Wire, rand: nat -> Nonce, n: nat)
    requires e.Fits(c) && e.out.tail <= n < e.out.tcpHead <= e.out.head <= e.out.tail + c.w
    requires e.out.nacked[Slot(n, c.w)]
    requires Act(c, e, TakeAck(w, rand)).e.out.tail <= n
    ensures Act(c, e, TakeAck(w, rand)).e.out.nacked[Slot(n, c.w)]
  {
    var x := TakeAru(e.out, c, w.aru, w.aruNonce, rand);
    hide Slot, TakeAru, MarkNacks;
    if x.0 {
      AruMarks(e.out, c, w.aru, w.aruNonce, rand, n);
      NacksKeepMarks(x.1, c, w.nacks, Slot(n, c.w));
    }
  }

  /** A quiet event at side a leaves the mark of a number while it is in the window. */
  lemma EventMarks(c: Config, e: Endpoint, ev: Event, n: nat)
    requires e.Fits(c) && e.out.tail <= n < e.out.tcpHead <= e.out.head <= e.out.tail + c.w
    requires e.out.nacked[Slot(n, c.w)]
    requires Quiet(ByA(ev)) && Act(c, e, ev).e.out.tail <= n
    ensures Act(c, e, ev).e.out.nacked[Slot(n, c.w)]
  {
    match ev
    case Submit(m, rand) => SubmitMarks(e.out, c, m, rand, n); hide Slot, Forward, TooBig;
    case TakeAck(w, rand) => AckMarks(c, e, w, rand, n);
    case _ => hide Slot, DataWire, AckWire, Accept;
  }

  lemma StepMarks(c: Config, s: State, mv: Move, n: nat)
    requires s.Fits(c)
    ensures var t := Step(c, s, mv); t.Fits(c) && t.a.out == if mv.ByA? then Act(c, s.a, mv.ev).e.out else s.a.out
  {
    hide Act;
  }

  lemma MarkStays(c: Config, s: State, mv: Move, n: nat)
    requires Sound(c, s) && s.Fits(c) && Allowed(c, s, mv) && Quiet(mv) && Marked(c, s, n)
    ensures var t := Step(c, s, mv); t.a.out.tail <= n ==> Marked(c, t, n)
  {
    hide *;
    MoveGrows(c, s, mv);
    var t := Step(c, s, mv);
    GrowsParts(c, s, t);
    SoundWindow(c, s);
    StepMarks(c, s, mv, n);
    MarkedIs(c, s, n);
    MarkedIs(c, t, n);
    if mv.ByA? && t.a.out.tail <= n {
      IsByA(mv);
      EventMarks(c, s.a, mv.ev, n);
    }
  }

  lemma IsByA(mv: Move)
    requires mv.ByA?
    ensures mv == ByA(mv.ev)
  {}

  lemma SoundWindow(c: Config, s: State)
    requires Sound(c, s)
    ensures s.Fits(c)
    ensures 1 <= s.a.out.tail <= s.b.inn.tail <= s.b.inn.head <= s.a.out.tcpHead <= s.a.out.head <= s.a.out.tail + c.w
    ensures !s.b.inn.cells[Slot(s.b.inn.tail, c.w)].Recvd?
  {
    var ha, hb :| Inv(c, s, ha, hb);
    hide RingsOk, PendingOk, StreamOk, CellsOk, TakenOk, EarlyOk, Sendable, DataOk, AckOk, Slot;
  }

  lemma FirstMove(c: Config, s: State, moves: seq<Move>)
    requires s.Fits(c) && Legal(c, s, moves) && moves != []
    ensures Allowed(c, s, moves[0]) && Step(c, s, moves[0]).Fits(c)
    ensures Legal(c, Step(c, s, moves[0]), moves[1..])
    ensures Steps(c, s, moves) == Steps(c, Step(c, s, moves[0]), moves[1..])
  {
    hide Step, Allowed;
  }

  lemma NoMoves(c: Config, s: State)
    requires s.Fits(c)
    ensures Steps(c, s, []) == s && Grows(c, s, s)
  {
    hide Got;
  }

  /** Through a pause nothing is undone. */
  lemma {:induction false} MovesKeep(c: Config, s: State, moves: seq<Move>, n: nat)
    requires Sound(c, s) && s.Fits(c) && Legal(c, s, moves) && forall i :: 0 <= i < |moves| ==> Quiet(moves[i])
    ensures var t := Steps(c, s, moves);
            Sound(c, t) && Grows(c, s, t) && (Marked(c, s, n) && t.a.out.tail <= n ==> Marked(c, t, n))
    decreases |moves|
  {
    hide *;
    if moves == [] {
      NoMoves(c, s);
    } else {
      FirstMove(c, s, moves);
      StepSound(c, s, moves[0]);
      MoveGrows(c, s, moves[0]);
      var u := Step(c, s, moves[0]);
      MovesKeep(c, u, moves[1..], n);
      GrowsOn(c, s, u, Steps(c, u, moves[1..]));
      GrowsParts(c, u, Steps(c, u, moves[1..]));
      if Marked(c, s, n) { MarkStays(c, s, moves[0], n); }
    }
  }

  lemma PauseKeeps(c: Config, s: State, t: State, n: nat)
    requires Sound(c, s) && Pause(c, s, t)
    ensures Sound(c, t) && Grows(c, s, t) && (Marked(c, s, n) && t.a.out.tail <= n ==> Marked(c, t, n))
  {
    hide Sound, Grows, Marked, Quiet;
    var moves :| Legal(c, s, moves) && t == Steps(c, s, moves) && forall i :: 0 <= i < |moves| ==> Quiet(moves[i]);
    MovesKeep(c, s, moves, n);
  }

  lemma DoesKeeps(c: Config, s: State, mv: Move, t: State)
    requires Sound(c, s) && Does(c, s, mv, t)
    ensures Sound(c, t) && Grows(c, s, t)
  {
    hide Sound, Grows, Allowed, Step;
    StepSound(c, s, mv);
    MoveGrows(c, s, mv);
  }

  // ---------------------------------------------------------------- an arrival

  lemma DataStep(c: Config, s: State, w: Wire)
    requires s.Fits(c) && s.b.taking == Some(w)
    ensures Step(c, s, ByB(TakeData)) == s.(b := Endpoint(s.b.out, Accept(s.b.inn, c, w.seqNo, w.nonce, w.pkt).1, None))
  {
    hide Accept;
    TakeDataIs(c, s.b, w);
    Quietly(c, s.Flip(), TakeData, Endpoint(s.b.out, Accept(s.b.inn, c, w.seqNo, w.nonce, w.pkt).1, None));
  }

  lemma TakingIs(c: Config, s: State, w: Wire, rand: nat -> Nonce, t: State)
    requires s.Fits(c) && TakeAru(s.b.out, c, w.aru, w.aruNonce, rand).0 && Does(c, s, ByB(TakeAck(w, rand)), t)
    requires w.seqNo > 0
    ensures t.b.taking == Some(w) && t.toB == s.toB
  {
    hide TakeAru, MarkNacks;
  }

  lemma TakingFrom(c: Config, s: State, w: Wire, rand: nat -> Nonce, t: State)
    requires Does(c, s, ByB(TakeAck(w, rand)), t)
    ensures s.Fits(c) && w in s.toB && w in s.Flip().toA && s.Flip().a.out == s.b.out && s.b.out.Fits(c)
  {
    hide TakeAru, MarkNacks;
  }

  lemma Taking(c: Config, s: State, w: Wire, rand: nat -> Nonce, t: State)
    requires Sound(c, s) && Does(c, s, ByB(TakeAck(w, rand)), t) && w.seqNo > 0
    ensures w in s.toB && t.b.taking == Some(w) && t.toB == s.toB
  {
    var ha, hb :| Inv(c, s, ha, hb);
    hide *;
    FlipInv(c, s, ha, hb);
    TakingFrom(c, s, w, rand, t);
    AckBelieved(c, s.Flip(), hb, ha, w, rand);
    TakingIs(c, s, w, rand, t);
  }

  lemma TakenData(c: Config, s: State, w: Wire, t: State)
    requires Sound(c, s) && w in s.toB && s.b.taking == Some(w) && w.seqNo > 0 && Does(c, s, ByB(TakeData), t)
    ensures t.Fits(c) && Got(t.b.inn, c, w.seqNo) && t.toB == s.toB && t.b.taking.None?
  {
    var ha, hb :| Inv(c, s, ha, hb);
    FlipInv(c, s, ha, hb);
    hide Inv, Accept, Got, Allowed, Step;
    DataTaken(c, s.Flip(), hb, ha, w);
    DataStep(c, s, w);
  }

  /** What arrives has arrived. */
  lemma ArrivesOk(c: Config, s: State, w: Wire, t: State, n: nat)
    requires Sound(c, s) && s.Fits(c) && Arrives(c, s, w, t) && w.seqNo > 0
    ensures Sound(c, t) && Grows(c, s, t) && Got(t.b.inn, c, w.seqNo)
    ensures Marked(c, s, n) && t.a.out.tail <= n ==> Marked(c, t, n)
  {
    var u, v, rand :| Pause(c, s, u) && Does(c, u, ByB(TakeAck(w, rand)), v) && Does(c, v, ByB(TakeData), t);
    hide *;
    PauseKeeps(c, s, u, n);
    DoesKeeps(c, u, ByB(TakeAck(w, rand)), v);
    DoesKeeps(c, v, ByB(TakeData), t);
    Taking(c, u, w, rand, v);
    TakenData(c, v, w, t);
    GrowsOn(c, s, u, v);
    GrowsOn(c, s, v, t);
    MarkOverB(c, u, TakeAck(w, rand), v, n);
    MarkOverB(c, v, TakeData, t, n);
    GrowsParts(c, s, u);
    GrowsParts(c, u, v);
    GrowsParts(c, v, t);
  }

  lemma MarkOverB(c: Config, s: State, ev: Event, t: State, n: nat)
    requires s.Fits(c) && Does(c, s, ByB(ev), t)
    ensures t.Fits(c) && (Marked(c, s, n) <==> Marked(c, t, n))
  {
    hide Can, Act, Slot;
  }

  lemma GrowsParts(c: Config, s: State, t: State)
    requires Grows(c, s, t)
    ensures s.Fits(c) && t.Fits(c) && s.b.inn.Fits(c) && t.b.inn.Fits(c) && s.a.Fits(c) && t.a.Fits(c)
    ensures s.toB <= t.toB && s.toA <= t.toA && s.b.inn.tail <= t.b.inn.tail && s.b.inn.head <= t.b.inn.head
    ensures s.a.out.tail <= t.a.out.tail && s.a.out.tcpHead <= t.a.out.tcpHead
    ensures forall n: nat :: Got(s.b.inn, c, n) ==> Got(t.b.inn, c, n)
  {
    hide Got;
  }

  // ---------------------------------------------------------------- the timeout

  lemma GotBelow(c: Config, s: State, n: nat)
    requires Sound(c, s) && s.Fits(c) && Got(s.b.inn, c, n)
    ensures n < s.b.inn.head
  {
    var ha, hb :| Inv(c, s, ha, hb);
    assert CellsOk(s.b.inn, ha, c) && s.b.inn.tail <= s.b.inn.head by {
      hide Slot, SenderRests, TakenOk, EarlyOk, DataOk, AckOk;
    }
    hide Slot, Inv;
  }

  /** After the timeout side b knows of everything that had been let out. */
  lemma TimesOutOk(c: Config, s: State, t: State)
    requires Sound(c, s) && s.Fits(c) && TimesOut(c, s, t)
    ensures Sound(c, t) && Grows(c, s, t) && t.b.inn.head >= s.a.out.tcpHead
  {
    SoundWindow(c, s);
    if s.a.out.tcpHead > s.a.out.tail {
      var u, nacks :| GoesAgain(c, s, LastOut(s.a.out), nacks, u, t);
      var n := LastOut(s.a.out);
      assert n == s.a.out.tcpHead - 1;
      assert Does(c, s, ByA(Resend(n, false, nacks)), u) && Arrives(c, u, DataWire(s.a, c, n, nacks), t);
      assert DataWire(s.a, c, n, nacks).seqNo == n > 0;
      hide *;
      DoesKeeps(c, s, ByA(Resend(n, false, nacks)), u);
      GrowsParts(c, s, u);
      ArrivesOk(c, u, DataWire(s.a, c, n, nacks), t, 0);
      GrowsOn(c, s, u, t);
      GrowsParts(c, s, t);
      GotBelow(c, t, n);
    } else {
      hide Sound, Got;
    }
  }

  // ---------------------------------------------------------------- asking

  lemma TailCell(r: Receiver, h: History, c: Config)
    requires Settled(r, h, c) && r.tail < r.head
    ensures r.Fits(c) && r.cells[Slot(r.tail, c.w)].Nack?
  {
    assert CellOk(r.cells[Slot(r.tail, c.w)], r.tail, r.head, h);
    hide Slot, TakenOk, EarlyOk;
  }

  lemma MissingFirst(r: Receiver, c: Config, cap: nat)
    requires r.Fits(c) && r.tail < r.head && cap > 0 && r.cells[Slot(r.tail, c.w)].Nack?
    ensures var asked := Missing(r, c, _ => true, r.tail, cap); asked != [] && asked[0] == r.tail
  {
    hide Slot;
  }

  /** The first number missing is asked for. */
  lemma AskedFirst(c: Config, s: State, cap: nat)
    requires Sound(c, s) && s.Fits(c) && s.b.inn.tail < s.b.inn.head && cap > 0
    ensures var asked := Missing(s.b.inn, c, _ => true, s.b.inn.tail, cap); asked != [] && asked[0] == s.b.inn.tail
  {
    var ha, hb :| Inv(c, s, ha, hb);
    assert Settled(s.b.inn, ha, c) by { hide Settled, SenderRests, Sendable, DataOk, AckOk; }
    hide *;
    TailCell(s.b.inn, ha, c);
    MissingFirst(s.b.inn, c, cap);
  }

  lemma {:induction false} MarkSets(s: Sender, c: Config, ns: seq<nat>, k: nat)
    requires s.Fits(c) && k < |ns| && s.tail <= ns[k] < s.tcpHead
    ensures MarkNacks(s, c, ns).nacked[Slot(ns[k], c.w)]
    decreases |ns|
  {
    hide Slot;
    if k < |ns| - 1 { MarkSets(s, c, ns[..|ns| - 1], k); }
  }

  lemma AckStep(c: Config, s: State, w: Wire, rand: nat -> Nonce, t: State, out: Sender)
    requires s.Fits(c) && out.Fits(c) && Does(c, s, ByA(TakeAck(w, rand)), t)
    requires TakeAru(s.a.out, c, w.aru, w.aruNonce, rand) == (true, out)
    ensures t.Fits(c) && t.a.out == MarkNacks(out, c, w.nacks)
  {
    hide TakeAru, MarkNacks;
  }

  lemma AckFromWire(c: Config, s: State, w: Wire, rand: nat -> Nonce, t: State)
    requires Does(c, s, ByA(TakeAck(w, rand)), t)
    ensures w in s.toA && s.Fits(c) && t.Fits(c)
  {
    hide TakeAru, MarkNacks;
  }

  /** Side a hears that all before `x` has been taken. */
  lemma AruHeard(c: Config, s: State, w: Wire, rand: nat -> Nonce, x: nat) returns (out: Sender)
    requires Sound(c, s) && s.Fits(c) && w in s.toA && 1 <= x <= s.b.inn.tail && w.aru == x - 1
    ensures out.Fits(c) && TakeAru(s.a.out, c, w.aru, w.aruNonce, rand) == (true, out) && out.tail >= x
  {
    SoundWindow(c, s);
    var ha, hb :| Inv(c, s, ha, hb);
    hide *;
    AckKnown(c, s, ha, hb, w);
    var g := TakeAruOk(s.a.out, ha, c, w.aru, w.aruNonce, rand);
    out := TakeAru(s.a.out, c, w.aru, w.aruNonce, rand).1;
  }

  lemma EndsSame(s: Sender, c: Config, ns: seq<nat>)
    requires s.Fits(c)
    ensures MarkNacks(s, c, ns).tail == s.tail && MarkNacks(s, c, ns).tcpHead == s.tcpHead
  {
    hide MarkNacks;
  }

  /** And what is asked for. */
  lemma AckHeard(c: Config, s: State, w: Wire, rand: nat -> Nonce, t: State, x: nat)
    requires Sound(c, s) && Does(c, s, ByA(TakeAck(w, rand)), t) && s.Fits(c) && 1 <= x <= s.b.inn.tail
    requires w.aru == x - 1
    ensures t.Fits(c) && t.a.out.tail >= x
    ensures w.nacks != [] && w.nacks[0] == x && t.a.out.tail <= x < t.a.out.tcpHead ==> Marked(c, t, x)
  {
    hide *;
    AckFromWire(c, s, w, rand, t);
    var out := AruHeard(c, s, w, rand, x);
    AckStep(c, s, w, rand, t, out);
    EndsSame(out, c, w.nacks);
    if w.nacks != [] && w.nacks[0] == x && out.tail <= x < out.tcpHead {
      MarkSets(out, c, w.nacks, 0);
      MarkedIs(c, t, x);
    }
  }

  lemma MarkedIs(c: Config, t: State, n: nat)
    requires t.Fits(c)
    ensures Marked(c, t, n) <==> t.a.out.tail <= n < t.a.out.tcpHead && t.a.out.nacked[Slot(n, c.w)]
  {
    hide Slot;
  }

  lemma AckWireIs(c: Config, s: State, asked: seq<nat>, u: State)
    requires Does(c, s, ByB(SendAck(asked)), u)
    ensures AckWire(s.b, asked) in u.toA
  {
    hide NacksFrom;
  }

  lemma AckSent(c: Config, s: State, asked: seq<nat>, u: State)
    requires Sound(c, s) && Does(c, s, ByB(SendAck(asked)), u)
    ensures AckWire(s.b, asked) in u.toA && s.b.inn.tail >= 1 && AckWire(s.b, asked).aru == s.b.inn.tail - 1
    ensures AckWire(s.b, asked).nacks == asked
  {
    AckWireIs(c, s, asked, u);
    SoundWindow(c, s);
    hide Sound, Does;
  }

  /** The acknowledgement moves side a's tail to where side b's is, or it is further already; and the
      first number missing is marked, unless it has arrived meanwhile. */
  lemma AsksOk(c: Config, lim: Limits, s: State, t: State)
    requires Sound(c, s) && s.Fits(c) && Asks(c, lim, s, t) && lim.Some()
    ensures Sound(c, t) && Grows(c, s, t) && t.Fits(c) && t.a.out.tail >= s.b.inn.tail >= 1
    ensures s.b.inn.tail < s.b.inn.head && t.a.out.tail <= s.b.inn.tail ==> Marked(c, t, s.b.inn.tail)
  {
    var asked := Missing(s.b.inn, c, _ => true, s.b.inn.tail, lim.cap);
    var u, v, rand :| Does(c, s, ByB(SendAck(asked)), u) && Pause(c, u, v)
                      && Does(c, v, ByA(TakeAck(AckWire(s.b, asked), rand)), t);
    if s.b.inn.tail < s.b.inn.head { AskedFirst(c, s, lim.cap); }
    hide *;
    var x := s.b.inn.tail;
    AckSent(c, s, asked, u);
    DoesKeeps(c, s, ByB(SendAck(asked)), u);
    PauseKeeps(c, u, v, 0);
    DoesKeeps(c, v, ByA(TakeAck(AckWire(s.b, asked), rand)), t);
    GrowsOn(c, s, u, v);
    GrowsParts(c, s, v);
    GrowsOn(c, s, v, t);
    GrowsParts(c, s, t);
    AckHeard(c, v, AckWire(s.b, asked), rand, t, x);
    SoundWindow(c, s);
  }

  // ---------------------------------------------------------------- answering

  lemma SentFirst(s: Sender, c: Config, budget: nat)
    requires s.Fits(c) && s.tail < s.tcpHead && budget > 0 && s.nacked[Slot(s.tail, c.w)]
    ensures var ns := Retransmit(s, c, _ => true, s.tail, budget).1; ns != [] && ns[0] == s.tail
  {}

  lemma {:induction false} SendsAgainOk(c: Config, s: State, ns: seq<nat>, t: State)
    requires Sound(c, s) && s.Fits(c) && SendsAgain(c, s, ns, t)
    ensures Sound(c, t) && Grows(c, s, t)
    decreases |ns|
  {
    if ns == [] {
      hide Sound, Got;
    } else {
      var u :| Does(c, s, ByA(Resend(ns[0], true, [])), u) && SendsAgain(c, u, ns[1..], t);
      hide Sound, Grows, Does, SendsAgain;
      DoesKeeps(c, s, ByA(Resend(ns[0], true, [])), u);
      GrowsParts(c, s, u);
      SendsAgainOk(c, u, ns[1..], t);
      GrowsOn(c, s, u, t);
    }
  }

  lemma ArriveFirst(c: Config, s: State, e: Endpoint, ns: seq<nat>, t: State) returns (u: State)
    requires AllArrive(c, s, e, ns, t) && ns != []
    ensures e.Fits(c) && Arrives(c, s, DataWire(e, c, ns[0], []), u) && AllArrive(c, u, e, ns[1..], t)
    ensures DataWire(e, c, ns[0], []).seqNo == ns[0]
  {
    u :| Arrives(c, s, DataWire(e, c, ns[0], []), u) && AllArrive(c, u, e, ns[1..], t);
    hide Arrives, AllArrive, Slot;
  }

  lemma GrowsSelf(c: Config, s: State)
    requires s.Fits(c)
    ensures Grows(c, s, s)
  {
    hide Got;
  }

  lemma ArriveNone(c: Config, s: State, e: Endpoint, t: State)
    requires AllArrive(c, s, e, [], t)
    ensures t == s
  {}

  lemma {:induction false} AllArriveOk(c: Config, s: State, e: Endpoint, ns: seq<nat>, t: State)
    requires Sound(c, s) && s.Fits(c) && AllArrive(c, s, e, ns, t) && forall i :: 0 <= i < |ns| ==> ns[i] > 0
    ensures Sound(c, t) && Grows(c, s, t) && t.Fits(c) && (ns != [] ==> Got(t.b.inn, c, ns[0]))
    decreases |ns|
  {
    hide *;
    if ns == [] {
      ArriveNone(c, s, e, t);
      GrowsSelf(c, s);
    } else {
      var u := ArriveFirst(c, s, e, ns, t);
      ArrivesOk(c, s, DataWire(e, c, ns[0], []), u, 0);
      GrowsParts(c, s, u);
      AllArriveOk(c, u, e, ns[1..], t);
      GrowsOn(c, s, u, t);
      GrowsParts(c, u, t);
    }
  }

  lemma GotBefore(c: Config, r: Receiver, n: nat)
    requires r.Fits(c) && 1 <= n < r.tail
    ensures Got(r, c, n)
  {}

  lemma AnswersAre(c: Config, lim: Limits, s: State, t: State) returns (ns: seq<nat>, u: State)
    requires s.Fits(c) && Answers(c, lim, s, t) && s.a.out.tail >= 1
    ensures ns == Retransmit(s.a.out, c, _ => true, s.a.out.tail, lim.budget).1
    ensures SendsAgain(c, s, ns, u) && AllArrive(c, u, s.a, ns, t) && forall i :: 0 <= i < |ns| ==> ns[i] > 0
  {
    ns := Retransmit(s.a.out, c, _ => true, s.a.out.tail, lim.budget).1;
    hide SendsAgain, AllArrive, Retransmit;
    u :| SendsAgain(c, s, ns, u) && AllArrive(c, u, s.a, ns, t);
  }

  lemma AnswersGrow(c: Config, lim: Limits, s: State, t: State) returns (ns: seq<nat>)
    requires Sound(c, s) && s.Fits(c) && Answers(c, lim, s, t)
    ensures Sound(c, t) && Grows(c, s, t) && t.Fits(c)
    ensures ns == Retransmit(s.a.out, c, _ => true, s.a.out.tail, lim.budget).1 && (ns != [] ==> Got(t.b.inn, c, ns[0]))
  {
    hide *;
    SoundWindow(c, s);
    var u: State;
    ns, u := AnswersAre(c, lim, s, t);
    SendsAgainOk(c, s, ns, u);
    GrowsParts(c, s, u);
    AllArriveOk(c, u, s.a, ns, t);
    GrowsOn(c, s, u, t);
  }

  lemma GotAcknowledged(c: Config, s: State, t: State, x: nat)
    requires Sound(c, s) && s.Fits(c) && Grows(c, s, t) && t.Fits(c) && 1 <= x < s.a.out.tail
    ensures Got(t.b.inn, c, x)
  {
    SoundWindow(c, s);
    GotBefore(c, s.b.inn, x);
    hide Sound, Got;
  }

  lemma FirstAnswered(c: Config, s: State, budget: nat, ns: seq<nat>, x: nat)
    requires s.Fits(c) && Marked(c, s, x) && x == s.a.out.tail && budget > 0
    requires ns == Retransmit(s.a.out, c, _ => true, s.a.out.tail, budget).1
    ensures ns != [] && ns[0] == x
  {
    hide Retransmit, Slot;
    SentFirst(s.a.out, c, budget);
  }

  /** If `x` is marked, or has been acknowledged, it has arrived after the answers. */
  lemma AnswersOk(c: Config, lim: Limits, s: State, t: State, x: nat)
    requires Sound(c, s) && s.Fits(c) && Answers(c, lim, s, t) && lim.Some()
    requires 1 <= x <= s.a.out.tail && (s.a.out.tail <= x ==> Marked(c, s, x))
    ensures Sound(c, t) && Grows(c, s, t) && t.Fits(c) && Got(t.b.inn, c, x)
  {
    assert lim.budget > 0;
    hide *;
    var ns := AnswersGrow(c, lim, s, t);
    if s.a.out.tail <= x {
      FirstAnswered(c, s, lim.budget, ns, x);
    } else {
      GotAcknowledged(c, s, t, x);
    }
  }

  // ---------------------------------------------------------------- every round helps

  lemma SmallerSet(a: set<nat>, b: set<nat>)
    requires a < b
    ensures |a| < |b|
  {
    var x :| x in b && x !in a;
    assert a <= b - {x};
    NoLarger(a, b - {x});
  }

  lemma {:induction false} NoLarger(a: set<nat>, b: set<nat>)
    requires a <= b
    ensures |a| <= |b|
    decreases a
  {
    if a != {} {
      var x :| x in a;
      NoLarger(a - {x}, b - {x});
    }
  }

  /** `x` was the first number missing and has arrived since. */
  lemma Shrinks(c: Config, s: State, m: State, t: State, x: nat, upto: nat)
    requires Grows(c, s, m) && Grows(c, m, t) && s.Fits(c) && m.Fits(c) && t.Fits(c)
    requires 1 <= x == m.b.inn.tail && !m.b.inn.cells[Slot(x, c.w)].Recvd? && (x < upto ==> Got(t.b.inn, c, x))
    ensures Lacking(t.b.inn, c, upto) <= Lacking(s.b.inn, c, upto)
    ensures Lacking(s.b.inn, c, upto) != {} ==> Lacking(t.b.inn, c, upto) < Lacking(s.b.inn, c, upto)
    ensures Lacking(s.b.inn, c, upto) == {} ==> x >= upto
  {
    assert !Got(m.b.inn, c, x);
    assert forall n: nat :: 1 <= n < x ==> Got(m.b.inn, c, n);
    GrowsParts(c, s, m);
    GrowsParts(c, m, t);
    hide Got, Slot, Grows;
    if x < upto {
      assert x in Lacking(s.b.inn, c, upto) && x !in Lacking(t.b.inn, c, upto);
    } else if Lacking(s.b.inn, c, upto) != {} {
      var n :| n in Lacking(s.b.inn, c, upto);
      assert n !in Lacking(t.b.inn, c, upto);
    }
  }

  lemma RoundParts(c: Config, lim: Limits, s: State, t: State)
    returns (a: State, b: State, d: State, e: State, f: State)
    requires Round(c, lim, s, t)
    ensures Pause(c, s, a) && TimesOut(c, a, b) && Pause(c, b, d) && Asks(c, lim, d, e) && Pause(c, e, f)
    ensures Answers(c, lim, f, t)
  {
    hide Pause, TimesOut, Asks, Answers;
    a, b, d, e, f :|
      && Pause(c, s, a) && TimesOut(c, a, b) && Pause(c, b, d)
      && Asks(c, lim, d, e) && Pause(c, e, f) && Answers(c, lim, f, t);
  }

  /** What is known when side b has asked: it knows of all below `upto`, and the first it misses has
      been heard of. */
  lemma Heard(c: Config, lim: Limits, s: State, t: State, upto: nat) returns (d: State, f: State)
    requires Sound(c, s) && s.Fits(c) && Round(c, lim, s, t) && lim.Some() && upto <= s.a.out.tcpHead
    ensures Sound(c, d) && Grows(c, s, d) && d.b.inn.head >= upto
    ensures Sound(c, f) && Grows(c, d, f) && Answers(c, lim, f, t)
    ensures d.Fits(c) && f.Fits(c) && 1 <= d.b.inn.tail <= f.a.out.tail
    ensures d.b.inn.tail < d.b.inn.head && f.a.out.tail <= d.b.inn.tail ==> Marked(c, f, d.b.inn.tail)
  {
    hide *;
    var a, b, e;
    a, b, d, e, f := RoundParts(c, lim, s, t);
    PauseKeeps(c, s, a, 0);
    GrowsParts(c, s, a);
    TimesOutOk(c, a, b);
    GrowsParts(c, a, b);
    PauseKeeps(c, b, d, 0);
    GrowsParts(c, b, d);
    GrowsOn(c, s, a, b);
    GrowsOn(c, s, b, d);
    AsksOk(c, lim, d, e);
    PauseKeeps(c, e, f, d.b.inn.tail);
    GrowsParts(c, e, f);
    GrowsOn(c, d, e, f);
    MarkedLow(c, e, f, d.b.inn.tail);
  }

  lemma MarkedLow(c: Config, e: State, f: State, n: nat)
    requires Grows(c, e, f) && e.Fits(c)
    ensures f.a.out.tail <= n ==> e.a.out.tail <= n
  {
    hide Got;
  }

  /** Every round leaves strictly less missing of any numbers that had been let out before it; when
      nothing of them is missing, it is all acknowledged. */
  lemma RoundOk(c: Config, lim: Limits, s: State, t: State, upto: nat)
    requires Sound(c, s) && s.Fits(c) && Round(c, lim, s, t) && lim.Some() && upto <= s.a.out.tcpHead
    ensures Sound(c, t) && Grows(c, s, t) && t.Fits(c)
    ensures Lacking(s.b.inn, c, upto) != {} ==> Lacking(t.b.inn, c, upto) < Lacking(s.b.inn, c, upto)
    ensures Lacking(s.b.inn, c, upto) == {} ==> t.a.out.tail >= upto && Lacking(t.b.inn, c, upto) == {}
  {
    hide *;
    var d, f := Heard(c, lim, s, t, upto);
    var x := d.b.inn.tail;
    SoundWindow(c, d);
    if x < d.b.inn.head {
      AnswersOk(c, lim, f, t, x);
    } else {
      var ns := AnswersGrow(c, lim, f, t);
    }
    GrowsOn(c, d, f, t);
    GrowsOn(c, s, d, t);
    GrowsParts(c, f, t);
    Shrinks(c, s, d, t, x, upto);
  }

  lemma RoundsFirst(c: Config, lim: Limits, n: nat, s: State, t: State) returns (u: State)
    requires Rounds(c, lim, n, s, t) && n > 0
    ensures Round(c, lim, s, u) && Rounds(c, lim, n - 1, u, t)
  {
    hide Round;
    u :| Round(c, lim, s, u) && Rounds(c, lim, n - 1, u, t);
  }

  lemma NoRounds(c: Config, lim: Limits, s: State, t: State)
    requires Rounds(c, lim, 0, s, t)
    ensures t == s
  {}

  /** Recovery: after one round more than packets are missing, all that had been let out by the start
      has arrived and is acknowledged, however much more has been let out since. */
  lemma {:induction false} Recovers(c: Config, lim: Limits, s: State, t: State, n: nat, upto: nat)
    requires Sound(c, s) && s.Fits(c) && Rounds(c, lim, n, s, t) && lim.Some() && upto <= s.a.out.tcpHead
    requires n > |Lacking(s.b.inn, c, upto)|
    ensures Sound(c, t) && t.Fits(c) && Lacking(t.b.inn, c, upto) == {} && t.a.out.tail >= upto
    decreases n
  {
    hide *;
    var u := RoundsFirst(c, lim, n, s, t);
    RoundOk(c, lim, s, u, upto);
    GrowsParts(c, s, u);
    if Lacking(s.b.inn, c, upto) != {} {
      SmallerSet(Lacking(u.b.inn, c, upto), Lacking(s.b.inn, c, upto));
      Recovers(c, lim, u, t, n - 1, upto);
    } else if n > 1 {
      Recovers(c, lim, u, t, n - 1, upto);
    } else {
      NoRounds(c, lim, u, t);
    }
  }
}
