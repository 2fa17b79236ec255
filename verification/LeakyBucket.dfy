/** The rate limit of a network leg: a bucket of bytes that fills with time, and packets that wait
    for it in their order. */
module LeakyBucket {
  datatype Packet = Packet(id: nat, size: nat)

  const MAX_PACKET_SIZE := 1472
  const FILL_USEC := 500

  /** The limit in kilobits a second; a negative one means none. */
  datatype Limit = Limit(kbps: int) {
    /** The most the bucket holds, which is also the most packets that may wait. */
    function Cap(): int { if kbps >= 0 then kbps * FILL_USEC / 8000 + MAX_PACKET_SIZE else -1 }

    /** The bytes `usec` microseconds are worth, stored in 32 bits. */
    function Worth(usec: nat): (n: nat)
      requires kbps >= 0
      ensures n * 8000 <= kbps * usec && n < 0x1_0000_0000
      ensures kbps * usec < 8000 * 0x1_0000_0000 ==> kbps * usec < 8000 * (n + 1)
    {
      (kbps * usec / 8000) % 0x1_0000_0000
    }
  }

  /** Bytes in the bucket, the time it was last filled, the packets waiting, and all packets ever
      accepted and ever sent. */
  datatype Leg = Leg(bucket: int, last: nat, waiting: seq<Packet>, accepted: seq<Packet>, sent: seq<Packet>)

  function Create(lim: Limit, now: nat): Leg { Leg(lim.Cap(), now, [], [], []) }

  function Emit(l: Leg, p: Packet): Leg { l.(bucket := l.bucket - p.size, sent := l.sent + [p]) }

  /** Leg_Try_Send_Buffered: send from the front as long as the bucket covers it. */
  function SendWaiting(l: Leg): Leg
    decreases |l.waiting|
  {
    if l.waiting == [] || l.waiting[0].size > l.bucket then l
    else SendWaiting(Emit(l, l.waiting[0]).(waiting := l.waiting[1..]))
  }

  /** Link_Send: refuse when too many wait; send at once when nobody waits and the bucket covers it;
      otherwise join the end of the queue. */
  function Send(lim: Limit, l: Leg, p: Packet): Leg {
    if lim.kbps >= 0 && |l.waiting| >= lim.Cap() then l
    else
      var a := l.(accepted := l.accepted + [p]);
      if lim.kbps < 0 || (l.waiting == [] && p.size <= l.bucket) then Emit(a, p)
      else SendWaiting(a.(waiting := a.waiting + [p]))
  }

  /** Fill_Leg_Bucket: a full bucket is left alone, and keeps its old fill time. */
  function Fill(lim: Limit, l: Leg, now: nat): Leg
    requires lim.kbps >= 0 && now >= l.last
  {
    if l.bucket == lim.Cap() then l
    else
      var filled := l.bucket + lim.Worth(now - l.last);
      var f := l.(bucket := if filled > lim.Cap() then lim.Cap() else filled, last := now);
      if f.waiting != [] && f.bucket > 0 then SendWaiting(f) else f
  }

  function Bytes(ps: seq<Packet>): nat {
    if ps == [] then 0 else Bytes(ps[..|ps| - 1]) + ps[|ps| - 1].size
  }

  // ---------------------------------------------------------------- what every step keeps

  /** Nothing is lost or overtaken, the bucket keeps to its bounds, and whoever waits first does
      not fit. */
  ghost predicate Sound(lim: Limit, l: Leg) {
    && lim.kbps >= 0
    && l.sent + l.waiting == l.accepted
    && 0 <= l.bucket <= lim.Cap()
    && (l.waiting != [] ==> l.waiting[0].size > l.bucket)
  }

  lemma BytesPush(ps: seq<Packet>, p: Packet)
    ensures Bytes(ps + [p]) == Bytes(ps) + p.size
  {
    assert (ps + [p])[..|ps|] == ps;
  }

  /** What is sent comes out of the bucket. */
  lemma {:induction false} SendWaitingOk(l: Leg)
    requires l.sent + l.waiting == l.accepted && l.bucket >= 0
    ensures var r := SendWaiting(l);
            && r.sent + r.waiting == r.accepted == l.accepted && r.last == l.last
            && 0 <= r.bucket <= l.bucket && Bytes(r.sent) + r.bucket == Bytes(l.sent) + l.bucket
            && (r.waiting != [] ==> r.waiting[0].size > r.bucket)
    decreases |l.waiting|
  {
    if l.waiting != [] && l.waiting[0].size <= l.bucket {
      var p := l.waiting[0];
      BytesPush(l.sent, p);
      assert l.sent + [p] + l.waiting[1..] == l.sent + l.waiting;
      SendWaitingOk(Emit(l, p).(waiting := l.waiting[1..]));
    }
  }

  lemma CreateOk(lim: Limit, now: nat)
    requires lim.kbps >= 0
    ensures Sound(lim, Create(lim, now)) && Bytes(Create(lim, now).sent) == 0
    ensures Create(lim, now).bucket == lim.Cap() && Create(lim, now).last == now
  {}

  lemma SendOk(lim: Limit, l: Leg, p: Packet)
    requires Sound(lim, l)
    ensures var r := Send(lim, l, p);
            && Sound(lim, r) && r.last == l.last && Bytes(r.sent) + r.bucket == Bytes(l.sent) + l.bucket
            && r.bucket <= l.bucket && (l.waiting != [] ==> r.waiting != [] && r.sent == l.sent)
            && r.accepted == if |l.waiting| >= lim.Cap() then l.accepted else l.accepted + [p]
  {
    if |l.waiting| < lim.Cap() {
      var a := l.(accepted := l.accepted + [p]);
      if l.waiting == [] && p.size <= l.bucket {
        BytesPush(l.sent, p);
        assert l.sent + [p] + [] == l.sent + [] + [p];
      } else {
        assert l.sent + (l.waiting + [p]) == (l.sent + l.waiting) + [p];
        SendWaitingOk(a.(waiting := a.waiting + [p]));
      }
    }
  }

  /** Eight thousand times the bytes sent and in the bucket, less the rate times the last fill time. */
  ghost function Level(lim: Limit, l: Leg): int {
    8000 * (Bytes(l.sent) + l.bucket) - lim.kbps * l.last
  }

  lemma FillOk(lim: Limit, l: Leg, now: nat)
    requires Sound(lim, l) && now >= l.last
    ensures var r := Fill(lim, l, now);
            && Sound(lim, r) && r.accepted == l.accepted && l.last <= r.last <= now
            && Level(lim, r) <= Level(lim, l)
            && Bytes(r.sent) + r.bucket <= Bytes(l.sent) + lim.Cap()
            && Bytes(r.sent) + r.bucket <= Bytes(l.sent) + l.bucket + lim.Worth(now - l.last)
  {
    if l.bucket != lim.Cap() {
      var w := lim.Worth(now - l.last);
      var filled := l.bucket + w;
      var f := l.(bucket := if filled > lim.Cap() then lim.Cap() else filled, last := now);
      Times(lim.kbps, now, l.last);
      if f.waiting != [] && f.bucket > 0 { SendWaitingOk(f); }
    }
  }

  /** The cap is what half a millisecond is worth and one packet of the largest size. */
  lemma CapIs(lim: Limit)
    requires lim.kbps >= 0
    ensures 8000 * (lim.Cap() - 1472) <= 500 * lim.kbps < 8000 * (lim.Cap() - 1471)
  {}

  /** Without a limit every packet leaves at once. */
  lemma UnlimitedSends(lim: Limit, l: Leg, p: Packet)
    requires lim.kbps < 0
    ensures var r := Send(lim, l, p);
            r.sent == l.sent + [p] && r.accepted == l.accepted + [p] && r.waiting == l.waiting
  {}

  lemma {:induction false} SendWaitingGrows(l: Leg)
    ensures l.sent <= SendWaiting(l).sent
    decreases |l.waiting|
  {
    if l.waiting != [] && l.waiting[0].size <= l.bucket {
      SendWaitingGrows(Emit(l, l.waiting[0]).(waiting := l.waiting[1..]));
    }
  }

  /** A fill below the cap credits all that the time since the last one is worth, up to the cap,
      whether anybody waits or not: it is in the bucket or has left with those who waited. */
  lemma FillCredits(lim: Limit, l: Leg, now: nat)
    requires Sound(lim, l) && now >= l.last
    ensures l.bucket == lim.Cap() ==> Fill(lim, l, now) == l
    ensures l.bucket < lim.Cap() ==>
              var r, due := Fill(lim, l, now), l.bucket + lim.Worth(now - l.last);
              && Bytes(r.sent) + r.bucket == Bytes(l.sent) + (if due < lim.Cap() then due else lim.Cap())
              && r.last == now && l.sent <= r.sent
  {
    if l.bucket != lim.Cap() {
      var filled := l.bucket + lim.Worth(now - l.last);
      var f := l.(bucket := if filled > lim.Cap() then lim.Cap() else filled, last := now);
      if f.waiting != [] && f.bucket > 0 {
        SendWaitingOk(f);
        SendWaitingGrows(f);
      }
    }
  }

  lemma Times(k: int, a: int, b: int)
    ensures k * (a - b) == k * a - k * b
  {}

  lemma SendLevel(lim: Limit, l: Leg, p: Packet)
    requires Sound(lim, l)
    ensures Level(lim, Send(lim, l, p)) == Level(lim, l)
  {
    SendOk(lim, l, p);
  }

  // ---------------------------------------------------------------- runs

  /** A packet to send or a tick of the fill timer, with its time. */
  datatype Event = Arrives(at: nat, p: Packet) | Tick(at: nat)

  /** Times do not run backwards. */
  ghost predicate InTime(l: Leg, from: nat, evs: seq<Event>) {
    && l.last <= from
    && (forall i :: 0 <= i < |evs| ==> from <= evs[i].at)
    && (forall i, j :: 0 <= i < j < |evs| ==> evs[i].at <= evs[j].at)
  }

  ghost function Step(lim: Limit, l: Leg, ev: Event): Leg {
    match ev
    case Arrives(_, p) => Send(lim, l, p)
    case Tick(at) => if lim.kbps >= 0 && at >= l.last then Fill(lim, l, at) else l
  }

  ghost function Run(lim: Limit, l: Leg, evs: seq<Event>): Leg {
    if evs == [] then l else Step(lim, Run(lim, l, evs[..|evs| - 1]), evs[|evs| - 1])
  }

  /** Every run keeps the leg sound and never raises its level. */
  lemma {:induction false} RunOk(lim: Limit, l: Leg, from: nat, evs: seq<Event>, until: nat)
    requires Sound(lim, l) && InTime(l, from, evs) && from <= until && forall i :: 0 <= i < |evs| ==> evs[i].at <= until
    ensures var r := Run(lim, l, evs);
            Sound(lim, r) && l.last <= r.last <= until && Level(lim, r) <= Level(lim, l)
  {
    if evs != [] {
      var front, ev := evs[..|evs| - 1], evs[|evs| - 1];
      RunOk(lim, l, from, front, ev.at);
      var m := Run(lim, l, front);
      match ev
      case Arrives(_, p) => SendOk(lim, m, p); SendLevel(lim, m, p);
      case Tick(at) => FillOk(lim, m, at);
    }
  }

  // ---------------------------------------------------------------- who waits gets away

  /** When the timer last ticked. */
  ghost function LastTick(from: nat, evs: seq<Event>): nat {
    if evs == [] then from
    else if evs[|evs| - 1].Tick? then evs[|evs| - 1].at
    else LastTick(from, evs[..|evs| - 1])
  }

  ghost function Ticks(evs: seq<Event>): nat {
    if evs == [] then 0 else Ticks(evs[..|evs| - 1]) + if evs[|evs| - 1].Tick? then 1 else 0
  }

  /** What the ticks are worth, each by itself. */
  ghost function Credit(lim: Limit, from: nat, evs: seq<Event>): nat
    requires lim.kbps >= 0
  {
    if evs == [] then 0
    else
      var front, ev := evs[..|evs| - 1], evs[|evs| - 1];
      Credit(lim, from, front) +
      if ev.Tick? && ev.at >= LastTick(from, front) then lim.Worth(ev.at - LastTick(from, front)) else 0
  }

  lemma {:induction false} LastTickBy(l: Leg, from: nat, evs: seq<Event>)
    requires InTime(l, from, evs)
    ensures l.last <= LastTick(l.last, evs) && forall i :: i == |evs| - 1 >= 0 ==> LastTick(l.last, evs) <= evs[i].at
  {
    if evs != [] { LastTickBy(l, from, evs[..|evs| - 1]); }
  }

  /** Nothing has left, and all the credit is in the bucket. */
  ghost predicate Saving(lim: Limit, l: Leg, evs: seq<Event>, r: Leg)
    requires lim.kbps >= 0
  {
    && r.sent == l.sent && l.waiting <= r.waiting
    && r.last == LastTick(l.last, evs) && r.bucket == l.bucket + Credit(lim, l.last, evs)
  }

  /** One fill, for the first to wait: it leaves, or all the credit is kept for it. */
  lemma WaiterFill(lim: Limit, m: Leg, at: nat)
    requires Sound(lim, m) && at >= m.last && m.waiting != [] && m.waiting[0].size <= lim.Cap()
    ensures var r, due := Fill(lim, m, at), m.bucket + lim.Worth(at - m.last);
            if due >= m.waiting[0].size then m.sent + [m.waiting[0]] <= r.sent
            else r == m.(bucket := due, last := at)
  {
    var filled, p := m.bucket + lim.Worth(at - m.last), m.waiting[0];
    var f := m.(bucket := if filled > lim.Cap() then lim.Cap() else filled, last := at);
    if p.size <= f.bucket { SendWaitingGrows(Emit(f, p).(waiting := f.waiting[1..])); }
  }

  lemma TickStep(lim: Limit, l: Leg, from: nat, front: seq<Event>, at: nat)
    requires lim.kbps >= 0 && InTime(l, from, front + [Tick(at)])
    ensures var evs := front + [Tick(at)];
            && InTime(l, from, front) && LastTick(l.last, front) <= at == LastTick(l.last, evs)
            && Credit(lim, l.last, evs) == Credit(lim, l.last, front) + lim.Worth(at - LastTick(l.last, front))
  {
    var evs := front + [Tick(at)];
    assert evs[..|evs| - 1] == front && evs[|evs| - 1] == Tick(at);
    assert InTime(l, from, front) by {
      assert forall i :: 0 <= i < |front| ==> front[i] == evs[i];
    }
    LastTickBy(l, from, front);
    assert front != [] ==> evs[|front| - 1] == front[|front| - 1];
  }

  lemma SavingTick(lim: Limit, l: Leg, from: nat, front: seq<Event>, at: nat)
    requires Sound(lim, l) && InTime(l, from, front + [Tick(at)]) && l.waiting != [] && l.waiting[0].size <= lim.Cap()
    requires Sound(lim, Run(lim, l, front)) && Saving(lim, l, front, Run(lim, l, front))
    ensures var evs := front + [Tick(at)];
            if l.bucket + Credit(lim, l.last, evs) >= l.waiting[0].size
            then l.sent + [l.waiting[0]] <= Run(lim, l, evs).sent
            else Saving(lim, l, evs, Run(lim, l, evs))
  {
    var evs, m := front + [Tick(at)], Run(lim, l, front);
    assert lim.kbps >= 0 && m.last == LastTick(l.last, front) && m.waiting[0] == l.waiting[0];
    TickStep(lim, l, from, front, at);
    RunSnoc(lim, l, front, Tick(at));
    hide Run, Credit, InTime, LastTick, Fill, Limit.Worth, Sound;
    WaiterFill(lim, m, at);
    assert Step(lim, m, Tick(at)) == Fill(lim, m, at);
  }

  lemma SavingArrival(lim: Limit, l: Leg, front: seq<Event>, at: nat, q: Packet)
    requires Sound(lim, l) && l.waiting != []
    requires Sound(lim, Run(lim, l, front)) && Saving(lim, l, front, Run(lim, l, front))
    ensures Saving(lim, l, front + [Arrives(at, q)], Run(lim, l, front + [Arrives(at, q)]))
  {
    var evs, m := front + [Arrives(at, q)], Run(lim, l, front);
    assert evs[..|evs| - 1] == front;
    SendOk(lim, m, q);
    hide Run, Send, Bytes;
    RunSnoc(lim, l, front, Arrives(at, q));
    var r := Send(lim, m, q);
    assert r.sent + r.waiting == r.accepted && m.sent + m.waiting == m.accepted;
    Queued(m.sent, m.waiting, r.waiting, q);
  }

  lemma Queued<T>(sent: seq<T>, was: seq<T>, now: seq<T>, q: T)
    requires sent + now == sent + was || sent + now == sent + was + [q]
    ensures was <= now
  {
    assert (sent + now)[|sent|..] == now;
    assert sent + was + [q] == sent + (was + [q]);
    assert (sent + (was + [q]))[|sent|..] == was + [q] && (sent + was)[|sent|..] == was;
  }

  lemma SentGrows(lim: Limit, l: Leg, ev: Event)
    requires Sound(lim, l)
    ensures l.sent <= Step(lim, l, ev).sent
  {
    match ev
    case Arrives(_, p) => SendWaitingGrows(l.(accepted := l.accepted + [p], waiting := l.waiting + [p]));
    case Tick(at) => if at >= l.last { FillCredits(lim, l, at); }
  }

  lemma CreditGrows(lim: Limit, l: Leg, evs: seq<Event>)
    requires lim.kbps >= 0 && evs != []
    ensures Credit(lim, l.last, evs[..|evs| - 1]) <= Credit(lim, l.last, evs)
  {}

  /** Exactly when the first to wait gets away: once the bucket and what the ticks since were worth
      come to its size, and until then all of that is saved up. */
  lemma {:induction false} WaitsExactly(lim: Limit, l: Leg, from: nat, evs: seq<Event>)
    requires Sound(lim, l) && InTime(l, from, evs) && l.waiting != [] && l.waiting[0].size <= lim.Cap()
    ensures l.sent + [l.waiting[0]] <= Run(lim, l, evs).sent <==>
              l.bucket + Credit(lim, l.last, evs) >= l.waiting[0].size
    ensures l.bucket + Credit(lim, l.last, evs) < l.waiting[0].size ==> Saving(lim, l, evs, Run(lim, l, evs))
    decreases |evs|
  {
    if evs != [] {
      var front, ev := evs[..|evs| - 1], evs[|evs| - 1];
      assert front + [ev] == evs;
      WaitsExactly(lim, l, from, front);
      RunOk(lim, l, from, front, ev.at);
      CreditGrows(lim, l, evs);
      if l.bucket + Credit(lim, l.last, front) >= l.waiting[0].size {
        SentGrows(lim, Run(lim, l, front), ev);
        RunSnoc(lim, l, front, ev);
        hide Run, Credit, Step, Sound, InTime;
      } else {
        match ev
        case Arrives(at, q) => SavingArrival(lim, l, front, at, q); assert ev == Arrives(at, q);
        case Tick(at) => SavingTick(lim, l, from, front, at); assert ev == Tick(at);
      }
    }
  }

  /** Ticks are worth the time between them, less than a byte each lost to rounding. */
  lemma {:induction false} CreditIs(lim: Limit, l: Leg, from: nat, evs: seq<Event>)
    requires lim.kbps >= 0 && InTime(l, from, evs)
    requires lim.kbps * (LastTick(l.last, evs) - l.last) < 8000 * 0x1_0000_0000
    ensures 8000 * Credit(lim, l.last, evs) <= lim.kbps * (LastTick(l.last, evs) - l.last)
    ensures lim.kbps * (LastTick(l.last, evs) - l.last) <= 8000 * Credit(lim, l.last, evs) + 7999 * Ticks(evs)
    decreases |evs|
  {
    if evs == [] {
      assert lim.kbps * 0 == 0;
    } else {
      var front, ev := evs[..|evs| - 1], evs[|evs| - 1];
      var a, b, c := l.last, LastTick(l.last, front), LastTick(l.last, evs);
      LastTickBy(l, from, evs);
      LastTickBy(l, from, front);
      assert b <= c;
      Times(lim.kbps, c, a);
      Times(lim.kbps, b, a);
      Times(lim.kbps, c, b);
      Grows(lim.kbps, b, c);
      Grows(lim.kbps, a, b);
      CreditIs(lim, l, from, front);
    }
  }

  // ---------------------------------------------------------------- how much leaves

  /** What was sent since, in bytes. */
  ghost function SentSince(lim: Limit, l: Leg, evs: seq<Event>): int {
    Bytes(Run(lim, l, evs).sent) - Bytes(l.sent)
  }

  /** Over any stretch of a run: what was in the bucket, and what the time since it was last filled
      is worth. */
  lemma Throughput(lim: Limit, l: Leg, from: nat, evs: seq<Event>, until: nat)
    requires Sound(lim, l) && InTime(l, from, evs) && from <= until && forall i :: 0 <= i < |evs| ==> evs[i].at <= until
    ensures 8000 * SentSince(lim, l, evs) <= 8000 * l.bucket + lim.kbps * (until - l.last)
  {
    RunOk(lim, l, from, evs, until);
    var r := Run(lim, l, evs);
    Times(lim.kbps, until, l.last);
    Grows(lim.kbps, r.last, until);
  }

  lemma Grows(k: int, a: int, b: int)
    requires k >= 0 && a <= b
    ensures k * a <= k * b
  {}

  /** Since its creation a leg never sends more than the cap and what the elapsed time is worth; and
      what it was given leaves in order, the first to wait not fitting the bucket. */
  lemma SinceCreation(lim: Limit, now: nat, evs: seq<Event>, until: nat)
    requires lim.kbps >= 0 && InTime(Create(lim, now), now, evs) && now <= until
    requires forall i :: 0 <= i < |evs| ==> evs[i].at <= until
    ensures var r := Run(lim, Create(lim, now), evs);
            && Sound(lim, r) && 8000 * Bytes(r.sent) <= 8000 * lim.Cap() + lim.kbps * (until - now)
  {
    hide *;
    CreateOk(lim, now);
    var l := Create(lim, now);
    RunOk(lim, l, now, evs, until);
    Throughput(lim, l, now, evs, until);
    SentSinceIs(lim, l, evs);
  }

  lemma SentSinceIs(lim: Limit, l: Leg, evs: seq<Event>)
    ensures SentSince(lim, l, evs) == Bytes(Run(lim, l, evs).sent) - Bytes(l.sent)
  {}

  /** What has gone through the bucket since, counting what is in it now. */
  ghost function Through(l: Leg, r: Leg): int { Bytes(r.sent) + r.bucket - Bytes(l.sent) }

  /** Either the bucket has not been filled since, or no more than `most` (in bytes times 8000) and
      what the time up to the last fill is worth has gone through it. */
  ghost predicate Spent(lim: Limit, l: Leg, from: nat, most: int, r: Leg) {
    || (r.last == l.last && Through(l, r) == l.bucket && (Stuck(l) ==> Stuck(r) && Bytes(r.sent) == Bytes(l.sent)))
    || (r.last >= from && 8000 * Through(l, r) <= most + lim.kbps * (r.last - from))
  }

  /** No byte leaves before the next fill. */
  predicate Stuck(l: Leg) { l.waiting != [] || l.bucket == 0 }

  /** Enough for what the first fill since can bring about, counting a byte for its rounding unless
      the cap decides. */
  ghost predicate Allows(lim: Limit, l: Leg, from: nat, most: int)
    requires lim.kbps >= 0 && from >= l.last
  {
    || 8000 * (l.bucket + lim.Worth(from - l.last)) + 7999 <= most
    || 8000 * (if Stuck(l) then lim.Cap() else l.bucket + lim.Cap()) <= most
  }

  lemma FillTime(lim: Limit, l: Leg, now: nat)
    requires Sound(lim, l) && now >= l.last && l.bucket != lim.Cap()
    ensures Fill(lim, l, now).last == now
  {
    var filled := l.bucket + lim.Worth(now - l.last);
    var f := l.(bucket := if filled > lim.Cap() then lim.Cap() else filled, last := now);
    SendWaitingOk(f);
  }

  /** A later fill is worth at most what the time between adds, and less than a byte for rounding. */
  lemma WorthLater(lim: Limit, a: nat, b: nat)
    requires lim.kbps >= 0
    ensures 8000 * lim.Worth(a + b) <= 8000 * lim.Worth(a) + lim.kbps * b + 7999
  {
    var x, y := lim.kbps * a, lim.kbps * b;
    TimesSum(lim.kbps, a, b);
    Grows(lim.kbps, 0, a);
    Grows(lim.kbps, 0, b);
    Quotients(x, y);
    Wraps(x / 8000, (x + y) / 8000);
  }

  lemma TimesSum(k: int, a: int, b: int)
    ensures k * (a + b) == k * a + k * b && k * 0 == 0
  {}

  lemma Quotients(x: nat, y: nat)
    ensures x / 8000 <= (x + y) / 8000 && 8000 * ((x + y) / 8000) <= 8000 * (x / 8000) + y + 7999
  {}

  lemma Wraps(a: nat, b: nat)
    requires a <= b
    ensures b % 0x1_0000_0000 <= a % 0x1_0000_0000 + (b - a)
  {}

  lemma SpentFirstFill(lim: Limit, l: Leg, from: nat, most: int, m: Leg, now: nat)
    requires Sound(lim, l) && Sound(lim, m) && l.last <= from <= now && m.bucket != lim.Cap()
    requires m.last == l.last && Through(l, m) == l.bucket && (Stuck(l) ==> Stuck(m) && Bytes(m.sent) == Bytes(l.sent))
    requires Allows(lim, l, from, most)
    ensures var r := Fill(lim, m, now); 8000 * Through(l, r) <= most + lim.kbps * (now - from)
  {
    FillOk(lim, m, now);
    WorthLater(lim, from - l.last, now - from);
    Times(lim.kbps, now, from);
    Grows(lim.kbps, from, now);
    hide Fill, Bytes, Limit.Worth, Sound;
    assert from - l.last + (now - from) == now - m.last;
  }

  lemma SpentFill(lim: Limit, l: Leg, from: nat, most: int, m: Leg, now: nat)
    requires Sound(lim, l) && Sound(lim, m) && Spent(lim, l, from, most, m) && l.last <= from <= now && m.last <= now
    requires Allows(lim, l, from, most)
    ensures Spent(lim, l, from, most, Fill(lim, m, now))
  {
    if m.bucket != lim.Cap() {
      FillTime(lim, m, now);
      if m.last == l.last && Through(l, m) == l.bucket && (Stuck(l) ==> Stuck(m) && Bytes(m.sent) == Bytes(l.sent)) {
        SpentFirstFill(lim, l, from, most, m, now);
      } else {
        FillOk(lim, m, now);
        Times(lim.kbps, now, from);
        Times(lim.kbps, m.last, from);
      }
    }
    hide Bytes, Fill;
  }

  lemma SpentSend(lim: Limit, l: Leg, from: nat, most: int, m: Leg, p: Packet)
    requires Sound(lim, m) && Spent(lim, l, from, most, m)
    ensures Spent(lim, l, from, most, Send(lim, m, p))
  {
    SendOk(lim, m, p);
    hide Send, Bytes;
  }

  lemma {:induction false} SpentRun(lim: Limit, l: Leg, from: nat, most: int, evs: seq<Event>)
    requires Sound(lim, l) && InTime(l, from, evs) && Allows(lim, l, from, most)
    ensures Spent(lim, l, from, most, Run(lim, l, evs))
    decreases |evs|
  {
    if evs != [] {
      var front, ev := evs[..|evs| - 1], evs[|evs| - 1];
      RunOk(lim, l, from, front, ev.at);
      SpentRun(lim, l, from, most, front);
      var m := Run(lim, l, front);
      assert Run(lim, l, evs) == Step(lim, m, ev);
      hide Run, Fill, Send, Spent, Sound, Level, Allows;
      match ev
      case Arrives(_, p) => SpentSend(lim, l, from, most, m, p);
      case Tick(at) => SpentFill(lim, l, from, most, m, at);
    } else {
      hide Sound, Bytes;
    }
  }

  /** The last event is not after `until`. */
  ghost predicate Ends(evs: seq<Event>, until: nat) { forall i :: 0 <= i < |evs| ==> evs[i].at <= until }

  /** Over a stretch that starts at any time: what the first fill allows for and what the stretch is
      worth. */
  lemma Stretch(lim: Limit, l: Leg, from: nat, most: int, evs: seq<Event>, until: nat)
    requires Sound(lim, l) && InTime(l, from, evs) && from <= until && Ends(evs, until)
    requires Allows(lim, l, from, most) && 8000 * l.bucket <= most
    ensures 8000 * SentSince(lim, l, evs) <= most + lim.kbps * (until - from)
  {
    RunOk(lim, l, from, evs, until);
    SpentRun(lim, l, from, most, evs);
    var r := Run(lim, l, evs);
    Times(lim.kbps, until, from);
    Times(lim.kbps, r.last, from);
    Grows(lim.kbps, r.last, until);
    Grows(lim.kbps, from, until);
    hide Run, Bytes, Level, InTime, Allows;
  }

  /** Over any stretch, no more than twice the cap and what the stretch is worth. */
  lemma AnyStretch(lim: Limit, l: Leg, from: nat, evs: seq<Event>, until: nat)
    requires Sound(lim, l) && InTime(l, from, evs) && from <= until && Ends(evs, until)
    ensures 8000 * SentSince(lim, l, evs) <= 16000 * lim.Cap() + lim.kbps * (until - from)
  {
    Stretch(lim, l, from, 16000 * lim.Cap(), evs, until);
  }

  // ---------------------------------------------------------------- when once the cap is enough

  /** Packets no larger than the network takes. */
  ghost predicate Legal(evs: seq<Event>) {
    forall i :: 0 <= i < |evs| && evs[i].Arrives? ==> evs[i].p.size <= MAX_PACKET_SIZE
  }

  /** A stretch sends no whole byte more than the cap and what its time is worth. */
  ghost predicate CapHolds(lim: Limit, l: Leg, from: nat, evs: seq<Event>, until: nat) {
    InTime(l, from, evs) && Legal(evs) && from <= until && Ends(evs, until) ==>
      8000 * SentSince(lim, l, evs) < 8000 * (lim.Cap() + 1) + lim.kbps * (until - from)
  }

  /** What `n` bytes that arrive at once make in packets of the largest size. */
  ghost function Chunks(at: nat, n: nat): seq<Event> {
    if n == 0 then []
    else
      var c := if n < MAX_PACKET_SIZE then n else MAX_PACKET_SIZE;
      Chunks(at, n - c) + [Arrives(at, Packet(0, c))]
  }

  lemma {:induction false} ChunksAre(at: nat, n: nat)
    ensures Legal(Chunks(at, n)) && forall i :: 0 <= i < |Chunks(at, n)| ==> Chunks(at, n)[i].at == at
  {
    if n > 0 {
      ChunksAre(at, n - if n < MAX_PACKET_SIZE then n else MAX_PACKET_SIZE);
    }
  }

  /** Nobody waits, and `n` bytes less are in the bucket. */
  ghost predicate Drained(lim: Limit, l: Leg, n: nat, r: Leg) {
    && Sound(lim, r) && r.waiting == [] && r.last == l.last
    && r.bucket == l.bucket - n && Bytes(r.sent) == Bytes(l.sent) + n
  }

  lemma DrainedBy(lim: Limit, l: Leg, n: nat, m: Leg, at: nat, c: nat)
    requires Drained(lim, l, n, m) && n + c <= l.bucket
    ensures Drained(lim, l, n + c, Step(lim, m, Arrives(at, Packet(0, c))))
  {
    SendOk(lim, m, Packet(0, c));
    BytesPush(m.sent, Packet(0, c));
    hide Bytes;
  }

  lemma RunSnoc(lim: Limit, l: Leg, evs: seq<Event>, ev: Event)
    ensures Run(lim, l, evs + [ev]) == Step(lim, Run(lim, l, evs), ev)
  {
    assert (evs + [ev])[..|evs|] == evs;
  }

  lemma {:induction false} ChunksRun(lim: Limit, l: Leg, at: nat, n: nat)
    requires Sound(lim, l) && l.waiting == [] && n <= l.bucket
    ensures Drained(lim, l, n, Run(lim, l, Chunks(at, n)))
    decreases n
  {
    if n > 0 {
      hide Drained, Run, Step, Sound;
      var c := if n < MAX_PACKET_SIZE then n else MAX_PACKET_SIZE;
      ChunksRun(lim, l, at, n - c);
      RunSnoc(lim, l, Chunks(at, n - c), Arrives(at, Packet(0, c)));
      DrainedBy(lim, l, n - c, Run(lim, l, Chunks(at, n - c)), at, c);
    }
  }

  lemma {:induction false} RunJoin(lim: Limit, l: Leg, a: seq<Event>, b: seq<Event>)
    ensures Run(lim, l, a + b) == Run(lim, Run(lim, l, a), b)
    decreases |b|
  {
    if b == [] {
      assert a + b == a;
    } else {
      assert (a + b)[..|a + b| - 1] == a + b[..|b| - 1];
      RunJoin(lim, l, a, b[..|b| - 1]);
    }
  }

  /** What an empty bucket is filled with. */
  function Refill(lim: Limit, l: Leg, at: nat): (n: nat)
    requires lim.kbps >= 0 && l.last <= at
  {
    if lim.Worth(at - l.last) > lim.Cap() then lim.Cap() else lim.Worth(at - l.last)
  }

  /** Empty the bucket, let it fill, and empty it again, all at one time. */
  ghost function BurstAt(lim: Limit, l: Leg, at: nat): seq<Event>
    requires Sound(lim, l) && l.last <= at
  {
    Chunks(at, l.bucket) + ([Tick(at)] + Chunks(at, Refill(lim, l, at)))
  }

  lemma BurstIs(lim: Limit, l: Leg, at: nat)
    requires Sound(lim, l) && l.last <= at
    ensures var evs := BurstAt(lim, l, at); InTime(l, at, evs) && Legal(evs) && Ends(evs, at)
  {
    ChunksAre(at, l.bucket);
    ChunksAre(at, Refill(lim, l, at));
    hide Chunks, Sound, Refill;
  }

  lemma FillsEmpty(lim: Limit, l: Leg, n: nat, m: Leg, at: nat)
    requires Drained(lim, l, n, m) && m.bucket == 0 && l.last <= at && lim.kbps >= 0
    ensures var f := Step(lim, m, Tick(at));
            Sound(lim, f) && f.waiting == [] && f.bucket == Refill(lim, l, at) && f.sent == m.sent
  {
    FillOk(lim, m, at);
  }

  /** With nobody waiting, what is in the bucket and what a fill brings can leave at the same time. */
  lemma Burst(lim: Limit, l: Leg, at: nat)
    requires Sound(lim, l) && l.waiting == [] && l.last <= at
    ensures InTime(l, at, BurstAt(lim, l, at)) && Legal(BurstAt(lim, l, at)) && Ends(BurstAt(lim, l, at), at)
    ensures SentSince(lim, l, BurstAt(lim, l, at)) == l.bucket + Refill(lim, l, at)
  {
    BurstIs(lim, l, at);
    hide Fill, Step, Chunks, Bytes, InTime, Legal, Ends, Refill, Run;
    var a, n := Chunks(at, l.bucket), Refill(lim, l, at);
    var b := Chunks(at, n);
    ChunksRun(lim, l, at, l.bucket);
    var m := Run(lim, l, a);
    FillsEmpty(lim, l, l.bucket, m, at);
    var f := Step(lim, m, Tick(at));
    RunOne(lim, m, Tick(at));
    ChunksRun(lim, f, at, n);
    RunJoin(lim, m, [Tick(at)], b);
    RunJoin(lim, l, a, [Tick(at)] + b);
  }

  lemma RunOne(lim: Limit, l: Leg, ev: Event)
    ensures Run(lim, l, [ev]) == Step(lim, l, ev)
  {
    assert [ev][..0] == [];
  }

  /** Exactly when once the cap is enough: someone waits or the bucket is empty, or the bucket and
      what it has been due since its last fill come to no more than the cap. */
  lemma OnceTheCapExactly(lim: Limit, l: Leg, from: nat)
    requires Sound(lim, l) && l.last <= from
    ensures (forall evs, until :: CapHolds(lim, l, from, evs, until))
        <==> (l.waiting != [] || l.bucket == 0 || l.bucket + lim.Worth(from - l.last) <= lim.Cap())
  {
    if l.waiting != [] || l.bucket == 0 || l.bucket + lim.Worth(from - l.last) <= lim.Cap() {
      forall evs, until ensures CapHolds(lim, l, from, evs, until) {
        if InTime(l, from, evs) && Legal(evs) && from <= until && Ends(evs, until) {
          Stretch(lim, l, from, 8000 * lim.Cap() + 7999, evs, until);
        }
      }
    } else {
      Burst(lim, l, from);
      assert lim.kbps * (from - from) == 0;
      assert !CapHolds(lim, l, from, BurstAt(lim, l, from), from);
    }
  }

  /** Whatever the limit, a leg left idle for long enough sends twice the cap in no time: a full
      bucket keeps its old fill time. */
  lemma TwiceTheCap(lim: Limit, now: nat, at: nat)
    requires lim.kbps >= 0 && now <= at && lim.Worth(at - now) >= lim.Cap()
    ensures var l := Create(lim, now);
            && Sound(lim, l) && InTime(l, at, BurstAt(lim, l, at))
            && Legal(BurstAt(lim, l, at)) && Ends(BurstAt(lim, l, at), at)
            && SentSince(lim, l, BurstAt(lim, l, at)) == 2 * lim.Cap()
  {
    Burst(lim, Create(lim, now), at);
  }

  /** At the default rate, one idle second does it: 65,444 bytes leave at once, where the cap is half
      of that. */
  lemma OneIdleSecond(now: nat)
    ensures var lim := Limit(500000); var l := Create(lim, now); var at := now + 1000000;
            && lim.Cap() == 32722 && Sound(lim, l) && l.last <= at
            && InTime(l, at, BurstAt(lim, l, at)) && Legal(BurstAt(lim, l, at)) && Ends(BurstAt(lim, l, at), at)
            && SentSince(lim, l, BurstAt(lim, l, at)) == 65444
  {
    TwiceTheCap(Limit(500000), now, now + 1000000);
  }

  // ---------------------------------------------------------------- as the daemon does it

  class NetworkLeg {
    const lim: Limit
    var bucket: int
    var last: nat
    var waiting: seq<Packet>
    ghost var accepted: seq<Packet>
    ghost var sent: seq<Packet>

    ghost function Now(): Leg
      reads this
    {
      Leg(bucket, last, waiting, accepted, sent)
    }

    constructor (limit: Limit, now: nat)
      ensures lim == limit && Now() == Create(limit, now)
    {
      lim := limit;
      bucket, last, waiting := limit.Cap(), now, [];
      accepted, sent := [], [];
    }

    method TrySendBuffered()
      modifies this`bucket, this`waiting, this`sent
      ensures Now() == SendWaiting(old(Now()))
    {
      while waiting != []
        invariant SendWaiting(Now()) == SendWaiting(old(Now()))
        decreases |waiting|
      {
        if waiting[0].size > bucket { break; }
        ghost var before := Now();
        sent := sent + [waiting[0]];
        bucket := bucket - waiting[0].size;
        waiting := waiting[1..];
        assert Now() == Emit(before, before.waiting[0]).(waiting := before.waiting[1..]);
      }
    }

    /** Link_Send. */
    method LinkSend(p: Packet)
      modifies this`bucket, this`waiting, this`accepted, this`sent
      ensures Now() == Send(lim, old(Now()), p)
    {
      if lim.kbps >= 0 && |waiting| >= lim.Cap() { return; }
      accepted := accepted + [p];
      if lim.kbps < 0 || (waiting == [] && p.size <= bucket) {
        sent := sent + [p];
        bucket := bucket - p.size;
        return;
      }
      waiting := waiting + [p];
      TrySendBuffered();
    }

    /** Fill_Leg_Bucket; a bucket over the cap would end the daemon. */
    method FillBucket(now: nat)
      requires lim.kbps >= 0 && now >= last && Sound(lim, Now())
      modifies this`bucket, this`last, this`waiting, this`sent
      ensures Now() == Fill(lim, old(Now()), now) && Sound(lim, Now())
    {
      FillOk(lim, Now(), now);
      if bucket > lim.Cap() { assert false; }
      if bucket == lim.Cap() { return; }
      bucket := bucket + lim.Worth(now - last);
      last := now;
      if bucket > lim.Cap() { bucket := lim.Cap(); }
      if waiting != [] && bucket > 0 { TrySendBuffered(); }
    }
  }
}
