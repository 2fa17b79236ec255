/** Rounds of recovery are sequences of possible moves, always possible themselves, and so part of every
    run in which both sides are in the same session. */
module RecoveryRuns {
  import opened Wrappers
  import opened Fragments
  import opened ItLink
  import opened SenderSide
  import opened ReceiverSide
  import opened Transport
  import opened Incarnations
  import opened Recovery

  // ---------------------------------------------------------------- rounds are runs

  ghost predicate Reaches(c: Config, s: State, t: State) {
    s.Fits(c) && exists moves :: Legal(c, s, moves) && t == Steps(c, s, moves)
  }

  lemma ReachesOn(c: Config, s: State, t: State, u: State)
    requires Reaches(c, s, t) && Reaches(c, t, u)
    ensures Reaches(c, s, u)
  {
    hide Legal, Steps;
    var a :| Legal(c, s, a) && t == Steps(c, s, a);
    var b :| Legal(c, t, b) && u == Steps(c, t, b);
    StepsJoin(c, s, a, b);
    assert Legal(c, s, a + b);
  }

  lemma PauseReaches(c: Config, s: State, t: State)
    requires Pause(c, s, t)
    ensures Reaches(c, s, t)
  {
    hide Legal, Steps, Quiet;
  }

  lemma SelfReaches(c: Config, s: State)
    requires s.Fits(c)
    ensures Reaches(c, s, s) && Pause(c, s, s)
  {
    assert Legal(c, s, []) && s == Steps(c, s, []);
  }

  lemma DoesReaches(c: Config, s: State, mv: Move, t: State)
    requires Does(c, s, mv, t)
    ensures Reaches(c, s, t) && t.Fits(c)
  {
    OneMove(c, s, mv);
    hide Step, Allowed, Legal, Steps;
  }

  lemma ArrivesReaches(c: Config, s: State, w: Wire, t: State)
    requires Arrives(c, s, w, t)
    ensures Reaches(c, s, t)
  {
    var u, v, rand :| Pause(c, s, u) && Does(c, u, ByB(TakeAck(w, rand)), v) && Does(c, v, ByB(TakeData), t);
    hide *;
    PauseReaches(c, s, u);
    DoesReaches(c, u, ByB(TakeAck(w, rand)), v);
    DoesReaches(c, v, ByB(TakeData), t);
    ReachesOn(c, s, u, v);
    ReachesOn(c, s, v, t);
  }

  lemma TimesOutReaches(c: Config, s: State, t: State)
    requires s.Fits(c) && TimesOut(c, s, t)
    ensures Reaches(c, s, t)
  {
    hide Does, Arrives, Reaches;
    if s.a.out.tcpHead > s.a.out.tail {
      var n := LastOut(s.a.out);
      var u, nacks :| GoesAgain(c, s, n, nacks, u, t);
      DoesReaches(c, s, ByA(Resend(n, false, nacks)), u);
      ArrivesReaches(c, u, DataWire(s.a, c, n, nacks), t);
      ReachesOn(c, s, u, t);
    } else {
      SelfReaches(c, s);
    }
  }

  lemma AsksReaches(c: Config, lim: Limits, s: State, t: State)
    requires Asks(c, lim, s, t)
    ensures Reaches(c, s, t)
  {
    var asked := Missing(s.b.inn, c, _ => true, s.b.inn.tail, lim.cap);
    var u, v, rand :| Does(c, s, ByB(SendAck(asked)), u) && Pause(c, u, v)
                      && Does(c, v, ByA(TakeAck(AckWire(s.b, asked), rand)), t);
    hide *;
    DoesReaches(c, s, ByB(SendAck(asked)), u);
    PauseReaches(c, u, v);
    DoesReaches(c, v, ByA(TakeAck(AckWire(s.b, asked), rand)), t);
    ReachesOn(c, s, u, v);
    ReachesOn(c, s, v, t);
  }

  lemma {:induction false} SendsAgainReaches(c: Config, s: State, ns: seq<nat>, t: State)
    requires s.Fits(c) && SendsAgain(c, s, ns, t)
    ensures Reaches(c, s, t)
    decreases |ns|
  {
    hide Does, Reaches;
    if ns == [] {
      SelfReaches(c, s);
    } else {
      var u :| Does(c, s, ByA(Resend(ns[0], true, [])), u) && SendsAgain(c, u, ns[1..], t);
      DoesReaches(c, s, ByA(Resend(ns[0], true, [])), u);
      SendsAgainReaches(c, u, ns[1..], t);
      ReachesOn(c, s, u, t);
    }
  }

  lemma ReachesFits(c: Config, s: State, t: State)
    requires Reaches(c, s, t)
    ensures t.Fits(c)
  {
    hide Legal, Steps;
    var moves :| Legal(c, s, moves) && t == Steps(c, s, moves);
  }

  lemma {:induction false} AllArriveReaches(c: Config, s: State, e: Endpoint, ns: seq<nat>, t: State)
    requires s.Fits(c) && AllArrive(c, s, e, ns, t)
    ensures Reaches(c, s, t)
    decreases |ns|
  {
    hide *;
    if ns == [] {
      ArriveNone(c, s, e, t);
      SelfReaches(c, s);
    } else {
      var u := ArriveFirst(c, s, e, ns, t);
      ArrivesReaches(c, s, DataWire(e, c, ns[0], []), u);
      ReachesFits(c, s, u);
      AllArriveReaches(c, u, e, ns[1..], t);
      ReachesOn(c, s, u, t);
    }
  }

  lemma AnswersReaches(c: Config, lim: Limits, s: State, t: State)
    requires s.Fits(c) && Answers(c, lim, s, t)
    ensures Reaches(c, s, t)
  {
    var ns := Retransmit(s.a.out, c, _ => true, s.a.out.tail, lim.budget).1;
    var u :| SendsAgain(c, s, ns, u) && AllArrive(c, u, s.a, ns, t);
    hide *;
    SendsAgainReaches(c, s, ns, u);
    ReachesFits(c, s, u);
    AllArriveReaches(c, u, s.a, ns, t);
    ReachesOn(c, s, u, t);
  }

  /** A round is a sequence of possible moves. */
  lemma RoundReaches(c: Config, lim: Limits, s: State, t: State)
    requires Round(c, lim, s, t)
    ensures Reaches(c, s, t)
  {
    hide *;
    var a, b, d, e, f := RoundParts(c, lim, s, t);
    PauseReaches(c, s, a);
    ReachesFits(c, s, a);
    TimesOutReaches(c, a, b);
    PauseReaches(c, b, d);
    AsksReaches(c, lim, d, e);
    PauseReaches(c, e, f);
    ReachesFits(c, e, f);
    AnswersReaches(c, lim, f, t);
    ReachesOn(c, s, a, b);
    ReachesOn(c, s, b, d);
    ReachesOn(c, s, d, e);
    ReachesOn(c, s, e, f);
    ReachesOn(c, s, f, t);
  }

  lemma {:induction false} RoundsReach(c: Config, lim: Limits, n: nat, s: State, t: State)
    requires s.Fits(c) && Rounds(c, lim, n, s, t)
    ensures Reaches(c, s, t)
    decreases n
  {
    hide *;
    if n == 0 {
      NoRounds(c, lim, s, t);
      SelfReaches(c, s);
    } else {
      var u := RoundsFirst(c, lim, n, s, t);
      RoundReaches(c, lim, s, u);
      ReachesFits(c, s, u);
      RoundsReach(c, lim, n - 1, u, t);
      ReachesOn(c, s, u, t);
    }
  }

  // ---------------------------------------------------------------- and always possible

  /** Neither side is half-way through a packet. */
  ghost predicate Idle(c: Config, s: State) { Sound(c, s) && s.Fits(c) && s.a.taking.None? && s.b.taking.None? }

  const ZERO: nat -> Nonce := _ => 0

  lemma MayArrive(c: Config, s: State, w: Wire) returns (t: State)
    requires Idle(c, s) && w in s.toB && w.seqNo > 0
    ensures Arrives(c, s, w, t) && Idle(c, t) && Grows(c, s, t) && t.a == s.a
  {
    hide *;
    IdleParts(c, s);
    SelfReaches(c, s);
    var mv := ByB(TakeAck(w, ZERO));
    MayTake(c, s, w, ZERO);
    var v := Step(c, s, mv);
    DoesIs(c, s, mv);
    DoesKeeps(c, s, mv, v);
    Taking(c, s, w, ZERO, v);
    GrowsParts(c, s, v);
    MayTakeData(c, v);
    t := Step(c, v, ByB(TakeData));
    DoesIs(c, v, ByB(TakeData));
    DoesKeeps(c, v, ByB(TakeData), t);
    TakenData(c, v, w, t);
    GrowsOn(c, s, v, t);
    SideA(c, s, mv.ev);
    SideA(c, v, TakeData);
    ArrivesIs(c, s, w, s, v, ZERO, t);
    IsIdle(c, t);
  }

  lemma IdleParts(c: Config, s: State)
    requires Idle(c, s)
    ensures Sound(c, s) && s.Fits(c) && s.a.taking.None? && s.b.taking.None?
  {}

  lemma IsIdle(c: Config, s: State)
    requires Sound(c, s) && s.Fits(c) && s.a.taking.None? && s.b.taking.None?
    ensures Idle(c, s)
  {}

  lemma DoesIs(c: Config, s: State, mv: Move)
    requires s.Fits(c) && Allowed(c, s, mv)
    ensures Does(c, s, mv, Step(c, s, mv))
  {}

  lemma MayTake(c: Config, s: State, w: Wire, rand: nat -> Nonce)
    requires s.Fits(c) && s.b.taking.None? && w in s.toB
    ensures Allowed(c, s, ByB(TakeAck(w, rand)))
  {}

  lemma MayTakeData(c: Config, s: State)
    requires s.Fits(c) && s.b.taking.Some?
    ensures Allowed(c, s, ByB(TakeData))
  {}

  lemma SideA(c: Config, s: State, ev: Event)
    requires s.Fits(c)
    ensures Step(c, s, ByB(ev)).a == s.a
  {
    hide Act;
  }

  lemma ArrivesIs(c: Config, s: State, w: Wire, u: State, v: State, rand: nat -> Nonce, t: State)
    requires Pause(c, s, u) && Does(c, u, ByB(TakeAck(w, rand)), v) && Does(c, v, ByB(TakeData), t)
    ensures Arrives(c, s, w, t)
  {
    hide Pause, Does;
  }

  lemma ResendIs(c: Config, s: State, n: nat, answered: bool)
    requires s.Fits(c) && s.a.out.tail <= n < s.a.out.tcpHead
    ensures var mv := ByA(Resend(n, answered, []));
            var t := Step(c, s, mv);
            && Allowed(c, s, mv) && Does(c, s, mv, t) && t.b == s.b && t.toA == s.toA
            && t.toB == s.toB + {DataWire(s.a, c, n, [])} && t.a == s.a.(out := s.a.out.(nacked := t.a.out.nacked))
    ensures DataWire(s.a, c, n, []).seqNo == n
  {
    hide Slot;
  }

  lemma MayTimeOut(c: Config, s: State) returns (t: State)
    requires Idle(c, s)
    ensures TimesOut(c, s, t) && Idle(c, t)
  {
    IdleParts(c, s);
    SoundWindow(c, s);
    if s.a.out.tcpHead > s.a.out.tail {
      var n := LastOut(s.a.out);
      hide Idle, Step, DataWire, Does, Arrives, Slot, Allowed, Sound, TimesOut;
      ResendIs(c, s, n, false);
      var u := Step(c, s, ByA(Resend(n, false, [])));
      DoesKeeps(c, s, ByA(Resend(n, false, [])), u);
      IsIdle(c, u);
      t := MayArrive(c, u, DataWire(s.a, c, n, []));
      TimesOutIs(c, s, [], u, t);
    } else {
      t := s;
    }
  }

  lemma TimesOutIs(c: Config, s: State, nacks: seq<nat>, u: State, t: State)
    requires s.a.out.tcpHead > s.a.out.tail && GoesAgain(c, s, LastOut(s.a.out), nacks, u, t)
    ensures TimesOut(c, s, t)
  {
    hide GoesAgain;
  }

  lemma {:induction false} MissingMarked(r: Receiver, c: Config, due: nat -> bool, i: nat, cap: nat)
    requires r.Fits(c) && r.tail <= i
    ensures NacksFrom(r, c, Missing(r, c, due, i, cap))
    decreases r.head - i
  {
    hide Slot;
    if i < r.head && cap > 0 {
      if r.cells[Slot(i, c.w)].Nack? && due(i) {
        MissingMarked(r, c, due, i + 1, cap - 1);
      } else {
        MissingMarked(r, c, due, i + 1, cap);
      }
    }
  }

  lemma SendAckIs(c: Config, s: State, asked: seq<nat>)
    requires s.Fits(c) && NacksFrom(s.b.inn, c, asked)
    ensures var u := Step(c, s, ByB(SendAck(asked)));
            Does(c, s, ByB(SendAck(asked)), u) && u == s.(toA := s.toA + {AckWire(s.b, asked)})
  {
    hide NacksFrom;
    Sending(c, s.Flip(), SendAck(asked), s.b, AckWire(s.b, asked));
  }

  lemma MayHearAck(c: Config, s: State, w: Wire, rand: nat -> Nonce)
    requires s.Fits(c) && w in s.toA && w.seqNo == 0 && s.a.taking.None?
    ensures var t := Step(c, s, ByA(TakeAck(w, rand)));
            && Allowed(c, s, ByA(TakeAck(w, rand))) && Does(c, s, ByA(TakeAck(w, rand)), t)
            && t.a.taking.None? && t.b == s.b
  {
    hide TakeAru, MarkNacks;
  }

  lemma MayAsk(c: Config, lim: Limits, s: State) returns (t: State)
    requires Idle(c, s)
    ensures Asks(c, lim, s, t) && Idle(c, t)
  {
    IdleParts(c, s);
    SoundWindow(c, s);
    var asked := Missing(s.b.inn, c, _ => true, s.b.inn.tail, lim.cap);
    var w := AckWire(s.b, asked);
    assert w.seqNo == 0;
    hide *;
    MissingMarked(s.b.inn, c, _ => true, s.b.inn.tail, lim.cap);
    SendAckIs(c, s, asked);
    var u := Step(c, s, ByB(SendAck(asked)));
    DoesKeeps(c, s, ByB(SendAck(asked)), u);
    GrowsParts(c, s, u);
    SelfReaches(c, u);
    MayHearAck(c, u, w, ZERO);
    t := Step(c, u, ByA(TakeAck(w, ZERO)));
    DoesKeeps(c, u, ByA(TakeAck(w, ZERO)), t);
    GrowsParts(c, u, t);
    IsIdle(c, t);
    AsksIs(c, lim, s, asked, u, t);
  }

  lemma AsksIs(c: Config, lim: Limits, s: State, asked: seq<nat>, u: State, t: State)
    requires s.Fits(c) && asked == Missing(s.b.inn, c, _ => true, s.b.inn.tail, lim.cap)
    requires Does(c, s, ByB(SendAck(asked)), u) && Pause(c, u, u)
    requires Does(c, u, ByA(TakeAck(AckWire(s.b, asked), ZERO)), t)
    ensures Asks(c, lim, s, t)
  {
    hide Does, Pause, Missing, AckWire;
  }

  lemma SendsNone(c: Config, s: State)
    ensures SendsAgain(c, s, [], s)
  {}

  lemma SendsOneMore(c: Config, s: State, ns: seq<nat>, u: State, t: State)
    requires ns != [] && Does(c, s, ByA(Resend(ns[0], true, [])), u) && SendsAgain(c, u, ns[1..], t)
    ensures SendsAgain(c, s, ns, t)
  {
    hide Does;
  }

  lemma InWindow(c: Config, s: State, e: Endpoint, n: nat)
    requires s.a == e.(out := e.out.(nacked := s.a.out.nacked)) && e.out.tail <= n < e.out.tcpHead && s.Fits(c)
    ensures s.a.out.tail <= n < s.a.out.tcpHead && s.a.Fits(c)
  {}

  /** Sending again changes only what is marked, so every packet goes out as it was. */
  lemma {:induction false} MaySendAgain(c: Config, s: State, e: Endpoint, ns: seq<nat>) returns (t: State)
    requires Idle(c, s) && e.Fits(c) && s.a == e.(out := e.out.(nacked := s.a.out.nacked))
    requires forall i :: 0 <= i < |ns| ==> e.out.tail <= ns[i] < e.out.tcpHead
    ensures SendsAgain(c, s, ns, t) && Idle(c, t) && s.toB <= t.toB
    ensures forall i :: 0 <= i < |ns| ==> DataWire(e, c, ns[i], []) in t.toB
    decreases |ns|
  {
    hide *;
    if ns == [] {
      t := s;
      SendsNone(c, s);
    } else {
      IdleParts(c, s);
      InWindow(c, s, e, ns[0]);
      ResendIs(c, s, ns[0], true);
      SameWire(c, s.a, e, ns[0]);
      var u := Step(c, s, ByA(Resend(ns[0], true, [])));
      DoesKeeps(c, s, ByA(Resend(ns[0], true, [])), u);
      GrowsParts(c, s, u);
      IsIdle(c, u);
      t := MaySendAgain(c, u, e, ns[1..]);
      SendsOneMore(c, s, ns, u, t);
    }
  }

  lemma SameWire(c: Config, a: Endpoint, e: Endpoint, n: nat)
    requires a.Fits(c) && e.Fits(c) && a == e.(out := e.out.(nacked := a.out.nacked))
    ensures DataWire(a, c, n, []) == DataWire(e, c, n, [])
  {
    hide Slot;
  }

  lemma ArriveOneMore(c: Config, s: State, e: Endpoint, ns: seq<nat>, u: State, t: State)
    requires e.Fits(c) && ns != [] && Arrives(c, s, DataWire(e, c, ns[0], []), u) && AllArrive(c, u, e, ns[1..], t)
    ensures AllArrive(c, s, e, ns, t)
  {
    hide Arrives, DataWire;
  }

  lemma NoneArrive(c: Config, s: State, e: Endpoint)
    ensures AllArrive(c, s, e, [], s)
  {}

  lemma WireNo(c: Config, e: Endpoint, n: nat)
    requires e.Fits(c)
    ensures DataWire(e, c, n, []).seqNo == n
  {
    hide Slot;
  }

  lemma {:induction false} MayAllArrive(c: Config, s: State, e: Endpoint, ns: seq<nat>) returns (t: State)
    requires Idle(c, s) && e.Fits(c) && forall i :: 0 <= i < |ns| ==> ns[i] > 0 && DataWire(e, c, ns[i], []) in s.toB
    ensures AllArrive(c, s, e, ns, t) && Idle(c, t)
    decreases |ns|
  {
    hide *;
    if ns == [] {
      t := s;
      NoneArrive(c, s, e);
    } else {
      WireNo(c, e, ns[0]);
      var u := MayArrive(c, s, DataWire(e, c, ns[0], []));
      GrowsParts(c, s, u);
      t := MayAllArrive(c, u, e, ns[1..]);
      ArriveOneMore(c, s, e, ns, u, t);
    }
  }

  lemma MayAnswer(c: Config, lim: Limits, s: State) returns (t: State)
    requires Idle(c, s)
    ensures Answers(c, lim, s, t) && Idle(c, t)
  {
    IdleParts(c, s);
    SoundWindow(c, s);
    var ns := Retransmit(s.a.out, c, _ => true, s.a.out.tail, lim.budget).1;
    assert s.a.Fits(c) && forall i :: 0 <= i < |ns| ==> s.a.out.tail <= ns[i] < s.a.out.tcpHead;
    hide *;
    var u := MaySendAgain(c, s, s.a, ns);
    t := MayAllArrive(c, u, s.a, ns);
    AnswersIs(c, lim, s, ns, u, t);
  }

  lemma AnswersIs(c: Config, lim: Limits, s: State, ns: seq<nat>, u: State, t: State)
    requires s.Fits(c) && ns == Retransmit(s.a.out, c, _ => true, s.a.out.tail, lim.budget).1
    requires SendsAgain(c, s, ns, u) && AllArrive(c, u, s.a, ns, t)
    ensures Answers(c, lim, s, t)
  {
    hide SendsAgain, AllArrive, Retransmit;
  }

  lemma PauseOn(c: Config, s: State, t: State, u: State)
    requires Pause(c, s, t) && Pause(c, t, u)
    ensures Pause(c, s, u)
  {
    hide Legal, Steps, Quiet;
    var a :| Legal(c, s, a) && t == Steps(c, s, a) && forall i :: 0 <= i < |a| ==> Quiet(a[i]);
    var b :| Legal(c, t, b) && u == Steps(c, t, b) && forall i :: 0 <= i < |b| ==> Quiet(b[i]);
    StepsJoin(c, s, a, b);
    assert Legal(c, s, a + b) && u == Steps(c, s, a + b) && forall i :: 0 <= i < |a + b| ==> Quiet((a + b)[i]);
  }

  lemma DoesPause(c: Config, s: State, mv: Move, t: State)
    requires Does(c, s, mv, t) && Quiet(mv)
    ensures Pause(c, s, t)
  {
    OneMove(c, s, mv);
    hide Step, Allowed, Quiet, Legal, Steps;
    assert Legal(c, s, [mv]) && t == Steps(c, s, [mv]) && forall i :: 0 <= i < |[mv]| ==> Quiet([mv][i]);
  }

  lemma FinishOne(c: Config, s: State, mv: Move)
    requires s.Fits(c) && ((mv == ByA(TakeData) && s.a.taking.Some?) || (mv == ByB(TakeData) && s.b.taking.Some?))
    ensures var t := Step(c, s, mv);
            && Does(c, s, mv, t) && Quiet(mv)
            && (if mv.ByA? then t.a.taking.None? && t.b == s.b else t.b.taking.None? && t.a == s.a)
  {
    hide Accept;
  }

  lemma MayFinishOne(c: Config, s: State, mv: Move) returns (t: State)
    requires Sound(c, s) && s.Fits(c) && (mv == ByA(TakeData) || mv == ByB(TakeData))
    ensures Pause(c, s, t) && Sound(c, t) && t.Fits(c)
    ensures if mv.ByA? then t.a.taking.None? && t.b == s.b else t.b.taking.None? && t.a == s.a
  {
    hide *;
    if (if mv.ByA? then s.a.taking.Some? else s.b.taking.Some?) {
      FinishOne(c, s, mv);
      t := Step(c, s, mv);
      DoesKeeps(c, s, mv, t);
      GrowsParts(c, s, t);
      DoesPause(c, s, mv, t);
    } else {
      t := s;
      SelfReaches(c, s);
    }
  }

  /** A packet half dealt with can be finished. */
  lemma MayFinish(c: Config, s: State) returns (t: State)
    requires Sound(c, s) && s.Fits(c)
    ensures Pause(c, s, t) && Idle(c, t)
  {
    hide *;
    var u := MayFinishOne(c, s, ByA(TakeData));
    t := MayFinishOne(c, u, ByB(TakeData));
    PauseOn(c, s, u, t);
    IsIdle(c, t);
  }

  /** From every sound state a round is possible. */
  lemma RoundPossible(c: Config, lim: Limits, s: State) returns (t: State)
    requires Sound(c, s) && s.Fits(c)
    ensures Round(c, lim, s, t) && Sound(c, t) && t.Fits(c)
  {
    hide *;
    var a := MayFinish(c, s);
    var b := MayTimeOut(c, a);
    IdleParts(c, b);
    SelfReaches(c, b);
    var e := MayAsk(c, lim, b);
    IdleParts(c, e);
    SelfReaches(c, e);
    t := MayAnswer(c, lim, e);
    IdleParts(c, t);
    RoundIs(c, lim, s, a, b, e, t);
  }

  lemma RoundIs(c: Config, lim: Limits, s: State, a: State, b: State, e: State, t: State)
    requires Pause(c, s, a) && TimesOut(c, a, b) && Pause(c, b, b) && Asks(c, lim, b, e) && Pause(c, e, e)
    requires Answers(c, lim, e, t)
    ensures Round(c, lim, s, t)
  {
    hide Pause, TimesOut, Asks, Answers;
  }

  lemma {:induction false} RoundsPossible(c: Config, lim: Limits, n: nat, s: State) returns (t: State)
    requires Sound(c, s) && s.Fits(c)
    ensures Rounds(c, lim, n, s, t)
    decreases n
  {
    hide Sound, Round;
    if n == 0 {
      t := s;
    } else {
      var u := RoundPossible(c, lim, s);
      t := RoundsPossible(c, lim, n - 1, u);
    }
  }

  // ---------------------------------------------------------------- in every run

  function Mirrored(mv: Move): Move {
    match mv
    case ByA(ev) => ByB(ev)
    case ByB(ev) => ByA(ev)
  }

  lemma MirrorStep(c: Config, s: State, mv: Move)
    requires s.Fits(c)
    ensures Step(c, s.Flip(), Mirrored(mv)) == Step(c, s, mv).Flip()
    ensures (Allowed(c, s.Flip(), Mirrored(mv)) <==> Allowed(c, s, mv))
  {
    hide Can, StepA;
  }

  lemma {:induction false} Mirror(c: Config, s: State, moves: seq<Move>) returns (ms: seq<Move>)
    requires s.Fits(c) && Legal(c, s, moves)
    ensures Legal(c, s.Flip(), ms) && Steps(c, s.Flip(), ms) == Steps(c, s, moves).Flip()
    decreases |moves|
  {
    if moves == [] {
      ms := [];
    } else {
      hide Step, Allowed;
      MirrorStep(c, s, moves[0]);
      var rest := Mirror(c, Step(c, s, moves[0]), moves[1..]);
      ms := [Mirrored(moves[0])] + rest;
      assert ms[1..] == rest;
    }
  }

  lemma ViewReaches(c: Config, s: State, x: Side, t: State) returns (moves: seq<Move>)
    requires s.Fits(c) && Reaches(c, View(s, x), t)
    ensures Legal(c, s, moves) && Steps(c, s, moves) == View(t, x)
  {
    hide Legal, Steps;
    moves :| Legal(c, View(s, x), moves) && t == Steps(c, View(s, x), moves);
    if x.Right? { moves := Mirror(c, View(s, x), moves); }
  }

  /** In every run in which the two sides are in the same session, whatever has happened before, and
      in either direction: rounds are possible, they go on the run, and after one more of them than
      packets are missing, everything that had been let out has arrived and is acknowledged. */
  lemma EveryRunRecovers(c: Config, p: Pair, deeds: seq<Deed>, k: Pair, x: Side, lim: Limits, n: nat, t: State,
                         upto: nat)
      returns (more: seq<Deed>)
    requires IsRun(c, p, deeds) && Together(After(c, p, deeds), k) && lim.Some()
    requires var s := View(After(c, p, deeds).sessions[k], x); s.Fits(c) && s.b.inn.Fits(c) && Rounds(c, lim, n, s, t)
    requires var s := View(After(c, p, deeds).sessions[k], x);
             upto <= s.a.out.tcpHead && n > |Lacking(s.b.inn, c, upto)|
    ensures IsRun(c, p, deeds + more)
    ensures var w := After(c, p, deeds + more); Together(w, k) && View(w.sessions[k], x) == t
    ensures t.Fits(c) && t.b.inn.Fits(c) && Lacking(t.b.inn, c, upto) == {} && t.a.out.tail >= upto
  {
    hide *;
    RunValid(c, p, deeds);
    TogetherIs(After(c, p, deeds), k);
    var s := After(c, p, deeds).sessions[k];
    RunSound(c, p, deeds, k);
    SoundFits(c, s);
    ViewSound(c, s, x);
    Recovers(c, lim, View(s, x), t, n, upto);
    FitsInn(c, t);
    RoundsReach(c, lim, n, View(s, x), t);
    var moves := ViewReaches(c, s, x, t);
    MovesAreDeeds(c, p, deeds, k, moves);
    more := Deeds(moves);
    WithinIs(After(c, p, deeds), After(c, p, deeds + more), k, View(t, x));
    ViewBack(t, x);
  }

  lemma RunValid(c: Config, p: Pair, deeds: seq<Deed>)
    requires IsRun(c, p, deeds)
    ensures c.w > 0
  {}

  lemma TogetherIs(w: World, k: Pair)
    requires Together(w, k)
    ensures k in w.sessions && w.left == w.right == k
  {}

  lemma FitsInn(c: Config, s: State)
    requires s.Fits(c)
    ensures s.b.inn.Fits(c)
  {}

  lemma WithinIs(w: World, v: World, k: Pair, t: State)
    requires Within(w, v, k, t) && Together(w, k)
    ensures Together(v, k) && v.sessions[k] == t
  {}

  lemma ViewBack(s: State, x: Side)
    ensures View(View(s, x), x) == s
  {}

  /** And any number of rounds is possible in any session of any run. */
  lemma RoundsAlwaysPossible(c: Config, p: Pair, deeds: seq<Deed>, k: Pair, x: Side, lim: Limits, n: nat)
    returns (t: State)
    requires IsRun(c, p, deeds) && k in After(c, p, deeds).sessions
    ensures var s := View(After(c, p, deeds).sessions[k], x); s.Fits(c) && Rounds(c, lim, n, s, t)
  {
    hide *;
    RunValid(c, p, deeds);
    RunSound(c, p, deeds, k);
    ViewSound(c, After(c, p, deeds).sessions[k], x);
    SoundFits(c, View(After(c, p, deeds).sessions[k], x));
    t := RoundsPossible(c, lim, n, View(After(c, p, deeds).sessions[k], x));
  }
}
