/** From submission to delivery: once the network stops losing packets, all that a side has taken on
    reaches the other, however many congestion windows it takes to let it out. */
module EndToEnd {
  import opened Wrappers
  import opened Fragments
  import opened ItLink
  import opened SenderSide
  import opened ReceiverSide
  import opened Delivery
  import opened LinkReset
  import opened Transport
  import opened Incarnations
  import opened LinkGuarantees
  import opened Recovery
  import opened RecoveryRuns

  /** After a pause side a has let out all that its congestion window allows. */
  ghost predicate Opens(c: Config, cwnd: nat, s: State, u: State) {
    Pause(c, s, u) && u.a.out.tcpHead == Opened(u.a.out, cwnd)
  }

  /** Side a lets out what it may, and a window's worth of rounds follows, and one more. */
  ghost predicate Stage(c: Config, lim: Limits, cwnd: nat, s: State, t: State) {
    exists u :: Opens(c, cwnd, s, u) && Rounds(c, lim, c.w + 1, u, t)
  }

  ghost predicate Stages(c: Config, lim: Limits, cwnd: nat, n: nat, s: State, t: State)
    decreases n
  {
    if n == 0 then t == s else exists u :: Stage(c, lim, cwnd, s, u) && Stages(c, lim, cwnd, n - 1, u, t)
  }

  function Least(a: nat, b: nat): nat { if a < b then a else b }

  /** The packets that all side a has taken on gives. */
  ghost function ToSend(c: Config, s: State): nat
    requires Sound(c, s)
  {
    SoundParts(c, s);
    |AllPackets(s.fromA, c.room)|
  }

  /** Side b has been given all of `sent` and handed it up: in order, and with ordering off the
      messages of one fragment as they came; and if nothing was taken on since, nothing else. */
  ghost predicate Arrived(c: Config, sent: seq<Message>, t: State) {
    && sent <= t.fromA && AllFitting(t.fromA, c.room)
    && InOrder(sent, c) <= t.b.inn.inbox.delivered
    && (!c.ordered ==> SinglesTaken(t.b.inn, t.fromA, |sent|, c))
    && (t.fromA == sent ==> t.b.inn.inbox.delivered == InOrder(sent, c))
  }

  // ---------------------------------------------------------------- no more is missing than a window holds

  ghost function Span(a: nat, b: nat): (ns: set<nat>)
    requires a <= b
    ensures |ns| == b - a && forall n :: n in ns <==> a <= n < b
    decreases b
  {
    if a == b then {} else Span(a, b - 1) + {b - 1}
  }

  lemma LackingSpan(r: Receiver, c: Config, upto: nat)
    requires r.Fits(c) && 1 <= r.tail <= upto
    ensures Lacking(r, c, upto) <= Span(r.tail, upto)
  {
    hide Slot;
  }

  lemma FewLacking(c: Config, s: State)
    requires Sound(c, s) && s.Fits(c) && s.b.inn.Fits(c)
    ensures |Lacking(s.b.inn, c, s.a.out.tcpHead)| <= c.w
  {
    hide *;
    SoundWindow(c, s);
    LackingSpan(s.b.inn, c, s.a.out.tcpHead);
    NoLarger(Lacking(s.b.inn, c, s.a.out.tcpHead), Span(s.b.inn.tail, s.a.out.tcpHead));
  }

  // ---------------------------------------------------------------- what has been taken on stays

  lemma StepGives(c: Config, s: State, mv: Move)
    requires s.Fits(c)
    ensures s.fromA <= Step(c, s, mv).fromA
  {
    hide Act;
  }

  lemma {:induction false} MovesGive(c: Config, s: State, moves: seq<Move>)
    requires s.Fits(c)
    ensures s.fromA <= Steps(c, s, moves).fromA
    decreases |moves|
  {
    if moves != [] {
      hide Step;
      StepGives(c, s, moves[0]);
      MovesGive(c, Step(c, s, moves[0]), moves[1..]);
    }
  }

  lemma ReachesGives(c: Config, s: State, t: State)
    requires Reaches(c, s, t) && Sound(c, s)
    ensures s.fromA <= t.fromA && Sound(c, t) && t.Fits(c)
  {
    hide Legal, Steps, Sound;
    var moves :| Legal(c, s, moves) && t == Steps(c, s, moves);
    MovesGive(c, s, moves);
    StepsSound(c, s, moves);
  }

  // ---------------------------------------------------------------- a stage

  lemma PartLength(ms: seq<Message>, sent: seq<Message>, room: nat)
    requires AllFitting(ms, room) && sent <= ms
    ensures AllFitting(sent, room) && |AllPackets(sent, room)| <= |AllPackets(ms, room)|
  {
    assert ms[..|sent|] == sent;
    BoundGrows(ms, |sent|, |ms|, room);
    assert ms[..|ms|] == ms;
    hide Fitting;
  }

  lemma OpenedIs(s: Sender, cwnd: nat, w: nat)
    requires s.tcpHead == Opened(s, cwnd) && s.head <= s.tail + w
    ensures s.tcpHead >= s.head || s.tcpHead >= s.tail + Least(cwnd, w)
    ensures s.head == s.tail + w ==> s.tcpHead >= s.tail + Least(cwnd, w)
  {}

  lemma Pending(s: Sender, h: History, c: Config)
    requires SenderRests(s, h, c)
    ensures SenderOk(s, h, c) && (s.message.Some? ==> s.head == s.tail + c.w)
  {
    hide SenderOk;
  }

  /** Either everything in `sent` has been let out, or a congestion window has. */
  lemma LetsOutEnough(c: Config, cwnd: nat, u: State, sent: seq<Message>)
    requires Sound(c, u) && u.a.out.tcpHead == Opened(u.a.out, cwnd) && sent <= u.fromA && AllFitting(sent, c.room)
    ensures u.a.out.tcpHead > |AllPackets(sent, c.room)| || u.a.out.tcpHead >= u.a.out.tail + Least(cwnd, c.w)
  {
    var ha, hb :| Inv(c, u, ha, hb);
    hide *;
    InvParts(c, u, ha, hb);
    Pending(u.a.out, ha, c);
    SenderLength(u.a.out, ha, c);
    StreamPrefix(u.a.out, ha, c, 0);
    OpenedIs(u.a.out, cwnd, c.w);
    PartLength(u.fromA, sent, c.room);
  }

  lemma StageParts(c: Config, lim: Limits, cwnd: nat, s: State, t: State) returns (u: State)
    requires Stage(c, lim, cwnd, s, t)
    ensures Pause(c, s, u) && u.a.out.tcpHead == Opened(u.a.out, cwnd) && Rounds(c, lim, c.w + 1, u, t)
  {
    hide Pause, Rounds, Opened;
    u :| Opens(c, cwnd, s, u) && Rounds(c, lim, c.w + 1, u, t);
  }

  /** A stage acknowledges all of `sent`, or a congestion window more than before. */
  lemma StageOk(c: Config, lim: Limits, cwnd: nat, s: State, t: State, sent: seq<Message>)
    requires Sound(c, s) && s.Fits(c) && Stage(c, lim, cwnd, s, t) && lim.Some()
    requires sent <= s.fromA && AllFitting(sent, c.room)
    ensures Sound(c, t) && t.Fits(c) && s.fromA <= t.fromA
    ensures t.a.out.tail > |AllPackets(sent, c.room)| || t.a.out.tail >= s.a.out.tail + Least(cwnd, c.w)
  {
    hide *;
    var u := StageParts(c, lim, cwnd, s, t);
    PauseKeeps(c, s, u, 0);
    GrowsParts(c, s, u);
    PauseReaches(c, s, u);
    ReachesGives(c, s, u);
    LetsOutEnough(c, cwnd, u, sent);
    FewLacking(c, u);
    Recovers(c, lim, u, t, c.w + 1, u.a.out.tcpHead);
    RoundsReach(c, lim, c.w + 1, u, t);
    ReachesGives(c, u, t);
  }

  lemma StagesFirst(c: Config, lim: Limits, cwnd: nat, n: nat, s: State, t: State) returns (u: State)
    requires Stages(c, lim, cwnd, n, s, t) && n > 0
    ensures Stage(c, lim, cwnd, s, u) && Stages(c, lim, cwnd, n - 1, u, t)
  {
    hide Stage;
    u :| Stage(c, lim, cwnd, s, u) && Stages(c, lim, cwnd, n - 1, u, t);
  }

  lemma NoStages(c: Config, lim: Limits, cwnd: nat, s: State, t: State)
    requires Stages(c, lim, cwnd, 0, s, t)
    ensures t == s
  {}

  lemma OneLess(n: nat, g: nat)
    requires n > 0
    ensures n * g == g + (n - 1) * g
  {}

  lemma {:induction false} StagesOk(c: Config, lim: Limits, cwnd: nat, n: nat, s: State, t: State, sent: seq<Message>)
    requires Sound(c, s) && s.Fits(c) && Stages(c, lim, cwnd, n, s, t) && lim.Some()
    requires sent <= s.fromA && AllFitting(sent, c.room)
    requires |AllPackets(sent, c.room)| < s.a.out.tail + n * Least(cwnd, c.w)
    ensures Sound(c, t) && t.Fits(c) && s.fromA <= t.fromA && t.a.out.tail > |AllPackets(sent, c.room)|
    decreases n
  {
    hide *;
    if n == 0 {
      NoStages(c, lim, cwnd, s, t);
    } else {
      var u := StagesFirst(c, lim, cwnd, n, s, t);
      StageOk(c, lim, cwnd, s, u, sent);
      OneLess(n, Least(cwnd, c.w));
      StagesOk(c, lim, cwnd, n - 1, u, t, sent);
    }
  }

  // ---------------------------------------------------------------- acknowledged is handed up

  lemma WaysParts(c: Config, s: State, ha: History, hb: History)
    requires Inv(c, s, ha, hb)
    ensures OneWay(c, s.a.out, s.b.inn, ha, s.toB, s.toA) && ha.submitted == s.fromA
  {
    hide OneWay;
  }

  lemma AcknowledgedArrived(c: Config, t: State, sent: seq<Message>)
    requires Sound(c, t) && sent <= t.fromA && AllFitting(sent, c.room)
    requires t.a.out.tail > |AllPackets(sent, c.room)|
    ensures Arrived(c, sent, t)
  {
    var ha, hb :| Inv(c, t, ha, hb);
    hide *;
    WaysParts(c, t, ha, hb);
    var out, inn, ms := t.a.out, t.b.inn, t.fromA;
    OneWayParts(c, out, inn, ha, t.toB, t.toA);
    SenderLength(out, ha, c);
    OneWayDelivers(c, out, inn, ha, t.toB, t.toA);
    SentBound(ms, sent, c.room);
    TakenMessages(out, ha, inn, c, |sent|);
    if !c.ordered { SinglesAhead(c, out, inn, ha, |sent|); }
    ArrivedIs(c, sent, t);
  }

  /** The bound of the last message of `sent`, and that it has a packet. */
  lemma SentBound(ms: seq<Message>, sent: seq<Message>, room: nat)
    requires AllFitting(ms, room) && sent <= ms && AllFitting(sent, room)
    ensures ms[..|sent|] == sent && Bound(ms, |sent|, room) == |AllPackets(sent, room)|
    ensures sent != [] ==> Bound(ms, |sent| - 1, room) < |AllPackets(sent, room)|
  {
    assert ms[..|sent|] == sent;
    hide Packets, Fitting;
    assert sent != [] ==> ms[..|sent| - 1] == sent[..|sent| - 1];
  }

  lemma ArrivedIs(c: Config, sent: seq<Message>, t: State)
    requires sent <= t.fromA && AllFitting(t.fromA, c.room) && t.fromA[..|sent|] == sent
    requires InOrder(t.fromA[..|sent|], c) <= t.b.inn.inbox.delivered <= InOrder(t.fromA, c)
    requires !c.ordered ==> SinglesTaken(t.b.inn, t.fromA, |sent|, c)
    ensures Arrived(c, sent, t)
  {
    hide InOrder, SinglesTaken, AllFitting;
  }

  /** Everything side a had taken on is handed up after enough stages, whatever either side takes on
      or sends besides, and nothing else is, if nothing was taken on since. */
  lemma AllDelivered(c: Config, lim: Limits, cwnd: nat, n: nat, s: State, t: State)
    requires Sound(c, s) && s.Fits(c) && Stages(c, lim, cwnd, n, s, t) && lim.Some()
    requires ToSend(c, s) < s.a.out.tail + n * Least(cwnd, c.w)
    ensures Sound(c, t) && t.Fits(c) && Arrived(c, s.fromA, t)
  {
    SoundParts(c, s);
    assert |AllPackets(s.fromA, c.room)| == ToSend(c, s);
    hide *;
    StagesOk(c, lim, cwnd, n, s, t, s.fromA);
    AcknowledgedArrived(c, t, s.fromA);
  }

  // ---------------------------------------------------------------- stages are possible

  lemma LetOutsQuiet(nacks: nat -> seq<nat>, n: nat)
    ensures forall i :: 0 <= i < |LetOuts(nacks, n)| ==> Quiet(LetOuts(nacks, n)[i])
  {}

  lemma IsPause(c: Config, s: State, moves: seq<Move>)
    requires s.Fits(c) && Legal(c, s, moves) && forall i :: 0 <= i < |moves| ==> Quiet(moves[i])
    ensures Pause(c, s, Steps(c, s, moves))
  {
    hide Legal, Steps, Quiet;
  }

  lemma OpenedOnce(s: Sender, cwnd: nat)
    requires s.tcpHead <= s.head
    ensures s.tcpHead <= Opened(s, cwnd) <= s.head
    ensures var n := Opened(s, cwnd); n == Opened(s.(tcpHead := n), cwnd)
  {}

  lemma NothingAsked(r: Receiver, c: Config)
    requires r.Fits(c)
    ensures NacksFrom(r, c, [])
  {}

  lemma MayOpen(c: Config, cwnd: nat, s: State) returns (u: State)
    requires Sound(c, s) && s.Fits(c) && s.a.inn.Fits(c)
    ensures Opens(c, cwnd, s, u) && Sound(c, u) && u.Fits(c)
  {
    SoundWindow(c, s);
    OpenedOnce(s.a.out, cwnd);
    NothingAsked(s.a.inn, c);
    var nacks: nat -> seq<nat> := _ => [];
    var n := Opened(s.a.out, cwnd) - s.a.out.tcpHead;
    hide Sound, Legal, Steps, LetOuts, Slot, Quiet, Opened, NacksFrom, Pause;
    LetOutRun(c, s, nacks, n);
    LetOutsQuiet(nacks, n);
    u := Steps(c, s, LetOuts(nacks, n));
    IsPause(c, s, LetOuts(nacks, n));
    PauseKeeps(c, s, u, 0);
  }

  lemma StageIs(c: Config, lim: Limits, cwnd: nat, s: State, u: State, t: State)
    requires Opens(c, cwnd, s, u) && Rounds(c, lim, c.w + 1, u, t)
    ensures Stage(c, lim, cwnd, s, t)
  {
    hide Opens, Rounds;
  }

  lemma StageReaches(c: Config, lim: Limits, cwnd: nat, s: State, t: State)
    requires Sound(c, s) && Stage(c, lim, cwnd, s, t)
    ensures Reaches(c, s, t)
  {
    hide *;
    var u := StageParts(c, lim, cwnd, s, t);
    PauseReaches(c, s, u);
    ReachesGives(c, s, u);
    RoundsReach(c, lim, c.w + 1, u, t);
    ReachesOn(c, s, u, t);
  }

  lemma {:induction false} StagesReach(c: Config, lim: Limits, cwnd: nat, n: nat, s: State, t: State)
    requires Sound(c, s) && s.Fits(c) && Stages(c, lim, cwnd, n, s, t)
    ensures Reaches(c, s, t)
    decreases n
  {
    hide *;
    if n == 0 {
      NoStages(c, lim, cwnd, s, t);
      SelfReaches(c, s);
    } else {
      var u := StagesFirst(c, lim, cwnd, n, s, t);
      StageReaches(c, lim, cwnd, s, u);
      ReachesGives(c, s, u);
      StagesReach(c, lim, cwnd, n - 1, u, t);
      ReachesOn(c, s, u, t);
    }
  }

  lemma StageMore(c: Config, lim: Limits, cwnd: nat, n: nat, s: State, u: State, t: State)
    requires n > 0 && Stage(c, lim, cwnd, s, u) && Stages(c, lim, cwnd, n - 1, u, t)
    ensures Stages(c, lim, cwnd, n, s, t)
  {
    hide Stage;
  }

  lemma StagesNone(c: Config, lim: Limits, cwnd: nat, s: State)
    ensures Stages(c, lim, cwnd, 0, s, s)
  {}

  lemma {:induction false} StagesPossible(c: Config, lim: Limits, cwnd: nat, n: nat, s: State) returns (t: State)
    requires Sound(c, s) && s.Fits(c)
    ensures Stages(c, lim, cwnd, n, s, t)
    decreases n
  {
    hide *;
    if n == 0 {
      t := s;
      StagesNone(c, lim, cwnd, s);
    } else {
      BothInn(c, s);
      var u := MayOpen(c, cwnd, s);
      var v := RoundsPossible(c, lim, c.w + 1, u);
      StageIs(c, lim, cwnd, s, u, v);
      StageReaches(c, lim, cwnd, s, v);
      ReachesGives(c, s, v);
      t := StagesPossible(c, lim, cwnd, n - 1, v);
      StageMore(c, lim, cwnd, n, s, v, t);
    }
  }

  lemma BothInn(c: Config, s: State)
    requires s.Fits(c)
    ensures s.a.inn.Fits(c) && s.b.inn.Fits(c)
  {}

  // ---------------------------------------------------------------- in every run

  /** A session of a run as side `x` sees it. */
  ghost function Seen(c: Config, p: Pair, deeds: seq<Deed>, k: Pair, x: Side): (s: State)
    requires In(c, p, deeds, k)
    ensures Sound(c, s) && s.Fits(c)
  {
    RunSound(c, p, deeds, k);
    ViewSound(c, Session(c, p, deeds, k), x);
    SoundFits(c, View(Session(c, p, deeds, k), x));
    View(Session(c, p, deeds, k), x)
  }

  /** In every run in which the two sides are in the same session, whatever has happened before, and
      in either direction: after as many stages as congestion windows are needed, every message that
      side `x` was given since the session began has been handed up on the other side. */
  lemma EveryRunDelivers(c: Config, p: Pair, deeds: seq<Deed>, k: Pair, x: Side,
                         lim: Limits, cwnd: nat, n: nat, t: State)
    returns (more: seq<Deed>)
    requires In(c, p, deeds, k) && Together(After(c, p, deeds), k) && lim.Some()
    requires Stages(c, lim, cwnd, n, Seen(c, p, deeds, k, x), t)
    requires var s := Seen(c, p, deeds, k, x); ToSend(c, s) < s.a.out.tail + n * Least(cwnd, c.w)
    ensures IsRun(c, p, deeds + more)
    ensures var w := After(c, p, deeds + more); Together(w, k) && View(w.sessions[k], x) == t
    ensures var w := After(c, p, deeds);
            && (x, k) in w.entries && (x, k.Own(x)) in w.given
            && var all, base := w.given[(x, k.Own(x))], w.entries[(x, k)].base;
               base <= |all| && Arrived(c, all[base..], t)
  {
    hide *;
    RunOfIn(c, p, deeds, k);
    RunValid(c, p, deeds);
    TogetherIs(After(c, p, deeds), k);
    SeenIs(c, p, deeds, k, x);
    var s := After(c, p, deeds).sessions[k];
    AllDelivered(c, lim, cwnd, n, View(s, x), t);
    StagesReach(c, lim, cwnd, n, View(s, x), t);
    var moves := ViewReaches(c, s, x, t);
    MovesAreDeeds(c, p, deeds, k, moves);
    more := Deeds(moves);
    WithinIs(After(c, p, deeds), After(c, p, deeds + more), k, View(t, x));
    ViewBack(t, x);
    RunGood(c, p, deeds);
    GoodParts(c, After(c, p, deeds), x);
    NowParts(c, After(c, p, deeds), x);
    NowTogether(After(c, p, deeds), k, x);
  }

  lemma RunOfIn(c: Config, p: Pair, deeds: seq<Deed>, k: Pair)
    requires In(c, p, deeds, k)
    ensures IsRun(c, p, deeds) && k in After(c, p, deeds).sessions
  {
    hide IsRun, After;
  }

  lemma SeenIs(c: Config, p: Pair, deeds: seq<Deed>, k: Pair, x: Side)
    requires In(c, p, deeds, k) && c.w > 0 && k in After(c, p, deeds).sessions
    ensures var s := After(c, p, deeds).sessions[k]; s.Fits(c) && Seen(c, p, deeds, k, x) == View(s, x)
  {
    RunOfIn(c, p, deeds, k);
    RunSound(c, p, deeds, k);
    SoundFits(c, After(c, p, deeds).sessions[k]);
    hide IsRun, After, Sound;
  }

  lemma NowTogether(w: World, k: Pair, x: Side)
    requires Together(w, k)
    ensures w.Now(x) == k && k in w.sessions && w.At(x) == View(w.sessions[k], x)
  {}

  /** And any number of stages is possible in any session of any run. */
  lemma StagesAlwaysPossible(c: Config, p: Pair, deeds: seq<Deed>, k: Pair, x: Side, lim: Limits, cwnd: nat, n: nat)
    returns (t: State)
    requires In(c, p, deeds, k)
    ensures Stages(c, lim, cwnd, n, Seen(c, p, deeds, k, x), t)
  {
    hide *;
    t := StagesPossible(c, lim, cwnd, n, Seen(c, p, deeds, k, x));
  }

  /** So no run ever gets stuck: whatever has happened before, something can still happen by which
      all that side `x` was given since the session began is handed up on the other side. */
  lemma NeverStuck(c: Config, p: Pair, deeds: seq<Deed>, k: Pair, x: Side) returns (more: seq<Deed>)
    requires In(c, p, deeds, k) && Together(After(c, p, deeds), k)
    ensures IsRun(c, p, deeds + more) && Together(After(c, p, deeds + more), k)
    ensures var w := After(c, p, deeds);
            && (x, k) in w.entries && (x, k.Own(x)) in w.given
            && var all, base := w.given[(x, k.Own(x))], w.entries[(x, k)].base;
               base <= |all| && Arrived(c, all[base..], View(After(c, p, deeds + more).sessions[k], x))
  {
    hide *;
    var s := Seen(c, p, deeds, k, x);
    var n := ToSend(c, s);
    SoundWindow(c, s);
    OneEach(n, c);
    var t := StagesAlwaysPossible(c, p, deeds, k, x, Limits(1, 1), 1, n);
    more := EveryRunDelivers(c, p, deeds, k, x, Limits(1, 1), 1, n, t);
  }

  lemma OneEach(n: nat, c: Config)
    ensures c.w > 0 ==> n * Least(1, c.w) == n
    ensures Limits(1, 1).Some()
  {}

  // ---------------------------------------------------------------- from the offer on

  /** What can be put into packets and is small enough. */
  ghost predicate Acceptable(m: Message, c: Config) {
    Sendable(m, c) && Total(m) < 65536 && Total(m) <= 45 * (c.room - 4)
  }

  lemma OfferTaken(c: Config, s: State, m: Message, rand: nat -> Nonce)
    requires s.Fits(c) && Acceptable(m, c) && s.a.out.message.None?
    ensures s.a.Fits(c) && Can(c, s.a, s.toA, Submit(m, rand)) && Act(c, s.a, Submit(m, rand)).accepted == [m]
  {
    AcceptsExactly(s.a.out, c, m);
    hide Forward, Sendable, Total, Refused;
  }

  lemma OfferedNow(c: Config, w: World, k: Pair, x: Side, m: Message, rand: nat -> Nonce)
    requires Good(c, w) && Together(w, k) && Acceptable(m, c) && View(w.sessions[k], x).a.out.message.None?
    ensures c.w > 0 && Possible(c, w, Local(x, Submit(m, rand)))
    ensures var v := Next(c, w, Local(x, Submit(m, rand)));
            && Together(v, k) && (x, k.Own(x)) in w.given && (x, k.Own(x)) in v.given && (x, k) in w.entries
            && v.entries == w.entries && v.given[(x, k.Own(x))] == w.given[(x, k.Own(x))] + [m]
  {
    hide *;
    GoodParts(c, w, x);
    NowReady(c, w, x);
    NowTogether(w, k, x);
    ReadyFits(c, w, x);
    HeardIs(w, x);
    OfferTaken(c, w.At(x), m, rand);
    OfferPossible(c, w, x, Submit(m, rand));
    LocalIs(c, w, x, Submit(m, rand));
    TogetherIs(w, k);
    TogetherStill(w, Next(c, w, Local(x, Submit(m, rand))), k);
  }

  lemma ReadyFits(c: Config, w: World, x: Side)
    requires w.Ready(c, x)
    ensures w.Now(x) in w.sessions && w.At(x).Fits(c)
  {}

  lemma OfferPossible(c: Config, w: World, x: Side, ev: Event)
    requires w.Ready(c, x) && w.Now(x) in w.sessions && Can(c, w.At(x).a, w.Heard(x), ev)
    ensures Possible(c, w, Local(x, ev))
  {
    hide Can;
  }

  lemma TogetherStill(w: World, v: World, k: Pair)
    requires Together(w, k) && v.left == w.left && v.right == w.right && forall j :: j in w.sessions ==> j in v.sessions
    ensures Together(v, k)
  {}

  /** From the offer to the other side: whatever has happened before, a side with nothing pending takes
      on any message that can be put into packets and is no larger than 45 of them carry; it is then
      the last of those given, and can be handed up on the other side with all before it. */
  lemma OfferedArrives(c: Config, p: Pair, deeds: seq<Deed>, k: Pair, x: Side, m: Message, rand: nat -> Nonce)
    returns (more: seq<Deed>)
    requires In(c, p, deeds, k) && Together(After(c, p, deeds), k)
    requires Acceptable(m, c) && Seen(c, p, deeds, k, x).a.out.message.None?
    ensures var run := deeds + [Local(x, Submit(m, rand))] + more;
            && IsRun(c, p, run) && Together(After(c, p, run), k)
            && var w := After(c, p, deeds);
               && (x, k) in w.entries && (x, k.Own(x)) in w.given
               && var all, base := w.given[(x, k.Own(x))] + [m], w.entries[(x, k)].base;
                  base <= |all| && Arrived(c, all[base..], View(After(c, p, run).sessions[k], x))
  {
    hide *;
    RunOfIn(c, p, deeds, k);
    RunValid(c, p, deeds);
    RunGood(c, p, deeds);
    TogetherIs(After(c, p, deeds), k);
    SeenIs(c, p, deeds, k, x);
    var d := Local(x, Submit(m, rand));
    OfferedNow(c, After(c, p, deeds), k, x, m, rand);
    RunOneMore(c, p, deeds, d);
    TogetherIs(After(c, p, deeds + [d]), k);
    InIs(c, p, deeds + [d], k);
    more := NeverStuck(c, p, deeds + [d], k, x);
  }

  lemma InIs(c: Config, p: Pair, deeds: seq<Deed>, k: Pair)
    requires IsRun(c, p, deeds) && c.w > 0 && k in After(c, p, deeds).sessions
    ensures In(c, p, deeds, k)
  {
    hide IsRun, After;
  }
}
