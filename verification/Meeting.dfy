/** Two neighbours find into one session again, whatever has happened to them. */
module Meeting {
  import opened Wrappers
  import opened Fragments
  import opened ItLink
  import opened SenderSide
  import opened ReceiverSide
  import opened Delivery
  import opened LinkReset
  import opened Transport
  import opened Incarnations
  import opened LinkGuarantees
  import opened Recovery
  import opened RecoveryRuns
  import opened EndToEnd

  // ---------------------------------------------------------------- what a side knows of the other

  /** The incarnation a side knows the other by is one the other has had. */
  ghost predicate Heeds(w: World, x: Side) {
    w.Now(x).Theirs(x) == 0 || (Other(x), w.Now(x).Theirs(x)) in w.given
  }

  lemma NextHeeds(c: Config, w: World, d: Deed, x: Side)
    requires c.w > 0 && Possible(c, w, d) && Heeds(w, x)
    ensures Heeds(Next(c, w, d), x)
  {
    hide Carried, Renewed, StepA, Act, CanRenew, Can, Fresh, Start;
  }

  lemma {:induction false} RunHeeds(c: Config, p: Pair, deeds: seq<Deed>, x: Side)
    requires IsRun(c, p, deeds) && c.w > 0
    ensures Heeds(After(c, p, deeds), x)
  {
    if deeds != [] {
      var before := deeds[..|deeds| - 1];
      RunHeeds(c, p, before, x);
      hide Possible, Next, Heeds;
      NextHeeds(c, After(c, p, before), deeds[|deeds| - 1], x);
    }
  }

  lemma KnowsNoLater(c: Config, w: World, x: Side)
    requires Good(c, w) && Heeds(w, x)
    ensures var y := Other(x);
            w.Now(x).Theirs(x) <= w.Now(y).Own(y) && (y, w.Now(y).Own(y)) in w.given && w.Now(y).Own(y) > 0
  {
    GoodParts(c, w, x);
    assert SideOk(c, w, Other(x));
    hide Visited, Untouched;
  }

  // ---------------------------------------------------------------- hearing of the other

  /** What reintroduction needs of a side's messages. */
  ghost predicate Renewable(c: Config, w: World, x: Side) {
    w.Now(x) in w.sessions && (c.reintroduce ==> c.w > MAX_FRAGMENTS && NoneEmpty(w.At(x).fromA))
  }

  /** What a side keeps while it catches up with the other, and what of the other does not change. */
  ghost predicate Keeps(w: World, v: World, x: Side) {
    var y := Other(x);
    && v.given == w.given && w.Now(y) in w.sessions && v.Now(y) == w.Now(y) && v.Now(y) in v.sessions
    && v.At(y).fromA == w.At(y).fromA
    && ((y, w.Now(y)) in w.entries <==> (y, w.Now(y)) in v.entries)
    && ((y, w.Now(y)) in w.entries ==> v.entries[(y, w.Now(y))] == w.entries[(y, w.Now(y))])
  }

  lemma KeepsAlso(u: World, v: World, w: World, x: Side)
    requires Keeps(u, v, x) && Keeps(v, w, x)
    ensures Keeps(u, w, x)
  {}

  /** A side that is dealing with a packet can finish that. */
  lemma Finishes(c: Config, p: Pair, deeds: seq<Deed>, x: Side) returns (more: seq<Deed>)
    requires IsRun(c, p, deeds) && c.w > 0
    ensures IsRun(c, p, deeds + more) && |more| <= 1
    ensures var w, v := After(c, p, deeds), After(c, p, deeds + more);
            && Keeps(w, v, x) && w.Now(x) in w.sessions && v.Now(x) == w.Now(x) && v.Now(x) in v.sessions
            && v.At(x).a.taking.None? && v.At(x).fromA == w.At(x).fromA && v.entries == w.entries
  {
    hide *;
    var w := After(c, p, deeds);
    RunGood(c, p, deeds);
    GoodParts(c, w, x);
    NowParts(c, w, x);
    NowParts(c, w, Other(x));
    if w.At(x).a.taking.None? {
      more := [];
      assert deeds + more == deeds;
      KeepsItself(w, x);
    } else {
      more := [Local(x, TakeData)];
      NowReady(c, w, x);
      TakePossible(c, w, x);
      RunOneMore(c, p, deeds, Local(x, TakeData));
      TakeKeeps(c, w, x);
    }
  }

  lemma KeepsItself(w: World, x: Side)
    requires w.Now(Other(x)) in w.sessions
    ensures Keeps(w, w, x)
  {}

  lemma TakePossible(c: Config, w: World, x: Side)
    requires w.Ready(c, x) && w.Now(x) in w.sessions && w.At(x).a.taking.Some?
    ensures Possible(c, w, Local(x, TakeData))
  {}

  lemma TakeKeeps(c: Config, w: World, x: Side)
    requires c.w > 0 && Possible(c, w, Local(x, TakeData)) && w.Now(Other(x)) in w.sessions && w.Now(x) in w.sessions
    ensures var v := Next(c, w, Local(x, TakeData));
            && Keeps(w, v, x) && v.Now(x) == w.Now(x) && v.Now(x) in v.sessions
            && v.At(x).a.taking.None? && v.At(x).fromA == w.At(x).fromA && v.entries == w.entries
  {
    LocalIs(c, w, x, TakeData);
    LocalLeaves(c, w, x, TakeData);
    TakeTaken(c, w.At(x));
    hide Next, Possible, StepA, Act, Untouched;
    var v := Next(c, w, Local(x, TakeData));
    assert w.given[(x, w.Now(x).Own(x))] + [] == w.given[(x, w.Now(x).Own(x))];
    assert v.given == w.given;
    assert SameA(View(w.sessions[w.Now(Other(x))], Other(x)), View(v.sessions[w.Now(Other(x))], Other(x)));
  }

  lemma TakeTaken(c: Config, s: State)
    requires s.Fits(c)
    ensures var t := StepA(c, s, TakeData);
            t.a.taking.None? && t.fromA == s.fromA && Act(c, s.a, TakeData).accepted == []
  {
    hide Accept;
  }

  /** Hears of the other's incarnation, as it is configured to. */
  function Heard(c: Config, rand: nat -> Nonce): Life { if c.reintroduce then Reintroduces(rand) else Discards }

  lemma HearPossible(c: Config, w: World, x: Side, rand: nat -> Nonce)
    requires Good(c, w) && w.Ready(c, x) && Renewable(c, w, x)
    requires w.At(x).a.taking.None? && w.At(x).a.out.tail <= w.At(x).a.out.head
    requires var y := Other(x);
             (y, w.Now(y).Own(y)) in w.given && w.Now(x).Theirs(x) < w.Now(y).Own(y)
    ensures Possible(c, w, Hears(x, w.Now(Other(x)).Own(Other(x)), Heard(c, rand)))
  {
    hide Good, NoneEmpty;
  }

  lemma HearKeeps(c: Config, w: World, x: Side, inc: nat, rand: nat -> Nonce)
    requires c.w > 0 && Possible(c, w, Hears(x, inc, Heard(c, rand))) && w.Now(Other(x)) in w.sessions
    ensures var v, k := Next(c, w, Hears(x, inc, Heard(c, rand))), Between(x, w.Now(x).Own(x), inc);
            && Keeps(w, v, x) && v.Now(x) == k && k in v.sessions && (x, k) in v.entries
            && v.entries[(x, k)].from == if c.reintroduce then Some(w.Now(x)) else None
  {
    var life := Heard(c, rand);
    HearsIs(c, w, x, inc, life);
    var s, k := w.At(x), Between(x, w.Now(x).Own(x), inc);
    var ms := Carried(c, s.a, s.fromA, life);
    var entry := Entry(HeardBase(w, x, ms), if life.Reintroduces? then Some(w.Now(x)) else None);
    EnteredIs(c, w, x, k, Renewed(c, s.a, life), ms, entry);
    hide Next, Possible, Entered, Carried, Renewed, HeardBase, Start;
  }

  lemma KeepsOther(w: World, v: World, x: Side)
    requires Keeps(w, v, x)
    ensures v.given == w.given && v.Now(Other(x)) == w.Now(Other(x)) && v.Now(Other(x)) in v.sessions
  {}

  lemma HearMore(w: World, u: World, v: World, x: Side)
    requires Keeps(w, u, x) && Keeps(u, v, x) && u.Now(x) == w.Now(x)
    ensures Keeps(w, v, x)
  {}

  lemma StillRenewable(c: Config, w: World, u: World, x: Side)
    requires Renewable(c, w, x) && u.Now(x) in u.sessions && u.At(x).fromA == w.At(x).fromA
    ensures Renewable(c, u, x)
  {}

  lemma RestsOrder(c: Config, s: State)
    requires Sound(c, s)
    ensures s.a.out.tail <= s.a.out.head
  {
    SoundParts(c, s);
  }

  /** Where a side stands that has caught up, and where its messages come from: if it goes on from
      another session, it does so as it is configured to. */
  ghost predicate CaughtUp(c: Config, w: World, v: World, x: Side) {
    var k := Between(x, w.Now(x).Own(x), w.Now(Other(x)).Own(Other(x)));
    && v.Now(x) == k && k in v.sessions && (x, k) in v.entries
    && (if k == w.Now(x) then (x, k) in w.entries && v.entries[(x, k)] == w.entries[(x, k)]
        else v.entries[(x, k)].from == if c.reintroduce then Some(w.Now(x)) else None)
  }

  lemma SamePair(w: World, x: Side)
    requires w.Now(x).Theirs(x) == w.Now(Other(x)).Own(Other(x))
    ensures Between(x, w.Now(x).Own(x), w.Now(Other(x)).Own(Other(x))) == w.Now(x)
  {}

  lemma CaughtStill(c: Config, w: World, v: World, x: Side)
    requires w.Now(x).Theirs(x) == w.Now(Other(x)).Own(Other(x)) && v.Now(x) == w.Now(x) && v.entries == w.entries
    requires v.Now(x) in v.sessions && (x, w.Now(x)) in w.entries
    ensures CaughtUp(c, w, v, x)
  {}

  lemma CaughtNew(c: Config, w: World, u: World, v: World, x: Side)
    requires u.Now(x) == w.Now(x) && u.Now(Other(x)) == w.Now(Other(x))
    requires w.Now(x).Theirs(x) != w.Now(Other(x)).Own(Other(x))
    requires var k := Between(x, u.Now(x).Own(x), u.Now(Other(x)).Own(Other(x)));
             && v.Now(x) == k && k in v.sessions && (x, k) in v.entries
             && v.entries[(x, k)].from == if c.reintroduce then Some(u.Now(x)) else None
    ensures CaughtUp(c, w, v, x)
  {}

  /** A side that is dealing with nothing hears of the other. */
  lemma HeardHere(c: Config, p: Pair, deeds: seq<Deed>, w: World, x: Side, rand: nat -> Nonce)
    requires IsRun(c, p, deeds) && c.w > 0 && Renewable(c, w, x) && Keeps(w, After(c, p, deeds), x)
    requires var u := After(c, p, deeds);
             && u.Now(x) == w.Now(x) && u.Now(x) in u.sessions && u.At(x).a.taking.None?
             && u.At(x).fromA == w.At(x).fromA && u.Now(x).Theirs(x) != u.Now(Other(x)).Own(Other(x))
    ensures var u, inc := After(c, p, deeds), After(c, p, deeds).Now(Other(x)).Own(Other(x));
            var d, k := Hears(x, inc, Heard(c, rand)), Between(x, u.Now(x).Own(x), inc);
            && Possible(c, u, d)
            && var v := Next(c, u, d);
               && Keeps(u, v, x) && v.Now(x) == k && k in v.sessions && (x, k) in v.entries
               && v.entries[(x, k)].from == if c.reintroduce then Some(u.Now(x)) else None
  {
    hide *;
    var u := After(c, p, deeds);
    RunGood(c, p, deeds);
    GoodParts(c, u, x);
    NowParts(c, u, x);
    NowParts(c, u, Other(x));
    RestsOrder(c, u.At(x));
    RunHeeds(c, p, deeds, x);
    KnowsNoLater(c, u, x);
    NowReady(c, u, x);
    StillRenewable(c, w, u, x);
    HearPossible(c, u, x, rand);
    HearKeeps(c, u, x, u.Now(Other(x)).Own(Other(x)), rand);
  }

  /** In two deeds at most a side is in step with the other's incarnation. */
  lemma CatchesUp(c: Config, p: Pair, deeds: seq<Deed>, x: Side, rand: nat -> Nonce) returns (more: seq<Deed>)
    requires IsRun(c, p, deeds) && c.w > 0 && Renewable(c, After(c, p, deeds), x)
    ensures IsRun(c, p, deeds + more) && |more| <= 2
    ensures var w, v := After(c, p, deeds), After(c, p, deeds + more); Keeps(w, v, x) && CaughtUp(c, w, v, x)
  {
    hide *;
    var w := After(c, p, deeds);
    RunGood(c, p, deeds);
    GoodParts(c, w, x);
    NowParts(c, w, x);
    more := Finishes(c, p, deeds, x);
    var u := After(c, p, deeds + more);
    KeepsOther(w, u, x);
    if w.Now(x).Theirs(x) == w.Now(Other(x)).Own(Other(x)) {
      CaughtStill(c, w, u, x);
    } else {
      HeardHere(c, p, deeds + more, w, x, rand);
      var d := Hears(x, u.Now(Other(x)).Own(Other(x)), Heard(c, rand));
      RunOneMore(c, p, deeds + more, d);
      CaughtNew(c, w, u, Next(c, u, d), x);
      HearMore(w, u, Next(c, u, d), x);
      assert deeds + more + [d] == deeds + (more + [d]);
      more := more + [d];
    }
  }

  // ---------------------------------------------------------------- both sides

  lemma RightRenewable(c: Config, w: World, v: World)
    requires Keeps(w, v, Left) && Renewable(c, w, Right)
    ensures Renewable(c, v, Right)
  {
    hide NoneEmpty;
  }

  /** One side after the other. */
  lemma BothCaughtUp(c: Config, w: World, u: World, v: World)
    requires Keeps(w, u, Left) && CaughtUp(c, w, u, Left) && Keeps(u, v, Right) && CaughtUp(c, u, v, Right)
    ensures CaughtUp(c, w, v, Left) && CaughtUp(c, w, v, Right)
    ensures v.given == w.given && Together(v, Pair(w.left.left, w.right.right))
  {
    assert Other(Left) == Right && Other(Right) == Left;
  }

  /** Whatever has happened to the two, in four deeds at most both are in the session of their present
      incarnations, and neither daemon has been given anything in between. */
  lemma EveryRunMeets(c: Config, p: Pair, deeds: seq<Deed>, rand: nat -> Nonce) returns (more: seq<Deed>)
    requires IsRun(c, p, deeds) && c.w > 0
    requires Renewable(c, After(c, p, deeds), Left) && Renewable(c, After(c, p, deeds), Right)
    ensures IsRun(c, p, deeds + more) && |more| <= 4
    ensures var w, v := After(c, p, deeds), After(c, p, deeds + more);
            && Together(v, Pair(w.left.left, w.right.right)) && v.given == w.given
            && CaughtUp(c, w, v, Left) && CaughtUp(c, w, v, Right)
  {
    hide *;
    var first := CatchesUp(c, p, deeds, Left, rand);
    var w, u := After(c, p, deeds), After(c, p, deeds + first);
    RightRenewable(c, w, u);
    var second := CatchesUp(c, p, deeds + first, Right, rand);
    BothCaughtUp(c, w, u, After(c, p, deeds + first + second));
    more := first + second;
    assert deeds + (first + second) == deeds + first + second;
  }

  /** So every run can go on until both sides are in one session again, and then until all that side
      `x` brings into it has been handed up on the other side. */
  lemma AlwaysDelivers(c: Config, p: Pair, deeds: seq<Deed>, x: Side, rand: nat -> Nonce)
    returns (meet: seq<Deed>, more: seq<Deed>)
    requires IsRun(c, p, deeds) && c.w > 0
    requires Renewable(c, After(c, p, deeds), Left) && Renewable(c, After(c, p, deeds), Right)
    ensures IsRun(c, p, deeds + meet + more)
    ensures var w, u, v := After(c, p, deeds), After(c, p, deeds + meet), After(c, p, deeds + meet + more);
            var k := Pair(w.left.left, w.right.right);
            && CaughtUp(c, w, u, x) && Together(u, k) && Together(v, k) && (x, k.Own(x)) in w.given
            && var all, base := w.given[(x, k.Own(x))], u.entries[(x, k)].base;
               base <= |all| && Arrived(c, all[base..], View(v.sessions[k], x))
  {
    hide *;
    meet := EveryRunMeets(c, p, deeds, rand);
    var w := After(c, p, deeds);
    var k := Pair(w.left.left, w.right.right);
    TogetherIs(After(c, p, deeds + meet), k);
    InIs(c, p, deeds + meet, k);
    more := NeverStuck(c, p, deeds + meet, k, x);
    EachSide(c, w, After(c, p, deeds + meet), x);
  }

  lemma EachSide(c: Config, w: World, v: World, x: Side)
    requires CaughtUp(c, w, v, Left) && CaughtUp(c, w, v, Right)
    ensures CaughtUp(c, w, v, x)
  {}
}
