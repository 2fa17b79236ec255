/** Exactly which packets the reassembler accepts, byte by byte, and what it takes from them. */
module Rebuilding {
  import opened Fragments
  import opened ItLink

  /** Consecutive fragments with their headers, numbered from `first` of `total`. */
  ghost function Coding(frags: seq<Fragment>, first: nat, total: nat): seq<Byte> {
    if frags == [] then []
    else frags[0] + Header(|frags[0]|, first, total) + Coding(frags[1..], first + 1, total)
  }

  /** Lengths that two bytes can hold. */
  ghost predicate Small(frags: seq<Fragment>) { forall k :: 0 <= k < |frags| ==> |frags[k]| < 65536 }

  /** Several groups of fragments, each numbered from one. */
  ghost function Codings(groups: seq<seq<Fragment>>, total: nat): seq<Byte> {
    if groups == [] then [] else Coding(groups[0], 1, total) + Codings(groups[1..], total)
  }

  ghost predicate Groups(groups: seq<seq<Fragment>>, total: nat) {
    forall k :: 0 <= k < |groups| ==> 0 < |groups[k]| <= total && Small(groups[k])
  }

  /** The packet has consecutive fragments from number `first` of `total` on, and behind them possibly
      groups that begin again at number one, which the reassembler passes over. */
  ghost predicate WellFormed(p: Packet, first: nat, total: nat, frags: seq<Fragment>, groups: seq<seq<Fragment>>) {
    && frags != [] && 1 <= first && first + |frags| - 1 <= total <= 99 && Small(frags) && Groups(groups, total)
    && p == Coding(frags, first, total) + Codings(groups, total)
  }

  // ---------------------------------------------------------------- one header

  lemma HeaderOf(p: Packet, at: nat)
    requires at + HEADER <= |p|
    ensures p[at..at + HEADER] == Header(LengthAt(p, at), p[at + 2] as nat, p[at + 3] as nat)
    ensures LengthAt(p, at) < 65536
  {}

  /** Bytes of a run of fragments. */
  ghost function Length(frags: seq<Fragment>): nat {
    if frags == [] then 0 else |frags[0]| + HEADER + Length(frags[1..])
  }

  lemma {:induction false} CodingLength(frags: seq<Fragment>, first: nat, total: nat)
    ensures |Coding(frags, first, total)| == Length(frags)
  {
    if frags != [] { CodingLength(frags[1..], first + 1, total); }
  }

  /** Where the headers of the fragments stand, by number. */
  ghost predicate Placed(at: map<nat, nat>, left: nat, frags: seq<Fragment>, first: nat)
    decreases |frags|
  {
    frags != [] ==>
      && first in at && at[first] == left + |frags[0]|
      && Placed(at, left + |frags[0]| + HEADER, frags[1..], first + 1)
  }

  lemma {:induction false} StillPlaced(at: map<nat, nat>, left: nat, frags: seq<Fragment>, first: nat, k: nat, x: nat)
    requires Placed(at, left, frags, first) && k < first
    ensures Placed(at[k := x], left, frags, first)
    decreases |frags|
  {
    if frags != [] { StillPlaced(at, left + |frags[0]| + HEADER, frags[1..], first + 1, k, x); }
  }

  /** What the backward pass has behind it: the fragments of the group it is in, and whole groups. */
  ghost predicate Behind(p: Packet, s: Scan, before: nat, frags: seq<Fragment>, groups: seq<seq<Fragment>>) {
    && s.left <= |p| && p[s.left..] == Coding(frags, s.next + 1, s.total) + Codings(groups, s.total)
    && s.last == s.next + |frags| && Placed(s.at, s.left, frags, s.next + 1) && Small(frags)
    && (if frags == [] then s == Scan(|p|, before, 0, 0, map[]) && groups == []
        else s.last <= s.total <= 99 && (before == 0 || before == s.total) && Groups(groups, s.total))
  }

  lemma StartBehind(p: Packet, before: nat)
    ensures Behind(p, Scan(|p|, before, 0, 0, map[]), before, [], [])
  {}

  /** The fragment that a step of the pass goes over. */
  ghost function Passed(p: Packet, s: Scan, t: Scan): Fragment
    requires t.left + HEADER <= s.left <= |p|
  {
    p[t.left..s.left - HEADER]
  }

  lemma StepParts(p: Packet, s: Scan, t: Scan)
    requires 0 < s.left <= |p| && ScanStep(p, s) == Scanned(t)
    ensures t.left + HEADER <= s.left
    ensures var f, idx := Passed(p, s, t), t.next + 1;
            && |f| < 65536 && 1 <= idx <= t.total <= 99 && (s.total == 0 || s.total == t.total)
            && (s.next == 0 || s.next == idx) && t.last == (if s.next == 0 then idx else s.last)
            && t.at == s.at[idx := s.left - HEADER]
            && p[t.left..] == f + Header(|f|, idx, t.total) + p[s.left..]
  {
    var at := s.left - HEADER;
    HeaderOf(p, at);
    var f := p[t.left..at];
    hide Header, LengthAt;
    assert p[t.left..] == f + p[at..at + HEADER] + p[s.left..];
  }

  lemma BehindIs(p: Packet, t: Scan, before: nat, frags: seq<Fragment>, groups: seq<seq<Fragment>>)
    requires t.left <= |p| && p[t.left..] == Coding(frags, t.next + 1, t.total) + Codings(groups, t.total)
    requires t.last == t.next + |frags| && Placed(t.at, t.left, frags, t.next + 1) && Small(frags) && frags != []
    requires t.last <= t.total <= 99 && (before == 0 || before == t.total) && Groups(groups, t.total)
    ensures Behind(p, t, before, frags, groups)
  {
    hide Coding, Codings, Placed, Small, Groups;
  }

  lemma BehindParts(p: Packet, s: Scan, before: nat, frags: seq<Fragment>, groups: seq<seq<Fragment>>)
    requires Behind(p, s, before, frags, groups)
    ensures s.left <= |p| && p[s.left..] == Coding(frags, s.next + 1, s.total) + Codings(groups, s.total)
    ensures s.last == s.next + |frags| && Placed(s.at, s.left, frags, s.next + 1) && Small(frags)
    ensures frags == [] ==> s == Scan(|p|, before, 0, 0, map[]) && groups == []
    ensures frags != [] ==>
              s.last <= s.total <= 99 && (before == 0 || before == s.total) && Groups(groups, s.total)
  {
    hide Coding, Codings, Placed, Small, Groups;
  }

  lemma OneFragment(f: Fragment, idx: nat, total: nat, at: map<nat, nat>, left: nat)
    requires idx in at && at[idx] == left + |f| && |f| < 65536
    ensures Coding([f], idx, total) == f + Header(|f|, idx, total)
    ensures Placed(at, left, [f], idx) && Small([f])
  {
    assert [f][1..] == [];
    assert f + Header(|f|, idx, total) + [] == f + Header(|f|, idx, total);
    hide Header;
  }

  lemma MoreFragments(f: Fragment, frags: seq<Fragment>, idx: nat, total: nat, at: map<nat, nat>, left: nat)
    requires idx in at && at[idx] == left + |f| && |f| < 65536 && Small(frags)
    requires Placed(at, left + |f| + HEADER, frags, idx + 1)
    ensures Coding([f] + frags, idx, total) == f + Header(|f|, idx, total) + Coding(frags, idx + 1, total)
    ensures Placed(at, left, [f] + frags, idx) && Small([f] + frags)
  {
    assert ([f] + frags)[0] == f && ([f] + frags)[1..] == frags;
    hide Header;
  }

  lemma GroupBegins(fs: seq<Fragment>, groups: seq<seq<Fragment>>, total: nat)
    requires 0 < |fs| <= total && Small(fs) && Groups(groups, total)
    ensures Codings([fs] + groups, total) == Coding(fs, 1, total) + Codings(groups, total)
    ensures Groups([fs] + groups, total)
  {
    assert ([fs] + groups)[1..] == groups;
    hide Coding, Small;
  }

  lemma NoGroups(total: nat)
    ensures Codings([], total) == [] && Groups([], total) && Coding([], 1, total) == []
  {}

  lemma Regroup(f: seq<Byte>, h: seq<Byte>, a: seq<Byte>, b: seq<Byte>)
    ensures f + h + (a + b) == (f + h + a) + b && f + h + [] == f + h
  {}

  /** What one step of the pass does, its fragment and number read off. */
  ghost predicate Goes(p: Packet, s: Scan, t: Scan, f: Fragment, idx: nat) {
    && |f| < 65536 && idx == t.next + 1 && idx <= t.total <= 99 && (s.total == 0 || s.total == t.total)
    && t.left + |f| + HEADER == s.left <= |p| && t.last == (if s.next == 0 then idx else s.last)
    && (s.next == 0 || s.next == idx) && t.at == s.at[idx := t.left + |f|]
    && p[t.left..] == f + Header(|f|, idx, t.total) + p[s.left..]
  }

  lemma StepGoes(p: Packet, s: Scan, t: Scan)
    requires 0 < s.left <= |p| && ScanStep(p, s) == Scanned(t)
    ensures t.left + HEADER <= s.left && Goes(p, s, t, Passed(p, s, t), t.next + 1)
  {
    StepParts(p, s, t);
    hide ScanStep, Header;
  }

  lemma GroupEnds(p: Packet, s: Scan, t: Scan, f: Fragment, before: nat, frags: seq<Fragment>,
                  groups: seq<seq<Fragment>>)
    requires Behind(p, s, before, frags, groups) && Goes(p, s, t, f, t.next + 1) && s.next == 0 && frags != []
    ensures Behind(p, t, before, [f], [frags] + groups)
  {
    BehindParts(p, s, before, frags, groups);
    hide Behind, Coding, Codings, Placed, Small, Groups, Header;
    OneFragment(f, t.next + 1, t.total, t.at, t.left);
    GroupBegins(frags, groups, t.total);
    BehindIs(p, t, before, [f], [frags] + groups);
  }

  lemma FirstStep(p: Packet, s: Scan, t: Scan, f: Fragment, before: nat, groups: seq<seq<Fragment>>)
    requires Behind(p, s, before, [], groups) && Goes(p, s, t, f, t.next + 1)
    ensures Behind(p, t, before, [f], groups)
  {
    BehindParts(p, s, before, [], groups);
    hide Behind, Coding, Codings, Placed, Small, Groups, Header;
    OneFragment(f, t.next + 1, t.total, t.at, t.left);
    NoGroups(t.total);
    assert p[s.left..] == [];
    BehindIs(p, t, before, [f], groups);
  }

  lemma NextStep(p: Packet, s: Scan, t: Scan, f: Fragment, before: nat, frags: seq<Fragment>,
                 groups: seq<seq<Fragment>>)
    requires Behind(p, s, before, frags, groups) && Goes(p, s, t, f, t.next + 1) && s.next != 0 && frags != []
    ensures Behind(p, t, before, [f] + frags, groups)
  {
    BehindParts(p, s, before, frags, groups);
    hide Behind, Coding, Codings, Placed, Small, Groups, Header;
    var idx := t.next + 1;
    StillPlaced(s.at, s.left, frags, s.next + 1, idx, t.left + |f|);
    MoreFragments(f, frags, idx, t.total, t.at, t.left);
    Regroup(f, Header(|f|, idx, t.total), Coding(frags, idx + 1, t.total), Codings(groups, t.total));
    BehindIs(p, t, before, [f] + frags, groups);
  }

  /** Each step goes over one fragment more, and begins a new group after number one. */
  lemma StepBehind(p: Packet, s: Scan, t: Scan, before: nat, frags: seq<Fragment>, groups: seq<seq<Fragment>>)
    requires Behind(p, s, before, frags, groups) && 0 < s.left <= |p| && ScanStep(p, s) == Scanned(t)
    ensures t.left + HEADER <= s.left
    ensures var f := Passed(p, s, t);
            if s.next == 0 && frags != [] then Behind(p, t, before, [f], [frags] + groups)
            else Behind(p, t, before, [f] + frags, groups)
  {
    hide *;
    StepGoes(p, s, t);
    var f := Passed(p, s, t);
    if frags == [] {
      FirstStep(p, s, t, f, before, groups);
      assert [f] + [] == [f];
    } else if s.next == 0 {
      GroupEnds(p, s, t, f, before, frags, groups);
    } else {
      NextStep(p, s, t, f, before, frags, groups);
    }
  }

  // ---------------------------------------------------------------- the whole backward pass

  lemma {:induction false} PassBehind(p: Packet, s: Scan, before: nat, frags: seq<Fragment>, groups: seq<seq<Fragment>>)
    returns (fs: seq<Fragment>, gs: seq<seq<Fragment>>)
    requires Behind(p, s, before, frags, groups) && ScanFrom(p, s).Scanned?
    ensures var t := ScanFrom(p, s).s; t.left == 0 && Behind(p, t, before, fs, gs)
    decreases s.left
  {
    assert s.left <= |p|;
    hide Behind, ScanStep;
    if s.left == 0 {
      fs, gs := frags, groups;
    } else {
      var t := ScanStep(p, s).s;
      StepBehind(p, s, t, before, frags, groups);
      var f := Passed(p, s, t);
      if s.next == 0 && frags != [] {
        fs, gs := PassBehind(p, t, before, [f], [frags] + groups);
      } else {
        fs, gs := PassBehind(p, t, before, [f] + frags, groups);
      }
    }
  }

  lemma FrontIs(p: Packet, left: nat, f: Fragment, h: seq<Byte>, more: seq<Byte>)
    requires left <= |p| && |h| == HEADER && p[left..] == f + h + more
    ensures left + |f| + HEADER <= |p| && p[left..left + |f|] == f && p[left + |f| + HEADER..] == more
    ensures LengthAt(p, left + |f|) == LengthAt(h, 0) && p[left + |f| + 2] == h[2] && p[left + |f| + 3] == h[3]
  {
    var q := f + h + more;
    assert |p[left..]| == |q|;
    forall b | 0 <= b < |q| ensures p[left + b] == q[b] { assert p[left..][b] == q[b]; }
  }

  lemma AppendOne(p: Packet, s: Scan, m: Partial, at: nat, f: Fragment)
    requires m.idx in s.at && s.at[m.idx] == at && m.idx <= s.last && at + HEADER <= |p|
    requires p[at + 2] as nat == m.idx && LengthAt(p, at) == |f| <= at && p[at - |f|..at] == f
    ensures Append(p, s, m, m.idx) == Append(p, s, Partial(m.frags + [f], m.idx + 1, m.total), m.idx + 1)
  {
    hide LengthAt;
  }

  lemma AppendStep(p: Packet, s: Scan, m: Partial, left: nat, f: Fragment, more: seq<Byte>)
    requires m.idx in s.at && s.at[m.idx] == left + |f| && m.idx <= s.last && |f| < 65536
    requires left <= |p| && p[left..] == f + Header(|f|, m.idx, m.total) + more && m.idx <= m.total <= 99
    ensures left + |f| + HEADER <= |p| && p[left + |f| + HEADER..] == more
    ensures Append(p, s, m, m.idx) == Append(p, s, Partial(m.frags + [f], m.idx + 1, m.total), m.idx + 1)
  {
    var h := Header(|f|, m.idx, m.total);
    assert |h| == HEADER;
    HeaderBytes(|f|, m.idx, m.total);
    assert HEADER == 4;
    hide *;
    FrontIs(p, left, f, h, more);
    AppendOne(p, s, m, left + |f|, f);
  }

  lemma PlacedFirst(at: map<nat, nat>, left: nat, frags: seq<Fragment>, first: nat, total: nat)
    requires Placed(at, left, frags, first) && Small(frags) && frags != []
    ensures first in at && at[first] == left + |frags[0]| && |frags[0]| < 65536 && Small(frags[1..])
    ensures Placed(at, left + |frags[0]| + HEADER, frags[1..], first + 1)
    ensures Coding(frags, first, total)
              == frags[0] + Header(|frags[0]|, first, total) + Coding(frags[1..], first + 1, total)
  {
    hide Header;
  }

  lemma FirstThenRest<T>(a: seq<T>, b: seq<T>)
    requires b != []
    ensures a + [b[0]] + b[1..] == a + b
  {}

  lemma AfterFirst(f: seq<Byte>, h: seq<Byte>, more: seq<Byte>, rest: seq<Byte>)
    ensures f + h + more + rest == f + h + (more + rest)
  {}

  lemma AppendEnd(p: Packet, s: Scan, m: Partial)
    requires s.last + 1 == m.idx
    ensures Append(p, s, m, m.idx) == (if m.idx == m.total + 1 then Ready else NotReady, m)
  {}

  /** The first of the fragments is taken, and the rest stands behind it. */
  lemma TakesFirst(p: Packet, s: Scan, m: Partial, left: nat, frags: seq<Fragment>, rest: seq<Byte>, next: Partial,
                   behind: nat)
    requires Placed(s.at, left, frags, m.idx) && s.last + 1 == m.idx + |frags| && Small(frags) && frags != []
    requires left <= |p| && p[left..] == Coding(frags, m.idx, m.total) + rest && s.last <= m.total <= 99 && 1 <= m.idx
    requires next == Partial(m.frags + [frags[0]], m.idx + 1, m.total) && behind == left + |frags[0]| + HEADER
    ensures Append(p, s, m, m.idx) == Append(p, s, next, next.idx)
    ensures Placed(s.at, behind, frags[1..], next.idx) && Small(frags[1..])
    ensures behind <= |p| && p[behind..] == Coding(frags[1..], next.idx, m.total) + rest
  {
    assert HEADER == 4;
    hide *;
    PlacedFirst(s.at, left, frags, m.idx, m.total);
    var f, more := frags[0], Coding(frags[1..], m.idx + 1, m.total);
    var h := Header(|f|, m.idx, m.total);
    AfterFirst(f, h, more, rest);
    AppendStep(p, s, m, left, f, more + rest);
  }

  /** The forward pass takes the fragments of the group it begins in. */
  lemma {:induction false} AppendTakes(p: Packet, s: Scan, m: Partial, left: nat, frags: seq<Fragment>, rest: seq<Byte>)
    requires Placed(s.at, left, frags, m.idx) && s.last + 1 == m.idx + |frags| && Small(frags)
    requires left <= |p| && p[left..] == Coding(frags, m.idx, m.total) + rest && s.last <= m.total <= 99 && 1 <= m.idx
    ensures Append(p, s, m, m.idx) ==
            (if m.idx + |frags| == m.total + 1 then Ready else NotReady,
             Partial(m.frags + frags, m.idx + |frags|, m.total))
    decreases |frags|
  {
    assert HEADER == 4;
    hide *;
    if frags == [] {
      assert m.frags + frags == m.frags;
      AppendEnd(p, s, m);
    } else {
      var next := Partial(m.frags + [frags[0]], m.idx + 1, m.total);
      var behind := left + |frags[0]| + HEADER;
      TakesFirst(p, s, m, left, frags, rest, next, behind);
      AppendTakes(p, s, next, behind, frags[1..], rest);
      FirstThenRest(m.frags, frags);
    }
  }

  // ---------------------------------------------------------------- what is accepted is well-formed

  lemma NothingMore(p: Packet)
    ensures p + [] == p
  {}

  lemma BehindAll(p: Packet, t: Scan, before: nat, fs: seq<Fragment>, gs: seq<seq<Fragment>>)
    requires Behind(p, t, before, fs, gs) && t.left == 0
    ensures p[0..] == p == Coding(fs, t.next + 1, t.total) + Codings(gs, t.total)
    ensures t.last == t.next + |fs| && Placed(t.at, 0, fs, t.next + 1) && Small(fs)
    ensures fs == [] ==> p == [] && t.next == t.last == 0 && t.total == before
    ensures fs != [] ==> WellFormed(p, t.next + 1, t.total, fs, gs) && (before == 0 || before == t.total)
  {
    hide Coding, Codings, Placed, Small, Groups;
  }

  lemma BuildScanned(m: Partial, p: Packet)
    ensures var r := ScanFrom(p, Scan(|p|, m.total, 0, 0, map[]));
            if r.Scanned? then Build(m, p) == Append(p, r.s, m.(total := r.s.total), r.s.next + 1)
            else Build(m, p) == (r.taken, m.(total := r.total)) && r.taken != Ready && r.taken != NotReady
  {
    if ScanFrom(p, Scan(|p|, m.total, 0, 0, map[])).ScanFailed? { ScanFails(p, Scan(|p|, m.total, 0, 0, map[])); }
    hide ScanFrom, Append;
  }

  lemma {:induction false} ScanFails(p: Packet, s: Scan)
    requires s.left <= |p| && ScanFrom(p, s).ScanFailed?
    ensures ScanFrom(p, s).taken != Ready && ScanFrom(p, s).taken != NotReady
    decreases s.left
  {
    hide LengthAt;
    if s.left > 0 && ScanStep(p, s).Scanned? { ScanFails(p, ScanStep(p, s).s); }
  }

  /** What the packet gives, and that only such packets are taken. */
  lemma AcceptedIs(m: Partial, p: Packet) returns (frags: seq<Fragment>, groups: seq<seq<Fragment>>, total: nat)
    requires Build(m, p).0.Ready? || Build(m, p).0.NotReady?
    ensures p == [] ==> Build(m, p) == (if m.idx == m.total + 1 then Ready else NotReady, m)
    ensures p != [] ==>
              && WellFormed(p, m.idx, total, frags, groups) && (m.total == 0 || m.total == total)
              && Build(m, p) == (if m.idx + |frags| == total + 1 then Ready else NotReady,
                                 Partial(m.frags + frags, m.idx + |frags|, total))
  {
    hide *;
    BuildScanned(m, p);
    StartBehind(p, m.total);
    frags, groups := PassBehind(p, Scan(|p|, m.total, 0, 0, map[]), m.total, [], []);
    var t := ScanFrom(p, Scan(|p|, m.total, 0, 0, map[])).s;
    total := t.total;
    BehindAll(p, t, m.total, frags, groups);
    if frags == [] {
      AppendNone(p, t, m.(total := total));
    } else {
      AppendBegins(p, t, m.(total := total), t.next + 1);
      WellTotal(p, t.next + 1, total, frags, groups);
      AppendTakes(p, t, m.(total := total), 0, frags, Codings(groups, total));
    }
  }

  lemma WellTotal(p: Packet, first: nat, total: nat, frags: seq<Fragment>, groups: seq<seq<Fragment>>)
    requires WellFormed(p, first, total, frags, groups)
    ensures p != [] && frags != [] && 1 <= first && first + |frags| - 1 <= total <= 99
  {
    CodingLength(frags, first, total);
  }

  lemma AppendNone(p: Packet, s: Scan, m: Partial)
    requires s.next == s.last == 0
    ensures Append(p, s, m, s.next + 1) == (if m.idx == m.total + 1 then Ready else NotReady, m)
  {}

  lemma AppendBegins(p: Packet, s: Scan, m: Partial, next: nat)
    requires next <= s.last && (Append(p, s, m, next).0.Ready? || Append(p, s, m, next).0.NotReady?)
    ensures next == m.idx
  {}

  // ---------------------------------------------------------------- what is well-formed is accepted

  lemma {:induction false} CodingLast(frags: seq<Fragment>, f: Fragment, first: nat, total: nat)
    ensures Coding(frags + [f], first, total) ==
            Coding(frags, first, total) + f + Header(|f|, first + |frags|, total)
    decreases |frags|
  {
    hide Header;
    if frags == [] {
      assert ([] + [f])[1..] == [];
    } else {
      assert (frags + [f])[0] == frags[0] && (frags + [f])[1..] == frags[1..] + [f];
      CodingLast(frags[1..], f, first + 1, total);
    }
  }

  /** The pass stands behind a fragment numbered `idx`, and takes the step over it. */
  lemma StepOver(p: Packet, s: Scan, x: seq<Byte>, f: Fragment, idx: nat, total: nat)
    requires s.left <= |p| && p[..s.left] == x + f + Header(|f|, idx, total)
    requires |f| < 65536 && 1 <= idx <= total <= 99
    requires (s.total == 0 || s.total == total) && (s.next == 0 || s.next == idx)
    ensures 0 < s.left && ScanStep(p, s).Scanned?
    ensures var t := ScanStep(p, s).s;
            t.left == |x| && t.next == idx - 1 && t.total == total && Passed(p, s, t) == f && p[..t.left] == x
  {
    var h := Header(|f|, idx, total);
    HeaderBytes(|f|, idx, total);
    assert |h| == 4;
    assert p[..s.left] == p[..|x + f + h|];
    hide Header, LengthAt;
    InsideHeader(x, f, h, p);
    InsideData(x, f, h, p);
    assert p[..s.left][..|x|] == x;
    ScanStepIs(p, s, |x| + |f|, |f|, idx, total);
  }

  lemma Moved(x: seq<Byte>, c: seq<Byte>, f: seq<Byte>, h: seq<Byte>)
    ensures x + (c + f + h) == (x + c) + f + h
  {}

  lemma LastOfGroup(x: seq<Byte>, fs: seq<Fragment>, first: nat, total: nat)
    requires fs != []
    ensures var n := |fs| - 1;
            x + Coding(fs, first, total)
              == (x + Coding(fs[..n], first, total)) + fs[n] + Header(|fs[n]|, first + n, total)
  {
    hide *;
    var n := |fs| - 1;
    CodingLast(fs[..n], fs[n], first, total);
    assert fs == fs[..n] + [fs[n]];
    Moved(x, Coding(fs[..n], first, total), fs[n], Header(|fs[n]|, first + n, total));
  }

  lemma FromHere<T>(xs: seq<T>, n: nat)
    requires n <= |xs|
    ensures if n == |xs| then xs[n..] == [] else [xs[n]] + xs[n + 1..] == xs[n..]
  {}

  lemma LastOfSome(x: seq<Byte>, fs: seq<Fragment>, n: nat, first: nat, total: nat)
    requires 0 < n <= |fs|
    ensures x + Coding(fs[..n], first, total)
              == (x + Coding(fs[..n - 1], first, total)) + fs[n - 1] + Header(|fs[n - 1]|, first + n - 1, total)
  {
    hide *;
    assert fs[..n][..n - 1] == fs[..n - 1] && fs[..n][n - 1] == fs[n - 1];
    LastOfGroup(x, fs[..n], first, total);
  }

  /** Back over the first `n` fragments of a group. */
  lemma {:induction false} PassGroup(p: Packet, s: Scan, x: seq<Byte>, fs: seq<Fragment>, n: nat, first: nat,
                                     total: nat, before: nat, groups: seq<seq<Fragment>>) returns (t: Scan)
    requires n < |fs| && 1 <= first && first + |fs| - 1 <= total <= 99 && Small(fs)
    requires s.left <= |p| && p[..s.left] == x + Coding(fs[..n], first, total)
    requires Behind(p, s, before, fs[n..], groups) && s.next == first + n - 1 && s.total == total
    ensures t.left == |x| && p[..t.left] == x && t.next == first - 1 && t.total == total
    ensures Behind(p, t, before, fs, groups) && t.left <= |p| && ScanFrom(p, s) == ScanFrom(p, t)
    decreases n
  {
    if n == 0 {
      assert x + Coding([], first, total) == x && fs[0..] == fs;
      t := s;
    } else {
      var f := fs[n - 1];
      assert |f| < 65536;
      hide *;
      LastOfSome(x, fs, n, first, total);
      var y := x + Coding(fs[..n - 1], first, total);
      StepOver(p, s, y, f, first + n - 1, total);
      var u := ScanStep(p, s).s;
      StepBehind(p, s, u, before, fs[n..], groups);
      FromHere(fs, n - 1);
      ScanFromStep(p, s, u);
      t := PassGroup(p, u, x, fs, n - 1, first, total, before, groups);
    }
  }

  /** Over a whole group, from behind it. */
  lemma PassWhole(p: Packet, s: Scan, x: seq<Byte>, fs: seq<Fragment>, first: nat, total: nat,
                  before: nat, frags: seq<Fragment>, groups: seq<seq<Fragment>>) returns (t: Scan)
    requires fs != [] && 1 <= first && first + |fs| - 1 <= total <= 99 && Small(fs)
    requires s.left <= |p| && p[..s.left] == x + Coding(fs, first, total)
    requires Behind(p, s, before, frags, groups) && s.next == 0 && (s.total == 0 || s.total == total)
    ensures t.left == |x| && p[..t.left] == x && t.next == first - 1 && t.total == total
    ensures t.left <= |p| && ScanFrom(p, s) == ScanFrom(p, t)
    ensures Behind(p, t, before, fs, if frags == [] then groups else [frags] + groups)
  {
    var n := |fs| - 1;
    var f := fs[n];
    assert |f| < 65536;
    hide *;
    LastOfGroup(x, fs, first, total);
    var y := x + Coding(fs[..n], first, total);
    StepOver(p, s, y, f, first + n, total);
    var u := ScanStep(p, s).s;
    StepBehind(p, s, u, before, frags, groups);
    assert fs[n..] == [f] && [f] + [] == [f];
    ScanFromStep(p, s, u);
    t := PassGroup(p, u, x, fs, n, first, total, before, if frags == [] then groups else [frags] + groups);
  }

  /** Behind the last groups: some of them have been passed, the one passed last not yet counted. */
  ghost predicate AtGroup(p: Packet, s: Scan, before: nat, total: nat, groups: seq<seq<Fragment>>, n: nat) {
    && n <= |groups| && s.left <= |p| && s.next == 0 && (s.total == 0 || s.total == total)
    && (if n == |groups| then Behind(p, s, before, [], [])
        else s.total == total && Behind(p, s, before, groups[n], groups[n + 1..]))
  }

  lemma {:induction false} CodingsUpTo(groups: seq<seq<Fragment>>, n: nat, total: nat)
    requires n < |groups|
    ensures Codings(groups[..n + 1], total) == Codings(groups[..n], total) + Coding(groups[n], 1, total)
    decreases n
  {
    hide Coding;
    if n == 0 {
      assert groups[..1][1..] == [] && groups[..0] == [];
      assert Codings(groups[..1], total) == Coding(groups[0], 1, total) + [];
    } else {
      CodingsUpTo(groups[1..], n - 1, total);
      assert groups[..n + 1][1..] == groups[1..][..n] && groups[..n][1..] == groups[1..][..n - 1];
    }
  }

  lemma AtGroupParts(p: Packet, s: Scan, before: nat, total: nat, groups: seq<seq<Fragment>>, n: nat)
    requires AtGroup(p, s, before, total, groups, n)
    ensures n <= |groups| && s.left <= |p| && s.next == 0 && (s.total == 0 || s.total == total)
    ensures n == |groups| ==> Behind(p, s, before, [], [])
    ensures n < |groups| ==> Behind(p, s, before, groups[n], groups[n + 1..])
  {
    hide Behind;
  }

  lemma AtGroupIs(p: Packet, u: Scan, before: nat, total: nat, groups: seq<seq<Fragment>>, n: nat)
    requires n < |groups| && u.left <= |p| && u.next == 0 && u.total == total
    requires Behind(p, u, before, groups[n], groups[n + 1..])
    ensures AtGroup(p, u, before, total, groups, n)
  {
    hide Behind;
  }

  /** Over one group more. */
  lemma PassOne(p: Packet, s: Scan, x: seq<Byte>, groups: seq<seq<Fragment>>, n: nat, total: nat, before: nat)
    returns (u: Scan)
    requires Groups(groups, total) && total <= 99 && AtGroup(p, s, before, total, groups, n) && n > 0
    requires s.left <= |p| && p[..s.left] == x + Coding(groups[n - 1], 1, total)
    ensures AtGroup(p, u, before, total, groups, n - 1) && u.left <= |p| && p[..u.left] == x
    ensures ScanFrom(p, s) == ScanFrom(p, u)
  {
    AtGroupParts(p, s, before, total, groups, n);
    assert 0 < |groups[n - 1]| <= total && Small(groups[n - 1]) by { hide AtGroup, Coding, Small; }
    GroupNotEmpty(groups, total);
    hide *;
    if n == |groups| {
      u := PassWhole(p, s, x, groups[n - 1], 1, total, before, [], []);
    } else {
      u := PassWhole(p, s, x, groups[n - 1], 1, total, before, groups[n], groups[n + 1..]);
    }
    FromHere(groups, n);
    AtGroupIs(p, u, before, total, groups, n - 1);
  }

  lemma {:induction false} PassGroups(p: Packet, s: Scan, x: seq<Byte>, groups: seq<seq<Fragment>>, n: nat, total: nat,
                                      before: nat) returns (t: Scan)
    requires Groups(groups, total) && total <= 99 && AtGroup(p, s, before, total, groups, n)
    requires n <= |groups| && s.left <= |p| && p[..s.left] == x + Codings(groups[..n], total)
    ensures AtGroup(p, t, before, total, groups, 0) && t.left <= |p| && p[..t.left] == x
    ensures ScanFrom(p, s) == ScanFrom(p, t)
    decreases n
  {
    hide *;
    if n == 0 {
      NoGroups(total);
      assert groups[..0] == [] && x + [] == x;
      t := s;
    } else {
      CodingsUpTo(groups, n - 1, total);
      var y := x + Codings(groups[..n - 1], total);
      Regroup(x, Codings(groups[..n - 1], total), Coding(groups[n - 1], 1, total), []);
      var u := PassOne(p, s, y, groups, n, total, before);
      t := PassGroups(p, u, x, groups, n - 1, total, before);
    }
  }

  lemma WellParts(p: Packet, first: nat, total: nat, frags: seq<Fragment>, groups: seq<seq<Fragment>>)
    requires WellFormed(p, first, total, frags, groups)
    ensures frags != [] && 1 <= first && first + |frags| - 1 <= total <= 99 && Small(frags) && Groups(groups, total)
    ensures p == Coding(frags, first, total) + Codings(groups, total)
  {
    hide Small, Groups, Coding, Codings;
  }

  lemma AtEnd(p: Packet, before: nat, total: nat, groups: seq<seq<Fragment>>)
    requires before == 0 || before == total
    ensures AtGroup(p, Scan(|p|, before, 0, 0, map[]), before, total, groups, |groups|)
  {
    StartBehind(p, before);
    hide Behind;
  }

  /** Every such packet is taken, and gives just these fragments. */
  lemma AcceptsWellFormed(m: Partial, p: Packet, frags: seq<Fragment>, groups: seq<seq<Fragment>>, total: nat)
    requires WellFormed(p, m.idx, total, frags, groups) && (m.total == 0 || m.total == total)
    ensures Build(m, p) == (if m.idx + |frags| == total + 1 then Ready else NotReady,
                            Partial(m.frags + frags, m.idx + |frags|, total))
  {
    hide *;
    var s := Scan(|p|, m.total, 0, 0, map[]);
    WellParts(p, m.idx, total, frags, groups);
    AtEnd(p, m.total, total, groups);
    assert p[..s.left] == p && groups[..|groups|] == groups;
    BuildScanned(m, p);
    var x := Coding(frags, m.idx, total);
    var u := PassGroups(p, s, x, groups, |groups|, total, m.total);
    AtGroupParts(p, u, m.total, total, groups, 0);
    assert [] + x == x;
    GroupNotEmpty(groups, total);
    var t: Scan;
    if groups == [] {
      t := PassWhole(p, u, [], frags, m.idx, total, m.total, [], []);
    } else {
      t := PassWhole(p, u, [], frags, m.idx, total, m.total, groups[0], groups[1..]);
      assert [groups[0]] + groups[1..] == groups;
    }
    BehindAll(p, t, m.total, frags, groups);
    ScanDone(p, t);
    AppendTakes(p, t, m.(total := total), 0, frags, Codings(groups, total));
  }

  lemma GroupNotEmpty(groups: seq<seq<Fragment>>, total: nat)
    requires Groups(groups, total)
    ensures forall k :: 0 <= k < |groups| ==> groups[k] != []
  {
    hide Small;
  }

  lemma ScanDone(p: Packet, t: Scan)
    requires t.left == 0
    ensures ScanFrom(p, t) == Scanned(t)
  {}

  /** Exactly which packets are taken as the next of a message: none at all, or those whose bytes are the
      next fragments with their headers, of the same message, and behind them only what is passed
      over. */
  lemma BuildExactly(m: Partial, p: Packet)
    ensures Build(m, p).0.Ready? || Build(m, p).0.NotReady? <==>
              p == [] || exists frags, groups, total ::
                           WellFormed(p, m.idx, total, frags, groups) && (m.total == 0 || m.total == total)
  {
    hide WellFormed, Build;
    if Build(m, p).0.Ready? || Build(m, p).0.NotReady? { var frags, groups, total := AcceptedIs(m, p); }
    if p == [] { EmptyTaken(m); }
    if frags, groups, total :| WellFormed(p, m.idx, total, frags, groups) && (m.total == 0 || m.total == total) {
      AcceptsWellFormed(m, p, frags, groups, total);
    }
  }

  lemma EmptyTaken(m: Partial)
    ensures Build(m, []).0.Ready? || Build(m, []).0.NotReady?
  {}

  // ---------------------------------------------------------------- what the packer writes

  /** The header's four bytes: the length, low byte first, the number, and the total. */
  lemma HeaderLayout(len: nat, idx: nat, total: nat)
    requires len < 65536 && idx < 256 && total < 256
    ensures var h := Header(len, idx, total);
            && |h| == 4 && h[0] as nat + 256 * h[1] as nat == len && h[2] as nat == idx && h[3] as nat == total
  {
    HeaderBytes(len, idx, total);
  }

  /** The packer writes fragments i..j-1 one after the other, each with its number in the message. */
  lemma {:induction false} EncodeIs(m: Message, i: nat, j: nat)
    requires i <= j <= |m|
    ensures Encode(m, i, j) == Coding(m[i..j], i + 1, |m|)
    decreases j
  {
    hide Header;
    if i < j {
      EncodeIs(m, i, j - 1);
      EncodeOneMore(m, i, j - 1);
      CodingLast(m[i..j - 1], m[j - 1], i + 1, |m|);
      assert m[i..j] == m[i..j - 1] + [m[j - 1]];
    }
  }

  // ---------------------------------------------------------------- why a packet is rejected

  /** The header that ends at `left` is wrong, and this is what is wrong with it: the total of
      fragments is none or too many, not the one agreed on, or less than the number; the number is not
      the one expected; or the fragment would begin before the packet. */
  ghost predicate WrongHeader(p: Packet, left: nat, agreed: nat, expected: nat, code: int)
    requires 4 <= left <= |p|
  {
    var len, idx, total := p[left - 4] as nat + 256 * p[left - 3] as nat, p[left - 2] as nat, p[left - 1] as nat;
    var totalOk, agrees, numbered := 1 <= total <= 99, agreed == 0 || agreed == total, 1 <= idx <= total;
    || (code == -1 && !totalOk)
    || (code == -2 && totalOk && !agrees)
    || (code == -3 && totalOk && agrees && !numbered)
    || (code == -4 && totalOk && agrees && numbered && expected != 0 && expected != idx)
    || (code == -5 && totalOk && agrees && numbered && (expected == 0 || expected == idx) && len + 4 > left)
  }

  /** Where the backward pass stops: in front of what is too short for a header, or of a wrong one. */
  ghost predicate StopsFor(p: Packet, s: Scan, taken: Taken) {
    && 0 < s.left <= |p|
    && (if s.left < 4 then taken == Outside else taken.Rejected? && WrongHeader(p, s.left, s.total, s.next, taken.code))
  }

  lemma StepStops(p: Packet, s: Scan)
    requires 0 < s.left <= |p| && ScanStep(p, s).ScanFailed?
    ensures StopsFor(p, s, ScanStep(p, s).taken)
  {}

  lemma {:induction false} PassStops(p: Packet, s: Scan, before: nat, frags: seq<Fragment>, groups: seq<seq<Fragment>>)
    returns (u: Scan, fs: seq<Fragment>, gs: seq<seq<Fragment>>)
    requires Behind(p, s, before, frags, groups) && s.left <= |p| && ScanFrom(p, s).ScanFailed?
    ensures Behind(p, u, before, fs, gs) && StopsFor(p, u, ScanFrom(p, s).taken)
    decreases s.left
  {
    hide Behind, ScanStep, StopsFor;
    var t := ScanStep(p, s);
    if t.ScanFailed? {
      StepStops(p, s);
      u, fs, gs := s, frags, groups;
    } else {
      StepBehind(p, s, t.s, before, frags, groups);
      var f := Passed(p, s, t.s);
      BehindLeft(p, t.s, before);
      if s.next == 0 && frags != [] {
        u, fs, gs := PassStops(p, t.s, before, [f], [frags] + groups);
      } else {
        u, fs, gs := PassStops(p, t.s, before, [f] + frags, groups);
      }
    }
  }

  lemma BehindLeft(p: Packet, s: Scan, before: nat)
    ensures forall fs, gs :: Behind(p, s, before, fs, gs) ==> s.left <= |p|
  {
    hide Coding, Codings, Placed, Small, Groups;
  }

  /** Why a packet is rejected: behind some of its fragments stands a wrong header, or all of them are
      well-formed but do not go on from the next one expected.  Nothing is taken from it. */
  lemma RejectedFor(m: Partial, p: Packet)
    returns (s: Scan, frags: seq<Fragment>, groups: seq<seq<Fragment>>, total: nat)
    requires !Build(m, p).0.Ready? && !Build(m, p).0.NotReady?
    ensures Build(m, p).1.frags == m.frags && Build(m, p).1.idx == m.idx
    ensures
      || (Behind(p, s, m.total, frags, groups) && StopsFor(p, s, Build(m, p).0))
      || (Build(m, p).0 == Rejected(-6) && s.next + 1 != m.idx && WellFormed(p, s.next + 1, total, frags, groups)
          && (m.total == 0 || m.total == total))
  {
    hide *;
    BuildScanned(m, p);
    StartBehind(p, m.total);
    total := 0;
    var start := Scan(|p|, m.total, 0, 0, map[]);
    if ScanFrom(p, start).ScanFailed? {
      s, frags, groups := PassStops(p, start, m.total, [], []);
    } else {
      frags, groups := PassBehind(p, start, m.total, [], []);
      s := ScanFrom(p, start).s;
      total := s.total;
      BehindAll(p, s, m.total, frags, groups);
      if frags == [] {
        AppendNone(p, s, m.(total := total));
      } else {
        WellTotal(p, s.next + 1, total, frags, groups);
        if s.next + 1 == m.idx {
          AppendTakes(p, s, m.(total := total), 0, frags, Codings(groups, total));
        } else {
          AppendElsewhere(p, s, m.(total := total), s.next + 1);
        }
      }
    }
  }

  lemma AppendElsewhere(p: Packet, s: Scan, m: Partial, next: nat)
    requires next <= s.last && next != m.idx
    ensures Append(p, s, m, next) == (Rejected(-6), m)
  {}

  // ---------------------------------------------------------------- what becomes of any packet

  lemma LastByte(p: Packet, x: seq<Byte>, f: Fragment, idx: nat, total: nat)
    requires p == x + f + Header(|f|, idx, total) && total < 256
    ensures |p| >= 4 && p[|p| - 1] as nat == total
  {}

  /** The total that the last header names. */
  lemma LastTotal(p: Packet, first: nat, total: nat, frags: seq<Fragment>, groups: seq<seq<Fragment>>)
    requires WellFormed(p, first, total, frags, groups)
    ensures |p| >= 4 && p[|p| - 1] as nat == total <= 99
  {
    hide *;
    WellParts(p, first, total, frags, groups);
    var x := Coding(frags, first, total);
    var n := |groups|;
    if n == 0 {
      assert groups == [];
      NoGroups(total);
      assert x + [] == [] + x;
      LastOfGroup([], frags, first, total);
      var j := |frags| - 1;
      LastByte(p, [] + Coding(frags[..j], first, total), frags[j], first + j, total);
    } else {
      GroupNotEmpty(groups, total);
      CodingsUpTo(groups, n - 1, total);
      assert groups[..n] == groups;
      var y, last := x + Codings(groups[..n - 1], total), groups[n - 1];
      assert x + (Codings(groups[..n - 1], total) + Coding(last, 1, total)) == y + Coding(last, 1, total);
      LastOfGroup(y, last, 1, total);
      var j := |last| - 1;
      LastByte(p, y + Coding(last[..j], 1, total), last[j], 1 + j, total);
    }
  }

  lemma Kinds(taken: Taken)
    ensures taken.Ready? || taken.NotReady? || taken.Rejected? || taken.Outside?
  {}

  lemma ConsumeIs(b: Inbox, p: Packet)
    ensures var (taken, m) := Build(b.partial, p);
            Consume(b, p) == match taken
                             case Ready => Inbox(FRESH, b.delivered + [m.frags], b.broken)
                             case NotReady => Inbox(m, b.delivered, b.broken)
                             case _ => Inbox(m, b.delivered, true)
  {
    hide Build;
  }

  /** A packet that goes on with the message is added to it, and completes it with the last fragment;
      any other condemns its sender, and leaves what there is of the message as it was. */
  lemma ConsumeExactly(b: Inbox, p: Packet)
    requires p != []
    ensures forall frags, groups, total: nat ::
              && WellFormed(p, b.partial.idx, total, frags, groups)
              && (b.partial.total == 0 || b.partial.total == total) ==>
                Consume(b, p) ==
                  if b.partial.idx + |frags| == total + 1
                  then Inbox(FRESH, b.delivered + [b.partial.frags + frags], b.broken)
                  else Inbox(Partial(b.partial.frags + frags, b.partial.idx + |frags|, total), b.delivered, b.broken)
    ensures !(exists frags, groups, total: nat ::
                && WellFormed(p, b.partial.idx, total, frags, groups)
                && (b.partial.total == 0 || b.partial.total == total)) ==>
              var q := Consume(b, p);
              && q.broken && q.delivered == b.delivered
              && q.partial.frags == b.partial.frags && q.partial.idx == b.partial.idx
  {
    hide *;
    var m := b.partial;
    ConsumeIs(b, p);
    BuildExactly(m, p);
    forall frags, groups, total: nat | WellFormed(p, m.idx, total, frags, groups) && (m.total == 0 || m.total == total)
      ensures Consume(b, p) == if m.idx + |frags| == total + 1
                               then Inbox(FRESH, b.delivered + [m.frags + frags], b.broken)
                               else Inbox(Partial(m.frags + frags, m.idx + |frags|, total), b.delivered, b.broken)
    {
      AcceptsWellFormed(m, p, frags, groups, total);
    }
    if !Build(m, p).0.Ready? && !Build(m, p).0.NotReady? {
      var s, frags, groups, total := RejectedFor(m, p);
      Kinds(Build(m, p).0);
    }
  }

  lemma HandUpIs(r: Receiver, c: Config, seqNo: nat, p: Packet)
    ensures AtOnce(c, p) <==> !c.ordered && |p| >= 4 && p[|p| - 1] == 1
    ensures !AtOnce(c, p) ==> HandUp(r, c, seqNo, p) == r
    ensures AtOnce(c, p) ==>
              var (taken, m) := Build(FRESH, p);
              HandUp(r, c, seqNo, p) ==
                if taken.Ready? then r.(early := r.early + [Early(seqNo, m.frags)])
                else r.(inbox := r.inbox.(broken := true))
  {
    hide Build;
  }

  lemma OneFragmentOnly(p: Packet, total: nat, frags: seq<Fragment>, groups: seq<seq<Fragment>>)
    requires WellFormed(p, 1, total, frags, groups) && p != [] && p[|p| - 1] == 1
    ensures total == 1 && |frags| == 1
  {
    LastTotal(p, 1, total, frags, groups);
    WellTotal(p, 1, total, frags, groups);
  }

  /** Without ordering a packet whose last header names one fragment in all is handed up at once if it
      is that fragment, and otherwise condemns its sender; it never waits for more. */
  lemma HandUpExactly(r: Receiver, c: Config, seqNo: nat, p: Packet)
    ensures c.ordered || |p| < 4 || p[|p| - 1] != 1 ==> HandUp(r, c, seqNo, p) == r
    ensures !c.ordered && |p| >= 4 && p[|p| - 1] == 1 ==>
              && (forall f, groups :: WellFormed(p, 1, 1, [f], groups) ==>
                    HandUp(r, c, seqNo, p) == r.(early := r.early + [Early(seqNo, [f])]))
              && (!(exists f, groups :: WellFormed(p, 1, 1, [f], groups)) ==>
                    HandUp(r, c, seqNo, p) == r.(inbox := r.inbox.(broken := true)))
  {
    assert FRESH == Partial([], 1, 0);
    hide *;
    HandUpIs(r, c, seqNo, p);
    if !c.ordered && |p| >= 4 && p[|p| - 1] == 1 {
      forall f, groups | WellFormed(p, 1, 1, [f], groups)
        ensures HandUp(r, c, seqNo, p) == r.(early := r.early + [Early(seqNo, [f])])
      {
        AcceptsWellFormed(Partial([], 1, 0), p, [f], groups, 1);
        assert [] + [f] == [f];
      }
      if Build(Partial([], 1, 0), p).0.Ready? || Build(Partial([], 1, 0), p).0.NotReady? {
        var frags, groups, total := AcceptedIs(Partial([], 1, 0), p);
        OneFragmentOnly(p, total, frags, groups);
        assert frags == [frags[0]];
      }
    }
  }
}
