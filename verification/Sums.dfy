/** Sums of a weight over a set of arc numbers. */
module Sums {
  ghost function WSum(f: set<nat>, w: seq<int>): int {
    if |w| == 0 then 0
    else WSum(f, w[..|w| - 1]) + (if |w| - 1 in f then w[|w| - 1] else 0)
  }

  lemma {:induction false} WSumAdd(f: set<nat>, w: seq<int>, j: nat)
    requires j !in f
    ensures WSum(f + {j}, w) == WSum(f, w) + if j < |w| then w[j] else 0
  {
    if |w| > 0 {
      WSumAdd(f, w[..|w| - 1], j);
    }
  }

  lemma WSumRemove(f: set<nat>, w: seq<int>, j: nat)
    requires j in f
    ensures WSum(f - {j}, w) == WSum(f, w) - if j < |w| then w[j] else 0
  {
    WSumAdd(f - {j}, w, j);
    assert f - {j} + {j} == f;
  }

  lemma {:induction false} WSumZero(f: set<nat>, w: seq<int>)
    requires forall j :: 0 <= j < |w| && j in f ==> w[j] == 0
    ensures WSum(f, w) == 0
  {
    if |w| > 0 { WSumZero(f, w[..|w| - 1]); }
  }

  /** `c == a + x * b` pointwise gives the same relation between the sums. */
  lemma {:induction false} WSumLinear(f: set<nat>, a: seq<int>, b: seq<int>, x: int, c: seq<int>)
    requires |a| == |b| == |c| && forall j :: 0 <= j < |a| ==> c[j] == a[j] + x * b[j]
    ensures WSum(f, c) == WSum(f, a) + x * WSum(f, b)
  {
    if |a| > 0 {
      var n := |a| - 1;
      WSumLinear(f, a[..n], b[..n], x, c[..n]);
      assert c[n] == a[n] + x * b[n];
      if n in f {
        assert WSum(f, c) == WSum(f, a[..n]) + x * WSum(f, b[..n]) + a[n] + x * b[n];
        assert x * (WSum(f, b[..n]) + b[n]) == x * WSum(f, b[..n]) + x * b[n];
      }
    }
  }

  /** Where `f` holds every non-positive weight and no positive one, no other set sums lower. */
  lemma {:induction false} WSumLeast(f: set<nat>, h: set<nat>, w: seq<int>)
    requires forall j :: 0 <= j < |w| && j in h ==> (if j in f then w[j] <= 0 else w[j] >= 0)
    requires forall j :: 0 <= j < |w| && j in f ==> w[j] <= 0
    ensures WSum(f, w) <= WSum(h, w)
  {
    if |w| > 0 { WSumLeast(f, h, w[..|w| - 1]); }
  }

  lemma {:induction false} WSumNonNegative(f: set<nat>, w: seq<int>)
    requires forall j :: 0 <= j < |w| && j in f ==> w[j] >= 0
    ensures WSum(f, w) >= 0
    ensures forall j :: 0 <= j < |w| && j in f ==> WSum(f, w) >= w[j]
  {
    if |w| > 0 { WSumNonNegative(f, w[..|w| - 1]); }
  }

  lemma {:induction false} WSumDisjoint(f: set<nat>, h: set<nat>, w: seq<int>)
    requires f !! h
    ensures WSum(f + h, w) == WSum(f, w) + WSum(h, w)
  {
    if |w| > 0 { WSumDisjoint(f, h, w[..|w| - 1]); }
  }
}
