/**
 * The latency average that the flow table and the graph keep: each positive value is
 * averaged half and half with what was there, other values are ignored.
 */
module Smoothing {
  import opened Prelude

  /** The CASE expression of the flow update. */
  function Blend(avg: real, v: real): real {
    if v > 0.0 && avg > 0.0 then (avg + v) / 2.0 else if v > 0.0 then v else avg
  }

  /** `mergeAverageMetric` of the graph, branch by branch. */
  function MergeAverageMetric(current: real, next: real): real {
    if next <= 0.0 then current else if current <= 0.0 then next else (current + next) / 2.0
  }

  function Smooth(vs: seq<real>): real {
    if vs == [] then 0.0 else Blend(Smooth(Init(vs)), Last(vs))
  }

  function GraphSmooth(vs: seq<real>): real {
    if vs == [] then 0.0 else MergeAverageMetric(GraphSmooth(Init(vs)), Last(vs))
  }

  function Positives(vs: seq<real>): (ps: seq<real>)
    ensures forall p :: p in ps ==> p > 0.0 && p in vs
    ensures |ps| <= |vs|
  {
    if vs == [] then [] else if Last(vs) > 0.0 then Positives(Init(vs)) + [Last(vs)] else Positives(Init(vs))
  }

  /** One half, `k` times over. */
  function Half(k: nat): real { if k == 0 then 1.0 else Half(k - 1) / 2.0 }

  /** What the i-th of `n` positive values counts for: the newest one half, each older one half as much. */
  function Weight(n: nat, i: nat): real
    requires i < n
  {
    Half(if i == 0 then n - 1 else n - i)
  }

  function Share(weight: real, v: real): real { weight * v }

  function Dot(n: nat, ps: seq<real>): (r: real)
    requires |ps| <= n
    ensures ps == [] ==> r == 0.0
  {
    if ps == [] then 0.0 else Dot(n, Init(ps)) + Share(Weight(n, |ps| - 1), Last(ps))
  }

  function WeightSum(n: nat, m: nat): real
    requires m <= n
  {
    if m == 0 then 0.0 else WeightSum(n, m - 1) + Weight(n, m - 1)
  }

  lemma {:induction false} HalfPositive(k: nat)
    ensures Half(k) > 0.0
  {
    if k > 0 { HalfPositive(k - 1); }
  }

  lemma {:induction false} DotHalves(n: nat, ps: seq<real>)
    requires |ps| <= n
    ensures Dot(n + 1, ps) == Dot(n, ps) / 2.0
  {
    if ps != [] {
      DotHalves(n, Init(ps));
      assert Weight(n + 1, |ps| - 1) == Weight(n, |ps| - 1) / 2.0;
    }
  }

  lemma {:induction false} WeightsHalve(n: nat, m: nat)
    requires m <= n
    ensures WeightSum(n + 1, m) == WeightSum(n, m) / 2.0
  {
    if m > 0 { WeightsHalve(n, m - 1); }
  }

  /** The weights are positive and sum to one: the combination is convex. */
  lemma {:induction false} WeightsConvex(n: nat)
    requires n > 0
    ensures WeightSum(n, n) == 1.0
    ensures forall i :: 0 <= i < n ==> Weight(n, i) > 0.0
  {
    forall i | 0 <= i < n ensures Weight(n, i) > 0.0 { HalfPositive(if i == 0 then n - 1 else n - i); }
    if n > 1 {
      WeightsConvex(n - 1);
      WeightsHalve(n - 1, n - 1);
      assert Half(1) == Half(0) / 2.0;
    }
  }

  predicate Within(v: real, ps: seq<real>) { (exists p :: p in ps && p <= v) && (exists p :: p in ps && v <= p) }

  lemma WithinMidpoint(v: real, ps: seq<real>, p: real)
    requires Within(v, ps)
    ensures Within((v + p) / 2.0, ps + [p])
  {
    var lo :| lo in ps && lo <= v;
    var hi :| hi in ps && v <= hi;
    assert lo in ps + [p] && hi in ps + [p] && p in ps + [p];
    var m := (v + p) / 2.0;
    if p <= v { assert p <= m <= hi; } else { assert lo <= m <= p; }
  }

  lemma DotUnfold(n: nat, ps: seq<real>, v: real)
    requires |ps| < n
    ensures Dot(n, ps + [v]) == Dot(n, ps) + Share(Weight(n, |ps|), v)
  {
    hide Weight, Share;
    assert Init(ps + [v]) == ps;
  }

  lemma NewestWeight(n: nat)
    requires n > 0
    ensures Weight(n, n - 1) == if n == 1 then 1.0 else 0.5
  {
    assert Half(1) == Half(0) / 2.0;
  }

  lemma DotSnoc(ps: seq<real>, v: real)
    ensures Dot(|ps| + 1, ps + [v]) == if ps == [] then v else (Dot(|ps|, ps) + v) / 2.0
  {
    hide Dot, Weight;
    DotUnfold(|ps| + 1, ps, v);
    NewestWeight(|ps| + 1);
    DotHalves(|ps|, ps);
  }

  /**
   * For every list of values: the stored average is 0 exactly when none was positive, and
   * otherwise it is the convex combination of the positive ones with halving weights, so
   * it lies between their least and their greatest.
   */
  lemma {:induction false} SmoothIsConvex(vs: seq<real>)
    ensures Smooth(vs) == Dot(|Positives(vs)|, Positives(vs))
    ensures Smooth(vs) == 0.0 <==> Positives(vs) == []
    ensures Positives(vs) != [] ==> Within(Smooth(vs), Positives(vs)) && Smooth(vs) > 0.0
  {
    hide Dot;
    if vs != [] {
      var rest, v := Init(vs), Last(vs);
      SmoothIsConvex(rest);
      var ps := Positives(rest);
      if v > 0.0 {
        DotSnoc(ps, v);
        if ps == [] {
          assert v in ps + [v];
        } else {
          WithinMidpoint(Smooth(rest), ps, v);
        }
      }
    }
  }

  /** The graph's averaging is the table's. */
  lemma {:induction false} GraphSmoothIsSmooth(vs: seq<real>)
    ensures GraphSmooth(vs) == Smooth(vs)
  {
    if vs != [] { GraphSmoothIsSmooth(Init(vs)); }
  }
}
