/** The interpolated percentile of the benchmark.

    Times are exact reals here. A sample is sorted before it is looked at; between two
    ranks the value is interpolated, and where a neighbour is missing there is none. */
module Percentile {
  import opened Options

  predicate Sorted(s: seq<real>) { forall i, j :: 0 <= i <= j < |s| ==> s[i] <= s[j] }

  function Ceil(r: real): int { if r == r.Floor as real then r.Floor else r.Floor + 1 }

  function Blend(a: real, b: real, t: real): real { a + (b - a) * t }

  /** The value at a rank, between the two samples around it; nothing where a sample is
      missing. */
  function AtRank(sorted: seq<real>, rank: real): Option<real> {
    var lo, hi := rank.Floor, Ceil(rank);
    if lo < 0 || hi >= |sorted| then None
    else if lo == hi then Some(sorted[lo])
    else Some(Blend(sorted[lo], sorted[hi], rank - lo as real))
  }

  function Rank(p: real, n: nat): real
    requires n > 0
  {
    p / 100.0 * (n - 1) as real
  }

  function Percentile(sorted: seq<real>, p: real): Option<real> {
    if sorted == [] then None else AtRank(sorted, Rank(p, |sorted|))
  }

  lemma RankGrows(p: real, q: real, n: nat)
    requires 0.0 <= p <= q <= 100.0 && n > 0
    ensures 0.0 <= Rank(p, n) <= Rank(q, n) <= (n - 1) as real
  {
    Part(p / 100.0, q / 100.0, (n - 1) as real);
  }

  lemma Part(a: real, b: real, m: real)
    requires 0.0 <= a <= b <= 1.0 && m >= 0.0
    ensures 0.0 <= a * m <= b * m <= m
  {
    Scaled(0.0, a, m);
    Scaled(a, b, m);
    Scaled(b, 1.0, m);
  }

  lemma Scaled(x: real, y: real, m: real)
    requires x <= y && m >= 0.0
    ensures x * m <= y * m
  {
    assert (y - x) * m >= 0.0;
  }

  /** Between two samples the value lies between them. */
  lemma Between(a: real, b: real, t: real)
    requires a <= b && 0.0 <= t <= 1.0
    ensures a <= a + (b - a) * t <= b
  {
    Scaled(0.0, t, b - a);
    Scaled(t, 1.0, b - a);
    assert (b - a) * t == t * (b - a);
  }

  lemma AtRankIn(s: seq<real>, r: real)
    requires Sorted(s) && 0.0 <= r <= (|s| - 1) as real
    ensures AtRank(s, r).Some?
    ensures s[r.Floor] <= AtRank(s, r).value <= s[Ceil(r)]
  {
    if r.Floor != Ceil(r) {
      Between(s[r.Floor], s[Ceil(r)], r - r.Floor as real);
    }
  }

  lemma SameCell(a: real, b: real, t: real, u: real)
    requires a <= b && t <= u
    ensures a + (b - a) * t <= a + (b - a) * u
  {
    Scaled(t, u, b - a);
    assert (b - a) * t == t * (b - a) && (b - a) * u == u * (b - a);
  }

  /** Growing within one cell and across cells. */
  lemma AtRankGrows(s: seq<real>, q: real, r: real)
    requires Sorted(s) && 0.0 <= q <= r <= (|s| - 1) as real
    ensures AtRank(s, q).Some? && AtRank(s, r).Some? && AtRank(s, q).value <= AtRank(s, r).value
  {
    AtRankIn(s, q);
    AtRankIn(s, r);
    var lo := q.Floor;
    if lo == r.Floor {
      if q != lo as real {
        SameCell(s[lo], s[lo + 1], q - lo as real, r - lo as real);
        assert Ceil(q) == lo + 1 && Ceil(r) == lo + 1;
      } else {
        assert AtRank(s, q).value == s[lo];
      }
    } else {
      assert Ceil(q) <= r.Floor;
      assert s[Ceil(q)] <= s[r.Floor];
    }
  }

  /** Every percentile of a sorted sample exists and grows with `p`, across cells too. */
  lemma Monotone(s: seq<real>, p: real, q: real)
    requires s != [] && Sorted(s) && 0.0 <= p <= q <= 100.0
    ensures Percentile(s, p).Some? && Percentile(s, q).Some?
    ensures Percentile(s, p).value <= Percentile(s, q).value
  {
    RankGrows(p, q, |s|);
    AtRankGrows(s, Rank(p, |s|), Rank(q, |s|));
  }

  lemma Ends(s: seq<real>)
    requires s != []
    ensures Percentile(s, 0.0) == Some(s[0]) && Percentile(s, 100.0) == Some(s[|s| - 1])
  {
    var m := (|s| - 1) as real;
    assert 0.0 / 100.0 * m == 0.0;
    assert 100.0 / 100.0 * m == m;
    assert m.Floor == |s| - 1;
  }

  /** So the reported figures are ordered and lie between the fastest and the slowest run. */
  lemma Reported(s: seq<real>)
    requires s != [] && Sorted(s)
    ensures var p50, p95, p99 := Percentile(s, 50.0), Percentile(s, 95.0), Percentile(s, 99.0);
            && p50.Some? && p95.Some? && p99.Some?
            && s[0] <= p50.value <= p95.value <= p99.value <= s[|s| - 1]
  {
    Ends(s);
    Monotone(s, 0.0, 50.0);
    Monotone(s, 50.0, 95.0);
    Monotone(s, 95.0, 99.0);
    Monotone(s, 99.0, 100.0);
  }

  lemma RankOutside(p: real, n: nat)
    requires n > 1
    ensures p < 0.0 ==> Rank(p, n) < 0.0
    ensures p > 100.0 ==> Rank(p, n) > (n - 1) as real
  {
    var m := (n - 1) as real;
    if p < 0.0 {
      Strictly(p / 100.0, 0.0, m);
    } else if p > 100.0 {
      Strictly(1.0, p / 100.0, m);
    }
  }

  /** A percentile of two or more samples exists exactly from 0 to 100. */
  lemma ExistsIff(s: seq<real>, p: real)
    requires |s| > 1
    ensures Percentile(s, p).Some? <==> 0.0 <= p <= 100.0
  {
    var r := Rank(p, |s|);
    if p < 0.0 || p > 100.0 {
      RankOutside(p, |s|);
    } else {
      RankGrows(p, p, |s|);
    }
    hide Rank;
    if r > (|s| - 1) as real {
      assert Ceil(r) >= |s|;
    }
  }

  lemma Strictly(x: real, y: real, m: real)
    requires x < y && m >= 1.0
    ensures x * m < y * m
  {
    assert (y - x) * m > 0.0;
  }

  lemma RankIs(k: nat, t: real, p: real, n: nat)
    requires n > 1 && p * (n - 1) as real == 100.0 * (k as real + t)
    ensures Rank(p, n) == k as real + t
  {
    var m := (n - 1) as real;
    assert p / 100.0 * m == p * m / 100.0;
  }

  lemma AtRankIs(s: seq<real>, k: nat, t: real)
    requires k + 1 < |s| && 0.0 <= t < 1.0
    ensures AtRank(s, k as real + t) == Some(Blend(s[k], s[k + 1], t))
  {
    var r := k as real + t;
    assert r.Floor == k;
    BlendNone(s[k], s[k + 1]);
    hide Blend;
    assert r - k as real == t;
    if t == 0.0 {
      assert r == k as real;
    } else {
      assert Ceil(r) == k + 1;
    }
  }

  lemma BlendNone(a: real, b: real)
    ensures Blend(a, b, 0.0) == a
  {
  }

  /** So much of the one and the rest of the other. */
  function Mixture(a: real, b: real, t: real): real { (1.0 - t) * a + t * b }

  lemma Mixed(a: real, b: real, t: real)
    ensures Blend(a, b, t) == Mixture(a, b, t)
  {
  }

  /** Between the samples `k` and `k + 1`, a part `t` of the way, the percentile is that mixture of
      the two. */
  lemma Interpolated(s: seq<real>, p: real, k: nat, t: real)
    requires k + 1 < |s| && 0.0 <= t < 1.0 && p * (|s| - 1) as real == 100.0 * (k as real + t)
    ensures Percentile(s, p) == Some(Mixture(s[k], s[k + 1], t))
  {
    RankIs(k, t, p, |s|);
    hide AtRank, Rank, Blend, Mixture;
    AtRankIs(s, k, t);
    Mixed(s[k], s[k + 1], t);
  }
}
