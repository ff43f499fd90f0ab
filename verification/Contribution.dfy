/** `attribution.compute_contribution`: how far a dimension's values spread around their
    sample-weighted mean expectancy, kept squared (a variance) so that no root is taken. */
module Contribution {
  import opened PyStrings
  import opened DimensionStats

  /** A value's sample size and mean R multiple. */
  datatype Weighted = Weighted(n: nat, mean: real)

  /** Σ n */
  function Size(ws: seq<Weighted>): nat {
    if ws == [] then 0 else Size(ws[..|ws| - 1]) + ws[|ws| - 1].n
  }

  /** Σ n·mean */
  function Mass(ws: seq<Weighted>): real {
    if ws == [] then 0.0 else Mass(ws[..|ws| - 1]) + ws[|ws| - 1].n as real * ws[|ws| - 1].mean
  }

  /** n·(mean - c)² */
  function Term(w: Weighted, c: real): real {
    w.n as real * Square(w.mean - c)
  }

  function Square(x: real): real { x * x }

  function Spread(ws: seq<Weighted>, c: real): real {
    if ws == [] then 0.0 else Spread(ws[..|ws| - 1], c) + Term(ws[|ws| - 1], c)
  }

  function Mean(ws: seq<Weighted>): real
    requires Size(ws) > 0
  {
    Mass(ws) / Size(ws) as real
  }

  /** The squared contribution: the weighted variance. */
  function Variance(ws: seq<Weighted>): real
    requires Size(ws) > 0
  {
    Spread(ws, Mean(ws)) / Size(ws) as real
  }

  predicate IsUsable(s: Stats) { s.count > 0 && s.expectancy.Some? }

  /** The values that count: a positive sample and an expectancy. */
  function Usable(values: seq<Stats>): (ws: seq<Weighted>)
    ensures forall i :: 0 <= i < |ws| ==> ws[i].n > 0
  {
    if values == [] then []
    else
      var s := values[|values| - 1];
      Usable(values[..|values| - 1]) + if IsUsable(s) then [Weighted(s.count, s.expectancy.value)] else []
  }

  function Contribution(values: seq<Stats>, cfg: Config): Option<real> {
    var ws := Usable(values);
    if Size(ws) == 0 || Size(ws) < cfg.minDimension then None else Some(Variance(ws))
  }

  lemma Snoc(ws: seq<Weighted>, w: Weighted, c: real)
    ensures Size(ws + [w]) == Size(ws) + w.n
    ensures Mass(ws + [w]) == Mass(ws) + w.n as real * w.mean
    ensures Spread(ws + [w], c) == Spread(ws, c) + Term(w, c)
  {
    assert (ws + [w])[..|ws|] == ws;
  }

  method UsableOf(values: seq<Stats>) returns (weighted: seq<Weighted>, totalN: nat)
    ensures weighted == Usable(values) && totalN == Size(weighted)
  {
    hide Size;
    weighted, totalN := [], 0;
    EmptySums();
    for i := 0 to |values|
      invariant weighted == Usable(values[..i]) && totalN == Size(weighted)
    {
      assert values[..i + 1][..i] == values[..i];
      if values[i].count <= 0 || values[i].expectancy.None? {
        continue;
      }
      var w := Weighted(values[i].count, values[i].expectancy.value);
      Snoc(weighted, w, 0.0);
      weighted := weighted + [w];
      totalN := totalN + w.n;
    }
    assert values[..|values|] == values;
  }

  method SumMass(weighted: seq<Weighted>) returns (mass: real)
    ensures mass == Mass(weighted)
  {
    mass := 0.0;
    for i := 0 to |weighted|
      invariant mass == Mass(weighted[..i])
    {
      assert weighted[..i + 1] == weighted[..i] + [weighted[i]];
      mass := mass + weighted[i].n as real * weighted[i].mean;
    }
    assert weighted[..|weighted|] == weighted;
  }

  method SumSpread(weighted: seq<Weighted>, mu: real) returns (spread: real)
    ensures spread == Spread(weighted, mu)
  {
    spread := 0.0;
    for i := 0 to |weighted|
      invariant spread == Spread(weighted[..i], mu)
    {
      assert weighted[..i + 1] == weighted[..i] + [weighted[i]];
      var off := weighted[i].mean - mu;
      spread := spread + weighted[i].n as real * (off * off);
    }
    assert weighted[..|weighted|] == weighted;
  }

  /** `compute_contribution` */
  method ComputeContribution(values: seq<Stats>, cfg: Config) returns (r: Option<real>)
    ensures r == Contribution(values, cfg)
  {
    hide Size, Mass, Spread;
    var weighted, totalN := UsableOf(values);
    if totalN <= 0 || totalN < cfg.minDimension {
      return None;
    }
    var mass := SumMass(weighted);
    var mu := mass / totalN as real;
    var spread := SumSpread(weighted, mu);
    var variance := spread / totalN as real;
    VarianceNonNegative(weighted);
    if variance < 0.0 {
      variance := 0.0;
    }
    return Some(variance);
  }

  lemma EmptySums()
    ensures Size([]) == 0 && Mass([]) == 0.0 && forall c :: Spread([], c) == 0.0
  {
  }

  // ── Laws ─────────────────────────────────────────────────────────────────

  lemma Product(n: real, y: real)
    requires n >= 0.0 && y >= 0.0
    ensures n * y >= 0.0
    ensures n > 0.0 && y > 0.0 ==> n * y > 0.0
  {
  }

  lemma Positive(x: real, y: real, product: real)
    requires x > 0.0 && y > 0.0 && product == x * y
    ensures product > 0.0
  {
  }

  lemma SquareSign(x: real)
    ensures Square(x) >= 0.0 && (x != 0.0 ==> Square(x) > 0.0)
  {
    if x > 0.0 {
      Positive(x, x, Square(x));
    } else if x < 0.0 {
      Positive(-x, -x, Square(x));
    }
  }

  lemma TermSign(w: Weighted, c: real)
    ensures Term(w, c) >= 0.0
    ensures w.mean == c ==> Term(w, c) == 0.0
    ensures w.n > 0 && w.mean != c ==> Term(w, c) > 0.0
  {
    assert Square(0.0) == 0.0;
    hide Square;
    SquareSign(w.mean - c);
    Product(w.n as real, Square(w.mean - c));
  }

  lemma {:induction false} SpreadNonNegative(ws: seq<Weighted>, c: real)
    ensures Spread(ws, c) >= 0.0
  {
    if ws != [] {
      SpreadNonNegative(ws[..|ws| - 1], c);
      TermSign(ws[|ws| - 1], c);
    }
  }

  lemma VarianceNonNegative(ws: seq<Weighted>)
    requires Size(ws) > 0
    ensures Variance(ws) >= 0.0
  {
    hide Size, Mass, Spread;
    SpreadNonNegative(ws, Mean(ws));
    Quotient(Spread(ws, Mean(ws)), Size(ws) as real);
  }

  /** Spread about one centre, told from the spread about another. */
  lemma {:induction false} Recentre(ws: seq<Weighted>, c: real, e: real)
    ensures Spread(ws, c) ==
            Spread(ws, e) + 2.0 * (e - c) * (Mass(ws) - Size(ws) as real * e) + Size(ws) as real * ((c - e) * (c - e))
  {
    hide Size, Mass, Spread, Term;
    if ws == [] {
      EmptySums();
    } else {
      var w, init := ws[|ws| - 1], ws[..|ws| - 1];
      Recentre(init, c, e);
      assert ws == init + [w];
      Snoc(init, w, c);
      Snoc(init, w, e);
      TermRecentre(w, c, e);
      var m, mass, n := w.n as real * w.mean, Mass(init), Size(init) as real;
      Gather(n, w.n as real, e, (c - e) * (c - e));
      Distribute(2.0 * (e - c), mass - n * e, m - w.n as real * e);
    }
  }

  lemma TermRecentre(w: Weighted, c: real, e: real)
    ensures var n := w.n as real;
            Term(w, c) == Term(w, e) + 2.0 * (e - c) * (n * w.mean - n * e) + n * ((c - e) * (c - e))
  {
    var m := w.mean;
    assert (m - c) * (m - c) == (m - e) * (m - e) + 2.0 * (e - c) * (m - e) + (c - e) * (c - e);
  }

  lemma Distribute(k: real, a: real, b: real)
    ensures k * (a + b) == k * a + k * b
  {
  }

  lemma Gather(a: real, b: real, e: real, q: real)
    ensures (a + b) * e == a * e + b * e && (a + b) * q == a * q + b * q
  {
  }

  lemma MassIs(ws: seq<Weighted>)
    requires Size(ws) > 0
    ensures Mass(ws) == Size(ws) as real * Mean(ws)
  {
    hide Size, Mass;
    Quotient(Mass(ws), Size(ws) as real);
  }

  /** About the mean the spread is least, and any other centre adds exactly its distance squared. */
  lemma SpreadAbout(ws: seq<Weighted>, c: real)
    requires Size(ws) > 0
    ensures Spread(ws, c) == Spread(ws, Mean(ws)) + Term(Weighted(Size(ws), Mean(ws)), c)
  {
    hide Size, Mass, Spread, Mean;
    Recentre(ws, c, Mean(ws));
    MassIs(ws);
  }

  lemma {:induction false} SpreadZero(ws: seq<Weighted>, c: real)
    requires forall i :: 0 <= i < |ws| ==> ws[i].n > 0
    ensures Spread(ws, c) == 0.0 <==> forall i :: 0 <= i < |ws| ==> ws[i].mean == c
  {
    hide Term;
    if ws != [] {
      var n := |ws| - 1;
      SpreadZero(ws[..n], c);
      SpreadNonNegative(ws[..n], c);
      TermSign(ws[n], c);
      assert ws == ws[..n] + [ws[n]];
    }
  }

  /** The contribution is zero exactly when all usable values share one expectancy. */
  lemma ZeroIffEqual(values: seq<Stats>, cfg: Config)
    requires Contribution(values, cfg).Some?
    ensures Contribution(values, cfg).value == 0.0 <==> OneExpectancy(values)
  {
    hide Size, Mass, Spread, Mean;
    var ws := Usable(values);
    var n := Size(ws) as real;
    SpreadNonNegative(ws, Mean(ws));
    Quotient(Spread(ws, Mean(ws)), n);
    EqualIffSame(values);
    if OneMean(ws) {
      SizePositive(ws);
      var e := ws[0].mean;
      SpreadZero(ws, e);
      SpreadAbout(ws, e);
      TermSign(Weighted(Size(ws), Mean(ws)), e);
    }
    SpreadZero(ws, Mean(ws));
  }

  lemma SizePositive(ws: seq<Weighted>)
    ensures Size(ws) > 0 ==> ws != []
  {
  }

  lemma {:induction false} UsableAre(values: seq<Stats>)
    ensures forall i :: 0 <= i < |values| && IsUsable(values[i]) ==>
              Weighted(values[i].count, values[i].expectancy.value) in Usable(values)
    ensures forall w :: w in Usable(values) ==>
              exists i :: 0 <= i < |values| && IsUsable(values[i]) &&
                       w == Weighted(values[i].count, values[i].expectancy.value)
  {
    if values != [] {
      var n := |values| - 1;
      UsableAre(values[..n]);
      assert values == values[..n] + [values[n]];
    }
  }

  /** All usable values share one expectancy. */
  predicate OneExpectancy(values: seq<Stats>) {
    forall i, j :: 0 <= i < |values| && 0 <= j < |values| && IsUsable(values[i]) && IsUsable(values[j]) ==>
      values[i].expectancy == values[j].expectancy
  }

  predicate OneMean(ws: seq<Weighted>) {
    forall i, j :: 0 <= i < |ws| && 0 <= j < |ws| ==> ws[i].mean == ws[j].mean
  }

  lemma EqualIffSame(values: seq<Stats>)
    ensures OneExpectancy(values) <==> OneMean(Usable(values))
  {
    hide Usable;
    UsableAre(values);
    var ws := Usable(values);
    if OneExpectancy(values) {
      forall i, j | 0 <= i < |ws| && 0 <= j < |ws|
        ensures ws[i].mean == ws[j].mean
      {
        assert ws[i] in ws && ws[j] in ws;
      }
    }
    if OneMean(ws) {
      forall i, j | 0 <= i < |values| && 0 <= j < |values| && IsUsable(values[i]) && IsUsable(values[j])
        ensures values[i].expectancy == values[j].expectancy
      {
        var a, b := Weighted(values[i].count, values[i].expectancy.value),
                    Weighted(values[j].count, values[j].expectancy.value);
        assert a in ws && b in ws;
      }
    }
  }

  lemma {:induction false} SpreadWithin(ws: seq<Weighted>, c: real, h: real)
    requires h >= 0.0 && forall i :: 0 <= i < |ws| ==> c - h <= ws[i].mean <= c + h
    ensures Spread(ws, c) <= Size(ws) as real * (h * h)
  {
    hide Term;
    if ws != [] {
      var n := |ws| - 1;
      SpreadWithin(ws[..n], c, h);
      TermWithin(ws[n], c, h);
      Gather(Size(ws[..n]) as real, ws[n].n as real, 0.0, h * h);
    }
  }

  lemma TermWithin(w: Weighted, c: real, h: real)
    requires c - h <= w.mean <= c + h
    ensures Term(w, c) <= w.n as real * (h * h)
  {
    var x := w.mean - c;
    assert h * h - x * x == (h - x) * (h + x);
    Product(h - x, h + x);
    Product(w.n as real, h * h - x * x);
    assert w.n as real * (h * h - x * x) == w.n as real * (h * h) - w.n as real * (x * x);
  }

  lemma VarianceBound(ws: seq<Weighted>, lo: real, hi: real)
    requires Size(ws) > 0 && forall i :: 0 <= i < |ws| ==> lo <= ws[i].mean <= hi
    ensures Variance(ws) <= ((hi - lo) / 2.0) * ((hi - lo) / 2.0)
  {
    hide Size, Mass, Spread, Mean;
    SizePositive(ws);
    var c, h := (lo + hi) / 2.0, (hi - lo) / 2.0;
    assert lo <= ws[0].mean <= hi;
    SpreadWithin(ws, c, h);
    SpreadAbout(ws, c);
    TermSign(Weighted(Size(ws), Mean(ws)), c);
    QuotientBound(Spread(ws, Mean(ws)), Size(ws) as real, h * h);
  }

  /** Popoviciu's bound: usable expectancies between `lo` and `hi` give a contribution of at most
      half their distance. */
  lemma AtMostHalfTheRange(values: seq<Stats>, cfg: Config, lo: real, hi: real)
    requires Contribution(values, cfg).Some?
    requires forall i :: 0 <= i < |values| && IsUsable(values[i]) ==> lo <= values[i].expectancy.value <= hi
    ensures Contribution(values, cfg).value <= ((hi - lo) / 2.0) * ((hi - lo) / 2.0)
  {
    hide Size, Usable, Variance;
    UsableAre(values);
    var ws := Usable(values);
    forall i | 0 <= i < |ws|
      ensures lo <= ws[i].mean <= hi
    {
      assert ws[i] in ws;
    }
    VarianceBound(ws, lo, hi);
  }

  lemma QuotientBound(a: real, n: real, b: real)
    requires n > 0.0 && a <= n * b
    ensures a / n <= b
  {
    assert (b - a / n) * n == n * b - a;
  }

  function Shifted(ws: seq<Weighted>, t: real): (r: seq<Weighted>)
    ensures |r| == |ws| && forall i :: 0 <= i < |r| ==> r[i] == Weighted(ws[i].n, ws[i].mean + t)
  {
    seq(|ws|, i requires 0 <= i < |ws| => Weighted(ws[i].n, ws[i].mean + t))
  }

  lemma {:induction false} ShiftedSums(ws: seq<Weighted>, t: real, c: real)
    ensures Size(Shifted(ws, t)) == Size(ws)
    ensures Mass(Shifted(ws, t)) == Mass(ws) + Size(ws) as real * t
    ensures Spread(Shifted(ws, t), c + t) == Spread(ws, c)
  {
    hide Term;
    if ws != [] {
      var n := |ws| - 1;
      ShiftedSums(ws[..n], t, c);
      assert Shifted(ws, t)[..n] == Shifted(ws[..n], t);
      var w := ws[n];
      Distribute(w.n as real, w.mean, t);
      Gather(Size(ws[..n]) as real, w.n as real, t, t);
      TermShift(w, t, c);
    }
  }

  lemma TermShift(w: Weighted, t: real, c: real)
    ensures Term(Weighted(w.n, w.mean + t), c + t) == Term(w, c)
  {
    assert (w.mean + t) - (c + t) == w.mean - c;
  }

  /** Only differences between expectancies matter. */
  lemma ShiftInvariant(ws: seq<Weighted>, t: real)
    requires Size(ws) > 0
    ensures Size(Shifted(ws, t)) == Size(ws) && Variance(Shifted(ws, t)) == Variance(ws)
  {
    hide Size, Mass, Spread, Shifted;
    ShiftedSums(ws, t, Mean(ws));
    var n := Size(ws) as real;
    MeanShift(Mass(ws), n, t);
    assert Mean(Shifted(ws, t)) == Mean(ws) + t;
  }

  lemma MeanShift(a: real, n: real, t: real)
    requires n > 0.0
    ensures (a + n * t) / n == a / n + t
  {
    assert (a / n) * n == a;
    assert (a / n + t) * n == a + n * t;
  }

  lemma {:induction false} SumsJoin(a: seq<Weighted>, b: seq<Weighted>, c: real)
    ensures Size(a + b) == Size(a) + Size(b) && Mass(a + b) == Mass(a) + Mass(b)
    ensures Spread(a + b, c) == Spread(a, c) + Spread(b, c)
  {
    hide Size, Mass, Spread, Term;
    if b == [] {
      EmptySums();
      assert a + b == a;
    } else {
      var n := |b| - 1;
      SumsJoin(a, b[..n], c);
      Snoc(b[..n], b[n], c);
      assert a + b == (a + b[..n]) + [b[n]];
      assert b == b[..n] + [b[n]];
      Snoc(a + b[..n], b[n], c);
    }
  }

  /** Splitting one value in two with the same mean leaves the contribution as it was. */
  lemma SplitInvariant(a: seq<Weighted>, n1: nat, n2: nat, m: real, b: seq<Weighted>)
    requires Size(a + [Weighted(n1 + n2, m)] + b) > 0
    ensures var whole, split := a + [Weighted(n1 + n2, m)] + b, a + [Weighted(n1, m), Weighted(n2, m)] + b;
            Size(split) == Size(whole) && Variance(split) == Variance(whole)
  {
    hide Size, Mass, Spread;
    SplitSums(a, n1, n2, m, b, 0.0);
    var whole := a + [Weighted(n1 + n2, m)] + b;
    SplitSums(a, n1, n2, m, b, Mean(whole));
  }

  lemma SplitSums(a: seq<Weighted>, n1: nat, n2: nat, m: real, b: seq<Weighted>, c: real)
    ensures var whole, split := a + [Weighted(n1 + n2, m)] + b, a + [Weighted(n1, m), Weighted(n2, m)] + b;
            Size(split) == Size(whole) && Mass(split) == Mass(whole) && Spread(split, c) == Spread(whole, c)
  {
    hide Size, Mass, Spread;
    var x, y, z := Weighted(n1 + n2, m), Weighted(n1, m), Weighted(n2, m);
    SumsJoin(a + [x], b, c);
    Snoc(a, x, c);
    SumsJoin(a + [y, z], b, c);
    assert a + [y, z] == (a + [y]) + [z];
    Snoc(a + [y], z, c);
    Snoc(a, y, c);
    Gather(n1 as real, n2 as real, m, (m - c) * (m - c));
  }

  lemma Without(init: seq<Weighted>, w: Weighted, a: seq<Weighted>, b: seq<Weighted>)
    requires multiset(init + [w]) == multiset(a + [w] + b)
    ensures multiset(init) == multiset(a + b)
  {
    assert multiset(init + [w]) == multiset(init) + multiset{w};
    assert multiset(a + [w] + b) == multiset(a) + multiset{w} + multiset(b);
    assert multiset(init) == multiset(init + [w]) - multiset{w};
    assert multiset(a + b) == multiset(a + [w] + b) - multiset{w};
  }

  /** The sums do not depend on the order of the values. */
  lemma {:induction false} SumsReordered(ws: seq<Weighted>, vs: seq<Weighted>, c: real)
    requires multiset(ws) == multiset(vs)
    ensures Size(ws) == Size(vs) && Mass(ws) == Mass(vs) && Spread(ws, c) == Spread(vs, c)
  {
    hide Size, Mass, Spread;
    if ws == [] {
      assert |multiset(vs)| == 0;
      assert vs == [];
    } else {
      var init, w := ws[..|ws| - 1], ws[|ws| - 1];
      assert ws == init + [w];
      assert w in multiset(vs);
      var i :| 0 <= i < |vs| && vs[i] == w;
      var a, b := vs[..i], vs[i + 1..];
      assert vs == a + [w] + b;
      Without(init, w, a, b);
      SumsReordered(init, a + b, c);
      Snoc(init, w, c);
      SumsJoin(a + [w], b, c);
      SumsJoin(a, b, c);
      Snoc(a, w, c);
    }
  }

  /** The order in which values are listed does not matter. */
  lemma OrderIgnored(ws: seq<Weighted>, vs: seq<Weighted>)
    requires multiset(ws) == multiset(vs) && Size(ws) > 0
    ensures Size(vs) == Size(ws) && Variance(vs) == Variance(ws)
  {
    hide Size, Mass, Spread;
    SumsReordered(ws, vs, 0.0);
    SumsReordered(ws, vs, Mean(ws));
  }

  /** Σ n·n'·(mean - mean')² over all pairs of values. */
  function PairSum(ws: seq<Weighted>): real {
    if ws == [] then 0.0
    else
      var w := ws[|ws| - 1];
      PairSum(ws[..|ws| - 1]) + w.n as real * Spread(ws[..|ws| - 1], w.mean)
  }

  lemma {:induction false} PairSumIs(ws: seq<Weighted>)
    ensures PairSum(ws) == Size(ws) as real * Spread(ws, 0.0) - Mass(ws) * Mass(ws)
  {
    hide Size, Mass, Spread, Term;
    if ws == [] {
      EmptySums();
    } else {
      var init, w := ws[..|ws| - 1], ws[|ws| - 1];
      PairSumIs(init);
      assert ws == init + [w];
      Snoc(init, w, 0.0);
      Recentre(init, w.mean, 0.0);
      TermAtZero(w);
      PairStep(Size(init) as real, Spread(init, 0.0), Mass(init), w.n as real, w.mean);
    }
  }

  lemma TermAtZero(w: Weighted)
    ensures Term(w, 0.0) == w.n as real * (w.mean * w.mean)
  {
    assert w.mean - 0.0 == w.mean;
  }

  lemma PairStep(size: real, spread: real, mass: real, n: real, m: real)
    ensures (size + n) * (spread + n * (m * m)) - (mass + n * m) * (mass + n * m) ==
            size * spread - mass * mass
            + n * (spread + 2.0 * (0.0 - m) * (mass - size * 0.0) + size * ((m - 0.0) * (m - 0.0)))
  {
  }

  /** The contribution told without a mean: its square, times the square of the sample size, is the sum over
      all pairs of values of the squared difference of their expectancies, weighted by both sample sizes. */
  lemma PairwiseForm(ws: seq<Weighted>)
    requires Size(ws) > 0
    ensures Variance(ws) * (Size(ws) as real * Size(ws) as real) == PairSum(ws)
  {
    hide Size, Mass, Spread;
    var n, mu := Size(ws) as real, Mean(ws);
    PairSumIs(ws);
    MassIs(ws);
    Recentre(ws, mu, 0.0);
    Quotient(Spread(ws, mu), n);
    PairScale(Variance(ws), n, Spread(ws, 0.0), Mass(ws), mu);
  }

  lemma PairScale(v: real, n: real, spread: real, mass: real, mu: real)
    requires mass == n * mu
    requires v * n == spread + 2.0 * (0.0 - mu) * (mass - n * 0.0) + n * ((mu - 0.0) * (mu - 0.0))
    ensures v * (n * n) == n * spread - mass * mass
  {
    assert v * (n * n) == (v * n) * n;
    assert mu * mass * n == mass * mass && n * (mu * mu) * n == mass * mass;
  }

  /** No contribution is reported exactly below the sample gate, which is at least one trade whatever
      the setting says. */
  lemma NoneBelowGate(values: seq<Stats>, cfg: Config)
    ensures Contribution(values, cfg).None? <==> UsableCount(values) == 0 || UsableCount(values) < cfg.minDimension
  {
    hide Size;
    UsableSize(values);
  }

  /** The scored trades behind the usable values. */
  function UsableCount(values: seq<Stats>): nat {
    if values == [] then 0
    else
      var s := values[|values| - 1];
      UsableCount(values[..|values| - 1]) + if IsUsable(s) then s.count else 0
  }

  lemma {:induction false} UsableSize(values: seq<Stats>)
    ensures Size(Usable(values)) == UsableCount(values)
  {
    hide Size;
    if values == [] {
      EmptySums();
    } else {
      var init, s := values[..|values| - 1], values[|values| - 1];
      UsableSize(init);
      assert Usable(init) + [] == Usable(init);
      if IsUsable(s) {
        Snoc(Usable(init), Weighted(s.count, s.expectancy.value), 0.0);
      }
    }
  }
}
