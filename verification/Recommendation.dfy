/** `attribution.rank_and_recommend`, `build_attribution_report` and `derive_weight_map`: one ranked
    recommendation per dimension, and the conviction weight it stands for. */
module Recommendation {
  import opened PyStrings
  import opened DimensionStats
  import opened Contribution

  datatype Advice = Keep | DownWeight | InsufficientSample

  datatype Entry = Entry(
    dimension: string, values: seq<Stats>, total: nat, backtest: nat, live: nat,
    contribution: Option<real>, rank: nat, advice: Advice)

  /** `contribution < threshold` in terms of the squared contribution. */
  predicate Below(variance: real, threshold: real) {
    threshold > 0.0 && variance < threshold * threshold
  }

  function Advise(total: nat, contribution: Option<real>, cfg: Config): Advice {
    if total < cfg.minDimension || contribution.None? then InsufficientSample
    else if Below(contribution.value, cfg.threshold) then DownWeight
    else Keep
  }

  /** What the advice rests on, told from the contribution `c` itself (its square is what is kept): too few
      trades to say, kept from the threshold up, and given less weight below it. */
  lemma AdviceMeans(total: nat, c: real, cfg: Config)
    requires c >= 0.0
    ensures var advice := Advise(total, Some(Square(c)), cfg);
            && (advice == InsufficientSample <==> total < cfg.minDimension)
            && (advice == DownWeight <==> total >= cfg.minDimension && c < cfg.threshold)
            && (advice == Keep <==> total >= cfg.minDimension && c >= cfg.threshold)
    ensures Advise(total, None, cfg) == InsufficientSample
  {
    if cfg.threshold > 0.0 {
      SquareOrder(c, cfg.threshold);
    }
  }

  lemma SquareOrder(a: real, b: real)
    requires a >= 0.0 && b > 0.0
    ensures Square(a) < b * b <==> a < b
  {
    assert b * b - a * a == (b - a) * (b + a);
    if a < b {
      Positive(b - a, b + a, (b - a) * (b + a));
    } else {
      Product(a - b, a + b);
      assert (a - b) * (a + b) == 0.0 - (b - a) * (b + a);
    }
  }

  /** A dimension with enough trades whose values do not differ is given less weight. */
  lemma FlatIsDownWeighted(values: seq<Stats>, total: nat, cfg: Config)
    requires total >= cfg.minDimension && cfg.threshold > 0.0
    requires Contribution.Contribution(values, cfg).Some? && OneExpectancy(values)
    ensures Advise(total, Contribution.Contribution(values, cfg), cfg) == DownWeight
  {
    hide Contribution.Contribution, OneExpectancy;
    ZeroIffEqual(values, cfg);
    Positive(cfg.threshold, cfg.threshold, cfg.threshold * cfg.threshold);
  }

  // ── Value order ──────────────────────────────────────────────────────────

  predicate Ascending(ks: seq<string>) {
    forall i, j :: 0 <= i < j < |ks| ==> Less(ks[i], ks[j])
  }

  /** The keys of a dict in name order, `sorted(d.keys())`. */
  method SortedKeys<T>(m: map<string, T>) returns (ks: seq<string>)
    ensures Ascending(ks) && forall k :: k in ks <==> k in m
  {
    ks := [];
    var left := m.Keys;
    while left != {}
      invariant left <= m.Keys && Ascending(ks)
      invariant forall k :: k in ks <==> k in m && k !in left
    {
      var k :| k in left;
      ks := Insert(ks, k);
      left := left - {k};
    }
  }

  method Insert(ks: seq<string>, k: string) returns (r: seq<string>)
    requires Ascending(ks) && k !in ks
    ensures Ascending(r) && forall x :: x in r <==> x in ks || x == k
  {
    hide Less;
    var i := 0;
    while i < |ks| && Less(ks[i], k)
      invariant i <= |ks| && forall j :: 0 <= j < i ==> Less(ks[j], k)
    {
      i := i + 1;
    }
    r := ks[..i] + [k] + ks[i..];
    forall j | i <= j < |ks|
      ensures Less(k, ks[j])
    {
      LessTotal(ks[i], k);
      if i < j {
        LessTransitive(k, ks[i], ks[j]);
      }
    }
  }

  // ── One dimension ────────────────────────────────────────────────────────

  function Totals(values: seq<Stats>): (t: (nat, nat, nat)) {
    if values == [] then (0, 0, 0)
    else
      var t, s := Totals(values[..|values| - 1]), values[|values| - 1];
      (t.0 + s.count, t.1 + s.backtest, t.2 + s.live)
  }

  /** The statistics of one dimension, keyed by the value they describe. */
  predicate Keyed(valueStats: map<string, Stats>) {
    forall v :: v in valueStats ==> valueStats[v].value == v
  }

  predicate InOrder(values: seq<Stats>) {
    forall i, j :: 0 <= i < j < |values| ==> Less(values[i].value, values[j].value)
  }

  /** `values` lists the dict in name order. */
  predicate Lists(values: seq<Stats>, valueStats: map<string, Stats>) {
    && InOrder(values)
    && (forall i :: 0 <= i < |values| ==> values[i].value in valueStats && values[i] == valueStats[values[i].value])
    && (forall v :: v in valueStats ==> valueStats[v] in values)
  }

  /** What an entry says about its dimension, whatever its rank. */
  predicate Reports(e: Entry, valueStats: map<string, Stats>, cfg: Config) {
    && Lists(e.values, valueStats)
    && (e.total, e.backtest, e.live) == Totals(e.values)
    && e.contribution == Contribution.Contribution(e.values, cfg)
    && e.advice == Advise(e.total, e.contribution, cfg)
  }

  lemma TotalsSnoc(values: seq<Stats>, s: Stats)
    ensures var t := Totals(values); Totals(values + [s]) == (t.0 + s.count, t.1 + s.backtest, t.2 + s.live)
  {
    assert (values + [s])[..|values|] == values;
  }

  lemma NoTotals()
    ensures Totals([]) == (0, 0, 0)
  {
  }

  method Collect(valueStats: map<string, Stats>)
    returns (values: seq<Stats>, total: nat, backtest: nat, live: nat)
    requires Keyed(valueStats)
    ensures Lists(values, valueStats) && (total, backtest, live) == Totals(values)
  {
    hide Less, Totals, Keyed, Lists;
    var ks := SortedKeys(valueStats);
    values := [];
    NoTotals();
    total, backtest, live := 0, 0, 0;
    for i := 0 to |ks|
      invariant |values| == i && forall j :: 0 <= j < i ==> values[j] == valueStats[ks[j]]
      invariant (total, backtest, live) == Totals(values)
    {
      var s := valueStats[ks[i]];
      TotalsSnoc(values, s);
      values := values + [s];
      total, backtest, live := total + s.count, backtest + s.backtest, live + s.live;
    }
    ListedInOrder(ks, values, valueStats);
  }

  lemma ListedInOrder(ks: seq<string>, values: seq<Stats>, valueStats: map<string, Stats>)
    requires Keyed(valueStats) && Ascending(ks) && forall k :: k in ks <==> k in valueStats
    requires |values| == |ks| && forall j :: 0 <= j < |ks| ==> values[j] == valueStats[ks[j]]
    ensures Lists(values, valueStats)
  {
    hide Less;
    forall j | 0 <= j < |ks|
      ensures values[j].value == ks[j]
    {
    }
    forall v | v in valueStats
      ensures valueStats[v] in values
    {
      var j :| 0 <= j < |ks| && ks[j] == v;
      assert values[j] == valueStats[v];
    }
  }

  method ReportOn(dimension: string, valueStats: map<string, Stats>, cfg: Config) returns (e: Entry)
    requires Keyed(valueStats)
    ensures e.dimension == dimension && Reports(e, valueStats, cfg)
  {
    hide Lists, Keyed, Totals, Contribution.Contribution, Below;
    var values, total, backtest, live := Collect(valueStats);
    var contribution := ComputeContribution(values, cfg);
    var advice;
    if total < cfg.minDimension {
      advice := InsufficientSample;
    } else if contribution.None? {
      advice := InsufficientSample;
    } else if Below(contribution.value, cfg.threshold) {
      advice := DownWeight;
    } else {
      advice := Keep;
    }
    return Entry(dimension, values, total, backtest, live, contribution, 0, advice);
  }

  // ── Ranking ──────────────────────────────────────────────────────────────

  /** Higher contribution first, missing ones last, ties by name. */
  predicate Before(a: Entry, b: Entry) {
    match (a.contribution, b.contribution)
    case (Some(x), Some(y)) => x > y || (x == y && Less(a.dimension, b.dimension))
    case (Some(_), None) => true
    case (None, Some(_)) => false
    case (None, None) => Less(a.dimension, b.dimension)
  }

  lemma BeforeIsOrder(a: Entry, b: Entry, c: Entry)
    ensures a.dimension != b.dimension ==> Before(a, b) != Before(b, a)
    ensures Before(a, b) && Before(b, c) ==> Before(a, c)
    ensures !Before(a, a)
  {
    LessTotal(a.dimension, b.dimension);
    LessTotal(a.dimension, a.dimension);
    if Less(a.dimension, b.dimension) && Less(b.dimension, c.dimension) {
      LessTransitive(a.dimension, b.dimension, c.dimension);
    }
  }

  predicate Ranked(es: seq<Entry>) {
    forall i, j :: 0 <= i < j < |es| ==> Before(es[i], es[j])
  }

  /** Of two ranked entries the first has the higher contribution, or the same and the smaller name; those
      without one come last, by name. */
  lemma BestFirst(es: seq<Entry>, i: nat, j: nat)
    requires Ranked(es) && i < j < |es|
    ensures es[j].contribution.Some? ==>
              es[i].contribution.Some? && es[i].contribution.value >= es[j].contribution.value
    ensures es[i].contribution == es[j].contribution ==> Precedes(es[i].dimension, es[j].dimension)
  {
    hide Less;
    assert Before(es[i], es[j]);
    LessMeans(es[i].dimension, es[j].dimension);
  }

  method Place(es: seq<Entry>, e: Entry) returns (r: seq<Entry>, ghost at: nat)
    requires Ranked(es) && forall i :: 0 <= i < |es| ==> es[i].dimension != e.dimension
    ensures Ranked(r) && at <= |es| && r == es[..at] + [e] + es[at..]
  {
    hide Before;
    var i := 0;
    while i < |es| && Before(es[i], e)
      invariant i <= |es| && forall j :: 0 <= j < i ==> Before(es[j], e)
    {
      i := i + 1;
    }
    at := i;
    r := es[..i] + [e] + es[i..];
    forall j | i <= j < |es|
      ensures Before(e, es[j])
    {
      BeforeIsOrder(es[i], e, es[j]);
      BeforeIsOrder(e, es[i], es[j]);
    }
  }

  /** An entry for one of the dimensions `ds`. */
  predicate Fits(e: Entry, stats: map<string, map<string, Stats>>, ds: set<string>, cfg: Config) {
    e.dimension in ds && e.dimension in stats && Reports(e, stats[e.dimension], cfg)
  }

  function Dimensions(es: seq<Entry>): (r: seq<string>)
    ensures |r| == |es| && forall i :: 0 <= i < |r| ==> r[i] == es[i].dimension
  {
    seq(|es|, i requires 0 <= i < |es| => es[i].dimension)
  }

  /** Each of the dimensions `ds` reported once. */
  ghost predicate Covers(es: seq<Entry>, stats: map<string, map<string, Stats>>, ds: set<string>, cfg: Config) {
    && |es| == |ds|
    && (forall i :: 0 <= i < |es| ==> Fits(es[i], stats, ds, cfg))
    && (forall d :: d in ds ==> d in Dimensions(es))
  }

  method PlaceAll(stats: map<string, map<string, Stats>>, cfg: Config) returns (es: seq<Entry>)
    requires forall d :: d in stats ==> Keyed(stats[d])
    ensures Covers(es, stats, stats.Keys, cfg) && Ranked(es)
  {
    hide Before, Reports, Keyed, Covers;
    es := [];
    var left := stats.Keys;
    ghost var done: set<string> := {};
    CoversNone(stats, cfg);
    while left != {}
      invariant left + done == stats.Keys && left !! done
      invariant Covers(es, stats, done, cfg) && Ranked(es)
    {
      var d :| d in left;
      var e := ReportOn(d, stats[d], cfg);
      CoversOnly(es, stats, done, cfg);
      ghost var before := es;
      ghost var at;
      es, at := Place(es, e);
      left := left - {d};
      CoversOneMore(before, at, stats, done, e, cfg);
      done := done + {d};
    }
  }

  lemma CoversNone(stats: map<string, map<string, Stats>>, cfg: Config)
    ensures Covers([], stats, {}, cfg)
  {
  }

  lemma CoversOnly(es: seq<Entry>, stats: map<string, map<string, Stats>>, ds: set<string>, cfg: Config)
    requires Covers(es, stats, ds, cfg)
    ensures forall i :: 0 <= i < |es| ==> es[i].dimension in ds
  {
    hide Reports;
  }

  lemma DimensionsJoin(es: seq<Entry>, at: nat, e: Entry)
    requires at <= |es|
    ensures forall d :: d in Dimensions(es) || d == e.dimension ==> d in Dimensions(es[..at] + [e] + es[at..])
  {
    var all := es[..at] + [e] + es[at..];
    forall d | d in Dimensions(es) || d == e.dimension
      ensures d in Dimensions(all)
    {
      if d == e.dimension {
        assert Dimensions(all)[at] == d;
      } else {
        var i :| 0 <= i < |es| && Dimensions(es)[i] == d;
        assert Dimensions(all)[if i < at then i else i + 1] == d;
      }
    }
  }

  lemma CoversOneMore(es: seq<Entry>, at: nat, stats: map<string, map<string, Stats>>,
          ds: set<string>, e: Entry, cfg: Config)
    requires Covers(es, stats, ds, cfg) && e.dimension !in ds && at <= |es|
    requires e.dimension in stats && Reports(e, stats[e.dimension], cfg)
    ensures Covers(es[..at] + [e] + es[at..], stats, ds + {e.dimension}, cfg)
  {
    hide Reports, Dimensions;
    DimensionsJoin(es, at, e);
    forall i | 0 <= i < |es|
      ensures Fits(es[i], stats, ds + {e.dimension}, cfg)
    {
      assert Fits(es[i], stats, ds, cfg);
    }
    hide Fits;
    assert Fits(e, stats, ds + {e.dimension}, cfg) by { FitsNew(e, stats, ds, cfg); }
  }

  lemma FitsNew(e: Entry, stats: map<string, map<string, Stats>>, ds: set<string>, cfg: Config)
    requires e.dimension in stats && Reports(e, stats[e.dimension], cfg)
    ensures Fits(e, stats, ds + {e.dimension}, cfg)
  {
  }

  method AssignRanks(es: seq<Entry>) returns (r: seq<Entry>)
    ensures |r| == |es| && forall j :: 0 <= j < |es| ==> r[j] == es[j].(rank := j + 1)
  {
    r := es;
    for i := 0 to |es|
      invariant |r| == |es|
      invariant forall j :: 0 <= j < |es| ==> r[j] == if j < i then es[j].(rank := j + 1) else es[j]
    {
      r := r[i := r[i].(rank := i + 1)];
    }
  }

  lemma AnyRank(e: Entry, rank: nat, valueStats: map<string, Stats>, cfg: Config)
    ensures Reports(e.(rank := rank), valueStats, cfg) == Reports(e, valueStats, cfg)
  {
  }

  lemma CoversKeeps(es: seq<Entry>, es': seq<Entry>, stats: map<string, map<string, Stats>>, cfg: Config)
    requires Covers(es, stats, stats.Keys, cfg)
    requires |es'| == |es| && forall j :: 0 <= j < |es| ==> es'[j] == es[j].(rank := j + 1)
    ensures Covers(es', stats, stats.Keys, cfg)
  {
    hide Reports, Dimensions;
    assert Dimensions(es') == Dimensions(es);
    forall i | 0 <= i < |es'|
      ensures Fits(es'[i], stats, stats.Keys, cfg)
    {
      assert Fits(es[i], stats, stats.Keys, cfg);
      AnyRank(es[i], i + 1, stats[es[i].dimension], cfg);
    }
  }

  lemma RankedKeeps(es: seq<Entry>, es': seq<Entry>)
    requires Ranked(es) && |es'| == |es| && forall j :: 0 <= j < |es| ==> es'[j] == es[j].(rank := j + 1)
    ensures Ranked(es')
  {
    hide Less;
    forall i, j | 0 <= i < j < |es'|
      ensures Before(es'[i], es'[j])
    {
      assert Before(es[i], es[j]);
    }
  }

  /** `rank_and_recommend`: every dimension once, best first, ranks 1..N in that order. */
  method RankAndRecommend(stats: map<string, map<string, Stats>>, cfg: Config) returns (reports: seq<Entry>)
    requires forall d :: d in stats ==> Keyed(stats[d])
    ensures Covers(reports, stats, stats.Keys, cfg) && Ranked(reports)
    ensures forall i :: 0 <= i < |reports| ==> reports[i].rank == i + 1
  {
    hide Covers, Ranked, Keyed;
    var placed := PlaceAll(stats, cfg);
    reports := AssignRanks(placed);
    CoversKeeps(placed, reports, stats, cfg);
    RankedKeeps(placed, reports);
  }
}
