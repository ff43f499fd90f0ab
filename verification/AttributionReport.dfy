/** `attribution.build_attribution_report` and `derive_weight_map`, end to end: what the report and
    the weights say about the journal rows they came from. */
module AttributionReport {
  import opened PyStrings
  import opened DimensionStats
  import opened Contribution
  import opened Recommendation

  datatype Report = Report(
    dimensions: seq<Entry>, total: nat, backtest: nat, live: nat, weakPrior: bool, insufficientData: bool)

  function ScoredRows(rows: seq<Row>): seq<Row> {
    if rows == [] then []
    else ScoredRows(rows[..|rows| - 1]) + if Scored(rows[|rows| - 1]) then [rows[|rows| - 1]] else []
  }

  function NameList(values: seq<Stats>): (ks: seq<string>)
    ensures |ks| == |values| && forall i :: 0 <= i < |ks| ==> ks[i] == values[i].value
  {
    seq(|values|, i requires 0 <= i < |values| => values[i].value)
  }

  /** An entry describes exactly the scored rows that carry its dimension. */
  ghost predicate EntryFits(e: Entry, rows: seq<Row>, cfg: Config) {
    && e.total == |CarryingAny(rows, e.dimension)| == e.backtest + e.live
    && e.backtest == Backtests(CarryingAny(rows, e.dimension))
    && e.total > 0
    && InOrder(e.values) && (forall v :: v in NameList(e.values) <==> Carrying(rows, e.dimension, {v}) != [])
    && (forall i :: 0 <= i < |e.values| ==>
          StatsFit(e.values[i], e.values[i].value, Carrying(rows, e.dimension, {e.values[i].value}), cfg))
    && e.contribution == Contribution.Contribution(e.values, cfg)
    && (e.contribution.None? <==> e.total < cfg.minDimension)
    && e.advice == Advise(e.total, e.contribution, cfg)
  }

  ghost predicate ReportFits(r: Report, rows: seq<Row>, cfg: Config) {
    && r.total == |ScoredRows(rows)| == r.backtest + r.live && r.backtest == Backtests(ScoredRows(rows))
    && (r.insufficientData <==> r.total == 0)
    && (r.weakPrior <==> r.total < cfg.globalMin)
    && Ranked(r.dimensions)
    && (forall i :: 0 <= i < |r.dimensions| ==> r.dimensions[i].rank == i + 1 && EntryFits(r.dimensions[i], rows, cfg))
    && (forall d :: CarryingAny(rows, d) != [] ==> d in Dimensions(r.dimensions))
  }

  // ── From statistics to rows ──────────────────────────────────────────────

  predicate CountsFit(values: seq<Stats>, rows: seq<Row>, d: string) {
    forall i :: 0 <= i < |values| ==>
      && values[i].count == |Carrying(rows, d, {values[i].value})| == values[i].backtest + values[i].live
      && values[i].backtest == Backtests(Carrying(rows, d, {values[i].value}))
      && values[i].count > 0 && values[i].expectancy.Some?
  }

  lemma {:induction false} TotalsCount(values: seq<Stats>, rows: seq<Row>, d: string)
    requires CountsFit(values, rows, d)
    ensures Totals(values).0 == Counted(rows, d, NameList(values))
                == Totals(values).1 + Totals(values).2 == UsableCount(values)
    ensures Totals(values).1 == CountedBacktests(rows, d, NameList(values))
  {
    hide Carrying, Backtests;
    if values != [] {
      var n := |values| - 1;
      TotalsCount(values[..n], rows, d);
      assert NameList(values)[..n] == NameList(values[..n]);
    }
  }

  lemma NameListDistinct(values: seq<Stats>)
    requires InOrder(values)
    ensures Distinct(NameList(values))
  {
    forall i, j | 0 <= i < j < |values|
      ensures values[i].value != values[j].value
    {
      LessTotal(values[i].value, values[j].value);
    }
  }

  lemma ValueFits(values: seq<Stats>, i: nat, stats: map<string, map<string, Stats>>, d: string,
          rows: seq<Row>, cfg: Config)
    requires StatsAre(stats, rows, cfg) && d in stats && Lists(values, stats[d]) && i < |values|
    ensures var group := Carrying(rows, d, {values[i].value});
            group != [] && StatsFit(values[i], values[i].value, group, cfg)
  {
    hide Less, CarryingAny, StatsFit, InOrder;
  }

  lemma ValuesCover(values: seq<Stats>, stats: map<string, map<string, Stats>>, d: string, rows: seq<Row>, cfg: Config)
    requires StatsAre(stats, rows, cfg) && d in stats && Lists(values, stats[d])
    ensures Distinct(NameList(values)) && forall v :: v in NameList(values) <==> Carrying(rows, d, {v}) != []
  {
    hide Less, CarryingAny, Carrying;
    NameListDistinct(values);
    forall v
      ensures v in NameList(values) <==> Carrying(rows, d, {v}) != []
    {
      if v in stats[d] {
        assert StatsFit(stats[d][v], v, Carrying(rows, d, {v}), cfg);
        var i :| 0 <= i < |values| && values[i] == stats[d][v];
        assert NameList(values)[i] == v;
      }
    }
  }

  lemma EntryDescribesRows(e: Entry, stats: map<string, map<string, Stats>>, rows: seq<Row>, cfg: Config)
    requires StatsAre(stats, rows, cfg) && e.dimension in stats && Reports(e, stats[e.dimension], cfg)
    ensures EntryFits(e, rows, cfg)
  {
    hide Contribution.Contribution, Carrying, CarryingAny, Totals, Advise, Counted, CountedBacktests, Backtests, Lists,
      Distinct, StatsAre, Usable, InOrder;
    var d, values := e.dimension, e.values;
    ListsInOrder(values, stats[d]);
    forall i | 0 <= i < |values|
      ensures StatsFit(values[i], values[i].value, Carrying(rows, d, {values[i].value}), cfg)
      ensures Carrying(rows, d, {values[i].value}) != []
    {
      ValueFits(values, i, stats, d, rows, cfg);
    }
    ValuesCover(values, stats, d, rows, cfg);
    TotalsCount(values, rows, d);
    ValuesPartition(rows, d, NameList(values));
    CarriedSomewhere(stats, d, rows, cfg);
    NoneBelowGate(values, cfg);
  }

  lemma ListsInOrder(values: seq<Stats>, valueStats: map<string, Stats>)
    requires Lists(values, valueStats)
    ensures InOrder(values)
  {
  }

  lemma CarriedSomewhere(stats: map<string, map<string, Stats>>, d: string, rows: seq<Row>, cfg: Config)
    requires StatsAre(stats, rows, cfg) && d in stats
    ensures CarryingAny(rows, d) != []
  {
  }

  lemma {:induction false} NothingScored(rows: seq<Row>, d: string)
    requires ScoredRows(rows) == []
    ensures CarryingAny(rows, d) == []
  {
    if rows != [] {
      NothingScored(rows[..|rows| - 1], d);
    }
  }

  /** `build_attribution_report` */
  method BuildReport(rows: seq<Row>, cfg: Config) returns (report: Report)
    ensures ReportFits(report, rows, cfg)
  {
    hide EntryFits, Reports, CarryingAny, StatsAre, Keyed, Ranked;
    var total, backtest, live := CountScored(rows);
    var dimensions: seq<Entry> := [];
    assert Ranked([]) by { NoneRanked(); }
    if total != 0 {
      var stats := ComputeDimensionStats(rows, cfg);
      StatsKeyed(stats, rows, cfg);
      dimensions := RankAndRecommend(stats, cfg);
      AllDescribeRows(dimensions, stats, rows, cfg);
    } else {
      forall d
        ensures CarryingAny(rows, d) == []
      {
        NothingScored(rows, d);
      }
    }
    report := Report(dimensions, total, backtest, live, total < cfg.globalMin, total == 0);
  }

  lemma NoneRanked()
    ensures Ranked([])
  {
  }

  lemma StatsKeyed(stats: map<string, map<string, Stats>>, rows: seq<Row>, cfg: Config)
    requires StatsAre(stats, rows, cfg)
    ensures forall d :: d in stats ==> Keyed(stats[d])
  {
    hide CarryingAny, Carrying;
    forall d, v | d in stats && v in stats[d]
      ensures stats[d][v].value == v
    {
      assert StatsFit(stats[d][v], v, Carrying(rows, d, {v}), cfg);
    }
  }

  lemma AllDescribeRows(es: seq<Entry>, stats: map<string, map<string, Stats>>, rows: seq<Row>, cfg: Config)
    requires StatsAre(stats, rows, cfg) && Covers(es, stats, stats.Keys, cfg)
    ensures forall i :: 0 <= i < |es| ==> EntryFits(es[i], rows, cfg)
    ensures forall d :: CarryingAny(rows, d) != [] ==> d in Dimensions(es)
  {
    hide EntryFits, Reports, CarryingAny, Carrying, StatsFit, Dimensions;
    forall i | 0 <= i < |es|
      ensures EntryFits(es[i], rows, cfg)
    {
      assert Fits(es[i], stats, stats.Keys, cfg);
      EntryDescribesRows(es[i], stats, rows, cfg);
    }
  }

  method CountScored(rows: seq<Row>) returns (total: nat, backtest: nat, live: nat)
    ensures total == |ScoredRows(rows)| == backtest + live && backtest == Backtests(ScoredRows(rows))
  {
    hide Scored, Backtested;
    total, backtest, live := 0, 0, 0;
    for i := 0 to |rows|
      invariant total == |ScoredRows(rows[..i])| == backtest + live && backtest == Backtests(ScoredRows(rows[..i]))
    {
      assert rows[..i + 1][..i] == rows[..i];
      ghost var sofar := ScoredRows(rows[..i]);
      assert (sofar + [rows[i]])[..|sofar|] == sofar && sofar + [] == sofar;
      if !Scored(rows[i]) {
        continue;
      }
      total := total + 1;
      if Backtested(rows[i]) {
        backtest := backtest + 1;
      } else {
        live := live + 1;
      }
    }
    assert rows[..|rows|] == rows;
  }

  // ── Weights ──────────────────────────────────────────────────────────────

  const DEFAULT_FACTOR: real := 0.5

  function Factor(cfg: Config): (f: real)
    ensures 0.0 < f <= 1.0
  {
    if cfg.factor <= 0.0 || cfg.factor > 1.0 then DEFAULT_FACTOR else cfg.factor
  }

  function Weight(advice: Advice, cfg: Config): (w: real)
    ensures 0.0 < w <= 1.0
  {
    if advice == DownWeight then Factor(cfg) else 1.0
  }

  /** `w` gives every listed dimension the weight its last entry advises, and nothing else. */
  ghost predicate WeightsAre(w: map<string, real>, es: seq<Entry>, cfg: Config) {
    && (forall e :: e in es ==> e.dimension in w)
    && (forall d :: d in w ==> exists e :: e in es && e.dimension == d && w[d] == Weight(e.advice, cfg))
  }

  /** `derive_weight_map` */
  method DeriveWeightMap(es: seq<Entry>, cfg: Config) returns (w: map<string, real>)
    ensures WeightsAre(w, es, cfg)
    ensures forall d :: d in w ==> 0.0 < w[d] <= 1.0
  {
    var factor := cfg.factor;
    if factor <= 0.0 || factor > 1.0 {
      factor := DEFAULT_FACTOR;
    }
    w := map[];
    for i := 0 to |es|
      invariant WeightsAre(w, es[..i], cfg)
    {
      assert es[..i + 1] == es[..i] + [es[i]];
      var weight := if es[i].advice == DownWeight then factor else 1.0;
      ghost var before := w;
      w := w[es[i].dimension := weight];
      forall d | d in w
        ensures exists e :: e in es[..i + 1] && e.dimension == d && w[d] == Weight(e.advice, cfg)
      {
        if d == es[i].dimension {
          assert es[i] in es[..i + 1];
        } else {
          var e :| e in es[..i] && e.dimension == d && before[d] == Weight(e.advice, cfg);
        }
      }
    }
    assert es[..|es|] == es;
  }

  /** The entry's dimension has enough rows, and its values differ too little. */
  predicate Discounted(e: Entry, rows: seq<Row>, cfg: Config) {
    && |CarryingAny(rows, e.dimension)| >= cfg.minDimension && e.contribution.Some?
    && cfg.threshold > 0.0 && e.contribution.value < cfg.threshold * cfg.threshold
  }

  /** What an entry advises and weighs, told from the rows and the contribution. */
  lemma EntryAdvises(e: Entry, rows: seq<Row>, cfg: Config)
    requires EntryFits(e, rows, cfg)
    ensures e.advice == InsufficientSample <==> |CarryingAny(rows, e.dimension)| < cfg.minDimension
    ensures e.advice == DownWeight <==> Discounted(e, rows, cfg)
    ensures Weight(e.advice, cfg) ==
            if !Discounted(e, rows, cfg) then 1.0
            else if 0.0 < cfg.factor <= 1.0 then cfg.factor else 0.5
  {
    hide Carrying, CarryingAny, Contribution.Contribution;
  }

  /** `x` is the weight of dimension `d`, by its entry `e`. */
  ghost predicate Weighs(e: Entry, d: string, x: real, rows: seq<Row>, cfg: Config) {
    && EntryFits(e, rows, cfg) && e.dimension == d
    && x == if !Discounted(e, rows, cfg) then 1.0 else if 0.0 < cfg.factor <= 1.0 then cfg.factor else 0.5
  }

  lemma OnlyDownWeightCounts(e: Entry, rows: seq<Row>, cfg: Config)
    requires EntryFits(e, rows, cfg)
    ensures CarryingAny(rows, e.dimension) != []
    ensures Weight(e.advice, cfg) != 1.0 ==> |CarryingAny(rows, e.dimension)| >= cfg.minDimension
  {
    hide Carrying, CarryingAny, Contribution.Contribution;
  }

  /** From journal rows to weights: every dimension some scored row carries gets one, and it is the configured
      factor exactly when at least `min_sample_dimension` scored rows carry the dimension and the contribution
      they give is below the threshold; otherwise it is 1. */
  method WeightsFromRows(rows: seq<Row>, cfg: Config) returns (w: map<string, real>)
    ensures forall d :: d in w <==> CarryingAny(rows, d) != []
    ensures forall d :: d in w ==> 0.0 < w[d] <= 1.0
    ensures forall d :: d in w && w[d] != 1.0 ==> |CarryingAny(rows, d)| >= cfg.minDimension
    ensures forall d :: d in w ==> exists e :: Weighs(e, d, w[d], rows, cfg)
  {
    hide CarryingAny, EntryFits, Weight, Ranked, Discounted;
    var report := BuildReport(rows, cfg);
    var es := report.dimensions;
    w := DeriveWeightMap(es, cfg);
    forall e | e in es
      ensures EntryFits(e, rows, cfg) && CarryingAny(rows, e.dimension) != []
      ensures Weight(e.advice, cfg) != 1.0 ==> |CarryingAny(rows, e.dimension)| >= cfg.minDimension
      ensures Weighs(e, e.dimension, Weight(e.advice, cfg), rows, cfg)
    {
      var i :| 0 <= i < |es| && es[i] == e;
      OnlyDownWeightCounts(e, rows, cfg);
      EntryAdvises(e, rows, cfg);
    }
  }
}
