/** `attribution.compute_dimension_stats`: one pass over the journal rows that tallies resolved
    trades per dimension and value, checked against a plain group-by. Sums are real numbers, so
    the rounding of rates to four decimals does not appear. */
module DimensionStats {
  import opened PyStrings
  import opened Fingerprint

  /** A journal row: the texts of `status` and `source` ("" when falsy), and the R multiple when
      it is a finite number. */
  datatype Row = Row(status: string, r: Option<real>, source: string, key: Option<string>)

  datatype Config = Config(minDimension: int, minValue: int, threshold: real, globalMin: int, factor: real)

  predicate Won(row: Row) { Lower(Strip(row.status)) == "win" }

  predicate Lost(row: Row) { Lower(Strip(row.status)) == "loss" }

  /** `is_scored_trade` */
  predicate Scored(row: Row) { (Won(row) || Lost(row)) && row.r.Some? }

  predicate Backtested(row: Row) { Lower(Strip(row.source)) == "backtest" }

  /** What the texts of a row are read as: blanks around them and capitals do not count. */
  lemma RowTexts(row: Row)
    ensures Won(row) <==> exists w :: IsCore(w, row.status) && Lower(w) == "win"
    ensures Scored(row) <==>
            row.r.Some? && exists w :: IsCore(w, row.status) && (Lower(w) == "win" || Lower(w) == "loss")
    ensures Backtested(row) <==> exists w :: IsCore(w, row.source) && Lower(w) == "backtest"
  {
    hide StripIf, Lower;
    StripIsCore(row.status);
    StripIsCore(row.source);
    forall w | IsCore(w, row.status)
      ensures w == Strip(row.status)
    {
      CoreIsStrip(w, row.status);
    }
    forall w | IsCore(w, row.source)
      ensures w == Strip(row.source)
    {
      CoreIsStrip(w, row.source);
    }
  }

  // ── The group-by ─────────────────────────────────────────────────────────

  function Value(tags: seq<Tag>, dimension: string): Option<string> {
    var k := IndexOf(tags, dimension);
    if k < |tags| then Some(tags[k].value) else None
  }

  /** The value a scored row carries for a dimension. */
  function ValueOf(row: Row, dimension: string): Option<string> {
    if Scored(row) then Value(Parsed(row.key), dimension) else None
  }

  /** The scored rows that carry the dimension with one of the values. */
  function Carrying(rows: seq<Row>, dimension: string, values: set<string>): (r: seq<Row>)
    ensures |r| <= |rows| && forall i :: 0 <= i < |r| ==> Scored(r[i])
  {
    if rows == [] then []
    else
      var n := |rows| - 1;
      var v := ValueOf(rows[n], dimension);
      Carrying(rows[..n], dimension, values) + if v.Some? && v.value in values then [rows[n]] else []
  }

  /** The scored rows that carry the dimension at all. */
  function CarryingAny(rows: seq<Row>, dimension: string): seq<Row> {
    if rows == [] then []
    else
      var n := |rows| - 1;
      CarryingAny(rows[..n], dimension) + if ValueOf(rows[n], dimension).Some? then [rows[n]] else []
  }

  function Wins(rows: seq<Row>): (n: nat)
    ensures n <= |rows|
  {
    if rows == [] then 0 else Wins(rows[..|rows| - 1]) + if Won(rows[|rows| - 1]) then 1 else 0
  }

  function Backtests(rows: seq<Row>): (n: nat)
    ensures n <= |rows|
  {
    if rows == [] then 0 else Backtests(rows[..|rows| - 1]) + if Backtested(rows[|rows| - 1]) then 1 else 0
  }

  function WonAt(rows: seq<Row>): set<nat> { set i | 0 <= i < |rows| && Won(rows[i]) }

  function BacktestedAt(rows: seq<Row>): set<nat> { set i | 0 <= i < |rows| && Backtested(rows[i]) }

  /** The counters count. */
  lemma {:induction false} CountersCount(rows: seq<Row>)
    ensures Wins(rows) == |WonAt(rows)| && Backtests(rows) == |BacktestedAt(rows)|
  {
    hide WonAt, BacktestedAt;
    if rows == [] {
      NoneAt();
    } else {
      CountersCount(rows[..|rows| - 1]);
      WonAtLast(rows);
      BacktestedAtLast(rows);
    }
  }

  lemma NoneAt()
    ensures WonAt([]) == {} && BacktestedAt([]) == {}
  {
  }

  lemma WonAtLast(rows: seq<Row>)
    requires rows != []
    ensures var n := |rows| - 1;
            n !in WonAt(rows[..n]) && WonAt(rows) == WonAt(rows[..n]) + if Won(rows[n]) then {n} else {}
  {
    hide Won;
  }

  lemma BacktestedAtLast(rows: seq<Row>)
    requires rows != []
    ensures var n := |rows| - 1;
            && n !in BacktestedAt(rows[..n])
            && BacktestedAt(rows) == BacktestedAt(rows[..n]) + if Backtested(rows[n]) then {n} else {}
  {
    hide Backtested;
  }

  function TotalR(rows: seq<Row>): real
    requires forall i :: 0 <= i < |rows| ==> rows[i].r.Some?
  {
    if rows == [] then 0.0 else TotalR(rows[..|rows| - 1]) + rows[|rows| - 1].r.value
  }

  datatype Bucket = Bucket(wins: nat, losses: nat, rSum: real, backtest: nat, live: nat)

  const EMPTY := Bucket(0, 0, 0.0, 0, 0)

  /** What a bucket must hold for a group of scored rows. */
  function Tally(rows: seq<Row>): Bucket
    requires forall i :: 0 <= i < |rows| ==> rows[i].r.Some?
  {
    Bucket(Wins(rows), |rows| - Wins(rows), TotalR(rows), Backtests(rows), |rows| - Backtests(rows))
  }

  // ── The pass ─────────────────────────────────────────────────────────────

  type Buckets = map<string, map<string, Bucket>>

  predicate Has(acc: Buckets, d: string, v: string) { d in acc && v in acc[d] }

  function At(acc: Buckets, d: string, v: string): Bucket {
    if Has(acc, d, v) then acc[d][v] else EMPTY
  }

  function Add(b: Bucket, row: Row): Bucket
    requires row.r.Some?
  {
    Bucket(
      b.wins + if Won(row) then 1 else 0, b.losses + if Won(row) then 0 else 1, b.rSum + row.r.value,
      b.backtest + if Backtested(row) then 1 else 0, b.live + if Backtested(row) then 0 else 1)
  }

  lemma TallyAdd(rows: seq<Row>, row: Row)
    requires row.r.Some? && forall i :: 0 <= i < |rows| ==> rows[i].r.Some?
    ensures Tally(rows + [row]) == Add(Tally(rows), row)
  {
    assert (rows + [row])[..|rows|] == rows;
  }

  lemma ValueIs(tags: seq<Tag>, d: string, v: string)
    requires DistinctTags(tags)
    ensures Value(tags, d) == Some(v) <==> Tag(d, v) in tags
  {
    if Tag(d, v) in tags {
      var i :| 0 <= i < |tags| && tags[i] == Tag(d, v);
      assert IndexOf(tags, d) == i;
    }
  }

  /** One tag of one row: `setdefault` twice, then the bucket's counters. */
  method Count(acc: Buckets, tag: Tag, row: Row) returns (r: Buckets)
    requires Scored(row)
    ensures forall d :: d in r <==> d in acc || d == tag.dimension
    ensures forall d, v :: Has(r, d, v) <==> Has(acc, d, v) || Tag(d, v) == tag
    ensures forall d, v :: At(r, d, v) == if Tag(d, v) == tag then Add(At(acc, d, v), row) else At(acc, d, v)
  {
    hide Won, Lost, Backtested;
    r := acc;
    var d, v := tag.dimension, tag.value;
    if d !in r {
      r := r[d := map[]];
    }
    if v !in r[d] {
      r := r[d := r[d][v := EMPTY]];
    }
    var b := r[d][v];
    b := if Won(row) then b.(wins := b.wins + 1) else b.(losses := b.losses + 1);
    b := b.(rSum := b.rSum + row.r.value);
    b := if Backtested(row) then b.(backtest := b.backtest + 1) else b.(live := b.live + 1);
    r := r[d := r[d][v := b]];
  }

  /** All tags of one row. */
  method CountRow(acc: Buckets, row: Row) returns (r: Buckets)
    requires Scored(row)
    ensures forall d :: d in r <==> d in acc || ValueOf(row, d).Some?
    ensures forall d, v :: Has(r, d, v) <==> Has(acc, d, v) || ValueOf(row, d) == Some(v)
    ensures forall d, v :: At(r, d, v) ==
              if ValueOf(row, d) == Some(v) then Add(At(acc, d, v), row) else At(acc, d, v)
  {
    hide Scored, Add, At, Has, Parsed;
    var tags := ParseSetupKey(row.key);
    ScoredHasR(row);
    r := acc;
    for i := 0 to |tags|
      invariant forall d :: d in r <==> d in acc || exists j :: 0 <= j < i && tags[j].dimension == d
      invariant forall d, v :: Has(r, d, v) <==> Has(acc, d, v) || Tag(d, v) in tags[..i]
      invariant forall d, v :: At(r, d, v) ==
                  if Tag(d, v) in tags[..i] then Add(At(acc, d, v), row) else At(acc, d, v)
    {
      assert tags[..i + 1] == tags[..i] + [tags[i]];
      assert tags[i] !in tags[..i];
      r := Count(r, tags[i], row);
    }
    assert tags[..|tags|] == tags;
    forall d, v
      ensures Tag(d, v) in tags <==> ValueOf(row, d) == Some(v)
    {
      ValueIs(tags, d, v);
    }
  }

  /** The buckets hold the group-by of the rows: an entry per group that has a row, and no other. */
  ghost predicate Grouped(acc: Buckets, rows: seq<Row>) {
    && (forall d :: d in acc <==> CarryingAny(rows, d) != [])
    && (forall d, v :: Has(acc, d, v) <==> Carrying(rows, d, {v}) != [])
    && (forall d, v :: At(acc, d, v) == Tally(Carrying(rows, d, {v})))
  }

  lemma GroupedStep(acc: Buckets, rows: seq<Row>, row: Row, r: Buckets)
    requires Grouped(acc, rows)
    requires forall d :: d in r <==> d in acc || ValueOf(row, d).Some?
    requires forall d, v :: Has(r, d, v) <==> Has(acc, d, v) || ValueOf(row, d) == Some(v)
    requires forall d, v :: ValueOf(row, d) == Some(v) ==> row.r.Some?
    requires forall d, v :: At(r, d, v) ==
               if ValueOf(row, d) == Some(v) then Add(At(acc, d, v), row) else At(acc, d, v)
    ensures Grouped(r, rows + [row])
  {
    hide Has, At, Add, Tally, ValueOf;
    assert (rows + [row])[..|rows|] == rows;
    forall d, v
      ensures At(r, d, v) == Tally(Carrying(rows + [row], d, {v}))
      ensures Has(r, d, v) <==> Carrying(rows + [row], d, {v}) != []
    {
      if ValueOf(row, d) == Some(v) {
        TallyAdd(Carrying(rows, d, {v}), row);
      } else {
        assert Carrying(rows + [row], d, {v}) == Carrying(rows, d, {v});
      }
    }
  }

  method Tallies(rows: seq<Row>) returns (acc: Buckets)
    ensures Grouped(acc, rows)
  {
    hide Scored, Add, At, Has;
    acc := map[];
    EmptyGrouped();
    for i := 0 to |rows|
      invariant Grouped(acc, rows[..i])
    {
      assert rows[..i + 1] == rows[..i] + [rows[i]];
      var next := acc;
      if Scored(rows[i]) {
        next := CountRow(acc, rows[i]);
        ScoredHasR(rows[i]);
      }
      GroupedStep(acc, rows[..i], rows[i], next);
      acc := next;
    }
    assert rows[..|rows|] == rows;
  }

  lemma EmptyGrouped()
    ensures Grouped(map[], [])
  {
  }

  lemma ScoredHasR(row: Row)
    requires Scored(row)
    ensures row.r.Some?
  {
  }

  // ── The statistics ───────────────────────────────────────────────────────

  datatype Stats = Stats(
    value: string, count: nat, wins: nat, losses: nat, winRate: Option<real>, expectancy: Option<real>,
    weakPrior: bool, backtest: nat, live: nat)

  function StatsOf(value: string, b: Bucket, cfg: Config): Stats {
    var count := b.wins + b.losses;
    Stats(
      value, count, b.wins, b.losses,
      if count == 0 then None else Some(b.wins as real / count as real),
      if count == 0 then None else Some(b.rSum / count as real),
      count < cfg.minValue, b.backtest, b.live)
  }

  /** The statistics of every group of rows. */
  ghost predicate StatsAre(stats: map<string, map<string, Stats>>, rows: seq<Row>, cfg: Config) {
    && (forall d :: d in stats <==> CarryingAny(rows, d) != [])
    && (forall d, v :: d in stats ==> (v in stats[d] <==> Carrying(rows, d, {v}) != []))
    && (forall d, v :: d in stats && v in stats[d] ==> StatsFit(stats[d][v], v, Carrying(rows, d, {v}), cfg))
  }

  /** `s` describes `group`, the rows that share the value. */
  predicate StatsFit(s: Stats, value: string, group: seq<Row>, cfg: Config)
    requires forall i :: 0 <= i < |group| ==> group[i].r.Some?
  {
    && s.value == value
    && s.count == s.wins + s.losses == s.backtest + s.live == |group|
    && s.wins == Wins(group) && s.backtest == Backtests(group)
    && s.winRate.Some? && 0.0 <= s.winRate.value <= 1.0 && s.winRate.value * s.count as real == s.wins as real
    && s.expectancy.Some? && s.expectancy.value * s.count as real == TotalR(group)
    && (s.weakPrior <==> s.count < cfg.minValue)
  }

  lemma Quotient(a: real, n: real)
    requires n > 0.0
    ensures (a / n) * n == a && (0.0 <= a <= n ==> 0.0 <= a / n <= 1.0)
  {
  }

  lemma StatsOfFits(value: string, group: seq<Row>, cfg: Config)
    requires group != [] && forall i :: 0 <= i < |group| ==> group[i].r.Some?
    ensures StatsFit(StatsOf(value, Tally(group), cfg), value, group, cfg)
  {
    hide Wins, Backtests, TotalR;
    Quotient(Wins(group) as real, |group| as real);
    Quotient(TotalR(group), |group| as real);
  }

  /** `compute_dimension_stats` */
  method ComputeDimensionStats(rows: seq<Row>, cfg: Config) returns (stats: map<string, map<string, Stats>>)
    ensures StatsAre(stats, rows, cfg)
  {
    hide StatsOf, StatsFit, Tally;
    var acc := Tallies(rows);
    stats := map d | d in acc :: map v | v in acc[d] :: StatsOf(v, acc[d][v], cfg);
    forall d, v | d in stats && v in stats[d]
      ensures StatsFit(stats[d][v], v, Carrying(rows, d, {v}), cfg)
    {
      assert Has(acc, d, v) && At(acc, d, v) == acc[d][v];
      StatsOfFits(v, Carrying(rows, d, {v}), cfg);
    }
    forall d, v | d in stats
      ensures v in stats[d] <==> Carrying(rows, d, {v}) != []
    {
      assert v in stats[d] <==> Has(acc, d, v);
    }
  }

  // ── Totals ───────────────────────────────────────────────────────────────

  predicate Distinct(ks: seq<string>) {
    forall i, j :: 0 <= i < j < |ks| ==> ks[i] != ks[j]
  }

  function Counted(rows: seq<Row>, d: string, ks: seq<string>): nat {
    if ks == [] then 0
    else Counted(rows, d, ks[..|ks| - 1]) + |Carrying(rows, d, {ks[|ks| - 1]})|
  }

  lemma {:induction false} CarryingOneMore(rows: seq<Row>, d: string, vs: set<string>, v: string)
    requires v !in vs
    ensures |Carrying(rows, d, vs + {v})| == |Carrying(rows, d, vs)| + |Carrying(rows, d, {v})|
  {
    hide ValueOf;
    if rows != [] {
      CarryingOneMore(rows[..|rows| - 1], d, vs, v);
    }
  }

  function Names(ks: seq<string>): set<string> { set k | k in ks }

  lemma NamesSnoc(ks: seq<string>)
    requires ks != [] && Distinct(ks)
    ensures var n := |ks| - 1; Names(ks) == Names(ks[..n]) + {ks[n]} && ks[n] !in Names(ks[..n]) && Distinct(ks[..n])
  {
    assert ks == ks[..|ks| - 1] + [ks[|ks| - 1]];
  }

  lemma {:induction false} CountedTogether(rows: seq<Row>, d: string, ks: seq<string>)
    requires Distinct(ks)
    ensures Counted(rows, d, ks) == |Carrying(rows, d, Names(ks))|
  {
    hide Carrying, Names, Distinct;
    if ks == [] {
      CarryingNone(rows, d);
      assert Names([]) == {} by { NoNames(); }
    } else {
      var n := |ks| - 1;
      NamesSnoc(ks);
      CountedTogether(rows, d, ks[..n]);
      CarryingOneMore(rows, d, Names(ks[..n]), ks[n]);
    }
  }

  lemma InNames(ks: seq<string>)
    ensures forall k :: k in ks <==> k in Names(ks)
  {
  }

  lemma NoNames()
    ensures Names([]) == {}
  {
  }

  lemma {:induction false} CarryingNone(rows: seq<Row>, d: string)
    ensures Carrying(rows, d, {}) == []
  {
    if rows != [] {
      CarryingNone(rows[..|rows| - 1], d);
    }
  }

  lemma {:induction false} CarryingAll(rows: seq<Row>, d: string, vs: set<string>)
    requires forall v :: Carrying(rows, d, {v}) != [] ==> v in vs
    ensures Carrying(rows, d, vs) == CarryingAny(rows, d)
  {
    hide ValueOf;
    if rows != [] {
      CarryingAll(rows[..|rows| - 1], d, vs);
    }
  }

  /** The backtest trades among the counted ones. */
  function CountedBacktests(rows: seq<Row>, d: string, ks: seq<string>): nat {
    if ks == [] then 0
    else CountedBacktests(rows, d, ks[..|ks| - 1]) + Backtests(Carrying(rows, d, {ks[|ks| - 1]}))
  }

  lemma BacktestsMaybe(rows: seq<Row>, row: Row, more: bool)
    ensures Backtests(rows + if more then [row] else []) == Backtests(rows) + if more && Backtested(row) then 1 else 0
  {
    if more {
      assert (rows + [row])[..|rows|] == rows;
    } else {
      assert rows + [] == rows;
    }
  }

  lemma {:induction false} BacktestsOneMore(rows: seq<Row>, d: string, vs: set<string>, v: string)
    requires v !in vs
    ensures Backtests(Carrying(rows, d, vs + {v})) ==
                Backtests(Carrying(rows, d, vs)) + Backtests(Carrying(rows, d, {v}))
  {
    hide ValueOf, Backtests, Backtested;
    if rows == [] {
      BacktestsNone();
    } else {
      var init, row := rows[..|rows| - 1], rows[|rows| - 1];
      var value := ValueOf(row, d);
      BacktestsOneMore(init, d, vs, v);
      BacktestsMaybe(Carrying(init, d, vs + {v}), row, value.Some? && value.value in vs + {v});
      BacktestsMaybe(Carrying(init, d, vs), row, value.Some? && value.value in vs);
      BacktestsMaybe(Carrying(init, d, {v}), row, value.Some? && value.value in {v});
    }
  }

  lemma BacktestsNone()
    ensures Backtests([]) == 0
  {
  }

  lemma {:induction false} BacktestsTogether(rows: seq<Row>, d: string, ks: seq<string>)
    requires Distinct(ks)
    ensures CountedBacktests(rows, d, ks) == Backtests(Carrying(rows, d, Names(ks)))
  {
    hide Carrying, Names, Distinct, Backtests;
    if ks == [] {
      CarryingNone(rows, d);
      BacktestsNone();
      assert Names([]) == {} by { NoNames(); }
    } else {
      var n := |ks| - 1;
      NamesSnoc(ks);
      BacktestsTogether(rows, d, ks[..n]);
      BacktestsOneMore(rows, d, Names(ks[..n]), ks[n]);
    }
  }

  /** Counting per value counts every scored row that carries the dimension exactly once, and so for
      the backtest trades among them. */
  lemma ValuesPartition(rows: seq<Row>, d: string, ks: seq<string>)
    requires Distinct(ks) && forall v :: v in ks <==> Carrying(rows, d, {v}) != []
    ensures Counted(rows, d, ks) == |CarryingAny(rows, d)|
    ensures CountedBacktests(rows, d, ks) == Backtests(CarryingAny(rows, d))
  {
    hide Carrying, CarryingAny, Backtests, Counted, CountedBacktests;
    InNames(ks);
    BacktestsTogether(rows, d, ks);
    CountedTogether(rows, d, ks);
    CarryingAll(rows, d, Names(ks));
  }
}
