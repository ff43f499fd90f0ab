/** `backtest.generate_and_score` and `_score_signal`: the walk over a candle history that
    emits rule-based signals and scores each against the bars that follow it. */
module Backtest {
  import opened PyStrings

  /** A candle; a field is None where Python's `_is_num` refuses it. */
  datatype Candle = Candle(
    open: Option<real>, high: Option<real>, low: Option<real>, close: Option<real>,
    volume: Option<real>, ts: Option<real>)

  datatype Action = BUY | SELL

  datatype Decision = Decision(action: Action, entry: real, stop: real, target: real)

  /** A classifier's defensibility entry: unavailable, or a label that is adverse
      (unfavorable / misaligned) or not, with whatever else it carries. */
  datatype Label = Unavailable | Label(adverse: bool, detail: int)

  datatype Labels = Labels(regime: Label, rs: Label, forecast: Label, session: Label)

  datatype Status = Win | Loss | Expired

  datatype Outcome = Outcome(status: Status, price: Option<real>, at: Option<real>, r: Option<real>)

  /** The code called but not modelled here: the signal rules, the four classifiers and the
      managed-trade simulator. */
  datatype Rules = Rules(
    signal: (seq<Candle>, real) -> Option<Decision>,
    regime: seq<Candle> -> Label,
    rs: (seq<Candle>, seq<Candle>, Action) -> Label,
    forecast: (seq<Candle>, Action) -> Label,
    session: Option<real> -> Label,
    managed: (Decision, seq<Candle>) -> Option<Outcome>)

  datatype RawConfig = Config(
    lookback: nat, cooldown: int, horizon: int, recordUnresolved: bool,
    regimeGate: bool, rsFilter: bool, forecastFilter: bool, sessionFilter: bool, manage: bool)
  type Config = c: RawConfig | c.lookback >= 1 witness Config(1, 5, 200, false, false, false, false, false, false)

  /** `s[:h]`, negative bounds included. */
  function Take(s: seq<Candle>, h: int): seq<Candle> {
    if h >= |s| then s
    else if h >= 0 then s[..h]
    else if |s| + h >= 0 then s[..|s| + h]
    else []
  }

  function Abs(x: real): real {
    if x < 0.0 then -x else x
  }

  // ── Scoring one signal ───────────────────────────────────────────────────

  predicate Numeric(c: Candle) { c.high.Some? && c.low.Some? }

  predicate HitsTarget(d: Decision, c: Candle)
    requires Numeric(c)
  {
    if d.action == BUY then c.high.value >= d.target else c.low.value <= d.target
  }

  predicate HitsStop(d: Decision, c: Candle)
    requires Numeric(c)
  {
    if d.action == BUY then c.low.value <= d.stop else c.high.value >= d.stop
  }

  predicate Touches(d: Decision, c: Candle) {
    Numeric(c) && (HitsTarget(d, c) || HitsStop(d, c))
  }

  function Seconds(ts: Option<real>): Option<real> {
    if ts.Some? then Some(ts.value / 1000.0) else None
  }

  function RewardRisk(d: Decision): real
    requires d.entry != d.stop
  {
    Abs(d.target - d.entry) / Abs(d.entry - d.stop)
  }

  function WinAt(d: Decision, c: Candle): Outcome
    requires d.entry != d.stop
  {
    Outcome(Win, Some(d.target), Seconds(c.ts), Some(RewardRisk(d)))
  }

  function LossAt(d: Decision, c: Candle): Outcome {
    Outcome(Loss, Some(d.stop), Seconds(c.ts), Some(-1.0))
  }

  /** The time of the last usable bar: the last numeric bar that has a timestamp. */
  function LastTs(bars: seq<Candle>): Option<real> {
    if bars == [] then None
    else
      var c := bars[|bars| - 1];
      if Numeric(c) && c.ts.Some? then c.ts else LastTs(bars[..|bars| - 1])
  }

  /** Index of the first bar that touches a level, or `|bars|`. */
  function FirstTouch(d: Decision, bars: seq<Candle>): (k: nat)
    ensures k <= |bars|
    ensures k < |bars| ==> Touches(d, bars[k])
    ensures forall j :: 0 <= j < k ==> !Touches(d, bars[j])
  {
    if bars == [] || Touches(d, bars[0]) then 0 else 1 + FirstTouch(d, bars[1..])
  }

  /** The result of a signal over `bars` when `stopFirst(k)` says which level bar `k` reached
      first if it touched both. */
  function Resolve(d: Decision, bars: seq<Candle>, stopFirst: nat -> bool): Outcome
    requires d.entry != d.stop
  {
    var k := FirstTouch(d, bars);
    if k == |bars| then Outcome(Expired, None, Seconds(LastTs(bars)), None)
    else if HitsStop(d, bars[k]) && (!HitsTarget(d, bars[k]) || stopFirst(k)) then LossAt(d, bars[k])
    else WinAt(d, bars[k])
  }

  /** `_score_signal`: no result without risk or without bars, otherwise the result that assumes
      the stop was reached first on every bar that touched both. */
  function Score(d: Decision, future: seq<Candle>, horizon: int): Option<Outcome> {
    var bars := Take(future, horizon);
    if d.entry == d.stop || bars == [] then None
    else Some(Resolve(d, bars, (k: nat) => true))
  }

  lemma FirstTouchAt(d: Decision, bars: seq<Candle>, k: nat)
    requires k < |bars| && Touches(d, bars[k])
    requires forall j :: 0 <= j < k ==> !Touches(d, bars[j])
    ensures FirstTouch(d, bars) == k
  {
  }

  method ScoreSignal(d: Decision, future: seq<Candle>, horizon: int) returns (r: Option<Outcome>)
    ensures r == Score(d, future, horizon)
  {
    var risk := Abs(d.entry - d.stop);
    if risk <= 0.0 {
      return None;
    }
    var rr := Abs(d.target - d.entry) / risk;
    var bars := Take(future, horizon);
    if |bars| == 0 {
      return None;
    }
    var lastTs: Option<real> := None;
    for i := 0 to |bars|
      invariant forall j :: 0 <= j < i ==> !Touches(d, bars[j])
      invariant lastTs == LastTs(bars[..i])
    {
      var c := bars[i];
      assert bars[..i + 1][..i] == bars[..i];
      if !Numeric(c) {
        continue;
      }
      lastTs := if c.ts.Some? then c.ts else lastTs;
      var hitTp, hitSl := HitsTarget(d, c), HitsStop(d, c);
      if hitTp || hitSl {
        FirstTouchAt(d, bars, i);
      }
      if hitSl && hitTp {
        return Some(LossAt(d, c));
      }
      if hitTp {
        return Some(Outcome(Win, Some(d.target), Seconds(c.ts), Some(rr)));
      }
      if hitSl {
        return Some(LossAt(d, c));
      }
    }
    assert bars[..|bars|] == bars;
    return Some(Outcome(Expired, None, Seconds(lastTs), None));
  }

  /** The score is the worst R over every order in which a bar's two touches can have happened:
      no order does worse, all orders agree on whether and when the trade resolved, and some
      order attains it. */
  lemma ScoreIsWorstOrder(d: Decision, future: seq<Candle>, horizon: int)
    requires Score(d, future, horizon).Some?
    ensures var bars, s := Take(future, horizon), Score(d, future, horizon).value;
            && (forall order: nat -> bool ::
                  var o := Resolve(d, bars, order);
                  && (o.status == Expired <==> s.status == Expired) && o.at == s.at
                  && (s.status != Expired ==> o.r.Some? && s.r.Some? && s.r.value <= o.r.value))
            && exists order: nat -> bool :: Resolve(d, bars, order) == s
  {
    var bars := Take(future, horizon);
    var stopFirst := (k: nat) => true;
    assert Resolve(d, bars, stopFirst) == Score(d, future, horizon).value;
    assert RewardRisk(d) >= 0.0;
  }

  lemma TakeGrows(s: seq<Candle>, more: seq<Candle>, h: int)
    ensures Take(s, h) <= Take(s + more, h)
  {
  }

  /** Once a signal has resolved on a history, no further bars change its result. */
  lemma ResolvedIsFinal(d: Decision, future: seq<Candle>, more: seq<Candle>, horizon: int)
    requires Score(d, future, horizon).Some? && Score(d, future, horizon).value.status != Expired
    ensures Score(d, future + more, horizon) == Score(d, future, horizon)
  {
    var bars, longer := Take(future, horizon), Take(future + more, horizon);
    TakeGrows(future, more, horizon);
    var k := FirstTouch(d, bars);
    FirstTouchAt(d, longer, k);
  }

  // ── The walk ─────────────────────────────────────────────────────────────

  /** `_candles_at_or_before` on a present series. */
  function AtOrBefore(series: seq<Candle>, cutoff: Option<real>): seq<Candle> {
    if series == [] || cutoff.None? then []
    else
      var rest := AtOrBefore(series[1..], cutoff);
      if series[0].ts.Some? && series[0].ts.value <= cutoff.value then [series[0]] + rest else rest
  }

  datatype Result = Result(bar: nat, decision: Decision, labels: Labels, outcome: Outcome)

  /** The rule's decision at bar `i`, from the lookback window alone. */
  function SignalAt(cfg: Config, rules: Rules, candles: seq<Candle>, i: nat): Option<Decision>
    requires cfg.lookback <= i + 1 && i < |candles|
  {
    var ts := Seconds(candles[i].ts);
    rules.signal(candles[i + 1 - cfg.lookback..i + 1], if ts.Some? then ts.value else 0.0)
  }

  function LabelsAt(rules: Rules, candles: seq<Candle>, bench: seq<Candle>, i: nat, a: Action): Labels
    requires i < |candles|
  {
    Labels(
      rules.regime(candles[..i + 1]),
      rules.rs(candles[..i + 1], AtOrBefore(bench, candles[i].ts), a),
      rules.forecast(candles[..i + 1], a),
      rules.session(candles[i].ts))
  }

  function ScoreAt(cfg: Config, rules: Rules, candles: seq<Candle>, i: nat, d: Decision): Option<Outcome>
    requires i < |candles|
  {
    var future := candles[i + 1..];
    if cfg.manage then
      (if Take(future, cfg.horizon) == [] then None else rules.managed(d, Take(future, cfg.horizon)))
    else Score(d, future, cfg.horizon)
  }

  /** The signal taken at bar `i` if the walk is not cooling down there. */
  function TakenAt(cfg: Config, rules: Rules, candles: seq<Candle>, bench: seq<Candle>, i: nat): Option<Result>
    requires cfg.lookback <= i + 1 && i < |candles|
  {
    var d := SignalAt(cfg, rules, candles, i);
    if d.None? then None
    else
      var scored := ScoreAt(cfg, rules, candles, i, d.value);
      if scored.None? then None
      else Some(Result(i, d.value, LabelsAt(rules, candles, bench, i, d.value.action), scored.value))
  }

  predicate Adverse(l: Label) { l.Label? && l.adverse }

  /** The enabled drop predicates, on labels alone. */
  predicate FilteredOut(cfg: Config, labels: Labels) {
    || (cfg.regimeGate && Adverse(labels.regime))
    || (cfg.rsFilter && Adverse(labels.rs))
    || (cfg.forecastFilter && Adverse(labels.forecast))
    || (cfg.sessionFilter && Adverse(labels.session))
  }

  predicate Kept(cfg: Config, r: Result) {
    !FilteredOut(cfg, r.labels) && (r.outcome.status == Expired ==> cfg.recordUnresolved)
  }

  function Keep(cfg: Config, rs: seq<Result>): seq<Result> {
    if rs == [] then [] else (if Kept(cfg, rs[0]) then [rs[0]] else []) + Keep(cfg, rs[1..])
  }

  /** The kept results from bar `i` on, cooling down until `until`. */
  function Walk(cfg: Config, rules: Rules, candles: seq<Candle>, bench: seq<Candle>, i: nat, until: int): seq<Result>
    requires cfg.lookback <= i + 1
    decreases |candles| - i
  {
    if i + 1 >= |candles| then []
    else if i < until then Walk(cfg, rules, candles, bench, i + 1, until)
    else
      var taken := TakenAt(cfg, rules, candles, bench, i);
      if taken.None? then Walk(cfg, rules, candles, bench, i + 1, until)
      else
        (if Kept(cfg, taken.value) then [taken.value] else [])
        + Walk(cfg, rules, candles, bench, i + 1, i + cfg.cooldown)
  }

  function Generated(cfg: Config, rules: Rules, candles: seq<Candle>, bench: seq<Candle>): seq<Result> {
    if |candles| < cfg.lookback + 2 then [] else Walk(cfg, rules, candles, bench, cfg.lookback - 1, -1)
  }

  /** One bar of the walk. */
  lemma WalkAt(cfg: Config, rules: Rules, candles: seq<Candle>, bench: seq<Candle>, i: nat, until: int)
    requires cfg.lookback <= i + 1 && i + 1 < |candles|
    ensures var taken := TakenAt(cfg, rules, candles, bench, i);
            Walk(cfg, rules, candles, bench, i, until) ==
            if i < until || taken.None? then Walk(cfg, rules, candles, bench, i + 1, until)
            else (if Kept(cfg, taken.value) then [taken.value] else [])
                 + Walk(cfg, rules, candles, bench, i + 1, i + cfg.cooldown)
  {
  }

  lemma TakenIs(cfg: Config, rules: Rules, candles: seq<Candle>, bench: seq<Candle>, i: nat)
    requires cfg.lookback <= i + 1 && i < |candles|
    ensures var taken, d := TakenAt(cfg, rules, candles, bench, i), SignalAt(cfg, rules, candles, i);
            && (d.None? ==> taken.None?)
            && (d.Some? ==>
                  var scored := ScoreAt(cfg, rules, candles, i, d.value);
                  taken == if scored.None? then None
                           else Some(Result(i, d.value, LabelsAt(rules, candles, bench, i, d.value.action),
                                            scored.value)))
  {
  }

  /** The body of the walk up to the filters: signal on the window, classify, score. */
  method SignalAtBar(cfg: Config, rules: Rules, candles: seq<Candle>, bench: seq<Candle>, i: nat)
    returns (taken: Option<Result>)
    requires cfg.lookback <= i + 1 && i < |candles|
    ensures taken == TakenAt(cfg, rules, candles, bench, i)
  {
    hide AtOrBefore, Resolve;
    var window := candles[i - cfg.lookback + 1..i + 1];
    var ts := candles[i].ts;
    var createdAt := if ts.Some? then ts.value / 1000.0 else 0.0;
    var decision := rules.signal(window, createdAt);
    if decision.None? {
      return None;
    }
    var d := decision.value;
    var labels := Labels(
      rules.regime(candles[..i + 1]),
      rules.rs(candles[..i + 1], AtOrBefore(bench, ts), d.action),
      rules.forecast(candles[..i + 1], d.action),
      rules.session(ts));
    var future := candles[i + 1..];
    var scored: Option<Outcome>;
    if cfg.manage {
      var bars := Take(future, cfg.horizon);
      scored := if |bars| == 0 then None else rules.managed(d, bars);
    } else {
      scored := ScoreSignal(d, future, cfg.horizon);
    }
    return if scored.None? then None else Some(Result(i, d, labels, scored.value));
  }

  lemma TakePrefix(s: seq<Candle>, h: int)
    ensures |Take(s, h)| <= |s| && Take(s, h) == s[..|Take(s, h)|]
  {
  }

  /** Bar `k` is the first after bar `i` to touch a level. */
  predicate FirstAfter(d: Decision, candles: seq<Candle>, i: nat, k: nat)
    requires k < |candles|
  {
    i < k && Touches(d, candles[k]) && forall j :: i < j < k ==> !Touches(d, candles[j])
  }

  /** What a bar of the walk comes to with single-target scoring, told on the history itself. It is taken
      exactly when the rule signals on its window with some risk and there are bars to score it on. It
      resolves exactly when one of those bars touches a level, at the first that does, and is lost exactly
      when that bar reached the stop. */
  lemma TakenMeans(cfg: Config, rules: Rules, candles: seq<Candle>, bench: seq<Candle>, i: nat)
    requires !cfg.manage && cfg.lookback <= i + 1 && i < |candles|
    ensures var taken, d := TakenAt(cfg, rules, candles, bench, i), SignalAt(cfg, rules, candles, i);
            var n := |Take(candles[i + 1..], cfg.horizon)|;
            && i + n < |candles|
            && (taken.Some? <==> d.Some? && d.value.entry != d.value.stop && n > 0)
            && (taken.Some? ==>
                  var o := taken.value.outcome;
                  && taken.value.decision == d.value
                  && (o.status != Expired <==> exists k: nat :: k <= i + n && FirstAfter(d.value, candles, i, k))
                  && forall k: nat :: k <= i + n && FirstAfter(d.value, candles, i, k) ==>
                       o.at == Seconds(candles[k].ts) && (o.status == Loss <==> HitsStop(d.value, candles[k])))
  {
    hide AtOrBefore, Touches, Take, LabelsAt, TakenAt, SignalAt;
    var rest := candles[i + 1..];
    var bars := Take(rest, cfg.horizon);
    TakePrefix(rest, cfg.horizon);
    TakenIs(cfg, rules, candles, bench, i);
    assert forall j :: 0 <= j < |bars| ==> bars[j] == rest[j] == candles[i + 1 + j];
    var d := SignalAt(cfg, rules, candles, i);
    if d.Some? && d.value.entry != d.value.stop && |bars| > 0 {
      FirstTouchMeans(d.value, candles, i, bars);
      ResolveMeans(d.value, bars);
      var f := FirstTouch(d.value, bars);
      if f < |bars| {
        assert FirstAfter(d.value, candles, i, i + 1 + f);
      }
    }
  }

  /** The first touching bar, counted from the bar after the signal. */
  lemma FirstTouchMeans(d: Decision, candles: seq<Candle>, i: nat, bars: seq<Candle>)
    requires i + |bars| < |candles| && forall j :: 0 <= j < |bars| ==> bars[j] == candles[i + 1 + j]
    ensures var f := FirstTouch(d, bars);
            forall k: nat :: k <= i + |bars| ==> (FirstAfter(d, candles, i, k) <==> f < |bars| && k == i + 1 + f)
  {
    hide Touches;
    var f := FirstTouch(d, bars);
    forall k: nat | k <= i + |bars|
      ensures FirstAfter(d, candles, i, k) <==> f < |bars| && k == i + 1 + f
    {
      if FirstAfter(d, candles, i, k) {
        assert bars[k - i - 1] == candles[k];
      }
      if f < |bars| && k == i + 1 + f {
        forall j | i < j < k
          ensures !Touches(d, candles[j])
        {
          assert bars[j - i - 1] == candles[j];
        }
      }
    }
  }

  lemma ResolveMeans(d: Decision, bars: seq<Candle>)
    requires d.entry != d.stop
    ensures var o, f := Resolve(d, bars, (k: nat) => true), FirstTouch(d, bars);
            && (o.status == Expired <==> f == |bars|)
            && (f < |bars| ==> o.at == Seconds(bars[f].ts) && (o.status == Loss <==> HitsStop(d, bars[f])))
  {
  }

  /** `generate_and_score`, loop for loop. */
  method GenerateAndScore(cfg: Config, rules: Rules, candles: seq<Candle>, bench: seq<Candle>)
    returns (results: seq<Result>)
    ensures results == Generated(cfg, rules, candles, bench)
  {
    hide Walk, TakenAt;
    results := [];
    var n := |candles|;
    if n < cfg.lookback + 2 {
      return;
    }
    var cooldownUntil := -1;
    ghost var all := Walk(cfg, rules, candles, bench, cfg.lookback - 1, -1);
    for i := cfg.lookback - 1 to n - 1
      invariant results + Walk(cfg, rules, candles, bench, i, cooldownUntil) == all
    {
      WalkAt(cfg, rules, candles, bench, i, cooldownUntil);
      if i < cooldownUntil {
        continue;
      }
      var taken := SignalAtBar(cfg, rules, candles, bench, i);
      if taken.None? {
        continue;
      }
      var r, labels := taken.value, taken.value.labels;
      ghost var rest := Walk(cfg, rules, candles, bench, i + 1, i + cfg.cooldown);
      assert results + ([r] + rest) == (results + [r]) + rest && results + ([] + rest) == results + rest;
      var gatedOut := cfg.regimeGate && Adverse(labels.regime);
      var rsOut := cfg.rsFilter && Adverse(labels.rs);
      var forecastOut := cfg.forecastFilter && Adverse(labels.forecast);
      var sessionOut := cfg.sessionFilter && Adverse(labels.session);
      if gatedOut || rsOut || forecastOut || sessionOut || (r.outcome.status == Expired && !cfg.recordUnresolved) {
        cooldownUntil := i + cfg.cooldown;
        continue;
      }
      results := results + [r];
      cooldownUntil := i + cfg.cooldown;
    }
    assert Walk(cfg, rules, candles, bench, n - 1, cooldownUntil) == [] by {
      WalkEnd(cfg, rules, candles, bench, n - 1, cooldownUntil);
    }
  }

  lemma WalkEnd(cfg: Config, rules: Rules, candles: seq<Candle>, bench: seq<Candle>, i: nat, until: int)
    requires cfg.lookback <= i + 1 && |candles| <= i + 1
    ensures Walk(cfg, rules, candles, bench, i, until) == []
  {
  }

  // ── Filters only remove ──────────────────────────────────────────────────

  /** The same run with every filter off and unresolved trades recorded. */
  function Unfiltered(cfg: Config): Config {
    Config(cfg.lookback, cfg.cooldown, cfg.horizon, true, false, false, false, false, cfg.manage)
  }

  lemma {:induction false} WalkFilters(cfg: Config, rules: Rules, candles: seq<Candle>, bench: seq<Candle>,
          i: nat, until: int)
    requires cfg.lookback <= i + 1
    ensures Walk(cfg, rules, candles, bench, i, until) ==
            Keep(cfg, Walk(Unfiltered(cfg), rules, candles, bench, i, until))
    decreases |candles| - i
  {
    hide Walk, TakenAt, FilteredOut;
    if i + 1 < |candles| {
      var all := Unfiltered(cfg);
      WalkFilters(cfg, rules, candles, bench, i + 1, until);
      WalkFilters(cfg, rules, candles, bench, i + 1, i + cfg.cooldown);
      WalkAt(cfg, rules, candles, bench, i, until);
      WalkAt(all, rules, candles, bench, i, until);
      SameTaken(cfg, rules, candles, bench, i);
      var taken := TakenAt(cfg, rules, candles, bench, i);
      if i >= until && taken.Some? {
        UnfilteredKeeps(cfg, taken.value);
        var rest := Walk(all, rules, candles, bench, i + 1, i + cfg.cooldown);
        assert ([taken.value] + rest)[1..] == rest;
      }
    } else {
      WalkEnd(cfg, rules, candles, bench, i, until);
      WalkEnd(Unfiltered(cfg), rules, candles, bench, i, until);
    }
  }

  lemma SameTaken(cfg: Config, rules: Rules, candles: seq<Candle>, bench: seq<Candle>, i: nat)
    requires cfg.lookback <= i + 1 && i < |candles|
    ensures TakenAt(Unfiltered(cfg), rules, candles, bench, i) == TakenAt(cfg, rules, candles, bench, i)
  {
    hide Score, LabelsAt;
  }

  lemma UnfilteredKeeps(cfg: Config, r: Result)
    ensures Kept(Unfiltered(cfg), r)
  {
  }

  /** Filters commute with the walk: whatever flags are on, and managed or not, the results are the
      unfiltered run's results with the dropped ones left out, in order. */
  lemma FiltersOnlyRemove(cfg: Config, rules: Rules, candles: seq<Candle>, bench: seq<Candle>)
    ensures Generated(cfg, rules, candles, bench) == Keep(cfg, Generated(Unfiltered(cfg), rules, candles, bench))
  {
    hide Walk;
    if |candles| >= cfg.lookback + 2 {
      WalkFilters(cfg, rules, candles, bench, cfg.lookback - 1, -1);
    }
  }

  function Bars(rs: seq<Result>): (bars: seq<nat>)
    ensures |bars| == |rs| && forall a :: 0 <= a < |rs| ==> bars[a] == rs[a].bar
  {
    seq(|rs|, a requires 0 <= a < |rs| => rs[a].bar)
  }

  predicate Spaced(bars: seq<nat>, cooldown: int) {
    forall a, b :: 0 <= a < b < |bars| ==> bars[a] < bars[b] && bars[a] + cooldown <= bars[b]
  }

  predicate BarsIn(bars: seq<nat>, from: int, until: int, to: int) {
    forall a :: 0 <= a < |bars| ==> from <= bars[a] < to && until <= bars[a]
  }

  lemma BarsJoin(r: Result, rest: seq<Result>)
    ensures Bars([r] + rest) == [r.bar] + Bars(rest) && Bars([] + rest) == Bars(rest)
  {
    assert [] + rest == rest;
  }

  lemma SpacedCons(bar: nat, rest: seq<nat>, cooldown: int, until: int, to: int)
    requires until <= bar < to && BarsIn(rest, bar + 1, bar + cooldown, to) && Spaced(rest, cooldown)
    ensures BarsIn([bar] + rest, bar, until, to) && Spaced([bar] + rest, cooldown) && BarsIn(rest, bar, until, to)
  {
  }

  lemma {:induction false} WalkSpaced(cfg: Config, rules: Rules, candles: seq<Candle>, bench: seq<Candle>,
          i: nat, until: int)
    requires cfg.lookback <= i + 1
    ensures var bars := Bars(Walk(cfg, rules, candles, bench, i, until));
            BarsIn(bars, i, until, |candles| - 1) && Spaced(bars, cfg.cooldown)
    decreases |candles| - i
  {
    hide Walk, TakenAt, Kept, Spaced, BarsIn, Bars;
    if i + 1 < |candles| {
      WalkSpaced(cfg, rules, candles, bench, i + 1, until);
      WalkAt(cfg, rules, candles, bench, i, until);
      var taken := TakenAt(cfg, rules, candles, bench, i);
      if i >= until && taken.Some? {
        WalkSpaced(cfg, rules, candles, bench, i + 1, i + cfg.cooldown);
        TakenIs(cfg, rules, candles, bench, i);
        TakenSpaced(taken.value, Kept(cfg, taken.value), Walk(cfg, rules, candles, bench, i + 1, i + cfg.cooldown),
                    cfg.cooldown, until, |candles| - 1);
      } else {
        LaterBars(Bars(Walk(cfg, rules, candles, bench, i + 1, until)), i, until, |candles| - 1);
      }
    } else {
      WalkEnd(cfg, rules, candles, bench, i, until);
      NoBars(cfg.cooldown, i, until, |candles| - 1);
    }
  }

  lemma TakenSpaced(r: Result, kept: bool, rest: seq<Result>, cooldown: int, until: int, to: int)
    requires until <= r.bar < to && BarsIn(Bars(rest), r.bar + 1, r.bar + cooldown, to) && Spaced(Bars(rest), cooldown)
    ensures var bars := Bars((if kept then [r] else []) + rest);
                BarsIn(bars, r.bar, until, to) && Spaced(bars, cooldown)
  {
    hide BarsIn, Spaced, Bars;
    BarsJoin(r, rest);
    SpacedCons(r.bar, Bars(rest), cooldown, until, to);
  }

  lemma LaterBars(bars: seq<nat>, i: int, until: int, to: int)
    requires BarsIn(bars, i + 1, until, to)
    ensures BarsIn(bars, i, until, to)
  {
  }

  lemma NoBars(cooldown: int, from: int, until: int, to: int)
    ensures Spaced(Bars([]), cooldown) && BarsIn(Bars([]), from, until, to)
  {
  }

  /** The walk from a bar on yields no earlier bar. */
  lemma WalkFrom(cfg: Config, rules: Rules, candles: seq<Candle>, bench: seq<Candle>, i: nat, until: int)
    requires cfg.lookback <= i + 1
    ensures var w := Walk(cfg, rules, candles, bench, i, until); forall a :: 0 <= a < |w| ==> w[a].bar >= i
  {
    hide Walk, Spaced;
    WalkSpaced(cfg, rules, candles, bench, i, until);
    var w := Walk(cfg, rules, candles, bench, i, until);
    assert forall a :: 0 <= a < |w| ==> Bars(w)[a] == w[a].bar;
  }

  /** Kept signals come in bar order and at least `cooldown_bars` apart. */
  lemma SignalsSpaced(cfg: Config, rules: Rules, candles: seq<Candle>, bench: seq<Candle>, a: nat, b: nat)
    requires a < b < |Generated(cfg, rules, candles, bench)|
    ensures var g := Generated(cfg, rules, candles, bench);
            g[a].bar < g[b].bar && g[a].bar + cfg.cooldown <= g[b].bar
  {
    hide Walk;
    WalkSpaced(cfg, rules, candles, bench, cfg.lookback - 1, -1);
  }

  // ── Look-ahead freedom ───────────────────────────────────────────────────

  /** What a signal is before its outcome is known. */
  datatype Signal = Signal(bar: nat, decision: Decision, labels: Labels)

  /** The signals among `rs` at bars before `k`. */
  function SignalsBefore(rs: seq<Result>, k: nat): seq<Signal> {
    if rs == [] then []
    else (if rs[0].bar < k then [Signal(rs[0].bar, rs[0].decision, rs[0].labels)] else [])
         + SignalsBefore(rs[1..], k)
  }

  /** Two histories, and their benchmarks, that cannot be told apart at any bar before `k`. */
  predicate AgreeBefore(candles: seq<Candle>, bench: seq<Candle>, candles': seq<Candle>, bench': seq<Candle>, k: nat) {
    && k < |candles| && k < |candles'|
    && candles[..k] == candles'[..k]
    && forall i :: 0 <= i < k ==> AtOrBefore(bench, candles[i].ts) == AtOrBefore(bench', candles[i].ts)
  }

  lemma TakenBefore(cfg: Config, rules: Rules, candles: seq<Candle>, bench: seq<Candle>,
                    candles': seq<Candle>, bench': seq<Candle>, k: nat, i: nat)
    requires cfg.lookback <= i + 1 && i < k && AgreeBefore(candles, bench, candles', bench', k)
    requires !cfg.manage && cfg.horizon >= 0
    ensures var t, t' := TakenAt(cfg, rules, candles, bench, i), TakenAt(cfg, rules, candles', bench', i);
            && (t.Some? <==> t'.Some?)
            && (t.Some? ==> t.value.bar == t'.value.bar == i && t.value.decision == t'.value.decision
                            && t.value.labels == t'.value.labels)
  {
    assert forall j :: 0 <= j < k ==> candles[j] == candles[..k][j] && candles'[j] == candles'[..k][j];
    assert candles[..i + 1] == candles'[..i + 1];
    assert candles[i + 1 - cfg.lookback..i + 1] == candles'[i + 1 - cfg.lookback..i + 1];
  }

  lemma {:induction false} WalkNoLookAhead(
    cfg: Config, rules: Rules, candles: seq<Candle>, bench: seq<Candle>,
    candles': seq<Candle>, bench': seq<Candle>, k: nat, i: nat, until: int)
    requires cfg.lookback <= i + 1 && AgreeBefore(candles, bench, candles', bench', k)
    requires !cfg.manage && cfg.horizon >= 0 && cfg.recordUnresolved
    ensures SignalsBefore(Walk(cfg, rules, candles, bench, i, until), k) ==
            SignalsBefore(Walk(cfg, rules, candles', bench', i, until), k)
    decreases k - i
  {
    hide TakenAt, AtOrBefore, Kept;
    if i >= k {
      WalkSpaced(cfg, rules, candles, bench, i, until);
      WalkSpaced(cfg, rules, candles', bench', i, until);
      NoneBefore(Walk(cfg, rules, candles, bench, i, until), k);
      NoneBefore(Walk(cfg, rules, candles', bench', i, until), k);
    } else {
      hide Walk;
      WalkAt(cfg, rules, candles, bench, i, until);
      WalkAt(cfg, rules, candles', bench', i, until);
      WalkNoLookAhead(cfg, rules, candles, bench, candles', bench', k, i + 1, until);
      WalkNoLookAhead(cfg, rules, candles, bench, candles', bench', k, i + 1, i + cfg.cooldown);
      TakenBefore(cfg, rules, candles, bench, candles', bench', k, i);
      var t, t' := TakenAt(cfg, rules, candles, bench, i), TakenAt(cfg, rules, candles', bench', i);
      if i >= until && t.Some? {
        KeptTogether(cfg, t.value, t'.value, k,
                     Walk(cfg, rules, candles, bench, i + 1, i + cfg.cooldown),
                     Walk(cfg, rules, candles', bench', i + 1, i + cfg.cooldown));
      }
    }
  }

  lemma {:induction false} KeptTogether(cfg: Config, r: Result, r': Result, k: nat, w: seq<Result>, w': seq<Result>)
    requires cfg.recordUnresolved && r.bar == r'.bar && r.decision == r'.decision && r.labels == r'.labels
    requires SignalsBefore(w, k) == SignalsBefore(w', k)
    ensures SignalsBefore((if Kept(cfg, r) then [r] else []) + w, k) ==
            SignalsBefore((if Kept(cfg, r') then [r'] else []) + w', k)
  {
    assert ([r] + w)[1..] == w && ([r'] + w')[1..] == w' && [] + w == w && [] + w' == w';
  }

  lemma {:induction false} NoneBefore(rs: seq<Result>, k: nat)
    requires forall a :: 0 <= a < |rs| ==> rs[a].bar >= k
    ensures SignalsBefore(rs, k) == []
  {
    if rs != [] {
      NoneBefore(rs[1..], k);
    }
  }

  /** No choice before bar `k` depends on anything from bar `k` on. */
  ghost predicate LookAheadFree(cfg: Config) {
    forall rules: Rules, candles, bench, candles', bench', k: nat ::
      |candles| >= cfg.lookback + 2 && |candles'| >= cfg.lookback + 2 &&
      AgreeBefore(candles, bench, candles', bench', k) ==>
        SignalsBefore(Generated(cfg, rules, candles, bench), k) ==
        SignalsBefore(Generated(cfg, rules, candles', bench'), k)
  }

  // A history whose only signal is at bar `lookback`, followed by one kind of bar, for showing what
  // the other settings do.

  const PLAIN := Candle(None, Some(2.0), Some(2.0), None, None, None)
  const FLAT := Candle(None, Some(1.0), Some(1.0), None, None, None)
  const MARK := Candle(None, Some(2.0), Some(2.0), None, None, Some(1.0))

  const MARKED_BUY := Decision(BUY, 1.0, 0.0, 2.0)

  function MarkedHistory(at: nat, n: nat, after: Candle): (cs: seq<Candle>)
    ensures |cs| == n
    ensures forall i :: 0 <= i < n ==> cs[i] == if i == at then MARK else if i < at then PLAIN else after
  {
    seq(n, i requires 0 <= i < n => if i == at then MARK else if i < at then PLAIN else after)
  }

  function MarkRules(): Rules {
    Rules(
      (window: seq<Candle>, at: real) =>
        if window != [] && window[|window| - 1].ts.Some? then Some(MARKED_BUY) else None,
      w => Unavailable, (w, b, a) => Unavailable, (w, a) => Unavailable, ts => Unavailable, (d, w) => None)
  }

  lemma MarkRule(window: seq<Candle>, at: real)
    requires window != []
    ensures MarkRules().signal(window, at) ==
            if window[|window| - 1].ts.Some? then Some(MARKED_BUY) else None
  {
    hide MARKED_BUY;
  }

  lemma MarkedSignal(cfg: Config, n: nat, after: Candle, i: nat)
    requires cfg.lookback <= i + 1 && i <= cfg.lookback < n
    ensures SignalAt(cfg, MarkRules(), MarkedHistory(cfg.lookback, n, after), i) ==
            if i == cfg.lookback then Some(MARKED_BUY) else None
  {
    hide MARKED_BUY, MarkRules, MarkedHistory, Seconds;
    var cs := MarkedHistory(cfg.lookback, n, after);
    var window, ts := cs[i + 1 - cfg.lookback..i + 1], Seconds(cs[i].ts);
    MarkRule(window, if ts.Some? then ts.value else 0.0);
  }

  /** What a buy at the mark comes to: a win on the first plain bar, nothing on flat bars. */
  lemma MarkedScore(bars: seq<Candle>, horizon: int, after: Candle)
    requires forall i :: 0 <= i < |bars| ==> bars[i] == after
    requires after == PLAIN || after == FLAT
    ensures var s := Score(MARKED_BUY, bars, horizon);
            && (s.Some? <==> Take(bars, horizon) != [])
            && (s.Some? ==> (s.value.status == Expired <==> after == FLAT))
  {
    var t := Take(bars, horizon);
    assert forall i :: 0 <= i < |t| ==> t[i] == after;
    if t != [] && after == PLAIN {
      FirstTouchAt(MARKED_BUY, t, 0);
    }
  }

  /** Only the marked bar can signal, and it does exactly when bars are left after it. */
  lemma MarkedTaken(cfg: Config, n: nat, after: Candle, i: nat)
    requires !cfg.manage && cfg.lookback <= i + 1 && i <= cfg.lookback && n >= cfg.lookback + 2
    requires after == PLAIN || after == FLAT
    ensures var taken := TakenAt(cfg, MarkRules(), MarkedHistory(cfg.lookback, n, after), [], i);
            && (taken.Some? <==>
                  i == cfg.lookback && Take(MarkedHistory(cfg.lookback, n, after)[i + 1..], cfg.horizon) != [])
            && (taken.Some? ==>
                  && taken.value.bar == i && (taken.value.outcome.status == Expired <==> after == FLAT)
                  && !FilteredOut(cfg, taken.value.labels))
  {
    hide MarkRules, MarkedHistory, Take, SignalAt, Score, LabelsAt, TakenAt, PLAIN, FLAT;
    var cs := MarkedHistory(cfg.lookback, n, after);
    MarkedSignal(cfg, n, after, i);
    TakenIs(cfg, MarkRules(), cs, [], i);
    MarkedLabels(cs, i);
    if i == cfg.lookback {
      MarkedScore(cs[i + 1..], cfg.horizon, after);
    }
  }

  /** The marked signal shows in the results exactly when it has bars to be scored on and, if those
      leave it unresolved, unresolved trades are recorded. */
  lemma MarkedWalk(cfg: Config, n: nat, after: Candle)
    requires !cfg.manage && n >= cfg.lookback + 2 && (after == PLAIN || after == FLAT)
    ensures var g := Generated(cfg, MarkRules(), MarkedHistory(cfg.lookback, n, after), []);
            if Take(MarkedHistory(cfg.lookback, n, after)[cfg.lookback + 1..], cfg.horizon) != []
               && (after == FLAT ==> cfg.recordUnresolved)
            then g != [] && g[0].bar == cfg.lookback
            else forall a :: 0 <= a < |g| ==> g[a].bar > cfg.lookback
  {
    hide Walk, MarkRules, MarkedHistory, TakenAt, FilteredOut, Take, PLAIN, FLAT, SignalAt, LabelsAt, ScoreAt;
    var at, rules, cs := cfg.lookback, MarkRules(), MarkedHistory(cfg.lookback, n, after);
    MarkedTaken(cfg, n, after, at - 1);
    MarkedTaken(cfg, n, after, at);
    WalkAt(cfg, rules, cs, [], at - 1, -1);
    WalkAt(cfg, rules, cs, [], at, -1);
    WalkFrom(cfg, rules, cs, [], at + 1, -1);
    WalkFrom(cfg, rules, cs, [], at + 1, at + cfg.cooldown);
    PlainNotFlat();
  }

  lemma PlainNotFlat()
    ensures PLAIN != FLAT
  {
  }

  lemma MarkedLabels(cs: seq<Candle>, i: nat)
    requires i < |cs|
    ensures forall a :: LabelsAt(MarkRules(), cs, [], i, a) ==
                Labels(Unavailable, Unavailable, Unavailable, Unavailable)
  {
  }

  lemma FirstSignal(rs: seq<Result>, k: nat)
    ensures rs != [] && rs[0].bar < k ==> SignalsBefore(rs, k) != []
  {
  }

  lemma MarkedAgree(at: nat, n: nat, after: Candle, m: nat, after': Candle)
    requires at + 1 < n && at + 1 < m
    ensures AgreeBefore(MarkedHistory(at, n, after), [], MarkedHistory(at, m, after'), [], at + 1)
  {
    hide PLAIN, MARK, MarkedHistory;
    var cs, cs' := MarkedHistory(at, n, after), MarkedHistory(at, m, after');
    forall i | 0 <= i < at + 1
      ensures cs[i] == cs'[i]
    {
    }
    assert cs[..at + 1] == cs'[..at + 1];
    assert forall ts :: AtOrBefore([], ts) == [];
  }

  /** Two histories that agree and yet yield different signals. */
  lemma SeenAhead(cfg: Config, rules: Rules, candles: seq<Candle>, candles': seq<Candle>, k: nat)
    requires |candles| >= cfg.lookback + 2 && |candles'| >= cfg.lookback + 2 &&
        AgreeBefore(candles, [], candles', [], k)
    requires SignalsBefore(Generated(cfg, rules, candles, []), k) !=
                 SignalsBefore(Generated(cfg, rules, candles', []), k)
    ensures !LookAheadFree(cfg)
  {
    hide Generated, AgreeBefore, SignalsBefore;
  }

  /** The mark shows in one history and not in another that differs only after it. */
  lemma MarkSeenAhead(cfg: Config, n: nat, after: Candle, m: nat, after': Candle)
    requires !cfg.manage && n >= cfg.lookback + 2 && m >= cfg.lookback + 2
    requires (after == PLAIN || after == FLAT) && (after' == PLAIN || after' == FLAT)
    requires Take(MarkedHistory(cfg.lookback, n, after)[cfg.lookback + 1..], cfg.horizon) == []
             || (after == FLAT && !cfg.recordUnresolved)
    requires Take(MarkedHistory(cfg.lookback, m, after')[cfg.lookback + 1..], cfg.horizon) != []
             && (after' == FLAT ==> cfg.recordUnresolved)
    ensures !LookAheadFree(cfg)
  {
    hide Generated, MarkRules, AgreeBefore, LookAheadFree, MarkedHistory, SignalsBefore, PLAIN, FLAT, Take;
    var at := cfg.lookback;
    MarkedWalk(cfg, n, after);
    MarkedWalk(cfg, m, after');
    MarkedAgree(at, n, after, m, after');
    NoneBefore(Generated(cfg, MarkRules(), MarkedHistory(at, n, after), []), at + 1);
    FirstSignal(Generated(cfg, MarkRules(), MarkedHistory(at, m, after'), []), at + 1);
    SeenAhead(cfg, MarkRules(), MarkedHistory(at, n, after), MarkedHistory(at, m, after'), at + 1);
  }

  /** A negative horizon drops bars at the far end of the history, and leaving unresolved trades out
      asks how they went: either way signals depend on what comes later. */
  lemma OthersLookAhead(cfg: Config)
    requires !cfg.manage && (cfg.horizon < 0 || (cfg.horizon > 0 && !cfg.recordUnresolved))
    ensures !LookAheadFree(cfg)
  {
    hide LookAheadFree, MarkedHistory, PLAIN, FLAT;
    var at := cfg.lookback;
    PlainNotFlat();
    if cfg.horizon < 0 {
      MarkSeenAhead(cfg, at + 2, PLAIN, at + 2 - cfg.horizon, PLAIN);
    } else {
      MarkSeenAhead(cfg, at + 2, FLAT, at + 2, PLAIN);
    }
  }

  /** Nothing can be scored on no bars. */
  lemma {:induction false} ZeroHorizon(cfg: Config, rules: Rules, candles: seq<Candle>, bench: seq<Candle>,
          i: nat, until: int)
    requires !cfg.manage && cfg.horizon == 0 && cfg.lookback <= i + 1
    ensures Walk(cfg, rules, candles, bench, i, until) == []
    decreases |candles| - i
  {
    hide Walk, TakenAt;
    if i + 1 < |candles| {
      WalkAt(cfg, rules, candles, bench, i, until);
      ZeroHorizon(cfg, rules, candles, bench, i + 1, until);
      TakenIs(cfg, rules, candles, bench, i);
    } else {
      WalkEnd(cfg, rules, candles, bench, i, until);
    }
  }

  lemma NoLookAhead(cfg: Config, rules: Rules, candles: seq<Candle>, bench: seq<Candle>,
                    candles': seq<Candle>, bench': seq<Candle>, k: nat)
    requires !cfg.manage && (cfg.horizon == 0 || (cfg.horizon > 0 && cfg.recordUnresolved))
    requires |candles| >= cfg.lookback + 2 && |candles'| >= cfg.lookback + 2 &&
        AgreeBefore(candles, bench, candles', bench', k)
    ensures SignalsBefore(Generated(cfg, rules, candles, bench), k) ==
            SignalsBefore(Generated(cfg, rules, candles', bench'), k)
  {
    hide Walk, SignalsBefore, AgreeBefore;
    if cfg.horizon == 0 {
      ZeroHorizon(cfg, rules, candles, bench, cfg.lookback - 1, -1);
      ZeroHorizon(cfg, rules, candles', bench', cfg.lookback - 1, -1);
    } else {
      WalkNoLookAhead(cfg, rules, candles, bench, candles', bench', k, cfg.lookback - 1, -1);
    }
  }

  /** With single-target scoring the walk is free of look-ahead exactly when the horizon is positive
      and unresolved trades are recorded (or the horizon is zero, and nothing is ever recorded): then
      two histories that agree before bar `k` yield the same signals before `k`, with the same levels
      and labels, and only outcomes may differ. */
  lemma LookAheadFreedom(cfg: Config)
    requires !cfg.manage
    ensures LookAheadFree(cfg) <==> cfg.horizon == 0 || (cfg.horizon > 0 && cfg.recordUnresolved)
  {
    hide Generated, SignalsBefore, AgreeBefore;
    if cfg.horizon == 0 || (cfg.horizon > 0 && cfg.recordUnresolved) {
      forall rules: Rules, candles, bench, candles', bench', k: nat |
        |candles| >= cfg.lookback + 2 && |candles'| >= cfg.lookback + 2 &&
        AgreeBefore(candles, bench, candles', bench', k)
        ensures SignalsBefore(Generated(cfg, rules, candles, bench), k) ==
                SignalsBefore(Generated(cfg, rules, candles', bench'), k)
      {
        NoLookAhead(cfg, rules, candles, bench, candles', bench', k);
      }
    } else {
      OthersLookAhead(cfg);
    }
  }
}
