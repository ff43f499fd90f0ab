/** What the walk of `Backtest` emits and what each result says, told on the history itself. */
module BacktestLaws {
  import opened PyStrings
  import opened Backtest

  // ── A result in prices ───────────────────────────────────────────────────

  function Distance(a: real, b: real): real { if a < b then b - a else a - b }

  /** The bar has both extremes and reached `level` from below (`up`) or from above. */
  predicate Reached(up: bool, c: Candle, level: real) {
    c.high.Some? && c.low.Some? && if up then level <= c.high.value else c.low.value <= level
  }

  /** A buyer gains upwards and a seller downwards. */
  predicate GainsUp(d: Decision) { d.action == BUY }

  /** Bar `k` is the first to reach the target or the stop. */
  predicate FirstReach(d: Decision, bars: seq<Candle>, k: nat) {
    && k < |bars| && (Reached(GainsUp(d), bars[k], d.target) || Reached(!GainsUp(d), bars[k], d.stop))
    && forall j :: 0 <= j < k ==>
         !Reached(GainsUp(d), bars[j], d.target) && !Reached(!GainsUp(d), bars[j], d.stop)
  }

  predicate Usable(c: Candle) { c.high.Some? && c.low.Some? && c.ts.Some? }

  /** Bar `k` is the last with numeric extremes and a timestamp. */
  predicate LastUsable(bars: seq<Candle>, k: nat) {
    k < |bars| && Usable(bars[k]) && forall j :: k < j < |bars| ==> !Usable(bars[j])
  }

  /** `at`, in seconds, is the time `ts`, in milliseconds; or neither is known. */
  predicate SameTime(at: Option<real>, ts: Option<real>) {
    (at.Some? <==> ts.Some?) && (at.Some? ==> at.value * 1000.0 == ts.value)
  }

  lemma {:induction false} LastTsMeans(bars: seq<Candle>)
    ensures forall k: nat :: LastUsable(bars, k) ==> LastTs(bars) == bars[k].ts
    ensures (forall k :: 0 <= k < |bars| ==> !Usable(bars[k])) ==> LastTs(bars) == None
  {
    if bars != [] {
      var n := |bars| - 1;
      LastTsMeans(bars[..n]);
      forall k: nat | LastUsable(bars, k)
        ensures LastTs(bars) == bars[k].ts
      {
        if k < n {
          assert !Usable(bars[n]) && LastUsable(bars[..n], k);
        }
      }
    }
  }

  lemma TouchesIs(d: Decision, c: Candle)
    ensures Touches(d, c) <==> Reached(GainsUp(d), c, d.target) || Reached(!GainsUp(d), c, d.stop)
    ensures Touches(d, c) ==> (HitsStop(d, c) <==> Reached(!GainsUp(d), c, d.stop))
  {
  }

  lemma FirstReachIs(d: Decision, bars: seq<Candle>)
    ensures forall k: nat :: FirstReach(d, bars, k) <==> k == FirstTouch(d, bars) && k < |bars|
  {
    hide Touches, Reached, FirstTouch;
    forall j | 0 <= j < |bars|
      ensures Touches(d, bars[j]) <==>
              Reached(GainsUp(d), bars[j], d.target) || Reached(!GainsUp(d), bars[j], d.stop)
    {
      TouchesIs(d, bars[j]);
    }
  }

  lemma RewardIs(d: Decision)
    requires d.entry != d.stop
    ensures RewardRisk(d) * Distance(d.entry, d.stop) == Distance(d.target, d.entry)
  {
  }

  /** What a score says. There is one exactly when the trade risks something and has bars to be scored on. It
      is settled by the first bar that reaches the target or the stop, and against the trade when that bar
      reached the stop. A win is at the target and worth its distance counted in risks, a loss is at the stop
      and costs one risk, and a trade that expires has no price and no R and the time of the last usable bar. */
  lemma ScoreMeans(d: Decision, future: seq<Candle>, horizon: int)
    ensures var s, bars := Score(d, future, horizon), Take(future, horizon);
            && (s.Some? <==> d.entry != d.stop && bars != [])
            && (s.Some? ==>
                  var o := s.value;
                  && (o.status != Expired <==> exists k: nat :: FirstReach(d, bars, k))
                  && (forall k: nat :: FirstReach(d, bars, k) ==>
                        && (o.status == Loss <==> Reached(!GainsUp(d), bars[k], d.stop))
                        && SameTime(o.at, bars[k].ts))
                  && (o.status == Win ==>
                        && o.price == Some(d.target) && o.r.Some?
                        && o.r.value * Distance(d.entry, d.stop) == Distance(d.target, d.entry))
                  && (o.status == Loss ==> o.price == Some(d.stop) && o.r == Some(-1.0))
                  && (o.status == Expired ==>
                        && o.price == None && o.r == None
                        && (forall k: nat :: LastUsable(bars, k) ==> SameTime(o.at, bars[k].ts))
                        && ((forall k :: 0 <= k < |bars| ==> !Usable(bars[k])) ==> o.at == None)))
  {
    hide Touches, Reached, FirstTouch, FirstReach, RewardRisk, LastTs, LastUsable, Usable, Take, HitsStop, HitsTarget;
    var bars := Take(future, horizon);
    FirstReachIs(d, bars);
    if d.entry != d.stop && bars != [] {
      RewardIs(d);
      LastTsMeans(bars);
      var k := FirstTouch(d, bars);
      if k < |bars| {
        TouchesIs(d, bars[k]);
        assert FirstReach(d, bars, k);
      }
    }
  }

  /** `s[:h]`: the first `h`, or all but the last `-h`. */
  lemma TakeMeans(s: seq<Candle>, h: int)
    ensures Take(s, h) <= s
    ensures |Take(s, h)| == if h >= |s| then |s| else if h >= 0 then h else if -h < |s| then |s| + h else 0
  {
  }

  // ── Which bars signal ────────────────────────────────────────────────────

  /** The walk reaches bar `i`, and with no cooldown would take a signal there. */
  predicate Fires(cfg: Config, rules: Rules, candles: seq<Candle>, bench: seq<Candle>, i: nat) {
    cfg.lookback <= i + 1 && i + 1 < |candles| && TakenAt(cfg, rules, candles, bench, i).Some?
  }

  predicate Has(rs: seq<Result>, i: nat) { exists a :: 0 <= a < |rs| && rs[a].bar == i }

  /** Bar `i` lies within the cooldown of an earlier signal. */
  predicate Cooling(rs: seq<Result>, i: nat, cooldown: int) {
    exists a :: 0 <= a < |rs| && rs[a].bar < i < rs[a].bar + cooldown
  }

  /** From bar `i` on, `rs` are results of the bars that fire, and miss none but for a cooldown. */
  ghost predicate Exact(cfg: Config, rules: Rules, candles: seq<Candle>, bench: seq<Candle>, i: nat, until: int,
                        rs: seq<Result>)
  {
    && (forall a :: 0 <= a < |rs| ==>
          var b := rs[a].bar;
          && i <= b && until <= b && Fires(cfg, rules, candles, bench, b)
          && TakenAt(cfg, rules, candles, bench, b) == Some(rs[a]))
    && forall b: nat :: i <= b && until <= b && Fires(cfg, rules, candles, bench, b) ==>
         Has(rs, b) || Cooling(rs, b, cfg.cooldown)
  }

  lemma {:induction false} WalkExact(cfg: Config, rules: Rules, candles: seq<Candle>, bench: seq<Candle>,
          i: nat, until: int)
    requires cfg.lookback <= i + 1 && cfg == Unfiltered(cfg)
    ensures Exact(cfg, rules, candles, bench, i, until, Walk(cfg, rules, candles, bench, i, until))
    decreases |candles| - i
  {
    hide Walk, TakenAt, Exact;
    if i + 1 < |candles| {
      WalkAt(cfg, rules, candles, bench, i, until);
      var taken := TakenAt(cfg, rules, candles, bench, i);
      if i < until || taken.None? {
        WalkExact(cfg, rules, candles, bench, i + 1, until);
        ExactSkips(cfg, rules, candles, bench, i, until, Walk(cfg, rules, candles, bench, i + 1, until));
      } else {
        WalkExact(cfg, rules, candles, bench, i + 1, i + cfg.cooldown);
        UnfilteredKeeps(cfg, taken.value);
        ExactTakes(cfg, rules, candles, bench, i, until, Walk(cfg, rules, candles, bench, i + 1, i + cfg.cooldown));
      }
    } else {
      WalkEnd(cfg, rules, candles, bench, i, until);
      ExactNone(cfg, rules, candles, bench, i, until);
    }
  }

  lemma ExactNone(cfg: Config, rules: Rules, candles: seq<Candle>, bench: seq<Candle>, i: nat, until: int)
    requires |candles| <= i + 1
    ensures Exact(cfg, rules, candles, bench, i, until, [])
  {
    hide TakenAt;
  }

  lemma ExactSkips(cfg: Config, rules: Rules, candles: seq<Candle>, bench: seq<Candle>, i: nat, until: int,
                   rest: seq<Result>)
    requires cfg.lookback <= i + 1 && i + 1 < |candles|
    requires i < until || TakenAt(cfg, rules, candles, bench, i).None?
    requires Exact(cfg, rules, candles, bench, i + 1, until, rest)
    ensures Exact(cfg, rules, candles, bench, i, until, rest)
  {
    hide TakenAt, Has, Cooling;
  }

  lemma ExactTakes(cfg: Config, rules: Rules, candles: seq<Candle>, bench: seq<Candle>, i: nat, until: int,
                   rest: seq<Result>)
    requires cfg.lookback <= i + 1 && i + 1 < |candles| && until <= i
    requires TakenAt(cfg, rules, candles, bench, i).Some?
    requires Exact(cfg, rules, candles, bench, i + 1, i + cfg.cooldown, rest)
    ensures Exact(cfg, rules, candles, bench, i, until, [TakenAt(cfg, rules, candles, bench, i).value] + rest)
  {
    var r := TakenAt(cfg, rules, candles, bench, i).value;
    TakenIs(cfg, rules, candles, bench, i);
    hide TakenAt;
    var rs := [r] + rest;
    forall b: nat | i <= b && until <= b && Fires(cfg, rules, candles, bench, b)
      ensures Has(rs, b) || Cooling(rs, b, cfg.cooldown)
    {
      assert rs[0] == r && r.bar == i;
      if i < b && i + cfg.cooldown <= b {
        HasLater(r, rest, b, cfg.cooldown);
      }
    }
  }

  lemma HasLater(r: Result, rest: seq<Result>, b: nat, cooldown: int)
    ensures Has(rest, b) ==> Has([r] + rest, b)
    ensures Cooling(rest, b, cooldown) ==> Cooling([r] + rest, b, cooldown)
  {
    var rs := [r] + rest;
    assert forall a :: 0 <= a < |rest| ==> rs[a + 1] == rest[a];
  }

  /** Without filters, and with two bars more than the lookback, a bar is among the results exactly when it
      fires and lies in no earlier result's cooldown: no signal is missed and none is made up. */
  lemma SignalsExact(cfg: Config, rules: Rules, candles: seq<Candle>, bench: seq<Candle>, i: nat)
    ensures var g := Generated(Unfiltered(cfg), rules, candles, bench);
            && (Has(g, i) <==>
                  |candles| >= cfg.lookback + 2 && Fires(cfg, rules, candles, bench, i) && !Cooling(g, i, cfg.cooldown))
            && forall a :: 0 <= a < |g| && g[a].bar == i ==> TakenAt(cfg, rules, candles, bench, i) == Some(g[a])
  {
    hide Walk, TakenAt;
    var all := Unfiltered(cfg);
    var g := Generated(all, rules, candles, bench);
    if |candles| < cfg.lookback + 2 {
      return;
    }
    WalkExact(all, rules, candles, bench, cfg.lookback - 1, -1);
    if cfg.lookback <= i + 1 && i + 1 < |candles| {
      SameTaken(cfg, rules, candles, bench, i);
    }
    if Has(g, i) {
      var a :| 0 <= a < |g| && g[a].bar == i;
      forall b | 0 <= b < |g|
        ensures !(g[b].bar < i < g[b].bar + cfg.cooldown)
      {
        if b < a {
          SignalsSpaced(all, rules, candles, bench, b, a);
        } else if a < b {
          SignalsSpaced(all, rules, candles, bench, a, b);
        }
      }
    }
  }

  /** A filter that is on leaves out the signals whose label it finds adverse. */
  predicate Passes(on: bool, l: Label) { on && l.Label? ==> !l.adverse }

  /** With filters, exactly the results are left that every enabled filter lets through on its own label, and
      unresolved ones only when they are recorded. */
  lemma {:induction false} FilteredMeans(cfg: Config, rules: Rules, candles: seq<Candle>, bench: seq<Candle>, r: Result)
    ensures r in Generated(cfg, rules, candles, bench) <==>
            && r in Generated(Unfiltered(cfg), rules, candles, bench)
            && Passes(cfg.regimeGate, r.labels.regime) && Passes(cfg.rsFilter, r.labels.rs)
            && Passes(cfg.forecastFilter, r.labels.forecast) && Passes(cfg.sessionFilter, r.labels.session)
            && (r.outcome.status == Expired ==> cfg.recordUnresolved)
  {
    hide Generated;
    FiltersOnlyRemove(cfg, rules, candles, bench);
    KeepMember(cfg, Generated(Unfiltered(cfg), rules, candles, bench), r);
  }

  lemma {:induction false} KeepMember(cfg: Config, rs: seq<Result>, r: Result)
    ensures r in Keep(cfg, rs) <==> r in rs && Kept(cfg, r)
  {
    if rs != [] {
      KeepMember(cfg, rs[1..], r);
      assert rs == [rs[0]] + rs[1..];
    }
  }

  /** The candles of a benchmark up to a time, and no others. */
  lemma {:induction false} AtOrBeforeMeans(series: seq<Candle>, cutoff: Option<real>, c: Candle)
    ensures c in AtOrBefore(series, cutoff) <==>
            c in series && cutoff.Some? && c.ts.Some? && c.ts.value <= cutoff.value
  {
    if series != [] && cutoff.Some? {
      AtOrBeforeMeans(series[1..], cutoff, c);
      assert series == [series[0]] + series[1..];
    }
  }

  /** What a result is made of: the rule's decision on the `lookback` bars up to and including its own, the
      classifiers' labels on the history up to there, and the score, or the managed simulation, of that
      decision on at most `horizon` of the bars after it. */
  lemma TakenFrom(cfg: Config, rules: Rules, candles: seq<Candle>, bench: seq<Candle>, i: nat)
    requires cfg.lookback <= i + 1 && i < |candles| && TakenAt(cfg, rules, candles, bench, i).Some?
    ensures var r := TakenAt(cfg, rules, candles, bench, i).value;
            var seen, future := candles[..i + 1], candles[i + 1..];
            && r.bar == i
            && (exists at :: SameTime(Some(at), if candles[i].ts.Some? then candles[i].ts else Some(0.0))
                             && rules.signal(seen[|seen| - cfg.lookback..], at) == Some(r.decision))
            && r.labels.regime == rules.regime(seen)
            && r.labels.rs == rules.rs(seen, AtOrBefore(bench, candles[i].ts), r.decision.action)
            && r.labels.forecast == rules.forecast(seen, r.decision.action)
            && r.labels.session == rules.session(candles[i].ts)
            && Take(future, cfg.horizon) != []
            && Some(r.outcome) == if cfg.manage then rules.managed(r.decision, Take(future, cfg.horizon))
                                  else Score(r.decision, future, cfg.horizon)
  {
    hide AtOrBefore, Resolve, Take;
    var seen := candles[..i + 1];
    assert seen[|seen| - cfg.lookback..] == candles[i + 1 - cfg.lookback..i + 1];
    var ts := Seconds(candles[i].ts);
    var at := if ts.Some? then ts.value else 0.0;
    assert SameTime(Some(at), if candles[i].ts.Some? then candles[i].ts else Some(0.0));
  }
}
