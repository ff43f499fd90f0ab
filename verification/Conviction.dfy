/** `graph._apply_weight_map_to_conviction`: scaling a committed decision's conviction by the mean
    weight of the dimensions its fingerprint carries. */
module Conviction {
  import opened PyStrings
  import opened PyNumbers
  import opened Fingerprint

  datatype Weighting = Weighting(dimension: string, weight: real)

  /** `{dim: weight_map.get(dim, 1.0) for dim in parsed}` */
  function Applied(tags: seq<Tag>, weights: map<string, real>): (r: seq<Weighting>)
    ensures |r| == |tags|
    ensures forall i :: 0 <= i < |r| ==> r[i].dimension == tags[i].dimension
    ensures forall i :: 0 <= i < |r| ==>
              r[i].weight == if tags[i].dimension in weights then weights[tags[i].dimension] else 1.0
  {
    seq(|tags|, i requires 0 <= i < |tags| =>
      Weighting(tags[i].dimension, if tags[i].dimension in weights then weights[tags[i].dimension] else 1.0))
  }

  function Total(ws: seq<Weighting>): real {
    if ws == [] then 0.0 else Total(ws[..|ws| - 1]) + ws[|ws| - 1].weight
  }

  /** `int(round(conviction * mean))`, clamped to 0..100. */
  function Scaled(conviction: real, mean: real): (n: int)
    ensures 0 <= n <= 100
  {
    var n := Round(conviction * mean);
    if n < 0 then 0 else if n > 100 then 100 else n
  }

  /** The conviction after the pass; None is a score that is not a number. */
  function Attenuated(conviction: Option<real>, ws: seq<Weighting>): Option<real> {
    if conviction.None? || ws == [] then conviction
    else Some(Scaled(conviction.value, Total(ws) / |ws| as real) as real)
  }

  predicate UnitWeights(ws: seq<Weighting>) {
    forall i :: 0 <= i < |ws| ==> 0.0 < ws[i].weight <= 1.0
  }

  lemma {:induction false} TotalBounds(ws: seq<Weighting>)
    requires UnitWeights(ws)
    ensures 0.0 <= Total(ws) <= |ws| as real && (ws != [] ==> Total(ws) > 0.0)
    ensures (forall i :: 0 <= i < |ws| ==> ws[i].weight == 1.0) ==> Total(ws) == |ws| as real
  {
    if ws != [] {
      TotalBounds(ws[..|ws| - 1]);
    }
  }

  lemma UnitQuotient(a: real, n: real)
    requires 0.0 < a <= n
    ensures 0.0 < a / n <= 1.0
  {
    assert (a / n) * n == a;
  }

  lemma MeanInUnit(ws: seq<Weighting>)
    requires UnitWeights(ws) && ws != []
    ensures 0.0 < Total(ws) / |ws| as real <= 1.0
  {
    hide Total;
    TotalBounds(ws);
    UnitQuotient(Total(ws), |ws| as real);
  }

  lemma Shrinks(c: real, m: real)
    requires c >= 0.0 && 0.0 < m <= 1.0
    ensures 0.0 <= c * m <= c
  {
    assert c * (1.0 - m) >= 0.0;
  }

  /** Weights in (0, 1] can never raise a conviction exactly when it is not negative and rounding
      alone does not raise it. */
  lemma NeverRaised(c: real)
    ensures (forall m: real :: 0.0 < m <= 1.0 ==> Scaled(c, m) as real <= c) <==>
            c >= 0.0 && (c >= 100.0 || Round(c) as real <= c)
  {
    if c >= 0.0 && (c >= 100.0 || Round(c) as real <= c) {
      forall m: real | 0.0 < m <= 1.0
        ensures Scaled(c, m) as real <= c
      {
        Shrinks(c, m);
        RoundMonotone(c * m, c);
      }
    } else {
      assert c * 1.0 == c;
      assert Scaled(c, 1.0) as real > c;
    }
  }

  /** The scores the agent commits are integers, and those are only ever attenuated; and weights
      of 1 leave one in range alone. */
  lemma IntegersAreAttenuated(n: nat, ws: seq<Weighting>)
    requires UnitWeights(ws)
    ensures Attenuated(Some(n as real), ws).value <= n as real
    ensures n <= 100 && (forall i :: 0 <= i < |ws| ==> ws[i].weight == 1.0) ==>
              Attenuated(Some(n as real), ws) == Some(n as real)
  {
    hide Scaled;
    if ws != [] {
      MeanInUnit(ws);
      RoundInteger(n);
      NeverRaised(n as real);
      TotalBounds(ws);
      if n <= 100 {
        NeutralKeeps(n);
        assert |ws| as real / |ws| as real == 1.0;
      }
    }
  }

  lemma NeutralKeeps(n: nat)
    requires n <= 100
    ensures Scaled(n as real, 1.0) == n
  {
    RoundInteger(n);
    assert n as real * 1.0 == n as real;
  }

  /** The new score is the whole number from 0 to 100 nearest to the product, the even one of two that are
      equally near. */
  lemma NearestScore(c: real, m: real, k: int)
    requires 0 <= k <= 100
    ensures Distance(Scaled(c, m) as real, c * m) <= Distance(k as real, c * m)
    ensures Distance(Scaled(c, m) as real, c * m) == Distance(k as real, c * m) ==>
                  k == Scaled(c, m) || Scaled(c, m) % 2 == 0
  {
    hide Round;
    ScaledIs(c, m);
    ClampedNearest(c * m, k);
  }

  lemma ClampedNearest(p: real, k: int)
    requires 0 <= k <= 100
    ensures var n := Round(p); var s := if n < 0 then 0 else if n > 100 then 100 else n;
            && Distance(s as real, p) <= Distance(k as real, p)
            && (Distance(s as real, p) == Distance(k as real, p) ==> k == s || s % 2 == 0)
  {
    hide Round;
    RoundNearest(p, k);
  }

  /** Attenuation keeps the order of convictions. */
  lemma OrderKept(a: real, b: real, m: real)
    requires a <= b && m > 0.0
    ensures Scaled(a, m) <= Scaled(b, m)
  {
    assert (b - a) * m >= 0.0;
    RoundMonotone(a * m, b * m);
  }

  /** What the pass adds to a decision's defensibility record. */
  datatype Record = Record(weights: Option<seq<Weighting>>, before: Option<real>, after: Option<real>)

  /** A committed decision; `plan` stands for its levels and everything else it carries. */
  class Decision<Plan> {
    var action: string
    var plan: Plan
    var conviction: Option<real>
    var record: Option<Record>

    constructor (action: string, plan: Plan, conviction: Option<real>, record: Option<Record>)
      ensures this.action == action && this.plan == plan && this.conviction == conviction && this.record == record
    {
      this.action, this.plan, this.conviction, this.record := action, plan, conviction, record;
    }

    /** `_apply_weight_map_to_conviction`: only the conviction and the audit fields may change. */
    method ApplyWeightMap(enabled: bool, weights: map<string, real>, key: Option<string>)
      modifies `conviction, `record
      ensures !enabled || old(record).None? ==> conviction == old(conviction) && record == old(record)
      ensures enabled && old(record).Some? ==>
                var ws := Applied(Parsed(key), weights);
                && conviction == Attenuated(old(conviction), ws)
                && record == Some(
                     if old(conviction).None? || ws == [] then old(record).value.(weights := Some(ws))
                     else Record(Some(ws), old(conviction), conviction))
    {
      hide Attenuated, Scaled, Parsed, Round, Total;
      ghost var was := conviction;
      ghost var ws := Applied(Parsed(key), weights);
      AttenuatedIs(was, ws);
      if !enabled || record.None? {
        return;
      }
      var tags := ParseSetupKey(key);
      var applied := Applied(tags, weights);
      record := Some(record.value.(weights := Some(applied)));
      if |applied| > 0 && conviction.Some? {
        var before := conviction;
        var scaled := Attenuate(before.value, applied);
        record := Some(record.value.(before := before, after := Some(scaled as real)));
        conviction := Some(scaled as real);
        assert record == Some(Record(Some(applied), before, conviction));
      }
    }
  }

  /** The arithmetic of the pass. */
  method Attenuate(conviction: real, applied: seq<Weighting>) returns (scaled: int)
    requires applied != []
    ensures scaled == Scaled(conviction, Total(applied) / |applied| as real)
  {
    hide Round, Scaled;
    var sum := SumWeights(applied);
    var meanWeight := sum / |applied| as real;
    ScaledIs(conviction, meanWeight);
    scaled := Round(conviction * meanWeight);
    scaled := if scaled < 0 then 0 else if scaled > 100 then 100 else scaled;
  }

  lemma ScaledIs(c: real, m: real)
    ensures var n := Round(c * m); Scaled(c, m) == if n < 0 then 0 else if n > 100 then 100 else n
  {
    hide Round;
  }

  lemma AttenuatedIs(conviction: Option<real>, ws: seq<Weighting>)
    ensures Attenuated(conviction, ws) ==
            if conviction.None? || ws == [] then conviction
            else Some(Scaled(conviction.value, Total(ws) / |ws| as real) as real)
  {
  }

  method SumWeights(ws: seq<Weighting>) returns (sum: real)
    ensures sum == Total(ws)
  {
    sum := 0.0;
    for i := 0 to |ws|
      invariant sum == Total(ws[..i])
    {
      assert ws[..i + 1][..i] == ws[..i];
      sum := sum + ws[i].weight;
    }
    assert ws[..|ws|] == ws;
  }
}
