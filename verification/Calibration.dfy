/** `backtest._calibration_from_records`: forecast probabilities binned in place and compared with
    what happened. */
module Calibration {
  import opened PyStrings

  /** A record; the probability is None when it is missing or not a finite number. */
  datatype Record = Record(p: Option<real>, up: bool)

  predicate Binnable(r: Record) { r.p.Some? && 0.0 <= r.p.value <= 1.0 }

  /** The bin of a probability: equal widths, with 1.0 in the last bin. */
  function BinOf(p: real, n: nat): (k: nat)
    requires n >= 1 && 0.0 <= p <= 1.0
    ensures k < n
  {
    var i := (p * n as real).Floor;
    if i >= n then n - 1 else if i < 0 then 0 else i
  }

  /** The records of one bin. */
  function InBin(records: seq<Record>, n: nat, k: nat): (r: seq<Record>)
    requires n >= 1
    ensures forall i :: 0 <= i < |r| ==> Binnable(r[i]) && BinOf(r[i].p.value, n) == k
  {
    if records == [] then []
    else
      var last := records[|records| - 1];
      InBin(records[..|records| - 1], n, k) + if Binnable(last) && BinOf(last.p.value, n) == k then [last] else []
  }

  function Valid(records: seq<Record>): seq<Record> {
    if records == [] then []
    else Valid(records[..|records| - 1]) + if Binnable(records[|records| - 1]) then [records[|records| - 1]] else []
  }

  function Predicted(rs: seq<Record>): real
    requires forall i :: 0 <= i < |rs| ==> Binnable(rs[i])
  {
    if rs == [] then 0.0
    else
      assert Binnable(rs[|rs| - 1]);
      Predicted(rs[..|rs| - 1]) + rs[|rs| - 1].p.value
  }

  function Ups(rs: seq<Record>): (n: nat)
    ensures n <= |rs|
  {
    if rs == [] then 0 else Ups(rs[..|rs| - 1]) + if rs[|rs| - 1].up then 1 else 0
  }

  datatype Bin = Bin(count: nat, mean: Option<real>, fraction: Option<real>)

  /** What a bin must report about its records. */
  predicate BinFits(b: Bin, rs: seq<Record>)
    requires forall i :: 0 <= i < |rs| ==> Binnable(rs[i])
  {
    && b.count == |rs|
    && (rs == [] ==> b.mean.None? && b.fraction.None?)
    && (rs != [] ==> b.mean.Some? && b.fraction.Some?
                     && b.mean.value * |rs| as real == Predicted(rs)
                     && b.fraction.value * |rs| as real == Ups(rs) as real)
  }

  function Abs(x: real): real { if x < 0.0 then -x else x }

  /** The gaps of the non-empty bins. */
  function Gaps(bins: seq<Bin>): (gs: seq<real>)
    ensures |gs| <= |bins| && forall i :: 0 <= i < |gs| ==> gs[i] >= 0.0
  {
    if bins == [] then []
    else
      var b := bins[|bins| - 1];
      Gaps(bins[..|bins| - 1]) + if b.mean.Some? && b.fraction.Some? then [Abs(b.mean.value - b.fraction.value)] else []
  }

  function Sum(xs: seq<real>): real {
    if xs == [] then 0.0 else Sum(xs[..|xs| - 1]) + xs[|xs| - 1]
  }

  /** The calibration error: the mean gap, or nothing without records. */
  function ErrorOf(bins: seq<Bin>): Option<real> {
    var gs := Gaps(bins);
    if gs == [] then None else Some(Sum(gs) / |gs| as real)
  }

  lemma InBinSnoc(records: seq<Record>, n: nat, k: nat, r: Record)
    requires n >= 1
    ensures InBin(records + [r], n, k) ==
            if Binnable(r) && BinOf(r.p.value, n) == k then InBin(records, n, k) + [r] else InBin(records, n, k)
  {
    hide BinOf;
    assert (records + [r])[..|records|] == records;
  }

  lemma ValidSnoc(records: seq<Record>, r: Record)
    ensures |Valid(records + [r])| == |Valid(records)| + if Binnable(r) then 1 else 0
  {
    assert (records + [r])[..|records|] == records;
  }

  lemma TallySnoc(rs: seq<Record>, r: Record)
    requires (forall i :: 0 <= i < |rs| ==> Binnable(rs[i])) && Binnable(r)
    ensures Predicted(rs + [r]) == Predicted(rs) + r.p.value && Ups(rs + [r]) == Ups(rs) + if r.up then 1 else 0
  {
    assert (rs + [r])[..|rs|] == rs;
  }

  /** The three arrays hold the tallies of every bin. */
  ghost predicate Tallied(records: seq<Record>, n: nat, counts: array<nat>, sums: array<real>, ups: array<nat>)
    requires n >= 1 && counts.Length == sums.Length == ups.Length == n
    reads counts, sums, ups
  {
    forall k :: 0 <= k < n ==>
      && counts[k] == |InBin(records, n, k)| && sums[k] == Predicted(InBin(records, n, k))
      && ups[k] == Ups(InBin(records, n, k))
  }

  /** One record into its bin. */
  method Count(ghost before: seq<Record>, r: Record, n: nat, counts: array<nat>, sums: array<real>, ups: array<nat>)
    requires n >= 1 && counts.Length == sums.Length == ups.Length == n && counts != ups
    requires Binnable(r) && Tallied(before, n, counts, sums, ups)
    modifies counts, sums, ups
    ensures Tallied(before + [r], n, counts, sums, ups)
  {
    hide BinOf, InBin, Predicted, Ups;
    var k := BinOf(r.p.value, n);
    forall j | 0 <= j < n
      ensures InBin(before + [r], n, j) == if j == k then InBin(before, n, j) + [r] else InBin(before, n, j)
    {
      InBinSnoc(before, n, j, r);
    }
    TallySnoc(InBin(before, n, k), r);
    counts[k] := counts[k] + 1;
    sums[k] := sums[k] + r.p.value;
    if r.up {
      ups[k] := ups[k] + 1;
    }
  }

  /** The pass over the records. */
  method TallyAll(records: seq<Record>, n: nat)
    returns (counts: array<nat>, sums: array<real>, ups: array<nat>, total: nat)
    requires n >= 1
    ensures fresh(counts) && fresh(sums) && fresh(ups) && counts.Length == sums.Length == ups.Length == n
    ensures Tallied(records, n, counts, sums, ups) && total == |Valid(records)|
  {
    hide InBin, Predicted, Ups, Binnable, Valid;
    counts, sums, ups := new nat[n](i => 0), new real[n](i => 0.0), new nat[n](i => 0);
    total := 0;
    NothingTallied(records, n);
    for i := 0 to |records|
      invariant fresh(counts) && fresh(sums) && fresh(ups)
      invariant Tallied(records[..i], n, counts, sums, ups)
      invariant total == |Valid(records[..i])|
    {
      assert records[..i + 1] == records[..i] + [records[i]];
      ValidSnoc(records[..i], records[i]);
      if !Binnable(records[i]) {
        SkippedTally(records[..i], n, records[i]);
        continue;
      }
      Count(records[..i], records[i], n, counts, sums, ups);
      total := total + 1;
    }
    assert records[..|records|] == records;
  }

  lemma GapsSnoc(bins: seq<Bin>, b: Bin)
    ensures Gaps(bins + [b]) == Gaps(bins) +
                if b.mean.Some? && b.fraction.Some? then [Abs(b.mean.value - b.fraction.value)] else []
  {
    assert (bins + [b])[..|bins|] == bins;
  }

  /** `_calibration_from_records` */
  method Calibrate(records: seq<Record>, bins: int) returns (report: seq<Bin>, error: Option<real>, total: nat)
    ensures |report| == if bins < 1 then 1 else bins
    ensures forall k :: 0 <= k < |report| ==> BinFits(report[k], InBin(records, |report|, k))
    ensures error == ErrorOf(report)
    ensures total == |Valid(records)|
  {
    hide InBin, BinFits, Gaps, Abs, Valid, Tallied, Predicted, Ups;
    var n := if bins < 1 then 1 else bins;
    var counts, sums, ups;
    counts, sums, ups, total := TallyAll(records, n);
    report := [];
    var gaps: seq<real> := [];
    NoGaps();
    for k := 0 to n
      invariant |report| == k && gaps == Gaps(report) && Tallied(records, n, counts, sums, ups)
      invariant forall j :: 0 <= j < k ==> BinFits(report[j], InBin(records, n, j))
    {
      var b := Bin(0, None, None);
      ghost var rs := InBin(records, n, k);
      TallyAt(records, n, counts, sums, ups, k);
      if counts[k] != 0 {
        b := Bin(counts[k], Some(sums[k] / counts[k] as real), Some(ups[k] as real / counts[k] as real));
        gaps := gaps + [Abs(b.mean.value - b.fraction.value)];
      }
      BinOfTally(b, rs);
      GapsSnoc(report, b);
      report := report + [b];
    }
    var sum := SumUp(gaps);
    error := if |gaps| == 0 then None else Some(sum / |gaps| as real);
  }

  lemma TallyAt(records: seq<Record>, n: nat, counts: array<nat>, sums: array<real>, ups: array<nat>, k: nat)
    requires n >= 1 && counts.Length == sums.Length == ups.Length == n &&
             Tallied(records, n, counts, sums, ups) && k < n
    ensures var rs := InBin(records, n, k); counts[k] == |rs| && sums[k] == Predicted(rs) && ups[k] == Ups(rs)
  {
  }

  lemma NoGaps()
    ensures Gaps([]) == []
  {
  }

  lemma NothingTallied(records: seq<Record>, n: nat)
    requires n >= 1
    ensures records[..0] == [] && Predicted([]) == 0.0 && Ups([]) == 0 && Valid([]) == []
    ensures forall k: nat :: InBin([], n, k) == []
  {
  }

  lemma SkippedTally(records: seq<Record>, n: nat, r: Record)
    requires n >= 1 && !Binnable(r)
    ensures forall k: nat :: InBin(records + [r], n, k) == InBin(records, n, k)
  {
    hide InBin;
    forall k: nat
      ensures InBin(records + [r], n, k) == InBin(records, n, k)
    {
      InBinSnoc(records, n, k, r);
    }
  }

  lemma BinOfTally(b: Bin, rs: seq<Record>)
    requires forall i :: 0 <= i < |rs| ==> Binnable(rs[i])
    requires b == if rs == [] then Bin(0, None, None)
                  else Bin(|rs|, Some(Predicted(rs) / |rs| as real), Some(Ups(rs) as real / |rs| as real))
    ensures BinFits(b, rs)
  {
    hide Predicted, Ups;
    if rs != [] {
      Quotient(Predicted(rs), |rs| as real);
      Quotient(Ups(rs) as real, |rs| as real);
    }
  }

  lemma Quotient(a: real, n: real)
    requires n > 0.0
    ensures (a / n) * n == a
  {
  }

  method SumUp(xs: seq<real>) returns (sum: real)
    ensures sum == Sum(xs)
  {
    sum := 0.0;
    for i := 0 to |xs|
      invariant sum == Sum(xs[..i])
    {
      assert xs[..i + 1][..i] == xs[..i];
      sum := sum + xs[i];
    }
    assert xs[..|xs|] == xs;
  }

  // ── What the report says ─────────────────────────────────────────────────

  function CountUpTo(records: seq<Record>, n: nat, m: nat): nat
    requires n >= 1
  {
    if m == 0 then 0 else CountUpTo(records, n, m - 1) + |InBin(records, n, m - 1)|
  }

  lemma {:induction false} CountSnoc(records: seq<Record>, r: Record, n: nat, m: nat)
    requires n >= 1
    ensures CountUpTo(records + [r], n, m) ==
            CountUpTo(records, n, m) + if Binnable(r) && BinOf(r.p.value, n) < m then 1 else 0
  {
    hide InBin, BinOf;
    if m > 0 {
      CountSnoc(records, r, n, m - 1);
      InBinSnoc(records, n, m - 1, r);
    }
  }

  /** Every valid record is counted in exactly one bin. */
  lemma {:induction false} CountsConserved(records: seq<Record>, n: nat)
    requires n >= 1
    ensures CountUpTo(records, n, n) == |Valid(records)|
  {
    hide CountUpTo, Valid;
    if records == [] {
      NothingCounted(n, n);
      NothingTallied(records, n);
    } else {
      var init, last := records[..|records| - 1], records[|records| - 1];
      CountsConserved(init, n);
      CountSnoc(init, last, n, n);
      ValidSnoc(init, last);
      assert records == init + [last];
    }
  }

  lemma {:induction false} NothingCounted(n: nat, m: nat)
    requires n >= 1
    ensures CountUpTo([], n, m) == 0
  {
    if m > 0 {
      NothingCounted(n, m - 1);
      NothingTallied([], n);
    }
  }

  lemma BinBounds(p: real, n: nat)
    requires n >= 1 && 0.0 <= p <= 1.0
    ensures BinOf(p, n) as real <= p * n as real <= (BinOf(p, n) + 1) as real
  {
    assert p * n as real <= 1.0 * n as real;
    assert p * n as real >= 0.0;
  }

  /** A probability belongs to the bin it reaches but does not pass: one on an edge opens the bin above it, and
      only 1.0 closes one, the last. */
  lemma BinEdges(p: real, n: nat, k: nat)
    requires n >= 1 && 0.0 <= p <= 1.0
    ensures BinOf(p, n) == k <==>
            k < n && k as real <= p * n as real && (p * n as real < (k + 1) as real || (p == 1.0 && k == n - 1))
  {
    var x := p * n as real;
    assert p < 1.0 ==> (1.0 - p) * n as real > 0.0;
    assert x <= n as real && (x == n as real ==> p == 1.0);
  }

  /** Which records a bin holds: those with a probability from 0 to 1 that reaches the bin and does not pass it. */
  lemma {:induction false} InBinMeans(records: seq<Record>, n: nat, k: nat, r: Record)
    requires n >= 1
    ensures r in InBin(records, n, k) <==>
            && r in records && r.p.Some? && 0.0 <= r.p.value <= 1.0 && k < n && k as real <= r.p.value * n as real
            && (r.p.value * n as real < (k + 1) as real || (r.p.value == 1.0 && k == n - 1))
  {
    hide BinOf;
    if records != [] {
      var init, last := records[..|records| - 1], records[|records| - 1];
      InBinMeans(init, n, k, r);
      InBinSnoc(init, n, k, last);
      assert records == init + [last];
      if Binnable(last) {
        BinEdges(last.p.value, n, k);
      }
    }
  }

  /** Rises are counted. */
  lemma {:induction false} UpsCount(rs: seq<Record>)
    ensures Ups(rs) == |set i | 0 <= i < |rs| && rs[i].up|
  {
    if rs != [] {
      var n := |rs| - 1;
      UpsCount(rs[..n]);
      var u := set i | 0 <= i < n && rs[..n][i].up;
      assert (set i | 0 <= i < |rs| && rs[i].up) == if rs[n].up then u + {n} else u;
    }
  }

  lemma {:induction false} PredictedBounds(rs: seq<Record>, n: nat, k: nat)
    requires n >= 1 && forall i :: 0 <= i < |rs| ==> Binnable(rs[i]) && BinOf(rs[i].p.value, n) == k
    ensures k as real * |rs| as real <= Predicted(rs) * n as real <= (k + 1) as real * |rs| as real
    ensures 0.0 <= Predicted(rs) <= |rs| as real
  {
    hide BinOf;
    if rs != [] {
      var m := |rs| - 1;
      PredictedBounds(rs[..m], n, k);
      assert Binnable(rs[m]);
      BinBounds(rs[m].p.value, n);
      Spread(Predicted(rs[..m]), rs[m].p.value, n as real, m as real, k as real);
    }
  }

  lemma Spread(a: real, p: real, n: real, m: real, k: real)
    ensures (a + p) * n == a * n + p * n && k * (m + 1.0) == k * m + k &&
            (k + 1.0) * (m + 1.0) == (k + 1.0) * m + (k + 1.0)
  {
  }

  /** A bin's mean prediction lies within the bin, its realised fraction between 0 and 1. */
  lemma BinMeansInRange(b: Bin, records: seq<Record>, n: nat, k: nat)
    requires n >= 1 && BinFits(b, InBin(records, n, k)) && b.count > 0
    ensures k as real <= b.mean.value * n as real <= (k + 1) as real
    ensures 0.0 <= b.mean.value <= 1.0 && 0.0 <= b.fraction.value <= 1.0
  {
    hide Predicted, Ups, InBin, BinOf;
    var rs := InBin(records, n, k);
    PredictedBounds(rs, n, k);
    MeanBracket(b.mean.value, Predicted(rs), |rs| as real, n as real, k as real);
    Within(b.mean.value, |rs| as real, Predicted(rs));
    Within(b.fraction.value, |rs| as real, Ups(rs) as real);
  }

  lemma MeanBracket(mean: real, total: real, c: real, n: real, k: real)
    requires c > 0.0 && mean * c == total && k * c <= total * n <= (k + 1.0) * c
    ensures k <= mean * n <= k + 1.0
  {
    assert total * n == (mean * n) * c;
    Above(mean * n, c, total * n, k);
    Below(mean * n, c, total * n, k + 1.0);
  }

  lemma Above(x: real, c: real, t: real, k: real)
    requires c > 0.0 && x * c == t && k * c <= t
    ensures k <= x
  {
    if k > x {
      Positive(k - x, c);
    }
  }

  lemma Below(x: real, c: real, t: real, k: real)
    requires c > 0.0 && x * c == t && t <= k * c
    ensures x <= k
  {
    if x > k {
      Positive(x - k, c);
    }
  }

  lemma Positive(x: real, c: real)
    requires x > 0.0 && c > 0.0
    ensures x * c > 0.0
  {
  }

  lemma Within(x: real, c: real, total: real)
    requires c > 0.0 && x * c == total && 0.0 <= total <= c
    ensures 0.0 <= x <= 1.0
    ensures x == 0.0 <==> total == 0.0
  {
    if x < 0.0 {
      Positive(-x, c);
    } else if x > 0.0 {
      Positive(x, c);
    }
    if x > 1.0 {
      Positive(x - 1.0, c);
    }
  }

  predicate AllZero(gs: seq<real>) {
    forall i :: 0 <= i < |gs| ==> gs[i] == 0.0
  }

  lemma ZeroSnoc(gs: seq<real>, g: real)
    ensures AllZero(gs + [g]) <==> AllZero(gs) && g == 0.0
  {
    if AllZero(gs + [g]) {
      assert forall i :: 0 <= i < |gs| ==> gs[i] == (gs + [g])[i];
      assert (gs + [g])[|gs|] == g;
    }
  }

  lemma {:induction false} SumBounds(xs: seq<real>)
    requires forall i :: 0 <= i < |xs| ==> 0.0 <= xs[i] <= 1.0
    ensures 0.0 <= Sum(xs) <= |xs| as real
    ensures Sum(xs) == 0.0 <==> AllZero(xs)
  {
    if xs != [] {
      SumBounds(xs[..|xs| - 1]);
      ZeroSnoc(xs[..|xs| - 1], xs[|xs| - 1]);
      assert xs == xs[..|xs| - 1] + [xs[|xs| - 1]];
    }
  }

  /** Reported means and fractions lie between 0 and 1. */
  predicate InUnit(bins: seq<Bin>) {
    forall k :: 0 <= k < |bins| && bins[k].mean.Some? && bins[k].fraction.Some? ==>
      0.0 <= bins[k].mean.value <= 1.0 && 0.0 <= bins[k].fraction.value <= 1.0
  }

  predicate Exact(bins: seq<Bin>) {
    forall k :: 0 <= k < |bins| ==> ExactBin(bins[k])
  }

  predicate ExactBin(b: Bin) { b.mean.Some? && b.fraction.Some? ==> b.mean == b.fraction }

  lemma {:induction false} GapsInUnit(bins: seq<Bin>)
    requires InUnit(bins)
    ensures forall i :: 0 <= i < |Gaps(bins)| ==> 0.0 <= Gaps(bins)[i] <= 1.0
    ensures AllZero(Gaps(bins)) <==> Exact(bins)
  {
    hide Gaps, AllZero;
    if bins == [] {
      NoGaps();
      assert AllZero([]) by { NothingZero(); }
    } else {
      var init, b := bins[..|bins| - 1], bins[|bins| - 1];
      GapsInUnit(init);
      assert bins == init + [b];
      assert Exact(bins) <==> Exact(init) && ExactBin(b);
      GapsSnoc(init, b);
      if b.mean.Some? && b.fraction.Some? {
        ZeroSnoc(Gaps(init), Abs(b.mean.value - b.fraction.value));
        assert Abs(b.mean.value - b.fraction.value) == 0.0 <==> b.mean == b.fraction;
      } else {
        assert Gaps(init) + [] == Gaps(init);
      }
    }
  }

  lemma NothingZero()
    ensures AllZero([])
  {
  }

  /** The calibration error lies between 0 and 1, and is zero exactly when every non-empty bin came out
      as predicted. */
  lemma ErrorInUnit(bins: seq<Bin>)
    requires InUnit(bins) && ErrorOf(bins).Some?
    ensures 0.0 <= ErrorOf(bins).value <= 1.0
    ensures ErrorOf(bins).value == 0.0 <==> Exact(bins)
  {
    hide Gaps, Sum, Exact;
    var gs := Gaps(bins);
    GapsInUnit(bins);
    SumBounds(gs);
    Quotient(Sum(gs), |gs| as real);
    Within(ErrorOf(bins).value, |gs| as real, Sum(gs));
  }

  /** The summed distances between prediction and outcome over the bins that have both. */
  function GapTotal(bins: seq<Bin>): real {
    if bins == [] then 0.0 else Gap(bins[0]) + GapTotal(bins[1..])
  }

  predicate Filled(b: Bin) { b.mean.Some? && b.fraction.Some? }

  function Gap(b: Bin): real {
    if !Filled(b) then 0.0
    else if b.mean.value < b.fraction.value then b.fraction.value - b.mean.value
    else b.mean.value - b.fraction.value
  }

  function FilledCount(bins: seq<Bin>): nat {
    if bins == [] then 0 else (if Filled(bins[0]) then 1 else 0) + FilledCount(bins[1..])
  }

  lemma {:induction false} GapTotalSnoc(bins: seq<Bin>, b: Bin)
    ensures GapTotal(bins + [b]) == GapTotal(bins) + Gap(b)
    ensures FilledCount(bins + [b]) == FilledCount(bins) + if Filled(b) then 1 else 0
  {
    if bins == [] {
      assert ([] + [b])[1..] == [];
    } else {
      GapTotalSnoc(bins[1..], b);
      assert (bins + [b])[1..] == bins[1..] + [b];
    }
  }

  lemma {:induction false} GapsTotal(bins: seq<Bin>)
    ensures Sum(Gaps(bins)) == GapTotal(bins) && |Gaps(bins)| == FilledCount(bins)
  {
    hide GapTotal, FilledCount;
    if bins == [] {
      assert GapTotal([]) == 0.0 && FilledCount([]) == 0 by { NothingFilled(); }
    } else {
      var init, b := bins[..|bins| - 1], bins[|bins| - 1];
      GapsTotal(init);
      GapTotalSnoc(init, b);
      assert bins == init + [b];
      assert Gaps(init) + [] == Gaps(init);
      if Filled(b) {
        assert (Gaps(init) + [Gap(b)])[..|Gaps(init)|] == Gaps(init);
      }
    }
  }

  lemma NothingFilled()
    ensures GapTotal([]) == 0.0 && FilledCount([]) == 0
  {
  }

  /** The calibration error is the distance between prediction and outcome averaged over the non-empty bins, and
      there is none without one. */
  lemma ErrorIsMeanGap(bins: seq<Bin>)
    ensures ErrorOf(bins).None? <==> FilledCount(bins) == 0
    ensures ErrorOf(bins).Some? ==> ErrorOf(bins).value * FilledCount(bins) as real == GapTotal(bins)
  {
    hide Gaps, Sum, GapTotal, FilledCount;
    GapsTotal(bins);
    if |Gaps(bins)| > 0 {
      Quotient(Sum(Gaps(bins)), |Gaps(bins)| as real);
    }
  }
}
