/** Average and peak CPU rate over metric samples. A sample may lack the CPU counter; strict
    reading refuses that, lenient reading skips it. */
module CpuRate {
  import opened Text
  import SoakTrend

  datatype Sample = Sample(at: real, cpu: Option<real>)
  datatype Point = Point(at: real, cpu: real)

  datatype Rate = Refused | Rate(cores: real)

  function AtLeastZero(x: real): real {
    if x < 0.0 then 0.0 else x
  }

  function Quotient(a: real, b: real): real
    requires b != 0.0
  {
    a / b
  }

  /** The rate between two points, never negative. */
  function RateBetween(a: Point, b: Point): real
    requires a.at < b.at
  {
    AtLeastZero(Quotient(b.cpu - a.cpu, b.at - a.at))
  }

  /** The samples that carry the counter. */
  function Points(samples: seq<Sample>): seq<Point> {
    if samples == [] then [] else
    Points(samples[..|samples| - 1]) +
    match samples[|samples| - 1].cpu case Some(cpu) => [Point(samples[|samples| - 1].at, cpu)] case None => []
  }

  predicate AllPresent(samples: seq<Sample>) {
    forall i :: 0 <= i < |samples| ==> samples[i].cpu.Some?
  }

  /** The average over a list of samples: first to last sample that carries the counter. */
  function AverageRate(samples: seq<Sample>, strict: bool): Rate {
    if |samples| < 2 then (if strict then Refused else Rate(0.0))
    else if strict && !AllPresent(samples) then Refused
    else
      var points := Points(samples);
      if |points| < 2 then (if strict then Refused else Rate(0.0))
      else if points[|points| - 1].at <= points[0].at then (if strict then Refused else Rate(0.0))
      else Rate(RateBetween(points[0], points[|points| - 1]))
  }

  /** What one neighbouring pair contributes; `Refused` where strict reading raises. */
  function PairRate(a: Sample, b: Sample, strict: bool): Rate {
    if a.cpu.None? || b.cpu.None? then (if strict then Refused else Rate(0.0))
    else if b.at <= a.at then (if strict then Refused else Rate(0.0))
    else Rate(RateBetween(Point(a.at, a.cpu.value), Point(b.at, b.cpu.value)))
  }

  /** `compute_cpu_rate_cores`: the loop that collects the points. */
  method ComputeAverage(samples: seq<Sample>, strict: bool) returns (result: Rate)
    ensures result == AverageRate(samples, strict)
  {
    if |samples| < 2 {
      return if strict then Refused else Rate(0.0);
    }
    var points := [];
    for i := 0 to |samples|
      invariant points == Points(samples[..i])
      invariant strict ==> AllPresent(samples[..i])
    {
      assert samples[..i + 1][..i] == samples[..i];
      match samples[i].cpu
      case None =>
        if strict {
          return Refused;
        }
      case Some(cpu) => points := points + [Point(samples[i].at, cpu)];
    }
    assert samples[..|samples|] == samples;
    if |points| < 2 {
      return if strict then Refused else Rate(0.0);
    }
    var elapsed := points[|points| - 1].at - points[0].at;
    if elapsed <= 0.0 {
      return if strict then Refused else Rate(0.0);
    }
    return Rate(AtLeastZero(Quotient(points[|points| - 1].cpu - points[0].cpu, elapsed)));
  }

  function Larger(a: real, b: real): real {
    if b > a then b else a
  }

  function PeakOver(samples: seq<Sample>, strict: bool, n: nat): Rate
    requires n <= |samples|
  {
    if n < 2 then Rate(0.0) else
    match (PeakOver(samples, strict, n - 1), PairRate(samples[n - 2], samples[n - 1], strict))
    case (Rate(peak), Rate(rate)) => Rate(Larger(peak, rate))
    case (_, _) => Refused
  }

  function PeakRate(samples: seq<Sample>, strict: bool): Rate {
    if |samples| < 2 then (if strict then Refused else Rate(0.0)) else PeakOver(samples, strict, |samples|)
  }

  /** `compute_peak_cpu_cores`: the loop over neighbouring samples. */
  method ComputePeak(samples: seq<Sample>, strict: bool) returns (result: Rate)
    ensures result == PeakRate(samples, strict)
  {
    if |samples| < 2 {
      return if strict then Refused else Rate(0.0);
    }
    var peak := 0.0;
    for i := 1 to |samples|
      invariant PeakOver(samples, strict, i) == Rate(peak)
    {
      match PairRate(samples[i - 1], samples[i], strict)
      case Refused =>
        RefusedStays(samples, strict, i + 1);
        return Refused;
      case Rate(rate) =>
        if rate > peak {
          peak := rate;
        }
    }
    return Rate(peak);
  }

  lemma {:induction false} RefusedStays(samples: seq<Sample>, strict: bool, n: nat)
    requires n <= |samples| && PeakOver(samples, strict, n).Refused?
    ensures PeakOver(samples, strict, |samples|).Refused?
    decreases |samples| - n
  {
    if n < |samples| {
      RefusedStays(samples, strict, n + 1);
    }
  }

  // ----- which lists strict reading accepts -----

  ghost predicate InTime(samples: seq<Sample>) {
    forall i, j :: 0 <= i < j < |samples| ==> samples[i].at < samples[j].at
  }

  lemma {:induction false} AcceptedPrefix(samples: seq<Sample>, n: nat)
    requires n <= |samples|
    ensures PeakOver(samples, true, n).Rate? <==> n < 2 || (AllPresent(samples[..n]) && InTime(samples[..n]))
  {
    if n >= 2 {
      AcceptedPrefix(samples, n - 1);
      if PairRate(samples[n - 2], samples[n - 1], true).Rate? {
        PrefixExtends(samples, n);
      }
      if AllPresent(samples[..n]) && InTime(samples[..n]) {
        PrefixShrinks(samples, n);
      }
    }
  }

  lemma PrefixExtends(samples: seq<Sample>, n: nat)
    requires 2 <= n <= |samples| && PairRate(samples[n - 2], samples[n - 1], true).Rate?
    ensures (n == 2 || (AllPresent(samples[..n - 1]) && InTime(samples[..n - 1]))) ==>
              AllPresent(samples[..n]) && InTime(samples[..n])
  {
    hide RateBetween;
    if n == 2 || (AllPresent(samples[..n - 1]) && InTime(samples[..n - 1])) {
      var longer, shorter := samples[..n], samples[..n - 1];
      forall i | 0 <= i < n ensures longer[i].cpu.Some? {
        if i < n - 2 {
          assert longer[i] == shorter[i];
        }
      }
      forall i, j | 0 <= i < j < n ensures longer[i].at < longer[j].at {
        if i < n - 2 {
          assert shorter[i].at < shorter[n - 2].at;
          if j < n - 1 {
            assert shorter[i].at < shorter[j].at;
          }
        }
      }
    }
  }

  lemma PrefixShrinks(samples: seq<Sample>, n: nat)
    requires 2 <= n <= |samples| && AllPresent(samples[..n]) && InTime(samples[..n])
    ensures AllPresent(samples[..n - 1]) && InTime(samples[..n - 1])
    ensures PairRate(samples[n - 2], samples[n - 1], true).Rate?
  {
    hide RateBetween;
    var longer, shorter := samples[..n], samples[..n - 1];
    assert forall i :: 0 <= i < n - 1 ==> shorter[i] == longer[i];
    assert longer[n - 2].at < longer[n - 1].at;
    assert longer[n - 2].cpu.Some? && longer[n - 1].cpu.Some?;
  }

  /** Strict reading yields a peak exactly for two or more samples, all complete, in time order. */
  lemma StrictPeakExistsIff(samples: seq<Sample>)
    ensures PeakRate(samples, true).Rate? <==> 2 <= |samples| && AllPresent(samples) && InTime(samples)
  {
    AcceptedPrefix(samples, |samples|);
    assert samples[..|samples|] == samples;
  }

  lemma {:induction false} LenientPeakOver(samples: seq<Sample>, n: nat)
    requires n <= |samples|
    ensures PeakOver(samples, false, n).Rate?
  {
    if n >= 2 {
      LenientPeakOver(samples, n - 1);
    }
  }

  lemma LenientPeakExists(samples: seq<Sample>)
    ensures PeakRate(samples, false).Rate?
  {
    LenientPeakOver(samples, |samples|);
  }

  // ----- the peak as a bound on neighbouring pairs -----

  lemma {:induction false} PeakBoundsPairs(samples: seq<Sample>, strict: bool, n: nat, k: nat)
    requires n <= |samples| && PeakOver(samples, strict, n).Rate? && k + 1 < n
    ensures PairRate(samples[k], samples[k + 1], strict).Rate?
    ensures PairRate(samples[k], samples[k + 1], strict).cores <= PeakOver(samples, strict, n).cores
  {
    hide PairRate;
    if k + 2 < n {
      PeakBoundsPairs(samples, strict, n - 1, k);
    }
  }

  lemma {:induction false} PeakIsNonNegative(samples: seq<Sample>, strict: bool, n: nat)
    requires n <= |samples| && PeakOver(samples, strict, n).Rate?
    ensures PeakOver(samples, strict, n).cores >= 0.0
  {
    hide PairRate;
    if n >= 2 {
      PeakIsNonNegative(samples, strict, n - 1);
    }
  }

  /** A peak above zero is the rate of some neighbouring pair. */
  lemma {:induction false} PeakIsAttained(samples: seq<Sample>, strict: bool, n: nat) returns (k: nat)
    requires n <= |samples| && PeakOver(samples, strict, n).Rate? && PeakOver(samples, strict, n).cores > 0.0
    ensures k + 1 < n && PairRate(samples[k], samples[k + 1], strict) == PeakOver(samples, strict, n)
  {
    hide PairRate;
    if PeakOver(samples, strict, n - 1) == PeakOver(samples, strict, n) {
      k := PeakIsAttained(samples, strict, n - 1);
    } else {
      k := n - 2;
    }
  }

  // ----- average against peak -----

  predicate Present(samples: seq<Sample>, i: nat) {
    i < |samples| && samples[i].cpu.Some?
  }

  function PointOf(sample: Sample): Point
    requires sample.cpu.Some?
  {
    Point(sample.at, sample.cpu.value)
  }

  /** The rate from one complete sample to a later one, whatever lies between. */
  function Span(samples: seq<Sample>, i: nat, j: nat): real
    requires Present(samples, i) && Present(samples, j) && samples[i].at < samples[j].at
  {
    RateBetween(PointOf(samples[i]), PointOf(samples[j]))
  }

  /** Two complete samples, in time order but not neighbours, with no complete sample between them
      in both place and time: a stretch the peak does not look at. */
  ghost predicate Hole(samples: seq<Sample>, i: nat, j: nat) {
    && i + 1 < j && Present(samples, i) && Present(samples, j) && samples[i].at < samples[j].at
    && forall k :: i < k < j && Present(samples, k) ==> !(samples[i].at < samples[k].at < samples[j].at)
  }

  /** Neighbouring complete samples in time order: a stretch the peak does look at. */
  ghost predicate StepAt(samples: seq<Sample>, k: nat) {
    Present(samples, k) && Present(samples, k + 1) && samples[k].at < samples[k + 1].at
  }

  /** The hole was crossed without a rise, or no faster than some step. */
  ghost predicate Matched(samples: seq<Sample>, i: nat, j: nat)
    requires Hole(samples, i, j)
  {
    Span(samples, i, j) == 0.0 || exists k: nat :: StepAt(samples, k) && Span(samples, i, j) <= Span(samples, k, k + 1)
  }

  ghost predicate HolesMatched(samples: seq<Sample>) {
    forall i: nat, j: nat :: Hole(samples, i, j) ==> Matched(samples, i, j)
  }

  lemma RateBound(a: Point, b: Point, peak: real)
    requires a.at < b.at && 0.0 <= peak
    ensures RateBetween(a, b) <= peak <==> b.cpu - a.cpu <= SoakTrend.Times(peak, b.at - a.at)
  {
    var d, t := b.cpu - a.cpu, b.at - a.at;
    assert Quotient(d, t) * t == d;
    if Quotient(d, t) <= peak {
      assert (peak - Quotient(d, t)) * t >= 0.0;
    } else {
      assert (Quotient(d, t) - peak) * t > 0.0;
    }
  }

  /** The peak is at least the rate of every step, and a hole's rate is matched exactly when it is
      within the peak. */
  lemma StepWithinPeak(samples: seq<Sample>, strict: bool, k: nat)
    requires PeakRate(samples, strict).Rate? && StepAt(samples, k)
    ensures Span(samples, k, k + 1) <= PeakRate(samples, strict).cores
  {
    hide RateBetween, PeakOver;
    PeakBoundsPairs(samples, strict, |samples|, k);
  }

  lemma PeakIsReached(samples: seq<Sample>, strict: bool) returns (k: nat)
    requires PeakRate(samples, strict).Rate? && PeakRate(samples, strict).cores > 0.0
    ensures StepAt(samples, k) && Span(samples, k, k + 1) == PeakRate(samples, strict).cores
  {
    hide RateBetween, PeakOver;
    k := PeakIsAttained(samples, strict, |samples|);
  }

  lemma MatchedIffWithinPeak(samples: seq<Sample>, strict: bool, i: nat, j: nat)
    requires PeakRate(samples, strict).Rate? && Hole(samples, i, j)
    ensures Matched(samples, i, j) <==> Span(samples, i, j) <= PeakRate(samples, strict).cores
  {
    hide Span, PeakRate;
    SpanIsNonNegative(samples, i, j);
    PeakRateIsNonNegative(samples, strict);
    if Matched(samples, i, j) {
      if k: nat :| StepAt(samples, k) && Span(samples, i, j) <= Span(samples, k, k + 1) {
        StepWithinPeak(samples, strict, k);
      }
    } else if PeakRate(samples, strict).cores > 0.0 {
      var k := PeakIsReached(samples, strict);
    }
  }

  lemma SpanIsNonNegative(samples: seq<Sample>, i: nat, j: nat)
    requires Present(samples, i) && Present(samples, j) && samples[i].at < samples[j].at
    ensures Span(samples, i, j) >= 0.0
  {
  }

  lemma PeakRateIsNonNegative(samples: seq<Sample>, strict: bool)
    requires PeakRate(samples, strict).Rate?
    ensures PeakRate(samples, strict).cores >= 0.0
  {
    PeakIsNonNegative(samples, strict, |samples|);
  }

  /** Steps and matched holes within the peak add up to a rise within the peak. */
  lemma {:induction false} RiseWithin(samples: seq<Sample>, strict: bool, i: nat, j: nat)
    requires i < j && Present(samples, i) && Present(samples, j) && samples[i].at < samples[j].at
    requires PeakRate(samples, strict).Rate? && HolesMatched(samples)
    ensures Span(samples, i, j) <= PeakRate(samples, strict).cores
    decreases j - i
  {
    hide RateBetween, PeakRate;
    if i + 1 == j {
      StepWithinPeak(samples, strict, i);
    } else if Hole(samples, i, j) {
      MatchedIffWithinPeak(samples, strict, i, j);
    } else {
      var k: nat :| i < k < j && Present(samples, k) && samples[i].at < samples[k].at < samples[j].at;
      RiseWithin(samples, strict, i, k);
      RiseWithin(samples, strict, k, j);
      PeakRateIsNonNegative(samples, strict);
      RatesCompose(PointOf(samples[i]), PointOf(samples[k]), PointOf(samples[j]), PeakRate(samples, strict).cores);
    }
  }

  lemma RatesCompose(a: Point, b: Point, c: Point, peak: real)
    requires a.at < b.at < c.at && 0.0 <= peak && RateBetween(a, b) <= peak && RateBetween(b, c) <= peak
    ensures RateBetween(a, c) <= peak
  {
    hide SoakTrend.Times, RateBetween;
    RateBound(a, b, peak);
    RateBound(b, c, peak);
    RateBound(a, c, peak);
    SoakTrend.TimesSum(peak, b.at - a.at, c.at - b.at);
    assert b.at - a.at + (c.at - b.at) == c.at - a.at;
  }

  /** The first and last collected points come from samples of the list. */
  lemma {:induction false} Ends(samples: seq<Sample>) returns (i: nat, j: nat)
    requires Points(samples) != []
    ensures i <= j && Present(samples, i) && Present(samples, j)
    ensures Points(samples)[0] == PointOf(samples[i]) && Points(samples)[|Points(samples)| - 1] == PointOf(samples[j])
    ensures i == j <==> |Points(samples)| == 1
  {
    var n := |samples| - 1;
    if Points(samples[..n]) == [] {
      i, j := n, n;
    } else {
      i, j := Ends(samples[..n]);
      if Present(samples, n) {
        j := n;
      }
    }
  }

  /** With every hole matched, no window averages above the peak, in whatever order the samples come. */
  lemma WindowStaysBelow(samples: seq<Sample>, strict: bool, from': nat, to: nat)
    requires from' <= to <= |samples| && PeakRate(samples, strict).Rate? && HolesMatched(samples)
    requires AverageRate(samples[from'..to], strict).Rate?
    ensures AverageRate(samples[from'..to], strict).cores <= PeakRate(samples, strict).cores
  {
    hide RateBetween, HolesMatched, Points, PeakRate;
    var window := samples[from'..to];
    PeakRateIsNonNegative(samples, strict);
    if |Points(window)| >= 2 {
      var i, j := Ends(window);
      if window[i].at < window[j].at {
        RiseWithin(samples, strict, from' + i, from' + j);
      }
    }
  }

  /** Whenever strict reading of all the samples yields a peak, strict reading of every window of
      two or more of them yields an average, and it is at most that peak. */
  lemma AverageNeverExceedsPeak(samples: seq<Sample>, from': nat, to: nat)
    requires PeakRate(samples, true).Rate? && from' + 2 <= to <= |samples|
    ensures AverageRate(samples[from'..to], true).Rate?
    ensures AverageRate(samples[from'..to], true).cores <= PeakRate(samples, true).cores
  {
    hide RateBetween, PeakRate;
    StrictPeakExistsIff(samples);
    var window := samples[from'..to];
    CompleteAverageExists(window);
    forall i: nat, j: nat ensures !Hole(samples, i, j) {
      assert i + 1 < j < |samples| ==> Present(samples, i + 1) && samples[i].at < samples[i + 1].at < samples[j].at;
    }
    WindowStaysBelow(samples, true, from', to);
  }

  lemma CompleteAverageExists(samples: seq<Sample>)
    requires 2 <= |samples| && AllPresent(samples) && InTime(samples)
    ensures AverageRate(samples, true).Rate?
  {
    hide RateBetween;
    PointsOfComplete(samples);
    assert samples[0].at < samples[|samples| - 1].at;
  }

  lemma {:induction false} PointsOfComplete(samples: seq<Sample>)
    requires AllPresent(samples)
    ensures |Points(samples)| == |samples|
    ensures forall i :: 0 <= i < |samples| ==> Points(samples)[i] == PointOf(samples[i])
  {
    if samples != [] {
      PointsOfComplete(samples[..|samples| - 1]);
    }
  }

  /** The bound is tight: a strict peak above zero is the strict average of some window. */
  lemma StrictPeakIsSomeAverage(samples: seq<Sample>) returns (k: nat)
    requires PeakRate(samples, true).Rate? && PeakRate(samples, true).cores > 0.0
    ensures k + 2 <= |samples| && AverageRate(samples[k..k + 2], true) == PeakRate(samples, true)
  {
    hide RateBetween, PeakOver;
    StrictPeakExistsIff(samples);
    k := PeakIsAttained(samples, true, |samples|);
    var window := samples[k..k + 2];
    PointsOfComplete(window);
    assert AverageRate(window, true) == PairRate(samples[k], samples[k + 1], true);
  }

  // ----- lenient reading with holes -----

  lemma {:induction false} FirstPoint(samples: seq<Sample>)
    requires Present(samples, 0)
    ensures Points(samples) != [] && Points(samples)[0] == PointOf(samples[0])
  {
    if |samples| > 1 {
      FirstPoint(samples[..|samples| - 1]);
    }
  }

  lemma AverageOverAHole(samples: seq<Sample>, i: nat, j: nat)
    requires Hole(samples, i, j)
    ensures AverageRate(samples[i..j + 1], false) == Rate(Span(samples, i, j))
  {
    hide RateBetween;
    var window := samples[i..j + 1];
    FirstPoint(window[..|window| - 1]);
    assert Points(window) == Points(window[..|window| - 1]) + [PointOf(samples[j])];
  }

  ghost predicate LenientAveragesWithinPeak(samples: seq<Sample>) {
    forall i: nat, j: nat :: i <= j <= |samples| ==> Cores(AverageRate(samples[i..j], false)) <= Cores(PeakRate(samples, false))
  }

  function Cores(rate: Rate): real {
    match rate case Rate(cores) => cores case Refused => 0.0
  }

  /** Lenient reading keeps every window's average within the peak exactly when every hole was
      crossed without a rise or no faster than some step. */
  lemma LenientBoundHoldsIff(samples: seq<Sample>)
    ensures LenientAveragesWithinPeak(samples) <==> HolesMatched(samples)
  {
    hide RateBetween, AverageRate, Span, PeakRate, Matched, Hole;
    LenientPeakExists(samples);
    if HolesMatched(samples) {
      forall i: nat, j: nat | i <= j <= |samples|
        ensures Cores(AverageRate(samples[i..j], false)) <= Cores(PeakRate(samples, false))
      {
        LenientAverageExists(samples[i..j]);
        WindowStaysBelow(samples, false, i, j);
      }
    }
    if LenientAveragesWithinPeak(samples) {
      forall i: nat, j: nat | Hole(samples, i, j) ensures Matched(samples, i, j) {
        HoleIsInside(samples, i, j);
        AverageOverAHole(samples, i, j);
        assert Cores(AverageRate(samples[i..j + 1], false)) <= Cores(PeakRate(samples, false));
        MatchedIffWithinPeak(samples, false, i, j);
      }
    }
  }

  lemma HoleIsInside(samples: seq<Sample>, i: nat, j: nat)
    requires Hole(samples, i, j)
    ensures i < j < |samples| && Present(samples, i) && Present(samples, j) && samples[i].at < samples[j].at
  {
  }

  lemma LenientAverageExists(samples: seq<Sample>)
    ensures AverageRate(samples, false).Rate?
  {
  }

  /** Lenient reading with a hole breaks the bound: the peak skips the pairs around it, the average does not. */
  lemma AHoleCanHideThePeak()
    ensures var samples := [Sample(0.0, Some(0.0)), Sample(1.0, None), Sample(2.0, Some(10.0))];
            InTime(samples) && AverageRate(samples, false) == Rate(5.0) && PeakRate(samples, false) == Rate(0.0)
  {
    var samples := [Sample(0.0, Some(0.0)), Sample(1.0, None), Sample(2.0, Some(10.0))];
    assert samples[..2][..1][..0] == [];
    assert samples[..2][..1] == [samples[0]];
    assert Points([samples[0]]) == [Point(0.0, 0.0)] by { assert [samples[0]][..0] == []; }
    assert samples[..2] == [samples[0], samples[1]];
    assert Points(samples[..2]) == [Point(0.0, 0.0)];
    assert Points(samples) == [Point(0.0, 0.0), Point(2.0, 10.0)];
    assert PeakOver(samples, false, 1) == Rate(0.0);
    assert PeakOver(samples, false, 2) == Rate(0.0);
  }

  /** So can two samples with the same time: the peak skips the pair, the average does not. */
  lemma DisorderCanHideThePeak()
    ensures var samples := [Sample(0.0, Some(0.0)), Sample(0.0, Some(10.0)), Sample(1.0, Some(10.0))];
            AverageRate(samples, false) == Rate(10.0) && PeakRate(samples, false) == Rate(0.0)
  {
    var samples := [Sample(0.0, Some(0.0)), Sample(0.0, Some(10.0)), Sample(1.0, Some(10.0))];
    PointsOfComplete(samples);
    assert Points(samples)[0] == Point(0.0, 0.0) && Points(samples)[2] == Point(1.0, 10.0);
    assert PeakOver(samples, false, 1) == Rate(0.0);
    assert PeakOver(samples, false, 2) == Rate(0.0);
  }
}
