/** The soak acceptance contract: `evaluate` and its parts, with times and metrics as reals.
    The list of messages is kept as the set of errors it stands for. */
module SoakContract {
  import opened Text
  import opened SoakTrend

  datatype Sample = Sample(elapsed: real, metrics: map<string, real>)
  datatype Event = Event(name: string, elapsed: real, ok: bool)

  const REQUIRED := {
    "routing", "cors", "http", "grpc", "l4", "auth_allow", "auth_deny", "auth_dns",
    "discovery", "pressure", "retry_budget", "retry_deadline", "circuit_recovery", "health_recovery", "unsafe_post",
    "committed_response", "client_cancel", "grpc_pressure_cancel", "l4_pressure",
    "l4_fault_recovery", "tighten", "dns_deny", "invalid_candidate", "rollback", "redirect"
  }

  const SAMPLE_SECONDS := 10
  const MAX_GAP := 25.0
  const MAX_CYCLE_GAP := 90.0
  const WARMUP := 600.0
  const MIB := 1048576.0
  const RSS_CEILING := 1024.0 * MIB
  const RSS_GROWTH := 128.0 * MIB
  const RSS_SLOPE := 16.0 * MIB
  const HEAP_GROWTH := 128.0 * MIB
  const GOROUTINE_GROWTH := 96.0
  const FD_GROWTH := 8.0
  const SERIES_GROWTH := 128
  const SERIES_CEILING := 3000

  const RSS := "process_resident_memory_bytes"
  const HEAP := "go_memstats_heap_inuse_bytes"
  const GOROUTINES := "go_goroutines"
  const FDS := "process_open_fds"

  datatype Error =
    | ShortDuration | SampleCountMissing | InitialSampleMissing | RecordingGap
    | PhaseMissing(name: string) | PhaseNotRepeated(name: string) | WorkloadFailure
    | InsufficientSamples | Growth(key: string) | RssCeiling | RssTrend | Cardinality
    | QuietMissing | QuietFds | QuietGoroutines | AdmissionLeak

  function When(condition: bool, error: Error): set<Error> {
    if condition then {error} else {}
  }

  /** `metrics` refuses a sample without a resource metric. */
  ghost predicate Measured(samples: seq<Sample>) {
    forall i :: 0 <= i < |samples| ==> {RSS, HEAP, GOROUTINES, FDS} <= samples[i].metrics.Keys
  }

  // ----- timing -----

  predicate HasGap(samples: seq<Sample>) {
    exists k :: 0 <= k < |samples| - 1 && BadStep(samples[k], samples[k + 1])
  }

  predicate BadStep(a: Sample, b: Sample) {
    b.elapsed - a.elapsed > MAX_GAP || b.elapsed <= a.elapsed
  }

  function Elapsed(samples: seq<Sample>): real {
    if samples == [] then 0.0 else samples[|samples| - 1].elapsed
  }

  function TimingErrors(seconds: int, samples: seq<Sample>, elapsed: real): set<Error> {
    When(elapsed < seconds as real, ShortDuration) +
    When(|samples| < seconds / SAMPLE_SECONDS + 1, SampleCountMissing) +
    When(samples == [] || samples[0].elapsed > MAX_GAP, InitialSampleMissing) +
    When(HasGap(samples), RecordingGap)
  }

  // ----- phases -----

  /** The times of the successful events of one phase, in the order recorded. */
  function TimesOf(events: seq<Event>, name: string): seq<real> {
    if events == [] then [] else
    var last := events[|events| - 1];
    TimesOf(events[..|events| - 1], name) + if last.name == name && last.ok then [last.elapsed] else []
  }

  /** Some gap, at either end or between neighbours, exceeds the limit. */
  predicate GapExceeds(times: seq<real>, elapsed: real, limit: real)
    requires times != []
  {
    || times[0] > limit
    || elapsed - times[|times| - 1] > limit
    || exists k :: 0 <= k < |times| - 1 && Over(times[k], times[k + 1], limit)
  }

  predicate Over(a: real, b: real, limit: real) {
    b - a > limit
  }

  function PhaseError(events: seq<Event>, elapsed: real, name: string): set<Error> {
    var times := TimesOf(events, name);
    if times == [] then {PhaseMissing(name)}
    else When(GapExceeds(times, elapsed, MAX_CYCLE_GAP), PhaseNotRepeated(name))
  }

  predicate AnyFailed(events: seq<Event>) {
    exists i :: 0 <= i < |events| && !events[i].ok
  }

  ghost function PhaseErrors(events: seq<Event>, elapsed: real): set<Error> {
    (set name, error | name in REQUIRED && error in PhaseError(events, elapsed, name) :: error) +
    When(AnyFailed(events), WorkloadFailure)
  }

  /** The loop over the required phases. */
  method CheckPhases(events: seq<Event>, elapsed: real) returns (errors: set<Error>)
    ensures errors == PhaseErrors(events, elapsed)
  {
    hide PhaseError;
    errors := {};
    var names := REQUIRED;
    while names != {}
      invariant names <= REQUIRED
      invariant errors == set name, error | name in REQUIRED - names && error in PhaseError(events, elapsed, name) :: error
      decreases names
    {
      var name :| name in names;
      errors := errors + PhaseError(events, elapsed, name);
      names := names - {name};
    }
    assert REQUIRED - names == REQUIRED;
    errors := errors + When(AnyFailed(events), WorkloadFailure);
  }

  // ----- resources -----

  /** The samples no later, or no earlier, than a moment. */
  function UpTo(samples: seq<Sample>, t: real): seq<Sample> {
    if samples == [] then [] else
    UpTo(samples[..|samples| - 1], t) + if samples[|samples| - 1].elapsed <= t then [samples[|samples| - 1]] else []
  }

  function From(samples: seq<Sample>, t: real): seq<Sample> {
    if samples == [] then [] else
    From(samples[..|samples| - 1], t) + if samples[|samples| - 1].elapsed >= t then [samples[|samples| - 1]] else []
  }

  lemma {:induction false} InUpTo(samples: seq<Sample>, t: real)
    ensures forall s :: s in UpTo(samples, t) <==> s in samples && s.elapsed <= t
  {
    if samples != [] {
      InUpTo(samples[..|samples| - 1], t);
      assert samples == samples[..|samples| - 1] + [samples[|samples| - 1]];
    }
  }

  lemma {:induction false} InFrom(samples: seq<Sample>, t: real)
    ensures forall s :: s in From(samples, t) <==> s in samples && s.elapsed >= t
  {
    if samples != [] {
      InFrom(samples[..|samples| - 1], t);
      assert samples == samples[..|samples| - 1] + [samples[|samples| - 1]];
    }
  }

  /** The largest value of a metric over some samples. */
  function Peak(samples: seq<Sample>, key: string): (m: real)
    requires samples != [] && forall i :: 0 <= i < |samples| ==> key in samples[i].metrics
    ensures forall s :: s in samples ==> s.metrics[key] <= m
    ensures exists s :: s in samples && s.metrics[key] == m
  {
    var last := samples[|samples| - 1];
    assert last in samples;
    if |samples| == 1 then last.metrics[key] else
    var m := Peak(samples[..|samples| - 1], key);
    if last.metrics[key] > m then last.metrics[key] else m
  }

  datatype Baseline = Baseline(rss: real, heap: real, goroutines: real, fds: real)

  function BaselineOf(warm: seq<Sample>): Baseline
    requires warm != [] && Measured(warm)
  {
    Baseline(Peak(warm, RSS), Peak(warm, HEAP), Peak(warm, GOROUTINES), Peak(warm, FDS))
  }

  /** A metric's largest active value, against its warm-up value. */
  function GrowthError(active: seq<Sample>, base: real, key: string, limit: real): set<Error>
    requires active != [] && Measured(active) && key in {RSS, HEAP, GOROUTINES, FDS}
  {
    When(Peak(active, key) > base + limit, Growth(key))
  }

  function CeilingError(samples: seq<Sample>): set<Error>
    requires samples != [] && Measured(samples)
  {
    When(Peak(samples, RSS) > RSS_CEILING, RssCeiling)
  }

  function GrowthErrors(samples: seq<Sample>, active: seq<Sample>, baseline: Baseline): set<Error>
    requires samples != [] && active != [] && Measured(samples) && Measured(active)
  {
    GrowthError(active, baseline.rss, RSS, RSS_GROWTH) +
    GrowthError(active, baseline.heap, HEAP, HEAP_GROWTH) +
    GrowthError(active, baseline.goroutines, GOROUTINES, GOROUTINE_GROWTH) +
    CeilingError(samples)
  }

  predicate AdmissionMetric(key: string) {
    StartsWith(key, "jul_upstream_active_requests{") || StartsWith(key, "jul_upstream_pending_requests{")
  }

  predicate Leaks(sample: Sample) {
    exists key :: key in sample.metrics && AdmissionMetric(key) && sample.metrics[key] != 0.0
  }

  function QuietError(sample: Sample, baseline: Baseline): set<Error>
    requires {GOROUTINES, FDS} <= sample.metrics.Keys
  {
    When(sample.metrics[FDS] > baseline.fds + FD_GROWTH, QuietFds) +
    When(sample.metrics[GOROUTINES] > baseline.goroutines + GOROUTINE_GROWTH, QuietGoroutines) +
    When(Leaks(sample), AdmissionLeak)
  }

  ghost function QuietErrors(quiet: seq<Sample>, baseline: Baseline): set<Error>
    requires Measured(quiet)
  {
    if |quiet| < 3 || quiet[|quiet| - 1].elapsed - quiet[0].elapsed < 20.0 then {QuietMissing}
    else set i, error | 0 <= i < |quiet| && error in QuietError(quiet[i], baseline) :: error
  }

  /** The loop over the quiescent samples. */
  method CheckQuiet(quiet: seq<Sample>, baseline: Baseline) returns (errors: set<Error>)
    requires Measured(quiet)
    ensures errors == QuietErrors(quiet, baseline)
  {
    if |quiet| < 3 || quiet[|quiet| - 1].elapsed - quiet[0].elapsed < 20.0 {
      return {QuietMissing};
    }
    errors := {};
    for k := 0 to |quiet|
      invariant errors == set i, error | 0 <= i < k && error in QuietError(quiet[i], baseline) :: error
    {
      errors := errors + QuietError(quiet[k], baseline);
    }
  }

  function Hours(samples: seq<Sample>): seq<real>
    requires samples != []
  {
    seq(|samples|, i requires 0 <= i < |samples| => (samples[i].elapsed - samples[0].elapsed) / 3600.0)
  }

  function Values(samples: seq<Sample>, key: string): seq<real>
    requires forall i :: 0 <= i < |samples| ==> key in samples[i].metrics
  {
    seq(|samples|, i requires 0 <= i < |samples| => samples[i].metrics[key])
  }

  /** Bytes per hour; none where `slope` raises. */
  function Slope(samples: seq<Sample>, key: string): Option<real>
    requires samples != [] && forall i :: 0 <= i < |samples| ==> key in samples[i].metrics
  {
    LeastSquares(Hours(samples), Values(samples, key))
  }

  function SeriesOf(samples: seq<Sample>): set<string> {
    set sample, key | sample in samples && key in sample.metrics :: key
  }

  predicate TooManySeries(warm: seq<Sample>, samples: seq<Sample>) {
    |SeriesOf(samples)| > SERIES_CEILING || |SeriesOf(samples)| > |SeriesOf(warm)| + SERIES_GROWTH
  }

  function WarmupOf(seconds: int): real {
    if seconds as real / 3.0 < WARMUP then seconds as real / 3.0 else WARMUP
  }

  function TailOf(seconds: int, samples: seq<Sample>): seq<Sample> {
    From(From(samples, WarmupOf(seconds)), seconds as real / 2.0)
  }

  datatype Outcome = Raised | Errors(errors: set<Error>)

  /** The trend is assessed from an hour on. */
  function TrendErrors(seconds: int, tail: seq<Sample>): Outcome
    requires Measured(tail)
  {
    if seconds < 3600 then Errors({})
    else if |tail| < 2 then Errors({RssTrend})
    else match Slope(tail, RSS)
      case Some(rate) => Errors(When(rate > RSS_SLOPE, RssTrend))
      case None => Raised
  }

  lemma Subsets(seconds: int, samples: seq<Sample>)
    requires Measured(samples)
    ensures Measured(UpTo(samples, WarmupOf(seconds))) && Measured(From(samples, WarmupOf(seconds)))
    ensures Measured(TailOf(seconds, samples))
  {
    hide WarmupOf, UpTo, From;
    InUpTo(samples, WarmupOf(seconds));
    InFrom(samples, WarmupOf(seconds));
    InFrom(From(samples, WarmupOf(seconds)), seconds as real / 2.0);
    assert forall s :: s in samples ==> {RSS, HEAP, GOROUTINES, FDS} <= s.metrics.Keys;
  }

  ghost function ResourceErrors(seconds: int, samples: seq<Sample>, quiet: seq<Sample>): Outcome
    requires Measured(samples) && Measured(quiet)
  {
    Subsets(seconds, samples);
    var warm, active := UpTo(samples, WarmupOf(seconds)), From(samples, WarmupOf(seconds));
    if warm == [] || |active| < 2 then Errors({InsufficientSamples}) else
    var baseline := BaselineOf(warm);
    match TrendErrors(seconds, TailOf(seconds, samples))
    case Raised => Raised
    case Errors(trend) =>
      Errors(GrowthErrors(samples, active, baseline) + trend +
             When(TooManySeries(warm, samples), Cardinality) + QuietErrors(quiet, baseline))
  }

  datatype Verdict = Crashed | Verdict(passed: bool, candidate: bool, measured: real, samples: nat, errors: set<Error>)

  ghost function Evaluate(seconds: int, samples: seq<Sample>, events: seq<Event>, quiet: seq<Sample>): Verdict
    requires Measured(samples) && Measured(quiet)
  {
    var elapsed := Elapsed(samples);
    match ResourceErrors(seconds, samples, quiet)
    case Raised => Crashed
    case Errors(resource) =>
      var errors := TimingErrors(seconds, samples, elapsed) + PhaseErrors(events, elapsed) + resource;
      Verdict(errors == {}, errors == {} && seconds >= 28800, elapsed, |samples|, errors)
  }

  /** `resource_errors` as it runs. */
  method CheckResources(seconds: int, samples: seq<Sample>, quiet: seq<Sample>) returns (outcome: Outcome)
    requires Measured(samples) && Measured(quiet)
    ensures outcome == ResourceErrors(seconds, samples, quiet)
  {
    hide GrowthErrors, QuietErrors, TrendErrors, TooManySeries, TailOf, WarmupOf, BaselineOf;
    Subsets(seconds, samples);
    var warm, active := UpTo(samples, WarmupOf(seconds)), From(samples, WarmupOf(seconds));
    if warm == [] || |active| < 2 {
      return Errors({InsufficientSamples});
    }
    var baseline := BaselineOf(warm);
    outcome := TrendErrors(seconds, TailOf(seconds, samples));
    if outcome.Errors? {
      var quietly := CheckQuiet(quiet, baseline);
      outcome := Errors(GrowthErrors(samples, active, baseline) + outcome.errors +
                        When(TooManySeries(warm, samples), Cardinality) + quietly);
    }
  }

  /** `evaluate` as it runs. */
  method EvaluateRun(seconds: int, samples: seq<Sample>, events: seq<Event>, quiet: seq<Sample>) returns (verdict: Verdict)
    requires Measured(samples) && Measured(quiet)
    ensures verdict == Evaluate(seconds, samples, events, quiet)
  {
    hide TimingErrors, PhaseErrors, ResourceErrors;
    var elapsed := Elapsed(samples);
    var phases := CheckPhases(events, elapsed);
    var resources := CheckResources(seconds, samples, quiet);
    if resources.Raised? {
      return Crashed;
    }
    var errors := TimingErrors(seconds, samples, elapsed) + phases + resources.errors;
    return Verdict(errors == {}, errors == {} && seconds >= 28800, elapsed, |samples|, errors);
  }

  // ----- what passing means: no uncovered window -----

  /** A first time at or past `a` cannot lie more than `limit` past it. */
  lemma {:induction false} FirstReached(times: seq<real>, limit: real, a: real, k: nat) returns (j: nat)
    requires k < |times| && times[k] >= a
    requires times[0] <= a + limit
    requires forall i :: 0 <= i < |times| - 1 ==> !Over(times[i], times[i + 1], limit)
    ensures j < |times| && a <= times[j] <= a + limit
  {
    if k == 0 {
      j := 0;
    } else if times[k - 1] >= a {
      j := FirstReached(times, limit, a, k - 1);
    } else {
      var i := k - 1;
      assert !Over(times[i], times[i + 1], limit);
      j := k;
    }
  }

  lemma NoGapMeansCovered(times: seq<real>, elapsed: real, limit: real, a: real) returns (j: nat)
    requires times != [] && !GapExceeds(times, elapsed, limit)
    requires 0.0 <= a && a + limit <= elapsed
    ensures j < |times| && a <= times[j] <= a + limit
  {
    j := FirstReached(times, limit, a, |times| - 1);
  }

  ghost predicate Covered(times: seq<real>, a: real, limit: real) {
    exists k :: 0 <= k < |times| && a <= times[k] <= a + limit
  }

  /** The end of the run, or the last time where that is later: workers finish their round after
      the last sample. */
  function End(times: seq<real>, elapsed: real): real
    requires times != []
  {
    if times[|times| - 1] > elapsed then times[|times| - 1] else elapsed
  }

  /** For times recorded in order, the gap check rejects exactly the runs with an uncovered window. */
  lemma GapExceedsIffSomeWindowIsUncovered(times: seq<real>, elapsed: real, limit: real)
    requires times != [] && limit > 0.0 && 0.0 <= times[0]
    requires forall i, j :: 0 <= i < j < |times| ==> times[i] <= times[j]
    ensures GapExceeds(times, elapsed, limit) <==>
            exists a :: 0.0 <= a && a + limit <= End(times, elapsed) && !Covered(times, a, limit)
  {
    var last := times[|times| - 1];
    assert forall i :: 0 <= i < |times| ==> times[0] <= times[i] <= last;
    if times[0] > limit {
      assert !Covered(times, 0.0, limit);
    } else if elapsed - last > limit {
      assert !Covered(times, elapsed - limit, limit);
    } else if k :| 0 <= k < |times| - 1 && Over(times[k], times[k + 1], limit) {
      var a := times[k] + (times[k + 1] - times[k] - limit) / 2.0;
      assert a > times[k] && a + limit < times[k + 1];
      forall i | 0 <= i < |times| ensures !(a <= times[i] <= a + limit) {
        if i <= k {
          assert times[i] <= times[k];
        } else {
          assert times[i] >= times[k + 1];
        }
      }
      assert !Covered(times, a, limit);
    }
    if !GapExceeds(times, elapsed, limit) {
      forall a | 0.0 <= a && a + limit <= End(times, elapsed) ensures Covered(times, a, limit) {
        var j := NoGapMeansCovered(times, End(times, elapsed), limit, a);
      }
    }
  }

  lemma {:induction false} TimesComeFromEvents(events: seq<Event>, name: string, k: nat) returns (i: nat)
    requires k < |TimesOf(events, name)|
    ensures i < |events| && events[i].name == name && events[i].ok && events[i].elapsed == TimesOf(events, name)[k]
  {
    var n := |events| - 1;
    if k < |TimesOf(events[..n], name)| {
      i := TimesComeFromEvents(events[..n], name, k);
    } else {
      i := n;
    }
  }

  /** If the run passes, every 90-second window holds a success of every required phase, even
      when events are not in order. */
  lemma PassingCoversEveryPhaseWindow(seconds: int, samples: seq<Sample>, events: seq<Event>, quiet: seq<Sample>,
                                      name: string, a: real)
    requires Measured(samples) && Measured(quiet)
    requires Evaluate(seconds, samples, events, quiet).Verdict? && Evaluate(seconds, samples, events, quiet).passed
    requires name in REQUIRED && 0.0 <= a && a + MAX_CYCLE_GAP <= Elapsed(samples)
    ensures exists i :: 0 <= i < |events| && events[i].name == name && events[i].ok
                        && a <= events[i].elapsed <= a + MAX_CYCLE_GAP
  {
    hide ResourceErrors, TimingErrors, TimesOf;
    var elapsed := Elapsed(samples);
    var verdict := Evaluate(seconds, samples, events, quiet);
    assert verdict.errors == {};
    assert PhaseErrors(events, elapsed) <= verdict.errors;
    PhaseErrorsInclude(events, elapsed, name);
    assert PhaseError(events, elapsed, name) == {};
    var times := TimesOf(events, name);
    var j := NoGapMeansCovered(times, elapsed, MAX_CYCLE_GAP, a);
    var i := TimesComeFromEvents(events, name, j);
  }

  lemma PhaseErrorsInclude(events: seq<Event>, elapsed: real, name: string)
    requires name in REQUIRED
    ensures PhaseError(events, elapsed, name) <= PhaseErrors(events, elapsed)
  {
    hide PhaseError;
  }

  function SampleTimes(samples: seq<Sample>): seq<real> {
    seq(|samples|, i requires 0 <= i < |samples| => samples[i].elapsed)
  }

  /** If the run passes, every 25-second window holds a sample. */
  lemma PassingCoversEverySampleWindow(seconds: int, samples: seq<Sample>, events: seq<Event>, quiet: seq<Sample>, a: real)
    requires Measured(samples) && Measured(quiet)
    requires Evaluate(seconds, samples, events, quiet).Verdict? && Evaluate(seconds, samples, events, quiet).passed
    requires 0.0 <= a && a + MAX_GAP <= Elapsed(samples)
    ensures exists i :: 0 <= i < |samples| && a <= samples[i].elapsed <= a + MAX_GAP
  {
    hide ResourceErrors, PhaseErrors;
    var elapsed := Elapsed(samples);
    assert TimingErrors(seconds, samples, elapsed) <= Evaluate(seconds, samples, events, quiet).errors;
    assert TimingErrors(seconds, samples, elapsed) == {};
    assert RecordingGap !in TimingErrors(seconds, samples, elapsed);
    assert InitialSampleMissing !in TimingErrors(seconds, samples, elapsed);
    var times := SampleTimes(samples);
    forall k | 0 <= k < |times| - 1 ensures !Over(times[k], times[k + 1], MAX_GAP) {
      assert !BadStep(samples[k], samples[k + 1]);
    }
    var j := NoGapMeansCovered(times, elapsed, MAX_GAP, a);
  }

  // ----- the trend check -----

  ghost predicate Increasing(samples: seq<Sample>) {
    forall i, j :: 0 <= i < j < |samples| ==> samples[i].elapsed < samples[j].elapsed
  }

  /** The change of a metric between two samples stays within `rate` per hour. */
  ghost predicate GrowsWithin(a: Sample, b: Sample, key: string, rate: real)
    requires key in a.metrics && key in b.metrics
  {
    b.metrics[key] - a.metrics[key] <= rate * ((b.elapsed - a.elapsed) / 3600.0)
  }

  lemma HoursIncrease(samples: seq<Sample>)
    requires samples != [] && Increasing(samples)
    ensures StrictlyIncreasing(Hours(samples))
  {
  }

  lemma HourDifference(samples: seq<Sample>, i: nat, j: nat)
    requires i < |samples| && j < |samples|
    ensures Hours(samples)[j] - Hours(samples)[i] == (samples[j].elapsed - samples[i].elapsed) / 3600.0
  {
  }

  lemma RiseOfSamples(samples: seq<Sample>, i: nat, j: nat, key: string, rate: real)
    requires i < |samples| && j < |samples| && forall k :: 0 <= k < |samples| ==> key in samples[k].metrics
    requires GrowsWithin(samples[i], samples[j], key, rate)
    ensures var xs, ys := Hours(samples), Values(samples, key); Rises(xs[i], ys[i], xs[j], ys[j], rate)
  {
    HourDifference(samples, i, j);
    var xs := Hours(samples);
    assert rate * (xs[j] - xs[i]) == rate * ((samples[j].elapsed - samples[i].elapsed) / 3600.0);
  }

  /** A tail in which no interval grows faster than the limit is never rejected for its trend. */
  lemma SteadyTailPassesTheTrend(seconds: int, tail: seq<Sample>)
    requires Measured(tail) && Increasing(tail) && |tail| >= 2
    requires forall k :: 0 <= k < |tail| - 1 ==> GrowsWithin(tail[k], tail[k + 1], RSS, RSS_SLOPE)
    ensures TrendErrors(seconds, tail) == Errors({})
  {
    hide LeastSquares, GrowsWithin, Rises, Hours, Values;
    var xs, ys := Hours(tail), Values(tail, RSS);
    HoursIncrease(tail);
    assert |xs| == |ys| == |tail| by { Lengths(tail, RSS); }
    forall k | 0 <= k < |xs| - 1 ensures Rises(xs[k], ys[k], xs[k + 1], ys[k + 1], RSS_SLOPE) {
      RiseOfSamples(tail, k, k + 1, RSS, RSS_SLOPE);
    }
    TrendAtMost(xs, ys, RSS_SLOPE);
  }

  /** A tail in which every interval grows at least at some rate above the limit is always rejected. */
  lemma LeakingTailFailsTheTrend(seconds: int, tail: seq<Sample>, rate: real)
    requires Measured(tail) && Increasing(tail) && |tail| >= 2 && seconds >= 3600 && rate > RSS_SLOPE
    requires forall k :: 0 <= k < |tail| - 1 ==> GrowsWithin(tail[k + 1], tail[k], RSS, rate)
    ensures TrendErrors(seconds, tail) == Errors({RssTrend})
  {
    hide LeastSquares, GrowsWithin, Rises, Hours, Values;
    var xs, ys := Hours(tail), Values(tail, RSS);
    HoursIncrease(tail);
    assert |xs| == |ys| == |tail| by { Lengths(tail, RSS); }
    forall k | 0 <= k < |xs| - 1 ensures Rises(xs[k + 1], ys[k + 1], xs[k], ys[k], rate) {
      RiseOfSamples(tail, k + 1, k, RSS, rate);
    }
    TrendAtLeast(xs, ys, rate);
  }

  lemma Lengths(samples: seq<Sample>, key: string)
    requires samples != [] && forall k :: 0 <= k < |samples| ==> key in samples[k].metrics
    ensures |Hours(samples)| == |Values(samples, key)| == |samples|
  {
  }

  lemma {:induction false} NoneFrom(samples: seq<Sample>, t: real)
    requires forall i :: 0 <= i < |samples| ==> samples[i].elapsed < t
    ensures From(samples, t) == []
  {
    if samples != [] {
      NoneFrom(samples[..|samples| - 1], t);
    }
  }

  /** Samples from a moment on are a suffix of samples in order. */
  lemma {:induction false} LateSamplesAreASuffix(samples: seq<Sample>, t: real) returns (k: nat)
    requires Increasing(samples)
    ensures k <= |samples| && From(samples, t) == samples[k..]
  {
    var n := |samples| - 1;
    if samples == [] || samples[n].elapsed < t {
      forall i | 0 <= i < |samples| ensures samples[i].elapsed < t {
        assert samples[i].elapsed <= samples[n].elapsed;
      }
      NoneFrom(samples, t);
      k := |samples|;
    } else {
      k := LateSamplesAreASuffix(samples[..n], t);
      assert samples[..n][k..] + [samples[n]] == samples[k..];
    }
  }

  lemma TrendErrorComesFromTheTrend(seconds: int, samples: seq<Sample>, quiet: seq<Sample>)
    requires Measured(samples) && Measured(quiet) && Measured(TailOf(seconds, samples))
    requires TrendErrors(seconds, TailOf(seconds, samples)) == Errors({})
    ensures ResourceErrors(seconds, samples, quiet).Errors? && RssTrend !in ResourceErrors(seconds, samples, quiet).errors
  {
    hide TrendErrors, WarmupOf, TooManySeries, TailOf, Peak, BaselineOf, QuietError, UpTo, From;
    Subsets(seconds, samples);
    forall sample: Sample, baseline | {GOROUTINES, FDS} <= sample.metrics.Keys ensures RssTrend !in QuietError(sample, baseline) {
      QuietErrorKinds(sample, baseline);
    }
  }

  lemma QuietErrorKinds(sample: Sample, baseline: Baseline)
    requires {GOROUTINES, FDS} <= sample.metrics.Keys
    ensures QuietError(sample, baseline) <= {QuietFds, QuietGoroutines, AdmissionLeak}
  {
    hide Leaks;
  }

  /** The same for a whole run: if no interval of the run grows faster than the limit, the RSS
      trend is never among its errors, as long as its second half has two samples. */
  lemma SteadyRunIsNotRejectedForItsTrend(seconds: int, samples: seq<Sample>, quiet: seq<Sample>)
    requires Measured(samples) && Measured(quiet) && Increasing(samples)
    requires forall k :: 0 <= k < |samples| - 1 ==> GrowsWithin(samples[k], samples[k + 1], RSS, RSS_SLOPE)
    requires |TailOf(seconds, samples)| >= 2
    ensures ResourceErrors(seconds, samples, quiet).Errors? && RssTrend !in ResourceErrors(seconds, samples, quiet).errors
  {
    hide GrowsWithin, TrendErrors, TailOf, ResourceErrors;
    var k := TailIsASuffix(seconds, samples);
    var tail := TailOf(seconds, samples);
    forall i | 0 <= i < |tail| - 1 ensures GrowsWithin(tail[i], tail[i + 1], RSS, RSS_SLOPE) {
      var m := k + i;
      assert tail[i] == samples[m] && tail[i + 1] == samples[m + 1];
    }
    SteadyTailPassesTheTrend(seconds, tail);
    TrendErrorComesFromTheTrend(seconds, samples, quiet);
  }

  lemma TailIsASuffix(seconds: int, samples: seq<Sample>) returns (m: nat)
    requires Increasing(samples)
    ensures m <= |samples| && TailOf(seconds, samples) == samples[m..]
  {
    hide WarmupOf, From;
    var k := LateSamplesAreASuffix(samples, WarmupOf(seconds));
    var j := LateSamplesAreASuffix(samples[k..], seconds as real / 2.0);
    m := k + j;
  }
}
