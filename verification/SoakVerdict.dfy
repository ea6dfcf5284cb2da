/** What a passing soak run is, said by quantifiers over its samples and events: on time, covered
    and steady. Only the choice of samples by time and the fitted slope are the evaluation's own.
    The verdict is exactly that. */
module SoakVerdict {
  import opened SoakContract

  // ----- on time -----

  /** Sampled from the start to the end, every ten seconds on average, with no pause over 25. */
  ghost predicate OnTime(seconds: int, samples: seq<Sample>) {
    && samples != []
    && samples[0].elapsed <= 25.0 && samples[|samples| - 1].elapsed >= seconds as real
    && 10 * |samples| > seconds
    && forall k :: 0 <= k < |samples| - 1 ==> samples[k].elapsed < samples[k + 1].elapsed <= samples[k].elapsed + 25.0
  }

  lemma StepsAreGood(samples: seq<Sample>)
    ensures !HasGap(samples) <==>
            forall k :: 0 <= k < |samples| - 1 ==> samples[k].elapsed < samples[k + 1].elapsed <= samples[k].elapsed + 25.0
  {
    if !HasGap(samples) {
      forall k | 0 <= k < |samples| - 1 ensures samples[k].elapsed < samples[k + 1].elapsed <= samples[k].elapsed + 25.0 {
        assert !BadStep(samples[k], samples[k + 1]);
      }
    }
  }

  lemma NoTimingErrorsIffOnTime(seconds: int, samples: seq<Sample>)
    ensures TimingErrors(seconds, samples, Elapsed(samples)) == {} <==> OnTime(seconds, samples)
  {
    hide HasGap;
    StepsAreGood(samples);
    var errors := TimingErrors(seconds, samples, Elapsed(samples));
    assert errors == {} <==> ShortDuration !in errors && SampleCountMissing !in errors && InitialSampleMissing !in errors
                             && RecordingGap !in errors;
  }

  // ----- covered -----

  /** Each required phase is driven by one worker, so its events come in order; different phases
      may overtake each other, and the last ones may come after the last sample. */
  ghost predicate PhasesInOrder(events: seq<Event>) {
    && (forall i, j :: 0 <= i < j < |events| && events[i].name == events[j].name && events[i].name in REQUIRED ==>
          events[i].elapsed <= events[j].elapsed)
    && (forall i :: 0 <= i < |events| ==> 0.0 <= events[i].elapsed)
  }

  ghost predicate Succeeds(event: Event, name: string) {
    event.name == name && event.ok
  }

  ghost predicate HappensIn(events: seq<Event>, name: string, from': real, to: real) {
    exists i :: 0 <= i < |events| && Succeeds(events[i], name) && from' <= events[i].elapsed <= to
  }

  /** The run is still going at `t`: up to the last sample, or until the phase last succeeded. */
  ghost predicate StillRunning(events: seq<Event>, elapsed: real, name: string, t: real) {
    t <= elapsed || exists i :: 0 <= i < |events| && Succeeds(events[i], name) && t <= events[i].elapsed
  }

  /** The phase succeeds at least once, and in every 90 seconds of the run. */
  ghost predicate Recurs(events: seq<Event>, elapsed: real, name: string) {
    && (exists i :: 0 <= i < |events| && Succeeds(events[i], name))
    && forall a :: 0.0 <= a && StillRunning(events, elapsed, name, a + 90.0) ==> InNinety(events, name, a)
  }

  ghost predicate InNinety(events: seq<Event>, name: string, a: real) {
    HappensIn(events, name, a, a + 90.0)
  }

  ghost predicate EveryPhaseRecurs(events: seq<Event>, elapsed: real) {
    && (forall i :: 0 <= i < |events| ==> events[i].ok)
    && (forall name :: name in REQUIRED ==> Recurs(events, elapsed, name))
  }

  /** The times are those of the phase's successful events at the given places, all of them in order. */
  ghost predicate Placed(events: seq<Event>, name: string, times: seq<real>, at: seq<nat>) {
    && |at| == |times|
    && (forall k :: 0 <= k < |at| ==> at[k] < |events| && Succeeds(events[at[k]], name) && events[at[k]].elapsed == times[k])
    && (forall j, k :: 0 <= j < k < |at| ==> at[j] < at[k])
    && (forall i :: 0 <= i < |events| && Succeeds(events[i], name) ==> i in at)
  }

  lemma PlacedNext(events: seq<Event>, event: Event, name: string, times: seq<real>, at: seq<nat>)
    requires Placed(events, name, times, at)
    ensures Succeeds(event, name) ==> Placed(events + [event], name, times + [event.elapsed], at + [|events|])
    ensures !Succeeds(event, name) ==> Placed(events + [event], name, times, at)
  {
    hide Succeeds;
    var more, at' := events + [event], at + [|events|];
    assert forall i :: 0 <= i < |events| ==> more[i] == events[i];
    assert forall k :: 0 <= k < |at| ==> at'[k] == at[k];
    forall i | 0 <= i < |events| && Succeeds(events[i], name) ensures i in at' {
      var k :| 0 <= k < |at| && at[k] == i;
      assert at'[k] == i;
    }
    assert at'[|at|] == |events|;
  }

  /** The recorded times are exactly those of the phase's successful events, in their order. */
  lemma {:induction false} TimesAre(events: seq<Event>, name: string) returns (at: seq<nat>)
    ensures Placed(events, name, TimesOf(events, name), at)
  {
    at := [];
    if events != [] {
      hide Placed;
      var n := |events| - 1;
      at := TimesAre(events[..n], name);
      PlacedNext(events[..n], events[n], name, TimesOf(events[..n], name), at);
      assert events == events[..n] + [events[n]];
      if Succeeds(events[n], name) {
        at := at + [n];
      } else {
        assert TimesOf(events, name) == TimesOf(events[..n], name);
      }
    }
  }

  lemma OrderedTimes(events: seq<Event>, name: string)
    requires PhasesInOrder(events) && name in REQUIRED
    ensures var times := TimesOf(events, name);
            && (forall j, k :: 0 <= j < k < |times| ==> times[j] <= times[k])
            && (forall k :: 0 <= k < |times| ==> 0.0 <= times[k])
  {
    hide TimesOf;
    var at := TimesAre(events, name);
    var times := TimesOf(events, name);
    forall j, k | 0 <= j < k < |times| ensures times[j] <= times[k] {
      assert events[at[j]].elapsed <= events[at[k]].elapsed;
    }
  }

  lemma TimesWithin(events: seq<Event>, name: string, from': real, to: real)
    ensures HappensIn(events, name, from', to) <==> exists k :: 0 <= k < |TimesOf(events, name)| && from' <= TimesOf(events, name)[k] <= to
  {
    hide TimesOf;
    var at := TimesAre(events, name);
    var times := TimesOf(events, name);
    if i :| 0 <= i < |events| && Succeeds(events[i], name) && from' <= events[i].elapsed <= to {
      var k :| 0 <= k < |at| && at[k] == i;
      assert from' <= times[k] <= to;
    }
    if k :| 0 <= k < |times| && from' <= times[k] <= to {
      assert Succeeds(events[at[k]], name);
    }
  }

  lemma RunningUntilTheEnd(events: seq<Event>, elapsed: real, name: string, t: real)
    requires PhasesInOrder(events) && name in REQUIRED && TimesOf(events, name) != []
    ensures StillRunning(events, elapsed, name, t) <==> t <= End(TimesOf(events, name), elapsed)
  {
    hide TimesOf;
    OrderedTimes(events, name);
    var at := TimesAre(events, name);
    var times := TimesOf(events, name);
    if i :| 0 <= i < |events| && Succeeds(events[i], name) && t <= events[i].elapsed {
      var k :| 0 <= k < |at| && at[k] == i;
      assert times[k] <= times[|times| - 1];
    }
    assert Succeeds(events[at[|at| - 1]], name);
  }

  lemma NoPhaseErrorIffRecurs(events: seq<Event>, elapsed: real, name: string)
    requires PhasesInOrder(events) && name in REQUIRED
    ensures PhaseError(events, elapsed, name) == {} <==> Recurs(events, elapsed, name)
  {
    hide TimesOf, GapExceeds, HappensIn, PhasesInOrder, StillRunning, End;
    var times := TimesOf(events, name);
    var at := TimesAre(events, name);
    assert times != [] ==> Succeeds(events[at[0]], name);
    if times != [] {
      OrderedTimes(events, name);
      forall a ensures InNinety(events, name, a) <==> Covered(times, a, MAX_CYCLE_GAP) {
        TimesWithin(events, name, a, a + 90.0);
      }
      forall t ensures StillRunning(events, elapsed, name, t) <==> t <= End(times, elapsed) {
        RunningUntilTheEnd(events, elapsed, name, t);
      }
      GapExceedsIffSomeWindowIsUncovered(times, elapsed, MAX_CYCLE_GAP);
    }
  }

  lemma NoPhaseErrorsIffCovered(events: seq<Event>, elapsed: real)
    requires PhasesInOrder(events)
    ensures PhaseErrors(events, elapsed) == {} <==> EveryPhaseRecurs(events, elapsed)
  {
    hide PhaseError, Recurs, PhasesInOrder;
    var errors := PhaseErrors(events, elapsed);
    assert WorkloadFailure in When(AnyFailed(events), WorkloadFailure) <==> AnyFailed(events);
    forall name | name in REQUIRED ensures PhaseError(events, elapsed, name) == {} <==> Recurs(events, elapsed, name) {
      NoPhaseErrorIffRecurs(events, elapsed, name);
    }
    forall name, error | name in REQUIRED && error in PhaseError(events, elapsed, name) ensures error in errors {
    }
    if errors == {} {
      assert WorkloadFailure !in errors;
      forall name | name in REQUIRED ensures Recurs(events, elapsed, name) {
        assert forall error :: error !in PhaseError(events, elapsed, name);
      }
    }
  }

  // ----- steady -----

  /** No more above some warm-up sample than the limit. */
  ghost predicate Within(s: Sample, warm: seq<Sample>, key: string, limit: real) {
    key in s.metrics && exists w :: w in warm && key in w.metrics && s.metrics[key] <= w.metrics[key] + limit
  }

  ghost predicate AllWithin(samples: seq<Sample>, warm: seq<Sample>, key: string, limit: real) {
    forall s :: s in samples ==> Within(s, warm, key, limit)
  }

  lemma Highest(samples: seq<Sample>, key: string) returns (s: Sample)
    requires samples != [] && forall i :: 0 <= i < |samples| ==> key in samples[i].metrics
    ensures s in samples && key in s.metrics && s.metrics[key] == Peak(samples, key)
  {
    var m := Peak(samples, key);
    assert forall s :: s in samples ==> key in s.metrics;
    s :| s in samples && s.metrics[key] == m;
  }

  lemma PeakWithin(samples: seq<Sample>, warm: seq<Sample>, key: string, limit: real)
    requires samples != [] && forall i :: 0 <= i < |samples| ==> key in samples[i].metrics
    requires warm != [] && forall i :: 0 <= i < |warm| ==> key in warm[i].metrics
    ensures Peak(samples, key) <= Peak(warm, key) + limit <==> AllWithin(samples, warm, key, limit)
  {
    var w := Highest(warm, key);
    var s := Highest(samples, key);
    if Peak(samples, key) <= Peak(warm, key) + limit {
      forall t | t in samples ensures Within(t, warm, key, limit) {
        assert t.metrics[key] <= w.metrics[key] + limit;
      }
    }
    if AllWithin(samples, warm, key, limit) {
      assert Within(s, warm, key, limit);
    }
  }

  /** Active samples stay near the warm-up in memory, heap and goroutines, and under one GiB. */
  ghost predicate NoGrowth(samples: seq<Sample>, warm: seq<Sample>, active: seq<Sample>) {
    && AllWithin(active, warm, RSS, 134217728.0)
    && AllWithin(active, warm, HEAP, 134217728.0)
    && AllWithin(active, warm, GOROUTINES, 96.0)
    && forall s :: s in samples ==>
         RSS in s.metrics && s.metrics[RSS] <= 1073741824.0
  }

  lemma GrowthIff(active: seq<Sample>, warm: seq<Sample>, key: string, limit: real)
    requires active != [] && warm != [] && Measured(active) && Measured(warm) && key in {RSS, HEAP, GOROUTINES, FDS}
    ensures GrowthError(active, Peak(warm, key), key, limit) == {} <==> AllWithin(active, warm, key, limit)
  {
    hide AllWithin, Peak;
    PeakWithin(active, warm, key, limit);
  }

  lemma CeilingIff(samples: seq<Sample>)
    requires samples != [] && Measured(samples)
    ensures CeilingError(samples) == {} <==> forall s :: s in samples ==> RSS in s.metrics && s.metrics[RSS] <= RSS_CEILING
  {
    hide Peak;
    var s := Highest(samples, RSS);
  }

  lemma NoGrowthErrorsIff(samples: seq<Sample>, warm: seq<Sample>, active: seq<Sample>)
    requires samples != [] && warm != [] && active != [] && Measured(samples) && Measured(warm) && Measured(active)
    ensures GrowthErrors(samples, active, BaselineOf(warm)) == {} <==> NoGrowth(samples, warm, active)
  {
    hide AllWithin, Peak, Measured, GrowthError, CeilingError;
    GrowthIff(active, warm, RSS, RSS_GROWTH);
    GrowthIff(active, warm, HEAP, HEAP_GROWTH);
    GrowthIff(active, warm, GOROUTINES, GOROUTINE_GROWTH);
    CeilingIff(samples);
    var base := BaselineOf(warm);
    SumsEmpty(GrowthError(active, base.rss, RSS, RSS_GROWTH), GrowthError(active, base.heap, HEAP, HEAP_GROWTH),
              GrowthError(active, base.goroutines, GOROUTINES, GOROUTINE_GROWTH), CeilingError(samples));
  }

  /** After the load: three samples over twenty seconds, descriptors and goroutines back near the
      warm-up, and no request counted as active or pending. */
  ghost predicate Quiesced(quiet: seq<Sample>, warm: seq<Sample>) {
    && |quiet| >= 3 && quiet[|quiet| - 1].elapsed >= quiet[0].elapsed + 20.0
    && AllWithin(quiet, warm, FDS, 8.0)
    && AllWithin(quiet, warm, GOROUTINES, 96.0)
    && forall s :: s in quiet ==> NothingAdmitted(s)
  }

  ghost predicate NothingAdmitted(s: Sample) {
    forall key :: key in s.metrics && AdmissionMetric(key) ==> s.metrics[key] == 0.0
  }

  lemma NoQuietErrorIff(s: Sample, warm: seq<Sample>)
    requires warm != [] && Measured(warm) && {RSS, HEAP, GOROUTINES, FDS} <= s.metrics.Keys
    ensures QuietError(s, BaselineOf(warm)) == {} <==>
            Within(s, warm, FDS, FD_GROWTH) && Within(s, warm, GOROUTINES, GOROUTINE_GROWTH) && NothingAdmitted(s)
  {
    hide Within, Peak, AdmissionMetric;
    OneWithin(s, warm, FDS, FD_GROWTH);
    OneWithin(s, warm, GOROUTINES, GOROUTINE_GROWTH);
    var errors := QuietError(s, BaselineOf(warm));
    assert errors == {} <==> QuietFds !in errors && QuietGoroutines !in errors && AdmissionLeak !in errors;
  }

  lemma OneWithin(s: Sample, warm: seq<Sample>, key: string, limit: real)
    requires key in s.metrics && warm != [] && forall i :: 0 <= i < |warm| ==> key in warm[i].metrics
    ensures s.metrics[key] <= Peak(warm, key) + limit <==> Within(s, warm, key, limit)
  {
    var w := Highest(warm, key);
  }

  lemma NoQuietErrorsIff(quiet: seq<Sample>, warm: seq<Sample>)
    requires warm != [] && Measured(warm) && Measured(quiet)
    ensures QuietErrors(quiet, BaselineOf(warm)) == {} <==> Quiesced(quiet, warm)
  {
    hide QuietError, Within, BaselineOf, NothingAdmitted;
    var baseline := BaselineOf(warm);
    forall i | 0 <= i < |quiet|
      ensures QuietError(quiet[i], baseline) == {} <==>
              Within(quiet[i], warm, FDS, FD_GROWTH) && Within(quiet[i], warm, GOROUTINES, GOROUTINE_GROWTH) && NothingAdmitted(quiet[i])
    {
      NoQuietErrorIff(quiet[i], warm);
    }
    if |quiet| >= 3 && quiet[|quiet| - 1].elapsed >= quiet[0].elapsed + 20.0 {
      QuietErrorsEmptyIff(quiet, baseline);
    }
  }

  lemma QuietErrorsEmptyIff(quiet: seq<Sample>, baseline: Baseline)
    requires Measured(quiet) && |quiet| >= 3 && quiet[|quiet| - 1].elapsed >= quiet[0].elapsed + 20.0
    ensures QuietErrors(quiet, baseline) == {} <==> forall i :: 0 <= i < |quiet| ==> QuietError(quiet[i], baseline) == {}
  {
    hide QuietError;
    var errors := QuietErrors(quiet, baseline);
    assert forall i, error :: 0 <= i < |quiet| && error in QuietError(quiet[i], baseline) ==> error in errors;
    if errors == {} {
      forall i | 0 <= i < |quiet| ensures QuietError(quiet[i], baseline) == {} {
        forall error ensures error !in QuietError(quiet[i], baseline) {
          assert error in QuietError(quiet[i], baseline) ==> error in errors;
        }
      }
    }
  }

  /** From an hour on, the second half's fitted memory growth is at most 16 MiB an hour. */
  ghost predicate NoTrend(seconds: int, tail: seq<Sample>)
    requires Measured(tail)
  {
    seconds >= 3600 ==> |tail| >= 2 && Slope(tail, RSS).Some? && Slope(tail, RSS).value <= 16777216.0
  }

  ghost predicate Steady(seconds: int, samples: seq<Sample>, quiet: seq<Sample>)
    requires Measured(samples)
  {
    Subsets(seconds, samples);
    var warm, active := UpTo(samples, WarmupOf(seconds)), From(samples, WarmupOf(seconds));
    && warm != [] && |active| >= 2
    && NoGrowth(samples, warm, active)
    && NoTrend(seconds, TailOf(seconds, samples))
    && |SeriesOf(samples)| <= 3000 && |SeriesOf(samples)| <= |SeriesOf(warm)| + 128
    && Quiesced(quiet, warm)
  }

  lemma NoResourceErrorsIffSteady(seconds: int, samples: seq<Sample>, quiet: seq<Sample>)
    requires Measured(samples) && Measured(quiet)
    ensures ResourceErrors(seconds, samples, quiet) == Errors({}) <==> Steady(seconds, samples, quiet)
  {
    hide GrowthErrors, NoGrowth, QuietErrors, Quiesced, BaselineOf, Slope, UpTo, From, WarmupOf, TailOf, SeriesOf, Measured;
    Subsets(seconds, samples);
    var warm, active := UpTo(samples, WarmupOf(seconds)), From(samples, WarmupOf(seconds));
    if warm != [] && |active| >= 2 {
      InFrom(samples, WarmupOf(seconds));
      assert active[0] in samples;
      NoGrowthErrorsIff(samples, warm, active);
      NoQuietErrorsIff(quiet, warm);
      TrendIff(seconds, TailOf(seconds, samples));
      if TrendErrors(seconds, TailOf(seconds, samples)).Errors? {
        SumsEmpty(GrowthErrors(samples, active, BaselineOf(warm)), TrendErrors(seconds, TailOf(seconds, samples)).errors,
                  When(TooManySeries(warm, samples), Cardinality), QuietErrors(quiet, BaselineOf(warm)));
      }
    }
  }

  lemma TrendIff(seconds: int, tail: seq<Sample>)
    requires Measured(tail)
    ensures TrendErrors(seconds, tail) == Errors({}) <==> NoTrend(seconds, tail)
  {
    hide Slope;
    assert RssTrend in {RssTrend};
  }

  lemma SumsEmpty(a: set<Error>, b: set<Error>, c: set<Error>, d: set<Error>)
    ensures a + b + c + d == {} <==> a == {} && b == {} && c == {} && d == {}
  {
    var sum := a + b + c + d;
    assert a <= sum && b <= sum && c <= sum && d <= sum;
  }

  /** For every run whose required phases each report in order: it passes if and only if it was on
      time, every required phase recurred, and it was steady. */
  lemma PassesIffSound(seconds: int, samples: seq<Sample>, events: seq<Event>, quiet: seq<Sample>)
    requires Measured(samples) && Measured(quiet) && PhasesInOrder(events)
    ensures Evaluate(seconds, samples, events, quiet).Verdict? && Evaluate(seconds, samples, events, quiet).passed <==>
            OnTime(seconds, samples) && EveryPhaseRecurs(events, Elapsed(samples)) && Steady(seconds, samples, quiet)
  {
    hide TimingErrors, PhaseErrors, ResourceErrors, OnTime, EveryPhaseRecurs, Steady, Measured, PhasesInOrder;
    NoTimingErrorsIffOnTime(seconds, samples);
    NoPhaseErrorsIffCovered(events, Elapsed(samples));
    NoResourceErrorsIffSteady(seconds, samples, quiet);
    var timing, phases := TimingErrors(seconds, samples, Elapsed(samples)), PhaseErrors(events, Elapsed(samples));
    match ResourceErrors(seconds, samples, quiet)
    case Raised =>
    case Errors(resource) =>
      assert timing + phases + resource == {} <==> timing == {} && phases == {} && resource == {} by {
        assert timing <= timing + phases + resource && phases <= timing + phases + resource && resource <= timing + phases + resource;
      }
  }
}
