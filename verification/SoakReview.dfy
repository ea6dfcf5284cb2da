/** The review step: a primary run that failed only on its sample count may be re-evaluated with
    supplemental samples of the same process, merged in time order. */
module SoakReview {
  import opened Text
  import opened SoakTrend
  import opened SoakContract

  datatype Record = Record(sample: Sample, quiet: bool, boottime: real, walltime: real, collector: string, pid: int)

  /** What identifies the primary run, and what the supplement claims about it. */
  datatype Manifest = Manifest(digest: string, harness: string, binary: string, commit: string, pid: int,
                               bootId: string, seconds: int)
  datatype Claim = Claim(manifest: string, harness: string, binary: string, source: string, pid: int, bootId: string,
                         origin: real, modified: bool)

  function Distance(a: real, b: real): real {
    if a < b then b - a else a - b
  }

  predicate SameRun(manifest: Manifest, claim: Claim) {
    && claim.manifest == manifest.digest && claim.harness == manifest.harness && claim.binary == manifest.binary
    && claim.source == manifest.commit && claim.pid == manifest.pid && claim.bootId == manifest.bootId
    && !claim.modified
  }

  predicate ValidRecord(manifest: Manifest, origin: real, record: Record) {
    && record.collector == "supplemental" && record.pid == manifest.pid
    && !record.quiet && 0.0 < record.sample.elapsed < manifest.seconds as real
    && Distance(record.boottime - origin, record.sample.elapsed) < 0.005
  }

  predicate ValidStep(before: Record, after: Record) {
    var elapsed := after.sample.elapsed - before.sample.elapsed;
    && 0.0 < elapsed <= 25.0
    && Distance(after.walltime - before.walltime, elapsed) <= 5.0
  }

  /** `validate_supplement`: whether it returns without raising. */
  predicate ValidSupplement(manifest: Manifest, first: Record, claim: Claim, extra: seq<Record>) {
    var origin := first.boottime - first.sample.elapsed;
    && SameRun(manifest, claim)
    && Distance(origin, claim.origin) < 0.005
    && extra != []
    && (forall i :: 0 <= i < |extra| ==> ValidRecord(manifest, origin, extra[i]))
    && (forall i :: 0 <= i < |extra| - 1 ==> ValidStep(extra[i], extra[i + 1]))
  }

  /** The rows of one kind, as samples. */
  function Select(rows: seq<Record>, quiet: bool): seq<Sample> {
    if rows == [] then [] else
    Select(rows[..|rows| - 1], quiet) + if rows[|rows| - 1].quiet == quiet then [rows[|rows| - 1].sample] else []
  }

  function LastThree(samples: seq<Sample>): seq<Sample> {
    if |samples| <= 3 then samples else samples[|samples| - 3..]
  }

  function SamplesOf(records: seq<Record>): seq<Sample> {
    seq(|records|, i requires 0 <= i < |records| => records[i].sample)
  }

  // ----- the merge -----

  function Insert(sample: Sample, sorted: seq<Sample>): seq<Sample> {
    if sorted != [] && sorted[|sorted| - 1].elapsed > sample.elapsed
    then Insert(sample, sorted[..|sorted| - 1]) + [sorted[|sorted| - 1]]
    else sorted + [sample]
  }

  /** `sorted(samples, key=elapsed)`, stable. */
  function Sorted(samples: seq<Sample>): seq<Sample> {
    if samples == [] then [] else Insert(samples[|samples| - 1], Sorted(samples[..|samples| - 1]))
  }

  ghost predicate InOrder(samples: seq<Sample>) {
    forall i, j :: 0 <= i < j < |samples| ==> samples[i].elapsed <= samples[j].elapsed
  }

  lemma {:induction false} InsertAdds(sample: Sample, sorted: seq<Sample>)
    ensures multiset(Insert(sample, sorted)) == multiset(sorted) + multiset{sample}
  {
    if sorted != [] && sorted[|sorted| - 1].elapsed > sample.elapsed {
      var k := |sorted| - 1;
      InsertAdds(sample, sorted[..k]);
      assert sorted == sorted[..k] + [sorted[k]];
    }
  }

  lemma {:induction false} InsertBounded(sample: Sample, sorted: seq<Sample>, bound: real)
    requires sample.elapsed <= bound && forall i :: 0 <= i < |sorted| ==> sorted[i].elapsed <= bound
    ensures forall i :: 0 <= i < |Insert(sample, sorted)| ==> Insert(sample, sorted)[i].elapsed <= bound
  {
    if sorted != [] && sorted[|sorted| - 1].elapsed > sample.elapsed {
      InsertBounded(sample, sorted[..|sorted| - 1], bound);
    }
  }

  lemma {:induction false} InsertOrders(sample: Sample, sorted: seq<Sample>)
    requires InOrder(sorted)
    ensures InOrder(Insert(sample, sorted))
  {
    if sorted != [] && sorted[|sorted| - 1].elapsed > sample.elapsed {
      var k := |sorted| - 1;
      InsertOrders(sample, sorted[..k]);
      InsertBounded(sample, sorted[..k], sorted[k].elapsed);
    }
  }

  lemma {:induction false} SortedKeeps(samples: seq<Sample>)
    ensures multiset(Sorted(samples)) == multiset(samples) && InOrder(Sorted(samples))
  {
    if samples != [] {
      var k := |samples| - 1;
      SortedKeeps(samples[..k]);
      InsertAdds(samples[k], Sorted(samples[..k]));
      InsertOrders(samples[k], Sorted(samples[..k]));
      assert samples == samples[..k] + [samples[k]];
    }
  }

  predicate StrictSteps(samples: seq<Sample>) {
    forall k :: 0 <= k < |samples| - 1 ==> samples[k].elapsed < samples[k + 1].elapsed
  }

  lemma {:induction false} StrictStepsIncrease(samples: seq<Sample>, i: nat, j: nat)
    requires StrictSteps(samples) && i < j < |samples|
    ensures samples[i].elapsed < samples[j].elapsed
    decreases j - i
  {
    var k := j - 1;
    assert samples[k].elapsed < samples[k + 1].elapsed;
    if i < k {
      StrictStepsIncrease(samples, i, k);
    }
  }

  lemma NoGapIncreases(samples: seq<Sample>)
    requires !HasGap(samples)
    ensures Increasing(samples)
  {
    forall k | 0 <= k < |samples| - 1 ensures samples[k].elapsed < samples[k + 1].elapsed {
      assert !BadStep(samples[k], samples[k + 1]);
    }
    forall i, j | 0 <= i < j < |samples| ensures samples[i].elapsed < samples[j].elapsed {
      StrictStepsIncrease(samples, i, j);
    }
  }

  // ----- the review -----

  datatype Review = Refused | Augmented(original: Verdict, augmented: Verdict)

  /** The evidence part of `review`: everything up to the re-evaluation; `Refused` where a
      requirement raises. */
  ghost function ReviewRun(manifest: Manifest, rows: seq<Record>, events: seq<Event>, claim: Claim, extra: seq<Record>): Review
    requires Measured(Select(rows, false)) && Measured(LastThree(Select(rows, true))) && Measured(SamplesOf(extra))
  {
    var samples, quiet := Select(rows, false), LastThree(Select(rows, true));
    var first := FirstActive(rows);
    if first.None? || !ValidSupplement(manifest, first.value, claim, extra) then Refused else
    var original := Evaluate(manifest.seconds, samples, events, quiet);
    if original.Crashed? || original.errors != {SampleCountMissing} then Refused else
    var combined := Sorted(samples + SamplesOf(extra));
    if !StrictSteps(combined) then Refused else
    SortedMeasured(samples + SamplesOf(extra));
    Augmented(original, Evaluate(manifest.seconds, combined, events, quiet))
  }

  /** `samples[0]` of the rows that are not quiet. */
  function FirstActive(rows: seq<Record>): Option<Record> {
    if rows == [] then None
    else if !rows[0].quiet then Some(rows[0])
    else FirstActive(rows[1..])
  }

  lemma SortedMeasured(samples: seq<Sample>)
    requires Measured(samples)
    ensures Measured(Sorted(samples))
  {
    SortedKeeps(samples);
    forall i | 0 <= i < |Sorted(samples)| ensures {RSS, HEAP, GOROUTINES, FDS} <= Sorted(samples)[i].metrics.Keys {
      assert Sorted(samples)[i] in multiset(samples);
    }
  }

  // ----- what merging can change -----

  /** `combined` holds the primary samples and only samples from before the declared end besides. */
  ghost predicate Extends(seconds: int, samples: seq<Sample>, combined: seq<Sample>) {
    && Increasing(combined)
    && (forall s :: s in samples ==> s in combined)
    && (forall s :: s in combined && s !in samples ==> 0.0 < s.elapsed < seconds as real)
  }

  lemma SameEnd(seconds: int, samples: seq<Sample>, combined: seq<Sample>)
    requires Extends(seconds, samples, combined) && samples != [] && Increasing(samples)
    requires Elapsed(samples) >= seconds as real
    ensures combined != [] && Elapsed(combined) == Elapsed(samples)
  {
    var last := samples[|samples| - 1];
    assert last in samples;
    var i :| 0 <= i < |combined| && combined[i] == last;
    var end := combined[|combined| - 1];
    assert end in combined;
    assert last.elapsed <= end.elapsed;
    if end in samples {
      var j :| 0 <= j < |samples| && samples[j] == end;
      assert end.elapsed <= last.elapsed;
    }
  }

  lemma EarlierIsBefore(samples: seq<Sample>, i: nat, j: nat)
    requires Increasing(samples) && i < |samples| && j < |samples| && samples[i].elapsed < samples[j].elapsed
    ensures i < j
  {
  }

  /** The next sample after one before the last primary sample comes within the limit. */
  lemma NextIsNear(seconds: int, samples: seq<Sample>, combined: seq<Sample>, k: nat, p: nat)
    requires Extends(seconds, samples, combined) && k < |combined| - 1
    requires p < |samples| && combined[k].elapsed < samples[p].elapsed
    ensures combined[k + 1].elapsed <= samples[p].elapsed
  {
    assert samples[p] in combined;
    var j :| 0 <= j < |combined| && combined[j] == samples[p];
    EarlierIsBefore(combined, k, j);
    assert j == k + 1 || combined[k + 1].elapsed < combined[j].elapsed;
  }

  /** The first primary sample strictly after a moment, walking back from a later one. */
  lemma {:induction false} FirstAfter(samples: seq<Sample>, t: real, q: nat) returns (p: nat)
    requires q < |samples| && samples[q].elapsed > t
    ensures p < |samples| && samples[p].elapsed > t && (p == 0 || samples[p - 1].elapsed <= t)
  {
    if q == 0 || samples[q - 1].elapsed <= t {
      p := q;
    } else {
      p := FirstAfter(samples, t, q - 1);
    }
  }

  lemma NoneBeforeFirst(samples: seq<Sample>, sample: Sample)
    requires samples != [] && Increasing(samples)
    ensures sample in samples ==> samples[0].elapsed <= sample.elapsed
  {
  }

  lemma StepStaysNear(seconds: int, samples: seq<Sample>, combined: seq<Sample>, k: nat)
    requires Extends(seconds, samples, combined) && samples != [] && !HasGap(samples)
    requires samples[0].elapsed <= MAX_GAP && Elapsed(samples) >= seconds as real
    requires k < |combined| - 1
    ensures !BadStep(combined[k], combined[k + 1])
  {
    NoGapIncreases(samples);
    var q := |samples| - 1;
    var t := combined[k].elapsed;
    assert t < combined[k + 1].elapsed;
    SameEnd(seconds, samples, combined);
    assert combined[k + 1].elapsed <= combined[|combined| - 1].elapsed;
    assert samples[q].elapsed > t;
    var p := FirstAfter(samples, t, q);
    NextIsNear(seconds, samples, combined, k, p);
    if p == 0 {
      assert combined[k] in combined;
      NoneBeforeFirst(samples, combined[k]);
    } else {
      var i := p - 1;
      assert !BadStep(samples[i], samples[i + 1]);
    }
  }

  lemma FirstStaysEarly(seconds: int, samples: seq<Sample>, combined: seq<Sample>)
    requires Extends(seconds, samples, combined) && samples != []
    ensures combined != [] && combined[0].elapsed <= samples[0].elapsed
  {
    assert samples[0] in combined;
    var j :| 0 <= j < |combined| && combined[j] == samples[0];
    assert j == 0 || combined[0].elapsed < combined[j].elapsed;
  }

  /** Merging adds no timing error. */
  lemma TimingStaysClean(seconds: int, samples: seq<Sample>, combined: seq<Sample>)
    requires Extends(seconds, samples, combined)
    requires TimingErrors(seconds, samples, Elapsed(samples)) <= {SampleCountMissing}
    ensures Elapsed(combined) == Elapsed(samples)
    ensures TimingErrors(seconds, combined, Elapsed(combined)) <= {SampleCountMissing}
  {
    var errors := TimingErrors(seconds, samples, Elapsed(samples));
    assert ShortDuration !in errors && InitialSampleMissing !in errors && RecordingGap !in errors;
    NoGapIncreases(samples);
    SameEnd(seconds, samples, combined);
    FirstStaysEarly(seconds, samples, combined);
    forall k | 0 <= k < |combined| - 1 ensures !BadStep(combined[k], combined[k + 1]) {
      StepStaysNear(seconds, samples, combined, k);
    }
  }

  lemma PeakGrows(few: seq<Sample>, many: seq<Sample>, key: string)
    requires few != [] && many != [] && forall s :: s in few ==> s in many
    requires forall i :: 0 <= i < |few| ==> key in few[i].metrics
    requires forall i :: 0 <= i < |many| ==> key in many[i].metrics
    ensures Peak(few, key) <= Peak(many, key)
  {
    var m := Peak(few, key);
    var s :| s in few && s.metrics[key] == m;
    assert s in many;
  }

  ghost predicate Dominates(high: Baseline, low: Baseline) {
    low.fds <= high.fds && low.goroutines <= high.goroutines
  }

  lemma QuietStaysClean(quiet: seq<Sample>, low: Baseline, high: Baseline)
    requires Measured(quiet) && Dominates(high, low) && QuietErrors(quiet, low) == {}
    ensures QuietErrors(quiet, high) == {}
  {
    hide Leaks;
    forall i | 0 <= i < |quiet| ensures QuietError(quiet[i], high) == {} {
      forall error | error in QuietError(quiet[i], low) ensures error in QuietErrors(quiet, low) {}
      assert QuietError(quiet[i], low) == {};
      QuietErrorFalls(quiet[i], low, high);
    }
  }

  lemma QuietErrorFalls(sample: Sample, low: Baseline, high: Baseline)
    requires {GOROUTINES, FDS} <= sample.metrics.Keys && Dominates(high, low) && QuietError(sample, low) == {}
    ensures QuietError(sample, high) == {}
  {
    hide Leaks;
    assert QuietFds !in QuietError(sample, low) && QuietGoroutines !in QuietError(sample, low)
           && AdmissionLeak !in QuietError(sample, low);
  }

  lemma SubsetsGrow(seconds: int, samples: seq<Sample>, combined: seq<Sample>)
    requires forall s :: s in samples ==> s in combined
    requires Increasing(samples)
    ensures forall s :: s in UpTo(samples, WarmupOf(seconds)) ==> s in UpTo(combined, WarmupOf(seconds))
    ensures |From(samples, WarmupOf(seconds))| >= 2 ==> |From(combined, WarmupOf(seconds))| >= 2
  {
    hide WarmupOf, UpTo, From;
    var t := WarmupOf(seconds);
    InUpTo(samples, t);
    InUpTo(combined, t);
    InFrom(samples, t);
    InFrom(combined, t);
    var k := LateSamplesAreASuffix(samples, t);
    if |From(samples, t)| >= 2 {
      var a, b := samples[k], samples[k + 1];
      assert a == From(samples, t)[0] && b == From(samples, t)[1];
      assert a in From(combined, t) && b in From(combined, t) && a != b;
    }
  }

  lemma TrendNeverRaises(seconds: int, samples: seq<Sample>)
    requires Measured(TailOf(seconds, samples)) && Increasing(samples)
    ensures TrendErrors(seconds, TailOf(seconds, samples)).Errors?
    ensures TrendErrors(seconds, TailOf(seconds, samples)).errors <= {RssTrend}
  {
    hide LeastSquares, TailOf, Hours, Values;
    var k := TailIsASuffix(seconds, samples);
    var tail := TailOf(seconds, samples);
    if |tail| >= 2 {
      HoursIncrease(tail);
      Lengths(tail, RSS);
      DefinedWhenIncreasing(Hours(tail), Values(tail, RSS));
    }
  }

  const COLLECTION := {Growth(RSS), Growth(HEAP), Growth(GOROUTINES), RssCeiling, RssTrend, Cardinality}

  lemma GrowthKinds(samples: seq<Sample>, active: seq<Sample>, baseline: Baseline)
    requires samples != [] && active != [] && Measured(samples) && Measured(active)
    ensures GrowthErrors(samples, active, baseline) <= COLLECTION
  {
    hide Peak;
  }

  lemma BaselineGrows(seconds: int, samples: seq<Sample>, combined: seq<Sample>)
    requires Measured(samples) && Measured(combined)
    requires forall s :: s in samples ==> s in combined
    requires UpTo(samples, WarmupOf(seconds)) != []
    ensures var warm, warm' := UpTo(samples, WarmupOf(seconds)), UpTo(combined, WarmupOf(seconds));
            && warm' != [] && Measured(warm) && Measured(warm')
            && Dominates(BaselineOf(warm'), BaselineOf(warm))
  {
    hide WarmupOf, UpTo, From, Peak;
    Subsets(seconds, samples);
    Subsets(seconds, combined);
    var t := WarmupOf(seconds);
    InUpTo(samples, t);
    InUpTo(combined, t);
    var warm, warm' := UpTo(samples, t), UpTo(combined, t);
    assert warm[0] in warm';
    PeakGrows(warm, warm', FDS);
    PeakGrows(warm, warm', GOROUTINES);
  }

  /** Merging adds no quiescence error and never lacks resource samples. */
  lemma ResourcesStayCollectable(seconds: int, samples: seq<Sample>, combined: seq<Sample>, quiet: seq<Sample>)
    requires Measured(samples) && Measured(combined) && Measured(quiet)
    requires Increasing(samples) && Increasing(combined) && forall s :: s in samples ==> s in combined
    requires ResourceErrors(seconds, samples, quiet) == Errors({})
    ensures ResourceErrors(seconds, combined, quiet).Errors?
    ensures ResourceErrors(seconds, combined, quiet).errors <= COLLECTION
  {
    hide TrendErrors, TailOf, WarmupOf, TooManySeries, UpTo, From, QuietErrors, GrowthErrors, BaselineOf, Measured;
    Subsets(seconds, samples);
    Subsets(seconds, combined);
    CleanResources(seconds, samples, quiet);
    SubsetsGrow(seconds, samples, combined);
    BaselineGrows(seconds, samples, combined);
    TrendNeverRaises(seconds, combined);
    var warm, warm' := UpTo(samples, WarmupOf(seconds)), UpTo(combined, WarmupOf(seconds));
    QuietStaysClean(quiet, BaselineOf(warm), BaselineOf(warm'));
    var active := From(combined, WarmupOf(seconds));
    InUpTo(combined, WarmupOf(seconds));
    assert warm'[0] in combined;
    GrowthKinds(combined, active, BaselineOf(warm'));
  }

  lemma CleanResources(seconds: int, samples: seq<Sample>, quiet: seq<Sample>)
    requires Measured(samples) && Measured(quiet) && ResourceErrors(seconds, samples, quiet) == Errors({})
    ensures var warm := UpTo(samples, WarmupOf(seconds));
            && Measured(warm) && warm != [] && |From(samples, WarmupOf(seconds))| >= 2
            && QuietErrors(quiet, BaselineOf(warm)) == {}
  {
    hide TrendErrors, TailOf, WarmupOf, TooManySeries, UpTo, From, QuietErrors, GrowthErrors, BaselineOf;
    Subsets(seconds, samples);
    assert InsufficientSamples !in ResourceErrors(seconds, samples, quiet).errors;
    var warm := UpTo(samples, WarmupOf(seconds));
    assert QuietErrors(quiet, BaselineOf(warm)) <= ResourceErrors(seconds, samples, quiet).errors;
  }

  /** The supplement cannot mend or break anything but collection: if the primary run failed only
      on its sample count, then after any valid supplement that merges in strict order the
      measured time and the phase errors are unchanged, the evaluation completes, and only the
      count, growth, ceiling, trend or cardinality can be wrong. */
  lemma SupplementOnlyAffectsCollection(manifest: Manifest, rows: seq<Record>, events: seq<Event>, claim: Claim, extra: seq<Record>)
    requires Measured(Select(rows, false)) && Measured(LastThree(Select(rows, true))) && Measured(SamplesOf(extra))
    requires ReviewRun(manifest, rows, events, claim, extra).Augmented?
    ensures var review := ReviewRun(manifest, rows, events, claim, extra);
            && review.augmented.Verdict?
            && review.augmented.measured == review.original.measured
            && PhaseErrors(events, review.augmented.measured) == {}
            && review.augmented.errors <= COLLECTION + {SampleCountMissing}
            && review.augmented.samples == review.original.samples + |extra|
  {
    hide Evaluate, ValidSupplement, Sorted, Select, LastThree, Measured;
    var samples, quiet, more := Select(rows, false), LastThree(Select(rows, true)), SamplesOf(extra);
    var combined := Sorted(samples + more);
    SortedKeeps(samples + more);
    MeasuredAppend(samples, more);
    SortedMeasured(samples + more);
    assert |combined| == |multiset(combined)| == |samples| + |extra|;
    OriginalIsClean(manifest.seconds, samples, events, quiet);
    forall i, j | 0 <= i < j < |combined| ensures combined[i].elapsed < combined[j].elapsed {
      StrictStepsIncrease(combined, i, j);
    }
    MergeExtends(manifest, FirstActive(rows).value, claim, samples, extra);
    TimingStaysClean(manifest.seconds, samples, combined);
    NoGapIncreases(samples) by { CleanTiming(manifest.seconds, samples); }
    ResourcesStayCollectable(manifest.seconds, samples, combined, quiet);
    AugmentedErrors(manifest.seconds, combined, events, quiet);
  }

  lemma MeasuredAppend(a: seq<Sample>, b: seq<Sample>)
    requires Measured(a) && Measured(b)
    ensures Measured(a + b)
  {
  }

  lemma CleanTiming(seconds: int, samples: seq<Sample>)
    requires TimingErrors(seconds, samples, Elapsed(samples)) <= {SampleCountMissing}
    ensures !HasGap(samples)
  {
    assert RecordingGap !in TimingErrors(seconds, samples, Elapsed(samples));
  }

  lemma OriginalIsClean(seconds: int, samples: seq<Sample>, events: seq<Event>, quiet: seq<Sample>)
    requires Measured(samples) && Measured(quiet)
    requires var verdict := Evaluate(seconds, samples, events, quiet);
             verdict.Verdict? && verdict.errors == {SampleCountMissing}
    ensures TimingErrors(seconds, samples, Elapsed(samples)) <= {SampleCountMissing}
    ensures PhaseErrors(events, Elapsed(samples)) == {}
    ensures ResourceErrors(seconds, samples, quiet) == Errors({})
    ensures Evaluate(seconds, samples, events, quiet).measured == Elapsed(samples)
    ensures Evaluate(seconds, samples, events, quiet).samples == |samples|
  {
    hide TimingErrors, PhaseErrors, ResourceErrors;
    PhasesNeverLackSamples(events, Elapsed(samples));
    ResourcesNeverLackSamples(seconds, samples, quiet);
    var verdict := Evaluate(seconds, samples, events, quiet);
    assert PhaseErrors(events, Elapsed(samples)) <= verdict.errors;
    assert ResourceErrors(seconds, samples, quiet).errors <= verdict.errors;
    assert TimingErrors(seconds, samples, Elapsed(samples)) <= verdict.errors;
  }

  lemma PhasesNeverLackSamples(events: seq<Event>, elapsed: real)
    ensures SampleCountMissing !in PhaseErrors(events, elapsed)
  {
    hide TimesOf, GapExceeds;
  }

  lemma ResourcesNeverLackSamples(seconds: int, samples: seq<Sample>, quiet: seq<Sample>)
    requires Measured(samples) && Measured(quiet)
    ensures ResourceErrors(seconds, samples, quiet).Errors? ==>
            SampleCountMissing !in ResourceErrors(seconds, samples, quiet).errors
  {
    hide WarmupOf, TooManySeries, TailOf, UpTo, From, BaselineOf, QuietErrors, GrowthErrors, Slope;
    Subsets(seconds, samples);
    var warm, active := UpTo(samples, WarmupOf(seconds)), From(samples, WarmupOf(seconds));
    if warm != [] && |active| >= 2 {
      QuietKinds(quiet, BaselineOf(warm));
      GrowthKinds(samples, active, BaselineOf(warm)) by {
        InFrom(samples, WarmupOf(seconds));
        assert active[0] in samples;
      }
    }
  }

  lemma QuietKinds(quiet: seq<Sample>, baseline: Baseline)
    requires Measured(quiet)
    ensures QuietErrors(quiet, baseline) <= {QuietMissing, QuietFds, QuietGoroutines, AdmissionLeak}
  {
    hide QuietError;
    forall i | 0 <= i < |quiet| ensures QuietError(quiet[i], baseline) <= {QuietFds, QuietGoroutines, AdmissionLeak} {
      QuietErrorKinds(quiet[i], baseline);
    }
  }

  lemma MergeExtends(manifest: Manifest, first: Record, claim: Claim, samples: seq<Sample>, extra: seq<Record>)
    requires ValidSupplement(manifest, first, claim, extra)
    requires Increasing(Sorted(samples + SamplesOf(extra)))
    ensures Extends(manifest.seconds, samples, Sorted(samples + SamplesOf(extra)))
  {
    hide Sorted, Increasing, SameRun;
    var more := SamplesOf(extra);
    SortedKeeps(samples + more);
    var combined := Sorted(samples + more);
    forall s | s in samples ensures s in combined {
      assert s in multiset(combined);
    }
    forall s | s in combined && s !in samples ensures 0.0 < s.elapsed < manifest.seconds as real {
      assert s in multiset(samples + more);
      var i :| 0 <= i < |more| && more[i] == s;
      assert ValidRecord(manifest, first.boottime - first.sample.elapsed, extra[i]);
    }
  }

  lemma AugmentedErrors(seconds: int, combined: seq<Sample>, events: seq<Event>, quiet: seq<Sample>)
    requires Measured(combined) && Measured(quiet)
    requires TimingErrors(seconds, combined, Elapsed(combined)) <= {SampleCountMissing}
    requires PhaseErrors(events, Elapsed(combined)) == {}
    requires ResourceErrors(seconds, combined, quiet).Errors?
    requires ResourceErrors(seconds, combined, quiet).errors <= COLLECTION
    ensures var verdict := Evaluate(seconds, combined, events, quiet);
            && verdict.Verdict? && verdict.errors <= COLLECTION + {SampleCountMissing}
            && verdict.measured == Elapsed(combined) && verdict.samples == |combined|
  {
    hide TimingErrors, PhaseErrors, ResourceErrors;
  }
}
