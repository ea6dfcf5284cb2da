/** The Python reader of a metric recording, which rebuilds the samples by name, and the
    recorder's own accounting. */
module MetricReaders {
  import opened Text
  import opened MetricRecorder

  // ----- shared: placing an announced name -----

  /** Pads the list up to `index` and stores the name there. */
  function PutName(names: seq<string>, index: nat, name: string): seq<string> {
    if index < |names| then names[index := name]
    else names + seq(index - |names|, _ => "") + [name]
  }

  function PutNames(names: seq<string>, add: seq<(nat, string)>): seq<string> {
    if add == [] then names
    else PutName(PutNames(names, add[..|add| - 1]), add[|add| - 1].0, add[|add| - 1].1)
  }

  /** The loop both readers run over one series line. */
  method PlaceNames(names: seq<string>, add: seq<(nat, string)>) returns (more: seq<string>)
    ensures more == PutNames(names, add)
  {
    hide PutNames;
    more := names;
    PutNone(names, add);
    for k := 0 to |add|
      invariant more == PutNames(names, add[..k])
    {
      var (index, name) := add[k];
      PutNext(names, add, k);
      ghost var before := more;
      while |more| <= index
        invariant |before| <= |more|
        invariant index < |before| ==> more == before
        invariant index >= |before| ==> |more| <= index + 1 && more == before + seq(|more| - |before|, _ => "")
      {
        more := more + [""];
      }
      more := more[index := name];
      assert more == PutName(before, index, name);
    }
    assert add[..|add|] == add;
  }

  lemma PutNone(names: seq<string>, add: seq<(nat, string)>)
    ensures PutNames(names, add[..0]) == names
  {
  }

  lemma PutNext(names: seq<string>, add: seq<(nat, string)>, k: nat)
    requires k < |add|
    ensures PutNames(names, add[..k + 1]) == PutName(PutNames(names, add[..k]), add[k].0, add[k].1)
  {
    assert add[..k + 1][..k] == add[..k];
  }

  // ----- the parser -----

  datatype Row = Row(at: int, values: map<string, real>)

  datatype Parsed = Parsed(names: seq<string>, samples: seq<Row>, errors: nat, gaps: nat)

  /** The row of the first `n` vector entries: non-null entries with a known, non-empty name. */
  function RowUpTo(names: seq<string>, vector: seq<Option<real>>, n: nat): map<string, real>
    requires n <= |vector|
  {
    if n == 0 then map[] else
    var row := RowUpTo(names, vector, n - 1);
    if vector[n - 1].Some? && n - 1 < |names| && names[n - 1] != "" then row[names[n - 1] := vector[n - 1].value] else row
  }

  function ParseStep(p: Parsed, line: Line): Parsed {
    match line
    case SeriesLine(add) => p.(names := PutNames(p.names, add))
    case SampleLine(_, at, vector) => p.(samples := p.samples + [Row(at, RowUpTo(p.names, vector, |vector|))])
    case ErrorLine(_, _, _) => p.(errors := p.errors + 1)
    case GapLine(_, _) => p.(gaps := p.gaps + 1)
    case _ => p
  }

  function Parse(lines: seq<Line>): Parsed {
    if lines == [] then Parsed([], [], 0, 0) else ParseStep(Parse(lines[..|lines| - 1]), lines[|lines| - 1])
  }

  /** `parse_metrics_samples` as it runs. */
  method ParseSamples(lines: seq<Line>) returns (parsed: Parsed)
    ensures parsed == Parse(lines)
  {
    var names: seq<string>, samples: seq<Row>, errors, gaps := [], [], 0, 0;
    for i := 0 to |lines|
      invariant Parsed(names, samples, errors, gaps) == Parse(lines[..i])
    {
      assert lines[..i + 1][..i] == lines[..i];
      match lines[i]
      case SeriesLine(add) =>
        names := PlaceNames(names, add);
      case SampleLine(_, at, vector) =>
        var row: map<string, real> := map[];
        for k := 0 to |vector|
          invariant row == RowUpTo(names, vector, k)
        {
          if vector[k].Some? && k < |names| && names[k] != "" {
            row := row[names[k] := vector[k].value];
          }
        }
        samples := samples + [Row(at, row)];
      case ErrorLine(_, _, _) =>
        errors := errors + 1;
      case GapLine(_, _) =>
        gaps := gaps + 1;
      case _ =>
    }
    assert lines[..|lines|] == lines;
    parsed := Parsed(names, samples, errors, gaps);
  }

  lemma ParseSnoc(lines: seq<Line>, line: Line)
    ensures Parse(lines + [line]) == ParseStep(Parse(lines), line)
  {
    hide ParseStep;
    assert (lines + [line])[..|lines|] == lines;
  }

  // ----- what the recorded run was -----

  function FiniteValues(values: map<string, Value>): map<string, real> {
    map name | name in values && values[name].Finite? && name != "" :: values[name].number
  }

  /** The successful scrapes with their finite values. */
  function Rows(scrapes: seq<Scrape>): seq<Row> {
    if scrapes == [] then [] else
    Rows(scrapes[..|scrapes| - 1]) +
    match scrapes[|scrapes| - 1]
    case Scraped(at, values) => [Row(at, FiniteValues(values))]
    case Failed(_, _) => []
  }

  function Failures(scrapes: seq<Scrape>): nat {
    if scrapes == [] then 0 else
    Failures(scrapes[..|scrapes| - 1]) + if scrapes[|scrapes| - 1].Failed? then 1 else 0
  }

  /** The instants of the successful scrapes. */
  function SuccessTimes(scrapes: seq<Scrape>): seq<int> {
    if scrapes == [] then [] else
    SuccessTimes(scrapes[..|scrapes| - 1]) + if scrapes[|scrapes| - 1].Scraped? then [scrapes[|scrapes| - 1].at] else []
  }

  /** The neighbouring successes more than twice the interval apart, in order. */
  function LongPauses(times: seq<int>, interval: int): seq<(int, int)> {
    if |times| < 2 then [] else
    var n := |times| - 1;
    LongPauses(times[..n], interval) + if times[n] - times[n - 1] > 2 * interval then [(times[n - 1], times[n])] else []
  }

  function GapsLogged(lines: seq<Line>): seq<(int, int)> {
    if lines == [] then [] else
    var last := lines[|lines| - 1];
    GapsLogged(lines[..|lines| - 1]) + if last.GapLine? then [(last.since, last.until)] else []
  }

  // ----- decoding recovers the run -----

  lemma {:induction false} PutAnnouncements(known: seq<string>, names: seq<string>, n: nat)
    requires known <= names && n <= |Announcements(names, |known|)|
    ensures PutNames(known, Announcements(names, |known|)[..n]) == names[..|known| + n]
  {
    var add := Announcements(names, |known|);
    if n > 0 {
      PutAnnouncements(known, names, n - 1);
      assert add[..n][..n - 1] == add[..n - 1];
      assert names[..|known| + n] == names[..|known| + n - 1] + [names[|known| + n - 1]];
    }
  }

  lemma {:induction false} RowOfDense(values: map<string, Value>, names: seq<string>, n: nat)
    requires n <= |names|
    ensures RowUpTo(names, Dense(values, names), n) ==
            map name | name in names[..n] && name != "" && name in values && values[name].Finite? :: values[name].number
  {
    if n > 0 {
      RowOfDense(values, names, n - 1);
      assert names[..n] == names[..n - 1] + [names[n - 1]];
    }
  }

  lemma RowRecovers(values: map<string, Value>, names: seq<string>)
    requires forall name :: name in values ==> name in names
    ensures RowUpTo(names, Dense(values, names), |names|) == FiniteValues(values)
  {
    RowOfDense(values, names, |names|);
    assert names[..|names|] == names;
  }

  lemma ParseSeries(log: seq<Line>, known: seq<string>, names: seq<string>)
    requires known <= names && Parse(log).names == known
    ensures Parse(log + SeriesLines(names, |known|)) == Parse(log).(names := names)
  {
    hide PutNames, Parse;
    if |known| < |names| {
      var add := Announcements(names, |known|);
      ParseSnoc(log, SeriesLine(add));
      PutAnnouncements(known, names, |add|);
      assert add[..|add|] == add;
      assert names[..|known| + |add|] == names;
    } else {
      assert log + [] == log;
      assert known == names;
    }
  }

  lemma ParseScraped(r: Recorder, interval: int, at: int, values: map<string, Value>)
    requires Parse(r.log).names == r.names && Distinct(r.names)
    ensures var p, q := Parse(r.log), Parse(Step(r, interval, Scraped(at, values)).log);
            && q.names == Step(r, interval, Scraped(at, values)).names
            && q.samples == p.samples + [Row(at, FiniteValues(values))]
            && q.errors == p.errors
            && q.gaps == p.gaps + if IsGap(r.lastOK, at, interval) then 1 else 0
  {
    hide Parse, SortedKeys, Announce, SeriesLines, RowUpTo, FiniteValues, Distinct, IsGap;
    var names := Announce(r.names, SortedKeys(values.Keys));
    AnnounceKeeps(r.names, SortedKeys(values.Keys));
    var gap := if IsGap(r.lastOK, at, interval) then [GapLine(if r.lastOK.Some? then r.lastOK.value else 0, at)] else [];
    var log1 := r.log + gap;
    if gap != [] {
      ParseSnoc(r.log, gap[0]);
    } else {
      assert log1 == r.log;
    }
    ParseSeries(log1, r.names, names);
    ParseSnoc(log1 + SeriesLines(names, |r.names|), SampleLine(r.attempts + 1, at, Dense(values, names)));
    RowRecovers(values, names);
    GapIsSome(r.lastOK, at, interval);
  }

  lemma GapIsSome(lastOK: Option<int>, at: int, interval: int)
    ensures IsGap(lastOK, at, interval) ==> lastOK.Some?
  {
  }

  /** The parser recovers exactly the finite values of every successful scrape, the names, and
      the error and gap counts of the recorder. */
  lemma {:induction false} ParserRecoversTheRun(interval: int, scrapes: seq<Scrape>)
    ensures var r := Record(interval, scrapes);
            Parse(r.log) == Parsed(r.names, Rows(scrapes), r.errors, r.gaps)
  {
    hide Step, FiniteValues, Parse, RowUpTo, PutNames;
    if scrapes == [] {
      ParseOfHeader();
    } else {
      var n := |scrapes| - 1;
      ParserRecoversTheRun(interval, scrapes[..n]);
      IndexGrowsInjectively(interval, scrapes[..n], 0);
      var r := Record(interval, scrapes[..n]);
      match scrapes[n]
      case Failed(at, err) =>
        FailedStep(r, interval, at, err);
        ParseSnoc(r.log, ErrorLine(r.attempts + 1, at, err));
        assert Rows(scrapes) == Rows(scrapes[..n]);
      case Scraped(at, values) =>
        ParseScraped(r, interval, at, values);
        ScrapedCounts(r, interval, at, values);
    }
  }

  lemma ParseOfHeader()
    ensures Parse([HeaderLine]) == Parsed([], [], 0, 0)
  {
    assert [HeaderLine][..0] == [];
  }

  lemma FailedStep(r: Recorder, interval: int, at: int, err: string)
    ensures Step(r, interval, Failed(at, err)) ==
            r.(attempts := r.attempts + 1, errors := r.errors + 1, log := r.log + [ErrorLine(r.attempts + 1, at, err)])
  {
  }

  lemma ScrapedCounts(r: Recorder, interval: int, at: int, values: map<string, Value>)
    ensures var r' := Step(r, interval, Scraped(at, values));
            && r'.errors == r.errors && r'.attempts == r.attempts + 1 && r'.successes == r.successes + 1
            && r'.gaps == r.gaps + (if IsGap(r.lastOK, at, interval) then 1 else 0)
            && r'.gapTime == r.gapTime + (if IsGap(r.lastOK, at, interval) then at - r.lastOK.value else 0)
            && r'.lastOK == Some(at)
  {
    hide SortedKeys, Announce, SeriesLines, Dense;
  }

  /** Whatever prefix of the lines reached the disk decodes to a prefix of the recorded samples. */
  lemma {:induction false} PrefixDecodesToAPrefix(lines: seq<Line>, k: nat)
    requires k <= |lines|
    ensures Parse(lines[..k]).samples <= Parse(lines).samples
    decreases |lines|
  {
    hide RowUpTo, PutNames;
    if k == |lines| {
      assert lines[..k] == lines;
    } else {
      var n := |lines| - 1;
      PrefixDecodesToAPrefix(lines[..n], k);
      assert lines[..n][..k] == lines[..k];
    }
  }

  /** The lines a recorder had written at any point decode to the samples of a prefix of its run. */
  lemma LinesSoFarHoldAPrefixOfTheRun(interval: int, scrapes: seq<Scrape>, k: nat)
    requires k <= |Record(interval, scrapes).log|
    ensures Parse(Record(interval, scrapes).log[..k]).samples <= Rows(scrapes)
  {
    hide Record, Rows, Parse;
    ParserRecoversTheRun(interval, scrapes);
    PrefixDecodesToAPrefix(Record(interval, scrapes).log, k);
  }

  /** Every vector in the log has exactly one entry per name announced above it. */
  ghost predicate NamesComeFirst(log: seq<Line>) {
    forall p :: 0 <= p < |log| && log[p].SampleLine? ==> |log[p].vector| == |Parse(log[..p]).names|
  }

  lemma NamesComeFirstAppend(log: seq<Line>, more: seq<Line>, sample: Line)
    requires NamesComeFirst(log) && forall i :: 0 <= i < |more| ==> !more[i].SampleLine?
    requires sample.SampleLine? && |sample.vector| == |Parse(log + more).names|
    ensures NamesComeFirst(log + more + [sample])
  {
    hide Parse;
    var all := log + more + [sample];
    assert forall i :: |log| <= i < |log| + |more| ==> all[i] == more[i - |log|];
    forall p | 0 <= p < |all| && all[p].SampleLine? ensures |all[p].vector| == |Parse(all[..p]).names| {
      if p < |log| {
        assert all[p] == log[p] && all[..p] == log[..p];
      } else {
        assert all[..|log| + |more|] == log + more;
      }
    }
  }

  /** The recorder announces each series before the first vector that uses it. */
  lemma {:induction false} SeriesAreAnnouncedBeforeUse(interval: int, scrapes: seq<Scrape>)
    ensures NamesComeFirst(Record(interval, scrapes).log)
  {
    hide Parse, SortedKeys, Announce, Dense, SeriesLines, NamesComeFirst, Distinct;
    if scrapes == [] {
      HeaderNamesNothing();
    } else {
      var n := |scrapes| - 1;
      SeriesAreAnnouncedBeforeUse(interval, scrapes[..n]);
      ParserRecoversTheRun(interval, scrapes[..n]);
      var r := Record(interval, scrapes[..n]);
      match scrapes[n]
      case Failed(at, err) =>
        NamesComeFirstError(r.log, ErrorLine(r.attempts + 1, at, err));
      case Scraped(at, values) =>
        AnnouncedStep(r, interval, at, values);
    }
  }

  lemma HeaderNamesNothing()
    ensures NamesComeFirst(EMPTY.log)
  {
  }

  lemma NamesComeFirstError(log: seq<Line>, line: Line)
    requires NamesComeFirst(log) && line.ErrorLine?
    ensures NamesComeFirst(log + [line])
  {
    hide Parse;
    var all := log + [line];
    forall p | 0 <= p < |all| && all[p].SampleLine? ensures |all[p].vector| == |Parse(all[..p]).names| {
      assert all[p] == log[p] && all[..p] == log[..p];
    }
  }

  lemma AnnouncedStep(r: Recorder, interval: int, at: int, values: map<string, Value>)
    requires NamesComeFirst(r.log) && Parse(r.log).names == r.names
    ensures NamesComeFirst(Step(r, interval, Scraped(at, values)).log)
  {
    hide Parse, SortedKeys, Announce, Dense, Announcements, NamesComeFirst;
    var names := Announce(r.names, SortedKeys(values.Keys));
    var gap := if IsGap(r.lastOK, at, interval) then [GapLine(r.lastOK.value, at)] else [];
    var series := SeriesLines(names, |r.names|);
    if gap != [] {
      ParseSnoc(r.log, gap[0]);
    } else {
      assert r.log + gap == r.log;
    }
    ParseSeries(r.log + gap, r.names, names);
    assert r.log + gap + series == r.log + (gap + series);
    DenseLength(values, names);
    NamesComeFirstAppend(r.log, gap + series, SampleLine(r.attempts + 1, at, Dense(values, names)));
  }

  lemma DenseLength(values: map<string, Value>, names: seq<string>)
    ensures |Dense(values, names)| == |names|
  {
  }

  // ----- the recorder's own accounting -----

  lemma {:induction false} GapsAppend(a: seq<Line>, b: seq<Line>)
    ensures GapsLogged(a + b) == GapsLogged(a) + GapsLogged(b)
  {
    if b == [] {
      assert a + b == a;
    } else {
      var k := |b| - 1;
      assert (a + b)[..|a| + k] == a + b[..k];
      GapsAppend(a, b[..k]);
    }
  }

  lemma GapsOfOne(line: Line)
    ensures GapsLogged([line]) == if line.GapLine? then [(line.since, line.until)] else []
  {
    assert [line][..0] == [];
  }

  lemma GapsOfStep(r: Recorder, interval: int, scrape: Scrape)
    ensures GapsLogged(Step(r, interval, scrape).log) == GapsLogged(r.log) +
            if scrape.Scraped? && IsGap(r.lastOK, scrape.at, interval) then [(r.lastOK.value, scrape.at)] else []
  {
    hide GapsLogged, SortedKeys, Announce, Dense, Announcements;
    match scrape
    case Failed(at, err) =>
      GapsAppend(r.log, [ErrorLine(r.attempts + 1, at, err)]);
      GapsOfOne(ErrorLine(r.attempts + 1, at, err));
    case Scraped(at, values) =>
      var names := Announce(r.names, SortedKeys(values.Keys));
      var gap := if IsGap(r.lastOK, at, interval) then [GapLine(r.lastOK.value, at)] else [];
      var series := SeriesLines(names, |r.names|);
      var sample := SampleLine(r.attempts + 1, at, Dense(values, names));
      GapsAppend(r.log + gap + series, [sample]);
      GapsAppend(r.log + gap, series);
      GapsAppend(r.log, gap);
      GapsOfOne(sample);
      GapsOfNothing();
      if series != [] {
        GapsOfOne(series[0]);
      }
      if gap != [] {
        GapsOfOne(gap[0]);
      }
  }

  lemma GapsOfNothing()
    ensures GapsLogged([]) == []
  {
  }

  lemma PausesSnoc(times: seq<int>, at: int, interval: int)
    ensures LongPauses(times + [at], interval) == LongPauses(times, interval) +
            if times != [] && at - times[|times| - 1] > 2 * interval then [(times[|times| - 1], at)] else []
  {
    assert (times + [at])[..|times|] == times;
  }

  /** Every attempt is a success or an error, and a gap is logged exactly for each pair of
      neighbouring successes more than twice the interval apart. */
  lemma {:induction false} AttemptsAndGapsAddUp(interval: int, scrapes: seq<Scrape>)
    ensures var r, times := Record(interval, scrapes), SuccessTimes(scrapes);
            && r.attempts == |scrapes| == r.successes + r.errors
            && r.successes == |times| && r.errors == Failures(scrapes)
            && GapsLogged(r.log) == LongPauses(times, interval)
            && r.gaps == |GapsLogged(r.log)|
            && r.lastOK == if times == [] then None else Some(times[|times| - 1])
  {
    hide Step, LongPauses;
    if scrapes == [] {
      assert EMPTY.log[..0] == [];
      NoPauses(interval);
    } else {
      var n := |scrapes| - 1;
      AttemptsAndGapsAddUp(interval, scrapes[..n]);
      var r := Record(interval, scrapes[..n]);
      GapsOfStep(r, interval, scrapes[n]);
      match scrapes[n]
      case Failed(at, err) =>
        FailedStep(r, interval, at, err);
        assert SuccessTimes(scrapes) == SuccessTimes(scrapes[..n]);
        assert GapsLogged(r.log) + [] == GapsLogged(r.log);
      case Scraped(at, values) =>
        ScrapedCounts(r, interval, at, values);
        PausesSnoc(SuccessTimes(scrapes[..n]), at, interval);
    }
  }

  lemma NoPauses(interval: int)
    ensures LongPauses([], interval) == []
  {
  }
}
