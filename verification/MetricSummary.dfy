/** `summarizeRecording`: totals and per-series first, last, minimum and maximum over a recording. */
module MetricSummary {
  import opened Text
  import opened MetricRecorder
  import opened MetricReaders

  datatype Stat = Stat(first: real, last: real, min: real, max: real, minAt: int, maxAt: int, count: nat)

  /** One more value of a series. */
  function Update(stat: Option<Stat>, value: real, at: int): Stat {
    match stat
    case None => Stat(value, value, value, value, at, at, 1)
    case Some(s) =>
      Stat(s.first, value,
           if value < s.min then value else s.min, if value > s.max then value else s.max,
           if value < s.min then at else s.minAt, if value > s.max then at else s.maxAt, s.count + 1)
  }

  type Stats = map<nat, Stat>

  function Get(stats: Stats, i: nat): Option<Stat> {
    if i in stats then Some(stats[i]) else None
  }

  function AddUpTo(stats: Stats, vector: seq<Option<real>>, at: int, n: nat): Stats
    requires n <= |vector|
  {
    if n == 0 then stats else
    var before := AddUpTo(stats, vector, at, n - 1);
    if vector[n - 1].Some? then before[n - 1 := Update(Get(before, n - 1), vector[n - 1].value, at)] else before
  }

  datatype Summary = Summary(names: seq<string>, stats: Stats, firstAt: Option<int>, lastAt: Option<int>,
                             samples: nat, errors: nat, gaps: nat, gapTime: int, end: Option<string>)

  const NOTHING := Summary([], map[], None, None, 0, 0, 0, 0, None)

  function SummaryStep(s: Summary, line: Line): Summary {
    match line
    case HeaderLine => s
    case SeriesLine(add) => s.(names := PutNames(s.names, add))
    case SampleLine(_, at, vector) =>
      s.(samples := s.samples + 1, firstAt := if s.firstAt.None? then Some(at) else s.firstAt, lastAt := Some(at),
         stats := AddUpTo(s.stats, vector, at, |vector|))
    case ErrorLine(_, _, _) => s.(errors := s.errors + 1)
    case GapLine(since, until) => s.(gaps := s.gaps + 1, gapTime := s.gapTime + (until - since))
    case EndLine(reason) => s.(end := Some(reason))
  }

  function Summarize(lines: seq<Line>): Summary {
    if lines == [] then NOTHING else SummaryStep(Summarize(lines[..|lines| - 1]), lines[|lines| - 1])
  }

  /** The scan loop as it runs. */
  method SummarizeRecording(lines: seq<Line>) returns (summary: Summary)
    ensures summary == Summarize(lines)
  {
    var names: seq<string>, stats: Stats := [], map[];
    var firstAt: Option<int>, lastAt: Option<int>, end: Option<string> := None, None, None;
    var samples, errors, gaps, gapTime := 0, 0, 0, 0;
    for i := 0 to |lines|
      invariant Summary(names, stats, firstAt, lastAt, samples, errors, gaps, gapTime, end) == Summarize(lines[..i])
    {
      assert lines[..i + 1][..i] == lines[..i];
      match lines[i]
      case HeaderLine =>
      case SeriesLine(add) =>
        names := PlaceNames(names, add);
      case SampleLine(_, at, vector) =>
        samples := samples + 1;
        if firstAt.None? {
          firstAt := Some(at);
        }
        lastAt := Some(at);
        stats := AddVector(stats, vector, at);
      case ErrorLine(_, _, _) =>
        errors := errors + 1;
      case GapLine(since, until) =>
        gaps, gapTime := gaps + 1, gapTime + (until - since);
      case EndLine(reason) =>
        end := Some(reason);
    }
    assert lines[..|lines|] == lines;
    summary := Summary(names, stats, firstAt, lastAt, samples, errors, gaps, gapTime, end);
  }

  /** The inner loop over one sample's vector. */
  method AddVector(before: Stats, vector: seq<Option<real>>, at: int) returns (stats: Stats)
    ensures stats == AddUpTo(before, vector, at, |vector|)
  {
    stats := before;
    for i := 0 to |vector|
      invariant stats == AddUpTo(before, vector, at, i)
    {
      if vector[i].Some? {
        var value := vector[i].value;
        var s := if i in stats then stats[i] else Stat(value, value, value, value, at, at, 0);
        if value < s.min {
          s := s.(min := value, minAt := at);
        }
        if value > s.max {
          s := s.(max := value, maxAt := at);
        }
        stats := stats[i := s.(last := value, count := s.count + 1)];
      }
    }
  }

  // ----- the history of a series in the recorded run -----

  datatype Reading = Reading(value: real, at: int)

  predicate Carries(scrape: Scrape, name: string) {
    scrape.Scraped? && name in scrape.values && scrape.values[name].Finite?
  }

  function History(scrapes: seq<Scrape>, name: string): seq<Reading> {
    if scrapes == [] then [] else
    var last := scrapes[|scrapes| - 1];
    History(scrapes[..|scrapes| - 1], name) + if Carries(last, name) then [Reading(last.values[name].number, last.at)] else []
  }

  function StatOf(history: seq<Reading>): Option<Stat> {
    if history == [] then None else
    var last := history[|history| - 1];
    Some(Update(StatOf(history[..|history| - 1]), last.value, last.at))
  }

  /** The least value, and the instant it was first reached. */
  ghost predicate IsMin(history: seq<Reading>, least: Reading) {
    && (forall i :: 0 <= i < |history| ==> least.value <= history[i].value)
    && exists i :: 0 <= i < |history| && history[i] == least && forall j :: 0 <= j < i ==> history[j].value > least.value
  }

  ghost predicate IsMax(history: seq<Reading>, most: Reading) {
    && (forall i :: 0 <= i < |history| ==> history[i].value <= most.value)
    && exists i :: 0 <= i < |history| && history[i] == most && forall j :: 0 <= j < i ==> history[j].value < most.value
  }

  lemma MinSnoc(history: seq<Reading>, last: Reading, least: Reading)
    requires IsMin(history, least)
    ensures IsMin(history + [last], if last.value < least.value then last else least)
  {
    var more := history + [last];
    var i :| 0 <= i < |history| && history[i] == least && forall j :: 0 <= j < i ==> history[j].value > least.value;
    var k := if last.value < least.value then |history| else i;
    assert more[k] == if last.value < least.value then last else least;
  }

  lemma MaxSnoc(history: seq<Reading>, last: Reading, most: Reading)
    requires IsMax(history, most)
    ensures IsMax(history + [last], if last.value > most.value then last else most)
  {
    var more := history + [last];
    var i :| 0 <= i < |history| && history[i] == most && forall j :: 0 <= j < i ==> history[j].value < most.value;
    var k := if last.value > most.value then |history| else i;
    assert more[k] == if last.value > most.value then last else most;
  }

  /** The statistics say what they are named after, and the extremes carry the instant they were
      first reached. */
  lemma {:induction false} StatIsExact(history: seq<Reading>)
    requires history != []
    ensures var s := StatOf(history).value;
            && s.count == |history| && s.first == history[0].value && s.last == history[|history| - 1].value
            && IsMin(history, Reading(s.min, s.minAt)) && IsMax(history, Reading(s.max, s.maxAt))
  {
    hide IsMin, IsMax;
    var n := |history| - 1;
    var last := history[n];
    if n == 0 {
      assert history[..n] == [];
      SingleIsExtreme(history);
    } else {
      StatIsExact(history[..n]);
      var s := StatOf(history[..n]).value;
      assert history == history[..n] + [last];
      MinSnoc(history[..n], last, Reading(s.min, s.minAt));
      MaxSnoc(history[..n], last, Reading(s.max, s.maxAt));
    }
  }

  lemma SingleIsExtreme(history: seq<Reading>)
    requires |history| == 1
    ensures IsMin(history, history[0]) && IsMax(history, history[0])
  {
  }

  // ----- the summary of a recording -----

  lemma SummarySnoc(lines: seq<Line>, line: Line)
    ensures Summarize(lines + [line]) == SummaryStep(Summarize(lines), line)
  {
    hide SummaryStep;
    assert (lines + [line])[..|lines|] == lines;
  }

  lemma {:induction false} AddUpToAt(stats: Stats, vector: seq<Option<real>>, at: int, n: nat, i: nat)
    requires n <= |vector|
    ensures Get(AddUpTo(stats, vector, at, n), i) ==
            if i < n && vector[i].Some? then Some(Update(Get(stats, i), vector[i].value, at)) else Get(stats, i)
  {
    hide Update;
    if n > 0 {
      AddUpToAt(stats, vector, at, n - 1, i);
    }
  }

  /** Each index holds the statistics of the series it names, and no other index holds any. */
  ghost predicate StatsMatch(stats: Stats, names: seq<string>, scrapes: seq<Scrape>) {
    && (forall i: nat :: i < |names| ==> Get(stats, i) == StatOf(History(scrapes, names[i])))
    && (forall i: nat :: i >= |names| ==> Get(stats, i).None?)
  }

  lemma {:induction false} UnseenHasNoHistory(scrapes: seq<Scrape>, name: string)
    requires name !in Seen(scrapes)
    ensures History(scrapes, name) == []
  {
    if scrapes != [] {
      var n := |scrapes| - 1;
      assert scrapes == scrapes[..n] + [scrapes[n]];
      SeenSnoc(scrapes[..n], scrapes[n]);
      UnseenHasNoHistory(scrapes[..n], name);
    }
  }

  lemma HistorySnoc(scrapes: seq<Scrape>, scrape: Scrape, name: string)
    ensures History(scrapes + [scrape], name) ==
            if Carries(scrape, name) then History(scrapes, name) + [Reading(scrape.values[name].number, scrape.at)]
            else History(scrapes, name)
  {
    assert (scrapes + [scrape])[..|scrapes|] == scrapes;
  }

  lemma StatSnoc(history: seq<Reading>, reading: Reading)
    ensures StatOf(history + [reading]) == Some(Update(StatOf(history), reading.value, reading.at))
  {
    hide Update;
    assert (history + [reading])[..|history|] == history;
  }

  lemma StatsMatchFailed(stats: Stats, names: seq<string>, scrapes: seq<Scrape>, scrape: Scrape)
    requires StatsMatch(stats, names, scrapes) && scrape.Failed?
    ensures StatsMatch(stats, names, scrapes + [scrape])
  {
    hide Get, StatOf, History;
    forall i: nat | i < |names| ensures Get(stats, i) == StatOf(History(scrapes + [scrape], names[i])) {
      HistorySnoc(scrapes, scrape, names[i]);
    }
  }

  lemma StatsMatchScraped(stats: Stats, names: seq<string>, scrapes: seq<Scrape>, at: int, values: map<string, Value>, more: seq<string>)
    requires StatsMatch(stats, names, scrapes) && names <= more && Distinct(more)
    requires forall name :: name in Seen(scrapes) ==> name in names
    ensures StatsMatch(AddUpTo(stats, Dense(values, more), at, |more|), more, scrapes + [Scraped(at, values)])
  {
    hide Get, StatOf, History, Update, AddUpTo, Seen;
    var vector, scrape := Dense(values, more), Scraped(at, values);
    forall i: nat
      ensures i < |more| ==> Get(AddUpTo(stats, vector, at, |more|), i) == StatOf(History(scrapes + [scrape], more[i]))
      ensures i >= |more| ==> Get(AddUpTo(stats, vector, at, |more|), i).None?
    {
      AddUpToAt(stats, vector, at, |more|, i);
      if i < |more| {
        if i >= |names| {
          NewNameIsUnseen(names, more, i);
          UnseenHasNoHistory(scrapes, more[i]);
          NoStat();
        }
        assert Get(stats, i) == StatOf(History(scrapes, more[i]));
        HistorySnoc(scrapes, scrape, more[i]);
        if Carries(scrape, more[i]) {
          StatSnoc(History(scrapes, more[i]), Reading(values[more[i]].number, at));
        }
      }
    }
  }

  lemma NoStat()
    ensures StatOf([]) == None
  {
  }

  lemma NewNameIsUnseen(names: seq<string>, more: seq<string>, i: nat)
    requires names <= more && Distinct(more) && |names| <= i < |more|
    ensures more[i] !in names
  {
    assert forall j :: 0 <= j < |names| ==> names[j] == more[j];
  }

  lemma SummarySeries(log: seq<Line>, known: seq<string>, names: seq<string>)
    requires known <= names && Summarize(log).names == known
    ensures Summarize(log + SeriesLines(names, |known|)) == Summarize(log).(names := names)
  {
    hide PutNames, Summarize;
    if |known| < |names| {
      var add := Announcements(names, |known|);
      SummarySnoc(log, SeriesLine(add));
      PutAnnouncements(known, names, |add|);
      assert add[..|add|] == add;
      assert names[..|known| + |add|] == names;
    } else {
      assert log + [] == log;
      assert known == names;
    }
  }

  lemma SummaryScraped(r: Recorder, interval: int, at: int, values: map<string, Value>)
    requires Summarize(r.log).names == r.names
    ensures var s, r' := Summarize(r.log), Step(r, interval, Scraped(at, values));
            var gap := IsGap(r.lastOK, at, interval);
            Summarize(r'.log) == s.(
              names := r'.names, samples := s.samples + 1,
              firstAt := if s.firstAt.None? then Some(at) else s.firstAt, lastAt := Some(at),
              stats := AddUpTo(s.stats, Dense(values, r'.names), at, |r'.names|),
              gaps := if gap then s.gaps + 1 else s.gaps,
              gapTime := if gap then s.gapTime + (at - r.lastOK.value) else s.gapTime)
  {
    hide Summarize, SortedKeys, Announce, SeriesLines, AddUpTo;
    var names := Announce(r.names, SortedKeys(values.Keys));
    var gap := if IsGap(r.lastOK, at, interval) then [GapLine(r.lastOK.value, at)] else [];
    var log1 := r.log + gap;
    if gap != [] {
      SummarySnoc(r.log, gap[0]);
    } else {
      assert log1 == r.log;
    }
    SummarySeries(log1, r.names, names);
    SummarySnoc(log1 + SeriesLines(names, |r.names|), SampleLine(r.attempts + 1, at, Dense(values, names)));
    DenseLength(values, names);
  }

  ghost predicate Faithful(s: Summary, r: Recorder, scrapes: seq<Scrape>) {
    var times := SuccessTimes(scrapes);
    && s.names == r.names && StatsMatch(s.stats, r.names, scrapes)
    && s.samples == r.successes && s.errors == r.errors && s.gaps == r.gaps && s.gapTime == r.gapTime
    && s.firstAt == (if times == [] then None else Some(times[0]))
    && s.lastAt == (if times == [] then None else Some(times[|times| - 1]))
    && s.end == None
  }

  /** The summary of a recording states the run's own totals, and for every series the statistics
      of exactly the finite values it took. */
  lemma {:induction false} SummaryIsFaithful(interval: int, scrapes: seq<Scrape>)
    ensures Faithful(Summarize(Record(interval, scrapes).log), Record(interval, scrapes), scrapes)
  {
    hide Step, StatsMatch, Summarize, AddUpTo, Seen;
    if scrapes == [] {
      EmptySummary();
    } else {
      var n := |scrapes| - 1;
      var init, last := scrapes[..n], scrapes[n];
      SummaryIsFaithful(interval, init);
      IndexGrowsInjectively(interval, init, 0);
      IndexGrowsInjectively(interval, scrapes, n);
      var r := Record(interval, init);
      var s := Summarize(r.log);
      assert scrapes == init + [last];
      match last
      case Failed(at, err) =>
        FailedStep(r, interval, at, err);
        SummarySnoc(r.log, ErrorLine(r.attempts + 1, at, err));
        StatsMatchFailed(s.stats, r.names, init, last);
        assert SuccessTimes(scrapes) == SuccessTimes(init);
      case Scraped(at, values) =>
        ScrapedCounts(r, interval, at, values);
        SummaryScraped(r, interval, at, values);
        StatsMatchScraped(s.stats, r.names, init, at, values, Record(interval, scrapes).names);
        assert SuccessTimes(scrapes) == SuccessTimes(init) + [at];
    }
  }

  lemma EmptySummary()
    ensures Faithful(Summarize(EMPTY.log), EMPTY, [])
  {
    assert EMPTY.log[..0] == [];
  }

  // ----- a recorder killed between two lines -----

  /** The gap count and time are the recorder's, or have the pause before the next scrape in. */
  ghost predicate GapAhead(gaps: nat, gapTime: int, r: Recorder, interval: int, next: Option<Scrape>) {
    || (gaps == r.gaps && gapTime == r.gapTime)
    || (next.Some? && next.value.Scraped? && IsGap(r.lastOK, next.value.at, interval)
        && gaps == r.gaps + 1 && gapTime == r.gapTime + (next.value.at - r.lastOK.value))
  }

  /** The names are the recorder's, or have those of the next scrape in. */
  ghost predicate NamesAhead(names: seq<string>, r: Recorder, interval: int, next: Option<Scrape>) {
    names == r.names || (next.Some? && names == Step(r, interval, next.value).names)
  }

  /** Nothing but the gap and the names of the next scrape may have been added. */
  ghost predicate RunsAhead(ahead: Summary, r: Recorder, interval: int, next: Option<Scrape>) {
    && ahead == Summarize(r.log).(names := ahead.names, gaps := ahead.gaps, gapTime := ahead.gapTime)
    && NamesAhead(ahead.names, r, interval, next) && GapAhead(ahead.gaps, ahead.gapTime, r, interval, next)
  }

  /** A log cut inside the lines of one successful scrape: its sample is not there yet. */
  lemma CutInsideAScrape(r: Recorder, interval: int, at: int, values: map<string, Value>, k: nat)
    requires var s := Summarize(r.log); s.names == r.names && s.gaps == r.gaps && s.gapTime == r.gapTime
    requires |r.log| <= k < |Step(r, interval, Scraped(at, values)).log|
    ensures RunsAhead(Summarize(Step(r, interval, Scraped(at, values)).log[..k]), r, interval, Some(Scraped(at, values)))
  {
    hide Summarize, SortedKeys, Announce, Announcements;
    var log := Step(r, interval, Scraped(at, values)).log;
    var names := Announce(r.names, SortedKeys(values.Keys));
    var gap := if IsGap(r.lastOK, at, interval) then [GapLine(r.lastOK.value, at)] else [];
    var log1 := r.log + gap;
    if gap != [] {
      SummarySnoc(r.log, gap[0]);
    } else {
      assert log1 == r.log;
    }
    SummarySeries(log1, r.names, names);
    var log2 := log1 + SeriesLines(names, |r.names|);
    assert log[..|r.log|] == r.log && log[..|log1|] == log1 && log[..|log2|] == log2;
    assert k == |r.log| || k == |log1| || k == |log2|;
  }

  function NextOf(scrapes: seq<Scrape>, m: nat): Option<Scrape> {
    if m < |scrapes| then Some(scrapes[m]) else None
  }

  /** What the summarizer shows of a cut recording: exactly the scrapes up to some point, except
      that the gap and the names of the next scrape may already be in. */
  ghost predicate FaithfulUpTo(s: Summary, interval: int, scrapes: seq<Scrape>, m: nat)
    requires m <= |scrapes|
  {
    var r, times := Record(interval, scrapes[..m]), SuccessTimes(scrapes[..m]);
    && s.samples == r.successes && s.errors == r.errors
    && s.firstAt == (if times == [] then None else Some(times[0]))
    && s.lastAt == (if times == [] then None else Some(times[|times| - 1]))
    && StatsMatch(s.stats, s.names, scrapes[..m])
    && NamesAhead(s.names, r, interval, NextOf(scrapes, m)) && GapAhead(s.gaps, s.gapTime, r, interval, NextOf(scrapes, m))
  }

  lemma StatsMatchMore(stats: Stats, names: seq<string>, more: seq<string>, scrapes: seq<Scrape>)
    requires StatsMatch(stats, names, scrapes) && names <= more && Distinct(more)
    requires forall name :: name in Seen(scrapes) ==> name in names
    ensures StatsMatch(stats, more, scrapes)
  {
    hide Get, StatOf, History, Seen;
    forall i: nat | i < |more| ensures Get(stats, i) == StatOf(History(scrapes, more[i])) {
      if i >= |names| {
        NewNameIsUnseen(names, more, i);
        UnseenHasNoHistory(scrapes, more[i]);
        NoStat();
      }
    }
  }

  lemma RecordNext(interval: int, scrapes: seq<Scrape>, m: nat)
    requires m < |scrapes|
    ensures Record(interval, scrapes[..m + 1]) == Step(Record(interval, scrapes[..m]), interval, scrapes[m])
  {
    hide Step;
    assert scrapes[..m + 1][..m] == scrapes[..m];
  }

  lemma NamesOfNext(interval: int, scrapes: seq<Scrape>, m: nat)
    requires m < |scrapes|
    ensures var r := Record(interval, scrapes[..m]);
            r.names <= Step(r, interval, scrapes[m]).names && Distinct(Step(r, interval, scrapes[m]).names)
  {
    hide Step, Record, Distinct, Seen;
    RecordNext(interval, scrapes, m);
    IndexGrowsInjectively(interval, scrapes[..m + 1], m);
    assert scrapes[..m + 1][..m] == scrapes[..m];
  }

  lemma FaithfulBefore(s: Summary, interval: int, scrapes: seq<Scrape>, m: nat)
    requires m <= |scrapes| && RunsAhead(s, Record(interval, scrapes[..m]), interval, NextOf(scrapes, m))
    ensures FaithfulUpTo(s, interval, scrapes, m)
  {
    hide Record, StatsMatch, Summarize, Seen, Distinct, Step, GapAhead;
    var r := Record(interval, scrapes[..m]);
    SummaryIsFaithful(interval, scrapes[..m]);
    IndexGrowsInjectively(interval, scrapes[..m], 0);
    if m < |scrapes| {
      NamesOfNext(interval, scrapes, m);
    }
    StatsMatchMore(s.stats, r.names, s.names, scrapes[..m]);
  }

  lemma RunsLevel(r: Recorder, interval: int, next: Option<Scrape>)
    requires var s := Summarize(r.log); s.names == r.names && s.gaps == r.gaps && s.gapTime == r.gapTime
    ensures RunsAhead(Summarize(r.log), r, interval, next)
  {
    hide Step;
  }

  /** Wherever the recorder is killed between two lines, the summarizer shows the sample count,
      errors, instants and per-series statistics of exactly the scrapes up to some point, and the
      gaps and names of those or also of the next one. */
  lemma {:induction false} CutRecordingSummarizesAPrefix(interval: int, scrapes: seq<Scrape>, k: nat) returns (m: nat)
    requires k <= |Record(interval, scrapes).log|
    ensures m <= |scrapes| && FaithfulUpTo(Summarize(Record(interval, scrapes).log[..k]), interval, scrapes, m)
  {
    hide FaithfulUpTo, RunsAhead, Summarize, Step;
    var r := Record(interval, scrapes);
    var n := |scrapes| - 1;
    if k == |r.log| {
      m := |scrapes|;
      assert r.log[..k] == r.log && scrapes[..m] == scrapes;
      RunsLevel(r, interval, NextOf(scrapes, m)) by { SummaryIsFaithful(interval, scrapes); }
      FaithfulBefore(Summarize(r.log), interval, scrapes, m);
    } else if scrapes == [] {
      m := 0;
      assert k == 0 && scrapes[..0] == [];
      CutEmpty(interval, NextOf(scrapes, m));
      FaithfulBefore(Summarize(r.log[..k]), interval, scrapes, m);
    } else {
      var init := scrapes[..n];
      var before := Record(interval, init);
      LogGrows(before, interval, scrapes[n]);
      if k < |before.log| {
        m := CutRecordingSummarizesAPrefix(interval, init, k);
        assert r.log[..k] == before.log[..k] && init[..m] == scrapes[..m];
        if m == n {
          FaithfulEnd(Summarize(r.log[..k]), interval, scrapes);
        } else {
          FaithfulLonger(Summarize(r.log[..k]), interval, scrapes, m);
        }
      } else {
        m := n;
        SummaryIsFaithful(interval, init);
        match scrapes[n] {
          case Failed(at, err) =>
            FailedStep(before, interval, at, err);
            assert r.log[..k] == before.log;
            RunsLevel(before, interval, NextOf(scrapes, m));
          case Scraped(at, values) =>
            CutInsideAScrape(before, interval, at, values, k);
        }
        FaithfulBefore(Summarize(r.log[..k]), interval, scrapes, m);
      }
    }
  }

  lemma LogGrows(r: Recorder, interval: int, scrape: Scrape)
    ensures r.log <= Step(r, interval, scrape).log
  {
  }

  lemma CutEmpty(interval: int, next: Option<Scrape>)
    ensures RunsAhead(Summarize(EMPTY.log[..0]), Record(interval, []), interval, next)
  {
    assert EMPTY.log[..0] == [];
  }

  lemma FaithfulLonger(s: Summary, interval: int, scrapes: seq<Scrape>, m: nat)
    requires m < |scrapes| - 1 && FaithfulUpTo(s, interval, scrapes[..|scrapes| - 1], m)
    ensures FaithfulUpTo(s, interval, scrapes, m)
  {
    hide Record, StatsMatch, Step, GapAhead;
    assert scrapes[..|scrapes| - 1][..m] == scrapes[..m];
  }

  lemma FaithfulEnd(s: Summary, interval: int, scrapes: seq<Scrape>)
    requires scrapes != [] && FaithfulUpTo(s, interval, scrapes[..|scrapes| - 1], |scrapes| - 1)
    ensures FaithfulUpTo(s, interval, scrapes, |scrapes| - 1)
  {
    hide Record, StatsMatch, Step;
    var init := scrapes[..|scrapes| - 1];
    assert init[..|init|] == init;
  }
}
