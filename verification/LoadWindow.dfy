/** The one-second window of the fault load generator: workers add outcomes under a mutex, the
    reporting loop drains the window, handing its maps over, and merges what it drained. Each
    critical section is one operation; a schedule is one interleaving of them. */
module LoadWindow {
  import opened Text
  import opened Tally

  /** What became of one request; errors come as their bounded reason. */
  datatype Outcome = Failed(reason: string) | Answered(status: int, latency: int)

  function Get<K>(m: map<K, nat>, k: K): nat {
    if k in m then m[k] else 0
  }

  ghost function Total<K>(m: map<K, nat>): int {
    SumMap(m, Count)
  }

  /** A map on the heap, as the window and whoever drained it share it by reference. */
  class Counts<K(==)> {
    var counts: map<K, nat>

    constructor ()
      ensures counts == map[]
    {
      counts := map[];
    }

    method Increment(k: K)
      modifies this
      ensures counts == old(counts)[k := Get(old(counts), k) + 1]
      ensures Total(counts) == old(Total(counts)) + 1
    {
      var n: nat := Get(counts, k) + 1;
      SumMapUpdate(counts, k, n, Count);
      counts := counts[k := n];
    }
  }

  datatype Batch = Batch(requests: nat, status: Counts<int>, errs: Counts<string>, latencies: seq<int>)

  /** A batch counts every request once, as a status or as an error, and has a latency for each status. */
  ghost predicate Balanced(requests: nat, status: map<int, nat>, errs: map<string, nat>, latencies: seq<int>) {
    requests == Total(status) + Total(errs) && |latencies| == Total(status)
  }

  class Window {
    var requests: nat
    var status: Counts<int>
    var errs: Counts<string>
    var latencies: seq<int>

    ghost predicate Valid()
      reads this, status, errs
    {
      Balanced(requests, status.counts, errs.counts, latencies)
    }

    constructor ()
      ensures Valid() && fresh(status) && fresh(errs)
      ensures requests == 0 && status.counts == map[] && errs.counts == map[] && latencies == []
    {
      requests, latencies := 0, [];
      status := new Counts();
      errs := new Counts();
    }

    method Add(outcome: Outcome)
      requires Valid()
      modifies this`requests, this`latencies, status, errs
      ensures Valid() && requests == old(requests) + 1
      ensures match outcome
              case Failed(reason) =>
                && errs.counts == old(errs.counts)[reason := Get(old(errs.counts), reason) + 1]
                && status.counts == old(status.counts) && latencies == old(latencies)
              case Answered(code, latency) =>
                && status.counts == old(status.counts)[code := Get(old(status.counts), code) + 1]
                && errs.counts == old(errs.counts) && latencies == old(latencies) + [latency]
    {
      requests := requests + 1;
      match outcome
      case Failed(reason) =>
        errs.Increment(reason);
        assert status.counts == old(status.counts);
      case Answered(code, latency) =>
        status.Increment(code);
        assert errs.counts == old(errs.counts);
        latencies := latencies + [latency];
    }

    /** Hands the maps over and starts fresh ones. */
    method Drain() returns (batch: Batch)
      requires Valid()
      modifies this
      ensures batch == Batch(old(requests), old(status), old(errs), old(latencies))
      ensures Valid() && fresh(status) && fresh(errs)
      ensures requests == 0 && status.counts == map[] && errs.counts == map[] && latencies == []
      ensures batch.status.counts == old(status.counts) && batch.errs.counts == old(errs.counts)
    {
      batch := Batch(requests, status, errs, latencies);
      requests, latencies := 0, [];
      status := new Counts();
      errs := new Counts();
    }
  }

  // ----- merging into the running totals -----

  method MergeInto<K(==)>(totals: map<K, nat>, counts: map<K, nat>) returns (merged: map<K, nat>)
    ensures forall k :: Get(merged, k) == Get(totals, k) + Get(counts, k)
  {
    merged := totals;
    var left := counts.Keys;
    while left != {}
      invariant left <= counts.Keys
      invariant forall k :: Get(merged, k) == Get(totals, k) + if k in left then 0 else Get(counts, k)
      decreases left
    {
      var k :| k in left;
      merged := merged[k := Get(merged, k) + counts[k]];
      left := left - {k};
    }
  }

  /** `totalErr`: the sum of a drained error map, entry by entry. */
  method SumCounts<K(==)>(counts: map<K, nat>) returns (sum: nat)
    ensures sum as int == Total(counts)
  {
    sum := 0;
    var left := counts;
    while left.Keys != {}
      invariant sum as int + Total(left) == Total(counts)
      decreases |left.Keys|
    {
      var k :| k in left.Keys;
      SumMapRemove(left, k, Count);
      sum := sum + left[k];
      left := left - {k};
    }
  }

  // ----- a whole run -----

  /** A worker's critical section, the reporter's drain, and its merge of what it drained. */
  datatype Op = Request(outcome: Outcome) | DrainOp | MergeOp

  function Outcomes(ops: seq<Op>): seq<Outcome> {
    if ops == [] then [] else
    Outcomes(ops[..|ops| - 1]) + if ops[|ops| - 1].Request? then [ops[|ops| - 1].outcome] else []
  }

  function StatusCount(outcomes: seq<Outcome>, code: int): nat {
    if outcomes == [] then 0 else
    var last := outcomes[|outcomes| - 1];
    StatusCount(outcomes[..|outcomes| - 1], code) + if last.Answered? && last.status == code then 1 else 0
  }

  function ErrorCount(outcomes: seq<Outcome>, reason: string): nat {
    if outcomes == [] then 0 else
    var last := outcomes[|outcomes| - 1];
    ErrorCount(outcomes[..|outcomes| - 1], reason) + if last.Failed? && last.reason == reason then 1 else 0
  }

  function Failures(outcomes: seq<Outcome>): nat {
    if outcomes == [] then 0 else
    Failures(outcomes[..|outcomes| - 1]) + if outcomes[|outcomes| - 1].Failed? then 1 else 0
  }

  /** One reported line, as values at the time of the merge. */
  datatype Line = Line(requests: nat, status: map<int, nat>, errs: map<string, nat>, latencies: seq<int>)

  datatype Report = Report(total: nat, totalErr: nat, status: map<int, nat>, errs: map<string, nat>, lines: seq<Line>)

  function LatenciesOf(outcomes: seq<Outcome>): seq<int> {
    if outcomes == [] then [] else
    LatenciesOf(outcomes[..|outcomes| - 1]) +
    if outcomes[|outcomes| - 1].Answered? then [outcomes[|outcomes| - 1].latency] else []
  }

  /** The line counts exactly the given outcomes: each status and reason as often as it occurred,
      no other entry, and the latencies in the order they were measured. */
  ghost predicate States(line: Line, outcomes: seq<Outcome>) {
    && line.requests == |outcomes| && line.latencies == LatenciesOf(outcomes)
    && (forall code :: Get(line.status, code) == StatusCount(outcomes, code) && (code in line.status <==> StatusCount(outcomes, code) > 0))
    && (forall reason :: Get(line.errs, reason) == ErrorCount(outcomes, reason) && (reason in line.errs <==> ErrorCount(outcomes, reason) > 0))
  }

  /** The running totals are those of the given outcomes. */
  ghost predicate Sums(report: Report, outcomes: seq<Outcome>) {
    && report.total == |outcomes| && report.totalErr == Failures(outcomes)
    && (forall code :: Get(report.status, code) == StatusCount(outcomes, code))
    && (forall reason :: Get(report.errs, reason) == ErrorCount(outcomes, reason))
  }

  function Flatten(segments: seq<seq<Outcome>>): seq<Outcome> {
    if segments == [] then [] else Flatten(segments[..|segments| - 1]) + segments[|segments| - 1]
  }

  /** One line per segment, each counting exactly its segment. */
  ghost predicate LineByLine(lines: seq<Line>, segments: seq<seq<Outcome>>) {
    |lines| == |segments| && forall i :: 0 <= i < |lines| ==> States(lines[i], segments[i])
  }

  lemma OutcomesSnoc(ops: seq<Op>, i: nat)
    requires i < |ops|
    ensures Outcomes(ops[..i + 1]) == Outcomes(ops[..i]) + if ops[i].Request? then [ops[i].outcome] else []
  {
    assert ops[..i + 1][..i] == ops[..i];
  }

  lemma CountsSnoc(outcomes: seq<Outcome>, outcome: Outcome, code: int, reason: string)
    ensures StatusCount(outcomes + [outcome], code) == StatusCount(outcomes, code) + if outcome.Answered? && outcome.status == code then 1 else 0
    ensures ErrorCount(outcomes + [outcome], reason) == ErrorCount(outcomes, reason) + if outcome.Failed? && outcome.reason == reason then 1 else 0
    ensures Failures(outcomes + [outcome]) == Failures(outcomes) + if outcome.Failed? then 1 else 0
  {
    assert (outcomes + [outcome])[..|outcomes|] == outcomes;
  }

  lemma LatenciesSnoc(outcomes: seq<Outcome>, outcome: Outcome)
    ensures LatenciesOf(outcomes + [outcome]) == LatenciesOf(outcomes) + if outcome.Answered? then [outcome.latency] else []
  {
    assert (outcomes + [outcome])[..|outcomes|] == outcomes;
  }

  lemma {:induction false} CountsAppend(a: seq<Outcome>, b: seq<Outcome>, code: int, reason: string)
    ensures StatusCount(a + b, code) == StatusCount(a, code) + StatusCount(b, code)
    ensures ErrorCount(a + b, reason) == ErrorCount(a, reason) + ErrorCount(b, reason)
    ensures Failures(a + b) == Failures(a) + Failures(b)
  {
    if b == [] {
      assert a + b == a;
    } else {
      var n := |b| - 1;
      CountsAppend(a, b[..n], code, reason);
      assert a + b == a + b[..n] + [b[n]] && b == b[..n] + [b[n]];
      CountsSnoc(a + b[..n], b[n], code, reason);
      CountsSnoc(b[..n], b[n], code, reason);
    }
  }

  /** Where the outcomes are: in the lines reported so far, segment by segment, in a drained batch,
      or in the open window. */
  datatype Ledger = Ledger(reported: seq<seq<Outcome>>, waiting: seq<Outcome>, current: seq<Outcome>)

  function All(ledger: Ledger): seq<Outcome> {
    Flatten(ledger.reported) + ledger.waiting + ledger.current
  }

  /** The totals and every line, batch and window count exactly their own part of the outcomes. */
  ghost predicate Accounted(ledger: Ledger, report: Report, drained: Line, open: Line) {
    && Sums(report, Flatten(ledger.reported)) && LineByLine(report.lines, ledger.reported)
    && States(drained, ledger.waiting) && Total(drained.errs) == Failures(ledger.waiting)
    && States(open, ledger.current) && Total(open.errs) == Failures(ledger.current)
  }

  const NOTHING := Line(0, map[], map[], [])
  const EMPTY_LEDGER := Ledger([], [], [])

  lemma NothingIsStated()
    ensures States(NOTHING, []) && Total(NOTHING.errs) == Failures([])
  {
  }

  lemma AccountedAtStart()
    ensures Accounted(EMPTY_LEDGER, Report(0, 0, map[], map[], []), NOTHING, NOTHING)
  {
    NothingIsStated();
  }

  function Added(open: Line, outcome: Outcome): Line {
    match outcome
    case Failed(reason) => open.(requests := open.requests + 1, errs := open.errs[reason := Get(open.errs, reason) + 1])
    case Answered(code, latency) =>
      open.(requests := open.requests + 1, status := open.status[code := Get(open.status, code) + 1],
            latencies := open.latencies + [latency])
  }

  lemma StatesAdded(open: Line, outcomes: seq<Outcome>, outcome: Outcome)
    requires States(open, outcomes)
    ensures States(Added(open, outcome), outcomes + [outcome])
  {
    hide StatusCount, ErrorCount, LatenciesOf;
    var more, line := outcomes + [outcome], Added(open, outcome);
    LatenciesSnoc(outcomes, outcome);
    forall code
      ensures Get(line.status, code) == StatusCount(more, code) && (code in line.status <==> StatusCount(more, code) > 0)
    {
      CountsSnoc(outcomes, outcome, code, "");
    }
    forall reason
      ensures Get(line.errs, reason) == ErrorCount(more, reason) && (reason in line.errs <==> ErrorCount(more, reason) > 0)
    {
      CountsSnoc(outcomes, outcome, 0, reason);
    }
  }

  lemma AddedFailures(open: Line, outcome: Outcome)
    ensures Total(Added(open, outcome).errs) == Total(open.errs) + if outcome.Failed? then 1 else 0
  {
    hide SumMap;
    match outcome
    case Failed(reason) =>
      var n: nat := Get(open.errs, reason) + 1;
      SumMapUpdate(open.errs, reason, n, Count);
    case Answered(_, _) =>
  }

  lemma AccountedAfterAdd(ledger: Ledger, outcome: Outcome, report: Report, drained: Line, open: Line)
    requires Accounted(ledger, report, drained, open)
    ensures Accounted(ledger.(current := ledger.current + [outcome]), report, drained, Added(open, outcome))
  {
    hide Total, States, Sums, LineByLine, Failures, Added;
    StatesAdded(open, ledger.current, outcome);
    AddedFailures(open, outcome);
    CountsSnoc(ledger.current, outcome, 0, "");
  }

  lemma AccountedAfterDrain(ledger: Ledger, report: Report, open: Line)
    requires Accounted(ledger, report, NOTHING, open) && ledger.waiting == []
    ensures Accounted(ledger.(waiting := ledger.current, current := []), report, open, NOTHING)
  {
    hide Total, States, Sums, LineByLine, Failures;
    NothingIsStated();
  }

  lemma SumsMerged(report: Report, report': Report, drained: Line, reported: seq<Outcome>, waiting: seq<Outcome>)
    requires Sums(report, reported) && States(drained, waiting) && Total(drained.errs) == Failures(waiting)
    requires report'.total == report.total + drained.requests && report'.totalErr as int == report.totalErr + Total(drained.errs)
    requires forall code :: Get(report'.status, code) == Get(report.status, code) + Get(drained.status, code)
    requires forall reason :: Get(report'.errs, reason) == Get(report.errs, reason) + Get(drained.errs, reason)
    ensures Sums(report', reported + waiting)
  {
    hide StatusCount, ErrorCount, Failures, Total, Get, LatenciesOf;
    CountsAppend(reported, waiting, 0, "");
    forall code ensures Get(report'.status, code) == StatusCount(reported + waiting, code) {
      CountsAppend(reported, waiting, code, "");
    }
    forall reason ensures Get(report'.errs, reason) == ErrorCount(reported + waiting, reason) {
      CountsAppend(reported, waiting, 0, reason);
    }
  }

  lemma AccountedAfterMerge(ledger: Ledger, report: Report, report': Report, drained: Line, open: Line)
    requires Accounted(ledger, report, drained, open)
    requires report'.total == report.total + drained.requests && report'.totalErr as int == report.totalErr + Total(drained.errs)
    requires forall code :: Get(report'.status, code) == Get(report.status, code) + Get(drained.status, code)
    requires forall reason :: Get(report'.errs, reason) == Get(report.errs, reason) + Get(drained.errs, reason)
    requires report'.lines == report.lines + [drained]
    ensures Accounted(ledger.(reported := ledger.reported + [ledger.waiting], waiting := []), report', NOTHING, open)
  {
    hide States, Sums, Failures, Total, Get;
    NothingIsStated();
    var segments := ledger.reported + [ledger.waiting];
    assert segments[..|segments| - 1] == ledger.reported;
    SumsMerged(report, report', drained, Flatten(ledger.reported), ledger.waiting);
    assert forall i :: 0 <= i < |report.lines| ==> report'.lines[i] == report.lines[i] && segments[i] == ledger.reported[i];
  }

  /** A drained batch still holds what it held when it was drained. */
  ghost predicate Untouched(batch: Batch, snapshot: Line)
    reads batch.status, batch.errs
  {
    batch.requests == snapshot.requests && batch.status.counts == snapshot.status && batch.errs.counts == snapshot.errs
    && batch.latencies == snapshot.latencies
  }

  /** The reporter's side: the window it drains and the running totals. */
  class Reporter {
    const window: Window
    var pending: Option<Batch>
    var report: Report
    /** Every batch ever drained, with what it held then, and where the outcomes added so far are. */
    ghost var drained: seq<(Batch, Line)>
    ghost var ledger: Ledger

    ghost predicate Apart()
      reads this, window
    {
      forall i :: 0 <= i < |drained| ==> drained[i].0.status != window.status && drained[i].0.errs != window.errs
    }

    ghost function Open(): Line
      reads this, window, window.status, window.errs
    {
      Line(window.requests, window.status.counts, window.errs.counts, window.latencies)
    }

    ghost function Waiting(): Line
      reads this
    {
      if pending.Some? && drained != [] then drained[|drained| - 1].1 else NOTHING
    }

    ghost predicate Valid()
      reads this, window, window.status, window.errs
      reads set i | 0 <= i < |drained| :: drained[i].0.status
      reads set i | 0 <= i < |drained| :: drained[i].0.errs
    {
      && window.Valid() && Apart()
      && (forall i :: 0 <= i < |drained| ==> Untouched(drained[i].0, drained[i].1))
      && (pending.Some? ==> drained != [] && pending.value == drained[|drained| - 1].0)
      && (pending.None? ==> ledger.waiting == [])
      && Accounted(ledger, report, Waiting(), Open())
    }

    constructor ()
      ensures Valid() && fresh(window) && fresh(window.status) && fresh(window.errs)
      ensures ledger == EMPTY_LEDGER && drained == [] && pending.None?
    {
      hide Accounted, Balanced;
      window := new Window();
      pending, report, drained, ledger := None, Report(0, 0, map[], map[], []), [], EMPTY_LEDGER;
      new;
      AccountedAtStart();
    }

    /** A worker's outcome lands in the open window and in no batch drained before. */
    method Request(outcome: Outcome)
      requires Valid()
      modifies this`ledger, window`requests, window`latencies, window.status, window.errs
      ensures Valid() && ledger == old(ledger).(current := old(ledger).current + [outcome])
    {
      hide Accounted, Balanced, Get;
      AccountedAfterAdd(ledger, outcome, report, Waiting(), Open());
      ghost var before := Open();
      window.Add(outcome);
      assert Open() == Added(before, outcome);
      ledger := ledger.(current := ledger.current + [outcome]);
      assert forall i :: 0 <= i < |drained| ==> Untouched(drained[i].0, drained[i].1);
    }

    /** The drained batch waits with exactly what the window held, and the window is empty. */
    method Drain()
      requires Valid() && pending.None?
      modifies this`pending, this`drained, this`ledger, window
      ensures Valid() && pending.Some? && Waiting() == old(Open()) && Open() == NOTHING
      ensures ledger == old(ledger).(waiting := old(ledger).current, current := [])
      ensures old(drained) <= drained && fresh(window.status) && fresh(window.errs)
    {
      hide Accounted, Balanced;
      ghost var snapshot := Open();
      AccountedAfterDrain(ledger, report, snapshot);
      var batch := window.Drain();
      pending := Some(batch);
      drained := drained + [(batch, snapshot)];
      ledger := ledger.(waiting := ledger.current, current := []);
      assert Waiting() == snapshot && Open() == NOTHING;
    }

    /** The rest of `flush`: the drained maps are added to the totals and reported in a line of
        their own. */
    method Merge()
      requires Valid() && pending.Some?
      modifies this`pending, this`report, this`ledger
      ensures Valid() && pending.None? && report.lines == old(report.lines) + [old(Waiting())] && Open() == old(Open())
      ensures ledger == old(ledger).(reported := old(ledger).reported + [old(ledger).waiting], waiting := [])
    {
      hide Accounted, Balanced, Get, Total;
      var batch := pending.value;
      var status := MergeInto(report.status, batch.status.counts);
      var errs := MergeInto(report.errs, batch.errs.counts);
      var failed := SumCounts(batch.errs.counts);
      var line := Line(batch.requests, batch.status.counts, batch.errs.counts, batch.latencies);
      ghost var before := report;
      assert Untouched(drained[|drained| - 1].0, drained[|drained| - 1].1);
      assert line == Waiting();
      report := Report(report.total + batch.requests, report.totalErr + failed, status, errs, report.lines + [line]);
      AccountedAfterMerge(ledger, before, report, line, Open());
      ledger := ledger.(reported := ledger.reported + [ledger.waiting], waiting := []);
      pending := None;
    }
  }

  /** The totals state the run's outcomes exactly, and the outcomes split into consecutive parts,
      one per line, so that each line states exactly its part. */
  ghost predicate Complete(outcomes: seq<Outcome>, report: Report) {
    Sums(report, outcomes) && exists segments :: Flatten(segments) == outcomes && LineByLine(report.lines, segments)
  }

  lemma AllAfterRequest(ledger: Ledger, outcome: Outcome)
    ensures All(ledger.(current := ledger.current + [outcome])) == All(ledger) + [outcome]
  {
  }

  lemma AllAfterDrain(ledger: Ledger)
    requires ledger.waiting == []
    ensures All(ledger.(waiting := ledger.current, current := [])) == All(ledger)
  {
  }

  lemma AllAfterMerge(ledger: Ledger)
    ensures All(ledger.(reported := ledger.reported + [ledger.waiting], waiting := [])) == All(ledger)
  {
    var segments := ledger.reported + [ledger.waiting];
    assert segments[..|segments| - 1] == ledger.reported;
  }

  /** A whole run: any interleaving of requests, drains and merges, then the final flush once the
      workers are done. Every request is reported exactly once and nothing stays in the window. */
  method RunLoad(ops: seq<Op>) returns (report: Report, left: nat)
    ensures Complete(Outcomes(ops), report) && left == 0
  {
    hide Accounted, Balanced, All, LineByLine, Sums;
    var reporter := new Reporter();
    StartsEmpty(ops);
    for i := 0 to |ops|
      invariant reporter.Valid() && All(reporter.ledger) == Outcomes(ops[..i])
      invariant fresh(reporter) && fresh(reporter.window) && fresh(reporter.window.status) && fresh(reporter.window.errs)
    {
      OutcomesSnoc(ops, i);
      match ops[i]
      case Request(outcome) =>
        AllAfterRequest(reporter.ledger, outcome);
        reporter.Request(outcome);
      case DrainOp =>
        if reporter.pending.None? {
          AllAfterDrain(reporter.ledger);
          reporter.Drain();
        }
      case MergeOp =>
        if reporter.pending.Some? {
          AllAfterMerge(reporter.ledger);
          reporter.Merge();
        }
    }
    assert ops[..|ops|] == ops;
    if reporter.pending.Some? {
      AllAfterMerge(reporter.ledger);
      reporter.Merge();
    }
    AllAfterDrain(reporter.ledger);
    reporter.Drain();
    AllAfterMerge(reporter.ledger);
    reporter.Merge();
    EndsComplete(reporter.ledger, reporter.report, reporter.Waiting(), reporter.Open());
    report, left := reporter.report, reporter.window.requests;
  }

  lemma StartsEmpty(ops: seq<Op>)
    ensures All(EMPTY_LEDGER) == Outcomes(ops[..0])
  {
  }

  lemma EndsComplete(ledger: Ledger, report: Report, drained: Line, open: Line)
    requires Accounted(ledger, report, drained, open) && ledger.waiting == ledger.current == []
    ensures Complete(All(ledger), report)
  {
    hide Sums, LineByLine;
    assert All(ledger) == Flatten(ledger.reported);
  }
}
