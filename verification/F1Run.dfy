/** The accounting of an F1 load run: request workers and held event streams over shared atomic
    counters. Every atomic operation or critical section is one step; a sequence of moves is
    one interleaving, with the server's replies and the end of the run as part of the moves. */
module F1Run {
  import opened RequestMix
  import opened Tally

  datatype Options = Options(workers: nat, heldConns: nat, excludedPct: int, readyFile: bool)

  // ----- request workers -----

  /** What came back from one request: a transport error, or a response whose body may have
      failed, with the phase read before and after and the oracle's verdict on it. */
  datatype Reply =
    | TransportError(phaseStart: string, phaseEnd: string)
    | Response(phaseStart: string, phaseEnd: string, bodyFailed: bool, oracle: bool)

  datatype Worker =
    | Checking
    | Drawing
    | Drawn(seqNo: nat)
    | Sending(class': Class)
    | CountError(allowed: bool)
    | CountTransport
    | CountViolation
    | CountBodyError(ok: bool, phase: string, class': Class)
    | CountResponse(ok: bool, phase: string, class': Class)
    | JudgeResponse(ok: bool, phase: string, class': Class)
    | RecordStats(ok: bool, phase: string, class': Class)
    | Finished(abandoned: bool)

  /** A dashboard request may be cut off while its publication is being withdrawn. */
  predicate AbortAllowed(class': Class, phaseStart: string, phaseEnd: string) {
    class' == DashAuth &&
    (|| phaseStart == "transitioning" || phaseEnd == "transitioning"
     || (phaseStart == "healthy" && phaseEnd == "withdrawn")
     || phaseStart == "outage" || phaseEnd == "outage")
  }

  // ----- held streams -----

  datatype Admission = ConnectError | Refused | Admitted

  datatype Stream =
    | Connecting
    | Opening
    | Activating
    | Streaming
    | Closing
    | Ended(admitted: bool)

  // ----- shared state -----

  datatype PhaseStat = PhaseStat(count: nat, violations: nat)

  /** What the request workers share. The last three fields count requests that failed, those among
      them that may not, and responses whose body failed and may not. */
  datatype Work = Work(
    seqCounter: nat, hits: map<Class, nat>, total: nat, transportErrors: nat,
    byClass: map<Class, nat>, byPhase: map<string, PhaseStat>, workers: seq<Worker>,
    requestErrors: nat, disallowedErrors: nat, bodyErrors: nat)

  /** What the held streams share. `failures` counts logged events. */
  datatype Held = Held(opens: nat, active: int, closed: nat, readyWrites: nat, streams: seq<Stream>, failures: nat)

  datatype State = State(cancelled: bool, violations: nat, work: Work, held: Held)

  const CLASSES: map<Class, nat> := map[PortalHTML := 0, PortalAsset := 0, DashAuth := 0, DashExcluded := 0]
  const PHASES := map["healthy" := PhaseStat(0, 0), "withdrawn" := PhaseStat(0, 0), "outage" := PhaseStat(0, 0),
                      "transitioning" := PhaseStat(0, 0)]

  function StartWork(workers: nat): Work {
    Work(0, CLASSES, 0, 0, CLASSES, PHASES, seq(workers, _ => Checking), 0, 0, 0)
  }

  function StartHeld(streams: nat): Held {
    Held(0, 0, 0, 0, seq(streams, _ => Connecting), 0)
  }

  function Bump(counts: map<Class, nat>, class': Class): map<Class, nat> {
    counts[class' := (if class' in counts then counts[class'] else 0) + 1]
  }

  function BumpPhase(phases: map<string, PhaseStat>, phase: string, ok: bool): map<string, PhaseStat> {
    var before := if phase in phases then phases[phase] else PhaseStat(0, 0);
    phases[phase := PhaseStat(before.count + 1, if ok then before.violations else before.violations + 1)]
  }

  /** Where a worker goes with what came back; an error after the end of the run is dropped. */
  function Received(cancelled: bool, class': Class, reply: Reply): (worker: Worker)
    ensures worker.CountError? || worker.CountBodyError? || worker.CountResponse? || worker == Finished(true)
  {
    match reply
    case TransportError(phaseStart, phaseEnd) =>
      if cancelled then Finished(true) else CountError(AbortAllowed(class', phaseStart, phaseEnd))
    case Response(phaseStart, phaseEnd, bodyFailed, oracle) =>
      var allowed := bodyFailed && AbortAllowed(class', phaseStart, phaseEnd);
      var ok := allowed || (!bodyFailed && oracle);
      if bodyFailed && !allowed then CountBodyError(ok, phaseEnd, class') else CountResponse(ok, phaseEnd, class')
  }

  /** A worker's next phase. */
  function NextWorker(worker: Worker, seqCounter: nat, cancelled: bool, pct: int, reply: Reply): Worker {
    match worker
    case Checking => if cancelled then Finished(false) else Drawing
    case Drawing => Drawn(seqCounter + 1)
    case Drawn(seqNo) => Sending(ClassOf(seqNo, pct))
    case Sending(class') => Received(cancelled, class', reply)
    case CountError(allowed) => if allowed then Checking else CountTransport
    case CountTransport => CountViolation
    case CountViolation => Checking
    case CountBodyError(ok, phase, class') => CountResponse(ok, phase, class')
    case CountResponse(ok, phase, class') => if ok then RecordStats(ok, phase, class') else JudgeResponse(ok, phase, class')
    case JudgeResponse(ok, phase, class') => RecordStats(ok, phase, class')
    case RecordStats(_, _, _) => Checking
    case Finished(_) => worker
  }

  /** The counters its current operation updates. */
  function Counted(work: Work, worker: Worker, pct: int): Work {
    match worker
    case Drawing => work.(seqCounter := work.seqCounter + 1)
    case Drawn(seqNo) => work.(hits := Bump(work.hits, ClassOf(seqNo, pct)))
    case CountError(allowed) =>
      work.(total := work.total + 1, requestErrors := work.requestErrors + 1,
            disallowedErrors := if allowed then work.disallowedErrors else work.disallowedErrors + 1)
    case CountTransport => work.(transportErrors := work.transportErrors + 1)
    case CountBodyError(_, _, _) => work.(transportErrors := work.transportErrors + 1, bodyErrors := work.bodyErrors + 1)
    case CountResponse(_, _, _) => work.(total := work.total + 1)
    case RecordStats(ok, phase, class') =>
      work.(byClass := Bump(work.byClass, class'), byPhase := BumpPhase(work.byPhase, phase, ok))
    case _ => work
  }

  function WorkerStep(work: Work, cancelled: bool, pct: int, w: nat, reply: Reply): Work
    requires w < |work.workers|
  {
    Counted(work, work.workers[w], pct)
      .(workers := work.workers[w := NextWorker(work.workers[w], work.seqCounter, cancelled, pct, reply)])
  }

  /** The operations that add to the shared violation counter. */
  function WorkerRaises(worker: Worker): nat {
    if worker.CountViolation? || worker.JudgeResponse? then 1 else 0
  }

  function StreamStep(held: Held, cancelled: bool, opts: Options, i: nat, admission: Admission): Held
    requires i < |held.streams|
  {
    match held.streams[i]
    case Connecting =>
      if admission.Admitted? then held.(streams := held.streams[i := Opening])
      else held.(streams := held.streams[i := Ended(false)], failures := held.failures + StreamRaises(Connecting, cancelled, admission))
    case Opening => held.(streams := held.streams[i := Activating], opens := held.opens + 1)
    case Activating =>
      held.(streams := held.streams[i := Streaming], active := held.active + 1,
            readyWrites := if opts.readyFile && held.active + 1 == opts.heldConns then held.readyWrites + 1 else held.readyWrites)
    case Streaming => held.(streams := held.streams[i := Closing], active := held.active - 1)
    case Closing => held.(streams := held.streams[i := Ended(true)], closed := held.closed + 1)
    case Ended(_) => held
  }

  function StreamRaises(stream: Stream, cancelled: bool, admission: Admission): nat {
    if stream.Connecting? && (admission.Refused? || (admission.ConnectError? && !cancelled)) then 1 else 0
  }

  datatype Move = Cancel | WorkerMove(w: nat, reply: Reply) | StreamMove(i: nat, admission: Admission)

  function Step(s: State, opts: Options, move: Move): State {
    match move
    case Cancel => s.(cancelled := true)
    case WorkerMove(w, reply) =>
      if w < |s.work.workers|
      then s.(work := WorkerStep(s.work, s.cancelled, opts.excludedPct, w, reply),
              violations := s.violations + WorkerRaises(s.work.workers[w]))
      else s
    case StreamMove(i, admission) =>
      if i < |s.held.streams|
      then s.(held := StreamStep(s.held, s.cancelled, opts, i, admission),
              violations := s.violations + StreamRaises(s.held.streams[i], s.cancelled, admission))
      else s
  }

  /** The state after any interleaving of moves. */
  function Run(opts: Options, moves: seq<Move>): State {
    if moves == [] then State(false, 0, StartWork(opts.workers), StartHeld(opts.heldConns))
    else Step(Run(opts, moves[..|moves| - 1]), opts, moves[|moves| - 1])
  }

  ghost predicate Joined(s: State) {
    && (forall w :: 0 <= w < |s.work.workers| ==> s.work.workers[w].Finished?)
    && (forall i :: 0 <= i < |s.held.streams| ==> s.held.streams[i].Ended?)
  }

  // ----- what every move keeps, for the workers -----

  function CountOf(stat: PhaseStat): int { stat.count }
  function ViolationsOf(stat: PhaseStat): int { stat.violations }

  /** A sequence number drawn but not yet counted in its class. */
  function Uncounted(worker: Worker): int {
    if worker.Drawn? then 1 else 0
  }

  function UncountedIn(pct: int, class': Class): Worker -> int {
    (worker: Worker) => if worker.Drawn? && ClassOf(worker.seqNo, pct) == class' then 1 else 0
  }

  /** A request counted in its class but not yet in the total; for good if it was abandoned. */
  function InFlight(worker: Worker): int {
    match worker
    case Sending(_) => 1
    case CountError(_) => 1
    case CountBodyError(_, _, _) => 1
    case CountResponse(_, _, _) => 1
    case Finished(abandoned) => if abandoned then 1 else 0
    case _ => 0
  }

  /** A response in the total but not yet in the statistics. */
  function Unrecorded(worker: Worker): int {
    match worker
    case JudgeResponse(_, _, _) => 1
    case RecordStats(_, _, _) => 1
    case _ => 0
  }

  /** Violations owed by an error already counted, less those paid ahead of the statistics. */
  function Owed(worker: Worker): int {
    match worker
    case CountTransport => 1
    case CountViolation => 1
    case RecordStats(ok, _, _) => if ok then 0 else -1
    case _ => 0
  }

  /** A disallowed error not yet among the transport errors. */
  function Untransported(worker: Worker): int {
    if worker.CountTransport? then 1 else 0
  }

  /** Only a failed oracle goes through the extra violation step. */
  predicate Consistent(worker: Worker) {
    worker.JudgeResponse? ==> !worker.ok
  }

  /** `raised` is what the workers added to the violation counter. */
  ghost predicate WorkAddsUp(work: Work, raised: int) {
    && SumMap(work.hits, Count) + SumBy(work.workers, Uncounted) == work.seqCounter
    && work.total + SumBy(work.workers, InFlight) == SumMap(work.hits, Count)
    && work.total == work.requestErrors + SumMap(work.byClass, Count) + SumBy(work.workers, Unrecorded)
    && SumMap(work.byClass, Count) == SumMap(work.byPhase, CountOf)
    && raised + SumBy(work.workers, Owed) == SumMap(work.byPhase, ViolationsOf) + work.disallowedErrors
    && work.transportErrors + SumBy(work.workers, Untransported) == work.disallowedErrors + work.bodyErrors
    && (forall w :: 0 <= w < |work.workers| ==> Consistent(work.workers[w]))
  }

  /** What one step does to the counters, in the weights of the worker that takes it. */
  lemma CountedSums(work: Work, worker: Worker, pct: int)
    ensures var work' := Counted(work, worker, pct);
            && work'.workers == work.workers
            && work'.seqCounter == work.seqCounter + (if worker.Drawing? then 1 else 0)
            && SumMap(work'.hits, Count) == SumMap(work.hits, Count) + (if worker.Drawn? then 1 else 0)
            && work'.total == work.total + (if worker.CountError? || worker.CountResponse? then 1 else 0)
            && work'.requestErrors == work.requestErrors + (if worker.CountError? then 1 else 0)
            && work'.disallowedErrors == work.disallowedErrors + (if worker.CountError? && !worker.allowed then 1 else 0)
            && work'.transportErrors == work.transportErrors + (if worker.CountTransport? || worker.CountBodyError? then 1 else 0)
            && work'.bodyErrors == work.bodyErrors + (if worker.CountBodyError? then 1 else 0)
            && SumMap(work'.byClass, Count) == SumMap(work.byClass, Count) + (if worker.RecordStats? then 1 else 0)
            && SumMap(work'.byPhase, CountOf) == SumMap(work.byPhase, CountOf) + (if worker.RecordStats? then 1 else 0)
            && SumMap(work'.byPhase, ViolationsOf) == SumMap(work.byPhase, ViolationsOf) + (if worker.RecordStats? && !worker.ok then 1 else 0)
  {
    hide SumMap, Bump, BumpPhase, ClassOf;
    match worker
    case Drawn(seqNo) => BumpAddsOne(work.hits, ClassOf(seqNo, pct));
    case RecordStats(ok, phase, class') =>
      BumpAddsOne(work.byClass, class');
      BumpPhaseAddsOne(work.byPhase, phase, ok);
    case _ =>
  }

  lemma BumpAddsOne(counts: map<Class, nat>, class': Class)
    ensures SumMap(Bump(counts, class'), Count) == SumMap(counts, Count) + 1
  {
    SumMapUpdate(counts, class', (if class' in counts then counts[class'] else 0) + 1, Count);
  }

  lemma BumpPhaseAddsOne(phases: map<string, PhaseStat>, phase: string, ok: bool)
    ensures SumMap(BumpPhase(phases, phase, ok), CountOf) == SumMap(phases, CountOf) + 1
    ensures SumMap(BumpPhase(phases, phase, ok), ViolationsOf) == SumMap(phases, ViolationsOf) + if ok then 0 else 1
  {
    var before := if phase in phases then phases[phase] else PhaseStat(0, 0);
    var after := PhaseStat(before.count + 1, if ok then before.violations else before.violations + 1);
    SumMapUpdate(phases, phase, after, CountOf);
    SumMapUpdate(phases, phase, after, ViolationsOf);
  }

  /** The weights a worker carries from its current phase to the next balance its counter updates. */
  lemma WeightsBalance(worker: Worker, seqCounter: nat, cancelled: bool, pct: int, reply: Reply)
    requires Consistent(worker)
    ensures var next := NextWorker(worker, seqCounter, cancelled, pct, reply);
            && Consistent(next)
            && Uncounted(next) - Uncounted(worker) == (if worker.Drawing? then 1 else 0) - (if worker.Drawn? then 1 else 0)
            && InFlight(next) - InFlight(worker) ==
               (if worker.Drawn? then 1 else 0) - (if worker.CountError? || worker.CountResponse? then 1 else 0)
            && Unrecorded(next) - Unrecorded(worker) == (if worker.CountResponse? then 1 else 0) - (if worker.RecordStats? then 1 else 0)
            && Owed(next) - Owed(worker) == (if worker.CountError? && !worker.allowed then 1 else 0)
               + (if worker.RecordStats? && !worker.ok then 1 else 0) - WorkerRaises(worker)
            && Untransported(next) - Untransported(worker) ==
               (if worker.CountError? && !worker.allowed then 1 else 0) - (if worker.CountTransport? then 1 else 0)
  {
    hide Received, ClassOf;
  }

  lemma WorkerStepKeeps(work: Work, raised: int, cancelled: bool, pct: int, w: nat, reply: Reply)
    requires w < |work.workers| && WorkAddsUp(work, raised)
    ensures WorkAddsUp(WorkerStep(work, cancelled, pct, w, reply), raised + WorkerRaises(work.workers[w]))
  {
    hide SumBy, SumMap, Counted, NextWorker, Uncounted, InFlight, Unrecorded, Owed, Untransported, WorkerRaises, Consistent;
    var worker := work.workers[w];
    var next := NextWorker(worker, work.seqCounter, cancelled, pct, reply);
    assert Consistent(worker);
    CountedSums(work, worker, pct);
    WeightsBalance(worker, work.seqCounter, cancelled, pct, reply);
    SumByUpdate(work.workers, w, next, Uncounted);
    SumByUpdate(work.workers, w, next, InFlight);
    SumByUpdate(work.workers, w, next, Unrecorded);
    SumByUpdate(work.workers, w, next, Owed);
    SumByUpdate(work.workers, w, next, Untransported);
  }

  /** Each class counter is what the drawn numbers give it, whoever drew them. */
  ghost predicate HitsMatchTheMix(work: Work, pct: int) {
    forall class' :: HitsOf(work, pct, class')
  }

  ghost predicate HitsOf(work: Work, pct: int, class': Class) {
    && class' in work.hits
    && work.hits[class'] + SumBy(work.workers, UncountedIn(pct, class')) == CountClass(1, work.seqCounter, pct, class')
  }

  lemma HitsOfStep(work: Work, cancelled: bool, pct: int, w: nat, reply: Reply, class': Class)
    requires w < |work.workers| && HitsOf(work, pct, class')
    ensures HitsOf(WorkerStep(work, cancelled, pct, w, reply), pct, class')
  {
    hide SumBy, CountClass, ClassOf, UncountedIn, Received, BumpPhase;
    var worker := work.workers[w];
    var next := NextWorker(worker, work.seqCounter, cancelled, pct, reply);
    SumByUpdate(work.workers, w, next, UncountedIn(pct, class'));
    UncountedWeights(pct, class', worker);
    UncountedWeights(pct, class', next);
    CountNext(work.seqCounter, pct, class');
  }

  lemma UncountedWeights(pct: int, class': Class, worker: Worker)
    ensures UncountedIn(pct, class')(worker) == if worker.Drawn? && ClassOf(worker.seqNo, pct) == class' then 1 else 0
  {
  }

  lemma CountNext(n: nat, pct: int, class': Class)
    ensures CountClass(1, n + 1, pct, class') == CountClass(1, n, pct, class') + if ClassOf(n + 1, pct) == class' then 1 else 0
  {
    hide ClassOf;
  }

  // ----- what every move keeps, for the streams -----

  function HasOpened(stream: Stream): int {
    match stream
    case Connecting => 0
    case Opening => 0
    case Ended(admitted) => if admitted then 1 else 0
    case _ => 1
  }

  function IsActive(stream: Stream): int {
    if stream.Streaming? then 1 else 0
  }

  function HasClosed(stream: Stream): int {
    if stream.Ended? && stream.admitted then 1 else 0
  }

  /** Opened and not yet active, or no longer active and not yet closed. */
  function Between(stream: Stream): int {
    if stream.Activating? || stream.Closing? then 1 else 0
  }

  predicate PastActivation(stream: Stream) {
    stream.Streaming? || stream.Closing? || (stream.Ended? && stream.admitted)
  }

  ghost predicate StreamsAddUp(held: Held, opts: Options) {
    && |held.streams| == opts.heldConns
    && held.opens == SumBy(held.streams, HasOpened)
    && held.active == SumBy(held.streams, IsActive)
    && held.closed == SumBy(held.streams, HasClosed)
    && (held.readyWrites == 0 ||
        (held.readyWrites == 1 && forall i :: 0 <= i < |held.streams| ==> PastActivation(held.streams[i])))
  }

  /** Only when every stream is active does the counter reach their number. */
  lemma FullMeansAllActive(streams: seq<Stream>)
    ensures SumBy(streams, IsActive) == |streams| <==> forall i :: 0 <= i < |streams| ==> streams[i].Streaming?
  {
    SumByBounds(streams, IsActive);
  }

  /** At the step that triggers the ready file, every held stream is established. */
  lemma StreamStepKeeps(held: Held, cancelled: bool, opts: Options, i: nat, admission: Admission)
    requires i < |held.streams| && StreamsAddUp(held, opts)
    ensures var held' := StreamStep(held, cancelled, opts, i, admission);
            && StreamsAddUp(held', opts)
            && held'.failures == held.failures + StreamRaises(held.streams[i], cancelled, admission)
            && (held'.readyWrites > held.readyWrites ==>
                  held.readyWrites == 0 && forall j :: 0 <= j < |held'.streams| ==> held'.streams[j].Streaming?)
  {
    hide SumBy;
    var held' := StreamStep(held, cancelled, opts, i, admission);
    assert held'.streams == held.streams[i := held'.streams[i]];
    SumByUpdate(held.streams, i, held'.streams[i], HasOpened);
    SumByUpdate(held.streams, i, held'.streams[i], IsActive);
    SumByUpdate(held.streams, i, held'.streams[i], HasClosed);
    FullMeansAllActive(held'.streams);
  }

  // ----- every run -----

  ghost predicate Invariant(s: State, opts: Options) {
    && |s.work.workers| == opts.workers
    && WorkAddsUp(s.work, s.violations - s.held.failures)
    && HitsMatchTheMix(s.work, opts.excludedPct)
    && StreamsAddUp(s.held, opts)
  }

  lemma StartWorkAddsUp(workers: nat, pct: int)
    ensures WorkAddsUp(StartWork(workers), 0) && HitsMatchTheMix(StartWork(workers), pct)
  {
    hide CountClass, SumMap;
    var work := StartWork(workers);
    SumByZero(work.workers, Uncounted);
    SumByZero(work.workers, InFlight);
    SumByZero(work.workers, Unrecorded);
    SumByZero(work.workers, Owed);
    SumByZero(work.workers, Untransported);
    ZeroMap(CLASSES, Count);
    ZeroMap(PHASES, CountOf);
    ZeroMap(PHASES, ViolationsOf);
    forall class' ensures HitsOf(work, pct, class') {
      SumByZero(work.workers, UncountedIn(pct, class'));
      Nothing(1, pct, class');
      EveryClassStartsAtZero(class');
    }
  }

  lemma EveryClassStartsAtZero(class': Class)
    ensures class' in CLASSES && CLASSES[class'] == 0
  {
    match class' {
      case PortalHTML =>
      case PortalAsset =>
      case DashAuth =>
      case DashExcluded =>
    }
  }

  lemma StartHeldAddsUp(opts: Options)
    ensures StreamsAddUp(StartHeld(opts.heldConns), opts)
  {
    var held := StartHeld(opts.heldConns);
    SumByZero(held.streams, HasOpened);
    SumByZero(held.streams, IsActive);
    SumByZero(held.streams, HasClosed);
  }

  lemma {:induction false} ZeroMap<K, V>(m: map<K, V>, f: V -> int)
    requires forall k :: k in m ==> f(m[k]) == 0
    ensures SumMap(m, f) == 0
    decreases |m.Keys|
  {
    if m.Keys != {} {
      var k :| k in m.Keys;
      SumMapRemove(m, k, f);
      ZeroMap(m - {k}, f);
    }
  }

  lemma StepHolds(s: State, opts: Options, move: Move)
    requires Invariant(s, opts)
    ensures Invariant(Step(s, opts, move), opts)
  {
    hide Counted, NextWorker, StreamStep, WorkAddsUp, HitsOf, StreamsAddUp;
    match move
    case Cancel =>
    case WorkerMove(w, reply) =>
      if w < |s.work.workers| {
        CountedSums(s.work, s.work.workers[w], opts.excludedPct);
        WorkerStepKeeps(s.work, s.violations - s.held.failures, s.cancelled, opts.excludedPct, w, reply);
        forall class' ensures HitsOf(Step(s, opts, move).work, opts.excludedPct, class') {
          HitsOfStep(s.work, s.cancelled, opts.excludedPct, w, reply, class');
        }
      }
    case StreamMove(i, admission) =>
      if i < |s.held.streams| {
        StreamStepKeeps(s.held, s.cancelled, opts, i, admission);
      }
  }

  lemma {:induction false} EveryRunKeepsTheInvariant(opts: Options, moves: seq<Move>)
    ensures Invariant(Run(opts, moves), opts)
  {
    hide Step, WorkAddsUp, HitsMatchTheMix, StreamsAddUp;
    if moves == [] {
      StartWorkAddsUp(opts.workers, opts.excludedPct);
      StartHeldAddsUp(opts);
    } else {
      var n := |moves| - 1;
      EveryRunKeepsTheInvariant(opts, moves[..n]);
      StepHolds(Run(opts, moves[..n]), opts, moves[n]);
    }
  }

  /** At join: the class counters sum to the numbers drawn and exceed the total by at most one
      abandoned request per worker; the class and phase statistics agree with each other and
      with the total less the request errors; every violation and every transport error is
      accounted for once. */
  lemma JoinedRunAddsUp(opts: Options, moves: seq<Move>)
    requires Joined(Run(opts, moves))
    ensures var s := Run(opts, moves);
            && SumMap(s.work.hits, Count) == s.work.seqCounter
            && s.work.total <= s.work.seqCounter <= s.work.total + opts.workers
            && SumMap(s.work.byClass, Count) == SumMap(s.work.byPhase, CountOf) == s.work.total - s.work.requestErrors
            && s.violations == SumMap(s.work.byPhase, ViolationsOf) + s.work.disallowedErrors + s.held.failures
            && s.work.transportErrors == s.work.disallowedErrors + s.work.bodyErrors
            && s.held.active == 0 && s.held.opens == s.held.closed
  {
    hide Run, SumBy, SumMap, HitsMatchTheMix;
    EveryRunKeepsTheInvariant(opts, moves);
    var work, streams := Run(opts, moves).work, Run(opts, moves).held.streams;
    SumByZero(work.workers, Uncounted);
    SumByZero(work.workers, Unrecorded);
    SumByZero(work.workers, Owed);
    SumByZero(work.workers, Untransported);
    SumByBounds(work.workers, InFlight);
    SumByZero(streams, IsActive);
    SumByZero(streams, Between);
    OpenedSplits(streams);
  }

  lemma {:induction false} OpenedSplits(streams: seq<Stream>)
    ensures SumBy(streams, HasOpened) == SumBy(streams, HasClosed) + SumBy(streams, IsActive) + SumBy(streams, Between)
  {
    if streams != [] {
      OpenedSplits(streams[..|streams| - 1]);
    }
  }

  /** At join each class counter is exactly the share of the numbers drawn, whatever the interleaving. */
  lemma JoinedRunHasTheExactMix(opts: Options, moves: seq<Move>, class': Class)
    requires Joined(Run(opts, moves))
    ensures var work := Run(opts, moves).work;
            class' in work.hits && work.hits[class'] == CountClass(1, work.seqCounter, opts.excludedPct, class')
  {
    hide Run, SumBy, CountClass, WorkAddsUp, StreamsAddUp;
    EveryRunKeepsTheInvariant(opts, moves);
    assert HitsOf(Run(opts, moves).work, opts.excludedPct, class');
    SumByZero(Run(opts, moves).work.workers, UncountedIn(opts.excludedPct, class'));
  }

  /** At every moment the active counter is the streams opened and not yet closed, less those
      between their two counter updates; so it is exact precisely when there are none. */
  lemma ActiveStreamsAreThoseOpenedAndNotClosed(opts: Options, moves: seq<Move>)
    ensures var held := Run(opts, moves).held;
            && held.active == held.opens - held.closed - SumBy(held.streams, Between)
            && (held.active == held.opens - held.closed <==>
                  forall i :: 0 <= i < |held.streams| ==> Between(held.streams[i]) == 0)
  {
    hide Run, SumBy, WorkAddsUp, HitsMatchTheMix;
    EveryRunKeepsTheInvariant(opts, moves);
    OpenedSplits(Run(opts, moves).held.streams);
    NoneBetween(Run(opts, moves).held.streams);
  }

  /** Such a moment is reached: one stream, admitted and counted as opened, not yet as active. */
  lemma StreamBetweenIsReached()
    ensures var held := Run(Options(0, 1, 0, false), [StreamMove(0, Admitted), StreamMove(0, Admitted)]).held;
            held.opens == 1 && held.active == 0 && held.closed == 0
  {
    var opts, moves := Options(0, 1, 0, false), [StreamMove(0, Admitted), StreamMove(0, Admitted)];
    assert moves[..1][..0] == [] && moves[..1] == [moves[0]];
    assert Run(opts, []).held.streams == [Connecting];
    assert Run(opts, moves[..1]).held.streams == [Opening];
  }

  lemma {:induction false} NoneBetween(streams: seq<Stream>)
    ensures SumBy(streams, Between) >= 0
    ensures SumBy(streams, Between) == 0 <==> forall i :: 0 <= i < |streams| ==> Between(streams[i]) == 0
  {
    if streams != [] {
      var n := |streams| - 1;
      NoneBetween(streams[..n]);
      assert forall i :: 0 <= i < n ==> streams[..n][i] == streams[i];
    }
  }

  /** The ready file is triggered at most once in a run, and at the step that triggers it every
      held stream is established at the same time. */
  lemma ReadyFileMeansAllStreamsEstablished(opts: Options, moves: seq<Move>, move: Move)
    ensures var held, held' := Run(opts, moves).held, Step(Run(opts, moves), opts, move).held;
            && held'.readyWrites <= 1
            && (held'.readyWrites > held.readyWrites ==>
                  |held'.streams| == opts.heldConns && forall i :: 0 <= i < opts.heldConns ==> held'.streams[i].Streaming?)
  {
    hide Run, SumBy, WorkAddsUp, HitsMatchTheMix, WorkerStep, StreamStep;
    EveryRunKeepsTheInvariant(opts, moves);
    var s := Run(opts, moves);
    if move.StreamMove? && move.i < |s.held.streams| {
      StreamStepKeeps(s.held, s.cancelled, opts, move.i, move.admission);
    }
  }
}
