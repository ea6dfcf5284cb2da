/** The latency statistics of the gRPC load workers: shared counters, and a minimum and a maximum
    kept by load and compare-and-swap. Every atomic operation is one step; a schedule says
    which worker moves next and, when it starts a request, the latency it measured. */
module LatencyExtremes {
  import opened Tally

  datatype Register = Min | Max

  /** The loop of a register goes on while `us` would improve on the value it loaded. */
  predicate Improves(k: Register, us: int, current: int) {
    match k
    case Min => current == -1 || us < current
    case Max => us > current
  }

  function InitialValue(k: Register): int {
    match k case Min => -1 case Max => 0
  }

  /** What a worker does next; `seen` counts the moves of the register when it was loaded. */
  datatype Phase =
    | Idle
    | AddSum(us: nat)
    | Load(k: Register, us: nat)
    | Swap(k: Register, us: nat, current: int, seen: nat)

  /** A shared word, with the history of its compare-and-swaps: successful moves, and per worker
      the swaps that succeeded and failed. */
  datatype Cell = Cell(value: int, moves: nat, wins: seq<nat>, fails: seq<nat>)

  datatype State = State(requests: nat, sum: int, min: Cell, max: Cell, workers: seq<Phase>, recorded: seq<nat>)

  function CellOf(s: State, k: Register): Cell {
    match k case Min => s.min case Max => s.max
  }

  function WithCell(s: State, k: Register, c: Cell): State {
    match k case Min => s.(min := c) case Max => s.(max := c)
  }

  function AfterLoop(k: Register, us: nat): Phase {
    match k case Min => Load(Max, us) case Max => Idle
  }

  function Start(workers: nat): State {
    var none := seq(workers, _ => 0);
    State(0, 0, Cell(-1, 0, none, none), Cell(0, 0, none, none), seq(workers, _ => Idle), [])
  }

  ghost predicate WellSized(s: State) {
    && |s.min.wins| == |s.min.fails| == |s.workers|
    && |s.max.wins| == |s.max.fails| == |s.workers|
  }

  /** One atomic operation of worker `w`. */
  function Step(s: State, w: nat, us: nat): (s': State)
    requires WellSized(s) && w < |s.workers|
    ensures WellSized(s') && |s'.workers| == |s.workers|
  {
    match s.workers[w]
    case Idle =>
      s.(requests := s.requests + 1, recorded := s.recorded + [us], workers := s.workers[w := AddSum(us)])
    case AddSum(mine) =>
      s.(sum := s.sum + mine, workers := s.workers[w := Load(Min, mine)])
    case Load(k, mine) =>
      var c := CellOf(s, k);
      if Improves(k, mine, c.value)
      then s.(workers := s.workers[w := Swap(k, mine, c.value, c.moves)])
      else s.(workers := s.workers[w := AfterLoop(k, mine)])
    case Swap(k, mine, current, _) =>
      var c := CellOf(s, k);
      if c.value == current
      then WithCell(s, k, Cell(mine, c.moves + 1, c.wins[w := c.wins[w] + 1], c.fails))
             .(workers := s.workers[w := AfterLoop(k, mine)])
      else WithCell(s, k, c.(fails := c.fails[w := c.fails[w] + 1])).(workers := s.workers[w := Load(k, mine)])
  }

  datatype Turn = Turn(worker: nat, us: nat)

  ghost predicate Schedule(workers: nat, turns: seq<Turn>) {
    forall i :: 0 <= i < |turns| ==> turns[i].worker < workers
  }

  /** The state after any interleaving of the workers' operations. */
  function Run(workers: nat, turns: seq<Turn>): (s: State)
    requires Schedule(workers, turns)
    ensures WellSized(s) && |s.workers| == workers
  {
    if turns == [] then Start(workers) else
    var last := turns[|turns| - 1];
    Step(Run(workers, turns[..|turns| - 1]), last.worker, last.us)
  }

  // ----- the invariant of one register -----

  /** A request whose latency has not been through register `k` yet. */
  predicate Pending(k: Register, phase: Phase) {
    match phase
    case Idle => false
    case AddSum(_) => true
    case Load(k', _) => k' == k || k == Max
    case Swap(k', _, _, _) => k' == k || k == Max
  }

  predicate Offers(k: Register, phase: Phase, us: nat) {
    !phase.Idle? && Pending(k, phase) && phase.us == us
  }

  /** A recorded latency does not beat the value, unless its worker still has to offer it. */
  ghost predicate Settled(k: Register, us: nat, value: int, workers: seq<Phase>) {
    !Improves(k, us, value) || exists w :: 0 <= w < |workers| && Offers(k, workers[w], us)
  }

  /** A pending swap either still faces the value it loaded, or the value has strictly improved. */
  ghost predicate SwapOK(c: Cell, k: Register, phase: Phase) {
    phase.Swap? && phase.k == k ==>
      && Improves(k, phase.us, phase.current)
      && phase.seen <= c.moves
      && if phase.seen == c.moves then phase.current == c.value else Improves(k, c.value, phase.current)
  }

  /** A worker's swaps never outnumber the moves that happened, nor those it knew of while swapping. */
  ghost predicate RetriesOK(c: Cell, k: Register, w: nat, phase: Phase)
    requires w < |c.wins| && w < |c.fails|
  {
    && c.wins[w] + c.fails[w] <= c.moves
    && (phase.Swap? && phase.k == k ==> c.wins[w] + c.fails[w] <= phase.seen)
  }

  ghost predicate ValueOK(k: Register, c: Cell, recorded: seq<nat>) {
    && (c.value == InitialValue(k) || (c.value >= 0 && c.value in recorded))
    && (c.moves > 0 ==> c.value >= 0)
  }

  ghost predicate Keeps(s: State, k: Register)
    requires WellSized(s)
  {
    var c := CellOf(s, k);
    && ValueOK(k, c, s.recorded)
    && (forall i :: 0 <= i < |s.recorded| ==> Settled(k, s.recorded[i], c.value, s.workers))
    && (forall w :: 0 <= w < |s.workers| ==> SwapOK(c, k, s.workers[w]))
    && (forall w :: 0 <= w < |s.workers| ==> RetriesOK(c, k, w, s.workers[w]))
    && c.moves == SumBy(c.wins, Count)
  }

  ghost predicate AllKnown(s: State) {
    forall w :: 0 <= w < |s.workers| ==> s.workers[w].Idle? || s.workers[w].us in s.recorded
  }

  /** A latency that did not beat the value does not beat one that did. */
  lemma NoComeback(k: Register, winner: nat, value: int, other: nat)
    requires value == InitialValue(k) || value >= 0
    requires Improves(k, winner, value) && !Improves(k, other, value)
    ensures !Improves(k, other, winner)
  {
  }

  lemma StartKeeps(workers: nat, k: Register)
    ensures Keeps(Start(workers), k)
  {
    var c := CellOf(Start(workers), k);
    SumByZero(c.wins, Count);
  }

  /** Steps that leave register `k` alone keep its invariant. */
  lemma OtherStepKeeps(s: State, s': State, k: Register, w: nat)
    requires WellSized(s) && WellSized(s') && w < |s.workers| == |s'.workers|
    requires Keeps(s, k) && CellOf(s', k) == CellOf(s, k)
    requires s'.workers == s.workers[w := s'.workers[w]]
    requires !(s'.workers[w].Swap? && s'.workers[w].k == k)
    requires forall us :: Offers(k, s.workers[w], us) ==> Offers(k, s'.workers[w], us)
    requires s'.recorded == s.recorded || exists us :: s'.recorded == s.recorded + [us] && Offers(k, s'.workers[w], us)
    ensures Keeps(s', k)
  {
    hide Improves, SumBy, Offers;
    var c := CellOf(s, k);
    forall w' | 0 <= w' < |s'.workers| ensures SwapOK(c, k, s'.workers[w']) && RetriesOK(c, k, w', s'.workers[w']) {
      assert SwapOK(c, k, s.workers[w']) && RetriesOK(c, k, w', s.workers[w']);
    }
    forall i | 0 <= i < |s'.recorded| ensures Settled(k, s'.recorded[i], c.value, s'.workers) {
      if i < |s.recorded| {
        SettledUpdate(k, s.recorded[i], c.value, s.workers, w, s'.workers[w]);
      } else {
        assert Offers(k, s'.workers[w], s'.recorded[i]);
      }
    }
  }

  lemma SettledUpdate(k: Register, us: nat, value: int, workers: seq<Phase>, w: nat, phase: Phase)
    requires w < |workers| && Settled(k, us, value, workers)
    requires Offers(k, workers[w], us) ==> Offers(k, phase, us)
    ensures Settled(k, us, value, workers[w := phase])
  {
    hide Improves, Offers;
    if Improves(k, us, value) {
      var w' :| 0 <= w' < |workers| && Offers(k, workers[w'], us);
      assert Offers(k, workers[w := phase][w'], us);
    }
  }

  /** Loading a value worth improving. */
  lemma LoadKeeps(s: State, k: Register, w: nat)
    requires WellSized(s) && Keeps(s, k) && w < |s.workers|
    requires s.workers[w].Load? && s.workers[w].k == k && Improves(k, s.workers[w].us, CellOf(s, k).value)
    ensures Keeps(Step(s, w, 0), k)
  {
    hide SumBy, Improves;
    var c, s' := CellOf(s, k), Step(s, w, 0);
    forall i | 0 <= i < |s'.recorded| ensures Settled(k, s'.recorded[i], c.value, s'.workers) {
      SettledUpdate(k, s.recorded[i], c.value, s.workers, w, s'.workers[w]);
    }
    forall w' | 0 <= w' < |s'.workers| ensures SwapOK(c, k, s'.workers[w']) && RetriesOK(c, k, w', s'.workers[w']) {
      assert SwapOK(c, k, s.workers[w']) && RetriesOK(c, k, w', s.workers[w']);
    }
  }

  /** Leaving the loop because the value is good enough. */
  lemma BreakKeeps(s: State, k: Register, w: nat)
    requires WellSized(s) && Keeps(s, k) && w < |s.workers|
    requires s.workers[w].Load? && s.workers[w].k == k && !Improves(k, s.workers[w].us, CellOf(s, k).value)
    ensures Keeps(Step(s, w, 0), k)
  {
    hide SumBy, Improves;
    var c, s' := CellOf(s, k), Step(s, w, 0);
    forall i | 0 <= i < |s'.recorded| ensures Settled(k, s'.recorded[i], c.value, s'.workers) {
      if s.recorded[i] != s.workers[w].us {
        SettledUpdate(k, s.recorded[i], c.value, s.workers, w, s'.workers[w]);
      }
    }
    forall w' | 0 <= w' < |s'.workers| ensures SwapOK(c, k, s'.workers[w']) && RetriesOK(c, k, w', s'.workers[w']) {
      assert SwapOK(c, k, s.workers[w']) && RetriesOK(c, k, w', s.workers[w']);
    }
  }

  /** A swap fails only when the value has moved since it was loaded. */
  lemma FailKeeps(s: State, k: Register, w: nat)
    requires WellSized(s) && Keeps(s, k) && w < |s.workers|
    requires s.workers[w].Swap? && s.workers[w].k == k && CellOf(s, k).value != s.workers[w].current
    ensures Keeps(Step(s, w, 0), k)
  {
    hide SumBy, Improves;
    var c, s' := CellOf(s, k), Step(s, w, 0);
    var c' := CellOf(s', k);
    assert SwapOK(c, k, s.workers[w]) && RetriesOK(c, k, w, s.workers[w]);
    forall i | 0 <= i < |s'.recorded| ensures Settled(k, s'.recorded[i], c.value, s'.workers) {
      SettledUpdate(k, s.recorded[i], c.value, s.workers, w, s'.workers[w]);
    }
    forall w' | 0 <= w' < |s'.workers| ensures SwapOK(c', k, s'.workers[w']) && RetriesOK(c', k, w', s'.workers[w']) {
      assert SwapOK(c, k, s.workers[w']) && RetriesOK(c, k, w', s.workers[w']);
    }
  }

  /** A swap that succeeds found the value unmoved, and improves it. */
  lemma WinKeeps(s: State, k: Register, w: nat)
    requires WellSized(s) && Keeps(s, k) && AllKnown(s) && w < |s.workers|
    requires s.workers[w].Swap? && s.workers[w].k == k && CellOf(s, k).value == s.workers[w].current
    ensures Keeps(Step(s, w, 0), k)
  {
    hide SumBy;
    var c, s', us := CellOf(s, k), Step(s, w, 0), s.workers[w].us;
    var c' := CellOf(s', k);
    assert SwapOK(c, k, s.workers[w]) && RetriesOK(c, k, w, s.workers[w]);
    assert us in s.recorded;
    SumByUpdate(c.wins, w, c.wins[w] + 1, Count);
    forall i | 0 <= i < |s'.recorded| ensures Settled(k, s'.recorded[i], us, s'.workers) {
      WinSettles(k, s.recorded[i], c.value, s.workers, w, s'.workers[w]);
    }
    forall w' | 0 <= w' < |s'.workers| ensures SwapOK(c', k, s'.workers[w']) && RetriesOK(c', k, w', s'.workers[w']) {
      WinLeavesSwapsOK(s, k, w, w');
    }
  }

  lemma WinSettles(k: Register, other: nat, value: int, workers: seq<Phase>, w: nat, phase: Phase)
    requires w < |workers| && Settled(k, other, value, workers) && workers[w].Swap?
    requires Improves(k, workers[w].us, value) && (value == InitialValue(k) || value >= 0)
    ensures Settled(k, other, workers[w].us, workers[w := phase])
  {
    var us := workers[w].us;
    if other != us {
      if Improves(k, other, value) {
        SettledUpdate(k, other, value, workers, w, phase);
        var w' :| 0 <= w' < |workers| && Offers(k, workers[w := phase][w'], other);
      } else {
        NoComeback(k, us, value, other);
      }
    }
  }

  lemma WinLeavesSwapsOK(s: State, k: Register, w: nat, w': nat)
    requires WellSized(s) && Keeps(s, k) && w < |s.workers| && w' < |s.workers|
    requires s.workers[w].Swap? && s.workers[w].k == k && CellOf(s, k).value == s.workers[w].current
    ensures var s' := Step(s, w, 0);
            SwapOK(CellOf(s', k), k, s'.workers[w']) && RetriesOK(CellOf(s', k), k, w', s'.workers[w'])
  {
    hide SumBy, Settled;
    var c, us := CellOf(s, k), s.workers[w].us;
    assert SwapOK(c, k, s.workers[w]) && RetriesOK(c, k, w, s.workers[w]);
    assert SwapOK(c, k, s.workers[w']) && RetriesOK(c, k, w', s.workers[w']);
  }

  // ----- every step of every interleaving -----

  /** Work still to come through a register, and the counters that need no register. */
  function PendingCount(k: Register): Phase -> int {
    (phase: Phase) => if Pending(k, phase) then 1 else 0
  }

  function Unsummed(phase: Phase): int {
    match phase case AddSum(us) => us case _ => 0
  }

  ghost predicate Totals(s: State) {
    && s.requests == |s.recorded|
    && s.sum + SumBy(s.workers, Unsummed) == SumBy(s.recorded, Count)
  }

  ghost predicate Bounded(s: State, k: Register) {
    CellOf(s, k).moves + SumBy(s.workers, PendingCount(k)) <= |s.recorded|
  }

  ghost predicate Invariant(s: State) {
    && WellSized(s) && AllKnown(s) && Totals(s)
    && Keeps(s, Min) && Keeps(s, Max) && Bounded(s, Min) && Bounded(s, Max)
  }

  lemma StepKeepsRegister(s: State, w: nat, us: nat, k: Register)
    requires WellSized(s) && AllKnown(s) && w < |s.workers| && Keeps(s, k)
    ensures Keeps(Step(s, w, us), k)
  {
    hide Keeps, Improves;
    var phase, s' := s.workers[w], Step(s, w, us);
    if (phase.Load? || phase.Swap?) && phase.k == k {
      assert s' == Step(s, w, 0);
      if phase.Load? {
        if Improves(k, phase.us, CellOf(s, k).value) {
          LoadKeeps(s, k, w);
        } else {
          BreakKeeps(s, k, w);
        }
      } else if CellOf(s, k).value == phase.current {
        WinKeeps(s, k, w);
      } else {
        FailKeeps(s, k, w);
      }
    } else {
      if phase.Idle? {
        assert s'.recorded == s.recorded + [us] && Offers(k, s'.workers[w], us);
      }
      OtherStepKeeps(s, s', k, w);
    }
  }

  lemma StepKeepsTotals(s: State, w: nat, us: nat)
    requires WellSized(s) && w < |s.workers| && Totals(s) && AllKnown(s)
    ensures Totals(Step(s, w, us)) && AllKnown(Step(s, w, us))
  {
    hide SumBy, Improves;
    SumByUpdate(s.workers, w, Step(s, w, us).workers[w], Unsummed);
    SumBySnoc(s.recorded, us, Count);
  }

  lemma StepKeepsBound(s: State, w: nat, us: nat, k: Register)
    requires WellSized(s) && w < |s.workers| && Bounded(s, k)
    ensures Bounded(Step(s, w, us), k)
  {
    hide SumBy, Improves;
    SumByUpdate(s.workers, w, Step(s, w, us).workers[w], PendingCount(k));
  }

  /** In every interleaving of any number of workers the invariant holds. */
  lemma {:induction false} EveryRunKeepsTheInvariant(workers: nat, turns: seq<Turn>)
    requires Schedule(workers, turns)
    ensures Invariant(Run(workers, turns))
  {
    hide Step, Keeps, Totals, Bounded, AllKnown, SumBy;
    if turns == [] {
      StartKeeps(workers, Min);
      StartKeeps(workers, Max);
      StartIsEmpty(workers);
    } else {
      var n := |turns| - 1;
      var last := turns[n];
      EveryRunKeepsTheInvariant(workers, turns[..n]);
      var s := Run(workers, turns[..n]);
      StepKeepsRegister(s, last.worker, last.us, Min);
      StepKeepsRegister(s, last.worker, last.us, Max);
      StepKeepsTotals(s, last.worker, last.us);
      StepKeepsBound(s, last.worker, last.us, Min);
      StepKeepsBound(s, last.worker, last.us, Max);
    }
  }

  lemma StartIsEmpty(workers: nat)
    ensures AllKnown(Start(workers)) && Totals(Start(workers))
    ensures Bounded(Start(workers), Min) && Bounded(Start(workers), Max)
  {
    SumByZero(Start(workers).workers, Unsummed);
    SumByZero(Start(workers).workers, PendingCount(Min));
    SumByZero(Start(workers).workers, PendingCount(Max));
  }

  ghost predicate Quiescent(s: State) {
    forall w :: 0 <= w < |s.workers| ==> s.workers[w].Idle?
  }

  /** Once no update is in progress the registers hold the true extremes of all recorded
      latencies, -1 and 0 if there are none, and the counters their number and sum. */
  lemma QuiescentRegistersAreExact(workers: nat, turns: seq<Turn>)
    requires Schedule(workers, turns) && Quiescent(Run(workers, turns))
    ensures var s := Run(workers, turns);
            && s.requests == |s.recorded| && s.sum == SumBy(s.recorded, Count)
            && (s.recorded == [] ==> s.min.value == -1 && s.max.value == 0)
            && (s.recorded != [] ==> s.min.value in s.recorded && s.max.value in s.recorded)
            && forall i :: 0 <= i < |s.recorded| ==> s.min.value <= s.recorded[i] <= s.max.value
  {
    hide Run, SumBy;
    EveryRunKeepsTheInvariant(workers, turns);
    var s := Run(workers, turns);
    SumByZero(s.workers, Unsummed);
    forall i | 0 <= i < |s.recorded| ensures !Improves(Min, s.recorded[i], s.min.value) && !Improves(Max, s.recorded[i], s.max.value) {
      assert Settled(Min, s.recorded[i], s.min.value, s.workers) && Settled(Max, s.recorded[i], s.max.value, s.workers);
    }
    if s.recorded != [] {
      assert !Improves(Min, s.recorded[0], s.min.value) && !Improves(Max, s.recorded[0], s.max.value);
      assert s.recorded[0] in s.recorded;
    }
  }

  /** A failing swap means another worker strictly improved the value since the load; so over a
      whole run a worker's retries never exceed the other workers' successful swaps, and those of
      all workers together never exceed the number of requests. */
  lemma RetriesArePaidForByOthers(workers: nat, turns: seq<Turn>, k: Register, w: nat)
    requires Schedule(workers, turns) && w < workers
    ensures var s := Run(workers, turns);
            var c := CellOf(s, k);
            && (s.workers[w].Swap? && s.workers[w].k == k && c.value != s.workers[w].current ==>
                  s.workers[w].seen < c.moves && Improves(k, c.value, s.workers[w].current))
            && c.fails[w] <= SumBy(c.wins, Count) - c.wins[w]
            && SumBy(c.wins, Count) <= |s.recorded|
  {
    hide Run, SumBy, Improves;
    EveryRunKeepsTheInvariant(workers, turns);
    var s := Run(workers, turns);
    var c := CellOf(s, k);
    assert SwapOK(c, k, s.workers[w]) && RetriesOK(c, k, w, s.workers[w]);
    SumByBounds(s.workers, PendingCount(k));
  }

  /** The request is still on its way through the counters. */
  ghost predicate InFlight(s: State, us: nat) {
    exists w :: 0 <= w < |s.workers| && !s.workers[w].Idle? && s.workers[w].us == us
  }

  /** At any moment, also while updates are in progress: a register holds a recorded latency or its
      initial value, only latencies still in flight beat it, and the sum lacks only requests that
      have just been counted. */
  lemma ReadingEarlyMissesOnlyRequestsInFlight(workers: nat, turns: seq<Turn>, k: Register)
    requires Schedule(workers, turns)
    ensures var s := Run(workers, turns);
            var value := CellOf(s, k).value;
            && (value == InitialValue(k) || value in s.recorded)
            && (forall i :: 0 <= i < |s.recorded| && Improves(k, s.recorded[i], value) ==> InFlight(s, s.recorded[i]))
            && s.requests == |s.recorded| && s.sum + SumBy(s.workers, Unsummed) == SumBy(s.recorded, Count)
  {
    hide Run, SumBy, Improves;
    EveryRunKeepsTheInvariant(workers, turns);
    var s := Run(workers, turns);
    var value := CellOf(s, k).value;
    forall i | 0 <= i < |s.recorded| && Improves(k, s.recorded[i], value) ensures InFlight(s, s.recorded[i]) {
      assert Settled(k, s.recorded[i], value, s.workers);
    }
  }
}
