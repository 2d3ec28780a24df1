/**
 * The parallel sweep `probeSet` as a step machine: one spawner, one goroutine per operator,
 * a counting semaphore, a mutex and a wait group.  Every step touches shared state at most once,
 * so a run of the machine is an interleaving of the goroutines.
 */
module ProbeFanout {
  import opened Common
  import opened Operators

  const FETCH_CONCURRENCY: nat := 32

  /** The three variables that the goroutines update under the mutex. */
  datatype Tally = Tally(chunks: nat, okCount: nat, failed: seq<OperatorInfo>)

  const EMPTY_TALLY := Tally(0, 0, [])

  /** The body of the critical section. */
  function Merge(t: Tally, task: Task): Tally {
    if Contributes(task.answer)
    then Tally(t.chunks + task.answer.chunksReturned, t.okCount + 1, t.failed)
    else t.(failed := t.failed + [task.op])
  }

  /** A sequential sweep: the critical sections one after the other, in list order. */
  function Pass(tasks: seq<Task>): Tally {
    if |tasks| == 0 then EMPTY_TALLY else Merge(Pass(tasks[..|tasks| - 1]), tasks[|tasks| - 1])
  }

  lemma PassTasksSnoc(tasks: seq<Task>, task: Task)
    ensures Pass(tasks + [task]) == Merge(Pass(tasks), task)
  {
    assert (tasks + [task])[..|tasks|] == tasks;
  }

  /**
   * Where a goroutine stands.  `Idle` is not yet launched; `Loaded` has read the shared variables
   * inside the critical section and remembers what it read; `Stored` has written them back.
   */
  datatype Phase =
    | Idle
    | Probing
    | Answered
    | Reported
    | Recorded
    | Locked
    | Loaded(read: Tally)
    | Stored
    | Unlocked
    | Released
    | Done

  function Progress(p: Phase): (n: nat) {
    match p
    case Idle => 0
    case Probing => 1
    case Answered => 2
    case Reported => 3
    case Recorded => 4
    case Locked => 5
    case Loaded(_) => 6
    case Stored => 7
    case Unlocked => 8
    case Released => 9
    case Done => 10
  }

  /**
   * The spawner: at the loop head (or at wg.Wait once every operator is launched), after wg.Add,
   * after sending to the semaphore, and after wg.Wait.
   */
  datatype Spawner = AtLoop | Added | HoldsSlot | Returned

  /**
   * `sem` is the number of tokens in the semaphore channel, `wg` the wait-group counter and
   * `holder` the owner of the mutex.  The last five fields record, in order, what the sweep did
   * to the outside: ReportResult calls, operator_probes inserts, those of them that took effect,
   * critical sections completed and semaphore slots given back.
   */
  datatype State = State(
    spawner: Spawner,
    next: nat,
    phases: seq<Phase>,
    sem: nat,
    wg: nat,
    holder: Option<nat>,
    tally: Tally,
    reported: seq<nat>,
    recorded: seq<nat>,
    written: seq<nat>,
    merged: seq<nat>,
    released: seq<nat>)

  /** `Advance(i, ok)` lets goroutine `i` take its next step; `ok` tells whether an insert succeeds. */
  datatype Action = Add | Acquire | Launch | Return | Advance(i: nat, ok: bool)

  function Init(n: nat): State {
    State(AtLoop, 0, seq(n, i => Idle), 0, 0, None, EMPTY_TALLY, [], [], [], [], [])
  }

  predicate Enabled(tasks: seq<Task>, s: State, a: Action) {
    match a
    case Add => s.spawner == AtLoop && s.next < |tasks|
    case Acquire => s.spawner == Added && s.sem < FETCH_CONCURRENCY
    case Launch => s.spawner == HoldsSlot && s.next < |s.phases|
    case Return => s.spawner == AtLoop && s.next >= |tasks| && s.wg == 0
    case Advance(i, _) =>
      && i < |s.phases| && i < |tasks|
      && 1 <= Progress(s.phases[i]) < 10
      && (s.phases[i] == Recorded ==> s.holder == None)
      && (s.phases[i] == Unlocked ==> s.sem > 0)
      && (s.phases[i] == Released ==> s.wg > 0)
  }

  function Apply(tasks: seq<Task>, s: State, a: Action): State
    requires Enabled(tasks, s, a)
  {
    match a
    case Add => s.(spawner := Added, wg := s.wg + 1)
    case Acquire => s.(spawner := HoldsSlot, sem := s.sem + 1)
    case Launch => s.(spawner := AtLoop, next := s.next + 1, phases := s.phases[s.next := Probing])
    case Return => s.(spawner := Returned)
    case Advance(i, ok) => Goroutine(tasks[i], s, i, ok)
  }

  /** One step of goroutine `i`; the deferred calls give back the slot before signalling wg.Done. */
  function Goroutine(task: Task, s: State, i: nat, ok: bool): State
    requires i < |s.phases|
    requires s.phases[i] == Unlocked ==> s.sem > 0
    requires s.phases[i] == Released ==> s.wg > 0
  {
    match s.phases[i]
    case Probing => s.(phases := s.phases[i := Answered])
    case Answered => s.(phases := s.phases[i := Reported], reported := s.reported + [i])
    case Reported =>
      s.(phases := s.phases[i := Recorded],
          recorded := s.recorded + [i],
          written := if ok then s.written + [i] else s.written)
    case Recorded => s.(phases := s.phases[i := Locked], holder := Some(i))
    case Locked => s.(phases := s.phases[i := Loaded(s.tally)])
    case Loaded(read) => s.(phases := s.phases[i := Stored], tally := Merge(read, task), merged := s.merged + [i])
    case Stored => s.(phases := s.phases[i := Unlocked], holder := None)
    case Unlocked => s.(phases := s.phases[i := Released], sem := s.sem - 1, released := s.released + [i])
    case Released => s.(phases := s.phases[i := Done], wg := s.wg - 1)
    case Idle => s
    case Done => s
  }

  /** `trace` is a run of the machine under the schedule `sched`. */
  ghost predicate Run(tasks: seq<Task>, trace: seq<State>, sched: seq<Action>) {
    && |trace| == |sched| + 1
    && trace[0] == Init(|tasks|)
    && forall k :: 0 <= k < |sched| ==>
         Enabled(tasks, trace[k], sched[k]) && trace[k + 1] == Apply(tasks, trace[k], sched[k])
  }

  // ---------------------------------------------------------------- invariant

  /** The goroutines whose progress lies in the given window. */
  ghost function Between(phases: seq<Phase>, lo: nat, hi: nat): set<nat> {
    set i: nat | i < |phases| && lo <= Progress(phases[i]) <= hi
  }

  /** Operators being queried: launched and still holding a semaphore slot. */
  ghost function InFlight(s: State): set<nat> {
    Between(s.phases, 1, 8)
  }

  /** `log` lists, without repetition, the goroutines that have got at least as far as `stage`. */
  ghost predicate Logged(phases: seq<Phase>, log: seq<nat>, stage: nat) {
    && Distinct(log)
    && forall i: nat :: i in log <==> i < |phases| && Progress(phases[i]) >= stage
  }

  ghost predicate SpawnerInv(tasks: seq<Task>, s: State) {
    && |s.phases| == |tasks|
    && s.next <= |tasks|
    && (s.spawner in {Added, HoldsSlot} ==> s.next < |tasks|)
    && (forall i: nat :: i < |tasks| ==> (s.phases[i] == Idle <==> i >= s.next))
    && (s.spawner == Returned ==> s.next == |tasks| && forall i: nat :: i < |tasks| ==> s.phases[i] == Done)
  }

  ghost predicate CountersInv(s: State) {
    && s.sem == |Between(s.phases, 1, 8)| + (if s.spawner == HoldsSlot then 1 else 0)
    && s.sem <= FETCH_CONCURRENCY
    && s.wg == |Between(s.phases, 1, 9)| + (if s.spawner in {Added, HoldsSlot} then 1 else 0)
  }

  ghost predicate MutexInv(s: State) {
    && (s.holder.Some? ==> s.holder.value < |s.phases|)
    && (forall i: nat :: i < |s.phases| ==> (s.holder == Some(i) <==> 5 <= Progress(s.phases[i]) <= 7))
    && (forall i: nat :: i < |s.phases| && s.phases[i].Loaded? ==> s.phases[i].read == s.tally)
  }

  ghost predicate LogsInv(s: State) {
    && Logged(s.phases, s.reported, 3)
    && Logged(s.phases, s.recorded, 4)
    && Distinct(s.written) && (forall i :: i in s.written ==> i in s.recorded)
    && Logged(s.phases, s.merged, 7)
    && Logged(s.phases, s.released, 9)
  }

  ghost predicate TallyInv(tasks: seq<Task>, s: State) {
    && Within(s.merged, |tasks|)
    && s.tally == Pass(Pick(tasks, s.merged))
  }

  ghost predicate Inv(tasks: seq<Task>, s: State) {
    SpawnerInv(tasks, s) && CountersInv(s) && MutexInv(s) && LogsInv(s) && TallyInv(tasks, s)
  }

  /** Changing one phase changes the size of a window by at most that goroutine. */
  lemma BetweenUpdate(phases: seq<Phase>, i: nat, p: Phase, lo: nat, hi: nat)
    requires i < |phases|
    ensures |Between(phases[i := p], lo, hi)|
         == |Between(phases, lo, hi)|
          - (if lo <= Progress(phases[i]) <= hi then 1 else 0)
          + (if lo <= Progress(p) <= hi then 1 else 0)
  {
    var before, after := Between(phases, lo, hi), Between(phases[i := p], lo, hi);
    assert after - {i} == before - {i};
    hide Between;
    OneLess(before, i);
    OneLess(after, i);
  }

  lemma OneLess(s: set<nat>, i: nat)
    ensures |s| == |s - {i}| + if i in s then 1 else 0
  {
    assert i !in s ==> s - {i} == s;
  }

  lemma InitInv(tasks: seq<Task>)
    ensures Inv(tasks, Init(|tasks|))
  {
    var s := Init(|tasks|);
    assert Between(s.phases, 1, 8) == {} && Between(s.phases, 1, 9) == {};
  }

  /** What a goroutine step does to counters and logs, told by how far the goroutine has got. */
  ghost predicate StepEffects(task: Task, s: State, t: State, i: nat, ok: bool) {
    && i < |s.phases| && |t.phases| == |s.phases| && t.phases == s.phases[i := t.phases[i]]
    && t.spawner == s.spawner && t.next == s.next
    && var now := Progress(t.phases[i]);
    && now == Progress(s.phases[i]) + 1 && 2 <= now
    && t.sem == (if now == 9 then s.sem - 1 else s.sem)
    && t.wg == (if now == 10 then s.wg - 1 else s.wg)
    && t.reported == (if now == 3 then s.reported + [i] else s.reported)
    && t.recorded == (if now == 4 then s.recorded + [i] else s.recorded)
    && t.written == (if now == 4 && ok then s.written + [i] else s.written)
    && t.merged == (if now == 7 then s.merged + [i] else s.merged)
    && t.released == (if now == 9 then s.released + [i] else s.released)
    && t.holder == (if now == 5 then Some(i) else if now == 8 then None else s.holder)
    && t.tally == (if s.phases[i].Loaded? then Merge(s.phases[i].read, task) else s.tally)
    && (now == 6 ==> t.phases[i] == Loaded(s.tally))
    && (now == 5 ==> s.holder == None)
    && (now == 10 ==> t.phases[i] == Done)
  }

  lemma GoroutineEffects(task: Task, s: State, i: nat, ok: bool)
    requires i < |s.phases| && 1 <= Progress(s.phases[i]) < 10
    requires s.phases[i] == Unlocked ==> s.sem > 0
    requires s.phases[i] == Released ==> s.wg > 0
    requires s.phases[i] == Recorded ==> s.holder == None
    ensures StepEffects(task, s, Goroutine(task, s, i, ok), i, ok)
  {
  }

  lemma CountersAdvance(task: Task, s: State, t: State, i: nat, ok: bool)
    requires CountersInv(s) && StepEffects(task, s, t, i, ok)
    ensures CountersInv(t)
  {
    BetweenUpdate(s.phases, i, t.phases[i], 1, 8);
    BetweenUpdate(s.phases, i, t.phases[i], 1, 9);
  }

  lemma CountersStep(tasks: seq<Task>, s: State, a: Action)
    requires Inv(tasks, s) && Enabled(tasks, s, a)
    ensures CountersInv(Apply(tasks, s, a))
  {
    match a
    case Launch =>
      BetweenUpdate(s.phases, s.next, Probing, 1, 8);
      BetweenUpdate(s.phases, s.next, Probing, 1, 9);
    case Advance(i, ok) =>
      GoroutineEffects(tasks[i], s, i, ok);
      CountersAdvance(tasks[i], s, Apply(tasks, s, a), i, ok);
    case _ =>
  }

  lemma SpawnerAdvance(tasks: seq<Task>, s: State, t: State, i: nat, ok: bool)
    requires SpawnerInv(tasks, s) && i < |tasks| && StepEffects(tasks[i], s, t, i, ok)
    ensures SpawnerInv(tasks, t)
  {
  }

  lemma SpawnerStep(tasks: seq<Task>, s: State, a: Action)
    requires Inv(tasks, s) && Enabled(tasks, s, a)
    ensures SpawnerInv(tasks, Apply(tasks, s, a))
  {
    match a
    case Return =>
      forall i: nat | i < |tasks| ensures s.phases[i] == Done {
        assert i !in Between(s.phases, 1, 9);
      }
    case Advance(i, ok) =>
      GoroutineEffects(tasks[i], s, i, ok);
      SpawnerAdvance(tasks, s, Apply(tasks, s, a), i, ok);
    case _ =>
  }

  lemma MutexAdvance(task: Task, s: State, t: State, i: nat, ok: bool)
    requires MutexInv(s) && StepEffects(task, s, t, i, ok)
    ensures MutexInv(t)
  {
    forall j: nat | j < |t.phases|
      ensures t.holder == Some(j) <==> 5 <= Progress(t.phases[j]) <= 7
      ensures t.phases[j].Loaded? ==> t.phases[j].read == t.tally
    {
      assert s.holder == Some(i) <==> 5 <= Progress(s.phases[i]) <= 7;
      assert s.holder == Some(j) <==> 5 <= Progress(s.phases[j]) <= 7;
    }
  }

  lemma MutexStep(tasks: seq<Task>, s: State, a: Action)
    requires Inv(tasks, s) && Enabled(tasks, s, a)
    ensures MutexInv(Apply(tasks, s, a))
  {
    match a
    case Advance(i, ok) =>
      GoroutineEffects(tasks[i], s, i, ok);
      MutexAdvance(tasks[i], s, Apply(tasks, s, a), i, ok);
    case _ =>
  }

  /** A log that takes an entry exactly when its goroutine reaches `stage` stays complete. */
  lemma LogStep(phases: seq<Phase>, log: seq<nat>, log': seq<nat>, stage: nat, i: nat, p: Phase)
    requires Logged(phases, log, stage) && i < |phases|
    requires Progress(p) == Progress(phases[i]) + 1
    requires log' == if Progress(p) == stage then log + [i] else log
    ensures Logged(phases[i := p], log', stage)
  {
    assert Progress(p) == stage ==> i !in log;
  }

  lemma LogsAdvance(task: Task, s: State, t: State, i: nat, ok: bool)
    requires LogsInv(s) && StepEffects(task, s, t, i, ok)
    ensures LogsInv(t)
  {
    LogStep(s.phases, s.reported, t.reported, 3, i, t.phases[i]);
    LogStep(s.phases, s.recorded, t.recorded, 4, i, t.phases[i]);
    LogStep(s.phases, s.merged, t.merged, 7, i, t.phases[i]);
    LogStep(s.phases, s.released, t.released, 9, i, t.phases[i]);
  }

  lemma LogsStep(tasks: seq<Task>, s: State, a: Action)
    requires Inv(tasks, s) && Enabled(tasks, s, a)
    ensures LogsInv(Apply(tasks, s, a))
  {
    match a
    case Launch =>
      LogStep(s.phases, s.reported, s.reported, 3, s.next, Probing);
      LogStep(s.phases, s.recorded, s.recorded, 4, s.next, Probing);
      LogStep(s.phases, s.merged, s.merged, 7, s.next, Probing);
      LogStep(s.phases, s.released, s.released, 9, s.next, Probing);
    case Advance(i, ok) =>
      GoroutineEffects(tasks[i], s, i, ok);
      LogsAdvance(tasks[i], s, Apply(tasks, s, a), i, ok);
    case _ =>
  }

  lemma PassSnoc(tasks: seq<Task>, order: seq<nat>, i: nat)
    requires Within(order, |tasks|) && i < |tasks|
    ensures Within(order + [i], |tasks|)
    ensures Pass(Pick(tasks, order + [i])) == Merge(Pass(Pick(tasks, order)), tasks[i])
  {
    PickAppend(tasks, order, i);
    PassTasksSnoc(Pick(tasks, order), tasks[i]);
  }

  lemma LoadedIsCurrent(s: State, i: nat)
    requires MutexInv(s) && i < |s.phases|
    ensures Progress(s.phases[i]) == 6 ==> s.phases[i].Loaded? && s.phases[i].read == s.tally
  {
  }

  lemma TallyAdvance(tasks: seq<Task>, s: State, t: State, i: nat, ok: bool)
    requires TallyInv(tasks, s) && MutexInv(s) && i < |tasks| && StepEffects(tasks[i], s, t, i, ok)
    ensures TallyInv(tasks, t)
  {
    hide Pass, Pick, Merge, Within;
    LoadedIsCurrent(s, i);
    hide MutexInv;
    PassSnoc(tasks, s.merged, i);
  }

  lemma TallyStep(tasks: seq<Task>, s: State, a: Action)
    requires Inv(tasks, s) && Enabled(tasks, s, a)
    ensures TallyInv(tasks, Apply(tasks, s, a))
  {
    match a
    case Advance(i, ok) =>
      GoroutineEffects(tasks[i], s, i, ok);
      TallyAdvance(tasks, s, Apply(tasks, s, a), i, ok);
    case _ =>
  }

  lemma StepInv(tasks: seq<Task>, s: State, a: Action)
    requires Inv(tasks, s) && Enabled(tasks, s, a)
    ensures Inv(tasks, Apply(tasks, s, a))
  {
    SpawnerStep(tasks, s, a);
    CountersStep(tasks, s, a);
    MutexStep(tasks, s, a);
    LogsStep(tasks, s, a);
    TallyStep(tasks, s, a);
  }

  // ---------------------------------------------------------------- progress and length of runs

  /** Steps a goroutine still takes once it is launched. */
  function StepsLeft(p: Phase): nat {
    if Progress(p) == 0 then 9 else 10 - Progress(p)
  }

  function AllStepsLeft(phases: seq<Phase>): nat {
    if |phases| == 0 then 0
    else AllStepsLeft(phases[..|phases| - 1]) + StepsLeft(phases[|phases| - 1])
  }

  /** How many steps the whole sweep still takes, whatever the schedule. */
  function Remaining(tasks: seq<Task>, s: State): int {
    AllStepsLeft(s.phases) + 3 * (|tasks| - s.next)
    + (match s.spawner case AtLoop => 1 case Added => 0 case HoldsSlot => -1 case Returned => 0)
  }

  lemma {:induction false} StepsLeftUpdate(phases: seq<Phase>, i: nat, p: Phase)
    requires i < |phases|
    ensures AllStepsLeft(phases[i := p]) == AllStepsLeft(phases) - StepsLeft(phases[i]) + StepsLeft(p)
  {
    var n := |phases| - 1;
    var changed := phases[i := p];
    if i < n {
      StepsLeftUpdate(phases[..n], i, p);
      assert changed[..n] == phases[..n][i := p];
    } else {
      assert changed[..n] == phases[..n];
    }
  }

  lemma {:induction false} StepsLeftInit(n: nat)
    ensures AllStepsLeft(seq(n, i => Idle)) == 9 * n
  {
    if n > 0 {
      StepsLeftInit(n - 1);
      assert seq(n, i => Idle)[..n - 1] == seq(n - 1, i => Idle);
    }
  }

  /** Every step uses up exactly one of the remaining steps. */
  lemma StepUsesOne(tasks: seq<Task>, s: State, a: Action)
    requires Inv(tasks, s) && Enabled(tasks, s, a)
    ensures Remaining(tasks, Apply(tasks, s, a)) == Remaining(tasks, s) - 1
  {
    hide AllStepsLeft, CountersInv, MutexInv, LogsInv, TallyInv;
    match a
    case Launch => StepsLeftUpdate(s.phases, s.next, Probing);
    case Advance(i, ok) =>
      GoroutineEffects(tasks[i], s, i, ok);
      hide Goroutine;
      StepsLeftUpdate(s.phases, i, Goroutine(tasks[i], s, i, ok).phases[i]);
    case _ =>
  }

  lemma RemainingBounds(tasks: seq<Task>, s: State)
    requires Inv(tasks, s)
    ensures Remaining(tasks, s) >= 0
    ensures s.spawner != Returned ==> Remaining(tasks, s) > 0
    ensures s.spawner == Returned ==> Remaining(tasks, s) == 0
  {
    if s.spawner == Returned { NothingLeft(s.phases); }
  }

  lemma {:induction false} NothingLeft(phases: seq<Phase>)
    requires forall i: nat :: i < |phases| ==> phases[i] == Done
    ensures AllStepsLeft(phases) == 0
  {
    if |phases| > 0 { NothingLeft(phases[..|phases| - 1]); }
  }

  /** No deadlock: until wg.Wait has returned, some goroutine or the spawner can move. */
  lemma SomeStepEnabled(tasks: seq<Task>, s: State) returns (a: Action)
    requires Inv(tasks, s)
    requires s.spawner != Returned
    ensures Enabled(tasks, s, a)
  {
    var active := Between(s.phases, 1, 9);
    if active == {} {
      assert Between(s.phases, 1, 8) <= active;
      a := match s.spawner
        case Added => Acquire
        case HoldsSlot => Launch
        case _ => if s.next < |tasks| then Add else Return;
    } else if s.holder.Some? {
      a := Advance(s.holder.value, true);
    } else {
      var i :| i in active;
      if s.phases[i] == Unlocked { assert i in Between(s.phases, 1, 8); }
      a := Advance(i, true);
    }
  }

  // ---------------------------------------------------------------- theorems about whole runs

  lemma {:induction false} RunInv(tasks: seq<Task>, trace: seq<State>, sched: seq<Action>, k: nat)
    requires Run(tasks, trace, sched)
    requires k <= |sched|
    ensures Inv(tasks, trace[k])
    ensures Remaining(tasks, trace[k]) == 12 * |tasks| + 1 - k
  {
    if k == 0 {
      InitInv(tasks);
      StepsLeftInit(|tasks|);
    } else {
      RunInv(tasks, trace, sched, k - 1);
      StepInv(tasks, trace[k - 1], sched[k - 1]);
      StepUsesOne(tasks, trace[k - 1], sched[k - 1]);
    }
  }

  /**
   * Every run is finite, and the runs that get to the end of wg.Wait are exactly those of
   * 12 |tasks| + 1 steps; any shorter run can be continued.
   */
  lemma RunsTerminate(tasks: seq<Task>, trace: seq<State>, sched: seq<Action>)
    requires Run(tasks, trace, sched)
    ensures |sched| <= 12 * |tasks| + 1
    ensures trace[|sched|].spawner == Returned <==> |sched| == 12 * |tasks| + 1
    ensures trace[|sched|].spawner != Returned ==> exists a :: Enabled(tasks, trace[|sched|], a)
  {
    RunInv(tasks, trace, sched, |sched|);
    RemainingBounds(tasks, trace[|sched|]);
    if trace[|sched|].spawner != Returned {
      var a := SomeStepEnabled(tasks, trace[|sched|]);
    }
  }

  /** Semaphore slots taken in the first `k` steps. */
  function SlotsTaken(sched: seq<Action>, k: nat): nat
    requires k <= |sched|
  {
    if k == 0 then 0 else SlotsTaken(sched, k - 1) + if sched[k - 1] == Acquire then 1 else 0
  }

  lemma SlotStep(tasks: seq<Task>, s: State, a: Action)
    requires Enabled(tasks, s, a)
    ensures var t := Apply(tasks, s, a);
      t.sem + |t.released| == s.sem + |s.released| + (if a == Acquire then 1 else 0)
  {
  }

  lemma {:induction false} SlotBalance(tasks: seq<Task>, trace: seq<State>, sched: seq<Action>, k: nat)
    requires Run(tasks, trace, sched)
    requires k <= |sched|
    ensures SlotsTaken(sched, k) == trace[k].sem + |trace[k].released|
  {
    if k > 0 {
      SlotBalance(tasks, trace, sched, k - 1);
      SlotStep(tasks, trace[k - 1], sched[k - 1]);
    }
  }

  /** Goroutines between mu.Lock and mu.Unlock. */
  ghost predicate InCriticalSection(s: State, i: nat) {
    i < |s.phases| && 5 <= Progress(s.phases[i]) <= 7
  }

  /**
   * At every moment at most 32 operators are in flight, at most one goroutine is inside the
   * critical section, nobody gives a slot back twice, and taken = given back + in use; and the spawner
   * has to wait for a slot exactly while 32 are in flight.
   */
  lemma SlotSafety(tasks: seq<Task>, trace: seq<State>, sched: seq<Action>, k: nat)
    requires Run(tasks, trace, sched)
    requires k <= |sched|
    ensures |InFlight(trace[k])| <= 32
    ensures trace[k].spawner == Added ==> (Enabled(tasks, trace[k], Acquire) <==> |InFlight(trace[k])| < 32)
    ensures forall i: nat, j: nat :: InCriticalSection(trace[k], i) && InCriticalSection(trace[k], j) ==> i == j
    ensures SlotsTaken(sched, k) == trace[k].sem + |trace[k].released|
    ensures Distinct(trace[k].released)
  {
    RunInv(tasks, trace, sched, k);
    SlotBalance(tasks, trace, sched, k);
    var s := trace[k];
    forall i: nat, j: nat | InCriticalSection(s, i) && InCriticalSection(s, j) ensures i == j {
      assert s.holder == Some(i) && s.holder == Some(j);
    }
  }

  /** Chunks brought by one answer: what a silent operator brings does not count. */
  function Gain(r: ChunkProbeResult): nat {
    if Contributes(r) then r.chunksReturned else 0
  }

  function TotalGain(tasks: seq<Task>): nat {
    if |tasks| == 0 then 0 else Gain(tasks[0].answer) + TotalGain(tasks[1..])
  }

  ghost function Contributors(tasks: seq<Task>): set<nat> {
    set i: nat | i < |tasks| && Contributes(tasks[i].answer)
  }

  /** The retry candidates in list order. */
  function Silent(tasks: seq<Task>): seq<OperatorInfo> {
    if |tasks| == 0 then []
    else (if Contributes(tasks[0].answer) then [] else [tasks[0].op]) + Silent(tasks[1..])
  }

  lemma {:induction false} GainSnoc(tasks: seq<Task>)
    requires |tasks| > 0
    ensures var n := |tasks| - 1;
      && TotalGain(tasks) == TotalGain(tasks[..n]) + Gain(tasks[n].answer)
      && Silent(tasks) == Silent(tasks[..n]) + (if Contributes(tasks[n].answer) then [] else [tasks[n].op])
  {
    var n := |tasks| - 1;
    if n > 0 {
      GainSnoc(tasks[1..]);
      assert tasks[1..][..n - 1] == tasks[..n][1..];
    }
  }

  /** What a sequential sweep computes. */
  lemma {:induction false} PassMeaning(tasks: seq<Task>)
    ensures Pass(tasks).chunks == TotalGain(tasks)
    ensures Pass(tasks).okCount == |Contributors(tasks)|
    ensures Pass(tasks).failed == Silent(tasks)
    ensures Pass(tasks).okCount + |Pass(tasks).failed| == |tasks|
  {
    if |tasks| == 0 {
      assert Contributors(tasks) == {};
    } else {
      hide Pass, TotalGain, Silent, Contributors;
      var front, last := tasks[..|tasks| - 1], tasks[|tasks| - 1];
      assert tasks == front + [last];
      PassMeaning(front);
      PassTasksSnoc(front, last);
      GainSnoc(tasks);
      ContributorsSnoc(front, last);
    }
  }

  lemma ContributorsSnoc(tasks: seq<Task>, task: Task)
    ensures |Contributors(tasks + [task])| == |Contributors(tasks)| + if Contributes(task.answer) then 1 else 0
  {
    var before, after := Contributors(tasks), Contributors(tasks + [task]);
    assert after == if Contributes(task.answer) then before + {|tasks|} else before;
  }

  /** The same tally up to the order of the retry candidates. */
  ghost predicate SameTally(t: Tally, u: Tally) {
    t.chunks == u.chunks && t.okCount == u.okCount && multiset(t.failed) == multiset(u.failed)
  }

  lemma {:induction false} PassRemoveAt(tasks: seq<Task>, j: nat)
    requires j < |tasks|
    ensures SameTally(Pass(tasks), Merge(Pass(Without(tasks, j)), tasks[j]))
    decreases |tasks|
  {
    hide Pass;
    var n := |tasks| - 1;
    var front, last := tasks[..n], tasks[n];
    assert tasks == front + [last];
    PassTasksSnoc(front, last);
    if j == n {
      assert Without(tasks, j) == front;
    } else {
      PassRemoveAt(front, j);
      assert Without(tasks, j) == Without(front, j) + [last];
      PassTasksSnoc(Without(front, j), last);
      MergesCommute(Pass(front), Pass(Without(front, j)), front[j], last);
    }
  }

  lemma MergesCommute(t: Tally, u: Tally, first: Task, second: Task)
    requires SameTally(t, Merge(u, first))
    ensures SameTally(Merge(t, second), Merge(Merge(u, second), first))
  {
  }

  lemma MergeSame(t: Tally, u: Tally, task: Task)
    requires SameTally(t, u)
    ensures SameTally(Merge(t, task), Merge(u, task))
  {
  }

  /** Sweeping the same operators in another order changes nothing but the order of the failures. */
  lemma {:induction false} PassPermutation(a: seq<Task>, b: seq<Task>)
    requires multiset(a) == multiset(b)
    ensures SameTally(Pass(a), Pass(b))
    decreases |a|
  {
    hide Pass, Without, Merge;
    if a == [] {
      EmptyBag(a, b);
    } else {
      var j := StrikeHead(a, b);
      PassPermutation(Without(a, 0), Without(b, j));
      MergeSame(Pass(Without(a, 0)), Pass(Without(b, j)), a[0]);
      PassRemoveAt(a, 0);
      PassRemoveAt(b, j);
    }
  }

  /**
   * The state in which wg.Wait returns: every operator was reported, recorded, merged and gave its
   * slot back exactly once, and the tally is that of a sequential sweep.
   */
  ghost predicate Completed(tasks: seq<Task>, s: State) {
    && Visits(s.reported, |tasks|)
    && Visits(s.recorded, |tasks|)
    && Distinct(s.written) && Within(s.written, |tasks|)
    && Visits(s.merged, |tasks|)
    && Visits(s.released, |tasks|)
    && SameTally(s.tally, Pass(tasks))
  }

  lemma ReturnedCompletes(tasks: seq<Task>, s: State)
    requires Inv(tasks, s) && s.spawner == Returned
    ensures Completed(tasks, s)
    ensures s.sem == 0 && s.wg == 0
  {
    VisitsIsPermutation(tasks, s.merged);
    PassPermutation(Pick(tasks, s.merged), tasks);
    assert forall k :: 0 <= k < |s.written| ==> s.written[k] in s.written;
    assert Between(s.phases, 1, 8) == {} && Between(s.phases, 1, 9) == {};
  }

  /** Every interleaving of the goroutines ends with the tally of the sequential sweep. */
  lemma SweepIsSchedulingIndependent(tasks: seq<Task>, trace: seq<State>, sched: seq<Action>)
    requires Run(tasks, trace, sched)
    requires trace[|sched|].spawner == Returned
    ensures Completed(tasks, trace[|sched|])
    ensures trace[|sched|].tally.chunks == TotalGain(tasks)
    ensures trace[|sched|].tally.okCount == |Contributors(tasks)|
    ensures multiset(trace[|sched|].tally.failed) == multiset(Silent(tasks))
    ensures trace[|sched|].tally.okCount + |trace[|sched|].tally.failed| == |tasks|
    ensures SlotsTaken(sched, |sched|) == |tasks|
  {
    var s := trace[|sched|];
    RunInv(tasks, trace, sched, |sched|);
    ReturnedCompletes(tasks, s);
    PassMeaning(tasks);
    assert |multiset(s.tally.failed)| == |s.tally.failed|;
    assert |multiset(Silent(tasks))| == |Silent(tasks)|;
    SlotSafety(tasks, trace, sched, |sched|);
    VisitsIsPermutation(tasks, s.released);
  }
}
