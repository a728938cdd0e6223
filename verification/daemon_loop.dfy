/** The resident daemon's accept loop and its connection tasks, one atomic action at a time.
    A `Notify` is one stored permit: `notify_one` stores it, an awaited `notified()` takes it. */
module DaemonLoop {

  /** A spawned connection task. */
  datatype Task =
    | Serving    // inside handle_conn
    | Flagged    // stored the shutdown flag, about to notify the loop
    | Returned   // handle_conn is over, about to decrement the count
    | Posting    // decremented it from one, about to notify the idle gate
    | Done

  /** Where the accept loop is. */
  datatype Loop =
    | Top                        // about to load the shutdown flag
    | Arming                     // flag was clear; about to evaluate the idle guard
    | Selecting(sawActive: bool) // parked in select, with the count the guard saw non-zero or not
    | Accepted                   // accept returned a stream; about to increment the count
    | Counted                    // incremented; about to spawn the task
    | IdleClosed                 // idle fired and the listener is dropped; about to re-check
    | Rebinding                  // re-check found a connection
    | Draining                   // shutdown; listener dropped; about to load the count
    | DrainWaiting               // parked on the idle gate
    | Unlinking                  // about to remove the socket file and drop the database
    | Served
    | Failed

  datatype State = State(
    loop: Loop,
    tasks: seq<Task>,
    active: int,
    flag: bool,
    gate: bool,
    stop: bool,
    listening: bool,
    accepted: nat,
    late: nat)  // connections accepted while the flag was already set

  datatype Step =
    | LoadFlag
    | EvalGuard
    | TakeAccept
    | AcceptFails
    | TakeGate
    | TakeStop
    | IdleFires
    | CountUp
    | Spawn
    | Recheck
    | Rebind(ok: bool)
    | LoadActive
    | DrainWake
    | Unlink
    | HandlerReturns(i: nat)
    | StoreFlag(i: nat)
    | NotifyStop(i: nat)
    | CountDown(i: nat)
    | NotifyGate(i: nat)

  predicate IsTask(s: State, i: nat, t: Task) {
    i < |s.tasks| && s.tasks[i] == t
  }

  /** `idleOn` is `idle_ms != 0`. */
  predicate Enabled(idleOn: bool, s: State, step: Step) {
    match step
    case LoadFlag => s.loop == Top
    case EvalGuard => s.loop == Arming
    case TakeAccept => s.loop.Selecting? && s.listening
    case AcceptFails => s.loop.Selecting? && s.listening
    case TakeGate => s.loop.Selecting? && s.gate
    case TakeStop => s.loop.Selecting? && s.stop
    case IdleFires => s.loop == Selecting(false) && idleOn
    case CountUp => s.loop == Accepted
    case Spawn => s.loop == Counted
    case Recheck => s.loop == IdleClosed
    case Rebind(_) => s.loop == Rebinding
    case LoadActive => s.loop == Draining
    case DrainWake => s.loop == DrainWaiting && s.gate
    case Unlink => s.loop == Unlinking
    case HandlerReturns(i) => IsTask(s, i, Serving)
    case StoreFlag(i) => IsTask(s, i, Serving)
    case NotifyStop(i) => IsTask(s, i, Flagged)
    case CountDown(i) => IsTask(s, i, Returned)
    case NotifyGate(i) => IsTask(s, i, Posting)
  }

  function SetTask(s: State, i: nat, t: Task): State
    requires i < |s.tasks|
  {
    s.(tasks := s.tasks[i := t])
  }

  function After(idleOn: bool, s: State, step: Step): State
    requires Enabled(idleOn, s, step)
  {
    match step
    case LoadFlag => if s.flag then s.(loop := Draining, listening := false) else s.(loop := Arming)
    case EvalGuard => s.(loop := Selecting(s.active != 0))
    case TakeAccept => s.(loop := Accepted, accepted := s.accepted + 1, late := if s.flag then s.late + 1 else s.late)
    case AcceptFails => s.(loop := Failed, listening := false)
    case TakeGate => s.(loop := Top, gate := false)
    case TakeStop => s.(loop := Top, stop := false)
    case IdleFires => s.(loop := IdleClosed, listening := false)
    case CountUp => s.(loop := Counted, active := s.active + 1)
    case Spawn => s.(loop := Top, tasks := s.tasks + [Serving])
    case Recheck => s.(loop := if s.active == 0 then Unlinking else Rebinding)
    case Rebind(ok) => if ok then s.(loop := Top, listening := true) else s.(loop := Failed)
    case LoadActive => s.(loop := if s.active == 0 then Unlinking else DrainWaiting)
    case DrainWake => s.(loop := Draining, gate := false)
    case Unlink => s.(loop := Served)
    case HandlerReturns(i) => SetTask(s, i, Returned)
    case StoreFlag(i) => SetTask(s, i, Flagged).(flag := true)
    case NotifyStop(i) => SetTask(s, i, Returned).(stop := true)
    case CountDown(i) => SetTask(s, i, if s.active == 1 then Posting else Done).(active := s.active - 1)
    case NotifyGate(i) => SetTask(s, i, Done).(gate := true)
  }

  const INITIAL := State(Top, [], 0, false, false, false, true, 0, 0)

  /** A run of the daemon, any interleaving of loop and task actions, with the step taken at
      each place. */
  ghost predicate IsRun(idleOn: bool, run: seq<State>, steps: seq<Step>) {
    && |run| == |steps| + 1 && run[0] == INITIAL
    && forall i | 0 <= i < |steps| :: StepAt(idleOn, run, steps, i)
  }

  ghost predicate StepAt(idleOn: bool, run: seq<State>, steps: seq<Step>, i: nat)
    requires i < |steps| && i + 1 < |run|
  {
    Enabled(idleOn, run[i], steps[i]) && run[i + 1] == After(idleOn, run[i], steps[i])
  }

  /** A `topodb/shutdown` request was taken up before place `i`. */
  predicate Requested(steps: seq<Step>, i: nat)
    requires i <= |steps|
  {
    exists j :: 0 <= j < i && steps[j].StoreFlag?
  }

  // ----- the invariant -----

  predicate IsCounted(t: Task) {
    t == Serving || t == Flagged || t == Returned
  }

  /** Tasks that have not yet decremented the count. */
  function Unfinished(tasks: seq<Task>): nat {
    if tasks == [] then 0
    else Unfinished(tasks[..|tasks| - 1]) + (if IsCounted(tasks[|tasks| - 1]) then 1 else 0)
  }

  lemma {:induction false} UnfinishedUpdate(tasks: seq<Task>, i: nat, t: Task)
    requires i < |tasks|
    ensures Unfinished(tasks[i := t]) ==
            Unfinished(tasks) - (if IsCounted(tasks[i]) then 1 else 0) + (if IsCounted(t) then 1 else 0)
    ensures IsCounted(tasks[i]) ==> Unfinished(tasks) >= 1
  {
    var n := |tasks| - 1;
    if i == n {
      assert tasks[i := t][..n] == tasks[..n];
    } else {
      assert tasks[i := t][..n] == tasks[..n][i := t];
      UnfinishedUpdate(tasks[..n], i, t);
    }
  }

  lemma {:induction false} NoneUnfinished(tasks: seq<Task>)
    ensures Unfinished(tasks) == 0 <==> forall i | 0 <= i < |tasks| :: !IsCounted(tasks[i])
  {
    if tasks != [] { NoneUnfinished(tasks[..|tasks| - 1]); }
  }

  ghost predicate Some(s: State, t: Task) {
    exists i :: IsTask(s, i, t)
  }

  /** The count is the unfinished tasks, plus one between increment and spawn. */
  ghost predicate CountExact(s: State) {
    s.active == Unfinished(s.tasks) + (if s.loop == Counted then 1 else 0)
  }

  /** Every accepted connection has a task, or is about to. */
  ghost predicate AllSpawned(s: State) {
    s.accepted == |s.tasks| + (if s.loop == Accepted || s.loop == Counted then 1 else 0)
  }

  /** A shutdown request is not lost while the loop is on its way to, or in, select. */
  ghost predicate StopNotLost(s: State) {
    s.flag && (s.loop == Arming || s.loop.Selecting?) ==> s.stop || Some(s, Flagged)
  }

  /** The last disconnect is not lost while the loop waits for it. */
  ghost predicate GateNotLost(s: State) {
    s.active == 0 && (s.loop == DrainWaiting || s.loop == Selecting(true)) ==> s.gate || Some(s, Posting)
  }

  /** Once the idle guard saw zero, the count stays zero; nothing is served past the drain. */
  ghost predicate IdleIsIdle(s: State) {
    && (s.loop == Selecting(false) || s.loop == IdleClosed || s.loop == Unlinking || s.loop == Served ==> s.active == 0)
    && s.loop != Rebinding
  }

  ghost predicate AtMostOneLate(s: State) {
    && s.late <= 1
    && (!s.flag || s.loop == Arming || s.loop.Selecting? ==> s.late == 0)
  }

  /** The socket is open exactly while the loop may still accept. */
  predicate ListenExact(s: State) {
    s.listening <==> s.loop.Top? || s.loop.Arming? || s.loop.Selecting? || s.loop.Accepted? || s.loop.Counted?
  }

  ghost predicate Inv(s: State) {
    ListenExact(s) && CountExact(s) && AllSpawned(s) && StopNotLost(s) && GateNotLost(s) && IdleIsIdle(s) && AtMostOneLate(s)
  }

  /** The actions of connection tasks; all others are the loop's. */
  predicate IsTaskStep(step: Step) {
    step.HandlerReturns? || step.StoreFlag? || step.NotifyStop? || step.CountDown? || step.NotifyGate?
  }

  /** The task actions, by the state they leave. */
  lemma TaskStepKeeps(idleOn: bool, s: State, step: Step)
    requires Inv(s) && Enabled(idleOn, s, step)
    requires IsTaskStep(step)
    ensures Inv(After(idleOn, s, step))
  {
    var s' := After(idleOn, s, step);
    var i := step.i;
    UnfinishedUpdate(s.tasks, i, s'.tasks[i]);
    OthersStay(s, s', i);
  }

  /** Changing one task leaves every other where it was. */
  lemma OthersStay(s: State, s': State, i: nat)
    requires i < |s.tasks| && |s'.tasks| == |s.tasks| && s'.tasks == s.tasks[i := s'.tasks[i]]
    ensures Some(s', s'.tasks[i])
    ensures forall t | Some(s, t) && t != s.tasks[i] :: Some(s', t)
  {
    assert IsTask(s', i, s'.tasks[i]);
    forall t | Some(s, t) && t != s.tasks[i] ensures Some(s', t) {
      var j :| IsTask(s, j, t);
      assert IsTask(s', j, t);
    }
  }

  lemma LoopStepKeeps(idleOn: bool, s: State, step: Step)
    requires Inv(s) && Enabled(idleOn, s, step)
    requires !IsTaskStep(step)
    ensures Inv(After(idleOn, s, step))
  {
    if step == Spawn {
      SpawnKeeps(idleOn, s);
    } else {
      SameTasks(s, After(idleOn, s, step));
    }
  }

  lemma SpawnKeeps(idleOn: bool, s: State)
    requires Inv(s) && Enabled(idleOn, s, Spawn)
    ensures Inv(After(idleOn, s, Spawn))
  {
    var s' := After(idleOn, s, Spawn);
    assert s'.tasks[..|s'.tasks| - 1] == s.tasks;
  }

  lemma SameTasks(s: State, s': State)
    requires s'.tasks == s.tasks
    ensures forall t :: Some(s, t) <==> Some(s', t)
  {
    assert forall j, t :: IsTask(s, j, t) <==> IsTask(s', j, t);
  }

  lemma StepKeeps(idleOn: bool, s: State, step: Step)
    requires Inv(s) && Enabled(idleOn, s, step)
    ensures Inv(After(idleOn, s, step))
  {
    if IsTaskStep(step) {
      TaskStepKeeps(idleOn, s, step);
    } else {
      LoopStepKeeps(idleOn, s, step);
    }
  }

  lemma {:induction false} RunKeeps(idleOn: bool, run: seq<State>, steps: seq<Step>, i: nat)
    requires IsRun(idleOn, run, steps) && i < |run|
    ensures Inv(run[i])
  {
    if i > 0 {
      RunKeeps(idleOn, run, steps, i - 1);
      assert StepAt(idleOn, run, steps, i - 1);
      StepKeeps(idleOn, run[i - 1], steps[i - 1]);
    }
  }

  /** The flag is set exactly from the first request on. */
  lemma {:induction false} FlagIsRequest(idleOn: bool, run: seq<State>, steps: seq<Step>, i: nat)
    requires IsRun(idleOn, run, steps) && i < |run|
    ensures run[i].flag <==> Requested(steps, i)
  {
    if i > 0 {
      FlagIsRequest(idleOn, run, steps, i - 1);
      assert StepAt(idleOn, run, steps, i - 1);
    }
  }

  // ----- the theorems -----

  /** In every reachable state: a set flag with the loop parked in select has its permit
      stored or about to be; so has a zero count with the loop parked in the drain, or in a
      select whose idle branch the count guard had disabled. */
  lemma NoWakeupLost(idleOn: bool, run: seq<State>, steps: seq<Step>, i: nat)
    requires IsRun(idleOn, run, steps) && i < |run|
    ensures var s := run[i];
            && (Requested(steps, i) && s.loop.Selecting? ==> s.stop || exists t :: IsTask(s, t, Flagged))
            && (s.active == 0 && (s.loop == DrainWaiting || s.loop == Selecting(true)) ==> s.gate || exists t :: IsTask(s, t, Posting))
  {
    RunKeeps(idleOn, run, steps, i);
    FlagIsRequest(idleOn, run, steps, i);
  }

  /** `Served` is returned only after every accepted connection got its task and every task
      left its handler and the count; at most one connection is accepted after a shutdown
      request; and the idle path never finds a connection to rebind for. */
  lemma ServedOnlyWhenQuiet(idleOn: bool, run: seq<State>, steps: seq<Step>, i: nat)
    requires IsRun(idleOn, run, steps) && i < |run|
    ensures var s := run[i];
            && (s.loop == Served ==> s.accepted == |s.tasks| && forall t | 0 <= t < |s.tasks| :: s.tasks[t] == Posting || s.tasks[t] == Done)
            && s.late <= 1
            && s.loop != Rebinding
            && s.active >= 0
  {
    RunKeeps(idleOn, run, steps, i);
    NoneUnfinished(run[i].tasks);
  }

  /** Only the loop's own actions, none of which waits for a client or a timer. */
  predicate IsLoopOnly(step: Step) {
    step == LoadFlag || step == EvalGuard || step == TakeGate || step == TakeStop || step == Recheck || step == LoadActive || step == DrainWake || step == Unlink
  }

  /** A schedule of such actions; with `timer` the idle timer may fire in it too. */
  ghost predicate Path(idleOn: bool, timer: bool, from: State, steps: seq<Step>, to: State)
    decreases |steps|
  {
    if steps == [] then from == to
    else
      && Enabled(idleOn, from, steps[0]) && (IsLoopOnly(steps[0]) || (timer && steps[0] == IdleFires))
      && Path(idleOn, timer, After(idleOn, from, steps[0]), steps[1..], to)
  }

  ghost predicate Quiet(s: State) {
    (forall i | 0 <= i < |s.tasks| :: s.tasks[i] == Done) && s.loop != Accepted && s.loop != Counted
  }

  /** Loop actions left before `Served` once a shutdown can proceed. */
  function Remaining(l: Loop): nat {
    match l
    case Arming => 5
    case Selecting(_) => 4
    case Top => 3
    case DrainWaiting => 3
    case Draining => 2
    case IdleClosed => 2
    case Unlinking => 1
    case _ => 0
  }

  ghost predicate Stopping(s: State) {
    Inv(s) && s.flag && Quiet(s) && s.loop != Failed
  }

  lemma DrainStep(idleOn: bool, s: State, step: Step)
    requires Stopping(s) && Enabled(idleOn, s, step) && (IsLoopOnly(step) || step == IdleFires)
    ensures Stopping(After(idleOn, s, step)) && Remaining(After(idleOn, s, step).loop) < Remaining(s.loop)
  {
    LoopStepKeeps(idleOn, s, step);
    QuietIsIdle(s);
    DrainMeasure(idleOn, s, step);
  }

  lemma QuietIsIdle(s: State)
    requires CountExact(s) && Quiet(s)
    ensures s.active == 0 && !Some(s, Flagged) && !Some(s, Posting)
  {
    NoneUnfinished(s.tasks);
  }

  lemma DrainMeasure(idleOn: bool, s: State, step: Step)
    requires s.flag && s.active == 0 && Quiet(s) && s.loop != Failed && s.loop != Rebinding
    requires Enabled(idleOn, s, step) && (IsLoopOnly(step) || step == IdleFires)
    ensures var s' := After(idleOn, s, step);
            s'.flag && Quiet(s') && s'.loop != Failed && Remaining(s'.loop) < Remaining(s.loop)
  {
  }

  lemma {:induction false} DrainsAlong(idleOn: bool, s: State, steps: seq<Step>, end: State)
    requires Stopping(s) && Path(idleOn, true, s, steps, end)
    ensures Stopping(end) && |steps| + Remaining(end.loop) <= Remaining(s.loop)
    decreases |steps|
  {
    if steps != [] {
      DrainStep(idleOn, s, steps[0]);
      DrainsAlong(idleOn, After(idleOn, s, steps[0]), steps[1..], end);
    }
  }

  /** From any reachable state in which shutdown was requested and every connection is over,
      every schedule of the loop's own actions, the idle timer included, takes at most five of
      them, and before `Served` one that waits for nothing is always enabled: the loop cannot
      but reach `Served`. */
  lemma ShutdownCompletes(idleOn: bool, run: seq<State>, taken: seq<Step>, i: nat, steps: seq<Step>, end: State)
    requires IsRun(idleOn, run, taken) && i < |run|
    requires Requested(taken, i) && Quiet(run[i]) && run[i].loop != Failed
    requires Path(idleOn, true, run[i], steps, end)
    ensures |steps| <= 5
    ensures end.loop == Served || exists step :: IsLoopOnly(step) && Enabled(idleOn, end, step)
  {
    RunKeeps(idleOn, run, taken, i);
    FlagIsRequest(idleOn, run, taken, i);
    DrainsAlong(idleOn, run[i], steps, end);
    NoneUnfinished(end.tasks);
    if end.loop != Served {
      var step := match end.loop
                  case Top => LoadFlag
                  case Arming => EvalGuard
                  case Selecting(_) => TakeStop
                  case IdleClosed => Recheck
                  case Draining => LoadActive
                  case DrainWaiting => DrainWake
                  case _ => Unlink;
      assert IsLoopOnly(step) && Enabled(idleOn, end, step);
    }
  }

  // ----- shutdown with connections still open -----

  function Postings(tasks: seq<Task>): nat {
    if tasks == [] then 0
    else Postings(tasks[..|tasks| - 1]) + (if tasks[|tasks| - 1] == Posting then 1 else 0)
  }

  lemma {:induction false} PostingsUpdate(tasks: seq<Task>, i: nat, t: Task)
    requires i < |tasks|
    ensures Postings(tasks[i := t]) == Postings(tasks) - (if tasks[i] == Posting then 1 else 0) + (if t == Posting then 1 else 0)
  {
    var n := |tasks| - 1;
    if i == n {
      assert tasks[i := t][..n] == tasks[..n];
    } else {
      assert tasks[i := t][..n] == tasks[..n][i := t];
      PostingsUpdate(tasks[..n], i, t);
    }
  }

  /** Wakeups the drain can still meet: the stored permit, those being posted, and the one
      that the last decrement will post. */
  function Wakes(s: State): nat {
    (if s.gate then 1 else 0) + Postings(s.tasks) + (if s.active > 0 then 1 else 0)
  }

  function Ahead(l: Loop): nat {
    match l
    case Arming => 9
    case Selecting(_) => 8
    case Accepted => 7
    case IdleClosed => 5
    case Counted => 4
    case Rebinding => 4
    case Top => 3
    case Draining => 2
    case DrainWaiting => 1
    case Unlinking => 1
    case _ => 0
  }

  /** Loop actions left once the flag is set, whatever the tasks and the clients do. */
  function Left(s: State): nat {
    Ahead(s.loop) + 2 * Wakes(s)
  }

  lemma LoopActionSpends(idleOn: bool, s: State, step: Step)
    requires s.flag && s.active >= 0 && Enabled(idleOn, s, step) && !IsTaskStep(step)
    ensures After(idleOn, s, step).flag && Left(After(idleOn, s, step)) < Left(s)
  {
    if step == Spawn {
      assert (s.tasks + [Serving])[..|s.tasks|] == s.tasks;
    }
  }

  lemma TaskActionCostsNothing(idleOn: bool, s: State, step: Step)
    requires s.flag && s.active >= 1 - (if step.CountDown? then 0 else 1) && Enabled(idleOn, s, step) && IsTaskStep(step)
    ensures After(idleOn, s, step).flag && Left(After(idleOn, s, step)) <= Left(s)
  {
    PostingsUpdate(s.tasks, step.i, After(idleOn, s, step).tasks[step.i]);
  }

  /** Any continuation of a run: loop, tasks and clients interleaved at will. */
  ghost predicate Continues(idleOn: bool, from: State, steps: seq<Step>, to: State)
    decreases |steps|
  {
    if steps == [] then from == to
    else Enabled(idleOn, from, steps[0]) && Continues(idleOn, After(idleOn, from, steps[0]), steps[1..], to)
  }

  function LoopActions(steps: seq<Step>): nat {
    if steps == [] then 0 else (if IsTaskStep(steps[0]) then 0 else 1) + LoopActions(steps[1..])
  }

  lemma ActiveIsPositive(s: State, step: Step, idleOn: bool)
    requires Inv(s) && Enabled(idleOn, s, step)
    ensures s.active >= 0 && (step.CountDown? ==> s.active >= 1)
  {
    if step.CountDown? {
      UnfinishedUpdate(s.tasks, step.i, Done);
    }
  }

  lemma {:induction false} SpendsAlong(idleOn: bool, s: State, steps: seq<Step>, to: State)
    requires Inv(s) && s.flag && Continues(idleOn, s, steps, to)
    ensures Inv(to) && to.flag && LoopActions(steps) + Left(to) <= Left(s)
    decreases |steps|
  {
    if steps != [] {
      var s' := After(idleOn, s, steps[0]);
      ActiveIsPositive(s, steps[0], idleOn);
      if IsTaskStep(steps[0]) {
        TaskStepKeeps(idleOn, s, steps[0]);
        TaskActionCostsNothing(idleOn, s, steps[0]);
      } else {
        LoopStepKeeps(idleOn, s, steps[0]);
        LoopActionSpends(idleOn, s, steps[0]);
      }
      SpendsAlong(idleOn, s', steps[1..], to);
    }
  }

  /** Actions left to the tasks, and to the one that a last connection may still add. */
  function TaskLeft(t: Task): nat {
    match t
    case Serving => 4
    case Flagged => 3
    case Returned => 2
    case Posting => 1
    case Done => 0
  }

  function TasksLeft(tasks: seq<Task>): nat {
    if tasks == [] then 0 else TasksLeft(tasks[..|tasks| - 1]) + TaskLeft(tasks[|tasks| - 1])
  }

  lemma {:induction false} TasksLeftUpdate(tasks: seq<Task>, i: nat, t: Task)
    requires i < |tasks|
    ensures TasksLeft(tasks[i := t]) == TasksLeft(tasks) - TaskLeft(tasks[i]) + TaskLeft(t)
  {
    var n := |tasks| - 1;
    if i == n {
      assert tasks[i := t][..n] == tasks[..n];
    } else {
      assert tasks[i := t][..n] == tasks[..n][i := t];
      TasksLeftUpdate(tasks[..n], i, t);
    }
  }

  function AllLeft(s: State): nat {
    Left(s) + TasksLeft(s.tasks) + if s.loop.Arming? || s.loop.Selecting? || s.loop.Accepted? || s.loop.Counted? then 4 else 0
  }

  lemma EveryActionSpends(idleOn: bool, s: State, step: Step)
    requires Inv(s) && s.flag && Enabled(idleOn, s, step)
    ensures AllLeft(After(idleOn, s, step)) < AllLeft(s) && After(idleOn, s, step).flag
  {
    if IsTaskStep(step) {
      TaskTurnSpends(idleOn, s, step);
    } else {
      LoopTurnSpends(idleOn, s, step);
    }
  }

  lemma TaskTurnSpends(idleOn: bool, s: State, step: Step)
    requires Inv(s) && s.flag && Enabled(idleOn, s, step) && IsTaskStep(step)
    ensures AllLeft(After(idleOn, s, step)) < AllLeft(s) && After(idleOn, s, step).flag
  {
    ActiveIsPositive(s, step, idleOn);
    TaskActionCostsNothing(idleOn, s, step);
    TaskMovesOn(idleOn, s, step);
  }

  lemma TaskMovesOn(idleOn: bool, s: State, step: Step)
    requires Enabled(idleOn, s, step) && IsTaskStep(step)
    ensures var s' := After(idleOn, s, step); TasksLeft(s'.tasks) < TasksLeft(s.tasks) && s'.loop == s.loop
  {
    TasksLeftUpdate(s.tasks, step.i, After(idleOn, s, step).tasks[step.i]);
  }

  lemma LoopTurnSpends(idleOn: bool, s: State, step: Step)
    requires Inv(s) && s.flag && Enabled(idleOn, s, step) && !IsTaskStep(step)
    ensures AllLeft(After(idleOn, s, step)) < AllLeft(s) && After(idleOn, s, step).flag
  {
    LoopActionSpends(idleOn, s, step);
    if step == Spawn {
      assert (s.tasks + [Serving])[..|s.tasks|] == s.tasks;
    }
  }

  lemma {:induction false} AllSpentAlong(idleOn: bool, s: State, steps: seq<Step>, to: State)
    requires Inv(s) && s.flag && Continues(idleOn, s, steps, to)
    ensures |steps| + AllLeft(to) <= AllLeft(s)
    decreases |steps|
  {
    if steps != [] {
      EveryActionSpends(idleOn, s, steps[0]);
      StepKeeps(idleOn, s, steps[0]);
      AllSpentAlong(idleOn, After(idleOn, s, steps[0]), steps[1..], to);
    }
  }

  /** Once shutdown is requested, every continuation of a run is finite, whatever the
      connections, the timer and the clients do: the actions of loop and tasks together are
      bounded, those of the loop alone by a constant and the wakeups under way. And as long as
      the loop is not done some action is enabled; so it always gets done. */
  lemma ShutdownBounded(idleOn: bool, run: seq<State>, taken: seq<Step>, i: nat, steps: seq<Step>, to: State)
    requires IsRun(idleOn, run, taken) && i < |run| && Requested(taken, i) && Continues(idleOn, run[i], steps, to)
    ensures |steps| <= AllLeft(run[i]) && LoopActions(steps) <= 13 + 2 * Postings(run[i].tasks)
    ensures to.loop == Served || to.loop == Failed || exists step :: Enabled(idleOn, to, step)
  {
    RunKeeps(idleOn, run, taken, i);
    FlagIsRequest(idleOn, run, taken, i);
    SpendsAlong(idleOn, run[i], steps, to);
    AllSpentAlong(idleOn, run[i], steps, to);
    if to.loop != Served && to.loop != Failed {
      if j: nat :| j < |to.tasks| && to.tasks[j] != Done {
        TaskCanAct(idleOn, to, j);
      } else {
        LoopCanAct(idleOn, to);
      }
    }
  }

  /** A task that is not done can always take its next action. */
  lemma TaskCanAct(idleOn: bool, s: State, i: nat)
    requires i < |s.tasks| && s.tasks[i] != Done
    ensures exists step :: IsTaskStep(step) && step.i == i && Enabled(idleOn, s, step)
  {
    var step := match s.tasks[i]
                case Serving => HandlerReturns(i)
                case Flagged => NotifyStop(i)
                case Returned => CountDown(i)
                case _ => NotifyGate(i);
    assert IsTaskStep(step) && step.i == i && Enabled(idleOn, s, step);
  }

  /** Parked in select, the loop can always take a connection, and gives it a task. */
  lemma AcceptServes(idleOn: bool, run: seq<State>, taken: seq<Step>, i: nat)
    requires IsRun(idleOn, run, taken) && i < |run| && run[i].loop.Selecting?
    ensures exists to :: Continues(idleOn, run[i], [TakeAccept, CountUp, Spawn], to)
                         && to.loop == Top && to.tasks == run[i].tasks + [Serving] && to.active == run[i].active + 1
  {
    RunKeeps(idleOn, run, taken, i);
    var s1 := After(idleOn, run[i], TakeAccept);
    var s2 := After(idleOn, s1, CountUp);
    ContinuesThree(idleOn, run[i], TakeAccept, CountUp, Spawn);
  }

  /** With the idle branch armed the timer ends the daemon. */
  lemma IdleExits(run: seq<State>, taken: seq<Step>, i: nat)
    requires IsRun(true, run, taken) && i < |run| && run[i].loop == Selecting(false)
    ensures exists to :: Continues(true, run[i], [IdleFires, Recheck, Unlink], to) && to.loop == Served
  {
    RunKeeps(true, run, taken, i);
    ContinuesThree(true, run[i], IdleFires, Recheck, Unlink);
  }

  lemma ContinuesThree(idleOn: bool, s: State, a: Step, b: Step, c: Step)
    requires Enabled(idleOn, s, a) && Enabled(idleOn, After(idleOn, s, a), b)
    requires Enabled(idleOn, After(idleOn, After(idleOn, s, a), b), c)
    ensures Continues(idleOn, s, [a, b, c], After(idleOn, After(idleOn, After(idleOn, s, a), b), c))
  {
    assert [a, b, c][1..] == [b, c] && [b, c][1..] == [c] && [c][1..] == [];
    assert Continues(idleOn, After(idleOn, After(idleOn, s, a), b), [c], After(idleOn, After(idleOn, After(idleOn, s, a), b), c));
  }

  lemma LoopCanAct(idleOn: bool, s: State)
    requires Inv(s) && s.flag && s.loop != Served && s.loop != Failed && forall j | 0 <= j < |s.tasks| :: s.tasks[j] == Done
    ensures exists step :: !IsTaskStep(step) && Enabled(idleOn, s, step)
  {
    NoneUnfinished(s.tasks);
    var step := match s.loop
                case Top => LoadFlag
                case Arming => EvalGuard
                case Selecting(_) => TakeStop
                case Accepted => CountUp
                case Counted => Spawn
                case IdleClosed => Recheck
                case Draining => LoadActive
                case DrainWaiting => DrainWake
                case _ => Unlink;
    assert !IsTaskStep(step) && Enabled(idleOn, s, step);
  }

  /** Loop actions left before the idle branch is armed, a stored permit costing three. */
  function Rearming(s: State): nat {
    (match s.loop
     case Top => 2
     case Arming => 1
     case IdleClosed => 2
     case Unlinking => 1
     case _ => 0) + (if s.gate then 3 else 0) + (if s.stop then 3 else 0)
  }

  ghost predicate Idling(s: State) {
    Inv(s) && !s.flag && Quiet(s) && s.loop !in {Failed, Draining, DrainWaiting}
  }

  lemma IdleStep(idleOn: bool, s: State, step: Step)
    requires Idling(s) && Enabled(idleOn, s, step) && IsLoopOnly(step)
    ensures Idling(After(idleOn, s, step)) && Rearming(After(idleOn, s, step)) < Rearming(s)
  {
    LoopStepKeeps(idleOn, s, step);
    QuietIsIdle(s);
    IdleMeasure(idleOn, s, step);
  }

  lemma IdleMeasure(idleOn: bool, s: State, step: Step)
    requires !s.flag && s.active == 0 && Quiet(s) && s.loop !in {Failed, Draining, DrainWaiting, Rebinding}
    requires Enabled(idleOn, s, step) && IsLoopOnly(step)
    ensures var s' := After(idleOn, s, step);
            !s'.flag && Quiet(s') && s'.loop !in {Failed, Draining, DrainWaiting} && Rearming(s') < Rearming(s)
  {
  }

  lemma {:induction false} RearmsAlong(idleOn: bool, s: State, steps: seq<Step>, end: State)
    requires Idling(s) && Path(idleOn, false, s, steps, end)
    ensures Idling(end) && |steps| + Rearming(end) <= Rearming(s)
    decreases |steps|
  {
    if steps != [] {
      IdleStep(idleOn, s, steps[0]);
      RearmsAlong(idleOn, After(idleOn, s, steps[0]), steps[1..], end);
    }
  }

  /** Without a shutdown request, once every connection is over every schedule of the loop's
      own actions is short and can only come to rest in a select whose idle branch is armed, or
      in `Served`: idleness is never slept through. */
  lemma IdleRearms(idleOn: bool, run: seq<State>, taken: seq<Step>, i: nat, steps: seq<Step>, end: State)
    requires IsRun(idleOn, run, taken) && i < |run|
    requires !Requested(taken, i) && Quiet(run[i]) && run[i].loop !in {Failed, Draining, DrainWaiting}
    requires Path(idleOn, false, run[i], steps, end)
    ensures |steps| <= 8
    ensures end.loop == Selecting(false) || end.loop == Served || exists step :: IsLoopOnly(step) && Enabled(idleOn, end, step)
  {
    RunKeeps(idleOn, run, taken, i);
    FlagIsRequest(idleOn, run, taken, i);
    RearmsAlong(idleOn, run[i], steps, end);
    NoneUnfinished(end.tasks);
    if end.loop != Selecting(false) && end.loop != Served {
      var step := match end.loop
                  case Top => LoadFlag
                  case Arming => EvalGuard
                  case Selecting(_) => TakeGate
                  case IdleClosed => Recheck
                  case _ => Unlink;
      assert IsLoopOnly(step) && Enabled(idleOn, end, step);
    }
  }
}
