/** Election and socket ownership among any number of daemon processes that share one
    database and its derived endpoint (crates/topodb-mcp/src/daemon.rs).

    A process takes the exclusive file lock by opening the database, then binds the socket,
    reclaiming a dead one. Processes interleave freely and may crash anywhere; a crash gives
    up the lock and the listening socket separately, in either order, and leaves the socket
    file behind. */
module Election {
  import opened Text

  datatype Pc =
    | Start       // before or between attempts to open the database
    | Opened      // holds the lock, nothing bound yet
    | Binding     // about to bind the endpoint
    | InUse       // the bind met an existing file; about to connect to it
    | Refused     // nobody answered; about to remove the file
    | Rebinding   // about to bind for the second time
    | Named       // bound, not listening yet
    | Serving     // listening
    | Closed      // own listener dropped, socket file still there
    | Leaving     // on the way out with the lock still held
    | Dying       // crashed; the kernel is still closing its descriptors
    | Lost        // the lock was busy: LostElection
    | Gone

  /** `listening`: this process has a listener open on the file it bound. */
  datatype Proc = Proc(pc: Pc, listening: bool)

  /** `file` is the process that bound the socket file now at the endpoint, if there is one. */
  datatype State = State(lock: Option<nat>, file: Option<nat>, procs: seq<Proc>)

  datatype Action =
    | Open | GiveUp | Release
    | StartBind | Bind | Connect | OtherError | Reclaim | BindAgain | Listen
    | AcceptError | CloseListener | BindAfterClose | RemoveOwn | Exit
    | Crash | KernelUnlock | KernelClose

  datatype Step = Step(pid: nat, act: Action)

  predicate Enabled(s: State, step: Step) {
    step.pid < |s.procs| &&
    var pc := s.procs[step.pid].pc;
    match step.act
    case Open => pc == Start && s.lock.None?
    case GiveUp => pc == Start && s.lock.Some?
    case Release => pc == Opened
    case StartBind => pc == Opened
    case Bind => pc == Binding
    case Connect => pc == InUse
    case OtherError => pc in {Binding, InUse, Refused, Rebinding, Named}
    case Reclaim => pc == Refused
    case BindAgain => pc == Rebinding
    case Listen => pc == Named
    case AcceptError => pc == Serving
    case CloseListener => pc == Serving
    case BindAfterClose => pc == Closed
    case RemoveOwn => pc == Closed
    case Exit => pc == Leaving
    case Crash => pc !in {Dying, Lost, Gone}
    case KernelUnlock => pc == Dying && s.lock == Some(step.pid)
    case KernelClose => pc == Dying && s.procs[step.pid].listening
  }

  function Goto(s: State, p: nat, pc: Pc): State
    requires p < |s.procs|
  {
    s.(procs := s.procs[p := s.procs[p].(pc := pc)])
  }

  function Hear(s: State, p: nat, pc: Pc, listening: bool): State
    requires p < |s.procs|
  {
    s.(procs := s.procs[p := Proc(pc, listening)])
  }

  /** Whether a connect to the endpoint finds a listener: the binder's listener is still open,
      be it a working daemon or a crashed one whose descriptors are not closed yet. */
  predicate Answers(s: State) {
    s.file.Some? && s.file.value < |s.procs| && s.procs[s.file.value].listening
  }

  function After(s: State, step: Step): State
    requires Enabled(s, step)
  {
    var p := step.pid;
    match step.act
    case Open => Goto(s, p, Opened).(lock := Some(p))
    case GiveUp => Goto(s, p, Lost)
    // `open_db` drops the database to reopen it with an upgraded spec; other front ends
    // open it and leave without ever binding.
    case Release => Goto(s, p, Start).(lock := None)
    case StartBind => Goto(s, p, Binding)
    case Bind => if s.file.None? then Goto(s, p, Named).(file := Some(p)) else Goto(s, p, InUse)
    case Connect => if Answers(s) || s.file.None? then Goto(s, p, Leaving) else Goto(s, p, Refused)
    case OtherError => Goto(s, p, Leaving)
    case Reclaim => if s.file.None? then Goto(s, p, Leaving) else Goto(s, p, Rebinding).(file := None)
    case BindAgain => if s.file.None? then Goto(s, p, Named).(file := Some(p)) else Goto(s, p, Leaving)
    case Listen => Hear(s, p, Serving, true)
    case AcceptError => Hear(s, p, Leaving, false)
    case CloseListener => Hear(s, p, Closed, false)
    case BindAfterClose => Goto(s, p, Binding)
    // removes whatever is at the endpoint, ignoring errors
    case RemoveOwn => Goto(s, p, Leaving).(file := None)
    case Exit => Goto(s, p, Gone).(lock := None)
    case Crash => Goto(s, p, Dying)
    case KernelUnlock => s.(lock := None)
    case KernelClose => Hear(s, p, Dying, false)
  }

  /** Any number of processes, each fresh or long gone; a socket file may already be there,
      left by one of the latter. */
  predicate IsInit(s: State) {
    && s.lock.None?
    && (forall p :: 0 <= p < |s.procs| ==> s.procs[p] == Proc(Start, false) || s.procs[p] == Proc(Gone, false))
    && (s.file.Some? ==> s.file.value < |s.procs| && s.procs[s.file.value].pc == Gone)
  }

  ghost predicate IsRun(run: seq<State>, steps: seq<Step>) {
    && |run| == |steps| + 1 && IsInit(run[0])
    && forall i :: 0 <= i < |steps| ==> StepAt(run, steps, i)
  }

  ghost predicate StepAt(run: seq<State>, steps: seq<Step>, i: nat)
    requires i < |steps| && i + 1 < |run|
  {
    Enabled(run[i], steps[i]) && run[i + 1] == After(run[i], steps[i])
  }

  /** Between opening the database and leaving. */
  predicate Working(pc: Pc) { pc !in {Start, Dying, Lost, Gone} }

  ghost predicate Inv(s: State) {
    && (s.lock.Some? ==> s.lock.value < |s.procs| && s.procs[s.lock.value].pc !in {Start, Lost, Gone})
    && (s.file.Some? ==> s.file.value < |s.procs| && s.procs[s.file.value].pc !in {Start, Opened, Lost})
    && (forall p :: 0 <= p < |s.procs| ==> ProcOk(s, p, s.procs[p]))
  }

  predicate ProcOk(s: State, p: nat, x: Proc) {
    && (Working(x.pc) ==> s.lock == Some(p))
    && (x.listening ==> x.pc in {Serving, Dying})
    && (x.pc == Serving ==> x.listening)
    && (x.pc in {Named, Serving, Closed} ==> s.file == Some(p))
    && (x.pc == InUse ==> s.file.Some?)
    && (x.pc == Refused ==> s.file.Some? && !Answers(s))
    && (x.pc == Rebinding ==> s.file.None?)
  }

  lemma StepKeeps(s: State, step: Step)
    requires Inv(s) && Enabled(s, step)
    ensures Inv(After(s, step))
  {
    var s' := After(s, step);
    assert ProcOk(s, step.pid, s.procs[step.pid]);
    forall p | 0 <= p < |s'.procs| ensures ProcOk(s', p, s'.procs[p]) {
      assert ProcOk(s, p, s.procs[p]);
    }
  }

  lemma {:induction false} RunKeeps(run: seq<State>, steps: seq<Step>, i: nat)
    requires IsRun(run, steps) && i < |run|
    ensures Inv(run[i])
  {
    if i > 0 {
      RunKeeps(run, steps, i - 1);
      assert StepAt(run, steps, i - 1);
      StepKeeps(run[i - 1], steps[i - 1]);
    }
  }

  /** A process that still runs and has its socket up, or is bringing it up or down. */
  predicate OwnsSocket(s: State, q: nat) {
    q < |s.procs| && s.procs[q].pc in {Named, Serving, Closed}
  }

  /** In every interleaving: whoever changes the socket file holds the lock at that moment,
      and a file it removes is its own or was left by a process that crashed or is gone and
      that nobody can reach any more. No working daemon ever loses its socket to another. */
  lemma OnlyLockHolderTouchesSocket(run: seq<State>, steps: seq<Step>, i: nat)
    requires IsRun(run, steps) && i < |steps|
    ensures var s, s', p := run[i], run[i + 1], steps[i].pid;
            s'.file != s.file ==>
              && s.lock == Some(p) && s'.lock == Some(p)
              && (s.file.None? ==> s'.file == Some(p))
              && (s.file.Some? ==> s'.file.None?)
              && (s.file.Some? && s.file != Some(p) ==> s.file.value < |s.procs| && !OwnsSocket(s, s.file.value) && !Answers(s)
                                                        && s.procs[s.file.value].pc in {Dying, Gone})
  {
    RunKeeps(run, steps, i);
    assert StepAt(run, steps, i);
    var s := run[i];
    var p := steps[i].pid;
    assert ProcOk(s, p, s.procs[p]);
    if s.file.Some? {
      assert ProcOk(s, s.file.value, s.procs[s.file.value]);
    }
  }

  /** At most one process at a time is anywhere between winning the lock and leaving; a
      serving one has its own file at the endpoint and answers on it. */
  lemma OneDaemon(run: seq<State>, steps: seq<Step>, i: nat, p: nat, q: nat)
    requires IsRun(run, steps) && i < |run| && p < |run[i].procs| && q < |run[i].procs|
    ensures Working(run[i].procs[p].pc) && Working(run[i].procs[q].pc) ==> p == q
    ensures run[i].procs[p].pc == Serving ==> run[i].file == Some(p) && Answers(run[i]) && run[i].lock == Some(p)
  {
    RunKeeps(run, steps, i);
    assert ProcOk(run[i], p, run[i].procs[p]) && ProcOk(run[i], q, run[i].procs[q]);
  }

  /** A lock winner that finds the endpoint answered met a crashed daemon whose listener the
      kernel has not closed yet, never a working one: exactly then does it quit with
      "already served". */
  lemma AlreadyServedOnlyByDying(run: seq<State>, steps: seq<Step>, i: nat)
    requires IsRun(run, steps) && i < |steps| && steps[i].act == Connect
    ensures steps[i].pid < |run[i + 1].procs|
    ensures run[i + 1].procs[steps[i].pid].pc == (if Answers(run[i]) then Leaving else Refused)
    ensures run[i].file.Some? && run[i].file.value < |run[i].procs|
    ensures Answers(run[i]) <==> run[i].procs[run[i].file.value] == Proc(Dying, true)
  {
    RunKeeps(run, steps, i);
    assert StepAt(run, steps, i);
    var s := run[i];
    assert ProcOk(s, steps[i].pid, s.procs[steps[i].pid]);
    assert ProcOk(s, s.file.value, s.procs[s.file.value]);
  }

  /** Where the kernel closes a crashed process's listener no later than it frees the lock,
      nobody ever finds the endpoint answered. */
  ghost predicate ListenersCloseFirst(run: seq<State>, steps: seq<Step>) {
    forall i :: 0 <= i < |steps| && i < |run| && steps[i].act == KernelUnlock && steps[i].pid < |run[i].procs|
                ==> !run[i].procs[steps[i].pid].listening
  }

  ghost predicate HeardUnderLock(s: State) {
    forall p :: 0 <= p < |s.procs| && s.procs[p].listening ==> s.lock == Some(p)
  }

  lemma {:induction false} ListeningUnderLock(run: seq<State>, steps: seq<Step>, i: nat)
    requires IsRun(run, steps) && ListenersCloseFirst(run, steps) && i < |run|
    ensures HeardUnderLock(run[i])
  {
    if i > 0 {
      ListeningUnderLock(run, steps, i - 1);
      RunKeeps(run, steps, i - 1);
      assert StepAt(run, steps, i - 1);
      var s, s', step := run[i - 1], run[i], steps[i - 1];
      assert ProcOk(s, step.pid, s.procs[step.pid]);
      forall p | 0 <= p < |s'.procs| && s'.procs[p].listening ensures s'.lock == Some(p) {
        assert ProcOk(s, p, s.procs[p]);
      }
    }
  }

  lemma NeverAlreadyServed(run: seq<State>, steps: seq<Step>, i: nat)
    requires IsRun(run, steps) && ListenersCloseFirst(run, steps) && i < |steps| && steps[i].act == Connect
    ensures !Answers(run[i]) && steps[i].pid < |run[i + 1].procs| && run[i + 1].procs[steps[i].pid].pc == Refused
  {
    assert StepAt(run, steps, i);
    AlreadyServedOnlyByDying(run, steps, i);
    ListeningUnderLock(run, steps, i);
    RunKeeps(run, steps, i);
    assert ProcOk(run[i], steps[i].pid, run[i].procs[steps[i].pid]);
  }

  lemma Snoc(run: seq<State>, steps: seq<Step>, step: Step) returns (run': seq<State>, steps': seq<Step>)
    requires IsRun(run, steps) && Enabled(run[|steps|], step)
    ensures IsRun(run', steps') && steps' == steps + [step] && run' == run + [After(run[|steps|], step)]
  {
    run', steps' := run + [After(run[|steps|], step)], steps + [step];
    forall i | 0 <= i < |steps'| ensures StepAt(run', steps', i) {
      assert i < |steps| ==> StepAt(run, steps, i);
    }
  }

  /** A daemon crashes while serving and loses the lock before its listener. */
  lemma CrashedWhileServing() returns (run: seq<State>, steps: seq<Step>)
    ensures IsRun(run, steps) && |steps| == 6 && |run[0].procs| == 2
    ensures steps[5] == Step(0, KernelUnlock) && run[5].procs == run[6].procs == [Proc(Dying, true), Proc(Start, false)]
    ensures run[6] == State(None, Some(0), run[5].procs)
  {
    run, steps := [State(None, None, [Proc(Start, false), Proc(Start, false)])], [];
    run, steps := Snoc(run, steps, Step(0, Open));
    run, steps := Snoc(run, steps, Step(0, StartBind));
    run, steps := Snoc(run, steps, Step(0, Bind));
    assert run[3] == State(Some(0), Some(0), [Proc(Named, false), Proc(Start, false)]);
    run, steps := Snoc(run, steps, Step(0, Listen));
    run, steps := Snoc(run, steps, Step(0, Crash));
    assert run[5] == State(Some(0), Some(0), [Proc(Dying, true), Proc(Start, false)]);
    run, steps := Snoc(run, steps, Step(0, KernelUnlock));
  }

  /** That close order makes a healthy lock winner quit. */
  lemma UnlockFirstCanTurnAwayAWinner() returns (run: seq<State>, steps: seq<Step>)
    ensures IsRun(run, steps) && |run[0].procs| == 2
    ensures !ListenersCloseFirst(run, steps)
    ensures |steps| > 0 && steps[|steps| - 1] == Step(1, Connect)
    ensures |run[|steps|].procs| == 2 && run[|steps|].procs[1].pc == Leaving
  {
    run, steps := CrashedWhileServing();
    ghost var run0, steps0 := run, steps;
    run, steps := Snoc(run, steps, Step(1, Open));
    run, steps := Snoc(run, steps, Step(1, StartBind));
    run, steps := Snoc(run, steps, Step(1, Bind));
    run, steps := Snoc(run, steps, Step(1, Connect));
    assert steps[5] == steps0[5] && run[5] == run0[5];
  }

  ghost predicate Solo(p: nat, s: State, steps: seq<Action>, to: State)
    decreases |steps|
  {
    if steps == [] then s == to
    else Enabled(s, Step(p, steps[0])) && Solo(p, After(s, Step(p, steps[0])), steps[1..], to)
  }

  lemma SoloCons(p: nat, s: State, act: Action, steps: seq<Action>, to: State)
    requires Enabled(s, Step(p, act)) && Solo(p, After(s, Step(p, act)), steps, to)
    ensures Solo(p, s, [act] + steps, to)
  {
    assert ([act] + steps)[1..] == steps;
  }

  function StepsLeft(pc: Pc): nat {
    match pc
    case Start => 8
    case Opened => 7
    case Binding => 6
    case InUse => 5
    case Refused => 4
    case Rebinding => 3
    case Named => 2
    case _ => 0
  }

  /** What a process does next on the successful way up. */
  lemma {:induction false} ComesUp(s: State, p: nat) returns (acts: seq<Action>, to: State)
    requires Inv(s) && p < |s.procs| && s.procs[p].pc in {Start, Opened, Binding, InUse, Refused, Rebinding, Named, Serving}
    requires s.procs[p].pc == Start ==> s.lock.None?
    requires !Answers(s) || s.file == Some(p)
    ensures Solo(p, s, acts, to) && |acts| <= StepsLeft(s.procs[p].pc) && p < |to.procs| && to.procs[p].pc == Serving && Inv(to)
    decreases StepsLeft(s.procs[p].pc)
  {
    var pc := s.procs[p].pc;
    assert ProcOk(s, p, s.procs[p]);
    if pc == Serving {
      return [], s;
    }
    var act := if pc == Start then Open else if pc == Opened then StartBind else if pc == Binding then Bind
               else if pc == InUse then Connect else if pc == Refused then Reclaim
               else if pc == Rebinding then BindAgain else Listen;
    StepKeeps(s, Step(p, act));
    var rest;
    rest, to := ComesUp(After(s, Step(p, act)), p);
    SoloCons(p, s, act, rest, to);
    acts := [act] + rest;
  }

  /** A crash never blocks its successor: from every reachable state with the lock free and no
      half-closed listener, any waiting process gets to serve by its own steps alone,
      whatever file the endpoint holds. */
  lemma CrashIsRecoverable(run: seq<State>, steps: seq<Step>, i: nat, p: nat)
    requires IsRun(run, steps) && i < |run| && p < |run[i].procs|
    requires run[i].lock.None? && !Answers(run[i]) && run[i].procs[p].pc == Start
    ensures exists acts, to :: Solo(p, run[i], acts, to) && |acts| <= 8 && p < |to.procs| && to.procs[p].pc == Serving
  {
    RunKeeps(run, steps, i);
    var acts, to := ComesUp(run[i], p);
  }

  /** A daemon that has closed its listener and removes a file removes its own, the one at the
      endpoint; and however the run goes on, no file of its own is ever there again. */
  lemma RemovesOwnFile(run: seq<State>, steps: seq<Step>, i: nat)
    requires IsRun(run, steps) && i < |steps| && steps[i].act == RemoveOwn
    ensures run[i].file == Some(steps[i].pid) && run[i].lock == Some(steps[i].pid) && run[i + 1].file.None?
    ensures forall k :: i < k < |run| ==> run[k].file != Some(steps[i].pid)
  {
    RunKeeps(run, steps, i);
    assert StepAt(run, steps, i);
    assert ProcOk(run[i], steps[i].pid, run[i].procs[steps[i].pid]);
    forall k | i < k < |run| ensures run[k].file != Some(steps[i].pid) {
      StaysAway(run, steps, i, k);
    }
  }

  lemma {:induction false} StaysAway(run: seq<State>, steps: seq<Step>, i: nat, k: nat)
    requires IsRun(run, steps) && i < |steps| && steps[i].act == RemoveOwn && i < k < |run|
    ensures var p := steps[i].pid;
            p < |run[k].procs| && run[k].procs[p].pc in {Leaving, Dying, Gone} && run[k].file != Some(p)
    decreases k
  {
    RunKeeps(run, steps, k - 1);
    assert StepAt(run, steps, k - 1);
    if i + 1 < k {
      StaysAway(run, steps, i, k - 1);
    }
  }

  /** Closing the listener leads on to removing the file, or to binding anew: a daemon does
      neither and still leaves only by crashing. */
  lemma ClosedGoesOn(run: seq<State>, steps: seq<Step>, i: nat, j: nat)
    requires IsRun(run, steps) && i < j < |steps| && steps[i].act == CloseListener && steps[j].pid == steps[i].pid
    requires forall k :: i < k < j ==> steps[k].pid != steps[i].pid
    ensures steps[j].act in {RemoveOwn, BindAfterClose, Crash}
  {
    StillClosed(run, steps, i, j);
    assert StepAt(run, steps, j);
  }

  lemma {:induction false} StillClosed(run: seq<State>, steps: seq<Step>, i: nat, k: nat)
    requires IsRun(run, steps) && i < k < |run| && steps[i].act == CloseListener
    requires forall l :: i < l < k ==> steps[l].pid != steps[i].pid
    ensures steps[i].pid < |run[k].procs| && run[k].procs[steps[i].pid].pc == Closed
    decreases k
  {
    assert StepAt(run, steps, k - 1);
    if i + 1 < k {
      StillClosed(run, steps, i, k - 1);
    }
  }
}
